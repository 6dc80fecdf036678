/**
 * The server registry of pkg/config/server.go: one server, tomcat, whose Install checks that
 * the version is not already there, creates the tomcat directory when it is missing, and then
 * downloads, unpacks and renames the release. Config.ServersDir, os.TempDir(), the answers of
 * os.Stat and the outcome of each step are parameters.
 */
module Servers {
  import opened Wrappers
  import opened Errors
  import Strings
  import Lists
  import opened Paths
  import opened Steps
  import Tools
  import Archive
  import FileSystem

  datatype Server = Server(name: string, defaultVersion: string)

  /** The one supported server and its default version (pkg/config/server.go:28-29). */
  function Tomcat(): Server {
    Server("tomcat", "10.0.10")
  }

  /** DefaultSupportedServers: tomcat, under a name no other entry shares. */
  function Registry(): (r: seq<Server>)
    ensures Tomcat() in r
    ensures forall i, j :: 0 <= i < j < |r| ==> r[i].name != r[j].name
  {
    [Tomcat()]
  }

  /** The first server of `servers` called `name`, else ServerNotFound. */
  function FindIn(servers: seq<Server>, name: string): (r: Result<Server>)
    ensures r.Ok? <==> exists i :: 0 <= i < |servers| && servers[i].name == name
    ensures r.Ok? ==> exists i :: 0 <= i < |servers| && servers[i] == r.value &&
                        r.value.name == name && forall j :: 0 <= j < i ==> servers[j].name != name
    ensures r.Err? ==> r.error == ServerNotFound(name)
  {
    var k := Lists.First(servers, (s: Server) => s.name, name);
    if k == -1 then Err(ServerNotFound(name)) else Ok(servers[k])
  }

  /** config.FindServer. */
  function FindServer(name: string): (r: Result<Server>)
    ensures r.Ok? <==> name == "tomcat"
    ensures r.Ok? ==> r.value == Tomcat()
    ensures r.Err? ==> r.error == ServerNotFound(name)
  {
    FindIn(Registry(), name)
  }

  /** The registry's names, in order (the servers command's ValidArgs). */
  function ServerNames(): (r: seq<string>)
    ensures |r| == |Registry()|
    ensures forall i :: 0 <= i < |r| ==> r[i] == Registry()[i].name
  {
    Lists.Keys(Registry(), (s: Server) => s.name)
  }

  /** Every name the servers command offers is found. */
  lemma ServerNamesAreFound(name: string)
    requires name in ServerNames()
    ensures FindServer(name) == Ok(Tomcat())
  {
  }

  // ---------------------------------------------------------------------------------------
  // Tomcat's Install

  /**
   * `version[0:strings.Index(version, ".")]`: the text before the first dot. Without a dot the
   * index is -1 and the slice panics.
   */
  function MajorVersion(version: string): (r: Result<string>)
    ensures r.Ok? <==> '.' in version
    ensures r.Ok? ==> '.' !in r.value && Strings.HasPrefix(version, r.value + ".")
    ensures r.Err? ==> r.error.Panic?
  {
    var k := Strings.IndexOf(version, '.');
    if k == -1 then Err(Panic("runtime error: slice bounds out of range [:-1]"))
    else
      assert version[..k] + "." == version[..k + 1];
      Ok(version[..k])
  }

  /** The directory "tomcat" inside the servers directory. */
  function TomcatsDir(serversDir: string): (d: string)
    ensures Resolve(d) == Some(Path(Clean(Parse(serversDir)).rooted, Clean(Parse(serversDir)).elems + ["tomcat"]))
  {
    JoinName(serversDir, "tomcat");
    Join([serversDir, "tomcat"])
  }

  /** The directory named after the version inside the tomcat directory. */
  function VersionDir(serversDir: string, version: string): (d: string)
    ensures SimpleName(version) ==>
              Resolve(d) == Some(Path(Clean(Parse(serversDir)).rooted, Clean(Parse(serversDir)).elems + ["tomcat", version]))
  {
    var t, c := TomcatsDir(serversDir), Clean(Parse(serversDir));
    if SimpleName(version) then
      JoinName(t, version);
      assert Clean(Parse(t)) == Path(c.rooted, c.elems + ["tomcat"]);
      assert c.elems + ["tomcat"] + [version] == c.elems + ["tomcat", version];
      Join([t, version])
    else Join([t, version])
  }

  /** Each version has a directory of its own, directly inside the tomcat directory. */
  lemma VersionDirsApart(serversDir: string, v1: string, v2: string)
    requires SimpleName(v1) && SimpleName(v2)
    ensures Resolve(VersionDir(serversDir, v1)) == Resolve(VersionDir(serversDir, v2)) <==> v1 == v2
    ensures Parent(Resolve(VersionDir(serversDir, v1)).value) == Resolve(TomcatsDir(serversDir)).value
  {
    var c := Clean(Parse(serversDir));
    var p1, p2 := Resolve(VersionDir(serversDir, v1)), Resolve(VersionDir(serversDir, v2));
    assert p1 == Some(Path(c.rooted, c.elems + ["tomcat", v1]));
    assert p2 == Some(Path(c.rooted, c.elems + ["tomcat", v2]));
    NamesApart(c.elems, "tomcat", v1, v2);
  }

  /** Two names appended under the same directory give the same path only when they are equal. */
  lemma NamesApart(c: seq<string>, dir: string, v1: string, v2: string)
    ensures c + [dir, v1] == c + [dir, v2] <==> v1 == v2
    ensures (c + [dir, v1])[..|c| + 1] == c + [dir]
  {
    if v1 != v2 {
      assert (c + [dir, v1])[|c| + 1] == v1;
      assert (c + [dir, v2])[|c| + 1] == v2;
    }
  }

  /** Where the release is saved: tomcat.zip in the temporary directory. */
  function TomcatArchive(tmp: string): (a: string)
    ensures Tools.KnownArchive(a) && Strings.HasSuffix(a, ".zip")
  {
    var file := Tools.ArchiveName("tomcat", ".zip");
    var a := Join([tmp, file]);
    JoinName(tmp, file);
    Strings.SuffixTransitive(a, file, ".zip");
    a
  }

  /** The release of `version`, filed under its major version, named apache-tomcat-<version>.zip. */
  function TomcatUrl(major: string, version: string): (u: string)
    ensures Strings.HasSuffix(u, "/apache-tomcat-" + version + ".zip")
    ensures Strings.HasSuffix(u, ".zip")
  {
    var asset := Tools.Suffixed("/apache-tomcat-" + version, ".zip");
    var u := Tools.Suffixed("https://archive.apache.org/dist/tomcat/tomcat-" + major + "/v" + version + "/bin", asset);
    Strings.SuffixTransitive(u, asset, ".zip");
    u
  }

  function AlreadyPresent(version: string, dir: string): Error {
    Failure("Tomcat " + version + " already present at " + dir)
  }

  /** Download an archive, unpack it into `dest`, move the unpacked `from` to `to`, remove the archive. */
  function UnpackPlan(url: string, archive: string, dest: string, from: string, to: string): (r: seq<Step>)
    ensures |r| == 4
    ensures r[0] == Download(url, archive) && r[1] == Expand(archive, dest)
    ensures r[2] == Rename(from, to) && r[3] == Remove(archive)
    ensures Tools.SameFormat(url, archive) ==> Tools.UnpacksDownloads(r)
    ensures Tools.Installs(r, to)
    ensures forall i :: 0 <= i < |r| && r[i].Expand? ==> r[i] == Expand(archive, dest)
  {
    var r := [Download(url, archive), Expand(archive, dest), Rename(from, to), Remove(archive)];
    Tools.InstallsAt(r, 2, to);
    if Tools.SameFormat(url, archive) then Tools.UnpacksSingleExpand(r, 1); r else r
  }

  /**
   * Download the release to tomcat.zip in the temporary directory, unpack it into the tomcat
   * directory, rename the unpacked apache-tomcat-<version> to the version directory and remove
   * the archive.
   */
  function TomcatPlan(serversDir: string, version: string, major: string, tmp: string): (r: seq<Step>)
    ensures |r| == 4
    ensures r[0] == Download(TomcatUrl(major, version), TomcatArchive(tmp))
    ensures r[1] == Expand(TomcatArchive(tmp), TomcatsDir(serversDir))
    ensures r[2] == Rename(Join([TomcatsDir(serversDir), "apache-tomcat-" + version]), VersionDir(serversDir, version))
    ensures r[3] == Remove(TomcatArchive(tmp))
    ensures Tools.UnpacksDownloads(r)
    ensures Tools.Installs(r, VersionDir(serversDir, version))
    ensures forall i :: 0 <= i < |r| && r[i].Expand? ==> r[i] == Expand(TomcatArchive(tmp), TomcatsDir(serversDir))
  {
    var tomcatsDir := TomcatsDir(serversDir);
    UnpackPlan(TomcatUrl(major, version), TomcatArchive(tmp), tomcatsDir,
               Join([tomcatsDir, "apache-tomcat-" + version]), VersionDir(serversDir, version))
  }

  /** The MkdirAll carried out when the tomcat directory is missing. */
  function MakeTomcatsDir(serversDir: string, absent: string -> bool): seq<Step> {
    if absent(TomcatsDir(serversDir)) then [MkdirAll(TomcatsDir(serversDir), FileSystem.Mode0755)] else []
  }

  /** The part of Install after the tomcat directory exists: `done` are the steps already taken. */
  function Finish(serversDir: string, version: string, tmp: string, done: seq<Step>,
                  env: Step -> Option<Error>): (r: Trace)
    ensures done <= r.performed
    ensures r.err.None? ==>
              && '.' in version
              && r.performed == done + TomcatPlan(serversDir, version, MajorVersion(version).value, tmp)
    ensures '.' !in version ==> r == Trace(done, Some(MajorVersion(version).error))
    ensures '.' in version ==>
              var plan := TomcatPlan(serversDir, version, MajorVersion(version).value, tmp);
              && (r.err.None? <==> AllSucceed(plan, env))
              && (r.err.Some? ==> |r.performed| > |done| && r.err == env(r.performed[|r.performed| - 1]))
  {
    match MajorVersion(version)
    case Err(e) => Trace(done, Some(e))
    case Ok(major) =>
      RunStopsAtFirstFailure(TomcatPlan(serversDir, version, major, tmp), env);
      var rest := Run(TomcatPlan(serversDir, version, major, tmp), env);
      Trace(done + rest.performed, rest.err)
  }

  /**
   * The tomcat Install as written: when creating the tomcat directory fails it returns nil,
   * reporting success although nothing was installed.
   */
  function TomcatInstallAsWritten(serversDir: string, version: string, tmp: string, absent: string -> bool,
                                  env: Step -> Option<Error>): (r: Trace)
    ensures !absent(VersionDir(serversDir, version)) ==>
              r == Trace([], Some(AlreadyPresent(version, VersionDir(serversDir, version))))
    ensures r.err.None? ==> absent(VersionDir(serversDir, version))
    ensures r.err.None? ==>
              || Tools.Installs(r.performed, VersionDir(serversDir, version))
              || (absent(TomcatsDir(serversDir))
                  && env(MkdirAll(TomcatsDir(serversDir), FileSystem.Mode0755)).Some?
                  && r.performed == [MkdirAll(TomcatsDir(serversDir), FileSystem.Mode0755)])
  {
    var versionDir := VersionDir(serversDir, version);
    if !absent(versionDir) then Trace([], Some(AlreadyPresent(version, versionDir)))
    else
      var mkdir := MakeTomcatsDir(serversDir, absent);
      var made := Run(mkdir, env);
      if made.err.Some? then Trace(made.performed, None)
      else
        var r := Finish(serversDir, version, tmp, mkdir, env);
        if r.err.None? then
          InstallsAfter(mkdir, TomcatPlan(serversDir, version, MajorVersion(version).value, tmp), versionDir);
          r
        else r
  }

  /**
   * The tomcat Install with the MkdirAll error returned, as the surrounding code evidently
   * intends. It succeeds only after every step of the plan, ending with the release renamed to the
   * version directory and the archive removed.
   */
  function TomcatInstall(serversDir: string, version: string, tmp: string, absent: string -> bool,
                         env: Step -> Option<Error>): (r: Trace)
    ensures !absent(VersionDir(serversDir, version)) ==>
              r == Trace([], Some(AlreadyPresent(version, VersionDir(serversDir, version))))
    ensures r.err.None? ==>
              && absent(VersionDir(serversDir, version))
              && '.' in version
              && r.performed == MakeTomcatsDir(serversDir, absent)
                                + TomcatPlan(serversDir, version, MajorVersion(version).value, tmp)
    ensures r.err.None? ==> Tools.Installs(r.performed, VersionDir(serversDir, version))
  {
    var versionDir := VersionDir(serversDir, version);
    if !absent(versionDir) then Trace([], Some(AlreadyPresent(version, versionDir)))
    else
      var mkdir := MakeTomcatsDir(serversDir, absent);
      var made := Run(mkdir, env);
      if made.err.Some? then made
      else
        var r := Finish(serversDir, version, tmp, mkdir, env);
        if r.err.None? then
          InstallsAfter(mkdir, TomcatPlan(serversDir, version, MajorVersion(version).value, tmp), versionDir);
          r
        else r
  }

  /** Tomcat's default version 10.0.10 has major version 10. */
  lemma MajorOfDefault()
    ensures '.' in "10.0.10" && MajorVersion("10.0.10") == Ok("10")
  {
    var v := "10.0.10";
    assert v[1..] == "0.0.10" && v[2..] == ".0.10";
    assert Strings.IndexOf(".0.10", '.') == 0;
    assert Strings.IndexOf("0.0.10", '.') == 1;
    assert Strings.IndexOf(v, '.') == 2;
    assert v[..2] == "10";
  }

  /**
   * When the version directory is absent and the version has a '.', the corrected install
   * succeeds exactly when every step of MkdirAll and the plan does; a failure is the error of
   * the last step it carried out.
   */
  lemma TomcatInstallOutcome(serversDir: string, version: string, tmp: string, absent: string -> bool,
                             env: Step -> Option<Error>)
    ensures absent(VersionDir(serversDir, version)) && '.' in version ==>
              var mk, plan := MakeTomcatsDir(serversDir, absent), TomcatPlan(serversDir, version, MajorVersion(version).value, tmp);
              var r := TomcatInstall(serversDir, version, tmp, absent, env);
              && (r.err.None? <==> AllSucceed(mk + plan, env))
              && (r.err.Some? ==> |r.performed| > 0 && r.err == env(r.performed[|r.performed| - 1]))
  {
    if absent(VersionDir(serversDir, version)) && '.' in version {
      var mk := MakeTomcatsDir(serversDir, absent);
      TomcatInstallSequence(serversDir, version, tmp, absent, env);
      ThenOutcome(mk, TomcatPlan(serversDir, version, MajorVersion(version).value, tmp),
                  Finish(serversDir, version, tmp, mk, env), env);
    }
  }

  /** With the version directory absent, the corrected install is MkdirAll's run, then Finish when it succeeded. */
  lemma TomcatInstallSequence(serversDir: string, version: string, tmp: string, absent: string -> bool,
                              env: Step -> Option<Error>)
    ensures var mk := MakeTomcatsDir(serversDir, absent);
            absent(VersionDir(serversDir, version)) ==>
              TomcatInstall(serversDir, version, tmp, absent, env)
              == if Run(mk, env).err.Some? then Run(mk, env) else Finish(serversDir, version, tmp, mk, env)
  {
  }

  /**
   * The same for the original install, which also reports success when MkdirAll fails; its
   * failures too are the error of the last step carried out.
   */
  lemma TomcatAsWrittenOutcome(serversDir: string, version: string, tmp: string, absent: string -> bool,
                               env: Step -> Option<Error>)
    ensures absent(VersionDir(serversDir, version)) && '.' in version ==>
              var mk, plan := MakeTomcatsDir(serversDir, absent), TomcatPlan(serversDir, version, MajorVersion(version).value, tmp);
              var w := TomcatInstallAsWritten(serversDir, version, tmp, absent, env);
              && (w.err.None? <==> (AllSucceed(mk, env) ==> AllSucceed(plan, env)))
              && (w.err.Some? ==> |w.performed| > 0 && w.err == env(w.performed[|w.performed| - 1]))
  {
    if absent(VersionDir(serversDir, version)) && '.' in version {
      RunStopsAtFirstFailure(MakeTomcatsDir(serversDir, absent), env);
    }
  }

  /** Steps taken before keep a later step's install. */
  lemma InstallsAfter(before: seq<Step>, p: seq<Step>, target: string)
    requires Tools.Installs(p, target)
    ensures Tools.Installs(before + p, target)
  {
    var i :| 0 <= i < |p| && ((p[i].Download? && p[i].file == target) || (p[i].Rename? && p[i].to == target) ||
                             (p[i].Symlink? && p[i].link == target) || (p[i].Chmod? && p[i].path == target));
    Tools.InstallsAt(before + p, |before| + i, target);
  }

  /**
   * Where the two differ: with the tomcat directory missing and MkdirAll failing, the original
   * reports success although nothing reaches the version directory, while the corrected one
   * returns MkdirAll's error.
   */
  lemma TomcatAsWrittenHidesMkdirFailure(serversDir: string, version: string, tmp: string,
                                         absent: string -> bool, env: Step -> Option<Error>)
    requires absent(VersionDir(serversDir, version)) && absent(TomcatsDir(serversDir))
    requires env(MkdirAll(TomcatsDir(serversDir), FileSystem.Mode0755)).Some?
    ensures var r := TomcatInstallAsWritten(serversDir, version, tmp, absent, env);
            r.err.None? && !Tools.Installs(r.performed, VersionDir(serversDir, version))
    ensures TomcatInstall(serversDir, version, tmp, absent, env).err
            == env(MkdirAll(TomcatsDir(serversDir), FileSystem.Mode0755))
  {
    var m := MkdirAll(TomcatsDir(serversDir), FileSystem.Mode0755);
    assert MakeTomcatsDir(serversDir, absent) == [m];
    assert Run([m], env) == Trace([m], env(m));
    assert TomcatInstallAsWritten(serversDir, version, tmp, absent, env) == Trace([m], None);
    assert TomcatInstall(serversDir, version, tmp, absent, env) == Trace([m], env(m));
  }

  /** Everywhere else the corrected Install is the original. */
  lemma TomcatInstallsAgree(serversDir: string, version: string, tmp: string,
                            absent: string -> bool, env: Step -> Option<Error>)
    requires absent(TomcatsDir(serversDir)) ==> env(MkdirAll(TomcatsDir(serversDir), FileSystem.Mode0755)).None?
    ensures TomcatInstallAsWritten(serversDir, version, tmp, absent, env)
            == TomcatInstall(serversDir, version, tmp, absent, env)
  {
  }

  /**
   * A version without a dot gets past the existence check and the MkdirAll, then panics before
   * anything is downloaded.
   */
  lemma TomcatPanicsWithoutDot(serversDir: string, version: string, tmp: string,
                               absent: string -> bool, env: Step -> Option<Error>)
    requires '.' !in version
    requires absent(VersionDir(serversDir, version))
    requires absent(TomcatsDir(serversDir)) ==> env(MkdirAll(TomcatsDir(serversDir), FileSystem.Mode0755)).None?
    ensures var r := TomcatInstall(serversDir, version, tmp, absent, env);
            r.err.Some? && r.err.value.Panic? && r.performed == MakeTomcatsDir(serversDir, absent)
  {
  }

  /** Every unpacking step of `p` is `e`. */
  predicate OnlyExpands(p: seq<Step>, e: Step) {
    forall i :: 0 <= i < |p| && p[i].Expand? ==> p[i] == e
  }

  lemma OnlyExpandsPrefix(p: seq<Step>, q: seq<Step>, e: Step)
    requires q <= p && OnlyExpands(p, e)
    ensures OnlyExpands(q, e)
  {
    assert forall i :: 0 <= i < |q| ==> q[i] == p[i];
  }

  lemma OnlyExpandsConcat(p: seq<Step>, q: seq<Step>, e: Step)
    requires OnlyExpands(p, e) && OnlyExpands(q, e)
    ensures OnlyExpands(p + q, e)
  {
    assert forall i :: |p| <= i < |p + q| ==> (p + q)[i] == q[i - |p|];
  }

  /** The only unpacking Install performs is of tomcat.zip into the tomcat directory. */
  lemma TomcatInstallExpands(serversDir: string, version: string, tmp: string,
                             absent: string -> bool, env: Step -> Option<Error>)
    ensures OnlyExpands(TomcatInstall(serversDir, version, tmp, absent, env).performed,
                        Expand(TomcatArchive(tmp), TomcatsDir(serversDir)))
  {
    var e := Expand(TomcatArchive(tmp), TomcatsDir(serversDir));
    var versionDir, mkdir := VersionDir(serversDir, version), MakeTomcatsDir(serversDir, absent);
    var r := TomcatInstall(serversDir, version, tmp, absent, env);
    if absent(versionDir) {
      var made := Run(mkdir, env);
      OnlyExpandsPrefix(mkdir, made.performed, e);
      var major := MajorVersion(version);
      if made.err.None? && major.Ok? {
        var p := TomcatPlan(serversDir, version, major.value, tmp);
        var rest := Run(p, env);
        assert r == Finish(serversDir, version, tmp, mkdir, env) == Trace(mkdir + rest.performed, rest.err);
        OnlyExpandsPrefix(p, rest.performed, e);
        OnlyExpandsConcat(mkdir, rest.performed, e);
      }
    }
  }

  /** The archive is saved as tomcat.zip, so utils.Expand always takes the zip path. */
  lemma TomcatNeverMeetsUnknownFormat(serversDir: string, version: string, tmp: string,
                                      absent: string -> bool, env: Step -> Option<Error>,
                                      i: nat, dest: string, c: Archive.Container, fs: FileSystem.FS)
    requires var r := TomcatInstall(serversDir, version, tmp, absent, env);
             i < |r.performed| && r.performed[i].Expand?
    ensures var a := TomcatInstall(serversDir, version, tmp, absent, env).performed[i].archive;
            a == TomcatArchive(tmp) && Strings.HasSuffix(a, ".zip")
            && Archive.Expand(a, dest, c, fs).err != Some(Archive.UnknownFormat)
  {
    TomcatInstallExpands(serversDir, version, tmp, absent, env);
  }
}
