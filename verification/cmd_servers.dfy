/**
 * cmd/servers.go, `devcore servers install <server> [--version v]`: the argument must name a
 * registry server; an empty --version means the server's default version; then the server's
 * install procedure runs under the configured servers directory.
 */
module CmdServers {
  import opened Wrappers
  import opened Errors
  import opened Steps
  import Cli
  import Strings
  import Servers
  import Tools
  import FileSystem

  /** The server the command installs, and the version it installs, or the error its PreRunE returns. */
  function Resolve(args: seq<string>, version: string): (r: Result<(Servers.Server, string)>)
    ensures |args| != 1 ==> r == Err(ArgCount(Exactly(1), |args|))
    ensures |args| == 1 ==> (r.Ok? <==> args[0] in Servers.ServerNames())
    ensures |args| == 1 && r.Err? ==> r.error == ServerNotFound(args[0])
    ensures r.Ok? ==> && r.value.0 == Servers.Tomcat()
                      && (version != "" ==> r.value.1 == version)
                      && (version == "" ==> r.value.1 == Servers.Tomcat().defaultVersion)
  {
    match Cli.CheckArgs(Exactly(1), args)
    case Some(e) => Err(e)
    case None =>
      match Servers.FindServer(args[0])
      case Err(e) => Err(e)
      case Ok(s) => Ok((s, Cli.ResolveVersion(version, s.defaultVersion)))
  }

  /**
   * `servers install`: nothing is done for an unknown server; otherwise Tomcat's Install, as
   * written, runs for the resolved version under `serversDir` (Config.ServersDir). It reports
   * success without installing anything when the tomcat directory cannot be created.
   */
  function Install(args: seq<string>, version: string, serversDir: string, tmp: string, absent: string -> bool,
                   env: Step -> Option<Error>): (r: Trace)
    ensures Resolve(args, version).Err? ==> r == Trace([], Some(Resolve(args, version).error))
    ensures Resolve(args, version).Ok? && r.err.None? ==>
              || Tools.Installs(r.performed, Servers.VersionDir(serversDir, Resolve(args, version).value.1))
              || (absent(Servers.TomcatsDir(serversDir))
                  && env(MkdirAll(Servers.TomcatsDir(serversDir), FileSystem.Mode0755)).Some?
                  && r.performed == [MkdirAll(Servers.TomcatsDir(serversDir), FileSystem.Mode0755)])
  {
    match Resolve(args, version)
    case Err(e) => Trace([], Some(e))
    case Ok((s, v)) => Servers.TomcatInstallAsWritten(serversDir, v, tmp, absent, env)
  }

  /** `servers install` with the corrected Install: success means the version directory is installed. */
  function InstallCorrected(args: seq<string>, version: string, serversDir: string, tmp: string,
                            absent: string -> bool, env: Step -> Option<Error>): (r: Trace)
    ensures Resolve(args, version).Err? ==> r == Trace([], Some(Resolve(args, version).error))
    ensures Resolve(args, version).Ok? && r.err.None? ==>
              Tools.Installs(r.performed, Servers.VersionDir(serversDir, Resolve(args, version).value.1))
  {
    match Resolve(args, version)
    case Err(e) => Trace([], Some(e))
    case Ok((s, v)) => Servers.TomcatInstall(serversDir, v, tmp, absent, env)
  }

  /** The two commands differ only when the tomcat directory is missing and cannot be created. */
  lemma InstallsAgree(args: seq<string>, version: string, serversDir: string, tmp: string,
                      absent: string -> bool, env: Step -> Option<Error>)
    requires absent(Servers.TomcatsDir(serversDir)) ==>
               env(MkdirAll(Servers.TomcatsDir(serversDir), FileSystem.Mode0755)).None?
    ensures Install(args, version, serversDir, tmp, absent, env)
            == InstallCorrected(args, version, serversDir, tmp, absent, env)
  {
    if Resolve(args, version).Ok? {
      Servers.TomcatInstallsAgree(serversDir, Resolve(args, version).value.1, tmp, absent, env);
    }
  }

  /**
   * `servers install tomcat` with no --version targets Tomcat's default version 10.0.10: an
   * existing directory is refused; when every step of the install succeeds, 10.0.10 is
   * installed; a reported success installed it, or was the hidden MkdirAll failure.
   */
  lemma DefaultTomcatInstall(serversDir: string, tmp: string, absent: string -> bool, env: Step -> Option<Error>)
    ensures var r, dir := Install(["tomcat"], "", serversDir, tmp, absent, env), Servers.VersionDir(serversDir, "10.0.10");
            && (r.err.None? ==> Tools.Installs(r.performed, dir)
                                || env(MkdirAll(Servers.TomcatsDir(serversDir), FileSystem.Mode0755)).Some?)
            && (!absent(dir) ==> r == Trace([], Some(Servers.AlreadyPresent("10.0.10", dir))))
  {
    assert Servers.ServerNames() == ["tomcat"];
    assert Resolve(["tomcat"], "") == Ok((Servers.Tomcat(), "10.0.10"));
  }

  /** With 10.0.10 absent and every step of its install succeeding, `servers install tomcat` installs it. */
  lemma DefaultTomcatInstalls(serversDir: string, tmp: string, absent: string -> bool, env: Step -> Option<Error>)
    ensures var r, dir := Install(["tomcat"], "", serversDir, tmp, absent, env), Servers.VersionDir(serversDir, "10.0.10");
            absent(dir) && AllSucceed(Servers.MakeTomcatsDir(serversDir, absent)
                                      + Servers.TomcatPlan(serversDir, "10.0.10", "10", tmp), env) ==>
              r.err.None? && Tools.Installs(r.performed, dir)
  {
    DefaultResolves();
    InstallSucceeds(["tomcat"], "", serversDir, tmp, absent, env);
  }

  /** `servers install tomcat` with no --version resolves to 10.0.10, whose major version is 10. */
  lemma DefaultResolves()
    ensures Resolve(["tomcat"], "") == Ok((Servers.Tomcat(), "10.0.10"))
    ensures '.' in "10.0.10" && Servers.MajorVersion("10.0.10") == Ok("10")
  {
    assert Servers.ServerNames() == ["tomcat"];
    Servers.MajorOfDefault();
  }

  /**
   * When the resolved version is absent and has a '.', and every step of MkdirAll and the plan
   * succeeds, `servers install` installs the version directory.
   */
  lemma InstallSucceeds(args: seq<string>, version: string, serversDir: string, tmp: string,
                        absent: string -> bool, env: Step -> Option<Error>)
    ensures Resolve(args, version).Ok? ==>
              var v := Resolve(args, version).value.1;
              absent(Servers.VersionDir(serversDir, v)) && '.' in v
              && AllSucceed(Servers.MakeTomcatsDir(serversDir, absent)
                            + Servers.TomcatPlan(serversDir, v, Servers.MajorVersion(v).value, tmp), env) ==>
                var w := Install(args, version, serversDir, tmp, absent, env);
                w.err.None? && Tools.Installs(w.performed, Servers.VersionDir(serversDir, v))
  {
    if Resolve(args, version).Ok? {
      var v := Resolve(args, version).value.1;
      var mk := Servers.MakeTomcatsDir(serversDir, absent);
      if absent(Servers.VersionDir(serversDir, v)) && '.' in v {
        var plan := Servers.TomcatPlan(serversDir, v, Servers.MajorVersion(v).value, tmp);
        if AllSucceed(mk + plan, env) {
          AllSucceedAppend(mk, plan, env);
          InstallOutcome(args, version, serversDir, tmp, absent, env);
          var m := MkdirAll(Servers.TomcatsDir(serversDir), FileSystem.Mode0755);
          assert absent(Servers.TomcatsDir(serversDir)) ==> mk == [m];
        }
      }
    }
  }

  /**
   * With a resolved version that is absent and has a '.', `servers install` as written
   * succeeds exactly when MkdirAll fails or every step of the plan succeeds, and a failure is
   * the error of the last step carried out.
   */
  lemma InstallOutcome(args: seq<string>, version: string, serversDir: string, tmp: string,
                       absent: string -> bool, env: Step -> Option<Error>)
    ensures Resolve(args, version).Ok? ==>
              var v := Resolve(args, version).value.1;
              absent(Servers.VersionDir(serversDir, v)) && '.' in v ==>
                var mk, plan := Servers.MakeTomcatsDir(serversDir, absent),
                                Servers.TomcatPlan(serversDir, v, Servers.MajorVersion(v).value, tmp);
                var w := Install(args, version, serversDir, tmp, absent, env);
                && (w.err.None? <==> (AllSucceed(mk, env) ==> AllSucceed(plan, env)))
                && (w.err.Some? ==> |w.performed| > 0 && w.err == env(w.performed[|w.performed| - 1]))
  {
    if Resolve(args, version).Ok? {
      var v := Resolve(args, version).value.1;
      assert Install(args, version, serversDir, tmp, absent, env)
             == Servers.TomcatInstallAsWritten(serversDir, v, tmp, absent, env);
      Servers.TomcatAsWrittenOutcome(serversDir, v, tmp, absent, env);
    }
  }

  /**
   * The same for the corrected command: it succeeds exactly when every step of MkdirAll and the
   * plan does, and a failure is the error of the last step carried out.
   */
  lemma InstallCorrectedOutcome(args: seq<string>, version: string, serversDir: string, tmp: string,
                                absent: string -> bool, env: Step -> Option<Error>)
    ensures Resolve(args, version).Ok? ==>
              var v := Resolve(args, version).value.1;
              absent(Servers.VersionDir(serversDir, v)) && '.' in v ==>
                var mk, plan := Servers.MakeTomcatsDir(serversDir, absent),
                                Servers.TomcatPlan(serversDir, v, Servers.MajorVersion(v).value, tmp);
                var r := InstallCorrected(args, version, serversDir, tmp, absent, env);
                && (r.err.None? <==> AllSucceed(mk + plan, env))
                && (r.err.Some? ==> |r.performed| > 0 && r.err == env(r.performed[|r.performed| - 1]))
  {
    if Resolve(args, version).Ok? {
      var v := Resolve(args, version).value.1;
      assert InstallCorrected(args, version, serversDir, tmp, absent, env)
             == Servers.TomcatInstall(serversDir, v, tmp, absent, env);
      Servers.TomcatInstallOutcome(serversDir, v, tmp, absent, env);
    }
  }
}
