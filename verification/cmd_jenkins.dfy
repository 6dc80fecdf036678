/**
 * cmd/jenkins.go: the `jenkins cli` and `jenkins context` commands. Each command is a function
 * of the Jenkins section of the configuration, its arguments and flags, and what the operating
 * system answers (os.Stat, the pid of a started process, the result of a kill), to the new
 * configuration and the program it starts. Saving the configuration is not modelled.
 */
module CmdJenkins {
  import opened Wrappers
  import opened Errors
  import Paths
  import Lists
  import opened Cli
  import opened Config
  import opened Steps

  const NoContext := "No Jenkins context specified, neither a current one is set"

  /** The default of the --url flag. */
  const DefaultUrl := "http://127.0.0.1:8080"

  // ---------------------------------------------------------------------------------------
  // jenkins cli get / exec

  /**
   * `jenkins cli get`: download jenkins-cli.jar into the working directory `cwd` and, when
   * that worked, register its absolute path as the CLI.
   */
  function CliGet(j: Jenkins, url: string, cwd: string, download: Step -> Option<Error>): (r: (Trace, Jenkins))
    ensures r.0.performed == [Download(url + "/jnlpJars/jenkins-cli.jar", "jenkins-cli.jar")]
    ensures r.0.err == download(r.0.performed[0])
    ensures r.0.err.None? ==> r.1 == j.(cli := Paths.Join([cwd, "jenkins-cli.jar"]))
    ensures r.0.err.Some? ==> r.1 == j
  {
    var t := Run([Download(url + "/jnlpJars/jenkins-cli.jar", "jenkins-cli.jar")], download);
    if t.err.None? then (t, j.(cli := Paths.Join([cwd, "jenkins-cli.jar"]))) else (t, j)
  }

  /**
   * The PreRunE of `jenkins cli exec` as written: when os.Stat fails for a reason other than a
   * missing file, the nil FileInfo is asked IsDir() and the program panics.
   */
  function ExecCheckAsWritten(cli: string, stat: string -> Stat): (r: Option<Error>)
    ensures r.None? <==> cli != "" && stat(cli) == RegularFile
  {
    if cli == "" then Some(Failure("No jenkins-cli.jar registered. Use 'jenkins cli get' first"))
    else match stat(cli)
      case Missing => Some(PathError("stat", cli, NotExist))
      case StatError(reason) => Some(Panic("runtime error: invalid memory address or nil pointer dereference"))
      case Directory => Some(Failure("The jenkins-cli.jar is a directory"))
      case RegularFile => None
  }

  /** The same check returning os.Stat's error instead of panicking, as evidently intended. */
  function ExecCheck(cli: string, stat: string -> Stat): (r: Option<Error>)
    ensures r.None? <==> cli != "" && stat(cli) == RegularFile
    ensures r.Some? ==> !r.value.Panic?
  {
    if cli == "" then Some(Failure("No jenkins-cli.jar registered. Use 'jenkins cli get' first"))
    else match stat(cli)
      case Missing => Some(PathError("stat", cli, NotExist))
      case StatError(reason) => Some(External(reason))
      case Directory => Some(Failure("The jenkins-cli.jar is a directory"))
      case RegularFile => None
  }

  /** Where the two checks differ: only for a stat error other than a missing file. */
  lemma ExecCheckPanicsOnStatError(cli: string, stat: string -> Stat)
    ensures ExecCheckAsWritten(cli, stat) != ExecCheck(cli, stat) <==> cli != "" && stat(cli).StatError?
    ensures cli != "" && stat(cli).StatError? ==> ExecCheckAsWritten(cli, stat).value.Panic?
  {
  }

  /**
   * The arguments of `java` for `jenkins cli exec`: the CLI jar and the URL, then -webSocket
   * when asked for, then -auth and the credentials when there are any, then the user's own.
   */
  function ExecArgv(url: string, websocket: bool, creds: string, args: seq<string>): (r: seq<string>)
    ensures |r| == 4 + (if websocket then 1 else 0) + (if creds != "" then 2 else 0) + |args|
    ensures r[..4] == ["-jar", "jenkins-cli.jar", "-s", url]
    ensures r[|r| - |args|..] == args
  {
    ["-jar", "jenkins-cli.jar", "-s", url]
    + (if websocket then ["-webSocket"] else [])
    + (if creds != "" then ["-auth", creds] else [])
    + args
  }

  /** The options `jenkins cli exec` puts before the user's arguments. */
  datatype ExecOptions = ExecOptions(url: string, websocket: bool, creds: string)

  /** Reads the options back from the front of an argument list built by ExecArgv. */
  function ParseExecArgv(argv: seq<string>): (r: Option<(ExecOptions, seq<string>)>)
    ensures r.Some? <==> |argv| >= 4 && argv[..3] == ["-jar", "jenkins-cli.jar", "-s"]
    ensures r.Some? ==> r.value.0.url == argv[3] && |r.value.1| <= |argv| - 4
    ensures r.Some? ==> r.value.1 == argv[|argv| - |r.value.1|..]
  {
    if |argv| < 4 || argv[..3] != ["-jar", "jenkins-cli.jar", "-s"] then None
    else
      var rest := argv[4..];
      var ws := |rest| > 0 && rest[0] == "-webSocket";
      var rest1 := if ws then rest[1..] else rest;
      var auth := |rest1| > 1 && rest1[0] == "-auth" && rest1[1] != "";
      var rest2 := if auth then rest1[2..] else rest1;
      Some((ExecOptions(argv[3], ws, if auth then rest1[1] else ""), rest2))
  }

  /**
   * The flags can be read back from the argument list, unless the user's own arguments start
   * like an option ExecArgv leaves out.
   */
  lemma ExecArgvParses(url: string, websocket: bool, creds: string, args: seq<string>)
    requires !websocket && creds == "" ==> |args| == 0 || args[0] != "-webSocket"
    requires creds == "" ==> |args| < 2 || args[0] != "-auth" || args[1] == ""
    ensures ParseExecArgv(ExecArgv(url, websocket, creds, args)) == Some((ExecOptions(url, websocket, creds), args))
  {
    var argv := ExecArgv(url, websocket, creds, args);
    var opts := (if websocket then ["-webSocket"] else []) + (if creds != "" then ["-auth", creds] else []);
    assert argv == ["-jar", "jenkins-cli.jar", "-s", url] + opts + args;
    assert argv[4..] == opts + args;
    if websocket {
      assert (opts + args)[1..] == (if creds != "" then ["-auth", creds] else []) + args;
    }
    if creds != "" {
      var rest1 := (["-auth", creds] + args);
      assert rest1[2..] == args;
    }
  }

  /**
   * `jenkins cli exec`: after the check as written, `java` with ExecArgv, whose error is the
   * command's. The jar is named relative to the working directory, whatever path the check
   * looked at.
   */
  function Exec(j: Jenkins, url: string, websocket: bool, creds: string, args: seq<string>,
                stat: string -> Stat, exec: Command -> Option<Error>): (r: Outcome)
    ensures r.ran != [] <==> j.cli != "" && stat(j.cli) == RegularFile
    ensures r.ran == [] ==> r.err == ExecCheckAsWritten(j.cli, stat) && r.err.Some?
    ensures r.ran != [] ==> r.ran == [Command("java", ExecArgv(url, websocket, creds, args))] && r.err == exec(r.ran[0])
    ensures j.cli != "" && stat(j.cli).StatError? ==> r.err.Some? && r.err.value.Panic?
  {
    match ExecCheckAsWritten(j.cli, stat)
    case Some(e) => Outcome([], Some(e))
    case None =>
      var java := Command("java", ExecArgv(url, websocket, creds, args));
      Outcome([java], exec(java))
  }

  /** `jenkins cli exec` with the corrected check: it never panics. */
  function ExecCorrected(j: Jenkins, url: string, websocket: bool, creds: string, args: seq<string>,
                         stat: string -> Stat, exec: Command -> Option<Error>): (r: Outcome)
    ensures r.ran != [] <==> j.cli != "" && stat(j.cli) == RegularFile
    ensures r.ran == [] ==> r.err == ExecCheck(j.cli, stat) && !r.err.value.Panic?
    ensures r.ran != [] ==> r.ran == [Command("java", ExecArgv(url, websocket, creds, args))] && r.err == exec(r.ran[0])
  {
    match ExecCheck(j.cli, stat)
    case Some(e) => Outcome([], Some(e))
    case None =>
      var java := Command("java", ExecArgv(url, websocket, creds, args));
      Outcome([java], exec(java))
  }

  /** The two exec commands agree unless os.Stat fails for a reason other than a missing file. */
  lemma ExecAgrees(j: Jenkins, url: string, websocket: bool, creds: string, args: seq<string>,
                   stat: string -> Stat, exec: Command -> Option<Error>)
    ensures Exec(j, url, websocket, creds, args, stat, exec) == ExecCorrected(j, url, websocket, creds, args, stat, exec)
            <==> j.cli == "" || !stat(j.cli).StatError?
  {
    ExecCheckPanicsOnStatError(j.cli, stat);
  }

  // ---------------------------------------------------------------------------------------
  // jenkins context create / delete / set-current

  /** The context the create flags fill in; a context starts stopped, with pid -1. */
  function NewContext(name: string, description: string, war: string, jenkinsHome: string, javaHome: string,
                      options: seq<string>, jvmOptions: seq<string>): (c: JenkinsContext)
    ensures c.pid == -1
  {
    JenkinsContext(name, description, war, jenkinsHome, javaHome, options, jvmOptions, -1)
  }

  /**
   * `jenkins context create`: refused when the name is taken, then when the war file does not
   * exist; otherwise the context is appended and becomes the current one.
   */
  function Create(j: Jenkins, c: JenkinsContext, stat: string -> Stat): (r: Result<Jenkins>)
    ensures r.Ok? <==> FindJenkinsContext(j, c.name).Err? && stat(c.war) != Missing
    ensures FindJenkinsContext(j, c.name).Ok? ==>
              r == Err(Failure("A Jenkins context named '" + c.name + "' already exists"))
    ensures FindJenkinsContext(j, c.name).Err? && stat(c.war) == Missing ==>
              r == Err(Failure("The file " + c.war + " does not exist"))
    ensures r.Ok? ==> && r.value == j.(contexts := j.contexts + [c], currentContext := c.name)
                      && FindJenkinsContext(r.value, c.name) == Ok(c)
  {
    if FindJenkinsContext(j, c.name).Err? then
      if stat(c.war) == Missing then Err(Failure("The file " + c.war + " does not exist"))
      else
        AddThenDeleteJenkins(j, c);
        Ok(AddJenkinsContext(j, c).(currentContext := c.name))
    else Err(Failure("A Jenkins context named '" + c.name + "' already exists"))
  }

  /**
   * The loop of `jenkins context delete`: names that are not found are skipped, found ones
   * are deleted, and deleting the current context clears the current pointer.
   */
  function DeleteNames(j: Jenkins, names: seq<string>): (r: Result<Jenkins>)
    ensures r.Ok? && r.value.cli == j.cli
    ensures |r.value.contexts| <= |j.contexts|
    decreases |names|
  {
    if names == [] then Ok(j)
    else
      match FindJenkinsContext(j, names[0])
      case Err(_) => DeleteNames(j, names[1..])
      case Ok(c) =>
        match DeleteJenkinsContext(j, c)
        case Err(e) => Err(e)
        case Ok(_) => DeleteNames(DeleteNamesStep(j, c), names[1..])
  }

  /** `jenkins context delete`: at least one name. */
  function Delete(j: Jenkins, args: seq<string>): (r: Result<Jenkins>)
    ensures |args| == 0 ==> r == Err(ArgCount(AtLeast(1), 0))
  {
    match CheckArgs(AtLeast(1), args)
    case Some(e) => Err(e)
    case None => DeleteNames(j, args)
  }

  /**
   * Deleting never fails; names not listed keep all their contexts, and the current pointer is
   * cleared exactly when it names a listed, existing context.
   */
  lemma {:induction false} DeleteNamesEffect(j: Jenkins, names: seq<string>, other: string)
    ensures DeleteNames(j, names).Ok?
    ensures other !in names ==>
              Lists.Count(DeleteNames(j, names).value.contexts, JenkinsName, other)
              == Lists.Count(j.contexts, JenkinsName, other)
    ensures DeleteNames(j, names).value.currentContext ==
              if j.currentContext in names && Lists.Count(j.contexts, JenkinsName, j.currentContext) > 0 then ""
              else j.currentContext
    decreases |names|
  {
    if names != [] {
      var n := names[0];
      var f := FindJenkinsContext(j, n);
      Lists.CountZero(j.contexts, JenkinsName, j.currentContext);
      if f.Err? {
        DeleteNamesEffect(j, names[1..], other);
        assert other !in names ==> other !in names[1..];
        Lists.CountZero(j.contexts, JenkinsName, n);
      } else {
        var c := f.value;
        var j1 := DeleteJenkinsContext(j, c).value;
        var j2 := if c.name == j1.currentContext then j1.(currentContext := "") else j1;
        DeleteJenkinsRemovesOne(j, c, other);
        DeleteJenkinsRemovesOne(j, c, j.currentContext);
        DeleteNamesEffect(j2, names[1..], other);
        Lists.CountZero(j2.contexts, JenkinsName, j2.currentContext);
        if j2.currentContext != "" {
          assert j2.currentContext == j.currentContext && j.currentContext != n;
          assert j.currentContext in names <==> j.currentContext in names[1..];
        }
      }
    }
  }

  /**
   * Each listed occurrence of a name removes one context of that name while any are left, so
   * a name listed m times keeps max(0, count - m) contexts; this covers unlisted names (m = 0).
   */
  lemma {:induction false} DeleteNamesCounts(j: Jenkins, names: seq<string>, n: string)
    ensures DeleteNames(j, names).Ok?
    ensures var before, m := Lists.Count(j.contexts, JenkinsName, n), multiset(names)[n];
            Lists.Count(DeleteNames(j, names).value.contexts, JenkinsName, n)
            == if before >= m then before - m else 0
    decreases |names|
  {
    if names != [] {
      var rest := names[1..];
      assert names == [names[0]] + rest;
      assert multiset(names)[n] == (if names[0] == n then 1 else 0) + multiset(rest)[n];
      var next := DeleteNamesFirst(j, names, n);
      DeleteNamesCounts(next, rest, n);
    }
  }

  /**
   * One turn of the loop of DeleteNames: the store the rest of the list is deleted from, and
   * how many contexts named `n` it keeps.
   */
  lemma DeleteNamesFirst(j: Jenkins, names: seq<string>, n: string) returns (next: Jenkins)
    requires names != []
    ensures DeleteNames(j, names) == DeleteNames(next, names[1..])
    ensures var before := Lists.Count(j.contexts, JenkinsName, n);
            Lists.Count(next.contexts, JenkinsName, n)
            == if names[0] == n && before > 0 then before - 1 else before
  {
    var f := FindJenkinsContext(j, names[0]);
    if f.Err? {
      next := j;
      Lists.CountZero(j.contexts, JenkinsName, names[0]);
    } else {
      next := DeleteNamesStep(j, f.value);
      DeleteJenkinsRemovesOne(j, f.value, n);
    }
  }

  /**
   * The contexts left after deleting `names` one by one from `contexts`: for each name, the
   * first context so named is removed, if any; every other context keeps its record and place.
   */
  function RemoveEach(contexts: seq<JenkinsContext>, names: seq<string>): seq<JenkinsContext>
    decreases |names|
  {
    if names == [] then contexts
    else
      var k := Lists.First(contexts, JenkinsName, names[0]);
      RemoveEach(if k == -1 then contexts else Lists.RemoveAt(contexts, k), names[1..])
  }

  /** The contexts DeleteNames leaves are exactly those of RemoveEach, whatever the current pointer. */
  lemma {:induction false} DeleteNamesRemovesEach(j: Jenkins, names: seq<string>)
    ensures DeleteNames(j, names).value.contexts == RemoveEach(j.contexts, names)
    decreases |names|
  {
    if names != [] {
      var f := FindJenkinsContext(j, names[0]);
      var k := Lists.First(j.contexts, JenkinsName, names[0]);
      if f.Err? {
        DeleteNamesRemovesEach(j, names[1..]);
      } else {
        var j2 := DeleteNamesStep(j, f.value);
        assert j2.contexts == Lists.RemoveAt(j.contexts, k);
        DeleteNamesRemovesEach(j2, names[1..]);
      }
    }
  }

  /** What deleting one found context leaves for the rest of the loop of DeleteNames. */
  function DeleteNamesStep(j: Jenkins, c: JenkinsContext): Jenkins
    requires DeleteJenkinsContext(j, c).Ok?
  {
    var j1 := DeleteJenkinsContext(j, c).value;
    if c.name == j1.currentContext then j1.(currentContext := "") else j1
  }

  /** Deleting a single existing name removes its first context, and clears the current pointer if it was that one. */
  lemma DeleteOne(j: Jenkins, name: string)
    requires FindJenkinsContext(j, name).Ok?
    ensures var c := FindJenkinsContext(j, name).value;
            var j1 := DeleteJenkinsContext(j, c).value;
            DeleteNames(j, [name]) == Ok(if name == j.currentContext then j1.(currentContext := "") else j1)
  {
    var c := FindJenkinsContext(j, name).value;
    assert DeleteJenkinsContext(j, c).Ok?;
    assert [name][1..] == [];
  }

  /** Creating a context and deleting it by name gives back the contexts there were, with no current context. */
  lemma CreateThenDelete(j: Jenkins, c: JenkinsContext, stat: string -> Stat)
    requires Create(j, c, stat).Ok?
    ensures Delete(Create(j, c, stat).value, [c.name]) == Ok(j.(currentContext := ""))
  {
    var j1 := Create(j, c, stat).value;
    AddThenDeleteJenkins(j, c);
    assert FindJenkinsContext(j1, c.name) == FindJenkinsContext(AddJenkinsContext(j, c), c.name);
    assert DeleteJenkinsContext(j1, c) == Ok(j.(currentContext := c.name));
    DeleteOne(j1, c.name);
  }

  /** `jenkins context set-current`: an existing name becomes the current context. */
  function SetCurrent(j: Jenkins, args: seq<string>): (r: Result<Jenkins>)
    ensures r.Ok? <==> |args| == 1 && FindJenkinsContext(j, args[0]).Ok?
    ensures r.Ok? ==> r.value == j.(currentContext := args[0])
    ensures |args| == 1 && r.Err? ==> r.error == JenkinsContextNotFound(args[0])
  {
    match CheckArgs(Exactly(1), args)
    case Some(e) => Err(e)
    case None =>
      match FindJenkinsContext(j, args[0])
      case Err(e) => Err(e)
      case Ok(c) => Ok(j.(currentContext := c.name))
  }

  // ---------------------------------------------------------------------------------------
  // jenkins context start / stop / admin-password

  /** The PreRunE of start and admin-password: the named or current context, which must exist. */
  function Resolve(j: Jenkins, args: seq<string>): (r: Result<JenkinsContext>)
    ensures |args| > 1 ==> r == Err(ArgCount(AtMost(1), |args|))
    ensures |args| == 0 && j.currentContext == "" ==> r == Err(Failure(NoContext))
    ensures |args| <= 1 && (|args| == 1 || j.currentContext != "") ==>
              r == FindJenkinsContext(j, if |args| == 1 then args[0] else j.currentContext)
  {
    match CheckArgs(AtMost(1), args)
    case Some(e) => Err(e)
    case None =>
      match Target(args, j.currentContext, NoContext)
      case Err(e) => Err(e)
      case Ok(name) => FindJenkinsContext(j, name)
  }

  /** The arguments of `java` for start: JVM options, extra JVM options, -jar and the war, then Jenkins' options. */
  function StartArgv(c: JenkinsContext, additional: seq<string>): (r: seq<string>)
    ensures |r| == |c.jvmOptions| + |additional| + 2 + |c.options|
    ensures r[..|c.jvmOptions|] == c.jvmOptions
    ensures r[|r| - |c.options|..] == c.options
    ensures var k := |c.jvmOptions + additional|;
            && r[..k] == c.jvmOptions + additional && r[k] == "-jar" && r[k + 1] == c.war
            && r[k + 2..] == c.options
  {
    c.jvmOptions + additional + ["-jar", c.war] + c.options
  }

  /**
   * Java reads the first "-jar" as the start of the program: when the JVM options hold none,
   * that is the context's war, and everything after it goes to Jenkins.
   */
  lemma StartArgvLaunchesWar(c: JenkinsContext, additional: seq<string>)
    requires "-jar" !in c.jvmOptions + additional
    ensures var argv, k := StartArgv(c, additional), |c.jvmOptions + additional|;
            && "-jar" !in argv[..k] && argv[k] == "-jar" && argv[k + 1] == c.war
  {
  }

  /** The environment of the started Jenkins: JAVA_HOME and JENKINS_HOME when set, then JENKINS_HA=false. */
  function StartEnv(c: JenkinsContext): (env: seq<string>)
    ensures |env| == (if c.javaHome != "" then 1 else 0) + (if c.jenkinsHome != "" then 1 else 0) + 1
    ensures env[|env| - 1] == "JENKINS_HA=false"
    ensures c.javaHome != "" ==> env[0] == "JAVA_HOME=" + c.javaHome
    ensures "JAVA_HOME=" + c.javaHome in env <==> c.javaHome != ""
    ensures "JENKINS_HOME=" + c.jenkinsHome in env <==> c.jenkinsHome != ""
  {
    var java := if c.javaHome != "" then ["JAVA_HOME=" + c.javaHome] else [];
    var home := if c.jenkinsHome != "" then ["JENKINS_HOME=" + c.jenkinsHome] else [];
    EnvEntryDiffers("JAVA_HOME=", c.javaHome, "JENKINS_HOME=", 1);
    EnvEntryDiffers("JENKINS_HOME=", c.jenkinsHome, "JAVA_HOME=", 1);
    EnvEntryDiffers("JAVA_HOME=", c.javaHome, "JENKINS_HA=false", 1);
    EnvEntryDiffers("JENKINS_HOME=", c.jenkinsHome, "JENKINS_HA=false", 9);
    java + home + ["JENKINS_HA=false"]
  }

  /**
   * The value a process sees for `key` in the environment list `env`: that of the last
   * "key=" entry, as os/exec keeps the last of duplicate entries; None when there is none.
   */
  function EnvValue(env: seq<string>, key: string): Option<string>
    decreases |env|
  {
    if env == [] then None
    else if key + "=" <= env[|env| - 1] then Some(env[|env| - 1][|key| + 1..])
    else EnvValue(env[..|env| - 1], key)
  }

  /**
   * Started Jenkins sees JAVA_HOME and JENKINS_HOME exactly when the context sets them, with
   * the context's values, and JENKINS_HA as false.
   */
  lemma StartEnvReadsBack(c: JenkinsContext)
    ensures EnvValue(StartEnv(c), "JAVA_HOME") == if c.javaHome != "" then Some(c.javaHome) else None
    ensures EnvValue(StartEnv(c), "JENKINS_HOME") == if c.jenkinsHome != "" then Some(c.jenkinsHome) else None
    ensures EnvValue(StartEnv(c), "JENKINS_HA") == Some("false")
  {
    var ha := "JENKINS_HA=false";
    var java := if c.javaHome != "" then ["JAVA_HOME=" + c.javaHome] else [];
    var home := if c.jenkinsHome != "" then ["JENKINS_HOME=" + c.jenkinsHome] else [];
    assert StartEnv(c) == java + home + [ha];
    NotEnvPrefix("JAVA_HOME=", ha, 1);
    NotEnvPrefix("JENKINS_HOME=", ha, 9);
    EnvValueSnoc(java + home, ha, "JAVA_HOME");
    EnvValueSnoc(java + home, ha, "JENKINS_HOME");
    EnvValueSnoc(java + home, ha, "JENKINS_HA");
    var a := "JAVA_HOME=" + c.javaHome;
    if c.jenkinsHome != "" {
      var h := "JENKINS_HOME=" + c.jenkinsHome;
      NotEnvPrefix("JAVA_HOME=", h, 1);
      EnvValueSnoc(java, h, "JAVA_HOME");
      EnvValueSnoc(java, h, "JENKINS_HOME");
      assert h[|"JENKINS_HOME"| + 1..] == c.jenkinsHome;
    } else {
      assert java + home == java;
    }
    if c.javaHome != "" {
      NotEnvPrefix("JENKINS_HOME=", a, 1);
      EnvValueSnoc([], a, "JAVA_HOME");
      EnvValueSnoc([], a, "JENKINS_HOME");
      assert [] + [a] == java;
      assert a[|"JAVA_HOME"| + 1..] == c.javaHome;
    }
  }

  /** Looking a key up in a list with one more entry at the end. */
  lemma EnvValueSnoc(env: seq<string>, e: string, key: string)
    ensures EnvValue(env + [e], key) == if key + "=" <= e then Some(e[|key| + 1..]) else EnvValue(env, key)
  {
    assert (env + [e])[..|env|] == env;
  }

  /** A "key=" that differs from an entry at position k is not a prefix of it. */
  lemma NotEnvPrefix(prefix: string, entry: string, k: nat)
    requires k < |prefix| && k < |entry| && prefix[k] != entry[k]
    ensures !(prefix <= entry)
  {
  }

  /** Entries with different variable names differ. */
  lemma EnvEntryDiffers(prefix: string, value: string, other: string, k: nat)
    requires k < |prefix| && k < |other| && prefix[k] != other[k]
    ensures prefix + value != other
    ensures other != prefix + value
  {
    assert (prefix + value)[k] == prefix[k];
  }

  /** The process `jenkins context start` launches. */
  datatype Launch = Launch(command: Command, env: seq<string>)

  /**
   * The RunE of start as written: the pid of the started process is read even when starting
   * it failed, and the process handle is then nil, so the program panics.
   */
  function StartAsWritten(j: Jenkins, c: JenkinsContext, additional: seq<string>, pid: int,
                          startErr: Option<Error>): (r: (Launch, Result<Jenkins>))
    ensures r.0 == Launch(Command("java", StartArgv(c, additional)), StartEnv(c))
    ensures startErr.Some? ==> r.1.Err? && r.1.error.Panic?
  {
    var launch := Launch(Command("java", StartArgv(c, additional)), StartEnv(c));
    if startErr.Some? then (launch, Err(Panic("runtime error: invalid memory address or nil pointer dereference")))
    else
      match UpdateJenkinsContext(j, c.(pid := pid))
      case Ok(j1) => (launch, Ok(j1))
      case Err(_) => (launch, Ok(j))
  }

  /**
   * The RunE of start returning the error when the process did not start; on success the
   * context records the process's pid, as evidently intended.
   */
  function Start(j: Jenkins, c: JenkinsContext, additional: seq<string>, pid: int,
                 startErr: Option<Error>): (r: (Launch, Result<Jenkins>))
    ensures r.0 == Launch(Command("java", StartArgv(c, additional)), StartEnv(c))
    ensures startErr.Some? ==> r.1 == Err(startErr.value)
    ensures startErr.None? && FindJenkinsContext(j, c.name).Ok? ==>
              r.1.Ok? && FindJenkinsContext(r.1.value, c.name).Ok?
              && FindJenkinsContext(r.1.value, c.name).value.pid == pid
  {
    var launch := Launch(Command("java", StartArgv(c, additional)), StartEnv(c));
    if startErr.Some? then (launch, Err(startErr.value))
    else
      match UpdateJenkinsContext(j, c.(pid := pid))
      case Ok(j1) => UpdateThenFind(j, c.(pid := pid)); (launch, Ok(j1))
      case Err(_) => (launch, Ok(j))
  }

  /** The two agree whenever the process starts. */
  lemma StartAgrees(j: Jenkins, c: JenkinsContext, additional: seq<string>, pid: int)
    ensures StartAsWritten(j, c, additional, pid, None) == Start(j, c, additional, pid, None)
  {
  }

  /** The PreRunE of stop: the named or current context, which must exist and be started. */
  function StopTarget(j: Jenkins, args: seq<string>): (r: Result<JenkinsContext>)
    ensures r.Ok? ==> Resolve(j, args) == r && r.value.pid != -1
    ensures Resolve(j, args).Ok? && Resolve(j, args).value.pid != -1 ==> r == Resolve(j, args)
    ensures Resolve(j, args).Ok? && Resolve(j, args).value.pid == -1 ==>
              r == Err(Failure("The context " + (if |args| == 1 then args[0] else j.currentContext) + " is not started"))
    ensures Resolve(j, args).Err? ==> r == Resolve(j, args)
  {
    var c :- Resolve(j, args);
    var name := if |args| == 1 then args[0] else j.currentContext;
    if c.pid == -1 then Err(Failure("The context " + name + " is not started")) else Ok(c)
  }

  /** The RunE of stop: after a successful SIGTERM the context is marked stopped again. */
  function Stop(j: Jenkins, c: JenkinsContext, killErr: Option<Error>): (r: Result<Jenkins>)
    ensures killErr.Some? ==> r == Err(killErr.value)
    ensures killErr.None? && FindJenkinsContext(j, c.name).Ok? ==>
              r.Ok? && FindJenkinsContext(r.value, c.name).Ok?
              && FindJenkinsContext(r.value, c.name).value.pid == -1
  {
    match killErr
    case Some(e) => Err(e)
    case None =>
      match UpdateJenkinsContext(j, c.(pid := -1))
      case Ok(j1) => UpdateThenFind(j, c.(pid := -1)); Ok(j1)
      case Err(_) => Ok(j)
  }

  /**
   * Setting the pid of the first context named `name` and then setting it back gives back the
   * contexts there were.
   */
  lemma SetPidThenRestore(j: Jenkins, name: string, pid: int)
    requires FindJenkinsContext(j, name).Ok?
    ensures var c := FindJenkinsContext(j, name).value;
            var j1 := UpdateJenkinsContext(j, c.(pid := pid));
            && j1.Ok? && FindJenkinsContext(j1.value, name) == Ok(c.(pid := pid))
            && UpdateJenkinsContext(j1.value, c) == Ok(j)
  {
    var c := FindJenkinsContext(j, name).value;
    var started := c.(pid := pid);
    var k := Lists.First(j.contexts, JenkinsName, name);
    var j1 := j.(contexts := j.contexts[k := started]);
    assert Updated(j.contexts[k], started) == started;
    assert UpdateJenkinsContext(j, started) == Ok(j1);
    assert forall i :: 0 <= i < k ==> j1.contexts[i] == j.contexts[i];
    Lists.FirstAt(j1.contexts, JenkinsName, name, k);
    assert Updated(j1.contexts[k], c) == c;
    assert j1.contexts[k := c] == j.contexts;
  }

  /**
   * Starting a stopped context and stopping it again gives back the configuration it started
   * from: the pid goes from -1 to the process's and back.
   */
  lemma StartThenStop(j: Jenkins, name: string, additional: seq<string>, pid: int)
    requires FindJenkinsContext(j, name).Ok? && FindJenkinsContext(j, name).value.pid == -1
    requires pid != -1
    ensures var c := FindJenkinsContext(j, name).value;
            var j1 := Start(j, c, additional, pid, None).1.value;
            && StopTarget(j1, [name]) == Ok(c.(pid := pid))
            && Stop(j1, c.(pid := pid), None) == Ok(j)
  {
    var c := FindJenkinsContext(j, name).value;
    SetPidThenRestore(j, name, pid);
    var j1 := UpdateJenkinsContext(j, c.(pid := pid)).value;
    assert Start(j, c, additional, pid, None).1 == Ok(j1);
    assert Resolve(j1, [name]) == Ok(c.(pid := pid));
    assert c.(pid := pid).(pid := -1) == c;
  }

  /**
   * Where `jenkins context admin-password` reads the initial admin password: the file
   * initialAdminPassword in the directory secrets of the context's Jenkins home.
   */
  function AdminPasswordFile(c: JenkinsContext): (f: string)
    ensures var home := Paths.Clean(Paths.Parse(c.jenkinsHome));
            Paths.Resolve(f) == Some(Paths.Path(home.rooted, home.elems + ["secrets", "initialAdminPassword"]))
  {
    Paths.JoinNames(c.jenkinsHome, "secrets", "initialAdminPassword");
    Paths.Join([c.jenkinsHome, "secrets", "initialAdminPassword"])
  }

  /**
   * `jenkins context admin-password`: the contents of that file, for the named context or else
   * the current one; no file is read when there is no such context.
   */
  function AdminPassword(j: Jenkins, args: seq<string>, read: string -> Result<string>): (r: Result<string>)
    ensures |args| > 1 ==> r == Err(ArgCount(AtMost(1), |args|))
    ensures |args| == 0 && j.currentContext == "" ==> r == Err(Failure(NoContext))
    ensures |args| <= 1 && (|args| == 1 || j.currentContext != "") ==>
              var name := if |args| == 1 then args[0] else j.currentContext;
              && (FindJenkinsContext(j, name).Err? ==> r == Err(JenkinsContextNotFound(name)))
              && (FindJenkinsContext(j, name).Ok? ==> r == read(AdminPasswordFile(FindJenkinsContext(j, name).value)))
  {
    var c :- Resolve(j, args);
    read(AdminPasswordFile(c))
  }
}
