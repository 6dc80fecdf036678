/**
 * cmd/docker-compose.go: the `docker-compose context` commands. A context names a compose file;
 * the commands register and drop contexts, pick the current one, and run `docker compose` or
 * `open` on the context's file or folder. Saving the configuration is not modelled; the program
 * a command starts is returned together with the error it ends with, and `exec` says how
 * starting a program turns out.
 */
module CmdDockerCompose {
  import opened Wrappers
  import opened Errors
  import Lists
  import opened Cli
  import opened Config

  const NoContext := "No docker compose context specified, neither a current one is set"

  /**
   * `docker-compose context create`: refused when the name is taken, then when the compose file
   * does not exist; otherwise the context is appended and becomes the current one.
   */
  function Create(d: DockerCompose, c: ComposeContext, stat: string -> Stat): (r: Result<DockerCompose>)
    ensures r.Ok? <==> FindComposeContext(d, c.name).Err? && stat(c.file) != Missing
    ensures FindComposeContext(d, c.name).Ok? ==>
              r == Err(Failure("A Docker compose context named '" + c.name + "' already exists"))
    ensures FindComposeContext(d, c.name).Err? && stat(c.file) == Missing ==>
              r == Err(Failure("The file " + c.file + " does not exist"))
    ensures r.Ok? ==> && r.value == d.(contexts := d.contexts + [c], currentContext := c.name)
                      && FindComposeContext(r.value, c.name) == Ok(c)
  {
    if FindComposeContext(d, c.name).Err? then
      if stat(c.file) == Missing then Err(Failure("The file " + c.file + " does not exist"))
      else
        AddThenDeleteCompose(d, c);
        Ok(AddComposeContext(d, c).(currentContext := c.name))
    else Err(Failure("A Docker compose context named '" + c.name + "' already exists"))
  }

  /**
   * The PreRunE shared by delete, start, stop and open-folder: at most one argument, naming the
   * context, or else the current context; it must exist.
   */
  function Resolve(d: DockerCompose, args: seq<string>): (r: Result<ComposeContext>)
    ensures |args| > 1 ==> r == Err(ArgCount(AtMost(1), |args|))
    ensures |args| == 0 && d.currentContext == "" ==> r == Err(Failure(NoContext))
    ensures |args| <= 1 && (|args| == 1 || d.currentContext != "") ==>
              r == FindComposeContext(d, if |args| == 1 then args[0] else d.currentContext)
  {
    match CheckArgs(AtMost(1), args)
    case Some(e) => Err(e)
    case None =>
      match Target(args, d.currentContext, NoContext)
      case Err(e) => Err(e)
      case Ok(name) => FindComposeContext(d, name)
  }

  /**
   * `docker-compose context delete`: the first context with the resolved name is removed,
   * the others stay in their order, and the current pointer is cleared when it named it.
   */
  function Delete(d: DockerCompose, args: seq<string>): (r: Result<DockerCompose>)
    ensures r.Ok? <==> Resolve(d, args).Ok?
    ensures r.Err? ==> r.error == Resolve(d, args).error
    ensures r.Ok? ==>
              var name := Resolve(d, args).value.name;
              && Lists.Count(r.value.contexts, ComposeName, name) == Lists.Count(d.contexts, ComposeName, name) - 1
              && (forall other :: other != name ==>
                    Lists.Count(r.value.contexts, ComposeName, other) == Lists.Count(d.contexts, ComposeName, other))
              && r.value.currentContext == if d.currentContext == name then "" else d.currentContext
    ensures r.Ok? ==> r.value.contexts == DeleteComposeContext(d, Resolve(d, args).value).value.contexts
  {
    match Resolve(d, args)
    case Err(e) => Err(e)
    case Ok(c) =>
      assert DeleteComposeContext(d, c).Ok?;
      var d1 := DeleteComposeContext(d, c).value;
      DeleteComposeRemovesOne(d, c, c.name);
      assert forall other :: Lists.Count(d1.contexts, ComposeName, other) == Lists.Count(d.contexts, ComposeName, other)
                               || other == c.name by {
        forall other ensures Lists.Count(d1.contexts, ComposeName, other) == Lists.Count(d.contexts, ComposeName, other)
                               || other == c.name {
          DeleteComposeRemovesOne(d, c, other);
        }
      }
      Ok(if c.name == d1.currentContext then d1.(currentContext := "") else d1)
  }

  /**
   * Creating a context and deleting it, by name or as the current context, gives back the
   * contexts there were, with no current context left. (An empty name cannot be deleted as the
   * current context: an empty current context means none is set.)
   */
  lemma CreateThenDelete(d: DockerCompose, c: ComposeContext, stat: string -> Stat, byName: bool)
    requires Create(d, c, stat).Ok?
    requires byName || c.name != ""
    ensures Delete(Create(d, c, stat).value, if byName then [c.name] else []) == Ok(d.(currentContext := ""))
  {
    var a := AddComposeContext(d, c);
    var d1 := a.(currentContext := c.name);
    assert Create(d, c, stat) == Ok(d1);
    AddThenDeleteCompose(d, c);
    assert FindComposeContext(d1, c.name) == FindComposeContext(a, c.name);
    var args := if byName then [c.name] else [];
    assert |args| == 1 || d1.currentContext != "";
    assert Resolve(d1, args) == Ok(c);
    assert DeleteComposeContext(d1, c) == Ok(d.(currentContext := c.name));
  }

  /** `docker-compose context set-current`: an existing name becomes the current context. */
  function SetCurrent(d: DockerCompose, args: seq<string>): (r: Result<DockerCompose>)
    ensures r.Ok? <==> |args| == 1 && FindComposeContext(d, args[0]).Ok?
    ensures r.Ok? ==> r.value == d.(currentContext := args[0])
    ensures |args| != 1 ==> r == Err(ArgCount(Exactly(1), |args|))
    ensures |args| == 1 && r.Err? ==> r.error == DockerComposeContextNotFound(args[0])
  {
    match CheckArgs(Exactly(1), args)
    case Some(e) => Err(e)
    case None =>
      match FindComposeContext(d, args[0])
      case Err(e) => Err(e)
      case Ok(c) => Ok(d.(currentContext := c.name))
  }

  /** A context made current is the one the argument-less commands then act on. */
  lemma SetCurrentThenResolve(d: DockerCompose, name: string)
    requires SetCurrent(d, [name]).Ok? && name != ""
    ensures Resolve(SetCurrent(d, [name]).value, []) == FindComposeContext(d, name)
  {
  }

  /** `docker compose -f <file> up -d`. */
  function UpCommand(c: ComposeContext): (r: Command)
    ensures r.name == "docker" && |r.args| == 5 && r.args[2] == c.file && r.args[3] == "up"
  {
    Command("docker", ["compose", "-f", c.file, "up", "-d"])
  }

  /** `docker compose -f <file> down -v`. */
  function DownCommand(c: ComposeContext): (r: Command)
    ensures r.name == "docker" && |r.args| == 5 && r.args[2] == c.file && r.args[3] == "down"
  {
    Command("docker", ["compose", "-f", c.file, "down", "-v"])
  }

  /**
   * Start and stop address the same compose project: the same program and file, differing
   * only in the action, and stop also removes the volumes.
   */
  lemma UpDownSameProject(c: ComposeContext)
    ensures UpCommand(c).name == DownCommand(c).name == "docker"
    ensures UpCommand(c).args[..3] == DownCommand(c).args[..3] == ["compose", "-f", c.file]
    ensures UpCommand(c).args[3..] == ["up", "-d"] && DownCommand(c).args[3..] == ["down", "-v"]
  {
  }

  /** Runs `cmd` for the resolved context: nothing runs when there is none. */
  function RunFor(d: DockerCompose, args: seq<string>, cmd: ComposeContext -> Command,
                  exec: Command -> Option<Error>): (r: Outcome)
    ensures Resolve(d, args).Err? ==> r == Outcome([], Some(Resolve(d, args).error))
    ensures Resolve(d, args).Ok? ==>
              var c := cmd(Resolve(d, args).value);
              r == Outcome([c], exec(c))
  {
    match Resolve(d, args)
    case Err(e) => Outcome([], Some(e))
    case Ok(c) => Outcome([cmd(c)], exec(cmd(c)))
  }

  /** `docker-compose context start`. */
  function Start(d: DockerCompose, args: seq<string>, exec: Command -> Option<Error>): (r: Outcome)
    ensures Resolve(d, args).Ok? ==>
              r.ran == [UpCommand(Resolve(d, args).value)] && r.err == exec(r.ran[0])
    ensures Resolve(d, args).Err? ==> r.ran == [] && r.err == Some(Resolve(d, args).error)
  {
    RunFor(d, args, UpCommand, exec)
  }

  /** `docker-compose context stop`. */
  function Stop(d: DockerCompose, args: seq<string>, exec: Command -> Option<Error>): (r: Outcome)
    ensures Resolve(d, args).Ok? ==>
              r.ran == [DownCommand(Resolve(d, args).value)] && r.err == exec(r.ran[0])
    ensures Resolve(d, args).Err? ==> r.ran == [] && r.err == Some(Resolve(d, args).error)
  {
    RunFor(d, args, DownCommand, exec)
  }

  /**
   * `docker-compose context open-folder`: on macOS, `open` on the folder of the compose file;
   * elsewhere an error naming the operating system. The context is resolved first either way.
   */
  function OpenFolder(d: DockerCompose, args: seq<string>, goos: string, exec: Command -> Option<Error>): (r: Outcome)
    ensures Resolve(d, args).Err? ==> r == Outcome([], Some(Resolve(d, args).error))
    ensures Resolve(d, args).Ok? && goos != "darwin" ==>
              r == Outcome([], Some(Failure(goos + " not supported for this action")))
    ensures Resolve(d, args).Ok? && goos == "darwin" ==>
              r.ran == [Command("open", [ComposeDir(Resolve(d, args).value)])] && r.err == exec(r.ran[0])
  {
    match Resolve(d, args)
    case Err(e) => Outcome([], Some(e))
    case Ok(c) =>
      if goos == "darwin" then
        var open := Command("open", [ComposeDir(c)]);
        Outcome([open], exec(open))
      else Outcome([], Some(Failure(goos + " not supported for this action")))
  }

  /**
   * Start and stop with the same arguments act on the same context: either both run nothing
   * and report the same error, or each runs docker compose on that context's file.
   */
  lemma StartStopSameContext(d: DockerCompose, args: seq<string>, exec: Command -> Option<Error>)
    ensures var up, down := Start(d, args, exec), Stop(d, args, exec);
            && (up.ran == [] <==> down.ran == [])
            && (up.ran == [] ==> up.err == down.err)
            && (up.ran != [] ==> up.ran[0].args[..3] == down.ran[0].args[..3]
                                 == ["compose", "-f", Resolve(d, args).value.file])
  {
    if Resolve(d, args).Ok? {
      UpDownSameProject(Resolve(d, args).value);
    }
  }
}
