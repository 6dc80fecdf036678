/**
 * cmd/open.go, `devcore open <resource>`: macOS only; "projects" or "projects-dir" opens the
 * configured projects directory and "servers" or "servers-dir" the servers directory, in the
 * Finder, once os.Stat has not reported it missing.
 */
module CmdOpen {
  import opened Wrappers
  import opened Errors
  import opened Cli
  import Config

  /** The directory a resource name stands for, if it is one of the four names. */
  function ResourceDir(c: Config.DevCoreConfig, resource: string): (r: Option<string>)
    ensures r.Some? ==> r.value == c.projectsDir || r.value == c.serversDir
    ensures r == Some(c.projectsDir) && c.projectsDir != c.serversDir ==> resource in ["projects", "projects-dir"]
  {
    if resource == "projects" || resource == "projects-dir" then Some(c.projectsDir)
    else if resource == "servers" || resource == "servers-dir" then Some(c.serversDir)
    else None
  }

  /** Exactly the four names are known, and each alias names the same directory as its short form. */
  lemma ResourceNames(c: Config.DevCoreConfig, resource: string)
    ensures ResourceDir(c, resource).Some? <==> resource in ["projects", "projects-dir", "servers", "servers-dir"]
    ensures ResourceDir(c, "projects-dir") == ResourceDir(c, "projects") == Some(c.projectsDir)
    ensures ResourceDir(c, "servers-dir") == ResourceDir(c, "servers") == Some(c.serversDir)
  {
  }

  /**
   * `open`: exactly one argument; then the operating system, then the name, then the directory
   * must exist (any other stat error lets `open` run).
   */
  function Open(c: Config.DevCoreConfig, args: seq<string>, goos: string, stat: string -> Stat,
                exec: Command -> Option<Error>): (r: Outcome)
    ensures |args| != 1 ==> r == Outcome([], Some(ArgCount(Exactly(1), |args|)))
    ensures |args| == 1 && goos != "darwin" ==>
              r == Outcome([], Some(Failure("Operating system '" + goos + "' not currently supported for this operation")))
    ensures |args| == 1 && goos == "darwin" && ResourceDir(c, args[0]).None? ==>
              r == Outcome([], Some(Failure("'" + args[0] + "' is unknown")))
    ensures |args| == 1 && goos == "darwin" && ResourceDir(c, args[0]).Some? ==>
              var dir := ResourceDir(c, args[0]).value;
              if stat(dir) == Missing then r == Outcome([], Some(Failure("The resource to open does not exist: " + dir)))
              else r == Outcome([Command("open", [dir])], exec(Command("open", [dir])))
    ensures r.ran != [] ==> && goos == "darwin" && |r.ran| == 1 && r.ran[0].name == "open"
                            && r.ran[0].args in [[c.projectsDir], [c.serversDir]]
  {
    match CheckArgs(Exactly(1), args)
    case Some(e) => Outcome([], Some(e))
    case None =>
      if goos != "darwin" then
        Outcome([], Some(Failure("Operating system '" + goos + "' not currently supported for this operation")))
      else
        match ResourceDir(c, args[0])
        case None => Outcome([], Some(Failure("'" + args[0] + "' is unknown")))
        case Some(dir) =>
          if stat(dir) == Missing then Outcome([], Some(Failure("The resource to open does not exist: " + dir)))
          else Outcome([Command("open", [dir])], exec(Command("open", [dir])))
  }
}
