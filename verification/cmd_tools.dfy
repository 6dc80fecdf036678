/**
 * cmd/tools.go, `devcore tools install <tool> [--version v]`: the argument must name a registry
 * tool; an empty --version means the tool's default version; then the tool's install procedure
 * runs. The operating system, the temporary directory and the outcome of each step are
 * parameters, as in Tools.Install.
 */
module CmdTools {
  import opened Wrappers
  import opened Errors
  import opened Steps
  import Cli
  import Tools

  /** The tool the command installs, and the version it installs, or the error its PreRunE returns. */
  function Resolve(args: seq<string>, version: string): (r: Result<(Tools.Tool, string)>)
    ensures |args| != 1 ==> r == Err(ArgCount(Exactly(1), |args|))
    ensures |args| == 1 ==> (r.Ok? <==> args[0] in Tools.ToolNames())
    ensures |args| == 1 && r.Err? ==> r.error == ToolNotFound(args[0])
    ensures r.Ok? ==> && r.value.0 in Tools.Registry() && r.value.0.name == args[0]
                      && (version != "" ==> r.value.1 == version)
                      && (version == "" ==> r.value.1 == r.value.0.defaultVersion)
  {
    match Cli.CheckArgs(Exactly(1), args)
    case Some(e) => Err(e)
    case None =>
      Tools.ToolNamesAreFound(args[0]);
      match Tools.FindTool(args[0])
      case Err(e) => Err(e)
      case Ok(t) => Ok((t, Cli.ResolveVersion(version, t.defaultVersion)))
  }

  /** `tools install`: nothing is done when the tool is unknown; otherwise its install procedure runs. */
  function Install(args: seq<string>, version: string, goos: string, tmp: string, env: Step -> Option<Error>): (r: Trace)
    ensures Resolve(args, version).Err? ==> r == Trace([], Some(Resolve(args, version).error))
    ensures Resolve(args, version).Ok? ==>
              var (t, v) := Resolve(args, version).value;
              && r.performed <= Tools.InstallPlan(t, v, goos, tmp)
              && (r.err.None? ==> r.performed == Tools.InstallPlan(t, v, goos, tmp))
              && (r.err.None? <==> AllSucceed(Tools.InstallPlan(t, v, goos, tmp), env))
              && (r.err.Some? ==> |r.performed| > 0 && r.err == env(r.performed[|r.performed| - 1]))
  {
    match Resolve(args, version)
    case Err(e) => Trace([], Some(e))
    case Ok((t, v)) => Tools.Install(t, v, goos, tmp, env)
  }

  /**
   * Every name the command offers as a valid argument installs: with no --version, the
   * registry entry of that name at its default version.
   */
  lemma ValidArgsInstall(i: nat)
    requires i < |Tools.Registry()|
    ensures Resolve([Tools.ToolNames()[i]], "") == Ok((Tools.Registry()[i], Tools.Registry()[i].defaultVersion))
  {
    var t := Tools.Registry()[i];
    Tools.ToolNamesAreFound(t.name);
  }
}
