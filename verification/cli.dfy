/**
 * What the cobra commands share: the argument-count rules cobra checks before a command runs,
 * the external programs a command starts, what os.Stat reports about a path, and the choice of
 * the context a command acts on.
 */
module Cli {
  import opened Wrappers
  import opened Errors

  /** exec.Command(name, args...): a program the command starts. */
  datatype Command = Command(name: string, args: seq<string>)

  /** The programs a command started, in order, and the error it returned (None for nil). */
  datatype Outcome = Outcome(ran: seq<Command>, err: Option<Error>)

  /** What os.Stat reports: no such file, a directory, another file, or some other error. */
  datatype Stat = Missing | Directory | RegularFile | StatError(reason: string)

  /** Whether a cobra rule accepts `n` positional arguments. */
  predicate Accepts(rule: ArgRule, n: nat) {
    match rule
    case Exactly(k) => n == k
    case AtMost(k) => n <= k
    case AtLeast(k) => n >= k
  }

  /** cobra's Args check, run before any PreRunE. */
  function CheckArgs(rule: ArgRule, args: seq<string>): (r: Option<Error>)
    ensures r.None? <==> Accepts(rule, |args|)
    ensures r.Some? ==> r.value == ArgCount(rule, |args|)
  {
    if Accepts(rule, |args|) then None else Some(ArgCount(rule, |args|))
  }

  /**
   * The context a start, stop, delete or open-folder command acts on: the argument when there
   * is one, else the current context when one is set, else the error `none`.
   */
  function Target(args: seq<string>, current: string, none: string): (r: Result<string>)
    ensures r.Ok? <==> |args| == 1 || current != ""
    ensures r.Ok? ==> r.value == if |args| == 1 then args[0] else current
    ensures r.Err? ==> r.error == Failure(none)
  {
    if |args| == 1 then Ok(args[0])
    else if current != "" then Ok(current)
    else Err(Failure(none))
  }

  /** An empty --version flag means the default version. */
  function ResolveVersion(flag: string, default: string): (v: string)
    ensures flag != "" ==> v == flag
    ensures flag == "" ==> v == default
  {
    if flag == "" then default else flag
  }
}
