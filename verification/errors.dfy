/**
 * Errors of the core: the four typed "not found" errors of pkg/config/errors.go, the
 * ad-hoc errors built with errors.New/fmt.Errorf, operating-system path errors, archive
 * reader errors, cobra's argument-count errors, and the failures of collaborators that
 * the model takes as inputs. Go's `error` value is `Option<Error>` (None is nil).
 */
module Errors {
  import opened Wrappers
  import Strings

  /** The reason carried by a Go *os.PathError. */
  datatype Errno = NotExist | Exist | NotDir | IsDir

  /** A cobra positional-argument rule: cobra.ExactArgs, MaximumNArgs, MinimumNArgs. */
  datatype ArgRule = Exactly(n: nat) | AtMost(n: nat) | AtLeast(n: nat)

  datatype Error =
    | DockerComposeContextNotFound(name: string)
    | JenkinsContextNotFound(name: string)
    | ToolNotFound(name: string)
    | ServerNotFound(name: string)
      /** errors.New / fmt.Errorf with this text */
    | Failure(text: string)
      /** *os.PathError{Op, Path, Err} */
    | PathError(op: string, path: string, errno: Errno)
      /** an error reported by the zip, gzip or tar reader */
    | ArchiveError(reason: string)
      /** an argument count refused by a cobra rule */
    | ArgCount(rule: ArgRule, received: nat)
      /** an error returned by something outside the model: HTTP, exec, kill, rename */
    | External(reason: string)
      /** a Go run-time panic: the process stops */
    | Panic(reason: string)
      /** log.Fatal: the reason is printed and the process exits with status 1 */
    | Fatal(reason: string)

  /** The error, or a value; `:-` propagates the error. */
  datatype Result<+T> = Ok(value: T) | Err(error: Error) {
    predicate IsFailure() {
      Err?
    }

    function PropagateFailure<U>(): Result<U>
      requires Err?
    {
      Err(error)
    }

    function Extract(): T
      requires Ok?
    {
      value
    }
  }

  /** `err` seen as a Go error value: nil on success. */
  function ErrorOf<T>(r: Result<T>): Option<Error> {
    if r.Ok? then None else Some(r.error)
  }

  function ErrnoText(e: Errno): string {
    match e
    case NotExist => "no such file or directory"
    case Exist => "file exists"
    case NotDir => "not a directory"
    case IsDir => "is a directory"
  }

  /** Error(): the text a Go caller would print. */
  function Message(e: Error): string {
    match e
    case DockerComposeContextNotFound(n) => "Docker compose context not found: '" + n + "'"
    case JenkinsContextNotFound(n) => "Jenkins context not found: '" + n + "'"
    case ToolNotFound(n) => "Tool not found: '" + n + "'"
    case ServerNotFound(n) => "Server not found: '" + n + "'"
    case Failure(t) => t
    case PathError(op, path, errno) => op + " " + path + ": " + ErrnoText(errno)
    case ArchiveError(r) => r
    case ArgCount(rule, got) => ArgCountMessage(rule, got)
    case External(r) => r
    case Panic(r) => "panic: " + r
    case Fatal(r) => r
  }

  /** cobra's wording for a refused argument count. */
  function ArgCountMessage(rule: ArgRule, got: nat): string {
    match rule
      case Exactly(n) => "accepts " + Strings.NatToString(n) + " arg(s), received " + Strings.NatToString(got)
      case AtMost(n) => "accepts at most " + Strings.NatToString(n) + " arg(s), received " + Strings.NatToString(got)
      case AtLeast(n) => "requires at least " + Strings.NatToString(n) + " arg(s), only received " + Strings.NatToString(got)
  }

  /** IsDockerComposeContextNotFound: a type assertion on a non-nil error. */
  predicate IsDockerComposeContextNotFound(err: Option<Error>)
    ensures IsDockerComposeContextNotFound(err) ==> err != None
  {
    err.Some? && err.value.DockerComposeContextNotFound?
  }

  predicate IsJenkinsContextNotFound(err: Option<Error>)
    ensures IsJenkinsContextNotFound(err) ==> err != None
  {
    err.Some? && err.value.JenkinsContextNotFound?
  }

  predicate IsToolNotFound(err: Option<Error>)
    ensures IsToolNotFound(err) ==> err != None
  {
    err.Some? && err.value.ToolNotFound?
  }

  predicate IsServerNotFound(err: Option<Error>)
    ensures IsServerNotFound(err) ==> err != None
  {
    err.Some? && err.value.ServerNotFound?
  }

  /** One of the four typed not-found errors. */
  predicate IsNotFound(e: Error) {
    e.DockerComposeContextNotFound? || e.JenkinsContextNotFound? || e.ToolNotFound? || e.ServerNotFound?
  }

  /** No error value satisfies two of the four predicates, and nil satisfies none. */
  lemma NotFoundKindsDisjoint(err: Option<Error>)
    ensures err == None ==>
              !IsDockerComposeContextNotFound(err) && !IsJenkinsContextNotFound(err)
              && !IsToolNotFound(err) && !IsServerNotFound(err)
    ensures (if IsDockerComposeContextNotFound(err) then 1 else 0) + (if IsJenkinsContextNotFound(err) then 1 else 0)
            + (if IsToolNotFound(err) then 1 else 0) + (if IsServerNotFound(err) then 1 else 0) <= 1
  {
  }

  /** The name a not-found error carries. */
  function NotFoundName(e: Error): string
    requires IsNotFound(e)
  {
    match e
    case DockerComposeContextNotFound(n) => n
    case JenkinsContextNotFound(n) => n
    case ToolNotFound(n) => n
    case ServerNotFound(n) => n
  }

  /** The fixed text in front of the quoted name in a not-found message. */
  function NotFoundPrefix(e: Error): string
    requires IsNotFound(e)
  {
    match e
    case DockerComposeContextNotFound(_) => "Docker compose context not found: '"
    case JenkinsContextNotFound(_) => "Jenkins context not found: '"
    case ToolNotFound(_) => "Tool not found: '"
    case ServerNotFound(_) => "Server not found: '"
  }

  /** Each not-found message is its kind's prefix, the name, and a closing quote. */
  lemma NotFoundMessageShape(e: Error)
    requires IsNotFound(e)
    ensures Message(e) == NotFoundPrefix(e) + NotFoundName(e) + "'"
  {
  }

  /** A not-found message identifies both the kind of error and the name it reports. */
  lemma {:induction false} NotFoundMessageInjective(a: Error, b: Error)
    requires IsNotFound(a) && IsNotFound(b)
    requires Message(a) == Message(b)
    ensures a == b
  {
    NotFoundMessageShape(a);
    NotFoundMessageShape(b);
    var pa, pb := NotFoundPrefix(a), NotFoundPrefix(b);
    var m := Message(a);
    // The four prefixes already differ in their first character.
    assert pa[0] == m[0] == pb[0];
    assert pa == pb by {
      assert pa[0] == 'D' ==> a.DockerComposeContextNotFound?;
      assert pa[0] == 'J' ==> a.JenkinsContextNotFound?;
      assert pa[0] == 'T' ==> a.ToolNotFound?;
      assert pa[0] == 'S' ==> a.ServerNotFound?;
    }
    var na, nb := NotFoundName(a), NotFoundName(b);
    assert |na| == |nb|;
    assert na == m[|pa|..|m| - 1] == nb;
  }
}
