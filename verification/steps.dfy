/**
 * The install procedures of tools and servers are straight-line sequences of calls into the
 * operating system and the network, each returning at the first error. Here every such call
 * is an abstract step, and whether it fails is decided by an environment passed in.
 */
module Steps {
  import opened Wrappers
  import opened Errors

  datatype Step =
    | Download(url: string, file: string)             // utils.DownloadFile
    | Mkdir(dir: string, perm: int)                   // os.Mkdir
    | MkdirAll(dir: string, perm: int)                // os.MkdirAll
    | MkdirIfMissing(dir: string, perm: int)          // os.Stat, then os.Mkdir when it is missing
    | Expand(archive: string, dest: string)           // utils.Expand
    | Rename(from: string, to: string)                // os.Rename
    | Chmod(path: string, mode: int)                  // os.Chmod
    | Remove(path: string)                            // os.Remove
    | RemoveAll(path: string)                         // os.RemoveAll
    | CreateIfMissing(path: string)                   // os.Stat, then os.Create when it is missing
    | WriteFile(path: string, content: string, perm: int) // os.WriteFile
    | Symlink(target: string, link: string)           // os.Symlink

  /** The steps carried out, in order, and the error that stopped them (None for nil). */
  datatype Trace = Trace(performed: seq<Step>, err: Option<Error>)

  /** Every step of `steps` succeeds in `env`. */
  predicate AllSucceed(steps: seq<Step>, env: Step -> Option<Error>) {
    forall i :: 0 <= i < |steps| ==> env(steps[i]).None?
  }

  /** A concatenation succeeds step by step exactly when both parts do. */
  lemma AllSucceedAppend(a: seq<Step>, b: seq<Step>, env: Step -> Option<Error>)
    ensures AllSucceed(a + b, env) <==> AllSucceed(a, env) && AllSucceed(b, env)
  {
    assert forall i :: 0 <= i < |a| ==> (a + b)[i] == a[i];
    assert forall i :: 0 <= i < |b| ==> (a + b)[|a| + i] == b[i];
  }

  /**
   * Running `first` and, when it succeeded, something that succeeds exactly when every step of
   * `second` does: the whole succeeds exactly when every step of both does, and a failure is the
   * error of the last step carried out.
   */
  lemma ThenOutcome(first: seq<Step>, second: seq<Step>, rest: Trace, env: Step -> Option<Error>)
    requires Run(first, env).err.None? ==>
               && (rest.err.None? <==> AllSucceed(second, env))
               && (rest.err.Some? ==> |rest.performed| > 0 && rest.err == env(rest.performed[|rest.performed| - 1]))
    ensures var r := if Run(first, env).err.Some? then Run(first, env) else rest;
            && (r.err.None? <==> AllSucceed(first + second, env))
            && (r.err.Some? ==> |r.performed| > 0 && r.err == env(r.performed[|r.performed| - 1]))
  {
    RunStopsAtFirstFailure(first, env);
    AllSucceedAppend(first, second, env);
  }

  /** Carries the steps out in order and returns at the first one that fails. */
  function Run(steps: seq<Step>, env: Step -> Option<Error>): (r: Trace)
    ensures r.performed <= steps
    ensures r.err.None? ==> r.performed == steps
    ensures r.err.Some? ==> |r.performed| > 0 && r.err == env(r.performed[|r.performed| - 1])
  {
    if steps == [] then Trace([], None)
    else
      match env(steps[0])
      case Some(e) => Trace([steps[0]], Some(e))
      case None =>
        var rest := Run(steps[1..], env);
        assert [steps[0]] + steps[1..] == steps;
        Trace([steps[0]] + rest.performed, rest.err)
  }

  /** Running a concatenation runs the first part and, only if it succeeded, the second. */
  lemma {:induction false} RunAppend(a: seq<Step>, b: seq<Step>, env: Step -> Option<Error>)
    ensures Run(a + b, env) ==
              if Run(a, env).err.Some? then Run(a, env)
              else Trace(a + Run(b, env).performed, Run(b, env).err)
    decreases |a|
  {
    if a == [] {
      assert a + b == b;
    } else {
      var ab := a + b;
      assert ab[0] == a[0];
      assert ab[1..] == a[1..] + b;
      RunFirst(ab, env);
      RunFirst(a, env);
      if env(a[0]).None? {
        RunAppend(a[1..], b, env);
        var rest := Run(a[1..], env);
        if rest.err.Some? {
          assert Run(ab, env) == Trace([a[0]] + rest.performed, rest.err) == Run(a, env);
        } else {
          var tail := Run(b, env);
          assert Run(ab, env) == Trace([a[0]] + (a[1..] + tail.performed), tail.err);
          assert [a[0]] + (a[1..] + tail.performed) == a + tail.performed;
        }
      }
    }
  }

  lemma RunFirst(s: seq<Step>, env: Step -> Option<Error>)
    requires s != []
    ensures Run(s, env) == if env(s[0]).Some? then Trace([s[0]], env(s[0]))
                           else Trace([s[0]] + Run(s[1..], env).performed, Run(s[1..], env).err)
  {
  }

  /**
   * Run succeeds exactly when every step does; otherwise it stops at the first failing step,
   * whose error it returns, after carrying out every step before it.
   */
  lemma {:induction false} RunStopsAtFirstFailure(steps: seq<Step>, env: Step -> Option<Error>)
    ensures Run(steps, env).err.None? <==> AllSucceed(steps, env)
    ensures var r := Run(steps, env);
            r.err.Some? ==> forall i :: 0 <= i < |r.performed| - 1 ==> env(r.performed[i]).None?
    decreases |steps|
  {
    if steps != [] {
      RunFirst(steps, env);
      RunStopsAtFirstFailure(steps[1..], env);
      assert forall i :: 1 <= i < |steps| ==> steps[i] == steps[1..][i - 1];
      var r := Run(steps, env);
      var rest := Run(steps[1..], env);
      if env(steps[0]).None? && rest.err.Some? {
        assert forall i :: 1 <= i < |r.performed| ==> r.performed[i] == rest.performed[i - 1];
      }
    }
  }
}
