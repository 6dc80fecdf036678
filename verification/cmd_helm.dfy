/**
 * cmd/helm.go: `helm install <release> <chart> [-n ns]` and `helm uninstall <release> [-n ns]`.
 * Both call the helm program, passing the namespace on when one is given; install first creates
 * the namespace with kubectl, and stops the whole program when that fails. `exec` says how
 * starting each program turns out; utils.ExecCommand never returns any output, so the message
 * log.Fatal prints there is empty.
 */
module CmdHelm {
  import opened Wrappers
  import opened Errors
  import opened Cli

  /** The `-n <ns>` suffix, present exactly when a namespace is given. */
  function NamespaceArgs(ns: string): (r: seq<string>)
    ensures ns == "" ==> r == []
    ensures ns != "" ==> r == ["-n", ns]
  {
    if ns != "" then ["-n", ns] else []
  }

  /** `kubectl create namespace <ns>`: kubectl, not helm, creates the namespace. */
  function CreateNamespace(ns: string): (r: Command)
    ensures r.name == "kubectl" && r.name != "helm"
    ensures |r.args| == 3 && r.args[..2] == ["create", "namespace"] && r.args[2] == ns
  {
    Command("kubectl", ["create", "namespace", ns])
  }

  /** `helm install <release> <chart> [-n ns]`. */
  function InstallCommand(release: string, chart: string, ns: string): (r: Command)
    ensures r.name == "helm" && |r.args| >= 3 && r.args[..3] == ["install", release, chart]
    ensures release != "-n" ==> NamespaceOf(r.args) == ns
  {
    var r := Command("helm", ["install", release, chart] + NamespaceArgs(ns));
    if release != "-n" then InstallNamespace(release, chart, ns); r else r
  }

  /** `helm uninstall <release> [-n ns]`. */
  function UninstallCommand(release: string, ns: string): (r: Command)
    ensures r.name == "helm" && |r.args| >= 2 && r.args[..2] == ["uninstall", release]
    ensures NamespaceOf(r.args) == ns
  {
    var r := Command("helm", ["uninstall", release] + NamespaceArgs(ns));
    UninstallNamespace(release, ns);
    r
  }

  /**
   * The namespace a helm argument list names: what follows its last "-n", or none. This is a
   * reader for stating properties; the program itself never parses these lists.
   */
  function NamespaceOf(argv: seq<string>): (r: string)
    ensures r == "" || exists i :: 0 <= i < |argv| - 1 && argv[i] == "-n" && argv[i + 1] == r
    decreases |argv|
  {
    if |argv| < 2 then ""
    else if argv[|argv| - 2] == "-n" then argv[|argv| - 1]
    else NamespaceOf(argv[..|argv| - 1])
  }

  /** The namespace read back from an install argument list is the one given. */
  lemma InstallNamespace(release: string, chart: string, ns: string)
    requires release != "-n"
    ensures NamespaceOf(["install", release, chart] + NamespaceArgs(ns)) == ns
  {
    if ns == "" {
      var a := ["install", release, chart];
      assert a + NamespaceArgs(ns) == a;
      assert a[..2] == ["install", release];
      assert ["install", release][..1] == ["install"];
    } else {
      assert ["install", release, chart] + NamespaceArgs(ns) == ["install", release, chart, "-n", ns];
    }
  }

  /** The namespace read back from an uninstall argument list is the one given. */
  lemma UninstallNamespace(release: string, ns: string)
    ensures NamespaceOf(["uninstall", release] + NamespaceArgs(ns)) == ns
  {
    if ns == "" {
      var u := ["uninstall", release];
      assert u + NamespaceArgs(ns) == u;
      assert u[..1] == ["uninstall"];
    } else {
      assert ["uninstall", release] + NamespaceArgs(ns) == ["uninstall", release, "-n", ns];
    }
  }

  /**
   * Install and uninstall of a release address the same release in the same namespace, as
   * long as the release is not itself called "-n".
   */
  lemma NamespaceRoundTrip(release: string, chart: string, ns: string)
    requires release != "-n"
    ensures var i, u := InstallCommand(release, chart, ns), UninstallCommand(release, ns);
            && i.name == u.name == "helm"
            && i.args[1] == u.args[1] == release
            && NamespaceOf(i.args) == NamespaceOf(u.args) == ns
  {
    var i, u := InstallCommand(release, chart, ns), UninstallCommand(release, ns);
    assert i.args[..3][1] == i.args[1];
    assert u.args[..2][1] == u.args[1];
  }

  /**
   * `helm install`: exactly two arguments; with a namespace, kubectl creates it first, and a
   * failure there ends the program (log.Fatal) before helm runs.
   */
  function Install(args: seq<string>, ns: string, exec: Command -> Option<Error>): (r: Outcome)
    ensures |args| != 2 ==> r == Outcome([], Some(ArgCount(Exactly(2), |args|)))
    ensures |args| == 2 && ns != "" && exec(CreateNamespace(ns)).Some? ==>
              r == Outcome([CreateNamespace(ns)], Some(Fatal("")))
    ensures |args| == 2 && (ns == "" || exec(CreateNamespace(ns)).None?) ==>
              var helm := InstallCommand(args[0], args[1], ns);
              && r.ran == (if ns != "" then [CreateNamespace(ns)] else []) + [helm]
              && r.err == exec(helm)
  {
    match CheckArgs(Exactly(2), args)
    case Some(e) => Outcome([], Some(e))
    case None =>
      var created := if ns != "" then [CreateNamespace(ns)] else [];
      if ns != "" && exec(CreateNamespace(ns)).Some? then Outcome(created, Some(Fatal("")))
      else
        var helm := InstallCommand(args[0], args[1], ns);
        Outcome(created + [helm], exec(helm))
  }

  /**
   * `helm uninstall`: exactly one argument, then helm alone uninstalls that release in the
   * given namespace; no namespace is created or removed.
   */
  function Uninstall(args: seq<string>, ns: string, exec: Command -> Option<Error>): (r: Outcome)
    ensures |args| != 1 ==> r == Outcome([], Some(ArgCount(Exactly(1), |args|)))
    ensures |args| == 1 ==>
              && |r.ran| == 1 && r.ran[0].name == "helm"
              && |r.ran[0].args| >= 2 && r.ran[0].args[..2] == ["uninstall", args[0]]
              && NamespaceOf(r.ran[0].args) == ns
              && r.err == exec(r.ran[0])
  {
    match CheckArgs(Exactly(1), args)
    case Some(e) => Outcome([], Some(e))
    case None => Outcome([UninstallCommand(args[0], ns)], exec(UninstallCommand(args[0], ns)))
  }

  /** helm runs at most once per install, and only as its last program. */
  lemma InstallRunsHelmLast(args: seq<string>, ns: string, exec: Command -> Option<Error>)
    ensures var r := Install(args, ns, exec);
            forall i :: 0 <= i < |r.ran| && r.ran[i].name == "helm" ==> i == |r.ran| - 1
  {
  }
}
