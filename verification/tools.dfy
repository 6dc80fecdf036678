/**
 * The tool registry (pkg/config/tool.go): sixteen command-line tools, each with a default
 * version, the platform string its release assets use, and an install procedure that
 * downloads a release, unpacks it when it is an archive, and moves the binary into
 * /usr/local/bin. The target operating system (runtime.GOOS) and the temporary directory
 * (os.TempDir) are parameters.
 */
module Tools {
  import opened Wrappers
  import opened Errors
  import opened Paths
  import opened Steps
  import Strings
  import Lists
  import FileSystem
  import Archive

  /** Which function maps GOOS to the platform string of a tool's release assets, if any. */
  datatype OsMapping = NoMapping | BatNames | GeckodriverNames | MacOSNames | MacNames

  /** Which install procedure a tool carries (each Tool value in Go holds its own Install function). */
  datatype Installer =
    | BatInstaller | DiveInstaller | GeckodriverInstaller | GhInstaller | HelmInstaller | JqInstaller
    | KindInstaller | KubectlInstaller | KustomizeInstaller | MavenInstaller | MinishiftInstaller
    | OpenshiftClientInstaller | OpenshiftInstallInstaller | OperatorSdkInstaller | TerraformInstaller
    | YqInstaller

  /** A registry entry; its description, shown only when listing, is `Description`. */
  datatype Tool = Tool(name: string, commandLineName: string, defaultVersion: string, os: OsMapping,
                       installer: Installer)

  /** The platform part of bat's asset names. */
  function BatPlatform(goos: string): (p: string)
    ensures p == "apple-darwin" <==> goos == "darwin"
    ensures p == "pc-windows-gnu" <==> goos == "windows"
    ensures p == "unknown-linux-gnu" <==> goos != "darwin" && goos != "windows"
  {
    if goos == "darwin" then "apple-darwin"
    else if goos == "windows" then "pc-windows-gnu"
    else "unknown-linux-gnu"
  }

  /** The platform part of geckodriver's asset names: every system but darwin and linux gets win64. */
  function GeckodriverPlatform(goos: string): (p: string)
    ensures p == "macos" <==> goos == "darwin"
    ensures p == "linux64" <==> goos == "linux"
    ensures p == "win64" <==> goos != "darwin" && goos != "linux"
  {
    if goos == "darwin" then "macos" else if goos == "linux" then "linux64" else "win64"
  }

  /** GOOS itself, except that darwin is called macOS. */
  function MacOSOrGoos(goos: string): (p: string)
    ensures p != "darwin"
    ensures goos != "darwin" ==> p == goos
    ensures p == "macOS" <==> goos == "darwin" || goos == "macOS"
  {
    if goos == "darwin" then "macOS" else goos
  }

  /** GOOS itself, except that darwin is called mac. */
  function MacOrGoos(goos: string): (p: string)
    ensures p != "darwin"
    ensures goos != "darwin" ==> p == goos
    ensures p == "mac" <==> goos == "darwin" || goos == "mac"
  {
    if goos == "darwin" then "mac" else goos
  }

  /** Tool.OS(): None for the tools that have no OS function. */
  function Platform(m: OsMapping, goos: string): (p: Option<string>)
    ensures p.None? <==> m == NoMapping
  {
    match m
    case NoMapping => None
    case BatNames => Some(BatPlatform(goos))
    case GeckodriverNames => Some(GeckodriverPlatform(goos))
    case MacOSNames => Some(MacOSOrGoos(goos))
    case MacNames => Some(MacOrGoos(goos))
  }

  function Bat(): Tool {
    Tool("bat", "bat", "0.20.0", BatNames, BatInstaller)
  }
  function Dive(): Tool {
    Tool("dive", "dive", "0.10.0", NoMapping, DiveInstaller)
  }
  function Geckodriver(): Tool {
    Tool("geckodriver", "geckodriver", "0.31.0", GeckodriverNames, GeckodriverInstaller)
  }
  function Gh(): Tool {
    Tool("gh", "gh", "2.9.0", MacOSNames, GhInstaller)
  }
  function Helm(): Tool {
    Tool("helm", "helm", "3.8.2", NoMapping, HelmInstaller)
  }
  function Jq(): Tool {
    Tool("jq", "jq", "1.6", MacOSNames, JqInstaller)
  }
  function Kind(): Tool {
    Tool("kind", "kind", "0.12.0", NoMapping, KindInstaller)
  }
  function Kubectl(): Tool {
    Tool("kubectl", "kubectl", "1.23.6", NoMapping, KubectlInstaller)
  }
  function Kustomize(): Tool {
    Tool("kustomize", "kustomize", "4.5.4", NoMapping, KustomizeInstaller)
  }
  function Maven(): Tool {
    Tool("maven", "mvn", "3.8.5", NoMapping, MavenInstaller)
  }
  function Minishift(): Tool {
    Tool("minishift", "minishift", "1.34.3", NoMapping, MinishiftInstaller)
  }
  function OpenshiftClient(): Tool {
    Tool("openshift-client", "oc", "4.10.10", MacNames, OpenshiftClientInstaller)
  }
  function OpenshiftInstall(): Tool {
    Tool("openshift-install", "openshift-install", "4.9.12", MacNames, OpenshiftInstallInstaller)
  }
  function OperatorSdk(): Tool {
    Tool("operator-sdk", "operator-sdk", "1.9.0", NoMapping, OperatorSdkInstaller)
  }
  function Terraform(): Tool {
    Tool("terraform", "terraform", "1.1.9", NoMapping, TerraformInstaller)
  }
  function Yq(): Tool {
    Tool("yq", "yq", "4.24.5", NoMapping, YqInstaller)
  }

  /** The description the tools list command prints next to a registry tool. */
  function Description(t: Tool): string {
    match t.installer
    case BatInstaller => "A cat like tool, but more powerful"
    case DiveInstaller => "A tool for exploring container in depth"
    case GeckodriverInstaller => "A driver to be used by Selenium"
    case GhInstaller => "GitHub CLI tool for interacting with GitHub"
    case HelmInstaller => "The package manager for Kubernetes"
    case JqInstaller => "jq is a lightweight and flexible command-line JSON processor"
    case KindInstaller => "kind is a tool for running local Kubernetes clusters using Docker container \"nodes\""
    case KubectlInstaller => "The Kubernetes command-line tool"
    case KustomizeInstaller => "Kubernetes native configuration management"
    case MavenInstaller => "Apache Maven is a software project management and comprehension tool"
    case MinishiftInstaller => "Minishift is a tool that helps you run OpenShift locally by running a single-node OpenShift cluster inside a VM"
    case OpenshiftClientInstaller => "Interact with Openshift in the CLI"
    case OpenshiftInstallInstaller => "Openshift installer"
    case OperatorSdkInstaller => "The Operator SDK provides the tools to build, test, and package Operators"
    case TerraformInstaller => "Terraform is an open-source infrastructure as code software tool that enables you to safely and predictably create, change, and improve infrastructure"
    case YqInstaller => "yq is a lightweight and portable command-line YAML, JSON and XML processor"
  }

  /** The registry tool that carries install procedure `k`. */
  function Registered(k: Installer): (t: Tool)
    ensures t.installer == k
  {
    match k
    case BatInstaller => Bat()
    case DiveInstaller => Dive()
    case GeckodriverInstaller => Geckodriver()
    case GhInstaller => Gh()
    case HelmInstaller => Helm()
    case JqInstaller => Jq()
    case KindInstaller => Kind()
    case KubectlInstaller => Kubectl()
    case KustomizeInstaller => Kustomize()
    case MavenInstaller => Maven()
    case MinishiftInstaller => Minishift()
    case OpenshiftClientInstaller => OpenshiftClient()
    case OpenshiftInstallInstaller => OpenshiftInstall()
    case OperatorSdkInstaller => OperatorSdk()
    case TerraformInstaller => Terraform()
    case YqInstaller => Yq()
  }

  /** DefaultSupportedTools, in its declared order: each install procedure exactly once. */
  function Registry(): (r: seq<Tool>)
    ensures |r| == 16
    ensures forall i, j :: 0 <= i < j < |r| ==> r[i].installer != r[j].installer
  {
    [Bat(), Dive(), Geckodriver(), Gh(), Helm(), Jq(), Kind(), Kubectl(), Kustomize(), Maven(), Minishift(),
     OpenshiftClient(), OpenshiftInstall(), OperatorSdk(), Terraform(), Yq()]
  }

  /** config.FindTool: the first registry tool with that name, else ToolNotFound. */
  function FindTool(name: string): (r: Result<Tool>)
    ensures r.Ok? <==> exists i :: 0 <= i < |Registry()| && Registry()[i].name == name
    ensures r.Ok? ==> r.value in Registry() && r.value.name == name
    ensures r.Err? ==> r.error == ToolNotFound(name)
  {
    var reg := Registry();
    var k := Lists.First(reg, (t: Tool) => t.name, name);
    if k == -1 then Err(ToolNotFound(name)) else Ok(reg[k])
  }

  /** The registry's names, in order (the tools command's ValidArgs). */
  function ToolNames(): (r: seq<string>)
    ensures |r| == |Registry()|
    ensures forall i :: 0 <= i < |r| ==> r[i] == Registry()[i].name
  {
    Lists.Keys(Registry(), (t: Tool) => t.name)
  }

  // ---------------------------------------------------------------------------------------
  // Install procedures

  const Mode0755 := FileSystem.Mode0755

  /** Where a binary named `name` is installed. */
  function Bin(name: string): string {
    "/usr/local/bin/" + name
  }

  /**
   * The archive flow most tools share: download the release to `file` in the temporary
   * directory, make a fresh directory `dirName` there, unpack into it, move the binary found
   * at `binary` (relative to that directory) to `target`, optionally make it executable, and
   * remove the archive and the directory.
   */
  function ViaTempDir(url: string, tmp: string, file: string, dirName: string, binary: seq<string>,
                      target: string, chmodTarget: bool): (r: seq<Step>)
    ensures |r| == if chmodTarget then 7 else 6
    ensures r[0] == Download(url, Join([tmp, file]))
    ensures r[3] == Rename(Join([Join([tmp, dirName])] + binary), target)
    ensures chmodTarget ==> r[4] == Chmod(target, Mode0755)
    ensures SimpleName(file) && SameFormat(url, file) ==> UnpacksDownloads(r)
    ensures Installs(r, target)
  {
    var archive, dest := Join([tmp, file]), Join([tmp, dirName]);
    if SimpleName(file) && SameFormat(url, file) then
      FormatJoined(url, tmp, file);
      TempDirSteps(url, archive, dest, Join([dest] + binary), target, chmodTarget)
    else TempDirSteps(url, archive, dest, Join([dest] + binary), target, chmodTarget)
  }

  /** The steps of ViaTempDir once the archive, the directory and the binary's path are known. */
  function TempDirSteps(url: string, archive: string, dest: string, binary: string,
                        target: string, chmodTarget: bool): (r: seq<Step>)
    ensures |r| == if chmodTarget then 7 else 6
    ensures r[0] == Download(url, archive) && r[1] == Mkdir(dest, Mode0755) && r[2] == Expand(archive, dest)
    ensures r[3] == Rename(binary, target)
    ensures chmodTarget ==> r[4] == Chmod(target, Mode0755)
    ensures r[|r| - 2] == Remove(archive) && r[|r| - 1] == RemoveAll(dest)
    ensures forall i :: 0 <= i < |r| && r[i].Expand? ==> i == 2
    ensures SameFormat(url, archive) ==> UnpacksDownloads(r)
    ensures Installs(r, target)
  {
    var head := [Download(url, archive), Mkdir(dest, Mode0755), Expand(archive, dest), Rename(binary, target)];
    var tail := (if chmodTarget then [Chmod(target, Mode0755)] else []) + [Remove(archive), RemoveAll(dest)];
    var r := head + tail;
    assert forall i :: 0 <= i < |tail| ==> !tail[i].Expand?;
    assert r[3] == head[3];
    InstallsAt(r, 3, target);
    if SameFormat(url, archive) then
      UnpacksSingleExpand(head, 2);
      UnpacksThenNoExpand(head, tail);
      r
    else r
  }

  /** Where maven is unpacked on each operating system (pkg/config/tool.go:439-446). */
  function MavenHome(goos: string): string {
    if goos == "darwin" then "/Library/maven" else if goos == "linux" then "/usr/local/maven" else "C:\\maven"
  }

  // Each release URL has a function of its own, so that proofs about a plan's shape never
  // have to look inside the long literals. Each one states how it ends: the archive format of
  // the release, or the asset file name of a single binary.

  /** `stem` followed by `ext`. */
  function Suffixed(stem: string, ext: string): (s: string)
    ensures Strings.HasSuffix(s, ext)
  {
    Strings.SuffixOfAppend(stem, ext);
    stem + ext
  }

  function BatUrl(v: string, goos: string): (u: string)
    ensures Strings.HasSuffix(u, ".tar.gz")
  {
    Suffixed("https://github.com/sharkdp/bat/releases/download/v" + v + "/bat-v" + v + "-x86_64-" + BatPlatform(goos), ".tar.gz")
  }

  function DiveUrl(v: string, goos: string): (u: string)
    ensures Strings.HasSuffix(u, ".tar.gz")
  {
    Suffixed("https://github.com/wagoodman/dive/releases/download/v" + v + "/dive_" + v + "_" + goos + "_amd64", ".tar.gz")
  }

  function GeckodriverUrl(v: string, goos: string): (u: string)
    ensures Strings.HasSuffix(u, ".tar.gz")
  {
    Suffixed("https://github.com/mozilla/geckodriver/releases/download/v" + v + "/geckodriver-v" + v + "-"
               + GeckodriverPlatform(goos), ".tar.gz")
  }

  function GhUrl(v: string, goos: string): (u: string)
    ensures Strings.HasSuffix(u, ".tar.gz")
  {
    Suffixed("https://github.com/cli/cli/releases/download/v" + v + "/gh_" + v + "_" + MacOSOrGoos(goos) + "_amd64", ".tar.gz")
  }

  function HelmUrl(v: string, goos: string): (u: string)
    ensures Strings.HasSuffix(u, ".tar.gz")
  {
    Suffixed("https://get.helm.sh/helm-v" + v + "-" + goos + "-amd64", ".tar.gz")
  }

  /** The name of jq's release asset for each operating system (pkg/config/tool.go:366-376). */
  function JqAsset(goos: string): string {
    if goos == "darwin" then "jq-osx-amd64" else if goos == "linux" then "jq-linux64" else "jq-win64.exe"
  }

  function JqUrl(v: string, goos: string): (u: string)
    ensures Strings.HasSuffix(u, "/" + JqAsset(goos))
  {
    Suffixed("https://github.com/stedolan/jq/releases/download/jq-" + v, "/" + JqAsset(goos))
  }

  function KindUrl(v: string, goos: string): (u: string)
    ensures Strings.HasSuffix(u, "/kind-" + goos + "-amd64")
  {
    Suffixed("https://github.com/kubernetes-sigs/kind/releases/download/v" + v, "/kind-" + goos + "-amd64")
  }

  function KubectlUrl(v: string, goos: string): (u: string)
    ensures Strings.HasSuffix(u, "/bin/" + goos + "/amd64/kubectl")
  {
    Suffixed("https://dl.k8s.io/release/v" + v, "/bin/" + goos + "/amd64/kubectl")
  }

  function KustomizeUrl(v: string, goos: string): (u: string)
    ensures Strings.HasSuffix(u, ".tar.gz")
  {
    Suffixed("https://github.com/kubernetes-sigs/kustomize/releases/download/kustomize/v" + v + "/kustomize_v" + v
               + "_" + goos + "_amd64", ".tar.gz")
  }

  function MavenUrl(v: string): (u: string)
    ensures Strings.HasSuffix(u, ".zip")
  {
    Suffixed("https://dlcdn.apache.org/maven/maven-3/" + v + "/binaries/apache-maven-" + v + "-bin", ".zip")
  }

  /** minishift publishes a .tgz, which its install procedure saves as minishift.tar.gz. */
  function MinishiftUrl(v: string, goos: string): (u: string)
    ensures Strings.HasSuffix(u, ".tgz")
  {
    Suffixed("https://github.com/minishift/minishift/releases/download/v" + v + "/minishift-" + v + "-" + goos + "-amd64", ".tgz")
  }

  function OpenshiftClientUrl(v: string, goos: string): (u: string)
    ensures Strings.HasSuffix(u, ".tar.gz")
  {
    Suffixed("https://mirror.openshift.com/pub/openshift-v4/x86_64/clients/ocp/" + v + "/openshift-client-"
               + MacOrGoos(goos) + "-" + v, ".tar.gz")
  }

  function OpenshiftInstallUrl(v: string, goos: string): (u: string)
    ensures Strings.HasSuffix(u, ".tar.gz")
  {
    Suffixed("https://mirror.openshift.com/pub/openshift-v4/x86_64/clients/ocp/" + v + "/openshift-install-"
               + MacOrGoos(goos) + "-" + v, ".tar.gz")
  }

  function OperatorSdkUrl(v: string, goos: string): (u: string)
    ensures Strings.HasSuffix(u, "/operator-sdk_" + goos + "_amd64")
  {
    Suffixed("https://github.com/operator-framework/operator-sdk/releases/download/v" + v, "/operator-sdk_" + goos + "_amd64")
  }

  function TerraformUrl(v: string, goos: string): (u: string)
    ensures Strings.HasSuffix(u, ".zip")
  {
    Suffixed("https://releases.hashicorp.com/terraform/" + v + "/terraform_" + v + "_" + goos + "_amd64", ".zip")
  }

  function YqUrl(v: string, goos: string): (u: string)
    ensures Strings.HasSuffix(u, "/yq_" + goos + "_amd64")
  {
    Suffixed("https://github.com/mikefarah/yq/releases/download/v" + v, "/yq_" + goos + "_amd64")
  }

  function BatPlan(cmd: string, v: string, goos: string, tmp: string): (r: seq<Step>)
    ensures |r| == 6
    ensures r[0] == Download(BatUrl(v, goos), Join([tmp, ArchiveName("bat", ".tar.gz")]))
    ensures r[3] == Rename(Join([Join([tmp, "bat"]), "bat-v" + v + "-x86_64-" + BatPlatform(goos), "bat"]), Bin(cmd))
    ensures UnpacksDownloads(r)
    ensures Installs(r, Bin(cmd))
  {
    var bin := ["bat-v" + v + "-x86_64-" + BatPlatform(goos), "bat"];
    assert [Join([tmp, "bat"])] + bin == [Join([tmp, "bat"]), bin[0], "bat"];
    ViaTempDir(BatUrl(v, goos), tmp, ArchiveName("bat", ".tar.gz"), "bat", bin, Bin(cmd), false)
  }

  function DivePlan(v: string, goos: string, tmp: string): (r: seq<Step>)
    ensures |r| == 7
    ensures r[0] == Download(DiveUrl(v, goos), Join([tmp, ArchiveName("dive", ".tar.gz")]))
    ensures r[3] == Rename(Join([Join([tmp, "dive"]), "dive"]), Bin("dive"))
    ensures r[4] == Chmod(Bin("dive"), Mode0755)
    ensures UnpacksDownloads(r)
    ensures Installs(r, Bin("dive"))
  {
    ViaTempDir(DiveUrl(v, goos), tmp, ArchiveName("dive", ".tar.gz"), "dive", ["dive"], Bin("dive"), true)
  }

  function GeckodriverPlan(cmd: string, v: string, goos: string, tmp: string): (r: seq<Step>)
    ensures |r| == 6
    ensures r[0] == Download(GeckodriverUrl(v, goos), Join([tmp, ArchiveName("geckodriver", ".tar.gz")]))
    ensures r[3] == Rename(Join([Join([tmp, "geckodriver"]), "geckodriver"]), Bin(cmd))
    ensures UnpacksDownloads(r)
    ensures Installs(r, Bin(cmd))
  {
    ViaTempDir(GeckodriverUrl(v, goos), tmp, ArchiveName("geckodriver", ".tar.gz"), "geckodriver", ["geckodriver"], Bin(cmd), false)
  }

  function GhPlan(cmd: string, v: string, goos: string, tmp: string): (r: seq<Step>)
    ensures |r| == 6
    ensures r[0] == Download(GhUrl(v, goos), Join([tmp, ArchiveName("gh", ".tar.gz")]))
    ensures r[3] == Rename(Join([Join([tmp, "github"]), "gh_" + v + "_" + MacOSOrGoos(goos) + "_amd64", "bin", "gh"]), Bin(cmd))
    ensures UnpacksDownloads(r)
    ensures Installs(r, Bin(cmd))
  {
    var bin := ["gh_" + v + "_" + MacOSOrGoos(goos) + "_amd64", "bin", "gh"];
    assert [Join([tmp, "github"])] + bin == [Join([tmp, "github"]), bin[0], "bin", "gh"];
    ViaTempDir(GhUrl(v, goos), tmp, ArchiveName("gh", ".tar.gz"), "github", bin, Bin(cmd), false)
  }

  function HelmPlan(v: string, goos: string, tmp: string): (r: seq<Step>)
    ensures |r| == 6
    ensures r[0] == Download(HelmUrl(v, goos), Join([tmp, ArchiveName("helm", ".tar.gz")]))
    ensures r[3] == Rename(Join([Join([tmp, "helm"]), goos + "-amd64", "helm"]), Bin("helm"))
    ensures UnpacksDownloads(r)
    ensures Installs(r, Bin("helm"))
  {
    var bin := [goos + "-amd64", "helm"];
    assert [Join([tmp, "helm"])] + bin == [Join([tmp, "helm"]), bin[0], "helm"];
    ViaTempDir(HelmUrl(v, goos), tmp, ArchiveName("helm", ".tar.gz"), "helm", bin, Bin("helm"), false)
  }

  /** jq is a single executable, downloaded under its per-OS asset name; on Windows it goes to C:\jq.exe. */
  function JqPlan(v: string, goos: string): (r: seq<Step>)
    ensures |r| == 1 && r[0].Download? && r[0].url == JqUrl(v, goos)
    ensures Strings.HasSuffix(r[0].url, "/" + JqAsset(goos))
    ensures goos == "darwin" || goos == "linux" ==> r[0].file == Bin("jq")
    ensures goos != "darwin" && goos != "linux" ==> r[0].file == "C:\\jq.exe"
    ensures UnpacksDownloads(r)
    ensures goos == "darwin" || goos == "linux" ==> Installs(r, Bin("jq"))
    ensures goos != "darwin" && goos != "linux" ==> Installs(r, "C:\\jq.exe")
  {
    var r := [Download(JqUrl(v, goos), if goos == "darwin" || goos == "linux" then Bin("jq") else "C:\\jq.exe")];
    if goos == "darwin" || goos == "linux" then InstallsAt(r, 0, Bin("jq")); r
    else InstallsAt(r, 0, "C:\\jq.exe"); r
  }

  function KindPlan(v: string, goos: string): (r: seq<Step>)
    ensures |r| == 1 && r[0].Download? && r[0].url == KindUrl(v, goos) && r[0].file == Bin("kind")
    ensures Strings.HasSuffix(r[0].url, "/kind-" + goos + "-amd64")
    ensures UnpacksDownloads(r)
    ensures Installs(r, Bin("kind"))
  {
    var r := [Download(KindUrl(v, goos), Bin("kind"))];
    InstallsAt(r, 0, Bin("kind"));
    r
  }

  function KubectlPlan(v: string, goos: string): (r: seq<Step>)
    ensures |r| == 1 && r[0].Download? && r[0].url == KubectlUrl(v, goos) && r[0].file == Bin("kubectl")
    ensures Strings.HasSuffix(r[0].url, "/bin/" + goos + "/amd64/kubectl")
    ensures UnpacksDownloads(r)
    ensures Installs(r, Bin("kubectl"))
  {
    var r := [Download(KubectlUrl(v, goos), Bin("kubectl"))];
    InstallsAt(r, 0, Bin("kubectl"));
    r
  }

  /**
   * kustomize unpacks straight into /usr/local/bin and then makes the unpacked
   * /usr/local/bin/kustomize executable.
   */
  function KustomizePlan(v: string, goos: string, tmp: string): (r: seq<Step>)
    ensures |r| == 4
    ensures r[0] == Download(KustomizeUrl(v, goos), Join([tmp, ArchiveName("kustomize", ".tar.gz")]))
    ensures r[1] == Expand(r[0].file, "/usr/local/bin")
    ensures r[2] == Remove(r[0].file)
    ensures r[3] == Chmod(Bin("kustomize"), Mode0755)
    ensures UnpacksDownloads(r)
    ensures Installs(r, Bin("kustomize"))
  {
    var name := ArchiveName("kustomize", ".tar.gz");
    FormatJoined(KustomizeUrl(v, goos), tmp, name);
    UnpackInPlace(KustomizeUrl(v, goos), Join([tmp, name]), "/usr/local/bin", Bin("kustomize"))
  }

  /** Download `archive`, unpack it straight into `dir`, remove it and make `target` executable. */
  function UnpackInPlace(url: string, archive: string, dir: string, target: string): (r: seq<Step>)
    ensures r == [Download(url, archive), Expand(archive, dir), Remove(archive), Chmod(target, Mode0755)]
    ensures SameFormat(url, archive) ==> UnpacksDownloads(r)
    ensures Installs(r, target)
  {
    var r := [Download(url, archive), Expand(archive, dir), Remove(archive), Chmod(target, Mode0755)];
    InstallsAt(r, 3, target);
    if SameFormat(url, archive) then UnpacksSingleExpand(r, 1); r else r
  }

  /** maven unpacks into a per-OS home, renames the release to its version and links or registers mvn. */
  function MavenPlan(v: string, goos: string, tmp: string): (r: seq<Step>)
    ensures |r| >= 5
    ensures r[0] == Download(MavenUrl(v), Join([tmp, ArchiveName("maven", ".zip")]))
    ensures r[1] == MkdirIfMissing(MavenHome(goos), Mode0755)
    ensures r[2] == Expand(r[0].file, MavenHome(goos))
    ensures r[3] == Rename(Join([MavenHome(goos), "apache-maven-" + v]), Join([MavenHome(goos), v]))
    ensures r[4..] == MavenLink(v, goos) + [Remove(r[0].file)]
    ensures UnpacksDownloads(r)
    ensures goos == "linux" ==> Installs(r, Bin("mvn"))
  {
    var name := ArchiveName("maven", ".zip");
    var home := MavenHome(goos);
    FormatJoined(MavenUrl(v), tmp, name);
    MavenSteps(MavenUrl(v), Join([tmp, name]), home, Join([home, "apache-maven-" + v]), Join([home, v]), MavenLink(v, goos))
  }

  /** MavenPlan once the archive and the release's paths are known; `link` registers mvn. */
  function MavenSteps(url: string, archive: string, home: string, from: string, to: string,
                      link: seq<Step>): (r: seq<Step>)
    requires forall i :: 0 <= i < |link| ==> !link[i].Expand?
    ensures |r| == 5 + |link|
    ensures r[..4] == [Download(url, archive), MkdirIfMissing(home, Mode0755), Expand(archive, home), Rename(from, to)]
    ensures r[4..] == link + [Remove(archive)]
    ensures SameFormat(url, archive) ==> UnpacksDownloads(r)
    ensures link != [] && link[0].Symlink? ==> Installs(r, link[0].link)
  {
    var head := [Download(url, archive), MkdirIfMissing(home, Mode0755), Expand(archive, home), Rename(from, to)];
    var rest := link + [Remove(archive)];
    assert (head + rest)[..4] == head && (head + rest)[4..] == rest;
    var r := head + rest;
    assert link != [] && link[0].Symlink? ==> Installs(r, link[0].link) by {
      if link != [] && link[0].Symlink? { InstallsAt(r, 4, link[0].link); }
    }
    if SameFormat(url, archive) then
      UnpacksSingleExpand(head, 2);
      UnpacksThenNoExpand(head, rest);
      r
    else r
  }

  function MavenLink(v: string, goos: string): (r: seq<Step>)
    ensures forall i :: 0 <= i < |r| ==> !r[i].Expand?
  {
    if goos == "darwin" then
      [CreateIfMissing("/etc/paths.d/maven"), WriteFile("/etc/paths.d/maven", "/Library/maven/" + v + "/bin/mvn", Mode0755)]
    else if goos == "linux" then [Symlink("/usr/local/maven/" + v + "/bin/mvn", Bin("mvn"))]
    else []
  }

  function MinishiftPlan(v: string, goos: string, tmp: string): (r: seq<Step>)
    ensures |r| == 7
    ensures r[0] == Download(MinishiftUrl(v, goos), Join([tmp, ArchiveName("minishift", ".tar.gz")]))
    ensures Strings.HasSuffix(r[0].url, ".tgz")
    ensures r[3] == Rename(Join([Join([tmp, "minishift"]), "minishift-" + v + "-" + goos + "-amd64", "minishift"]), Bin("minishift"))
    ensures r[4] == Chmod(Bin("minishift"), Mode0755)
    ensures UnpacksDownloads(r)
    ensures Installs(r, Bin("minishift"))
  {
    var bin := ["minishift-" + v + "-" + goos + "-amd64", "minishift"];
    assert [Join([tmp, "minishift"])] + bin == [Join([tmp, "minishift"]), bin[0], "minishift"];
    ViaTempDir(MinishiftUrl(v, goos), tmp, ArchiveName("minishift", ".tar.gz"), "minishift", bin, Bin("minishift"), true)
  }

  function OpenshiftClientPlan(cmd: string, v: string, goos: string, tmp: string): (r: seq<Step>)
    ensures |r| == 6
    ensures r[0] == Download(OpenshiftClientUrl(v, goos), Join([tmp, ArchiveName("openshift-client", ".tar.gz")]))
    ensures r[3] == Rename(Join([Join([tmp, "openshift-client"]), "oc"]), Bin(cmd))
    ensures UnpacksDownloads(r)
    ensures Installs(r, Bin(cmd))
  {
    ViaTempDir(OpenshiftClientUrl(v, goos), tmp, ArchiveName("openshift-client", ".tar.gz"), "openshift-client", ["oc"], Bin(cmd), false)
  }

  function OpenshiftInstallPlan(cmd: string, v: string, goos: string, tmp: string): (r: seq<Step>)
    ensures |r| == 6
    ensures r[0] == Download(OpenshiftInstallUrl(v, goos), Join([tmp, ArchiveName("openshift-install", ".tar.gz")]))
    ensures r[3] == Rename(Join([Join([tmp, "openshift-install"]), "openshift-install"]), Bin(cmd))
    ensures UnpacksDownloads(r)
    ensures Installs(r, Bin(cmd))
  {
    ViaTempDir(OpenshiftInstallUrl(v, goos), tmp, ArchiveName("openshift-install", ".tar.gz"), "openshift-install",
               ["openshift-install"], Bin(cmd), false)
  }

  function OperatorSdkPlan(v: string, goos: string): (r: seq<Step>)
    ensures |r| == 1 && r[0].Download? && r[0].url == OperatorSdkUrl(v, goos) && r[0].file == Bin("operator-sdk")
    ensures Strings.HasSuffix(r[0].url, "/operator-sdk_" + goos + "_amd64")
    ensures UnpacksDownloads(r)
    ensures Installs(r, Bin("operator-sdk"))
  {
    var r := [Download(OperatorSdkUrl(v, goos), Bin("operator-sdk"))];
    InstallsAt(r, 0, Bin("operator-sdk"));
    r
  }

  function TerraformPlan(v: string, goos: string, tmp: string): (r: seq<Step>)
    ensures |r| == 6
    ensures r[0] == Download(TerraformUrl(v, goos), Join([tmp, ArchiveName("terraform", ".zip")]))
    ensures r[3] == Rename(Join([Join([tmp, "terraform"]), "terraform"]), Bin("terraform"))
    ensures UnpacksDownloads(r)
    ensures Installs(r, Bin("terraform"))
  {
    ViaTempDir(TerraformUrl(v, goos), tmp, ArchiveName("terraform", ".zip"), "terraform", ["terraform"], Bin("terraform"), false)
  }

  function YqPlan(v: string, goos: string): (r: seq<Step>)
    ensures |r| == 1 && r[0].Download? && r[0].url == YqUrl(v, goos) && r[0].file == Bin("yq")
    ensures Strings.HasSuffix(r[0].url, "/yq_" + goos + "_amd64")
    ensures UnpacksDownloads(r)
    ensures Installs(r, Bin("yq"))
  {
    var r := [Download(YqUrl(v, goos), Bin("yq"))];
    InstallsAt(r, 0, Bin("yq"));
    r
  }

  /**
   * The name of the binary a tool's install procedure puts in /usr/local/bin: its
   * CommandLineName for the tools built by a constructor function, a literal for the others
   * (the rename, link or download targets of pkg/config/tool.go:271-582).
   */
  function TargetName(t: Tool): string {
    match t.installer
    case BatInstaller | GeckodriverInstaller | GhInstaller | OpenshiftClientInstaller | OpenshiftInstallInstaller =>
      t.commandLineName
    case DiveInstaller => "dive"
    case HelmInstaller => "helm"
    case JqInstaller => "jq"
    case KindInstaller => "kind"
    case KubectlInstaller => "kubectl"
    case KustomizeInstaller => "kustomize"
    case MavenInstaller => "mvn"
    case MinishiftInstaller => "minishift"
    case OperatorSdkInstaller => "operator-sdk"
    case TerraformInstaller => "terraform"
    case YqInstaller => "yq"
  }

  /**
   * Tool.Install(version) as the steps it carries out. The tools built by a constructor
   * function (bat, geckodriver, gh and the two openshift tools) install under their
   * CommandLineName; the others name their target literally.
   */
  function InstallPlan(t: Tool, v: string, goos: string, tmp: string): (r: seq<Step>)
    ensures UnpacksDownloads(r)
  {
    match t.installer
    case BatInstaller => BatPlan(t.commandLineName, v, goos, tmp)
    case DiveInstaller => DivePlan(v, goos, tmp)
    case GeckodriverInstaller => GeckodriverPlan(t.commandLineName, v, goos, tmp)
    case GhInstaller => GhPlan(t.commandLineName, v, goos, tmp)
    case HelmInstaller => HelmPlan(v, goos, tmp)
    case JqInstaller => JqPlan(v, goos)
    case KindInstaller => KindPlan(v, goos)
    case KubectlInstaller => KubectlPlan(v, goos)
    case KustomizeInstaller => KustomizePlan(v, goos, tmp)
    case MavenInstaller => MavenPlan(v, goos, tmp)
    case MinishiftInstaller => MinishiftPlan(v, goos, tmp)
    case OpenshiftClientInstaller => OpenshiftClientPlan(t.commandLineName, v, goos, tmp)
    case OpenshiftInstallInstaller => OpenshiftInstallPlan(t.commandLineName, v, goos, tmp)
    case OperatorSdkInstaller => OperatorSdkPlan(v, goos)
    case TerraformInstaller => TerraformPlan(v, goos, tmp)
    case YqInstaller => YqPlan(v, goos)
  }

  /**
   * Tool.Install(version): the plan carried out until its first failing step, whose error it
   * returns; it reports success exactly when every step of the plan succeeds.
   */
  function Install(t: Tool, v: string, goos: string, tmp: string, env: Step -> Option<Error>): (r: Trace)
    ensures r.performed <= InstallPlan(t, v, goos, tmp)
    ensures r.err.None? ==> r.performed == InstallPlan(t, v, goos, tmp)
    ensures r.err.None? <==> AllSucceed(InstallPlan(t, v, goos, tmp), env)
    ensures r.err.Some? ==> |r.performed| > 0 && r.err == env(r.performed[|r.performed| - 1])
  {
    RunStopsAtFirstFailure(InstallPlan(t, v, goos, tmp), env);
    Run(InstallPlan(t, v, goos, tmp), env)
  }

  // ---------------------------------------------------------------------------------------
  // Registry properties

  /** No two registry tools share a name, so the first match is the only one. */
  lemma RegistryNamesDistinct()
    ensures forall i, j :: 0 <= i < j < |Registry()| ==> Registry()[i].name != Registry()[j].name
  {
  }

  /** Every name the tools command offers is found, as that very registry entry, and only those. */
  lemma ToolNamesAreFound(name: string)
    ensures name in ToolNames() <==> FindTool(name).Ok?
    ensures forall i :: 0 <= i < |Registry()| && Registry()[i].name == name ==> FindTool(name) == Ok(Registry()[i])
  {
    RegistryNamesDistinct();
    var names := ToolNames();
    if FindTool(name).Ok? {
      var i :| 0 <= i < |Registry()| && Registry()[i].name == name;
      assert names[i] == name;
    }
  }

  /** No release asset is named after GOOS "darwin" itself: every mapping renames it. */
  lemma PlatformNeverDarwin(m: OsMapping, goos: string)
    ensures Platform(m, goos) != Some("darwin")
    ensures m != NoMapping && goos != "darwin" && goos != "linux" && goos != "windows" ==>
              Platform(m, goos) == Some(goos) || m == BatNames || m == GeckodriverNames
  {
  }

  /**
   * A tool with an OS function downloads a different asset on each of darwin, linux and
   * windows, so no system is served another system's build.
   */
  lemma PlatformsDiffer(m: OsMapping, a: string, b: string)
    requires m != NoMapping
    requires a in ["darwin", "linux", "windows"] && b in ["darwin", "linux", "windows"] && a != b
    ensures Platform(m, a).Some? && Platform(m, b).Some? && Platform(m, a) != Platform(m, b)
  {
  }

  // ---------------------------------------------------------------------------------------
  // Install plan properties

  /**
   * Every archive a plan unpacks was downloaded by an earlier step of that plan, from a
   * release URL of the format the saved name announces.
   */
  predicate ExpandsDownloaded(p: seq<Step>) {
    forall i :: 0 <= i < |p| && p[i].Expand? ==>
      exists j :: 0 <= j < i && p[j].Download? && p[j].file == p[i].archive && SameFormat(p[j].url, p[j].file)
  }

  /**
   * A release URL and the name its download is saved under denote the same archive format:
   * both zip, or a gzipped tarball (published as .tar.gz or .tgz) saved as .tar.gz.
   */
  predicate SameFormat(url: string, file: string) {
    || (Strings.HasSuffix(url, ".zip") && Strings.HasSuffix(file, ".zip"))
    || ((Strings.HasSuffix(url, ".tar.gz") || Strings.HasSuffix(url, ".tgz")) && Strings.HasSuffix(file, ".tar.gz"))
  }

  /** A name utils.Expand knows how to unpack. */
  predicate KnownArchive(name: string) {
    Strings.HasSuffix(name, ".zip") || Strings.HasSuffix(name, ".tar.gz")
  }

  /** Every archive a plan unpacks has a name utils.Expand knows. */
  predicate ExpandsKnownFormat(p: seq<Step>) {
    forall i :: 0 <= i < |p| && p[i].Expand? ==> KnownArchive(p[i].archive)
  }

  predicate UnpacksDownloads(p: seq<Step>) {
    ExpandsDownloaded(p) && ExpandsKnownFormat(p)
  }

  /** A plan that downloads first and unpacks that download once, and only once, unpacks only downloads. */
  lemma UnpacksSingleExpand(p: seq<Step>, k: nat)
    requires 0 < k < |p| && p[0].Download? && p[k].Expand? && p[0].file == p[k].archive
    requires SameFormat(p[0].url, p[0].file)
    requires forall i :: 0 <= i < |p| && i != k ==> !p[i].Expand?
    ensures UnpacksDownloads(p)
  {
    forall i | 0 <= i < |p| && p[i].Expand?
      ensures exists j :: 0 <= j < i && p[j].Download? && p[j].file == p[i].archive && SameFormat(p[j].url, p[j].file)
    {
      assert i == k && p[0].file == p[i].archive;
    }
  }

  /** Steps that unpack nothing keep a plan's archives downloaded and known. */
  lemma UnpacksThenNoExpand(p: seq<Step>, rest: seq<Step>)
    requires UnpacksDownloads(p)
    requires forall i :: 0 <= i < |rest| ==> !rest[i].Expand?
    ensures UnpacksDownloads(p + rest)
  {
    var r := p + rest;
    forall i | 0 <= i < |r| && r[i].Expand?
      ensures exists j :: 0 <= j < i && r[j].Download? && r[j].file == r[i].archive && SameFormat(r[j].url, r[j].file)
      ensures KnownArchive(r[i].archive)
    {
      assert i < |p| && r[i] == p[i];
      var j :| 0 <= j < i && p[j].Download? && p[j].file == p[i].archive && SameFormat(p[j].url, p[j].file);
      assert r[j] == p[j];
    }
  }

  /** A file name, without directory, that utils.Expand knows how to unpack. */
  predicate KnownArchiveName(file: string) {
    SimpleName(file) && KnownArchive(file)
  }

  /** The name of the download for the tool `stem`, with extension `ext`. */
  function ArchiveName(stem: string, ext: string): (f: string)
    requires stem != "" && '/' !in stem && (ext == ".zip" || ext == ".tar.gz")
    ensures KnownArchiveName(f) && Strings.HasSuffix(f, ext)
  {
    var f := stem + ext;
    assert f[|stem|..] == ext;
    f
  }

  /** A download saved under a simple name keeps that name's format once joined to a directory. */
  lemma FormatJoined(url: string, tmp: string, file: string)
    requires SimpleName(file) && SameFormat(url, file)
    ensures SameFormat(url, Join([tmp, file]))
  {
    JoinName(tmp, file);
    if Strings.HasSuffix(file, ".zip") {
      Strings.SuffixTransitive(Join([tmp, file]), file, ".zip");
    }
    if Strings.HasSuffix(file, ".tar.gz") {
      Strings.SuffixTransitive(Join([tmp, file]), file, ".tar.gz");
    }
  }

  /** The archive is downloaded first, unpacked third, and removed with its directory at the end. */
  lemma ViaTempDirShape(url: string, tmp: string, file: string, dirName: string, binary: seq<string>,
                        target: string, chmod: bool)
    ensures var p, archive, dest := ViaTempDir(url, tmp, file, dirName, binary, target, chmod),
                                    Join([tmp, file]), Join([tmp, dirName]);
            && |p| >= 6
            && p[0] == Download(url, archive) && p[1] == Mkdir(dest, Mode0755) && p[2] == Expand(archive, dest)
            && p[3] == Rename(Join([dest] + binary), target)
            && p[|p| - 2] == Remove(archive) && p[|p| - 1] == RemoveAll(dest)
            && forall i :: 0 <= i < |p| && p[i].Expand? ==> i == 2
  {
    var archive, dest := Join([tmp, file]), Join([tmp, dirName]);
    assert ViaTempDir(url, tmp, file, dirName, binary, target, chmod)
        == TempDirSteps(url, archive, dest, Join([dest] + binary), target, chmod);
  }

  /** So utils.Expand never answers "Unknown archive format" while a tool is installed. */
  lemma InstallNeverMeetsUnknownFormat(t: Tool, v: string, goos: string, tmp: string, i: nat,
                                       dest: string, c: Archive.Container, fs: FileSystem.FS)
    requires i < |InstallPlan(t, v, goos, tmp)| && InstallPlan(t, v, goos, tmp)[i].Expand?
    ensures Archive.Expand(InstallPlan(t, v, goos, tmp)[i].archive, dest, c, fs).err != Some(Archive.UnknownFormat)
  {
  }

  // ---------------------------------------------------------------------------------------
  // Where the binary ends up

  /** Some step of `p` puts a file at `target`: downloads it, moves it, links it or chmods it. */
  predicate Installs(p: seq<Step>, target: string) {
    exists i :: 0 <= i < |p| &&
      ((p[i].Download? && p[i].file == target) || (p[i].Rename? && p[i].to == target) ||
       (p[i].Symlink? && p[i].link == target) || (p[i].Chmod? && p[i].path == target))
  }

  lemma InstallsAt(p: seq<Step>, i: nat, target: string)
    requires i < |p|
    requires (p[i].Download? && p[i].file == target) || (p[i].Rename? && p[i].to == target) ||
             (p[i].Symlink? && p[i].link == target) || (p[i].Chmod? && p[i].path == target)
    ensures Installs(p, target)
  {
  }

  /** On linux a tool's install procedure puts its binary at /usr/local/bin/<TargetName>. */
  lemma InstallsTargetName(t: Tool, v: string, tmp: string)
    ensures Installs(InstallPlan(t, v, "linux", tmp), Bin(TargetName(t)))
  {
    match t.installer {
      case BatInstaller =>
      case DiveInstaller =>
      case GeckodriverInstaller =>
      case GhInstaller =>
      case HelmInstaller =>
      case JqInstaller =>
      case KindInstaller =>
      case KubectlInstaller =>
      case KustomizeInstaller =>
      case MavenInstaller =>
      case MinishiftInstaller =>
      case OpenshiftClientInstaller =>
      case OpenshiftInstallInstaller =>
      case OperatorSdkInstaller =>
      case TerraformInstaller =>
      case YqInstaller =>
    }
  }

  /** The registry tools name their literal install targets after their CommandLineName. */
  lemma TargetIsCommandLineName(k: Installer)
    ensures TargetName(Registered(k)) == Registered(k).commandLineName
  {
  }

  /**
   * On linux every registry tool's install leaves its binary at /usr/local/bin/<CommandLineName>
   * (maven through a symbolic link to the unpacked mvn).
   */
  lemma LinuxInstallsCommandLineName(t: Tool, v: string, tmp: string)
    requires t in Registry()
    ensures Installs(InstallPlan(t, v, "linux", tmp), Bin(t.commandLineName))
  {
    RegistryIsRegistered(t);
    TargetIsCommandLineName(t.installer);
    InstallsTargetName(t, v, tmp);
  }

  lemma RegistryIsRegistered(t: Tool)
    requires t in Registry()
    ensures t == Registered(t.installer)
  {
    match t.installer
    case BatInstaller =>
    case DiveInstaller =>
    case GeckodriverInstaller =>
    case GhInstaller =>
    case HelmInstaller =>
    case JqInstaller =>
    case KindInstaller =>
    case KubectlInstaller =>
    case KustomizeInstaller =>
    case MavenInstaller =>
    case MinishiftInstaller =>
    case OpenshiftClientInstaller =>
    case OpenshiftInstallInstaller =>
    case OperatorSdkInstaller =>
    case TerraformInstaller =>
    case YqInstaller =>
  }
}
