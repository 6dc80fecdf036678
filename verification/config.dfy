/**
 * The configuration of pkg/config/config.go: the Docker Compose and Jenkins context stores,
 * their find-first, append, delete-first and update operations, the directory of a compose
 * file, and the defaults filled in after the configuration is decoded. The user's home
 * directory is a parameter; decoding and saving the JSON file are not modelled.
 */
module Config {
  import opened Wrappers
  import opened Errors
  import Paths
  import Lists
  import Tools

  datatype ComposeContext = ComposeContext(name: string, description: string, file: string)

  datatype DockerCompose = DockerCompose(currentContext: string, contexts: seq<ComposeContext>)

  datatype JenkinsContext = JenkinsContext(name: string, description: string, war: string, jenkinsHome: string,
                                           javaHome: string, options: seq<string>, jvmOptions: seq<string>,
                                           pid: int)

  datatype Jenkins = Jenkins(cli: string, currentContext: string, contexts: seq<JenkinsContext>)

  /** DevCoreConfig; a nil DefaultToolsVersion map is None. */
  datatype DevCoreConfig = DevCoreConfig(dockerCompose: DockerCompose,
                                         defaultToolsVersion: Option<map<string, string>>,
                                         projectsDir: string, serversDir: string, jenkins: Jenkins)

  function ComposeName(c: ComposeContext): string {
    c.name
  }

  function JenkinsName(c: JenkinsContext): string {
    c.name
  }

  // ---------------------------------------------------------------------------------------
  // Docker Compose contexts

  /** DockerCompose.FindContextByName. */
  function FindComposeContext(d: DockerCompose, name: string): (r: Result<ComposeContext>)
    ensures r.Ok? <==> exists i :: 0 <= i < |d.contexts| && d.contexts[i].name == name
    ensures r.Ok? ==> exists i :: 0 <= i < |d.contexts| && d.contexts[i] == r.value && r.value.name == name
                        && forall j :: 0 <= j < i ==> d.contexts[j].name != name
    ensures r.Err? ==> r.error == DockerComposeContextNotFound(name)
  {
    var k := Lists.First(d.contexts, ComposeName, name);
    if k == -1 then Err(DockerComposeContextNotFound(name)) else Ok(d.contexts[k])
  }

  /** DockerCompose.AddContext: appended at the end, with no check for a duplicate name. */
  function AddComposeContext(d: DockerCompose, c: ComposeContext): (r: DockerCompose)
    ensures r.currentContext == d.currentContext
    ensures |r.contexts| == |d.contexts| + 1 && r.contexts[|d.contexts|] == c
    ensures forall i :: 0 <= i < |d.contexts| ==> r.contexts[i] == d.contexts[i]
  {
    d.(contexts := d.contexts + [c])
  }

  /**
   * DockerCompose.DeleteContext: removes the first context named like `toDelete` and keeps the
   * others in order; with none it reports DockerComposeContextNotFound.
   */
  function DeleteComposeContext(d: DockerCompose, toDelete: ComposeContext): (r: Result<DockerCompose>)
    ensures r.Err? <==> forall i :: 0 <= i < |d.contexts| ==> d.contexts[i].name != toDelete.name
    ensures r.Err? ==> r.error == DockerComposeContextNotFound(toDelete.name)
    ensures r.Ok? ==> r.value.currentContext == d.currentContext && |r.value.contexts| == |d.contexts| - 1
    ensures r.Ok? ==> exists k :: 0 <= k < |d.contexts| && d.contexts[k].name == toDelete.name
                        && (forall j :: 0 <= j < k ==> d.contexts[j].name != toDelete.name)
                        && (forall j :: 0 <= j < k ==> r.value.contexts[j] == d.contexts[j])
                        && (forall j :: k <= j < |r.value.contexts| ==> r.value.contexts[j] == d.contexts[j + 1])
  {
    var k := Lists.First(d.contexts, ComposeName, toDelete.name);
    if k == -1 then Err(DockerComposeContextNotFound(toDelete.name))
    else Ok(d.(contexts := Lists.RemoveAt(d.contexts, k)))
  }

  /** DockerComposeContext.Dir: the directory holding the compose file. */
  function ComposeDir(c: ComposeContext): (r: string)
    ensures r != ""
  {
    Paths.Dir(c.file)
  }

  /** For a file written as a clean path, the directory is that path's parent. */
  lemma ComposeDirIsParent(c: ComposeContext, q: Paths.Path)
    requires Paths.IsClean(q) && |q.elems| > 0 && c.file == Paths.Render(q)
    ensures ComposeDir(c) == Paths.Render(Paths.Parent(q))
  {
    Paths.DirOfRender(q);
  }

  /** A bare file name lies in the working directory ".". */
  lemma ComposeDirOfBareName(c: ComposeContext)
    requires c.file != "" && '/' !in c.file
    ensures ComposeDir(c) == "."
  {
    Paths.SplitNoSlashIsSingleton(c.file);
  }

  // ---------------------------------------------------------------------------------------
  // Jenkins contexts

  /** Jenkins.FindContextByName. */
  function FindJenkinsContext(j: Jenkins, name: string): (r: Result<JenkinsContext>)
    ensures r.Ok? <==> exists i :: 0 <= i < |j.contexts| && j.contexts[i].name == name
    ensures r.Ok? ==> exists i :: 0 <= i < |j.contexts| && j.contexts[i] == r.value && r.value.name == name
                        && forall k :: 0 <= k < i ==> j.contexts[k].name != name
    ensures r.Err? ==> r.error == JenkinsContextNotFound(name)
  {
    var k := Lists.First(j.contexts, JenkinsName, name);
    if k == -1 then Err(JenkinsContextNotFound(name)) else Ok(j.contexts[k])
  }

  /** Jenkins.AddContext. */
  function AddJenkinsContext(j: Jenkins, c: JenkinsContext): (r: Jenkins)
    ensures r.cli == j.cli && r.currentContext == j.currentContext
    ensures |r.contexts| == |j.contexts| + 1 && r.contexts[|j.contexts|] == c
    ensures forall i :: 0 <= i < |j.contexts| ==> r.contexts[i] == j.contexts[i]
  {
    j.(contexts := j.contexts + [c])
  }

  /** Jenkins.DeleteContext. */
  function DeleteJenkinsContext(j: Jenkins, toDelete: JenkinsContext): (r: Result<Jenkins>)
    ensures r.Err? <==> forall i :: 0 <= i < |j.contexts| ==> j.contexts[i].name != toDelete.name
    ensures r.Err? ==> r.error == JenkinsContextNotFound(toDelete.name)
    ensures r.Ok? ==> r.value.cli == j.cli && r.value.currentContext == j.currentContext
                      && |r.value.contexts| == |j.contexts| - 1
    ensures r.Ok? ==> exists k :: 0 <= k < |j.contexts| && j.contexts[k].name == toDelete.name
                        && (forall i :: 0 <= i < k ==> j.contexts[i].name != toDelete.name)
                        && (forall i :: 0 <= i < k ==> r.value.contexts[i] == j.contexts[i])
                        && (forall i :: k <= i < |r.value.contexts| ==> r.value.contexts[i] == j.contexts[i + 1])
  {
    var k := Lists.First(j.contexts, JenkinsName, toDelete.name);
    if k == -1 then Err(JenkinsContextNotFound(toDelete.name))
    else Ok(j.(contexts := Lists.RemoveAt(j.contexts, k)))
  }

  /** The fields UpdateContext copies: everything but the name and the two option lists. */
  function Updated(prev: JenkinsContext, c: JenkinsContext): (r: JenkinsContext)
    ensures r.name == prev.name && r.options == prev.options && r.jvmOptions == prev.jvmOptions
    ensures r.description == c.description && r.javaHome == c.javaHome && r.jenkinsHome == c.jenkinsHome
    ensures r.war == c.war && r.pid == c.pid
    ensures c.name == prev.name && c.options == prev.options && c.jvmOptions == prev.jvmOptions ==> r == c
  {
    prev.(description := c.description, javaHome := c.javaHome, jenkinsHome := c.jenkinsHome, war := c.war,
         pid := c.pid)
  }

  /**
   * Jenkins.UpdateContext: the first context named like `c` takes c's description, Java home,
   * Jenkins home, war and pid, and keeps its name and options; every other context is kept.
   */
  function UpdateJenkinsContext(j: Jenkins, c: JenkinsContext): (r: Result<Jenkins>)
    ensures r.Err? <==> forall i :: 0 <= i < |j.contexts| ==> j.contexts[i].name != c.name
    ensures r.Err? ==> r.error == JenkinsContextNotFound(c.name)
    ensures r.Ok? ==> r.value.cli == j.cli && r.value.currentContext == j.currentContext
                      && |r.value.contexts| == |j.contexts|
    ensures r.Ok? ==> exists k :: 0 <= k < |j.contexts| && j.contexts[k].name == c.name
                        && (forall i :: 0 <= i < k ==> j.contexts[i].name != c.name)
                        && (forall i :: 0 <= i < |j.contexts| && i != k ==> r.value.contexts[i] == j.contexts[i])
                        && var u := r.value.contexts[k];
                           u.name == j.contexts[k].name && u.options == j.contexts[k].options
                           && u.jvmOptions == j.contexts[k].jvmOptions
                           && u.description == c.description && u.javaHome == c.javaHome
                           && u.jenkinsHome == c.jenkinsHome && u.war == c.war && u.pid == c.pid
  {
    var k := Lists.First(j.contexts, JenkinsName, c.name);
    if k == -1 then Err(JenkinsContextNotFound(c.name))
    else Ok(j.(contexts := j.contexts[k := Updated(j.contexts[k], c)]))
  }

  // ---------------------------------------------------------------------------------------
  // Defaults filled in after loading

  /** Adds each tool's default version under its name, unless the name is already a key. */
  function AddMissing(m: map<string, string>, ts: seq<Tools.Tool>): (r: map<string, string>)
    ensures forall k :: k in m ==> k in r && r[k] == m[k]
    ensures forall i :: 0 <= i < |ts| ==> ts[i].name in r
    decreases |ts|
  {
    if ts == [] then m
    else
      var r := AddMissing(if ts[0].name in m then m else m[ts[0].name := ts[0].defaultVersion], ts[1..]);
      assert forall i :: 1 <= i < |ts| ==> ts[i] == ts[1..][i - 1];
      r
  }

  /** Every key AddMissing adds is the name of one of the tools. */
  lemma {:induction false} AddMissingAddsOnlyTools(m: map<string, string>, ts: seq<Tools.Tool>, k: string)
    requires k in AddMissing(m, ts) && k !in m
    ensures exists i :: 0 <= i < |ts| && ts[i].name == k
    decreases |ts|
  {
    if ts != [] {
      var m1 := if ts[0].name in m then m else m[ts[0].name := ts[0].defaultVersion];
      if k != ts[0].name {
        AddMissingAddsOnlyTools(m1, ts[1..], k);
        var i :| 0 <= i < |ts| - 1 && ts[1..][i].name == k;
        assert ts[i + 1].name == k;
      }
    }
  }

  /** A missing name gets the default version of the first tool so named. */
  lemma {:induction false} AddMissingFirstDefault(m: map<string, string>, ts: seq<Tools.Tool>, i: nat)
    requires i < |ts| && ts[i].name !in m
    requires forall j :: 0 <= j < i ==> ts[j].name != ts[i].name
    ensures AddMissing(m, ts)[ts[i].name] == ts[i].defaultVersion
    decreases |ts|
  {
    var m1 := if ts[0].name in m then m else m[ts[0].name := ts[0].defaultVersion];
    if i > 0 {
      assert ts[1..][i - 1] == ts[i];
      AddMissingFirstDefault(m1, ts[1..], i - 1);
    }
  }

  /**
   * fillDefaultToolsVersion over the registry `tools` (DefaultSupportedTools, which is
   * Tools.Registry()): a nil map becomes an empty one; then each tool whose name is not a key
   * yet gets its default version. Existing values, and keys that name no tool, are kept.
   */
  function FillDefaultToolsVersion(m: Option<map<string, string>>, tools: seq<Tools.Tool>): (r: map<string, string>)
    ensures forall k :: k in m.GetOr(map[]) ==> k in r && r[k] == m.GetOr(map[])[k]
    ensures forall i :: 0 <= i < |tools| ==> tools[i].name in r
  {
    AddMissing(m.GetOr(map[]), tools)
  }

  /**
   * The values fillDefaultToolsVersion adds, for a registry whose names are distinct: each
   * missing tool name maps to that tool's default version, and no other key appears.
   */
  lemma FillDefaultToolsVersionAdds(m: Option<map<string, string>>, tools: seq<Tools.Tool>)
    requires DistinctNames(tools)
    ensures var r := FillDefaultToolsVersion(m, tools);
            && (forall i :: 0 <= i < |tools| && tools[i].name !in m.GetOr(map[]) ==>
                  r[tools[i].name] == tools[i].defaultVersion)
            && (forall k :: k in r ==>
                  (k in m.GetOr(map[]) || exists i :: 0 <= i < |tools| && tools[i].name == k))
  {
    AddMissingDefaults(m.GetOr(map[]), tools);
  }

  /** The tools registry is such a registry. */
  lemma RegistryHasDistinctNames()
    ensures DistinctNames(Tools.Registry())
  {
    Tools.RegistryNamesDistinct();
  }

  /** No two tools share a name. */
  predicate DistinctNames(ts: seq<Tools.Tool>) {
    forall i, j :: 0 <= i < j < |ts| ==> ts[i].name != ts[j].name
  }

  /** With distinct names, AddMissing gives each missing name its tool's default, and adds nothing else. */
  lemma AddMissingDefaults(m: map<string, string>, ts: seq<Tools.Tool>)
    requires DistinctNames(ts)
    ensures var r := AddMissing(m, ts);
            && (forall i :: 0 <= i < |ts| && ts[i].name !in m ==> r[ts[i].name] == ts[i].defaultVersion)
            && (forall k :: k in r ==> k in m || exists i :: 0 <= i < |ts| && ts[i].name == k)
  {
    var r := AddMissing(m, ts);
    forall i | 0 <= i < |ts| && ts[i].name !in m ensures r[ts[i].name] == ts[i].defaultVersion {
      AddMissingFirstDefault(m, ts, i);
    }
    forall k | k in r && k !in m ensures exists i :: 0 <= i < |ts| && ts[i].name == k {
      AddMissingAddsOnlyTools(m, ts, k);
    }
  }

  function ProjectsDirUnder(home: string): string {
    Paths.Join([home, "Projects"])
  }

  function ServersDirUnder(home: string): string {
    Paths.Join([home, "Servers"])
  }

  /** fillDefaultProjectsDir: an empty ProjectsDir becomes <home>/Projects. */
  function FillDefaultProjectsDir(c: DevCoreConfig, home: string): (r: DevCoreConfig)
    ensures r.projectsDir != ""
    ensures c.projectsDir != "" ==> r == c
    ensures c.projectsDir == "" ==> r == c.(projectsDir := ProjectsDirUnder(home))
  {
    NamedNotEmpty(home, "Projects");
    if c.projectsDir == "" then c.(projectsDir := ProjectsDirUnder(home)) else c
  }

  /** fillDefaultServersDir: an empty ServersDir becomes <home>/Servers. */
  function FillDefaultServersDir(c: DevCoreConfig, home: string): (r: DevCoreConfig)
    ensures r.serversDir != ""
    ensures c.serversDir != "" ==> r == c
    ensures c.serversDir == "" ==> r == c.(serversDir := ServersDirUnder(home))
  {
    NamedNotEmpty(home, "Servers");
    if c.serversDir == "" then c.(serversDir := ServersDirUnder(home)) else c
  }

  /** Joining a simple name to a directory never yields the empty string. */
  lemma NamedNotEmpty(dir: string, name: string)
    requires Paths.SimpleName(name)
    ensures Paths.Join([dir, name]) != ""
  {
    Paths.JoinName(dir, name);
  }

  /** What Load does once the file is decoded: the three fills, in order. */
  function FillDefaults(c: DevCoreConfig, home: string, tools: seq<Tools.Tool>): (r: DevCoreConfig)
    ensures r.defaultToolsVersion.Some? && r.projectsDir != "" && r.serversDir != ""
    ensures r.dockerCompose == c.dockerCompose && r.jenkins == c.jenkins
  {
    var c1 := c.(defaultToolsVersion := Some(FillDefaultToolsVersion(c.defaultToolsVersion, tools)));
    FillDefaultServersDir(FillDefaultProjectsDir(c1, home), home)
  }

  // ---------------------------------------------------------------------------------------
  // Properties

  /** Once every tool name is a key, adding the missing ones changes nothing. */
  lemma {:induction false} AddMissingNoop(m: map<string, string>, ts: seq<Tools.Tool>)
    requires forall i :: 0 <= i < |ts| ==> ts[i].name in m
    ensures AddMissing(m, ts) == m
    decreases |ts|
  {
    if ts != [] {
      assert forall i :: 1 <= i < |ts| ==> ts[i] == ts[1..][i - 1];
      AddMissingNoop(m, ts[1..]);
    }
  }

  /** Filling the tools versions twice fills them once. */
  lemma FillDefaultToolsVersionIdempotent(m: Option<map<string, string>>, tools: seq<Tools.Tool>)
    ensures FillDefaultToolsVersion(Some(FillDefaultToolsVersion(m, tools)), tools) == FillDefaultToolsVersion(m, tools)
  {
    AddMissingIdempotent(m.GetOr(map[]), tools);
  }

  lemma AddMissingIdempotent(m: map<string, string>, ts: seq<Tools.Tool>)
    ensures AddMissing(AddMissing(m, ts), ts) == AddMissing(m, ts)
  {
    AddMissingNoop(AddMissing(m, ts), ts);
  }

  /** Load's defaults are idempotent: filling a filled configuration changes nothing. */
  lemma FillDefaultsIdempotent(c: DevCoreConfig, home: string, tools: seq<Tools.Tool>)
    ensures FillDefaults(FillDefaults(c, home, tools), home, tools) == FillDefaults(c, home, tools)
  {
    FillDefaultToolsVersionIdempotent(c.defaultToolsVersion, tools);
  }

  /** A context added under a fresh name is found, and deleting it restores the store. */
  lemma AddThenDeleteCompose(d: DockerCompose, c: ComposeContext)
    requires FindComposeContext(d, c.name).Err?
    ensures FindComposeContext(AddComposeContext(d, c), c.name) == Ok(c)
    ensures DeleteComposeContext(AddComposeContext(d, c), c) == Ok(d)
  {
    Lists.AppendFresh(d.contexts, c, ComposeName);
  }

  /** Adding never hides a context already found under that name. */
  lemma AddKeepsFoundCompose(d: DockerCompose, c: ComposeContext, name: string)
    requires FindComposeContext(d, name).Ok?
    ensures FindComposeContext(AddComposeContext(d, c), name) == FindComposeContext(d, name)
  {
    Lists.AppendKeepsFirst(d.contexts, c, ComposeName, name);
  }

  /**
   * Deleting removes exactly one context named like `toDelete` (a duplicate of it stays) and
   * no context of any other name.
   */
  lemma DeleteComposeRemovesOne(d: DockerCompose, toDelete: ComposeContext, other: string)
    requires DeleteComposeContext(d, toDelete).Ok?
    ensures var r := DeleteComposeContext(d, toDelete).value.contexts;
            Lists.Count(r, ComposeName, toDelete.name) == Lists.Count(d.contexts, ComposeName, toDelete.name) - 1
            && (other != toDelete.name ==>
                  Lists.Count(r, ComposeName, other) == Lists.Count(d.contexts, ComposeName, other))
  {
    Lists.RemoveFirstCount(d.contexts, ComposeName, toDelete.name, other);
  }

  lemma AddThenDeleteJenkins(j: Jenkins, c: JenkinsContext)
    requires FindJenkinsContext(j, c.name).Err?
    ensures FindJenkinsContext(AddJenkinsContext(j, c), c.name) == Ok(c)
    ensures DeleteJenkinsContext(AddJenkinsContext(j, c), c) == Ok(j)
  {
    Lists.AppendFresh(j.contexts, c, JenkinsName);
  }

  lemma DeleteJenkinsRemovesOne(j: Jenkins, toDelete: JenkinsContext, other: string)
    requires DeleteJenkinsContext(j, toDelete).Ok?
    ensures var r := DeleteJenkinsContext(j, toDelete).value.contexts;
            Lists.Count(r, JenkinsName, toDelete.name) == Lists.Count(j.contexts, JenkinsName, toDelete.name) - 1
            && (other != toDelete.name ==>
                  Lists.Count(r, JenkinsName, other) == Lists.Count(j.contexts, JenkinsName, other))
  {
    Lists.RemoveFirstCount(j.contexts, JenkinsName, toDelete.name, other);
  }

  /**
   * After an update, finding the context by name gives the updated record, and updating again
   * with the same values changes nothing.
   */
  lemma UpdateThenFind(j: Jenkins, c: JenkinsContext)
    requires UpdateJenkinsContext(j, c).Ok?
    ensures var j' := UpdateJenkinsContext(j, c).value;
            && FindJenkinsContext(j', c.name) == Ok(Updated(FindJenkinsContext(j, c.name).value, c))
            && UpdateJenkinsContext(j', c) == Ok(j')
  {
    var k := Lists.First(j.contexts, JenkinsName, c.name);
    var u := Updated(j.contexts[k], c);
    var cs := j.contexts[k := u];
    assert JenkinsName(cs[k]) == c.name;
    assert forall i :: 0 <= i < k ==> cs[i] == j.contexts[i];
    Lists.FirstAt(cs, JenkinsName, c.name, k);
    assert Updated(u, c) == u;
    assert cs[k := u] == cs;
  }
}
