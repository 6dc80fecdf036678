/**
 * cmd/config.go, `devcore config restore-default-tools-versions`: every registry tool's
 * default version is written into DefaultToolsVersion, replacing what the user stored, and the
 * configuration is saved (saving is not modelled). Unlike fillDefaultToolsVersion, which only
 * adds missing keys, this overwrites.
 */
module CmdConfig {
  import opened Wrappers
  import Tools
  import Config

  /** Assigns each tool's default version under its name, in order. */
  function Overwrite(m: map<string, string>, ts: seq<Tools.Tool>): (r: map<string, string>)
    ensures forall i :: 0 <= i < |ts| ==> ts[i].name in r
    ensures forall k :: k in m ==> k in r
    decreases |ts|
  {
    if ts == [] then m
    else
      var r := Overwrite(m[ts[0].name := ts[0].defaultVersion], ts[1..]);
      assert forall i :: 1 <= i < |ts| ==> ts[i] == ts[1..][i - 1];
      r
  }

  /** The table the registry writes: each name with the version of the last tool so named. */
  function Table(ts: seq<Tools.Tool>): map<string, string> {
    Overwrite(map[], ts)
  }

  /** Overwriting is a map union in which the table wins. */
  lemma {:induction false} OverwriteIsUnion(m: map<string, string>, ts: seq<Tools.Tool>)
    ensures Overwrite(m, ts) == m + Table(ts)
    decreases |ts|
  {
    if ts != [] {
      var n, v := ts[0].name, ts[0].defaultVersion;
      OverwriteIsUnion(m[n := v], ts[1..]);
      OverwriteIsUnion(map[n := v], ts[1..]);
      assert m[n := v] + Table(ts[1..]) == m + (map[n := v] + Table(ts[1..]));
    }
  }

  /** The table's keys are exactly the tool names. */
  lemma {:induction false} TableKeys(ts: seq<Tools.Tool>, k: string)
    ensures k in Table(ts) <==> exists i :: 0 <= i < |ts| && ts[i].name == k
    decreases |ts|
  {
    if ts != [] {
      var n, v := ts[0].name, ts[0].defaultVersion;
      OverwriteIsUnion(map[n := v], ts[1..]);
      TableKeys(ts[1..], k);
      assert forall i :: 1 <= i < |ts| ==> ts[i] == ts[1..][i - 1];
      if k in Table(ts[1..]) {
        var i :| 0 <= i < |ts| - 1 && ts[1..][i].name == k;
        assert ts[i + 1].name == k;
      }
    }
  }

  /** The table maps a name to the version of the last tool so named. */
  lemma {:induction false} TableValue(ts: seq<Tools.Tool>, i: nat)
    requires i < |ts|
    requires forall j :: i < j < |ts| ==> ts[j].name != ts[i].name
    ensures ts[i].name in Table(ts) && Table(ts)[ts[i].name] == ts[i].defaultVersion
    decreases |ts|
  {
    var n, v := ts[0].name, ts[0].defaultVersion;
    OverwriteIsUnion(map[n := v], ts[1..]);
    if i == 0 {
      TableKeys(ts[1..], n);
    } else {
      assert ts[1..][i - 1] == ts[i];
      TableValue(ts[1..], i - 1);
    }
  }

  /**
   * restore-default-tools-versions over the registry `tools` (Tools.Registry()): a nil map is
   * allocated, then every tool name maps to its default version, overwriting user values.
   */
  function RestoreDefaultToolsVersions(c: Config.DevCoreConfig, tools: seq<Tools.Tool>): (r: Config.DevCoreConfig)
    ensures r.defaultToolsVersion.Some?
    ensures r == c.(defaultToolsVersion := r.defaultToolsVersion)
    ensures forall i :: 0 <= i < |tools| ==> tools[i].name in r.defaultToolsVersion.value
  {
    c.(defaultToolsVersion := Some(Overwrite(c.defaultToolsVersion.GetOr(map[]), tools)))
  }

  /**
   * After a restore, with distinct tool names, each tool name maps to that tool's default
   * version, and every other key keeps the value it had.
   */
  lemma RestoreSetsDefaults(c: Config.DevCoreConfig, tools: seq<Tools.Tool>)
    requires Config.DistinctNames(tools)
    ensures var m, r := c.defaultToolsVersion.GetOr(map[]), RestoreDefaultToolsVersions(c, tools).defaultToolsVersion.value;
            && (forall i :: 0 <= i < |tools| ==> r[tools[i].name] == tools[i].defaultVersion)
            && (forall k :: k in m && (forall i :: 0 <= i < |tools| ==> tools[i].name != k) ==> k in r && r[k] == m[k])
            && (forall k :: k in r ==> k in m || exists i :: 0 <= i < |tools| && tools[i].name == k)
  {
    var m := c.defaultToolsVersion.GetOr(map[]);
    OverwriteIsUnion(m, tools);
    forall i | 0 <= i < |tools| ensures Table(tools)[tools[i].name] == tools[i].defaultVersion {
      TableValue(tools, i);
    }
    forall k | k !in m && k in m + Table(tools) ensures exists i :: 0 <= i < |tools| && tools[i].name == k {
      TableKeys(tools, k);
    }
    forall k | k in m && (forall i :: 0 <= i < |tools| ==> tools[i].name != k) ensures k !in Table(tools) {
      TableKeys(tools, k);
    }
  }

  /** Restoring twice restores once. */
  lemma RestoreIdempotent(c: Config.DevCoreConfig, tools: seq<Tools.Tool>)
    ensures RestoreDefaultToolsVersions(RestoreDefaultToolsVersions(c, tools), tools)
            == RestoreDefaultToolsVersions(c, tools)
  {
    var m := c.defaultToolsVersion.GetOr(map[]);
    OverwriteIsUnion(m, tools);
    OverwriteIsUnion(m + Table(tools), tools);
    assert (m + Table(tools)) + Table(tools) == m + Table(tools);
  }

  /** A restored map has nothing left for fillDefaultToolsVersion to add. */
  lemma FillAfterRestore(c: Config.DevCoreConfig, tools: seq<Tools.Tool>)
    ensures var r := RestoreDefaultToolsVersions(c, tools).defaultToolsVersion;
            Config.FillDefaultToolsVersion(r, tools) == r.value
  {
    Config.AddMissingNoop(RestoreDefaultToolsVersions(c, tools).defaultToolsVersion.value, tools);
  }
}
