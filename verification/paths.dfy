/**
 * A lexical model of Go's path/filepath on a Unix host (separator '/', no volume names).
 * A path string is parsed into whether it is rooted and its '/'-separated elements;
 * Clean, Join and Dir follow the Go library's purely textual rules. Nothing here looks at
 * a file system.
 */
module Paths {
  import opened Wrappers
  import Strings

  /** A path split at '/': whether it starts at the root, and its elements in order. */
  datatype Path = Path(rooted: bool, elems: seq<string>)

  /** strings.Split(s, "/"): always at least one element, and no element holds '/'. */
  function Split(s: string): (r: seq<string>)
    ensures |r| > 0
    ensures NoSlash(r)
  {
    if s == [] then [""]
    else
      var rest := Split(s[1..]);
      if s[0] == '/' then [""] + rest
      else [[s[0]] + rest[0]] + rest[1..]
  }

  predicate NoSlash(es: seq<string>) {
    forall i :: 0 <= i < |es| ==> '/' !in es[i]
  }

  /** Elements that are non-empty and free of '/'. */
  predicate Plain(es: seq<string>) {
    forall i :: 0 <= i < |es| ==> es[i] != "" && '/' !in es[i]
  }

  function Parse(s: string): Path {
    Path(|s| > 0 && s[0] == '/', Split(s))
  }

  /** Extends an already cleaned element list by one raw element, as filepath.Clean does. */
  function Push(rooted: bool, acc: seq<string>, x: string): seq<string> {
    if x == "" || x == "." then acc
    else if x == ".." then
      if |acc| > 0 && acc[|acc| - 1] != ".." then acc[..|acc| - 1]
      else if rooted then acc
      else acc + [".."]
    else acc + [x]
  }

  function CleanElems(rooted: bool, es: seq<string>): (r: seq<string>)
    ensures |r| <= |es|
    ensures forall x :: x in r ==> x in es
  {
    if es == [] then []
    else
      var init := es[..|es| - 1];
      assert es == init + [es[|es| - 1]];
      Push(rooted, CleanElems(rooted, init), es[|es| - 1])
  }

  /**
   * The elements filepath.Clean keeps: empty and "." elements dropped, each ".." cancelling
   * the element before it, ".." at the root dropped, leading ".." of a relative path kept.
   */
  function Clean(p: Path): (r: Path)
    ensures r.rooted == p.rooted
    ensures |r.elems| <= |p.elems|
    ensures forall x :: x in r.elems ==> x in p.elems
  {
    Path(p.rooted, CleanElems(p.rooted, p.elems))
  }

  /** What a cleaned path looks like. */
  predicate IsClean(p: Path) {
    forall i :: 0 <= i < |p.elems| ==> CleanAt(p, i)
  }

  predicate CleanAt(p: Path, i: nat)
    requires i < |p.elems|
  {
    && p.elems[i] != "" && p.elems[i] != "." && '/' !in p.elems[i]
    && (p.elems[i] == ".." ==> !p.rooted && forall j :: 0 <= j < i ==> p.elems[j] == "..")
  }

  /** strings.Join(cs, "/") */
  function JoinSep(cs: seq<string>): string {
    if cs == [] then "" else if |cs| == 1 then cs[0] else cs[0] + "/" + JoinSep(cs[1..])
  }

  /** The string filepath.Clean prints for a cleaned path ("." for the empty relative path). */
  function Render(p: Path): string {
    if p.rooted then "/" + JoinSep(p.elems)
    else if p.elems == [] then "."
    else JoinSep(p.elems)
  }

  /** filepath.Clean */
  function CleanString(s: string): (r: string)
    ensures r != ""
    ensures Resolve(r) == Some(Clean(Parse(s)))
  {
    CleanIsClean(Parse(s));
    RenderNotEmpty(Clean(Parse(s)));
    ParseRender(Clean(Parse(s)));
    Render(Clean(Parse(s)))
  }

  function NonEmpty(parts: seq<string>): (r: seq<string>)
    ensures forall i :: 0 <= i < |r| ==> r[i] != ""
    ensures r == [] <==> forall i :: 0 <= i < |parts| ==> parts[i] == ""
  {
    if parts == [] then []
    else if parts[0] == "" then NonEmpty(parts[1..])
    else [parts[0]] + NonEmpty(parts[1..])
  }

  /** filepath.Join: the non-empty parts joined by '/' and cleaned; "" when all are empty. */
  function Join(parts: seq<string>): (r: string)
    ensures r == "" <==> forall i :: 0 <= i < |parts| ==> parts[i] == ""
  {
    var ne := NonEmpty(parts);
    if ne == [] then "" else CleanString(JoinSep(ne))
  }

  /** filepath.Dir: everything up to the last '/', cleaned. */
  function Dir(s: string): (r: string)
    ensures r != ""
  {
    var es := Split(s);
    var p := Path(|s| > 0 && s[0] == '/', es[..|es| - 1]);
    CleanIsClean(p);
    RenderNotEmpty(Clean(p));
    Render(Clean(p))
  }

  /** The location the operating system resolves a path string to; "" names nothing. */
  function Resolve(s: string): Option<Path> {
    if s == "" then None else Some(Clean(Parse(s)))
  }

  /** The path with its last element dropped (the root and "." are their own parents). */
  function Parent(p: Path): Path {
    if p.elems == [] then p else Path(p.rooted, p.elems[..|p.elems| - 1])
  }

  /** `a` is `p` or one of its ancestors, element-wise. */
  predicate AncestorOrSelf(a: Path, p: Path) {
    a.rooted == p.rooted && a.elems <= p.elems
  }

  /** `t` lies strictly inside `base`, element-wise. */
  predicate Below(t: Path, base: Path) {
    t.rooted == base.rooted && base.elems < t.elems
  }

  // ---------------------------------------------------------------------------------------
  // Splitting

  lemma {:induction false} SplitNoSlashIsSingleton(s: string)
    requires '/' !in s
    ensures Split(s) == [s]
  {
    if s != [] {
      SplitNoSlashIsSingleton(s[1..]);
      assert [s[0]] + s[1..] == s;
    }
  }

  /** Splitting a+"/"+b splits a and b separately. */
  lemma {:induction false} SplitAppend(a: string, b: string)
    ensures Split(a + "/" + b) == Split(a) + Split(b)
  {
    if a == [] {
      assert a + "/" + b == "/" + b;
      assert ("/" + b)[1..] == b;
      assert Split("/" + b) == [""] + Split(b);
    } else {
      SplitAppend(a[1..], b);
      SplitAppendStep(a, b);
    }
  }

  /** The inductive step of SplitAppend: one more leading character. */
  lemma SplitAppendStep(a: string, b: string)
    requires a != []
    requires Split(a[1..] + "/" + b) == Split(a[1..]) + Split(b)
    ensures Split(a + "/" + b) == Split(a) + Split(b)
  {
    var s := a + "/" + b;
    assert s[0] == a[0] && s[1..] == a[1..] + "/" + b;
    if a[0] == '/' {
      SplitSlashStep(a, s, Split(a[1..]), Split(b));
    } else {
      SplitCharStep(a, s, Split(a[1..]), Split(b));
    }
  }

  lemma SplitSlashStep(a: string, s: string, ra: seq<string>, rb: seq<string>)
    requires a != [] && a[0] == '/' && s != [] && s[0] == '/'
    requires ra == Split(a[1..]) && Split(s[1..]) == ra + rb
    ensures Split(s) == Split(a) + rb
  {
    assert [""] + (ra + rb) == ([""] + ra) + rb;
  }

  lemma SplitCharStep(a: string, s: string, ra: seq<string>, rb: seq<string>)
    requires a != [] && a[0] != '/' && s != [] && s[0] == a[0]
    requires ra == Split(a[1..]) && Split(s[1..]) == ra + rb
    ensures Split(s) == Split(a) + rb
  {
    var h := [a[0]] + ra[0];
    assert (ra + rb)[0] == ra[0];
    assert (ra + rb)[1..] == ra[1..] + rb;
    assert Split(s) == [h] + (ra[1..] + rb);
    assert [h] + (ra[1..] + rb) == ([h] + ra[1..]) + rb;
  }

  /** Joining plain elements with '/' and splitting again gives them back. */
  lemma {:induction false} SplitJoinSep(cs: seq<string>)
    requires |cs| > 0 && NoSlash(cs)
    ensures Split(JoinSep(cs)) == cs
  {
    if |cs| == 1 {
      SplitNoSlashIsSingleton(cs[0]);
    } else {
      SplitAppend(cs[0], JoinSep(cs[1..]));
      SplitNoSlashIsSingleton(cs[0]);
      SplitJoinSep(cs[1..]);
      assert [cs[0]] + cs[1..] == cs;
    }
  }

  // ---------------------------------------------------------------------------------------
  // Cleaning

  lemma {:induction false} CleanElemsAppend(rooted: bool, es: seq<string>, x: string)
    ensures CleanElems(rooted, es + [x]) == Push(rooted, CleanElems(rooted, es), x)
  {
    assert (es + [x])[..|es + [x]| - 1] == es;
  }

  /** Clean always produces a cleaned path. */
  lemma {:induction false} CleanIsClean(p: Path)
    requires NoSlash(p.elems)
    ensures IsClean(Clean(p))
    decreases |p.elems|
  {
    var es := p.elems;
    if es != [] {
      var init := es[..|es| - 1];
      assert NoSlash(init) by {
        forall i | 0 <= i < |init| ensures '/' !in init[i] {
          assert init[i] == es[i];
        }
      }
      CleanIsClean(Path(p.rooted, init));
      PushKeepsClean(p.rooted, CleanElems(p.rooted, init), es[|es| - 1]);
    }
  }

  lemma PushKeepsClean(rooted: bool, acc: seq<string>, x: string)
    requires IsClean(Path(rooted, acc)) && '/' !in x
    ensures IsClean(Path(rooted, Push(rooted, acc, x)))
  {
    var r := Push(rooted, acc, x);
    var q := Path(rooted, r);
    if x == ".." && !(|acc| > 0 && acc[|acc| - 1] != "..") && !rooted {
      forall i | 0 <= i < |r| ensures CleanAt(q, i) {
        if i < |acc| {
          assert CleanAt(Path(rooted, acc), i);
        } else if |acc| > 0 {
          assert CleanAt(Path(rooted, acc), |acc| - 1);
        }
      }
    } else {
      forall i | 0 <= i < |r| ensures CleanAt(q, i) {
        if i < |acc| {
          assert CleanAt(Path(rooted, acc), i);
        }
      }
    }
  }

  /** Cleaning a cleaned path changes nothing: filepath.Clean is idempotent. */
  lemma {:induction false} CleanOfClean(p: Path)
    requires IsClean(p)
    ensures Clean(p) == p
    decreases |p.elems|
  {
    var es := p.elems;
    if es != [] {
      var init := es[..|es| - 1];
      var q := Path(p.rooted, init);
      assert IsClean(q) by {
        forall i | 0 <= i < |init| ensures CleanAt(q, i) {
          assert CleanAt(p, i);
        }
      }
      CleanOfClean(q);
      var x := es[|es| - 1];
      assert CleanAt(p, |es| - 1);
      if x == ".." && |init| > 0 {
        assert init[|init| - 1] == "..";
      }
      assert init + [x] == es;
    }
  }

  /** A leading empty element (the text before a leading '/') does not change the result. */
  lemma {:induction false} CleanDropsLeadingEmpty(rooted: bool, es: seq<string>)
    ensures CleanElems(rooted, [""] + es) == CleanElems(rooted, es)
  {
    if es != [] {
      var init := es[..|es| - 1];
      CleanDropsLeadingEmpty(rooted, init);
      assert ([""] + es)[..|[""] + es| - 1] == [""] + init;
    }
  }

  lemma CleanStringIdempotent(s: string)
    ensures CleanString(CleanString(s)) == CleanString(s)
  {
    var q := Clean(Parse(s));
    CleanIsClean(Parse(s));
    ParseRender(q);
  }

  // ---------------------------------------------------------------------------------------
  // Rendering

  lemma RenderNotEmpty(q: Path)
    requires IsClean(q)
    ensures Render(q) != ""
  {
    if !q.rooted && q.elems != [] {
      assert CleanAt(q, 0);
      if |q.elems| > 1 {
        assert JoinSep(q.elems)[0] == q.elems[0][0];
      }
    }
  }

  lemma JoinSepFirstChar(cs: seq<string>)
    requires |cs| > 0 && cs[0] != ""
    ensures |JoinSep(cs)| > 0 && JoinSep(cs)[0] == cs[0][0]
  {
  }

  /** Reading back a rendered clean path gives the same path. */
  lemma ParseRender(q: Path)
    requires IsClean(q)
    ensures Clean(Parse(Render(q))) == q
  {
    var es := q.elems;
    assert NoSlash(es) by {
      forall i | 0 <= i < |es| ensures '/' !in es[i] {
        assert CleanAt(q, i);
      }
    }
    if q.rooted {
      SplitAppend("", JoinSep(es));
      assert "" + "/" + JoinSep(es) == Render(q);
      if es == [] {
        assert Split(Render(q)) == ["", ""];
        assert CleanElems(true, ["", ""]) == [] by {
          assert ["", ""][..1] == [""];
          assert [""][..0] == [];
        }
      } else {
        SplitJoinSep(es);
        CleanDropsLeadingEmpty(true, es);
        CleanOfClean(q);
      }
    } else if es == [] {
      assert "."[1..] == "";
      assert Split("") == [""];
      assert ['.'] + "" == ".";
      assert Split(".") == ["."];
      assert CleanElems(false, ["."]) == Push(false, CleanElems(false, []), ".");
      assert ["."][..0] == [];
    } else {
      assert CleanAt(q, 0);
      JoinSepFirstChar(es);
      SplitJoinSep(es);
      CleanOfClean(q);
    }
  }

  /** The location of a rendered clean path is that path. */
  lemma ResolveRender(q: Path)
    requires IsClean(q)
    ensures Resolve(Render(q)) == Some(q)
  {
    RenderNotEmpty(q);
    ParseRender(q);
  }

  // ---------------------------------------------------------------------------------------
  // Joining

  /** The cleaned location of filepath.Join(a, b) for a non-empty `a`. */
  function Joined(a: string, b: string): Path {
    Clean(Path(|a| > 0 && a[0] == '/', Split(a) + Split(b)))
  }

  lemma NoSlashAppend(a: seq<string>, b: seq<string>)
    requires NoSlash(a) && NoSlash(b)
    ensures NoSlash(a + b)
  {
    forall i | 0 <= i < |a + b| ensures '/' !in (a + b)[i] {
      if i < |a| { assert (a + b)[i] == a[i]; } else { assert (a + b)[i] == b[i - |a|]; }
    }
  }

  /** filepath.Join(a, b) with a non-empty `a` renders `Joined(a, b)`, and names it. */
  lemma JoinTwo(a: string, b: string)
    requires a != ""
    ensures IsClean(Joined(a, b))
    ensures Join([a, b]) == Render(Joined(a, b))
    ensures Resolve(Join([a, b])) == Some(Joined(a, b))
  {
    var r := |a| > 0 && a[0] == '/';
    NoSlashAppend(Split(a), Split(b));
    CleanIsClean(Path(r, Split(a) + Split(b)));
    if b == "" {
      assert NonEmpty([a, b]) == [a] by {
        assert [a, b][1..] == [b];
        assert [b][1..] == [];
        assert NonEmpty([b]) == NonEmpty([]) == [];
      }
      CleanElemsAppend(r, Split(a), "");
    } else {
      assert NonEmpty([a, b]) == [a, b] by {
        assert [a, b][1..] == [b];
        assert [b][1..] == [];
        assert NonEmpty([b]) == [b] + NonEmpty([]) == [b];
      }
      assert JoinSep([a, b]) == a + "/" + b by {
        assert [a, b][1..] == [b];
      }
      SplitAppend(a, b);
    }
    ResolveRender(Joined(a, b));
  }

  /** A simple name: one element that Clean keeps as it is. */
  predicate SimpleName(n: string) {
    n != "" && n != "." && n != ".." && '/' !in n
  }

  /** filepath.Join(a, n) for a simple name `n` is the cleaned `a` with `n` appended. */
  lemma JoinName(a: string, n: string)
    requires SimpleName(n)
    ensures Resolve(Join([a, n])) == Some(Path(Clean(Parse(a)).rooted, Clean(Parse(a)).elems + [n]))
    ensures Strings.HasSuffix(Join([a, n]), n)
  {
    SplitNoSlashIsSingleton(n);
    var q := Path(Clean(Parse(a)).rooted, Clean(Parse(a)).elems + [n]);
    CleanIsClean(Parse(a));
    assert IsClean(q) by {
      forall i | 0 <= i < |q.elems| ensures CleanAt(q, i) {
        if i < |q.elems| - 1 {
          assert CleanAt(Clean(Parse(a)), i);
        }
      }
    }
    if a == "" {
      assert NonEmpty([a, n]) == [n] by {
        assert [a, n][1..] == [n];
        assert [n][1..] == [];
        assert NonEmpty([n]) == [n] + NonEmpty([]) == [n];
      }
      assert Parse(a) == Path(false, [""]);
      assert CleanElems(false, [""]) == [] by { assert [""][..0] == []; }
      assert Parse(n) == Path(false, [n]);
      assert CleanElems(false, [n]) == [n] by { assert [n][..0] == []; }
      assert Clean(Parse(n)) == q;
    } else {
      JoinTwo(a, n);
      CleanElemsAppend(Parse(a).rooted, Split(a), n);
      assert Joined(a, n) == q;
    }
    ResolveRender(q);
    assert Join([a, n]) == Render(q) by {
      if a == "" {
        assert Join([a, n]) == CleanString(n);
      }
    }
    RenderEndsWithLast(q);
  }

  /** filepath.Join(a, n1, n2) for simple names is the cleaned `a` with both names appended. */
  lemma JoinNames(a: string, n1: string, n2: string)
    requires SimpleName(n1) && SimpleName(n2)
    ensures Resolve(Join([a, n1, n2])) == Some(Path(Clean(Parse(a)).rooted, Clean(Parse(a)).elems + [n1, n2]))
  {
    SplitNoSlashIsSingleton(n1);
    SplitNoSlashIsSingleton(n2);
    SplitAppend(n1, n2);
    assert NonEmpty([n2]) == [n2] by { assert [n2][1..] == []; }
    assert NonEmpty([n1, n2]) == [n1, n2] by { assert [n1, n2][1..] == [n2]; }
    assert JoinSep([n1, n2]) == n1 + "/" + n2 by { assert [n1, n2][1..] == [n2]; }
    assert [a, n1, n2][1..] == [n1, n2];
    if a == "" {
      assert Parse(a) == Path(false, [""]);
      assert CleanElems(false, [""]) == [] by { assert [""][..0] == []; }
      CleanTwoNames(false, [], n1, n2);
    } else {
      SplitAppend(a, n1 + "/" + n2);
      CleanTwoNames(Parse(a).rooted, Split(a), n1, n2);
    }
  }

  /** Cleaning keeps two simple names appended to a list as they are. */
  lemma CleanTwoNames(rooted: bool, es: seq<string>, n1: string, n2: string)
    requires SimpleName(n1) && SimpleName(n2)
    ensures CleanElems(rooted, es + [n1, n2]) == CleanElems(rooted, es) + [n1, n2]
  {
    assert es + [n1, n2] == (es + [n1]) + [n2];
    CleanElemsAppend(rooted, es + [n1], n2);
    CleanElemsAppend(rooted, es, n1);
  }

  /** Joining one more element with '/' appends it. */
  lemma {:induction false} JoinSepSnoc(cs: seq<string>, x: string)
    requires |cs| > 0
    ensures JoinSep(cs + [x]) == JoinSep(cs) + "/" + x
  {
    if |cs| > 1 {
      assert (cs + [x])[1..] == cs[1..] + [x];
      JoinSepSnoc(cs[1..], x);
    } else {
      assert (cs + [x])[1..] == [x];
    }
  }

  /** filepath.Join of a clean, non-empty directory and a simple name is their concatenation with '/'. */
  lemma JoinUnderClean(q: Path, n: string)
    requires IsClean(q) && |q.elems| > 0 && SimpleName(n)
    ensures Join([Render(q), n]) == Render(q) + "/" + n
  {
    var a := Render(q);
    RenderNotEmpty(q);
    ParseRender(q);
    JoinName(a, n);
    JoinTwo(a, n);
    assert Joined(a, n) == Path(q.rooted, q.elems + [n]);
    RenderSnoc(q, n);
  }

  /** Rendering a path with one more element appends "/" and that element. */
  lemma RenderSnoc(q: Path, n: string)
    requires |q.elems| > 0
    ensures Render(Path(q.rooted, q.elems + [n])) == Render(q) + "/" + n
  {
    JoinSepSnoc(q.elems, n);
  }

  lemma RenderEndsWithLast(q: Path)
    requires |q.elems| > 0
    ensures Strings.HasSuffix(Render(q), q.elems[|q.elems| - 1])
  {
    JoinSepEndsWithLast(q.elems);
    if q.rooted {
      Strings.SuffixOfAppend("/", JoinSep(q.elems));
      Strings.SuffixTransitive(Render(q), JoinSep(q.elems), q.elems[|q.elems| - 1]);
    }
  }

  lemma {:induction false} JoinSepEndsWithLast(cs: seq<string>)
    requires |cs| > 0
    ensures Strings.HasSuffix(JoinSep(cs), cs[|cs| - 1])
  {
    if |cs| > 1 {
      JoinSepEndsWithLast(cs[1..]);
      Strings.SuffixOfAppend(cs[0] + "/", JoinSep(cs[1..]));
      Strings.SuffixTransitive(JoinSep(cs), JoinSep(cs[1..]), cs[|cs| - 1]);
    }
  }

  // ---------------------------------------------------------------------------------------
  // filepath.Dir

  /** Dir of a rendered clean path renders its parent. */
  lemma DirOfRender(q: Path)
    requires IsClean(q) && |q.elems| > 0
    ensures Dir(Render(q)) == Render(Parent(q))
    ensures IsClean(Parent(q))
  {
    var es := q.elems;
    var init := es[..|es| - 1];
    var p := Parent(q);
    assert IsClean(p) by {
      forall i | 0 <= i < |init| ensures CleanAt(p, i) {
        assert CleanAt(q, i);
      }
    }
    assert NoSlash(es) by {
      forall i | 0 <= i < |es| ensures '/' !in es[i] {
        assert CleanAt(q, i);
      }
    }
    var s := Render(q);
    SplitJoinSep(es);
    if q.rooted {
      SplitAppend("", JoinSep(es));
      assert "" + "/" + JoinSep(es) == s;
      assert Split(s)[..|Split(s)| - 1] == [""] + init;
      CleanDropsLeadingEmpty(true, init);
      CleanOfClean(p);
    } else {
      assert CleanAt(q, 0);
      JoinSepFirstChar(es);
      CleanOfClean(p);
    }
  }

  // ---------------------------------------------------------------------------------------
  // The zip extraction guard: strings.HasPrefix(target, Clean(dest)+"/")

  /** Two '/'-free heads followed by '/' line up: the heads are equal. */
  lemma AlignHeads(c1: string, s: string, c2: string, t: string)
    requires '/' !in c1 && '/' !in c2
    requires c1 + "/" + s <= c2 + "/" + t
    ensures c1 == c2 && s <= t
  {
    var x, y := c1 + "/" + s, c2 + "/" + t;
    assert forall i :: 0 <= i < |x| ==> x[i] == y[i];
    assert x[|c1|] == '/';
    assert y[|c2|] == '/';
    assert forall i :: 0 <= i < |c1| ==> x[i] == c1[i] && c1[i] != '/';
    assert forall i :: 0 <= i < |c2| ==> y[i] == c2[i] && c2[i] != '/';
    assert |c1| == |c2|;
    assert c1 == x[..|c1|] == y[..|c1|] == c2;
    assert s == x[|c1| + 1..];
    assert t == y[|c1| + 1..];
  }

  lemma HeadNotPrefixOfPlain(c1: string, s: string, c2: string)
    requires '/' !in c2
    ensures !(c1 + "/" + s <= c2)
  {
    var x := c1 + "/" + s;
    assert x[|c1|] == '/';
    assert forall i :: 0 <= i < |c2| ==> c2[i] != '/';
  }

  lemma PrefixAfterCommon(p: string, a: string, b: string)
    ensures p + a <= p + b <==> a <= b
  {
    assert (p + a)[|p|..] == a;
    assert (p + b)[|p|..] == b;
    if a <= b {
      assert p + a == (p + b)[..|p + a|];
    }
  }

  /** `JoinSep(c1s)+"/"` starts `JoinSep(c2s)` exactly when c1s is a proper prefix of c2s. */
  lemma {:induction false} JoinSepPrefix(c1s: seq<string>, c2s: seq<string>)
    requires |c1s| > 0 && NoSlash(c1s) && NoSlash(c2s)
    ensures JoinSep(c1s) + "/" <= JoinSep(c2s) <==> c1s < c2s
  {
    var c1 := c1s[0];
    var lhs := JoinSep(c1s) + "/";
    var tail1 := if |c1s| == 1 then "" else JoinSep(c1s[1..]) + "/";
    assert lhs == c1 + "/" + tail1;
    if |c2s| == 0 {
    } else if |c2s| == 1 {
      HeadNotPrefixOfPlain(c1, tail1, c2s[0]);
    } else {
      var c2 := c2s[0];
      assert JoinSep(c2s) == c2 + "/" + JoinSep(c2s[1..]);
      if lhs <= JoinSep(c2s) {
        AlignHeads(c1, tail1, c2, JoinSep(c2s[1..]));
        if |c1s| > 1 {
          JoinSepPrefix(c1s[1..], c2s[1..]);
          assert c1s == [c1] + c1s[1..];
          assert c2s == [c2] + c2s[1..];
        }
      }
      if c1s < c2s {
        assert c1 == c2;
        if |c1s| > 1 {
          assert c1s[1..] < c2s[1..];
          JoinSepPrefix(c1s[1..], c2s[1..]);
        }
      }
    }
  }

  /** A rendered clean path starts with '/' exactly when it is rooted. */
  lemma RenderFirstChar(q: Path)
    requires IsClean(q)
    ensures |Render(q)| > 0 && (Render(q)[0] == '/' <==> q.rooted)
  {
    if !q.rooted && q.elems != [] {
      assert CleanAt(q, 0);
      JoinSepFirstChar(q.elems);
    }
  }

  /**
   * The guard of the zip extractor, stated on cleaned paths: the rendered target starts with
   * the rendered base followed by '/' exactly when the target lies inside the base and the
   * base is neither the root nor ".".
   */
  lemma {:induction false} GuardIffBelow(t: Path, base: Path)
    requires IsClean(t) && IsClean(base)
    ensures Strings.HasPrefix(Render(t), Render(base) + "/") <==> |base.elems| > 0 && Below(t, base)
  {
    assert Plain(t.elems) by {
      forall i | 0 <= i < |t.elems| ensures t.elems[i] != "" && '/' !in t.elems[i] {
        assert CleanAt(t, i);
      }
    }
    assert Plain(base.elems) by {
      forall i | 0 <= i < |base.elems| ensures base.elems[i] != "" && '/' !in base.elems[i] {
        assert CleanAt(base, i);
      }
    }
    var rt, rb := Render(t), Render(base);
    RenderFirstChar(t);
    RenderFirstChar(base);
    if base.elems == [] {
      if base.rooted {
        // rb + "/" is "//", and the second character of a rooted rendering is never '/'.
        if t.rooted && t.elems != [] {
          JoinSepFirstChar(t.elems);
          assert rt[1] == t.elems[0][0];
        }
      } else if !t.rooted && t.elems != [] {
        // rb + "/" is "./", and no clean element is "." or holds '/'.
        var c := t.elems[0];
        assert CleanAt(t, 0);
        JoinSepFirstChar(t.elems);
        assert rt[0] == c[0];
        if |c| == 1 {
          assert c == [c[0]];
          if |t.elems| > 1 {
            assert rt == c + "/" + JoinSep(t.elems[1..]);
          }
        } else {
          if |t.elems| > 1 {
            assert rt == c + "/" + JoinSep(t.elems[1..]);
          }
          assert rt[1] == c[1];
        }
      }
    } else if base.rooted == t.rooted {
      JoinSepPrefix(base.elems, t.elems);
      if base.rooted {
        assert rb + "/" == "/" + (JoinSep(base.elems) + "/");
        PrefixAfterCommon("/", JoinSep(base.elems) + "/", JoinSep(t.elems));
      } else if t.elems == [] {
        assert |rt| == 1;
      }
    }
  }
}
