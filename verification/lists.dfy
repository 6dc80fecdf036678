/**
 * The loops over named records the configuration code repeats for each kind of record: find
 * the first element with a given name, and cut one element out of a slice (Go's
 * `append(s[:i], s[i+1:]...)`). `key` reads an element's name.
 */
module Lists {

  /** The position of the first element whose key is `name`, or -1. */
  function First<T>(xs: seq<T>, key: T -> string, name: string): (r: int)
    ensures -1 <= r < |xs|
    ensures r == -1 <==> forall i :: 0 <= i < |xs| ==> key(xs[i]) != name
    ensures r >= 0 ==> key(xs[r]) == name && forall i :: 0 <= i < r ==> key(xs[i]) != name
  {
    if xs == [] then -1
    else if key(xs[0]) == name then 0
    else
      var k := First(xs[1..], key, name);
      assert forall i :: 1 <= i < |xs| ==> xs[i] == xs[1..][i - 1];
      if k == -1 then -1 else k + 1
  }

  /** The slice without its element at `k`. */
  function RemoveAt<T>(xs: seq<T>, k: nat): (r: seq<T>)
    requires k < |xs|
    ensures |r| == |xs| - 1
    ensures forall i :: 0 <= i < k ==> r[i] == xs[i]
    ensures forall i :: k <= i < |r| ==> r[i] == xs[i + 1]
    ensures multiset(r) + multiset{xs[k]} == multiset(xs)
  {
    assert xs == xs[..k] + [xs[k]] + xs[k + 1..];
    xs[..k] + xs[k + 1..]
  }

  /** The keys of the elements, in order (a command's ValidArgs built from a registry). */
  function Keys<T>(xs: seq<T>, key: T -> string): (r: seq<string>)
    ensures |r| == |xs|
    ensures forall i :: 0 <= i < |r| ==> r[i] == key(xs[i])
    ensures forall name :: name in r <==> First(xs, key, name) >= 0
  {
    seq(|xs|, i requires 0 <= i < |xs| => key(xs[i]))
  }

  /** How many elements carry the key `name`. */
  function Count<T>(xs: seq<T>, key: T -> string, name: string): nat {
    if xs == [] then 0 else (if key(xs[0]) == name then 1 else 0) + Count(xs[1..], key, name)
  }

  lemma {:induction false} CountAppend<T>(a: seq<T>, b: seq<T>, key: T -> string, name: string)
    ensures Count(a + b, key, name) == Count(a, key, name) + Count(b, key, name)
    decreases |a|
  {
    if a == [] {
      assert a + b == b;
    } else {
      assert (a + b)[0] == a[0];
      assert (a + b)[1..] == a[1..] + b;
      CountAppend(a[1..], b, key, name);
    }
  }

  lemma {:induction false} CountZero<T>(xs: seq<T>, key: T -> string, name: string)
    ensures Count(xs, key, name) == 0 <==> forall i :: 0 <= i < |xs| ==> key(xs[i]) != name
    decreases |xs|
  {
    if xs != [] {
      CountZero(xs[1..], key, name);
      assert forall i :: 1 <= i < |xs| ==> xs[i] == xs[1..][i - 1];
    }
  }

  /**
   * Removing the first element named `name` removes exactly one of them: the others, and
   * every element with another name, stay.
   */
  lemma RemoveFirstCount<T>(xs: seq<T>, key: T -> string, name: string, other: string)
    requires First(xs, key, name) >= 0
    ensures var r := RemoveAt(xs, First(xs, key, name));
            Count(r, key, name) == Count(xs, key, name) - 1
            && (other != name ==> Count(r, key, other) == Count(xs, key, other))
  {
    var k := First(xs, key, name);
    assert xs == xs[..k] + ([xs[k]] + xs[k + 1..]);
    CountAppend(xs[..k], [xs[k]] + xs[k + 1..], key, name);
    CountAppend([xs[k]], xs[k + 1..], key, name);
    CountAppend(xs[..k], xs[k + 1..], key, name);
    CountAppend(xs[..k], [xs[k]] + xs[k + 1..], key, other);
    CountAppend([xs[k]], xs[k + 1..], key, other);
    CountAppend(xs[..k], xs[k + 1..], key, other);
  }

  /** An element appended under a fresh name is found last, and removing it gives the list back. */
  lemma AppendFresh<T>(xs: seq<T>, x: T, key: T -> string)
    requires forall i :: 0 <= i < |xs| ==> key(xs[i]) != key(x)
    ensures First(xs + [x], key, key(x)) == |xs|
    ensures RemoveAt(xs + [x], |xs|) == xs
  {
    var ys := xs + [x];
    var r := First(ys, key, key(x));
    assert ys[|xs|] == x;
    assert r != -1;
    assert ys[..|xs|] == xs;
  }

  /** Appending never changes which element is found first, once there is one. */
  lemma AppendKeepsFirst<T>(xs: seq<T>, x: T, key: T -> string, name: string)
    requires First(xs, key, name) >= 0
    ensures First(xs + [x], key, name) == First(xs, key, name)
  {
    var ys := xs + [x];
    var k, r := First(xs, key, name), First(ys, key, name);
    assert ys[k] == xs[k];
  }

  /** The first match is pinned down by its own key and the keys before it. */
  lemma FirstAt<T>(xs: seq<T>, key: T -> string, name: string, k: nat)
    requires k < |xs| && key(xs[k]) == name
    requires forall i :: 0 <= i < k ==> key(xs[i]) != name
    ensures First(xs, key, name) == k
  {
  }
}
