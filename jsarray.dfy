/**
 * The three array methods the box manager uses on its list of boxes:
 * `Array.prototype.filter`, `findIndex` and `find`, as functions on sequences.
 */
module JsArray {
  import opened Wrappers

  /** `s.filter(p)`: the elements satisfying `p`, in their original order. */
  function Filter<T>(p: T -> bool, s: seq<T>): (r: seq<T>)
    ensures |r| <= |s|
    ensures forall i :: 0 <= i < |r| ==> p(r[i])
  {
    if s == [] then []
    else
      var rest := Filter(p, s[1..]);
      if p(s[0]) then [s[0]] + rest else rest
  }

  /** Nothing satisfying `p` is dropped, and nothing is added or duplicated. */
  lemma {:induction false} FilterKeeps<T>(p: T -> bool, s: seq<T>)
    ensures forall i :: 0 <= i < |s| && p(s[i]) ==> s[i] in Filter(p, s)
    ensures multiset(Filter(p, s)) <= multiset(s)
  {
    if s != [] {
      var t, r := s[1..], Filter(p, s[1..]);
      FilterKeeps(p, t);
      assert s == [s[0]] + t;
      var h := if p(s[0]) then [s[0]] else [];
      assert Filter(p, s) == h + r;
      assert multiset(h) <= multiset{s[0]};
      assert multiset(Filter(p, s)) == multiset(h) + multiset(r);
      forall i | 0 < i < |s| && p(s[i]) ensures s[i] in Filter(p, s) {
        assert s[i] == t[i - 1];
        assert s[i] in r;
      }
    }
  }

  /** Filtering distributes over concatenation: the relative order of kept elements is preserved. */
  lemma {:induction false} FilterConcat<T>(p: T -> bool, a: seq<T>, b: seq<T>)
    ensures Filter(p, a + b) == Filter(p, a) + Filter(p, b)
  {
    if a == [] {
      assert a + b == b;
    } else {
      assert (a + b)[1..] == a[1..] + b;
      FilterConcat(p, a[1..], b);
    }
  }

  /** Filtering a list with a known first element. */
  lemma FilterCons<T>(p: T -> bool, x: T, t: seq<T>)
    ensures Filter(p, [x] + t) == (if p(x) then [x] else []) + Filter(p, t)
  {
    assert ([x] + t)[1..] == t;
  }

  /** Two pieces of which one is empty can be swapped. */
  lemma SwapEmpty<T>(x: seq<T>, y: seq<T>, z: seq<T>)
    requires x == [] || y == []
    ensures x + (y + z) == y + (x + z)
  {
  }

  /** A sequence whose elements all satisfy `p` is left as it is. */
  lemma {:induction false} FilterAll<T>(p: T -> bool, s: seq<T>)
    requires forall i :: 0 <= i < |s| ==> p(s[i])
    ensures Filter(p, s) == s
  {
    if s != [] {
      FilterAll(p, s[1..]);
    }
  }

  /** Filtering twice with the same predicate is filtering once. */
  lemma FilterIdempotent<T>(p: T -> bool, s: seq<T>)
    ensures Filter(p, Filter(p, s)) == Filter(p, s)
  {
    var r := Filter(p, s);
    FilterAll(p, r);
  }

  /** `s.findIndex(p)`: the first index whose element satisfies `p`, or -1. */
  function FindIndex<T>(p: T -> bool, s: seq<T>): (r: int)
    ensures -1 <= r < |s|
    ensures r == -1 <==> forall i :: 0 <= i < |s| ==> !p(s[i])
    ensures r >= 0 ==> p(s[r]) && forall j :: 0 <= j < r ==> !p(s[j])
  {
    if s == [] then -1
    else if p(s[0]) then 0
    else
      var k := FindIndex(p, s[1..]);
      if k == -1 then -1 else k + 1
  }

  /** `s.find(p)`: the first element satisfying `p`, or `undefined`. */
  function Find<T>(p: T -> bool, s: seq<T>): (r: Option<T>)
    ensures r.None? <==> forall i :: 0 <= i < |s| ==> !p(s[i])
    ensures r.Some? ==> r.value in s && p(r.value)
  {
    if s == [] then None
    else if p(s[0]) then Some(s[0])
    else Find(p, s[1..])
  }

  /** `find` returns the element at the index `findIndex` reports. */
  lemma {:induction false} FindAtFindIndex<T>(p: T -> bool, s: seq<T>)
    ensures Find(p, s) == if FindIndex(p, s) < 0 then None else Some(s[FindIndex(p, s)])
  {
    if s != [] && !p(s[0]) {
      FindAtFindIndex(p, s[1..]);
    }
  }
}
