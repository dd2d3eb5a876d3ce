/**
 * The array operations the storefront uses on lists held in component state
 * or returned by the backend: `filter`, `slice`, `findIndex`, removal by
 * position and de-duplication through a `Set`.
 */
module Seqs {

  /** `s.filter(p)`: the elements that pass `p`, in their original order. */
  function Filter<T>(s: seq<T>, p: T -> bool): (r: seq<T>)
    ensures |r| <= |s|
    ensures forall i :: 0 <= i < |r| ==> p(r[i])
    ensures forall i :: 0 <= i < |r| ==> r[i] in s
    ensures forall i :: 0 <= i < |s| && p(s[i]) ==> s[i] in r
    ensures multiset(r) <= multiset(s)
  {
    if s == [] then []
    else
      assert s == [s[0]] + s[1..];
      if p(s[0]) then [s[0]] + Filter(s[1..], p) else Filter(s[1..], p)
  }

  lemma {:induction false} FilterAppend<T>(a: seq<T>, b: seq<T>, p: T -> bool)
    ensures Filter(a + b, p) == Filter(a, p) + Filter(b, p)
  {
    if a == [] {
      assert a + b == b;
    } else {
      assert (a + b)[1..] == a[1..] + b;
      FilterAppend(a[1..], b, p);
    }
  }

  /** Filtering keeps everything exactly when every element passes. */
  lemma {:induction false} FilterKeepsAll<T>(s: seq<T>, p: T -> bool)
    ensures Filter(s, p) == s <==> forall i :: 0 <= i < |s| ==> p(s[i])
  {
    if s != [] {
      FilterKeepsAll(s[1..], p);
      if !p(s[0]) {
        assert |Filter(s, p)| < |s|;
      }
    }
  }

  /** The elements `Filter` keeps are exactly the passing elements of `s`. */
  lemma FilterMembers<T>(s: seq<T>, p: T -> bool)
    ensures forall x :: x in Filter(s, p) <==> x in s && p(x)
  {
    var r := Filter(s, p);
    forall x | x in r
      ensures x in s && p(x)
    {
      var i :| 0 <= i < |r| && r[i] == x;
    }
    forall x | x in s && p(x)
      ensures x in r
    {
      var i :| 0 <= i < |s| && s[i] == x;
    }
  }

  /** How many of the first `j` elements pass `p`. */
  function CountBefore<T>(s: seq<T>, p: T -> bool, j: nat): (n: nat)
    requires j <= |s|
    ensures n <= j
  {
    if j == 0 then 0 else (if p(s[0]) then 1 else 0) + CountBefore(s[1..], p, j - 1)
  }

  /** An element that passes `p` lands in `Filter(s, p)` right after the passing
      elements that precede it. */
  lemma {:induction false} FilterPosition<T>(s: seq<T>, p: T -> bool, j: nat)
    requires j < |s| && p(s[j])
    ensures CountBefore(s, p, j) < |Filter(s, p)|
    ensures Filter(s, p)[CountBefore(s, p, j)] == s[j]
  {
    FilterUnfold(s, p);
    var f := Filter(s, p);
    var rest := Filter(s[1..], p);
    if j == 0 {
      assert f == [s[0]] + rest;
    } else {
      assert s[1..][j - 1] == s[j];
      FilterPosition(s[1..], p, j - 1);
      var c := CountBefore(s[1..], p, j - 1);
      if p(s[0]) {
        assert CountBefore(s, p, j) == c + 1;
        assert f == [s[0]] + rest;
        assert f[c + 1] == rest[c];
      } else {
        assert CountBefore(s, p, j) == c;
        assert f == rest;
      }
    }
  }

  /** One step of `Filter`. */
  lemma FilterUnfold<T>(s: seq<T>, p: T -> bool)
    requires s != []
    ensures Filter(s, p) == if p(s[0]) then [s[0]] + Filter(s[1..], p) else Filter(s[1..], p)
  {
  }

  /** Every element of `Filter(s, p)` comes from a passing position of `s`, preceded
      there by as many passing elements as precede it in the result. */
  lemma {:induction false} FilterSource<T>(s: seq<T>, p: T -> bool, k: nat)
    requires k < |Filter(s, p)|
    ensures exists j :: 0 <= j < |s| && p(s[j]) && CountBefore(s, p, j) == k && Filter(s, p)[k] == s[j]
  {
    FilterUnfold(s, p);
    if p(s[0]) && k == 0 {
      assert CountBefore(s, p, 0) == 0;
    } else {
      var k' := if p(s[0]) then k - 1 else k;
      assert Filter(s, p)[k] == Filter(s[1..], p)[k'];
      FilterSource(s[1..], p, k');
      var j' :| 0 <= j' < |s[1..]| && p(s[1..][j']) && CountBefore(s[1..], p, j') == k' && Filter(s[1..], p)[k'] == s[1..][j'];
      assert s[1..][j'] == s[j' + 1];
      assert CountBefore(s, p, j' + 1) == k;
    }
  }

  /** `s.slice(0, n)`. */
  function Take<T>(s: seq<T>, n: nat): (r: seq<T>)
    ensures |r| == if n <= |s| then n else |s|
    ensures r <= s
  {
    if n <= |s| then s[..n] else s
  }

  /** `s.slice(lo, hi)` for non-negative bounds, which JavaScript clamps to the length. */
  function Slice<T>(s: seq<T>, lo: nat, hi: nat): (r: seq<T>)
    ensures |r| == if hi <= lo || lo >= |s| then 0 else (if hi <= |s| then hi else |s|) - lo
    ensures forall i :: 0 <= i < |r| ==> r[i] == s[lo + i]
  {
    var h := if hi <= |s| then hi else |s|;
    if h <= lo then [] else s[lo..h]
  }

  /** `s.filter((_, i) => i !== idx)`: drops the element at `idx`, if there is one. */
  function RemoveAt<T>(s: seq<T>, idx: int): (r: seq<T>)
    ensures 0 <= idx < |s| ==> |r| == |s| - 1
    ensures !(0 <= idx < |s|) ==> r == s
    ensures forall i :: 0 <= i < |r| ==> r[i] == s[if 0 <= idx <= i then i + 1 else i]
  {
    if 0 <= idx < |s| then s[..idx] + s[idx + 1..] else s
  }

  /** `s.findIndex(p)`: the first position whose element passes `p`, or -1. */
  function FindIndex<T>(s: seq<T>, p: T -> bool): (r: int)
    ensures -1 <= r < |s|
    ensures r >= 0 ==> p(s[r]) && forall j :: 0 <= j < r ==> !p(s[j])
    ensures r == -1 <==> forall j :: 0 <= j < |s| ==> !p(s[j])
  {
    if s == [] then -1
    else if p(s[0]) then 0
    else
      var k := FindIndex(s[1..], p);
      if k == -1 then -1 else k + 1
  }

  predicate Distinct<T(==)>(s: seq<T>) {
    forall i, j :: 0 <= i < j < |s| ==> s[i] != s[j]
  }

  /** `[...new Set(s)]`: the first occurrence of every value, in order of appearance. */
  function Dedup<T(==)>(s: seq<T>): (r: seq<T>)
    ensures Distinct(r)
    ensures forall i :: 0 <= i < |r| ==> r[i] in s
    ensures forall i :: 0 <= i < |s| ==> s[i] in r
  {
    DedupAfter(s, [])
  }

  function DedupAfter<T(==)>(s: seq<T>, seen: seq<T>): (r: seq<T>)
    requires Distinct(seen)
    ensures Distinct(r)
    ensures seen <= r
    ensures forall i :: 0 <= i < |r| ==> r[i] in seen || r[i] in s
    ensures forall i :: 0 <= i < |s| ==> s[i] in r
    decreases |s|
  {
    if s == [] then seen
    else if s[0] in seen then DedupAfter(s[1..], seen)
    else
      var more := seen + [s[0]];
      assert more[|seen|] == s[0];
      DedupAfter(s[1..], more)
  }

  /** De-duplicating a list that has no repeats gives it back. */
  lemma {:induction false} DedupOfDistinct<T>(s: seq<T>, seen: seq<T>)
    requires Distinct(seen) && Distinct(seen + s)
    ensures DedupAfter(s, seen) == seen + s
    decreases |s|
  {
    if s != [] {
      var all := seen + s;
      assert s[0] == all[|seen|];
      assert forall k :: 0 <= k < |seen| ==> seen[k] == all[k];
      assert s[0] !in seen;
      assert seen + [s[0]] + s[1..] == seen + s;
      DedupOfDistinct(s[1..], seen + [s[0]]);
    }
  }
}
