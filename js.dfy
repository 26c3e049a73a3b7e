/**
 * The few pieces of JavaScript semantics the store relies on: optional values,
 * the `||` and `??` defaulting operators, ASCII `toLowerCase`, `String.prototype.includes`,
 * and the array methods `filter` and `find`.
 */
module Js {

  /** A value that may be `undefined` or `null` (both are `None`). */
  datatype Option<T> = None | Some(value: T)

  /** JavaScript falsiness of an optional string: `undefined`, `null` and `""`. */
  predicate FalsyString(s: Option<string>)
  {
    s.None? || s.value == ""
  }

  /** `s || null` for an optional string: every falsy value becomes `null`. */
  function OrNull(s: Option<string>): (r: Option<string>)
    ensures r.None? <==> FalsyString(s)
    ensures r.Some? ==> r == s
  {
    if FalsyString(s) then None else s
  }

  /**
   * `a || null` for an optional array: an array is an object and so truthy even
   * when empty; only `undefined` and `null` become `null`.
   */
  function ListOrNull<T>(a: Option<seq<T>>): Option<seq<T>>
  {
    a
  }

  /** `x ?? d`: only `undefined` and `null` are replaced, `false` and `0` are kept. */
  function Coalesce<T>(x: Option<T>, d: T): T
  {
    if x.Some? then x.value else d
  }

  /** `toLowerCase` restricted to ASCII letters. */
  function LowerChar(c: char): char
  {
    if 'A' <= c <= 'Z' then (c as int - 'A' as int + 'a' as int) as char else c
  }

  function Lower(s: string): string
  {
    seq(|s|, i requires 0 <= i < |s| => LowerChar(s[i]))
  }

  /** `s.includes(t)`: scans the offsets of `s` from left to right. */
  function Includes(s: string, t: string): bool
    decreases |s|
  {
    if |t| > |s| then false
    else if s[..|t|] == t then true
    else Includes(s[1..], t)
  }

  /** `t` occurs in `s` starting at offset `i`. */
  predicate OccursAt(s: string, t: string, i: int)
  {
    0 <= i && i + |t| <= |s| && s[i..i + |t|] == t
  }

  /** A slice of `s[1..]` is the slice of `s` one offset further on. */
  lemma SliceOfTail(s: string, i: int, n: nat)
    requires 0 <= i && i + 1 + n <= |s|
    ensures s[1..][i..i + n] == s[i + 1..i + 1 + n]
  {
    var a, b := s[1..][i..i + n], s[i + 1..i + 1 + n];
    assert |a| == |b|;
    forall k | 0 <= k < n
      ensures a[k] == b[k]
    {
    }
  }

  /** `Includes` holds exactly when `t` occurs in `s` at some offset. */
  lemma {:induction false} IncludesIff(s: string, t: string)
    ensures Includes(s, t) <==> exists i :: OccursAt(s, t, i)
    decreases |s|
  {
    if |t| > |s| {
    } else if s[..|t|] == t {
      assert OccursAt(s, t, 0);
    } else {
      IncludesIff(s[1..], t);
      if Includes(s[1..], t) {
        var i :| OccursAt(s[1..], t, i);
        SliceOfTail(s, i, |t|);
        assert OccursAt(s, t, i + 1);
      } else {
        forall i | OccursAt(s, t, i)
          ensures false
        {
          if i > 0 {
            SliceOfTail(s, i - 1, |t|);
            assert OccursAt(s[1..], t, i - 1);
          }
        }
      }
    }
  }

  /** The empty string is included in every string, as in JavaScript. */
  lemma IncludesEmpty(s: string)
    ensures Includes(s, "")
  {
    IncludesIff(s, "");
    assert OccursAt(s, "", 0);
  }

  /** `s.filter(p)`: the elements that satisfy `p`, in their original order. */
  function Filter<T(==)>(s: seq<T>, p: T -> bool): (r: seq<T>)
    ensures |r| <= |s|
    ensures forall i :: 0 <= i < |r| ==> r[i] in s && p(r[i])
    ensures forall i :: 0 <= i < |s| && p(s[i]) ==> s[i] in r
    decreases |s|
  {
    if s == [] then []
    else
      var init := s[..|s| - 1];
      assert forall i :: 0 <= i < |init| ==> init[i] == s[i];
      Filter(init, p) + (if p(s[|s| - 1]) then [s[|s| - 1]] else [])
  }

  lemma FilterSnoc<T>(s: seq<T>, x: T, p: T -> bool)
    ensures Filter(s + [x], p) == Filter(s, p) + (if p(x) then [x] else [])
  {
    assert (s + [x])[..|s|] == s;
  }

  /** `r` is obtained from `s` by deleting elements (matched greedily from the back). */
  predicate IsSubsequence<T(==)>(r: seq<T>, s: seq<T>)
    decreases |s|
  {
    if r == [] then true
    else if s == [] then false
    else if r[|r| - 1] == s[|s| - 1] then IsSubsequence(r[..|r| - 1], s[..|s| - 1])
    else IsSubsequence(r, s[..|s| - 1])
  }

  lemma {:induction false} FilterIsSubsequence<T>(s: seq<T>, p: T -> bool)
    ensures IsSubsequence(Filter(s, p), s)
    decreases |s|
  {
    if s != [] {
      var init, last := s[..|s| - 1], s[|s| - 1];
      var r := Filter(s, p);
      FilterIsSubsequence(init, p);
      if p(last) {
        assert r[..|r| - 1] == Filter(init, p);
      } else {
        assert r == Filter(init, p);
        if r != [] {
          assert r[|r| - 1] in r;
        }
      }
    }
  }

  /** Filtering twice is filtering once with the conjunction. */
  lemma {:induction false} FilterFilter<T>(s: seq<T>, p: T -> bool, q: T -> bool, pq: T -> bool)
    requires forall x :: pq(x) == (p(x) && q(x))
    ensures Filter(Filter(s, p), q) == Filter(s, pq)
    decreases |s|
  {
    if s != [] {
      var init, last := s[..|s| - 1], s[|s| - 1];
      FilterFilter(init, p, q, pq);
      if p(last) {
        FilterSnoc(Filter(init, p), last, q);
      } else {
        assert Filter(s, p) == Filter(init, p);
      }
    }
  }

  /** A filter that every element passes returns the whole sequence. */
  lemma {:induction false} FilterAll<T>(s: seq<T>, p: T -> bool)
    requires forall i :: 0 <= i < |s| ==> p(s[i])
    ensures Filter(s, p) == s
    decreases |s|
  {
    if s != [] {
      FilterAll(s[..|s| - 1], p);
    }
  }

  /** Filters with pointwise equal predicates agree. */
  lemma {:induction false} FilterCongruence<T>(s: seq<T>, p: T -> bool, q: T -> bool)
    requires forall x :: p(x) == q(x)
    ensures Filter(s, p) == Filter(s, q)
    decreases |s|
  {
    if s != [] {
      FilterCongruence(s[..|s| - 1], p, q);
    }
  }

  /** `key` strictly increases along `s`. */
  ghost predicate KeysIncrease<T>(s: seq<T>, key: T -> nat)
  {
    forall i, j :: 0 <= i < j < |s| ==> key(s[i]) < key(s[j])
  }

  /** Keys that increase along `s` still increase along any filter of `s`. */
  lemma {:induction false} FilterKeepsIncreasing<T>(s: seq<T>, p: T -> bool, key: T -> nat)
    requires KeysIncrease(s, key)
    ensures KeysIncrease(Filter(s, p), key)
    decreases |s|
  {
    if s != [] {
      var init, last := s[..|s| - 1], s[|s| - 1];
      FilterKeepsIncreasing(init, p, key);
      var fi := Filter(init, p);
      forall x | x in fi
        ensures key(x) < key(last)
      {
        var k :| 0 <= k < |init| && init[k] == x;
        assert s[k] == x;
      }
      var r := Filter(s, p);
      assert r == fi + (if p(last) then [last] else []);
      forall i, j | 0 <= i < j < |r|
        ensures key(r[i]) < key(r[j])
      {
        if j == |fi| {
          assert r[i] == fi[i] && r[j] == last;
          assert fi[i] in fi;
          assert key(fi[i]) < key(last);
        } else {
          assert r[i] == fi[i] && r[j] == fi[j];
          assert key(fi[i]) < key(fi[j]);
        }
      }
    }
  }

  /** The index `findIndex` would return: the first element that satisfies `p`. */
  function FirstIndex<T>(s: seq<T>, p: T -> bool): (r: Option<nat>)
    ensures r.Some? ==> r.value < |s| && p(s[r.value]) && forall j :: 0 <= j < r.value ==> !p(s[j])
    ensures r.None? ==> forall j :: 0 <= j < |s| ==> !p(s[j])
    decreases |s|
  {
    if s == [] then None
    else if p(s[0]) then Some(0)
    else
      match FirstIndex(s[1..], p)
      case None => None
      case Some(k) => Some(k + 1)
  }

  /** `s.find(p)`: the first element that satisfies `p`, or `undefined`. */
  function Find<T>(s: seq<T>, p: T -> bool): Option<T>
  {
    match FirstIndex(s, p)
    case None => None
    case Some(i) => Some(s[i])
  }

  /** Appending elements after a match does not change what `find` returns. */
  lemma FindAppend<T>(s: seq<T>, t: seq<T>, p: T -> bool)
    requires Find(s, p).Some?
    ensures Find(s + t, p) == Find(s, p)
  {
    var i := FirstIndex(s, p).value;
    var k := FirstIndex(s + t, p);
    assert (s + t)[i] == s[i];
    assert k.Some? && k.value <= i;
  }
}
