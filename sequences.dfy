/** Generic list operations the source takes from JavaScript arrays:
    `filter`, `reverse` and `splice(i, 1)`. */
module Sequences {

  /** `s.filter(keep)`: the elements satisfying `keep`, in their original order. */
  function Filter<T>(s: seq<T>, keep: T -> bool): (r: seq<T>)
    ensures |r| <= |s|
    ensures forall x :: x in r ==> x in s && keep(x)
    ensures forall x :: x in s && keep(x) ==> x in r
  {
    if s == [] then []
    else (if keep(s[0]) then [s[0]] else []) + Filter(s[1..], keep)
  }

  /** `t` is obtained from `s` by deleting elements; the order is kept. */
  predicate IsSubsequence<T(==)>(t: seq<T>, s: seq<T>)
    decreases |s|
  {
    t == [] || (s != [] && if t[0] == s[0] then IsSubsequence(t[1..], s[1..]) else IsSubsequence(t, s[1..]))
  }

  lemma {:induction false} FilterIsSubsequence<T>(s: seq<T>, keep: T -> bool)
    ensures IsSubsequence(Filter(s, keep), s)
  {
    if s != [] {
      FilterIsSubsequence(s[1..], keep);
      var r := Filter(s, keep);
      if keep(s[0]) {
        assert r[0] == s[0] && r[1..] == Filter(s[1..], keep);
      } else {
        assert r == Filter(s[1..], keep);
      }
    }
  }

  /** Filtering deletes exactly the occurrences of the rejected values and keeps
      every occurrence of the accepted ones. */
  lemma {:induction false} FilterCounts<T>(s: seq<T>, keep: T -> bool, x: T)
    ensures multiset(Filter(s, keep))[x] == if keep(x) then multiset(s)[x] else 0
  {
    if s != [] {
      FilterCounts(s[1..], keep, x);
      assert s == [s[0]] + s[1..];
      assert multiset(s) == multiset([s[0]]) + multiset(s[1..]);
    }
  }

  /** Filtering a filtered list changes nothing. */
  lemma {:induction false} FilterIdempotent<T>(s: seq<T>, keep: T -> bool)
    ensures Filter(Filter(s, keep), keep) == Filter(s, keep)
  {
    FilterKeepsAccepted(Filter(s, keep), keep);
  }

  /** A list whose every element is accepted passes through unchanged. */
  lemma {:induction false} FilterKeepsAccepted<T>(s: seq<T>, keep: T -> bool)
    requires forall x :: x in s ==> keep(x)
    ensures Filter(s, keep) == s
  {
    if s != [] {
      assert s[0] in s;
      assert forall x :: x in s[1..] ==> x in s;
      FilterKeepsAccepted(s[1..], keep);
    }
  }

  /** A list whose every element is rejected filters to nothing. */
  lemma {:induction false} FilterDropsRejected<T>(s: seq<T>, keep: T -> bool)
    requires forall x :: x in s ==> !keep(x)
    ensures Filter(s, keep) == []
  {
    if s != [] {
      assert s[0] in s;
      assert forall x :: x in s[1..] ==> x in s;
      FilterDropsRejected(s[1..], keep);
    }
  }

  /** Filtering a concatenation filters each part. */
  lemma {:induction false} FilterAppend<T>(a: seq<T>, b: seq<T>, keep: T -> bool)
    ensures Filter(a + b, keep) == Filter(a, keep) + Filter(b, keep)
  {
    if a != [] {
      var head := if keep(a[0]) then [a[0]] else [];
      var ab := a + b;
      assert ab[0] == a[0] && ab[1..] == a[1..] + b;
      FilterAppend(a[1..], b, keep);
      var ta, tb := Filter(a[1..], keep), Filter(b, keep);
      calc {
        Filter(ab, keep);
        head + Filter(a[1..] + b, keep);
        head + (ta + tb);
        (head + ta) + tb;
      }
    } else {
      assert a + b == b;
    }
  }

  /** A one-element list filters to itself or to nothing. */
  lemma {:induction false} FilterSingle<T>(s: seq<T>, keep: T -> bool)
    requires |s| == 1
    ensures Filter(s, keep) == if keep(s[0]) then s else []
  {
    assert s[1..] == [];
  }

  /** Lists that filter alike still filter alike after the same suffix. */
  lemma {:induction false} FilterAppendCongruent<T>(a: seq<T>, b: seq<T>, c: seq<T>, keep: T -> bool)
    requires Filter(a, keep) == Filter(b, keep)
    ensures Filter(a + c, keep) == Filter(b + c, keep)
  {
    FilterAppend(a, c, keep);
    FilterAppend(b, c, keep);
  }

  /** Filtering a list with one more element at the end. */
  lemma {:induction false} FilterSnoc<T>(a: seq<T>, x: T, keep: T -> bool)
    ensures Filter(a + [x], keep) == Filter(a, keep) + if keep(x) then [x] else []
  {
    FilterAppend(a, [x], keep);
    FilterSingle([x], keep);
  }

  /** Two last elements that are not both kept can trade places without
      changing the filtered list. */
  lemma {:induction false} FilterAppendSwap<T>(a: seq<T>, x: T, y: T, keep: T -> bool)
    requires !(keep(x) && keep(y))
    ensures Filter(a + [x] + [y], keep) == Filter(a + [y] + [x], keep)
  {
    FilterSnoc(a + [x], y, keep);
    FilterSnoc(a, x, keep);
    FilterSnoc(a + [y], x, keep);
    FilterSnoc(a, y, keep);
    if keep(x) {
      assert Filter(a + [x] + [y], keep) == Filter(a, keep) + [x];
    } else if keep(y) {
      assert Filter(a + [x] + [y], keep) == Filter(a, keep) + [y];
    }
  }

  /** A filter that rejects exactly the value `v` removes as many elements as
      `s` holds copies of `v`. */
  lemma {:induction false} FilterRejectCount<T>(s: seq<T>, keep: T -> bool, v: T)
    requires forall x :: !keep(x) <==> x == v
    ensures |Filter(s, keep)| == |s| - multiset(s)[v]
  {
    if s != [] {
      FilterRejectCount(s[1..], keep, v);
      assert s == [s[0]] + s[1..];
      assert multiset(s) == multiset([s[0]]) + multiset(s[1..]);
    }
  }

  /** `s` read from its end. */
  function Reversed<T>(s: seq<T>): (r: seq<T>)
    ensures |r| == |s|
    ensures forall i :: 0 <= i < |s| ==> r[i] == s[|s| - 1 - i]
  {
    seq(|s|, i requires 0 <= i < |s| => s[|s| - 1 - i])
  }

  /** `[...s].reverse()`: copies `s` into a fresh array and reverses the copy in place. */
  method ReverseCopy<T>(s: seq<T>) returns (r: seq<T>)
    ensures r == Reversed(s)
  {
    var a := new T[|s|](i requires 0 <= i < |s| => s[i]);
    var n := a.Length;
    var i := 0;
    while i < n / 2
      invariant 0 <= i <= n / 2
      invariant forall k :: 0 <= k < i ==> a[k] == s[n - 1 - k] && a[n - 1 - k] == s[k]
      invariant forall k :: i <= k < n - i ==> a[k] == s[k]
    {
      a[i], a[n - 1 - i] := a[n - 1 - i], a[i];
      i := i + 1;
    }
    r := a[..];
  }

  lemma {:induction false} ReversedTwice<T>(s: seq<T>)
    ensures Reversed(Reversed(s)) == s
  {
  }

  /** Some element of the reversed list satisfies `p` iff some element of the
      list does. */
  lemma {:induction false} ReversedExists<T>(s: seq<T>, p: T -> bool)
    ensures (exists i :: 0 <= i < |s| && p(Reversed(s)[i])) <==> (exists i :: 0 <= i < |s| && p(s[i]))
  {
    var r := Reversed(s);
    if exists i :: 0 <= i < |s| && p(r[i]) {
      var i :| 0 <= i < |s| && p(r[i]);
      assert s[|s| - 1 - i] == r[i];
    }
    if exists i :: 0 <= i < |s| && p(s[i]) {
      var i :| 0 <= i < |s| && p(s[i]);
      assert r[|s| - 1 - i] == s[i];
    }
  }

  /** The position `splice(index, 1)` starts at: a negative index counts from
      the end, and the position is clamped to 0 .. len. */
  function SpliceStart(len: nat, index: int): (start: nat)
    ensures start <= len
    ensures 0 <= index <= len ==> start == index
    ensures -(len as int) <= index < 0 ==> start == len + index
    ensures index > len as int ==> start == len
    ensures index < -(len as int) ==> start == 0
  {
    if index < 0 then (if len + index < 0 then 0 else len + index)
    else if index > len then len
    else index
  }

  /** The array `s` after `s.splice(index, 1)`. */
  function SpliceOne<T>(s: seq<T>, index: int): (r: seq<T>)
    ensures SpliceStart(|s|, index) < |s| ==> |r| == |s| - 1
    ensures SpliceStart(|s|, index) == |s| ==> r == s
    ensures var k := SpliceStart(|s|, index);
            forall i :: 0 <= i < |r| ==> r[i] == if i < k then s[i] else s[i + 1]
  {
    var k := SpliceStart(|s|, index);
    if k < |s| then s[..k] + s[k + 1..] else s
  }

  /** `const copy = [...s]; copy.splice(index, 1)`: the copy is made in a
      fresh array and the tail is shifted down over the removed element. */
  method SpliceCopy<T>(s: seq<T>, index: int) returns (r: seq<T>)
    ensures r == SpliceOne(s, index)
  {
    var a := new T[|s|](i requires 0 <= i < |s| => s[i]);
    var k := SpliceStart(|s|, index);
    if k == a.Length {
      return a[..];
    }
    var j := k;
    while j < a.Length - 1
      invariant k <= j <= a.Length - 1
      invariant forall m :: 0 <= m < k ==> a[m] == s[m]
      invariant forall m :: k <= m < j ==> a[m] == s[m + 1]
      invariant forall m :: j <= m < a.Length ==> a[m] == s[m]
    {
      a[j] := a[j + 1];
      j := j + 1;
    }
    r := a[..a.Length - 1];
  }

  /** Removing an element leaves every other one: the removed position's
      value goes, nothing else. */
  lemma {:induction false} SpliceOneRemovesOne<T>(s: seq<T>, index: int)
    requires SpliceStart(|s|, index) < |s|
    ensures multiset(SpliceOne(s, index)) == multiset(s) - multiset{s[SpliceStart(|s|, index)]}
  {
    var k := SpliceStart(|s|, index);
    assert s == s[..k] + [s[k]] + s[k + 1..];
    assert SpliceOne(s, index) == s[..k] + s[k + 1..];
  }

  /** Inserting `x` at position `k` and then removing position `k` gives the
      list back. */
  lemma {:induction false} SpliceOneUndoesInsert<T>(s: seq<T>, k: nat, x: T)
    requires k <= |s|
    ensures SpliceOne(s[..k] + [x] + s[k..], k) == s
  {
    var t := s[..k] + [x] + s[k..];
    assert t[..k] == s[..k] && t[k + 1..] == s[k..];
    assert s[..k] + s[k..] == s;
  }
}
