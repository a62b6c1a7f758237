/**
 * The Python list operations the plate model relies on, with Python's own
 * semantics: negative indices count from the end, slice bounds are clamped,
 * `list.index` finds the first occurrence and `dict.fromkeys` keeps the first
 * occurrence of each key in order.
 */
module PySeq {
  import opened Wrappers

  /** No element occurs twice. */
  predicate Distinct<T(==)>(s: seq<T>) {
    forall i, j :: 0 <= i < j < |s| ==> s[i] != s[j]
  }

  /** `s[i]`: a negative index counts from the end; anything else out of range is an IndexError (None). */
  function PyIndex<T>(s: seq<T>, i: int): (r: Option<T>)
    ensures r.Some? <==> -|s| <= i < |s|
    ensures 0 <= i < |s| ==> r == Some(s[i])
    ensures -|s| <= i < 0 ==> r == Some(s[|s| + i])
  {
    if 0 <= i < |s| then Some(s[i])
    else if -|s| <= i < 0 then Some(s[|s| + i])
    else None
  }

  /** Where a slice bound `b` lands in a sequence of length `n`. */
  function SliceBound(n: nat, b: int): (r: nat)
    ensures r <= n
    ensures 0 <= b <= n ==> r == b
    ensures b > n ==> r == n
    ensures b < 0 ==> r == if n + b < 0 then 0 else n + b
  {
    if b < 0 then (if n + b < 0 then 0 else n + b)
    else if b < n then b
    else n
  }

  /** `s[lo:hi]` with Python's clamping of both bounds; an empty result when they cross. */
  function PySlice<T>(s: seq<T>, lo: int, hi: int): (r: seq<T>)
    ensures 0 <= lo <= hi <= |s| ==> r == s[lo..hi]
    ensures 0 <= hi <= lo ==> r == []
    ensures |r| <= |s|
    ensures SliceBound(|s|, lo) + |r| <= |s|
    ensures forall k :: 0 <= k < |r| ==> r[k] == s[SliceBound(|s|, lo) + k]
    ensures |r| == if SliceBound(|s|, lo) < SliceBound(|s|, hi) then SliceBound(|s|, hi) - SliceBound(|s|, lo) else 0
  {
    var a, b := SliceBound(|s|, lo), SliceBound(|s|, hi);
    if a < b then s[a..b] else []
  }

  /** A slice of a sequence without repetitions has none either. */
  lemma SliceDistinct<T>(s: seq<T>, lo: int, hi: int)
    requires Distinct(s)
    ensures Distinct(PySlice(s, lo, hi))
  {
    var r, a := PySlice(s, lo, hi), SliceBound(|s|, lo);
    forall i, j | 0 <= i < j < |r| ensures r[i] != r[j] {
      assert r[i] == s[a + i] && r[j] == s[a + j];
    }
  }

  /** `s.index(x)`: the first position holding `x`, or None where Python raises ValueError. */
  function FirstIndex<T(==)>(s: seq<T>, x: T): (r: Option<nat>)
    ensures r.None? <==> x !in s
    ensures r.Some? ==> r.value < |s| && s[r.value] == x && x !in s[..r.value]
  {
    if |s| == 0 then None
    else if s[0] == x then Some(0)
    else match FirstIndex(s[1..], x)
      case None => None
      case Some(k) =>
        assert s[..k + 1] == [s[0]] + s[1..][..k];
        Some(k + 1)
  }

  /** In a sequence without repetitions, `list.index` inverts indexing. */
  lemma FirstIndexOfDistinct<T>(s: seq<T>, i: nat)
    requires Distinct(s) && i < |s|
    ensures FirstIndex(s, s[i]) == Some(i)
  {
  }

  /**
   * `list(dict.fromkeys(s))`: each element of `s` once, in the order of
   * first occurrence (see DedupOrder).
   */
  function Dedup<T(==)>(s: seq<T>): (r: seq<T>)
    ensures Distinct(r)
    ensures forall k :: 0 <= k < |r| ==> r[k] in s
    ensures forall k :: 0 <= k < |s| ==> s[k] in r
    decreases |s|
  {
    if |s| == 0 then []
    else
      var d := Dedup(s[..|s| - 1]);
      assert forall k :: 0 <= k < |s| - 1 ==> s[k] == s[..|s| - 1][k];
      if s[|s| - 1] in d then d else d + [s[|s| - 1]]
  }

  /** Dedup keeps the order in which elements first occur. */
  lemma {:induction false} DedupOrder<T>(s: seq<T>)
    ensures forall i, j :: 0 <= i < j < |Dedup(s)| ==>
      FirstIndex(s, Dedup(s)[i]).value < FirstIndex(s, Dedup(s)[j]).value
    decreases |s|
  {
    if |s| > 0 {
      var init, x := s[..|s| - 1], s[|s| - 1];
      DedupOrder(init);
      FirstIndexPrefix(s, |s| - 1);
      var d := Dedup(init);
      forall i | 0 <= i < |d| ensures FirstIndex(s, d[i]) == FirstIndex(init, d[i]) {
        assert d[i] in init;
      }
      if x !in d {
        assert x !in init;
        assert FirstIndex(s, x) == Some(|s| - 1);
        assert Dedup(s) == d + [x];
      } else {
        assert Dedup(s) == d;
      }
    }
  }

  /** The first occurrence of an element of a prefix is found in that prefix. */
  lemma FirstIndexPrefix<T>(s: seq<T>, n: nat)
    requires n <= |s|
    ensures forall x :: x in s[..n] ==> FirstIndex(s, x) == FirstIndex(s[..n], x)
  {
    forall x | x in s[..n] ensures FirstIndex(s, x) == FirstIndex(s[..n], x) {
      var k, k' := FirstIndex(s, x).value, FirstIndex(s[..n], x).value;
      assert s[..n][..k'] == s[..k'] && s[k'] == x;
    }
  }

  /** `s` with every occurrence of `x` taken out, the rest in order. */
  function Without<T(==)>(s: seq<T>, x: T): (r: seq<T>)
    ensures x !in r
    ensures forall y :: y in r ==> y in s
    decreases |s|
  {
    if |s| == 0 then []
    else if s[0] == x then Without(s[1..], x)
    else [s[0]] + Without(s[1..], x)
  }

  /**
   * What `for i, y in enumerate(s): if y is x: s.pop(i)` leaves in `s`:
   * after each pop the next element slides into the popped slot and the
   * enumeration steps over it, so that element is kept even when it is `x`.
   * Whatever is kept, elements other than `x` all survive in their order.
   */
  function PopDuringEnumerate<T(==)>(s: seq<T>, x: T): (r: seq<T>)
    ensures |r| <= |s|
    ensures Without(r, x) == Without(s, x)
    decreases |s|
  {
    if |s| == 0 then []
    else if s[0] != x then [s[0]] + PopDuringEnumerate(s[1..], x)
    else if |s| == 1 then []
    else
      assert s[1..][0] == s[1] && s[1..][1..] == s[2..];
      [s[1]] + PopDuringEnumerate(s[2..], x)
  }

  /** When `x` never occurs twice in a row, the loop removes every occurrence of it. */
  lemma {:induction false} PopDuringEnumerateRemovesAll<T>(s: seq<T>, x: T)
    requires forall i :: 0 <= i < |s| - 1 ==> !(s[i] == x && s[i + 1] == x)
    ensures PopDuringEnumerate(s, x) == Without(s, x)
    decreases |s|
  {
    if |s| > 0 {
      if s[0] != x {
        PopDuringEnumerateRemovesAll(s[1..], x);
      } else if |s| > 1 {
        assert s[1] != x;
        assert s[1..][0] == s[1] && s[1..][1..] == s[2..];
        PopDuringEnumerateRemovesAll(s[2..], x);
      }
    }
  }

  /** Two occurrences side by side: the second one survives. */
  lemma PopDuringEnumerateSkips<T>(x: T)
    ensures PopDuringEnumerate([x, x], x) == [x]
  {
    assert [x, x][2..] == [];
  }
}
