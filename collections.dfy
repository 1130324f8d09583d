/** The array methods the editors use to build new lists: `filter` by
    index, `filter` by value and `slice`. */
module Collections {

  /** `xs.filter((_, i) => i !== index)`: the list without the entry at
      `index`; an index outside the list removes nothing. */
  function RemoveAt<T>(xs: seq<T>, index: int): (r: seq<T>)
    ensures 0 <= index < |xs| ==> |r| == |xs| - 1
    ensures !(0 <= index < |xs|) ==> r == xs
    ensures 0 <= index < |xs| ==> forall i :: 0 <= i < |r| ==> r[i] == if i < index then xs[i] else xs[i + 1]
  {
    if 0 <= index < |xs| then xs[..index] + xs[index + 1..] else xs
  }

  /** Removing the entry that was just appended gives back the old list. */
  lemma RemoveAppended<T>(xs: seq<T>, x: T)
    ensures RemoveAt(xs + [x], |xs|) == xs
  {
    var r := RemoveAt(xs + [x], |xs|);
    assert forall i :: 0 <= i < |r| ==> r[i] == xs[i];
  }

  /** `a` occurs in `b` in order, with possibly other elements between. */
  ghost predicate IsSubsequence<T>(a: seq<T>, b: seq<T>)
    decreases |b|
  {
    if a == [] then true
    else if b == [] then false
    else (a[0] == b[0] && IsSubsequence(a[1..], b[1..])) || IsSubsequence(a, b[1..])
  }

  function Count<T(==)>(xs: seq<T>, x: T): nat {
    multiset(xs)[x]
  }

  /** `xs.filter(y => y !== x)`: every occurrence of `x` is dropped. */
  function RemoveAll<T(==)>(xs: seq<T>, x: T): (r: seq<T>)
    ensures x !in r
    ensures |r| <= |xs|
    ensures x !in xs ==> r == xs
    decreases |xs|
  {
    if xs == [] then []
    else
      var rest := RemoveAll(xs[1..], x);
      assert xs == [xs[0]] + xs[1..];
      if xs[0] == x then rest else [xs[0]] + rest
  }

  /** The elements other than `x` keep their order and their multiplicity. */
  lemma RemoveAllKeepsOthers<T>(xs: seq<T>, x: T)
    ensures multiset(RemoveAll(xs, x)) == multiset(xs)[x := 0]
    ensures |RemoveAll(xs, x)| == |xs| - Count(xs, x)
    ensures IsSubsequence(RemoveAll(xs, x), xs)
  {
    RemoveAllCounts(xs, x);
    RemoveAllInOrder(xs, x);
  }

  lemma {:induction false} RemoveAllCounts<T>(xs: seq<T>, x: T)
    ensures multiset(RemoveAll(xs, x)) == multiset(xs)[x := 0]
    ensures |RemoveAll(xs, x)| == |xs| - Count(xs, x)
    decreases |xs|
  {
    if xs != [] {
      var rest := RemoveAll(xs[1..], x);
      RemoveAllCounts(xs[1..], x);
      assert xs == [xs[0]] + xs[1..];
      assert multiset(xs) == multiset{xs[0]} + multiset(xs[1..]);
      if xs[0] != x {
        assert multiset([xs[0]] + rest) == multiset{xs[0]} + multiset(rest);
      }
    }
  }

  lemma {:induction false} RemoveAllInOrder<T>(xs: seq<T>, x: T)
    ensures IsSubsequence(RemoveAll(xs, x), xs)
    decreases |xs|
  {
    if xs != [] {
      var rest := RemoveAll(xs[1..], x);
      RemoveAllInOrder(xs[1..], x);
      if xs[0] != x {
        assert ([xs[0]] + rest)[1..] == rest;
      }
    }
  }

  /** An element survives `RemoveAll` exactly when it is in the list and is
      not the one removed. */
  lemma RemoveAllMembership<T>(xs: seq<T>, x: T)
    ensures forall y :: y in RemoveAll(xs, x) <==> y in xs && y != x
  {
    var r := RemoveAll(xs, x);
    RemoveAllKeepsOthers(xs, x);
    forall y
      ensures y in r <==> y in xs && y != x
    {
      assert (y in r) == (multiset(r)[y] > 0);
      assert (y in xs) == (multiset(xs)[y] > 0);
    }
  }

  /** Removing every copy of `x` and appending one copy gives a list that
      holds `x` once and has the same elements as before. */
  lemma RemoveAllThenAppend<T>(xs: seq<T>, x: T)
    ensures Count(RemoveAll(xs, x) + [x], x) == 1
    ensures forall y :: y in RemoveAll(xs, x) + [x] <==> y in xs + [x]
  {
    var r := RemoveAll(xs, x);
    RemoveAllKeepsOthers(xs, x);
    assert multiset(r + [x]) == multiset(r) + multiset{x};
    forall y
      ensures y in r + [x] <==> y in xs + [x]
    {
      if y != x {
        assert (y in r) == (multiset(r)[y] > 0);
        assert multiset(r)[y] == multiset(xs)[y];
        assert (y in xs) == (multiset(xs)[y] > 0);
      }
    }
  }

  function Min(a: int, b: int): int { if a < b then a else b }

  /** `xs.slice(from, to)` for non-negative bounds: bounds past the end are
      clamped to the length, and an empty range gives the empty list. */
  function Slice<T>(xs: seq<T>, from: nat, to: nat): (r: seq<T>)
    ensures |r| == if Min(to, |xs|) <= Min(from, |xs|) then 0 else Min(to, |xs|) - Min(from, |xs|)
    ensures forall i :: 0 <= i < |r| ==> r[i] == xs[from + i]
  {
    var lo := Min(from, |xs|);
    var hi := Min(to, |xs|);
    if hi <= lo then [] else xs[lo..hi]
  }

  /** `xs.slice(from)`. */
  function SliceFrom<T>(xs: seq<T>, from: nat): (r: seq<T>)
    ensures |r| == if from <= |xs| then |xs| - from else 0
  {
    Slice(xs, from, |xs|)
  }

  /** Three consecutive slices cut at `a <= b` put the list back together. */
  lemma SlicesPartition<T>(xs: seq<T>, a: nat, b: nat)
    requires a <= b
    ensures Slice(xs, 0, a) + Slice(xs, a, b) + SliceFrom(xs, b) == xs
  {
    var p, q, t := Slice(xs, 0, a), Slice(xs, a, b), SliceFrom(xs, b);
    assert |p + q + t| == |xs|;
    forall i | 0 <= i < |xs|
      ensures (p + q + t)[i] == xs[i]
    {
      if i < |p| {
      } else if i < |p| + |q| {
        assert (p + q + t)[i] == q[i - |p|];
      } else {
        assert (p + q + t)[i] == t[i - |p| - |q|];
      }
    }
  }

  /** A non-empty list is its first entry followed by the rest. */
  lemma HeadThenTail<T>(xs: seq<T>)
    requires xs != []
    ensures [xs[0]] + xs[1..] == xs
  {
  }

  /** Dropping the first of two leading entries. */
  lemma DropFirstOfTwo<T>(x: T, y: T, t: seq<T>)
    ensures ([x, y] + t)[1..] == [y] + t
  {
  }

  /** The last entry of a list is still last after something is put in front. */
  lemma LastAfterCons<T>(x: T, t: seq<T>)
    requires t != []
    ensures ([x] + t)[|t|] == t[|t| - 1]
  {
  }
}
