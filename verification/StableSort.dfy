/**
 Python's `sort` and `sorted` with a key: a stable sort. A descending sort (`reverse=True`) is
 an ascending one by the negated key, since Python keeps equal elements in order either way.
 */
module StableSort {
  ghost predicate SortedBy<T>(xs: seq<T>, key: T -> real) {
    forall i, j :: 0 <= i < j < |xs| ==> key(xs[i]) <= key(xs[j])
  }

  /** Elements are ordered by key and, under equal keys, by stamp. */
  ghost predicate Before<T>(x: T, y: T, key: T -> real, stamp: T -> int) {
    key(x) < key(y) || (key(x) == key(y) && stamp(x) < stamp(y))
  }

  ghost predicate StrictlySorted<T>(xs: seq<T>, key: T -> real, stamp: T -> int) {
    forall i, j :: 0 <= i < j < |xs| ==> Before(xs[i], xs[j], key, stamp)
  }

  /** Stamps increase among elements of equal key, wherever they stand. */
  ghost predicate StampsIncrease<T>(xs: seq<T>, key: T -> real, stamp: T -> int) {
    forall i, j :: 0 <= i < j < |xs| && key(xs[i]) == key(xs[j]) ==> stamp(xs[i]) < stamp(xs[j])
  }

  /** Puts `x` behind everything whose key is not greater. */
  function Insert<T>(xs: seq<T>, x: T, key: T -> real): (r: seq<T>)
    requires SortedBy(xs, key)
    ensures SortedBy(r, key) && multiset(r) == multiset(xs) + multiset{x}
  {
    if xs == [] then [x]
    else
      var most, last := xs[..|xs| - 1], xs[|xs| - 1];
      assert xs == most + [last];
      if key(last) <= key(x) then xs + [x]
      else
        var r := Insert(most, x, key);
        InsertStaysBelow(most, x, key, r, key(last));
        r + [last]
  }

  lemma InsertStaysBelow<T>(xs: seq<T>, x: T, key: T -> real, r: seq<T>, bound: real)
    requires multiset(r) == multiset(xs) + multiset{x}
    requires key(x) <= bound && forall i :: 0 <= i < |xs| ==> key(xs[i]) <= bound
    ensures forall i :: 0 <= i < |r| ==> key(r[i]) <= bound
  {
    forall i | 0 <= i < |r|
      ensures key(r[i]) <= bound
    {
      assert r[i] in multiset(r);
      assert r[i] in multiset(xs) || r[i] == x;
      if r[i] in multiset(xs) {
        var j :| 0 <= j < |xs| && xs[j] == r[i];
      }
    }
  }

  function SortBy<T>(xs: seq<T>, key: T -> real): (r: seq<T>)
    ensures SortedBy(r, key) && multiset(r) == multiset(xs) && |r| == |xs|
  {
    if xs == [] then []
    else
      assert xs == xs[..|xs| - 1] + [xs[|xs| - 1]];
      var r := Insert(SortBy(xs[..|xs| - 1], key), xs[|xs| - 1], key);
      assert |multiset(r)| == |r| && |multiset(xs)| == |xs|;
      r
  }

  lemma SameElements<T>(xs: seq<T>, ys: seq<T>)
    requires multiset(xs) == multiset(ys)
    ensures forall x :: x in xs <==> x in ys
  {
    forall x
      ensures x in xs <==> x in ys
    {
      assert x in xs <==> x in multiset(xs);
      assert x in ys <==> x in multiset(ys);
    }
  }

  /** No two elements have the same tag. */
  ghost predicate DistinctBy<T, L>(xs: seq<T>, tag: T -> L) {
    forall i, j :: 0 <= i < j < |xs| ==> tag(xs[i]) != tag(xs[j])
  }

  lemma {:induction false} OnceAtMost<T, L>(xs: seq<T>, tag: T -> L, x: T)
    requires DistinctBy(xs, tag)
    ensures multiset(xs)[x] <= 1
  {
    if xs != [] {
      var most := xs[..|xs| - 1];
      assert xs == most + [xs[|xs| - 1]];
      OnceAtMost(most, tag, x);
      assert forall i :: 0 <= i < |most| ==> tag(most[i]) != tag(xs[|xs| - 1]);
    }
  }

  lemma TwiceAtLeast<T>(xs: seq<T>, i: nat, j: nat)
    requires i < j < |xs| && xs[i] == xs[j]
    ensures multiset(xs)[xs[i]] >= 2
  {
    assert xs == xs[..i] + [xs[i]] + xs[i + 1..j] + [xs[j]] + xs[j + 1..];
  }

  /** Distinctness does not depend on the order. */
  lemma DistinctAfterSorting<T, L>(xs: seq<T>, ys: seq<T>, tag: T -> L)
    requires DistinctBy(xs, tag) && multiset(xs) == multiset(ys)
    ensures DistinctBy(ys, tag)
  {
    forall i, j | 0 <= i < j < |ys|
      ensures tag(ys[i]) != tag(ys[j])
    {
      SameElements(xs, ys);
      assert ys[i] in xs && ys[j] in xs;
      OnceAtMost(xs, tag, ys[i]);
      if ys[i] == ys[j] {
        TwiceAtLeast(ys, i, j);
      }
    }
  }

  /** What is left out of a prefix of a sorted sequence is not below anything in the prefix. */
  lemma PrefixIsLeast<T>(xs: seq<T>, key: T -> real, k: nat)
    requires SortedBy(xs, key) && k <= |xs|
    ensures forall x, y :: x in xs[..k] && y in xs && y !in xs[..k] ==> key(x) <= key(y)
  {
    forall x, y | x in xs[..k] && y in xs && y !in xs[..k]
      ensures key(x) <= key(y)
    {
      var i :| 0 <= i < k && xs[i] == x;
      var j :| 0 <= j < |xs| && xs[j] == y;
      assert j >= k;
    }
  }

  /** What goes in before the last element precedes it. */
  lemma PrecedesLast<T>(xs: seq<T>, x: T, r: seq<T>, key: T -> real, stamp: T -> int)
    requires xs != [] && StrictlySorted(xs, key, stamp) && key(xs[|xs| - 1]) > key(x)
    requires multiset(r) == multiset(xs[..|xs| - 1]) + multiset{x}
    ensures forall i :: 0 <= i < |r| ==> Before(r[i], xs[|xs| - 1], key, stamp)
  {
    var most := xs[..|xs| - 1];
    forall i | 0 <= i < |r|
      ensures Before(r[i], xs[|xs| - 1], key, stamp)
    {
      assert r[i] in multiset(r);
      assert r[i] in multiset(most) || r[i] == x;
      if r[i] in multiset(most) {
        var j :| 0 <= j < |most| && most[j] == r[i];
        assert Before(xs[j], xs[|xs| - 1], key, stamp);
      }
    }
  }

  lemma StrictlySortedSnoc<T>(r: seq<T>, last: T, key: T -> real, stamp: T -> int)
    requires StrictlySorted(r, key, stamp) && forall i :: 0 <= i < |r| ==> Before(r[i], last, key, stamp)
    ensures StrictlySorted(r + [last], key, stamp)
  {
  }

  lemma {:induction false} InsertIsStable<T>(xs: seq<T>, x: T, key: T -> real, stamp: T -> int)
    requires SortedBy(xs, key) && StrictlySorted(xs, key, stamp)
    requires forall y :: y in xs && key(y) == key(x) ==> stamp(y) < stamp(x)
    ensures StrictlySorted(Insert(xs, x, key), key, stamp)
  {
    if xs != [] {
      var most, last := xs[..|xs| - 1], xs[|xs| - 1];
      if key(last) > key(x) {
        InsertIsStable(most, x, key, stamp);
        PrecedesLast(xs, x, Insert(most, x, key), key, stamp);
        StrictlySortedSnoc(Insert(most, x, key), last, key, stamp);
      } else {
        GoesLast(xs, x, key, stamp);
        StrictlySortedSnoc(xs, x, key, stamp);
      }
    }
  }

  lemma GoesLast<T>(xs: seq<T>, x: T, key: T -> real, stamp: T -> int)
    requires xs != [] && SortedBy(xs, key) && key(xs[|xs| - 1]) <= key(x)
    requires forall y :: y in xs && key(y) == key(x) ==> stamp(y) < stamp(x)
    ensures forall i :: 0 <= i < |xs| ==> Before(xs[i], x, key, stamp)
  {
    forall i | 0 <= i < |xs|
      ensures Before(xs[i], x, key, stamp)
    {
      assert xs[i] in xs && key(xs[i]) <= key(xs[|xs| - 1]);
    }
  }

  lemma LastHasGreatestStamp<T>(xs: seq<T>, ys: seq<T>, key: T -> real, stamp: T -> int)
    requires xs != [] && StampsIncrease(xs, key, stamp) && multiset(ys) == multiset(xs[..|xs| - 1])
    ensures forall y :: y in ys && key(y) == key(xs[|xs| - 1]) ==> stamp(y) < stamp(xs[|xs| - 1])
  {
    var most := xs[..|xs| - 1];
    SameElements(ys, most);
    forall y | y in ys && key(y) == key(xs[|xs| - 1])
      ensures stamp(y) < stamp(xs[|xs| - 1])
    {
      assert y in most;
      var i :| 0 <= i < |most| && most[i] == y;
      assert xs[i] == y;
    }
  }

  /** Stability: a stamp that increased under equal keys before sorting orders them afterwards. */
  lemma {:induction false} SortIsStable<T>(xs: seq<T>, key: T -> real, stamp: T -> int)
    requires StampsIncrease(xs, key, stamp)
    ensures StrictlySorted(SortBy(xs, key), key, stamp)
  {
    if xs != [] {
      var most, last := xs[..|xs| - 1], xs[|xs| - 1];
      assert StampsIncrease(most, key, stamp);
      SortIsStable(most, key, stamp);
      LastHasGreatestStamp(xs, SortBy(most, key), key, stamp);
      InsertIsStable(SortBy(most, key), last, key, stamp);
    }
  }
}
