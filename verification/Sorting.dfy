/** The stable sort of `slice::sort_by`, as a function of the comparison. */
module Sorting {
  /** Inserts before the first element that must come later, so equal elements keep their order. */
  function Insert<T>(x: T, sorted: seq<T>, before: (T, T) -> bool): seq<T> {
    if sorted == [] || !before(sorted[0], x) then [x] + sorted
    else [sorted[0]] + Insert(x, sorted[1..], before)
  }

  function StableSort<T>(xs: seq<T>, before: (T, T) -> bool): seq<T> {
    if xs == [] then [] else Insert(xs[0], StableSort(xs[1..], before), before)
  }

  /** `before` is the strict part of a total preorder. */
  ghost predicate StrictWeak<T(!new)>(before: (T, T) -> bool) {
    && (forall a, b :: before(a, b) ==> !before(b, a))
    && (forall a, b, c :: before(a, b) ==> before(a, c) || before(c, b))
  }

  ghost predicate Sorted<T(!new)>(xs: seq<T>, before: (T, T) -> bool) {
    forall i, j :: 0 <= i < j < |xs| ==> !before(xs[j], xs[i])
  }

  lemma {:induction false} InsertElements<T>(x: T, sorted: seq<T>, before: (T, T) -> bool)
    ensures multiset(Insert(x, sorted, before)) == multiset([x]) + multiset(sorted)
  {
    if sorted == [] || !before(sorted[0], x) {
    } else {
      InsertElements(x, sorted[1..], before);
      assert sorted == [sorted[0]] + sorted[1..];
    }
  }

  lemma {:induction false} SortKeepsElements<T>(xs: seq<T>, before: (T, T) -> bool)
    ensures multiset(StableSort(xs, before)) == multiset(xs)
    ensures |StableSort(xs, before)| == |xs|
  {
    if xs != [] {
      SortKeepsElements(xs[1..], before);
      InsertElements(xs[0], StableSort(xs[1..], before), before);
      assert xs == [xs[0]] + xs[1..];
      assert |multiset(StableSort(xs, before))| == |StableSort(xs, before)|;
      assert |multiset(xs)| == |xs|;
    }
  }

  lemma {:induction false} InsertSorted<T(!new)>(x: T, sorted: seq<T>, before: (T, T) -> bool)
    requires StrictWeak(before) && Sorted(sorted, before)
    ensures Sorted(Insert(x, sorted, before), before)
  {
    var r := Insert(x, sorted, before);
    if sorted == [] {
    } else if !before(sorted[0], x) {
      forall i, j | 0 <= i < j < |r| ensures !before(r[j], r[i]) {
        assert r[j] == sorted[j - 1];
        if i > 0 {
          assert r[i] == sorted[i - 1] && r[j] == sorted[j - 1];
        }
      }
    } else {
      var rest := Insert(x, sorted[1..], before);
      InsertSorted(x, sorted[1..], before);
      InsertElements(x, sorted[1..], before);
      forall i, j | 0 <= i < j < |r| ensures !before(r[j], r[i]) {
        if i == 0 {
          assert r[j] == rest[j - 1] && rest[j - 1] in multiset(rest);
          if r[j] != x {
            assert r[j] in sorted[1..];
            var k :| 1 <= k < |sorted| && sorted[k] == r[j];
          }
        } else {
          assert r[i] == rest[i - 1] && r[j] == rest[j - 1];
        }
      }
    }
  }

  lemma {:induction false} SortSorts<T(!new)>(xs: seq<T>, before: (T, T) -> bool)
    requires StrictWeak(before)
    ensures Sorted(StableSort(xs, before), before)
  {
    if xs != [] {
      SortSorts(xs[1..], before);
      InsertSorted(xs[0], StableSort(xs[1..], before), before);
    }
  }

  function Filter<T>(p: T -> bool, xs: seq<T>): seq<T> {
    if xs == [] then [] else (if p(xs[0]) then [xs[0]] else []) + Filter(p, xs[1..])
  }

  lemma FilterFirst<T>(p: T -> bool, x: T, rest: seq<T>)
    ensures Filter(p, [x] + rest) == (if p(x) then [x] else []) + Filter(p, rest)
  {
    assert ([x] + rest)[0] == x && ([x] + rest)[1..] == rest;
  }

  lemma {:induction false} FilterInsert<T(!new)>(p: T -> bool, x: T, sorted: seq<T>, before: (T, T) -> bool)
    requires forall a, b {:trigger before(a, b)} :: p(a) && p(b) ==> !before(a, b)
    ensures Filter(p, Insert(x, sorted, before)) == (if p(x) then [x] else []) + Filter(p, sorted)
  {
    if sorted == [] || !before(sorted[0], x) {
      FilterFirst(p, x, sorted);
    } else {
      var first, rest := sorted[0], sorted[1..];
      assert sorted == [first] + rest;
      FilterInsert(p, x, rest, before);
      FilterFirst(p, first, Insert(x, rest, before));
      FilterFirst(p, first, rest);
    }
  }

  /** Stability: among elements none of which comes before another the order is kept. */
  lemma {:induction false} SortIsStable<T(!new)>(p: T -> bool, xs: seq<T>, before: (T, T) -> bool)
    requires forall a, b {:trigger before(a, b)} :: p(a) && p(b) ==> !before(a, b)
    ensures Filter(p, StableSort(xs, before)) == Filter(p, xs)
  {
    if xs != [] {
      SortIsStable(p, xs[1..], before);
      FilterInsert(p, xs[0], StableSort(xs[1..], before), before);
    }
  }

  lemma {:induction false} FilterMeaning<T>(p: T -> bool, xs: seq<T>)
    ensures forall x :: x in Filter(p, xs) <==> x in xs && p(x)
    ensures |Filter(p, xs)| <= |xs|
  {
    if xs != [] {
      FilterMeaning(p, xs[1..]);
      assert xs == [xs[0]] + xs[1..];
    }
  }

  /** A filter keeps what it accepts as often as it occurs. */
  lemma {:induction false} FilterCounts<T>(p: T -> bool, xs: seq<T>, t: T)
    ensures multiset(Filter(p, xs))[t] == if p(t) then multiset(xs)[t] else 0
  {
    if xs != [] {
      FilterCounts(p, xs[1..], t);
      assert xs == [xs[0]] + xs[1..];
    }
  }
}
