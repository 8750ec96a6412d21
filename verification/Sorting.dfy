/** A sort by a comparison, standing for the standard library's `sort_by`. */
module Sorting {

  ghost predicate TotalPreorder<T(!new)>(le: (T, T) -> bool) {
    && (forall x, y :: le(x, y) || le(y, x))
    && (forall x, y, z :: le(x, y) && le(y, z) ==> le(x, z))
  }

  /** No two different members of `xs` compare as equal. */
  ghost predicate AntisymmetricOn<T>(le: (T, T) -> bool, xs: seq<T>) {
    forall x, y | x in xs && y in xs && le(x, y) && le(y, x) :: x == y
  }

  ghost predicate Sorted<T>(le: (T, T) -> bool, xs: seq<T>) {
    forall i, j | 0 <= i < j < |xs| :: le(xs[i], xs[j])
  }

  function Insert<T>(le: (T, T) -> bool, x: T, xs: seq<T>): seq<T> {
    if xs == [] then [x]
    else if le(x, xs[0]) then [x] + xs
    else [xs[0]] + Insert(le, x, xs[1..])
  }

  function Sort<T>(le: (T, T) -> bool, xs: seq<T>): seq<T> {
    if xs == [] then [] else Insert(le, xs[0], Sort(le, xs[1..]))
  }

  lemma {:induction false} InsertKeeps<T(!new)>(le: (T, T) -> bool, x: T, xs: seq<T>)
    ensures multiset(Insert(le, x, xs)) == multiset{x} + multiset(xs)
    ensures |Insert(le, x, xs)| == |xs| + 1
    ensures TotalPreorder(le) && Sorted(le, xs) ==> Sorted(le, Insert(le, x, xs))
  {
    if xs != [] {
      assert xs == [xs[0]] + xs[1..];
      InsertKeeps(le, x, xs[1..]);
      if TotalPreorder(le) && Sorted(le, xs) && !le(x, xs[0]) {
        var tail := Insert(le, x, xs[1..]);
        forall j | 0 <= j < |tail| ensures le(xs[0], tail[j]) {
          assert tail[j] in multiset(tail);
          assert tail[j] == x || tail[j] in xs[1..];
        }
      }
    }
  }

  /** The result is a sorted rearrangement of the input. */
  lemma {:induction false} SortSorts<T(!new)>(le: (T, T) -> bool, xs: seq<T>)
    ensures multiset(Sort(le, xs)) == multiset(xs)
    ensures |Sort(le, xs)| == |xs|
    ensures TotalPreorder(le) ==> Sorted(le, Sort(le, xs))
  {
    if xs != [] {
      assert xs == [xs[0]] + xs[1..];
      SortSorts(le, xs[1..]);
      InsertKeeps(le, xs[0], Sort(le, xs[1..]));
    }
  }

  /** A multiset has only one sorted listing, so which algorithm sorts is immaterial. */
  lemma {:induction false} SortedUnique<T(!new)>(le: (T, T) -> bool, xs: seq<T>, ys: seq<T>)
    requires multiset(xs) == multiset(ys)
    requires TotalPreorder(le) && AntisymmetricOn(le, xs)
    requires Sorted(le, xs) && Sorted(le, ys)
    ensures xs == ys
  {
    assert |xs| == |multiset(xs)| == |multiset(ys)| == |ys|;
    if xs != [] {
      assert xs[0] in multiset(ys) && ys[0] in multiset(xs);
      SortedHead(le, xs, ys[0]);
      SortedHead(le, ys, xs[0]);
      WithoutHead(xs);
      WithoutHead(ys);
      SortedUnique(le, xs[1..], ys[1..]);
    }
  }

  /** The head of a sorted list is below every member. */
  lemma SortedHead<T(!new)>(le: (T, T) -> bool, xs: seq<T>, x: T)
    requires TotalPreorder(le) && Sorted(le, xs) && x in xs
    ensures le(xs[0], x)
  {
    assert le(x, x);
  }

  lemma WithoutHead<T>(xs: seq<T>)
    requires xs != []
    ensures multiset(xs[1..]) == multiset(xs) - multiset{xs[0]}
    ensures xs == [xs[0]] + xs[1..]
  {
    assert xs == [xs[0]] + xs[1..];
  }

  /** Sorting what is already sorted changes nothing. */
  lemma {:induction false} SortOfSorted<T(!new)>(le: (T, T) -> bool, xs: seq<T>)
    requires TotalPreorder(le) && Sorted(le, xs)
    ensures Sort(le, xs) == xs
  {
    if xs != [] {
      SortOfSorted(le, xs[1..]);
    }
  }
}
