/** The stable descending sort by a key that `maploc/src/loop_closer.rs` and
    `maploc/src/mapper.rs` ask their library for. */
module Sorting {

  /** Largest key first, equal keys in the order they came. */
  function By<T(!new)>(key: T -> nat, xs: seq<T>): seq<T>
  {
    if |xs| == 0 then [] else Inserted(key, xs[0], By(key, xs[1..]))
  }

  function Inserted<T(!new)>(key: T -> nat, x: T, sorted: seq<T>): seq<T>
  {
    if |sorted| == 0 || key(x) >= key(sorted[0]) then [x] + sorted else [sorted[0]] + Inserted(key, x, sorted[1..])
  }

  ghost predicate Descending<T(!new)>(key: T -> nat, xs: seq<T>)
  {
    forall i, j :: 0 <= i < j < |xs| ==> key(xs[i]) >= key(xs[j])
  }

  lemma {:induction false} InsertedStaysSorted<T(!new)>(key: T -> nat, x: T, sorted: seq<T>)
    requires Descending(key, sorted)
    ensures Descending(key, Inserted(key, x, sorted)) && forall y ::
              y in Inserted(key, x, sorted) <==> y == x || y in sorted
  {
    if |sorted| > 0 && key(x) < key(sorted[0]) {
      InsertedStaysSorted(key, x, sorted[1..]);
      assert sorted == [sorted[0]] + sorted[1..];
      var rest := Inserted(key, x, sorted[1..]);
      forall j | 0 <= j < |rest| ensures key(sorted[0]) >= key(rest[j]) {
        assert rest[j] == x || rest[j] in sorted[1..];
      }
    }
  }

  lemma {:induction false} BySorts<T(!new)>(key: T -> nat, xs: seq<T>)
    ensures Descending(key, By(key, xs)) && forall y :: y in By(key, xs) <==> y in xs
  {
    if |xs| > 0 {
      BySorts(key, xs[1..]);
      InsertedStaysSorted(key, xs[0], By(key, xs[1..]));
      assert xs == [xs[0]] + xs[1..];
    }
  }

  /** Those with one key, in order. */
  ghost function Keyed<T(!new)>(key: T -> nat, k: nat, xs: seq<T>): seq<T>
  {
    if |xs| == 0 then [] else (if key(xs[0]) == k then [xs[0]] else []) + Keyed(key, k, xs[1..])
  }

  lemma {:induction false} InsertedComesFirst<T(!new)>(key: T -> nat, k: nat, x: T, sorted: seq<T>)
    ensures Keyed(key, k, Inserted(key, x, sorted)) == Keyed(key, k, [x]) + Keyed(key, k, sorted)
  {
    if |sorted| == 0 || key(x) >= key(sorted[0]) {
      assert ([x] + sorted)[1..] == sorted;
    } else {
      InsertedComesFirst(key, k, x, sorted[1..]);
      var rest := Inserted(key, x, sorted[1..]);
      assert ([sorted[0]] + rest)[1..] == rest;
    }
  }

  /** Nothing is lost or repeated, and equal keys stay in order. */
  lemma {:induction false} ByIsStable<T(!new)>(key: T -> nat, k: nat, xs: seq<T>)
    ensures Keyed(key, k, By(key, xs)) == Keyed(key, k, xs)
  {
    if |xs| > 0 {
      ByIsStable(key, k, xs[1..]);
      InsertedComesFirst(key, k, xs[0], By(key, xs[1..]));
    }
  }
}
