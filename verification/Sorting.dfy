/** `Array.prototype.sort` with a descending score comparison: a stable sort. */
module Sorting {
  import opened Common

  function Insert<T>(sorted: seq<T>, x: T, score: T -> real): seq<T> {
    if sorted == [] then [x]
    else if score(sorted[0]) >= score(x) then [sorted[0]] + Insert(sorted[1..], x, score)
    else [x] + sorted
  }

  function StableSort<T>(xs: seq<T>, score: T -> real): seq<T> {
    if xs == [] then [] else Insert(StableSort(xs[..|xs| - 1], score), xs[|xs| - 1], score)
  }

  ghost predicate Descending<T>(xs: seq<T>, score: T -> real) {
    forall i, j :: 0 <= i < j < |xs| ==> score(xs[i]) >= score(xs[j])
  }

  /** The elements with one score, in the order they have. */
  function AtScore<T>(xs: seq<T>, score: T -> real, v: real): seq<T> {
    if xs == [] then [] else IfScore(xs[0], score, v) + AtScore(xs[1..], score, v)
  }

  function IfScore<T>(x: T, score: T -> real, v: real): seq<T> {
    if score(x) == v then [x] else []
  }

  lemma {:induction false} AtScoreAppend<T>(xs: seq<T>, x: T, score: T -> real, v: real)
    ensures AtScore(xs + [x], score, v) == AtScore(xs, score, v) + IfScore(x, score, v)
  {
    if xs == [] {
      assert [x][1..] == [] && xs + [x] == [x];
    } else {
      AtScoreAppend(xs[1..], x, score, v);
      var all := xs + [x];
      assert all[0] == xs[0] && all[1..] == xs[1..] + [x];
      Assoc(IfScore(xs[0], score, v), AtScore(xs[1..], score, v), IfScore(x, score, v));
    }
  }

  lemma {:induction false} AtScoreNone<T>(xs: seq<T>, score: T -> real, v: real)
    requires forall k :: 0 <= k < |xs| ==> score(xs[k]) != v
    ensures AtScore(xs, score, v) == []
  {
    if xs != [] {
      AtScoreNone(xs[1..], score, v);
    }
  }

  lemma DescendingCons<T>(head: T, rest: seq<T>, score: T -> real)
    requires Descending(rest, score) && (rest == [] || score(head) >= score(rest[0]))
    ensures Descending([head] + rest, score)
  {
  }

  lemma {:induction false} InsertDescending<T>(sorted: seq<T>, x: T, score: T -> real)
    requires Descending(sorted, score)
    ensures Descending(Insert(sorted, x, score), score)
  {
    if sorted != [] && score(sorted[0]) >= score(x) {
      InsertDescending(sorted[1..], x, score);
      DescendingCons(sorted[0], Insert(sorted[1..], x, score), score);
    } else if sorted != [] {
      DescendingCons(x, sorted, score);
    }
  }

  lemma {:induction false} InsertPermutes<T>(sorted: seq<T>, x: T, score: T -> real)
    ensures multiset(Insert(sorted, x, score)) == multiset(sorted) + multiset{x}
  {
    if sorted != [] && score(sorted[0]) >= score(x) {
      InsertPermutes(sorted[1..], x, score);
      assert sorted == [sorted[0]] + sorted[1..];
    }
  }

  lemma {:induction false} InsertAtScore<T>(sorted: seq<T>, x: T, score: T -> real, v: real)
    requires Descending(sorted, score)
    ensures AtScore(Insert(sorted, x, score), score, v) == AtScore(sorted, score, v) + IfScore(x, score, v)
  {
    if sorted == [] {
      assert [x][1..] == [];
    } else if score(sorted[0]) >= score(x) {
      var head, tail := sorted[0], sorted[1..];
      InsertAtScore(tail, x, score, v);
      assert ([head] + Insert(tail, x, score))[1..] == Insert(tail, x, score);
    } else {
      assert ([x] + sorted)[1..] == sorted;
      if v == score(x) {
        AtScoreNone(sorted, score, v);
      }
    }
  }

  /** Sorted, a permutation, and elements of equal score keep their order. */
  lemma {:induction false} SortSpec<T>(xs: seq<T>, score: T -> real)
    ensures Descending(StableSort(xs, score), score)
    ensures multiset(StableSort(xs, score)) == multiset(xs)
    ensures forall v :: AtScore(StableSort(xs, score), score, v) == AtScore(xs, score, v)
  {
    if xs != [] {
      var init, last := xs[..|xs| - 1], xs[|xs| - 1];
      SortSpec(init, score);
      InsertDescending(StableSort(init, score), last, score);
      InsertPermutes(StableSort(init, score), last, score);
      assert xs == init + [last];
      forall v ensures AtScore(StableSort(xs, score), score, v) == AtScore(xs, score, v) {
        InsertAtScore(StableSort(init, score), last, score, v);
        AtScoreAppend(init, last, score, v);
      }
    }
  }

  lemma {:induction false} AtScoreFirst<T>(xs: seq<T>, score: T -> real, v: real)
    requires Descending(xs, score) && AtScore(xs, score, v) != []
    ensures xs != [] && v <= score(xs[0]) && (v == score(xs[0]) ==> AtScore(xs, score, v)[0] == xs[0])
  {
    if score(xs[0]) != v {
      var tail := xs[1..];
      AtScoreFirst(tail, score, v);
      assert xs[1] == tail[0];
    }
  }

  /** These properties determine the result: there is only one stable descending order. */
  lemma {:induction false} SortUnique<T>(xs: seq<T>, ys: seq<T>, score: T -> real)
    requires Descending(xs, score) && Descending(ys, score)
    requires forall v :: AtScore(xs, score, v) == AtScore(ys, score, v)
    ensures xs == ys
  {
    NonemptyTogether(xs, ys, score);
    NonemptyTogether(ys, xs, score);
    if xs != [] {
      var v := score(xs[0]);
      AtScoreFirst(xs, score, v);
      AtScoreFirst(ys, score, v);
      AtScoreFirst(xs, score, score(ys[0]));
      var xt, yt := xs[1..], ys[1..];
      forall w ensures AtScore(xt, score, w) == AtScore(yt, score, w) {
        assert AtScore(xs, score, w) == AtScore(ys, score, w);
        CancelHead(IfScore(xs[0], score, w), AtScore(xt, score, w), AtScore(yt, score, w));
      }
      SortUnique(xt, yt, score);
      assert xs == [xs[0]] + xt && ys == [ys[0]] + yt;
    }
  }

  lemma NonemptyTogether<T>(xs: seq<T>, ys: seq<T>, score: T -> real)
    requires forall v :: AtScore(xs, score, v) == AtScore(ys, score, v)
    ensures xs != [] ==> ys != []
  {
    if xs != [] {
      assert AtScore(xs, score, score(xs[0])) == AtScore(ys, score, score(xs[0]));
    }
  }

  lemma CancelHead<T>(h: seq<T>, a: seq<T>, b: seq<T>)
    requires h + a == h + b
    ensures a == b
  {
    assert a == (h + a)[|h|..] && b == (h + b)[|h|..];
  }
}
