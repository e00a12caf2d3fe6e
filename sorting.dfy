/**
 * Ordering documents by a string field, as Firestore's `orderBy(field, dir)`
 * and `array.sort((a, b) => (a.f || '').localeCompare(b.f || ''))` do.
 */
module Sorting {
  import opened Strings
  import opened Documents

  /** `a` may stand before `b` when ordering by `key` in the given direction. */
  predicate Before(a: Doc, b: Doc, key: string, descending: bool)
  {
    if descending then LexLeq(KeyOf(b, key), KeyOf(a, key)) else LexLeq(KeyOf(a, key), KeyOf(b, key))
  }

  lemma BeforeTotal(a: Doc, b: Doc, key: string, descending: bool)
    ensures Before(a, b, key, descending) || Before(b, a, key, descending)
  {
    LexLeqTotal(KeyOf(a, key), KeyOf(b, key));
  }

  lemma BeforeTransitive(a: Doc, b: Doc, c: Doc, key: string, descending: bool)
    requires Before(a, b, key, descending) && Before(b, c, key, descending)
    ensures Before(a, c, key, descending)
  {
    if descending {
      LexLeqTransitive(KeyOf(c, key), KeyOf(b, key), KeyOf(a, key));
    } else {
      LexLeqTransitive(KeyOf(a, key), KeyOf(b, key), KeyOf(c, key));
    }
  }

  predicate SortedBy(xs: seq<Doc>, key: string, descending: bool)
  {
    forall i, j :: 0 <= i < j < |xs| ==> Before(xs[i], xs[j], key, descending)
  }

  /** Places `x` into an ordered sequence, ahead of the first element it may precede. */
  function Insert(x: Doc, xs: seq<Doc>, key: string, descending: bool): (r: seq<Doc>)
    requires SortedBy(xs, key, descending)
    ensures SortedBy(r, key, descending)
    ensures multiset(r) == multiset(xs) + multiset{x}
  {
    if |xs| == 0 then [x]
    else if Before(x, xs[0], key, descending) then
      InsertInFront(x, xs, key, descending);
      [x] + xs
    else
      SortedTail(xs, key, descending);
      var rest := Insert(x, xs[1..], key, descending);
      InsertStep(x, xs, rest, key, descending);
      [xs[0]] + rest
  }

  lemma SortedTail(xs: seq<Doc>, key: string, descending: bool)
    requires SortedBy(xs, key, descending) && |xs| > 0
    ensures SortedBy(xs[1..], key, descending)
    ensures forall j :: 0 <= j < |xs| - 1 ==> Before(xs[0], xs[1..][j], key, descending)
  {
    var tail := xs[1..];
    assert forall i :: 0 <= i < |tail| ==> tail[i] == xs[i + 1];
  }

  /** Inserting behind the head of an ordered sequence, when `x` may not go in front. */
  lemma InsertStep(x: Doc, xs: seq<Doc>, rest: seq<Doc>, key: string, descending: bool)
    requires SortedBy(xs, key, descending) && |xs| > 0 && !Before(x, xs[0], key, descending)
    requires SortedBy(rest, key, descending)
    requires multiset(rest) == multiset(xs[1..]) + multiset{x}
    ensures SortedBy([xs[0]] + rest, key, descending)
    ensures multiset([xs[0]] + rest) == multiset(xs) + multiset{x}
  {
    var tail := xs[1..];
    SortedTail(xs, key, descending);
    BeforeTotal(x, xs[0], key, descending);
    InsertBehind(xs[0], rest, x, tail, key, descending);
    assert xs == [xs[0]] + tail;
  }

  lemma InsertInFront(x: Doc, xs: seq<Doc>, key: string, descending: bool)
    requires SortedBy(xs, key, descending) && |xs| > 0 && Before(x, xs[0], key, descending)
    ensures SortedBy([x] + xs, key, descending)
  {
    var r := [x] + xs;
    forall i, j | 0 <= i < j < |r| ensures Before(r[i], r[j], key, descending) {
      if i == 0 && j > 1 {
        BeforeTransitive(x, xs[0], xs[j - 1], key, descending);
      }
    }
  }

  lemma InsertBehind(y: Doc, rest: seq<Doc>, x: Doc, tail: seq<Doc>, key: string, descending: bool)
    requires SortedBy(rest, key, descending)
    requires multiset(rest) == multiset(tail) + multiset{x}
    requires Before(y, x, key, descending)
    requires forall j :: 0 <= j < |tail| ==> Before(y, tail[j], key, descending)
    ensures SortedBy([y] + rest, key, descending)
  {
    forall k | 0 <= k < |rest| ensures Before(y, rest[k], key, descending) {
      BehindMember(y, rest[k], rest, x, tail, key, descending);
    }
    var r := [y] + rest;
    forall i, j | 0 <= i < j < |r| ensures Before(r[i], r[j], key, descending) {
      if i == 0 {
        assert r[j] == rest[j - 1];
      } else {
        assert r[i] == rest[i - 1] && r[j] == rest[j - 1];
      }
    }
  }

  lemma BehindMember(y: Doc, z: Doc, rest: seq<Doc>, x: Doc, tail: seq<Doc>, key: string, descending: bool)
    requires z in rest
    requires multiset(rest) == multiset(tail) + multiset{x}
    requires Before(y, x, key, descending)
    requires forall j :: 0 <= j < |tail| ==> Before(y, tail[j], key, descending)
    ensures Before(y, z, key, descending)
  {
    assert z in multiset(rest);
    if z != x {
      assert z in multiset(tail);
      var k :| 0 <= k < |tail| && tail[k] == z;
    }
  }

  /** The documents of `xs` in order of `key`; a document without the field
      counts as having the empty string there. */
  function SortBy(xs: seq<Doc>, key: string, descending: bool): (r: seq<Doc>)
    ensures SortedBy(r, key, descending)
    ensures multiset(r) == multiset(xs)
  {
    if |xs| == 0 then []
    else
      assert xs == [xs[0]] + xs[1..];
      Insert(xs[0], SortBy(xs[1..], key, descending), key, descending)
  }
}
