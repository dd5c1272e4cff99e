/**
 * The two list operations the web app hands to the JavaScript runtime:
 * `Array.prototype.sort` with a comparator, modelled as the stable
 * insertion sort that puts each element before the first one the
 * comparator says it precedes, and keep-if filtering in list order.
 */
module StableSort {

  // ---------------------------------------------------------------------
  // Filtering.

  /** The elements of `s` for which `keep` holds, in their order in `s`. */
  function Filter<T>(s: seq<T>, keep: T -> bool): seq<T> {
    if s == [] then []
    else Filter(s[..|s| - 1], keep) + if keep(s[|s| - 1]) then [s[|s| - 1]] else []
  }

  /** An element is kept exactly when it is in `s` and passes. */
  lemma {:induction false} FilterMembers<T>(s: seq<T>, keep: T -> bool, x: T)
    ensures x in Filter(s, keep) <==> x in s && keep(x)
  {
    if s != [] {
      var init := s[..|s| - 1];
      FilterMembers(init, keep, x);
      assert s == init + [s[|s| - 1]];
    }
  }

  /** Filtering works piece by piece, so it keeps the order of the list. */
  lemma {:induction false} FilterAppend<T>(a: seq<T>, b: seq<T>, keep: T -> bool)
    ensures Filter(a + b, keep) == Filter(a, keep) + Filter(b, keep)
    decreases |b|
  {
    if b == [] {
      assert a + b == a;
    } else {
      var init := b[..|b| - 1];
      FilterAppend(a, init, keep);
      assert (a + b)[..|a + b| - 1] == a + init;
    }
  }

  /** Nothing is dropped when everything passes. */
  lemma {:induction false} FilterAllPass<T>(s: seq<T>, keep: T -> bool)
    requires forall k | 0 <= k < |s| :: keep(s[k])
    ensures Filter(s, keep) == s
  {
    if s != [] {
      FilterAllPass(s[..|s| - 1], keep);
    }
  }

  // ---------------------------------------------------------------------
  // Sorting.

  /** `x` placed just before the first element of `s` it comes before, or at the end. */
  function Insert<T>(s: seq<T>, x: T, before: (T, T) -> bool): seq<T> {
    if s == [] then [x]
    else if before(x, s[0]) then [x] + s
    else [s[0]] + Insert(s[1..], x, before)
  }

  /** Inserting adds the one element and loses none. */
  lemma {:induction false} InsertPermutes<T>(s: seq<T>, x: T, before: (T, T) -> bool)
    ensures multiset(Insert(s, x, before)) == multiset(s) + multiset{x}
  {
    if s != [] {
      assert s == [s[0]] + s[1..];
      if !before(x, s[0]) {
        InsertPermutes(s[1..], x, before);
      }
    }
  }

  /** The elements of `s` inserted one by one, in order, into a growing sorted prefix. */
  function Sort<T>(s: seq<T>, before: (T, T) -> bool): seq<T> {
    if s == [] then [] else Insert(Sort(s[..|s| - 1], before), s[|s| - 1], before)
  }

  /** Sorting only rearranges. */
  lemma {:induction false} SortPermutes<T>(s: seq<T>, before: (T, T) -> bool)
    ensures multiset(Sort(s, before)) == multiset(s)
  {
    if s != [] {
      SortPermutes(s[..|s| - 1], before);
      InsertPermutes(Sort(s[..|s| - 1], before), s[|s| - 1], before);
      assert s == s[..|s| - 1] + [s[|s| - 1]];
    }
  }

  /** A comparator that never says "before" (one that always returns 0) leaves the list as it is. */
  lemma {:induction false} SortKeepsOrder<T>(s: seq<T>, before: (T, T) -> bool)
    requires forall x, y :: !before(x, y)
    ensures Sort(s, before) == s
  {
    if s != [] {
      var init := s[..|s| - 1];
      SortKeepsOrder(init, before);
      InsertAtEnd(init, s[|s| - 1], before);
    }
  }

  lemma {:induction false} InsertAtEnd<T>(s: seq<T>, x: T, before: (T, T) -> bool)
    requires forall y :: !before(x, y)
    ensures Insert(s, x, before) == s + [x]
  {
    if s != [] {
      InsertAtEnd(s[1..], x, before);
      assert Insert(s, x, before) == [s[0]] + Insert(s[1..], x, before);
      assert s + [x] == [s[0]] + (s[1..] + [x]);
    }
  }

  /** `le` holds for every pair in list order. */
  predicate Ordered<T>(s: seq<T>, le: (T, T) -> bool) {
    forall i, j | 0 <= i < j < |s| :: le(s[i], s[j])
  }

  /**
   * On the elements of `dom`, `le` is transitive, and the comparator agrees
   * with it: an element it puts before another is `le` it, and one it does
   * not is `le` the other way round.
   */
  predicate Agrees<T>(before: (T, T) -> bool, le: (T, T) -> bool, dom: set<T>) {
    (forall x, y, z | x in dom && y in dom && z in dom :: le(x, y) && le(y, z) ==> le(x, z))
    && (forall x, y | x in dom && y in dom :: before(x, y) ==> le(x, y))
    && (forall x, y | x in dom && y in dom :: !before(x, y) ==> le(y, x))
  }

  /** A head that is `le` everything after it, on an ordered list, gives an ordered list. */
  lemma ConsOrdered<T>(h: T, rest: seq<T>, le: (T, T) -> bool)
    requires Ordered(rest, le) && forall e | e in rest :: le(h, e)
    ensures Ordered([h] + rest, le)
  {
    var r := [h] + rest;
    forall i, j | 0 <= i < j < |r|
      ensures le(r[i], r[j])
    {
      assert r[j] == rest[j - 1] && r[j] in rest;
      if i > 0 {
        assert r[i] == rest[i - 1];
      }
    }
  }

  lemma {:induction false} InsertOrdered<T>(s: seq<T>, x: T, before: (T, T) -> bool, le: (T, T) -> bool, dom: set<T>)
    requires Agrees(before, le, dom) && x in dom && (forall k | 0 <= k < |s| :: s[k] in dom)
    requires Ordered(s, le)
    ensures Ordered(Insert(s, x, before), le)
  {
    if s != [] && !before(x, s[0]) {
      var tail := s[1..];
      assert forall k | 0 <= k < |tail| :: tail[k] == s[k + 1];
      InsertOrdered(tail, x, before, le, dom);
      InsertBehind(s, x, before, le, dom);
    } else if s != [] {
      forall e | e in s
        ensures le(x, e)
      {
        var k :| 0 <= k < |s| && s[k] == e;
        if k > 0 {
          assert le(s[0], s[k]);
        }
      }
      ConsOrdered(x, s, le);
    }
  }

  /** The step of `InsertOrdered` where `x` goes behind the head. */
  lemma InsertBehind<T>(s: seq<T>, x: T, before: (T, T) -> bool, le: (T, T) -> bool, dom: set<T>)
    requires Agrees(before, le, dom) && x in dom && (forall k | 0 <= k < |s| :: s[k] in dom)
    requires s != [] && !before(x, s[0]) && Ordered(s, le)
    requires Ordered(Insert(s[1..], x, before), le)
    ensures Ordered(Insert(s, x, before), le)
  {
    var tail := s[1..];
    var rest := Insert(tail, x, before);
    InsertPermutes(tail, x, before);
    forall e | e in rest
      ensures le(s[0], e)
    {
      assert e in multiset(rest);
      if e != x {
        assert e in multiset(tail);
        var k :| 0 <= k < |tail| && tail[k] == e;
        assert s[k + 1] == e;
      }
    }
    ConsOrdered(s[0], rest, le);
  }

  /** With a comparator that agrees with `le` on its elements, the sorted list is ordered by `le`. */
  lemma {:induction false} SortOrdered<T>(s: seq<T>, before: (T, T) -> bool, le: (T, T) -> bool, dom: set<T>)
    requires Agrees(before, le, dom) && forall k | 0 <= k < |s| :: s[k] in dom
    ensures Ordered(Sort(s, before), le)
  {
    if s != [] {
      var init := s[..|s| - 1];
      SortOrdered(init, before, le, dom);
      var sorted := Sort(init, before);
      SortPermutes(init, before);
      forall k | 0 <= k < |sorted|
        ensures sorted[k] in dom
      {
        assert sorted[k] in multiset(init);
        var m :| 0 <= m < |init| && init[m] == sorted[k];
      }
      InsertOrdered(sorted, s[|s| - 1], before, le, dom);
    }
  }
}
