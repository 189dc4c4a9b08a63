/** Stable sorting, filtering and paging of listings. */
module Ordering {
  ghost predicate TotalPreorder<T(!new)>(leq: (T, T) -> bool) {
    && (forall a, b :: leq(a, b) || leq(b, a))
    && (forall a, b, c :: leq(a, b) && leq(b, c) ==> leq(a, c))
  }

  ghost predicate Ordered<T>(s: seq<T>, leq: (T, T) -> bool) {
    forall i, j :: 0 <= i < j < |s| ==> leq(s[i], s[j])
  }

  function Insert<T>(x: T, s: seq<T>, leq: (T, T) -> bool): seq<T> {
    if s == [] || leq(x, s[0]) then [x] + s else [s[0]] + Insert(x, s[1..], leq)
  }

  /** Equal elements keep the order they came in, as `list.sort` keeps it in either direction. */
  function StableSort<T>(s: seq<T>, leq: (T, T) -> bool): seq<T> {
    if s == [] then [] else Insert(s[0], StableSort(s[1..], leq), leq)
  }

  function Filter<T>(s: seq<T>, keep: T -> bool): seq<T> {
    if s == [] then [] else (if keep(s[0]) then [s[0]] else []) + Filter(s[1..], keep)
  }

  /** `s[offset : offset + limit]`, at any offset. */
  function Page<T>(s: seq<T>, offset: nat, limit: nat): seq<T> {
    var rest := if offset <= |s| then s[offset..] else [];
    if limit <= |rest| then rest[..limit] else rest
  }

  /** One ordering, and another among its ties. */
  ghost predicate LexOrdered<T>(s: seq<T>, first: (T, T) -> bool, second: (T, T) -> bool) {
    forall i, j :: 0 <= i < j < |s| ==> first(s[i], s[j]) && (first(s[j], s[i]) ==> second(s[i], s[j]))
  }

  lemma {:induction false} InsertPermutes<T>(x: T, s: seq<T>, leq: (T, T) -> bool)
    ensures multiset(Insert(x, s, leq)) == multiset{x} + multiset(s)
  {
    if s == [] || leq(x, s[0]) {
    } else {
      InsertPermutes(x, s[1..], leq);
      assert s == [s[0]] + s[1..];
    }
  }

  lemma {:induction false} SortPermutes<T>(s: seq<T>, leq: (T, T) -> bool)
    ensures multiset(StableSort(s, leq)) == multiset(s)
  {
    if s == [] {
    } else {
      SortPermutes(s[1..], leq);
      InsertPermutes(s[0], StableSort(s[1..], leq), leq);
      assert s == [s[0]] + s[1..];
    }
  }

  /** What is in a permutation is in the sequence. */
  lemma {:induction false} PermutedMembers<T>(s: seq<T>, t: seq<T>)
    requires multiset(s) == multiset(t)
    ensures |s| == |t|
    ensures forall x :: x in s <==> x in t
  {
    assert |multiset(s)| == |s| && |multiset(t)| == |t|;
    forall x
      ensures x in s <==> x in t
    {
      assert x in s <==> x in multiset(s);
      assert x in t <==> x in multiset(t);
    }
  }

  lemma {:induction false} HeadJoins<T>(x: T, s: seq<T>, first: (T, T) -> bool, second: (T, T) -> bool)
    requires LexOrdered(s, first, second)
    requires forall y :: y in s ==> first(x, y) && (first(y, x) ==> second(x, y))
    ensures LexOrdered([x] + s, first, second)
  {
  }

  lemma {:induction false} InsertOrders<T(!new)>(x: T, s: seq<T>, first: (T, T) -> bool, second: (T, T) -> bool)
    requires TotalPreorder(first) && LexOrdered(s, first, second)
    requires forall y :: y in s ==> second(x, y)
    ensures LexOrdered(Insert(x, s, first), first, second)
  {
    if s == [] {
    } else if first(x, s[0]) {
      assert forall y :: y in s ==> y == s[0] || first(s[0], y);
      HeadJoins(x, s, first, second);
    } else {
      var rest := Insert(x, s[1..], first);
      InsertOrders(x, s[1..], first, second);
      InsertPermutes(x, s[1..], first);
      PermutedMembers(rest, [x] + s[1..]);
      HeadJoins(s[0], rest, first, second);
    }
  }

  /** Sorting what is already in one order by another orders it by the two together. */
  lemma {:induction false} SortRefines<T(!new)>(s: seq<T>, first: (T, T) -> bool, second: (T, T) -> bool)
    requires TotalPreorder(first) && Ordered(s, second)
    ensures LexOrdered(StableSort(s, first), first, second)
  {
    if s == [] {
    } else {
      var rest := StableSort(s[1..], first);
      SortRefines(s[1..], first, second);
      SortPermutes(s[1..], first);
      PermutedMembers(rest, s[1..]);
      InsertOrders(s[0], rest, first, second);
    }
  }

  lemma {:induction false} SortOrders<T(!new)>(s: seq<T>, leq: (T, T) -> bool)
    requires TotalPreorder(leq)
    ensures Ordered(StableSort(s, leq), leq)
  {
    SortRefines(s, leq, (a, b) => true);
  }

  /** Two orderings of the same elements are one, where ties are equal. */
  lemma {:induction false} OrderIsUnique<T(!new)>(s: seq<T>, t: seq<T>, first: (T, T) -> bool, second: (T, T) -> bool)
    requires LexOrdered(s, first, second) && LexOrdered(t, first, second) && multiset(s) == multiset(t)
    requires TiesAreEqual(s, first, second)
    ensures s == t
  {
    PermutedMembers(s, t);
    if s == [] {
    } else {
      assert s[0] in t && t[0] in s;
      HeadsAgree(s, t, first, second);
      TailsPermuted(s, t);
      OrderIsUnique(s[1..], t[1..], first, second);
      assert s == [s[0]] + s[1..] && t == [t[0]] + t[1..];
    }
  }

  predicate Tied<T>(a: T, b: T, first: (T, T) -> bool, second: (T, T) -> bool) {
    first(a, b) && first(b, a) && second(a, b) && second(b, a)
  }

  ghost predicate TiesAreEqual<T>(s: seq<T>, first: (T, T) -> bool, second: (T, T) -> bool) {
    forall i, j :: 0 <= i < |s| && 0 <= j < |s| && Tied(s[i], s[j], first, second) ==> s[i] == s[j]
  }

  lemma {:induction false} TailsPermuted<T>(s: seq<T>, t: seq<T>)
    requires s != [] && t != [] && s[0] == t[0] && multiset(s) == multiset(t)
    ensures multiset(s[1..]) == multiset(t[1..])
  {
    assert s == [s[0]] + s[1..] && t == [t[0]] + t[1..];
    assert multiset(s[1..]) == multiset(s) - multiset{s[0]};
    assert multiset(t[1..]) == multiset(t) - multiset{t[0]};
  }

  lemma {:induction false} HeadsAgree<T(!new)>(s: seq<T>, t: seq<T>, first: (T, T) -> bool, second: (T, T) -> bool)
    requires LexOrdered(s, first, second) && LexOrdered(t, first, second)
    requires s != [] && t != [] && s[0] in t && t[0] in s
    requires TiesAreEqual(s, first, second)
    ensures s[0] == t[0]
  {
    var i :| 0 <= i < |t| && t[i] == s[0];
    var j :| 0 <= j < |s| && s[j] == t[0];
  }

  lemma {:induction false} FilterInsert<T(!new)>(x: T, s: seq<T>, leq: (T, T) -> bool, keep: T -> bool)
    requires TotalPreorder(leq) && Ordered(s, leq)
    ensures Filter(Insert(x, s, leq), keep) == if keep(x) then Insert(x, Filter(s, keep), leq) else Filter(s, keep)
  {
    if s == [] {
    } else if leq(x, s[0]) {
      FilterMembers(s, keep);
      assert Insert(x, s, leq)[1..] == s;
      var kept := Filter(s, keep);
      if kept != [] {
        assert kept[0] in s;
        assert leq(x, kept[0]);
      }
    } else {
      FilterInsert(x, s[1..], leq, keep);
      assert Insert(x, s, leq)[1..] == Insert(x, s[1..], leq);
      if keep(s[0]) {
        assert Filter(s, keep)[1..] == Filter(s[1..], keep) && Filter(s, keep)[0] == s[0];
      } else {
        assert Filter(s, keep) == Filter(s[1..], keep);
      }
    }
  }

  lemma {:induction false} FilterMembers<T>(s: seq<T>, keep: T -> bool)
    ensures forall x :: x in Filter(s, keep) <==> x in s && keep(x)
  {
    if s == [] {
    } else {
      FilterMembers(s[1..], keep);
    }
  }

  lemma {:induction false} FilterCounts<T>(s: seq<T>, keep: T -> bool, x: T)
    ensures multiset(Filter(s, keep))[x] == if keep(x) then multiset(s)[x] else 0
  {
    if s == [] {
    } else {
      FilterCounts(s[1..], keep, x);
      assert s == [s[0]] + s[1..];
    }
  }

  /** Filtering before a stable sort or after it is the same. */
  lemma {:induction false} FilterCommutes<T(!new)>(s: seq<T>, leq: (T, T) -> bool, keep: T -> bool)
    requires TotalPreorder(leq)
    ensures Filter(StableSort(s, leq), keep) == StableSort(Filter(s, keep), leq)
  {
    if s == [] {
    } else {
      FilterCommutes(s[1..], leq, keep);
      SortOrders(s[1..], leq);
      FilterInsert(s[0], StableSort(s[1..], leq), leq, keep);
      if keep(s[0]) {
        assert Filter(s, keep) == [s[0]] + Filter(s[1..], keep);
        assert Filter(s, keep)[1..] == Filter(s[1..], keep);
      } else {
        assert Filter(s, keep) == Filter(s[1..], keep);
      }
    }
  }

  lemma {:induction false} FilterJoins<T>(s: seq<T>, t: seq<T>, keep: T -> bool)
    ensures Filter(s + t, keep) == Filter(s, keep) + Filter(t, keep)
  {
    if s == [] {
      assert s + t == t;
    } else {
      var head := if keep(s[0]) then [s[0]] else [];
      assert (s + t)[0] == s[0] && (s + t)[1..] == s[1..] + t;
      FilterJoins(s[1..], t, keep);
      assert Filter(s + t, keep) == head + (Filter(s[1..], keep) + Filter(t, keep));
    }
  }

  lemma {:induction false} FilterNext<T>(s: seq<T>, i: nat, keep: T -> bool)
    requires i < |s|
    ensures Filter(s[..i + 1], keep) == Filter(s[..i], keep) + if keep(s[i]) then [s[i]] else []
  {
    assert s[..i + 1] == s[..i] + [s[i]];
    FilterJoins(s[..i], [s[i]], keep);
    assert Filter([s[i]], keep) == (if keep(s[i]) then [s[i]] else []) + Filter([s[i]][1..], keep);
  }

  /** A page is as long as the limit and the list allow, and holds the list from the offset on. */
  lemma {:induction false} PageIsSlice<T>(s: seq<T>, offset: nat, limit: nat)
    ensures var page := Page(s, offset, limit);
      && |page| <= limit && (|page| < limit ==> offset + |page| >= |s|) && (page != [] ==> offset + |page| <= |s|)
      && forall i :: 0 <= i < |page| ==> page[i] == s[offset + i]
  {
    if offset <= |s| { assert forall i :: 0 <= i < |s| - offset ==> s[offset..][i] == s[offset + i]; }
  }

  /** The first `count` pages of a listing. */
  function Pages<T>(s: seq<T>, limit: nat, count: nat): seq<T> {
    if count == 0 then [] else Pages(s, limit, count - 1) + Page(s, (count - 1) * limit, limit)
  }

  lemma {:induction false} PageExtends<T>(s: seq<T>, read: nat, limit: nat)
    ensures (if read <= |s| then s[..read] else s) + Page(s, read, limit) ==
      if read + limit <= |s| then s[..read + limit] else s
  {
  }

  /** Consecutive pages are the listing from its start, with nothing lost or repeated, and enough of
      them are all of it. */
  lemma {:induction false} PagesAreTheList<T>(s: seq<T>, limit: nat, count: nat)
    ensures Pages(s, limit, count) == if count * limit <= |s| then s[..count * limit] else s
  {
    if count == 0 {
    } else {
      PagesAreTheList(s, limit, count - 1);
      PageExtends(s, (count - 1) * limit, limit);
      assert count * limit == (count - 1) * limit + limit;
    }
  }
}
