/** Walking a collection page by page, over a table that holds still and over one that changes. */
module KeysetWalk {
  import opened Text
  import opened Uuids
  import opened Keyset

  /** Each page was taken from its own table, from where the page before it ended. */
  ghost predicate IsWalk<K(!new)>(
    tables: seq<seq<Position<K>>>, sortKey: SortKey<K>, direction: Direction, anchor: Option<Anchor>,
    limit: int, slices: seq<Slice<K>>)
  {
    && |slices| == |tables| >= 1
    && Take(tables[0], sortKey, direction, anchor, limit) == Page(slices[0])
    && (|slices| > 1 ==>
          && slices[0].next.Some?
          && IsWalk(tables[1..], sortKey, direction, slices[0].next, limit, slices[1..]))
  }

  /** The last page had no next anchor. */
  predicate Ended<K>(slices: seq<Slice<K>>)
  {
    |slices| >= 1 && slices[|slices| - 1].next.None?
  }

  /** All rows returned, in the order they were returned. */
  function Returned<K>(slices: seq<Slice<K>>): seq<Position<K>>
  {
    if slices == [] then [] else slices[0].rows + Returned(slices[1..])
  }

  function PagesOf<K>(slices: seq<Slice<K>>): seq<seq<Position<K>>>
  {
    seq(|slices|, i requires 0 <= i < |slices| => slices[i].rows)
  }

  /** Rows are distinct in every table, and their keys read back. */
  ghost predicate WellFormed<K(!new)>(sortKey: SortKey<K>, tables: seq<seq<Position<K>>>)
  {
    forall i :: 0 <= i < |tables| ==> Distinct(tables[i]) && KeysRead(sortKey, tables[i])
  }

  // ----- what one page is, in terms of positions

  /** Beyond is Before among rows that are both NULL or both not. */
  lemma BeyondIsBefore<K(!new)>(
    sortKey: SortKey<K>, direction: Direction, a: Position<K>, b: Position<K>)
    ensures Beyond(sortKey, direction, a, b) <==>
            a.key.None? == b.key.None? && Before(sortKey, direction, a, b)
  {
  }

  /** The position a walk resumes from. */
  ghost predicate Names<K(!new)>(sortKey: SortKey<K>, anchor: Option<Anchor>, position: Option<Position<K>>)
  {
    match position
    case None => anchor.None?
    case Some(p) => anchor == Some(AnchorOf(sortKey, p)) && ReadsBack(sortKey, p)
  }

  lemma AnchorReads<K(!new)>(sortKey: SortKey<K>, p: Position<K>)
    requires ReadsBack(sortKey, p)
    ensures ReadAnchor(sortKey, AnchorOf(sortKey, p)) == Some(p)
  {
  }

  /** A page is a cut of the sorted remainder. */
  lemma PageIsCut<K(!new)>(
    table: seq<Position<K>>, sortKey: SortKey<K>, direction: Direction, anchor: Option<Anchor>,
    position: Option<Position<K>>, limit: int, slice: Slice<K>)
    requires Sound(sortKey) && Distinct(table) && Names(sortKey, anchor, position)
    requires Take(table, sortKey, direction, anchor, limit) == Page(slice)
    ensures limit >= 1
    ensures var rest := Sorted(sortKey, direction, Remaining(sortKey, direction, table, position));
            && slice == Cut(sortKey, rest, limit)
            && Ordered(sortKey, direction, rest)
            && (forall p :: p in rest <==>
                  p in table && (position.None? || Beyond(sortKey, direction, position.value, p)))
  {
    if position.Some? {
      AnchorReads(sortKey, position.value);
      AfterDistinct(sortKey, direction, position.value, table);
    }
    hide Before, Beyond, Ordered, StrictTotalOrder;
    SortedFacts(sortKey, direction, Remaining(sortKey, direction, table, position));
  }

  // ----- over a changing table

  /** Every row returned from here on comes after the position, and each after the one before it. */
  lemma {:induction false} WalkAdvances<K(!new)>(
    tables: seq<seq<Position<K>>>, sortKey: SortKey<K>, direction: Direction, anchor: Option<Anchor>,
    position: Option<Position<K>>, limit: int, slices: seq<Slice<K>>)
    requires Sound(sortKey) && WellFormed(sortKey, tables) && Names(sortKey, anchor, position)
    requires IsWalk(tables, sortKey, direction, anchor, limit, slices)
    ensures Ordered(sortKey, direction, Returned(slices))
    ensures position.Some? ==>
              forall p :: p in Returned(slices) ==> Before(sortKey, direction, position.value, p)
    decreases |slices|
  {
    PageIsCut(tables[0], sortKey, direction, anchor, position, limit, slices[0]);
    hide Take, Sound, StrictTotalOrder, Before, Beyond;
    var rest := Sorted(sortKey, direction, Remaining(sortKey, direction, tables[0], position));
    forall p | p in rest && position.Some?
      ensures Before(sortKey, direction, position.value, p)
    {
      BeyondIsBefore(sortKey, direction, position.value, p);
    }
    if |slices| == 1 {
      assert Returned(slices[1..]) == [];
      assert Returned(slices) == slices[0].rows;
    } else {
      var last := rest[limit - 1];
      WalkAdvances(tables[1..], sortKey, direction, slices[0].next, Some(last), limit, slices[1..]);
      hide Returned;
      PageThenMore(sortKey, direction, rest, limit, position, Returned(slices[1..]));
      assert Returned(slices) == rest[..limit] + Returned(slices[1..]) by { RevealReturned(slices); }
    }
  }

  lemma RevealReturned<K(!new)>(slices: seq<Slice<K>>)
    requires slices != []
    ensures Returned(slices) == slices[0].rows + Returned(slices[1..])
  {
  }

  /** A page, followed by rows that all come after its last row. */
  lemma PageThenMore<K(!new)>(
    sortKey: SortKey<K>, direction: Direction, rest: seq<Position<K>>, limit: int,
    position: Option<Position<K>>, more: seq<Position<K>>)
    requires Sound(sortKey) && 1 <= limit <= |rest|
    requires Ordered(sortKey, direction, rest) && Ordered(sortKey, direction, more)
    requires position.Some? ==> forall p :: p in rest ==> Before(sortKey, direction, position.value, p)
    requires forall p :: p in more ==> Before(sortKey, direction, rest[limit - 1], p)
    ensures Ordered(sortKey, direction, rest[..limit] + more)
    ensures position.Some? ==>
              forall p :: p in rest[..limit] + more ==> Before(sortKey, direction, position.value, p)
  {
    hide Before, StrictTotalOrder;
    var last := rest[limit - 1];
    forall p, q | p in rest[..limit] && q in more
      ensures Before(sortKey, direction, p, q)
    {
      OrderFacts(sortKey, direction, p, last, q);
    }
    if position.Some? {
      assert last in rest;
      forall q | q in more
        ensures Before(sortKey, direction, position.value, q)
      {
        OrderFacts(sortKey, direction, position.value, last, q);
      }
    }
  }

  ghost predicate NoNulls<K(!new)>(tables: seq<seq<Position<K>>>)
  {
    forall i, p :: 0 <= i < |tables| && p in tables[i] ==> p.key.Some?
  }

  ghost predicate InEvery<K(!new)>(tables: seq<seq<Position<K>>>, row: Position<K>)
  {
    forall i :: 0 <= i < |tables| ==> row in tables[i]
  }

  /** A row there to be read is on the page, or beyond where the page ends. */
  lemma PageReaches<K(!new)>(
    table: seq<Position<K>>, sortKey: SortKey<K>, direction: Direction, anchor: Option<Anchor>,
    position: Option<Position<K>>, limit: int, slice: Slice<K>, row: Position<K>)
    returns (last: Position<K>)
    requires Sound(sortKey) && Distinct(table) && Names(sortKey, anchor, position)
    requires Take(table, sortKey, direction, anchor, limit) == Page(slice) && KeysRead(sortKey, table)
    requires row in table && forall p :: p in table ==> p.key.Some?
    requires position.Some? ==> Beyond(sortKey, direction, position.value, row)
    ensures row in slice.rows ||
            (Names(sortKey, slice.next, Some(last)) && Beyond(sortKey, direction, last, row))
  {
    PageIsCut(table, sortKey, direction, anchor, position, limit, slice);
    hide Take, Sound, StrictTotalOrder, Before, Beyond, Ordered, Sorted, After;
    var rest := Sorted(sortKey, direction, Remaining(sortKey, direction, table, position));
    last := row;
    if row !in slice.rows {
      CutReaches(sortKey, rest, limit, row);
      last := rest[limit - 1];
      TailIsAfter(sortKey, direction, rest, limit, row);
      assert last in rest;
      BeyondIsBefore(sortKey, direction, last, row);
    }
  }

  /** A walk that ends has returned every row that was there all along, ahead of where it began. */
  lemma {:induction false} WalkReaches<K(!new)>(
    tables: seq<seq<Position<K>>>, sortKey: SortKey<K>, direction: Direction, anchor: Option<Anchor>,
    position: Option<Position<K>>, limit: int, slices: seq<Slice<K>>, row: Position<K>)
    requires Sound(sortKey) && WellFormed(sortKey, tables) && Names(sortKey, anchor, position)
    requires IsWalk(tables, sortKey, direction, anchor, limit, slices) && Ended(slices)
    requires NoNulls(tables) && InEvery(tables, row)
    requires position.Some? ==> Beyond(sortKey, direction, position.value, row)
    ensures row in Returned(slices)
    decreases |slices|
  {
    hide Take, Sound, Beyond, Distinct;
    var last := PageReaches(tables[0], sortKey, direction, anchor, position, limit, slices[0], row);
    RevealReturned(slices);
    if row !in slices[0].rows {
      WalkReaches(tables[1..], sortKey, direction, slices[0].next, Some(last), limit, slices[1..], row);
    }
  }

  /** A row that did not make the page is past the cut. */
  lemma CutReaches<K(!new)>(
    sortKey: SortKey<K>, ordered: seq<Position<K>>, limit: int, row: Position<K>)
    requires limit >= 1 && row in ordered && row !in Cut(sortKey, ordered, limit).rows
    ensures |ordered| > limit && row in ordered[limit..]
  {
    assert |ordered| > limit;
    assert ordered == ordered[..limit] + ordered[limit..];
  }

  /**
   Rows may come and go between any two pages. What a walk returns is strictly increasing, so no row
   (key and identifier) repeats; and a row that was there throughout is returned, exactly once, by every
   walk that ends, as long as no key is NULL.
   */
  lemma WalkIsStable<K(!new)>(
    tables: seq<seq<Position<K>>>, sortKey: SortKey<K>, direction: Direction, limit: int,
    slices: seq<Slice<K>>, row: Position<K>)
    requires Sound(sortKey) && WellFormed(sortKey, tables)
    requires IsWalk(tables, sortKey, direction, None, limit, slices)
    ensures Ordered(sortKey, direction, Returned(slices))
    ensures forall i, j :: 0 <= i < j < |Returned(slices)| ==>
              Follows(sortKey, direction, Returned(slices)[i], Returned(slices)[j])
    ensures multiset(Returned(slices))[row] <= 1
    ensures Ended(slices) && NoNulls(tables) && InEvery(tables, row) ==>
              multiset(Returned(slices))[row] == 1
  {
    WalkAdvances(tables, sortKey, direction, None, None, limit, slices);
    OrderedOnce(sortKey, direction, Returned(slices), row);
    OrderedByKey(sortKey, direction, Returned(slices));
    if Ended(slices) && NoNulls(tables) && InEvery(tables, row) {
      WalkReaches(tables, sortKey, direction, None, None, limit, slices, row);
    }
  }

  lemma {:induction false} OrderedOnce<K(!new)>(
    sortKey: SortKey<K>, direction: Direction, rows: seq<Position<K>>, row: Position<K>)
    requires Sound(sortKey) && Ordered(sortKey, direction, rows)
    ensures multiset(rows)[row] == if row in rows then 1 else 0
  {
    if rows == [] {
    } else {
      HeadApart(sortKey, direction, rows, row);
      hide Before, StrictTotalOrder;
      OrderedOnce(sortKey, direction, rows[1..], row);
      assert rows == [rows[0]] + rows[1..];
    }
  }

  // ----- over a table that holds still

  ghost predicate Still<K(!new)>(tables: seq<seq<Position<K>>>, rows: seq<Position<K>>)
  {
    forall i :: 0 <= i < |tables| ==> tables[i] == rows
  }

  /** "Sort everything and cut": the pages a reader would expect. */
  function Cuts<K>(ordered: seq<Position<K>>, limit: int): (pages: seq<seq<Position<K>>>)
    requires limit >= 1
    decreases |ordered|
  {
    if |ordered| <= limit then [ordered] else [ordered[..limit]] + Cuts(ordered[limit..], limit)
  }

  function Flat<K>(pages: seq<seq<Position<K>>>): seq<Position<K>>
  {
    if pages == [] then [] else pages[0] + Flat(pages[1..])
  }

  /** The number of pages for so many rows: the quotient rounded up, and one for an empty table. */
  predicate IsPageCount(count: nat, n: nat, limit: int)
  {
    count >= 1 && n <= count * limit && if n == 0 then count == 1 else (count - 1) * limit < n
  }

  lemma {:induction false} CutsFacts<K(!new)>(ordered: seq<Position<K>>, limit: int)
    requires limit >= 1
    ensures Flat(Cuts(ordered, limit)) == ordered
    ensures IsPageCount(|Cuts(ordered, limit)|, |ordered|, limit)
    decreases |ordered|
  {
    var pages := Cuts(ordered, limit);
    if |ordered| <= limit {
      assert pages[1..] == [];
      assert Flat(pages) == ordered + [];
    } else {
      CutsFacts(ordered[limit..], limit);
      assert pages[1..] == Cuts(ordered[limit..], limit);
      assert ordered == ordered[..limit] + ordered[limit..];
      var count := |pages|;
      assert (count - 1) * limit + limit == count * limit;
      assert (count - 2) * limit + limit == (count - 1) * limit;
    }
  }

  lemma PagesStep<K(!new)>(slices: seq<Slice<K>>)
    requires slices != []
    ensures PagesOf(slices) == [slices[0].rows] + PagesOf(slices[1..])
  {
  }

  /** What remains beyond the last row of a page, when the rest of the order is of the same class. */
  lemma Resume<K(!new)>(
    table: seq<Position<K>>, sortKey: SortKey<K>, direction: Direction, ordered: seq<Position<K>>, n: nat)
    requires Sound(sortKey) && Distinct(table) && 1 <= n <= |ordered|
    requires Ordered(sortKey, direction, ordered)
    requires forall p :: p in ordered ==> p in table
    requires forall p :: p in table && Beyond(sortKey, direction, ordered[n - 1], p) ==> p in ordered
    requires forall p :: p in ordered[n..] ==> (p.key.None? <==> ordered[n - 1].key.None?)
    ensures Sorted(sortKey, direction, After(sortKey, direction, ordered[n - 1], table)) == ordered[n..]
  {
    var last := ordered[n - 1];
    var beyond := After(sortKey, direction, last, table);
    AfterDistinct(sortKey, direction, last, table);
    SortedFacts(sortKey, direction, beyond);
    forall p
      ensures p in Sorted(sortKey, direction, beyond) <==> p in ordered[n..]
    {
      BeyondIsBefore(sortKey, direction, last, p);
      hide Before, Beyond, StrictTotalOrder;
      TailIsAfter(sortKey, direction, ordered, n, p);
    }
    hide Before, Beyond, StrictTotalOrder;
    OrderedUnique(sortKey, direction, Sorted(sortKey, direction, beyond), ordered[n..]);
  }

  lemma TailIsAfter<K(!new)>(
    sortKey: SortKey<K>, direction: Direction, ordered: seq<Position<K>>, n: nat, p: Position<K>)
    requires Sound(sortKey) && 1 <= n <= |ordered| && Ordered(sortKey, direction, ordered)
    ensures p in ordered[n..] <==> p in ordered && Before(sortKey, direction, ordered[n - 1], p)
  {
    hide Before, StrictTotalOrder;
    var last := ordered[n - 1];
    if p in ordered[n..] {
      var j :| 0 <= j < |ordered[n..]| && ordered[n..][j] == p;
      assert ordered[n + j] == p;
    }
    forall i | 0 <= i < n
      ensures !Before(sortKey, direction, last, ordered[i])
    {
      OrderFacts(sortKey, direction, ordered[i], last, ordered[i]);
      OrderFacts(sortKey, direction, ordered[i], ordered[i], last);
    }
    if p in ordered && Before(sortKey, direction, last, p) {
      var i :| 0 <= i < |ordered| && ordered[i] == p;
      assert ordered[n..][i - n] == p;
    }
  }

  /** One page of a walk, and the walk that goes on from it. */
  lemma NextOnWalk<K(!new)>(
    tables: seq<seq<Position<K>>>, table: seq<Position<K>>, sortKey: SortKey<K>, direction: Direction,
    anchor: Option<Anchor>, position: Option<Position<K>>, limit: int, slices: seq<Slice<K>>)
    requires Sound(sortKey) && Distinct(table) && KeysRead(sortKey, table) && Still(tables, table) && limit >= 1
    requires Names(sortKey, anchor, position)
    requires IsWalk(tables, sortKey, direction, anchor, limit, slices) && Ended(slices)
    ensures var all := Sorted(sortKey, direction, Remaining(sortKey, direction, table, position));
            && (|slices| == 1 <==> |all| <= limit)
            && slices[0].rows == (if |all| <= limit then all else all[..limit])
            && (|slices| > 1 ==>
                  && slices[0].next.Some? && Names(sortKey, slices[0].next, Some(all[limit - 1]))
                  && IsWalk(tables[1..], sortKey, direction, slices[0].next, limit, slices[1..])
                  && Ended(slices[1..]) && Still(tables[1..], table))
  {
    PageIsCut(table, sortKey, direction, anchor, position, limit, slices[0]);
    hide Take, Sound, Ordered, Distinct, AnchorOf, Sorted, Remaining, Beyond, ReadsBack;
    if |slices| > 1 {
      var all := Sorted(sortKey, direction, Remaining(sortKey, direction, table, position));
      assert all[limit - 1] in all;
    }
  }

  /** From an anchor on, a walk that ends returns what is beyond the anchor, sorted and cut. */
  lemma {:induction false} TailIsExact<K(!new)>(
    tables: seq<seq<Position<K>>>, table: seq<Position<K>>, sortKey: SortKey<K>, direction: Direction,
    anchor: Anchor, position: Position<K>, limit: int, slices: seq<Slice<K>>)
    requires Sound(sortKey) && Distinct(table) && KeysRead(sortKey, table) && Still(tables, table) && limit >= 1
    requires Names(sortKey, Some(anchor), Some(position))
    requires IsWalk(tables, sortKey, direction, Some(anchor), limit, slices) && Ended(slices)
    ensures PagesOf(slices) == Cuts(Sorted(sortKey, direction, After(sortKey, direction, position, table)), limit)
    decreases |slices|
  {
    NextOnWalk(tables, table, sortKey, direction, Some(anchor), Some(position), limit, slices);
    PagesStep(slices);
    hide IsWalk, Sound, Distinct, Names, KeysRead, Still, Ended, Beyond;
    var rest := Sorted(sortKey, direction, After(sortKey, direction, position, table));
    if |slices| == 1 {
      assert PagesOf(slices[1..]) == [];
    } else {
      ResumeTail(table, sortKey, direction, position, limit);
      TailIsExact(tables[1..], table, sortKey, direction, slices[0].next.value, rest[limit - 1], limit,
                  slices[1..]);
    }
  }

  lemma ResumeTail<K(!new)>(
    table: seq<Position<K>>, sortKey: SortKey<K>, direction: Direction, position: Position<K>, limit: int)
    requires Sound(sortKey) && Distinct(table)
    requires 1 <= limit <= |Sorted(sortKey, direction, After(sortKey, direction, position, table))|
    ensures var rest := Sorted(sortKey, direction, After(sortKey, direction, position, table));
            Sorted(sortKey, direction, After(sortKey, direction, rest[limit - 1], table)) == rest[limit..]
  {
    var rest := Sorted(sortKey, direction, After(sortKey, direction, position, table));
    AfterDistinct(sortKey, direction, position, table);
    SortedFacts(sortKey, direction, After(sortKey, direction, position, table));
    hide Sound, Ordered, Distinct, Before, Beyond;
    RestIsClosed(table, sortKey, direction, position, rest, limit);
    Resume(table, sortKey, direction, rest, limit);
  }

  /** Beyond something beyond the anchor is beyond the anchor, and of its class. */
  lemma RestIsClosed<K(!new)>(
    table: seq<Position<K>>, sortKey: SortKey<K>, direction: Direction, position: Position<K>,
    rest: seq<Position<K>>, limit: int)
    requires Sound(sortKey) && 1 <= limit <= |rest|
    requires forall p :: p in rest <==> p in table && Beyond(sortKey, direction, position, p)
    ensures forall p :: p in table && Beyond(sortKey, direction, rest[limit - 1], p) ==> p in rest
    ensures forall p :: p in rest[limit..] ==> (p.key.None? <==> rest[limit - 1].key.None?)
  {
    var last := rest[limit - 1];
    assert last in rest;
    forall p | p in table && Beyond(sortKey, direction, last, p)
      ensures p in rest
    {
      BeyondTransitive(sortKey, direction, position, last, p);
    }
    forall p | p in rest[limit..]
      ensures p.key.None? <==> last.key.None?
    {
      assert p in rest;
      BeyondIsBefore(sortKey, direction, position, p);
      BeyondIsBefore(sortKey, direction, position, last);
    }
  }

  lemma BeyondTransitive<K(!new)>(
    sortKey: SortKey<K>, direction: Direction, a: Position<K>, b: Position<K>, c: Position<K>)
    requires Sound(sortKey) && Beyond(sortKey, direction, a, b) && Beyond(sortKey, direction, b, c)
    ensures Beyond(sortKey, direction, a, c)
  {
    BeyondIsBefore(sortKey, direction, a, b);
    BeyondIsBefore(sortKey, direction, b, c);
    BeyondIsBefore(sortKey, direction, a, c);
    OrderFacts(sortKey, direction, a, b, c);
  }

  // ----- NULL keys: exactly when a walk is complete

  /** The rows whose key is NULL, or those whose key is not. */
  function Classed<K(!new)>(rows: seq<Position<K>>, nulls: bool): (result: seq<Position<K>>)
    ensures forall p :: p in result <==> p in rows && p.key.None? == nulls
  {
    if rows == [] then []
    else (if rows[0].key.None? == nulls then [rows[0]] else []) + Classed(rows[1..], nulls)
  }

  lemma {:induction false} ClassedDistinct<K(!new)>(rows: seq<Position<K>>, nulls: bool)
    requires Distinct(rows)
    ensures Distinct(Classed(rows, nulls))
  {
    if rows == [] {
    } else {
      ClassedDistinct(rows[1..], nulls);
      assert rows[0] !in rows[1..];
    }
  }

  /** The class that is ordered first, sorted; and the class ordered last. */
  function First<K(==,!new)>(sortKey: SortKey<K>, direction: Direction, rows: seq<Position<K>>): seq<Position<K>>
  {
    Sorted(sortKey, direction, Classed(rows, direction.Descending?))
  }

  function Last<K(==,!new)>(sortKey: SortKey<K>, direction: Direction, rows: seq<Position<K>>): seq<Position<K>>
  {
    Sorted(sortKey, direction, Classed(rows, direction.Ascending?))
  }

  /** Sorting puts one class before the other. */
  lemma ClassesInOrder<K(!new)>(sortKey: SortKey<K>, direction: Direction, rows: seq<Position<K>>)
    requires Sound(sortKey) && Distinct(rows)
    ensures Sorted(sortKey, direction, rows) ==
            First(sortKey, direction, rows) + Last(sortKey, direction, rows)
    ensures forall p :: p in First(sortKey, direction, rows) <==> p in rows && p.key.None? == direction.Descending?
    ensures forall p :: p in Last(sortKey, direction, rows) <==> p in rows && p.key.None? == direction.Ascending?
    ensures Ordered(sortKey, direction, First(sortKey, direction, rows))
  {
    ClassedDistinct(rows, true);
    ClassedDistinct(rows, false);
    SortedFacts(sortKey, direction, Classed(rows, true));
    SortedFacts(sortKey, direction, Classed(rows, false));
    SortedFacts(sortKey, direction, rows);
    var first, last := First(sortKey, direction, rows), Last(sortKey, direction, rows);
    forall p, q | p in first && q in last
      ensures Before(sortKey, direction, p, q)
    {
    }
    hide Before, StrictTotalOrder, Classed, Sorted;
    OrderedConcat(sortKey, direction, first, last);
    OrderedUnique(sortKey, direction, Sorted(sortKey, direction, rows), first + last);
  }

  lemma ClassSplit<K(!new)>(sortKey: SortKey<K>, direction: Direction, rows: seq<Position<K>>)
    requires Sound(sortKey) && Distinct(rows)
    ensures Sorted(sortKey, direction, rows) ==
            First(sortKey, direction, rows) + Last(sortKey, direction, rows)
  {
    hide *;
    ClassesInOrder(sortKey, direction, rows);
  }

  lemma OrderedConcat<K(!new)>(
    sortKey: SortKey<K>, direction: Direction, a: seq<Position<K>>, b: seq<Position<K>>)
    requires Ordered(sortKey, direction, a) && Ordered(sortKey, direction, b)
    requires forall p, q :: p in a && q in b ==> Before(sortKey, direction, p, q)
    ensures Ordered(sortKey, direction, a + b)
  {
    hide Before;
  }

  /** The class ordered last is empty, or begins on the first page. */
  predicate NoneStranded<K(==,!new)>(
    sortKey: SortKey<K>, direction: Direction, rows: seq<Position<K>>, limit: int)
  {
    || Last(sortKey, direction, rows) == []
    || |First(sortKey, direction, rows)| < limit
  }

  lemma FlatPages<K(!new)>(slices: seq<Slice<K>>)
    ensures Flat(PagesOf(slices)) == Returned(slices)
  {
    if slices != [] {
      PagesStep(slices);
      FlatPages(slices[1..]);
    }
  }

  /** After the first page the walk goes on within one class, and the pages are the sorted rows, cut. */
  lemma WholeWalk<K(!new)>(
    tables: seq<seq<Position<K>>>, table: seq<Position<K>>, sortKey: SortKey<K>, direction: Direction,
    limit: int, slices: seq<Slice<K>>)
    requires Sound(sortKey) && Distinct(table) && KeysRead(sortKey, table) && Still(tables, table) && limit >= 1
    requires IsWalk(tables, sortKey, direction, None, limit, slices) && Ended(slices)
    requires NoneStranded(sortKey, direction, table, limit)
    ensures PagesOf(slices) == Cuts(Sorted(sortKey, direction, table), limit)
  {
    NextOnWalk(tables, table, sortKey, direction, None, None, limit, slices);
    PagesStep(slices);
    hide IsWalk, Sound, Distinct, Names, KeysRead, Still, NoneStranded, Ended;
    var rest := Sorted(sortKey, direction, table);
    if |slices| == 1 {
      assert PagesOf(slices[1..]) == [];
    } else {
      ResumeWhole(table, sortKey, direction, limit);
      TailIsExact(tables[1..], table, sortKey, direction, slices[0].next.value, rest[limit - 1], limit,
                  slices[1..]);
    }
  }

  lemma ResumeWhole<K(!new)>(
    table: seq<Position<K>>, sortKey: SortKey<K>, direction: Direction, limit: int)
    requires Sound(sortKey) && Distinct(table) && limit >= 1
    requires NoneStranded(sortKey, direction, table, limit)
    requires limit < |Sorted(sortKey, direction, table)|
    ensures var all := Sorted(sortKey, direction, table);
            Sorted(sortKey, direction, After(sortKey, direction, all[limit - 1], table)) == all[limit..]
  {
    ClassesInOrder(sortKey, direction, table);
    SortedFacts(sortKey, direction, table);
    hide Sound, Ordered, Distinct, First, Last, Before, Beyond;
    SameClassAfter(First(sortKey, direction, table), Last(sortKey, direction, table), direction, limit);
    Resume(table, sortKey, direction, Sorted(sortKey, direction, table), limit);
  }

  lemma ResumeStranded<K(!new)>(
    table: seq<Position<K>>, sortKey: SortKey<K>, direction: Direction, limit: int)
    requires Sound(sortKey) && Distinct(table) && limit >= 1
    requires limit <= |First(sortKey, direction, table)|
    ensures var first := First(sortKey, direction, table);
            Sorted(sortKey, direction, After(sortKey, direction, first[limit - 1], table)) == first[limit..]
  {
    ClassesInOrder(sortKey, direction, table);
    var first := First(sortKey, direction, table);
    hide Sound, Ordered, Distinct, First, Last, Before;
    var end := first[limit - 1];
    assert end in first;
    forall p | p in table && Beyond(sortKey, direction, end, p)
      ensures p in first
    {
      BeyondIsBefore(sortKey, direction, end, p);
    }
    hide Beyond;
    Resume(table, sortKey, direction, first, limit);
  }

  lemma SameClassAfter<K(!new)>(
    first: seq<Position<K>>, last: seq<Position<K>>, direction: Direction, limit: int)
    requires forall p :: p in first ==> p.key.None? == direction.Descending?
    requires forall p :: p in last ==> p.key.None? == direction.Ascending?
    requires last == [] || |first| < limit
    requires 1 <= limit <= |first + last|
    ensures var rest := first + last;
            forall p :: p in rest[limit..] ==> (p.key.None? <==> rest[limit - 1].key.None?)
  {
    var rest := first + last;
    if last == [] {
      assert rest == first;
      assert rest[limit - 1] in first;
    } else {
      assert rest[limit - 1] == last[limit - 1 - |first|];
      assert rest[limit..] == last[limit - |first|..];
    }
  }

  /** Once a page ends inside the class ordered first, the other class is never reached. */
  lemma StrandedWalk<K(!new)>(
    tables: seq<seq<Position<K>>>, table: seq<Position<K>>, sortKey: SortKey<K>, direction: Direction,
    limit: int, slices: seq<Slice<K>>)
    requires Sound(sortKey) && Distinct(table) && KeysRead(sortKey, table) && Still(tables, table) && limit >= 1
    requires IsWalk(tables, sortKey, direction, None, limit, slices) && Ended(slices)
    requires !NoneStranded(sortKey, direction, table, limit)
    ensures Returned(slices) == First(sortKey, direction, table)
  {
    NextOnWalk(tables, table, sortKey, direction, None, None, limit, slices);
    ClassSplit(sortKey, direction, table);
    var first, last := First(sortKey, direction, table), Last(sortKey, direction, table);
    hide IsWalk, Sound, Distinct, Names, KeysRead, Still, Ended, First, Last, Sorted, Cuts, PagesOf, Flat,
         Returned;
    assert first[limit - 1] == (first + last)[limit - 1];
    assert (first + last)[..limit] == first[..limit];
    ResumeStranded(table, sortKey, direction, limit);
    TailIsExact(tables[1..], table, sortKey, direction, slices[0].next.value, first[limit - 1], limit,
                slices[1..]);
    CutsFacts(first[limit..], limit);
    FlatPages(slices[1..]);
    RevealReturned(slices);
    assert first == first[..limit] + first[limit..];
  }

  /**
   A walk over a table that holds still returns everything, sorted, exactly when the class ordered last
   (NULL keys ascending, values descending) is empty or begins on the first page. Then its pages are the
   sorted rows cut at the limit; otherwise it returns the class ordered first and nothing of the other.
   */
  lemma WalkIsCompleteIff<K(!new)>(
    tables: seq<seq<Position<K>>>, table: seq<Position<K>>, sortKey: SortKey<K>, direction: Direction,
    limit: int, slices: seq<Slice<K>>)
    requires Sound(sortKey) && Distinct(table) && KeysRead(sortKey, table) && Still(tables, table) && limit >= 1
    requires IsWalk(tables, sortKey, direction, None, limit, slices) && Ended(slices)
    ensures Returned(slices) == Sorted(sortKey, direction, table) <==>
            NoneStranded(sortKey, direction, table, limit)
    ensures Returned(slices) == if NoneStranded(sortKey, direction, table, limit)
                                then Sorted(sortKey, direction, table) else First(sortKey, direction, table)
    ensures NoneStranded(sortKey, direction, table, limit) ==>
              && PagesOf(slices) == Cuts(Sorted(sortKey, direction, table), limit)
              && IsPageCount(|slices|, |table|, limit)
  {
    ClassesInOrder(sortKey, direction, table);
    hide IsWalk, Sound, Distinct, KeysRead, First, Last, Sorted, Ordered;
    if NoneStranded(sortKey, direction, table, limit) {
      WholeWalk(tables, table, sortKey, direction, limit, slices);
      CutsFacts(Sorted(sortKey, direction, table), limit);
      FlatPages(slices);
      assert |PagesOf(slices)| == |slices|;
    } else {
      StrandedWalk(tables, table, sortKey, direction, limit, slices);
    }
  }

  /** Without NULL keys the walk is always exact: everything, sorted, each row once, in the fewest pages. */
  lemma WalkIsExact<K(!new)>(
    tables: seq<seq<Position<K>>>, table: seq<Position<K>>, sortKey: SortKey<K>, direction: Direction,
    limit: int, slices: seq<Slice<K>>)
    requires Sound(sortKey) && Distinct(table) && KeysRead(sortKey, table) && Still(tables, table) && limit >= 1
    requires IsWalk(tables, sortKey, direction, None, limit, slices) && Ended(slices)
    requires forall p :: p in table ==> p.key.Some?
    ensures PagesOf(slices) == Cuts(Sorted(sortKey, direction, table), limit)
    ensures Returned(slices) == Sorted(sortKey, direction, table)
    ensures IsPageCount(|slices|, |table|, limit)
  {
    ClassesInOrder(sortKey, direction, table);
    OneClass(sortKey, direction, table, limit);
    hide IsWalk, Sound, Distinct, KeysRead, NoneStranded, Sorted, First, Last;
    WalkIsCompleteIff(tables, table, sortKey, direction, limit, slices);
  }

  lemma OneClass<K(!new)>(sortKey: SortKey<K>, direction: Direction, table: seq<Position<K>>, limit: int)
    requires Sound(sortKey) && Distinct(table) && limit >= 1
    requires forall p :: p in table ==> p.key.Some?
    ensures NoneStranded(sortKey, direction, table, limit)
  {
    ClassesInOrder(sortKey, direction, table);
    var first, last := First(sortKey, direction, table), Last(sortKey, direction, table);
    hide *;
    SomeMember(if direction.Ascending? then last else first);
  }

  // ----- a walk over a table that holds still always ends

  lemma {:induction false} AfterShrinks<K(!new)>(
    sortKey: SortKey<K>, direction: Direction, position: Option<Position<K>>, last: Position<K>,
    table: seq<Position<K>>)
    requires forall p :: p in table && Beyond(sortKey, direction, last, p) && position.Some? ==>
               Beyond(sortKey, direction, position.value, p)
    requires !Beyond(sortKey, direction, last, last)
    requires position.Some? ==> Beyond(sortKey, direction, position.value, last)
    ensures var now, next := |Remaining(sortKey, direction, table, position)|,
                             |After(sortKey, direction, last, table)|;
            if last in table then next < now else next <= now
  {
    hide Beyond;
    if table == [] {
    } else {
      assert table == [table[0]] + table[1..];
      AfterShrinks(sortKey, direction, position, last, table[1..]);
    }
  }

  function Copies<T>(x: T, n: nat): seq<T>
  {
    seq(n, _ => x)
  }

  /** A readable anchor gives a page; when the page is not the last, less remains after it. */
  lemma NextPage<K(!new)>(
    table: seq<Position<K>>, sortKey: SortKey<K>, direction: Direction, anchor: Option<Anchor>,
    position: Option<Position<K>>, limit: int)
    returns (slice: Slice<K>, last: Option<Position<K>>)
    requires Sound(sortKey) && Distinct(table) && KeysRead(sortKey, table)
    requires Names(sortKey, anchor, position) && limit >= 1
    ensures Take(table, sortKey, direction, anchor, limit) == Page(slice)
    ensures Names(sortKey, slice.next, last)
    ensures last.Some? ==>
      |After(sortKey, direction, last.value, table)| < |Remaining(sortKey, direction, table, position)|
  {
    if position.Some? {
      AnchorReads(sortKey, position.value);
    }
    slice := Take(table, sortKey, direction, anchor, limit).slice;
    PageIsCut(table, sortKey, direction, anchor, position, limit, slice);
    hide Take, Sound, Before, Beyond, Ordered, Sorted, Distinct, Remaining;
    var rest := Sorted(sortKey, direction, Remaining(sortKey, direction, table, position));
    last := None;
    if slice.next.Some? {
      last := Some(rest[limit - 1]);
      assert last.value in rest;
      Shrinks(table, sortKey, direction, position, last.value);
    }
  }

  lemma WalkOn<K(!new)>(
    table: seq<Position<K>>, sortKey: SortKey<K>, direction: Direction, anchor: Option<Anchor>,
    limit: int, slice: Slice<K>, more: seq<Slice<K>>)
    requires Take(table, sortKey, direction, anchor, limit) == Page(slice) && slice.next.Some?
    requires IsWalk(Copies(table, |more|), sortKey, direction, slice.next, limit, more) && Ended(more)
    ensures var slices := [slice] + more;
            IsWalk(Copies(table, |slices|), sortKey, direction, anchor, limit, slices) && Ended(slices)
  {
    hide Take;
    var slices := [slice] + more;
    assert slices[1..] == more;
    assert Copies(table, |slices|)[1..] == Copies(table, |more|);
  }

  /** Following the anchors from anywhere comes to an end. */
  lemma {:induction false} WalkEnds<K(!new)>(
    table: seq<Position<K>>, sortKey: SortKey<K>, direction: Direction, anchor: Option<Anchor>,
    position: Option<Position<K>>, limit: int)
    returns (slices: seq<Slice<K>>)
    requires Sound(sortKey) && Distinct(table) && KeysRead(sortKey, table)
    requires Names(sortKey, anchor, position) && limit >= 1
    ensures IsWalk(Copies(table, |slices|), sortKey, direction, anchor, limit, slices) && Ended(slices)
    decreases |Remaining(sortKey, direction, table, position)|
  {
    hide Take, Sound, Distinct, After;
    var slice, last := NextPage(table, sortKey, direction, anchor, position, limit);
    if last.None? {
      slices := [slice];
    } else {
      var more := WalkEnds(table, sortKey, direction, slice.next, last, limit);
      hide IsWalk, Ended;
      WalkOn(table, sortKey, direction, anchor, limit, slice, more);
      slices := [slice] + more;
    }
  }

  lemma Shrinks<K(!new)>(
    table: seq<Position<K>>, sortKey: SortKey<K>, direction: Direction, position: Option<Position<K>>,
    last: Position<K>)
    requires Sound(sortKey) && last in table
    requires position.Some? ==> Beyond(sortKey, direction, position.value, last)
    ensures |After(sortKey, direction, last, table)| < |Remaining(sortKey, direction, table, position)|
  {
    OrderFacts(sortKey, direction, last, last, last);
    BeyondIsBefore(sortKey, direction, last, last);
    hide Before;
    forall p | p in table && Beyond(sortKey, direction, last, p) && position.Some?
      ensures Beyond(sortKey, direction, position.value, p)
    {
      BeyondTransitive(sortKey, direction, position.value, last, p);
    }
    hide Beyond, Sound;
    AfterShrinks(sortKey, direction, position, last, table);
  }

  // ----- a key whose type cannot be compared

  /** Behind an anchor there is no page at all, so a walk is its first page. */
  lemma IncomparableWalkStops<K(!new)>(
    tables: seq<seq<Position<K>>>, sortKey: SortKey<K>, direction: Direction, limit: int, slices: seq<Slice<K>>)
    requires !sortKey.comparable && IsWalk(tables, sortKey, direction, None, limit, slices)
    ensures |slices| == 1
    ensures Ended(slices) <==> |tables[0]| <= limit
    ensures !Ended(slices) ==>
              forall later: seq<Position<K>> :: !Take(later, sortKey, direction, slices[0].next, limit).Page?
  {
    hide Sorted, ReadAnchor, AnchorOf;
  }

  /** A walk sorted by such a key comes to an end if and only if the table fits one page. */
  lemma IncomparableWalkEndsIff<K(!new)>(
    table: seq<Position<K>>, sortKey: SortKey<K>, direction: Direction, limit: int)
    requires !sortKey.comparable && limit >= 1
    ensures (exists slices ::
               IsWalk(Copies(table, |slices|), sortKey, direction, None, limit, slices) && Ended(slices))
            <==> |table| <= limit
  {
    var slice := Take(table, sortKey, direction, None, limit).slice;
    assert Copies(table, |[slice]|)[0] == table;
    assert IsWalk(Copies(table, |[slice]|), sortKey, direction, None, limit, [slice]);
    if slices :| IsWalk(Copies(table, |slices|), sortKey, direction, None, limit, slices) && Ended(slices) {
      IncomparableWalkStops(Copies(table, |slices|), sortKey, direction, limit, slices);
    }
    IncomparableWalkStops(Copies(table, |[slice]|), sortKey, direction, limit, [slice]);
  }
}
