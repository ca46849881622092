/**
 Keyset paging: one page is "everything beyond the anchor, in order, cut at the limit". A key is `None`
 where the column is NULL; comparisons with NULL are then not true, and NULL sorts as PostgreSQL sorts
 it, after every value ascending and before every value descending.
 */
module Keyset {
  import opened Text
  import opened Uuids

  datatype Direction = Ascending | Descending

  /** A row, as far as paging reads it: its sort key and its identifier. */
  datatype Position<+K> = Position(key: Option<K>, id: Uuid)

  /**
   A sort key: the order the database sorts it in, whether the anchor predicate can compare its type at all,
   and its text form in an anchor; not every text is readable.
   */
  datatype SortKey<!K> = SortKey(
    less: (K, K) -> bool, comparable: bool, render: Option<K> -> string, parse: string -> Option<Option<K>>)

  datatype Anchor = Anchor(sortValue: string, id: Uuid)

  datatype Slice<+K> = Slice(rows: seq<Position<K>>, next: Option<Anchor>)

  /** A page, or one of the three exceptions: the last when the key's type has no greater-than. */
  datatype Taken<+K> = Page(slice: Slice<K>) | LimitBelowOne | UnreadableAnchor | ComparisonUndefined

  // ----- the two orders

  predicate Ahead<K>(sortKey: SortKey<K>, direction: Direction, a: K, b: K)
  {
    if direction.Ascending? then sortKey.less(a, b) else sortKey.less(b, a)
  }

  predicate IdAhead(direction: Direction, a: Uuid, b: Uuid)
  {
    if direction.Ascending? then a < b else b < a
  }

  /** The `WHERE` predicate: whether a row lies beyond an anchor. Never true between NULL and a value. */
  predicate Beyond<K(==)>(sortKey: SortKey<K>, direction: Direction, anchor: Position<K>, row: Position<K>)
  {
    || (anchor.key.Some? && row.key.Some? && Ahead(sortKey, direction, anchor.key.value, row.key.value))
    || (anchor.key == row.key && IdAhead(direction, anchor.id, row.id))
  }

  /** The `ORDER BY`. */
  predicate Before<K(==)>(sortKey: SortKey<K>, direction: Direction, a: Position<K>, b: Position<K>)
  {
    if a.key.None? != b.key.None? then b.key.None? == direction.Ascending?
    else Beyond(sortKey, direction, a, b)
  }

  ghost predicate StrictTotalOrder<K(!new)>(less: (K, K) -> bool)
  {
    && (forall a :: !less(a, a))
    && (forall a, b, c :: less(a, b) && less(b, c) ==> less(a, c))
    && (forall a, b :: a == b || less(a, b) || less(b, a))
  }

  /** What is asked of a sort key: that it can be compared, by a total order. */
  ghost predicate Sound<K(!new)>(sortKey: SortKey<K>)
  {
    sortKey.comparable && StrictTotalOrder(sortKey.less)
  }

  /** The anchor of a row names that row's key again. */
  predicate ReadsBack<K(==)>(sortKey: SortKey<K>, row: Position<K>)
  {
    sortKey.parse(sortKey.render(row.key)) == Some(row.key)
  }

  /** So it is for every row of a table. */
  predicate KeysRead<K(==)>(sortKey: SortKey<K>, rows: seq<Position<K>>)
  {
    forall p :: p in rows ==> ReadsBack(sortKey, p)
  }

  lemma OrderFacts<K(!new)>(
    sortKey: SortKey<K>, direction: Direction, a: Position<K>, b: Position<K>, c: Position<K>)
    requires StrictTotalOrder(sortKey.less)
    ensures !Before(sortKey, direction, a, a)
    ensures Before(sortKey, direction, a, b) && Before(sortKey, direction, b, c) ==>
              Before(sortKey, direction, a, c)
    ensures a == b || Before(sortKey, direction, a, b) || Before(sortKey, direction, b, a)
  {
  }

  // ----- ordering and filtering a table

  predicate Ordered<K(==)>(sortKey: SortKey<K>, direction: Direction, rows: seq<Position<K>>)
  {
    forall i, j :: 0 <= i < j < |rows| ==> Before(sortKey, direction, rows[i], rows[j])
  }

  predicate Distinct<T(==)>(rows: seq<T>)
  {
    forall i, j :: 0 <= i < j < |rows| ==> rows[i] != rows[j]
  }

  function Insert<K(==)>(
    sortKey: SortKey<K>, direction: Direction, row: Position<K>, rows: seq<Position<K>>)
    : (result: seq<Position<K>>)
  {
    if rows == [] || Before(sortKey, direction, row, rows[0]) then [row] + rows
    else [rows[0]] + Insert(sortKey, direction, row, rows[1..])
  }

  /** The rows in order. */
  function Sorted<K(==,!new)>(sortKey: SortKey<K>, direction: Direction, rows: seq<Position<K>>)
    : (result: seq<Position<K>>)
    ensures |result| == |rows|
  {
    if rows == [] then []
    else
      InsertGrows(sortKey, direction, rows[0], Sorted(sortKey, direction, rows[1..]));
      Insert(sortKey, direction, rows[0], Sorted(sortKey, direction, rows[1..]))
  }

  lemma {:induction false} InsertGrows<K(!new)>(
    sortKey: SortKey<K>, direction: Direction, row: Position<K>, rows: seq<Position<K>>)
    ensures var result := Insert(sortKey, direction, row, rows);
            |result| == |rows| + 1 && forall p :: p in result <==> p == row || p in rows
  {
    if rows == [] || Before(sortKey, direction, row, rows[0]) {
    } else {
      InsertGrows(sortKey, direction, row, rows[1..]);
      assert rows == [rows[0]] + rows[1..];
    }
  }

  lemma HeadBefore<K>(
    sortKey: SortKey<K>, direction: Direction, rows: seq<Position<K>>, p: Position<K>)
    requires rows != [] && Ordered(sortKey, direction, rows)
    ensures p in rows[1..] ==> Before(sortKey, direction, rows[0], p)
  {
    if p in rows[1..] {
      var i :| 0 <= i < |rows[1..]| && rows[1..][i] == p;
      assert Before(sortKey, direction, rows[0], rows[i + 1]);
    }
  }

  lemma {:induction false} InsertOrdered<K(!new)>(
    sortKey: SortKey<K>, direction: Direction, row: Position<K>, rows: seq<Position<K>>)
    requires StrictTotalOrder(sortKey.less) && Ordered(sortKey, direction, rows) && row !in rows
    ensures Ordered(sortKey, direction, Insert(sortKey, direction, row, rows))
  {
    hide Before, StrictTotalOrder;
    if rows == [] {
    } else if Before(sortKey, direction, row, rows[0]) {
      forall j | 0 < j < |rows|
        ensures Before(sortKey, direction, row, rows[j])
      {
        OrderFacts(sortKey, direction, row, rows[0], rows[j]);
      }
    } else {
      assert rows[0] in rows;
      OrderFacts(sortKey, direction, row, rows[0], row);
      var rest := Insert(sortKey, direction, row, rows[1..]);
      InsertOrdered(sortKey, direction, row, rows[1..]);
      InsertGrows(sortKey, direction, row, rows[1..]);
      forall p | p in rest
        ensures Before(sortKey, direction, rows[0], p)
      {
        HeadBefore(sortKey, direction, rows, p);
      }
    }
  }

  /** Sorting keeps the rows, whatever the order. */
  lemma {:induction false} SortedMembers<K(!new)>(
    sortKey: SortKey<K>, direction: Direction, rows: seq<Position<K>>, p: Position<K>)
    ensures p in Sorted(sortKey, direction, rows) <==> p in rows
  {
    if rows == [] {
    } else {
      SortedMembers(sortKey, direction, rows[1..], p);
      assert rows == [rows[0]] + rows[1..];
      InsertGrows(sortKey, direction, rows[0], Sorted(sortKey, direction, rows[1..]));
    }
  }

  /** Sorting keeps the rows and puts them in order. */
  lemma {:induction false} SortedFacts<K(!new)>(
    sortKey: SortKey<K>, direction: Direction, rows: seq<Position<K>>)
    requires StrictTotalOrder(sortKey.less) && Distinct(rows)
    ensures Ordered(sortKey, direction, Sorted(sortKey, direction, rows))
    ensures forall p :: p in Sorted(sortKey, direction, rows) <==> p in rows
  {
    if rows == [] {
    } else {
      hide StrictTotalOrder, Ordered, Insert;
      SortedFacts(sortKey, direction, rows[1..]);
      var rest := Sorted(sortKey, direction, rows[1..]);
      assert rows == [rows[0]] + rows[1..];
      InsertGrows(sortKey, direction, rows[0], rest);
      InsertOrdered(sortKey, direction, rows[0], rest);
    }
  }

  lemma SomeMember<T>(s: seq<T>)
    ensures s != [] ==> exists x :: x in s
  {
    if s != [] {
      assert s[0] in s;
    }
  }

  /** An order of the same rows is unique. */
  lemma {:induction false} OrderedUnique<K(!new)>(
    sortKey: SortKey<K>, direction: Direction, a: seq<Position<K>>, b: seq<Position<K>>)
    requires StrictTotalOrder(sortKey.less)
    requires Ordered(sortKey, direction, a) && Ordered(sortKey, direction, b)
    requires forall p :: p in a <==> p in b
    ensures a == b
  {
    hide Before, StrictTotalOrder;
    if a == [] {
      SomeMember(b);
    } else {
      assert a[0] in a;
      var i :| 0 <= i < |b| && b[i] == a[0];
      assert b[0] in b;
      var j :| 0 <= j < |a| && a[j] == b[0];
      OrderFacts(sortKey, direction, a[0], b[0], a[0]);
      assert a[0] == b[0];
      forall p
        ensures p in a[1..] <==> p in b[1..]
      {
        HeadApart(sortKey, direction, a, p);
        HeadApart(sortKey, direction, b, p);
      }
      OrderedUnique(sortKey, direction, a[1..], b[1..]);
      assert a == [a[0]] + a[1..] && b == [b[0]] + b[1..];
    }
  }

  lemma HeadApart<K(!new)>(
    sortKey: SortKey<K>, direction: Direction, rows: seq<Position<K>>, p: Position<K>)
    requires StrictTotalOrder(sortKey.less) && Ordered(sortKey, direction, rows) && rows != []
    ensures p in rows[1..] <==> p in rows && p != rows[0]
  {
    OrderFacts(sortKey, direction, rows[0], rows[0], rows[0]);
    hide Before, StrictTotalOrder;
    assert rows == [rows[0]] + rows[1..];
    forall i | 1 <= i < |rows|
      ensures rows[i] != rows[0]
    {
      assert Before(sortKey, direction, rows[0], rows[i]);
    }
  }

  /** The rows beyond an anchor, in table order. */
  function After<K(==,!new)>(
    sortKey: SortKey<K>, direction: Direction, anchor: Position<K>, rows: seq<Position<K>>)
    : (result: seq<Position<K>>)
    ensures forall p :: p in result <==> p in rows && Beyond(sortKey, direction, anchor, p)
  {
    if rows == [] then []
    else
      (if Beyond(sortKey, direction, anchor, rows[0]) then [rows[0]] else [])
      + After(sortKey, direction, anchor, rows[1..])
  }

  lemma {:induction false} AfterDistinct<K(!new)>(
    sortKey: SortKey<K>, direction: Direction, anchor: Position<K>, rows: seq<Position<K>>)
    requires Distinct(rows)
    ensures Distinct(After(sortKey, direction, anchor, rows))
  {
    if rows == [] {
    } else {
      AfterDistinct(sortKey, direction, anchor, rows[1..]);
      assert rows[0] !in rows[1..];
    }
  }

  // ----- one page

  function AnchorOf<K>(sortKey: SortKey<K>, row: Position<K>): Anchor
  {
    Anchor(sortKey.render(row.key), row.id)
  }

  /** The rows a page is taken from: all of them, or those beyond the anchor. */
  function Remaining<K(==,!new)>(
    sortKey: SortKey<K>, direction: Direction, rows: seq<Position<K>>, anchor: Option<Position<K>>)
    : seq<Position<K>>
  {
    if anchor.None? then rows else After(sortKey, direction, anchor.value, rows)
  }

  /** The position an anchor names, when its text can be read. */
  function ReadAnchor<K>(sortKey: SortKey<K>, anchor: Anchor): Option<Position<K>>
  {
    var key := sortKey.parse(anchor.sortValue);
    if key.None? then None else Some(Position(key.value, anchor.id))
  }

  /**
   `KeysetQuery.TakeAsync`. The page holds the first rows of what remains, in order; there is a next
   anchor exactly when something is left, and it is the last row's. Beyond an anchor it needs a key that
   can be compared.
   */
  method TakeAsync<K(==,!new)>(
    source: seq<Position<K>>, sortKey: SortKey<K>, direction: Direction, anchor: Option<Anchor>, limit: int)
    returns (taken: Taken<K>)
    ensures taken == Take(source, sortKey, direction, anchor, limit)
  {
    if limit < 1 {
      return LimitBelowOne;
    }
    var query := source;
    if anchor.Some? {
      var lastKey := sortKey.parse(anchor.value.sortValue);
      if lastKey.None? {
        return UnreadableAnchor;
      }
      if !sortKey.comparable {
        return ComparisonUndefined;
      }
      query := After(sortKey, direction, Position(lastKey.value, anchor.value.id), query);
    }
    var rows := Sorted(sortKey, direction, query);
    if |rows| > limit + 1 {
      rows := rows[..limit + 1];
    }
    if |rows| <= limit {
      return Page(Slice(rows, None));
    }
    var page := rows[..limit];
    assert page == Sorted(sortKey, direction, query)[..limit];
    return Page(Slice(page, Some(AnchorOf(sortKey, page[|page| - 1]))));
  }

  /** "Sort what remains and cut", as a page. */
  function Cut<K>(sortKey: SortKey<K>, ordered: seq<Position<K>>, limit: int): Slice<K>
    requires limit >= 1
  {
    if |ordered| <= limit then Slice(ordered, None)
    else Slice(ordered[..limit], Some(AnchorOf(sortKey, ordered[limit - 1])))
  }

  function Take<K(==,!new)>(
    source: seq<Position<K>>, sortKey: SortKey<K>, direction: Direction, anchor: Option<Anchor>, limit: int)
    : Taken<K>
  {
    if limit < 1 then LimitBelowOne
    else if anchor.Some? && ReadAnchor(sortKey, anchor.value).None? then UnreadableAnchor
    else if anchor.Some? && !sortKey.comparable then ComparisonUndefined
    else
      var position := if anchor.None? then None else ReadAnchor(sortKey, anchor.value);
      Page(Cut(sortKey, Sorted(sortKey, direction, Remaining(sortKey, direction, source, position)), limit))
  }

  // ----- a page, in terms of keys and identifiers alone

  /** Rows compare by key, NULL being greater than every value, and then by identifier. */
  predicate Lesser<K(==)>(sortKey: SortKey<K>, a: Position<K>, b: Position<K>)
  {
    match (a.key, b.key)
    case (Some(x), Some(y)) => sortKey.less(x, y) || (x == y && a.id < b.id)
    case (Some(_), None) => true
    case (None, Some(_)) => false
    case (None, None) => a.id < b.id
  }

  /** Ascending is from lesser to greater, descending the reverse of it. */
  predicate Follows<K(==)>(sortKey: SortKey<K>, direction: Direction, a: Position<K>, b: Position<K>)
  {
    match direction
    case Ascending => Lesser(sortKey, a, b)
    case Descending => Lesser(sortKey, b, a)
  }

  /** The row is to come after the anchor; from a value no NULL is reached, and from NULL no value. */
  predicate Reached<K(==)>(sortKey: SortKey<K>, direction: Direction, anchor: Option<Position<K>>, p: Position<K>)
  {
    anchor.Some? ==>
      (anchor.value.key.None? <==> p.key.None?) && Follows(sortKey, direction, anchor.value, p)
  }

  /** The two orders are that one. */
  lemma OrdersByKey<K(!new)>(sortKey: SortKey<K>, direction: Direction, a: Position<K>, b: Position<K>)
    ensures Before(sortKey, direction, a, b) <==> Follows(sortKey, direction, a, b)
    ensures Beyond(sortKey, direction, a, b) <==> Reached(sortKey, direction, Some(a), b)
  {
  }

  lemma OrderedByKey<K(!new)>(sortKey: SortKey<K>, direction: Direction, rows: seq<Position<K>>)
    ensures Ordered(sortKey, direction, rows) <==>
            forall i, j :: 0 <= i < j < |rows| ==> Follows(sortKey, direction, rows[i], rows[j])
  {
    hide Before, Follows;
    forall i, j | 0 <= i < j < |rows|
      ensures Before(sortKey, direction, rows[i], rows[j]) <==> Follows(sortKey, direction, rows[i], rows[j])
    {
      OrdersByKey(sortKey, direction, rows[i], rows[j]);
    }
  }

  /** The anchor's position, as its text is read. */
  function PlaceOf<K>(sortKey: SortKey<K>, anchor: Option<Anchor>): Option<Position<K>>
  {
    if anchor.None? || sortKey.parse(anchor.value.sortValue).None? then None
    else Some(Position(sortKey.parse(anchor.value.sortValue).value, anchor.value.id))
  }

  /**
   What a page holds, over whichever table: rows of the table that come after the anchor, in order by key and
   identifier; at most the limit of them, and fewer only when there are no more; whatever else comes after
   the anchor comes after the page, and there is a next anchor exactly when there is such a row.
   */
  lemma WhatAPageHolds<K(!new)>(
    source: seq<Position<K>>, sortKey: SortKey<K>, direction: Direction, anchor: Option<Anchor>, limit: int)
    requires StrictTotalOrder(sortKey.less) && Distinct(source)
    requires Take(source, sortKey, direction, anchor, limit).Page?
    ensures var slice, place := Take(source, sortKey, direction, anchor, limit).slice, PlaceOf(sortKey, anchor);
            var rows := slice.rows;
            && (forall i, j :: 0 <= i < j < |rows| ==> Follows(sortKey, direction, rows[i], rows[j]))
            && (forall p :: p in rows ==> p in source && Reached(sortKey, direction, place, p))
            && (forall p, q :: p in rows && q in source && q !in rows && Reached(sortKey, direction, place, q) ==>
                  Follows(sortKey, direction, p, q))
            && |rows| <= limit
            && (slice.next.None? <==>
                  forall q :: q in source && Reached(sortKey, direction, place, q) ==> q in rows)
            && (slice.next.Some? ==>
                  && |rows| == limit
                  && slice.next.value == Anchor(sortKey.render(rows[limit - 1].key), rows[limit - 1].id))
  {
    var place := PlaceOf(sortKey, anchor);
    var rest := Remaining(sortKey, direction, source, place);
    var ordered := Sorted(sortKey, direction, rest);
    var slice := Take(source, sortKey, direction, anchor, limit).slice;
    assert slice == Cut(sortKey, ordered, limit);
    if place.Some? {
      AfterDistinct(sortKey, direction, place.value, source);
    }
    SortedFacts(sortKey, direction, rest);
    RestByKey(sortKey, direction, source, place);
    CutByKey(sortKey, direction, ordered, limit);
    hide Before, Beyond, Follows, Reached, StrictTotalOrder, Sorted, Remaining, Ordered, Cut, Take;
  }

  lemma RestByKey<K(!new)>(
    sortKey: SortKey<K>, direction: Direction, source: seq<Position<K>>, place: Option<Position<K>>)
    ensures forall p :: p in Remaining(sortKey, direction, source, place) <==>
                          p in source && Reached(sortKey, direction, place, p)
  {
    hide Beyond, Follows;
    if place.Some? {
      forall p
        ensures Beyond(sortKey, direction, place.value, p) <==> Reached(sortKey, direction, place, p)
      {
        OrdersByKey(sortKey, direction, place.value, p);
      }
    }
  }

  lemma CutByKey<K(!new)>(
    sortKey: SortKey<K>, direction: Direction, ordered: seq<Position<K>>, limit: int)
    requires StrictTotalOrder(sortKey.less) && Ordered(sortKey, direction, ordered) && limit >= 1
    ensures var slice := Cut(sortKey, ordered, limit);
            && (forall i, j :: 0 <= i < j < |slice.rows| ==>
                  Follows(sortKey, direction, slice.rows[i], slice.rows[j]))
            && (forall p :: p in slice.rows ==> p in ordered)
            && (forall p, q :: p in slice.rows && q in ordered && q !in slice.rows ==>
                  Follows(sortKey, direction, p, q))
            && |slice.rows| <= limit
            && (slice.next.None? <==> forall q :: q in ordered ==> q in slice.rows)
            && (slice.next.Some? ==>
                  && |slice.rows| == limit
                  && slice.next.value == Anchor(sortKey.render(ordered[limit - 1].key), ordered[limit - 1].id)
                  && slice.rows[limit - 1] == ordered[limit - 1])
  {
    OrderedByKey(sortKey, direction, ordered);
    var slice := Cut(sortKey, ordered, limit);
    hide Follows, Ordered;
    forall p, q | p in slice.rows && q in ordered
      ensures q in slice.rows || Follows(sortKey, direction, p, q)
    {
      var i :| 0 <= i < |slice.rows| && slice.rows[i] == p;
      var j :| 0 <= j < |ordered| && ordered[j] == q;
      if j < |slice.rows| {
        assert slice.rows[j] == q;
      }
    }
    if |ordered| > limit {
      var q := ordered[limit];
      forall i | 0 <= i < limit
        ensures slice.rows[i] != q
      {
        assert Follows(sortKey, direction, ordered[i], q);
        FollowsApart(sortKey, direction, q);
      }
      assert q in ordered && q !in slice.rows;
    }
  }

  lemma FollowsApart<K(!new)>(sortKey: SortKey<K>, direction: Direction, p: Position<K>)
    requires StrictTotalOrder(sortKey.less)
    ensures !Follows(sortKey, direction, p, p)
  {
  }
}
