/** The sort keys the read models declare: how their values are rendered into an anchor and read back. */
module SortKeys {
  import opened Text
  import opened TextEncodings
  import opened Keyset
  import opened KeysetWalk
  import opened Cursors

  /** `Render(string)` and `ParseText`; a column that is never NULL has nothing to render for it. */
  function TextKey(less: (string, string) -> bool): SortKey<string>
  {
    SortKey(less, true, (key: Option<string>) => if key.Some? then key.value else "",
            (text: string) => Some(Some(text)))
  }

  /**
   `RenderEnum` and `ParseEnum`: the member's number, in decimal. The database sorts the stored label, and
   the anchor predicate asks for a greater-than that enum types do not have.
   */
  function EnumKey(labelLess: (string, string) -> bool, stored: nat -> string): SortKey<nat>
  {
    SortKey(
      (a: nat, b: nat) => labelLess(stored(a), stored(b)),
      false,
      (key: Option<nat>) => if key.Some? then Decimal(key.value) else "",
      (text: string) => if text != "" && Digits(text) then Some(Some(Number(text))) else None)
  }

  /** A timestamp key, over the round-trip format it is rendered in. */
  function TimestampKey(render: int -> string, parse: string -> Option<int>): SortKey<int>
  {
    SortKey(
      (a: int, b: int) => a < b,
      true,
      (key: Option<int>) => if key.Some? then render(key.value) else "",
      (text: string) => var t := parse(text); if t.None? then None else Some(Some(t.value)))
  }

  /** `Render(DateTimeOffset?)` and `ParseNullableTimestamp`: the empty text is NULL. */
  function NullableTimestampKey(render: int -> string, parse: string -> Option<int>): SortKey<int>
  {
    SortKey(
      (a: int, b: int) => a < b,
      true,
      (key: Option<int>) => if key.Some? then render(key.value) else "",
      (text: string) =>
        if text == "" then Some(None)
        else var t := parse(text); if t.None? then None else Some(Some(t.value)))
  }

  /** What is assumed of format "O": it reads back, and is never empty. */
  ghost predicate RoundTrips(render: int -> string, parse: string -> Option<int>)
  {
    forall t :: parse(render(t)) == Some(t) && render(t) != ""
  }

  lemma RoundTripsAt(render: int -> string, parse: string -> Option<int>, t: int)
    requires RoundTrips(render, parse)
    ensures parse(render(t)) == Some(t) && render(t) != ""
  {
  }

  /** Text and timestamp keys compare by a total order, and every value they can hold reads back. */
  lemma DeclaredKeysReadBack(
    less: (string, string) -> bool, render: int -> string, parse: string -> Option<int>,
    text: Position<string>, instant: Position<int>)
    requires StrictTotalOrder(less) && RoundTrips(render, parse)
    ensures Sound(TextKey(less))
    ensures Sound(TimestampKey(render, parse)) && Sound(NullableTimestampKey(render, parse))
    ensures text.key.Some? ==> ReadsBack(TextKey(less), text)
    ensures instant.key.Some? ==> ReadsBack(TimestampKey(render, parse), instant)
    ensures ReadsBack(NullableTimestampKey(render, parse), instant)
  {
    if instant.key.Some? {
      RoundTripsAt(render, parse, instant.key.value);
    }
    hide RoundTrips;
  }

  /** Sorted by a timestamp, the rows of every page run in time: forwards ascending, backwards descending. */
  lemma TimestampPagesRunInTime(
    render: int -> string, parse: string -> Option<int>, table: seq<Position<int>>, nullable: bool,
    direction: Direction, anchor: Option<Anchor>, limit: int, i: nat, j: nat)
    requires Distinct(table)
    requires var sortKey := if nullable then NullableTimestampKey(render, parse) else TimestampKey(render, parse);
             && Take(table, sortKey, direction, anchor, limit).Page?
             && i < j < |Take(table, sortKey, direction, anchor, limit).slice.rows|
    ensures var sortKey := if nullable then NullableTimestampKey(render, parse) else TimestampKey(render, parse);
            var rows := Take(table, sortKey, direction, anchor, limit).slice.rows;
            rows[i].key.Some? && rows[j].key.Some? ==>
              if direction == Ascending then rows[i].key.value <= rows[j].key.value
              else rows[j].key.value <= rows[i].key.value
  {
    var sortKey := if nullable then NullableTimestampKey(render, parse) else TimestampKey(render, parse);
    assert forall a, b :: sortKey.less(a, b) <==> a < b;
    WhatAPageHolds(table, sortKey, direction, anchor, limit);
    hide Take;
  }

  /** Sorted by an enum, the first page runs by the labels the column stores, not by the members' numbers. */
  lemma EnumPageRunsByLabel(
    labelLess: (string, string) -> bool, stored: nat -> string, table: seq<Position<nat>>,
    direction: Direction, limit: int, i: nat, j: nat)
    requires StrictTotalOrder(labelLess) && (forall a, b :: stored(a) == stored(b) ==> a == b) && Distinct(table)
    requires Take(table, EnumKey(labelLess, stored), direction, None, limit).Page?
    requires i < j < |Take(table, EnumKey(labelLess, stored), direction, None, limit).slice.rows|
    ensures var rows := Take(table, EnumKey(labelLess, stored), direction, None, limit).slice.rows;
            rows[i].key.Some? && rows[j].key.Some? ==>
              var a, b := stored(rows[i].key.value), stored(rows[j].key.value);
              if direction == Ascending then a == b || labelLess(a, b) else a == b || labelLess(b, a)
  {
    var sortKey := EnumKey(labelLess, stored);
    assert forall a, b :: sortKey.less(a, b) <==> labelLess(stored(a), stored(b));
    WhatAPageHolds(table, sortKey, direction, None, limit);
    hide Take;
  }

  /**
   A walk sorted by an enum key comes to an end if and only if the table fits one page: its cursor reads
   back, but the page after it is a server error, whatever the table then holds.
   */
  lemma EnumWalkEndsIff(
    labelLess: (string, string) -> bool, stored: nat -> string, table: seq<Position<nat>>,
    later: seq<Position<nat>>, direction: Direction, rawLimit: Option<string>, lossy: seq<Byte> -> string,
    last: Position<nat>)
    requires TryBindLimit(rawLimit).Some? && last.key.Some?
    ensures var sortKey, limit := EnumKey(labelLess, stored), TryBindLimit(rawLimit).value;
            && ((exists slices ::
                   IsWalk(Copies(table, |slices|), sortKey, direction, None, limit, slices) && Ended(slices))
                <==> |table| <= limit)
            && ReadsBack(sortKey, last)
            && Serve(later, sortKey, direction, NextCursor(Some(AnchorOf(sortKey, last))), rawLimit, lossy).ServerError?
  {
    var sortKey, limit := EnumKey(labelLess, stored), TryBindLimit(rawLimit).value;
    assert limit >= 1;
    EnumReadsBack(labelLess, stored, last);
    assert !sortKey.comparable;
    hide *;
    IncomparableWalkEndsIff(table, sortKey, direction, limit);
    IncomparableCursorFails(later, sortKey, direction, last, rawLimit, lossy);
  }

  /** A member's number reads back; a text that is no number, the empty one included, names no member. */
  lemma EnumReadsBack(labelLess: (string, string) -> bool, stored: nat -> string, last: Position<nat>)
    requires last.key.Some?
    ensures ReadsBack(EnumKey(labelLess, stored), last)
    ensures forall text :: EnumKey(labelLess, stored).parse(text).Some? <==>
                             text != "" && forall c :: c in text ==> '0' <= c <= '9'
  {
    NumberDecimal(last.key.value);
    hide Decimal, Number;
    forall text: string
      ensures Digits(text) <==> forall c :: c in text ==> '0' <= c <= '9'
    {
      if forall c :: c in text ==> '0' <= c <= '9' {
        assert forall i :: 0 <= i < |text| ==> text[i] in text;
      }
    }
  }
}
