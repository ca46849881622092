/** Opaque cursors, the limit parameter, and a walk of the API from cursor to cursor. */
module Cursors {
  import opened Text
  import opened Uuids
  import opened TextEncodings
  import opened Keyset
  import opened KeysetWalk

  // ----- OpaqueCursor

  function Payload(position: Anchor): string
  {
    Render(position.id) + [UNIT_SEPARATOR] + position.sortValue
  }

  function Encode(position: Anchor): string
  {
    Base64Url(Utf8(Payload(position)))
  }

  datatype Decoded = Refused | FirstPage | ResumeAt(position: Anchor)

  /**
   `TryDecode`. Bytes that are not well-formed UTF-8 are replaced, not refused; what they are replaced
   with is the parameter `lossy`.
   */
  function TryDecode(cursor: Option<string>, lossy: seq<Byte> -> string): Decoded
  {
    if cursor.None? || cursor.value == "" then FirstPage
    else
      var bytes := FromBase64Url(cursor.value);
      if bytes.None? then Refused
      else
        var text := WellFormedText(bytes.value);
        DecodePayload(if text.Some? then text.value else lossy(bytes.value))
  }

  function DecodePayload(payload: string): Decoded
  {
    var separator := IndexOf(payload, UNIT_SEPARATOR);
    if separator == |payload| || separator == 0 then Refused
    else
      var id := Parse(payload[..separator]);
      if id.None? then Refused else ResumeAt(Anchor(payload[separator + 1..], id.value))
  }

  lemma PayloadRoundTrip(position: Anchor)
    ensures DecodePayload(Payload(position)) == ResumeAt(position)
  {
    var head := Render(position.id);
    hide Render, Parse;
    RenderAlphabet(position.id, UNIT_SEPARATOR);
    IndexOfConcat(head, UNIT_SEPARATOR, position.sortValue);
    ParseRender(position.id);
    var payload := Payload(position);
    assert payload[..|head|] == head;
    assert payload[|head| + 1..] == position.sortValue;
  }

  /** Every position survives its cursor, whatever the sort value holds: nothing, or a separator. */
  lemma CursorRoundTrip(position: Anchor, lossy: seq<Byte> -> string)
    ensures TryDecode(Some(Encode(position)), lossy) == ResumeAt(position)
    ensures Encode(position) != ""
  {
    var payload := Payload(position);
    var bytes := Utf8(payload);
    assert |payload| > 0;
    hide Render, Base64Url, FromBase64Url, Utf8, WellFormedText, Payload, DecodePayload;
    Utf8RoundTrip(payload);
    Base64UrlRoundTrip(bytes);
    PayloadRoundTrip(position);
  }

  /** Different positions have different cursors, and a cursor needs no escaping in a URL. */
  lemma CursorsAreFaithful(a: Anchor, b: Anchor)
    ensures Encode(a) == Encode(b) <==> a == b
    ensures forall i :: 0 <= i < |Encode(a)| ==> LetterValue(Encode(a)[i]).Some?
  {
    var lossy: seq<Byte> -> string := _ => "";
    Base64UrlAlphabet(Utf8(Payload(a)));
    CursorRoundTrip(a, lossy);
    CursorRoundTrip(b, lossy);
    hide TryDecode, Base64Url, Utf8, Payload, LetterValue;
  }

  /**
   A cursor that cannot be read is refused; it is never read as the first page. One that is read names its
   position for good: the position's own cursor resumes at the same place.
   */
  lemma OnlyAnAbsentCursorIsTheFirstPage(cursor: Option<string>, lossy: seq<Byte> -> string)
    ensures TryDecode(cursor, lossy).FirstPage? <==> cursor.None? || cursor == Some("")
    ensures TryDecode(cursor, lossy).ResumeAt? ==>
              && cursor.Some? && FromBase64Url(cursor.value).Some?
              && TryDecode(Some(Encode(TryDecode(cursor, lossy).position)), lossy) == TryDecode(cursor, lossy)
  {
    if TryDecode(cursor, lossy).ResumeAt? {
      CursorRoundTrip(TryDecode(cursor, lossy).position, lossy);
    }
    hide FromBase64Url, WellFormedText, Parse;
    if cursor.Some? && cursor.value != "" && FromBase64Url(cursor.value).Some? {
      var bytes := FromBase64Url(cursor.value).value;
      var text := WellFormedText(bytes);
      assert !DecodePayload(if text.Some? then text.value else lossy(bytes)).FirstPage?;
    }
  }

  // ----- TryBindLimit

  const DEFAULT_LIMIT: nat := 50
  const MAXIMUM_LIMIT: nat := 200
  const MAX_INT32: nat := 0x7FFF_FFFF

  predicate Digits(text: string)
  {
    forall i :: 0 <= i < |text| ==> '0' <= text[i] <= '9'
  }

  function Number(text: string): nat
    requires Digits(text)
  {
    if text == "" then 0
    else Number(text[..|text| - 1]) * 10 + (text[|text| - 1] - '0') as int
  }

  function Decimal(n: nat): (text: string)
    ensures text != "" && Digits(text)
  {
    if n < 10 then ['0' + n as char] else Decimal(n / 10) + ['0' + (n % 10) as char]
  }

  function ClampLimit(requested: int): int
  {
    if requested < 1 then DEFAULT_LIMIT else if requested < MAXIMUM_LIMIT then requested else MAXIMUM_LIMIT
  }

  /** The bound limit, or nothing when the text is not a whole number that fits 32 bits. */
  function TryBindLimit(raw: Option<string>): Option<int>
  {
    if raw.None? || raw.value == "" then Some(DEFAULT_LIMIT)
    else if !Digits(raw.value) || Number(raw.value) > MAX_INT32 then None
    else Some(ClampLimit(Number(raw.value)))
  }

  lemma {:induction false} NumberDecimal(n: nat)
    ensures Number(Decimal(n)) == n
  {
    if n < 10 {
      assert Decimal(n)[..0] == "";
    } else {
      var text := Decimal(n);
      assert text[..|text| - 1] == Decimal(n / 10);
      NumberDecimal(n / 10);
    }
  }

  /**
   Every limit that binds can be taken: none asked for is fifty, one in range binds to itself, a larger one
   to two hundred; a number that does not fit 32 bits is refused.
   */
  lemma BoundLimitsCanBeTaken<K(!new)>(
    raw: Option<string>, n: nat, table: seq<Position<K>>, sortKey: SortKey<K>, direction: Direction,
    anchor: Option<Anchor>)
    requires TryBindLimit(raw).Some?
    ensures 1 <= TryBindLimit(raw).value <= 200
    ensures TryBindLimit(None) == TryBindLimit(Some("")) == Some(50)
    ensures !Take(table, sortKey, direction, anchor, TryBindLimit(raw).value).LimitBelowOne?
    ensures TryBindLimit(Some(Decimal(n))) ==
            if n >= 2_147_483_648 then None
            else if n == 0 then Some(50)
            else Some(if n < 200 then n else 200)
  {
    NumberDecimal(n);
    hide Number, Decimal, Sorted, Remaining, Cut;
  }

  // ----- one request, and a walk of requests

  /** The envelope of a page; a request with an unreadable cursor or limit is refused. */
  datatype Response<+K> = Answer(rows: seq<Position<K>>, nextCursor: Option<string>) | BadRequest | ServerError

  /** `KeysetPage.From` followed by the envelope's encoding of the position. */
  function NextCursor(next: Option<Anchor>): Option<string>
  {
    if next.None? then None else Some(Encode(next.value))
  }

  function Serve<K(==,!new)>(
    table: seq<Position<K>>, sortKey: SortKey<K>, direction: Direction, cursor: Option<string>,
    rawLimit: Option<string>, lossy: seq<Byte> -> string): Response<K>
  {
    var decoded, limit := TryDecode(cursor, lossy), TryBindLimit(rawLimit);
    if decoded.Refused? || limit.None? then BadRequest
    else
      var anchor := if decoded.ResumeAt? then Some(decoded.position) else None;
      match Take(table, sortKey, direction, anchor, limit.value)
      case Page(slice) => Answer(slice.rows, NextCursor(slice.next))
      case LimitBelowOne => ServerError
      case UnreadableAnchor => ServerError
      case ComparisonUndefined => ServerError
  }

  /** A client that echoes each cursor back until there is none. */
  ghost predicate IsApiWalk<K(!new)>(
    tables: seq<seq<Position<K>>>, sortKey: SortKey<K>, direction: Direction, cursor: Option<string>,
    rawLimit: Option<string>, lossy: seq<Byte> -> string, pages: seq<Response<K>>)
  {
    && |pages| == |tables| >= 1
    && pages[0].Answer? && pages[0] == Serve(tables[0], sortKey, direction, cursor, rawLimit, lossy)
    && (if |pages| == 1 then pages[0].nextCursor.None?
        else && pages[0].nextCursor.Some?
             && IsApiWalk(tables[1..], sortKey, direction, pages[0].nextCursor, rawLimit, lossy, pages[1..]))
  }

  function RowsOf<K>(pages: seq<Response<K>>): seq<Position<K>>
  {
    if pages == [] then []
    else (if pages[0].Answer? then pages[0].rows else []) + RowsOf(pages[1..])
  }

  lemma ServeIsTake<K(!new)>(
    table: seq<Position<K>>, sortKey: SortKey<K>, direction: Direction, anchor: Option<Anchor>,
    rawLimit: Option<string>, lossy: seq<Byte> -> string)
    returns (slice: Slice<K>)
    requires Serve(table, sortKey, direction, NextCursor(anchor), rawLimit, lossy).Answer?
    ensures TryBindLimit(rawLimit).Some?
    ensures Take(table, sortKey, direction, anchor, TryBindLimit(rawLimit).value) == Page(slice)
    ensures Serve(table, sortKey, direction, NextCursor(anchor), rawLimit, lossy) ==
            Answer(slice.rows, NextCursor(slice.next))
  {
    if anchor.Some? {
      CursorRoundTrip(anchor.value, lossy);
    } else {
      assert TryDecode(None, lossy).FirstPage?;
    }
    hide TryDecode, TryBindLimit, Encode;
    slice := Take(table, sortKey, direction, anchor, TryBindLimit(rawLimit).value).slice;
  }

  /** The walk from cursor to cursor is the walk from anchor to anchor. */
  lemma {:induction false} ApiWalkIsKeysetWalk<K(!new)>(
    tables: seq<seq<Position<K>>>, sortKey: SortKey<K>, direction: Direction, anchor: Option<Anchor>,
    rawLimit: Option<string>, lossy: seq<Byte> -> string, pages: seq<Response<K>>)
    returns (slices: seq<Slice<K>>)
    requires IsApiWalk(tables, sortKey, direction, NextCursor(anchor), rawLimit, lossy, pages)
    ensures TryBindLimit(rawLimit).Some?
    ensures IsWalk(tables, sortKey, direction, anchor, TryBindLimit(rawLimit).value, slices)
    ensures Ended(slices) && Returned(slices) == RowsOf(pages) && |slices| == |pages|
    decreases |pages|
  {
    hide Serve, Take, TryBindLimit, Encode;
    var slice := ServeIsTake(tables[0], sortKey, direction, anchor, rawLimit, lossy);
    if |pages| == 1 {
      slices := [slice];
      assert slices[1..] == [] && pages[1..] == [];
    } else {
      var more := ApiWalkIsKeysetWalk(tables[1..], sortKey, direction, slice.next, rawLimit, lossy, pages[1..]);
      slices := [slice] + more;
      assert slices[1..] == more;
    }
  }

  /** A page of a walk, as it is sent. */
  function Sent<K>(slices: seq<Slice<K>>): (pages: seq<Response<K>>)
    ensures |pages| == |slices|
  {
    seq(|slices|, i requires 0 <= i < |slices| => Answer(slices[i].rows, NextCursor(slices[i].next)))
  }

  lemma TakenIsServed<K(!new)>(
    table: seq<Position<K>>, sortKey: SortKey<K>, direction: Direction, anchor: Option<Anchor>,
    rawLimit: Option<string>, lossy: seq<Byte> -> string, slice: Slice<K>)
    requires TryBindLimit(rawLimit).Some?
    requires Take(table, sortKey, direction, anchor, TryBindLimit(rawLimit).value) == Page(slice)
    ensures Serve(table, sortKey, direction, NextCursor(anchor), rawLimit, lossy) ==
            Answer(slice.rows, NextCursor(slice.next))
  {
    if anchor.Some? {
      CursorRoundTrip(anchor.value, lossy);
    } else {
      assert TryDecode(None, lossy).FirstPage?;
    }
    hide TryDecode, TryBindLimit, Encode, Take;
  }

  /** And the other way: a walk from anchor to anchor that ends is one a client can make. */
  lemma {:induction false} KeysetWalkIsApiWalk<K(!new)>(
    tables: seq<seq<Position<K>>>, sortKey: SortKey<K>, direction: Direction, anchor: Option<Anchor>,
    rawLimit: Option<string>, lossy: seq<Byte> -> string, slices: seq<Slice<K>>)
    requires TryBindLimit(rawLimit).Some?
    requires IsWalk(tables, sortKey, direction, anchor, TryBindLimit(rawLimit).value, slices) && Ended(slices)
    ensures IsApiWalk(tables, sortKey, direction, NextCursor(anchor), rawLimit, lossy, Sent(slices))
    decreases |slices|
  {
    hide Serve, Take, TryBindLimit, Encode;
    TakenIsServed(tables[0], sortKey, direction, anchor, rawLimit, lossy, slices[0]);
    if |slices| > 1 {
      KeysetWalkIsApiWalk(tables[1..], sortKey, direction, slices[0].next, rawLimit, lossy, slices[1..]);
      assert Sent(slices)[1..] == Sent(slices[1..]);
    }
  }

  /** A client with a limit that binds always comes to the end of a table that holds still. */
  lemma ApiWalkEnds<K(!new)>(
    table: seq<Position<K>>, sortKey: SortKey<K>, direction: Direction, rawLimit: Option<string>,
    lossy: seq<Byte> -> string)
    returns (pages: seq<Response<K>>)
    requires Sound(sortKey) && Distinct(table) && KeysRead(sortKey, table) && TryBindLimit(rawLimit).Some?
    ensures IsApiWalk(Copies(table, |pages|), sortKey, direction, None, rawLimit, lossy, pages)
  {
    assert TryBindLimit(rawLimit).value >= 1;
    hide IsWalk, IsApiWalk, TryBindLimit, Sound, Distinct, KeysRead, Ended;
    var slices := WalkEnds(table, sortKey, direction, None, None, TryBindLimit(rawLimit).value);
    KeysetWalkIsApiWalk(Copies(table, |slices|), sortKey, direction, None, rawLimit, lossy, slices);
    pages := Sent(slices);
  }

  /**
   So a client that follows the cursors over a table that holds still, without NULL keys, receives every
   row exactly once, in order, in the fewest pages the bound limit allows.
   */
  lemma ApiWalkIsExact<K(!new)>(
    tables: seq<seq<Position<K>>>, table: seq<Position<K>>, sortKey: SortKey<K>, direction: Direction,
    rawLimit: Option<string>, lossy: seq<Byte> -> string, pages: seq<Response<K>>)
    requires Sound(sortKey) && Distinct(table) && KeysRead(sortKey, table) && Still(tables, table)
    requires forall p :: p in table ==> p.key.Some?
    requires IsApiWalk(tables, sortKey, direction, None, rawLimit, lossy, pages)
    ensures RowsOf(pages) == Sorted(sortKey, direction, table)
    ensures |RowsOf(pages)| == |table| && forall p :: p in RowsOf(pages) <==> p in table
    ensures forall i, j :: 0 <= i < j < |RowsOf(pages)| ==>
              Follows(sortKey, direction, RowsOf(pages)[i], RowsOf(pages)[j])
    ensures TryBindLimit(rawLimit).Some? && TryBindLimit(rawLimit).value >= 1
    ensures IsPageCount(|pages|, |table|, TryBindLimit(rawLimit).value)
  {
    var slices := ApiWalkIsKeysetWalk(tables, sortKey, direction, None, rawLimit, lossy, pages);
    assert TryBindLimit(rawLimit).value >= 1;
    SortedFacts(sortKey, direction, table);
    OrderedByKey(sortKey, direction, Sorted(sortKey, direction, table));
    hide *;
    WalkIsExact(tables, table, sortKey, direction, TryBindLimit(rawLimit).value, slices);
  }

  /** A cursor of a key that cannot be compared is answered with a server error, whatever the table holds. */
  lemma IncomparableCursorFails<K(!new)>(
    table: seq<Position<K>>, sortKey: SortKey<K>, direction: Direction, last: Position<K>,
    rawLimit: Option<string>, lossy: seq<Byte> -> string)
    requires !sortKey.comparable && TryBindLimit(rawLimit).Some?
    ensures Serve(table, sortKey, direction, NextCursor(Some(AnchorOf(sortKey, last))), rawLimit, lossy).ServerError?
  {
    CursorRoundTrip(AnchorOf(sortKey, last), lossy);
    hide TryDecode, Encode, Sorted, Remaining, ReadAnchor, AnchorOf;
  }
}
