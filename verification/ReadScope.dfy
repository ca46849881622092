/** The scope a request is bound to, the row filter built from it, and what a request can return. */
module ReadScope {
  import opened Text
  import opened Uuids
  import opened TextEncodings
  import opened Keyset
  import opened KeysetWalk
  import opened Cursors

  // ----- RequestScope

  datatype Scope = Unbound | Organisation(tenant: Uuid) | OperatorWide

  /** A call of `BindOrganisation` or `BindOperatorWide`. */
  datatype Bind = ToOrganisation(tenant: Uuid) | ToOperatorWide

  function ScopeOf(bind: Bind): Scope
  {
    match bind
    case ToOrganisation(tenant) => Organisation(tenant)
    case ToOperatorWide => OperatorWide
  }

  /** The scope after some calls: what the first of them asked for. */
  function ScopeAfter(binds: seq<Bind>): Scope
  {
    if binds == [] then Unbound else ScopeOf(binds[0])
  }

  class RequestScope {
    var tenantBound: bool
    var operatorWide: bool
    var organisation: Option<Uuid>

    constructor ()
      ensures Valid() && Bound() == Unbound
    {
      tenantBound, operatorWide, organisation := false, false, None;
    }

    predicate Valid()
      reads this
    {
      && (organisation.Some? ==> tenantBound && !operatorWide)
      && (operatorWide ==> tenantBound)
      && (tenantBound ==> operatorWide || organisation.Some?)
    }

    function Bound(): Scope
      reads this
    {
      if organisation.Some? then Organisation(organisation.value)
      else if operatorWide then OperatorWide else Unbound
    }

    method BindOrganisation(tenant: Uuid) returns (ok: bool)
      requires Valid()
      modifies this
      ensures Valid() && (ok <==> old(Bound()) == Unbound)
      ensures Bound() == if ok then Organisation(tenant) else old(Bound())
    {
      if tenantBound {
        return false;
      }
      organisation, operatorWide, tenantBound := Some(tenant), false, true;
      return true;
    }

    method BindOperatorWide() returns (ok: bool)
      requires Valid()
      modifies this
      ensures Valid() && (ok <==> old(Bound()) == Unbound)
      ensures Bound() == if ok then OperatorWide else old(Bound())
    {
      if tenantBound {
        return false;
      }
      organisation, operatorWide, tenantBound := None, true, true;
      return true;
    }

    /** Any sequence of calls: the first one binds, every later one is refused and changes nothing. */
    method BindAll(binds: seq<Bind>) returns (accepted: seq<bool>)
      requires Valid() && Bound() == Unbound
      modifies this
      ensures Valid() && Bound() == ScopeAfter(binds)
      ensures |accepted| == |binds| && forall i :: 0 <= i < |binds| ==> (accepted[i] <==> i == 0)
    {
      accepted := [];
      for i := 0 to |binds|
        invariant Valid() && Bound() == ScopeAfter(binds[..i])
        invariant |accepted| == i && forall j :: 0 <= j < i ==> (accepted[j] <==> j == 0)
      {
        assert i > 0 ==> binds[..i + 1][0] == binds[..i][0];
        var ok: bool;
        match binds[i] {
          case ToOrganisation(tenant) => ok := BindOrganisation(tenant);
          case ToOperatorWide => ok := BindOperatorWide();
        }
        accepted := accepted + [ok];
      }
      assert binds[..|binds|] == binds;
    }
  }

  // ----- ReadModelQueryFilter

  datatype Row<+K> = Row(tenant: Uuid, position: Position<K>, deletedAt: Option<int>)

  /** The predicate `Build` composes, for a soft-deletable row or one that is not. */
  predicate Visible<K>(scope: Scope, softDeletable: bool, row: Row<K>)
  {
    var hasOrganisation := scope.Organisation?;
    var currentTenant := if scope.Organisation? then scope.tenant else 0;
    && ((hasOrganisation && row.tenant == currentTenant) || scope.OperatorWide?)
    && (softDeletable ==> row.deletedAt.None?)
  }

  /** The positions of the rows a query ranges over: filtered by scope, then by what the caller narrows to. */
  function Ranged<K>(scope: Scope, softDeletable: bool, narrowing: Row<K> -> bool, table: seq<Row<K>>)
    : (positions: seq<Position<K>>)
  {
    if table == [] then []
    else
      (if Visible(scope, softDeletable, table[0]) && narrowing(table[0]) then [table[0].position] else [])
      + Ranged(scope, softDeletable, narrowing, table[1..])
  }

  /** One row of the table for each identifier. */
  predicate DistinctRows<K>(table: seq<Row<K>>)
  {
    forall i, j :: 0 <= i < j < |table| ==> table[i].position.id != table[j].position.id
  }

  /**
   Some row at this position is in scope, and within what the caller narrows to: a row of the bound
   organisation, or any organisation's when bound to all of them, and not a deleted one.
   */
  ghost predicate InScope<K>(
    scope: Scope, softDeletable: bool, narrowing: Row<K> -> bool, table: seq<Row<K>>, p: Position<K>)
  {
    exists i :: 0 <= i < |table| && table[i].position == p && narrowing(table[i])
                && (softDeletable ==> table[i].deletedAt == None)
                && (scope == OperatorWide || scope == Organisation(table[i].tenant))
  }

  /** The filter and the narrowing let this row through, and it is at this position. */
  predicate PassesAt<K(==)>(
    scope: Scope, softDeletable: bool, narrowing: Row<K> -> bool, table: seq<Row<K>>, p: Position<K>, i: int)
  {
    0 <= i < |table| && table[i].position == p && Visible(scope, softDeletable, table[i]) && narrowing(table[i])
  }

  lemma InScopePasses<K(!new)>(
    scope: Scope, softDeletable: bool, narrowing: Row<K> -> bool, table: seq<Row<K>>, p: Position<K>)
    ensures InScope(scope, softDeletable, narrowing, table, p) <==>
            exists i :: PassesAt(scope, softDeletable, narrowing, table, p, i)
  {
    if InScope(scope, softDeletable, narrowing, table, p) {
      var i :| 0 <= i < |table| && table[i].position == p && narrowing(table[i])
               && (softDeletable ==> table[i].deletedAt == None)
               && (scope == OperatorWide || scope == Organisation(table[i].tenant));
      assert PassesAt(scope, softDeletable, narrowing, table, p, i);
    }
  }

  lemma {:induction false} RangedIsInScope<K(!new)>(
    scope: Scope, softDeletable: bool, narrowing: Row<K> -> bool, table: seq<Row<K>>, p: Position<K>)
    ensures p in Ranged(scope, softDeletable, narrowing, table) <==>
            InScope(scope, softDeletable, narrowing, table, p)
  {
    if table == [] {
    } else {
      var rest := table[1..];
      InScopePasses(scope, softDeletable, narrowing, table, p);
      InScopePasses(scope, softDeletable, narrowing, rest, p);
      hide Visible, InScope;
      RangedIsInScope(scope, softDeletable, narrowing, rest, p);
      if i :| PassesAt(scope, softDeletable, narrowing, rest, p, i) {
        assert PassesAt(scope, softDeletable, narrowing, table, p, i + 1);
      }
      if i :| PassesAt(scope, softDeletable, narrowing, table, p, i) {
        assert i > 0 ==> PassesAt(scope, softDeletable, narrowing, rest, p, i - 1);
      }
    }
  }

  lemma {:induction false} RangedDistinct<K(!new)>(
    scope: Scope, softDeletable: bool, narrowing: Row<K> -> bool, table: seq<Row<K>>)
    requires DistinctRows(table)
    ensures Distinct(Ranged(scope, softDeletable, narrowing, table))
  {
    if table == [] {
    } else {
      RangedDistinct(scope, softDeletable, narrowing, table[1..]);
      hide Visible;
      var p := table[0].position;
      RangedIsInScope(scope, softDeletable, narrowing, table[1..], p);
      assert p !in Ranged(scope, softDeletable, narrowing, table[1..]);
    }
  }

  // ----- whole requests

  function ServeScoped<K(==,!new)>(
    binds: seq<Bind>, softDeletable: bool, narrowing: Row<K> -> bool, table: seq<Row<K>>,
    sortKey: SortKey<K>, direction: Direction, cursor: Option<string>, rawLimit: Option<string>,
    lossy: seq<Byte> -> string): Response<K>
  {
    Serve(Ranged(ScopeAfter(binds), softDeletable, narrowing, table), sortKey, direction, cursor, rawLimit, lossy)
  }

  /** Whatever is served was in the table, however its key compares. */
  lemma ServedRowsAreRanged<K(!new)>(
    table: seq<Position<K>>, sortKey: SortKey<K>, direction: Direction, cursor: Option<string>,
    rawLimit: Option<string>, lossy: seq<Byte> -> string, p: Position<K>)
    requires Serve(table, sortKey, direction, cursor, rawLimit, lossy).Answer?
    ensures p in Serve(table, sortKey, direction, cursor, rawLimit, lossy).rows ==> p in table
  {
    var decoded := TryDecode(cursor, lossy);
    var anchor := if decoded.ResumeAt? then Some(decoded.position) else None;
    var position := if anchor.None? then None else ReadAnchor(sortKey, anchor.value);
    var rest := Remaining(sortKey, direction, table, position);
    SortedMembers(sortKey, direction, rest, p);
    hide TryDecode, TryBindLimit, Sorted, Before, Beyond;
  }

  /**
   Whatever is bound, in whatever order, and whatever cursor, sort, limit and narrowing the caller sends:
   every row returned is one the bound scope may see and the narrowing asked for. A request that was
   bound to nothing gets nothing, whatever the rows hold. No order is asked of the sort key.
   */
  lemma ReturnedRowsAreInScope<K(!new)>(
    binds: seq<Bind>, softDeletable: bool, narrowing: Row<K> -> bool, table: seq<Row<K>>,
    sortKey: SortKey<K>, direction: Direction, cursor: Option<string>, rawLimit: Option<string>,
    lossy: seq<Byte> -> string, p: Position<K>)
    requires ServeScoped(binds, softDeletable, narrowing, table, sortKey, direction, cursor, rawLimit, lossy).Answer?
    requires p in ServeScoped(binds, softDeletable, narrowing, table, sortKey, direction, cursor, rawLimit, lossy).rows
    ensures InScope(ScopeAfter(binds), softDeletable, narrowing, table, p)
    ensures InScope(ScopeAfter(binds), softDeletable, _ => true, table, p)
    ensures binds != []
    ensures exists i :: 0 <= i < |table| && table[i].position == p && narrowing(table[i])
                        && (softDeletable ==> table[i].deletedAt == None)
                        && (binds[0].ToOrganisation? ==> table[i].tenant == binds[0].tenant)
  {
    var scope := ScopeAfter(binds);
    hide Ranged, Serve;
    ServedRowsAreRanged(Ranged(scope, softDeletable, narrowing, table), sortKey, direction, cursor, rawLimit, lossy, p);
    RangedIsInScope(scope, softDeletable, narrowing, table, p);
    var i :| 0 <= i < |table| && table[i].position == p && narrowing(table[i])
             && (softDeletable ==> table[i].deletedAt == None)
             && (scope == OperatorWide || scope == Organisation(table[i].tenant));
  }

  /** The rows of one organisation. */
  function RowsOfTenant<K>(table: seq<Row<K>>, tenant: Uuid): seq<Row<K>>
  {
    if table == [] then []
    else (if table[0].tenant == tenant then [table[0]] else []) + RowsOfTenant(table[1..], tenant)
  }

  lemma {:induction false} RangedOverOwnRows<K(!new)>(
    tenant: Uuid, softDeletable: bool, narrowing: Row<K> -> bool, table: seq<Row<K>>)
    ensures Ranged(Organisation(tenant), softDeletable, narrowing, table) ==
            Ranged(Organisation(tenant), softDeletable, narrowing, RowsOfTenant(table, tenant))
  {
    if table == [] {
    } else {
      var rest := RowsOfTenant(table[1..], tenant);
      RangedOverOwnRows(tenant, softDeletable, narrowing, table[1..]);
      if table[0].tenant == tenant {
        assert RowsOfTenant(table, tenant) == [table[0]] + rest;
        assert ([table[0]] + rest)[1..] == rest;
      } else {
        assert RowsOfTenant(table, tenant) == rest;
      }
    }
  }

  /**
   Whatever other organisations store, a request bound to one gets the same answer: page, cursor, refusal
   and all.
   */
  lemma OtherTenantsDoNotShow<K(!new)>(
    binds: seq<Bind>, softDeletable: bool, narrowing: Row<K> -> bool, a: seq<Row<K>>, b: seq<Row<K>>,
    sortKey: SortKey<K>, direction: Direction, cursor: Option<string>, rawLimit: Option<string>,
    lossy: seq<Byte> -> string)
    requires binds != [] && binds[0].ToOrganisation?
    requires RowsOfTenant(a, binds[0].tenant) == RowsOfTenant(b, binds[0].tenant)
    ensures ServeScoped(binds, softDeletable, narrowing, a, sortKey, direction, cursor, rawLimit, lossy) ==
            ServeScoped(binds, softDeletable, narrowing, b, sortKey, direction, cursor, rawLimit, lossy)
  {
    hide Serve, Ranged, RowsOfTenant;
    RangedOverOwnRows(binds[0].tenant, softDeletable, narrowing, a);
    RangedOverOwnRows(binds[0].tenant, softDeletable, narrowing, b);
  }

  /** Following the cursors, a caller gets exactly the rows its scope and narrowing allow, in order. */
  lemma WholeWalkIsTheScope<K(!new)>(
    binds: seq<Bind>, softDeletable: bool, narrowing: Row<K> -> bool, table: seq<Row<K>>,
    sortKey: SortKey<K>, direction: Direction, rawLimit: Option<string>, lossy: seq<Byte> -> string,
    pages: seq<Response<K>>, p: Position<K>)
    requires Sound(sortKey) && DistinctRows(table)
    requires forall i :: 0 <= i < |table| ==> table[i].position.key.Some? && ReadsBack(sortKey, table[i].position)
    requires IsApiWalk(Copies(Ranged(ScopeAfter(binds), softDeletable, narrowing, table), |pages|), sortKey,
                       direction, None, rawLimit, lossy, pages)
    ensures p in RowsOf(pages) <==> InScope(ScopeAfter(binds), softDeletable, narrowing, table, p)
    ensures binds != [] && binds[0].ToOrganisation? ==>
              (p in RowsOf(pages) <==>
                 exists i :: 0 <= i < |table| && table[i].position == p && narrowing(table[i])
                             && (softDeletable ==> table[i].deletedAt == None)
                             && table[i].tenant == binds[0].tenant)
    ensures Ordered(sortKey, direction, RowsOf(pages))
    ensures forall i, j :: 0 <= i < j < |RowsOf(pages)| ==>
              Follows(sortKey, direction, RowsOf(pages)[i], RowsOf(pages)[j])
  {
    var scope := ScopeAfter(binds);
    var ranged := Ranged(scope, softDeletable, narrowing, table);
    RangedDistinct(scope, softDeletable, narrowing, table);
    RangedReads(scope, softDeletable, narrowing, table, sortKey);
    hide IsApiWalk, Ranged, Sound, Before, Visible, ReadsBack, KeysRead, Distinct;
    ApiWalkIsExact(Copies(ranged, |pages|), ranged, sortKey, direction, rawLimit, lossy, pages);
    SortedOf(sortKey, direction, ranged);
    RangedIsInScope(scope, softDeletable, narrowing, table, p);
  }

  lemma RangedReads<K(!new)>(
    scope: Scope, softDeletable: bool, narrowing: Row<K> -> bool, table: seq<Row<K>>, sortKey: SortKey<K>)
    requires forall i :: 0 <= i < |table| ==> table[i].position.key.Some? && ReadsBack(sortKey, table[i].position)
    ensures KeysRead(sortKey, Ranged(scope, softDeletable, narrowing, table))
    ensures forall p :: p in Ranged(scope, softDeletable, narrowing, table) ==> p.key.Some?
  {
    hide ReadsBack, Visible;
    forall p | p in Ranged(scope, softDeletable, narrowing, table)
      ensures ReadsBack(sortKey, p) && p.key.Some?
    {
      RangedIsInScope(scope, softDeletable, narrowing, table, p);
    }
  }

  lemma SortedOf<K(!new)>(sortKey: SortKey<K>, direction: Direction, rows: seq<Position<K>>)
    requires Sound(sortKey) && Distinct(rows)
    ensures Ordered(sortKey, direction, Sorted(sortKey, direction, rows))
    ensures forall p :: p in Sorted(sortKey, direction, rows) <==> p in rows
  {
    SortedFacts(sortKey, direction, rows);
  }
}
