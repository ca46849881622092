/**
 The expiry sweep over work items. Between its read and each of its transitions other writers change
 rows as they please; every writer raises the version of the row it writes, and nothing locks.
 */
module WorkExpiry {
  import opened Text
  import opened Uuids
  import opened WorkStates

  type Time = int

  datatype Work = Work(
    tenant: Uuid, state: WorkState, claimedBy: Option<string>, expiresAt: Option<Time>, version: nat)

  /** What the sweep's query asks of a row. */
  predicate Overdue(work: Work, tenant: Uuid, now: Time)
  {
    && work.tenant == tenant
    && work.claimedBy.None?
    && work.expiresAt.Some? && work.expiresAt.value <= now
    && work.state.Authorized?
  }

  /** One write by anybody else: a claim, a cancellation, another sweep, an insert. */
  datatype Write =
    | Change(id: Uuid, state: WorkState, claimedBy: Option<string>, expiresAt: Option<Time>)
    | Insert(id: Uuid, work: Work)

  type Table = map<Uuid, Work>

  /** `guarded_update`, `claim_once` and an insert, as far as the version goes. */
  function Written(rows: Table, w: Write): Table
  {
    match w
    case Change(id, state, claimedBy, expiresAt) =>
      if id in rows
      then rows[id := Work(rows[id].tenant, state, claimedBy, expiresAt, rows[id].version + 1)] else rows
    case Insert(id, work) => if id in rows then rows else rows[id := work]
  }

  function AllWritten(rows: Table, writes: seq<Write>): Table
  {
    if writes == [] then rows else Written(AllWritten(rows, writes[..|writes| - 1]), writes[|writes| - 1])
  }

  /** A row as the sweep read it. */
  datatype Candidate = Candidate(id: Uuid, version: nat)

  /** `transition`: a conditional update within the organisation and at the version that was read. */
  function Transitioned(rows: Table, tenant: Uuid, c: Candidate, state: WorkState): (Table, bool)
  {
    if c.id in rows && rows[c.id].tenant == tenant && rows[c.id].version == c.version
    then (rows[c.id := rows[c.id].(state := state, version := c.version + 1)], true)
    else (rows, false)
  }

  /** A result of `list_expired`: overdue rows of the organisation, each once, no more than the limit. */
  predicate Listing(rows: Table, tenant: Uuid, now: Time, limit: nat, candidates: seq<Candidate>)
  {
    && |candidates| <= limit
    && (forall i :: 0 <= i < |candidates| ==>
          && candidates[i].id in rows
          && Overdue(rows[candidates[i].id], tenant, now)
          && candidates[i].version == rows[candidates[i].id].version)
    && (forall i, j :: 0 <= i < j < |candidates| ==> candidates[i].id != candidates[j].id)
  }

  /** The rows left out of a full listing expire no earlier than those in it; out of any other, none is left. */
  ghost predicate OldestListed(rows: Table, tenant: Uuid, now: Time, limit: nat, candidates: seq<Candidate>)
  {
    forall id :: id in rows && Overdue(rows[id], tenant, now) && !Listed(candidates, id) ==>
      && |candidates| == limit
      && forall i :: 0 <= i < |candidates| && candidates[i].id in rows
                     && rows[candidates[i].id].expiresAt.Some? ==>
           rows[candidates[i].id].expiresAt.value <= rows[id].expiresAt.value
  }

  predicate Listed(candidates: seq<Candidate>, id: Uuid)
  {
    exists i :: 0 <= i < |candidates| && candidates[i].id == id
  }

  /** How far a pass has come. */
  datatype Progress = Progress(rows: Table, expired: nat, contended: nat)

  /** The table at the moment of a candidate's transition. */
  function Before(
    rows: Table, tenant: Uuid, candidates: seq<Candidate>, meddling: nat -> seq<Write>, i: nat): Table
    requires i < |candidates|
  {
    AllWritten(Swept(rows, tenant, candidates, meddling, i).rows, meddling(i))
  }

  /** A pass as far as a candidate: before each transition the others write what they like. */
  function Swept(
    rows: Table, tenant: Uuid, candidates: seq<Candidate>, meddling: nat -> seq<Write>, n: nat): (p: Progress)
    requires n <= |candidates|
    ensures p.expired + p.contended == n
    decreases n, 0
  {
    if n == 0 then Progress(rows, 0, 0)
    else
      var before := Swept(rows, tenant, candidates, meddling, n - 1);
      var (after, moved) :=
        Transitioned(AllWritten(before.rows, meddling(n - 1)), tenant, candidates[n - 1], Expired);
      if moved then Progress(after, before.expired + 1, before.contended)
      else Progress(after, before.expired, before.contended + 1)
  }

  class WorkItems {
    var rows: Table

    constructor (rows: Table)
      ensures this.rows == rows
    {
      this.rows := rows;
    }

    /** What other writers do meanwhile. */
    method Interfere(writes: seq<Write>)
      modifies this
      ensures rows == AllWritten(old(rows), writes)
    {
      for i := 0 to |writes|
        invariant rows == AllWritten(old(rows), writes[..i])
      {
        assert writes[..i + 1][..i] == writes[..i];
        rows := Written(rows, writes[i]);
      }
      assert writes[..|writes|] == writes;
    }

    method Transition(tenant: Uuid, id: Uuid, state: WorkState, expectedVersion: nat) returns (moved: bool)
      modifies this
      ensures (rows, moved) == Transitioned(old(rows), tenant, Candidate(id, expectedVersion), state)
      ensures moved <==> id in old(rows) && old(rows)[id].tenant == tenant && old(rows)[id].version == expectedVersion
      ensures rows.Keys == old(rows).Keys && forall x :: x in rows && x != id ==> rows[x] == old(rows)[x]
      ensures moved ==> rows[id].state == state && rows[id].version == expectedVersion + 1
      ensures !moved ==> rows == old(rows)
    {
      if id !in rows || rows[id].tenant != tenant || rows[id].version != expectedVersion {
        return false;
      }
      rows := rows[id := rows[id].(state := state, version := expectedVersion + 1)];
      return true;
    }

    /** `sweep_expired`. */
    method SweepExpired(tenant: Uuid, candidates: seq<Candidate>, meddling: nat -> seq<Write>)
      returns (expired: nat, contended: nat)
      modifies this
      ensures Progress(rows, expired, contended) ==
              Swept(old(rows), tenant, candidates, meddling, |candidates|)
    {
      expired, contended := 0, 0;
      for i := 0 to |candidates|
        invariant Progress(rows, expired, contended) == Swept(old(rows), tenant, candidates, meddling, i)
      {
        Interfere(meddling(i));
        var moved := Transition(tenant, candidates[i].id, Expired, candidates[i].version);
        if moved {
          expired := expired + 1;
        } else {
          contended := contended + 1;
        }
      }
    }
  }

  // ----- versions only grow

  /** A row is as it was, or has a later version. */
  predicate Succeeds(before: Table, after: Table, id: Uuid)
  {
    id in before ==>
      && id in after && after[id].tenant == before[id].tenant
      && (after[id] == before[id] || after[id].version > before[id].version)
  }

  lemma SucceedsTransitive(a: Table, b: Table, c: Table, id: Uuid)
    requires Succeeds(a, b, id) && Succeeds(b, c, id)
    ensures Succeeds(a, c, id)
  {
  }

  lemma {:induction false} WritesSucceed(rows: Table, writes: seq<Write>, id: Uuid)
    ensures Succeeds(rows, AllWritten(rows, writes), id)
  {
    if writes == [] {
    } else {
      WritesSucceed(rows, writes[..|writes| - 1], id);
    }
  }

  lemma {:induction false} SweepSucceeds(
    rows: Table, tenant: Uuid, candidates: seq<Candidate>, meddling: nat -> seq<Write>, n: nat, id: Uuid)
    requires n <= |candidates|
    ensures Succeeds(rows, Swept(rows, tenant, candidates, meddling, n).rows, id)
  {
    if n == 0 {
    } else {
      var before := Swept(rows, tenant, candidates, meddling, n - 1);
      SweepSucceeds(rows, tenant, candidates, meddling, n - 1, id);
      WritesSucceed(before.rows, meddling(n - 1), id);
    }
  }

  /**
   A candidate is expired exactly when, at its transition, its row is the row that was read: then it is
   still unclaimed, authorized and overdue, and nothing of it changes but its state and version. A row
   that anybody has written meanwhile is left as its writer set it.
   */
  lemma OnlyUnchangedRowsExpire(
    rows: Table, tenant: Uuid, now: Time, limit: nat, candidates: seq<Candidate>,
    meddling: nat -> seq<Write>, i: nat)
    requires Listing(rows, tenant, now, limit, candidates) && i < |candidates|
    ensures var id := candidates[i].id;
            var before := Before(rows, tenant, candidates, meddling, i);
            var after := Swept(rows, tenant, candidates, meddling, i + 1);
            && id in before
            && (after.expired > Swept(rows, tenant, candidates, meddling, i).expired <==> before[id] == rows[id])
            && (before[id] == rows[id] ==>
                  && before[id].tenant == tenant && before[id].claimedBy == None && before[id].state == Authorized
                  && before[id].expiresAt.Some? && before[id].expiresAt.value <= now
                  && after.rows == before[id := before[id].(state := Expired, version := rows[id].version + 1)])
            && (before[id] != rows[id] ==> after.rows == before)
  {
    var id := candidates[i].id;
    var p := Swept(rows, tenant, candidates, meddling, i);
    SweepSucceeds(rows, tenant, candidates, meddling, i, id);
    WritesSucceed(p.rows, meddling(i), id);
    SucceedsTransitive(rows, p.rows, Before(rows, tenant, candidates, meddling, i), id);
  }

  /** Nobody else writes the row. */
  predicate LeftAlone(writes: seq<Write>, id: Uuid)
  {
    forall i :: 0 <= i < |writes| ==> !(writes[i].Change? && writes[i].id == id)
  }

  lemma {:induction false} LeftAloneStays(rows: Table, writes: seq<Write>, id: Uuid)
    requires id in rows && LeftAlone(writes, id)
    ensures id in AllWritten(rows, writes) && AllWritten(rows, writes)[id] == rows[id]
  {
    if writes == [] {
    } else {
      LeftAloneStays(rows, writes[..|writes| - 1], id);
    }
  }

  lemma {:induction false} LeftAloneIsSwept(
    rows: Table, tenant: Uuid, now: Time, limit: nat, candidates: seq<Candidate>,
    meddling: nat -> seq<Write>, n: nat, id: Uuid)
    requires Listing(rows, tenant, now, limit, candidates) && n <= |candidates| && id in rows
    requires forall i :: 0 <= i < n ==> LeftAlone(meddling(i), id)
    ensures var after := Swept(rows, tenant, candidates, meddling, n).rows;
            && id in after
            && after[id] == if Listed(candidates[..n], id)
                            then rows[id].(state := Expired, version := rows[id].version + 1) else rows[id]
  {
    if n == 0 {
    } else {
      LeftAloneIsSwept(rows, tenant, now, limit, candidates, meddling, n - 1, id);
      var before := Swept(rows, tenant, candidates, meddling, n - 1);
      LeftAloneStays(before.rows, meddling(n - 1), id);
      ListedSnoc(candidates, n, id);
      hide LeftAlone, Listed, AllWritten, Overdue;
      if candidates[n - 1].id == id {
        NotListedTwice(rows, tenant, now, limit, candidates, n);
      }
    }
  }

  lemma ListedSnoc(candidates: seq<Candidate>, n: nat, id: Uuid)
    requires 0 < n <= |candidates|
    ensures Listed(candidates[..n], id) <==> Listed(candidates[..n - 1], id) || candidates[n - 1].id == id
  {
    assert candidates[..n][n - 1] == candidates[n - 1];
    assert forall i :: 0 <= i < n - 1 ==> candidates[..n][i] == candidates[..n - 1][i];
  }

  lemma NotListedTwice(
    rows: Table, tenant: Uuid, now: Time, limit: nat, candidates: seq<Candidate>, n: nat)
    requires Listing(rows, tenant, now, limit, candidates) && 0 < n <= |candidates|
    ensures !Listed(candidates[..n - 1], candidates[n - 1].id)
  {
    hide Overdue;
  }

  /**
   A row nobody else writes during a pass comes out of it expired if it is the organisation's, unclaimed,
   authorized and overdue, and otherwise just as it went in; an overdue one is left only by a full
   listing, every row of which expires no later.
   */
  lemma ExpiresIffOverdue(
    rows: Table, tenant: Uuid, now: Time, limit: nat, candidates: seq<Candidate>,
    meddling: nat -> seq<Write>, id: Uuid)
    requires Listing(rows, tenant, now, limit, candidates) && OldestListed(rows, tenant, now, limit, candidates)
    requires id in rows && forall i :: 0 <= i < |candidates| ==> LeftAlone(meddling(i), id)
    ensures var after := Swept(rows, tenant, candidates, meddling, |candidates|).rows;
            var overdue := && rows[id].tenant == tenant && rows[id].claimedBy == None
                           && rows[id].state == Authorized
                           && rows[id].expiresAt.Some? && rows[id].expiresAt.value <= now;
            && id in after
            && (after[id] == rows[id].(state := Expired, version := rows[id].version + 1) || after[id] == rows[id])
            && (after[id] != rows[id] ==> overdue)
            && (overdue && after[id] == rows[id] ==>
                  && |candidates| == limit
                  && forall i :: 0 <= i < |candidates| ==>
                       && candidates[i].id in rows && rows[candidates[i].id].expiresAt.Some?
                       && rows[candidates[i].id].expiresAt.value <= rows[id].expiresAt.value)
  {
    LeftAloneIsSwept(rows, tenant, now, limit, candidates, meddling, |candidates|, id);
    assert candidates[..|candidates|] == candidates;
    hide LeftAlone, Swept;
  }

  // ----- any number of sweeps at once

  /** One step of a history in which sweeps and other writers interleave. */
  datatype Move = Other(write: Write) | Attempt(tenant: Uuid, candidate: Candidate, state: WorkState)

  function Moved(rows: Table, move: Move): Table
  {
    match move
    case Other(w) => Written(rows, w)
    case Attempt(tenant, candidate, state) => Transitioned(rows, tenant, candidate, state).0
  }

  function AllMoved(rows: Table, moves: seq<Move>): Table
  {
    if moves == [] then rows else Moved(AllMoved(rows, moves[..|moves| - 1]), moves[|moves| - 1])
  }

  /** The attempt found its row at the version it had read. */
  predicate Won(rows: Table, moves: seq<Move>, i: nat)
  {
    && i < |moves| && moves[i].Attempt?
    && Transitioned(AllMoved(rows, moves[..i]), moves[i].tenant, moves[i].candidate, moves[i].state).1
  }

  lemma {:induction false} MovesSucceed(rows: Table, moves: seq<Move>, i: nat, j: nat, id: Uuid)
    requires i <= j <= |moves|
    ensures Succeeds(AllMoved(rows, moves[..i]), AllMoved(rows, moves[..j]), id)
  {
    if i == j {
    } else {
      MovesSucceed(rows, moves, i, j - 1, id);
      assert moves[..j][..j - 1] == moves[..j - 1];
    }
  }

  /** However sweeps and writers interleave, one version of one row is moved on at most once. */
  lemma OneWinnerPerVersion(rows: Table, moves: seq<Move>, i: nat, j: nat)
    requires i < j < |moves| && Won(rows, moves, i) && Won(rows, moves, j)
    ensures moves[i].candidate != moves[j].candidate
  {
    var id := moves[i].candidate.id;
    assert moves[..i + 1][..i] == moves[..i];
    MovesSucceed(rows, moves, i + 1, j, id);
  }
}
