/**
 RagCore's outbox and `dispatch_once`: rebuild, publish and settle a batch of the oldest undispatched
 rows. A row that cannot be rebuilt raises before anything is caught and ends the pass; the query has no
 ceiling, so rows past it are tried on.
 */
module TriggerOutbox {
  import opened Text
  import opened Uuids

  // ----- envelopes and rows

  const TRIGGER_KINDS: set<string> :=
    {"approval.granted", "approval.rejected", "consent.granted", "consent.refused", "sample.flow"}
  const INTEGRATION_KINDS: set<string> :=
    {"integration.execute", "integration.completed", "integration.failed"}

  datatype Envelope =
    | Trigger(workItem: Uuid, correlationId: string, kind: string)
    | Command(jobId: Uuid, correlationId: string, kind: string)
  {
    predicate Valid() {
      if Trigger? then kind in TRIGGER_KINDS else kind in INTEGRATION_KINDS
    }
  }

  datatype Row = Row(kind: string, payload: map<string, string>, attempts: nat, dispatched: bool)

  /** `envelope_from_row`; nothing stands for the `ValueError` or `KeyError` it raises. */
  function EnvelopeFromRow(row: Row): Option<Envelope>
  {
    var name := if row.kind in INTEGRATION_KINDS then "jobId" else "workItemId";
    if name !in row.payload || "correlationId" !in row.payload then None
    else
      var id := Parse(row.payload[name]);
      if id.None? then None
      else if row.kind in INTEGRATION_KINDS then Some(Command(id.value, row.payload["correlationId"], row.kind))
      else if row.kind in TRIGGER_KINDS then Some(Trigger(id.value, row.payload["correlationId"], row.kind))
      else None
  }

  /** The row written for an envelope. */
  function RowFor(envelope: Envelope): Row
  {
    var id := if envelope.Trigger? then envelope.workItem else envelope.jobId;
    Row(envelope.kind,
        map[(if envelope.Trigger? then "workItemId" else "jobId") := Render(id),
            "correlationId" := envelope.correlationId],
        0, false)
  }

  /** A row written for an envelope is rebuilt as that envelope: never as the other sort. */
  lemma EnqueuedRowsRebuild(envelope: Envelope)
    requires envelope.Valid()
    ensures EnvelopeFromRow(RowFor(envelope)) == Some(envelope)
    ensures RowFor(envelope).attempts == 0 && !RowFor(envelope).dispatched
  {
    hide Parse, Render;
    ParseRender(if envelope.Trigger? then envelope.workItem else envelope.jobId);
    KindsApart(envelope.kind);
    assert "workItemId" != "correlationId" && "jobId" != "correlationId" by {
      assert "workItemId"[0] == 'w' && "jobId"[0] == 'j' && "correlationId"[0] == 'c';
    }
  }

  /** Exactly which rows are rebuilt, and as which sort: one of five trigger kinds, or one of three commands. */
  lemma RebuiltIff(row: Row)
    ensures EnvelopeFromRow(row).Some? && EnvelopeFromRow(row).value.Trigger? <==>
            && row.kind in
               ["approval.granted", "approval.rejected", "consent.granted", "consent.refused", "sample.flow"]
            && "workItemId" in row.payload && Parse(row.payload["workItemId"]).Some?
            && "correlationId" in row.payload
    ensures EnvelopeFromRow(row).Some? && EnvelopeFromRow(row).value.Command? <==>
            && row.kind in ["integration.execute", "integration.completed", "integration.failed"]
            && "jobId" in row.payload && Parse(row.payload["jobId"]).Some?
            && "correlationId" in row.payload
  {
    hide Parse;
    KindsApart(row.kind);
  }

  lemma KindsApart(kind: string)
    ensures !(kind in TRIGGER_KINDS && kind in INTEGRATION_KINDS)
  {
    if kind in TRIGGER_KINDS {
      assert kind[0] in ['a', 'c', 's'];
    }
    if kind in INTEGRATION_KINDS {
      assert kind[0] == 'i';
    }
  }

  /** What every row can come to, whatever the transport says about the others. */
  function Settled(row: Row, accepted: bool): Row
  {
    row.(attempts := row.attempts + 1, dispatched := row.dispatched || accepted)
  }

  /** The oldest undispatched rows, by sequence, as places in the table. */
  function Undispatched(rows: seq<Row>, limit: nat): (batch: seq<nat>)
    ensures |batch| <= limit && |batch| <= |rows|
    ensures forall i :: 0 <= i < |batch| ==> batch[i] < |rows| && !rows[batch[i]].dispatched
    ensures forall i, j :: 0 <= i < j < |batch| ==> batch[i] < batch[j]
  {
    if rows == [] then []
    else
      var last := |rows| - 1;
      var older := Undispatched(rows[..last], limit);
      if |older| < limit && !rows[last].dispatched then older + [last] else older
  }

  /** The part of a batch before the first row that cannot be rebuilt. */
  function Rebuildable(rows: seq<Row>, batch: seq<nat>): (n: nat)
    requires forall i :: 0 <= i < |batch| ==> batch[i] < |rows|
    ensures n <= |batch|
    ensures forall i :: 0 <= i < n ==> EnvelopeFromRow(rows[batch[i]]).Some?
    ensures n < |batch| ==> EnvelopeFromRow(rows[batch[n]]).None?
  {
    if batch == [] || EnvelopeFromRow(rows[batch[0]]).None? then 0
    else 1 + Rebuildable(rows, batch[1..])
  }

  datatype DispatchResult = DispatchResult(published: nat, failed: nat, undispatchable: nat)

  /** How the first rows of a batch are counted. */
  function Counts(rows: seq<Row>, batch: seq<nat>, accepted: nat -> bool, ceiling: nat): DispatchResult
    requires forall i :: 0 <= i < |batch| ==> batch[i] < |rows|
  {
    if batch == [] then DispatchResult(0, 0, 0)
    else
      var last := batch[|batch| - 1];
      var before := Counts(rows, batch[..|batch| - 1], accepted, ceiling);
      if accepted(last) then before.(published := before.published + 1)
      else if rows[last].attempts + 1 >= ceiling then before.(undispatchable := before.undispatchable + 1)
      else before.(failed := before.failed + 1)
  }

  lemma {:induction false} CountsAddUp(rows: seq<Row>, batch: seq<nat>, accepted: nat -> bool, ceiling: nat)
    requires forall i :: 0 <= i < |batch| ==> batch[i] < |rows|
    ensures var r := Counts(rows, batch, accepted, ceiling);
            r.published + r.failed + r.undispatchable == |batch|
  {
    if batch == [] {
    } else {
      CountsAddUp(rows, batch[..|batch| - 1], accepted, ceiling);
    }
  }

  /** The table after some of its rows have been settled, each by its own publication. */
  function SettledRows(rows: seq<Row>, done: seq<nat>, accepted: nat -> bool): (result: seq<Row>)
    ensures |result| == |rows|
  {
    seq(|rows|, k requires 0 <= k < |rows| => if k in done then Settled(rows[k], accepted(k)) else rows[k])
  }

  lemma SettledNone(rows: seq<Row>, accepted: nat -> bool)
    ensures SettledRows(rows, [], accepted) == rows
  {
  }

  lemma SettledNext(rows: seq<Row>, batch: seq<nat>, i: nat, accepted: nat -> bool)
    requires forall a, b :: 0 <= a < b < |batch| ==> batch[a] < batch[b]
    requires i < |batch| && batch[i] < |rows|
    ensures SettledRows(rows, batch[..i], accepted)[batch[i]] == rows[batch[i]]
    ensures SettledRows(rows, batch[..i + 1], accepted) ==
            SettledRows(rows, batch[..i], accepted)[batch[i] := Settled(rows[batch[i]], accepted(batch[i]))]
  {
    BatchFresh(rows, batch, i);
    hide Settled;
  }

  lemma CountsNext(rows: seq<Row>, batch: seq<nat>, i: nat, accepted: nat -> bool, ceiling: nat)
    requires forall j :: 0 <= j < |batch| ==> batch[j] < |rows|
    requires i < |batch|
    ensures Counts(rows, batch[..i + 1], accepted, ceiling) ==
            var before := Counts(rows, batch[..i], accepted, ceiling);
            if accepted(batch[i]) then before.(published := before.published + 1)
            else if rows[batch[i]].attempts + 1 >= ceiling
            then before.(undispatchable := before.undispatchable + 1)
            else before.(failed := before.failed + 1)
  {
    assert batch[..i + 1][..i] == batch[..i];
  }

  /** What becomes of one row in a pass. */
  datatype Fate = Published | FailedOnce | GivenUp | Interrupted

  /** How a pass ends: with its counts, with the exception of a row that cannot be rebuilt, or by dying. */
  datatype PassEnd = Finished(result: DispatchResult) | Raised | Died

  class Outbox {
    var rows: seq<Row>
    /** Everything the transport accepted, by row. */
    var sent: seq<nat>

    constructor ()
      ensures rows == [] && sent == [] && NothingLost()
    {
      rows, sent := [], [];
    }

    /** A row leaves the undispatched only after the transport took it. */
    predicate NothingLost()
      reads this
    {
      forall k :: 0 <= k < |rows| && rows[k].dispatched ==> k in sent
    }

    /** `enqueue` and `enqueue_integration_command`. */
    method Enqueue(envelope: Envelope)
      requires NothingLost()
      modifies this
      ensures rows == old(rows) + [RowFor(envelope)] && sent == old(sent) && NothingLost()
    {
      rows := rows + [RowFor(envelope)];
    }

    method MarkDispatched(k: nat)
      requires k < |rows|
      modifies this`rows
      ensures rows == old(rows)[k := old(rows)[k].(attempts := old(rows)[k].attempts + 1, dispatched := true)]
    {
      rows := rows[k := rows[k].(attempts := rows[k].attempts + 1, dispatched := true)];
    }

    method RecordFailure(k: nat) returns (attempts: nat)
      requires k < |rows|
      modifies this`rows
      ensures rows == old(rows)[k := old(rows)[k].(attempts := old(rows)[k].attempts + 1)]
      ensures attempts == rows[k].attempts
    {
      rows := rows[k := rows[k].(attempts := rows[k].attempts + 1)];
      attempts := rows[k].attempts;
    }

    /** The publisher, as the transport answers for each row in this pass. */
    method Publish(k: nat, envelope: Envelope, accepted: nat -> bool) returns (ok: bool)
      modifies this`sent
      ensures ok == accepted(k) && sent == if ok then old(sent) + [k] else old(sent)
    {
      ok := accepted(k);
      if ok {
        sent := sent + [k];
      }
    }

    /** Publish one row and settle it by what the transport said, unless the process dies first. */
    method SettleOne(k: nat, envelope: Envelope, accepted: nat -> bool, ceiling: nat, life: nat)
      returns (fate: Fate)
      requires NothingLost() && k < |rows|
      modifies this
      ensures NothingLost() && old(sent) <= sent
      ensures rows == if fate.Interrupted? then old(rows)
                      else old(rows)[k := Settled(old(rows)[k], accepted(k))]
      ensures fate == if life < 2 then Interrupted
                      else if accepted(k) then Published
                      else if old(rows)[k].attempts + 1 >= ceiling then GivenUp else FailedOnce
    {
      if life == 0 {
        return Interrupted;
      }
      var ok := Publish(k, envelope, accepted);
      if life == 1 {
        return Interrupted;
      }
      if !ok {
        var attempts := RecordFailure(k);
        return if attempts >= ceiling then GivenUp else FailedOnce;
      }
      MarkDispatched(k);
      return Published;
    }

    /**
     `dispatch_once`, with a process that dies after so many publications and updates.

     Left to run, the pass settles each row before the first that cannot be rebuilt by that row's own
     publication alone, and no other; it finishes exactly when all can be rebuilt, and then counts each
     row once. Wherever it dies, some first rows are settled, and nothing is marked that was not sent.
     */
    method DispatchOnce(batchSize: nat, accepted: nat -> bool, ceiling: nat, life: nat)
      returns (end: PassEnd, ghost settled: nat)
      requires NothingLost()
      modifies this
      ensures NothingLost() && old(sent) <= sent
      ensures var batch := Undispatched(old(rows), batchSize);
              var n := Rebuildable(old(rows), batch);
              && settled <= n && rows == SettledRows(old(rows), batch[..settled], accepted)
              && (end != Died ==> settled == n)
              && (end == Died ==> life < 2 * (settled + 1))
              && (end.Raised? ==> n < |batch|)
              && (end.Finished? ==> n == |batch| && end.result == Counts(old(rows), batch, accepted, ceiling))
    {
      hide Settled, Undispatched, EnvelopeFromRow, Counts, SettledRows, Rebuildable;
      ghost var start := rows;
      var batch := Undispatched(rows, batchSize);
      ghost var n := Rebuildable(rows, batch);
      var published, failed, undispatchable := 0, 0, 0;
      var left := life;
      var i := 0;
      SettledNone(rows, accepted);
      CountsNone(rows, accepted, ceiling);
      assert batch[..0] == [];
      while i < |batch|
        invariant 0 <= i <= n && n == Rebuildable(start, batch)
        invariant NothingLost() && old(sent) <= sent && rows == SettledRows(start, batch[..i], accepted)
        invariant DispatchResult(published, failed, undispatchable) ==
                  Counts(start, batch[..i], accepted, ceiling)
        invariant left == if life < 2 * i then 0 else life - 2 * i
        invariant life >= 2 * i
      {
        var k := batch[i];
        SettledNext(start, batch, i, accepted);
        CountsNext(start, batch, i, accepted, ceiling);
        var envelope := EnvelopeFromRow(rows[k]);
        if envelope.None? {
          return Raised, i;
        }
        var fate := SettleOne(k, envelope.value, accepted, ceiling, left);
        match fate {
          case Interrupted => return Died, i;
          case Published => published := published + 1;
          case GivenUp => undispatchable := undispatchable + 1;
          case FailedOnce => failed := failed + 1;
        }
        left := left - 2;
        i := i + 1;
      }
      assert batch[..i] == batch;
      return Finished(DispatchResult(published, failed, undispatchable)), i;
    }
  }

  lemma CountsNone(rows: seq<Row>, accepted: nat -> bool, ceiling: nat)
    ensures Counts(rows, [], accepted, ceiling) == DispatchResult(0, 0, 0)
  {
  }

  /** A row is in a batch once. */
  lemma BatchFresh(rows: seq<Row>, batch: seq<nat>, i: nat)
    requires forall a, b :: 0 <= a < b < |batch| ==> batch[a] < batch[b]
    requires i < |batch|
    ensures batch[i] !in batch[..i]
    ensures forall k :: k in batch[..i + 1] <==> k in batch[..i] || k == batch[i]
  {
    assert batch[..i + 1] == batch[..i] + [batch[i]];
  }
}
