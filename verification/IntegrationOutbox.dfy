/**
 The Integrations outbox: any number of dispatcher replicas claim its oldest pending rows with
 `FOR UPDATE SKIP LOCKED`, settle each claimed row once, and commit or die. A row's place in the
 sequence is its place by `created_at`.
 */
module IntegrationOutbox {
  import opened Text

  const CEILING: nat := 10

  datatype Row = Row(attempts: nat, undispatchable: bool, dispatched: bool)
  {
    predicate Pending() {
      !dispatched && !undispatchable
    }
  }

  const NEW_ROW := Row(0, false, false)

  /** The table's `CHECK`. */
  predicate Check(row: Row)
  {
    0 <= row.attempts <= CEILING
  }

  function MarkDispatched(row: Row): Row
  {
    row.(dispatched := true)
  }

  function RecordFailure(row: Row): Row
  {
    row.(attempts := row.attempts + 1, undispatchable := row.attempts + 1 >= CEILING)
  }

  /** A new row, failed so many times. */
  function FailedTimes(n: nat): Row
  {
    if n == 0 then NEW_ROW else RecordFailure(FailedTimes(n - 1))
  }

  /** A row has ten attempts: it is pending after each of the first nine failures, and not after the tenth. */
  lemma {:induction false} TenFailuresAndOut(n: nat)
    requires n <= 10
    ensures FailedTimes(n).attempts == n && !FailedTimes(n).dispatched
    ensures FailedTimes(n).Pending() <==> n < 10
  {
    if n == 0 {
    } else {
      TenFailuresAndOut(n - 1);
    }
  }

  // ----- replicas

  /** An open transaction: the rows it holds, and what it has written to some of them. */
  datatype Transaction = Transaction(claimed: set<nat>, updates: map<nat, Row>)

  /** `sent` is everything the transport ever accepted; `rejected`, whether the `CHECK` ever refused. */
  datatype State = State(rows: seq<Row>, open: map<nat, Transaction>, sent: set<nat>, rejected: bool)

  datatype Action =
    | Enqueue
    | Claim(replica: nat, limit: nat)
    | Publish(replica: nat, row: nat)
    | Fail(replica: nat, row: nat)
    | Commit(replica: nat)
    | Die(replica: nat)

  /** Rows held by any open transaction. */
  function Locked(open: map<nat, Transaction>): set<nat>
  {
    set replica, k | replica in open && k in open[replica].claimed :: k
  }

  /** The oldest pending rows that nobody holds. */
  function Claimable(rows: seq<Row>, locked: set<nat>, limit: nat): (claimed: set<nat>)
    ensures forall k :: k in claimed ==> k < |rows| && rows[k].Pending() && k !in locked
    ensures |claimed| <= limit
  {
    if rows == [] then {}
    else
      var last := |rows| - 1;
      var older := Claimable(rows[..last], locked, limit);
      if |older| < limit && rows[last].Pending() && last !in locked then older + {last} else older
  }

  function Updated(rows: seq<Row>, updates: map<nat, Row>): (result: seq<Row>)
    ensures |result| == |rows|
  {
    seq(|rows|, k requires 0 <= k < |rows| => if k in updates then updates[k] else rows[k])
  }

  /** One `UPDATE` of a row the replica holds and has not settled yet. */
  function Settle(s: State, replica: nat, k: nat, published: bool): State
  {
    if replica !in s.open || k !in s.open[replica].claimed || k in s.open[replica].updates || k >= |s.rows|
    then s
    else
      var t := if published then s.(sent := s.sent + {k}) else s;
      var row := if published then MarkDispatched(s.rows[k]) else RecordFailure(s.rows[k]);
      if !Check(row) then t.(rejected := true, open := t.open - {replica})
      else
        var transaction := s.open[replica];
        t.(open := t.open[replica := transaction.(updates := transaction.updates[k := row])])
  }

  function Do(s: State, a: Action): State
  {
    match a
    case Enqueue => s.(rows := s.rows + [NEW_ROW])
    case Claim(replica, limit) =>
      if replica in s.open then s
      else s.(open := s.open[replica := Transaction(Claimable(s.rows, Locked(s.open), limit), map[])])
    case Publish(replica, k) => Settle(s, replica, k, true)
    case Fail(replica, k) => Settle(s, replica, k, false)
    case Commit(replica) =>
      if replica !in s.open then s
      else s.(rows := Updated(s.rows, s.open[replica].updates), open := s.open - {replica})
    case Die(replica) => s.(open := s.open - {replica})
  }

  function Run(s: State, actions: seq<Action>): State
  {
    if actions == [] then s else Do(Run(s, actions[..|actions| - 1]), actions[|actions| - 1])
  }

  // ----- the invariant

  predicate RowOk(row: Row)
  {
    && row.attempts <= CEILING
    && (row.undispatchable <==> row.attempts == CEILING)
    && !(row.dispatched && row.undispatchable)
  }

  ghost predicate RowsOk(s: State)
  {
    forall k :: 0 <= k < |s.rows| ==> RowOk(s.rows[k]) && (s.rows[k].dispatched ==> k in s.sent)
  }

  /** What a transaction holds is pending; what it has written is one settlement of each. */
  predicate TransactionOk(s: State, transaction: Transaction)
  {
    && (forall k :: k in transaction.claimed ==> k < |s.rows| && s.rows[k].Pending())
    && (forall k :: k in transaction.updates ==>
          && k in transaction.claimed
          && (|| (transaction.updates[k] == MarkDispatched(s.rows[k]) && k in s.sent)
              || transaction.updates[k] == RecordFailure(s.rows[k])))
  }

  ghost predicate OpenOk(s: State)
  {
    forall replica :: replica in s.open ==> TransactionOk(s, s.open[replica])
  }

  ghost predicate HeldByOne(open: map<nat, Transaction>)
  {
    forall a, b :: a in open && b in open && a != b ==> open[a].claimed !! open[b].claimed
  }

  ghost predicate Inv(s: State)
  {
    RowsOk(s) && OpenOk(s) && HeldByOne(s.open) && !s.rejected
  }

  predicate Init(s: State)
  {
    s.open == map[] && !s.rejected && s.sent == {} && forall k :: 0 <= k < |s.rows| ==> s.rows[k] == NEW_ROW
  }

  lemma SettlePreserves(s: State, replica: nat, k: nat, published: bool)
    requires Inv(s)
    ensures Inv(Settle(s, replica, k, published))
  {
    var t := Settle(s, replica, k, published);
    if t != s {
      assert TransactionOk(s, s.open[replica]);
      assert RowOk(s.rows[k]);
      forall r | r in t.open
        ensures TransactionOk(t, t.open[r])
      {
        assert TransactionOk(s, s.open[r]);
      }
    }
  }

  lemma ClaimPreserves(s: State, replica: nat, limit: nat)
    requires Inv(s) && replica !in s.open
    ensures Inv(Do(s, Claim(replica, limit)))
  {
    var claimed := Claimable(s.rows, Locked(s.open), limit);
    var t := Do(s, Claim(replica, limit));
    forall a, b | a in t.open && b in t.open && a != b
      ensures t.open[a].claimed !! t.open[b].claimed
    {
      var other := if a == replica then b else a;
      forall k | k in s.open[other].claimed && (a == replica || b == replica)
        ensures k !in claimed
      {
        assert k in Locked(s.open);
      }
    }
    forall r | r in t.open
      ensures TransactionOk(t, t.open[r])
    {
      if r != replica {
        assert TransactionOk(s, s.open[r]);
      }
    }
  }

  lemma CommitPreserves(s: State, replica: nat)
    requires Inv(s) && replica in s.open
    ensures Inv(Do(s, Commit(replica)))
  {
    var t := Do(s, Commit(replica));
    var mine := s.open[replica];
    assert TransactionOk(s, mine);
    forall r | r in t.open
      ensures TransactionOk(t, t.open[r])
    {
      assert TransactionOk(s, s.open[r]);
      assert s.open[r].claimed !! mine.claimed;
      forall k | k in s.open[r].claimed
        ensures k < |s.rows| && t.rows[k] == s.rows[k]
      {
      }
    }
    forall k | 0 <= k < |t.rows|
      ensures RowOk(t.rows[k]) && (t.rows[k].dispatched ==> k in t.sent)
    {
      assert RowOk(s.rows[k]);
    }
  }

  lemma StepPreserves(s: State, a: Action)
    requires Inv(s)
    ensures Inv(Do(s, a))
  {
    match a {
      case Enqueue =>
        var t := Do(s, a);
        forall r | r in t.open
          ensures TransactionOk(t, t.open[r])
        {
          assert TransactionOk(s, s.open[r]);
        }
      case Claim(replica, limit) => if replica !in s.open { ClaimPreserves(s, replica, limit); }
      case Publish(replica, k) => SettlePreserves(s, replica, k, true);
      case Fail(replica, k) => SettlePreserves(s, replica, k, false);
      case Commit(replica) => if replica in s.open { CommitPreserves(s, replica); }
      case Die(replica) =>
        var t := Do(s, a);
        forall r | r in t.open
          ensures TransactionOk(t, t.open[r])
        {
          assert TransactionOk(s, s.open[r]);
        }
    }
  }

  lemma {:induction false} RunInv(s: State, actions: seq<Action>)
    requires Inv(s)
    ensures Inv(Run(s, actions))
  {
    if actions == [] {
    } else {
      RunInv(s, actions[..|actions| - 1]);
      hide Inv, Do;
      StepPreserves(Run(s, actions[..|actions| - 1]), actions[|actions| - 1]);
    }
  }

  /**
   In every state of every run, with any number of replicas claiming, publishing, failing, committing and
   dying: attempts stay within the ceiling, a row is undispatchable exactly at the ceiling, never both
   dispatched and undispatchable, dispatched only if it was sent; no two replicas hold one row; and the
   `CHECK` has refused nothing.
   */
  lemma OutboxIsSound(start: State, actions: seq<Action>, k: nat, a: nat, b: nat)
    requires Init(start)
    ensures var s := Run(start, actions);
            && !s.rejected
            && (k < |s.rows| ==>
                  && s.rows[k].attempts <= CEILING
                  && (s.rows[k].undispatchable <==> s.rows[k].attempts == CEILING)
                  && !(s.rows[k].dispatched && s.rows[k].undispatchable)
                  && (s.rows[k].dispatched ==> k in s.sent))
            && (a in s.open && b in s.open && k in s.open[a].claimed && k in s.open[b].claimed ==> a == b)
  {
    RunInv(start, actions);
    hide Run, TransactionOk;
  }

  /** Nothing a run does takes a row back: settled rows keep their fate, attempts never fall. */
  predicate Onward(before: Row, after: Row)
  {
    && before.attempts <= after.attempts
    && (!before.Pending() ==> after == before)
  }

  lemma StepOnward(s: State, a: Action, k: nat)
    requires Inv(s) && k < |s.rows|
    ensures k < |Do(s, a).rows| && Onward(s.rows[k], Do(s, a).rows[k])
  {
    if a.Commit? && a.replica in s.open {
      assert TransactionOk(s, s.open[a.replica]);
    }
  }

  lemma {:induction false} FatesAreFinal(s: State, actions: seq<Action>, k: nat)
    requires Inv(s) && k < |s.rows|
    ensures k < |Run(s, actions).rows| && Onward(s.rows[k], Run(s, actions).rows[k])
  {
    if actions == [] {
    } else {
      var before := actions[..|actions| - 1];
      FatesAreFinal(s, before, k);
      RunInv(s, before);
      hide Inv, Do;
      StepOnward(Run(s, before), actions[|actions| - 1], k);
    }
  }

  // ----- rows come in by being enqueued, and stay

  function Arrivals(actions: seq<Action>): nat
  {
    if actions == [] then 0
    else Arrivals(actions[..|actions| - 1]) + if actions[|actions| - 1] == Enqueue then 1 else 0
  }

  /** A run has one row more for every one enqueued, new and pending when it comes, and never loses one. */
  lemma {:induction false} RowsAreConserved(s: State, actions: seq<Action>)
    ensures |Run(s, actions).rows| == |s.rows| + Arrivals(actions)
    ensures var t := Run(s, actions + [Enqueue]);
            && |t.rows| == |Run(s, actions).rows| + 1
            && t.rows[|t.rows| - 1].Pending() && t.rows[|t.rows| - 1].attempts == 0
  {
    assert (actions + [Enqueue])[..|actions|] == actions;
    if actions == [] {
    } else {
      RowsAreConserved(s, actions[..|actions| - 1]);
    }
  }

  // ----- a claimed row is its replica's alone

  /** Between its claim and its end a replica neither commits nor dies; everybody else does anything. */
  predicate Meanwhile(replica: nat, actions: seq<Action>)
  {
    forall i :: 0 <= i < |actions| ==> actions[i] != Commit(replica) && actions[i] != Die(replica)
  }

  /** The first answer the replica gets for the row; any later one is not acted on. */
  function FirstAnswer(replica: nat, k: nat, actions: seq<Action>): Option<bool>
  {
    if actions == [] then None
    else
      var before, last := FirstAnswer(replica, k, actions[..|actions| - 1]), actions[|actions| - 1];
      if before.Some? then before
      else if last == Publish(replica, k) then Some(true)
      else if last == Fail(replica, k) then Some(false)
      else None
  }

  /** What an answer makes of a row. */
  predicate Becomes(row: Row, answer: Option<bool>, after: Row)
  {
    match answer
    case None => after == row
    case Some(true) => after.dispatched && after.attempts == row.attempts && after.undispatchable == row.undispatchable
    case Some(false) =>
      && after.attempts == row.attempts + 1 && (after.undispatchable <==> row.attempts == 9)
      && after.dispatched == row.dispatched
  }

  /** The replica holds the row, the table has it as it was, and the answer so far is all that is to be written. */
  ghost predicate Holds(row: Row, t: State, replica: nat, k: nat, answer: Option<bool>)
  {
    && replica in t.open && k < |t.rows| && t.rows[k] == row && k in t.open[replica].claimed
    && (k in t.open[replica].updates <==> answer.Some?)
    && (answer.Some? ==> Becomes(row, answer, t.open[replica].updates[k]))
    && (answer == Some(true) ==> k in t.sent)
  }

  lemma StepHolds(row: Row, t: State, replica: nat, k: nat, answer: Option<bool>, a: Action)
    requires Inv(t) && Holds(row, t, replica, k, answer) && a != Commit(replica) && a != Die(replica)
    ensures Holds(row, Do(t, a), replica, k,
                  if answer.Some? then answer
                  else if a == Publish(replica, k) then Some(true)
                  else if a == Fail(replica, k) then Some(false) else None)
  {
    assert TransactionOk(t, t.open[replica]);
    assert RowOk(t.rows[k]);
    if a.Commit? && a.replica in t.open {
      assert TransactionOk(t, t.open[a.replica]);
      assert k !in t.open[a.replica].claimed;
    }
  }

  lemma {:induction false} MeanwhileHolds(row: Row, start: State, replica: nat, k: nat, actions: seq<Action>)
    requires Inv(start) && Holds(row, start, replica, k, None) && Meanwhile(replica, actions)
    ensures Inv(Run(start, actions))
    ensures Holds(row, Run(start, actions), replica, k, FirstAnswer(replica, k, actions))
  {
    if actions == [] {
    } else {
      var before := actions[..|actions| - 1];
      MeanwhileHolds(row, start, replica, k, before);
      RunInv(start, actions);
      hide Inv, Holds, Do;
      StepHolds(row, Run(start, before), replica, k, FirstAnswer(replica, k, before), actions[|actions| - 1]);
    }
  }

  /**
   A row a replica has claimed is written by that replica alone, whatever the others do meanwhile, and by its
   first answer alone: sent is dispatched, refused is one attempt more and at the tenth the end, unanswered is
   as before. Nothing is written before the commit, and nothing by a replica that dies; either way the row is
   then free again.
   */
  lemma ClaimedRowIsItsReplicasAlone(s: State, replica: nat, limit: nat, k: nat, actions: seq<Action>)
    requires Inv(s) && replica !in s.open && k in Claimable(s.rows, Locked(s.open), limit)
    requires Meanwhile(replica, actions)
    ensures k < |s.rows| && s.rows[k].Pending()
    ensures var t := Run(Do(s, Claim(replica, limit)), actions);
            var answer := FirstAnswer(replica, k, actions);
            && k < |t.rows| && t.rows[k] == s.rows[k]
            && k < |Do(t, Commit(replica)).rows| && Becomes(s.rows[k], answer, Do(t, Commit(replica)).rows[k])
            && k < |Do(t, Die(replica)).rows| && Do(t, Die(replica)).rows[k] == s.rows[k]
            && k !in Locked(Do(t, Commit(replica)).open) && k !in Locked(Do(t, Die(replica)).open)
            && (answer == Some(true) ==> k in t.sent)
  {
    StepPreserves(s, Claim(replica, limit));
    ClaimHolds(s, replica, limit, k);
    hide *;
    MeanwhileHolds(s.rows[k], Do(s, Claim(replica, limit)), replica, k, actions);
    EndOfHold(s.rows[k], Run(Do(s, Claim(replica, limit)), actions), replica, k, FirstAnswer(replica, k, actions));
    HoldIsReleased(s.rows[k], Run(Do(s, Claim(replica, limit)), actions), replica, k, FirstAnswer(replica, k, actions));
  }

  lemma ClaimHolds(s: State, replica: nat, limit: nat, k: nat)
    requires replica !in s.open && k in Claimable(s.rows, Locked(s.open), limit)
    ensures k < |s.rows| && s.rows[k].Pending()
    ensures Holds(s.rows[k], Do(s, Claim(replica, limit)), replica, k, None)
  {
  }

  lemma HoldIsReleased(row: Row, t: State, replica: nat, k: nat, answer: Option<bool>)
    requires Inv(t) && Holds(row, t, replica, k, answer)
    ensures k !in Locked(Do(t, Commit(replica)).open) && k !in Locked(Do(t, Die(replica)).open)
  {
    hide Becomes, RowsOk, OpenOk;
  }

  lemma EndOfHold(row: Row, t: State, replica: nat, k: nat, answer: Option<bool>)
    requires Holds(row, t, replica, k, answer)
    ensures k < |t.rows| && t.rows[k] == row && (answer == Some(true) ==> k in t.sent)
    ensures k < |Do(t, Commit(replica)).rows| && Becomes(row, answer, Do(t, Commit(replica)).rows[k])
    ensures k < |Do(t, Die(replica)).rows| && Do(t, Die(replica)).rows[k] == row
  {
  }
}
