/**
 Whole passes of a dispatcher: claim the oldest pending rows, settle every one of them, commit. Passes
 drain the table, and no row waits longer than the rows before it can be tried.
 */
module OutboxPasses {
  import opened Counting
  import opened IntegrationOutbox

  predicate IsPending(row: Row)
  {
    row.Pending()
  }

  /** Pending rows before a place. */
  function Older(rows: seq<Row>, k: nat): (n: nat)
    requires k <= |rows|
    ensures n <= k
  {
    CountBefore(rows, IsPending, k)
  }

  /** A pass with this batch size tries the row. */
  predicate Tried(rows: seq<Row>, k: nat, batch: nat)
  {
    k < |rows| && rows[k].Pending() && Older(rows, k) < batch
  }

  function Settled(row: Row, accepted: bool): Row
  {
    if accepted then MarkDispatched(row) else RecordFailure(row)
  }

  /** What a whole pass does to the table, given which publications are accepted. */
  function Pass(rows: seq<Row>, batch: nat, accepted: nat -> bool): (result: seq<Row>)
    ensures |result| == |rows|
  {
    seq(|rows|, k requires 0 <= k < |rows| =>
      if Tried(rows, k, batch) then Settled(rows[k], accepted(k)) else rows[k])
  }

  // ----- a pass is a transaction of one replica

  function TriedRows(rows: seq<Row>, batch: nat): set<nat>
  {
    set k | 0 <= k < |rows| && Tried(rows, k, batch)
  }

  lemma TriedSnoc(rows: seq<Row>, batch: nat)
    requires rows != []
    ensures var last := |rows| - 1;
            TriedRows(rows, batch) ==
            if Tried(rows, last, batch) then TriedRows(rows[..last], batch) + {last}
            else TriedRows(rows[..last], batch)
    ensures Older(rows[..|rows| - 1], |rows| - 1) == Older(rows, |rows| - 1)
  {
    var last := |rows| - 1;
    CountInPrefix(rows, IsPending, last, last);
    forall k | 0 <= k < last
      ensures Tried(rows[..last], k, batch) <==> Tried(rows, k, batch)
    {
      CountInPrefix(rows, IsPending, last, k);
    }
    hide Tried;
  }

  /** The claim takes exactly the rows the pass tries: the batch size, or all there are. */
  lemma {:induction false} ClaimsTheOldest(rows: seq<Row>, batch: nat)
    ensures Claimable(rows, {}, batch) == TriedRows(rows, batch)
    ensures |Claimable(rows, {}, batch)| == if Older(rows, |rows|) < batch then Older(rows, |rows|) else batch
  {
    hide *;
    if rows == [] {
      NoneToClaim(rows, batch);
    } else {
      var last := |rows| - 1;
      ClaimsTheOldest(rows[..last], batch);
      TriedSnoc(rows, batch);
      ClaimableSnoc(rows, batch);
      LastTried(rows, batch);
      OneMore(Claimable(rows, {}, batch), TriedRows(rows, batch), Claimable(rows[..last], {}, batch), last,
              rows[last].Pending(), Tried(rows, last, batch), batch, Older(rows, last), Older(rows, |rows|));
    }
  }

  /** A claim and a pass that agree on the older rows agree on one more. */
  lemma OneMore(
    claim: set<nat>, tried: set<nat>, older: set<nat>, last: nat, pending: bool, triedLast: bool, batch: nat,
    before: nat, after: nat)
    requires last !in older && |older| == if before < batch then before else batch
    requires claim == if |older| < batch && pending then older + {last} else older
    requires tried == if triedLast then older + {last} else older
    requires triedLast <==> pending && before < batch
    requires after == before + if pending then 1 else 0
    ensures claim == tried && |claim| == if after < batch then after else batch
  {
  }

  lemma NoneToClaim(rows: seq<Row>, batch: nat)
    requires rows == []
    ensures Claimable(rows, {}, batch) == {} == TriedRows(rows, batch) && Older(rows, |rows|) == 0
  {
  }

  lemma ClaimableSnoc(rows: seq<Row>, batch: nat)
    requires rows != []
    ensures var last := |rows| - 1;
            var older := Claimable(rows[..last], {}, batch);
            && last !in older
            && Claimable(rows, {}, batch) ==
               if |older| < batch && rows[last].Pending() then older + {last} else older
  {
  }

  lemma LastTried(rows: seq<Row>, batch: nat)
    requires rows != []
    ensures var last := |rows| - 1;
            && (Tried(rows, last, batch) <==> rows[last].Pending() && Older(rows, last) < batch)
            && Older(rows, |rows|) == Older(rows, last) + if rows[last].Pending() then 1 else 0
  {
  }

  /** Settling actions of one replica, one for each row it claimed, with these outcomes. */
  predicate Settles(replica: nat, actions: seq<Action>, accepted: nat -> bool)
  {
    forall i :: 0 <= i < |actions| ==>
      || (actions[i].Publish? && actions[i].replica == replica && accepted(actions[i].row))
      || (actions[i].Fail? && actions[i].replica == replica && !accepted(actions[i].row))
  }

  function RowsSettled(actions: seq<Action>): set<nat>
  {
    set i | 0 <= i < |actions| && (actions[i].Publish? || actions[i].Fail?) :: actions[i].row
  }

  /** What the replica has written after some of its settling actions. */
  ghost predicate Written(s: State, t: State, replica: nat, claimed: set<nat>, done: set<nat>, accepted: nat -> bool)
  {
    && t.rows == s.rows && !t.rejected
    && t.open.Keys == {replica} && t.open[replica].claimed == claimed
    && t.open[replica].updates.Keys == claimed * done
    && forall k :: k in claimed * done && k < |s.rows| ==>
         t.open[replica].updates[k] == Settled(s.rows[k], accepted(k))
  }

  lemma SettlesOne(
    s: State, t: State, replica: nat, claimed: set<nat>, done: set<nat>, accepted: nat -> bool, a: Action)
    requires Inv(s) && Written(s, t, replica, claimed, done, accepted)
    requires forall k :: k in claimed ==> k < |s.rows| && s.rows[k].Pending()
    requires (a.Publish? || a.Fail?) && Settles(replica, [a], accepted)
    ensures Written(s, Do(t, a), replica, claimed, done + {a.row}, accepted)
  {
    assert [a][0] == a;
    var k := a.row;
    if k in claimed && k !in done {
      assert RowOk(s.rows[k]);
    }
  }

  lemma {:induction false} SettlesAll(
    s: State, replica: nat, claimed: set<nat>, actions: seq<Action>, t: State, accepted: nat -> bool)
    requires Inv(s) && Written(s, t, replica, claimed, {}, accepted)
    requires forall k :: k in claimed ==> k < |s.rows| && s.rows[k].Pending()
    requires Settles(replica, actions, accepted)
    ensures Written(s, Run(t, actions), replica, claimed, RowsSettled(actions), accepted)
  {
    if actions == [] {
    } else {
      var before, a := actions[..|actions| - 1], actions[|actions| - 1];
      SettlesAll(s, replica, claimed, before, t, accepted);
      hide Written, Inv, Do;
      SettlesOne(s, Run(t, before), replica, claimed, RowsSettled(before), accepted, a);
      RowsSettledSnoc(before, a);
      assert actions == before + [a];
    }
  }

  lemma RowsSettledSnoc(actions: seq<Action>, a: Action)
    requires a.Publish? || a.Fail?
    ensures RowsSettled(actions + [a]) == RowsSettled(actions) + {a.row}
  {
    var all := actions + [a];
    assert all[|actions|] == a;
    assert forall i :: 0 <= i < |actions| ==> all[i] == actions[i];
  }

  /**
   The pass is what one replica's transaction does when no other is open: claim, settle each claimed row
   once, in any order, commit.
   */
  lemma PassIsATransaction(
    s: State, replica: nat, batch: nat, settling: seq<Action>, accepted: nat -> bool)
    requires Inv(s) && s.open == map[] && Settles(replica, settling, accepted)
    requires Claimable(s.rows, {}, batch) <= RowsSettled(settling)
    ensures Run(s, [Claim(replica, batch)] + settling + [Commit(replica)]).rows == Pass(s.rows, batch, accepted)
  {
    var t := Do(s, Claim(replica, batch));
    assert Locked(s.open) == {};
    assert Written(s, t, replica, Claimable(s.rows, {}, batch), {}, accepted);
    hide Run, Do, Inv, Written, RowsSettled, Settles;
    SettlesAll(s, replica, Claimable(s.rows, {}, batch), settling, t, accepted);
    ClaimsTheOldest(s.rows, batch);
    RunThrice(s, Claim(replica, batch), settling, Commit(replica));
    CommitIsPass(s, Run(t, settling), replica, batch, RowsSettled(settling), accepted);
  }

  lemma CommitIsPass(s: State, t: State, replica: nat, batch: nat, done: set<nat>, accepted: nat -> bool)
    requires Written(s, t, replica, TriedRows(s.rows, batch), done, accepted)
    requires TriedRows(s.rows, batch) <= done
    ensures Do(t, Commit(replica)).rows == Pass(s.rows, batch, accepted)
  {
    var claimed := TriedRows(s.rows, batch);
    assert claimed * done == claimed;
    assert forall k :: 0 <= k < |s.rows| ==> (k in claimed <==> Tried(s.rows, k, batch));
    hide Tried, Settled, TriedRows;
  }

  lemma RunThrice(s: State, a: Action, middle: seq<Action>, b: Action)
    ensures Run(s, [a] + middle + [b]) == Do(Run(Do(s, a), middle), b)
  {
    hide Do;
    var all := [a] + middle + [b];
    assert all[..|all| - 1] == [a] + middle;
    RunFirst(s, a, middle);
  }

  lemma {:induction false} RunFirst(s: State, a: Action, rest: seq<Action>)
    ensures Run(s, [a] + rest) == Run(Do(s, a), rest)
  {
    hide Do;
    var all := [a] + rest;
    if rest == [] {
      assert all == [a] && [a][..0] == [];
      assert Run(s, []) == s;
    } else {
      assert all[..|all| - 1] == [a] + rest[..|rest| - 1];
      RunFirst(s, a, rest[..|rest| - 1]);
    }
  }

  // ----- passes drain the table

  ghost predicate AllOk(rows: seq<Row>)
  {
    forall k :: 0 <= k < |rows| ==> RowOk(rows[k])
  }

  /** The attempts pending rows have left. */
  function Work(rows: seq<Row>): nat
  {
    if rows == [] then 0
    else
      Work(rows[..|rows| - 1]) + RowWork(rows[|rows| - 1])
  }

  /** A row's work. */
  function RowWork(row: Row): nat
  {
    if row.Pending() && row.attempts < CEILING then CEILING - row.attempts else 0
  }

  /** What a pass does to one row. */
  lemma PassAt(rows: seq<Row>, batch: nat, accepted: nat -> bool, k: nat)
    requires k < |rows| && RowOk(rows[k])
    ensures var after := Pass(rows, batch, accepted)[k];
            && RowOk(after)
            && (!Tried(rows, k, batch) ==> after == rows[k])
            && (after.Pending() ==> rows[k].Pending())
            && (Tried(rows, k, batch) && after.Pending() ==> after.attempts == rows[k].attempts + 1)
            && (if Tried(rows, k, batch) then RowWork(after) < RowWork(rows[k]) else RowWork(after) == RowWork(rows[k]))
  {
    var after := Pass(rows, batch, accepted)[k];
    assert after == if Tried(rows, k, batch) then Settled(rows[k], accepted(k)) else rows[k];
    if Tried(rows, k, batch) {
      SettledOnce(rows[k], accepted(k));
    }
  }

  lemma SettledOnce(row: Row, accepted: bool)
    requires RowOk(row) && row.Pending()
    ensures var after := Settled(row, accepted);
            && RowOk(after) && (after.Pending() ==> after.attempts == row.attempts + 1)
            && RowWork(after) < RowWork(row)
  {
  }

  lemma PassKeepsOk(rows: seq<Row>, batch: nat, accepted: nat -> bool)
    requires AllOk(rows)
    ensures AllOk(Pass(rows, batch, accepted))
  {
    forall k | 0 <= k < |rows|
      ensures RowOk(Pass(rows, batch, accepted)[k])
    {
      PassAt(rows, batch, accepted, k);
    }
  }

  /** The pass over the older rows is the older part of the pass. */
  lemma PassBefore(rows: seq<Row>, batch: nat, accepted: nat -> bool, n: nat)
    requires n <= |rows|
    ensures Pass(rows[..n], batch, accepted) == Pass(rows, batch, accepted)[..n]
  {
    forall k | 0 <= k < n
      ensures Tried(rows[..n], k, batch) <==> Tried(rows, k, batch)
    {
      CountInPrefix(rows, IsPending, n, k);
    }
    hide Tried, Settled;
  }

  /** Work falls by at least one for every row tried. */
  lemma {:induction false} PassWorks(rows: seq<Row>, batch: nat, accepted: nat -> bool)
    requires AllOk(rows)
    ensures Work(Pass(rows, batch, accepted)) <= Work(rows)
    ensures (exists k :: Tried(rows, k, batch)) ==> Work(Pass(rows, batch, accepted)) < Work(rows)
  {
    if rows == [] {
    } else {
      var last := |rows| - 1;
      PassWorks(rows[..last], batch, accepted);
      PassBefore(rows, batch, accepted, last);
      PassAt(rows, batch, accepted, last);
      hide Pass, RowWork, Tried;
      if k :| Tried(rows, k, batch) && k != last {
        TriedBefore(rows, batch, last, k);
      }
    }
  }

  lemma TriedBefore(rows: seq<Row>, batch: nat, n: nat, k: nat)
    requires n < |rows| && k != n && n == |rows| - 1
    ensures Tried(rows, k, batch) ==> Tried(rows[..n], k, batch)
  {
    if Tried(rows, k, batch) {
      CountInPrefix(rows, IsPending, n, k);
    }
  }

  /** While anything is pending, a pass of at least one row makes progress. */
  lemma PendingMeansTried(rows: seq<Row>, k: nat, batch: nat)
    requires k < |rows| && rows[k].Pending() && batch >= 1
    ensures exists j :: Tried(rows, j, batch)
    decreases Older(rows, k)
  {
    if Older(rows, k) == 0 {
      assert Tried(rows, k, batch);
    } else {
      var j := OldestBefore(rows, k);
      PendingMeansTried(rows, j, batch);
    }
  }

  lemma {:induction false} OldestBefore(rows: seq<Row>, k: nat) returns (j: nat)
    requires k <= |rows| && Older(rows, k) > 0
    ensures j < k && rows[j].Pending() && Older(rows, j) < Older(rows, k)
  {
    if rows[k - 1].Pending() {
      j := k - 1;
    } else {
      j := OldestBefore(rows, k - 1);
    }
  }

  function Passes(rows: seq<Row>, batch: nat, outcomes: seq<nat -> bool>): (result: seq<Row>)
    ensures |result| == |rows|
  {
    if outcomes == [] then rows
    else Pass(Passes(rows, batch, outcomes[..|outcomes| - 1]), batch, outcomes[|outcomes| - 1])
  }

  /** Whatever fails, as many passes as there is work leave nothing pending. */
  lemma {:induction false} PassesDrain(rows: seq<Row>, batch: nat, outcomes: seq<nat -> bool>, k: nat)
    requires AllOk(rows) && batch >= 1 && k < |rows|
    ensures AllOk(Passes(rows, batch, outcomes))
    ensures Passes(rows, batch, outcomes)[k].Pending() ==>
              Work(Passes(rows, batch, outcomes)) + |outcomes| <= Work(rows)
    ensures |outcomes| >= Work(rows) ==> !Passes(rows, batch, outcomes)[k].Pending()
  {
    var n := |outcomes|;
    var after := Passes(rows, batch, outcomes);
    if n > 0 {
      var before := Passes(rows, batch, outcomes[..n - 1]);
      PassesDrain(rows, batch, outcomes[..n - 1], k);
      PassKeepsOk(before, batch, outcomes[n - 1]);
      PassWorks(before, batch, outcomes[n - 1]);
      if after[k].Pending() {
        assert before[k].Pending();
        PendingMeansTried(before, k, batch);
      }
    }
    if after[k].Pending() {
      PendingIsWork(after, k);
    }
  }

  lemma {:induction false} PendingIsWork(rows: seq<Row>, k: nat)
    requires AllOk(rows) && k < |rows| && rows[k].Pending()
    ensures Work(rows) > 0
  {
    assert RowOk(rows[k]);
    if k < |rows| - 1 {
      PendingIsWork(rows[..|rows| - 1], k);
    }
  }

  // ----- no row starves

  /** One round of a dispatcher: a pass, and then newer rows arrive. */
  datatype Round = Round(accepted: nat -> bool, arrivals: nat)

  function Arrived(rows: seq<Row>, n: nat): (result: seq<Row>)
    ensures |result| == |rows| + n
  {
    rows + seq(n, _ => NEW_ROW)
  }

  function Rounds(rows: seq<Row>, batch: nat, rounds: seq<Round>): (result: seq<Row>)
    ensures |result| >= |rows|
  {
    if rounds == [] then rows
    else
      var last := rounds[|rounds| - 1];
      Arrived(Pass(Rounds(rows, batch, rounds[..|rounds| - 1]), batch, last.accepted), last.arrivals)
  }

  /** Up to a place, nothing becomes pending again, and what is still pending was tried every time. */
  ghost predicate WornDown(start: seq<Row>, now: seq<Row>, m: nat, rounds: nat)
    requires m <= |start| <= |now|
  {
    forall k :: 0 <= k < m && now[k].Pending() ==>
      start[k].Pending() && now[k].attempts >= start[k].attempts + rounds
  }

  lemma {:induction false} OlderFalls(start: seq<Row>, now: seq<Row>, k: nat)
    requires k <= |start| && k <= |now|
    requires forall j :: 0 <= j < k && now[j].Pending() ==> start[j].Pending()
    ensures Older(now, k) <= Older(start, k)
  {
    if k == 0 {
    } else {
      OlderFalls(start, now, k - 1);
    }
  }

  /** Rows never become pending again. */
  lemma {:induction false} PendingOnlyFalls(rows: seq<Row>, batch: nat, rounds: seq<Round>, k: nat)
    requires AllOk(rows) && k < |rows|
    ensures Rounds(rows, batch, rounds)[k].Pending() ==> rows[k].Pending()
  {
    if rounds == [] {
    } else {
      var n := |rounds| - 1;
      var before := Rounds(rows, batch, rounds[..n]);
      PendingOnlyFalls(rows, batch, rounds[..n], k);
      RoundsOk(rows, batch, rounds[..n]);
      PassAt(before, batch, rounds[n].accepted, k);
      hide Pass, RowOk;
    }
  }

  /** The first batch of pending rows is tried in every round, until each of them leaves. */
  lemma {:induction false} FirstBatchWears(rows: seq<Row>, batch: nat, rounds: seq<Round>, m: nat)
    requires AllOk(rows) && m <= |rows| && Older(rows, m) <= batch
    ensures WornDown(rows, Rounds(rows, batch, rounds), m, |rounds|)
  {
    if rounds == [] {
    } else {
      var n := |rounds| - 1;
      var before := Rounds(rows, batch, rounds[..n]);
      FirstBatchWears(rows, batch, rounds[..n], m);
      RoundsOk(rows, batch, rounds[..n]);
      var after := Pass(before, batch, rounds[n].accepted);
      forall k | 0 <= k < m && after[k].Pending()
        ensures rows[k].Pending() && after[k].attempts >= rows[k].attempts + |rounds|
      {
        PassAt(before, batch, rounds[n].accepted, k);
        OlderFalls(rows, before, k);
        CountRises(rows, IsPending, k, m);
        assert Tried(before, k, batch);
      }
    }
  }

  lemma {:induction false} RoundsOk(rows: seq<Row>, batch: nat, rounds: seq<Round>)
    requires AllOk(rows)
    ensures AllOk(Rounds(rows, batch, rounds))
  {
    if rounds == [] {
    } else {
      var n := |rounds| - 1;
      RoundsOk(rows, batch, rounds[..n]);
      PassKeepsOk(Rounds(rows, batch, rounds[..n]), batch, rounds[n].accepted);
    }
  }

  /** Counting apart the first batch, which is gone, and the rest. */
  lemma {:induction false} BatchGone(start: seq<Row>, now: seq<Row>, m: nat, k: nat)
    requires m <= k <= |start| && k <= |now|
    requires forall j :: 0 <= j < m ==> !now[j].Pending()
    requires forall j :: 0 <= j < k && now[j].Pending() ==> start[j].Pending()
    ensures Older(now, k) + Older(start, m) <= Older(start, k)
  {
    if k == m {
      NonePending(now, m);
    } else {
      BatchGone(start, now, m, k - 1);
    }
  }

  lemma {:induction false} NonePending(rows: seq<Row>, m: nat)
    requires m <= |rows| && forall j :: 0 <= j < m ==> !rows[j].Pending()
    ensures Older(rows, m) == 0
  {
    if m == 0 {
    } else {
      NonePending(rows, m - 1);
    }
  }

  /** Ten rounds get rid of a whole batch of older rows. */
  lemma TenRounds(rows: seq<Row>, batch: nat, rounds: seq<Round>, k: nat)
    requires AllOk(rows) && k < |rows| && Older(rows, k) >= batch && |rounds| == CEILING
    ensures Older(Rounds(rows, batch, rounds), k) + batch <= Older(rows, k)
  {
    var now := Rounds(rows, batch, rounds);
    var m := PlaceOfCount(rows, IsPending, k, batch);
    FirstBatchWears(rows, batch, rounds, m);
    RoundsOk(rows, batch, rounds);
    forall j | 0 <= j < m
      ensures !now[j].Pending()
    {
      assert RowOk(now[j]);
    }
    forall j | 0 <= j < k && now[j].Pending()
      ensures rows[j].Pending()
    {
      PendingOnlyFalls(rows, batch, rounds, j);
    }
    BatchGone(rows, now, m, k);
  }

  /** In some round of these the row is tried. */
  ghost predicate TriedWithin(rows: seq<Row>, batch: nat, rounds: seq<Round>, k: nat)
  {
    exists j :: 0 <= j < |rounds| && Tried(Rounds(rows, batch, rounds[..j]), k, batch)
  }

  /**
   A pending row with fewer than (q + 1) batches of pending rows before it is tried by round 10q + 1,
   whatever is accepted and whatever arrives behind it.
   */
  lemma {:induction false} NoRowStarves(rows: seq<Row>, batch: nat, rounds: seq<Round>, k: nat, q: nat)
    requires AllOk(rows) && k < |rows| && rows[k].Pending()
    requires Older(rows, k) < (q + 1) * batch
    requires |rounds| == 10 * q + 1
    ensures TriedWithin(rows, batch, rounds, k)
    decreases q
  {
    if Older(rows, k) < batch {
      assert Rounds(rows, batch, rounds[..0]) == rows;
    } else if q > 0 {
      if !TriedWithin(rows, batch, rounds, k) {
        var now := Rounds(rows, batch, rounds[..10]);
        TenRounds(rows, batch, rounds[..10], k);
        RoundsOk(rows, batch, rounds[..10]);
        UntriedStaysPending(rows, batch, rounds, 10, k);
        assert (q + 1) * batch == q * batch + batch;
        NoRowStarves(now, batch, rounds[10..], k, q - 1);
        TriedLater(rows, batch, rounds, 10, k);
      }
    }
  }

  lemma {:induction false} UntriedStaysPending(rows: seq<Row>, batch: nat, rounds: seq<Round>, n: nat, k: nat)
    requires k < |rows| && rows[k].Pending() && n <= |rounds| && !TriedWithin(rows, batch, rounds, k)
    ensures Rounds(rows, batch, rounds[..n])[k].Pending()
  {
    if n == 0 {
    } else {
      UntriedStaysPending(rows, batch, rounds, n - 1, k);
      assert rounds[..n][..n - 1] == rounds[..n - 1];
      assert !Tried(Rounds(rows, batch, rounds[..n - 1]), k, batch);
    }
  }

  lemma {:induction false} RoundsConcat(rows: seq<Row>, batch: nat, a: seq<Round>, b: seq<Round>)
    ensures Rounds(rows, batch, a + b) == Rounds(Rounds(rows, batch, a), batch, b)
  {
    if b == [] {
      assert a + b == a;
    } else {
      RoundsConcat(rows, batch, a, b[..|b| - 1]);
      assert (a + b)[..|a + b| - 1] == a + b[..|b| - 1];
    }
  }

  lemma TriedLater(rows: seq<Row>, batch: nat, rounds: seq<Round>, n: nat, k: nat)
    requires n <= |rounds| && TriedWithin(Rounds(rows, batch, rounds[..n]), batch, rounds[n..], k)
    ensures TriedWithin(rows, batch, rounds, k)
  {
    var j :| 0 <= j < |rounds[n..]| &&
             Tried(Rounds(Rounds(rows, batch, rounds[..n]), batch, rounds[n..][..j]), k, batch);
    RoundsConcat(rows, batch, rounds[..n], rounds[n..][..j]);
    assert rounds[..n] + rounds[n..][..j] == rounds[..n + j];
    assert Tried(Rounds(rows, batch, rounds[..n + j]), k, batch);
  }
}
