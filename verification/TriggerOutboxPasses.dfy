/**
 Pass after pass of `dispatch_once` over one table: exactly which rows are ever tried, and that a row
 which always fails is tried for ever, ceiling or not.
 */
module TriggerOutboxPasses {
  import opened Text
  import opened Uuids
  import opened Counting
  import opened TriggerOutbox

  predicate IsWaiting(row: Row)
  {
    !row.dispatched
  }

  predicate Waiting(rows: seq<Row>, k: nat)
  {
    k < |rows| && IsWaiting(rows[k])
  }

  predicate CanBeRebuilt(row: Row)
  {
    EnvelopeFromRow(row).Some?
  }

  function Older(rows: seq<Row>, k: nat): (n: nat)
    requires k <= |rows|
  {
    CountBefore(rows, IsWaiting, k)
  }

  /** An older waiting row cannot be rebuilt. */
  ghost predicate Blocked(rows: seq<Row>, k: nat)
  {
    exists j :: 0 <= j < k && Waiting(rows, j) && !CanBeRebuilt(rows[j])
  }

  /** The places a whole pass settles. */
  function Reached(rows: seq<Row>, batchSize: nat): seq<nat>
  {
    var batch := Undispatched(rows, batchSize);
    batch[..Rebuildable(rows, batch)]
  }

  /** A pass that is left to run, as `DispatchOnce` specifies it. */
  function Pass(rows: seq<Row>, batchSize: nat, accepted: nat -> bool): (result: seq<Row>)
    ensures |result| == |rows|
  {
    SettledRows(rows, Reached(rows, batchSize), accepted)
  }

  predicate Tried(rows: seq<Row>, k: nat, batchSize: nat)
  {
    k in Reached(rows, batchSize)
  }

  // ----- which rows a pass tries

  lemma {:induction false} InBatch(rows: seq<Row>, limit: nat, k: nat)
    ensures k in Undispatched(rows, limit) <==> Waiting(rows, k) && Older(rows, k) < limit
    ensures |Undispatched(rows, limit)| == if Older(rows, |rows|) < limit then Older(rows, |rows|) else limit
  {
    if rows == [] {
    } else {
      var last := |rows| - 1;
      InBatch(rows[..last], limit, k);
      CountInPrefix(rows, IsWaiting, last, last);
      if k <= last {
        CountInPrefix(rows, IsWaiting, last, k);
      }
      assert Waiting(rows[..last], k) <==> Waiting(rows, k) && k < last;
    }
  }

  /** A row is tried exactly when it waits among the oldest, can be rebuilt, and is not blocked. */
  lemma TriedIff(rows: seq<Row>, k: nat, batchSize: nat)
    ensures Tried(rows, k, batchSize) <==>
            && Waiting(rows, k) && Older(rows, k) < batchSize
            && CanBeRebuilt(rows[k]) && !Blocked(rows, k)
  {
    hide EnvelopeFromRow;
    var batch := Undispatched(rows, batchSize);
    var n := Rebuildable(rows, batch);
    InBatch(rows, batchSize, k);
    if k in batch {
      var i :| 0 <= i < |batch| && batch[i] == k;
      if i < n {
        assert batch[..n][i] == k;
        forall j | 0 <= j < k && Waiting(rows, j)
          ensures CanBeRebuilt(rows[j])
        {
          CountRises(rows, IsWaiting, j, k);
          InBatch(rows, batchSize, j);
          var x :| 0 <= x < |batch| && batch[x] == j;
          assert x < i;
        }
      } else {
        assert k !in batch[..n];
        assert !CanBeRebuilt(rows[batch[n]]);
        assert Waiting(rows, batch[n]);
        assert n < i ==> batch[n] < k;
      }
    }
  }

  // ----- passes, with each row's publication always answered alike

  function Steady(rows: seq<Row>, batchSize: nat, accepted: nat -> bool, passes: nat): (result: seq<Row>)
    ensures |result| == |rows|
    decreases passes
  {
    if passes == 0 then rows
    else Steady(Pass(rows, batchSize, accepted), batchSize, accepted, passes - 1)
  }

  /** Older waiting rows whose publication is always, or never, accepted. */
  function OlderWith(rows: seq<Row>, k: nat, accepted: nat -> bool, answer: bool): nat
    requires k <= |rows|
  {
    if k == 0 then 0
    else OlderWith(rows, k - 1, accepted, answer) + if Waiting(rows, k - 1) && accepted(k - 1) == answer then 1 else 0
  }

  lemma {:induction false} OlderSplits(rows: seq<Row>, k: nat, accepted: nat -> bool)
    requires k <= |rows|
    ensures Older(rows, k) == OlderWith(rows, k, accepted, true) + OlderWith(rows, k, accepted, false)
  {
    if k == 0 {
    } else {
      OlderSplits(rows, k - 1, accepted);
    }
  }

  /** What a pass does to one row. */
  lemma PassAt(rows: seq<Row>, batchSize: nat, accepted: nat -> bool, k: nat)
    requires k < |rows|
    ensures var after := Pass(rows, batchSize, accepted);
            && after[k] == (if Tried(rows, k, batchSize) then Settled(rows[k], accepted(k)) else rows[k])
            && (CanBeRebuilt(after[k]) <==> CanBeRebuilt(rows[k]))
            && (Waiting(after, k) <==> Waiting(rows, k) && !(Tried(rows, k, batchSize) && accepted(k)))
  {
    TriedIff(rows, k, batchSize);
    hide Reached;
  }

  lemma {:induction false} PassKeepsPoison(rows: seq<Row>, batchSize: nat, accepted: nat -> bool, k: nat)
    requires k <= |rows|
    ensures var after := Pass(rows, batchSize, accepted);
            && OlderWith(after, k, accepted, false) == OlderWith(rows, k, accepted, false)
            && OlderWith(after, k, accepted, true) <= OlderWith(rows, k, accepted, true)
  {
    if k == 0 {
    } else {
      hide Pass, Tried, Waiting, CanBeRebuilt, Settled;
      PassKeepsPoison(rows, batchSize, accepted, k - 1);
      PassAt(rows, batchSize, accepted, k - 1);
    }
  }

  lemma PassKeepsBlocks(rows: seq<Row>, batchSize: nat, accepted: nat -> bool, k: nat)
    requires k <= |rows|
    ensures Blocked(Pass(rows, batchSize, accepted), k) <==> Blocked(rows, k)
  {
    var after := Pass(rows, batchSize, accepted);
    hide Pass, Tried, CanBeRebuilt;
    forall j | 0 <= j < k
      ensures Waiting(after, j) && !CanBeRebuilt(after[j]) <==> Waiting(rows, j) && !CanBeRebuilt(rows[j])
    {
      PassAt(rows, batchSize, accepted, j);
      TriedIff(rows, j, batchSize);
    }
  }

  lemma WaitingAfter(rows: seq<Row>, batchSize: nat, accepted: nat -> bool, k: nat)
    requires k < |rows|
    ensures Waiting(Pass(rows, batchSize, accepted), k) ==> Waiting(rows, k)
    ensures Tried(rows, k, batchSize) && accepted(k) ==>
              Waiting(rows, k) && !Waiting(Pass(rows, batchSize, accepted), k)
  {
    PassAt(rows, batchSize, accepted, k);
    TriedIff(rows, k, batchSize);
  }

  /** An accepted row that is tried leaves. */
  lemma {:induction false} TriedLeaves(rows: seq<Row>, batchSize: nat, accepted: nat -> bool, j: nat, k: nat)
    requires j < k <= |rows| && Tried(rows, j, batchSize) && accepted(j)
    ensures OlderWith(Pass(rows, batchSize, accepted), k, accepted, true) < OlderWith(rows, k, accepted, true)
  {
    hide Pass, Tried, Waiting;
    WaitingAfter(rows, batchSize, accepted, k - 1);
    if j == k - 1 {
      PassKeepsPoison(rows, batchSize, accepted, j);
    } else {
      TriedLeaves(rows, batchSize, accepted, j, k - 1);
    }
  }

  lemma {:induction false} PoisonMonotone(rows: seq<Row>, j: nat, k: nat, accepted: nat -> bool)
    requires j <= k <= |rows|
    ensures OlderWith(rows, j, accepted, false) <= OlderWith(rows, k, accepted, false)
  {
    if j == k {
    } else {
      PoisonMonotone(rows, j, k - 1, accepted);
    }
  }

  lemma {:induction false} SomeGood(rows: seq<Row>, m: nat, accepted: nat -> bool) returns (j: nat)
    requires m <= |rows| && OlderWith(rows, m, accepted, true) > 0
    ensures j < m && Waiting(rows, j) && accepted(j)
  {
    if Waiting(rows, m - 1) && accepted(m - 1) {
      j := m - 1;
    } else {
      j := SomeGood(rows, m - 1, accepted);
    }
  }

  /** Among a full batch with fewer never-accepted rows than its size, some accepted row is tried. */
  lemma GoodIsTried(rows: seq<Row>, k: nat, batchSize: nat, accepted: nat -> bool) returns (j: nat)
    requires k <= |rows| && Older(rows, k) >= batchSize && !Blocked(rows, k)
    requires OlderWith(rows, k, accepted, false) < batchSize
    ensures j < k && accepted(j) && Tried(rows, j, batchSize)
  {
    hide Tried, CanBeRebuilt;
    var m := PlaceOfCount(rows, IsWaiting, k, batchSize);
    PoisonMonotone(rows, m, k, accepted);
    OlderSplits(rows, m, accepted);
    j := SomeGood(rows, m, accepted);
    CountRises(rows, IsWaiting, j, m);
    TriedIff(rows, j, batchSize);
  }

  lemma {:induction false} EventuallyTried(rows: seq<Row>, k: nat, batchSize: nat, accepted: nat -> bool)
    returns (passes: nat)
    requires Waiting(rows, k) && CanBeRebuilt(rows[k]) && !Blocked(rows, k)
    requires OlderWith(rows, k, accepted, false) < batchSize
    ensures Tried(Steady(rows, batchSize, accepted, passes), k, batchSize)
    ensures passes <= OlderWith(rows, k, accepted, true)
    decreases OlderWith(rows, k, accepted, true)
  {
    hide Pass, Tried, CanBeRebuilt;
    TriedIff(rows, k, batchSize);
    if Older(rows, k) < batchSize {
      passes := 0;
    } else {
      var j := GoodIsTried(rows, k, batchSize, accepted);
      var after := Pass(rows, batchSize, accepted);
      TriedLeaves(rows, batchSize, accepted, j, k);
      PassKeepsPoison(rows, batchSize, accepted, k);
      PassKeepsBlocks(rows, batchSize, accepted, k);
      PassAt(rows, batchSize, accepted, k);
      var more := EventuallyTried(after, k, batchSize, accepted);
      passes := more + 1;
    }
  }

  lemma {:induction false} TriedMeansFree(
    rows: seq<Row>, k: nat, batchSize: nat, accepted: nat -> bool, passes: nat)
    requires k < |rows| && Tried(Steady(rows, batchSize, accepted, passes), k, batchSize)
    ensures !Blocked(rows, k) && OlderWith(rows, k, accepted, false) < batchSize
    decreases passes
  {
    hide Pass, Tried, Blocked, CanBeRebuilt;
    if passes == 0 {
      TriedIff(rows, k, batchSize);
      OlderSplits(rows, k, accepted);
    } else {
      TriedMeansFree(Pass(rows, batchSize, accepted), k, batchSize, accepted, passes - 1);
      PassKeepsPoison(rows, batchSize, accepted, k);
      PassKeepsBlocks(rows, batchSize, accepted, k);
    }
  }

  /**
   A waiting row that can be rebuilt is ever tried exactly when no older waiting row is beyond rebuilding
   and fewer older rows than a batch never publish: so a blocked row can block others.
   */
  lemma EverTriedIff(rows: seq<Row>, k: nat, batchSize: nat, accepted: nat -> bool)
    requires Waiting(rows, k) && CanBeRebuilt(rows[k])
    ensures (exists passes :: Tried(Steady(rows, batchSize, accepted, passes), k, batchSize)) <==>
            !Blocked(rows, k) && OlderWith(rows, k, accepted, false) < batchSize
  {
    hide Steady, Tried, Blocked, CanBeRebuilt, OlderWith;
    if passes :| Tried(Steady(rows, batchSize, accepted, passes), k, batchSize) {
      TriedMeansFree(rows, k, batchSize, accepted, passes);
    }
    if !Blocked(rows, k) && OlderWith(rows, k, accepted, false) < batchSize {
      var passes := EventuallyTried(rows, k, batchSize, accepted);
    }
  }

  /** A row that is tried and never accepted is tried in every later pass: its attempts pass any ceiling. */
  lemma {:induction false} FailuresAreRetriedForEver(
    rows: seq<Row>, k: nat, batchSize: nat, accepted: nat -> bool, passes: nat)
    requires k < |rows| && Tried(rows, k, batchSize) && !accepted(k)
    ensures var now := Steady(rows, batchSize, accepted, passes);
            && Tried(now, k, batchSize) && Waiting(now, k)
            && now[k].attempts == rows[k].attempts + passes
    decreases passes
  {
    hide Pass, Tried, Blocked, CanBeRebuilt;
    TriedIff(rows, k, batchSize);
    if passes == 0 {
    } else {
      var after := Pass(rows, batchSize, accepted);
      PassAt(rows, batchSize, accepted, k);
      PassKeepsBlocks(rows, batchSize, accepted, k);
      OlderSplits(rows, k, accepted);
      OlderSplits(after, k, accepted);
      PassKeepsPoison(rows, batchSize, accepted, k);
      TriedIff(after, k, batchSize);
      FailuresAreRetriedForEver(after, k, batchSize, accepted, passes - 1);
    }
  }
}
