/** Ingestion runs: opened once, closed by a compare-and-set on the version. */
module IngestionRuns {
  import opened Text
  import opened Uuids

  datatype RunState = Running | Completed | Failed
  {
    predicate IsTerminal() {
      !Running?
    }
  }

  datatype IngestionRun = IngestionRun(
    tenant: Uuid, source: string, state: RunState, watermark: Option<string>, documentCount: int, version: nat)

  /** What a writer asks of a run: its terminal state, the watermark it reached, and the version it read. */
  datatype Closing = Closing(
    tenant: Uuid, run: Uuid, state: RunState, watermark: Option<string>, documentCount: int, version: nat)

  datatype Closed = Won | Lost | NotTerminal

  predicate Wins(runs: map<Uuid, IngestionRun>, c: Closing)
  {
    && c.state.IsTerminal() && c.run in runs
    && runs[c.run].tenant == c.tenant && runs[c.run].version == c.version
  }

  function ClosedBy(run: IngestionRun, c: Closing): IngestionRun
  {
    run.(state := c.state, watermark := c.watermark, documentCount := c.documentCount, version := run.version + 1)
  }

  class Runs {
    var runs: map<Uuid, IngestionRun>

    constructor ()
      ensures runs == map[]
    {
      runs := map[];
    }

    /** `open_run`, with the identifier it draws. */
    method OpenRun(id: Uuid, tenant: Uuid, source: string, watermark: Option<string>)
      requires id !in runs
      modifies this
      ensures runs == old(runs)[id := IngestionRun(tenant, source, Running, watermark, 0, 1)]
    {
      runs := runs[id := IngestionRun(tenant, source, Running, watermark, 0, 1)];
    }

    /** `close_run`: state, watermark and count in one statement, or nothing. */
    method CloseRun(c: Closing) returns (closed: Closed)
      modifies this
      ensures closed == if !c.state.IsTerminal() then NotTerminal else if Wins(old(runs), c) then Won else Lost
      ensures runs == if closed.Won? then old(runs)[c.run := ClosedBy(old(runs)[c.run], c)] else old(runs)
    {
      if !c.state.IsTerminal() {
        return NotTerminal;
      }
      if c.run !in runs || runs[c.run].tenant != c.tenant || runs[c.run].version != c.version {
        return Lost;
      }
      runs := runs[c.run := ClosedBy(runs[c.run], c)];
      return Won;
    }
  }

  // ----- histories of many writers

  function After(runs: map<Uuid, IngestionRun>, closings: seq<Closing>): map<Uuid, IngestionRun>
  {
    if closings == [] then runs
    else
      var before := After(runs, closings[..|closings| - 1]);
      var c := closings[|closings| - 1];
      if Wins(before, c) then before[c.run := ClosedBy(before[c.run], c)] else before
  }

  predicate WonAt(runs: map<Uuid, IngestionRun>, closings: seq<Closing>, i: nat)
  {
    i < |closings| && Wins(After(runs, closings[..i]), closings[i])
  }

  /** A run is as it was opened, or is what one winning writer wrote, whole, and nobody has won since. */
  ghost predicate WrittenByOne(runs: map<Uuid, IngestionRun>, closings: seq<Closing>, id: Uuid)
    requires id in runs
  {
    var now := After(runs, closings);
    && id in now
    && (|| (now[id] == runs[id] && NeverWon(runs, closings, id))
        || exists i :: 0 <= i < |closings| && LastWon(runs, closings, id, i) && Holds(now[id], closings[i]))
  }

  predicate NeverWon(runs: map<Uuid, IngestionRun>, closings: seq<Closing>, id: Uuid)
  {
    forall i :: 0 <= i < |closings| && closings[i].run == id ==> !WonAt(runs, closings, i)
  }

  /** The run says what this closing wrote. */
  predicate Holds(run: IngestionRun, c: Closing)
  {
    && run.state == c.state && run.watermark == c.watermark && run.documentCount == c.documentCount
    && run.version == c.version + 1
  }

  predicate LastWon(runs: map<Uuid, IngestionRun>, closings: seq<Closing>, id: Uuid, i: nat)
  {
    && i < |closings| && closings[i].run == id && WonAt(runs, closings, i)
    && forall j :: i < j < |closings| && closings[j].run == id ==> !WonAt(runs, closings, j)
  }

  lemma WonBefore(runs: map<Uuid, IngestionRun>, closings: seq<Closing>, n: nat, i: nat)
    requires i < n <= |closings|
    ensures WonAt(runs, closings[..n], i) == WonAt(runs, closings, i)
  {
    assert closings[..n][..i] == closings[..i];
  }

  lemma WinsCarryOver(runs: map<Uuid, IngestionRun>, closings: seq<Closing>, id: Uuid)
    requires closings != []
    requires !(closings[|closings| - 1].run == id && WonAt(runs, closings, |closings| - 1))
    ensures NeverWon(runs, closings[..|closings| - 1], id) ==> NeverWon(runs, closings, id)
    ensures forall i :: 0 <= i < |closings| - 1 && LastWon(runs, closings[..|closings| - 1], id, i) ==>
              LastWon(runs, closings, id, i)
  {
    var n := |closings| - 1;
    forall i | 0 <= i < n
      ensures WonAt(runs, closings[..n], i) == WonAt(runs, closings, i)
    {
      WonBefore(runs, closings, n, i);
    }
    hide WonAt;
  }

  /** What the last closing of a history does to a run. */
  lemma AfterLast(runs: map<Uuid, IngestionRun>, closings: seq<Closing>, id: Uuid)
    requires closings != [] && id in After(runs, closings[..|closings| - 1])
    ensures var n, before := |closings| - 1, After(runs, closings[..|closings| - 1]);
            && id in After(runs, closings)
            && if closings[n].run == id && WonAt(runs, closings, n)
               then Holds(After(runs, closings)[id], closings[n])
               else After(runs, closings)[id] == before[id]
  {
  }

  /**
   However many writers try to close a run, what it says is what exactly one of them wrote: a watermark
   never stands beside another writer's state or count.
   */
  lemma {:induction false} ClosedAsOneWriterWrote(
    runs: map<Uuid, IngestionRun>, closings: seq<Closing>, id: Uuid)
    requires id in runs
    ensures WrittenByOne(runs, closings, id)
  {
    if closings == [] {
    } else {
      var n := |closings| - 1;
      ClosedAsOneWriterWrote(runs, closings[..n], id);
      AfterLast(runs, closings, id);
      hide After, WonAt, Holds;
      if closings[n].run == id && WonAt(runs, closings, n) {
        assert LastWon(runs, closings, id, n);
      } else {
        WinsCarryOver(runs, closings, id);
        hide LastWon, NeverWon;
        var before := After(runs, closings[..n]);
        if i :| 0 <= i < n && LastWon(runs, closings[..n], id, i) && Holds(before[id], closings[..n][i]) {
          assert LastWon(runs, closings, id, i) && closings[..n][i] == closings[i];
        }
      }
    }
  }

  lemma {:induction false} VersionsGrow(runs: map<Uuid, IngestionRun>, closings: seq<Closing>, i: nat, j: nat, id: Uuid)
    requires i <= j <= |closings|
    ensures var a, b := After(runs, closings[..i]), After(runs, closings[..j]);
            id in a ==> id in b && a[id].version <= b[id].version
  {
    if i == j {
    } else {
      VersionsGrow(runs, closings, i, j - 1, id);
      assert closings[..j][..j - 1] == closings[..j - 1];
    }
  }

  /** Of the writers that read one version of a run, at most one closes it. */
  lemma OneCloserPerVersion(runs: map<Uuid, IngestionRun>, closings: seq<Closing>, i: nat, j: nat)
    requires i < j && WonAt(runs, closings, i) && WonAt(runs, closings, j) && closings[i].run == closings[j].run
    ensures closings[i].version < closings[j].version
  {
    assert closings[..i + 1][..i] == closings[..i];
    VersionsGrow(runs, closings, i + 1, j, closings[i].run);
  }

  /** Over any history a run keeps its content if and only if no closing in the history wins it. */
  lemma KeptIff(runs: map<Uuid, IngestionRun>, closings: seq<Closing>, id: Uuid)
    requires id in runs
    ensures id in After(runs, closings)
    ensures After(runs, closings)[id] == runs[id] <==>
            forall i :: 0 <= i < |closings| && closings[i].run == id ==> !WonAt(runs, closings, i)
  {
    ClosedAsOneWriterWrote(runs, closings, id);
    if i :| 0 <= i < |closings| && LastWon(runs, closings, id, i) && Holds(After(runs, closings)[id], closings[i]) {
      VersionsGrow(runs, closings, 0, i, id);
      assert closings[..0] == [];
    }
  }

  /**
   The update does not ask whether the run is still open. A finished run, whatever its state, is closed again
   by the first writer that has read its version, on any watermark; its finish is final exactly as long as
   nobody does.
   */
  lemma FinishedRunsCloseAgainIff(runs: map<Uuid, IngestionRun>, closings: seq<Closing>, id: Uuid)
    requires id in runs && runs[id].state.IsTerminal()
    ensures id in After(runs, closings)
    ensures After(runs, closings)[id] != runs[id] <==>
            exists i :: 0 <= i < |closings| && FirstReader(runs, closings, id, i)
  {
    KeptIff(runs, closings, id);
    forall i | 0 <= i < |closings| && FirstReader(runs, closings, id, i)
      ensures exists j :: 0 <= j < |closings| && closings[j].run == id && WonAt(runs, closings, j)
    {
      if forall j :: 0 <= j < i && closings[j].run == id ==> !WonAt(runs, closings, j) {
        KeptBefore(runs, closings, id, i);
        assert WonAt(runs, closings, i);
      }
    }
    if j :| 0 <= j < |closings| && closings[j].run == id && WonAt(runs, closings, j) {
      var i := FirstWinner(runs, closings, id, j);
      KeptBefore(runs, closings, id, i);
      assert FirstReader(runs, closings, id, i);
    }
  }

  /** A writer of the organisation, closing in a terminal state at the version the run had at first. */
  predicate FirstReader(runs: map<Uuid, IngestionRun>, closings: seq<Closing>, id: Uuid, i: nat)
    requires id in runs && i < |closings|
  {
    && closings[i].run == id && closings[i].state.IsTerminal()
    && closings[i].tenant == runs[id].tenant && closings[i].version == runs[id].version
  }

  lemma KeptBefore(runs: map<Uuid, IngestionRun>, closings: seq<Closing>, id: Uuid, i: nat)
    requires id in runs && i < |closings|
    requires forall j :: 0 <= j < i && closings[j].run == id ==> !WonAt(runs, closings, j)
    ensures id in After(runs, closings[..i]) && After(runs, closings[..i])[id] == runs[id]
  {
    forall j | 0 <= j < i && closings[..i][j].run == id
      ensures !WonAt(runs, closings[..i], j)
    {
      WonBefore(runs, closings, i, j);
    }
    KeptIff(runs, closings[..i], id);
  }

  lemma {:induction false} FirstWinner(runs: map<Uuid, IngestionRun>, closings: seq<Closing>, id: Uuid, j: nat)
    returns (i: nat)
    requires j < |closings| && closings[j].run == id && WonAt(runs, closings, j)
    ensures i <= j && closings[i].run == id && WonAt(runs, closings, i)
    ensures forall k :: 0 <= k < i && closings[k].run == id ==> !WonAt(runs, closings, k)
  {
    if k :| 0 <= k < j && closings[k].run == id && WonAt(runs, closings, k) {
      i := FirstWinner(runs, closings, id, k);
    } else {
      i := j;
    }
  }
}
