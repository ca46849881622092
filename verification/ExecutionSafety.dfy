/** What holds in every state any run of the execution protocol can reach. */
module ExecutionSafety {
  import opened Text
  import opened Uuids
  import opened Idempotency
  import opened Domain
  import opened AccessPolicy
  import opened ExecutionStore
  import opened ExecutionProtocol
  import opened ExecutionInvariant

  /** Reachable from an initial state, by deliveries, faults, crashes and other writers in any order. */
  ghost predicate Reachable(derive: Deriver, s: State)
  {
    exists start: State, actions: seq<Action> :: Init(start) && s == Run(derive, start, actions)
  }

  lemma ReachableInv(derive: Deriver, s: State)
    requires Reachable(derive, s)
    ensures Inv(derive, s)
  {
    var start: State, actions: seq<Action> :| Init(start) && s == Run(derive, start, actions);
    InitInv(derive, start);
    RunInv(derive, start, actions);
  }

  // ----- the invariant, one clause at a time

  lemma RecordFacts(derive: Deriver, s: State, e: Uuid)
    requires Reachable(derive, s) && (e in s.store.executions || e in s.commits)
    ensures e in s.store.executions && e in s.commits && CommitOk(derive, s, e)
  {
    hide Reachable, DeliveriesOk, LogOk, ChecksOk, CommitOk, AllApart, NoOrphans;
    ReachableInv(derive, s);
  }

  lemma RecordsApart(derive: Deriver, s: State, e: Uuid, f: Uuid)
    requires Reachable(derive, s) && e in s.commits && f in s.commits && e != f
    ensures Apart(s, e, f)
  {
    hide Reachable, DeliveriesOk, LogOk, ChecksOk, CommitOk, AllPaired, NoOrphans, Apart;
    ReachableInv(derive, s);
  }

  lemma RowsOwned(derive: Deriver, s: State)
    requires Reachable(derive, s)
    ensures NoOrphans(s.store, s.commits) && s.commits.Keys == s.store.executions.Keys
  {
    hide Reachable, DeliveriesOk, LogOk, ChecksOk, AllPaired, AllApart, NoOrphans;
    ReachableInv(derive, s);
  }

  lemma ResultFacts(derive: Deriver, s: State, j: Uuid)
    requires Reachable(derive, s) && j in s.store.jobs && s.store.jobs[j].result.Some?
    ensures ResultOwned(s.store, j)
  {
    RowsOwned(derive, s);
    hide Reachable;
  }

  lemma DeliveryFacts(derive: Deriver, s: State, d: nat)
    requires Reachable(derive, s) && d in s.deliveries
    ensures DeliveryOk(derive, s, d)
  {
    hide *;
    ReachableInv(derive, s);
    InvDelivery(derive, s, d);
  }

  /** Different operations have different keys. */
  ghost predicate Distinguishes(derive: Deriver)
  {
    forall t1: Uuid, w1: Uuid, o1: Uuid, t2: Uuid, w2: Uuid, o2: Uuid ::
      derive(t1, w1, o1) == derive(t2, w2, o2) ==> t1 == t2 && w1 == w2 && o1 == o2
  }

  /** The deployed derivation does, whenever its hash is collision-free. */
  lemma DerivedKeysDistinguish(hash: string -> Key)
    requires CollisionFree(hash)
    ensures Distinguishes(DeriverOf(hash))
  {
    var derive := DeriverOf(hash);
    forall t1: Uuid, w1: Uuid, o1: Uuid, t2: Uuid, w2: Uuid, o2: Uuid
      | derive(t1, w1, o1) == derive(t2, w2, o2)
      ensures t1 == t2 && w1 == w2 && o1 == o2
    {
      assert derive(t1, w1, o1) == DeriveKey(hash, t1, w1, o1);
      assert derive(t2, w2, o2) == DeriveKey(hash, t2, w2, o2);
      DeriveKeyInjective(hash, t1, w1, o1, t2, w2, o2);
    }
  }

  predicate SameOperation(a: JobRow, b: JobRow)
  {
    a.tenant == b.tenant && a.workItem == b.workItem && a.operation == b.operation
  }

  // ----- four writes, together or not at all, once per operation

  /** A pairing of records with the audit row and the announcement written with each. */
  ghost predicate WholePairing(store: Store, pairing: map<Uuid, Ids>)
  {
    && pairing.Keys == store.executions.Keys
    && (forall e :: e in pairing ==> e in store.executions && PairedRows(store, e, pairing[e]))
    && (forall e, f :: e in pairing && f in pairing && e != f ==>
          pairing[e].audit != pairing[f].audit && pairing[e].message != pairing[f].message)
    && Covers(store, pairing)
  }

  /** No audit row, announcement or job result is outside the pairing. */
  ghost predicate Covers(store: Store, pairing: map<Uuid, Ids>)
  {
    && (forall a :: a in store.audit ==> exists e :: e in pairing && pairing[e].audit == a)
    && (forall m :: m in store.outbox ==> exists e :: e in pairing && pairing[e].message == m)
    && (forall j :: j in store.jobs && store.jobs[j].result.Some? ==> ResultOwned(store, j))
  }

  /** The record and the three rows beside it, column by column. */
  predicate PairedRows(store: Store, e: Uuid, ids: Ids)
    requires e in store.executions
  {
    var r := store.executions[e];
    && r.jobId in store.jobs && ids.audit in store.audit && ids.message in store.outbox
    && var job, audit, message := store.jobs[r.jobId], store.audit[ids.audit], store.outbox[ids.message];
    && r.tenant == job.tenant && r.identity == job.identity
    && audit.tenant == job.tenant && audit.workItem == job.workItem && audit.occurredAt == r.attemptedAt
    && audit.outcome == r.outcome && audit.verification == r.verification
    && audit.correlationId == r.correlationId
    && message.jobId == r.jobId && message.correlationId == r.correlationId
    && message.kind == (if r.outcome == Succeeded then Completed else FailedKind)
    && job.result.Some?
    && (job.result.value.executed <==> r.outcome == Succeeded)
    && job.result.value.verification == r.verification
    && job.result.value.executionId == e && job.result.value.recordedAt == r.completedAt
  }

  /**
   Records, audit rows, announcements and recorded job results are in bijection, each quadruple
   agreeing in content; none exists without the others, at no point of no run.
   */
  lemma AttemptsAreWhole(derive: Deriver, s: State)
    requires Reachable(derive, s)
    ensures exists pairing :: WholePairing(s.store, pairing)
  {
    hide Reachable, CommitOk, NoOrphans, PairedRows, Covers;
    RowsOwned(derive, s);
    var pairing := map e | e in s.commits :: s.commits[e].ids;
    CoverByPairing(s, pairing);
    forall e | e in pairing
      ensures e in s.store.executions && PairedRows(s.store, e, pairing[e])
    {
      RecordPaired(derive, s, e);
    }
    forall e, f | e in pairing && f in pairing && e != f
      ensures pairing[e].audit != pairing[f].audit && pairing[e].message != pairing[f].message
    {
      RecordsApart(derive, s, e, f);
    }
    assert WholePairing(s.store, pairing);
  }

  lemma RecordPaired(derive: Deriver, s: State, e: Uuid)
    requires Reachable(derive, s) && e in s.commits
    ensures e in s.store.executions && PairedRows(s.store, e, s.commits[e].ids)
  {
    RecordFacts(derive, s, e);
    hide Reachable, Told;
  }

  lemma CoverByPairing(s: State, pairing: map<Uuid, Ids>)
    requires NoOrphans(s.store, s.commits) && pairing.Keys == s.commits.Keys
    requires forall e :: e in pairing ==> pairing[e] == s.commits[e].ids
    ensures Covers(s.store, pairing)
  {
    hide ResultOwned;
    forall a | a in s.store.audit
      ensures exists e :: e in pairing && pairing[e].audit == a
    {
      var e :| e in s.commits && s.commits[e].ids.audit == a;
      assert pairing[e].audit == a;
    }
    forall m | m in s.store.outbox
      ensures exists e :: e in pairing && pairing[e].message == m
    {
      var e :| e in s.commits && s.commits[e].ids.message == m;
      assert pairing[e].message == m;
    }
  }

  /** One committed record per operation, however many jobs name it and however often they run. */
  lemma OneRecordPerOperation(derive: Deriver, s: State, e: Uuid, f: Uuid)
    requires Reachable(derive, s)
    requires e in s.store.executions && f in s.store.executions
    ensures s.store.executions[e].jobId in s.store.jobs && s.store.executions[f].jobId in s.store.jobs
    ensures var a, b := s.store.executions[e].jobId, s.store.executions[f].jobId;
            SameOperation(s.store.jobs[a], s.store.jobs[b]) ==> e == f
  {
    RecordFacts(derive, s, e);
    RecordFacts(derive, s, f);
    hide Reachable, Told;
    if e != f {
      RecordsApart(derive, s, e, f);
    }
  }

  /** The operation a record was made for. */
  predicate RecordsOperation(store: Store, e: Uuid, job: JobRow)
  {
    && e in store.executions && store.executions[e].jobId in store.jobs
    && SameOperation(store.jobs[store.executions[e].jobId], job)
  }

  lemma RecordKey(derive: Deriver, s: State, e: Uuid, job: JobRow)
    requires Reachable(derive, s) && Distinguishes(derive) && e in s.store.executions
    ensures s.store.executions[e].key == JobKey(derive, job) <==> RecordsOperation(s.store, e, job)
  {
    RecordFacts(derive, s, e);
    hide Reachable, Told;
  }

  /** A job's key is taken exactly when its own operation has a record: others never block it. */
  lemma OnlyItsOwnOperationBlocks(derive: Deriver, s: State, j: Uuid)
    requires Reachable(derive, s) && Distinguishes(derive) && j in s.store.jobs
    ensures KeyTaken(derive, s.store, j) <==>
            exists e :: RecordsOperation(s.store, e, s.store.jobs[j])
  {
    hide Reachable, Distinguishes, RecordsOperation;
    var job := s.store.jobs[j];
    if KeyTaken(derive, s.store, j) {
      var e :| e in s.store.executions && s.store.executions[e].key == JobKey(derive, job);
      RecordKey(derive, s, e, job);
    }
    if e :| RecordsOperation(s.store, e, job) {
      RecordInTable(s.store, e, job);
      RecordKey(derive, s, e, job);
    }
  }

  lemma RecordInTable(store: Store, e: Uuid, job: JobRow)
    requires RecordsOperation(store, e, job)
    ensures e in store.executions
  {
  }

  // ----- settlement loses no command

  /**
   COMPLETE: a durable record exists for the job's key. DEAD_LETTER: no call and no write.
   ABANDON: the delivery called if and only if the exception struck after its call, wrote if and only if
   it struck after its commit, and what it then wrote is the record of its job's key.
   */
  lemma SettlementIsSound(derive: Deriver, s: State, d: nat)
    requires Reachable(derive, s) && d in s.deliveries && s.deliveries[d].pc.Done?
    ensures match s.deliveries[d].pc.disposition
            case Complete => KeyTaken(derive, s.store, s.deliveries[d].envelope.jobId)
            case DeadLetter => !Sent(s, d) && !Wrote(s, d)
            case Abandon =>
              && s.deliveries[d].pc.ending.Faulted?
              && (Sent(s, d) <==> s.deliveries[d].pc.ending.called)
              && (Wrote(s, d) <==> s.deliveries[d].pc.ending.committed)
              && (Wrote(s, d) ==> KeyTaken(derive, s.store, s.deliveries[d].envelope.jobId))
  {
    DeliveryFacts(derive, s, d);
    hide Reachable, Told, Sent, Wrote;
    if s.deliveries[d].pc.ending.Recorded? {
      RecordFacts(derive, s, s.deliveries[d].pc.ending.execution);
    }
  }

  /** Another job of the same operation already holds a result. */
  predicate HeldElsewhere(store: Store, jobId: Uuid)
    requires jobId in store.jobs
  {
    exists other :: other in store.jobs && other != jobId
                    && SameOperation(store.jobs[other], store.jobs[jobId])
                    && store.jobs[other].result.Some?
  }

  /**
   A completed job holds a result of its own exactly when no other job of the same operation holds
   one: a second job for an operation already recorded completes without ever getting a result.
   */
  lemma CompletedJobHasResultIff(derive: Deriver, s: State, d: nat)
    requires Reachable(derive, s) && Distinguishes(derive)
    requires d in s.deliveries && s.deliveries[d].pc.Done? && s.deliveries[d].pc.disposition == Complete
    ensures var jobId := s.deliveries[d].envelope.jobId;
            && jobId in s.store.jobs
            && (s.store.jobs[jobId].result.Some? <==> !HeldElsewhere(s.store, jobId))
  {
    hide Reachable, Distinguishes, SameOperation;
    SettlementIsSound(derive, s, d);
    var jobId := s.deliveries[d].envelope.jobId;
    var holder := HolderOf(derive, s, jobId);
    forall other | other in s.store.jobs && SameOperation(s.store.jobs[other], s.store.jobs[jobId])
                   && s.store.jobs[other].result.Some?
      ensures other == holder
    {
      SameOperationSymmetric(s.store.jobs[other], s.store.jobs[jobId], s.store.jobs[holder]);
      ResultHolderIsUnique(derive, s, other, holder);
    }
    SameOperationSymmetric(s.store.jobs[jobId], s.store.jobs[jobId], s.store.jobs[jobId]);
  }

  lemma SameOperationSymmetric(a: JobRow, b: JobRow, c: JobRow)
    ensures SameOperation(a, a)
    ensures SameOperation(a, b) && SameOperation(c, b) ==> SameOperation(a, c)
  {
  }

  /** The job whose result stands for an operation whose key is taken. */
  lemma HolderOf(derive: Deriver, s: State, jobId: Uuid) returns (holder: Uuid)
    requires Reachable(derive, s) && Distinguishes(derive) && KeyTaken(derive, s.store, jobId)
    ensures jobId in s.store.jobs && holder in s.store.jobs && s.store.jobs[holder].result.Some?
    ensures SameOperation(s.store.jobs[holder], s.store.jobs[jobId])
  {
    hide Reachable, Told;
    var job := s.store.jobs[jobId];
    var e :| e in s.store.executions && s.store.executions[e].key == JobKey(derive, job);
    RecordFacts(derive, s, e);
    RecordKey(derive, s, e, job);
    holder := s.store.executions[e].jobId;
  }

  lemma ResultHolderIsUnique(derive: Deriver, s: State, a: Uuid, b: Uuid)
    requires Reachable(derive, s) && a in s.store.jobs && b in s.store.jobs
    requires SameOperation(s.store.jobs[a], s.store.jobs[b])
    requires s.store.jobs[a].result.Some? && s.store.jobs[b].result.Some?
    ensures a == b
  {
    hide Reachable;
    ResultFacts(derive, s, a);
    ResultFacts(derive, s, b);
    OneRecordPerOperation(derive, s, s.store.jobs[a].result.value.executionId,
                          s.store.jobs[b].result.value.executionId);
  }

  // ----- what a recorded outcome says

  /**
   Whoever wrote a record made a call exactly when the outcome is not a refusal before the call, and the
   outcome of a call is what the far side answered: success, anything else it said, or no answer.
   */
  lemma OutcomeTellsWhetherCalled(derive: Deriver, s: State, e: Uuid)
    requires Reachable(derive, s) && e in s.store.executions
    ensures e in s.commits
    ensures s.store.executions[e].outcome.RefusedBeforeCall() <==> !Sent(s, s.commits[e].delivery)
    ensures forall i :: 0 <= i < |s.requests| && s.requests[i].delivery == s.commits[e].delivery ==>
              var outcome, reply := s.store.executions[e].outcome, s.requests[i].reply;
              && (outcome == Succeeded <==> reply.Replied? && reply.succeeded)
              && (outcome == ExecutionOutcome.Failed <==> reply.Replied? && !reply.succeeded)
              && (outcome == Unreachable <==> reply.HandledError?)
  {
    RecordFacts(derive, s, e);
    OneCallEach(derive, s);
    assert Told(s, s.commits[e].delivery, s.store.executions[e].outcome);
    hide Reachable, CommitOk;
  }

  lemma OneCallEach(derive: Deriver, s: State)
    requires Reachable(derive, s)
    ensures forall i, j :: 0 <= i < j < |s.requests| ==> s.requests[i].delivery != s.requests[j].delivery
  {
    hide Reachable, DeliveriesOk, CommitsOk, ChecksOk, RequestOk;
    ReachableInv(derive, s);
  }

  // ----- results are write-once, and agree with record and announcement

  ghost predicate KeepsJob(s: Store, t: Store, j: Uuid)
  {
    && j in s.jobs && j in t.jobs && SameInstruction(s.jobs[j], t.jobs[j])
    && (s.jobs[j].result.Some? ==> t.jobs[j].result == s.jobs[j].result)
  }

  lemma StepKeepsJob(derive: Deriver, s: State, a: Action, j: Uuid)
    requires Reachable(derive, s) && j in s.store.jobs
    ensures KeepsJob(s.store, Do(derive, s, a).store, j)
  {
    match a
    case Advance(d, step) =>
      if d in s.deliveries {
        hide *;
        DoAdvance(derive, s, d, step);
        if step.Record? {
          RecordKeepsJob(derive, s, d, step.ids, step.completedAt, j);
        } else {
          NonRecordKeepsStore(derive, s, d, step);
          KeepsReflexive(s.store, j);
        }
      }
    case _ =>
  }

  lemma KeepsReflexive(s: Store, j: Uuid)
    requires j in s.jobs
    ensures KeepsJob(s, s, j)
  {
  }

  lemma NonRecordKeepsStore(derive: Deriver, s: State, d: nat, step: Step)
    requires d in s.deliveries && !step.Record?
    ensures Stepped(derive, s, d, step).store == s.store
  {
  }

  lemma RecordKeepsJob(derive: Deriver, s: State, d: nat, ids: Ids, completedAt: Time, j: Uuid)
    requires Reachable(derive, s) && d in s.deliveries && j in s.store.jobs
    ensures KeepsJob(s.store, Stepped(derive, s, d, Record(ids, completedAt)).store, j)
  {
    hide Reachable;
    if s.deliveries[d].pc.Recording? && j == s.deliveries[d].pc.draft.instruction.jobId
       && s.store.jobs[j].result.Some?
    {
      SettledKeyIsTaken(derive, s, d);
    }
  }

  /** A delivery whose job already has a result cannot insert its record. */
  lemma SettledKeyIsTaken(derive: Deriver, s: State, d: nat)
    requires Reachable(derive, s) && d in s.deliveries && s.deliveries[d].pc.Recording?
    requires var j := s.deliveries[d].pc.draft.instruction.jobId;
             j in s.store.jobs && s.store.jobs[j].result.Some?
    ensures HasKey(s.store.executions, s.deliveries[d].pc.draft.instruction.Key(derive))
  {
    DeliveryFacts(derive, s, d);
    var i := s.deliveries[d].pc.draft.instruction;
    assert Faithful(s.store, i, i.jobId);
    hide Reachable, DeliveryOk, Told;
    ResultFacts(derive, s, i.jobId);
    RecordFacts(derive, s, s.store.jobs[i.jobId].result.value.executionId);
  }

  lemma ReachableOnwards(derive: Deriver, s: State, actions: seq<Action>)
    requires Reachable(derive, s)
    ensures Reachable(derive, Run(derive, s, actions))
  {
    var start: State, prefix: seq<Action> :| Init(start) && s == Run(derive, start, prefix);
    RunConcat(derive, start, prefix, actions);
  }

  lemma {:induction false} RunConcat(derive: Deriver, s: State, a: seq<Action>, b: seq<Action>)
    ensures Run(derive, s, a + b) == Run(derive, Run(derive, s, a), b)
  {
    hide Do;
    if b == [] {
      assert a + b == a;
    } else {
      var before := b[..|b| - 1];
      RunConcat(derive, s, a, before);
      assert (a + b)[..|a + b| - 1] == a + before;
    }
  }

  /** Once a job has a result, nothing that happens afterwards changes it. */
  lemma {:induction false} ResultIsWriteOnce(derive: Deriver, s: State, actions: seq<Action>, j: Uuid)
    requires Reachable(derive, s) && j in s.store.jobs
    ensures KeepsJob(s.store, Run(derive, s, actions).store, j)
  {
    hide Reachable, Do;
    if actions == [] {
    } else {
      var before := actions[..|actions| - 1];
      ResultIsWriteOnce(derive, s, before, j);
      ReachableOnwards(derive, s, before);
      StepKeepsJob(derive, Run(derive, s, before), actions[|actions| - 1], j);
    }
  }
}
