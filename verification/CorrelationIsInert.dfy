/**
 A message contributes a job identifier and nothing else. Two runs whose messages differ only in their
 correlation identifiers go through the same steps, make the same calls, settle alike, and leave tables
 that differ only where the correlation identifier is copied.
 */
module CorrelationIsInert {
  import opened Text
  import opened Uuids
  import opened Idempotency
  import opened Domain
  import opened AccessPolicy
  import opened ExecutionStore
  import opened ExecutionProtocol
  import opened ExecutionInvariant

  // ----- the state without its correlation identifiers

  function ErasedRecord(r: ExecutionRecord): ExecutionRecord
  {
    r.(correlationId := "")
  }

  function ErasedExecutions(executions: map<Uuid, ExecutionRecord>): map<Uuid, ExecutionRecord>
  {
    map e | e in executions :: ErasedRecord(executions[e])
  }

  function ErasedAudit(audit: map<Uuid, AuditRow>): map<Uuid, AuditRow>
  {
    map a | a in audit :: audit[a].(correlationId := "")
  }

  function ErasedOutbox(outbox: map<Uuid, OutboxRow>): map<Uuid, OutboxRow>
  {
    map m | m in outbox :: outbox[m].(correlationId := "")
  }

  function ErasedStore(store: Store): Store
  {
    Store(store.jobs, ErasedExecutions(store.executions), ErasedAudit(store.audit),
          ErasedOutbox(store.outbox))
  }

  function ErasedDelivery(delivery: Delivery): Delivery
  {
    delivery.(envelope := delivery.envelope.(correlationId := ""))
  }

  function ErasedDeliveries(deliveries: map<nat, Delivery>): map<nat, Delivery>
  {
    map d | d in deliveries :: ErasedDelivery(deliveries[d])
  }

  function ErasedRequests(requests: seq<Request>): (erased: seq<Request>)
    ensures |erased| == |requests|
  {
    seq(|requests|, i requires 0 <= i < |requests| => requests[i].(correlationHeader := ""))
  }

  function Erased(s: State): State
  {
    s.(store := ErasedStore(s.store), deliveries := ErasedDeliveries(s.deliveries),
      requests := ErasedRequests(s.requests))
  }

  /** The two bodies are both refused, or name the same job with the same kind. */
  predicate SameMessage(a: Body, b: Body)
  {
    match (FromBody(a), FromBody(b))
    case (None, None) => true
    case (Some(x), Some(y)) => x.(correlationId := "") == y.(correlationId := "")
    case _ => false
  }

  /** The two actions are equal, or the same delivery of messages that differ in the journey only. */
  predicate SameAction(a: Action, b: Action)
  {
    a == b || (a.Receive? && b.Receive? && a.d == b.d && SameMessage(a.body, b.body))
  }

  ghost predicate SameActions(a: seq<Action>, b: seq<Action>)
  {
    |a| == |b| && forall i :: 0 <= i < |a| ==> SameAction(a[i], b[i])
  }

  // ----- erasing before a step or after it is the same

  lemma ErasedUpdate(deliveries: map<nat, Delivery>, d: nat, delivery: Delivery)
    ensures ErasedDeliveries(deliveries[d := delivery]) ==
            ErasedDeliveries(deliveries)[d := ErasedDelivery(delivery)]
  {
  }

  lemma ErasedMove(s: State, d: nat, pc: Pc, readAt: ReadTimes)
    requires d in s.deliveries
    ensures Erased(Moved(s, d, pc)) == Moved(Erased(s), d, pc)
    ensures Erased(MovedReading(s, d, pc, readAt)) == MovedReading(Erased(s), d, pc, readAt)
  {
    ErasedUpdate(s.deliveries, d, s.deliveries[d].(pc := pc));
    ErasedUpdate(s.deliveries, d, s.deliveries[d].(pc := pc, readAt := readAt));
  }

  lemma ErasedKeys(store: Store)
    ensures forall key :: HasKey(ErasedStore(store).executions, key) == HasKey(store.executions, key)
    ensures ErasedStore(store).executions.Keys == store.executions.Keys
    ensures ErasedStore(store).audit.Keys == store.audit.Keys
    ensures ErasedStore(store).outbox.Keys == store.outbox.Keys
  {
    var erased := ErasedStore(store).executions;
    forall key
      ensures HasKey(erased, key) == HasKey(store.executions, key)
    {
      if HasKey(store.executions, key) {
        var e :| e in store.executions && store.executions[e].key == key;
        assert e in erased && erased[e].key == key;
      }
    }
  }

  lemma ErasedWindow(s: State, d: nat, now: Time)
    requires d in s.deliveries && s.deliveries[d].pc.Loaded?
    ensures d in Erased(s).deliveries && Erased(s).deliveries[d].pc == s.deliveries[d].pc
    ensures Erased(StepCheckWindow(s, d, now)) == StepCheckWindow(Erased(s), d, now)
  {
    MovesErase(s, d);
    ErasedParts(s, d);
    hide Erased, Moved, MovedReading, RefusalDraft;
  }

  lemma ErasedReads(s: State, d: nat)
    requires d in s.deliveries
    ensures d in Erased(s).deliveries && Erased(s).deliveries[d].pc == s.deliveries[d].pc
    ensures s.deliveries[d].pc.InWindow? ==>
              Erased(StepReadEntitlement(s, d)) == StepReadEntitlement(Erased(s), d)
    ensures s.deliveries[d].pc.Entitled? ==>
              Erased(StepReadVersion(s, d)) == StepReadVersion(Erased(s), d)
    ensures s.deliveries[d].pc.AtVersion? ==>
              Erased(StepReadBinding(s, d)) == StepReadBinding(Erased(s), d)
  {
    MovesErase(s, d);
    ErasedParts(s, d);
    hide Erased, Moved, MovedReading, RefusalOutcome, RefusalDraft;
  }

  lemma MovesErase(s: State, d: nat)
    requires d in s.deliveries
    ensures d in Erased(s).deliveries
    ensures forall pc :: Erased(Moved(s, d, pc)) == Moved(Erased(s), d, pc)
    ensures forall pc, readAt ::
              Erased(MovedReading(s, d, pc, readAt)) == MovedReading(Erased(s), d, pc, readAt)
  {
    forall pc, readAt
      ensures Erased(Moved(s, d, pc)) == Moved(Erased(s), d, pc)
      ensures Erased(MovedReading(s, d, pc, readAt)) == MovedReading(Erased(s), d, pc, readAt)
    {
      ErasedMove(s, d, pc, readAt);
    }
  }

  lemma ErasedLoading(s: State, d: nat)
    requires d in s.deliveries && s.deliveries[d].pc.Accepted?
    ensures d in Erased(s).deliveries && Erased(s).deliveries[d].pc.Accepted?
    ensures Erased(StepLoad(s, d)) == StepLoad(Erased(s), d)
  {
    MovesErase(s, d);
    ErasedParts(s, d);
    ErasedLoad(s, s.deliveries[d].envelope.jobId);
    hide Erased, Moved, MovedReading, LoadInstruction, ValidIdentity;
  }

  lemma ErasedCheck(derive: Deriver, s: State, d: nat)
    requires d in s.deliveries && s.deliveries[d].pc.Permitted?
    ensures d in Erased(s).deliveries && Erased(s).deliveries[d].pc == s.deliveries[d].pc
    ensures Erased(StepPreCheck(derive, s, d)) == StepPreCheck(derive, Erased(s), d)
  {
    MovesErase(s, d);
    ErasedParts(s, d);
    ErasedKeys(s.store);
    hide Erased, Moved, MovedReading, HasKey;
  }

  lemma ErasedLocal(derive: Deriver, s: State, d: nat, step: Step)
    requires d in s.deliveries && !step.Record? && !step.Invoke?
    ensures d in Erased(s).deliveries
    ensures Erased(Stepped(derive, s, d, step)) == Stepped(derive, Erased(s), d, step)
  {
    MovesErase(s, d);
    ErasedParts(s, d);
    hide Erased, Moved, MovedReading, StepLoad, StepCheckWindow, StepReadEntitlement, StepReadVersion,
         StepReadBinding, StepPreCheck;
    if step.Load? && s.deliveries[d].pc.Accepted? { ErasedLoading(s, d); }
    if step.PreCheck? && s.deliveries[d].pc.Permitted? { ErasedCheck(derive, s, d); }
    if step.CheckWindow? && s.deliveries[d].pc.Loaded? { ErasedWindow(s, d, step.now); }
    ErasedReads(s, d);
  }

  lemma ErasedParts(s: State, d: nat)
    requires d in s.deliveries
    ensures var t := Erased(s);
            && t.store == ErasedStore(s.store) && t.store.jobs == s.store.jobs
            && t.facts == s.facts && t.clock == s.clock && t.requests == ErasedRequests(s.requests)
            && t.commits == s.commits
            && d in t.deliveries && t.deliveries[d] == ErasedDelivery(s.deliveries[d])
  {
  }

  lemma ErasedLoad(s: State, jobId: Uuid)
    ensures LoadInstruction(Erased(s).store, Erased(s).facts, jobId) ==
            LoadInstruction(s.store, s.facts, jobId)
  {
  }

  lemma ErasedCall(derive: Deriver, s: State, d: nat, startedAt: Time, reply: Reply)
    requires d in s.deliveries && s.deliveries[d].pc.Cleared?
    ensures d in Erased(s).deliveries && Erased(s).deliveries[d].pc == s.deliveries[d].pc
    ensures Erased(StepInvoke(derive, Erased(s), d, startedAt, reply)) ==
            Erased(StepInvoke(derive, s, d, startedAt, reply))
  {
    var pc := s.deliveries[d].pc;
    var t := Erased(s);
    ErasedParts(s, d);
    var draft := CallDraft(pc.instruction, pc.binding, startedAt, reply);
    ErasedMove(s, d, Recording(draft), NO_READS);
    ErasedMove(t, d, Recording(draft), NO_READS);
    ErasedIdempotent(s);
    var a := RequestOf(derive, d, t.deliveries[d].envelope.correlationId, pc.instruction, pc.binding, reply);
    var b := RequestOf(derive, d, s.deliveries[d].envelope.correlationId, pc.instruction, pc.binding, reply);
    assert a.(correlationHeader := "") == b.(correlationHeader := "");
    ErasedSnoc(s.requests, b);
    ErasedSnoc(t.requests, a);
    hide ErasedDeliveries, ErasedStore, ErasedRequests, RequestOf, CallDraft;
  }

  lemma ErasedSnoc(requests: seq<Request>, r: Request)
    ensures ErasedRequests(requests + [r]) == ErasedRequests(requests) + [r.(correlationHeader := "")]
    ensures ErasedRequests(ErasedRequests(requests)) == ErasedRequests(requests)
  {
  }

  // ----- the transaction

  lemma ErasedInsertable(store: Store, id: Uuid, a: ExecutionRecord, b: ExecutionRecord)
    requires ErasedRecord(a) == ErasedRecord(b)
    ensures Insertable(ErasedStore(store).executions, id, a) == Insertable(store.executions, id, b)
  {
    ErasedKeys(store);
    assert a.key == b.key && a.identity == b.identity && a.outcome == b.outcome;
    hide ErasedStore, HasKey;
  }

  lemma ErasedInserts(store: Store, ids: Ids, record: ExecutionRecord, audit: AuditRow, message: OutboxRow)
    ensures ErasedExecutions(store.executions[ids.execution := record]) ==
            ErasedExecutions(store.executions)[ids.execution := ErasedRecord(record)]
    ensures ErasedAudit(store.audit[ids.audit := audit]) ==
            ErasedAudit(store.audit)[ids.audit := audit.(correlationId := "")]
    ensures ErasedOutbox(store.outbox[ids.message := message]) ==
            ErasedOutbox(store.outbox)[ids.message := message.(correlationId := "")]
  {
  }

  lemma ErasedTables(store: Store, ids: Ids, a: ExecutionRecord, b: ExecutionRecord, workItem: Uuid)
    requires ErasedRecord(a) == ErasedRecord(b)
    ensures ErasedStore(RecordAll(ErasedStore(store), ids, a, workItem)) ==
            ErasedStore(RecordAll(store, ids, b, workItem))
  {
    ErasedInsertable(store, ids.execution, a, b);
    ErasedTwice(store);
    ErasedInserts(store, ids, b, AuditOf(b, workItem), OutboxOf(b));
    ErasedInserts(ErasedStore(store), ids, a, AuditOf(a, workItem), OutboxOf(a));
    assert AuditOf(a, workItem).(correlationId := "") == AuditOf(b, workItem).(correlationId := "");
    assert OutboxOf(a).(correlationId := "") == OutboxOf(b).(correlationId := "");
    assert ResultOf(ids.execution, a) == ResultOf(ids.execution, b);
    hide Insertable, ErasedExecutions, ErasedAudit, ErasedOutbox, AuditOf, OutboxOf, WithResult, ResultOf;
  }

  lemma ErasedTwice(store: Store)
    ensures ErasedStore(ErasedStore(store)) == ErasedStore(store)
  {
  }

  lemma ErasedRecording(derive: Deriver, s: State, d: nat, ids: Ids, completedAt: Time)
    requires d in s.deliveries && s.deliveries[d].pc.Recording?
    ensures d in Erased(s).deliveries && Erased(s).deliveries[d].pc == s.deliveries[d].pc
    ensures Erased(StepRecord(derive, Erased(s), d, ids, completedAt)) ==
            Erased(StepRecord(derive, s, d, ids, completedAt))
  {
    var draft := s.deliveries[d].pc.draft;
    var t := Erased(s);
    ErasedParts(s, d);
    var a := RecordOf(derive, draft, t.deliveries[d].envelope.correlationId, completedAt);
    var b := RecordOf(derive, draft, s.deliveries[d].envelope.correlationId, completedAt);
    assert ErasedRecord(a) == ErasedRecord(b);
    ErasedInsertable(s.store, ids.execution, a, b);
    ErasedTables(s.store, ids, a, b, draft.instruction.workItem);
    MovesErase(s, d);
    MovesErase(t, d);
    ErasedIdempotent(s);
    hide ErasedDeliveries, ErasedStore, Insertable, RecordAll, RecordOf;
  }

  lemma ErasedIdempotent(s: State)
    ensures Erased(Erased(s)) == Erased(s)
  {
    ErasedTwice(s.store);
    assert ErasedDeliveries(ErasedDeliveries(s.deliveries)) == ErasedDeliveries(s.deliveries);
    assert ErasedRequests(ErasedRequests(s.requests)) == ErasedRequests(s.requests);
  }

  lemma ErasedFresh(s: State, d: nat, ids: Ids)
    requires d in s.deliveries
    ensures d in Erased(s).deliveries && Erased(s).deliveries[d].pc == s.deliveries[d].pc
    ensures Fresh(Erased(s).store, ids) <==> Fresh(s.store, ids)
  {
    ErasedKeys(s.store);
    ErasedParts(s, d);
    hide Erased, ErasedStore;
  }

  lemma ErasedRecordStep(derive: Deriver, s: State, d: nat, ids: Ids, completedAt: Time)
    requires d in s.deliveries
    ensures d in Erased(s).deliveries
    ensures Erased(Stepped(derive, Erased(s), d, Record(ids, completedAt))) ==
            Erased(Stepped(derive, s, d, Record(ids, completedAt)))
  {
    hide *;
    ErasedFresh(s, d, ids);
    ErasedIdempotent(s);
    DoAdvance(derive, s, d, Record(ids, completedAt));
    DoAdvance(derive, Erased(s), d, Record(ids, completedAt));
    if s.deliveries[d].pc.Recording? {
      ErasedRecording(derive, s, d, ids, completedAt);
    }
  }

  lemma ErasedCallStep(derive: Deriver, s: State, d: nat, startedAt: Time, reply: Reply)
    requires d in s.deliveries
    ensures d in Erased(s).deliveries
    ensures Erased(Stepped(derive, Erased(s), d, Invoke(startedAt, reply))) ==
            Erased(Stepped(derive, s, d, Invoke(startedAt, reply)))
  {
    hide *;
    ErasedFresh(s, d, Ids(0, 0, 0));
    ErasedIdempotent(s);
    DoAdvance(derive, s, d, Invoke(startedAt, reply));
    DoAdvance(derive, Erased(s), d, Invoke(startedAt, reply));
    if s.deliveries[d].pc.Cleared? {
      ErasedCall(derive, s, d, startedAt, reply);
    }
  }

  lemma ErasedStep(derive: Deriver, s: State, d: nat, step: Step)
    requires d in s.deliveries
    ensures d in Erased(s).deliveries
    ensures Erased(Stepped(derive, Erased(s), d, step)) == Erased(Stepped(derive, s, d, step))
  {
    hide *;
    match step {
      case Record(ids, completedAt) => ErasedRecordStep(derive, s, d, ids, completedAt);
      case Invoke(startedAt, reply) => ErasedCallStep(derive, s, d, startedAt, reply);
      case _ =>
        ErasedLocal(derive, s, d, step);
        ErasedIdempotent(Stepped(derive, s, d, step));
    }
  }

  lemma ErasedArrival(s: State, d: nat, a: Body, b: Body)
    requires SameMessage(a, b)
    ensures Erased(StepReceive(Erased(s), d, a)) == Erased(StepReceive(s, d, b))
  {
    hide FromBody, ErasedStore;
    ErasedIdempotent(s);
    var x, y := StepReceive(Erased(s), d, a), StepReceive(s, d, b);
    if d !in s.deliveries {
      ErasedUpdate(Erased(s).deliveries, d, x.deliveries[d]);
      ErasedUpdate(s.deliveries, d, y.deliveries[d]);
    }
  }

  lemma ErasedJobs(s: State, jobId: Uuid, row: JobRow)
    requires jobId !in s.store.jobs
    ensures var t := s.(store := s.store.(jobs := s.store.jobs[jobId := row]));
            Erased(t) == Erased(s).(store := Erased(s).store.(jobs := s.store.jobs[jobId := row]))
  {
  }

  lemma SameSelf(body: Body)
    ensures SameMessage(body, body)
  {
    hide FromBody;
  }

  lemma ErasedEffect(derive: Deriver, s: State, a: Action, b: Action)
    requires SameAction(a, b)
    ensures Erased(Effect(derive, Erased(s), a)) == Erased(Effect(derive, s, b))
  {
    ErasedIdempotent(s);
    match a {
      case Receive(d, body) =>
        SameSelf(body);
        hide Erased, StepReceive, SameMessage;
        ErasedArrival(s, d, body, b.body);
      case Advance(d, step) =>
        if d in s.deliveries {
          hide Erased, Stepped;
          ErasedStep(derive, s, d, step);
        }
      case SetFacts(facts) =>
      case AddJob(jobId, row) =>
        if jobId !in s.store.jobs { ErasedJobs(s, jobId, row); }
    }
  }

  lemma ErasedTick(s: State, t: State, m: nat, n: nat)
    requires Erased(s) == Erased(t) && m == n
    ensures Erased(s.(clock := m)) == Erased(t.(clock := n))
  {
  }

  lemma SameStep(derive: Deriver, s: State, t: State, a: Action, b: Action)
    requires Erased(s) == Erased(t) && SameAction(a, b)
    ensures Erased(Do(derive, s, a)) == Erased(Do(derive, t, b))
  {
    assert s.clock == Erased(s).clock == t.clock;
    assert SameAction(a, a) by { if a.Receive? { SameSelf(a.body); } }
    hide Erased, Effect, SameAction;
    ErasedEffect(derive, s, a, a);
    ErasedEffect(derive, t, a, b);
    ErasedTick(Effect(derive, s, a), Effect(derive, t, b), s.clock + 1, t.clock + 1);
  }

  /** Runs that differ in correlation identifiers only stay the same, correlation identifiers apart. */
  lemma {:induction false} SameRun(derive: Deriver, s: State, t: State, a: seq<Action>, b: seq<Action>)
    requires Erased(s) == Erased(t) && SameActions(a, b)
    ensures Erased(Run(derive, s, a)) == Erased(Run(derive, t, b))
  {
    hide Erased, Do, SameAction;
    if a == [] {
    } else {
      var n := |a| - 1;
      SameRun(derive, s, t, a[..n], b[..n]);
      SameStep(derive, Run(derive, s, a[..n]), Run(derive, t, b[..n]), a[n], b[n]);
    }
  }

  /** Call for call the same, the journey header apart. */
  predicate AlikeCalls(x: seq<Request>, y: seq<Request>)
  {
    && |x| == |y|
    && forall i :: 0 <= i < |x| ==> x[i] == y[i].(correlationHeader := x[i].correlationHeader)
  }

  /** Every delivery is where it is in the other. */
  predicate AlikeDeliveries(x: map<nat, Delivery>, y: map<nat, Delivery>)
  {
    && x.Keys == y.Keys
    && forall d :: d in x ==> x[d].pc == y[d].pc && x[d].readAt == y[d].readAt
                              && x[d].envelope == y[d].envelope.(correlationId := x[d].envelope.correlationId)
  }

  /** The same jobs with the same results, and row for row the same, the copied journey apart. */
  predicate AlikeTables(x: Store, y: Store)
  {
    && x.jobs == y.jobs
    && x.executions.Keys == y.executions.Keys && x.audit.Keys == y.audit.Keys && x.outbox.Keys == y.outbox.Keys
    && (forall e :: e in x.executions ==>
          x.executions[e] == y.executions[e].(correlationId := x.executions[e].correlationId))
    && (forall a :: a in x.audit ==> x.audit[a] == y.audit[a].(correlationId := x.audit[a].correlationId))
    && (forall m :: m in x.outbox ==> x.outbox[m] == y.outbox[m].(correlationId := x.outbox[m].correlationId))
  }

  /** In particular: the same calls, the same settlement, and the same rows in every table. */
  lemma MessagesCarryOnlyTheJob(derive: Deriver, s: State, a: seq<Action>, b: seq<Action>)
    requires SameActions(a, b)
    ensures var x, y := Run(derive, s, a), Run(derive, s, b);
            && AlikeCalls(x.requests, y.requests)
            && AlikeDeliveries(x.deliveries, y.deliveries)
            && AlikeTables(x.store, y.store)
  {
    SameRun(derive, s, s, a, b);
    hide Run;
    var x, y := Run(derive, s, a), Run(derive, s, b);
    assert ErasedRequests(x.requests) == ErasedRequests(y.requests);
    assert ErasedStore(x.store) == ErasedStore(y.store);
    assert ErasedDeliveries(x.deliveries) == ErasedDeliveries(y.deliveries);
    hide *;
    AlikeWhenErased(x.requests, y.requests, x.deliveries, y.deliveries);
    AlikeRows(x.store, y.store);
  }

  lemma AlikeWhenErased(
    x: seq<Request>, y: seq<Request>, xs: map<nat, Delivery>, ys: map<nat, Delivery>)
    requires ErasedRequests(x) == ErasedRequests(y) && ErasedDeliveries(xs) == ErasedDeliveries(ys)
    ensures AlikeCalls(x, y) && AlikeDeliveries(xs, ys)
  {
    assert |x| == |ErasedRequests(x)| == |y|;
    forall i | 0 <= i < |x|
      ensures x[i] == y[i].(correlationHeader := x[i].correlationHeader)
    {
      assert ErasedRequests(x)[i] == ErasedRequests(y)[i];
    }
    assert xs.Keys == ErasedDeliveries(xs).Keys == ys.Keys;
    forall d | d in xs
      ensures ErasedDelivery(xs[d]) == ErasedDelivery(ys[d])
    {
      assert ErasedDeliveries(xs)[d] == ErasedDeliveries(ys)[d];
    }
  }

  lemma AlikeRows(x: Store, y: Store)
    requires ErasedStore(x) == ErasedStore(y)
    ensures AlikeTables(x, y)
  {
    assert x.executions.Keys == ErasedExecutions(x.executions).Keys == y.executions.Keys;
    assert x.audit.Keys == ErasedAudit(x.audit).Keys == y.audit.Keys;
    assert x.outbox.Keys == ErasedOutbox(x.outbox).Keys == y.outbox.Keys;
    forall e | e in x.executions
      ensures ErasedRecord(x.executions[e]) == ErasedRecord(y.executions[e])
    {
      assert ErasedExecutions(x.executions)[e] == ErasedExecutions(y.executions)[e];
    }
    forall a | a in x.audit
      ensures x.audit[a].(correlationId := "") == y.audit[a].(correlationId := "")
    {
      assert ErasedAudit(x.audit)[a] == ErasedAudit(y.audit)[a];
    }
    forall m | m in x.outbox
      ensures x.outbox[m].(correlationId := "") == y.outbox[m].(correlationId := "")
    {
      assert ErasedOutbox(x.outbox)[m] == ErasedOutbox(y.outbox)[m];
    }
  }
}
