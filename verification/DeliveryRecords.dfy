/**
 What one delivery, left alone, writes: every column of the record, of the audit row, of the announcement
 and of the job's result, and the call it makes, from the rows and the answer it found.
 */
module DeliveryRecords {
  import opened Text
  import opened Uuids
  import opened Idempotency
  import opened Domain
  import opened AccessPolicy
  import opened ExecutionStore
  import opened ExecutionProtocol
  import opened ExecutionInvariant
  import opened ExecutionSafety
  import opened ExecutionLegProgram
  import opened Redelivery

  // ----- what the delivery finds

  function KeyOf(derive: Deriver, job: JobRow): Key
  {
    derive(job.tenant, job.workItem, job.operation)
  }

  /** The job's work item and organisation are there. */
  predicate Readable(facts: Facts, job: JobRow)
  {
    job.workItem in facts.work && job.tenant in facts.tenantStatus
  }

  /** Active organisation, work that is not over, granted approval, open window. */
  predicate InOrder(facts: Facts, job: JobRow, now: Time)
    requires Readable(facts, job)
  {
    var work := facts.work[job.workItem];
    && facts.tenantStatus[job.tenant] == "active"
    && work.state !in {"cancelled", "expired", "closed", "failed"}
    && work.approvalState in {"approved", "auto_authorized", "consented"}
    && now < if work.expiresAt.Some? then work.expiresAt.value else job.expiresAt
  }

  predicate Enabled(facts: Facts, job: JobRow)
  {
    var row := (job.tenant, job.identity.catalogueId);
    row in facts.entitled && facts.entitled[row]
  }

  predicate Registered(facts: Facts, job: JobRow)
  {
    job.identity.catalogueId in facts.registered
  }

  predicate AtItsVersion(facts: Facts, job: JobRow)
  {
    Registered(facts, job) && facts.registered[job.identity.catalogueId] == job.identity.version
  }

  predicate MayCall(facts: Facts, job: JobRow, now: Time)
    requires Readable(facts, job)
  {
    InOrder(facts, job, now) && Enabled(facts, job) && AtItsVersion(facts, job) && job.identity in facts.bindings
  }

  /** The outcome names the first thing wrong, or how the call went. */
  predicate OutcomeFits(facts: Facts, job: JobRow, now: Time, reply: Reply, outcome: ExecutionOutcome)
    requires Readable(facts, job)
  {
    var inOrder := InOrder(facts, job, now);
    var enabled := inOrder && Enabled(facts, job);
    var called := MayCall(facts, job, now);
    && (outcome == RefusedWindow <==> !inOrder)
    && (outcome == RefusedUnentitled <==> inOrder && !enabled)
    && (outcome == RefusedVersion <==> enabled && Registered(facts, job) && !AtItsVersion(facts, job))
    && (outcome == RefusedUnregistered <==>
          enabled && (!Registered(facts, job) || (AtItsVersion(facts, job) && job.identity !in facts.bindings)))
    && (outcome == Succeeded <==> called && reply.Replied? && reply.succeeded)
    && (outcome == Failed <==> called && reply.Replied? && !reply.succeeded)
    && (outcome == Unreachable <==> called && reply.HandledError?)
  }

  // ----- what it writes

  /** The record, column by column. */
  predicate RecordFits(
    derive: Deriver, facts: Facts, jobId: Uuid, job: JobRow, envelope: Envelope, w: Surroundings,
    r: ExecutionRecord)
    requires Readable(facts, job)
  {
    && r.jobId == jobId && r.tenant == job.tenant && r.identity == job.identity
    && r.key == KeyOf(derive, job)
    && OutcomeFits(facts, job, w.now, w.reply, r.outcome)
    && r.verification == ClientAttested
    && r.correlationId == envelope.correlationId && r.completedAt == w.completedAt
    && if MayCall(facts, job, w.now) then
         && r.connectorId == (if facts.bindings[job.identity].connectorId == "" then "none"
                              else facts.bindings[job.identity].connectorId)
         && r.attemptedAt == w.startedAt
         && r.externalReference == (if w.reply.Replied? then w.reply.externalReference else None)
         && r.normalizedResult == (if w.reply.Replied? then Some(w.reply.payload) else None)
       else
         r.connectorId == "none" && r.attemptedAt == w.now
         && r.externalReference == None && r.normalizedResult == None
  }

  /** The record and the three rows written with it; every other row is as it was. */
  predicate WroteJustThese(s: Store, t: Store, ids: Ids, jobId: Uuid, r: ExecutionRecord)
    requires jobId in s.jobs
  {
    && t.executions == s.executions[ids.execution := r] && PairedRows(t, ids.execution, ids)
    && t.audit.Keys == s.audit.Keys + {ids.audit} && (forall a :: a in s.audit ==> t.audit[a] == s.audit[a])
    && t.outbox.Keys == s.outbox.Keys + {ids.message} && (forall m :: m in s.outbox ==> t.outbox[m] == s.outbox[m])
    && t.jobs.Keys == s.jobs.Keys && (forall j :: j in s.jobs && j != jobId ==> t.jobs[j] == s.jobs[j])
    && t.jobs[jobId].(result := None) == s.jobs[jobId].(result := None)
  }

  /** The call it makes, when it may: the binding's destination, the job's parameters, the key if asked for. */
  predicate CallFits(
    derive: Deriver, facts: Facts, job: JobRow, envelope: Envelope, d: nat, w: Surroundings,
    before: seq<Request>, after: seq<Request>)
    requires Readable(facts, job)
  {
    if MayCall(facts, job, w.now) then
      var binding := facts.bindings[job.identity];
      after == before + [Request(d, job.tenant, binding.destination, job.parameters,
                                 if binding.policy == DerivedKey then Some(KeyOf(derive, job)) else None,
                                 envelope.correlationId, KeyOf(derive, job), w.reply)]
    else after == before
  }

  /** About to record, with everything the record will be made of; no table has changed. */
  ghost predicate Drafted(
    derive: Deriver, s: State, u: State, d: nat, jobId: Uuid, envelope: Envelope, w: Surroundings)
    requires jobId in s.store.jobs && Readable(s.facts, s.store.jobs[jobId])
  {
    && u.store == s.store && d in u.deliveries && u.deliveries[d].envelope == envelope
    && CallFits(derive, s.facts, s.store.jobs[jobId], envelope, d, w, s.requests, u.requests)
    && u.deliveries[d].pc.Recording?
    && var draft := u.deliveries[d].pc.draft;
    && draft.instruction.workItem == s.store.jobs[jobId].workItem
    && ValidIdentity(draft.instruction.identity)
    && RecordFits(derive, s.facts, jobId, s.store.jobs[jobId], envelope, w,
                  RecordOf(derive, draft, envelope.correlationId, w.completedAt))
  }

  /** The whole delivery is over: one record with its rows, at most one call, and the message completed. */
  ghost predicate Written(
    derive: Deriver, s: State, t: State, d: nat, jobId: Uuid, envelope: Envelope, w: Surroundings)
    requires jobId in s.store.jobs && Readable(s.facts, s.store.jobs[jobId])
  {
    && w.ids.execution in t.store.executions
    && var r := t.store.executions[w.ids.execution];
    && RecordFits(derive, s.facts, jobId, s.store.jobs[jobId], envelope, w, r)
    && WroteJustThese(s.store, t.store, w.ids, jobId, r)
    && CallFits(derive, s.facts, s.store.jobs[jobId], envelope, d, w, s.requests, t.requests)
    && d in t.deliveries && t.deliveries[d].pc == Done(Complete, Recorded(w.ids.execution))
  }

  // ----- how it gets there

  /** The instruction repeats the job's own columns. */
  predicate Repeats(i: Instruction, jobId: Uuid, job: JobRow)
  {
    && i.jobId == jobId && i.workItem == job.workItem && i.operation == job.operation
    && i.tenant == job.tenant && i.identity == job.identity && i.parameters == job.parameters
  }

  lemma LoadedAs(store: Store, facts: Facts, jobId: Uuid, now: Time)
    requires jobId in store.jobs && Readable(facts, store.jobs[jobId])
    ensures LoadInstruction(store, facts, jobId).Some?
    ensures var i := LoadInstruction(store, facts, jobId).value;
            && Repeats(i, jobId, store.jobs[jobId])
            && (i.IsExecutableAt(now) <==> InOrder(facts, store.jobs[jobId], now))
  {
  }

  lemma RefusalFits(
    derive: Deriver, facts: Facts, jobId: Uuid, job: JobRow, envelope: Envelope, w: Surroundings,
    i: Instruction, outcome: ExecutionOutcome)
    requires Readable(facts, job) && Repeats(i, jobId, job) && !MayCall(facts, job, w.now)
    requires OutcomeFits(facts, job, w.now, w.reply, outcome)
    ensures RecordFits(derive, facts, jobId, job, envelope, w,
                       RecordOf(derive, RefusalDraft(i, outcome, w.now), envelope.correlationId, w.completedAt))
  {
    hide OutcomeFits, MayCall;
  }

  lemma AnswerFits(
    derive: Deriver, facts: Facts, jobId: Uuid, job: JobRow, envelope: Envelope, w: Surroundings,
    i: Instruction)
    requires Readable(facts, job) && Repeats(i, jobId, job) && MayCall(facts, job, w.now)
    ensures var draft := CallDraft(i, facts.bindings[job.identity], w.startedAt, w.reply);
            RecordFits(derive, facts, jobId, job, envelope, w,
                       RecordOf(derive, draft, envelope.correlationId, w.completedAt))
  {
  }

  /** What the refusals are recorded as. */
  lemma RefusalsFit(facts: Facts, job: JobRow, now: Time, reply: Reply)
    requires Readable(facts, job)
    ensures !InOrder(facts, job, now) ==> OutcomeFits(facts, job, now, reply, RefusedWindow)
    ensures InOrder(facts, job, now) && !Enabled(facts, job) ==>
              OutcomeFits(facts, job, now, reply, RefusalOutcome(NotEntitled))
    ensures InOrder(facts, job, now) && Enabled(facts, job) && !Registered(facts, job) ==>
              OutcomeFits(facts, job, now, reply, RefusalOutcome(NotRegistered))
    ensures InOrder(facts, job, now) && Enabled(facts, job) && Registered(facts, job) && !AtItsVersion(facts, job) ==>
              OutcomeFits(facts, job, now, reply, RefusalOutcome(VersionMismatch))
    ensures InOrder(facts, job, now) && Enabled(facts, job) && AtItsVersion(facts, job) && !MayCall(facts, job, now) ==>
              OutcomeFits(facts, job, now, reply, RefusalOutcome(NoBinding))
  {
    hide InOrder, Enabled;
  }

  /** A refusal drafted so far along the script is still what is about to be recorded at its end. */
  lemma RefusalDrafted(
    derive: Deriver, s: State, start: State, u: State, d: nat, jobId: Uuid, envelope: Envelope,
    w: Surroundings, n: nat, i: Instruction, outcome: ExecutionOutcome)
    requires n <= 7 && u == Run(derive, start, Script(d, w)[..n])
    requires jobId in s.store.jobs && Readable(s.facts, s.store.jobs[jobId])
    requires u.store == s.store && u.requests == s.requests
    requires d in u.deliveries && u.deliveries[d].envelope == envelope
    requires u.deliveries[d].pc == Recording(RefusalDraft(i, outcome, w.now))
    requires Repeats(i, jobId, s.store.jobs[jobId]) && ValidIdentity(i.identity)
    requires !MayCall(s.facts, s.store.jobs[jobId], w.now)
    requires OutcomeFits(s.facts, s.store.jobs[jobId], w.now, w.reply, outcome)
    ensures Drafted(derive, s, Run(derive, start, Script(d, w)[..7]), d, jobId, envelope, w)
  {
    RefusalFits(derive, s.facts, jobId, s.store.jobs[jobId], envelope, w, i, outcome);
    hide Run, Script, MayCall, OutcomeFits, RecordFits, RecordOf, ValidIdentity;
    NothingButRecording(d, w, n, RefusalDraft(i, outcome, w.now));
    SkipOn(derive, start, u, d, w, n, 7);
  }

  /** From the permission on: the call, and what it came to. */
  lemma CallDrafted(
    derive: Deriver, s: State, start: State, u: State, d: nat, jobId: Uuid, envelope: Envelope,
    w: Surroundings, i: Instruction)
    requires u == Run(derive, start, Script(d, w)[..5])
    requires jobId in s.store.jobs && Readable(s.facts, s.store.jobs[jobId])
    requires u.store == s.store && u.requests == s.requests
    requires d in u.deliveries && u.deliveries[d].envelope == envelope
    requires Repeats(i, jobId, s.store.jobs[jobId]) && ValidIdentity(i.identity)
    requires MayCall(s.facts, s.store.jobs[jobId], w.now)
    requires i.identity in s.facts.bindings
    requires u.deliveries[d].pc == Permitted(i, s.facts.bindings[i.identity])
    requires !HasKey(s.store.executions, i.Key(derive))
    ensures Drafted(derive, s, Run(derive, start, Script(d, w)[..7]), d, jobId, envelope, w)
  {
    var binding := s.facts.bindings[i.identity];
    hide *;
    ScriptAt(d, w);
    PreCheckDone(derive, u, d, i, binding);
    StepOn(derive, start, u, d, w, 5);
    var v := Do(derive, u, Script(d, w)[5]);
    ArrivedAt(u, v, d, Cleared(i, binding));
    CallDone(derive, v, d, i, binding, w.startedAt, w.reply);
    StepOn(derive, start, v, d, w, 6);
    var x := Do(derive, v, Script(d, w)[6]);
    ArrivedAt(v, x.(requests := v.requests), d, Recording(CallDraft(i, binding, w.startedAt, w.reply)));
    CalledIsDrafted(derive, s, x, d, jobId, envelope, w, i);
  }

  lemma ArrivedAt(s: State, t: State, d: nat, pc: Pc)
    requires d in s.deliveries && Arrived(s, t, d, pc)
    ensures t.store == s.store && t.facts == s.facts && t.requests == s.requests && d in t.deliveries
    ensures t.deliveries[d].envelope == s.deliveries[d].envelope && t.deliveries[d].pc == pc
  {
  }

  lemma CalledIsDrafted(
    derive: Deriver, s: State, u: State, d: nat, jobId: Uuid, envelope: Envelope, w: Surroundings, i: Instruction)
    requires jobId in s.store.jobs && Readable(s.facts, s.store.jobs[jobId])
    requires Repeats(i, jobId, s.store.jobs[jobId]) && ValidIdentity(i.identity)
    requires MayCall(s.facts, s.store.jobs[jobId], w.now) && i.identity in s.facts.bindings
    requires d in u.deliveries && u.deliveries[d].envelope == envelope && u.store == s.store
    requires var binding := s.facts.bindings[i.identity];
             && u.deliveries[d].pc == Recording(CallDraft(i, binding, w.startedAt, w.reply))
             && u.requests == s.requests + [RequestOf(derive, d, envelope.correlationId, i, binding, w.reply)]
    ensures Drafted(derive, s, u, d, jobId, envelope, w)
  {
    var binding := s.facts.bindings[i.identity];
    AnswerFits(derive, s.facts, jobId, s.store.jobs[jobId], envelope, w, i);
    RequestColumns(derive, s.store.jobs[jobId], jobId, d, envelope.correlationId, i, binding, w.reply);
    DraftOf(i, binding, w);
    hide MayCall, RecordFits, RecordOf, ValidIdentity, RequestOf, CallDraft;
  }

  lemma RequestColumns(
    derive: Deriver, job: JobRow, jobId: Uuid, d: nat, correlationId: string, i: Instruction,
    binding: Binding, reply: Reply)
    requires Repeats(i, jobId, job)
    ensures RequestOf(derive, d, correlationId, i, binding, reply) ==
            Request(d, job.tenant, binding.destination, job.parameters,
                    if binding.policy == DerivedKey then Some(KeyOf(derive, job)) else None, correlationId,
                    KeyOf(derive, job), reply)
  {
  }

  /** From the policy on. */
  lemma PolicyDrafted(
    derive: Deriver, s: State, start: State, u: State, d: nat, jobId: Uuid, envelope: Envelope,
    w: Surroundings, i: Instruction)
    requires u == Run(derive, start, Script(d, w)[..2])
    requires jobId in s.store.jobs && Readable(s.facts, s.store.jobs[jobId])
    requires u.store == s.store && u.facts == s.facts && u.requests == s.requests
    requires d in u.deliveries && u.deliveries[d].envelope == envelope
    requires Repeats(i, jobId, s.store.jobs[jobId]) && ValidIdentity(i.identity)
    requires InOrder(s.facts, s.store.jobs[jobId], w.now)
    requires u.deliveries[d].pc == InWindow(i, w.now)
    requires !HasKey(s.store.executions, i.Key(derive))
    ensures Drafted(derive, s, Run(derive, start, Script(d, w)[..7]), d, jobId, envelope, w)
  {
    hide Run, Do, Script, InOrder, Drafted, ValidIdentity, HasKey, RefusalOutcome, RefusalDraft, OutcomeFits;
    var job := s.store.jobs[jobId];
    RefusalsFit(s.facts, job, w.now, w.reply);
    ScriptAt(d, w);
    EntitlementRead(derive, u, d, i, w.now);
    StepOn(derive, start, u, d, w, 2);
    var v := Do(derive, u, Script(d, w)[2]);
    if !Enabled(s.facts, job) {
      RefusalDrafted(derive, s, start, v, d, jobId, envelope, w, 3, i, RefusalOutcome(NotEntitled));
    } else {
      VersionRead(derive, v, d, i, w.now);
      StepOn(derive, start, v, d, w, 3);
      var x := Do(derive, v, Script(d, w)[3]);
      if !Registered(s.facts, job) {
        RefusalDrafted(derive, s, start, x, d, jobId, envelope, w, 4, i, RefusalOutcome(NotRegistered));
      } else if !AtItsVersion(s.facts, job) {
        RefusalDrafted(derive, s, start, x, d, jobId, envelope, w, 4, i, RefusalOutcome(VersionMismatch));
      } else {
        BindingRead(derive, x, d, i, w.now);
        StepOn(derive, start, x, d, w, 4);
        var y := Do(derive, x, Script(d, w)[4]);
        if job.identity !in s.facts.bindings {
          RefusalDrafted(derive, s, start, y, d, jobId, envelope, w, 5, i, RefusalOutcome(NoBinding));
        } else {
          CallDrafted(derive, s, start, y, d, jobId, envelope, w, i);
        }
      }
    }
  }

  /** From the queue up to the transaction. */
  lemma DeliveryDrafted(
    derive: Deriver, s: State, start: State, d: nat, jobId: Uuid, envelope: Envelope, w: Surroundings)
    requires jobId in s.store.jobs && Readable(s.facts, s.store.jobs[jobId])
    requires start.store == s.store && start.facts == s.facts && start.requests == s.requests
    requires d in start.deliveries && start.deliveries[d].envelope == envelope && envelope.jobId == jobId
    requires start.deliveries[d].pc.Accepted?
    requires ValidIdentity(s.store.jobs[jobId].identity)
    requires !HasKey(s.store.executions, KeyOf(derive, s.store.jobs[jobId]))
    ensures Drafted(derive, s, Run(derive, start, Script(d, w)[..7]), d, jobId, envelope, w)
  {
    hide *;
    LoadedAs(s.store, s.facts, jobId, w.now);
    var job, i := s.store.jobs[jobId], LoadInstruction(s.store, s.facts, jobId).value;
    RepeatsKey(derive, i, jobId, job);
    ScriptAt(d, w);
    NothingRun(derive, start, d, w);
    LoadDone(derive, start, d);
    StepOn(derive, start, start, d, w, 0);
    var u := Do(derive, start, Script(d, w)[0]);
    ArrivedAt(start, u, d, Loaded(i));
    WindowDone(derive, u, d, i, w.now);
    StepOn(derive, start, u, d, w, 1);
    var v := Do(derive, u, Script(d, w)[1]);
    if InOrder(s.facts, job, w.now) {
      ArrivedAt(u, v, d, InWindow(i, w.now));
      PolicyDrafted(derive, s, start, v, d, jobId, envelope, w, i);
    } else {
      ArrivedAt(u, v, d, Recording(RefusalDraft(i, RefusedWindow, w.now)));
      RefusalsFit(s.facts, job, w.now, w.reply);
      NoCallOutOfOrder(s.facts, job, w.now);
      RefusalDrafted(derive, s, start, v, d, jobId, envelope, w, 2, i, RefusedWindow);
    }
  }

  lemma RepeatsKey(derive: Deriver, i: Instruction, jobId: Uuid, job: JobRow)
    requires Repeats(i, jobId, job)
    ensures i.Key(derive) == KeyOf(derive, job) && i.identity == job.identity
  {
  }

  lemma NoCallOutOfOrder(facts: Facts, job: JobRow, now: Time)
    requires Readable(facts, job) && !InOrder(facts, job, now)
    ensures !MayCall(facts, job, now)
  {
  }

  /** A record that breaks no constraint lands with the three rows beside it. */
  lemma RecordLands(store: Store, ids: Ids, record: ExecutionRecord, jobId: Uuid)
    requires Fresh(store, ids) && jobId in store.jobs && !HasKey(store.executions, record.key)
    requires record.jobId == jobId && record.tenant == store.jobs[jobId].tenant
    requires record.identity == store.jobs[jobId].identity && record.identity.version >= 1
    requires record.verification == ClientAttested
    ensures Insertable(store.executions, ids.execution, record)
    ensures WroteJustThese(store, RecordAll(store, ids, record, store.jobs[jobId].workItem), ids, jobId, record)
  {
    hide HasKey;
  }

  /** What is drafted is written, and acknowledged. */
  lemma DraftedIsWritten(
    derive: Deriver, s: State, start: State, d: nat, jobId: Uuid, envelope: Envelope, w: Surroundings)
    requires jobId in s.store.jobs && Readable(s.facts, s.store.jobs[jobId]) && Fresh(s.store, w.ids)
    requires ValidIdentity(s.store.jobs[jobId].identity)
    requires !HasKey(s.store.executions, KeyOf(derive, s.store.jobs[jobId]))
    requires Drafted(derive, s, Run(derive, start, Script(d, w)[..7]), d, jobId, envelope, w)
    ensures Written(derive, s, Run(derive, start, Script(d, w)), d, jobId, envelope, w)
  {
    hide *;
    var u := Run(derive, start, Script(d, w)[..7]);
    DraftLands(derive, s, u, d, jobId, envelope, w);
    var draft := u.deliveries[d].pc.draft;
    var record := RecordOf(derive, draft, envelope.correlationId, w.completedAt);
    ScriptAt(d, w);
    RecordDone(derive, u, d, draft, w.ids, w.completedAt);
    StepOn(derive, start, u, d, w, 7);
    var v := Do(derive, u, Script(d, w)[7]);
    Acknowledged(derive, v, d, w.ids.execution, draft.outcome);
    StepOn(derive, start, v, d, w, 8);
    assert Script(d, w)[..9] == Script(d, w);
    var t := Run(derive, start, Script(d, w));
    ArrivedAt(v, t, d, Done(Complete, Recorded(w.ids.execution)));
    LandsInTable(s.store, t.store, w.ids, jobId, record);
    WrittenOf(derive, s, t, d, jobId, envelope, w, record);
  }

  /** What is drafted can be written, and the transaction will write just that. */
  lemma DraftLands(
    derive: Deriver, s: State, u: State, d: nat, jobId: Uuid, envelope: Envelope, w: Surroundings)
    requires jobId in s.store.jobs && Readable(s.facts, s.store.jobs[jobId]) && Fresh(s.store, w.ids)
    requires ValidIdentity(s.store.jobs[jobId].identity)
    requires !HasKey(s.store.executions, KeyOf(derive, s.store.jobs[jobId]))
    requires Drafted(derive, s, u, d, jobId, envelope, w)
    ensures d in u.deliveries && u.deliveries[d].pc.Recording? && u.deliveries[d].envelope == envelope
    ensures Fresh(u.store, w.ids)
    ensures var draft := u.deliveries[d].pc.draft;
            var record := RecordOf(derive, draft, envelope.correlationId, w.completedAt);
            && Insertable(u.store.executions, w.ids.execution, record)
            && WroteJustThese(s.store, RecordAll(u.store, w.ids, record, draft.instruction.workItem), w.ids, jobId,
                              record)
            && RecordFits(derive, s.facts, jobId, s.store.jobs[jobId], envelope, w, record)
            && CallFits(derive, s.facts, s.store.jobs[jobId], envelope, d, w, s.requests, u.requests)
  {
    hide CallFits, OutcomeFits, RecordOf, HasKey, Insertable, RecordAll, WroteJustThese, Fresh;
    var record := RecordOf(derive, u.deliveries[d].pc.draft, envelope.correlationId, w.completedAt);
    RecordLands(s.store, w.ids, record, jobId);
  }

  lemma WrittenOf(
    derive: Deriver, s: State, t: State, d: nat, jobId: Uuid, envelope: Envelope, w: Surroundings,
    r: ExecutionRecord)
    requires jobId in s.store.jobs && Readable(s.facts, s.store.jobs[jobId])
    requires w.ids.execution in t.store.executions && t.store.executions[w.ids.execution] == r
    requires RecordFits(derive, s.facts, jobId, s.store.jobs[jobId], envelope, w, r)
    requires WroteJustThese(s.store, t.store, w.ids, jobId, r)
    requires CallFits(derive, s.facts, s.store.jobs[jobId], envelope, d, w, s.requests, t.requests)
    requires d in t.deliveries && t.deliveries[d].pc == Done(Complete, Recorded(w.ids.execution))
    ensures Written(derive, s, t, d, jobId, envelope, w)
  {
    hide RecordFits, WroteJustThese, CallFits;
  }

  lemma LandsInTable(s: Store, t: Store, ids: Ids, jobId: Uuid, r: ExecutionRecord)
    requires jobId in s.jobs && WroteJustThese(s, t, ids, jobId, r)
    ensures ids.execution in t.executions && t.executions[ids.execution] == r
  {
  }

  /**
   A message for a job that can be read and whose operation has no record yet, delivered and left alone,
   writes exactly one record, one audit row, one announcement and the job's result, and completes. Each
   column is what the tables, the clocks and the connector's answer say: the outcome names the first
   thing found wrong, or how the one call went.
   */
  lemma WhatADeliveryWrites(derive: Deriver, s: State, d: nat, body: Body, jobId: Uuid, w: Surroundings)
    requires d !in s.deliveries && w.fault.None? && Fresh(s.store, w.ids)
    requires FromBody(body).Some? && FromBody(body).value.kind.Execute? && FromBody(body).value.jobId == jobId
    requires jobId in s.store.jobs && Readable(s.facts, s.store.jobs[jobId])
    requires ValidIdentity(s.store.jobs[jobId].identity)
    requires !HasKey(s.store.executions, KeyOf(derive, s.store.jobs[jobId]))
    ensures Written(derive, s, Run(derive, s, [Receive(d, body)] + Trace(d, w)), d, jobId, FromBody(body).value, w)
  {
    hide Run, Do, Script, Fresh, HasKey, ValidIdentity, FromBody, Readable, Drafted, Written;
    Received(derive, s, d, body, w);
    var start := Do(derive, s, Receive(d, body));
    assert Trace(d, w) == Script(d, w);
    DeliveryDrafted(derive, s, start, d, jobId, FromBody(body).value, w);
    DraftedIsWritten(derive, s, start, d, jobId, FromBody(body).value, w);
  }
}
