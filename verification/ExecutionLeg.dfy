/**
 The consumer and the execution leg as the program they are: reads, early returns, one outbound call and
 one transaction. Undisturbed, a delivery does exactly what the transition system says its own steps do.
 */
module ExecutionLegProgram {
  import opened Text
  import opened Uuids
  import opened Idempotency
  import opened Domain
  import opened AccessPolicy
  import opened ExecutionStore
  import opened ExecutionProtocol
  import opened ExecutionSafety
  import opened InvocationAccounting
  import Egress

  /**
   What the leg takes from outside, and the stage at which an exception strikes, if one does: at stage 6
   a missing credential is one of them, at stage 8 a commit whose acknowledgement is lost.
   */
  datatype Surroundings = Surroundings(
    now: Time, startedAt: Time, reply: Reply, ids: Ids, completedAt: Time, fault: Option<nat>,
    credential: string, normalize: string -> Option<Egress.Normalized>)
  {
    predicate Struck(stage: nat) {
      fault.Some? && fault.value <= stage <= 8
    }

    /** No exception before this stage. */
    predicate Spared(stage: nat) {
      fault.None? || fault.value >= stage || fault.value > 8
    }
  }

  /** The steps of one delivery, in the program's order. */
  function Script(d: nat, w: Surroundings): (script: seq<Action>)
    ensures |script| == 9
    ensures forall j :: 0 <= j < 9 ==> script[j].Advance? && script[j].d == d
  {
    [Advance(d, Load), Advance(d, CheckWindow(w.now)), Advance(d, ReadEntitlement),
     Advance(d, ReadVersion), Advance(d, ReadBinding), Advance(d, PreCheck),
     Advance(d, Invoke(w.startedAt, w.reply)), Advance(d, Record(w.ids, w.completedAt)),
     Advance(d, Acknowledge)]
  }

  /** The same, with the exception where it strikes. */
  function Trace(d: nat, w: Surroundings): seq<Action>
  {
    var script := Script(d, w);
    if w.Struck(8) then script[..w.fault.value] + [Advance(d, Fault)] + script[w.fault.value..]
    else script
  }

  /** The step is not the one the program counter calls for. */
  predicate Disabled(pc: Pc, step: Step)
  {
    match step
    case Load => !pc.Accepted?
    case CheckWindow(_) => !pc.Loaded?
    case ReadEntitlement => !pc.InWindow?
    case ReadVersion => !pc.Entitled?
    case ReadBinding => !pc.AtVersion?
    case PreCheck => !pc.Permitted?
    case Invoke(_, _) => !pc.Cleared?
    case Record(_, _) => !pc.Recording?
    case Acknowledge => !pc.Written?
    case Fault => !Active(pc)
    case Crash => !Active(pc)
  }

  predicate AllDisabled(pc: Pc, d: nat, actions: seq<Action>)
  {
    forall j :: 0 <= j < |actions| ==>
      actions[j].Advance? && actions[j].d == d && Disabled(pc, actions[j].step)
  }

  lemma DisabledStutters(derive: Deriver, s: State, d: nat, step: Step)
    requires d in s.deliveries && Disabled(s.deliveries[d].pc, step)
    ensures Do(derive, s, Advance(d, step)) == s.(clock := s.clock + 1)
  {
    hide StepLoad, StepCheckWindow, StepReadEntitlement, StepReadVersion, StepReadBinding,
         StepPreCheck, StepInvoke, StepRecord, Moved, Fresh;
  }

  /** Only time passes while nothing is possible. */
  lemma {:induction false} Idle(derive: Deriver, s: State, d: nat, actions: seq<Action>)
    requires d in s.deliveries && AllDisabled(s.deliveries[d].pc, d, actions)
    ensures Run(derive, s, actions) == s.(clock := s.clock + |actions|)
  {
    if actions == [] {
    } else {
      hide Do, Disabled;
      var n := |actions| - 1;
      Idle(derive, s, d, actions[..n]);
      DisabledStutters(derive, s.(clock := s.clock + n), d, actions[n].step);
    }
  }

  /** Nothing is left to do once the delivery is done, whenever the exception was due. */
  lemma Finished(derive: Deriver, start: State, u: State, d: nat, w: Surroundings, n: nat)
    requires n <= 9 && u == Run(derive, start, Script(d, w)[..n]) && w.Spared(n)
    requires d in u.deliveries && u.deliveries[d].pc.Done?
    ensures Run(derive, start, Trace(d, w)) == u.(clock := u.clock + |Trace(d, w)| - n)
  {
    hide Run, Script;
    var script, trace := Script(d, w), Trace(d, w);
    assert trace == script[..n] + trace[n..];
    RunConcat(derive, start, script[..n], trace[n..]);
    assert AllDisabled(u.deliveries[d].pc, d, trace[n..]);
    Idle(derive, u, d, trace[n..]);
  }

  /** An exception abandons the delivery, from wherever it is. */
  lemma Interrupted(derive: Deriver, start: State, u: State, d: nat, w: Surroundings, n: nat, stage: nat)
    requires n <= stage <= 8 && u == Run(derive, start, Script(d, w)[..n])
    requires w.Struck(stage) && w.Spared(n)
    requires d in u.deliveries && Active(u.deliveries[d].pc)
    requires AllDisabled(u.deliveries[d].pc, d, Script(d, w)[n..stage])
    ensures Run(derive, start, Trace(d, w)) ==
            Moved(u, d, AbandonedFrom(u.deliveries[d].pc)).(clock := u.clock + 10 - n)
  {
    hide Run, Script;
    var script, trace, k := Script(d, w), Trace(d, w), w.fault.value;
    assert trace == script[..n] + script[n..k] + [Advance(d, Fault)] + script[k..];
    RunConcat(derive, start, script[..n] + script[n..k] + [Advance(d, Fault)], script[k..]);
    RunConcat(derive, start, script[..n] + script[n..k], [Advance(d, Fault)]);
    RunConcat(derive, start, script[..n], script[n..k]);
    assert script[n..k] == script[n..stage][..k - n];
    Idle(derive, u, d, script[n..k]);
    var v := u.(clock := u.clock + (k - n));
    Strikes(derive, v, d);
    var after := Run(derive, v, [Advance(d, Fault)]);
    Idle(derive, after, d, script[k..]);
  }

  lemma Strikes(derive: Deriver, s: State, d: nat)
    requires d in s.deliveries && Active(s.deliveries[d].pc)
    ensures Run(derive, s, [Advance(d, Fault)]) ==
            Moved(s, d, AbandonedFrom(s.deliveries[d].pc)).(clock := s.clock + 1)
  {
    assert Run(derive, s, []) == s;
    assert [Advance(d, Fault)][..0] == [];
  }

  /** One step further along the script. */
  lemma StepOn(derive: Deriver, start: State, u: State, d: nat, w: Surroundings, n: nat)
    requires n < 9 && u == Run(derive, start, Script(d, w)[..n])
    ensures Do(derive, u, Script(d, w)[n]) == Run(derive, start, Script(d, w)[..n + 1])
  {
    hide Do, Script;
    assert Script(d, w)[..n + 1][..n] == Script(d, w)[..n];
  }

  /** Past the steps that do not apply. */
  lemma SkipOn(derive: Deriver, start: State, u: State, d: nat, w: Surroundings, n: nat, m: nat)
    requires n <= m <= 9 && u == Run(derive, start, Script(d, w)[..n])
    requires d in u.deliveries && AllDisabled(u.deliveries[d].pc, d, Script(d, w)[n..m])
    ensures Run(derive, start, Script(d, w)[..m]) == u.(clock := u.clock + (m - n))
  {
    hide Run, Script;
    assert Script(d, w)[..m] == Script(d, w)[..n] + Script(d, w)[n..m];
    RunConcat(derive, start, Script(d, w)[..n], Script(d, w)[n..m]);
    Idle(derive, u, d, Script(d, w)[n..m]);
  }

  /** Only the delivery's own program counter has moved. */
  predicate Arrived(s: State, t: State, d: nat, pc: Pc)
    requires d in s.deliveries
  {
    && t.store == s.store && t.facts == s.facts && t.requests == s.requests
    && d in t.deliveries && t.deliveries[d].envelope == s.deliveries[d].envelope
    && t.deliveries[d].pc == pc
  }

  lemma EntitlementRead(derive: Deriver, s: State, d: nat, i: Instruction, now: Time)
    requires d in s.deliveries && s.deliveries[d].pc == InWindow(i, now)
    ensures Arrived(s, Do(derive, s, Advance(d, ReadEntitlement)), d,
                    if s.facts.IsEntitled(i.tenant, i.identity.catalogueId) then Entitled(i, now)
                    else Recording(RefusalDraft(i, RefusalOutcome(NotEntitled), now)))
  {
    hide RefusalOutcome, RefusalDraft;
  }

  lemma VersionRead(derive: Deriver, s: State, d: nat, i: Instruction, now: Time)
    requires d in s.deliveries && s.deliveries[d].pc == Entitled(i, now)
    ensures var registered := s.facts.RegisteredVersion(i.identity.catalogueId);
            Arrived(s, Do(derive, s, Advance(d, ReadVersion)), d,
                    if registered.None?
                    then Recording(RefusalDraft(i, RefusalOutcome(NotRegistered), now))
                    else if registered.value != i.identity.version
                    then Recording(RefusalDraft(i, RefusalOutcome(VersionMismatch), now))
                    else AtVersion(i, now))
  {
    hide RefusalOutcome, RefusalDraft;
  }

  lemma BindingRead(derive: Deriver, s: State, d: nat, i: Instruction, now: Time)
    requires d in s.deliveries && s.deliveries[d].pc == AtVersion(i, now)
    ensures Arrived(s, Do(derive, s, Advance(d, ReadBinding)), d,
                    if i.identity in s.facts.bindings then Permitted(i, s.facts.bindings[i.identity])
                    else Recording(RefusalDraft(i, RefusalOutcome(NoBinding), now)))
  {
    hide RefusalOutcome, RefusalDraft;
  }

  /** Without a record yet, the transaction decides; afterwards the delivery acknowledges. */
  lemma RecordDone(derive: Deriver, s: State, d: nat, draft: Draft, ids: Ids, completedAt: Time)
    requires d in s.deliveries && s.deliveries[d].pc == Recording(draft) && Fresh(s.store, ids)
    ensures var t := Do(derive, s, Advance(d, Record(ids, completedAt)));
            var record := RecordOf(derive, draft, s.deliveries[d].envelope.correlationId, completedAt);
            && t.store == RecordAll(s.store, ids, record, draft.instruction.workItem)
            && t.facts == s.facts && t.requests == s.requests
            && d in t.deliveries && t.deliveries[d].envelope == s.deliveries[d].envelope
            && t.deliveries[d].pc ==
               if Insertable(s.store.executions, ids.execution, record) then Written(ids.execution, draft.outcome)
               else Done(Complete, LostInsert)
  {
    hide RecordOf, Insertable, Fresh;
  }

  lemma Acknowledged(derive: Deriver, s: State, d: nat, e: Uuid, outcome: ExecutionOutcome)
    requires d in s.deliveries && s.deliveries[d].pc == Written(e, outcome)
    ensures Arrived(s, Do(derive, s, Advance(d, Acknowledge)), d, Done(Complete, Recorded(e)))
  {
  }

  lemma LoadDone(derive: Deriver, s: State, d: nat)
    requires d in s.deliveries && s.deliveries[d].pc.Accepted?
    ensures var loaded := LoadInstruction(s.store, s.facts, s.deliveries[d].envelope.jobId);
            Arrived(s, Do(derive, s, Advance(d, Load)), d,
                    if loaded.None? then Done(DeadLetter, UnknownJob)
                    else if !ValidIdentity(loaded.value.identity) then Done(Abandon, Faulted(false, false))
                    else Loaded(loaded.value))
  {
    hide LoadInstruction, ValidIdentity;
  }

  lemma WindowDone(derive: Deriver, s: State, d: nat, i: Instruction, now: Time)
    requires d in s.deliveries && s.deliveries[d].pc == Loaded(i)
    ensures Arrived(s, Do(derive, s, Advance(d, CheckWindow(now))), d,
                    if i.IsExecutableAt(now) then InWindow(i, now)
                    else Recording(RefusalDraft(i, RefusedWindow, now)))
  {
    hide RefusalDraft;
  }

  lemma PreCheckDone(derive: Deriver, s: State, d: nat, i: Instruction, binding: Binding)
    requires d in s.deliveries && s.deliveries[d].pc == Permitted(i, binding)
    ensures Arrived(s, Do(derive, s, Advance(d, PreCheck)), d,
                    if binding.policy.DerivedKey? && HasKey(s.store.executions, i.Key(derive))
                    then Done(Complete, SuppressedBeforeCall) else Cleared(i, binding))
  {
    hide HasKey;
  }

  lemma CallDone(
    derive: Deriver, s: State, d: nat, i: Instruction, binding: Binding, startedAt: Time, reply: Reply)
    requires d in s.deliveries && s.deliveries[d].pc == Cleared(i, binding)
    ensures var t := Do(derive, s, Advance(d, Invoke(startedAt, reply)));
            && t.requests ==
               s.requests + [RequestOf(derive, d, s.deliveries[d].envelope.correlationId, i, binding, reply)]
            && Arrived(s, t.(requests := s.requests), d,
                       Recording(CallDraft(i, binding, startedAt, reply)))
  {
    hide RequestOf, CallDraft;
  }

  /** What one run of the leg reports. */
  datatype Report = Report(executed: bool, outcome: Option<ExecutionOutcome>, deadLetter: bool)

  /** A report says how the delivery ended; an escaping exception says it was abandoned. */
  predicate Tells(report: Option<Report>, ending: Pc)
  {
    ending.Done? &&
    match report
    case None => ending.disposition == Abandon && ending.ending.Faulted?
    case Some(r) =>
      && (ending.disposition == if r.deadLetter then DeadLetter else Complete)
      && (r.executed <==> ending.ending.Recorded?)
      && (r.executed <==> r.outcome.Some?)
      && (r.deadLetter <==> ending.ending.UnknownJob?)
  }

  class ExecutionLeg {
    const derive: Deriver
    const database: Database
    const transport: Egress.Transport
    var facts: Facts
    /** The calls made, as the leg knows them. */
    var requests: seq<Request>
    /** The protocol state the program is in; nothing is decided by it. */
    ghost var protocol: State

    constructor (
      derive: Deriver, database: Database, transport: Egress.Transport, facts: Facts, ghost protocol: State)
      requires protocol.store == database.Tables() && protocol.facts == facts && protocol.requests == []
      requires transport.sent == []
      ensures Mirrors() && Wired() && this.database == database && this.transport == transport
      ensures this.derive == derive && this.protocol == protocol
    {
      this.derive, this.database, this.transport, this.facts := derive, database, transport, facts;
      this.requests, this.protocol := [], protocol;
    }

    /** Each call the leg knows of is one request on the wire, and there is no other. */
    ghost predicate Wired()
      reads this, transport
    {
      Carried(requests, transport.sent)
    }

    /** The reply these surroundings speak of is what the far side answers next. */
    ghost predicate Foresees(w: Surroundings)
      reads this, transport
    {
      w.reply == Egress.ReplyTo(transport.answers(|transport.sent|), w.normalize)
    }

    ghost predicate Mirrors()
      reads this, database
    {
      && protocol.store == database.Tables()
      && protocol.facts == facts
      && protocol.requests == requests
    }

    /** The leg is so far along the script of its delivery. */
    ghost predicate Reached(start: State, d: nat, w: Surroundings, n: nat, envelope: Envelope, pc: Pc)
      requires n <= 9
      reads this, database
    {
      && Mirrors() && w.Spared(n)
      && protocol == Run(derive, start, Script(d, w)[..n])
      && d in protocol.deliveries && protocol.deliveries[d].pc == pc
      && protocol.deliveries[d].envelope == envelope
    }

    /** The delivery has ended, as the transition system says. */
    ghost predicate Ended(start: State, d: nat, w: Surroundings, envelope: Envelope, ending: Pc)
      reads this, database
    {
      && Mirrors()
      && protocol == Run(derive, start, Trace(d, w))
      && d in protocol.deliveries && protocol.deliveries[d].pc == ending
      && protocol.deliveries[d].envelope == envelope
    }

    ghost method Finish(start: State, d: nat, w: Surroundings, n: nat, envelope: Envelope, pc: Pc)
      requires n <= 9 && Reached(start, d, w, n, envelope, pc) && pc.Done?
      modifies this`protocol
      ensures Ended(start, d, w, envelope, pc)
    {
      Finished(derive, start, protocol, d, w, n);
      hide Run, Script, Trace;
      protocol := Run(derive, start, Trace(d, w));
    }

    ghost method Raise(
      start: State, d: nat, w: Surroundings, n: nat, stage: nat, envelope: Envelope, pc: Pc)
      requires n <= stage <= 8 && Reached(start, d, w, n, envelope, pc)
      requires w.Struck(stage)
      requires Active(pc) && AllDisabled(pc, d, Script(d, w)[n..stage])
      modifies this`protocol
      ensures Ended(start, d, w, envelope, AbandonedFrom(pc))
    {
      Interrupted(derive, start, protocol, d, w, n, stage);
      hide Run, Script, Trace;
      protocol := Run(derive, start, Trace(d, w));
    }

    /** The next step of the script, in history only. */
    ghost method Next(start: State, d: nat, w: Surroundings, n: nat)
      requires n < 9 && protocol == Run(derive, start, Script(d, w)[..n])
      modifies this`protocol
      ensures protocol == Do(derive, old(protocol), Script(d, w)[n])
      ensures protocol == Run(derive, start, Script(d, w)[..n + 1])
    {
      StepOn(derive, start, protocol, d, w, n);
      hide Run, Do, Script;
      protocol := Do(derive, protocol, Script(d, w)[n]);
    }

    /**
     `JobRepository.load`: nothing exactly when the job, its work item or its organisation is missing;
     otherwise each column from its own table, and the work item's window when it has one.
     */
    method Load(jobId: Uuid) returns (instruction: Option<Instruction>)
      ensures instruction.None? <==>
              || jobId !in database.jobs
              || database.jobs[jobId].workItem !in facts.work
              || database.jobs[jobId].tenant !in facts.tenantStatus
      ensures instruction.Some? ==>
        && var i, job := instruction.value, database.jobs[jobId];
        && var work := facts.work[job.workItem];
        && i.jobId == jobId && i.workItem == job.workItem && i.operation == job.operation
        && i.tenant == job.tenant && i.identity == job.identity && i.parameters == job.parameters
        && i.workState == work.state && i.approvalState == work.approvalState
        && i.tenantStatus == facts.tenantStatus[job.tenant]
        && (work.expiresAt.Some? ==> i.expiresAt == work.expiresAt.value)
        && (work.expiresAt.None? ==> i.expiresAt == job.expiresAt)
      ensures instruction == LoadInstruction(database.Tables(), facts, jobId)
    {
      if jobId !in database.jobs {
        return None;
      }
      var job := database.jobs[jobId];
      if job.workItem !in facts.work || job.tenant !in facts.tenantStatus {
        return None;
      }
      var work := facts.work[job.workItem];
      var expiresAt := job.expiresAt;
      if work.expiresAt.Some? {
        expiresAt := work.expiresAt.value;
      }
      return Some(Instruction(
        jobId, job.workItem, job.operation, job.tenant, job.identity, job.parameters, expiresAt,
        work.state, work.approvalState, facts.tenantStatus[job.tenant]));
    }

    /** `AccessPolicy.evaluate`: three reads, stopping at the first thing wrong. */
    method EvaluatePolicy(
      ghost start: State, ghost d: nat, w: Surroundings, ghost envelope: Envelope, i: Instruction)
      returns (decision: Option<AccessDecision>, ghost n: nat)
      requires Reached(start, d, w, 2, envelope, InWindow(i, w.now))
      modifies this`protocol
      ensures decision.None? ==> Ended(start, d, w, envelope, Done(Abandon, Faulted(false, false)))
      ensures decision.Some? ==>
        && decision.value == Evaluate(facts, i.tenant, i.identity)
        && 2 <= n <= 5
        && Reached(start, d, w, n, envelope,
                   match decision.value
                   case Allow(binding) => Permitted(i, binding)
                   case Refuse(refusal) => Recording(RefusalDraft(i, RefusalOutcome(refusal), w.now)))
        && (decision.value.Allow? ==> n == 5)
    {
      hide Run, Do, Trace, Script, RefusalOutcome, RefusalDraft, LoadInstruction, Fresh, Disabled;
      ScriptAt(d, w);
      n := 2;
      if w.Struck(2) {
        Raise(start, d, w, 2, 2, envelope, InWindow(i, w.now));
        return None, 2;
      }
      EntitlementRead(derive, protocol, d, i, w.now);
      Next(start, d, w, 2);
      if !((i.tenant, i.identity.catalogueId) in facts.entitled
           && facts.entitled[(i.tenant, i.identity.catalogueId)]) {
        return Some(Refuse(NotEntitled)), 3;
      }
      if w.Struck(3) {
        Raise(start, d, w, 3, 3, envelope, Entitled(i, w.now));
        return None, 3;
      }
      VersionRead(derive, protocol, d, i, w.now);
      Next(start, d, w, 3);
      if i.identity.catalogueId !in facts.registered {
        return Some(Refuse(NotRegistered)), 4;
      }
      if facts.registered[i.identity.catalogueId] != i.identity.version {
        return Some(Refuse(VersionMismatch)), 4;
      }
      if w.Struck(4) {
        Raise(start, d, w, 4, 4, envelope, AtVersion(i, w.now));
        return None, 4;
      }
      BindingRead(derive, protocol, d, i, w.now);
      Next(start, d, w, 4);
      if i.identity !in facts.bindings {
        return Some(Refuse(NoBinding)), 5;
      }
      return Some(Allow(facts.bindings[i.identity])), 5;
    }

    ghost method SkipTo(
      start: State, d: nat, w: Surroundings, n: nat, m: nat, envelope: Envelope, pc: Pc)
      requires n <= m <= 9 && Reached(start, d, w, n, envelope, pc) && w.Spared(m)
      requires AllDisabled(pc, d, Script(d, w)[n..m])
      modifies this`protocol
      ensures Reached(start, d, w, m, envelope, pc)
    {
      SkipOn(derive, start, protocol, d, w, n, m);
      hide Run, Script;
      protocol := Run(derive, start, Script(d, w)[..m]);
    }

    /** What is written is acknowledged. */
    ghost method Settle(
      start: State, d: nat, w: Surroundings, envelope: Envelope, e: Uuid, outcome: ExecutionOutcome)
      requires Reached(start, d, w, 8, envelope, Written(e, outcome)) && !w.Struck(8)
      modifies this`protocol
      ensures Ended(start, d, w, envelope, Done(Complete, Recorded(e)))
    {
      hide Run, Do, Script, Trace, Disabled;
      ScriptAt(d, w);
      Acknowledged(derive, protocol, d, e, outcome);
      Next(start, d, w, 8);
      Finish(start, d, w, 9, envelope, Done(Complete, Recorded(e)));
    }

    /** The transaction itself, and its two outcomes. */
    method CommitAttempt(
      ghost start: State, ghost d: nat, w: Surroundings, ghost envelope: Envelope, correlationId: string,
      draft: Draft)
      returns (written: bool)
      requires Reached(start, d, w, 7, envelope, Recording(draft)) && !w.Struck(7)
      requires envelope.correlationId == correlationId && Fresh(database.Tables(), w.ids)
      modifies this`protocol, database
      ensures Reached(start, d, w, 8, envelope,
                      if written then Written(w.ids.execution, draft.outcome) else Done(Complete, LostInsert))
    {
      hide Run, Do, Script, Fresh, Insertable, RecordAll, RecordOf, Disabled;
      ScriptAt(d, w);
      RecordDone(derive, protocol, d, draft, w.ids, w.completedAt);
      var record := RecordOf(derive, draft, correlationId, w.completedAt);
      Next(start, d, w, 7);
      written := database.RecordAttempt(w.ids, record, draft.instruction.workItem);
    }

    /** `_record`: one transaction, and what it came to. */
    method RecordOutcome(
      ghost start: State, ghost d: nat, w: Surroundings, ghost n: nat, ghost envelope: Envelope,
      correlationId: string, draft: Draft)
      returns (report: Option<Report>, ghost ending: Pc)
      requires n <= 7 && Reached(start, d, w, n, envelope, Recording(draft))
      requires envelope.correlationId == correlationId && Fresh(database.Tables(), w.ids)
      modifies this`protocol, database
      ensures Ended(start, d, w, envelope, ending) && Tells(report, ending)
    {
      hide Run, Do, Trace, Script, Fresh, Insertable, RecordAll, RecordOf, Disabled, Ended, Mirrors;
      NothingButRecording(d, w, n, draft);
      if w.Struck(7) {
        Raise(start, d, w, n, 7, envelope, Recording(draft));
        return None, AbandonedFrom(Recording(draft));
      }
      SkipTo(start, d, w, n, 7, envelope, Recording(draft));
      var written := CommitAttempt(start, d, w, envelope, correlationId, draft);
      if !written {
        ending := Done(Complete, LostInsert);
        Finish(start, d, w, 8, envelope, ending);
        return Some(Report(false, None, false)), ending;
      }
      if w.Struck(8) {
        Raise(start, d, w, 8, 8, envelope, Written(w.ids.execution, draft.outcome));
        return None, AbandonedFrom(Written(w.ids.execution, draft.outcome));
      }
      ending := Done(Complete, Recorded(w.ids.execution));
      Settle(start, d, w, envelope, w.ids.execution, draft.outcome);
      return Some(Report(true, Some(draft.outcome), false)), ending;
    }

    /** The key, for a binding that asks for one, and whether it already has a record. */
    method CheckForDuplicate(
      ghost start: State, ghost d: nat, w: Surroundings, ghost envelope: Envelope, i: Instruction,
      binding: Binding)
      returns (key: Option<Key>, duplicate: bool)
      requires Reached(start, d, w, 5, envelope, Permitted(i, binding)) && !w.Struck(5)
      modifies this`protocol
      ensures key == CallKey(derive, i, binding)
      ensures Reached(start, d, w, 6, envelope,
                      if duplicate then Done(Complete, SuppressedBeforeCall) else Cleared(i, binding))
    {
      hide Run, Do, Script, HasKey, Disabled;
      ScriptAt(d, w);
      PreCheckDone(derive, protocol, d, i, binding);
      Next(start, d, w, 5);
      key := None;
      duplicate := false;
      if binding.policy.DerivedKey? {
        key := Some(derive(i.tenant, i.workItem, i.operation));
        duplicate := HasKey(database.executions, key.value);
      }
    }

    /** The permitted half of `run`: look for a duplicate, call once, record. */
    method Attempt(
      ghost start: State, d: nat, w: Surroundings, ghost envelope: Envelope, correlationId: string,
      i: Instruction, binding: Binding)
      returns (report: Option<Report>, ghost ending: Pc)
      requires Reached(start, d, w, 5, envelope, Permitted(i, binding))
      requires envelope.correlationId == correlationId && Fresh(database.Tables(), w.ids)
      requires Wired() && Foresees(w)
      modifies this`protocol, this`requests, database, transport
      ensures Ended(start, d, w, envelope, ending) && Tells(report, ending) && Wired()
    {
      hide Run, Do, Trace, Script, Fresh, RequestOf, CallDraft, HasKey, Disabled, Carried, Egress.ReplyTo;
      ScriptAt(d, w);
      if w.Struck(5) {
        Raise(start, d, w, 5, 5, envelope, Permitted(i, binding));
        return None, Done(Abandon, Faulted(false, false));
      }
      var key, duplicate := CheckForDuplicate(start, d, w, envelope, i, binding);
      if duplicate {
        ending := Done(Complete, SuppressedBeforeCall);
        Finish(start, d, w, 6, envelope, ending);
        return Some(Report(false, None, false)), ending;
      }
      if w.Struck(6) {
        Raise(start, d, w, 6, 6, envelope, Cleared(i, binding));
        return None, Done(Abandon, Faulted(false, false));
      }
      CallOut(start, d, w, envelope, correlationId, i, binding, key);
      report, ending := RecordOutcome(start, d, w, 7, envelope, correlationId,
                                      CallDraft(i, binding, w.startedAt, w.reply));
    }

    /** The call: one request on the wire, and the reply it is answered with. */
    method CallOut(
      ghost start: State, d: nat, w: Surroundings, ghost envelope: Envelope, correlationId: string,
      i: Instruction, binding: Binding, key: Option<Key>)
      requires Reached(start, d, w, 6, envelope, Cleared(i, binding)) && !w.Struck(6)
      requires envelope.correlationId == correlationId && key == CallKey(derive, i, binding)
      requires Wired() && Foresees(w)
      modifies this`protocol, this`requests, transport
      ensures Wired() && Reached(start, d, w, 7, envelope, Recording(CallDraft(i, binding, w.startedAt, w.reply)))
      ensures |requests| == |old(requests)| + 1 && |transport.sent| == |old(transport.sent)| + 1
    {
      hide Run, Do, Trace, Script, CallDraft, Egress.ReplyTo;
      ScriptAt(d, w);
      CallDone(derive, protocol, d, i, binding, w.startedAt, w.reply);
      Next(start, d, w, 6);
      var invocation :=
        Egress.Invoke(transport, binding, Some(w.credential), i.parameters, key, correlationId, w.normalize);
      var request := Request(d, i.tenant, binding.destination, i.parameters, key, correlationId, i.Key(derive),
                             invocation.reply);
      requests := requests + [request];
      CarriedNext(old(requests), old(transport.sent), request, transport.sent);
    }

    /** `ExecutionLeg.run`; `None` when an exception escapes it. */
    method Execute(
      ghost start: State, d: nat, w: Surroundings, ghost envelope: Envelope, jobId: Uuid,
      correlationId: string)
      returns (report: Option<Report>, ghost ending: Pc)
      requires Mirrors() && protocol == start
      requires d in start.deliveries && start.deliveries[d].pc.Accepted?
      requires start.deliveries[d].envelope == envelope
      requires envelope.jobId == jobId && envelope.correlationId == correlationId
      requires Fresh(database.Tables(), w.ids) && Wired() && Foresees(w)
      modifies this`protocol, this`requests, database, transport
      ensures Ended(start, d, w, envelope, ending) && Tells(report, ending) && Wired()
    {
      hide Run, Do, Trace, Script, Fresh, LoadInstruction, ValidIdentity, Disabled, Carried, Egress.ReplyTo;
      ScriptAt(d, w);
      NothingRun(derive, start, d, w);
      if w.Struck(0) {
        Raise(start, d, w, 0, 0, envelope, Accepted);
        return None, Done(Abandon, Faulted(false, false));
      }
      LoadDone(derive, protocol, d);
      Next(start, d, w, 0);
      var loaded := Load(jobId);
      if loaded.None? {
        ending := Done(DeadLetter, UnknownJob);
        Finish(start, d, w, 1, envelope, ending);
        return Some(Report(false, None, true)), ending;
      }
      var i := loaded.value;
      if !ValidIdentity(i.identity) {
        ending := Done(Abandon, Faulted(false, false));
        Finish(start, d, w, 1, envelope, ending);
        return None, ending;
      }
      report, ending := Proceed(start, d, w, envelope, correlationId, i);
    }

    /** The rest of `run`, once the instruction is loaded: the window, the policy, and what they lead to. */
    method Proceed(
      ghost start: State, d: nat, w: Surroundings, ghost envelope: Envelope, correlationId: string,
      i: Instruction)
      returns (report: Option<Report>, ghost ending: Pc)
      requires Reached(start, d, w, 1, envelope, Loaded(i))
      requires envelope.correlationId == correlationId && Fresh(database.Tables(), w.ids)
      requires Wired() && Foresees(w)
      modifies this`protocol, this`requests, database, transport
      ensures Ended(start, d, w, envelope, ending) && Tells(report, ending) && Wired()
    {
      hide Run, Do, Trace, Script, Fresh, RefusalDraft, RefusalOutcome, Disabled, Carried, Egress.ReplyTo;
      ScriptAt(d, w);
      if w.Struck(1) {
        Raise(start, d, w, 1, 1, envelope, Loaded(i));
        return None, Done(Abandon, Faulted(false, false));
      }
      WindowDone(derive, protocol, d, i, w.now);
      Next(start, d, w, 1);
      if !i.IsExecutableAt(w.now) {
        report, ending := RecordOutcome(start, d, w, 2, envelope, correlationId,
                                        RefusalDraft(i, RefusedWindow, w.now));
        return;
      }
      var decision, n := EvaluatePolicy(start, d, w, envelope, i);
      if decision.None? {
        return None, Done(Abandon, Faulted(false, false));
      }
      match decision.value {
        case Refuse(refusal) =>
          report, ending := RecordOutcome(start, d, w, n, envelope, correlationId,
                                          RefusalDraft(i, RefusalOutcome(refusal), w.now));
        case Allow(binding) =>
          report, ending := Attempt(start, d, w, envelope, correlationId, i, binding);
      }
    }

    /**
     `CommandConsumer.handle`: the verdict on one message. Left alone, a delivery is a run of the
     transition system in which only its own actions occur, the verdict is the one it ends with, and every
     call it logs is one request on the wire.
     */
    method Handle(d: nat, body: Body, w: Surroundings) returns (verdict: Verdict)
      requires Mirrors() && d !in protocol.deliveries && Fresh(database.Tables(), w.ids)
      requires Wired() && Foresees(w)
      modifies this`protocol, this`requests, database, transport
      ensures Mirrors() && Wired()
      ensures protocol == Run(derive, old(protocol), [Receive(d, body)] + Trace(d, w))
      ensures d in protocol.deliveries && protocol.deliveries[d].pc.Done?
      ensures verdict == VerdictOf(FromBody(body), protocol.deliveries[d].pc.disposition)
    {
      hide Run, Do, Trace, Script, Fresh, FromBody;
      ghost var before := protocol;
      Received(derive, before, d, body, w);
      protocol := Do(derive, before, Receive(d, body));
      ghost var start := protocol;
      var parsed := FromBody(body);
      if parsed.None? || !parsed.value.kind.Execute? {
        RejectedIsOver(derive, start, d, w);
        protocol := Run(derive, start, Trace(d, w));
        return Verdict(DeadLetter, if parsed.None? then "envelope-contract" else "unexpected-kind");
      }
      var envelope := parsed.value;
      var report, ending := Execute(start, d, w, envelope, envelope.jobId, envelope.correlationId);
      if report.None? {
        return Verdict(Abandon, "transient");
      }
      if report.value.deadLetter {
        return Verdict(DeadLetter, "unknown-job");
      }
      return Verdict(Complete, "");
    }
  }

  /** The consumer's verdict, with the short reason an operator sees. */
  datatype Verdict = Verdict(disposition: Disposition, reason: string)

  function VerdictOf(parsed: Option<Envelope>, disposition: Disposition): Verdict
  {
    Verdict(disposition,
            if parsed.None? then "envelope-contract"
            else if !parsed.value.kind.Execute? then "unexpected-kind"
            else match disposition
                 case Complete => ""
                 case DeadLetter => "unknown-job"
                 case Abandon => "transient")
  }

  lemma Received(derive: Deriver, s: State, d: nat, body: Body, w: Surroundings)
    requires d !in s.deliveries
    ensures var t := Do(derive, s, Receive(d, body));
            && t.store == s.store && t.facts == s.facts && t.requests == s.requests
            && d in t.deliveries
            && (if FromBody(body).Some? && FromBody(body).value.kind.Execute?
                then t.deliveries[d].pc.Accepted? && t.deliveries[d].envelope == FromBody(body).value
                else t.deliveries[d].pc == Done(DeadLetter, RejectedEnvelope))
            && Run(derive, s, [Receive(d, body)] + Trace(d, w)) == Run(derive, t, Trace(d, w))
  {
    hide FromBody, Trace;
    assert Run(derive, s, []) == s;
    assert [Receive(d, body)][..0] == [];
    assert Run(derive, s, [Receive(d, body)]) == Do(derive, s, Receive(d, body));
    hide Run;
    RunConcat(derive, s, [Receive(d, body)], Trace(d, w));
  }

  lemma RejectedIsOver(derive: Deriver, start: State, d: nat, w: Surroundings)
    requires d in start.deliveries && start.deliveries[d].pc.Done?
    ensures Run(derive, start, Trace(d, w)) == start.(clock := start.clock + |Trace(d, w)|)
  {
    assert AllDisabled(start.deliveries[d].pc, d, Trace(d, w));
    hide Run, Trace;
    Idle(derive, start, d, Trace(d, w));
  }

  // ----- the log of calls, and the wire

  /** The request on the wire is this call: its destination, parameters, journey and key. */
  predicate Carries(r: Request, sent: Egress.OutboundRequest)
  {
    && sent.verb == "POST" && sent.url == r.destination && sent.body == r.parameters
    && Egress.CORRELATION_HEADER in sent.headers
    && sent.headers[Egress.CORRELATION_HEADER] == r.correlationHeader
    && (Egress.IDEMPOTENCY_HEADER in sent.headers <==> r.idempotencyHeader.Some?)
    && (r.idempotencyHeader.Some? ==> sent.headers[Egress.IDEMPOTENCY_HEADER] == r.idempotencyHeader.value)
  }

  /** Call for call. */
  predicate Carried(requests: seq<Request>, sent: seq<Egress.OutboundRequest>)
  {
    |sent| == |requests| && forall i :: 0 <= i < |requests| ==> Carries(requests[i], sent[i])
  }

  lemma CarriedNext(
    requests: seq<Request>, sent: seq<Egress.OutboundRequest>, r: Request, after: seq<Egress.OutboundRequest>)
    requires Carried(requests, sent) && |after| == |sent| + 1 && after[..|sent|] == sent
    requires Carries(r, after[|sent|])
    ensures Carried(requests + [r], after)
  {
    hide Carries;
    forall i | 0 <= i < |requests|
      ensures after[i] == sent[i]
    {
      assert after[..|sent|][i] == after[i];
    }
  }

  /** The request on the wire bears this key. */
  predicate HasHeader(sent: Egress.OutboundRequest, key: Key)
  {
    Egress.IDEMPOTENCY_HEADER in sent.headers && sent.headers[Egress.IDEMPOTENCY_HEADER] == key
  }

  predicate TwiceOnTheWire(sent: seq<Egress.OutboundRequest>, key: Key)
  {
    exists i, j :: 0 <= i < j < |sent| && HasHeader(sent[i], key) && HasHeader(sent[j], key)
  }

  /** What is said of calls is said of the wire: a key is on it twice exactly when it was sent twice. */
  lemma WireRepeatsIff(requests: seq<Request>, sent: seq<Egress.OutboundRequest>, key: Key)
    requires Carried(requests, sent)
    ensures TwiceOnTheWire(sent, key) <==> SentTwice(requests, key)
  {
    forall i | 0 <= i < |sent|
      ensures HasHeader(sent[i], key) <==> Bears(requests[i], key)
    {
      assert Carries(requests[i], sent[i]);
    }
    hide HasHeader, Bears, Carries;
  }

  /** In a run that is orderly for a key, the key goes over the wire at most once. */
  lemma OrderlyRunsSendOnce(
    derive: Deriver, start: State, actions: seq<Action>, sent: seq<Egress.OutboundRequest>, key: Key)
    requires Init(start) && OrderlyRun(derive, start, actions, key)
    requires Carried(Run(derive, start, actions).requests, sent)
    ensures !TwiceOnTheWire(sent, key)
  {
    OrderlyRunsCallOnce(derive, start, actions, key);
    hide *;
    WireRepeatsIff(Run(derive, start, actions).requests, sent, key);
  }

  lemma NothingRun(derive: Deriver, start: State, d: nat, w: Surroundings)
    ensures start == Run(derive, start, Script(d, w)[..0])
    ensures forall pc :: AllDisabled(pc, d, Script(d, w)[0..0])
  {
  }

  lemma NothingButRecording(d: nat, w: Surroundings, n: nat, draft: Draft)
    requires n <= 7
    ensures AllDisabled(Recording(draft), d, Script(d, w)[n..7])
  {
  }

  lemma ScriptAt(d: nat, w: Surroundings)
    ensures var script := Script(d, w);
            && |script| == 9
            && script[0] == Advance(d, Load) && script[1] == Advance(d, CheckWindow(w.now))
            && script[2] == Advance(d, ReadEntitlement) && script[3] == Advance(d, ReadVersion)
            && script[4] == Advance(d, ReadBinding) && script[5] == Advance(d, PreCheck)
            && script[6] == Advance(d, Invoke(w.startedAt, w.reply))
            && script[7] == Advance(d, Record(w.ids, w.completedAt))
            && script[8] == Advance(d, Acknowledge)
  {
  }
}
