/**
 A redelivery for an operation already recorded, left alone: it completes as a duplicate and changes no
 table. So nothing is lost, and nothing doubled, when a delivery is abandoned after its commit.
 */
module Redelivery {
  import opened Text
  import opened Uuids
  import opened Idempotency
  import opened Domain
  import opened AccessPolicy
  import opened ExecutionStore
  import opened ExecutionProtocol
  import opened ExecutionInvariant
  import opened ExecutionSafety
  import opened InvocationAccounting
  import opened ExecutionLegProgram
  import opened AbandonedDeliveries

  /** The redelivery has completed as a duplicate, with the tables as they were. */
  predicate CompletedAsDuplicate(s: State, t: State, d: nat)
  {
    && t.store == s.store && d in t.deliveries
    && (t.deliveries[d].pc == Done(Complete, SuppressedBeforeCall) || t.deliveries[d].pc == Done(Complete, LostInsert))
  }

  /** Only a permitted call under a binding without a key is made again. */
  predicate CallsAgain(facts: Facts, i: Instruction, now: Time)
  {
    && i.IsExecutableAt(now)
    && var decision := Evaluate(facts, i.tenant, i.identity);
    decision.Allow? && decision.binding.policy.NoKey?
  }

  /** What every delivery of a job whose key is taken works with. */
  ghost predicate Taken(derive: Deriver, u: State, d: nat, i: Instruction)
  {
    d in u.deliveries && ValidIdentity(i.identity) && HasKey(u.store.executions, i.Key(derive))
  }

  /** An attempt under a taken key loses its insert and ends. */
  lemma LosesTheInsert(
    derive: Deriver, start: State, u: State, d: nat, w: Surroundings, n: nat, draft: Draft)
    requires n <= 7 && u == Run(derive, start, Script(d, w)[..n])
    requires Taken(derive, u, d, draft.instruction) && u.deliveries[d].pc == Recording(draft)
    requires Fresh(u.store, w.ids)
    ensures var t := Run(derive, start, Script(d, w));
            CompletedAsDuplicate(u, t, d) && t.requests == u.requests
  {
    hide Run, Do, Script, Fresh, HasKey;
    ScriptAt(d, w);
    NothingButRecording(d, w, n, draft);
    SkipOn(derive, start, u, d, w, n, 7);
    var v := Run(derive, start, Script(d, w)[..7]);
    RecordDone(derive, v, d, draft, w.ids, w.completedAt);
    StepOn(derive, start, v, d, w, 7);
    var x := Do(derive, v, Script(d, w)[7]);
    DuplicateIsNotInsertable(derive, v.store, draft, v.deliveries[d].envelope.correlationId, w.ids, w.completedAt);
    EndsThere(derive, start, x, d, w, 8);
  }

  lemma DuplicateIsNotInsertable(
    derive: Deriver, store: Store, draft: Draft, correlationId: string, ids: Ids, completedAt: Time)
    requires HasKey(store.executions, draft.instruction.Key(derive))
    ensures var record := RecordOf(derive, draft, correlationId, completedAt);
            && !Insertable(store.executions, ids.execution, record)
            && RecordAll(store, ids, record, draft.instruction.workItem) == store
  {
  }

  /** Once done, the rest of the script changes nothing. */
  lemma EndsThere(derive: Deriver, start: State, u: State, d: nat, w: Surroundings, n: nat)
    requires n <= 9 && u == Run(derive, start, Script(d, w)[..n])
    requires d in u.deliveries && u.deliveries[d].pc.Done?
    ensures Run(derive, start, Script(d, w)) == u.(clock := u.clock + (9 - n))
  {
    DoneDisables(u.deliveries[d].pc, d, w, n);
    hide Run, Script;
    SkipOn(derive, start, u, d, w, n, 9);
    assert Script(d, w)[..9] == Script(d, w);
  }

  lemma DoneDisables(pc: Pc, d: nat, w: Surroundings, n: nat)
    requires n <= 9 && pc.Done?
    ensures AllDisabled(pc, d, Script(d, w)[n..9])
  {
  }

  /** From the pre-check on: suppressed before the call under a key, otherwise beaten to the insert. */
  lemma FromPermitted(
    derive: Deriver, start: State, u: State, d: nat, w: Surroundings, i: Instruction, binding: Binding)
    requires u == Run(derive, start, Script(d, w)[..5]) && Taken(derive, u, d, i)
    requires u.deliveries[d].pc == Permitted(i, binding) && Fresh(u.store, w.ids)
    ensures var t := Run(derive, start, Script(d, w));
            CompletedAsDuplicate(u, t, d) && (t.requests != u.requests <==> binding.policy.NoKey?)
  {
    hide Run, Do, Script, Fresh, HasKey, RequestOf, CallDraft;
    ScriptAt(d, w);
    PreCheckDone(derive, u, d, i, binding);
    StepOn(derive, start, u, d, w, 5);
    var v := Do(derive, u, Script(d, w)[5]);
    if binding.policy.DerivedKey? {
      EndsThere(derive, start, v, d, w, 6);
    } else {
      CallDone(derive, v, d, i, binding, w.startedAt, w.reply);
      StepOn(derive, start, v, d, w, 6);
      var x := Do(derive, v, Script(d, w)[6]);
      DraftOf(i, binding, w);
      LosesTheInsert(derive, start, x, d, w, 7, CallDraft(i, binding, w.startedAt, w.reply));
    }
  }

  lemma DraftOf(i: Instruction, binding: Binding, w: Surroundings)
    ensures var draft := CallDraft(i, binding, w.startedAt, w.reply);
            draft.instruction == i && draft.verification.ClientAttested?
  {
  }

  /** From the policy on. */
  lemma FromWindow(derive: Deriver, start: State, u: State, d: nat, w: Surroundings, i: Instruction)
    requires u == Run(derive, start, Script(d, w)[..2]) && Taken(derive, u, d, i)
    requires u.deliveries[d].pc == InWindow(i, w.now) && Fresh(u.store, w.ids)
    ensures var t, decision := Run(derive, start, Script(d, w)), Evaluate(u.facts, i.tenant, i.identity);
            && CompletedAsDuplicate(u, t, d)
            && (t.requests != u.requests <==> decision.Allow? && decision.binding.policy.NoKey?)
  {
    hide Run, Do, Script, Fresh, HasKey, RefusalOutcome, ValidIdentity;
    ScriptAt(d, w);
    EntitlementRead(derive, u, d, i, w.now);
    StepOn(derive, start, u, d, w, 2);
    var v := Do(derive, u, Script(d, w)[2]);
    if !v.deliveries[d].pc.Entitled? {
      LosesTheInsert(derive, start, v, d, w, 3, RefusalDraft(i, RefusalOutcome(NotEntitled), w.now));
    } else {
      VersionRead(derive, v, d, i, w.now);
      StepOn(derive, start, v, d, w, 3);
      var x := Do(derive, v, Script(d, w)[3]);
      if !x.deliveries[d].pc.AtVersion? {
        LosesTheInsert(derive, start, x, d, w, 4, x.deliveries[d].pc.draft);
      } else {
        BindingRead(derive, x, d, i, w.now);
        StepOn(derive, start, x, d, w, 4);
        var y := Do(derive, x, Script(d, w)[4]);
        if !y.deliveries[d].pc.Permitted? {
          LosesTheInsert(derive, start, y, d, w, 5, RefusalDraft(i, RefusalOutcome(NoBinding), w.now));
        } else {
          FromPermitted(derive, start, y, d, w, i, u.facts.bindings[i.identity]);
        }
      }
    }
  }

  /** From the window on. */
  lemma FromLoaded(derive: Deriver, start: State, u: State, d: nat, w: Surroundings, i: Instruction)
    requires u == Run(derive, start, Script(d, w)[..1]) && Taken(derive, u, d, i)
    requires u.deliveries[d].pc == Loaded(i) && Fresh(u.store, w.ids)
    ensures var t := Run(derive, start, Script(d, w));
            CompletedAsDuplicate(u, t, d) && (t.requests != u.requests <==> CallsAgain(u.facts, i, w.now))
  {
    hide Run, Do, Script, Fresh, HasKey, ValidIdentity, Evaluate;
    ScriptAt(d, w);
    WindowDone(derive, u, d, i, w.now);
    StepOn(derive, start, u, d, w, 1);
    var v := Do(derive, u, Script(d, w)[1]);
    if i.IsExecutableAt(w.now) {
      FromWindow(derive, start, v, d, w, i);
    } else {
      LosesTheInsert(derive, start, v, d, w, 2, RefusalDraft(i, RefusedWindow, w.now));
    }
  }

  /** A job whose key is taken is loaded with that key. */
  lemma TakenLoads(derive: Deriver, s: State, jobId: Uuid)
    requires KeyTaken(derive, s.store, jobId) && LoadInstruction(s.store, s.facts, jobId).Some?
    ensures HasKey(s.store.executions, LoadInstruction(s.store, s.facts, jobId).value.Key(derive))
    ensures LoadInstruction(s.store, s.facts, jobId).value.identity == s.store.jobs[jobId].identity
  {
  }

  /**
   A message for an operation already recorded, delivered and left alone, changes no table. If its job can
   be read it completes as a duplicate, and the connector is called again exactly when the job is permitted
   under a binding that carries no key. A job that cannot be read any more is dead-lettered, and one whose
   identity cannot be constructed abandoned, both without a call.
   */
  lemma RedeliveryIsADuplicate(derive: Deriver, s: State, d: nat, body: Body, jobId: Uuid, w: Surroundings)
    requires KeyTaken(derive, s.store, jobId) && d !in s.deliveries && w.fault.None? && Fresh(s.store, w.ids)
    requires FromBody(body).Some? && FromBody(body).value.kind.Execute? && FromBody(body).value.jobId == jobId
    ensures var t, loaded := Run(derive, s, [Receive(d, body)] + Trace(d, w)),
                             LoadInstruction(s.store, s.facts, jobId);
            && t.store == s.store && d in t.deliveries
            && (loaded.None? ==> t.deliveries[d].pc == Done(DeadLetter, UnknownJob))
            && (loaded.Some? && !ValidIdentity(loaded.value.identity) ==>
                  t.deliveries[d].pc == Done(Abandon, Faulted(false, false)))
            && (loaded.Some? && ValidIdentity(loaded.value.identity) ==> CompletedAsDuplicate(s, t, d))
            && (t.requests != s.requests <==>
                  && loaded.Some? && ValidIdentity(loaded.value.identity)
                  && CallsAgain(s.facts, loaded.value, w.now))
  {
    var loaded := LoadInstruction(s.store, s.facts, jobId);
    if loaded.Some? {
      TakenLoads(derive, s, jobId);
    }
    hide Run, Do, Script, Fresh, HasKey, KeyTaken, LoadInstruction, ValidIdentity, FromBody, CallsAgain;
    Received(derive, s, d, body, w);
    var start := Do(derive, s, Receive(d, body));
    assert Trace(d, w) == Script(d, w);
    ScriptAt(d, w);
    NothingRun(derive, start, d, w);
    LoadDone(derive, start, d);
    StepOn(derive, start, start, d, w, 0);
    var u := Do(derive, start, Script(d, w)[0]);
    if u.deliveries[d].pc.Done? {
      EndsThere(derive, start, u, d, w, 1);
    } else {
      FromLoaded(derive, start, u, d, w, loaded.value);
    }
  }

  /**
   A delivery abandoned after its commit loses nothing: its redelivery, left alone, completes as a
   duplicate with every table as it was, unless the job can no longer be read.
   */
  lemma AbandonedWriteIsRedelivered(
    derive: Deriver, s: State, abandoned: nat, called: bool, d: nat, body: Body, jobId: Uuid, w: Surroundings)
    requires Reachable(derive, s) && Abandoned(s, abandoned, called, true)
    requires jobId == s.deliveries[abandoned].envelope.jobId
    requires d !in s.deliveries && w.fault.None? && Fresh(s.store, w.ids)
    requires FromBody(body).Some? && FromBody(body).value.kind.Execute? && FromBody(body).value.jobId == jobId
    ensures var t := Run(derive, s, [Receive(d, body)] + Trace(d, w));
            && t.store == s.store && d in t.deliveries
            && if LoadInstruction(s.store, s.facts, jobId).None?
               then t.deliveries[d].pc == Done(DeadLetter, UnknownJob)
               else CompletedAsDuplicate(s, t, d)
  {
    SettlementIsSound(derive, s, abandoned);
    var e := WrittenRecord(derive, s, abandoned, called);
    RecordFacts(derive, s, e);
    hide Reachable, Told, Run, Trace, FromBody, ValidIdentity, Fresh;
    if LoadInstruction(s.store, s.facts, jobId).Some? {
      TakenLoads(derive, s, jobId);
    }
    hide LoadInstruction;
    RedeliveryIsADuplicate(derive, s, d, body, jobId, w);
  }

  // ----- when the redelivery of an operation not yet recorded calls a second time

  /** A call is permitted, under a binding that carries a key. */
  predicate CallsUnderKey(facts: Facts, i: Instruction, now: Time)
  {
    && ValidIdentity(i.identity) && i.IsExecutableAt(now)
    && var decision := Evaluate(facts, i.tenant, i.identity);
    decision.Allow? && decision.binding.policy.DerivedKey?
  }

  lemma RecordsItsKey(
    derive: Deriver, store: Store, draft: Draft, correlationId: string, ids: Ids, completedAt: Time)
    requires Fresh(store, ids) && ValidIdentity(draft.instruction.identity) && draft.verification.ClientAttested?
    ensures var record := RecordOf(derive, draft, correlationId, completedAt);
            var after := RecordAll(store, ids, record, draft.instruction.workItem);
            HasKey(after.executions, draft.instruction.Key(derive))
  {
    var record := RecordOf(derive, draft, correlationId, completedAt);
    if Insertable(store.executions, ids.execution, record) {
      assert store.executions[ids.execution := record][ids.execution].key == record.key;
    }
  }

  /** What is left after the call: the attempt is recorded, and nothing more is sent. */
  lemma AttemptIsRecorded(derive: Deriver, start: State, u: State, d: nat, w: Surroundings, draft: Draft)
    requires u == Run(derive, start, Script(d, w)[..7]) && d in u.deliveries
    requires u.deliveries[d].pc == Recording(draft) && Fresh(u.store, w.ids)
    requires ValidIdentity(draft.instruction.identity) && draft.verification.ClientAttested?
    ensures var t := Run(derive, start, Script(d, w));
            t.requests == u.requests && HasKey(t.store.executions, draft.instruction.Key(derive))
  {
    RecordsItsKey(derive, u.store, draft, u.deliveries[d].envelope.correlationId, w.ids, w.completedAt);
    hide Run, Do, Script, Fresh, HasKey, Insertable, RecordAll, RecordOf, ValidIdentity;
    ScriptAt(d, w);
    RecordDone(derive, u, d, draft, w.ids, w.completedAt);
    StepOn(derive, start, u, d, w, 7);
    var v := Do(derive, u, Script(d, w)[7]);
    EndsSoon(derive, start, v, d, w);
  }

  /** With the transaction over, only the acknowledgement can be left. */
  lemma EndsSoon(derive: Deriver, start: State, u: State, d: nat, w: Surroundings)
    requires u == Run(derive, start, Script(d, w)[..8])
    requires d in u.deliveries && (u.deliveries[d].pc.Written? || u.deliveries[d].pc.Done?)
    ensures var t := Run(derive, start, Script(d, w)); t.requests == u.requests && t.store == u.store
  {
    hide Run, Do, Script;
    if u.deliveries[d].pc.Written? {
      ScriptAt(d, w);
      Acknowledged(derive, u, d, u.deliveries[d].pc.execution, u.deliveries[d].pc.outcome);
      StepOn(derive, start, u, d, w, 8);
      assert Script(d, w)[..9] == Script(d, w);
    } else {
      EndsThere(derive, start, u, d, w, 8);
    }
  }

  /** From the pre-check on, with nothing recorded yet: one call more, under the key. */
  lemma CallsFromPermitted(
    derive: Deriver, start: State, u: State, d: nat, w: Surroundings, i: Instruction, binding: Binding)
    requires u == Run(derive, start, Script(d, w)[..5]) && d in u.deliveries && Fresh(u.store, w.ids)
    requires u.deliveries[d].pc == Permitted(i, binding) && binding.policy.DerivedKey?
    requires ValidIdentity(i.identity) && !HasKey(u.store.executions, i.Key(derive))
    ensures CallsOnce(u, Run(derive, start, Script(d, w)), i.Key(derive))
  {
    hide Run, Do, Script, Fresh, HasKey, CallDraft, RequestOf, SentTwice, SentWith, ValidIdentity;
    ScriptAt(d, w);
    PreCheckDone(derive, u, d, i, binding);
    StepOn(derive, start, u, d, w, 5);
    var v := Do(derive, u, Script(d, w)[5]);
    CallDone(derive, v, d, i, binding, w.startedAt, w.reply);
    StepOn(derive, start, v, d, w, 6);
    var x := Do(derive, v, Script(d, w)[6]);
    DraftOf(i, binding, w);
    var r := RequestOf(derive, d, v.deliveries[d].envelope.correlationId, i, binding, w.reply);
    KeyedRequest(derive, d, v.deliveries[d].envelope.correlationId, i, binding, w.reply);
    OneMoreCall(u.requests, r, i.Key(derive));
    AttemptIsRecorded(derive, start, x, d, w, CallDraft(i, binding, w.startedAt, w.reply));
  }

  /** One call more under the key, and the key is taken. */
  ghost predicate CallsOnce(s: State, t: State, key: Key)
  {
    && (SentTwice(t.requests, key) <==> SentTwice(s.requests, key) || SentWith(s.requests, key))
    && SentWith(t.requests, key) && HasKey(t.store.executions, key)
  }

  lemma KeyedRequest(
    derive: Deriver, d: nat, correlationId: string, i: Instruction, binding: Binding, reply: Reply)
    requires binding.policy.DerivedKey?
    ensures Bears(RequestOf(derive, d, correlationId, i, binding, reply), i.Key(derive))
  {
  }

  lemma CallsFromLoaded(derive: Deriver, start: State, u: State, d: nat, w: Surroundings, i: Instruction)
    requires u == Run(derive, start, Script(d, w)[..1]) && d in u.deliveries && Fresh(u.store, w.ids)
    requires u.deliveries[d].pc == Loaded(i) && CallsUnderKey(u.facts, i, w.now)
    requires !HasKey(u.store.executions, i.Key(derive))
    ensures CallsOnce(u, Run(derive, start, Script(d, w)), i.Key(derive))
  {
    hide Run, Do, Script, Fresh, HasKey, CallsOnce, ValidIdentity, RefusalOutcome;
    ScriptAt(d, w);
    WindowDone(derive, u, d, i, w.now);
    StepOn(derive, start, u, d, w, 1);
    var v := Do(derive, u, Script(d, w)[1]);
    EntitlementRead(derive, v, d, i, w.now);
    StepOn(derive, start, v, d, w, 2);
    var x := Do(derive, v, Script(d, w)[2]);
    VersionRead(derive, x, d, i, w.now);
    StepOn(derive, start, x, d, w, 3);
    var y := Do(derive, x, Script(d, w)[3]);
    BindingRead(derive, y, d, i, w.now);
    StepOn(derive, start, y, d, w, 4);
    var z := Do(derive, y, Script(d, w)[4]);
    CallsFromPermitted(derive, start, z, d, w, i, u.facts.bindings[i.identity]);
    CallsOnceFrom(u, z, Run(derive, start, Script(d, w)), i.Key(derive));
  }

  lemma CallsOnceFrom(s: State, u: State, t: State, key: Key)
    requires s.requests == u.requests && CallsOnce(u, t, key)
    ensures CallsOnce(s, t, key)
  {
  }

  /**
   Of an operation sent at most once so far, a message delivered and left alone, whose job is permitted under
   a binding that carries a key, sends the key a second time exactly when the key has been sent and has no
   record yet; whoever sent it is then still in flight, or was lost after its call. Afterwards the operation
   has its record.
   */
  lemma RedeliveryDoublesIff(derive: Deriver, s: State, d: nat, body: Body, jobId: Uuid, w: Surroundings)
    requires Reachable(derive, s) && d !in s.deliveries && w.fault.None? && Fresh(s.store, w.ids)
    requires FromBody(body).Some? && FromBody(body).value.kind.Execute? && FromBody(body).value.jobId == jobId
    requires LoadInstruction(s.store, s.facts, jobId).Some?
    requires CallsUnderKey(s.facts, LoadInstruction(s.store, s.facts, jobId).value, w.now)
    requires !SentTwice(s.requests, LoadInstruction(s.store, s.facts, jobId).value.Key(derive))
    ensures var t, key := Run(derive, s, [Receive(d, body)] + Trace(d, w)),
                          LoadInstruction(s.store, s.facts, jobId).value.Key(derive);
            && (SentTwice(t.requests, key) <==>
                SentWith(s.requests, key) && !HasKey(s.store.executions, key))
            && HasKey(t.store.executions, key)
            && (SentTwice(t.requests, key) ==>
                  forall c :: c in Callers(s.requests, key) ==>
                    c in s.deliveries && (FateOf(s, c).InFlight? || FateOf(s, c).Aborted?))
  {
    var i := LoadInstruction(s.store, s.facts, jobId).value;
    var key := i.Key(derive);
    hide Reachable, Run, Trace, FromBody, Fresh, SentTwice, SentWith, Callers, FateOf;
    if HasKey(s.store.executions, key) {
      KeyOfLoaded(derive, s, jobId);
      KeyedBindingCallsNotAgain(s.facts, i, w.now);
      hide LoadInstruction, CallsAgain, CallsUnderKey, HasKey, KeyTaken;
      RedeliveryIsADuplicate(derive, s, d, body, jobId, w);
    } else {
      forall c | c in Callers(s.requests, key)
        ensures c in s.deliveries && (FateOf(s, c).InFlight? || FateOf(s, c).Aborted?)
      {
        UnrecordedCalls(derive, s, key, c);
      }
      hide LoadInstruction, HasKey;
      UntakenRedelivery(derive, s, d, body, jobId, w, i);
    }
  }

  lemma UntakenRedelivery(
    derive: Deriver, s: State, d: nat, body: Body, jobId: Uuid, w: Surroundings, i: Instruction)
    requires d !in s.deliveries && w.fault.None? && Fresh(s.store, w.ids)
    requires FromBody(body).Some? && FromBody(body).value.kind.Execute? && FromBody(body).value.jobId == jobId
    requires LoadInstruction(s.store, s.facts, jobId) == Some(i) && CallsUnderKey(s.facts, i, w.now)
    requires !HasKey(s.store.executions, i.Key(derive))
    ensures CallsOnce(s, Run(derive, s, [Receive(d, body)] + Trace(d, w)), i.Key(derive))
  {
    assert ValidIdentity(i.identity);
    hide Run, Do, Script, Fresh, HasKey, LoadInstruction, ValidIdentity, FromBody, CallsUnderKey, CallsOnce;
    Received(derive, s, d, body, w);
    var start := Do(derive, s, Receive(d, body));
    assert Trace(d, w) == Script(d, w);
    ScriptAt(d, w);
    NothingRun(derive, start, d, w);
    LoadDone(derive, start, d);
    StepOn(derive, start, start, d, w, 0);
    var u := Do(derive, start, Script(d, w)[0]);
    CallsFromLoaded(derive, start, u, d, w, i);
    CallsOnceFrom(s, u, Run(derive, start, Script(d, w)), i.Key(derive));
  }

  /** A job's own columns are what it is loaded with, and so is its key. */
  lemma KeyOfLoaded(derive: Deriver, s: State, jobId: Uuid)
    requires LoadInstruction(s.store, s.facts, jobId).Some?
    ensures var i := LoadInstruction(s.store, s.facts, jobId).value;
            HasKey(s.store.executions, i.Key(derive)) ==> KeyTaken(derive, s.store, jobId)
  {
    hide HasKey;
  }

  lemma KeyedBindingCallsNotAgain(facts: Facts, i: Instruction, now: Time)
    requires CallsUnderKey(facts, i, now)
    ensures !CallsAgain(facts, i, now) && ValidIdentity(i.identity)
  {
    hide Evaluate, ValidIdentity;
  }
}
