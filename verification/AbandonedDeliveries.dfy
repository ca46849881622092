/**
 Deliveries that an exception abandons: what each had done by then, and what its redelivery can still do.
 The comment that an escaping exception comes before any effect is true of some of them only.
 */
module AbandonedDeliveries {
  import opened Text
  import opened Uuids
  import opened Idempotency
  import opened Domain
  import opened AccessPolicy
  import opened ExecutionStore
  import opened ExecutionProtocol
  import opened ExecutionInvariant
  import opened ExecutionSafety

  /** The delivery was abandoned, before or after its call and its commit. */
  predicate Abandoned(s: State, d: nat, called: bool, committed: bool)
  {
    d in s.deliveries && s.deliveries[d].pc == Done(Abandon, Faulted(called, committed))
  }

  /**
   Striking a delivery at any point abandons it; whether it had called or written by then is exactly what
   its program counter said.
   */
  lemma ExceptionTellsWhatWasDone(derive: Deriver, s: State, d: nat)
    requires Reachable(derive, s) && d in s.deliveries && Active(s.deliveries[d].pc)
    ensures var t, pc := Do(derive, s, Advance(d, Fault)), s.deliveries[d].pc;
            && Abandoned(t, d, PastCall(pc), pc.Written?)
            && t.store == s.store && t.requests == s.requests
            && (PastCall(pc) <==> Sent(s, d)) && (pc.Written? <==> Wrote(s, d))
  {
    var actions := [Advance(d, Fault)];
    assert actions[..0] == [] && Run(derive, s, []) == s;
    assert Run(derive, s, actions) == Do(derive, s, Advance(d, Fault));
    var t := Do(derive, s, Advance(d, Fault));
    assert t.deliveries[d].pc == AbandonedFrom(s.deliveries[d].pc);
    assert t.requests == s.requests && t.commits == s.commits && t.store == s.store;
    hide Run, Do;
    ReachableOnwards(derive, s, actions);
    SettlementIsSound(derive, t, d);
    assert Sent(t, d) <==> Sent(s, d);
    assert Wrote(t, d) <==> Wrote(s, d);
  }

  /** So no effect preceded the exception if and only if it struck before the call and before the commit. */
  lemma NoEffectIff(derive: Deriver, s: State, d: nat, called: bool, committed: bool)
    requires Reachable(derive, s) && Abandoned(s, d, called, committed)
    ensures Sent(s, d) <==> called
    ensures Wrote(s, d) <==> committed
    ensures !Sent(s, d) && !Wrote(s, d) <==> !called && !committed
  {
    hide Reachable, Sent, Wrote;
    SettlementIsSound(derive, s, d);
  }

  /** Records, once written, are only ever joined by others. */
  lemma {:induction false} RecordsStay(derive: Deriver, s: State, actions: seq<Action>, e: Uuid)
    requires e in s.store.executions && e in s.commits
    ensures var t := Run(derive, s, actions);
            && e in t.store.executions && t.store.executions[e] == s.store.executions[e]
            && e in t.commits && t.commits[e] == s.commits[e]
  {
    if actions == [] {
    } else {
      var before := actions[..|actions| - 1];
      RecordsStay(derive, s, before, e);
      hide Run, Do;
      StepKeepsRecord(derive, Run(derive, s, before), actions[|actions| - 1], e);
    }
  }

  lemma StepKeepsRecord(derive: Deriver, s: State, a: Action, e: Uuid)
    requires e in s.store.executions && e in s.commits
    ensures var t := Do(derive, s, a);
            && e in t.store.executions && t.store.executions[e] == s.store.executions[e]
            && e in t.commits && t.commits[e] == s.commits[e]
  {
    match a {
      case Advance(d, step) =>
        if d in s.deliveries {
          DoAdvance(derive, s, d, step);
          if step.Record? {
            hide Do, Stepped, RecordOf;
            assert s.deliveries[d].pc.Recording? && Fresh(s.store, step.ids) ==> step.ids.execution != e;
          } else {
            NonRecordKeepsTables(derive, s, d, step);
            hide Do, Stepped;
          }
        }
      case _ =>
    }
  }

  lemma NonRecordKeepsTables(derive: Deriver, s: State, d: nat, step: Step)
    requires d in s.deliveries && !step.Record?
    ensures Stepped(derive, s, d, step).store == s.store && Stepped(derive, s, d, step).commits == s.commits
  {
  }

  /**
   A delivery abandoned after its commit has written the one record its operation will ever have: in no
   continuation of any run does another delivery of the job write, and one that completes does so as a
   duplicate, suppressed before its call or losing the insert.
   */
  lemma AbandonedWriteIsTheOnlyOne(
    derive: Deriver, s: State, d: nat, called: bool, actions: seq<Action>, other: nat)
    requires Reachable(derive, s) && Abandoned(s, d, called, true)
    requires other != d && other in Run(derive, s, actions).deliveries
    requires Run(derive, s, actions).deliveries[other].envelope.jobId == s.deliveries[d].envelope.jobId
    ensures var t := Run(derive, s, actions);
            && !Wrote(t, other)
            && (t.deliveries[other].pc.Done? && t.deliveries[other].pc.disposition == Complete ==>
                  t.deliveries[other].pc.ending.SuppressedBeforeCall? || t.deliveries[other].pc.ending.LostInsert?)
  {
    hide *;
    var t := Run(derive, s, actions);
    var e := WrittenRecord(derive, s, d, called);
    RecordsStay(derive, s, actions, e);
    ReachableOnwards(derive, s, actions);
    OnlyOneWriter(derive, t, e, d, other);
    if t.deliveries[other].pc.Done? && t.deliveries[other].pc.disposition == Complete {
      CompletesWithoutWriting(derive, t, other);
    }
  }

  lemma WrittenRecord(derive: Deriver, s: State, d: nat, called: bool) returns (e: Uuid)
    requires Reachable(derive, s) && Abandoned(s, d, called, true)
    ensures d in s.deliveries && e in s.commits && s.commits[e].delivery == d && e in s.store.executions
    ensures s.store.executions[e].jobId == s.deliveries[d].envelope.jobId
  {
    NoEffectIff(derive, s, d, called, true);
    e :| e in s.commits && s.commits[e].delivery == d;
    RecordFacts(derive, s, e);
    hide Reachable, Told;
  }

  lemma CompletesWithoutWriting(derive: Deriver, s: State, d: nat)
    requires Reachable(derive, s) && d in s.deliveries && !Wrote(s, d)
    requires s.deliveries[d].pc.Done? && s.deliveries[d].pc.disposition == Complete
    ensures s.deliveries[d].pc.ending.SuppressedBeforeCall? || s.deliveries[d].pc.ending.LostInsert?
  {
    DeliveryFacts(derive, s, d);
    hide Reachable;
  }

  lemma OnlyOneWriter(derive: Deriver, t: State, e: Uuid, d: nat, other: nat)
    requires Reachable(derive, t) && e in t.commits && e in t.store.executions && t.commits[e].delivery == d
    requires other != d && other in t.deliveries
    requires t.deliveries[other].envelope.jobId == t.store.executions[e].jobId
    ensures !Wrote(t, other)
  {
    if Wrote(t, other) {
      var f :| f in t.commits && t.commits[f].delivery == other;
      RecordFacts(derive, t, e);
      RecordFacts(derive, t, f);
      hide Reachable, Told;
      RecordsApart(derive, t, e, f);
      assert false;
    }
  }
}
