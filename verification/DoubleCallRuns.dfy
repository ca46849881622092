/**
 Two ways one operation costs two calls, from any state in which its job may run: two deliveries that
 overlap, and a delivery that dies between its call and its commit. Neither hypothesis of
 `OrderlyRunsCallOnce` can be dropped.
 */
module DoubleCallRuns {
  import opened Text
  import opened Uuids
  import opened Idempotency
  import opened Domain
  import opened AccessPolicy
  import opened ExecutionStore
  import opened ExecutionProtocol
  import opened ExecutionInvariant
  import opened ExecutionSafety
  import opened InvocationAccounting

  /** The job passes every check at this instant, under a binding that carries a key. */
  ghost predicate Runnable(derive: Deriver, s: State, jobId: Uuid, now: Time)
  {
    var i := LoadInstruction(s.store, s.facts, jobId);
    && i.Some? && ValidIdentity(i.value.identity) && i.value.IsExecutableAt(now)
    && (var decision := Evaluate(s.facts, i.value.tenant, i.value.identity);
        decision.Allow? && decision.binding.policy.DerivedKey?)
    && !HasKey(s.store.executions, i.value.Key(derive))
  }

  function CommandFor(jobId: Uuid): Body
  {
    Fields(ToFields(Envelope(jobId, "c", Execute)))
  }

  /** From the queue up to the call. */
  function Approach(d: nat, jobId: Uuid, now: Time): (actions: seq<Action>)
    ensures |actions| == 7
  {
    [Receive(d, CommandFor(jobId)), Advance(d, Load), Advance(d, CheckWindow(now)),
     Advance(d, ReadEntitlement), Advance(d, ReadVersion), Advance(d, ReadBinding),
     Advance(d, PreCheck)]
  }

  /** Where each of those actions brings the delivery. */
  function Stage(n: nat, i: Instruction, binding: Binding, now: Time): Pc
    requires n < 7
  {
    if n == 0 then Accepted
    else if n == 1 then Loaded(i)
    else if n == 2 then InWindow(i, now)
    else if n == 3 then Entitled(i, now)
    else if n == 4 then AtVersion(i, now)
    else if n == 5 then Permitted(i, binding)
    else Cleared(i, binding)
  }

  /** One delivery of the job has been brought to a point; nothing else has happened. */
  predicate Brought(s: State, t: State, d: nat, jobId: Uuid, pc: Pc)
  {
    && t.store == s.store && t.facts == s.facts && t.requests == s.requests && t.commits == s.commits
    && d in t.deliveries && t.deliveries == s.deliveries[d := t.deliveries[d]]
    && t.deliveries[d].envelope.jobId == jobId && t.deliveries[d].pc == pc
  }

  lemma CommandReceived(derive: Deriver, s: State, d: nat, jobId: Uuid)
    requires d !in s.deliveries
    ensures Brought(s, Do(derive, s, Receive(d, CommandFor(jobId))), d, jobId, Accepted)
  {
    EnvelopeRoundTrip(Envelope(jobId, "c", Execute));
    hide FromBody, ToFields;
  }

  lemma OnwardToPolicy(
    derive: Deriver, s: State, t: State, d: nat, jobId: Uuid, now: Time, i: Instruction, binding: Binding,
    n: nat)
    requires n < 3 && Runnable(derive, s, jobId, now)
    requires LoadInstruction(s.store, s.facts, jobId) == Some(i)
    requires Evaluate(s.facts, i.tenant, i.identity) == Allow(binding)
    requires Brought(s, t, d, jobId, Stage(n, i, binding, now))
    ensures Brought(s, Do(derive, t, Approach(d, jobId, now)[n + 1]), d, jobId,
                    Stage(n + 1, i, binding, now))
  {
    hide FromBody, ToFields, LoadInstruction, ValidIdentity, HasKey;
  }

  lemma OnwardToCall(
    derive: Deriver, s: State, t: State, d: nat, jobId: Uuid, now: Time, i: Instruction, binding: Binding,
    n: nat)
    requires 3 <= n < 6 && Runnable(derive, s, jobId, now)
    requires LoadInstruction(s.store, s.facts, jobId) == Some(i)
    requires Evaluate(s.facts, i.tenant, i.identity) == Allow(binding)
    requires Brought(s, t, d, jobId, Stage(n, i, binding, now))
    ensures Brought(s, Do(derive, t, Approach(d, jobId, now)[n + 1]), d, jobId,
                    Stage(n + 1, i, binding, now))
  {
    hide FromBody, ToFields, LoadInstruction, ValidIdentity, HasKey;
  }

  lemma Onward(
    derive: Deriver, s: State, t: State, d: nat, jobId: Uuid, now: Time, i: Instruction, binding: Binding,
    n: nat)
    requires n < 6 && Runnable(derive, s, jobId, now)
    requires LoadInstruction(s.store, s.facts, jobId) == Some(i)
    requires Evaluate(s.facts, i.tenant, i.identity) == Allow(binding)
    requires Brought(s, t, d, jobId, Stage(n, i, binding, now))
    ensures Brought(s, Do(derive, t, Approach(d, jobId, now)[n + 1]), d, jobId,
                    Stage(n + 1, i, binding, now))
  {
    hide *;
    if n < 3 {
      OnwardToPolicy(derive, s, t, d, jobId, now, i, binding, n);
    } else {
      OnwardToCall(derive, s, t, d, jobId, now, i, binding, n);
    }
  }

  lemma {:induction false} Approaching(
    derive: Deriver, s: State, d: nat, jobId: Uuid, now: Time, i: Instruction, binding: Binding, n: nat)
    requires n < 7 && d !in s.deliveries && Runnable(derive, s, jobId, now)
    requires LoadInstruction(s.store, s.facts, jobId) == Some(i)
    requires Evaluate(s.facts, i.tenant, i.identity) == Allow(binding)
    ensures Brought(s, Run(derive, s, Approach(d, jobId, now)[..n + 1]), d, jobId,
                    Stage(n, i, binding, now))
  {
    hide Runnable, Brought, Do, CommandFor, LoadInstruction, Evaluate, Stage;
    var actions := Approach(d, jobId, now);
    assert actions[..n + 1][..n] == actions[..n];
    if n == 0 {
      CommandReceived(derive, s, d, jobId);
      assert Run(derive, s, actions[..0]) == s;
      StageZero(i, binding, now);
    } else {
      Approaching(derive, s, d, jobId, now, i, binding, n - 1);
      Onward(derive, s, Run(derive, s, actions[..n]), d, jobId, now, i, binding, n - 1);
    }
  }

  lemma StageZero(i: Instruction, binding: Binding, now: Time)
    ensures Stage(0, i, binding, now) == Accepted
  {
  }

  /** The delivery is about to call, with its key. */
  ghost predicate Poised(s: State, t: State, d: nat, i: Instruction)
  {
    && t.store == s.store && t.facts == s.facts && t.requests == s.requests
    && d in t.deliveries && t.deliveries == s.deliveries[d := t.deliveries[d]]
    && t.deliveries[d].pc.Cleared? && t.deliveries[d].pc.instruction == i
    && t.deliveries[d].pc.binding.policy.DerivedKey?
  }

  /** What a runnable job is loaded as, and the binding it is allowed. */
  lemma Allowance(derive: Deriver, s: State, jobId: Uuid, now: Time)
    returns (i: Instruction, binding: Binding)
    requires Runnable(derive, s, jobId, now)
    ensures LoadInstruction(s.store, s.facts, jobId) == Some(i)
    ensures Evaluate(s.facts, i.tenant, i.identity) == Allow(binding) && binding.policy.DerivedKey?
  {
    hide LoadInstruction, Evaluate;
    i := LoadInstruction(s.store, s.facts, jobId).value;
    binding := Evaluate(s.facts, i.tenant, i.identity).binding;
  }

  lemma ClearedIsPoised(s: State, t: State, d: nat, jobId: Uuid, now: Time, i: Instruction, binding: Binding)
    requires Brought(s, t, d, jobId, Stage(6, i, binding, now)) && binding.policy.DerivedKey?
    ensures Poised(s, t, d, i)
  {
  }

  lemma ApproachPoises(derive: Deriver, s: State, d: nat, jobId: Uuid, now: Time)
    requires d !in s.deliveries && Runnable(derive, s, jobId, now)
    ensures LoadInstruction(s.store, s.facts, jobId).Some?
    ensures Poised(s, Run(derive, s, Approach(d, jobId, now)), d,
                   LoadInstruction(s.store, s.facts, jobId).value)
  {
    hide *;
    var i, binding := Allowance(derive, s, jobId, now);
    Approaching(derive, s, d, jobId, now, i, binding, 6);
    assert Approach(d, jobId, now)[..7] == Approach(d, jobId, now);
    ClearedIsPoised(s, Run(derive, s, Approach(d, jobId, now)), d, jobId, now, i, binding);
  }

  /** A poised delivery calls, and appends its keyed request. */
  lemma PoisedCalls(derive: Deriver, s: State, d: nat, startedAt: Time, reply: Reply)
    requires d in s.deliveries && s.deliveries[d].pc.Cleared?
    requires s.deliveries[d].pc.binding.policy.DerivedKey?
    ensures var t := Do(derive, s, Advance(d, Invoke(startedAt, reply)));
            && t.store == s.store && t.facts == s.facts
            && |t.requests| == |s.requests| + 1 && t.requests[..|s.requests|] == s.requests
            && Bears(t.requests[|s.requests|], s.deliveries[d].pc.instruction.Key(derive))
            && d in t.deliveries && t.deliveries == s.deliveries[d := t.deliveries[d]]
            && t.deliveries[d].pc.Recording?
  {
  }

  lemma RunnableHere(derive: Deriver, s: State, t: State, jobId: Uuid, now: Time)
    requires Runnable(derive, s, jobId, now) && t.store == s.store && t.facts == s.facts
    ensures Runnable(derive, t, jobId, now)
  {
  }

  /**
   Wherever the first rule of `Orderly` is broken, two calls follow: a delivery that looks for an untaken
   key while another of the operation is between its own look and its record, calls as well as that one.
   */
  lemma CarelessCheckCallsTwice(
    derive: Deriver, s: State, d: nat, other: nat, key: Key, now: Time, reply: Reply)
    requires !HasKey(s.store.executions, key)
    requires Checking(derive, s, d, key) && Engaged(derive, s, other, key)
    ensures SentTwice(Run(derive, s, [Advance(d, PreCheck), Advance(d, Invoke(now, reply)),
                                      Advance(other, Invoke(now, reply))]).requests, key)
  {
    var look, call, too :=
      Advance(d, PreCheck), Advance(d, Invoke(now, reply)), Advance(other, Invoke(now, reply));
    var s1 := Do(derive, s, look);
    var s2 := Do(derive, s1, call);
    RunThree(derive, s, look, call, too);
    hide HasKey, Bears, SentTwice, Run;
    CheckClears(derive, s, d, key);
    PoisedCalls(derive, s1, d, now, reply);
    hide Do;
    SentOnceMore(s1, s2, key);
    if ClearedFor(derive, s, other, key) {
      PoisedCalls(derive, s2, other, now, reply);
      SentOnceMore(s2, Do(derive, s2, too), key);
    } else {
      InvokeStutters(derive, s2, other, now, reply);
    }
  }

  lemma RunThree(derive: Deriver, s: State, a: Action, b: Action, c: Action)
    ensures Run(derive, s, [a, b, c]) == Do(derive, Do(derive, Do(derive, s, a), b), c)
  {
    hide Do;
    assert [a, b, c] == [] + [a] + [b] + [c];
    RunSnoc(derive, s, [] + [a] + [b], c);
    RunSnoc(derive, s, [] + [a], b);
    RunSnoc(derive, s, [], a);
  }

  lemma CheckClears(derive: Deriver, s: State, d: nat, key: Key)
    requires Checking(derive, s, d, key) && !HasKey(s.store.executions, key)
    ensures var t := Do(derive, s, Advance(d, PreCheck));
            && ClearedFor(derive, t, d, key) && t.requests == s.requests
            && t.deliveries == s.deliveries[d := t.deliveries[d]]
  {
    hide HasKey;
  }

  /** One keyed request more. */
  lemma SentOnceMore(s: State, t: State, key: Key)
    requires |t.requests| == |s.requests| + 1 && t.requests[..|s.requests|] == s.requests
    requires Bears(t.requests[|s.requests|], key)
    ensures SentWith(t.requests, key)
    ensures SentTwice(t.requests, key) <==> SentTwice(s.requests, key) || SentWith(s.requests, key)
  {
    hide Bears, SentWith, SentTwice;
    assert t.requests == s.requests + [t.requests[|s.requests|]];
    OneMoreCall(s.requests, t.requests[|s.requests|], key);
  }

  lemma InvokeStutters(derive: Deriver, s: State, d: nat, now: Time, reply: Reply)
    requires d in s.deliveries && !s.deliveries[d].pc.Cleared?
    ensures Do(derive, s, Advance(d, Invoke(now, reply))).requests == s.requests
  {
  }

  /** Two deliveries reach the call before either has recorded: two calls under one key. */
  lemma OverlapCallsTwice(
    derive: Deriver, s: State, d1: nat, d2: nat, jobId: Uuid, now: Time, reply1: Reply, reply2: Reply)
    requires d1 !in s.deliveries && d2 !in s.deliveries && d1 != d2
    requires Runnable(derive, s, jobId, now)
    ensures LoadInstruction(s.store, s.facts, jobId).Some?
    ensures SentTwice(Run(derive, s,
              Approach(d1, jobId, now) + Approach(d2, jobId, now)
              + [Advance(d1, Invoke(now, reply1))] + [Advance(d2, Invoke(now, reply2))]).requests,
              LoadInstruction(s.store, s.facts, jobId).value.Key(derive))
  {
    hide Runnable, Approach, Do, LoadInstruction, Bears;
    var a, b := Approach(d1, jobId, now), Approach(d2, jobId, now);
    var s1 := Run(derive, s, a);
    var s2 := Run(derive, s1, b);
    var s3 := Do(derive, s2, Advance(d1, Invoke(now, reply1)));
    var s4 := Do(derive, s3, Advance(d2, Invoke(now, reply2)));
    RunOnward(derive, s, a, b);
    RunSnoc(derive, s, a + b, Advance(d1, Invoke(now, reply1)));
    RunSnoc(derive, s, a + b + [Advance(d1, Invoke(now, reply1))], Advance(d2, Invoke(now, reply2)));
    hide Run;
    ApproachPoises(derive, s, d1, jobId, now);
    RunnableHere(derive, s, s1, jobId, now);
    ApproachPoises(derive, s1, d2, jobId, now);
    PoisedCalls(derive, s2, d1, now, reply1);
    PoisedCalls(derive, s3, d2, now, reply2);
    var n := |s.requests|;
    assert s4.requests[n] == s3.requests[n] by {
      assert s4.requests[..n + 1][n] == s4.requests[n];
    }
    var key := LoadInstruction(s.store, s.facts, jobId).value.Key(derive);
    assert Bears(s4.requests[n], key) && Bears(s4.requests[n + 1], key);
  }

  /**
   A delivery faults (and is abandoned) or crashes after its call: the redelivery calls again. So
   ABANDON does not mean that nothing was sent.
   */
  lemma LossCallsTwice(
    derive: Deriver, s: State, d1: nat, d2: nat, jobId: Uuid, now: Time, reply1: Reply, reply2: Reply,
    loss: Step)
    requires d1 !in s.deliveries && d2 !in s.deliveries && d1 != d2
    requires Runnable(derive, s, jobId, now) && (loss == Fault || loss == Crash)
    ensures LoadInstruction(s.store, s.facts, jobId).Some?
    ensures SentTwice(Run(derive, s,
              Approach(d1, jobId, now) + [Advance(d1, Invoke(now, reply1))] + [Advance(d1, loss)]
              + Approach(d2, jobId, now) + [Advance(d2, Invoke(now, reply2))]).requests,
              LoadInstruction(s.store, s.facts, jobId).value.Key(derive))
  {
    hide Runnable, Approach, Do, LoadInstruction, Bears;
    var a, b := Approach(d1, jobId, now), Approach(d2, jobId, now);
    var call1, lose, call2 :=
      Advance(d1, Invoke(now, reply1)), Advance(d1, loss), Advance(d2, Invoke(now, reply2));
    var s1 := Run(derive, s, a);
    var s2 := Do(derive, s1, call1);
    var s3 := Do(derive, s2, lose);
    var s4 := Run(derive, s3, b);
    var s5 := Do(derive, s4, call2);
    RunSnoc(derive, s, a, call1);
    RunSnoc(derive, s, a + [call1], lose);
    RunOnward(derive, s, a + [call1] + [lose], b);
    RunSnoc(derive, s, a + [call1] + [lose] + b, call2);
    hide Run;
    ApproachPoises(derive, s, d1, jobId, now);
    PoisedCalls(derive, s1, d1, now, reply1);
    LossMoves(derive, s2, d1, loss);
    RunnableHere(derive, s, s3, jobId, now);
    ApproachPoises(derive, s3, d2, jobId, now);
    PoisedCalls(derive, s4, d2, now, reply2);
    var n := |s.requests|;
    assert s5.requests[n] == s2.requests[n] by {
      assert s5.requests[..n + 1][n] == s5.requests[n];
    }
    var key := LoadInstruction(s.store, s.facts, jobId).value.Key(derive);
    assert Bears(s5.requests[n], key) && Bears(s5.requests[n + 1], key);
  }

  lemma LossMoves(derive: Deriver, s: State, d: nat, loss: Step)
    requires d in s.deliveries && s.deliveries[d].pc.Recording? && (loss == Fault || loss == Crash)
    ensures var t := Do(derive, s, Advance(d, loss));
            && t.store == s.store && t.facts == s.facts && t.requests == s.requests
            && d in t.deliveries && t.deliveries == s.deliveries[d := t.deliveries[d]]
            && t.deliveries[d].pc == if loss == Fault then AbandonedFrom(s.deliveries[d].pc) else Crashed
  {
  }

  lemma RunSnoc(derive: Deriver, s: State, actions: seq<Action>, a: Action)
    ensures Run(derive, s, actions + [a]) == Do(derive, Run(derive, s, actions), a)
  {
    hide Do;
    assert (actions + [a])[..|actions|] == actions;
  }

  lemma RunOnward(derive: Deriver, s: State, a: seq<Action>, b: seq<Action>)
    ensures Run(derive, s, a + b) == Run(derive, Run(derive, s, a), b)
  {
    hide *;
    RunConcat(derive, s, a, b);
  }
}
