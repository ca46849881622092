/**
 No call without authority. Every call of every run was preceded, in its own delivery, by a load of the
 job, a check of the window, and reads of the entitlement, the registered version and the binding, each
 of which found what the call needs in the tables and facts of that very moment.
 */
module ExecutionAuthority {
  import opened Text
  import opened Uuids
  import opened Idempotency
  import opened Domain
  import opened AccessPolicy
  import opened ExecutionStore
  import opened ExecutionProtocol
  import opened ExecutionInvariant
  import opened ExecutionSafety

  /** A run, with every state it went through. */
  ghost function At(derive: Deriver, start: State, actions: seq<Action>, t: nat): State
    requires t <= |actions|
  {
    Run(derive, start, actions[..t])
  }

  // ----- what each step of a delivery saw, in the state in which it saw it

  /** At its load, the delivery found this instruction in the tables. */
  ghost predicate SawJob(
    derive: Deriver, start: State, actions: seq<Action>, d: nat, delivery: Delivery, i: Instruction)
  {
    var t := delivery.readAt.load;
    && t < |actions| && actions[t] == Advance(d, Load)
    && var s := At(derive, start, actions, t);
    && LoadInstruction(s.store, s.facts, delivery.envelope.jobId) == Some(i)
  }

  /** Then it found the instruction executable, by the clock of that moment. */
  ghost predicate SawWindow(
    derive: Deriver, start: State, actions: seq<Action>, d: nat, delivery: Delivery, i: Instruction,
    now: Time)
  {
    && delivery.readAt.load < delivery.readAt.window < |actions|
    && actions[delivery.readAt.window] == Advance(d, CheckWindow(now))
    && i.IsExecutableAt(now)
  }

  /** Then it found the organisation entitled. */
  ghost predicate SawEntitlement(
    derive: Deriver, start: State, actions: seq<Action>, d: nat, delivery: Delivery, i: Instruction)
  {
    var t := delivery.readAt.entitlement;
    && delivery.readAt.window < t < |actions| && actions[t] == Advance(d, ReadEntitlement)
    && At(derive, start, actions, t).facts.IsEntitled(i.tenant, i.identity.catalogueId)
  }

  /** Then it found the version registered that the job names. */
  ghost predicate SawVersion(
    derive: Deriver, start: State, actions: seq<Action>, d: nat, delivery: Delivery, i: Instruction)
  {
    var t := delivery.readAt.version;
    && delivery.readAt.entitlement < t < |actions| && actions[t] == Advance(d, ReadVersion)
    && At(derive, start, actions, t).facts.RegisteredVersion(i.identity.catalogueId)
       == Some(i.identity.version)
  }

  /** Then it found this binding for the identity. */
  ghost predicate SawBinding(
    derive: Deriver, start: State, actions: seq<Action>, d: nat, delivery: Delivery, i: Instruction,
    binding: Binding)
  {
    var t := delivery.readAt.binding;
    && delivery.readAt.version < t < |actions| && actions[t] == Advance(d, ReadBinding)
    && At(derive, start, actions, t).facts.BindingFor(i.identity) == Some(binding)
  }

  /** Then, under a binding that carries a key, it found no record of the operation. */
  ghost predicate SawNoRecord(
    derive: Deriver, start: State, actions: seq<Action>, d: nat, delivery: Delivery, i: Instruction,
    binding: Binding)
  {
    var t := delivery.readAt.check;
    && delivery.readAt.binding < t < |actions| && actions[t] == Advance(d, PreCheck)
    && (binding.policy.DerivedKey? ==>
          !HasKey(At(derive, start, actions, t).store.executions, i.Key(derive)))
  }

  // ----- how much of it a delivery has seen, by where it is

  ghost predicate SeenToVersion(
    derive: Deriver, start: State, actions: seq<Action>, d: nat, delivery: Delivery, i: Instruction,
    now: Time)
  {
    && SawJob(derive, start, actions, d, delivery, i)
    && SawWindow(derive, start, actions, d, delivery, i, now)
    && SawEntitlement(derive, start, actions, d, delivery, i)
    && SawVersion(derive, start, actions, d, delivery, i)
  }

  ghost predicate SeenToBinding(
    derive: Deriver, start: State, actions: seq<Action>, d: nat, delivery: Delivery, i: Instruction,
    binding: Binding)
  {
    && (exists now :: SeenToVersion(derive, start, actions, d, delivery, i, now))
    && SawBinding(derive, start, actions, d, delivery, i, binding)
  }

  /** All of it, as it must be before a call. */
  ghost predicate Authorised(
    derive: Deriver, start: State, actions: seq<Action>, d: nat, delivery: Delivery, i: Instruction,
    binding: Binding)
  {
    && SeenToBinding(derive, start, actions, d, delivery, i, binding)
    && SawNoRecord(derive, start, actions, d, delivery, i, binding)
  }

  ghost predicate Seen(derive: Deriver, start: State, actions: seq<Action>, d: nat, delivery: Delivery)
  {
    match delivery.pc
    case Loaded(i) => SawJob(derive, start, actions, d, delivery, i)
    case InWindow(i, now) =>
      && SawJob(derive, start, actions, d, delivery, i)
      && SawWindow(derive, start, actions, d, delivery, i, now)
    case Entitled(i, now) =>
      && SawJob(derive, start, actions, d, delivery, i)
      && SawWindow(derive, start, actions, d, delivery, i, now)
      && SawEntitlement(derive, start, actions, d, delivery, i)
    case AtVersion(i, now) => SeenToVersion(derive, start, actions, d, delivery, i, now)
    case Permitted(i, binding) => SeenToBinding(derive, start, actions, d, delivery, i, binding)
    case Cleared(i, binding) => Authorised(derive, start, actions, d, delivery, i, binding)
    case _ => true
  }

  /** A call was authorised, and carried exactly what the authority was for. */
  ghost predicate CallAuthorised(
    derive: Deriver, start: State, actions: seq<Action>, s: State, r: Request)
  {
    && r.delivery in s.deliveries
    && exists i, binding ::
         && Authorised(derive, start, actions, r.delivery, s.deliveries[r.delivery], i, binding)
         && r == RequestOf(derive, r.delivery, s.deliveries[r.delivery].envelope.correlationId, i, binding, r.reply)
  }

  ghost predicate AllSeen(derive: Deriver, start: State, actions: seq<Action>, s: State)
  {
    forall d :: d in s.deliveries ==> Seen(derive, start, actions, d, s.deliveries[d])
  }

  ghost predicate AllCallsAuthorised(derive: Deriver, start: State, actions: seq<Action>, s: State)
  {
    forall i :: 0 <= i < |s.requests| ==> CallAuthorised(derive, start, actions, s, s.requests[i])
  }

  // ----- what was seen stays seen

  /** States already passed are not changed by what happens next. */
  lemma PastIsFixed(derive: Deriver, start: State, actions: seq<Action>, a: Action, t: nat)
    requires t <= |actions|
    ensures At(derive, start, actions + [a], t) == At(derive, start, actions, t)
  {
    hide Run;
    assert (actions + [a])[..t] == actions[..t];
  }

  /** The state in which an action is taken is the one the run had reached. */
  lemma Present(derive: Deriver, start: State, actions: seq<Action>, a: Action)
    ensures At(derive, start, actions + [a], |actions|) == Run(derive, start, actions)
  {
    hide Run;
    assert (actions + [a])[..|actions|] == actions;
  }

  lemma JobStaysSeen(
    derive: Deriver, start: State, actions: seq<Action>, a: Action, d: nat, before: Delivery,
    after: Delivery, i: Instruction)
    requires SawJob(derive, start, actions, d, before, i)
    requires after.envelope == before.envelope && after.readAt.load == before.readAt.load
    ensures SawJob(derive, start, actions + [a], d, after, i)
  {
    hide At, LoadInstruction;
    PastIsFixed(derive, start, actions, a, before.readAt.load);
  }

  lemma WindowStaysSeen(
    derive: Deriver, start: State, actions: seq<Action>, a: Action, d: nat, before: Delivery,
    after: Delivery, i: Instruction, now: Time)
    requires SawWindow(derive, start, actions, d, before, i, now)
    requires after.readAt.load == before.readAt.load && after.readAt.window == before.readAt.window
    ensures SawWindow(derive, start, actions + [a], d, after, i, now)
  {
  }

  lemma EntitlementStaysSeen(
    derive: Deriver, start: State, actions: seq<Action>, a: Action, d: nat, before: Delivery,
    after: Delivery, i: Instruction)
    requires SawEntitlement(derive, start, actions, d, before, i)
    requires after.readAt.window == before.readAt.window
    requires after.readAt.entitlement == before.readAt.entitlement
    ensures SawEntitlement(derive, start, actions + [a], d, after, i)
  {
    hide At;
    PastIsFixed(derive, start, actions, a, before.readAt.entitlement);
  }

  lemma VersionStaysSeen(
    derive: Deriver, start: State, actions: seq<Action>, a: Action, d: nat, before: Delivery,
    after: Delivery, i: Instruction, now: Time)
    requires SeenToVersion(derive, start, actions, d, before, i, now)
    requires after.envelope == before.envelope
    requires after.readAt.(binding := 0, check := 0) == before.readAt.(binding := 0, check := 0)
    ensures SeenToVersion(derive, start, actions + [a], d, after, i, now)
  {
    hide At, SawJob, SawWindow, SawEntitlement;
    JobStaysSeen(derive, start, actions, a, d, before, after, i);
    WindowStaysSeen(derive, start, actions, a, d, before, after, i, now);
    EntitlementStaysSeen(derive, start, actions, a, d, before, after, i);
    PastIsFixed(derive, start, actions, a, before.readAt.version);
  }

  lemma BindingStaysSeen(
    derive: Deriver, start: State, actions: seq<Action>, a: Action, d: nat, before: Delivery,
    after: Delivery, i: Instruction, binding: Binding)
    requires SeenToBinding(derive, start, actions, d, before, i, binding)
    requires after.envelope == before.envelope
    requires after.readAt.(check := 0) == before.readAt.(check := 0)
    ensures SeenToBinding(derive, start, actions + [a], d, after, i, binding)
  {
    hide At, SeenToVersion;
    var now :| SeenToVersion(derive, start, actions, d, before, i, now);
    VersionStaysSeen(derive, start, actions, a, d, before, after, i, now);
    PastIsFixed(derive, start, actions, a, before.readAt.binding);
  }

  lemma AuthorityStays(
    derive: Deriver, start: State, actions: seq<Action>, a: Action, d: nat, before: Delivery,
    after: Delivery, i: Instruction, binding: Binding)
    requires Authorised(derive, start, actions, d, before, i, binding)
    requires after.envelope == before.envelope && after.readAt == before.readAt
    ensures Authorised(derive, start, actions + [a], d, after, i, binding)
  {
    hide At, SeenToBinding, HasKey;
    BindingStaysSeen(derive, start, actions, a, d, before, after, i, binding);
    PastIsFixed(derive, start, actions, a, before.readAt.check);
  }

  lemma StaysSeen(
    derive: Deriver, start: State, actions: seq<Action>, a: Action, d: nat, delivery: Delivery)
    requires Seen(derive, start, actions, d, delivery)
    ensures Seen(derive, start, actions + [a], d, delivery)
  {
    hide SawJob, SawWindow, SawEntitlement, SeenToVersion, SeenToBinding, Authorised;
    match delivery.pc
    case Loaded(i) => JobStaysSeen(derive, start, actions, a, d, delivery, delivery, i);
    case InWindow(i, now) =>
      JobStaysSeen(derive, start, actions, a, d, delivery, delivery, i);
      WindowStaysSeen(derive, start, actions, a, d, delivery, delivery, i, now);
    case Entitled(i, now) =>
      JobStaysSeen(derive, start, actions, a, d, delivery, delivery, i);
      WindowStaysSeen(derive, start, actions, a, d, delivery, delivery, i, now);
      EntitlementStaysSeen(derive, start, actions, a, d, delivery, delivery, i);
    case AtVersion(i, now) => VersionStaysSeen(derive, start, actions, a, d, delivery, delivery, i, now);
    case Permitted(i, binding) =>
      BindingStaysSeen(derive, start, actions, a, d, delivery, delivery, i, binding);
    case Cleared(i, binding) =>
      AuthorityStays(derive, start, actions, a, d, delivery, delivery, i, binding);
    case _ =>
  }

  // ----- each step sees what it has to

  /** The run so far, and a delivery in the state it has reached. */
  ghost predicate Following(
    derive: Deriver, start: State, actions: seq<Action>, s: State, d: nat)
  {
    && s == Run(derive, start, actions) && s.clock == |actions|
    && d in s.deliveries && Seen(derive, start, actions, d, s.deliveries[d])
  }

  lemma LoadSees(derive: Deriver, start: State, actions: seq<Action>, s: State, d: nat)
    requires Following(derive, start, actions, s, d) && s.deliveries[d].pc.Accepted?
    ensures Seen(derive, start, actions + [Advance(d, Load)], d, StepLoad(s, d).deliveries[d])
  {
    Present(derive, start, actions, Advance(d, Load));
    hide At, Run, LoadInstruction;
  }

  lemma WindowSees(derive: Deriver, start: State, actions: seq<Action>, s: State, d: nat, now: Time)
    requires Following(derive, start, actions, s, d) && s.deliveries[d].pc.Loaded?
    ensures Seen(derive, start, actions + [Advance(d, CheckWindow(now))], d,
                 StepCheckWindow(s, d, now).deliveries[d])
  {
    hide At, Run, LoadInstruction;
    var after := StepCheckWindow(s, d, now).deliveries[d];
    if after.pc.InWindow? {
      JobStaysSeen(derive, start, actions, Advance(d, CheckWindow(now)), d, s.deliveries[d], after,
                   s.deliveries[d].pc.instruction);
    }
  }

  lemma EntitlementSees(derive: Deriver, start: State, actions: seq<Action>, s: State, d: nat)
    requires Following(derive, start, actions, s, d) && s.deliveries[d].pc.InWindow?
    ensures Seen(derive, start, actions + [Advance(d, ReadEntitlement)], d,
                 StepReadEntitlement(s, d).deliveries[d])
  {
    hide At, Run, SawJob;
    var a := Advance(d, ReadEntitlement);
    var before, after := s.deliveries[d], StepReadEntitlement(s, d).deliveries[d];
    if after.pc.Entitled? {
      Present(derive, start, actions, a);
      JobStaysSeen(derive, start, actions, a, d, before, after, before.pc.instruction);
      WindowStaysSeen(derive, start, actions, a, d, before, after, before.pc.instruction, before.pc.now);
    }
  }

  lemma VersionSees(derive: Deriver, start: State, actions: seq<Action>, s: State, d: nat)
    requires Following(derive, start, actions, s, d) && s.deliveries[d].pc.Entitled?
    ensures Seen(derive, start, actions + [Advance(d, ReadVersion)], d,
                 StepReadVersion(s, d).deliveries[d])
  {
    hide At, Run, SawJob, SawWindow;
    var a := Advance(d, ReadVersion);
    var before, after := s.deliveries[d], StepReadVersion(s, d).deliveries[d];
    if after.pc.AtVersion? {
      Present(derive, start, actions, a);
      JobStaysSeen(derive, start, actions, a, d, before, after, before.pc.instruction);
      WindowStaysSeen(derive, start, actions, a, d, before, after, before.pc.instruction, before.pc.now);
      EntitlementStaysSeen(derive, start, actions, a, d, before, after, before.pc.instruction);
    }
  }

  lemma BindingSees(derive: Deriver, start: State, actions: seq<Action>, s: State, d: nat)
    requires Following(derive, start, actions, s, d) && s.deliveries[d].pc.AtVersion?
    ensures Seen(derive, start, actions + [Advance(d, ReadBinding)], d,
                 StepReadBinding(s, d).deliveries[d])
  {
    hide At, Run, SawJob, SawWindow, SawEntitlement;
    var a := Advance(d, ReadBinding);
    var before, after := s.deliveries[d], StepReadBinding(s, d).deliveries[d];
    if after.pc.Permitted? {
      Present(derive, start, actions, a);
      VersionStaysSeen(derive, start, actions, a, d, before, after, before.pc.instruction, before.pc.now);
    }
  }

  lemma PreCheckSees(derive: Deriver, start: State, actions: seq<Action>, s: State, d: nat)
    requires Following(derive, start, actions, s, d) && s.deliveries[d].pc.Permitted?
    ensures Seen(derive, start, actions + [Advance(d, PreCheck)], d,
                 StepPreCheck(derive, s, d).deliveries[d])
  {
    hide At, Run, SeenToVersion, HasKey;
    var a := Advance(d, PreCheck);
    var before, after := s.deliveries[d], StepPreCheck(derive, s, d).deliveries[d];
    if after.pc.Cleared? {
      Present(derive, start, actions, a);
      BindingStaysSeen(derive, start, actions, a, d, before, after, before.pc.instruction,
                       before.pc.binding);
    }
  }

  predicate OnlyMoves(s: State, t: State, d: nat)
    requires d in s.deliveries
  {
    && d in t.deliveries && t.deliveries == s.deliveries[d := t.deliveries[d]]
    && t.deliveries[d].envelope == s.deliveries[d].envelope
  }

  lemma MoveOnlyMoves(s: State, d: nat, pc: Pc, readAt: ReadTimes)
    requires d in s.deliveries
    ensures OnlyMoves(s, s, d) && OnlyMoves(s, Moved(s, d, pc), d)
    ensures OnlyMoves(s, MovedReading(s, d, pc, readAt), d)
    ensures Moved(s, d, pc).deliveries[d].readAt == s.deliveries[d].readAt
    ensures Moved(s, d, pc).deliveries[d].pc == pc
  {
  }

  predicate BeforeCall(pc: Pc)
  {
    pc.Accepted? || pc.Loaded? || pc.InWindow? || pc.Entitled? || pc.AtVersion? || pc.Permitted? || pc.Cleared?
  }

  /** A read or check moves its own delivery only, before its call. */
  lemma ReadMovesOne(derive: Deriver, s: State, d: nat, step: Step)
    requires d in s.deliveries
    requires step.Load? || step.CheckWindow? || step.ReadEntitlement? || step.ReadVersion?
             || step.ReadBinding? || step.PreCheck?
    ensures var t := Stepped(derive, s, d, step);
            OnlyMoves(s, t, d) && t.requests == s.requests && (t == s || BeforeCall(s.deliveries[d].pc))
  {
    hide LoadInstruction, HasKey, ValidIdentity, RefusalOutcome;
    forall pc, readAt
      ensures OnlyMoves(s, Moved(s, d, pc), d) && OnlyMoves(s, MovedReading(s, d, pc, readAt), d)
    {
      MoveOnlyMoves(s, d, pc, readAt);
    }
    hide OnlyMoves;
  }

  /** So does every other step, and it reads nothing. */
  lemma EndMovesOne(derive: Deriver, s: State, d: nat, step: Step)
    requires d in s.deliveries
    requires step.Invoke? || step.Record? || step.Acknowledge? || step.Fault? || step.Crash?
    ensures var t := Stepped(derive, s, d, step);
            OnlyMoves(s, t, d) && t.deliveries[d].readAt == s.deliveries[d].readAt
    ensures !step.Invoke? ==> Stepped(derive, s, d, step).requests == s.requests
  {
    hide RequestOf, CallDraft, RecordOf, RecordAll, Insertable, Fresh, HasKey;
  }

  /** A step that ends in the tables, with the queue or nowhere needs to have seen nothing more. */
  lemma EndSees(derive: Deriver, start: State, actions: seq<Action>, s: State, d: nat, step: Step)
    requires d in s.deliveries
    requires step.Invoke? || step.Record? || step.Acknowledge? || step.Fault? || step.Crash?
    ensures var t := Stepped(derive, s, d, step);
            t == s || (d in t.deliveries && Seen(derive, start, actions, d, t.deliveries[d]))
  {
    hide RequestOf, CallDraft, RecordOf, RecordAll, Insertable, Fresh, SawJob, SawWindow, SawEntitlement,
         SeenToVersion, SeenToBinding, Authorised;
  }

  lemma StepSees(derive: Deriver, start: State, actions: seq<Action>, s: State, d: nat, step: Step)
    requires Following(derive, start, actions, s, d)
    ensures d in Stepped(derive, s, d, step).deliveries
    ensures Seen(derive, start, actions + [Advance(d, step)], d, Stepped(derive, s, d, step).deliveries[d])
  {
    hide Seen, StepLoad, StepCheckWindow, StepReadEntitlement, StepReadVersion, StepReadBinding,
         StepPreCheck, StepInvoke, StepRecord, Moved, Fresh, Run;
    StaysSeen(derive, start, actions, Advance(d, step), d, s.deliveries[d]);
    if step.Invoke? || step.Record? || step.Acknowledge? || step.Fault? || step.Crash? {
      EndMovesOne(derive, s, d, step);
    } else {
      ReadMovesOne(derive, s, d, step);
    }
    var pc := s.deliveries[d].pc;
    match step {
      case Load => if pc.Accepted? { LoadSees(derive, start, actions, s, d); }
      case CheckWindow(now) => if pc.Loaded? { WindowSees(derive, start, actions, s, d, now); }
      case ReadEntitlement => if pc.InWindow? { EntitlementSees(derive, start, actions, s, d); }
      case ReadVersion => if pc.Entitled? { VersionSees(derive, start, actions, s, d); }
      case ReadBinding => if pc.AtVersion? { BindingSees(derive, start, actions, s, d); }
      case PreCheck => if pc.Permitted? { PreCheckSees(derive, start, actions, s, d); }
      case _ => EndSees(derive, start, actions + [Advance(d, step)], s, d, step);
    }
  }

  // ----- every call of every run

  /** A call already made stays authorised, as long as its delivery has read nothing since. */
  lemma CallStaysAuthorised(
    derive: Deriver, start: State, actions: seq<Action>, a: Action, s: State, t: State, r: Request)
    requires CallAuthorised(derive, start, actions, s, r)
    requires r.delivery in t.deliveries
    requires t.deliveries[r.delivery].envelope == s.deliveries[r.delivery].envelope
    requires t.deliveries[r.delivery].readAt == s.deliveries[r.delivery].readAt
    ensures CallAuthorised(derive, start, actions + [a], t, r)
  {
    hide Authorised, RequestOf;
    var i, binding :|
      && Authorised(derive, start, actions, r.delivery, s.deliveries[r.delivery], i, binding)
      && r == RequestOf(derive, r.delivery, s.deliveries[r.delivery].envelope.correlationId, i, binding, r.reply);
    AuthorityStays(derive, start, actions, a, r.delivery, s.deliveries[r.delivery],
                   t.deliveries[r.delivery], i, binding);
  }

  /** A delivery that has called reads nothing more. */
  lemma CallerReadsNoMore(derive: Deriver, s: State, d: nat, step: Step)
    requires Reachable(derive, s) && d in s.deliveries && Sent(s, d)
    ensures var t := Stepped(derive, s, d, step);
            && d in t.deliveries && t.deliveries[d].readAt == s.deliveries[d].readAt
            && t.requests == s.requests
  {
    DeliveryFacts(derive, s, d);
    assert !BeforeCall(s.deliveries[d].pc);
    hide *;
    if step.Invoke? {
      NoSecondCall(derive, s, d, step);
    } else if step.Record? || step.Acknowledge? || step.Fault? || step.Crash? {
      EndMovesOne(derive, s, d, step);
      OnlyMovesKeeps(s, Stepped(derive, s, d, step), d);
    } else {
      ReadMovesOne(derive, s, d, step);
    }
  }

  lemma NoSecondCall(derive: Deriver, s: State, d: nat, step: Step)
    requires d in s.deliveries && !BeforeCall(s.deliveries[d].pc) && step.Invoke?
    ensures Stepped(derive, s, d, step) == s
  {
  }

  lemma OnlyMovesKeeps(s: State, t: State, d: nat)
    requires d in s.deliveries && OnlyMoves(s, t, d)
    ensures d in t.deliveries
  {
  }

  /** The call made now is authorised by what the delivery has seen. */
  lemma CallIsAuthorised(
    derive: Deriver, start: State, actions: seq<Action>, s: State, d: nat, startedAt: Time, reply: Reply)
    requires Following(derive, start, actions, s, d) && s.deliveries[d].pc.Cleared?
    ensures var a, t := Advance(d, Invoke(startedAt, reply)), StepInvoke(derive, s, d, startedAt, reply);
            && |t.requests| == |s.requests| + 1 && t.requests[..|s.requests|] == s.requests
            && CallAuthorised(derive, start, actions + [a], t, t.requests[|s.requests|])
  {
    hide Run, Authorised;
    var pc := s.deliveries[d].pc;
    var t := StepInvoke(derive, s, d, startedAt, reply);
    AuthorityStays(derive, start, actions, Advance(d, Invoke(startedAt, reply)), d, s.deliveries[d],
                   t.deliveries[d], pc.instruction, pc.binding);
    var r := t.requests[|s.requests|];
    assert r == RequestOf(derive, d, s.deliveries[d].envelope.correlationId, pc.instruction, pc.binding, r.reply);
  }

  ghost predicate Accounted(derive: Deriver, start: State, actions: seq<Action>, s: State)
  {
    && s.clock == |actions|
    && AllSeen(derive, start, actions, s)
    && AllCallsAuthorised(derive, start, actions, s)
  }

  /** Deliveries that do not move have still seen what they had. */
  lemma OthersSee(
    derive: Deriver, start: State, actions: seq<Action>, a: Action, s: State, t: State, d: nat)
    requires AllSeen(derive, start, actions, s) && d in t.deliveries
    requires forall x :: x in t.deliveries && x != d ==>
               x in s.deliveries && t.deliveries[x] == s.deliveries[x]
    requires Seen(derive, start, actions + [a], d, t.deliveries[d])
    ensures AllSeen(derive, start, actions + [a], t)
  {
    hide Seen;
    forall x | x in t.deliveries
      ensures Seen(derive, start, actions + [a], x, t.deliveries[x])
    {
      if x != d {
        StaysSeen(derive, start, actions, a, x, s.deliveries[x]);
      }
    }
  }

  /** Calls made earlier are still authorised when no caller has read since. */
  lemma CallsStayAuthorised(
    derive: Deriver, start: State, actions: seq<Action>, a: Action, s: State, t: State, n: nat)
    requires AllCallsAuthorised(derive, start, actions, s)
    requires n == |s.requests| <= |t.requests| && t.requests[..n] == s.requests
    requires forall i :: 0 <= i < n && s.requests[i].delivery in s.deliveries ==>
               && s.requests[i].delivery in t.deliveries
               && var x, y := s.deliveries[s.requests[i].delivery], t.deliveries[s.requests[i].delivery];
                  y.envelope == x.envelope && y.readAt == x.readAt
    ensures forall i :: 0 <= i < n ==> CallAuthorised(derive, start, actions + [a], t, t.requests[i])
  {
    forall i | 0 <= i < n
      ensures CallAuthorised(derive, start, actions + [a], t, t.requests[i])
    {
      var r := s.requests[i];
      assert t.requests[i] == t.requests[..n][i] == r;
      assert CallAuthorised(derive, start, actions, s, r);
      hide Authorised, RequestOf;
      CallStaysAuthorised(derive, start, actions, a, s, t, r);
    }
  }

  lemma ReceiveAccounted(derive: Deriver, start: State, actions: seq<Action>, s: State, d: nat, body: Body)
    requires s == Run(derive, start, actions) && Accounted(derive, start, actions, s)
    ensures Accounted(derive, start, actions + [Receive(d, body)], Do(derive, s, Receive(d, body)))
  {
    hide Run, FromBody, CallAuthorised, SawJob, SawWindow, SawEntitlement, SeenToVersion, SeenToBinding,
         Authorised;
    var a := Receive(d, body);
    var t := Do(derive, s, a);
    CallsStayAuthorised(derive, start, actions, a, s, t, |s.requests|);
    if d in s.deliveries {
      StaysSeen(derive, start, actions, a, d, s.deliveries[d]);
    }
    OthersSee(derive, start, actions, a, s, t, d);
  }

  /** Actions that concern no delivery. */
  lemma OutsideAccounted(derive: Deriver, start: State, actions: seq<Action>, s: State, a: Action, t: State)
    requires s == Run(derive, start, actions) && Accounted(derive, start, actions, s)
    requires t.deliveries == s.deliveries && t.requests == s.requests && t.clock == s.clock + 1
    ensures Accounted(derive, start, actions + [a], t)
  {
    hide Run, CallAuthorised, Seen;
    CallsStayAuthorised(derive, start, actions, a, s, t, |s.requests|);
    forall x | x in t.deliveries
      ensures Seen(derive, start, actions + [a], x, t.deliveries[x])
    {
      StaysSeen(derive, start, actions, a, x, s.deliveries[x]);
    }
  }

  /** What an advance does to the deliveries, as far as earlier calls are concerned. */
  lemma AdvanceKeepsCallers(derive: Deriver, s: State, d: nat, step: Step, i: nat)
    requires Reachable(derive, s) && d in s.deliveries
    requires i < |s.requests| && s.requests[i].delivery in s.deliveries
    ensures var t := Stepped(derive, s, d, step);
            && s.requests[i].delivery in t.deliveries
            && var x, y := s.deliveries[s.requests[i].delivery], t.deliveries[s.requests[i].delivery];
            y.envelope == x.envelope && y.readAt == x.readAt
  {
    hide Reachable, Stepped;
    StepMovesOne(derive, s, d, step);
    if s.requests[i].delivery == d {
      assert Sent(s, d);
      CallerReadsNoMore(derive, s, d, step);
    }
  }

  lemma StepMovesOne(derive: Deriver, s: State, d: nat, step: Step)
    requires d in s.deliveries
    ensures OnlyMoves(s, Stepped(derive, s, d, step), d)
    ensures !step.Invoke? ==> Stepped(derive, s, d, step).requests == s.requests
  {
    hide *;
    if step.Invoke? || step.Record? || step.Acknowledge? || step.Fault? || step.Crash? {
      EndMovesOne(derive, s, d, step);
    } else {
      ReadMovesOne(derive, s, d, step);
    }
  }

  lemma AdvanceAccounted(
    derive: Deriver, start: State, actions: seq<Action>, s: State, d: nat, step: Step)
    requires s == Run(derive, start, actions) && Accounted(derive, start, actions, s)
    requires Reachable(derive, s) && d in s.deliveries
    ensures var a := Advance(d, step); Accounted(derive, start, actions + [a], Do(derive, s, a))
  {
    hide Run, Reachable, Do, Stepped, Seen, CallAuthorised;
    var a := Advance(d, step);
    var t := Do(derive, s, a);
    DoAdvance(derive, s, d, step);
    StepMovesOne(derive, s, d, step);
    StepSees(derive, start, actions, s, d, step);
    OthersSee(derive, start, actions, a, s, t, d);
    forall i | 0 <= i < |s.requests| && s.requests[i].delivery in s.deliveries
      ensures && s.requests[i].delivery in t.deliveries
              && var x, y := s.deliveries[s.requests[i].delivery], t.deliveries[s.requests[i].delivery];
              y.envelope == x.envelope && y.readAt == x.readAt
    {
      AdvanceKeepsCallers(derive, s, d, step, i);
    }
    AdvanceCalls(derive, start, actions, s, d, step);
    CallsStayAuthorised(derive, start, actions, a, s, t, |s.requests|);
  }

  /** An advance adds at most one call, and that one is authorised. */
  lemma AdvanceCalls(derive: Deriver, start: State, actions: seq<Action>, s: State, d: nat, step: Step)
    requires d in s.deliveries && Following(derive, start, actions, s, d)
    ensures var a := Advance(d, step);
            var t, n := Do(derive, s, a), |s.requests|;
            && n <= |t.requests| <= n + 1 && t.requests[..n] == s.requests
            && (|t.requests| == n + 1 ==> CallAuthorised(derive, start, actions + [a], t, t.requests[n]))
  {
    hide *;
    DoAdvance(derive, s, d, step);
    if step.Invoke? {
      InvokeCalls(derive, start, actions, s, d, step.startedAt, step.reply);
    } else {
      StepMovesOne(derive, s, d, step);
      SameCalls(derive, s, d, step);
    }
  }

  lemma SameCalls(derive: Deriver, s: State, d: nat, step: Step)
    requires d in s.deliveries && Stepped(derive, s, d, step).requests == s.requests
    ensures Do(derive, s, Advance(d, step)).requests == s.requests
    ensures s.requests[..|s.requests|] == s.requests
  {
    hide Stepped;
  }

  lemma InvokeCalls(
    derive: Deriver, start: State, actions: seq<Action>, s: State, d: nat, startedAt: Time, reply: Reply)
    requires Following(derive, start, actions, s, d)
    ensures var a := Advance(d, Invoke(startedAt, reply));
            var t, n := Do(derive, s, a), |s.requests|;
            && n <= |t.requests| <= n + 1 && t.requests[..n] == s.requests
            && (|t.requests| == n + 1 ==> CallAuthorised(derive, start, actions + [a], t, t.requests[n]))
  {
    DoAdvance(derive, s, d, Invoke(startedAt, reply));
    hide Run, Seen, Do, Stepped, StepInvoke, CallAuthorised;
    if s.deliveries[d].pc.Cleared? {
      CallIsAuthorised(derive, start, actions, s, d, startedAt, reply);
      var t := StepInvoke(derive, s, d, startedAt, reply);
      TickKeepsAuthority(derive, start, actions + [Advance(d, Invoke(startedAt, reply))], t, s.clock + 1,
                         t.requests[|s.requests|]);
    }
  }

  lemma TickKeepsAuthority(
    derive: Deriver, start: State, actions: seq<Action>, s: State, clock: nat, r: Request)
    requires CallAuthorised(derive, start, actions, s, r)
    ensures CallAuthorised(derive, start, actions, s.(clock := clock), r)
  {
    hide Authorised;
  }

  lemma {:induction false} RunAccounted(derive: Deriver, start: State, actions: seq<Action>)
    requires Init(start)
    ensures Accounted(derive, start, actions, Run(derive, start, actions))
  {
    if actions == [] {
    } else {
      var before, a := actions[..|actions| - 1], actions[|actions| - 1];
      assert actions == before + [a];
      RunAccounted(derive, start, before);
      var s := Run(derive, start, before);
      assert Reachable(derive, s);
      hide Run, Accounted, Reachable;
      ActionAccounted(derive, start, before, s, a);
    }
  }

  lemma ActionAccounted(derive: Deriver, start: State, actions: seq<Action>, s: State, a: Action)
    requires s == Run(derive, start, actions) && Accounted(derive, start, actions, s)
    requires Reachable(derive, s)
    ensures Accounted(derive, start, actions + [a], Do(derive, s, a))
  {
    hide Run, Accounted, Reachable, Stepped, StepReceive;
    match a {
      case Receive(d, body) => ReceiveAccounted(derive, start, actions, s, d, body);
      case Advance(d, step) =>
        if d in s.deliveries {
          AdvanceAccounted(derive, start, actions, s, d, step);
        } else {
          OutsideAccounted(derive, start, actions, s, a, Do(derive, s, a));
        }
      case SetFacts(_) => OutsideAccounted(derive, start, actions, s, a, Do(derive, s, a));
      case AddJob(_, _) => OutsideAccounted(derive, start, actions, s, a, Do(derive, s, a));
    }
  }

  /**
   Every call of every run. Its delivery loaded the job and found the tenant active, the work in no
   blocked state, approval granted and the window open; after that it found the entitlement enabled,
   then the job's version registered, then the binding it called through, then (under a policy with a
   key) no record of the operation: five reads in this order, each of the state of its own moment. The
   call carried the loaded job's parameters to that binding's destination, under the message's journey.
   */
  lemma EveryCallWasAuthorised(derive: Deriver, start: State, actions: seq<Action>, r: Request)
    requires Init(start) && r in Run(derive, start, actions).requests
    ensures r.delivery in Run(derive, start, actions).deliveries
    ensures exists i, binding ::
      && Authorised(derive, start, actions, r.delivery,
                    Run(derive, start, actions).deliveries[r.delivery], i, binding)
      && r == RequestOf(derive, r.delivery,
                        Run(derive, start, actions).deliveries[r.delivery].envelope.correlationId, i, binding,
                        r.reply)
  {
    RunAccounted(derive, start, actions);
    hide Run, Init, Authorised, RequestOf;
    var s := Run(derive, start, actions);
    var i :| 0 <= i < |s.requests| && s.requests[i] == r;
    assert CallAuthorised(derive, start, actions, s, s.requests[i]);
  }

  /** In terms of the tables and facts alone: what held at the moment of each of the five reads. */
  lemma AuthorityMeans(
    derive: Deriver, start: State, actions: seq<Action>, d: nat, delivery: Delivery, i: Instruction,
    binding: Binding)
    requires Authorised(derive, start, actions, d, delivery, i, binding)
    ensures var at := delivery.readAt;
            at.load < at.window < at.entitlement < at.version < at.binding < at.check < |actions|
    ensures var s := At(derive, start, actions, delivery.readAt.load);
            && i.jobId == delivery.envelope.jobId && i.jobId in s.store.jobs
            && var job := s.store.jobs[i.jobId];
            && i.tenant == job.tenant && i.identity == job.identity && i.parameters == job.parameters
            && job.tenant in s.facts.tenantStatus && s.facts.tenantStatus[job.tenant] == "active"
            && job.workItem in s.facts.work
            && s.facts.work[job.workItem].state !in ["cancelled", "expired", "closed", "failed"]
            && s.facts.work[job.workItem].approvalState in ["approved", "auto_authorized", "consented"]
    ensures var facts := At(derive, start, actions, delivery.readAt.entitlement).facts;
            && (i.tenant, i.identity.catalogueId) in facts.entitled
            && facts.entitled[(i.tenant, i.identity.catalogueId)]
    ensures var facts := At(derive, start, actions, delivery.readAt.version).facts;
            && i.identity.catalogueId in facts.registered
            && facts.registered[i.identity.catalogueId] == i.identity.version
    ensures var facts := At(derive, start, actions, delivery.readAt.binding).facts;
            i.identity in facts.bindings && facts.bindings[i.identity] == binding
    ensures exists now :: && actions[delivery.readAt.window] == Advance(d, CheckWindow(now))
                          && now < i.expiresAt
    ensures binding.policy.DerivedKey? ==>
              !HasKey(At(derive, start, actions, delivery.readAt.check).store.executions, i.Key(derive))
  {
    hide At, HasKey;
    var now :| SeenToVersion(derive, start, actions, d, delivery, i, now);
    assert actions[delivery.readAt.window] == Advance(d, CheckWindow(now)) && now < i.expiresAt;
  }
}
