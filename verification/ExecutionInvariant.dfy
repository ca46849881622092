/** What every step of the execution protocol keeps, and that every run keeps it. */
module ExecutionInvariant {
  import opened Text
  import opened Uuids
  import opened Idempotency
  import opened Domain
  import opened AccessPolicy
  import opened ExecutionStore
  import opened ExecutionProtocol

  /** The delivery has called the connector. */
  ghost predicate Sent(s: State, d: nat)
  {
    exists i :: 0 <= i < |s.requests| && s.requests[i].delivery == d
  }

  /** The delivery's transaction committed. */
  ghost predicate Wrote(s: State, d: nat)
  {
    exists e :: e in s.commits && s.commits[e].delivery == d
  }

  /** The delivery called the connector, and this is the outcome the reply stands for. */
  ghost predicate Answered(s: State, d: nat, outcome: ExecutionOutcome)
  {
    exists i :: 0 <= i < |s.requests| && s.requests[i].delivery == d
                && OutcomeOf(s.requests[i].reply) == outcome
  }

  /** An outcome says whether the connector was called, and how the call went. */
  ghost predicate Told(s: State, d: nat, outcome: ExecutionOutcome)
  {
    if outcome.RefusedBeforeCall() then !Sent(s, d) else Answered(s, d, outcome)
  }

  /** The key of a job's operation. */
  function JobKey(derive: Deriver, job: JobRow): Key
  {
    derive(job.tenant, job.workItem, job.operation)
  }

  /** An instruction repeats the columns of its job row that nobody rewrites. */
  predicate Faithful(store: Store, i: Instruction, jobId: Uuid)
  {
    && i.jobId == jobId
    && jobId in store.jobs
    && var job := store.jobs[jobId];
    && i.workItem == job.workItem && i.operation == job.operation && i.tenant == job.tenant
    && i.identity == job.identity && i.parameters == job.parameters
    && ValidIdentity(i.identity)
  }

  predicate KeyTaken(derive: Deriver, store: Store, jobId: Uuid)
  {
    jobId in store.jobs && HasKey(store.executions, JobKey(derive, store.jobs[jobId]))
  }

  // ----- the invariant, delivery by delivery and table by table

  ghost predicate DeliveryOk(derive: Deriver, s: State, d: nat)
    requires d in s.deliveries
  {
    var jobId := s.deliveries[d].envelope.jobId;
    match s.deliveries[d].pc
    case Accepted => !Sent(s, d) && !Wrote(s, d)
    case Loaded(i) => !Sent(s, d) && !Wrote(s, d) && Faithful(s.store, i, jobId)
    case InWindow(i, _) => !Sent(s, d) && !Wrote(s, d) && Faithful(s.store, i, jobId)
    case Entitled(i, _) => !Sent(s, d) && !Wrote(s, d) && Faithful(s.store, i, jobId)
    case AtVersion(i, _) => !Sent(s, d) && !Wrote(s, d) && Faithful(s.store, i, jobId)
    case Permitted(i, _) => !Sent(s, d) && !Wrote(s, d) && Faithful(s.store, i, jobId)
    case Cleared(i, _) => !Sent(s, d) && !Wrote(s, d) && Faithful(s.store, i, jobId)
    case Recording(draft) =>
      && !Wrote(s, d)
      && Faithful(s.store, draft.instruction, jobId)
      && draft.verification == ClientAttested
      && Told(s, d, draft.outcome)
    case Written(e, outcome) =>
      && e in s.commits && s.commits[e].delivery == d
      && Told(s, d, outcome) && KeyTaken(derive, s.store, jobId)
    case Done(disposition, ending) =>
      (match ending
       case RejectedEnvelope => disposition == DeadLetter && !Sent(s, d) && !Wrote(s, d)
       case UnknownJob => disposition == DeadLetter && !Sent(s, d) && !Wrote(s, d)
       case Recorded(e) => disposition == Complete && e in s.commits && s.commits[e].delivery == d
       case SuppressedBeforeCall =>
         disposition == Complete && !Sent(s, d) && !Wrote(s, d) && KeyTaken(derive, s.store, jobId)
       case LostInsert => disposition == Complete && !Wrote(s, d) && KeyTaken(derive, s.store, jobId)
       case Faulted(called, committed) =>
         && disposition == Abandon
         && (Sent(s, d) <==> called) && (Wrote(s, d) <==> committed)
         && (committed ==> KeyTaken(derive, s.store, jobId)))
    case Crashed => true
  }

  ghost predicate DeliveriesOk(derive: Deriver, s: State)
  {
    forall d :: d in s.deliveries ==> DeliveryOk(derive, s, d)
  }

  /** One call per delivery, each for the operation its job names. */
  ghost predicate LogOk(derive: Deriver, s: State)
  {
    && (forall i, j :: 0 <= i < j < |s.requests| ==> s.requests[i].delivery != s.requests[j].delivery)
    && (forall i :: 0 <= i < |s.requests| ==> RequestOk(derive, s, s.requests[i]))
  }

  predicate RequestOk(derive: Deriver, s: State, r: Request)
  {
    && r.delivery in s.deliveries
    && var jobId := s.deliveries[r.delivery].envelope.jobId;
    && jobId in s.store.jobs
    && var job := s.store.jobs[jobId];
    && r.triple == JobKey(derive, job)
    && r.tenant == job.tenant && r.parameters == job.parameters
    && (r.idempotencyHeader.Some? ==> r.idempotencyHeader.value == r.triple)
  }

  /** A record and the three rows written with it. */
  ghost predicate CommitOk(derive: Deriver, s: State, e: Uuid)
    requires e in s.commits && e in s.store.executions
  {
    var c, r := s.commits[e], s.store.executions[e];
    && c.ids.execution == e
    && c.at < s.clock
    && r.jobId in s.store.jobs
    && var job := s.store.jobs[r.jobId];
    && r.key == JobKey(derive, job)
    && r.tenant == job.tenant && r.identity == job.identity && ValidIdentity(r.identity)
    && r.verification == ClientAttested
    && c.ids.audit in s.store.audit && s.store.audit[c.ids.audit] == AuditOf(r, job.workItem)
    && c.ids.message in s.store.outbox && s.store.outbox[c.ids.message] == OutboxOf(r)
    && job.result == Some(ResultOf(e, r))
    && c.delivery in s.deliveries
    && s.deliveries[c.delivery].envelope.jobId == r.jobId
    && Told(s, c.delivery, r.outcome)
  }

  ghost predicate CommitsOk(derive: Deriver, s: State)
  {
    && s.commits.Keys == s.store.executions.Keys
    && AllPaired(derive, s)
    && AllApart(s)
    && NoOrphans(s.store, s.commits)
  }

  ghost predicate AllPaired(derive: Deriver, s: State)
    requires s.commits.Keys == s.store.executions.Keys
  {
    forall e :: e in s.commits ==> CommitOk(derive, s, e)
  }

  ghost predicate AllApart(s: State)
  {
    forall e, f :: e in s.commits && f in s.commits && e != f ==> Apart(s, e, f)
  }

  /** Every audit row, announcement and job result belongs to some record. */
  ghost predicate NoOrphans(store: Store, commits: map<Uuid, Commit>)
  {
    && (forall a :: a in store.audit ==> exists e :: e in commits && commits[e].ids.audit == a)
    && (forall m :: m in store.outbox ==> exists e :: e in commits && commits[e].ids.message == m)
    && (forall j :: j in store.jobs && store.jobs[j].result.Some? ==> ResultOwned(store, j))
  }

  predicate ResultOwned(store: Store, j: Uuid)
    requires j in store.jobs && store.jobs[j].result.Some?
  {
    var e := store.jobs[j].result.value.executionId;
    e in store.executions && store.executions[e].jobId == j
  }

  /** Two records share neither key, nor delivery, nor audit row, nor announcement. */
  predicate Apart(s: State, e: Uuid, f: Uuid)
    requires e in s.commits && f in s.commits
  {
    && s.commits[e].delivery != s.commits[f].delivery
    && s.commits[e].ids.audit != s.commits[f].ids.audit
    && s.commits[e].ids.message != s.commits[f].ids.message
    && (e in s.store.executions && f in s.store.executions ==>
          s.store.executions[e].key != s.store.executions[f].key)
  }

  /** Every record of the key was committed after the delivery's pre-check. */
  predicate CheckedBefore(s: State, d: nat, key: Key)
    requires d in s.deliveries
  {
    && s.deliveries[d].readAt.check < s.clock
    && forall e :: e in s.commits && e in s.store.executions && s.store.executions[e].key == key ==>
         s.deliveries[d].readAt.check < s.commits[e].at
  }

  /** A delivery that sent its key, or is about to, checked before the key's first commit. */
  ghost predicate ChecksOk(derive: Deriver, s: State)
  {
    && (forall d :: d in s.deliveries && s.deliveries[d].pc.Cleared?
                    && s.deliveries[d].pc.binding.policy.DerivedKey? ==>
          CheckedBefore(s, d, s.deliveries[d].pc.instruction.Key(derive)))
    && (forall i :: 0 <= i < |s.requests| && s.requests[i].idempotencyHeader.Some?
                    && s.requests[i].delivery in s.deliveries ==>
          CheckedBefore(s, s.requests[i].delivery, s.requests[i].triple))
  }

  ghost predicate Inv(derive: Deriver, s: State)
  {
    && DeliveriesOk(derive, s)
    && LogOk(derive, s)
    && CommitsOk(derive, s)
    && ChecksOk(derive, s)
  }

  // ----- preservation

  lemma InitInv(derive: Deriver, s: State)
    requires Init(s)
    ensures Inv(derive, s)
  {
  }

  predicate SameInstruction(a: JobRow, b: JobRow)
  {
    a.(result := None) == b.(result := None)
  }

  /** What every step leaves alone: everything but one delivery, and rows are only ever added. */
  ghost predicate Grows(s: State, t: State, d: nat)
  {
    GrowsRows(s, t, d) && GrowsHistory(s, t, d)
  }

  predicate GrowsRows(s: State, t: State, d: nat)
  {
    && t.clock == s.clock + 1
    && (forall x :: x in s.deliveries ==> x in t.deliveries)
    && (forall x :: x in t.deliveries && x != d ==> x in s.deliveries && t.deliveries[x] == s.deliveries[x])
    && (d in s.deliveries ==> t.deliveries[d].envelope == s.deliveries[d].envelope)
    && (forall j :: j in s.store.jobs ==>
          j in t.store.jobs && SameInstruction(s.store.jobs[j], t.store.jobs[j]))
    && (forall e :: e in s.store.executions ==>
          e in t.store.executions && t.store.executions[e] == s.store.executions[e])
    && (forall e :: e in s.commits ==> e in t.commits && t.commits[e] == s.commits[e])
  }

  ghost predicate GrowsHistory(s: State, t: State, d: nat)
  {
    && (forall x :: x != d ==> Sent(t, x) == Sent(s, x))
    && (forall x :: x != d ==> Wrote(t, x) == Wrote(s, x))
    && (forall x, o :: Answered(s, x, o) ==> Answered(t, x, o))
  }

  lemma FrameKey(derive: Deriver, s: State, t: State, d: nat, jobId: Uuid)
    requires Grows(s, t, d) && KeyTaken(derive, s.store, jobId)
    ensures KeyTaken(derive, t.store, jobId)
  {
    var e :| e in s.store.executions && s.store.executions[e].key == JobKey(derive, s.store.jobs[jobId]);
    assert e in t.store.executions;
  }

  lemma FrameDelivery(derive: Deriver, s: State, t: State, d: nat, x: nat)
    requires Grows(s, t, d) && x in s.deliveries && x != d && DeliveryOk(derive, s, x)
    ensures DeliveryOk(derive, t, x)
  {
    var jobId := s.deliveries[x].envelope.jobId;
    if KeyTaken(derive, s.store, jobId) {
      FrameKey(derive, s, t, d, jobId);
    }
  }

  lemma FrameDeliveries(derive: Deriver, s: State, t: State, d: nat)
    requires Grows(s, t, d) && DeliveriesOk(derive, s)
    requires d in t.deliveries ==> DeliveryOk(derive, t, d)
    ensures DeliveriesOk(derive, t)
  {
    forall x | x in t.deliveries
      ensures DeliveryOk(derive, t, x)
    {
      if x != d {
        FrameDelivery(derive, s, t, d, x);
      }
    }
  }

  lemma FrameRequest(derive: Deriver, s: State, t: State, d: nat, r: Request)
    requires Grows(s, t, d) && RequestOk(derive, s, r)
    ensures RequestOk(derive, t, r)
  {
  }

  lemma FrameLog(derive: Deriver, s: State, t: State, d: nat)
    requires Grows(s, t, d) && LogOk(derive, s) && t.requests == s.requests
    ensures LogOk(derive, t)
  {
    forall i | 0 <= i < |t.requests|
      ensures RequestOk(derive, t, t.requests[i])
    {
      FrameRequest(derive, s, t, d, s.requests[i]);
    }
  }

  /** The tables are as they were, apart from jobs added without a result. */
  predicate SameTables(s: State, t: State)
  {
    && t.commits == s.commits
    && t.store.executions == s.store.executions
    && t.store.audit == s.store.audit && t.store.outbox == s.store.outbox
    && (forall j :: j in s.store.jobs ==> j in t.store.jobs && t.store.jobs[j] == s.store.jobs[j])
    && (forall j :: j in t.store.jobs && j !in s.store.jobs ==> t.store.jobs[j].result == None)
  }

  lemma FrameCommit(derive: Deriver, s: State, t: State, d: nat, e: Uuid)
    requires Grows(s, t, d) && SameTables(s, t)
    requires e in s.commits && e in s.store.executions && CommitOk(derive, s, e)
    requires Sent(t, d) == Sent(s, d) || s.commits[e].delivery != d
    ensures CommitOk(derive, t, e)
  {
  }

  lemma FrameOrphans(s: State, t: State)
    requires SameTables(s, t) && NoOrphans(s.store, s.commits)
    ensures NoOrphans(t.store, t.commits)
  {
    forall j | j in t.store.jobs && t.store.jobs[j].result.Some?
      ensures ResultOwned(t.store, j)
    {
      assert ResultOwned(s.store, j);
    }
  }

  lemma FramePaired(derive: Deriver, s: State, t: State, d: nat)
    requires Grows(s, t, d) && SameTables(s, t)
    requires s.commits.Keys == s.store.executions.Keys && AllPaired(derive, s)
    requires Sent(t, d) == Sent(s, d) || !Wrote(s, d)
    ensures AllPaired(derive, t)
  {
    forall e | e in t.commits
      ensures CommitOk(derive, t, e)
    {
      FrameCommit(derive, s, t, d, e);
    }
  }

  lemma FrameApart(s: State, t: State)
    requires SameTables(s, t) && AllApart(s)
    ensures AllApart(t)
  {
    forall e, f | e in t.commits && f in t.commits && e != f
      ensures Apart(t, e, f)
    {
      assert Apart(s, e, f);
    }
  }

  lemma FrameCommits(derive: Deriver, s: State, t: State, d: nat)
    requires Grows(s, t, d) && CommitsOk(derive, s) && SameTables(s, t)
    requires Sent(t, d) == Sent(s, d) || !Wrote(s, d)
    ensures CommitsOk(derive, t)
  {
    FramePaired(derive, s, t, d);
    FrameApart(s, t);
    FrameOrphans(s, t);
  }

  lemma FrameCheck(s: State, t: State, d: nat, x: nat, key: Key)
    requires Grows(s, t, d) && SameTables(s, t)
    requires x in s.deliveries && CheckedBefore(s, x, key)
    requires t.deliveries[x].readAt.check == s.deliveries[x].readAt.check
    ensures CheckedBefore(t, x, key)
  {
  }

  /** Steps that leave the log alone keep the check clause when the mover's own check holds. */
  lemma FrameChecks(derive: Deriver, s: State, t: State, d: nat)
    requires Grows(s, t, d) && SameTables(s, t) && ChecksOk(derive, s) && t.requests == s.requests
    requires LogOk(derive, s)
    requires d in s.deliveries ==>
               t.deliveries[d].readAt.check == s.deliveries[d].readAt.check || !Sent(s, d)
    requires d in t.deliveries && t.deliveries[d].pc.Cleared?
             && t.deliveries[d].pc.binding.policy.DerivedKey? ==>
               CheckedBefore(t, d, t.deliveries[d].pc.instruction.Key(derive))
    ensures ChecksOk(derive, t)
  {
    forall x | x in t.deliveries && t.deliveries[x].pc.Cleared?
               && t.deliveries[x].pc.binding.policy.DerivedKey?
      ensures CheckedBefore(t, x, t.deliveries[x].pc.instruction.Key(derive))
    {
      if x != d {
        FrameCheck(s, t, d, x, t.deliveries[x].pc.instruction.Key(derive));
      }
    }
    forall i | 0 <= i < |t.requests| && t.requests[i].idempotencyHeader.Some?
      ensures CheckedBefore(t, t.requests[i].delivery, t.requests[i].triple)
    {
      assert RequestOk(derive, s, s.requests[i]);
      assert Sent(s, s.requests[i].delivery);
      FrameCheck(s, t, d, s.requests[i].delivery, s.requests[i].triple);
    }
  }

  /** A step that neither calls out nor commits. */
  lemma QuietPreserves(derive: Deriver, s: State, t: State, d: nat)
    requires Inv(derive, s) && Grows(s, t, d) && SameTables(s, t) && t.requests == s.requests
    requires d in t.deliveries ==> DeliveryOk(derive, t, d)
    requires d in s.deliveries ==>
               t.deliveries[d].readAt.check == s.deliveries[d].readAt.check || !Sent(s, d)
    requires d in t.deliveries && t.deliveries[d].pc.Cleared?
             && t.deliveries[d].pc.binding.policy.DerivedKey? ==>
               CheckedBefore(t, d, t.deliveries[d].pc.instruction.Key(derive))
    ensures Inv(derive, t)
  {
    SameHistory(s, t);
    FrameDeliveries(derive, s, t, d);
    FrameLog(derive, s, t, d);
    FrameCommits(derive, s, t, d);
    FrameChecks(derive, s, t, d);
  }

  lemma SameHistory(s: State, t: State)
    requires t.requests == s.requests && t.commits == s.commits
    ensures forall d :: Sent(t, d) == Sent(s, d)
    ensures forall d :: Wrote(t, d) == Wrote(s, d)
    ensures forall d, o :: Answered(t, d, o) == Answered(s, d, o)
  {
  }

  lemma InvDelivery(derive: Deriver, s: State, d: nat)
    requires Inv(derive, s) && d in s.deliveries
    ensures DeliveryOk(derive, s, d)
  {
    hide DeliveryOk, LogOk, CommitsOk, ChecksOk;
  }

  /** An action of a known delivery is its step, and a tick. */
  lemma DoAdvance(derive: Deriver, s: State, d: nat, step: Step)
    requires d in s.deliveries
    ensures Do(derive, s, Advance(d, step)) == Stepped(derive, s, d, step).(clock := s.clock + 1)
    ensures var pc := s.deliveries[d].pc;
            match step
            case Record(ids, completedAt) =>
              Stepped(derive, s, d, step) ==
              if pc.Recording? && Fresh(s.store, ids) then StepRecord(derive, s, d, ids, completedAt)
              else s
            case Invoke(startedAt, reply) =>
              Stepped(derive, s, d, step) ==
              if pc.Cleared? then StepInvoke(derive, s, d, startedAt, reply) else s
            case _ => true
  {
    hide StepLoad, StepCheckWindow, StepReadEntitlement, StepReadVersion, StepReadBinding,
         StepPreCheck, StepInvoke, StepRecord, Moved, Fresh;
  }

  // ----- one lemma per kind of action

  lemma UnknownDelivery(derive: Deriver, s: State, d: nat)
    requires Inv(derive, s) && d !in s.deliveries
    ensures !Sent(s, d) && !Wrote(s, d)
  {
    forall i | 0 <= i < |s.requests|
      ensures s.requests[i].delivery != d
    {
      assert RequestOk(derive, s, s.requests[i]);
    }
    forall e | e in s.commits
      ensures s.commits[e].delivery != d
    {
      assert CommitOk(derive, s, e);
    }
  }

  lemma ArrivalPreserves(derive: Deriver, s: State, t: State, d: nat, delivery: Delivery)
    requires Inv(derive, s) && d !in s.deliveries
    requires t == s.(deliveries := s.deliveries[d := delivery], clock := s.clock + 1)
    requires delivery.pc == Accepted || delivery.pc == Done(DeadLetter, RejectedEnvelope)
    ensures Inv(derive, t)
  {
    hide Inv;
    SameHistory(s, t);
    UnknownDelivery(derive, s, d);
    QuietPreserves(derive, s, t, d);
  }

  lemma ReceivePreserves(derive: Deriver, s: State, d: nat, body: Body)
    requires Inv(derive, s)
    ensures Inv(derive, Do(derive, s, Receive(d, body)))
  {
    hide Inv;
    var t := Do(derive, s, Receive(d, body));
    if d in s.deliveries {
      StutterPreserves(derive, s);
    } else {
      ArrivalPreserves(derive, s, t, d, t.deliveries[d]);
    }
  }

  /** Only the clock advances. */
  lemma StutterPreserves(derive: Deriver, s: State)
    requires Inv(derive, s)
    ensures Inv(derive, s.(clock := s.clock + 1))
  {
    EnvironmentPreserves(derive, s, s.facts, s.store.jobs);
  }

  /** Another writer changes facts or adds jobs. */
  lemma EnvironmentPreserves(derive: Deriver, s: State, facts: Facts, jobs: map<Uuid, JobRow>)
    requires Inv(derive, s)
    requires forall j :: j in s.store.jobs ==> j in jobs && jobs[j] == s.store.jobs[j]
    requires forall j :: j in jobs && j !in s.store.jobs ==> jobs[j].result == None
    ensures Inv(derive, s.(facts := facts, store := s.store.(jobs := jobs), clock := s.clock + 1))
  {
    hide *;
    var t := s.(facts := facts, store := s.store.(jobs := jobs), clock := s.clock + 1);
    SameGrows(s, t, 0);
    if 0 in s.deliveries {
      InvDelivery(derive, s, 0);
      SameGrows(s, t, 1);
      FrameDelivery(derive, s, t, 1, 0);
      StillClear(derive, s, t, 0);
    }
    QuietPreserves(derive, s, t, 0);
  }

  lemma SameGrows(s: State, t: State, d: nat)
    requires t == s.(facts := t.facts, store := s.store.(jobs := t.store.jobs), clock := s.clock + 1)
    requires forall j :: j in s.store.jobs ==> j in t.store.jobs && t.store.jobs[j] == s.store.jobs[j]
    requires forall j :: j in t.store.jobs && j !in s.store.jobs ==> t.store.jobs[j].result == None
    ensures Grows(s, t, d) && SameTables(s, t)
  {
    SameHistory(s, t);
    hide Sent, Wrote, Answered;
  }

  /** A check that held still holds while nothing is committed. */
  lemma StillClear(derive: Deriver, s: State, t: State, d: nat)
    requires Inv(derive, s) && d in s.deliveries
    requires t.deliveries == s.deliveries && t.clock == s.clock + 1
    requires t.commits == s.commits && t.store.executions == s.store.executions
    ensures t.deliveries[d].pc.Cleared? && t.deliveries[d].pc.binding.policy.DerivedKey? ==>
              CheckedBefore(t, d, t.deliveries[d].pc.instruction.Key(derive))
  {
    hide DeliveriesOk, LogOk, CommitsOk;
  }

  /** A delivery moved, within its own clause, and nothing else happened. */
  ghost predicate MovedWell(derive: Deriver, s: State, t: State, d: nat)
  {
    && d in s.deliveries && d in t.deliveries
    && t == s.(deliveries := s.deliveries[d := t.deliveries[d]])
    && t.deliveries[d].envelope == s.deliveries[d].envelope
    && DeliveryOk(derive, t, d)
    && (t.deliveries[d].readAt.check == s.deliveries[d].readAt.check || !Sent(s, d))
    && (t.deliveries[d].pc.Cleared? ==>
          && t.deliveries[d].readAt.check == s.clock
          && (t.deliveries[d].pc.binding.policy.DerivedKey? ==>
                !HasKey(s.store.executions, t.deliveries[d].pc.instruction.Key(derive))))
  }

  lemma MovedWellPreserves(derive: Deriver, s: State, t: State, d: nat)
    requires Inv(derive, s) && MovedWell(derive, s, t, d)
    ensures Inv(derive, t.(clock := s.clock + 1))
  {
    hide *;
    var u := t.(clock := s.clock + 1);
    MovedWellGrows(derive, s, t, u, d);
    MovedWellDelivery(derive, s, t, u, d);
    MovedWellCheck(derive, s, t, u, d);
    QuietPreserves(derive, s, u, d);
  }

  lemma MovedWellGrows(derive: Deriver, s: State, t: State, u: State, d: nat)
    requires MovedWell(derive, s, t, d) && u == t.(clock := s.clock + 1)
    ensures Grows(s, u, d) && SameTables(s, u) && u.requests == s.requests && d in s.deliveries
    ensures d in u.deliveries
    ensures u.deliveries[d].readAt.check == s.deliveries[d].readAt.check || !Sent(s, d)
  {
    SameHistory(s, u);
    hide DeliveryOk, Sent, Wrote, Answered;
  }

  lemma MovedWellDelivery(derive: Deriver, s: State, t: State, u: State, d: nat)
    requires MovedWell(derive, s, t, d) && u == t.(clock := s.clock + 1)
    ensures d in u.deliveries && DeliveryOk(derive, u, d)
  {
    SameHistory(t, u);
    hide Sent, Wrote, Answered;
  }

  lemma MovedWellCheck(derive: Deriver, s: State, t: State, u: State, d: nat)
    requires Inv(derive, s) && MovedWell(derive, s, t, d) && u == t.(clock := s.clock + 1)
    ensures d in u.deliveries && u.deliveries[d].pc.Cleared?
            && u.deliveries[d].pc.binding.policy.DerivedKey? ==>
              CheckedBefore(u, d, u.deliveries[d].pc.instruction.Key(derive))
  {
    hide DeliveryOk, DeliveriesOk, LogOk, CommitsOk, ChecksOk;
  }

  lemma LoadMoves(derive: Deriver, s: State, d: nat)
    requires d in s.deliveries && s.deliveries[d].pc.Accepted? && DeliveryOk(derive, s, d)
    ensures MovedWell(derive, s, StepLoad(s, d), d)
  {
    SameHistory(s, StepLoad(s, d));
  }

  lemma WindowMoves(derive: Deriver, s: State, d: nat, now: Time)
    requires d in s.deliveries && s.deliveries[d].pc.Loaded? && DeliveryOk(derive, s, d)
    ensures MovedWell(derive, s, StepCheckWindow(s, d, now), d)
  {
    SameHistory(s, StepCheckWindow(s, d, now));
  }

  lemma EntitlementMoves(derive: Deriver, s: State, d: nat)
    requires d in s.deliveries && s.deliveries[d].pc.InWindow? && DeliveryOk(derive, s, d)
    ensures MovedWell(derive, s, StepReadEntitlement(s, d), d)
  {
    SameHistory(s, StepReadEntitlement(s, d));
  }

  lemma VersionMoves(derive: Deriver, s: State, d: nat)
    requires d in s.deliveries && s.deliveries[d].pc.Entitled? && DeliveryOk(derive, s, d)
    ensures MovedWell(derive, s, StepReadVersion(s, d), d)
  {
    SameHistory(s, StepReadVersion(s, d));
  }

  lemma BindingMoves(derive: Deriver, s: State, d: nat)
    requires d in s.deliveries && s.deliveries[d].pc.AtVersion? && DeliveryOk(derive, s, d)
    ensures MovedWell(derive, s, StepReadBinding(s, d), d)
  {
    SameHistory(s, StepReadBinding(s, d));
  }

  lemma PreCheckMoves(derive: Deriver, s: State, d: nat)
    requires d in s.deliveries && s.deliveries[d].pc.Permitted? && DeliveryOk(derive, s, d)
    ensures MovedWell(derive, s, StepPreCheck(derive, s, d), d)
  {
    SameHistory(s, StepPreCheck(derive, s, d));
  }

  lemma EndMoves(derive: Deriver, s: State, d: nat, pc: Pc)
    requires d in s.deliveries && DeliveryOk(derive, s, d) && Active(s.deliveries[d].pc)
    requires || pc == Crashed
             || pc == AbandonedFrom(s.deliveries[d].pc)
             || (s.deliveries[d].pc.Written?
                 && pc == Done(Complete, Recorded(s.deliveries[d].pc.execution)))
    ensures MovedWell(derive, s, Moved(s, d, pc), d)
  {
    SameHistory(s, Moved(s, d, pc));
  }

  /** Every step of a delivery except the call and the transaction. */
  lemma LocalStepPreserves(derive: Deriver, s: State, d: nat, step: Step)
    requires Inv(derive, s) && d in s.deliveries && !step.Invoke? && !step.Record?
    ensures Inv(derive, Do(derive, s, Advance(d, step)))
  {
    hide *;
    InvDelivery(derive, s, d);
    DoAdvance(derive, s, d, step);
    LocalStepMoves(derive, s, d, step);
    var t := Stepped(derive, s, d, step);
    if t == s {
      StutterPreserves(derive, s);
    } else {
      MovedWellPreserves(derive, s, t, d);
    }
  }

  lemma LocalStepMoves(derive: Deriver, s: State, d: nat, step: Step)
    requires d in s.deliveries && DeliveryOk(derive, s, d) && !step.Invoke? && !step.Record?
    ensures var t := Stepped(derive, s, d, step); t == s || MovedWell(derive, s, t, d)
  {
    hide DeliveryOk, MovedWell, StepLoad, StepCheckWindow, StepReadEntitlement, StepReadVersion,
         StepReadBinding, StepPreCheck, StepInvoke, StepRecord, Moved, Fresh;
    var pc := s.deliveries[d].pc;
    match step {
      case Load => if pc.Accepted? { LoadMoves(derive, s, d); }
      case CheckWindow(now) => if pc.Loaded? { WindowMoves(derive, s, d, now); }
      case ReadEntitlement => if pc.InWindow? { EntitlementMoves(derive, s, d); }
      case ReadVersion => if pc.Entitled? { VersionMoves(derive, s, d); }
      case ReadBinding => if pc.AtVersion? { BindingMoves(derive, s, d); }
      case PreCheck => if pc.Permitted? { PreCheckMoves(derive, s, d); }
      case Acknowledge =>
        if pc.Written? { EndMoves(derive, s, d, Done(Complete, Recorded(pc.execution))); }
      case Fault => if Active(pc) { EndMoves(derive, s, d, AbandonedFrom(pc)); }
      case Crash => if Active(pc) { EndMoves(derive, s, d, Crashed); }
    }
  }

  lemma InvokePreserves(derive: Deriver, s: State, d: nat, startedAt: Time, reply: Reply)
    requires Inv(derive, s) && d in s.deliveries
    ensures Inv(derive, Do(derive, s, Advance(d, Invoke(startedAt, reply))))
  {
    hide *;
    InvDelivery(derive, s, d);
    DoAdvance(derive, s, d, Invoke(startedAt, reply));
    if !s.deliveries[d].pc.Cleared? {
      StutterPreserves(derive, s);
    } else {
      var t := StepInvoke(derive, s, d, startedAt, reply).(clock := s.clock + 1);
      InvokeGrows(derive, s, t, d, startedAt, reply);
      CallPreserves(derive, s, t, d);
    }
  }

  lemma InvokeGrows(derive: Deriver, s: State, t: State, d: nat, startedAt: Time, reply: Reply)
    requires d in s.deliveries && s.deliveries[d].pc.Cleared? && DeliveryOk(derive, s, d)
    requires t == StepInvoke(derive, s, d, startedAt, reply).(clock := s.clock + 1)
    ensures Grows(s, t, d) && SameTables(s, t) && Called(derive, s, t, d) && DeliveryOk(derive, t, d)
  {
    SentAfterInvoke(s, t, t.requests[|s.requests|]);
    assert forall x :: Wrote(t, x) == Wrote(s, x);
    assert GrowsHistory(s, t, d);
    hide Sent, Wrote, Answered, GrowsHistory;
  }

  lemma CallPreserves(derive: Deriver, s: State, t: State, d: nat)
    requires Inv(derive, s) && d in s.deliveries && DeliveryOk(derive, s, d)
    requires Grows(s, t, d) && SameTables(s, t) && Called(derive, s, t, d) && DeliveryOk(derive, t, d)
    ensures Inv(derive, t)
  {
    assert !Wrote(s, d);
    hide DeliveryOk, DeliveriesOk, LogOk, CommitsOk, ChecksOk, Grows, SameTables, Wrote, Sent;
    FrameDeliveries(derive, s, t, d);
    InvokeLog(derive, s, t, d);
    FrameCommits(derive, s, t, d);
    InvokeChecks(derive, s, t, d);
  }

  /** The call adds one request, by a delivery that had made none. */
  ghost predicate Called(derive: Deriver, s: State, t: State, d: nat)
  {
    && d in s.deliveries && s.deliveries[d].pc.Cleared? && d in t.deliveries
    && |t.requests| == |s.requests| + 1
    && t.requests ==
         s.requests + [RequestOf(derive, d, s.deliveries[d].envelope.correlationId,
                                 s.deliveries[d].pc.instruction, s.deliveries[d].pc.binding,
                                 t.requests[|s.requests|].reply)]
    && t.deliveries[d].readAt == s.deliveries[d].readAt
    && t.deliveries[d].pc.Recording?
  }

  lemma SentAfterInvoke(s: State, t: State, r: Request)
    requires t.requests == s.requests + [r]
    ensures forall d :: Sent(t, d) <==> Sent(s, d) || d == r.delivery
    ensures forall d, o :: Answered(s, d, o) ==> Answered(t, d, o)
    ensures Answered(t, r.delivery, OutcomeOf(r.reply))
  {
    assert t.requests[|s.requests|] == r;
    assert forall i :: 0 <= i < |s.requests| ==> t.requests[i] == s.requests[i];
  }

  lemma InvokeLog(derive: Deriver, s: State, t: State, d: nat)
    requires LogOk(derive, s) && Grows(s, t, d) && Called(derive, s, t, d)
    requires DeliveryOk(derive, s, d)
    ensures LogOk(derive, t)
  {
    forall i | 0 <= i < |t.requests|
      ensures RequestOk(derive, t, t.requests[i])
    {
      if i < |s.requests| {
        FrameRequest(derive, s, t, d, s.requests[i]);
      }
    }
  }

  lemma InvokeChecks(derive: Deriver, s: State, t: State, d: nat)
    requires LogOk(derive, s) && ChecksOk(derive, s) && Grows(s, t, d) && SameTables(s, t)
    requires Called(derive, s, t, d)
    ensures ChecksOk(derive, t)
  {
    forall x | x in t.deliveries && t.deliveries[x].pc.Cleared?
               && t.deliveries[x].pc.binding.policy.DerivedKey?
      ensures CheckedBefore(t, x, t.deliveries[x].pc.instruction.Key(derive))
    {
      FrameCheck(s, t, d, x, t.deliveries[x].pc.instruction.Key(derive));
    }
    forall i | 0 <= i < |t.requests| && t.requests[i].idempotencyHeader.Some?
      ensures CheckedBefore(t, t.requests[i].delivery, t.requests[i].triple)
    {
      if i < |s.requests| {
        assert RequestOk(derive, s, s.requests[i]);
      }
      FrameCheck(s, t, d, t.requests[i].delivery, t.requests[i].triple);
    }
  }

  // ----- the transaction

  lemma RecordPreserves(derive: Deriver, s: State, d: nat, ids: Ids, completedAt: Time)
    requires Inv(derive, s) && d in s.deliveries
    ensures Inv(derive, Do(derive, s, Advance(d, Record(ids, completedAt))))
  {
    hide *;
    InvDelivery(derive, s, d);
    DoAdvance(derive, s, d, Record(ids, completedAt));
    if !s.deliveries[d].pc.Recording? || !Fresh(s.store, ids) {
      StutterPreserves(derive, s);
    } else {
      var t := StepRecord(derive, s, d, ids, completedAt);
      var record := RecordOf(derive, s.deliveries[d].pc.draft, s.deliveries[d].envelope.correlationId,
                             completedAt);
      RecordCompletedAt(derive, s.deliveries[d].pc.draft, s.deliveries[d].envelope.correlationId,
                        completedAt);
      if Insertable(s.store.executions, ids.execution, record) {
        WinnerCommits(derive, s, d, ids, record);
        CommitPreserves(derive, s, t.(clock := s.clock + 1), d, ids, record);
      } else {
        LoserMoves(derive, s, d, ids, completedAt);
        MovedWellPreserves(derive, s, t, d);
      }
    }
  }

  lemma RecordCompletedAt(derive: Deriver, draft: Draft, correlationId: string, completedAt: Time)
    ensures RecordOf(derive, draft, correlationId, completedAt).completedAt == completedAt
  {
  }

  lemma WinnerCommits(derive: Deriver, s: State, d: nat, ids: Ids, record: ExecutionRecord)
    requires d in s.deliveries && s.deliveries[d].pc.Recording? && Fresh(s.store, ids)
    requires record == RecordOf(derive, s.deliveries[d].pc.draft,
                                s.deliveries[d].envelope.correlationId, record.completedAt)
    requires Insertable(s.store.executions, ids.execution, record)
    ensures CommittedStep(derive, s,
              StepRecord(derive, s, d, ids, record.completedAt).(clock := s.clock + 1), d, ids, record)
  {
  }

  lemma LoserMoves(derive: Deriver, s: State, d: nat, ids: Ids, completedAt: Time)
    requires d in s.deliveries && s.deliveries[d].pc.Recording? && DeliveryOk(derive, s, d)
    requires Fresh(s.store, ids)
    requires !Insertable(s.store.executions, ids.execution,
               RecordOf(derive, s.deliveries[d].pc.draft, s.deliveries[d].envelope.correlationId,
                        completedAt))
    ensures MovedWell(derive, s, StepRecord(derive, s, d, ids, completedAt), d)
  {
    var draft, envelope := s.deliveries[d].pc.draft, s.deliveries[d].envelope;
    OnlyDuplicateKey(derive, s.store, draft, envelope, ids, completedAt);
    SameHistory(s, StepRecord(derive, s, d, ids, completedAt));
  }

  /**
   No record the executor builds, under an unused surrogate key, can break a constraint other than
   the unique key: reading "integrity error" as "duplicate" loses nothing.
   */
  lemma OnlyDuplicateKey(
    derive: Deriver, store: Store, draft: Draft, envelope: Envelope, ids: Ids, completedAt: Time)
    requires Faithful(store, draft.instruction, envelope.jobId) && draft.verification == ClientAttested
    requires Fresh(store, ids)
    ensures var record := RecordOf(derive, draft, envelope.correlationId, completedAt);
            Insertable(store.executions, ids.execution, record) <==>
            !KeyTaken(derive, store, envelope.jobId)
  {
  }

  /** What the committed transaction leaves. */
  ghost predicate CommittedStep(
    derive: Deriver, s: State, t: State, d: nat, ids: Ids, record: ExecutionRecord)
  {
    && d in s.deliveries && s.deliveries[d].pc.Recording?
    && var draft := s.deliveries[d].pc.draft;
    && record == RecordOf(derive, draft, s.deliveries[d].envelope.correlationId, record.completedAt)
    && Fresh(s.store, ids) && Insertable(s.store.executions, ids.execution, record)
    && t == s.(deliveries := s.deliveries[d := s.deliveries[d].(pc := Written(ids.execution, draft.outcome))],
               store := RecordAll(s.store, ids, record, draft.instruction.workItem),
               commits := s.commits[ids.execution := Commit(d, ids, s.clock)],
               clock := s.clock + 1)
  }

  lemma CommitPreserves(
    derive: Deriver, s: State, t: State, d: nat, ids: Ids, record: ExecutionRecord)
    requires Inv(derive, s) && CommittedStep(derive, s, t, d, ids, record)
    ensures Inv(derive, t)
  {
    assert DeliveryOk(derive, s, d);
    hide DeliveryOk, DeliveriesOk, LogOk, CommittedStep, AllPaired, AllApart, NoOrphans, ChecksOk, Grows;
    CommitGrows(derive, s, t, d, ids, record);
    FrameDeliveries(derive, s, t, d);
    CommitLog(derive, s, t, d, ids, record);
    CommitRows(derive, s, t, d, ids, record);
    CommitChecks(derive, s, t, d, ids, record);
  }

  lemma CommitLog(
    derive: Deriver, s: State, t: State, d: nat, ids: Ids, record: ExecutionRecord)
    requires LogOk(derive, s) && CommittedStep(derive, s, t, d, ids, record) && Grows(s, t, d)
    ensures LogOk(derive, t)
  {
    hide LogOk, Grows;
    FrameLog(derive, s, t, d);
  }

  lemma WroteAfterCommit(s: State, t: State, e: Uuid, c: Commit)
    requires e !in s.commits && t.commits == s.commits[e := c]
    ensures forall x :: Wrote(t, x) <==> Wrote(s, x) || x == c.delivery
  {
    forall x
      ensures Wrote(t, x) <==> Wrote(s, x) || x == c.delivery
    {
      if Wrote(s, x) {
        var f :| f in s.commits && s.commits[f].delivery == x;
        assert f in t.commits && t.commits[f].delivery == x;
      }
      if x == c.delivery {
        assert e in t.commits && t.commits[e].delivery == x;
      }
    }
  }

  lemma CommitGrows(
    derive: Deriver, s: State, t: State, d: nat, ids: Ids, record: ExecutionRecord)
    requires CommittedStep(derive, s, t, d, ids, record)
    requires s.commits.Keys == s.store.executions.Keys && DeliveryOk(derive, s, d)
    ensures Grows(s, t, d)
    ensures forall x :: Sent(t, x) == Sent(s, x)
    ensures forall x, o :: Answered(t, x, o) == Answered(s, x, o)
    ensures DeliveryOk(derive, t, d)
  {
    assert ids.execution !in s.commits;
    WroteAfterCommit(s, t, ids.execution, Commit(d, ids, s.clock));
    CommitGrowsRows(derive, s, t, d, ids, record);
    CommitTakesKey(derive, s, t, d, ids, record);
    hide Wrote, Sent, Answered, RecordAll, Insertable, RecordOf, GrowsRows, KeyTaken;
  }

  /** The key of the job that was recorded is taken. */
  lemma CommitTakesKey(
    derive: Deriver, s: State, t: State, d: nat, ids: Ids, record: ExecutionRecord)
    requires CommittedStep(derive, s, t, d, ids, record) && DeliveryOk(derive, s, d)
    ensures KeyTaken(derive, t.store, s.deliveries[d].envelope.jobId)
  {
    JobsAfterCommit(s.store, ids, record, s.deliveries[d].pc.draft.instruction.workItem);
    hide Insertable, Told, Wrote;
    assert ids.execution in t.store.executions && t.store.executions[ids.execution] == record;
  }

  lemma CommitGrowsRows(
    derive: Deriver, s: State, t: State, d: nat, ids: Ids, record: ExecutionRecord)
    requires CommittedStep(derive, s, t, d, ids, record)
    requires s.commits.Keys == s.store.executions.Keys
    ensures GrowsRows(s, t, d)
  {
    JobsAfterCommit(s.store, ids, record, s.deliveries[d].pc.draft.instruction.workItem);
    hide RecordAll, Insertable, RecordOf;
  }

  lemma JobsAfterCommit(store: Store, ids: Ids, record: ExecutionRecord, workItem: Uuid)
    requires Fresh(store, ids) && Insertable(store.executions, ids.execution, record)
    ensures var after := RecordAll(store, ids, record, workItem);
            && after.executions == store.executions[ids.execution := record]
            && after.audit == store.audit[ids.audit := AuditOf(record, workItem)]
            && after.outbox == store.outbox[ids.message := OutboxOf(record)]
            && after.jobs.Keys == store.jobs.Keys
            && forall j :: j in store.jobs ==>
                 && SameInstruction(store.jobs[j], after.jobs[j])
                 && after.jobs[j].result ==
                    if j == record.jobId then Some(ResultOf(ids.execution, record))
                    else store.jobs[j].result
  {
  }

  /** The job of an existing record is not the job being recorded: its key would be taken. */
  lemma OtherJob(derive: Deriver, s: State, d: nat, record: ExecutionRecord, e: Uuid)
    requires d in s.deliveries && s.deliveries[d].pc.Recording? && DeliveryOk(derive, s, d)
    requires record == RecordOf(derive, s.deliveries[d].pc.draft,
                                s.deliveries[d].envelope.correlationId, record.completedAt)
    requires !HasKey(s.store.executions, record.key)
    requires e in s.commits && e in s.store.executions && CommitOk(derive, s, e)
    ensures s.store.executions[e].jobId != record.jobId
    ensures s.store.executions[e].key != record.key
  {
  }

  lemma CommitRows(
    derive: Deriver, s: State, t: State, d: nat, ids: Ids, record: ExecutionRecord)
    requires CommitsOk(derive, s) && CommittedStep(derive, s, t, d, ids, record)
    requires DeliveryOk(derive, s, d)
    requires Grows(s, t, d) && (forall x :: Sent(t, x) == Sent(s, x))
    ensures CommitsOk(derive, t)
  {
    assert t.commits.Keys == t.store.executions.Keys;
    hide DeliveryOk, CommittedStep, Grows, AllPaired, AllApart, NoOrphans;
    CommitPairs(derive, s, t, d, ids, record);
    CommitApart(derive, s, t, d, ids, record);
    CommitOrphans(derive, s, t, d, ids, record);
  }

  lemma CommitPairs(
    derive: Deriver, s: State, t: State, d: nat, ids: Ids, record: ExecutionRecord)
    requires s.commits.Keys == s.store.executions.Keys && t.commits.Keys == t.store.executions.Keys
    requires AllPaired(derive, s) && CommittedStep(derive, s, t, d, ids, record)
    requires DeliveryOk(derive, s, d)
    requires Grows(s, t, d) && (forall x :: Sent(t, x) == Sent(s, x))
    ensures AllPaired(derive, t)
  {
    NewRow(derive, s, t, d, ids, record);
    forall e | e in t.commits
      ensures CommitOk(derive, t, e)
    {
      if e != ids.execution {
        assert CommitOk(derive, s, e);
        hide CommitOk, DeliveryOk, Grows;
        OtherJob(derive, s, d, record, e);
        OldRow(derive, s, t, d, ids, record, e);
      }
    }
  }

  lemma NewRow(
    derive: Deriver, s: State, t: State, d: nat, ids: Ids, record: ExecutionRecord)
    requires CommittedStep(derive, s, t, d, ids, record) && DeliveryOk(derive, s, d)
    requires Sent(t, d) == Sent(s, d) && (forall o :: Answered(s, d, o) ==> Answered(t, d, o))
    ensures ids.execution in t.commits && CommitOk(derive, t, ids.execution)
  {
  }

  lemma CommitApart(
    derive: Deriver, s: State, t: State, d: nat, ids: Ids, record: ExecutionRecord)
    requires s.commits.Keys == s.store.executions.Keys
    requires AllPaired(derive, s) && AllApart(s) && CommittedStep(derive, s, t, d, ids, record)
    requires DeliveryOk(derive, s, d)
    ensures AllApart(t)
  {
    forall e | e in s.commits
      ensures e != ids.execution
      ensures Apart(t, e, ids.execution) && Apart(t, ids.execution, e)
    {
      NewApart(derive, s, t, d, ids, record, e);
    }
    hide DeliveryOk, AllPaired;
    forall e, f | e in t.commits && f in t.commits && e != f
      ensures Apart(t, e, f)
    {
      if e != ids.execution && f != ids.execution {
        assert Apart(s, e, f);
      }
    }
  }

  lemma NewApart(
    derive: Deriver, s: State, t: State, d: nat, ids: Ids, record: ExecutionRecord, e: Uuid)
    requires s.commits.Keys == s.store.executions.Keys
    requires CommittedStep(derive, s, t, d, ids, record) && DeliveryOk(derive, s, d)
    requires e in s.commits && CommitOk(derive, s, e)
    ensures e != ids.execution && ids.execution in t.commits && e in t.commits
    ensures Apart(t, e, ids.execution) && Apart(t, ids.execution, e)
  {
    OtherJob(derive, s, d, record, e);
    assert !Wrote(s, d);
  }

  lemma OldRow(
    derive: Deriver, s: State, t: State, d: nat, ids: Ids, record: ExecutionRecord, e: Uuid)
    requires CommittedStep(derive, s, t, d, ids, record)
    requires e in s.commits && e in s.store.executions && CommitOk(derive, s, e)
    requires e != ids.execution && s.store.executions[e].jobId != record.jobId
    requires Grows(s, t, d) && (forall x :: Sent(t, x) == Sent(s, x))
    ensures CommitOk(derive, t, e)
  {
  }

  /** With one more commit, and the two rows it names, every audit row and announcement still has its record. */
  lemma CoverGrows(s: State, t: State, added: Uuid, c: Commit, audit: AuditRow, message: OutboxRow)
    requires NoOrphans(s.store, s.commits) && added !in s.commits && t.commits == s.commits[added := c]
    requires t.store.audit == s.store.audit[c.ids.audit := audit]
    requires t.store.outbox == s.store.outbox[c.ids.message := message]
    ensures forall a :: a in t.store.audit ==> exists e :: e in t.commits && t.commits[e].ids.audit == a
    ensures forall m :: m in t.store.outbox ==> exists e :: e in t.commits && t.commits[e].ids.message == m
  {
    hide ResultOwned;
    assert added in t.commits && t.commits[added] == c;
    assert forall e :: e in s.commits ==> e in t.commits && t.commits[e] == s.commits[e];
    forall a | a in t.store.audit
      ensures exists e :: e in t.commits && t.commits[e].ids.audit == a
    {
      if a != c.ids.audit {
        var e :| e in s.commits && s.commits[e].ids.audit == a;
        assert t.commits[e].ids.audit == a;
      }
    }
    forall m | m in t.store.outbox
      ensures exists e :: e in t.commits && t.commits[e].ids.message == m
    {
      if m != c.ids.message {
        var e :| e in s.commits && s.commits[e].ids.message == m;
        assert t.commits[e].ids.message == m;
      }
    }
  }

  lemma CommitOwnsResults(
    derive: Deriver, s: State, t: State, d: nat, ids: Ids, record: ExecutionRecord)
    requires CommittedStep(derive, s, t, d, ids, record) && NoOrphans(s.store, s.commits)
    ensures forall j :: j in t.store.jobs && t.store.jobs[j].result.Some? ==> ResultOwned(t.store, j)
  {
    JobsAfterCommit(s.store, ids, record, s.deliveries[d].pc.draft.instruction.workItem);
    hide RecordAll, RecordOf, Insertable, AuditOf, OutboxOf;
    forall j | j in t.store.jobs && t.store.jobs[j].result.Some?
      ensures ResultOwned(t.store, j)
    {
      if j != record.jobId {
        assert ResultOwned(s.store, j);
      }
    }
  }

  lemma CommitOrphans(
    derive: Deriver, s: State, t: State, d: nat, ids: Ids, record: ExecutionRecord)
    requires CommittedStep(derive, s, t, d, ids, record) && NoOrphans(s.store, s.commits)
    requires s.commits.Keys == s.store.executions.Keys
    ensures NoOrphans(t.store, t.commits)
  {
    JobsAfterCommit(s.store, ids, record, s.deliveries[d].pc.draft.instruction.workItem);
    CommitOwnsResults(derive, s, t, d, ids, record);
    hide RecordAll, RecordOf, Insertable, AuditOf, OutboxOf, ResultOwned, NoOrphans;
    CoverGrows(s, t, ids.execution, Commit(d, ids, s.clock),
               AuditOf(record, s.deliveries[d].pc.draft.instruction.workItem), OutboxOf(record));
    NoOrphansOf(t);
  }

  lemma NoOrphansOf(t: State)
    requires forall a :: a in t.store.audit ==> exists e :: e in t.commits && t.commits[e].ids.audit == a
    requires forall m :: m in t.store.outbox ==> exists e :: e in t.commits && t.commits[e].ids.message == m
    requires forall j :: j in t.store.jobs && t.store.jobs[j].result.Some? ==> ResultOwned(t.store, j)
    ensures NoOrphans(t.store, t.commits)
  {
  }

  lemma CommitChecks(
    derive: Deriver, s: State, t: State, d: nat, ids: Ids, record: ExecutionRecord)
    requires LogOk(derive, s) && ChecksOk(derive, s)
    requires CommittedStep(derive, s, t, d, ids, record)
    ensures ChecksOk(derive, t)
  {
    forall i | 0 <= i < |t.requests| && t.requests[i].idempotencyHeader.Some?
      ensures CheckedBefore(t, t.requests[i].delivery, t.requests[i].triple)
    {
      assert RequestOk(derive, s, s.requests[i]);
    }
  }

  // ----- every step, every run

  lemma StepPreserves(derive: Deriver, s: State, a: Action)
    requires Inv(derive, s)
    ensures Inv(derive, Do(derive, s, a))
  {
    hide Inv;
    match a
    case Receive(d, body) => ReceivePreserves(derive, s, d, body);
    case SetFacts(facts) => EnvironmentPreserves(derive, s, facts, s.store.jobs);
    case AddJob(jobId, row) =>
      if jobId in s.store.jobs || row.result.Some? {
        StutterPreserves(derive, s);
      } else {
        EnvironmentPreserves(derive, s, s.facts, s.store.jobs[jobId := row]);
      }
    case Advance(d, step) =>
      if d !in s.deliveries {
        StutterPreserves(derive, s);
      } else if step.Invoke? {
        InvokePreserves(derive, s, d, step.startedAt, step.reply);
      } else if step.Record? {
        RecordPreserves(derive, s, d, step.ids, step.completedAt);
      } else {
        LocalStepPreserves(derive, s, d, step);
      }
  }

  lemma {:induction false} RunInv(derive: Deriver, s: State, actions: seq<Action>)
    requires Inv(derive, s)
    ensures Inv(derive, Run(derive, s, actions))
  {
    hide Inv;
    if actions == [] {
    } else {
      var before := actions[..|actions| - 1];
      RunInv(derive, s, before);
      StepPreserves(derive, Run(derive, s, before), actions[|actions| - 1]);
    }
  }
}
