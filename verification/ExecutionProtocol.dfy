/**
 The execution leg as a transition system.

 Any number of deliveries run at once, on any number of replicas. Each advances one read, call or
 transaction at a time; between any two of its steps other deliveries advance, the environment
 rewrites the facts, exceptions are raised and processes die. An action that is not possible in a
 state leaves everything but the clock as it was, so every sequence of actions is a run.

 `clock`, `readAt`, `commits` and `requests` are history: no step's choice depends on them.
 */
module ExecutionProtocol {
  import opened Text
  import opened Uuids
  import opened Idempotency
  import opened Domain
  import opened AccessPolicy
  import opened ExecutionStore

  datatype Disposition = Complete | DeadLetter | Abandon

  /** How a delivery ended; an escaping exception, by whether it struck after the call and the commit. */
  datatype Ending =
    | RejectedEnvelope
    | UnknownJob
    | Recorded(execution: Uuid)
    | SuppressedBeforeCall
    | LostInsert
    | Faulted(called: bool, committed: bool)

  /** What the connector call came to: a result, or one of the two errors the leg handles. */
  datatype Reply =
    | Replied(succeeded: bool, externalReference: Option<string>, payload: string)
    | HandledError

  /** An attempt that is about to be written. */
  datatype Draft = Draft(
    instruction: Instruction,
    connectorId: string,
    outcome: ExecutionOutcome,
    verification: VerificationOutcome,
    attemptedAt: Time,
    externalReference: Option<string>,
    normalizedResult: Option<string>)

  /** Where a delivery is, with the local variables live there. */
  datatype Pc =
    | Accepted
    | Loaded(instruction: Instruction)
    | InWindow(instruction: Instruction, now: Time)
    | Entitled(instruction: Instruction, now: Time)
    | AtVersion(instruction: Instruction, now: Time)
    | Permitted(instruction: Instruction, binding: Binding)
    | Cleared(instruction: Instruction, binding: Binding)
    | Recording(draft: Draft)
    | Written(execution: Uuid, outcome: ExecutionOutcome)
    | Done(disposition: Disposition, ending: Ending)
    | Crashed

  /** When the delivery made each of its reads. */
  datatype ReadTimes = ReadTimes(
    load: nat, window: nat, entitlement: nat, version: nat, binding: nat, check: nat)

  datatype Delivery = Delivery(envelope: Envelope, pc: Pc, readAt: ReadTimes)

  /** One call to a connector: what was sent, for which operation, and what came back. */
  datatype Request = Request(
    delivery: nat,
    tenant: Uuid,
    destination: string,
    parameters: string,
    idempotencyHeader: Option<Key>,
    correlationHeader: string,
    triple: Key,
    reply: Reply)

  /** Which delivery wrote an execution record, with which other rows, and when. */
  datatype Commit = Commit(delivery: nat, ids: Ids, at: nat)

  datatype State = State(
    store: Store,
    facts: Facts,
    deliveries: map<nat, Delivery>,
    requests: seq<Request>,
    commits: map<Uuid, Commit>,
    clock: nat)

  /** What one delivery does next. */
  datatype Step =
    | Load
    | CheckWindow(now: Time)
    | ReadEntitlement
    | ReadVersion
    | ReadBinding
    | PreCheck
    | Invoke(startedAt: Time, reply: Reply)
    | Record(ids: Ids, completedAt: Time)
    | Acknowledge
    | Fault
    | Crash

  datatype Action =
    | Receive(d: nat, body: Body)
    | Advance(d: nat, step: Step)
    | SetFacts(facts: Facts)
    | AddJob(jobId: Uuid, row: JobRow)

  const NO_READS := ReadTimes(0, 0, 0, 0, 0, 0)

  // ----- the local computations

  /** `JobRepository.load`: the job joined with its work item and its organisation. */
  function LoadInstruction(store: Store, facts: Facts, jobId: Uuid): Option<Instruction>
  {
    if jobId !in store.jobs then None
    else
      var job := store.jobs[jobId];
      if job.workItem !in facts.work || job.tenant !in facts.tenantStatus then None
      else
        var work := facts.work[job.workItem];
        Some(Instruction(
          jobId, job.workItem, job.operation, job.tenant, job.identity, job.parameters,
          if work.expiresAt.Some? then work.expiresAt.value else job.expiresAt,
          work.state, work.approvalState, facts.tenantStatus[job.tenant]))
  }

  function RefusalDraft(instruction: Instruction, outcome: ExecutionOutcome, now: Time): Draft
  {
    Draft(instruction, "", outcome, ClientAttested, now, None, None)
  }

  function OutcomeOf(reply: Reply): ExecutionOutcome
  {
    match reply
    case HandledError => Unreachable
    case Replied(succeeded, _, _) => if succeeded then Succeeded else Failed
  }

  /** What will be recorded after a call, whichever way the call went. */
  function CallDraft(instruction: Instruction, binding: Binding, startedAt: Time, reply: Reply): Draft
  {
    Draft(instruction, binding.connectorId, OutcomeOf(reply), ClientAttested, startedAt,
          if reply.Replied? then reply.externalReference else None,
          if reply.Replied? then Some(reply.payload) else None)
  }

  /** The key sent with the call, when the binding's policy asks for one. */
  function CallKey(derive: Deriver, instruction: Instruction, binding: Binding): Option<Key>
  {
    if binding.policy.DerivedKey? then Some(instruction.Key(derive)) else None
  }

  function RequestOf(
    derive: Deriver, d: nat, correlationId: string, instruction: Instruction, binding: Binding, reply: Reply)
    : Request
  {
    Request(d, instruction.tenant, binding.destination, instruction.parameters,
            CallKey(derive, instruction, binding), correlationId, instruction.Key(derive), reply)
  }

  /** The record built by `_record`: the key is derived whatever the binding's policy. */
  function RecordOf(
    derive: Deriver, draft: Draft, correlationId: string, completedAt: Time): ExecutionRecord
  {
    ExecutionRecord(
      draft.instruction.jobId, draft.instruction.tenant,
      if draft.connectorId == "" then "none" else draft.connectorId,
      draft.instruction.identity, draft.instruction.Key(derive), draft.outcome, draft.verification,
      correlationId, draft.attemptedAt, draft.externalReference, draft.normalizedResult, completedAt)
  }

  // ----- steps

  predicate Active(pc: Pc)
  {
    !pc.Done? && !pc.Crashed?
  }

  /** Whether the program has passed its connector call: what it is recording says so. */
  predicate PastCall(pc: Pc)
  {
    match pc
    case Recording(draft) => !draft.outcome.RefusedBeforeCall()
    case Written(_, outcome) => !outcome.RefusedBeforeCall()
    case _ => false
  }

  /** Where an exception leaves a delivery. */
  function AbandonedFrom(pc: Pc): Pc
  {
    Done(Abandon, Faulted(PastCall(pc), pc.Written?))
  }

  /** A delivery moves, and nothing else changes. */
  function Moved(s: State, d: nat, pc: Pc): State
    requires d in s.deliveries
  {
    s.(deliveries := s.deliveries[d := s.deliveries[d].(pc := pc)])
  }

  /** A delivery moves, having read something now. */
  function MovedReading(s: State, d: nat, pc: Pc, readAt: ReadTimes): State
    requires d in s.deliveries
  {
    s.(deliveries := s.deliveries[d := s.deliveries[d].(pc := pc, readAt := readAt)])
  }

  /** The consumer's front door: parse, refuse a wrong kind, or hand the job to the leg. */
  function StepReceive(s: State, d: nat, body: Body): State
  {
    if d in s.deliveries then s
    else
      var parsed := FromBody(body);
      var envelope := if parsed.Some? then parsed.value else Envelope(0, "", Execute);
      var pc := if parsed.Some? && parsed.value.kind == Execute then Accepted
                else Done(DeadLetter, RejectedEnvelope);
      s.(deliveries := s.deliveries[d := Delivery(envelope, pc, NO_READS)])
  }

  function StepLoad(s: State, d: nat): State
    requires d in s.deliveries && s.deliveries[d].pc.Accepted?
  {
    var delivery := s.deliveries[d];
    var instruction := LoadInstruction(s.store, s.facts, delivery.envelope.jobId);
    if instruction.None? then Moved(s, d, Done(DeadLetter, UnknownJob))
    else if !ValidIdentity(instruction.value.identity) then Moved(s, d, AbandonedFrom(delivery.pc))
    else MovedReading(s, d, Loaded(instruction.value), delivery.readAt.(load := s.clock))
  }

  function StepCheckWindow(s: State, d: nat, now: Time): State
    requires d in s.deliveries && s.deliveries[d].pc.Loaded?
  {
    var delivery := s.deliveries[d];
    var i := delivery.pc.instruction;
    if i.IsExecutableAt(now)
    then MovedReading(s, d, InWindow(i, now), delivery.readAt.(window := s.clock))
    else Moved(s, d, Recording(RefusalDraft(i, RefusedWindow, now)))
  }

  function StepReadEntitlement(s: State, d: nat): State
    requires d in s.deliveries && s.deliveries[d].pc.InWindow?
  {
    var delivery := s.deliveries[d];
    var i := delivery.pc.instruction;
    if s.facts.IsEntitled(i.tenant, i.identity.catalogueId)
    then MovedReading(s, d, Entitled(i, delivery.pc.now), delivery.readAt.(entitlement := s.clock))
    else Moved(s, d, Recording(RefusalDraft(i, RefusalOutcome(NotEntitled), delivery.pc.now)))
  }

  function StepReadVersion(s: State, d: nat): State
    requires d in s.deliveries && s.deliveries[d].pc.Entitled?
  {
    var delivery := s.deliveries[d];
    var i := delivery.pc.instruction;
    var registered := s.facts.RegisteredVersion(i.identity.catalogueId);
    if registered.None?
    then Moved(s, d, Recording(RefusalDraft(i, RefusalOutcome(NotRegistered), delivery.pc.now)))
    else if registered.value != i.identity.version
    then Moved(s, d, Recording(RefusalDraft(i, RefusalOutcome(VersionMismatch), delivery.pc.now)))
    else MovedReading(s, d, AtVersion(i, delivery.pc.now), delivery.readAt.(version := s.clock))
  }

  function StepReadBinding(s: State, d: nat): State
    requires d in s.deliveries && s.deliveries[d].pc.AtVersion?
  {
    var delivery := s.deliveries[d];
    var i := delivery.pc.instruction;
    var binding := s.facts.BindingFor(i.identity);
    if binding.None?
    then Moved(s, d, Recording(RefusalDraft(i, RefusalOutcome(NoBinding), delivery.pc.now)))
    else MovedReading(s, d, Permitted(i, binding.value), delivery.readAt.(binding := s.clock))
  }

  /** The duplicate check made before calling out; a binding without a key skips it. */
  function StepPreCheck(derive: Deriver, s: State, d: nat): State
    requires d in s.deliveries && s.deliveries[d].pc.Permitted?
  {
    var delivery := s.deliveries[d];
    var i, binding := delivery.pc.instruction, delivery.pc.binding;
    if binding.policy.DerivedKey? && HasKey(s.store.executions, i.Key(derive))
    then Moved(s, d, Done(Complete, SuppressedBeforeCall))
    else MovedReading(s, d, Cleared(i, binding), delivery.readAt.(check := s.clock))
  }

  function StepInvoke(derive: Deriver, s: State, d: nat, startedAt: Time, reply: Reply): State
    requires d in s.deliveries && s.deliveries[d].pc.Cleared?
  {
    var i, binding := s.deliveries[d].pc.instruction, s.deliveries[d].pc.binding;
    Moved(s, d, Recording(CallDraft(i, binding, startedAt, reply)))
      .(requests := s.requests + [RequestOf(derive, d, s.deliveries[d].envelope.correlationId, i, binding, reply)])
  }

  /** `_record`'s transaction, arbitrated by the unique key. */
  function StepRecord(derive: Deriver, s: State, d: nat, ids: Ids, completedAt: Time): State
    requires d in s.deliveries && s.deliveries[d].pc.Recording?
  {
    var delivery := s.deliveries[d];
    var record := RecordOf(derive, delivery.pc.draft, delivery.envelope.correlationId, completedAt);
    if !Insertable(s.store.executions, ids.execution, record)
    then Moved(s, d, Done(Complete, LostInsert))
    else Moved(s, d, Written(ids.execution, delivery.pc.draft.outcome))
      .(store := RecordAll(s.store, ids, record, delivery.pc.draft.instruction.workItem),
        commits := s.commits[ids.execution := Commit(d, ids, s.clock)])
  }

  /** A delivery's step, when it is the step its program counter calls for. */
  function Stepped(derive: Deriver, s: State, d: nat, step: Step): State
    requires d in s.deliveries
  {
    var pc := s.deliveries[d].pc;
    match step
    case Load => if pc.Accepted? then StepLoad(s, d) else s
    case CheckWindow(now) => if pc.Loaded? then StepCheckWindow(s, d, now) else s
    case ReadEntitlement => if pc.InWindow? then StepReadEntitlement(s, d) else s
    case ReadVersion => if pc.Entitled? then StepReadVersion(s, d) else s
    case ReadBinding => if pc.AtVersion? then StepReadBinding(s, d) else s
    case PreCheck => if pc.Permitted? then StepPreCheck(derive, s, d) else s
    case Invoke(startedAt, reply) =>
      if pc.Cleared? then StepInvoke(derive, s, d, startedAt, reply) else s
    case Record(ids, completedAt) =>
      if pc.Recording? && Fresh(s.store, ids) then StepRecord(derive, s, d, ids, completedAt) else s
    case Acknowledge =>
      if pc.Written? then Moved(s, d, Done(Complete, Recorded(pc.execution))) else s
    case Fault =>
      // An exception anywhere: before the call, after it, or after the commit, whose acknowledgement
      // can be lost and whose session can fail to close.
      if Active(pc) then Moved(s, d, AbandonedFrom(pc)) else s
    case Crash => if Active(pc) then Moved(s, d, Crashed) else s
  }

  /** The effect of an action, apart from the clock. */
  function Effect(derive: Deriver, s: State, a: Action): State
  {
    match a
    case Receive(d, body) => StepReceive(s, d, body)
    case Advance(d, step) => if d in s.deliveries then Stepped(derive, s, d, step) else s
    case SetFacts(facts) => s.(facts := facts)
    case AddJob(jobId, row) =>
      if jobId in s.store.jobs || row.result.Some? then s
      else s.(store := s.store.(jobs := s.store.jobs[jobId := row]))
  }

  function Do(derive: Deriver, s: State, a: Action): State
  {
    Effect(derive, s, a).(clock := s.clock + 1)
  }

  /** A whole run. */
  function Run(derive: Deriver, s: State, actions: seq<Action>): State
  {
    if actions == [] then s
    else Do(derive, Run(derive, s, actions[..|actions| - 1]), actions[|actions| - 1])
  }

  /** Nothing has been delivered and no job has a result. */
  predicate Init(s: State)
  {
    && s.deliveries == map[] && s.requests == [] && s.commits == map[] && s.clock == 0
    && s.store.executions == map[] && s.store.audit == map[] && s.store.outbox == map[]
    && forall j :: j in s.store.jobs ==> s.store.jobs[j].result == None
  }
}
