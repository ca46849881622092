/** The four tables an attempt is written to, their constraints, and the one transaction. */
module ExecutionStore {
  import opened Text
  import opened Uuids
  import opened Idempotency
  import opened Domain

  /** The four result columns, recorded whole or not at all. */
  datatype JobResult = JobResult(
    executed: bool, verification: VerificationOutcome, executionId: Uuid, recordedAt: Time)

  datatype JobRow = JobRow(
    workItem: Uuid,
    operation: Uuid,
    tenant: Uuid,
    identity: CapabilityIdentity,
    parameters: string,
    expiresAt: Time,
    result: Option<JobResult>)

  datatype AuditRow = AuditRow(
    tenant: Uuid,
    workItem: Uuid,
    occurredAt: Time,
    outcome: ExecutionOutcome,
    verification: VerificationOutcome,
    correlationId: string)

  datatype OutboxRow = OutboxRow(jobId: Uuid, kind: MessageKind, correlationId: string)

  datatype Store = Store(
    jobs: map<Uuid, JobRow>,
    executions: map<Uuid, ExecutionRecord>,
    audit: map<Uuid, AuditRow>,
    outbox: map<Uuid, OutboxRow>)

  /** Surrogate keys drawn for one attempt. */
  datatype Ids = Ids(execution: Uuid, audit: Uuid, message: Uuid)

  predicate HasKey(executions: map<Uuid, ExecutionRecord>, key: Key)
  {
    exists e :: e in executions && executions[e].key == key
  }

  // ----- table constraints of migration 0023

  datatype IntegrityError =
    DuplicatePrimaryKey | DuplicateIdempotencyKey | VersionBelowOne | ConfirmedRefusal

  /** Which constraints inserting a record would violate. */
  predicate Violates(
    executions: map<Uuid, ExecutionRecord>, id: Uuid, record: ExecutionRecord, error: IntegrityError)
  {
    match error
    case DuplicatePrimaryKey => id in executions
    case DuplicateIdempotencyKey => HasKey(executions, record.key)
    case VersionBelowOne => record.identity.version < 1
    case ConfirmedRefusal => record.outcome.IsRefusal() && record.verification == ServerConfirmed
  }

  predicate Insertable(executions: map<Uuid, ExecutionRecord>, id: Uuid, record: ExecutionRecord)
  {
    && !Violates(executions, id, record, DuplicatePrimaryKey)
    && !Violates(executions, id, record, DuplicateIdempotencyKey)
    && !Violates(executions, id, record, VersionBelowOne)
    && !Violates(executions, id, record, ConfirmedRefusal)
  }

  // ----- the rows derived from one record

  function ResultKind(outcome: ExecutionOutcome): MessageKind
  {
    if outcome.Succeeded? then Completed else FailedKind
  }

  function AuditOf(record: ExecutionRecord, workItem: Uuid): AuditRow
  {
    AuditRow(record.tenant, workItem, record.attemptedAt, record.outcome, record.verification,
             record.correlationId)
  }

  function OutboxOf(record: ExecutionRecord): OutboxRow
  {
    OutboxRow(record.jobId, ResultKind(record.outcome), record.correlationId)
  }

  function ResultOf(id: Uuid, record: ExecutionRecord): JobResult
  {
    JobResult(record.outcome.Succeeded?, record.verification, id, record.completedAt)
  }

  /** `UPDATE integration_job SET result_* ... WHERE job_id = :job_id`. */
  function WithResult(jobs: map<Uuid, JobRow>, jobId: Uuid, result: JobResult): map<Uuid, JobRow>
  {
    if jobId in jobs then jobs[jobId := jobs[jobId].(result := Some(result))] else jobs
  }

  /** The surrogate keys are unused, as freshly drawn UUIDs are taken to be. */
  predicate Fresh(store: Store, ids: Ids)
  {
    ids.execution !in store.executions && ids.audit !in store.audit && ids.message !in store.outbox
  }

  /** The transaction: all four writes, or none when the record is not insertable. */
  function RecordAll(store: Store, ids: Ids, record: ExecutionRecord, workItem: Uuid): Store
  {
    if !Insertable(store.executions, ids.execution, record) then store
    else Store(
      WithResult(store.jobs, record.jobId, ResultOf(ids.execution, record)),
      store.executions[ids.execution := record],
      store.audit[ids.audit := AuditOf(record, workItem)],
      store.outbox[ids.message := OutboxOf(record)])
  }

  /** The tables as the service holds them, updated in place. */
  class Database {
    var jobs: map<Uuid, JobRow>
    var executions: map<Uuid, ExecutionRecord>
    var audit: map<Uuid, AuditRow>
    var outbox: map<Uuid, OutboxRow>

    constructor (tables: Store)
      ensures Tables() == tables
    {
      jobs, executions, audit, outbox := tables.jobs, tables.executions, tables.audit, tables.outbox;
    }

    function Tables(): Store
      reads this
    {
      Store(jobs, executions, audit, outbox)
    }

    /**
     `ExecutionRepository.record`: the execution row, and its announcement when it was taken. It is taken
     if its surrogate key and its idempotency key are new, its version is at least one, and it does not claim
     that the far side confirmed an attempt that was refused or never answered.
     */
    method InsertExecution(ids: Ids, record: ExecutionRecord) returns (written: bool)
      modifies this
      ensures written <==> Insertable(old(executions), ids.execution, record)
      ensures executions ==
              if written then old(executions)[ids.execution := record] else old(executions)
      ensures outbox == if written then old(outbox)[ids.message := OutboxOf(record)] else old(outbox)
      ensures written <==>
                && ids.execution !in old(executions)
                && (forall e :: e in old(executions) ==> old(executions)[e].key != record.key)
                && record.identity.version > 0
                && (record.verification == ServerConfirmed ==>
                      record.outcome == Succeeded || record.outcome == ExecutionOutcome.Failed)
      ensures written ==> outbox[ids.message].jobId == record.jobId
      ensures written ==> outbox[ids.message].correlationId == record.correlationId
      ensures written ==> outbox[ids.message].kind == if record.outcome == Succeeded then Completed else FailedKind
      ensures jobs == old(jobs) && audit == old(audit)
    {
      if !Insertable(executions, ids.execution, record) {
        return false;
      }
      executions := executions[ids.execution := record];
      outbox := outbox[ids.message := OutboxOf(record)];
      written := true;
    }

    /** `AuditWriter.record`. */
    method AppendAudit(id: Uuid, record: ExecutionRecord, workItem: Uuid)
      modifies this
      ensures audit == old(audit)[id := AuditOf(record, workItem)]
      ensures audit[id].tenant == record.tenant && audit[id].workItem == workItem
      ensures audit[id].occurredAt == record.attemptedAt && audit[id].correlationId == record.correlationId
      ensures audit[id].outcome == record.outcome && audit[id].verification == record.verification
      ensures jobs == old(jobs) && executions == old(executions) && outbox == old(outbox)
    {
      audit := audit[id := AuditOf(record, workItem)];
    }

    /** `JobRepository.record_result`: the four result columns and no others. */
    method RecordResult(id: Uuid, record: ExecutionRecord)
      modifies this
      ensures jobs == WithResult(old(jobs), record.jobId, ResultOf(id, record))
      ensures jobs.Keys == old(jobs).Keys
      ensures forall j :: j in jobs ==> jobs[j].(result := None) == old(jobs)[j].(result := None)
      ensures forall j :: j in jobs && j != record.jobId ==> jobs[j] == old(jobs)[j]
      ensures record.jobId in jobs ==>
                jobs[record.jobId].result ==
                Some(JobResult(record.outcome == Succeeded, record.verification, id, record.completedAt))
      ensures executions == old(executions) && audit == old(audit) && outbox == old(outbox)
    {
      if record.jobId in jobs {
        jobs := jobs[record.jobId := jobs[record.jobId].(result := Some(ResultOf(id, record)))];
      }
    }

    /** `_record`'s transaction: four writes together, or none. */
    method RecordAttempt(ids: Ids, record: ExecutionRecord, workItem: Uuid) returns (written: bool)
      modifies this
      ensures written <==> Insertable(old(executions), ids.execution, record)
      ensures Tables() == RecordAll(old(Tables()), ids, record, workItem)
    {
      written := InsertExecution(ids, record);
      if !written {
        return;
      }
      AppendAudit(ids.audit, record, workItem);
      RecordResult(ids.execution, record);
    }
  }
}
