/** What RagCore concludes from the result columns of its own job row. */
module ResultConclusion {
  import opened Text
  import opened Uuids
  import opened Idempotency
  import opened Domain
  import opened ExecutionStore
  import opened ExecutionProtocol
  import opened ExecutionInvariant
  import opened ExecutionSafety

  datatype IntegrationResult = IntegrationResult(
    executed: bool,
    verification: Option<VerificationOutcome>,
    executionId: Option<Uuid>,
    recordedAt: Option<Time>)
  {
    predicate IsPending() {
      recordedAt.None?
    }

    predicate MayReportResolution() {
      executed && verification == Some(ServerConfirmed)
    }
  }

  datatype Conclusion = Resolved | ActedUnverified | ConcludedFailed | Pending

  /** The result columns as `read_result` returns them; no row, no result. */
  function ReadResult(store: Store, jobId: Uuid): Option<IntegrationResult>
  {
    if jobId !in store.jobs then None
    else
      match store.jobs[jobId].result
      case None => Some(IntegrationResult(false, None, None, None))
      case Some(r) =>
        Some(IntegrationResult(r.executed, Some(r.verification), Some(r.executionId), Some(r.recordedAt)))
  }

  function ConcludedFrom(result: Option<IntegrationResult>): Conclusion
  {
    if result.None? || result.value.IsPending() then Pending
    else if !result.value.executed then ConcludedFailed
    else if result.value.MayReportResolution() then Resolved
    else ActedUnverified
  }

  /** "Resolved" takes a recorded result that was executed and that the far side confirmed. */
  lemma ConcludedFromIff(result: Option<IntegrationResult>)
    ensures var conclusion := ConcludedFrom(result);
            && (conclusion == Pending <==> result.None? || result.value.recordedAt == None)
            && (conclusion == ConcludedFailed <==> conclusion != Pending && !result.value.executed)
            && (conclusion == Resolved <==>
                  && conclusion != Pending && result.value.executed
                  && result.value.verification == Some(ServerConfirmed))
            && (result.Some? && result.value.recordedAt.Some? ==>
                  (conclusion == Resolved <==> result.value.MayReportResolution()))
            && (result.Some? && !result.value.executed ==> !result.value.MayReportResolution())
  {
  }

  function Conclude(store: Store, jobId: Uuid): Conclusion
  {
    ConcludedFrom(ReadResult(store, jobId))
  }

  /** A conclusion other than PENDING is final, whatever is delivered or crashes afterwards. */
  lemma ConclusionIsFinal(derive: Deriver, s: State, actions: seq<Action>, j: Uuid)
    requires Reachable(derive, s)
    requires Conclude(s.store, j) != Pending
    ensures Conclude(Run(derive, s, actions).store, j) == Conclude(s.store, j)
  {
    ResultIsWriteOnce(derive, s, actions, j);
  }

  /** The delivery called the connector, and the far side said that it worked. */
  ghost predicate AnsweredWithSuccess(s: State, d: nat)
  {
    exists i :: 0 <= i < |s.requests| && s.requests[i].delivery == d
                && s.requests[i].reply.Replied? && s.requests[i].reply.succeeded
  }

  /** A recorded success is a call that was answered with success. */
  lemma SuccessWasAnswered(derive: Deriver, s: State, e: Uuid)
    requires Reachable(derive, s) && e in s.store.executions
    ensures e in s.commits
    ensures s.store.executions[e].outcome == Succeeded <==> AnsweredWithSuccess(s, s.commits[e].delivery)
  {
    OutcomeTellsWhetherCalled(derive, s, e);
    hide Reachable;
    if s.store.executions[e].outcome == Succeeded {
      var i :| 0 <= i < |s.requests| && s.requests[i].delivery == s.commits[e].delivery;
      assert s.requests[i].reply.Replied? && s.requests[i].reply.succeeded;
    }
  }

  /**
   The conclusion is what the one record of the job says: nothing recorded, an attested success, or a
   failure; and it is an attested success exactly when the connector answered that record's call with
   success. The service never gives RagCore grounds to say "resolved".
   */
  lemma ConclusionMatchesRecord(derive: Deriver, s: State, j: Uuid)
    requires Reachable(derive, s) && j in s.store.jobs
    ensures Conclude(s.store, j) != Resolved
    ensures Conclude(s.store, j) == Pending <==>
            !exists e :: e in s.store.executions && s.store.executions[e].jobId == j
    ensures forall e :: e in s.store.executions && s.store.executions[e].jobId == j ==>
              (Conclude(s.store, j) == ActedUnverified <==> s.store.executions[e].outcome == Succeeded)
    ensures forall e :: e in s.store.executions && s.store.executions[e].jobId == j ==>
              exists m :: m in s.store.outbox && s.store.outbox[m].jobId == j
                          && (s.store.outbox[m].kind == Completed <==>
                              Conclude(s.store, j) == ActedUnverified)
    ensures forall e :: e in s.store.executions && s.store.executions[e].jobId == j ==>
              && e in s.commits
              && (Conclude(s.store, j) == ActedUnverified <==> AnsweredWithSuccess(s, s.commits[e].delivery))
  {
    hide Reachable;
    if s.store.jobs[j].result.Some? {
      ResultFacts(derive, s, j);
    }
    forall e | e in s.store.executions && s.store.executions[e].jobId == j
      ensures s.store.jobs[j].result == Some(ResultOf(e, s.store.executions[e]))
      ensures s.store.executions[e].verification == ClientAttested
      ensures exists m :: m in s.store.outbox && s.store.outbox[m] == OutboxOf(s.store.executions[e])
      ensures e in s.commits
      ensures s.store.executions[e].outcome == Succeeded <==> AnsweredWithSuccess(s, s.commits[e].delivery)
    {
      RecordFacts(derive, s, e);
      SuccessWasAnswered(derive, s, e);
      hide Told, AnsweredWithSuccess;
      assert s.commits[e].ids.message in s.store.outbox;
    }
  }
}
