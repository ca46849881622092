/** The execution-time re-check of entitlement, registration, version and binding. */
module AccessPolicy {
  import opened Text
  import opened Uuids
  import opened Domain

  /** The durable facts the service re-reads; other writers may change them at any moment. */
  datatype WorkRow = WorkRow(state: string, approvalState: string, expiresAt: Option<Time>)

  datatype Facts = Facts(
    tenantStatus: map<Uuid, string>,
    work: map<Uuid, WorkRow>,
    entitled: map<(Uuid, string), bool>,
    registered: map<string, int>,
    bindings: map<CapabilityIdentity, Binding>)
  {
    /** An existing, enabled row. */
    predicate IsEntitled(tenant: Uuid, catalogueId: string) {
      (tenant, catalogueId) in entitled && entitled[(tenant, catalogueId)]
    }

    function RegisteredVersion(catalogueId: string): Option<int> {
      if catalogueId in registered then Some(registered[catalogueId]) else None
    }

    function BindingFor(identity: CapabilityIdentity): Option<Binding> {
      if identity in bindings then Some(bindings[identity]) else None
    }
  }

  /** The whole check against one snapshot of the facts. */
  function Evaluate(facts: Facts, tenant: Uuid, identity: CapabilityIdentity): AccessDecision
  {
    if !facts.IsEntitled(tenant, identity.catalogueId) then Refuse(NotEntitled)
    else
      var registered := facts.RegisteredVersion(identity.catalogueId);
      if registered.None? then Refuse(NotRegistered)
      else if registered.value != identity.version then Refuse(VersionMismatch)
      else
        var binding := facts.BindingFor(identity);
        if binding.None? then Refuse(NoBinding) else Allow(binding.value)
  }

  const REFUSAL_OUTCOME: map<AccessRefusal, ExecutionOutcome> :=
    map[NotEntitled := RefusedUnentitled,
        NotRegistered := RefusedUnregistered,
        VersionMismatch := RefusedVersion,
        NoBinding := RefusedUnregistered]

  /** The table lookup with its `FAILED` fallback, which no refusal reaches. */
  function RefusalOutcome(refusal: AccessRefusal): (outcome: ExecutionOutcome)
    ensures outcome.RefusedBeforeCall()
  {
    assert refusal == NotEntitled || refusal == NotRegistered || refusal == VersionMismatch || refusal == NoBinding;
    if refusal in REFUSAL_OUTCOME then REFUSAL_OUTCOME[refusal] else Failed
  }
}
