/** The Integrations Service's value types: capabilities, outcomes, records, envelopes. */
module Domain {
  import opened Text
  import opened Uuids
  import opened Idempotency

  /** Instants, as a count of ticks on one clock. */
  type Time = int

  // ----- domain/catalogue.py

  datatype CapabilityIdentity = CapabilityIdentity(catalogueId: string, version: int)

  /** Whitespace as `str.strip` removes it (the ASCII part). */
  predicate Blank(text: string)
  {
    forall i :: 0 <= i < |text| ==> text[i] in " \t\n\r\U{b}\U{c}\U{1c}\U{1d}\U{1e}\U{1f}"
  }

  /** What constructing an identity demands; anything else raises. */
  predicate ValidIdentity(identity: CapabilityIdentity)
  {
    !Blank(identity.catalogueId) && identity.version >= 1
  }

  /** An identity can be constructed when something of its catalogue identifier is visible. */
  lemma ValidIdentityIff(identity: CapabilityIdentity)
    ensures ValidIdentity(identity) <==>
            && identity.version > 0
            && exists i :: 0 <= i < |identity.catalogueId| && Visible(identity.catalogueId[i])
  {
    forall i | 0 <= i < |identity.catalogueId|
      ensures Visible(identity.catalogueId[i]) <==>
              identity.catalogueId[i] !in " \t\n\r\U{b}\U{c}\U{1c}\U{1d}\U{1e}\U{1f}"
    {
    }
  }

  /** Neither a space, nor one of the control characters that separate text. */
  predicate Visible(c: char)
  {
    c as int != 32 && !(9 <= c as int <= 13) && !(28 <= c as int <= 31)
  }

  datatype IdempotencyPolicy = DerivedKey | NoKey

  datatype Binding = Binding(connectorId: string, destination: string, policy: IdempotencyPolicy)

  datatype AccessRefusal = NotEntitled | NotRegistered | VersionMismatch | NoBinding

  datatype AccessDecision = Allow(binding: Binding) | Refuse(refusal: AccessRefusal)

  // ----- domain/execution.py

  datatype ExecutionOutcome =
    | Succeeded
    | Failed
    | RefusedUnentitled
    | RefusedUnregistered
    | RefusedVersion
    | RefusedWindow
    | Unreachable
  {
    /** `ExecutionOutcome.is_refusal`, which counts `Unreachable` although a call was attempted. */
    predicate IsRefusal() {
      RefusedBeforeCall() || Unreachable?
    }

    /** The outcomes decided before any call. */
    predicate RefusedBeforeCall() {
      RefusedUnentitled? || RefusedUnregistered? || RefusedVersion? || RefusedWindow?
    }
  }

  datatype VerificationOutcome = ServerConfirmed | ClientAttested | Contradicted

  /** One attempt, without its surrogate key. */
  datatype ExecutionRecord = ExecutionRecord(
    jobId: Uuid,
    tenant: Uuid,
    connectorId: string,
    identity: CapabilityIdentity,
    key: Key,
    outcome: ExecutionOutcome,
    verification: VerificationOutcome,
    correlationId: string,
    attemptedAt: Time,
    externalReference: Option<string>,
    normalizedResult: Option<string>,
    completedAt: Time)

  // ----- persistence/jobs.py

  datatype Instruction = Instruction(
    jobId: Uuid,
    workItem: Uuid,
    operation: Uuid,
    tenant: Uuid,
    identity: CapabilityIdentity,
    parameters: string,
    expiresAt: Time,
    workState: string,
    approvalState: string,
    tenantStatus: string)
  {
    /** What is asked of it apart from the state of its work. */
    predicate OtherwiseInOrder(now: Time) {
      && tenantStatus == "active"
      && approvalState in ["approved", "auto_authorized", "consented"]
      && now < expiresAt
    }

    /** Whether the authority the instruction rests on is still good. */
    predicate IsExecutableAt(now: Time) {
      OtherwiseInOrder(now) && workState !in ["cancelled", "expired", "closed", "failed"]
    }

    function Key(derive: Deriver): Key {
      derive(tenant, workItem, operation)
    }
  }

  // ----- messaging/envelope.py

  datatype MessageKind = Execute | Completed | FailedKind

  function KindText(kind: MessageKind): string
  {
    match kind
    case Execute => "integration.execute"
    case Completed => "integration.completed"
    case FailedKind => "integration.failed"
  }

  function ParseKind(text: string): Option<MessageKind>
  {
    if text == "integration.execute" then Some(Execute)
    else if text == "integration.completed" then Some(Completed)
    else if text == "integration.failed" then Some(FailedKind)
    else None
  }

  datatype Envelope = Envelope(jobId: Uuid, correlationId: string, kind: MessageKind)

  /** A message body after decoding: not JSON, not an object, or an object's fields. */
  datatype Body = NotJson | NotAnObject | Fields(fields: map<string, string>)

  const PERMITTED_FIELDS: set<string> := {"jobId", "correlationId", "kind"}

  predicate WellFormedCorrelation(text: string)
  {
    && 1 <= |text| <= 128
    && forall i :: 0 <= i < |text| ==> CorrelationLetter(text[i])
  }

  predicate CorrelationLetter(c: char)
  {
    'A' <= c <= 'Z' || 'a' <= c <= 'z' || '0' <= c <= '9' || c == '.' || c == '_' || c == '-'
  }

  /** A correlation identifier is accepted by its length and by the code points of its letters. */
  lemma CorrelationIsAccepted(text: string)
    ensures WellFormedCorrelation(text) <==>
            && text != "" && |text| < 129
            && forall c :: c in text ==>
                 || 0x41 <= c as int <= 0x5A || 0x61 <= c as int <= 0x7A || 0x30 <= c as int <= 0x39
                 || c as int in {0x2D, 0x2E, 0x5F}
  {
    if !WellFormedCorrelation(text) && text != "" && |text| < 129 {
      var i :| 0 <= i < |text| && !CorrelationLetter(text[i]);
      assert text[i] in text;
    }
  }

  /** Every UUID the services mint as a journey's identifier is accepted as one. */
  lemma RenderedUuidIsACorrelation(u: Uuid)
    ensures WellFormedCorrelation(Render(u))
  {
    var text := Render(u);
    forall i | 0 <= i < |text|
      ensures CorrelationLetter(text[i])
    {
      hide Render;
      if !CorrelationLetter(text[i]) {
        assert text[i] !in "0123456789abcdef-";
        RenderAlphabet(u, text[i]);
      }
    }
  }

  function ToFields(envelope: Envelope): map<string, string>
  {
    map["jobId" := Render(envelope.jobId),
        "correlationId" := envelope.correlationId,
        "kind" := KindText(envelope.kind)]
  }

  /** `from_json` on a decoded body; every departure from the contract is a refusal. */
  function FromBody(body: Body): Option<Envelope>
  {
    if !body.Fields? || body.fields.Keys != PERMITTED_FIELDS then None
    else
      var jobId := Parse(body.fields["jobId"]);
      var correlation := body.fields["correlationId"];
      var kind := ParseKind(body.fields["kind"]);
      if jobId.None? || !WellFormedCorrelation(correlation) || kind.None? then None
      else Some(Envelope(jobId.value, correlation, kind.value))
  }

  /** A well-formed envelope survives the wire, and nothing else is read as one. */
  lemma EnvelopeRoundTrip(envelope: Envelope)
    ensures FromBody(Fields(ToFields(envelope))) ==
            if WellFormedCorrelation(envelope.correlationId) then Some(envelope) else None
  {
    hide Parse, Render, WellFormedCorrelation;
    ParseRender(envelope.jobId);
    assert ToFields(envelope).Keys == PERMITTED_FIELDS;
    assert ParseKind(KindText(envelope.kind)) == Some(envelope.kind);
  }

  /**
   Whatever body is accepted has the three fields and no other, carries its journey and kind verbatim, and
   is read as an envelope that survives the wire: an extra field, under any name, refuses the message.
   */
  lemma AcceptedBodies(body: Body)
    requires FromBody(body).Some?
    ensures body.Fields? && body.fields.Keys == PERMITTED_FIELDS
    ensures var envelope := FromBody(body).value;
            && WellFormedCorrelation(envelope.correlationId)
            && body.fields["correlationId"] == envelope.correlationId
            && body.fields["kind"] ==
               (match envelope.kind
                case Execute => "integration.execute"
                case Completed => "integration.completed"
                case FailedKind => "integration.failed")
            && Parse(body.fields["jobId"]) == Some(envelope.jobId)
            && FromBody(Fields(ToFields(envelope))) == Some(envelope)
  {
    hide Parse, Render, WellFormedCorrelation;
    EnvelopeRoundTrip(FromBody(body).value);
  }
}
