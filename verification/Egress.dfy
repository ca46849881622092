/** The one outbound HTTP path, and the connector call made over it. */
module Egress {
  import opened Text
  import opened Uuids
  import opened Idempotency
  import opened Domain
  import opened ExecutionProtocol

  const MAX_ATTEMPTS: nat := 3
  const TRANSIENT_STATUSES: set<int> := {429, 500, 502, 503, 504}

  datatype OutboundRequest = OutboundRequest(
    verb: string, url: string, headers: map<string, string>, body: string)

  datatype OutboundResponse = OutboundResponse(statusCode: int, payload: string)
  {
    predicate Succeeded() {
      200 <= statusCode < 300
    }
  }

  /** What one transport attempt comes to: an exception of the HTTP client, or a response. */
  datatype Answer = HttpError | Answered(response: OutboundResponse)

  /** Whether an answer is worth another attempt. */
  predicate Transient(answer: Answer)
  {
    answer.HttpError? || answer.response.statusCode in TRANSIENT_STATUSES
  }

  /** The answer as a caller sees it; `None` is `EgressError`. */
  function Surfaced(answer: Answer): Option<OutboundResponse>
  {
    if answer.HttpError? then None else Some(answer.response)
  }

  /** The far side: it answers the nth request ever sent with the nth answer. */
  class Transport {
    const answers: nat -> Answer
    var sent: seq<OutboundRequest>

    constructor (answers: nat -> Answer)
      ensures this.answers == answers && sent == []
    {
      this.answers, this.sent := answers, [];
    }

    method Request(request: OutboundRequest) returns (answer: Answer)
      modifies this
      ensures sent == old(sent) + [request] && answer == answers(|old(sent)|)
    {
      answer := answers(|sent|);
      sent := sent + [request];
    }
  }

  /** The same request, a number of times. */
  function Repeated(request: OutboundRequest, n: nat): seq<OutboundRequest>
  {
    seq(n, _ => request)
  }

  /**
   `ResilientCaller.send`. A call that may be retried is sent again while its answers are transient, at
   most three times in all; one that may not be is sent exactly once. Whatever the last answer was is
   surfaced, transient or not: a final 503 is a response, and the error after the loop is never raised.
   */
  method Send(transport: Transport, request: OutboundRequest, retriable: bool)
    returns (response: Option<OutboundResponse>)
    modifies transport
    ensures var first, n := |old(transport.sent)|, |transport.sent| - |old(transport.sent)|;
            var attempts := if retriable then 3 else 1;
            && 1 <= n <= attempts
            && transport.sent == old(transport.sent) + Repeated(request, n)
            && (forall k :: first <= k < first + n - 1 ==> Transient(transport.answers(k)))
            && (n < attempts ==> !Transient(transport.answers(first + n - 1)))
            && response == Surfaced(transport.answers(first + n - 1))
            && (response.None? <==> transport.answers(first + n - 1).HttpError?)
            && (response.Some? ==> transport.answers(first + n - 1) == Answered(response.value))
  {
    var attempts := if retriable then MAX_ATTEMPTS else 1;
    ghost var first := |transport.sent|;
    var attempt := 1;
    while attempt <= attempts
      invariant 1 <= attempt <= attempts
      invariant transport.sent == old(transport.sent) + Repeated(request, attempt - 1)
      invariant forall k :: first <= k < first + attempt - 1 ==> Transient(transport.answers(k))
      decreases attempts - attempt
    {
      var answer := transport.Request(request);
      assert transport.sent == old(transport.sent) + Repeated(request, attempt);
      if answer.HttpError? {
        if !retriable || attempt == attempts {
          return None;
        }
      } else if !(retriable && answer.response.statusCode in TRANSIENT_STATUSES && attempt < attempts) {
        return Some(answer.response);
      }
      attempt := attempt + 1;
    }
    assert false;
  }

  // ----- mcp/client.py

  const CORRELATION_HEADER := "X-Correlation-Id"
  const IDEMPOTENCY_HEADER := "X-Idempotency-Key"

  /** The normalized body of a successful call. */
  datatype Normalized = Normalized(externalReference: Option<string>, payload: string)

  /** How `invoke` ends: with a reply the leg handles, or with an exception that escapes the leg. */
  datatype Invocation = Handled(reply: Reply) | Escapes

  /** The reply an answer stands for: transport and boundary errors are the two the leg handles. */
  function ReplyTo(answer: Answer, normalize: string -> Option<Normalized>): Reply
  {
    if answer.HttpError? then HandledError
    else if !answer.response.Succeeded() then Replied(false, None, "{}")
    else match normalize(answer.response.payload)
         case None => HandledError
         case Some(n) => Replied(true, n.externalReference, n.payload)
  }

  /**
   What the leg is told, by the class of the status: success exactly when a 2xx body could be normalized, and
   then the body's reference and payload; a refusal by the far side exactly when it answered with any other
   status, and then an empty payload; and an error it handles when there was no answer, or an unreadable one.
   */
  lemma ReplyByStatus(answer: Answer, normalize: string -> Option<Normalized>)
    ensures var reply := ReplyTo(answer, normalize);
            var answered := answer.Answered?;
            var accepted := answered && answer.response.statusCode / 100 == 2;
            && (reply.Replied? && reply.succeeded <==> accepted && normalize(answer.response.payload).Some?)
            && (reply.Replied? && !reply.succeeded <==> answered && !accepted)
            && (reply.HandledError? <==> !answered || (accepted && normalize(answer.response.payload).None?))
            && (reply.Replied? && reply.succeeded ==>
                  normalize(answer.response.payload) == Some(Normalized(reply.externalReference, reply.payload)))
            && (reply.Replied? && !reply.succeeded ==> reply.externalReference == None && reply.payload == "{}")
  {
  }

  /** Worth another attempt: no answer, too many requests, or the server's own trouble but "not implemented". */
  lemma TransientByStatus(answer: Answer)
    ensures Transient(answer) <==>
            || answer.HttpError?
            || answer.response.statusCode == 429
            || (500 <= answer.response.statusCode <= 504 && answer.response.statusCode != 501)
  {
  }

  /**
   `McpClient.invoke`. One request and no second, whatever comes back: to the binding's destination, with
   the parameters as its body and the key as a header exactly when there is a key. Without a credential
   nothing is sent.
   */
  method Invoke(
    transport: Transport, binding: Binding, credential: Option<string>, arguments: string,
    key: Option<Key>, correlationId: string, normalize: string -> Option<Normalized>)
    returns (invocation: Invocation)
    modifies transport
    ensures credential.None? ==> invocation == Escapes && transport.sent == old(transport.sent)
    ensures credential.Some? ==>
      && |transport.sent| == |old(transport.sent)| + 1
      && transport.sent[..|old(transport.sent)|] == old(transport.sent)
      && var request := transport.sent[|old(transport.sent)|];
      && request.verb == "POST" && request.url == binding.destination && request.body == arguments
      && "X-Correlation-Id" in request.headers && request.headers["X-Correlation-Id"] == correlationId
      && "Authorization" in request.headers && request.headers["Authorization"] == "Bearer " + credential.value
      && ("X-Idempotency-Key" in request.headers <==> key.Some?)
      && (key.Some? ==> request.headers["X-Idempotency-Key"] == key.value)
      && invocation == Handled(ReplyTo(transport.answers(|old(transport.sent)|), normalize))
  {
    if credential.None? {
      return Escapes;
    }
    var headers := map["Authorization" := "Bearer " + credential.value,
                       CORRELATION_HEADER := correlationId,
                       "Content-Type" := "application/json"];
    HeaderNames();
    if key.Some? {
      headers := headers[IDEMPOTENCY_HEADER := key.value];
    }
    var request := OutboundRequest("POST", binding.destination, headers, arguments);
    var response := Send(transport, request, false);
    assert transport.sent == old(transport.sent) + Repeated(request, 1);
    if response.None? {
      return Handled(HandledError);
    }
    if !response.value.Succeeded() {
      return Handled(Replied(false, None, "{}"));
    }
    var normalized := normalize(response.value.payload);
    if normalized.None? {
      return Handled(HandledError);
    }
    return Handled(Replied(true, normalized.value.externalReference, normalized.value.payload));
  }

  lemma HeaderNames()
    ensures IDEMPOTENCY_HEADER !in {"Authorization", CORRELATION_HEADER, "Content-Type"}
    ensures CORRELATION_HEADER !in {"Authorization", "Content-Type"}
  {
    assert IDEMPOTENCY_HEADER[0] == 'X' && CORRELATION_HEADER[0] == 'X';
    assert IDEMPOTENCY_HEADER[2] == 'I' && CORRELATION_HEADER[2] == 'C';
    assert "Authorization"[0] == 'A' && "Content-Type"[0] == 'C';
  }
}
