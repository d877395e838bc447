/** Durable evidence of model calls: intents, response artifacts and receipts, created once and never changed. */
module ModelCalls {
  import opened Common
  import opened TokenUsage
  import opened AttemptIds

  /** A collision-free digest: equal digests have equal content. */
  datatype TextDigest = TextDigest(text: string)

  datatype IntentDigest = IntentDigest(intent: Intent)

  datatype Metadata = Metadata(finishReason: string, requestId: string, actualModel: string, endpointType: string)

  datatype Response = Response(text: string, usage: RawUsage, meta: Metadata)

  /** The arguments of one logical call. The estimate is used when no input token count is given. */
  datatype Call = Call(callId: string, provider: string, model: string, stage: string, endpointType: string,
                       request: string, maxOutput: nat, explicitInput: Option<nat>, estimatedInput: nat)
  {
    function ReservedInput(): nat {
      explicitInput.GetOr(estimatedInput)
    }
  }

  datatype Intent = Intent(callId: string, attemptId: string, provider: string, model: string, stage: string,
                           requestDigest: TextDigest, reservedInput: nat, reservedOutput: nat, createdAt: int)

  datatype Status = Succeeded | PartialFailed | NotSent | ProviderRejected | BudgetRejected

  datatype Receipt = Receipt(callId: string, attemptId: string, intentHash: IntentDigest,
                             artifactHash: TextDigest, usage: RawUsage, meta: Metadata,
                             status: Status, receivedAt: int)

  datatype Store = Store(intents: map<string, Intent>, artifacts: map<string, string>, receipts: map<string, Receipt>)

  const EMPTY_STORE := Store(map[], map[], map[])

  function IntentFor(call: Call, attempt: nat, now: int): Intent {
    Intent(call.callId, AttemptName(call.callId, attempt), call.provider, call.model, call.stage,
           TextDigest(call.request), call.ReservedInput(), call.maxOutput, now)
  }

  /** The stored intent is the one these arguments would have written, up to its timestamp;
      an estimated input reservation is not compared. */
  predicate Expected(intent: Intent, call: Call, attempt: nat) {
    && intent.callId == call.callId
    && intent.attemptId == AttemptName(call.callId, attempt)
    && intent.provider == call.provider && intent.model == call.model && intent.stage == call.stage
    && intent.requestDigest == TextDigest(call.request)
    && intent.reservedOutput == call.maxOutput
    && (call.explicitInput.Some? ==> intent.reservedInput == call.explicitInput.value)
  }

  function ReceiptFor(intent: Intent, response: Response, status: Status, now: int): Receipt {
    Receipt(intent.callId, intent.attemptId, IntentDigest(intent), TextDigest(response.text), response.usage, response.meta,
            status, now)
  }

  datatype ReceiptDigest = ReceiptDigest(receipt: Receipt)

  predicate Linked(intent: Intent, receipt: Receipt) {
    receipt.callId == intent.callId && receipt.attemptId == intent.attemptId && receipt.intentHash == IntentDigest(intent)
  }

  /** Create-once: succeeds on a free key or when the very same content is already there. */
  datatype Create<T> = Created(entries: map<string, T>) | Conflicting

  function CreateOnce<T(==)>(entries: map<string, T>, key: string, value: T): Create<T> {
    if key !in entries then Created(entries[key := value])
    else if entries[key] == value then Created(entries)
    else Conflicting
  }

  /** Creating puts the content under a free key, leaves everything as it is when that content is already there, and is
      refused exactly when other content is. */
  lemma CreatesExactly<T>(entries: map<string, T>, key: string, value: T)
    ensures CreateOnce(entries, key, value).Conflicting? <==> key in entries && entries[key] != value
    ensures CreateOnce(entries, key, value).Created? ==> CreateOnce(entries, key, value).entries == entries[key := value]
  {
  }

  /** The response a receipt stands for, read back through its artifact; `None` when the evidence is damaged. */
  function LoadResponse(store: Store, attemptId: string): Option<Response> {
    if attemptId !in store.receipts || attemptId !in store.intents || attemptId !in store.artifacts then None
    else
      var receipt := store.receipts[attemptId];
      if !Linked(store.intents[attemptId], receipt) || TextDigest(store.artifacts[attemptId]) != receipt.artifactHash then None
      else Some(Response(store.artifacts[attemptId], receipt.usage, receipt.meta))
  }

  // ---------- What the provider operation did ----------

  /** `Failed` carries what the exception reveals: a partial response, a failed connection set-up,
      a definitive rejection, and whether partial content was seen. */
  datatype Reply =
    | Answered(response: Response)
    | Failed(partialResponse: Option<Response>, connectionNotEstablished: bool, definitiveRejection: bool,
             partialSeen: bool)

  function EmptyResponse(call: Call, usage: RawUsage, reason: string): Response {
    Response("", usage, Metadata(reason, "", call.model, call.endpointType))
  }

  datatype Closing = Closing(status: Status, response: Response)

  /** How the attempt is closed durably, or `None` when it must stay uncertain. */
  function ClosingOf(call: Call, reply: Reply): Option<Closing> {
    match reply
    case Answered(response) => Some(Closing(Succeeded, response))
    case Failed(partialResponse, notEstablished, rejected, partialSeen) =>
      if partialResponse.Some? && partialResponse.value.text != "" then Some(Closing(PartialFailed, partialResponse.value))
      else if notEstablished then Some(Closing(NotSent, EmptyResponse(call, ZERO_USAGE, "request_not_sent")))
      else if rejected then Some(Closing(ProviderRejected, EmptyResponse(call, ZERO_USAGE, "provider_rejected")))
      else None
  }

  /** A failure that carries a partial response with text. */
  predicate LeftText(reply: Reply) {
    reply.Failed? && reply.partialResponse.Some? && reply.partialResponse.value.text != ""
  }

  /** The request may have reached the provider: it answered, or left text, or a connection was established. */
  predicate MayHaveReached(reply: Reply) {
    reply.Answered? || LeftText(reply) || !reply.connectionNotEstablished
  }

  /** Nothing came back, and nothing was used. */
  predicate NothingCharged(response: Response) {
    && response.text == ""
    && response.usage == RawUsage(Count(0), Absent, NoDetails, Absent, Absent, Count(0), Absent, NoDetails, Count(0))
  }

  /** What a receipt says, compared with what the provider did. */
  predicate Reports(status: Status, response: Response, reply: Reply) {
    match status
    case Succeeded => reply == Answered(response)
    case PartialFailed => LeftText(reply) && reply.partialResponse == Some(response)
    case NotSent => !MayHaveReached(reply) && NothingCharged(response)
    case ProviderRejected =>
      reply.Failed? && !LeftText(reply) && !reply.connectionNotEstablished && reply.definitiveRejection && NothingCharged(response)
    case BudgetRejected => false
  }

  /** An attempt is closed as what happened to it, and left open exactly when a connection was established, no text came
      back and the failure is no definitive rejection. */
  lemma ClosedExactly(call: Call, reply: Reply)
    ensures ClosingOf(call, reply).None? <==>
              reply.Failed? && !LeftText(reply) && !reply.connectionNotEstablished && !reply.definitiveRejection
    ensures ClosingOf(call, reply).Some? ==>
              var closing := ClosingOf(call, reply).value; Reports(closing.status, closing.response, reply)
  {
  }

  // ---------- Evidence only grows ----------

  predicate Grows(store: Store, store': Store) {
    && (forall a | a in store.intents :: a in store'.intents && store'.intents[a] == store.intents[a])
    && (forall a | a in store.artifacts :: a in store'.artifacts && store'.artifacts[a] == store.artifacts[a])
    && (forall a | a in store.receipts :: a in store'.receipts && store'.receipts[a] == store.receipts[a])
  }

  lemma LoadResponseStable(store: Store, store': Store, attemptId: string)
    requires Grows(store, store') && LoadResponse(store, attemptId).Some?
    ensures LoadResponse(store', attemptId) == LoadResponse(store, attemptId)
  {
  }
}
