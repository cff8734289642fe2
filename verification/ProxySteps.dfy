/**
 * What each unit of work of the Proxy service does to the store, as functions on values.
 *
 * `submit` is several units of work with the lock released between them: it admits the call,
 * marks the operation RUNNING, calls the adapter with no lock held, and settles the outcome.
 */
module ProxySteps {
  import opened Outcomes
  import opened ProxyContracts
  import opened ProxyStore

  datatype ProxyError =
    | InvalidArguments | ChecksumMismatch | UnsafeRequestContent
    | MalformedAuthorization | TokenUnknown | TokenRevoked | SessionExpired
    | AuthorizationScopeMismatch | IdempotencyConflict | ClientTimestampOutOfRange | ProxyUnavailable
    | ProviderBudgetExhausted | OperationLimitExhausted | ConcurrencyLimitExceeded
    | DuplicateTokenIdentity | DuplicateOperationIdentity | TokenContractViolation
    | TokenNotFound | OperationNotFound

  // Tokens

  datatype Issuance = Issuance(target: Target, adapter: Adapter, lifetimeMinutes: int,
    maximumOperations: Option<int>, sessionCapabilities: set<string>, plaintext: string, now: int)

  /** The token `issue_token` constructs from a drawn plaintext, or the reason it refuses. */
  function BuildToken(order: Issuance): Result<Token, ProxyError> {
    var allowed := if order.adapter.OpenAlex? then OPENALEX_MAX_PROVIDER_CALLS else MAX_TOKEN_OPERATIONS;
    var maximum := if order.maximumOperations.Some? then order.maximumOperations.value else allowed;
    var minimum := if order.sessionCapabilities != {} then 0 else 1;
    if !(1 <= order.lifetimeMinutes <= TOKEN_MAX_MINUTES) then Err(InvalidArguments)
    else if !(minimum <= maximum <= allowed) then Err(InvalidArguments)
    else if maximum == 0 && order.adapter.OpenAlex? then Err(InvalidArguments)
    else
      var digest := Sha256Of(order.plaintext);
      var scope := Scope(TokenIdOf(digest), order.target, order.adapter, maximum,
                         if order.adapter.OpenAlex? then maximum else 0,
                         if order.adapter.OpenAlex? then OPENALEX_MAX_PROVIDER_COST_MICROUSD else 0,
                         order.sessionCapabilities);
      Ok(Token(scope, digest, order.now, order.now + 60 * order.lifetimeMinutes, 0, 0, 0, 0, false, None))
  }

  function Issue(store: Store, order: Issuance): (Store, Result<Token, ProxyError>) {
    match BuildToken(order)
    case Err(error) => (store, Err(error))
    case Ok(token) =>
      if token.scope.tokenId in store.tokens || token.digest in store.digestIndex then
        (store, Err(DuplicateTokenIdentity))
      else
        (store.(tokens := store.tokens[token.scope.tokenId := token],
                digestIndex := store.digestIndex[token.digest := token.scope.tokenId]), Ok(token))
  }

  function Revoke(store: Store, tokenId: TokenId, now: int): (Store, Result<Token, ProxyError>) {
    if tokenId !in store.tokens then (store, Err(TokenNotFound))
    else
      var token := store.tokens[tokenId];
      if token.revoked then (store, Ok(token))
      else
        var revoked := token.(revoked := true, revokedAt := Some(now));
        (store.(tokens := store.tokens[tokenId := revoked]), Ok(revoked))
  }

  // Admission

  /** One call of `submit`, with the clock reading and the verdict of the content filter. */
  datatype Call = Call(bearer: string, pathProjectId: string, request: Request, unsafe: bool, now: int)

  datatype Verdict = Refuse(error: ProxyError) | Replay(operation: Operation) | Accept(token: Token)

  predicate OpaqueShape(text: string) {
    && 43 <= |text| <= 128
    && forall i :: 0 <= i < |text| ==>
         'A' <= text[i] <= 'Z' || 'a' <= text[i] <= 'z' || '0' <= text[i] <= '9' || text[i] == '_' || text[i] == '-'
  }

  function ValidateToken(token: Token, now: int): Result<Token, ProxyError> {
    if token.revoked then Err(TokenRevoked)
    else if now >= token.expiresAt then Err(SessionExpired)
    else Ok(token)
  }

  function Authenticate(store: Store, bearer: string, now: int): Result<Token, ProxyError> {
    if !OpaqueShape(bearer) then Err(MalformedAuthorization)
    else match FindTokenByDigest(store, Sha256Of(bearer))
      case None => Err(TokenUnknown)
      case Some(token) => if token.digest != Sha256Of(bearer) then Err(TokenUnknown) else ValidateToken(token, now)
  }

  predicate Authorized(scope: Scope, call: Call) {
    scope.target.projectId == call.pathProjectId && scope.target == call.request.content.target
  }

  predicate ProviderBudgetSpent(token: Token) {
    || token.admitted >= token.scope.maximumOperations
    || token.usedCalls + 1 > token.scope.maximumProviderCalls
    || (if token.reservedCost > token.reportedCost then token.reservedCost else token.reportedCost)
         + OPENALEX_RESERVED_SEARCH_COST_MICROUSD > token.scope.maximumProviderCost
  }

  /** The guards a fresh key meets, in the order the code tests them. */
  function JudgeFresh(store: Store, adapters: set<Adapter>, token: Token, call: Call): Verdict {
    var skew := call.request.content.clientTimestamp - call.now;
    if skew > MAX_TIMESTAMP_SKEW_SECONDS || -skew > MAX_TIMESTAMP_SKEW_SECONDS then Refuse(ClientTimestampOutOfRange)
    else if token.scope.adapter !in adapters then Refuse(ProxyUnavailable)
    else if token.scope.adapter.OpenAlex? && ProviderBudgetSpent(token) then Refuse(ProviderBudgetExhausted)
    else if token.admitted >= token.scope.maximumOperations then Refuse(OperationLimitExhausted)
    else if |ActiveOf(store.operations, token.scope.tokenId)| >= MAX_ACTIVE_OPERATIONS then
        Refuse(ConcurrencyLimitExceeded)
    else Accept(token)
  }

  function JudgeAuthorized(store: Store, adapters: set<Adapter>, token: Token, call: Call): Verdict {
    match FindByIdempotency(store, token.scope.tokenId, call.request.idempotencyKey)
    case Some(existing) =>
      if existing.request.requestChecksum != call.request.checksum then Refuse(IdempotencyConflict)
          else Replay(existing)
    case None => JudgeFresh(store, adapters, token, call)
  }

  function Judge(store: Store, adapters: set<Adapter>, call: Call): Verdict {
    if call.request.checksum != RequestChecksumOf(call.request.content) then Refuse(ChecksumMismatch)
    else if call.unsafe then Refuse(UnsafeRequestContent)
    else match Authenticate(store, call.bearer, call.now)
      case Err(error) => Refuse(error)
      case Ok(found) =>
        if found.scope.tokenId !in store.tokens then Refuse(TokenUnknown)
        else
          var locked := store.tokens[found.scope.tokenId];
          match ValidateToken(locked, call.now)
          case Err(error) => Refuse(error)
          case Ok(_) =>
            if !Authorized(locked.scope, call) then Refuse(AuthorizationScopeMismatch)
            else JudgeAuthorized(store, adapters, locked, call)
  }

  function CallsPerOperation(adapter: Adapter): int { if adapter.OpenAlex? then 1 else 0 }

  function ReservePerOperation(adapter: Adapter): int {
    if adapter.OpenAlex? then OPENALEX_RESERVED_SEARCH_COST_MICROUSD else 0
  }

  /** The RECEIVED record of an accepted call; OpenAlex keeps no request parameters. */
  function NewOperation(scope: Scope, request: Request, now: int): Operation {
    var retention := if scope.adapter.OpenAlex? then ChecksumOnly else FullParameters;
    WithResponseChecksum(Operation(
      BuildOperationId(request, scope), scope.tokenId, ScopeChecksumOf(scope),
      Evidence(request.idempotencyKey, request.content.target, request.checksum, retention),
      scope.adapter, Received, now, now, None, None, None, None, None, None,
      if scope.adapter.OpenAlex? then Some(Usage(0, 1, OPENALEX_RESERVED_SEARCH_COST_MICROUSD, 0, None, None))
          else None,
      None, None, if scope.adapter.OpenAlex? then None else Some(request.content), None, None))
  }

  function Charged(token: Token): Token {
    token.(admitted := token.admitted + 1,
           usedCalls := token.usedCalls + CallsPerOperation(token.scope.adapter),
           reservedCost := token.reservedCost + ReservePerOperation(token.scope.adapter))
  }

  datatype Admission = Rejected(error: ProxyError) | Replayed(delivery: Delivery) | Admitted(operation: Operation)

  /** What the store and the caller get of a call that passed every guard. */
  function Accepted(store: Store, token: Token, call: Call): (Store, Admission) {
    var op := NewOperation(token.scope, call.request, call.now);
    var key := (op.tokenId, op.request.idempotencyKey);
    if op.operationId in store.operations || key in store.idempotencyIndex then
      (store, Rejected(DuplicateOperationIdentity))
    else
      var added := store.(operations := store.operations[op.operationId := op],
                          idempotencyIndex := store.idempotencyIndex[key := op.operationId]);
      if !ValidToken(Charged(token)) then (added, Rejected(TokenContractViolation))
      else if op.tokenId !in store.tokens then (added, Rejected(TokenNotFound))
      else (added.(tokens := store.tokens[op.tokenId := Charged(token)]), Admitted(op))
  }

  function Admit(store: Store, adapters: set<Adapter>, call: Call): (Store, Admission) {
    match Judge(store, adapters, call)
    case Refuse(error) => (store, Rejected(error))
    case Replay(existing) => (store, Replayed(Deliver(existing, true, call.now)))
    case Accept(token) => Accepted(store, token, call)
  }

  // Execution and settlement

  function MarkedRunning(op: Operation, now: int): Operation {
    WithResponseChecksum(op.(status := Running, startedAt := Some(now), updatedAt := now))
  }

  datatype AdapterResult = AdapterResult(providerData: Option<string>, encodedSize: nat, serializable: bool, safe: bool,
    providerHttpCalls: int, reportedCost: int, responseChecksum: Option<string>, httpStatus: Option<int>,
    rateLimit: Option<int>, rateRemaining: Option<int>)

  /** How the adapter's future ends; `late` means the measured time exceeded the limit. */
  datatype SearchOutcome =
    | TimedOut
    | Returned(result: AdapterResult, late: bool)
    | RaisedAdapterError(code: string, providerHttpCalls: int, reportedCost: int, uncertain: bool,
                         responseChecksum: Option<string>, httpStatus: Option<int>)
    | RaisedInternalError
    | RaisedOther

  datatype CallEvidence = CallEvidence(httpCalls: int, reportedCost: int, responseChecksum: Option<string>,
                                       httpStatus: Option<int>)

  const NO_EVIDENCE := CallEvidence(0, 0, None, None)

  function EvidenceOf(result: AdapterResult): CallEvidence {
    CallEvidence(result.providerHttpCalls, result.reportedCost, result.responseChecksum, result.httpStatus)
  }

  function NonNegative(n: int): int { if n < 0 then 0 else n }

  /** The terminal record of a failure, or None when the constructors refuse its usage or checksum. */
  function FailedRecord(op: Operation, code: string, elapsedMs: int, evidence: CallEvidence,
                        reconciliation: bool, completed: int): Option<Operation>
  {
    var usage := Usage(NonNegative(elapsedMs), evidence.httpCalls, ReservePerOperation(op.adapter),
                       evidence.reportedCost, None, None);
    if !ValidUsage(usage) || !ValidResponseChecksum(evidence.responseChecksum) then None
    else Some(WithResponseChecksum(op.(
      status := if reconciliation then ReconciliationRequired else Failed,
      providerData := None, providerDataChecksum := None, providerDataSize := None,
      usage := Some(usage), errorCode := Some(code),
      reconciliationEvidence := if reconciliation then Some("PROVIDER_OUTCOME_UNCERTAIN_NO_AUTOMATIC_RETRY")
          else op.reconciliationEvidence,
      providerResponseChecksum := evidence.responseChecksum, providerHttpStatus := evidence.httpStatus,
      completedAt := Some(completed), updatedAt := completed)))
  }

  function SucceededRecord(op: Operation, result: AdapterResult, elapsedMs: int, completed: int): Option<Operation> {
    var usage := Usage(NonNegative(elapsedMs), result.providerHttpCalls, ReservePerOperation(op.adapter),
                       result.reportedCost, result.rateLimit, result.rateRemaining);
    if !ValidUsage(usage) || !ValidResponseChecksum(result.responseChecksum) then None
    else Some(WithResponseChecksum(op.(
      status := Succeeded,
      providerData := result.providerData, providerDataChecksum := Some(DataChecksumOf(result.providerData)),
      providerDataSize := Some(result.encodedSize), usage := Some(usage),
      providerResponseChecksum := result.responseChecksum, providerHttpStatus := result.httpStatus,
      completedAt := Some(completed), updatedAt := completed)))
  }

  /** The failure recorded for any other exception: nothing is known of calls or cost. */
  function UnclassifiedFailure(op: Operation, elapsedMs: int, completed: int): Option<Operation> {
    FailedRecord(op, if op.adapter.OpenAlex? then "PROVIDER_UNAVAILABLE" else "FAKE_ADAPTER_FAILURE",
                 elapsedMs, NO_EVIDENCE, false, completed)
  }

  function ConcludedResult(op: Operation, result: AdapterResult, late: bool, elapsedMs: int,
                           completed: int): Option<Operation> {
    if late then
      FailedRecord(op, if op.adapter.OpenAlex? then "PROVIDER_TIMEOUT" else "OPERATION_TIMEOUT",
                   elapsedMs, EvidenceOf(result), false, completed)
    else if !result.serializable then
      if op.adapter.OpenAlex? then FailedRecord(op, "PROVIDER_UNAVAILABLE", elapsedMs, NO_EVIDENCE, false, completed)
          else None
    else if result.encodedSize > MAX_RESULT_BYTES then
      FailedRecord(op, if op.adapter.OpenAlex? then "PROVIDER_RESPONSE_TOO_LARGE" else "RESPONSE_LIMIT_EXCEEDED",
                   elapsedMs, EvidenceOf(result), false, completed)
    else if !result.safe then
      FailedRecord(op, if op.adapter.OpenAlex? then "PROVIDER_INVALID_RESPONSE" else "UNSAFE_PROVIDER_DATA",
                   elapsedMs, EvidenceOf(result), false, completed)
    else SucceededRecord(op, result, elapsedMs, completed)
  }

  /** The record that ends the operation; None when the worker dies on an exception and writes nothing. */
  function Conclude(op: Operation, outcome: SearchOutcome, elapsedMs: int, completed: int): Option<Operation> {
    match outcome
    case TimedOut =>
      if op.adapter.OpenAlex? then
        FailedRecord(op, "PROVIDER_RECONCILIATION_REQUIRED", MAX_TIMEOUT_MS, NO_EVIDENCE, true, completed)
      else FailedRecord(op, "OPERATION_TIMEOUT", MAX_TIMEOUT_MS, NO_EVIDENCE, false, completed)
    case Returned(result, late) =>
      // An exception raised while the result is handled reaches the generic handler.
      (match ConcludedResult(op, result, late, elapsedMs, completed)
       case Some(record) => Some(record)
       case None => UnclassifiedFailure(op, elapsedMs, completed))
    case RaisedAdapterError(code, calls, cost, uncertain, checksum, httpStatus) =>
      FailedRecord(op, code, elapsedMs, CallEvidence(calls, cost, checksum, httpStatus), uncertain, completed)
    case RaisedInternalError => FailedRecord(op, "PROVIDER_UNAVAILABLE", elapsedMs, NO_EVIDENCE, false, completed)
    case RaisedOther => UnclassifiedFailure(op, elapsedMs, completed)
  }

  /**
   * Whether the outcome's record is saved inside the `try` around the call: what then raises before
   * the record is delivered reaches the generic handler, which writes a record of its own.
   */
  predicate SavedInTry(op: Operation, outcome: SearchOutcome, elapsedMs: int, completed: int) {
    || outcome.TimedOut?
    || (outcome.Returned? && ConcludedResult(op, outcome.result, outcome.late, elapsedMs, completed).Some?)
  }

  /** `_save_operation`: one unit of work that adds the cost to the token and overwrites the record. */
  function Save(store: Store, op: Operation, delta: int): (Store, bool) {
    if delta != 0 && op.tokenId !in store.tokens then (store, false)
    else
      var paid := if delta == 0 then store
                  else
                    var token := store.tokens[op.tokenId];
                    store.(tokens := store.tokens[op.tokenId := token.(reportedCost := token.reportedCost + delta)]);
      if op.operationId !in store.operations then (paid, false)
      else (paid.(operations := store.operations[op.operationId := op]), true)
  }

  /** What settling leaves in the store: the record and its reported cost, or nothing new. */
  function Settled(store: Store, record: Option<Operation>): Store {
    if record.Some? then Save(store, record.value, ReportedCost(record.value)).0 else store
  }

  const RESTART_EVIDENCE := "PROCESS_RESTART_NO_LIVE_ADAPTER_EXECUTION"

  /** `reconcile_interrupted`, called once by start-up before any request is served. */
  function Restarted(store: Store): Store {
    store.(operations := Reconciled(store.operations, RESTART_EVIDENCE))
  }
}
