/**
 * The Proxy's immutable records and identities.
 *
 * A checksum is the free constructor over the content it is computed from, so two checksums are
 * equal exactly when their contents are; an instant is an integer number of seconds.
 */
module ProxyContracts {
  import opened Outcomes

  const MAX_RESULT_BYTES := 512 * 1024
  const MAX_TIMEOUT_MS := 10_000
  const MAX_ACTIVE_OPERATIONS := 2
  const MAX_TOKEN_OPERATIONS := 50
  const MAX_TIMESTAMP_SKEW_SECONDS := 5 * 60
  const TOKEN_MAX_MINUTES := 120
  const OPENALEX_MAX_PROVIDER_CALLS := 20
  const OPENALEX_MAX_PROVIDER_COST_MICROUSD := 50_000
  const OPENALEX_RESERVED_SEARCH_COST_MICROUSD := 1_000

  datatype Adapter = Fake | OpenAlex | LocalProgress

  /** What a scope authorizes and a request asks for, compared field by field. */
  datatype Target = Target(projectId: string, packageId: string, packageChecksum: string,
    workflowId: string, workflowVersion: string, workflowChecksum: string, capability: string)

  datatype Digest = Sha256Of(plaintext: string)
  datatype TokenId = TokenIdOf(digest: Digest)

  datatype Scope = Scope(tokenId: TokenId, target: Target, adapter: Adapter, maximumOperations: int,
    maximumProviderCalls: int, maximumProviderCost: int, sessionCapabilities: set<string>)

  datatype ScopeChecksum = ScopeChecksumOf(scope: Scope)

  predicate ValidScope(scope: Scope) {
    && 0 <= scope.maximumOperations <= MAX_TOKEN_OPERATIONS
    && (scope.maximumOperations == 0 ==> scope.sessionCapabilities != {})
    && (if scope.adapter.OpenAlex? then
          && 1 <= scope.maximumOperations <= OPENALEX_MAX_PROVIDER_CALLS
          && scope.maximumProviderCalls == scope.maximumOperations
          && scope.maximumProviderCost == OPENALEX_MAX_PROVIDER_COST_MICROUSD
        else
          scope.maximumProviderCalls == 0 && scope.maximumProviderCost == 0)
  }

  datatype Token = Token(scope: Scope, digest: Digest, issuedAt: int, expiresAt: int,
    admitted: int, usedCalls: int, reservedCost: int, reportedCost: int,
    revoked: bool, revokedAt: Option<int>)

  /** What the token's constructor accepts. */
  predicate ValidToken(token: Token) {
    && token.issuedAt < token.expiresAt
    && 0 <= token.admitted <= token.scope.maximumOperations
    && 0 <= token.usedCalls <= token.scope.maximumProviderCalls
    && 0 <= token.reservedCost <= token.scope.maximumProviderCost
    && 0 <= token.reportedCost
  }

  datatype RequestContent = RequestContent(target: Target, parameters: string, harness: string, clientTimestamp: int)
  datatype RequestChecksum = RequestChecksumOf(content: RequestContent)
  datatype Request = Request(idempotencyKey: string, content: RequestContent, checksum: RequestChecksum)

  datatype Retention = FullParameters | ChecksumOnly
  datatype Evidence = Evidence(idempotencyKey: string, target: Target, requestChecksum: RequestChecksum,
                               retention: Retention)

  datatype Usage = Usage(latencyMs: int, providerHttpCalls: int, reservedCost: int, reportedCost: int,
    rateLimit: Option<int>, rateRemaining: Option<int>)

  predicate ValidUsage(usage: Usage) {
    && 0 <= usage.latencyMs && 0 <= usage.providerHttpCalls <= 1
    && 0 <= usage.reservedCost && 0 <= usage.reportedCost
    && (usage.rateLimit.Some? ==> 0 <= usage.rateLimit.value)
    && (usage.rateRemaining.Some? ==> 0 <= usage.rateRemaining.value)
  }

  datatype OperationId = OperationIdOf(projectId: string, packageId: string, workflowId: string, capability: string,
    idempotencyKey: string, requestChecksum: RequestChecksum, scopeChecksum: ScopeChecksum)

  function BuildOperationId(request: Request, scope: Scope): OperationId {
    var target := request.content.target;
    OperationIdOf(target.projectId, target.packageId, target.workflowId, target.capability,
                  request.idempotencyKey, request.checksum, ScopeChecksumOf(scope))
  }

  datatype Status = Received | Running | Succeeded | Failed | ReconciliationRequired

  predicate Active(status: Status) { status.Received? || status.Running? }

  /** The checksum of serialized provider data; None is JSON null, which an adapter may return. */
  datatype DataChecksum = DataChecksumOf(data: Option<string>)

  predicate WellFormedChecksum(text: string) {
    && |text| == 71 && text[..7] == "sha256:"
    && forall i :: 7 <= i < |text| ==> '0' <= text[i] <= '9' || 'a' <= text[i] <= 'f'
  }

  predicate ValidResponseChecksum(checksum: Option<string>) { checksum.Some? ==> WellFormedChecksum(checksum.value) }

  datatype Operation = Operation(operationId: OperationId, tokenId: TokenId, scopeChecksum: ScopeChecksum,
    request: Evidence, adapter: Adapter, status: Status, admittedAt: int, updatedAt: int,
    startedAt: Option<int>, completedAt: Option<int>, providerData: Option<string>,
    providerDataChecksum: Option<DataChecksum>, providerDataSize: Option<int>,
    responseChecksum: Option<ResponseChecksum>, usage: Option<Usage>, errorCode: Option<string>,
    reconciliationEvidence: Option<string>, retainedRequest: Option<RequestContent>,
    providerResponseChecksum: Option<string>, providerHttpStatus: Option<int>)

  /** The fields a response checksum covers; retry class and budget follow from them. */
  datatype ResponseContent = ResponseContent(operationId: OperationId, target: Target, adapter: Adapter,
    requestChecksum: RequestChecksum, status: Status, providerData: Option<string>,
    providerDataChecksum: Option<DataChecksum>, usage: Option<Usage>, retention: Retention,
    providerResponseChecksum: Option<string>, providerHttpStatus: Option<int>, errorCode: Option<string>)
  datatype ResponseChecksum = ResponseChecksumOf(content: ResponseContent)

  function SemanticContent(op: Operation): ResponseContent {
    ResponseContent(op.operationId, op.request.target, op.adapter, op.request.requestChecksum, op.status,
                    op.providerData, op.providerDataChecksum, op.usage, op.request.retention,
                    op.providerResponseChecksum, op.providerHttpStatus, op.errorCode)
  }

  function WithResponseChecksum(op: Operation): Operation {
    op.(responseChecksum := Some(ResponseChecksumOf(SemanticContent(op))))
  }

  datatype Delivery = Delivery(content: ResponseContent, responseChecksum: Option<ResponseChecksum>,
    replayed: bool, serverTimestamp: int)

  function Deliver(op: Operation, replayed: bool, now: int): Delivery {
    Delivery(SemanticContent(op), op.responseChecksum, replayed, now)
  }

  function ReportedCost(op: Operation): nat {
    if op.usage.Some? && op.usage.value.reportedCost > 0 then op.usage.value.reportedCost else 0
  }

  function HttpCalls(op: Operation): nat {
    if op.usage.Some? && op.usage.value.providerHttpCalls > 0 then op.usage.value.providerHttpCalls else 0
  }
}
