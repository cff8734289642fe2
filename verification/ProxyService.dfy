/** The Proxy service over the in-memory store; each method is one unit of work under the lock. */
module ProxyService {
  import opened Outcomes
  import opened ProxyContracts
  import opened ProxyStore
  import opened ProxySteps

  class CloudAPIProxyService {
    const database: InMemoryProxyDatabase
    const adapters: set<Adapter>

    constructor (database: InMemoryProxyDatabase, adapters: set<Adapter>)
      ensures this.database == database && this.adapters == adapters
    {
      this.database := database;
      this.adapters := adapters;
    }

    method IssueToken(order: Issuance) returns (issued: Result<Token, ProxyError>)
      modifies database
      ensures (database.View(), issued) == Issue(old(database.View()), order)
    {
      match BuildToken(order)
      case Err(error) => issued := Err(error);
      case Ok(token) =>
        var added := database.AddToken(token);
        issued := if added then Ok(token) else Err(DuplicateTokenIdentity);
    }

    method RevokeToken(tokenId: TokenId, now: int) returns (result: Result<Token, ProxyError>)
      modifies database
      ensures (database.View(), result) == Revoke(old(database.View()), tokenId, now)
    {
      if tokenId !in database.tokens {
        return Err(TokenNotFound);
      }
      var token := database.tokens[tokenId];
      if token.revoked {
        return Ok(token);
      }
      var revoked := token.(revoked := true, revokedAt := Some(now));
      database.tokens := database.tokens[tokenId := revoked];
      return Ok(revoked);
    }

    /** The first unit of work of `submit`. */
    method AdmitCall(call: Call) returns (admission: Admission)
      modifies database
      ensures (database.View(), admission) == Admit(old(database.View()), adapters, call)
    {
      if call.request.checksum != RequestChecksumOf(call.request.content) {
        return Rejected(ChecksumMismatch);
      }
      if call.unsafe {
        return Rejected(UnsafeRequestContent);
      }
      if !OpaqueShape(call.bearer) {
        return Rejected(MalformedAuthorization);
      }
      var digest := Sha256Of(call.bearer);
      var found := FindTokenByDigest(database.View(), digest);
      if found.None? || found.value.digest != digest {
        return Rejected(TokenUnknown);
      }
      var usable := ValidateToken(found.value, call.now);
      if usable.Err? {
        return Rejected(usable.error);
      }
      if found.value.scope.tokenId !in database.tokens {
        return Rejected(TokenUnknown);
      }
      var token := database.tokens[found.value.scope.tokenId];
      usable := ValidateToken(token, call.now);
      if usable.Err? {
        return Rejected(usable.error);
      }
      if !Authorized(token.scope, call) {
        return Rejected(AuthorizationScopeMismatch);
      }
      var existing := FindByIdempotency(database.View(), token.scope.tokenId, call.request.idempotencyKey);
      if existing.Some? {
        if existing.value.request.requestChecksum != call.request.checksum {
          return Rejected(IdempotencyConflict);
        }
        return Replayed(Deliver(existing.value, true, call.now));
      }
      admission := AdmitFresh(token, call);
    }

    /** The guards a fresh key meets, and the record and the charge of a call that passes them. */
    method AdmitFresh(token: Token, call: Call) returns (admission: Admission)
      modifies database
      ensures (database.View(), admission) ==
              var verdict := JudgeFresh(old(database.View()), adapters, token, call);
              if verdict.Refuse? then (old(database.View()), Rejected(verdict.error))
              else Accepted(old(database.View()), token, call)
    {
      var skew := call.request.content.clientTimestamp - call.now;
      if skew > MAX_TIMESTAMP_SKEW_SECONDS || -skew > MAX_TIMESTAMP_SKEW_SECONDS {
        return Rejected(ClientTimestampOutOfRange);
      }
      if token.scope.adapter !in adapters {
        return Rejected(ProxyUnavailable);
      }
      if token.scope.adapter.OpenAlex? && ProviderBudgetSpent(token) {
        return Rejected(ProviderBudgetExhausted);
      }
      if token.admitted >= token.scope.maximumOperations {
        return Rejected(OperationLimitExhausted);
      }
      if |ActiveOf(database.operations, token.scope.tokenId)| >= MAX_ACTIVE_OPERATIONS {
        return Rejected(ConcurrencyLimitExceeded);
      }
      var op := NewOperation(token.scope, call.request, call.now);
      var added := database.AddOperation(op);
      if !added {
        return Rejected(DuplicateOperationIdentity);
      }
      var charged := Charged(token);
      if !ValidToken(charged) {
        return Rejected(TokenContractViolation);
      }
      var saved := database.SaveToken(charged);
      return if saved then Admitted(op) else Rejected(TokenNotFound);
    }

    method SaveOperation(op: Operation, delta: int) returns (saved: bool)
      modifies database
      ensures (database.View(), saved) == Save(old(database.View()), op, delta)
    {
      if delta != 0 {
        if op.tokenId !in database.tokens {
          return false;
        }
        var token := database.tokens[op.tokenId];
        database.tokens := database.tokens[op.tokenId := token.(reportedCost := token.reportedCost + delta)];
      }
      saved := database.SaveOperation(op);
    }

    /** The second unit of work of `submit`: the worker's own copy overwrites the record. */
    method MarkRunning(op: Operation, now: int) returns (running: Operation)
      modifies database
      ensures running == MarkedRunning(op, now)
      ensures database.View() == Save(old(database.View()), running, 0).0
    {
      running := MarkedRunning(op, now);
      var _ := SaveOperation(running, 0);
    }

    method FinishFailure(op: Operation, code: string, elapsedMs: int, evidence: CallEvidence,
                         reconciliation: bool, completed: int)
      returns (record: Option<Operation>)
      modifies database
      ensures record == FailedRecord(op, code, elapsedMs, evidence, reconciliation, completed)
      ensures database.View() == Settled(old(database.View()), record)
    {
      record := FailedRecord(op, code, elapsedMs, evidence, reconciliation, completed);
      if record.Some? {
        var _ := SaveOperation(record.value, ReportedCost(record.value));
      }
    }

    /** The handling of a future that ended in time to be inspected. */
    method FinishResult(op: Operation, result: AdapterResult, late: bool, elapsedMs: int, completed: int)
      returns (record: Option<Operation>)
      modifies database
      ensures record == ConcludedResult(op, result, late, elapsedMs, completed)
      ensures database.View() == Settled(old(database.View()), record)
    {
      var live := op.adapter.OpenAlex?;
      if late {
        record := FinishFailure(op, if live then "PROVIDER_TIMEOUT" else "OPERATION_TIMEOUT",
                                elapsedMs, EvidenceOf(result), false, completed);
      } else if !result.serializable {
        if live {
          record := FinishFailure(op, "PROVIDER_UNAVAILABLE", elapsedMs, NO_EVIDENCE, false, completed);
        } else {
          record := None;
        }
      } else if result.encodedSize > MAX_RESULT_BYTES {
        record := FinishFailure(op, if live then "PROVIDER_RESPONSE_TOO_LARGE" else "RESPONSE_LIMIT_EXCEEDED",
                                elapsedMs, EvidenceOf(result), false, completed);
      } else if !result.safe {
        record := FinishFailure(op, if live then "PROVIDER_INVALID_RESPONSE" else "UNSAFE_PROVIDER_DATA",
                                elapsedMs, EvidenceOf(result), false, completed);
      } else {
        record := SucceededRecord(op, result, elapsedMs, completed);
        if record.Some? {
          var _ := SaveOperation(record.value, ReportedCost(record.value));
        }
      }
    }

    /** The last part of `submit`: the adapter's outcome becomes the terminal record. */
    method FinishSearch(op: Operation, outcome: SearchOutcome, elapsedMs: int, completed: int)
      returns (record: Option<Operation>)
      modifies database
      ensures record == Conclude(op, outcome, elapsedMs, completed)
      ensures database.View() == Settled(old(database.View()), record)
    {
      match outcome
      case TimedOut =>
        if op.adapter.OpenAlex? {
          record := FinishFailure(op, "PROVIDER_RECONCILIATION_REQUIRED", MAX_TIMEOUT_MS, NO_EVIDENCE, true, completed);
        } else {
          record := FinishFailure(op, "OPERATION_TIMEOUT", MAX_TIMEOUT_MS, NO_EVIDENCE, false, completed);
        }
      case Returned(result, late) =>
        record := FinishResult(op, result, late, elapsedMs, completed);
        if record.None? {
          record := FinishFailure(op, if op.adapter.OpenAlex? then "PROVIDER_UNAVAILABLE" else "FAKE_ADAPTER_FAILURE",
                                  elapsedMs, NO_EVIDENCE, false, completed);
        }
      case RaisedAdapterError(code, calls, cost, uncertain, checksum, httpStatus) =>
        record := FinishFailure(op, code, elapsedMs, CallEvidence(calls, cost, checksum, httpStatus), uncertain,
                                completed);
      case RaisedInternalError =>
        record := FinishFailure(op, "PROVIDER_UNAVAILABLE", elapsedMs, NO_EVIDENCE, false, completed);
      case RaisedOther =>
        record := FinishFailure(op, if op.adapter.OpenAlex? then "PROVIDER_UNAVAILABLE" else "FAKE_ADAPTER_FAILURE",
                                elapsedMs, NO_EVIDENCE, false, completed);
    }

    /** The generic handler, when the delivery of a record saved inside the `try` raises. */
    method FinishUndelivered(op: Operation, elapsedMs: int, completed: int) returns (record: Option<Operation>)
      modifies database
      ensures record == UnclassifiedFailure(op, elapsedMs, completed)
      ensures database.View() == Settled(old(database.View()), record)
    {
      record := FinishFailure(op, if op.adapter.OpenAlex? then "PROVIDER_UNAVAILABLE" else "FAKE_ADAPTER_FAILURE",
                              elapsedMs, NO_EVIDENCE, false, completed);
    }

    method ReconcileInterrupted() returns (count: nat)
      modifies database
      ensures database.View() == Restarted(old(database.View()))
      ensures count == |RunningIds(old(database.View()).operations)|
    {
      count := database.ReconcileRunning(RESTART_EVIDENCE);
    }
  }
}
