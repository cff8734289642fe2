/** What every unit of work of the Proxy keeps true of the store. */
module ProxyLedger {
  import opened Outcomes
  import opened Totals
  import opened ProxyContracts
  import opened ProxyStore
  import opened ProxySteps

  /** The digest index is the inverse of the tokens' digests. */
  ghost predicate TokensIndexed(s: Store) {
    && (forall t :: t in s.tokens ==> s.tokens[t].scope.tokenId == t && t == TokenIdOf(s.tokens[t].digest))
    && (forall t :: t in s.tokens ==> s.tokens[t].digest in s.digestIndex && s.digestIndex[s.tokens[t].digest] == t)
    && (forall d :: d in s.digestIndex ==> s.digestIndex[d] in s.tokens && s.tokens[s.digestIndex[d]].digest == d)
  }

  ghost predicate Owned(s: Store, op: Operation) {
    && op.tokenId in s.tokens
    && op.scopeChecksum == ScopeChecksumOf(s.tokens[op.tokenId].scope)
    && op.adapter == s.tokens[op.tokenId].scope.adapter
    && op.operationId.scopeChecksum == op.scopeChecksum
    && op.operationId.idempotencyKey == op.request.idempotencyKey
    && op.operationId.requestChecksum == op.request.requestChecksum
  }

  ghost predicate Filed(s: Store, id: OperationId)
    requires id in s.operations
  {
    var op := s.operations[id];
    && op.operationId == id && Owned(s, op)
    && (op.tokenId, op.request.idempotencyKey) in s.idempotencyIndex
    && s.idempotencyIndex[(op.tokenId, op.request.idempotencyKey)] == id
  }

  ghost predicate Pointing(s: Store, key: (TokenId, string))
    requires key in s.idempotencyIndex
  {
    var id := s.idempotencyIndex[key];
    id in s.operations && (s.operations[id].tokenId, s.operations[id].request.idempotencyKey) == key
  }

  /** The idempotency index is the inverse of the operations' (token, key) pairs. */
  ghost predicate OperationsIndexed(s: Store) {
    && (forall id :: id in s.operations ==> Filed(s, id))
    && (forall key :: key in s.idempotencyIndex ==> Pointing(s, key))
  }

  ghost predicate SameIdentity(a: Operation, b: Operation) {
    && a.operationId == b.operationId && a.tokenId == b.tokenId && a.scopeChecksum == b.scopeChecksum
    && a.request == b.request && a.adapter == b.adapter && a.retainedRequest == b.retainedRequest
    && a.admittedAt == b.admittedAt
  }

  /** An entry stays filed while its identity, its owner's scope and its index entry stay. */
  lemma StaysFiled(s: Store, s': Store, id: OperationId)
    requires id in s.operations && Filed(s, id) && id in s'.operations
    requires SameIdentity(s.operations[id], s'.operations[id])
    requires s.operations[id].tokenId in s'.tokens
    requires s'.tokens[s.operations[id].tokenId].scope == s.tokens[s.operations[id].tokenId].scope
    requires var key := (s.operations[id].tokenId, s.operations[id].request.idempotencyKey);
             key in s'.idempotencyIndex && s'.idempotencyIndex[key] == s.idempotencyIndex[key]
    ensures Filed(s', id)
  {
  }

  ghost predicate SameScopes(s: Store, s': Store) {
    forall t :: t in s.tokens ==>
      t in s'.tokens && s'.tokens[t].scope == s.tokens[t].scope && s'.tokens[t].digest == s.tokens[t].digest
  }

  /** Rewriting records in place, with the indexes untouched, keeps the indexes exact. */
  lemma RewriteKeepsIndexes(s: Store, s': Store)
    requires TokensIndexed(s) && OperationsIndexed(s)
    requires s'.tokens.Keys == s.tokens.Keys && s'.operations.Keys == s.operations.Keys
    requires s'.digestIndex == s.digestIndex && s'.idempotencyIndex == s.idempotencyIndex
    requires SameScopes(s, s')
    requires forall id :: id in s.operations ==> SameIdentity(s.operations[id], s'.operations[id])
    ensures TokensIndexed(s') && OperationsIndexed(s')
  {
    forall id | id in s'.operations ensures Filed(s', id) {
      assert Filed(s, id);
      StaysFiled(s, s', id);
    }
    forall key | key in s'.idempotencyIndex ensures Pointing(s', key) {
      assert Pointing(s, key);
      assert SameIdentity(s.operations[s.idempotencyIndex[key]], s'.operations[s.idempotencyIndex[key]]);
    }
  }

  lemma StoredIsOwned(s: Store, id: OperationId)
    requires OperationsIndexed(s) && id in s.operations
    ensures s.operations[id].operationId == id && Owned(s, s.operations[id])
  {
    assert Filed(s, id);
  }

  function AdmissionUsage(adapter: Adapter): Option<Usage> {
    if adapter.OpenAlex? then Some(Usage(0, 1, OPENALEX_RESERVED_SEARCH_COST_MICROUSD, 0, None, None)) else None
  }

  /** Status, data, checksum, error and usage of one record agree. */
  ghost predicate Coherent(op: Operation) {
    && op.responseChecksum == Some(ResponseChecksumOf(SemanticContent(op)))
    && op.providerDataChecksum == (if op.status.Succeeded? then Some(DataChecksumOf(op.providerData)) else None)
    && (op.providerData.Some? ==> op.status.Succeeded?)
    && ValidResponseChecksum(op.providerResponseChecksum)
    && (op.errorCode.Some? <==> op.status.Failed? || op.status.ReconciliationRequired?)
    && (op.reconciliationEvidence.Some? <==> op.status.ReconciliationRequired?)
    && (op.startedAt.None? <==> op.status.Received?)
    && (Active(op.status) ==> op.usage == AdmissionUsage(op.adapter) && op.completedAt.None?)
    && (op.usage.Some? ==> ValidUsage(op.usage.value))
    && (op.adapter.OpenAlex? ==> op.request.retention.ChecksumOnly? && op.retainedRequest.None?)
  }

  ghost function CostOf(t: TokenId): Operation -> nat {
    (op: Operation) => if op.tokenId == t then ReportedCost(op) else 0
  }

  ghost function CallsOf(t: TokenId): Operation -> nat {
    (op: Operation) => if op.tokenId == t then HttpCalls(op) else 0
  }

  /** The token's counters follow from the number of its stored operations; at most two are active. */
  ghost predicate Counted(s: Store, t: TokenId)
    requires t in s.tokens
  {
    var token := s.tokens[t];
    && ValidScope(token.scope)
    && ValidToken(token)
    && token.admitted == |OperationsOf(s.operations, t)|
    && token.usedCalls == CallsPerOperation(token.scope.adapter) * token.admitted
    && token.reservedCost == ReservePerOperation(token.scope.adapter) * token.admitted
    && |ActiveOf(s.operations, t)| <= MAX_ACTIVE_OPERATIONS
  }

  /** What the token's reported cost exceeds the sum over its stored operations by. */
  ghost function Gap(s: Store, t: TokenId): int
    requires t in s.tokens
  {
    s.tokens[t].reportedCost - Total(s.operations, CostOf(t))
  }

  /** The token reports at least what its stored operations do. */
  ghost predicate Paid(s: Store, t: TokenId)
    requires t in s.tokens
  {
    Gap(s, t) >= 0
  }

  /** A step that adds to a token's reported cost exactly what its records now report more. */
  ghost predicate GapsKept(s: Store, s': Store) {
    && (forall t :: t in s.tokens ==> t in s'.tokens && Gap(s', t) == Gap(s, t))
    && (forall t :: t in s'.tokens && t !in s.tokens ==> Gap(s', t) == 0)
  }

  lemma GapsKeepPaid(s: Store, s': Store)
    requires AllPaid(s) && GapsKept(s, s')
    ensures AllPaid(s')
  {
    forall t | t in s'.tokens ensures Paid(s', t) {
      assert t in s.tokens ==> Paid(s, t);
    }
  }

  ghost predicate AllCoherent(s: Store) { forall id :: id in s.operations ==> Coherent(s.operations[id]) }

  ghost predicate AllCounted(s: Store) { forall t :: t in s.tokens ==> Counted(s, t) }

  ghost predicate AllPaid(s: Store) { forall t :: t in s.tokens ==> Paid(s, t) }

  ghost predicate Sound(s: Store) {
    TokensIndexed(s) && OperationsIndexed(s) && AllCoherent(s) && AllCounted(s) && AllPaid(s)
  }

  lemma EmptyIsSound()
    ensures Sound(EMPTY_STORE)
  {
  }

  lemma NoOperations(s: Store, t: TokenId)
    requires OperationsIndexed(s) && t !in s.tokens
    ensures OperationsOf(s.operations, t) == {} && ActiveOf(s.operations, t) == {}
    ensures Total(s.operations, CostOf(t)) == 0
  {
    assert forall id :: id in s.operations ==> Filed(s, id);
    TotalBounded(s.operations, CostOf(t), {});
  }

  /** The store once a token under a fresh identity is added. */
  ghost function WithToken(s: Store, token: Token): Store {
    s.(tokens := s.tokens[token.scope.tokenId := token],
       digestIndex := s.digestIndex[token.digest := token.scope.tokenId])
  }

  lemma IssueAdds(s: Store, order: Issuance)
    requires Issue(s, order).1.Ok?
    ensures var token := Issue(s, order).1.value;
            && Issue(s, order).0 == WithToken(s, token)
            && token.scope.tokenId !in s.tokens && token.digest !in s.digestIndex
            && token.scope.tokenId == TokenIdOf(token.digest)
            && ValidScope(token.scope) && ValidToken(token)
            && token.admitted == token.usedCalls == token.reservedCost == token.reportedCost == 0
  {
  }

  lemma WithTokenDigests(s: Store, token: Token)
    requires TokensIndexed(s)
    requires token.scope.tokenId !in s.tokens && token.digest !in s.digestIndex
             && token.scope.tokenId == TokenIdOf(token.digest)
    ensures TokensIndexed(WithToken(s, token))
  {
  }

  lemma WithTokenIndexes(s: Store, token: Token)
    requires OperationsIndexed(s) && token.scope.tokenId !in s.tokens
    ensures OperationsIndexed(WithToken(s, token))
  {
    var s' := WithToken(s, token);
    forall id | id in s'.operations ensures Filed(s', id) {
      assert Filed(s, id);
    }
    forall key | key in s'.idempotencyIndex ensures Pointing(s', key) {
      assert Pointing(s, key);
    }
  }

  lemma WithTokenCounts(s: Store, token: Token)
    requires AllCounted(s) && OperationsIndexed(s) && token.scope.tokenId !in s.tokens
    requires ValidScope(token.scope) && ValidToken(token)
    requires token.admitted == token.usedCalls == token.reservedCost == 0
    ensures AllCounted(WithToken(s, token))
  {
    NoOperations(s, token.scope.tokenId);
    var s' := WithToken(s, token);
    forall t | t in s'.tokens ensures Counted(s', t) {
      assert t == token.scope.tokenId || Counted(s, t);
    }
  }

  lemma WithTokenPays(s: Store, token: Token)
    requires OperationsIndexed(s) && token.scope.tokenId !in s.tokens && token.reportedCost == 0
    ensures GapsKept(s, WithToken(s, token))
  {
    NoOperations(s, token.scope.tokenId);
  }

  lemma IssueKeepsSound(s: Store, order: Issuance)
    requires Sound(s)
    ensures Sound(Issue(s, order).0) && GapsKept(s, Issue(s, order).0)
  {
    if Issue(s, order).1.Ok? {
      var token := Issue(s, order).1.value;
      IssueAdds(s, order);
      WithTokenDigests(s, token);
      WithTokenIndexes(s, token);
      WithTokenCounts(s, token);
      WithTokenPays(s, token);
      GapsKeepPaid(s, WithToken(s, token));
    } else {
      assert Issue(s, order).0 == s;
    }
  }

  /** Overwriting a token by one of the same scope and digest keeps the indexes exact. */
  lemma RetokenedIndexes(s: Store, t: TokenId, token: Token)
    requires TokensIndexed(s) && OperationsIndexed(s)
    requires t in s.tokens && token.scope == s.tokens[t].scope && token.digest == s.tokens[t].digest
    ensures TokensIndexed(s.(tokens := s.tokens[t := token])) && OperationsIndexed(s.(tokens := s.tokens[t := token]))
  {
    RewriteKeepsIndexes(s, s.(tokens := s.tokens[t := token]));
  }

  lemma RevokeKeepsIndexes(s: Store, t: TokenId, now: int)
    requires TokensIndexed(s) && OperationsIndexed(s) && AllCoherent(s)
    ensures var s' := Revoke(s, t, now).0; TokensIndexed(s') && OperationsIndexed(s') && AllCoherent(s')
  {
    if t in s.tokens && !s.tokens[t].revoked {
      RetokenedIndexes(s, t, s.tokens[t].(revoked := true, revokedAt := Some(now)));
    }
  }

  lemma RevokeKeepsCounts(s: Store, t: TokenId, now: int)
    requires AllCounted(s)
    ensures AllCounted(Revoke(s, t, now).0)
  {
    var s' := Revoke(s, t, now).0;
    forall u | u in s'.tokens ensures Counted(s', u) {
      assert Counted(s, u);
    }
  }

  lemma RevokeKeepsPaid(s: Store, t: TokenId, now: int)
    ensures GapsKept(s, Revoke(s, t, now).0)
  {
  }

  lemma RevokeKeepsSound(s: Store, t: TokenId, now: int)
    requires Sound(s)
    ensures Sound(Revoke(s, t, now).0) && GapsKept(s, Revoke(s, t, now).0)
  {
    RevokeKeepsIndexes(s, t, now);
    RevokeKeepsCounts(s, t, now);
    RevokeKeepsPaid(s, t, now);
    GapsKeepPaid(s, Revoke(s, t, now).0);
  }

  // Admission

  /** An accepted call presents the live token its bearer digests to, under a key not used before. */
  lemma AcceptedFacts(s: Store, adapters: set<Adapter>, call: Call)
    requires TokensIndexed(s)
    requires Judge(s, adapters, call).Accept?
    ensures var token := Judge(s, adapters, call).token;
            && token.scope.tokenId == TokenIdOf(Sha256Of(call.bearer))
            && token.scope.tokenId in s.tokens && s.tokens[token.scope.tokenId] == token
            && FindByIdempotency(s, token.scope.tokenId, call.request.idempotencyKey).None?
            && JudgeFresh(s, adapters, token, call) == Accept(token)
  {
  }

  lemma FreshKeyIsUnused(s: Store, t: TokenId, key: string)
    requires OperationsIndexed(s) && FindByIdempotency(s, t, key).None?
    ensures (t, key) !in s.idempotencyIndex
    ensures forall id :: id in s.operations ==>
            (s.operations[id].tokenId, s.operations[id].request.idempotencyKey) != (t, key)
  {
    assert (t, key) in s.idempotencyIndex ==> Pointing(s, (t, key));
    forall id | id in s.operations
      ensures (s.operations[id].tokenId, s.operations[id].request.idempotencyKey) != (t, key)
    {
      assert Filed(s, id);
    }
  }

  /** An operation id names its scope and key, so a fresh key gives an id that is not stored. */
  lemma FreshOperationId(s: Store, token: Token, request: Request, now: int)
    requires TokensIndexed(s) && OperationsIndexed(s)
    requires token.scope.tokenId in s.tokens && s.tokens[token.scope.tokenId] == token
    requires FindByIdempotency(s, token.scope.tokenId, request.idempotencyKey).None?
    ensures NewOperation(token.scope, request, now).operationId !in s.operations
  {
    FreshKeyIsUnused(s, token.scope.tokenId, request.idempotencyKey);
    var id := NewOperation(token.scope, request, now).operationId;
    if id in s.operations {
      StoredIsOwned(s, id);
    }
  }

  /** The store once `op` is stored under its two indexes and `token` overwrites its owner. */
  ghost function Extended(s: Store, op: Operation, token: Token): Store {
    s.(operations := s.operations[op.operationId := op],
       idempotencyIndex := s.idempotencyIndex[(op.tokenId, op.request.idempotencyKey) := op.operationId],
       tokens := s.tokens[op.tokenId := token])
  }

  lemma ChargedIsValid(s: Store, adapters: set<Adapter>, token: Token, call: Call)
    requires token.scope.tokenId in s.tokens && s.tokens[token.scope.tokenId] == token
    requires Counted(s, token.scope.tokenId)
    requires JudgeFresh(s, adapters, token, call) == Accept(token)
    ensures ValidToken(Charged(token))
  {
  }

  lemma FreshSlot(s: Store, adapters: set<Adapter>, token: Token, call: Call)
    requires JudgeFresh(s, adapters, token, call) == Accept(token)
    ensures |ActiveOf(s.operations, token.scope.tokenId)| < MAX_ACTIVE_OPERATIONS
  {
  }

  lemma AcceptedIsAdmitted(s: Store, adapters: set<Adapter>, call: Call)
    requires Sound(s) && Judge(s, adapters, call).Accept?
    ensures var token := Judge(s, adapters, call).token;
            var op := NewOperation(token.scope, call.request, call.now);
            && token.scope.tokenId in s.tokens && s.tokens[token.scope.tokenId] == token
            && op.tokenId == token.scope.tokenId
            && op.operationId !in s.operations && (op.tokenId, op.request.idempotencyKey) !in s.idempotencyIndex
            && JudgeFresh(s, adapters, token, call) == Accept(token)
            && Admit(s, adapters, call) == (Extended(s, op, Charged(token)), Admitted(op))
  {
    var token := Judge(s, adapters, call).token;
    AcceptedFacts(s, adapters, call);
    FreshKeyIsUnused(s, token.scope.tokenId, call.request.idempotencyKey);
    FreshOperationId(s, token, call.request, call.now);
    ChargedIsValid(s, adapters, token, call);
  }

  lemma RefusalChangesNothing(s: Store, adapters: set<Adapter>, call: Call)
    requires !Judge(s, adapters, call).Accept?
    ensures Admit(s, adapters, call).0 == s
    ensures match Judge(s, adapters, call)
            case Refuse(error) => Admit(s, adapters, call).1 == Rejected(error)
            case Replay(op) => Admit(s, adapters, call).1 == Replayed(Deliver(op, true, call.now))
            case Accept(_) => true
  {
  }

  lemma RefusalsAreGuards(s: Store, adapters: set<Adapter>, call: Call)
    requires Judge(s, adapters, call).Refuse?
    ensures var error := Judge(s, adapters, call).error;
            !error.DuplicateOperationIdentity? && !error.TokenContractViolation? && !error.TokenNotFound?
  {
  }

  /**
   * From a sound store `submit` never meets the duplicate branch of `add_operation` and never
   * builds a token the constructor refuses: an accepted call is admitted, any other changes nothing.
   */
  lemma AdmissionSucceeds(s: Store, adapters: set<Adapter>, call: Call)
    requires Sound(s)
    ensures Judge(s, adapters, call).Accept? <==> Admit(s, adapters, call).1.Admitted?
    ensures !Admit(s, adapters, call).1.Admitted? ==> Admit(s, adapters, call).0 == s
    ensures Admit(s, adapters, call).1.Rejected? ==>
              var error := Admit(s, adapters, call).1.error;
              !error.DuplicateOperationIdentity? && !error.TokenContractViolation? && !error.TokenNotFound?
  {
    var verdict := Judge(s, adapters, call);
    if verdict.Accept? {
      AcceptedIsAdmitted(s, adapters, call);
    } else {
      RefusalChangesNothing(s, adapters, call);
      if verdict.Refuse? {
        RefusalsAreGuards(s, adapters, call);
      }
    }
  }

  lemma AddedToOwner(ops: map<OperationId, Operation>, id: OperationId, op: Operation, t: TokenId)
    requires id !in ops
    ensures |OperationsOf(ops[id := op], t)| == |OperationsOf(ops, t)| + (if op.tokenId == t then 1 else 0)
  {
    if op.tokenId == t {
      assert OperationsOf(ops[id := op], t) == OperationsOf(ops, t) + {id};
    } else {
      assert OperationsOf(ops[id := op], t) == OperationsOf(ops, t);
    }
  }

  lemma AddedToActive(ops: map<OperationId, Operation>, id: OperationId, op: Operation, t: TokenId)
    requires id !in ops
    ensures |ActiveOf(ops[id := op], t)| == |ActiveOf(ops, t)| + (if op.tokenId == t && Active(op.status) then 1 else 0)
  {
    if op.tokenId == t && Active(op.status) {
      assert ActiveOf(ops[id := op], t) == ActiveOf(ops, t) + {id};
    } else {
      assert ActiveOf(ops[id := op], t) == ActiveOf(ops, t);
    }
  }

  lemma NewOperationIsCoherent(scope: Scope, request: Request, now: int)
    ensures Coherent(NewOperation(scope, request, now))
    ensures ReportedCost(NewOperation(scope, request, now)) == 0
  {
  }

  /** Filing an operation under fresh identities keeps the indexes exact. */
  lemma FiledIndexes(s: Store, op: Operation)
    requires OperationsIndexed(s) && Owned(s, op)
    requires op.operationId !in s.operations && (op.tokenId, op.request.idempotencyKey) !in s.idempotencyIndex
    ensures OperationsIndexed(s.(operations := s.operations[op.operationId := op],
                                 idempotencyIndex := s.idempotencyIndex[(op.tokenId,
                                                                         op.request.idempotencyKey) := op.operationId]))
  {
    var s' := s.(operations := s.operations[op.operationId := op],
                 idempotencyIndex := s.idempotencyIndex[(op.tokenId, op.request.idempotencyKey) := op.operationId]);
    forall id | id in s'.operations ensures Filed(s', id) {
      if id != op.operationId {
        assert Filed(s, id);
        StaysFiled(s, s', id);
      }
    }
    forall key | key in s'.idempotencyIndex ensures Pointing(s', key) {
      assert key == (op.tokenId, op.request.idempotencyKey) || Pointing(s, key);
    }
  }

  lemma ExtendedIndexes(s: Store, op: Operation, token: Token)
    requires TokensIndexed(s) && OperationsIndexed(s)
    requires op.operationId !in s.operations && (op.tokenId, op.request.idempotencyKey) !in s.idempotencyIndex
    requires op.tokenId in s.tokens && Owned(s, op)
    requires token.scope == s.tokens[op.tokenId].scope && token.digest == s.tokens[op.tokenId].digest
    ensures TokensIndexed(Extended(s, op, token)) && OperationsIndexed(Extended(s, op, token))
  {
    FiledIndexes(s, op);
    var filed := s.(operations := s.operations[op.operationId := op],
                    idempotencyIndex := s.idempotencyIndex[(op.tokenId, op.request.idempotencyKey) := op.operationId]);
    RetokenedIndexes(filed, op.tokenId, token);
    assert Extended(s, op, token) == filed.(tokens := filed.tokens[op.tokenId := token]);
  }

  lemma ExtendedCounts(s: Store, op: Operation)
    requires AllCounted(s) && op.operationId !in s.operations && op.tokenId in s.tokens && op.status.Received?
    requires |ActiveOf(s.operations, op.tokenId)| < MAX_ACTIVE_OPERATIONS && ValidToken(Charged(s.tokens[op.tokenId]))
    ensures AllCounted(Extended(s, op, Charged(s.tokens[op.tokenId])))
  {
    var s' := Extended(s, op, Charged(s.tokens[op.tokenId]));
    forall t | t in s'.tokens ensures Counted(s', t) {
      assert Counted(s, t);
      AddedToOwner(s.operations, op.operationId, op, t);
      AddedToActive(s.operations, op.operationId, op, t);
    }
  }

  lemma ExtendedPays(s: Store, op: Operation)
    requires op.operationId !in s.operations && op.tokenId in s.tokens && ReportedCost(op) == 0
    ensures GapsKept(s, Extended(s, op, Charged(s.tokens[op.tokenId])))
  {
    var s' := Extended(s, op, Charged(s.tokens[op.tokenId]));
    forall t | t in s.tokens ensures Gap(s', t) == Gap(s, t) {
      TotalUpdate(s.operations, CostOf(t), op.operationId, op);
    }
  }

  lemma ExtendedCoherence(s: Store, op: Operation, token: Token)
    requires AllCoherent(s) && Coherent(op)
    ensures AllCoherent(Extended(s, op, token))
  {
  }

  lemma ExtendedIsSound(s: Store, op: Operation)
    requires Sound(s) && op.tokenId in s.tokens && Owned(s, op) && Coherent(op)
    requires op.operationId !in s.operations && (op.tokenId, op.request.idempotencyKey) !in s.idempotencyIndex
    requires op.status.Received? && ReportedCost(op) == 0
    requires |ActiveOf(s.operations, op.tokenId)| < MAX_ACTIVE_OPERATIONS && ValidToken(Charged(s.tokens[op.tokenId]))
    ensures Sound(Extended(s, op, Charged(s.tokens[op.tokenId])))
    ensures GapsKept(s, Extended(s, op, Charged(s.tokens[op.tokenId])))
  {
    ExtendedIndexes(s, op, Charged(s.tokens[op.tokenId]));
    ExtendedCoherence(s, op, Charged(s.tokens[op.tokenId]));
    ExtendedCounts(s, op);
    ExtendedPays(s, op);
    GapsKeepPaid(s, Extended(s, op, Charged(s.tokens[op.tokenId])));
  }

  lemma NewOperationIsOwned(s: Store, token: Token, request: Request, now: int)
    requires token.scope.tokenId in s.tokens && s.tokens[token.scope.tokenId] == token
    ensures Owned(s, NewOperation(token.scope, request, now))
  {
  }

  lemma AdmitKeepsSound(s: Store, adapters: set<Adapter>, call: Call)
    requires Sound(s)
    ensures Sound(Admit(s, adapters, call).0) && GapsKept(s, Admit(s, adapters, call).0)
  {
    if !Judge(s, adapters, call).Accept? {
      RefusalChangesNothing(s, adapters, call);
    } else {
      AcceptedIsAdmitted(s, adapters, call);
      var token := Judge(s, adapters, call).token;
      var op := NewOperation(token.scope, call.request, call.now);
      NewOperationIsCoherent(token.scope, call.request, call.now);
      NewOperationIsOwned(s, token, call.request, call.now);
      ChargedIsValid(s, adapters, token, call);
      FreshSlot(s, adapters, token, call);
      ExtendedIsSound(s, op);
      assert Admit(s, adapters, call).0 == Extended(s, op, Charged(s.tokens[op.tokenId]));
    }
  }

  // Overwriting a record

  lemma ReplacedOwner(ops: map<OperationId, Operation>, id: OperationId, op: Operation, t: TokenId)
    requires id in ops && ops[id].tokenId == op.tokenId
    ensures OperationsOf(ops[id := op], t) == OperationsOf(ops, t)
  {
  }

  lemma ReplacedActive(ops: map<OperationId, Operation>, id: OperationId, op: Operation, t: TokenId)
    requires id in ops && ops[id].tokenId == op.tokenId && Active(ops[id].status)
    ensures |ActiveOf(ops[id := op], t)| == |ActiveOf(ops, t)| - (if op.tokenId == t && !Active(op.status) then 1
                                                                  else 0)
  {
    if op.tokenId == t && !Active(op.status) {
      assert ActiveOf(ops, t) == ActiveOf(ops[id := op], t) + {id};
    } else {
      assert ActiveOf(ops[id := op], t) == ActiveOf(ops, t);
    }
  }

  /** Settling writes exactly the record and adds its reported cost to the owning token. */
  lemma SettledFields(s: Store, op: Operation)
    requires op.operationId in s.operations && op.tokenId in s.tokens
    ensures var s' := Settled(s, Some(op));
            && Save(s, op, ReportedCost(op)).1
            && s'.operations == s.operations[op.operationId := op]
            && s'.idempotencyIndex == s.idempotencyIndex && s'.digestIndex == s.digestIndex
            && s'.tokens
                == s.tokens[op.tokenId := s.tokens[op.tokenId].(reportedCost := s.tokens[op.tokenId].reportedCost
                                                                + ReportedCost(op))]
  {
    if ReportedCost(op) == 0 {
      assert s.tokens == s.tokens[op.tokenId := s.tokens[op.tokenId]];
    }
  }

  lemma SettledIndexes(s: Store, op: Operation)
    requires TokensIndexed(s) && OperationsIndexed(s)
    requires op.operationId in s.operations && SameIdentity(s.operations[op.operationId], op)
    ensures TokensIndexed(Settled(s, Some(op)))
    ensures OperationsIndexed(Settled(s, Some(op)))
  {
    StoredIsOwned(s, op.operationId);
    SettledFields(s, op);
    RewriteKeepsIndexes(s, Settled(s, Some(op)));
  }

  lemma SettledCounts(s: Store, op: Operation)
    requires AllCounted(s) && op.operationId in s.operations && op.tokenId in s.tokens
    requires s.operations[op.operationId].tokenId == op.tokenId && Active(s.operations[op.operationId].status)
    ensures AllCounted(Settled(s, Some(op)))
  {
    SettledFields(s, op);
    var s' := Settled(s, Some(op));
    forall t | t in s'.tokens ensures Counted(s', t) {
      assert Counted(s, t);
      ReplacedOwner(s.operations, op.operationId, op, t);
      ReplacedActive(s.operations, op.operationId, op, t);
    }
  }

  lemma SettledPays(s: Store, op: Operation)
    requires op.operationId in s.operations && op.tokenId in s.tokens
    requires s.operations[op.operationId].tokenId == op.tokenId
    ensures Settled(s, Some(op)).tokens.Keys == s.tokens.Keys
    ensures forall t :: t in s.tokens ==>
              Gap(Settled(s, Some(op)), t) ==
              Gap(s, t) + if t == op.tokenId then ReportedCost(s.operations[op.operationId]) else 0
  {
    SettledFields(s, op);
    var s' := Settled(s, Some(op));
    forall t | t in s.tokens
      ensures Gap(s', t) == Gap(s, t) + if t == op.tokenId then ReportedCost(s.operations[op.operationId]) else 0
    {
      TotalUpdate(s.operations, CostOf(t), op.operationId, op);
    }
  }

  lemma SettledCoherence(s: Store, op: Operation)
    requires AllCoherent(s) && Coherent(op) && op.operationId in s.operations && op.tokenId in s.tokens
    ensures AllCoherent(Settled(s, Some(op)))
  {
    SettledFields(s, op);
  }

  lemma ActiveCostsNothing(op: Operation)
    requires Coherent(op) && Active(op.status)
    ensures ReportedCost(op) == 0
  {
  }

  lemma StoredFacts(s: Store, id: OperationId)
    requires Sound(s) && id in s.operations
    ensures s.operations[id].operationId == id && Owned(s, s.operations[id]) && Coherent(s.operations[id])
  {
    assert Filed(s, id);
  }

  /** Overwriting an active record settles its cost: the token grows by exactly what the record reports. */
  lemma SettleKeepsSound(s: Store, op: Operation)
    requires Sound(s) && op.operationId in s.operations
    requires SameIdentity(s.operations[op.operationId], op) && Active(s.operations[op.operationId].status)
    requires Coherent(op)
    ensures Sound(Settled(s, Some(op))) && GapsKept(s, Settled(s, Some(op)))
  {
    StoredFacts(s, op.operationId);
    ActiveCostsNothing(s.operations[op.operationId]);
    SettledIndexes(s, op);
    SettledCoherence(s, op);
    SettledCounts(s, op);
    SettledGaps(s, op);
    GapsKeepPaid(s, Settled(s, Some(op)));
  }

  lemma SettledGaps(s: Store, op: Operation)
    requires op.operationId in s.operations && op.tokenId in s.tokens
    requires s.operations[op.operationId].tokenId == op.tokenId && ReportedCost(s.operations[op.operationId]) == 0
    ensures GapsKept(s, Settled(s, Some(op)))
  {
    hide Gap, Settled;
    SettledPays(s, op);
  }

  /** The gap after a finished record gave way to one that costs nothing: its cost stays on the token. */
  ghost predicate GapWidened(s: Store, s': Store, t: TokenId, cost: nat) {
    && s'.tokens.Keys == s.tokens.Keys
    && forall u :: u in s.tokens ==> Gap(s', u) == Gap(s, u) + if u == t then cost else 0
  }

  lemma OverwrittenCounts(s: Store, op: Operation)
    requires AllCounted(s) && op.operationId in s.operations && op.tokenId in s.tokens
    requires s.operations[op.operationId].tokenId == op.tokenId && ReportedCost(op) == 0
    requires !Active(s.operations[op.operationId].status) && !Active(op.status)
    ensures AllCounted(Settled(s, Some(op)))
  {
    SettledFields(s, op);
    var s' := Settled(s, Some(op));
    forall t | t in s'.tokens ensures Counted(s', t) {
      assert Counted(s, t);
      ReplacedOwner(s.operations, op.operationId, op, t);
      assert ActiveOf(s'.operations, t) == ActiveOf(s.operations, t);
    }
  }

  /** Overwriting a finished record by one that costs nothing leaves its cost on the token. */
  lemma OverwriteKeepsSound(s: Store, op: Operation)
    requires Sound(s) && op.operationId in s.operations && Coherent(op) && ReportedCost(op) == 0
    requires SameIdentity(s.operations[op.operationId], op)
    requires !Active(s.operations[op.operationId].status) && !Active(op.status)
    ensures Sound(Settled(s, Some(op)))
    ensures GapWidened(s, Settled(s, Some(op)), op.tokenId, ReportedCost(s.operations[op.operationId]))
  {
    StoredFacts(s, op.operationId);
    SettledIndexes(s, op);
    SettledCoherence(s, op);
    OverwrittenCounts(s, op);
    SettledPays(s, op);
    WidenedIsPaid(s, Settled(s, Some(op)), op.tokenId, ReportedCost(s.operations[op.operationId]));
  }

  lemma WidenedIsPaid(s: Store, s': Store, t: TokenId, cost: nat)
    requires AllPaid(s) && GapWidened(s, s', t, cost)
    ensures AllPaid(s')
  {
    forall u | u in s'.tokens ensures Paid(s', u) {
      assert Paid(s, u);
    }
  }

  // Restart

  lemma ReconciledOwner(ops: map<OperationId, Operation>, evidence: string, t: TokenId)
    ensures OperationsOf(Reconciled(ops, evidence), t) == OperationsOf(ops, t)
  {
  }

  lemma ReconciledActive(ops: map<OperationId, Operation>, evidence: string, t: TokenId)
    ensures |ActiveOf(Reconciled(ops, evidence), t)| <= |ActiveOf(ops, t)|
  {
    assert ActiveOf(Reconciled(ops, evidence), t) <= ActiveOf(ops, t);
    var gone := ActiveOf(ops, t) - ActiveOf(Reconciled(ops, evidence), t);
    assert ActiveOf(ops, t) == ActiveOf(Reconciled(ops, evidence), t) + gone;
  }

  lemma ReconciledIsCoherent(op: Operation, evidence: string)
    requires Coherent(op)
    ensures Coherent(ReconciledRecord(op, evidence)) && SameIdentity(op, ReconciledRecord(op, evidence))
    ensures ReportedCost(ReconciledRecord(op, evidence)) == ReportedCost(op)
    ensures !ReconciledRecord(op, evidence).status.Running?
  {
  }

  lemma RestartedIndexes(s: Store)
    requires TokensIndexed(s) && OperationsIndexed(s)
    ensures TokensIndexed(Restarted(s)) && OperationsIndexed(Restarted(s))
  {
    RewriteKeepsIndexes(s, Restarted(s));
  }

  lemma RestartedCoherence(s: Store)
    requires AllCoherent(s)
    ensures AllCoherent(Restarted(s)) && RunningIds(Restarted(s).operations) == {}
  {
    var s' := Restarted(s);
    forall id | id in s'.operations ensures Coherent(s'.operations[id]) && !s'.operations[id].status.Running? {
      ReconciledIsCoherent(s.operations[id], RESTART_EVIDENCE);
    }
  }

  lemma RestartedCounts(s: Store)
    requires AllCounted(s)
    ensures AllCounted(Restarted(s))
  {
    var s' := Restarted(s);
    forall t | t in s'.tokens ensures Counted(s', t) {
      assert Counted(s, t);
      ReconciledOwner(s.operations, RESTART_EVIDENCE, t);
      ReconciledActive(s.operations, RESTART_EVIDENCE, t);
    }
  }

  lemma RestartedPays(s: Store)
    ensures GapsKept(s, Restarted(s))
  {
    var s' := Restarted(s);
    forall t | t in s.tokens ensures Gap(s', t) == Gap(s, t) {
      TotalCongruent(s.operations, s'.operations, CostOf(t));
    }
  }

  /** Start-up keeps the ledger and leaves no operation RUNNING. */
  lemma RestartKeepsSound(s: Store)
    requires Sound(s)
    ensures Sound(Restarted(s)) && GapsKept(s, Restarted(s))
    ensures RunningIds(Restarted(s).operations) == {}
  {
    RestartedIndexes(s);
    RestartedCoherence(s);
    RestartedCounts(s);
    RestartedPays(s);
    GapsKeepPaid(s, Restarted(s));
  }
}
