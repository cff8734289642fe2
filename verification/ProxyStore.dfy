/** The thread-safe in-memory Proxy persistence: four dictionaries behind one lock. */
module ProxyStore {
  import opened Outcomes
  import opened ProxyContracts

  /** The value of the four dictionaries between two units of work. */
  datatype Store = Store(
    tokens: map<TokenId, Token>,
    digestIndex: map<Digest, TokenId>,
    operations: map<OperationId, Operation>,
    idempotencyIndex: map<(TokenId, string), OperationId>)

  const EMPTY_STORE := Store(map[], map[], map[], map[])

  function FindTokenByDigest(store: Store, digest: Digest): Option<Token> {
    if digest in store.digestIndex && store.digestIndex[digest] in store.tokens
    then Some(store.tokens[store.digestIndex[digest]])
    else None
  }

  function FindByIdempotency(store: Store, tokenId: TokenId, key: string): Option<Operation> {
    if (tokenId, key) in store.idempotencyIndex && store.idempotencyIndex[(tokenId, key)] in store.operations
    then Some(store.operations[store.idempotencyIndex[(tokenId, key)]])
    else None
  }

  function OperationsOf(operations: map<OperationId, Operation>, tokenId: TokenId): set<OperationId> {
    set id | id in operations && operations[id].tokenId == tokenId
  }

  function ActiveOf(operations: map<OperationId, Operation>, tokenId: TokenId): set<OperationId> {
    set id | id in operations && operations[id].tokenId == tokenId && Active(operations[id].status)
  }

  function RunningIds(operations: map<OperationId, Operation>): set<OperationId> {
    set id | id in operations && operations[id].status.Running?
  }

  function Interrupted(op: Operation, evidence: string): Operation {
    WithResponseChecksum(op.(status := ReconciliationRequired,
                             reconciliationEvidence := Some(evidence),
                             errorCode := Some("INTERRUPTED_OPERATION")))
  }

  function ReconciledRecord(op: Operation, evidence: string): Operation {
    if op.status.Running? then Interrupted(op, evidence) else op
  }

  /** Every RUNNING operation interrupted, every other operation as it was. */
  function Reconciled(operations: map<OperationId, Operation>, evidence: string): map<OperationId, Operation> {
    map id | id in operations :: ReconciledRecord(operations[id], evidence)
  }

  /** The dictionary once the entries in `done` have been visited. */
  ghost function ReconciledWithin(items: map<OperationId, Operation>, evidence: string, done: set<OperationId>)
    : map<OperationId, Operation>
  {
    map id | id in items :: if id in done then ReconciledRecord(items[id], evidence) else items[id]
  }

  lemma VisitOne(items: map<OperationId, Operation>, evidence: string, done: set<OperationId>, id: OperationId)
    requires id in items && id !in done
    ensures ReconciledWithin(items, evidence, done + {id}) ==
            if items[id].status.Running? then
                ReconciledWithin(items, evidence, done)[id := Interrupted(items[id], evidence)]
            else ReconciledWithin(items, evidence, done)
    ensures |(done + {id}) * RunningIds(items)| ==
            |done * RunningIds(items)| + if items[id].status.Running? then 1 else 0
  {
    if items[id].status.Running? {
      assert (done + {id}) * RunningIds(items) == done * RunningIds(items) + {id};
    } else {
      assert (done + {id}) * RunningIds(items) == done * RunningIds(items);
    }
  }

  lemma VisitEnds(items: map<OperationId, Operation>, evidence: string, done: set<OperationId>)
    ensures ReconciledWithin(items, evidence, {}) == items
    ensures done == items.Keys ==> ReconciledWithin(items, evidence, done) == Reconciled(items, evidence)
    ensures done == items.Keys ==> done * RunningIds(items) == RunningIds(items)
  {
  }

  class InMemoryProxyDatabase {
    var tokens: map<TokenId, Token>
    var digestIndex: map<Digest, TokenId>
    var operations: map<OperationId, Operation>
    var idempotencyIndex: map<(TokenId, string), OperationId>

    function View(): Store
      reads this
    {
      Store(tokens, digestIndex, operations, idempotencyIndex)
    }

    constructor ()
      ensures View() == EMPTY_STORE
    {
      tokens, digestIndex, operations, idempotencyIndex := map[], map[], map[], map[];
    }

    method AddToken(token: Token) returns (added: bool)
      modifies this
      ensures added == (token.scope.tokenId !in old(tokens) && token.digest !in old(digestIndex))
      ensures added ==> View() == old(View()).(tokens := old(tokens)[token.scope.tokenId := token],
                                               digestIndex := old(digestIndex)[token.digest := token.scope.tokenId])
      ensures !added ==> View() == old(View())
    {
      if token.scope.tokenId in tokens || token.digest in digestIndex {
        return false;
      }
      tokens := tokens[token.scope.tokenId := token];
      digestIndex := digestIndex[token.digest := token.scope.tokenId];
      return true;
    }

    method SaveToken(token: Token) returns (saved: bool)
      modifies this`tokens
      ensures saved == (token.scope.tokenId in old(tokens))
      ensures tokens == if saved then old(tokens)[token.scope.tokenId := token] else old(tokens)
    {
      if token.scope.tokenId !in tokens {
        return false;
      }
      tokens := tokens[token.scope.tokenId := token];
      return true;
    }

    method AddOperation(op: Operation) returns (added: bool)
      modifies this`operations, this`idempotencyIndex
      ensures added == (op.operationId !in old(operations)
                        && (op.tokenId, op.request.idempotencyKey) !in old(idempotencyIndex))
      ensures added ==> operations == old(operations)[op.operationId := op]
                        && idempotencyIndex
                            == old(idempotencyIndex)[(op.tokenId, op.request.idempotencyKey) := op.operationId]
      ensures !added ==> View() == old(View())
    {
      var key := (op.tokenId, op.request.idempotencyKey);
      if op.operationId in operations || key in idempotencyIndex {
        return false;
      }
      operations := operations[op.operationId := op];
      idempotencyIndex := idempotencyIndex[key := op.operationId];
      return true;
    }

    method SaveOperation(op: Operation) returns (saved: bool)
      modifies this`operations
      ensures saved == (op.operationId in old(operations))
      ensures operations == if saved then old(operations)[op.operationId := op] else old(operations)
    {
      if op.operationId !in operations {
        return false;
      }
      operations := operations[op.operationId := op];
      return true;
    }

    /** Walks a snapshot of the items and counts what it rewrites. */
    method ReconcileRunning(evidence: string) returns (count: nat)
      modifies this`operations
      ensures operations == Reconciled(old(operations), evidence)
      ensures count == |RunningIds(old(operations))|
    {
      hide ReconciledWithin, Reconciled, RunningIds, Interrupted;
      count := 0;
      var items := operations;
      var pending := items.Keys;
      ghost var done: set<OperationId> := {};
      VisitEnds(items, evidence, done);
      while pending != {}
        invariant done !! pending && done + pending == items.Keys
        invariant operations == ReconciledWithin(items, evidence, done)
        invariant count == |done * RunningIds(items)|
        decreases |pending|
      {
        var id :| id in pending;
        VisitOne(items, evidence, done, id);
        var op := items[id];
        if op.status.Running? {
          operations := operations[id := Interrupted(op, evidence)];
          count := count + 1;
        }
        pending, done := pending - {id}, done + {id};
      }
      VisitEnds(items, evidence, done);
    }
  }
}
