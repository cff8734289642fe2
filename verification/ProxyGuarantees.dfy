/** The Proxy's promises, stated of every state that any sequence of events reaches. */
module ProxyGuarantees {
  import opened Outcomes
  import opened Totals
  import opened ProxyContracts
  import opened ProxyStore
  import opened ProxySteps
  import opened ProxyLedger
  import opened ProxyRuns
  import opened ProxyTheorems

  lemma RunIsConsistent(events: seq<Event>)
    ensures Consistent(Run(events))
  {
    EmptyIsSound();
    assert Accounted(INITIAL);
    hide Sound, Accounted;
    assert Consistent(INITIAL);
    RunFromIsConsistent(INITIAL, events);
  }

  /** An overwrite writes one record, a failure without cost, and no token. */
  lemma OverwriteWrites(sys: System, id: OperationId, elapsedMs: int, completed: int)
    requires Consistent(sys) && id in sys.workers && sys.workers[id].phase.Undelivered?
    ensures var next := Overwrite(sys, id, elapsedMs, completed);
            && id in sys.store.operations && Terminal(sys.store.operations[id].status)
            && id in next.store.operations && Overwritten(next.store.operations[id])
            && next.store.operations[id].completedAt == Some(completed)
            && next.store.operations[id].tokenId == sys.store.operations[id].tokenId
            && next.store.operations == sys.store.operations[id := next.store.operations[id]]
            && next.store.tokens == sys.store.tokens && next.workers == sys.workers - {id}
  {
    hide Sound, Mirrored, CalledOnce, Accounted, Coherent, UnclassifiedFailure;
    UndeliveredFacts(sys, id);
    var op := sys.workers[id].operation;
    UnclassifiedIsOverwritten(op, elapsedMs, completed);
    SettledFields(sys.store, UnclassifiedFailure(op, elapsedMs, completed).value);
    assert sys.store.tokens == sys.store.tokens[op.tokenId := sys.store.tokens[op.tokenId]];
  }

  // Ledger

  lemma CallsFitTheBudget(s: Store, t: TokenId)
    requires AllCoherent(s)
    ensures Total(s.operations, CallsOf(t)) <= |OperationsOf(s.operations, t)|
  {
    forall id | id in s.operations
      ensures CallsOf(t)(s.operations[id]) <= (if id in OperationsOf(s.operations, t) then 1 else 0)
    {
      assert Coherent(s.operations[id]);
    }
    TotalBounded(s.operations, CallsOf(t), OperationsOf(s.operations, t));
  }

  lemma {:induction false} NothingForgotten(log: seq<(TokenId, nat)>, t: TokenId)
    ensures Forgotten(log, t) == 0 <==> forall i :: 0 <= i < |log| && log[i].0 == t ==> log[i].1 == 0
  {
    if log != [] {
      var last := |log| - 1;
      NothingForgotten(log[..last], t);
      assert forall i :: 0 <= i < last ==> log[..last][i] == log[i];
    }
  }

  /**
   * In every reachable state a token's counters are what its stored operations add up to; only its
   * reported cost exceeds them, exactly by what its overwritten records reported.
   */
  lemma LedgerBalances(events: seq<Event>, t: TokenId)
    requires t in Run(events).store.tokens
    ensures var s := Run(events).store;
            var token := s.tokens[t];
            && ValidToken(token)
            && token.admitted == |OperationsOf(s.operations, t)|
            && token.reportedCost == Total(s.operations, CostOf(t)) + Forgotten(Run(events).forgotten, t)
            && (token.reportedCost == Total(s.operations, CostOf(t))
                <==> forall i :: 0 <= i < |Run(events).forgotten| && Run(events).forgotten[i].0 == t ==>
                    Run(events).forgotten[i].1 == 0)
            && token.usedCalls == (if token.scope.adapter.OpenAlex? then token.admitted else 0)
            && token.reservedCost == (if token.scope.adapter.OpenAlex? then 1000 * token.admitted else 0)
            && (token.scope.adapter.OpenAlex? ==> Total(s.operations, CallsOf(t)) <= token.usedCalls)
            && |ActiveOf(s.operations, t)| <= 2
  {
    RunIsConsistent(events);
    var s := Run(events).store;
    assert Counted(s, t) && Gap(s, t) == Forgotten(Run(events).forgotten, t);
    NothingForgotten(Run(events).forgotten, t);
    CallsFitTheBudget(s, t);
  }

  /** Whatever happens later, no counter of a token falls and a revocation stays. */
  lemma TokensOnlyGrow(events: seq<Event>, more: seq<Event>, t: TokenId)
    requires t in Run(events).store.tokens
    ensures t in Run(events + more).store.tokens
    ensures TokenEvolves(Run(events).store.tokens[t], Run(events + more).store.tokens[t])
  {
    hide Sound, TokenEvolves;
    RunIsConsistent(events);
    RunFromSplit(INITIAL, events, more);
    RunFromIsConsistent(Run(events), more);
  }

  /**
   * Of the three budget tests an OpenAlex call meets, the reserved cost and the call count never
   * decide: the budget is spent exactly when the operations are used up or 49000 is exceeded.
   */
  lemma BudgetIsReportedCost(s: Store, t: TokenId)
    requires Sound(s) && t in s.tokens && s.tokens[t].scope.adapter.OpenAlex?
    ensures ProviderBudgetSpent(s.tokens[t])
            <==> s.tokens[t].admitted >= s.tokens[t].scope.maximumOperations || s.tokens[t].reportedCost > 49_000
  {
    hide TokensIndexed, OperationsIndexed, AllCoherent, AllPaid;
    assert Counted(s, t);
  }

  /** What a call must meet to be admitted, said of the stored operations instead of the call counters. */
  ghost predicate Admissible(s: Store, adapters: set<Adapter>, call: Call) {
    var t := TokenIdOf(Sha256Of(call.bearer));
    && call.request.checksum == RequestChecksumOf(call.request.content) && !call.unsafe && OpaqueShape(call.bearer)
    && t in s.tokens && !s.tokens[t].revoked && call.now < s.tokens[t].expiresAt
    && Authorized(s.tokens[t].scope, call)
    && (forall id :: id in s.operations && s.operations[id].tokenId == t ==>
        s.operations[id].request.idempotencyKey != call.request.idempotencyKey)
    && -300 <= call.request.content.clientTimestamp - call.now <= 300
    && s.tokens[t].scope.adapter in adapters
    && |OperationsOf(s.operations, t)| < s.tokens[t].scope.maximumOperations
    && |ActiveOf(s.operations, t)| < 2
    && (s.tokens[t].scope.adapter.OpenAlex? ==> s.tokens[t].reportedCost <= 49_000)
  }

  lemma KeyIsFresh(s: Store, t: TokenId, key: string)
    requires OperationsIndexed(s)
    ensures FindByIdempotency(s, t, key).None?
            <==> forall id :: id in s.operations && s.operations[id].tokenId == t ==>
                s.operations[id].request.idempotencyKey != key
  {
    if FindByIdempotency(s, t, key).None? {
      FreshKeyIsUnused(s, t, key);
    } else {
      assert Pointing(s, (t, key));
    }
  }

  lemma FreshExactly(s: Store, adapters: set<Adapter>, call: Call, t: TokenId)
    requires Sound(s) && t in s.tokens
    ensures JudgeFresh(s, adapters, s.tokens[t], call).Accept?
            <==> && -300 <= call.request.content.clientTimestamp - call.now <= 300
                 && s.tokens[t].scope.adapter in adapters
                 && |OperationsOf(s.operations, t)| < s.tokens[t].scope.maximumOperations
                 && |ActiveOf(s.operations, t)| < 2
                 && (s.tokens[t].scope.adapter.OpenAlex? ==> s.tokens[t].reportedCost <= 49_000)
  {
    assert s.tokens[t].scope.tokenId == t;
    assert Counted(s, t);
    hide Sound, ProviderBudgetSpent;
    if s.tokens[t].scope.adapter.OpenAlex? {
      BudgetIsReportedCost(s, t);
    }
  }

  lemma AuthenticExactly(s: Store, bearer: string, now: int)
    requires TokensIndexed(s)
    ensures var t := TokenIdOf(Sha256Of(bearer));
            && (Authenticate(s, bearer, now).Ok? <==>
                  OpaqueShape(bearer) && t in s.tokens && !s.tokens[t].revoked && now < s.tokens[t].expiresAt)
            && (Authenticate(s, bearer, now).Ok? ==>
                  Authenticate(s, bearer, now).value == s.tokens[t] && s.tokens[t].scope.tokenId == t)
  {
    hide OpaqueShape;
  }

  lemma JudgedExactly(s: Store, adapters: set<Adapter>, call: Call)
    requires TokensIndexed(s)
    ensures var t := TokenIdOf(Sha256Of(call.bearer));
            Judge(s, adapters, call).Accept?
            <==> && call.request.checksum == RequestChecksumOf(call.request.content)
                 && !call.unsafe && OpaqueShape(call.bearer)
                 && t in s.tokens && !s.tokens[t].revoked && call.now < s.tokens[t].expiresAt
                 && Authorized(s.tokens[t].scope, call)
                 && FindByIdempotency(s, t, call.request.idempotencyKey).None?
                 && JudgeFresh(s, adapters, s.tokens[t], call).Accept?
  {
    AuthenticExactly(s, call.bearer, call.now);
    hide TokensIndexed, Authenticate, JudgeFresh, Authorized, OpaqueShape, FindByIdempotency;
  }

  /** Admission is exact: a call is admitted exactly when it is admissible. */
  lemma AdmittedExactly(s: Store, adapters: set<Adapter>, call: Call)
    requires Sound(s)
    ensures Admit(s, adapters, call).1.Admitted? <==> Admissible(s, adapters, call)
  {
    var t := TokenIdOf(Sha256Of(call.bearer));
    AdmissionSucceeds(s, adapters, call);
    KeyIsFresh(s, t, call.request.idempotencyKey);
    JudgedExactly(s, adapters, call);
    hide Sound, Judge, Admit, JudgeFresh, Authorized, OpaqueShape, FindByIdempotency;
    if t in s.tokens {
      FreshExactly(s, adapters, call, t);
    }
  }

  // Cost exposure

  /** Reported cost plus `cap` for each operation still open stays under the budget plus two calls. */
  predicate Exposed(s: Store, t: TokenId, cap: nat)
    requires t in s.tokens
  {
    s.tokens[t].scope.adapter.OpenAlex? ==>
      s.tokens[t].reportedCost + cap * |ActiveOf(s.operations, t)| <= 49_000 + 2 * cap
  }

  predicate Capped(e: Event, cap: nat) { e.Settling? ==> OutcomeCost(e.outcome) <= cap }

  /** An accepted OpenAlex call finds at most 49000 reported and a free slot. */
  lemma AcceptedHasRoom(s: Store, adapters: set<Adapter>, token: Token, call: Call)
    requires Sound(s) && token.scope.tokenId in s.tokens && s.tokens[token.scope.tokenId] == token
    requires JudgeFresh(s, adapters, token, call).Accept?
    ensures token.scope.adapter.OpenAlex? ==> token.reportedCost <= 49_000
    ensures |ActiveOf(s.operations, token.scope.tokenId)| < 2
  {
    hide Sound;
    if token.scope.adapter.OpenAlex? {
      BudgetIsReportedCost(s, token.scope.tokenId);
    }
  }

  lemma AdmitKeepsExposure(s: Store, adapters: set<Adapter>, call: Call, t: TokenId, cap: nat)
    requires Sound(s) && t in s.tokens && Exposed(s, t, cap)
    ensures t in Admit(s, adapters, call).0.tokens && Exposed(Admit(s, adapters, call).0, t, cap)
  {
    hide Sound, Judge, JudgeFresh, Admit, NewOperation, ActiveOf, Counted;
    var s' := Admit(s, adapters, call).0;
    if Judge(s, adapters, call).Accept? {
      AcceptedIsAdmitted(s, adapters, call);
      var token := Judge(s, adapters, call).token;
      var op := NewOperation(token.scope, call.request, call.now);
      AddedToActive(s.operations, op.operationId, op, t);
      if t == op.tokenId {
        AcceptedHasRoom(s, adapters, token, call);
        var n := |ActiveOf(s'.operations, t)|;
        assert cap * n <= cap * 2;
      }
    } else {
      RefusalChangesNothing(s, adapters, call);
    }
  }

  lemma SettleKeepsExposure(s: Store, op: Operation, t: TokenId, cap: nat)
    requires op.operationId in s.operations && op.tokenId in s.tokens
    requires s.operations[op.operationId].tokenId == op.tokenId && Active(s.operations[op.operationId].status)
    requires ReportedCost(op) <= (if Terminal(op.status) then cap else 0)
    requires t in s.tokens && Exposed(s, t, cap)
    ensures t in Settled(s, Some(op)).tokens && Exposed(Settled(s, Some(op)), t, cap)
  {
    SettledFields(s, op);
    ReplacedActive(s.operations, op.operationId, op, t);
    var n := |ActiveOf(s.operations, t)|;
    assert cap * (n - 1) == cap * n - cap;
  }

  lemma RestartKeepsExposure(s: Store, t: TokenId, cap: nat)
    requires t in s.tokens && Exposed(s, t, cap)
    ensures Exposed(Restarted(s), t, cap)
  {
    ReconciledActive(s.operations, RESTART_EVIDENCE, t);
    assert cap * |ActiveOf(Restarted(s).operations, t)| <= cap * |ActiveOf(s.operations, t)|;
  }

  lemma StartKeepsExposure(sys: System, id: OperationId, now: int, t: TokenId, cap: nat)
    requires Consistent(sys) && t in sys.store.tokens && Exposed(sys.store, t, cap)
    ensures t in Start(sys, id, now).store.tokens && Exposed(Start(sys, id, now).store, t, cap)
  {
    hide Sound, Mirrored, CalledOnce, Exposed;
    if id in sys.workers && sys.workers[id].phase.AwaitingRunning? {
      WorkerFacts(sys, id);
      var running := MarkedRunning(sys.workers[id].operation, now);
      RunningRecord(sys.workers[id].operation, now);
      SettledFields(sys.store, running);
      SettleKeepsExposure(sys.store, running, t, cap);
    }
  }

  lemma OutcomeKeepsExposure(sys: System, id: OperationId, outcome: SearchOutcome, elapsedMs: int, completed: int,
                             delivered: bool, t: TokenId, cap: nat)
    requires Consistent(sys) && t in sys.store.tokens && Exposed(sys.store, t, cap) && OutcomeCost(outcome) <= cap
    ensures t in Settle(sys, id, outcome, elapsedMs, completed, delivered).store.tokens
    ensures Exposed(Settle(sys, id, outcome, elapsedMs, completed, delivered).store, t, cap)
  {
    hide Sound, Mirrored, CalledOnce, Exposed, Conclude, Coherent;
    if id in sys.workers && sys.workers[id].phase.InCall? {
      WorkerFacts(sys, id);
      var op := sys.workers[id].operation;
      ConcludedRecord(op, outcome, elapsedMs, completed);
      var record := Conclude(op, outcome, elapsedMs, completed);
      if record.Some? {
        SettleKeepsExposure(sys.store, record.value, t, cap);
      }
    }
  }

  /** An overwrite reports nothing and leaves the token's cost and its open operations as they were. */
  lemma OverwriteKeepsExposure(sys: System, id: OperationId, elapsedMs: int, completed: int, t: TokenId, cap: nat)
    requires Consistent(sys) && t in sys.store.tokens && Exposed(sys.store, t, cap)
    ensures t in Overwrite(sys, id, elapsedMs, completed).store.tokens
    ensures Exposed(Overwrite(sys, id, elapsedMs, completed).store, t, cap)
  {
    hide Sound, Mirrored, CalledOnce, Accounted;
    if id in sys.workers && sys.workers[id].phase.Undelivered? {
      OverwriteWrites(sys, id, elapsedMs, completed);
      assert ActiveOf(Overwrite(sys, id, elapsedMs, completed).store.operations, t)
          == ActiveOf(sys.store.operations, t);
    }
  }

  lemma NextKeepsExposure(sys: System, e: Event, t: TokenId, cap: nat)
    requires Consistent(sys) && Capped(e, cap) && t in sys.store.tokens && Exposed(sys.store, t, cap)
    ensures t in Next(sys, e).store.tokens && Exposed(Next(sys, e).store, t, cap)
  {
    hide Sound, Mirrored, CalledOnce, Accounted;
    match e
    case Submitting(call) => if sys.up { AdmitKeepsExposure(sys.store, sys.adapters, call, t, cap); }
    case Starting(id, now) => StartKeepsExposure(sys, id, now, t, cap);
    case Settling(id, outcome, elapsedMs, completed, delivered) =>
      OutcomeKeepsExposure(sys, id, outcome, elapsedMs, completed, delivered, t, cap);
    case Overwriting(id, elapsedMs, completed) => OverwriteKeepsExposure(sys, id, elapsedMs, completed, t, cap);
    case StartingUp(_) => if !sys.up { RestartKeepsExposure(sys.store, t, cap); }
    case _ =>
  }

  lemma NewTokenNotFromSettling(sys: System, id: OperationId, outcome: SearchOutcome, elapsedMs: int, completed: int,
                                delivered: bool)
    requires Consistent(sys)
    ensures Settle(sys, id, outcome, elapsedMs, completed, delivered).store.tokens.Keys == sys.store.tokens.Keys
  {
    hide Sound, Mirrored, CalledOnce, Conclude, Coherent;
    if id in sys.workers && sys.workers[id].phase.InCall? {
      WorkerFacts(sys, id);
      ConcludedRecord(sys.workers[id].operation, outcome, elapsedMs, completed);
      var record := Conclude(sys.workers[id].operation, outcome, elapsedMs, completed);
      if record.Some? {
        SettledFields(sys.store, record.value);
      }
    }
  }

  /** Only issuing adds a token, and it adds one with nothing on its ledger. */
  lemma NewTokenIsExposed(sys: System, e: Event, t: TokenId, cap: nat)
    requires Consistent(sys) && t !in sys.store.tokens && t in Next(sys, e).store.tokens
    ensures e.Issuing? && Exposed(Next(sys, e).store, t, cap)
  {
    hide Sound, Mirrored, CalledOnce, Judge, Admit, NewOperation;
    match e
    case Issuing(order) =>
      IssuedIsExposed(sys.store, order, t, cap);
    case Submitting(call) =>
      if Judge(sys.store, sys.adapters, call).Accept? {
        AcceptedIsAdmitted(sys.store, sys.adapters, call);
      } else {
        RefusalChangesNothing(sys.store, sys.adapters, call);
      }
    case Starting(id, now) =>
      WorkerFacts(sys, id);
    case Settling(id, outcome, elapsedMs, completed, delivered) =>
      NewTokenNotFromSettling(sys, id, outcome, elapsedMs, completed, delivered);
    case Overwriting(id, elapsedMs, completed) =>
      if id in sys.workers && sys.workers[id].phase.Undelivered? {
        OverwriteWrites(sys, id, elapsedMs, completed);
      }
    case _ =>
  }

  lemma IssuedIsExposed(s: Store, order: Issuance, t: TokenId, cap: nat)
    requires Sound(s) && t !in s.tokens && t in Issue(s, order).0.tokens
    ensures Exposed(Issue(s, order).0, t, cap)
  {
    NoOperations(s, t);
    hide Sound;
    IssueAdds(s, order);
  }

  ghost predicate AllExposed(s: Store, cap: nat) { forall t :: t in s.tokens ==> Exposed(s, t, cap) }

  lemma {:induction false} ExposureFrom(sys: System, events: seq<Event>, cap: nat)
    requires Consistent(sys) && AllExposed(sys.store, cap)
    requires forall e :: e in events ==> Capped(e, cap)
    ensures AllExposed(RunFrom(sys, events).store, cap)
    decreases |events|
  {
    hide Sound, Consistent, Exposed, Evolves;
    if events != [] {
      var e := events[0];
      NextIsConsistent(sys, e);
      forall t | t in Next(sys, e).store.tokens ensures Exposed(Next(sys, e).store, t, cap) {
        if t in sys.store.tokens {
          NextKeepsExposure(sys, e, t, cap);
        } else {
          NewTokenIsExposed(sys, e, t, cap);
        }
      }
      ExposureFrom(Next(sys, e), events[1..], cap);
    }
  }

  /** If no call reports more than `cap`, no interleaving takes a token past 49000 + 2 * cap. */
  lemma CostExposureIsBounded(events: seq<Event>, cap: nat, t: TokenId)
    requires forall e :: e in events ==> Capped(e, cap)
    requires t in Run(events).store.tokens && Run(events).store.tokens[t].scope.adapter.OpenAlex?
    ensures var s := Run(events).store;
            && |ActiveOf(s.operations, t)| <= 2
            && s.tokens[t].reportedCost + cap * |ActiveOf(s.operations, t)| <= 49_000 + 2 * cap
  {
    RunIsConsistent([]);
    ExposureFrom(INITIAL, events, cap);
    LedgerBalances(events, t);
    assert Exposed(Run(events).store, t, cap);
  }

  // At most once

  lemma KeyHasOneOperation(s: Store, a: OperationId, b: OperationId)
    requires OperationsIndexed(s) && a in s.operations && b in s.operations
    requires s.operations[a].tokenId == s.operations[b].tokenId
    requires s.operations[a].request.idempotencyKey == s.operations[b].request.idempotencyKey
    ensures a == b
  {
    assert Filed(s, a) && Filed(s, b);
  }

  /** Over all runs a (token, key) owns one operation, and starts one adapter call. */
  lemma OneCallPerKey(events: seq<Event>)
    ensures var sys := Run(events);
            && (forall i :: 0 <= i < |sys.calls| ==> sys.calls[i] in sys.store.operations)
            && (forall a, b :: a in sys.store.operations && b in sys.store.operations && a != b ==>
                  (sys.store.operations[a].tokenId, sys.store.operations[a].request.idempotencyKey)
                  != (sys.store.operations[b].tokenId, sys.store.operations[b].request.idempotencyKey))
            && (forall i, j :: 0 <= i < j < |sys.calls| ==>
                  (sys.store.operations[sys.calls[i]].tokenId,
                   sys.store.operations[sys.calls[i]].request.idempotencyKey)
                  != (sys.store.operations[sys.calls[j]].tokenId,
                      sys.store.operations[sys.calls[j]].request.idempotencyKey))
  {
    hide AllCoherent, AllCounted, AllPaid, TokensIndexed, OperationsIndexed;
    RunIsConsistent(events);
    var sys := Run(events);
    forall a, b | a in sys.store.operations && b in sys.store.operations && a != b
      ensures (sys.store.operations[a].tokenId, sys.store.operations[a].request.idempotencyKey)
              != (sys.store.operations[b].tokenId, sys.store.operations[b].request.idempotencyKey)
    {
      if (sys.store.operations[a].tokenId, sys.store.operations[a].request.idempotencyKey)
         == (sys.store.operations[b].tokenId, sys.store.operations[b].request.idempotencyKey) {
        KeyHasOneOperation(sys.store, a, b);
      }
    }
    assert forall i :: 0 <= i < |sys.calls| ==> sys.calls[i] in sys.store.operations;
  }

  /**
   * A call under a key its token already used never changes the store: past authorization it
   * replays the stored operation if the request checksum agrees and conflicts otherwise.
   */
  lemma UsedKeyNeverRuns(s: Store, adapters: set<Adapter>, call: Call, id: OperationId)
    requires Sound(s) && id in s.operations
    requires s.operations[id].tokenId == TokenIdOf(Sha256Of(call.bearer))
    requires s.operations[id].request.idempotencyKey == call.request.idempotencyKey
    ensures Admit(s, adapters, call).0 == s
    ensures match Admit(s, adapters, call).1
            case Admitted(_) => false
            case Replayed(delivery) => s.operations[id].request.requestChecksum == call.request.checksum
                                       && delivery == Deliver(s.operations[id], true, call.now)
            case Rejected(error) => error.IdempotencyConflict?
                                    ==> s.operations[id].request.requestChecksum != call.request.checksum
    ensures !call.unsafe && call.request.checksum == RequestChecksumOf(call.request.content)
            && Authenticate(s, call.bearer, call.now).Ok?
            && Authorized(s.tokens[s.operations[id].tokenId].scope, call)
            ==> Admit(s, adapters, call).1
                == if s.operations[id].request.requestChecksum == call.request.checksum
                   then Replayed(Deliver(s.operations[id], true, call.now))
                   else Rejected(IdempotencyConflict)
  {
    hide AllCoherent, AllCounted, AllPaid;
    var t := s.operations[id].tokenId;
    assert Filed(s, id);
    assert FindByIdempotency(s, t, call.request.idempotencyKey) == Some(s.operations[id]);
    if Judge(s, adapters, call).Accept? {
      AcceptedFacts(s, adapters, call);
    } else {
      RefusalChangesNothing(s, adapters, call);
    }
  }

  /** A revoked token is refused for good: no later call under it is admitted or replayed. */
  lemma RevokedIsRefused(events: seq<Event>, more: seq<Event>, call: Call)
    requires var t := TokenIdOf(Sha256Of(call.bearer));
             t in Run(events).store.tokens && Run(events).store.tokens[t].revoked
    ensures Admit(Run(events + more).store, Run(events + more).adapters, call).1.Rejected?
    ensures Admit(Run(events + more).store, Run(events + more).adapters, call).0 == Run(events + more).store
  {
    hide AllCoherent, AllCounted, AllPaid, OperationsIndexed, Mirrored, CalledOnce;
    var t := TokenIdOf(Sha256Of(call.bearer));
    TokensOnlyGrow(events, more, t);
    RunIsConsistent(events + more);
    var s := Run(events + more).store;
    assert FindTokenByDigest(s, Sha256Of(call.bearer)) == Some(s.tokens[t]);
  }

  // Lifecycle

  /** One step along the machine, or, for an overwrite of the record itself, from a terminal status to FAILED. */
  ghost predicate MovesOneStep(a: Store, b: Store, e: Event, id: OperationId)
    requires id in b.operations
  {
    if id !in a.operations then b.operations[id].status.Received?
    else
      || StatusStep(a.operations[id].status, b.operations[id].status)
      || (e.Overwriting? && e.id == id && Terminal(a.operations[id].status) && b.operations[id].status.Failed?)
  }

  lemma SettlingMovesOneStep(sys: System, id: OperationId, outcome: SearchOutcome, elapsedMs: int, completed: int,
                             delivered: bool, watched: OperationId)
    requires Consistent(sys) && watched in Settle(sys, id, outcome, elapsedMs, completed, delivered).store.operations
    ensures MovesOneStep(sys.store, Settle(sys, id, outcome, elapsedMs, completed, delivered).store,
                         Settling(id, outcome, elapsedMs, completed, delivered), watched)
  {
    hide Sound, Mirrored, CalledOnce, Conclude, Coherent;
    if id in sys.workers && sys.workers[id].phase.InCall? {
      WorkerFacts(sys, id);
      ConcludedRecord(sys.workers[id].operation, outcome, elapsedMs, completed);
      var record := Conclude(sys.workers[id].operation, outcome, elapsedMs, completed);
      if record.Some? {
        SettledFields(sys.store, record.value);
      }
    }
  }

  /** One event moves a status along RECEIVED, RUNNING, terminal by at most one step, or overwrites it by FAILED. */
  lemma StatusMovesOneStep(events: seq<Event>, e: Event, id: OperationId)
    requires id in Next(Run(events), e).store.operations
    ensures MovesOneStep(Run(events).store, Next(Run(events), e).store, e, id)
  {
    hide Sound, Mirrored, CalledOnce, Accounted;
    RunIsConsistent(events);
    var sys := Run(events);
    match e
    case Submitting(call) =>
      if sys.up && Judge(sys.store, sys.adapters, call).Accept? {
        AcceptedIsAdmitted(sys.store, sys.adapters, call);
      } else if sys.up {
        RefusalChangesNothing(sys.store, sys.adapters, call);
      }
    case Starting(worker, now) =>
      if worker in sys.workers && sys.workers[worker].phase.AwaitingRunning? {
        WorkerFacts(sys, worker);
      }
    case Settling(worker, outcome, elapsedMs, completed, delivered) =>
      SettlingMovesOneStep(sys, worker, outcome, elapsedMs, completed, delivered, id);
    case Overwriting(worker, elapsedMs, completed) =>
      if worker in sys.workers && sys.workers[worker].phase.Undelivered? {
        OverwriteWrites(sys, worker, elapsedMs, completed);
      }
    case _ =>
  }

  /**
   * Every stored record is coherent: data and its checksum exactly when SUCCEEDED, an error exactly
   * when failed, and a response checksum that covers its content.
   */
  lemma StoredRecordsAreCoherent(events: seq<Event>, id: OperationId)
    requires id in Run(events).store.operations
    ensures Coherent(Run(events).store.operations[id])
  {
    RunIsConsistent(events);
  }

  /** Settling leaves a SUCCEEDED record without data exactly when the deliverable result's data is null. */
  lemma SucceededWithoutData(sys: System, id: OperationId, outcome: SearchOutcome, elapsedMs: int, completed: int,
                             delivered: bool)
    requires Consistent(sys) && id in sys.workers && sys.workers[id].phase.InCall?
    ensures var ops := Settle(sys, id, outcome, elapsedMs, completed, delivered).store.operations;
            && id in ops
            && (ops[id].status.Succeeded? && ops[id].providerData.None?
                <==> Deliverable(outcome) && outcome.result.providerData.None?)
  {
    hide Sound, Mirrored, CalledOnce, Conclude, Coherent, Deliverable;
    WorkerFacts(sys, id);
    var op := sys.workers[id].operation;
    OutcomeDecidesStatus(op, outcome, elapsedMs, completed);
    ConcludedRecord(op, outcome, elapsedMs, completed);
    var record := Conclude(op, outcome, elapsedMs, completed);
    if record.Some? {
      SettledFields(sys.store, record.value);
    } else {
      DeliverableReturns(outcome);
    }
  }

  lemma DeliverableReturns(outcome: SearchOutcome)
    ensures Deliverable(outcome) ==> outcome.Returned? && outcome.result.reportedCost >= 0
  {
  }

  predicate DataGiven(e: Event) {
    e.Settling? && e.outcome.Returned? ==> e.outcome.result.providerData.Some?
  }

  predicate HasData(op: Operation) { op.status.Succeeded? ==> op.providerData.Some? }

  lemma NextKeepsData(sys: System, e: Event, id: OperationId)
    requires Consistent(sys) && DataGiven(e) && id in Next(sys, e).store.operations
    requires id in sys.store.operations ==> HasData(sys.store.operations[id])
    ensures HasData(Next(sys, e).store.operations[id])
  {
    hide Sound, Mirrored, CalledOnce, Accounted;
    match e
    case Submitting(call) =>
      if sys.up && Judge(sys.store, sys.adapters, call).Accept? {
        AcceptedIsAdmitted(sys.store, sys.adapters, call);
      } else if sys.up {
        RefusalChangesNothing(sys.store, sys.adapters, call);
      }
    case Starting(worker, now) =>
      if worker in sys.workers && sys.workers[worker].phase.AwaitingRunning? {
        WorkerFacts(sys, worker);
      }
    case Settling(worker, outcome, elapsedMs, completed, delivered) =>
      SettlingKeepsData(sys, worker, outcome, elapsedMs, completed, delivered, id);
    case Overwriting(worker, elapsedMs, completed) =>
      if worker in sys.workers && sys.workers[worker].phase.Undelivered? {
        OverwriteWrites(sys, worker, elapsedMs, completed);
      }
    case _ =>
  }

  lemma SettlingKeepsData(sys: System, worker: OperationId, outcome: SearchOutcome, elapsedMs: int, completed: int,
                          delivered: bool, id: OperationId)
    requires Consistent(sys) && DataGiven(Settling(worker, outcome, elapsedMs, completed, delivered))
    requires id in Settle(sys, worker, outcome, elapsedMs, completed, delivered).store.operations
    requires id in sys.store.operations ==> HasData(sys.store.operations[id])
    ensures HasData(Settle(sys, worker, outcome, elapsedMs, completed, delivered).store.operations[id])
  {
    hide Sound, Mirrored, CalledOnce, Conclude, Coherent, Deliverable;
    if worker in sys.workers && sys.workers[worker].phase.InCall? {
      SucceededWithoutData(sys, worker, outcome, elapsedMs, completed, delivered);
      DeliverableReturns(outcome);
      WorkerFacts(sys, worker);
      ConcludedRecord(sys.workers[worker].operation, outcome, elapsedMs, completed);
      var record := Conclude(sys.workers[worker].operation, outcome, elapsedMs, completed);
      if record.Some? {
        SettledFields(sys.store, record.value);
      }
    }
  }

  lemma {:induction false} DataFrom(sys: System, events: seq<Event>)
    requires Consistent(sys) && forall id :: id in sys.store.operations ==> HasData(sys.store.operations[id])
    requires forall e :: e in events ==> DataGiven(e)
    ensures forall id :: id in RunFrom(sys, events).store.operations ==>
            HasData(RunFrom(sys, events).store.operations[id])
    decreases |events|
  {
    hide Consistent, HasData, DataGiven, Evolves;
    if events != [] {
      var next := Next(sys, events[0]);
      NextIsConsistent(sys, events[0]);
      forall id | id in next.store.operations ensures HasData(next.store.operations[id]) {
        NextKeepsData(sys, events[0], id);
      }
      DataFrom(next, events[1..]);
    }
  }

  /** If no adapter returns null data, SUCCEEDED holds exactly when data and its checksum are present. */
  lemma SuccessMeansData(events: seq<Event>, id: OperationId)
    requires (forall e :: e in events ==> DataGiven(e)) && id in Run(events).store.operations
    ensures var op := Run(events).store.operations[id];
            && (op.status.Succeeded? <==> op.providerData.Some?)
            && (op.status.Succeeded? <==> op.providerDataChecksum.Some?)
  {
    RunIsConsistent([]);
    DataFrom(INITIAL, events);
    StoredRecordsAreCoherent(events, id);
  }

  // Finished records

  /** Finished, and with no worker left that could overwrite the record. */
  predicate Frozen(sys: System, id: OperationId) {
    id in sys.store.operations && Terminal(sys.store.operations[id].status) && id !in sys.workers
  }

  lemma NextKeepsFrozen(sys: System, e: Event, id: OperationId)
    requires Consistent(sys) && Frozen(sys, id)
    ensures Frozen(Next(sys, e), id) && Next(sys, e).store.operations[id] == sys.store.operations[id]
  {
    hide Sound, Mirrored, CalledOnce, Accounted;
    match e
    case Submitting(call) =>
      if sys.up && Judge(sys.store, sys.adapters, call).Accept? {
        AcceptedIsAdmitted(sys.store, sys.adapters, call);
      } else if sys.up {
        RefusalChangesNothing(sys.store, sys.adapters, call);
      }
    case Starting(worker, now) =>
      if worker in sys.workers && sys.workers[worker].phase.AwaitingRunning? {
        WorkerFacts(sys, worker);
      }
    case Settling(worker, outcome, elapsedMs, completed, delivered) =>
      if worker in sys.workers && sys.workers[worker].phase.InCall? {
        WorkerFacts(sys, worker);
        ConcludedRecord(sys.workers[worker].operation, outcome, elapsedMs, completed);
      }
    case Overwriting(worker, elapsedMs, completed) =>
      if worker in sys.workers && sys.workers[worker].phase.Undelivered? {
        OverwriteWrites(sys, worker, elapsedMs, completed);
      }
    case _ =>
  }

  lemma {:induction false} FrozenStays(sys: System, events: seq<Event>, id: OperationId)
    requires Consistent(sys) && Frozen(sys, id)
    ensures Frozen(RunFrom(sys, events), id)
    ensures RunFrom(sys, events).store.operations[id] == sys.store.operations[id]
    decreases |events|
  {
    hide Sound, Mirrored, CalledOnce, Accounted, Frozen, Consistent;
    if events != [] {
      NextKeepsFrozen(sys, events[0], id);
      NextIsConsistent(sys, events[0]);
      FrozenStays(Next(sys, events[0]), events[1..], id);
    }
  }

  /** Some continuation stores another record under `id`. */
  ghost predicate CanChange(sys: System, id: OperationId)
    requires id in sys.store.operations
  {
    exists events :: id in RunFrom(sys, events).store.operations
                     && RunFrom(sys, events).store.operations[id] != sys.store.operations[id]
  }

  lemma OneEvent(sys: System, e: Event)
    ensures RunFrom(sys, [e]) == Next(sys, e)
  {
    assert RunFrom(sys, [e]) == RunFrom(Next(sys, e), [e][1..]);
  }

  /** A finished record can still change exactly while the worker whose delivery raised is alive. */
  lemma FinishedRecordChangesExactly(sys: System, id: OperationId)
    requires Consistent(sys) && id in sys.store.operations && Terminal(sys.store.operations[id].status)
    ensures CanChange(sys, id) <==> id in sys.workers
    ensures id in sys.workers ==> sys.workers[id].phase.Undelivered?
  {
    hide Sound, CalledOnce, Accounted, Overwrite, Overwritten, RunFrom;
    if id in sys.workers {
      assert Mirrors(sys.workers[id], sys.store.operations[id]);
      var known := sys.store.operations[id].completedAt;
      var e := Overwriting(id, 0, if known.Some? then known.value + 1 else 0);
      OverwriteWrites(sys, id, 0, e.completed);
      OneEvent(sys, e);
    } else {
      forall events | id in RunFrom(sys, events).store.operations
        ensures RunFrom(sys, events).store.operations[id] == sys.store.operations[id]
      {
        FrozenStays(sys, events, id);
      }
    }
  }

  /** A record just settled can change exactly if it was saved inside the `try` and its delivery raised. */
  lemma SettledRecordChangesExactly(sys: System, id: OperationId, outcome: SearchOutcome, elapsedMs: int,
                                    completed: int, delivered: bool)
    requires Consistent(sys) && id in sys.workers && sys.workers[id].phase.InCall?
    requires Conclude(sys.workers[id].operation, outcome, elapsedMs, completed).Some?
    ensures var next := Settle(sys, id, outcome, elapsedMs, completed, delivered);
            && id in next.store.operations && Terminal(next.store.operations[id].status)
            && (CanChange(next, id)
                <==> !delivered && SavedInTry(sys.workers[id].operation, outcome, elapsedMs, completed))
  {
    hide Sound, Mirrored, CalledOnce, Accounted, Coherent, Conclude, SavedInTry, CanChange;
    WorkerFacts(sys, id);
    var op := sys.workers[id].operation;
    ConcludedRecord(op, outcome, elapsedMs, completed);
    SettledFields(sys.store, Conclude(op, outcome, elapsedMs, completed).value);
    SettleStep(sys, id, outcome, elapsedMs, completed, delivered);
    FinishedRecordChangesExactly(Settle(sys, id, outcome, elapsedMs, completed, delivered), id);
  }

  lemma SuccessIsSavedInTry(op: Operation, result: AdapterResult, elapsedMs: int, completed: int)
    requires Deliverable(Returned(result, false))
    ensures SavedInTry(op, Returned(result, false), elapsedMs, completed)
  {
  }

  /** An overwrite widens the gap of the record's token by what the record reported. */
  lemma OverwriteWidens(sys: System, id: OperationId, elapsedMs: int, completed: int)
    requires Consistent(sys) && id in sys.workers && sys.workers[id].phase.Undelivered?
    requires id in sys.store.operations && sys.store.operations[id].tokenId in sys.store.tokens
    ensures var t := sys.store.operations[id].tokenId;
            var next := Overwrite(sys, id, elapsedMs, completed);
            t in next.store.tokens && Gap(next.store, t) == Gap(sys.store, t) + ReportedCost(sys.store.operations[id])
  {
    hide Sound, Mirrored, CalledOnce, Gap, UnclassifiedFailure, Overwritten;
    UndeliveredFacts(sys, id);
    OverwriteWrites(sys, id, elapsedMs, completed);
    OverwriteStep(sys, id, elapsedMs, completed);
    var log := Overwrite(sys, id, elapsedMs, completed).forgotten;
    assert log[..|log| - 1] == sys.forgotten;
  }

  lemma SettleKeepsGaps(sys: System, id: OperationId, outcome: SearchOutcome, elapsedMs: int, completed: int,
                        delivered: bool, t: TokenId)
    requires Consistent(sys) && t in sys.store.tokens
    ensures var next := Settle(sys, id, outcome, elapsedMs, completed, delivered);
            t in next.store.tokens && Gap(next.store, t) == Gap(sys.store, t)
  {
    hide Sound, Mirrored, CalledOnce, Gap, Conclude, SavedInTry;
    SettleStep(sys, id, outcome, elapsedMs, completed, delivered);
  }

  lemma SuccessIsSaved(sys: System, id: OperationId, result: AdapterResult, elapsedMs: int, completed: int)
    requires Consistent(sys) && id in sys.workers && sys.workers[id].phase.InCall?
    requires Deliverable(Returned(result, false))
    ensures var t := sys.workers[id].operation.tokenId;
            var saved := Settle(sys, id, Returned(result, false), elapsedMs, completed, false);
            && id in saved.store.operations && saved.store.operations[id].status.Succeeded?
            && saved.store.operations[id].providerData == result.providerData
            && saved.store.operations[id].tokenId == t
            && ReportedCost(saved.store.operations[id]) == result.reportedCost
            && id in saved.workers && saved.workers[id].phase.Undelivered?
            && t in sys.store.tokens && t in saved.store.tokens
            && saved.store.tokens[t].reportedCost == sys.store.tokens[t].reportedCost + result.reportedCost
  {
    hide Sound, Mirrored, CalledOnce, Accounted, Coherent, Conclude, SavedInTry, Deliverable;
    WorkerFacts(sys, id);
    var op := sys.workers[id].operation;
    OutcomeDecidesStatus(op, Returned(result, false), elapsedMs, completed);
    ConcludedRecord(op, Returned(result, false), elapsedMs, completed);
    SuccessIsSavedInTry(op, result, elapsedMs, completed);
    SettledFields(sys.store, Conclude(op, Returned(result, false), elapsedMs, completed).value);
    DeliverableReturns(Returned(result, false));
  }

  /**
   * A deliverable result whose delivery raises: the operation is SUCCEEDED and paid, then FAILED
   * without data or cost, while its token goes on reporting the cost.
   */
  lemma FailedDeliveryOverwrites(sys: System, id: OperationId, result: AdapterResult, elapsedMs: int, completed: int,
                                 laterMs: int, later: int)
    requires Consistent(sys) && id in sys.workers && sys.workers[id].phase.InCall?
    requires Deliverable(Returned(result, false))
    ensures var t := sys.workers[id].operation.tokenId;
            var saved := Next(sys, Settling(id, Returned(result, false), elapsedMs, completed, false));
            var over := Next(saved, Overwriting(id, laterMs, later));
            && id in saved.store.operations && saved.store.operations[id].status.Succeeded?
            && saved.store.operations[id].providerData == result.providerData
            && id in over.store.operations && Overwritten(over.store.operations[id])
            && over.store.operations[id].tokenId == t && t in sys.store.tokens && t in over.store.tokens
            && over.store.tokens[t].reportedCost == sys.store.tokens[t].reportedCost + result.reportedCost
            && Gap(over.store, t) == Gap(sys.store, t) + result.reportedCost
  {
    hide Consistent, Settle, Overwrite, Evolves, Deliverable, Overwritten, Gap;
    SuccessIsSaved(sys, id, result, elapsedMs, completed);
    SettleStep(sys, id, Returned(result, false), elapsedMs, completed, false);
    var saved := Settle(sys, id, Returned(result, false), elapsedMs, completed, false);
    OverwriteWrites(saved, id, laterMs, later);
    SettleKeepsGaps(sys, id, Returned(result, false), elapsedMs, completed, false, sys.workers[id].operation.tokenId);
    OverwriteWidens(saved, id, laterMs, later);
  }

  /**
   * A finished operation without a live worker is frozen: every later replay delivers the same
   * content and checksum.
   */
  lemma ReplaysAgree(events: seq<Event>, more: seq<Event>, id: OperationId, early: int, late: int)
    requires Frozen(Run(events), id)
    ensures id in Run(events + more).store.operations
    ensures Run(events + more).store.operations[id] == Run(events).store.operations[id]
    ensures var first := Deliver(Run(events).store.operations[id], true, early);
            var second := Deliver(Run(events + more).store.operations[id], true, late);
            && first.content == second.content && first.responseChecksum == second.responseChecksum
            && second.responseChecksum == Some(ResponseChecksumOf(second.content))
  {
    hide Sound, Mirrored, CalledOnce, Accounted;
    RunFromSplit(INITIAL, events, more);
    RunIsConsistent(events);
    FrozenStays(Run(events), more, id);
    StoredRecordsAreCoherent(events, id);
  }

  /** Right after start-up nothing is RUNNING, and only what was RUNNING has changed. */
  lemma StartUpLeavesNothingRunning(events: seq<Event>, configured: set<Adapter>)
    requires !Run(events).up
    ensures var s := Run(events).store;
            var s' := Run(events + [StartingUp(configured)]).store;
            && RunningIds(s'.operations) == {}
            && s'.operations.Keys == s.operations.Keys && s'.tokens == s.tokens
            && forall id :: id in s.operations ==>
                 if s.operations[id].status.Running? then s'.operations[id].status.ReconciliationRequired?
                 else s'.operations[id] == s.operations[id]
  {
    hide Sound;
    RunFromSplit(INITIAL, events, [StartingUp(configured)]);
    assert RunFrom(Run(events), [StartingUp(configured)]) == RunFrom(Next(Run(events), StartingUp(configured)), []);
    RunIsConsistent(events);
    RestartKeepsSound(Run(events).store);
  }

  // What start-up does not repair

  /** Admitted, never marked RUNNING, and with no worker left to go on. */
  predicate Orphan(sys: System, id: OperationId) {
    id in sys.store.operations && sys.store.operations[id].status.Received? && id !in sys.workers
  }

  /** A crash between admission and the RUNNING mark leaves an orphan. */
  lemma CrashOrphans(sys: System, call: Call)
    requires Consistent(sys) && sys.up && Judge(sys.store, sys.adapters, call).Accept?
    ensures var op := NewOperation(Judge(sys.store, sys.adapters, call).token.scope, call.request, call.now);
            Admit(sys.store, sys.adapters, call).1 == Admitted(op) && op.tokenId == TokenIdOf(Sha256Of(call.bearer))
            && op.operationId !in sys.store.operations
            && Orphan(RunFrom(sys, [Submitting(call), Crashing]), op.operationId)
  {
    hide AllCoherent, AllCounted, AllPaid, OperationsIndexed, Accounted, Mirrored, CalledOnce, Judge, Admit;
    AcceptedIsAdmitted(sys.store, sys.adapters, call);
    AcceptedFacts(sys.store, sys.adapters, call);
    var mid := Next(sys, Submitting(call));
    assert [Submitting(call), Crashing][1..] == [Crashing];
    assert RunFrom(sys, [Submitting(call), Crashing]) == RunFrom(mid, [Crashing]);
    assert [Crashing][1..] == [];
    assert RunFrom(mid, [Crashing]) == RunFrom(Next(mid, Crashing), []);
  }

  /** So does a worker that dies there while the service stays up. */
  lemma DyingOrphans(sys: System, call: Call)
    requires Consistent(sys) && sys.up && Judge(sys.store, sys.adapters, call).Accept?
    ensures var op := NewOperation(Judge(sys.store, sys.adapters, call).token.scope, call.request, call.now);
            var later := RunFrom(sys, [Submitting(call), Dying(op.operationId)]);
            later.up && op.operationId !in sys.store.operations && Orphan(later, op.operationId)
  {
    hide Sound, Accounted, Mirrored, CalledOnce, Judge, Admit;
    AcceptedIsAdmitted(sys.store, sys.adapters, call);
    var id := NewOperation(Judge(sys.store, sys.adapters, call).token.scope, call.request, call.now).operationId;
    var mid := Next(sys, Submitting(call));
    assert [Submitting(call), Dying(id)][1..] == [Dying(id)];
    assert RunFrom(sys, [Submitting(call), Dying(id)]) == RunFrom(mid, [Dying(id)]);
    assert [Dying(id)][1..] == [];
    assert RunFrom(mid, [Dying(id)]) == RunFrom(Next(mid, Dying(id)), []);
  }

  lemma NextKeepsOrphan(sys: System, e: Event, id: OperationId)
    requires Consistent(sys) && Orphan(sys, id)
    ensures Orphan(Next(sys, e), id) && Next(sys, e).store.operations[id] == sys.store.operations[id]
  {
    hide Sound, Mirrored, CalledOnce, Accounted;
    match e
    case Submitting(call) =>
      if sys.up && Judge(sys.store, sys.adapters, call).Accept? {
        AcceptedIsAdmitted(sys.store, sys.adapters, call);
      } else if sys.up {
        RefusalChangesNothing(sys.store, sys.adapters, call);
      }
    case Starting(worker, now) =>
      if worker in sys.workers && sys.workers[worker].phase.AwaitingRunning? {
        WorkerFacts(sys, worker);
      }
    case Settling(worker, outcome, elapsedMs, completed, delivered) =>
      if worker in sys.workers && sys.workers[worker].phase.InCall? {
        WorkerFacts(sys, worker);
        ConcludedRecord(sys.workers[worker].operation, outcome, elapsedMs, completed);
      }
    case Overwriting(worker, elapsedMs, completed) =>
      if worker in sys.workers && sys.workers[worker].phase.Undelivered? {
        OverwriteWrites(sys, worker, elapsedMs, completed);
      }
    case _ =>
  }

  /** An orphan is never marked, reconciled or finished: its record stays as admitted. */
  lemma {:induction false} OrphansStay(sys: System, events: seq<Event>, id: OperationId)
    requires Consistent(sys) && Orphan(sys, id)
    ensures Orphan(RunFrom(sys, events), id)
    ensures RunFrom(sys, events).store.operations[id] == sys.store.operations[id]
    decreases |events|
  {
    hide Sound, Mirrored, CalledOnce, Orphan, Consistent;
    if events != [] {
      NextKeepsOrphan(sys, events[0], id);
      NextIsConsistent(sys, events[0]);
      OrphansStay(Next(sys, events[0]), events[1..], id);
    }
  }

  lemma AdmittedFindsASlot(s: Store, adapters: set<Adapter>, call: Call)
    requires Sound(s) && Judge(s, adapters, call).Accept?
    ensures |ActiveOf(s.operations, TokenIdOf(Sha256Of(call.bearer)))| < 2
  {
    hide OperationsIndexed, AllCoherent, AllCounted, AllPaid, Judge, JudgeFresh;
    AcceptedFacts(s, adapters, call);
    FreshSlot(s, adapters, Judge(s, adapters, call).token, call);
  }

  lemma TwoActiveBlock(s: Store, adapters: set<Adapter>, a: OperationId, b: OperationId, call: Call)
    requires Sound(s) && a in s.operations && b in s.operations && a != b
    requires Active(s.operations[a].status) && Active(s.operations[b].status)
    requires s.operations[a].tokenId == s.operations[b].tokenId == TokenIdOf(Sha256Of(call.bearer))
    ensures !Admit(s, adapters, call).1.Admitted?
  {
    hide Sound, Judge, Admit;
    AdmissionSucceeds(s, adapters, call);
    var active := ActiveOf(s.operations, TokenIdOf(Sha256Of(call.bearer)));
    assert active == {a, b} + (active - {a, b});
    assert |{a, b}| == 2;
    if Judge(s, adapters, call).Accept? {
      AdmittedFindsASlot(s, adapters, call);
    }
  }

  /** Two orphans hold both of a token's slots for good: it never admits a call again. */
  lemma TwoOrphansBlockTheToken(sys: System, events: seq<Event>, a: OperationId, b: OperationId, call: Call)
    requires Consistent(sys) && Orphan(sys, a) && Orphan(sys, b) && a != b
    requires sys.store.operations[a].tokenId == sys.store.operations[b].tokenId == TokenIdOf(Sha256Of(call.bearer))
    ensures var later := RunFrom(sys, events); !Admit(later.store, later.adapters, call).1.Admitted?
  {
    hide Sound, Judge, Admit, Mirrored, CalledOnce;
    var later := RunFrom(sys, events);
    OrphansStay(sys, events, a);
    OrphansStay(sys, events, b);
    RunFromIsConsistent(sys, events);
    TwoActiveBlock(later.store, later.adapters, a, b, call);
  }

  // Such a state is reached

  /** A call its token's holder may make when nothing else stands in the way. */
  predicate Proper(order: Issuance, configured: set<Adapter>, call: Call) {
    && call.bearer == order.plaintext && OpaqueShape(call.bearer) && !call.unsafe
    && call.request.checksum == RequestChecksumOf(call.request.content)
    && call.pathProjectId == order.target.projectId && call.request.content.target == order.target
    && call.now < order.now + 60 * order.lifetimeMinutes
    && -300 <= call.request.content.clientTimestamp - call.now <= 300
    && order.adapter in configured
  }

  lemma FirstIsAdmissible(order: Issuance, configured: set<Adapter>, call: Call)
    requires BuildToken(order).Ok? && BuildToken(order).value.scope.maximumOperations >= 1
             && Proper(order, configured, call)
    ensures Admissible(Issue(EMPTY_STORE, order).0, configured, call)
  {
    hide OpaqueShape;
    var s := Issue(EMPTY_STORE, order).0;
    var t := TokenIdOf(Sha256Of(order.plaintext));
    assert OperationsOf(s.operations, t) == {} && ActiveOf(s.operations, t) == {};
    assert s.operations.Keys == {};
  }

  lemma SecondIsAdmissible(order: Issuance, configured: set<Adapter>, first: Call, second: Call)
    requires BuildToken(order).Ok? && BuildToken(order).value.scope.maximumOperations >= 2
    requires Proper(order, configured, first) && Proper(order, configured, second)
    requires first.request.idempotencyKey != second.request.idempotencyKey
    ensures var token := BuildToken(order).value;
            var op := NewOperation(token.scope, first.request, first.now);
            Admissible(Extended(Issue(EMPTY_STORE, order).0, op, Charged(token)), configured, second)
  {
    hide OpaqueShape;
    var token := BuildToken(order).value;
    var op := NewOperation(token.scope, first.request, first.now);
    var s := Extended(Issue(EMPTY_STORE, order).0, op, Charged(token));
    var t := TokenIdOf(Sha256Of(order.plaintext));
    assert s.operations == map[op.operationId := op];
    assert OperationsOf(s.operations, t) == {op.operationId} && ActiveOf(s.operations, t) == {op.operationId};
    var none: map<OperationId, Operation> := map[];
    assert s.operations == none[op.operationId := op];
    TotalUpdate(none, CostOf(t), op.operationId, op);
    NewOperationIsCoherent(token.scope, first.request, first.now);
    assert none.Keys == {};
  }

  function TwoCrashed(order: Issuance, configured: set<Adapter>, first: Call, second: Call): System {
    var up := Next(INITIAL, StartingUp(configured));
    var issued := Next(up, Issuing(order));
    Next(Next(Next(Next(issued, Submitting(first)), Submitting(second)), Crashing), StartingUp(configured))
  }

  lemma TwoAdmitted(order: Issuance, configured: set<Adapter>, first: Call, second: Call)
    requires BuildToken(order).Ok? && BuildToken(order).value.scope.maximumOperations >= 2
    requires Proper(order, configured, first) && Proper(order, configured, second)
    requires first.request.idempotencyKey != second.request.idempotencyKey
    ensures var token := BuildToken(order).value;
            var s := Issue(EMPTY_STORE, order).0;
            var a := NewOperation(token.scope, first.request, first.now);
            var b := NewOperation(token.scope, second.request, second.now);
            var mid := Extended(s, a, Charged(token));
            && Admit(s, configured, first) == (mid, Admitted(a))
            && Admit(mid, configured, second).1 == Admitted(b)
            && Admit(mid, configured, second).0.operations == mid.operations[b.operationId := b]
            && b.operationId !in mid.operations
  {
    var token := BuildToken(order).value;
    var s := Issue(EMPTY_STORE, order).0;
    EmptyIsSound();
    IssueKeepsSound(EMPTY_STORE, order);
    FirstIsAdmissible(order, configured, first);
    SecondIsAdmissible(order, configured, first, second);
    hide Sound, Admissible, Judge, Admit, OpaqueShape, Issue, NewOperation, BuildToken;
    AdmittedExactly(s, configured, first);
    IssuedAdmission(order, configured, first);
    var mid := Admit(s, configured, first).0;
    AdmitKeepsSound(s, configured, first);
    AdmittedExactly(mid, configured, second);
    AdmissionSucceeds(mid, configured, second);
    AcceptedIsAdmitted(mid, configured, second);
    MidToken(order, first);
    TokenFor(order, mid, configured, second);
  }

  lemma MidToken(order: Issuance, first: Call)
    requires BuildToken(order).Ok?
    ensures var token := BuildToken(order).value;
            var t := TokenIdOf(Sha256Of(order.plaintext));
            var mid := Extended(Issue(EMPTY_STORE, order).0, NewOperation(token.scope, first.request, first.now),
                                Charged(token));
            t in mid.tokens && mid.tokens[t].scope == token.scope
  {
  }

  /** Two proper calls before a crash leave a system, up again, with two orphans of one token. */
  lemma OrphansAreReached(order: Issuance, configured: set<Adapter>, first: Call, second: Call)
    requires BuildToken(order).Ok? && BuildToken(order).value.scope.maximumOperations >= 2
    requires Proper(order, configured, first) && Proper(order, configured, second)
    requires first.request.idempotencyKey != second.request.idempotencyKey
    ensures var token := BuildToken(order).value;
            var sys := TwoCrashed(order, configured, first, second);
            var a := NewOperation(token.scope, first.request, first.now).operationId;
            var b := NewOperation(token.scope, second.request, second.now).operationId;
            && sys.up && sys.adapters == configured && a != b && Orphan(sys, a) && Orphan(sys, b)
            && sys.store.operations[a].tokenId == sys.store.operations[b].tokenId
                == TokenIdOf(Sha256Of(order.plaintext))
  {
    hide Admit, NewOperation, BuildToken, Proper, Issue, Restarted, TwoCrashed, Charged;
    var token := BuildToken(order).value;
    var a := NewOperation(token.scope, first.request, first.now);
    var b := NewOperation(token.scope, second.request, second.now);
    TwoAdmitted(order, configured, first, second);
    TwoCrashedIs(order, configured, first, second);
    NewOperationStatus(order, first);
    NewOperationStatus(order, second);
    var mid := Extended(Issue(EMPTY_STORE, order).0, a, Charged(token));
    assert mid.operations[a.operationId] == a;
    RestartKeepsReceived(Admit(mid, configured, second).0);
  }

  /** Start-up, a token, one call, and its worker in the adapter call. */
  function OneInCall(order: Issuance, configured: set<Adapter>, call: Call, id: OperationId, now: int): System {
    var issued := Next(Next(INITIAL, StartingUp(configured)), Issuing(order));
    Next(Next(Next(issued, Submitting(call)), Starting(id, now)), Calling(id))
  }

  lemma WorkerReachesCall(sys: System, id: OperationId, now: int)
    requires Consistent(sys) && id in sys.workers && sys.workers[id].phase.AwaitingRunning?
    ensures var called := Next(Next(sys, Starting(id, now)), Calling(id));
            && Consistent(called) && id in called.workers && called.workers[id].phase.InCall?
            && called.forgotten == sys.forgotten
  {
    hide Consistent, Evolves, MarkedRunning, Save;
    NextIsConsistent(sys, Starting(id, now));
    NextIsConsistent(Next(sys, Starting(id, now)), Calling(id));
  }

  lemma ProperIsAdmitted(order: Issuance, configured: set<Adapter>, call: Call)
    requires BuildToken(order).Ok? && BuildToken(order).value.scope.maximumOperations >= 1
             && Proper(order, configured, call)
    ensures Admit(Issue(EMPTY_STORE, order).0, configured, call).1
         == Admitted(NewOperation(BuildToken(order).value.scope, call.request, call.now))
  {
    EmptyIsSound();
    IssueKeepsSound(EMPTY_STORE, order);
    FirstIsAdmissible(order, configured, call);
    hide Sound, Admissible, Judge, Admit, Issue, NewOperation, BuildToken, OpaqueShape;
    AdmittedExactly(Issue(EMPTY_STORE, order).0, configured, call);
    IssuedAdmission(order, configured, call);
  }

  lemma IssuedIs(order: Issuance, configured: set<Adapter>)
    ensures var issued := Next(Next(INITIAL, StartingUp(configured)), Issuing(order));
            && issued == System(Issue(EMPTY_STORE, order).0, configured, map[], [], true, [])
            && Consistent(issued)
  {
    assert Restarted(EMPTY_STORE) == EMPTY_STORE;
    hide Issue, Restarted, Consistent, Evolves;
    RunIsConsistent([]);
    NextIsConsistent(INITIAL, StartingUp(configured));
    NextIsConsistent(Next(INITIAL, StartingUp(configured)), Issuing(order));
  }

  lemma AdmittedGetsWorker(sys: System, call: Call, op: Operation)
    requires Consistent(sys) && sys.up && Admit(sys.store, sys.adapters, call).1 == Admitted(op)
    ensures var next := Next(sys, Submitting(call));
            && Consistent(next) && op.operationId in next.workers
            && next.workers[op.operationId].phase.AwaitingRunning? && next.forgotten == sys.forgotten
  {
    hide Consistent, Evolves, Admit;
    NextIsConsistent(sys, Submitting(call));
  }

  lemma CallIsReached(order: Issuance, configured: set<Adapter>, call: Call, now: int)
    requires BuildToken(order).Ok? && BuildToken(order).value.scope.maximumOperations >= 1
             && Proper(order, configured, call)
    ensures var id := NewOperation(BuildToken(order).value.scope, call.request, call.now).operationId;
            var sys := OneInCall(order, configured, call, id, now);
            Consistent(sys) && id in sys.workers && sys.workers[id].phase.InCall? && sys.forgotten == []
  {
    hide Next, Consistent, Evolves, Judge, Admit, Issue, NewOperation, BuildToken, Proper;
    var op := NewOperation(BuildToken(order).value.scope, call.request, call.now);
    ProperIsAdmitted(order, configured, call);
    IssuedIs(order, configured);
    var issued := Next(Next(INITIAL, StartingUp(configured)), Issuing(order));
    AdmittedGetsWorker(issued, call, op);
    WorkerReachesCall(Next(issued, Submitting(call)), op.operationId, now);
  }

  /** From the empty store: a proper call succeeds at a cost, its delivery raises, and its token reports too much. */
  lemma OverwriteIsReached(order: Issuance, configured: set<Adapter>, call: Call, now: int, result: AdapterResult,
                           elapsedMs: int, completed: int, laterMs: int, later: int)
    requires BuildToken(order).Ok? && BuildToken(order).value.scope.maximumOperations >= 1
             && Proper(order, configured, call)
    requires Deliverable(Returned(result, false))
    ensures var id := NewOperation(BuildToken(order).value.scope, call.request, call.now).operationId;
            var sys := OneInCall(order, configured, call, id, now);
            var saved := Next(sys, Settling(id, Returned(result, false), elapsedMs, completed, false));
            var over := Next(saved, Overwriting(id, laterMs, later));
            && id in saved.store.operations && saved.store.operations[id].status.Succeeded?
            && id in over.store.operations && Overwritten(over.store.operations[id])
            && over.store.operations[id].tokenId in over.store.tokens
            && Gap(over.store, over.store.operations[id].tokenId) == result.reportedCost
  {
    hide OneInCall, Gap, Deliverable, BuildToken, Proper, NewOperation, Sound, Mirrored, CalledOnce, Overwritten,
         Settle, Overwrite;
    CallIsReached(order, configured, call, now);
    var id := NewOperation(BuildToken(order).value.scope, call.request, call.now).operationId;
    var sys := OneInCall(order, configured, call, id, now);
    FailedDeliveryOverwrites(sys, id, result, elapsedMs, completed, laterMs, later);
  }

  /** Admissions in a row, a crash and a start-up: what is stored, and no worker. */
  lemma TwoCrashedIs(order: Issuance, configured: set<Adapter>, first: Call, second: Call)
    ensures var sys := TwoCrashed(order, configured, first, second);
            var mid := Admit(Issue(EMPTY_STORE, order).0, configured, first).0;
            sys == System(Restarted(Admit(mid, configured, second).0), configured, map[], [], true, [])
  {
    assert Restarted(EMPTY_STORE) == EMPTY_STORE;
    hide Admit, Issue, Restarted;
  }

  lemma RestartKeepsReceived(s: Store)
    ensures forall id :: id in s.operations && s.operations[id].status.Received? ==>
              id in Restarted(s).operations && Restarted(s).operations[id] == s.operations[id]
  {
  }

  lemma NewOperationStatus(order: Issuance, call: Call)
    requires BuildToken(order).Ok?
    ensures var op := NewOperation(BuildToken(order).value.scope, call.request, call.now);
            op.status.Received? && op.tokenId == TokenIdOf(Sha256Of(order.plaintext))
  {
  }

  lemma TokenFor(order: Issuance, s: Store, configured: set<Adapter>, call: Call)
    requires Sound(s) && Judge(s, configured, call).Accept? && call.bearer == order.plaintext && BuildToken(order).Ok?
    requires TokenIdOf(Sha256Of(order.plaintext)) in s.tokens
    requires s.tokens[TokenIdOf(Sha256Of(order.plaintext))].scope == BuildToken(order).value.scope
    ensures Judge(s, configured, call).token.scope == BuildToken(order).value.scope
  {
    hide OperationsIndexed, AllCoherent, AllCounted, AllPaid, Judge;
    AcceptedFacts(s, configured, call);
  }

  lemma IssuedAdmission(order: Issuance, configured: set<Adapter>, call: Call)
    requires BuildToken(order).Ok? && Sound(Issue(EMPTY_STORE, order).0)
    requires call.bearer == order.plaintext && Admit(Issue(EMPTY_STORE, order).0, configured, call).1.Admitted?
    ensures var s := Issue(EMPTY_STORE, order).0;
            var token := BuildToken(order).value;
            Admit(s, configured, call).0
                == Extended(s, NewOperation(token.scope, call.request, call.now), Charged(token))
            && Admit(s, configured, call).1 == Admitted(NewOperation(token.scope, call.request, call.now))
  {
    var s := Issue(EMPTY_STORE, order).0;
    AdmissionSucceeds(s, configured, call);
    AcceptedIsAdmitted(s, configured, call);
    hide Sound, Judge, Admit;
    assert s.tokens == map[TokenIdOf(Sha256Of(order.plaintext)) := BuildToken(order).value];
  }
}
