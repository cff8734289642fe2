/** What holds of the Proxy over every run, under every interleaving of its events. */
module ProxyTheorems {
  import opened Outcomes
  import opened ProxyContracts
  import opened ProxyStore
  import opened ProxySteps
  import opened ProxyLedger
  import opened ProxyRuns

  // One event at a time

  lemma FailureIsCoherent(op: Operation, code: string, elapsedMs: int, evidence: CallEvidence, reconciliation: bool,
                          completed: int)
    requires Coherent(op) && op.status.Running?
    ensures var record := FailedRecord(op, code, elapsedMs, evidence, reconciliation, completed);
            record.Some? ==> Coherent(record.value) && SameIdentity(op, record.value) && Terminal(record.value.status)
                             && ReportedCost(record.value) == evidence.reportedCost
  {
  }

  lemma SuccessIsCoherent(op: Operation, result: AdapterResult, elapsedMs: int, completed: int)
    requires Coherent(op) && op.status.Running?
    ensures var record := SucceededRecord(op, result, elapsedMs, completed);
            record.Some? ==> Coherent(record.value) && SameIdentity(op, record.value) && Terminal(record.value.status)
                             && ReportedCost(record.value) == result.reportedCost
  {
  }

  /** The cost an outcome can put on the ledger. */
  function OutcomeCost(outcome: SearchOutcome): int {
    match outcome
    case Returned(result, _) => result.reportedCost
    case RaisedAdapterError(_, _, cost, _, _, _) => cost
    case _ => 0
  }

  lemma ConcludedResultIsCoherent(op: Operation, result: AdapterResult, late: bool, elapsedMs: int, completed: int)
    requires Coherent(op) && op.status.Running?
    ensures var record := ConcludedResult(op, result, late, elapsedMs, completed);
            record.Some? ==> Coherent(record.value) && SameIdentity(op, record.value) && Terminal(record.value.status)
                             && (ReportedCost(record.value) == result.reportedCost || ReportedCost(record.value) == 0)
  {
    hide Coherent, FailedRecord, SucceededRecord;
    var live := op.adapter.OpenAlex?;
    FailureIsCoherent(op, if live then "PROVIDER_TIMEOUT"
                      else "OPERATION_TIMEOUT", elapsedMs, EvidenceOf(result), false, completed);
    FailureIsCoherent(op, "PROVIDER_UNAVAILABLE", elapsedMs, NO_EVIDENCE, false, completed);
    FailureIsCoherent(op, if live then "PROVIDER_RESPONSE_TOO_LARGE"
                      else "RESPONSE_LIMIT_EXCEEDED", elapsedMs, EvidenceOf(result), false, completed);
    FailureIsCoherent(op, if live then "PROVIDER_INVALID_RESPONSE"
                      else "UNSAFE_PROVIDER_DATA", elapsedMs, EvidenceOf(result), false, completed);
    SuccessIsCoherent(op, result, elapsedMs, completed);
  }

  /** Whatever the adapter does, the record written is terminal, coherent and reports at most its cost. */
  lemma ConcludedRecord(op: Operation, outcome: SearchOutcome, elapsedMs: int, completed: int)
    requires Coherent(op) && op.status.Running?
    ensures var record := Conclude(op, outcome, elapsedMs, completed);
            record.Some? ==> Coherent(record.value) && SameIdentity(op, record.value) && Terminal(record.value.status)
                             && (ReportedCost(record.value) == OutcomeCost(outcome) || ReportedCost(record.value) == 0)
  {
    hide Coherent, FailedRecord, ConcludedResult;
    FailureIsCoherent(op, if op.adapter.OpenAlex? then "PROVIDER_UNAVAILABLE"
                      else "FAKE_ADAPTER_FAILURE", elapsedMs, NO_EVIDENCE, false, completed);
    match outcome
    case TimedOut =>
      FailureIsCoherent(op, "PROVIDER_RECONCILIATION_REQUIRED", MAX_TIMEOUT_MS, NO_EVIDENCE, true, completed);
      FailureIsCoherent(op, "OPERATION_TIMEOUT", MAX_TIMEOUT_MS, NO_EVIDENCE, false, completed);
    case Returned(result, late) =>
      ConcludedResultIsCoherent(op, result, late, elapsedMs, completed);
    case RaisedAdapterError(code, calls, cost, uncertain, checksum, httpStatus) =>
      FailureIsCoherent(op, code, elapsedMs, CallEvidence(calls, cost, checksum, httpStatus), uncertain, completed);
    case RaisedInternalError =>
      FailureIsCoherent(op, "PROVIDER_UNAVAILABLE", elapsedMs, NO_EVIDENCE, false, completed);
    case RaisedOther =>
  }

  /** What a search must return for the operation to succeed. */
  predicate Deliverable(outcome: SearchOutcome) {
    && outcome.Returned? && !outcome.late
    && outcome.result.serializable && outcome.result.safe && outcome.result.encodedSize <= MAX_RESULT_BYTES
    && 0 <= outcome.result.providerHttpCalls <= 1 && 0 <= outcome.result.reportedCost
    && (outcome.result.rateLimit.Some? ==> 0 <= outcome.result.rateLimit.value)
    && (outcome.result.rateRemaining.Some? ==> 0 <= outcome.result.rateRemaining.value)
    && ValidResponseChecksum(outcome.result.responseChecksum)
  }

  /**
   * An operation succeeds exactly on a deliverable result, whose data it then keeps, null
   * included; it awaits reconciliation exactly when the provider's outcome is uncertain; and it
   * stays RUNNING exactly when the adapter raised evidence the record's constructors refuse.
   */
  lemma OutcomeDecidesStatus(op: Operation, outcome: SearchOutcome, elapsedMs: int, completed: int)
    ensures var record := Conclude(op, outcome, elapsedMs, completed);
            && (record.None? <==> outcome.RaisedAdapterError?
                                  && !(0 <= outcome.providerHttpCalls <= 1 && 0 <= outcome.reportedCost
                                       && ValidResponseChecksum(outcome.responseChecksum)))
            && (record.Some? ==>
                  && (record.value.status.Succeeded? <==> Deliverable(outcome))
                  && (record.value.status.Succeeded? ==>
                        && record.value.providerData == outcome.result.providerData && record.value.usage.Some?
                        && record.value.usage.value.reportedCost == outcome.result.reportedCost)
                  && (record.value.status.Succeeded? && record.value.providerData.None?
                      <==> Deliverable(outcome) && outcome.result.providerData.None?)
                  && (record.value.status.ReconciliationRequired? <==>
                        || (outcome.TimedOut? && op.adapter.OpenAlex?)
                        || (outcome.RaisedAdapterError? && outcome.uncertain)))
  {
  }

  lemma RunningRecord(op: Operation, now: int)
    requires Coherent(op) && op.status.Received?
    ensures Coherent(MarkedRunning(op, now)) && SameIdentity(op, MarkedRunning(op, now))
    ensures MarkedRunning(op, now).status.Running? && ReportedCost(MarkedRunning(op, now)) == 0
  {
  }

  /** Writing one record of the same identity back is the only change of a worker's unit of work. */
  lemma SettledEvolves(s: Store, op: Operation)
    requires op.operationId in s.operations && op.tokenId in s.tokens
    requires RecordEvolves(s.operations[op.operationId], op)
    ensures OperationsEvolve(s, Settled(s, Some(op))) && TokensEvolve(s, Settled(s, Some(op)))
  {
    SettledFields(s, op);
  }

  lemma StillEvolves(s: Store)
    ensures OperationsEvolve(s, s) && TokensEvolve(s, s)
  {
  }

  // The account of what tokens report

  lemma {:induction false} ForgottenNothing(log: seq<(TokenId, nat)>, t: TokenId)
    requires forall i :: 0 <= i < |log| ==> log[i].0 != t
    ensures Forgotten(log, t) == 0
  {
    if log != [] {
      ForgottenNothing(log[..|log| - 1], t);
    }
  }

  /** A step that keeps the gaps keeps the account. */
  lemma AccountKept(sys: System, next: System)
    requires Accounted(sys) && GapsKept(sys.store, next.store) && next.forgotten == sys.forgotten
    ensures Accounted(next)
  {
    hide Gap;
    forall t | t in next.store.tokens ensures Gap(next.store, t) == Forgotten(next.forgotten, t) {
      if t !in sys.store.tokens {
        ForgottenNothing(sys.forgotten, t);
      }
    }
  }

  lemma NothingMoved(s: Store)
    ensures GapsKept(s, s)
  {
  }

  /** An overwritten record's cost moves from the sum of the records to what was forgotten. */
  lemma AccountWidened(sys: System, next: System, t: TokenId, cost: nat)
    requires Accounted(sys) && t in sys.store.tokens && GapWidened(sys.store, next.store, t, cost)
    requires next.forgotten == sys.forgotten + [(t, cost)]
    ensures Accounted(next)
  {
    hide Gap;
    assert next.forgotten[..|sys.forgotten|] == sys.forgotten;
  }

  // One event at a time, on the whole system

  lemma IssueStep(sys: System, order: Issuance)
    requires Consistent(sys)
    ensures Consistent(Next(sys, Issuing(order))) && Evolves(sys, Next(sys, Issuing(order)))
  {
    hide Sound, Mirrors, Accounted, GapsKept;
    IssueKeepsSound(sys.store, order);
    var s' := Issue(sys.store, order).0;
    assert s'.operations == sys.store.operations;
    assert TokensEvolve(sys.store, s');
    AccountKept(sys, Next(sys, Issuing(order)));
  }

  lemma RevokeStep(sys: System, t: TokenId, now: int)
    requires Consistent(sys)
    ensures Consistent(Next(sys, Revoking(t, now))) && Evolves(sys, Next(sys, Revoking(t, now)))
  {
    hide Sound, Mirrors, Accounted, GapsKept;
    RevokeKeepsSound(sys.store, t, now);
    var s' := Revoke(sys.store, t, now).0;
    assert s'.operations == sys.store.operations;
    assert TokensEvolve(sys.store, s');
    AccountKept(sys, Next(sys, Revoking(t, now)));
  }

  lemma AdmitEvolves(s: Store, adapters: set<Adapter>, call: Call)
    requires Sound(s)
    ensures OperationsEvolve(s, Admit(s, adapters, call).0) && TokensEvolve(s, Admit(s, adapters, call).0)
  {
    hide Sound;
    if Judge(s, adapters, call).Accept? {
      AcceptedIsAdmitted(s, adapters, call);
    } else {
      RefusalChangesNothing(s, adapters, call);
    }
  }

  lemma WorkerAdded(sys: System, op: Operation, store: Store)
    requires Mirrored(sys) && CalledOnce(sys)
    requires op.operationId !in sys.store.operations && op.status.Received?
    requires store.operations == sys.store.operations[op.operationId := op]
    ensures var sys' := sys.(store := store, workers := sys.workers[op.operationId := Worker(op, AwaitingRunning)]);
            Mirrored(sys') && CalledOnce(sys')
  {
    hide Mirrors;
    assert Mirrors(Worker(op, AwaitingRunning), op) by { MirrorsFresh(op, AwaitingRunning); }
  }

  lemma MirrorsFresh(op: Operation, phase: Phase)
    requires !phase.Undelivered? && op.status == (if phase.AwaitingRunning? then Received else Running)
    ensures Mirrors(Worker(op, phase), op)
  {
  }

  lemma WorkerAdvanced(sys: System, op: Operation, store: Store)
    requires Mirrored(sys) && CalledOnce(sys)
    requires op.operationId in sys.workers && sys.workers[op.operationId].phase.AwaitingRunning? && op.status.Running?
    requires store.operations == sys.store.operations[op.operationId := op]
    ensures var sys' := sys.(store := store, workers := sys.workers[op.operationId := Worker(op, AwaitingCall)]);
            Mirrored(sys') && CalledOnce(sys')
  {
    hide Mirrors;
    MirrorsFresh(op, AwaitingCall);
  }

  lemma WorkerCalls(sys: System, id: OperationId)
    requires Mirrored(sys) && CalledOnce(sys)
    requires id in sys.workers && sys.workers[id].phase.AwaitingCall?
    ensures Mirrored(CallAdapter(sys, id)) && CalledOnce(CallAdapter(sys, id))
  {
  }

  lemma WorkerRetired(sys: System, id: OperationId, op: Operation, store: Store)
    requires Mirrored(sys) && CalledOnce(sys)
    requires id in sys.store.operations && Terminal(op.status)
    requires store.operations == sys.store.operations[id := op] || store == sys.store
    ensures var sys' := sys.(store := store, workers := sys.workers - {id});
            Mirrored(sys') && CalledOnce(sys')
  {
    hide Mirrors;
  }

  /** The worker whose delivery raised keeps its RUNNING copy beside the record it saved. */
  lemma WorkerUndelivered(sys: System, id: OperationId, op: Operation, store: Store)
    requires Mirrored(sys) && CalledOnce(sys)
    requires id in sys.workers && sys.workers[id].phase.InCall? && Terminal(op.status)
    requires SameIdentity(op, sys.workers[id].operation) && Coherent(sys.workers[id].operation)
    requires store.operations == sys.store.operations[id := op]
    ensures var worker := Worker(sys.workers[id].operation, Undelivered);
            var sys' := sys.(store := store, workers := sys.workers[id := worker]);
            Mirrored(sys') && CalledOnce(sys')
  {
    assert Mirrors(Worker(sys.workers[id].operation, Undelivered), op) by {
      assert Mirrors(sys.workers[id], sys.store.operations[id]);
    }
    hide Mirrors;
  }

  lemma SubmitStep(sys: System, call: Call)
    requires Consistent(sys) && sys.up
    ensures Consistent(Submit(sys, call)) && Evolves(sys, Submit(sys, call))
  {
    hide Sound, Mirrored, CalledOnce, OperationsEvolve, TokensEvolve, Accounted, GapsKept;
    AdmitKeepsSound(sys.store, sys.adapters, call);
    AccountKept(sys, Submit(sys, call));
    AdmitEvolves(sys.store, sys.adapters, call);
    if Judge(sys.store, sys.adapters, call).Accept? {
      AcceptedIsAdmitted(sys.store, sys.adapters, call);
      var (store, admission) := Admit(sys.store, sys.adapters, call);
      WorkerAdded(sys, admission.operation, store);
    } else {
      RefusalChangesNothing(sys.store, sys.adapters, call);
    }
  }

  lemma WorkerFacts(sys: System, id: OperationId)
    requires Consistent(sys) && id in sys.workers && !sys.workers[id].phase.Undelivered?
    ensures var op := sys.workers[id].operation;
            && id in sys.store.operations && sys.store.operations[id] == op && op.operationId == id
            && op.tokenId in sys.store.tokens && Coherent(op) && sys.up
            && op.status == (if sys.workers[id].phase.AwaitingRunning? then Received else Running)
  {
    hide Sound;
    assert Mirrors(sys.workers[id], sys.store.operations[id]);
    StoredFacts(sys.store, id);
  }

  lemma UndeliveredFacts(sys: System, id: OperationId)
    requires Consistent(sys) && id in sys.workers && sys.workers[id].phase.Undelivered?
    ensures var op := sys.workers[id].operation;
            && id in sys.store.operations && SameIdentity(sys.store.operations[id], op) && op.operationId == id
            && op.tokenId in sys.store.tokens && Coherent(op) && op.status.Running? && sys.up
            && Terminal(sys.store.operations[id].status)
  {
    hide Sound;
    assert Mirrors(sys.workers[id], sys.store.operations[id]);
    StoredFacts(sys.store, id);
  }

  /** The generic handler always writes a record: a failure without cost or data. */
  lemma UnclassifiedIsOverwritten(op: Operation, elapsedMs: int, completed: int)
    requires Coherent(op) && op.status.Running?
    ensures var record := UnclassifiedFailure(op, elapsedMs, completed);
            && record.Some? && Coherent(record.value) && SameIdentity(op, record.value) && Overwritten(record.value)
            && record.value.completedAt == Some(completed)
  {
  }

  lemma StartStep(sys: System, id: OperationId, now: int)
    requires Consistent(sys)
    ensures Consistent(Start(sys, id, now)) && Evolves(sys, Start(sys, id, now))
  {
    hide Sound, Mirrored, CalledOnce, OperationsEvolve, TokensEvolve, Accounted, GapsKept;
    NothingMoved(sys.store);
    if id in sys.workers && sys.workers[id].phase.AwaitingRunning? {
      WorkerFacts(sys, id);
      var running := MarkedRunning(sys.workers[id].operation, now);
      RunningRecord(sys.workers[id].operation, now);
      SettledFields(sys.store, running);
      SettleKeepsSound(sys.store, running);
      SettledEvolves(sys.store, running);
      WorkerAdvanced(sys, running, Settled(sys.store, Some(running)));
      AccountKept(sys, Start(sys, id, now));
    } else {
      StillEvolves(sys.store);
    }
  }

  lemma CallStep(sys: System, id: OperationId)
    requires Consistent(sys)
    ensures Consistent(CallAdapter(sys, id)) && Evolves(sys, CallAdapter(sys, id))
  {
    hide Sound, Mirrored, CalledOnce, OperationsEvolve, TokensEvolve, Accounted, GapsKept;
    StillEvolves(sys.store);
    NothingMoved(sys.store);
    AccountKept(sys, CallAdapter(sys, id));
    if id in sys.workers && sys.workers[id].phase.AwaitingCall? {
      WorkerFacts(sys, id);
      WorkerCalls(sys, id);
    }
  }

  lemma SettleStep(sys: System, id: OperationId, outcome: SearchOutcome, elapsedMs: int, completed: int,
                   delivered: bool)
    requires Consistent(sys)
    ensures Consistent(Settle(sys, id, outcome, elapsedMs, completed, delivered))
    ensures Evolves(sys, Settle(sys, id, outcome, elapsedMs, completed, delivered))
  {
    hide Sound, Mirrored, CalledOnce, OperationsEvolve, TokensEvolve, Coherent, Conclude, SavedInTry, Accounted,
        GapsKept;
    StillEvolves(sys.store);
    NothingMoved(sys.store);
    if id in sys.workers && sys.workers[id].phase.InCall? {
      WorkerFacts(sys, id);
      var op := sys.workers[id].operation;
      ConcludedRecord(op, outcome, elapsedMs, completed);
      SavedIsConcluded(op, outcome, elapsedMs, completed);
      var record := Conclude(op, outcome, elapsedMs, completed);
      if record.Some? {
        SettledFields(sys.store, record.value);
        SettleKeepsSound(sys.store, record.value);
        SettledEvolves(sys.store, record.value);
        WorkerRetired(sys, id, record.value, Settled(sys.store, record));
        WorkerUndelivered(sys, id, record.value, Settled(sys.store, record));
      } else {
        WorkerRetired(sys, id, op.(status := Failed), sys.store);
      }
    }
    AccountKept(sys, Settle(sys, id, outcome, elapsedMs, completed, delivered));
  }

  lemma SavedIsConcluded(op: Operation, outcome: SearchOutcome, elapsedMs: int, completed: int)
    ensures SavedInTry(op, outcome, elapsedMs, completed) ==> Conclude(op, outcome, elapsedMs, completed).Some?
  {
  }

  lemma LogIsApart(sys: System, log: seq<(TokenId, nat)>)
    requires Mirrored(sys) && CalledOnce(sys)
    ensures Mirrored(sys.(forgotten := log)) && CalledOnce(sys.(forgotten := log))
  {
    hide Mirrors;
  }

  lemma OverwriteStep(sys: System, id: OperationId, elapsedMs: int, completed: int)
    requires Consistent(sys)
    ensures Consistent(Overwrite(sys, id, elapsedMs, completed))
    ensures Evolves(sys, Overwrite(sys, id, elapsedMs, completed))
  {
    hide Sound, Mirrored, CalledOnce, OperationsEvolve, TokensEvolve, Coherent, UnclassifiedFailure, Accounted,
        GapWidened;
    StillEvolves(sys.store);
    if id in sys.workers && sys.workers[id].phase.Undelivered? {
      UndeliveredFacts(sys, id);
      var op := sys.workers[id].operation;
      UnclassifiedIsOverwritten(op, elapsedMs, completed);
      var record := UnclassifiedFailure(op, elapsedMs, completed);
      SettledFields(sys.store, record.value);
      OverwriteKeepsSound(sys.store, record.value);
      SettledEvolves(sys.store, record.value);
      WorkerRetired(sys, id, record.value, Settled(sys.store, record));
      LogIsApart(sys.(store := Settled(sys.store, record), workers := sys.workers - {id}),
                 Overwrite(sys, id, elapsedMs, completed).forgotten);
      AccountWidened(sys, Overwrite(sys, id, elapsedMs, completed), op.tokenId, ReportedCost(sys.store.operations[id]));
    }
  }

  lemma StartUpStep(sys: System, configured: set<Adapter>)
    requires Consistent(sys)
    ensures Consistent(Next(sys, StartingUp(configured))) && Evolves(sys, Next(sys, StartingUp(configured)))
  {
    hide Sound, Mirrors, Accounted, GapsKept;
    if !sys.up {
      RestartKeepsSound(sys.store);
      forall id | id in sys.store.operations
        ensures RecordEvolves(sys.store.operations[id], ReconciledRecord(sys.store.operations[id], RESTART_EVIDENCE))
      {
        StoredFacts(sys.store, id);
        ReconciledIsCoherent(sys.store.operations[id], RESTART_EVIDENCE);
      }
      AccountKept(sys, Next(sys, StartingUp(configured)));
    }
  }

  lemma EndingStep(sys: System, workers: map<OperationId, Worker>, up: bool)
    requires Consistent(sys) && workers.Keys <= sys.workers.Keys
    requires forall id :: id in workers ==> workers[id] == sys.workers[id]
    requires !up ==> workers == map[]
    ensures Consistent(sys.(workers := workers, up := up)) && Evolves(sys, sys.(workers := workers, up := up))
  {
    hide Sound, Mirrors, Accounted, GapsKept;
    NothingMoved(sys.store);
    AccountKept(sys, sys.(workers := workers, up := up));
  }

  lemma NextIsConsistent(sys: System, e: Event)
    requires Consistent(sys)
    ensures Consistent(Next(sys, e)) && Evolves(sys, Next(sys, e))
  {
    hide Sound, Accounted, Mirrored, CalledOnce;
    match e
    case Issuing(order) => IssueStep(sys, order);
    case Revoking(t, now) => RevokeStep(sys, t, now);
    case Submitting(call) => if sys.up { SubmitStep(sys, call); } else { EndingStep(sys, sys.workers, sys.up); }
    case Starting(id, now) => StartStep(sys, id, now);
    case Calling(id) => CallStep(sys, id);
    case Settling(id, outcome, elapsedMs, completed, delivered) =>
      SettleStep(sys, id, outcome, elapsedMs, completed, delivered);
    case Overwriting(id, elapsedMs, completed) => OverwriteStep(sys, id, elapsedMs, completed);
    case Crashing => EndingStep(sys, map[], false);
    case Dying(id) => EndingStep(sys, sys.workers - {id}, sys.up);
    case StartingUp(configured) => StartUpStep(sys, configured);
  }

  lemma {:induction false} RunFromIsConsistent(sys: System, events: seq<Event>)
    requires Consistent(sys)
    ensures Consistent(RunFrom(sys, events)) && Evolves(sys, RunFrom(sys, events))
    decreases |events|
  {
    hide Sound;
    if events != [] {
      NextIsConsistent(sys, events[0]);
      RunFromIsConsistent(Next(sys, events[0]), events[1..]);
      EvolvesTransitive(sys, Next(sys, events[0]), RunFrom(sys, events));
    }
  }
}
