/**
 * The Proxy as a state machine over its units of work, with worker crashes and restarts.
 *
 * Between two units of work of one `submit` any other event may happen. A worker is the thread of
 * one admitted `submit`: it carries its own copy of the operation and writes that copy back
 * without re-reading. Start-up reconciliation runs only while no worker is alive.
 */
module ProxyRuns {
  import opened Outcomes
  import opened Sequences
  import opened ProxyContracts
  import opened ProxyStore
  import opened ProxySteps
  import opened ProxyLedger

  /** A worker is Undelivered when its outcome is saved and the delivery of it has raised. */
  datatype Phase = AwaitingRunning | AwaitingCall | InCall | Undelivered

  datatype Worker = Worker(operation: Operation, phase: Phase)

  /**
   * `calls` logs the adapter calls that were started, in order; `forgotten` the costs that finished
   * records reported before they were overwritten, with their tokens.
   */
  datatype System = System(store: Store, adapters: set<Adapter>, workers: map<OperationId, Worker>,
    calls: seq<OperationId>, up: bool, forgotten: seq<(TokenId, nat)>)

  const INITIAL := System(EMPTY_STORE, {}, map[], [], false, [])

  datatype Event =
    | Issuing(order: Issuance)
    | Revoking(tokenId: TokenId, now: int)
    | Submitting(call: Call)
    | Starting(id: OperationId, now: int)
    | Calling(id: OperationId)
    | Settling(id: OperationId, outcome: SearchOutcome, elapsedMs: int, completed: int, delivered: bool)
    | Overwriting(id: OperationId, elapsedMs: int, completed: int)
    | Crashing
    | Dying(id: OperationId)
    | StartingUp(configured: set<Adapter>)

  function Submit(sys: System, call: Call): System {
    var (store, admission) := Admit(sys.store, sys.adapters, call);
    if admission.Admitted? then
      sys.(store := store,
           workers := sys.workers[admission.operation.operationId := Worker(admission.operation, AwaitingRunning)])
    else sys.(store := store)
  }

  function Start(sys: System, id: OperationId, now: int): System {
    if id in sys.workers && sys.workers[id].phase.AwaitingRunning? then
      var running := MarkedRunning(sys.workers[id].operation, now);
      sys.(store := Save(sys.store, running, 0).0, workers := sys.workers[id := Worker(running, AwaitingCall)])
    else sys
  }

  function CallAdapter(sys: System, id: OperationId): System {
    if id in sys.workers && sys.workers[id].phase.AwaitingCall? then
      sys.(calls := sys.calls + [id], workers := sys.workers[id := Worker(sys.workers[id].operation, InCall)])
    else sys
  }

  /** Saving the outcome; the worker goes on only if the delivery raises where the generic handler catches it. */
  function Settle(sys: System, id: OperationId, outcome: SearchOutcome, elapsedMs: int, completed: int, delivered: bool)
    : System
  {
    if id in sys.workers && sys.workers[id].phase.InCall? then
      var op := sys.workers[id].operation;
      sys.(store := Settled(sys.store, Conclude(op, outcome, elapsedMs, completed)),
           workers := if delivered || !SavedInTry(op, outcome, elapsedMs, completed) then sys.workers - {id}
                      else sys.workers[id := Worker(op, Undelivered)])
    else sys
  }

  /** The generic handler overwrites the saved record by a failure without cost; an exception in it ends the worker. */
  function Overwrite(sys: System, id: OperationId, elapsedMs: int, completed: int): System {
    if id in sys.workers && sys.workers[id].phase.Undelivered? && id in sys.store.operations then
      var op := sys.workers[id].operation;
      sys.(store := Settled(sys.store, UnclassifiedFailure(op, elapsedMs, completed)), workers := sys.workers - {id},
           forgotten := sys.forgotten + [(op.tokenId, ReportedCost(sys.store.operations[id]))])
    else sys
  }

  /** The state after one event; an event that is not enabled changes nothing. */
  function Next(sys: System, e: Event): System {
    match e
    case Issuing(order) => sys.(store := Issue(sys.store, order).0)
    case Revoking(tokenId, now) => sys.(store := Revoke(sys.store, tokenId, now).0)
    case Submitting(call) => if sys.up then Submit(sys, call) else sys
    case Starting(id, now) => Start(sys, id, now)
    case Calling(id) => CallAdapter(sys, id)
    case Settling(id, outcome, elapsedMs, completed, delivered) =>
      Settle(sys, id, outcome, elapsedMs, completed, delivered)
    case Overwriting(id, elapsedMs, completed) => Overwrite(sys, id, elapsedMs, completed)
    case Crashing => sys.(workers := map[], up := false)
    // One worker ends on an exception, say of the clock, and leaves its record as it last wrote it.
    case Dying(id) => sys.(workers := sys.workers - {id})
    case StartingUp(configured) =>
      if sys.up then sys else sys.(store := Restarted(sys.store), adapters := configured, up := true)
  }

  function RunFrom(sys: System, events: seq<Event>): System
    decreases |events|
  {
    if events == [] then sys else RunFrom(Next(sys, events[0]), events[1..])
  }

  function Run(events: seq<Event>): System { RunFrom(INITIAL, events) }

  lemma {:induction false} RunFromSplit(sys: System, a: seq<Event>, b: seq<Event>)
    ensures RunFrom(sys, a + b) == RunFrom(RunFrom(sys, a), b)
    decreases |a|
  {
    if a == [] {
      assert a + b == b;
    } else {
      assert (a + b)[0] == a[0] && (a + b)[1..] == a[1..] + b;
      RunFromSplit(Next(sys, a[0]), a[1..], b);
    }
  }

  // The invariant

  /**
   * A worker's copy is the stored record, and its phase says which record that is; an Undelivered
   * worker still holds the RUNNING copy of the record it finished.
   */
  ghost predicate Mirrors(worker: Worker, stored: Operation) {
    if worker.phase.Undelivered? then
      && Terminal(stored.status) && SameIdentity(stored, worker.operation)
      && Coherent(worker.operation) && worker.operation.status.Running?
    else
      && stored == worker.operation
      && stored.status == (if worker.phase.AwaitingRunning? then Received else Running)
  }

  ghost predicate Mirrored(sys: System) {
    forall id :: id in sys.workers ==> id in sys.store.operations && Mirrors(sys.workers[id], sys.store.operations[id])
  }

  ghost predicate CalledOnce(sys: System) {
    && NoRepeats(sys.calls)
    && (forall id :: id in sys.calls ==> id in sys.store.operations && !sys.store.operations[id].status.Received?)
    && (forall id :: id in sys.workers
                     && (sys.workers[id].phase.AwaitingRunning? || sys.workers[id].phase.AwaitingCall?)
          ==> id !in sys.calls)
  }

  /** The costs a token's overwritten records reported. */
  function Forgotten(log: seq<(TokenId, nat)>, t: TokenId): nat {
    if log == [] then 0
    else
      var last := |log| - 1;
      Forgotten(log[..last], t) + if log[last].0 == t then log[last].1 else 0
  }

  /** A token reports what its records do and what its overwritten records did. */
  ghost predicate Accounted(sys: System) {
    && (forall i :: 0 <= i < |sys.forgotten| ==> sys.forgotten[i].0 in sys.store.tokens)
    && (forall t :: t in sys.store.tokens ==> Gap(sys.store, t) == Forgotten(sys.forgotten, t))
  }

  ghost predicate Consistent(sys: System) {
    Sound(sys.store) && Mirrored(sys) && CalledOnce(sys) && Accounted(sys) && (!sys.up ==> sys.workers == map[])
  }

  // What one event may do to a record, a token and the log

  predicate Terminal(status: Status) { !Active(status) }

  predicate StatusStep(a: Status, b: Status) {
    a == b || (a.Received? && b.Running?) || (a.Running? && Terminal(b))
  }

  /** A finished status can only become FAILED, when its record is overwritten. */
  predicate StatusReaches(a: Status, b: Status) {
    a == b || a.Received? || (a.Running? && Terminal(b)) || (Terminal(a) && b.Failed?)
  }

  /** The record the generic handler writes over a finished one. */
  predicate Overwritten(op: Operation) {
    && op.status.Failed? && op.providerData.None? && ReportedCost(op) == 0
    && op.errorCode == Some(if op.adapter.OpenAlex? then "PROVIDER_UNAVAILABLE" else "FAKE_ADAPTER_FAILURE")
  }

  ghost predicate RecordEvolves(a: Operation, b: Operation) {
    && SameIdentity(a, b)
    && StatusReaches(a.status, b.status)
    && (Terminal(a.status) ==> b == a || Overwritten(b))
  }

  ghost predicate TokenEvolves(a: Token, b: Token) {
    && a.scope == b.scope && a.digest == b.digest && a.issuedAt == b.issuedAt && a.expiresAt == b.expiresAt
    && a.admitted <= b.admitted && a.usedCalls <= b.usedCalls
    && a.reservedCost <= b.reservedCost && a.reportedCost <= b.reportedCost
    && (a.revoked ==> b.revoked && b.revokedAt == a.revokedAt)
  }

  ghost predicate OperationsEvolve(a: Store, b: Store) {
    forall id :: id in a.operations ==> id in b.operations && RecordEvolves(a.operations[id], b.operations[id])
  }

  ghost predicate TokensEvolve(a: Store, b: Store) {
    forall t :: t in a.tokens ==> t in b.tokens && TokenEvolves(a.tokens[t], b.tokens[t])
  }

  ghost predicate Evolves(a: System, b: System) {
    && OperationsEvolve(a.store, b.store) && TokensEvolve(a.store, b.store)
    && a.calls <= b.calls && a.forgotten <= b.forgotten
  }

  lemma EvolvesTransitive(a: System, b: System, c: System)
    requires Evolves(a, b) && Evolves(b, c)
    ensures Evolves(a, c)
  {
    forall id | id in a.store.operations
      ensures id in c.store.operations && RecordEvolves(a.store.operations[id], c.store.operations[id])
    {
      assert RecordEvolves(a.store.operations[id], b.store.operations[id]);
      assert RecordEvolves(b.store.operations[id], c.store.operations[id]);
    }
    forall t | t in a.store.tokens
      ensures t in c.store.tokens && TokenEvolves(a.store.tokens[t], c.store.tokens[t])
    {
      assert TokenEvolves(a.store.tokens[t], b.store.tokens[t]);
      assert TokenEvolves(b.store.tokens[t], c.store.tokens[t]);
    }
  }
}
