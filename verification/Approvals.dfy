/**
 * Approvals of controlled local runs: report, supersede, approve, reject, consume.
 *
 * The request checksum is a free constructor over the request; the request identifier is a
 * truncation of it, so `idOf` may give two checksums the same identifier.
 */
module Approvals {
  import opened Outcomes
  import opened Ordering
  import opened Sequences

  datatype Scope = Scope(project: string, instance: string)

  datatype Request = Request(scope: Scope, objective: string, plan: string, package: string,
    runtime: Option<string>, capability: Option<string>, summary: string, createdAt: int)
  datatype RequestChecksum = RequestChecksumOf(request: Request)

  datatype Status = Requested | Approved | Rejected | Consumed | Superseded

  datatype DecisionChecksum =
    | ApprovalOf(id: string, plan: string, request: RequestChecksum, actor: string, key: string, at: int)
    | RejectionOf(id: string, plan: string, request: RequestChecksum, actor: string, key: string,
                  reason: Option<string>, at: int)

  datatype ConsumptionChecksum = ConsumptionOf(id: string, approval: DecisionChecksum, plan: string, attempt: string,
                                               at: int)

  datatype Approval = Approval(id: string, request: Request, checksum: RequestChecksum, status: Status,
    actor: Option<string>, reason: Option<string>, key: Option<string>, decidedAt: Option<int>,
    decision: Option<DecisionChecksum>, attempt: Option<string>, consumedAt: Option<int>,
    consumption: Option<ConsumptionChecksum>)

  /** The hash truncation and the tests on texts, plan checksums and attempt identifiers. */
  datatype Rules = Rules(idOf: RequestChecksum -> string, text: (string, nat) -> bool, plan: string -> bool,
                         attempt: string -> bool)

  datatype Problem =
    | WorkflowUnsupported | IdentityConflict | NotFound | IdentityMismatch | AlreadyApproved | IsSuperseded | IsRejected
    | AlreadyRejected | AlreadyConsumed | Invalidated | InvalidChecksum | InvalidAttempt | NotApproved | InvalidText

  predicate Undecided(a: Approval) { a.actor.None? && a.key.None? && a.decidedAt.None? && a.decision.None? }

  predicate Decided(a: Approval) { a.actor.Some? && a.key.Some? && a.decidedAt.Some? && a.decision.Some? }

  predicate Unspent(a: Approval) { a.attempt.None? && a.consumedAt.None? && a.consumption.None? }

  predicate Spent(a: Approval) { a.attempt.Some? && a.consumedAt.Some? && a.consumption.Some? }

  /** `_validate_state`. */
  predicate ValidState(a: Approval) {
    match a.status
    case Requested => Undecided(a) && Unspent(a) && a.reason.None?
    case Approved => Decided(a) && Unspent(a)
    case Rejected => Decided(a) && Unspent(a)
    case Consumed => Decided(a) && Spent(a)
    case Superseded => Unspent(a)
  }

  predicate ValidIdentity(rules: Rules, a: Approval) {
    a.checksum == RequestChecksumOf(a.request) && a.id == rules.idOf(a.checksum)
  }

  /** The record a request is reported as. */
  function Reported(rules: Rules, request: Request): Approval {
    var checksum := RequestChecksumOf(request);
    Approval(rules.idOf(checksum), request, checksum, Requested, None, None, None, None, None, None, None, None)
  }

  predicate Open(status: Status) { status.Requested? || status.Approved? }

  // The repository: a dictionary in insertion order

  function ById(log: seq<Approval>, id: string): Option<Approval> { First(log, (a: Approval) => a.id == id) }

  function Saved(log: seq<Approval>, changed: Approval): seq<Approval> {
    Map((a: Approval) => if a.id == changed.id then changed else a, log)
  }

  function Priority(status: Status): string {
    match status
    case Requested => "2"
    case Approved => "2"
    case Rejected => "1"
    case Consumed => "1"
    case Superseded => "0"
  }

  function CurrentKey(a: Approval): Key { (Priority(a.status), a.request.createdAt, a.id) }

  function Current(log: seq<Approval>, scope: Scope): Option<Approval> {
    var found := Greatest(Filter(log, (a: Approval) => a.request.scope == scope), CurrentKey);
    if found == [] then None else Some(found[0])
  }

  // The transitions

  function Report(rules: Rules, log: seq<Approval>, request: Request, supported: bool)
    : (seq<Approval>, Result<Approval, Problem>)
  {
    var reported := Reported(rules, request);
    if !supported then (log, Err(WorkflowUnsupported))
    else match ById(log, reported.id)
      case Some(existing) =>
        (log, if existing.checksum != reported.checksum then Err(IdentityConflict) else Ok(existing))
      case None =>
        var current := Current(log, request.scope);
        var kept := if current.Some? && Open(current.value.status) then
            Saved(log, current.value.(status := Superseded)) else log;
        (kept + [reported], Ok(reported))
  }

  /** The request a decision names, found in its own scope. */
  function Named(log: seq<Approval>, scope: Scope, id: string, supported: bool): Result<Approval, Problem> {
    if !supported then Err(WorkflowUnsupported)
    else match ById(log, id)
      case None => Err(NotFound)
      case Some(a) => if a.request.scope != scope then Err(NotFound) else Ok(a)
  }

  datatype Decision = Decision(scope: Scope, id: string, plan: string, checksum: RequestChecksum, key: string,
    actor: string, reason: Option<string>, supported: bool, now: int)

  function ApprovedRecord(a: Approval, d: Decision): Approval {
    a.(status := Approved, actor := Some(d.actor), key := Some(d.key), decidedAt := Some(d.now),
       decision := Some(ApprovalOf(a.id, a.request.plan, a.checksum, d.actor, d.key, d.now)))
  }

  function RejectedRecord(a: Approval, d: Decision): Approval {
    a.(status := Rejected, actor := Some(d.actor), reason := d.reason, key := Some(d.key), decidedAt := Some(d.now),
       decision := Some(RejectionOf(a.id, a.request.plan, a.checksum, d.actor, d.key, d.reason, d.now)))
  }

  function ConsumedRecord(a: Approval, attempt: string, now: int): Approval
    requires a.decision.Some?
  {
    a.(status := Consumed, attempt := Some(attempt), consumedAt := Some(now),
       consumption := Some(ConsumptionOf(a.id, a.decision.value, a.request.plan, attempt, now)))
  }

  function Approve(rules: Rules, log: seq<Approval>, d: Decision): (seq<Approval>, Result<Approval, Problem>) {
    match Named(log, d.scope, d.id, d.supported)
    case Err(problem) => (log, Err(problem))
    case Ok(a) =>
      if a.request.plan != d.plan || a.checksum != d.checksum then (log, Err(IdentityMismatch))
      else match a.status
        case Approved => (log, if a.key == Some(d.key) then Ok(a) else Err(AlreadyApproved))
        case Superseded => (log, Err(IsSuperseded))
        case Rejected => (log, Err(IsRejected))
        case Consumed => (log, Err(AlreadyConsumed))
        case Requested =>
          if !rules.text(d.actor, 120) || !rules.text(d.key, 100) then (log, Err(InvalidText))
          else (Saved(log, ApprovedRecord(a, d)), Ok(ApprovedRecord(a, d)))
  }

  function Reject(rules: Rules, log: seq<Approval>, d: Decision): (seq<Approval>, Result<Approval, Problem>) {
    match Named(log, d.scope, d.id, d.supported)
    case Err(problem) => (log, Err(problem))
    case Ok(a) =>
      if a.request.plan != d.plan || a.checksum != d.checksum then (log, Err(IdentityMismatch))
      else match a.status
        case Rejected => (log, if a.key == Some(d.key) then Ok(a) else Err(AlreadyRejected))
        case Superseded => (log, Err(IsSuperseded))
        case Approved => (log, Err(AlreadyApproved))
        case Consumed => (log, Err(AlreadyConsumed))
        case Requested =>
          if !rules.text(d.actor, 120) || (d.reason.Some? && !rules.text(d.reason.value, 500))
              || !rules.text(d.key, 100)
          then (log, Err(InvalidText))
          else (Saved(log, RejectedRecord(a, d)), Ok(RejectedRecord(a, d)))
  }

  datatype Use = Use(scope: Scope, id: string, plan: string, attempt: string, supported: bool, now: int)

  function Consume(rules: Rules, log: seq<Approval>, u: Use): (seq<Approval>, Result<Approval, Problem>) {
    match Named(log, u.scope, u.id, u.supported)
    case Err(problem) => (log, Err(problem))
    case Ok(a) =>
      if !rules.plan(u.plan) then (log, Err(InvalidChecksum))
      else if a.request.plan != u.plan then (log, Err(Invalidated))
      else if !rules.attempt(u.attempt) then (log, Err(InvalidAttempt))
      else match a.status
        case Consumed => (log, if a.attempt == Some(u.attempt) then Ok(a) else Err(AlreadyConsumed))
        case Rejected => (log, Err(IsRejected))
        case Superseded => (log, Err(IsSuperseded))
        case Requested => (log, Err(NotApproved))
        case Approved =>
          if a.decision.None? then (log, Err(NotApproved))
          else (Saved(log, ConsumedRecord(a, u.attempt, u.now)), Ok(ConsumedRecord(a, u.attempt, u.now)))
  }

  // The service over the repository

  class ApprovalRepository {
    var requests: seq<Approval>

    constructor ()
      ensures requests == []
    {
      requests := [];
    }

    /** An equal request under a known identifier is accepted and changes nothing. */
    method Add(a: Approval) returns (added: bool)
      modifies this
      ensures added == (ById(old(requests), a.id).None? || ById(old(requests), a.id) == Some(a))
      ensures requests == if ById(old(requests), a.id).None? then old(requests) + [a] else old(requests)
    {
      var existing := ById(requests, a.id);
      if existing.Some? {
        return existing.value == a;
      }
      requests := requests + [a];
      return true;
    }

    method Save(a: Approval) returns (saved: bool)
      modifies this
      ensures saved == ById(old(requests), a.id).Some?
      ensures requests == if saved then Saved(old(requests), a) else old(requests)
    {
      saved := ById(requests, a.id).Some?;
      if saved {
        requests := Saved(requests, a);
      }
    }
  }

  lemma NamedIsStored(log: seq<Approval>, id: string)
    ensures ById(log, id).Some? ==> ById(log, id).value in log && ById(log, id).value.id == id
  {
    FirstFinds(log, (a: Approval) => a.id == id);
  }

  lemma CurrentIsStored(log: seq<Approval>, scope: Scope)
    ensures match Current(log, scope)
            case None => forall a :: a in log ==> a.request.scope != scope
            case Some(c) => c in log && c.request.scope == scope && ById(log, c.id).Some?
                            && forall a :: a in log && a.request.scope == scope ==> KeyLeq(CurrentKey(a), CurrentKey(c))
  {
    var mine := Filter(log, (a: Approval) => a.request.scope == scope);
    InFilter(log, (a: Approval) => a.request.scope == scope);
    GreatestIsMaximal(mine, CurrentKey);
    if Current(log, scope).Some? {
      FirstFinds(log, (a: Approval) => a.id == Current(log, scope).value.id);
    }
  }

  lemma SavedKeepsIds(log: seq<Approval>, changed: Approval, id: string)
    requires ById(log, id).None? && changed in log
    ensures ById(Saved(log, changed.(status := Superseded)), id).None?
  {
    FirstFinds(log, (a: Approval) => a.id == id);
    var saved := Saved(log, changed.(status := Superseded));
    FirstFinds(saved, (a: Approval) => a.id == id);
    forall a | a in saved ensures a.id != id {
      var i :| 0 <= i < |saved| && saved[i] == a;
      assert log[i] in log;
    }
  }

  class ApprovalService {
    const repository: ApprovalRepository
    const rules: Rules

    constructor (repository: ApprovalRepository, rules: Rules)
      ensures this.repository == repository && this.rules == rules
    {
      this.repository, this.rules := repository, rules;
    }

    method ReportRun(request: Request, supported: bool) returns (result: Result<Approval, Problem>)
      modifies repository
      ensures (repository.requests, result) == Report(rules, old(repository.requests), request, supported)
    {
      if !supported {
        return Err(WorkflowUnsupported);
      }
      var reported := Reported(rules, request);
      var existing := ById(repository.requests, reported.id);
      if existing.Some? {
        return if existing.value.checksum != reported.checksum then Err(IdentityConflict) else Ok(existing.value);
      }
      var current := Current(repository.requests, request.scope);
      CurrentIsStored(repository.requests, request.scope);
      if current.Some? && Open(current.value.status) {
        SavedKeepsIds(repository.requests, current.value, reported.id);
        var _ := repository.Save(current.value.(status := Superseded));
      }
      var _ := repository.Add(reported);
      return Ok(reported);
    }

    method ApproveRun(d: Decision) returns (result: Result<Approval, Problem>)
      modifies repository
      ensures (repository.requests, result) == Approve(rules, old(repository.requests), d)
    {
      var named := Named(repository.requests, d.scope, d.id, d.supported);
      if named.Err? {
        return Err(named.error);
      }
      var a := named.value;
      NamedIsStored(repository.requests, d.id);
      if a.request.plan != d.plan || a.checksum != d.checksum {
        return Err(IdentityMismatch);
      }
      if a.status.Approved? {
        return if a.key == Some(d.key) then Ok(a) else Err(AlreadyApproved);
      }
      if !a.status.Requested? {
        return Err(if a.status.Superseded? then IsSuperseded else if a.status.Rejected? then IsRejected
                   else AlreadyConsumed);
      }
      if !rules.text(d.actor, 120) || !rules.text(d.key, 100) {
        return Err(InvalidText);
      }
      var approved := ApprovedRecord(a, d);
      var _ := repository.Save(approved);
      return Ok(approved);
    }

    method RejectRun(d: Decision) returns (result: Result<Approval, Problem>)
      modifies repository
      ensures (repository.requests, result) == Reject(rules, old(repository.requests), d)
    {
      var named := Named(repository.requests, d.scope, d.id, d.supported);
      if named.Err? {
        return Err(named.error);
      }
      var a := named.value;
      NamedIsStored(repository.requests, d.id);
      if a.request.plan != d.plan || a.checksum != d.checksum {
        return Err(IdentityMismatch);
      }
      if a.status.Rejected? {
        return if a.key == Some(d.key) then Ok(a) else Err(AlreadyRejected);
      }
      if !a.status.Requested? {
        return Err(if a.status.Superseded? then IsSuperseded else if a.status.Approved? then AlreadyApproved
                   else AlreadyConsumed);
      }
      if !rules.text(d.actor, 120) || (d.reason.Some? && !rules.text(d.reason.value, 500)) || !rules.text(d.key, 100) {
        return Err(InvalidText);
      }
      var rejected := RejectedRecord(a, d);
      var _ := repository.Save(rejected);
      return Ok(rejected);
    }

    method ConsumeApproval(u: Use) returns (result: Result<Approval, Problem>)
      modifies repository
      ensures (repository.requests, result) == Consume(rules, old(repository.requests), u)
    {
      var named := Named(repository.requests, u.scope, u.id, u.supported);
      if named.Err? {
        return Err(named.error);
      }
      var a := named.value;
      NamedIsStored(repository.requests, u.id);
      if !rules.plan(u.plan) {
        return Err(InvalidChecksum);
      }
      if a.request.plan != u.plan {
        return Err(Invalidated);
      }
      if !rules.attempt(u.attempt) {
        return Err(InvalidAttempt);
      }
      if a.status.Consumed? {
        return if a.attempt == Some(u.attempt) then Ok(a) else Err(AlreadyConsumed);
      }
      if !a.status.Approved? || a.decision.None? {
        return Err(if a.status.Rejected? then IsRejected else if a.status.Superseded? then IsSuperseded
                   else NotApproved);
      }
      var consumed := ConsumedRecord(a, u.attempt, u.now);
      var _ := repository.Save(consumed);
      return Ok(consumed);
    }
  }
}

/** What approvals keep over every history. */
module ApprovalTheorems {
  import opened Outcomes
  import opened Ordering
  import opened Sequences
  import opened Approvals

  datatype Event =
    | Reports(request: Request, supported: bool)
    | Approves(decision: Decision)
    | Rejects(decision: Decision)
    | Consumes(use: Use)

  function Next(rules: Rules, log: seq<Approval>, e: Event): seq<Approval> {
    match e
    case Reports(request, supported) => Report(rules, log, request, supported).0
    case Approves(decision) => Approve(rules, log, decision).0
    case Rejects(decision) => Reject(rules, log, decision).0
    case Consumes(use) => Consume(rules, log, use).0
  }

  function After(rules: Rules, log: seq<Approval>, events: seq<Event>): seq<Approval>
    decreases |events|
  {
    if events == [] then log else After(rules, Next(rules, log, events[0]), events[1..])
  }

  /** What the record's own fields say of how it got its status. */
  predicate Evidenced(a: Approval) {
    && (a.status.Approved? || a.status.Consumed? ==>
          Decided(a) && a.decision
              == Some(ApprovalOf(a.id, a.request.plan, a.checksum, a.actor.value, a.key.value, a.decidedAt.value)))
    && (a.status.Rejected? ==>
          Decided(a) && a.decision
              == Some(RejectionOf(a.id, a.request.plan, a.checksum, a.actor.value, a.key.value, a.reason,
                                  a.decidedAt.value)))
    && (a.status.Consumed? ==>
          Spent(a) && a.consumption
              == Some(ConsumptionOf(a.id, a.decision.value, a.request.plan, a.attempt.value, a.consumedAt.value)))
  }

  predicate Proper(rules: Rules, a: Approval) { ValidIdentity(rules, a) && ValidState(a) && Evidenced(a) }

  ghost predicate AllProper(rules: Rules, log: seq<Approval>) { forall i :: 0 <= i < |log| ==> Proper(rules, log[i]) }

  ghost predicate IdsApart(log: seq<Approval>) { forall i, j :: 0 <= i < j < |log| ==> log[i].id != log[j].id }

  /** Only the request added last in its scope may be open; so at most one is. */
  ghost predicate NewestOpen(log: seq<Approval>) {
    forall i, j :: 0 <= i < j < |log| && log[i].request.scope == log[j].request.scope ==> !Open(log[i].status)
  }

  ghost predicate Lawful(rules: Rules, log: seq<Approval>) { AllProper(rules, log) && IdsApart(log) && NewestOpen(log) }

  /** The transitions of the state machine. */
  predicate StatusStep(a: Status, b: Status) {
    || a == b
    || (a.Requested? && (b.Approved? || b.Rejected? || b.Superseded?))
    || (a.Approved? && (b.Consumed? || b.Superseded?))
  }

  ghost predicate RecordStep(a: Approval, b: Approval) {
    && b.id == a.id && b.request == a.request && b.checksum == a.checksum
    && StatusStep(a.status, b.status) && (!Open(a.status) ==> b == a)
    && (a.status.Approved? ==> (b.actor, b.key, b.decidedAt, b.decision) == (a.actor, a.key, a.decidedAt, a.decision))
  }

  ghost predicate Steps(a: seq<Approval>, b: seq<Approval>) {
    |a| <= |b| && forall i :: 0 <= i < |a| ==> RecordStep(a[i], b[i])
  }

  /** One open record changes; every other record stays. */
  ghost predicate Changes(before: seq<Approval>, i: nat, changed: Approval, after: seq<Approval>) {
    && i < |before| && |after| == |before| && after[i] == changed
    && forall j :: 0 <= j < |before| && j != i ==> after[j] == before[j]
  }

  lemma SavedChanges(log: seq<Approval>, i: nat, changed: Approval)
    requires IdsApart(log) && i < |log| && changed.id == log[i].id
    ensures Changes(log, i, changed, Saved(log, changed))
  {
    forall j | 0 <= j < |log| && j != i ensures log[j].id != changed.id {
      assert if j < i then log[j].id != log[i].id else log[i].id != log[j].id;
    }
  }

  lemma ChangeKeepsLawful(rules: Rules, before: seq<Approval>, i: nat, changed: Approval, after: seq<Approval>)
    requires Lawful(rules, before) && Changes(before, i, changed, after)
    requires RecordStep(before[i], changed) && Proper(rules, changed) && Open(before[i].status)
    ensures Lawful(rules, after) && Steps(before, after)
  {
    forall j | 0 <= j < |after| ensures Proper(rules, after[j]) {
      assert j == i || after[j] == before[j];
    }
  }

  lemma IndexOf(log: seq<Approval>, id: string) returns (i: nat)
    requires ById(log, id).Some?
    ensures i < |log| && log[i] == ById(log, id).value && log[i].id == id
  {
    NamedIsStored(log, id);
    i :| 0 <= i < |log| && log[i] == ById(log, id).value;
  }

  /** Every transition builds a record the constructor accepts, and steps along the machine. */
  lemma TransitionsAreProper(rules: Rules, a: Approval, d: Decision, attempt: string, now: int)
    requires Proper(rules, a)
    ensures Open(a.status) ==> Proper(rules, a.(status := Superseded)) && RecordStep(a, a.(status := Superseded))
    ensures a.status.Requested? ==> Proper(rules, ApprovedRecord(a, d)) && RecordStep(a, ApprovedRecord(a, d))
    ensures a.status.Requested? ==> Proper(rules, RejectedRecord(a, d)) && RecordStep(a, RejectedRecord(a, d))
    ensures a.status.Approved? ==>
              a.decision.Some? && Proper(rules, ConsumedRecord(a, attempt, now))
                  && RecordStep(a, ConsumedRecord(a, attempt, now))
  {
  }

  lemma ReportedIsProper(rules: Rules, request: Request)
    ensures Proper(rules, Reported(rules, request))
  {
  }

  lemma UnchangedSteps(log: seq<Approval>)
    ensures Steps(log, log)
  {
  }

  lemma DecisionStep(rules: Rules, log: seq<Approval>, d: Decision)
    requires Lawful(rules, log)
    ensures Lawful(rules, Approve(rules, log, d).0) && Steps(log, Approve(rules, log, d).0)
    ensures Lawful(rules, Reject(rules, log, d).0) && Steps(log, Reject(rules, log, d).0)
  {
    UnchangedSteps(log);
    if ById(log, d.id).Some? {
      var i := IndexOf(log, d.id);
      var a := log[i];
      assert Proper(rules, a);
      TransitionsAreProper(rules, a, d, "", 0);
      if a.status.Requested? {
        SavedChanges(log, i, ApprovedRecord(a, d));
        SavedChanges(log, i, RejectedRecord(a, d));
        hide Proper, RecordStep, Changes, Saved, Lawful, Steps;
        ChangeKeepsLawful(rules, log, i, ApprovedRecord(a, d), Saved(log, ApprovedRecord(a, d)));
        ChangeKeepsLawful(rules, log, i, RejectedRecord(a, d), Saved(log, RejectedRecord(a, d)));
      }
    }
  }

  lemma ConsumeStep(rules: Rules, log: seq<Approval>, u: Use)
    requires Lawful(rules, log)
    ensures Lawful(rules, Consume(rules, log, u).0) && Steps(log, Consume(rules, log, u).0)
  {
    UnchangedSteps(log);
    if ById(log, u.id).Some? {
      var i := IndexOf(log, u.id);
      var a := log[i];
      assert Proper(rules, a);
      TransitionsAreProper(rules, a, Decision(a.request.scope, a.id, "", a.checksum, "", "", None, true, 0),
                           u.attempt, u.now);
      if a.status.Approved? {
        SavedChanges(log, i, ConsumedRecord(a, u.attempt, u.now));
        hide Proper, RecordStep, Changes, Saved, Lawful, Steps;
        ChangeKeepsLawful(rules, log, i, ConsumedRecord(a, u.attempt, u.now),
                          Saved(log, ConsumedRecord(a, u.attempt, u.now)));
      }
    }
  }

  /** The current request is the open one, if the scope has an open one. */
  lemma OpenIsCurrent(rules: Rules, log: seq<Approval>, scope: Scope)
    requires Lawful(rules, log)
    ensures forall i :: 0 <= i < |log| && log[i].request.scope == scope && Open(log[i].status)
              ==> Current(log, scope) == Some(log[i])
  {
    CurrentIsStored(log, scope);
    forall i | 0 <= i < |log| && log[i].request.scope == scope && Open(log[i].status)
      ensures Current(log, scope) == Some(log[i])
    {
      assert log[i] in log;
      var c := Current(log, scope).value;
      assert KeyLeq(CurrentKey(log[i]), CurrentKey(c));
      assert Priority(log[i].status) == "2";
      assert TextLeq("2", "1") == false && TextLeq("2", "0") == false;
      assert Open(c.status);
      var j :| 0 <= j < |log| && log[j] == c;
      assert i == j;
    }
  }

  lemma AppendKeepsLawful(rules: Rules, log: seq<Approval>, a: Approval)
    requires Lawful(rules, log) && Proper(rules, a) && ById(log, a.id).None?
    requires forall i :: 0 <= i < |log| && log[i].request.scope == a.request.scope ==> !Open(log[i].status)
    ensures Lawful(rules, log + [a]) && Steps(log, log + [a])
  {
    FirstFinds(log, (x: Approval) => x.id == a.id);
    forall i | 0 <= i < |log| ensures log[i].id != a.id {
      assert log[i] in log;
    }
    forall i | 0 <= i < |log + [a]| ensures Proper(rules, (log + [a])[i]) {
      assert i == |log| || Proper(rules, log[i]);
    }
  }

  lemma ReportStep(rules: Rules, log: seq<Approval>, request: Request, supported: bool)
    requires Lawful(rules, log)
    ensures Lawful(rules, Report(rules, log, request, supported).0)
            && Steps(log, Report(rules, log, request, supported).0)
  {
    UnchangedSteps(log);
    var reported := Reported(rules, request);
    if supported && ById(log, reported.id).None? {
      ReportedIsProper(rules, request);
      CurrentIsStored(log, request.scope);
      OpenIsCurrent(rules, log, request.scope);
      var current := Current(log, request.scope);
      if current.Some? && Open(current.value.status) {
        var c := current.value;
        var i :| 0 <= i < |log| && log[i] == c;
        var gone := c.(status := Superseded);
        TransitionsAreProper(rules, c, Decision(c.request.scope, c.id, "", c.checksum, "", "", None, true, 0), "", 0);
        SavedChanges(log, i, gone);
        SavedKeepsIds(log, c, reported.id);
        SupersedeAndAdd(rules, log, i, gone, Saved(log, gone), reported);
      } else {
        hide Lawful, Steps, Current;
        AppendKeepsLawful(rules, log, reported);
      }
    }
  }

  lemma SupersedeAndAdd(rules: Rules, log: seq<Approval>, i: nat, gone: Approval, kept: seq<Approval>, added: Approval)
    requires Lawful(rules, log) && Changes(log, i, gone, kept) && RecordStep(log[i], gone) && Proper(rules, gone)
    requires Open(log[i].status) && !Open(gone.status) && log[i].request.scope == added.request.scope
    requires Proper(rules, added) && ById(kept, added.id).None?
    ensures Lawful(rules, kept + [added]) && Steps(log, kept + [added])
  {
    ChangeKeepsLawful(rules, log, i, gone, kept);
    forall j | 0 <= j < |kept| && kept[j].request.scope == added.request.scope ensures !Open(kept[j].status) {
      assert j != i ==> kept[j] == log[j];
    }
    hide ById;
    AppendKeepsLawful(rules, kept, added);
    StepsChain(log, kept, kept + [added]);
  }

  /** Identity is kept, closed records are frozen, and a decision outlives everything after it. */
  ghost predicate RecordEvolves(a: Approval, b: Approval) {
    && b.id == a.id && b.request == a.request && b.checksum == a.checksum
    && (!Open(a.status) ==> b == a)
    && (a.status.Approved? ==> (b.status.Approved? || b.status.Consumed? || b.status.Superseded?)
                               && (b.actor, b.key, b.decidedAt, b.decision)
                                   == (a.actor, a.key, a.decidedAt, a.decision))
  }

  ghost predicate Evolves(a: seq<Approval>, b: seq<Approval>) {
    |a| <= |b| && forall i :: 0 <= i < |a| ==> RecordEvolves(a[i], b[i])
  }

  lemma StepsChain(a: seq<Approval>, b: seq<Approval>, c: seq<Approval>)
    requires Steps(a, b) && b <= c
    ensures Steps(a, c)
  {
    assert forall i :: 0 <= i < |b| ==> c[i] == b[i];
  }

  lemma NextIsLawful(rules: Rules, log: seq<Approval>, e: Event)
    requires Lawful(rules, log)
    ensures Lawful(rules, Next(rules, log, e)) && Steps(log, Next(rules, log, e))
  {
    hide Lawful, Steps;
    match e
    case Reports(request, supported) => ReportStep(rules, log, request, supported);
    case Approves(decision) => DecisionStep(rules, log, decision);
    case Rejects(decision) => DecisionStep(rules, log, decision);
    case Consumes(use) => ConsumeStep(rules, log, use);
  }

  lemma EvolvesChain(a: seq<Approval>, b: seq<Approval>, c: seq<Approval>)
    requires Steps(a, b) && Evolves(b, c)
    ensures Evolves(a, c)
  {
    forall i | 0 <= i < |a| ensures RecordEvolves(a[i], c[i]) {
      assert RecordStep(a[i], b[i]) && RecordEvolves(b[i], c[i]);
    }
  }

  /**
   * Over any history every record is one the constructor accepts, a scope has at most one open
   * request, always its newest, and REJECTED, CONSUMED and SUPERSEDED are for good.
   */
  lemma {:induction false} HistoryIsLawful(rules: Rules, log: seq<Approval>, events: seq<Event>)
    requires Lawful(rules, log)
    ensures Lawful(rules, After(rules, log, events)) && Evolves(log, After(rules, log, events))
    decreases |events|
  {
    hide Lawful, Steps, RecordEvolves;
    if events != [] {
      var next := Next(rules, log, events[0]);
      NextIsLawful(rules, log, events[0]);
      HistoryIsLawful(rules, next, events[1..]);
      EvolvesChain(log, next, After(rules, log, events));
    } else {
      forall i | 0 <= i < |log| ensures RecordEvolves(log[i], log[i]) { EvolvesSelf(log[i]); }
    }
  }

  /** From no requests at all, every history is lawful. */
  lemma EveryHistoryIsLawful(rules: Rules, events: seq<Event>)
    ensures Lawful(rules, After(rules, [], events))
  {
    HistoryIsLawful(rules, [], events);
  }

  lemma EvolvesSelf(a: Approval)
    ensures RecordEvolves(a, a)
  {
  }

  /** The stored request a call names, in its scope. */
  ghost predicate Names(log: seq<Approval>, scope: Scope, id: string, a: Approval) {
    a in log && a.id == id && a.request.scope == scope
  }

  lemma NamedExactly(log: seq<Approval>, scope: Scope, id: string)
    requires IdsApart(log)
    ensures Named(log, scope, id, true).Ok? <==> exists a :: Names(log, scope, id, a)
    ensures forall a :: Names(log, scope, id, a) ==> Named(log, scope, id, true) == Ok(a)
  {
    FirstFinds(log, (a: Approval) => a.id == id);
    forall a | Names(log, scope, id, a) ensures Named(log, scope, id, true) == Ok(a) {
      var i :| 0 <= i < |log| && log[i] == a;
      FoundAt(log, i, id);
    }
    if Named(log, scope, id, true).Ok? {
      assert Names(log, scope, id, Named(log, scope, id, true).value);
    }
  }

  /**
   * Approval succeeds exactly for the named request under its own plan and checksum, undecided or
   * approved under the same key; consumption exactly for its own plan, approved or consumed by
   * the same attempt.
   */
  lemma CallsSucceedExactly(rules: Rules, log: seq<Approval>, d: Decision, u: Use)
    requires Lawful(rules, log) && d.supported && u.supported
    ensures Approve(rules, log, d).1.Ok? <==>
              exists a :: Names(log, d.scope, d.id, a) && a.request.plan == d.plan && a.checksum == d.checksum
                          && (if a.status.Requested? then rules.text(d.actor, 120) && rules.text(d.key, 100)
                              else a.status.Approved? && a.key == Some(d.key))
    ensures Consume(rules, log, u).1.Ok? <==>
              exists a :: Names(log, u.scope, u.id, a) && a.request.plan == u.plan && rules.plan(u.plan)
                  && rules.attempt(u.attempt)
                          && (a.status.Approved? || (a.status.Consumed? && a.attempt == Some(u.attempt)))
  {
    NamedExactly(log, d.scope, d.id);
    NamedExactly(log, u.scope, u.id);
    if Named(log, u.scope, u.id, true).Ok? {
      var a := Named(log, u.scope, u.id, true).value;
      assert Names(log, u.scope, u.id, a);
      var i :| 0 <= i < |log| && log[i] == a;
      assert Proper(rules, log[i]);
    }
    if Named(log, d.scope, d.id, true).Ok? {
      assert Names(log, d.scope, d.id, Named(log, d.scope, d.id, true).value);
    }
  }

  /**
   * A fresh consumption takes the newest request of its scope, approved for exactly the plan
   * given, and binds it to one attempt.
   */
  lemma ConsumptionIsApproved(rules: Rules, log: seq<Approval>, u: Use)
    requires Lawful(rules, log)
    requires var (after, used) := Consume(rules, log, u); used.Ok? && after != log
    ensures ById(log, u.id).Some?
    ensures var a := ById(log, u.id).value;
            var used := Consume(rules, log, u).1.value;
            && a.status.Approved? && a.request.plan == u.plan && a.request.scope == u.scope
            && Decided(a) && a.decision
                == Some(ApprovalOf(u.id, u.plan, a.checksum, a.actor.value, a.key.value, a.decidedAt.value))
            && Current(log, u.scope) == Some(a)
            && (forall i, j :: 0 <= i < j < |log| && log[i] == a ==> log[j].request.scope != u.scope)
            && used.status.Consumed? && used.attempt == Some(u.attempt) && used.decision == a.decision
                && used.request == a.request
  {
    var i := IndexOf(log, u.id);
    assert Proper(rules, log[i]);
    OpenIsCurrent(rules, log, u.scope);
    hide Current, ById;
    forall k, j | 0 <= k < j < |log| && log[k] == log[i] ensures log[j].request.scope != u.scope {
      assert NewestOpen(log);
    }
  }

  /** After that, whatever happens, only that attempt may use the request again. */
  lemma OneAttemptForGood(rules: Rules, log: seq<Approval>, u: Use, events: seq<Event>, again: Use)
    requires Lawful(rules, log) && Consume(rules, log, u).1.Ok? && again.id == u.id
    ensures var later := After(rules, Consume(rules, log, u).0, events);
            && ById(later, u.id) == Some(Consume(rules, log, u).1.value)
            && (Consume(rules, later, again).1.Ok? ==> again.attempt == u.attempt)
            && Consume(rules, later, again).0 == later
  {
    var (mid, used) := Consume(rules, log, u);
    var i := IndexOf(log, u.id);
    ConsumeStep(rules, log, u);
    if log[i].status.Approved? {
      SavedChanges(log, i, ConsumedRecord(log[i], u.attempt, u.now));
    }
    assert mid[i] == used.value && mid[i].status.Consumed? && mid[i].attempt == Some(u.attempt);
    var later := After(rules, mid, events);
    HistoryIsLawful(rules, mid, events);
    assert RecordEvolves(mid[i], later[i]);
    FoundAt(later, i, u.id);
  }

  lemma FoundAt(log: seq<Approval>, i: nat, id: string)
    requires IdsApart(log) && i < |log| && log[i].id == id
    ensures ById(log, id) == Some(log[i])
  {
    FirstFinds(log, (a: Approval) => a.id == id);
    assert log[i] in log;
    var found := ById(log, id).value;
    var j :| 0 <= j < |log| && log[j] == found;
  }

  /** A report is refused as conflicting exactly when its identifier stands for another request. */
  lemma ReportConflictsOnlyOnTruncation(rules: Rules, log: seq<Approval>, request: Request)
    requires Lawful(rules, log)
    ensures var (after, result) := Report(rules, log, request, true);
            var reported := Reported(rules, request);
            && (result.Err? <==>
                  exists i :: 0 <= i < |log| && log[i].id == reported.id && log[i].request != request)
            && (result.Err? ==> result == Err(IdentityConflict) && after == log)
            && (result.Ok? ==> result.value.request == request && (after == log || after[|after| - 1] == result.value))
  {
    var id := rules.idOf(RequestChecksumOf(request));
    FirstFinds(log, (a: Approval) => a.id == id);
    if ById(log, id).Some? {
      var i := IndexOf(log, id);
      assert Proper(rules, log[i]);
      forall j | 0 <= j < |log| && log[j].id == id ensures j == i { }
    } else {
      forall j | 0 <= j < |log| ensures log[j].id != id { assert log[j] in log; }
    }
  }
}
