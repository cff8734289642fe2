/**
 * Artifact dependency bindings, owner decisions about input setup, and materialisation plans.
 *
 * Identifiers and checksums are free constructors over the content they are computed from. Lists
 * are sorted by an identifier's text, which `Naming` gives; the facts a call reads from other
 * repositories (consumers, requirements, artifacts, projects) arrive with it as a `World`.
 */
module Bindings {
  import opened Outcomes
  import opened Ordering
  import opened Sequences

  const LIST_LIMIT: nat := 1_000

  datatype Owner = Owner(project: string, consumer: string)

  datatype BindingId = BindingIdOf(key: string, owner: Owner, requirement: string, artifact: string)

  datatype BindingState = Active | Retired

  datatype Binding = Binding(id: BindingId, owner: Owner, definition: string, version: string,
    requirement: string, artifact: string, checksum: string, state: BindingState, key: string,
    createdAt: int, updatedAt: int, retiredAt: Option<int>)

  datatype Row = Row(requirement: string, binding: BindingId, artifact: string, checksum: string)

  datatype BindingSetChecksum = BindingSetChecksumOf(rows: seq<Row>)

  datatype DecisionContent = DecisionContent(owner: Owner, definition: string, version: string,
    bindingSet: BindingSetChecksum, omitted: seq<string>, choice: string, key: string, decidedAt: int)

  datatype DecisionId = DecisionIdOf(key: string, content: DecisionContent)
  datatype DecisionChecksum = DecisionChecksumOf(content: DecisionContent)
  datatype Decision = Decision(id: DecisionId, content: DecisionContent, checksum: DecisionChecksum)

  const CONTINUE := "CONTINUE_WITHOUT_OPTIONAL_EVIDENCE"

  datatype Naming = Naming(binding: BindingId -> string, decision: DecisionId -> string)

  /** Different identifiers have different texts. */
  ghost predicate Faithful(n: Naming) {
    && (forall a, b :: n.binding(a) == n.binding(b) ==> a == b)
    && (forall a, b :: n.decision(a) == n.decision(b) ==> a == b)
  }

  datatype Instance = Instance(project: string, definition: string, version: string, active: bool,
                               capsule: Option<string>)
  datatype Requirement = Requirement(definition: string, version: string, key: string, required: bool, target: string)
  datatype Artifact = Artifact(project: string, checksum: string, producer: string, details: string)
  datatype Project = Project(workspace: string, updatedAt: int)

  /** `compatible` stands for the type, schema, lifecycle and content tests of one artifact. */
  datatype World = World(instances: map<string, Instance>, requirements: seq<Requirement>,
    artifacts: map<string, Artifact>, projects: map<string, Project>,
        compatible: (Requirement, string, Artifact) -> bool)

  /** Both dictionaries in insertion order; writing a known identifier keeps its place. */
  datatype Store = Store(bindings: seq<Binding>, decisions: seq<Decision>)

  datatype Problem =
    | InstanceNotFound | BindingConflict | DependencyNotFound | ArtifactNotFound | Incompatible
    | IdempotencyConflict | DuplicateActive | ImmutableConflict
    | Unresolved | InvalidRequest | SetupChanged | DecisionRequired | ProjectMismatch | ChecksumMismatch

  // Listing

  function ListKey(n: Naming): Binding -> Key { (b: Binding) => (b.requirement, b.createdAt, n.binding(b.id)) }

  function BindingsOf(bindings: seq<Binding>, owner: Owner): seq<Binding> {
    Filter(bindings, (b: Binding) => b.owner == owner)
  }

  /** The first thousand bindings of one consumer, by requirement, time and identifier. */
  function Listed(n: Naming, bindings: seq<Binding>, owner: Owner): seq<Binding> {
    var sorted := SortBy(BindingsOf(bindings, owner), ListKey(n));
    if |sorted| <= LIST_LIMIT then sorted else sorted[..LIST_LIMIT]
  }

  function ActiveListed(n: Naming, bindings: seq<Binding>, owner: Owner): seq<Binding> {
    Filter(Listed(n, bindings, owner), (b: Binding) => b.state.Active?)
  }

  function RowOf(b: Binding): Row { Row(b.requirement, b.id, b.artifact, b.checksum) }

  function RowKey(n: Naming): Row -> Key { (r: Row) => (r.requirement, 0, n.binding(r.binding)) }

  function ActiveRows(n: Naming, bindings: seq<Binding>): seq<Row> {
    SortBy(Map(RowOf, Filter(bindings, (b: Binding) => b.state.Active?)), RowKey(n))
  }

  /** `exact_binding_set_checksum`. */
  function BindingSet(n: Naming, bindings: seq<Binding>): BindingSetChecksum {
    BindingSetChecksumOf(ActiveRows(n, bindings))
  }

  // Binding a dependency

  datatype BindRequest = BindRequest(owner: Owner, requirement: string, artifact: string, key: string,
                                     replace: Option<BindingId>)

  function FindRequirement(w: World, definition: string, version: string, key: string): Option<Requirement> {
    First(w.requirements, (r: Requirement) => r.definition == definition && r.version == version && r.key == key)
  }

  function ByKey(bindings: seq<Binding>, owner: Owner, key: string): Option<Binding> {
    First(bindings, (b: Binding) => b.owner == owner && b.key == key)
  }

  function ById(bindings: seq<Binding>, id: BindingId): Option<Binding> {
    First(bindings, (b: Binding) => b.id == id)
  }

  function ActiveFor(n: Naming, bindings: seq<Binding>, owner: Owner, requirement: string): Option<Binding> {
    First(Listed(n, bindings, owner), (b: Binding) => b.requirement == requirement && b.state.Active?)
  }

  function Saved(bindings: seq<Binding>, changed: Binding): seq<Binding> {
    Map((b: Binding) => if b.id == changed.id then changed else b, bindings)
  }

  function RetiredNow(b: Binding, now: int): Binding { b.(state := Retired, updatedAt := now, retiredAt := Some(now)) }

  function NewBinding(request: BindRequest, instance: Instance, artifact: Artifact, now: int): Binding {
    Binding(BindingIdOf(request.key, request.owner, request.requirement, request.artifact), request.owner,
            instance.definition, instance.version, request.requirement, request.artifact, artifact.checksum,
            Active, request.key, now, now, None)
  }

  /** x is an ACTIVE binding of the same requirement of the same consumer. */
  predicate Rivals(x: Binding, b: Binding) {
    x.owner == b.owner && x.requirement == b.requirement && x.state.Active?
  }

  /** `add_binding`: an equal binding under a known identifier is accepted and changes nothing. */
  function Added(bindings: seq<Binding>, b: Binding): Result<seq<Binding>, Problem> {
    match ById(bindings, b.id)
    case Some(existing) => if existing != b then Err(ImmutableConflict) else Ok(bindings)
    case None =>
      if First(bindings, (x: Binding) => Rivals(x, b)).Some? then Err(DuplicateActive)
      else Ok(bindings + [b])
  }

  /** The instance, requirement and artifact a bind refers to, or why it is refused. */
  function Resolve(w: World, request: BindRequest): Result<(Instance, Artifact), Problem> {
    if request.owner.consumer !in w.instances
        || w.instances[request.owner.consumer].project != request.owner.project then
      Err(InstanceNotFound)
    else
      var instance := w.instances[request.owner.consumer];
      if !instance.active then Err(BindingConflict)
      else match FindRequirement(w, instance.definition, instance.version, request.requirement)
        case None => Err(DependencyNotFound)
        case Some(requirement) =>
          if request.artifact !in w.artifacts || w.artifacts[request.artifact].project != request.owner.project then
            Err(ArtifactNotFound)
          else if !w.compatible(requirement, request.artifact, w.artifacts[request.artifact]) then Err(Incompatible)
          else Ok((instance, w.artifacts[request.artifact]))
  }

  datatype Bound = Bound(binding: Binding, replayed: bool)

  function Bind(n: Naming, w: World, s: Store, request: BindRequest, now: int): (Store, Result<Bound, Problem>) {
    match Resolve(w, request)
    case Err(problem) => (s, Err(problem))
    case Ok((instance, artifact)) =>
      match ByKey(s.bindings, request.owner, request.key)
      case Some(replay) =>
        if (replay.requirement, replay.artifact, replay.checksum) != (request.requirement, request.artifact,
                                                                      artifact.checksum)
        then (s, Err(IdempotencyConflict))
        else (s, Ok(Bound(replay, true)))
      case None =>
        var active := ActiveFor(n, s.bindings, request.owner, request.requirement);
        if active.Some? && request.replace != Some(active.value.id) then (s, Err(BindingConflict))
        else if active.None? && request.replace.Some? then (s, Err(BindingConflict))
        else
          var retired := if active.Some? then Saved(s.bindings, RetiredNow(active.value, now)) else s.bindings;
          match Added(retired, NewBinding(request, instance, artifact, now))
          case Err(problem) => (s, Err(problem))
          case Ok(bindings) => (s.(bindings := bindings),
                                Ok(Bound(NewBinding(request, instance, artifact, now), false)))
  }

  // Input setup

  function RequirementsOf(w: World, instance: Instance): seq<Requirement> {
    Filter(w.requirements, (r: Requirement) => r.definition == instance.definition && r.version == instance.version)
  }

  predicate Covered(bindings: seq<Binding>, key: string) {
    First(bindings, (b: Binding) => b.state.Active? && b.requirement == key).Some?
  }

  /** The keys of the unbound requirements that are required, or that are not, sorted. */
  function Uncovered(requirements: seq<Requirement>, bindings: seq<Binding>, required: bool): seq<string> {
    SortBy(Map((r: Requirement) => r.key,
               Filter(requirements, (r: Requirement) => r.required == required && !Covered(bindings, r.key))),
           TextKey)
  }

  function TextKey(text: string): Key { (text, 0, "") }

  predicate ValidDecision(d: Decision) {
    d.id == DecisionIdOf(d.content.key, d.content) && d.checksum == DecisionChecksumOf(d.content)
  }

  predicate Matches(d: Decision, checksum: BindingSetChecksum, omitted: seq<string>) {
    ValidDecision(d) && d.content.bindingSet == checksum && d.content.omitted == omitted && d.content.choice == CONTINUE
  }

  function DecisionKey(n: Naming): Decision -> Key { (d: Decision) => ("", d.content.decidedAt, n.decision(d.id)) }

  /** `max` by time and identifier. */
  function Latest(n: Naming, decisions: seq<Decision>): Option<Decision> {
    var found := Greatest(decisions, DecisionKey(n));
    if found == [] then None else Some(found[0])
  }

  datatype Setup = Setup(checksum: BindingSetChecksum, missing: seq<string>, omitted: seq<string>,
    decisionRequired: bool, current: Option<Decision>)

  function Evaluate(n: Naming, requirements: seq<Requirement>, bindings: seq<Binding>,
                    decisions: seq<Decision>): Setup {
    var missing, omitted := Uncovered(requirements, bindings, true), Uncovered(requirements, bindings, false);
    var checksum := BindingSet(n, bindings);
    Setup(checksum, missing, omitted, missing == [] && omitted != [],
          Latest(n, Filter(decisions, (d: Decision) => Matches(d, checksum, omitted))))
  }

  function DecisionsOf(decisions: seq<Decision>, owner: Owner): seq<Decision> {
    Filter(decisions, (d: Decision) => d.content.owner == owner)
  }

  /** `input_setup_state` for an instance of the owner's project. */
  function SetupOf(n: Naming, w: World, s: Store, owner: Owner, instance: Instance): Setup {
    Evaluate(n, RequirementsOf(w, instance), ActiveListed(n, s.bindings, owner), DecisionsOf(s.decisions, owner))
  }

  function Strictly(keys: seq<string>): bool {
    forall i :: 0 <= i < |keys| - 1 ==> keys[i] != keys[i + 1] && TextLeq(keys[i], keys[i + 1])
  }

  function NewDecision(owner: Owner, instance: Instance, checksum: BindingSetChecksum, omitted: seq<string>,
                       key: string, now: int): Decision {
    var content := DecisionContent(owner, instance.definition, instance.version, checksum, omitted, CONTINUE, key, now);
    Decision(DecisionIdOf(key, content), content, DecisionChecksumOf(content))
  }

  function DecisionByKey(decisions: seq<Decision>, owner: Owner, key: string): Option<Decision> {
    First(decisions, (d: Decision) => d.content.owner == owner && d.content.key == key)
  }

  function Confirm(n: Naming, w: World, s: Store, owner: Owner, omitted: seq<string>, key: string, now: int)
    : (Store, Result<Decision, Problem>)
  {
    if owner.consumer !in w.instances || w.instances[owner.consumer].project != owner.project then
        (s, Err(InstanceNotFound))
    else
      var instance := w.instances[owner.consumer];
      var setup := Evaluate(n, RequirementsOf(w, instance), ActiveListed(n, s.bindings, owner), []);
      if setup.missing != [] then (s, Err(Unresolved))
      else if !Strictly(omitted) then (s, Err(InvalidRequest))
      else if omitted != setup.omitted then (s, Err(SetupChanged))
      else if omitted == [] then (s, Err(InvalidRequest))
      else
        var decision := NewDecision(owner, instance, setup.checksum, omitted, key, now);
        match DecisionByKey(s.decisions, owner, key)
        case Some(existing) =>
          if !ValidDecision(existing) then (s, Err(SetupChanged))
          else if (existing.content.bindingSet, existing.content.omitted, existing.content.choice)
                  != (setup.checksum, omitted, CONTINUE) then (s, Err(IdempotencyConflict))
          else (s, Ok(existing))
        case None => (s.(decisions := s.decisions + [decision]), Ok(decision))
  }

  // Materialisation

  datatype PlanRow = PlanRow(binding: BindingId, requirement: string, consumer: string, producer: string,
                             artifact: string,
    checksum: string, details: string, sourceCapsule: string, targetCapsule: string, target: string)

  datatype PlanContent = PlanContent(project: string, workspace: string, consumer: string, rows: seq<PlanRow>,
                                     createdAt: int)
  datatype PlanChecksum = PlanChecksumOf(content: PlanContent)
  datatype Plan = Plan(content: PlanContent, checksum: PlanChecksum)

  function PlanKey(row: PlanRow): Key { (row.requirement, 0, row.artifact) }

  function PlanRowOf(w: World, owner: Owner, target: string, b: Binding): Result<PlanRow, Problem> {
    if b.artifact !in w.artifacts then Err(Unresolved)
    else
      var artifact := w.artifacts[b.artifact];
      match FindRequirement(w, b.definition, b.version, b.requirement)
      case None => Err(Unresolved)
      case Some(requirement) =>
        if artifact.producer !in w.instances then Err(Unresolved)
        else if w.instances[artifact.producer].project != owner.project
            || w.instances[artifact.producer].capsule.None? then Err(ProjectMismatch)
        else if !w.compatible(requirement, b.artifact, artifact) then Err(Incompatible)
        else if b.checksum != artifact.checksum then Err(ChecksumMismatch)
        else Ok(PlanRow(b.id, b.requirement, owner.consumer, artifact.producer, b.artifact, artifact.checksum,
                        artifact.details,
                        w.instances[artifact.producer].capsule.value, target, requirement.target))
  }

  /** The rows of the bindings in order, or the first problem. */
  function PlanRows(w: World, owner: Owner, target: string, bindings: seq<Binding>, upto: nat): Result<seq<PlanRow>,
      Problem>
    requires upto <= |bindings|
  {
    if upto == 0 then Ok([])
    else match PlanRows(w, owner, target, bindings, upto - 1)
      case Err(problem) => Err(problem)
      case Ok(rows) =>
        match PlanRowOf(w, owner, target, bindings[upto - 1])
        case Err(problem) => Err(problem)
        case Ok(row) => Ok(rows + [row])
  }

  function LatestUpdate(bindings: seq<Binding>, default: int): int {
    if bindings == [] then default
    else if |bindings| == 1 then bindings[0].updatedAt
    else
      var later := LatestUpdate(bindings[1..], default);
      if later > bindings[0].updatedAt then later else bindings[0].updatedAt
  }

  function Materialize(n: Naming, w: World, s: Store, owner: Owner): Result<Plan, Problem> {
    if owner.project !in w.projects || owner.consumer !in w.instances
        || w.instances[owner.consumer].project != owner.project then
      Err(InstanceNotFound)
    else
      var instance := w.instances[owner.consumer];
      if instance.capsule.None? then Err(Unresolved)
      else
        var bindings := ActiveListed(n, s.bindings, owner);
        var setup := SetupOf(n, w, s, owner, instance);
        if setup.missing != [] then Err(Unresolved)
        else if setup.decisionRequired && setup.current.None? then Err(DecisionRequired)
        else match PlanRows(w, owner, instance.capsule.value, bindings, |bindings|)
          case Err(problem) => Err(problem)
          case Ok(rows) =>
            var content := PlanContent(owner.project, w.projects[owner.project].workspace, owner.consumer,
                                       SortBy(rows, PlanKey),
                                       LatestUpdate(bindings, w.projects[owner.project].updatedAt));
            Ok(Plan(content, PlanChecksumOf(content)))
  }

  // The repository and the service, which change it in place

  /** No requirement of a consumer has two ACTIVE bindings. */
  ghost predicate AtMostOneActive(bindings: seq<Binding>) {
    forall x, y :: x in bindings && y in bindings && y.state.Active? && Rivals(x, y) ==> x == y
  }

  /** When a binding may be added, said of the bindings that are there. */
  lemma AddedExactly(bindings: seq<Binding>, b: Binding)
    requires IdsApart(bindings)
    ensures Added(bindings, b) == Err(ImmutableConflict) <==> exists x :: x in bindings && x.id == b.id && x != b
    ensures Added(bindings, b) == Err(DuplicateActive)
            <==> (forall x :: x in bindings ==> x.id != b.id) && exists x :: x in bindings && Rivals(x, b)
    ensures match Added(bindings, b)
            case Ok(added) => added == if b in bindings then bindings else bindings + [b]
            case Err(problem) => problem == ImmutableConflict || problem == DuplicateActive
  {
    FirstFinds(bindings, (x: Binding) => x.id == b.id);
    FirstFinds(bindings, (x: Binding) => Rivals(x, b));
    var existing := ById(bindings, b.id);
    if existing.Some? {
      forall x | x in bindings && x.id == b.id ensures x == existing.value {
        OneById(bindings, x, existing.value);
      }
    }
  }

  lemma OneById(bindings: seq<Binding>, x: Binding, y: Binding)
    requires IdsApart(bindings) && x in bindings && y in bindings && x.id == y.id
    ensures x == y
  {
    var i :| 0 <= i < |bindings| && bindings[i] == x;
    var j :| 0 <= j < |bindings| && bindings[j] == y;
  }

  predicate SameContent(a: Binding, b: Binding) {
    b.(state := a.state, updatedAt := a.updatedAt, retiredAt := a.retiredAt) == a
  }

  ghost predicate IdsApart(bindings: seq<Binding>) {
    forall i, j :: 0 <= i < j < |bindings| ==> bindings[i].id != bindings[j].id
  }

  class ArtifactReferenceRepository {
    var bindings: seq<Binding>
    var decisions: seq<Decision>

    function View(): Store
      reads this
    {
      Store(bindings, decisions)
    }

    /** Identifiers are the keys of the dictionary. */
    ghost predicate Valid()
      reads this
    {
      IdsApart(bindings)
    }

    constructor ()
      ensures View() == Store([], []) && Valid()
    {
      bindings, decisions := [], [];
    }

    /** A changed known binding and a second ACTIVE one are refused; a new one goes to the end. */
    method AddBinding(b: Binding) returns (problem: Option<Problem>)
      requires Valid()
      modifies this`bindings
      ensures Valid()
      ensures problem == Some(ImmutableConflict) <==> exists x :: x in old(bindings) && x.id == b.id && x != b
      ensures problem == Some(DuplicateActive)
              <==> (forall x :: x in old(bindings) ==> x.id != b.id) && exists x :: x in old(bindings) && Rivals(x, b)
      ensures problem.None? <==> b in old(bindings)
                                 || forall x :: x in old(bindings) ==> x.id != b.id && !Rivals(x, b)
      ensures bindings == if problem.None? && b !in old(bindings) then old(bindings) + [b] else old(bindings)
      ensures AtMostOneActive(old(bindings)) ==> AtMostOneActive(bindings)
    {
      var existing := ById(bindings, b.id);
      FirstFinds(bindings, (x: Binding) => x.id == b.id);
      FirstFinds(bindings, (x: Binding) => Rivals(x, b));
      if existing.Some? {
        forall x | x in bindings && x.id == b.id ensures x == existing.value {
          OneById(bindings, x, existing.value);
        }
        return if existing.value != b then Some(ImmutableConflict) else None;
      }
      if First(bindings, (x: Binding) => Rivals(x, b)).Some? {
        return Some(DuplicateActive);
      }
      assert forall i :: 0 <= i < |bindings| ==> bindings[i] in bindings;
      bindings := bindings + [b];
      return None;
    }

    /** Only a binding's state and times may change. */
    method SaveBinding(b: Binding) returns (saved: bool)
      modifies this`bindings
      ensures saved == (ById(old(bindings), b.id).Some? && SameContent(ById(old(bindings), b.id).value, b))
      ensures bindings == if saved then Saved(old(bindings), b) else old(bindings)
    {
      var existing := ById(bindings, b.id);
      if existing.None? || !SameContent(existing.value, b) {
        return false;
      }
      bindings := Saved(bindings, b);
      return true;
    }

    /** A key a consumer has used is accepted again only for the same decision. */
    method AddInputSetupDecision(d: Decision) returns (added: bool)
      modifies this`decisions
      ensures var existing := DecisionByKey(old(decisions), d.content.owner, d.content.key);
              && added == (existing.None? || existing == Some(d))
              && decisions == if existing.None? then old(decisions) + [d] else old(decisions)
    {
      var existing := DecisionByKey(decisions, d.content.owner, d.content.key);
      if existing.Some? {
        return existing.value == d;
      }
      decisions := decisions + [d];
      return true;
    }
  }

  lemma ListedWithin(n: Naming, bindings: seq<Binding>, owner: Owner)
    ensures forall b :: b in Listed(n, bindings, owner) ==> b in bindings && b.owner == owner
    ensures |BindingsOf(bindings, owner)| <= LIST_LIMIT ==>
              forall b :: b in Listed(n, bindings, owner) <==> b in bindings && b.owner == owner
  {
    var owned := BindingsOf(bindings, owner);
    var sorted := SortBy(owned, ListKey(n));
    InFilter(bindings, (b: Binding) => b.owner == owner);
    SortByIsSorted(owned, ListKey(n));
    assert forall b :: b in sorted <==> b in bindings && b.owner == owner;
    hide SortBy, Filter, BindingsOf;
    forall b | b in Listed(n, bindings, owner) ensures b in sorted {
      var i :| 0 <= i < |Listed(n, bindings, owner)| && Listed(n, bindings, owner)[i] == b;
      assert sorted[i] == b;
    }
  }

  lemma ActiveForFacts(n: Naming, bindings: seq<Binding>, owner: Owner, requirement: string)
    ensures match ActiveFor(n, bindings, owner, requirement)
            case Some(b) => b in bindings && b.owner == owner && b.requirement == requirement && b.state.Active?
                            && ById(bindings, b.id).Some? && (IdsApart(bindings) ==> ById(bindings, b.id) == Some(b))
            case None => true
  {
    FirstFinds(Listed(n, bindings, owner), (b: Binding) => b.requirement == requirement && b.state.Active?);
    ListedWithin(n, bindings, owner);
    var found := ActiveFor(n, bindings, owner, requirement);
    if found.Some? {
      FirstFinds(bindings, (b: Binding) => b.id == found.value.id);
      if IdsApart(bindings) {
        OneById(bindings, found.value, ById(bindings, found.value.id).value);
      }
    }
  }

  lemma SavedIdsApart(bindings: seq<Binding>, changed: Binding)
    requires IdsApart(bindings)
    ensures IdsApart(Saved(bindings, changed))
  {
  }

  class ArtifactReferenceService {
    const repository: ArtifactReferenceRepository
    const naming: Naming

    constructor (repository: ArtifactReferenceRepository, naming: Naming)
      ensures this.repository == repository && this.naming == naming
    {
      this.repository, this.naming := repository, naming;
    }

    method BindDependency(w: World, request: BindRequest, now: int) returns (bound: Result<Bound, Problem>)
      requires repository.Valid()
      modifies repository
      ensures repository.Valid()
      ensures (repository.View(), bound) == Bind(naming, w, old(repository.View()), request, now)
    {
      var resolved := Resolve(w, request);
      if resolved.Err? {
        return Err(resolved.error);
      }
      var (instance, artifact) := resolved.value;
      var replay := ByKey(repository.bindings, request.owner, request.key);
      if replay.Some? {
        if (replay.value.requirement, replay.value.artifact, replay.value.checksum)
           != (request.requirement, request.artifact, artifact.checksum) {
          return Err(IdempotencyConflict);
        }
        return Ok(Bound(replay.value, true));
      }
      var kept := repository.bindings;
      var active := ActiveFor(naming, repository.bindings, request.owner, request.requirement);
      ActiveForFacts(naming, repository.bindings, request.owner, request.requirement);
      if active.Some? {
        if request.replace != Some(active.value.id) {
          return Err(BindingConflict);
        }
        SavedIdsApart(repository.bindings, RetiredNow(active.value, now));
        var _ := repository.SaveBinding(RetiredNow(active.value, now));
      } else if request.replace.Some? {
        return Err(BindingConflict);
      }
      var binding := NewBinding(request, instance, artifact, now);
      AddedExactly(repository.bindings, binding);
      var problem := repository.AddBinding(binding);
      if problem.Some? {
        // The unit of work is left without a commit: nothing of it is kept.
        repository.bindings := kept;
        return Err(problem.value);
      }
      return Ok(Bound(binding, false));
    }

    method ConfirmInputSetup(w: World, owner: Owner, omitted: seq<string>, key: string, now: int)
      returns (confirmed: Result<Decision, Problem>)
      modifies repository
      ensures (repository.View(), confirmed) == Confirm(naming, w, old(repository.View()), owner, omitted, key, now)
    {
      if owner.consumer !in w.instances || w.instances[owner.consumer].project != owner.project {
        return Err(InstanceNotFound);
      }
      var instance := w.instances[owner.consumer];
      var setup := Evaluate(naming, RequirementsOf(w, instance), ActiveListed(naming, repository.bindings, owner), []);
      if setup.missing != [] {
        return Err(Unresolved);
      }
      if !Strictly(omitted) {
        return Err(InvalidRequest);
      }
      if omitted != setup.omitted {
        return Err(SetupChanged);
      }
      if omitted == [] {
        return Err(InvalidRequest);
      }
      var existing := DecisionByKey(repository.decisions, owner, key);
      if existing.Some? {
        if !ValidDecision(existing.value) {
          return Err(SetupChanged);
        }
        var content := existing.value.content;
        if (content.bindingSet, content.omitted, content.choice) != (setup.checksum, omitted, CONTINUE) {
          return Err(IdempotencyConflict);
        }
        return Ok(existing.value);
      }
      var decision := NewDecision(owner, instance, setup.checksum, omitted, key, now);
      var _ := repository.AddInputSetupDecision(decision);
      return Ok(decision);
    }

    method MaterializationPlan(w: World, owner: Owner) returns (plan: Result<Plan, Problem>)
      ensures plan == Materialize(naming, w, repository.View(), owner)
    {
      if owner.project !in w.projects || owner.consumer !in w.instances
          || w.instances[owner.consumer].project != owner.project {
        return Err(InstanceNotFound);
      }
      var instance := w.instances[owner.consumer];
      if instance.capsule.None? {
        return Err(Unresolved);
      }
      var bindings := ActiveListed(naming, repository.bindings, owner);
      var setup := SetupOf(naming, w, repository.View(), owner, instance);
      if setup.missing != [] {
        return Err(Unresolved);
      }
      if setup.decisionRequired && setup.current.None? {
        return Err(DecisionRequired);
      }
      var plans: seq<PlanRow> := [];
      for i := 0 to |bindings|
        invariant PlanRows(w, owner, instance.capsule.value, bindings, i) == Ok(plans)
      {
        var row := PlanRowOf(w, owner, instance.capsule.value, bindings[i]);
        if row.Err? {
          PlanStops(w, owner, instance.capsule.value, bindings, i + 1, |bindings|);
          return Err(row.error);
        }
        plans := plans + [row.value];
      }
      var content := PlanContent(owner.project, w.projects[owner.project].workspace, owner.consumer,
                                 SortBy(plans, PlanKey),
                                 LatestUpdate(bindings, w.projects[owner.project].updatedAt));
      return Ok(Plan(content, PlanChecksumOf(content)));
    }
  }

  lemma {:induction false} PlanStops(w: World, owner: Owner, target: string, bindings: seq<Binding>, i: nat, upto: nat)
    requires i <= upto <= |bindings| && PlanRows(w, owner, target, bindings, i).Err?
    ensures PlanRows(w, owner, target, bindings, upto) == PlanRows(w, owner, target, bindings, i)
  {
    if i < upto {
      PlanStops(w, owner, target, bindings, i, upto - 1);
    }
  }
}
