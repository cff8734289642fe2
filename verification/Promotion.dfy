/**
 * Deriving artifact declarations from a reviewed progress report, and promoting them.
 *
 * An artifact identifier is a text; `naming` gives the one derived from a package, report, path
 * and checksum, different for different ones.
 */
module Promotion {
  import opened Outcomes
  import opened Ordering
  import opened Sequences

  const DECLARATION_LIMIT: nat := 100
  const MAX_SIZE_BYTES := 1_099_511_627_776

  datatype Place = ExactPath(path: string) | AddressedPath(prefix: string, filename: string)

  datatype Contract = Contract(artifactType: string, schema: string, media: string, kind: string, place: Place)

  datatype Output = Output(path: string, kind: string, checksum: string, media: string, size: Option<int>)

  datatype Progress = Progress(completed: bool, definition: string, version: string, package: string, report: string,
    round: int, completedAt: int, outputs: seq<Output>)

  datatype Report = Report(receipt: string, project: string, instance: string, report: string, accepted: bool)

  datatype Declaration = Declaration(id: string, artifactType: string, schema: string, media: string, path: string,
    checksum: string, size: int, producedAt: int)

  datatype Producer = Producer(project: string, definition: string, version: string,
    capsule: Option<string>, capsuleVersion: Option<string>)

  datatype Origin = Origin(project: string, instance: string, receipt: string, report: string, round: int,
    capsule: string, capsuleVersion: string)

  /** `createdAt` stands for the lifecycle fields, which are no part of an artifact's identity. */
  datatype Artifact = Artifact(origin: Origin, declared: Declaration, createdAt: int)

  datatype World = World(instances: map<string, Producer>, capsules: map<(string, string), seq<Contract>>)

  datatype Source = Source(package: string, report: string, path: string, checksum: string)
  type Naming = Source -> string

  datatype Problem =
    | ProducerMismatch | ContractViolation | TypeUnknown | InvalidDeclaration | ReferenceConflict | IdempotencyConflict

  // Contracts

  function OutputContracts(raw: seq<Contract>): Result<seq<Contract>, Problem> {
    if exists i, j :: 0 <= i < j < |raw| && raw[i].artifactType == raw[j].artifactType then Err(ContractViolation)
        else Ok(raw)
  }

  function WithoutTrailingSlashes(text: string): string {
    if text != "" && text[|text| - 1] == '/' then WithoutTrailingSlashes(text[..|text| - 1]) else text
  }

  predicate MatchesContract(contract: Contract, d: Declaration, kind: string) {
    && contract.schema == d.schema && contract.media == d.media && contract.kind == kind
    && match contract.place
       case ExactPath(path) => path == d.path
       case AddressedPath(prefix, filename) =>
         && filename == "sha256-<content-sha256>.json"
         && d.path == WithoutTrailingSlashes(prefix) + "/sha256-"
             + (if |d.checksum| >= 7 then d.checksum[7..] else "") + ".json"
  }

  predicate ValidDeclaration(d: Declaration) {
    |d.path| >= 8 && d.path[..8] == "outputs/" && 0 <= d.size <= MAX_SIZE_BYTES
  }

  // Derivation

  function OutputKey(output: Output): Key { (output.path, 0, output.kind) }

  function DeclarationFor(naming: Naming, progress: Progress, output: Output, contract: Contract,
                          size: int): Declaration {
    Declaration(naming(Source(progress.package, progress.report, output.path, output.checksum)), contract.artifactType,
                contract.schema, output.media, output.path, output.checksum, size, progress.completedAt)
  }

  function DeriveOne(naming: Naming, progress: Progress, output: Output,
                     contract: Contract): Result<seq<Declaration>, Problem> {
    if contract.kind != output.kind then Ok([])
    else if output.size.None? then Err(ContractViolation)
    else
      var d := DeclarationFor(naming, progress, output, contract, output.size.value);
      if !ValidDeclaration(d) then Err(InvalidDeclaration)
      else if !MatchesContract(contract, d, output.kind) then Err(ContractViolation)
      else Ok([d])
  }

  function DeriveOutput(naming: Naming, progress: Progress, output: Output, contracts: seq<Contract>,
                        upto: nat): Result<seq<Declaration>, Problem>
    requires upto <= |contracts|
  {
    if upto == 0 then Ok([])
    else match DeriveOutput(naming, progress, output, contracts, upto - 1)
      case Err(problem) => Err(problem)
      case Ok(sofar) =>
        match DeriveOne(naming, progress, output, contracts[upto - 1])
        case Err(problem) => Err(problem)
        case Ok(more) => Ok(sofar + more)
  }

  function DeriveAll(naming: Naming, progress: Progress, outputs: seq<Output>, contracts: seq<Contract>,
                     upto: nat): Result<seq<Declaration>, Problem>
    requires upto <= |outputs|
  {
    if upto == 0 then Ok([])
    else match DeriveAll(naming, progress, outputs, contracts, upto - 1)
      case Err(problem) => Err(problem)
      case Ok(sofar) =>
        match DeriveOutput(naming, progress, outputs[upto - 1], contracts, |contracts|)
        case Err(problem) => Err(problem)
        case Ok(more) => Ok(sofar + more)
  }

  /** The capsule contracts a completed report is read against, or why it is refused. */
  function DerivationContracts(w: World, instance: string, progress: Progress): Result<seq<Contract>, Problem> {
    if instance !in w.instances then Err(ProducerMismatch)
    else
      var producer := w.instances[instance];
      if producer.definition != progress.definition || producer.version != progress.version
         || producer.capsule.None? || producer.capsuleVersion.None? then Err(ProducerMismatch)
      else if (producer.capsule.value, producer.capsuleVersion.value) !in w.capsules then Err(ContractViolation)
      else OutputContracts(w.capsules[(producer.capsule.value, producer.capsuleVersion.value)])
  }

  function Derive(w: World, naming: Naming, instance: string, progress: Progress): Result<seq<Declaration>, Problem> {
    if !progress.completed then Ok([])
    else match DerivationContracts(w, instance, progress)
      case Err(problem) => Err(problem)
      case Ok(contracts) =>
        var sorted := SortBy(progress.outputs, OutputKey);
        if contracts == [] then Ok([]) else DeriveAll(naming, progress, sorted, contracts, |sorted|)
  }

  // Promotion

  function DeclarationKey(d: Declaration): Key { (d.path, 0, d.id) }

  function ArtifactKey(a: Artifact): Key { DeclarationKey(a.declared) }

  function DeclaredBy(a: Artifact): Declaration { a.declared }

  function ListForProgress(artifacts: seq<Artifact>, receipt: string): seq<Artifact> {
    SortBy(Filter(artifacts, (a: Artifact) => a.origin.receipt == receipt), ArtifactKey)
  }

  predicate ReplayEquivalent(existing: seq<Artifact>, declarations: seq<Declaration>) {
    Map(DeclaredBy, existing) == SortBy(declarations, DeclarationKey)
  }

  /** `{path: output}`: a repeated path keeps its last output. */
  function OutputAt(outputs: seq<Output>, path: string): Option<Output> {
    if outputs == [] then None
    else if outputs[|outputs| - 1].path == path then Some(outputs[|outputs| - 1])
    else OutputAt(outputs[..|outputs| - 1], path)
  }

  function ContractFor(contracts: seq<Contract>, artifactType: string): Option<Contract> {
    First(contracts, (c: Contract) => c.artifactType == artifactType)
  }

  /** The tests one declaration meets, whatever came before it. */
  function CheckDeclaration(contracts: seq<Contract>, outputs: seq<Output>, d: Declaration): Option<Problem> {
    match OutputAt(outputs, d.path)
    case None => Some(ContractViolation)
    case Some(output) =>
      if output.checksum != d.checksum || output.media != d.media
          || output.size != Some(d.size) then Some(ContractViolation)
      else match ContractFor(contracts, d.artifactType)
        case None => Some(TypeUnknown)
        case Some(contract) => if MatchesContract(contract, d, output.kind) then None else Some(ContractViolation)
  }

  predicate SameId(x: Artifact, a: Artifact) { x.declared.id == a.declared.id }

  /** Everything but the lifecycle is an artifact's identity. */
  predicate SameIdentity(x: Artifact, a: Artifact) { (x.origin, x.declared) == (a.origin, a.declared) }

  predicate SamePath(x: Artifact, a: Artifact) {
    x.origin.receipt == a.origin.receipt && x.declared.path == a.declared.path
  }

  /** `add_artifact`: a known identifier must have the same identity, a path must be free. */
  function Added(artifacts: seq<Artifact>, a: Artifact): Result<seq<Artifact>, Problem> {
    match First(artifacts, (x: Artifact) => SameId(x, a))
    case Some(existing) => if SameIdentity(existing, a) then Ok(artifacts) else Err(ReferenceConflict)
    case None =>
      if First(artifacts, (x: Artifact) => SamePath(x, a)).Some? then Err(ReferenceConflict) else Ok(artifacts + [a])
  }

  /** The store and the artifacts once the first `upto` declarations are promoted. */
  function PromoteUpTo(contracts: seq<Contract>, outputs: seq<Output>, origin: Origin, now: int,
                       artifacts: seq<Artifact>, declarations: seq<Declaration>, upto: nat)
    : Result<(seq<Artifact>, seq<Artifact>), Problem>
    requires upto <= |declarations|
  {
    if upto == 0 then Ok((artifacts, []))
    else match PromoteUpTo(contracts, outputs, origin, now, artifacts, declarations, upto - 1)
      case Err(problem) => Err(problem)
      case Ok((stored, produced)) =>
        var d := declarations[upto - 1];
        if exists i :: 0 <= i < upto - 1 && (declarations[i].id == d.id || declarations[i].path == d.path) then
            Err(ContractViolation)
        else match CheckDeclaration(contracts, outputs, d)
          case Some(problem) => Err(problem)
          case None =>
            match Added(stored, Artifact(origin, d, now))
            case Err(problem) => Err(problem)
            case Ok(added) => Ok((added, produced + [Artifact(origin, d, now)]))
  }

  /** The pinned contracts and the origin a promotion is made under. */
  function PromotionContracts(w: World, report: Report, progress: Progress): Result<(seq<Contract>, Origin), Problem> {
    if report.instance !in w.instances || w.instances[report.instance].project != report.project then
        Err(ProducerMismatch)
    else
      var producer := w.instances[report.instance];
      if producer.capsule.None? || producer.capsuleVersion.None? then Err(ContractViolation)
      else if (producer.capsule.value, producer.capsuleVersion.value) !in w.capsules then Err(ContractViolation)
      else match OutputContracts(w.capsules[(producer.capsule.value, producer.capsuleVersion.value)])
        case Err(problem) => Err(problem)
        case Ok(contracts) =>
          if contracts == [] then Err(TypeUnknown)
          else Ok((contracts, Origin(report.project, report.instance, report.receipt, report.report, progress.round,
                                     producer.capsule.value, producer.capsuleVersion.value)))
  }

  function Promote(w: World, artifacts: seq<Artifact>, report: Report, progress: Progress,
                   declarations: seq<Declaration>, now: int)
    : (seq<Artifact>, Result<seq<Artifact>, Problem>)
  {
    var existing := ListForProgress(artifacts, report.receipt);
    if existing != [] then
        (artifacts, if ReplayEquivalent(existing, declarations) then Ok(existing) else Err(IdempotencyConflict))
    else if declarations == [] then (artifacts, Ok([]))
    else if !report.accepted then (artifacts, Err(ContractViolation))
    else match PromotionContracts(w, report, progress)
      case Err(problem) => (artifacts, Err(problem))
      case Ok((contracts, origin)) =>
        if |declarations| > DECLARATION_LIMIT then (artifacts, Err(ContractViolation))
        else
          var sorted := SortBy(declarations, DeclarationKey);
          match PromoteUpTo(contracts, progress.outputs, origin, now, artifacts, sorted, |sorted|)
          case Err(problem) => (artifacts, Err(problem))
          case Ok((stored, produced)) => (stored, Ok(produced))
  }

  // The loops

  lemma {:induction false} DeriveOutputStops(naming: Naming, progress: Progress, output: Output,
                                             contracts: seq<Contract>, i: nat, upto: nat)
    requires i <= upto <= |contracts| && DeriveOutput(naming, progress, output, contracts, i).Err?
    ensures DeriveOutput(naming, progress, output, contracts, upto)
            == DeriveOutput(naming, progress, output, contracts, i)
  {
    if i < upto {
      DeriveOutputStops(naming, progress, output, contracts, i, upto - 1);
    }
  }

  lemma {:induction false} DeriveAllStops(naming: Naming, progress: Progress, outputs: seq<Output>,
                                          contracts: seq<Contract>, i: nat, upto: nat)
    requires i <= upto <= |outputs| && DeriveAll(naming, progress, outputs, contracts, i).Err?
    ensures DeriveAll(naming, progress, outputs, contracts, upto) == DeriveAll(naming, progress, outputs, contracts, i)
  {
    if i < upto {
      DeriveAllStops(naming, progress, outputs, contracts, i, upto - 1);
    }
  }

  lemma {:induction false} PromoteStops(contracts: seq<Contract>, outputs: seq<Output>, origin: Origin, now: int,
                                        artifacts: seq<Artifact>, declarations: seq<Declaration>, i: nat, upto: nat)
    requires i <= upto <= |declarations| && PromoteUpTo(contracts, outputs, origin, now, artifacts, declarations,
                                                        i).Err?
    ensures PromoteUpTo(contracts, outputs, origin, now, artifacts, declarations, upto)
            == PromoteUpTo(contracts, outputs, origin, now, artifacts, declarations, i)
  {
    if i < upto {
      PromoteStops(contracts, outputs, origin, now, artifacts, declarations, i, upto - 1);
    }
  }

  ghost predicate StoredIdsApart(artifacts: seq<Artifact>) {
    forall i, j :: 0 <= i < j < |artifacts| ==> !SameId(artifacts[i], artifacts[j])
  }

  /** No report has two artifacts on one path. */
  ghost predicate PathsHeldOnce(artifacts: seq<Artifact>) {
    forall x, y :: x in artifacts && y in artifacts && SamePath(x, y) ==> x == y
  }

  lemma OneById(artifacts: seq<Artifact>, x: Artifact, y: Artifact)
    requires StoredIdsApart(artifacts) && x in artifacts && y in artifacts && SameId(x, y)
    ensures x == y
  {
    var i :| 0 <= i < |artifacts| && artifacts[i] == x;
    var j :| 0 <= j < |artifacts| && artifacts[j] == y;
  }

  /** When an artifact may be added, said of the artifacts that are there. */
  lemma AddedExactly(artifacts: seq<Artifact>, a: Artifact)
    requires StoredIdsApart(artifacts)
    ensures Added(artifacts, a).Err? <==> (exists x :: x in artifacts && SameId(x, a) && !SameIdentity(x, a))
                                          || ((forall x :: x in artifacts ==> !SameId(x, a))
                                              && exists x :: x in artifacts && SamePath(x, a))
    ensures Added(artifacts, a).Err? ==> Added(artifacts, a).error == ReferenceConflict
    ensures Added(artifacts, a).Ok? ==>
              Added(artifacts, a).value == if exists x :: x in artifacts && SameId(x, a) then artifacts
                  else artifacts + [a]
  {
    FirstFinds(artifacts, (x: Artifact) => SameId(x, a));
    FirstFinds(artifacts, (x: Artifact) => SamePath(x, a));
    var existing := First(artifacts, (x: Artifact) => SameId(x, a));
    if existing.Some? {
      forall x | x in artifacts && SameId(x, a) ensures x == existing.value {
        OneById(artifacts, x, existing.value);
      }
    }
  }

  class ArtifactReferenceRepository {
    var artifacts: seq<Artifact>

    /** Identifiers are the keys of the dictionary. */
    ghost predicate Valid()
      reads this
    {
      StoredIdsApart(artifacts)
    }

    constructor ()
      ensures artifacts == [] && Valid()
    {
      artifacts := [];
    }

    /** Refused exactly when the identifier stands for another artifact, or the report's path for one. */
    method AddArtifact(a: Artifact) returns (problem: Option<Problem>)
      requires Valid()
      modifies this
      ensures Valid()
      ensures problem.None? || problem == Some(ReferenceConflict)
      ensures problem.Some? <==> (exists x :: x in old(artifacts) && SameId(x, a) && !SameIdentity(x, a))
                                 || ((forall x :: x in old(artifacts) ==> !SameId(x, a))
                                     && exists x :: x in old(artifacts) && SamePath(x, a))
      ensures artifacts == if problem.Some? || (exists x :: x in old(artifacts) && SameId(x, a)) then old(artifacts)
                           else old(artifacts) + [a]
      ensures PathsHeldOnce(old(artifacts)) ==> PathsHeldOnce(artifacts)
    {
      FirstFinds(artifacts, (x: Artifact) => SameId(x, a));
      FirstFinds(artifacts, (x: Artifact) => SamePath(x, a));
      var existing := First(artifacts, (x: Artifact) => SameId(x, a));
      if existing.Some? {
        forall x | x in artifacts && SameId(x, a) ensures x == existing.value {
          OneById(artifacts, x, existing.value);
        }
        return if SameIdentity(existing.value, a) then None else Some(ReferenceConflict);
      }
      if First(artifacts, (x: Artifact) => SamePath(x, a)).Some? {
        return Some(ReferenceConflict);
      }
      assert forall i :: 0 <= i < |artifacts| ==> artifacts[i] in artifacts;
      artifacts := artifacts + [a];
      return None;
    }
  }

  class ProgressArtifactService {
    const repository: ArtifactReferenceRepository
    const naming: Naming

    constructor (repository: ArtifactReferenceRepository, naming: Naming)
      ensures this.repository == repository && this.naming == naming
    {
      this.repository, this.naming := repository, naming;
    }

    method DeriveReviewedProgressDeclarations(w: World, instance: string, progress: Progress)
      returns (derived: Result<seq<Declaration>, Problem>)
      ensures derived == Derive(w, naming, instance, progress)
    {
      if !progress.completed {
        return Ok([]);
      }
      var found := DerivationContracts(w, instance, progress);
      if found.Err? {
        return Err(found.error);
      }
      var contracts := found.value;
      if contracts == [] {
        return Ok([]);
      }
      hide DeriveOutput, SortBy, DerivationContracts;
      var declarations: seq<Declaration> := [];
      var outputs := SortBy(progress.outputs, OutputKey);
      for i := 0 to |outputs|
        invariant DeriveAll(naming, progress, outputs, contracts, i) == Ok(declarations)
      {
        var more := DeriveForOutput(progress, outputs[i], contracts);
        if more.Err? {
          DeriveAllStops(naming, progress, outputs, contracts, i + 1, |outputs|);
          return Err(more.error);
        }
        declarations := declarations + more.value;
      }
      return Ok(declarations);
    }

    /** The inner loop: one output against every contract. */
    method DeriveForOutput(progress: Progress, output: Output, contracts: seq<Contract>)
      returns (derived: Result<seq<Declaration>, Problem>)
      ensures derived == DeriveOutput(naming, progress, output, contracts, |contracts|)
    {
      hide DeriveOne;
      var declarations: seq<Declaration> := [];
      for j := 0 to |contracts|
        invariant DeriveOutput(naming, progress, output, contracts, j) == Ok(declarations)
      {
        var one := DeriveOne(naming, progress, output, contracts[j]);
        if one.Err? {
          DeriveOutputStops(naming, progress, output, contracts, j + 1, |contracts|);
          return Err(one.error);
        }
        declarations := declarations + one.value;
      }
      return Ok(declarations);
    }

    method PromoteProgressArtifacts(w: World, report: Report, progress: Progress, declarations: seq<Declaration>,
                                    now: int)
      returns (promoted: Result<seq<Artifact>, Problem>)
      requires repository.Valid()
      modifies repository
      ensures repository.Valid()
      ensures (repository.artifacts, promoted)
              == Promote(w, old(repository.artifacts), report, progress, declarations, now)
    {
      var existing := ListForProgress(repository.artifacts, report.receipt);
      if existing != [] {
        return if ReplayEquivalent(existing, declarations) then Ok(existing) else Err(IdempotencyConflict);
      }
      if declarations == [] {
        return Ok([]);
      }
      if !report.accepted {
        return Err(ContractViolation);
      }
      var pinned := PromotionContracts(w, report, progress);
      if pinned.Err? {
        return Err(pinned.error);
      }
      var (contracts, origin) := pinned.value;
      if |declarations| > DECLARATION_LIMIT {
        return Err(ContractViolation);
      }
      promoted := PromoteSorted(contracts, origin, progress, SortBy(declarations, DeclarationKey), now);
    }

    /** The loop; a failure leaves the unit of work without a commit, so nothing of it is kept. */
    method PromoteSorted(contracts: seq<Contract>, origin: Origin, progress: Progress, sorted: seq<Declaration>,
                         now: int)
      returns (promoted: Result<seq<Artifact>, Problem>)
      requires repository.Valid()
      modifies repository
      ensures repository.Valid()
      ensures match PromoteUpTo(contracts, progress.outputs, origin, now, old(repository.artifacts), sorted, |sorted|)
              case Ok((stored, produced)) => repository.artifacts == stored && promoted == Ok(produced)
              case Err(problem) => repository.artifacts == old(repository.artifacts) && promoted == Err(problem)
    {
      hide CheckDeclaration, Added;
      var start := repository.artifacts;
      var seenIds: set<string> := {};
      var seenPaths: set<string> := {};
      var produced: seq<Artifact> := [];
      for i := 0 to |sorted|
        invariant repository.Valid()
        invariant PromoteUpTo(contracts, progress.outputs, origin, now, start, sorted, i)
                  == Ok((repository.artifacts, produced))
        invariant seenIds == set k | 0 <= k < i :: sorted[k].id
        invariant seenPaths == set k | 0 <= k < i :: sorted[k].path
      {
        var d := sorted[i];
        var problem: Option<Problem> := None;
        assert (d.id in seenIds || d.path in seenPaths)
               <==> exists k :: 0 <= k < i && (sorted[k].id == d.id || sorted[k].path == d.path);
        if d.id in seenIds || d.path in seenPaths {
          problem := Some(ContractViolation);
        } else {
          problem := CheckDeclaration(contracts, progress.outputs, d);
        }
        if problem.None? {
          AddedExactly(repository.artifacts, Artifact(origin, d, now));
          problem := repository.AddArtifact(Artifact(origin, d, now));
        }
        if problem.Some? {
          PromoteStops(contracts, progress.outputs, origin, now, start, sorted, i + 1, |sorted|);
          repository.artifacts := start;
          return Err(problem.value);
        }
        seenIds, seenPaths := seenIds + {d.id}, seenPaths + {d.path};
        produced := produced + [Artifact(origin, d, now)];
      }
      return Ok(produced);
    }
  }
}
