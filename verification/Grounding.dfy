/**
 * Evidence lineage: experiment record, evidence summary, evidence references, claims, manuscript.
 *
 * A checksum in a document is a text; `ChecksumOf` is the text the canonical hash gives a content,
 * so a document's text equals it only for that content. JSON null is `None`.
 */
module Evidence {
  import opened Outcomes
  import opened Sequences
  import opened Texts

  const MAX_EVIDENCE_BLOCKS: nat := 80
  const MAX_SOURCES: nat := 20
  const MAX_REFERENCES: nat := 200
  const MAX_CLAIMS: nat := 500
  const EXPERIMENT_TYPE := "experiment-record/v5"

  datatype SourceKind = ResultPayload | ExecutionOutput

  datatype Checksum = ChecksumOf(block: BlockContent) | OtherText(text: string)

  datatype Source = Source(kind: SourceKind, name: string, checksum: string)

  datatype BlockKind = Prose | Scalar | Table | Series | FigureReference | OutputReference

  /** `outputChecksum` is the checksum inside the value of the two reference kinds. */
  datatype BlockContent = BlockContent(id: string, kind: BlockKind, title: string, value: string,
                                       outputChecksum: string, sources: seq<Source>)

  datatype Block = Block(content: BlockContent, checksum: Checksum)

  datatype Lineage = Lineage(capability: string, evaluation: string, payload: string)

  /** A materialized record; `sound` stands for its lifecycle, size, text and self-checksum tests. */
  datatype Record = Record(receipt: Lineage, evidence: Lineage, outputs: seq<(string, string)>, blocks: seq<Block>,
    processOutcome: string, evaluationValidity: string, evidenceStatus: string,
    boundaries: seq<string>, resultLimitations: seq<string>, lifecycleLimitations: seq<string>,
        evidenceChecksum: string, sound: bool)

  datatype Problem =
    | RecordInvalid | SourcesInvalid | BlockChecksumMismatch | BlocksRepeat | LineageMismatch
    | PayloadMismatch | OutputMismatch | ReferenceOutputMismatch | FindingsWithoutEvidence
    | ReferenceWithoutExperiment | ReferenceInvalid | SummaryDiffers
    | TooManyReferences | FieldsMismatch | NotBound | TextInvalid | AvailabilityInvalid
    | GroundingRequired | BlockIdentityInvalid | UnexpectedBlock
    | ClaimsUnbounded | ClaimRepeated | ClaimTypeInvalid | QualificationInvalid | UnknownCitation | BoundaryViolation
    | SupportMissing | SupportUnexpected | ResultUngrounded | BoundedClaimExceeds
    | DescriptionUnqualified | QualificationMissing | LineageDiffers | AvailabilityInconsistent | LimitationsDropped

  // The record

  /** `{name: checksum}`: a repeated name keeps its last checksum. */
  function OutputChecksum(outputs: seq<(string, string)>, name: string): Option<string> {
    if outputs == [] then None
    else if outputs[|outputs| - 1].0 == name then Some(outputs[|outputs| - 1].1)
    else OutputChecksum(outputs[..|outputs| - 1], name)
  }

  predicate IsOutputChecksum(outputs: seq<(string, string)>, checksum: string) {
    exists o :: o in outputs && OutputChecksum(outputs, o.0) == Some(checksum)
  }

  function CheckSource(source: Source, payload: string, outputs: seq<(string, string)>): Option<Problem> {
    if source.kind.ResultPayload? then (if source.checksum != payload then Some(PayloadMismatch) else None)
    else if OutputChecksum(outputs, source.name) != Some(source.checksum) then Some(OutputMismatch) else None
  }

  function CheckSources(sources: seq<Source>, payload: string, outputs: seq<(string, string)>,
                        upto: nat): Option<Problem>
    requires upto <= |sources|
  {
    if upto == 0 then None
    else match CheckSources(sources, payload, outputs, upto - 1)
      case Some(problem) => Some(problem)
      case None => CheckSource(sources[upto - 1], payload, outputs)
  }

  function CheckBlockLineage(block: Block, payload: string, outputs: seq<(string, string)>): Option<Problem> {
    match CheckSources(block.content.sources, payload, outputs, |block.content.sources|)
    case Some(problem) => Some(problem)
    case None =>
      if (block.content.kind.FigureReference? || block.content.kind.OutputReference?)
         && !IsOutputChecksum(outputs, block.content.outputChecksum) then Some(ReferenceOutputMismatch)
      else None
  }

  function CheckLineage(blocks: seq<Block>, payload: string, outputs: seq<(string, string)>, upto: nat): Option<Problem>
    requires upto <= |blocks|
  {
    if upto == 0 then None
    else match CheckLineage(blocks, payload, outputs, upto - 1)
      case Some(problem) => Some(problem)
      case None => CheckBlockLineage(blocks[upto - 1], payload, outputs)
  }

  /** What the typed constructors make of one materialized block. */
  function CheckBlock(block: Block): Option<Problem> {
    var sources := block.content.sources;
    if exists i :: 0 <= i < |sources| && sources[i].kind.ResultPayload?
        && sources[i].name != "result-payload" then Some(SourcesInvalid)
    else if |sources| > MAX_SOURCES || exists i, j :: 0 <= i < j < |sources| && sources[i] == sources[j] then
        Some(SourcesInvalid)
    else if block.checksum != ChecksumOf(block.content) then Some(BlockChecksumMismatch)
    else None
  }

  function CheckBlocks(blocks: seq<Block>, upto: nat): Option<Problem>
    requires upto <= |blocks|
  {
    if upto == 0 then None
    else match CheckBlocks(blocks, upto - 1)
      case Some(problem) => Some(problem)
      case None => CheckBlock(blocks[upto - 1])
  }

  function ValidateRecord(record: Record): Option<Problem> {
    if !record.sound || |record.blocks| > MAX_EVIDENCE_BLOCKS then Some(RecordInvalid)
    else match CheckBlocks(record.blocks, |record.blocks|)
      case Some(problem) => Some(problem)
      case None =>
        if exists i, j :: 0 <= i < j < |record.blocks| && record.blocks[i].content.id
            == record.blocks[j].content.id then Some(BlocksRepeat)
        else if record.evidence != record.receipt then Some(LineageMismatch)
        else match CheckLineage(record.blocks, record.evidence.payload, record.outputs, |record.blocks|)
          case Some(problem) => Some(problem)
          case None => if record.evidenceStatus == "NOT_AVAILABLE"
              && record.blocks != [] then Some(FindingsWithoutEvidence) else None
  }

  // The summary

  datatype ArtifactRef = ArtifactRef(id: string, kind: string, sha: string)

  /** Tests on texts: what counts as blank, and as a checksum. */
  datatype Rules = Rules(blank: Blank, sha: string -> bool)

  predicate BoundedText(rules: Rules, text: string, maximum: nat) {
    NonBlank(rules.blank, text) && |text| <= maximum
  }

  predicate BoundedTexts(rules: Rules, texts: seq<string>) {
    |texts| <= 100 && forall i :: 0 <= i < |texts| ==> BoundedText(rules, texts[i], 2_000)
  }

  predicate ValidRef(rules: Rules, ref: ArtifactRef) {
    |ref.id| >= 9 && ref.id[..9] == "artifact-" && rules.sha(ref.sha)
  }

  datatype Summary = Summary(artifact: ArtifactRef, processOutcome: string, evaluationValidity: string,
                             evidenceStatus: string,
    boundaries: seq<string>, limitations: seq<string>, evidenceChecksum: string,
        blocks: seq<(string, BlockKind, string, Checksum)>)

  /** `list(dict.fromkeys(...))`: each text once, where it came first. */
  function FirstOccurrences(texts: seq<string>): seq<string> {
    if texts == [] then []
    else
      var front, last := texts[..|texts| - 1], texts[|texts| - 1];
      if last in front then FirstOccurrences(front) else FirstOccurrences(front) + [last]
  }

  function SummaryOf(record: Record, reference: ArtifactRef): Summary {
    Summary(reference, record.processOutcome, record.evaluationValidity, record.evidenceStatus, record.boundaries,
            FirstOccurrences(record.resultLimitations + record.lifecycleLimitations), record.evidenceChecksum,
            Map((b: Block) => (b.content.id, b.content.kind, b.content.title, b.checksum), record.blocks))
  }

  function ExperimentSummary(rules: Rules, experiment: Option<Record>,
                             reference: Option<ArtifactRef>): Result<Option<Summary>, Problem> {
    match experiment
    case None => if reference.Some? then Err(ReferenceWithoutExperiment) else Ok(None)
    case Some(record) =>
      match ValidateRecord(record)
      case Some(problem) => Err(problem)
      case None =>
        if reference.None? || !ValidRef(rules, reference.value)
            || reference.value.kind != EXPERIMENT_TYPE then Err(ReferenceInvalid)
        else Ok(Some(SummaryOf(record, reference.value)))
  }

  // Evidence references

  /** The two fields that ground a reference in a block, each a text or JSON null. */
  datatype Grounding = Ungrounded | Grounding(block: Option<string>, checksum: Option<Checksum>) | Malformed

  datatype Reference = Reference(artifact: ArtifactRef, item: string, location: string, availability: string,
    limitation: Option<string>, grounding: Grounding)

  datatype Sources = Sources(idea: ArtifactRef, library: ArtifactRef, experiment: Option<ArtifactRef>)

  predicate Allowed(sources: Sources, ref: ArtifactRef) {
    ref == sources.idea || ref == sources.library || sources.experiment == Some(ref)
  }

  /** `{block_id: block_checksum}.get(id)`: null for null and for every unknown identifier. */
  function BlockChecksumFor(record: Option<Record>, id: Option<string>): Option<Checksum> {
    if record.None? || id.None? then None
    else match First(record.value.blocks, (b: Block) => b.content.id == id.value)
      case None => None
      case Some(b) => Some(b.checksum)
  }

  function CheckReference(rules: Rules, ref: Reference, sources: Sources, experiment: Option<Record>): Option<Problem> {
    if ref.grounding.Malformed? then Some(FieldsMismatch)
    else if !ValidRef(rules, ref.artifact) then Some(ReferenceInvalid)
    else if !Allowed(sources, ref.artifact) then Some(NotBound)
    else if !BoundedText(rules, ref.item, 500) || !BoundedText(rules, ref.location, 500) then Some(TextInvalid)
    else if ref.availability != "AVAILABLE" && ref.availability != "LIMITED"
        && ref.availability != "UNAVAILABLE" then Some(AvailabilityInvalid)
    else if ref.limitation.Some? && !BoundedText(rules, ref.limitation.value, 2_000) then Some(TextInvalid)
    else if ref.artifact.kind == EXPERIMENT_TYPE then
      if experiment.None? && ref.grounding.Ungrounded? then None
      else if ref.grounding.Ungrounded? then Some(GroundingRequired)
      else if BlockChecksumFor(experiment, ref.grounding.block) != ref.grounding.checksum then
          Some(BlockIdentityInvalid)
      else None
    else if !ref.grounding.Ungrounded? then Some(UnexpectedBlock)
    else None
  }

  function CheckReferences(rules: Rules, refs: seq<Reference>, sources: Sources, experiment: Option<Record>,
                           upto: nat): Option<Problem>
    requires upto <= |refs|
  {
    if upto == 0 then None
    else match CheckReferences(rules, refs, sources, experiment, upto - 1)
      case Some(problem) => Some(problem)
      case None => CheckReference(rules, refs[upto - 1], sources, experiment)
  }

  function ValidateReferences(rules: Rules, refs: seq<Reference>, sources: Sources,
                              experiment: Option<Record>): Result<seq<Reference>, Problem> {
    if |refs| > MAX_REFERENCES then Err(TooManyReferences)
    else match (if experiment.None? then Ok(None) else ExperimentSummary(rules, experiment, sources.experiment))
      case Err(problem) => Err(problem)
      case Ok(_) =>
        match CheckReferences(rules, refs, sources, experiment, |refs|)
        case Some(problem) => Err(problem)
        case None => Ok(refs)
  }

  // Claims

  datatype Claim = Claim(id: string, kind: string, section: string, text: string, support: string,
                         references: seq<Reference>,
    citations: seq<string>, limitations: seq<string>, qualification: string, boundaries: seq<string>)

  predicate KnownSupport(support: string) {
    support == "SUPPORTED" || support == "PLANNED" || support == "UNAVAILABLE"
  }

  predicate KnownQualification(qualification: string) {
    qualification in {"LITERATURE_BOUND", "PROPOSED", "UNAVAILABLE", "DESCRIPTIVE_OBSERVATION",
        "BOUNDED_SCIENTIFIC_CLAIM"}
  }

  function ToSet<T>(s: seq<T>): set<T> { set x | x in s }

  function CheckResult(claim: Claim, summary: Option<Summary>): Option<Problem> {
    if claim.support == "SUPPORTED"
        && !(exists r :: r in claim.references && r.artifact.kind == EXPERIMENT_TYPE) then Some(ResultUngrounded)
    else if claim.qualification == "BOUNDED_SCIENTIFIC_CLAIM" then
      if summary.None? || summary.value.processOutcome != "SUCCEEDED" || summary.value.evaluationValidity != "VALID"
         || summary.value.evidenceStatus != "SUPPORTS_BOUNDED_FINDINGS"
             || claim.boundaries == [] then Some(BoundedClaimExceeds)
      else None
    else if claim.qualification == "DESCRIPTIVE_OBSERVATION" then
      if summary.None? || summary.value.evidenceStatus == "NOT_AVAILABLE"
          || claim.limitations == [] then Some(DescriptionUnqualified)
      else None
    else if claim.support == "SUPPORTED" then Some(QualificationMissing)
    else None
  }

  function CheckClaim(rules: Rules, claim: Claim, seen: set<string>, sources: Sources, citations: set<string>,
                      experiment: Option<Record>, summary: Option<Summary>): Option<Problem>
  {
    if !BoundedText(rules, claim.id, 160) then Some(TextInvalid)
    else if claim.id in seen then Some(ClaimRepeated)
    else if claim.kind != "LITERATURE" && claim.kind != "PROPOSAL" && claim.kind != "RESULT" then Some(ClaimTypeInvalid)
    else if !KnownSupport(claim.support) || !KnownQualification(claim.qualification) then Some(QualificationInvalid)
    else match ValidateReferences(rules, claim.references, sources, experiment)
      case Err(problem) => Some(problem)
      case Ok(refs) =>
        if !BoundedTexts(rules, claim.citations) then Some(TextInvalid)
        else if !(ToSet(claim.citations) <= citations) then Some(UnknownCitation)
        else if !BoundedTexts(rules, claim.limitations) || !BoundedTexts(rules, claim.boundaries) then Some(TextInvalid)
        else if !(ToSet(claim.boundaries) <= (if summary.None? then {} else ToSet(summary.value.boundaries))) then
            Some(BoundaryViolation)
        else if claim.support == "SUPPORTED" && refs == [] then Some(SupportMissing)
        else if claim.support == "UNAVAILABLE" && refs != [] then Some(SupportUnexpected)
        else if claim.kind == "RESULT" then CheckResult(claim, summary)
        else None
  }

  function CheckClaims(rules: Rules, claims: seq<Claim>, sources: Sources, citations: set<string>,
                       experiment: Option<Record>, summary: Option<Summary>, upto: nat): Option<Problem>
    requires upto <= |claims|
  {
    if upto == 0 then None
    else match CheckClaims(rules, claims, sources, citations, experiment, summary, upto - 1)
      case Some(problem) => Some(problem)
      case None => CheckClaim(rules, claims[upto - 1], set i | 0 <= i < upto - 1 :: claims[i].id, sources, citations,
                              experiment, summary)
  }

  function ValidateClaims(rules: Rules, claims: seq<Claim>, sources: Sources, citations: set<string>,
                          experiment: Option<Record>)
    : Result<seq<Claim>, Problem>
  {
    if claims == [] || |claims| > MAX_CLAIMS then Err(ClaimsUnbounded)
    else match ExperimentSummary(rules, experiment, sources.experiment)
      case Err(problem) => Err(problem)
      case Ok(summary) =>
        match CheckClaims(rules, claims, sources, citations, experiment, summary, |claims|)
        case Some(problem) => Err(problem)
        case None => Ok(claims)
  }

  // The manuscript

  /** `sound` stands for the identity, producer, citation, text and approval tests. */
  datatype Manuscript = Manuscript(sources: Sources, summary: Option<Summary>, available: bool, claims: seq<Claim>,
    citations: set<string>, limitations: seq<string>, sound: bool)

  predicate TypedSources(rules: Rules, sources: Sources) {
    && ValidRef(rules, sources.idea) && sources.idea.kind == "selected-research-idea/v1"
    && ValidRef(rules, sources.library) && sources.library.kind == "selected-paper-library/v1"
    && (sources.experiment.Some? ==>
         ValidRef(rules, sources.experiment.value) && sources.experiment.value.kind == EXPERIMENT_TYPE)
  }

  predicate FormattedChecksum(rules: Rules, checksum: Checksum) { checksum.OtherText? ==> rules.sha(checksum.text) }

  /** What is asked of a summary when no record is supplied: its format, and the bound reference. */
  function CheckSummaryFormat(rules: Rules, summary: Summary, reference: Option<ArtifactRef>): Option<Problem> {
    if !ValidRef(rules, summary.artifact) || summary.artifact.kind != EXPERIMENT_TYPE || reference.None?
       || !ValidRef(rules, reference.value) || reference.value.kind != EXPERIMENT_TYPE then Some(ReferenceInvalid)
    else if summary.artifact != reference.value then Some(SummaryDiffers)
    else if !rules.sha(summary.evidenceChecksum) then Some(TextInvalid)
    else if !BoundedTexts(rules, summary.boundaries) || !BoundedTexts(rules, summary.limitations) then Some(TextInvalid)
    else if |summary.blocks| > MAX_EVIDENCE_BLOCKS then Some(RecordInvalid)
    else if exists i :: 0 <= i < |summary.blocks| && !FormattedChecksum(rules, summary.blocks[i].3) then
        Some(TextInvalid)
    else None
  }

  function ValidateSummary(rules: Rules, summary: Option<Summary>, experiment: Option<Record>,
                           reference: Option<ArtifactRef>)
    : Result<Option<Summary>, Problem>
  {
    if experiment.None? && summary.Some? then
      match CheckSummaryFormat(rules, summary.value, reference)
      case Some(problem) => Err(problem)
      case None => Ok(summary)
    else match ExperimentSummary(rules, experiment, reference)
      case Err(problem) => Err(problem)
      case Ok(expected) => if summary != expected then Err(SummaryDiffers) else Ok(expected)
  }

  /** Without the record, the claims of a manuscript that carries a summary are only counted. */
  function ManuscriptClaims(rules: Rules, m: Manuscript, experiment: Option<Record>): Option<Problem> {
    if experiment.None? && m.summary.Some? then (if m.claims == [] then Some(ClaimsUnbounded) else None)
    else match ValidateClaims(rules, m.claims, m.sources, m.citations, experiment)
      case Err(problem) => Some(problem)
      case Ok(_) => None
  }

  /** The validation of a manuscript, with the record bound to it or without. */
  function ValidateManuscript(rules: Rules, m: Manuscript, bound: Option<Sources>,
                              experiment: Option<Record>): Option<Problem> {
    if !TypedSources(rules, m.sources) then Some(ReferenceInvalid)
    else if bound.Some? && m.sources != bound.value then Some(LineageDiffers)
    else match ValidateSummary(rules, m.summary, experiment, m.sources.experiment)
      case Err(problem) => Some(problem)
      case Ok(summary) =>
        if m.available != summary.Some? then Some(AvailabilityInconsistent)
        else match ManuscriptClaims(rules, m, experiment)
          case Some(problem) => Some(problem)
          case None =>
            if summary.Some? && !(ToSet(summary.value.limitations) <= ToSet(m.limitations)) then
                Some(LimitationsDropped)
            else if !m.sound then Some(TextInvalid)
            else None
  }

  /** The part of the revision's validation that its claims pass through. */
  function ValidateRevisionClaims(rules: Rules, prior: Manuscript, context: Sources, claims: seq<Claim>,
                                  citations: set<string>,
                                  experiment: Option<Record>): Option<Problem>
  {
    if !TypedSources(rules, prior.sources) then Some(ReferenceInvalid)
    else if prior.sources != context then Some(LineageDiffers)
    else match ValidateClaims(rules, claims, context, citations, experiment)
      case Err(problem) => Some(problem)
      case Ok(_) => None
  }

  // The loops

  lemma {:induction false} ReferencesStop(rules: Rules, refs: seq<Reference>, sources: Sources,
                                          experiment: Option<Record>, i: nat, upto: nat)
    requires i <= upto <= |refs| && CheckReferences(rules, refs, sources, experiment, i).Some?
    ensures CheckReferences(rules, refs, sources, experiment, upto)
            == CheckReferences(rules, refs, sources, experiment, i)
  {
    if i < upto {
      ReferencesStop(rules, refs, sources, experiment, i, upto - 1);
    }
  }

  lemma {:induction false} ClaimsStop(rules: Rules, claims: seq<Claim>, sources: Sources, citations: set<string>,
                                      experiment: Option<Record>, summary: Option<Summary>, i: nat, upto: nat)
    requires i <= upto <= |claims| && CheckClaims(rules, claims, sources, citations, experiment, summary, i).Some?
    ensures CheckClaims(rules, claims, sources, citations, experiment, summary, upto)
            == CheckClaims(rules, claims, sources, citations, experiment, summary, i)
  {
    if i < upto {
      ClaimsStop(rules, claims, sources, citations, experiment, summary, i, upto - 1);
    }
  }

  method ValidateEvidenceRefs(rules: Rules, refs: seq<Reference>, sources: Sources, experiment: Option<Record>)
    returns (validated: Result<seq<Reference>, Problem>)
    ensures validated == ValidateReferences(rules, refs, sources, experiment)
  {
    hide CheckReference, ExperimentSummary;
    if |refs| > MAX_REFERENCES {
      return Err(TooManyReferences);
    }
    if experiment.Some? {
      var summary := ExperimentSummary(rules, experiment, sources.experiment);
      if summary.Err? {
        return Err(summary.error);
      }
    }
    var result: seq<Reference> := [];
    for i := 0 to |refs|
      invariant CheckReferences(rules, refs, sources, experiment, i) == None
      invariant result == refs[..i]
    {
      var problem := CheckReference(rules, refs[i], sources, experiment);
      if problem.Some? {
        ReferencesStop(rules, refs, sources, experiment, i + 1, |refs|);
        return Err(problem.value);
      }
      result := result + [refs[i]];
    }
    assert refs[..|refs|] == refs;
    return Ok(result);
  }

  method ValidateClaimList(rules: Rules, claims: seq<Claim>, sources: Sources, citations: set<string>,
                           experiment: Option<Record>)
    returns (validated: Result<seq<Claim>, Problem>)
    ensures validated == ValidateClaims(rules, claims, sources, citations, experiment)
  {
    hide CheckClaim, ExperimentSummary;
    if claims == [] || |claims| > MAX_CLAIMS {
      return Err(ClaimsUnbounded);
    }
    var found := ExperimentSummary(rules, experiment, sources.experiment);
    if found.Err? {
      return Err(found.error);
    }
    var summary := found.value;
    var seen: set<string> := {};
    var result: seq<Claim> := [];
    for i := 0 to |claims|
      invariant CheckClaims(rules, claims, sources, citations, experiment, summary, i) == None
      invariant seen == set k | 0 <= k < i :: claims[k].id
      invariant result == claims[..i]
    {
      var problem := CheckClaim(rules, claims[i], seen, sources, citations, experiment, summary);
      if problem.Some? {
        ClaimsStop(rules, claims, sources, citations, experiment, summary, i + 1, |claims|);
        return Err(problem.value);
      }
      seen := seen + {claims[i].id};
      result := result + [claims[i]];
    }
    assert claims[..|claims|] == claims;
    return Ok(result);
  }

  /** `_validate_sources`: two nested loops over the blocks and their sources. */
  method ValidateSources(blocks: seq<Block>, payload: string,
                         outputs: seq<(string, string)>) returns (problem: Option<Problem>)
    ensures problem == CheckLineage(blocks, payload, outputs, |blocks|)
  {
    for i := 0 to |blocks|
      invariant CheckLineage(blocks, payload, outputs, i) == None
    {
      var content := blocks[i].content;
      for k := 0 to |content.sources|
        invariant CheckSources(content.sources, payload, outputs, k) == None
      {
        problem := CheckSource(content.sources[k], payload, outputs);
        if problem.Some? {
          SourcesStop(content.sources, payload, outputs, k + 1, |content.sources|);
          LineageStops(blocks, payload, outputs, i + 1, |blocks|);
          return;
        }
      }
      if (content.kind.FigureReference? || content.kind.OutputReference?)
          && !IsOutputChecksum(outputs, content.outputChecksum) {
        LineageStops(blocks, payload, outputs, i + 1, |blocks|);
        return Some(ReferenceOutputMismatch);
      }
    }
    return None;
  }

  lemma {:induction false} SourcesStop(sources: seq<Source>, payload: string, outputs: seq<(string, string)>, i: nat,
                                       upto: nat)
    requires i <= upto <= |sources| && CheckSources(sources, payload, outputs, i).Some?
    ensures CheckSources(sources, payload, outputs, upto) == CheckSources(sources, payload, outputs, i)
  {
    if i < upto {
      SourcesStop(sources, payload, outputs, i, upto - 1);
    }
  }

  lemma {:induction false} LineageStops(blocks: seq<Block>, payload: string, outputs: seq<(string, string)>, i: nat,
                                        upto: nat)
    requires i <= upto <= |blocks| && CheckLineage(blocks, payload, outputs, i).Some?
    ensures CheckLineage(blocks, payload, outputs, upto) == CheckLineage(blocks, payload, outputs, i)
  {
    if i < upto {
      LineageStops(blocks, payload, outputs, i, upto - 1);
    }
  }
}

/** What acceptance of a manuscript or revision says about the experiment its results rest on. */
module GroundingTheorems {
  import opened Outcomes
  import opened Sequences
  import opened Evidence

  /** A source that is the evaluated payload or a named execution output of the record. */
  ghost predicate Backed(record: Record, source: Source) {
    if source.kind.ResultPayload? then source.name == "result-payload" && source.checksum == record.receipt.payload
    else (source.name, source.checksum) in record.outputs
  }

  /** A block whose checksum is its content's and whose sources are all backed. */
  ghost predicate Founded(record: Record, block: Block) {
    && block.checksum == ChecksumOf(block.content)
    && (forall s :: s in block.content.sources ==> Backed(record, s))
    && (block.content.kind.FigureReference? || block.content.kind.OutputReference?
        ==> exists o :: o in record.outputs && o.1 == block.content.outputChecksum)
  }

  lemma {:induction false} OutputChecksumIsNamed(outputs: seq<(string, string)>, name: string)
    ensures OutputChecksum(outputs, name).Some? ==> (name, OutputChecksum(outputs, name).value) in outputs
  {
    if outputs != [] && outputs[|outputs| - 1].0 != name {
      OutputChecksumIsNamed(outputs[..|outputs| - 1], name);
    }
  }

  lemma {:induction false} CheckedSources(sources: seq<Source>, payload: string, outputs: seq<(string, string)>,
                                          upto: nat)
    requires upto <= |sources| && CheckSources(sources, payload, outputs, upto).None?
    ensures forall i :: 0 <= i < upto ==> CheckSource(sources[i], payload, outputs).None?
  {
    if upto > 0 {
      CheckedSources(sources, payload, outputs, upto - 1);
    }
  }

  lemma {:induction false} CheckedLineage(blocks: seq<Block>, payload: string, outputs: seq<(string, string)>,
                                          upto: nat)
    requires upto <= |blocks| && CheckLineage(blocks, payload, outputs, upto).None?
    ensures forall i :: 0 <= i < upto ==> CheckBlockLineage(blocks[i], payload, outputs).None?
  {
    if upto > 0 {
      CheckedLineage(blocks, payload, outputs, upto - 1);
    }
  }

  lemma {:induction false} CheckedBlocks(blocks: seq<Block>, upto: nat)
    requires upto <= |blocks| && CheckBlocks(blocks, upto).None?
    ensures forall i :: 0 <= i < upto ==> CheckBlock(blocks[i]).None?
  {
    if upto > 0 {
      CheckedBlocks(blocks, upto - 1);
    }
  }

  /** In a valid record every block is founded, identifiers are unique, and no evidence means no blocks. */
  lemma ValidRecordIsFounded(record: Record)
    requires ValidateRecord(record).None?
    ensures forall b :: b in record.blocks ==> Founded(record, b)
    ensures forall i, j :: 0 <= i < j < |record.blocks| ==> record.blocks[i].content.id != record.blocks[j].content.id
    ensures record.evidenceStatus == "NOT_AVAILABLE" ==> record.blocks == []
  {
    CheckedBlocks(record.blocks, |record.blocks|);
    CheckedLineage(record.blocks, record.evidence.payload, record.outputs, |record.blocks|);
    forall b | b in record.blocks ensures Founded(record, b) {
      var i :| 0 <= i < |record.blocks| && record.blocks[i] == b;
      assert CheckBlock(record.blocks[i]).None?
             && CheckBlockLineage(record.blocks[i], record.evidence.payload, record.outputs).None?;
      BlockIsFounded(record, b);
    }
  }

  lemma BlockIsFounded(record: Record, b: Block)
    requires record.evidence == record.receipt
    requires CheckBlock(b).None? && CheckBlockLineage(b, record.evidence.payload, record.outputs).None?
    ensures Founded(record, b)
  {
    var sources := b.content.sources;
    CheckedSources(sources, record.evidence.payload, record.outputs, |sources|);
    forall s | s in sources ensures Backed(record, s) {
      var k :| 0 <= k < |sources| && sources[k] == s;
      assert CheckSource(sources[k], record.evidence.payload, record.outputs).None?;
      OutputChecksumIsNamed(record.outputs, s.name);
    }
    if b.content.kind.FigureReference? || b.content.kind.OutputReference? {
      var o :| o in record.outputs && OutputChecksum(record.outputs, o.0) == Some(b.content.outputChecksum);
      OutputChecksumIsNamed(record.outputs, o.0);
    }
  }

  // References

  ghost predicate Cites(ref: Reference, block: Block) {
    ref.grounding == Grounding(Some(block.content.id), Some(block.checksum))
  }

  ghost predicate GroundedIn(ref: Reference, record: Record) {
    exists b :: b in record.blocks && Cites(ref, b) && Founded(record, b)
  }

  lemma {:induction false} CheckedReferences(rules: Rules, refs: seq<Reference>, sources: Sources,
                                             experiment: Option<Record>, upto: nat)
    requires upto <= |refs| && CheckReferences(rules, refs, sources, experiment, upto).None?
    ensures forall i :: 0 <= i < upto ==> CheckReference(rules, refs[i], sources, experiment).None?
  {
    if upto > 0 {
      CheckedReferences(rules, refs, sources, experiment, upto - 1);
    }
  }

  /**
   * An accepted reference to the bound experiment is that exact artifact, and it is grounded in a
   * block of the record exactly when its block checksum is a text; null passes without a block.
   */
  lemma AcceptedReferenceIsGrounded(rules: Rules, ref: Reference, sources: Sources, record: Record)
    requires TypedSources(rules, sources) && ValidateRecord(record).None?
    requires CheckReference(rules, ref, sources, Some(record)).None? && ref.artifact.kind == EXPERIMENT_TYPE
    ensures sources.experiment == Some(ref.artifact) && ref.grounding.Grounding?
    ensures GroundedIn(ref, record) <==> ref.grounding.checksum.Some?
  {
    ValidRecordIsFounded(record);
    hide Founded, ValidRef, BoundedText;
    if ref.grounding.block.Some? {
      FirstFinds(record.blocks, (b: Block) => b.content.id == ref.grounding.block.value);
    }
    var found := BlockChecksumFor(Some(record), ref.grounding.block);
    if found.Some? {
      var b := First(record.blocks, (b: Block) => b.content.id == ref.grounding.block.value).value;
      assert b in record.blocks && Cites(ref, b) && Founded(record, b);
    }
  }

  /**
   * What lets null through: any reference that passes but for its grounding passes with a null
   * checksum and an unknown block.
   */
  lemma NullChecksumGroundsNothing(rules: Rules, ref: Reference, sources: Sources, record: Record, id: Option<string>)
    requires ValidateRecord(record).None? && sources.experiment == Some(ref.artifact)
    requires ref.artifact.kind == EXPERIMENT_TYPE && ref.grounding == Grounding(id, None)
    requires id.Some? ==> forall b :: b in record.blocks ==> b.content.id != id.value
    requires CheckReference(rules, ref.(grounding := Ungrounded), sources, Some(record)) == Some(GroundingRequired)
    ensures CheckReference(rules, ref, sources, Some(record)).None? && !GroundedIn(ref, record)
  {
    if id.Some? {
      FirstFinds(record.blocks, (b: Block) => b.content.id == id.value);
    }
  }

  // Claims

  lemma {:induction false} CheckedClaims(rules: Rules, claims: seq<Claim>, sources: Sources, citations: set<string>,
                                         experiment: Option<Record>, summary: Option<Summary>, upto: nat)
    requires upto <= |claims| && CheckClaims(rules, claims, sources, citations, experiment, summary, upto).None?
    ensures forall i :: 0 <= i < upto ==>
              CheckClaim(rules, claims[i], set k | 0 <= k < i :: claims[k].id, sources, citations, experiment,
                         summary).None?
  {
    if upto > 0 {
      CheckedClaims(rules, claims, sources, citations, experiment, summary, upto - 1);
    }
  }

  ghost predicate SupportedResult(claim: Claim) { claim.kind == "RESULT" && claim.support == "SUPPORTED" }

  /** What the acceptance of one supported result says. */
  ghost predicate RestsOnExperiment(claim: Claim, sources: Sources, record: Record) {
    && (exists r :: r in claim.references && sources.experiment == Some(r.artifact))
    && (forall r :: r in claim.references && r.artifact.kind == EXPERIMENT_TYPE ==>
          sources.experiment == Some(r.artifact) && r.grounding.Grounding?
          && (GroundedIn(r, record) <==> r.grounding.checksum.Some?))
    && record.evidenceStatus != "NOT_AVAILABLE"
    && (claim.qualification == "BOUNDED_SCIENTIFIC_CLAIM" ==>
          record.processOutcome == "SUCCEEDED" && record.evaluationValidity == "VALID"
          && record.evidenceStatus == "SUPPORTS_BOUNDED_FINDINGS"
          && claim.boundaries != [] && forall b :: b in claim.boundaries ==> b in record.boundaries)
    && (claim.qualification != "BOUNDED_SCIENTIFIC_CLAIM" ==>
          claim.qualification == "DESCRIPTIVE_OBSERVATION" && claim.limitations != [])
  }

  lemma AcceptedResultRests(rules: Rules, claim: Claim, seen: set<string>, sources: Sources, citations: set<string>,
                            record: Record)
    requires TypedSources(rules, sources) && ValidateRecord(record).None? && sources.experiment.Some?
    requires CheckClaim(rules, claim, seen, sources, citations, Some(record),
                        Some(SummaryOf(record, sources.experiment.value))).None?
    requires SupportedResult(claim)
    ensures RestsOnExperiment(claim, sources, record)
  {
    var refs := claim.references;
    hide ValidateRecord, TypedSources, BoundedTexts, BoundedText, FirstOccurrences, GroundedIn, CheckReference;
    CheckedReferences(rules, refs, sources, Some(record), |refs|);
    forall r | r in refs && r.artifact.kind == EXPERIMENT_TYPE
      ensures sources.experiment == Some(r.artifact) && r.grounding.Grounding?
              && (GroundedIn(r, record) <==> r.grounding.checksum.Some?)
    {
      var i :| 0 <= i < |refs| && refs[i] == r;
      AcceptedReferenceIsGrounded(rules, r, sources, record);
    }
    assert forall b :: b in claim.boundaries ==> b in ToSet(claim.boundaries);
  }

  /** In accepted claims identities differ, and every supported result rests on the bound experiment. */
  lemma AcceptedClaimsRest(rules: Rules, claims: seq<Claim>, sources: Sources, citations: set<string>, record: Record)
    requires TypedSources(rules, sources) && ValidateClaims(rules, claims, sources, citations, Some(record)).Ok?
    ensures ValidateRecord(record).None? && sources.experiment.Some?
    ensures forall i, j :: 0 <= i < j < |claims| ==> claims[i].id != claims[j].id
    ensures forall i :: 0 <= i < |claims| && SupportedResult(claims[i]) ==>
            RestsOnExperiment(claims[i], sources, record)
  {
    hide ValidateRecord, TypedSources, SupportedResult, RestsOnExperiment, SummaryOf;
    var summary := Some(SummaryOf(record, sources.experiment.value));
    CheckedClaims(rules, claims, sources, citations, Some(record), summary, |claims|);
    forall i | 0 <= i < |claims| && SupportedResult(claims[i]) ensures RestsOnExperiment(claims[i], sources, record) {
      AcceptedResultRests(rules, claims[i], set k | 0 <= k < i :: claims[k].id, sources, citations, record);
    }
    hide ValidateReferences, CheckResult, BoundedText, BoundedTexts;
    forall i, j | 0 <= i < j < |claims| ensures claims[i].id != claims[j].id {
      var seen := set k | 0 <= k < j :: claims[k].id;
      assert claims[i].id in seen;
      assert CheckClaim(rules, claims[j], seen, sources, citations, Some(record), summary).None?;
    }
  }

  /** Every supported result rests on the supplied record; without one there is none. */
  ghost predicate Grounded(claims: seq<Claim>, sources: Sources, experiment: Option<Record>) {
    forall i :: 0 <= i < |claims| && SupportedResult(claims[i]) ==>
      experiment.Some? && RestsOnExperiment(claims[i], sources, experiment.value)
  }

  /** Validated claims are grounded, whether a record is supplied or not. */
  lemma ValidatedClaimsAreGrounded(rules: Rules, claims: seq<Claim>, sources: Sources, citations: set<string>,
                                   experiment: Option<Record>)
    requires TypedSources(rules, sources) && ValidateClaims(rules, claims, sources, citations, experiment).Ok?
    ensures Grounded(claims, sources, experiment)
    ensures experiment.Some? && experiment.value.evidenceStatus == "NOT_AVAILABLE"
            ==> forall i :: 0 <= i < |claims| ==> !SupportedResult(claims[i])
  {
    hide ValidateRecord, SupportedResult;
    match experiment
    case Some(record) => AcceptedClaimsRest(rules, claims, sources, citations, record);
    case None =>
      hide BoundedTexts, BoundedText;
      CheckedClaims(rules, claims, sources, citations, None, None, |claims|);
      forall i | 0 <= i < |claims| ensures !SupportedResult(claims[i]) {
        UnboundResultFails(rules, claims[i], set k | 0 <= k < i :: claims[k].id, sources, citations);
      }
  }

  /** Without an experiment no accepted reference is an experiment's, so no result is supported. */
  lemma UnboundResultFails(rules: Rules, claim: Claim, seen: set<string>, sources: Sources, citations: set<string>)
    requires TypedSources(rules, sources) && sources.experiment.None?
    requires CheckClaim(rules, claim, seen, sources, citations, None, None).None?
    ensures !SupportedResult(claim)
  {
    hide BoundedTexts, BoundedText;
    var refs := claim.references;
    CheckedReferences(rules, refs, sources, None, |refs|);
    forall r | r in refs ensures r.artifact.kind != EXPERIMENT_TYPE {
      var i :| 0 <= i < |refs| && refs[i] == r;
      assert CheckReference(rules, refs[i], sources, None).None?;
    }
  }

  /**
   * Transitive grounding of an accepted manuscript: if its record is supplied, or it carries no
   * summary, every supported result rests on the record; a NOT_AVAILABLE record admits none, and
   * a supplied record's limitations are kept.
   */
  lemma ManuscriptIsGrounded(rules: Rules, m: Manuscript, bound: Option<Sources>, experiment: Option<Record>)
    requires ValidateManuscript(rules, m, bound, experiment).None? && (experiment.Some? || m.summary.None?)
    ensures Grounded(m.claims, m.sources, experiment)
    ensures experiment.Some? && experiment.value.evidenceStatus == "NOT_AVAILABLE"
            ==> forall i :: 0 <= i < |m.claims| ==> !SupportedResult(m.claims[i])
    ensures experiment.Some? ==>
              forall l :: l in experiment.value.resultLimitations + experiment.value.lifecycleLimitations ==>
                  l in m.limitations
  {
    hide ValidateRecord, TypedSources, ValidateClaims, SupportedResult, CheckSummaryFormat;
    ValidatedClaimsAreGrounded(rules, m.claims, m.sources, m.citations, experiment);
    if experiment.Some? {
      var limitations := experiment.value.resultLimitations + experiment.value.lifecycleLimitations;
      FirstOccurrencesHold(limitations);
      assert m.summary == Some(SummaryOf(experiment.value, m.sources.experiment.value));
      assert ToSet(FirstOccurrences(limitations)) <= ToSet(m.limitations);
      forall l | l in limitations ensures l in m.limitations {
        assert l in ToSet(FirstOccurrences(limitations));
      }
    }
  }

  const UNGROUNDED := Claim("", "RESULT", "", "", "SUPPORTED", [], [], [], "", [])

  /** A manuscript with a given summary and one supported result that cites nothing. */
  function Unchecked(summary: Summary): Manuscript {
    Manuscript(Sources(ArtifactRef("artifact-", "selected-research-idea/v1", summary.artifact.sha),
                       ArtifactRef("artifact-", "selected-paper-library/v1", summary.artifact.sha),
                           Some(summary.artifact)),
               Some(summary), true, [UNGROUNDED], {}, summary.limitations, true)
  }

  /** Validated without its record, a manuscript with any well formed summary may claim any result. */
  lemma UngroundedManuscriptPasses(rules: Rules, summary: Summary)
    requires CheckSummaryFormat(rules, summary, Some(summary.artifact)).None?
    ensures ValidateManuscript(rules, Unchecked(summary), None, None).None?
    ensures SupportedResult(UNGROUNDED) && !Grounded(Unchecked(summary).claims, Unchecked(summary).sources, None)
  {
    hide BoundedTexts;
    assert SupportedResult(Unchecked(summary).claims[0]);
  }

  /**
   * Acceptance grounds the claims exactly when the record is supplied, or there is no summary, or
   * the summary is not even well formed, which is refused.
   */
  lemma AcceptanceGroundsExactly(rules: Rules, experiment: Option<Record>, summary: Option<Summary>)
    ensures (forall m: Manuscript, bound ::
               m.summary == summary && ValidateManuscript(rules, m, bound, experiment).None? ==>
                 Grounded(m.claims, m.sources, experiment))
            <==>
            experiment.Some? || summary.None?
            || CheckSummaryFormat(rules, summary.value, Some(summary.value.artifact)).Some?
  {
    hide Grounded;
    if experiment.Some? || summary.None? {
      forall m: Manuscript, bound | m.summary == summary && ValidateManuscript(rules, m, bound, experiment).None?
        ensures Grounded(m.claims, m.sources, experiment)
      {
        ManuscriptIsGrounded(rules, m, bound, experiment);
      }
    } else if CheckSummaryFormat(rules, summary.value, Some(summary.value.artifact)).None? {
      UngroundedManuscriptPasses(rules, summary.value);
      assert Unchecked(summary.value).summary == summary;
    } else {
      forall m: Manuscript, bound | m.summary == summary ensures ValidateManuscript(rules, m, bound, experiment).Some? {
        MalformedSummaryFails(rules, summary.value, m.sources.experiment);
      }
    }
  }

  lemma MalformedSummaryFails(rules: Rules, summary: Summary, reference: Option<ArtifactRef>)
    requires CheckSummaryFormat(rules, summary, Some(summary.artifact)).Some?
    ensures CheckSummaryFormat(rules, summary, reference).Some?
  {
    hide BoundedTexts, ValidRef;
  }

  lemma {:induction false} FirstOccurrencesHold(texts: seq<string>)
    ensures forall t :: t in FirstOccurrences(texts) <==> t in texts
    ensures NoRepeats(FirstOccurrences(texts))
  {
    if texts != [] {
      var front, last := texts[..|texts| - 1], texts[|texts| - 1];
      assert texts == front + [last];
      FirstOccurrencesHold(front);
    }
  }

  /** The claims of an accepted revision are always validated, and so grounded. */
  lemma RevisionIsGrounded(rules: Rules, prior: Manuscript, context: Sources, claims: seq<Claim>,
                           citations: set<string>,
                           experiment: Option<Record>)
    requires ValidateRevisionClaims(rules, prior, context, claims, citations, experiment).None?
    ensures Grounded(claims, prior.sources, experiment)
    ensures experiment.Some? && experiment.value.evidenceStatus == "NOT_AVAILABLE"
            ==> forall i :: 0 <= i < |claims| ==> !SupportedResult(claims[i])
  {
    hide ValidateRecord, TypedSources, ValidateClaims, SupportedResult;
    ValidatedClaimsAreGrounded(rules, claims, context, citations, experiment);
  }
}
