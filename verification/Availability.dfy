/** Which manuscript evidence a review may rely on: the producer of the list and its checker. */
module Availability {
  import opened Outcomes
  import opened Sequences
  import opened Texts

  const MAX_ENTRIES: nat := 300

  datatype Artifact = Artifact(id: string, kind: string, sha: string)

  /** What makes two references one: the exact artifact, the item and the location. */
  datatype EvidenceKey = EvidenceKey(artifact: Artifact, item: string, location: string)

  datatype Reference = Reference(key: EvidenceKey, availability: string, limitation: Option<string>)

  datatype Entry = Entry(key: EvidenceKey, availability: string, limitation: Option<string>)

  /** The texts counted as blank, and the formats of an artifact reference. */
  datatype Rules = Rules(blank: Blank, artifact: Artifact -> bool)

  const NOT_BOUND := "Referenced Artifact is not explicitly bound to Review"
  const LIMITED_SCOPE := "Manuscript records limited evidence scope"

  datatype Problem =
    | Unbounded | ArtifactInvalid | BlankText | AvailabilityInvalid
    | BoundUnavailable | UnboundAvailable | Duplicated | Incomplete

  predicate HasText(limitation: Option<string>) { limitation.Some? && limitation.value != "" }

  /** The entry of one reference. */
  function Classify(ref: Reference, bound: set<Artifact>): Entry {
    if ref.key.artifact !in bound then Entry(ref.key, "UNAVAILABLE", Some(NOT_BOUND))
    else if ref.availability != "AVAILABLE" || HasText(ref.limitation) then
      Entry(ref.key, "SCOPE_LIMITED", if HasText(ref.limitation) then ref.limitation else Some(LIMITED_SCOPE))
    else Entry(ref.key, "AVAILABLE", None)
  }

  function Keys(refs: seq<Reference>): set<EvidenceKey> { set r | r in refs :: r.key }

  /** The references whose key did not come before. */
  function FirstSeen(refs: seq<Reference>): seq<Reference> {
    if refs == [] then []
    else
      var front, last := refs[..|refs| - 1], refs[|refs| - 1];
      if last.key in Keys(front) then FirstSeen(front) else FirstSeen(front) + [last]
  }

  function Produced(refs: seq<Reference>, bound: set<Artifact>): seq<Entry> {
    Map((r: Reference) => Classify(r, bound), FirstSeen(refs))
  }

  function CheckEntry(rules: Rules, e: Entry, supporting: set<Artifact>, seen: set<EvidenceKey>): Option<Problem> {
    if !rules.artifact(e.key.artifact) then Some(ArtifactInvalid)
    else if !NonBlank(rules.blank, e.key.item) || !NonBlank(rules.blank, e.key.location) then Some(BlankText)
    else if e.availability != "AVAILABLE" && e.availability != "UNAVAILABLE"
        && e.availability != "SCOPE_LIMITED" then Some(AvailabilityInvalid)
    else if e.limitation.Some? && !NonBlank(rules.blank, e.limitation.value) then Some(BlankText)
    else if e.availability == "UNAVAILABLE" && e.key.artifact in supporting then Some(BoundUnavailable)
    else if e.availability != "UNAVAILABLE" && e.key.artifact !in supporting then Some(UnboundAvailable)
    else if e.key in seen then Some(Duplicated)
    else None
  }

  function EntryKeys(entries: seq<Entry>): set<EvidenceKey> { set e | e in entries :: e.key }

  function CheckEntries(rules: Rules, entries: seq<Entry>, supporting: set<Artifact>, upto: nat): Option<Problem>
    requires upto <= |entries|
  {
    if upto == 0 then None
    else match CheckEntries(rules, entries, supporting, upto - 1)
      case Some(problem) => Some(problem)
      case None => CheckEntry(rules, entries[upto - 1], supporting, EntryKeys(entries[..upto - 1]))
  }

  function Checked(rules: Rules, entries: seq<Entry>, supporting: set<Artifact>,
                   refs: Option<seq<Reference>>): Result<seq<Entry>, Problem> {
    if |entries| > MAX_ENTRIES then Err(Unbounded)
    else match CheckEntries(rules, entries, supporting, |entries|)
      case Some(problem) => Err(problem)
      case None => if refs.Some? && EntryKeys(entries) != Keys(refs.value) then Err(Incomplete) else Ok(entries)
  }

  // The two loops

  method EvidenceAvailability(refs: seq<Reference>, bound: set<Artifact>) returns (result: seq<Entry>)
    ensures result == Produced(refs, bound)
  {
    result := [];
    var seen: set<EvidenceKey> := {};
    for i := 0 to |refs|
      invariant seen == Keys(refs[..i])
      invariant result == Produced(refs[..i], bound)
    {
      var ref := refs[i];
      assert refs[..i + 1] == refs[..i] + [ref];
      if ref.key !in seen {
        seen := seen + {ref.key};
        result := result + [Classify(ref, bound)];
      }
    }
    assert refs[..|refs|] == refs;
  }

  lemma {:induction false} CheckStops(rules: Rules, entries: seq<Entry>, supporting: set<Artifact>, i: nat, upto: nat)
    requires i <= upto <= |entries| && CheckEntries(rules, entries, supporting, i).Some?
    ensures CheckEntries(rules, entries, supporting, upto) == CheckEntries(rules, entries, supporting, i)
  {
    if i < upto {
      CheckStops(rules, entries, supporting, i, upto - 1);
    }
  }

  method ReviewEvidenceAvailability(rules: Rules, entries: seq<Entry>, supporting: set<Artifact>,
                                    refs: Option<seq<Reference>>)
    returns (checked: Result<seq<Entry>, Problem>)
    ensures checked == Checked(rules, entries, supporting, refs)
  {
    hide CheckEntry;
    if |entries| > MAX_ENTRIES {
      return Err(Unbounded);
    }
    var normalized: seq<Entry> := [];
    var seen: set<EvidenceKey> := {};
    for i := 0 to |entries|
      invariant CheckEntries(rules, entries, supporting, i) == None
      invariant normalized == entries[..i] && seen == EntryKeys(entries[..i])
    {
      var e := entries[i];
      assert entries[..i + 1] == entries[..i] + [e];
      var problem := CheckEntry(rules, e, supporting, seen);
      if problem.Some? {
        CheckStops(rules, entries, supporting, i + 1, |entries|);
        return Err(problem.value);
      }
      seen := seen + {e.key};
      normalized := normalized + [e];
    }
    assert entries[..|entries|] == entries;
    if refs.Some? && seen != Keys(refs.value) {
      return Err(Incomplete);
    }
    return Ok(normalized);
  }

  // First-seen order

  ghost predicate FirstAt(refs: seq<Reference>, i: nat)
    requires i < |refs|
  {
    forall j :: 0 <= j < i ==> refs[j].key != refs[i].key
  }

  /** Places in the references that grow and are each the first of their key, one for each key. */
  ghost predicate FirstPlaces(refs: seq<Reference>, places: seq<nat>) {
    && (forall k :: 0 <= k < |places| ==> places[k] < |refs| && FirstAt(refs, places[k]))
    && (forall k, l :: 0 <= k < l < |places| ==> places[k] < places[l])
    && (forall i :: 0 <= i < |refs| && FirstAt(refs, i) ==> i in places)
  }

  lemma FrontFirst(refs: seq<Reference>, i: nat)
    requires i < |refs| - 1
    ensures FirstAt(refs[..|refs| - 1], i) <==> FirstAt(refs, i)
  {
    var front := refs[..|refs| - 1];
    assert forall j :: 0 <= j < |front| ==> front[j] == refs[j];
  }

  lemma LastFirst(refs: seq<Reference>)
    requires refs != []
    ensures FirstAt(refs, |refs| - 1) <==> refs[|refs| - 1].key !in Keys(refs[..|refs| - 1])
  {
    var front, last := refs[..|refs| - 1], refs[|refs| - 1];
    assert forall j :: 0 <= j < |front| ==> front[j] == refs[j] && front[j] in front;
    if last.key in Keys(front) {
      var r :| r in front && r.key == last.key;
      var j :| 0 <= j < |front| && front[j] == r;
      assert refs[j].key == last.key;
    }
  }

  lemma FurtherPlaces(refs: seq<Reference>, earlier: seq<nat>, places: seq<nat>)
    requires refs != [] && FirstPlaces(refs[..|refs| - 1], earlier)
    requires forall i :: 0 <= i < |refs| - 1 ==> (FirstAt(refs, i) <==> FirstAt(refs[..|refs| - 1], i))
    requires places == if FirstAt(refs, |refs| - 1) then earlier + [|refs| - 1] else earlier
    ensures FirstPlaces(refs, places)
  {
    hide FirstAt;
    forall i | 0 <= i < |refs| && FirstAt(refs, i) ensures i in places {
      assert i < |refs| - 1 ==> i in earlier;
    }
  }

  lemma {:induction false} FirstSeenPlaces(refs: seq<Reference>) returns (places: seq<nat>)
    ensures FirstPlaces(refs, places) && |places| == |FirstSeen(refs)|
    ensures forall k :: 0 <= k < |places| ==> FirstSeen(refs)[k] == refs[places[k]]
  {
    hide FirstAt, Keys;
    if refs == [] {
      places := [];
    } else {
      var n := |refs| - 1;
      var front := refs[..n];
      var earlier := FirstSeenPlaces(front);
      LastFirst(refs);
      forall i | 0 <= i < n ensures FirstAt(refs, i) <==> FirstAt(front, i) { FrontFirst(refs, i); }
      places := if refs[n].key in Keys(front) then earlier else earlier + [n];
      FurtherPlaces(refs, earlier, places);
    }
  }

  ghost predicate KeysApart(refs: seq<Reference>) {
    forall k, l :: 0 <= k < l < |refs| ==> refs[k].key != refs[l].key
  }

  lemma KeysExtend(firsts: seq<Reference>, last: Reference)
    ensures Keys(firsts + [last]) == Keys(firsts) + {last.key}
    ensures KeysApart(firsts) && last.key !in Keys(firsts) ==> KeysApart(firsts + [last])
  {
    assert forall k :: 0 <= k < |firsts| ==> firsts[k] in firsts && firsts[k].key in Keys(firsts);
  }

  lemma {:induction false} FirstSeenKeys(refs: seq<Reference>)
    ensures Keys(FirstSeen(refs)) == Keys(refs) && KeysApart(FirstSeen(refs))
  {
    if refs != [] {
      var front, last := refs[..|refs| - 1], refs[|refs| - 1];
      FirstSeenKeys(front);
      assert refs == front + [last];
      assert Keys(refs) == Keys(front) + {last.key};
      KeysExtend(FirstSeen(front), last);
    }
  }

  lemma ProducedAt(refs: seq<Reference>, bound: set<Artifact>)
    ensures |Produced(refs, bound)| == |FirstSeen(refs)|
    ensures forall k :: 0 <= k < |FirstSeen(refs)| ==>
              Produced(refs, bound)[k] == Classify(FirstSeen(refs)[k], bound)
                  && Produced(refs, bound)[k].key == FirstSeen(refs)[k].key
  {
  }

  lemma ProducedKeys(refs: seq<Reference>, bound: set<Artifact>)
    ensures EntryKeys(Produced(refs, bound)) == Keys(refs)
    ensures forall k, l :: 0 <= k < l < |Produced(refs, bound)| ==>
            Produced(refs, bound)[k].key != Produced(refs, bound)[l].key
  {
    var firsts, produced := FirstSeen(refs), Produced(refs, bound);
    FirstSeenKeys(refs);
    ProducedAt(refs, bound);
    hide Produced, Classify, FirstSeen;
    forall key ensures key in EntryKeys(produced) <==> key in Keys(firsts) {
      if key in EntryKeys(produced) {
        var e :| e in produced && e.key == key;
        var k :| 0 <= k < |produced| && produced[k] == e;
        assert firsts[k] in firsts;
      }
      if key in Keys(firsts) {
        var r :| r in firsts && r.key == key;
        var k :| 0 <= k < |firsts| && firsts[k] == r;
        assert produced[k] in produced;
      }
    }
  }

  /**
   * The list has one entry for each distinct key, in the order the keys came first, and each says
   * whether the artifact is bound and whether its scope is limited.
   */
  lemma EachReferenceOnce(refs: seq<Reference>, bound: set<Artifact>) returns (places: seq<nat>)
    ensures FirstPlaces(refs, places) && |Produced(refs, bound)| == |places|
    ensures forall k :: 0 <= k < |places| ==>
              var e, r := Produced(refs, bound)[k], refs[places[k]];
              && e.key == r.key
              && (e.availability == "UNAVAILABLE" <==> r.key.artifact !in bound)
              && (e.availability == "AVAILABLE" <==>
                    r.key.artifact in bound && r.availability == "AVAILABLE" && !HasText(r.limitation))
              && (e.limitation.None? <==> e.availability == "AVAILABLE")
    ensures forall k, l :: 0 <= k < l < |places| ==> Produced(refs, bound)[k].key != Produced(refs, bound)[l].key
    ensures EntryKeys(Produced(refs, bound)) == Keys(refs)
  {
    hide FirstAt, Keys, FirstSeen;
    places := FirstSeenPlaces(refs);
    ProducedAt(refs, bound);
    ProducedKeys(refs, bound);
  }

  // Producer and checker agree

  /**
   * What the checker needs of a reference: a formatted artifact, named places, no blank limitation
   * where one is shown.
   */
  predicate WellFormed(rules: Rules, ref: Reference, bound: set<Artifact>) {
    && rules.artifact(ref.key.artifact) && NonBlank(rules.blank, ref.key.item)
        && NonBlank(rules.blank, ref.key.location)
    && (ref.key.artifact in bound && HasText(ref.limitation) ==> NonBlank(rules.blank, ref.limitation.value))
  }

  /** The two fixed limitations are not blank. */
  predicate Sensible(rules: Rules) { NonBlank(rules.blank, NOT_BOUND) && NonBlank(rules.blank, LIMITED_SCOPE) }

  lemma ClassifiedPasses(rules: Rules, ref: Reference, bound: set<Artifact>, seen: set<EvidenceKey>)
    requires Sensible(rules) && ref.key !in seen
    ensures CheckEntry(rules, Classify(ref, bound), bound, seen).None? <==> WellFormed(rules, ref, bound)
  {
  }

  lemma {:induction false} ProducedPasses(rules: Rules, seen: seq<Reference>, entries: seq<Entry>,
                                          bound: set<Artifact>, upto: nat)
    requires Sensible(rules) && upto <= |entries| == |seen|
    requires forall k :: 0 <= k < |seen| ==> entries[k] == Classify(seen[k], bound)
    requires forall k, l :: 0 <= k < l < |entries| ==> entries[k].key != entries[l].key
    ensures CheckEntries(rules, entries, bound, upto).None? <==> forall k :: 0 <= k < upto ==>
            WellFormed(rules, seen[k], bound)
  {
    hide CheckEntry, WellFormed, Classify;
    if upto > 0 {
      ProducedPasses(rules, seen, entries, bound, upto - 1);
      var earlier := EntryKeys(entries[..upto - 1]);
      assert seen[upto - 1].key !in earlier by {
        assert entries[upto - 1].key == seen[upto - 1].key by { ClassifyKeepsKey(seen[upto - 1], bound); }
        forall e | e in entries[..upto - 1] ensures e.key != entries[upto - 1].key {
          var k :| 0 <= k < upto - 1 && entries[..upto - 1][k] == e;
        }
      }
      ClassifiedPasses(rules, seen[upto - 1], bound, earlier);
    }
  }

  lemma ClassifyKeepsKey(ref: Reference, bound: set<Artifact>)
    ensures Classify(ref, bound).key == ref.key
  {
  }

  /**
   * For the same bindings the checker accepts what the producer lists exactly when the distinct
   * keys are at most 300 and each first-seen reference is well formed, and it returns it unchanged.
   */
  lemma ProducerAndCheckerAgree(rules: Rules, refs: seq<Reference>, bound: set<Artifact>)
    requires Sensible(rules)
    ensures var produced := Produced(refs, bound);
            var checked := Checked(rules, produced, bound, Some(refs));
            && (checked.Ok? <==> |Keys(refs)| <= MAX_ENTRIES && forall k :: 0 <= k < |FirstSeen(refs)| ==>
                WellFormed(rules, FirstSeen(refs)[k], bound))
            && (checked.Ok? ==> checked.value == produced)
  {
    var produced := Produced(refs, bound);
    ProducedAt(refs, bound);
    ProducedKeys(refs, bound);
    hide WellFormed, Classify, CheckEntry, Produced, FirstSeen, Keys, EntryKeys;
    ProducedPasses(rules, FirstSeen(refs), produced, bound, |produced|);
    DistinctKeys(produced, |produced|);
    assert produced[..|produced|] == produced;
  }

  lemma {:induction false} DistinctKeys(entries: seq<Entry>, upto: nat)
    requires upto <= |entries| && forall k, l :: 0 <= k < l < |entries| ==> entries[k].key != entries[l].key
    ensures |EntryKeys(entries[..upto])| == upto
  {
    if upto > 0 {
      DistinctKeys(entries, upto - 1);
      var front := entries[..upto - 1];
      assert entries[..upto] == front + [entries[upto - 1]];
      assert EntryKeys(entries[..upto]) == EntryKeys(front) + {entries[upto - 1].key};
      assert entries[upto - 1].key !in EntryKeys(front);
    }
  }
}
