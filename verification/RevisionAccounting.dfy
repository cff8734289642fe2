/** Issue accounting of a revision: review issues, plan items and accounting entries, by identifier. */
module RevisionAccounting {
  import opened Outcomes
  import opened Sequences
  import opened Texts

  const MAX_ISSUES: nat := 100
  const MAX_PLAN_ITEMS: nat := 30
  const MAX_LISTED: nat := 100

  /** `sound` stands for the tests on the other fields of the same element. */
  datatype Issue = Issue(id: string, blocking: bool, sound: bool)

  datatype Entry = Entry(id: string, disposition: string, limitation: Option<string>, sound: bool)

  /** Of the evidence entries only their availability matters here. */
  datatype Review = Review(assessment: string, availability: seq<string>, issues: seq<Issue>)

  datatype Problem =
    | IssuesInvalid | IssueRepeated | AssessmentInvalid | AssessmentConflicts | NoRevisionAction
    | BlankText | DispositionInvalid | LimitationMissing | ContentInvalid
    | PlanInvalid | PlanRepeated | PlanIncomplete | AccountingInvalid | AccountedTwice | IssueInvented
    | AccountingIncomplete | PlanDiffers | RemainingInconsistent

  function IssueIds(issues: seq<Issue>): set<string> { set i | i in issues :: i.id }

  function EntryIds(entries: seq<Entry>): set<string> { set e | e in entries :: e.id }

  // Review issues

  function CheckIssues(blank: Blank, issues: seq<Issue>, upto: nat): Option<Problem>
    requires upto <= |issues|
  {
    if upto == 0 then None
    else match CheckIssues(blank, issues, upto - 1)
      case Some(problem) => Some(problem)
      case None =>
        var issue := issues[upto - 1];
        if !NonBlank(blank, issue.id) then Some(BlankText)
        else if issue.id in IssueIds(issues[..upto - 1]) then Some(IssueRepeated)
        else if !issue.sound then Some(ContentInvalid)
        else None
  }

  function ReviewIssues(blank: Blank, issues: seq<Issue>): Option<Problem> {
    if |issues| > MAX_ISSUES then Some(IssuesInvalid) else CheckIssues(blank, issues, |issues|)
  }

  predicate HasBlocking(issues: seq<Issue>) { exists k :: 0 <= k < |issues| && issues[k].blocking }

  /** The issue and assessment part of the v2 review validation. */
  function ValidateReview(blank: Blank, review: Review): Option<Problem> {
    match ReviewIssues(blank, review.issues)
    case Some(problem) => Some(problem)
    case None =>
      if review.assessment !in ["NO_BLOCKING_ISSUES", "REVISION_REQUIRED", "INSUFFICIENT_EVIDENCE"] then
        Some(AssessmentInvalid)
      else if review.assessment == "NO_BLOCKING_ISSUES" && HasBlocking(review.issues) then Some(AssessmentConflicts)
      else if review.assessment == "REVISION_REQUIRED" && !HasBlocking(review.issues) then Some(AssessmentConflicts)
      else if review.assessment == "INSUFFICIENT_EVIDENCE" && "UNAVAILABLE" !in review.availability then
        Some(AssessmentConflicts)
      else None
  }

  // Plan items and accounting entries

  predicate RevisionDisposition(disposition: string) {
    disposition == "ADDRESSED" || disposition == "PARTIALLY_ADDRESSED" || disposition == "NOT_ADDRESSED"
  }

  /** What remains of an issue must be said unless it is addressed. */
  function CheckContent(blank: Blank, e: Entry): Option<Problem> {
    if !RevisionDisposition(e.disposition) then Some(DispositionInvalid)
    else if !e.sound then Some(ContentInvalid)
    else if e.disposition != "ADDRESSED" && e.limitation.None? then Some(LimitationMissing)
    else if e.limitation.Some? && !NonBlank(blank, e.limitation.value) then Some(LimitationMissing)
    else None
  }

  function CheckPlan(blank: Blank, plan: seq<Entry>, upto: nat): Option<Problem>
    requires upto <= |plan|
  {
    if upto == 0 then None
    else match CheckPlan(blank, plan, upto - 1)
      case Some(problem) => Some(problem)
      case None =>
        var item := plan[upto - 1];
        if !NonBlank(blank, item.id) then Some(BlankText)
        else if item.id in EntryIds(plan[..upto - 1]) then Some(PlanRepeated)
        else CheckContent(blank, item)
  }

  function CheckAccounting(blank: Blank, entries: seq<Entry>, issues: seq<Issue>, upto: nat): Option<Problem>
    requires upto <= |entries|
  {
    if upto == 0 then None
    else match CheckAccounting(blank, entries, issues, upto - 1)
      case Some(problem) => Some(problem)
      case None =>
        var e := entries[upto - 1];
        if !NonBlank(blank, e.id) then Some(BlankText)
        else if e.id in EntryIds(entries[..upto - 1]) then Some(AccountedTwice)
        else if e.id !in IssueIds(issues) then Some(IssueInvented)
        else CheckContent(blank, e)
  }

  function RevisionIssueAccounting(blank: Blank, entries: seq<Entry>, issues: seq<Issue>): Option<Problem> {
    if entries == [] || |entries| > MAX_ISSUES then Some(AccountingInvalid)
    else match CheckAccounting(blank, entries, issues, |entries|)
      case Some(problem) => Some(problem)
      case None => if EntryIds(entries) != IssueIds(issues) then Some(AccountingIncomplete) else None
  }

  // Remaining blocking issues

  function EntryFor(entries: seq<Entry>, id: string): Option<Entry> { First(entries, (e: Entry) => e.id == id) }

  predicate Unresolved(entries: seq<Entry>, issue: Issue) {
    issue.blocking
        && !(EntryFor(entries, issue.id).Some? && EntryFor(entries, issue.id).value.disposition == "ADDRESSED")
  }

  function Remaining(entries: seq<Entry>, issues: seq<Issue>): seq<string> {
    Map((i: Issue) => i.id, Filter(issues, (i: Issue) => Unresolved(entries, i)))
  }

  datatype Revision = Revision(plan: seq<Entry>, accounting: seq<Entry>, remaining: seq<string>, remainingCount: int)

  predicate TextList(blank: Blank, texts: seq<string>) {
    |texts| <= MAX_LISTED && forall i :: 0 <= i < |texts| ==> NonBlank(blank, texts[i])
  }

  /** Plan, accounting and remaining list of a v3 revision, against the causal review's issues. */
  function ValidatePlan(blank: Blank, r: Revision, issues: seq<Issue>): Option<Problem> {
    if r.plan == [] || |r.plan| > MAX_PLAN_ITEMS then Some(PlanInvalid)
    else match CheckPlan(blank, r.plan, |r.plan|)
      case Some(problem) => Some(problem)
      case None =>
        if EntryIds(r.plan) != IssueIds(issues) then Some(PlanIncomplete)
        else match RevisionIssueAccounting(blank, r.accounting, issues)
          case Some(problem) => Some(problem)
          case None =>
            if !TextList(blank, r.remaining) then Some(RemainingInconsistent)
            else if EntryIds(r.plan) != EntryIds(r.accounting) then Some(PlanDiffers)
            else if r.remaining != Remaining(r.accounting, issues) || !NoRepeats(r.remaining)
                    || (exists k :: 0 <= k < |r.remaining| && r.remaining[k] !in EntryIds(r.plan))
                    || r.remainingCount != |r.remaining| then Some(RemainingInconsistent)
            else None
  }

  /** The review, plan and accounting part of the v3 validation. */
  function ValidateRevision(blank: Blank, r: Revision, review: Review): Option<Problem> {
    match ValidateReview(blank, review)
    case Some(problem) => Some(problem)
    case None =>
      if review.assessment == "INSUFFICIENT_EVIDENCE" then Some(NoRevisionAction)
      else if review.assessment == "NO_BLOCKING_ISSUES" && review.issues == [] then Some(NoRevisionAction)
      else ValidatePlan(blank, r, review.issues)
  }

  // The loops

  lemma {:induction false} AccountingStops(blank: Blank, entries: seq<Entry>, issues: seq<Issue>, i: nat, upto: nat)
    requires i <= upto <= |entries| && CheckAccounting(blank, entries, issues, i).Some?
    ensures CheckAccounting(blank, entries, issues, upto) == CheckAccounting(blank, entries, issues, i)
  {
    if i < upto {
      AccountingStops(blank, entries, issues, i, upto - 1);
    }
  }

  lemma {:induction false} IssuesStop(blank: Blank, issues: seq<Issue>, i: nat, upto: nat)
    requires i <= upto <= |issues| && CheckIssues(blank, issues, i).Some?
    ensures CheckIssues(blank, issues, upto) == CheckIssues(blank, issues, i)
  {
    if i < upto {
      IssuesStop(blank, issues, i, upto - 1);
    }
  }

  method CheckReviewIssues(blank: Blank, issues: seq<Issue>) returns (problem: Option<Problem>)
    ensures problem == ReviewIssues(blank, issues)
  {
    if |issues| > MAX_ISSUES {
      return Some(IssuesInvalid);
    }
    var seen: set<string> := {};
    for i := 0 to |issues|
      invariant CheckIssues(blank, issues, i) == None && seen == IssueIds(issues[..i])
    {
      var issue := issues[i];
      assert issues[..i + 1] == issues[..i] + [issue];
      if !NonBlank(blank, issue.id) || issue.id in seen || !issue.sound {
        IssuesStop(blank, issues, i + 1, |issues|);
        return if !NonBlank(blank, issue.id) then Some(BlankText) else if issue.id in seen then Some(IssueRepeated)
            else Some(ContentInvalid);
      }
      seen := seen + {issue.id};
    }
    return None;
  }

  lemma {:induction false} PlanStops(blank: Blank, plan: seq<Entry>, i: nat, upto: nat)
    requires i <= upto <= |plan| && CheckPlan(blank, plan, i).Some?
    ensures CheckPlan(blank, plan, upto) == CheckPlan(blank, plan, i)
  {
    if i < upto {
      PlanStops(blank, plan, i, upto - 1);
    }
  }

  /** The loop over the plan; the identifiers it collects are those of the items. */
  method PlanIssueIds(blank: Blank, plan: seq<Entry>) returns (ids: Result<set<string>, Problem>)
    ensures ids == match CheckPlan(blank, plan,
                                   |plan|) case Some(problem) => Err(problem) case None => Ok(EntryIds(plan))
  {
    hide CheckContent;
    var collected: set<string> := {};
    for i := 0 to |plan|
      invariant CheckPlan(blank, plan, i) == None && collected == EntryIds(plan[..i])
    {
      var item := plan[i];
      assert plan[..i + 1] == plan[..i] + [item];
      var problem := if !NonBlank(blank, item.id) then Some(BlankText)
          else if item.id in collected then Some(PlanRepeated) else CheckContent(blank, item);
      if problem.Some? {
        PlanStops(blank, plan, i + 1, |plan|);
        return Err(problem.value);
      }
      collected := collected + {item.id};
    }
    assert plan[..|plan|] == plan;
    return Ok(collected);
  }

  method AccountForIssues(blank: Blank, entries: seq<Entry>, issues: seq<Issue>) returns (problem: Option<Problem>)
    ensures problem == RevisionIssueAccounting(blank, entries, issues)
  {
    hide CheckContent;
    if entries == [] || |entries| > MAX_ISSUES {
      return Some(AccountingInvalid);
    }
    var seen: set<string> := {};
    for i := 0 to |entries|
      invariant CheckAccounting(blank, entries, issues, i) == None && seen == EntryIds(entries[..i])
    {
      var e := entries[i];
      assert entries[..i + 1] == entries[..i] + [e];
      if !NonBlank(blank, e.id) {
        problem := Some(BlankText);
      } else if e.id in seen {
        problem := Some(AccountedTwice);
      } else if e.id !in IssueIds(issues) {
        problem := Some(IssueInvented);
      } else {
        problem := CheckContent(blank, e);
      }
      if problem.Some? {
        AccountingStops(blank, entries, issues, i + 1, |entries|);
        return;
      }
      seen := seen + {e.id};
    }
    assert entries[..|entries|] == entries;
    return if seen != IssueIds(issues) then Some(AccountingIncomplete) else None;
  }

  // What acceptance says

  ghost predicate IssuesApart(issues: seq<Issue>) { forall i, j :: 0 <= i < j < |issues| ==>
      issues[i].id != issues[j].id }

  ghost predicate EntriesApart(entries: seq<Entry>) { forall i, j :: 0 <= i < j < |entries| ==>
      entries[i].id != entries[j].id }

  lemma {:induction false} CheckedIssues(blank: Blank, issues: seq<Issue>, upto: nat)
    requires upto <= |issues| && CheckIssues(blank, issues, upto).None?
    ensures IssuesApart(issues[..upto])
  {
    if upto > 0 {
      CheckedIssues(blank, issues, upto - 1);
      var front := issues[..upto - 1];
      assert issues[..upto] == front + [issues[upto - 1]];
      assert forall k :: 0 <= k < |front| ==> front[k] in front && front[k].id in IssueIds(front);
    }
  }

  lemma {:induction false} CheckedPlan(blank: Blank, plan: seq<Entry>, upto: nat)
    requires upto <= |plan| && CheckPlan(blank, plan, upto).None?
    ensures EntriesApart(plan[..upto])
  {
    hide CheckContent;
    if upto > 0 {
      CheckedPlan(blank, plan, upto - 1);
      EntryIsNew(plan, upto - 1);
    }
  }

  lemma {:induction false} CheckedAccounting(blank: Blank, entries: seq<Entry>, issues: seq<Issue>, upto: nat)
    requires upto <= |entries| && CheckAccounting(blank, entries, issues, upto).None?
    ensures EntriesApart(entries[..upto])
    ensures forall i :: 0 <= i < upto ==> CheckContent(blank, entries[i]).None?
  {
    hide CheckContent;
    if upto > 0 {
      CheckedAccounting(blank, entries, issues, upto - 1);
      EntryIsNew(entries, upto - 1);
    }
  }

  lemma EntryIsNew(entries: seq<Entry>, i: nat)
    requires i < |entries| && EntriesApart(entries[..i]) && entries[i].id !in EntryIds(entries[..i])
    ensures EntriesApart(entries[..i + 1])
  {
    var front := entries[..i];
    assert entries[..i + 1] == front + [entries[i]];
    assert forall k :: 0 <= k < |front| ==> front[k] in front && front[k].id in EntryIds(front);
  }

  /** The entries and the issues correspond one to one by identifier. */
  ghost predicate OneToOne(entries: seq<Entry>, issues: seq<Issue>) {
    && |entries| == |issues|
    && (forall k :: 0 <= k < |issues| ==> HasOneEntry(entries, issues[k].id))
    && (forall j :: 0 <= j < |entries| ==> HasIssue(issues, entries[j].id))
  }

  ghost predicate HasOneEntry(entries: seq<Entry>,
                              id: string) { exists j: nat :: j < |entries| && Only(entries, j, id) }

  ghost predicate HasIssue(issues: seq<Issue>, id: string) { exists k: nat :: k < |issues| && issues[k].id == id }

  ghost predicate Only(entries: seq<Entry>, j: nat, id: string)
    requires j < |entries|
  {
    entries[j].id == id && forall l :: 0 <= l < |entries| && entries[l].id == id ==> l == j
  }

  lemma {:induction false} ApartCount(entries: seq<Entry>, upto: nat)
    requires upto <= |entries| && EntriesApart(entries)
    ensures |EntryIds(entries[..upto])| == upto
  {
    if upto > 0 {
      ApartCount(entries, upto - 1);
      var front := entries[..upto - 1];
      assert entries[..upto] == front + [entries[upto - 1]];
      assert EntryIds(entries[..upto]) == EntryIds(front) + {entries[upto - 1].id};
      assert entries[upto - 1].id !in EntryIds(front);
    }
  }

  lemma {:induction false} IssuesCount(issues: seq<Issue>, upto: nat)
    requires upto <= |issues| && IssuesApart(issues)
    ensures |IssueIds(issues[..upto])| == upto
  {
    if upto > 0 {
      IssuesCount(issues, upto - 1);
      var front := issues[..upto - 1];
      assert issues[..upto] == front + [issues[upto - 1]];
      assert IssueIds(issues[..upto]) == IssueIds(front) + {issues[upto - 1].id};
      assert issues[upto - 1].id !in IssueIds(front);
    }
  }

  /** Separate identifiers on both sides and equal sets of them are a bijection. */
  lemma SameIdsCorrespond(entries: seq<Entry>, issues: seq<Issue>)
    requires EntriesApart(entries) && IssuesApart(issues) && EntryIds(entries) == IssueIds(issues)
    ensures OneToOne(entries, issues)
  {
    ApartCount(entries, |entries|);
    IssuesCount(issues, |issues|);
    assert entries[..|entries|] == entries && issues[..|issues|] == issues;
    assert |entries| == |issues|;
    forall k | 0 <= k < |issues| ensures HasOneEntry(entries, issues[k].id) {
      assert issues[k] in issues && issues[k].id in EntryIds(entries);
      var e :| e in entries && e.id == issues[k].id;
      var j :| 0 <= j < |entries| && entries[j] == e;
      assert Only(entries, j, issues[k].id);
    }
    forall j | 0 <= j < |entries| ensures HasIssue(issues, entries[j].id) {
      assert entries[j] in entries && entries[j].id in IssueIds(issues);
      var i :| i in issues && i.id == entries[j].id;
      var k :| 0 <= k < |issues| && issues[k] == i;
      assert issues[k].id == entries[j].id;
    }
    assert OneToOne(entries, issues);
  }

  function Count(issues: seq<Issue>, p: Issue -> bool): nat { |Filter(issues, p)| }

  predicate AddressedBlocking(entries: seq<Entry>, issue: Issue) { issue.blocking && !Unresolved(entries, issue) }

  lemma {:induction false} BlockingSplits(entries: seq<Entry>, issues: seq<Issue>)
    ensures Count(issues, (i: Issue) => Unresolved(entries, i))
            + Count(issues, (i: Issue) => AddressedBlocking(entries, i))
            == Count(issues, (i: Issue) => i.blocking)
  {
    hide Unresolved;
    if issues != [] {
      BlockingSplits(entries, issues[1..]);
      assert Unresolved(entries, issues[0]) ==> issues[0].blocking by { UnresolvedBlocks(entries, issues[0]); }
    }
  }

  lemma UnresolvedBlocks(entries: seq<Entry>, issue: Issue)
    ensures Unresolved(entries, issue) ==> issue.blocking
  {
  }

  /**
   * In an accepted v3 revision, plan items, accounting entries and review issues correspond one to
   * one, and the remaining list is exactly the blocking issues whose entry is not ADDRESSED; none
   * remain unless the review required the revision.
   */
  lemma AcceptedRevisionAccounts(blank: Blank, r: Revision, review: Review)
    requires ValidateRevision(blank, r, review).None?
    ensures var issues := review.issues;
            && OneToOne(r.plan, issues) && OneToOne(r.accounting, issues)
            && 1 <= |issues| <= MAX_PLAN_ITEMS
            && r.remaining == Remaining(r.accounting, issues) && r.remainingCount == |r.remaining|
            && r.remainingCount + Count(issues, (i: Issue) => AddressedBlocking(r.accounting, i))
               == Count(issues, (i: Issue) => i.blocking)
    ensures review.assessment != "REVISION_REQUIRED" ==> r.remaining == []
    ensures forall j :: 0 <= j < |r.accounting| ==>
              && EntryFor(r.accounting, r.accounting[j].id) == Some(r.accounting[j])
              && RevisionDisposition(r.accounting[j].disposition)
              && (r.accounting[j].disposition != "ADDRESSED" ==> r.accounting[j].limitation.Some?)
  {
    RevisedReview(blank, r, review);
    AcceptedIdsApart(blank, r, review.issues);
    AcceptedRemaining(blank, r, review.issues);
    hide ValidateRevision, OneToOne, EntriesApart, IssuesApart, Filter, Unresolved;
    SameIdsCorrespond(r.plan, review.issues);
    SameIdsCorrespond(r.accounting, review.issues);
    Correspondence(r.plan, review.issues);
    BlockingSplits(r.accounting, review.issues);
    forall j | 0 <= j < |r.accounting|
      ensures EntryFor(r.accounting, r.accounting[j].id) == Some(r.accounting[j])
    {
      LookupIsUnique(r.accounting, j);
    }
    if review.assessment != "REVISION_REQUIRED" {
      NoBlockingRemains(r.accounting, review.issues);
    }
  }

  /** What a revised review has passed: its issues are valid and block exactly when it required a revision. */
  lemma RevisedReview(blank: Blank, r: Revision, review: Review)
    requires ValidateRevision(blank, r, review).None?
    ensures ReviewIssues(blank, review.issues).None? && ValidatePlan(blank, r, review.issues).None?
    ensures ValidateReview(blank, review).None? && review.assessment != "INSUFFICIENT_EVIDENCE"
    ensures review.assessment == "REVISION_REQUIRED" <==> HasBlocking(review.issues)
  {
    hide ReviewIssues, ValidatePlan;
  }

  lemma NoBlockingRemains(entries: seq<Entry>, issues: seq<Issue>)
    requires !HasBlocking(issues)
    ensures Remaining(entries, issues) == []
  {
    forall i | i in issues ensures !Unresolved(entries, i) {
      var k :| 0 <= k < |issues| && issues[k] == i;
    }
    FilterAll(issues, (i: Issue) => Unresolved(entries, i));
  }

  lemma AcceptedRemaining(blank: Blank, r: Revision, issues: seq<Issue>)
    requires ValidatePlan(blank, r, issues).None?
    ensures r.remaining == Remaining(r.accounting, issues) && r.remainingCount == |r.remaining|
    ensures |r.remaining| == Count(issues, (i: Issue) => Unresolved(r.accounting, i))
    ensures 1 <= |r.plan| <= MAX_PLAN_ITEMS
  {
    hide CheckIssues, CheckPlan, CheckAccounting, Filter, Unresolved, EntryIds, IssueIds, NoRepeats, TextList;
  }

  lemma AcceptedIdsApart(blank: Blank, r: Revision, issues: seq<Issue>)
    requires ReviewIssues(blank, issues).None? && ValidatePlan(blank, r, issues).None?
    ensures IssuesApart(issues) && EntriesApart(r.plan) && EntriesApart(r.accounting)
    ensures EntryIds(r.plan) == IssueIds(issues) == EntryIds(r.accounting)
    ensures forall j :: 0 <= j < |r.accounting| ==>
              && RevisionDisposition(r.accounting[j].disposition)
              && (r.accounting[j].disposition != "ADDRESSED" ==> r.accounting[j].limitation.Some?)
  {
    CheckedIssues(blank, issues, |issues|);
    CheckedPlan(blank, r.plan, |r.plan|);
    CheckedAccounting(blank, r.accounting, issues, |r.accounting|);
    hide CheckIssues, CheckPlan, CheckAccounting, Remaining, TextList, NoRepeats;
    assert issues[..|issues|] == issues && r.plan[..|r.plan|] == r.plan
           && r.accounting[..|r.accounting|] == r.accounting;
    forall j | 0 <= j < |r.accounting|
      ensures RevisionDisposition(r.accounting[j].disposition)
              && (r.accounting[j].disposition != "ADDRESSED" ==> r.accounting[j].limitation.Some?)
    {
      assert CheckContent(blank, r.accounting[j]).None?;
    }
  }

  lemma Correspondence(entries: seq<Entry>, issues: seq<Issue>)
    requires OneToOne(entries, issues)
    ensures |entries| == |issues|
  {
  }

  lemma LookupIsUnique(entries: seq<Entry>, j: nat)
    requires EntriesApart(entries) && j < |entries|
    ensures EntryFor(entries, entries[j].id) == Some(entries[j])
  {
    FirstFinds(entries, (e: Entry) => e.id == entries[j].id);
    assert entries[j] in entries;
    var found := EntryFor(entries, entries[j].id).value;
    var k :| 0 <= k < |entries| && entries[k] == found;
  }

  // Which reviews can be revised

  /** The answer that addresses every issue. */
  function Addressed(issues: seq<Issue>): (entries: seq<Entry>)
    ensures |entries| == |issues|
  {
    Map((i: Issue) => Entry(i.id, "ADDRESSED", None, true), issues)
  }

  lemma {:induction false} ValidIssueIds(blank: Blank, issues: seq<Issue>, upto: nat)
    requires upto <= |issues| && CheckIssues(blank, issues, upto).None?
    ensures forall k :: 0 <= k < upto ==> NonBlank(blank, issues[k].id) && issues[k].id !in IssueIds(issues[..k])
  {
    if upto > 0 {
      ValidIssueIds(blank, issues, upto - 1);
    }
  }

  lemma AddressedIds(issues: seq<Issue>, upto: nat)
    requires upto <= |issues|
    ensures EntryIds(Addressed(issues)[..upto]) == IssueIds(issues[..upto])
  {
    var front, entries := issues[..upto], Addressed(issues)[..upto];
    assert forall k :: 0 <= k < upto ==> entries[k].id == front[k].id && entries[k] in entries && front[k] in front;
    forall id ensures id in EntryIds(entries) <==> id in IssueIds(front) {
      if id in EntryIds(entries) {
        var e :| e in entries && e.id == id;
        var k :| 0 <= k < upto && entries[k] == e;
      }
      if id in IssueIds(front) {
        var i :| i in front && i.id == id;
        var k :| 0 <= k < upto && front[k] == i;
      }
    }
  }

  lemma {:induction false} AddressedPasses(blank: Blank, issues: seq<Issue>, upto: nat)
    requires upto <= |issues| && CheckIssues(blank, issues, |issues|).None?
    ensures CheckPlan(blank, Addressed(issues), upto).None?
    ensures CheckAccounting(blank, Addressed(issues), issues, upto).None?
  {
    if upto > 0 {
      AddressedPasses(blank, issues, upto - 1);
      ValidIssueIds(blank, issues, |issues|);
      AddressedIds(issues, upto - 1);
      assert issues[upto - 1] in issues;
    }
  }

  lemma AddressedLeavesNothing(issues: seq<Issue>)
    ensures Remaining(Addressed(issues), issues) == []
  {
    var entries := Addressed(issues);
    forall i | i in issues ensures !Unresolved(entries, i) {
      var k :| 0 <= k < |issues| && issues[k] == i;
      assert entries[k] in entries && entries[k].id == i.id;
      FirstFinds(entries, (e: Entry) => e.id == i.id);
      var found := EntryFor(entries, i.id).value;
      var j :| 0 <= j < |entries| && entries[j] == found;
    }
    FilterAll(issues, (i: Issue) => Unresolved(entries, i));
  }

  /**
   * A review can be revised exactly when it is valid, has one to thirty issues and does not end in
   * INSUFFICIENT_EVIDENCE.
   */
  lemma RevisableExactly(blank: Blank, review: Review)
    ensures (exists r :: ValidateRevision(blank, r, review).None?)
            <==> && ValidateReview(blank, review).None?
                 && 1 <= |review.issues| <= MAX_PLAN_ITEMS && review.assessment != "INSUFFICIENT_EVIDENCE"
  {
    if r :| ValidateRevision(blank, r, review).None? {
      AcceptedRevisionAccounts(blank, r, review);
      RevisedReview(blank, r, review);
    }
    if ValidateReview(blank, review).None?
       && 1 <= |review.issues| <= MAX_PLAN_ITEMS && review.assessment != "INSUFFICIENT_EVIDENCE" {
      AllAddressedIsAccepted(blank, review);
    }
  }

  lemma AllAddressedIsAccepted(blank: Blank, review: Review)
    requires ValidateReview(blank, review).None?
    requires 1 <= |review.issues| <= MAX_PLAN_ITEMS && review.assessment != "INSUFFICIENT_EVIDENCE"
    ensures ValidateRevision(blank, Revision(Addressed(review.issues), Addressed(review.issues), [], 0), review).None?
  {
    var issues := review.issues;
    AddressedPasses(blank, issues, |issues|);
    AddressedIds(issues, |issues|);
    AddressedLeavesNothing(issues);
    assert issues[..|issues|] == issues && Addressed(issues)[..|issues|] == Addressed(issues);
    hide CheckPlan, CheckAccounting, CheckIssues, Addressed, Remaining;
  }

  // The v5 accounting

  /** `{entry["issue_id"]: entry["disposition"]}`: the last entry of an issue decides. */
  function LastDisposition(entries: seq<Entry>, id: string): Option<string> {
    if entries == [] then None
    else if entries[|entries| - 1].id == id then Some(entries[|entries| - 1].disposition)
    else LastDisposition(entries[..|entries| - 1], id)
  }

  function RemainingV5(entries: seq<Entry>, issues: seq<Issue>): seq<string> {
    Map((i: Issue) => i.id,
        Filter(issues, (i: Issue) => i.blocking && LastDisposition(entries, i.id) != Some("ADDRESSED")))
  }

  predicate DispositionV5(disposition: string) { RevisionDisposition(disposition) || disposition == "NOT_APPLICABLE" }

  function ValidateAccountingV5(entries: seq<Entry>, issues: seq<Issue>, remaining: seq<string>,
                                count: int): Option<Problem> {
    if EntryIds(entries) != IssueIds(issues) then Some(AccountingIncomplete)
    else if exists k :: 0 <= k < |entries| && !DispositionV5(entries[k].disposition) then Some(DispositionInvalid)
    else if remaining != RemainingV5(entries, issues) || count != |remaining| then Some(RemainingInconsistent)
    else None
  }

  lemma {:induction false} LastDispositionIgnoresFront(front: Entry, entries: seq<Entry>, id: string)
    requires id in EntryIds(entries)
    ensures LastDisposition([front] + entries, id) == LastDisposition(entries, id)
  {
    var n := |entries| - 1;
    assert ([front] + entries)[..n + 1] == [front] + entries[..n];
    if entries[n].id != id {
      assert id in EntryIds(entries[..n]) by {
        var e :| e in entries && e.id == id;
        var k :| 0 <= k < |entries| && entries[k] == e;
        assert entries[..n][k] == e;
      }
      LastDispositionIgnoresFront(front, entries[..n], id);
    }
  }

  /** The v5 accounting is no bijection: a contradicting earlier entry for a known issue passes unseen. */
  lemma ContradictionPassesV5(entries: seq<Entry>, issues: seq<Issue>, remaining: seq<string>, count: int, extra: Entry)
    requires ValidateAccountingV5(entries, issues, remaining, count).None?
    requires extra.id in IssueIds(issues) && DispositionV5(extra.disposition)
    ensures ValidateAccountingV5([extra] + entries, issues, remaining, count).None?
    ensures !EntriesApart([extra] + entries)
  {
    var all := [extra] + entries;
    assert extra.id in EntryIds(entries);
    var e :| e in entries && e.id == extra.id;
    var k :| 0 <= k < |entries| && entries[k] == e;
    assert all[0].id == all[k + 1].id;
    assert EntryIds(all) == EntryIds(entries);
    forall i | i in issues ensures LastDisposition(all, i.id) == LastDisposition(entries, i.id) {
      assert i.id in IssueIds(issues);
      LastDispositionIgnoresFront(extra, entries, i.id);
    }
    FilterCongruent(issues, (i: Issue) => i.blocking && LastDisposition(all, i.id) != Some("ADDRESSED"),
                (i: Issue) => i.blocking && LastDisposition(entries, i.id) != Some("ADDRESSED"));
  }

  /** Nor do equal counts make it one: the v3 review validation lets an issue identifier repeat. */
  lemma RepeatedIssuePassesV5(id: string)
    ensures var issues := [Issue(id, true, true), Issue(id, true, true)];
            var entries := [Entry(id, "ADDRESSED", None, true), Entry(id, "NOT_ADDRESSED", None, true)];
            && ValidateAccountingV5(entries, issues, [id, id], 2).None?
            && |entries| == |issues| && !EntriesApart(entries) && !OneToOne(entries, issues)
  {
    var issues := [Issue(id, true, true), Issue(id, true, true)];
    var entries := [Entry(id, "ADDRESSED", None, true), Entry(id, "NOT_ADDRESSED", None, true)];
    assert entries[0] in entries && issues[0] in issues;
    assert EntryIds(entries) == {id} && IssueIds(issues) == {id};
    assert LastDisposition(entries, id) == Some("NOT_ADDRESSED");
    FilterAll(issues, (i: Issue) => i.blocking && LastDisposition(entries, i.id) != Some("ADDRESSED"));
    assert RemainingV5(entries, issues) == [id, id];
    assert entries[0].id == entries[1].id;
    if OneToOne(entries, issues) {
      OneToOneIsApart(entries, issues);
    }
  }

  lemma OneToOneIsApart(entries: seq<Entry>, issues: seq<Issue>)
    requires OneToOne(entries, issues)
    ensures EntriesApart(entries)
  {
    forall i, j | 0 <= i < j < |entries| ensures entries[i].id != entries[j].id {
      assert HasIssue(issues, entries[i].id);
      var k: nat :| k < |issues| && issues[k].id == entries[i].id;
      assert HasOneEntry(entries, issues[k].id);
      var only: nat :| only < |entries| && Only(entries, only, issues[k].id);
    }
  }

  /**
   * It is one exactly when there are as many entries as issues and no issue identifier repeats; the
   * review's validation does not see to the second.
   */
  lemma OneToOneExactlyV5(entries: seq<Entry>, issues: seq<Issue>, remaining: seq<string>, count: int)
    requires ValidateAccountingV5(entries, issues, remaining, count).None?
    ensures OneToOne(entries, issues) <==> |entries| == |issues| && IssuesApart(issues)
  {
    assert issues[..|issues|] == issues && entries[..|entries|] == entries;
    if |entries| == |issues| && IssuesApart(issues) {
      IssuesCount(issues, |issues|);
      FullCountIsApart(entries, |entries|);
      SameIdsCorrespond(entries, issues);
    }
    if OneToOne(entries, issues) {
      OneToOneIsApart(entries, issues);
      ApartCount(entries, |entries|);
      FullIssueCountIsApart(issues, |issues|);
    }
  }

  lemma {:induction false} FullIssueCountIsApart(issues: seq<Issue>, upto: nat)
    requires upto <= |issues|
    ensures |IssueIds(issues[..upto])| <= upto
    ensures |IssueIds(issues[..upto])| == upto ==> IssuesApart(issues[..upto])
  {
    if upto > 0 {
      FullIssueCountIsApart(issues, upto - 1);
      var front := issues[..upto - 1];
      assert issues[..upto] == front + [issues[upto - 1]];
      assert IssueIds(issues[..upto]) == IssueIds(front) + {issues[upto - 1].id};
      if issues[upto - 1].id in IssueIds(front) {
        assert IssueIds(issues[..upto]) == IssueIds(front);
      } else {
        assert forall k :: 0 <= k < |front| ==> front[k] in front && front[k].id in IssueIds(front);
      }
    }
  }

  /** As many identifiers as entries means no identifier twice. */
  lemma {:induction false} FullCountIsApart(entries: seq<Entry>, upto: nat)
    requires upto <= |entries|
    ensures |EntryIds(entries[..upto])| <= upto
    ensures |EntryIds(entries[..upto])| == upto ==> EntriesApart(entries[..upto])
  {
    if upto > 0 {
      FullCountIsApart(entries, upto - 1);
      var front := entries[..upto - 1];
      assert entries[..upto] == front + [entries[upto - 1]];
      assert EntryIds(entries[..upto]) == EntryIds(front) + {entries[upto - 1].id};
      if entries[upto - 1].id in EntryIds(front) {
        assert EntryIds(entries[..upto]) == EntryIds(front);
      } else {
        assert forall k :: 0 <= k < |front| ==> front[k] in front && front[k].id in EntryIds(front);
      }
    }
  }
}
