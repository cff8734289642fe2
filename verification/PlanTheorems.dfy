/** Which decision is current, and what a materialisation plan holds. */
module PlanTheorems {
  import opened Outcomes
  import opened Ordering
  import opened Sequences
  import opened Bindings
  import opened BindingTheorems

  // The latest decision

  lemma LatestIsGreatest(n: Naming, decisions: seq<Decision>)
    ensures match Latest(n, decisions)
            case None => decisions == []
            case Some(d) => d in decisions && forall e :: e in decisions ==>
                KeyLeq(DecisionKey(n)(e), DecisionKey(n)(d))
  {
    GreatestIsMaximal(decisions, DecisionKey(n));
  }

  /** A matching decision is current exactly when no other matching one is later. */
  lemma CurrentIsLatest(n: Naming, s: Store, owner: Owner, requirements: seq<Requirement>, d: Decision)
    requires Faithful(n) && Orderly(n, s) && d in s.decisions && d.content.owner == owner
    ensures var setup := Evaluate(n, requirements, ActiveListed(n, s.bindings, owner), DecisionsOf(s.decisions, owner));
            && (setup.current == Some(d) <==>
                  && Matches(d, setup.checksum, setup.omitted)
                  && forall e ::
                       e in s.decisions && e.content.owner == owner && Matches(e, setup.checksum, setup.omitted) ==>
                         KeyLeq(DecisionKey(n)(e), DecisionKey(n)(d)))
  {
    hide ActiveListed, BindingSet, Uncovered, BindingsOrderly, AllRecorded, Latest, Matches;
    var setup := Evaluate(n, requirements, ActiveListed(n, s.bindings, owner), DecisionsOf(s.decisions, owner));
    var owned := DecisionsOf(s.decisions, owner);
    var matching := Filter(owned, (e: Decision) => Matches(e, setup.checksum, setup.omitted));
    InFilter(s.decisions, (e: Decision) => e.content.owner == owner);
    InFilter(owned, (e: Decision) => Matches(e, setup.checksum, setup.omitted));
    LatestIsGreatest(n, matching);
    assert setup.current == Latest(n, matching);
    if setup.current.Some? && d in matching {
      var c := setup.current.value;
      KeyOrder(DecisionKey(n)(c), DecisionKey(n)(d));
      SameIdSameDecision(s.decisions, c, d);
    }
  }

  lemma SameIdSameDecision(decisions: seq<Decision>, c: Decision, d: Decision)
    requires DecisionsApart(decisions) && c in decisions && d in decisions
    ensures c.id == d.id ==> c == d
  {
    var i :| 0 <= i < |decisions| && decisions[i] == c;
    var j :| 0 <= j < |decisions| && decisions[j] == d;
  }

  /**
   * The decision a confirmation returns, new or replayed, is the one the setup then shows exactly
   * when no decision for the same bindings and omissions has a later time and identifier.
   */
  lemma ConfirmedIsCurrentUnlessLater(n: Naming, w: World, s: Store, owner: Owner, omitted: seq<string>, key: string,
                                      now: int)
    requires Faithful(n) && Orderly(n, s) && Confirm(n, w, s, owner, omitted, key, now).1.Ok?
    ensures owner.consumer in w.instances
    ensures var (s', confirmed) := Confirm(n, w, s, owner, omitted, key, now);
            var setup := SetupOf(n, w, s', owner, w.instances[owner.consumer]);
            && Matches(confirmed.value, setup.checksum, setup.omitted)
            && (setup.current == Some(confirmed.value) <==>
                  forall e :: e in s'.decisions && e.content.owner == owner && Matches(e, setup.checksum, setup.omitted)
                    ==> KeyLeq(DecisionKey(n)(e), DecisionKey(n)(confirmed.value)))
  {
    var (s', confirmed) := Confirm(n, w, s, owner, omitted, key, now);
    ConfirmFacts(n, w, s, owner, omitted, key, now);
    ConfirmKeepsOrderly(n, w, s, owner, omitted, key, now);
    hide Orderly, ActiveListed, BindingSet, Uncovered, RequirementsOf, Matches, Confirm;
    CurrentIsLatest(n, s', owner, RequirementsOf(w, w.instances[owner.consumer]), confirmed.value);
  }

  lemma NewConfirmation(n: Naming, w: World, s: Store, owner: Owner, omitted: seq<string>, key: string, now: int)
    requires var (s', confirmed) := Confirm(n, w, s, owner, omitted, key, now); confirmed.Ok? && s' != s
    ensures var (s', confirmed) := Confirm(n, w, s, owner, omitted, key, now);
            && owner.consumer in w.instances
            && s'.decisions == s.decisions + [confirmed.value] && confirmed.value.content.decidedAt == now
  {
    hide ActiveListed, Evaluate, Matches, BindingSet, Uncovered;
    ConfirmFacts(n, w, s, owner, omitted, key, now);
  }

  /** Under a clock that has moved on, a new confirmation is always the current decision. */
  lemma FreshConfirmationIsCurrent(n: Naming, w: World, s: Store, owner: Owner, omitted: seq<string>, key: string,
                                   now: int)
    requires Faithful(n) && Orderly(n, s)
    requires forall d :: d in s.decisions && d.content.owner == owner ==> d.content.decidedAt < now
    requires var (s', confirmed) := Confirm(n, w, s, owner, omitted, key, now); confirmed.Ok? && s' != s
    ensures var (s', confirmed) := Confirm(n, w, s, owner, omitted, key, now);
            owner.consumer in w.instances
            && SetupOf(n, w, s', owner, w.instances[owner.consumer]).current == Some(confirmed.value)
  {
    hide Orderly, Faithful, Confirm, SetupOf, Matches, KeyLeq, DecisionKey;
    NewConfirmation(n, w, s, owner, omitted, key, now);
    ConfirmedIsCurrentUnlessLater(n, w, s, owner, omitted, key, now);
    var (s', confirmed) := Confirm(n, w, s, owner, omitted, key, now);
    forall e | e in s'.decisions && e.content.owner == owner
      ensures KeyLeq(DecisionKey(n)(e), DecisionKey(n)(confirmed.value))
    {
      DecidedBefore(n, e, confirmed.value);
    }
  }

  lemma DecidedBefore(n: Naming, e: Decision, d: Decision)
    requires e == d || e.content.decidedAt < d.content.decidedAt
    ensures KeyLeq(DecisionKey(n)(e), DecisionKey(n)(d))
  {
    KeyOrder(DecisionKey(n)(e), DecisionKey(n)(d));
  }

  // A decision that stopped being current

  /** An event leaves a consumer's bindings as they were, or outdates all rows known before it. */
  lemma UntouchedOrOutdated(n: Naming, s: Store, e: Event, owner: Owner, rows: seq<Row>)
    requires Orderly(n, s) && AllKnown(s.bindings, owner, rows)
    ensures AllKnown(Next(n, s, e).bindings, owner, rows)
    ensures BindingsOf(Next(n, s, e).bindings, owner) == BindingsOf(s.bindings, owner)
            || Outdated(Next(n, s, e).bindings, owner, rows)
  {
    hide Bind, Confirm, AllRecorded, AllKnown, Outdated, BindingsOf;
    NextIsOrderly(n, s, e);
    KnownSurvives(s.bindings, Next(n, s, e).bindings, owner, rows);
    match e
    case Binds(w, request, now) =>
      BindFacts(n, w, s, request, now);
      var (s', bound) := Bind(n, w, s, request, now);
      if bound.Ok? && !bound.value.replayed {
        var active := ActiveFor(n, s.bindings, request.owner, request.requirement);
        if request.owner == owner {
          MovesOutdate(s.bindings, active, now, bound.value.binding, s'.bindings, owner, rows);
        } else {
          MovedElsewhere(s.bindings, active, now, bound.value.binding, s'.bindings, owner);
        }
      }
    case Confirms(w, o, omitted, key, now) => ConfirmFacts(n, w, s, o, omitted, key, now);
  }

  lemma {:induction false} UntouchedUnlessOutdated(n: Naming, s: Store, events: seq<Event>, owner: Owner,
                                                   rows: seq<Row>)
    requires Orderly(n, s) && AllKnown(s.bindings, owner, rows) && !Outdated(After(n, s, events).bindings, owner, rows)
    ensures BindingsOf(After(n, s, events).bindings, owner) == BindingsOf(s.bindings, owner)
    decreases |events|
  {
    hide Orderly, AllKnown, Outdated, BindingsOf;
    if events != [] {
      var next := Next(n, s, events[0]);
      NextIsOrderly(n, s, events[0]);
      UntouchedOrOutdated(n, s, events[0], owner, rows);
      if Outdated(next.bindings, owner, rows) {
        OutdatedForGood(n, next, events[1..], owner, rows);
      }
      UntouchedUnlessOutdated(n, next, events[1..], owner, rows);
    }
  }

  /**
   * Once a stored decision is not the current one, no later history makes it current again, even
   * if the same artifacts are bound again, unless an ACTIVE binding is then beyond the list limit;
   * the requirements are those of one workflow version.
   */
  lemma StoppedDecisionNeverReturns(n: Naming, s: Store, events: seq<Event>, owner: Owner,
                                    requirements: seq<Requirement>, d: Decision)
    requires Faithful(n) && Orderly(n, s) && d in s.decisions && d.content.owner == owner
             && !IsCurrent(n, s, owner, requirements, d)
    ensures var t := After(n, s, events);
            IsCurrent(n, t, owner, requirements, d) ==> !AllActiveListed(n, t.bindings, owner)
  {
    var t := After(n, s, events);
    var rows := d.content.bindingSet.rows;
    HistoryIsOrderly(n, s, events);
    assert Recorded(n, s.bindings, d) && Recorded(n, t.bindings, d);
    assert AllKnown(s.bindings, owner, rows);
    hide BindingsOrderly, AllRecorded, DecisionsApart, ActiveListed, BindingSet, BindingsOf, Evaluate, Uncovered,
        Tidy, Faithful,
         AllActiveListed, AllKnown, Recorded;
    CurrentIsLatest(n, s, owner, requirements, d);
    CurrentIsLatest(n, t, owner, requirements, d);
    SetupShows(n, s, requirements, owner);
    SetupShows(n, t, requirements, owner);
    if IsCurrent(n, t, owner, requirements, d) && AllActiveListed(n, t.bindings, owner) {
      if Outdated(t.bindings, owner, rows) {
        OutdatedChecksumDiffers(n, t.bindings, owner, rows);
      } else {
        UntouchedUnlessOutdated(n, s, events, owner, rows);
        SameBindingsSameListing(n, s.bindings, t.bindings, owner);
      }
    }
  }

  /** The decision `input_setup_state` would show for a consumer with these requirements. */
  predicate IsCurrent(n: Naming, s: Store, owner: Owner, requirements: seq<Requirement>, d: Decision) {
    Evaluate(n, requirements, ActiveListed(n, s.bindings, owner), DecisionsOf(s.decisions, owner)).current == Some(d)
  }

  lemma SameBindingsSameListing(n: Naming, a: seq<Binding>, b: seq<Binding>, owner: Owner)
    requires BindingsOf(a, owner) == BindingsOf(b, owner)
    ensures ActiveListed(n, a, owner) == ActiveListed(n, b, owner)
  {
  }

  lemma SetupShows(n: Naming, s: Store, requirements: seq<Requirement>, owner: Owner)
    ensures var setup := Evaluate(n, requirements, ActiveListed(n, s.bindings, owner), DecisionsOf(s.decisions, owner));
            && setup.checksum == BindingSet(n, ActiveListed(n, s.bindings, owner))
            && setup.omitted == Uncovered(requirements, ActiveListed(n, s.bindings, owner), false)
  {
  }

  /**
   * The clock decides, not the order of confirmations: a second confirmation of the same inputs
   * under a new key succeeds but is not current if its clock reads earlier than the first one's.
   */
  lemma EarlierClockIsNotCurrent(n: Naming, w: World, s: Store, owner: Owner, omitted: seq<string>, first: string,
                                 at: int, second: string, earlier: int)
    requires Faithful(n) && Orderly(n, s) && earlier < at
    requires forall d :: d in s.decisions && d.content.owner == owner ==>
             d.content.key != first && d.content.key != second
    requires first != second && Confirm(n, w, s, owner, omitted, first, at).1.Ok?
    ensures var mid := Confirm(n, w, s, owner, omitted, first, at).0;
            var (last, confirmed) := Confirm(n, w, mid, owner, omitted, second, earlier);
            && confirmed.Ok? && owner.consumer in w.instances
            && SetupOf(n, w, last, owner, w.instances[owner.consumer]).current != Some(confirmed.value)
  {
    hide Orderly, ActiveListed, BindingSet, Uncovered, RequirementsOf, Faithful;
    var (mid, one) := Confirm(n, w, s, owner, omitted, first, at);
    FirstFinds(s.decisions, (d: Decision) => d.content.owner == owner && d.content.key == first);
    FirstFinds(mid.decisions, (d: Decision) => d.content.owner == owner && d.content.key == second);
    ConfirmKeepsOrderly(n, w, s, owner, omitted, first, at);
    var (last, two) := Confirm(n, w, mid, owner, omitted, second, earlier);
    ConfirmFacts(n, w, s, owner, omitted, first, at);
    ConfirmFacts(n, w, mid, owner, omitted, second, earlier);
    assert one.value in mid.decisions && one.value in last.decisions;
    assert one.value.content.decidedAt == at && two.value.content.decidedAt == earlier;
    hide Confirm, Matches, SetupOf;
    ConfirmedIsCurrentUnlessLater(n, w, mid, owner, omitted, second, earlier);
    assert Matches(one.value, BindingSet(n, ActiveListed(n, last.bindings, owner)), omitted);
    SetupIsFor(n, w, last, owner, omitted, two.value);
  }

  lemma SetupIsFor(n: Naming, w: World, s: Store, owner: Owner, omitted: seq<string>, d: Decision)
    requires owner.consumer in w.instances
    requires Matches(d, SetupOf(n, w, s, owner, w.instances[owner.consumer]).checksum,
                     SetupOf(n, w, s, owner, w.instances[owner.consumer]).omitted)
    requires d.content.omitted == omitted
    ensures SetupOf(n, w, s, owner, w.instances[owner.consumer]).omitted == omitted
    ensures SetupOf(n, w, s, owner, w.instances[owner.consumer]).checksum
            == BindingSet(n, ActiveListed(n, s.bindings, owner))
  {
  }

  // Nothing else disturbs a setup

  lemma {:induction false} SavedElsewhere(bindings: seq<Binding>, changed: Binding, owner: Owner)
    requires changed.owner != owner && forall b :: b in bindings && b.id == changed.id ==> b.owner != owner
    ensures BindingsOf(Saved(bindings, changed), owner) == BindingsOf(bindings, owner)
  {
    if bindings != [] {
      assert bindings[0] in bindings;
      assert Saved(bindings, changed)[1..] == Saved(bindings[1..], changed);
      SavedElsewhere(bindings[1..], changed, owner);
    }
  }

  lemma OthersAppended(kept: seq<Binding>, added: Binding, owner: Owner)
    requires added.owner != owner
    ensures BindingsOf(kept + [added], owner) == BindingsOf(kept, owner)
  {
    FilterAppend(kept, [added], (b: Binding) => b.owner == owner);
    assert BindingsOf([added], owner) == [];
  }

  lemma MovedElsewhere(before: seq<Binding>, retired: Option<Binding>, now: int, added: Binding, after: seq<Binding>,
                       owner: Owner)
    requires AllIdentified(before) && Moves(before, retired, now, added, after) && added.owner != owner
    ensures BindingsOf(after, owner) == BindingsOf(before, owner)
  {
    if retired.Some? {
      SavedElsewhere(before, RetiredNow(retired.value, now), owner);
      OthersAppended(Saved(before, RetiredNow(retired.value, now)), added, owner);
    } else {
      OthersAppended(before, added, owner);
    }
  }

  /** Whoever else binds or confirms, and whatever is replayed or refused, a consumer's setup stays. */
  lemma OnlyItsOwnEventsMatter(n: Naming, s: Store, e: Event, owner: Owner)
    requires Orderly(n, s)
    requires e.Binds? ==> e.request.owner != owner
    requires e.Confirms? ==> e.owner != owner
    ensures ActiveListed(n, Next(n, s, e).bindings, owner) == ActiveListed(n, s.bindings, owner)
    ensures DecisionsOf(Next(n, s, e).decisions, owner) == DecisionsOf(s.decisions, owner)
  {
    hide Bind, Confirm, AllRecorded;
    match e
    case Binds(w, request, now) =>
      BindFacts(n, w, s, request, now);
      var (s', bound) := Bind(n, w, s, request, now);
      if bound.Ok? && !bound.value.replayed {
        MovedElsewhere(s.bindings, ActiveFor(n, s.bindings, request.owner, request.requirement), now,
                       bound.value.binding, s'.bindings, owner);
      }
    case Confirms(w, o, omitted, key, now) =>
      ConfirmFacts(n, w, s, o, omitted, key, now);
      var (s', confirmed) := Confirm(n, w, s, o, omitted, key, now);
      if s' != s {
        FilterAppend(s.decisions, [confirmed.value], (d: Decision) => d.content.owner == owner);
      }
  }

  ghost predicate ActiveBinding(bindings: seq<Binding>, owner: Owner, requirement: string, b: Binding) {
    b in bindings && b.owner == owner && b.requirement == requirement && b.state.Active?
  }

  /** The list of a thousand shows the ACTIVE binding of a requirement exactly when it holds it. */
  lemma FoundExactly(n: Naming, bindings: seq<Binding>, owner: Owner, requirement: string)
    requires BindingsOrderly(bindings)
    ensures forall b :: ActiveBinding(bindings, owner, requirement, b) ==>
              ActiveFor(n, bindings, owner, requirement) == if b in Listed(n, bindings, owner) then Some(b) else None
    ensures ActiveFor(n, bindings, owner, requirement).Some? ==>
              ActiveBinding(bindings, owner, requirement, ActiveFor(n, bindings, owner, requirement).value)
              && ActiveFor(n, bindings, owner, requirement).value in Listed(n, bindings, owner)
  {
    var active := ActiveFor(n, bindings, owner, requirement);
    ListedWithin(n, bindings, owner);
    FirstFinds(Listed(n, bindings, owner), (b: Binding) => b.requirement == requirement && b.state.Active?);
    hide Listed;
    forall b | ActiveBinding(bindings, owner, requirement, b)
      ensures active == if b in Listed(n, bindings, owner) then Some(b) else None
    {
      if active.Some? {
        OneActiveMembers(bindings, b, active.value);
      }
    }
  }

  /** Whether a new key's binding can be added, once what the list shows is retired. */
  lemma AddableExactly(n: Naming, s: Store, added: Binding, now: int)
    requires BindingsOrderly(s.bindings) && Identified(added)
    requires forall b :: b in s.bindings ==> (b.owner, b.key) != (added.owner, added.key)
    ensures var active := ActiveFor(n, s.bindings, added.owner, added.requirement);
            var kept := if active.Some? then Saved(s.bindings, RetiredNow(active.value, now)) else s.bindings;
            && (Added(kept, added).Ok?
                <==> forall b :: ActiveBinding(s.bindings, added.owner, added.requirement, b) ==>
                    b in Listed(n, s.bindings, added.owner))
            && (Added(kept, added).Err? ==> Added(kept, added) == Err(DuplicateActive))
  {
    var active := ActiveFor(n, s.bindings, added.owner, added.requirement);
    var changed := if active.Some? then RetiredNow(active.value, now) else added;
    var kept := if active.Some? then Saved(s.bindings, changed) else s.bindings;
    FoundExactly(n, s.bindings, added.owner, added.requirement);
    FreshKeyFreshId(s.bindings, changed, added.owner, added.key, added.id);
    FirstFinds(kept, (b: Binding) => b.id == added.id);
    FirstFinds(kept, (x: Binding) => Rivals(x, added));
    hide Listed, ActiveFor;
    if active.Some? {
      RetiringLeavesNone(s.bindings, active.value, now);
      forall b | ActiveBinding(s.bindings, added.owner, added.requirement, b) ensures b in Listed(n, s.bindings,
          added.owner) {
        OneActiveMembers(s.bindings, b, active.value);
      }
    } else if b :| ActiveBinding(s.bindings, added.owner, added.requirement, b) {
      assert Rivals(b, added);
    }
  }

  /**
   * A bind whose references resolve succeeds exactly when its key was used for the same binding,
   * or it is new and names the ACTIVE binding to replace, which the list must hold, or none if
   * there is none. It reports a duplicate exactly when it names none and the list misses the
   * ACTIVE binding, and never an immutable conflict.
   */
  lemma BindSucceedsExactly(n: Naming, w: World, s: Store, request: BindRequest, now: int)
    requires BindingsOrderly(s.bindings) && Resolve(w, request).Ok?
    ensures match ByKey(s.bindings, request.owner, request.key)
            case Some(used) =>
              Bind(n, w, s, request, now).1 ==
              if (used.requirement, used.artifact, used.checksum)
                  == (request.requirement, request.artifact, Resolve(w, request).value.1.checksum)
              then Ok(Bound(used, true)) else Err(IdempotencyConflict)
            case None =>
              && (Bind(n, w, s, request, now).1.Ok? <==>
                    && (forall b :: ActiveBinding(s.bindings, request.owner, request.requirement, b) ==>
                          b in Listed(n, s.bindings, request.owner) && request.replace == Some(b.id))
                    && (request.replace.Some? ==>
                        exists b :: ActiveBinding(s.bindings, request.owner, request.requirement, b)))
              && (Bind(n, w, s, request, now).1 == Err(DuplicateActive) <==>
                    && request.replace.None?
                    && exists b :: ActiveBinding(s.bindings, request.owner, request.requirement, b)
                        && b !in Listed(n, s.bindings, request.owner))
              && Bind(n, w, s, request, now).1 != Err(ImmutableConflict)
  {
    var owner, requirement := request.owner, request.requirement;
    FoundExactly(n, s.bindings, owner, requirement);
    FirstFinds(s.bindings, (b: Binding) => b.owner == owner && b.key == request.key);
    if ByKey(s.bindings, owner, request.key).None? {
      var (instance, artifact) := Resolve(w, request).value;
      AddableExactly(n, s, NewBinding(request, instance, artifact, now), now);
    }
    hide Listed, BindingsOrderly, Added, ActiveFor, ByKey, Resolve;
  }

  /** So a duplicate is reported only beyond the list limit, and an immutable conflict never. */
  lemma DuplicatesOnlyBeyondTheLimit(n: Naming, w: World, s: Store, request: BindRequest, now: int)
    requires BindingsOrderly(s.bindings)
    ensures Bind(n, w, s, request, now).1 != Err(ImmutableConflict)
    ensures Bind(n, w, s, request, now).1 == Err(DuplicateActive) ==>
              |BindingsOf(s.bindings, request.owner)| > LIST_LIMIT
  {
    hide BindingsOrderly, Listed, BindingsOf, Added, ActiveFor;
    if Resolve(w, request).Ok? {
      BindSucceedsExactly(n, w, s, request, now);
      WithinTheLimit(n, s.bindings, request.owner);
    }
  }

  lemma RetiringLeavesNone(bindings: seq<Binding>, active: Binding, now: int)
    requires BindingsOrderly(bindings) && active in bindings && active.state.Active?
    ensures forall b ::
              b in Saved(bindings, RetiredNow(active, now)) && b.owner == active.owner
              && b.requirement == active.requirement ==>
                b.state.Retired?
  {
    var saved := Saved(bindings, RetiredNow(active, now));
    forall b | b in saved && b.owner == active.owner && b.requirement == active.requirement ensures b.state.Retired? {
      var i :| 0 <= i < |saved| && saved[i] == b;
      SavedAt(bindings, active, now, i);
      assert bindings[i] in bindings;
      if bindings[i] != active && bindings[i].state.Active? {
        OneActiveMembers(bindings, bindings[i], active);
      }
    }
  }

  // Plans

  ghost predicate RowFor(row: PlanRow, b: Binding) {
    row.binding == b.id && row.requirement == b.requirement && row.artifact == b.artifact && row.checksum == b.checksum
  }

  lemma {:induction false} PlanRowsFollow(w: World, owner: Owner, target: string, bindings: seq<Binding>, upto: nat)
    requires upto <= |bindings| && PlanRows(w, owner, target, bindings, upto).Ok?
    ensures var rows := PlanRows(w, owner, target, bindings, upto).value;
            |rows| == upto && forall i :: 0 <= i < upto ==> RowFor(rows[i], bindings[i])
  {
    if upto > 0 {
      PlanRowsFollow(w, owner, target, bindings, upto - 1);
    }
  }

  ghost predicate HasRow(rows: seq<PlanRow>, b: Binding) { exists row :: row in rows && RowFor(row, b) }

  ghost predicate HasBinding(bindings: seq<Binding>, row: PlanRow) { exists b :: b in bindings && RowFor(row, b) }

  /** A plan of the consumer's bindings: its rows are theirs, one to one, and its checksum is its own. */
  ghost predicate Agrees(plan: Plan, bindings: seq<Binding>) {
    var rows := plan.content.rows;
    && |rows| == |bindings|
    && (forall i, j :: 0 <= i < j < |rows| ==> rows[i].requirement != rows[j].requirement)
    && (forall row :: row in rows ==> HasBinding(bindings, row))
    && (forall b :: b in bindings ==> HasRow(rows, b))
    && Sorted(rows, PlanKey) && plan.checksum == PlanChecksumOf(plan.content)
  }

  lemma SortedRowsAgree(rows: seq<PlanRow>, sorted: seq<PlanRow>, bindings: seq<Binding>, plan: Plan)
    requires |rows| == |bindings| && forall i :: 0 <= i < |rows| ==> RowFor(rows[i], bindings[i])
    requires forall i, j :: 0 <= i < j < |bindings| ==> bindings[i].requirement != bindings[j].requirement
    requires sorted == SortBy(rows, PlanKey) && plan.content.rows == sorted
             && plan.checksum == PlanChecksumOf(plan.content)
    ensures Agrees(plan, bindings)
  {
    SortByIsSorted(rows, PlanKey);
    forall row | row in sorted ensures HasBinding(bindings, row) {
      var i :| 0 <= i < |rows| && rows[i] == row;
      assert RowFor(rows[i], bindings[i]) && bindings[i] in bindings;
    }
    forall b | b in bindings ensures HasRow(sorted, b) {
      var i :| 0 <= i < |bindings| && bindings[i] == b;
      assert RowFor(rows[i], bindings[i]) && rows[i] in rows;
    }
    RowsApart(rows, sorted);
  }

  lemma RowsApart(rows: seq<PlanRow>, sorted: seq<PlanRow>)
    requires multiset(rows) == multiset(sorted)
    requires forall i, j :: 0 <= i < j < |rows| ==> rows[i].requirement != rows[j].requirement
    ensures forall i, j :: 0 <= i < j < |sorted| ==> sorted[i].requirement != sorted[j].requirement
  {
    SameMembers(rows, sorted);
    assert NoRepeats(rows);
    PermutationRepeatsNot(rows, sorted);
    forall i, j | 0 <= i < j < |sorted| ensures sorted[i].requirement != sorted[j].requirement {
      assert sorted[i] in rows && sorted[j] in rows;
      var k :| 0 <= k < |rows| && rows[k] == sorted[i];
      var l :| 0 <= l < |rows| && rows[l] == sorted[j];
      assert k != l;
    }
  }

  /** A returned plan agrees with the listed active bindings, and has a row for each required input. */
  lemma PlanAgreesWithBindings(n: Naming, w: World, s: Store, owner: Owner)
    requires BindingsOrderly(s.bindings) && Materialize(n, w, s, owner).Ok?
    ensures Agrees(Materialize(n, w, s, owner).value, ActiveListed(n, s.bindings, owner))
    ensures owner.consumer in w.instances
    ensures forall r :: r in RequirementsOf(w, w.instances[owner.consumer]) && r.required ==>
              exists row :: row in Materialize(n, w, s, owner).value.content.rows && row.requirement == r.key
  {
    var plan := Materialize(n, w, s, owner).value;
    var instance := w.instances[owner.consumer];
    var listed := ActiveListed(n, s.bindings, owner);
    var target := instance.capsule.value;
    ListedRequirementsApart(n, s.bindings, owner);
    hide ActiveListed, BindingsOrderly, RequirementsOf;
    PlanRowsFollow(w, owner, target, listed, |listed|);
    SortedRowsAgree(PlanRows(w, owner, target, listed, |listed|).value, plan.content.rows, listed, plan);
    var requirements := RequirementsOf(w, instance);
    assert Uncovered(requirements, listed, true) == [];
    hide Materialize, PlanRows, Uncovered, Listed;
    forall r | r in requirements && r.required
      ensures exists row :: row in plan.content.rows && row.requirement == r.key
    {
      RequiredHasRow(requirements, listed, r, plan);
    }
  }

  lemma RequiredHasRow(requirements: seq<Requirement>, listed: seq<Binding>, r: Requirement, plan: Plan)
    requires Uncovered(requirements, listed, true) == [] && r in requirements && r.required && Agrees(plan, listed)
    ensures exists row :: row in plan.content.rows && row.requirement == r.key
  {
    hide HasBinding;
    NothingMissing(requirements, listed, r);
    FirstFinds(listed, (b: Binding) => b.state.Active? && b.requirement == r.key);
    var b :| b in listed && b.requirement == r.key;
    assert HasRow(plan.content.rows, b);
    var row :| row in plan.content.rows && RowFor(row, b);
    assert row.requirement == r.key;
  }

  lemma NothingMissing(requirements: seq<Requirement>, bindings: seq<Binding>, r: Requirement)
    requires Uncovered(requirements, bindings, true) == [] && r in requirements && r.required
    ensures Covered(bindings, r.key)
  {
    var kept := Filter(requirements, (r: Requirement) => r.required == true && !Covered(bindings, r.key));
    InFilter(requirements, (r: Requirement) => r.required == true && !Covered(bindings, r.key));
    var keys := Map((r: Requirement) => r.key, kept);
    SortByIsSorted(keys, TextKey);
    assert kept == [];
  }

  /** The plan covers every ACTIVE binding exactly when the first thousand listed hold them all. */
  lemma PlanIsCompleteWithinTheLimit(n: Naming, w: World, s: Store, owner: Owner)
    requires BindingsOrderly(s.bindings) && Materialize(n, w, s, owner).Ok?
    ensures (forall b :: b in s.bindings && b.owner == owner && b.state.Active? ==>
               HasRow(Materialize(n, w, s, owner).value.content.rows, b))
            <==> forall b :: b in s.bindings && b.owner == owner && b.state.Active? ==>
                b in Listed(n, s.bindings, owner)
    ensures |BindingsOf(s.bindings, owner)| <= LIST_LIMIT ==>
              forall b :: b in s.bindings && b.owner == owner && b.state.Active? ==> b in Listed(n, s.bindings, owner)
  {
    var rows := Materialize(n, w, s, owner).value.content.rows;
    var listed := ActiveListed(n, s.bindings, owner);
    PlanAgreesWithBindings(n, w, s, owner);
    InFilter(Listed(n, s.bindings, owner), (b: Binding) => b.state.Active?);
    ListedWithin(n, s.bindings, owner);
    hide Materialize, Listed, BindingsOf, ActiveListed, OneActive;
    hide HasRow, HasBinding;
    forall b | b in s.bindings && b.owner == owner && b.state.Active?
      ensures HasRow(rows, b) <==> b in Listed(n, s.bindings, owner)
    {
      if HasRow(rows, b) {
        RowNamesBinding(s.bindings, listed, rows, b);
      }
      if b in Listed(n, s.bindings, owner) {
        assert b in listed;
      }
    }
  }

  lemma RowNamesBinding(bindings: seq<Binding>, listed: seq<Binding>, rows: seq<PlanRow>, b: Binding)
    requires AllIdentified(bindings) && KeysApart(bindings) && b in bindings && HasRow(rows, b)
    requires (forall c :: c in listed ==> c in bindings) && forall row :: row in rows ==> HasBinding(listed, row)
    ensures b in listed
  {
    var row :| row in rows && RowFor(row, b);
    assert HasBinding(listed, row);
    var c :| c in listed && RowFor(row, c);
    SameId(bindings, b, c);
  }

  lemma SameId(bindings: seq<Binding>, b: Binding, c: Binding)
    requires AllIdentified(bindings) && KeysApart(bindings) && b in bindings && c in bindings && b.id == c.id
    ensures b == c
  {
    var i :| 0 <= i < |bindings| && bindings[i] == b;
    var j :| 0 <= j < |bindings| && bindings[j] == c;
    assert Identified(b) && Identified(c);
  }

  lemma ListedIgnoresOrder(n: Naming, a: seq<Binding>, b: seq<Binding>, owner: Owner)
    requires Faithful(n) && AllIdentified(a) && KeysApart(a) && multiset(a) == multiset(b)
    ensures Listed(n, a, owner) == Listed(n, b, owner)
  {
    var owned := BindingsOf(a, owner);
    FilterPermutes(a, b, (x: Binding) => x.owner == owner);
    InFilter(a, (x: Binding) => x.owner == owner);
    forall x, y | x in owned && y in owned && ListKey(n)(x) == ListKey(n)(y) ensures x == y {
      SameId(a, x, y);
    }
    SortIsCanonical(owned, BindingsOf(b, owner), ListKey(n));
  }

  /** Stores that hold the same bindings and decisions in another order give the same plan. */
  lemma PlanIgnoresRepositoryOrder(n: Naming, w: World, s: Store, t: Store, owner: Owner)
    requires Faithful(n) && BindingsOrderly(s.bindings)
    requires multiset(s.bindings) == multiset(t.bindings) && multiset(s.decisions) == multiset(t.decisions)
    ensures Materialize(n, w, s, owner) == Materialize(n, w, t, owner)
  {
    ListedIgnoresOrder(n, s.bindings, t.bindings, owner);
    FilterPermutes(s.decisions, t.decisions, (d: Decision) => d.content.owner == owner);
    hide Listed, Uncovered, BindingSet, PlanRows, SortBy, LatestUpdate, BindingsOrderly;
    if owner.consumer in w.instances {
      var setup := SetupOf(n, w, s, owner, w.instances[owner.consumer]);
      var owned, owned' := DecisionsOf(s.decisions, owner), DecisionsOf(t.decisions, owner);
      var matches := (d: Decision) => Matches(d, setup.checksum, setup.omitted);
      FilterPermutes(owned, owned', matches);
      SameMembers(Filter(owned, matches), Filter(owned', matches));
      LatestIsGreatest(n, Filter(owned, matches));
      LatestIsGreatest(n, Filter(owned', matches));
    }
  }
}
