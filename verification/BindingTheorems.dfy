/** What holds of bindings, decisions and plans over every history of binds and confirmations. */
module BindingTheorems {
  import opened Outcomes
  import opened Ordering
  import opened Sequences
  import opened Bindings

  datatype Event =
    | Binds(w: World, request: BindRequest, now: int)
    | Confirms(w: World, owner: Owner, omitted: seq<string>, key: string, now: int)

  function Next(n: Naming, s: Store, e: Event): Store {
    match e
    case Binds(w, request, now) => Bind(n, w, s, request, now).0
    case Confirms(w, owner, omitted, key, now) => Confirm(n, w, s, owner, omitted, key, now).0
  }

  function After(n: Naming, s: Store, events: seq<Event>): Store
    decreases |events|
  {
    if events == [] then s else After(n, Next(n, s, events[0]), events[1..])
  }

  // The invariant

  predicate Identified(b: Binding) {
    && b.id == BindingIdOf(b.key, b.owner, b.requirement, b.artifact)
    && (b.retiredAt.Some? <==> b.state.Retired?)
  }

  ghost predicate AllIdentified(bindings: seq<Binding>) { forall b :: b in bindings ==> Identified(b) }

  ghost predicate KeysApart(bindings: seq<Binding>) {
    forall i, j :: 0 <= i < j < |bindings| ==>
        (bindings[i].owner, bindings[i].key) != (bindings[j].owner, bindings[j].key)
  }

  /** A consumer has at most one ACTIVE binding for a requirement. */
  ghost predicate OneActive(bindings: seq<Binding>) {
    forall i, j :: 0 <= i < j < |bindings| && bindings[i].state.Active? && bindings[j].state.Active?
      ==> (bindings[i].owner, bindings[i].requirement) != (bindings[j].owner, bindings[j].requirement)
  }

  ghost predicate HasActive(bindings: seq<Binding>, owner: Owner, requirement: string) {
    exists b :: b in bindings && b.owner == owner && b.requirement == requirement && b.state.Active?
  }

  ghost predicate Known(bindings: seq<Binding>, owner: Owner, row: Row) {
    exists b :: b in bindings && b.owner == owner && RowOf(b) == row
  }

  /** Rows of bindings that exist, for requirements that still have an active one. */
  ghost predicate Backed(bindings: seq<Binding>, owner: Owner, rows: seq<Row>) {
    forall row :: row in rows ==> Known(bindings, owner, row) && HasActive(bindings, owner, row.requirement)
  }

  /** Rows as a checksum takes them: sorted, one for each requirement. */
  ghost predicate Tidy(n: Naming, rows: seq<Row>) {
    && Sorted(rows, RowKey(n))
    && forall i, j :: 0 <= i < j < |rows| ==> rows[i].requirement != rows[j].requirement
  }

  ghost predicate Recorded(n: Naming, bindings: seq<Binding>, d: Decision) {
    && ValidDecision(d) && d.content.choice == CONTINUE
    && Backed(bindings, d.content.owner, d.content.bindingSet.rows) && Tidy(n, d.content.bindingSet.rows)
  }

  ghost predicate AllRecorded(n: Naming, s: Store) { forall d :: d in s.decisions ==> Recorded(n, s.bindings, d) }

  ghost predicate DecisionsApart(decisions: seq<Decision>) {
    forall i, j :: 0 <= i < j < |decisions| ==> decisions[i].id != decisions[j].id
  }

  ghost predicate BindingsOrderly(bindings: seq<Binding>) {
    AllIdentified(bindings) && KeysApart(bindings) && OneActive(bindings)
  }

  ghost predicate Orderly(n: Naming, s: Store) {
    BindingsOrderly(s.bindings) && AllRecorded(n, s) && DecisionsApart(s.decisions)
  }

  lemma EmptyIsOrderly(n: Naming)
    ensures Orderly(n, Store([], []))
  {
  }

  // What a bind that is no replay does

  /** The bindings after `retired` is retired and `added` is appended. */
  ghost predicate Moves(before: seq<Binding>, retired: Option<Binding>, now: int, added: Binding, after: seq<Binding>) {
    && (retired.Some? ==> retired.value in before && retired.value.state.Active?
                          && (retired.value.owner, retired.value.requirement) == (added.owner, added.requirement))
    && added.state.Active? && Identified(added)
    && after == (if retired.Some? then Saved(before, RetiredNow(retired.value, now)) else before) + [added]
    && (forall b :: b in before ==> (b.owner, b.key) != (added.owner, added.key))
    && !HasActive(if retired.Some? then Saved(before, RetiredNow(retired.value, now))
                  else before, added.owner, added.requirement)
  }

  /** Under a key the consumer has not used, the identifier is new. */
  lemma FreshKeyFreshId(bindings: seq<Binding>, changed: Binding, owner: Owner, key: string, id: BindingId)
    requires AllIdentified(bindings) && id.owner == owner && id.key == key
    requires forall b :: b in bindings ==> (b.owner, b.key) != (owner, key)
    ensures forall b :: b in bindings || b in Saved(bindings, changed) ==> b.id != id || b == changed
  {
    forall b | b in Saved(bindings, changed) ensures b.id != id || b == changed {
      var i :| 0 <= i < |bindings| && Saved(bindings, changed)[i] == b;
      assert bindings[i] in bindings;
    }
  }

  lemma BindFacts(n: Naming, w: World, s: Store, request: BindRequest, now: int)
    requires AllIdentified(s.bindings)
    ensures var (s', bound) := Bind(n, w, s, request, now);
            && s'.decisions == s.decisions
            && (bound.Ok? && !bound.value.replayed ==>
                  && Moves(s.bindings, ActiveFor(n, s.bindings, request.owner, request.requirement), now,
                           bound.value.binding, s'.bindings)
                  && bound.value.binding.owner == request.owner
                      && bound.value.binding.requirement == request.requirement
                  && Resolve(w, request).Ok?
                  && bound.value.binding
                      == NewBinding(request, Resolve(w, request).value.0, Resolve(w, request).value.1, now))
            && (bound.Ok? && bound.value.replayed ==> ByKey(s.bindings, request.owner, request.key).Some?)
            && (!(bound.Ok? && !bound.value.replayed) ==> s' == s)
            && (bound.Ok? && bound.value.replayed ==> bound.value.binding in s.bindings)
  {
    var (s', bound) := Bind(n, w, s, request, now);
    FirstFinds(s.bindings, (b: Binding) => b.owner == request.owner && b.key == request.key);
    if bound.Ok? && !bound.value.replayed {
      var active := ActiveFor(n, s.bindings, request.owner, request.requirement);
      ActiveForFacts(n, s.bindings, request.owner, request.requirement);
      var kept := if active.Some? then Saved(s.bindings, RetiredNow(active.value, now)) else s.bindings;
      var added := bound.value.binding;
      FirstFinds(kept, (b: Binding) => b.id == added.id);
      FirstFinds(kept, (x: Binding) => Rivals(x, added));
      var changed := if active.Some? then RetiredNow(active.value, now) else added;
      FreshKeyFreshId(s.bindings, changed, request.owner, request.key, added.id);
      assert active.Some? ==> active.value in s.bindings && active.value.id != added.id;
    }
  }

  lemma SavedAt(bindings: seq<Binding>, retired: Binding, now: int, i: nat)
    requires AllIdentified(bindings) && KeysApart(bindings) && retired in bindings && i < |bindings|
    ensures |Saved(bindings, RetiredNow(retired, now))| == |bindings|
    ensures Saved(bindings, RetiredNow(retired, now))[i] == if bindings[i] == retired then RetiredNow(retired, now)
            else bindings[i]
  {
    var j :| 0 <= j < |bindings| && bindings[j] == retired;
    assert bindings[i] in bindings;
  }

  /** A binding keeps everything but its state, which only goes from ACTIVE to RETIRED. */
  ghost predicate Kept(a: Binding, b: Binding) {
    && SameContent(a, b)
    && (a.state.Retired? ==> b == a)
  }

  ghost predicate BindingsEvolve(a: seq<Binding>, b: seq<Binding>) {
    |a| <= |b| && forall i :: 0 <= i < |a| ==> Kept(a[i], b[i])
  }

  lemma MovesEvolve(before: seq<Binding>, retired: Option<Binding>, now: int, added: Binding, after: seq<Binding>)
    requires AllIdentified(before) && KeysApart(before) && Moves(before, retired, now, added, after)
    ensures BindingsEvolve(before, after) && |after| == |before| + 1 && after[|before|] == added
  {
    forall i | 0 <= i < |before| ensures Kept(before[i], after[i]) {
      if retired.Some? {
        SavedAt(before, retired.value, now, i);
      }
    }
  }

  lemma MovesKeepIdentity(before: seq<Binding>, retired: Option<Binding>, now: int, added: Binding, after: seq<Binding>)
    requires AllIdentified(before) && KeysApart(before) && Moves(before, retired, now, added, after)
    ensures AllIdentified(after) && KeysApart(after)
  {
    MovesEvolve(before, retired, now, added, after);
    forall i | 0 <= i < |before| ensures Identified(after[i]) {
      assert before[i] in before && Kept(before[i], after[i]);
      if retired.Some? {
        SavedAt(before, retired.value, now, i);
      }
    }
    forall i, j | 0 <= i < j < |after| ensures (after[i].owner, after[i].key) != (after[j].owner, after[j].key) {
      assert Kept(before[i], after[i]);
      assert j < |before| ==> Kept(before[j], after[j]);
    }
  }

  lemma MovesKeepOneActive(before: seq<Binding>, retired: Option<Binding>, now: int, added: Binding,
                           after: seq<Binding>)
    requires BindingsOrderly(before) && Moves(before, retired, now, added, after)
    ensures OneActive(after)
  {
    MovesEvolve(before, retired, now, added, after);
    forall i, j | 0 <= i < j < |after| && after[i].state.Active? && after[j].state.Active?
      ensures (after[i].owner, after[i].requirement) != (after[j].owner, after[j].requirement)
    {
      assert Kept(before[i], after[i]);
      if j < |before| {
        assert Kept(before[j], after[j]);
      } else {
        var kept := after[..|before|];
        assert after == kept + [added];
        assert kept[i] in kept;
      }
    }
  }

  lemma MovesKeepActive(before: seq<Binding>, retired: Option<Binding>, now: int, added: Binding,
                        after: seq<Binding>, owner: Owner, requirement: string)
    requires BindingsOrderly(before) && Moves(before, retired, now, added, after)
             && HasActive(before, owner, requirement)
    ensures HasActive(after, owner, requirement)
  {
    MovesEvolve(before, retired, now, added, after);
    var c :| c in before && c.owner == owner && c.requirement == requirement && c.state.Active?;
    var j :| 0 <= j < |before| && before[j] == c;
    if retired.Some? {
      SavedAt(before, retired.value, now, j);
    }
    assert after[j] in after && after[|before|] in after;
  }

  /** What existed still does, and each requirement that had an active binding has one. */
  lemma MovesKeepBacked(before: seq<Binding>, retired: Option<Binding>, now: int, added: Binding,
                        after: seq<Binding>, owner: Owner, rows: seq<Row>)
    requires BindingsOrderly(before) && Moves(before, retired, now, added, after) && Backed(before, owner, rows)
    ensures Backed(after, owner, rows)
  {
    MovesEvolve(before, retired, now, added, after);
    KnownSurvives(before, after, owner, rows);
    hide Known, HasActive, Moves, BindingsOrderly;
    forall row | row in rows ensures HasActive(after, owner, row.requirement) {
      MovesKeepActive(before, retired, now, added, after, owner, row.requirement);
    }
  }

  /** Some active binding of the consumer is not among the rows. */
  ghost predicate Outdated(bindings: seq<Binding>, owner: Owner, rows: seq<Row>) {
    exists b :: b in bindings && b.owner == owner && b.state.Active? && RowOf(b) !in rows
  }

  ghost predicate AllKnown(bindings: seq<Binding>, owner: Owner, rows: seq<Row>) {
    forall row :: row in rows ==> Known(bindings, owner, row)
  }

  /** A fresh binding outdates every set of rows known before it, and outdated rows stay so. */
  lemma MovesOutdate(before: seq<Binding>, retired: Option<Binding>, now: int, added: Binding, after: seq<Binding>,
                     owner: Owner, rows: seq<Row>)
    requires BindingsOrderly(before) && Moves(before, retired, now, added, after) && AllKnown(before, owner, rows)
    requires added.owner == owner || Outdated(before, owner, rows)
    ensures Outdated(after, owner, rows) && AllKnown(after, owner, rows)
  {
    MovesEvolve(before, retired, now, added, after);
    forall row | row in rows ensures Known(after, owner, row) {
      assert Known(before, owner, row);
      var b :| b in before && b.owner == owner && RowOf(b) == row;
      var i :| 0 <= i < |before| && before[i] == b;
      assert Kept(before[i], after[i]) && after[i] in after;
    }
    assert added == after[|before|];
    if added.owner == owner {
      AddedIsUnknown(before, owner, rows, added);
      assert added in after;
    } else {
      var b :| b in before && b.owner == owner && b.state.Active? && RowOf(b) !in rows;
      var i :| 0 <= i < |before| && before[i] == b;
      if retired.Some? {
        SavedAt(before, retired.value, now, i);
      }
      assert after[i] == b && after[i] in after;
    }
  }

  lemma AddedIsUnknown(before: seq<Binding>, owner: Owner, rows: seq<Row>, added: Binding)
    requires AllIdentified(before) && Identified(added) && added.owner == owner && AllKnown(before, owner, rows)
    requires forall b :: b in before ==> (b.owner, b.key) != (added.owner, added.key)
    ensures RowOf(added) !in rows
  {
    forall row | row in rows ensures row != RowOf(added) {
      assert Known(before, owner, row);
      var b :| b in before && b.owner == owner && RowOf(b) == row;
      assert Identified(b);
    }
  }

  // What the checksum takes

  /** The first thousand listed bindings of a consumer hold all its ACTIVE ones. */
  ghost predicate AllActiveListed(n: Naming, bindings: seq<Binding>, owner: Owner) {
    forall b :: b in bindings && b.owner == owner && b.state.Active? ==> b in Listed(n, bindings, owner)
  }

  lemma WithinTheLimit(n: Naming, bindings: seq<Binding>, owner: Owner)
    ensures |BindingsOf(bindings, owner)| <= LIST_LIMIT ==> AllActiveListed(n, bindings, owner)
  {
    ListedWithin(n, bindings, owner);
  }

  lemma ListedRows(n: Naming, bindings: seq<Binding>, owner: Owner)
    requires BindingsOrderly(bindings)
    ensures var listed := ActiveListed(n, bindings, owner);
            && (forall b :: b in listed ==> b in bindings && b.owner == owner && b.state.Active?)
            && (AllActiveListed(n, bindings, owner) ==>
                  forall b :: b in listed <==> b in bindings && b.owner == owner && b.state.Active?)
  {
    InFilter(Listed(n, bindings, owner), (b: Binding) => b.state.Active?);
    ListedWithin(n, bindings, owner);
  }

  lemma NoRepeatsOf(bindings: seq<Binding>)
    requires KeysApart(bindings)
    ensures NoRepeats(bindings)
  {
  }

  lemma ListedRepeatsNot(n: Naming, bindings: seq<Binding>, owner: Owner)
    requires BindingsOrderly(bindings)
    ensures NoRepeats(ActiveListed(n, bindings, owner))
  {
    var owned := BindingsOf(bindings, owner);
    NoRepeatsOf(bindings);
    FilterRepeatsNot(bindings, (b: Binding) => b.owner == owner);
    SortByIsSorted(owned, ListKey(n));
    PermutationRepeatsNot(owned, SortBy(owned, ListKey(n)));
    FilterRepeatsNot(Listed(n, bindings, owner), (b: Binding) => b.state.Active?);
  }

  lemma OneActiveMembers(bindings: seq<Binding>, a: Binding, b: Binding)
    requires OneActive(bindings) && a in bindings && b in bindings && a.state.Active? && b.state.Active?
    requires a.owner == b.owner && a.requirement == b.requirement
    ensures a == b
  {
    var i :| 0 <= i < |bindings| && bindings[i] == a;
    var j :| 0 <= j < |bindings| && bindings[j] == b;
  }

  lemma MappedRows(listed: seq<Binding>)
    ensures forall row :: row in Map(RowOf, listed) <==> exists b :: b in listed && RowOf(b) == row
    ensures (forall i, j :: 0 <= i < j < |listed| ==> listed[i].requirement != listed[j].requirement)
            ==> forall i, j :: 0 <= i < j < |listed| ==>
                Map(RowOf, listed)[i].requirement != Map(RowOf, listed)[j].requirement
  {
    var unsorted := Map(RowOf, listed);
    assert forall i :: 0 <= i < |listed| ==> unsorted[i] == RowOf(listed[i]);
    forall row ensures row in unsorted <==> exists b :: b in listed && RowOf(b) == row {
      if b :| b in listed && RowOf(b) == row {
        var i :| 0 <= i < |listed| && listed[i] == b;
        assert unsorted[i] == row;
      }
    }
  }

  lemma ListedRequirementsApart(n: Naming, bindings: seq<Binding>, owner: Owner)
    requires BindingsOrderly(bindings)
    ensures var listed := ActiveListed(n, bindings, owner);
            forall i, j :: 0 <= i < j < |listed| ==> listed[i].requirement != listed[j].requirement
  {
    var listed := ActiveListed(n, bindings, owner);
    ListedRows(n, bindings, owner);
    ListedRepeatsNot(n, bindings, owner);
    forall i, j | 0 <= i < j < |listed| ensures listed[i].requirement != listed[j].requirement {
      assert listed[i] in listed && listed[j] in listed;
      if listed[i].requirement == listed[j].requirement {
        OneActiveMembers(bindings, listed[i], listed[j]);
      }
    }
  }

  lemma RowsOfListed(n: Naming, listed: seq<Binding>)
    requires forall b :: b in listed ==> b.state.Active?
    requires forall i, j :: 0 <= i < j < |listed| ==> listed[i].requirement != listed[j].requirement
    ensures Tidy(n, BindingSet(n, listed).rows)
    ensures forall row :: row in BindingSet(n, listed).rows <==> exists b :: b in listed && RowOf(b) == row
  {
    var unsorted := Map(RowOf, listed);
    assert BindingSet(n, listed).rows == SortBy(unsorted, RowKey(n)) by {
      FilterAll(listed, (b: Binding) => b.state.Active?);
    }
    hide BindingSet, SortBy, Filter, Map, KeyLeq;
    SortByIsSorted(unsorted, RowKey(n));
    MappedRows(listed);
    RequirementsApart(unsorted, SortBy(unsorted, RowKey(n)));
  }

  /** The rows a checksum covers: those of the listed active bindings, tidy. */
  lemma ChecksumRows(n: Naming, bindings: seq<Binding>, owner: Owner)
    requires BindingsOrderly(bindings)
    ensures var listed := ActiveListed(n, bindings, owner);
            var rows := BindingSet(n, listed).rows;
            && Tidy(n, rows)
            && (forall row :: row in rows <==> exists b :: b in listed && RowOf(b) == row)
            && Backed(bindings, owner, rows)
  {
    var listed := ActiveListed(n, bindings, owner);
    ListedRows(n, bindings, owner);
    ListedRequirementsApart(n, bindings, owner);
    hide ActiveListed, BindingsOrderly;
    RowsOfListed(n, listed);
    var rows := BindingSet(n, listed).rows;
    hide BindingSet;
    forall row | row in rows ensures Known(bindings, owner, row) && HasActive(bindings, owner, row.requirement) {
      var b :| b in listed && RowOf(b) == row;
      assert b in bindings && b.owner == owner && b.requirement == row.requirement && b.state.Active?;
    }
  }

  lemma RequirementsApart(unsorted: seq<Row>, rows: seq<Row>)
    requires multiset(unsorted) == multiset(rows)
    requires forall i, j :: 0 <= i < j < |unsorted| ==> unsorted[i].requirement != unsorted[j].requirement
    ensures forall i, j :: 0 <= i < j < |rows| ==> rows[i].requirement != rows[j].requirement
  {
    SameMembers(unsorted, rows);
    assert NoRepeats(unsorted);
    PermutationRepeatsNot(unsorted, rows);
    forall i, j | 0 <= i < j < |rows| ensures rows[i].requirement != rows[j].requirement {
      assert rows[i] in unsorted && rows[j] in unsorted;
      var k :| 0 <= k < |unsorted| && unsorted[k] == rows[i];
      var l :| 0 <= l < |unsorted| && unsorted[l] == rows[j];
      assert k != l;
    }
  }

  /** Tidy rows are determined by which rows they are. */
  lemma TidyRowsAreEqual(n: Naming, a: seq<Row>, b: seq<Row>)
    requires Tidy(n, a) && Tidy(n, b) && forall row :: row in a <==> row in b
    ensures a == b
  {
    SameMembersPermute(a, b);
    assert InjectiveOn(a, RowKey(n)) by {
      forall x, y | x in a && y in a && RowKey(n)(x) == RowKey(n)(y) ensures x == y {
        var i :| 0 <= i < |a| && a[i] == x;
        var j :| 0 <= j < |a| && a[j] == y;
        assert x.requirement == y.requirement;
      }
    }
    SortedIsUnique(a, b, RowKey(n));
  }

  /**
   * The current checksum is that of some tidy rows exactly when these are the rows of the ACTIVE
   * bindings that the list of a thousand holds.
   */
  lemma ChecksumMatchesExactly(n: Naming, bindings: seq<Binding>, owner: Owner, rows: seq<Row>)
    requires BindingsOrderly(bindings) && Tidy(n, rows)
    ensures BindingSet(n, ActiveListed(n, bindings, owner)) == BindingSetChecksumOf(rows)
            <==> && (forall b :: b in Listed(n, bindings, owner) && b.state.Active? ==> RowOf(b) in rows)
                 && (forall row :: row in rows ==>
                      exists b :: b in Listed(n, bindings, owner) && b.state.Active? && RowOf(b) == row)
  {
    var listed := ActiveListed(n, bindings, owner);
    InFilter(Listed(n, bindings, owner), (b: Binding) => b.state.Active?);
    ChecksumRows(n, bindings, owner);
    hide BindingSet, BindingsOrderly, Listed, Backed;
    var current := BindingSet(n, listed).rows;
    if forall row :: row in rows <==> row in current {
      TidyRowsAreEqual(n, current, rows);
    }
    if BindingSet(n, listed) == BindingSetChecksumOf(rows) {
      forall row | row in rows
        ensures exists b :: b in Listed(n, bindings, owner) && b.state.Active? && RowOf(b) == row
      {
        var b :| b in listed && RowOf(b) == row;
      }
    } else if forall row :: row in rows ==>
        exists b :: b in Listed(n, bindings, owner) && b.state.Active? && RowOf(b) == row {
      forall row | row in rows ensures row in current {
        var b :| b in Listed(n, bindings, owner) && b.state.Active? && RowOf(b) == row;
        assert b in listed;
      }
    }
  }

  // One event at a time

  lemma ConfirmFacts(n: Naming, w: World, s: Store, owner: Owner, omitted: seq<string>, key: string, now: int)
    ensures var (s', confirmed) := Confirm(n, w, s, owner, omitted, key, now);
            && s'.bindings == s.bindings
            && (s' != s ==> confirmed.Ok? && s'.decisions == s.decisions + [confirmed.value]
                            && ValidDecision(confirmed.value) && confirmed.value.content.choice == CONTINUE
                            && (confirmed.value.content.owner, confirmed.value.content.key) == (owner, key)
                            && confirmed.value.content.bindingSet == BindingSet(n, ActiveListed(n, s.bindings, owner))
                            && forall d :: d in s.decisions ==> (d.content.owner, d.content.key) != (owner, key))
            && (confirmed.Ok? ==> confirmed.value in s'.decisions && confirmed.value.content.owner == owner
                                  && owner.consumer in w.instances
                                  && Matches(confirmed.value, BindingSet(n, ActiveListed(n, s.bindings, owner)),
                                             omitted)
                                  && omitted == Uncovered(RequirementsOf(w, w.instances[owner.consumer]),
                                                          ActiveListed(n, s.bindings, owner), false))
  {
    hide ActiveListed, BindingSet, Uncovered, RequirementsOf;
    FirstFinds(s.decisions, (d: Decision) => d.content.owner == owner && d.content.key == key);
  }

  lemma BackedSurvives(n: Naming, s: Store, bindings: seq<Binding>, retired: Option<Binding>, now: int, added: Binding)
    requires Orderly(n, s) && Moves(s.bindings, retired, now, added, bindings)
    ensures AllRecorded(n, s.(bindings := bindings))
  {
    hide Moves, Backed, Tidy;
    forall d | d in s.decisions ensures Recorded(n, bindings, d) {
      assert Recorded(n, s.bindings, d);
      MovesKeepBacked(s.bindings, retired, now, added, bindings, d.content.owner, d.content.bindingSet.rows);
    }
  }

  lemma BindKeepsOrderly(n: Naming, w: World, s: Store, request: BindRequest, now: int)
    requires Orderly(n, s)
    ensures Orderly(n, Bind(n, w, s, request, now).0)
  {
    hide Bind, Moves, AllRecorded;
    var (s', bound) := Bind(n, w, s, request, now);
    BindFacts(n, w, s, request, now);
    if bound.Ok? && !bound.value.replayed {
      var retired := ActiveFor(n, s.bindings, request.owner, request.requirement);
      MovesKeepIdentity(s.bindings, retired, now, bound.value.binding, s'.bindings);
      MovesKeepOneActive(s.bindings, retired, now, bound.value.binding, s'.bindings);
      BackedSurvives(n, s, s'.bindings, retired, now, bound.value.binding);
      assert s' == s.(bindings := s'.bindings);
    }
  }

  lemma ConfirmKeepsOrderly(n: Naming, w: World, s: Store, owner: Owner, omitted: seq<string>, key: string, now: int)
    requires Orderly(n, s)
    ensures Orderly(n, Confirm(n, w, s, owner, omitted, key, now).0)
  {
    hide Confirm, BindingSet, ActiveListed, BindingsOrderly, Backed, Tidy;
    var (s', confirmed) := Confirm(n, w, s, owner, omitted, key, now);
    ConfirmFacts(n, w, s, owner, omitted, key, now);
    ChecksumRows(n, s.bindings, owner);
    if s' != s {
      forall d | d in s'.decisions ensures Recorded(n, s'.bindings, d) {
        assert d in s.decisions || d == confirmed.value;
      }
      forall i | 0 <= i < |s.decisions| ensures s.decisions[i].id != confirmed.value.id {
        assert s.decisions[i] in s.decisions;
        assert Recorded(n, s.bindings, s.decisions[i]);
      }
    }
  }

  ghost predicate Evolves(a: Store, b: Store) { BindingsEvolve(a.bindings, b.bindings) && a.decisions <= b.decisions }

  lemma NextIsOrderly(n: Naming, s: Store, e: Event)
    requires Orderly(n, s)
    ensures Orderly(n, Next(n, s, e)) && Evolves(s, Next(n, s, e))
  {
    hide Bind, Confirm, Moves, AllRecorded;
    match e
    case Binds(w, request, now) =>
      BindKeepsOrderly(n, w, s, request, now);
      BindFacts(n, w, s, request, now);
      var (s', bound) := Bind(n, w, s, request, now);
      if bound.Ok? && !bound.value.replayed {
        MovesEvolve(s.bindings, ActiveFor(n, s.bindings, request.owner, request.requirement), now,
                    bound.value.binding, s'.bindings);
      }
    case Confirms(w, owner, omitted, key, now) =>
      ConfirmKeepsOrderly(n, w, s, owner, omitted, key, now);
      ConfirmFacts(n, w, s, owner, omitted, key, now);
  }

  /** Over any history each requirement keeps at most one ACTIVE binding, and RETIRED is for good. */
  lemma {:induction false} HistoryIsOrderly(n: Naming, s: Store, events: seq<Event>)
    requires Orderly(n, s)
    ensures Orderly(n, After(n, s, events)) && Evolves(s, After(n, s, events))
    decreases |events|
  {
    hide Orderly, Kept;
    if events != [] {
      NextIsOrderly(n, s, events[0]);
      HistoryIsOrderly(n, Next(n, s, events[0]), events[1..]);
      EvolvesChain(s, Next(n, s, events[0]), After(n, s, events));
    } else {
      EvolvesSelf(s);
    }
  }

  /** From an empty repository, every history is orderly. */
  lemma EveryHistoryIsOrderly(n: Naming, events: seq<Event>)
    ensures Orderly(n, After(n, Store([], []), events))
  {
    EmptyIsOrderly(n);
    HistoryIsOrderly(n, Store([], []), events);
  }

  lemma EvolvesSelf(s: Store)
    ensures Evolves(s, s)
  {
  }

  lemma EvolvesChain(a: Store, b: Store, c: Store)
    requires Evolves(a, b) && Evolves(b, c)
    ensures Evolves(a, c)
  {
    forall i | 0 <= i < |a.bindings| ensures Kept(a.bindings[i], c.bindings[i]) {
      assert Kept(a.bindings[i], b.bindings[i]) && Kept(b.bindings[i], c.bindings[i]);
    }
  }

  // Decisions that stopped being current

  lemma NextKeepsOutdated(n: Naming, s: Store, e: Event, owner: Owner, rows: seq<Row>)
    requires Orderly(n, s) && AllKnown(s.bindings, owner, rows) && Outdated(s.bindings, owner, rows)
    ensures AllKnown(Next(n, s, e).bindings, owner, rows) && Outdated(Next(n, s, e).bindings, owner, rows)
  {
    hide Bind, Confirm, Moves, AllRecorded, AllKnown, Outdated;
    match e
    case Binds(w, request, now) =>
      BindFacts(n, w, s, request, now);
      var (s', bound) := Bind(n, w, s, request, now);
      if bound.Ok? && !bound.value.replayed {
        MovesOutdate(s.bindings, ActiveFor(n, s.bindings, request.owner, request.requirement), now,
                     bound.value.binding, s'.bindings, owner, rows);
      }
    case Confirms(w, o, omitted, key, now) => ConfirmFacts(n, w, s, o, omitted, key, now);
  }

  lemma {:induction false} OutdatedForGood(n: Naming, s: Store, events: seq<Event>, owner: Owner, rows: seq<Row>)
    requires Orderly(n, s) && AllKnown(s.bindings, owner, rows) && Outdated(s.bindings, owner, rows)
    ensures Outdated(After(n, s, events).bindings, owner, rows)
    decreases |events|
  {
    hide Orderly, AllKnown, Outdated;
    if events != [] {
      NextKeepsOutdated(n, s, events[0], owner, rows);
      NextIsOrderly(n, s, events[0]);
      OutdatedForGood(n, Next(n, s, events[0]), events[1..], owner, rows);
    }
  }

  lemma OutdatedChecksumDiffers(n: Naming, bindings: seq<Binding>, owner: Owner, rows: seq<Row>)
    requires BindingsOrderly(bindings) && Outdated(bindings, owner, rows)
    requires AllActiveListed(n, bindings, owner)
    ensures BindingSet(n, ActiveListed(n, bindings, owner)).rows != rows
  {
    var listed := ActiveListed(n, bindings, owner);
    ListedRows(n, bindings, owner);
    ChecksumRows(n, bindings, owner);
    hide BindingSet, ActiveListed, BindingsOrderly;
    var b :| b in bindings && b.owner == owner && b.state.Active? && RowOf(b) !in rows;
    assert b in listed;
    assert RowOf(b) in BindingSet(n, listed).rows;
  }

  lemma KnownSurvives(a: seq<Binding>, b: seq<Binding>, owner: Owner, rows: seq<Row>)
    requires AllKnown(a, owner, rows) && BindingsEvolve(a, b)
    ensures AllKnown(b, owner, rows)
  {
    forall row | row in rows ensures Known(b, owner, row) {
      assert Known(a, owner, row);
      var x :| x in a && x.owner == owner && RowOf(x) == row;
      var i :| 0 <= i < |a| && a[i] == x;
      assert Kept(a[i], b[i]) && b[i] in b;
    }
  }

  /**
   * A bind that is no replay gives the consumer a binding-set checksum it never had: whatever came
   * before the bind and whatever comes after it, the checksum on either side is different, unless
   * by then an ACTIVE binding is beyond the list limit.
   */
  lemma FreshBindNewChecksum(n: Naming, early: Store, before: seq<Event>, w: World, request: BindRequest, now: int,
                             after: seq<Event>)
    requires Orderly(n, early)
    requires var bound := Bind(n, w, After(n, early, before), request, now).1; bound.Ok? && !bound.value.replayed
    ensures var late := After(n, Bind(n, w, After(n, early, before), request, now).0, after);
            AllActiveListed(n, late.bindings, request.owner) ==>
              BindingSet(n, ActiveListed(n, early.bindings, request.owner))
              != BindingSet(n, ActiveListed(n, late.bindings, request.owner))
  {
    hide Bind, Moves, BindingSet, ActiveListed, AllRecorded, BindingsEvolve, AllActiveListed;
    var owner := request.owner;
    var s := After(n, early, before);
    var (s', bound) := Bind(n, w, s, request, now);
    var rows := BindingSet(n, ActiveListed(n, early.bindings, owner)).rows;
    HistoryIsOrderly(n, early, before);
    ChecksumRows(n, early.bindings, owner);
    assert AllKnown(early.bindings, owner, rows);
    KnownSurvives(early.bindings, s.bindings, owner, rows);
    BindFacts(n, w, s, request, now);
    MovesOutdate(s.bindings, ActiveFor(n, s.bindings, owner, request.requirement), now, bound.value.binding,
                 s'.bindings, owner, rows);
    BindKeepsOrderly(n, w, s, request, now);
    OutdatedForGood(n, s', after, owner, rows);
    HistoryIsOrderly(n, s', after);
    if AllActiveListed(n, After(n, s', after).bindings, owner) {
      OutdatedChecksumDiffers(n, After(n, s', after).bindings, owner, rows);
    }
  }
}
