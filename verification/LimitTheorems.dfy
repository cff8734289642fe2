/**
 * What the list limit of a thousand bindings breaks, at which input, and exactly where it starts.
 *
 * One consumer confirms that it goes on without an optional input and then binds that input again
 * and again, each binding replacing the last. The ACTIVE binding is the latest, so it is the
 * thousand and first of the list.
 */
module LimitTheorems {
  import opened Outcomes
  import opened Ordering
  import opened Sequences
  import opened Bindings
  import opened BindingTheorems
  import opened PlanTheorems

  const NOTHING := Store([], [])

  lemma {:induction false} AfterSplit(n: Naming, s: Store, a: seq<Event>, b: seq<Event>)
    ensures After(n, s, a + b) == After(n, After(n, s, a), b)
    decreases |a|
  {
    if a == [] {
      assert a + b == b;
    } else {
      assert (a + b)[0] == a[0] && (a + b)[1..] == a[1..] + b;
      AfterSplit(n, Next(n, s, a[0]), a[1..], b);
    }
  }

  lemma AfterOne(n: Naming, s: Store, events: seq<Event>, e: Event)
    ensures After(n, s, events + [e]) == Next(n, After(n, s, events), e)
  {
    AfterSplit(n, s, events, [e]);
    assert [e][1..] == [];
    assert After(n, Next(n, After(n, s, events), e), []) == Next(n, After(n, s, events), e);
  }

  // The chain of replacements

  /** Who binds what: the same artifact to the same requirement, under a new key each time. */
  datatype Chain = Chain(w: World, owner: Owner, requirement: string, artifact: string, keys: seq<string>)

  ghost predicate ValidChain(c: Chain) {
    NoRepeats(c.keys) && Resolve(c.w, BindRequest(c.owner, c.requirement, c.artifact, "", None)).Ok?
  }

  function Id(c: Chain, i: nat): BindingId
    requires i < |c.keys|
  {
    BindingIdOf(c.keys[i], c.owner, c.requirement, c.artifact)
  }

  function Request(c: Chain, i: nat): BindRequest
    requires i < |c.keys|
  {
    BindRequest(c.owner, c.requirement, c.artifact, c.keys[i], if i == 0 then None else Some(Id(c, i - 1)))
  }

  function Link(c: Chain, i: nat): Binding
    requires i < |c.keys| && ValidChain(c)
  {
    var (instance, artifact) := Resolve(c.w, BindRequest(c.owner, c.requirement, c.artifact, "", None)).value;
    NewBinding(Request(c, i), instance, artifact, i)
  }

  /** The bindings once the first `count` requests are bound: all but the last are RETIRED. */
  function Links(c: Chain, count: nat): (links: seq<Binding>)
    requires count <= |c.keys| && ValidChain(c)
    ensures |links| == count
  {
    seq(count, i requires 0 <= i < count => if i == count - 1 then Link(c, i) else RetiredNow(Link(c, i), i + 1))
  }

  function Requests(c: Chain, count: nat): seq<Event>
    requires count <= |c.keys|
  {
    if count == 0 then [] else Requests(c, count - 1) + [Binds(c.w, Request(c, count - 1), count - 1)]
  }

  lemma LinksAre(c: Chain, count: nat)
    requires count <= |c.keys| && ValidChain(c)
    ensures forall i :: 0 <= i < count ==>
              && Links(c, count)[i].id == Id(c, i) && Links(c, count)[i].owner == c.owner
                  && Links(c, count)[i].key == c.keys[i]
              && Links(c, count)[i].requirement == c.requirement && Links(c, count)[i].createdAt == i
              && (Links(c, count)[i].state.Active? <==> i == count - 1)
              && Identified(Links(c, count)[i])
  {
  }

  lemma LinksOrderly(c: Chain, count: nat)
    requires count <= |c.keys| && ValidChain(c)
    ensures BindingsOrderly(Links(c, count))
    ensures BindingsOf(Links(c, count), c.owner) == Links(c, count)
  {
    var links := Links(c, count);
    LinksAre(c, count);
    hide Links, Identified, ValidChain, RetiredNow;
    forall b | b in links ensures Identified(b) && b.owner == c.owner {
      var i :| 0 <= i < count && links[i] == b;
    }
    FilterAll(links, (b: Binding) => b.owner == c.owner);
    assert NoRepeats(c.keys) by { ChainKeys(c); }
    forall i, j | 0 <= i < j < count ensures (links[i].owner, links[i].key) != (links[j].owner, links[j].key) {
      assert c.keys[i] != c.keys[j];
    }
  }

  lemma ChainKeys(c: Chain)
    requires ValidChain(c)
    ensures NoRepeats(c.keys)
  {
  }

  lemma NextLinks(c: Chain, count: nat)
    requires count < |c.keys| && ValidChain(c)
    ensures Links(c, count + 1)
            == (if count == 0 then [] else Saved(Links(c, count), RetiredNow(Links(c, count)[count - 1], count)))
                + [Link(c, count)]
  {
    var links := Links(c, count);
    LinksAre(c, count);
    if count > 0 {
      var last := links[count - 1];
      var saved := Saved(links, RetiredNow(last, count));
      forall i | 0 <= i < count ensures saved[i] == Links(c, count + 1)[i] {
        assert i < count - 1 ==> c.keys[i] != c.keys[count - 1];
      }
      assert Links(c, count + 1) == saved + [Link(c, count)];
    }
  }

  /** While the list holds every binding, the next request of the chain is accepted. */
  lemma LinkIsBound(n: Naming, c: Chain, count: nat, decisions: seq<Decision>)
    requires count < |c.keys| && count <= LIST_LIMIT && ValidChain(c)
    ensures Bind(n, c.w, Store(Links(c, count), decisions), Request(c, count), count)
            == (Store(Links(c, count + 1), decisions), Ok(Bound(Link(c, count), false)))
  {
    var links, request := Links(c, count), Request(c, count);
    var s := Store(links, decisions);
    var resolved := Resolve(c.w, request).value;
    assert Link(c, count) == NewBinding(request, resolved.0, resolved.1, count);
    assert AllIdentified(links) by { LinksOrderly(c, count); }
    hide Bind, Links, Link, Listed, ActiveFor, Saved, Resolve, ByKey, AllIdentified, NewBinding, Moves, ValidChain;
    LastIsActive(n, c, count);
    NextLinks(c, count);
    KeyIsNew(c, count);
    LinkIsAccepted(n, c, count, decisions);
    BindFacts(n, c.w, s, request, count);
    MovesTo(links, ActiveFor(n, links, c.owner, c.requirement), count, Link(c, count),
            Bind(n, c.w, s, request, count).0.bindings);
  }

  lemma MovesTo(before: seq<Binding>, retired: Option<Binding>, now: int, added: Binding, after: seq<Binding>)
    requires Moves(before, retired, now, added, after)
    ensures after == (if retired.Some? then Saved(before, RetiredNow(retired.value, now)) else before) + [added]
  {
  }

  lemma LinkIsAccepted(n: Naming, c: Chain, count: nat, decisions: seq<Decision>)
    requires count < |c.keys| && count <= LIST_LIMIT && ValidChain(c)
    ensures Bind(n, c.w, Store(Links(c, count), decisions), Request(c, count), count).1.Ok?
  {
    LastIsActive(n, c, count);
    LinksAre(c, count);
    LinksOrderly(c, count);
    KeyIsNew(c, count);
    assert Resolve(c.w, Request(c, count)) == Resolve(c.w, BindRequest(c.owner, c.requirement, c.artifact, "", None));
    hide Bind, Links, Listed, Resolve, ByKey, BindingsOrderly, ActiveBinding;
    BindSucceedsExactly(n, c.w, Store(Links(c, count), decisions), Request(c, count), count);
    assert count > 0 ==> ActiveBinding(Links(c, count), c.owner, c.requirement, Links(c, count)[count - 1]);
  }

  /** The chain's ACTIVE binding is its last, and a list that holds everything shows it. */
  lemma LastIsActive(n: Naming, c: Chain, count: nat)
    requires count < |c.keys| && count <= LIST_LIMIT && ValidChain(c)
    ensures forall b :: ActiveBinding(Links(c, count), c.owner, c.requirement, b)
              <==> count > 0 && b == Links(c, count)[count - 1]
    ensures count > 0 ==> Links(c, count)[count - 1] in Listed(n, Links(c, count), c.owner)
    ensures ActiveFor(n, Links(c, count), c.owner, c.requirement) == if count == 0 then None
            else Some(Links(c, count)[count - 1])
  {
    var links := Links(c, count);
    LinksAre(c, count);
    LinksOrderly(c, count);
    WithinTheLimit(n, links, c.owner);
    FoundExactly(n, links, c.owner, c.requirement);
    hide Links, BindingsOrderly, Listed, ActiveFor, Identified;
    forall b | ActiveBinding(links, c.owner, c.requirement, b) ensures count > 0 && b == links[count - 1] {
      var i :| 0 <= i < count && links[i] == b;
    }
    assert count > 0 ==> ActiveBinding(links, c.owner, c.requirement, links[count - 1]);
  }

  lemma KeyIsNew(c: Chain, count: nat)
    requires count < |c.keys| && ValidChain(c)
    ensures ByKey(Links(c, count), c.owner, c.keys[count]).None?
  {
    LinksAre(c, count);
    FirstFinds(Links(c, count), (b: Binding) => b.owner == c.owner && b.key == c.keys[count]);
  }

  lemma {:induction false} ChainIsBound(n: Naming, c: Chain, count: nat, decisions: seq<Decision>)
    requires count <= |c.keys| && count <= LIST_LIMIT + 1 && ValidChain(c)
    ensures After(n, Store([], decisions), Requests(c, count)) == Store(Links(c, count), decisions)
  {
    hide Bind, ValidChain;
    if count == 0 {
      assert Links(c, 0) == [];
    } else {
      ChainIsBound(n, c, count - 1, decisions);
      LinkIsBound(n, c, count - 1, decisions);
      AfterOne(n, Store([], decisions), Requests(c, count - 1), Binds(c.w, Request(c, count - 1), count - 1));
    }
  }

  // The thousand and first binding

  lemma LatestIsLast(n: Naming, links: seq<Binding>, last: Binding, i: nat)
    requires NoRepeats(links) && last in links && |links| == LIST_LIMIT + 1
    requires forall b :: b in links && b != last ==> b.requirement == last.requirement && b.createdAt < last.createdAt
    requires |SortBy(links, ListKey(n))| == |links| && i <= LIST_LIMIT && SortBy(links, ListKey(n))[i] == last
    ensures i == LIST_LIMIT
  {
    var sorted := SortBy(links, ListKey(n));
    SortByIsSorted(links, ListKey(n));
    if i < LIST_LIMIT {
      var other := sorted[LIST_LIMIT];
      assert other in links;
      assert KeyLeq(ListKey(n)(last), ListKey(n)(other));
      assert other == last;
      PermutationRepeatsNot(links, sorted);
    }
  }

  /** The ACTIVE binding of the full chain is beyond the list, which holds RETIRED ones only. */
  lemma LatestIsUnlisted(n: Naming, c: Chain)
    requires ValidChain(c) && |c.keys| == LIST_LIMIT + 1
    ensures var links := Links(c, LIST_LIMIT + 1);
            && |BindingsOf(links, c.owner)| == LIST_LIMIT + 1
            && links[LIST_LIMIT] in links && links[LIST_LIMIT].owner == c.owner && links[LIST_LIMIT].state.Active?
            && links[LIST_LIMIT] !in Listed(n, links, c.owner)
            && ActiveListed(n, links, c.owner) == []
  {
    var links := Links(c, LIST_LIMIT + 1);
    var last := links[LIST_LIMIT];
    LinksAre(c, LIST_LIMIT + 1);
    LinksOrderly(c, LIST_LIMIT + 1);
    NoRepeatsOf(links);
    hide Links, BindingsOrderly, BindingsOf, KeyLeq;
    forall b | b in links && b != last ensures b.requirement == last.requirement && b.createdAt < last.createdAt
        && b.state.Retired? {
      var i :| 0 <= i < |links| && links[i] == b;
    }
    SortByIsSorted(links, ListKey(n));
    var listed := Listed(n, links, c.owner);
    if last in listed {
      var i :| 0 <= i < |listed| && listed[i] == last;
      LatestIsLast(n, links, last, i);
    }
    ListedWithin(n, links, c.owner);
    FilterAll(listed, (b: Binding) => b.state.Active?);
  }

  lemma NothingIsListed(n: Naming, owner: Owner)
    ensures ActiveListed(n, [], owner) == []
  {
  }

  /**
   * Confirm, then bind a thousand and one times. After the first bind the decision is not current;
   * after the last it is again, and the checksum is that of no bindings at all.
   */
  lemma ThousandAndOneBindsRevive(n: Naming, c: Chain, omitted: seq<string>, key: string, at: int)
    requires Faithful(n) && ValidChain(c) && |c.keys| == LIST_LIMIT + 1
    requires Confirm(n, c.w, NOTHING, c.owner, omitted, key, at).1.Ok?
    ensures c.owner.consumer in c.w.instances
    ensures var (s, confirmed) := Confirm(n, c.w, NOTHING, c.owner, omitted, key, at);
            var requirements := RequirementsOf(c.w, c.w.instances[c.owner.consumer]);
            var first, last := After(n, s, Requests(c, 1)), After(n, s, Requests(c, LIST_LIMIT + 1));
            && s == Store([], [confirmed.value]) && confirmed.value.content.owner == c.owner
            && first == Store(Links(c, 1), s.decisions) && last == Store(Links(c, LIST_LIMIT + 1), s.decisions)
            && IsCurrent(n, s, c.owner, requirements, confirmed.value)
            && !IsCurrent(n, first, c.owner, requirements, confirmed.value)
            && IsCurrent(n, last, c.owner, requirements, confirmed.value)
  {
    var (s, confirmed) := Confirm(n, c.w, NOTHING, c.owner, omitted, key, at);
    var d := confirmed.value;
    ConfirmedAtNothing(n, c, omitted, key, at);
    var requirements := RequirementsOf(c.w, c.w.instances[c.owner.consumer]);
    hide Confirm, ValidChain, Links, IsCurrent, RequirementsOf;
    ChainIsBound(n, c, 1, s.decisions);
    ChainIsBound(n, c, LIST_LIMIT + 1, s.decisions);
    LatestIsUnlisted(n, c);
    NothingIsListed(n, c.owner);
    SameListingSameCurrent(n, s, After(n, s, Requests(c, LIST_LIMIT + 1)), c.owner, requirements, d);
    FirstBindStops(n, c, s, requirements, d);
  }

  lemma ConfirmedAtNothing(n: Naming, c: Chain, omitted: seq<string>, key: string, at: int)
    requires Faithful(n) && Confirm(n, c.w, NOTHING, c.owner, omitted, key, at).1.Ok?
    ensures c.owner.consumer in c.w.instances
    ensures var (s, confirmed) := Confirm(n, c.w, NOTHING, c.owner, omitted, key, at);
            && s == Store([], [confirmed.value]) && Orderly(n, s) && confirmed.value.content.owner == c.owner
            && IsCurrent(n, s, c.owner, RequirementsOf(c.w, c.w.instances[c.owner.consumer]), confirmed.value)
  {
    EmptyIsOrderly(n);
    ConfirmKeepsOrderly(n, c.w, NOTHING, c.owner, omitted, key, at);
    ConfirmFacts(n, c.w, NOTHING, c.owner, omitted, key, at);
    hide Orderly, Confirm, Matches, Uncovered, RequirementsOf;
    FreshConfirmationIsCurrent(n, c.w, NOTHING, c.owner, omitted, key, at);
  }

  lemma SameListingSameCurrent(n: Naming, s: Store, t: Store, owner: Owner, requirements: seq<Requirement>, d: Decision)
    requires ActiveListed(n, s.bindings, owner) == ActiveListed(n, t.bindings, owner) && s.decisions == t.decisions
    ensures IsCurrent(n, s, owner, requirements, d) <==> IsCurrent(n, t, owner, requirements, d)
  {
  }

  lemma FirstBindStops(n: Naming, c: Chain, s: Store, requirements: seq<Requirement>, d: Decision)
    requires Faithful(n) && ValidChain(c) && |c.keys| > 0 && s == Store([], [d]) && Orderly(n, s)
             && d.content.owner == c.owner
    requires IsCurrent(n, s, c.owner, requirements, d)
    ensures !IsCurrent(n, Store(Links(c, 1), s.decisions), c.owner, requirements, d)
  {
    var t := Store(Links(c, 1), s.decisions);
    LinkIsBound(n, c, 0, s.decisions);
    assert Links(c, 0) == [];
    LinksOrderly(c, 1);
    WithinTheLimit(n, t.bindings, c.owner);
    hide Bind, Links, ValidChain, AllActiveListed, ActiveListed, BindingSet;
    assert After(n, s, []) == s && After(n, t, []) == t;
    FreshBindNewChecksum(n, s, [], c.w, Request(c, 0), 0, []);
    BindKeepsOrderly(n, c.w, s, Request(c, 0), 0);
    CurrentIsLatest(n, s, c.owner, requirements, d);
    CurrentIsLatest(n, t, c.owner, requirements, d);
    SetupShows(n, s, requirements, c.owner);
    SetupShows(n, t, requirements, c.owner);
  }

  // An input

  const CONSUMER := Owner("project", "consumer")
  const OPTIONAL := Requirement("definition", "1.0.0", "evidence", false, "inputs/evidence.json")
  const INSTANCE := Instance("project", "definition", "1.0.0", true, Some("capsule"))
  const WORLD := World(map["consumer" := INSTANCE], [OPTIONAL],
                       map["artifact" := Artifact("project", "checksum", "consumer", "")],
                       map["project" := Project("workspace", 0)], (_, _, _) => true)

  /** As many different texts as asked for. */
  function Texts(count: nat): (texts: seq<string>)
    ensures |texts| == count && forall i :: 0 <= i < count ==> |texts[i]| == i
  {
    seq(count, i requires 0 <= i < count => seq(i, _ => 'k'))
  }

  const EXAMPLE := Chain(WORLD, CONSUMER, "evidence", "artifact", Texts(LIST_LIMIT + 1))

  lemma ExampleIsValid(n: Naming)
    ensures ValidChain(EXAMPLE) && |EXAMPLE.keys| == LIST_LIMIT + 1
    ensures RequirementsOf(WORLD, INSTANCE) == [OPTIONAL]
    ensures Confirm(n, WORLD, NOTHING, CONSUMER, ["evidence"], "key", 0).1.Ok?
  {
    ExampleSetup();
    ExampleChain();
    NothingIsListed(n, CONSUMER);
    hide Uncovered, RequirementsOf, ActiveListed, BindingSet, ValidChain, Texts, Latest;
    assert Strictly(["evidence"]);
    assert DecisionByKey([], CONSUMER, "key") == None;
  }

  lemma ExampleChain()
    ensures ValidChain(EXAMPLE) && |EXAMPLE.keys| == LIST_LIMIT + 1
  {
    var request := BindRequest(CONSUMER, "evidence", "artifact", "", None);
    assert FindRequirement(WORLD, "definition", "1.0.0", "evidence") == Some(OPTIONAL);
    assert Resolve(WORLD, request).Ok?;
    assert NoRepeats(EXAMPLE.keys) by {
      forall i, j | 0 <= i < j < |EXAMPLE.keys| ensures EXAMPLE.keys[i] != EXAMPLE.keys[j] {
        assert |EXAMPLE.keys[i]| == i && |EXAMPLE.keys[j]| == j;
      }
    }
  }

  lemma ExampleSetup()
    ensures RequirementsOf(WORLD, INSTANCE) == [OPTIONAL]
    ensures Uncovered([OPTIONAL], [], true) == [] && Uncovered([OPTIONAL], [], false) == ["evidence"]
  {
    FilterOne(OPTIONAL, (r: Requirement) => r.definition == INSTANCE.definition && r.version == INSTANCE.version);
    FilterOne(OPTIONAL, (r: Requirement) => r.required == true && !Covered([], r.key));
    FilterOne(OPTIONAL, (r: Requirement) => r.required == false && !Covered([], r.key));
    assert Map((r: Requirement) => r.key, [OPTIONAL]) == ["evidence"];
    SortOne("evidence", TextKey);
  }

  lemma FilterOne<T>(x: T, keep: T -> bool)
    ensures Filter([x], keep) == if keep(x) then [x] else []
  {
    assert [x][1..] == [];
  }

  lemma SortOne<T>(x: T, key: T -> Key)
    ensures SortBy([x], key) == [x]
  {
    assert [x][1..] == [];
  }

  // Exactly where the promises end

  lemma {:induction false} RequestsSplit(c: Chain, count: nat)
    requires 1 <= count <= |c.keys|
    ensures |Requests(c, count)| == count && Requests(c, count) == Requests(c, 1) + Requests(c, count)[1..]
    ensures Requests(c, 1) == [Binds(c.w, Request(c, 0), 0)]
  {
    assert Requests(c, 0) == [];
    if count > 1 {
      RequestsSplit(c, count - 1);
    }
  }

  function ExampleDecision(n: Naming): Decision {
    NewDecision(CONSUMER, INSTANCE, BindingSet(n, []), ["evidence"], "key", 0)
  }

  const CONFIRMING := Confirms(WORLD, CONSUMER, ["evidence"], "key", 0)

  /** The example as a history from nothing: stopped after one bind, current again after all. */
  lemma ExampleRevives(n: Naming)
    requires Faithful(n)
    ensures ValidChain(EXAMPLE) && |EXAMPLE.keys| == LIST_LIMIT + 1
    ensures var first := After(n, NOTHING, [CONFIRMING] + Requests(EXAMPLE, 1));
            var last := After(n, first, Requests(EXAMPLE, LIST_LIMIT + 1)[1..]);
            && After(n, NOTHING, [CONFIRMING] + Requests(EXAMPLE, LIST_LIMIT + 1)) == last
            && ExampleDecision(n) in first.decisions && last.bindings == Links(EXAMPLE, LIST_LIMIT + 1)
            && !IsCurrent(n, first, CONSUMER, [OPTIONAL], ExampleDecision(n))
            && IsCurrent(n, last, CONSUMER, [OPTIONAL], ExampleDecision(n))
  {
    hide ValidChain, Links, Requests, IsCurrent, Confirm, Texts, ExampleDecision, RequirementsOf, After;
    ExampleIsValid(n);
    ThousandAndOneBindsRevive(n, EXAMPLE, ["evidence"], "key", 0);
    ExampleConfirmed(n);
    RequestsSplit(EXAMPLE, LIST_LIMIT + 1);
    var one, all := Requests(EXAMPLE, 1), Requests(EXAMPLE, LIST_LIMIT + 1);
    ConfirmedFirst(n, one);
    ConfirmedFirst(n, all);
    AfterSplit(n, Store([], [ExampleDecision(n)]), one, all[1..]);
  }

  lemma ConfirmedFirst(n: Naming, events: seq<Event>)
    ensures After(n, NOTHING, [CONFIRMING] + events)
            == After(n, Confirm(n, WORLD, NOTHING, CONSUMER, ["evidence"], "key", 0).0, events)
  {
    hide Confirm;
    assert ([CONFIRMING] + events)[1..] == events;
  }

  lemma ExampleConfirmed(n: Naming)
    ensures Confirm(n, WORLD, NOTHING, CONSUMER, ["evidence"], "key", 0)
            == (Store([], [ExampleDecision(n)]), Ok(ExampleDecision(n)))
  {
    ExampleIsValid(n);
    NothingIsListed(n, CONSUMER);
    hide Uncovered, RequirementsOf, ActiveListed, BindingSet, Strictly;
    var setup := Evaluate(n, RequirementsOf(WORLD, INSTANCE), [], []);
    assert setup.checksum == BindingSet(n, []);
    assert DecisionByKey([], CONSUMER, "key") == None;
    assert NOTHING.decisions + [ExampleDecision(n)] == [ExampleDecision(n)];
  }

  /** After this history the decision, stopped after `early`, is current again. */
  ghost predicate Revives(n: Naming, early: seq<Event>, late: seq<Event>, owner: Owner,
                          requirements: seq<Requirement>, d: Decision) {
    var s := After(n, NOTHING, early);
    && d in s.decisions && d.content.owner == owner && !IsCurrent(n, s, owner, requirements, d)
    && IsCurrent(n, After(n, s, late), owner, requirements, d)
  }

  ghost predicate NeverRevivesUpTo(n: Naming, limit: nat) {
    forall early, late, owner, requirements, d :: Revives(n, early, late, owner, requirements, d)
      ==> |BindingsOf(After(n, After(n, NOTHING, early), late).bindings, owner)| > limit
  }

  /** A stopped decision stays stopped while its consumer has a thousand bindings, and no longer. */
  lemma RevivalBoundary(n: Naming, limit: nat)
    requires Faithful(n)
    ensures NeverRevivesUpTo(n, limit) <==> limit <= LIST_LIMIT
  {
    hide Revives, BindingsOf, After;
    if limit <= LIST_LIMIT {
      forall early, late, owner, requirements, d | Revives(n, early, late, owner, requirements, d)
        ensures |BindingsOf(After(n, After(n, NOTHING, early), late).bindings, owner)| > limit
      {
        RevivalNeedsMore(n, early, late, owner, requirements, d);
      }
    } else {
      RevivalAtThousandAndOne(n);
    }
  }

  lemma RevivalNeedsMore(n: Naming, early: seq<Event>, late: seq<Event>, owner: Owner,
                         requirements: seq<Requirement>, d: Decision)
    requires Faithful(n) && Revives(n, early, late, owner, requirements, d)
    ensures |BindingsOf(After(n, After(n, NOTHING, early), late).bindings, owner)| > LIST_LIMIT
  {
    hide IsCurrent, Orderly, AllActiveListed, BindingsOf;
    var s := After(n, NOTHING, early);
    EveryHistoryIsOrderly(n, early);
    StoppedDecisionNeverReturns(n, s, late, owner, requirements, d);
    WithinTheLimit(n, After(n, s, late).bindings, owner);
  }

  lemma RevivalAtThousandAndOne(n: Naming)
    requires Faithful(n)
    ensures |EXAMPLE.keys| == LIST_LIMIT + 1 == |Requests(EXAMPLE, LIST_LIMIT + 1)|
    ensures var early, late := [CONFIRMING] + Requests(EXAMPLE, 1), Requests(EXAMPLE, LIST_LIMIT + 1)[1..];
            && Revives(n, early, late, CONSUMER, [OPTIONAL], ExampleDecision(n))
            && |BindingsOf(After(n, After(n, NOTHING, early), late).bindings, CONSUMER)| == LIST_LIMIT + 1
  {
    ExampleRevives(n);
    RequestsSplit(EXAMPLE, LIST_LIMIT + 1);
    LatestIsUnlisted(n, EXAMPLE);
    assert ExampleDecision(n).content.owner == CONSUMER;
    hide IsCurrent, BindingsOf, Links, Requests, ValidChain, After, ExampleDecision, Listed, ActiveListed;
  }

  /** A fresh bind between two equal binding-set checksums of its consumer. */
  ghost predicate Repeats(n: Naming, early: seq<Event>, middle: seq<Event>, w: World, request: BindRequest, now: int,
                          late: seq<Event>) {
    var e := After(n, NOTHING, early);
    var (s, bound) := Bind(n, w, After(n, e, middle), request, now);
    && bound.Ok? && !bound.value.replayed
    && BindingSet(n, ActiveListed(n, e.bindings, request.owner))
       == BindingSet(n, ActiveListed(n, After(n, s, late).bindings, request.owner))
  }

  ghost predicate NeverRepeatsUpTo(n: Naming, limit: nat) {
    forall early, middle, w, request, now, late :: Repeats(n, early, middle, w, request, now, late)
      ==> |BindingsOf(After(n, Bind(n, w, After(n, After(n, NOTHING, early), middle), request, now).0,
                            late).bindings, request.owner)| > limit
  }

  /** A binding-set checksum never returns across a bind up to a thousand bindings, and no further. */
  lemma ChecksumBoundary(n: Naming, limit: nat)
    ensures NeverRepeatsUpTo(n, limit) <==> limit <= LIST_LIMIT
  {
    hide Bind, Orderly, AllActiveListed, BindingsOf, Links, Requests, ValidChain, ActiveListed, BindingSet;
    if limit <= LIST_LIMIT {
      forall early, middle, w, request, now, late | Repeats(n, early, middle, w, request, now, late)
        ensures |BindingsOf(After(n, Bind(n, w, After(n, After(n, NOTHING, early), middle), request, now).0,
                                  late).bindings, request.owner)| > limit
      {
        EveryHistoryIsOrderly(n, early);
        FreshBindNewChecksum(n, After(n, NOTHING, early), middle, w, request, now, late);
        WithinTheLimit(n,
                       After(n, Bind(n, w, After(n, After(n, NOTHING, early), middle), request, now).0,
                             late).bindings, request.owner);
      }
    } else {
      ExampleRepeats(n);
      var none: seq<Event> := [];
      var request, rest := Request(EXAMPLE, 0), Requests(EXAMPLE, LIST_LIMIT + 1)[1..];
      assert Repeats(n, none, none, WORLD, request, 0, rest);
      assert |BindingsOf(After(n, Bind(n, WORLD, After(n, After(n, NOTHING, none), none), request, 0).0,
                               rest).bindings, request.owner)| <= limit;
    }
  }

  lemma ExampleRepeats(n: Naming)
    ensures ValidChain(EXAMPLE) && |EXAMPLE.keys| == LIST_LIMIT + 1 == |Requests(EXAMPLE, LIST_LIMIT + 1)|
    ensures Repeats(n, [], [], WORLD, Request(EXAMPLE, 0), 0, Requests(EXAMPLE, LIST_LIMIT + 1)[1..])
    ensures var s := Bind(n, WORLD, After(n, After(n, NOTHING, []), []), Request(EXAMPLE, 0), 0).0;
            |BindingsOf(After(n, s, Requests(EXAMPLE, LIST_LIMIT + 1)[1..]).bindings,
                        Request(EXAMPLE, 0).owner)| == LIST_LIMIT + 1
  {
    ExampleIsValid(n);
    hide Bind, Links, ValidChain, Texts, BindingsOf, Requests, Listed;
    assert After(n, NOTHING, []) == NOTHING;
    assert Links(EXAMPLE, 0) == [];
    LinkIsBound(n, EXAMPLE, 0, []);
    ChainIsBound(n, EXAMPLE, LIST_LIMIT + 1, []);
    RequestsSplit(EXAMPLE, LIST_LIMIT + 1);
    var first := Binds(WORLD, Request(EXAMPLE, 0), 0);
    assert ([first] + Requests(EXAMPLE, LIST_LIMIT + 1)[1..])[1..] == Requests(EXAMPLE, LIST_LIMIT + 1)[1..];
    LatestIsUnlisted(n, EXAMPLE);
    NothingIsListed(n, CONSUMER);
  }

  ghost predicate Misses(n: Naming, w: World, events: seq<Event>, owner: Owner, b: Binding) {
    var t := After(n, NOTHING, events);
    && Materialize(n, w, t, owner).Ok? && b in t.bindings && b.owner == owner && b.state.Active?
    && !HasRow(Materialize(n, w, t, owner).value.content.rows, b)
  }

  ghost predicate PlansCompleteUpTo(n: Naming, limit: nat) {
    forall w, events, owner, b :: Misses(n, w, events, owner, b) ==>
        |BindingsOf(After(n, NOTHING, events).bindings, owner)| > limit
  }

  /** After the example's history the plan is returned without a row, though a binding is ACTIVE. */
  lemma ThousandAndOneBindsEmptyThePlan(n: Naming)
    requires Faithful(n)
    ensures ValidChain(EXAMPLE) && |EXAMPLE.keys| == LIST_LIMIT + 1
    ensures var t := After(n, NOTHING, [CONFIRMING] + Requests(EXAMPLE, LIST_LIMIT + 1));
            && t.bindings == Links(EXAMPLE, LIST_LIMIT + 1)
            && Materialize(n, WORLD, t, CONSUMER).Ok? && Materialize(n, WORLD, t, CONSUMER).value.content.rows == []
            && Misses(n, WORLD, [CONFIRMING] + Requests(EXAMPLE, LIST_LIMIT + 1), CONSUMER,
                      Links(EXAMPLE, LIST_LIMIT + 1)[LIST_LIMIT])
  {
    ExampleRevives(n);
    ExampleIsValid(n);
    LatestIsUnlisted(n, EXAMPLE);
    hide Links, ValidChain, Texts, Requests, Listed, RequirementsOf, ActiveListed, After;
    var t := After(n, NOTHING, [CONFIRMING] + Requests(EXAMPLE, LIST_LIMIT + 1));
    CurrentAllowsPlan(n, t, ExampleDecision(n));
  }

  lemma CurrentAllowsPlan(n: Naming, t: Store, d: Decision)
    requires ActiveListed(n, t.bindings, CONSUMER) == [] && RequirementsOf(WORLD, INSTANCE) == [OPTIONAL]
    requires IsCurrent(n, t, CONSUMER, [OPTIONAL], d)
    ensures Materialize(n, WORLD, t, CONSUMER).Ok? && Materialize(n, WORLD, t, CONSUMER).value.content.rows == []
  {
    FilterOne(OPTIONAL, (r: Requirement) => r.required == true && !Covered([], r.key));
    assert Uncovered([OPTIONAL], [], true) == [];
    assert SetupOf(n, WORLD, t, CONSUMER, INSTANCE).current == Some(d);
    assert SetupOf(n, WORLD, t, CONSUMER, INSTANCE).missing == [];
    assert PlanRows(WORLD, CONSUMER, "capsule", [], 0) == Ok([]);
    assert SortBy([], PlanKey) == [];
  }

  /** Plans cover every ACTIVE binding while the consumer has a thousand bindings, and no longer. */
  lemma PlanBoundary(n: Naming, limit: nat)
    requires Faithful(n)
    ensures PlansCompleteUpTo(n, limit) <==> limit <= LIST_LIMIT
  {
    hide Materialize, Orderly, Listed, BindingsOf, Links, Requests, ValidChain, HasRow, After;
    if limit <= LIST_LIMIT {
      forall w, events, owner,
          b | Misses(n, w, events, owner, b) ensures |BindingsOf(After(n, NOTHING, events).bindings, owner)| > limit {
        EveryHistoryIsOrderly(n, events);
        PlanIsCompleteWithinTheLimit(n, w, After(n, NOTHING, events),
                                     owner) by { OrderlyBindings(n, After(n, NOTHING, events)); }
      }
    } else {
      ThousandAndOneBindsEmptyThePlan(n);
      LatestIsUnlisted(n, EXAMPLE);
    }
  }

  lemma OrderlyBindings(n: Naming, s: Store)
    requires Orderly(n, s)
    ensures BindingsOrderly(s.bindings)
  {
  }
}
