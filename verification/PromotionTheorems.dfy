/** What is derived is promoted, and a replay is a permutation. */
module PromotionTheorems {
  import opened Outcomes
  import opened Ordering
  import opened Sequences
  import opened Promotion

  ghost predicate Distinctive(naming: Naming) { forall a, b :: naming(a) == naming(b) ==> a == b }

  ghost predicate OutputPathsApart(outputs: seq<Output>) {
    forall i, j :: 0 <= i < j < |outputs| ==> outputs[i].path != outputs[j].path
  }

  ghost predicate KindsApart(contracts: seq<Contract>) {
    forall i, j :: 0 <= i < j < |contracts| ==> contracts[i].kind != contracts[j].kind
  }

  ghost predicate TypesApart(contracts: seq<Contract>) {
    forall i, j :: 0 <= i < j < |contracts| ==> contracts[i].artifactType != contracts[j].artifactType
  }

  ghost predicate PathsApart(ds: seq<Declaration>) {
    forall i, j :: 0 <= i < j < |ds| ==> ds[i].path != ds[j].path
  }

  ghost predicate IdsApart(ds: seq<Declaration>) {
    forall i, j :: 0 <= i < j < |ds| ==> ds[i].id != ds[j].id
  }

  // Where a derived declaration comes from

  ghost predicate From(naming: Naming, progress: Progress, d: Declaration, output: Output, contract: Contract) {
    && output.size.Some? && d == DeclarationFor(naming, progress, output, contract, output.size.value)
    && contract.kind == output.kind && MatchesContract(contract, d, output.kind)
  }

  ghost predicate FromOutput(naming: Naming, progress: Progress, d: Declaration, output: Output,
                             contracts: seq<Contract>) {
    exists c :: c in contracts && From(naming, progress, d, output, c)
  }

  ghost predicate FromReport(naming: Naming, progress: Progress, d: Declaration, outputs: seq<Output>,
                             contracts: seq<Contract>) {
    exists o :: o in outputs && FromOutput(naming, progress, d, o, contracts)
  }

  lemma {:induction false} DerivedFromOutput(naming: Naming, progress: Progress, output: Output,
                                             contracts: seq<Contract>, upto: nat)
    requires upto <= |contracts| && DeriveOutput(naming, progress, output, contracts, upto).Ok?
    ensures forall d: Declaration :: d in DeriveOutput(naming, progress, output, contracts, upto).value
              ==> FromOutput(naming, progress, d, output, contracts) && d.path == output.path
    ensures KindsApart(contracts) ==>
              |DeriveOutput(naming, progress, output, contracts, upto).value| <= 1
              && ((forall k :: 0 <= k < upto ==> contracts[k].kind != output.kind) ==>
                    DeriveOutput(naming, progress, output, contracts, upto).value == [])
  {
    hide MatchesContract, ValidDeclaration;
    if upto > 0 {
      DerivedFromOutput(naming, progress, output, contracts, upto - 1);
      var c := contracts[upto - 1];
      var one := DeriveOne(naming, progress, output, c).value;
      assert forall d: Declaration :: d in one ==> From(naming, progress, d, output, c);
      assert c in contracts;
    }
  }

  lemma {:induction false} DerivedFromReport(naming: Naming, progress: Progress, outputs: seq<Output>,
                                             contracts: seq<Contract>, upto: nat)
    requires upto <= |outputs| && DeriveAll(naming, progress, outputs, contracts, upto).Ok?
    ensures forall d: Declaration :: d in DeriveAll(naming, progress, outputs, contracts, upto).value
              ==> && FromReport(naming, progress, d, outputs, contracts)
                  && exists k: int :: 0 <= k < upto && d.path == outputs[k].path
    ensures OutputPathsApart(outputs) && KindsApart(contracts)
            ==> PathsApart(DeriveAll(naming, progress, outputs, contracts, upto).value)
  {
    hide FromOutput, DeriveOutput, KindsApart;
    if upto > 0 {
      DerivedFromReport(naming, progress, outputs, contracts, upto - 1);
      DerivedFromOutput(naming, progress, outputs[upto - 1], contracts, |contracts|);
      var sofar := DeriveAll(naming, progress, outputs, contracts, upto - 1).value;
      var more := DeriveOutput(naming, progress, outputs[upto - 1], contracts, |contracts|).value;
      assert outputs[upto - 1] in outputs;
      assert forall d: Declaration :: d in more ==> FromReport(naming, progress, d, outputs, contracts);
      forall d: Declaration | d in sofar + more ensures exists k: int :: 0 <= k < upto && d.path == outputs[k].path {
        assert d in sofar || d in more;
      }
      if OutputPathsApart(outputs) && KindsApart(contracts) {
        forall i, j | 0 <= i < j < |sofar + more| ensures (sofar + more)[i].path != (sofar + more)[j].path {
          if j >= |sofar| {
            assert (sofar + more)[i] in sofar && (sofar + more)[j] in more;
          }
        }
      }
    }
  }

  ghost predicate Yields(naming: Naming, progress: Progress, ds: seq<Declaration>, o: Output, c: Contract) {
    exists d :: d in ds && From(naming, progress, d, o, c)
  }

  lemma {:induction false} OutputYields(naming: Naming, progress: Progress, output: Output, contracts: seq<Contract>,
                                        upto: nat)
    requires upto <= |contracts| && DeriveOutput(naming, progress, output, contracts, upto).Ok?
    ensures forall k :: 0 <= k < upto && contracts[k].kind == output.kind
              ==> Yields(naming, progress, DeriveOutput(naming, progress, output, contracts, upto).value, output,
                         contracts[k])
  {
    hide MatchesContract, ValidDeclaration;
    if upto > 0 {
      OutputYields(naming, progress, output, contracts, upto - 1);
      var c := contracts[upto - 1];
      var sofar := DeriveOutput(naming, progress, output, contracts, upto - 1).value;
      var one := DeriveOne(naming, progress, output, c).value;
      if c.kind == output.kind {
        assert From(naming, progress, one[0], output, c) && one[0] in sofar + one;
      }
      forall k | 0 <= k < upto - 1 && contracts[k].kind == output.kind
        ensures Yields(naming, progress, sofar + one, output, contracts[k])
      {
        assert Yields(naming, progress, sofar, output, contracts[k]);
      }
    }
  }

  /** Every output whose kind a contract takes gives a declaration under that contract. */
  lemma {:induction false} ReportYields(naming: Naming, progress: Progress, outputs: seq<Output>,
                                        contracts: seq<Contract>, upto: nat)
    requires upto <= |outputs| && DeriveAll(naming, progress, outputs, contracts, upto).Ok?
    ensures forall i, k :: 0 <= i < upto && 0 <= k < |contracts| && contracts[k].kind == outputs[i].kind
              ==> Yields(naming, progress, DeriveAll(naming, progress, outputs, contracts, upto).value, outputs[i],
                         contracts[k])
  {
    hide DeriveOutput, From;
    if upto > 0 {
      ReportYields(naming, progress, outputs, contracts, upto - 1);
      OutputYields(naming, progress, outputs[upto - 1], contracts, |contracts|);
      var sofar := DeriveAll(naming, progress, outputs, contracts, upto - 1).value;
      var more := DeriveOutput(naming, progress, outputs[upto - 1], contracts, |contracts|).value;
      forall i, k | 0 <= i < upto && 0 <= k < |contracts| && contracts[k].kind == outputs[i].kind
        ensures Yields(naming, progress, sofar + more, outputs[i], contracts[k])
      {
        var part := if i < upto - 1 then sofar else more;
        assert Yields(naming, progress, part, outputs[i], contracts[k]);
        var d :| d in part && From(naming, progress, d, outputs[i], contracts[k]);
        assert d in sofar + more;
      }
    }
  }

  /** What one derivation returns: declarations of the report, on separate paths if kinds are. */
  lemma DerivedFacts(w: World, naming: Naming, instance: string, progress: Progress)
    requires Derive(w, naming, instance, progress).Ok? && Derive(w, naming, instance, progress).value != []
    ensures DerivationContracts(w, instance, progress).Ok?
    ensures var ds := Derive(w, naming, instance, progress).value;
            var contracts := DerivationContracts(w, instance, progress).value;
            && contracts != [] && TypesApart(contracts)
            && (forall d: Declaration :: d in ds ==> FromReport(naming, progress, d, progress.outputs, contracts))
            && (OutputPathsApart(progress.outputs) && KindsApart(contracts) ==> PathsApart(ds))
            && (forall o, c :: o in progress.outputs && c in contracts && c.kind == o.kind ==>
                Yields(naming, progress, ds, o, c))
  {
    var contracts := DerivationContracts(w, instance, progress).value;
    var sorted := SortBy(progress.outputs, OutputKey);
    SortByIsSorted(progress.outputs, OutputKey);
    DerivedFromReport(naming, progress, sorted, contracts, |sorted|);
    ReportYields(naming, progress, sorted, contracts, |sorted|);
    hide FromOutput, DeriveAll;
    var ds := Derive(w, naming, instance, progress).value;
    forall o, c | o in progress.outputs && c in contracts
        && c.kind == o.kind ensures Yields(naming, progress, ds, o, c) {
      var i :| 0 <= i < |sorted| && sorted[i] == o;
      var k :| 0 <= k < |contracts| && contracts[k] == c;
    }
    if OutputPathsApart(progress.outputs) {
      SortedPathsApart(progress.outputs, sorted);
    }
  }

  lemma SortedPathsApart(outputs: seq<Output>, sorted: seq<Output>)
    requires OutputPathsApart(outputs) && multiset(outputs) == multiset(sorted)
    ensures OutputPathsApart(sorted)
  {
    SameMembers(outputs, sorted);
    assert NoRepeats(outputs);
    PermutationRepeatsNot(outputs, sorted);
    forall i, j | 0 <= i < j < |sorted| ensures sorted[i].path != sorted[j].path {
      assert sorted[i] in outputs && sorted[j] in outputs;
      var k :| 0 <= k < |outputs| && outputs[k] == sorted[i];
      var l :| 0 <= l < |outputs| && outputs[l] == sorted[j];
      assert k != l;
    }
  }

  // A derived declaration passes every test a promotion makes of it alone

  lemma {:induction false} OutputAtFinds(outputs: seq<Output>, o: Output)
    requires OutputPathsApart(outputs) && o in outputs
    ensures OutputAt(outputs, o.path) == Some(o)
  {
    var last := |outputs| - 1;
    if outputs[last] != o {
      var i :| 0 <= i < |outputs| && outputs[i] == o;
      assert outputs[..last][i] == o;
      OutputAtFinds(outputs[..last], o);
    }
  }

  lemma {:induction false} ContractForFinds(contracts: seq<Contract>, c: Contract)
    requires TypesApart(contracts) && c in contracts
    ensures ContractFor(contracts, c.artifactType) == Some(c)
  {
    FirstFinds(contracts, (x: Contract) => x.artifactType == c.artifactType);
    var i :| 0 <= i < |contracts| && contracts[i] == c;
    var found := ContractFor(contracts, c.artifactType);
    assert found.Some?;
    var j :| 0 <= j < |contracts| && contracts[j] == found.value;
  }

  lemma {:induction false} OutputAtPath(outputs: seq<Output>, path: string)
    ensures OutputAt(outputs, path).Some? ==>
            OutputAt(outputs, path).value in outputs && OutputAt(outputs, path).value.path == path
  {
    if outputs != [] && outputs[|outputs| - 1].path != path {
      OutputAtPath(outputs[..|outputs| - 1], path);
    }
  }

  /** A declaration passes the tests made of it alone exactly when its output is the last of its path. */
  lemma DerivedPassesExactly(naming: Naming, progress: Progress, contracts: seq<Contract>, d: Declaration, o: Output,
                             c: Contract)
    requires TypesApart(contracts) && c in contracts && From(naming, progress, d, o, c)
    ensures CheckDeclaration(contracts, progress.outputs, d) == None <==> OutputAt(progress.outputs, o.path) == Some(o)
    ensures d.id == naming(Source(progress.package, progress.report, d.path, o.checksum))
  {
    ContractForFinds(contracts, c);
    OutputAtPath(progress.outputs, o.path);
  }

  /** No output that a contract takes is followed by a different output on its path. */
  ghost predicate Unshadowed(outputs: seq<Output>, contracts: seq<Contract>) {
    forall o, c :: o in outputs && c in contracts && c.kind == o.kind ==> OutputAt(outputs, o.path) == Some(o)
  }

  lemma SeparateOutputsAreUnshadowed(outputs: seq<Output>, contracts: seq<Contract>)
    requires OutputPathsApart(outputs)
    ensures Unshadowed(outputs, contracts)
  {
    forall o, c | o in outputs && c in contracts && c.kind == o.kind ensures OutputAt(outputs, o.path) == Some(o) {
      OutputAtFinds(outputs, o);
    }
  }

  lemma SeparatePathsSeparateIds(naming: Naming, progress: Progress, ds: seq<Declaration>)
    requires Distinctive(naming) && PathsApart(ds)
    requires forall d: Declaration :: d in ds ==>
             exists checksum :: d.id == naming(Source(progress.package, progress.report, d.path, checksum))
    ensures IdsApart(ds)
  {
    forall i, j | 0 <= i < j < |ds| ensures ds[i].id != ds[j].id {
      assert ds[i] in ds && ds[j] in ds;
      var a :| ds[i].id == naming(Source(progress.package, progress.report, ds[i].path, a));
      var b :| ds[j].id == naming(Source(progress.package, progress.report, ds[j].path, b));
    }
  }

  // Promotion of checked declarations

  ghost predicate AllChecked(contracts: seq<Contract>, outputs: seq<Output>, ds: seq<Declaration>) {
    forall i :: 0 <= i < |ds| ==> CheckDeclaration(contracts, outputs, ds[i]) == None
  }

  ghost predicate Unused(artifacts: seq<Artifact>, receipt: string) {
    forall a :: a in artifacts ==> a.origin.receipt != receipt
  }

  ghost predicate FreshIds(artifacts: seq<Artifact>, ds: seq<Declaration>) {
    forall a, i :: a in artifacts && 0 <= i < |ds| ==> a.declared.id != ds[i].id
  }

  function Promoted(origin: Origin, now: int): Declaration -> Artifact { (d: Declaration) => Artifact(origin, d, now) }

  lemma {:induction false} PromotedAreChecked(contracts: seq<Contract>, outputs: seq<Output>, origin: Origin, now: int,
                                              artifacts: seq<Artifact>, ds: seq<Declaration>, upto: nat)
    requires upto <= |ds| && PromoteUpTo(contracts, outputs, origin, now, artifacts, ds, upto).Ok?
    ensures forall i :: 0 <= i < upto ==> CheckDeclaration(contracts, outputs, ds[i]) == None
  {
    hide CheckDeclaration, Added;
    if upto > 0 {
      PromotedAreChecked(contracts, outputs, origin, now, artifacts, ds, upto - 1);
    }
  }

  lemma AddedFresh(artifacts: seq<Artifact>, ds: seq<Declaration>, upto: nat, origin: Origin, now: int)
    requires upto < |ds| && Unused(artifacts, origin.receipt)
    requires forall i :: 0 <= i < upto ==> ds[i].id != ds[upto].id && ds[i].path != ds[upto].path
    ensures var stored := artifacts + Map(Promoted(origin, now), ds[..upto]);
            var a := Artifact(origin, ds[upto], now);
            if forall x :: x in artifacts ==> x.declared.id != ds[upto].id then Added(stored, a) == Ok(stored + [a])
            else Added(stored, a).Err?
  {
    var earlier := Map(Promoted(origin, now), ds[..upto]);
    var stored, d := artifacts + earlier, ds[upto];
    forall x | x in stored ensures x in artifacts
        || (x.declared.id != d.id && x.declared.path != d.path && x.origin == origin) {
      if x !in artifacts {
        assert x in earlier;
        var i :| 0 <= i < upto && earlier[i] == x;
        assert x.declared == ds[i];
      }
    }
    FirstFinds(stored, (x: Artifact) => SameId(x, Artifact(origin, d, now)));
    FirstFinds(stored, (x: Artifact) => SamePath(x, Artifact(origin, d, now)));
    if x :| x in artifacts && x.declared.id == d.id {
      assert x in stored;
    }
  }

  /** Checked declarations are promoted in full exactly when identities and paths are all separate and new. */
  lemma {:induction false} PromotedInFull(contracts: seq<Contract>, outputs: seq<Output>, origin: Origin, now: int,
                                          artifacts: seq<Artifact>, ds: seq<Declaration>, upto: nat)
    requires upto <= |ds| && AllChecked(contracts, outputs, ds) && Unused(artifacts, origin.receipt)
    ensures PromoteUpTo(contracts, outputs, origin, now, artifacts, ds, upto).Ok?
            <==> IdsApart(ds[..upto]) && PathsApart(ds[..upto]) && FreshIds(artifacts, ds[..upto])
    ensures PromoteUpTo(contracts, outputs, origin, now, artifacts, ds, upto).Ok? ==>
              PromoteUpTo(contracts, outputs, origin, now, artifacts, ds, upto).value
              == (artifacts + Map(Promoted(origin, now), ds[..upto]), Map(Promoted(origin, now), ds[..upto]))
  {
    hide CheckDeclaration, Added, Unused;
    if upto == 0 {
      assert Map(Promoted(origin, now), ds[..0]) == [] && artifacts + [] == artifacts;
    } else {
      PromotedInFull(contracts, outputs, origin, now, artifacts, ds, upto - 1);
      var front, all, d := ds[..upto - 1], ds[..upto], ds[upto - 1];
      assert all == front + [d];
      if PromoteUpTo(contracts, outputs, origin, now, artifacts, ds, upto - 1).Ok? {
        if exists i :: 0 <= i < upto - 1 && (ds[i].id == d.id || ds[i].path == d.path) {
          var i :| 0 <= i < upto - 1 && (ds[i].id == d.id || ds[i].path == d.path);
          assert all[i] == ds[i] && all[upto - 1] == d;
          assert !(IdsApart(all) && PathsApart(all));
        } else {
          AddedFresh(artifacts, ds, upto - 1, origin, now);
          assert Map(Promoted(origin, now), all) == Map(Promoted(origin, now), front) + [Artifact(origin, d, now)];
          assert artifacts + Map(Promoted(origin, now), all) == artifacts + Map(Promoted(origin, now), front)
                 + [Artifact(origin, d, now)];
          Extending(front, d);
          assert FreshIds(artifacts, all) <==> FreshIds(artifacts, front) && forall x :: x in artifacts ==>
                 x.declared.id != d.id by {
            FreshExtending(artifacts, front, d);
          }
        }
      } else {
        FreshExtending(artifacts, front, d);
        Shrinking(front, d);
      }
    }
  }

  lemma Extending(front: seq<Declaration>, d: Declaration)
    requires forall i :: 0 <= i < |front| ==> front[i].id != d.id && front[i].path != d.path
    ensures IdsApart(front) ==> IdsApart(front + [d])
    ensures PathsApart(front) ==> PathsApart(front + [d])
  {
  }

  lemma Shrinking(front: seq<Declaration>, d: Declaration)
    ensures IdsApart(front + [d]) ==> IdsApart(front)
    ensures PathsApart(front + [d]) ==> PathsApart(front)
  {
    var all := front + [d];
    assert forall i :: 0 <= i < |front| ==> all[i] == front[i];
  }

  lemma FreshExtending(artifacts: seq<Artifact>, front: seq<Declaration>, d: Declaration)
    ensures FreshIds(artifacts, front + [d]) <==> FreshIds(artifacts, front) && forall x :: x in artifacts ==>
            x.declared.id != d.id
  {
    var all := front + [d];
    assert forall i :: 0 <= i < |front| ==> all[i] == front[i];
    assert all[|front|] == d;
  }

  lemma SortedSeparation(ds: seq<Declaration>, sorted: seq<Declaration>, artifacts: seq<Artifact>)
    requires multiset(ds) == multiset(sorted)
    ensures IdsApart(ds) && PathsApart(ds) && FreshIds(artifacts, ds) ==>
            IdsApart(sorted) && PathsApart(sorted) && FreshIds(artifacts, sorted)
  {
    SameMembers(ds, sorted);
    if IdsApart(ds) && PathsApart(ds) && FreshIds(artifacts, ds) {
      assert NoRepeats(ds);
      PermutationRepeatsNot(ds, sorted);
      forall i, j | 0 <= i < j < |sorted| ensures sorted[i].id != sorted[j].id && sorted[i].path != sorted[j].path {
        assert sorted[i] in ds && sorted[j] in ds;
        var k :| 0 <= k < |ds| && ds[k] == sorted[i];
        var l :| 0 <= l < |ds| && ds[l] == sorted[j];
        assert k != l;
      }
      forall a, i | a in artifacts && 0 <= i < |sorted| ensures a.declared.id != sorted[i].id {
        assert sorted[i] in ds;
        var k :| 0 <= k < |ds| && ds[k] == sorted[i];
      }
    }
  }

  lemma NothingListed(artifacts: seq<Artifact>, receipt: string)
    ensures ListForProgress(artifacts, receipt) == [] <==> Unused(artifacts, receipt)
  {
    var mine := Filter(artifacts, (a: Artifact) => a.origin.receipt == receipt);
    InFilter(artifacts, (a: Artifact) => a.origin.receipt == receipt);
    SortByIsSorted(mine, ArtifactKey);
    if mine != [] {
      assert mine[0] in artifacts;
    }
  }

  lemma PinnedAlike(w: World, report: Report, progress: Progress)
    requires DerivationContracts(w, report.instance, progress).Ok?
             && DerivationContracts(w, report.instance, progress).value != []
    ensures PromotionContracts(w, report, progress).Ok? <==> w.instances[report.instance].project == report.project
    ensures PromotionContracts(w, report, progress).Ok? ==>
              PromotionContracts(w, report, progress).value.0 == DerivationContracts(w, report.instance, progress).value
              && PromotionContracts(w, report, progress).value.1.receipt == report.receipt
  {
  }

  /**
   * Whatever a derivation returns is promoted in full, one artifact for each declaration in path
   * order, exactly when the report is accepted and of the producer's project, holds at most a
   * hundred declarations on separate paths under new identifiers, and repeats no declared path
   * with a different output.
   */
  lemma DerivedDeclarationsPromote(w: World, naming: Naming, artifacts: seq<Artifact>, report: Report,
                                   progress: Progress, now: int)
    requires Distinctive(naming) && Unused(artifacts, report.receipt)
    requires Derive(w, naming, report.instance, progress).Ok?
             && Derive(w, naming, report.instance, progress).value != []
    ensures report.instance in w.instances && DerivationContracts(w, report.instance, progress).Ok?
    ensures var ds := Derive(w, naming, report.instance, progress).value;
            var contracts := DerivationContracts(w, report.instance, progress).value;
            var (stored, promoted) := Promote(w, artifacts, report, progress, ds, now);
            && (promoted.Ok? <==> report.accepted && w.instances[report.instance].project == report.project
                                  && |ds| <= DECLARATION_LIMIT && PathsApart(ds) && FreshIds(artifacts, ds)
                                  && Unshadowed(progress.outputs, contracts))
            && (promoted.Ok? ==>
                  && stored == artifacts + promoted.value
                  && Map(DeclaredBy, promoted.value) == SortBy(ds, DeclarationKey)
                  && forall a :: a in promoted.value ==> a.origin.receipt == report.receipt && a.createdAt == now)
            && (promoted.Err? ==> stored == artifacts)
  {
    var ds := Derive(w, naming, report.instance, progress).value;
    DerivedFacts(w, naming, report.instance, progress);
    var contracts := DerivationContracts(w, report.instance, progress).value;
    var sorted := SortBy(ds, DeclarationKey);
    SortByIsSorted(ds, DeclarationKey);
    NothingListed(artifacts, report.receipt);
    PinnedAlike(w, report, progress);
    hide Derive, DerivationContracts, PromotionContracts, ListForProgress, FromReport, TypesApart, CheckDeclaration,
        Unused, Distinctive, PathsApart, FreshIds, IdsApart, KindsApart, SortBy, Yields, Unshadowed;
    DerivedCheckedExactly(naming, progress, contracts, ds);
    if PromotionContracts(w, report, progress).Ok? && report.accepted && |ds| <= DECLARATION_LIMIT {
      var origin := PromotionContracts(w, report, progress).value.1;
      CheckedPromotion(contracts, progress.outputs, origin, now, artifacts, ds, sorted);
    }
  }

  const FIGURE := Output("outputs/a", "figure", "sum", "text", Some(1))
  const TABLE := FIGURE.(kind := "table")
  const FIGURES := Contract("figure", "v1", "text", "figure", ExactPath("outputs/a"))

  /** A report's world with the one contract, for figures. */
  function FigureWorld(progress: Progress, report: Report): World {
    World(map[report.instance := Producer(report.project, progress.definition, progress.version, Some("c"), Some("1"))],
          map[("c", "1") := [FIGURES]])
  }

  lemma FigureIsDerived(naming: Naming, progress: Progress)
    ensures DeriveAll(naming, progress, [FIGURE, TABLE], [FIGURES], 2)
            == Ok([DeclarationFor(naming, progress, FIGURE, FIGURES, 1)])
  {
    var d := DeclarationFor(naming, progress, FIGURE, FIGURES, 1);
    var none: seq<Declaration> := [];
    assert d.path[..8] == "outputs/" && none + [d] == [d] && [d] + none == [d] && none + none == none;
    assert DeriveOne(naming, progress, FIGURE, FIGURES) == Ok([d]);
    assert DeriveOne(naming, progress, TABLE, FIGURES) == Ok([]);
    assert DeriveOutput(naming, progress, FIGURE, [FIGURES], 0) == Ok([]);
    assert DeriveOutput(naming, progress, TABLE, [FIGURES], 0) == Ok([]);
    assert DeriveOutput(naming, progress, FIGURE, [FIGURES], 1) == Ok([d]);
    assert DeriveOutput(naming, progress, TABLE, [FIGURES], 1) == Ok([]);
    hide DeriveOutput, DeclarationFor;
    assert DeriveAll(naming, progress, [FIGURE, TABLE], [FIGURES], 0) == Ok([]);
    assert DeriveAll(naming, progress, [FIGURE, TABLE], [FIGURES], 1) == Ok([d]);
  }

  lemma FigureFirst()
    ensures SortBy([FIGURE, TABLE], OutputKey) == [FIGURE, TABLE]
  {
    assert KeyLeq(OutputKey(FIGURE), OutputKey(TABLE));
    assert [FIGURE, TABLE][1..] == [TABLE] && SortBy([TABLE], OutputKey) == [TABLE];
  }

  lemma FigureWorldDerives(naming: Naming, progress: Progress, report: Report)
    requires progress.completed && progress.outputs == [FIGURE, TABLE]
    ensures DerivationContracts(FigureWorld(progress, report), report.instance, progress) == Ok([FIGURES])
    ensures Derive(FigureWorld(progress, report), naming, report.instance, progress)
            == Ok([DeclarationFor(naming, progress, FIGURE, FIGURES, 1)])
  {
    FigureFirst();
    FigureIsDerived(naming, progress);
    hide DeriveAll, SortBy, DeclarationFor;
  }

  lemma FigureIsShadowed()
    ensures !Unshadowed([FIGURE, TABLE], [FIGURES])
  {
    assert OutputAt([FIGURE, TABLE], FIGURE.path) == Some(TABLE);
    assert FIGURE in [FIGURE, TABLE] && FIGURES in [FIGURES];
  }

  /**
   * A figure followed by a table on its path: the figure is declared, and the promotion, which reads
   * the path as the table, refuses it whatever is stored.
   */
  lemma ShadowedOutputIsRefused(naming: Naming, artifacts: seq<Artifact>, progress: Progress, report: Report, now: int)
    requires Distinctive(naming) && Unused(artifacts, report.receipt)
    requires progress.completed && progress.outputs == [FIGURE, TABLE]
    ensures var w := FigureWorld(progress, report);
            var d := DeclarationFor(naming, progress, FIGURE, FIGURES, 1);
            && Derive(w, naming, report.instance, progress) == Ok([d])
            && Promote(w, artifacts, report, progress, [d], now).1.Err?
  {
    hide Derive, DerivationContracts, Promote, Distinctive, Unused, DeclarationFor, Unshadowed, PathsApart, FreshIds;
    FigureWorldDerives(naming, progress, report);
    FigureIsShadowed();
    DerivedDeclarationsPromote(FigureWorld(progress, report), naming, artifacts, report, progress, now);
  }

  ghost predicate EachChecked(contracts: seq<Contract>, outputs: seq<Output>, ds: seq<Declaration>) {
    forall d: Declaration :: d in ds ==> CheckDeclaration(contracts, outputs, d) == None
  }

  lemma DerivedCheckedExactly(naming: Naming, progress: Progress, contracts: seq<Contract>, ds: seq<Declaration>)
    requires Distinctive(naming) && TypesApart(contracts)
    requires forall d: Declaration :: d in ds ==> FromReport(naming, progress, d, progress.outputs, contracts)
    requires forall o, c :: o in progress.outputs && c in contracts && c.kind == o.kind ==>
             Yields(naming, progress, ds, o, c)
    ensures EachChecked(contracts, progress.outputs, ds) <==> Unshadowed(progress.outputs, contracts)
    ensures PathsApart(ds) ==> IdsApart(ds)
  {
    hide TypesApart, CheckDeclaration, PathsApart, IdsApart, Distinctive, OutputAt;
    forall d | d in ds
      ensures exists checksum :: d.id == naming(Source(progress.package, progress.report, d.path, checksum))
      ensures Unshadowed(progress.outputs, contracts) ==> CheckDeclaration(contracts, progress.outputs, d) == None
    {
      var o :| o in progress.outputs && FromOutput(naming, progress, d, o, contracts);
      var c :| c in contracts && From(naming, progress, d, o, c);
      DerivedPassesExactly(naming, progress, contracts, d, o, c);
      assert c.kind == o.kind;
    }
    forall o, c | o in progress.outputs && c in contracts && c.kind == o.kind
      ensures EachChecked(contracts, progress.outputs, ds) ==> OutputAt(progress.outputs, o.path) == Some(o)
    {
      assert Yields(naming, progress, ds, o, c);
      var d :| d in ds && From(naming, progress, d, o, c);
      DerivedPassesExactly(naming, progress, contracts, d, o, c);
    }
    if PathsApart(ds) {
      SeparatePathsSeparateIds(naming, progress, ds);
    }
  }

  lemma CheckedPromotion(contracts: seq<Contract>, outputs: seq<Output>, origin: Origin, now: int,
                         artifacts: seq<Artifact>,
                         ds: seq<Declaration>, sorted: seq<Declaration>)
    requires multiset(ds) == multiset(sorted) && Unused(artifacts, origin.receipt)
    requires PathsApart(ds) ==> IdsApart(ds)
    ensures var done := PromoteUpTo(contracts, outputs, origin, now, artifacts, sorted, |sorted|);
            && (done.Ok? <==> EachChecked(contracts, outputs, ds) && PathsApart(ds) && FreshIds(artifacts, ds))
            && (done.Ok? ==> done.value.0 == artifacts + done.value.1 && Map(DeclaredBy, done.value.1) == sorted
                             && forall a :: a in done.value.1 ==> a.origin == origin && a.createdAt == now)
  {
    SameMembers(ds, sorted);
    SortedSeparation(ds, sorted, artifacts);
    SortedSeparation(sorted, ds, artifacts);
    hide CheckDeclaration, PathsApart, IdsApart, FreshIds, PromoteUpTo, Unused;
    assert sorted[..|sorted|] == sorted;
    if PromoteUpTo(contracts, outputs, origin, now, artifacts, sorted, |sorted|).Ok? {
      PromotedAreChecked(contracts, outputs, origin, now, artifacts, sorted, |sorted|);
    }
    if EachChecked(contracts, outputs, ds) {
      assert forall i :: 0 <= i < |sorted| ==> sorted[i] in ds;
      PromotedInFull(contracts, outputs, origin, now, artifacts, sorted, |sorted|);
    }
    DeclaredOfPromoted(origin, now, sorted);
  }

  lemma DeclaredOfPromoted(origin: Origin, now: int, ds: seq<Declaration>)
    ensures Map(DeclaredBy, Map(Promoted(origin, now), ds)) == ds
    ensures forall a :: a in Map(Promoted(origin, now), ds) ==> a.origin == origin && a.createdAt == now
  {
    var made := Map(Promoted(origin, now), ds);
    forall i | 0 <= i < |ds| ensures made[i] == Artifact(origin, ds[i], now) && Map(DeclaredBy, made)[i] == ds[i] {
      assert made[i] == Promoted(origin, now)(ds[i]);
      assert Map(DeclaredBy, made)[i] == DeclaredBy(made[i]);
    }
  }

  /** With one contract for each kind, derived declarations are always on separate paths. */
  lemma DistinctKindsSeparatePaths(w: World, naming: Naming, instance: string, progress: Progress)
    requires OutputPathsApart(progress.outputs)
    requires DerivationContracts(w, instance, progress).Ok?
             && KindsApart(DerivationContracts(w, instance, progress).value)
    requires Derive(w, naming, instance, progress).Ok?
    ensures PathsApart(Derive(w, naming, instance, progress).value)
  {
    if Derive(w, naming, instance, progress).value != [] {
      DerivedFacts(w, naming, instance, progress);
    }
  }

  // Replays

  lemma DeclaredAt(promoted: seq<Artifact>, sorted: seq<Declaration>, i: nat)
    requires Map(DeclaredBy, promoted) == sorted && i < |promoted|
    ensures i < |sorted| && promoted[i].declared == sorted[i]
  {
    assert Map(DeclaredBy, promoted)[i] == DeclaredBy(promoted[i]);
  }

  /** Artifacts promoted in order are sorted already, so sorting them changes nothing. */
  lemma PromotedAreSorted(promoted: seq<Artifact>, sorted: seq<Declaration>)
    requires Map(DeclaredBy, promoted) == sorted && Sorted(sorted, DeclarationKey) && IdsApart(sorted)
    ensures SortBy(promoted, ArtifactKey) == promoted
  {
    hide Map;
    SortByIsSorted(promoted, ArtifactKey);
    forall i, j | 0 <= i < j < |promoted| ensures KeyLeq(ArtifactKey(promoted[i]), ArtifactKey(promoted[j])) {
      DeclaredAt(promoted, sorted, i);
      DeclaredAt(promoted, sorted, j);
    }
    forall x, y | x in promoted && y in promoted && ArtifactKey(x) == ArtifactKey(y) ensures x == y {
      var i :| 0 <= i < |promoted| && promoted[i] == x;
      var j :| 0 <= j < |promoted| && promoted[j] == y;
      DeclaredAt(promoted, sorted, i);
      DeclaredAt(promoted, sorted, j);
    }
    hide KeyLeq, IdsApart;
    SortedIsUnique(promoted, SortBy(promoted, ArtifactKey), ArtifactKey);
  }

  lemma PromotedAreListed(artifacts: seq<Artifact>, promoted: seq<Artifact>, sorted: seq<Declaration>, receipt: string)
    requires Unused(artifacts, receipt) && Map(DeclaredBy, promoted) == sorted && Sorted(sorted, DeclarationKey)
             && IdsApart(sorted)
    requires forall a :: a in promoted ==> a.origin.receipt == receipt
    ensures ListForProgress(artifacts + promoted, receipt) == promoted
  {
    var mine := (a: Artifact) => a.origin.receipt == receipt;
    FilterAppend(artifacts, promoted, mine);
    FilterAll(artifacts, mine);
    FilterAll(promoted, mine);
    assert Filter(artifacts + promoted, mine) == promoted;
    PromotedAreSorted(promoted, sorted);
  }

  lemma {:induction false} PromotedDeclarations(contracts: seq<Contract>, outputs: seq<Output>, origin: Origin,
                                                now: int,
                                                artifacts: seq<Artifact>, ds: seq<Declaration>, upto: nat)
    requires upto <= |ds| && PromoteUpTo(contracts, outputs, origin, now, artifacts, ds, upto).Ok?
             && Unused(artifacts, origin.receipt)
    ensures IdsApart(ds[..upto])
    ensures PromoteUpTo(contracts, outputs, origin, now, artifacts, ds, upto).value
            == (artifacts + Map(Promoted(origin, now), ds[..upto]), Map(Promoted(origin, now), ds[..upto]))
  {
    hide CheckDeclaration, Added, Unused;
    if upto == 0 {
      assert Map(Promoted(origin, now), ds[..0]) == [] && artifacts + [] == artifacts;
    } else {
      PromotedDeclarations(contracts, outputs, origin, now, artifacts, ds, upto - 1);
      AddedFresh(artifacts, ds, upto - 1, origin, now);
      var front, all, d := ds[..upto - 1], ds[..upto], ds[upto - 1];
      assert all == front + [d];
      assert Map(Promoted(origin, now), all) == Map(Promoted(origin, now), front) + [Artifact(origin, d, now)];
      assert artifacts + Map(Promoted(origin, now), all) == artifacts + Map(Promoted(origin, now), front)
             + [Artifact(origin, d, now)];
      assert forall i :: 0 <= i < |front| ==> front[i] == ds[i];
      Extending(front, d);
    }
  }

  lemma FirstPromotion(w: World, artifacts: seq<Artifact>, report: Report, progress: Progress, ds: seq<Declaration>,
                       now: int)
    requires Unused(artifacts, report.receipt) && ds != [] && Promote(w, artifacts, report, progress, ds, now).1.Ok?
    ensures var (stored, promoted) := Promote(w, artifacts, report, progress, ds, now);
            && stored == artifacts + promoted.value && Map(DeclaredBy, promoted.value) == SortBy(ds, DeclarationKey)
            && IdsApart(SortBy(ds, DeclarationKey))
            && forall a :: a in promoted.value ==> a.origin.receipt == report.receipt
  {
    NothingListed(artifacts, report.receipt);
    var (contracts, origin) := PromotionContracts(w, report, progress).value;
    var sorted := SortBy(ds, DeclarationKey);
    hide ListForProgress, SortBy, Unused;
    PromotedDeclarations(contracts, progress.outputs, origin, now, artifacts, sorted, |sorted|);
    assert sorted[..|sorted|] == sorted;
    DeclaredOfPromoted(origin, now, sorted);
  }

  lemma PermutationsSortAlike(again: seq<Declaration>, ds: seq<Declaration>)
    requires IdsApart(SortBy(ds, DeclarationKey))
    ensures SortBy(again, DeclarationKey) == SortBy(ds, DeclarationKey) <==> multiset(again) == multiset(ds)
  {
    var sorted := SortBy(ds, DeclarationKey);
    SortByIsSorted(ds, DeclarationKey);
    SortByIsSorted(again, DeclarationKey);
    hide SortBy, Sorted;
    if multiset(again) == multiset(ds) {
      forall x, y | x in again && y in again && DeclarationKey(x) == DeclarationKey(y) ensures x == y {
        assert x in multiset(again) && y in multiset(again);
        assert x in sorted && y in sorted;
        var i :| 0 <= i < |sorted| && sorted[i] == x;
        var j :| 0 <= j < |sorted| && sorted[j] == y;
      }
      SortIsCanonical(again, ds, DeclarationKey);
    }
  }

  /**
   * After a first promotion a replay changes nothing and succeeds exactly when its declarations
   * are a permutation of the first ones; it then returns the artifacts of the first.
   */
  lemma ReplayIsAPermutation(w: World, artifacts: seq<Artifact>, report: Report, progress: Progress,
                             ds: seq<Declaration>, now: int,
                             w': World, progress': Progress, again: seq<Declaration>, later: int)
    requires Unused(artifacts, report.receipt) && ds != [] && Promote(w, artifacts, report, progress, ds, now).1.Ok?
    ensures var (stored, promoted) := Promote(w, artifacts, report, progress, ds, now);
            var (stored', replayed) := Promote(w', stored, report, progress', again, later);
            && stored' == stored
            && (replayed.Ok? <==> multiset(again) == multiset(ds))
            && (replayed.Ok? ==> replayed == promoted)
  {
    var (stored, promoted) := Promote(w, artifacts, report, progress, ds, now);
    var sorted := SortBy(ds, DeclarationKey);
    FirstPromotion(w, artifacts, report, progress, ds, now);
    SortByIsSorted(ds, DeclarationKey);
    PromotedAreListed(artifacts, promoted.value, sorted, report.receipt);
    PermutationsSortAlike(again, ds);
    hide ListForProgress, PromoteUpTo, PromotionContracts, SortBy, Unused, IdsApart;
    assert |promoted.value| == |ds|;
  }
}
