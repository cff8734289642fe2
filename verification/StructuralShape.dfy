/**
 * The value-free structural descriptor of a provider response.
 *
 * The checksum is a free constructor over the descriptor, so only the entries are modelled; `key`
 * is the canonical text by which child shapes are sorted, one text for each child shape.
 */
module StructuralShape {
  import opened Outcomes
  import opened Ordering
  import opened Sequences
  import opened JsonValues

  const MAX_STRUCTURAL_COUNT: nat := 100_000

  datatype Kind = MissingKind | NullKind | BooleanKind | IntegerKind | NumberKind | StringKind | ArrayKind | ObjectKind

  datatype Path =
    | RootPath | MetaPath | CostPath | ResultsPath | WorkPath | WorkFieldPath(key: string)
    | AuthorshipPath | AuthorPath | AuthorFieldPath(key: string) | AbstractPath | SourcePath | SourceNamePath

  datatype Child = Child(count: Option<nat>, elementKinds: Option<seq<Kind>>, kind: Kind)

  datatype Entry = Entry(path: Path, count: Option<nat>, children: Option<seq<Child>>, kind: Kind,
    nested: Option<nat>, record: Option<nat>)

  /** A value under its key, or None when the key is absent. */
  type Slot = Option<Json>

  const WORK_FIELDS := ["id", "doi", "display_name", "authorships", "publication_year", "primary_location", "language"]
  const WORK_KEYS := ["id", "doi", "display_name", "authorships", "abstract_inverted_index", "publication_year",
                      "primary_location", "language"]
  const AUTHOR_FIELDS := ["id", "display_name", "orcid"]

  function KindOf(value: Slot): Kind {
    match value
    case None => MissingKind
    case Some(Null) => NullKind
    case Some(Bool(_)) => BooleanKind
    case Some(Int(_)) => IntegerKind
    case Some(Fraction(_)) => NumberKind
    case Some(Text(_)) => StringKind
    case Some(Arr(_)) => ArrayKind
    case Some(Obj(_)) => ObjectKind
  }

  function KindName(kind: Kind): Key {
    match kind
    case MissingKind => ("MISSING", 0, "")
    case NullKind => ("NULL", 0, "")
    case BooleanKind => ("BOOLEAN", 0, "")
    case IntegerKind => ("INTEGER", 0, "")
    case NumberKind => ("NUMBER", 0, "")
    case StringKind => ("STRING", 0, "")
    case ArrayKind => ("ARRAY", 0, "")
    case ObjectKind => ("OBJECT", 0, "")
  }

  function Size(value: Json): nat {
    match value
    case Arr(items) => |items|
    case Obj(fields) => |fields|
    case _ => 0
  }

  function BoundedCount(value: Slot): Option<nat> {
    if value.Some? && (value.value.Arr? || value.value.Obj?) then
      Some(if Size(value.value) < MAX_STRUCTURAL_COUNT then Size(value.value) else MAX_STRUCTURAL_COUNT)
    else None
  }

  function Field(value: Json, key: string): Slot
    requires value.Obj?
  {
    Lookup(value.fields, key)
  }

  function Lookup(fields: seq<(string, Json)>, key: string): Slot {
    if fields == [] then None else if fields[0].0 == key then Some(fields[0].1) else Lookup(fields[1..], key)
  }

  function Present(value: Json, keys: seq<string>): nat
    requires value.Obj?
  {
    if keys == [] then 0 else (if Field(value, keys[0]).Some? then 1 else 0) + Present(value, keys[1..])
  }

  function Plain(path: Path, value: Slot, record: Option<nat>, nested: Option<nat>): Entry {
    Entry(path, BoundedCount(value), None, KindOf(value), nested, record)
  }

  /** An entry that counts which of the approved keys an object has. */
  function Keyed(path: Path, value: Slot, keys: seq<string>, record: Option<nat>, nested: Option<nat>): Entry {
    Entry(path, if KindOf(value).ObjectKind? then Some(Present(value.value, keys)) else BoundedCount(value),
          None, KindOf(value), nested, record)
  }

  function ChildOf(positions: Json): Child {
    Child(BoundedCount(Some(positions)),
          if positions.Arr? then
              Some(SortBy(seq(|positions.items|,
                              i requires 0 <= i < |positions.items| => KindOf(Some(positions.items[i]))), KindName))
          else None,
          KindOf(Some(positions)))
  }

  function ChildrenOf(fields: seq<(string, Json)>): seq<Child> {
    seq(|fields|, i requires 0 <= i < |fields| => ChildOf(fields[i].1))
  }

  function AbstractEntry(value: Slot, record: nat, key: Child -> Key): Entry {
    Entry(AbstractPath, BoundedCount(value),
          if KindOf(value).ObjectKind? then Some(SortBy(ChildrenOf(value.value.fields), key)) else None,
          KindOf(value), None, Some(record))
  }

  // The descriptor, block by block

  function Fields(value: Json, keys: seq<string>, path: string -> Path, record: nat,
                  nested: Option<nat>): (entries: seq<Entry>)
    requires value.Obj?
    ensures |entries| == |keys|
  {
    seq(|keys|, i requires 0 <= i < |keys| => Plain(path(keys[i]), Field(value, keys[i]), Some(record), nested))
  }

  function AuthorBlock(author: Slot, record: nat, nested: nat): seq<Entry> {
    [Keyed(AuthorPath, author, AUTHOR_FIELDS, Some(record), Some(nested))]
    + if KindOf(author).ObjectKind? then
        Fields(author.value, AUTHOR_FIELDS, k => AuthorFieldPath(k), record, Some(nested))
      else []
  }

  function AuthorshipEntries(authorship: Json, record: nat, nested: nat): seq<Entry> {
    [Keyed(AuthorshipPath, Some(authorship), ["author"], Some(record), Some(nested))]
    + if !authorship.Obj? then [] else AuthorBlock(Field(authorship, "author"), record, nested)
  }

  function AuthorshipsUpTo(items: seq<Json>, record: nat, n: nat): seq<Entry>
    requires n <= |items|
  {
    if n == 0 then [] else AuthorshipsUpTo(items, record, n - 1) + AuthorshipEntries(items[n - 1], record, n - 1)
  }

  function AuthorsEntries(authorships: Slot, record: nat): seq<Entry> {
    if KindOf(authorships).ArrayKind? then
        AuthorshipsUpTo(authorships.value.items, record, |authorships.value.items|) else []
  }

  function SourceBlock(source: Slot, record: nat): seq<Entry> {
    [Keyed(SourcePath, source, ["display_name"], Some(record), None)]
    + if KindOf(source).ObjectKind? then Fields(source.value, ["display_name"], k => SourceNamePath, record, None)
        else []
  }

  function LocationEntries(location: Slot, record: nat): seq<Entry> {
    if KindOf(location).ObjectKind? then SourceBlock(Field(location.value, "source"), record) else []
  }

  function WorkBody(work: Json, record: nat, key: Child -> Key): seq<Entry>
    requires work.Obj?
  {
    Fields(work, WORK_FIELDS, k => WorkFieldPath(k), record, None)
    + (AuthorsEntries(Field(work, "authorships"), record)
       + ([AbstractEntry(Field(work, "abstract_inverted_index"), record, key)]
          + LocationEntries(Field(work, "primary_location"), record)))
  }

  function WorkEntries(work: Json, record: nat, key: Child -> Key): seq<Entry> {
    [Keyed(WorkPath, Some(work), WORK_KEYS, Some(record), None)] + if work.Obj? then WorkBody(work, record, key) else []
  }

  function WorksUpTo(works: seq<Json>, n: nat, key: Child -> Key): seq<Entry>
    requires n <= |works|
  {
    if n == 0 then [] else WorksUpTo(works, n - 1, key) + WorkEntries(works[n - 1], n - 1, key)
  }

  function MetaEntries(meta: Slot): seq<Entry> {
    [Keyed(MetaPath, meta, ["cost_usd"], None, None)]
    + if KindOf(meta).ObjectKind? then [Plain(CostPath, Field(meta.value, "cost_usd"), None, None)] else []
  }

  function ResultsEntries(results: Slot, key: Child -> Key): seq<Entry> {
    [Plain(ResultsPath, results, None, None)]
    + if KindOf(results).ArrayKind? then WorksUpTo(results.value.items, |results.value.items|, key) else []
  }

  function Descriptor(value: Json, key: Child -> Key): seq<Entry> {
    [Keyed(RootPath, Some(value), ["meta", "results"], None, None)]
    + if !value.Obj? then [] else MetaEntries(Field(value, "meta")) + ResultsEntries(Field(value, "results"), key)
  }

  lemma OneField(value: Json, key: string, path: string -> Path, record: nat)
    requires value.Obj?
    ensures Fields(value, [key], path, record, None) == [Plain(path(key), Field(value, key), Some(record), None)]
  {
  }

  // The loops

  method DescribeChildren(fields: seq<(string, Json)>, key: Child -> Key) returns (children: seq<Child>)
    ensures children == SortBy(ChildrenOf(fields), key)
  {
    children := [];
    for i := 0 to |fields|
      invariant children == ChildrenOf(fields)[..i]
    {
      children := children + [ChildOf(fields[i].1)];
    }
    assert ChildrenOf(fields)[..|fields|] == ChildrenOf(fields);
    children := SortBy(children, key);
  }

  method DescribeAuthorships(items: seq<Json>, record: nat) returns (entries: seq<Entry>)
    ensures entries == AuthorshipsUpTo(items, record, |items|)
  {
    entries := [];
    for nested := 0 to |items|
      invariant entries == AuthorshipsUpTo(items, record, nested)
    {
      ghost var before := entries;
      var authorship := items[nested];
      entries := entries + [Keyed(AuthorshipPath, Some(authorship), ["author"], Some(record), Some(nested))];
      if !authorship.Obj? {
        continue;
      }
      var author := Field(authorship, "author");
      entries := entries + [Keyed(AuthorPath, author, AUTHOR_FIELDS, Some(record), Some(nested))];
      if KindOf(author).ObjectKind? {
        entries := entries + Fields(author.value, AUTHOR_FIELDS, k => AuthorFieldPath(k), record, Some(nested));
      }
      assert entries == before + AuthorshipEntries(authorship, record, nested);
    }
  }

  method DescribeLocation(location: Slot, record: nat) returns (entries: seq<Entry>)
    ensures entries == LocationEntries(location, record)
  {
    hide Present, BoundedCount, Lookup, Keyed, Plain, Fields;
    entries := [];
    if KindOf(location).ObjectKind? {
      var source := Field(location.value, "source");
      entries := entries + [Keyed(SourcePath, source, ["display_name"], Some(record), None)];
      if KindOf(source).ObjectKind? {
        OneField(source.value, "display_name", k => SourceNamePath, record);
        entries := entries + [Plain(SourceNamePath, Field(source.value, "display_name"), Some(record), None)];
      }
    }
  }

  method DescribeWork(work: Json, record: nat, key: Child -> Key) returns (entries: seq<Entry>)
    ensures entries == WorkEntries(work, record, key)
  {
    hide AuthorshipsUpTo, SortBy, ChildrenOf, Fields, Present, BoundedCount, Lookup, Keyed, LocationEntries;
    entries := [Keyed(WorkPath, Some(work), WORK_KEYS, Some(record), None)];
    if !work.Obj? {
      return;
    }
    entries := entries + Fields(work, WORK_FIELDS, k => WorkFieldPath(k), record, None);
    var authorships := Field(work, "authorships");
    if KindOf(authorships).ArrayKind? {
      var described := DescribeAuthorships(authorships.value.items, record);
      entries := entries + described;
    }
    var abstract_index := Field(work, "abstract_inverted_index");
    var children: Option<seq<Child>> := None;
    if KindOf(abstract_index).ObjectKind? {
      var described := DescribeChildren(abstract_index.value.fields, key);
      children := Some(described);
    }
    entries := entries
        + [Entry(AbstractPath, BoundedCount(abstract_index), children, KindOf(abstract_index), None, Some(record))];
    var located := DescribeLocation(Field(work, "primary_location"), record);
    entries := entries + located;
    assert entries == WorkEntries(work, record, key);
  }

  method Describe(value: Json, key: Child -> Key) returns (entries: seq<Entry>)
    ensures entries == Descriptor(value, key)
  {
    hide SortBy, WorkEntries, Present, BoundedCount, Lookup;
    entries := [Keyed(RootPath, Some(value), ["meta", "results"], None, None)];
    if !value.Obj? {
      return;
    }
    var meta := Field(value, "meta");
    entries := entries + [Keyed(MetaPath, meta, ["cost_usd"], None, None)];
    if KindOf(meta).ObjectKind? {
      entries := entries + [Plain(CostPath, Field(meta.value, "cost_usd"), None, None)];
    }
    var results := Field(value, "results");
    entries := entries + [Plain(ResultsPath, results, None, None)];
    ghost var before := entries;
    if KindOf(results).ArrayKind? {
      var works := results.value.items;
      for record := 0 to |works|
        invariant entries == before + WorksUpTo(works, record, key)
      {
        var described := DescribeWork(works[record], record, key);
        entries := entries + described;
      }
    }
    assert entries == Descriptor(value, key);
  }

  // What two documents must share to look the same

  /** Same presence, same kind, and same bounded size if a container. */
  predicate SameField(a: Slot, b: Slot) { KindOf(a) == KindOf(b) && BoundedCount(a) == BoundedCount(b) }

  /** Like SameField, but an object counts only for the fields selected below it. */
  predicate SameSelected(a: Slot, b: Slot) {
    KindOf(a) == KindOf(b) && (!KindOf(a).ObjectKind? ==> BoundedCount(a) == BoundedCount(b))
  }

  predicate SameFields(a: Json, b: Json, keys: seq<string>)
    requires a.Obj? && b.Obj?
  {
    forall i :: 0 <= i < |keys| ==> SameField(Field(a, keys[i]), Field(b, keys[i]))
  }

  function KindsIn(items: seq<Json>): multiset<Kind> {
    multiset(seq(|items|, i requires 0 <= i < |items| => KindOf(Some(items[i]))))
  }

  /** Kind, bounded size and, for an array, how many elements of each kind. */
  datatype ChildShape = ChildShape(kind: Kind, count: Option<nat>, elements: multiset<Kind>)

  function ShapeOfChild(v: Json): ChildShape {
    ChildShape(KindOf(Some(v)), BoundedCount(Some(v)), if v.Arr? then KindsIn(v.items) else multiset{})
  }

  function ChildShapes(fields: seq<(string, Json)>): multiset<ChildShape> {
    multiset(seq(|fields|, i requires 0 <= i < |fields| => ShapeOfChild(fields[i].1)))
  }

  predicate SameAbstract(a: Slot, b: Slot) {
    && SameField(a, b)
    && (KindOf(a).ObjectKind? ==> ChildShapes(a.value.fields) == ChildShapes(b.value.fields))
  }

  predicate SameAuthor(x: Slot, y: Slot) {
    SameSelected(x, y) && (KindOf(x).ObjectKind? ==> SameFields(x.value, y.value, AUTHOR_FIELDS))
  }

  predicate SameAuthorship(a: Json, b: Json) {
    && SameSelected(Some(a), Some(b))
    && (a.Obj? ==> SameAuthor(Field(a, "author"), Field(b, "author")))
  }

  /** Arrays of authors look the same only at the same length: the bound does not cut the entries. */
  predicate SameAuthors(a: Slot, b: Slot) {
    && KindOf(a) == KindOf(b)
    && (KindOf(a).ArrayKind? ==>
          && |a.value.items| == |b.value.items|
          && forall i :: 0 <= i < |a.value.items| ==> SameAuthorship(a.value.items[i], b.value.items[i]))
  }

  predicate SameSource(x: Slot, y: Slot) {
    SameSelected(x, y) && (KindOf(x).ObjectKind? ==> SameFields(x.value, y.value, ["display_name"]))
  }

  predicate SameLocation(a: Slot, b: Slot) {
    KindOf(a).ObjectKind? && KindOf(b).ObjectKind? ==> SameSource(Field(a.value, "source"), Field(b.value, "source"))
  }

  predicate SameWorkBody(a: Json, b: Json)
    requires a.Obj? && b.Obj?
  {
    && SameFields(a, b, WORK_FIELDS)
    && SameAuthors(Field(a, "authorships"), Field(b, "authorships"))
    && SameAbstract(Field(a, "abstract_inverted_index"), Field(b, "abstract_inverted_index"))
    && SameLocation(Field(a, "primary_location"), Field(b, "primary_location"))
  }

  predicate SameWork(a: Json, b: Json) {
    SameSelected(Some(a), Some(b)) && (a.Obj? ==> SameWorkBody(a, b))
  }

  predicate SameMeta(a: Slot, b: Slot) {
    SameSelected(a, b) && (KindOf(a).ObjectKind? ==> SameFields(a.value, b.value, ["cost_usd"]))
  }

  predicate SameResults(a: Slot, b: Slot) {
    && SameField(a, b)
    && (KindOf(a).ArrayKind? ==>
          && |a.value.items| == |b.value.items|
          && forall i :: 0 <= i < |a.value.items| ==> SameWork(a.value.items[i], b.value.items[i]))
  }

  predicate SameShape(a: Json, b: Json) {
    && SameSelected(Some(a), Some(b))
    && (a.Obj? ==>
         SameMeta(Field(a, "meta"), Field(b, "meta")) && SameResults(Field(a, "results"), Field(b, "results")))
  }

  // Sorting forgets the order and nothing else

  ghost predicate Injective<T(!new)>(key: T -> Key) { forall x, y :: key(x) == key(y) ==> x == y }

  lemma KindNamesDiffer()
    ensures Injective(KindName)
  {
    forall x, y | KindName(x) == KindName(y) ensures x == y {
      assert |KindName(x).0| == |KindName(y).0| && KindName(x).0[0] == KindName(y).0[0];
    }
  }

  lemma SortedAlike<T(!new)>(a: seq<T>, b: seq<T>, key: T -> Key)
    requires Injective(key)
    ensures SortBy(a, key) == SortBy(b, key) <==> multiset(a) == multiset(b)
  {
    SortByIsSorted(a, key);
    SortByIsSorted(b, key);
    if multiset(a) == multiset(b) {
      SortIsCanonical(a, b, key);
    }
  }

  lemma ChildrenAlike(a: Json, b: Json)
    ensures ChildOf(a) == ChildOf(b) <==> ShapeOfChild(a) == ShapeOfChild(b)
  {
    KindNamesDiffer();
    if a.Arr? && b.Arr? {
      SortedAlike(seq(|a.items|, i requires 0 <= i < |a.items| => KindOf(Some(a.items[i]))),
                  seq(|b.items|, i requires 0 <= i < |b.items| => KindOf(Some(b.items[i]))), KindName);
    }
  }

  lemma MapWithout<T, U>(f: T -> U, s: seq<T>, i: nat)
    requires i < |s|
    ensures multiset(Map(f, s)) == multiset(Map(f, s[..i] + s[i + 1..])) + multiset{f(s[i])}
  {
    var m := Map(f, s);
    assert m == m[..i] + [m[i]] + m[i + 1..];
    assert Map(f, s[..i] + s[i + 1..]) == m[..i] + m[i + 1..];
  }

  lemma SameFirstImage<T, U>(f: T -> U, a: seq<T>, b: seq<T>) returns (j: nat)
    requires multiset(Map(f, a)) == multiset(Map(f, b)) && a != []
    ensures j < |b| && f(b[j]) == f(a[0])
    ensures multiset(Map(f, a[..0] + a[0 + 1..])) == multiset(Map(f, b[..j] + b[j + 1..]))
  {
    var m, n := Map(f, a), Map(f, b);
    assert m[0] in multiset(n);
    j :| 0 <= j < |n| && n[j] == m[0];
    MapWithout(f, a, 0);
    MapWithout(f, b, j);
    assert multiset(Map(f, a[..0] + a[0 + 1..])) == multiset(m) - multiset{m[0]};
    assert multiset(Map(f, b[..j] + b[j + 1..])) == multiset(n) - multiset{m[0]};
  }

  /** Where f identifies no more than g does, equal images under f are equal images under g. */
  lemma {:induction false} ImagesAlike<T(!new), U, V>(f: T -> U, g: T -> V, a: seq<T>, b: seq<T>)
    requires forall x, y :: f(x) == f(y) ==> g(x) == g(y)
    requires multiset(Map(f, a)) == multiset(Map(f, b))
    ensures multiset(Map(g, a)) == multiset(Map(g, b))
    decreases |a|
  {
    assert |multiset(Map(f, a))| == |a| && |multiset(Map(f, b))| == |b|;
    if a != [] {
      var j := SameFirstImage(f, a, b);
      ImagesAlike(f, g, a[..0] + a[0 + 1..], b[..j] + b[j + 1..]);
      hide Map;
      MapWithout(g, a, 0);
      MapWithout(g, b, j);
      assert g(a[0]) == g(b[j]);
    }
  }

  lemma AbstractsAlike(a: seq<(string, Json)>, b: seq<(string, Json)>, key: Child -> Key)
    requires Injective(key)
    ensures SortBy(ChildrenOf(a), key) == SortBy(ChildrenOf(b), key) <==> ChildShapes(a) == ChildShapes(b)
  {
    var child := (entry: (string, Json)) => ChildOf(entry.1);
    var shape := (entry: (string, Json)) => ShapeOfChild(entry.1);
    SortedAlike(ChildrenOf(a), ChildrenOf(b), key);
    assert ChildrenOf(a) == Map(child, a) && ChildrenOf(b) == Map(child, b);
    assert seq(|a|, i requires 0 <= i < |a| => ShapeOfChild(a[i].1)) == Map(shape, a);
    assert seq(|b|, i requires 0 <= i < |b| => ShapeOfChild(b[i].1)) == Map(shape, b);
    forall x: (string, Json), y: (string, Json) ensures child(x) == child(y) <==> shape(x) == shape(y) {
      ChildrenAlike(x.1, y.1);
    }
    if multiset(ChildrenOf(a)) == multiset(ChildrenOf(b)) {
      ImagesAlike(child, shape, a, b);
    }
    if ChildShapes(a) == ChildShapes(b) {
      ImagesAlike(shape, child, a, b);
    }
  }

  lemma AbstractEntryAlike(a: Slot, b: Slot, record: nat, key: Child -> Key)
    requires Injective(key)
    ensures AbstractEntry(a, record, key) == AbstractEntry(b, record, key) <==> SameAbstract(a, b)
  {
    if KindOf(a).ObjectKind? && KindOf(b).ObjectKind? {
      AbstractsAlike(a.value.fields, b.value.fields, key);
    }
  }

  // Blocks of entries

  lemma {:induction false} PresentAlike(a: Json, b: Json, keys: seq<string>)
    requires a.Obj? && b.Obj?
    requires forall i :: 0 <= i < |keys| ==> KindOf(Field(a, keys[i])) == KindOf(Field(b, keys[i]))
    ensures Present(a, keys) == Present(b, keys)
  {
    if keys != [] {
      assert KindOf(Field(a, keys[0])) == KindOf(Field(b, keys[0]));
      PresentAlike(a, b, keys[1..]);
    }
  }

  ghost predicate SameKinds(a: Slot, b: Slot, keys: seq<string>) {
    KindOf(a).ObjectKind? && KindOf(b).ObjectKind? ==>
      forall i :: 0 <= i < |keys| ==> KindOf(Field(a.value, keys[i])) == KindOf(Field(b.value, keys[i]))
  }

  lemma KeyedAlike(path: Path, a: Slot, b: Slot, keys: seq<string>, record: Option<nat>, nested: Option<nat>)
    ensures Keyed(path, a, keys, record, nested) == Keyed(path, b, keys, record, nested) ==> SameSelected(a, b)
    ensures SameSelected(a, b) && SameKinds(a, b, keys)
            ==> Keyed(path, a, keys, record, nested) == Keyed(path, b, keys, record, nested)
  {
    if KindOf(a).ObjectKind? && KindOf(b).ObjectKind? && SameKinds(a, b, keys) {
      PresentAlike(a.value, b.value, keys);
    }
  }

  lemma FieldsAlike(a: Json, b: Json, keys: seq<string>, path: string -> Path, record: nat, nested: Option<nat>)
    requires a.Obj? && b.Obj?
    ensures Fields(a, keys, path, record, nested) == Fields(b, keys, path, record, nested) <==> SameFields(a, b, keys)
    ensures SameFields(a, b, keys) ==> SameKinds(Some(a), Some(b), keys)
  {
    hide BoundedCount, KindOf, Lookup;
    var x, y := Fields(a, keys, path, record, nested), Fields(b, keys, path, record, nested);
    forall i | 0 <= i < |keys| ensures x[i] == y[i] <==> SameField(Field(a, keys[i]), Field(b, keys[i])) {
      assert x[i] == Plain(path(keys[i]), Field(a, keys[i]), Some(record), nested);
      assert y[i] == Plain(path(keys[i]), Field(b, keys[i]), Some(record), nested);
    }
    if SameFields(a, b, keys) {
      assert x == y;
      assert forall i :: 0 <= i < |keys| ==> SameField(Field(a, keys[i]), Field(b, keys[i]));
    }
  }

  lemma MarkedFrom<T>(a: seq<T>, p: seq<T>, marked: T -> bool)
    requires (forall x :: x in a ==> !marked(x)) && (forall x :: x in p ==> marked(x))
    ensures forall i :: 0 <= i < |a + p| ==> (marked((a + p)[i]) <==> i >= |a|)
  {
    forall i | 0 <= i < |a + p| ensures marked((a + p)[i]) <==> i >= |a| {
      if i < |a| {
        assert (a + p)[i] in a;
      } else {
        assert (a + p)[i] in p;
      }
    }
  }

  /** Two blocks joined at a mark come apart the same way. */
  lemma SplitAtMark<T>(a: seq<T>, p: seq<T>, b: seq<T>, q: seq<T>, marked: T -> bool)
    requires (forall x :: x in a || x in b ==> !marked(x)) && (forall x :: x in p || x in q ==> marked(x))
    ensures a + p == b + q <==> a == b && p == q
  {
    if a + p == b + q {
      var whole := a + p;
      MarkedFrom(a, p, marked);
      MarkedFrom(b, q, marked);
      assert forall i :: 0 <= i < |whole| ==> (marked(whole[i]) <==> i >= |a|) && (marked(whole[i]) <==> i >= |b|);
      var shorter := if |a| < |b| then |a| else |b|;
      assert shorter < |whole| ==> (marked(whole[shorter]) <==> shorter >= |a|);
      assert a == whole[..|a|] && b == whole[..|b|];
      assert p == whole[|a|..] && q == whole[|b|..];
    }
  }

  lemma Heads<T>(x: T, a: seq<T>, y: T, b: seq<T>)
    ensures [x] + a == [y] + b <==> x == y && a == b
  {
    if [x] + a == [y] + b {
      assert ([x] + a)[1..] == a && ([y] + b)[1..] == b && ([x] + a)[0] == x && ([y] + b)[0] == y;
    }
  }

  lemma AuthorBlocksAlike(x: Slot, y: Slot, record: nat, nested: nat)
    ensures AuthorBlock(x, record, nested) == AuthorBlock(y, record, nested) <==> SameAuthor(x, y)
    ensures SameAuthor(x, y) ==> KindOf(x) == KindOf(y)
  {
    var r, n := Some(record), Some(nested);
    SelectedKind(x, y);
    NoKinds(x, y, AUTHOR_FIELDS);
    KeyedAlike(AuthorPath, x, y, AUTHOR_FIELDS, r, n);
    hide BoundedCount, Lookup, Present, SameSelected, SameFields, SameKinds, Fields;
    if KindOf(x) == KindOf(y) {
      var a := if KindOf(x).ObjectKind? then Fields(x.value, AUTHOR_FIELDS, k => AuthorFieldPath(k), record, n) else [];
      var b := if KindOf(y).ObjectKind? then Fields(y.value, AUTHOR_FIELDS, k => AuthorFieldPath(k), record, n) else [];
      Heads(Keyed(AuthorPath, x, AUTHOR_FIELDS, r, n), a, Keyed(AuthorPath, y, AUTHOR_FIELDS, r, n), b);
      if KindOf(x).ObjectKind? {
        FieldsAlike(x.value, y.value, AUTHOR_FIELDS, k => AuthorFieldPath(k), record, n);
      }
    } else {
      assert AuthorBlock(x, record, nested)[0].kind == KindOf(x) && AuthorBlock(y, record, nested)[0].kind == KindOf(y);
    }
  }

  lemma AuthorshipsAlike(a: Json, b: Json, record: nat, nested: nat)
    ensures AuthorshipEntries(a, record, nested) == AuthorshipEntries(b, record, nested) <==> SameAuthorship(a, b)
  {
    var r, n := Some(record), Some(nested);
    SelectedKind(Some(a), Some(b));
    NoKinds(Some(a), Some(b), ["author"]);
    KeyedAlike(AuthorshipPath, Some(a), Some(b), ["author"], r, n);
    hide BoundedCount, Lookup, Present, SameSelected, SameKinds;
    if KindOf(Some(a)) == KindOf(Some(b)) {
      var p := if a.Obj? then AuthorBlock(Field(a, "author"), record, nested) else [];
      var q := if b.Obj? then AuthorBlock(Field(b, "author"), record, nested) else [];
      Heads(Keyed(AuthorshipPath, Some(a), ["author"], r, n), p, Keyed(AuthorshipPath, Some(b), ["author"], r, n), q);
      if a.Obj? {
        AuthorBlocksAlike(Field(a, "author"), Field(b, "author"), record, nested);
        OneKind(Some(a), Some(b), "author");
      }
    } else {
      assert AuthorshipEntries(a, record, nested)[0].kind == KindOf(Some(a));
      assert AuthorshipEntries(b, record, nested)[0].kind == KindOf(Some(b));
    }
  }

  lemma SelectedKind(a: Slot, b: Slot)
    ensures SameSelected(a, b) ==> KindOf(a) == KindOf(b)
  {
  }

  lemma NoKinds(a: Slot, b: Slot, keys: seq<string>)
    ensures !(KindOf(a).ObjectKind? && KindOf(b).ObjectKind?) ==> SameKinds(a, b, keys)
  {
  }

  lemma OneKind(a: Slot, b: Slot, key: string)
    requires KindOf(a).ObjectKind? && KindOf(b).ObjectKind?
    ensures KindOf(Field(a.value, key)) == KindOf(Field(b.value, key)) ==> SameKinds(a, b, [key])
  {
  }

  lemma SourceBlocksAlike(x: Slot, y: Slot, record: nat)
    ensures SourceBlock(x, record) == SourceBlock(y, record) <==> SameSource(x, y)
  {
    var keys, r := ["display_name"], Some(record);
    SelectedKind(x, y);
    NoKinds(x, y, keys);
    KeyedAlike(SourcePath, x, y, keys, r, None);
    hide BoundedCount, Lookup, Present, SameSelected, SameFields, SameKinds, Fields;
    if KindOf(x) == KindOf(y) {
      var a := if KindOf(x).ObjectKind? then Fields(x.value, keys, k => SourceNamePath, record, None) else [];
      var b := if KindOf(y).ObjectKind? then Fields(y.value, keys, k => SourceNamePath, record, None) else [];
      Heads(Keyed(SourcePath, x, keys, r, None), a, Keyed(SourcePath, y, keys, r, None), b);
      if KindOf(x).ObjectKind? {
        FieldsAlike(x.value, y.value, keys, k => SourceNamePath, record, None);
      }
    } else {
      assert SourceBlock(x, record)[0].kind == KindOf(x) && SourceBlock(y, record)[0].kind == KindOf(y);
    }
  }

  lemma FieldsMarks(value: Json, keys: seq<string>, path: string -> Path, record: nat, nested: Option<nat>)
    requires value.Obj?
    ensures forall e :: e in Fields(value, keys, path, record, nested) ==>
            e.record == Some(record) && e.nested == nested
  {
  }

  /** Every entry of one authorship carries its index, and its record's. */
  lemma AuthorshipMarks(authorship: Json, record: nat, nested: nat)
    ensures AuthorshipEntries(authorship, record, nested) != []
    ensures forall e :: e in AuthorshipEntries(authorship, record, nested) ==>
            e.nested == Some(nested) && e.record == Some(record)
  {
    if authorship.Obj? {
      var author := Field(authorship, "author");
      if KindOf(author).ObjectKind? {
        FieldsMarks(author.value, AUTHOR_FIELDS, k => AuthorFieldPath(k), record, Some(nested));
      }
      hide BoundedCount, Lookup, Present, KindOf, Fields;
      assert forall e :: e in AuthorBlock(author, record, nested) ==>
             e.nested == Some(nested) && e.record == Some(record);
    }
  }

  lemma {:induction false} AuthorshipsMarks(items: seq<Json>, record: nat, n: nat)
    requires n <= |items|
    ensures forall e :: e in AuthorshipsUpTo(items, record, n) ==>
              e.nested.Some? && e.nested.value < n && e.record == Some(record)
  {
    if n > 0 {
      AuthorshipsMarks(items, record, n - 1);
      AuthorshipMarks(items[n - 1], record, n - 1);
    }
  }

  ghost predicate SameFirst(a: seq<Json>, b: seq<Json>, n: nat)
    requires n <= |a| && n <= |b|
  {
    forall i :: 0 <= i < n ==> SameAuthorship(a[i], b[i])
  }

  lemma {:induction false} AuthorshipsUpToAlike(a: seq<Json>, b: seq<Json>, record: nat, n: nat, m: nat)
    requires n <= |a| && m <= |b|
    ensures AuthorshipsUpTo(a, record, n) == AuthorshipsUpTo(b, record, m) <==> n == m && SameFirst(a, b, n)
    decreases n + m
  {
    hide SameAuthorship, AuthorshipEntries;
    AuthorshipsMarks(a, record, n);
    AuthorshipsMarks(b, record, m);
    if n > 0 { AuthorshipMarks(a[n - 1], record, n - 1); }
    if m > 0 { AuthorshipMarks(b[m - 1], record, m - 1); }
    if n == m && n > 0 {
      AuthorshipsMarks(a, record, n - 1);
      AuthorshipsMarks(b, record, n - 1);
      SplitAtMark(AuthorshipsUpTo(a, record, n - 1), AuthorshipEntries(a[n - 1], record, n - 1),
                  AuthorshipsUpTo(b, record, n - 1), AuthorshipEntries(b[n - 1], record, n - 1),
                  (e: Entry) => e.nested == Some(n - 1));
      AuthorshipsAlike(a[n - 1], b[n - 1], record, n - 1);
      AuthorshipsUpToAlike(a, b, record, n - 1, n - 1);
    } else if n < m {
      var last := AuthorshipEntries(b[m - 1], record, m - 1)[0];
      assert last in AuthorshipsUpTo(b, record, m);
      assert last !in AuthorshipsUpTo(a, record, n);
    } else if m < n {
      var last := AuthorshipEntries(a[n - 1], record, n - 1)[0];
      assert last in AuthorshipsUpTo(a, record, n);
      assert last !in AuthorshipsUpTo(b, record, m);
    }
  }

  lemma AuthorsAlike(a: Slot, b: Slot, record: nat)
    requires KindOf(a) == KindOf(b)
    ensures AuthorsEntries(a, record) == AuthorsEntries(b, record) <==> SameAuthors(a, b)
  {
    if KindOf(a).ArrayKind? {
      AuthorshipsUpToAlike(a.value.items, b.value.items, record, |a.value.items|, |b.value.items|);
    }
  }

  lemma WorkMarks(work: Json, record: nat, key: Child -> Key)
    requires work.Obj?
    ensures forall e :: e in Fields(work, WORK_FIELDS, k => WorkFieldPath(k), record, None) ==> e.record == Some(record)
    ensures forall e :: e in AuthorsEntries(Field(work, "authorships"), record) ==>
            e.nested.Some? && e.record == Some(record)
    ensures var a := AbstractEntry(Field(work, "abstract_inverted_index"), record, key);
            a.nested.None? && a.record == Some(record)
    ensures forall e :: e in LocationEntries(Field(work, "primary_location"), record) ==>
            e.nested.None? && e.record == Some(record)
  {
    hide BoundedCount, Lookup, Present, Fields, AuthorshipsUpTo;
    FieldsMarks(work, WORK_FIELDS, k => WorkFieldPath(k), record, None);
    var authorships, location := Field(work, "authorships"), Field(work, "primary_location");
    if KindOf(location).ObjectKind? {
      var source := Field(location.value, "source");
      if KindOf(source).ObjectKind? {
        FieldsMarks(source.value, ["display_name"], k => SourceNamePath, record, None);
      }
    }
    if KindOf(authorships).ArrayKind? {
      AuthorshipsMarks(authorships.value.items, record, |authorships.value.items|);
    }
  }

  lemma AllMarked(work: Json, record: nat, key: Child -> Key)
    ensures WorkEntries(work, record, key) != []
    ensures forall e :: e in WorkEntries(work, record, key) ==> e.record == Some(record)
  {
    if work.Obj? {
      WorkMarks(work, record, key);
    }
    hide BoundedCount, Lookup, Present, Fields, AuthorsEntries, AbstractEntry, LocationEntries;
  }

  lemma LocationsAlike(a: Slot, b: Slot, record: nat)
    requires KindOf(a) == KindOf(b)
    ensures LocationEntries(a, record) == LocationEntries(b, record) <==> SameLocation(a, b)
  {
    if KindOf(a).ObjectKind? {
      SourceBlocksAlike(Field(a.value, "source"), Field(b.value, "source"), record);
    }
  }

  /** The eight selected keys of a work are its seven listed fields and the abstract. */
  lemma WorkKinds(a: Json, b: Json)
    requires a.Obj? && b.Obj? && SameFields(a, b, WORK_FIELDS)
    requires SameAbstract(Field(a, "abstract_inverted_index"), Field(b, "abstract_inverted_index"))
    ensures SameKinds(Some(a), Some(b), WORK_KEYS)
  {
    hide BoundedCount, Lookup;
    forall i | 0 <= i < |WORK_FIELDS| ensures KindOf(Field(a, WORK_FIELDS[i])) == KindOf(Field(b, WORK_FIELDS[i])) {
      assert SameField(Field(a, WORK_FIELDS[i]), Field(b, WORK_FIELDS[i]));
    }
    forall i | 0 <= i < |WORK_KEYS| ensures KindOf(Field(a, WORK_KEYS[i])) == KindOf(Field(b, WORK_KEYS[i])) {
      assert WORK_KEYS[i] == "abstract_inverted_index" || WORK_KEYS[i] == WORK_FIELDS[if i < 4 then i else i - 1];
    }
  }

  lemma FieldKinds(a: Json, b: Json)
    requires a.Obj? && b.Obj? && SameFields(a, b, WORK_FIELDS)
    ensures KindOf(Field(a, "authorships")) == KindOf(Field(b, "authorships"))
    ensures KindOf(Field(a, "primary_location")) == KindOf(Field(b, "primary_location"))
  {
    assert WORK_FIELDS[3] == "authorships" && WORK_FIELDS[5] == "primary_location";
  }

  lemma WorkBodiesAlike(a: Json, b: Json, record: nat, key: Child -> Key)
    requires a.Obj? && b.Obj? && Injective(key)
    ensures WorkBody(a, record, key) == WorkBody(b, record, key) <==> SameWorkBody(a, b)
  {
    var authors, authors' := AuthorsEntries(Field(a, "authorships"), record),
        AuthorsEntries(Field(b, "authorships"), record);
    var abs := AbstractEntry(Field(a, "abstract_inverted_index"), record, key);
    var abs' := AbstractEntry(Field(b, "abstract_inverted_index"), record, key);
    var place, place' := LocationEntries(Field(a, "primary_location"), record),
        LocationEntries(Field(b, "primary_location"), record);
    var fields, fields' := Fields(a, WORK_FIELDS, k => WorkFieldPath(k), record, None),
        Fields(b, WORK_FIELDS, k => WorkFieldPath(k), record, None);
    WorkMarks(a, record, key);
    WorkMarks(b, record, key);
    FieldsAlike(a, b, WORK_FIELDS, k => WorkFieldPath(k), record, None);
    AbstractEntryAlike(Field(a, "abstract_inverted_index"), Field(b, "abstract_inverted_index"), record, key);
    hide AuthorsEntries, AbstractEntry, LocationEntries, Fields, SameFields, SameAuthors, SameAbstract, SameLocation,
        SameKinds, Lookup;
    SameLengths(fields, authors + ([abs] + place), fields', authors' + ([abs'] + place'));
    SplitAtMark(authors, [abs] + place, authors', [abs'] + place', (e: Entry) => e.nested.None?);
    Heads(abs, place, abs', place');
    if SameFields(a, b, WORK_FIELDS) {
      FieldKinds(a, b);
      AuthorsAlike(Field(a, "authorships"), Field(b, "authorships"), record);
      LocationsAlike(Field(a, "primary_location"), Field(b, "primary_location"), record);
    }
  }

  lemma SameLengths<T>(a: seq<T>, p: seq<T>, b: seq<T>, q: seq<T>)
    requires |a| == |b|
    ensures a + p == b + q <==> a == b && p == q
  {
    if a + p == b + q {
      assert a == (a + p)[..|a|] && b == (b + q)[..|b|];
      assert p == (a + p)[|a|..] && q == (b + q)[|b|..];
    }
  }

  lemma WorksAlike(a: Json, b: Json, record: nat, key: Child -> Key)
    requires Injective(key)
    ensures WorkEntries(a, record, key) == WorkEntries(b, record, key) <==> SameWork(a, b)
  {
    var r := Some(record);
    SelectedKind(Some(a), Some(b));
    NoKinds(Some(a), Some(b), WORK_KEYS);
    KeyedAlike(WorkPath, Some(a), Some(b), WORK_KEYS, r, None);
    hide BoundedCount, Lookup, Present, SameSelected, SameKinds, WorkBody;
    if KindOf(Some(a)) == KindOf(Some(b)) {
      var p := if a.Obj? then WorkBody(a, record, key) else [];
      var q := if b.Obj? then WorkBody(b, record, key) else [];
      Heads(Keyed(WorkPath, Some(a), WORK_KEYS, r, None), p, Keyed(WorkPath, Some(b), WORK_KEYS, r, None), q);
      if a.Obj? {
        WorkBodiesAlike(a, b, record, key);
        if SameWorkBody(a, b) {
          WorkKinds(a, b);
        }
      }
    } else {
      assert WorkEntries(a, record, key)[0].kind == KindOf(Some(a));
      assert WorkEntries(b, record, key)[0].kind == KindOf(Some(b));
    }
  }

  lemma {:induction false} WorksMarks(works: seq<Json>, n: nat, key: Child -> Key)
    requires n <= |works|
    ensures forall e :: e in WorksUpTo(works, n, key) ==> e.record.Some? && e.record.value < n
  {
    hide WorkEntries;
    if n > 0 {
      WorksMarks(works, n - 1, key);
      AllMarked(works[n - 1], n - 1, key);
    }
  }

  ghost predicate SameFirstWorks(a: seq<Json>, b: seq<Json>, n: nat)
    requires n <= |a| && n <= |b|
  {
    forall i :: 0 <= i < n ==> SameWork(a[i], b[i])
  }

  lemma {:induction false} WorksUpToAlike(a: seq<Json>, b: seq<Json>, n: nat, m: nat, key: Child -> Key)
    requires n <= |a| && m <= |b| && Injective(key)
    ensures WorksUpTo(a, n, key) == WorksUpTo(b, m, key) <==> n == m && SameFirstWorks(a, b, n)
    decreases n + m
  {
    hide SameWork, WorkEntries, Injective;
    WorksMarks(a, n, key);
    WorksMarks(b, m, key);
    if n > 0 { AllMarked(a[n - 1], n - 1, key); }
    if m > 0 { AllMarked(b[m - 1], m - 1, key); }
    if n == m && n > 0 {
      WorksMarks(a, n - 1, key);
      WorksMarks(b, n - 1, key);
      SplitAtMark(WorksUpTo(a, n - 1, key), WorkEntries(a[n - 1], n - 1, key),
                  WorksUpTo(b, n - 1, key), WorkEntries(b[n - 1], n - 1, key),
                  (e: Entry) => e.record == Some(n - 1));
      WorksAlike(a[n - 1], b[n - 1], n - 1, key);
      WorksUpToAlike(a, b, n - 1, n - 1, key);
    } else if n < m {
      var last := WorkEntries(b[m - 1], m - 1, key)[0];
      assert last in WorksUpTo(b, m, key);
      assert last !in WorksUpTo(a, n, key);
    } else if m < n {
      var last := WorkEntries(a[n - 1], n - 1, key)[0];
      assert last in WorksUpTo(a, n, key);
      assert last !in WorksUpTo(b, m, key);
    }
  }

  lemma ResultsAlike(a: Slot, b: Slot, key: Child -> Key)
    requires Injective(key)
    ensures ResultsEntries(a, key) == ResultsEntries(b, key) <==> SameResults(a, b)
    ensures forall e :: e in ResultsEntries(a, key) ==> e.record.Some? || e.path.ResultsPath?
    ensures SameResults(a, b) ==> KindOf(a) == KindOf(b)
  {
    hide WorksUpTo, SameWork, BoundedCount, Injective;
    var x := if KindOf(a).ArrayKind? then WorksUpTo(a.value.items, |a.value.items|, key) else [];
    var y := if KindOf(b).ArrayKind? then WorksUpTo(b.value.items, |b.value.items|, key) else [];
    Heads(Plain(ResultsPath, a, None, None), x, Plain(ResultsPath, b, None, None), y);
    if KindOf(a).ArrayKind? {
      WorksMarks(a.value.items, |a.value.items|, key);
      if KindOf(b).ArrayKind? {
        WorksUpToAlike(a.value.items, b.value.items, |a.value.items|, |b.value.items|, key);
      }
    }
  }

  lemma MetaAlike(a: Slot, b: Slot)
    ensures MetaEntries(a) == MetaEntries(b) <==> SameMeta(a, b)
    ensures forall e :: e in MetaEntries(a) ==> e.record.None? && !e.path.ResultsPath?
    ensures SameMeta(a, b) ==> KindOf(a) == KindOf(b)
  {
    var keys := ["cost_usd"];
    SelectedKind(a, b);
    NoKinds(a, b, keys);
    KeyedAlike(MetaPath, a, b, keys, None, None);
    if KindOf(a) == KindOf(b) {
      var p := if KindOf(a).ObjectKind? then [Plain(CostPath, Field(a.value, "cost_usd"), None, None)] else [];
      var q := if KindOf(b).ObjectKind? then [Plain(CostPath, Field(b.value, "cost_usd"), None, None)] else [];
      Heads(Keyed(MetaPath, a, keys, None, None), p, Keyed(MetaPath, b, keys, None, None), q);
      if KindOf(a).ObjectKind? {
        hide BoundedCount, Lookup, Present, SameSelected, KindOf;
        assert SameFields(a.value, b.value, keys) <==> SameField(Field(a.value, keys[0]), Field(b.value, keys[0]));
        assert p == q <==> p[0] == q[0];
      }
    } else {
      assert MetaEntries(a)[0].kind == KindOf(a) && MetaEntries(b)[0].kind == KindOf(b);
    }
  }

  /** The descriptor tells two responses apart exactly when their selected shapes differ. */
  lemma DescriptorSeesShapeOnly(a: Json, b: Json, key: Child -> Key)
    requires Injective(key)
    ensures Descriptor(a, key) == Descriptor(b, key) <==> SameShape(a, b)
  {
    var keys := ["meta", "results"];
    SelectedKind(Some(a), Some(b));
    NoKinds(Some(a), Some(b), keys);
    KeyedAlike(RootPath, Some(a), Some(b), keys, None, None);
    if a.Obj? && b.Obj? {
      var (m, m') := (Field(a, "meta"), Field(b, "meta"));
      var (r, r') := (Field(a, "results"), Field(b, "results"));
      MetaAlike(m, m');
      MetaAlike(m', m);
      ResultsAlike(r, r', key);
      ResultsAlike(r', r, key);
      hide MetaEntries, ResultsEntries, Lookup, Present, SameSelected, SameMeta, SameResults, KindOf, Injective;
      SplitAtMark(MetaEntries(m), ResultsEntries(r, key), MetaEntries(m'), ResultsEntries(r', key),
                  (e: Entry) => e.record.Some? || e.path.ResultsPath?);
      Heads(Keyed(RootPath, Some(a), keys, None, None), MetaEntries(m) + ResultsEntries(r, key),
            Keyed(RootPath, Some(b), keys, None, None), MetaEntries(m') + ResultsEntries(r', key));
      if SameMeta(m, m') && SameResults(r, r') {
        TwoKinds(a, b);
      }
    } else {
      assert Descriptor(a, key)[0].kind == KindOf(Some(a)) && Descriptor(b, key)[0].kind == KindOf(Some(b));
    }
  }

  lemma TwoKinds(a: Json, b: Json)
    requires a.Obj? && b.Obj?
    requires KindOf(Field(a, "meta")) == KindOf(Field(b, "meta"))
             && KindOf(Field(a, "results")) == KindOf(Field(b, "results"))
    ensures SameKinds(Some(a), Some(b), ["meta", "results"])
  {
  }

  // What the descriptor cannot see

  /** Every leaf replaced by a fixed one of its kind. */
  function Scrub(value: Json): Json {
    match value
    case Null => Null
    case Bool(_) => Bool(false)
    case Int(_) => Int(0)
    case Fraction(_) => Fraction("0")
    case Text(_) => Text("")
    case Arr(items) => Arr(seq(|items|, i requires 0 <= i < |items| => Scrub(items[i])))
    case Obj(fields) => Obj(seq(|fields|, i requires 0 <= i < |fields| => (fields[i].0, Scrub(fields[i].1))))
  }

  function ScrubSlot(slot: Slot): Slot { if slot.None? then None else Some(Scrub(slot.value)) }

  lemma {:induction false} ScrubLookup(fields: seq<(string, Json)>, scrubbed: seq<(string, Json)>, key: string)
    requires |scrubbed| == |fields|
    requires forall i :: 0 <= i < |fields| ==> scrubbed[i] == (fields[i].0, Scrub(fields[i].1))
    ensures Lookup(scrubbed, key) == ScrubSlot(Lookup(fields, key))
  {
    hide Scrub;
    if fields != [] {
      assert scrubbed[0] == (fields[0].0, Scrub(fields[0].1));
      ScrubLookup(fields[1..], scrubbed[1..], key);
    }
  }

  lemma ScrubField(value: Json, key: string)
    requires value.Obj?
    ensures Scrub(value).Obj? && Field(Scrub(value), key) == ScrubSlot(Field(value, key))
  {
    ScrubLookup(value.fields, Scrub(value).fields, key);
  }

  lemma ScrubSlotAlike(slot: Slot)
    ensures SameField(slot, ScrubSlot(slot)) && SameSelected(slot, ScrubSlot(slot))
  {
  }

  lemma ScrubFields(value: Json, keys: seq<string>)
    requires value.Obj?
    ensures Scrub(value).Obj? && SameFields(value, Scrub(value), keys)
  {
    ScrubField(value, "");
    forall i | 0 <= i < |keys| ensures SameField(Field(value, keys[i]), Field(Scrub(value), keys[i])) {
      ScrubField(value, keys[i]);
      ScrubSlotAlike(Field(value, keys[i]));
    }
  }

  lemma ScrubSelected(slot: Slot, keys: seq<string>)
    ensures SameSelected(slot, ScrubSlot(slot))
    ensures KindOf(slot).ObjectKind? ==>
              KindOf(ScrubSlot(slot)).ObjectKind? && SameFields(slot.value, ScrubSlot(slot).value, keys)
  {
    ScrubSlotAlike(slot);
    if KindOf(slot).ObjectKind? {
      ScrubFields(slot.value, keys);
    }
  }

  lemma ScrubAuthorship(value: Json)
    ensures SameAuthorship(value, Scrub(value))
  {
    ScrubSlotAlike(Some(value));
    if value.Obj? {
      ScrubField(value, "author");
      ScrubSelected(Field(value, "author"), AUTHOR_FIELDS);
    }
  }

  lemma ScrubAuthors(slot: Slot)
    ensures SameAuthors(slot, ScrubSlot(slot))
  {
    if KindOf(slot).ArrayKind? {
      forall i | 0 <= i < |slot.value.items| ensures SameAuthorship(slot.value.items[i],
                                                                    ScrubSlot(slot).value.items[i]) {
        ScrubAuthorship(slot.value.items[i]);
      }
    }
  }

  lemma ScrubChild(value: Json)
    ensures ShapeOfChild(Scrub(value)) == ShapeOfChild(value)
  {
    ScrubSlotAlike(Some(value));
    if value.Arr? {
      var items, scrubbed := value.items, Scrub(value).items;
      forall i | 0 <= i < |items| ensures KindOf(Some(scrubbed[i])) == KindOf(Some(items[i])) {
        ScrubSlotAlike(Some(items[i]));
      }
      assert seq(|items|, i requires 0 <= i < |items| => KindOf(Some(items[i])))
          == seq(|scrubbed|, i requires 0 <= i < |scrubbed| => KindOf(Some(scrubbed[i])));
    }
  }

  lemma ScrubAbstract(slot: Slot)
    ensures SameAbstract(slot, ScrubSlot(slot))
  {
    ScrubSlotAlike(slot);
    if KindOf(slot).ObjectKind? {
      var fields, scrubbed := slot.value.fields, ScrubSlot(slot).value.fields;
      forall i | 0 <= i < |fields| ensures ShapeOfChild(scrubbed[i].1) == ShapeOfChild(fields[i].1) {
        ScrubChild(fields[i].1);
      }
      assert seq(|fields|, i requires 0 <= i < |fields| => ShapeOfChild(fields[i].1))
          == seq(|scrubbed|, i requires 0 <= i < |scrubbed| => ShapeOfChild(scrubbed[i].1));
    }
  }

  lemma ScrubLocation(slot: Slot)
    ensures SameLocation(slot, ScrubSlot(slot))
  {
    if KindOf(slot).ObjectKind? {
      ScrubField(slot.value, "source");
      ScrubSelected(Field(slot.value, "source"), ["display_name"]);
    }
  }

  lemma ScrubWork(value: Json)
    ensures SameWork(value, Scrub(value))
  {
    hide SameAuthors, SameAbstract, SameLocation, SameFields, SameSelected, Lookup;
    ScrubSlotAlike(Some(value));
    if value.Obj? {
      ScrubFields(value, WORK_FIELDS);
      ScrubField(value, "authorships");
      ScrubField(value, "abstract_inverted_index");
      ScrubField(value, "primary_location");
      ScrubAuthors(Field(value, "authorships"));
      ScrubAbstract(Field(value, "abstract_inverted_index"));
      ScrubLocation(Field(value, "primary_location"));
    }
  }

  lemma ScrubResults(slot: Slot)
    ensures SameResults(slot, ScrubSlot(slot))
  {
    hide SameWork;
    ScrubSlotAlike(slot);
    if KindOf(slot).ArrayKind? {
      forall i | 0 <= i < |slot.value.items| ensures SameWork(slot.value.items[i], ScrubSlot(slot).value.items[i]) {
        ScrubWork(slot.value.items[i]);
      }
    }
  }

  /** No leaf value reaches the descriptor: scrubbing every leaf leaves it as it was. */
  lemma LeavesAreInvisible(value: Json, key: Child -> Key)
    requires Injective(key)
    ensures Descriptor(Scrub(value), key) == Descriptor(value, key)
  {
    DescriptorSeesShapeOnly(value, Scrub(value), key);
    hide SameResults, SameFields, SameSelected, Lookup, Injective, Descriptor;
    ScrubSlotAlike(Some(value));
    if value.Obj? {
      ScrubField(value, "meta");
      ScrubField(value, "results");
      ScrubSelected(Field(value, "meta"), ["cost_usd"]);
      ScrubResults(Field(value, "results"));
    }
  }

  ghost predicate KeysApart(fields: seq<(string, Json)>) {
    forall i, j :: 0 <= i < j < |fields| ==> fields[i].0 != fields[j].0
  }

  lemma {:induction false} LookupFinds(fields: seq<(string, Json)>, key: string)
    ensures match Lookup(fields, key)
            case None => forall i :: 0 <= i < |fields| ==> fields[i].0 != key
            case Some(v) => (key, v) in fields
  {
    if fields != [] && fields[0].0 != key {
      LookupFinds(fields[1..], key);
    }
  }

  /** With distinct keys, every selection from an object is the same in any order of the object. */
  lemma ReorderedLookup(a: seq<(string, Json)>, b: seq<(string, Json)>, key: string)
    requires KeysApart(a) && multiset(a) == multiset(b)
    ensures Lookup(a, key) == Lookup(b, key) && |a| == |b| && ChildShapes(a) == ChildShapes(b)
  {
    assert |multiset(a)| == |a| && |multiset(b)| == |b|;
    LookupFinds(a, key);
    LookupFinds(b, key);
    forall x ensures x in a <==> x in b {
      assert x in a <==> x in multiset(a);
      assert x in b <==> x in multiset(b);
    }
    var entry := (e: (string, Json)) => e;
    var shape := (e: (string, Json)) => ShapeOfChild(e.1);
    assert Map(entry, a) == a && Map(entry, b) == b;
    ImagesAlike(entry, shape, a, b);
    assert seq(|a|, i requires 0 <= i < |a| => ShapeOfChild(a[i].1)) == Map(shape, a);
    assert seq(|b|, i requires 0 <= i < |b| => ShapeOfChild(b[i].1)) == Map(shape, b);
    if Lookup(a, key).Some? {
      assert (key, Lookup(a, key).value) in b;
    }
  }

  // What it does see

  /** A response that holds results and nothing else. */
  function Response(results: seq<Json>): Json { Obj([("results", Arr(results))]) }

  lemma ResponseResults(results: seq<Json>)
    ensures Field(Response(results), "results") == Some(Arr(results)) && Field(Response(results), "meta") == None
  {
    var fields := [("results", Arr(results))];
    assert fields[1..] == [] && Lookup([], "meta") == None;
    assert Lookup(fields, "meta") == Lookup(fields[1..], "meta");
  }

  /** Counts stop at the bound, entries do not: longer arrays of results still differ. */
  lemma LengthsBeyondTheBoundShow(m: nat, n: nat, key: Child -> Key)
    requires Injective(key) && MAX_STRUCTURAL_COUNT <= m < n
    ensures var a, b := Response(seq(m, _ => Null)), Response(seq(n, _ => Null));
            && SameField(Field(a, "results"), Field(b, "results"))
            && Descriptor(a, key) != Descriptor(b, key)
  {
    var a, b := Response(seq(m, _ => Null)), Response(seq(n, _ => Null));
    ResponseResults(seq(m, _ => Null));
    ResponseResults(seq(n, _ => Null));
    DescriptorSeesShapeOnly(a, b, key);
  }

  /** A work whose location has these fields. */
  function Located(fields: seq<(string, Json)>): Json { Obj([("primary_location", Obj(fields))]) }

  lemma LocatedLocation(fields: seq<(string, Json)>)
    ensures Field(Located(fields), "primary_location") == Some(Obj(fields))
  {
  }

  lemma OneResult(a: Json, b: Json)
    ensures SameResults(Some(Arr([a])), Some(Arr([b]))) ==> SameWork(a, b)
  {
    hide SameWork;
    if SameResults(Some(Arr([a])), Some(Arr([b]))) {
      assert SameWork(Arr([a]).items[0], Arr([b]).items[0]);
    }
  }

  /** A key of the location that nothing selects is counted all the same. */
  lemma UnselectedLocationKeyShows(unselected: string, value: Json, key: Child -> Key)
    requires Injective(key) && unselected != "source"
    ensures Field(Obj([(unselected, value)]), "source") == Field(Obj([]), "source") == None
    ensures Descriptor(Response([Located([])]), key) != Descriptor(Response([Located([(unselected, value)])]), key)
  {
    var a, b := Located([]), Located([(unselected, value)]);
    LocatedLocation([]);
    LocatedLocation([(unselected, value)]);
    ResponseResults([a]);
    ResponseResults([b]);
    assert [(unselected, value)][1..] == [];
    assert Lookup([(unselected, value)], "source") == Lookup([(unselected, value)][1..], "source");
    assert Field(Obj([(unselected, value)]), "source") == None && Field(Obj([]), "source") == None;
    assert WORK_FIELDS[5] == "primary_location";
    assert !SameField(Field(a, WORK_FIELDS[5]), Field(b, WORK_FIELDS[5]));
    assert !SameWork(a, b);
    OneResult(a, b);
    assert !SameShape(Response([a]), Response([b]));
    DescriptorSeesShapeOnly(Response([a]), Response([b]), key);
  }
}
