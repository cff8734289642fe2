/** Rebuilding an abstract from its inverted index: token to the positions it stands at. */
module AbstractIndex {
  import opened Outcomes
  import opened Totals
  import opened Sequences
  import opened JsonValues
  import opened AbstractTokens

  const MAX_TOKENS := 20_000
  const MAX_POSITIONS := 20_000
  const MAX_POSITION := 100_000
  const MAX_ABSTRACT := 512 * 1024

  datatype Flaw = Flaw(code: Code, element: Option<nat>)

  type Positions = map<int, string>

  // The reconstruction, as the nested loops compute it

  function ScanPositions(safe: string, raw: seq<Json>, at: nat, positions: Positions): Result<Positions, Flaw>
    requires at <= |raw|
    decreases |raw| - at
  {
    if at == |raw| then Ok(positions)
    else if !raw[at].Int? then Err(Flaw(PositionInteger, Some(at)))
    else if !(0 <= raw[at].number <= MAX_POSITION) then Err(Flaw(PositionRange, Some(at)))
    else if raw[at].number in positions then Err(Flaw(PositionUnique, Some(at)))
    else ScanPositions(safe, raw, at + 1, positions[raw[at].number := safe])
  }

  ghost function ScanEntry(u: Unicode, entry: (string, Json), at: nat, positions: Positions): Result<Positions, Flaw> {
    match SafeToken(u, entry.0)
    case Err(code) => Err(Flaw(code, Some(at)))
    case Ok(safe) =>
      if !entry.1.Arr? then Err(Flaw(PositionsArray, Some(at)))
      else if |entry.1.items| > MAX_POSITIONS then Err(Flaw(PositionsCountLimit, Some(at)))
      else ScanPositions(safe, entry.1.items, 0, positions)
  }

  ghost function ScanEntries(u: Unicode, entries: seq<(string, Json)>, at: nat,
                             positions: Positions): Result<Positions, Flaw>
    requires at <= |entries|
    decreases |entries| - at
  {
    if at == |entries| then Ok(positions)
    else match ScanEntry(u, entries[at], at, positions)
      case Err(flaw) => Err(flaw)
      case Ok(more) => ScanEntries(u, entries, at + 1, more)
  }

  predicate InRange(positions: Positions) { forall p :: p in positions ==> 0 <= p <= MAX_POSITION }

  /** The numbers below n. */
  function Upto(n: nat): (s: set<int>)
    ensures |s| == n
    ensures forall i :: i in s <==> 0 <= i < n
  {
    if n == 0 then {} else Upto(n - 1) + {n - 1}
  }

  lemma Bounded<T>(a: set<T>, b: set<T>)
    requires a <= b
    ensures |a| <= |b| && (|a| == |b| ==> a == b)
  {
    assert b == a + (b - a);
  }

  /** n different numbers below n are all the numbers below n. */
  lemma Pigeonhole(keys: set<int>, n: nat)
    requires forall k :: k in keys ==> 0 <= k < n
    ensures |keys| == n <==> keys == Upto(n)
  {
    assert keys <= Upto(n);
    Bounded(keys, Upto(n));
  }

  lemma {:induction false} LargestExists(keys: set<int>)
    requires keys != {}
    ensures exists m :: m in keys && forall k :: k in keys ==> k <= m
  {
    var k := Pick(keys);
    if keys == {k} {
      assert forall j :: j in keys ==> j <= k;
    } else {
      var rest := keys - {k};
      assert rest != {} by { assert keys == {k} + rest; }
      LargestExists(rest);
      var m :| m in rest && forall j :: j in rest ==> j <= m;
      var largest := if m < k then k else m;
      assert largest in keys && forall j :: j in keys ==> j <= largest by {
        forall j | j in keys ensures j <= largest { assert j == k || j in rest; }
      }
    }
  }

  function Largest(keys: set<int>): (m: int)
    requires keys != {}
    ensures m in keys && forall k :: k in keys ==> k <= m
  {
    LargestExists(keys);
    var m :| m in keys && forall k :: k in keys ==> k <= m;
    m
  }

  function Join(words: seq<string>): string {
    if words == [] then "" else if |words| == 1 then words[0] else Join(words[..|words| - 1]) + " " + words[|words| - 1]
  }

  /** The words at positions 0, 1, ... of a map that has them all. */
  function WordsAt(positions: Positions, n: nat): seq<string>
    requires positions.Keys == Upto(n)
  {
    seq(n, i requires 0 <= i < n => positions[i])
  }

  function Finish(positions: Positions): Result<Option<string>, Flaw>
    requires InRange(positions)
  {
    if positions == map[] then Ok(None)
    else
      var count := Largest(positions.Keys) + 1;
      if |positions| != count then Err(Flaw(PositionsContiguous, None))
      else
        assert positions.Keys == Upto(count) by { Pigeonhole(positions.Keys, count); }
        var text := Join(WordsAt(positions, count));
        if |text| > MAX_ABSTRACT then Err(Flaw(ResultSize, None)) else Ok(Some(text))
  }

  lemma {:induction false} PositionsStayInRange(safe: string, raw: seq<Json>, at: nat, positions: Positions)
    requires at <= |raw| && InRange(positions)
    ensures ScanPositions(safe, raw, at, positions).Ok? ==> InRange(ScanPositions(safe, raw, at, positions).value)
    decreases |raw| - at
  {
    if at < |raw| && raw[at].Int? && 0 <= raw[at].number <= MAX_POSITION {
      PositionsStayInRange(safe, raw, at + 1, positions[raw[at].number := safe]);
    }
  }

  lemma {:induction false} EntriesStayInRange(u: Unicode, entries: seq<(string, Json)>, at: nat, positions: Positions)
    requires at <= |entries| && InRange(positions)
    ensures ScanEntries(u, entries, at, positions).Ok? ==> InRange(ScanEntries(u, entries, at, positions).value)
    decreases |entries| - at
  {
    if at < |entries| {
      var scanned := ScanEntry(u, entries[at], at, positions);
      if scanned.Ok? {
        PositionsStayInRange(SafeToken(u, entries[at].0).value, entries[at].1.items, 0, positions);
        EntriesStayInRange(u, entries, at + 1, scanned.value);
      }
    }
  }

  ghost function Reconstruct(u: Unicode, value: Json): Result<Option<string>, Flaw> {
    match value
    case Null => Ok(None)
    case Obj(entries) =>
      if |entries| > MAX_TOKENS then Err(Flaw(TokenCountLimit, None))
      else
        (match ScanEntries(u, entries, 0, map[])
         case Err(flaw) => Err(flaw)
         case Ok(positions) => EntriesStayInRange(u, entries, 0, map[]); Finish(positions))
    case _ => Err(Flaw(ObjectOrNull, None))
  }

  // The loops

  method KeepToken(u: Unicode, token: string) returns (safe: Result<string, Code>)
    ensures safe == SafeToken(u, token)
  {
    var normalized := NormalizeFormattingWhitespace(token);
    safe := if HasControl(u, normalized) then Err(TokenControl) else SafeText(u, normalized, 500);
  }

  method JoinWords(positions: Positions, count: nat) returns (text: string)
    requires positions.Keys == Upto(count)
    ensures text == Join(WordsAt(positions, count))
  {
    text := "";
    var words := WordsAt(positions, count);
    for index := 0 to count
      invariant text == Join(words[..index])
    {
      assert words[..index + 1][..index] == words[..index];
      text := if index == 0 then positions[index] else text + " " + positions[index];
    }
    assert words[..count] == words;
  }

  method Abstract(u: Unicode, value: Json) returns (result: Result<Option<string>, Flaw>)
    ensures result == Reconstruct(u, value)
  {
    hide SafeToken, WordsAt, Join;
    if value.Null? {
      return Ok(None);
    }
    if !value.Obj? {
      return Err(Flaw(ObjectOrNull, None));
    }
    var entries := value.fields;
    if |entries| > MAX_TOKENS {
      return Err(Flaw(TokenCountLimit, None));
    }
    var positions: Positions := map[];
    for at := 0 to |entries|
      invariant InRange(positions)
      invariant ScanEntries(u, entries, 0, map[]) == ScanEntries(u, entries, at, positions)
    {
      var safe := KeepToken(u, entries[at].0);
      if safe.Err? {
        return Err(Flaw(safe.error, Some(at)));
      }
      if !entries[at].1.Arr? {
        return Err(Flaw(PositionsArray, Some(at)));
      }
      var raw := entries[at].1.items;
      if |raw| > MAX_POSITIONS {
        return Err(Flaw(PositionsCountLimit, Some(at)));
      }
      ghost var before := positions;
      for k := 0 to |raw|
        invariant InRange(positions)
        invariant ScanEntry(u, entries[at], at, before) == ScanPositions(safe.value, raw, k, positions)
      {
        if !raw[k].Int? {
          return Err(Flaw(PositionInteger, Some(k)));
        }
        if !(0 <= raw[k].number <= MAX_POSITION) {
          return Err(Flaw(PositionRange, Some(k)));
        }
        if raw[k].number in positions {
          return Err(Flaw(PositionUnique, Some(k)));
        }
        positions := positions[raw[k].number := safe.value];
      }
    }
    if positions == map[] {
      return Ok(None);
    }
    var count := Largest(positions.Keys) + 1;
    if |positions| != count {
      return Err(Flaw(PositionsContiguous, None));
    }
    Pigeonhole(positions.Keys, count);
    var text := JoinWords(positions, count);
    return if |text| > MAX_ABSTRACT then Err(Flaw(ResultSize, None)) else Ok(Some(text));
  }

  // What an index spells

  /** One key of the index is within every limit. */
  ghost predicate Wholesome(u: Unicode, entry: (string, Json)) {
    && SafeToken(u, entry.0).Ok?
    && entry.1.Arr? && |entry.1.items| <= MAX_POSITIONS
    && forall i :: 0 <= i < |entry.1.items| ==> entry.1.items[i].Int? && 0 <= entry.1.items[i].number <= MAX_POSITION
  }

  ghost predicate AllWholesome(u: Unicode, entries: seq<(string, Json)>) {
    forall i :: 0 <= i < |entries| ==> Wholesome(u, entries[i])
  }

  type Placement = (int, string)

  ghost predicate Numbers(raw: seq<Json>) { forall i :: 0 <= i < |raw| ==> raw[i].Int? }

  ghost function PlacedAt(safe: string, raw: seq<Json>): (placed: seq<Placement>)
    requires Numbers(raw)
    ensures |placed| == |raw|
  {
    seq(|raw|, i requires 0 <= i < |raw| => (raw[i].number, safe))
  }

  ghost function PlacedBy(u: Unicode, entry: (string, Json)): seq<Placement>
    requires Wholesome(u, entry)
  {
    PlacedAt(SafeToken(u, entry.0).value, entry.1.items)
  }

  /** Every (position, safe token) pair of the index, in its order. */
  ghost function Placed(u: Unicode, entries: seq<(string, Json)>): seq<Placement>
    requires AllWholesome(u, entries)
  {
    if entries == [] then [] else PlacedBy(u, entries[0]) + Placed(u, entries[1..])
  }

  ghost function Enumerated(words: seq<string>): (placed: seq<Placement>)
    ensures |placed| == |words|
  {
    seq(|words|, i requires 0 <= i < |words| => (i, words[i]))
  }

  /** The index spells `words`: its placements are those of the words, in some order. */
  ghost predicate Spells(u: Unicode, entries: seq<(string, Json)>, words: seq<string>) {
    AllWholesome(u, entries) && multiset(Placed(u, entries)) == multiset(Enumerated(words))
  }

  // Filling a map with placements

  ghost function Fill(positions: Positions, placed: seq<Placement>): Option<Positions>
    decreases |placed|
  {
    if placed == [] then Some(positions)
    else if placed[0].0 in positions then None
    else Fill(positions[placed[0].0 := placed[0].1], placed[1..])
  }

  lemma {:induction false} FillAppend(positions: Positions, a: seq<Placement>, b: seq<Placement>)
    ensures Fill(positions, a + b) ==
            match Fill(positions, a) case None => None case Some(more) => Fill(more, b)
    decreases |a|
  {
    if a == [] {
      assert a + b == b;
    } else {
      assert (a + b)[0] == a[0] && (a + b)[1..] == a[1..] + b;
      if a[0].0 !in positions {
        FillAppend(positions[a[0].0 := a[0].1], a[1..], b);
      }
    }
  }

  lemma {:induction false} ScanPositionsFills(safe: string, raw: seq<Json>, at: nat, positions: Positions)
    requires at <= |raw|
    requires forall i :: at <= i < |raw| ==> raw[i].Int? && 0 <= raw[i].number <= MAX_POSITION
    ensures ScanPositions(safe, raw, at, positions).Ok? <==> Fill(positions, PlacedAt(safe, raw[at..])).Some?
    ensures ScanPositions(safe, raw, at, positions).Ok? ==>
              Some(ScanPositions(safe, raw, at, positions).value) == Fill(positions, PlacedAt(safe, raw[at..]))
    decreases |raw| - at
  {
    if at < |raw| {
      var placed := PlacedAt(safe, raw[at..]);
      assert placed[0] == (raw[at].number, safe);
      assert placed[1..] == PlacedAt(safe, raw[at + 1..]);
      if raw[at].number !in positions {
        ScanPositionsFills(safe, raw, at + 1, positions[raw[at].number := safe]);
      }
    }
  }

  lemma {:induction false} ScanPositionsChecks(safe: string, raw: seq<Json>, at: nat, positions: Positions)
    requires at <= |raw| && ScanPositions(safe, raw, at, positions).Ok?
    ensures forall i :: at <= i < |raw| ==> raw[i].Int? && 0 <= raw[i].number <= MAX_POSITION
    decreases |raw| - at
  {
    if at < |raw| {
      ScanPositionsChecks(safe, raw, at + 1, positions[raw[at].number := safe]);
    }
  }

  lemma ScanEntryFills(u: Unicode, entry: (string, Json), at: nat, positions: Positions)
    ensures ScanEntry(u, entry, at, positions).Ok? ==> Wholesome(u, entry)
    ensures Wholesome(u, entry) ==>
              (ScanEntry(u, entry, at, positions).Ok? <==> Fill(positions, PlacedBy(u, entry)).Some?)
    ensures ScanEntry(u, entry, at, positions).Ok? ==>
              Some(ScanEntry(u, entry, at, positions).value) == Fill(positions, PlacedBy(u, entry))
  {
    if ScanEntry(u, entry, at, positions).Ok? {
      ScanPositionsChecks(SafeToken(u, entry.0).value, entry.1.items, 0, positions);
    }
    if Wholesome(u, entry) {
      var raw := entry.1.items;
      assert raw[0..] == raw;
      ScanPositionsFills(SafeToken(u, entry.0).value, raw, 0, positions);
    }
  }

  lemma {:induction false} ScanEntriesFills(u: Unicode, entries: seq<(string, Json)>, at: nat, positions: Positions)
    requires at <= |entries|
    ensures ScanEntries(u, entries, at, positions).Ok? ==> AllWholesome(u, entries[at..])
    ensures AllWholesome(u, entries[at..]) ==>
              (ScanEntries(u, entries, at, positions).Ok? <==> Fill(positions, Placed(u, entries[at..])).Some?)
    ensures ScanEntries(u, entries, at, positions).Ok? ==>
              Some(ScanEntries(u, entries, at, positions).value) == Fill(positions, Placed(u, entries[at..]))
    decreases |entries| - at
  {
    hide Wholesome;
    if at < |entries| {
      var rest := entries[at..];
      assert rest[0] == entries[at] && rest[1..] == entries[at + 1..];
      ScanEntryFills(u, entries[at], at, positions);
      var scanned := ScanEntry(u, entries[at], at, positions);
      if scanned.Ok? {
        ScanEntriesFills(u, entries, at + 1, scanned.value);
      }
      if AllWholesome(u, rest) {
        assert AllWholesome(u, rest[1..]);
        FillAppend(positions, PlacedBy(u, rest[0]), Placed(u, rest[1..]));
      }
      if ScanEntries(u, entries, at, positions).Ok? {
        assert forall i :: 0 < i < |rest| ==> rest[i] == rest[1..][i - 1];
      }
    }
  }

  // Which placements fill a map, and what the map then holds

  ghost predicate Apart(placed: seq<Placement>) {
    forall i, j :: 0 <= i < j < |placed| ==> placed[i].0 != placed[j].0
  }

  ghost function Keys(placed: seq<Placement>): set<int> { set i | 0 <= i < |placed| :: placed[i].0 }

  lemma RestIsApart(placed: seq<Placement>)
    requires placed != []
    ensures Keys(placed) == {placed[0].0} + Keys(placed[1..])
    ensures Apart(placed) <==> Apart(placed[1..]) && placed[0].0 !in Keys(placed[1..])
  {
    var rest := placed[1..];
    assert placed == [placed[0]] + rest;
    assert forall i :: 0 <= i < |rest| ==> rest[i] == placed[i + 1];
    if Apart(placed) {
      assert Apart(rest);
    }
    if Apart(rest) && placed[0].0 !in Keys(rest) {
      forall i, j | 0 <= i < j < |placed| ensures placed[i].0 != placed[j].0 {
        assert placed[j] == rest[j - 1];
        assert placed[j].0 in Keys(rest);
        assert i > 0 ==> placed[i] == rest[i - 1];
      }
    }
  }

  lemma {:induction false} FillSucceeds(positions: Positions, placed: seq<Placement>)
    ensures Fill(positions, placed).Some? <==> Apart(placed) && Keys(placed) !! positions.Keys
    decreases |placed|
  {
    if placed != [] {
      RestIsApart(placed);
      hide Apart, Keys;
      if placed[0].0 !in positions {
        FillSucceeds(positions[placed[0].0 := placed[0].1], placed[1..]);
      }
    }
  }

  lemma {:induction false} FillHolds(positions: Positions, placed: seq<Placement>, key: int)
    requires Fill(positions, placed).Some?
    ensures var full := Fill(positions, placed).value;
            && |full| == |positions| + |placed|
            && (key in full <==> key in positions || key in Keys(placed))
            && (key in positions ==> full[key] == positions[key])
            && (key in full && key !in positions ==> (key, full[key]) in placed)
    decreases |placed|
  {
    if placed != [] {
      FillHolds(positions[placed[0].0 := placed[0].1], placed[1..], key);
      RestIsApart(placed);
      hide Apart, Keys;
      assert placed == [placed[0]] + placed[1..];
    }
  }

  // Acceptance is exact

  lemma {:induction false} OnceEach(placed: seq<Placement>, x: Placement)
    requires Apart(placed)
    ensures multiset(placed)[x] == if x in placed then 1 else 0
  {
    if placed != [] {
      var first, rest := placed[0], placed[1..];
      assert placed == [first] + rest;
      RestIsApart(placed);
      OnceEach(rest, x);
      assert first in rest ==> first.0 in Keys(rest);
    }
  }

  lemma InEnumerated(words: seq<string>)
    ensures Apart(Enumerated(words))
    ensures forall x :: x in Enumerated(words) <==> 0 <= x.0 < |words| && x.1 == words[x.0]
  {
    var numbered := Enumerated(words);
    assert forall i :: 0 <= i < |words| ==> numbered[i] == (i, words[i]);
    forall x ensures x in numbered <==> 0 <= x.0 < |words| && x.1 == words[x.0] {
      if 0 <= x.0 < |words| && x.1 == words[x.0] {
        assert numbered[x.0] == x;
      }
    }
  }

  lemma PermutedStayApart(placed: seq<Placement>, numbered: seq<Placement>)
    requires multiset(placed) == multiset(numbered) && Apart(numbered)
    ensures Apart(placed)
  {
    SameMembers(placed, numbered);
    forall i, j | 0 <= i < j < |placed| ensures placed[i].0 != placed[j].0 {
      assert placed[i] in numbered && placed[j] in numbered;
      if placed[i].0 == placed[j].0 {
        assert placed[i] == placed[j];
        RepeatCounts(placed, i, j);
        OnceEach(numbered, placed[i]);
      }
    }
  }

  /** Placements that enumerate words are apart, and give each number below |words| its word. */
  lemma EnumeratingFills(placed: seq<Placement>, words: seq<string>)
    requires multiset(placed) == multiset(Enumerated(words))
    ensures Apart(placed)
    ensures forall x :: x in placed <==> 0 <= x.0 < |words| && x.1 == words[x.0]
  {
    InEnumerated(words);
    SameMembers(placed, Enumerated(words));
    PermutedStayApart(placed, Enumerated(words));
  }

  lemma EnumeratingKeys(placed: seq<Placement>, words: seq<string>, k: int)
    requires multiset(placed) == multiset(Enumerated(words))
    ensures k in Keys(placed) <==> 0 <= k < |words|
  {
    EnumeratingFills(placed, words);
    if 0 <= k < |words| {
      assert (k, words[k]) in placed;
    }
  }

  lemma ApartEnumerates(placed: seq<Placement>, words: seq<string>)
    requires Apart(placed)
    requires forall x :: x in placed <==> 0 <= x.0 < |words| && x.1 == words[x.0]
    ensures multiset(placed) == multiset(Enumerated(words))
  {
    InEnumerated(words);
    forall x ensures multiset(placed)[x] == multiset(Enumerated(words))[x] {
      OnceEach(placed, x);
      OnceEach(Enumerated(words), x);
    }
  }

  /** What an accepted map's words are: the ones its placements enumerate. */
  ghost function Outcome(words: seq<string>): Result<Option<string>, Flaw> {
    if words == [] then Ok(None)
    else if |Join(words)| > MAX_ABSTRACT then Err(Flaw(ResultSize, None))
    else Ok(Some(Join(words)))
  }

  lemma LargestOfUpto(n: nat)
    requires n > 0
    ensures Largest(Upto(n)) == n - 1
  {
  }

  /** From placements that enumerate words, the map is full and its words are those. */
  lemma EnumeratedFinish(placed: seq<Placement>, words: seq<string>)
    requires multiset(placed) == multiset(Enumerated(words))
    requires Fill(map[], placed).Some? && InRange(Fill(map[], placed).value)
    ensures Finish(Fill(map[], placed).value) == Outcome(words)
  {
    hide Enumerated, Apart, Keys, Fill, Join, InRange, Upto, Finish, Outcome;
    var full := Fill(map[], placed).value;
    SameMembers(placed, Enumerated(words));
    FillHolds(map[], placed, 0);
    forall k: int ensures (k in full <==> 0 <= k < |words|) && (k in full ==> full[k] == words[k]) {
      EnumeratedAt(placed, words, k);
    }
    FullFinish(full, words);
  }

  lemma EnumeratedAt(placed: seq<Placement>, words: seq<string>, k: int)
    requires multiset(placed) == multiset(Enumerated(words)) && Fill(map[], placed).Some?
    ensures var full := Fill(map[], placed).value;
            (k in full <==> 0 <= k < |words|) && (k in full ==> full[k] == words[k])
  {
    hide Enumerated, Apart, Keys, Fill;
    EnumeratingFills(placed, words);
    FillHolds(map[], placed, k);
    EnumeratingKeys(placed, words, k);
  }

  lemma FullFinish(full: Positions, words: seq<string>)
    requires InRange(full) && |full| == |words|
    requires forall k: int :: (k in full <==> 0 <= k < |words|) && (k in full ==> full[k] == words[k])
    ensures Finish(full) == Outcome(words)
  {
    hide Join, InRange;
    assert full.Keys == Upto(|words|);
    if words == [] {
      assert full == map[];
    } else {
      LargestOfUpto(|words|);
      assert WordsAt(full, |words|) == words;
    }
  }

  /** A map that passes the count test holds the numbers below its size: its words are enumerated. */
  lemma FullMapEnumerates(placed: seq<Placement>)
    requires Fill(map[], placed).Some? && InRange(Fill(map[], placed).value)
    requires Finish(Fill(map[], placed).value) != Err(Flaw(PositionsContiguous, None))
    ensures exists words :: multiset(placed) == multiset(Enumerated(words))
  {
    var full := Fill(map[], placed).value;
    FillSucceeds(map[], placed);
    FillHolds(map[], placed, 0);
    assert full.Keys == Upto(|full|) by {
      if full == map[] {
        assert full.Keys == {};
      } else {
        Pigeonhole(full.Keys, Largest(full.Keys) + 1);
      }
    }
    var words := WordsAt(full, |full|);
    forall x: Placement ensures x in placed <==> 0 <= x.0 < |words| && x.1 == words[x.0] {
      FillHolds(map[], placed, x.0);
      if x in placed {
        var i :| 0 <= i < |placed| && placed[i] == x;
        assert x.0 in Keys(placed);
        var y := (x.0, full[x.0]);
        assert y in placed;
        var j :| 0 <= j < |placed| && placed[j] == y;
        assert i == j;
      }
    }
    ApartEnumerates(placed, words);
  }

  /** An index that spells words is accepted with those words joined, unless they are too long. */
  lemma SpellingDecides(u: Unicode, entries: seq<(string, Json)>, words: seq<string>)
    requires |entries| <= MAX_TOKENS && Spells(u, entries, words)
    ensures Reconstruct(u, Obj(entries)) == Outcome(words)
  {
    hide AllWholesome, Placed, Enumerated, Finish, Outcome, Fill, ScanEntries, Apart;
    assert entries[0..] == entries;
    ScanEntriesFills(u, entries, 0, map[]);
    EntriesStayInRange(u, entries, 0, map[]);
    var placed := Placed(u, entries);
    EnumeratingFills(placed, words);
    FillSucceeds(map[], placed);
    EnumeratedFinish(placed, words);
  }

  /** Whatever passes the count test spells some words. */
  lemma CompleteIndexSpells(u: Unicode, entries: seq<(string, Json)>)
    requires |entries| <= MAX_TOKENS
    requires Reconstruct(u, Obj(entries)).Ok? || Reconstruct(u, Obj(entries)) == Err(Flaw(ResultSize, None))
    ensures exists words :: Spells(u, entries, words)
  {
    hide AllWholesome, Placed, Enumerated, Finish, Fill, ScanEntries;
    assert entries[0..] == entries;
    ScanEntriesFills(u, entries, 0, map[]);
    EntriesStayInRange(u, entries, 0, map[]);
    NoSizeFlaw(u, entries, 0, map[]);
    var placed := Placed(u, entries);
    FullMapEnumerates(placed);
    var words :| multiset(placed) == multiset(Enumerated(words));
    assert Spells(u, entries, words);
  }

  lemma {:induction false} NoSizeFlaw(u: Unicode, entries: seq<(string, Json)>, at: nat, positions: Positions)
    requires at <= |entries|
    ensures ScanEntries(u, entries, at, positions) != Err(Flaw(ResultSize, None))
    decreases |entries| - at
  {
    if at < |entries| {
      if SafeToken(u, entries[at].0).Ok? && entries[at].1.Arr? {
        NoPositionSizeFlaw(SafeToken(u, entries[at].0).value, entries[at].1.items, 0, positions);
      }
      if ScanEntry(u, entries[at], at, positions).Ok? {
        NoSizeFlaw(u, entries, at + 1, ScanEntry(u, entries[at], at, positions).value);
      }
    }
  }

  lemma {:induction false} NoPositionSizeFlaw(safe: string, raw: seq<Json>, at: nat, positions: Positions)
    requires at <= |raw|
    ensures ScanPositions(safe, raw, at, positions) != Err(Flaw(ResultSize, None))
    decreases |raw| - at
  {
    if at < |raw| && raw[at].Int? {
      NoPositionSizeFlaw(safe, raw, at + 1, positions[raw[at].number := safe]);
    }
  }

  /**
   * Acceptance is exact: a text comes back exactly when the index is within limits and its
   * placements are a permutation of some words numbered from 0, and it is those words joined.
   */
  lemma AbstractIsExact(u: Unicode, entries: seq<(string, Json)>, result: Option<string>)
    ensures Reconstruct(u, Obj(entries)) == Ok(result)
            <==> |entries| <= MAX_TOKENS
                 && exists words :: Spells(u, entries, words) && Outcome(words) == Ok(result)
  {
    hide Spells, Outcome, ScanEntries;
    if |entries| <= MAX_TOKENS {
      if words :| Spells(u, entries, words) {
        SpellingDecides(u, entries, words);
        forall other | Spells(u, entries, other) ensures Outcome(other) == Outcome(words) {
          SpellingDecides(u, entries, other);
        }
      } else if Reconstruct(u, Obj(entries)).Ok? {
        CompleteIndexSpells(u, entries);
      }
    }
  }

  lemma AppendWholesome(u: Unicode, a: seq<(string, Json)>, b: seq<(string, Json)>)
    requires AllWholesome(u, a) && AllWholesome(u, b)
    ensures AllWholesome(u, a + b) && (a != [] ==> AllWholesome(u, a[1..]))
  {
    hide Wholesome;
  }

  lemma {:induction false} PlacedAppend(u: Unicode, a: seq<(string, Json)>, b: seq<(string, Json)>)
    requires AllWholesome(u, a) && AllWholesome(u, b)
    ensures AllWholesome(u, a + b) && Placed(u, a + b) == Placed(u, a) + Placed(u, b)
  {
    hide Wholesome;
    if a == [] {
      assert a + b == b;
    } else {
      var rest := a[1..];
      assert (a + b)[0] == a[0] && (a + b)[1..] == rest + b;
      PlacedAppend(u, rest, b);
      AppendWholesome(u, a, b);
      hide AllWholesome, PlacedBy;
      assert Placed(u, a + b) == PlacedBy(u, a[0]) + Placed(u, rest + b);
    }
  }

  lemma PlacedWithout(u: Unicode, b: seq<(string, Json)>, i: nat)
    requires i < |b| && AllWholesome(u, b)
    ensures AllWholesome(u, b[..i] + b[i + 1..])
    ensures multiset(Placed(u, b)) == multiset(PlacedBy(u, b[i])) + multiset(Placed(u, b[..i] + b[i + 1..]))
  {
    hide Wholesome, PlacedBy;
    var rest := b[i..];
    assert b == b[..i] + rest && rest[0] == b[i] && rest[1..] == b[i + 1..];
    PlacedAppend(u, b[..i], rest);
    PlacedAppend(u, b[..i], b[i + 1..]);
  }

  lemma WholesomePermutes(u: Unicode, a: seq<(string, Json)>, b: seq<(string, Json)>)
    requires AllWholesome(u, a) && multiset(a) == multiset(b)
    ensures AllWholesome(u, b)
  {
    SameMembers(a, b);
    forall i | 0 <= i < |b| ensures Wholesome(u, b[i]) {
      assert b[i] in a;
    }
  }

  lemma {:induction false} PlacedPermutes(u: Unicode, a: seq<(string, Json)>, b: seq<(string, Json)>)
    requires AllWholesome(u, a) && AllWholesome(u, b) && multiset(a) == multiset(b)
    ensures multiset(Placed(u, a)) == multiset(Placed(u, b))
  {
    hide Wholesome, PlacedBy;
    SameMembers(a, b);
    if a != [] {
      var i := Position(a[0], b);
      Without(a, 0);
      Without(b, i);
      assert a[..0] + a[0 + 1..] == a[1..];
      PlacedWithout(u, b, i);
      PlacedPermutes(u, a[1..], b[..i] + b[i + 1..]);
    }
  }

  /** The order of the keys never matters to what is accepted, nor to the text. */
  lemma KeyOrderIsIrrelevant(u: Unicode, a: seq<(string, Json)>, b: seq<(string, Json)>)
    requires multiset(a) == multiset(b)
    ensures Reconstruct(u, Obj(a)).Ok? ==> Reconstruct(u, Obj(b)) == Reconstruct(u, Obj(a))
  {
    hide Placed, Enumerated, Outcome, Reconstruct, Wholesome;
    SameMembers(a, b);
    if Reconstruct(u, Obj(a)).Ok? {
      var result := Reconstruct(u, Obj(a)).value;
      AbstractIsExact(u, a, result);
      var words :| Spells(u, a, words) && Outcome(words) == Ok(result);
      WholesomePermutes(u, a, b);
      PlacedPermutes(u, a, b);
      assert Spells(u, b, words);
      AbstractIsExact(u, b, result);
    }
  }

  // Round trip

  /** `dict.setdefault(word, []).append(position)`. */
  function Record(entries: seq<(string, Json)>, word: string, position: nat): seq<(string, Json)> {
    if entries == [] then [(word, Arr([Int(position)]))]
    else if entries[0].0 == word && entries[0].1.Arr? then [(word, Arr(entries[0].1.items + [Int(position)]))]
        + entries[1..]
    else [entries[0]] + Record(entries[1..], word, position)
  }

  /** The inverted index of a text: every word with the positions it stands at. */
  function Invert(words: seq<string>): seq<(string, Json)> {
    if words == [] then [] else Record(Invert(words[..|words| - 1]), words[|words| - 1], |words| - 1)
  }

  ghost predicate AllSafe(u: Unicode, words: seq<string>) { forall i :: 0 <= i < |words| ==> Safe(u, words[i]) }

  /** An entry of an inverted text, whatever the limits: a safe key and positions below n. */
  ghost predicate Indexed(u: Unicode, entry: (string, Json), n: nat) {
    && Safe(u, entry.0) && entry.1.Arr?
    && forall i :: 0 <= i < |entry.1.items| ==> entry.1.items[i].Int? && 0 <= entry.1.items[i].number < n
  }

  ghost predicate AllIndexed(u: Unicode, entries: seq<(string, Json)>, n: nat) {
    forall i :: 0 <= i < |entries| ==> Indexed(u, entries[i], n)
  }

  /** The limits the adapter sets on an index: how many keys, how many positions each, and how large a position. */
  ghost predicate WithinLimits(entries: seq<(string, Json)>) {
    && |entries| <= MAX_TOKENS
    && forall i :: 0 <= i < |entries| && entries[i].1.Arr? ==>
         |entries[i].1.items| <= MAX_POSITIONS && PositionsSmall(entries[i].1.items)
  }

  predicate PositionsSmall(items: seq<Json>) {
    forall j :: 0 <= j < |items| && items[j].Int? ==> items[j].number <= MAX_POSITION
  }

  ghost predicate Holds(entry: (string, Json), position: nat) { entry.1.Arr? && Int(position) in entry.1.items }

  ghost predicate SomeHolds(entries: seq<(string, Json)>, position: nat) {
    exists k :: 0 <= k < |entries| && Holds(entries[k], position)
  }

  /** Recording a position puts it into some entry. */
  lemma {:induction false} RecordHolds(entries: seq<(string, Json)>, word: string, position: nat)
    requires forall i :: 0 <= i < |entries| ==> entries[i].1.Arr?
    ensures SomeHolds(Record(entries, word, position), position)
  {
    var recorded := Record(entries, word, position);
    if entries == [] || entries[0].0 == word {
      assert recorded[0].1.items[|recorded[0].1.items| - 1] == Int(position);
      assert Holds(recorded[0], position);
    } else {
      var rest := entries[1..];
      assert forall i :: 0 <= i < |rest| ==> rest[i] == entries[i + 1];
      RecordHolds(rest, word, position);
      var k :| 0 <= k < |Record(rest, word, position)| && Holds(Record(rest, word, position)[k], position);
      assert recorded[k + 1] == Record(rest, word, position)[k];
    }
  }

  /** The last word of an inverted text stands in a wholesome index only if its position is in range. */
  lemma WholesomeIsShort(u: Unicode, words: seq<string>)
    requires AllSafe(u, words) && AllWholesome(u, Invert(words))
    ensures |words| <= MAX_POSITION + 1
  {
    if words != [] {
      var n := |words| - 1;
      InvertIsIndexed(u, words[..n]);
      assert forall i :: 0 <= i < |Invert(words[..n])| ==> Indexed(u, Invert(words[..n])[i], n);
      RecordHolds(Invert(words[..n]), words[n], n);
      var k :| 0 <= k < |Invert(words)| && Holds(Invert(words)[k], n);
      var j :| 0 <= j < |Invert(words)[k].1.items| && Invert(words)[k].1.items[j] == Int(n);
      assert Wholesome(u, Invert(words)[k]);
    }
  }

  ghost predicate KeysApart(entries: seq<(string, Json)>) {
    forall i, j :: 0 <= i < j < |entries| ==> entries[i].0 != entries[j].0
  }

  lemma {:induction false} RecordIsIndexed(u: Unicode, entries: seq<(string, Json)>, word: string, position: nat)
    requires AllIndexed(u, entries, position) && Safe(u, word)
    ensures AllIndexed(u, Record(entries, word, position), position + 1)
  {
    if entries != [] {
      var rest := entries[1..];
      assert entries == [entries[0]] + rest;
      forall i | 0 <= i < |rest| ensures Indexed(u, rest[i], position) { assert rest[i] == entries[i + 1]; }
      RecordIsIndexed(u, rest, word, position);
      assert Indexed(u, entries[0], position);
      forall i | 0 <= i < |rest| ensures Indexed(u, rest[i], position + 1) { }
    }
  }

  lemma {:induction false} RecordKeys(entries: seq<(string, Json)>, word: string, position: nat)
    requires KeysApart(entries) && forall i :: 0 <= i < |entries| ==> entries[i].1.Arr?
    ensures KeysApart(Record(entries, word, position))
    ensures forall entry :: entry in Record(entries, word, position) ==>
            entry.0 == word || exists i :: 0 <= i < |entries| && entries[i].0 == entry.0
  {
    if entries != [] && entries[0].0 != word {
      var rest := entries[1..];
      assert forall i :: 0 <= i < |rest| ==> rest[i] == entries[i + 1];
      RecordKeys(rest, word, position);
      var recorded := Record(rest, word, position);
      forall k | 0 <= k < |recorded| ensures recorded[k].0 != entries[0].0 {
        assert recorded[k] in recorded;
      }
    }
  }

  /** One more position of a safe word places the word there. */
  lemma LongerEntry(u: Unicode, entry: (string, Json), position: nat)
    requires Indexed(u, entry, position) && position <= MAX_POSITION && SafeToken(u, entry.0) == Ok(entry.0)
    requires Wholesome(u, (entry.0, Arr(entry.1.items + [Int(position)])))
    ensures Wholesome(u, entry)
    ensures PlacedBy(u, (entry.0, Arr(entry.1.items + [Int(position)]))) == PlacedBy(u, entry) + [(position, entry.0)]
  {
    hide Safe, SafeToken;
    var items := entry.1.items;
    forall i | 0 <= i < |items| ensures items[i].Int? && 0 <= items[i].number <= MAX_POSITION { }
  }

  lemma {:induction false} RecordPlaces(u: Unicode, entries: seq<(string, Json)>, word: string, position: nat)
    requires Safe(u, word) && position <= MAX_POSITION && AllIndexed(u, entries, position)
    requires AllWholesome(u, Record(entries, word, position))
    ensures AllWholesome(u, entries)
    ensures multiset(Placed(u, Record(entries, word, position))) == multiset(Placed(u, entries))
            + multiset{(position, word)}
  {
    SafeTokensAreFixed(u, word, word);
    hide Safe;
    if entries == [] {
      assert PlacedBy(u, (word, Arr([Int(position)]))) == [(position, word)];
    } else {
      var rest := entries[1..];
      assert entries == [entries[0]] + rest;
      var recorded := Record(entries, word, position);
      assert Wholesome(u, recorded[0]) && Indexed(u, entries[0], position);
      SafeTokensAreFixed(u, entries[0].0, entries[0].0);
      if entries[0].0 == word {
        assert recorded[1..] == rest;
        LongerEntry(u, entries[0], position);
        hide Wholesome, PlacedBy, Indexed;
        assert forall i :: 0 <= i < |rest| ==> rest[i] == recorded[i + 1];
      } else {
        assert recorded[1..] == Record(rest, word, position);
        assert forall i :: 0 <= i < |rest| ==> rest[i] == entries[i + 1];
        assert forall i :: 0 <= i < |recorded[1..]| ==> recorded[1..][i] == recorded[i + 1];
        RecordPlaces(u, rest, word, position);
      }
    }
  }

  lemma {:induction false} InvertIsIndexed(u: Unicode, words: seq<string>)
    requires AllSafe(u, words)
    ensures AllIndexed(u, Invert(words), |words|) && KeysApart(Invert(words))
  {
    if words != [] {
      var front := words[..|words| - 1];
      InvertIsIndexed(u, front);
      RecordIsIndexed(u, Invert(front), words[|words| - 1], |words| - 1);
      assert forall i :: 0 <= i < |Invert(front)| ==> Indexed(u, Invert(front)[i], |front|);
      RecordKeys(Invert(front), words[|words| - 1], |words| - 1);
    }
  }

  lemma EmptySpells(u: Unicode)
    ensures Spells(u, [], [])
  {
    assert Enumerated([]) == [];
  }

  lemma {:induction false} InvertSpells(u: Unicode, words: seq<string>)
    requires AllSafe(u, words) && AllWholesome(u, Invert(words))
    ensures Spells(u, Invert(words), words)
  {
    hide AllWholesome, Safe, AllIndexed, Enumerated, Record, KeysApart;
    if words == [] {
      EmptySpells(u);
    } else {
      var n := |words| - 1;
      var front := words[..n];
      WholesomeIsShort(u, words);
      InvertIsIndexed(u, front);
      RecordPlaces(u, Invert(front), words[n], n);
      InvertSpells(u, front);
      EnumeratedExtends(words);
    }
  }

  lemma EnumeratedExtends(words: seq<string>)
    requires words != []
    ensures multiset(Enumerated(words)) == multiset(Enumerated(words[..|words| - 1]))
            + multiset{(|words| - 1, words[|words| - 1])}
  {
    var n := |words| - 1;
    assert Enumerated(words) == Enumerated(words[..n]) + [(n, words[n])];
  }

  lemma IndexedIsWholesome(u: Unicode, entries: seq<(string, Json)>, n: nat)
    requires AllIndexed(u, entries, n) && WithinLimits(entries)
    ensures AllWholesome(u, entries)
  {
    hide Safe;
    forall k | 0 <= k < |entries| ensures Wholesome(u, entries[k]) {
      assert Indexed(u, entries[k], n);
      SafeTokensAreFixed(u, entries[k].0, entries[k].0);
    }
  }

  /**
   * Inverting safe words and rebuilding gives the words joined by single spaces, and None for no
   * words, exactly when the index is within limits; otherwise it is refused.
   */
  lemma InvertedTextComesBack(u: Unicode, words: seq<string>)
    requires AllSafe(u, words)
    ensures KeysApart(Invert(words))
    ensures WithinLimits(Invert(words)) ==> Reconstruct(u, Obj(Invert(words))) == Outcome(words)
    ensures !WithinLimits(Invert(words)) ==> Reconstruct(u, Obj(Invert(words))).Err?
  {
    hide Reconstruct, Outcome, Spells, Safe, Invert, Placed, AllIndexed;
    var entries := Invert(words);
    InvertIsIndexed(u, words);
    if WithinLimits(entries) {
      IndexedIsWholesome(u, entries, |words|);
      InvertSpells(u, words);
      SpellingDecides(u, entries, words);
    } else if Reconstruct(u, Obj(entries)).Ok? {
      AcceptedIsWithinLimits(u, entries);
    }
  }

  lemma AcceptedIsWithinLimits(u: Unicode, entries: seq<(string, Json)>)
    requires Reconstruct(u, Obj(entries)).Ok?
    ensures WithinLimits(entries)
  {
    hide Reconstruct, Outcome, Placed;
    AbstractIsExact(u, entries, Reconstruct(u, Obj(entries)).value);
    var words :| Spells(u, entries, words);
    forall i | 0 <= i < |entries| ensures Wholesome(u, entries[i]) { }
  }
}
