/** Small shared vocabulary: optional and failing values, the text order, sums over maps. */

module Outcomes {
  datatype Option<+T> = None | Some(value: T)

  datatype Result<+T, +E> = Ok(value: T) | Err(error: E)
}

/** Python's order on strings (by code point) and on tuples, and a stable sort by key. */
module Ordering {
  /** A sort key; a key with fewer components leaves the others constant. */
  type Key = (string, int, string)

  predicate TextLeq(a: string, b: string) {
    a == [] || (b != [] && (a[0] < b[0] || (a[0] == b[0] && TextLeq(a[1..], b[1..]))))
  }

  lemma {:induction false} TextTotal(a: string, b: string)
    ensures TextLeq(a, b) || TextLeq(b, a)
  {
    if a != [] && b != [] && a[0] == b[0] {
      TextTotal(a[1..], b[1..]);
    }
  }

  lemma {:induction false} TextAntisymmetric(a: string, b: string)
    requires TextLeq(a, b) && TextLeq(b, a)
    ensures a == b
  {
    if a != [] && b != [] {
      TextAntisymmetric(a[1..], b[1..]);
      assert a == [a[0]] + a[1..] && b == [b[0]] + b[1..];
    }
  }

  lemma {:induction false} TextTransitive(a: string, b: string, c: string)
    requires TextLeq(a, b) && TextLeq(b, c)
    ensures TextLeq(a, c)
  {
    if a != [] && a[0] == b[0] && b[0] == c[0] {
      TextTransitive(a[1..], b[1..], c[1..]);
    }
  }

  predicate KeyLeq(a: Key, b: Key) {
    if a.0 != b.0 then TextLeq(a.0, b.0) else if a.1 != b.1 then a.1 < b.1 else TextLeq(a.2, b.2)
  }

  lemma KeyOrder(a: Key, b: Key)
    ensures KeyLeq(a, b) || KeyLeq(b, a)
    ensures KeyLeq(a, b) && KeyLeq(b, a) ==> a == b
  {
    TextTotal(a.0, b.0);
    TextTotal(a.2, b.2);
    if KeyLeq(a, b) && KeyLeq(b, a) {
      if a.0 == b.0 {
        TextAntisymmetric(a.2, b.2);
      } else {
        TextAntisymmetric(a.0, b.0);
      }
    }
  }

  lemma KeyTransitive(a: Key, b: Key, c: Key)
    requires KeyLeq(a, b) && KeyLeq(b, c)
    ensures KeyLeq(a, c)
  {
    if a.0 == b.0 == c.0 {
      if a.1 == b.1 == c.1 {
        TextTransitive(a.2, b.2, c.2);
      }
    } else if a.0 != b.0 && b.0 != c.0 {
      TextTransitive(a.0, b.0, c.0);
      if a.0 == c.0 {
        TextAntisymmetric(a.0, b.0);
      }
    }
  }

  function Insert<T>(x: T, s: seq<T>, key: T -> Key): seq<T> {
    if s == [] || KeyLeq(key(x), key(s[0])) then [x] + s else [s[0]] + Insert(x, s[1..], key)
  }

  /** `sorted(s, key=key)`: stable, because an element goes in front of its equals. */
  function SortBy<T>(s: seq<T>, key: T -> Key): seq<T> {
    if s == [] then [] else Insert(s[0], SortBy(s[1..], key), key)
  }

  ghost predicate Sorted<T>(s: seq<T>, key: T -> Key) {
    forall i, j :: 0 <= i < j < |s| ==> KeyLeq(key(s[i]), key(s[j]))
  }

  ghost predicate InjectiveOn<T(!new)>(s: seq<T>, key: T -> Key) {
    forall x, y :: x in s && y in s && key(x) == key(y) ==> x == y
  }

  lemma {:induction false} InsertKeepsOrder<T>(x: T, s: seq<T>, key: T -> Key)
    requires Sorted(s, key)
    ensures Sorted(Insert(x, s, key), key)
    ensures multiset(Insert(x, s, key)) == multiset(s) + multiset{x}
  {
    if s == [] {
    } else if KeyLeq(key(x), key(s[0])) {
      forall i | 0 <= i < |s| ensures KeyLeq(key(x), key(s[i])) {
        if i > 0 {
          KeyTransitive(key(x), key(s[0]), key(s[i]));
        }
      }
    } else {
      KeyOrder(key(x), key(s[0]));
      InsertKeepsOrder(x, s[1..], key);
      var rest := Insert(x, s[1..], key);
      assert s == [s[0]] + s[1..];
      assert multiset(rest) == multiset(s[1..]) + multiset{x};
      forall i | 0 <= i < |rest| ensures KeyLeq(key(s[0]), key(rest[i])) {
        assert rest[i] in multiset(rest);
        assert rest[i] == x || rest[i] in s[1..];
      }
    }
  }

  lemma {:induction false} SortByIsSorted<T>(s: seq<T>, key: T -> Key)
    ensures Sorted(SortBy(s, key), key)
    ensures multiset(SortBy(s, key)) == multiset(s)
    ensures |SortBy(s, key)| == |s|
    ensures forall x :: x in SortBy(s, key) <==> x in s
  {
    if s != [] {
      SortByIsSorted(s[1..], key);
      InsertKeepsOrder(s[0], SortBy(s[1..], key), key);
      assert s == [s[0]] + s[1..];
    }
    var t := SortBy(s, key);
    assert multiset(t) == multiset(s);
    assert |multiset(t)| == |multiset(s)|;
    forall x ensures x in t <==> x in s {
      assert x in t <==> x in multiset(t);
      assert x in s <==> x in multiset(s);
    }
  }

  lemma SortedHeads<T(!new)>(a: seq<T>, b: seq<T>, key: T -> Key)
    requires Sorted(a, key) && Sorted(b, key) && multiset(a) == multiset(b) && InjectiveOn(a, key)
    requires a != [] && b != []
    ensures a[0] == b[0]
  {
    assert a[0] in multiset(b) && b[0] in multiset(a);
    var i :| 0 <= i < |b| && b[i] == a[0];
    var j :| 0 <= j < |a| && a[j] == b[0];
    KeyOrder(key(a[0]), key(b[0]));
    assert KeyLeq(key(a[0]), key(a[j])) by { if j == 0 { KeyOrder(key(a[0]), key(a[0])); } }
    assert KeyLeq(key(b[0]), key(b[i])) by { if i == 0 { KeyOrder(key(b[0]), key(b[0])); } }
    assert a[0] in a && a[j] in a;
  }

  lemma {:induction false} SortedIsUnique<T(!new)>(a: seq<T>, b: seq<T>, key: T -> Key)
    requires Sorted(a, key) && Sorted(b, key) && multiset(a) == multiset(b) && InjectiveOn(a, key)
    ensures a == b
  {
    assert |multiset(a)| == |a| && |multiset(b)| == |b|;
    if a != [] {
      SortedHeads(a, b, key);
      assert multiset(a[1..]) == multiset(b[1..]) by {
        assert a == [a[0]] + a[1..] && b == [b[0]] + b[1..];
        assert multiset(a[1..]) == multiset(a) - multiset{a[0]};
        assert multiset(b[1..]) == multiset(b) - multiset{b[0]};
      }
      SortedIsUnique(a[1..], b[1..], key);
      assert a == [a[0]] + a[1..] && b == [b[0]] + b[1..];
    }
  }

  /** Sorting forgets the order it was given: permutations of distinctly keyed values sort alike. */
  lemma SortIsCanonical<T(!new)>(a: seq<T>, b: seq<T>, key: T -> Key)
    requires multiset(a) == multiset(b) && InjectiveOn(a, key)
    ensures SortBy(a, key) == SortBy(b, key)
  {
    SortByIsSorted(a, key);
    SortByIsSorted(b, key);
    SortedIsUnique(SortBy(a, key), SortBy(b, key), key);
  }

  /** `max(s, key=key)`: the first of the greatest. */
  function Greatest<T>(s: seq<T>, key: T -> Key): (found: seq<T>)
    ensures |found| <= 1
  {
    if s == [] then []
    else
      var later := Greatest(s[1..], key);
      if later != [] && !KeyLeq(key(later[0]), key(s[0])) then later else [s[0]]
  }

  lemma {:induction false} GreatestIsMaximal<T>(s: seq<T>, key: T -> Key)
    ensures Greatest(s, key) == [] <==> s == []
    ensures s != [] ==> var m := Greatest(s, key)[0]; m in s && forall x :: x in s ==> KeyLeq(key(x), key(m))
  {
    if s != [] {
      var first, rest := s[0], s[1..];
      assert s == [first] + rest;
      GreatestIsMaximal(rest, key);
      KeyOrder(key(first), key(first));
      if rest != [] {
        var m := Greatest(rest, key)[0];
        KeyOrder(key(first), key(m));
        if KeyLeq(key(m), key(first)) {
          forall x | x in rest ensures KeyLeq(key(x), key(first)) {
            KeyTransitive(key(x), key(m), key(first));
          }
        }
      }
    }
  }
}

/** Python's `str.strip()` as a test: some character is not blank. */
module Texts {
  type Blank = char -> bool

  predicate NonBlank(blank: Blank, text: string) { exists c :: c in text && !blank(c) }
}

/** Python's comprehensions with a condition, and `next` of one with a default. */
module Sequences {
  import opened Outcomes

  function Filter<T>(s: seq<T>, keep: T -> bool): seq<T> {
    if s == [] then [] else (if keep(s[0]) then [s[0]] else []) + Filter(s[1..], keep)
  }

  function First<T>(s: seq<T>, keep: T -> bool): Option<T> {
    if s == [] then None else if keep(s[0]) then Some(s[0]) else First(s[1..], keep)
  }

  function Map<T, U>(f: T -> U, s: seq<T>): (r: seq<U>)
    ensures |r| == |s|
  {
    seq(|s|, i requires 0 <= i < |s| => f(s[i]))
  }

  lemma {:induction false} InFilter<T>(s: seq<T>, keep: T -> bool)
    ensures |Filter(s, keep)| <= |s|
    ensures forall x :: x in Filter(s, keep) <==> x in s && keep(x)
  {
    if s != [] {
      var rest := s[1..];
      InFilter(rest, keep);
      assert s == [s[0]] + rest;
      assert Filter(s, keep) == (if keep(s[0]) then [s[0]] else []) + Filter(rest, keep);
    }
  }

  lemma {:induction false} FilterCongruent<T>(s: seq<T>, p: T -> bool, q: T -> bool)
    requires forall x :: x in s ==> p(x) == q(x)
    ensures Filter(s, p) == Filter(s, q)
  {
    if s != [] {
      assert s[0] in s;
      FilterCongruent(s[1..], p, q);
    }
  }

  lemma {:induction false} FilterAll<T>(s: seq<T>, keep: T -> bool)
    ensures (forall x :: x in s ==> keep(x)) ==> Filter(s, keep) == s
    ensures (forall x :: x in s ==> !keep(x)) ==> Filter(s, keep) == []
  {
    if s != [] {
      assert s == [s[0]] + s[1..];
      FilterAll(s[1..], keep);
    }
  }

  lemma {:induction false} FilterAppend<T>(a: seq<T>, b: seq<T>, keep: T -> bool)
    ensures Filter(a + b, keep) == Filter(a, keep) + Filter(b, keep)
  {
    if a == [] {
      assert a + b == b;
    } else {
      assert (a + b)[0] == a[0] && (a + b)[1..] == a[1..] + b;
      FilterAppend(a[1..], b, keep);
      var head := if keep(a[0]) then [a[0]] else [];
      assert Filter(a + b, keep) == head + Filter(a[1..] + b, keep);
      assert Filter(a, keep) == head + Filter(a[1..], keep);
    }
  }

  lemma Without<T>(s: seq<T>, i: nat)
    requires i < |s|
    ensures multiset(s[..i] + s[i + 1..]) == multiset(s) - multiset{s[i]}
  {
    assert s == s[..i] + [s[i]] + s[i + 1..];
  }

  lemma FilterWithout<T>(s: seq<T>, i: nat, keep: T -> bool)
    requires i < |s|
    ensures multiset(Filter(s, keep))
            == multiset(Filter(s[..i] + s[i + 1..], keep)) + (if keep(s[i]) then multiset{s[i]} else multiset{})
  {
    var rest := s[i..];
    assert s == s[..i] + rest && rest[0] == s[i] && rest[1..] == s[i + 1..];
    FilterAppend(s[..i], rest, keep);
    FilterAppend(s[..i], s[i + 1..], keep);
  }

  lemma Position<T>(x: T, s: seq<T>) returns (i: nat)
    requires x in multiset(s)
    ensures i < |s| && s[i] == x
  {
    i :| 0 <= i < |s| && s[i] == x;
  }

  lemma {:induction false} FilterPermutes<T>(a: seq<T>, b: seq<T>, keep: T -> bool)
    requires multiset(a) == multiset(b)
    ensures multiset(Filter(a, keep)) == multiset(Filter(b, keep))
  {
    hide Filter;
    assert |multiset(a)| == |a| && |multiset(b)| == |b|;
    if a == [] {
      assert a == b;
    } else {
      var i := Position(a[0], b);
      Without(a, 0);
      Without(b, i);
      FilterWithout(a, 0, keep);
      FilterWithout(b, i, keep);
      FilterPermutes(a[..0] + a[0 + 1..], b[..i] + b[i + 1..], keep);
    }
  }

  lemma {:induction false} FirstFinds<T>(s: seq<T>, keep: T -> bool)
    ensures match First(s, keep)
            case None => forall x :: x in s ==> !keep(x)
            case Some(x) => x in s && keep(x)
  {
    if s != [] && !keep(s[0]) {
      FirstFinds(s[1..], keep);
      assert s == [s[0]] + s[1..];
    }
  }

  lemma SameMembers<T>(a: seq<T>, b: seq<T>)
    requires multiset(a) == multiset(b)
    ensures |a| == |b| && forall x :: x in a <==> x in b
  {
    assert |multiset(a)| == |a| && |multiset(b)| == |b|;
    forall x ensures x in a <==> x in b {
      assert x in a <==> x in multiset(a);
      assert x in b <==> x in multiset(b);
    }
  }

  predicate NoRepeats<T(==)>(s: seq<T>) { forall i, j :: 0 <= i < j < |s| ==> s[i] != s[j] }

  lemma {:induction false} CountsOnce<T>(s: seq<T>, x: T)
    requires NoRepeats(s)
    ensures multiset(s)[x] == if x in s then 1 else 0
  {
    if s != [] {
      var first, rest := s[0], s[1..];
      assert s == [first] + rest;
      assert NoRepeats(rest) && first !in rest;
      CountsOnce(rest, x);
    }
  }

  /** Two sequences without repeats and with the same members are permutations of each other. */
  lemma SameMembersPermute<T>(a: seq<T>, b: seq<T>)
    requires NoRepeats(a) && NoRepeats(b)
    requires forall x :: x in a <==> x in b
    ensures multiset(a) == multiset(b)
  {
    forall x ensures multiset(a)[x] == multiset(b)[x] {
      CountsOnce(a, x);
      CountsOnce(b, x);
    }
  }

  lemma RepeatCounts<T>(s: seq<T>, i: nat, j: nat)
    requires i < j < |s| && s[i] == s[j]
    ensures multiset(s)[s[i]] >= 2
  {
    assert s == s[..j] + s[j..];
    assert multiset(s) == multiset(s[..j]) + multiset(s[j..]);
    assert s[i] == s[..j][i] && s[j] == s[j..][0];
    assert s[i] in multiset(s[..j]) && s[i] in multiset(s[j..]);
  }

  /** A permutation of a sequence without repeats has none either. */
  lemma PermutationRepeatsNot<T>(a: seq<T>, b: seq<T>)
    requires NoRepeats(a) && multiset(a) == multiset(b)
    ensures NoRepeats(b)
  {
    forall i, j | 0 <= i < j < |b| ensures b[i] != b[j] {
      CountsOnce(a, b[i]);
      if b[i] == b[j] {
        RepeatCounts(b, i, j);
      }
    }
  }

  lemma {:induction false} FilterRepeatsNot<T>(s: seq<T>, keep: T -> bool)
    requires NoRepeats(s)
    ensures NoRepeats(Filter(s, keep))
  {
    if s != [] {
      var rest := s[1..];
      assert s == [s[0]] + rest;
      assert NoRepeats(rest) && s[0] !in rest;
      FilterRepeatsNot(rest, keep);
      InFilter(rest, keep);
    }
  }
}

/** Sums of a weight over the values of a map. */
module Totals {
  ghost function Pick<K>(s: set<K>): K
    requires s != {}
  {
    var k :| k in s; k
  }

  ghost function Total<K, V>(m: map<K, V>, weight: V -> nat): nat
    decreases |m|
  {
    if m.Keys == {} then 0
    else
      var k := Pick(m.Keys);
      weight(m[k]) + Total(m - {k}, weight)
  }

  lemma {:induction false} TotalWithout<K, V>(m: map<K, V>, weight: V -> nat, k: K)
    requires k in m
    ensures Total(m, weight) == weight(m[k]) + Total(m - {k}, weight)
    decreases |m|
  {
    var p := Pick(m.Keys);
    if p != k {
      var rest := m - {p};
      TotalWithout(rest, weight, k);
      TotalWithout(m - {k}, weight, p);
      assert rest - {k} == m - {k} - {p};
      assert Total(m, weight) == weight(m[p]) + Total(rest, weight);
    }
  }

  lemma TotalUpdate<K, V>(m: map<K, V>, weight: V -> nat, k: K, v: V)
    ensures Total(m[k := v], weight) ==
            Total(m, weight) + weight(v) - (if k in m then weight(m[k]) else 0)
  {
    TotalWithout(m[k := v], weight, k);
    if k in m {
      TotalWithout(m, weight, k);
      assert m[k := v] - {k} == m - {k};
    } else {
      assert m[k := v] - {k} == m;
    }
  }

  lemma {:induction false} TotalCongruent<K, V>(m: map<K, V>, n: map<K, V>, weight: V -> nat)
    requires m.Keys == n.Keys && forall k :: k in m ==> weight(m[k]) == weight(n[k])
    ensures Total(m, weight) == Total(n, weight)
    decreases |m|
  {
    if m.Keys != {} {
      var k := Pick(m.Keys);
      TotalCongruent(m - {k}, n - {k}, weight);
    }
  }

  lemma {:induction false} TotalBounded<K, V>(m: map<K, V>, weight: V -> nat, within: set<K>)
    requires within <= m.Keys
    requires forall k :: k in m ==> weight(m[k]) <= (if k in within then 1 else 0)
    ensures Total(m, weight) <= |within|
    decreases |m|
  {
    if m.Keys != {} {
      var k := Pick(m.Keys);
      TotalBounded(m - {k}, weight, within - {k});
    }
  }
}
