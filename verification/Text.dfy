/** Strings as the program uses them: byte order, decimal rendering, splitting on a character. */
module Text {
  datatype Option<+T> = None | Some(value: T)

  // ---------------------------------------------------------------- order

  /** The order of sort.Strings: character by character, a prefix first. */
  predicate Leq(a: string, b: string) {
    a == [] || (b != [] && (a[0] < b[0] || (a[0] == b[0] && Leq(a[1..], b[1..]))))
  }

  lemma {:induction false} LeqTotal(a: string, b: string)
    ensures Leq(a, b) || Leq(b, a)
  {
    if a != [] && b != [] && a[0] == b[0] { LeqTotal(a[1..], b[1..]); }
  }

  lemma {:induction false} LeqRefl(a: string)
    ensures Leq(a, a)
  {
    if a != [] { LeqRefl(a[1..]); }
  }

  lemma {:induction false} LeqAntisymmetric(a: string, b: string)
    requires Leq(a, b) && Leq(b, a)
    ensures a == b
  {
    if a != [] {
      LeqAntisymmetric(a[1..], b[1..]);
      assert a == [a[0]] + a[1..] && b == [b[0]] + b[1..];
    }
  }

  lemma {:induction false} LeqTransitive(a: string, b: string, c: string)
    requires Leq(a, b) && Leq(b, c)
    ensures Leq(a, c)
  {
    if a != [] && a[0] == b[0] && b[0] == c[0] { LeqTransitive(a[1..], b[1..], c[1..]); }
  }

  /** The first n characters agree, and then a ends or has the smaller one. */
  predicate DecidedAt(a: string, b: string, n: nat) {
    n <= |a| && n <= |b| && a[..n] == b[..n] && (n == |a| || (n < |b| && a[n] < b[n]))
  }

  lemma {:induction false} LeqWhenDecided(a: string, b: string, n: nat)
    requires DecidedAt(a, b, n)
    ensures Leq(a, b)
  {
    if n > 0 {
      assert a[..n][0] == b[..n][0] && a[1..][..n - 1] == a[..n][1..] && b[1..][..n - 1] == b[..n][1..];
      LeqWhenDecided(a[1..], b[1..], n - 1);
    }
  }

  lemma {:induction false} LeqDecided(a: string, b: string) returns (n: nat)
    requires Leq(a, b)
    ensures DecidedAt(a, b, n)
  {
    n := 0;
    if a != [] && a[0] == b[0] {
      var m := LeqDecided(a[1..], b[1..]);
      n := m + 1;
      assert a[..n] == [a[0]] + a[1..][..m] && b[..n] == [b[0]] + b[1..][..m];
    }
  }

  /** The order as it is meant: at the first place where they differ the smaller character decides, and a prefix comes
      first. */
  lemma LeqIsLexicographic(a: string, b: string)
    ensures Leq(a, b) <==> exists n :: DecidedAt(a, b, n)
  {
    if Leq(a, b) { var n := LeqDecided(a, b); }
    if n :| DecidedAt(a, b, n) { LeqWhenDecided(a, b, n); }
  }

  ghost predicate Ascending(ks: seq<string>) {
    forall i, j :: 0 <= i < j < |ks| ==> Leq(ks[i], ks[j])
  }

  ghost predicate Distinct<T>(xs: seq<T>) {
    forall i, j :: 0 <= i < j < |xs| ==> xs[i] != xs[j]
  }

  ghost function Elements<T>(xs: seq<T>): set<T> { set x | x in xs }

  ghost predicate IsLeast(k: string, s: set<string>) {
    k in s && forall other | other in s :: Leq(k, other)
  }

  lemma {:induction false} LeastExists(s: set<string>)
    requires s != {}
    ensures exists k :: IsLeast(k, s)
  {
    var x :| x in s;
    LeqRefl(x);
    if s == {x} {
      assert IsLeast(x, s);
    } else {
      LeastExists(s - {x});
      var rest :| IsLeast(rest, s - {x});
      LeqTotal(x, rest);
      var least := if Leq(x, rest) then x else rest;
      forall k | k in s ensures Leq(least, k) {
        if k != x && least == x { LeqTransitive(x, rest, k); }
      }
      assert IsLeast(least, s);
    }
  }

  /** The keys of a set in ascending order, each once. */
  ghost function SortedKeys(s: set<string>): seq<string> {
    if s == {} then [] else
      LeastExists(s);
      var least :| IsLeast(least, s);
      [least] + SortedKeys(s - {least})
  }

  lemma {:induction false} SortedKeysEnumerate(s: set<string>)
    ensures Elements(SortedKeys(s)) == s && Distinct(SortedKeys(s)) && Ascending(SortedKeys(s))
  {
    var ks := SortedKeys(s);
    if s != {} {
      SortedKeysEnumerate(s - {ks[0]});
      assert forall k :: k in ks[1..] <==> k in Elements(ks[1..]);
      assert IsLeast(ks[0], s);
      assert ks == [ks[0]] + ks[1..];
    }
  }

  /** A set has one enumeration without repeats in ascending order. */
  lemma {:induction false} SortedKeysUnique(ks: seq<string>, ls: seq<string>)
    requires Distinct(ks) && Ascending(ks) && Distinct(ls) && Ascending(ls)
    requires Elements(ks) == Elements(ls)
    ensures ks == ls
  {
    assert forall k :: (k in ks <==> k in Elements(ks)) && (k in ls <==> k in Elements(ls));
    assert ls != [] ==> ls[0] in ls;
    if ks != [] {
      assert ks[0] in ls && ls != [] && ls[0] in ks;
      var i :| 0 <= i < |ls| && ls[i] == ks[0];
      var j :| 0 <= j < |ks| && ks[j] == ls[0];
      if i > 0 && j > 0 { LeqAntisymmetric(ks[0], ls[0]); }
      assert ks[0] == ls[0];
      assert Elements(ks[1..]) == Elements(ks) - {ks[0]};
      assert Elements(ls[1..]) == Elements(ls) - {ls[0]};
      SortedKeysUnique(ks[1..], ls[1..]);
      assert ks == [ks[0]] + ks[1..] && ls == [ls[0]] + ls[1..];
    }
  }

  function Insert(k: string, sorted: seq<string>): (r: seq<string>)
    ensures multiset(r) == multiset(sorted) + multiset{k}
  {
    if sorted == [] || Leq(k, sorted[0]) then [k] + sorted
    else
      assert sorted == [sorted[0]] + sorted[1..];
      [sorted[0]] + Insert(k, sorted[1..])
  }

  lemma {:induction false} InsertKeepsOrder(k: string, sorted: seq<string>)
    requires Ascending(sorted)
    ensures Ascending(Insert(k, sorted))
  {
    var r := Insert(k, sorted);
    if sorted == [] {
    } else if Leq(k, sorted[0]) {
      forall i | 0 <= i < |sorted| ensures Leq(k, sorted[i]) {
        if i > 0 { LeqTransitive(k, sorted[0], sorted[i]); }
      }
    } else {
      LeqTotal(k, sorted[0]);
      var tail := Insert(k, sorted[1..]);
      InsertKeepsOrder(k, sorted[1..]);
      forall x | x in tail ensures Leq(sorted[0], x) {
        assert x in multiset(tail);
        assert x == k || x in sorted[1..];
      }
    }
  }

  /** sort.Strings. */
  function Sorted(ks: seq<string>): (r: seq<string>)
    ensures Ascending(r) && multiset(r) == multiset(ks)
  {
    if ks == [] then [] else
      assert ks == [ks[0]] + ks[1..];
      InsertKeepsOrder(ks[0], Sorted(ks[1..]));
      Insert(ks[0], Sorted(ks[1..]))
  }

  /** Sorting keys collected in any order gives the same list. */
  lemma SortedIsCanonical(ks: seq<string>)
    requires Distinct(ks)
    ensures Sorted(ks) == SortedKeys(Elements(ks))
  {
    var r := Sorted(ks);
    assert forall k :: k in r <==> k in multiset(r);
    assert forall k :: k in ks <==> k in multiset(ks);
    DistinctByCount(ks);
    DistinctByCount(r);
    SortedKeysEnumerate(Elements(ks));
    SortedKeysUnique(r, SortedKeys(Elements(ks)));
  }

  lemma {:induction false} DistinctByCount<T>(xs: seq<T>)
    ensures Distinct(xs) <==> forall x :: multiset(xs)[x] <= 1
  {
    if xs != [] {
      var init, last := xs[..|xs| - 1], xs[|xs| - 1];
      assert xs == init + [last];
      DistinctByCount(init);
      if Distinct(xs) {
        assert last !in multiset(init);
      } else if Distinct(init) {
        assert last in init;
        assert multiset(xs)[last] == 2;
      } else {
        var x :| multiset(init)[x] > 1;
        assert multiset(xs)[x] > 1;
      }
    }
  }

  // ---------------------------------------------------------------- decimal

  function Digit(d: nat): char
    requires d < 10
  { '0' + d as char }

  /** strconv's decimal rendering of a non-negative number. */
  function Decimal(n: nat): (s: string)
    ensures s != [] && forall c | c in s :: '0' <= c <= '9'
    ensures s[0] == '0' ==> n == 0
  {
    if n < 10 then [Digit(n)] else Decimal(n / 10) + [Digit(n % 10)]
  }

  /** No two numbers are rendered alike. */
  lemma {:induction false} DecimalInjective(m: nat, n: nat)
    requires Decimal(m) == Decimal(n)
    ensures m == n
  {
    if m >= 10 || n >= 10 {
      assert |Decimal(m)| >= 2;
      var s := Decimal(m);
      assert s[|s| - 1] == Digit(m % 10) && s[|s| - 1] == Digit(n % 10);
      assert s[..|s| - 1] == Decimal(m / 10) && s[..|s| - 1] == Decimal(n / 10);
      DecimalInjective(m / 10, n / 10);
    }
  }

  /** What a sequence of digits says. */
  function ReadDecimal(s: string): nat
    requires forall i :: 0 <= i < |s| ==> '0' <= s[i] <= '9'
  {
    if s == [] then 0
    else 10 * ReadDecimal(s[..|s| - 1]) + (s[|s| - 1] as nat - '0' as nat)
  }

  /** A rendering says its number. */
  lemma {:induction false} DecimalSays(n: nat)
    ensures forall i :: 0 <= i < |Decimal(n)| ==> '0' <= Decimal(n)[i] <= '9'
    ensures ReadDecimal(Decimal(n)) == n
  {
    var s := Decimal(n);
    assert forall i :: 0 <= i < |s| ==> s[i] in s;
    if n >= 10 {
      DecimalSays(n / 10);
      assert s[..|s| - 1] == Decimal(n / 10);
    }
  }

  // ---------------------------------------------------------------- finding a character

  function IndexOf(s: string, c: char): (r: Option<nat>)
    ensures r.Some? ==> r.value < |s| && s[r.value] == c && forall i :: 0 <= i < r.value ==> s[i] != c
    ensures r.None? ==> c !in s
  {
    if s == "" then None
    else if s[0] == c then Some(0)
    else
      var rest := IndexOf(s[1..], c);
      assert s == [s[0]] + s[1..];
      if rest.None? then None else Some(rest.value + 1)
  }

  lemma IndexIsFirst(s: string, c: char, i: nat)
    requires i < |s| && s[i] == c && c !in s[..i]
    ensures IndexOf(s, c) == Some(i)
  {
    assert forall j :: 0 <= j < i ==> s[..i][j] == s[j];
  }

  // ---------------------------------------------------------------- collecting keys

  lemma DistinctSnoc<T>(xs: seq<T>, x: T)
    requires Distinct(xs) && x !in Elements(xs)
    ensures Distinct(xs + [x]) && Elements(xs + [x]) == Elements(xs) + {x}
  {
    assert forall y :: y in xs + [x] <==> y in xs || y == x;
  }

  /** Appends the keys of s not seen before, in whatever order map iteration gives. */
  method AppendKeys(keys: seq<string>, s: set<string>, seen: set<string>) returns (all: seq<string>)
    requires Distinct(keys) && Elements(keys) == seen
    ensures Distinct(all) && Elements(all) == seen + s
  {
    hide Distinct, Elements;
    all := keys;
    var rest := s;
    while rest != {}
      invariant rest <= s && Distinct(all) && Elements(all) == seen + (s - rest)
    {
      var k :| k in rest;
      if k !in seen {
        DistinctSnoc(all, k);
        all := all + [k];
      }
      rest := rest - {k};
    }
  }

  function Listed<T>(x: Option<T>): seq<T> { if x.None? then [] else [x.value] }

  // ---------------------------------------------------------------- sizes

  lemma {:induction false} DistinctCardinality<T>(xs: seq<T>)
    requires Distinct(xs)
    ensures |Elements(xs)| == |xs|
  {
    if xs != [] {
      var init, last := xs[..|xs| - 1], xs[|xs| - 1];
      DistinctCardinality(init);
      assert Elements(xs) == Elements(init) + {last};
    }
  }

  lemma SubsetCardinality<T>(a: set<T>, b: set<T>)
    requires a <= b
    ensures |a| <= |b|
    ensures |a| == |b| ==> a == b
  {
    assert b == a + (b - a) && |b| == |a| + |b - a|;
  }

  lemma SizeAfterPut<K, V>(m: map<K, V>, k: K, v: V)
    ensures |m[k := v]| <= |m| + 1
  {
    assert m[k := v].Keys == m.Keys + {k};
    if k in m { assert m.Keys + {k} == m.Keys; }
  }

  lemma SizeAfterRemove<K, V>(m: map<K, V>, k: K)
    ensures |m - {k}| == |m| - if k in m then 1 else 0
  {
    assert (m - {k}).Keys == m.Keys - {k};
    if k !in m { assert m - {k} == m; }
  }
}
