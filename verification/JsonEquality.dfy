/** An independent reading of "identical", and what exchanging the two sides does. */
module JsonEquality {
  import opened Text
  import opened JsonDiff
  import opened JsonDiffLaws

  // ---------------------------------------------------------------- equal up to reordering

  ghost predicate Reordering(p: seq<nat>, n: nat) {
    && |p| == n
    && (forall i :: 0 <= i < n ==> p[i] < n)
    && Distinct(p)
  }

  /** Equal, except that arrays whose elements carry unique ids on both sides may be reordered. */
  ghost predicate Equal(l: Json, r: Json)
    decreases l, 1
  {
    match l
    case Obj(fields) =>
      r.Obj? && fields.Keys == r.fields.Keys && forall k | k in fields :: Equal(fields[k], r.fields[k])
    case Arr(items) =>
      && r.Arr? && |items| == |r.items|
      && if HasIds(items) && HasIds(r.items)
         then exists p | Reordering(p, |items|) :: EqualUnder(l, r, p)
         else forall i | 0 <= i < |items| :: Equal(items[i], r.items[i])
    case _ => l == r
  }

  ghost predicate EqualUnder(l: Json, r: Json, p: seq<nat>)
    requires l.Arr? && r.Arr? && |l.items| == |r.items| && Reordering(p, |l.items|)
    decreases l, 0
  {
    forall i | 0 <= i < |l.items| :: Equal(l.items[i], r.items[p[i]])
  }

  ghost function Below(n: nat): (s: set<nat>)
    ensures |s| == n && forall i: nat :: i in s <==> i < n
  {
    if n == 0 then {} else Below(n - 1) + {n - 1}
  }

  /** An injection below n has at most n places, and covers everything when it has n. */
  lemma Pigeonhole(p: seq<nat>, n: nat)
    requires Distinct(p) && forall i :: 0 <= i < |p| ==> p[i] < n
    ensures |p| <= n
    ensures |p| == n ==> forall j: nat :: j < n ==> j in p
  {
    DistinctCardinality(p);
    SubsetCardinality(Elements(p), Below(n));
    if |p| == n {
      forall j: nat | j < n ensures j in p { assert j in Elements(p); }
    }
  }

  ghost function Position(items: seq<Json>, id: string): nat
    requires FindId(items, id).Some?
    ensures Position(items, id) < |items| && items[Position(items, id)] == FindId(items, id).value
    ensures IdOf(items[Position(items, id)]) == id
  {
    if IdOf(items[0]) == id then 0 else 1 + Position(items[1..], id)
  }

  ghost function Positions(l: seq<Json>, r: seq<Json>): (p: seq<nat>)
    requires Covered(l, r)
    ensures |p| == |l| && forall i :: 0 <= i < |l| ==> p[i] == Position(r, IdOf(l[i]))
  {
    seq(|l|, i requires 0 <= i < |l| => Position(r, IdOf(l[i])))
  }

  lemma PositionsInject(l: seq<Json>, r: seq<Json>)
    requires HasIds(l) && Covered(l, r)
    ensures Distinct(Positions(l, r)) && |l| <= |r|
  {
    hide Same;
    Pigeonhole(Positions(l, r), |r|);
  }

  /** "No changes" means: equal up to reordering of arrays with unique ids on both sides. */
  lemma {:induction false} IdenticalIffEqual(l: Json, r: Json)
    ensures Same(l, r) <==> Equal(l, r)
    decreases l, 1
  {
    if !SameContainer(l, r) {
    } else if l.Obj? {
      SameObjects(l, r);
      forall k | k in l.fields && k in r.fields
        ensures Same(l.fields[k], r.fields[k]) <==> Equal(l.fields[k], r.fields[k])
      {
        IdenticalIffEqual(l.fields[k], r.fields[k]);
      }
    } else if HasIds(l.items) && HasIds(r.items) {
      if Same(l, r) { IdenticalIsEqual(l, r); }
      if Equal(l, r) { EqualIsIdentical(l, r); }
    } else {
      SameByIndex(l, r);
      forall i | 0 <= i < |l.items| && i < |r.items|
        ensures Same(l.items[i], r.items[i]) <==> Equal(l.items[i], r.items[i])
      {
        IdenticalIffEqual(l.items[i], r.items[i]);
      }
    }
  }

  lemma {:induction false} IdenticalIsEqual(l: Json, r: Json)
    requires l.Arr? && r.Arr? && HasIds(l.items) && HasIds(r.items) && Same(l, r)
    ensures Equal(l, r)
    decreases l, 0
  {
    SameById(l, r);
    SameSymmetric(l, r);
    SameById(r, l);
    hide Same, FindId, IdOf, HasIds, Equal, Covered, Covers;
    var p := Positions(l.items, r.items);
    Matches(l.items, r.items);
    forall i | 0 <= i < |l.items| ensures Equal(l.items[i], r.items[p[i]]) {
      IdenticalIffEqual(l.items[i], r.items[p[i]]);
    }
    EqualBy(l, r, p);
  }

  lemma EqualBy(l: Json, r: Json, p: seq<nat>)
    requires l.Arr? && r.Arr? && |l.items| == |r.items| && HasIds(l.items) && HasIds(r.items)
    requires Reordering(p, |l.items|) && EqualUnder(l, r, p)
    ensures Equal(l, r)
  {
    hide HasIds, Reordering, EqualUnder;
  }

  /** The place of each element's id on the other side: a reordering that pairs elements without changes. */
  lemma Matches(a: seq<Json>, b: seq<Json>)
    requires HasIds(a) && HasIds(b) && Covered(a, b) && Covered(b, a)
    ensures var p := Positions(a, b);
            |a| == |b| && Reordering(p, |a|) && forall i | 0 <= i < |a| :: Same(a[i], b[p[i]])
  {
    hide Same, IdOf, HasIds;
    PositionsInject(a, b);
    PositionsInject(b, a);
  }

  lemma {:induction false} EqualIsIdentical(l: Json, r: Json)
    requires l.Arr? && r.Arr? && HasIds(l.items) && HasIds(r.items) && Equal(l, r)
    ensures Same(l, r)
    decreases l, 0
  {
    hide Same, FindId;
    var a, b := l.items, r.items;
    var p :| Reordering(p, |a|) && EqualUnder(l, r, p);
    forall i | 0 <= i < |a| ensures FindId(b, IdOf(a[i])) == Some(b[p[i]]) && Same(a[i], b[p[i]]) {
      IdenticalIffEqual(a[i], b[p[i]]);
      SameId(a[i], b[p[i]]);
      FindIdUnique(b, p[i]);
    }
    assert Covered(a, b);
    Pigeonhole(p, |b|);
    forall j | 0 <= j < |b| ensures FindId(a, IdOf(b[j])).Some? {
      assert |p| == |b| && j in p;
      var i :| 0 <= i < |p| && p[i] == j;
      SameId(a[i], b[j]);
      FindIdUnique(a, i);
    }
    SameById(l, r);
  }

  // ---------------------------------------------------------------- exchanging the sides

  function Swapped(c: Change): Change {
    Change(c.path, match c.op case Added => Removed case Removed => Added case Changed => Changed, c.after, c.before)
  }

  function SwappedAll(cs: seq<Change>): seq<Change> {
    seq(|cs|, i requires 0 <= i < |cs| => Swapped(cs[i]))
  }

  lemma {:induction false} SwapMember(l: Json, r: Json, c: Change)
    requires c in Diff(l, r)
    ensures Swapped(c) in Diff(r, l)
    decreases l
  {
    if SameContainer(l, r) {
      DiffMembers(l, r, c);
      var s :| s in Slots(l, r) && From(c, l, r, s);
      SlotsFlip(l, r, s);
      DiffMembers(r, l, Swapped(c));
      var tail := c.(path := c.path[1..]);
      if s.left.Some? && s.right.Some? { SwapMember(s.left.value, s.right.value, tail); }
      hide Slots, Diff;
      FromFlips(l, r, s, c);
    }
  }

  lemma FromFlips(l: Json, r: Json, s: Slot, c: Change)
    requires Inside(s, l, r) && From(c, l, r, s)
    requires s.left.Some? && s.right.Some? ==>
               Swapped(c.(path := c.path[1..])) in Diff(s.right.value, s.left.value)
    ensures Inside(Flip(s), r, l) && From(Swapped(c), r, l, Flip(s))
  {
    hide Diff;
    assert Swapped(c).(path := c.path[1..]) == Swapped(c.(path := c.path[1..]));
  }

  lemma PrefixFreeDistinct(cs: seq<Change>)
    requires PrefixFree(cs)
    ensures Distinct(cs)
  {
  }

  lemma SameMultiset<T>(a: seq<T>, b: seq<T>)
    requires Distinct(a) && Distinct(b) && forall x :: x in a <==> x in b
    ensures multiset(a) == multiset(b)
  {
    DistinctByCount(a);
    DistinctByCount(b);
    forall x ensures multiset(a)[x] == multiset(b)[x] {
      assert (x in a <==> x in multiset(a)) && (x in b <==> x in multiset(b));
    }
  }

  /** Exchanging the inputs reports the same changes with the sides exchanged. */
  lemma DiffSwaps(l: Json, r: Json)
    ensures multiset(Diff(r, l)) == multiset(SwappedAll(Diff(l, r)))
  {
    DiffPrefixFree(l, r);
    DiffPrefixFree(r, l);
    hide Diff;
    var ds, es := Diff(l, r), SwappedAll(Diff(l, r));
    forall c ensures c in Diff(r, l) <==> c in es {
      if c in Diff(r, l) {
        SwapMember(r, l, c);
        var i :| 0 <= i < |ds| && ds[i] == Swapped(c);
        assert es[i] == c;
      }
      if c in es {
        var i :| 0 <= i < |es| && es[i] == c;
        SwapMember(l, r, ds[i]);
      }
    }
    PrefixFreeDistinct(Diff(r, l));
    assert PrefixFree(es);
    PrefixFreeDistinct(es);
    SameMultiset(Diff(r, l), es);
  }

  // ---------------------------------------------------------------- what ids and their absence mean

  /** Every element is an object with its own non-empty scalar under "id". */
  predicate CarryIds(items: seq<Json>, ids: seq<string>) {
    && |ids| == |items|
    && (forall i | 0 <= i < |items| :: items[i].Obj? && NamedBy(items[i].fields, "id", ids[i]) && ids[i] != "")
    && (forall i, j :: 0 <= i < j < |ids| ==> ids[i] != ids[j])
  }

  lemma CarriedIds(items: seq<Json>, ids: seq<string>)
    requires items != [] && CarryIds(items, ids)
    ensures HasIds(items) && forall i | 0 <= i < |items| :: IdOf(items[i]) == ids[i]
  {
    forall i | 0 <= i < |items| ensures IdOf(items[i]) == ids[i] { IdIs(items[i].fields, ids[i]); }
  }

  /** Arrays of objects with scalar ids, strings, numbers or booleans, that are reorderings of each other are
      identical. */
  lemma ReorderedIsIdentical(l: seq<Json>, r: seq<Json>, ids: seq<string>, p: seq<nat>)
    requires l != [] && |r| == |l| && CarryIds(l, ids)
    requires Reordering(p, |l|) && forall i | 0 <= i < |l| :: r[p[i]] == l[i]
    ensures Same(Arr(l), Arr(r)) && Equal(Arr(l), Arr(r))
  {
    CarriedIds(l, ids);
    Pigeonhole(p, |l|);
    ReorderedHasIds(l, r, p);
    hide HasIds, IdOf, Same, Equal;
    forall i | 0 <= i < |l| ensures Equal(l[i], r[p[i]]) {
      SameReflexive(l[i]);
      IdenticalIffEqual(l[i], l[i]);
    }
    EqualBy(Arr(l), Arr(r), p);
    IdenticalIffEqual(Arr(l), Arr(r));
  }

  lemma ReorderedHasIds(l: seq<Json>, r: seq<Json>, p: seq<nat>)
    requires HasIds(l) && |r| == |l| && Reordering(p, |l|) && forall i | 0 <= i < |l| :: r[p[i]] == l[i]
    requires forall j: nat :: j < |l| ==> j in p
    ensures HasIds(r)
  {
    hide IdOf;
    forall j | 0 <= j < |r| ensures IdOf(r[j]) != "" {
      assert j in p;
      var i :| 0 <= i < |p| && p[i] == j;
      assert r[p[i]] == l[i];
    }
    forall j, k | 0 <= j < k < |r| ensures IdOf(r[j]) != IdOf(r[k]) {
      assert j in p && k in p;
      var a :| 0 <= a < |p| && p[a] == j;
      var b :| 0 <= b < |p| && p[b] == k;
      assert r[p[a]] == l[a] && r[p[b]] == l[b];
    }
  }

  /** The element carries no id: it is no object, none of the four keys holds a scalar, or "id" holds "". */
  predicate CarriesNone(v: Json) {
    v.Obj? ==>
      || (forall k | k in {"id", "uuid", "key", "name"} :: Nameless(v.fields, k))
      || NamedBy(v.fields, "id", "")
  }

  /** An element without an id, or two with one, on either side: the arrays are identical only place by place. */
  lemma OrderedWithoutIds(l: seq<Json>, r: seq<Json>, i: nat, j: nat, text: string)
    requires i < |l| && j < |l|
    requires CarriesNone(l[i]) || (i != j && l[i].Obj? && l[j].Obj?
                                   && NamedBy(l[i].fields, "id", text) && NamedBy(l[j].fields, "id", text))
    ensures Same(Arr(l), Arr(r)) <==> |l| == |r| && forall k | 0 <= k < |l| :: Same(l[k], r[k])
    ensures Same(Arr(r), Arr(l)) <==> |l| == |r| && forall k | 0 <= k < |l| :: Same(l[k], r[k])
  {
    assert !HasIds(l) by {
      if CarriesNone(l[i]) {
        if l[i].Obj? { IdIs(l[i].fields, ""); } else { OnlyObjectsHaveIds(l[i]); }
      } else {
        IdIs(l[i].fields, text);
        IdIs(l[j].fields, text);
      }
    }
    hide IdOf, HasIds;
    SameByIndex(Arr(l), Arr(r));
    if Same(Arr(l), Arr(r)) { SameSymmetric(Arr(l), Arr(r)); }
    if Same(Arr(r), Arr(l)) { SameSymmetric(Arr(r), Arr(l)); }
  }

  /** Numeric ids match whatever the order. */
  lemma NumericIdsExample()
    ensures var a, b := Obj(map["id" := Num("1")]), Obj(map["id" := Num("2")]);
            Same(Arr([a, b]), Arr([b, a])) && !Same(Arr([Num("1"), Num("2")]), Arr([Num("2"), Num("1")]))
  {
    var a, b := Obj(map["id" := Num("1")]), Obj(map["id" := Num("2")]);
    ReorderedIsIdentical([a, b], [b, a], ["1", "2"], [1, 0]);
    OrderedWithoutIds([Num("1"), Num("2")], [Num("2"), Num("1")], 0, 0, "");
    assert !Same([Num("1"), Num("2")][0], [Num("2"), Num("1")][0]);
  }
}
