/** The reported changes are a patch: applied to the left value they give the right one. */
module JsonPatch {
  import opened Text
  import opened JsonDiff
  import opened JsonDiffLaws
  import opened JsonEquality

  // ---------------------------------------------------------------- applying changes

  /** The changes below a step, with paths relative to it. */
  function Sub(cs: seq<Change>, step: Step): seq<Change> {
    if cs == [] then []
    else (if cs[0].path != [] && cs[0].path[0] == step then [cs[0].(path := cs[0].path[1..])] else [])
         + Sub(cs[1..], step)
  }

  function KeysIn(cs: seq<Change>): set<string> {
    set c | c in cs && c.path != [] && c.path[0].Key? :: c.path[0].key
  }

  /** One past the largest index mentioned, and at least n. */
  function Extent(n: nat, cs: seq<Change>): (e: nat)
    ensures e >= n
    ensures forall c | c in cs && c.path != [] && c.path[0].Index? :: c.path[0].i < e
  {
    if cs == [] then n else
      var rest := Extent(n, cs[1..]);
      if cs[0].path != [] && cs[0].path[0].Index? && cs[0].path[0].i >= rest then cs[0].path[0].i + 1 else rest
  }

  /** The values appended to an array matched by id, in the order listed. */
  function Additions(cs: seq<Change>): seq<Json> {
    if cs == [] then []
    else (if |cs[0].path| == 1 && cs[0].op == Added && cs[0].after.Some? then [cs[0].after.value] else [])
         + Additions(cs[1..])
  }

  /** What the changes make of a value; None when they remove it. */
  function Patch(v: Json, cs: seq<Change>): Option<Json>
    decreases v, 2, 0
  {
    if cs == [] then Some(v)
    else if cs[0].path == [] then cs[0].after
    else match v
      case Obj(fields) =>
        Some(Obj(map k | k in fields.Keys + KeysIn(cs) && PatchField(v, k, cs).Some? :: PatchField(v, k, cs).value))
      case Arr(items) =>
        Some(Arr(if cs[0].path[0].ById? then PatchById(v, cs, 0) + Additions(cs)
                 else PatchByIndex(v, cs, 0, Extent(|items|, cs))))
      case _ => None
  }

  /** What the changes put where nothing was. */
  function PatchAbsent(cs: seq<Change>): Option<Json> {
    if cs != [] && cs[0].path == [] then cs[0].after else None
  }

  function PatchField(v: Json, k: string, cs: seq<Change>): Option<Json>
    requires v.Obj?
    decreases v, 0, 0
  {
    if k in v.fields then Patch(v.fields[k], Sub(cs, Key(k))) else PatchAbsent(Sub(cs, Key(k)))
  }

  function PatchIndex(v: Json, cs: seq<Change>, i: nat): Option<Json>
    requires v.Arr?
    decreases v, 0, 0
  {
    if i < |v.items| then Patch(v.items[i], Sub(cs, Index(i))) else PatchAbsent(Sub(cs, Index(i)))
  }

  function PatchByIndex(v: Json, cs: seq<Change>, i: nat, n: nat): seq<Json>
    requires v.Arr? && i <= n
    decreases v, 1, n - i
  {
    if i == n then [] else Listed(PatchIndex(v, cs, i)) + PatchByIndex(v, cs, i + 1, n)
  }

  function PatchById(v: Json, cs: seq<Change>, i: nat): seq<Json>
    requires v.Arr? && i <= |v.items|
    decreases v, 1, |v.items| - i
  {
    if i == |v.items| then []
    else Listed(Patch(v.items[i], Sub(cs, ById(IdOf(v.items[i]))))) + PatchById(v, cs, i + 1)
  }

  // ---------------------------------------------------------------- lists of changes, in any order

  /** cs lists the members of ds, each once, in some order. */
  ghost predicate Lists(cs: seq<Change>, ds: seq<Change>) {
    Distinct(cs) && forall c :: c in cs <==> c in ds
  }

  lemma {:induction false} SubMembers(cs: seq<Change>, step: Step, c: Change)
    ensures c in Sub(cs, step) <==> c.(path := [step] + c.path) in cs
  {
    if cs != [] {
      SubMembers(cs[1..], step, c);
      var d := cs[0];
      if d.path != [] && d.path[0] == step {
        assert d == d.(path := d.path[1..]).(path := [step] + d.path[1..]);
      }
      if d == c.(path := [step] + c.path) { assert d.path[1..] == c.path; }
    }
  }

  lemma {:induction false} SubDistinct(cs: seq<Change>, step: Step)
    requires Distinct(cs)
    ensures Distinct(Sub(cs, step))
  {
    if cs != [] {
      SubDistinct(cs[1..], step);
      var d := cs[0];
      if d.path != [] && d.path[0] == step {
        var c := d.(path := d.path[1..]);
        SubMembers(cs[1..], step, c);
        assert c.(path := [step] + c.path) == d;
      }
    }
  }

  /** Below a slot's step stand exactly the changes of that slot. */
  lemma SubLists(l: Json, r: Json, s: Slot, cs: seq<Change>)
    requires SameContainer(l, r) && s in Slots(l, r) && Lists(cs, Diff(l, r))
    ensures Inside(s, l, r) && Lists(Sub(cs, s.step), SlotDiff(l, r, s))
  {
    SlotsInside(l, r);
    SubDistinct(cs, s.step);
    hide Slots, Diff;
    forall c ensures c in Sub(cs, s.step) <==> c in SlotDiff(l, r, s) {
      SubMembers(cs, s.step, c);
      ChangeOfSlot(l, r, s, c);
    }
  }

  lemma ChangeOfSlot(l: Json, r: Json, s: Slot, c: Change)
    requires SameContainer(l, r) && s in Slots(l, r) && Inside(s, l, r)
    ensures c in SlotDiff(l, r, s) <==> c.(path := [s.step] + c.path) in Diff(l, r)
  {
    SlotsDistinct(l, r);
    hide Slots, Diff, SlotDiff;
    var d := c.(path := [s.step] + c.path);
    DiffMembers(l, r, d);
    assert d.(path := d.path[1..]) == c by { assert d.path[1..] == c.path; }
    assert From(d, l, r, s) <==> c in SlotDiff(l, r, s);
  }

  /** Where no slot stands, no change is listed. */
  lemma SubEmpty(l: Json, r: Json, step: Step, cs: seq<Change>)
    requires SameContainer(l, r) && Lists(cs, Diff(l, r))
    requires forall s | s in Slots(l, r) :: s.step != step
    ensures Sub(cs, step) == []
  {
    if Sub(cs, step) != [] {
      var c := Sub(cs, step)[0];
      SubMembers(cs, step, c);
      DiffMembers(l, r, c.(path := [step] + c.path));
    }
  }

  // ---------------------------------------------------------------- the patch is correct

  function PatchSlot(s: Slot, cs: seq<Change>): Option<Json> {
    if s.left.Some? then Patch(s.left.value, cs) else PatchAbsent(cs)
  }

  ghost predicate Patched(v: Option<Json>, right: Option<Json>) {
    (v.Some? <==> right.Some?) && (v.Some? ==> Same(v.value, right.value))
  }

  lemma {:induction false} SlotPatched(l: Json, r: Json, s: Slot, cs: seq<Change>)
    requires SameContainer(l, r) && s in Slots(l, r) && Lists(cs, Diff(l, r))
    ensures Patched(PatchSlot(s, Sub(cs, s.step)), s.right)
    decreases l, 0
  {
    SubLists(l, r, s, cs);
    SlotsFilled(l, r);
    var sub := Sub(cs, s.step);
    if s.left.Some? && s.right.Some? {
      PatchGivesRight(s.left.value, s.right.value, sub);
    } else {
      assert SlotDiff(l, r, s)[0] in sub;
      assert sub[0] in sub;
      if s.right.Some? { SameReflexive(s.right.value); }
    }
  }

  lemma {:induction false} PatchGivesRight(l: Json, r: Json, cs: seq<Change>)
    requires Lists(cs, Diff(l, r))
    ensures Patch(l, cs).Some? && Same(Patch(l, cs).value, r)
    decreases l, 3
  {
    assert Diff(l, r) == [] || Diff(l, r)[0] in Diff(l, r);
    if cs == [] {
    } else if !SameContainer(l, r) {
      assert cs[0] in Diff(l, r);
      SameReflexive(r);
    } else {
      assert cs[0] in Diff(l, r);
      DiffMembers(l, r, cs[0]);
      if l.Obj? {
        PatchObjects(l, r, cs);
      } else if HasIds(l.items) && HasIds(r.items) {
        PatchArraysById(l, r, cs);
      } else {
        PatchArraysByIndex(l, r, cs);
      }
    }
  }

  lemma {:induction false} FieldPatched(l: Json, r: Json, k: string, cs: seq<Change>)
    requires l.Obj? && r.Obj? && Lists(cs, Diff(l, r))
    ensures Patched(PatchField(l, k, cs), Lookup(r.fields, k))
    decreases l, 1
  {
    hide Diff, Patch, Same;
    var ks := SortedKeys(l.fields.Keys + r.fields.Keys);
    SortedKeysEnumerate(l.fields.Keys + r.fields.Keys);
    var s := Slot(Key(k), Lookup(l.fields, k), Lookup(r.fields, k));
    if k in l.fields || k in r.fields {
      assert k in Elements(ks);
      var i :| 0 <= i < |ks| && ks[i] == k;
      assert Slots(l, r)[i] == s;
      SlotPatched(l, r, s, cs);
    } else {
      forall s | s in Slots(l, r) ensures s.step != Key(k) {
        var i :| 0 <= i < |ks| && s == Slots(l, r)[i];
        assert ks[i] in Elements(ks);
      }
      SubEmpty(l, r, Key(k), cs);
    }
  }

  lemma {:induction false} PatchObjects(l: Json, r: Json, cs: seq<Change>)
    requires l.Obj? && r.Obj? && cs != [] && cs[0].path != [] && Lists(cs, Diff(l, r))
    ensures Patch(l, cs).Some? && Same(Patch(l, cs).value, r)
    decreases l, 2
  {
    var x := Patch(l, cs).value;
    hide Diff, Same, Patch;
    forall k
      ensures k in x.fields <==> k in r.fields
      ensures k in r.fields ==> Same(x.fields[k], r.fields[k])
    {
      FieldPatched(l, r, k, cs);
      if k in r.fields && k !in l.fields {
        var c := Sub(cs, Key(k))[0];
        SubMembers(cs, Key(k), c);
        var d := c.(path := [Key(k)] + c.path);
        assert d in cs && d.path[0].key == k;
      }
    }
    assert x.fields.Keys == r.fields.Keys;
    SameObjects(x, r);
  }

  // Arrays matched by index.

  lemma {:induction false} IndexPatched(l: Json, r: Json, i: nat, cs: seq<Change>)
    requires l.Arr? && r.Arr? && !(HasIds(l.items) && HasIds(r.items)) && Lists(cs, Diff(l, r))
    ensures Patched(PatchIndex(l, cs, i), At(r.items, i))
    decreases l, 1
  {
    hide Diff, Patch, Same;
    if i < Longer(l.items, r.items) {
      var s := Slots(l, r)[i];
      assert s == Slot(Index(i), At(l.items, i), At(r.items, i));
      SlotPatched(l, r, s, cs);
    } else {
      SubEmpty(l, r, Index(i), cs);
    }
  }

  lemma {:induction false} TailByIndex(l: Json, r: Json, cs: seq<Change>, i: nat, n: nat)
    requires l.Arr? && r.Arr? && |r.items| <= n && i <= n
    requires forall j: nat :: Patched(PatchIndex(l, cs, j), At(r.items, j))
    ensures var x := PatchByIndex(l, cs, i, n);
            && |x| == (if i <= |r.items| then |r.items| - i else 0)
            && forall t :: 0 <= t < |x| ==> Same(x[t], r.items[i + t])
    decreases n - i
  {
    hide Same, Patch, PatchIndex;
    if i < n {
      TailByIndex(l, r, cs, i + 1, n);
      assert Patched(PatchIndex(l, cs, i), At(r.items, i));
    }
  }

  /** Elements without changes, place by place, make arrays without changes. */
  lemma PointwiseSame(x: Json, r: Json)
    requires x.Arr? && r.Arr? && |x.items| == |r.items|
    requires forall i :: 0 <= i < |x.items| ==> Same(x.items[i], r.items[i])
    ensures Same(x, r)
  {
    hide Diff, FindId;
    if HasIds(x.items) && HasIds(r.items) {
      forall i | 0 <= i < |x.items|
        ensures FindId(r.items, IdOf(x.items[i])) == Some(r.items[i]) && FindId(x.items, IdOf(r.items[i])).Some?
      {
        SameId(x.items[i], r.items[i]);
        FindIdUnique(x.items, i);
        FindIdUnique(r.items, i);
      }
      SameById(x, r);
    } else {
      SameByIndex(x, r);
    }
  }

  lemma {:induction false} PatchArraysByIndex(l: Json, r: Json, cs: seq<Change>)
    requires l.Arr? && r.Arr? && !(HasIds(l.items) && HasIds(r.items))
    requires cs != [] && cs[0].path != [] && Lists(cs, Diff(l, r))
    ensures Patch(l, cs).Some? && Same(Patch(l, cs).value, r)
    decreases l, 2
  {
    var x, n := Patch(l, cs).value, Extent(|l.items|, cs);
    DiffMembers(l, r, cs[0]);
    assert !cs[0].path[0].ById? by {
      assert cs[0] in Diff(l, r);
      var s :| s in Slots(l, r) && From(cs[0], l, r, s);
    }
    hide Diff, Same, Patch;
    forall j: nat ensures Patched(PatchIndex(l, cs, j), At(r.items, j)) { IndexPatched(l, r, j, cs); }
    if |r.items| > |l.items| {
      var j := |r.items| - 1;
      assert PatchIndex(l, cs, j).Some?;
      var c := Sub(cs, Index(j))[0];
      SubMembers(cs, Index(j), c);
      var d := c.(path := [Index(j)] + c.path);
      assert d in cs && d.path[0] == Index(j);
    }
    TailByIndex(l, r, cs, 0, n);
    PointwiseSame(x, r);
  }

  // Arrays matched by id.

  lemma {:induction false} AdditionsMembers(cs: seq<Change>, y: Json)
    ensures y in Additions(cs) <==>
            exists c :: c in cs && |c.path| == 1 && c.op == Added && c.after == Some(y)
  {
    if cs != [] {
      AdditionsMembers(cs[1..], y);
      assert forall c :: c in cs <==> c == cs[0] || c in cs[1..];
    }
  }

  /** An addition listed for arrays matched by id is an element of r whose id l lacks, as its own path says. */
  lemma AddedElement(l: Json, r: Json, cs: seq<Change>, c: Change)
    requires l.Arr? && r.Arr? && HasIds(l.items) && HasIds(r.items) && Lists(cs, Diff(l, r))
    requires c in cs && |c.path| == 1 && c.op == Added && c.after.Some?
    ensures c.after.value in r.items && FindId(l.items, IdOf(c.after.value)).None?
    ensures c == Change([ById(IdOf(c.after.value))], Added, None, c.after)
  {
    DiffMembers(l, r, c);
    var s :| s in Slots(l, r) && From(c, l, r, s);
    var tail := c.(path := c.path[1..]);
    assert tail.path == [];
    if s.left.Some? && s.right.Some? { NestedAddition(s.left.value, s.right.value, tail); }
    UnmatchedMembers(l.items, r.items, s);
    assert c.path == [s.step];
  }

  /** A change reported for a whole value is a replacement, never an addition. */
  lemma NestedAddition(l: Json, r: Json, c: Change)
    requires c in Diff(l, r) && c.path == []
    ensures c.op == Changed
  {
    if SameContainer(l, r) { DiffMembers(l, r, c); }
  }

  lemma {:induction false} AdditionsDistinctIds(l: Json, r: Json, cs: seq<Change>, rest: seq<Change>)
    requires l.Arr? && r.Arr? && HasIds(l.items) && HasIds(r.items) && Lists(cs, Diff(l, r))
    requires Distinct(rest) && forall c | c in rest :: c in cs
    ensures DistinctIds(Additions(rest))
  {
    if rest != [] {
      AdditionsDistinctIds(l, r, cs, rest[1..]);
      var d := rest[0];
      if |d.path| == 1 && d.op == Added && d.after.Some? {
        AddedElement(l, r, cs, d);
        forall y | y in Additions(rest[1..]) ensures IdOf(y) != IdOf(d.after.value) {
          AdditionsMembers(rest[1..], y);
          var c :| c in rest[1..] && |c.path| == 1 && c.op == Added && c.after == Some(y);
          AddedElement(l, r, cs, c);
          SameElement(r.items, y, d.after.value);
        }
      }
    }
  }

  lemma SameElement(items: seq<Json>, a: Json, b: Json)
    requires HasIds(items) && a in items && b in items
    ensures IdOf(a) == IdOf(b) ==> a == b
  {
  }

  ghost predicate DistinctIds(xs: seq<Json>) {
    forall i, j :: 0 <= i < j < |xs| ==> IdOf(xs[i]) != IdOf(xs[j])
  }

  /** y stands for the element of r with its id. */
  ghost predicate StandsFor(y: Json, r: seq<Json>) {
    FindId(r, IdOf(y)).Some? && Same(y, FindId(r, IdOf(y)).value)
  }

  lemma {:induction false} ElementPatched(l: Json, r: Json, i: nat, cs: seq<Change>)
    requires l.Arr? && r.Arr? && HasIds(l.items) && HasIds(r.items) && Lists(cs, Diff(l, r)) && i < |l.items|
    ensures Patched(Patch(l.items[i], Sub(cs, ById(IdOf(l.items[i])))), FindId(r.items, IdOf(l.items[i])))
    decreases l, 1, 0
  {
    hide Diff, Patch, Same, FindId;
    var s := MatchedSlots(l.items, r.items)[i];
    assert s in Slots(l, r) && s.step == ById(IdOf(l.items[i])) && s.left == Some(l.items[i]);
    SlotPatched(l, r, s, cs);
  }

  ghost predicate HasId(xs: seq<Json>, id: string) {
    exists y :: y in xs && IdOf(y) == id
  }

  /** x keeps, from place i of l on, one stand-in for each element whose id r has. */
  ghost predicate KeptFrom(x: seq<Json>, l: seq<Json>, r: seq<Json>, i: nat) {
    && DistinctIds(x)
    && (forall y | y in x :: StandsFor(y, r) && exists t :: i <= t < |l| && IdOf(l[t]) == IdOf(y))
    && (forall t | i <= t < |l| && FindId(r, IdOf(l[t])).Some? :: HasId(x, IdOf(l[t])))
  }

  lemma KeptStep(head: Option<Json>, tail: seq<Json>, l: seq<Json>, r: seq<Json>, i: nat)
    requires HasIds(l) && i < |l| && KeptFrom(tail, l, r, i + 1)
    requires head.Some? <==> FindId(r, IdOf(l[i])).Some?
    requires head.Some? ==> IdOf(head.value) == IdOf(l[i]) && StandsFor(head.value, r)
    ensures KeptFrom(Listed(head) + tail, l, r, i)
  {
    hide Diff, FindId, StandsFor;
    var x := Listed(head) + tail;
    if head.Some? { assert x[0] == head.value; }
    assert forall y :: y in x <==> (head.Some? && y == head.value) || y in tail;
    forall t | i <= t < |l| && FindId(r, IdOf(l[t])).Some? ensures HasId(x, IdOf(l[t])) {
      if t > i {
        var y :| y in tail && IdOf(y) == IdOf(l[t]);
        assert y in x;
      }
    }
  }

  lemma {:induction false} KeptElements(l: Json, r: Json, cs: seq<Change>, i: nat)
    requires l.Arr? && r.Arr? && HasIds(l.items) && HasIds(r.items) && Lists(cs, Diff(l, r)) && i <= |l.items|
    ensures KeptFrom(PatchById(l, cs, i), l.items, r.items, i)
    decreases l, 1, 1 + |l.items| - i
  {
    hide Diff, Patch, Same, FindId;
    if i < |l.items| {
      var id := IdOf(l.items[i]);
      var head := Patch(l.items[i], Sub(cs, ById(id)));
      ElementPatched(l, r, i, cs);
      KeptElements(l, r, cs, i + 1);
      if head.Some? {
        SameId(head.value, FindId(r.items, id).value);
        FindIdFinds(r.items, id);
      }
      hide HasIds;
      KeptStep(head, PatchById(l, cs, i + 1), l.items, r.items, i);
    }
  }

  lemma {:induction false} PatchArraysById(l: Json, r: Json, cs: seq<Change>)
    requires l.Arr? && r.Arr? && HasIds(l.items) && HasIds(r.items)
    requires cs != [] && cs[0].path != [] && Lists(cs, Diff(l, r))
    ensures Patch(l, cs).Some? && Same(Patch(l, cs).value, r)
    decreases l, 2
  {
    var x := Patch(l, cs).value;
    assert cs[0].path[0].ById? by {
      DiffMembers(l, r, cs[0]);
      assert cs[0] in Diff(l, r);
      var s :| s in Slots(l, r) && From(cs[0], l, r, s);
      UnmatchedMembers(l.items, r.items, s);
    }
    hide Diff, Patch, Same, FindId;
    assert x == Arr(PatchById(l, cs, 0) + Additions(cs));
    PatchedElements(l, r, cs);
    forall j | 0 <= j < |r.items| ensures HasId(x.items, IdOf(r.items[j])) {
      RightElementPresent(l, r, cs, j);
    }
    StandInsSame(x.items, r.items);
  }

  lemma AdditionsStandFor(l: Json, r: Json, cs: seq<Change>, y: Json)
    requires l.Arr? && r.Arr? && HasIds(l.items) && HasIds(r.items) && Lists(cs, Diff(l, r)) && y in Additions(cs)
    ensures FindId(l.items, IdOf(y)).None? && StandsFor(y, r.items)
  {
    hide Diff, Same, FindId;
    AdditionsMembers(cs, y);
    var c :| c in cs && |c.path| == 1 && c.op == Added && c.after == Some(y);
    AddedElement(l, r, cs, c);
    var j :| 0 <= j < |r.items| && r.items[j] == y;
    FindIdUnique(r.items, j);
    SameReflexive(y);
  }

  lemma {:induction false} PatchedElements(l: Json, r: Json, cs: seq<Change>)
    requires l.Arr? && r.Arr? && HasIds(l.items) && HasIds(r.items) && Lists(cs, Diff(l, r))
    ensures var x := PatchById(l, cs, 0) + Additions(cs); DistinctIds(x) && forall y | y in x :: StandsFor(y, r.items)
    decreases l, 1, |l.items| + 2
  {
    hide Diff, Same, Patch, FindId, StandsFor, PatchById, Additions;
    var kept, added := PatchById(l, cs, 0), Additions(cs);
    KeptElements(l, r, cs, 0);
    AdditionsDistinctIds(l, r, cs, cs);
    forall y | y in added ensures FindId(l.items, IdOf(y)).None? && StandsFor(y, r.items) {
      AdditionsStandFor(l, r, cs, y);
    }
    forall a, b | a in kept && b in added ensures IdOf(a) != IdOf(b) {
      FindIdFinds(l.items, IdOf(b));
    }
  }

  lemma {:induction false} RightElementPresent(l: Json, r: Json, cs: seq<Change>, j: nat)
    requires l.Arr? && r.Arr? && HasIds(l.items) && HasIds(r.items) && Lists(cs, Diff(l, r)) && j < |r.items|
    ensures HasId(PatchById(l, cs, 0) + Additions(cs), IdOf(r.items[j]))
    decreases l, 1, |l.items| + 2
  {
    hide Diff, Patch, Same, FindId;
    var b, id := r.items[j], IdOf(r.items[j]);
    if FindId(l.items, id).Some? {
      FindIdFinds(l.items, id);
      var t :| 0 <= t < |l.items| && l.items[t] == FindId(l.items, id).value;
      FindIdUnique(r.items, j);
      KeptElements(l, r, cs, 0);
      assert HasId(PatchById(l, cs, 0), id);
    } else {
      var s := Slot(ById(id), None, Some(b));
      UnmatchedMembers(l.items, r.items, s);
      var c := Change([ById(id)], Added, None, Some(b));
      SlotsInside(l, r);
      DiffMembers(l, r, c);
      assert c.(path := c.path[1..]) == Change([], Added, None, Some(b));
      assert From(c, l, r, s);
      AdditionsMembers(cs, b);
    }
  }

  lemma StandInsSame(xs: seq<Json>, r: seq<Json>)
    requires HasIds(r) && DistinctIds(xs)
    requires forall y | y in xs :: StandsFor(y, r)
    requires forall j | 0 <= j < |r| :: HasId(xs, IdOf(r[j]))
    ensures Same(Arr(xs), Arr(r))
  {
    hide Diff, Same, FindId;
    forall y | y in xs ensures IdOf(y) != "" {
      FindIdFinds(r, IdOf(y));
    }
    assert HasId(xs, IdOf(r[0]));
    var y0 :| y0 in xs && IdOf(y0) == IdOf(r[0]);
    assert HasIds(xs);
    forall j | 0 <= j < |r| ensures FindId(xs, IdOf(r[j])).Some? {
      var y :| y in xs && IdOf(y) == IdOf(r[j]);
      var i :| 0 <= i < |xs| && xs[i] == y;
      FindIdUnique(xs, i);
    }
    forall i | 0 <= i < |xs| ensures StandsFor(xs[i], r) {
      assert xs[i] in xs;
    }
    SameById(Arr(xs), Arr(r));
  }
}
