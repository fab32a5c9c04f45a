/** What the comparison promises: "no changes" is an equivalence, reports are prefix-free, sides swap. */
module JsonDiffLaws {
  import opened Text
  import opened JsonDiff

  // ---------------------------------------------------------------- slots

  ghost predicate DistinctSteps(slots: seq<Slot>) {
    forall i, j :: 0 <= i < j < |slots| ==> slots[i].step != slots[j].step
  }

  lemma {:induction false} UnmatchedDistinct(l: seq<Json>, r: seq<Json>)
    requires forall i, j :: 0 <= i < j < |r| ==> IdOf(r[i]) != IdOf(r[j])
    ensures DistinctSteps(UnmatchedSlots(l, r))
  {
    if r != [] {
      UnmatchedDistinct(l, r[1..]);
      forall s | s in UnmatchedSlots(l, r[1..]) ensures s.step != ById(IdOf(r[0])) {
        UnmatchedMembers(l, r[1..], s);
      }
    }
  }

  lemma SlotsDistinct(l: Json, r: Json)
    requires SameContainer(l, r)
    ensures DistinctSteps(Slots(l, r))
  {
    if l.Obj? {
      SortedKeysEnumerate(l.fields.Keys + r.fields.Keys);
    } else if HasIds(l.items) && HasIds(r.items) {
      UnmatchedDistinct(l.items, r.items);
      forall s | s in UnmatchedSlots(l.items, r.items)
        ensures forall i :: 0 <= i < |l.items| ==> s.step != ById(IdOf(l.items[i]))
      {
        UnmatchedMembers(l.items, r.items, s);
        FindIdFinds(l.items, s.step.id);
      }
    }
  }

  function Flip(s: Slot): Slot { Slot(s.step, s.right, s.left) }

  lemma IdSlotsFlip(l: seq<Json>, r: seq<Json>, s: Slot)
    requires HasIds(l) && HasIds(r) && s in MatchedSlots(l, r) + UnmatchedSlots(l, r)
    ensures Flip(s) in MatchedSlots(r, l) + UnmatchedSlots(r, l)
  {
    if s in MatchedSlots(l, r) {
      var i :| 0 <= i < |l| && s == MatchedSlots(l, r)[i];
      FindIdFinds(r, IdOf(l[i]));
      if s.right.Some? {
        var j :| 0 <= j < |r| && r[j] == s.right.value;
        FindIdUnique(l, i);
        assert Flip(s) == MatchedSlots(r, l)[j];
      } else {
        UnmatchedMembers(r, l, Flip(s));
      }
    } else {
      UnmatchedMembers(l, r, s);
      var j :| 0 <= j < |r| && r[j] == s.right.value;
      assert Flip(s) == MatchedSlots(r, l)[j];
    }
  }

  /** The slots of (r, l) are those of (l, r) seen from the other side. */
  lemma SlotsFlip(l: Json, r: Json, s: Slot)
    requires SameContainer(l, r) && s in Slots(l, r)
    ensures Flip(s) in Slots(r, l)
  {
    if l.Obj? {
      assert l.fields.Keys + r.fields.Keys == r.fields.Keys + l.fields.Keys;
      var ks := SortedKeys(l.fields.Keys + r.fields.Keys);
      var i :| 0 <= i < |ks| && s == Slots(l, r)[i];
      assert Flip(s) == Slots(r, l)[i];
    } else if HasIds(l.items) && HasIds(r.items) {
      IdSlotsFlip(l.items, r.items, s);
    } else {
      var i :| 0 <= i < Longer(l.items, r.items) && s == Slots(l, r)[i];
      assert Flip(s) == Slots(r, l)[i];
    }
  }

  // ---------------------------------------------------------------- membership

  /** c is one of the changes that slot s contributes. */
  ghost predicate From(c: Change, l: Json, r: Json, s: Slot)
    requires Inside(s, l, r)
  {
    c.path != [] && c.path[0] == s.step && c.(path := c.path[1..]) in SlotDiff(l, r, s)
  }

  lemma UnderMembers(step: Step, cs: seq<Change>, c: Change)
    ensures c in Under(step, cs) <==> c.path != [] && c.path[0] == step && c.(path := c.path[1..]) in cs
  {
    if c.path != [] && c.path[0] == step && c.(path := c.path[1..]) in cs {
      var i :| 0 <= i < |cs| && cs[i] == c.(path := c.path[1..]);
      assert [step] + cs[i].path == c.path;
      assert Under(step, cs)[i] == c;
    }
    if c in Under(step, cs) {
      var i :| 0 <= i < |cs| && c == Under(step, cs)[i];
      assert c.path[1..] == cs[i].path;
      assert c.(path := c.path[1..]) == cs[i];
    }
  }

  lemma {:induction false} SlotMembers(l: Json, r: Json, slots: seq<Slot>, c: Change)
    requires forall s | s in slots :: Inside(s, l, r)
    ensures c in DiffSlots(l, r, slots) <==> exists s :: s in slots && From(c, l, r, s)
  {
    if slots != [] {
      var head, tail := Under(slots[0].step, SlotDiff(l, r, slots[0])), DiffSlots(l, r, slots[1..]);
      assert DiffSlots(l, r, slots) == head + tail;
      SlotMembers(l, r, slots[1..], c);
      UnderMembers(slots[0].step, SlotDiff(l, r, slots[0]), c);
      assert forall s :: s in slots <==> s == slots[0] || s in slots[1..];
    }
  }

  /** A change is reported exactly when some slot contributes it. */
  lemma DiffMembers(l: Json, r: Json, c: Change)
    requires SameContainer(l, r)
    ensures forall s | s in Slots(l, r) :: Inside(s, l, r)
    ensures c in Diff(l, r) <==> exists s :: s in Slots(l, r) && From(c, l, r, s)
  {
    SlotsInside(l, r);
    SlotMembers(l, r, Slots(l, r), c);
  }

  /** Between objects a change is reported exactly under a key of either: one value gone, one come, or a change between
      the two. */
  lemma ObjectChanges(l: map<string, Json>, r: map<string, Json>, c: Change)
    ensures c in Diff(Obj(l), Obj(r)) <==>
              && c.path != [] && c.path[0].Key?
              && var k, rest := c.path[0].key, c.(path := c.path[1..]);
                 || (k in l && k in r && rest in Diff(l[k], r[k]))
                 || (k in l && k !in r && rest == Change([], Removed, Some(l[k]), None))
                 || (k !in l && k in r && rest == Change([], Added, None, Some(r[k])))
  {
    DiffMembers(Obj(l), Obj(r), c);
    ObjectSlots(l, r);
    hide Slots, Diff;
    if c.path != [] && c.path[0].Key? {
      var k := c.path[0].key;
      var s := Slot(Key(k), Lookup(l, k), Lookup(r, k));
      assert k in l || k in r ==> s in Slots(Obj(l), Obj(r));
    }
  }

  lemma ObjectSlots(l: map<string, Json>, r: map<string, Json>)
    ensures forall s :: s in Slots(Obj(l), Obj(r)) <==>
              s.step.Key? && (s.step.key in l || s.step.key in r)
              && s == Slot(s.step, Lookup(l, s.step.key), Lookup(r, s.step.key))
  {
    var ks := SortedKeys(l.Keys + r.Keys);
    SortedKeysEnumerate(l.Keys + r.Keys);
    forall s ensures s in Slots(Obj(l), Obj(r)) <==>
              s.step.Key? && (s.step.key in l || s.step.key in r)
              && s == Slot(s.step, Lookup(l, s.step.key), Lookup(r, s.step.key))
    {
      if s.step.Key? && (s.step.key in l || s.step.key in r) {
        assert s.step.key in Elements(ks);
        var i :| 0 <= i < |ks| && ks[i] == s.step.key;
        assert KeySlots(l, r, ks)[i] == Slot(s.step, Lookup(l, s.step.key), Lookup(r, s.step.key));
      }
      if s in Slots(Obj(l), Obj(r)) {
        var i :| 0 <= i < |ks| && KeySlots(l, r, ks)[i] == s;
        assert ks[i] in Elements(ks);
      }
    }
  }

  /** Between arrays matched by index a change is reported exactly at an index of either. */
  lemma IndexChanges(l: seq<Json>, r: seq<Json>, c: Change)
    requires !(HasIds(l) && HasIds(r))
    ensures c in Diff(Arr(l), Arr(r)) <==>
              && c.path != [] && c.path[0].Index?
              && var i, rest := c.path[0].i, c.(path := c.path[1..]);
                 || (i < |l| && i < |r| && rest in Diff(l[i], r[i]))
                 || (|r| <= i < |l| && rest == Change([], Removed, Some(l[i]), None))
                 || (|l| <= i < |r| && rest == Change([], Added, None, Some(r[i])))
  {
    hide HasIds;
    var slots := IndexSlots(l, r);
    DiffMembers(Arr(l), Arr(r), c);
    assert Slots(Arr(l), Arr(r)) == slots;
    hide Slots, Diff;
    if c.path != [] && c.path[0].Index? && c.path[0].i < Longer(l, r) {
      assert slots[c.path[0].i] in slots;
    }
    assert forall s :: s in slots <==> s.step.Index? && s.step.i < Longer(l, r) && s == slots[s.step.i];
  }

  /** Between arrays matched by id a change is reported exactly under an id of either, wherever its elements stand. */
  lemma IdChanges(l: seq<Json>, r: seq<Json>, c: Change)
    requires HasIds(l) && HasIds(r)
    ensures c in Diff(Arr(l), Arr(r)) <==>
              && c.path != [] && c.path[0].ById?
              && var id, rest := c.path[0].id, c.(path := c.path[1..]);
                 || (exists i, j :: 0 <= i < |l| && 0 <= j < |r| && IdOf(l[i]) == id == IdOf(r[j])
                                    && rest in Diff(l[i], r[j]))
                 || (exists i :: 0 <= i < |l| && IdOf(l[i]) == id && (forall j :: 0 <= j < |r| ==> IdOf(r[j]) != id)
                                 && rest == Change([], Removed, Some(l[i]), None))
                 || (exists j :: 0 <= j < |r| && IdOf(r[j]) == id && (forall i :: 0 <= i < |l| ==> IdOf(l[i]) != id)
                                 && rest == Change([], Added, None, Some(r[j])))
  {
    DiffMembers(Arr(l), Arr(r), c);
    IdSlots(l, r);
    hide HasIds, IdOf, Diff, Slots;
    if c.path != [] && c.path[0].ById? {
      var id := c.path[0].id;
      FoundAt(l, id);
      FoundAt(r, id);
      var s := Slot(ById(id), FindId(l, id), FindId(r, id));
      hide FindId;
      assert s.left.Some? || s.right.Some? ==> s in Slots(Arr(l), Arr(r));
    }
  }

  lemma FoundAt(items: seq<Json>, id: string)
    requires HasIds(items)
    ensures FindId(items, id).Some? <==> exists i :: 0 <= i < |items| && IdOf(items[i]) == id
    ensures forall i :: 0 <= i < |items| && IdOf(items[i]) == id ==> FindId(items, id) == Some(items[i])
  {
    FindIdFinds(items, id);
    forall i | 0 <= i < |items| && IdOf(items[i]) == id ensures FindId(items, id) == Some(items[i]) {
      FindIdUnique(items, i);
    }
    if FindId(items, id).Some? {
      var i :| 0 <= i < |items| && items[i] == FindId(items, id).value;
    }
  }

  lemma IdSlots(l: seq<Json>, r: seq<Json>)
    requires HasIds(l) && HasIds(r)
    ensures forall s :: s in Slots(Arr(l), Arr(r)) <==>
              s.step.ById? && (s.left.Some? || s.right.Some?)
              && s == Slot(s.step, FindId(l, s.step.id), FindId(r, s.step.id))
  {
    assert Slots(Arr(l), Arr(r)) == MatchedSlots(l, r) + UnmatchedSlots(l, r);
    hide Slots;
    forall s ensures s in MatchedSlots(l, r) + UnmatchedSlots(l, r) <==>
              s.step.ById? && (s.left.Some? || s.right.Some?)
              && s == Slot(s.step, FindId(l, s.step.id), FindId(r, s.step.id))
    {
      MatchedMembers(l, r, s);
      UnmatchedMembers(l, r, s);
      if s.step.ById? {
        FoundAt(l, s.step.id);
        FoundAt(r, s.step.id);
        FindIdFinds(r, s.step.id);
      }
      if s.right.Some? && s.right.value in r {
        var j :| 0 <= j < |r| && r[j] == s.right.value;
        FindIdUnique(r, j);
      }
      hide HasIds, FindId, IdOf, MatchedSlots, UnmatchedSlots;
    }
  }

  lemma MatchedMembers(l: seq<Json>, r: seq<Json>, s: Slot)
    requires HasIds(l)
    ensures s in MatchedSlots(l, r) <==>
              s.step.ById? && s.left.Some? && s == Slot(s.step, FindId(l, s.step.id), FindId(r, s.step.id))
  {
    if s in MatchedSlots(l, r) {
      var i :| 0 <= i < |l| && MatchedSlots(l, r)[i] == s;
      FindIdUnique(l, i);
    }
    if s.step.ById? && s.left.Some? && s == Slot(s.step, FindId(l, s.step.id), FindId(r, s.step.id)) {
      FindIdFinds(l, s.step.id);
      var i :| 0 <= i < |l| && l[i] == s.left.value;
      assert MatchedSlots(l, r)[i] == s;
    }
  }

  // ---------------------------------------------------------------- no path repeats or extends another

  ghost predicate PrefixFree(cs: seq<Change>) {
    forall i, j :: 0 <= i < |cs| && 0 <= j < |cs| && i != j ==> !(cs[i].path <= cs[j].path)
  }

  lemma ConsPrefix<T>(x: T, a: seq<T>, b: seq<T>)
    ensures [x] + a <= [x] + b <==> a <= b
  {
    assert ([x] + a)[1..] == a && ([x] + b)[1..] == b;
  }

  lemma UnderPrefixFree(step: Step, cs: seq<Change>)
    requires PrefixFree(cs)
    ensures PrefixFree(Under(step, cs))
  {
    var us := Under(step, cs);
    forall i, j | 0 <= i < |us| && 0 <= j < |us| && i != j ensures !(us[i].path <= us[j].path) {
      assert us[i].path == [step] + cs[i].path && us[j].path == [step] + cs[j].path;
      ConsPrefix(step, cs[i].path, cs[j].path);
    }
  }

  lemma {:induction false} SlotsPrefixFree(l: Json, r: Json, slots: seq<Slot>)
    requires forall s | s in slots :: Inside(s, l, r)
    requires DistinctSteps(slots)
    ensures PrefixFree(DiffSlots(l, r, slots))
    decreases l, 0, |slots|
  {
    if slots != [] {
      var s := slots[0];
      assert s in slots;
      if s.left.Some? && s.right.Some? { DiffPrefixFree(s.left.value, s.right.value); }
      var head, tail := Under(s.step, SlotDiff(l, r, s)), DiffSlots(l, r, slots[1..]);
      UnderPrefixFree(s.step, SlotDiff(l, r, s));
      SlotsPrefixFree(l, r, slots[1..]);
      forall c | c in tail ensures c.path != [] && c.path[0] != s.step {
        SlotMembers(l, r, slots[1..], c);
      }
      hide Diff, DiffSlots, SlotDiff;
      PrefixFreeJoined(s.step, head, tail);
    }
  }

  lemma PrefixFreeJoined(step: Step, head: seq<Change>, tail: seq<Change>)
    requires PrefixFree(head) && PrefixFree(tail)
    requires forall i | 0 <= i < |head| :: head[i].path != [] && head[i].path[0] == step
    requires forall c | c in tail :: c.path != [] && c.path[0] != step
    ensures PrefixFree(head + tail)
  {
    forall i | 0 <= i < |tail| ensures tail[i].path != [] && tail[i].path[0] != step {
      assert tail[i] in tail;
    }
  }

  /** No reported path is repeated, and none is a prefix of another. */
  lemma {:induction false} DiffPrefixFree(l: Json, r: Json)
    ensures PrefixFree(Diff(l, r))
    decreases l, 1, 0
  {
    if SameContainer(l, r) {
      SlotsInside(l, r);
      SlotsDistinct(l, r);
      SlotsPrefixFree(l, r, Slots(l, r));
    }
  }

  // ---------------------------------------------------------------- "no changes"

  ghost predicate Same(l: Json, r: Json) { Diff(l, r) == [] }

  ghost predicate SameSlot(s: Slot) {
    s.left.Some? && s.right.Some? && Same(s.left.value, s.right.value)
  }

  lemma {:induction false} SameSlots(l: Json, r: Json, slots: seq<Slot>)
    requires forall s | s in slots :: Inside(s, l, r)
    requires forall s | s in slots :: s.left.Some? || s.right.Some?
    ensures DiffSlots(l, r, slots) == [] <==> forall s | s in slots :: SameSlot(s)
  {
    if slots != [] {
      assert DiffSlots(l, r, slots) == Under(slots[0].step, SlotDiff(l, r, slots[0])) + DiffSlots(l, r, slots[1..]);
      SameSlots(l, r, slots[1..]);
      assert forall s :: s in slots <==> s == slots[0] || s in slots[1..];
    }
  }

  lemma SlotsFilled(l: Json, r: Json)
    requires SameContainer(l, r)
    ensures forall s | s in Slots(l, r) :: s.left.Some? || s.right.Some?
  {
    if l.Obj? {
      KeySlotsFilled(l.fields, r.fields);
    } else if HasIds(l.items) && HasIds(r.items) {
      forall s | s in Slots(l, r) ensures s.left.Some? || s.right.Some? {
        UnmatchedMembers(l.items, r.items, s);
      }
    } else {
      IndexSlotsFilled(l.items, r.items);
    }
  }

  lemma KeySlotsFilled(l: map<string, Json>, r: map<string, Json>)
    ensures forall s | s in KeySlots(l, r, SortedKeys(l.Keys + r.Keys)) :: s.left.Some? || s.right.Some?
  {
    var ks := SortedKeys(l.Keys + r.Keys);
    SortedKeysEnumerate(l.Keys + r.Keys);
    hide SortedKeys, Ascending, Distinct;
    forall s | s in KeySlots(l, r, ks) ensures s.left.Some? || s.right.Some? {
      var i :| 0 <= i < |ks| && s == KeySlots(l, r, ks)[i];
      assert ks[i] in Elements(ks);
    }
  }

  lemma IndexSlotsFilled(l: seq<Json>, r: seq<Json>)
    ensures forall s | s in IndexSlots(l, r) :: s.left.Some? || s.right.Some?
  {
  }

  lemma SameIff(l: Json, r: Json)
    requires SameContainer(l, r)
    ensures Same(l, r) <==> forall s | s in Slots(l, r) :: SameSlot(s)
  {
    SlotsInside(l, r);
    SlotsFilled(l, r);
    SameSlots(l, r, Slots(l, r));
  }

  lemma SameObjects(l: Json, r: Json)
    requires l.Obj? && r.Obj?
    ensures Same(l, r) <==> l.fields.Keys == r.fields.Keys && forall k | k in l.fields :: Same(l.fields[k], r.fields[k])
  {
    hide Diff;
    SameIff(l, r);
    var ks := SortedKeys(l.fields.Keys + r.fields.Keys);
    SortedKeysEnumerate(l.fields.Keys + r.fields.Keys);
    forall k | k in l.fields || k in r.fields
      ensures Slot(Key(k), Lookup(l.fields, k), Lookup(r.fields, k)) in Slots(l, r)
    {
      assert k in Elements(ks);
      var i :| 0 <= i < |ks| && ks[i] == k;
      assert Slots(l, r)[i] == Slot(Key(k), Lookup(l.fields, k), Lookup(r.fields, k));
    }
    forall s | s in Slots(l, r)
      ensures s.step.Key? && s == Slot(s.step, Lookup(l.fields, s.step.key), Lookup(r.fields, s.step.key))
      ensures s.step.key in l.fields.Keys + r.fields.Keys
    {
      var i :| 0 <= i < |ks| && s == Slots(l, r)[i];
      assert ks[i] in Elements(ks);
    }
    if Same(l, r) {
      forall k ensures k in l.fields <==> k in r.fields {
        if k in l.fields || k in r.fields { assert SameSlot(Slot(Key(k), Lookup(l.fields, k), Lookup(r.fields, k))); }
      }
      forall k | k in l.fields ensures Same(l.fields[k], r.fields[k]) {
        assert SameSlot(Slot(Key(k), Lookup(l.fields, k), Lookup(r.fields, k)));
      }
    }
  }

  lemma SameByIndex(l: Json, r: Json)
    requires l.Arr? && r.Arr? && !(HasIds(l.items) && HasIds(r.items))
    ensures Same(l, r) <==> |l.items| == |r.items| && forall i | 0 <= i < |l.items| :: Same(l.items[i], r.items[i])
  {
    SameIff(l, r);
    var n := Longer(l.items, r.items);
    forall i | 0 <= i < n ensures Slot(Index(i), At(l.items, i), At(r.items, i)) in Slots(l, r) {
      assert Slots(l, r)[i] == Slot(Index(i), At(l.items, i), At(r.items, i));
    }
    if Same(l, r) {
      if n > 0 { assert SameSlot(Slot(Index(n - 1), At(l.items, n - 1), At(r.items, n - 1))); }
      forall i | 0 <= i < |l.items| ensures Same(l.items[i], r.items[i]) {
        assert SameSlot(Slot(Index(i), At(l.items, i), At(r.items, i)));
      }
    }
  }

  /** Every element of l has a counterpart of the same id in r, without changes. */
  ghost predicate Covered(l: seq<Json>, r: seq<Json>) {
    forall i :: 0 <= i < |l| ==> FindId(r, IdOf(l[i])).Some? && Same(l[i], FindId(r, IdOf(l[i])).value)
  }

  ghost predicate Covers(l: seq<Json>, r: seq<Json>) {
    forall j :: 0 <= j < |r| ==> FindId(l, IdOf(r[j])).Some?
  }

  lemma SameById(l: Json, r: Json)
    requires l.Arr? && r.Arr? && HasIds(l.items) && HasIds(r.items)
    ensures Same(l, r) <==> Covered(l.items, r.items) && Covers(l.items, r.items)
  {
    SameIff(l, r);
    var a, b := l.items, r.items;
    forall i | 0 <= i < |a| ensures Slot(ById(IdOf(a[i])), Some(a[i]), FindId(b, IdOf(a[i]))) in Slots(l, r) {
      assert MatchedSlots(a, b)[i] in Slots(l, r);
    }
    if Same(l, r) {
      forall i | 0 <= i < |a| ensures FindId(b, IdOf(a[i])).Some? && Same(a[i], FindId(b, IdOf(a[i])).value) {
        assert SameSlot(Slot(ById(IdOf(a[i])), Some(a[i]), FindId(b, IdOf(a[i]))));
      }
      forall j | 0 <= j < |b| ensures FindId(a, IdOf(b[j])).Some? {
        var s := Slot(ById(IdOf(b[j])), None, Some(b[j]));
        UnmatchedMembers(a, b, s);
        assert s in Slots(l, r) ==> SameSlot(s);
      }
    }
    if Covered(a, b) && Covers(a, b) {
      forall s | s in Slots(l, r) ensures SameSlot(s) {
        UnmatchedMembers(a, b, s);
      }
    }
  }

  // ---------------------------------------------------------------- an equivalence

  /** Values without changes between them carry the same id. */
  lemma SameId(l: Json, r: Json)
    requires Same(l, r)
    ensures IdOf(l) == IdOf(r)
  {
    if l.Obj? && r.Obj? {
      SameObjects(l, r);
      SameIdFrom(l.fields, r.fields, ID_KEYS);
    }
  }

  lemma SameKind(l: Json, r: Json)
    requires Same(l, r)
    ensures SameContainer(l, r) || l == r
  {
  }

  lemma SameScalar(l: Json, r: Json)
    requires Same(l, r)
    ensures ScalarString(l) == ScalarString(r)
  {
  }

  lemma {:induction false} SameIdFrom(l: map<string, Json>, r: map<string, Json>, keys: seq<string>)
    requires l.Keys == r.Keys && forall k | k in l :: Same(l[k], r[k])
    ensures IdFrom(l, keys) == IdFrom(r, keys)
  {
    hide Diff;
    if keys != [] {
      if keys[0] in l { SameScalar(l[keys[0]], r[keys[0]]); }
      SameIdFrom(l, r, keys[1..]);
    }
  }

  /** Arrays without changes between them agree on whether the id heuristic applies. */
  lemma SameHasIds(l: Json, r: Json)
    requires l.Arr? && r.Arr? && Same(l, r)
    ensures HasIds(l.items) <==> HasIds(r.items)
  {
    if !(HasIds(l.items) && HasIds(r.items)) {
      SameByIndex(l, r);
      forall i | 0 <= i < |l.items| ensures IdOf(l.items[i]) == IdOf(r.items[i]) {
        SameId(l.items[i], r.items[i]);
      }
    }
  }

  lemma {:induction false} SameReflexive(v: Json)
    ensures Same(v, v)
  {
    if v.Obj? {
      forall k | k in v.fields ensures Same(v.fields[k], v.fields[k]) { SameReflexive(v.fields[k]); }
      SameObjects(v, v);
    } else if v.Arr? {
      forall i | 0 <= i < |v.items| ensures Same(v.items[i], v.items[i]) { SameReflexive(v.items[i]); }
      if HasIds(v.items) {
        forall i | 0 <= i < |v.items| ensures FindId(v.items, IdOf(v.items[i])) == Some(v.items[i]) {
          FindIdUnique(v.items, i);
        }
        SameById(v, v);
      } else {
        SameByIndex(v, v);
      }
    }
  }

  lemma {:induction false} SameSymmetric(l: Json, r: Json)
    requires Same(l, r)
    ensures Same(r, l)
  {
    if SameContainer(l, r) {
      SameIff(l, r);
      SameIff(r, l);
      SlotsInside(l, r);
      forall s | s in Slots(r, l) ensures SameSlot(s) {
        SlotsFlip(r, l, s);
        SameSymmetric(s.right.value, s.left.value);
      }
    }
  }

  lemma {:induction false} SameTransitive(l: Json, m: Json, r: Json)
    requires Same(l, m) && Same(m, r)
    ensures Same(l, r)
    decreases l, 1
  {
    SameKind(l, m);
    SameKind(m, r);
    hide Diff;
    if l.Obj? && m.Obj? {
      SameObjects(l, m);
      SameObjects(m, r);
      forall k | k in l.fields ensures Same(l.fields[k], r.fields[k]) {
        SameTransitive(l.fields[k], m.fields[k], r.fields[k]);
      }
      SameObjects(l, r);
    } else if l.Arr? && m.Arr? {
      SameHasIds(l, m);
      SameHasIds(m, r);
      if HasIds(l.items) {
        SameTransitiveById(l, m, r);
      } else {
        SameByIndex(l, m);
        SameByIndex(m, r);
        forall i | 0 <= i < |l.items| ensures Same(l.items[i], r.items[i]) {
          SameTransitive(l.items[i], m.items[i], r.items[i]);
        }
        SameByIndex(l, r);
      }
    }
  }

  lemma {:induction false} SameTransitiveById(l: Json, m: Json, r: Json)
    requires l.Arr? && m.Arr? && r.Arr? && Same(l, m) && Same(m, r)
    requires HasIds(l.items) && HasIds(m.items) && HasIds(r.items)
    ensures Same(l, r)
    decreases l, 0
  {
    hide Diff;
    SameById(l, m);
    SameById(m, r);
    forall i | 0 <= i < |l.items|
      ensures FindId(r.items, IdOf(l.items[i])).Some? && Same(l.items[i], FindId(r.items, IdOf(l.items[i])).value)
    {
      var x := FindId(m.items, IdOf(l.items[i])).value;
      FindIdFinds(m.items, IdOf(l.items[i]));
      var j :| 0 <= j < |m.items| && m.items[j] == x;
      SameTransitive(l.items[i], x, FindId(r.items, IdOf(x)).value);
    }
    forall k | 0 <= k < |r.items| ensures FindId(l.items, IdOf(r.items[k])).Some? {
      var x := FindId(m.items, IdOf(r.items[k])).value;
      FindIdFinds(m.items, IdOf(r.items[k]));
      var j :| 0 <= j < |m.items| && m.items[j] == x;
      assert FindId(l.items, IdOf(m.items[j])).Some?;
    }
    SameById(l, r);
  }
}
