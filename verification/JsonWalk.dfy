/** The comparison as the program runs it: walks that append to one list, and the sorted report. */
module JsonWalk {
  import opened Text
  import opened JsonDiff
  import opened JsonDiffLaws
  import opened JsonEquality
  import opened JsonPatch

  // ---------------------------------------------------------------- rendered paths and their order

  function RenderStep(path: string, s: Step): string {
    match s
    case Key(k) => if path == "" then k else path + "." + k
    case Index(i) => path + "[" + Decimal(i) + "]"
    case ById(id) => path + "[id=" + id + "]"
  }

  function Render(path: seq<Step>): string {
    if path == [] then "" else RenderStep(Render(path[..|path| - 1]), path[|path| - 1])
  }

  /** A path as a reader sees it, such as "orders[2].lines[id=x]". */
  lemma RenderSays(path: seq<Step>, k: string, i: nat, id: string)
    ensures Render([]) == ""
    ensures Render(path + [Key(k)]) == (if Render(path) == "" then "" else Render(path) + ".") + k
    ensures Render(path + [Index(i)]) == Render(path) + "[" + Decimal(i) + "]"
    ensures Render(path + [ById(id)]) == Render(path) + "[id=" + id + "]"
  {
    assert forall s: Step :: (path + [s])[..|path|] == path;
    assert "" + k == k;
  }

  ghost predicate AscendingByPath(cs: seq<Change>) {
    forall i, j :: 0 <= i < j < |cs| ==> Leq(Render(cs[i].path), Render(cs[j].path))
  }

  function InsertByPath(c: Change, cs: seq<Change>): (r: seq<Change>)
    ensures multiset(r) == multiset(cs) + multiset{c}
  {
    if cs == [] || Leq(Render(c.path), Render(cs[0].path)) then [c] + cs
    else
      assert cs == [cs[0]] + cs[1..];
      [cs[0]] + InsertByPath(c, cs[1..])
  }

  /** sort.SliceStable by rendered path. */
  function SortChanges(cs: seq<Change>): (r: seq<Change>)
    ensures multiset(r) == multiset(cs)
  {
    if cs == [] then [] else
      assert cs == [cs[0]] + cs[1..];
      InsertByPath(cs[0], SortChanges(cs[1..]))
  }

  lemma {:induction false} InsertKeepsPathOrder(c: Change, cs: seq<Change>)
    requires AscendingByPath(cs)
    ensures AscendingByPath(InsertByPath(c, cs))
  {
    hide Render;
    if cs == [] {
    } else if Leq(Render(c.path), Render(cs[0].path)) {
      forall i | 0 <= i < |cs| ensures Leq(Render(c.path), Render(cs[i].path)) {
        if i > 0 { LeqTransitive(Render(c.path), Render(cs[0].path), Render(cs[i].path)); }
      }
    } else {
      LeqTotal(Render(c.path), Render(cs[0].path));
      InsertKeepsPathOrder(c, cs[1..]);
      var tail := InsertByPath(c, cs[1..]);
      forall x | x in tail ensures Leq(Render(cs[0].path), Render(x.path)) {
        assert x in multiset(tail);
        assert x == c || x in cs[1..];
      }
    }
  }

  function WithPath(cs: seq<Change>, p: string): seq<Change> {
    if cs == [] then [] else (if Render(cs[0].path) == p then [cs[0]] else []) + WithPath(cs[1..], p)
  }

  lemma {:induction false} InsertIsStable(c: Change, cs: seq<Change>, p: string)
    ensures WithPath(InsertByPath(c, cs), p) == WithPath([c], p) + WithPath(cs, p)
  {
    hide Render, Leq;
    if cs == [] || Leq(Render(c.path), Render(cs[0].path)) {
      assert ([c] + cs)[1..] == cs && [c][1..] == [];
    } else {
      InsertIsStable(c, cs[1..], p);
      LeqRefl(Render(c.path));
      assert [c][1..] == [];
    }
  }

  /** The report is in ascending order of rendered path. */
  lemma {:induction false} SortOrders(cs: seq<Change>)
    ensures AscendingByPath(SortChanges(cs))
  {
    hide Render, InsertByPath;
    if cs != [] {
      SortOrders(cs[1..]);
      InsertKeepsPathOrder(cs[0], SortChanges(cs[1..]));
    }
  }

  /** Changes whose paths are rendered alike keep the order of the walk. */
  lemma {:induction false} SortIsStable(cs: seq<Change>, p: string)
    ensures WithPath(SortChanges(cs), p) == WithPath(cs, p)
  {
    hide Render, InsertByPath;
    if cs != [] {
      var c, rest := cs[0], SortChanges(cs[1..]);
      SortIsStable(cs[1..], p);
      InsertIsStable(c, rest, p);
      SortFirst(cs);
      WithPathFirst(cs, p);
      hide SortChanges, WithPath;
    }
  }

  lemma SortFirst(cs: seq<Change>)
    requires cs != []
    ensures SortChanges(cs) == InsertByPath(cs[0], SortChanges(cs[1..]))
  {
    hide Render, InsertByPath;
  }

  lemma WithPathFirst(cs: seq<Change>, p: string)
    requires cs != []
    ensures WithPath(cs, p) == WithPath([cs[0]], p) + WithPath(cs[1..], p)
  {
    hide Render;
    assert [cs[0]][1..] == [];
  }

  // ---------------------------------------------------------------- identity of elements

  method Identity(fields: map<string, Json>) returns (id: string)
    ensures id == IdFrom(fields, ID_KEYS)
  {
    id := "";
    for n := 0 to |ID_KEYS|
      invariant id == "" && IdFrom(fields, ID_KEYS) == IdFrom(fields, ID_KEYS[n..])
    {
      var key := ID_KEYS[n];
      if key in fields {
        var s := ScalarString(fields[key]);
        if s.Some? {
          id := s.value;
          break;
        }
      }
      assert ID_KEYS[n..][1..] == ID_KEYS[n + 1..];
    }
  }

  /** elementIDs: every element's id, or false when the heuristic does not apply. */
  method ElementIDs(items: seq<Json>) returns (ids: seq<string>, ok: bool)
    ensures ok <==> HasIds(items)
    ensures ok ==> |ids| == |items| && forall i :: 0 <= i < |items| ==> ids[i] == IdOf(items[i])
  {
    ids, ok := [], false;
    if items == [] { return; }
    var seen: set<string> := {};
    for n := 0 to |items|
      invariant |ids| == n && forall i :: 0 <= i < n ==> ids[i] == IdOf(items[i]) && ids[i] != ""
      invariant forall i, j :: 0 <= i < j < n ==> ids[i] != ids[j]
      invariant forall id :: id in seen <==> id in ids
    {
      if !items[n].Obj? { return [], false; }
      var id := Identity(items[n].fields);
      assert id == IdOf(items[n]);
      if id == "" || id in seen {
        if id in seen {
          var i :| 0 <= i < n && ids[i] == id;
          assert IdOf(items[i]) == IdOf(items[n]);
        }
        return [], false;
      }
      seen := seen + {id};
      ids := ids + [id];
    }
    ok := true;
  }

  // ---------------------------------------------------------------- the walks

  /** The list the walks append to. */
  class Report {
    var changes: seq<Change>

    constructor ()
      ensures changes == []
    {
      changes := [];
    }

    method Append(c: Change)
      modifies this
      ensures changes == old(changes) + [c]
    {
      changes := changes + [c];
    }
  }

  function Rooted(path: seq<Step>, cs: seq<Change>): seq<Change> {
    seq(|cs|, i requires 0 <= i < |cs| => cs[i].(path := path + cs[i].path))
  }

  lemma RootedUnder(path: seq<Step>, s: Step, cs: seq<Change>)
    ensures Rooted(path + [s], cs) == Rooted(path, Under(s, cs))
  {
    forall i | 0 <= i < |cs| ensures Rooted(path + [s], cs)[i] == Rooted(path, Under(s, cs))[i] {
      assert path + [s] + cs[i].path == path + ([s] + cs[i].path);
    }
  }

  lemma {:induction false} SlotsAppend(l: Json, r: Json, a: seq<Slot>, b: seq<Slot>)
    requires forall s | s in a + b :: Inside(s, l, r)
    ensures DiffSlots(l, r, a + b) == DiffSlots(l, r, a) + DiffSlots(l, r, b)
  {
    hide SlotDiff;
    if a == [] {
      assert a + b == b;
    } else {
      assert (a + b)[1..] == a[1..] + b;
      SlotsAppend(l, r, a[1..], b);
    }
  }

  /** Every slot lies inside the pair compared, and is filled on one side at least. */
  ghost predicate Comparable(slots: seq<Slot>, l: Json, r: Json) {
    forall s | s in slots :: Inside(s, l, r) && (s.left.Some? || s.right.Some?)
  }

  /** What the first n slots contribute, at full paths. */
  ghost function Reported(path: seq<Step>, l: Json, r: Json, slots: seq<Slot>, n: nat): seq<Change>
    requires n <= |slots| && Comparable(slots, l, r)
  {
    assert forall s | s in slots[..n] :: s in slots;
    Rooted(path, DiffSlots(l, r, slots[..n]))
  }

  lemma ReportedNone(path: seq<Step>, l: Json, r: Json, slots: seq<Slot>)
    requires Comparable(slots, l, r)
    ensures Reported(path, l, r, slots, 0) == []
  {
    assert slots[..0] == [];
  }

  lemma ReportedAll(path: seq<Step>, l: Json, r: Json)
    requires SameContainer(l, r)
    ensures Comparable(Slots(l, r), l, r)
    ensures Reported(path, l, r, Slots(l, r), |Slots(l, r)|) == Rooted(path, Diff(l, r))
  {
    SlotsInside(l, r);
    SlotsFilled(l, r);
    hide Slots;
    assert Slots(l, r)[..|Slots(l, r)|] == Slots(l, r);
  }

  lemma ReportedStep(path: seq<Step>, l: Json, r: Json, slots: seq<Slot>, n: nat)
    requires n < |slots| && Comparable(slots, l, r)
    ensures Inside(slots[n], l, r) && (slots[n].left.Some? || slots[n].right.Some?)
    ensures Reported(path, l, r, slots, n + 1)
         == Reported(path, l, r, slots, n) + Rooted(path + [slots[n].step], SlotDiff(l, r, slots[n]))
  {
    hide SlotDiff;
    var s := slots[n];
    assert s in slots;
    var before, one := slots[..n], [s];
    assert slots[..n + 1] == before + one;
    SlotsAppend(l, r, before, one);
    assert one[1..] == [];
    assert DiffSlots(l, r, one) == Under(s.step, SlotDiff(l, r, s));
    RootedUnder(path, s.step, SlotDiff(l, r, s));
    RootedAppend(path, DiffSlots(l, r, before), DiffSlots(l, r, one));
  }

  lemma RootedAppend(path: seq<Step>, a: seq<Change>, b: seq<Change>)
    ensures Rooted(path, a + b) == Rooted(path, a) + Rooted(path, b)
  {
  }

  /** A change of a whole value, at the place of that value. */
  lemma RootedHere(path: seq<Step>, op: Op, before: Option<Json>, after: Option<Json>)
    ensures Rooted(path, [Change([], op, before, after)]) == [Change(path, op, before, after)]
    ensures Rooted(path, []) == []
  {
    assert path + [] == path;
  }

  method Walk(path: seq<Step>, l: Json, r: Json, out: Report)
    modifies out
    ensures out.changes == old(out.changes) + Rooted(path, Diff(l, r))
    decreases l, 1
  {
    RootedHere(path, Changed, Some(l), Some(r));
    if l.Obj? && r.Obj? {
      WalkObjects(path, l, r, out);
    } else if l.Arr? && r.Arr? {
      WalkArrays(path, l, r, out);
    } else if l.Obj? || l.Arr? || l != r {
      out.Append(Change(path, Changed, Some(l), Some(r)));
    }
  }

  /** Records one slot, as each walk does: removed, added, or walked into. */
  method WalkSlot(path: seq<Step>, l: Json, r: Json, s: Slot, out: Report)
    requires Inside(s, l, r) && (s.left.Some? || s.right.Some?)
    modifies out
    ensures out.changes == old(out.changes) + Rooted(path + [s.step], SlotDiff(l, r, s))
    decreases l, 0, 0
  {
    RootedHere(path + [s.step], Removed, s.left, None);
    RootedHere(path + [s.step], Added, None, s.right);
    if s.right.None? {
      out.Append(Change(path + [s.step], Removed, s.left, None));
    } else if s.left.None? {
      out.Append(Change(path + [s.step], Added, None, s.right));
    } else {
      Walk(path + [s.step], s.left.value, s.right.value, out);
    }
  }

  /** One turn of a walk's loop: slot n is recorded after the slots before it. */
  method WalkTurn(path: seq<Step>, l: Json, r: Json, s: Slot, out: Report, ghost base: seq<Change>,
          ghost slots: seq<Slot>, ghost n: nat)
    requires Comparable(slots, l, r) && n < |slots| && s == slots[n]
    requires out.changes == base + Reported(path, l, r, slots, n)
    modifies out
    ensures out.changes == base + Reported(path, l, r, slots, n + 1)
    decreases l, 0, 1
  {
    hide Reported, SlotDiff, Rooted, Comparable, Inside, Diff, DiffSlots;
    ReportedStep(path, l, r, slots, n);
    Regroup(base, Reported(path, l, r, slots, n), Rooted(path + [s.step], SlotDiff(l, r, s)));
    WalkSlot(path, l, r, s, out);
  }

  lemma Regroup(base: seq<Change>, a: seq<Change>, b: seq<Change>)
    ensures base + a + b == base + (a + b)
  {
  }

  method WalkObjects(path: seq<Step>, l: Json, r: Json, out: Report)
    requires l.Obj? && r.Obj?
    modifies out
    ensures out.changes == old(out.changes) + Rooted(path, Diff(l, r))
    decreases l, 0, 3
  {
    var keys := SortedUnion(l.fields, r.fields);
    ReportedAll(path, l, r);
    assert Slots(l, r) == KeySlots(l.fields, r.fields, keys);
    hide Slots, Diff, SortedKeys, Reported, Comparable, Rooted;
    WalkKeys(path, l, r, keys, out);
  }

  method WalkKeys(path: seq<Step>, l: Json, r: Json, keys: seq<string>, out: Report)
    requires l.Obj? && r.Obj? && Comparable(KeySlots(l.fields, r.fields, keys), l, r)
    modifies out
    ensures out.changes == old(out.changes) + Reported(path, l, r, KeySlots(l.fields, r.fields, keys), |keys|)
    decreases l, 0, 2
  {
    ghost var slots := KeySlots(l.fields, r.fields, keys);
    hide Reported, Comparable, SlotDiff, Rooted;
    ReportedNone(path, l, r, slots);
    for n := 0 to |keys|
      invariant out.changes == old(out.changes) + Reported(path, l, r, slots, n)
    {
      var s := Slot(Key(keys[n]), Lookup(l.fields, keys[n]), Lookup(r.fields, keys[n]));
      WalkTurn(path, l, r, s, out, old(out.changes), slots, n);
    }
  }

  /** The union of both key sets, sorted: the order in which maps are iterated leaves no trace. */
  method SortedUnion(l: map<string, Json>, r: map<string, Json>) returns (keys: seq<string>)
    ensures keys == SortedKeys(l.Keys + r.Keys)
  {
    keys := AppendKeys([], l.Keys, {});
    keys := AppendKeys(keys, r.Keys, l.Keys);
    SortedIsCanonical(keys);
    keys := Sorted(keys);
  }

  method WalkArrays(path: seq<Step>, l: Json, r: Json, out: Report)
    requires l.Arr? && r.Arr?
    modifies out
    ensures out.changes == old(out.changes) + Rooted(path, Diff(l, r))
    decreases l, 0, 4
  {
    var lIDs, lok := ElementIDs(l.items);
    var rIDs, rok := ElementIDs(r.items);
    if lok && rok {
      WalkArraysByID(path, l, r, lIDs, rIDs, out);
    } else {
      WalkArraysByIndex(path, l, r, out);
    }
  }

  method WalkArraysByIndex(path: seq<Step>, l: Json, r: Json, out: Report)
    requires l.Arr? && r.Arr? && !(HasIds(l.items) && HasIds(r.items))
    modifies out
    ensures out.changes == old(out.changes) + Rooted(path, Diff(l, r))
    decreases l, 0, 3
  {
    ReportedAll(path, l, r);
    assert Slots(l, r) == IndexSlots(l.items, r.items);
    hide Slots, Diff, HasIds, Reported, Comparable, Rooted;
    WalkPlaces(path, l, r, out);
  }

  method WalkPlaces(path: seq<Step>, l: Json, r: Json, out: Report)
    requires l.Arr? && r.Arr? && Comparable(IndexSlots(l.items, r.items), l, r)
    modifies out
    ensures out.changes ==
            old(out.changes) + Reported(path, l, r, IndexSlots(l.items, r.items), Longer(l.items, r.items))
    decreases l, 0, 2
  {
    ghost var slots := IndexSlots(l.items, r.items);
    hide Reported, Comparable, SlotDiff, Rooted;
    ReportedNone(path, l, r, slots);
    var longer := Longer(l.items, r.items);
    for i := 0 to longer
      invariant out.changes == old(out.changes) + Reported(path, l, r, slots, i)
    {
      var s := Slot(Index(i), At(l.items, i), At(r.items, i));
      WalkTurn(path, l, r, s, out, old(out.changes), slots, i);
    }
  }

  /** rByID: where each id stands. */
  method IndexIds(ids: seq<string>) returns (byId: map<string, nat>)
    requires Distinct(ids)
    ensures forall id :: id in byId <==> id in ids
    ensures forall i :: 0 <= i < |ids| ==> byId[ids[i]] == i
  {
    byId := map[];
    for i := 0 to |ids|
      invariant forall id :: id in byId <==> id in ids[..i]
      invariant forall j :: 0 <= j < i ==> ids[j] in ids[..i] && byId[ids[j]] == j
    {
      byId := byId[ids[i] := i];
    }
  }

  ghost predicate AreIds(ids: seq<string>, items: seq<Json>) {
    |ids| == |items| && forall i :: 0 <= i < |ids| ==> ids[i] == IdOf(items[i])
  }

  lemma LeftHasId(items: seq<Json>, ids: seq<string>, id: string)
    requires AreIds(ids, items)
    ensures id in ids <==> FindId(items, id).Some?
  {
    FindIdFinds(items, id);
    if FindId(items, id).Some? {
      var j :| 0 <= j < |items| && items[j] == FindId(items, id).value;
      assert ids[j] == id;
    }
  }

  /** Looking an id up in the index is finding the element that carries it. */
  lemma IndexFinds(items: seq<Json>, ids: seq<string>, byId: map<string, nat>, id: string)
    requires HasIds(items) && AreIds(ids, items)
    requires forall x :: x in byId <==> x in ids
    requires forall i :: 0 <= i < |ids| ==> byId[ids[i]] == i
    ensures id in byId <==> FindId(items, id).Some?
    ensures id in byId ==> byId[id] < |items| && FindId(items, id) == Some(items[byId[id]])
  {
    LeftHasId(items, ids, id);
    if id in byId {
      var i :| 0 <= i < |ids| && ids[i] == id;
      FindIdUnique(items, i);
    }
  }

  lemma {:induction false} UnmatchedSnoc(l: seq<Json>, r: seq<Json>, y: Json)
    ensures UnmatchedSlots(l, r + [y]) == UnmatchedSlots(l, r) +
              (if FindId(l, IdOf(y)).None? then [Slot(ById(IdOf(y)), None, Some(y))] else [])
  {
    hide FindId, IdOf;
    if r == [] {
      assert [y][1..] == [] && r + [y] == [y];
    } else {
      var last := if FindId(l, IdOf(y)).None? then [Slot(ById(IdOf(y)), None, Some(y))] else [];
      var first := if FindId(l, IdOf(r[0])).None? then [Slot(ById(IdOf(r[0])), None, Some(r[0]))] else [];
      assert (r + [y])[1..] == r[1..] + [y];
      UnmatchedSnoc(l, r[1..], y);
      assert first + (UnmatchedSlots(l, r[1..]) + last) == first + UnmatchedSlots(l, r[1..]) + last;
    }
  }

  method WalkArraysByID(path: seq<Step>, l: Json, r: Json, lIDs: seq<string>, rIDs: seq<string>, out: Report)
    requires l.Arr? && r.Arr? && HasIds(l.items) && HasIds(r.items)
    requires AreIds(lIDs, l.items) && AreIds(rIDs, r.items)
    modifies out
    ensures out.changes == old(out.changes) + Rooted(path, Diff(l, r))
    decreases l, 0, 3
  {
    var rByID := IndexIds(rIDs);
    ghost var slots := Slots(l, r);
    ReportedAll(path, l, r);
    assert slots == MatchedSlots(l.items, r.items) + UnmatchedSlots(l.items, r.items);
    forall id
      ensures id in rByID <==> FindId(r.items, id).Some?
      ensures id in rByID ==> rByID[id] < |r.items| && FindId(r.items, id) == Some(r.items[rByID[id]])
    {
      IndexFinds(r.items, rIDs, rByID, id);
    }
    hide Slots, Diff, HasIds, DiffSlots, Reported, Comparable, FindId, IdOf;
    var matched := AppendMatched(path, l, r, slots, lIDs, rByID, out);
    AppendUnmatched(path, l, r, slots, rIDs, matched, out, old(out.changes));
  }

  ghost predicate Indexes(byId: map<string, nat>, items: seq<Json>) {
    forall id :: (id in byId <==> FindId(items, id).Some?)
              && (id in byId ==> byId[id] < |items| && FindId(items, id) == Some(items[byId[id]]))
  }

  /** The first loop of walkArraysByID: what l has, found in r or not. */
  method AppendMatched(path: seq<Step>, l: Json, r: Json, ghost slots: seq<Slot>,
                       lIDs: seq<string>, rByID: map<string, nat>, out: Report) returns (matched: set<string>)
    requires l.Arr? && r.Arr? && AreIds(lIDs, l.items) && Indexes(rByID, r.items)
    requires slots == MatchedSlots(l.items, r.items) + UnmatchedSlots(l.items, r.items)
    requires Comparable(slots, l, r)
    modifies out
    ensures out.changes == old(out.changes) + Reported(path, l, r, slots, |l.items|)
    ensures forall id :: id in matched <==> id in rByID && FindId(l.items, id).Some?
    decreases l, 0, 2
  {
    hide IdOf, FindId, Reported, Comparable, SlotDiff, Rooted, UnmatchedSlots;
    ReportedNone(path, l, r, slots);
    matched := {};
    for i := 0 to |lIDs|
      invariant out.changes == old(out.changes) + Reported(path, l, r, slots, i)
      invariant forall id :: id in matched <==> id in rByID && id in lIDs[..i]
    {
      var id := lIDs[i];
      var s := Slot(ById(id), Some(l.items[i]), if id in rByID then Some(r.items[rByID[id]]) else None);
      if id in rByID { matched := matched + {id}; }
      WalkTurn(path, l, r, s, out, old(out.changes), slots, i);
    }
    assert lIDs[..|lIDs|] == lIDs;
    forall id ensures id in lIDs <==> FindId(l.items, id).Some? { LeftHasId(l.items, lIDs, id); }
  }

  /** The second loop of walkArraysByID: what r has and l does not. */
  method AppendUnmatched(path: seq<Step>, l: Json, r: Json, ghost slots: seq<Slot>,
                         rIDs: seq<string>, matched: set<string>, out: Report, ghost base: seq<Change>)
    requires l.Arr? && r.Arr? && AreIds(rIDs, r.items)
    requires slots == MatchedSlots(l.items, r.items) + UnmatchedSlots(l.items, r.items)
    requires Comparable(slots, l, r)
    requires forall i :: 0 <= i < |rIDs| ==> (rIDs[i] in matched <==> FindId(l.items, rIDs[i]).Some?)
    requires out.changes == base + Reported(path, l, r, slots, |l.items|)
    modifies out
    ensures out.changes == base + Reported(path, l, r, slots, |slots|)
    decreases l, 0, 2
  {
    hide IdOf, FindId, Reported, Comparable, SlotDiff, Rooted;
    ghost var n := |l.items|;
    for j := 0 to |rIDs|
      invariant n == |l.items| + |UnmatchedSlots(l.items, r.items[..j])| <= |slots|
      invariant out.changes == base + Reported(path, l, r, slots, n)
    {
      ghost var y := r.items[j];
      assert r.items[..j + 1] == r.items[..j] + [y];
      UnmatchedSnoc(l.items, r.items[..j], y);
      UnmatchedPrefix(l.items, r.items, j + 1);
      if rIDs[j] !in matched {
        var s := Slot(ById(rIDs[j]), None, Some(r.items[j]));
        assert s == slots[n];
        WalkTurn(path, l, r, s, out, base, slots, n);
        n := n + 1;
      }
    }
    assert r.items[..|rIDs|] == r.items;
  }

  lemma {:induction false} UnmatchedPrefix(l: seq<Json>, r: seq<Json>, n: nat)
    requires n <= |r|
    ensures UnmatchedSlots(l, r[..n]) <= UnmatchedSlots(l, r)
    decreases |r| - n
  {
    if n < |r| {
      assert r[..n + 1] == r[..n] + [r[n]];
      UnmatchedSnoc(l, r[..n], r[n]);
      UnmatchedPrefix(l, r, n + 1);
    } else {
      assert r[..n] == r;
    }
  }

  // ---------------------------------------------------------------- the whole comparison

  datatype Result =
    | Structural(changes: seq<Change>, identical: bool)
    | AsBytes(identical: bool, before: string, after: string)

  function Decode(body: string, parse: string -> Option<Json>): Option<Json> {
    if body == "" then None else parse(body)
  }

  /** Bodies: a structural report when both sides are JSON, a byte comparison otherwise. */
  method Bodies(left: string, right: string, parse: string -> Option<Json>) returns (result: Result)
    ensures result.Structural? <==> Decode(left, parse).Some? && Decode(right, parse).Some?
    ensures result.AsBytes? ==> result.before == left && result.after == right && (result.identical <==> left == right)
    ensures result.Structural? ==>
              var l, r := Decode(left, parse).value, Decode(right, parse).value;
              && result.changes == SortChanges(Diff(l, r))
              && (result.identical <==> Equal(l, r))
              && Patch(l, result.changes).Some? && Equal(Patch(l, result.changes).value, r)
  {
    var l, r := Decode(left, parse), Decode(right, parse);
    if l.None? || r.None? {
      return AsBytes(left == right, left, right);
    }
    hide Diff, Patch, Equal, SortChanges, Rooted;
    var out := new Report();
    Walk([], l.value, r.value, out);
    RootedAtTop(Diff(l.value, r.value));
    assert out.changes == Diff(l.value, r.value);
    var changes := SortChanges(out.changes);
    IdenticalIffEqual(l.value, r.value);
    ReportIsPatch(l.value, r.value, changes);
    SameLength(changes, out.changes);
    result := Structural(changes, |changes| == 0);
  }

  lemma RootedAtTop(cs: seq<Change>)
    ensures [] + Rooted([], cs) == cs
  {
    forall i | 0 <= i < |cs| ensures Rooted([], cs)[i] == cs[i] {
      assert [] + cs[i].path == cs[i].path;
    }
  }

  lemma SameLength(cs: seq<Change>, ds: seq<Change>)
    requires multiset(cs) == multiset(ds)
    ensures |cs| == |ds|
  {
    assert |multiset(cs)| == |cs| && |multiset(ds)| == |ds|;
  }

  /** The report, in whatever order, turns the left value into one equal to the right. */
  lemma ReportIsPatch(l: Json, r: Json, cs: seq<Change>)
    requires multiset(cs) == multiset(Diff(l, r))
    ensures Patch(l, cs).Some? && Equal(Patch(l, cs).value, r)
  {
    DiffPrefixFree(l, r);
    PrefixFreeDistinct(Diff(l, r));
    DistinctByCount(Diff(l, r));
    DistinctByCount(cs);
    hide Diff, Patch, Equal;
    forall c ensures c in cs <==> c in Diff(l, r) {
      assert (c in cs <==> c in multiset(cs)) && (c in Diff(l, r) <==> c in multiset(Diff(l, r)));
    }
    PatchGivesRight(l, r, cs);
    IdenticalIffEqual(Patch(l, cs).value, r);
  }
}
