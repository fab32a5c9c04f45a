/** The structural comparison of two decoded JSON bodies: what it reports, as values. */
module JsonDiff {
  import opened Text

  /** A decoded body. Numbers keep their token; an object is its fields, unordered. */
  datatype Json =
    | Null
    | Bool(b: bool)
    | Num(token: string)
    | Str(s: string)
    | Arr(items: seq<Json>)
    | Obj(fields: map<string, Json>)

  datatype Step = Key(key: string) | Index(i: nat) | ById(id: string)
  datatype Op = Added | Removed | Changed
  datatype Change = Change(path: seq<Step>, op: Op, before: Option<Json>, after: Option<Json>)

  // ---------------------------------------------------------------- identity of array elements

  function ScalarString(v: Json): Option<string> {
    match v
    case Str(s) => Some(s)
    case Num(token) => Some(token)
    case Bool(b) => Some(if b then "true" else "false")
    case _ => None
  }

  const ID_KEYS: seq<string> := ["id", "uuid", "key", "name"]

  /** The scalar under the first recognised key that holds one; "" when there is none. */
  function IdFrom(fields: map<string, Json>, keys: seq<string>): string {
    if keys == [] then ""
    else if keys[0] in fields && ScalarString(fields[keys[0]]).Some? then ScalarString(fields[keys[0]]).value
    else IdFrom(fields, keys[1..])
  }

  function IdOf(v: Json): string {
    if v.Obj? then IdFrom(v.fields, ID_KEYS) else ""
  }

  /** The id heuristic applies: every element carries an id and no two share one. */
  ghost predicate HasIds(items: seq<Json>) {
    && items != []
    && (forall i :: 0 <= i < |items| ==> IdOf(items[i]) != "")
    && (forall i, j :: 0 <= i < j < |items| ==> IdOf(items[i]) != IdOf(items[j]))
  }

  function FindId(items: seq<Json>, id: string): Option<Json> {
    if items == [] then None
    else if IdOf(items[0]) == id then Some(items[0])
    else FindId(items[1..], id)
  }

  lemma {:induction false} FindIdFinds(items: seq<Json>, id: string)
    ensures FindId(items, id).Some? ==> FindId(items, id).value in items && IdOf(FindId(items, id).value) == id
    ensures FindId(items, id).None? ==> forall i :: 0 <= i < |items| ==> IdOf(items[i]) != id
  {
    if items != [] { FindIdFinds(items[1..], id); }
  }

  lemma FindIdUnique(items: seq<Json>, i: nat)
    requires HasIds(items) && i < |items|
    ensures FindId(items, IdOf(items[i])) == Some(items[i])
  {
    FindIdFinds(items, IdOf(items[i]));
  }

  /** The text that a scalar counts as. */
  predicate Names(v: Json, text: string) {
    || v == Str(text)
    || v == Num(text)
    || (v == Bool(true) && text == "true")
    || (v == Bool(false) && text == "false")
  }

  predicate Nameless(fields: map<string, Json>, k: string) {
    k !in fields || fields[k].Null? || fields[k].Arr? || fields[k].Obj?
  }

  predicate NamedBy(fields: map<string, Json>, k: string, text: string) { k in fields && Names(fields[k], text) }

  /** An object's id is the scalar under "id" or else under "uuid", "key" or "name", in that order, and "" when none of
      these holds a scalar. */
  lemma IdIs(fields: map<string, Json>, text: string)
    ensures IdOf(Obj(fields)) == text <==>
              || NamedBy(fields, "id", text)
              || (Nameless(fields, "id") && NamedBy(fields, "uuid", text))
              || (Nameless(fields, "id") && Nameless(fields, "uuid") && NamedBy(fields, "key", text))
              || (Nameless(fields, "id") && Nameless(fields, "uuid") && Nameless(fields, "key")
                  && NamedBy(fields, "name", text))
              || (Nameless(fields, "id") && Nameless(fields, "uuid") && Nameless(fields, "key")
                  && Nameless(fields, "name") && text == "")
  {
    var tails := [["uuid", "key", "name"], ["key", "name"], ["name"], []];
    assert ID_KEYS[1..] == tails[0] && tails[0][1..] == tails[1];
    assert tails[1][1..] == tails[2] && tails[2][1..] == tails[3];
    assert IdFrom(fields, tails[3]) == "";
    FirstKey(fields, tails[2], text);
    FirstKey(fields, tails[1], text);
    FirstKey(fields, tails[0], text);
    FirstKey(fields, ID_KEYS, text);
  }

  lemma FirstKey(fields: map<string, Json>, keys: seq<string>, text: string)
    requires keys != []
    ensures IdFrom(fields, keys) == text <==>
              NamedBy(fields, keys[0], text) || (Nameless(fields, keys[0]) && IdFrom(fields, keys[1..]) == text)
  {
  }

  /** Anything but an object has no id. */
  lemma OnlyObjectsHaveIds(v: Json)
    ensures !v.Obj? ==> IdOf(v) == ""
  {
  }

  // ---------------------------------------------------------------- the comparison

  /** A place compared in two containers of one kind, and what each holds there. */
  datatype Slot = Slot(step: Step, left: Option<Json>, right: Option<Json>)

  function Lookup(fields: map<string, Json>, k: string): Option<Json> {
    if k in fields then Some(fields[k]) else None
  }

  function At(items: seq<Json>, i: nat): Option<Json> {
    if i < |items| then Some(items[i]) else None
  }

  function Longer(l: seq<Json>, r: seq<Json>): nat {
    if |l| >= |r| then |l| else |r|
  }

  function KeySlots(l: map<string, Json>, r: map<string, Json>, ks: seq<string>): seq<Slot> {
    seq(|ks|, i requires 0 <= i < |ks| => Slot(Key(ks[i]), Lookup(l, ks[i]), Lookup(r, ks[i])))
  }

  function IndexSlots(l: seq<Json>, r: seq<Json>): seq<Slot> {
    seq(Longer(l, r), i requires 0 <= i => Slot(Index(i), At(l, i), At(r, i)))
  }

  function MatchedSlots(l: seq<Json>, r: seq<Json>): seq<Slot> {
    seq(|l|, i requires 0 <= i < |l| => Slot(ById(IdOf(l[i])), Some(l[i]), FindId(r, IdOf(l[i]))))
  }

  /** The elements of r whose ids l does not have, in the order of r. */
  function UnmatchedSlots(l: seq<Json>, r: seq<Json>): seq<Slot> {
    if r == [] then []
    else (if FindId(l, IdOf(r[0])).None? then [Slot(ById(IdOf(r[0])), None, Some(r[0]))] else [])
         + UnmatchedSlots(l, r[1..])
  }

  predicate SameContainer(l: Json, r: Json) {
    (l.Obj? && r.Obj?) || (l.Arr? && r.Arr?)
  }

  ghost function Slots(l: Json, r: Json): seq<Slot>
    requires SameContainer(l, r)
  {
    if l.Obj? then KeySlots(l.fields, r.fields, SortedKeys(l.fields.Keys + r.fields.Keys))
    else if HasIds(l.items) && HasIds(r.items) then MatchedSlots(l.items, r.items) + UnmatchedSlots(l.items, r.items)
    else IndexSlots(l.items, r.items)
  }

  ghost predicate Inside(s: Slot, l: Json, r: Json) {
    (s.left.Some? ==> s.left.value < l) && (s.right.Some? ==> s.right.value < r)
  }

  lemma UnmatchedMembers(l: seq<Json>, r: seq<Json>, s: Slot)
    ensures s in UnmatchedSlots(l, r) <==>
            s.right.Some? && s.right.value in r && FindId(l, IdOf(s.right.value)).None? &&
            s == Slot(ById(IdOf(s.right.value)), None, s.right)
  {
    if r != [] { UnmatchedMembers(l, r[1..], s); }
  }

  lemma SlotsInside(l: Json, r: Json)
    requires SameContainer(l, r)
    ensures forall s | s in Slots(l, r) :: Inside(s, l, r)
  {
    forall s | s in Slots(l, r) ensures Inside(s, l, r) {
      if l.Arr? {
        UnmatchedMembers(l.items, r.items, s);
        if s.step.ById? { FindIdFinds(r.items, s.step.id); }
      }
    }
  }

  /** What the comparison reports, with paths relative to the pair compared. */
  ghost function Diff(l: Json, r: Json): seq<Change>
    decreases l, 1, 0
  {
    if SameContainer(l, r) then
      SlotsInside(l, r);
      DiffSlots(l, r, Slots(l, r))
    else if l == r then []
    else [Change([], Changed, Some(l), Some(r))]
  }

  ghost function DiffSlots(l: Json, r: Json, slots: seq<Slot>): seq<Change>
    requires forall s | s in slots :: Inside(s, l, r)
    decreases l, 0, |slots|
  {
    if slots == [] then []
    else Under(slots[0].step, SlotDiff(l, r, slots[0])) + DiffSlots(l, r, slots[1..])
  }

  ghost function SlotDiff(l: Json, r: Json, s: Slot): seq<Change>
    requires Inside(s, l, r)
    decreases l, 0, 0
  {
    match (s.left, s.right)
    case (Some(a), Some(b)) => Diff(a, b)
    case (Some(a), None) => [Change([], Removed, Some(a), None)]
    case (None, Some(b)) => [Change([], Added, None, Some(b))]
    case (None, None) => []
  }

  function Under(step: Step, cs: seq<Change>): seq<Change> {
    seq(|cs|, i requires 0 <= i < |cs| => cs[i].(path := [step] + cs[i].path))
  }
}
