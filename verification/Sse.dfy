/** Server-sent events: the writer, the incremental parser, and why the parser undoes the writer. */
module Sse {
  import opened Text

  datatype Event = Event(event: string, data: string, id: Option<string>)

  // ---------------------------------------------------------------- lines

  /** The pieces between newlines; always at least one. */
  function Split(s: string): (lines: seq<string>)
    ensures lines != [] && forall l | l in lines :: '\n' !in l
    decreases |s|
  {
    var i := IndexOf(s, '\n');
    if i.None? then [s] else [s[..i.value]] + Split(s[i.value + 1..])
  }

  function Join(lines: seq<string>): string {
    if lines == [] then ""
    else if |lines| == 1 then lines[0]
    else lines[0] + "\n" + Join(lines[1..])
  }

  lemma {:induction false} JoinOfSplit(s: string)
    ensures Join(Split(s)) == s
    decreases |s|
  {
    var i := IndexOf(s, '\n');
    if i.Some? {
      var head, tail := s[..i.value], s[i.value + 1..];
      JoinOfSplit(tail);
      SplitStep(s);
      hide Split, Join;
      JoinCons(head, Split(tail));
      assert s == head + "\n" + tail;
    }
  }

  lemma SplitStep(s: string)
    requires IndexOf(s, '\n').Some?
    ensures var i := IndexOf(s, '\n').value; Split(s) == [s[..i]] + Split(s[i + 1..])
  {
  }

  lemma JoinCons(head: string, rest: seq<string>)
    requires rest != []
    ensures Join([head] + rest) == head + "\n" + Join(rest)
  {
    assert ([head] + rest)[1..] == rest;
  }

  lemma {:induction false} SplitOfJoin(lines: seq<string>)
    requires lines != [] && forall l | l in lines :: '\n' !in l
    ensures Split(Join(lines)) == lines
  {
    var s := Join(lines);
    if |lines| > 1 {
      assert forall l | l in lines[1..] :: l in lines;
      SplitOfJoin(lines[1..]);
      assert s[..|lines[0]|] == lines[0] && s[|lines[0]| + 1..] == Join(lines[1..]);
      IndexIsFirst(s, '\n', |lines[0]|);
    } else {
      assert lines[0] in lines;
    }
  }

  // ---------------------------------------------------------------- the writer

  function Prefixed(prefix: string, lines: seq<string>): seq<string> {
    seq(|lines|, i requires 0 <= i < |lines| => prefix + lines[i])
  }

  /** What the server may write on a stream. */
  datatype Write = Named(name: string, data: string) | Comment(text: string) | Retry(milliseconds: nat)

  function NameLine(name: string): seq<string> { if name == "" then [] else ["event: " + name] }

  function Lines(w: Write): seq<string> {
    match w
    case Named(name, data) => NameLine(name) + Prefixed("data: ", Split(data))
    case Comment(text) => [": " + text]
    case Retry(ms) => ["retry: " + Decimal(ms)]
  }

  /** The bytes of one write: its lines, and the blank line that ends them. */
  function Wire(w: Write): string { Join(Lines(w)) + "\n\n" }

  method WriteEvent(name: string, data: string) returns (text: string)
    ensures text == Wire(Named(name, data))
  {
    text := "";
    if name != "" {
      text := "event: " + name + "\n";
    }
    ghost var head := NameLine(name);
    NameLineTerminated(name);
    var pieces := Split(data);
    hide Split, NameLine, Terminated;
    for i := 0 to |pieces|
      invariant text == Terminated(head + Prefixed("data: ", pieces[..i]))
    {
      DataStep(head, pieces, i);
      text := text + "data: " + pieces[i] + "\n";
    }
    assert pieces[..|pieces|] == pieces;
    TerminatedIsJoin(head + Prefixed("data: ", pieces));
    text := text + "\n";
    DoubleNewline(Join(head + Prefixed("data: ", pieces)));
  }

  /** The bytes of an event: the name on a line of its own unless it is empty, every line of the data after "data: ",
      and a blank line. */
  lemma EventBytes(name: string, head: string, tail: string)
    requires '\n' !in head
    ensures Wire(Named("", head)) == "data: " + head + "\n\n"
    ensures Wire(Named("", head + "\n" + tail)) == "data: " + head + "\n" + Wire(Named("", tail))
    ensures name != "" ==> Wire(Named(name, tail)) == "event: " + name + "\n" + Wire(Named("", tail))
  {
    LinesOf(head, tail);
    FirstLine("data: " + head, Lines(Named("", tail)));
    FirstLine("event: " + name, Lines(Named("", tail)));
    hide Lines, Join;
  }

  lemma FirstLine(line: string, rest: seq<string>)
    requires rest != []
    ensures Join([line]) + "\n\n" == line + "\n\n"
    ensures Join([line] + rest) + "\n\n" == line + "\n" + (Join(rest) + "\n\n")
  {
    JoinCons(line, rest);
    hide Join;
    Regroup(line + "\n", Join(rest), "\n\n");
  }

  lemma LinesOf(head: string, tail: string)
    requires '\n' !in head
    ensures Lines(Named("", head)) == ["data: " + head]
    ensures Lines(Named("", head + "\n" + tail)) == ["data: " + head] + Lines(Named("", tail))
    ensures forall name | name != "" :: Lines(Named(name, tail)) == ["event: " + name] + Lines(Named("", tail))
    ensures Lines(Named("", tail)) != []
  {
    SplitFirst(head, tail);
    hide Split;
    assert Prefixed("data: ", [head]) == ["data: " + head];
    assert Prefixed("data: ", [head] + Split(tail)) == ["data: " + head] + Prefixed("data: ", Split(tail));
    forall data ensures Lines(Named("", data)) == Prefixed("data: ", Split(data)) {
      assert [] + Prefixed("data: ", Split(data)) == Prefixed("data: ", Split(data));
    }
    hide Prefixed;
  }

  lemma SplitFirst(head: string, tail: string)
    requires '\n' !in head
    ensures Split(head) == [head] && Split(head + "\n" + tail) == [head] + Split(tail)
  {
    var all := head + "\n" + tail;
    assert all[..|head|] == head && all[|head| + 1..] == tail;
    IndexIsFirst(all, '\n', |head|);
    SplitStep(all);
    assert IndexOf(head, '\n').None?;
  }

  method WriteComment(text: string) returns (bytes: string)
    ensures bytes == Wire(Comment(text)) && bytes == ": " + text + "\n\n"
  {
    bytes := ": " + text + "\n\n";
  }

  /** The delay on the line is the one passed in. */
  method WriteRetry(milliseconds: nat) returns (bytes: string)
    ensures bytes == Wire(Retry(milliseconds)) && bytes == "retry: " + Decimal(milliseconds) + "\n\n"
    ensures (forall i :: 0 <= i < |Decimal(milliseconds)| ==> '0' <= Decimal(milliseconds)[i] <= '9')
            && ReadDecimal(Decimal(milliseconds)) == milliseconds
  {
    DecimalSays(milliseconds);
    bytes := "retry: " + Decimal(milliseconds) + "\n\n";
  }

  lemma DoubleNewline(s: string)
    ensures s + "\n" + "\n" == s + "\n\n"
  {
  }

  lemma NameLineTerminated(name: string)
    ensures Terminated(NameLine(name) + Prefixed("data: ", [])) == if name == "" then "" else "event: " + name + "\n"
  {
    if name != "" {
      var lines := NameLine(name) + Prefixed("data: ", []);
      assert lines == ["event: " + name] && lines[1..] == [];
    }
  }

  lemma DataStep(head: seq<string>, pieces: seq<string>, i: nat)
    requires i < |pieces|
    ensures Terminated(head + Prefixed("data: ", pieces[..i + 1])) ==
            Terminated(head + Prefixed("data: ", pieces[..i])) + "data: " + pieces[i] + "\n"
  {
    var before, line := head + Prefixed("data: ", pieces[..i]), "data: " + pieces[i];
    assert head + Prefixed("data: ", pieces[..i + 1]) == before + [line];
    TerminatedSnoc(before, line);
    assert Terminated(before) + line + "\n" == Terminated(before) + "data: " + pieces[i] + "\n";
  }

  /** Lines each followed by a newline. */
  function Terminated(lines: seq<string>): string {
    if lines == [] then "" else lines[0] + "\n" + Terminated(lines[1..])
  }

  lemma {:induction false} TerminatedSnoc(lines: seq<string>, last: string)
    ensures Terminated(lines + [last]) == Terminated(lines) + last + "\n"
  {
    if lines == [] {
      assert [last][1..] == [];
    } else {
      assert (lines + [last])[1..] == lines[1..] + [last];
      TerminatedSnoc(lines[1..], last);
    }
  }

  lemma {:induction false} TerminatedIsJoin(lines: seq<string>)
    requires lines != []
    ensures Terminated(lines) == Join(lines) + "\n"
  {
    if |lines| > 1 { TerminatedIsJoin(lines[1..]); } else { assert lines[1..] == []; }
  }

  // ---------------------------------------------------------------- the parser

  datatype Fields = Fields(event: string, id: Option<string>, data: seq<string>)

  const NO_FIELDS := Fields("message", None, [])

  function FieldOf(line: string): (string, string) {
    var colon := IndexOf(line, ':');
    if colon.None? then (line, "") else
      var value := line[colon.value + 1..];
      (line[..colon.value], if value != "" && value[0] == ' ' then value[1..] else value)
  }

  function Step(f: Fields, line: string): Fields {
    if line != "" && line[0] == ':' then f else
      var (field, value) := FieldOf(line);
      Take(f, field, value)
  }

  function Take(f: Fields, field: string, value: string): Fields {
    if field == "event" then f.(event := value)
    else if field == "data" then f.(data := f.data + [value])
    else if field == "id" then f.(id := Some(value))
    else f
  }

  function Fold(f: Fields, lines: seq<string>): Fields
    decreases |lines|
  {
    if lines == [] then f else Fold(Step(f, lines[0]), lines[1..])
  }

  function EventOf(f: Fields): Option<Event> {
    if f.data == [] then None else Some(Event(f.event, Join(f.data), f.id))
  }

  function FrameOf(raw: string): Option<Event> { EventOf(Fold(NO_FIELDS, Split(raw))) }

  method ParseFrame(raw: string) returns (parsed: Option<Event>)
    ensures parsed == FrameOf(raw)
  {
    var event, id, data := "message", None, [];
    var lines := Split(raw);
    for i := 0 to |lines|
      invariant Fold(NO_FIELDS, lines) == Fold(Fields(event, id, data), lines[i..])
    {
      var line := lines[i];
      assert lines[i..][1..] == lines[i + 1..];
      if line != "" && line[0] == ':' { continue; }
      var (field, value) := FieldOf(line);
      match field {
        case "event" => event := value;
        case "data" => data := data + [value];
        case "id" => id := Some(value);
        case _ =>
      }
    }
    parsed := if data == [] then None else Some(Event(event, Join(data), id));
  }

  /** How a line is read: one space after the colon is not part of the value, a field may come without a colon, and a
      comment or any other field says nothing. */
  lemma LineReads(f: Fields, field: string, value: string)
    requires ':' !in field
    ensures field == "event" ==> Step(f, field + ": " + value) == f.(event := value)
    ensures field == "data" ==> Step(f, field + ": " + value) == f.(data := f.data + [value])
    ensures field == "id" ==> Step(f, field + ": " + value) == f.(id := Some(value))
    ensures field !in {"event", "data", "id"} ==> Step(f, field + ":" + value) == f
    ensures value == "" || value[0] != ' ' ==> Step(f, field + ":" + value) == Step(f, field + ": " + value)
    ensures Step(f, field) == Step(f, field + ":")
  {
    SpacedLine(f, field, value);
    TightLine(f, field, value);
    TightLine(f, field, "");
    assert field + ":" + "" == field + ":";
    hide Step;
  }

  lemma SpacedLine(f: Fields, field: string, value: string)
    requires ':' !in field
    ensures Step(f, field + ": " + value) == Take(f, field, value) && Step(f, field) == Take(f, field, "")
  {
    var line := field + ": " + value;
    IndexIsFirst(line, ':', |field|);
    assert line[..|field|] == field && line[|field| + 1..] == " " + value && (" " + value)[1..] == value;
  }

  lemma TightLine(f: Fields, field: string, value: string)
    requires ':' !in field
    ensures var v := if value != "" && value[0] == ' ' then value[1..] else value;
            Step(f, field + ":" + value) == Take(f, field, v)
  {
    var line := field + ":" + value;
    IndexIsFirst(line, ':', |field|);
    assert line[..|field|] == field && line[|field| + 1..] == value;
  }

  predicate BlankAt(s: string, i: nat) {
    i + 1 < |s| && s[i] == '\n' && s[i + 1] == '\n'
  }

  /** Where the first blank line starts. */
  function Blank(s: string): (r: Option<nat>)
    ensures r.Some? ==> BlankAt(s, r.value) && forall i: nat :: i < r.value ==> !BlankAt(s, i)
    ensures r.None? ==> forall i: nat :: !BlankAt(s, i)
  {
    if |s| < 2 then None
    else if BlankAt(s, 0) then Some(0)
    else
      var rest := Blank(s[1..]);
      assert forall i: nat | i > 0 :: BlankAt(s, i) <==> BlankAt(s[1..], i - 1);
      if rest.None? then None else Some(rest.value + 1)
  }

  /** Takes every complete frame off a buffer; what is left holds no blank line. */
  function Drain(buffer: string): (seq<Event>, string)
    decreases |buffer|
  {
    var sep := Blank(buffer);
    if sep.None? then ([], buffer) else
      var (events, rest) := Drain(buffer[sep.value + 2..]);
      (Listed(FrameOf(buffer[..sep.value])) + events, rest)
  }

  lemma DrainFrame(buffer: string)
    requires Blank(buffer).Some?
    ensures var sep := Blank(buffer).value;
            Drain(buffer) == (Listed(FrameOf(buffer[..sep])) + Drain(buffer[sep + 2..]).0, Drain(buffer[sep + 2..]).1)
  {
  }

  class SSEParser {
    var buffer: string

    constructor ()
      ensures buffer == ""
    {
      buffer := "";
    }

    method Push(chunk: string) returns (out: seq<Event>)
      modifies this
      ensures (out, buffer) == Drain(old(buffer) + chunk)
    {
      buffer := buffer + chunk;
      out := [];
      ghost var whole := Drain(buffer);
      var sep := Blank(buffer);
      assert [] + whole.0 == whole.0;
      hide FrameOf, Drain, BlankAt;
      while sep.Some?
        invariant sep == Blank(buffer)
        invariant whole.0 == out + Drain(buffer).0 && whole.1 == Drain(buffer).1
        decreases |buffer|
      {
        FrameTaken(out, buffer);
        var parsed := ParseFrame(buffer[..sep.value]);
        buffer := buffer[sep.value + 2..];
        if parsed.Some? { out := out + [parsed.value]; }
        sep := Blank(buffer);
      }
      NothingLeft(buffer);
      assert whole.0 == out + [] == out;
    }
  }

  lemma FrameTaken(out: seq<Event>, buffer: string)
    requires Blank(buffer).Some?
    ensures var sep := Blank(buffer).value;
            var parsed, rest := FrameOf(buffer[..sep]), Drain(buffer[sep + 2..]);
            Drain(buffer).1 == rest.1
            && out + Drain(buffer).0 == (if parsed.Some? then out + [parsed.value] else out) + rest.0
  {
    DrainFrame(buffer);
  }

  lemma NothingLeft(buffer: string)
    requires Blank(buffer).None?
    ensures Drain(buffer) == ([], buffer)
  {
  }

  // ---------------------------------------------------------------- chunks do not matter

  lemma BlankStays(x: string, y: string)
    requires Blank(x).Some?
    ensures Blank(x + y) == Blank(x)
  {
    assert forall k: nat :: k + 1 < |x| ==> (BlankAt(x + y, k) <==> BlankAt(x, k));
  }

  /** Draining what has come, then what comes, drains it all: events never depend on where chunks are cut. */
  lemma {:induction false} DrainInParts(x: string, y: string)
    ensures Drain(x + y).0 == Drain(x).0 + Drain(Drain(x).1 + y).0
    ensures Drain(x + y).1 == Drain(Drain(x).1 + y).1
    decreases |x|
  {
    hide FrameOf;
    var sep := Blank(x);
    if sep.None? {
      assert Drain(x) == ([], x) && [] + Drain(x + y).0 == Drain(x + y).0;
    } else {
      var i := sep.value;
      var tail := x[i + 2..];
      BlankStays(x, y);
      assert (x + y)[..i] == x[..i] && (x + y)[i + 2..] == tail + y;
      DrainFrame(x);
      DrainFrame(x + y);
      hide Drain;
      DrainInParts(tail, y);
      Regroup(Listed(FrameOf(x[..i])), Drain(tail).0, Drain(Drain(tail).1 + y).0);
    }
  }

  lemma Regroup<T>(a: seq<T>, b: seq<T>, c: seq<T>)
    ensures a + (b + c) == a + b + c
  {
  }

  function Concat(chunks: seq<string>): string {
    if chunks == [] then "" else chunks[0] + Concat(chunks[1..])
  }

  /** Feeding chunks one by one, as the reader loop does. */
  method Feed(chunks: seq<string>) returns (out: seq<Event>, left: string)
    ensures (out, left) == Drain(Concat(chunks))
  {
    hide Drain;
    var parser := new SSEParser();
    out := [];
    ghost var seen := "";
    NothingToDrain();
    for n := 0 to |chunks|
      invariant out == Drain(seen).0 && parser.buffer == Drain(seen).1
      invariant Concat(chunks) == seen + Concat(chunks[n..])
    {
      DrainInParts(seen, chunks[n]);
      ConcatStep(chunks, n, seen);
      var events := parser.Push(chunks[n]);
      out, seen := out + events, seen + chunks[n];
    }
    left := parser.buffer;
    assert seen + "" == seen;
  }

  lemma ConcatStep(chunks: seq<string>, n: nat, seen: string)
    requires n < |chunks|
    ensures seen + Concat(chunks[n..]) == seen + chunks[n] + Concat(chunks[n + 1..])
  {
    assert chunks[n..][1..] == chunks[n + 1..];
  }

  // ---------------------------------------------------------------- reading back what was written

  predicate OneLine(s: string) { '\n' !in s }

  predicate WellFormed(w: Write) {
    match w
    case Named(name, _) => OneLine(name)
    case Comment(text) => OneLine(text)
    case Retry(_) => true
  }

  function EventName(name: string): string { if name == "" then "message" else name }

  function Expected(w: Write): seq<Event> {
    if w.Named? then [Event(EventName(w.name), w.data, None)] else []
  }

  function WireAll(ws: seq<Write>): string {
    if ws == [] then "" else Wire(ws[0]) + WireAll(ws[1..])
  }

  function ExpectedAll(ws: seq<Write>): seq<Event> {
    if ws == [] then [] else Expected(ws[0]) + ExpectedAll(ws[1..])
  }

  /** No blank line inside, and no newline at either end. */
  ghost predicate Solid(s: string) {
    && s != "" && s[0] != '\n' && s[|s| - 1] != '\n'
    && forall i: nat :: !BlankAt(s, i)
  }

  lemma {:induction false} JoinIsSolid(lines: seq<string>)
    requires lines != [] && forall l | l in lines :: l != "" && OneLine(l)
    ensures Solid(Join(lines))
  {
    assert lines[0] in lines;
    if |lines| > 1 {
      assert forall l | l in lines[1..] :: l in lines;
      JoinIsSolid(lines[1..]);
      var a, b, s := lines[0], Join(lines[1..]), Join(lines);
      assert s == a + "\n" + b;
      forall i: nat | i + 1 < |s| ensures !BlankAt(s, i) {
        if i < |a| { assert s[i] == a[i] && a[i] in a; }
        else if i > |a| { assert BlankAt(s, i) <==> BlankAt(b, i - |a| - 1); }
      }
    } else {
      var a := lines[0];
      assert forall i :: 0 <= i < |a| ==> a[i] in a;
    }
  }

  lemma SolidEnds(s: string, rest: string)
    requires Solid(s)
    ensures Blank(s + "\n\n" + rest) == Some(|s|)
  {
    var t := s + "\n\n" + rest;
    assert BlankAt(t, |s|);
    forall i: nat | i < |s| ensures !BlankAt(t, i) {
      assert t[i] == s[i];
      assert i + 1 < |s| ==> (BlankAt(t, i) <==> BlankAt(s, i));
    }
  }

  lemma LinesAreSolid(w: Write)
    requires WellFormed(w)
    ensures Lines(w) != [] && forall l | l in Lines(w) :: l != "" && OneLine(l)
  {
    if w.Named? {
      var pieces := Split(w.data);
      forall l | l in Prefixed("data: ", pieces) ensures l != "" && OneLine(l) {
        var i :| 0 <= i < |pieces| && l == "data: " + pieces[i];
        assert pieces[i] in pieces;
      }
    } else if w.Retry? {
      assert '\n' !in Decimal(w.milliseconds);
    }
  }

  lemma DataField(value: string, f: Fields)
    ensures Step(f, "data: " + value) == f.(data := f.data + [value])
  {
    var line := "data: " + value;
    assert line[..4] == "data";
    IndexIsFirst(line, ':', 4);
    assert line[5..] == " " + value && line[5..][1..] == value;
  }

  lemma EventField(value: string, f: Fields)
    ensures Step(f, "event: " + value) == f.(event := value)
  {
    var line := "event: " + value;
    assert line[..5] == "event";
    IndexIsFirst(line, ':', 5);
    assert line[6..] == " " + value && line[6..][1..] == value;
  }

  lemma RetryField(value: string, f: Fields)
    ensures Step(f, "retry: " + value) == f
  {
    var line := "retry: " + value;
    assert line[..5] == "retry";
    IndexIsFirst(line, ':', 5);
  }

  lemma {:induction false} DataFields(pieces: seq<string>, f: Fields)
    ensures Fold(f, Prefixed("data: ", pieces)) == f.(data := f.data + pieces)
    decreases |pieces|
  {
    hide Step;
    if pieces == [] {
      assert f.data + [] == f.data;
    } else {
      var rest := Prefixed("data: ", pieces)[1..];
      assert rest == Prefixed("data: ", pieces[1..]);
      DataField(pieces[0], f);
      DataFields(pieces[1..], f.(data := f.data + [pieces[0]]));
      assert f.data + [pieces[0]] + pieces[1..] == f.data + pieces;
    }
  }

  /** The lines of one write, parsed, give its event, or nothing for a comment or a retry line. */
  lemma FrameIsExpected(w: Write)
    requires WellFormed(w)
    ensures Listed(FrameOf(Join(Lines(w)))) == Expected(w)
  {
    LinesAreSolid(w);
    SplitOfJoin(Lines(w));
    hide Split, Join;
    match w {
      case Named(name, data) =>
        var pieces := Split(data);
        JoinOfSplit(data);
        if name == "" {
          assert [] + Prefixed("data: ", pieces) == Prefixed("data: ", pieces);
          DataFields(pieces, NO_FIELDS);
        } else {
          EventField(name, NO_FIELDS);
          assert Lines(w)[1..] == Prefixed("data: ", pieces);
          DataFields(pieces, NO_FIELDS.(event := name));
        }
        assert [] + pieces == pieces;
      case Comment(text) =>
        var line := ": " + text;
        assert line[0] == ':' && Step(NO_FIELDS, line) == NO_FIELDS;
        assert Lines(w) == [line] && Lines(w)[1..] == [];
        assert Fold(NO_FIELDS, [line]) == NO_FIELDS;
      case Retry(ms) =>
        var line := "retry: " + Decimal(ms);
        RetryField(Decimal(ms), NO_FIELDS);
        assert Lines(w) == [line] && Lines(w)[1..] == [];
        assert Fold(NO_FIELDS, [line]) == NO_FIELDS;
    }
  }

  lemma DrainOne(w: Write, rest: string)
    requires WellFormed(w)
    ensures Drain(Wire(w) + rest) == (Expected(w) + Drain(rest).0, Drain(rest).1)
  {
    LinesAreSolid(w);
    JoinIsSolid(Lines(w));
    FrameIsExpected(w);
    hide Lines, Split, Join, FrameOf, Expected;
    var s := Join(Lines(w));
    assert Wire(w) + rest == s + "\n\n" + rest;
    SolidEnds(s, rest);
    assert (Wire(w) + rest)[..|s|] == s && (Wire(w) + rest)[|s| + 2..] == rest;
  }

  /** Whatever the server writes, the parser reads back: those events, in order, and nothing left over. */
  lemma {:induction false} RoundTrip(ws: seq<Write>)
    requires forall w | w in ws :: WellFormed(w)
    ensures Drain(WireAll(ws)) == (ExpectedAll(ws), "")
  {
    if ws != [] {
      DrainOne(ws[0], WireAll(ws[1..]));
      RoundTrip(ws[1..]);
    }
  }

  /** A client reads exactly what was written, wherever the transport cuts the bytes. */
  method ReadBack(ws: seq<Write>, chunks: seq<string>) returns (events: seq<Event>, left: string)
    requires (forall w | w in ws :: WellFormed(w)) && Concat(chunks) == WireAll(ws)
    ensures events == ExpectedAll(ws) && left == ""
  {
    events, left := Feed(chunks);
    RoundTrip(ws);
  }

  /** At any moment in between, what has been read is a beginning of what was written. */
  lemma PartialRead(ws: seq<Write>, sofar: string, pending: string)
    requires (forall w | w in ws :: WellFormed(w)) && WireAll(ws) == sofar + pending
    ensures Drain(sofar).0 <= ExpectedAll(ws)
  {
    RoundTrip(ws);
    DrainInParts(sofar, pending);
  }

  // ---------------------------------------------------------------- names with a newline

  lemma {:induction false} FoldedName(f: Fields, lines: seq<string>)
    requires OneLine(f.event) && forall l | l in lines :: OneLine(l)
    ensures OneLine(Fold(f, lines).event)
    decreases |lines|
  {
    if lines != [] {
      assert lines[0] in lines;
      FoldedName(Step(f, lines[0]), lines[1..]);
    }
  }

  lemma {:induction false} ParsedNames(s: string)
    ensures forall e | e in Drain(s).0 :: OneLine(e.event)
    decreases |s|
  {
    var sep := Blank(s);
    if sep.Some? {
      FoldedName(NO_FIELDS, Split(s[..sep.value]));
      ParsedNames(s[sep.value + 2..]);
    }
  }

  /** An event survives the wire exactly when its name has no newline; its data may be anything. */
  lemma EventSurvivesIff(name: string, data: string)
    ensures var event := Event(if name == "" then "message" else name, data, None);
            Drain(Wire(Named(name, data))) == ([event], "") <==> '\n' !in name
  {
    hide Drain;
    var w, e := Named(name, data), Event(EventName(name), data, None);
    if OneLine(name) {
      DrainOne(w, "");
      assert Wire(w) + "" == Wire(w);
      assert Drain("") == ([], "") by { NothingToDrain(); }
      assert Expected(w) + [] == [e];
    } else {
      ParsedNames(Wire(w));
      assert e in [e];
    }
  }

  lemma NothingToDrain()
    ensures Drain("") == ([], "")
  {
  }
}
