/** From the sender's bytes to the provider's answer: bounded reading, forwarding, and what is recorded. */
module Capture {
  import opened Text
  import Tunnel
  import TunnelRuns

  type Bytes = seq<bv8>

  const DEFAULT_MAX_BODY: int := 1_048_576

  // ---------------------------------------------------------------- reading the body

  /** How a stream ends: properly, with an error after the chunks, or with one that comes with the end of the last. */
  datatype End = Proper | ErrorAfter | ErrorWith

  /** What a sender's stream yields, read by read. */
  datatype Stream = Stream(chunks: seq<Bytes>, end: End)

  function All(chunks: seq<Bytes>): Bytes {
    if chunks == [] then [] else chunks[0] + All(chunks[1..])
  }

  /** Nothing of the chunks is left out, and nothing else is in. */
  lemma {:induction false} AllOfThem(before: seq<Bytes>, chunk: Bytes, after: seq<Bytes>)
    ensures All(before + [chunk] + after) == All(before) + chunk + All(after) && All([]) == []
  {
    var chunks := before + [chunk] + after;
    if before == [] {
      assert chunks[0] == chunk && chunks[1..] == after;
    } else {
      assert chunks[0] == before[0] && chunks[1..] == before[1..] + [chunk] + after;
      AllOfThem(before[1..], chunk, after);
    }
  }

  /** The error comes before one byte more than the limit has been read, or with that very byte; afterwards nothing
      more is read. */
  predicate Fails(s: Stream, maxBody: nat) {
    match s.end
    case Proper => false
    case ErrorAfter => |All(s.chunks)| <= maxBody
    case ErrorWith =>
      |All(s.chunks)| <= maxBody
      || (|All(s.chunks)| == maxBody + 1 && s.chunks != [] && s.chunks[|s.chunks| - 1] != [])
  }

  lemma {:induction false} NothingAtTheEnd(chunks: seq<Bytes>)
    requires chunks != [] && All(chunks) == []
    ensures chunks[|chunks| - 1] == []
  {
    if |chunks| > 1 { NothingAtTheEnd(chunks[1..]); }
  }

  datatype Read = Read(body: Bytes, truncated: bool, failed: bool)

  function Limit(maxBody: int): nat { if maxBody <= 0 then DEFAULT_MAX_BODY else maxBody }

  predicate Prefix(a: Bytes, b: Bytes) { |a| <= |b| && a == b[..|a|] }

  /** readBody: one byte more than the limit is asked for, so that "exactly at the limit" and "over it" differ.
      The body is the longest prefix within the limit, and truncated says exactly that more was sent; an error of the
      stream is seen only if it comes before the limit is passed, or with the byte that passes it. */
  method ReadBody(s: Stream, maxBody: nat) returns (r: Read)
    ensures !r.failed ==> Prefix(r.body, All(s.chunks))
    ensures !r.failed ==> |r.body| == (if |All(s.chunks)| <= maxBody then |All(s.chunks)| else maxBody)
    ensures !r.failed ==> (r.truncated <==> |All(s.chunks)| > maxBody)
    ensures r.failed <==> Fails(s, maxBody)
    ensures s.end.Proper? ==> !r.failed
    ensures s.end.ErrorAfter? ==> (r.failed <==> |All(s.chunks)| <= maxBody)
    ensures s.end.ErrorWith? ==>
              (r.failed <==>
               |All(s.chunks)| <= maxBody
               || (|All(s.chunks)| == maxBody + 1 && s.chunks != [] && s.chunks[|s.chunks| - 1] != []))
    ensures r.failed ==> r.body == All(s.chunks) && (r.truncated <==> |All(s.chunks)| > maxBody)
  {
    var body: Bytes := [];
    var i := 0;
    var whole := true;
    while i < |s.chunks| && |body| < maxBody + 1
      invariant i <= |s.chunks| && |body| <= maxBody + 1
      invariant |body| < maxBody + 1 ==> All(s.chunks) == body + All(s.chunks[i..])
      invariant |body| == maxBody + 1 ==> Prefix(body, All(s.chunks))
      invariant |body| == maxBody + 1 ==> i > 0 && s.chunks[i - 1] != []
      invariant |body| + |All(s.chunks[i..])| <= |All(s.chunks)|
      invariant whole <==> |body| == |All(s.chunks)| - |All(s.chunks[i..])|
    {
      var chunk := s.chunks[i];
      var room := maxBody + 1 - |body|;
      assert s.chunks[i..][1..] == s.chunks[i + 1..];
      ghost var rest := All(s.chunks[i + 1..]);
      assert All(s.chunks) == body + (chunk + rest) == body + chunk + rest;
      var taken := if |chunk| <= room then chunk else chunk[..room];
      body := body + taken;
      whole := |taken| == |chunk|;
      assert Prefix(body, All(s.chunks)) by {
        assert chunk[..|taken|] == taken;
      }
      i := i + 1;
    }
    if i == |s.chunks| {
      assert s.chunks[i..] == [];
    } else if All(s.chunks[i..]) == [] {
      NothingAtTheEnd(s.chunks[i..]);
    }
    // The last chunk, read to its end, may bring the error with it.
    if s.end.ErrorWith? && i == |s.chunks| && whole {
      assert |body| == |All(s.chunks)|;
      return Read(body, |body| > maxBody, true);
    }
    if |body| <= maxBody {
      assert All(s.chunks) == body + [];
      return Read(body, false, s.end.ErrorAfter?);
    }
    r := Read(body[..maxBody], true, false);
  }

  // ---------------------------------------------------------------- forwarding

  datatype TunnelError = NoTunnel | TimedOut | Disconnected | Overloaded | Other

  /** body is None when the peer's encoding of it cannot be undone. */
  datatype Response = Response(status: int, body: Option<Bytes>, error: string)

  /** What the tunnel does with a request: an error, or an answer from the peer. */
  datatype TunnelResult = Failed(e: TunnelError) | Replied(resp: Response)

  datatype Outcome = Outcome(status: int, error: string, elapsed: int)

  const NO_OUTCOME := Outcome(0, "", 0)

  datatype Captured = Captured(body: Bytes, truncated: bool)

  function ErrorCode(e: TunnelError): string {
    match e
    case NoTunnel => "no_tunnel"
    case TimedOut => "timeout"
    case Disconnected => "disconnected"
    case Overloaded => "overloaded"
    case Other => "protocol"
  }

  /** The values the column's CHECK permits. */
  const CODES: set<string> :=
    {"no_tunnel", "timeout", "disconnected", "unreachable", "protocol", "overloaded", "too_large"}

  datatype Forwarded = Forwarded(resp: Option<Response>, out: Outcome, sent: Option<Bytes>)

  /** forward, given whether forwarding is configured and what the tunnel would do; sent is the body handed to it. */
  method Forward(configured: bool, req: Captured, result: TunnelResult, elapsed: nat) returns (f: Forwarded)
    ensures f.sent.Some? <==> configured && !req.truncated
    ensures f.sent.Some? ==> f.sent.value == req.body
    ensures f.resp.Some? ==> configured && result == Replied(f.resp.value) && f.sent.Some?
    ensures configured && !req.truncated && result.Replied? ==> f.resp == Some(result.resp)
    ensures f.out.error in CODES + {""} && (f.out.error != "" ==> f.out.status == 0)
    ensures f.out.error == "too_large" <==> configured && req.truncated
    ensures f.out.error == "unreachable" <==> configured && !req.truncated && result.Replied? && result.resp.error != ""
    ensures configured && !req.truncated && result.Failed? ==>
              f.out.error ==
              if result.e.NoTunnel? then "no_tunnel" else if result.e.TimedOut? then "timeout"
              else if result.e.Disconnected? then "disconnected" else if result.e.Overloaded? then "overloaded"
              else "protocol"
    ensures f.out.elapsed == if f.sent.Some? then elapsed else 0
    ensures f.out == NO_OUTCOME ==>
              !configured || (result.Replied? && result.resp.error == "" && result.resp.status == 0)
    ensures !configured ==> f.out == NO_OUTCOME
    ensures configured ==>
              ((f.out.status != 0) != (f.out.error != "") <==>
               req.truncated || result.Failed? || result.resp.error != "" || result.resp.status != 0)
    ensures f.out.status != 0 ==> f.resp.Some? && f.resp.value.error == "" && f.out.status == f.resp.value.status
    ensures f.resp.Some? && f.resp.value.error == "" ==> f.out.error == ""
  {
    if !configured { return Forwarded(None, NO_OUTCOME, None); }
    if req.truncated { return Forwarded(None, Outcome(0, "too_large", 0), None); }
    match result {
      case Failed(e) =>
        return Forwarded(None, Outcome(0, ErrorCode(e), elapsed), Some(req.body));
      case Replied(resp) =>
        if resp.error != "" { return Forwarded(Some(resp), Outcome(0, "unreachable", elapsed), Some(req.body)); }
        return Forwarded(Some(resp), Outcome(resp.status, "", elapsed), Some(req.body));
    }
  }

  /** How send's errors reach forward: those that are not the tunnel's own come back as they are. */
  function Reported(why: Tunnel.Failure): TunnelError {
    match why
    case Overloaded => Overloaded
    case Disconnected => Disconnected
    case TimedOut => TimedOut
    case EncodeFailed => Other
    case WriteFailed => Other
  }

  /** The code recorded for a call that failed tells what happened to it, in every run of the connection: "overloaded"
      exactly when it never got a slot, and then its frame is not on the wire; "timeout" only when its frame is;
      "disconnected" only when the connection is closed. */
  lemma RecordedCodeIsTrue(s: Tunnel.State, c: nat)
    requires TunnelRuns.Reachable(s) && c < |s.calls|
    requires var out := TunnelRuns.OutcomeOf(s.calls[c].phase); out.Some? && out.value.Failed?
    ensures var code := ErrorCode(Reported(TunnelRuns.OutcomeOf(s.calls[c].phase).value.why));
            && code in CODES && code !in {"no_tunnel", "unreachable", "too_large"}
            && (code == "overloaded" <==> s.calls[c].num == 0)
            && (code == "overloaded" ==> !TunnelRuns.Asked(s, c))
            && (code == "timeout" ==> TunnelRuns.Asked(s, c))
            && (code == "disconnected" ==> s.closed)
  {
    TunnelRuns.OutcomesTellTheTruth(s, c);
    TunnelRuns.NumberedUnlessOverloaded(s, c);
    hide TunnelRuns.Reachable, TunnelRuns.Asked;
  }

  // ---------------------------------------------------------------- the whole capture

  datatype Lookup = Found | NoSuchInbox | LookupFailed

  /** Everything the handler meets on its way: lookup, limiter, body, insert, tunnel, and whether the database can be
      reached to record the outcome. */
  datatype World = World(lookup: Lookup, limited: bool, stream: Stream, inserted: bool,
                         configured: bool, result: TunnelResult, elapsed: nat, recordable: bool)

  /** The row as stored, and its recorded outcome: a status column and an error column. */
  datatype Row = Row(body: Bytes, truncated: bool, status: Option<int>, error: Option<string>, recorded: bool)

  /** What the provider receives; early is an informational status sent ahead of the final one. */
  datatype Reply = Reply(early: Option<int>, status: int, relayed: bool, body: Bytes)

  function RelayStatus(status: int): int {
    if status < 100 || status > 599 then 502 else status
  }

  predicate Informational(status: int) { 100 <= status <= 199 && status != 101 }

  predicate Bodiless(status: int) { status == 101 || status == 204 || status == 304 }

  /** What the HTTP library makes of a status and then a body: an informational status goes out ahead of a 200, and some
      statuses carry no body. */
  function Written(status: int, body: Bytes): Reply {
    if Informational(status) then Reply(Some(status), 200, true, body)
    else Reply(None, status, true, if Bodiless(status) then [] else body)
  }

  /** An answer of this handler's own, whose text is not modelled. */
  function Own(status: int): Reply { Reply(None, status, false, []) }

  /** RecordForward: zero and empty become NULL; the database refuses what its CHECKs do not allow. */
  predicate Storable(out: Outcome) {
    && (out.status == 0 || 100 <= out.status <= 599)
    && (out.error == "" || out.error in CODES)
    && !(out.status != 0 && out.error != "")
  }

  method HandleCapture(w: World, maxBody: int) returns (reply: Reply, row: Option<Row>, sent: Option<Bytes>)
    // Nothing stored is never answered with a success, and something stored never with a refusal of its own.
    ensures var limit := if maxBody <= 0 then 1_048_576 else maxBody;
            && (row.None? <==> !w.lookup.Found? || w.limited || Fails(w.stream, limit) || !w.inserted)
            && (row.Some? ==> (row.value.truncated <==> |All(w.stream.chunks)| > limit))
            && (row.Some? ==> |row.value.body| == if row.value.truncated then limit else |All(w.stream.chunks)|)
    ensures row.None? ==> !reply.relayed && sent.None?
    ensures row.None? ==>
              reply.status == if w.lookup.NoSuchInbox? then 404 else if w.lookup.Found? && w.limited then 429 else 503
    ensures row.Some? && !reply.relayed ==> reply.status == 200
    ensures row.Some? ==>
              (reply.relayed <==>
               w.configured && !row.value.truncated && w.result.Replied? && w.result.resp.error == "")
    // A relayed answer reaches the provider with the app's status and body, 502 standing for a status out of range,
    // except that an informational status is followed by a 200 and that 101, 204 and 304 lose their body.
    ensures reply.relayed ==>
              var status := w.result.resp.status;
              && reply.early == (if 100 <= status <= 199 && status != 101 then Some(status) else None)
              && reply.status == (if reply.early.Some? then 200 else if 100 <= status <= 599 then status else 502)
              && reply.body ==
                 (if status in {101, 204, 304} || w.result.resp.body.None? then [] else w.result.resp.body.value)
    ensures !reply.relayed ==> reply.early.None?
    // What is stored is the longest prefix within the limit; what is forwarded is all that was sent.
    ensures row.Some? ==> Prefix(row.value.body, All(w.stream.chunks))
    ensures sent.Some? ==> row.Some? && sent.value == row.value.body == All(w.stream.chunks)
    // With forwarding on and the database there, exactly one of status and error is recorded, just when an app that
    // answered gave a real status.
    ensures row.Some? && !w.configured ==> row.value.status.None? && row.value.error.None? && !row.value.recorded
    ensures row.Some? && w.configured ==>
              (row.value.recorded && row.value.status.Some? != row.value.error.Some? <==>
               w.recordable && (reply.relayed ==> 100 <= w.result.resp.status <= 599))
    ensures row.Some? && !row.value.recorded ==> row.value.status.None? && row.value.error.None?
    ensures row.Some? && row.value.recorded && row.value.truncated ==> row.value.error == Some("too_large")
    ensures row.Some? && row.value.error.Some? ==> row.value.error.value in CODES
    ensures row.Some? && row.value.status.Some? ==>
              reply.relayed && row.value.status == if reply.early.Some? then reply.early else Some(reply.status)
  {
    row, sent := None, None;
    if w.lookup.NoSuchInbox? { return Own(404), None, None; }
    if w.lookup.LookupFailed? { return Own(503), None, None; }
    if w.limited { return Own(429), None, None; }
    var read := ReadBody(w.stream, Limit(maxBody));
    if read.failed { return Own(503), None, None; }
    if !w.inserted { return Own(503), None, None; }
    var f := Forward(w.configured, Captured(read.body, read.truncated), w.result, w.elapsed);
    sent := f.sent;
    assert sent.Some? ==> All(w.stream.chunks)[..|All(w.stream.chunks)|] == All(w.stream.chunks);
    var stored := Row(read.body, read.truncated, None, None, false);
    if f.out != NO_OUTCOME && w.recordable && Storable(f.out) {
      stored := stored.(status := if f.out.status != 0 then Some(f.out.status) else None,
                        error := if f.out.error != "" then Some(f.out.error) else None,
                        recorded := true);
    }
    row := Some(stored);
    if f.resp.Some? && f.resp.value.error == "" {
      var body := if f.resp.value.body.Some? then f.resp.value.body.value else [];
      return Written(RelayStatus(f.resp.value.status), body), row, sent;
    }
    reply := Own(200);
  }
}
