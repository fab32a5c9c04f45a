/** The connection composed with the command-line peer: what a caller is handed is what its own request was answered. */
module TunnelPeer {
  import opened Text
  import opened Tunnel
  import opened TunnelRuns

  /** asked records, by id, what the local app was asked and what came of it; back holds frames on their way home. */
  datatype Link = Link(server: State, asked: map<string, (Request, Answer)>, back: seq<Response>)

  datatype LinkStep =
    | Server(step: Step)
    | Handle(i: nat, answer: Answer, sent: bool)   // the peer answers frame i; its own write may fail
    | Arrives(j: nat)                              // the reader gets to frame j

  const NO_TRAFFIC := Link(INITIAL, map[], [])

  /** handle: whatever the local app said, the id goes back unchanged. */
  function Reply(frame: Frame, answer: Answer): Response {
    Response(frame.reqId, answer)
  }

  predicate CanDo(k: Link, step: LinkStep) {
    match step
    case Server(st) => !st.Take? && Enabled(k.server, st)
    case Handle(i, _, _) => i < |k.server.wire| && k.server.wire[i].reqId !in k.asked
    case Arrives(j) => j < |k.back| && Enabled(k.server, Take(k.back[j]))
  }

  function Do(k: Link, step: LinkStep): Link
    requires CanDo(k, step)
  {
    match step
    case Server(st) => k.(server := Apply(k.server, st))
    case Handle(i, answer, sent) =>
      var frame := k.server.wire[i];
      k.(asked := k.asked[frame.reqId := (frame.req, answer)],
         back := if sent then k.back + [Reply(frame, answer)] else k.back)
    case Arrives(j) => k.(server := Apply(k.server, Take(k.back[j])), back := k.back[..j] + k.back[j + 1..])
  }

  predicate LinkRuns(k: Link, steps: seq<LinkStep>)
    decreases |steps|
  {
    steps == [] || (CanDo(k, steps[0]) && LinkRuns(Do(k, steps[0]), steps[1..]))
  }

  function LinkFinal(k: Link, steps: seq<LinkStep>): Link
    requires LinkRuns(k, steps)
    decreases |steps|
  {
    if steps == [] then k else LinkFinal(Do(k, steps[0]), steps[1..])
  }

  /** The response is what the local app said when asked under that id. */
  predicate Genuine(asked: map<string, (Request, Answer)>, resp: Response) {
    resp.reqId in asked && asked[resp.reqId].1 == resp.answer
  }

  predicate GenuineCall(asked: map<string, (Request, Answer)>, call: Call) {
    && (forall resp | resp in call.channel :: Genuine(asked, resp))
    && (OutcomeOf(call.phase).Some? && OutcomeOf(call.phase).value.Answered? ==>
          Genuine(asked, OutcomeOf(call.phase).value.resp))
  }

  predicate AllGenuine(k: Link) {
    && (forall resp | resp in k.back :: Genuine(k.asked, resp))
    && (forall c | 0 <= c < |k.server.calls| :: GenuineCall(k.asked, k.server.calls[c]))
    && (k.server.delivering.Some? ==> Genuine(k.asked, k.server.delivering.value.1))
  }

  predicate AskedFromWire(k: Link) {
    forall id | id in k.asked :: Frame(id, k.asked[id].0) in k.server.wire
  }

  lemma WireGrows(s: State, step: Step)
    requires Enabled(s, step)
    ensures forall f | f in s.wire :: f in Apply(s, step).wire
  {
  }

  lemma ServerKeepsGenuine(k: Link, st: Step)
    requires Enabled(k.server, st) && AllGenuine(k) && (st.Take? ==> Genuine(k.asked, st.resp))
    ensures AllGenuine(k.(server := Apply(k.server, st)))
  {
    var t := Apply(k.server, st);
    DeliveryStaysGenuine(k, st);
    CallsAfter(k.server, st);
    hide Apply, Enabled, Mover, Genuine;
    forall c | 0 <= c < |t.calls| ensures GenuineCall(k.asked, t.calls[c]) {
      if c < |k.server.calls| { assert GenuineCall(k.asked, k.server.calls[c]); }
      if Mover(k.server, st) == Some(c) { MoverStaysGenuine(k, st, c); }
    }
  }

  lemma DeliveryStaysGenuine(k: Link, st: Step)
    requires Enabled(k.server, st) && AllGenuine(k) && (st.Take? ==> Genuine(k.asked, st.resp))
    ensures var t := Apply(k.server, st); t.delivering.Some? ==> Genuine(k.asked, t.delivering.value.1)
  {
    hide Decimal, Genuine, GenuineCall;
  }

  lemma MoverStaysGenuine(k: Link, st: Step, c: nat)
    requires Enabled(k.server, st) && AllGenuine(k) && Mover(k.server, st) == Some(c) && c < |k.server.calls|
    ensures c < |Apply(k.server, st).calls| && GenuineCall(k.asked, Apply(k.server, st).calls[c])
  {
    hide Decimal, Genuine;
    assert GenuineCall(k.asked, k.server.calls[c]);
  }

  lemma LinkStepKeeps(k: Link, step: LinkStep)
    requires CanDo(k, step) && Inv(k.server) && AllGenuine(k) && AskedFromWire(k)
    ensures var n := Do(k, step); Inv(n.server) && AllGenuine(n) && AskedFromWire(n)
  {
    hide Inv, Decimal;
    match step {
      case Server(st) =>
        StepKeepsInv(k.server, st);
        WireGrows(k.server, st);
        ServerKeepsGenuine(k, st);
      case Handle(i, answer, sent) =>
        var n := Do(k, step);
        forall resp | Genuine(k.asked, resp) ensures Genuine(n.asked, resp) {}
        assert k.server.wire[i] == Frame(k.server.wire[i].reqId, k.server.wire[i].req);
        forall c | 0 <= c < |k.server.calls| ensures GenuineCall(n.asked, k.server.calls[c]) {
          assert GenuineCall(k.asked, k.server.calls[c]);
        }
      case Arrives(j) =>
        StepKeepsInv(k.server, Take(k.back[j]));
        WireGrows(k.server, Take(k.back[j]));
        ServerKeepsGenuine(k, Take(k.back[j]));
    }
  }

  lemma {:induction false} LinkRunKeeps(k: Link, steps: seq<LinkStep>)
    requires LinkRuns(k, steps) && Inv(k.server) && AllGenuine(k) && AskedFromWire(k)
    ensures var n := LinkFinal(k, steps); Inv(n.server) && AllGenuine(n) && AskedFromWire(n)
    decreases |steps|
  {
    hide Inv, AllGenuine, AskedFromWire, Do, CanDo;
    if steps != [] {
      LinkStepKeeps(k, steps[0]);
      LinkRunKeeps(Do(k, steps[0]), steps[1..]);
    }
  }

  ghost predicate LinkReachable(k: Link) {
    exists steps :: LinkRuns(NO_TRAFFIC, steps) && k == LinkFinal(NO_TRAFFIC, steps)
  }

  lemma LinkReachableKeeps(k: Link)
    requires LinkReachable(k)
    ensures Inv(k.server) && AllGenuine(k) && AskedFromWire(k)
  {
    InitInv();
    hide LinkRuns, LinkFinal, Inv;
    var steps :| LinkRuns(NO_TRAFFIC, steps) && k == LinkFinal(NO_TRAFFIC, steps);
    LinkRunKeeps(NO_TRAFFIC, steps);
  }

  /** In every run, a caller that is answered gets what the local app answered to that very request. */
  lemma AnswerIsForThisRequest(k: Link, c: nat)
    requires LinkReachable(k) && c < |k.server.calls|
    requires OutcomeOf(k.server.calls[c].phase).Some? && OutcomeOf(k.server.calls[c].phase).value.Answered?
    ensures var call := k.server.calls[c];
            Id(call) in k.asked && k.asked[Id(call)] == (call.req, OutcomeOf(call.phase).value.resp.answer)
  {
    LinkReachableKeeps(k);
    hide LinkReachable, Inv, AllGenuine, AskedFromWire;
    AnswerTraced(k, c);
  }

  lemma AnswerTraced(k: Link, c: nat)
    requires Inv(k.server) && AllGenuine(k) && AskedFromWire(k) && c < |k.server.calls|
    requires OutcomeOf(k.server.calls[c].phase).Some? && OutcomeOf(k.server.calls[c].phase).value.Answered?
    ensures var call := k.server.calls[c];
            Id(call) in k.asked && k.asked[Id(call)] == (call.req, OutcomeOf(call.phase).value.resp.answer)
  {
    hide Decimal, Holding;
    var s, call := k.server, k.server.calls[c];
    assert CallOk(call, s.closed) && GenuineCall(k.asked, call);
    var f := Frame(Id(call), k.asked[Id(call)].0);
    assert f in s.wire;
    var d :| 0 <= d < |s.calls| && FrameOf(f, s.calls[d]);
    DecimalDistinct(s.calls[d].num, call.num);
  }

  lemma Then(k: Link, step: LinkStep, rest: seq<LinkStep>)
    requires CanDo(k, step) && LinkRuns(Do(k, step), rest)
    ensures LinkRuns(k, [step] + rest) && LinkFinal(k, [step] + rest) == LinkFinal(Do(k, step), rest)
  {
    assert ([step] + rest)[1..] == rest;
  }

  /** What the local app answers in time comes back: while a call waits on an open connection and its frame is on the
      wire, the peer can handle that frame, its answer can be read, and the call then returns exactly it. */
  lemma AnswerArrives(k: Link, c: nat, i: nat, answer: Answer)
    requires Inv(k.server) && c < |k.server.calls| && k.server.calls[c].phase.Waiting? && k.server.calls[c].sent == 0
    requires !k.server.closed && k.server.delivering.None?
    requires CanDo(k, Handle(i, answer, true)) && k.server.wire[i].reqId == Id(k.server.calls[c])
    ensures var steps := [Handle(i, answer, true), Arrives(|k.back|), Server(Send), Server(Receive(c))];
            && LinkRuns(k, steps) && c < |LinkFinal(k, steps).server.calls|
            && LinkFinal(k, steps).server.calls[c].phase == Leaving(Answered(Response(Id(k.server.calls[c]), answer)))
  {
    var resp := Response(Id(k.server.calls[c]), answer);
    var taken, sent, received := AnswerReturned(k.server, c, resp);
    hide Inv, Apply, Enabled, Decimal;
    var k1 := Do(k, Handle(i, answer, true));
    assert k1.back[|k.back|] == resp;
    var k2 := Do(k1, Arrives(|k.back|));
    var k3 := Do(k2, Server(Send));
    var k4 := Do(k3, Server(Receive(c)));
    assert k4.server == received && LinkRuns(k4, []);
    Then(k3, Server(Receive(c)), []);
    Then(k2, Server(Send), [Server(Receive(c))]);
    Then(k1, Arrives(|k.back|), [Server(Send), Server(Receive(c))]);
    Then(k, Handle(i, answer, true), [Arrives(|k.back|), Server(Send), Server(Receive(c))]);
  }
}
