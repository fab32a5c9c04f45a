/** The server's record of one connection, each method one lock section or one channel operation. */
module TunnelClient {
  import opened Text
  import opened Tunnel
  import opened TunnelRuns

  /** client, together with the locals and channels of the goroutines inside send. */
  class Client {
    var calls: seq<Call>
    var nextID: nat
    var pending: map<string, nat>
    var slots: nat
    var closed: bool
    var closers: nat
    var doneCloses: nat
    var delivering: Option<(nat, Response)>
    var wire: seq<Frame>

    function View(): State
      reads this
    {
      State(calls, nextID, pending, slots, closed, closers, doneCloses, delivering, wire)
    }

    constructor ()
      ensures View() == INITIAL
    {
      calls, nextID, pending, slots := [], 0, map[], 0;
      closed, closers, doneCloses := false, 0, 0;
      delivering, wire := None, [];
    }

    method SetPhase(c: nat, p: Phase)
      requires c < |calls|
      modifies this`calls
      ensures View() == Moved(old(View()), c, p)
    {
      calls := calls[c := calls[c].(phase := p)];
    }

    /** Takes over the state that somebody else's step has brought about. */
    method Become(s: State)
      modifies this
      ensures View() == s
    {
      calls, nextID, pending, slots := s.calls, s.nextID, s.pending, s.slots;
      closed, closers, doneCloses := s.closed, s.closers, s.doneCloses;
      delivering, wire := s.delivering, s.wire;
    }

    // The sections of send.

    method Call(req: Request) returns (c: nat)
      modifies this
      ensures View() == Apply(old(View()), Arrive(req)) && c == |old(calls)|
    {
      c := |calls|;
      calls := calls + [NewCall(req)];
    }

    /** semaphore.acquire: either case of its select; ok is false for the deadline. */
    method AcquireSlot(c: nat, ok: bool)
      requires c < |calls| && calls[c].phase.Queued? && (ok ==> slots < MAX_IN_FLIGHT)
      modifies this
      ensures View() == Apply(old(View()), if ok then Acquire(c) else GiveUp(c))
    {
      if ok {
        slots := slots + 1;
        SetPhase(c, Slotted);
      } else {
        calls := calls[c := calls[c].(phase := Done(Failed(Overloaded)), expired := true)];
      }
    }

    method DrawNumber(c: nat) returns (id: string)
      requires c < |calls| && calls[c].phase.Slotted?
      modifies this
      ensures View() == Apply(old(View()), DrawId(c)) && id == Id(calls[c])
    {
      nextID := nextID + 1;
      calls := calls[c := calls[c].(phase := Numbered, num := nextID)];
      id := Decimal(nextID);
    }

    /** The lock section that enters the call, unless the connection is already closed. */
    method EnterPending(c: nat) returns (entered: bool)
      requires c < |calls| && calls[c].phase.Numbered?
      modifies this
      ensures View() == Apply(old(View()), Enter(c)) && entered == !old(closed)
    {
      if closed {
        SetPhase(c, Forgotten(Failed(Disconnected)));
        return false;
      }
      pending := pending[Id(calls[c]) := c];
      SetPhase(c, Pending);
      entered := true;
    }

    method EncodeFails(c: nat)
      requires c < |calls| && calls[c].phase.Pending? && !calls[c].landed
      modifies this
      ensures View() == Apply(old(View()), FailEncode(c))
    {
      calls := calls[c := calls[c].(phase := Leaving(Failed(EncodeFailed)), write := EncodeError)];
    }

    method FrameLands(c: nat)
      requires c < |calls| && calls[c].phase.Pending? && !calls[c].landed
      modifies this
      ensures View() == Apply(old(View()), Land(c))
    {
      wire := wire + [Frame(Id(calls[c]), calls[c].req)];
      calls := calls[c := calls[c].(landed := true)];
    }

    method FinishWrite(c: nat, ok: bool)
      requires c < |calls| && calls[c].phase.Pending? && (ok ==> calls[c].landed)
      modifies this
      ensures View() == Apply(old(View()), WriteReturns(c, ok))
    {
      calls := calls[c := calls[c].(write := Returned(ok))];
      if ok { SetPhase(c, Waiting); } else { SetPhase(c, Leaving(Failed(WriteFailed))); }
    }

    /** The select: whichever ready case is taken, and nothing is ready only while send must wait. */
    method Select(c: nat, step: Step)
      requires Enabled(View(), step)
      requires step == Receive(c) || step == SeeDone(c) || step == Expire(c)
      modifies this
      ensures View() == Apply(old(View()), step)
    {
      if step.Receive? {
        var resp := calls[c].channel[0];
        calls := calls[c := calls[c].(channel := [], got := Some(resp), phase := Leaving(Answered(resp)))];
      } else if step.SeeDone? {
        SetPhase(c, Leaving(Failed(Disconnected)));
      } else {
        calls := calls[c := calls[c].(phase := Leaving(Failed(TimedOut)), expired := true)];
      }
    }

    method ForgetEntry(c: nat)
      requires c < |calls| && calls[c].phase.Leaving?
      modifies this
      ensures View() == Apply(old(View()), Forget(c))
    {
      pending := pending - {Id(calls[c])};
      SetPhase(c, Forgotten(calls[c].phase.out));
    }

    method ReleaseSlot(c: nat) returns (out: Outcome)
      requires c < |calls| && calls[c].phase.Forgotten? && slots > 0
      modifies this
      ensures View() == Apply(old(View()), Release(c)) && calls[c].phase == Done(out)
    {
      slots := slots - 1;
      out := calls[c].phase.out;
      SetPhase(c, Done(out));
    }

    // deliver: one lock section, then one channel send, by the sole reader.

    method TakePending(resp: Response) returns (known: bool)
      requires delivering.None?
      modifies this
      ensures View() == Apply(old(View()), Take(resp)) && known == delivering.Some?
    {
      known := resp.reqId in pending;
      if known {
        delivering := Some((pending[resp.reqId], resp));
        pending := pending - {resp.reqId};
      }
    }

    method SendOnChannel()
      requires Enabled(View(), Send)
      modifies this
      ensures View() == Apply(old(View()), Send)
    {
      var (c, resp) := delivering.value;
      calls := calls[c := calls[c].(channel := calls[c].channel + [resp], sent := calls[c].sent + 1)];
      delivering := None;
    }

    // close: one lock section, then closing the done channel.

    method Mark() returns (first: bool)
      modifies this
      ensures View() == Apply(old(View()), MarkClosed) && first == !old(closed)
    {
      first := !closed;
      if closed { return; }
      closed, pending, closers := true, map[], closers + 1;
    }

    method CloseDoneChannel()
      requires closers > 0
      modifies this
      ensures View() == Apply(old(View()), CloseDone)
    {
      closers, doneCloses := closers - 1, doneCloses + 1;
    }
  }

  // ---------------------------------------------------------------- send, from beginning to end

  /** A section of call c's own goroutine. */
  predicate Own(step: Step, c: nat) {
    match step
    case Arrive(_) => false
    case Take(_) => false
    case Send => false
    case MarkClosed => false
    case CloseDone => false
    case _ => step.c == c
  }

  /** Nobody but its own goroutine moves a call; others can at most put a response into its channel. */
  lemma OthersLeave(s: State, step: Step, c: nat)
    requires Enabled(s, step) && !Own(step, c) && c < |s.calls|
    ensures var t := Apply(s, step);
            && c < |t.calls| && t.calls[c].phase == s.calls[c].phase && t.calls[c].num == s.calls[c].num
            && t.calls[c].landed == s.calls[c].landed && t.calls[c].req == s.calls[c].req
  {
    hide Decimal;
  }

  /** Any number of steps of anybody else: other calls, the reader with any frames, closers. */
  method Others(client: Client, c: nat, alone: bool)
    requires Inv(client.View()) && c < |client.calls|
    modifies client
    ensures Inv(client.View()) && c < |client.calls|
    ensures client.calls[c].phase == old(client.calls[c].phase) && client.calls[c].num == old(client.calls[c].num)
    ensures client.calls[c].landed == old(client.calls[c].landed) && client.calls[c].req == old(client.calls[c].req)
    ensures alone ==> client.View() == old(client.View())
  {
    hide Inv, Apply;
    var steps: seq<Step> := *;
    if alone { return; }
    for i := 0 to |steps|
      invariant Inv(client.View()) && c < |client.calls|
      invariant client.calls[c].phase == old(client.calls[c].phase) && client.calls[c].num == old(client.calls[c].num)
      invariant client.calls[c].landed == old(client.calls[c].landed) && client.calls[c].req == old(client.calls[c].req)
    {
      if Enabled(client.View(), steps[i]) && !Own(steps[i], c) {
        StepKeepsInv(client.View(), steps[i]);
        OthersLeave(client.View(), steps[i], c);
        client.Become(Apply(client.View(), steps[i]));
      }
    }
  }

  /** Waiting for a slot: the deadline, in rounds of waiting, is what is left of it. */
  method Queue(client: Client, c: nat, deadline: nat, alone: bool) returns (ok: bool, left: nat)
    requires Inv(client.View()) && c < |client.calls| && client.calls[c].phase.Queued?
    modifies client
    ensures Inv(client.View()) && c < |client.calls| && client.calls[c].req == old(client.calls[c].req)
    ensures client.calls[c].phase == if ok then Slotted else Done(Failed(Overloaded))
    ensures !ok ==> left == 0
    ensures alone ==> client.slots == old(client.slots) + (if ok then 1 else 0) && client.pending == old(client.pending)
    ensures alone && ok ==> old(client.slots) < 32
  {
    hide Inv;
    left := deadline;
    while true
      invariant Inv(client.View()) && c < |client.calls| && client.calls[c].phase.Queued?
      invariant client.calls[c].req == old(client.calls[c].req)
      invariant alone ==> client.slots == old(client.slots) && client.pending == old(client.pending)
      decreases left
    {
      Others(client, c, alone);
      if
      case client.slots < MAX_IN_FLIGHT =>
        StepKeepsInv(client.View(), Acquire(c));
        client.AcquireSlot(c, true);
        return true, left;
      case left == 0 =>
        StepKeepsInv(client.View(), GiveUp(c));
        client.AcquireSlot(c, false);
        return false, 0;
      case left > 0 =>
        left := left - 1;
    }
  }

  /** The select: an answer, the connection's end, or the deadline, whichever is ready and chosen. */
  method Await(client: Client, c: nat, deadline: nat, alone: bool) returns (left: nat)
    requires Inv(client.View()) && c < |client.calls| && client.calls[c].phase.Waiting?
    modifies client
    ensures Inv(client.View()) && c < |client.calls| && client.calls[c].req == old(client.calls[c].req)
    ensures client.calls[c].num == old(client.calls[c].num) && client.calls[c].phase.Leaving?
    ensures client.calls[c].phase.out == Failed(TimedOut) ==> left == 0
    ensures client.calls[c].phase.out !in {Failed(Overloaded), Failed(EncodeFailed), Failed(WriteFailed)}
    ensures alone ==> client.slots == old(client.slots) && client.pending == old(client.pending)
  {
    hide Inv;
    left := deadline;
    while true
      invariant Inv(client.View()) && c < |client.calls| && client.calls[c].phase.Waiting?
      invariant client.calls[c].req == old(client.calls[c].req) && client.calls[c].num == old(client.calls[c].num)
      invariant alone ==> client.slots == old(client.slots) && client.pending == old(client.pending)
      decreases left
    {
      Others(client, c, alone);
      if
      case client.calls[c].channel != [] =>
        StepKeepsInv(client.View(), Receive(c));
        client.Select(c, Receive(c));
        return;
      case client.doneCloses > 0 =>
        StepKeepsInv(client.View(), SeeDone(c));
        client.Select(c, SeeDone(c));
        return;
      case left == 0 =>
        StepKeepsInv(client.View(), Expire(c));
        client.Select(c, Expire(c));
        return;
      case left > 0 =>
        left := left - 1;
    }
  }

  /** Encoding and writing the frame; either may fail, and a frame may reach the peer although its write fails. */
  method Write(client: Client, c: nat, encodes: bool, writes: bool, alone: bool)
    requires Inv(client.View()) && c < |client.calls| && client.calls[c].phase.Pending? && !client.calls[c].landed
    modifies client
    ensures Inv(client.View()) && c < |client.calls| && client.calls[c].req == old(client.calls[c].req)
    ensures client.calls[c].num == old(client.calls[c].num)
    ensures client.calls[c].phase == if !encodes then Leaving(Failed(EncodeFailed))
                                     else if !writes then Leaving(Failed(WriteFailed)) else Waiting
    ensures alone ==> client.slots == old(client.slots) && client.pending == old(client.pending)
  {
    hide Inv;
    if !encodes {
      StepKeepsInv(client.View(), FailEncode(c));
      client.EncodeFails(c);
      return;
    }
    var lands := writes;
    if * { lands := true; }
    if lands {
      StepKeepsInv(client.View(), Land(c));
      client.FrameLands(c);
    }
    Others(client, c, alone);
    StepKeepsInv(client.View(), WriteReturns(c, writes));
    client.FinishWrite(c, writes);
  }

  /** What the outcome of a call that got a slot says about its own encoding, its own write and its own deadline. */
  predicate OutcomeFits(out: Outcome, encodes: bool, writes: bool, left: nat) {
    match out
    case Answered(_) => encodes && writes
    case Failed(Overloaded) => false
    case Failed(TimedOut) => encodes && writes && left == 0
    case Failed(Disconnected) => true
    case Failed(EncodeFailed) => !encodes
    case Failed(WriteFailed) => encodes && !writes
  }

  /** send, with any steps of anybody else between its sections and while it waits. What it returns is what happened to
      its own request: answered exactly if a response was taken from its channel, and then that response, which bears
      its id; overloaded or timed out only at its deadline, without a frame on the wire or with one; an encoding or
      write error only if its own encoding or write failed; disconnected only if the connection is closed. It leaves no
      entry behind, and the slots taken are exactly those of the other calls; alone, it leaves slots and entries as it
      found them. */
  method Send(client: Client, req: Request, deadline: nat, encodes: bool, writes: bool, alone: bool)
    returns (out: Outcome, c: nat, left: nat)
    requires Inv(client.View())
    modifies client
    ensures Inv(client.View()) && c < |client.calls| && client.calls[c].req == req && client.calls[c].phase == Done(out)
    ensures out.Answered? <==> client.calls[c].sent == 1 && client.calls[c].channel == []
    ensures client.calls[c].got == if out.Answered? then Some(out.resp) else None
    ensures match out
            case Answered(resp) =>
              encodes && writes && resp.reqId == Id(client.calls[c]) && Asked(client.View(), c)
            case Failed(Overloaded) => left == 0 && !Asked(client.View(), c)
            case Failed(TimedOut) => left == 0 && encodes && writes && Asked(client.View(), c)
            case Failed(Disconnected) => client.closed
            case Failed(EncodeFailed) => !encodes && !Asked(client.View(), c)
            case Failed(WriteFailed) => encodes && !writes
    ensures forall id | id in client.pending :: client.pending[id] != c
    ensures client.slots == Holding(client.calls[..c]) + Holding(client.calls[c + 1..])
    ensures alone ==> client.slots == old(client.slots) && client.pending == old(client.pending)
    ensures !alone || old(client.slots) < 32 || out == Failed(Overloaded)
  {
    hide Inv, Asked;
    StepKeepsInv(client.View(), Arrive(req));
    c := client.Call(req);
    var ok;
    ok, left := Queue(client, c, deadline, alone);
    if !ok {
      out := Failed(Overloaded);
    } else {
      out, left := HoldingSlot(client, c, left, encodes, writes, alone);
    }
    InvTellsTheTruth(client.View(), c);
    NothingLeft(client.View(), c);
  }

  /** Drawing a number and entering the pending map, unless the connection is closed. */
  method Enroll(client: Client, c: nat, alone: bool) returns (entered: bool)
    requires Inv(client.View()) && c < |client.calls| && client.calls[c].phase.Slotted?
    modifies client
    ensures Inv(client.View()) && c < |client.calls| && client.calls[c].req == old(client.calls[c].req)
    ensures if entered then client.calls[c].phase.Pending? && !client.calls[c].landed
            else client.calls[c].phase == Forgotten(Failed(Disconnected))
    ensures alone ==> client.slots == old(client.slots)
    ensures alone ==> client.pending - {Id(client.calls[c])} == old(client.pending)
    ensures alone && !entered ==> client.pending == old(client.pending)
  {
    hide Inv, Decimal;
    Others(client, c, alone);
    StepKeepsInv(client.View(), DrawId(c));
    var id := client.DrawNumber(c);
    Others(client, c, alone);
    NumberedIsNew(client.View(), c);
    StepKeepsInv(client.View(), Enter(c));
    entered := client.EnterPending(c);
  }

  /** From the entry to its removal: the frame, the wait, and the deferred forget. */
  method Exchange(client: Client, c: nat, deadline: nat, encodes: bool, writes: bool, alone: bool) returns (left: nat)
    requires Inv(client.View()) && c < |client.calls| && client.calls[c].phase.Pending? && !client.calls[c].landed
    modifies client
    ensures Inv(client.View()) && c < |client.calls| && client.calls[c].req == old(client.calls[c].req)
    ensures client.calls[c].phase.Forgotten? && OutcomeFits(client.calls[c].phase.out, encodes, writes, left)
    ensures alone ==> client.slots == old(client.slots)
    ensures alone ==> client.pending == old(client.pending) - {old(Id(client.calls[c]))}
  {
    hide Inv, Decimal;
    Others(client, c, alone);
    Write(client, c, encodes, writes, alone);
    left := deadline;
    if client.calls[c].phase.Waiting? {
      left := Await(client, c, deadline, alone);
    }
    Others(client, c, alone);
    StepKeepsInv(client.View(), Forget(c));
    client.ForgetEntry(c);
  }

  /** send from the acquired slot to its release. */
  method HoldingSlot(client: Client, c: nat, deadline: nat, encodes: bool, writes: bool, alone: bool)
    returns (out: Outcome, left: nat)
    requires Inv(client.View()) && c < |client.calls| && client.calls[c].phase.Slotted?
    modifies client
    ensures Inv(client.View()) && c < |client.calls| && client.calls[c].req == old(client.calls[c].req)
    ensures client.calls[c].phase == Done(out) && OutcomeFits(out, encodes, writes, left)
    ensures alone ==> client.slots == old(client.slots) - 1 && client.pending == old(client.pending)
  {
    hide Inv, Decimal;
    var entered := Enroll(client, c, alone);
    left := deadline;
    if entered { left := Exchange(client, c, deadline, encodes, writes, alone); }
    Others(client, c, alone);
    HasSlot(client.View(), c);
    StepKeepsInv(client.View(), Release(c));
    out := client.ReleaseSlot(c);
  }

  lemma HasSlot(s: State, c: nat)
    requires Inv(s) && c < |s.calls| && s.calls[c].phase.Forgotten?
    ensures s.slots > 0
  {
    SlotHeld(s.calls, c);
  }

  /** A number just drawn stands nowhere in the pending map, and nothing has been written under it. */
  lemma NumberedIsNew(s: State, c: nat)
    requires Inv(s) && c < |s.calls| && s.calls[c].phase.Numbered?
    ensures Id(s.calls[c]) !in s.pending && !s.calls[c].landed
  {
    hide Decimal, Holding;
    assert CallOk(s.calls[c], s.closed);
    var id := Id(s.calls[c]);
    if id in s.pending {
      assert EntryOk(s, id, s.pending[id]);
      DecimalDistinct(s.calls[s.pending[id]].num, s.calls[c].num);
    }
  }

  /** What a finished call leaves behind. */
  lemma NothingLeft(s: State, c: nat)
    requires Inv(s) && c < |s.calls| && s.calls[c].phase.Done?
    ensures forall id | id in s.pending :: s.pending[id] != c
    ensures s.slots == Holding(s.calls[..c]) + Holding(s.calls[c + 1..])
  {
    hide Decimal;
    forall id | id in s.pending ensures s.pending[id] != c { assert EntryOk(s, id, s.pending[id]); }
    HoldingParts(s.calls, c);
  }

  lemma {:induction false} HoldingParts(calls: seq<Call>, c: nat)
    requires c < |calls|
    ensures Holding(calls) ==
            Holding(calls[..c]) + (if HoldsSlot(calls[c].phase) then 1 else 0) + Holding(calls[c + 1..])
  {
    var n := |calls| - 1;
    if c < n {
      HoldingParts(calls[..n], c);
      assert calls[..n][..c] == calls[..c] && calls[c + 1..][..n - c - 1] == calls[..n][c + 1..];
    } else {
      assert calls[c + 1..] == [];
    }
  }

  /** deliver from beginning to end: it never meets a full channel, whatever the frame, and uses up the entry it found;
      on an open connection the response reaches the call of its id that is still registered and has none yet. */
  method Deliver(client: Client, resp: Response)
    requires Inv(client.View()) && client.delivering.None?
    modifies client
    ensures Inv(client.View()) && client.delivering.None?
    ensures resp.reqId !in client.pending
    ensures resp.reqId !in old(client.pending) ==> client.View() == old(client.View())
    ensures resp.reqId in old(client.pending) ==>
              var c := old(client.pending[resp.reqId]);
              c < |client.calls| && client.calls[c].channel == [resp] && client.calls[c].sent == 1 &&
              Id(client.calls[c]) == resp.reqId
    ensures forall c | 0 <= c < |old(client.calls)| && Registered(old(client.calls)[c].phase)
                       && old(client.calls)[c].sent == 0 && !old(client.closed)
                       && Id(old(client.calls)[c]) == resp.reqId ::
              c < |client.calls| && client.calls[c].channel == [resp]
  {
    forall c | 0 <= c < |client.calls| && Registered(client.calls[c].phase) && client.calls[c].sent == 0
               && !client.closed && Id(client.calls[c]) == resp.reqId
      ensures resp.reqId in client.pending && client.pending[resp.reqId] == c
    {
      assert Findable(client.View(), c);
    }
    StepKeepsInv(client.View(), Take(resp));
    ghost var before := client.View();
    assert resp.reqId in client.pending ==> EntryOk(before, resp.reqId, client.pending[resp.reqId]);
    var known := client.TakePending(resp);
    if known {
      var c := client.delivering.value.0;
      assert CallOk(client.calls[c], client.closed);
      StepKeepsInv(client.View(), Step.Send);
      client.SendOnChannel();
    }
  }

  /** close from beginning to end, by however many callers: the done channel is closed exactly once. */
  method Close(client: Client)
    requires Inv(client.View()) && client.closers == 0
    modifies client
    ensures Inv(client.View()) && client.closed && client.pending == map[]
    ensures client.closers == 0 && client.doneCloses == 1
    ensures client.calls == old(client.calls) && client.slots == old(client.slots)
  {
    StepKeepsInv(client.View(), MarkClosed);
    var first := client.Mark();
    if first {
      StepKeepsInv(client.View(), CloseDone);
      client.CloseDoneChannel();
    }
  }
}
