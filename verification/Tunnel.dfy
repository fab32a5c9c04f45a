/** One tunnel connection on the server: concurrent calls matched to answers by id, step by step. */
module Tunnel {
  import opened Text

  const MAX_IN_FLIGHT: nat := 32

  datatype Request = Request(verb: string, path: string, query: string, headers: seq<(string, string)>, body: string)
  datatype Answer = Answer(status: int, headers: seq<(string, string)>, body: string, error: string)
  datatype Frame = Frame(reqId: string, req: Request)
  datatype Response = Response(reqId: string, answer: Answer)

  datatype Failure = Overloaded | Disconnected | TimedOut | EncodeFailed | WriteFailed
  datatype Outcome = Answered(resp: Response) | Failed(why: Failure)

  /** Where a goroutine stands inside send. */
  datatype Phase =
    | Queued                     // waiting for a slot
    | Slotted                    // holds a slot
    | Numbered                   // has drawn its id and made its channel
    | Pending                    // entered in the pending map; the write is under way
    | Waiting                    // the write returned; in the select
    | Leaving(out: Outcome)      // decided; the deferred forget is due
    | Forgotten(out: Outcome)    // the deferred release is due
    | Done(out: Outcome)

  /** What became of a call's frame on this side. */
  datatype Written = Unwritten | EncodeError | Returned(ok: bool)

  /** One call of send. num is the number drawn from nextID, 0 before; landed says whether its frame reached the peer;
      sent counts sends on its channel; got is what it has taken from there; expired says that it gave up at its
      deadline. */
  datatype Call = Call(
    req: Request, phase: Phase, num: nat, write: Written, landed: bool, channel: seq<Response>, sent: nat,
    got: Option<Response>, expired: bool)

  /** closers are the goroutines inside close that have unlocked but not yet closed the done channel. */
  datatype State = State(
    calls: seq<Call>, nextID: nat, pending: map<string, nat>, slots: nat,
    closed: bool, closers: nat, doneCloses: nat,
    delivering: Option<(nat, Response)>, wire: seq<Frame>)

  const INITIAL := State([], 0, map[], 0, false, 0, 0, None, [])

  datatype Step =
    | Arrive(req: Request)
    | Acquire(c: nat)
    | GiveUp(c: nat)                      // the deadline passes while queued
    | DrawId(c: nat)
    | Enter(c: nat)
    | FailEncode(c: nat)
    | Land(c: nat)                        // the frame reaches the peer
    | WriteReturns(c: nat, ok: bool)
    | Receive(c: nat)
    | SeeDone(c: nat)
    | Expire(c: nat)                      // the deadline passes while waiting
    | Forget(c: nat)
    | Release(c: nat)
    | Take(resp: Response)                // deliver, up to its unlock, on any frame at all
    | Send                                // deliver, the send on the channel
    | MarkClosed                          // close, up to its unlock
    | CloseDone                           // close, closing the done channel

  /** The step can be taken; a goroutine that cannot take its next step is blocked there. */
  predicate Enabled(s: State, step: Step) {
    match step
    case Arrive(_) => true
    case Acquire(c) => c < |s.calls| && s.calls[c].phase.Queued? && s.slots < MAX_IN_FLIGHT
    case GiveUp(c) => c < |s.calls| && s.calls[c].phase.Queued?
    case DrawId(c) => c < |s.calls| && s.calls[c].phase.Slotted?
    case Enter(c) => c < |s.calls| && s.calls[c].phase.Numbered?
    case FailEncode(c) => c < |s.calls| && s.calls[c].phase.Pending? && !s.calls[c].landed
    case Land(c) => c < |s.calls| && s.calls[c].phase.Pending? && !s.calls[c].landed
    case WriteReturns(c, ok) => c < |s.calls| && s.calls[c].phase.Pending? && (ok ==> s.calls[c].landed)
    case Receive(c) => c < |s.calls| && s.calls[c].phase.Waiting? && s.calls[c].channel != []
    case SeeDone(c) => c < |s.calls| && s.calls[c].phase.Waiting? && s.doneCloses > 0
    case Expire(c) => c < |s.calls| && s.calls[c].phase.Waiting?
    case Forget(c) => c < |s.calls| && s.calls[c].phase.Leaving?
    case Release(c) => c < |s.calls| && s.calls[c].phase.Forgotten? && s.slots > 0
    case Take(_) => s.delivering.None?
    case Send => s.delivering.Some? && s.delivering.value.0 < |s.calls| && |s.calls[s.delivering.value.0].channel| < 1
    case MarkClosed => true
    case CloseDone => s.closers > 0
  }

  function Moved(s: State, c: nat, p: Phase): State
    requires c < |s.calls|
  {
    s.(calls := s.calls[c := s.calls[c].(phase := p)])
  }

  function Id(call: Call): string { Decimal(call.num) }

  function NewCall(req: Request): Call { Call(req, Queued, 0, Unwritten, false, [], 0, None, false) }

  function Apply(s: State, step: Step): State
    requires Enabled(s, step)
  {
    match step
    case Arrive(req) => s.(calls := s.calls + [NewCall(req)])
    case Acquire(c) => Moved(s, c, Slotted).(slots := s.slots + 1)
    case GiveUp(c) => s.(calls := s.calls[c := s.calls[c].(phase := Done(Failed(Overloaded)), expired := true)])
    case DrawId(c) =>
      s.(nextID := s.nextID + 1, calls := s.calls[c := s.calls[c].(phase := Numbered, num := s.nextID + 1)])
    case Enter(c) =>
      if s.closed then Moved(s, c, Forgotten(Failed(Disconnected)))
      else Moved(s, c, Pending).(pending := s.pending[Id(s.calls[c]) := c])
    case FailEncode(c) =>
      s.(calls := s.calls[c := s.calls[c].(phase := Leaving(Failed(EncodeFailed)), write := EncodeError)])
    case Land(c) =>
      s.(calls := s.calls[c := s.calls[c].(landed := true)], wire := s.wire + [Frame(Id(s.calls[c]), s.calls[c].req)])
    case WriteReturns(c, ok) =>
      var next := if ok then Waiting else Leaving(Failed(WriteFailed));
      s.(calls := s.calls[c := s.calls[c].(phase := next, write := Returned(ok))])
    case Receive(c) =>
      var resp := s.calls[c].channel[0];
      s.(calls := s.calls[c := s.calls[c].(phase := Leaving(Answered(resp)), channel := [], got := Some(resp))])
    case SeeDone(c) => Moved(s, c, Leaving(Failed(Disconnected)))
    case Expire(c) => s.(calls := s.calls[c := s.calls[c].(phase := Leaving(Failed(TimedOut)), expired := true)])
    case Forget(c) => Moved(s, c, Forgotten(s.calls[c].phase.out)).(pending := s.pending - {Id(s.calls[c])})
    case Release(c) => Moved(s, c, Done(s.calls[c].phase.out)).(slots := s.slots - 1)
    case Take(resp) =>
      if resp.reqId in s.pending
      then s.(pending := s.pending - {resp.reqId}, delivering := Some((s.pending[resp.reqId], resp)))
      else s
    case Send =>
      var (c, resp) := s.delivering.value;
      s.(calls := s.calls[c := s.calls[c].(channel := s.calls[c].channel + [resp], sent := s.calls[c].sent + 1)],
         delivering := None)
    case MarkClosed => if s.closed then s else s.(closed := true, pending := map[], closers := s.closers + 1)
    case CloseDone => s.(closers := s.closers - 1, doneCloses := s.doneCloses + 1)
  }

  /** A run: the steps can be taken one after another from s, ending in Final. */
  predicate Runs(s: State, steps: seq<Step>)
    decreases |steps|
  {
    steps == [] || (Enabled(s, steps[0]) && Runs(Apply(s, steps[0]), steps[1..]))
  }

  function Final(s: State, steps: seq<Step>): State
    requires Runs(s, steps)
    decreases |steps|
  {
    if steps == [] then s else Final(Apply(s, steps[0]), steps[1..])
  }

  // ---------------------------------------------------------------- what every step keeps

  predicate HoldsSlot(p: Phase) { !p.Queued? && !p.Done? }

  function Holding(calls: seq<Call>): nat {
    if calls == [] then 0
    else Holding(calls[..|calls| - 1]) + if HoldsSlot(calls[|calls| - 1].phase) then 1 else 0
  }

  predicate Registered(p: Phase) { p.Pending? || p.Waiting? || p.Leaving? }

  predicate OutcomeOk(call: Call, out: Outcome, closed: bool) {
    match out
    case Answered(resp) => resp.reqId == Id(call) && call.num > 0 && call.landed
    case Failed(Overloaded) => call.num == 0 && !call.landed
    case Failed(Disconnected) => closed && call.num > 0
    case Failed(TimedOut) => call.landed
    case Failed(EncodeFailed) => !call.landed && call.num > 0
    case Failed(WriteFailed) => call.num > 0
  }

  predicate Decided(p: Phase) { p.Leaving? || p.Forgotten? || p.Done? }

  /** Each outcome is what happened to the call, and nothing else. */
  predicate TrueToCause(call: Call) {
    && (call.got.Some? <==> Decided(call.phase) && call.phase.out.Answered?)
    && (call.got.Some? ==> call.phase.out == Answered(call.got.value))
    && (call.write == EncodeError <==> Decided(call.phase) && call.phase.out == Failed(EncodeFailed))
    && (call.write == Returned(false) <==> Decided(call.phase) && call.phase.out == Failed(WriteFailed))
    && (call.expired <==> Decided(call.phase) && call.phase.out in {Failed(Overloaded), Failed(TimedOut)})
    && (call.write == Returned(true) ==> call.landed)
    && (call.phase.Queued? || call.phase.Slotted? || call.phase.Numbered? || call.phase.Pending? ==>
          call.write.Unwritten?)
    && (call.phase.Waiting? ==> call.write == Returned(true))
    && (Decided(call.phase) && (call.phase.out.Answered? || call.phase.out == Failed(TimedOut)) ==>
          call.write == Returned(true))
  }

  /** What is true of one call, whatever the others do. */
  predicate CallOk(call: Call, closed: bool) {
    && call.sent <= 1 && |call.channel| == call.sent - (if call.got.Some? then 1 else 0)
    && TrueToCause(call)
    && (forall resp | resp in call.channel :: resp.reqId == Id(call))
    && (call.phase.Queued? || call.phase.Slotted? ==> call.num == 0)
    && (call.phase.Numbered? || Registered(call.phase) ==> call.num > 0)
    && (call.num == 0 ==> call.sent == 0 && !call.landed)
    && (call.phase.Numbered? ==> call.sent == 0 && !call.landed)
    && (call.phase.Waiting? ==> call.landed)
    && (Decided(call.phase) ==> OutcomeOk(call, call.phase.out, closed))
  }

  /** Slots taken are calls between acquire and release, never more than the limit. */
  predicate SlotsOk(s: State) {
    s.slots == Holding(s.calls) && s.slots <= MAX_IN_FLIGHT
  }

  predicate CallsOk(s: State) {
    forall c | 0 <= c < |s.calls| :: CallOk(s.calls[c], s.closed)
  }

  /** No two calls draw the same number. */
  predicate NumbersOk(s: State) {
    && (forall c | 0 <= c < |s.calls| :: s.calls[c].num <= s.nextID)
    && (forall c, d | 0 <= c < |s.calls| && 0 <= d < |s.calls| && c != d && s.calls[c].num > 0 ::
          s.calls[c].num != s.calls[d].num)
  }

  /** Nothing has yet been sent on the channel of call c, whose id is id. */
  predicate Expecting(s: State, c: nat, id: string) {
    c < |s.calls| && s.calls[c].num > 0 && id == Id(s.calls[c]) && s.calls[c].sent == 0
  }

  predicate EntryOk(s: State, id: string, c: nat) {
    Expecting(s, c, id) && Registered(s.calls[c].phase)
  }

  predicate PendingOk(s: State) {
    && (forall id | id in s.pending :: EntryOk(s, id, s.pending[id]))
    && (s.closed ==> s.pending == map[])
  }

  /** A call that is registered and has not been sent a response is found under its id, unless the connection is closed
      or its response is just being delivered. */
  predicate Findable(s: State, c: nat) {
    c < |s.calls| && Registered(s.calls[c].phase) && s.calls[c].sent == 0 && !s.closed
    && (s.delivering.Some? ==> s.delivering.value.0 != c)
    ==> Id(s.calls[c]) in s.pending && s.pending[Id(s.calls[c])] == c
  }

  predicate EntriesOk(s: State) {
    forall c | 0 <= c < |s.calls| :: Findable(s, c)
  }

  /** The response being delivered answers its call, whose channel is empty and no longer pending. */
  predicate DeliveryOk(s: State) {
    s.delivering.Some? ==>
      var (c, resp) := s.delivering.value;
      Expecting(s, c, resp.reqId) && !s.calls[c].phase.Numbered? && resp.reqId !in s.pending
  }

  /** The done channel is closed at most once, and only for a closed client. */
  predicate DoneOk(s: State) {
    s.closers + s.doneCloses == (if s.closed then 1 else 0)
  }

  predicate FrameOf(f: Frame, call: Call) {
    call.landed && f == Frame(Id(call), call.req)
  }

  /** The frames on the wire are those of the calls whose write reached it. */
  predicate WireOk(s: State) {
    && (forall c | 0 <= c < |s.calls| && s.calls[c].landed :: Frame(Id(s.calls[c]), s.calls[c].req) in s.wire)
    && (forall f | f in s.wire :: exists c :: 0 <= c < |s.calls| && FrameOf(f, s.calls[c]))
  }

  predicate Inv(s: State) {
    && SlotsOk(s) && CallsOk(s) && NumbersOk(s) && PendingOk(s) && EntriesOk(s) && DeliveryOk(s) && DoneOk(s)
    && WireOk(s)
  }

  lemma {:induction false} HoldingUpdate(calls: seq<Call>, c: nat, call: Call)
    requires c < |calls|
    ensures Holding(calls[c := call]) ==
            Holding(calls) - (if HoldsSlot(calls[c].phase) then 1 else 0) + (if HoldsSlot(call.phase) then 1 else 0)
  {
    var n := |calls| - 1;
    if c < n {
      assert calls[c := call][..n] == calls[..n][c := call];
      HoldingUpdate(calls[..n], c, call);
    } else {
      assert calls[c := call][..n] == calls[..n];
    }
  }

  /** The call a step changes, if any. */
  function Mover(s: State, step: Step): Option<nat> {
    match step
    case Arrive(_) => None
    case Take(_) => None
    case Send => if s.delivering.Some? then Some(s.delivering.value.0) else None
    case MarkClosed => None
    case CloseDone => None
    case _ => Some(step.c)
  }

  /** A step changes one call, or adds one, or leaves them as they are. */
  lemma CallsAfter(s: State, step: Step)
    requires Enabled(s, step)
    ensures var t := Apply(s, step);
            match Mover(s, step)
            case Some(c) => c < |s.calls| == |t.calls| && t.calls == s.calls[c := t.calls[c]]
            case None => t.calls == if step.Arrive? then s.calls + [NewCall(step.req)]
                else s.calls
  {
    hide Decimal;
  }

  /** Slots change hands together with the phase of the call that takes or returns one. */
  lemma SlotsAfter(s: State, step: Step)
    requires Enabled(s, step)
    ensures var t := Apply(s, step);
            match Mover(s, step)
            case Some(c) =>
              c < |s.calls| == |t.calls|
              && t.slots == s.slots - (if HoldsSlot(s.calls[c].phase) then 1 else 0)
                                    + (if HoldsSlot(t.calls[c].phase) then 1 else 0)
            case None => t.slots == s.slots
    ensures s.slots <= MAX_IN_FLIGHT ==> Apply(s, step).slots <= MAX_IN_FLIGHT
  {
    hide Decimal;
  }

  lemma KeepsSlots(s: State, step: Step)
    requires Enabled(s, step) && SlotsOk(s)
    ensures SlotsOk(Apply(s, step))
  {
    var t := Apply(s, step);
    CallsAfter(s, step);
    SlotsAfter(s, step);
    hide Apply, Enabled;
    if step.Arrive? {
      assert t.calls[..|s.calls|] == s.calls;
    } else if Mover(s, step).Some? {
      HoldingUpdate(s.calls, Mover(s, step).value, t.calls[Mover(s, step).value]);
    }
  }

  lemma MoverOk(s: State, step: Step)
    requires Enabled(s, step) && Mover(s, step).Some? && Mover(s, step).value < |s.calls|
    requires CallOk(s.calls[Mover(s, step).value], s.closed) && DeliveryOk(s) && DoneOk(s)
    ensures var c, t := Mover(s, step).value, Apply(s, step); c < |t.calls| && CallOk(t.calls[c], t.closed)
  {
    match step {
      case Send => ReceiverOk(s);
      case Acquire(_) => EarlyOk(s, step);
      case GiveUp(_) => EarlyOk(s, step);
      case DrawId(_) => EarlyOk(s, step);
      case Enter(_) => EarlyOk(s, step);
      case FailEncode(_) => WriterOk(s, step);
      case Land(_) => WriterOk(s, step);
      case WriteReturns(_, _) => WriterOk(s, step);
      case _ => LateOk(s, step);
    }
  }

  /** Up to the pending map. */
  lemma EarlyOk(s: State, step: Step)
    requires step.Acquire? || step.GiveUp? || step.DrawId? || step.Enter?
    requires Enabled(s, step) && CallOk(s.calls[step.c], s.closed)
    ensures CallOk(Apply(s, step).calls[step.c], Apply(s, step).closed)
  {
    hide Decimal;
  }

  /** While the frame is written. */
  lemma WriterOk(s: State, step: Step)
    requires step.FailEncode? || step.Land? || step.WriteReturns?
    requires Enabled(s, step) && CallOk(s.calls[step.c], s.closed)
    ensures CallOk(Apply(s, step).calls[step.c], Apply(s, step).closed)
  {
    hide Decimal;
  }

  /** From the select on. */
  lemma LateOk(s: State, step: Step)
    requires step.Receive? || step.SeeDone? || step.Expire? || step.Forget? || step.Release?
    requires Enabled(s, step) && CallOk(s.calls[step.c], s.closed) && DoneOk(s)
    ensures CallOk(Apply(s, step).calls[step.c], Apply(s, step).closed)
  {
    hide Decimal;
  }

  /** The call that a response is sent to. */
  lemma ReceiverOk(s: State)
    requires Enabled(s, Send) && DeliveryOk(s) && CallOk(s.calls[s.delivering.value.0], s.closed)
    ensures CallOk(Apply(s, Send).calls[s.delivering.value.0], Apply(s, Send).closed)
  {
    hide Decimal;
  }

  lemma StillOk(call: Call, s: State, step: Step)
    requires Enabled(s, step) && CallOk(call, s.closed)
    ensures CallOk(call, Apply(s, step).closed)
  {
    assert s.closed ==> Apply(s, step).closed;
    hide Apply, Decimal;
  }

  lemma KeepsCalls(s: State, step: Step)
    requires Enabled(s, step) && CallsOk(s) && DeliveryOk(s) && DoneOk(s)
    ensures CallsOk(Apply(s, step))
  {
    var t := Apply(s, step);
    CallsAfter(s, step);
    hide Apply, Enabled, CallOk, DeliveryOk, DoneOk;
    forall c | 0 <= c < |t.calls| ensures CallOk(t.calls[c], t.closed) {
      if Mover(s, step) == Some(c) {
        MoverOk(s, step);
      } else if c < |s.calls| {
        StillOk(s.calls[c], s, step);
      } else {
        NewCallOk(t.calls[c], t.closed);
      }
    }
  }

  lemma NewCallOk(call: Call, closed: bool)
    requires call == NewCall(call.req)
    ensures CallOk(call, closed)
  {
  }

  /** Numbers are drawn once and kept; frames are written once, under the call's id. */
  lemma NumbersAfter(s: State, step: Step)
    requires Enabled(s, step)
    ensures var t := Apply(s, step);
            t.nextID == (if step.DrawId? then s.nextID + 1 else s.nextID)
            && (match Mover(s, step)
                case Some(c) => c < |s.calls| == |t.calls|
                    && t.calls[c].num == (if step.DrawId? then s.nextID + 1 else s.calls[c].num)
                case None => true)
  {
    hide Decimal;
  }

  lemma KeepsNumbers(s: State, step: Step)
    requires Enabled(s, step) && NumbersOk(s)
    ensures NumbersOk(Apply(s, step))
  {
    CallsAfter(s, step);
    NumbersAfter(s, step);
    hide Apply, Enabled;
  }

  /** What a step does to the pending map. */
  lemma PendingChange(s: State, step: Step)
    requires Enabled(s, step)
    ensures Apply(s, step).pending ==
            match step
            case Enter(c) => if s.closed then s.pending else s.pending[Id(s.calls[c]) := c]
            case Forget(c) => s.pending - {Id(s.calls[c])}
            case Take(resp) => if resp.reqId in s.pending then s.pending - {resp.reqId} else s.pending
            case MarkClosed => if s.closed then s.pending else map[]
            case _ => s.pending
    ensures Apply(s, step).closed == (s.closed || step.MarkClosed?)
  {
    hide Decimal;
  }

  lemma EntryStays(s: State, step: Step, id: string)
    requires Enabled(s, step) && DeliveryOk(s) && id in s.pending && EntryOk(s, id, s.pending[id])
    requires id in Apply(s, step).pending && !step.Enter?
    ensures EntryOk(Apply(s, step), id, s.pending[id]) && Apply(s, step).pending[id] == s.pending[id]
  {
    hide Decimal;
  }

  lemma EntryMade(s: State, step: Step, id: string)
    requires Enabled(s, step) && CallsOk(s) && step.Enter? && id in Apply(s, step).pending
    requires id in s.pending ==> EntryOk(s, id, s.pending[id])
    ensures EntryOk(Apply(s, step), id, Apply(s, step).pending[id])
  {
    hide Decimal;
    KeepsEntered(s, step);
    hide CallsOk;
  }

  lemma KeepsPending(s: State, step: Step)
    requires Enabled(s, step) && CallsOk(s) && PendingOk(s) && DeliveryOk(s)
    ensures PendingOk(Apply(s, step))
  {
    PendingChange(s, step);
    hide Apply, Enabled, Decimal, CallsOk, DeliveryOk, EntryOk;
    var t := Apply(s, step);
    forall id | id in t.pending ensures EntryOk(t, id, t.pending[id]) {
      if step.Enter? { EntryMade(s, step, id); } else { EntryStays(s, step, id); }
    }
  }

  lemma KeepsEntered(s: State, step: Step)
    requires Enabled(s, step) && CallsOk(s) && step.Enter?
    ensures s.calls[step.c].num > 0 && s.calls[step.c].sent == 0
  {
    assert CallOk(s.calls[step.c], s.closed);
  }

  lemma KeepsDelivery(s: State, step: Step)
    requires Enabled(s, step) && CallsOk(s) && NumbersOk(s) && PendingOk(s) && DeliveryOk(s)
    ensures DeliveryOk(Apply(s, step))
  {
    if s.delivering.Some? && !step.Send? {
      var (c, resp) := s.delivering.value;
      StillExpecting(s, step, c, resp.reqId);
      StillAbsent(s, step, c, resp.reqId);
    } else if step.Take? && step.resp.reqId in s.pending {
      TakenIsExpected(s, step.resp);
    }
    DeliveringAfter(s, step);
    hide Apply, Enabled, Expecting, Decimal;
  }

  lemma DeliveringAfter(s: State, step: Step)
    requires Enabled(s, step)
    ensures Apply(s, step).delivering ==
            match step
            case Take(resp) => if resp.reqId in s.pending then Some((s.pending[resp.reqId], resp)) else s.delivering
            case Send => None
            case _ => s.delivering
    ensures step.Take? ==> s.delivering.None?
  {
    hide Decimal;
  }

  lemma TakenIsExpected(s: State, resp: Response)
    requires Enabled(s, Take(resp)) && PendingOk(s) && resp.reqId in s.pending
    ensures var c, t := s.pending[resp.reqId], Apply(s, Take(resp));
            Expecting(t, c, resp.reqId) && !t.calls[c].phase.Numbered? && resp.reqId !in t.pending
  {
    hide Decimal;
    assert EntryOk(s, resp.reqId, s.pending[resp.reqId]);
  }

  lemma StillExpecting(s: State, step: Step, c: nat, id: string)
    requires Enabled(s, step) && !step.Send? && CallsOk(s) && Expecting(s, c, id) && !s.calls[c].phase.Numbered?
    ensures Expecting(Apply(s, step), c, id) && !Apply(s, step).calls[c].phase.Numbered?
  {
    hide Decimal, CallOk;
    if step.DrawId? { SlottedUnnumbered(s, step.c); }
  }

  lemma StillAbsent(s: State, step: Step, c: nat, id: string)
    requires Enabled(s, step) && NumbersOk(s) && Expecting(s, c, id) && !s.calls[c].phase.Numbered? && id !in s.pending
    ensures id !in Apply(s, step).pending
  {
    PendingChange(s, step);
    if step.Enter? { DecimalDistinct(s.calls[c].num, s.calls[step.c].num); }
    hide Apply, Decimal;
  }

  lemma SlottedUnnumbered(s: State, c: nat)
    requires CallsOk(s) && c < |s.calls| && s.calls[c].phase.Slotted?
    ensures s.calls[c].num == 0 && !s.calls[c].landed
  {
    assert CallOk(s.calls[c], s.closed);
  }

  lemma DecimalDistinct(m: nat, n: nat)
    ensures m != n ==> Decimal(m) != Decimal(n)
  {
    if Decimal(m) == Decimal(n) { DecimalInjective(m, n); }
  }

  lemma RegisteredAfter(s: State, step: Step, c: nat)
    requires Enabled(s, step)
    ensures var t := Apply(s, step);
            c < |t.calls| && Registered(t.calls[c].phase) && t.calls[c].sent == 0 ==>
              && c < |s.calls| && s.calls[c].sent == 0 && t.calls[c].num == s.calls[c].num
              && (Registered(s.calls[c].phase) || (step == Enter(c) && !s.closed))
              && step != Forget(c)
              && (step.Send? ==> s.delivering.Some? && s.delivering.value.0 != c)
  {
    hide Decimal;
  }

  lemma StaysFindable(s: State, step: Step, c: nat)
    requires Enabled(s, step) && NumbersOk(s) && CallsOk(s) && c < |s.calls| && Findable(s, c)
    ensures Findable(Apply(s, step), c)
  {
    var t := Apply(s, step);
    RegisteredAfter(s, step, c);
    PendingChange(s, step);
    DeliveringAfter(s, step);
    assert CallOk(s.calls[c], s.closed);
    if step.Enter? && step.c != c && step.c < |s.calls| { DecimalDistinct(s.calls[c].num, s.calls[step.c].num); }
    if step.Forget? && step.c != c && step.c < |s.calls| { DecimalDistinct(s.calls[c].num, s.calls[step.c].num); }
    hide Apply, Decimal, CallOk;
  }

  lemma KeepsEntries(s: State, step: Step)
    requires Enabled(s, step) && NumbersOk(s) && CallsOk(s) && EntriesOk(s)
    ensures EntriesOk(Apply(s, step))
  {
    var t := Apply(s, step);
    CallsAfter(s, step);
    hide Findable, Apply, Enabled;
    forall c | 0 <= c < |t.calls| ensures Findable(t, c) {
      if c < |s.calls| { StaysFindable(s, step, c); } else { NewIsFindable(t, c); }
    }
  }

  lemma NewIsFindable(s: State, c: nat)
    requires c < |s.calls| && s.calls[c].phase.Queued?
    ensures Findable(s, c)
  {
  }

  lemma WireAfter(s: State, step: Step)
    requires Enabled(s, step) && CallsOk(s)
    ensures var t := Apply(s, step);
            match Mover(s, step)
            case Some(c) =>
              c < |s.calls| == |t.calls| && t.calls[c].req == s.calls[c].req
              && t.calls[c].landed == (s.calls[c].landed || step.Land?)
              && (s.calls[c].landed || step.Land? ==> t.calls[c].num == s.calls[c].num)
              && t.wire == s.wire + if step.Land? then [Frame(Id(t.calls[c]), t.calls[c].req)] else []
            case None => t.wire == s.wire
  {
    hide Decimal;
    if step.DrawId? { SlottedUnnumbered(s, step.c); }
    assert s.wire + [] == s.wire;
  }

  lemma KeepsWire(s: State, step: Step)
    requires Enabled(s, step) && CallsOk(s) && WireOk(s)
    ensures WireOk(Apply(s, step))
  {
    var t := Apply(s, step);
    CallsAfter(s, step);
    WireAfter(s, step);
    hide Apply, Enabled, Decimal, CallsOk;
    forall f | f in t.wire ensures exists c :: 0 <= c < |t.calls| && FrameOf(f, t.calls[c]) {
      if f in s.wire {
        var c :| 0 <= c < |s.calls| && FrameOf(f, s.calls[c]);
        assert FrameOf(f, t.calls[c]);
      } else {
        assert FrameOf(f, t.calls[Mover(s, step).value]);
      }
    }
    forall c | 0 <= c < |t.calls| && t.calls[c].landed ensures Frame(Id(t.calls[c]), t.calls[c].req) in t.wire {
      assert c < |s.calls| && s.calls[c].landed ==> Frame(Id(s.calls[c]), s.calls[c].req) in s.wire;
    }
  }

  /** Every step, of any goroutine and of any peer, keeps the invariant. */
  lemma StepKeepsInv(s: State, step: Step)
    requires Enabled(s, step) && Inv(s)
    ensures Inv(Apply(s, step))
  {
    KeepsSlots(s, step);
    KeepsCalls(s, step);
    KeepsNumbers(s, step);
    KeepsPending(s, step);
    KeepsEntries(s, step);
    KeepsDelivery(s, step);
    KeepsWire(s, step);
  }
}
