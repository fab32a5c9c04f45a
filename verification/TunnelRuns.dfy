/** What holds over whole runs of a tunnel connection: matching, outcomes, and the way out after a close. */
module TunnelRuns {
  import opened Text
  import opened Tunnel

  lemma {:induction false} RunKeepsInv(s: State, steps: seq<Step>)
    requires Inv(s) && Runs(s, steps)
    ensures Inv(Final(s, steps))
    decreases |steps|
  {
    if steps != [] {
      StepKeepsInv(s, steps[0]);
      RunKeepsInv(Apply(s, steps[0]), steps[1..]);
    }
  }

  ghost predicate Reachable(s: State) {
    exists steps :: Runs(INITIAL, steps) && s == Final(INITIAL, steps)
  }

  /** The invariant holds in every state of every run. */
  lemma ReachableInv(s: State)
    requires Reachable(s)
    ensures Inv(s)
  {
    hide Inv, Runs, Final;
    var steps :| Runs(INITIAL, steps) && s == Final(INITIAL, steps);
    InitInv();
    RunKeepsInv(INITIAL, steps);
  }

  lemma InitInv()
    ensures Inv(INITIAL)
  {
  }

  function OutcomeOf(p: Phase): Option<Outcome> {
    if p.Leaving? || p.Forgotten? || p.Done? then Some(p.out) else None
  }

  /** A frame for this call stands on the wire. */
  ghost predicate Asked(s: State, c: nat) {
    c < |s.calls| && s.calls[c].num > 0 && Frame(Id(s.calls[c]), s.calls[c].req) in s.wire
  }

  /** In every run, from any peer: answers reach only the call that owns their id, at most one each. */
  lemma AnswersMatch(s: State, c: nat)
    requires Reachable(s) && c < |s.calls|
    ensures s.calls[c].sent <= 1 && |s.calls[c].channel| <= s.calls[c].sent
    ensures forall resp | resp in s.calls[c].channel :: resp.reqId == Id(s.calls[c])
    ensures OutcomeOf(s.calls[c].phase).Some? && OutcomeOf(s.calls[c].phase).value.Answered? ==>
              OutcomeOf(s.calls[c].phase).value.resp.reqId == Id(s.calls[c])
    ensures forall d | 0 <= d < |s.calls| && d != c && s.calls[c].num > 0 :: Id(s.calls[d]) != Id(s.calls[c])
  {
    ReachableInv(s);
    hide Reachable, Decimal, Holding;
    assert CallOk(s.calls[c], s.closed);
    forall d | 0 <= d < |s.calls| && d != c && s.calls[c].num > 0 ensures Id(s.calls[d]) != Id(s.calls[c]) {
      DecimalDistinct(s.calls[d].num, s.calls[c].num);
    }
  }

  /** The sole reader never blocks on a full channel, the done channel is never closed twice, and the slots
      taken are the calls between acquire and release. */
  lemma DeliverNeverBlocks(s: State)
    requires Reachable(s)
    ensures s.delivering.Some? ==> Enabled(s, Send)
    ensures s.doneCloses + s.closers <= 1
    ensures s.slots == Holding(s.calls) <= 32
    ensures forall c | 0 <= c < |s.calls| && s.calls[c].phase.Queued? :: Enabled(s, Acquire(c)) <==> s.slots < 32
  {
    ReachableInv(s);
    hide Reachable, Decimal, Holding;
    if s.delivering.Some? { assert CallOk(s.calls[s.delivering.value.0], s.closed); }
  }

  /** Overloaded means never asked; timed out and answered mean asked. A call is answered exactly if a response was sent
      on its channel and taken from it, and then with that response; a write or an encoding error is reported exactly if
      its own write or encoding failed; overloaded and timed out are the outcomes of calls that gave up at their
      deadline, and of no others. */
  lemma OutcomesTellTheTruth(s: State, c: nat)
    requires Reachable(s) && c < |s.calls| && OutcomeOf(s.calls[c].phase).Some?
    ensures match OutcomeOf(s.calls[c].phase).value
            case Failed(Overloaded) => !s.calls[c].landed && !Asked(s, c)
            case Failed(TimedOut) => Asked(s, c)
            case Failed(Disconnected) => s.closed
            case Answered(_) => Asked(s, c)
            case Failed(EncodeFailed) => !s.calls[c].landed && !Asked(s, c)
            case Failed(WriteFailed) => s.calls[c].num > 0
    ensures var out := OutcomeOf(s.calls[c].phase).value;
            && (out.Answered? <==> s.calls[c].sent == 1 && s.calls[c].channel == [])
            && s.calls[c].got == (if out.Answered? then Some(out.resp) else None)
            && (out == Failed(WriteFailed) <==> s.calls[c].write == Returned(false))
            && (out == Failed(EncodeFailed) <==> s.calls[c].write == EncodeError)
            && (out == Failed(Overloaded) || out == Failed(TimedOut) <==> s.calls[c].expired)
  {
    ReachableInv(s);
    hide Reachable, Inv, Asked;
    InvTellsTheTruth(s, c);
  }

  lemma InvTellsTheTruth(s: State, c: nat)
    requires Inv(s) && c < |s.calls| && OutcomeOf(s.calls[c].phase).Some?
    ensures match OutcomeOf(s.calls[c].phase).value
            case Failed(Overloaded) => !s.calls[c].landed && !Asked(s, c)
            case Failed(TimedOut) => Asked(s, c)
            case Failed(Disconnected) => s.closed
            case Answered(resp) => Asked(s, c) && resp.reqId == Id(s.calls[c])
            case Failed(EncodeFailed) => !s.calls[c].landed && !Asked(s, c)
            case Failed(WriteFailed) => s.calls[c].num > 0
    ensures var out := OutcomeOf(s.calls[c].phase).value;
            && (out.Answered? <==> s.calls[c].sent == 1 && s.calls[c].channel == [])
            && s.calls[c].got == (if out.Answered? then Some(out.resp) else None)
            && (out == Failed(WriteFailed) <==> s.calls[c].write == Returned(false))
            && (out == Failed(EncodeFailed) <==> s.calls[c].write == EncodeError)
            && (out == Failed(Overloaded) || out == Failed(TimedOut) <==> s.calls[c].expired)
  {
    hide Decimal, Holding;
    assert CallOk(s.calls[c], s.closed);
    if !s.calls[c].landed { NotLandedNotAsked(s, c); }
  }

  /** Only a call that never got a slot leaves without a number, and then it is overloaded. */
  lemma NumberedUnlessOverloaded(s: State, c: nat)
    requires Reachable(s) && c < |s.calls| && OutcomeOf(s.calls[c].phase).Some?
    ensures s.calls[c].num == 0 <==> OutcomeOf(s.calls[c].phase).value == Failed(Overloaded)
  {
    ReachableInv(s);
    hide Reachable, Decimal, Holding;
    assert CallOk(s.calls[c], s.closed);
  }

  /** A response in time: taken, sent and received, it is what the waiting call of its id returns. */
  lemma AnswerReturned(s: State, c: nat, resp: Response) returns (taken: State, sent: State, received: State)
    requires Inv(s) && c < |s.calls| && s.calls[c].phase.Waiting? && s.calls[c].sent == 0
    requires !s.closed && s.delivering.None? && resp.reqId == Id(s.calls[c])
    ensures Enabled(s, Take(resp)) && taken == Apply(s, Take(resp))
    ensures Enabled(taken, Send) && sent == Apply(taken, Send)
    ensures Enabled(sent, Receive(c)) && received == Apply(sent, Receive(c))
    ensures c < |received.calls| && received.calls[c].phase == Leaving(Answered(resp))
    ensures Id(received.calls[c]) == resp.reqId
  {
    assert Findable(s, c) && CallOk(s.calls[c], s.closed);
    hide Decimal, Inv, CallOk, Findable;
    taken := Apply(s, Take(resp));
    assert taken.delivering == Some((c, resp)) && taken.calls == s.calls;
    sent, received := SentIsReceived(taken, c, resp);
  }

  lemma SentIsReceived(s: State, c: nat, resp: Response) returns (sent: State, received: State)
    requires c < |s.calls| && s.calls[c].phase.Waiting? && s.calls[c].channel == [] && s.delivering == Some((c, resp))
    ensures Enabled(s, Send) && sent == Apply(s, Send)
    ensures Enabled(sent, Receive(c)) && received == Apply(sent, Receive(c))
    ensures c < |received.calls| && received.calls[c].phase == Leaving(Answered(resp))
    ensures received.calls[c].num == s.calls[c].num
  {
    hide Decimal;
    sent := Apply(s, Send);
    assert sent.calls[c].channel == [resp];
    received := Apply(sent, Receive(c));
  }

  lemma NotLandedNotAsked(s: State, c: nat)
    requires Inv(s) && c < |s.calls| && !s.calls[c].landed
    ensures !Asked(s, c)
  {
    hide Decimal, Holding;
    if Asked(s, c) {
      var d :| 0 <= d < |s.calls| && FrameOf(Frame(Id(s.calls[c]), s.calls[c].req), s.calls[d]);
      DecimalDistinct(s.calls[c].num, s.calls[d].num);
    }
  }

  /** Closed is for good, and a closed client never has anything pending again. */
  lemma {:induction false} ClosedForGood(s: State, steps: seq<Step>)
    requires Inv(s) && s.closed && Runs(s, steps)
    ensures Final(s, steps).closed && Final(s, steps).pending == map[]
    decreases |steps|
  {
    if steps != [] {
      StepKeepsInv(s, steps[0]);
      ClosedForGood(Apply(s, steps[0]), steps[1..]);
    }
  }

  // ---------------------------------------------------------------- the way out

  function Weight(call: Call): nat {
    match call.phase
    case Queued => 10
    case Slotted => 9
    case Numbered => 8
    case Pending => if call.landed then 4 else 5
    case Waiting => 3
    case Leaving(_) => 2
    case Forgotten(_) => 1
    case Done(_) => 0
  }

  function TotalWeight(calls: seq<Call>): nat {
    if calls == [] then 0 else TotalWeight(calls[..|calls| - 1]) + Weight(calls[|calls| - 1])
  }

  function Measure(s: State): nat {
    TotalWeight(s.calls) + 2 * |s.pending| + (if s.delivering.Some? then 1 else 0) + s.closers
  }

  lemma {:induction false} WeightUpdate(calls: seq<Call>, c: nat, call: Call)
    requires c < |calls|
    ensures TotalWeight(calls[c := call]) == TotalWeight(calls) - Weight(calls[c]) + Weight(call)
    ensures TotalWeight(calls) >= Weight(calls[c])
  {
    var n := |calls| - 1;
    if c < n {
      assert calls[c := call][..n] == calls[..n][c := call];
      WeightUpdate(calls[..n], c, call);
    } else {
      assert calls[c := call][..n] == calls[..n];
    }
  }

  /** New calls and the first close come from outside; every other step works towards the end. */
  predicate External(s: State, step: Step) {
    step.Arrive? || (step.MarkClosed? && !s.closed)
  }

  lemma WeightAfter(s: State, step: Step)
    requires Enabled(s, step) && Mover(s, step).Some?
    ensures var c, t := Mover(s, step).value, Apply(s, step);
            && c < |s.calls| && |t.calls| == |s.calls|
            && TotalWeight(t.calls) == TotalWeight(s.calls) - Weight(s.calls[c]) + Weight(t.calls[c])
  {
    hide Decimal;
    var c, t := Mover(s, step).value, Apply(s, step);
    assert t.calls == s.calls[c := t.calls[c]];
    WeightUpdate(s.calls, c, t.calls[c]);
  }

  lemma PendingAfter(s: State, step: Step)
    requires Enabled(s, step) && !External(s, step)
    ensures |Apply(s, step).pending| <= |s.pending| + (if step.Enter? && !s.closed then 1 else 0)
    ensures step.Take? && step.resp.reqId in s.pending ==> |Apply(s, step).pending| < |s.pending|
  {
    PendingChange(s, step);
    hide Apply, Decimal;
    match step {
      case Enter(c) => SizeAfterPut(s.pending, Id(s.calls[c]), c);
      case Forget(c) => SizeAfterRemove(s.pending, Id(s.calls[c]));
      case Take(resp) => SizeAfterRemove(s.pending, resp.reqId);
      case _ =>
    }
  }

  lemma MoverWeight(s: State, step: Step)
    requires Enabled(s, step) && Mover(s, step).Some?
    ensures var c, t := Mover(s, step).value, Apply(s, step);
            && c < |s.calls| && |t.calls| == |s.calls|
            && Weight(t.calls[c]) + (if step.Enter? && !s.closed then 3 else if step.Send? then 0 else 1)
               <= Weight(s.calls[c])
  {
    hide Decimal;
  }

  lemma RestAfter(s: State, step: Step)
    requires Enabled(s, step) && !External(s, step)
    ensures var t := Apply(s, step);
            && t.closers == (if step.CloseDone? then s.closers - 1 else s.closers)
            && (step.Send? ==> s.delivering.Some? && t.delivering.None?)
            && (step.Take? ==> s.delivering.None? && (step.resp.reqId !in s.pending ==> t == s))
            && (!step.Send? && !step.Take? ==> t.delivering == s.delivering)
            && (step.MarkClosed? ==> t == s)
            && (step.CloseDone? ==> s.closers > 0)
            && (Mover(s, step).None? ==> t.calls == s.calls)
  {
    hide Decimal;
  }

  /** Every step of the connection's own goroutines brings the end nearer, or changes nothing. */
  lemma MeasureDrops(s: State, step: Step)
    requires Enabled(s, step) && !External(s, step)
    ensures Apply(s, step) == s || Measure(Apply(s, step)) < Measure(s)
  {
    PendingAfter(s, step);
    RestAfter(s, step);
    if Mover(s, step).Some? {
      WeightAfter(s, step);
      MoverWeight(s, step);
    }
    hide Apply, Enabled, Decimal, TotalWeight, Weight;
  }

  /** All work has ended. */
  predicate Quiet(s: State) {
    s.delivering.None? && s.closers == 0 && forall c | 0 <= c < |s.calls| :: s.calls[c].phase.Done?
  }

  predicate ByDeadline(step: Step) { step.GiveUp? || step.Expire? }

  /** A step that goes on without any deadline, arrival or frame. */
  predicate Unaided(s: State, step: Step) {
    Enabled(s, step) && !External(s, step) && !ByDeadline(step) && !step.Take? && Apply(s, step) != s
  }

  lemma {:induction false} SomeHolder(calls: seq<Call>) returns (c: nat)
    requires Holding(calls) > 0
    ensures c < |calls| && HoldsSlot(calls[c].phase)
  {
    var n := |calls| - 1;
    if HoldsSlot(calls[n].phase) { c := n; } else { c := SomeHolder(calls[..n]); }
  }

  function HolderStep(s: State, c: nat): Step
    requires c < |s.calls| && HoldsSlot(s.calls[c].phase)
  {
    match s.calls[c].phase
    case Slotted => DrawId(c)
    case Numbered => Enter(c)
    case Pending => WriteReturns(c, false)
    case Waiting => SeeDone(c)
    case Leaving(_) => Forget(c)
    case _ => Release(c)
  }

  /** A call that holds a slot can take its next step once the done channel is closed. */
  lemma HolderGoesOn(s: State, c: nat)
    requires SlotsOk(s) && s.closed && s.doneCloses > 0 && c < |s.calls| && HoldsSlot(s.calls[c].phase)
    ensures Unaided(s, HolderStep(s, c))
  {
    hide Decimal;
    SlotHeld(s.calls, c);
    assert Apply(s, HolderStep(s, c)).calls[c].phase != s.calls[c].phase;
  }

  /** After a close, as long as a pending write returns, something can always go on until all is quiet. */
  lemma ClosedGoesOn(s: State)
    requires Inv(s) && s.closed && !Quiet(s)
    ensures exists step :: Unaided(s, step)
  {
    hide Decimal, Holding, HoldsSlot;
    if s.closers > 0 {
      assert Unaided(s, CloseDone);
    } else if s.delivering.Some? {
      DeliveryGoesOn(s);
    } else {
      var c :| 0 <= c < |s.calls| && !s.calls[c].phase.Done?;
      QueuedOrHolding(s.calls[c].phase);
      hide Apply, Enabled;
      if s.calls[c].phase.Queued? && s.slots < MAX_IN_FLIGHT {
        QueueGoesOn(s, c);
      } else if s.calls[c].phase.Queued? {
        var d := SomeHolder(s.calls);
        HolderGoesOn(s, d);
      } else {
        HolderGoesOn(s, c);
      }
    }
  }

  lemma DeliveryGoesOn(s: State)
    requires Inv(s) && s.delivering.Some?
    ensures Unaided(s, Send)
  {
    hide Decimal, Holding;
    assert CallOk(s.calls[s.delivering.value.0], s.closed);
  }

  lemma QueueGoesOn(s: State, c: nat)
    requires c < |s.calls| && s.calls[c].phase.Queued? && s.slots < MAX_IN_FLIGHT
    ensures Unaided(s, Acquire(c))
  {
    hide Decimal;
    assert Apply(s, Acquire(c)).slots != s.slots;
  }

  lemma QueuedOrHolding(p: Phase)
    ensures p.Queued? || p.Done? || HoldsSlot(p)
  {
  }

  lemma {:induction false} SlotHeld(calls: seq<Call>, c: nat)
    requires c < |calls| && HoldsSlot(calls[c].phase)
    ensures Holding(calls) > 0
  {
    var n := |calls| - 1;
    if c < n { SlotHeld(calls[..n], c); }
  }

  lemma {:induction false} NoHolders(calls: seq<Call>)
    requires forall c | 0 <= c < |calls| :: calls[c].phase.Done?
    ensures Holding(calls) == 0
  {
    if calls != [] { NoHolders(calls[..|calls| - 1]); }
  }

  lemma PendingUnfinished(s: State)
    requires PendingOk(s)
    ensures forall id | id in s.pending :: s.pending[id] < |s.calls| && !s.calls[s.pending[id]].phase.Done?
  {
    forall id | id in s.pending ensures s.pending[id] < |s.calls| && !s.calls[s.pending[id]].phase.Done? {
      assert EntryOk(s, id, s.pending[id]);
    }
  }

  /** Once quiet, nothing is pending and every slot is back. */
  lemma QuietIsClean(s: State)
    requires Inv(s) && Quiet(s)
    ensures s.pending == map[] && s.slots == 0
  {
    NoHolders(s.calls);
    PendingUnfinished(s);
  }

  /** A run after a close: calls may still arrive, from callers that had looked the client up before; every other step
      changes something. */
  predicate Inner(s: State, steps: seq<Step>)
    decreases |steps|
  {
    steps == [] ||
    (Enabled(s, steps[0]) && (steps[0].Arrive? || (!External(s, steps[0]) && Apply(s, steps[0]) != s))
     && Inner(Apply(s, steps[0]), steps[1..]))
  }

  function Arrivals(steps: seq<Step>): nat {
    if steps == [] then 0 else (if steps[0].Arrive? then 1 else 0) + Arrivals(steps[1..])
  }

  lemma ArrivalWeighs(s: State, req: Request)
    ensures Measure(Apply(s, Arrive(req))) == Measure(s) + 10
  {
    var t := Apply(s, Arrive(req));
    assert t.calls[..|s.calls|] == s.calls;
  }

  /** The other steps are bounded by the measure and what the arrivals bring. */
  lemma {:induction false} InnerRunsEnd(s: State, steps: seq<Step>)
    requires Inner(s, steps)
    ensures Runs(s, steps) && |steps| - Arrivals(steps) <= Measure(s) + 10 * Arrivals(steps)
    decreases |steps|
  {
    hide Measure;
    if steps != [] {
      if steps[0].Arrive? { ArrivalWeighs(s, steps[0].req); } else { MeasureDrops(s, steps[0]); }
      InnerRunsEnd(Apply(s, steps[0]), steps[1..]);
      hide Apply;
    }
  }

  /** After a close every call returns, those that arrive late included: runs are bounded but for the arrivals
      themselves, and one that can go no further without a deadline has finished every call, emptied the pending map
      and given every slot back. */
  lemma ClosedDrains(s: State, steps: seq<Step>)
    requires Inv(s) && s.closed && Inner(s, steps)
    ensures Runs(s, steps) && |steps| - Arrivals(steps) <= Measure(s) + 10 * Arrivals(steps)
    ensures var t := Final(s, steps);
            (forall step :: !Unaided(t, step)) <==> (Quiet(t) && t.pending == map[] && t.slots == 0)
  {
    InnerRunsEnd(s, steps);
    RunKeepsInv(s, steps);
    ClosedForGood(s, steps);
    hide Inv, Inner, Runs, Final, Measure, Apply;
    var t := Final(s, steps);
    if Quiet(t) {
      QuietIsClean(t);
      NothingUnaided(t);
    } else {
      ClosedGoesOn(t);
    }
  }

  lemma NothingUnaided(t: State)
    requires Quiet(t)
    ensures forall step :: !Unaided(t, step)
  {
    hide Decimal;
  }
}
