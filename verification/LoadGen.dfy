/** The open-loop load generator: every request the clock calls for is accounted for, exactly once. */
module LoadGen {
  import opened Text

  /** What a worker is doing; due is the position of its job in the schedule. */
  datatype Worker = Idle | Building(due: nat) | Sending(due: nat) | Exited

  /** begun and interval, in nanoseconds, fix every due time before the run begins. */
  datatype State = State(
    begun: int, interval: int, scheduled: nat, next: nat, saturated: nat, queue: seq<nat>, capacity: nat,
    closed: bool, cancelled: bool, workers: seq<Worker>, dispatched: nat, buildFailures: nat, sent: nat, transport: nat,
    byStatus: map<int, nat>, latencies: seq<int>)

  datatype Event =
    | Schedule                                  // the clock reaches the next due time
    | Pick(w: nat)
    | Build(w: nat, ok: bool)
    | Respond(w: nat, status: int, at: int)
    | Fail(w: nat)                              // no response at all
    | Close                                     // the schedule is complete
    | Cancel                                    // the context is cancelled while waiting for a due time
    | Exit(w: nat)                              // the queue is closed and drained

  function Start(total: nat, workers: nat, begun: int, interval: int): State
    requires workers > 0
  {
    State(begun, interval, total, 0, 0, [], workers, false, false, seq(workers, _ => Idle), 0, 0, 0, 0, map[], [])
  }

  predicate Enabled(s: State, e: Event) {
    match e
    case Schedule => !s.closed && s.next < s.scheduled
    case Pick(w) => w < |s.workers| && s.workers[w].Idle? && s.queue != []
    case Build(w, _) => w < |s.workers| && s.workers[w].Building?
    case Respond(w, _, _) => w < |s.workers| && s.workers[w].Sending?
    case Fail(w) => w < |s.workers| && s.workers[w].Sending?
    case Close => !s.closed && s.next == s.scheduled
    case Cancel => !s.closed && s.next < s.scheduled
    case Exit(w) => w < |s.workers| && s.workers[w].Idle? && s.closed && s.queue == []
  }

  function Bumped(m: map<int, nat>, k: int): map<int, nat> {
    m[k := (if k in m then m[k] else 0) + 1]
  }

  function Apply(s: State, e: Event): State
    requires Enabled(s, e)
  {
    match e
    case Schedule =>
      if |s.queue| < s.capacity
      then s.(next := s.next + 1, queue := s.queue + [s.next], dispatched := s.dispatched + 1)
      else s.(next := s.next + 1, saturated := s.saturated + 1)
    case Pick(w) => s.(queue := s.queue[1..], workers := s.workers[w := Building(s.queue[0])])
    case Build(w, ok) =>
      if ok then s.(sent := s.sent + 1, workers := s.workers[w := Sending(s.workers[w].due)])
      else s.(transport := s.transport + 1, buildFailures := s.buildFailures + 1, workers := s.workers[w := Idle])
    case Respond(w, status, at) =>
      s.(byStatus := Bumped(s.byStatus, status), workers := s.workers[w := Idle],
         latencies := s.latencies + [at - (s.begun + s.workers[w].due * s.interval)])
    case Fail(w) => s.(transport := s.transport + 1, workers := s.workers[w := Idle])
    case Close => s.(closed := true)
    case Cancel => s.(closed := true, cancelled := true)
    case Exit(w) => s.(workers := s.workers[w := Exited])
  }

  predicate Busy(w: Worker, sending: bool) { if sending then w.Sending? else w.Building? }

  function Count(workers: seq<Worker>, sending: bool): nat {
    if workers == [] then 0
    else Count(workers[..|workers| - 1], sending) + if Busy(workers[|workers| - 1], sending) then 1 else 0
  }

  ghost function Sum(m: map<int, nat>): nat {
    if m == map[] then 0 else
      SomeKey(m);
      var k :| k in m;
      SmallerMap(m, k);
      m[k] + Sum(m - {k})
  }

  lemma SomeKey(m: map<int, nat>)
    requires m != map[]
    ensures exists k :: k in m
  {
    assert (forall k :: k !in m) ==> m == map[];
  }

  lemma SmallerMap(m: map<int, nat>, k: int)
    requires k in m
    ensures |m - {k}| < |m| && (m - {k}).Keys == m.Keys - {k}
  {
    assert (m - {k}).Keys == m.Keys - {k};
  }

  lemma {:induction false} SumWithout(m: map<int, nat>, k: int)
    requires k in m
    ensures Sum(m) == m[k] + Sum(m - {k})
    decreases |m|
  {
    var j :| j in m && Sum(m) == m[j] + Sum(m - {j});
    if j != k {
      SmallerMap(m, j);
      SmallerMap(m, k);
      SumWithout(m - {j}, k);
      SumWithout(m - {k}, j);
      assert m - {j} - {k} == m - {k} - {j};
    }
  }

  lemma SumBumped(m: map<int, nat>, k: int)
    ensures Sum(Bumped(m, k)) == Sum(m) + 1
  {
    var b := Bumped(m, k);
    SumWithout(b, k);
    if k in m { SumWithout(m, k); }
    assert b - {k} == m - {k};
    if k !in m { assert m - {k} == m; }
  }

  /** Every due time is saturated or dispatched; every dispatched job waits, is at work, or has come to one outcome. */
  ghost predicate Flow(s: State) {
    && s.next == s.saturated + s.dispatched && s.next <= s.scheduled
    && s.dispatched == |s.queue| + Count(s.workers, false) + s.sent + s.buildFailures
    && s.sent == Count(s.workers, true) + Sum(s.byStatus) + (s.transport - s.buildFailures)
    && s.buildFailures <= s.transport
    && |s.latencies| == Sum(s.byStatus)
  }

  predicate Ending(s: State) {
    && |s.queue| <= s.capacity
    && (s.closed && !s.cancelled ==> s.next == s.scheduled) && s.next <= s.scheduled
    && (forall w | 0 <= w < |s.workers| && s.workers[w].Exited? :: s.closed && s.queue == [])
  }

  ghost predicate Inv(s: State) { Flow(s) && Ending(s) }

  lemma {:induction false} CountUpdate(ws: seq<Worker>, w: nat, x: Worker, sending: bool)
    requires w < |ws|
    ensures Count(ws[w := x], sending) == Count(ws, sending)
              - (if Busy(ws[w], sending) then 1 else 0) + (if Busy(x, sending) then 1 else 0)
  {
    hide Busy;
    var n := |ws| - 1;
    if w < n {
      assert ws[w := x][..n] == ws[..n][w := x];
      CountUpdate(ws[..n], w, x, sending);
    } else {
      assert ws[w := x][..n] == ws[..n];
    }
  }

  /** The worker an event concerns. */
  function WorkerOf(e: Event): Option<nat> {
    if e.Schedule? || e.Close? || e.Cancel? then None else Some(e.w)
  }

  lemma WorkersAfter(s: State, e: Event)
    requires Enabled(s, e)
    ensures match WorkerOf(e)
            case Some(w) => w < |s.workers| == |Apply(s, e).workers|
                && Apply(s, e).workers == s.workers[w := Apply(s, e).workers[w]]
            case None => Apply(s, e).workers == s.workers
  {
  }

  /** How many are busy after an event: only its own worker may have started or stopped. */
  lemma BusyAfter(s: State, e: Event, sending: bool)
    requires Enabled(s, e)
    ensures Count(Apply(s, e).workers, sending) == Count(s.workers, sending)
              - (if (if sending then e.Respond? || e.Fail? else e.Build?) then 1 else 0)
              + (if (if sending then e.Build? && e.ok else e.Pick?) then 1 else 0)
  {
    WorkersAfter(s, e);
    if WorkerOf(e).Some? { CountUpdate(s.workers, e.w, Apply(s, e).workers[e.w], sending); }
    hide Count;
  }

  lemma EventKeepsFlow(s: State, e: Event)
    requires Enabled(s, e) && Flow(s)
    ensures Flow(Apply(s, e))
  {
    if e.Respond? { SumBumped(s.byStatus, e.status); }
    BusyAfter(s, e, false);
    BusyAfter(s, e, true);
    hide Sum, Count, Bumped;
  }

  lemma EventKeepsInv(s: State, e: Event)
    requires Enabled(s, e) && Inv(s)
    ensures Inv(Apply(s, e))
  {
    EventKeepsFlow(s, e);
    hide Flow;
  }

  predicate Finished(s: State) {
    s.closed && forall w | 0 <= w < |s.workers| :: s.workers[w].Exited?
  }

  lemma {:induction false} NobodyBusy(ws: seq<Worker>, sending: bool)
    requires forall w | 0 <= w < |ws| :: ws[w].Exited?
    ensures Count(ws, sending) == 0
  {
    if ws != [] { NobodyBusy(ws[..|ws| - 1], sending); }
  }

  /** The totals of a finished run. */
  ghost predicate Accounted(s: State) {
    && (!s.cancelled ==> s.scheduled == s.saturated + s.dispatched)
    && s.scheduled >= s.saturated + s.dispatched
    && s.dispatched == s.sent + s.buildFailures == Sum(s.byStatus) + s.transport
    && |s.latencies| == Sum(s.byStatus)
  }

  lemma FinishedIsAccounted(s: State)
    requires Inv(s) && Finished(s) && |s.workers| > 0
    ensures Accounted(s)
  {
    hide Sum;
    NobodyBusy(s.workers, false);
    NobodyBusy(s.workers, true);
    assert s.workers[0].Exited?;
  }

  // ---------------------------------------------------------------- the wait for the workers

  function Effort(w: Worker): nat {
    match w
    case Building(_) => 3
    case Sending(_) => 2
    case Idle => 1
    case Exited => 0
  }

  function Efforts(ws: seq<Worker>): nat {
    if ws == [] then 0 else Efforts(ws[..|ws| - 1]) + Effort(ws[|ws| - 1])
  }

  function Remaining(s: State): nat { 3 * |s.queue| + Efforts(s.workers) }

  lemma {:induction false} EffortUpdate(ws: seq<Worker>, w: nat, x: Worker)
    requires w < |ws|
    ensures Efforts(ws[w := x]) == Efforts(ws) - Effort(ws[w]) + Effort(x)
  {
    var n := |ws| - 1;
    if w < n {
      assert ws[w := x][..n] == ws[..n][w := x];
      EffortUpdate(ws[..n], w, x);
    } else {
      assert ws[w := x][..n] == ws[..n];
    }
  }

  /** Every step of a worker brings the end nearer. */
  lemma WorkerStepsDown(s: State, e: Event)
    requires Enabled(s, e) && WorkerOf(e).Some?
    ensures Remaining(Apply(s, e)) < Remaining(s) && Apply(s, e).closed == s.closed
  {
    WorkersAfter(s, e);
    EffortUpdate(s.workers, e.w, Apply(s, e).workers[e.w]);
    hide Efforts;
  }

  /** The workers alone: after the schedule is over nothing else moves. */
  predicate Drains(s: State, events: seq<Event>)
    decreases |events|
  {
    events == [] || (WorkerOf(events[0]).Some? && Enabled(s, events[0]) && Drains(Apply(s, events[0]), events[1..]))
  }

  function Drained(s: State, events: seq<Event>): State
    requires Drains(s, events)
    decreases |events|
  {
    if events == [] then s else Drained(Apply(s, events[0]), events[1..])
  }

  lemma {:induction false} DrainKeeps(s: State, events: seq<Event>)
    requires Inv(s) && s.closed && Drains(s, events)
    ensures Inv(Drained(s, events)) && Drained(s, events).closed && |Drained(s, events).workers| == |s.workers|
    ensures |events| <= Remaining(s)
    decreases |events|
  {
    hide Inv;
    if events != [] {
      EventKeepsInv(s, events[0]);
      WorkersAfter(s, events[0]);
      WorkerStepsDown(s, events[0]);
      DrainKeeps(Apply(s, events[0]), events[1..]);
    }
  }

  /** As long as requests return, some worker can go on until all have exited. */
  lemma SomeWorkerGoesOn(s: State)
    requires s.closed && !Finished(s)
    ensures exists e :: WorkerOf(e).Some? && Enabled(s, e)
  {
    var w :| 0 <= w < |s.workers| && !s.workers[w].Exited?;
    var e := if s.workers[w].Building? then Build(w, false)
             else if s.workers[w].Sending? then Fail(w)
             else if s.queue != [] then Pick(w) else Exit(w);
    assert WorkerOf(e).Some? && Enabled(s, e);
  }

  /** Once the schedule is over the wait ends: what the workers still do is bounded, and they can do no more exactly
      when all have exited, with every count in place. */
  lemma WaitEnds(s: State, events: seq<Event>)
    requires Inv(s) && s.closed && |s.workers| > 0 && Drains(s, events)
    ensures |events| <= Remaining(s)
    ensures var t := Drained(s, events);
            (forall e | WorkerOf(e).Some? :: !Enabled(t, e)) <==> (Finished(t) && Accounted(t))
  {
    DrainKeeps(s, events);
    var t := Drained(s, events);
    hide Inv, Drains, Drained, Accounted;
    if Finished(t) { FinishedIsAccounted(t); } else { SomeWorkerGoesOn(t); }
  }

  // ---------------------------------------------------------------- what is recorded

  predicate Runs(s: State, events: seq<Event>)
    decreases |events|, 0
  {
    events == [] || (Runs(s, events[..|events| - 1]) && Enabled(Final(s, events[..|events| - 1]), events[|events| - 1]))
  }

  function Final(s: State, events: seq<Event>): State
    requires Runs(s, events)
    decreases |events|, 1
  {
    if events == [] then s else Apply(Final(s, events[..|events| - 1]), events[|events| - 1])
  }

  /** How many of the events are of a kind. */
  function Number(events: seq<Event>, kind: Event -> bool): nat {
    if events == [] then 0
    else Number(events[..|events| - 1], kind) + if kind(events[|events| - 1]) then 1 else 0
  }

  predicate IsDue(e: Event) { e.Schedule? }
  predicate IsPick(e: Event) { e.Pick? }
  predicate IsSent(e: Event) { e.Build? && e.ok }
  predicate IsUnbuilt(e: Event) { e.Build? && !e.ok }
  predicate IsFail(e: Event) { e.Fail? }
  function HasStatus(status: int): Event -> bool { (e: Event) => e.Respond? && e.status == status }

  /** The due times, by position, that found fewer jobs waiting than there are workers. */
  function Taken(events: seq<Event>, workers: nat): seq<nat> {
    if events == [] then []
    else var init := events[..|events| - 1];
         Taken(init, workers)
         + if events[|events| - 1].Schedule? && |Taken(init, workers)| - Number(init, IsPick) < workers
           then [Number(init, IsDue)] else []
  }

  /** The due time whose job a worker picked last: jobs are picked in the order they were taken. */
  function Held(events: seq<Event>, workers: nat, w: nat): nat {
    if events == [] then 0
    else var init := events[..|events| - 1];
         if events[|events| - 1] == Pick(w) && Number(init, IsPick) < |Taken(init, workers)|
         then Taken(init, workers)[Number(init, IsPick)]
         else Held(init, workers, w)
  }

  /** For each response, the time from when its request was due. */
  function Latencies(events: seq<Event>, workers: nat, begun: int, interval: int): seq<int> {
    if events == [] then []
    else var init, e := events[..|events| - 1], events[|events| - 1];
         Latencies(init, workers, begun, interval)
         + if e.Respond? then [e.at - (begun + Held(init, workers, e.w) * interval)] else []
  }

  ghost predicate CountsMatch(s: State, events: seq<Event>) {
    && s.next == Number(events, IsDue)
    && s.sent == Number(events, IsSent)
    && s.buildFailures == Number(events, IsUnbuilt)
    && s.transport == Number(events, IsUnbuilt) + Number(events, IsFail)
  }

  ghost predicate StatusesMatch(s: State, events: seq<Event>) {
    forall k :: (if k in s.byStatus then s.byStatus[k] else 0) == Number(events, HasStatus(k))
  }

  ghost predicate QueueMatches(s: State, events: seq<Event>) {
    var taken, picked := Taken(events, s.capacity), Number(events, IsPick);
    s.dispatched == |taken| && s.saturated + |taken| == s.next && picked <= |taken| && s.queue == taken[picked..]
  }

  ghost predicate HoldersMatch(s: State, events: seq<Event>) {
    forall w | 0 <= w < |s.workers| && (s.workers[w].Building? || s.workers[w].Sending?) ::
      s.workers[w].due == Held(events, s.capacity, w)
  }

  ghost predicate WorkersMatch(s: State, events: seq<Event>) {
    HoldersMatch(s, events) && s.latencies == Latencies(events, s.capacity, s.begun, s.interval)
  }

  ghost predicate Matches(s: State, events: seq<Event>) {
    CountsMatch(s, events) && StatusesMatch(s, events) && QueueMatches(s, events) && WorkersMatch(s, events)
  }

  lemma NumberSnoc(events: seq<Event>, e: Event, kind: Event -> bool)
    ensures Number(events + [e], kind) == Number(events, kind) + if kind(e) then 1 else 0
  {
    assert (events + [e])[..|events|] == events;
  }

  lemma CountsGoOn(s: State, events: seq<Event>, e: Event)
    requires Enabled(s, e) && CountsMatch(s, events)
    ensures CountsMatch(Apply(s, e), events + [e])
  {
    NumberSnoc(events, e, IsDue);
    NumberSnoc(events, e, IsSent);
    NumberSnoc(events, e, IsUnbuilt);
    NumberSnoc(events, e, IsFail);
    hide Number;
  }

  lemma StatusesGoOn(s: State, events: seq<Event>, e: Event)
    requires Enabled(s, e) && StatusesMatch(s, events)
    ensures StatusesMatch(Apply(s, e), events + [e])
  {
    forall k ensures Number(events + [e], HasStatus(k)) ==
                     Number(events, HasStatus(k)) + if e.Respond? && e.status == k then 1 else 0
    {
      NumberSnoc(events, e, HasStatus(k));
    }
    hide Number;
  }

  lemma JobsSnoc(events: seq<Event>, e: Event, workers: nat)
    ensures Number(events + [e], IsPick) == Number(events, IsPick) + if e.Pick? then 1 else 0
    ensures var full := |Taken(events, workers)| - Number(events, IsPick) >= workers;
            Taken(events + [e], workers) ==
              Taken(events, workers) + if e.Schedule? && !full then [Number(events, IsDue)] else []
    ensures forall w: nat :: Held(events + [e], workers, w) ==
                             if e == Pick(w) && Number(events, IsPick) < |Taken(events, workers)|
                             then Taken(events, workers)[Number(events, IsPick)] else Held(events, workers, w)
  {
    assert (events + [e])[..|events|] == events;
  }

  lemma JobsGoOn(s: State, events: seq<Event>, e: Event)
    requires Enabled(s, e) && CountsMatch(s, events) && QueueMatches(s, events) && WorkersMatch(s, events)
    ensures QueueMatches(Apply(s, e), events + [e]) && WorkersMatch(Apply(s, e), events + [e])
  {
    QueueGoesOn(s, events, e);
    HoldersGoOn(s, events, e);
    LatenciesSnoc(events, e, s);
    hide Number, Taken, Held, Latencies, Bumped, QueueMatches, CountsMatch, HoldersMatch;
    assert HoldersMatch(s, events);
  }

  lemma HoldersGoOn(s: State, events: seq<Event>, e: Event)
    requires Enabled(s, e) && QueueMatches(s, events) && HoldersMatch(s, events)
    ensures HoldersMatch(Apply(s, e), events + [e])
  {
    HeldNext(s, events, e);
    hide Held, QueueMatches;
    WorkersAfter(s, e);
    var t := Apply(s, e);
    forall w | 0 <= w < |t.workers| && (t.workers[w].Building? || t.workers[w].Sending?)
      ensures t.workers[w].due == Held(events + [e], t.capacity, w)
    {
      if WorkerOf(e) != Some(w) { assert t.workers[w] == s.workers[w]; }
    }
  }

  lemma HeldNext(s: State, events: seq<Event>, e: Event)
    requires Enabled(s, e) && QueueMatches(s, events)
    ensures forall w: nat :: Held(events + [e], s.capacity, w) ==
                             if e == Pick(w) then s.queue[0] else Held(events, s.capacity, w)
  {
    JobsSnoc(events, e, s.capacity);
    hide Number, Taken, Held;
  }

  lemma QueueGoesOn(s: State, events: seq<Event>, e: Event)
    requires Enabled(s, e) && CountsMatch(s, events) && QueueMatches(s, events)
    ensures QueueMatches(Apply(s, e), events + [e])
  {
    JobsSnoc(events, e, s.capacity);
    hide Number, Taken, Held, Bumped;
  }

  lemma LatenciesSnoc(events: seq<Event>, e: Event, s: State)
    ensures Latencies(events + [e], s.capacity, s.begun, s.interval) ==
            Latencies(events, s.capacity, s.begun, s.interval)
            + if e.Respond? then [e.at - (s.begun + Held(events, s.capacity, e.w) * s.interval)] else []
  {
    assert (events + [e])[..|events|] == events;
  }

  lemma CapacityStays(s: State, e: Event)
    requires Enabled(s, e)
    ensures var t := Apply(s, e); t.capacity == s.capacity && t.begun == s.begun && t.interval == s.interval
    ensures |Apply(s, e).workers| == |s.workers|
  {
  }

  lemma NothingRecorded(s: State)
    requires s.next == s.saturated == s.dispatched == s.sent == s.buildFailures == s.transport == 0
    requires s.queue == [] && s.byStatus == map[] && s.latencies == []
    requires forall w | 0 <= w < |s.workers| :: s.workers[w].Idle?
    ensures Matches(s, [])
  {
    NothingHappened(s.capacity, s.begun, s.interval);
    hide Number, Taken, Held, Latencies, HasStatus;
  }

  lemma NothingHappened(workers: nat, begun: int, interval: int)
    ensures forall kind :: Number([], kind) == 0
    ensures Taken([], workers) == [] && Latencies([], workers, begun, interval) == []
  {
  }

  /** In every run, from the events alone: a due time is saturated exactly when as many jobs wait as there are workers,
      and the other counts, the responses by status and each latency, measured from the due time of the job that its
      worker picked, are those of the events. */
  lemma {:induction false} RecordedIsTrue(total: nat, workers: nat, begun: int, interval: int, events: seq<Event>)
    requires workers > 0 && Runs(Start(total, workers, begun, interval), events)
    ensures var s := Final(Start(total, workers, begun, interval), events);
            && s.capacity == |s.workers| == workers && s.begun == begun && s.interval == interval && Matches(s, events)
  {
    var start := Start(total, workers, begun, interval);
    if events != [] {
      var init, e := events[..|events| - 1], events[|events| - 1];
      RecordedIsTrue(total, workers, begun, interval, init);
      assert events == init + [e];
      var s := Final(start, init);
      CountsGoOn(s, init, e);
      StatusesGoOn(s, init, e);
      JobsGoOn(s, init, e);
      WorkersAfter(s, e);
      CapacityStays(s, e);
      hide CountsMatch, StatusesMatch, QueueMatches, WorkersMatch, Apply, Enabled, Start;
    } else {
      NothingRecorded(start);
    }
  }

  // ---------------------------------------------------------------- the run

  lemma OneMore(start: State, history: seq<Event>, e: Event)
    requires Runs(start, history) && Enabled(Final(start, history), e)
    ensures Runs(start, history + [e]) && Final(start, history + [e]) == Apply(Final(start, history), e)
  {
    assert (history + [e])[..|history|] == history;
  }

  /** Whatever the workers do meanwhile. */
  method Interleave(s: State, events: seq<Event>, ghost start: State, ghost history: seq<Event>)
    returns (t: State, ghost longer: seq<Event>)
    requires Inv(s) && Runs(start, history) && s == Final(start, history)
    ensures Inv(t) && Runs(start, longer) && t == Final(start, longer)
    ensures |t.workers| == |s.workers| && t.scheduled == s.scheduled
    ensures t.next == s.next && t.closed == s.closed && t.cancelled == s.cancelled
  {
    hide Inv, Runs, Final;
    t, longer := s, history;
    for i := 0 to |events|
      invariant Inv(t) && Runs(start, longer) && t == Final(start, longer)
      invariant |t.workers| == |s.workers| && t.scheduled == s.scheduled
      invariant t.next == s.next && t.closed == s.closed && t.cancelled == s.cancelled
    {
      var e := events[i];
      if !e.Schedule? && !e.Close? && !e.Cancel? && Enabled(t, e) {
        EventKeepsInv(t, e);
        OneMore(start, longer, e);
        t, longer := Apply(t, e), longer + [e];
      }
    }
  }

  /** The scheduler's next event. */
  method Advance(s: State, e: Event, ghost start: State, ghost history: seq<Event>)
    returns (t: State, ghost longer: seq<Event>)
    requires Inv(s) && Runs(start, history) && s == Final(start, history) && Enabled(s, e)
    ensures Inv(t) && Runs(start, longer) && t == Final(start, longer) && t == Apply(s, e)
    ensures t.scheduled == s.scheduled && (e.Schedule? || e.Close? || e.Cancel? ==> |t.workers| == |s.workers|)
    ensures t.next == if e.Schedule? then s.next + 1 else s.next
    ensures t.closed == (s.closed || e.Close? || e.Cancel?) && t.cancelled == (s.cancelled || e.Cancel?)
  {
    hide Inv, Runs, Final;
    EventKeepsInv(s, e);
    OneMore(start, history, e);
    t, longer := Apply(s, e), history + [e];
  }

  /** Run: schedules every due time, never waiting for a worker. What it has recorded is what its events say, and once
      all workers have exited, the counts add up. */
  method Run(total: nat, workers0: int, begun: int, interval: int, meanwhile: seq<seq<Event>>, cancelAt: Option<nat>,
             drain: seq<Event>)
    returns (s: State, ghost history: seq<Event>)
    requires |meanwhile| == total
    ensures Inv(s) && s.closed && s.scheduled == total && s.begun == begun && s.interval == interval
    ensures |s.workers| == s.capacity == if workers0 <= 0 then 64 else workers0
    ensures Runs(Start(total, s.capacity, begun, interval), history)
    ensures s == Final(Start(total, s.capacity, begun, interval), history) && Matches(s, history)
    ensures s.cancelled <==> cancelAt.Some? && cancelAt.value < total
    ensures s.next == if cancelAt.Some? && cancelAt.value < total then cancelAt.value else total
    ensures Finished(s) ==> Accounted(s)
  {
    hide Inv, Accounted, Finished, Start, Runs, Final, Matches, Apply;
    var workers := if workers0 <= 0 then 64 else workers0;
    s, history := Start(total, workers, begun, interval), [];
    ghost var start := s;
    NobodyStarted(total, workers, begun, interval);
    var i := 0;
    while i < total && cancelAt != Some(i)
      invariant i <= total && (cancelAt.Some? ==> i <= cancelAt.value || total <= cancelAt.value)
      invariant Inv(s) && Runs(start, history) && s == Final(start, history)
      invariant !s.closed && !s.cancelled && s.next == i && s.scheduled == total && |s.workers| > 0
    {
      s, history := Interleave(s, meanwhile[i], start, history);
      s, history := Advance(s, Schedule, start, history);
      i := i + 1;
    }
    if i < total { s, history := Interleave(s, meanwhile[i], start, history); }
    s, history := Advance(s, if i < total then Cancel else Close, start, history);
    s, history := Interleave(s, drain, start, history);
    RecordedIsTrue(total, workers, begun, interval, history);
    if Finished(s) { FinishedIsAccounted(s); }
  }

  lemma {:induction false} AllIdle(n: nat, sending: bool)
    ensures Count(seq(n, _ => Idle), sending) == 0
  {
    if n > 0 {
      assert seq(n, _ => Idle)[..n - 1] == seq(n - 1, _ => Idle);
      AllIdle(n - 1, sending);
    }
  }

  lemma NobodyStarted(total: nat, workers: nat, begun: int, interval: int)
    requires workers > 0
    ensures var s := Start(total, workers, begun, interval);
            && Inv(s) && !s.closed && !s.cancelled && s.next == 0 && s.scheduled == total && |s.workers| == workers
            && Runs(s, []) && Final(s, []) == s
  {
    AllIdle(workers, false);
    AllIdle(workers, true);
  }
}
