/** The registry of tunnels, one per inbox, under any interleaving of connections. */
module TunnelHub {
  import opened Text

  /** How far Handle has come for a connection. Its defers run unregister first and close second. */
  datatype Stage = Fresh | Displacing(prior: nat) | Serving | Unregistered | Ended
  datatype Conn = Conn(endpoint: string, stage: Stage, closed: bool)

  /** latest remembers, for each inbox, the client that registered last. */
  datatype State = State(conns: seq<Conn>, clients: map<string, nat>, latest: map<string, nat>)

  const INITIAL := State([], map[], map[])

  datatype Step =
    | Connect(endpoint: string)
    | Register(c: nat)
    | CloseDisplaced(c: nat)
    | Unregister(c: nat)
    | CloseOwn(c: nat)

  predicate Enabled(s: State, step: Step) {
    match step
    case Connect(_) => true
    case Register(c) => c < |s.conns| && s.conns[c].stage.Fresh?
    case CloseDisplaced(c) => c < |s.conns| && s.conns[c].stage.Displacing? && s.conns[c].stage.prior < |s.conns|
    case Unregister(c) => c < |s.conns| && s.conns[c].stage.Serving?
    case CloseOwn(c) => c < |s.conns| && s.conns[c].stage.Unregistered?
  }

  function Apply(s: State, step: Step): State
    requires Enabled(s, step)
  {
    match step
    case Connect(ep) => s.(conns := s.conns + [Conn(ep, Fresh, false)])
    case Register(c) =>
      var ep := s.conns[c].endpoint;
      var stage := if ep in s.clients then Displacing(s.clients[ep]) else Serving;
      State(s.conns[c := s.conns[c].(stage := stage)], s.clients[ep := c], s.latest[ep := c])
    case CloseDisplaced(c) =>
      var prior := s.conns[c].stage.prior;
      var marked := s.conns[prior := s.conns[prior].(closed := true)];
      s.(conns := marked[c := marked[c].(stage := Serving)])
    case Unregister(c) =>
      var ep := s.conns[c].endpoint;
      s.(conns := s.conns[c := s.conns[c].(stage := Unregistered)],
         clients := if ep in s.clients && s.clients[ep] == c then s.clients - {ep} else s.clients)
    case CloseOwn(c) => s.(conns := s.conns[c := s.conns[c].(stage := Ended, closed := true)])
  }

  /** Registered and not yet unregistered by its own handler. */
  predicate InPlace(stage: Stage) { stage.Displacing? || stage.Serving? }

  /** The hub holds, for each inbox, its latest client, until that client itself unregisters. */
  ghost predicate LatestWins(s: State) {
    forall ep :: InboxOk(s, ep)
  }

  predicate Superseded(s: State, c: nat) {
    c < |s.conns| && !s.conns[c].stage.Fresh? && s.conns[c].endpoint in s.latest && s.latest[s.conns[c].endpoint] != c
  }

  /** Only a superseded client, or one whose handler has ended, is closed. */
  ghost predicate ClosedOk(s: State) {
    && (forall c | 0 <= c < |s.conns| && s.conns[c].stage.Displacing? :: Superseded(s, s.conns[c].stage.prior))
    && (forall c | 0 <= c < |s.conns| && s.conns[c].closed :: Superseded(s, c) || s.conns[c].stage.Ended?)
    && (forall c | 0 <= c < |s.conns| && s.conns[c].stage.Fresh? ::
          s.conns[c].endpoint in s.latest ==> s.latest[s.conns[c].endpoint] != c)
  }

  /** A superseded client is closed, or about to be: by the handler that displaced it, or by its own, past its
      unregister. A handler that has ended has closed its client. */
  ghost predicate DisplacedOk(s: State) {
    && (forall c: nat | Superseded(s, c) :: s.conns[c].closed || s.conns[c].stage.Unregistered? || BeingClosed(s, c))
    && (forall c | 0 <= c < |s.conns| && s.conns[c].stage.Ended? :: s.conns[c].closed)
    && (forall c | 0 <= c < |s.conns| && !s.conns[c].stage.Fresh? :: s.conns[c].endpoint in s.latest)
  }

  ghost predicate BeingClosed(s: State, c: nat) {
    exists d :: 0 <= d < |s.conns| && s.conns[d].stage == Displacing(c)
  }

  ghost predicate Inv(s: State) { LatestWins(s) && ClosedOk(s) && DisplacedOk(s) }

  lemma KeepsLatestWins(s: State, step: Step)
    requires Enabled(s, step) && Inv(s)
    ensures LatestWins(Apply(s, step))
  {
    var t := Apply(s, step);
    forall ep ensures InboxOk(t, ep) {
      assert InboxOk(s, ep);
      InboxStaysOk(s, step, ep);
    }
  }

  /** The registry is right about one inbox. */
  predicate InboxOk(s: State, ep: string) {
    && (ep in s.latest ==> s.latest[ep] < |s.conns| && s.conns[s.latest[ep]].endpoint == ep)
    && (ep in s.clients <==> ep in s.latest && InPlace(s.conns[s.latest[ep]].stage))
    && (ep in s.clients ==> s.clients[ep] == s.latest[ep])
  }

  lemma InboxStaysOk(s: State, step: Step, ep: string)
    requires Enabled(s, step) && InboxOk(s, ep)
    requires step.CloseDisplaced? ==> step.c < |s.conns| && s.conns[step.c].stage.Displacing?
    requires forall c | 0 <= c < |s.conns| && s.conns[c].stage.Fresh? && s.conns[c].endpoint == ep ::
               ep in s.latest ==> s.latest[ep] != c
    ensures InboxOk(Apply(s, step), ep)
  {
  }

  lemma SupersededStays(s: State, step: Step, c: nat)
    requires Enabled(s, step) && Superseded(s, c)
    ensures Superseded(Apply(s, step), c)
  {
  }

  lemma KeepsClosedOk(s: State, step: Step)
    requires Enabled(s, step) && Inv(s)
    ensures ClosedOk(Apply(s, step))
  {
    hide Superseded;
    var t := Apply(s, step);
    if step.Connect? { assert InboxOk(s, step.endpoint); }
    forall c | 0 <= c < |s.conns| ensures Superseded(s, c) ==> Superseded(t, c) {
      if Superseded(s, c) { SupersededStays(s, step, c); }
    }
    if step.Register? { DisplacedIsSuperseded(s, step.c); }
    forall c | 0 <= c < |t.conns| && t.conns[c].stage.Displacing? ensures Superseded(t, t.conns[c].stage.prior) {
      assert c < |s.conns| && (s.conns[c].stage == t.conns[c].stage || step == Register(c));
      if s.conns[c].stage == t.conns[c].stage {
        assert Superseded(s, s.conns[c].stage.prior);
        SupersededStays(s, step, s.conns[c].stage.prior);
      }
    }
  }

  lemma DisplacedIsSuperseded(s: State, c: nat)
    requires Enabled(s, Register(c)) && Inv(s)
    ensures var t := Apply(s, Register(c)); t.conns[c].stage.Displacing? ==> Superseded(t, t.conns[c].stage.prior)
  {
    assert InboxOk(s, s.conns[c].endpoint);
  }

  lemma KeepsDisplacedOk(s: State, step: Step)
    requires Enabled(s, step) && Inv(s)
    ensures DisplacedOk(Apply(s, step))
  {
    var t := Apply(s, step);
    forall c: nat | Superseded(t, c)
      ensures t.conns[c].closed || t.conns[c].stage.Unregistered? || BeingClosed(t, c)
    {
      StaysDisplaced(s, step, c);
    }
  }

  lemma StaysDisplaced(s: State, step: Step, c: nat)
    requires Enabled(s, step) && Inv(s) && Superseded(Apply(s, step), c)
    ensures var t := Apply(s, step); t.conns[c].closed || t.conns[c].stage.Unregistered? || BeingClosed(t, c)
  {
    var t := Apply(s, step);
    assert InboxOk(s, t.conns[c].endpoint);
    if step.Register? && !Superseded(s, c) {
      assert c == step.c || s.latest[s.conns[c].endpoint] == c;
      if InPlace(s.conns[c].stage) { assert t.conns[step.c].stage == Displacing(c); }
    } else if BeingClosed(s, c) {
      var d :| 0 <= d < |s.conns| && s.conns[d].stage == Displacing(c);
      assert step == CloseDisplaced(d) || t.conns[d].stage == Displacing(c);
    }
  }

  /** Every step of every handler keeps the registry right. */
  lemma StepKeepsInv(s: State, step: Step)
    requires Enabled(s, step) && Inv(s)
    ensures Inv(Apply(s, step))
  {
    KeepsLatestWins(s, step);
    KeepsClosedOk(s, step);
    KeepsDisplacedOk(s, step);
  }

  predicate Runs(s: State, steps: seq<Step>)
    decreases |steps|
  {
    steps == [] || (Enabled(s, steps[0]) && Runs(Apply(s, steps[0]), steps[1..]))
  }

  function Final(s: State, steps: seq<Step>): State
    requires Runs(s, steps)
    decreases |steps|
  {
    if steps == [] then s else Final(Apply(s, steps[0]), steps[1..])
  }

  lemma {:induction false} RunKeepsInv(s: State, steps: seq<Step>)
    requires Inv(s) && Runs(s, steps)
    ensures Inv(Final(s, steps))
    decreases |steps|
  {
    hide Inv;
    if steps != [] {
      StepKeepsInv(s, steps[0]);
      RunKeepsInv(Apply(s, steps[0]), steps[1..]);
    }
  }

  ghost predicate Reachable(s: State) {
    exists steps :: Runs(INITIAL, steps) && s == Final(INITIAL, steps)
  }

  lemma ReachableInv(s: State)
    requires Reachable(s)
    ensures Inv(s)
  {
    assert Inv(INITIAL);
    hide Runs, Final, Inv;
    var steps :| Runs(INITIAL, steps) && s == Final(INITIAL, steps);
    RunKeepsInv(INITIAL, steps);
  }

  /** In every run: an inbox maps to the client that registered last, unless that client itself unregistered;
      and no client in the hub is closed. */
  lemma NewestHoldsTheInbox(s: State, ep: string)
    requires Reachable(s)
    ensures ep in s.clients <==> ep in s.latest && s.latest[ep] < |s.conns| && InPlace(s.conns[s.latest[ep]].stage)
    ensures ep in s.clients ==> s.clients[ep] == s.latest[ep] && !s.conns[s.clients[ep]].closed
  {
    ReachableInv(s);
    assert InboxOk(s, ep);
  }

  /** In every run: once the handlers that displaced it and its own are not in the middle of closing it, a client that
      has registered is closed exactly when another registered after it for its inbox or its own handler has ended. */
  lemma DisplacedIsClosed(s: State, c: nat)
    requires Reachable(s) && c < |s.conns| && !s.conns[c].stage.Fresh? && !s.conns[c].stage.Unregistered?
    requires forall d | 0 <= d < |s.conns| :: s.conns[d].stage != Displacing(c)
    ensures s.conns[c].closed <==> Superseded(s, c) || s.conns[c].stage.Ended?
  {
    ReachableInv(s);
  }

  /** A stale unregister leaves the registry as it is. */
  lemma StaleUnregisterIsHarmless(s: State, c: nat)
    requires Reachable(s) && Enabled(s, Unregister(c))
    requires s.conns[c].endpoint in s.latest && s.latest[s.conns[c].endpoint] != c
    ensures Apply(s, Unregister(c)).clients == s.clients
  {
    ReachableInv(s);
    assert InboxOk(s, s.conns[c].endpoint);
  }

  /** The registry as the program keeps it. */
  class Hub {
    var clients: map<string, nat>

    constructor ()
      ensures clients == map[]
    {
      clients := map[];
    }

    method Lookup(endpoint: string) returns (c: Option<nat>)
      ensures c == if endpoint in clients then Some(clients[endpoint]) else None
    {
      if endpoint in clients { c := Some(clients[endpoint]); } else { c := None; }
    }

    method Register(endpoint: string, c: nat) returns (prior: Option<nat>)
      modifies this
      ensures clients == old(clients)[endpoint := c]
      ensures prior == if endpoint in old(clients) then Some(old(clients)[endpoint]) else None
    {
      prior := Lookup(endpoint);
      clients := clients[endpoint := c];
    }

    method Unregister(endpoint: string, c: nat)
      modifies this
      ensures clients ==
              if endpoint in old(clients) && old(clients)[endpoint] == c then old(clients) - {endpoint}
              else old(clients)
    {
      if endpoint in clients && clients[endpoint] == c {
        clients := clients - {endpoint};
      }
    }
  }

  /** Handle registers a connection on the program's registry and learns whom it displaced. */
  method RegisterConnection(hub: Hub, endpoint: string, c: nat, ghost s: State)
    returns (displaced: Option<nat>, ghost t: State)
    requires Enabled(s, Register(c)) && s.conns[c].endpoint == endpoint && hub.clients == s.clients && Inv(s)
    modifies hub
    ensures t == Apply(s, Register(c)) && hub.clients == t.clients && Inv(t)
    ensures t.conns[c].stage == if displaced.Some? then Displacing(displaced.value) else Serving
    ensures displaced.Some? ==> displaced.value != c && Superseded(t, displaced.value)
  {
    displaced := hub.Register(endpoint, c);
    t := Apply(s, Register(c));
    StepKeepsInv(s, Register(c));
  }

  /** The deferred unregister, on the program's registry. */
  method UnregisterConnection(hub: Hub, endpoint: string, c: nat, ghost s: State) returns (ghost t: State)
    requires Enabled(s, Unregister(c)) && s.conns[c].endpoint == endpoint && hub.clients == s.clients && Inv(s)
    modifies hub
    ensures t == Apply(s, Unregister(c)) && hub.clients == t.clients && Inv(t)
    ensures forall ep :: ep in hub.clients ==> hub.clients[ep] != c
  {
    hub.Unregister(endpoint, c);
    t := Apply(s, Unregister(c));
    StepKeepsInv(s, Unregister(c));
    forall ep | ep in hub.clients ensures hub.clients[ep] != c { assert InboxOk(t, ep); }
  }
}
