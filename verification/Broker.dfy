/** Publish/subscribe: what each subscriber receives, keeps waiting and loses, in every history. */
module Broker {
  import opened Text

  const BUFFER_SIZE: nat := 32

  datatype Message = Message(event: string, data: string)

  // ---------------------------------------------------------------- one subscriber's history

  datatype Happening = Published(m: Message) | Received | Closed

  datatype Queue = Queue(waiting: seq<Message>, received: seq<Message>, dropped: nat, closed: bool)

  function React(q: Queue, h: Happening): Queue {
    match h
    case Published(m) =>
      if |q.waiting| < BUFFER_SIZE then q.(waiting := q.waiting + [m]) else q.(dropped := q.dropped + 1)
    case Received =>
      if q.waiting == [] then q else q.(waiting := q.waiting[1..], received := q.received + [q.waiting[0]])
    case Closed => q.(closed := true)
  }

  function Replay(trace: seq<Happening>): Queue {
    if trace == [] then Queue([], [], 0, false) else React(Replay(trace[..|trace| - 1]), trace[|trace| - 1])
  }

  /** Every message published while subscribed. */
  function Offered(trace: seq<Happening>): seq<Message> {
    if trace == [] then []
    else Offered(trace[..|trace| - 1]) + if trace[|trace| - 1].Published? then [trace[|trace| - 1].m] else []
  }

  /** Which of them found fewer than BUFFER_SIZE waiting: one flag a message. */
  function Fits(trace: seq<Happening>): seq<bool> {
    if trace == [] then []
    else Fits(trace[..|trace| - 1])
         + if trace[|trace| - 1].Published? then [|Replay(trace[..|trace| - 1]).waiting| < BUFFER_SIZE] else []
  }

  /** The messages whose flag is set, in order. */
  function Filter(ms: seq<Message>, keep: seq<bool>): seq<Message>
    requires |ms| == |keep|
  {
    if ms == [] then []
    else Filter(ms[..|ms| - 1], keep[..|ms| - 1]) + if keep[|ms| - 1] then [ms[|ms| - 1]] else []
  }

  lemma {:induction false} FlagPerMessage(trace: seq<Happening>)
    ensures |Fits(trace)| == |Offered(trace)|
  {
    if trace != [] { FlagPerMessage(trace[..|trace| - 1]); }
  }

  /** A message finds room exactly when fewer than 32 are waiting. */
  lemma FlagSays(before: seq<Happening>, m: Message)
    ensures Fits(before + [Published(m)]) == Fits(before) + [|Replay(before).waiting| < 32]
  {
    assert (before + [Published(m)])[..|before|] == before;
  }

  /** In every history: published = received + waiting + dropped, and received then waiting is, in order, exactly
      the messages that found room. */
  lemma {:induction false} Conservation(trace: seq<Happening>)
    ensures |Offered(trace)| == |Replay(trace).received| + |Replay(trace).waiting| + Replay(trace).dropped
    ensures |Replay(trace).waiting| <= 32 && |Fits(trace)| == |Offered(trace)|
    ensures Replay(trace).received + Replay(trace).waiting == Filter(Offered(trace), Fits(trace))
  {
    FlagPerMessage(trace);
    if trace != [] {
      var init, h := trace[..|trace| - 1], trace[|trace| - 1];
      Conservation(init);
      FlagPerMessage(init);
      var q := Replay(init);
      if !h.Published? { assert Offered(trace) == Offered(init) && Fits(trace) == Fits(init); }
      if h.Published? {
        var fits := |q.waiting| < BUFFER_SIZE;
        assert Offered(trace)[..|Offered(init)|] == Offered(init) && Fits(trace)[..|Offered(init)|] == Fits(init);
        assert Filter(Offered(trace), Fits(trace)) == Filter(Offered(init), Fits(init)) + if fits then [h.m] else [];
        assert q.received + (q.waiting + [h.m]) == q.received + q.waiting + [h.m];
      } else if h.Received? && q.waiting != [] {
        assert q.received + q.waiting == q.received + [q.waiting[0]] + q.waiting[1..];
      }
    }
  }

  // ---------------------------------------------------------------- the broker

  class Subscriber {
    var ch: seq<Message>
    var closed: bool
    var dropped: nat
    ghost var trace: seq<Happening>

    ghost predicate Valid()
      reads this
    {
      Replay(trace).waiting == ch && Replay(trace).dropped == dropped && Replay(trace).closed == closed
    }

    constructor ()
      ensures Valid() && trace == [] && !closed
    {
      ch, closed, dropped, trace := [], false, 0, [];
    }

    ghost method Note(h: Happening)
      modifies this`trace
      ensures trace == old(trace) + [h]
      ensures Replay(trace) == React(Replay(old(trace)), h)
    {
      trace := trace + [h];
      assert trace[..|trace| - 1] == old(trace);
    }

    /** The non-blocking send: it never waits, and never meets a closed channel. */
    method Offer(m: Message)
      requires Valid() && !closed
      modifies this
      ensures Valid() && !closed && trace == old(trace) + [Published(m)]
    {
      if |ch| < BUFFER_SIZE { ch := ch + [m]; } else { dropped := dropped + 1; }
      Note(Published(m));
    }

    /** A receive; None when nothing is waiting. */
    method Receive() returns (m: Option<Message>)
      requires Valid()
      modifies this
      ensures Valid() && closed == old(closed) && trace == old(trace) + [Received] && dropped == old(dropped)
      ensures m == if old(ch) == [] then None else Some(old(ch)[0])
      ensures Replay(trace).received == Replay(old(trace)).received + if m.Some? then [m.value] else []
    {
      if ch == [] {
        m := None;
      } else {
        m := Some(ch[0]);
        ch := ch[1..];
      }
      Note(Received);
    }
  }

  class Broker {
    var subs: map<string, set<Subscriber>>

    ghost function Listening(): set<Subscriber>
      reads this
    {
      set topic, s | topic in subs && s in subs[topic] :: s
    }

    /** Every topic kept has a subscriber, no subscriber is on two topics, and no channel in the map is closed. */
    ghost predicate Valid()
      reads this, Listening()
    {
      && (forall topic | topic in subs :: subs[topic] != {})
      && (forall t, u | t in subs && u in subs && t != u :: subs[t] !! subs[u])
      && (forall topic, s | topic in subs && s in subs[topic] :: s.Valid() && !s.closed)
    }

    constructor ()
      ensures Valid() && subs == map[]
    {
      subs := map[];
    }

    function On(topic: string): set<Subscriber>
      reads this
    {
      if topic in subs then subs[topic] else {}
    }

    method Subscribe(topic: string) returns (s: Subscriber)
      requires Valid()
      modifies this
      ensures Valid() && fresh(s) && s.trace == []
      ensures subs == old(subs)[topic := old(On(topic)) + {s}]
    {
      hide Replay;
      s := new Subscriber();
      subs := subs[topic := On(topic) + {s}];
    }

    method Unsubscribe(topic: string, s: Subscriber)
      requires Valid()
      modifies this, s
      ensures Valid() && s !in On(topic)
      ensures s !in old(On(topic)) ==> subs == old(subs) && s.trace == old(s.trace) && s.closed == old(s.closed)
      ensures s in old(On(topic)) ==> !old(s.closed) && s.closed && s.Valid() && s.trace == old(s.trace) + [Closed]
      ensures s in old(On(topic)) ==>
                forall t :: On(t) == if t == topic then old(On(t)) - {s} else old(On(t))
    {
      hide Replay;
      if s !in On(topic) { return; }
      var rest := subs[topic] - {s};
      subs := if rest == {} then subs - {topic} else subs[topic := rest];
      s.closed := true;
      s.Note(Closed);
    }

    /** Reaches every subscriber of the topic and nobody else, in whatever order the set is iterated. */
    method Publish(topic: string, m: Message)
      requires Valid()
      modifies On(topic)
      ensures Valid() && subs == old(subs)
      ensures forall s | s in On(topic) :: s.trace == old(s.trace) + [Published(m)]
    {
      hide Replay;
      var rest := On(topic);
      while rest != {}
        invariant rest <= On(topic) && subs == old(subs) && Valid()
        invariant forall s | s in rest :: s.trace == old(s.trace)
        invariant forall s | s in On(topic) && s !in rest :: s.trace == old(s.trace) + [Published(m)]
        decreases |rest|
      {
        var s :| s in rest;
        s.Offer(m);
        rest := rest - {s};
      }
    }

    method Dropped(s: Subscriber) returns (n: nat)
      ensures n == s.dropped
    {
      n := s.dropped;
    }
  }

  // ---------------------------------------------------------------- a stream

  /** What other goroutines do to the broker between two selects of a stream. */
  datatype Act = Publishes(topic: string, m: Message) | Joins(topic: string) | Leaves(topic: string)

  /** What a subscriber of one topic gets of it. */
  function Arrivals(acts: seq<Act>, topic: string): seq<Happening> {
    if acts == [] then []
    else Arrivals(acts[..|acts| - 1], topic)
         + var a := acts[|acts| - 1]; if a.Publishes? && a.topic == topic then [Published(a.m)] else []
  }

  /** What the stream's select finds, after what others did meanwhile. noticed and kept say whether its first write and
      its keepalive succeed. */
  datatype Turn = Turn(meanwhile: seq<Act>, pick: Pick, noticed: bool, kept: bool)
  datatype Pick = ClientGone | MessageReady | Tick

  datatype Sent = Relayed(m: Message) | DropNotice(count: nat) | Keepalive

  /** The subscriber's history after so many turns. */
  function Heard(turns: seq<Turn>, topic: string): seq<Happening> {
    if turns == [] then []
    else var t := turns[|turns| - 1];
         Heard(turns[..|turns| - 1], topic) + Arrivals(t.meanwhile, topic)
         + if t.pick.MessageReady? then [Received] else []
  }

  function Ticks(turns: seq<Turn>): nat {
    if turns == [] then 0 else Ticks(turns[..|turns| - 1]) + if turns[|turns| - 1].pick.Tick? then 1 else 0
  }

  lemma OneMoreTurn(script: seq<Turn>, i: nat, topic: string)
    requires i < |script|
    ensures Ticks(script[..i + 1]) == Ticks(script[..i]) + if script[i].pick.Tick? then 1 else 0
    ensures Heard(script[..i + 1], topic) == Heard(script[..i], topic) + Arrivals(script[i].meanwhile, topic)
            + if script[i].pick.MessageReady? then [Received] else []
  {
    assert script[..i + 1][..i] == script[..i];
  }

  function Relays(out: seq<Sent>): seq<Message> {
    if out == [] then []
    else Relays(out[..|out| - 1]) + if out[|out| - 1].Relayed? then [out[|out| - 1].m] else []
  }

  function Noticed(out: seq<Sent>): nat {
    if out == [] then 0
    else Noticed(out[..|out| - 1]) + if out[|out| - 1].DropNotice? then out[|out| - 1].count else 0
  }

  function Keepalives(out: seq<Sent>): nat {
    if out == [] then 0 else Keepalives(out[..|out| - 1]) + if out[|out| - 1].Keepalive? then 1 else 0
  }

  lemma SentSnoc(out: seq<Sent>, s: Sent)
    ensures Relays(out + [s]) == Relays(out) + if s.Relayed? then [s.m] else []
    ensures Noticed(out + [s]) == Noticed(out) + if s.DropNotice? then s.count else 0
    ensures Keepalives(out + [s]) == Keepalives(out) + if s.Keepalive? then 1 else 0
  {
    assert (out + [s])[..|out|] == out;
  }

  /** The loop of handleStream on a subscriber of its own, whoever else publishes, joins or leaves. It ends before the
      script only when the client is gone or a write fails. In the turns it completes it relays what it receives, in
      order, and keeps the connection alive once a tick; the drops it has told of are never more than were dropped, and
      after a tick they are all of them. */
  method Stream(broker: Broker, topic: string, sub: Subscriber, script: seq<Turn>)
    returns (out: seq<Sent>, reported: nat, turns: nat)
    requires broker.Valid() && sub in broker.On(topic) && sub.trace == []
    modifies broker, broker.Listening()
    ensures broker.Valid() && sub in broker.On(topic) && sub.Valid()
    ensures turns <= |script|
    ensures turns < |script| ==> var t := script[turns]; t.pick.ClientGone? || !t.noticed || (t.pick.Tick? && !t.kept)
    ensures sub.trace == Heard(script[..if turns < |script| then turns + 1 else turns], topic)
    ensures Relays(out) == Replay(Heard(script[..turns], topic)).received
    ensures Keepalives(out) == Ticks(script[..turns])
    ensures Noticed(out) == reported <= sub.dropped
    ensures turns > 0 && script[turns - 1].pick.Tick? ==> reported >= Replay(Heard(script[..turns], topic)).dropped
  {
    hide Relays, Noticed, Keepalives, Replay, Offered, Arrivals, Heard, Ticks, Broker.Valid;
    out, reported, turns := [], 0, 0;
    NothingSent(script, topic);
    ListenerIsValid(broker, topic, sub);
    while turns < |script|
      invariant turns <= |script|
      invariant broker.Valid() && sub in broker.On(topic) && sub.Valid()
      invariant fresh(broker.Listening() - old(broker.Listening()))
      invariant sub.trace == Heard(script[..turns], topic)
      invariant Relays(out) == Replay(sub.trace).received && Keepalives(out) == Ticks(script[..turns])
      invariant Noticed(out) == reported <= sub.dropped == Replay(sub.trace).dropped
      invariant turns > 0 && script[turns - 1].pick.Tick? ==> reported == sub.dropped
    {
      var turn := script[turns];
      OneMoreTurn(script, turns, topic);
      Meanwhile(broker, topic, sub, turn.meanwhile);
      match turn.pick {
        case ClientGone => return;
        case MessageReady =>
          var m := ReceiveOn(broker, topic, sub);
          if m.Some? {
            if !turn.noticed { return; }
            SentSnoc(out, Relayed(m.value));
            out := out + [Relayed(m.value)];
          }
        case Tick =>
          var n := broker.Dropped(sub);
          if n > reported {
            if !turn.noticed { return; }
            SentSnoc(out, DropNotice(n - reported));
            out := out + [DropNotice(n - reported)];
            reported := n;
          }
          if !turn.kept { return; }
          SentSnoc(out, Keepalive);
          out := out + [Keepalive];
      }
      turns := turns + 1;
    }
  }

  lemma ListenerIsValid(broker: Broker, topic: string, sub: Subscriber)
    requires broker.Valid() && sub in broker.On(topic)
    ensures sub.Valid()
  {
    assert sub in broker.subs[topic];
  }

  lemma NothingSent(script: seq<Turn>, topic: string)
    ensures Relays([]) == [] == Replay([]).received && Replay([]).dropped == 0
    ensures Noticed([]) == Keepalives([]) == Ticks(script[..0]) == 0 && Heard(script[..0], topic) == []
  {
  }

  method ReceiveOn(broker: Broker, topic: string, sub: Subscriber) returns (m: Option<Message>)
    requires broker.Valid() && sub in broker.On(topic)
    modifies sub
    ensures broker.Valid() && broker.subs == old(broker.subs) && sub.Valid() && sub.dropped == old(sub.dropped)
    ensures sub.trace == old(sub.trace) + [Received]
    ensures Replay(sub.trace).received == Replay(old(sub.trace)).received + if m.Some? then [m.value] else []
  {
    m := sub.Receive();
  }

  /** One act of somebody else: it reaches this subscriber only as a message of its own topic. */
  method OneAct(broker: Broker, topic: string, sub: Subscriber, act: Act)
    requires broker.Valid() && sub in broker.On(topic)
    modifies broker, broker.Listening()
    ensures broker.Valid() && sub in broker.On(topic) && sub.Valid()
    ensures fresh(broker.Listening() - old(broker.Listening()))
    ensures sub.trace == old(sub.trace) + if act.Publishes? && act.topic == topic then [Published(act.m)] else []
  {
    hide Replay;
    match act {
      case Publishes(t, m) =>
        broker.Publish(t, m);
      case Joins(t) =>
        var other := broker.Subscribe(t);
      case Leaves(t) =>
        if other :| other in broker.On(t) && other != sub {
          broker.Unsubscribe(t, other);
          forall s | s in broker.Listening() ensures s in old(broker.Listening()) {
            var u :| u in broker.subs && s in broker.subs[u];
            assert s in broker.On(u);
          }
        }
    }
  }

  method Meanwhile(broker: Broker, topic: string, sub: Subscriber, acts: seq<Act>)
    requires broker.Valid() && sub in broker.On(topic)
    modifies broker, broker.Listening()
    ensures broker.Valid() && sub in broker.On(topic) && sub.Valid() && sub.dropped >= old(sub.dropped)
    ensures fresh(broker.Listening() - old(broker.Listening()))
    ensures sub.trace == old(sub.trace) + Arrivals(acts, topic)
    ensures Replay(sub.trace).received == Replay(old(sub.trace)).received
  {
    hide Replay, Arrivals;
    NothingPublished(topic);
    for i := 0 to |acts|
      invariant broker.Valid() && sub in broker.On(topic) && sub.Valid() && sub.dropped >= old(sub.dropped)
      invariant fresh(broker.Listening() - old(broker.Listening()))
      invariant sub.trace == old(sub.trace) + Arrivals(acts[..i], topic)
      invariant Replay(sub.trace).received == Replay(old(sub.trace)).received
    {
      ghost var before := sub.trace;
      OneAct(broker, topic, sub, acts[i]);
      ActHeard(before, acts, i, topic);
    }
    assert acts[..|acts|] == acts;
  }

  lemma NothingPublished(topic: string)
    ensures Arrivals([], topic) == []
  {
  }

  lemma ActHeard(before: seq<Happening>, acts: seq<Act>, i: nat, topic: string)
    requires i < |acts|
    ensures var mine := if acts[i].Publishes? && acts[i].topic == topic then [Published(acts[i].m)] else [];
            && Replay(before + mine).received == Replay(before).received
            && Replay(before + mine).dropped >= Replay(before).dropped
            && Arrivals(acts[..i + 1], topic) == Arrivals(acts[..i], topic) + mine
  {
    assert acts[..i + 1][..i] == acts[..i];
    if acts[i].Publishes? && acts[i].topic == topic {
      assert (before + [Published(acts[i].m)])[..|before|] == before;
    } else {
      assert before + [] == before;
    }
  }
}
