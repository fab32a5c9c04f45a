/** Reconnection: the retry ceiling, the retry loop, and several peers contending for one inbox. */
module Reconnect {
  import opened Text

  // ---------------------------------------------------------------- the retry ceiling

  const BACKOFF_BASE: int := 500_000_000        // nanoseconds
  const BACKOFF_MAX: int := 30_000_000_000
  const STABLE_SESSION: int := 30_000_000_000

  const TWO_TO_THE_31: int := 0x8000_0000
  const TWO_TO_THE_64: int := 0x1_0000_0000_0000_0000

  /** base << k, without a width. */
  function Shifted(base: int, k: nat): int {
    if k == 0 then base else 2 * Shifted(base, k - 1)
  }

  /** The value a 64-bit two's complement register holds for n. */
  function Int64(n: int): int {
    var m := n % TWO_TO_THE_64;
    if m >= TWO_TO_THE_64 / 2 then m - TWO_TO_THE_64 else m
  }

  function Clamped(attempt: nat): nat { if attempt < 32 then attempt else 32 }

  /** The ceiling computed by next: a 64-bit shift, with its guard. */
  function Ceiling(base: int, max: int, attempt: nat): int {
    var shifted := Int64(Shifted(base, Clamped(attempt)));
    if shifted > max || shifted <= 0 then max else shifted
  }

  /** Whatever the constants, the ceiling is positive and at most the maximum. */
  lemma CeilingInRange(base: int, max: int, attempt: nat)
    requires max > 0
    ensures 0 < Ceiling(base, max, attempt) <= max
  {
  }

  lemma {:induction false} ShiftGrows(base: int, j: nat, k: nat)
    requires base > 0 && j <= k
    ensures 0 < Shifted(base, j) <= Shifted(base, k)
    decreases k
  {
    if j < k { ShiftGrows(base, j, k - 1); } else if k > 0 { ShiftGrows(base, k - 1, k - 1); }
  }

  lemma EightMore(base: int, k: nat)
    ensures Shifted(base, k + 8) == 256 * Shifted(base, k)
  {
    assert Shifted(base, k + 2) == 4 * Shifted(base, k);
    assert Shifted(base, k + 4) == 4 * Shifted(base, k + 2);
    assert Shifted(base, k + 6) == 4 * Shifted(base, k + 4);
    assert Shifted(base, k + 8) == 4 * Shifted(base, k + 6);
  }

  lemma ShiftedBy32(base: int)
    ensures Shifted(base, 32) == 0x1_0000_0000 * base
  {
    EightMore(base, 0);
    EightMore(base, 8);
    EightMore(base, 16);
    EightMore(base, 24);
  }

  /** What the ceiling is meant to be. */
  function Doubled(base: int, max: int, attempt: nat): int {
    if Shifted(base, attempt) <= max then Shifted(base, attempt) else max
  }

  /** For any base small enough not to overflow, the ceiling is the doubled base, capped, exactly as long as the clamp
      on the attempts does not show: up to 32 of them, or for good when the cap is reached by then. */
  lemma DoublingCapped(base: int, max: int, attempt: nat)
    requires 0 < base < TWO_TO_THE_31 && max > 0
    ensures Ceiling(base, max, attempt) == Doubled(base, max, attempt) <==> attempt <= 32 || Shifted(base, 32) >= max
  {
    var k := Clamped(attempt);
    ShiftGrows(base, k, 32);
    ShiftedBy32(base);
    NoOverflow(Shifted(base, k));
    if attempt > 32 {
      ShiftGrows(base, 33, attempt);
      assert Shifted(base, 33) == 2 * Shifted(base, 32);
    }
    hide Shifted, Int64;
  }

  /** With the program's constants no attempt overflows: the ceiling is the exact doubling, capped. */
  lemma CeilingIsExact(attempt: nat)
    ensures var doubled := Shifted(500_000_000, attempt);
            Ceiling(BACKOFF_BASE, BACKOFF_MAX, attempt) == if doubled <= 30_000_000_000 then doubled else 30_000_000_000
  {
    DoublingCapped(BACKOFF_BASE, BACKOFF_MAX, attempt);
    ShiftedBy32(BACKOFF_BASE);
    hide Shifted, Ceiling, Doubled;
  }

  lemma NoOverflow(n: int)
    requires 0 <= n < TWO_TO_THE_64 / 2
    ensures Int64(n) == n
  {
  }

  class Backoff {
    const base: int
    const max: int
    var attempt: nat

    constructor ()
      ensures base == BACKOFF_BASE && max == BACKOFF_MAX && attempt == 0
    {
      base, max, attempt := BACKOFF_BASE, BACKOFF_MAX, 0;
    }

    /** random stands for the uniform draw below the ceiling. */
    method Next(random: int -> int) returns (delay: int)
      requires max > 0
      requires forall n :: n > 0 ==> 0 <= random(n) < n
      modifies this
      ensures attempt == old(attempt) + 1
      ensures delay == random(Ceiling(base, max, old(attempt)))
      ensures 0 <= delay < Ceiling(base, max, old(attempt)) <= max
    {
      CeilingInRange(base, max, attempt);
      var shifted := Int64(Shifted(base, Clamped(attempt)));
      var ceiling := shifted;
      if ceiling > max || ceiling <= 0 { ceiling := max; }
      attempt := attempt + 1;
      delay := random(ceiling);
    }

    method Reset()
      modifies this
      ensures attempt == 0
    {
      attempt := 0;
    }
  }

  // ---------------------------------------------------------------- the retry loop

  datatype Ending = Lost | Closed(code: string)

  /** CloseError.Permanent: only these codes end the retrying. */
  predicate Permanent(e: Ending) {
    e.Closed? && e.code in {"unauthorized", "unsupported_version", "replaced"}
  }

  /** One pass of the loop: how the session ended, how long it lasted, whether the caller cancelled. */
  datatype Session = Session(ending: Ending, lasted: int, cancelled: bool, cancelledAsleep: bool)

  /** Consecutive sessions, back from the end, since one that lasted. */
  function Streak(past: seq<Session>): (n: nat)
    ensures n == 0 <==> past == []
  {
    if past == [] then 0
    else if past[|past| - 1].lasted >= STABLE_SESSION then 1
    else 1 + Streak(past[..|past| - 1])
  }

  /** The sessions since one last lasted are the length of the streak: it and all after it, or all when none did. */
  lemma {:induction false} StreakIsLength(past: seq<Session>)
    ensures Streak(past) <= |past|
    ensures forall i | |past| - Streak(past) < i < |past| :: past[i].lasted < 30_000_000_000
    ensures Streak(past) < |past| ==> past[|past| - Streak(past)].lasted >= 30_000_000_000
  {
    if past != [] { StreakIsLength(past[..|past| - 1]); }
  }

  lemma StreakNext(script: seq<Session>, i: nat)
    requires i < |script|
    ensures Streak(script[..i + 1]) == 1 + if script[i].lasted >= STABLE_SESSION then 0 else Streak(script[..i])
  {
    assert script[..i + 1][..i] == script[..i];
  }

  lemma NoStreak(script: seq<Session>)
    ensures Streak(script[..0]) == 0
  {
  }

  /** Run: retries until told to stop; it fails only with an ending that retrying cannot help. */
  method Run(script: seq<Session>, random: int -> int) returns (used: nat, failure: Option<Ending>, delays: seq<int>)
    requires forall n :: n > 0 ==> 0 <= random(n) < n
    ensures used <= |script|
    ensures forall i :: 0 <= i < used - 1 ==>
              && !script[i].cancelled && !script[i].cancelledAsleep
              && script[i].ending !in {Closed("unauthorized"), Closed("unsupported_version"), Closed("replaced")}
    ensures failure.Some? <==>
              used > 0 && !script[used - 1].cancelled
              && script[used - 1].ending in {Closed("unauthorized"), Closed("unsupported_version"), Closed("replaced")}
    ensures failure.Some? ==> failure.value == script[used - 1].ending
    ensures used < |script| ==>
              used > 0 && (failure.Some? || script[used - 1].cancelled || script[used - 1].cancelledAsleep)
    ensures |delays| == if used > 0 && (failure.Some? || script[used - 1].cancelled) then used - 1 else used
    ensures forall i :: 0 <= i < |delays| ==>
              i < used && delays[i] == random(Ceiling(BACKOFF_BASE, BACKOFF_MAX, Streak(script[..i + 1]) - 1))
              && 0 <= delays[i] < Ceiling(BACKOFF_BASE, BACKOFF_MAX, Streak(script[..i + 1]) - 1)
  {
    hide Ceiling, Streak;
    NoStreak(script);
    var bo := new Backoff();
    used, failure, delays := 0, None, [];
    while used < |script|
      invariant used <= |script| && bo.base == BACKOFF_BASE && bo.max == BACKOFF_MAX
      invariant forall i :: 0 <= i < used ==>
          !script[i].cancelled && !script[i].cancelledAsleep && !Permanent(script[i].ending)
      invariant bo.attempt == Streak(script[..used]) && |delays| == used
      invariant forall i :: 0 <= i < |delays| ==>
          var ceiling := Ceiling(BACKOFF_BASE, BACKOFF_MAX, Streak(script[..i + 1]) - 1);
          delays[i] == random(ceiling) && 0 <= delays[i] < ceiling
    {
      var s := script[used];
      StreakNext(script, used);
      used := used + 1;
      if s.cancelled { return; }
      if s.lasted >= STABLE_SESSION { bo.Reset(); }
      if Permanent(s.ending) { return used, Some(s.ending), delays; }
      var delay := bo.Next(random);
      delays := delays + [delay];
      if s.cancelledAsleep { return; }
    }
  }

  // ---------------------------------------------------------------- contending for one inbox

  datatype Place = Idle | Live(conn: nat) | Stopped

  /** Connections are numbered as they are welcomed. A handler that has welcomed its peer is arriving until it
      registers; current is the connection the hub holds; notices are the displaced ones, each to be told `replaced`;
      severed are those the server has given up by itself, whose peers may not know. */
  datatype Fleet = Fleet(
    peers: seq<Place>, next: nat, arriving: set<nat>, current: Option<nat>, notices: set<nat>, severed: set<nat>,
    registrations: nat, evictions: nat)

  datatype Move =
    | Welcome(i: nat)                   // the handshake succeeds; the handler has still to register
    | Register(conn: nat)
    | Refused(i: nat, ending: Ending)   // the handshake is answered with a close
    | Ends(i: nat, ending: Ending)      // a session ends for the peer, with a close frame or without
    | Unregister(conn: nat)             // the server's side ends: a read error, a failed ping, a bad frame

  predicate Possible(f: Fleet, m: Move) {
    match m
    case Welcome(i) => i < |f.peers| && f.peers[i].Idle?
    case Register(conn) => conn in f.arriving
    case Refused(i, _) => i < |f.peers| && f.peers[i].Idle?
    case Ends(i, ending) =>
      i < |f.peers| && f.peers[i].Live? && (ending == Closed("replaced") ==> f.peers[i].conn in f.notices)
    case Unregister(conn) => f.current == Some(conn)
  }

  /** Where a peer goes when it is turned away or its session ends. */
  function Next(ending: Ending): Place { if Permanent(ending) then Stopped else Idle }

  function Make(f: Fleet, m: Move): Fleet
    requires Possible(f, m)
  {
    match m
    case Welcome(i) => f.(peers := f.peers[i := Live(f.next)], next := f.next + 1, arriving := f.arriving + {f.next})
    case Register(conn) =>
      f.(arriving := f.arriving - {conn},
         current := Some(conn),
         notices := if f.current.Some? then f.notices + {f.current.value} else f.notices,
         registrations := f.registrations + 1,
         evictions := if f.current.Some? then f.evictions + 1 else f.evictions)
    case Refused(i, ending) => f.(peers := f.peers[i := Next(ending)])
    case Ends(i, ending) => f.(peers := f.peers[i := Next(ending)])
    case Unregister(conn) => f.(current := None, severed := f.severed + {conn})
  }

  predicate Known(f: Fleet, conn: nat) {
    conn in f.arriving || f.current == Some(conn) || conn in f.notices || conn in f.severed
  }

  /** Every connection ever welcomed is arriving, current, displaced or severed, and only one of these. */
  ghost predicate FleetOk(f: Fleet) { PlacesOk(f) && CountsOk(f) }

  /** One connection for every registration, made or to be made, and one notice for every eviction. */
  predicate CountsOk(f: Fleet) { f.next == f.registrations + |f.arriving| && f.evictions == |f.notices| }

  ghost predicate PlacesOk(f: Fleet) {
    && (forall i | 0 <= i < |f.peers| && f.peers[i].Live? :: f.peers[i].conn < f.next)
    && (forall i, j | 0 <= i < j < |f.peers| && f.peers[i].Live? :: f.peers[i] != f.peers[j])
    && (forall c: nat :: Known(f, c) <==> c < f.next)
    && f.notices !! f.severed && f.arriving !! f.notices && f.arriving !! f.severed
    && (f.current.Some? ==>
          f.current.value !in f.notices && f.current.value !in f.severed && f.current.value !in f.arriving)
  }

  lemma MoveKeepsFleet(f: Fleet, m: Move)
    requires FleetOk(f) && Possible(f, m)
    ensures FleetOk(Make(f, m)) && |Make(f, m).peers| == |f.peers|
  {
    MoveKeepsPlaces(f, m);
    MoveKeepsCounts(f, m);
    hide PlacesOk, CountsOk, Next;
  }

  lemma MoveKeepsCounts(f: Fleet, m: Move)
    requires FleetOk(f) && Possible(f, m)
    ensures CountsOk(Make(f, m))
  {
    assert m.Welcome? ==> !Known(f, f.next);
    hide PlacesOk, Known, Next;
  }

  lemma MoveKeepsPlaces(f: Fleet, m: Move)
    requires PlacesOk(f) && Possible(f, m)
    ensures PlacesOk(Make(f, m))
  {
    var g := Make(f, m);
    forall c: nat ensures Known(g, c) <==> c < g.next { assert Known(f, c) <==> c < f.next; }
    if m.Welcome? {
      assert !Known(f, f.next);
      assert f.current.Some? ==> Known(f, f.current.value);
    }
    hide Known, Next;
  }

  predicate Plays(f: Fleet, moves: seq<Move>)
    decreases |moves|
  {
    moves == [] || (Possible(f, moves[0]) && Plays(Make(f, moves[0]), moves[1..]))
  }

  function Outcome(f: Fleet, moves: seq<Move>): Fleet
    requires Plays(f, moves)
    decreases |moves|
  {
    if moves == [] then f else Outcome(Make(f, moves[0]), moves[1..])
  }

  function NewFleet(n: nat): Fleet {
    Fleet(seq(n, _ => Idle), 0, {}, None, {}, {}, 0, 0)
  }

  lemma {:induction false} PlayKeepsFleet(f: Fleet, moves: seq<Move>)
    requires FleetOk(f) && Plays(f, moves)
    ensures FleetOk(Outcome(f, moves)) && |Outcome(f, moves).peers| == |f.peers|
    decreases |moves|
  {
    hide FleetOk;
    if moves != [] {
      MoveKeepsFleet(f, moves[0]);
      PlayKeepsFleet(Make(f, moves[0]), moves[1..]);
    }
  }

  // ---------------------------------------------------------------- nobody fights

  /** A session that ends neither by being replaced nor for good: the peer will be back. */
  predicate Drop(m: Move) { m.Ends? && m.ending != Closed("replaced") && !Permanent(m.ending) }

  function Drops(moves: seq<Move>): nat {
    if moves == [] then 0 else (if Drop(moves[0]) then 1 else 0) + Drops(moves[1..])
  }

  function Idles(peers: seq<Place>): nat {
    if peers == [] then 0 else Idles(peers[..|peers| - 1]) + if peers[|peers| - 1].Idle? then 1 else 0
  }

  /** Registrations made, under way, and open to the peers that are idle. */
  function Due(f: Fleet): nat { f.registrations + |f.arriving| + Idles(f.peers) }

  lemma {:induction false} IdlesUpdate(peers: seq<Place>, i: nat, p: Place)
    requires i < |peers|
    ensures Idles(peers[i := p]) == Idles(peers) - (if peers[i].Idle? then 1 else 0) + (if p.Idle? then 1 else 0)
  {
    var n := |peers| - 1;
    if i < n {
      assert peers[i := p][..n] == peers[..n][i := p];
      IdlesUpdate(peers[..n], i, p);
    } else {
      assert peers[i := p][..n] == peers[..n];
    }
  }

  /** One move: a welcome uses up an idle peer, a registration an arrival, and only a drop makes a peer idle again. */
  lemma MoveIsPaid(f: Fleet, m: Move)
    requires Possible(f, m)
    ensures Due(Make(f, m)) <= Due(f) + (if Drop(m) then 1 else 0)
    ensures Make(f, m).evictions - f.evictions <= Make(f, m).registrations - f.registrations
  {
    if m.Welcome? || m.Refused? || m.Ends? { IdlesUpdate(f.peers, m.i, Make(f, m).peers[m.i]); }
    hide Idles;
  }

  /** Whatever a run does, its registrations are paid for by peers that were idle, by handlers that were arriving and by
      drops, and each eviction by a registration. */
  lemma {:induction false} RegistrationsPaid(f: Fleet, moves: seq<Move>)
    requires Plays(f, moves)
    ensures Due(Outcome(f, moves)) <= Due(f) + Drops(moves)
    ensures Outcome(f, moves).evictions - f.evictions <= Outcome(f, moves).registrations - f.registrations
    decreases |moves|
  {
    hide Due, Drop, Make, Possible;
    if moves != [] {
      MoveIsPaid(f, moves[0]);
      RegistrationsPaid(Make(f, moves[0]), moves[1..]);
    }
  }

  lemma {:induction false} AllIdle(n: nat)
    ensures Idles(NewFleet(n).peers) == n
  {
    if n > 0 {
      assert NewFleet(n).peers[..n - 1] == NewFleet(n - 1).peers;
      AllIdle(n - 1);
    }
  }

  /** n peers on one inbox register at most n times plus once for every drop, those still to register included: being
      replaced never brings one back. */
  lemma NoFight(n: nat, moves: seq<Move>)
    requires Plays(NewFleet(n), moves)
    ensures var g := Outcome(NewFleet(n), moves); g.registrations + |g.arriving| <= n + Drops(moves)
  {
    hide Plays, Outcome;
    AllIdle(n);
    RegistrationsPaid(NewFleet(n), moves);
  }

  /** From any point on, evictions are bounded by the peers still to connect, the handlers still to register and the
      drops to come: once drops stop, evictions stop. */
  lemma EvictionsStop(f: Fleet, moves: seq<Move>)
    requires Plays(f, moves)
    ensures var g := Outcome(f, moves);
            g.evictions - f.evictions + |g.arriving| + Idles(g.peers) <= |f.arriving| + Idles(f.peers) + Drops(moves)
  {
    RegistrationsPaid(f, moves);
  }

  // ---------------------------------------------------------------- who is left

  predicate LiveOn(f: Fleet, conn: nat) { exists i :: 0 <= i < |f.peers| && f.peers[i] == Live(conn) }

  /** Every `replaced` notice has reached its peer, or its peer is gone. */
  predicate NoticesRead(f: Fleet) { forall conn | conn in f.notices :: !LiveOn(f, conn) }

  /** From here on sessions end only by being replaced. */
  predicate Calm(moves: seq<Move>) { forall m | m in moves && m.Ends? :: m.ending == Closed("replaced") }

  lemma LiveChange(f: Fleet, m: Move, conn: nat)
    requires FleetOk(f) && Possible(f, m)
    ensures LiveOn(Make(f, m), conn) <==>
              (LiveOn(f, conn) && !(m.Ends? && f.peers[m.i] == Live(conn))) || (m.Welcome? && conn == f.next)
  {
    var g := Make(f, m);
    hide Next, Known;
    if m.Welcome? || m.Refused? || m.Ends? {
      assert g.peers == f.peers[m.i := g.peers[m.i]];
      MovedPeer(f, m);
      if LiveOn(f, conn) {
        var j :| 0 <= j < |f.peers| && f.peers[j] == Live(conn);
        if j != m.i { assert g.peers[j] == Live(conn); }
      }
      if LiveOn(g, conn) {
        var j :| 0 <= j < |g.peers| && g.peers[j] == Live(conn);
        if j != m.i { assert f.peers[j] == Live(conn); }
      }
      if m.Welcome? { assert g.peers[m.i] == Live(f.next); }
    }
  }

  lemma MovedPeer(f: Fleet, m: Move)
    requires Possible(f, m) && (m.Welcome? || m.Refused? || m.Ends?)
    ensures Make(f, m).peers[m.i].Live? <==> m.Welcome?
  {
  }

  /** In a calm run a connection is live at the end exactly if it was made or live before and has not read a notice. */
  lemma {:induction false} CalmRun(f: Fleet, moves: seq<Move>, conn: nat)
    requires FleetOk(f) && Plays(f, moves) && Calm(moves)
    ensures var g := Outcome(f, moves);
            && FleetOk(g) && f.next <= g.next
            && (LiveOn(g, conn) ==> LiveOn(f, conn) || f.next <= conn < g.next)
            && ((LiveOn(f, conn) || f.next <= conn < g.next) && conn !in g.notices ==> LiveOn(g, conn))
            && (conn in f.notices ==> conn in g.notices)
    decreases |moves|
  {
    hide FleetOk, LiveOn;
    if moves != [] {
      var g := Make(f, moves[0]);
      assert moves[0] in moves && forall m | m in moves[1..] :: m in moves;
      MoveKeepsFleet(f, moves[0]);
      LiveChange(f, moves[0], conn);
      CalmRun(g, moves[1..], conn);
      hide Next;
    }
  }

  lemma LiveIsKnown(f: Fleet, conn: nat)
    requires FleetOk(f) && LiveOn(f, conn)
    ensures Known(f, conn)
  {
  }

  /** Once drops have stopped and every notice has been read, the peers left are exactly those, of the ones live before
      or welcomed since, whose connection the hub holds, whose handler has still to register, or whom the server has
      given up by itself. */
  lemma WhoIsLeft(f: Fleet, moves: seq<Move>, conn: nat)
    requires FleetOk(f) && Plays(f, moves) && Calm(moves) && NoticesRead(Outcome(f, moves))
    ensures var g := Outcome(f, moves);
            LiveOn(g, conn) <==>
              (LiveOn(f, conn) || f.next <= conn < g.next)
              && (g.current == Some(conn) || conn in g.arriving || conn in g.severed)
  {
    CalmRun(f, moves, conn);
    var g := Outcome(f, moves);
    hide Outcome, Plays, LiveOn;
    if LiveOn(g, conn) { LiveIsKnown(g, conn); }
  }

  /** At every moment of every run at most one peer is live whose handler has registered and whose connection was
      neither displaced, with the notice still to be read, nor given up by the server. */
  lemma AtMostOneLive(n: nat, moves: seq<Move>, i: nat, j: nat)
    requires Plays(NewFleet(n), moves)
    requires var f := Outcome(NewFleet(n), moves);
             i < |f.peers| && j < |f.peers| && f.peers[i].Live? && f.peers[j].Live?
    requires var f := Outcome(NewFleet(n), moves);
             && f.peers[i].conn !in f.arriving + f.notices + f.severed
             && f.peers[j].conn !in f.arriving + f.notices + f.severed
    ensures i == j
  {
    PlayKeepsFleet(NewFleet(n), moves);
    var f := Outcome(NewFleet(n), moves);
    hide Plays, Outcome;
    LiveIsKnown(f, f.peers[i].conn);
    LiveIsKnown(f, f.peers[j].conn);
  }

  /** When nobody is arriving or severed, the last to register decides: it is left, and alone, if its peer was live
      before or has been welcomed since; if its peer had dropped out before, nobody is left. */
  lemma LastToRegister(f: Fleet, moves: seq<Move>)
    requires FleetOk(f) && Plays(f, moves) && Calm(moves) && NoticesRead(Outcome(f, moves))
    requires Outcome(f, moves).arriving == {} && Outcome(f, moves).severed == {}
    ensures var g := Outcome(f, moves);
            && (forall conn: nat | LiveOn(g, conn) :: g.current == Some(conn))
            && ((exists conn: nat :: LiveOn(g, conn)) <==>
                  g.current.Some? && (LiveOn(f, g.current.value) || f.next <= g.current.value))
  {
    var g := Outcome(f, moves);
    CalmRun(f, moves, 0);
    forall conn: nat
      ensures LiveOn(g, conn) <==> (LiveOn(f, conn) || f.next <= conn < g.next) && g.current == Some(conn)
    {
      WhoIsLeft(f, moves, conn);
    }
    hide LiveOn, Outcome, Plays, NoticesRead, Calm;
    if g.current.Some? { assert Known(g, g.current.value); }
  }

  predicate Severs(moves: seq<Move>) { exists m :: m in moves && m.Unregister? }

  /** Without connections given up, the hub is never empty again once someone has registered. */
  lemma {:induction false} NobodySevered(f: Fleet, moves: seq<Move>)
    requires Plays(f, moves) && !Severs(moves) && f.severed == {} && (f.notices != {} ==> f.current.Some?)
    ensures var g := Outcome(f, moves); g.severed == {} && (g.notices != {} ==> g.current.Some?)
    decreases |moves|
  {
    if moves != [] {
      assert moves[0] in moves && forall m | m in moves[1..] :: m in moves;
      NobodySevered(Make(f, moves[0]), moves[1..]);
      hide Next;
    }
  }

  /** So in a run without drops in which the server gives nobody up, exactly one peer is left, the last to register, as
      soon as anyone has been welcomed and all handlers have registered. */
  lemma OneIsLeft(n: nat, moves: seq<Move>, conn: nat)
    requires Plays(NewFleet(n), moves) && Calm(moves) && !Severs(moves)
    requires var g := Outcome(NewFleet(n), moves); NoticesRead(g) && g.next > 0 && g.arriving == {}
    ensures var g := Outcome(NewFleet(n), moves); g.current.Some? && (LiveOn(g, conn) <==> conn == g.current.value)
  {
    WhoIsLeft(NewFleet(n), moves, conn);
    NobodySevered(NewFleet(n), moves);
    CalmRun(NewFleet(n), moves, conn);
    NobodyLive(n, conn);
    var g := Outcome(NewFleet(n), moves);
    hide Plays, Outcome, LiveOn;
    assert Known(g, 0);
    assert Known(g, g.current.value);
  }

  lemma NobodyLive(n: nat, conn: nat)
    ensures !LiveOn(NewFleet(n), conn)
  {
  }

  lemma OneMore(f: Fleet, m: Move, moves: seq<Move>)
    requires Possible(f, m) && Plays(Make(f, m), moves)
    ensures Plays(f, [m] + moves) && Outcome(f, [m] + moves) == Outcome(Make(f, m), moves)
    ensures Drops([m] + moves) == (if Drop(m) then 1 else 0) + Drops(moves)
  {
    assert ([m] + moves)[1..] == moves;
  }

  /** The server may give up a connection whose peer still believes in it: the next to register displaces nobody, and
      two peers stay live with no notice on its way to either. */
  lemma SeveredExample()
    ensures var moves := [Welcome(0), Register(0), Unregister(0), Welcome(1), Register(1)];
            && Plays(NewFleet(2), moves)
            && var g := Outcome(NewFleet(2), moves);
               Drops(moves) == 0 && g.arriving == {} && g.notices == {} && LiveOn(g, 0) && LiveOn(g, 1)
  {
    var f0 := NewFleet(2);
    var f1 := Make(f0, Welcome(0));
    var f2 := Make(f1, Register(0));
    var f3 := Make(f2, Unregister(0));
    var f4 := Make(f3, Welcome(1));
    var f5 := Make(f4, Register(1));
    assert f5.peers[0] == Live(0) && f5.peers[1] == Live(1) && f5.arriving == {};
    assert Plays(f5, []);
    OneMore(f4, Register(1), []);
    OneMore(f3, Welcome(1), [Register(1)]);
    OneMore(f2, Unregister(0), [Welcome(1), Register(1)]);
    OneMore(f1, Register(0), [Unregister(0), Welcome(1), Register(1)]);
    OneMore(f0, Welcome(0), [Register(0), Unregister(0), Welcome(1), Register(1)]);
  }

  /** A handler may register after its peer has dropped and come back: it displaces the peer's own new connection, and
      nobody is left, although nothing was severed. */
  lemma LateHandlerExample()
    ensures var moves := [Welcome(0), Ends(0, Lost), Welcome(0), Register(1), Register(0), Ends(0, Closed("replaced"))];
            && Plays(NewFleet(1), moves)
            && var g := Outcome(NewFleet(1), moves);
               Drops(moves) == 1 && g.arriving == {} && g.severed == {} && forall conn: nat :: !LiveOn(g, conn)
  {
    var late := [Register(1), Register(0), Ends(0, Closed("replaced"))];
    var f0 := NewFleet(1);
    var f1 := Make(f0, Welcome(0));
    var f2 := Make(f1, Ends(0, Lost));
    var f3 := Make(f2, Welcome(0));
    LateHandler(f3);
    OneMore(f2, Welcome(0), late);
    OneMore(f1, Ends(0, Lost), [Welcome(0)] + late);
    OneMore(f0, Welcome(0), [Ends(0, Lost), Welcome(0)] + late);
  }

  lemma LateHandler(f: Fleet)
    requires f.peers == [Live(1)] && f.arriving == {0, 1} && f.current.None? && f.notices == {} && f.severed == {}
    ensures var late := [Register(1), Register(0), Ends(0, Closed("replaced"))];
            && Plays(f, late) && Drops(late) == 0
            && Outcome(f, late).peers == [Stopped] && Outcome(f, late).arriving == {} && Outcome(f, late).severed == {}
  {
    var over := Ends(0, Closed("replaced"));
    var f1 := Make(f, Register(1));
    var f2 := Make(f1, Register(0));
    var f3 := Make(f2, over);
    assert Plays(f3, []);
    OneMore(f2, over, []);
    OneMore(f1, Register(0), [over]);
    OneMore(f, Register(1), [Register(0), over]);
  }
}
