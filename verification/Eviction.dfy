/** Forgetting idle keys: exactly when a limiter that evicts cannot be told from one that never does. */
module Eviction {
  import opened Text
  import opened RateLimit

  datatype Op = Ask(key: string, now: real) | Sweep(now: real)

  /** The answers of a limiter to a history of calls and sweeps. */
  function Answers(ops: seq<Op>, m: map<string, Bucket>, rate: real, burst: real, idle: real, evicts: bool): seq<Answer>
    requires rate > 0.0
    decreases |ops|
  {
    if ops == [] then []
    else match ops[0]
      case Ask(key, now) =>
        var (b, answer) := AllowOne(Find(m, key), now, rate, burst);
        [answer] + Answers(ops[1..], m[key := b], rate, burst, idle, evicts)
      case Sweep(now) =>
        Answers(ops[1..], if evicts then Kept(m, now, idle) else m, rate, burst, idle, evicts)
  }

  predicate Monotone(ops: seq<Op>, since: real)
    decreases |ops|
  {
    ops == [] || (since <= ops[0].now && Monotone(ops[1..], ops[0].now))
  }

  /** m is n, except for keys forgotten after being idle long enough by the time clock. */
  ghost predicate Agree(m: map<string, Bucket>, n: map<string, Bucket>, clock: real, idle: real, burst: real) {
    && (forall k | k in m :: k in n && m[k] == n[k])
    && (forall k | k in n && k !in m :: n[k].last < clock - idle)
    && (forall k | k in n :: 0.0 <= n[k].tokens <= burst && n[k].last <= clock)
  }

  /** A bucket idle that long is full again, so it answers as a new one would. */
  lemma IdleIsFull(b: Bucket, now: real, rate: real, burst: real, idle: real)
    requires rate > 0.0 && Earned(idle, rate) >= burst && idle >= 0.0
    requires 0.0 <= b.tokens <= burst && b.last < now - idle
    ensures AllowOne(Some(b), now, rate, burst) == AllowOne(None, now, rate, burst)
  {
    Earns(idle, now - b.last - idle, rate);
    hide Earned;
  }

  lemma TokensStayInRange(b: Option<Bucket>, now: real, rate: real, burst: real)
    requires rate > 0.0 && burst >= 1.0 && (b.Some? ==> 0.0 <= b.value.tokens <= burst && b.value.last <= now)
    ensures var c := AllowOne(b, now, rate, burst).0; 0.0 <= c.tokens <= burst && c.last == now
  {
    if b.Some? { Earns(now - b.value.last, 0.0, rate); }
    hide Earned;
  }

  lemma {:induction false} SameAnswers(ops: seq<Op>, m: map<string, Bucket>, n: map<string, Bucket>, clock: real,
                                       rate: real, burst: real, idle: real)
    requires rate > 0.0 && burst >= 1.0 && idle >= 0.0 && Earned(idle, rate) >= burst
    requires Monotone(ops, clock) && Agree(m, n, clock, idle, burst)
    ensures Answers(ops, m, rate, burst, idle, true) == Answers(ops, n, rate, burst, idle, false)
    decreases |ops|
  {
    hide Earned, Kept, AllowOne;
    if ops != [] {
      match ops[0] {
        case Ask(key, now) =>
          var (b, answer) := AllowOne(Find(m, key), now, rate, burst);
          if key in n && key !in m { IdleIsFull(n[key], now, rate, burst, idle); }
          TokensStayInRange(Find(n, key), now, rate, burst);
          SameAnswers(ops[1..], m[key := b], n[key := b], now, rate, burst, idle);
        case Sweep(now) =>
          var kept := Kept(m, now, idle);
          KeptAgrees(m, n, now, idle, burst, clock);
          SameAnswers(ops[1..], kept, n, now, rate, burst, idle);
      }
    }
  }

  lemma KeptAgrees(m: map<string, Bucket>, n: map<string, Bucket>, now: real, idle: real, burst: real, clock: real)
    requires Agree(m, n, clock, idle, burst) && clock <= now
    ensures Agree(Kept(m, now, idle), n, now, idle, burst)
  {
  }

  ghost predicate Invisible(rate: real, burst: real, idle: real)
    requires rate > 0.0
  {
    forall ops, since | Monotone(ops, since) ::
      Answers(ops, map[], rate, burst, idle, true) == Answers(ops, map[], rate, burst, idle, false)
  }

  // ---------------------------------------------------------------- telling two buckets apart

  function Asks(key: string, ts: seq<real>): seq<Op> {
    seq(|ts|, i requires 0 <= i < |ts| => Ask(key, ts[i]))
  }

  /** Calls that a fuller bucket and an emptier one answer differently. */
  function Probe(less: real, more: real, now: real, rate: real): seq<real>
    requires rate > 0.0 && less >= 0.0
    decreases less.Floor
  {
    if less >= 1.0 then [now] + Probe(less - 1.0, more - 1.0, now, rate)
    else if more >= 1.0 then [now]
    else [now + (1.0 - more) / rate]
  }

  lemma {:induction false} ProbeMonotone(less: real, more: real, now: real, rate: real, key: string)
    requires rate > 0.0 && 0.0 <= less < more
    ensures Monotone(Asks(key, Probe(less, more, now, rate)), now)
    decreases less.Floor
  {
    var ts := Probe(less, more, now, rate);
    if less >= 1.0 {
      ProbeMonotone(less - 1.0, more - 1.0, now, rate, key);
      assert Asks(key, ts)[1..] == Asks(key, Probe(less - 1.0, more - 1.0, now, rate));
    } else if more < 1.0 {
      assert Earned((1.0 - more) / rate, rate) == 1.0 - more;
      Earns((1.0 - more) / rate, 0.0, rate);
    }
  }

  /** Asked now, the key holds this many tokens: it is missing and would start full, or it refills to that. */
  predicate Holds(m: map<string, Bucket>, key: string, tokens: real, now: real, rate: real, burst: real) {
    if key in m then Refill(m[key], now, rate, burst) == Bucket(tokens, now) else tokens == burst
  }

  lemma {:induction false} ProbeTells(less: real, more: real, now: real, rate: real, burst: real, idle: real,
                                      key: string,
                                      m: map<string, Bucket>, n: map<string, Bucket>)
    requires rate > 0.0 && burst >= 1.0 && 0.0 <= less < more <= burst
    requires Holds(m, key, more, now, rate, burst) && key in n && Holds(n, key, less, now, rate, burst)
    requires more < 1.0 ==> Find(m, key) == Some(Bucket(more, now)) && n[key] == Bucket(less, now)
    ensures var ops := Asks(key, Probe(less, more, now, rate));
            Answers(ops, m, rate, burst, idle, true) != Answers(ops, n, rate, burst, idle, false)
    decreases less.Floor
  {
    var ops := Asks(key, Probe(less, more, now, rate));
    if less >= 1.0 {
      var rest := Asks(key, Probe(less - 1.0, more - 1.0, now, rate));
      assert ops[1..] == rest && ops[0] == Ask(key, now);
      var m1, n1 := m[key := Bucket(more - 1.0, now)], n[key := Bucket(less - 1.0, now)];
      assert AllowOne(Find(m, key), now, rate, burst) == (Bucket(more - 1.0, now), Granted);
      assert AllowOne(Find(n, key), now, rate, burst) == (Bucket(less - 1.0, now), Granted);
      ProbeTells(less - 1.0, more - 1.0, now, rate, burst, idle, key, m1, n1);
      hide AllowOne, Earned;
      assert Answers(ops, m, rate, burst, idle, true)[1..] == Answers(rest, m1, rate, burst, idle, true);
      assert Answers(ops, n, rate, burst, idle, false)[1..] == Answers(rest, n1, rate, burst, idle, false);
    } else {
      LastProbeTells(less, more, now, rate, burst, key, m, n);
      hide AllowOne, Earned;
      assert Answers(ops, m, rate, burst, idle, true)[0].Granted?;
      assert Answers(ops, n, rate, burst, idle, false)[0].Refused?;
    }
  }

  lemma LastProbeTells(less: real, more: real, now: real, rate: real, burst: real, key: string,
                       m: map<string, Bucket>, n: map<string, Bucket>)
    requires rate > 0.0 && burst >= 1.0 && 0.0 <= less < more <= burst && less < 1.0
    requires Holds(m, key, more, now, rate, burst) && key in n && Holds(n, key, less, now, rate, burst)
    requires more < 1.0 ==> Find(m, key) == Some(Bucket(more, now)) && n[key] == Bucket(less, now)
    ensures var t := Probe(less, more, now, rate)[0];
            AllowOne(Find(m, key), t, rate, burst).1.Granted? && AllowOne(Find(n, key), t, rate, burst).1.Refused?
  {
    if more < 1.0 {
      var wait := (1.0 - more) / rate;
      assert Earned(wait, rate) == 1.0 - more;
      Earns(wait, 0.0, rate);
      assert now + wait - now == wait;
    }
    hide Earned;
  }

  // ---------------------------------------------------------------- emptying a bucket

  /** Calls that bring a bucket with these tokens down to none. */
  function Spend(tokens: real, now: real, rate: real): seq<real>
    requires rate > 0.0 && tokens >= 0.0
    decreases tokens.Floor
  {
    if tokens >= 1.0 then [now] + Spend(tokens - 1.0, now, rate)
    else [now + (1.0 - tokens) / rate]
  }

  function SpentAt(tokens: real, now: real, rate: real): real
    requires rate > 0.0 && tokens >= 0.0
  {
    now + (1.0 - (tokens - tokens.Floor as real)) / rate
  }

  /** When a first call leaves both limiters with the same map, only the rest can differ. */
  lemma AskFirst(ops: seq<Op>, m: map<string, Bucket>, next: Bucket, rate: real, burst: real, idle: real)
    requires rate > 0.0 && ops != [] && ops[0].Ask?
    requires AllowOne(Find(m, ops[0].key), ops[0].now, rate, burst).0 == next
    ensures var n := m[ops[0].key := next];
            Answers(ops[1..], n, rate, burst, idle, true) != Answers(ops[1..], n, rate, burst, idle, false) ==>
            Answers(ops, m, rate, burst, idle, true) != Answers(ops, m, rate, burst, idle, false)
  {
    var n := m[ops[0].key := next];
    assert Answers(ops, m, rate, burst, idle, true)[1..] == Answers(ops[1..], n, rate, burst, idle, true);
    assert Answers(ops, m, rate, burst, idle, false)[1..] == Answers(ops[1..], n, rate, burst, idle, false);
  }

  /** Emptying a bucket gets the same answers with eviction and without, and goes on from the empty bucket. */
  lemma {:induction false} Spending(tokens: real, now: real, rate: real, burst: real, idle: real, key: string,
                                    m: map<string, Bucket>, rest: seq<Op>)
    requires rate > 0.0 && burst >= 1.0 && 0.0 <= tokens <= burst && Find(m, key) == Some(Bucket(tokens, now))
    requires Monotone(rest, SpentAt(tokens, now, rate))
    ensures now <= SpentAt(tokens, now, rate) && Monotone(Asks(key, Spend(tokens, now, rate)) + rest, now)
    ensures var ops, end := Asks(key, Spend(tokens, now, rate)), m[key := Bucket(0.0, SpentAt(tokens, now, rate))];
            Answers(rest, end, rate, burst, idle, true) != Answers(rest, end, rate, burst, idle, false) ==>
            Answers(ops + rest, m, rate, burst, idle, true) != Answers(ops + rest, m, rate, burst, idle, false)
    decreases tokens.Floor
  {
    var ts := Spend(tokens, now, rate);
    var ops := Asks(key, ts);
    var next := if tokens >= 1.0 then Bucket(tokens - 1.0, now) else Bucket(0.0, ts[0]);
    if tokens >= 1.0 {
      assert tokens - 1.0 - (tokens - 1.0).Floor as real == tokens - tokens.Floor as real;
      Spending(tokens - 1.0, now, rate, burst, idle, key, m[key := next], rest);
      assert (ops + rest)[1..] == Asks(key, Spend(tokens - 1.0, now, rate)) + rest;
      assert m[key := next][key := Bucket(0.0, SpentAt(tokens, now, rate))]
          == m[key := Bucket(0.0, SpentAt(tokens, now, rate))];
    } else {
      var wait := (1.0 - tokens) / rate;
      assert tokens.Floor == 0 && Earned(wait, rate) == 1.0 - tokens;
      Earns(wait, 0.0, rate);
      assert ts[0] - now == wait;
      assert (ops + rest)[1..] == rest;
    }
    assert (ops + rest)[0] == Ask(key, ts[0]);
    assert AllowOne(Find(m, key), ts[0], rate, burst) == (next, Granted);
    AskFirst(ops + rest, m, next, rate, burst, idle);
    hide Answers, Earned, AllowOne, Spend, Asks;
  }

  /** With too short an idle time, a drained key that is swept comes back too full. */
  lemma SweptTooSoon(rate: real, burst: real, idle: real) returns (ops: seq<Op>)
    requires rate > 0.0 && burst >= 1.0 && idle >= 0.0 && Earned(idle, rate) < burst
    ensures Monotone(ops, 0.0)
    ensures Answers(ops, map[], rate, burst, idle, true) != Answers(ops, map[], rate, burst, idle, false)
  {
    var key, start := "inbox", Bucket(burst - 1.0, 0.0);
    var spent := SpentAt(burst - 1.0, 0.0, rate);
    var extra := (burst - Earned(idle, rate)) / (2.0 * rate);
    assert Earned(extra, rate) == (burst - Earned(idle, rate)) / 2.0;
    Earns(extra, idle, rate);
    var less := Earned(idle + extra, rate);
    var sweep := spent + idle + extra;
    assert sweep - spent == idle + extra;
    Earns(idle, extra, rate);
    var m0, m1 := map[key := start], map[key := Bucket(0.0, spent)];
    assert m0[key := Bucket(0.0, spent)] == m1;
    var probe := Asks(key, Probe(less, burst, sweep, rate));
    var rest := [Sweep(sweep)] + probe;
    assert rest[1..] == probe;
    ProbeMonotone(less, burst, sweep, rate, key);
    assert Kept(m1, sweep, idle) == map[];
    hide Earned;
    ProbeTells(less, burst, sweep, rate, burst, idle, key, map[], m1);
    assert Answers(rest, m1, rate, burst, idle, true) == Answers(probe, map[], rate, burst, idle, true);
    assert Answers(rest, m1, rate, burst, idle, false) == Answers(probe, m1, rate, burst, idle, false);
    var spending := Asks(key, Spend(burst - 1.0, 0.0, rate));
    Spending(burst - 1.0, 0.0, rate, burst, idle, key, m0, rest);
    ops := [Ask(key, 0.0)] + (spending + rest);
    assert ops[1..] == spending + rest;
    FirstAsk(ops, key, rate, burst, idle);
  }

  lemma FirstAsk(ops: seq<Op>, key: string, rate: real, burst: real, idle: real)
    requires rate > 0.0 && burst >= 1.0 && ops != [] && ops[0] == Ask(key, 0.0)
    requires var m0 := map[key := Bucket(burst - 1.0, 0.0)];
             Answers(ops[1..], m0, rate, burst, idle, true) != Answers(ops[1..], m0, rate, burst, idle, false)
    ensures Answers(ops, map[], rate, burst, idle, true) != Answers(ops, map[], rate, burst, idle, false)
  {
    var m0: map<string, Bucket> := map[key := Bucket(burst - 1.0, 0.0)];
    assert map[][key := Bucket(burst - 1.0, 0.0)] == m0;
    assert Answers(ops, map[], rate, burst, idle, true)[1..] == Answers(ops[1..], m0, rate, burst, idle, true);
    assert Answers(ops, map[], rate, burst, idle, false)[1..] == Answers(ops[1..], m0, rate, burst, idle, false);
  }

  /** Eviction is invisible in every history with a monotone clock exactly when an idle bucket is sure to be full. */
  lemma InvisibleIff(rate: real, burst: real, idle: real)
    requires rate > 0.0 && burst >= 1.0 && idle >= 0.0
    ensures Invisible(rate, burst, idle) <==> Earned(idle, rate) >= burst
  {
    hide Earned, Answers;
    if Earned(idle, rate) >= burst {
      forall ops, since | Monotone(ops, since)
        ensures Answers(ops, map[], rate, burst, idle, true) == Answers(ops, map[], rate, burst, idle, false)
      {
        SameAnswers(ops, map[], map[], since, rate, burst, idle);
      }
    } else {
      var ops := SweptTooSoon(rate, burst, idle);
    }
  }

  // ---------------------------------------------------------------- the server's two limiters

  const IDLE_WINDOW: real := 900.0
  const DEFAULT_RATE_CREATE: real := 10.0
  const DEFAULT_RATE_CAPTURE: real := 50.0

  /** The limiters as the server builds them, from creations per minute and captures per second; a setting that is not
      positive means the default. */
  method ServerLimiters(perMinute: real, perSecond: real) returns (create: Limiter, capture: Limiter)
    ensures create.rate == (if perMinute <= 0.0 then 10.0 else perMinute) / 60.0 && create.burst == 5.0
    ensures capture.rate == if perSecond <= 0.0 then 50.0 else perSecond
    ensures capture.burst == if 2.0 * capture.rate < 1.0 then 1.0 else 2.0 * capture.rate
    ensures Invisible(create.rate, create.burst, 900.0) <==> perMinute <= 0.0 || perMinute >= 1.0 / 3.0
    ensures Invisible(capture.rate, capture.burst, 900.0) <==> perSecond <= 0.0 || perSecond >= 1.0 / 900.0
  {
    var rateCreate, rateCapture := perMinute, perSecond;
    if rateCreate <= 0.0 { rateCreate := DEFAULT_RATE_CREATE; }
    if rateCapture <= 0.0 { rateCapture := DEFAULT_RATE_CAPTURE; }
    create := new Limiter(rateCreate / 60.0, 5.0);
    capture := new Limiter(rateCapture, rateCapture * 2.0);
    InvisibleIff(create.rate, create.burst, IDLE_WINDOW);
    InvisibleIff(capture.rate, capture.burst, IDLE_WINDOW);
  }
}
