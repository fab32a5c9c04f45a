/** The promised limit: exactly when it holds, and for each key of a shared limiter. */
module RateLimitBound {
  import opened RateLimit
  import opened RateLimitLate

  /** The promised limit: in any interval of readings, at most the burst plus the rate times its length. */
  ghost predicate LimitHolds(rate: real, burst: real, late: real)
    requires rate > 0.0
  {
    forall ts, a, b | a <= b && LateBy(ts, late) ::
      GrantedIn(ts, rate, burst, a, b) as real <= burst + Earned(b - a, rate)
  }

  /** The limit holds for every run whose readings are at most `late` out of order exactly when that much time
      earns no more than one token, or a bucket never holds two. In-order readings (late = 0) always obey it. */
  lemma LimitHoldsIff(rate: real, burst: real, late: real)
    requires rate > 0.0 && burst >= 1.0 && late >= 0.0
    ensures LimitHolds(rate, burst, late) <==> Earned(late, rate) <= 1.0 || burst < 2.0
  {
    if Earned(late, rate) <= 1.0 || burst < 2.0 {
      forall ts, a, b | a <= b && LateBy(ts, late)
        ensures GrantedIn(ts, rate, burst, a, b) as real <= burst + Earned(b - a, rate)
      {
        Earns(b - a, 0.0, rate);
        RunIsPaid(ts, rate, burst, late, a, b);
      }
    } else {
      var ts, end := Overrun(rate, burst, late);
    }
  }

  // ---------------------------------------------------------------- many keys at once

  /** One call of Allow, and the reading it took. */
  datatype Request = Request(key: string, at: real)

  /** The limiter's map after a history of calls for any keys. */
  function MapAfter(calls: seq<Request>, rate: real, burst: real): map<string, Bucket>
    requires rate > 0.0
  {
    if calls == [] then map[]
    else var m, c := MapAfter(calls[..|calls| - 1], rate, burst), calls[|calls| - 1];
         m[c.key := AllowOne(Find(m, c.key), c.at, rate, burst).0]
  }

  /** How many of a key's calls with readings from a to b are granted. */
  function GrantsTo(calls: seq<Request>, key: string, rate: real, burst: real, a: real, b: real): nat
    requires rate > 0.0
  {
    if calls == [] then 0
    else var init, c := calls[..|calls| - 1], calls[|calls| - 1];
         GrantsTo(init, key, rate, burst, a, b)
         + if c.key == key && a <= c.at <= b
             && AllowOne(Find(MapAfter(init, rate, burst), key), c.at, rate, burst).1.Granted?
           then 1 else 0
  }

  function ReadingsOf(calls: seq<Request>, key: string): seq<real> {
    if calls == [] then []
    else ReadingsOf(calls[..|calls| - 1], key) + if calls[|calls| - 1].key == key then [calls[|calls| - 1].at] else []
  }

  /** Keys share the limiter without touching each other. */
  lemma {:induction false} KeysApart(calls: seq<Request>, key: string, rate: real, burst: real, a: real, b: real)
    requires rate > 0.0
    ensures Find(MapAfter(calls, rate, burst), key) == After(ReadingsOf(calls, key), rate, burst)
    ensures GrantsTo(calls, key, rate, burst, a, b) == GrantedIn(ReadingsOf(calls, key), rate, burst, a, b)
  {
    if calls != [] {
      var init, c := calls[..|calls| - 1], calls[|calls| - 1];
      KeysApart(init, key, rate, burst, a, b);
      hide AllowOne;
      var ts := ReadingsOf(calls, key);
      if c.key == key {
        assert ts[..|ts| - 1] == ReadingsOf(init, key);
      } else {
        assert ts == ReadingsOf(init, key);
      }
    }
  }

  /** Whatever other keys do, a key is granted at most the burst plus the rate times the interval's length. */
  lemma EveryKeyLimited(calls: seq<Request>, key: string, rate: real, burst: real, late: real, a: real, b: real)
    requires rate > 0.0 && burst >= 1.0 && a <= b && LateBy(ReadingsOf(calls, key), late)
    requires Earned(late, rate) <= 1.0 || burst < 2.0
    ensures GrantsTo(calls, key, rate, burst, a, b) as real <= burst + Earned(b - a, rate)
  {
    KeysApart(calls, key, rate, burst, a, b);
    RunIsPaid(ReadingsOf(calls, key), rate, burst, late, a, b);
    Earns(b - a, 0.0, rate);
  }
}
