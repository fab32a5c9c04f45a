/** The token bucket limiter: how much it grants, and when forgetting idle keys is invisible. Times are real seconds. */
module RateLimit {
  import opened Text

  datatype Bucket = Bucket(tokens: real, last: real)
  datatype Answer = Granted | Refused(retryAfter: real)

  function Min(a: real, b: real): real { if a <= b then a else b }

  /** The tokens that a span of time earns. */
  function Earned(span: real, rate: real): real { span * rate }

  /** Refill on access. A reading that is not later than the last one refills nothing. */
  function Refill(b: Bucket, now: real, rate: real, burst: real): Bucket {
    if now > b.last then Bucket(Min(b.tokens + Earned(now - b.last, rate), burst), now) else b
  }

  function Take(b: Bucket, rate: real): (Bucket, Answer)
    requires rate > 0.0
  {
    if b.tokens >= 1.0 then (b.(tokens := b.tokens - 1.0), Granted)
    else (b, Refused((1.0 - b.tokens) / rate))
  }

  /** One call of Allow for one key; a key not seen before starts full. */
  function AllowOne(b: Option<Bucket>, now: real, rate: real, burst: real): (Bucket, Answer)
    requires rate > 0.0
  {
    Take(if b.None? then Bucket(burst, now) else Refill(b.value, now, rate, burst), rate)
  }

  class Limiter {
    const rate: real
    const burst: real
    var buckets: map<string, Bucket>

    /** New: non-positive rates become 1, bursts below 1 become 1. */
    constructor (rate0: real, burst0: real)
      ensures rate == (if rate0 <= 0.0 then 1.0 else rate0) && burst == (if burst0 < 1.0 then 1.0 else burst0)
      ensures buckets == map[]
    {
      rate := if rate0 <= 0.0 then 1.0 else rate0;
      burst := if burst0 < 1.0 then 1.0 else burst0;
      buckets := map[];
    }

    method Allow(key: string, now: real) returns (ok: bool, retryAfter: real)
      requires rate > 0.0
      modifies this
      ensures var (b, answer) := AllowOne(Find(old(buckets), key), now, rate, burst);
              && buckets == old(buckets)[key := b]
              && ok == answer.Granted?
              && retryAfter == if ok then 0.0 else answer.retryAfter
      ensures var known := key in old(buckets);
              var later := known ==> now > old(buckets)[key].last;
              var refilled := if known then old(buckets)[key].tokens + (now - old(buckets)[key].last) * rate else burst;
              var tokens := if !later then old(buckets)[key].tokens else if refilled <= burst then refilled else burst;
              && (ok <==> tokens >= 1.0)
              && (!ok ==> retryAfter == (1.0 - tokens) / rate)
              && key in buckets && buckets[key].tokens == (if ok then tokens - 1.0 else tokens)
              && buckets[key].last == (if later then now else old(buckets)[key].last)
    {
      var b: Bucket;
      if key !in buckets {
        b := Bucket(burst, now);
      } else {
        b := buckets[key];
        var elapsed := now - b.last;
        if elapsed > 0.0 {
          b := Bucket(Min(b.tokens + elapsed * rate, burst), now);
        }
      }
      if b.tokens >= 1.0 {
        buckets := buckets[key := b.(tokens := b.tokens - 1.0)];
        return true, 0.0;
      }
      buckets := buckets[key := b];
      var need := 1.0 - b.tokens;
      return false, need / rate;
    }

    method Evict(now: real, idle: real) returns (removed: nat)
      modifies this
      ensures buckets == Kept(old(buckets), now, idle)
      ensures removed == |old(buckets)| - |buckets|
      ensures forall k :: k in buckets <==> k in old(buckets) && old(buckets)[k].last >= now - idle
      ensures forall k | k in buckets :: buckets[k] == old(buckets)[k]
    {
      var cutoff := now - idle;
      var keys := buckets.Keys;
      removed := 0;
      ghost var start := buckets;
      while keys != {}
        invariant keys <= start.Keys
        invariant forall k :: k in buckets <==> k in start && (k in keys || !(start[k].last < cutoff))
        invariant forall k | k in buckets :: buckets[k] == start[k]
        invariant removed == |start| - |buckets|
        decreases |keys|
      {
        var k :| k in keys;
        if buckets[k].last < cutoff {
          assert (buckets - {k}).Keys == buckets.Keys - {k};
          buckets := buckets - {k};
          removed := removed + 1;
        }
        keys := keys - {k};
      }
    }
  }

  function Find(m: map<string, Bucket>, k: string): Option<Bucket> {
    if k in m then Some(m[k]) else None
  }

  function Kept(m: map<string, Bucket>, now: real, idle: real): map<string, Bucket> {
    map k | k in m && !(m[k].last < now - idle) :: m[k]
  }

  // ---------------------------------------------------------------- one key over a run

  /** The bucket after a run of calls with these clock readings, in the order the calls hold the lock. */
  function After(ts: seq<real>, rate: real, burst: real): Option<Bucket>
    requires rate > 0.0
  {
    if ts == [] then None
    else Some(AllowOne(After(ts[..|ts| - 1], rate, burst), ts[|ts| - 1], rate, burst).0)
  }

  predicate GrantsLast(ts: seq<real>, rate: real, burst: real)
    requires rate > 0.0 && ts != []
  {
    AllowOne(After(ts[..|ts| - 1], rate, burst), ts[|ts| - 1], rate, burst).1.Granted?
  }

  /** How many calls with readings from a to b are granted. */
  function GrantedIn(ts: seq<real>, rate: real, burst: real, a: real, b: real): nat
    requires rate > 0.0
  {
    if ts == [] then 0
    else GrantedIn(ts[..|ts| - 1], rate, burst, a, b)
         + if a <= ts[|ts| - 1] <= b && GrantsLast(ts, rate, burst) then 1 else 0
  }

  /** No reading lags more than late behind a reading taken under the lock before it. */
  predicate LateBy(ts: seq<real>, late: real) {
    forall i, j :: 0 <= i < j < |ts| ==> ts[i] - late <= ts[j]
  }

  lemma {:induction false} LastIsLatest(ts: seq<real>, rate: real, burst: real)
    requires rate > 0.0 && ts != []
    ensures After(ts, rate, burst).value.last in ts
    ensures forall i :: 0 <= i < |ts| ==> ts[i] <= After(ts, rate, burst).value.last
  {
    var init := ts[..|ts| - 1];
    if init != [] { LastIsLatest(init, rate, burst); }
  }

  /** A key holds between 0 and burst tokens, whatever the clock does. */
  lemma {:induction false} TokensInRange(ts: seq<real>, rate: real, burst: real)
    requires rate > 0.0 && burst >= 1.0 && ts != []
    ensures 0.0 <= After(ts, rate, burst).value.tokens <= burst
  {
    var init := ts[..|ts| - 1];
    if init != [] {
      TokensInRange(init, rate, burst);
      var b, now := After(init, rate, burst).value, ts[|ts| - 1];
      if now > b.last { Earns(now - b.last, 0.0, rate); }
    }
  }

  /** Earning is additive in time and never negative. */
  lemma Earns(x: real, y: real, rate: real)
    requires rate > 0.0
    ensures Earned(x, rate) + Earned(y, rate) == Earned(x + y, rate)
    ensures x >= 0.0 ==> Earned(x, rate) >= 0.0
    ensures y >= 0.0 ==> Earned(y, rate) >= 0.0
    ensures x > 0.0 <==> Earned(x, rate) > 0.0
  {
  }

  /** What a run keeps about the grants inside an interval and the tokens in hand, as amounts of tokens: credit is what
      is earned from the start of the interval to the bucket's clock, room from its start to its end. Grants and tokens
      are paid for by the burst and the credit; once the clock is past the end, a bucket that can still grant has
      already granted a call outside. */
  predicate Covered(g: nat, tokens: real, credit: real, room: real, burst: real) {
    && (g > 0 ==> credit >= 0.0 && g as real + tokens <= burst + credit)
    && (credit > room && tokens >= 1.0 ==> burst >= 2.0 && g as real + tokens <= burst + credit - 1.0)
    && g as real <= burst + room
  }

  /** One call, in the same amounts: its reading earns gain more than the bucket's clock, or, behind it, at most lag
      less. */
  lemma CallIsCovered(g: nat, tokens: real, credit: real, gain: real, lag: real, room: real, burst: real)
    requires burst >= 1.0 && room >= 0.0 && 0.0 <= tokens <= burst && Covered(g, tokens, credit, room, burst)
    requires gain >= -lag && (lag <= 1.0 || burst < 2.0)
    ensures var full := if gain > 0.0 then Min(tokens + gain, burst) else tokens;
            var clock := if gain > 0.0 then credit + gain else credit;
            var inside := if 0.0 <= credit + gain <= room && full >= 1.0 then 1 else 0;
            Covered(g + inside, if full >= 1.0 then full - 1.0 else full, clock, room, burst)
  {
  }

  ghost predicate Paid(g: nat, s: Bucket, rate: real, burst: real, a: real, b: real) {
    Covered(g, s.tokens, Earned(s.last - a, rate), Earned(b - a, rate), burst)
  }

  lemma FirstIsPaid(now: real, rate: real, burst: real, a: real, b: real)
    requires rate > 0.0 && burst >= 1.0 && a <= b
    ensures Paid(if a <= now <= b then 1 else 0, Bucket(burst - 1.0, now), rate, burst, a, b)
  {
    Earns(now - a, b - now, rate);
    Earns(b - a, 0.0, rate);
    Earns(now - b, b - a, rate);
    hide Earned;
  }

  /** A reading lies in the interval exactly if what is earned up to it lies between nothing and the room. */
  lemma InsideByCredit(now: real, rate: real, a: real, b: real)
    requires rate > 0.0
    ensures a <= now <= b <==> 0.0 <= Earned(now - a, rate) <= Earned(b - a, rate)
  {
    Earns(now - a, b - now, rate);
    Earns(a - now, b - a, rate);
    Earns(now - b, b - a, rate);
    hide Earned;
  }

  /** One call of Allow on a bucket, as amounts of tokens. */
  lemma CallOfBucket(s: Bucket, now: real, rate: real, burst: real)
    requires rate > 0.0
    ensures var (t, answer) := AllowOne(Some(s), now, rate, burst);
            var full := if now > s.last then Min(s.tokens + Earned(now - s.last, rate), burst) else s.tokens;
            && t == Bucket(if full >= 1.0 then full - 1.0 else full, if now > s.last then now else s.last)
            && (answer.Granted? <==> full >= 1.0)
  {
  }

  /** Earned amounts for a reading that lags at most late behind the bucket's clock. */
  lemma LagEarns(last: real, now: real, rate: real, late: real, a: real)
    requires rate > 0.0 && last - late <= now
    ensures Earned(now - last, rate) >= -Earned(late, rate)
    ensures Earned(last - a, rate) + Earned(now - last, rate) == Earned(now - a, rate)
    ensures now > last <==> Earned(now - last, rate) > 0.0
  {
    Earns(last - a, now - last, rate);
    Earns(late, now - last, rate);
    Earns(late + (now - last), 0.0, rate);
    hide Earned;
  }

  /** The last reading is at most late behind the bucket's clock. */
  lemma LastLags(ts: seq<real>, rate: real, burst: real, late: real)
    requires rate > 0.0 && |ts| > 1 && LateBy(ts, late)
    ensures var init := ts[..|ts| - 1];
            LateBy(init, late) && After(init, rate, burst).value.last - late <= ts[|ts| - 1]
  {
    var init := ts[..|ts| - 1];
    LastIsLatest(init, rate, burst);
    hide After;
    var i :| 0 <= i < |init| && init[i] == After(init, rate, burst).value.last;
    assert ts[i] - late <= ts[|ts| - 1];
  }

  lemma {:induction false} RunIsPaid(ts: seq<real>, rate: real, burst: real, late: real, a: real, b: real)
    requires rate > 0.0 && burst >= 1.0 && a <= b && LateBy(ts, late)
    requires Earned(late, rate) <= 1.0 || burst < 2.0
    ensures ts != [] ==> Paid(GrantedIn(ts, rate, burst, a, b), After(ts, rate, burst).value, rate, burst, a, b)
  {
    hide Earned, Covered, Min;
    if ts != [] {
      var init, now := ts[..|ts| - 1], ts[|ts| - 1];
      if init != [] {
        LastLags(ts, rate, burst, late);
        hide LateBy;
        RunIsPaid(init, rate, burst, late, a, b);
        TokensInRange(init, rate, burst);
        var s := After(init, rate, burst).value;
        var g := GrantedIn(init, rate, burst, a, b);
        assert GrantedIn(ts, rate, burst, a, b)
            == g + if a <= now <= b && AllowOne(Some(s), now, rate, burst).1.Granted? then 1 else 0;
        assert After(ts, rate, burst) == Some(AllowOne(Some(s), now, rate, burst).0);
        hide After, GrantedIn, GrantsLast, AllowOne;
        CallOfBucket(s, now, rate, burst);
        Earns(b - a, 0.0, rate);
        LagEarns(s.last, now, rate, late, a);
        InsideByCredit(now, rate, a, b);
        var credit, gain, room := Earned(s.last - a, rate), Earned(now - s.last, rate), Earned(b - a, rate);
        CallIsCovered(g, s.tokens, credit, gain, Earned(late, rate), room, burst);
      } else {
        assert GrantedIn(init, rate, burst, a, b) == 0;
        FirstIsPaid(now, rate, burst, a, b);
      }
    }
  }
}
