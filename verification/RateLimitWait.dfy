/** The wait that a refusal of the limiter announces. */
module RateLimitWait {
  import opened Text
  import opened RateLimit

  /** A refused bucket that is left alone grants exactly from the announced wait on, measured from its last refill. */
  lemma BucketRecovers(b: Bucket, rate: real, burst: real, t: real)
    requires rate > 0.0 && burst >= 1.0 && 0.0 <= b.tokens && Take(b, rate).1.Refused?
    ensures AllowOne(Some(b), t, rate, burst).1.Granted? <==> t >= b.last + Take(b, rate).1.retryAfter
  {
    var wait := (1.0 - b.tokens) / rate;
    assert Earned(wait, rate) == 1.0 - b.tokens;
    Earns(t - b.last - wait, wait, rate);
    Earns(wait, 0.0, rate);
    Earns(wait - (t - b.last), t - b.last, rate);
    hide Earned;
  }

  /** A refused call leaves the clock of its bucket at its own reading, unless a later reading came before it. */
  lemma RefusedBucket(past: seq<real>, now: real, rate: real, burst: real)
    requires rate > 0.0 && burst >= 1.0 && AllowOne(After(past, rate, burst), now, rate, burst).1.Refused?
    ensures var (b, answer) := AllowOne(After(past, rate, burst), now, rate, burst);
            && 0.0 <= b.tokens < 1.0 && b.last >= now && Take(b, rate) == (b, answer)
            && (b.last == now <==> forall i :: 0 <= i < |past| ==> past[i] <= now)
  {
    if past != [] {
      TokensInRange(past, rate, burst);
      LastIsLatest(past, rate, burst);
      var s := After(past, rate, burst).value;
      if now > s.last { Earns(now - s.last, 0.0, rate); }
      var i :| 0 <= i < |past| && past[i] == s.last;
    }
  }

  /** After any run of calls: a key that is refused and then left alone succeeds exactly from the announced wait on,
      measured from the refused call, or from the latest reading if that is later. */
  lemma RefusalEndsAt(past: seq<real>, now: real, rate: real, burst: real, t: real)
    requires rate > 0.0 && burst >= 1.0
    requires AllowOne(After(past, rate, burst), now, rate, burst).1.Refused?
    ensures var (b, answer) := AllowOne(After(past, rate, burst), now, rate, burst);
            && ((forall i :: 0 <= i < |past| ==> past[i] <= now) ==> b.last == now)
            && (AllowOne(Some(b), t, rate, burst).1.Granted? <==> t >= b.last + answer.retryAfter)
  {
    RefusedBucket(past, now, rate, burst);
    hide AllowOne, After, Take;
    BucketRecovers(AllowOne(After(past, rate, burst), now, rate, burst).0, rate, burst, t);
  }

  const NANOSECOND: real := 1.0 / 1_000_000_000.0

  /** The duration handed out is truncated to nanoseconds; with readings in order, one nanosecond more is always
      enough. */
  lemma TruncatedWaitSuffices(past: seq<real>, now: real, rate: real, burst: real, t: real)
    requires rate > 0.0 && burst >= 1.0 && forall i :: 0 <= i < |past| ==> past[i] <= now
    requires AllowOne(After(past, rate, burst), now, rate, burst).1.Refused?
    requires var nanos := (AllowOne(After(past, rate, burst), now, rate, burst).1.retryAfter * 1_000_000_000.0).Floor;
             t >= now + (nanos + 1) as real * NANOSECOND
    ensures AllowOne(Some(AllowOne(After(past, rate, burst), now, rate, burst).0), t, rate, burst).1.Granted?
  {
    RefusalEndsAt(past, now, rate, burst, t);
    hide AllowOne, After;
    var wait := AllowOne(After(past, rate, burst), now, rate, burst).1.retryAfter;
    var nanos := (wait * 1_000_000_000.0).Floor;
    assert (nanos + 1) as real > wait * 1_000_000_000.0;
    assert (nanos + 1) as real * NANOSECOND >= wait;
  }
}
