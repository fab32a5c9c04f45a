/** What late clock readings can do to the limit. */
module RateLimitLate {
  import opened Text
  import opened RateLimit

  function Zeros(n: nat): seq<real> { seq(n, _ => 0.0) }

  lemma {:induction false} DrainAtZero(n: nat, rate: real, burst: real, end: real)
    requires rate > 0.0 && 0 < n && n as real <= burst && end >= 0.0
    ensures After(Zeros(n), rate, burst) == Some(Bucket(burst - n as real, 0.0))
    ensures GrantedIn(Zeros(n), rate, burst, 0.0, end) == n
  {
    assert Zeros(n)[..n - 1] == Zeros(n - 1);
    if n > 1 { DrainAtZero(n - 1, rate, burst, end); }
  }

  /** A late reading finds tokens that a reading beyond the interval has refilled. */
  lemma Overrun(rate: real, burst: real, late: real) returns (ts: seq<real>, end: real)
    requires rate > 0.0 && burst >= 2.0 && Earned(late, rate) > 1.0 && late >= 0.0
    ensures 0.0 <= end && LateBy(ts, late)
    ensures GrantedIn(ts, rate, burst, 0.0, end) as real > burst + Earned(end - 0.0, rate)
  {
    var n: nat := burst.Floor;
    var left := burst - n as real;
    var x := if 2.0 - Earned(late, rate) > left then 2.0 - Earned(late, rate) else left;
    end := (x - left) / rate;
    assert Earned(end, rate) == x - left;
    Earns(end, late, rate);
    Earns(late, 0.0, rate);
    hide Earned;
    ts := Zeros(n) + [end + late] + [end];
    OverrunSteps(n, rate, burst, late, end);
  }

  lemma OverrunSteps(n: nat, rate: real, burst: real, late: real, end: real)
    requires rate > 0.0 && n > 0 && late > 0.0 && end >= 0.0 && n as real <= burst < n as real + 1.0 && burst >= 2.0
    requires burst - n as real + Earned(end + late, rate) >= 2.0
    ensures GrantedIn(Zeros(n) + [end + late] + [end], rate, burst, 0.0, end) == n + 1
    ensures LateBy(Zeros(n) + [end + late] + [end], late)
  {
    DrainAtZero(n, rate, burst, end);
    hide Earned;
    var beyond := Zeros(n) + [end + late];
    var ts := beyond + [end];
    assert beyond[..|beyond| - 1] == Zeros(n) && ts[..|ts| - 1] == beyond;
    assert After(beyond, rate, burst).value.tokens >= 1.0 && After(beyond, rate, burst).value.last == end + late;
  }

  /** A concrete run: five calls at once, one a hundred seconds on, then one more whose reading is late. */
  lemma OutOfOrderExample()
    ensures var ts := [0.0, 0.0, 0.0, 0.0, 0.0, 100.0, 0.0];
            GrantedIn(ts, 1.0, 5.0, 0.0, 0.0) == 6 && 6.0 > 5.0 + Earned(0.0 - 0.0, 1.0)
  {
    var ts := [0.0, 0.0, 0.0, 0.0, 0.0, 100.0, 0.0];
    DrainAtZero(5, 1.0, 5.0, 0.0);
    assert ts[..6][..5] == Zeros(5) && ts[..|ts| - 1] == ts[..6];
    assert After(ts[..6], 1.0, 5.0) == Some(Bucket(4.0, 100.0));
    assert GrantedIn(ts[..6], 1.0, 5.0, 0.0, 0.0) == 5;
  }
}
