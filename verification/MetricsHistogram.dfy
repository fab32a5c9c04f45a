/** Histograms under concurrent use: what the bucket lines and quantiles say about the observations. */
module MetricsHistogram {
  import opened MetricsLabels

  // ---------------------------------------------------------------- histograms

  /** Where a goroutine stands inside Observe. */
  datatype Stage = Arrived | Bucketed | Totalled | Loaded(seen: real) | Recorded

  datatype Observation = Observation(v: real, stage: Stage)

  datatype Histogram = Histogram(bounds: seq<real>, counts: seq<nat>, total: nat, sum: real, obs: seq<Observation>)

  predicate Rising(bounds: seq<real>) {
    forall i, j :: 0 <= i < j < |bounds| ==> bounds[i] <= bounds[j]
  }

  /** The first bucket a value fits, or the one after them all. */
  function SlotOf(bounds: seq<real>, v: real): (slot: nat)
    ensures slot <= |bounds|
    ensures slot < |bounds| ==> v <= bounds[slot]
    ensures forall i :: 0 <= i < slot ==> bounds[i] < v
  {
    if bounds == [] || v <= bounds[0] then 0 else
      var rest := SlotOf(bounds[1..], v);
      assert forall i :: 0 < i < rest + 1 ==> bounds[i] == bounds[1..][i - 1];
      1 + rest
  }

  method FindSlot(bounds: seq<real>, v: real) returns (slot: nat)
    ensures slot == SlotOf(bounds, v)
  {
    slot := |bounds|;
    for i := 0 to |bounds|
      invariant slot == |bounds| && forall j :: 0 <= j < i ==> bounds[j] < v
    {
      if v <= bounds[i] {
        slot := i;
        break;
      }
    }
  }

  datatype Move =
    | Observe(v: real)
    | CountBucket(i: nat)
    | CountTotal(i: nat)
    | LoadSum(i: nat)
    | CompareAndSwap(i: nat)

  predicate CanMove(h: Histogram, m: Move) {
    match m
    case Observe(_) => true
    case CountBucket(i) => i < |h.obs| && h.obs[i].stage.Arrived? && SlotOf(h.bounds, h.obs[i].v) < |h.counts|
    case CountTotal(i) => i < |h.obs| && h.obs[i].stage.Bucketed?
    case LoadSum(i) => i < |h.obs| && h.obs[i].stage.Totalled?
    case CompareAndSwap(i) => i < |h.obs| && h.obs[i].stage.Loaded?
  }

  function Make(h: Histogram, m: Move): Histogram
    requires CanMove(h, m)
  {
    match m
    case Observe(v) => h.(obs := h.obs + [Observation(v, Arrived)])
    case CountBucket(i) =>
      var slot := SlotOf(h.bounds, h.obs[i].v);
      h.(counts := h.counts[slot := h.counts[slot] + 1], obs := h.obs[i := h.obs[i].(stage := Bucketed)])
    case CountTotal(i) => h.(total := h.total + 1, obs := h.obs[i := h.obs[i].(stage := Totalled)])
    case LoadSum(i) => h.(obs := h.obs[i := h.obs[i].(stage := Loaded(h.sum))])
    case CompareAndSwap(i) =>
      if h.sum == h.obs[i].stage.seen
      then h.(sum := h.obs[i].stage.seen + h.obs[i].v, obs := h.obs[i := h.obs[i].(stage := Recorded)])
      else h.(obs := h.obs[i := h.obs[i].(stage := Totalled)])
  }

  /** How many observations satisfy f. */
  function Count(obs: seq<Observation>, f: Observation -> bool): nat {
    if obs == [] then 0 else Count(obs[..|obs| - 1], f) + if f(obs[|obs| - 1]) then 1 else 0
  }

  function SumOf(obs: seq<Observation>): real {
    if obs == [] then 0.0
    else SumOf(obs[..|obs| - 1]) + if obs[|obs| - 1].stage.Recorded? then obs[|obs| - 1].v else 0.0
  }

  function InSlot(bounds: seq<real>, j: nat): Observation -> bool {
    (o: Observation) => !o.stage.Arrived? && SlotOf(bounds, o.v) == j
  }

  function IsTotalled(): Observation -> bool { (o: Observation) => !o.stage.Arrived? && !o.stage.Bucketed? }

  ghost predicate HInv(h: Histogram) {
    && Rising(h.bounds) && |h.counts| == |h.bounds| + 1
    && (forall j: nat | j < |h.counts| :: h.counts[j] == Count(h.obs, InSlot(h.bounds, j)))
    && h.total == Count(h.obs, IsTotalled())
    && h.sum == SumOf(h.obs)
  }

  lemma {:induction false} CountUpdate(obs: seq<Observation>, i: nat, o: Observation, f: Observation -> bool)
    requires i < |obs|
    ensures Count(obs[i := o], f) == Count(obs, f) - (if f(obs[i]) then 1 else 0) + (if f(o) then 1 else 0)
  {
    var n := |obs| - 1;
    if i < n {
      assert obs[i := o][..n] == obs[..n][i := o];
      CountUpdate(obs[..n], i, o, f);
    } else {
      assert obs[i := o][..n] == obs[..n];
    }
  }

  lemma {:induction false} SumOfUpdate(obs: seq<Observation>, i: nat, o: Observation)
    requires i < |obs|
    ensures SumOf(obs[i := o]) == SumOf(obs) - (if obs[i].stage.Recorded? then obs[i].v else 0.0)
                                             + (if o.stage.Recorded? then o.v else 0.0)
  {
    var n := |obs| - 1;
    if i < n {
      assert obs[i := o][..n] == obs[..n][i := o];
      SumOfUpdate(obs[..n], i, o);
    } else {
      assert obs[i := o][..n] == obs[..n];
    }
  }

  lemma MoveKeepsInv(h: Histogram, m: Move)
    requires CanMove(h, m) && HInv(h)
    ensures HInv(Make(h, m))
  {
    var g := Make(h, m);
    if m.Observe? {
      assert g.obs[..|h.obs|] == h.obs;
    } else {
      var i := m.i;
      assert g.obs == h.obs[i := g.obs[i]];
      CountUpdate(h.obs, i, g.obs[i], IsTotalled());
      SumOfUpdate(h.obs, i, g.obs[i]);
      forall j: nat | j < |g.counts| ensures g.counts[j] == Count(g.obs, InSlot(g.bounds, j)) {
        CountUpdate(h.obs, i, g.obs[i], InSlot(h.bounds, j));
      }
    }
  }

  predicate Moves(h: Histogram, ms: seq<Move>)
    decreases |ms|
  {
    ms == [] || (CanMove(h, ms[0]) && Moves(Make(h, ms[0]), ms[1..]))
  }

  function Result(h: Histogram, ms: seq<Move>): Histogram
    requires Moves(h, ms)
    decreases |ms|
  {
    if ms == [] then h else Result(Make(h, ms[0]), ms[1..])
  }

  lemma {:induction false} MovesKeepInv(h: Histogram, ms: seq<Move>)
    requires HInv(h) && Moves(h, ms)
    ensures HInv(Result(h, ms)) && Result(h, ms).bounds == h.bounds
    decreases |ms|
  {
    hide HInv;
    if ms != [] {
      MoveKeepsInv(h, ms[0]);
      MovesKeepInv(Make(h, ms[0]), ms[1..]);
    }
  }

  function NewHistogram(bounds: seq<real>): Histogram {
    Histogram(bounds, seq(|bounds| + 1, _ => 0), 0, 0.0, [])
  }

  // ---------------------------------------------------------------- what the buckets say

  function Upto(counts: seq<nat>, n: nat): nat
    requires n <= |counts|
  {
    if n == 0 then 0 else Upto(counts, n - 1) + counts[n - 1]
  }

  /** Whatever observers do meanwhile. */
  method Meanwhile(h: Histogram, ms: seq<Move>) returns (g: Histogram)
    ensures |g.counts| == |h.counts| && g.bounds == h.bounds
    ensures forall j :: 0 <= j < |h.counts| ==> h.counts[j] <= g.counts[j]
  {
    g := h;
    for i := 0 to |ms|
      invariant |g.counts| == |h.counts| && g.bounds == h.bounds
      invariant forall j :: 0 <= j < |h.counts| ==> h.counts[j] <= g.counts[j]
    {
      if CanMove(g, ms[i]) { g := Make(g, ms[i]); }
    }
  }

  /** The loop of write, with observers at work before each load: the lines never decrease, and each lies between what
      its bucket and those before it held when the loop began and what they hold when it ends. */
  method BucketLines(h: Histogram, meanwhile: seq<seq<Move>>) returns (lines: seq<nat>, after: Histogram)
    requires |meanwhile| == |h.counts|
    ensures |lines| == |h.counts| == |after.counts|
    ensures forall i, j :: 0 <= i < j < |lines| ==> lines[i] <= lines[j]
    ensures forall j :: 0 <= j < |lines| ==> Upto(h.counts, j + 1) <= lines[j] <= Upto(after.counts, j + 1)
  {
    lines, after := [], h;
    var cumulative := 0;
    for j := 0 to |h.counts|
      invariant |lines| == j && |after.counts| == |h.counts|
      invariant forall i :: 0 <= i < |h.counts| ==> h.counts[i] <= after.counts[i]
      invariant Upto(h.counts, j) <= cumulative <= Upto(after.counts, j)
      invariant forall i :: 0 <= i < j ==> Upto(h.counts, i + 1) <= lines[i] <= Upto(after.counts, i + 1)
      invariant forall i :: 0 <= i < j ==> lines[i] <= cumulative
      invariant forall i, k :: 0 <= i < k < j ==> lines[i] <= lines[k]
    {
      var before := after;
      after := Meanwhile(before, meanwhile[j]);
      forall i | 0 <= i <= j ensures Upto(before.counts, i) <= Upto(after.counts, i) {
        UptoGrows(before.counts, after.counts, i);
      }
      cumulative := cumulative + after.counts[j];
      lines := lines + [cumulative];
    }
  }

  lemma {:induction false} UptoGrows(a: seq<nat>, b: seq<nat>, n: nat)
    requires n <= |a| == |b| && forall i :: 0 <= i < |a| ==> a[i] <= b[i]
    ensures Upto(a, n) <= Upto(b, n)
  {
    if n > 0 { UptoGrows(a, b, n - 1); }
  }

  predicate Quiet(h: Histogram) {
    forall i | 0 <= i < |h.obs| :: h.obs[i].stage.Recorded?
  }

  function AtMost(b: real): Observation -> bool { (o: Observation) => o.v <= b }
  function Any(): Observation -> bool { (o: Observation) => true }

  function Below(bounds: seq<real>, n: nat): Observation -> bool {
    (o: Observation) => !o.stage.Arrived? && SlotOf(bounds, o.v) < n
  }

  lemma {:induction false} CountAlike(obs: seq<Observation>, f: Observation -> bool, g: Observation -> bool)
    requires forall o | o in obs :: f(o) <==> g(o)
    ensures Count(obs, f) == Count(obs, g)
  {
    if obs != [] {
      assert obs[|obs| - 1] in obs;
      CountAlike(obs[..|obs| - 1], f, g);
    }
  }

  lemma {:induction false} CountBelowNext(obs: seq<Observation>, bounds: seq<real>, n: nat)
    ensures Count(obs, Below(bounds, n + 1)) == Count(obs, Below(bounds, n)) + Count(obs, InSlot(bounds, n))
  {
    if obs != [] { CountBelowNext(obs[..|obs| - 1], bounds, n); }
  }

  lemma {:induction false} CountNone(obs: seq<Observation>, bounds: seq<real>)
    ensures Count(obs, Below(bounds, 0)) == 0
  {
    if obs != [] { CountNone(obs[..|obs| - 1], bounds); }
  }

  lemma {:induction false} UptoCounts(h: Histogram, n: nat)
    requires HInv(h) && n <= |h.counts|
    ensures Upto(h.counts, n) == Count(h.obs, Below(h.bounds, n))
  {
    if n == 0 {
      CountNone(h.obs, h.bounds);
    } else {
      UptoCounts(h, n - 1);
      CountBelowNext(h.obs, h.bounds, n - 1);
    }
  }

  /** Once all observers are done: each line counts the observations at or below its bound, the last line counts them
      all and equals the count line, and the sum line is the sum of all of them. */
  lemma QuietLines(bounds: seq<real>, ms: seq<Move>, j: nat)
    requires Rising(bounds) && Moves(NewHistogram(bounds), ms) && Quiet(Result(NewHistogram(bounds), ms))
    ensures var h := Result(NewHistogram(bounds), ms);
            && HInv(h) && h.bounds == bounds && |h.counts| == |bounds| + 1
            && (j < |bounds| ==> Upto(h.counts, j + 1) == Count(h.obs, AtMost(bounds[j])))
            && Upto(h.counts, |h.counts|) == h.total == Count(h.obs, Any())
            && h.sum == SumOf(h.obs)
  {
    hide Moves, Result;
    NewIsFine(bounds);
    MovesKeepInv(NewHistogram(bounds), ms);
    var h := Result(NewHistogram(bounds), ms);
    if j < |bounds| { LineCounts(h, j); }
    LastLineCounts(h);
  }

  lemma NewIsFine(bounds: seq<real>)
    requires Rising(bounds)
    ensures HInv(NewHistogram(bounds))
  {
  }

  lemma LineCounts(h: Histogram, j: nat)
    requires HInv(h) && Quiet(h) && j < |h.bounds|
    ensures Upto(h.counts, j + 1) == Count(h.obs, AtMost(h.bounds[j]))
  {
    UptoCounts(h, j + 1);
    forall o | o in h.obs ensures Below(h.bounds, j + 1)(o) <==> AtMost(h.bounds[j])(o) {
      var slot := SlotOf(h.bounds, o.v);
      if slot <= j && slot < j { assert h.bounds[slot] <= h.bounds[j]; }
    }
    CountAlike(h.obs, Below(h.bounds, j + 1), AtMost(h.bounds[j]));
  }

  lemma LastLineCounts(h: Histogram)
    requires HInv(h) && Quiet(h)
    ensures Upto(h.counts, |h.counts|) == h.total == Count(h.obs, Any())
  {
    UptoCounts(h, |h.counts|);
    CountAlike(h.obs, Below(h.bounds, |h.counts|), Any());
    CountAlike(h.obs, IsTotalled(), Any());
  }

  /** Quantile on a quiet histogram: the least bound with enough observations at or below it; -1 when no bound has. */
  method Quantile(h: Histogram, q: real) returns (answer: real)
    requires HInv(h) && Quiet(h)
    ensures h.total == 0 ==> answer == 0.0
    ensures h.total != 0 ==>
              || (exists i :: 0 <= i < |h.bounds| && answer == h.bounds[i]
                    && Count(h.obs, AtMost(answer)) as real >= h.total as real * q
                    && forall k | 0 <= k < i :: (Count(h.obs, AtMost(h.bounds[k])) as real) < h.total as real * q)
              || (answer == -1.0 && forall k | 0 <= k < |h.bounds| ::
                  (Count(h.obs, AtMost(h.bounds[k])) as real) < h.total as real * q)
  {
    if h.total == 0 { return 0.0; }
    var target := h.total as real * q;
    var cumulative := 0;
    for i := 0 to |h.bounds|
      invariant cumulative == Upto(h.counts, i)
      invariant forall k | 0 <= k < i :: (Count(h.obs, AtMost(h.bounds[k])) as real) < target
    {
      cumulative := cumulative + h.counts[i];
      LineCounts(h, i);
      if cumulative as real >= target { return h.bounds[i]; }
    }
    answer := -1.0;
  }

  // ---------------------------------------------------------------- one histogram for each label set

  /** Where a goroutine stands before it is in its histogram. */
  datatype Caller =
    | Looking(labels: Labels, v: real)   // about to look under the read lock
    | Missing(labels: Labels, v: real)   // found nothing; about to take the write lock
    | Entered(labels: Labels, v: real)   // has the histogram, and is one of its observers

  /** series maps a rendered label set to its histogram; hists are those ever made. */
  datatype Vec = Vec(bounds: seq<real>, series: map<string, nat>, hists: seq<Histogram>, callers: seq<Caller>)

  datatype Step =
    | Calls(labels: Labels, v: real)
    | ReadLocked(i: nat)
    | WriteLocked(i: nat)
    | Inside(slot: nat, m: Move)

  function NewVec(bounds: seq<real>): Vec { Vec(bounds, map[], [], []) }

  ghost predicate Enabled(w: Vec, step: Step) {
    match step
    case Calls(_, _) => true
    case ReadLocked(i) => i < |w.callers| && w.callers[i].Looking? && Sound(w, Render(w.callers[i].labels))
    case WriteLocked(i) => i < |w.callers| && w.callers[i].Missing? && Sound(w, Render(w.callers[i].labels))
    case Inside(slot, m) => slot < |w.hists| && !m.Observe? && CanMove(w.hists[slot], m)
  }

  predicate Sound(w: Vec, key: string) { key in w.series ==> w.series[key] < |w.hists| }

  /** Caller i becomes an observer of a histogram. */
  function Enter(w: Vec, i: nat, slot: nat): Vec
    requires i < |w.callers| && slot < |w.hists|
  {
    var c := w.callers[i];
    w.(hists := w.hists[slot := Make(w.hists[slot], Observe(c.v))], callers := w.callers[i := Entered(c.labels, c.v)])
  }

  /** A histogram made for a rendering that has none. */
  function WithNew(w: Vec, key: string): Vec {
    w.(series := w.series[key := |w.hists|], hists := w.hists + [NewHistogram(w.bounds)])
  }

  ghost function Apply(w: Vec, step: Step): Vec
    requires Enabled(w, step)
  {
    match step
    case Calls(l, v) => w.(callers := w.callers + [Looking(l, v)])
    case ReadLocked(i) =>
      var c := w.callers[i];
      var key := Render(c.labels);
      if key in w.series then Enter(w, i, w.series[key]) else w.(callers := w.callers[i := Missing(c.labels, c.v)])
    case WriteLocked(i) =>
      var key := Render(w.callers[i].labels);
      if key in w.series then Enter(w, i, w.series[key])
      else Enter(WithNew(w, key), i, |w.hists|)
    case Inside(slot, m) => w.(hists := w.hists[slot := Make(w.hists[slot], m)])
  }

  ghost predicate VecOk(w: Vec) {
    && Rising(w.bounds)
    && (forall key | key in w.series :: w.series[key] < |w.hists|)
    && (forall k, l | k in w.series && l in w.series && k != l :: w.series[k] != w.series[l])
    && (forall s | 0 <= s < |w.hists| :: w.hists[s].bounds == w.bounds && HInv(w.hists[s]))
  }

  lemma StepKeepsVec(w: Vec, step: Step)
    requires Enabled(w, step) && VecOk(w)
    ensures VecOk(Apply(w, step)) && Apply(w, step).bounds == w.bounds
  {
    hide Render, HInv;
    match step {
      case Calls(_, _) =>
      case Inside(slot, m) => MoveKeepsInv(w.hists[slot], m);
      case ReadLocked(i) =>
        var key := Render(w.callers[i].labels);
        if key in w.series { MoveKeepsInv(w.hists[w.series[key]], Observe(w.callers[i].v)); }
      case WriteLocked(i) =>
        var key := Render(w.callers[i].labels);
        NewIsFine(w.bounds);
        var h := if key in w.series then w.hists[w.series[key]] else NewHistogram(w.bounds);
        MoveKeepsInv(h, Observe(w.callers[i].v));
    }
  }

  /** A quantity summed over the observations of a histogram. */
  function Over(obs: seq<Observation>, f: real -> real): real {
    if obs == [] then 0.0 else Over(obs[..|obs| - 1], f) + f(obs[|obs| - 1].v)
  }

  /** The same over the calls that have entered under a rendering. */
  ghost function OverKey(callers: seq<Caller>, key: string, f: real -> real): real {
    if callers == [] then 0.0 else OverKey(callers[..|callers| - 1], key, f) + Share(callers[|callers| - 1], key, f)
  }

  ghost function Share(c: Caller, key: string, f: real -> real): real {
    if c.Entered? && Render(c.labels) == key then f(c.v) else 0.0
  }

  /** The same over the calls that have entered under a label set. */
  function Tally(callers: seq<Caller>, l: Labels, f: real -> real): real {
    if callers == [] then 0.0
    else var c := callers[|callers| - 1];
         Tally(callers[..|callers| - 1], l, f) + if c.Entered? && c.labels == l then f(c.v) else 0.0
  }

  ghost function InSeries(w: Vec, key: string, f: real -> real): real {
    if key in w.series && w.series[key] < |w.hists| then Over(w.hists[w.series[key]].obs, f) else 0.0
  }

  lemma {:induction false} OverUpdate(obs: seq<Observation>, i: nat, o: Observation, f: real -> real)
    requires i < |obs| && o.v == obs[i].v
    ensures Over(obs[i := o], f) == Over(obs, f)
  {
    var n := |obs| - 1;
    if i < n {
      assert obs[i := o][..n] == obs[..n][i := o];
      OverUpdate(obs[..n], i, o, f);
    } else {
      assert obs[i := o][..n] == obs[..n];
    }
  }

  lemma {:induction false} OverKeyUpdate(callers: seq<Caller>, i: nat, c: Caller, key: string, f: real -> real)
    requires i < |callers|
    ensures OverKey(callers[i := c], key, f) == OverKey(callers, key, f) - Share(callers[i], key, f) + Share(c, key, f)
  {
    hide Share;
    var n := |callers| - 1;
    if i < n {
      assert callers[i := c][..n] == callers[..n][i := c];
      OverKeyUpdate(callers[..n], i, c, key, f);
    } else {
      assert callers[i := c][..n] == callers[..n];
    }
  }

  lemma MoveKeepsOver(h: Histogram, m: Move, f: real -> real)
    requires CanMove(h, m)
    ensures Over(Make(h, m).obs, f) == Over(h.obs, f) + if m.Observe? then f(m.v) else 0.0
  {
    var g := Make(h, m);
    if m.Observe? {
      assert g.obs[..|h.obs|] == h.obs;
    } else {
      assert g.obs == h.obs[m.i := g.obs[m.i]];
      OverUpdate(h.obs, m.i, g.obs[m.i], f);
    }
  }

  lemma EnterCounts(w: Vec, i: nat, slot: nat, key: string, f: real -> real)
    requires VecOk(w) && i < |w.callers| && !w.callers[i].Entered?
    requires Render(w.callers[i].labels) in w.series && w.series[Render(w.callers[i].labels)] == slot
    requires slot < |w.hists| && InSeries(w, key, f) == OverKey(w.callers, key, f)
    ensures InSeries(Enter(w, i, slot), key, f) == OverKey(Enter(w, i, slot).callers, key, f)
  {
    hide Render, HInv, Make;
    var c := w.callers[i];
    OverKeyUpdate(w.callers, i, Entered(c.labels, c.v), key, f);
    MoveKeepsOver(w.hists[slot], Observe(c.v), f);
  }

  lemma InsideCounts(w: Vec, slot: nat, m: Move, key: string, f: real -> real)
    requires Enabled(w, Inside(slot, m)) && VecOk(w) && InSeries(w, key, f) == OverKey(w.callers, key, f)
    ensures InSeries(Apply(w, Inside(slot, m)), key, f) == OverKey(Apply(w, Inside(slot, m)).callers, key, f)
  {
    hide Render, HInv, Make, CanMove, Over;
    MoveKeepsOver(w.hists[slot], m, f);
  }

  lemma MissCounts(w: Vec, i: nat, key: string, f: real -> real)
    requires i < |w.callers| && w.callers[i].Looking? && InSeries(w, key, f) == OverKey(w.callers, key, f)
    ensures var missed := w.(callers := w.callers[i := Missing(w.callers[i].labels, w.callers[i].v)]);
            InSeries(missed, key, f) == OverKey(missed.callers, key, f)
  {
    hide Render, Over;
    OverKeyUpdate(w.callers, i, Missing(w.callers[i].labels, w.callers[i].v), key, f);
  }

  lemma NewCounts(w: Vec, made: string, key: string, f: real -> real)
    requires VecOk(w) && made !in w.series && InSeries(w, key, f) == OverKey(w.callers, key, f)
    ensures var t := WithNew(w, made); VecOk(t) && InSeries(t, key, f) == OverKey(t.callers, key, f)
  {
    hide HInv, OverKey;
    NewIsFine(w.bounds);
  }

  lemma StepCounts(w: Vec, step: Step, key: string, f: real -> real)
    requires Enabled(w, step) && VecOk(w) && InSeries(w, key, f) == OverKey(w.callers, key, f)
    ensures InSeries(Apply(w, step), key, f) == OverKey(Apply(w, step).callers, key, f)
  {
    match step {
      case Calls(l, v) => CallCounts(w, l, v, key, f);
      case Inside(slot, m) => InsideCounts(w, slot, m, key, f);
      case ReadLocked(i) => LookCounts(w, step, i, key, f);
      case WriteLocked(i) => LookCounts(w, step, i, key, f);
    }
  }

  lemma CallCounts(w: Vec, l: Labels, v: real, key: string, f: real -> real)
    requires InSeries(w, key, f) == OverKey(w.callers, key, f)
    ensures InSeries(Apply(w, Calls(l, v)), key, f) == OverKey(Apply(w, Calls(l, v)).callers, key, f)
  {
    hide Render, Over;
    assert Apply(w, Calls(l, v)).callers[..|w.callers|] == w.callers;
  }

  lemma LookCounts(w: Vec, step: Step, i: nat, key: string, f: real -> real)
    requires Enabled(w, step) && VecOk(w) && InSeries(w, key, f) == OverKey(w.callers, key, f)
    requires step == ReadLocked(i) || step == WriteLocked(i)
    ensures InSeries(Apply(w, step), key, f) == OverKey(Apply(w, step).callers, key, f)
  {
    hide Render, HInv, Make, InSeries, OverKey, CanMove;
    var k := Render(w.callers[i].labels);
    if k in w.series {
      EnterCounts(w, i, w.series[k], key, f);
    } else if step.ReadLocked? {
      MissCounts(w, i, key, f);
    } else {
      NewCounts(w, k, key, f);
      EnterCounts(WithNew(w, k), i, |w.hists|, key, f);
    }
  }

  ghost predicate Runs(w: Vec, steps: seq<Step>)
    decreases |steps|
  {
    steps == [] || (Enabled(w, steps[0]) && Runs(Apply(w, steps[0]), steps[1..]))
  }

  ghost function Final(w: Vec, steps: seq<Step>): Vec
    requires Runs(w, steps)
    decreases |steps|
  {
    if steps == [] then w else Final(Apply(w, steps[0]), steps[1..])
  }

  predicate NamedCallers(w: Vec) { forall i | 0 <= i < |w.callers| :: Named(w.callers[i].labels) }

  predicate NamedCalls(steps: seq<Step>) { forall step | step in steps && step.Calls? :: Named(step.labels) }

  lemma {:induction false} RunCounts(w: Vec, steps: seq<Step>, key: string, f: real -> real)
    requires VecOk(w) && NamedCallers(w) && NamedCalls(steps) && Runs(w, steps)
    requires InSeries(w, key, f) == OverKey(w.callers, key, f)
    ensures var t := Final(w, steps);
            && VecOk(t) && NamedCallers(t) && t.bounds == w.bounds
            && InSeries(t, key, f) == OverKey(t.callers, key, f)
    decreases |steps|
  {
    hide VecOk, InSeries, OverKey, Named, Render;
    if steps != [] {
      StepKeepsVec(w, steps[0]);
      StepCounts(w, steps[0], key, f);
      assert steps[0] in steps;
      RunCounts(Apply(w, steps[0]), steps[1..], key, f);
    }
  }

  /** With identifiers for names, a rendering belongs to one label set. */
  lemma {:induction false} KeyIsLabels(callers: seq<Caller>, l: Labels, f: real -> real)
    requires Named(l) && forall i | 0 <= i < |callers| :: Named(callers[i].labels)
    ensures OverKey(callers, Render(l), f) == Tally(callers, l, f)
  {
    if callers != [] {
      var c := callers[|callers| - 1];
      KeyIsLabels(callers[..|callers| - 1], l, f);
      if Render(c.labels) == Render(l) { RenderInjective(c.labels, l); }
      hide Render;
    }
  }

  lemma {:induction false} CountIsOver(obs: seq<Observation>, p: Observation -> bool, f: real -> real)
    requires forall o | o in obs :: f(o.v) == if p(o) then 1.0 else 0.0
    ensures Count(obs, p) as real == Over(obs, f)
  {
    if obs != [] {
      assert obs[|obs| - 1] in obs;
      CountIsOver(obs[..|obs| - 1], p, f);
    }
  }

  lemma {:induction false} SumIsOver(obs: seq<Observation>)
    requires forall i | 0 <= i < |obs| :: obs[i].stage.Recorded?
    ensures SumOf(obs) == Over(obs, Itself())
  {
    if obs != [] { SumIsOver(obs[..|obs| - 1]); }
  }

  function OneUpTo(b: real): real -> real { (v: real) => if v <= b then 1.0 else 0.0 }
  function One(): real -> real { (v: real) => 1.0 }
  function Itself(): real -> real { (v: real) => v }

  lemma RunTallies(bounds: seq<real>, steps: seq<Step>, l: Labels, f: real -> real)
    requires Rising(bounds) && Runs(NewVec(bounds), steps) && NamedCalls(steps) && Named(l)
    ensures var w := Final(NewVec(bounds), steps);
            VecOk(w) && w.bounds == bounds && InSeries(w, Render(l), f) == Tally(w.callers, l, f)
  {
    hide Runs, Final, Render, Named;
    RunCounts(NewVec(bounds), steps, Render(l), f);
    KeyIsLabels(Final(NewVec(bounds), steps).callers, l, f);
  }

  /** In every interleaving of observers under any labels: once the observers of a label set's histogram are done, its
      lines count the observations made under exactly those labels, none lost to a second histogram made at once and
      none taken from another label set. */
  lemma NoObservationLost(bounds: seq<real>, steps: seq<Step>, l: Labels, j: nat)
    requires Rising(bounds) && Runs(NewVec(bounds), steps) && NamedCalls(steps) && Named(l) && j < |bounds|
    requires var w := Final(NewVec(bounds), steps);
             Render(l) in w.series && w.series[Render(l)] < |w.hists| && Quiet(w.hists[w.series[Render(l)]])
    ensures var w := Final(NewVec(bounds), steps);
            var h := w.hists[w.series[Render(l)]];
            && h.bounds == bounds && |h.counts| == |bounds| + 1
            && Upto(h.counts, j + 1) as real == Tally(w.callers, l, OneUpTo(bounds[j]))
            && Upto(h.counts, |h.counts|) as real == h.total as real == Tally(w.callers, l, One())
            && h.sum == Tally(w.callers, l, Itself())
  {
    RunTallies(bounds, steps, l, OneUpTo(bounds[j]));
    RunTallies(bounds, steps, l, One());
    RunTallies(bounds, steps, l, Itself());
    hide Runs, Final, Render, Named, NamedCalls, Tally;
    var w := Final(NewVec(bounds), steps);
    SeriesLines(w.hists[w.series[Render(l)]], j);
  }

  lemma SeriesLines(h: Histogram, j: nat)
    requires HInv(h) && Quiet(h) && j < |h.bounds|
    ensures Upto(h.counts, j + 1) as real == Over(h.obs, OneUpTo(h.bounds[j]))
    ensures Upto(h.counts, |h.counts|) as real == h.total as real == Over(h.obs, One())
    ensures h.sum == Over(h.obs, Itself())
  {
    LineCounts(h, j);
    LastLineCounts(h);
    CountIsOver(h.obs, AtMost(h.bounds[j]), OneUpTo(h.bounds[j]));
    CountIsOver(h.obs, Any(), One());
    SumIsOver(h.obs);
  }

  /** A label set without a histogram has no observation either. */
  lemma NoSeriesNoObservation(bounds: seq<real>, steps: seq<Step>, l: Labels)
    requires Rising(bounds) && Runs(NewVec(bounds), steps) && NamedCalls(steps) && Named(l)
    requires Render(l) !in Final(NewVec(bounds), steps).series
    ensures Tally(Final(NewVec(bounds), steps).callers, l, One()) == 0.0
  {
    RunTallies(bounds, steps, l, One());
  }
}
