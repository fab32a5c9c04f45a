/** Counters under concurrent use: nothing added is lost, and nothing goes to another series. */
module MetricsCounter {
  import opened Text
  import opened MetricsLabels

  // ---------------------------------------------------------------- slots made on first use

  /** Where a goroutine stands inside Add. */
  datatype Adder =
    | Looking(labels: Labels, n: int)            // about to look under the read lock
    | Missing(labels: Labels, n: int)            // found nothing; about to take the write lock
    | Holding(labels: Labels, n: int, slot: nat) // has the slot; about to add to it
    | Added(labels: Labels, n: int)

  /** values maps a rendered label set to its slot; slots are the atomics ever allocated. */
  datatype Counter = Counter(values: map<string, nat>, slots: seq<int>, adders: seq<Adder>)

  datatype Step =
    | Add(labels: Labels, n: int)
    | ReadLocked(i: nat)
    | WriteLocked(i: nat)
    | AtomicAdd(i: nat)

  const NO_SERIES := Counter(map[], [], [])

  predicate Enabled(c: Counter, step: Step) {
    match step
    case Add(_, _) => true
    case ReadLocked(i) => i < |c.adders| && c.adders[i].Looking?
    case WriteLocked(i) => i < |c.adders| && c.adders[i].Missing?
    case AtomicAdd(i) => i < |c.adders| && c.adders[i].Holding? && c.adders[i].slot < |c.slots|
  }

  ghost function Apply(c: Counter, step: Step): Counter
    requires Enabled(c, step)
  {
    match step
    case Add(l, n) => c.(adders := c.adders + [Looking(l, n)])
    case ReadLocked(i) =>
      var Looking(l, n) := c.adders[i];
      var key := Render(l);
      c.(adders := c.adders[i := if key in c.values then Holding(l, n, c.values[key]) else Missing(l, n)])
    case WriteLocked(i) =>
      var Missing(l, n) := c.adders[i];
      var key := Render(l);
      if key in c.values then c.(adders := c.adders[i := Holding(l, n, c.values[key])])
      else Counter(c.values[key := |c.slots|], c.slots + [0], c.adders[i := Holding(l, n, |c.slots|)])
    case AtomicAdd(i) =>
      var Holding(l, n, slot) := c.adders[i];
      c.(slots := c.slots[slot := c.slots[slot] + n], adders := c.adders[i := Added(l, n)])
  }

  /** What has been added under a label set. */
  function Sum(adders: seq<Adder>, l: Labels): int {
    if adders == [] then 0
    else var a := adders[|adders| - 1];
         Sum(adders[..|adders| - 1], l) + if a.Added? && a.labels == l then a.n else 0
  }

  ghost function Rendered(adders: seq<Adder>, key: string): int {
    if adders == [] then 0
    else Rendered(adders[..|adders| - 1], key) + Counts(adders[|adders| - 1], key)
  }

  /** What one goroutine has added under a rendering. */
  ghost function Counts(a: Adder, key: string): int {
    if a.Added? && Render(a.labels) == key then a.n else 0
  }

  function Value(c: Counter, key: string): int {
    if key in c.values && c.values[key] < |c.slots| then c.slots[c.values[key]] else 0
  }

  ghost predicate Inv(c: Counter) {
    && (forall key | key in c.values :: c.values[key] < |c.slots|)
    && (forall k, l | k in c.values && l in c.values && k != l :: c.values[k] != c.values[l])
    && (forall i | 0 <= i < |c.adders| && c.adders[i].Holding? ::
          Render(c.adders[i].labels) in c.values && c.values[Render(c.adders[i].labels)] == c.adders[i].slot)
    && (forall key :: Value(c, key) == Rendered(c.adders, key))
  }

  lemma {:induction false} RenderedUpdate(adders: seq<Adder>, i: nat, a: Adder, key: string)
    requires i < |adders|
    ensures Rendered(adders[i := a], key) == Rendered(adders, key) - Counts(adders[i], key) + Counts(a, key)
  {
    hide Counts;
    var n := |adders| - 1;
    if i < n {
      assert adders[i := a][..n] == adders[..n][i := a];
      RenderedUpdate(adders[..n], i, a, key);
    } else {
      assert adders[i := a][..n] == adders[..n];
    }
  }

  lemma StepKeepsInv(c: Counter, step: Step)
    requires Enabled(c, step) && Inv(c)
    ensures Inv(Apply(c, step))
  {
    hide Render;
    forall key ensures Value(Apply(c, step), key) == Rendered(Apply(c, step).adders, key) {
      StepKeepsSum(c, step, key);
    }
    hide Value, Rendered;
  }

  lemma StepKeepsSum(c: Counter, step: Step, key: string)
    requires Enabled(c, step) && Inv(c)
    ensures Value(Apply(c, step), key) == Rendered(Apply(c, step).adders, key)
  {
    hide Render;
    var d := Apply(c, step);
    assert Value(c, key) == Rendered(c.adders, key);
    if step.Add? {
      assert d.adders[..|c.adders|] == c.adders;
    } else {
      RenderedUpdate(c.adders, step.i, d.adders[step.i], key);
      assert d.adders == c.adders[step.i := d.adders[step.i]];
    }
  }

  ghost predicate Runs(c: Counter, steps: seq<Step>)
    decreases |steps|
  {
    steps == [] || (Enabled(c, steps[0]) && Runs(Apply(c, steps[0]), steps[1..]))
  }

  ghost function Final(c: Counter, steps: seq<Step>): Counter
    requires Runs(c, steps)
    decreases |steps|
  {
    if steps == [] then c else Final(Apply(c, steps[0]), steps[1..])
  }

  predicate NamedAdders(c: Counter) { forall i | 0 <= i < |c.adders| :: Named(c.adders[i].labels) }

  /** Every label set used has identifiers for names. */
  predicate NamedSteps(steps: seq<Step>) { forall step | step in steps && step.Add? :: Named(step.labels) }

  lemma {:induction false} RunKeepsInv(c: Counter, steps: seq<Step>)
    requires Inv(c) && NamedAdders(c) && NamedSteps(steps) && Runs(c, steps)
    ensures Inv(Final(c, steps)) && NamedAdders(Final(c, steps))
    decreases |steps|
  {
    hide Inv, Named, Render;
    if steps != [] {
      StepKeepsInv(c, steps[0]);
      assert steps[0] in steps;
      RunKeepsInv(Apply(c, steps[0]), steps[1..]);
    }
  }

  /** With identifiers for names, a rendering belongs to one label set. */
  lemma {:induction false} RenderedIsSum(adders: seq<Adder>, l: Labels)
    requires Named(l) && forall i | 0 <= i < |adders| :: Named(adders[i].labels)
    ensures Rendered(adders, Render(l)) == Sum(adders, l)
  {
    if adders != [] {
      var a := adders[|adders| - 1];
      RenderedIsSum(adders[..|adders| - 1], l);
      if Render(a.labels) == Render(l) { RenderInjective(a.labels, l); }
      hide Render;
    }
  }

  /** In every interleaving, a series reads the sum of what was added under exactly its labels: no increment is lost
      when two goroutines make the slot at once, and distinct label sets never share a series. */
  lemma NoIncrementLost(steps: seq<Step>, l: Labels)
    requires Runs(NO_SERIES, steps) && NamedSteps(steps) && Named(l)
    ensures var c := Final(NO_SERIES, steps); Value(c, Render(l)) == Sum(c.adders, l)
  {
    hide Runs, Final, Render, Named;
    assert Inv(NO_SERIES);
    RunKeepsInv(NO_SERIES, steps);
    RenderedIsSum(Final(NO_SERIES, steps).adders, l);
  }

  // ---------------------------------------------------------------- the same code, with others at work in between

  /** The additions listed for one key. */
  function AddedTo(adds: seq<(string, int)>, key: string): int {
    if adds == [] then 0
    else AddedTo(adds[..|adds| - 1], key) + if adds[|adds| - 1].0 == key then adds[|adds| - 1].1 else 0
  }

  class CounterVec {
    var values: map<string, nat>
    var slots: seq<int>

    ghost predicate Valid()
      reads this
    {
      && (forall key | key in values :: values[key] < |slots|)
      && (forall k, l | k in values && l in values && k != l :: values[k] != values[l])
    }

    function Read(key: string): int
      requires key in values ==> values[key] < |slots|
      reads this
    {
      if key in values then slots[values[key]] else 0
    }

    constructor ()
      ensures Valid() && values == map[]
    {
      values, slots := map[], [];
    }

    /** The write-locked section, with its second look. */
    method Slot(key: string) returns (slot: nat)
      requires Valid()
      modifies this
      ensures Valid() && key in values && values[key] == slot
      ensures forall k :: Read(k) == old(Read(k))
      ensures forall k | k in old(values) :: k in values && values[k] == old(values)[k]
    {
      if key !in values {
        values, slots := values[key := |slots|], slots + [0];
      }
      slot := values[key];
    }

    method Bump(key: string, slot: nat, n: int)
      requires Valid() && key in values && values[key] == slot
      modifies this`slots
      ensures Valid() && forall k :: Read(k) == old(Read(k)) + if k == key then n else 0
    {
      slots := slots[slot := slots[slot] + n];
    }

    /** Additions that other goroutines complete. */
    method Others(adds: seq<(string, int)>)
      requires Valid()
      modifies this
      ensures Valid() && forall k :: Read(k) == old(Read(k)) + AddedTo(adds, k)
      ensures forall k | k in old(values) :: k in values && values[k] == old(values)[k]
    {
      for i := 0 to |adds|
        invariant Valid() && forall k :: Read(k) == old(Read(k)) + AddedTo(adds[..i], k)
        invariant forall k | k in old(values) :: k in values && values[k] == old(values)[k]
      {
        var slot := Slot(adds[i].0);
        Bump(adds[i].0, slot, adds[i].1);
        assert adds[..i + 1][..i] == adds[..i];
      }
      assert adds[..|adds|] == adds;
    }

    /** Add: between the two lock sections, and before the atomic addition, others may add under any labels. */
    method Add(l: Labels, n: int, between: seq<(string, int)>, before: seq<(string, int)>)
      requires Valid()
      modifies this
      ensures Valid()
      ensures forall k ::
                Read(k) == old(Read(k)) + AddedTo(between, k) + AddedTo(before, k) + if k == Render(l) then n else 0
    {
      var key := RenderLabels(l);
      var found := key in values;
      var slot: nat := 0;
      if found { slot := values[key]; }
      Others(between);
      if !found { slot := Slot(key); }
      Others(before);
      Bump(key, slot, n);
    }
  }

  function RealSum(xs: seq<real>): real {
    if xs == [] then 0.0 else xs[0] + RealSum(xs[1..])
  }

  function Total(rounds: seq<seq<real>>): real {
    if rounds == [] then 0.0 else RealSum(rounds[0]) + Total(rounds[1..])
  }

  class FloatCell {
    var v: real

    /** addFloat: load, then compare-and-swap, again and again; each round others may add between the two. */
    method AddFloat(delta: real, rounds: seq<seq<real>>) returns (used: nat)
      requires rounds != [] && rounds[|rounds| - 1] == []
      modifies this
      ensures used <= |rounds|
      ensures v == old(v) + delta + Total(rounds[..used])
    {
      used := 0;
      while true
        invariant used < |rounds| && v == old(v) + Total(rounds[..used])
        decreases |rounds| - used
      {
        var seen := v;
        v := v + RealSum(rounds[used]);
        TotalSnoc(rounds, used);
        used := used + 1;
        if v == seen {
          v := seen + delta;
          return;
        }
      }
    }
  }

  lemma {:induction false} TotalSnoc(rounds: seq<seq<real>>, n: nat)
    requires n < |rounds|
    ensures Total(rounds[..n + 1]) == Total(rounds[..n]) + RealSum(rounds[n])
  {
    if n == 0 {
      assert rounds[..1] == [rounds[0]] && [rounds[0]][1..] == [];
    } else {
      assert rounds[..n + 1][1..] == rounds[1..][..n] && rounds[..n][1..] == rounds[1..][..n - 1];
      TotalSnoc(rounds[1..], n - 1);
    }
  }
}
