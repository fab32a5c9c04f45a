/** The inbox resolution cache, and concurrent lookups through it. Times are nanoseconds. */
module EndpointCache {
  import opened Text

  const ENDPOINT_TTL: int := 5_000_000_000
  const NEGATIVE_TTL: int := 1_000_000_000
  const MAX_ENTRIES: nat := 10_000

  type Endpoint = string

  /** ep is None for a cached "no such inbox". */
  datatype Entry = Entry(ep: Option<Endpoint>, expires: int)

  function TTL(ep: Option<Endpoint>): int { if ep.None? then NEGATIVE_TTL else ENDPOINT_TTL }

  function Live(entries: map<string, Entry>, now: int): map<string, Entry> {
    map slug | slug in entries && now < entries[slug].expires :: entries[slug]
  }

  /** A miss, or a hit and its answer. */
  function Hit(entries: map<string, Entry>, slug: string, now: int): Option<Option<Endpoint>> {
    if slug in entries && now < entries[slug].expires then Some(entries[slug].ep) else None
  }

  function AfterGet(entries: map<string, Entry>, slug: string, now: int): map<string, Entry> {
    if slug in entries && entries[slug].expires <= now then entries - {slug} else entries
  }

  /** A put is admitted unless the map is full of live entries. */
  predicate Admits(entries: map<string, Entry>, now: int) {
    |entries| < MAX_ENTRIES || |Live(entries, now)| < |entries|
  }

  function Room(entries: map<string, Entry>, now: int): map<string, Entry> {
    if |entries| >= MAX_ENTRIES then Live(entries, now) else entries
  }

  /** now is read when clearing out, later when stamping the entry. */
  function AfterPut(entries: map<string, Entry>, slug: string, ep: Option<Endpoint>, now: int, later: int)
    : map<string, Entry>
  {
    if Admits(entries, now) then Room(entries, now)[slug := Entry(ep, later + TTL(ep))] else entries
  }

  class Cache {
    var entries: map<string, Entry>

    constructor ()
      ensures entries == map[]
    {
      entries := map[];
    }

    method Get(slug: string, now: int) returns (ep: Option<Endpoint>, hit: bool)
      modifies this
      ensures entries == AfterGet(old(entries), slug, now)
      ensures hit <==> slug in old(entries) && now < old(entries)[slug].expires
      ensures ep == if hit then old(entries)[slug].ep else None
      ensures forall s :: s in entries <==> s in old(entries) && (s == slug ==> now < old(entries)[s].expires)
      ensures forall s | s in entries :: entries[s] == old(entries)[s]
    {
      if slug !in entries { return None, false; }
      var e := entries[slug];
      if !(now < e.expires) {
        entries := entries - {slug};
        return None, false;
      }
      return e.ep, true;
    }

    method Put(slug: string, ep: Option<Endpoint>, now: int, later: int)
      modifies this
      ensures entries == AfterPut(old(entries), slug, ep, now, later)
      ensures var room := |old(entries)| < 10_000 || exists k :: k in old(entries) && old(entries)[k].expires <= now;
              if room
              then slug in entries
                   && entries[slug] == Entry(ep, later + if ep.None? then 1_000_000_000 else 5_000_000_000)
              else entries == old(entries)
      ensures forall k | k in old(entries) && k != slug && now < old(entries)[k].expires ::
                k in entries && entries[k] == old(entries)[k]
    {
      RoomIff(entries, now);
      var ttl := ENDPOINT_TTL;
      if ep.None? { ttl := NEGATIVE_TTL; }
      if |entries| >= MAX_ENTRIES {
        var n := EvictExpired(now);
        if n == 0 {
          SameSize(old(entries), now);
          return;
        }
      }
      entries := entries[slug := Entry(ep, later + ttl)];
    }

    method Forget(slug: string)
      modifies this
      ensures entries == old(entries) - {slug}
    {
      entries := entries - {slug};
    }

    method EvictExpired(now: int) returns (n: nat)
      modifies this
      ensures entries == Live(old(entries), now) && n == |old(entries)| - |entries|
      ensures forall s :: s in entries <==> s in old(entries) && now < old(entries)[s].expires
      ensures forall s | s in entries :: entries[s] == old(entries)[s]
    {
      n := 0;
      ghost var start := entries;
      var slugs := entries.Keys;
      while slugs != {}
        invariant slugs <= start.Keys && n == |start| - |entries|
        invariant forall s :: s in entries <==> s in start && (s in slugs || now < start[s].expires)
        invariant forall s | s in entries :: entries[s] == start[s]
        decreases |slugs|
      {
        var s :| s in slugs;
        if !(now < entries[s].expires) {
          assert (entries - {s}).Keys == entries.Keys - {s};
          entries := entries - {s};
          n := n + 1;
        }
        slugs := slugs - {s};
      }
    }
  }

  lemma LiveSize(entries: map<string, Entry>, now: int)
    ensures |Live(entries, now)| <= |entries|
    ensures |Live(entries, now)| == |entries| ==> Live(entries, now) == entries
  {
    var live, all := Live(entries, now).Keys, entries.Keys;
    assert live <= all && all == live + (all - live) && |all| == |live| + |all - live|;
  }

  lemma SameSize(entries: map<string, Entry>, now: int)
    requires |Live(entries, now)| == |entries|
    ensures Live(entries, now) == entries
  {
    LiveSize(entries, now);
  }

  /** What the store answers: an inbox, none of that name, or an error. */
  datatype Lookup = Row(ep: Endpoint) | NoRow | Failed

  /** resolve, with nobody else at work in between: the cache first, then the store, whose answer is kept unless it is
      an error. asked says whether the store was read. */
  method Resolve(cache: Cache, slug: string, at: int, says: Lookup, now: int, later: int)
    returns (answer: Lookup, asked: bool)
    modifies cache
    ensures asked <==> !(slug in old(cache.entries) && at < old(cache.entries)[slug].expires)
    ensures !asked ==> cache.entries == old(cache.entries)
    ensures !asked ==>
              answer == (match old(cache.entries)[slug].ep case Some(ep) => Row(ep) case None => NoRow)
    ensures asked ==> answer == says
    ensures asked && says.Failed? ==> slug !in cache.entries && cache.entries == old(cache.entries) - {slug}
    ensures asked && !says.Failed? ==>
              cache.entries == AfterPut(old(cache.entries) - {slug}, slug, if says.Row? then Some(says.ep) else None,
                                        now, later)
  {
    var ep, hit := cache.Get(slug, at);
    if hit { return if ep.None? then NoRow else Row(ep.value), false; }
    assert cache.entries == old(cache.entries) - {slug};
    match says {
      case Row(found) => cache.Put(slug, Some(found), now, later);
      case NoRow => cache.Put(slug, None, now, later);
      case Failed =>
    }
    return says, true;
  }

  /** There is room below the cap, or where an expired entry can go. */
  lemma RoomIff(entries: map<string, Entry>, now: int)
    ensures Admits(entries, now) <==>
              |entries| < 10_000 || exists k :: k in entries && entries[k].expires <= now
  {
    LiveSize(entries, now);
    assert (forall k | k in entries :: now < entries[k].expires) ==> Live(entries, now) == entries;
    if k :| k in entries && entries[k].expires <= now { assert k !in Live(entries, now); }
  }

  /** After a put that finds room, the answer is there for five seconds, an absence for one, and not a moment longer. */
  lemma PutIsHit(entries: map<string, Entry>, slug: string, ep: Option<Endpoint>, now: int, later: int, t: int)
    requires |entries| < 10_000 || exists k :: k in entries && entries[k].expires <= now
    ensures Hit(AfterPut(entries, slug, ep, now, later), slug, t) ==
            if t < later + (if ep.None? then 1_000_000_000 else 5_000_000_000) then Some(ep) else None
  {
    RoomIff(entries, now);
  }

  // ---------------------------------------------------------------- lookups in flight

  /** Where a resolve stands. read is the position of its store read among all reads. */
  datatype Resolver =
    | Starting(slug: string)
    | Missed(slug: string)
    | Holding(slug: string, ep: Option<Endpoint>, read: nat)
    | Answered(slug: string, ep: Option<Endpoint>, read: nat)
    | Errored(slug: string)

  /** What the store said to one lookup. */
  datatype Reading = Reading(slug: string, ep: Option<Endpoint>)

  /** Which read an entry comes from, and when it was put. */
  datatype Origin = Origin(read: nat, putAt: int)

  datatype World = World(
    clock: int, store: map<string, Endpoint>, readings: seq<Reading>,
    entries: map<string, Entry>, origins: map<string, Origin>, resolvers: seq<Resolver>)

  datatype Step =
    | Tick(d: nat)
    | StoreChanges(store: map<string, Endpoint>)
    | Begin(slug: string)
    | Look(i: nat)
    | Read(i: nat)
    | ReadFails(i: nat)
    | Keep(i: nat, d: nat)             // put, the clock moving on by d between its two readings
    | Forget(slug: string)
    | Evict

  predicate Enabled(w: World, step: Step) {
    match step
    case Look(i) => i < |w.resolvers| && w.resolvers[i].Starting?
    case Read(i) => i < |w.resolvers| && w.resolvers[i].Missed?
    case ReadFails(i) => i < |w.resolvers| && w.resolvers[i].Missed?
    case Keep(i, _) => i < |w.resolvers| && w.resolvers[i].Holding?
    case _ => true
  }

  function OriginOf(w: World, slug: string): Origin {
    if slug in w.origins then w.origins[slug] else Origin(0, 0)
  }

  function AtStore(store: map<string, Endpoint>, slug: string): Option<Endpoint> {
    if slug in store then Some(store[slug]) else None
  }

  function Apply(w: World, step: Step): World
    requires Enabled(w, step)
  {
    match step
    case Tick(d) => w.(clock := w.clock + d)
    case StoreChanges(store) => w.(store := store)
    case Begin(slug) => w.(resolvers := w.resolvers + [Starting(slug)])
    case Look(i) =>
      var slug := w.resolvers[i].slug;
      var hit := Hit(w.entries, slug, w.clock);
      w.(entries := AfterGet(w.entries, slug, w.clock),
         resolvers := w.resolvers[i := if hit.Some? then Answered(slug, hit.value, OriginOf(w, slug).read)
             else Missed(slug)])
    case Read(i) =>
      var slug := w.resolvers[i].slug;
      var ep := AtStore(w.store, slug);
      w.(readings := w.readings + [Reading(slug, ep)], resolvers := w.resolvers[i := Holding(slug, ep, |w.readings|)])
    case ReadFails(i) => w.(resolvers := w.resolvers[i := Errored(w.resolvers[i].slug)])
    case Keep(i, d) =>
      var Holding(slug, ep, read) := w.resolvers[i];
      w.(clock := w.clock + d,
         entries := AfterPut(w.entries, slug, ep, w.clock, w.clock + d),
         origins := if Admits(w.entries, w.clock) then w.origins[slug := Origin(read, w.clock + d)] else w.origins,
         resolvers := w.resolvers[i := Answered(slug, ep, read)])
    case Forget(slug) => w.(entries := w.entries - {slug})
    case Evict => w.(entries := Live(w.entries, w.clock))
  }

  // ---------------------------------------------------------------- what every step keeps

  /** An entry is what the store said at its origin, put no later than now, to expire one TTL after. */
  predicate EntryOk(w: World, slug: string) {
    && slug in w.entries && slug in w.origins
    && w.origins[slug].read < |w.readings|
    && w.readings[w.origins[slug].read] == Reading(slug, w.entries[slug].ep)
    && w.origins[slug].putAt <= w.clock
    && w.entries[slug].expires == w.origins[slug].putAt + TTL(w.entries[slug].ep)
  }

  predicate ResolverOk(w: World, r: Resolver) {
    r.Holding? || r.Answered? ==> r.read < |w.readings| && w.readings[r.read] == Reading(r.slug, r.ep)
  }

  predicate Inv(w: World) {
    && |w.entries| <= MAX_ENTRIES
    && (forall slug | slug in w.entries :: EntryOk(w, slug))
    && (forall i | 0 <= i < |w.resolvers| :: ResolverOk(w, w.resolvers[i]))
  }

  /** A lookup that goes to the store gets what the store holds at that moment, and holds it until it puts it. */
  lemma ReadIsTheStore(w: World, i: nat)
    requires Enabled(w, Read(i))
    ensures var t, slug := Apply(w, Read(i)), w.resolvers[i].slug;
            && t.resolvers[i] == Holding(slug, if slug in w.store then Some(w.store[slug]) else None, |w.readings|)
            && t.readings == w.readings + [Reading(slug, t.resolvers[i].ep)]
            && t.entries == w.entries
  {
  }

  lemma SizeKept(w: World, step: Step)
    requires Enabled(w, step) && |w.entries| <= MAX_ENTRIES
    ensures |Apply(w, step).entries| <= MAX_ENTRIES
  {
    LiveSize(w.entries, w.clock);
    match step {
      case Look(i) => SizeAfterRemove(w.entries, w.resolvers[i].slug);
      case Forget(slug) => SizeAfterRemove(w.entries, slug);
      case Keep(i, d) =>
        var room := Room(w.entries, w.clock);
        SizeAfterPut(room, w.resolvers[i].slug, Entry(w.resolvers[i].ep, w.clock + d + TTL(w.resolvers[i].ep)));
      case _ =>
    }
  }

  lemma EntryStaysOk(w: World, step: Step, slug: string)
    requires Enabled(w, step) && slug in Apply(w, step).entries
    requires slug in w.entries ==> EntryOk(w, slug)
    requires step.Keep? ==> ResolverOk(w, w.resolvers[step.i])
    ensures EntryOk(Apply(w, step), slug)
  {
  }

  lemma ResolverStaysOk(w: World, step: Step, i: nat)
    requires Enabled(w, step) && i < |Apply(w, step).resolvers|
    requires i < |w.resolvers| ==> ResolverOk(w, w.resolvers[i])
    requires step.Look? ==> w.resolvers[step.i].slug in w.entries ==> EntryOk(w, w.resolvers[step.i].slug)
    ensures ResolverOk(Apply(w, step), Apply(w, step).resolvers[i])
  {
  }

  lemma StepKeepsInv(w: World, step: Step)
    requires Enabled(w, step) && Inv(w)
    ensures Inv(Apply(w, step))
  {
    SizeKept(w, step);
    hide Apply, EntryOk, ResolverOk;
    var t := Apply(w, step);
    forall slug | slug in t.entries ensures EntryOk(t, slug) {
      EntryStaysOk(w, step, slug);
    }
    forall i | 0 <= i < |t.resolvers| ensures ResolverOk(t, t.resolvers[i]) {
      ResolverStaysOk(w, step, i);
    }
  }

  predicate Runs(w: World, steps: seq<Step>)
    decreases |steps|
  {
    steps == [] || (Enabled(w, steps[0]) && Runs(Apply(w, steps[0]), steps[1..]))
  }

  function Final(w: World, steps: seq<Step>): World
    requires Runs(w, steps)
    decreases |steps|
  {
    if steps == [] then w else Final(Apply(w, steps[0]), steps[1..])
  }

  lemma {:induction false} RunKeepsInv(w: World, steps: seq<Step>)
    requires Inv(w) && Runs(w, steps)
    ensures Inv(Final(w, steps))
    decreases |steps|
  {
    hide Inv;
    if steps != [] {
      StepKeepsInv(w, steps[0]);
      RunKeepsInv(Apply(w, steps[0]), steps[1..]);
    }
  }

  function Empty(clock: int, store: map<string, Endpoint>): World {
    World(clock, store, [], map[], map[], [])
  }

  /** In every run: the map never outgrows its cap, and a hit is what the store said to the lookup whose put of that
      slug was the last admitted, less than one TTL ago. */
  lemma HitsAreTrue(clock: int, store: map<string, Endpoint>, steps: seq<Step>, slug: string)
    requires Runs(Empty(clock, store), steps)
    ensures var w := Final(Empty(clock, store), steps);
            && |w.entries| <= 10_000
            && (Hit(w.entries, slug, w.clock).Some? ==>
                  var ep, o := Hit(w.entries, slug, w.clock).value, OriginOf(w, slug);
                  && o.read < |w.readings| && w.readings[o.read] == Reading(slug, ep)
                  && 0 <= w.clock - o.putAt < TTL(ep))
  {
    hide Runs, Final;
    assert Inv(Empty(clock, store));
    RunKeepsInv(Empty(clock, store), steps);
    var w := Final(Empty(clock, store), steps);
    if slug in w.entries { assert EntryOk(w, slug); }
  }

  /** A live entry leaves only by expiring, by a forget, or by a put of its own slug. */
  lemma LiveEntryStays(w: World, step: Step, slug: string)
    requires Enabled(w, step) && Inv(w) && slug in w.entries && Apply(w, step).clock < w.entries[slug].expires
    requires step != Forget(slug) && !(step.Keep? && w.resolvers[step.i].slug == slug)
    ensures slug in Apply(w, step).entries && Apply(w, step).entries[slug] == w.entries[slug]
  {
  }

  predicate LeavesAlone(w: World, step: Step, slug: string)
    requires Enabled(w, step)
  {
    step != Forget(slug) && !(step.Keep? && w.resolvers[step.i].slug == slug)
  }

  predicate AllLeaveAlone(w: World, steps: seq<Step>, slug: string)
    requires Runs(w, steps)
    decreases |steps|
  {
    steps == [] || (LeavesAlone(w, steps[0], slug) && AllLeaveAlone(Apply(w, steps[0]), steps[1..], slug))
  }

  lemma {:induction false} LiveEntryStaysOn(w: World, steps: seq<Step>, slug: string)
    requires Runs(w, steps) && Inv(w) && AllLeaveAlone(w, steps, slug)
    requires slug in w.entries && Final(w, steps).clock < w.entries[slug].expires
    ensures slug in Final(w, steps).entries && Final(w, steps).entries[slug] == w.entries[slug]
    ensures w.clock <= Final(w, steps).clock
    decreases |steps|
  {
    hide Inv;
    if steps != [] {
      var next := Apply(w, steps[0]);
      StepKeepsInv(w, steps[0]);
      ClockGoesOn(next, steps[1..]);
      assert w.clock <= next.clock;
      LiveEntryStays(w, steps[0], slug);
      LiveEntryStaysOn(next, steps[1..], slug);
    }
  }

  lemma {:induction false} ClockGoesOn(w: World, steps: seq<Step>)
    requires Runs(w, steps)
    ensures w.clock <= Final(w, steps).clock
    decreases |steps|
  {
    if steps != [] { ClockGoesOn(Apply(w, steps[0]), steps[1..]); }
  }

  /** What a lookup has read and put with room to spare, every lookup of that slug in the next five seconds (one second
      for an absence) is answered with, whatever other lookups, changes of the store and clearings come between, as long
      as nobody forgets or puts that slug. */
  lemma AnsweredFromMemory(w: World, i: nat, d: nat, steps: seq<Step>, j: nat)
    requires Inv(w) && Enabled(w, Keep(i, d))
    requires |w.entries| < 10_000 || exists k :: k in w.entries && w.entries[k].expires <= w.clock
    requires var r, t := w.resolvers[i], Apply(w, Keep(i, d));
             && Runs(t, steps) && AllLeaveAlone(t, steps, r.slug)
             && Final(t, steps).clock < w.clock + d + (if r.ep.None? then 1_000_000_000 else 5_000_000_000)
             && Enabled(Final(t, steps), Look(j)) && Final(t, steps).resolvers[j].slug == r.slug
    ensures var r, t := w.resolvers[i], Apply(w, Keep(i, d));
            var after := Apply(Final(t, steps), Look(j)).resolvers[j];
            after.Answered? && after.ep == r.ep
  {
    var r, t := w.resolvers[i], Apply(w, Keep(i, d));
    RoomIff(w.entries, w.clock);
    assert r.slug in t.entries && t.entries[r.slug].ep == r.ep;
    StepKeepsInv(w, Keep(i, d));
    hide Inv, AllLeaveAlone, Runs, Final;
    LiveEntryStaysOn(t, steps, r.slug);
  }

  // ---------------------------------------------------------------- after a forget

  /** Nothing about slug older than read n is left to answer with. */
  predicate FreshSince(w: World, slug: string, n: nat) {
    && n <= |w.readings|
    && (slug in w.entries ==> OriginOf(w, slug).read >= n)
    && (forall i | 0 <= i < |w.resolvers| && w.resolvers[i].Holding? && w.resolvers[i].slug == slug ::
          w.resolvers[i].read >= n)
  }

  /** Every answer for slug given since then comes from read n or later. */
  predicate NoStaleAnswer(start: World, w: World, slug: string, n: nat) {
    forall i | 0 <= i < |w.resolvers| && w.resolvers[i].Answered? && w.resolvers[i].slug == slug ::
      w.resolvers[i].read >= n || (i < |start.resolvers| && start.resolvers[i] == w.resolvers[i])
  }

  lemma StepKeepsFresh(start: World, w: World, step: Step, slug: string, n: nat)
    requires Enabled(w, step) && Inv(w) && FreshSince(w, slug, n) && NoStaleAnswer(start, w, slug, n)
    ensures FreshSince(Apply(w, step), slug, n) && NoStaleAnswer(start, Apply(w, step), slug, n)
  {
    EntryKeepsFresh(w, step, slug, n);
    ResolversKeepFresh(start, w, step, slug, n);
  }

  lemma EntryKeepsFresh(w: World, step: Step, slug: string, n: nat)
    requires Enabled(w, step) && Inv(w) && FreshSince(w, slug, n)
    ensures n <= |Apply(w, step).readings|
    ensures slug in Apply(w, step).entries ==> OriginOf(Apply(w, step), slug).read >= n
  {
  }

  lemma ResolversKeepFresh(start: World, w: World, step: Step, slug: string, n: nat)
    requires Enabled(w, step) && FreshSince(w, slug, n) && NoStaleAnswer(start, w, slug, n)
    ensures var t := Apply(w, step);
            forall i | 0 <= i < |t.resolvers| && t.resolvers[i].slug == slug ::
              (t.resolvers[i].Holding? ==> t.resolvers[i].read >= n)
              && (t.resolvers[i].Answered? ==>
                    t.resolvers[i].read >= n || (i < |start.resolvers| && start.resolvers[i] == t.resolvers[i]))
  {
    hide AfterPut, AfterGet, Live, Admits;
  }

  lemma {:induction false} RunKeepsFresh(start: World, w: World, steps: seq<Step>, slug: string, n: nat)
    requires Runs(w, steps) && Inv(w) && FreshSince(w, slug, n) && NoStaleAnswer(start, w, slug, n)
    ensures NoStaleAnswer(start, Final(w, steps), slug, n)
    decreases |steps|
  {
    hide Inv, FreshSince, NoStaleAnswer;
    if steps != [] {
      StepKeepsInv(w, steps[0]);
      StepKeepsFresh(start, w, steps[0], slug, n);
      RunKeepsFresh(start, Apply(w, steps[0]), steps[1..], slug, n);
    }
  }

  predicate InFlight(w: World, slug: string) {
    exists i :: 0 <= i < |w.resolvers| && w.resolvers[i].Holding? && w.resolvers[i].slug == slug
  }

  ghost predicate ForgottenForGood(w: World, slug: string) {
    var start := Apply(w, Forget(slug));
    forall steps | Runs(start, steps) :: NoStaleAnswer(start, Final(start, steps), slug, |w.readings|)
  }

  /** A lookup that had read but not put answers, after the forget, with what it read before. */
  lemma StaleAfterForget(w: World, slug: string)
    requires Inv(w) && InFlight(w, slug)
    ensures !ForgottenForGood(w, slug)
  {
    var start, n := Apply(w, Forget(slug)), |w.readings|;
    var i :| 0 <= i < |w.resolvers| && w.resolvers[i].Holding? && w.resolvers[i].slug == slug;
    assert ResolverOk(w, w.resolvers[i]);
    var t := Apply(start, Keep(i, 0));
    assert t.resolvers[i].Answered? && t.resolvers[i].read < n && start.resolvers[i] != t.resolvers[i];
    hide Apply, Enabled, Inv;
    assert !NoStaleAnswer(start, t, slug, n);
    OneStep(start, Keep(i, 0));
  }

  lemma OneStep(w: World, step: Step)
    requires Enabled(w, step)
    ensures Runs(w, [step]) && Final(w, [step]) == Apply(w, step)
  {
    assert [step][1..] == [];
    assert Runs(Apply(w, step), []);
  }

  lemma FreshAfterForget(w: World, slug: string)
    requires Inv(w) && !InFlight(w, slug)
    ensures var start := Apply(w, Forget(slug));
            FreshSince(start, slug, |w.readings|) && NoStaleAnswer(start, start, slug, |w.readings|)
  {
  }

  /** After a forget, every later answer comes from a store read after it, exactly when no lookup of that slug was
      between its read and its put. */
  lemma ForgetIsFinalIff(w: World, slug: string)
    requires Inv(w)
    ensures ForgottenForGood(w, slug) <==> !InFlight(w, slug)
  {
    var start, n := Apply(w, Forget(slug)), |w.readings|;
    StepKeepsInv(w, Forget(slug));
    if InFlight(w, slug) {
      StaleAfterForget(w, slug);
    } else {
      FreshAfterForget(w, slug);
      hide FreshSince, NoStaleAnswer, Runs, Final, Inv;
      forall steps | Runs(start, steps) ensures NoStaleAnswer(start, Final(start, steps), slug, n) {
        RunKeepsFresh(start, start, steps, slug, n);
      }
    }
  }
}
