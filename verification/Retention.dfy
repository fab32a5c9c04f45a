/** Retention: the stored expiry, the transactions that keep it true, and the batched sweep. Times are seconds. */
module Retention {

  const HOUR: int := 3600
  const DEFAULT_BATCH: nat := 1000
  const MAX_BATCHES_PER_TICK: nat := 20

  datatype Request = Request(endpoint: string, received: int, expires: int)

  /** A change of retention under way: after its first update, and after its second, with the rows that one saw. */
  datatype Change = Opened(hours: int) | Projected(hours: int, seen: set<string>)

  /** What is committed: retention hours by inbox and captured requests by id. What is under way: inserts that have read
      the hours but not committed, and changes of retention. issued holds every id ever drawn. */
  datatype Db = Db(hours: map<string, int>, requests: map<string, Request>,
                   inserts: map<string, Request>, changes: map<string, Change>, issued: set<string>)

  const EMPTY := Db(map[], map[], map[], map[], {})

  /** A statement, or where it can be seen half done, a part of one. A delete names the rows its limit picked. */
  datatype Op =
    | CreateEndpoint(ep: string, hours: int)
    | DeleteEndpoint(ep: string)
    | BeginInsert(id: string, ep: string, at: int)   // the insert reads the inbox's hours
    | CommitInsert(id: string)
    | AbortInsert(id: string)
    | UpdateHours(ep: string, hours: int)            // SetRetention, its first update
    | UpdateExpiries(ep: string)                     // SetRetention, its second update
    | Commit(ep: string)
    | Rollback(ep: string)
    | DeleteExpired(now: int, batch: nat, ids: set<string>)

  /** The column's CHECK. */
  predicate Allowed(hours: int) { 1 <= hours <= 8760 }

  function Expired(db: Db, now: int): set<string> {
    set id | id in db.requests && db.requests[id].expires < now
  }

  /** order by expires_at limit batch, ties broken anyhow. */
  predicate Earliest(db: Db, now: int, batch: nat, ids: set<string>) {
    && ids <= Expired(db, now)
    && |ids| == (if batch <= |Expired(db, now)| then batch else |Expired(db, now)|)
    && (forall a, b | a in ids && b in Expired(db, now) && b !in ids ::
          db.requests[a].expires <= db.requests[b].expires)
  }

  function RowsOf(db: Db, ep: string): set<string> { set id | id in db.requests && db.requests[id].endpoint == ep }

  function InsertsFor(db: Db, ep: string): set<string> { set id | id in db.inserts && db.inserts[id].endpoint == ep }

  /** What may happen next. Row locks keep a second change of one inbox waiting, and an inbox from being deleted under a
      change or an insert. */
  predicate Possible(db: Db, op: Op) {
    match op
    case CreateEndpoint(_, _) => true
    case DeleteEndpoint(ep) => ep !in db.changes && InsertsFor(db, ep) == {}
    case BeginInsert(id, _, _) => id !in db.issued
    case CommitInsert(id) => id in db.inserts
    case AbortInsert(id) => id in db.inserts
    case UpdateHours(ep, _) => ep !in db.changes
    case UpdateExpiries(ep) => ep in db.changes && db.changes[ep].Opened?
    case Commit(ep) => ep in db.changes && db.changes[ep].Projected?
    case Rollback(ep) => ep in db.changes
    case DeleteExpired(now, batch, ids) => Earliest(db, now, batch, ids)
  }

  /** The rows that a committed change gives their new expiry. */
  function Reprojected(requests: map<string, Request>, seen: set<string>, hours: int): map<string, Request> {
    map id | id in requests ::
      var r := requests[id]; if id in seen then r.(expires := r.received + hours * HOUR) else r
  }

  /** A statement that breaks a constraint changes nothing. */
  function Apply(db: Db, op: Op): Db
    requires Possible(db, op)
  {
    match op
    case CreateEndpoint(ep, hours) =>
      if ep in db.hours || !Allowed(hours) then db else db.(hours := db.hours[ep := hours])
    case DeleteEndpoint(ep) => db.(hours := db.hours - {ep}, requests := db.requests - RowsOf(db, ep))
    case BeginInsert(id, ep, at) =>
      if ep !in db.hours then db.(issued := db.issued + {id})
      else db.(inserts := db.inserts[id := Request(ep, at, at + db.hours[ep] * HOUR)], issued := db.issued + {id})
    case CommitInsert(id) => db.(requests := db.requests[id := db.inserts[id]], inserts := db.inserts - {id})
    case AbortInsert(id) => db.(inserts := db.inserts - {id})
    case UpdateHours(ep, hours) =>
      if ep !in db.hours || !Allowed(hours) then db else db.(changes := db.changes[ep := Opened(hours)])
    case UpdateExpiries(ep) => db.(changes := db.changes[ep := Projected(db.changes[ep].hours, RowsOf(db, ep))])
    case Commit(ep) =>
      var Projected(hours, seen) := db.changes[ep];
      db.(hours := db.hours[ep := hours], requests := Reprojected(db.requests, seen, hours),
          changes := db.changes - {ep})
    case Rollback(ep) => db.(changes := db.changes - {ep})
    case DeleteExpired(_, _, ids) => db.(requests := db.requests - ids)
  }

  // ---------------------------------------------------------------- what every step keeps

  predicate Due(hours: map<string, int>, r: Request) {
    r.endpoint in hours && r.expires == r.received + hours[r.endpoint] * HOUR
  }

  /** Every stored expiry, and every one about to be stored, is the time of receipt plus the inbox's retention. */
  predicate Inv(db: Db) {
    && (forall id | id in db.requests :: Due(db.hours, db.requests[id]))
    && (forall id | id in db.inserts :: Due(db.hours, db.inserts[id]))
  }

  /** What holds in any case: rows and inserts belong to inboxes, ids are issued, and a change saw rows of its own
      inbox. */
  predicate Sound(db: Db) { RowsSound(db) && SeenSound(db) }

  predicate RowsSound(db: Db) {
    && (forall id | id in db.requests :: db.requests[id].endpoint in db.hours && id in db.issued)
    && (forall id | id in db.inserts :: db.inserts[id].endpoint in db.hours && id in db.issued && id !in db.requests)
    && (forall ep | ep in db.changes :: ep in db.hours)
  }

  predicate SeenSound(db: Db) {
    forall ep, id | ep in db.changes && db.changes[ep].Projected? && id in db.changes[ep].seen ::
      id in db.issued && id !in db.inserts && (id in db.requests ==> db.requests[id].endpoint == ep)
  }

  /** No insert for the inbox fell between the second update of its change and now: all its rows were seen, and none is
      under way. */
  predicate Undisturbed(db: Db, ep: string)
    requires ep in db.changes && db.changes[ep].Projected?
  {
    RowsOf(db, ep) <= db.changes[ep].seen && InsertsFor(db, ep) == {}
  }

  /** A commit that leaves no stale expiry behind: it changes nothing, or no insert fell between. */
  predicate Clear(db: Db, op: Op)
    requires Possible(db, op)
  {
    op.Commit? ==> (op.ep in db.hours && db.hours[op.ep] == db.changes[op.ep].hours) || Undisturbed(db, op.ep)
  }

  lemma NoInserts(db: Db, ep: string)
    requires InsertsFor(db, ep) == {}
    ensures forall id | id in db.inserts :: db.inserts[id].endpoint != ep
  {
    assert forall id | id in db.inserts :: db.inserts[id].endpoint == ep ==> id in InsertsFor(db, ep);
  }

  lemma StepKeepsSound(db: Db, op: Op)
    requires Possible(db, op) && Sound(db)
    ensures Sound(Apply(db, op))
  {
    RowsStaySound(db, op);
    SeenStaysSound(db, op);
    hide Possible, Apply, RowsSound, SeenSound;
  }

  lemma SeenStaysSound(db: Db, op: Op)
    requires Possible(db, op) && Sound(db)
    ensures SeenSound(Apply(db, op))
  {
    hide Allowed, Earliest;
  }

  lemma RowsStaySound(db: Db, op: Op)
    requires Possible(db, op) && Sound(db)
    ensures RowsSound(Apply(db, op))
  {
    hide Allowed, Earliest, SeenSound;
    if op.DeleteEndpoint? {
      NoInserts(db, op.ep);
    }
  }

  /** A commit keeps every expiry true exactly when it is clear. */
  lemma CommitKeepsIff(db: Db, op: Op)
    requires op.Commit? && Possible(db, op) && Sound(db) && Inv(db)
    ensures Inv(Apply(db, op)) <==> Clear(db, op)
  {
    var ep, was, hours := op.ep, db.hours[op.ep], db.changes[op.ep].hours;
    var t := Apply(db, op);
    if was != hours {
      assert was * HOUR != hours * HOUR;
      if Undisturbed(db, ep) {
        forall id | id in t.requests ensures Due(t.hours, t.requests[id]) {
          if db.requests[id].endpoint == ep { assert id in RowsOf(db, ep); }
        }
        NoInserts(db, ep);
      } else {
        if id :| id in RowsOf(db, ep) && id !in db.changes[ep].seen {
          assert !Due(t.hours, t.requests[id]);
        } else {
          var id :| id in InsertsFor(db, ep);
          assert !Due(t.hours, t.inserts[id]);
        }
      }
    }
  }

  /** An inbox is created with its hours unless there is one, and goes with all its requests and no other's. */
  lemma CreatedAndDeleted(db: Db, ep: string, hours: int)
    ensures var t := Apply(db, CreateEndpoint(ep, hours));
            && t.requests == db.requests
            && t.hours == if ep in db.hours || hours < 1 || hours > 8760 then db.hours else db.hours[ep := hours]
    ensures Possible(db, DeleteEndpoint(ep)) ==>
              var t := Apply(db, DeleteEndpoint(ep));
              && t.hours == db.hours - {ep}
              && (forall id :: id in t.requests <==> id in db.requests && db.requests[id].endpoint != ep)
              && (forall id | id in t.requests :: t.requests[id] == db.requests[id])
  {
  }

  /** Every other step keeps every expiry true. */
  lemma OtherStepKeeps(db: Db, op: Op)
    requires !op.Commit? && Possible(db, op) && Sound(db) && Inv(db)
    ensures Inv(Apply(db, op))
  {
    hide Allowed, Earliest;
    if op.DeleteEndpoint? {
      NoInserts(db, op.ep);
    }
  }

  predicate Runs(db: Db, ops: seq<Op>)
    decreases |ops|
  {
    ops == [] || (Possible(db, ops[0]) && Runs(Apply(db, ops[0]), ops[1..]))
  }

  function Final(db: Db, ops: seq<Op>): Db
    requires Runs(db, ops)
    decreases |ops|
  {
    if ops == [] then db else Final(Apply(db, ops[0]), ops[1..])
  }

  /** At every moment of the history. */
  predicate Always(db: Db, ops: seq<Op>)
    requires Runs(db, ops)
    decreases |ops|
  {
    Inv(db) && (ops == [] || Always(Apply(db, ops[0]), ops[1..]))
  }

  predicate AllClear(db: Db, ops: seq<Op>)
    requires Runs(db, ops)
    decreases |ops|
  {
    ops == [] || (Clear(db, ops[0]) && AllClear(Apply(db, ops[0]), ops[1..]))
  }

  lemma {:induction false} RunKeepsIff(db: Db, ops: seq<Op>)
    requires Runs(db, ops) && Sound(db) && Inv(db)
    ensures Always(db, ops) <==> AllClear(db, ops)
    ensures Sound(Final(db, ops)) && (AllClear(db, ops) ==> Inv(Final(db, ops)))
    decreases |ops|
  {
    hide Inv, Sound, Clear;
    if ops != [] {
      var op, next := ops[0], Apply(db, ops[0]);
      StepKeepsSound(db, op);
      if op.Commit? { CommitKeepsIff(db, op); } else { OtherStepKeeps(db, op); NotACommit(db, op); }
      if Inv(next) { RunKeepsIff(next, ops[1..]); } else { StaleRun(next, ops[1..]); }
      hide Apply, Possible;
    }
  }

  lemma NotACommit(db: Db, op: Op)
    requires !op.Commit? && Possible(db, op)
    ensures Clear(db, op)
  {
  }

  lemma {:induction false} StaleRun(db: Db, ops: seq<Op>)
    requires Runs(db, ops) && Sound(db) && !Inv(db)
    ensures !Always(db, ops) && Sound(Final(db, ops))
    decreases |ops|
  {
    hide Inv, Sound, Possible, Apply;
    SoundToTheEnd(db, ops);
  }

  lemma {:induction false} SoundToTheEnd(db: Db, ops: seq<Op>)
    requires Runs(db, ops) && Sound(db)
    ensures Sound(Final(db, ops))
    decreases |ops|
  {
    hide Sound;
    if ops != [] {
      StepKeepsSound(db, ops[0]);
      SoundToTheEnd(Apply(db, ops[0]), ops[1..]);
      hide Apply, Possible;
    }
  }

  /** In every history, with inserts and changes of retention overlapping as they may: each expiry is at every moment
      the receipt time plus the inbox's retention exactly when every change that alters it commits with no insert for
      its inbox between its second update and its commit. */
  lemma ExpiriesTrueIff(ops: seq<Op>)
    requires Runs(EMPTY, ops)
    ensures Always(EMPTY, ops) <==> AllClear(EMPTY, ops)
  {
    RunKeepsIff(EMPTY, ops);
  }

  /** A capture inserted between the second update and the commit keeps the old expiry: here one hour, while the inbox
      retains for two. */
  lemma StaleExample()
    ensures var ops := [CreateEndpoint("in", 1), UpdateHours("in", 2), UpdateExpiries("in"),
                        BeginInsert("a", "in", 0), CommitInsert("a"), Commit("in")];
            && Runs(EMPTY, ops)
            && var db := Final(EMPTY, ops);
               db.hours["in"] == 2 && "a" in db.requests && db.requests["a"].expires == 1 * HOUR
  {
  }

  // ---------------------------------------------------------------- the indexed predicate

  /** What the sweep used to select: rows joined with their inbox and past its window. */
  function ExpiredByJoin(db: Db, now: int): set<string> {
    set id | id in db.requests && db.requests[id].endpoint in db.hours
             && db.requests[id].received < now - db.hours[db.requests[id].endpoint] * HOUR
  }

  /** The indexed predicate selects what the join selects, whatever the time, exactly when every stored expiry is
      true. */
  lemma IndexedSweepIsTheJoinIff(db: Db)
    requires Sound(db)
    ensures (forall now :: Expired(db, now) == ExpiredByJoin(db, now)) <==>
              forall id | id in db.requests :: Due(db.hours, db.requests[id])
  {
    if id :| id in db.requests && !Due(db.hours, db.requests[id]) {
      var r := db.requests[id];
      var due := r.received + db.hours[r.endpoint] * HOUR;
      var now := if r.expires < due then due else r.expires;
      assert (id in Expired(db, now)) != (id in ExpiredByJoin(db, now));
    } else {
      forall now ensures Expired(db, now) == ExpiredByJoin(db, now) {
        forall id ensures id in Expired(db, now) <==> id in ExpiredByJoin(db, now) {}
      }
    }
  }

  /** So in every history whose changes of retention are undisturbed, the two select the same rows at every time. */
  lemma IndexedSweepIsTheJoin(ops: seq<Op>, now: int)
    requires Runs(EMPTY, ops) && AllClear(EMPTY, ops)
    ensures var db := Final(EMPTY, ops); Expired(db, now) == ExpiredByJoin(db, now)
  {
    RunKeepsIff(EMPTY, ops);
    hide Runs, Final, AllClear, Expired, ExpiredByJoin;
    IndexedSweepIsTheJoinIff(Final(EMPTY, ops));
  }

  // ---------------------------------------------------------------- the store

  class Store {
    var db: Db

    constructor ()
      ensures db == EMPTY
    {
      db := EMPTY;
    }

    method Execute(op: Op)
      requires Possible(db, op)
      modifies this
      ensures db == Apply(old(db), op)
    {
      db := Apply(db, op);
    }

    /** One delete statement: at most batch expired rows, earliest expiry first. */
    method DeleteExpiredRequests(now: int, batch0: int) returns (n: nat, ghost ids: set<string>)
      modifies this
      ensures var batch := if batch0 <= 0 then DEFAULT_BATCH else batch0;
              Earliest(old(db), now, batch, ids) && db == Apply(old(db), DeleteExpired(now, batch, ids))
      ensures n == |ids|
    {
      var batch: nat := if batch0 <= 0 then DEFAULT_BATCH else batch0;
      var picked := PickEarliest(db.requests, Expired(db, now), batch);
      ids, n := picked, |picked|;
      db := db.(requests := db.requests - picked);
    }
  }


  lemma {:induction false} FirstExists(requests: map<string, Request>, s: set<string>)
    requires s != {} && s <= requests.Keys
    ensures exists id :: id in s && forall other | other in s :: requests[id].expires <= requests[other].expires
  {
    var x :| x in s;
    if s != {x} {
      FirstExists(requests, s - {x});
      var rest :| rest in s - {x} && forall other | other in s - {x} ::
          requests[rest].expires <= requests[other].expires;
      var first := if requests[x].expires <= requests[rest].expires then x else rest;
      assert forall other | other in s :: requests[first].expires <= requests[other].expires;
    }
  }

  /** The rows with the earliest expiries, up to a limit. */
  method PickEarliest(requests: map<string, Request>, all: set<string>, limit: nat) returns (picked: set<string>)
    requires all <= requests.Keys
    ensures picked <= all && |picked| == (if limit <= |all| then limit else |all|)
    ensures forall a, b | a in picked && b in all && b !in picked :: requests[a].expires <= requests[b].expires
  {
    var candidates := all;
    picked := {};
    while candidates != {} && |picked| < limit
      invariant picked <= all && candidates == all - picked && |picked| <= limit && |all| == |picked| + |candidates|
      invariant forall a, b | a in picked && b in candidates :: requests[a].expires <= requests[b].expires
      decreases |candidates|
    {
      FirstExists(requests, candidates);
      var id :| id in candidates && forall other | other in candidates ::
          requests[id].expires <= requests[other].expires;
      picked, candidates := picked + {id}, candidates - {id};
    }
  }

  // ---------------------------------------------------------------- a change of retention among others

  /** The further statements of a change of this inbox, which are its own transaction's only. */
  function Locks(ep: string): set<Op> { {UpdateExpiries(ep), Commit(ep), Rollback(ep)} }

  predicate Unlocked(ops: seq<Op>, ep: string) { forall op | op in ops :: op !in Locks(ep) }

  lemma {:induction false} RunsOn(db: Db, a: seq<Op>, b: seq<Op>)
    requires Runs(db, a) && Runs(Final(db, a), b)
    ensures Runs(db, a + b) && Final(db, a + b) == Final(Final(db, a), b)
    decreases |a|
  {
    hide Possible, Apply;
    if a == [] {
      assert a + b == b;
    } else {
      assert (a + b)[1..] == a[1..] + b;
      RunsOn(Apply(db, a[0]), a[1..], b);
    }
  }

  lemma OneStep(db: Db, op: Op)
    requires Possible(db, op)
    ensures Runs(db, [op]) && Final(db, [op]) == Apply(db, op)
  {
    assert [op][1..] == [];
    assert Runs(Apply(db, op), []);
  }

  /** Whatever other connections do, but for what only the caller's own transaction does. */
  method Others(store: Store, ops: seq<Op>, barred: set<Op>) returns (ghost done: seq<Op>)
    modifies store
    ensures Runs(old(store.db), done) && store.db == Final(old(store.db), done)
    ensures forall op | op in done :: op in ops && op !in barred
  {
    hide Possible, Apply;
    done := [];
    for i := 0 to |ops|
      invariant Runs(old(store.db), done) && store.db == Final(old(store.db), done)
      invariant forall op | op in done :: op in ops && op !in barred
    {
      if Possible(store.db, ops[i]) && ops[i] !in barred {
        OneStep(store.db, ops[i]);
        RunsOn(old(store.db), done, [ops[i]]);
        store.Execute(ops[i]);
        done := done + [ops[i]];
      }
    }
  }

  /** What a step leaves of a row, of a row that is gone, and of a change under way. */
  lemma StepLeaves(db: Db, op: Op, id: string, ep: string)
    requires Possible(db, op) && Sound(db)
    ensures var t := Apply(db, op);
            && (id in db.requests && id in t.requests ==>
                  t.requests[id].endpoint == db.requests[id].endpoint
                      && t.requests[id].received == db.requests[id].received)
            && (id in db.issued && id !in db.inserts ==>
                  id in t.issued && id !in t.inserts && (id !in db.requests ==> id !in t.requests))
            && (ep in db.changes && op !in Locks(ep) ==> ep in t.changes && t.changes[ep] == db.changes[ep])
            && (id in db.inserts && op !in {CommitInsert(id), AbortInsert(id)} ==>
                  id in t.inserts && t.inserts[id] == db.inserts[id])
  {
    hide Allowed, Earliest;
  }

  lemma {:induction false} RunLeaves(db: Db, ops: seq<Op>, id: string, ep: string)
    requires Runs(db, ops) && Sound(db)
    ensures var t := Final(db, ops);
            && (id in db.requests && id in t.requests ==>
                  t.requests[id].endpoint == db.requests[id].endpoint
                      && t.requests[id].received == db.requests[id].received)
            && (id in db.issued && id !in db.inserts ==>
                  id in t.issued && id !in t.inserts && (id !in db.requests ==> id !in t.requests))
            && (ep in db.changes && Unlocked(ops, ep) ==> ep in t.changes && t.changes[ep] == db.changes[ep])
            && (id in db.inserts && (forall op | op in ops :: op !in {CommitInsert(id), AbortInsert(id)}) ==>
                  id in t.inserts && t.inserts[id] == db.inserts[id])
    decreases |ops|
  {
    assert id in db.requests ==> id in db.issued && id !in db.inserts;
    hide Sound;
    if ops != [] {
      StepLeaves(db, ops[0], id, ep);
      StepKeepsSound(db, ops[0]);
      assert ops[0] in ops && forall op | op in ops[1..] :: op in ops;
      RunLeaves(Apply(db, ops[0]), ops[1..], id, ep);
      hide Apply, Possible, Locks;
    }
  }

  /** The second update and the commit of a change under way. */
  method ProjectAndCommit(store: Store, ep: string, hours: int, before: seq<Op>) returns (ghost done: seq<Op>)
    requires Sound(store.db) && ep in store.db.changes && store.db.changes[ep] == Opened(hours)
    modifies store
    ensures Runs(old(store.db), done) && store.db == Final(old(store.db), done)
    ensures ep in store.db.hours && store.db.hours[ep] == hours && ep !in store.db.changes
    ensures forall id | id in old(store.db.issued) && id !in old(store.db.inserts) && id in RowsOf(store.db, ep) ::
              Due(store.db.hours, store.db.requests[id])
  {
    hide Runs, Final, Sound;
    ghost var start := store.db;
    OneStep(start, UpdateExpiries(ep));
    StepKeepsSound(start, UpdateExpiries(ep));
    store.Execute(UpdateExpiries(ep));
    ghost var second := store.db;
    ghost var meanwhile := Others(store, before, Locks(ep));
    ghost var last := store.db;
    RunsOn(start, [UpdateExpiries(ep)], meanwhile);
    RunLeaves(second, meanwhile, "", ep);
    OneStep(last, Commit(ep));
    RunsOn(start, [UpdateExpiries(ep)] + meanwhile, [Commit(ep)]);
    store.Execute(Commit(ep));
    done := [UpdateExpiries(ep)] + meanwhile + [Commit(ep)];
    forall id | id in start.issued && id !in start.inserts && id in RowsOf(store.db, ep)
      ensures Due(store.db.hours, store.db.requests[id])
    {
      RunLeaves(second, meanwhile, id, ep);
      RowOfEither(start, last, store.db, ep, id);
    }
  }

  lemma RowOfEither(start: Db, last: Db, end: Db, ep: string, id: string)
    requires id in RowsOf(end, ep) && end.requests.Keys == last.requests.Keys
    requires id in last.requests && last.requests[id].endpoint == end.requests[id].endpoint
    ensures id in end.requests && end.requests[id].endpoint == ep
    ensures id in start.requests && start.requests[id].endpoint == last.requests[id].endpoint ==>
              id in RowsOf(start, ep)
  {
  }

  /** InsertRequest, with any statements of other connections between its reading of the inbox's hours and its commit.
      id is the one the database draws; fails says that the statement breaks off. */
  method InsertRequest(store: Store, id: string, ep: string, at: int, between: seq<Op>, fails: bool) returns (ok: bool)
    requires Sound(store.db) && id !in store.db.issued
    modifies store
    ensures Sound(store.db)
    ensures ok <==> ep in old(store.db.hours) && !fails
    ensures ok ==>
              id in store.db.requests && store.db.requests[id] == Request(ep, at, at + old(store.db.hours)[ep] * 3600)
    ensures !ok ==> id !in store.db.requests
    ensures id !in store.db.inserts
  {
    hide Sound, Runs, Final;
    ghost var start := store.db;
    StepKeepsSound(start, BeginInsert(id, ep, at));
    store.Execute(BeginInsert(id, ep, at));
    ok := ep in store.db.hours && !fails;
    ghost var begun := store.db;
    Fresh(start, id);
    ghost var done := Others(store, between, {CommitInsert(id), AbortInsert(id)});
    RunLeaves(begun, done, id, ep);
    SoundToTheEnd(begun, done);
    if id in store.db.inserts {
      ghost var last := store.db;
      Fresh(last, id);
      if ok {
        StepKeepsSound(last, CommitInsert(id));
        store.Execute(CommitInsert(id));
      } else {
        StepKeepsSound(last, AbortInsert(id));
        store.Execute(AbortInsert(id));
      }
    }
  }

  /** An id not issued is nowhere, and one being inserted is not stored yet. */
  lemma Fresh(db: Db, id: string)
    requires Sound(db)
    ensures id !in db.issued ==> id !in db.inserts && id !in db.requests
    ensures id in db.inserts ==> id !in db.requests
  {
  }

  /** How a call of SetRetention ends; only Failed is an error to its caller. */
  datatype Outcome = Changed | NoSuchInbox | Failed

  /** The call's own statements are an update of the hours taken back before the expiries followed: after statements of
      others only, UpdateHours, then nothing that needs its lock, then the rollback. */
  ghost predicate TakenBack(history: seq<Op>, waiting: seq<Op>, ep: string, hours: int) {
    exists before, between ::
      && history == before + [UpdateHours(ep, hours)] + between + [Rollback(ep)]
      && (forall op | op in before :: op in waiting) && Unlocked(between, ep)
  }

  lemma ItTakesBack(history: seq<Op>, waiting: seq<Op>, ep: string, hours: int, before: seq<Op>, between: seq<Op>)
    requires history == before + [UpdateHours(ep, hours)] + between + [Rollback(ep)]
    requires (forall op | op in before :: op in waiting) && Unlocked(between, ep)
    ensures TakenBack(history, waiting, ep, hours)
  {
  }

  /** SetRetention, with any statements of other connections before, between and after its two updates; fails says that
      one of its own statements breaks off. Changed, both have taken effect: the inbox retains for so long, and every
      capture stored before the call and still there expires by it. Otherwise neither has: an unknown inbox is no error
      and changes nothing, and a call fails, before any update or taking it back, only when the hours are out of range,
      another change holds the inbox until the deadline, or a statement breaks off. reached is what it finds. */
  method SetRetention(store: Store, ep: string, hours: int, waiting: seq<Op>, between: seq<Op>, before: seq<Op>,
                      fails: bool)
    returns (outcome: Outcome, ghost history: seq<Op>, ghost reached: Db)
    requires Sound(store.db)
    modifies store
    ensures Runs(old(store.db), history) && store.db == Final(old(store.db), history)
    ensures Inv(old(store.db)) && AllClear(old(store.db), history) ==> Inv(store.db)
    ensures outcome.Changed? ==> ep in store.db.hours && store.db.hours[ep] == hours
    ensures outcome.Changed? ==>
              forall id | id in old(store.db.requests) && id in store.db.requests
                          && store.db.requests[id].endpoint == ep ::
                store.db.requests[id].expires == store.db.requests[id].received + hours * 3600
    ensures exists k :: 0 <= k <= |history| && (forall op | op in history[..k] :: op in waiting)
                        && Runs(old(store.db), history[..k]) && reached == Final(old(store.db), history[..k])
    ensures outcome == if ep !in reached.hours then NoSuchInbox
                       else if !(1 <= hours <= 8760) || ep in reached.changes || fails then Failed
                       else Changed
    ensures outcome.Changed? || ep !in reached.changes ==> ep !in store.db.changes
    ensures outcome.NoSuchInbox? ==> ep !in store.db.hours && forall op | op in history :: op in waiting
    ensures outcome.Failed? ==> (forall op | op in history :: op in waiting) || TakenBack(history, waiting, ep, hours)
  {
    hide Runs, Final, Sound, Inv, AllClear, TakenBack;
    ghost var start := store.db;
    outcome := Failed;
    history := Others(store, waiting, {});
    reached := store.db;
    ghost var k := |history|;
    assert history[..k] == history;
    SoundToTheEnd(start, history);
    ghost var earlier := history;
    if ep !in store.db.hours {
      outcome := NoSuchInbox;
    } else if Allowed(hours) && ep !in store.db.changes {
      OneStep(store.db, UpdateHours(ep, hours));
      RunsOn(start, history, [UpdateHours(ep, hours)]);
      StepKeepsSound(store.db, UpdateHours(ep, hours));
      store.Execute(UpdateHours(ep, hours));
      history := history + [UpdateHours(ep, hours)];
      ghost var more := Others(store, between, Locks(ep));
      RunLeaves(Final(start, history), more, "", ep);
      RunsOn(start, history, more);
      history := history + more;
      SoundToTheEnd(start, history);
      if fails {
        OneStep(store.db, Rollback(ep));
        RunsOn(start, history, [Rollback(ep)]);
        store.Execute(Rollback(ep));
        history := history + [Rollback(ep)];
        ItTakesBack(history, waiting, ep, hours, earlier, more);
      } else {
        StoredRemain(start, history);
        ghost var rest := ProjectAndCommit(store, ep, hours, before);
        RunsOn(start, history, rest);
        history := history + rest;
        outcome := Changed;
      }
    }
    if Inv(start) { RunKeepsIff(start, history); }
    assert history[..k] == earlier && (forall op | op in history[..k] :: op in waiting);
  }

  /** What was stored is either stored still or gone for good. */
  lemma StoredRemain(db: Db, ops: seq<Op>)
    requires Runs(db, ops) && Sound(db)
    ensures forall id | id in db.requests :: id in Final(db, ops).issued && id !in Final(db, ops).inserts
  {
    forall id | id in db.requests ensures id in Final(db, ops).issued && id !in Final(db, ops).inserts {
      RunLeaves(db, ops, id, "");
    }
  }

  // ---------------------------------------------------------------- the sweep

  /** What surrounds one batch: other work before it, the clock, cancellation, a failing statement. */
  datatype Around = Around(before: seq<Op>, now: int, cancelled: bool, fails: bool)

  /** One batch as it went: the clock, and the rows deleted with the expiries they had. */
  datatype Batch = Batch(now: int, deleted: map<string, Request>)

  function Total(batches: seq<Batch>): nat {
    if batches == [] then 0 else Total(batches[..|batches| - 1]) + |batches[|batches| - 1].deleted|
  }

  /** What a tick has done so far: before each batch what others did, and then its statement. */
  ghost function Told(others: seq<seq<Op>>, batches: seq<Batch>, batch: nat): seq<Op>
    requires |others| >= |batches|
  {
    if batches == [] then []
    else var n := |batches| - 1;
         Told(others, batches[..n], batch) + others[n] + [DeleteExpired(batches[n].now, batch, batches[n].deleted.Keys)]
  }

  /** One statement of the sweep: earliest expiries first, expired rows only; a short batch leaves none. */
  method SweepBatch(store: Store, now: int, batch: nat) returns (n: nat, ghost done: Batch)
    requires batch > 0
    modifies store
    ensures done.now == now && n == |done.deleted| <= batch
    ensures Possible(old(store.db), DeleteExpired(now, batch, done.deleted.Keys))
    ensures store.db == Apply(old(store.db), DeleteExpired(now, batch, done.deleted.Keys))
    ensures store.db == old(store.db).(requests := old(store.db.requests) - done.deleted.Keys)
    ensures forall id | id in done.deleted ::
              id in old(store.db.requests) && done.deleted[id] == old(store.db.requests[id])
                  && done.deleted[id].expires < now
    ensures n < batch ==> forall id | id in store.db.requests :: store.db.requests[id].expires >= now
    ensures forall a, b | a in done.deleted && b in store.db.requests && store.db.requests[b].expires < now ::
              done.deleted[a].expires <= store.db.requests[b].expires
  {
    ghost var before := store.db;
    ghost var ids;
    n, ids := store.DeleteExpiredRequests(now, batch);
    assert forall id | id in store.db.requests && store.db.requests[id].expires < now :: id in Expired(store.db, now);
    if n < batch { NothingLeft(before, now, batch, ids); }
    ghost var gone := map id | id in ids :: before.requests[id];
    assert gone.Keys == ids;
    done := Batch(now, gone);
  }

  /** A short batch took everything that was expired. */
  lemma NothingLeft(db: Db, now: int, batch: nat, ids: set<string>)
    requires Earliest(db, now, batch, ids) && |ids| < batch
    ensures Expired(Apply(db, DeleteExpired(now, batch, ids)), now) == {}
  {
    var all := Expired(db, now);
    assert all == ids + (all - ids) && |all| == |ids| + |all - ids|;
  }

  ghost predicate BatchOk(b: Batch, batch: nat) {
    |b.deleted| <= batch && forall id | id in b.deleted :: b.deleted[id].expires < b.now
  }

  /** sweepOnce: at most 20 batches, only of expired rows; it goes on after every full batch unless it is cancelled or a
      statement fails, and ending on a short batch, it leaves no expired row. The database is what the batches and the
      others' statements between them make of it. */
  method SweepOnce(store: Store, batch: nat, script: seq<Around>)
    returns (total: nat, ghost batches: seq<Batch>, drained: bool, ghost others: seq<seq<Op>>)
    requires batch > 0 && |script| >= 20
    modifies store
    ensures |batches| <= 20 && total == Total(batches)
    ensures !drained && |batches| < 20 ==> script[|batches|].cancelled || script[|batches|].fails
    ensures forall i | 0 <= i < |batches| ::
              !script[i].cancelled && !script[i].fails && batches[i].now == script[i].now
    ensures |batches| <= |others| <= |batches| + 1 && |others| <= |script|
    ensures forall i, op | 0 <= i < |others| && op in others[i] :: op in script[i].before
    ensures var history := Told(others, batches, batch) + if |others| > |batches| then others[|batches|] else [];
            Runs(old(store.db), history) && store.db == Final(old(store.db), history)
    ensures forall b | b in batches :: BatchOk(b, batch)
    ensures drained <==> batches != [] && |batches[|batches| - 1].deleted| < batch
    ensures drained ==> forall id | id in store.db.requests ::
              store.db.requests[id].expires >= batches[|batches| - 1].now
    ensures forall i | 0 <= i < |batches| - 1 :: |batches[i].deleted| == batch
  {
    hide Expired, Possible, Apply, Runs, Final, Told, Total;
    NothingTotalled();
    total, batches, drained, others := 0, [], false, [];
    ghost var start := store.db;
    Untold(start, batch);
    for i := 0 to MAX_BATCHES_PER_TICK
      invariant |batches| == |others| == i && total == Total(batches)
      invariant forall j, op | 0 <= j < |others| && op in others[j] :: op in script[j].before
      invariant Runs(start, Told(others, batches, batch)) && store.db == Final(start, Told(others, batches, batch))
      invariant forall j | 0 <= j < |batches| ::
          !script[j].cancelled && !script[j].fails && batches[j].now == script[j].now
      invariant forall b | b in batches :: BatchOk(b, batch)
      invariant forall j | 0 <= j < |batches| :: |batches[j].deleted| == batch
    {
      ghost var told := Told(others, batches, batch);
      ghost var meanwhile := Others(store, script[i].before, {});
      RunsOn(start, told, meanwhile);
      ToldAlike(others, others + [meanwhile], batches, batch);
      others := others + [meanwhile];
      if script[i].cancelled || script[i].fails { return; }
      var n;
      ghost var done;
      ghost var statement := store.db;
      n, done := SweepBatch(store, script[i].now, batch);
      ghost var delete := DeleteExpired(script[i].now, batch, done.deleted.Keys);
      OneStep(statement, delete);
      RunsOn(start, told + meanwhile, [delete]);
      TotalNext(batches, done);
      ToldNext(others, batches, done, batch);
      batches := batches + [done];
      total := total + n;
      drained := n < batch;
      if drained {
        NothingElse(Told(others, batches, batch));
        return;
      }
    }
    NothingElse(Told(others, batches, batch));
  }

  lemma TotalNext(batches: seq<Batch>, done: Batch)
    ensures Total(batches + [done]) == Total(batches) + |done.deleted|
  {
    assert (batches + [done])[..|batches|] == batches;
  }

  lemma NothingTotalled()
    ensures Total([]) == 0
  {
  }

  lemma NothingElse(history: seq<Op>)
    ensures history + [] == history
  {
  }

  lemma Untold(db: Db, batch: nat)
    ensures Told([], [], batch) == [] && Runs(db, []) && Final(db, []) == db
  {
  }

  lemma {:induction false} ToldAlike(a: seq<seq<Op>>, b: seq<seq<Op>>, batches: seq<Batch>, batch: nat)
    requires |batches| <= |a| <= |b| && a == b[..|a|]
    ensures Told(a, batches, batch) == Told(b, batches, batch)
  {
    if batches != [] { ToldAlike(a, b, batches[..|batches| - 1], batch); }
  }

  lemma ToldNext(others: seq<seq<Op>>, batches: seq<Batch>, done: Batch, batch: nat)
    requires |others| > |batches|
    ensures Told(others, batches + [done], batch) ==
            Told(others, batches, batch) + others[|batches|] + [DeleteExpired(done.now, batch, done.deleted.Keys)]
  {
    assert (batches + [done])[..|batches|] == batches;
  }

  /** What a sweep deletes was past its inbox's retention, as long as no change of retention was disturbed. */
  lemma SweptWereDue(ops: seq<Op>, now: int, batch: nat, ids: set<string>, id: string)
    requires Runs(EMPTY, ops) && AllClear(EMPTY, ops) && id in ids
    requires Earliest(Final(EMPTY, ops), now, batch, ids)
    ensures var db := Final(EMPTY, ops);
            && id in db.requests && db.requests[id].endpoint in db.hours
            && db.requests[id].received + db.hours[db.requests[id].endpoint] * HOUR < now
  {
    IndexedSweepIsTheJoin(ops, now);
    hide Runs, Final, AllClear;
    assert id in ExpiredByJoin(Final(EMPTY, ops), now);
  }
}
