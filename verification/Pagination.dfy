/** Keyset pagination over a table that changes between pages, and the cursor's encoding. */
module Pagination {
  import opened Text

  // ---------------------------------------------------------------- rows and their order

  /** A row's position: when it was received, and its id. */
  datatype Key = Key(at: int, id: string)

  /** The row-value comparison (received_at, id) < (received_at, id). */
  predicate Lt(a: Key, b: Key) {
    a.at < b.at || (a.at == b.at && a.id != b.id && Leq(a.id, b.id))
  }

  lemma LtTransitive(a: Key, b: Key, c: Key)
    requires Lt(a, b) && Lt(b, c)
    ensures Lt(a, c)
  {
    if a.at == b.at == c.at {
      LeqTransitive(a.id, b.id, c.id);
      if a.id == c.id { LeqAntisymmetric(a.id, b.id); }
    }
  }

  lemma LtTotal(a: Key, b: Key)
    ensures a == b || Lt(a, b) || Lt(b, a)
    ensures !(Lt(a, b) && Lt(b, a)) && !Lt(a, a)
  {
    LeqTotal(a.id, b.id);
    if Lt(a, b) && Lt(b, a) { LeqAntisymmetric(a.id, b.id); }
  }

  /** The table: each request's inbox and time, by id. */
  datatype Row = Row(endpoint: string, at: int)
  type Table = map<string, Row>

  /** The rows of an inbox below a cursor; all of them without one. */
  ghost function Matching(db: Table, endpoint: string, after: Option<Key>): set<Key> {
    set id | id in db && db[id].endpoint == endpoint && (after.Some? ==> Lt(Key(db[id].at, id), after.value))
      :: Key(db[id].at, id)
  }

  ghost predicate IsGreatest(k: Key, s: set<Key>) {
    k in s && forall other | other in s :: other == k || Lt(other, k)
  }

  lemma {:induction false} GreatestExists(s: set<Key>)
    requires s != {}
    ensures exists k :: IsGreatest(k, s)
  {
    var x :| x in s;
    if s == {x} {
      assert IsGreatest(x, s);
    } else {
      GreatestExists(s - {x});
      var rest :| IsGreatest(rest, s - {x});
      LtTotal(x, rest);
      var top := if Lt(x, rest) then rest else x;
      forall other | other in s ensures other == top || Lt(other, top) {
        if other != x && other != rest && top == x { LtTransitive(other, rest, x); }
      }
      assert IsGreatest(top, s);
    }
  }

  /** order by received_at desc, id desc limit n. */
  ghost function Top(s: set<Key>, n: nat): seq<Key>
    decreases n
  {
    if n == 0 || s == {} then [] else
      GreatestExists(s);
      var top :| IsGreatest(top, s);
      [top] + Top(s - {top}, n - 1)
  }

  ghost predicate Descending(ks: seq<Key>) {
    forall i, j :: 0 <= i < j < |ks| ==> Lt(ks[j], ks[i])
  }

  lemma {:induction false} TopMembers(s: set<Key>, n: nat)
    ensures forall k | k in Top(s, n) :: k in s
    ensures Descending(Top(s, n)) && |Top(s, n)| == (if n <= |s| then n else |s|)
    ensures forall k, t | k in s && k !in Top(s, n) && t in Top(s, n) :: Lt(k, t)
    decreases n
  {
    if n > 0 && s != {} {
      var top := Top(s, n)[0];
      assert IsGreatest(top, s);
      TopMembers(s - {top}, n - 1);
      assert Top(s, n) == [top] + Top(s - {top}, n - 1);
    }
  }

  /** Cutting a longer answer short is asking for fewer rows. */
  lemma {:induction false} TopAll(s: set<Key>, n: nat)
    requires n >= |s|
    ensures forall k | k in s :: k in Top(s, n)
    decreases n
  {
    if n > 0 && s != {} {
      var top := Top(s, n)[0];
      assert IsGreatest(top, s);
      TopAll(s - {top}, n - 1);
      assert Top(s, n) == [top] + Top(s - {top}, n - 1);
    }
  }

  // ---------------------------------------------------------------- one page

  const DEFAULT_LIMIT: int := 50
  const MAX_LIMIT: int := 200

  function EffectiveLimit(limit: int): nat {
    if limit <= 0 || limit > MAX_LIMIT then DEFAULT_LIMIT else limit
  }

  datatype Page = Page(requests: seq<Key>, next: Option<Key>)

  ghost function PageOf(db: Table, endpoint: string, limit: nat, after: Option<Key>): Page
    requires limit > 0
  {
    var rows := Top(Matching(db, endpoint, after), limit + 1);
    if |rows| > limit then Page(rows[..limit], Some(rows[limit - 1])) else Page(rows, None)
  }

  /** ListRequests, given the driver's rows for its query. */
  method ListRequests(rows: seq<Key>, limit: int, ghost db: Table, ghost endpoint: string, ghost after: Option<Key>)
    returns (page: Page)
    requires rows == Top(Matching(db, endpoint, after), EffectiveLimit(limit) + 1)
    ensures page == PageOf(db, endpoint, EffectiveLimit(limit), after)
    ensures OnTheTable(page, db, endpoint, if 1 <= limit <= 200 then limit else 50, after)
  {
    hide Top, Matching, OnTheTable;
    var size := limit;
    if limit <= 0 || limit > MAX_LIMIT { size := DEFAULT_LIMIT; }
    var out: seq<Key> := [];
    for i := 0 to |rows|
      invariant out == rows[..i]
    {
      out := out + [rows[i]];
    }
    assert out == rows;
    page := Page(out, None);
    if |out| > size {
      var requests := out[..size];
      var last := requests[size - 1];
      page := Page(requests, Some(last));
    }
    assert page == PageOf(db, endpoint, EffectiveLimit(limit), after);
    hide PageOf;
    PageOnTheTable(db, endpoint, EffectiveLimit(limit), after);
  }

  /** A page holds the greatest rows below the cursor, in order; it offers a cursor exactly when there were more, and
      then its own last row. */
  lemma PageIsTop(db: Table, endpoint: string, limit: nat, after: Option<Key>)
    requires limit > 0
    ensures var page, s := PageOf(db, endpoint, limit, after), Matching(db, endpoint, after);
            && Descending(page.requests)
            && (forall k | k in page.requests :: k in s)
            && (page.next.Some? <==> |s| > limit)
            && (page.next.None? ==> forall k | k in s :: k in page.requests)
            && (page.next.Some? ==> |page.requests| == limit && page.next.value == page.requests[limit - 1])
            && (page.next.Some? ==> forall k | k in s :: k in page.requests || Lt(k, page.next.value))
            && (page.next.Some? ==> forall k | k in page.requests :: k == page.next.value || Lt(page.next.value, k))
  {
    var s := Matching(db, endpoint, after);
    var rows := Top(s, limit + 1);
    var page := PageOf(db, endpoint, limit, after);
    TopMembers(s, limit + 1);
    if |rows| > limit {
      forall k | k in s ensures k in page.requests || Lt(k, page.next.value) {
        if k in rows {
          var i :| 0 <= i < |rows| && rows[i] == k;
          assert i < limit ==> page.requests[i] == k;
        }
      }
    } else {
      TopAll(s, limit + 1);
    }
  }

  /** Older than the cursor, or as old with an id that comes first. */
  predicate Below(at: int, id: string, after: Option<Key>) {
    after.Some? ==> at < after.value.at || (at == after.value.at && id != after.value.id && Leq(id, after.value.id))
  }

  /** What a page is, read off the table: rows of this inbox below the cursor, newest first and at one time the greater
      ids first, as many as the limit allows, and fewer only when there are no more; without a cursor to go on, all of
      them. */
  ghost predicate OnTheTable(page: Page, db: Table, endpoint: string, limit: int, after: Option<Key>) {
    && (forall k | k in page.requests :: k.id in db && db[k.id] == Row(endpoint, k.at) && Below(k.at, k.id, after))
    && (forall i, j :: 0 <= i < j < |page.requests| ==>
          || page.requests[i].at > page.requests[j].at
          || (page.requests[i].at == page.requests[j].at && page.requests[i].id != page.requests[j].id
              && Leq(page.requests[j].id, page.requests[i].id)))
    && |page.requests| <= limit
    && (page.next.None? ==> forall id | id in db && db[id].endpoint == endpoint && Below(db[id].at, id, after) ::
          Key(db[id].at, id) in page.requests)
    && (page.next.Some? ==> |page.requests| == limit > 0 && page.requests[limit - 1] == page.next.value)
    && (page.next.Some? ==> exists id :: id in db && db[id].endpoint == endpoint && Below(db[id].at, id, after)
                                         && Key(db[id].at, id) !in page.requests)
  }

  lemma PageOnTheTable(db: Table, endpoint: string, limit: nat, after: Option<Key>)
    requires limit > 0
    ensures OnTheTable(PageOf(db, endpoint, limit, after), db, endpoint, limit, after)
  {
    var page, s := PageOf(db, endpoint, limit, after), Matching(db, endpoint, after);
    PageIsTop(db, endpoint, limit, after);
    MatchingOnTheTable(db, endpoint, after);
    if page.next.Some? {
      MoreThanAPage(page.requests, s, limit);
      hide PageOf, Matching;
      var k :| k in s && k !in page.requests;
      assert k.id in db && Key(db[k.id].at, k.id) == k;
    }
    hide PageOf, Matching;
  }

  lemma MatchingOnTheTable(db: Table, endpoint: string, after: Option<Key>)
    ensures forall k :: k in Matching(db, endpoint, after) <==>
              k.id in db && db[k.id] == Row(endpoint, k.at) && Below(k.at, k.id, after)
  {
  }

  lemma MoreThanAPage(ks: seq<Key>, s: set<Key>, limit: nat)
    requires |ks| == limit < |s|
    ensures exists k :: k in s && k !in ks
  {
    if forall k | k in s :: k in ks {
      assert s <= Elements(ks);
      SubsetCardinality(s, Elements(ks));
      ElementsAtMost(ks);
      assert false;
    }
  }

  lemma {:induction false} ElementsAtMost(ks: seq<Key>)
    ensures |Elements(ks)| <= |ks|
  {
    if ks != [] {
      ElementsAtMost(ks[..|ks| - 1]);
      assert Elements(ks) == Elements(ks[..|ks| - 1]) + {ks[|ks| - 1]};
    }
  }

  // ---------------------------------------------------------------- a walk

  /** The rows a reader collects, following cursors, when the table reads dbs[0], dbs[1], ... at each page. */
  ghost function Walk(dbs: seq<Table>, endpoint: string, limit: nat, after: Option<Key>): seq<Key>
    requires limit > 0
  {
    if dbs == [] then [] else
      var page := PageOf(dbs[0], endpoint, limit, after);
      page.requests + if page.next.None? then [] else Walk(dbs[1..], endpoint, limit, page.next)
  }

  /** The walk comes to a page without a cursor. */
  ghost predicate Ends(dbs: seq<Table>, endpoint: string, limit: nat, after: Option<Key>)
    requires limit > 0
  {
    dbs != [] &&
    var page := PageOf(dbs[0], endpoint, limit, after);
    page.next.None? || Ends(dbs[1..], endpoint, limit, page.next)
  }

  lemma MatchingBelow(db: Table, endpoint: string, after: Option<Key>, k: Key)
    requires k in Matching(db, endpoint, after)
    ensures after.Some? ==> Lt(k, after.value)
  {
  }

  /** Whatever is inserted or deleted between pages, a walk goes strictly down: no row comes twice. */
  lemma {:induction false} WalkDescends(dbs: seq<Table>, endpoint: string, limit: nat, after: Option<Key>)
    requires limit > 0
    ensures Descending(Walk(dbs, endpoint, limit, after))
    ensures after.Some? ==> forall k | k in Walk(dbs, endpoint, limit, after) :: Lt(k, after.value)
    decreases |dbs|
  {
    if dbs != [] {
      var page := PageOf(dbs[0], endpoint, limit, after);
      PageIsTop(dbs[0], endpoint, limit, after);
      hide PageOf, Matching;
      forall k | k in page.requests && after.Some? ensures Lt(k, after.value) {
        MatchingBelow(dbs[0], endpoint, after, k);
      }
      if page.next.Some? {
        var rest := Walk(dbs[1..], endpoint, limit, page.next);
        WalkDescends(dbs[1..], endpoint, limit, page.next);
        assert page.next.value in page.requests;
        forall k, t | k in rest && t in page.requests ensures Lt(k, t) {
          if t != page.next.value { LtTransitive(k, page.next.value, t); }
        }
        forall k | k in rest && after.Some? ensures Lt(k, after.value) {
          LtTransitive(k, page.next.value, after.value);
        }
      }
    }
  }

  /** A finished walk has every row that was there throughout. */
  lemma {:induction false} WalkIsComplete(dbs: seq<Table>, endpoint: string, limit: nat, after: Option<Key>, k: Key)
    requires limit > 0 && Ends(dbs, endpoint, limit, after)
    requires forall db | db in dbs :: k in Matching(db, endpoint, after)
    ensures k in Walk(dbs, endpoint, limit, after)
    decreases |dbs|
  {
    var page := PageOf(dbs[0], endpoint, limit, after);
    PageIsTop(dbs[0], endpoint, limit, after);
    if page.next.Some? && k !in page.requests {
      forall db | db in dbs[1..] ensures k in Matching(db, endpoint, page.next) {
        assert db in dbs && k in Matching(db, endpoint, after);
      }
      WalkIsComplete(dbs[1..], endpoint, limit, page.next, k);
    }
  }

  /** Between pages, nothing is inserted below the cursor just handed out. */
  ghost predicate InsertsLandAbove(dbs: seq<Table>, endpoint: string, limit: nat, after: Option<Key>)
    requires limit > 0
  {
    |dbs| <= 1 ||
    var next := PageOf(dbs[0], endpoint, limit, after).next;
    next.None? ||
    (Matching(dbs[1], endpoint, next) <= Matching(dbs[0], endpoint, next)
        && InsertsLandAbove(dbs[1..], endpoint, limit, next))
  }

  lemma PageLeaves(db: Table, endpoint: string, limit: nat, after: Option<Key>)
    requires limit > 0 && PageOf(db, endpoint, limit, after).next.Some?
    ensures var page := PageOf(db, endpoint, limit, after);
            |Matching(db, endpoint, page.next)| <= |Matching(db, endpoint, after)| - limit
  {
    var page, s := PageOf(db, endpoint, limit, after), Matching(db, endpoint, after);
    PageIsTop(db, endpoint, limit, after);
    var taken, left := Elements(page.requests), Matching(db, endpoint, page.next);
    forall i, j | 0 <= i < j < |page.requests| ensures page.requests[i] != page.requests[j] {
      LtTotal(page.requests[i], page.requests[j]);
    }
    DistinctCardinality(page.requests);
    forall k | k in left ensures k in s - taken {
      if after.Some? {
        MatchingBelow(db, endpoint, after, page.next.value);
        LtTransitive(k, page.next.value, after.value);
      }
      LtTotal(k, page.next.value);
    }
    assert taken <= s;
    SubsetCardinality(left, s - taken);
    assert |s| == |taken| + |s - taken| by { assert s == taken + (s - taken); }
  }

  /** A walk below which nothing is inserted ends, in no more pages than its rows fill. */
  lemma {:induction false} WalkEnds(dbs: seq<Table>, endpoint: string, limit: nat, after: Option<Key>)
    requires limit > 0 && dbs != [] && InsertsLandAbove(dbs, endpoint, limit, after)
    requires |Matching(dbs[0], endpoint, after)| <= |dbs| * limit
    ensures Ends(dbs, endpoint, limit, after)
    decreases |dbs|
  {
    var page := PageOf(dbs[0], endpoint, limit, after);
    PageIsTop(dbs[0], endpoint, limit, after);
    if page.next.Some? {
      PageLeaves(dbs[0], endpoint, limit, after);
      assert |dbs| > 1;
      SubsetCardinality(Matching(dbs[1], endpoint, page.next), Matching(dbs[0], endpoint, page.next));
      assert (|dbs| - 1) * limit == |dbs| * limit - limit;
      WalkEnds(dbs[1..], endpoint, limit, page.next);
    }
  }

  // ---------------------------------------------------------------- the cursor as text

  /** The library's time format and base64, as far as they matter here. */
  datatype Codec = Codec(format: int -> string, parse: string -> Option<int>,
                         encode: string -> string, decode: string -> Option<string>)

  ghost predicate Lawful(c: Codec) {
    && (forall t :: '|' !in c.format(t) && c.parse(c.format(t)) == Some(t))
    && (forall s :: c.decode(c.encode(s)) == Some(s))
  }

  function CursorString(c: Codec, k: Key): string {
    c.encode(c.format(k.at) + "|" + k.id)
  }

  function ParseCursor(c: Codec, s: string): Option<Key> {
    var raw := c.decode(s);
    if raw.None? then None else
      var bar := IndexOf(raw.value, '|');
      if bar.None? || raw.value[bar.value + 1..] == "" then None else
        var at := c.parse(raw.value[..bar.value]);
        if at.None? then None else Some(Key(at.value, raw.value[bar.value + 1..]))
  }

  /** What a text reads as, the text of any client: a time, a bar that is the first, and an id that is not empty. */
  lemma CursorReadsIff(c: Codec, s: string, k: Key)
    ensures ParseCursor(c, s) == Some(k) <==>
              exists time :: c.decode(s) == Some(time + "|" + k.id) && '|' !in time && c.parse(time) == Some(k.at)
                             && k.id != ""
  {
    if ParseCursor(c, s) == Some(k) {
      var raw := c.decode(s).value;
      var bar := IndexOf(raw, '|').value;
      assert raw == raw[..bar] + "|" + k.id;
    }
    if time :| c.decode(s) == Some(time + "|" + k.id) && '|' !in time && c.parse(time) == Some(k.at) && k.id != "" {
      var raw := time + "|" + k.id;
      assert raw[..|time|] == time && raw[|time| + 1..] == k.id;
      IndexIsFirst(raw, '|', |time|);
    }
  }

  /** A cursor reads back as itself exactly when its id is not empty. */
  lemma CursorRoundTripIff(c: Codec, k: Key)
    requires Lawful(c)
    ensures ParseCursor(c, CursorString(c, k)) == Some(k) <==> k.id != ""
  {
    var time := c.format(k.at);
    var raw := time + "|" + k.id;
    assert raw[..|time|] == time && raw[|time| + 1..] == k.id;
    IndexIsFirst(raw, '|', |time|);
  }
}
