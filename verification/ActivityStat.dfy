/** Batches of activity messages folded into last-visited times per realm and per session.
    mrauth/usecase/auth/user_statistic.go, mrauth/repository/user_activity_stat_postgres.go,
    mrauth/repository/session_postgres.go */
module ActivityStat {

  datatype Message = Message(user: nat, realm: nat, session: nat, visited: int, ip: nat)

  /** A user with one of the user's realms, or with one of the user's sessions. */
  type Key = (nat, nat)

  type Times = map<Key, int>

  datatype Grouping = ByRealm | BySession

  datatype Row = Row(key: Key, visited: int, ip: nat)

  function KeyOf(m: Message, g: Grouping): Key {
    (m.user, if g.ByRealm? then m.realm else m.session)
  }

  /** Zero means that the realm, or the session, is unknown. */
  predicate HasKey(m: Message, g: Grouping) {
    KeyOf(m, g).1 != 0
  }

  function Max(a: int, b: int): int {
    if a < b then b else a
  }

  // ---------- what a batch says, without sorting or skipping ----------

  function Note(t: Times, m: Message, g: Grouping): Times {
    if !HasKey(m, g) then t
    else
      var k := KeyOf(m, g);
      t[k := if k in t then Max(t[k], m.visited) else m.visited]
  }

  /** The latest visit of every key. */
  function Latest(ms: seq<Message>, g: Grouping): Times {
    if ms == [] then map[] else Note(Latest(ms[..|ms| - 1], g), ms[|ms| - 1], g)
  }

  ghost predicate Visits(ms: seq<Message>, g: Grouping, k: Key, at: int) {
    exists i :: 0 <= i < |ms| && HasKey(ms[i], g) && KeyOf(ms[i], g) == k && ms[i].visited == at
  }

  lemma {:induction false} LatestIsMax(ms: seq<Message>, g: Grouping, k: Key)
    ensures k in Latest(ms, g) <==> exists i :: 0 <= i < |ms| && HasKey(ms[i], g) && KeyOf(ms[i], g) == k
    ensures k in Latest(ms, g) ==> Visits(ms, g, k, Latest(ms, g)[k])
    ensures forall i :: 0 <= i < |ms| && HasKey(ms[i], g) && KeyOf(ms[i], g) == k ==> ms[i].visited <= Latest(ms, g)[k]
  {
    if ms != [] {
      var front, m := ms[..|ms| - 1], ms[|ms| - 1];
      LatestIsMax(front, g, k);
      if k in Latest(front, g) {
        var i :| 0 <= i < |front| && HasKey(front[i], g) && KeyOf(front[i], g) == k
          && front[i].visited == Latest(front, g)[k];
        assert ms[i] == front[i];
      }
      assert forall i :: 0 <= i < |front| ==> front[i] == ms[i];
    }
  }

  /** The latest visits depend on which messages there are, not on their order. */
  lemma LatestOfPermutation(a: seq<Message>, b: seq<Message>, g: Grouping)
    requires multiset(a) == multiset(b)
    ensures Latest(a, g) == Latest(b, g)
  {
    LatestBelow(a, b, g);
    LatestBelow(b, a, g);
  }

  lemma LatestBelow(a: seq<Message>, b: seq<Message>, g: Grouping)
    requires forall m :: m in multiset(a) ==> m in multiset(b)
    ensures forall k :: k in Latest(a, g) ==> k in Latest(b, g) && Latest(a, g)[k] <= Latest(b, g)[k]
  {
    forall k | k in Latest(a, g)
      ensures k in Latest(b, g) && Latest(a, g)[k] <= Latest(b, g)[k]
    {
      LatestIsMax(a, g, k);
      LatestIsMax(b, g, k);
      var i :| 0 <= i < |a| && HasKey(a[i], g) && KeyOf(a[i], g) == k && a[i].visited == Latest(a, g)[k];
      assert a[i] in multiset(a) && a[i] in b;
    }
  }

  function Merge(a: Times, b: Times): Times {
    map k | k in a.Keys + b.Keys :: if k !in b then a[k] else if k !in a then b[k] else Max(a[k], b[k])
  }

  lemma NoteLast(a: Times, b: Times, m: Message, g: Grouping)
    ensures Note(Merge(a, b), m, g) == Merge(a, Note(b, m, g))
  {
  }

  lemma {:induction false} LatestOfBoth(a: seq<Message>, b: seq<Message>, g: Grouping)
    ensures Latest(a + b, g) == Merge(Latest(a, g), Latest(b, g))
  {
    if b == [] {
      assert a + b == a;
      assert Merge(Latest(a, g), map[]) == Latest(a, g);
    } else {
      var n := |b| - 1;
      assert (a + b)[..|a + b| - 1] == a + b[..n];
      hide Note, Merge;
      LatestOfBoth(a, b[..n], g);
      NoteLast(Latest(a, g), Latest(b[..n], g), b[n], g);
    }
  }

  // ---------- sorting ----------

  /** By user, then realm, then the latest visit first. */
  predicate Before(a: Message, b: Message) {
    a.user < b.user || (a.user == b.user && (a.realm < b.realm || (a.realm == b.realm && a.visited >= b.visited)))
  }

  ghost predicate Sorted(ms: seq<Message>) {
    forall i, j :: 0 <= i < j < |ms| ==> Before(ms[i], ms[j])
  }

  ghost predicate Permutes(a: seq<Message>, b: seq<Message>) {
    multiset(a) == multiset(b)
  }

  /** Any algorithm will do; this one inserts each message into the sorted part before it. */
  method SortInPlace(ms: array<Message>)
    modifies ms
    ensures Sorted(ms[..]) && Permutes(ms[..], old(ms[..]))
  {
    for n := 0 to ms.Length
      invariant Sorted(ms[..n]) && Permutes(ms[..], old(ms[..]))
    {
      Insert(ms, n);
    }
    assert ms[..ms.Length] == ms[..];
  }

  method Insert(ms: array<Message>, n: nat)
    requires n < ms.Length && Sorted(ms[..n])
    modifies ms
    ensures Sorted(ms[..n + 1]) && Permutes(ms[..], old(ms[..]))
  {
    var k := n;
    while k > 0 && !Before(ms[k - 1], ms[k])
      invariant 0 <= k <= n
      invariant SortedBut(ms[..n + 1], k)
      invariant Permutes(ms[..], old(ms[..]))
    {
      SwapSorted(ms[..n + 1], k);
      ms[k - 1], ms[k] := ms[k], ms[k - 1];
      k := k - 1;
    }
    SortedAll(ms[..n + 1], k);
  }

  /** Sorted, except that element k may belong before its place. */
  ghost predicate SortedBut(ms: seq<Message>, k: nat) {
    forall i, j :: 0 <= i < j < |ms| && j != k ==> Before(ms[i], ms[j])
  }

  lemma SwapSorted(ms: seq<Message>, k: nat)
    requires 0 < k < |ms| && SortedBut(ms, k) && !Before(ms[k - 1], ms[k])
    ensures SortedBut(ms[k - 1 := ms[k]][k := ms[k - 1]], k - 1)
  {
  }

  lemma SortedAll(ms: seq<Message>, k: nat)
    requires k < |ms| && SortedBut(ms, k) && (k > 0 ==> Before(ms[k - 1], ms[k]))
    ensures Sorted(ms)
  {
  }

  // ---------- the fold ----------

  function Keys(rows: seq<Row>): set<Key> {
    set i | 0 <= i < |rows| :: rows[i].key
  }

  ghost predicate OneEach(rows: seq<Row>) {
    forall i, j :: 0 <= i < j < |rows| ==> rows[i].key != rows[j].key
  }

  /** The rows are the map: one row per key, with its time. */
  ghost predicate Tabulates(rows: seq<Row>, t: Times) {
    && OneEach(rows)
    && (forall i :: 0 <= i < |rows| ==> rows[i].key in t && rows[i].visited == t[rows[i].key])
    && (forall k :: k in t ==> exists i :: 0 <= i < |rows| && rows[i].key == k)
  }

  lemma TabulatesMore(rows: seq<Row>, t: Times, r: Row)
    requires Tabulates(rows, t) && r.key !in t
    ensures Tabulates(rows + [r], t[r.key := r.visited])
  {
    var more, u := rows + [r], t[r.key := r.visited];
    forall k | k in u
      ensures exists i :: 0 <= i < |more| && more[i].key == k
    {
      if k == r.key {
        assert more[|rows|].key == k;
      } else {
        var i :| 0 <= i < |rows| && rows[i].key == k;
        assert more[i].key == k;
      }
    }
  }

  /** The first message of each group of equal (user, realm) in sorted order is its latest. */
  method RealmRows(ms: seq<Message>) returns (stat: seq<Row>)
    requires Sorted(ms)
    ensures Tabulates(stat, Latest(ms, ByRealm))
  {
    hide Tabulates;
    stat := [];
    ghost var first: nat := 0;
    NothingTabulated();
    for i := 0 to |ms|
      invariant Tabulates(stat, Latest(ms[..i], ByRealm))
      invariant stat == [] ==> forall j :: 0 <= j < i ==> !HasKey(ms[j], ByRealm)
      invariant stat != [] ==> LastGroup(ms, i, first, stat[|stat| - 1])
    {
      assert ms[..i + 1][..i] == ms[..i] && ms[..i + 1][i] == ms[i];
      if ms[i].realm == 0 {
        continue;
      }
      if |stat| > 0 {
        var last := stat[|stat| - 1];
        if KeyOf(ms[i], ByRealm) == last.key {
          RepeatsLast(ms, i, first, last);
          continue;
        }
        BeyondLast(ms, i, first, last);
      } else {
        LatestIsMax(ms[..i], ByRealm, KeyOf(ms[i], ByRealm));
      }
      TabulatesMore(stat, Latest(ms[..i], ByRealm), Row(KeyOf(ms[i], ByRealm), ms[i].visited, ms[i].ip));
      stat := stat + [Row(KeyOf(ms[i], ByRealm), ms[i].visited, ms[i].ip)];
      first := i;
    }
    assert ms[..|ms|] == ms;
  }

  lemma NothingTabulated()
    ensures Tabulates([], map[])
  {
  }

  /** The last row comes from message j, the first of the last group with a realm. */
  ghost predicate LastGroup(ms: seq<Message>, i: nat, j: nat, last: Row) {
    && j < i <= |ms| && HasKey(ms[j], ByRealm) && last == Row(KeyOf(ms[j], ByRealm), ms[j].visited, ms[j].ip)
    && forall k :: j < k < i && HasKey(ms[k], ByRealm) ==> KeyOf(ms[k], ByRealm) == last.key
  }

  lemma RepeatsLast(ms: seq<Message>, i: nat, j: nat, last: Row)
    requires Sorted(ms) && i < |ms| && LastGroup(ms, i, j, last)
    requires HasKey(ms[i], ByRealm) && KeyOf(ms[i], ByRealm) == last.key
    ensures Note(Latest(ms[..i], ByRealm), ms[i], ByRealm) == Latest(ms[..i], ByRealm)
  {
    LatestIsMax(ms[..i], ByRealm, last.key);
    assert ms[..i][j] == ms[j] && Before(ms[j], ms[i]);
  }

  lemma BeyondLast(ms: seq<Message>, i: nat, j: nat, last: Row)
    requires Sorted(ms) && i < |ms| && LastGroup(ms, i, j, last)
    requires HasKey(ms[i], ByRealm) && KeyOf(ms[i], ByRealm) != last.key
    ensures KeyOf(ms[i], ByRealm) !in Latest(ms[..i], ByRealm)
  {
    LatestIsMax(ms[..i], ByRealm, KeyOf(ms[i], ByRealm));
    forall k | 0 <= k < i && HasKey(ms[k], ByRealm)
      ensures KeyOf(ms[k], ByRealm) != KeyOf(ms[i], ByRealm)
    {
      assert Before(ms[j], ms[i]);
      if k < j { assert Before(ms[k], ms[j]); }
    }
  }

  /** Per session the latest visit and the address it came from, in a map and in any order. */
  method SessionRows(ms: seq<Message>) returns (latest: map<Key, Row>)
    ensures latest.Keys == Latest(ms, BySession).Keys
    ensures forall k :: k in latest ==> latest[k].key == k && latest[k].visited == Latest(ms, BySession)[k]
    ensures forall k :: k in latest ==>
              exists i :: 0 <= i < |ms| && HasKey(ms[i], BySession)
                          && latest[k] == Row(KeyOf(ms[i], BySession), ms[i].visited, ms[i].ip)
  {
    latest := map[];
    for i := 0 to |ms|
      invariant latest.Keys == Latest(ms[..i], BySession).Keys
      invariant forall k :: k in latest ==> latest[k].key == k && latest[k].visited == Latest(ms[..i], BySession)[k]
      invariant forall k :: k in latest ==>
                  exists j :: 0 <= j < i && HasKey(ms[j], BySession)
                              && latest[k] == Row(KeyOf(ms[j], BySession), ms[j].visited, ms[j].ip)
    {
      assert ms[..i + 1][..i] == ms[..i] && ms[..i + 1][i] == ms[i];
      var m := ms[i];
      if m.session == 0 { continue; }
      var key := KeyOf(m, BySession);
      if key in latest && m.visited <= latest[key].visited { continue; }
      latest := latest[key := Row(key, m.visited, m.ip)];
    }
    assert ms[..|ms|] == ms;
  }

  // ---------- the tables ----------

  /** GREATEST on the rows that exist; a batch adds none. */
  function Updated(table: Times, t: Times): Times {
    map k | k in table :: if k in t then Max(table[k], t[k]) else table[k]
  }

  class StatTable {
    var rows: Times

    method UpdateLastVisited(batch: seq<Row>, ghost t: Times) returns (any: bool)
      requires Tabulates(batch, t)
      modifies this
      ensures rows == Updated(old(rows), t)
      ensures any <==> exists k :: k in t && k in old(rows)
    {
      ghost var was := rows;
      any := false;
      for i := 0 to |batch|
        invariant rows.Keys == was.Keys
        invariant forall j :: 0 <= j < i && batch[j].key in was ==>
                  rows[batch[j].key] == Max(was[batch[j].key], batch[j].visited)
        invariant forall k :: k in was && (forall j :: 0 <= j < i ==> batch[j].key != k) ==> rows[k] == was[k]
        invariant any <==> exists j :: 0 <= j < i && batch[j].key in was
      {
        var r := batch[i];
        if r.key in rows {
          rows := rows[r.key := Max(rows[r.key], r.visited)];
          any := true;
        }
      }
    }
  }

  /** A session row: when it was last visited, and the address that visit came from. */
  datatype Activity = Activity(at: int, ip: nat)

  function TimesOf(rows: map<Key, Activity>): Times {
    map k | k in rows :: rows[k].at
  }

  class SessionTable {
    var rows: map<Key, Activity>

    /** The greater time wins, and brings its address along. Sessions that are gone are ignored, but a
        batch of nothing else is an error. */
    method UpdateLastActivity(batch: map<Key, Row>, ghost t: Times) returns (ok: bool)
      requires batch.Keys == t.Keys && forall k :: k in batch ==> batch[k].visited == t[k]
      modifies this
      ensures ok <==> batch == map[] || exists k :: k in batch && k in old(rows)
      ensures rows.Keys == old(rows).Keys && TimesOf(rows) == Updated(TimesOf(old(rows)), t)
      ensures forall k :: k in rows ==>
                rows[k].ip == if k in batch && batch[k].visited >= old(rows)[k].at then batch[k].ip else old(rows)[k].ip
    {
      ok := batch == map[] || exists k :: k in batch && k in rows;
      rows := map k | k in rows ::
        if k in batch then
          Activity(Max(rows[k].at, batch[k].visited),
            if batch[k].visited >= rows[k].at then batch[k].ip else rows[k].ip)
        else rows[k];
    }
  }

  class ActivityLog {
    var entries: multiset<Message>

    method Insert(messages: seq<Message>)
      modifies this
      ensures entries == old(entries) + multiset(messages)
    {
      entries := entries + multiset(messages);
    }
  }

  /** Splitting a batch, or processing the parts in the other order, gives the same times. */
  lemma TwoBatches(table: Times, a: seq<Message>, b: seq<Message>, g: Grouping)
    ensures Updated(Updated(table, Latest(a, g)), Latest(b, g)) == Updated(table, Latest(a + b, g))
  {
    LatestOfBoth(a, b, g);
    UpdatedTwice(table, Latest(a, g), Latest(b, g));
  }

  lemma UpdatedTwice(table: Times, t: Times, u: Times)
    ensures Updated(Updated(table, t), u) == Updated(table, Merge(t, u))
  {
  }

  /** All messages of the batches, one batch after the other. */
  function Flat(batches: seq<seq<Message>>): seq<Message> {
    if batches == [] then [] else Flat(batches[..|batches| - 1]) + batches[|batches| - 1]
  }

  /** The stored times after every batch was processed. */
  function UpdatedByAll(table: Times, batches: seq<seq<Message>>, g: Grouping): Times {
    if batches == [] then table
    else Updated(UpdatedByAll(table, batches[..|batches| - 1], g), Latest(batches[|batches| - 1], g))
  }

  /** Any number of batches store what one batch of all their messages stores. */
  lemma {:induction false} AllInOneBatch(table: Times, batches: seq<seq<Message>>, g: Grouping)
    ensures UpdatedByAll(table, batches, g) == Updated(table, Latest(Flat(batches), g))
  {
    if batches == [] {
      assert Updated(table, map[]) == table;
    } else {
      var front, last := batches[..|batches| - 1], batches[|batches| - 1];
      AllInOneBatch(table, front, g);
      TwoBatches(table, Flat(front), last, g);
    }
  }

  /** The stored times depend on which messages came, not on how these were split into batches, nor on
      the order of the batches or of the messages within them. */
  lemma BatchesDoNotMatter(table: Times, a: seq<seq<Message>>, b: seq<seq<Message>>, g: Grouping)
    requires multiset(Flat(a)) == multiset(Flat(b))
    ensures UpdatedByAll(table, a, g) == UpdatedByAll(table, b, g)
  {
    AllInOneBatch(table, a, g);
    AllInOneBatch(table, b, g);
    LatestOfPermutation(Flat(a), Flat(b), g);
  }

  // ---------- the use case ----------

  /** The batch names no session, or one that is still there. */
  predicate Accepted(known: set<Key>, ms: seq<Message>) {
    Latest(ms, BySession) == map[] || exists k :: k in Latest(ms, BySession) && k in known
  }

  /** The times of the two tables. */
  datatype Tables = Tables(sessions: Times, stats: Times)

  /** A batch that is not accepted stops before the statistics. */
  function Executed(t: Tables, ms: seq<Message>): Tables {
    Tables(Updated(t.sessions, Latest(ms, BySession)),
           if Accepted(t.sessions.Keys, ms) then Updated(t.stats, Latest(ms, ByRealm)) else t.stats)
  }

  /** UserStatistic.Execute: whatever order the messages come in, the sessions take the latest visits of
      the batch; if any of them was there, so do the statistics, and the log takes every message. */
  method Execute(messages: array<Message>, sessions: SessionTable, stats: StatTable, log: ActivityLog)
    returns (ok: bool)
    modifies messages, sessions, stats, log
    ensures Permutes(messages[..], old(messages[..]))
    ensures ok <==> Accepted(old(sessions.rows).Keys, old(messages[..]))
    ensures Tables(TimesOf(sessions.rows), stats.rows)
         == Executed(Tables(TimesOf(old(sessions.rows)), old(stats.rows)), old(messages[..]))
    ensures log.entries == if ok then old(log.entries) + multiset(old(messages[..])) else old(log.entries)
  {
    if messages.Length == 0 {
      NothingUpdated(TimesOf(sessions.rows));
      NothingUpdated(stats.rows);
      assert messages[..] == [];
      return true;
    }
    hide Sorted, Permutes, Tabulates, Latest, Updated;
    SortInPlace(messages);
    var stat := RealmRows(messages[..]);
    var latest := SessionRows(messages[..]);
    SameLatest(messages[..], old(messages[..]));
    ok := sessions.UpdateLastActivity(latest, Latest(messages[..], BySession));
    if !ok { return; }
    var any := stats.UpdateLastVisited(stat, Latest(messages[..], ByRealm));
    log.Insert(messages[..]);
  }

  lemma SameLatest(a: seq<Message>, b: seq<Message>)
    requires Permutes(a, b)
    ensures Latest(a, ByRealm) == Latest(b, ByRealm) && Latest(a, BySession) == Latest(b, BySession)
  {
    LatestOfPermutation(a, b, ByRealm);
    LatestOfPermutation(a, b, BySession);
  }

  lemma NothingUpdated(table: Times)
    ensures Updated(table, Latest([], ByRealm)) == table == Updated(table, Latest([], BySession))
  {
  }

  function ExecutedAll(t: Tables, batches: seq<seq<Message>>): Tables {
    if batches == [] then t else Executed(ExecutedAll(t, batches[..|batches| - 1]), batches[|batches| - 1])
  }

  /** The accepted batches, or the refused ones. */
  function Those(known: set<Key>, batches: seq<seq<Message>>, accepted: bool): seq<seq<Message>> {
    if batches == [] then []
    else
      var last := batches[|batches| - 1];
      Those(known, batches[..|batches| - 1], accepted) + if Accepted(known, last) == accepted then [last] else []
  }

  lemma MoreBatches(table: Times, batches: seq<seq<Message>>, last: seq<Message>, g: Grouping)
    ensures UpdatedByAll(table, batches + [last], g) == Updated(UpdatedByAll(table, batches, g), Latest(last, g))
    ensures Flat(batches + [last]) == Flat(batches) + last
  {
    assert (batches + [last])[..|batches|] == batches;
  }

  /** The sessions take every batch; the statistics take exactly the batches that are accepted. */
  lemma {:induction false} ExecutedIsUpdated(t: Tables, batches: seq<seq<Message>>)
    ensures ExecutedAll(t, batches).sessions == UpdatedByAll(t.sessions, batches, BySession)
    ensures ExecutedAll(t, batches).sessions.Keys == t.sessions.Keys
    ensures ExecutedAll(t, batches).stats == UpdatedByAll(t.stats, Those(t.sessions.Keys, batches, true), ByRealm)
  {
    if batches != [] {
      var front, last := batches[..|batches| - 1], batches[|batches| - 1];
      ExecutedIsUpdated(t, front);
      var taken := Those(t.sessions.Keys, front, true);
      MoreBatches(t.stats, taken, last, ByRealm);
      assert taken + [] == taken;
    }
  }

  /** However the same messages are split and ordered, the sessions end up the same; and so do the
      statistics whenever the accepted batches hold the same messages, as when none is refused. */
  lemma SplitsAgree(t: Tables, a: seq<seq<Message>>, b: seq<seq<Message>>)
    requires multiset(Flat(a)) == multiset(Flat(b))
    ensures ExecutedAll(t, a).sessions == ExecutedAll(t, b).sessions
    ensures var known := t.sessions.Keys;
            multiset(Flat(Those(known, a, true))) == multiset(Flat(Those(known, b, true))) ==>
              ExecutedAll(t, a).stats == ExecutedAll(t, b).stats
  {
    ExecutedIsUpdated(t, a);
    ExecutedIsUpdated(t, b);
    BatchesDoNotMatter(t.sessions, a, b, BySession);
    var x, y := Those(t.sessions.Keys, a, true), Those(t.sessions.Keys, b, true);
    if multiset(Flat(x)) == multiset(Flat(y)) { BatchesDoNotMatter(t.stats, x, y, ByRealm); }
  }

  lemma {:induction false} NoneRefused(known: set<Key>, batches: seq<seq<Message>>)
    requires forall i :: 0 <= i < |batches| ==> Accepted(known, batches[i])
    ensures Those(known, batches, true) == batches
  {
    if batches != [] {
      NoneRefused(known, batches[..|batches| - 1]);
    }
  }

  /** The statistics do not need m: they have no row for it, or hold as late a visit of it, or one is
      in ms. */
  ghost predicate Spared(table: Times, ms: seq<Message>, m: Message) {
    HasKey(m, ByRealm) && KeyOf(m, ByRealm) in table ==>
      || m.visited <= table[KeyOf(m, ByRealm)]
      || exists i :: 0 <= i < |ms| && KeyOf(ms[i], ByRealm) == KeyOf(m, ByRealm) && m.visited <= ms[i].visited
  }

  lemma {:induction false} FlatOfBoth(known: set<Key>, batches: seq<seq<Message>>, m: Message)
    ensures m in Flat(batches) <==> m in Flat(Those(known, batches, true)) || m in Flat(Those(known, batches, false))
  {
    if batches != [] {
      var front, last := batches[..|batches| - 1], batches[|batches| - 1];
      FlatOfBoth(known, front, m);
      MoreBatches(map[], Those(known, front, true), last, ByRealm);
      MoreBatches(map[], Those(known, front, false), last, ByRealm);
      assert Those(known, front, true) + [] == Those(known, front, true);
      assert Those(known, front, false) + [] == Those(known, front, false);
    }
  }

  /** What more messages can do to a table: nothing, exactly if each of them can be spared. */
  lemma SameWithMore(table: Times, some: seq<Message>, more: seq<Message>, all: seq<Message>)
    requires forall m :: m in all <==> m in some || m in more
    ensures Updated(table, Latest(some, ByRealm)) == Updated(table, Latest(all, ByRealm))
       <==> forall m :: m in more ==> Spared(table, some, m)
  {
    var a, b := Updated(table, Latest(some, ByRealm)), Updated(table, Latest(all, ByRealm));
    if a == b {
      forall m | m in more
        ensures Spared(table, some, m)
      {
        SparedIfSame(table, some, all, m);
      }
    }
    if forall m :: m in more ==> Spared(table, some, m) {
      forall k | k in table
        ensures a[k] == b[k]
      {
        SameIfSpared(table, some, more, all, k);
      }
    }
  }

  lemma SparedIfSame(table: Times, some: seq<Message>, all: seq<Message>, m: Message)
    requires m in all && Updated(table, Latest(some, ByRealm)) == Updated(table, Latest(all, ByRealm))
    ensures Spared(table, some, m)
  {
    var k := KeyOf(m, ByRealm);
    LatestIsMax(all, ByRealm, k);
    LatestIsMax(some, ByRealm, k);
    if HasKey(m, ByRealm) && k in table {
      assert Updated(table, Latest(all, ByRealm))[k] >= m.visited;
      assert Updated(table, Latest(some, ByRealm))[k] >= m.visited;
    }
  }

  lemma SameIfSpared(table: Times, some: seq<Message>, more: seq<Message>, all: seq<Message>, k: Key)
    requires forall m :: m in all <==> m in some || m in more
    requires k in table && forall m :: m in more ==> Spared(table, some, m)
    ensures Updated(table, Latest(some, ByRealm))[k] == Updated(table, Latest(all, ByRealm))[k]
  {
    LatestIsMax(all, ByRealm, k);
    LatestIsMax(some, ByRealm, k);
    if k in Latest(some, ByRealm) {
      var i :| 0 <= i < |some| && HasKey(some[i], ByRealm) && KeyOf(some[i], ByRealm) == k
               && some[i].visited == Latest(some, ByRealm)[k];
      assert some[i] in all;
    }
    if k in Latest(all, ByRealm) {
      var i :| 0 <= i < |all| && HasKey(all[i], ByRealm) && KeyOf(all[i], ByRealm) == k
               && all[i].visited == Latest(all, ByRealm)[k];
      assert all[i] in some || (all[i] in more && Spared(table, some, all[i]));
    }
  }

  /** The statistics are those of all messages in one batch that is accepted exactly if every message of
      a refused batch can be spared. */
  lemma RefusedBatchesMatter(t: Tables, batches: seq<seq<Message>>)
    ensures ExecutedAll(t, batches).stats == Updated(t.stats, Latest(Flat(batches), ByRealm))
       <==> forall m :: m in Flat(Those(t.sessions.Keys, batches, false)) ==>
              Spared(t.stats, Flat(Those(t.sessions.Keys, batches, true)), m)
  {
    var known := t.sessions.Keys;
    ExecutedIsUpdated(t, batches);
    AllInOneBatch(t.stats, Those(known, batches, true), ByRealm);
    forall m
      ensures m in Flat(batches) <==> m in Flat(Those(known, batches, true)) || m in Flat(Those(known, batches, false))
    {
      FlatOfBoth(known, batches, m);
    }
    SameWithMore(t.stats, Flat(Those(known, batches, true)), Flat(Those(known, batches, false)), Flat(batches));
  }

  const GONE := Message(1, 1, 7, 100, 0)

  const HERE := Message(2, 1, 8, 100, 0)

  /** The second session has its row, the first has lost it. */
  const ONE_LEFT := Tables(map[(2, 8) := 0], map[(1, 1) := 0, (2, 1) := 0])

  lemma GoneAlone()
    ensures Executed(ONE_LEFT, [GONE]) == ONE_LEFT
  {
    OneMessage(GONE);
    assert (1, 7) in Latest([GONE], BySession);
  }

  lemma HereAlone()
    ensures Executed(ONE_LEFT, [HERE]).stats == map[(1, 1) := 0, (2, 1) := 100]
  {
    OneMessage(HERE);
    assert (2, 8) in Latest([HERE], BySession);
  }

  lemma BothAtOnce()
    ensures Executed(ONE_LEFT, [GONE, HERE]).stats == map[(1, 1) := 100, (2, 1) := 100]
  {
    OneMessage(GONE);
    TwoMessages(GONE, HERE);
    assert (2, 8) in Latest([GONE, HERE], BySession);
  }

  /** A visit with a session that is gone is lost alone, and kept beside one whose session is there. */
  lemma GoneSession()
    ensures ExecutedAll(ONE_LEFT, [[GONE, HERE]]).stats == map[(1, 1) := 100, (2, 1) := 100]
    ensures ExecutedAll(ONE_LEFT, [[GONE], [HERE]]).stats == map[(1, 1) := 0, (2, 1) := 100]
  {
    GoneAlone();
    HereAlone();
    BothAtOnce();
    hide Executed;
    OneBatch(ONE_LEFT, [GONE, HERE]);
    OneBatch(ONE_LEFT, [GONE]);
    assert [[GONE], [HERE]][..1] == [[GONE]];
  }

  lemma TwoMessages(m: Message, n: Message)
    ensures forall g: Grouping :: Latest([m, n], g) == Note(Latest([m], g), n, g)
  {
    assert [m, n][..1] == [m];
  }

  lemma OneMessage(m: Message)
    ensures forall g: Grouping :: HasKey(m, g) ==> Latest([m], g) == map[KeyOf(m, g) := m.visited]
  {
    assert [m][..0] == [];
  }

  lemma OneBatch(t: Tables, ms: seq<Message>)
    ensures ExecutedAll(t, [ms]) == Executed(t, ms)
  {
    assert [ms][..0] == [];
  }
}
