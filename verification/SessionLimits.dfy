/** How many sessions a user may hold in a realm, and what a login does about it.
    mrauth/usecase/session/user_limits.go, mrauth/usecase/session/session_open.go,
    mrauth/usecase/clean/session_excess_trimmer.go */
module SessionLimits {
  import opened AuthTokens
  import opened SessionStore
  import Trimming = SessionTrimming

  const DEFAULT_SESSION_MAX: int := 4
  const MIN_THRESHOLD: int := -4
  const MAX_THRESHOLD: int := 16

  datatype KindLimit = KindLimit(kind: string, sessionMax: int)

  datatype RealmLimits = RealmLimits(id: nat, kinds: seq<KindLimit>)

  function Clamp(x: int): int {
    if x < MIN_THRESHOLD then MIN_THRESHOLD else if x > MAX_THRESHOLD then MAX_THRESHOLD else x
  }

  /** All configured limits in the order they are given. */
  function Entries(realms: seq<RealmLimits>): seq<(nat, KindLimit)> {
    if realms == [] then [] else EntriesOf(realms[0]) + Entries(realms[1..])
  }

  function EntriesOf(realm: RealmLimits): seq<(nat, KindLimit)> {
    seq(|realm.kinds|, i requires 0 <= i < |realm.kinds| => (realm.id, realm.kinds[i]))
  }

  lemma EntriesFrom(realms: seq<RealmLimits>, i: nat)
    requires i < |realms|
    ensures Entries(realms[i..]) == EntriesOf(realms[i]) + Entries(realms[i + 1..])
  {
    assert realms[i..][1..] == realms[i + 1..];
  }

  /** The last entry of the pair decides; a limit that is not set is the default. */
  function Configured(entries: seq<(nat, KindLimit)>, realm: nat, kind: string): int {
    if entries == [] then DEFAULT_SESSION_MAX
    else
      var last := entries[|entries| - 1];
      if last.0 == realm && last.1.kind == kind then
        (if last.1.sessionMax < 1 then DEFAULT_SESSION_MAX else last.1.sessionMax)
      else Configured(entries[..|entries| - 1], realm, kind)
  }

  type Limits = map<(nat, string), int>

  function LimitOf(limits: Limits, realm: nat, kind: string): int {
    if (realm, kind) in limits && limits[(realm, kind)] > 0 then limits[(realm, kind)] else DEFAULT_SESSION_MAX
  }

  /** The map answers every pair as the configuration says, with a limit of at least one. */
  ghost predicate Resolves(limits: Limits, entries: seq<(nat, KindLimit)>) {
    forall realm: nat, kind: string :: LimitOf(limits, realm, kind) == Configured(entries, realm, kind) >= 1
  }

  lemma ResolvesMore(limits: Limits, entries: seq<(nat, KindLimit)>, e: (nat, KindLimit))
    requires Resolves(limits, entries)
    ensures Resolves(limits[(e.0, e.1.kind) := if e.1.sessionMax < 1 then DEFAULT_SESSION_MAX else e.1.sessionMax],
            entries + [e])
  {
    var more := limits[(e.0, e.1.kind) := if e.1.sessionMax < 1 then DEFAULT_SESSION_MAX else e.1.sessionMax];
    assert (entries + [e])[..|entries|] == entries;
    forall realm: nat, kind: string
      ensures LimitOf(more, realm, kind) == Configured(entries + [e], realm, kind) >= 1
    {
      assert LimitOf(limits, realm, kind) == Configured(entries, realm, kind) >= 1;
    }
  }

  method NewLimitResolver(realms: seq<RealmLimits>) returns (limits: Limits)
    ensures Resolves(limits, Entries(realms))
  {
    hide Resolves, Entries;
    limits := map[];
    ghost var done: seq<(nat, KindLimit)> := [];
    Unconfigured();
    NoEntries(realms);
    for i := 0 to |realms|
      invariant Resolves(limits, done) && done + Entries(realms[i..]) == Entries(realms)
    {
      var realm := realms[i];
      ghost var before := done;
      ghost var these := EntriesOf(realm);
      EntriesFrom(realms, i);
      for j := 0 to |realm.kinds|
        invariant Resolves(limits, done) && done == before + these[..j]
      {
        var kind := realm.kinds[j];
        var sessionMax := kind.sessionMax;
        if sessionMax < 1 {
          sessionMax := DEFAULT_SESSION_MAX;
        }
        ResolvesMore(limits, done, (realm.id, kind));
        limits := limits[(realm.id, kind.kind) := sessionMax];
        done := done + [(realm.id, kind)];
      }
      assert done == before + these;
    }
    assert done == Entries(realms);
  }

  lemma NoEntries(realms: seq<RealmLimits>)
    ensures realms[0..] == realms && Entries(realms[|realms|..]) == []
  {
  }

  lemma Unconfigured()
    ensures Resolves(map[], [])
  {
  }

  // ---------- which configured limit decides ----------

  predicate Names(e: (nat, KindLimit), realm: nat, kind: string) {
    e.0 == realm && e.1.kind == kind
  }

  lemma {:induction false} LaterDecide(a: seq<(nat, KindLimit)>, b: seq<(nat, KindLimit)>, realm: nat, kind: string)
    ensures Configured(a + b, realm, kind)
         == if NamedAmong(b, realm, kind) then Configured(b, realm, kind)
            else Configured(a, realm, kind)
  {
    if b == [] {
      assert a + b == a;
    } else {
      var front, last := b[..|b| - 1], b[|b| - 1];
      assert (a + b)[..|a + b| - 1] == a + front && (a + b)[|a + b| - 1] == last;
      LaterDecide(a, front, realm, kind);
      assert forall i :: 0 <= i < |front| ==> front[i] == b[i];
    }
  }

  lemma {:induction false} LastDecides(entries: seq<(nat, KindLimit)>, k: nat)
    requires k < |entries|
    requires forall i :: k < i < |entries| ==> !Names(entries[i], entries[k].0, entries[k].1.kind)
    ensures Configured(entries, entries[k].0, entries[k].1.kind)
         == if entries[k].1.sessionMax < 1 then DEFAULT_SESSION_MAX else entries[k].1.sessionMax
  {
    if k < |entries| - 1 {
      assert !Names(entries[|entries| - 1], entries[k].0, entries[k].1.kind);
      LastDecides(entries[..|entries| - 1], k);
    }
  }

  /** The pair is configured from this realm of the list on. */
  ghost predicate NamedIn(realms: seq<RealmLimits>, realm: nat, kind: string) {
    exists i, j :: 0 <= i < |realms| && 0 <= j < |realms[i].kinds| && realms[i].id == realm
                   && realms[i].kinds[j].kind == kind
  }

  ghost predicate NamedAmong(entries: seq<(nat, KindLimit)>, realm: nat, kind: string) {
    exists k :: 0 <= k < |entries| && Names(entries[k], realm, kind)
  }

  lemma AmongBoth(a: seq<(nat, KindLimit)>, b: seq<(nat, KindLimit)>, realm: nat, kind: string)
    ensures NamedAmong(a + b, realm, kind) <==> NamedAmong(a, realm, kind) || NamedAmong(b, realm, kind)
  {
    if NamedAmong(a, realm, kind) {
      var k :| 0 <= k < |a| && Names(a[k], realm, kind);
      assert Names((a + b)[k], realm, kind);
    }
    if NamedAmong(b, realm, kind) {
      var k :| 0 <= k < |b| && Names(b[k], realm, kind);
      assert Names((a + b)[|a| + k], realm, kind);
    }
  }

  lemma AmongOf(r: RealmLimits, realm: nat, kind: string)
    ensures NamedAmong(EntriesOf(r), realm, kind)
       <==> r.id == realm && exists j :: 0 <= j < |r.kinds| && r.kinds[j].kind == kind
  {
    if r.id == realm && exists j :: 0 <= j < |r.kinds| && r.kinds[j].kind == kind {
      var j :| 0 <= j < |r.kinds| && r.kinds[j].kind == kind;
      assert Names(EntriesOf(r)[j], realm, kind);
    }
  }

  lemma InFirst(realms: seq<RealmLimits>, realm: nat, kind: string)
    requires realms != []
    ensures NamedIn(realms, realm, kind)
       <==> NamedIn(realms[1..], realm, kind)
            || (realms[0].id == realm && exists j :: 0 <= j < |realms[0].kinds| && realms[0].kinds[j].kind == kind)
  {
    var rest := realms[1..];
    if NamedIn(rest, realm, kind) {
      var i, j :| 0 <= i < |rest| && 0 <= j < |rest[i].kinds| && rest[i].id == realm && rest[i].kinds[j].kind == kind;
      assert realms[i + 1] == rest[i];
    }
    if NamedIn(realms, realm, kind) {
      var i, j :| 0 <= i < |realms| && 0 <= j < |realms[i].kinds| && realms[i].id == realm
        && realms[i].kinds[j].kind == kind;
      assert i > 0 ==> rest[i - 1] == realms[i];
    }
  }

  lemma {:induction false} NamedEntries(realms: seq<RealmLimits>, realm: nat, kind: string)
    ensures NamedIn(realms, realm, kind) <==> NamedAmong(Entries(realms), realm, kind)
  {
    if realms != [] {
      InFirst(realms, realm, kind);
      AmongOf(realms[0], realm, kind);
      AmongBoth(EntriesOf(realms[0]), Entries(realms[1..]), realm, kind);
      NamedEntries(realms[1..], realm, kind);
      hide NamedIn, NamedAmong, EntriesOf;
    }
  }

  /** The last place in the configuration that names a realm and a kind decides their limit. */
  lemma {:induction false} LastConfigured(realms: seq<RealmLimits>, i: nat, j: nat)
    requires i < |realms| && j < |realms[i].kinds|
    requires !NamedIn(realms[i + 1..], realms[i].id, realms[i].kinds[j].kind)
    requires forall k :: j < k < |realms[i].kinds| ==> realms[i].kinds[k].kind != realms[i].kinds[j].kind
    ensures var limit := realms[i].kinds[j];
            Configured(Entries(realms), realms[i].id, limit.kind)
            == if limit.sessionMax < 1 then DEFAULT_SESSION_MAX else limit.sessionMax
  {
    var realm, kind := realms[i].id, realms[i].kinds[j].kind;
    var rest := realms[1..];
    LaterDecide(EntriesOf(realms[0]), Entries(rest), realm, kind);
    NamedEntries(rest, realm, kind);
    if i == 0 {
      LastDecides(EntriesOf(realms[0]), j);
    } else {
      assert rest[i - 1] == realms[i] && rest[i..] == realms[i + 1..];
      LastConfigured(rest, i - 1, j);
    }
  }

  lemma NotConfigured(realms: seq<RealmLimits>, realm: nat, kind: string)
    requires !NamedIn(realms, realm, kind)
    ensures Configured(Entries(realms), realm, kind) == DEFAULT_SESSION_MAX
  {
    NamedEntries(realms, realm, kind);
    LaterDecide([], Entries(realms), realm, kind);
    assert [] + Entries(realms) == Entries(realms);
  }

  method CorrectThresholds(soft: int, hard: int) returns (s: int, h: int)
    ensures s == Clamp(if soft <= hard then soft else hard) && h == Clamp(if soft <= hard then hard else soft)
    ensures MIN_THRESHOLD <= s <= h <= MAX_THRESHOLD
    ensures MIN_THRESHOLD <= soft <= MAX_THRESHOLD && MIN_THRESHOLD <= hard <= MAX_THRESHOLD ==>
              if soft <= hard then s == soft && h == hard else s == hard && h == soft
  {
    s, h := soft, hard;
    if s < MIN_THRESHOLD { s := MIN_THRESHOLD; }
    if s > MAX_THRESHOLD { s := MAX_THRESHOLD; }
    if h < MIN_THRESHOLD { h := MIN_THRESHOLD; }
    if h > MAX_THRESHOLD { h := MAX_THRESHOLD; }
    if s > h { s, h := h, s; }
  }

  /** The limits with the deviations of the two thresholds from them. */
  datatype Limiter = Limiter(limits: Limits, soft: int, hard: int) {
    function Limit(realm: nat, kind: string): int {
      LimitOf(limits, realm, kind)
    }

    /** From here on a login asks for a trim. */
    function Soft(realm: nat, kind: string): nat {
      Trimming.Limit(Limit(realm, kind) + soft)
    }

    /** From here on a login is rejected. */
    function Hard(realm: nat, kind: string): nat {
      Trimming.Limit(Limit(realm, kind) + hard)
    }
  }

  method NewSessionLimiter(realms: seq<RealmLimits>, soft: int, hard: int) returns (l: Limiter)
    ensures Resolves(l.limits, Entries(realms)) && MIN_THRESHOLD <= l.soft <= l.hard <= MAX_THRESHOLD
  {
    var limits := NewLimitResolver(realms);
    var s, h := CorrectThresholds(soft, hard);
    l := Limiter(limits, s, h);
  }

  /** A user in a realm. */
  type Holder = (nat, nat)

  /** Who waits for a trim, and down to how many sessions. */
  class ExcessQueue {
    var items: map<Holder, int>

    constructor ()
      ensures items == map[]
    {
      items := map[];
    }

    /** A second request for the same pair only renews the limit. */
    method Enqueue(user: nat, realm: nat, sessionMax: int)
      modifies this
      ensures items == old(items)[(user, realm) := sessionMax]
    {
      items := items[(user, realm) := sessionMax];
    }

    method Delete(keys: set<Holder>)
      modifies this
      ensures items == old(items) - keys
    {
      items := items - keys;
    }
  }

  /** The excess queue after a login of that many open sessions, if the queue can be reached. */
  function Queued(items: map<Holder, int>, l: Limiter, user: nat, realm: nat, kind: string, openCount: nat,
      reached: bool): map<Holder, int> {
    if reached && openCount + 1 >= l.Soft(realm, kind) then items[(user, realm) := l.Limit(realm, kind)] else items
  }

  /** applySessionLimit: the excess queue is told first, then the login is admitted or not. */
  method ApplySessionLimit(store: Store, excess: ExcessQueue, l: Limiter, user: nat, realm: nat, kind: string, now: int,
      reached: bool)
      returns (admitted: bool)
    requires l.soft <= l.hard
    modifies excess
    ensures admitted <==> |Open(store.table.rows, user, realm, now)| < l.Hard(realm, kind)
    ensures excess.items == Queued(old(excess.items), l, user, realm, kind, |Open(store.table.rows, user, realm, now)|,
            reached)
    ensures var open, max := |Open(store.table.rows, user, realm, now)|, l.Limit(realm, kind);
            && (admitted <==> open < if max + l.hard < 1 then 1 else max + l.hard)
            && excess.items == if reached && open + 1 >= (if max + l.soft < 1 then 1 else max + l.soft) then
                 old(excess.items)[(user, realm) := max] else old(excess.items)
    ensures !admitted && reached ==>
            (user, realm) in excess.items && excess.items[(user, realm)] == l.Limit(realm, kind)
  {
    var openCount := |Open(store.table.rows, user, realm, now)|;
    if openCount + 1 >= l.Soft(realm, kind) && reached {
      excess.Enqueue(user, realm, l.Limit(realm, kind));
    }
    return openCount < l.Hard(realm, kind);
  }

  // ---------- a trim makes room ----------

  /** What a session row tells besides its key. */
  datatype Meta = Meta(agent: string, updated: int)

  type Metas = map<Session, Meta>

  /** s comes before t: active later, or at the same time and with the greater id. */
  predicate Ahead(metas: Metas, s: Session, t: Session)
    requires s in metas && t in metas
  {
    metas[s].updated > metas[t].updated || (metas[s].updated == metas[t].updated && s.id > t.id)
  }

  /** The listing of a user's open sessions: each of them once, the most active first. */
  ghost predicate Lists(listed: seq<Trimming.Listed>, user: nat, open: set<Session>) {
    && (forall i, j :: 0 <= i < j < |listed| ==> listed[i].id != listed[j].id)
    && (forall i :: 0 <= i < |listed| ==> listed[i].id >= 0 && Session(user, listed[i].id) in open)
    && (forall s :: s in open ==> s.user == user && exists i :: 0 <= i < |listed| && listed[i].id == s.id)
  }

  ghost predicate FirstIsAhead(listed: seq<Trimming.Listed>, user: nat, open: set<Session>, metas: Metas)
    requires open <= metas.Keys && Lists(listed, user, open)
  {
    listed != [] ==> forall s :: s in open && s.id != listed[0].id ==> Ahead(metas, Session(user, listed[0].id), s)
  }

  function Revoked(user: nat, ids: seq<int>): set<Session> {
    set i | 0 <= i < |ids| && ids[i] >= 0 :: Session(user, ids[i])
  }

  /** The whole listing is in order, and shows the user agent of each session. */
  ghost predicate Tells(listed: seq<Trimming.Listed>, user: nat, open: set<Session>, metas: Metas)
    requires open <= metas.Keys && Lists(listed, user, open)
  {
    && (forall i :: 0 <= i < |listed| ==> listed[i].agent == metas[Session(user, listed[i].id)].agent)
    && (forall i, j :: 0 <= i < j < |listed| ==>
         Ahead(metas, Session(user, listed[i].id), Session(user, listed[j].id)))
  }

  lemma {:induction false} SomeAhead(metas: Metas, ss: set<Session>, user: nat) returns (s: Session)
    requires ss != {} && ss <= metas.Keys && forall t :: t in ss ==> t.user == user
    ensures s in ss && forall t :: t in ss && t != s ==> Ahead(metas, s, t)
    decreases |ss|
  {
    s :| s in ss;
    if ss != {s} {
      var t := SomeAhead(metas, ss - {s}, user);
      if Ahead(metas, t, s) {
        s := t;
      } else {
        assert s.id != t.id && Ahead(metas, s, t);
        forall x | x in ss && x != s
          ensures Ahead(metas, s, x)
        {
          if x != t { assert Ahead(metas, t, x); }
        }
      }
    }
  }

  /** Part of the listing: who is in it, and that all others come later. */
  ghost predicate ListsPart(listed: seq<Trimming.Listed>, user: nat, part: set<Session>, rest: set<Session>,
      metas: Metas) {
    && part + rest <= metas.Keys && Lists(listed, user, part) && Tells(listed, user, part, metas)
    && forall i, s :: 0 <= i < |listed| && s in rest ==> Ahead(metas, Session(user, listed[i].id), s)
  }

  lemma ListsOneMore(listed: seq<Trimming.Listed>, user: nat, part: set<Session>, s: Session, agent: string)
    requires Lists(listed, user, part) && s !in part && s.user == user
    ensures Lists(listed + [Trimming.Listed(s.id, agent)], user, part + {s})
  {
    var more := listed + [Trimming.Listed(s.id, agent)];
    assert more[|listed|].id == s.id;
    assert forall i :: 0 <= i < |listed| ==> more[i] == listed[i] && Session(user, listed[i].id) in part;
    forall t | t in part + {s}
      ensures t.user == user && exists i :: 0 <= i < |more| && more[i].id == t.id
    {
      if t != s {
        var i :| 0 <= i < |listed| && listed[i].id == t.id;
        assert more[i].id == t.id;
      }
    }
  }

  lemma ListsMore(listed: seq<Trimming.Listed>, user: nat, part: set<Session>, rest: set<Session>, metas: Metas,
      s: Session)
    requires ListsPart(listed, user, part, rest, metas) && part !! rest && s in rest && s.user == user
    requires forall t :: t in rest && t != s ==> Ahead(metas, s, t)
    ensures var more := listed + [Trimming.Listed(s.id, metas[s].agent)];
            Lists(more, user, part + {s}) && ListsPart(more, user, part + {s}, rest - {s}, metas)
  {
    ListsOneMore(listed, user, part, s, metas[s].agent);
    ListedIn(listed, user, part);
    ListedIn(listed + [Trimming.Listed(s.id, metas[s].agent)], user, part + {s});
    hide Ahead, Lists;
  }

  lemma ListedIn(listed: seq<Trimming.Listed>, user: nat, part: set<Session>)
    requires Lists(listed, user, part)
    ensures forall i :: 0 <= i < |listed| ==> Session(user, listed[i].id) in part
  {
  }

  lemma FirstListed(listed: seq<Trimming.Listed>, user: nat, open: set<Session>, metas: Metas)
    requires open <= metas.Keys && Lists(listed, user, open) && Tells(listed, user, open, metas)
    ensures FirstIsAhead(listed, user, open, metas)
  {
    hide Ahead;
    forall s | listed != [] && s in open && s.id != listed[0].id
      ensures Ahead(metas, Session(user, listed[0].id), s)
    {
      var i :| 0 <= i < |listed| && listed[i].id == s.id;
      assert s == Session(user, listed[i].id);
    }
  }

  /** FetchOrderedListByUserIDAndSessionIDs: ORDER BY updated_at DESC, session_id DESC. */
  method FetchOrderedList(metas: Metas, user: nat, open: set<Session>) returns (listed: seq<Trimming.Listed>)
    requires open <= metas.Keys && forall s :: s in open ==> s.user == user
    ensures Lists(listed, user, open) && FirstIsAhead(listed, user, open, metas) && Tells(listed, user, open, metas)
  {
    listed := [];
    var rest := open;
    NoneListed(metas, user, open);
    hide ListsPart, Lists, Tells, Ahead;
    while rest != {}
      invariant rest <= open && ListsPart(listed, user, open - rest, rest, metas)
      decreases rest
    {
      ghost var best := SomeAhead(metas, rest, user);
      var s :| s in rest && forall t :: t in rest && t != s ==> Ahead(metas, s, t);
      ListsMore(listed, user, open - rest, rest, metas, s);
      assert open - rest + {s} == open - (rest - {s});
      listed := listed + [Trimming.Listed(s.id, metas[s].agent)];
      rest := rest - {s};
    }
    AllListed(listed, user, open, metas);
  }

  lemma NoneListed(metas: Metas, user: nat, open: set<Session>)
    requires open <= metas.Keys
    ensures ListsPart([], user, open - open, open, metas)
  {
    assert open - open == {};
  }

  lemma AllListed(listed: seq<Trimming.Listed>, user: nat, open: set<Session>, metas: Metas)
    requires open <= metas.Keys && ListsPart(listed, user, open - {}, {}, metas)
    ensures Lists(listed, user, open) && FirstIsAhead(listed, user, open, metas) && Tells(listed, user, open, metas)
  {
    assert open - {} == open;
    FirstListed(listed, user, open, metas);
  }

  /** s comes before every other one of the sessions. */
  ghost predicate Leads(metas: Metas, s: Session, ss: set<Session>)
    requires s in ss && ss <= metas.Keys
  {
    forall t :: t in ss && t != s ==> Ahead(metas, s, t)
  }

  /** The open sessions the listing finds: those that have their row. */
  function Listable(rows: Rows, metas: Metas, user: nat, realm: nat, now: int): set<Session> {
    Open(rows, user, realm, now) * metas.Keys
  }

  /** The user agent of s has been met further up. */
  ghost predicate Repeated(metas: Metas, ss: set<Session>, s: Session)
    requires s in ss && ss <= metas.Keys
  {
    metas[s].agent != "" && exists u :: u in ss && Ahead(metas, u, s) && metas[u].agent == metas[s].agent
  }

  /** A session is closed before a less active one only if it repeats a user agent and the other does not. */
  ghost predicate InTurn(before: set<Session>, open: set<Session>, metas: Metas)
    requires open <= before <= metas.Keys
  {
    forall s, t :: s in before - open && t in open && Ahead(metas, s, t) ==>
      Repeated(metas, before, s) && !Repeated(metas, before, t)
  }

  /** No other session of this user agent is left. */
  ghost predicate Lost(metas: Metas, open: set<Session>, s: Session)
    requires s in metas && open <= metas.Keys
  {
    metas[s].agent == "" || forall t :: t in open ==> metas[t].agent != metas[s].agent
  }

  /** A device is lost only if the sessions left are all of different devices. */
  ghost predicate LostLate(before: set<Session>, open: set<Session>, metas: Metas)
    requires open <= before <= metas.Keys
  {
    (exists s :: s in before - open && Lost(metas, open, s)) ==>
      forall t, u :: t in open && u in open && t != u ==> metas[t].agent == "" || metas[t].agent != metas[u].agent
  }

  /** Of these sessions as many as allowed are left, the most active one among them, and which ones is
      decided by user agent and activity. */
  ghost predicate FirstKept(before: set<Session>, open: set<Session>, metas: Metas, most: nat)
    requires before <= metas.Keys
  {
    && open <= before && |open| == (if |before| <= most then |before| else most)
    && (forall s :: s in before && Leads(metas, s, before) ==> s in open)
    && InTurn(before, open, metas) && LostLate(before, open, metas)
  }

  /** What a trim of a user in a realm down to sessionMax does: it closes just enough of the listed
      sessions, not the most active one, and deletes what it closed; nothing else changes. */
  ghost predicate Trimmed(rows: Rows, after: Rows, sessions: set<Session>, left: set<Session>, metas: Metas, user: nat,
      realm: nat, sessionMax: int, now: int) {
    var before, open := Listable(rows, metas, user, realm, now), Listable(after, metas, user, realm, now);
    && FirstKept(before, open, metas, Trimming.Limit(sessionMax))
    && Open(after, user, realm, now) == Open(rows, user, realm, now) - (before - open)
    && after == RevokedAll(rows, before - open, now) && left == sessions - (before - open)
  }

  lemma NothingTrimmed(rows: Rows, sessions: set<Session>, metas: Metas, user: nat, realm: nat, sessionMax: int,
      now: int)
    requires |Listable(rows, metas, user, realm, now)| <= Trimming.Limit(sessionMax)
    ensures Trimmed(rows, rows, sessions, sessions, metas, user, realm, sessionMax, now)
  {
    var open := Listable(rows, metas, user, realm, now);
    NoneChosen(open, metas, Trimming.Limit(sessionMax));
    hide FirstKept, Open, Trimming.Limit;
    assert open - open == {};
    assert RevokedAll(rows, {}, now) == rows;
  }

  lemma NoneChosen(open: set<Session>, metas: Metas, most: nat)
    requires open <= metas.Keys && |open| <= most
    ensures FirstKept(open, open, metas, most)
  {
    hide Ahead, Leads, Lost, Repeated;
  }

  lemma ExcessTrimmed(rows: Rows, sessions: set<Session>, metas: Metas, user: nat, realm: nat, sessionMax: int,
      now: int, listed: seq<Trimming.Listed>, ids: seq<int>)
    requires var open := Listable(rows, metas, user, realm, now);
             Lists(listed, user, open) && FirstIsAhead(listed, user, open, metas) && Tells(listed, user, open, metas)
    requires listed != [] && Trimming.ExcessIds(listed, sessionMax, ids)
    ensures var ss := Revoked(user, ids);
            && Trimmed(rows, RevokedAll(rows, ss, now), sessions, sessions - ss, metas, user, realm, sessionMax, now)
            && (ids == [] ==> ss == {})
  {
    var open, ss := Listable(rows, metas, user, realm, now), Revoked(user, ids);
    ListedSize(listed, user, open);
    TrimmedSize(listed, user, open, sessionMax, ids);
    RevokingCloses(rows, ss, user, realm, now);
    FirstLeads(listed, user, open, metas);
    ChosenInTurn(listed, user, open, metas, sessionMax, ids);
    hide Lists, FirstIsAhead, Tells, Open, Listable, Leads, Revoked, Trimmed, FirstKept, InTurn, LostLate,
      Trimming.ExcessIds;
    RestKept(open, ss, metas, Trimming.Limit(sessionMax), Session(user, listed[0].id));
    PartTrimmed(rows, sessions, metas, user, realm, sessionMax, now, open, ss);
    if ids == [] { SameAll(open, ss); }
  }

  lemma SameAll(all: set<Session>, part: set<Session>)
    requires part <= all && all - part == all
    ensures part == {}
  {
    assert forall s :: s in part ==> s in all - part;
  }

  lemma RestKept(open: set<Session>, ss: set<Session>, metas: Metas, most: nat, first: Session)
    requires ss <= open && open <= metas.Keys && first in open - ss
    requires |open - ss| == if |open| <= most then |open| else most
    requires forall s :: s in open && Leads(metas, s, open) ==> s == first
    requires InTurn(open, open - ss, metas) && LostLate(open, open - ss, metas)
    ensures FirstKept(open, open - ss, metas, most)
  {
    hide Leads, InTurn, LostLate;
  }

  lemma PartTrimmed(rows: Rows, sessions: set<Session>, metas: Metas, user: nat, realm: nat, sessionMax: int, now: int,
      open: set<Session>, ss: set<Session>)
    requires open == Listable(rows, metas, user, realm, now) && ss <= open
    requires Open(RevokedAll(rows, ss, now), user, realm, now) == Open(rows, user, realm, now) - ss
    requires FirstKept(open, open - ss, metas, Trimming.Limit(sessionMax))
    ensures Trimmed(rows, RevokedAll(rows, ss, now), sessions, sessions - ss, metas, user, realm, sessionMax, now)
  {
    hide Open, RevokedAll, Trimming.Limit, FirstKept;
    ListableRest(rows, metas, user, realm, now, ss);
    assert open - (open - ss) == ss;
  }

  lemma ListableRest(rows: Rows, metas: Metas, user: nat, realm: nat, now: int, ss: set<Session>)
    requires Open(RevokedAll(rows, ss, now), user, realm, now) == Open(rows, user, realm, now) - ss
    ensures Listable(RevokedAll(rows, ss, now), metas, user, realm, now)
            == Listable(rows, metas, user, realm, now) - ss
  {
    hide Open, RevokedAll;
  }

  // ---------- the choice, from positions in the listing to sessions ----------

  /** The session at a position of the listing, and whether it is revoked. */
  lemma SessionAt(listed: seq<Trimming.Listed>, user: nat, open: set<Session>, ids: seq<int>, drop: seq<int>,
      s: Session)
      returns (i: nat)
    requires Lists(listed, user, open) && s in open
    requires Trimming.Inside(listed, drop) && ids == Trimming.IdsAt(listed, drop)
    ensures i < |listed| && s == Session(user, listed[i].id)
    ensures i in drop <==> s in Revoked(user, ids)
  {
    i :| 0 <= i < |listed| && listed[i].id == s.id;
    if i in drop {
      var k :| 0 <= k < |drop| && drop[k] == i;
      assert ids[k] == s.id;
    }
    if s in Revoked(user, ids) {
      var k :| 0 <= k < |ids| && ids[k] == s.id;
      assert listed[drop[k]].id == s.id;
      assert drop[k] == i;
    }
  }

  lemma RepeatsAt(listed: seq<Trimming.Listed>, user: nat, open: set<Session>, metas: Metas, i: nat)
    requires open <= metas.Keys && Lists(listed, user, open) && Tells(listed, user, open, metas) && i < |listed|
    ensures Trimming.Repeats(listed, i) <==> Repeated(metas, open, Session(user, listed[i].id))
  {
    var s := Session(user, listed[i].id);
    if Repeated(metas, open, s) {
      var u :| u in open && Ahead(metas, u, s) && metas[u].agent == metas[s].agent;
      var h :| 0 <= h < |listed| && listed[h].id == u.id;
      assert u == Session(user, listed[h].id);
      assert h < i;
    }
    if Trimming.Repeats(listed, i) {
      var h :| 0 <= h < i && listed[h].agent == listed[i].agent;
      assert Ahead(metas, Session(user, listed[h].id), s);
    }
  }

  lemma AheadAt(listed: seq<Trimming.Listed>, user: nat, open: set<Session>, metas: Metas, i: nat, j: nat)
    requires open <= metas.Keys && Lists(listed, user, open) && Tells(listed, user, open, metas)
    requires i < |listed| && j < |listed| && Ahead(metas, Session(user, listed[i].id), Session(user, listed[j].id))
    ensures i < j
  {
  }

  lemma TurnOf(listed: seq<Trimming.Listed>, user: nat, open: set<Session>, metas: Metas, ids: seq<int>, drop: seq<int>)
    requires open <= metas.Keys && Lists(listed, user, open) && Tells(listed, user, open, metas)
    requires Trimming.InTurn(listed, drop) && Trimming.Inside(listed, drop) && ids == Trimming.IdsAt(listed, drop)
    ensures InTurn(open, open - Revoked(user, ids), metas)
  {
    hide Lists, Tells, Revoked, Ahead, Repeated, Trimming.Repeats, Trimming.Inside;
    var left := open - Revoked(user, ids);
    forall s, t | s in open - left && t in left && Ahead(metas, s, t)
      ensures Repeated(metas, open, s) && !Repeated(metas, open, t)
    {
      var i := SessionAt(listed, user, open, ids, drop, s);
      var j := SessionAt(listed, user, open, ids, drop, t);
      AheadAt(listed, user, open, metas, i, j);
      RepeatsAt(listed, user, open, metas, i);
      RepeatsAt(listed, user, open, metas, j);
    }
  }

  lemma LossOf(listed: seq<Trimming.Listed>, user: nat, open: set<Session>, metas: Metas, limit: int, ids: seq<int>,
      drop: seq<int>)
    requires open <= metas.Keys && Lists(listed, user, open) && Tells(listed, user, open, metas)
    requires Trimming.BestDrop(listed, limit, drop)
    requires Trimming.Inside(listed, drop) && ids == Trimming.IdsAt(listed, drop)
    ensures LostLate(open, open - Revoked(user, ids), metas)
  {
    hide Lists, Tells, Revoked, Trimming.BestDrop, Trimming.Inside;
    var left := open - Revoked(user, ids);
    forall s, t, u | s in open - left && Lost(metas, left, s) && t in left && u in left && t != u
      ensures metas[t].agent == "" || metas[t].agent != metas[u].agent
    {
      var d := SessionAt(listed, user, open, ids, drop, s);
      var i := SessionAt(listed, user, open, ids, drop, t);
      var j := SessionAt(listed, user, open, ids, drop, u);
      LostDevice(listed, user, open, metas, ids, drop, d);
      DifferentKept(listed, limit, drop, d, i, j);
      AgentsAt(listed, user, open, metas);
    }
  }

  lemma AgentsAt(listed: seq<Trimming.Listed>, user: nat, open: set<Session>, metas: Metas)
    requires open <= metas.Keys && Lists(listed, user, open) && Tells(listed, user, open, metas)
    ensures forall i :: 0 <= i < |listed| ==>
            Session(user, listed[i].id) in open && metas[Session(user, listed[i].id)].agent == listed[i].agent
  {
  }

  lemma LostDevice(listed: seq<Trimming.Listed>, user: nat, open: set<Session>, metas: Metas, ids: seq<int>,
      drop: seq<int>, d: nat)
    requires open <= metas.Keys && Lists(listed, user, open) && Tells(listed, user, open, metas)
    requires Trimming.Inside(listed, drop) && ids == Trimming.IdsAt(listed, drop) && d < |listed| && d in drop
    requires Session(user, listed[d].id) in open && Lost(metas, open - Revoked(user, ids), Session(user, listed[d].id))
    ensures forall i :: 0 <= i < |listed| && i !in drop ==> Trimming.DeviceAt(listed, i) != Trimming.DeviceAt(listed, d)
  {
    AgentsAt(listed, user, open, metas);
    forall i | 0 <= i < |listed| && i !in drop
      ensures Trimming.DeviceAt(listed, i) != Trimming.DeviceAt(listed, d)
    {
      var j := SessionAt(listed, user, open, ids, drop, Session(user, listed[i].id));
      assert j == i;
    }
  }

  lemma DifferentKept(listed: seq<Trimming.Listed>, limit: int, drop: seq<int>, d: nat, i: nat, j: nat)
    requires Trimming.BestDrop(listed, limit, drop) && d in drop && d < |listed|
    requires forall i :: 0 <= i < |listed| && i !in drop ==>
             Trimming.DeviceAt(listed, i) != Trimming.DeviceAt(listed, d)
    requires i < |listed| && j < |listed| && i !in drop && j !in drop && i != j
    ensures Trimming.DeviceAt(listed, i) != Trimming.DeviceAt(listed, j)
  {
    hide Trimming.MostDevices, Trimming.Rising, Trimming.Excess, Trimming.DeviceAt;
    var kept := Trimming.Positions(|listed|) - Trimming.Elements(drop);
    var k :| 0 <= k < |drop| && drop[k] == d;
    assert Trimming.DeviceAt(listed, drop[k]) !in Trimming.Devices(listed, kept);
    assert i in kept && j in kept;
  }

  lemma ChosenInTurn(listed: seq<Trimming.Listed>, user: nat, open: set<Session>, metas: Metas, limit: int,
      ids: seq<int>)
    requires open <= metas.Keys && Lists(listed, user, open) && Tells(listed, user, open, metas)
    requires Trimming.ExcessIds(listed, limit, ids)
    ensures var left := open - Revoked(user, ids); InTurn(open, left, metas) && LostLate(open, left, metas)
  {
    hide Lists, Tells, Revoked, InTurn, LostLate, Trimming.BestDrop, Trimming.InTurn, Trimming.Inside, Trimming.IdsAt;
    var drop :| && Trimming.BestDrop(listed, limit, drop) && Trimming.InTurn(listed, drop)
      && Trimming.Inside(listed, drop) && ids == Trimming.IdsAt(listed, drop);
    TurnOf(listed, user, open, metas, ids, drop);
    LossOf(listed, user, open, metas, limit, ids, drop);
  }

  lemma FirstLeads(listed: seq<Trimming.Listed>, user: nat, open: set<Session>, metas: Metas)
    requires open <= metas.Keys && Lists(listed, user, open) && FirstIsAhead(listed, user, open, metas) && listed != []
    ensures forall s :: s in open && Leads(metas, s, open) ==> s == Session(user, listed[0].id)
  {
  }

  /** The reading half of trimUser: what it finds to close, before the transaction that closes it. */
  method SelectSessions(store: Store, metas: Metas, user: nat, realm: nat, sessionMax: int, now: int)
      returns (ss: set<Session>)
    ensures Trimmed(store.table.rows, RevokedAll(store.table.rows, ss, now), store.sessions, store.sessions - ss,
                    metas, user, realm, sessionMax, now)
  {
    ghost var rows, sessions := store.table.rows, store.sessions;
    var listed := FetchOrderedList(metas, user, Listable(store.table.rows, metas, user, realm, now));
    ListedSize(listed, user, Listable(rows, metas, user, realm, now));
    hide Trimmed, Listable, Lists, FirstIsAhead, Trimming.ExcessIds, Revoked, RevokedAll, Open;
    if listed == [] {
      NothingTrimmed(rows, sessions, metas, user, realm, sessionMax, now);
      NothingRevoked(rows, sessions, now);
      return {};
    }
    var ids := Trimming.SelectExcessSessions(listed, sessionMax);
    ExcessTrimmed(rows, sessions, metas, user, realm, sessionMax, now, listed, ids);
    return Revoked(user, ids);
  }

  /** trimUser: the excess of the open sessions is selected, revoked and deleted. */
  method TrimUser(store: Store, metas: Metas, user: nat, realm: nat, sessionMax: int, now: int)
      returns (ghost ss: set<Session>)
    modifies store.table, store`sessions
    ensures Trimmed(old(store.table.rows), store.table.rows, old(store.sessions), store.sessions,
                    metas, user, realm, sessionMax, now)
    ensures store.table.rows == RevokedAll(old(store.table.rows), ss, now) && store.sessions == old(store.sessions) - ss
  {
    hide Trimmed, RevokedAll, Open, Orphans;
    var selected := SelectSessions(store, metas, user, realm, sessionMax, now);
    ss := selected;
    if selected == {} {
      NothingRevoked(store.table.rows, store.sessions, now);
      return;
    }
    store.Trim(selected, now);
  }

  lemma NothingRevoked(rows: Rows, sessions: set<Session>, now: int)
    ensures RevokedAll(rows, {}, now) == rows && sessions - {} == sessions
  {
  }

  lemma TrimmedSize(listed: seq<Trimming.Listed>, user: nat, open: set<Session>, sessionMax: int, ids: seq<int>)
    requires Lists(listed, user, open) && listed != [] && Trimming.ExcessIds(listed, sessionMax, ids)
    ensures var ss := Revoked(user, ids);
            && ss <= open && |open - ss|
              == (if |listed| <= Trimming.Limit(sessionMax) then |listed| else Trimming.Limit(sessionMax))
            && Session(user, listed[0].id) in open - ss
            && (ids == [] ==> open - ss == open)
  {
    hide Lists, Revoked, Trimming.BestDrop, Trimming.InTurn, Trimming.Rising;
    var drop :| && Trimming.BestDrop(listed, sessionMax, drop) && Trimming.InTurn(listed, drop)
      && Trimming.Inside(listed, drop) && ids == Trimming.IdsAt(listed, drop);
    Trimming.DropFacts(listed, sessionMax, drop);
    ListedSize(listed, user, open);
    DroppedSize(listed, user, open, ids, drop);
    FirstOpen(listed, user, open);
    hide *;
    SizeOfRest(open, Revoked(user, ids));
  }

  lemma SizeOfRest(all: set<Session>, part: set<Session>)
    requires part <= all
    ensures |all - part| == |all| - |part|
    ensures |part| == 0 ==> all - part == all
  {
    assert all == (all - part) + part;
  }

  lemma FirstOpen(listed: seq<Trimming.Listed>, user: nat, open: set<Session>)
    requires Lists(listed, user, open) && listed != []
    ensures listed[0].id >= 0 && Session(user, listed[0].id) in open
  {
  }

  lemma {:induction false} ListedSize(listed: seq<Trimming.Listed>, user: nat, open: set<Session>)
    requires Lists(listed, user, open)
    ensures |open| == |listed|
    decreases |listed|
  {
    if listed == [] {
      assert open == {};
    } else {
      var n := |listed| - 1;
      var last := Session(user, listed[n].id);
      var front := listed[..n];
      forall s | s in open - {last}
        ensures exists i :: 0 <= i < |front| && front[i].id == s.id
      {
        var i :| 0 <= i < |listed| && listed[i].id == s.id;
        assert front[i].id == s.id;
      }
      ListedSize(front, user, open - {last});
    }
  }

  lemma DroppedSize(listed: seq<Trimming.Listed>, user: nat, open: set<Session>, ids: seq<int>, drop: seq<int>)
    requires Lists(listed, user, open) && |ids| == |drop|
    requires Trimming.Rising(drop) && forall k :: 0 <= k < |drop| ==>
             0 < drop[k] < |listed| && ids[k] == listed[drop[k]].id
    ensures Revoked(user, ids) <= open && |Revoked(user, ids)| == |drop|
    ensures listed != [] ==> Session(user, listed[0].id) !in Revoked(user, ids)
  {
    DistinctSize(user, ids);
  }

  lemma {:induction false} DistinctSize(user: nat, ids: seq<int>)
    requires forall i, j :: 0 <= i < j < |ids| ==> ids[i] != ids[j]
    requires forall i :: 0 <= i < |ids| ==> ids[i] >= 0
    ensures |Revoked(user, ids)| == |ids|
  {
    if ids != [] {
      var n := |ids| - 1;
      DistinctSize(user, ids[..n]);
      assert Revoked(user, ids) == Revoked(user, ids[..n]) + {Session(user, ids[n])};
      assert Session(user, ids[n]) !in Revoked(user, ids[..n]);
    }
  }
}
