/** Logins under the session limits, the excess queue and the trimmer. A login's counting and opening, and
    the trimmer's fetch, its reading and its closing of one user's sessions after the other, and its
    acknowledgement are steps of their own among everything that happens to sessions.
    mrauth/usecase/session/session_open.go, mrauth/usecase/clean/session_excess_trimmer.go */
module SessionAdmission {
  import opened AuthTokens
  import opened SessionStore
  import opened SessionLimits
  import OperationService
  import Runs = SessionRuns
  import Trimming = SessionTrimming

  /** The configured limits, and the kind of every user in every realm. */
  datatype Policy = Policy(limiter: Limiter, kindOf: (nat, nat) -> string) {
    function Limit(h: Holder): int {
      limiter.Limit(h.1, kindOf(h.0, h.1))
    }

    function Hard(h: Holder): nat {
      limiter.Hard(h.1, kindOf(h.0, h.1))
    }
  }

  /** What was selected to be closed, outside the transaction that closes it. */
  datatype Picked = Nothing | Pick(h: Holder, ss: set<Session>)

  datatype Trimmer = Resting | Working(batch: map<Holder, int>, picked: Picked)

  /** inflight counts the logins of a user in a realm that were admitted and have not opened yet. */
  datatype State = State(
    base: Runs.State, excess: map<Holder, int>, trimmer: Trimmer, inflight: map<Holder, nat>)

  /** A login counts the open sessions first, without a lock, and opens later, or fails after all. */
  datatype Event =
    | Counting(h: Holder, reached: bool)
    | Opening(s: Session, realm: nat, p: Pair, completed: bool)
    | FetchExcess(keys: set<Holder>)
    | Selecting(h: Holder, ss: set<Session>, metas: Metas)
    | Revoking
    | AckExcess
    | CrashTrimmer
    | Other(e: Runs.Event)

  const START := State(Runs.START, map[], Resting, map[])

  function OpenOf(st: State, h: Holder): set<Session> {
    Open(st.base.rows, h.0, h.1, st.base.now)
  }

  function InFlight(st: State, h: Holder): nat {
    if h in st.inflight then st.inflight[h] else 0
  }

  predicate Admits(pol: Policy, st: State, h: Holder) {
    |OpenOf(st, h)| < pol.Hard(h)
  }

  /** ss is what the trimmer finds to close for h. */
  ghost predicate TrimOf(st: State, h: Holder, ss: set<Session>, metas: Metas) {
    && st.trimmer.Working? && h in st.trimmer.batch && metas.Keys == st.base.sessions
    && Trimmed(st.base.rows, RevokedAll(st.base.rows, ss, st.base.now), st.base.sessions, st.base.sessions - ss,
               metas, h.0, h.1, st.trimmer.batch[h], st.base.now)
  }

  predicate RevokesSome(st: State) {
    st.trimmer.Working? && st.trimmer.picked.Pick?
  }

  ghost function Next(pol: Policy, st: State, e: Event): State {
    match e
    case Counting(h, reached) =>
      st.(excess := Queued(st.excess, pol.limiter, h.0, h.1, pol.kindOf(h.0, h.1), |OpenOf(st, h)|, reached),
          inflight := if Admits(pol, st, h) then st.inflight[h := InFlight(st, h) + 1] else st.inflight)
    case Opening(s, realm, p, completed) =>
      var h := (s.user, realm);
      if InFlight(st, h) == 0 then st
      else st.(base := if completed then Runs.Next(st.base, Runs.Login(s, realm, p)) else st.base,
               inflight := st.inflight[h := InFlight(st, h) - 1])
    case FetchExcess(keys) =>
      if st.trimmer.Resting? && keys <= st.excess.Keys then
        st.(trimmer := Working(map h | h in keys :: st.excess[h], Nothing))
      else st
    case Selecting(h, ss, metas) =>
      if TrimOf(st, h, ss, metas) then st.(trimmer := st.trimmer.(picked := Pick(h, ss))) else st
    case Revoking =>
      if RevokesSome(st) then
        st.(base := Runs.Next(st.base, Runs.Trimming(st.trimmer.picked.ss)), trimmer := st.trimmer.(picked := Nothing))
      else st
    case AckExcess =>
      if st.trimmer.Working? then st.(excess := st.excess - st.trimmer.batch.Keys, trimmer := Resting) else st
    case CrashTrimmer => st.(trimmer := Resting)
    case Other(b) => if b.Login? then st else st.(base := Runs.Next(st.base, b))
  }

  ghost function Exec(pol: Policy, st: State, es: seq<Event>): State {
    if es == [] then st else Next(pol, Exec(pol, st, es[..|es| - 1]), es[|es| - 1])
  }

  // ---------- what every run keeps ----------

  /** Every live token has its session row, and the limits that wait in the queue are the configured ones. */
  ghost predicate Sound(pol: Policy, st: State) {
    && Runs.LiveHasSession(st.base)
    && (forall h :: h in st.excess ==> st.excess[h] == pol.Limit(h))
    && (st.trimmer.Working? ==> forall h :: h in st.trimmer.batch ==> st.trimmer.batch[h] == pol.Limit(h))
  }

  /** The step opens a session for h. */
  ghost predicate OpensFor(st: State, e: Event, h: Holder) {
    e.Opening? && (e.s.user, e.realm) == h && InFlight(st, h) > 0
  }

  lemma StepOpens(pol: Policy, st: State, e: Event, h: Holder)
    ensures OpenOf(Next(pol, st, e), h) <= OpenOf(st, h) + if OpensFor(st, e, h) then {e.s} else {}
  {
    hide TrimOf, Open, Admits, Queued;
    match e
    case Opening(s, realm, p, completed) => Runs.OpenGrows(st.base, Runs.Login(s, realm, p), h.0, h.1);
    case Revoking => if RevokesSome(st) { Runs.OpenGrows(st.base, Runs.Trimming(st.trimmer.picked.ss), h.0, h.1); }
    case Other(b) => Runs.OpenGrows(st.base, b, h.0, h.1);
    case _ =>
  }

  lemma LiveStays(pol: Policy, st: State, e: Event)
    requires Runs.LiveHasSession(st.base)
    ensures Runs.LiveHasSession(Next(pol, st, e).base)
  {
    hide Runs.LiveHasSession, TrimOf, Admits, Queued;
    match e
    case Opening(s, realm, p, completed) => Runs.LiveKept(st.base, Runs.Login(s, realm, p));
    case Revoking => if RevokesSome(st) { Runs.LiveKept(st.base, Runs.Trimming(st.trimmer.picked.ss)); }
    case Other(b) => Runs.LiveKept(st.base, b);
    case _ =>
  }

  lemma SoundKept(pol: Policy, st: State, e: Event)
    requires Sound(pol, st)
    ensures Sound(pol, Next(pol, st, e))
  {
    LiveStays(pol, st, e);
    hide TrimOf, Admits, Runs.LiveHasSession;
  }

  lemma {:induction false} AlwaysSound(pol: Policy, es: seq<Event>)
    ensures Sound(pol, Exec(pol, START, es))
  {
    if es != [] {
      AlwaysSound(pol, es[..|es| - 1]);
      SoundKept(pol, Exec(pol, START, es[..|es| - 1]), es[|es| - 1]);
    }
  }

  // ---------- the hard threshold ----------

  /** Sessions open or admitted stay below the threshold and as many logins as run at a time. */
  ghost predicate Within(pol: Policy, st: State, h: Holder, k: nat) {
    |OpenOf(st, h)| + InFlight(st, h) < pol.Hard(h) + k
  }

  lemma WithinKept(pol: Policy, st: State, e: Event, h: Holder, k: nat)
    requires Within(pol, st, h, k) && InFlight(Next(pol, st, e), h) <= k
    ensures Within(pol, Next(pol, st, e), h, k)
  {
    var now := Next(pol, st, e);
    StepOpens(pol, st, e, h);
    Runs.Fits(OpenOf(now, h), OpenOf(st, h) + if OpensFor(st, e, h) then {e.s} else {});
    InFlightMoves(pol, st, e, h);
    hide Next, Open, OpensFor;
  }

  lemma InFlightMoves(pol: Policy, st: State, e: Event, h: Holder)
    ensures var now := Next(pol, st, e);
            if OpensFor(st, e, h) then InFlight(now, h) == InFlight(st, h) - 1
            else || InFlight(now, h) == InFlight(st, h)
                 || (Admits(pol, st, h) && InFlight(now, h) == InFlight(st, h) + 1 && OpenOf(now, h) == OpenOf(st, h))
  {
    hide TrimOf, Queued, Open;
  }

  /** In every run in which no more than k logins of a user in a realm are under way at a time, whatever
      else interleaves, the open sessions exceed the hard threshold by less than k. */
  lemma {:induction false} AlwaysWithin(pol: Policy, es: seq<Event>, h: Holder, k: nat)
    requires k >= 1 && forall i :: 0 <= i <= |es| ==> InFlight(Exec(pol, START, es[..i]), h) <= k
    ensures Within(pol, Exec(pol, START, es), h, k) && |OpenOf(Exec(pol, START, es), h)| < pol.Hard(h) + k
  {
    if es == [] {
      assert OpenOf(START, h) == {};
    } else {
      var before := es[..|es| - 1];
      forall i | 0 <= i <= |before|
        ensures InFlight(Exec(pol, START, before[..i]), h) <= k
      {
        assert before[..i] == es[..i];
      }
      AlwaysWithin(pol, before, h, k);
      assert es[..|es|] == es;
      WithinKept(pol, Exec(pol, START, before), es[|es| - 1], h, k);
    }
  }

  /** One login at a time never passes the hard threshold. */
  lemma AlwaysWithinHard(pol: Policy, es: seq<Event>, h: Holder)
    requires forall i :: 0 <= i <= |es| ==> InFlight(Exec(pol, START, es[..i]), h) <= 1
    ensures |OpenOf(Exec(pol, START, es), h)| <= pol.Hard(h)
  {
    AlwaysWithin(pol, es, h, 1);
  }

  function FirstPair(): Pair {
    Pair("r1", "", true, 10, 0)
  }

  function SecondPair(): Pair {
    Pair("r2", "", true, 10, 0)
  }

  /** Two logins at a time do: with a threshold of one, both count no session, and both open one. */
  lemma BurstPasses(pol: Policy)
    requires pol.Hard((1, 1)) == 1
    ensures var h: Holder := (1, 1);
            var counted := Next(pol, Next(pol, START, Counting(h, false)), Counting(h, false));
            var first := Next(pol, counted, Opening(Session(1, 1), 1, FirstPair(), true));
            var second := Next(pol, first, Opening(Session(1, 2), 1, SecondPair(), true));
            InFlight(counted, h) == 2 && OpenOf(second, h) == {Session(1, 1), Session(1, 2)}
  {
    var h: Holder := (1, 1);
    var once := Next(pol, START, Counting(h, false));
    assert OpenOf(START, h) == {} && OpenOf(once, h) == {};
    var counted := Next(pol, once, Counting(h, false));
    var first := Next(pol, counted, Opening(Session(1, 1), 1, FirstPair(), true));
    assert first.base.rows == map["r1" := Row(Refresh, Session(1, 1), 1, Enabled, 0, 10)];
    var second := Next(pol, first, Opening(Session(1, 2), 1, SecondPair(), true));
    assert second.base.rows["r1"].session == Session(1, 1) && second.base.rows["r2"].session == Session(1, 2);
    assert Live(second.base.rows["r1"], 0) && Live(second.base.rows["r2"], 0);
  }

  // ---------- a rejected login is not forgotten ----------

  /** A rejected login leaves its user and realm in the queue, if the queue can be reached at all. */
  lemma RejectedIsQueued(pol: Policy, st: State, h: Holder)
    requires pol.limiter.soft <= pol.limiter.hard && !Admits(pol, st, h)
    ensures var now := Next(pol, st, Counting(h, true));
            && h in now.excess && now.excess[h] == pol.Limit(h)
            && now.base == st.base && now.inflight == st.inflight
  {
  }

  /** The trimmer acknowledges h. */
  ghost predicate Acknowledges(st: State, e: Event, h: Holder) {
    e.AckExcess? && st.trimmer.Working? && h in st.trimmer.batch
  }

  /** It waits there, whatever happens, until the trimmer acknowledges a batch it is in. */
  lemma {:induction false} QueuedTillAcknowledged(pol: Policy, st: State, es: seq<Event>, h: Holder)
    requires h in st.excess
    requires forall i :: 0 <= i < |es| ==> !Acknowledges(Exec(pol, st, es[..i]), es[i], h)
    ensures h in Exec(pol, st, es).excess
  {
    if es != [] {
      var before := es[..|es| - 1];
      forall i | 0 <= i < |before|
        ensures !Acknowledges(Exec(pol, st, before[..i]), before[i], h)
      {
        assert before[..i] == es[..i];
      }
      QueuedTillAcknowledged(pol, st, before, h);
      assert !Acknowledges(Exec(pol, st, before), es[|es| - 1], h);
      StaysQueued(pol, Exec(pol, st, before), es[|es| - 1], h);
    }
  }

  /** Only that takes it out; a login rejected after the trim but before this is forgotten with it. */
  lemma StaysQueued(pol: Policy, st: State, e: Event, h: Holder)
    requires h in st.excess
    ensures h in Next(pol, st, e).excess <==> !Acknowledges(st, e, h)
  {
  }

  // ---------- and a trim makes room ----------

  /** The sessions a run opens for h. */
  ghost function OpenedFor(pol: Policy, st: State, es: seq<Event>, h: Holder): set<Session> {
    if es == [] then {}
    else
      var before, e := es[..|es| - 1], es[|es| - 1];
      OpenedFor(pol, st, before, h) + if OpensFor(Exec(pol, st, before), e, h) then {e.s} else {}
  }

  lemma {:induction false} RunOpens(pol: Policy, st: State, es: seq<Event>, h: Holder)
    ensures OpenOf(Exec(pol, st, es), h) <= OpenOf(st, h) + OpenedFor(pol, st, es, h)
  {
    if es != [] {
      RunOpens(pol, st, es[..|es| - 1], h);
      StepOpens(pol, Exec(pol, st, es[..|es| - 1]), es[|es| - 1], h);
      hide Next, Open, OpensFor;
    }
  }

  lemma SelectingPicks(pol: Policy, st: State, h: Holder, ss: set<Session>, metas: Metas)
    requires TrimOf(st, h, ss, metas)
    ensures Next(pol, st, Selecting(h, ss, metas)) == st.(trimmer := Working(st.trimmer.batch, Pick(h, ss)))
  {
    hide Trimmed, Open;
  }

  /** Without ss the open sessions come to the smaller of their number and the limit. */
  lemma SelectionFits(st: State, h: Holder, ss: set<Session>, metas: Metas)
    requires Runs.LiveHasSession(st.base) && TrimOf(st, h, ss, metas)
    ensures var max := Trimming.Limit(st.trimmer.batch[h]);
            |OpenOf(st, h) - ss| == if |OpenOf(st, h)| <= max then |OpenOf(st, h)| else max
  {
    OpenHasRow(st, h);
    hide Open, RevokedAll, Trimmed, Runs.LiveHasSession, Next;
    ListedFits(st.base.rows, st.base.sessions, ss, metas, h, st.trimmer.batch[h], st.base.now);
  }

  lemma ListedFits(rows: Rows, sessions: set<Session>, ss: set<Session>, metas: Metas, h: Holder, max: int, now: int)
    requires Trimmed(rows, RevokedAll(rows, ss, now), sessions, sessions - ss, metas, h.0, h.1, max, now)
    requires Open(rows, h.0, h.1, now) <= metas.Keys
    ensures var open, most := Open(rows, h.0, h.1, now), Trimming.Limit(max);
            |open - ss| == if |open| <= most then |open| else most
  {
    hide Open, RevokedAll, Leads, Trimming.Limit;
    var after := RevokedAll(rows, ss, now);
    RevokingCloses(rows, ss, h.0, h.1, now);
    assert Listable(rows, metas, h.0, h.1, now) == Open(rows, h.0, h.1, now);
    assert Listable(after, metas, h.0, h.1, now) == Open(after, h.0, h.1, now);
  }

  lemma OpenHasRow(st: State, h: Holder)
    requires Runs.LiveHasSession(st.base)
    ensures OpenOf(st, h) <= st.base.sessions
  {
  }

  lemma RevokingTakes(pol: Policy, st: State, h: Holder)
    requires RevokesSome(st)
    ensures OpenOf(Next(pol, st, Revoking), h) == OpenOf(st, h) - st.trimmer.picked.ss
  {
    RevokingCloses(st.base.rows, st.trimmer.picked.ss, h.0, h.1, st.base.now);
    hide Open;
  }

  lemma AdmitsBelow(pol: Policy, st: State, h: Holder, n: nat)
    requires pol.Limit(h) >= 1 && |OpenOf(st, h)| <= pol.Limit(h) + n
    ensures pol.limiter.hard > n ==> Admits(pol, st, h)
    ensures |OpenOf(st, h)| == pol.Limit(h) ==> (Admits(pol, st, h) <==> pol.limiter.hard >= 1)
  {
    hide Open;
  }

  lemma SizeOfAll(part: set<Session>, some: set<Session>, all: set<Session>)
    requires all <= part + some
    ensures |all| <= |part| + |some|
  {
    Runs.Fits(all, part + some);
    assert part + some == part + (some - part);
    Runs.Fits(some - part, some);
  }

  /** Whatever happens between the selection for h and the closing of what was selected, and after it:
      the open sessions exceed the limit by no more than what opened for h meanwhile. */
  lemma TrimBounds(pol: Policy, st: State, h: Holder, ss: set<Session>, metas: Metas, mid: seq<Event>, es: seq<Event>)
    requires Sound(pol, st) && TrimOf(st, h, ss, metas) && pol.Limit(h) >= 1
    requires var reached := Exec(pol, Next(pol, st, Selecting(h, ss, metas)), mid);
             reached.trimmer.Working? && reached.trimmer.picked == Pick(h, ss)
    ensures var picked := Next(pol, st, Selecting(h, ss, metas));
            var closed := Next(pol, Exec(pol, picked, mid), Revoking);
            var n := |OpenedFor(pol, picked, mid, h)| + |OpenedFor(pol, closed, es, h)|;
            && |OpenOf(Exec(pol, closed, es), h)| <= pol.Limit(h) + n
            && (pol.limiter.hard > n ==> Admits(pol, Exec(pol, closed, es), h))
  {
    var picked := Next(pol, st, Selecting(h, ss, metas));
    var reached := Exec(pol, picked, mid);
    var closed := Next(pol, reached, Revoking);
    SelectingPicks(pol, st, h, ss, metas);
    hide Next, Trimmed, Open, Exec;
    assert OpenOf(picked, h) == OpenOf(st, h);
    assert st.trimmer.batch[h] == pol.Limit(h) == Trimming.Limit(pol.Limit(h));
    hide TrimOf, OpenOf, Admits, Trimming.Limit, OpenedFor, Runs.LiveHasSession;
    SelectionFits(st, h, ss, metas);
    RunOpens(pol, picked, mid, h);
    RevokingTakes(pol, reached, h);
    RunOpens(pol, closed, es, h);
    var rest, opened1, opened2 := OpenOf(st, h) - ss, OpenedFor(pol, picked, mid, h), OpenedFor(pol, closed, es, h);
    SizeOfAll(rest, opened1, OpenOf(closed, h));
    SizeOfAll(OpenOf(closed, h), opened2, OpenOf(Exec(pol, closed, es), h));
    AdmitsBelow(pol, Exec(pol, closed, es), h, |opened1| + |opened2|);
  }

  /** Right after an undisturbed trim from the limit or above, the next login is admitted exactly if the
      hard threshold lies above the limit. */
  lemma TrimmedIsAdmitted(pol: Policy, st: State, h: Holder, ss: set<Session>, metas: Metas)
    requires Sound(pol, st) && TrimOf(st, h, ss, metas) && pol.Limit(h) >= 1 && |OpenOf(st, h)| >= pol.Limit(h)
    ensures var closed := Next(pol, Next(pol, st, Selecting(h, ss, metas)), Revoking);
            |OpenOf(closed, h)| == pol.Limit(h) && (Admits(pol, closed, h) <==> pol.limiter.hard >= 1)
  {
    var picked := Next(pol, st, Selecting(h, ss, metas));
    SelectingPicks(pol, st, h, ss, metas);
    hide Next, Trimmed, Open;
    assert OpenOf(picked, h) == OpenOf(st, h);
    assert st.trimmer.batch[h] == pol.Limit(h) == Trimming.Limit(pol.Limit(h));
    hide TrimOf, OpenOf, Admits, Trimming.Limit, Runs.LiveHasSession;
    SelectionFits(st, h, ss, metas);
    RevokingTakes(pol, picked, h);
    AdmitsBelow(pol, Next(pol, picked, Revoking), h, 0);
  }

  // ---------- the services ----------

  ghost predicate Shows(store: Store, excess: ExcessQueue, st: State)
    reads store, store.table, excess
  {
    Runs.Shows(store, st.base) && excess.items == st.excess
  }

  /** OpenSession.Execute: the limit first, then the transaction. */
  method OpenSession(store: Store, excess: ExcessQueue, operations: OperationService.OperationTable, pol: Policy,
      ticket: string, user: nat, generated: seq<nat>, realm: nat, p: Pair, now: int, reached: bool, ghost st: State)
      returns (ok: bool, s: Session)
    requires Shows(store, excess, st) && st.base.now == now && pol.limiter.soft <= pol.limiter.hard
    requires |generated| >= MAX_INSERT_ATTEMPTS
    requires forall i :: 0 <= i < |generated| ==> 1 <= generated[i] <= 0xFFFF_FFFF
    modifies store`sessions, store.table, excess, operations
    ensures s.user == user && (ok ==> Admits(pol, st, (user, realm)))
    ensures var counted := Next(pol, st, Counting((user, realm), reached));
            var end := if Admits(pol, st, (user, realm)) then Next(pol, counted, Opening(s, realm, p, ok)) else counted;
            Shows(store, excess, end)
    ensures ok ==> ticket in old(operations.ops) && operations.ops == old(operations.ops) - {ticket}
    ensures !ok ==> operations.ops == old(operations.ops)
  {
    s := Session(user, generated[0]);
    ok := ApplySessionLimit(store, excess, pol.limiter, user, realm, pol.kindOf(user, realm), now, reached);
    if !ok { return; }
    var issued;
    ok, issued := store.OpenSession(operations, ticket, user, generated, realm, p, now);
    if ok { s := issued; }
  }

  lemma ExecMore(pol: Policy, st: State, es: seq<Event>, e: Event)
    ensures Exec(pol, st, es + [e]) == Next(pol, Exec(pol, st, es), e)
  {
    assert (es + [e])[..|es|] == es;
  }

  /** Selecting and closing with nothing in between. */
  lemma TrimSteps(pol: Policy, at: State, h: Holder, metas: Metas, ss: set<Session>)
    requires TrimOf(at, h, ss, metas) && at.trimmer.picked.Nothing?
    ensures var after := RevokedAll(at.base.rows, ss, at.base.now);
            Next(pol, Next(pol, at, Selecting(h, ss, metas)), Revoking)
            == at.(base := at.base.(rows := after, sessions := at.base.sessions - ss))
  {
    SelectingPicks(pol, at, h, ss, metas);
    hide TrimOf, RevokedAll, Orphans, Open, Admits;
    NoneLive(at.base.rows, ss, at.base.now);
    var after := RevokedAll(at.base.rows, ss, at.base.now);
    assert Runs.Next(at.base, Runs.Trimming(ss)) == at.base.(rows := after, sessions := at.base.sessions - ss);
  }

  /** Between two trims of a batch: the tables are what the steps so far come to. */
  ghost predicate InBatch(store: Store, excess: ExcessQueue, at: State, batch: map<Holder, int>, metas: Metas, now: int)
    reads store, store.table, excess
  {
    && Shows(store, excess, at) && at.trimmer == Working(batch, Nothing) && at.base.now == now
      && metas.Keys == store.sessions
    && forall h :: h in batch ==> h in excess.items && excess.items[h] == batch[h]
  }

  method TrimOne(store: Store, excess: ExcessQueue, pol: Policy, metas: Metas, h: Holder, now: int, ghost at: State,
      ghost batch: map<Holder, int>)
      returns (left: Metas, ghost e: Event)
    requires InBatch(store, excess, at, batch, metas, now) && h in batch
    modifies store.table, store`sessions
    ensures e.Selecting? && InBatch(store, excess, Next(pol, Next(pol, at, e), Revoking), batch, left, now)
  {
    hide Trimmed, Next, Open, RevokedAll, Orphans, Listable;
    ghost var ss := TrimUser(store, metas, h.0, h.1, excess.items[h], now);
    TrimSteps(pol, at, h, metas, ss);
    e := Selecting(h, ss, metas);
    left := map s | s in metas && s in store.sessions :: metas[s];
  }

  method TrimAll(store: Store, excess: ExcessQueue, pol: Policy, metas: Metas, keys: set<Holder>, now: int,
      ghost st: State, ghost start: seq<Event>, ghost batch: map<Holder, int>)
      returns (left: Metas, ghost es: seq<Event>)
    requires InBatch(store, excess, Exec(pol, st, start), batch, metas, now) && keys <= batch.Keys
    modifies store.table, store`sessions
    ensures InBatch(store, excess, Exec(pol, st, es), batch, left, now)
  {
    hide Next, Exec, InBatch;
    var rest := keys;
    left, es := metas, start;
    while rest != {}
      invariant rest <= keys && InBatch(store, excess, Exec(pol, st, es), batch, left, now)
      decreases rest
    {
      var h :| h in rest;
      ghost var e;
      left, e := TrimOne(store, excess, pol, left, h, now, Exec(pol, st, es), batch);
      ExecMore(pol, st, es, e);
      ExecMore(pol, st, es + [e], Revoking);
      es := es + [e] + [Revoking];
      rest := rest - {h};
    }
  }

  lemma FetchShape(pol: Policy, st: State, keys: set<Holder>)
    requires st.trimmer.Resting? && keys <= st.excess.Keys
    ensures var batch := map h | h in keys :: st.excess[h];
            batch.Keys == keys && Exec(pol, st, [FetchExcess(keys)]) == st.(trimmer := Working(batch, Nothing))
  {
    NoSteps(pol, st);
    assert [] + [FetchExcess(keys)] == [FetchExcess(keys)];
    ExecMore(pol, st, [], FetchExcess(keys));
    hide Exec;
  }

  lemma SizeLeft(items: map<Holder, int>, keys: set<Holder>)
    requires keys <= items.Keys
    ensures |items - keys| == |items| - |keys| && (keys == items.Keys ==> items - keys == map[])
  {
    assert (items - keys).Keys == items.Keys - keys;
    assert items.Keys == (items.Keys - keys) + keys;
  }

  /** SessionExcessTrimmer.Execute: a batch of the queue is trimmed one after the other, then acknowledged. */
  method TrimExcess(store: Store, excess: ExcessQueue, pol: Policy, metas: Metas, limit: int, now: int, ghost st: State)
      returns (ok: bool, count: nat, ghost es: seq<Event>)
    requires Shows(store, excess, st) && st.trimmer.Resting? && st.base.now == now && metas.Keys == store.sessions
    modifies store.table, store`sessions, excess
    ensures ok <==> limit >= 1
    ensures Shows(store, excess, Exec(pol, st, es)) && Exec(pol, st, es).trimmer.Resting?
    ensures count == |old(excess.items)| - |excess.items| && (ok && count < limit ==> excess.items == map[])
  {
    hide Next, Exec;
    es := [];
    if limit < 1 {
      NoSteps(pol, st);
      return false, 0, es;
    }
    var keys := TakeSome(excess.items.Keys, limit);
    ok, count := true, |keys|;
    ghost var batch := map h | h in keys :: excess.items[h];
    FetchShape(pol, st, keys);
    SizeLeft(excess.items, keys);
    es := TrimBatch(store, excess, pol, metas, keys, now, st, [FetchExcess(keys)], batch);
  }

  method TrimBatch(store: Store, excess: ExcessQueue, pol: Policy, metas: Metas, keys: set<Holder>, now: int,
      ghost st: State, ghost start: seq<Event>, ghost batch: map<Holder, int>)
      returns (ghost es: seq<Event>)
    requires InBatch(store, excess, Exec(pol, st, start), batch, metas, now) && keys == batch.Keys
    modifies store.table, store`sessions, excess
    ensures Shows(store, excess, Exec(pol, st, es)) && Exec(pol, st, es).trimmer.Resting?
    ensures excess.items == old(excess.items) - keys
  {
    hide Next, Exec;
    var left;
    left, es := TrimAll(store, excess, pol, metas, keys, now, st, start, batch);
    ExecMore(pol, st, es, AckExcess);
    Acknowledged(pol, Exec(pol, st, es), batch);
    es := es + [AckExcess];
    excess.Delete(keys);
  }

  lemma NoSteps(pol: Policy, st: State)
    ensures Exec(pol, st, []) == st
  {
  }

  lemma Acknowledged(pol: Policy, at: State, batch: map<Holder, int>)
    requires at.trimmer == Working(batch, Nothing)
    ensures Next(pol, at, AckExcess) == at.(excess := at.excess - batch.Keys, trimmer := Resting)
  {
  }
}
