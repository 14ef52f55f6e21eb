/** All interleavings of logins, rotations, revocations, the trimmer, the cleaner and the drainer,
    whose three steps - fetch, delete, acknowledge - are steps of their own. */
module SessionRuns {
  import opened AuthTokens
  import opened SessionStore

  /** Where the one drainer is. */
  datatype Drainer = Idle | Fetched(batch: set<Session>) | Deleted(batch: set<Session>)

  datatype State = State(rows: Rows, sessions: set<Session>, queue: set<Session>, drainer: Drainer, now: int,
    known: set<Session>)

  datatype Event =
    | Passing(duration: nat)
    | Login(s: Session, realm: nat, p: Pair)
    | Continuing(token: string, grace: int, p: Pair)
    | Closing(ss: set<Session>)
    | Logout(token: string)
    | Trimming(ss: set<Session>)
    | Cleaning(others: set<string>, refreshes: set<string>)
    | Fetching(batch: set<Session>)
    | Deleting
    | Acknowledging
    | Crash

  const START := State(map[], {}, {}, Idle, 0, {})

  /** Expired tokens only. */
  predicate Cleanable(st: State, others: set<string>, refreshes: set<string>) {
    others <= ExpiredOf(st.rows, Access, st.now) && refreshes <= ExpiredOf(st.rows, Refresh, st.now)
  }

  function Next(st: State, e: Event): State {
    match e
    case Passing(d) => st.(now := st.now + d)
    case Login(s, realm, p) =>
      if s in st.sessions || !Insertable(st.rows, p) then st
      else st.(rows := WithPair(st.rows, p, s, realm, st.now), sessions := st.sessions + {s}, known := st.known + {s})
    case Continuing(token, grace, p) =>
      if token == "" then st else st.(rows := Continued(st.rows, token, st.now, grace, p))
    case Closing(ss) => st.(rows := RevokedAll(st.rows, ss, st.now))
    case Logout(token) => st.(rows := LoggedOut(st.rows, token, st.now))
    case Trimming(ss) =>
      var after := RevokedAll(st.rows, ss, st.now);
      st.(rows := after, sessions := st.sessions - Orphans(after, ss, st.now))
    case Cleaning(others, refreshes) =>
      if !Cleanable(st, others, refreshes) then st
      else st.(rows := st.rows - others - refreshes, queue := st.queue + SessionsOf(st.rows, refreshes))
    case Fetching(batch) => if st.drainer.Idle? && batch <= st.queue then st.(drainer := Fetched(batch)) else st
    case Deleting =>
      if st.drainer.Fetched? then
        st.(sessions := st.sessions - Orphans(st.rows, st.drainer.batch, st.now), drainer := Deleted(st.drainer.batch))
      else st
    case Acknowledging => if st.drainer.Deleted? then st.(queue := st.queue - st.drainer.batch, drainer := Idle) else st
    case Crash => st.(drainer := Idle)
  }

  ghost function Exec(st: State, es: seq<Event>): State {
    if es == [] then st else Next(Exec(st, es[..|es| - 1]), es[|es| - 1])
  }

  // ---------- no session row leaks, none is deleted alive ----------

  ghost predicate Accounted(st: State, s: Session) {
    HasRefresh(st.rows, s) || s in st.queue
  }

  ghost predicate NoLeak(st: State) {
    forall s :: s in st.sessions ==> Accounted(st, s)
  }

  ghost predicate LiveHasSession(st: State) {
    forall t :: t in st.rows && Live(st.rows[t], st.now) ==> st.rows[t].session in st.sessions
  }

  /** What the drainer left of its batch still has a refresh row of its own. */
  ghost predicate DrainerOk(st: State) {
    st.drainer.Deleted? ==> forall s :: s in st.drainer.batch && s in st.sessions ==> HasRefresh(st.rows, s)
  }

  ghost predicate Kept(st: State) {
    NoLeak(st) && LiveHasSession(st) && DrainerOk(st)
  }

  /** Rows only change in place: every session keeps its refresh rows. */
  lemma RefreshStays(rows: Rows, after: Rows, s: Session)
    requires HasRefresh(rows, s)
    requires forall t :: t in rows ==>
             t in after && after[t].kind == rows[t].kind && after[t].session == rows[t].session
    ensures HasRefresh(after, s)
  {
    var t :| t in rows && rows[t].kind.Refresh? && rows[t].session == s;
    assert after[t].session == s;
  }

  lemma LiveHasRefresh(rows: Rows, s: Session, now: int)
    requires IsLive(rows, s, now)
    ensures HasRefresh(rows, s)
  {
    var t :| t in rows && Live(rows[t], now) && rows[t].session == s;
    assert rows[t].kind.Refresh?;
  }

  /** The cleaner takes no token row without queueing its session. */
  lemma CleanedAccounted(st: State, others: set<string>, refreshes: set<string>, s: Session)
    requires Cleanable(st, others, refreshes) && Accounted(st, s)
    ensures Accounted(Next(st, Cleaning(others, refreshes)), s)
  {
    var now := Next(st, Cleaning(others, refreshes));
    if s !in st.queue {
      var t :| t in st.rows && st.rows[t].kind.Refresh? && st.rows[t].session == s;
      if t in refreshes {
        assert st.rows[t].session in SessionsOf(st.rows, refreshes);
      } else {
        assert t in now.rows;
      }
    }
  }

  lemma ChangedKept(st: State, now: State)
    requires Kept(st) && st.queue == now.queue && now.drainer == st.drainer && st.now <= now.now
    requires forall t :: t in st.rows ==>
             t in now.rows && now.rows[t].kind == st.rows[t].kind && now.rows[t].session == st.rows[t].session
    requires forall s :: s in now.sessions ==> s in st.sessions || HasRefresh(now.rows, s)
    requires forall t :: t in now.rows && Live(now.rows[t], now.now) ==> now.rows[t].session in now.sessions
    ensures Kept(now)
  {
    forall s | s in now.sessions && HasRefresh(st.rows, s)
      ensures HasRefresh(now.rows, s)
    {
      RefreshStays(st.rows, now.rows, s);
    }
  }

  /** Every step keeps all of it, as long as no cleaning comes between a drainer's deletion and its
      acknowledgement. */
  lemma StepKept(st: State, e: Event)
    requires Kept(st) && !(e.Cleaning? && st.drainer.Deleted?)
    ensures Kept(Next(st, e))
  {
    var now := Next(st, e);
    match e
    case Login(s, realm, p) =>
      if now != st {
        assert now.rows[p.refresh].session == s;
        ChangedKept(st, now);
      }
    case Continuing(token, grace, p) => ContinuingKept(st, token, grace, p);
    case Trimming(ss) => NoneLive(st.rows, ss, st.now); ChangedKept(st, now);
    case Cleaning(others, refreshes) => if now != st { CleaningKept(st, others, refreshes); }
    case Deleting => if st.drainer.Fetched? { DeletingKept(st); }
    case Acknowledging => AcknowledgingKept(st);
    case Fetching(batch) =>
    case Crash =>
    case _ => ChangedKept(st, now);
  }

  /** The presented token is rotated. */
  predicate Rotates(st: State, e: Event) {
    e.Continuing? && e.token != "" && Present(st.rows, e.token, st.now).Rotating? && Insertable(st.rows, e.p)
  }

  lemma ContinuingKept(st: State, token: string, grace: int, p: Pair)
    requires Kept(st)
    ensures Kept(Next(st, Continuing(token, grace, p)))
  {
    if Rotates(st, Continuing(token, grace, p)) { assert Live(st.rows[token], st.now); }
    ChangedKept(st, Next(st, Continuing(token, grace, p)));
  }

  lemma CleaningKept(st: State, others: set<string>, refreshes: set<string>)
    requires Kept(st) && !st.drainer.Deleted?
    requires Cleanable(st, others, refreshes)
    ensures Kept(Next(st, Cleaning(others, refreshes)))
  {
    forall s | s in st.sessions
      ensures Accounted(Next(st, Cleaning(others, refreshes)), s)
    {
      CleanedAccounted(st, others, refreshes, s);
    }
  }

  lemma DeletingKept(st: State)
    requires Kept(st) && st.drainer.Fetched?
    ensures Kept(Next(st, Deleting))
  {
    var now := Next(st, Deleting);
    forall s | s in now.sessions && s in st.drainer.batch
      ensures HasRefresh(st.rows, s)
    {
      LiveHasRefresh(st.rows, s, st.now);
    }
    forall t | t in st.rows && Live(st.rows[t], st.now)
      ensures IsLive(st.rows, st.rows[t].session, st.now)
    {
    }
  }

  lemma AcknowledgingKept(st: State)
    requires Kept(st)
    ensures Kept(Next(st, Acknowledging))
  {
    var now := Next(st, Acknowledging);
    forall s | s in now.sessions
      ensures Accounted(now, s)
    {
      assert Accounted(st, s);
    }
  }

  /** No step at all deletes a session row that is alive. */
  lemma LiveKept(st: State, e: Event)
    requires LiveHasSession(st)
    ensures LiveHasSession(Next(st, e))
  {
    var now := Next(st, e);
    match e
    case Deleting =>
      forall t | t in st.rows && Live(st.rows[t], st.now)
        ensures IsLive(st.rows, st.rows[t].session, st.now)
      {
      }
    case Continuing(token, grace, p) => if Rotates(st, e) { assert Live(st.rows[token], st.now); }
    case Trimming(ss) => NoneLive(st.rows, ss, st.now);
    case _ =>
  }

  /** Cleaner and drainer of one job run one after the other. */
  ghost predicate Serial(st: State, es: seq<Event>) {
    forall i :: 0 <= i < |es| && es[i].Cleaning? ==> !Exec(st, es[..i]).drainer.Deleted?
  }

  lemma {:induction false} NeverLeaks(es: seq<Event>)
    requires Serial(START, es)
    ensures Kept(Exec(START, es))
  {
    if es != [] {
      var before := es[..|es| - 1];
      forall i | 0 <= i < |before| && before[i].Cleaning?
        ensures !Exec(START, before[..i]).drainer.Deleted?
      {
        assert before[..i] == es[..i];
      }
      NeverLeaks(before);
      StepKept(Exec(START, before), es[|es| - 1]);
    }
  }

  /** Only the cleaner takes rows; no step changes a row's kind or session. */
  lemma RowsStay(st: State, e: Event)
    requires !e.Cleaning?
    ensures var rows := Next(st, e).rows;
            forall t :: t in st.rows ==>
              t in rows && rows[t].kind == st.rows[t].kind && rows[t].session == st.rows[t].session
  {
  }

  lemma NewRowsOnly(st: State, e: Event, s: Session)
    requires s in Next(st, e).sessions && !e.Acknowledging?
    ensures s in st.sessions || HasRefresh(Next(st, e).rows, s)
    ensures st.queue <= Next(st, e).queue
  {
    if e.Login? && s !in st.sessions { assert Next(st, e).rows[e.p.refresh].session == s; }
  }

  /** Until it is acknowledged no step, cleaning included, lets a session row out of account. */
  lemma NoLeakKept(st: State, e: Event)
    requires NoLeak(st) && !e.Acknowledging?
    ensures NoLeak(Next(st, e))
  {
    hide Next, HasRefresh, Cleanable;
    var now := Next(st, e);
    forall s | s in now.sessions
      ensures Accounted(now, s)
    {
      NewRowsOnly(st, e, s);
      if s in st.sessions && HasRefresh(st.rows, s) { AccountedStays(st, e, s); }
    }
  }

  lemma AccountedStays(st: State, e: Event, s: Session)
    requires HasRefresh(st.rows, s)
    ensures Accounted(Next(st, e), s)
  {
    hide HasRefresh, Continued, LoggedOut, RevokedAll;
    if e.Cleaning? {
      if Cleanable(st, e.others, e.refreshes) { CleanedAccounted(st, e.others, e.refreshes, s); }
    } else {
      RowsStay(st, e);
      RefreshStays(st.rows, Next(st, e).rows, s);
    }
  }

  lemma {:induction false} NoLeakTill(st: State, es: seq<Event>)
    requires NoLeak(st) && forall i :: 0 <= i < |es| ==> !es[i].Acknowledging?
    ensures NoLeak(Exec(st, es))
  {
    if es != [] {
      NoLeakTill(st, es[..|es| - 1]);
      NoLeakKept(Exec(st, es[..|es| - 1]), es[|es| - 1]);
    }
  }

  /** The exception is real. Whatever happens between a deletion and its acknowledgement, cleanings
      included, the acknowledgement leaks exactly the sessions of its batch without a refresh row by then. */
  lemma LeakIff(st: State, es: seq<Event>)
    requires NoLeak(st) && forall i :: 0 <= i < |es| ==> !es[i].Acknowledging?
    requires Exec(st, es).drainer.Deleted?
    ensures var end := Exec(st, es);
            NoLeak(Next(end, Acknowledging))
            <==> forall s :: s in end.drainer.batch && s in end.sessions ==> HasRefresh(end.rows, s)
  {
    NoLeakTill(st, es);
    var end := Exec(st, es);
    var now := Next(end, Acknowledging);
    forall s | s in end.sessions && s !in end.drainer.batch
      ensures Accounted(now, s)
    {
      assert Accounted(end, s);
    }
    if NoLeak(now) {
      forall s | s in end.drainer.batch && s in end.sessions
        ensures HasRefresh(end.rows, s)
      {
        assert Accounted(now, s);
      }
    }
  }

  /** A session whose first token was rotated and cleaned waits in the queue; the drainer found it alive
      and let it be. */
  function SparedByDrainer(s: Session): State {
    State(map["r2" := Row(Refresh, s, 1, Enabled, 0, 10)], {s}, {s}, Deleted({s}), 2, {s})
  }

  function FirstPair(): Pair {
    Pair("r1", "", true, 10, 0)
  }

  function SecondPair(): Pair {
    Pair("r2", "", true, 10, 0)
  }

  function Rotated(s: Session): State {
    State(map["r1" := Row(Refresh, s, 1, Revoked, 0, 1), "r2" := Row(Refresh, s, 1, Enabled, 0, 10)], {s}, {}, Idle, 2,
      {s})
  }

  lemma RotatedIsReachable(s: Session)
    ensures Next(Next(Next(START, Login(s, 1, FirstPair())), Continuing("r1", 1, SecondPair())), Passing(2))
            == Rotated(s)
  {
    assert Next(START, Login(s, 1, FirstPair()))
           == State(map["r1" := Row(Refresh, s, 1, Enabled, 0, 10)], {s}, {}, Idle, 0, {s});
  }

  lemma SparedIsReachable(s: Session)
    ensures Next(Next(Next(Rotated(s), Cleaning({}, {"r1"})), Fetching({s})), Deleting) == SparedByDrainer(s)
  {
    var left := map["r2" := Row(Refresh, s, 1, Enabled, 0, 10)];
    assert {"r1"} <= ExpiredOf(Rotated(s).rows, Refresh, 2);
    assert Rotated(s).rows - {} - {"r1"} == left;
    assert SessionsOf(Rotated(s).rows, {"r1"}) == {s};
    assert Live(left["r2"], 2);
    assert Orphans(left, {s}, 2) == {};
  }

  /** Its last token expires and is cleaned before the drainer acknowledges: the row is never found again. */
  lemma LeakIsReal(s: Session)
    ensures var gone := Next(Next(SparedByDrainer(s), Passing(20)), Cleaning({}, {"r2"}));
            Kept(SparedByDrainer(s)) && s in gone.sessions && !NoLeak(Next(gone, Acknowledging))
  {
    assert SparedByDrainer(s).rows["r2"].session == s;
    var waited := Next(SparedByDrainer(s), Passing(20));
    assert {"r2"} <= ExpiredOf(waited.rows, Refresh, waited.now);
    var end := Next(Next(waited, Cleaning({}, {"r2"})), Acknowledging);
    assert end.rows == map[] && end.sessions == {s} && end.queue == {};
    assert !Accounted(end, s);
  }

  /** After everything expired was cleaned and the whole queue drained, a session row that is left
      still has a refresh row that has not expired. */
  lemma CleanupCompletes(st: State, refreshes: set<string>, s: Session)
    requires Kept(st) && st.drainer.Idle?
    requires refreshes == ExpiredOf(st.rows, Refresh, st.now)
    ensures var cleaned := Next(st, Cleaning({}, refreshes));
            var drained := Next(Next(Next(cleaned, Fetching(cleaned.queue)), Deleting), Acknowledging);
            && drained.queue == {} && Kept(drained)
            && (s in drained.sessions ==>
                  exists t :: && t in drained.rows && drained.rows[t].kind.Refresh?
                              && drained.rows[t].session == s && drained.rows[t].expires >= drained.now)
  {
    var cleaned := Next(st, Cleaning({}, refreshes));
    StepKept(st, Cleaning({}, refreshes));
    var fetched := Next(cleaned, Fetching(cleaned.queue));
    StepKept(cleaned, Fetching(cleaned.queue));
    var deleted := Next(fetched, Deleting);
    StepKept(fetched, Deleting);
    StepKept(deleted, Acknowledging);
    var drained := Next(deleted, Acknowledging);
    if s in drained.sessions {
      assert Accounted(drained, s);
      var t :| t in drained.rows && drained.rows[t].kind.Refresh? && drained.rows[t].session == s;
      assert t in st.rows && t !in refreshes;
    }
  }

  // ---------- the scheduled job ----------

  ghost predicate Shows(store: Store, st: State)
    reads store, store.table
  {
    store.table.rows == st.rows && store.sessions == st.sessions && store.queue == st.queue
  }

  lemma ExecMore(st: State, es: seq<Event>, e: Event)
    ensures Exec(st, es + [e]) == Next(Exec(st, es), e)
  {
    assert (es + [e])[..|es|] == es;
  }

  lemma SerialMore(st: State, es: seq<Event>, e: Event)
    requires Serial(st, es) && (e.Cleaning? ==> !Exec(st, es).drainer.Deleted?)
    ensures Serial(st, es + [e]) && Exec(st, es + [e]) == Next(Exec(st, es), e)
    ensures Kept(Exec(st, es)) ==> Kept(Exec(st, es + [e]))
  {
    ExecMore(st, es, e);
    hide Next, Kept;
    forall i | 0 <= i < |es + [e]| && (es + [e])[i].Cleaning?
      ensures !Exec(st, (es + [e])[..i]).drainer.Deleted?
    {
      if i < |es| { assert (es + [e])[..i] == es[..i]; } else { assert (es + [e])[..i] == es; }
    }
    if Kept(Exec(st, es)) { StepKept(Exec(st, es), e); }
  }

  /** Between the batches of the job: the tables are what its steps so far come to, nothing is pending. */
  ghost predicate InJob(store: Store, st: State, es: seq<Event>, now: int)
    reads store, store.table
  {
    var at := Exec(st, es);
    Shows(store, at) && at.drainer.Idle? && at.now == now && Serial(st, es) && (Kept(st) ==> Kept(at))
  }

  lemma Cleaned(st: State, es: seq<Event>, others: set<string>, refreshes: set<string>)
    requires Serial(st, es) && Exec(st, es).drainer.Idle? && Cleanable(Exec(st, es), others, refreshes)
    ensures var at, all := Exec(st, es), es + [Cleaning(others, refreshes)];
            && Serial(st, all)
            && Exec(st, all) == at.(rows := at.rows - others - refreshes,
              queue := at.queue + SessionsOf(at.rows, refreshes))
            && (Kept(at) ==> Kept(Exec(st, all)))
  {
    SerialMore(st, es, Cleaning(others, refreshes));
    hide Exec, Serial, Kept;
  }

  function DrainSteps(batch: set<Session>): seq<Event> {
    [Fetching(batch)] + [Deleting] + [Acknowledging]
  }

  lemma Drained(st: State, es: seq<Event>, batch: set<Session>)
    requires Serial(st, es) && Exec(st, es).drainer.Idle? && batch <= Exec(st, es).queue
    ensures var at, all := Exec(st, es), es + DrainSteps(batch);
            && Serial(st, all)
            && Exec(st, all) == at.(sessions := at.sessions - Orphans(at.rows, batch, at.now),
              queue := at.queue - batch)
            && (Kept(at) ==> Kept(Exec(st, all)))
  {
    var f, d := es + [Fetching(batch)], es + [Fetching(batch)] + [Deleting];
    SerialMore(st, es, Fetching(batch));
    SerialMore(st, f, Deleting);
    SerialMore(st, d, Acknowledging);
    assert d + [Acknowledging] == es + DrainSteps(batch);
    hide Exec, Serial, Kept;
  }

  /** Rows that have not expired are as they were, and so are the session rows of the tokens alive among them. */
  ghost predicate Untouched(rows: Rows, sessions: set<Session>, after: Rows, left: set<Session>, now: int) {
    && (forall t :: t in after ==> t in rows && after[t] == rows[t])
    && (forall t :: t in rows && rows[t].expires >= now ==> t in after)
    && left <= sessions
    && (forall t :: t in rows && Live(rows[t], now) && rows[t].session in sessions ==> rows[t].session in left)
  }

  /** The job plays the cleaner batch by batch and then the drainer, each until a batch is short or its
      turns are used up. So it is a serial run and leaks nothing; and if neither ran out of turns,
      nothing expired and nothing queued is left. */
  method CleanUp(store: Store, limit: int, turns: nat, now: int, ghost st: State)
    returns (complete: bool, ghost es: seq<Event>)
    requires limit >= 1 && Shows(store, st) && st.drainer.Idle? && st.now == now
    modifies store, store.table
    ensures InJob(store, st, es, now)
    ensures Untouched(old(store.table.rows), old(store.sessions), store.table.rows, store.sessions, now)
    ensures forall user, realm ::
            Open(store.table.rows, user, realm, now) == Open(old(store.table.rows), user, realm, now)
    ensures complete ==>
            store.queue == {}
            && ExpiredOf(store.table.rows, Refresh, now) == {} == ExpiredOf(store.table.rows, Access, now)
  {
    es := [];
    var cleaned, drained := false, false;
    for turn := 0 to turns
      invariant InJob(store, st, es, now)
      invariant Untouched(old(store.table.rows), old(store.sessions), store.table.rows, store.sessions, now)
      invariant cleaned ==> ExpiredOf(store.table.rows, Refresh, now) == {} == ExpiredOf(store.table.rows, Access, now)
    {
      ghost var at := Exec(st, es);
      var ok, count, others, refreshes := store.CleanTokens(limit, now);
      Cleaned(st, es, others, refreshes);
      es := es + [Cleaning(others, refreshes)];
      if count < limit {
        cleaned := true;
        break;
      }
    }
    for turn := 0 to turns
      invariant InJob(store, st, es, now)
      invariant Untouched(old(store.table.rows), old(store.sessions), store.table.rows, store.sessions, now)
      invariant cleaned ==> ExpiredOf(store.table.rows, Refresh, now) == {} == ExpiredOf(store.table.rows, Access, now)
      invariant drained ==> store.queue == {}
    {
      var ok, count, batch := store.Drain(limit, now);
      Drained(st, es, batch);
      es := es + DrainSteps(batch);
      if count < limit {
        drained := true;
        break;
      }
    }
    complete := cleaned && drained;
    forall user: nat, realm: nat
      ensures Open(store.table.rows, user, realm, now) == Open(old(store.table.rows), user, realm, now)
    {
      SameOpen(old(store.table.rows), store.table.rows, user, realm, now);
    }
  }

  // ---------- one refresh token per session, and none again once it has none ----------

  ghost predicate Known(st: State) {
    forall t :: t in st.rows ==> st.rows[t].session in st.known
  }

  /** Session ids are not issued twice. */
  ghost predicate NewId(st: State, e: Event) {
    e.Login? ==> e.s !in st.known
  }

  lemma OneRefreshKept(st: State, e: Event)
    requires OneRefresh(st.rows) && Known(st) && NewId(st, e)
    ensures OneRefresh(Next(st, e).rows) && Known(Next(st, e))
  {
    KnownKept(st, e);
    match e
    case Login(s, realm, p) => if Next(st, e) != st { LoginKeepsOne(st.rows, p, s, realm, st.now); }
    case Continuing(token, grace, p) =>
      if Rotates(st, e) { RotationKeepsOne(st.rows, token, st.now, grace, p); }
      else { EnabledOnly(st.rows, Next(st, e).rows); }
    case _ => EnabledOnly(st.rows, Next(st, e).rows);
  }

  lemma LoginKeepsOne(rows: Rows, p: Pair, s: Session, realm: nat, now: int)
    requires OneRefresh(rows) && Insertable(rows, p) && forall t :: t in rows ==> rows[t].session != s
    ensures OneRefresh(WithPair(rows, p, s, realm, now))
  {
  }

  lemma EnabledOnly(rows: Rows, after: Rows)
    requires OneRefresh(rows)
    requires forall t :: t in after && after[t].status.Enabled? ==> t in rows && rows[t] == after[t]
    ensures OneRefresh(after)
  {
  }

  lemma ClosedStays(st: State, e: Event, s: Session)
    requires Known(st) && NewId(st, e) && s in st.known && NoneOf(st.rows, s, Refresh)
    ensures s in Next(st, e).known && NoneOf(Next(st, e).rows, s, Refresh)
  {
    match e
    case Continuing(token, grace, p) =>
      if Rotates(st, e) { assert ActiveOf(st.rows[token], st.rows[token].session, Refresh); }
    case _ =>
  }

  ghost predicate NewIds(st: State, es: seq<Event>) {
    forall i :: 0 <= i < |es| ==> NewId(Exec(st, es[..i]), es[i])
  }

  lemma NewIdsBefore(st: State, es: seq<Event>)
    requires NewIds(st, es) && es != []
    ensures NewIds(st, es[..|es| - 1]) && NewId(Exec(st, es[..|es| - 1]), es[|es| - 1])
  {
    var before := es[..|es| - 1];
    forall i | 0 <= i < |before|
      ensures NewId(Exec(st, before[..i]), before[i])
    {
      assert before[..i] == es[..i];
    }
  }

  lemma {:induction false} OneRefreshTill(st: State, es: seq<Event>)
    requires OneRefresh(st.rows) && Known(st) && NewIds(st, es)
    ensures OneRefresh(Exec(st, es).rows) && Known(Exec(st, es))
  {
    if es != [] {
      NewIdsBefore(st, es);
      OneRefreshTill(st, es[..|es| - 1]);
      OneRefreshKept(Exec(st, es[..|es| - 1]), es[|es| - 1]);
    }
  }

  lemma AlwaysOneRefresh(es: seq<Event>)
    requires NewIds(START, es)
    ensures OneRefresh(Exec(START, es).rows) && Known(Exec(START, es))
  {
    OneRefreshTill(START, es);
  }

  /** Once logout, closing, reuse or trimming left a session without a refresh token, no token of it
      ever brings a pair again, whatever else happens. */
  lemma {:induction false} ClosedForever(st: State, es: seq<Event>, s: Session, token: string, canSign: bool, a: Answer)
    requires Known(st) && NewIds(st, es) && s in st.known && NoneOf(st.rows, s, Refresh)
    ensures Known(Exec(st, es)) && s in Exec(st, es).known && NoneOf(Exec(st, es).rows, s, Refresh)
    ensures var end := Exec(st, es);
            token in end.rows && end.rows[token].session == s ==>
              !Present(end.rows, token, end.now).Rotating?
                && (Retries(end.rows, s, end.now, canSign, a) ==> a.NoRefreshLeft?)
  {
    if es != [] {
      NewIdsBefore(st, es);
      ClosedForever(st, es[..|es| - 1], s, token, canSign, a);
      var before := Exec(st, es[..|es| - 1]);
      ClosedStays(before, es[|es| - 1], s);
      KnownKept(before, es[|es| - 1]);
    }
  }

  lemma KnownKept(st: State, e: Event)
    requires Known(st)
    ensures Known(Next(st, e))
  {
  }

  // ---------- what opens sessions ----------

  lemma Fits(a: set<Session>, b: set<Session>)
    requires a <= b
    ensures |a| <= |b|
  {
    assert b == a + (b - a);
  }

  lemma OpenGrows(st: State, e: Event, user: nat, realm: nat)
    ensures Open(Next(st, e).rows, user, realm, Next(st, e).now)
         <= Open(st.rows, user, realm, st.now) + if e.Login? && e.s.user == user && e.realm == realm then {e.s} else {}
  {
    var now := Next(st, e);
    match e
    case Login(s, r, p) => if now != st { LoginOpens(st.rows, p, s, r, st.now, user, realm); }
    case Continuing(token, grace, p) =>
      if Rotates(st, e) { RotationKeepsOpen(st.rows, token, st.now, grace, p, user, realm); }
      else if now.rows != st.rows { RevokingCloses(st.rows, {st.rows[token].session}, user, realm, st.now); }
    case Closing(ss) => RevokingCloses(st.rows, ss, user, realm, st.now);
    case Trimming(ss) => RevokingCloses(st.rows, ss, user, realm, st.now);
    case Logout(token) =>
      if now.rows != st.rows { RevokingCloses(st.rows, {st.rows[token].session}, user, realm, st.now); }
    case _ => FewerRowsFewerOpen(st.rows, now.rows, user, realm, st.now, now.now);
  }

  // ---------- what closes sessions, and what does not ----------

  /** Closing by an operator, by the trimmer, by logout, or by the reuse of a token after its window. */
  ghost predicate Closes(st: State, e: Event, s: Session) {
    match e
    case Closing(ss) => s in ss
    case Trimming(ss) => s in ss
    case Logout(t) => t in st.rows && st.rows[t].kind.Refresh? && st.rows[t].session == s
    case Continuing(t, grace, p) =>
      && t != "" && t in st.rows && st.rows[t].kind.Refresh? && st.rows[t].session == s
      && st.rows[t].status.Revoked? && st.rows[t].expires <= st.now
    case _ => false
  }

  /** It leaves the session without an enabled token, and every other session as it was. */
  lemma ClosingCloses(st: State, e: Event, s: Session)
    requires Closes(st, e, s)
    ensures var rows := Next(st, e).rows;
            && rows.Keys == st.rows.Keys && NoneOf(rows, s, Refresh) && NoneOf(rows, s, Access)
            && (e.Logout? || e.Continuing? ==> forall t :: t in rows && st.rows[t].session != s ==>
              rows[t] == st.rows[t])
            && (forall t :: t in rows && st.rows[t].status.Revoked? ==> rows[t] == st.rows[t])
  {
  }

  /** After a logout, or any other closing, no token of the session brings a pair again, in any run. */
  lemma ClosedOnceForAll(st: State, e: Event, s: Session, es: seq<Event>, token: string, canSign: bool, a: Answer)
    requires Known(st) && Closes(st, e, s) && s in st.known && NewIds(Next(st, e), es)
    ensures var end := Exec(Next(st, e), es);
            && NoneOf(end.rows, s, Refresh)
            && (token in end.rows && end.rows[token].session == s ==>
                  && !(end.rows[token].kind.Refresh? && end.rows[token].status.Enabled?)
                  && (Retries(end.rows, s, end.now, canSign, a) ==> a.NoRefreshLeft?))
  {
    ClosingCloses(st, e, s);
    KnownKept(st, e);
    hide Exec, NewIds, Known;
    ClosedForever(Next(st, e), es, s, token, canSign, a);
  }

  /** What is open stays open through every step that does not close it while the time stands still;
      neither the cleaner nor the drainer is one that does. */
  lemma NothingElseCloses(st: State, e: Event, s: Session, user: nat, realm: nat)
    requires s in Open(st.rows, user, realm, st.now) && !Closes(st, e, s) && !e.Passing?
    requires Rotates(st, e) ==> e.p.refreshTtl > 0
    ensures s in Open(Next(st, e).rows, user, realm, st.now)
  {
    var now := Next(st, e);
    OpenIff(st.rows, user, realm, st.now, s);
    OpenIff(now.rows, user, realm, st.now, s);
    if Rotates(st, e) {
      RotationKeepsOpen(st.rows, e.token, st.now, e.grace, e.p, user, realm);
    } else {
      var t :| && t in st.rows && st.rows[t].kind.Refresh? && st.rows[t].status.Enabled? && st.rows[t].expires > st.now
        && st.rows[t].session == s && st.rows[t].realm == realm;
      LiveRowStays(st, e, t);
    }
  }

  lemma LiveRowStays(st: State, e: Event, t: string)
    requires t in st.rows && Live(st.rows[t], st.now) && !Closes(st, e, st.rows[t].session) && !Rotates(st, e)
    ensures t in Next(st, e).rows && Next(st, e).rows[t] == st.rows[t]
  {
  }

  /** A login that goes through opens its session. */
  lemma LoginIsOpen(st: State, s: Session, realm: nat, p: Pair)
    requires s !in st.sessions && Insertable(st.rows, p) && p.refreshTtl > 0
    ensures s in Open(Next(st, Login(s, realm, p)).rows, s.user, realm, st.now)
    ensures s in Next(st, Login(s, realm, p)).sessions
  {
    var rows := Next(st, Login(s, realm, p)).rows;
    assert rows[p.refresh].session == s;
    OpenIff(rows, s.user, realm, st.now, s);
  }

  /** The cleaner takes expired tokens only: every open session stays open, everywhere. */
  lemma CleaningSpares(st: State, others: set<string>, refreshes: set<string>)
    ensures var now := Next(st, Cleaning(others, refreshes));
            && (forall t :: t in st.rows && st.rows[t].expires >= st.now ==> t in now.rows && now.rows[t] == st.rows[t])
            && (forall user, realm :: Open(now.rows, user, realm, st.now) == Open(st.rows, user, realm, st.now))
  {
    var now := Next(st, Cleaning(others, refreshes));
    forall user: nat, realm: nat
      ensures Open(now.rows, user, realm, st.now) == Open(st.rows, user, realm, st.now)
    {
      SameOpen(st.rows, now.rows, user, realm, st.now);
    }
  }

  lemma SameOpen(rows: Rows, fewer: Rows, user: nat, realm: nat, now: int)
    requires forall t :: t in fewer ==> t in rows && fewer[t] == rows[t]
    requires forall t :: t in rows && rows[t].expires >= now ==> t in fewer
    ensures Open(fewer, user, realm, now) == Open(rows, user, realm, now)
  {
  }

  // ---------- a token presented again ----------

  /** ContinueSession.Execute is a step of the run. */
  method ContinueSession(store: Store, service: AuthTokenService, token: string, now: int, p: Pair, ghost st: State)
      returns (a: Answer)
    requires Shows(store, st) && service.table == store.table && st.now == now
    modifies store.table
    ensures Shows(store, Next(st, Continuing(token, service.grace, p)))
  {
    a := service.Continue(token, now, p);
  }

  /** The cleaner does not take the token. */
  ghost predicate Untaken(es: seq<Event>, token: string) {
    forall i :: 0 <= i < |es| && es[i].Cleaning? ==> token !in es[i].refreshes
  }

  lemma TimePasses(st: State, e: Event)
    ensures st.now <= Next(st, e).now
  {
  }

  lemma RevokedStays(st: State, e: Event, token: string)
    requires token in st.rows && st.rows[token].kind.Refresh? && st.rows[token].status.Revoked?
    requires st.now <= st.rows[token].expires || (e.Cleaning? ==> token !in e.refreshes)
    ensures token in Next(st, e).rows && Next(st, e).rows[token] == st.rows[token]
  {
  }

  lemma {:induction false} RevokedStaysTill(at: State, es: seq<Event>, token: string)
    requires token in at.rows && at.rows[token].kind.Refresh? && at.rows[token].status.Revoked?
    requires Exec(at, es).now <= at.rows[token].expires || Untaken(es, token)
    ensures token in Exec(at, es).rows && Exec(at, es).rows[token] == at.rows[token]
  {
    if es != [] {
      var before, e := es[..|es| - 1], es[|es| - 1];
      TimePasses(Exec(at, before), e);
      assert Untaken(es, token) ==> Untaken(before, token) && (e.Cleaning? ==> token !in e.refreshes);
      RevokedStaysTill(at, before, token);
      RevokedStays(Exec(at, before), e, token);
      hide Next, Untaken;
    }
  }

  /** What becomes of a token by its rotation: revoked at once, its row valid for the grace period. */
  lemma RotatedRow(st: State, token: string, grace: int, p: Pair)
    requires Rotates(st, Continuing(token, grace, p))
    ensures var at := Next(st, Continuing(token, grace, p));
            && token in at.rows && at.rows[token] == st.rows[token].(status := Revoked, expires := st.now + grace)
            && p.refresh in at.rows && st.rows[token].kind.Refresh? && at.now == st.now
            && at.rows[p.refresh]
               == Row(Refresh, st.rows[token].session, st.rows[token].realm, Enabled, st.now, st.now + p.refreshTtl)
  {
  }

  /** While the grace period lasts, presenting the old token again changes nothing and closes nothing. */
  lemma RetryIsHarmless(st: State, token: string, grace: int, p: Pair, es: seq<Event>, g: int, q: Pair)
    requires Rotates(st, Continuing(token, grace, p))
    requires Exec(Next(st, Continuing(token, grace, p)), es).now < st.now + grace
    ensures var end := Exec(Next(st, Continuing(token, grace, p)), es);
            && token in end.rows && end.rows[token].status.Revoked? && end.rows[token].expires > end.now
            && Next(end, Continuing(token, g, q)) == end
  {
    RotatedRow(st, token, grace, p);
    RevokedStaysTill(Next(st, Continuing(token, grace, p)), es, token);
    hide Exec;
  }

  /** Once it is over, it closes the session, as long as the old token has not been cleaned away. */
  lemma ReplayCloses(st: State, token: string, grace: int, p: Pair, es: seq<Event>, g: int, q: Pair)
    requires Rotates(st, Continuing(token, grace, p)) && Untaken(es, token)
    requires Exec(Next(st, Continuing(token, grace, p)), es).now >= st.now + grace
    ensures var s, end := st.rows[token].session, Exec(Next(st, Continuing(token, grace, p)), es);
            var rows := Next(end, Continuing(token, g, q)).rows;
            && NoneOf(rows, s, Refresh) && NoneOf(rows, s, Access)
            && forall t :: t in end.rows && end.rows[t].session != s ==> t in rows && rows[t] == end.rows[t]
  {
    RotatedRow(st, token, grace, p);
    var end := Exec(Next(st, Continuing(token, grace, p)), es);
    RevokedStaysTill(Next(st, Continuing(token, grace, p)), es, token);
    ClosingCloses(end, Continuing(token, g, q), st.rows[token].session);
    hide Exec, Next;
  }

  /** And once it has been cleaned away, presenting it does nothing at all: the session stays open. */
  lemma ForgottenReplay(st: State, token: string, g: int, q: Pair)
    requires token !in st.rows
    ensures Next(st, Continuing(token, g, q)) == st
  {
  }

  /** Nothing closes the session of the token or rotates the token itself. */
  ghost predicate Spared(at: State, es: seq<Event>, t: string, s: Session) {
    forall i :: 0 <= i < |es| ==>
      !Closes(Exec(at, es[..i]), es[i], s) && !(es[i].Continuing? && es[i].token == t)
  }

  lemma EnabledStays(st: State, e: Event, t: string)
    requires t in st.rows && EnabledRefresh(st.rows[t]) && st.now <= st.rows[t].expires
    requires !Closes(st, e, st.rows[t].session) && !(e.Continuing? && e.token == t)
    ensures t in Next(st, e).rows && Next(st, e).rows[t] == st.rows[t]
  {
  }

  lemma {:induction false} EnabledStaysTill(at: State, es: seq<Event>, t: string)
    requires t in at.rows && EnabledRefresh(at.rows[t]) && Exec(at, es).now <= at.rows[t].expires
    requires Spared(at, es, t, at.rows[t].session)
    ensures t in Exec(at, es).rows && Exec(at, es).rows[t] == at.rows[t]
  {
    if es != [] {
      var before, e := es[..|es| - 1], es[|es| - 1];
      forall i | 0 <= i < |before|
        ensures !Closes(Exec(at, before[..i]), before[i], at.rows[t].session)
                && !(before[i].Continuing? && before[i].token == t)
      {
        assert before[..i] == es[..i];
      }
      TimePasses(Exec(at, before), e);
      EnabledStaysTill(at, before, t);
      EnabledStays(Exec(at, before), e, t);
      hide Next, Closes;
    }
  }

  /** There is an access token to go with it: a stored one, none of which has run out, or one that can be signed. */
  ghost predicate AccessLeft(rows: Rows, s: Session, now: int, canSign: bool) {
    && (canSign || !NoneOf(rows, s, Access))
    && forall u :: u in rows && ActiveOf(rows[u], s, Access) ==> rows[u].expires >= now
  }

  /** A retry within the grace period gets the new refresh token, unless something closed the session or
      rotated that token too; it fails only for want of an access token to go with it. */
  lemma RetryGetsNewToken(st: State, token: string, grace: int, p: Pair, es: seq<Event>, canSign: bool, a: Answer)
    requires OneRefresh(st.rows) && Known(st) && Rotates(st, Continuing(token, grace, p))
    requires var at := Next(st, Continuing(token, grace, p));
             && NewIds(at, es) && Spared(at, es, p.refresh, st.rows[token].session)
             && Exec(at, es).now <= st.now + p.refreshTtl
             && Retries(Exec(at, es).rows, st.rows[token].session, Exec(at, es).now, canSign, a)
    ensures var s, end := st.rows[token].session, Exec(Next(st, Continuing(token, grace, p)), es);
            && !a.NoRefreshLeft? && (a.Current? ==> a == Current(p.refresh))
            && (AccessLeft(end.rows, s, end.now, canSign) ==> a == Current(p.refresh))
  {
    var at := Next(st, Continuing(token, grace, p));
    RotatedRow(st, token, grace, p);
    OneRefreshKept(st, Continuing(token, grace, p));
    OneRefreshTill(at, es);
    EnabledStaysTill(at, es, p.refresh);
    hide Exec, Next, Spared, NewIds, Known;
  }
}
