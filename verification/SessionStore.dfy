/** Session rows beside their tokens: opening, the expired-token cleaner, the cleanup queue and the
    orphan deleter. mrauth/service/session/issuer.go, mrauth/usecase/clean, mrauth/repository */
module SessionStore {
  import opened AuthTokens
  import OperationService

  const MAX_INSERT_ATTEMPTS: nat := 3

  /** Some refresh row of the session is left, in whatever state. */
  ghost predicate HasRefresh(rows: Rows, s: Session) {
    exists t :: t in rows && rows[t].kind.Refresh? && rows[t].session == s
  }

  predicate IsLive(rows: Rows, s: Session, now: int) {
    exists t :: t in rows && Live(rows[t], now) && rows[t].session == s
  }

  /** What one anti-join deletes: candidates without a live refresh token. */
  function Orphans(rows: Rows, candidates: set<Session>, now: int): set<Session> {
    set s | s in candidates && !IsLive(rows, s, now)
  }

  /** Everything of one kind that has expired. */
  function ExpiredOf(rows: Rows, k: Kind, now: int): set<string> {
    set t | t in rows && rows[t].kind == k && rows[t].expires < now
  }

  function SessionsOf(rows: Rows, ts: set<string>): set<Session>
    requires ts <= rows.Keys
  {
    set t | t in ts :: rows[t].session
  }

  /** The live sessions of a user in a realm. */
  function Open(rows: Rows, user: nat, realm: nat, now: int): set<Session> {
    set t | t in rows && Live(rows[t], now) && rows[t].session.user == user && rows[t].realm == realm :: rows[t].session
  }

  lemma OpenIff(rows: Rows, user: nat, realm: nat, now: int, s: Session)
    ensures s in Open(rows, user, realm, now)
       <==> s.user == user && exists t :: && t in rows && rows[t].kind.Refresh? && rows[t].status.Enabled?
                                          && rows[t].expires > now && rows[t].session == s && rows[t].realm == realm
  {
    if exists t :: t in rows && Live(rows[t], now) && rows[t].session == s && rows[t].realm == realm && s.user == user {
      var t :| t in rows && Live(rows[t], now) && rows[t].session == s && rows[t].realm == realm;
      assert rows[t].session in Open(rows, user, realm, now);
    }
  }

  /** What a query with a limit returns: as many as the limit allows, any of them. */
  method TakeSome<T(==)>(all: set<T>, limit: nat) returns (some: set<T>)
    ensures some <= all && |some| <= limit && (|some| < limit ==> some == all)
  {
    some := {};
    var rest := all;
    while rest != {} && |some| < limit
      invariant some !! rest && some + rest == all && |some| <= limit
      decreases rest
    {
      var x :| x in rest;
      rest, some := rest - {x}, some + {x};
    }
  }

  class Store {
    const table: TokenTable
    var sessions: set<Session>
    var queue: set<Session>

    constructor (table: TokenTable)
      ensures this.table == table && sessions == {} && queue == {}
    {
      this.table, sessions, queue := table, {}, {};
    }

    /** Tries generated ids until one is free, three times at most. */
    method Issue(user: nat, generated: seq<nat>) returns (ok: bool, s: Session)
      requires |generated| >= MAX_INSERT_ATTEMPTS
      requires forall i :: 0 <= i < |generated| ==> 1 <= generated[i] <= 0xFFFF_FFFF
      modifies this`sessions
      ensures ok ==>
              s.user == user && 1 <= s.id <= 0xFFFF_FFFF && s !in old(sessions) && sessions == old(sessions) + {s}
      ensures ok ==> exists i :: 0 <= i < MAX_INSERT_ATTEMPTS && s.id == generated[i] && forall j :: 0 <= j < i ==>
              Session(user, generated[j]) in old(sessions)
      ensures !ok ==> sessions == old(sessions) && forall j :: 0 <= j < MAX_INSERT_ATTEMPTS ==>
              Session(user, generated[j]) in old(sessions)
    {
      var attempt := 1;
      while true
        invariant 1 <= attempt <= MAX_INSERT_ATTEMPTS && sessions == old(sessions)
        invariant forall j :: 0 <= j < attempt - 1 ==> Session(user, generated[j]) in old(sessions)
        decreases MAX_INSERT_ATTEMPTS - attempt
      {
        s := Session(user, generated[attempt - 1]);
        if s !in sessions {
          sessions := sessions + {s};
          return true, s;
        }
        if attempt == MAX_INSERT_ATTEMPTS { return false, s; }
        attempt := attempt + 1;
      }
    }

    /** The transaction of OpenSession: the row, then the tokens, then the operation that pays for it. */
    method OpenSession(operations: OperationService.OperationTable, ticket: string, user: nat, generated: seq<nat>,
        realm: nat, p: Pair, now: int)
        returns (ok: bool, s: Session)
      requires |generated| >= MAX_INSERT_ATTEMPTS
      requires forall i :: 0 <= i < |generated| ==> 1 <= generated[i] <= 0xFFFF_FFFF
      modifies this`sessions, table, operations
      ensures ok ==> s.user == user && s !in old(sessions) && sessions == old(sessions) + {s}
      ensures ok ==> ticket in old(operations.ops) && operations.ops == old(operations.ops) - {ticket}
      ensures ok ==> Insertable(old(table.rows), p) && table.rows == WithPair(old(table.rows), p, s, realm, now)
      ensures !ok ==>
              sessions == old(sessions) && table.rows == old(table.rows) && operations.ops == old(operations.ops)
      ensures !ok ==>
                || ticket !in old(operations.ops) || !Insertable(old(table.rows), p)
                || forall j :: 0 <= j < MAX_INSERT_ATTEMPTS ==> Session(user, generated[j]) in old(sessions)
    {
      var was, rowsWas := sessions, table.rows;
      ok, s := Issue(user, generated);
      if !ok { return; }
      ok := table.Insert(p, s, realm, now);
      if !ok {
        sessions := was;
        return;
      }
      ok := operations.Delete(ticket);
      if !ok {
        assert operations.ops == old(operations.ops);
        sessions, table.rows := was, rowsWas;
      }
    }

    method DeleteOrphaned(candidates: set<Session>, now: int)
      modifies this`sessions
      ensures sessions == old(sessions) - Orphans(table.rows, candidates, now)
      ensures forall s :: s in sessions <==>
                && s in old(sessions)
                && (s in candidates ==>
                      exists t :: && t in table.rows && table.rows[t].kind.Refresh? && table.rows[t].status.Enabled?
                                  && table.rows[t].expires > now && table.rows[t].session == s)
    {
      sessions := sessions - Orphans(table.rows, candidates, now);
    }

    /** AuthTokenCleaner.Execute: a batch of expired access tokens goes, then a batch of expired refresh
        tokens together with the queueing of their sessions. */
    method CleanTokens(limit: int, now: int)
      returns (ok: bool, count: nat, ghost others: set<string>, ghost refreshes: set<string>)
      modifies table, this`queue
      ensures ok <==> limit >= 1
      ensures !ok ==> others == refreshes == {}
      ensures others <= ExpiredOf(old(table.rows), Access, now) && refreshes <= ExpiredOf(old(table.rows), Refresh, now)
      ensures table.rows == old(table.rows) - others - refreshes
      ensures forall t :: t in old(table.rows) && old(table.rows)[t].expires >= now ==>
                t in table.rows && table.rows[t] == old(table.rows)[t]
      ensures forall t :: t in old(table.rows) && t !in table.rows && old(table.rows)[t].kind.Refresh? ==>
                old(table.rows)[t].session in queue
      ensures queue == old(queue) + SessionsOf(old(table.rows), refreshes)
      ensures count == |others| + |refreshes|
      ensures ok && count < limit ==>
              others == ExpiredOf(old(table.rows), Access, now) && refreshes == ExpiredOf(old(table.rows), Refresh, now)
      ensures ok && count < limit ==> forall t :: t in table.rows ==> table.rows[t].expires >= now
    {
      others, refreshes := {}, {};
      if limit < 1 { return false, 0, others, refreshes; }
      var some := TakeSome(ExpiredOf(table.rows, Access, now), limit);
      others, count := some, |some|;
      table.rows := table.rows - some;
      assert ExpiredOf(table.rows, Refresh, now) == ExpiredOf(old(table.rows), Refresh, now);
      some := TakeSome(ExpiredOf(table.rows, Refresh, now), limit);
      var candidates := SessionsOf(table.rows, some);
      assert candidates == SessionsOf(old(table.rows), some);
      table.rows := table.rows - some;
      queue := queue + candidates;
      ok, refreshes, count := true, some, count + |some|;
    }

    /** SessionDrainer.Execute with nothing in between: fetched, deleted, acknowledged. */
    method Drain(limit: int, now: int) returns (ok: bool, count: nat, ghost batch: set<Session>)
      modifies this`sessions, this`queue
      ensures ok <==> limit >= 1
      ensures !ok ==> batch == {}
      ensures batch <= old(queue) && count == |batch| && (ok && count < limit ==> batch == old(queue))
      ensures sessions == old(sessions) - Orphans(table.rows, batch, now)
      ensures queue == old(queue) - batch
    {
      batch := {};
      if limit < 1 { return false, 0, {}; }
      var some := TakeSome(queue, limit);
      ok, count, batch := true, |some|, some;
      if count == 0 { return; }
      DeleteOrphaned(some, now);
      queue := queue - some;
    }

    /** The trimmer's transaction on the sessions it selected. */
    method Trim(ss: set<Session>, now: int)
      modifies table, this`sessions
      ensures table.rows == RevokedAll(old(table.rows), ss, now)
      ensures sessions == old(sessions) - ss
    {
      table.RevokeTokensBySessions(ss, now);
      NoneLive(old(table.rows), ss, now);
      DeleteOrphaned(ss, now);
    }
  }

  /** Revoking leaves all of them orphans. */
  lemma NoneLive(rows: Rows, ss: set<Session>, now: int)
    ensures Orphans(RevokedAll(rows, ss, now), ss, now) == ss
  {
  }

  // ---------- counting open sessions ----------

  /** Rotating opens no session, and closes none while the new token is live. */
  lemma RotationKeepsOpen(rows: Rows, token: string, now: int, grace: int, p: Pair, user: nat, realm: nat)
    requires Present(rows, token, now).Rotating? && Insertable(rows, p)
    ensures var after := WithPair(Superseded(rows, token, now + grace), p, rows[token].session, rows[token].realm, now);
            && Open(after, user, realm, now) <= Open(rows, user, realm, now)
            && (p.refreshTtl > 0 ==> Open(after, user, realm, now) == Open(rows, user, realm, now))
  {
    var r := rows[token];
    var after := WithPair(Superseded(rows, token, now + grace), p, r.session, r.realm, now);
    forall s | s in Open(after, user, realm, now)
      ensures s in Open(rows, user, realm, now)
    {
      var t :| t in after && Live(after[t], now) && after[t].session.user == user && after[t].realm == realm
        && after[t].session == s;
      assert rows[if t == p.refresh then token else t].session == s;
    }
    if p.refreshTtl > 0 {
      forall s | s in Open(rows, user, realm, now)
        ensures s in Open(after, user, realm, now)
      {
        var t :| t in rows && Live(rows[t], now) && rows[t].session.user == user && rows[t].realm == realm
          && rows[t].session == s;
        assert after[if t == token then p.refresh else t].session == s;
      }
    }
  }

  lemma LoginOpens(rows: Rows, p: Pair, s: Session, realm: nat, now: int, user: nat, r: nat)
    requires Insertable(rows, p)
    ensures Open(WithPair(rows, p, s, realm, now), user, r, now)
         <= Open(rows, user, r, now) + if s.user == user && realm == r then {s} else {}
  {
  }

  /** Closing sessions takes exactly these out of what is open. */
  lemma RevokingCloses(rows: Rows, ss: set<Session>, user: nat, realm: nat, now: int)
    ensures Open(RevokedAll(rows, ss, now), user, realm, now) == Open(rows, user, realm, now) - ss
  {
    var after := RevokedAll(rows, ss, now);
    forall s | s in Open(rows, user, realm, now) - ss
      ensures s in Open(after, user, realm, now)
    {
      var t :| t in rows && Live(rows[t], now) && rows[t].session.user == user && rows[t].realm == realm
        && rows[t].session == s;
      assert after[t] == rows[t];
    }
  }

  lemma FewerRowsFewerOpen(rows: Rows, fewer: Rows, user: nat, realm: nat, now: int, later: int)
    requires now <= later && forall t :: t in fewer ==> t in rows && fewer[t] == rows[t]
    ensures Open(fewer, user, realm, later) <= Open(rows, user, realm, now)
  {
  }
}
