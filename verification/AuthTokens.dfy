/** Authorization tokens: revocation with a grace window, rotation, reuse detection, logout.
    mrauth/repository/auth_token_postgres.go, mrauth/service/authtoken/auth_token.go,
    mrauth/usecase/session/session_continue.go */
module AuthTokens {

  datatype Kind = Access | Refresh

  datatype Status = Enabled | Revoked

  /** A session belongs to a user; its tokens carry the realm. */
  datatype Session = Session(user: nat, id: nat)

  datatype Row = Row(kind: Kind, session: Session, realm: nat, status: Status, created: int, expires: int)

  type Rows = map<string, Row>

  /** What the issuer hands out: an opaque access token is stored, a signed one is not. */
  datatype Pair = Pair(refresh: string, access: string, signed: bool, refreshTtl: int, accessTtl: int)

  // ---------- presenting a refresh token ----------

  datatype Presented =
    | Rotating(row: Row)
    | Retried(row: Row)
    | TooLate
    | Reused(session: Session)
    | NotFound

  predicate Live(r: Row, now: int) {
    r.kind.Refresh? && r.status.Enabled? && r.expires > now
  }

  /** The outcome is decided by the row, its status and its expiry alone. */
  function Present(rows: Rows, token: string, now: int): Presented {
    if token !in rows || !rows[token].kind.Refresh? then NotFound
    else
      var r := rows[token];
      match (r.status, r.expires > now)
      case (Enabled, true) => Rotating(r)
      case (Enabled, false) => TooLate
      case (Revoked, true) => Retried(r)
      case (Revoked, false) => Reused(r.session)
  }

  function Superseded(rows: Rows, token: string, until: int): Rows
    requires token in rows
  {
    rows[token := rows[token].(status := Revoked, expires := until)]
  }

  /** Every enabled token of the sessions is revoked and expires at once. */
  function RevokedAll(rows: Rows, ss: set<Session>, now: int): (r: Rows)
    ensures r.Keys == rows.Keys
  {
    map t | t in rows :: if rows[t].session in ss && rows[t].status.Enabled? then
      rows[t].(status := Revoked, expires := now) else rows[t]
  }

  /** The rows of a new pair of tokens. */
  function WithPair(rows: Rows, p: Pair, s: Session, realm: nat, now: int): Rows {
    var r := rows[p.refresh := Row(Refresh, s, realm, Enabled, now, now + p.refreshTtl)];
    if p.signed then r else r[p.access := Row(Access, s, realm, Enabled, now, now + p.accessTtl)]
  }

  /** The primary key admits the new rows. */
  predicate Insertable(rows: Rows, p: Pair) {
    p.refresh !in rows && (!p.signed ==> p.access !in rows && p.access != p.refresh)
  }

  predicate ActiveOf(r: Row, s: Session, k: Kind) {
    r.session == s && r.kind == k && r.status.Enabled?
  }

  /** t is a latest enabled token of its kind in the session. */
  ghost predicate LatestOf(rows: Rows, s: Session, k: Kind, t: string) {
    t in rows && ActiveOf(rows[t], s, k) && forall u :: u in rows && ActiveOf(rows[u], s, k) ==>
      rows[u].created <= rows[t].created
  }

  datatype Answer =
    | Fresh(refresh: string)
    | Current(refresh: string)
    | Refused(why: Presented)
    | NoRefreshLeft
    | PairExpired
    | CannotSign
    | Failed

  ghost predicate NoneOf(rows: Rows, s: Session, k: Kind) {
    forall u :: u in rows ==> !ActiveOf(rows[u], s, k)
  }

  /** Some latest enabled token of its kind has not run out, or has. */
  ghost predicate LatestLives(rows: Rows, s: Session, k: Kind, now: int, lives: bool) {
    exists u :: LatestOf(rows, s, k, u) && (rows[u].expires >= now <==> lives)
  }

  /** What a retry is answered: the enabled refresh token of the session, if neither it nor the stored
      access token has run out, and if an access token that is not stored can be signed again. */
  ghost predicate Retries(rows: Rows, s: Session, now: int, canSign: bool, a: Answer) {
    match a
    case Current(t) =>
      && LatestOf(rows, s, Refresh, t) && rows[t].expires >= now
      && (LatestLives(rows, s, Access, now, true) || (NoneOf(rows, s, Access) && canSign))
    case NoRefreshLeft => NoneOf(rows, s, Refresh)
    case PairExpired =>
      || LatestLives(rows, s, Refresh, now, false)
      || (LatestLives(rows, s, Refresh, now, true) && LatestLives(rows, s, Access, now, false))
    case CannotSign => LatestLives(rows, s, Refresh, now, true) && NoneOf(rows, s, Access) && !canSign
    case _ => false
  }

  /** Every enabled token of the sessions is revoked and expires now; all other rows stay as they were. */
  ghost predicate Closed(rows: Rows, ss: set<Session>, now: int, after: Rows) {
    && after.Keys == rows.Keys
    && forall t :: t in rows ==>
         if rows[t].session in ss && rows[t].status.Enabled? then
           after[t] == rows[t].(status := Revoked, expires := now)
         else after[t] == rows[t]
  }

  /** The new pair is stored, enabled from now on for as long as each of its tokens lives, an access token
      that is signed is not; all other rows stay as they were. */
  ghost predicate Issued(rows: Rows, p: Pair, s: Session, realm: nat, now: int, after: Rows) {
    && after.Keys == rows.Keys + {p.refresh} + (if p.signed then {} else {p.access})
    && p.refresh !in rows && after[p.refresh] == Row(Refresh, s, realm, Enabled, now, now + p.refreshTtl)
    && (!p.signed ==> p.access !in rows && after[p.access] == Row(Access, s, realm, Enabled, now, now + p.accessTtl))
    && forall t :: t in rows ==> after[t] == rows[t]
  }

  class TokenTable {
    var rows: Rows

    constructor ()
      ensures rows == map[]
    {
      rows := map[];
    }

    method RevokeRefresh(token: string, now: int, grace: int) returns (p: Presented)
      modifies this
      ensures p == Present(old(rows), token, now)
      ensures rows == if p.Rotating? then Superseded(old(rows), token, now + grace) else old(rows)
      ensures p.Rotating? <==> token in old(rows) && EnabledRefresh(old(rows)[token]) && old(rows)[token].expires > now
      ensures p.Rotating? ==> rows == old(rows)[token := p.row.(status := Revoked, expires := now + grace)]
    {
      if token in rows && rows[token].kind.Refresh? && rows[token].status.Enabled? && rows[token].expires > now {
        p := Rotating(rows[token]);
        rows := rows[token := rows[token].(status := Revoked, expires := now + grace)];
        return;
      }
      p := FetchEnabledRefreshToken(token, now);
    }

    /** Only reached when the update found nothing to revoke, so "not expired" means "revoked". */
    method FetchEnabledRefreshToken(token: string, now: int) returns (p: Presented)
      requires !Present(rows, token, now).Rotating?
      ensures p == Present(rows, token, now)
      ensures p.NotFound? <==> token !in rows || !rows[token].kind.Refresh?
      ensures !p.NotFound? ==>
                && (p.Retried? <==> rows[token].status.Revoked? && rows[token].expires > now)
                && (p.Reused? <==> rows[token].status.Revoked? && rows[token].expires <= now)
                && (p.TooLate? <==> rows[token].status.Enabled? && rows[token].expires <= now)
    {
      if token !in rows || !rows[token].kind.Refresh? { return NotFound; }
      var row := rows[token];
      if row.expires <= now {
        if row.status.Enabled? { return TooLate; }
        return Reused(row.session);
      }
      assert row.status.Revoked?;
      return Retried(row);
    }

    method FetchActiveToken(s: Session, k: Kind) returns (found: bool, token: string)
      ensures found ==> LatestOf(rows, s, k, token)
      ensures found ==>
              token in rows && rows[token].session == s && rows[token].kind == k && rows[token].status.Enabled?
      ensures found ==>
                forall u :: u in rows && rows[u].session == s && rows[u].kind == k && rows[u].status.Enabled? ==>
                  rows[u].created <= rows[token].created
      ensures !found ==> NoneOf(rows, s, k)
    {
      found, token := false, "";
      var todo := rows.Keys;
      while todo != {}
        invariant todo <= rows.Keys
        invariant !found ==> forall u :: u in rows.Keys - todo ==> !ActiveOf(rows[u], s, k)
        invariant found ==> token in rows && ActiveOf(rows[token], s, k)
        invariant found ==> forall u :: u in rows.Keys - todo && ActiveOf(rows[u], s, k) ==>
                  rows[u].created <= rows[token].created
        decreases todo
      {
        var u :| u in todo;
        todo := todo - {u};
        if ActiveOf(rows[u], s, k) && (!found || rows[u].created > rows[token].created) {
          found, token := true, u;
        }
      }
    }

    method Insert(p: Pair, s: Session, realm: nat, now: int) returns (ok: bool)
      modifies this
      ensures ok <==> Insertable(old(rows), p)
      ensures rows == if ok then WithPair(old(rows), p, s, realm, now) else old(rows)
      ensures ok ==> Issued(old(rows), p, s, realm, now, rows)
    {
      ok := Insertable(rows, p);
      if ok {
        rows := WithPair(rows, p, s, realm, now);
      }
    }

    method RevokeTokensBySessions(ss: set<Session>, now: int)
      modifies this
      ensures rows == RevokedAll(old(rows), ss, now)
      ensures Closed(old(rows), ss, now, rows)
    {
      rows := RevokedAll(rows, ss, now);
    }

    /** Logout: the whole session of the token, whatever state the token itself is in. */
    method RevokeSessionByRefreshToken(token: string, now: int) returns (any: bool)
      modifies this
      ensures rows == LoggedOut(old(rows), token, now)
      ensures any <==> token in old(rows) && old(rows)[token].kind.Refresh?
                       && exists t :: && t in old(rows) && old(rows)[t].status.Enabled?
                                      && old(rows)[t].session == old(rows)[token].session
      ensures rows.Keys == old(rows).Keys
      ensures token in old(rows) && old(rows)[token].kind.Refresh? ==>
                var s := old(rows)[token].session;
                && (forall t :: t in rows && rows[t].session == s ==> rows[t].status.Revoked?)
                && (forall t :: t in rows && rows[t] != old(rows)[t] ==>
                      && old(rows)[t].session == s && old(rows)[t].status.Enabled?
                      && rows[t] == old(rows)[t].(status := Revoked, expires := now))
    {
      if token !in rows || !rows[token].kind.Refresh? { return false; }
      var s := rows[token].session;
      any := exists t :: t in rows && rows[t].session == s && rows[t].status.Enabled?;
      rows := RevokedAll(rows, {s}, now);
    }
  }

  function LoggedOut(rows: Rows, token: string, now: int): Rows {
    if token in rows && rows[token].kind.Refresh? then RevokedAll(rows, {rows[token].session}, now) else rows
  }

  /** The tokens after one of them was presented. */
  function Continued(rows: Rows, token: string, now: int, grace: int, p: Pair): Rows {
    match Present(rows, token, now)
    case Rotating(r) =>
      if Insertable(rows, p) then WithPair(Superseded(rows, token, now + grace), p, r.session, r.realm, now) else rows
    case Reused(s) => RevokedAll(rows, {s}, now)
    case _ => rows
  }

  class AuthTokenService {
    const table: TokenTable
    const grace: int

    constructor (table: TokenTable, grace: int)
      ensures this.table == table && this.grace == grace
    {
      this.table, this.grace := table, grace;
    }

    /** Revokes the token and issues the next pair in one transaction, or answers a retry. */
    method Recreate(token: string, now: int, p: Pair) returns (a: Answer)
      modifies table
      ensures match Present(old(table.rows), token, now)
              case Rotating(r) =>
                if Insertable(old(table.rows), p) then
                  && a == Fresh(p.refresh)
                  && table.rows == WithPair(Superseded(old(table.rows), token, now + grace), p, r.session, r.realm, now)
                else a.Failed? && table.rows == old(table.rows)
              case Retried(r) => table.rows == old(table.rows) && Retries(table.rows, r.session, now, p.signed, a)
              case other => a == Refused(other) && table.rows == old(table.rows)
    {
      var was := table.rows;
      var q := table.RevokeRefresh(token, now, grace);
      match q {
        case Rotating(r) =>
          var ok := table.Insert(p, r.session, r.realm, now);
          if !ok {
            table.rows := was;
            return Failed;
          }
          return Fresh(p.refresh);
        case Retried(r) => a := LastSessionToken(r.session, now, p.signed);
        case other => return Refused(other);
      }
    }

    method LastSessionToken(s: Session, now: int, canSign: bool) returns (a: Answer)
      ensures Retries(table.rows, s, now, canSign, a)
    {
      var found, refresh := table.FetchActiveToken(s, Refresh);
      if !found { return NoRefreshLeft; }
      if table.rows[refresh].expires < now { return PairExpired; }
      var stored, access := table.FetchActiveToken(s, Access);
      if stored {
        if table.rows[access].expires < now { return PairExpired; }
        return Current(refresh);
      }
      if !canSign { return CannotSign; }
      return Current(refresh);
    }

    /** ContinueSession.Execute, by the stored row of the token alone: an enabled token is rotated, a revoked
        one is answered as a retry while its window is open, and closes the session once it is over. */
    method Continue(token: string, now: int, p: Pair) returns (a: Answer)
      modifies table
      ensures token == "" || token !in old(table.rows) || !old(table.rows)[token].kind.Refresh? ==>
                a == Refused(NotFound) && table.rows == old(table.rows)
      ensures token != "" && token in old(table.rows) && old(table.rows)[token].kind.Refresh? ==>
                var rows, r := old(table.rows), old(table.rows)[token];
                && (r.status.Enabled? && r.expires > now && Insertable(rows, p) ==>
                      && a == Fresh(p.refresh)
                      && Issued(rows[token := r.(status := Revoked, expires := now + grace)], p, r.session, r.realm,
                                now, table.rows))
                && (r.status.Enabled? && r.expires > now && !Insertable(rows, p) ==> a.Failed? && table.rows == rows)
                && (r.status.Enabled? && r.expires <= now ==> a == Refused(TooLate) && table.rows == rows)
                && (r.status.Revoked? && r.expires > now ==>
                      && table.rows == rows && Retries(rows, r.session, now, p.signed, a)
                      && (a.Current? ==>
                            && a.refresh in rows && rows[a.refresh].kind.Refresh? && rows[a.refresh].status.Enabled?
                            && rows[a.refresh].session == r.session && rows[a.refresh].expires >= now))
                && (r.status.Revoked? && r.expires <= now ==>
                      && a == Refused(Reused(r.session)) && Closed(rows, {r.session}, now, table.rows)
                      && NoneOf(table.rows, r.session, Refresh) && NoneOf(table.rows, r.session, Access))
      ensures token != "" ==> table.rows == Continued(old(table.rows), token, now, grace, p)
    {
      if token == "" { return Refused(NotFound); }
      a := Recreate(token, now, p);
      if a.Refused? && a.why.Reused? {
        table.RevokeTokensBySessions({a.why.session}, now);
      }
    }
  }

  // ---------- what holds of every table ----------

  predicate EnabledRefresh(r: Row) {
    r.kind.Refresh? && r.status.Enabled?
  }

  /** No session has two enabled refresh tokens. */
  ghost predicate OneRefresh(rows: Rows) {
    forall t, u :: t in rows && u in rows && t != u && EnabledRefresh(rows[t]) && EnabledRefresh(rows[u]) ==>
      rows[t].session != rows[u].session
  }

  /** A retry answers with the one current refresh token of the session. */
  lemma RetryIsCurrent(rows: Rows, s: Session, now: int, canSign: bool, a: Answer, t: string)
    requires OneRefresh(rows) && Retries(rows, s, now, canSign, a) && a.Current?
    requires t in rows && ActiveOf(rows[t], s, Refresh)
    ensures a == Current(t)
  {
  }

  /** Every answer to a retry is the only one of its kind that fits, where each kind has one token. */
  lemma RetryDecided(rows: Rows, s: Session, now: int, canSign: bool, a: Answer, b: Answer)
    requires Retries(rows, s, now, canSign, a) && Retries(rows, s, now, canSign, b)
    requires forall t, u, k :: t in rows && u in rows && ActiveOf(rows[t], s, k) && ActiveOf(rows[u], s, k) ==> t == u
    ensures a == b
  {
  }

  /** A session without an enabled refresh token gives out no pair, whichever of its tokens is presented. */
  lemma NoPairWithoutRefresh(rows: Rows, token: string, now: int, canSign: bool, a: Answer)
    requires token in rows && NoneOf(rows, rows[token].session, Refresh)
    ensures !Present(rows, token, now).Rotating?
    ensures Present(rows, token, now).Retried? && Retries(rows, rows[token].session, now, canSign, a) ==>
            a.NoRefreshLeft?
  {
  }

  /** Reuse, logout and forced closing leave the session without an enabled token of any kind. */
  lemma RevokedIsClosed(rows: Rows, ss: set<Session>, now: int, s: Session)
    requires s in ss
    ensures NoneOf(RevokedAll(rows, ss, now), s, Refresh)
    ensures forall t :: t in rows && rows[t].session == s ==> RevokedAll(rows, ss, now)[t].status.Revoked?
  {
  }

  lemma RotationKeepsOne(rows: Rows, token: string, now: int, grace: int, p: Pair)
    requires OneRefresh(rows) && Present(rows, token, now).Rotating? && Insertable(rows, p)
    ensures OneRefresh(WithPair(Superseded(rows, token, now + grace), p, rows[token].session, rows[token].realm, now))
  {
  }
}
