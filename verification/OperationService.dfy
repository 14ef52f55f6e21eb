/** Stored operations and the use cases that confirm, resend, open, apply and consume them.
    mrauth/repository/secure_operation_postgres.go, mrauth/component/secureoperation,
    mrauth/usecase/operation, mrauth/usecase/security/apply_operation.go */
module OperationService {
  import opened SecureOperations
  import opened SecondFactor

  type Ops = map<string, Op>

  /** What one request brings along: the code checkers as they answer, the generated token and
      code hash, the time, and whether the notification, or the alert, is accepted. */
  datatype Request = Request(oracle: Oracle, limits: Limits, newToken: string, newHash: string, at: int, sent: bool)

  datatype Outcome =
    | Done
    | NothingToDo
    | CodeRequired
    | OperationInvalid
    | Expired
    | Rejected(why: Error)
    | AlreadyUsed
    | Forbidden
    | NotConfirmed
    | Failed

  // ---------- confirming, as a function of the tables ----------

  datatype Prepared =
    | Refused(outcome: Outcome)
    | Counted
    | Ready(after: Op, commit: Commit)

  /** Everything up to the point where the transaction writes: nothing, a failed attempt, or the
      next state of the operation with what it still has to spend. */
  function Prepare(ops: Ops, row: Option<Factor>, token: string, code: string, q: Request): Prepared {
    if token == "" || token !in ops then Refused(OperationInvalid)
    else
      var op := ops[token];
      if op.token == "" || !Invariant(op) then Refused(Failed)
      else if q.at > op.expiresAt then Refused(Expired)
      else if op.status.Confirmed? then Refused(NothingToDo)
      else if code == "" then Refused(CodeRequired)
      else
        var check := CheckAction(q.oracle, q.limits, row, op.actions[0], code);
        match ConfirmError(op, check)
        case NoAttempts => Refused(Rejected(NoAttempts))
        case CodeIncorrect => Counted
        case NoError =>
          if |op.actions| > 1 && q.newToken == "" then Refused(Failed)
          else Ready(Advanced(op, q.newToken, q.newHash, q.at), if |op.actions| == 1 then check.commit else NoCommit)
        case _ => Refused(Failed)
  }

  /** Only e-mail can carry the next code, and it needs an address. */
  predicate Notifies(op: Op, sent: bool) {
    op.actions != [] && Sendable(op.actions[0]) ==> op.actions[0].how.Email? && op.actions[0].address != "" && sent
  }

  /** The notification of a confirmation goes out, and so does the alert about a spent recovery code. */
  predicate Delivers(op: Op, commit: Commit, sent: bool) {
    Notifies(op, sent) && (commit.RecoveryCommit? ==> sent)
  }

  function Replaced(ops: Ops, token: string, op: Op): Ops {
    (ops - {token})[op.token := op]
  }

  /** Replace finds an opened row, meets the counters' checks, and takes no token that is in use. */
  predicate CanReplace(ops: Ops, token: string, op: Op) {
    token in ops && ops[token].status.Opened? && Storable(op) && (op.token == token || op.token !in ops)
  }

  function Decremented(ops: Ops, token: string): Ops
    requires token in ops
  {
    ops[token := ops[token].(attempts := ops[token].attempts - 1)]
  }

  /** The factor of an operation's owner. */
  function FactorFor(ops: Ops, factors: map<nat, Factor>, token: string): Option<Factor> {
    if token in ops && ops[token].user in factors then Some(factors[ops[token].user]) else None
  }

  /** Confirming with nothing in between the check and the commit: the tables after it, and the answer. */
  function Confirms(ops: Ops, factors: map<nat, Factor>, token: string, code: string, q: Request)
    : (Ops, map<nat, Factor>, Outcome)
  {
    var row := FactorFor(ops, factors, token);
    match Prepare(ops, row, token, code, q)
    case Refused(o) => (ops, factors, o)
    case Counted => (Decremented(ops, token), factors,
      Rejected(if ops[token].attempts > 1 then CodeIncorrect else NoAttempts))
    case Ready(after, commit) =>
      if !CanReplace(ops, token, after) then (ops, factors, Failed)
      else if !CanSpend(row, commit) then (ops, factors, AlreadyUsed)
      else if !Delivers(after, commit, q.sent) then (ops, factors, Failed)
      else (Replaced(ops, token, after),
        if commit.NoCommit? then factors else factors[after.user := Spend(row, commit).value], Done)
  }

  /** Prepare never drops an owed update: what the verifier asked for reaches the transaction that
      stores Confirmed, and an operation that goes on owes nothing. */
  lemma CommitKept(ops: Ops, row: Option<Factor>, token: string, code: string, q: Request)
    requires Prepare(ops, row, token, code, q).Ready? && ops[token].token == token
    ensures var p := Prepare(ops, row, token, code, q);
            var check := CheckAction(q.oracle, q.limits, row, ops[token].actions[0], code);
            && check == Right(p.commit)
            && (!p.commit.NoCommit? ==> p.after.status.Confirmed? && p.after.token == token)
            && (p.after.status.Opened? ==> p.commit.NoCommit?)
  {
    OwedBySnapshot(q.oracle, q.limits, row, ops[token].actions[0], code);
  }

  // ---------- which codes count, and which confirm ----------

  /** The confirmation gets as far as comparing the code. */
  ghost predicate Attempted(ops: Ops, token: string, code: string, at: int) {
    && token != "" && code != "" && token in ops && ops[token].token == token && Invariant(ops[token])
    && ops[token].status.Opened? && ops[token].attempts > 0 && ops[token].resends >= 0 && at <= ops[token].expiresAt
  }

  /** A stored recovery code answers yes, those before it no. */
  ghost predicate Recovers(q: Request, codes: seq<string>, code: string, k: nat) {
    && q.limits.minLength <= |code| <= q.limits.maxLength && k < |codes| && q.oracle.compare(code, codes[k]).Yes?
    && forall i :: 0 <= i < k ==> q.oracle.compare(code, codes[i]).No?
  }

  ghost predicate NoneRecovers(q: Request, codes: seq<string>, code: string) {
    q.limits.minLength <= |code| <= q.limits.maxLength ==>
      forall i :: 0 <= i < |codes| ==> q.oracle.compare(code, codes[i]).No?
  }

  /** The row's own secret has nothing against trying the recovery codes. */
  ghost predicate SecretFails(q: Request, f: Factor, how: Method, code: string) {
    || (how.Password? && f.kind.PasswordKind? && q.oracle.compare(code, f.secret).No?)
    || (how.TOTP? && f.kind.TotpKind? && q.oracle.totp(code, f.secret).NoStep?)
  }

  /** The code is wrong: another one than was sent; or none of the owner's factor, an old step included. */
  ghost predicate Mismatch(q: Request, row: Option<Factor>, a: Action, code: string) {
    if a.how.Email? || a.how.Phone? then q.oracle.compare(code, a.code).No?
    else
      && row.Some? && (a.how.Password? || a.how.TOTP?)
      && var f := row.value;
      || f.kind.TotpKind? == a.how.Password?
      || (a.how.TOTP? && q.oracle.totp(code, f.secret).Step? && q.oracle.totp(code, f.secret).step <= f.lastStep)
      || (SecretFails(q, f, a.how, code) && NoneRecovers(q, f.codes, code))
  }

  /** The code is right, and leaves the owner's factor as `after`. */
  ghost predicate Match(q: Request, row: Option<Factor>, a: Action, code: string, after: Option<Factor>) {
    if a.how.Email? || a.how.Phone? then q.oracle.compare(code, a.code).Yes? && after == row
    else
      && row.Some? && (a.how.Password? || a.how.TOTP?)
      && var f := row.value;
      || (a.how.Password? && f.kind.PasswordKind? && q.oracle.compare(code, f.secret).Yes? && after == row)
      || (a.how.TOTP? && f.kind.TotpKind? && q.oracle.totp(code, f.secret).Step?
          && q.oracle.totp(code, f.secret).step > f.lastStep
          && after == Some(f.(lastStep := q.oracle.totp(code, f.secret).step)))
      || (SecretFails(q, f, a.how, code) && q.sent
          && exists k: nat :: Recovers(q, f.codes, code, k) && after == Some(f.(codes := Without(f.codes, f.codes[k]))))
  }

  /** The confirmed operation, or the one that goes on with its next action under the new token. */
  ghost predicate Follows(q: Request, op: Op, after: Op) {
    && after.name == op.name && after.user == op.user && after.payload == op.payload
    && if |op.actions| == 1 then
         && after.status.Confirmed? && after.actions == [] && after.token == op.token
         && after.attempts == op.attempts && after.resends == op.resends && after.resendsAt == op.resendsAt
         && after.expiresAt == RoundSecond(q.at + op.actions[0].expiry)
       else
         && |op.actions| > 1
         && var a := op.actions[1];
         && after.status.Opened? && after.token == q.newToken
         && after.actions == (if a.how.Email? then [a.(code := q.newHash)] + op.actions[2..] else op.actions[1..])
         && after.attempts == a.maxAttempts && after.expiresAt == RoundSecond(q.at + a.expiry)
         && after.resends == (if a.how.Email? then a.maxResends else op.resends)
         && after.resendsAt == (if a.how.Email? then RoundSecond(q.at + a.minResendTime) else op.resendsAt)
  }

  /** Nothing but the code stands in the way: there is a free token, and the next action's counters can
      be stored and its code be sent. */
  ghost predicate GoesOn(ops: Ops, token: string, q: Request)
    requires token in ops
  {
    var op := ops[token];
    |op.actions| > 1 ==>
      && q.newToken != "" && (q.newToken == token || q.newToken !in ops) && op.actions[1].maxAttempts >= 0
      && !op.actions[1].how.Phone?
      && (op.actions[1].how.Email? ==> op.actions[1].maxResends >= 0 && op.actions[1].address != "" && q.sent)
  }

  lemma MismatchIsWrong(q: Request, row: Option<Factor>, a: Action, code: string)
    ensures Mismatch(q, row, a, code) <==> CheckAction(q.oracle, q.limits, row, a, code).Wrong?
  {
    if row.Some? { RecoveryIs(q, row.value.codes, code); }
    hide Recovers, NoneRecovers, RecoveryIfLong;
  }

  lemma RecoveryIs(q: Request, codes: seq<string>, code: string)
    ensures var c := RecoveryIfLong(q.oracle, q.limits, codes, code);
            && (c.Wrong? <==> NoneRecovers(q, codes, code))
            && (c.Right? <==> exists k: nat :: Recovers(q, codes, code, k))
            && (c.Right? ==> c.commit.RecoveryCommit?)
            && (forall k: nat :: Recovers(q, codes, code, k) ==> c == Right(RecoveryCommit(codes[k])))
  {
    var k := FirstMatch(q.oracle, codes, code);
    if k < |codes| && q.oracle.compare(code, codes[k]).Yes? && q.limits.minLength <= |code| <= q.limits.maxLength {
      assert Recovers(q, codes, code, k);
    }
    forall j: nat | Recovers(q, codes, code, j)
      ensures j == k
    {
    }
  }

  lemma MatchIsRight(q: Request, row: Option<Factor>, a: Action, code: string, after: Option<Factor>)
    ensures var c := CheckAction(q.oracle, q.limits, row, a, code);
            Match(q, row, a, code, after)
            <==> c.Right? && CanSpend(row, c.commit) && after == Spend(row, c.commit)
                 && (c.commit.RecoveryCommit? ==> q.sent)
  {
    if row.Some? {
      RecoveryIs(q, row.value.codes, code);
      RecoverySpends(q, row.value, code, after);
    }
    hide Recovers, NoneRecovers, RecoveryIfLong;
  }

  lemma RecoverySpends(q: Request, f: Factor, code: string, after: Option<Factor>)
    ensures var c := RecoveryIfLong(q.oracle, q.limits, f.codes, code);
            (exists k: nat :: Recovers(q, f.codes, code, k) && after == Some(f.(codes := Without(f.codes, f.codes[k]))))
            <==> c.Right? && CanSpend(Some(f), c.commit) && after == Spend(Some(f), c.commit)
  {
    RecoveryIs(q, f.codes, code);
    assert forall k: nat :: Recovers(q, f.codes, code, k) ==> f.codes[k] in f.codes;
    hide RecoveryIfLong;
  }

  lemma AdvancedFollows(ops: Ops, token: string, q: Request, after: Op)
    requires token in ops && ops[token].token == token && Invariant(ops[token]) && ops[token].status.Opened?
    requires GoesOn(ops, token, q)
    ensures Follows(q, ops[token], after) <==> after == Advanced(ops[token], q.newToken, q.newHash, q.at)
  {
    var op := ops[token];
    if |op.actions| > 1 { assert op.actions[1..][1..] == op.actions[2..]; }
  }

  lemma ReplaceableGoesOn(ops: Ops, token: string, code: string, q: Request)
    requires Attempted(ops, token, code, q.at)
    ensures var op := ops[token];
            var after := Advanced(op, q.newToken, q.newHash, q.at);
            GoesOn(ops, token, q)
            <==> (|op.actions| > 1 ==> q.newToken != "") && CanReplace(ops, token, after) && Notifies(after, q.sent)
  {
    var op := ops[token];
    if |op.actions| > 1 { assert op.actions[1..][0] == op.actions[1]; }
  }

  /** The code alone decides. A wrong one costs exactly one attempt; a right one, and no other, moves the
      operation on and spends what the owner's factor owes; anything else changes nothing. */
  lemma CodeDecides(ops: Ops, factors: map<nat, Factor>, token: string, code: string, q: Request)
    requires Attempted(ops, token, code, q.at)
    ensures var op := ops[token];
            var row := if op.user in factors then Some(factors[op.user]) else None;
            var c := Confirms(ops, factors, token, code, q);
            && (c.2.Rejected? <==> Mismatch(q, row, op.actions[0], code))
            && (c.2.Rejected? ==>
                  && c.0 == ops[token := op.(attempts := op.attempts - 1)] && c.1 == factors
                  && c.2 == Rejected(if op.attempts > 1 then CodeIncorrect else NoAttempts))
            && (c.2.Done? <==> GoesOn(ops, token, q) && exists f :: Match(q, row, op.actions[0], code, f))
            && (c.2.Done? ==>
                  exists after, f ::
                    && Follows(q, op, after) && Match(q, row, op.actions[0], code, f)
                    && c.0 == (ops - {token})[after.token := after]
                    && c.1 == if f.Some? then factors[op.user := f.value] else factors)
            && (!c.2.Rejected? && !c.2.Done? ==> c.0 == ops && c.1 == factors)
  {
    var op := ops[token];
    var row := if op.user in factors then Some(factors[op.user]) else None;
    var a := op.actions[0];
    var check := CheckAction(q.oracle, q.limits, row, a, code);
    MismatchIsWrong(q, row, a, code);
    OwedBySnapshot(q.oracle, q.limits, row, a, code);
    forall f
      ensures Match(q, row, a, code, f)
         <==> check.Right? && CanSpend(row, check.commit) && f == Spend(row, check.commit)
              && (check.commit.RecoveryCommit? ==> q.sent)
    {
      MatchIsRight(q, row, a, code, f);
    }
    ReplaceableGoesOn(ops, token, code, q);
    if GoesOn(ops, token, q) {
      forall after
        ensures Follows(q, op, after) <==> after == Advanced(op, q.newToken, q.newHash, q.at)
      {
        AdvancedFollows(ops, token, q, after);
      }
    }
    hide Match, Mismatch, Follows, GoesOn, CheckAction, Spend, CanReplace, Notifies, Advanced, Invariant;
    if Confirms(ops, factors, token, code, q).2.Done? {
      var after, f := Advanced(op, q.newToken, q.newHash, q.at), Spend(row, check.commit);
      assert Follows(q, op, after) && Match(q, row, a, code, f);
    }
  }

  /** Without an opened, unexpired operation that has attempts left, nothing is confirmed or counted. */
  lemma NotAttempted(ops: Ops, factors: map<nat, Factor>, token: string, code: string, q: Request)
    requires token in ops ==> ops[token].token == token && Storable(ops[token])
    ensures var c := Confirms(ops, factors, token, code, q);
            && (!Attempted(ops, token, code, q.at) ==> c.0 == ops && c.1 == factors && !c.2.Done?)
            && (token != "" && token in ops && Invariant(ops[token]) ==>
                  && (c.2.Expired? <==> q.at > ops[token].expiresAt)
                  && (q.at <= ops[token].expiresAt && code != "" && ops[token].status.Opened? ==>
                        (ops[token].attempts <= 0 ==> c.2 == Rejected(NoAttempts))))
  {
    hide CheckAction, Advanced;
  }

  // ---------- when a code is sent again, an operation opened, an effect applied ----------

  /** A code can be sent again while resends are left and the waiting time is over; it restores the
      attempts, costs one resend, and starts the waiting time anew. */
  lemma ResendsWhen(ops: Ops, token: string, q: Request)
    ensures var c := Resends(ops, token, q);
            && (c.1.Done? <==>
                  && token != "" && token in ops && ops[token].token != "" && Invariant(ops[token])
                  && q.at <= ops[token].expiresAt && ops[token].status.Opened?
                  && var a := ops[token].actions[0];
                  && a.how.Email? && a.address != "" && q.sent && a.maxAttempts >= 0
                  && ops[token].resends >= 1 && q.at >= ops[token].resendsAt
                  && q.newToken != "" && (q.newToken == token || q.newToken !in ops))
            && (!c.1.Done? ==> c.0 == ops)
            && (c.1.Done? ==>
                  var op := ops[token];
                  var a := op.actions[0];
                  c.0 == (ops - {token})[q.newToken := op.(token := q.newToken,
                    actions := [a.(code := q.newHash)] + op.actions[1..],
                    attempts := a.maxAttempts, resends := op.resends - 1, expiresAt := RoundSecond(q.at + a.expiry),
                    resendsAt := RoundSecond(q.at + a.minResendTime))])
  {
  }

  /** Two codes of one action are sent no closer than its waiting time, up to rounding. */
  lemma ResendsApart(ops: Ops, token: string, q: Request, r: Request)
    requires Resends(ops, token, q).1.Done? && Resends(Resends(ops, token, q).0, q.newToken, r).1.Done?
    ensures r.at > q.at + ops[token].actions[0].minResendTime - 500_000_000
  {
    ResendsWhen(ops, token, q);
    ResendsWhen(Resends(ops, token, q).0, q.newToken, r);
    hide Resends, Invariant;
  }

  /** Opening needs a free token and a first action whose code can be sent; the owner's operations of the
      kind go, all others stay. */
  lemma OpensWhen(ops: Ops, op: Op, sent: bool)
    ensures var c := Opens(ops, op, sent);
            && (c.1.Done? <==>
                  && (op.token in ops ==>
                    op.user != 0 && ops[op.token].user == op.user && ops[op.token].name == op.name)
                  && op.attempts >= 0 && op.resends >= 0 && op.status.Opened? && op.actions != []
                  && !op.actions[0].how.Phone?
                  && (op.actions[0].how.Email? ==> op.actions[0].address != "" && sent))
            && (!c.1.Done? ==> c.0 == ops)
            && (c.1.Done? ==>
                  && op.token in c.0 && c.0[op.token] == op
                  && (forall t :: t in c.0 && t != op.token ==> t in ops && c.0[t] == ops[t])
                  && (forall t :: t in ops && t != op.token ==>
                        (t in c.0 <==> op.user == 0 || ops[t].user != op.user || ops[t].name != op.name)))
  {
  }

  /** An effect is applied exactly for a confirmed, unexpired operation of the visitor whose handler
      succeeds, and consumes it. */
  lemma AppliesWhen(ops: Ops, token: string, visitor: nat, at: int, handlers: Handlers)
    ensures var c := Applies(ops, token, visitor, at, handlers);
            && (c.1.Done? <==>
                  && visitor != 0 && token != "" && token in ops && ops[token].token != "" && Invariant(ops[token])
                  && at <= ops[token].expiresAt && ops[token].status.Confirmed? && ops[token].user == visitor
                  && ops[token].name in handlers && handlers[ops[token].name](visitor, ops[token].payload))
            && c.0 == if c.1.Done? then ops - {token} else ops
  {
  }

  // ---------- one operation's events are what the service stores ----------

  lemma PrepareIsEvent(ops: Ops, row: Option<Factor>, token: string, code: string, q: Request)
    requires token in ops
    ensures var p := Prepare(ops, row, token, code, q);
            && (p.Counted? ==> Accepts(ops[token], WrongCode))
            && (p.Ready? && Storable(p.after) ==>
                  var e := RightCode(p.commit, q.newToken, q.newHash, q.at);
                  Accepts(ops[token], e) && p.after == After(ops[token], e))
  {
  }

  /** A confirmation leaves the operations alone, or moves one of them on by an event it accepts. */
  lemma ConfirmsIsEvent(ops: Ops, factors: map<nat, Factor>, token: string, code: string, q: Request) returns (e: Event)
    ensures var c := Confirms(ops, factors, token, code, q);
            || c.0 == ops
            || (token in ops && Accepts(ops[token], e)
                && (ops[token].token == token ==> c.0 == Replaced(ops, token, After(ops[token], e)))
                && (c.2.Done? <==> e.RightCode?) && (c.2.Rejected? <==> e.WrongCode?))
  {
    var p := Prepare(ops, FactorFor(ops, factors, token), token, code, q);
    e := WrongCode;
    if token in ops {
      PrepareIsEvent(ops, FactorFor(ops, factors, token), token, code, q);
      if p.Ready? { e := RightCode(p.commit, q.newToken, q.newHash, q.at); }
    }
  }

  lemma ResendsIsEvent(ops: Ops, token: string, q: Request)
    ensures var c := Resends(ops, token, q);
            var e := Resend(q.newToken, q.newHash, q.at);
            if c.1.Done? then
              token in ops && Accepts(ops[token], e) && c.0 == Replaced(ops, token, After(ops[token], e))
            else c.0 == ops
  {
  }

  // ---------- the other use cases, as functions of the table ----------

  /** What FetchOneForUpdate answers besides the row. */
  function Fetch(ops: Ops, token: string, at: int): Outcome {
    if token == "" || token !in ops then OperationInvalid
    else if ops[token].token == "" || !Invariant(ops[token]) then Failed
    else if at > ops[token].expiresAt then Expired
    else Done
  }

  function Resends(ops: Ops, token: string, q: Request): (Ops, Outcome) {
    if !Fetch(ops, token, q.at).Done? then (ops, Fetch(ops, token, q.at))
    else if !ResendError(ops[token], q.newToken, q.at).NoError? then
      (ops, Rejected(ResendError(ops[token], q.newToken, q.at)))
    else
      var after := WithCode(Resent(ops[token], q.newToken, q.at), q.newHash);
      if CanReplace(ops, token, after) && Notifies(after, q.sent) then (Replaced(ops, token, after), Done)
      else (ops, Failed)
  }

  /** Opening supersedes the owner's operations of the same kind; nobody's operation supersedes none. */
  function Opens(ops: Ops, op: Op, sent: bool): (Ops, Outcome) {
    var left := if op.user == 0 then ops else Others(ops, op.user, op.name);
    if op.token !in left && Storable(op) && op.status.Opened? && op.actions != [] && Notifies(op, sent) then
      (left[op.token := op], Done)
    else (ops, Failed)
  }

  /** The handlers by operation name; each says whether its effect for a user and a payload succeeded. */
  type Handlers = map<string, (nat, string) -> bool>

  /** Applying consumes a confirmed operation of the visitor, and only with its handler's effect. */
  function Applies(ops: Ops, token: string, visitor: nat, at: int, handlers: Handlers): (Ops, Outcome) {
    if visitor == 0 then (ops, Failed)
    else if !Fetch(ops, token, at).Done? then (ops, Fetch(ops, token, at))
    else if ops[token].user != visitor then (ops, Forbidden)
    else if ops[token].name !in handlers then (ops, Failed)
    else if !ops[token].status.Confirmed? then (ops, NotConfirmed)
    else if !handlers[ops[token].name](ops[token].user, ops[token].payload) then (ops, Failed)
    else (ops - {token}, Done)
  }

  // ---------- the table ----------

  class OperationTable {
    var ops: Ops

    constructor ()
      ensures ops == map[]
    {
      ops := map[];
    }

    method Replace(token: string, op: Op) returns (ok: bool)
      modifies this
      ensures ok <==> CanReplace(old(ops), token, op)
      ensures ops == if ok then Replaced(old(ops), token, op) else old(ops)
    {
      if token !in ops || !ops[token].status.Opened? { return false; }
      if !Storable(op) || (op.token != token && op.token in ops) { return false; }
      ops := (ops - {token})[op.token := op];
      return true;
    }

    method UpdateFailedAttempt(token: string) returns (ok: bool, attempts: int)
      modifies this
      ensures ok <==> token in old(ops) && old(ops)[token].status.Opened? && old(ops)[token].attempts > 0
      ensures ok ==> ops == Decremented(old(ops), token) && attempts == ops[token].attempts
      ensures !ok ==> ops == old(ops)
    {
      attempts := 0;
      if token !in ops || !ops[token].status.Opened? || ops[token].attempts <= 0 { return false, attempts; }
      attempts := ops[token].attempts - 1;
      ops := ops[token := ops[token].(attempts := attempts)];
      return true, attempts;
    }

    method Insert(op: Op) returns (ok: bool)
      modifies this
      ensures ok <==> op.token !in old(ops) && Storable(op)
      ensures ops == if ok then old(ops)[op.token := op] else old(ops)
    {
      if op.token in ops || !Storable(op) { return false; }
      ops := ops[op.token := op];
      return true;
    }

    method DeleteByUserAndName(user: nat, name: string) returns (any: bool)
      modifies this
      ensures ops == Others(old(ops), user, name)
      ensures any <==> ops != old(ops)
    {
      var left := Others(ops, user, name);
      any := left.Keys != ops.Keys;
      ops := left;
    }

    method Delete(token: string) returns (ok: bool)
      modifies this
      ensures ok <==> token in old(ops)
      ensures ops == old(ops) - {token}
    {
      ok := token in ops;
      ops := ops - {token};
    }
  }

  /** The operations left when those of one kind of one owner are superseded. */
  function Others(ops: Ops, user: nat, name: string): (r: Ops)
    ensures r.Keys <= ops.Keys && forall t :: t in r ==> r[t] == ops[t] && !(r[t].user == user && r[t].name == name)
    ensures forall t :: t in ops && !(ops[t].user == user && ops[t].name == name) ==> t in r
  {
    map t | t in ops && !(ops[t].user == user && ops[t].name == name) :: ops[t]
  }

  // ---------- the use cases ----------

  class Operations {
    const table: OperationTable
    const factors: FactorTable

    /** The operations whose handler's effect was committed. */
    var applied: seq<Op>

    constructor (table: OperationTable, factors: FactorTable)
      ensures this.table == table && this.factors == factors && applied == []
    {
      this.table, this.factors, applied := table, factors, [];
    }

    /** ConfirmCode.Prepare: the current action is passed and the next one activated, or the error. */
    method PrepareConfirm(op: SecureOperation, code: string, q: Request) returns (e: Error, commit: Commit)
      modifies op
      ensures code == "" ==> e.InvalidInput? && op.Value() == old(op.Value())
      ensures code != "" ==>
                var was := old(op.Value());
                var check := if was.actions == [] then Broken
                             else CheckAction(q.oracle, q.limits, old(factors.Row(op.user)), was.actions[0], code);
                match ConfirmError(was, check)
                case NoError =>
                  if |was.actions| > 1 && q.newToken == "" then e.InvalidInput?
                  else e.NoError? && op.Value() == Advanced(was, q.newToken, q.newHash, q.at)
                       && commit == if |was.actions| == 1 then check.commit else NoCommit
                case CodeIncorrect => e.CodeIncorrect? && op.Value() == was.(attempts := was.attempts - 1)
                case other => e == other && op.Value() == was
    {
      commit := NoCommit;
      if code == "" { return InvalidInput, commit; }
      var check := Broken;
      if op.actions != [] {
        var action := op.actions[0];
        match action.how {
          case Email => check := FromAnswer(q.oracle.compare(code, action.code));
          case Phone => check := FromAnswer(q.oracle.compare(code, action.code));
          case TOTP => check := factors.Verify(q.oracle, q.limits, op.user, action.how, code);
          case Password => check := factors.Verify(q.oracle, q.limits, op.user, action.how, code);
          case Unspecified =>
        }
      }
      var confirmed;
      confirmed, e := op.ConfirmAction(check, q.at);
      if !e.NoError? { return; }
      if confirmed { return e, check.commit; }
      e := op.ActivateConfirmation(q.newToken, q.at);
      if !e.NoError? { return; }
      e := op.InitSendableAction(q.newHash);
    }

    /** ConfirmOperation.Execute, its transaction rolled back on every failure after a write. The
        operation it hands back, with a wrong code too, is the one that is stored. */
    method Confirm(token: string, code: string, q: Request) returns (r: Outcome, current: Option<Op>)
      modifies table, factors
      ensures (table.ops, factors.rows, r) == Confirms(old(table.ops), old(factors.rows), token, code, q)
      ensures current.Some? <==> r.Done? || r.NothingToDo? || r.CodeRequired? || r.Rejected?
      ensures current.Some? && token in old(table.ops) && old(table.ops)[token].token == token ==>
                current.value.token in table.ops && table.ops[current.value.token] == current.value
    {
      current := None;
      if token == "" || token !in table.ops { return OperationInvalid, None; }
      var row := table.ops[token];
      var op := new SecureOperation(row);
      var e := op.WakeUp(q.at);
      if e.OperationExpired? { return Expired, None; }
      if !e.NoError? { return Failed, None; }
      if op.status.Confirmed? { return NothingToDo, Some(row); }
      if code == "" { return CodeRequired, Some(row); }
      var commit;
      e, commit := PrepareConfirm(op, code, q);
      if e.NoAttempts? { return Rejected(NoAttempts), Some(op.Value()); }
      if e.CodeIncorrect? {
        var ok, attempts := table.UpdateFailedAttempt(token);
        assert ok && attempts == op.remainingAttempts;
        op.remainingAttempts := attempts;
        return Rejected(if attempts > 0 then CodeIncorrect else NoAttempts), Some(op.Value());
      }
      if !e.NoError? { return Failed, None; }
      var opsWas, factorsWas := table.ops, factors.rows;
      var ok := table.Replace(token, op.Value());
      if !ok { return Failed, None; }
      var spent := factors.RunCommit(row.user, commit, q.sent);
      if spent.UsedUp? {
        table.ops := opsWas;
        return AlreadyUsed, None;
      }
      if spent.AlertFailed? || !Notifies(op.Value(), q.sent) {
        table.ops, factors.rows := opsWas, factorsWas;
        return Failed, None;
      }
      return Done, Some(op.Value());
    }

    /** ResendCode.Execute. When it is too early, or the resends are used up, the operation is handed back
        as it is stored. */
    method Resend(token: string, q: Request) returns (r: Outcome, current: Option<Op>)
      modifies table
      ensures (table.ops, r) == Resends(old(table.ops), token, q)
      ensures current.Some? <==> r.Done? || r == Rejected(NoResends) || r == Rejected(ResendTooEarly)
      ensures current.Some? && token in old(table.ops) && old(table.ops)[token].token == token ==>
                current.value.token in table.ops && table.ops[current.value.token] == current.value
    {
      current := None;
      if token == "" || token !in table.ops { return OperationInvalid, None; }
      var op := new SecureOperation(table.ops[token]);
      var e := op.WakeUp(q.at);
      if e.OperationExpired? { return Expired, None; }
      if !e.NoError? { return Failed, None; }
      e := op.ActivateResendCode(q.newToken, q.at);
      if e.NoResends? || e.ResendTooEarly? { return Rejected(e), Some(op.Value()); }
      if !e.NoError? { return Rejected(e), None; }
      e := op.InitSendableAction(q.newHash);
      var opsWas := table.ops;
      var ok := table.Replace(token, op.Value());
      if !ok { return Failed, None; }
      if !Notifies(op.Value(), q.sent) {
        table.ops := opsWas;
        return Failed, None;
      }
      return Done, Some(op.Value());
    }

    method Open(op: Op, sent: bool) returns (r: Outcome)
      modifies table
      ensures (table.ops, r) == Opens(old(table.ops), op, sent)
    {
      var opsWas := table.ops;
      if op.user != 0 {
        var superseded := table.DeleteByUserAndName(op.user, op.name);
      }
      var ok := table.Insert(op);
      if !ok || !op.status.Opened? || op.actions == [] || !Notifies(op, sent) {
        table.ops := opsWas;
        return Failed;
      }
      return Done;
    }

    method Apply(token: string, visitor: nat, at: int, handlers: Handlers) returns (r: Outcome)
      modifies table, this`applied
      ensures (table.ops, r) == Applies(old(table.ops), token, visitor, at, handlers)
      ensures r.Done? ==> token in old(table.ops) && applied == old(applied) + [old(table.ops)[token]]
      ensures !r.Done? ==> applied == old(applied)
    {
      if visitor == 0 { return Failed; }
      if token == "" || token !in table.ops { return OperationInvalid; }
      var row := table.ops[token];
      var op := new SecureOperation(row);
      var e := op.WakeUp(at);
      if e.OperationExpired? { return Expired; }
      if !e.NoError? { return Failed; }
      if visitor != op.user { return Forbidden; }
      if op.name !in handlers { return Failed; }
      if !op.status.Confirmed? { return NotConfirmed; }
      var opsWas := table.ops;
      var ok := table.Delete(token);
      if !handlers[op.name](op.user, op.payload) {
        table.ops := opsWas;
        return Failed;
      }
      applied := applied + [row];
      return Done;
    }
  }
}
