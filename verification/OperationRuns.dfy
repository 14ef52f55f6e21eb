/** All interleavings of requests over stored operations and second factors. Checking a code and
    committing its effect are two steps, as the check reads the second factor without a lock. */
module OperationRuns {
  import opened SecureOperations
  import opened SecondFactor
  import opened OperationService

  /** A confirmation between its check and its commit, or its end; it holds the lock of its operation's row. */
  datatype Pending = Pending(after: Op, commit: Commit)

  /** One second-factor code spent, with the row, or the set of recovery codes, it was spent on. */
  datatype Use =
    | StepUse(user: nat, binding: nat, step: int)
    | CodeUse(user: nat, codeset: nat, hash: string)

  /** A confirmed operation turned into its effect, by its owner or, 0, by opening a session. */
  datatype Effect = Effect(op: Op, actor: nat)

  /** Where a stored operation comes from: the chain it was opened with, how many of its actions were
      passed by a right code, and how many wrong codes were counted. */
  datatype Origin = Origin(chain: seq<Action>, passed: nat, wrong: nat)

  datatype State = State(
    ops: Ops,
    origins: map<string, Origin>,
    factors: map<nat, Factor>,
    issued: set<string>,
    pending: map<string, Pending>,
    seen: set<Op>,
    bindings: map<nat, nat>,
    codesets: map<nat, nat>,
    nextId: nat,
    used: seq<Use>,
    effects: seq<Effect>)

  datatype Event =
    | Opening(op: Op, sent: bool)
    | Checking(token: string, code: string, q: Request)
    | Committing(token: string, sent: bool)
    | Aborting(token: string)
    | Resending(token: string, q: Request)
    | Applying(token: string, visitor: nat, at: int, handlers: Handlers)
    | Reading(token: string, at: int)
    | OpeningSession(op: Op)
    | Revoking(token: string, visitor: nat, at: int)
    | Expiring(token: string)
    | Binding(user: nat, f: Factor)
    | Unbinding(user: nat)
    | Regenerating(user: nat, codes: seq<string>)

  const START := State(map[], map[], map[], {}, map[], {}, map[], map[], 0, [], [])

  function RowOf(st: State, user: nat): Option<Factor> {
    if user in st.factors then Some(st.factors[user]) else None
  }

  function RowFor(st: State, token: string): Option<Factor> {
    if token in st.ops then RowOf(st, st.ops[token].user) else None
  }

  predicate IsNew(st: State, token: string) {
    token != "" && token !in st.issued
  }

  function OriginOf(st: State, token: string): Origin {
    if token in st.origins then st.origins[token] else Origin([], 0, 0)
  }

  function Further(o: Origin): Origin {
    o.(passed := o.passed + 1)
  }

  // ---------- steps ----------

  function Check(st: State, token: string, code: string, q: Request): State {
    match Prepare(st.ops, RowFor(st, token), token, code, q)
    case Refused(_) => st
    case Counted =>
      var o := OriginOf(st, token);
      st.(ops := Decremented(st.ops, token), origins := st.origins[token := o.(wrong := o.wrong + 1)])
    case Ready(after, commit) =>
      if CanReplace(st.ops, token, after) then
        st.(pending := st.pending[token := Pending(after, commit)], issued := st.issued + {q.newToken})
      else st
  }

  function UseOf(st: State, user: nat, c: Commit): seq<Use> {
    match c
    case NoCommit => []
    case StepCommit(n) => if user in st.bindings then [StepUse(user, st.bindings[user], n)] else []
    case RecoveryCommit(h) => if user in st.codesets then [CodeUse(user, st.codesets[user], h)] else []
  }

  function Commits(st: State, token: string, sent: bool): State
    requires token in st.pending
  {
    var p := st.pending[token];
    var idle := st.(pending := st.pending - {token});
    var user := p.after.user;
    if CanSpend(RowOf(st, user), p.commit) && Delivers(p.after, p.commit, sent) then
      idle.(ops := Replaced(st.ops, token, p.after),
            origins := st.origins[p.after.token := Further(OriginOf(st, token))],
            factors := if p.commit.NoCommit? then st.factors
              else st.factors[user := Spend(RowOf(st, user), p.commit).value],
            used := st.used + UseOf(st, user, p.commit))
    else idle
  }

  /** None of the owner's operations of this kind is locked. */
  predicate Unlocked(st: State, user: nat, name: string) {
    forall t :: t in st.pending && t in st.ops ==> user == 0 || st.ops[t].user != user || st.ops[t].name != name
  }

  function Started(st: State, op: Op, sent: bool): State {
    if !IsNew(st, op.token) || !Invariant(op) || !NewlyMade(op) || !Unlocked(st, op.user, op.name) then st
    else
      var r := Opens(st.ops, op, sent);
      st.(ops := r.0, issued := st.issued + {op.token},
          origins := if r.1.Done? then st.origins[op.token := Origin(op.actions, 0, 0)] else st.origins)
  }

  function Renewed(st: State, token: string, q: Request): State {
    var r := Resends(st.ops, token, q);
    st.(ops := r.0, issued := st.issued + {q.newToken},
        origins := if r.1.Done? then st.origins[q.newToken := OriginOf(st, token)] else st.origins)
  }

  /** One row goes, unless it is locked, together with the effect it is paid for. */
  function Taken(st: State, token: string, effects: seq<Effect>): State {
    if token in st.pending then st else st.(ops := st.ops - {token}, effects := st.effects + effects)
  }

  function Bound(st: State, user: nat, f: Factor): State {
    if user in st.factors then st
    else st.(factors := st.factors[user := f], bindings := st.bindings[user := st.nextId],
             codesets := st.codesets[user := st.nextId], nextId := st.nextId + 1)
  }

  function Recoded(st: State, user: nat, codes: seq<string>): State {
    if user !in st.factors then st
    else st.(factors := st.factors[user := st.factors[user].(codes := codes)],
             codesets := st.codesets[user := st.nextId], nextId := st.nextId + 1)
  }

  /** Rows that are locked, or tokens that were issued before, are left alone. */
  function Next(st: State, e: Event): State {
    match e
    case Opening(op, sent) => Started(st, op, sent)
    case Checking(token, code, q) =>
      if token in st.pending || !IsNew(st, q.newToken) then st else Check(st, token, code, q)
    case Committing(token, sent) => if token in st.pending then Commits(st, token, sent) else st
    case Aborting(token) => st.(pending := st.pending - {token})
    case Resending(token, q) => if token in st.pending || !IsNew(st, q.newToken) then st else Renewed(st, token, q)
    case Applying(token, visitor, at, handlers) =>
      if Applies(st.ops, token, visitor, at, handlers).1.Done? then Taken(st, token, [Effect(st.ops[token], visitor)])
      else st
    case Reading(token, at) =>
      if Fetch(st.ops, token, at).Done? && st.ops[token].status.Confirmed? then st.(seen := st.seen + {st.ops[token]})
      else st
    case OpeningSession(op) => if op in st.seen && op.token in st.ops then Taken(st, op.token, [Effect(op, 0)]) else st
    case Revoking(token, visitor, at) =>
      if Fetch(st.ops, token, at).Done? && st.ops[token].user == visitor then Taken(st, token, []) else st
    case Expiring(token) => Taken(st, token, [])
    case Binding(user, f) => Bound(st, user, f)
    case Unbinding(user) => st.(factors := st.factors - {user}, bindings := st.bindings - {user},
      codesets := st.codesets - {user})
    case Regenerating(user, codes) => Recoded(st, user, codes)
  }

  ghost function Exec(st: State, es: seq<Event>): State {
    if es == [] then st else Next(Exec(st, es[..|es| - 1]), es[|es| - 1])
  }

  lemma ReadyFor(ops: Ops, row: Option<Factor>, token: string, code: string, q: Request)
    ensures var p := Prepare(ops, row, token, code, q);
            && (!p.Refused? ==> token in ops)
            && (p.Ready? ==> p.after.user == ops[token].user)
  {
  }

  /** With nothing in between, the two steps are the confirmation of the service. */
  lemma ConfirmIsTwoSteps(st: State, token: string, code: string, q: Request)
    requires token !in st.pending && IsNew(st, q.newToken)
    ensures var end := Next(Next(st, Checking(token, code, q)), Committing(token, q.sent));
            var c := Confirms(st.ops, st.factors, token, code, q);
            end.ops == c.0 && end.factors == c.1 && end.pending == st.pending
  {
    hide Check, Commits, Confirms;
    var mid := Check(st, token, code, q);
    assert Next(mid, Committing(token, q.sent)) == if token in mid.pending then Commits(mid, token, q.sent) else mid;
    ConfirmedAtOnce(st, token, code, q);
  }

  lemma ConfirmedAtOnce(st: State, token: string, code: string, q: Request)
    requires token !in st.pending
    ensures var mid := Check(st, token, code, q);
            var end := if token in mid.pending then Commits(mid, token, q.sent) else mid;
            var c := Confirms(st.ops, st.factors, token, code, q);
            end.ops == c.0 && end.factors == c.1 && end.pending == st.pending
  {
    hide Prepare, Commits, CanReplace, CanSpend, Spend, Delivers, Replaced, Decremented;
    var p := Prepare(st.ops, RowFor(st, token), token, code, q);
    assert RowFor(st, token) == FactorFor(st.ops, st.factors, token);
    ReadyFor(st.ops, RowFor(st, token), token, code, q);
    if p.Ready? && CanReplace(st.ops, token, p.after) {
      assert RowOf(st, p.after.user) == RowFor(st, token);
      CommitAtOnce(st, Check(st, token, code, q), token, p.after, p.commit, q.sent);
    }
  }

  lemma CommitAtOnce(st: State, mid: State, token: string, after: Op, commit: Commit, sent: bool)
    requires token !in st.pending
             && mid == st.(pending := st.pending[token := Pending(after, commit)], issued := mid.issued)
    ensures var end := Commits(mid, token, sent);
            var row := RowOf(st, after.user);
            && end.pending == st.pending
            && (if CanSpend(row, commit) && Delivers(after, commit, sent) then
                  && end.ops == Replaced(st.ops, token, after)
                  && end.factors == (if commit.NoCommit? then st.factors
                    else st.factors[after.user := Spend(row, commit).value])
                else end.ops == st.ops && end.factors == st.factors)
  {
    hide Delivers, Replaced, UseOf, Spend;
    assert RowOf(mid, after.user) == RowOf(st, after.user);
    assert st.pending[token := Pending(after, commit)] - {token} == st.pending;
  }

  /** In every run a wrong code is counted, and only a right one gets as far as the commit. */
  lemma WrongCodeCounted(st: State, token: string, code: string, q: Request)
    requires token !in st.pending && IsNew(st, q.newToken) && Attempted(st.ops, token, code, q.at)
    ensures var op, o, now := st.ops[token], OriginOf(st, token), Next(st, Checking(token, code, q));
            && (if Mismatch(q, RowOf(st, op.user), op.actions[0], code) then
                  now == st.(ops := st.ops[token := op.(attempts := op.attempts - 1)],
                             origins := st.origins[token := o.(wrong := o.wrong + 1)])
                else now.ops == st.ops && now.origins == st.origins)
            && (token in now.pending ==>
                  exists f :: Match(q.(sent := true), RowOf(st, op.user), op.actions[0], code, f))
  {
    var op := st.ops[token];
    var row, a := RowOf(st, op.user), op.actions[0];
    MismatchIsWrong(q, row, a, code);
    var check := CheckAction(q.oracle, q.limits, row, a, code);
    OwedBySnapshot(q.oracle, q.limits, row, a, code);
    if check.Right? { MatchIsRight(q.(sent := true), row, a, code, Spend(row, check.commit)); }
    hide Match, Mismatch, CheckAction, CanReplace, Advanced, Invariant;
  }

  // ---------- invariants ----------

  ghost predicate Stored(st: State) {
    forall t :: t in st.ops ==>
      t != "" && t in st.issued && st.ops[t].token == t && Invariant(st.ops[t]) && Storable(st.ops[t])
  }

  /** A checked confirmation still stands on its opened row, and will store its successor under
      its own token or one nobody else will use. */
  ghost predicate PendingOk(st: State, t: string)
    requires t in st.pending
  {
    var p := st.pending[t];
    && t in st.ops && st.ops[t].status.Opened?
    && p.after.token in st.issued && p.after.token != "" && (p.after.token == t || p.after.token !in st.ops)
    && Invariant(p.after) && Storable(p.after)
    && p.after.user == st.ops[t].user && p.after.name == st.ops[t].name
    && (!p.commit.NoCommit? ==> p.after.status.Confirmed? && p.after.token == t)
  }

  ghost predicate Tokens(st: State) {
    && Stored(st)
    && (forall t :: t in st.pending ==> PendingOk(st, t))
    && (forall t, u :: t in st.pending && u in st.pending && t != u ==>
      st.pending[t].after.token != st.pending[u].after.token)
  }

  /** No operation stored or about to be stored answers to this issued token. */
  ghost predicate Dead(st: State, token: string) {
    token in st.issued && token !in st.ops && forall t :: t in st.pending ==> st.pending[t].after.token != token
  }

  ghost predicate Owners(st: State) {
    forall t, u :: t in st.ops && u in st.ops && t != u && st.ops[t].user != 0 && st.ops[t].user == st.ops[u].user ==>
      st.ops[t].name != st.ops[u].name
  }

  lemma AdvancedKeeps(op: Op, token: string, hash: string, at: int)
    requires Invariant(op) && op.status.Opened?
    ensures var a := Advanced(op, token, hash, at);
            && Invariant(a) && a.user == op.user && a.name == op.name
            && a.token == (if |op.actions| > 1 then token else op.token)
            && (a.status.Confirmed? <==> |op.actions| == 1)
  {
  }

  lemma PreparedOk(st: State, token: string, code: string, q: Request)
    requires Tokens(st)
    ensures var p := Prepare(st.ops, RowFor(st, token), token, code, q);
            && (p.Counted? ==> token in st.ops && st.ops[token].status.Opened? && st.ops[token].attempts > 0)
            && (p.Ready? ==>
                  && token in st.ops && st.ops[token].status.Opened? && p.after.token in {token, q.newToken}
                  && Invariant(p.after) && p.after.user == st.ops[token].user && p.after.name == st.ops[token].name
                  && (!p.commit.NoCommit? ==> p.after.status.Confirmed? && p.after.token == token))
  {
    if Prepare(st.ops, RowFor(st, token), token, code, q).Ready? {
      CommitKept(st.ops, RowFor(st, token), token, code, q);
      AdvancedKeeps(st.ops[token], q.newToken, q.newHash, q.at);
    }
  }

  lemma CheckTokens(st: State, token: string, code: string, q: Request)
    requires Tokens(st) && token !in st.pending && IsNew(st, q.newToken)
    ensures Tokens(Check(st, token, code, q))
  {
    hide Prepare, Invariant, Storable, RowFor, Tokens;
    PreparedOk(st, token, code, q);
    var p := Prepare(st.ops, RowFor(st, token), token, code, q);
    if p.Ready? {
      if CanReplace(st.ops, token, p.after) { ReplaceableKeeps(st, token, code, q); }
    } else if p.Counted? {
      CountTokens(st, token);
      IssueMore(st.(ops := Decremented(st.ops, token)), Check(st, token, code, q));
    }
  }

  lemma ReplaceableKeeps(st: State, token: string, code: string, q: Request)
    requires Tokens(st) && token !in st.pending && IsNew(st, q.newToken)
    requires var p := Prepare(st.ops, RowFor(st, token), token, code, q); p.Ready? && CanReplace(st.ops, token, p.after)
    ensures Tokens(Check(st, token, code, q))
  {
    hide Prepare, Invariant, Storable, RowFor, Tokens;
    PreparedOk(st, token, code, q);
    var p := Prepare(st.ops, RowFor(st, token), token, code, q);
    CanReplaceStores(st.ops, token, p.after);
    PendTokens(st, Check(st, token, code, q), token, p.after, p.commit, q.newToken);
  }

  lemma CanReplaceStores(ops: Ops, token: string, op: Op)
    requires CanReplace(ops, token, op)
    ensures Storable(op)
  {
  }

  /** A checked confirmation joins the others. */
  lemma PendTokens(st: State, now: State, token: string, after: Op, commit: Commit, newToken: string)
    requires Tokens(st) && token !in st.pending && IsNew(st, newToken)
    requires now == st.(pending := st.pending[token := Pending(after, commit)], issued := st.issued + {newToken})
    requires token in st.ops && st.ops[token].status.Opened? && (after.token == token || after.token == newToken)
    requires Invariant(after) && Storable(after) && after.user == st.ops[token].user && after.name == st.ops[token].name
    requires !commit.NoCommit? ==> after.status.Confirmed? && after.token == token
    ensures Tokens(now)
  {
    hide Invariant, Storable;
    forall t | t in now.pending
      ensures PendingOk(now, t)
    {
      if t != token { assert PendingOk(st, t); }
    }
    forall t | t in st.pending
      ensures st.pending[t].after.token != after.token
    {
      assert PendingOk(st, t);
    }
  }

  /** Dropping rows, or changing what tokens do not depend on, keeps the tokens in order. */
  lemma DropTokens(st: State, now: State)
    requires Tokens(st) && now.pending == st.pending && now.issued == st.issued
    requires forall t :: t in now.ops ==> t in st.ops && now.ops[t] == st.ops[t]
    requires forall t :: t in st.pending ==> t in now.ops
    ensures Tokens(now)
  {
    hide Invariant, Storable;
    forall t | t in now.pending
      ensures PendingOk(now, t)
    {
      assert PendingOk(st, t);
    }
  }

  /** Replacing one row by its successor keeps the tokens in order. */
  lemma ReplaceTokens(st: State, now: State, token: string, after: Op)
    requires Tokens(st) && token in st.ops && now.pending == st.pending - {token} && st.issued <= now.issued
    requires now.ops == Replaced(st.ops, token, after) && after.token in now.issued && after.token != ""
    requires after.token == token || after.token !in st.ops
    requires Invariant(after) && Storable(after)
    requires forall t :: t in st.pending && t != token ==> st.pending[t].after.token != after.token
    ensures Tokens(now)
  {
    hide Invariant, Storable;
    forall t | t in now.pending
      ensures PendingOk(now, t)
    {
      assert PendingOk(st, t);
    }
  }

  ghost predicate Stores(st: State, now: State, token: string, after: Op) {
    now.ops == Replaced(st.ops, token, after) && now.origins == st.origins[after.token := Further(OriginOf(st, token))]
  }

  /** A commit stores all of its effects or only lets go of the lock. */
  lemma CommitShape(st: State, token: string, sent: bool)
    requires token in st.pending
    ensures var now, after := Commits(st, token, sent), st.pending[token].after;
            && now.pending == st.pending - {token} && now.issued == st.issued && now.effects == st.effects
            && (Stores(st, now, token, after) || (now.ops == st.ops && now.origins == st.origins))
  {
    hide CanSpend, Spend, Delivers, UseOf, Replaced, Further, OriginOf, RowOf, Stores;
    CommitStores(st, token, sent);
  }

  lemma CommitStores(st: State, token: string, sent: bool)
    requires token in st.pending
    ensures var p := st.pending[token];
            CanSpend(RowOf(st, p.after.user), p.commit) && Delivers(p.after, p.commit, sent) ==>
              Stores(st, Commits(st, token, sent), token, p.after)
  {
    hide CanSpend, Spend, Delivers, UseOf, Replaced, Further, OriginOf, RowOf;
  }

  lemma CommitTokens(st: State, token: string, sent: bool)
    requires Tokens(st) && token in st.pending
    ensures Tokens(Commits(st, token, sent))
  {
    hide Invariant, Storable, Commits, Replaced;
    CommitShape(st, token, sent);
    var now := Commits(st, token, sent);
    assert PendingOk(st, token);
    if now.ops == Replaced(st.ops, token, st.pending[token].after) {
      ReplaceTokens(st, now, token, st.pending[token].after);
    } else {
      LessPending(st, now);
    }
  }

  lemma LessPending(st: State, now: State)
    requires Tokens(st) && now.ops == st.ops && now.issued == st.issued
    requires forall t :: t in now.pending ==> t in st.pending && now.pending[t] == st.pending[t]
    ensures Tokens(now)
  {
    hide Invariant, Storable;
    forall t | t in now.pending
      ensures PendingOk(now, t)
    {
      assert PendingOk(st, t);
    }
  }

  lemma ResendTokens(st: State, token: string, q: Request)
    requires Tokens(st) && token !in st.pending && IsNew(st, q.newToken)
    ensures Tokens(Next(st, Resending(token, q)))
  {
    var now := Next(st, Resending(token, q));
    assert st.pending - {token} == st.pending;
    if Resends(st.ops, token, q).1.Done? {
      var op := st.ops[token];
      var after := WithCode(Resent(op, q.newToken, q.at), q.newHash);
      ResentKeeps(op, q.newToken, q.newHash, q.at);
      hide Invariant, Storable, Resent, WithCode, Notifies, ResendError, Fetch;
      ReplaceTokens(st, now, token, after);
    } else {
      IssueMore(st, now);
    }
  }

  lemma ResentKeeps(op: Op, token: string, hash: string, at: int)
    requires Invariant(op) && ResendError(op, token, at).NoError?
    ensures var a := WithCode(Resent(op, token, at), hash);
            Invariant(a) && a.user == op.user && a.name == op.name && a.token == token && a.status.Opened?
  {
  }

  lemma IssueMore(st: State, now: State)
    requires Tokens(st) && now.ops == st.ops && now.pending == st.pending && st.issued <= now.issued
    ensures Tokens(now)
  {
    hide Invariant, Storable;
    forall t | t in now.pending
      ensures PendingOk(now, t)
    {
      assert PendingOk(st, t);
    }
  }

  /** Opening puts the operation in the place of the owner's others, or changes no row. */
  lemma OpenShape(st: State, op: Op, sent: bool)
    ensures var now := Next(st, Opening(op, sent));
            var left := if op.user == 0 then st.ops else Others(st.ops, op.user, op.name);
            && now.pending == st.pending && now.effects == st.effects
            && (now == st
                || (&& IsNew(st, op.token) && Invariant(op) && NewlyMade(op) && Unlocked(st, op.user, op.name)
                    && now.issued == st.issued + {op.token}
                    && ((now.ops == st.ops && now.origins == st.origins)
                        || (Storable(op) && now.ops == left[op.token := op]
                          && now.origins == st.origins[op.token := Origin(op.actions, 0, 0)]))))
  {
    hide Invariant, Storable, Notifies, Others, NewlyMade, Unlocked;
  }

  lemma OpenTokens(st: State, op: Op, sent: bool)
    requires Tokens(st)
    ensures Tokens(Next(st, Opening(op, sent)))
  {
    OpenShape(st, op, sent);
    hide Invariant, Storable, Next;
    var now := Next(st, Opening(op, sent));
    if now != st {
      forall t | t in now.pending
        ensures PendingOk(now, t)
      {
        assert PendingOk(st, t);
      }
    }
  }

  lemma CountTokens(st: State, token: string)
    requires Tokens(st) && token in st.ops && token !in st.pending && st.ops[token].attempts > 0
    ensures Tokens(st.(ops := Decremented(st.ops, token)))
  {
    var now := st.(ops := Decremented(st.ops, token));
    forall t | t in now.pending
      ensures PendingOk(now, t)
    {
      assert PendingOk(st, t);
    }
  }

  lemma TokensKept(st: State, e: Event)
    requires Tokens(st)
    ensures Tokens(Next(st, e))
  {
    hide Tokens, Commits, Check, Renewed, Started, Taken, Bound, Recoded, Applies, Fetch, Invariant;
    match e
    case Checking(token, code, q) =>
      if token !in st.pending && IsNew(st, q.newToken) { CheckTokens(st, token, code, q); }
    case Committing(token, sent) => if token in st.pending { CommitTokens(st, token, sent); }
    case Aborting(token) => LessPending(st, Next(st, e));
    case Resending(token, q) => if token !in st.pending && IsNew(st, q.newToken) { ResendTokens(st, token, q); }
    case Opening(op, sent) => OpenTokens(st, op, sent);
    case _ =>
      var token := OtherShape(st, e);
      DropsKeep(st, Next(st, e), token);
  }

  lemma AppliesDrops(ops: Ops, token: string, visitor: nat, at: int, handlers: Handlers)
    ensures var r := Applies(ops, token, visitor, at, handlers);
            r.0 == (if r.1.Done? then ops - {token} else ops)
            && (r.1.Done? ==> token in ops && ops[token].status.Confirmed? && ops[token].user == visitor)
  {
  }

  lemma DropsKeep(st: State, now: State, token: string)
    requires Tokens(st) && now.pending == st.pending && now.issued == st.issued
    requires now.ops == st.ops || (now.ops == st.ops - {token} && token !in st.pending)
    ensures Tokens(now)
  {
    forall t | t in st.pending
      ensures t in now.ops
    {
      assert PendingOk(st, t);
    }
    DropTokens(st, now);
  }

  // ---------- what a step can do to the stored operations ----------

  datatype Change =
    | Kept
    | Dropped(token: string)
    | Less(token: string)
    | Swapped(token: string, after: Op)
    | Inserted(op: Op)

  ghost predicate Changed(st: State, now: State, c: Change) {
    && st.issued <= now.issued
    && (match c
        case Kept => now.ops == st.ops
        case Dropped(t) => t !in st.pending && now.ops == st.ops - {t}
        case Less(t) => t in st.ops && st.ops[t].status.Opened? && now.ops == Decremented(st.ops, t)
        case Swapped(t, after) =>
          && t in st.ops && st.ops[t].status.Opened? && after.user == st.ops[t].user && after.name == st.ops[t].name
          && (after.token == t || after.token !in st.ops) && !Dead(st, after.token)
          && now.ops == Replaced(st.ops, t, after)
        case Inserted(op) =>
          && op.token !in st.issued && op.status.Opened?
          && now.ops == (if op.user == 0 then st.ops else Others(st.ops, op.user, op.name))[op.token := op])
    && (forall t :: t in now.pending ==>
          (t in st.pending && now.pending[t] == st.pending[t]) || (now.pending[t].after.token == t && t in st.ops)
            || now.pending[t].after.token !in st.issued)
  }

  lemma ChangeOf(st: State, e: Event) returns (c: Change)
    requires Tokens(st)
    ensures Changed(st, Next(st, e), c)
  {
    hide Changed, Tokens, Check, Commits, Started, Renewed, Taken, Bound, Recoded, Applies, Fetch;
    NoChange(st);
    c := Kept;
    match e {
      case Opening(op, sent) => c := OpenChange(st, op, sent);
      case Checking(token, code, q) =>
        if token !in st.pending && IsNew(st, q.newToken) { c := CheckChange(st, token, code, q); }
      case Committing(token, sent) => if token in st.pending { c := CommitChange(st, token, sent); }
      case Aborting(token) => AbortChange(st, token);
      case Resending(token, q) =>
        if token !in st.pending && IsNew(st, q.newToken) { c := ResendChange(st, token, q); }
      case _ => c := OtherChange(st, e);
    }
  }

  ghost predicate Removes(st: State, now: State, token: string) {
    && now.pending == st.pending && now.issued == st.issued && now.origins == st.origins
    && (now.ops == st.ops || (now.ops == st.ops - {token} && token !in st.pending))
  }

  /** All other steps take away one row that is not locked, or none. */
  lemma OtherShape(st: State, e: Event) returns (token: string)
    requires !e.Opening? && !e.Checking? && !e.Committing? && !e.Aborting? && !e.Resending?
    ensures Removes(st, Next(st, e), token)
  {
    hide Applies, Fetch, Removes;
    token := match e
      case Applying(t, _, _, _) => t
      case OpeningSession(op) => op.token
      case Revoking(t, _, _) => t
      case Expiring(t) => t
      case _ => "";
    if e.Applying? || e.OpeningSession? || e.Revoking? || e.Expiring? {
      TakingShape(st, e, token);
    } else {
      AsideShape(st, e);
    }
  }

  lemma TakenRemoves(st: State, token: string, effects: seq<Effect>)
    ensures Removes(st, Taken(st, token, effects), token) && Removes(st, st, token)
  {
  }

  lemma TakingShape(st: State, e: Event, token: string)
    requires e.Applying? || e.OpeningSession? || e.Revoking? || e.Expiring?
    requires token == if e.OpeningSession? then e.op.token else e.token
    ensures Removes(st, Next(st, e), token)
  {
    hide Applies, Fetch, Taken, Removes;
    TakenRemoves(st, token, []);
    if e.OpeningSession? { TakenRemoves(st, token, [Effect(e.op, 0)]); }
    if e.Applying? {
      AppliesDrops(st.ops, token, e.visitor, e.at, e.handlers);
      if token in st.ops { TakenRemoves(st, token, [Effect(st.ops[token], e.visitor)]); }
    }
  }

  lemma AsideShape(st: State, e: Event)
    requires e.Reading? || e.Binding? || e.Unbinding? || e.Regenerating?
    ensures Removes(st, Next(st, e), "")
  {
    hide Fetch;
  }

  lemma OtherChange(st: State, e: Event) returns (c: Change)
    requires !e.Opening? && !e.Checking? && !e.Committing? && !e.Aborting? && !e.Resending?
    ensures Changed(st, Next(st, e), c)
  {
    var token := OtherShape(st, e);
    hide Changed, Next;
    c := DropChange(st, Next(st, e), token);
  }

  lemma AbortChange(st: State, token: string)
    ensures Changed(st, st.(pending := st.pending - {token}), Kept)
  {
  }

  lemma NoChange(st: State)
    ensures Changed(st, st, Kept)
  {
  }

  lemma DropChange(st: State, now: State, token: string) returns (c: Change)
    requires now.pending == st.pending && now.issued == st.issued
    requires now.ops == st.ops || (now.ops == st.ops - {token} && token !in st.pending)
    ensures Changed(st, now, c)
  {
    c := if now.ops == st.ops then Kept else Dropped(token);
  }

  lemma OpenChange(st: State, op: Op, sent: bool) returns (c: Change)
    ensures Changed(st, Next(st, Opening(op, sent)), c)
  {
    OpenShape(st, op, sent);
    hide Next, Invariant, Storable, Others;
    c := if Next(st, Opening(op, sent)).ops != st.ops then Inserted(op) else Kept;
  }

  lemma CommitChange(st: State, token: string, sent: bool) returns (c: Change)
    requires Tokens(st) && token in st.pending
    ensures Changed(st, Commits(st, token, sent), c)
  {
    hide Invariant, Storable, Commits, Replaced;
    CommitShape(st, token, sent);
    assert PendingOk(st, token);
    var after := st.pending[token].after;
    assert !Dead(st, after.token);
    c := if Commits(st, token, sent).ops == Replaced(st.ops, token, after) then Swapped(token, after) else Kept;
  }

  lemma CheckChange(st: State, token: string, code: string, q: Request) returns (c: Change)
    requires Tokens(st) && token !in st.pending && IsNew(st, q.newToken)
    ensures Changed(st, Check(st, token, code, q), c)
  {
    PreparedOk(st, token, code, q);
    hide Prepare, Invariant, Storable, RowFor, CanReplace;
    c := if Prepare(st.ops, RowFor(st, token), token, code, q).Counted? then Less(token) else Kept;
  }

  lemma ResendChange(st: State, token: string, q: Request) returns (c: Change)
    requires Tokens(st) && token !in st.pending && IsNew(st, q.newToken)
    ensures Changed(st, Next(st, Resending(token, q)), c)
  {
    c := Kept;
    if Resends(st.ops, token, q).1.Done? {
      ResentKeeps(st.ops[token], q.newToken, q.newHash, q.at);
      c := Swapped(token, WithCode(Resent(st.ops[token], q.newToken, q.at), q.newHash));
    }
  }

  /** A token that no operation answers to any more never resolves again. */
  lemma DeadStays(st: State, e: Event, token: string)
    requires Tokens(st) && Dead(st, token)
    ensures Dead(Next(st, e), token)
  {
    var c := ChangeOf(st, e);
    hide Dead, Changed, Next, Tokens;
    DeadChanged(st, Next(st, e), c, token);
  }

  lemma DeadChanged(st: State, now: State, c: Change, token: string)
    requires Dead(st, token) && Changed(st, now, c)
    ensures Dead(now, token)
  {
    hide Others;
  }

  /** Every token an operation gives up, by moving on, by being superseded or by being used, is dead. */
  lemma LeftIsDead(st: State, e: Event, token: string)
    requires Tokens(st) && token in st.ops && token !in Next(st, e).ops
    ensures Dead(Next(st, e), token)
  {
    var now := Next(st, e);
    TokensKept(st, e);
    var c := ChangeOf(st, e);
    hide Next;
    forall t | t in now.pending
      ensures now.pending[t].after.token != token
    {
      NotItsSuccessor(st, now, c, token, t);
    }
    assert token in st.issued;
    hide Tokens, Changed;
  }

  /** A row that is gone is not what a checked confirmation is about to store. */
  lemma NotItsSuccessor(st: State, now: State, c: Change, token: string, t: string)
    requires Tokens(st) && Tokens(now) && Changed(st, now, c) && token in st.ops && token !in now.ops
             && t in now.pending
    ensures now.pending[t].after.token != token
  {
    hide Invariant, Storable, Others;
    assert PendingOk(now, t);
    if t in st.pending { assert PendingOk(st, t); }
  }

  lemma {:induction false} DeadForever(st: State, es: seq<Event>, token: string)
    requires Tokens(st) && Dead(st, token)
    ensures Tokens(Exec(st, es)) && Dead(Exec(st, es), token)
  {
    if es != [] {
      DeadForever(st, es[..|es| - 1], token);
      TokensKept(Exec(st, es[..|es| - 1]), es[|es| - 1]);
      DeadStays(Exec(st, es[..|es| - 1]), es[|es| - 1], token);
    }
  }

  // ---------- owners ----------

  /** At most one stored operation of a kind per owner, at all times. */
  lemma OwnersKept(st: State, e: Event)
    requires Tokens(st) && Owners(st)
    ensures Owners(Next(st, e))
  {
    var c := ChangeOf(st, e);
    OwnersChanged(st, Next(st, e), c);
  }

  lemma OwnersChanged(st: State, now: State, c: Change)
    requires Owners(st) && Changed(st, now, c)
    ensures Owners(now)
  {
  }

  // ---------- consuming a confirmed operation ----------

  /** An operation read as confirmed stays as it was read until it is gone for good. */
  ghost predicate Frozen(st: State, op: Op) {
    && op.status.Confirmed? && op.token in st.issued
    && (op.token in st.ops ==> st.ops[op.token] == op)
    && forall t :: t in st.pending ==> st.pending[t].after.token != op.token
  }

  ghost predicate AllFrozen(st: State) {
    forall op :: op in st.seen ==> Frozen(st, op)
  }

  ghost predicate Effects(st: State) {
    && (forall i :: 0 <= i < |st.effects| ==> EffectOk(st, st.effects[i]))
    && (forall i, j :: 0 <= i < j < |st.effects| ==> st.effects[i].op.token != st.effects[j].op.token)
  }

  ghost predicate EffectOk(st: State, f: Effect) {
    f.op.status.Confirmed? && Dead(st, f.op.token) && (f.actor == 0 || f.actor == f.op.user)
  }

  lemma FrozenStays(st: State, e: Event, op: Op)
    requires Tokens(st) && Frozen(st, op)
    ensures Frozen(Next(st, e), op)
  {
    var now := Next(st, e);
    TokensKept(st, e);
    var c := ChangeOf(st, e);
    FrozenChanged(st, now, c, op);
    if op.token in now.ops {
      ReadIsFrozen(now, op);
    } else if op.token in st.ops {
      LeftIsDead(st, e, op.token);
    } else {
      DeadStays(st, e, op.token);
    }
  }

  lemma FrozenChanged(st: State, now: State, c: Change, op: Op)
    requires Frozen(st, op) && Changed(st, now, c)
    ensures op.token in now.ops ==> now.ops[op.token] == op
  {
  }

  lemma FrozenKept(st: State, e: Event)
    requires Tokens(st) && AllFrozen(st)
    ensures AllFrozen(Next(st, e))
  {
    forall op | op in Next(st, e).seen
      ensures Frozen(Next(st, e), op)
    {
      if op !in st.seen { ReadIsFrozen(st, op); }
      FrozenStays(st, e, op);
    }
  }

  lemma ReadIsFrozen(st: State, op: Op)
    requires Tokens(st) && op.status.Confirmed? && op.token in st.ops && st.ops[op.token] == op
    ensures Frozen(st, op)
  {
    forall t | t in st.pending
      ensures st.pending[t].after.token != op.token
    {
      assert PendingOk(st, t);
    }
  }

  /** Each confirmed operation has at most one effect, and the owner's alone or a session's. */
  lemma EffectsKept(st: State, e: Event)
    requires Tokens(st) && AllFrozen(st) && Effects(st)
    ensures Effects(Next(st, e))
  {
    var now := Next(st, e);
    var f := EffectOf(st, e);
    hide Next, Tokens, AllFrozen, EffectOk;
    forall i | 0 <= i < |st.effects|
      ensures EffectOk(now, st.effects[i]) && (f.op.token in st.ops ==> st.effects[i].op.token != f.op.token)
    {
      EffectStays(st, e, st.effects[i], f.op.token);
    }
    if now.effects != st.effects { EffectMade(st, e, f); }
    EffectsGrow(st, now, f);
  }

  lemma EffectMade(st: State, e: Event, f: Effect)
    requires Tokens(st) && f.op.token in st.ops && f.op.token !in Next(st, e).ops
    requires f.op.status.Confirmed? && (f.actor == 0 || f.actor == f.op.user)
    ensures EffectOk(Next(st, e), f)
  {
    LeftIsDead(st, e, f.op.token);
    hide Next, Tokens, Dead;
  }

  lemma EffectsGrow(st: State, now: State, f: Effect)
    requires forall i, j :: 0 <= i < j < |st.effects| ==> st.effects[i].op.token != st.effects[j].op.token
    requires forall i :: 0 <= i < |st.effects| ==> EffectOk(now, st.effects[i])
    requires || now.effects == st.effects
             || (now.effects == st.effects + [f] && EffectOk(now, f)
                 && forall i :: 0 <= i < |st.effects| ==> st.effects[i].op.token != f.op.token)
    ensures Effects(now)
  {
    hide EffectOk;
  }

  lemma EffectStays(st: State, e: Event, f: Effect, token: string)
    requires Tokens(st) && EffectOk(st, f)
    ensures EffectOk(Next(st, e), f) && (token in st.ops ==> f.op.token != token)
  {
    hide Next, Tokens;
    DeadStays(st, e, f.op.token);
  }

  lemma EffectOf(st: State, e: Event) returns (f: Effect)
    requires Tokens(st) && AllFrozen(st)
    ensures var now := Next(st, e);
            now.effects == st.effects
            || (now.effects == st.effects + [f] && f.op.token in st.ops && st.ops[f.op.token] == f.op
              && f.op.token !in now.ops
                && f.op.status.Confirmed? && (f.actor == 0 || f.actor == f.op.user))
  {
    hide Invariant, Storable, Check, Commits, Opens, Resends, Fetch;
    f := Effect(Op("", "", 0, [], 0, 0, 0, "", Opened, 0), 0);
    match e {
      case Applying(token, visitor, at, handlers) =>
        if token in st.ops { f := Effect(st.ops[token], visitor); }
        AppliesDrops(st.ops, token, visitor, at, handlers);
      case OpeningSession(op) => f := Effect(op, 0);
      case Checking(token, code, q) => CheckRest(st, token, code, q);
      case Committing(token, sent) => if token in st.pending { CommitRest(st, token, sent); }
      case _ =>
    }
  }

  lemma CheckRest(st: State, token: string, code: string, q: Request)
    ensures var now := Check(st, token, code, q);
            now.(ops := st.ops, origins := st.origins, pending := st.pending, issued := st.issued) == st
  {
  }

  lemma CommitRest(st: State, token: string, sent: bool)
    requires token in st.pending
    ensures Commits(st, token, sent).effects == st.effects
  {
  }

  // ---------- chains and wrong codes ----------

  /** The actions left are the chain from the passed ones on, and the wrong codes counted and still
      possible stay within what the chain allows. */
  ghost predicate Chained(op: Op, o: Origin) {
    SuffixOf(op, o.chain, o.passed) && Budget(op) + o.wrong <= CapSum(o.chain)
  }

  ghost predicate ChainAt(st: State, t: string)
    requires t in st.ops
  {
    t in st.origins && Chained(st.ops[t], st.origins[t])
  }

  ghost predicate ChainNext(st: State, t: string)
    requires t in st.pending
  {
    t in st.origins && Chained(st.pending[t].after, Further(st.origins[t]))
  }

  /** An operation had an effect only after each action of its chain was passed. */
  ghost predicate PassedAll(st: State, token: string) {
    token in st.origins && st.origins[token].passed == |st.origins[token].chain|
  }

  ghost predicate Chains(st: State) {
    && (forall t :: t in st.ops ==> ChainAt(st, t))
    && (forall t :: t in st.pending ==> ChainNext(st, t))
    && (forall i :: 0 <= i < |st.effects| ==> PassedAll(st, st.effects[i].op.token))
  }

  lemma EventChained(op: Op, e: SecureOperations.Event, o: Origin)
    requires Invariant(op) && Storable(op) && Chained(op, o) && Accepts(op, e)
    ensures e.RightCode? ==> Chained(After(op, e), Further(o))
    ensures e.WrongCode? ==> Chained(After(op, e), o.(wrong := o.wrong + 1))
    ensures e.Resend? ==> Chained(After(op, e), o)
  {
    hide After, Accepts, SuffixOf, Budget;
    AfterKeeps(op, e, o.chain, o.passed);
    AfterBudget(op, e);
  }

  /** One origin is written, the operation it belongs to fits it, everything else stands. */
  lemma OriginSet(st: State, now: State, t: string, o: Origin)
    requires Chains(st) && now.origins == st.origins[t := o] && now.effects == st.effects
    requires forall x :: x in now.ops ==>
               if x == t then Chained(now.ops[x], o) else x in st.ops && now.ops[x] == st.ops[x]
    requires forall x :: x in now.pending ==> x != t && x in st.pending && now.pending[x] == st.pending[x]
    requires forall i :: 0 <= i < |st.effects| ==> st.effects[i].op.token != t
    ensures Chains(now)
  {
    hide Chained;
    forall x | x in now.ops
      ensures ChainAt(now, x)
    {
      if x != t { assert ChainAt(st, x); }
    }
    forall x | x in now.pending
      ensures ChainNext(now, x)
    {
      assert ChainNext(st, x);
    }
    forall i | 0 <= i < |st.effects|
      ensures PassedAll(now, st.effects[i].op.token)
    {
      assert PassedAll(st, st.effects[i].op.token);
    }
  }

  /** Nothing but rows that go, and at most one effect of a confirmed one. */
  lemma ChainsDrop(st: State, now: State)
    requires Tokens(st) && Chains(st) && now.origins == st.origins && now.pending == st.pending
    requires forall x :: x in now.ops ==> x in st.ops && now.ops[x] == st.ops[x]
    requires forall i :: |st.effects| <= i < |now.effects| ==>
               now.effects[i].op.token in st.ops && st.ops[now.effects[i].op.token].status.Confirmed?
    requires |st.effects| <= |now.effects| && forall i :: 0 <= i < |st.effects| ==> now.effects[i] == st.effects[i]
    ensures Chains(now)
  {
    forall x | x in now.ops
      ensures ChainAt(now, x)
    {
      assert ChainAt(st, x);
    }
    forall x | x in now.pending
      ensures ChainNext(now, x)
    {
      assert ChainNext(st, x);
    }
    forall i | 0 <= i < |now.effects|
      ensures PassedAll(now, now.effects[i].op.token)
    {
      if i < |st.effects| {
        assert PassedAll(st, st.effects[i].op.token);
      } else {
        assert ChainAt(st, now.effects[i].op.token);
      }
    }
  }

  // ---------- spending the second factor ----------

  ghost predicate UseOk(st: State, u: Use) {
    match u
    case StepUse(user, b, n) =>
      && b < st.nextId
      && (user in st.bindings && st.bindings[user] == b ==> user in st.factors && n <= st.factors[user].lastStep)
    case CodeUse(user, s, h) =>
      && s < st.nextId
      && (user in st.codesets && st.codesets[user] == s ==> user in st.factors && h !in st.factors[user].codes)
  }

  /** Two codes spent on the same row: the later step is the greater one, no recovery code comes twice. */
  ghost predicate Apart(u: Use, v: Use) {
    && (u.StepUse? && v.StepUse? && u.user == v.user && u.binding == v.binding ==> u.step < v.step)
    && (u.CodeUse? && v.CodeUse? && u.user == v.user && u.codeset == v.codeset ==> u.hash != v.hash)
  }

  ghost predicate Uses(st: State) {
    && st.bindings.Keys == st.codesets.Keys == st.factors.Keys
    && (forall user :: user in st.bindings ==> st.bindings[user] < st.nextId)
    && (forall user :: user in st.codesets ==> st.codesets[user] < st.nextId)
    && (forall i :: 0 <= i < |st.used| ==> UseOk(st, st.used[i]))
    && (forall i, j :: 0 <= i < j < |st.used| ==> Apart(st.used[i], st.used[j]))
  }

  lemma CommitUses(st: State, token: string, sent: bool)
    requires Uses(st) && token in st.pending
    ensures Uses(Commits(st, token, sent))
  {
    var p := st.pending[token];
    var now, user := Commits(st, token, sent), p.after.user;
    hide Replaced, Delivers;
    if now.used != st.used {
      var u := UseOf(st, user, p.commit)[0];
      assert user in st.factors && now.factors == st.factors[user := Spend(RowOf(st, user), p.commit).value];
      assert UseOk(now, u);
      forall i | 0 <= i < |st.used|
        ensures UseOk(now, st.used[i]) && Apart(st.used[i], u)
      {
        assert UseOk(st, st.used[i]);
      }
    } else {
      SameFactors(st, now);
    }
  }

  ghost predicate SameFactorTables(st: State, now: State) {
    && now.used == st.used && now.factors == st.factors && now.bindings == st.bindings
    && now.codesets == st.codesets && now.nextId == st.nextId
  }

  lemma SameFactors(st: State, now: State)
    requires Uses(st) && SameFactorTables(st, now)
    ensures Uses(now)
  {
    forall i | 0 <= i < |st.used|
      ensures UseOk(now, st.used[i])
    {
      assert UseOk(st, st.used[i]);
    }
  }

  /** Whatever runs in between, the steps spent while one binding stands strictly increase, and
      each recovery code of one set is spent at most once. */
  lemma UsesKept(st: State, e: Event)
    requires Uses(st)
    ensures Uses(Next(st, e))
  {
    hide Uses, Started, Renewed, Applies, Fetch, Check, Commits;
    var now := Next(st, e);
    match e
    case Committing(token, sent) => if token in st.pending { CommitUses(st, token, sent); }
    case Binding(user, f) => if user !in st.factors { RebindUses(st, now, user, f, st.nextId); }
    case Regenerating(user, codes) => if user in st.factors { Rewritten(st, user, codes); }
    case Unbinding(user) => UnbindUses(st, user);
    case _ => FactorsAside(st, e); SameFactors(st, now);
  }

  lemma FactorsAside(st: State, e: Event)
    requires !e.Committing? && !e.Binding? && !e.Unbinding? && !e.Regenerating?
    ensures SameFactorTables(st, Next(st, e))
  {
    hide Started, Renewed, Check, Taken, SameFactorTables;
    NoRest(st);
    match e
    case Checking(token, code, q) =>
      CheckRest(st, token, code, q);
      CheckAside(st, Check(st, token, code, q));
    case Aborting(token) => AbortAside(st, token);
    case Opening(op, sent) => StartRest(st, op, sent);
    case Resending(token, q) => RenewRest(st, token, q);
    case _ => TakingAside(st, e);
  }

  lemma AbortAside(st: State, token: string)
    ensures SameFactorTables(st, st.(pending := st.pending - {token}))
  {
  }

  lemma NoRest(st: State)
    ensures SameFactorTables(st, st)
  {
  }

  lemma CheckAside(st: State, now: State)
    requires now.(ops := st.ops, origins := st.origins, pending := st.pending, issued := st.issued) == st
    ensures SameFactorTables(st, now)
  {
  }

  lemma TakenAside(st: State, token: string, effects: seq<Effect>)
    ensures SameFactorTables(st, Taken(st, token, effects))
  {
  }

  lemma ReadAside(st: State, now: State)
    requires now == st.(seen := now.seen)
    ensures SameFactorTables(st, now)
  {
  }

  lemma TakingAside(st: State, e: Event)
    requires e.Applying? || e.OpeningSession? || e.Revoking? || e.Expiring? || e.Reading?
    ensures SameFactorTables(st, Next(st, e))
  {
    hide Applies, Fetch, Taken, SameFactorTables;
    NoRest(st);
    match e
    case Applying(token, visitor, at, handlers) =>
      AppliesDrops(st.ops, token, visitor, at, handlers);
      if token in st.ops { TakenAside(st, token, [Effect(st.ops[token], visitor)]); }
    case OpeningSession(op) => TakenAside(st, op.token, [Effect(op, 0)]);
    case Revoking(token, visitor, at) => TakenAside(st, token, []);
    case Expiring(token) => TakenAside(st, token, []);
    case Reading(token, at) => ReadAside(st, Next(st, e));
  }

  lemma StartRest(st: State, op: Op, sent: bool)
    ensures SameFactorTables(st, Started(st, op, sent)) && Started(st, op, sent).effects == st.effects
  {
    hide Opens, Invariant, NewlyMade, Unlocked;
  }

  lemma RenewRest(st: State, token: string, q: Request)
    ensures SameFactorTables(st, Renewed(st, token, q)) && Renewed(st, token, q).effects == st.effects
  {
    hide Resends;
  }

  lemma RebindUses(st: State, now: State, user: nat, f: Factor, binding: nat)
    requires Uses(st) && now.used == st.used && now.nextId == st.nextId + 1
    requires now.factors == st.factors[user := f] && now.bindings == st.bindings[user := binding]
             && now.codesets == st.codesets[user := st.nextId]
    requires binding == st.nextId
             || (user in st.factors && binding == st.bindings[user] && f.lastStep == st.factors[user].lastStep)
    ensures Uses(now)
  {
    forall i | 0 <= i < |st.used|
      ensures UseOk(now, st.used[i])
    {
      assert UseOk(st, st.used[i]);
    }
  }

  lemma Rewritten(st: State, user: nat, codes: seq<string>)
    requires Uses(st) && user in st.factors
    ensures Uses(Next(st, Regenerating(user, codes)))
  {
    assert st.bindings == st.bindings[user := st.bindings[user]];
    RebindUses(st, Next(st, Regenerating(user, codes)), user, st.factors[user].(codes := codes), st.bindings[user]);
  }

  lemma UnbindUses(st: State, user: nat)
    requires Uses(st)
    ensures Uses(Next(st, Unbinding(user)))
  {
    var now := Next(st, Unbinding(user));
    forall i | 0 <= i < |st.used|
      ensures UseOk(now, st.used[i])
    {
      assert UseOk(st, st.used[i]);
    }
  }

  /** A code that owes an update is spent in the very step that stores Confirmed, or neither happens. */
  lemma SpentWithConfirmed(st: State, token: string, sent: bool)
    requires Tokens(st) && Uses(st) && token in st.pending && !st.pending[token].commit.NoCommit?
    ensures var p, now := st.pending[token], Commits(st, token, sent);
            (now.ops == st.ops && now.used == st.used && now.factors == st.factors)
            || (token in now.ops && now.ops[token] == p.after && p.after.status.Confirmed?
                && now.used == st.used + UseOf(st, p.after.user, p.commit) && |UseOf(st, p.after.user, p.commit)| == 1)
  {
    assert PendingOk(st, token);
  }

  lemma CheckChains(st: State, token: string, code: string, q: Request)
    requires Tokens(st) && Chains(st) && Effects(st) && token !in st.pending && IsNew(st, q.newToken)
    ensures Chains(Check(st, token, code, q))
  {
    hide Prepare, Chains, Tokens, Effects, Accepts, After, RowFor;
    var p := Prepare(st.ops, RowFor(st, token), token, code, q);
    if !p.Refused? {
      ReadyFor(st.ops, RowFor(st, token), token, code, q);
      PrepareIsEvent(st.ops, RowFor(st, token), token, code, q);
      if p.Counted? {
        CountChains(st, token, Check(st, token, code, q));
      } else if CanReplace(st.ops, token, p.after) {
        CanReplaceStores(st.ops, token, p.after);
        ReadyChains(st, token, RightCode(p.commit, q.newToken, q.newHash, q.at), Check(st, token, code, q));
      }
    }
  }

  lemma CountChains(st: State, token: string, now: State)
    requires Tokens(st) && Chains(st) && Effects(st) && token in st.ops && token !in st.pending
    requires Accepts(st.ops[token], WrongCode)
    requires var o := OriginOf(st, token);
             now == st.(ops := Decremented(st.ops, token), origins := st.origins[token := o.(wrong := o.wrong + 1)])
    ensures Chains(now)
  {
    hide Chained, Accepts, After, Invariant, Storable;
    assert ChainAt(st, token);
    NotSpent(st, token);
    EventChained(st.ops[token], WrongCode, st.origins[token]);
    WrongCodeCounts(st.ops, token);
    OriginSet(st, now, token, st.origins[token].(wrong := st.origins[token].wrong + 1));
  }

  lemma ReadyChains(st: State, token: string, e: SecureOperations.Event, now: State)
    requires Tokens(st) && Chains(st) && token in st.ops && token in now.pending
    requires e.RightCode? && Accepts(st.ops[token], e) && now.pending[token].after == After(st.ops[token], e)
    requires now == st.(pending := st.pending[token := now.pending[token]], issued := now.issued)
    ensures Chains(now)
  {
    hide Chained, Accepts, After, Invariant, Storable;
    assert ChainAt(st, token);
    EventChained(st.ops[token], e, st.origins[token]);
    PendChains(st, now, token);
  }

  lemma WrongCodeCounts(ops: Ops, token: string)
    requires token in ops && Accepts(ops[token], WrongCode)
    ensures Decremented(ops, token) == ops[token := After(ops[token], WrongCode)]
  {
  }

  lemma PendChains(st: State, now: State, token: string)
    requires Chains(st) && token in now.pending && ChainNext(now, token)
    requires now == st.(pending := st.pending[token := now.pending[token]], issued := now.issued)
    ensures Chains(now)
  {
    hide Chained;
    forall x | x in now.ops
      ensures ChainAt(now, x)
    {
      assert ChainAt(st, x);
    }
    forall x | x in now.pending
      ensures ChainNext(now, x)
    {
      if x != token { assert ChainNext(st, x); }
    }
    forall i | 0 <= i < |st.effects|
      ensures PassedAll(now, st.effects[i].op.token)
    {
      assert PassedAll(st, st.effects[i].op.token);
    }
  }

  /** Operations that had their effect are none of those stored or about to be. */
  lemma NotSpent(st: State, token: string)
    requires Effects(st) && !Dead(st, token)
    ensures forall i :: 0 <= i < |st.effects| ==> st.effects[i].op.token != token
  {
    forall i | 0 <= i < |st.effects|
      ensures st.effects[i].op.token != token
    {
      assert EffectOk(st, st.effects[i]);
    }
  }

  lemma CommitChains(st: State, token: string, sent: bool)
    requires Tokens(st) && Chains(st) && Effects(st) && token in st.pending
    ensures Chains(Commits(st, token, sent))
  {
    hide Invariant, Storable, Commits, Chained;
    CommitShape(st, token, sent);
    var now, after := Commits(st, token, sent), st.pending[token].after;
    assert PendingOk(st, token) && ChainNext(st, token);
    if now.ops == st.ops && now.origins == st.origins {
      FewerPending(st, now);
    } else {
      NotSpent(st, after.token);
      forall x | x in now.pending
        ensures x != after.token
      {
        assert PendingOk(st, x);
      }
      OriginSet(st, now, after.token, Further(st.origins[token]));
    }
  }

  lemma FewerPending(st: State, now: State)
    requires Chains(st) && now.ops == st.ops && now.origins == st.origins && now.effects == st.effects
    requires forall x :: x in now.pending ==> x in st.pending && now.pending[x] == st.pending[x]
    ensures Chains(now)
  {
    hide Chained;
    forall x | x in now.ops
      ensures ChainAt(now, x)
    {
      assert ChainAt(st, x);
    }
    forall x | x in now.pending
      ensures ChainNext(now, x)
    {
      assert ChainNext(st, x);
    }
    forall i | 0 <= i < |st.effects|
      ensures PassedAll(now, st.effects[i].op.token)
    {
      assert PassedAll(st, st.effects[i].op.token);
    }
  }

  lemma ResendChains(st: State, token: string, q: Request)
    requires Tokens(st) && Chains(st) && Effects(st) && token !in st.pending && IsNew(st, q.newToken)
    ensures Chains(Next(st, Resending(token, q)))
  {
    ResendsIsEvent(st.ops, token, q);
    hide Resends, Chains, Tokens, Effects, Accepts, After;
    if Resends(st.ops, token, q).1.Done? {
      RenewChains(st, token, q, Renewed(st, token, q));
    } else {
      FewerPending(st, Renewed(st, token, q));
    }
  }

  lemma RenewChains(st: State, token: string, q: Request, now: State)
    requires Tokens(st) && Chains(st) && Effects(st) && token in st.ops && IsNew(st, q.newToken)
    requires var e := Resend(q.newToken, q.newHash, q.at);
             Accepts(st.ops[token], e) && now.ops == Replaced(st.ops, token, After(st.ops[token], e))
    requires now.origins == st.origins[q.newToken := OriginOf(st, token)]
    requires now.pending == st.pending && now.effects == st.effects
    ensures Chains(now)
  {
    hide Chained, Accepts, Invariant, Storable;
    assert ChainAt(st, token);
    ResentToken(st.ops[token], q);
    EventChained(st.ops[token], Resend(q.newToken, q.newHash, q.at), st.origins[token]);
    hide After;
    NotSpent(st, q.newToken);
    forall x | x in now.pending
      ensures x != q.newToken
    {
      assert PendingOk(st, x);
    }
    OriginSet(st, now, q.newToken, st.origins[token]);
  }

  lemma ResentToken(op: Op, q: Request)
    requires Accepts(op, Resend(q.newToken, q.newHash, q.at))
    ensures After(op, Resend(q.newToken, q.newHash, q.at)).token == q.newToken
  {
  }

  lemma OpenChains(st: State, op: Op, sent: bool)
    requires Tokens(st) && Chains(st) && Effects(st)
    ensures Chains(Next(st, Opening(op, sent)))
  {
    OpenShape(st, op, sent);
    hide Invariant, Storable, Next;
    var now := Next(st, Opening(op, sent));
    if now.ops != st.ops || now.origins != st.origins {
      CapOfFresh(op);
      NotSpent(st, op.token);
      assert Chained(op, Origin(op.actions, 0, 0));
      hide Chained, NewlyMade;
      forall x | x in now.pending
        ensures x != op.token
      {
        assert PendingOk(st, x);
      }
      OriginSet(st, now, op.token, Origin(op.actions, 0, 0));
    } else {
      FewerPending(st, now);
    }
  }

  /** Every step keeps the remaining actions a suffix of the chain the operation was opened with, and
      the wrong codes within its bound. */
  lemma ChainsKept(st: State, e: Event)
    requires Tokens(st) && Chains(st) && Effects(st) && AllFrozen(st)
    ensures Chains(Next(st, e))
  {
    hide Chains, Tokens, Effects, AllFrozen, Check, Commits, Renewed, Started, Taken, Bound, Recoded, Applies, Fetch;
    match e
    case Opening(op, sent) => OpenChains(st, op, sent);
    case Checking(token, code, q) =>
      if token !in st.pending && IsNew(st, q.newToken) { CheckChains(st, token, code, q); }
    case Committing(token, sent) => if token in st.pending { CommitChains(st, token, sent); }
    case Aborting(token) => FewerPending(st, Next(st, e));
    case Resending(token, q) => if token !in st.pending && IsNew(st, q.newToken) { ResendChains(st, token, q); }
    case _ => OtherChains(st, e);
  }

  lemma OtherChains(st: State, e: Event)
    requires Tokens(st) && Chains(st) && AllFrozen(st)
    requires !e.Opening? && !e.Checking? && !e.Committing? && !e.Aborting? && !e.Resending?
    ensures Chains(Next(st, e))
  {
    hide Chains, Tokens, AllFrozen, Next;
    var f := EffectOf(st, e);
    var token := OtherShape(st, e);
    assert Next(st, e).effects == st.effects + [f] ==> Next(st, e).effects[|st.effects|] == f;
    ChainsDrop(st, Next(st, e));
  }

  /** In every run: what was counted against a stored operation is bounded by its chain, and a confirmed
      one, like one that had its effect, had each action of its chain passed. */
  lemma AlwaysChained(es: seq<Event>, t: string)
    ensures var end := Exec(START, es);
            && (t in end.ops ==>
                  && t in end.origins && end.origins[t].wrong <= CapSum(end.origins[t].chain)
                  && SuffixOf(end.ops[t], end.origins[t].chain, end.origins[t].passed)
                  && (end.ops[t].status.Confirmed? <==> end.origins[t].passed == |end.origins[t].chain|))
            && forall i :: 0 <= i < |end.effects| ==> PassedAll(end, end.effects[i].op.token)
  {
    AlwaysSound(es);
    var end := Exec(START, es);
    if t in end.ops { assert ChainAt(end, t); }
  }

  // ---------- every run ----------

  ghost predicate Sound(st: State) {
    Tokens(st) && Owners(st) && AllFrozen(st) && Effects(st) && Uses(st) && Chains(st)
  }

  lemma {:induction false} AlwaysSound(es: seq<Event>)
    ensures Sound(Exec(START, es))
  {
    if es != [] {
      var st, e := Exec(START, es[..|es| - 1]), es[|es| - 1];
      AlwaysSound(es[..|es| - 1]);
      TokensKept(st, e);
      OwnersKept(st, e);
      FrozenKept(st, e);
      EffectsKept(st, e);
      UsesKept(st, e);
      ChainsKept(st, e);
    }
  }
}
