/** A protected operation: a chain of confirmation actions with attempt and resend counters.
    mrauth/model/secureoperation */
module SecureOperations {

  datatype Method = Unspecified | Email | Phone | Password | TOTP

  datatype Status = Opened | Confirmed | UnknownStatus

  /** maxAttempts and maxResends are signed in the source; times are nanoseconds. */
  datatype Action = Action(
    how: Method, maxAttempts: int, maxResends: int, minResendTime: int, expiry: int, address: string, code: string)

  datatype Op = Op(
    token: string, name: string, user: nat, actions: seq<Action>, attempts: int, resends: int,
    resendsAt: int, payload: string, status: Status, expiresAt: int)

  /** The conditional update of the second factor that a right code still owes. */
  datatype Commit = NoCommit | StepCommit(step: int) | RecoveryCommit(hash: string)

  /** What checking a code against the current action says. */
  datatype Check = Right(commit: Commit) | Wrong | Broken

  datatype Error =
    | NoError
    | InvalidInput
    | OperationExpired
    | AlreadyConfirmed
    | NoAttempts
    | CodeIncorrect
    | CheckFailed
    | ResendUnsupported
    | NoResends
    | ResendTooEarly

  predicate Sendable(a: Action) {
    a.how.Email? || a.how.Phone?
  }

  /** Round(1 * time.Second): to the nearest second, halves up. */
  function RoundSecond(t: int): (r: int)
    ensures r % 1_000_000_000 == 0 && t - 500_000_000 < r <= t + 500_000_000
  {
    (t + 500_000_000) / 1_000_000_000 * 1_000_000_000
  }

  /** Opened operations have actions, each with a method, a non-sendable one only at the end;
      confirmed ones have none. */
  predicate Invariant(op: Op) {
    && op.name != ""
    && (op.status.Confirmed? ==> op.actions == [])
    && (!op.status.Confirmed? ==> op.status.Opened? && op.actions != [])
    && (forall i :: 0 <= i < |op.actions| ==> !op.actions[i].how.Unspecified?)
    && (forall i :: 0 <= i < |op.actions| - 1 ==> Sendable(op.actions[i]))
  }

  // ---------- the transitions ----------

  function Activated(op: Op, token: string, now: int): Op
    requires op.actions != []
  {
    var a := op.actions[0];
    op.(token := token,
        attempts := a.maxAttempts,
        expiresAt := RoundSecond(now + a.expiry),
        resends := if Sendable(a) then a.maxResends else op.resends,
        resendsAt := if Sendable(a) then RoundSecond(now + a.minResendTime) else op.resendsAt)
  }

  function Resent(op: Op, token: string, now: int): Op
    requires op.actions != []
  {
    var a := op.actions[0];
    op.(token := token, attempts := a.maxAttempts, expiresAt := RoundSecond(now + a.expiry),
        resends := op.resends - 1, resendsAt := RoundSecond(now + a.minResendTime))
  }

  function WithCode(op: Op, hash: string): Op
    requires op.actions != []
  {
    if Sendable(op.actions[0]) then op.(actions := [op.actions[0].(code := hash)] + op.actions[1..]) else op
  }

  function Passed(op: Op, now: int): Op
    requires op.actions != []
  {
    if |op.actions| > 1 then op.(actions := op.actions[1..])
    else op.(actions := [], status := Confirmed, expiresAt := RoundSecond(now + op.actions[0].expiry))
  }

  function ResendError(op: Op, token: string, now: int): Error {
    if token == "" then InvalidInput
    else if !op.status.Opened? then AlreadyConfirmed
    else if op.actions == [] then InvalidInput
    else if !Sendable(op.actions[0]) then ResendUnsupported
    else if op.resends == 0 then NoResends
    else if now < op.resendsAt then ResendTooEarly
    else NoError
  }

  function ConfirmError(op: Op, check: Check): Error {
    if !op.status.Opened? then AlreadyConfirmed
    else if op.actions == [] then InvalidInput
    else if op.attempts <= 0 then NoAttempts
    else match check
      case Broken => CheckFailed
      case Wrong => CodeIncorrect
      case Right(_) => NoError
  }

  /** A created operation: opened, its first action activated. */
  function Created(token: string, name: string, user: nat, actions: seq<Action>, payload: string, now: int): Op
    requires actions != []
  {
    Activated(Op("", name, user, actions, 0, 0, 0, payload, Opened, 0), token, now)
  }

  // ---------- the mutable operation ----------

  class SecureOperation {
    var token: string
    var name: string
    var user: nat
    var actions: seq<Action>
    var remainingAttempts: int
    var remainingResends: int
    var resendsAt: int
    var payload: string
    var status: Status
    var expiresAt: int

    function Value(): Op
      reads this
    {
      Op(token, name, user, actions, remainingAttempts, remainingResends, resendsAt, payload, status, expiresAt)
    }

    constructor (row: Op)
      ensures Value() == row
    {
      token, name, user, actions := row.token, row.name, row.user, row.actions;
      remainingAttempts, remainingResends, resendsAt := row.attempts, row.resends, row.resendsAt;
      payload, status, expiresAt := row.payload, row.status, row.expiresAt;
    }

    /** Accepts exactly the values that keep the invariant. */
    method CheckInvariants() returns (ok: bool)
      ensures ok <==> Invariant(Value())
    {
      if name == "" { return false; }
      if status.Confirmed? { return actions == []; }
      if !status.Opened? { return false; }
      if actions == [] { return false; }
      for i := 0 to |actions|
        invariant forall j :: 0 <= j < i ==>
                  !actions[j].how.Unspecified? && (j < |actions| - 1 ==> Sendable(actions[j]))
      {
        if actions[i].how.Unspecified? { return false; }
        if !Sendable(actions[i]) && i != |actions| - 1 { return false; }
      }
      return true;
    }

    method WakeUp(now: int) returns (e: Error)
      ensures e == if token == "" || !Invariant(Value()) then InvalidInput else if now > expiresAt then OperationExpired
              else NoError
    {
      if token == "" { return InvalidInput; }
      var ok := CheckInvariants();
      if !ok { return InvalidInput; }
      if now > expiresAt { return OperationExpired; }
      return NoError;
    }

    method ActivateConfirmation(newToken: string, now: int) returns (e: Error)
      modifies this
      ensures e == if newToken == "" then InvalidInput
                   else if !old(status).Opened? then AlreadyConfirmed
                   else if old(actions) == [] then InvalidInput
                   else NoError
      ensures Value() == if e.NoError? then Activated(old(Value()), newToken, now) else old(Value())
      ensures e.NoError? ==>
                var a := old(actions)[0];
                && token == newToken && remainingAttempts == a.maxAttempts && expiresAt == RoundSecond(now + a.expiry)
                && (a.how.Email? || a.how.Phone? ==>
                      remainingResends == a.maxResends && resendsAt == RoundSecond(now + a.minResendTime))
                && actions == old(actions) && status == old(status)
    {
      if newToken == "" { return InvalidInput; }
      if !status.Opened? { return AlreadyConfirmed; }
      if actions == [] { return InvalidInput; }
      var action := actions[0];
      if Sendable(action) {
        remainingResends := action.maxResends;
        resendsAt := RoundSecond(now + action.minResendTime);
      }
      token := newToken;
      remainingAttempts := action.maxAttempts;
      expiresAt := RoundSecond(now + action.expiry);
      return NoError;
    }

    method ActivateResendCode(newToken: string, now: int) returns (e: Error)
      modifies this
      ensures e == ResendError(old(Value()), newToken, now)
      ensures e.NoError? ==>
                var a := old(actions)[0];
                && (a.how.Email? || a.how.Phone?) && old(remainingResends) != 0 && now >= old(resendsAt)
                && token == newToken != "" && remainingResends == old(remainingResends) - 1
                && remainingAttempts == a.maxAttempts && expiresAt == RoundSecond(now + a.expiry)
                && resendsAt == RoundSecond(now + a.minResendTime) && actions == old(actions) && status == old(status)
      ensures Value() == if e.NoError? then Resent(old(Value()), newToken, now) else old(Value())
    {
      if newToken == "" { return InvalidInput; }
      if !status.Opened? { return AlreadyConfirmed; }
      if actions == [] { return InvalidInput; }
      var action := actions[0];
      if !Sendable(action) { return ResendUnsupported; }
      if remainingResends == 0 { return NoResends; }
      if now < resendsAt { return ResendTooEarly; }
      token := newToken;
      remainingAttempts := action.maxAttempts;
      expiresAt := RoundSecond(now + action.expiry);
      remainingResends := remainingResends - 1;
      resendsAt := RoundSecond(now + action.minResendTime);
      return NoError;
    }

    method InitSendableAction(hash: string) returns (e: Error)
      modifies this
      ensures e == if !old(status).Opened? || old(actions) == [] then InvalidInput else NoError
      ensures Value() == if e.NoError? then WithCode(old(Value()), hash) else old(Value())
    {
      if !status.Opened? || actions == [] { return InvalidInput; }
      if !Sendable(actions[0]) { return NoError; }
      actions := [actions[0].(code := hash)] + actions[1..];
      return NoError;
    }

    /** A wrong code costs one attempt and nothing else, a failed check nothing at all. */
    method ConfirmAction(check: Check, now: int) returns (confirmed: bool, e: Error)
      modifies this
      ensures old(status).Opened? && old(actions) != [] && old(remainingAttempts) > 0 ==>
                match check
                case Wrong => e.CodeIncorrect? && Value() == old(Value()).(attempts := old(remainingAttempts) - 1)
                case Broken => e.CheckFailed? && Value() == old(Value())
                case Right(_) =>
                  && e.NoError? && actions == old(actions)[1..] && (status.Confirmed? <==> |old(actions)| == 1)
                  && token == old(token) && remainingAttempts == old(remainingAttempts)
      ensures old(remainingAttempts) <= 0 || !old(status).Opened? ==> !e.NoError? && Value() == old(Value())
      ensures e == ConfirmError(old(Value()), check)
      ensures confirmed <==> e.NoError? && |old(actions)| == 1
      ensures Value() == match e
                         case NoError => Passed(old(Value()), now)
                         case CodeIncorrect => old(Value()).(attempts := old(remainingAttempts) - 1)
                         case _ => old(Value())
    {
      if !status.Opened? { return false, AlreadyConfirmed; }
      if actions == [] { return false, InvalidInput; }
      if remainingAttempts <= 0 { return false, NoAttempts; }
      var action := actions[0];
      if check.Broken? { return false, CheckFailed; }
      if check.Wrong? {
        remainingAttempts := remainingAttempts - 1;
        return false, CodeIncorrect;
      }
      actions := actions[1..];
      if |actions| > 0 { return false, NoError; }
      status := Confirmed;
      expiresAt := RoundSecond(now + action.expiry);
      return true, NoError;
    }
  }

  /** The only way operations come into being: checked first, then activated. */
  method NewOperation(token: string, name: string, user: nat, actions: seq<Action>, payload: string, now: int)
    returns (e: Error, op: Op)
    ensures e.NoError? <==> token != "" && name != "" && actions != []
                            && (forall i :: 0 <= i < |actions| ==>
                              !actions[i].how.Unspecified? && (i < |actions| - 1 ==> Sendable(actions[i])))
    ensures e.NoError? ==> op == Created(token, name, user, actions, payload, now) && Invariant(op)
    ensures e.NoError? || e.InvalidInput?
    ensures e.NoError? ==>
              && op.token == token && op.name == name && op.user == user && op.actions == actions
              && op.payload == payload && op.status.Opened? && op.attempts == actions[0].maxAttempts
              && op.expiresAt == RoundSecond(now + actions[0].expiry)
  {
    var o := new SecureOperation(Op("", name, user, actions, 0, 0, 0, payload, Opened, 0));
    var ok := o.CheckInvariants();
    if !ok { return InvalidInput, o.Value(); }
    e := o.ActivateConfirmation(token, now);
    op := o.Value();
  }

  // ---------- one operation's whole life ----------

  /** What can happen to a stored operation; the check of a right code and the clock are free. */
  datatype Event =
    | RightCode(commit: Commit, freshToken: string, hash: string, at: int)
    | WrongCode
    | Resend(freshToken: string, hash: string, at: int)

  /** The counters PostgreSQL stores are checked to be non-negative. */
  predicate Storable(op: Op) {
    op.attempts >= 0 && op.resends >= 0
  }

  /** A right code confirms the operation, or activates the next action under a new token. */
  function Advanced(op: Op, freshToken: string, hash: string, now: int): Op
    requires op.actions != []
  {
    var p := Passed(op, now);
    if p.actions == [] then p else WithCode(Activated(p, freshToken, now), hash)
  }

  predicate Accepts(op: Op, e: Event) {
    match e
    case RightCode(c, t, h, at) =>
      ConfirmError(op, Right(c)).NoError? && (|op.actions| > 1 ==> t != "") && Storable(Advanced(op, t, h, at))
    case WrongCode => ConfirmError(op, Wrong).CodeIncorrect?
    case Resend(t, h, at) => ResendError(op, t, at).NoError? && Storable(Resent(op, t, at))
  }

  /** The stored operation after e; events that are refused or cannot be stored change nothing. */
  function After(op: Op, e: Event): Op {
    if !Accepts(op, e) then op
    else match e
      case RightCode(c, t, h, at) => Advanced(op, t, h, at)
      case WrongCode => op.(attempts := op.attempts - 1)
      case Resend(t, h, at) => WithCode(Resent(op, t, at), h)
  }

  function Life(op: Op, es: seq<Event>): Op {
    if es == [] then op else After(Life(op, es[..|es| - 1]), es[|es| - 1])
  }

  /** How many events of the run were accepted right codes. */
  function RightCount(op: Op, es: seq<Event>): nat {
    if es == [] then 0
    else
      var last := es[|es| - 1];
      RightCount(op, es[..|es| - 1]) + if last.RightCode? && Accepts(Life(op, es[..|es| - 1]), last) then 1 else 0
  }

  function WrongCount(op: Op, es: seq<Event>): nat {
    if es == [] then 0
    else
      var last := es[|es| - 1];
      WrongCount(op, es[..|es| - 1]) + if last.WrongCode? && Accepts(Life(op, es[..|es| - 1]), last) then 1 else 0
  }

  function SameButCode(a: Action): Action {
    a.(code := "")
  }

  /** The remaining actions are those of `chain` from position k on, up to refreshed codes. */
  ghost predicate SuffixOf(op: Op, chain: seq<Action>, k: nat) {
    && k <= |chain| && |op.actions| == |chain| - k
    && forall i :: 0 <= i < |op.actions| ==> SameButCode(op.actions[i]) == SameButCode(chain[k + i])
  }

  lemma AdvancedSuffix(op: Op, token: string, hash: string, now: int, chain: seq<Action>, k: nat)
    requires Invariant(op) && op.status.Opened? && SuffixOf(op, chain, k)
    ensures Invariant(Advanced(op, token, hash, now)) && SuffixOf(Advanced(op, token, hash, now), chain, k + 1)
  {
    var a := Advanced(op, token, hash, now);
    assert forall i :: 0 <= i < |a.actions| ==> SameButCode(a.actions[i]) == SameButCode(op.actions[i + 1]);
  }

  lemma ResentSuffix(op: Op, token: string, hash: string, now: int, chain: seq<Action>, k: nat)
    requires Invariant(op) && op.status.Opened? && SuffixOf(op, chain, k)
    ensures var a := WithCode(Resent(op, token, now), hash); Invariant(a) && SuffixOf(a, chain, k)
  {
    var a := WithCode(Resent(op, token, now), hash);
    assert forall i :: 0 <= i < |a.actions| ==> SameButCode(a.actions[i]) == SameButCode(op.actions[i]);
  }

  lemma AfterKeeps(op: Op, e: Event, chain: seq<Action>, k: nat)
    requires Invariant(op) && Storable(op) && SuffixOf(op, chain, k)
    ensures Invariant(After(op, e)) && Storable(After(op, e))
    ensures SuffixOf(After(op, e), chain, if e.RightCode? && Accepts(op, e) then k + 1 else k)
    ensures After(op, e).name == op.name && After(op, e).user == op.user && After(op, e).payload == op.payload
  {
    if Accepts(op, e) {
      match e
      case RightCode(c, t, h, at) => AdvancedSuffix(op, t, h, at, chain, k);
      case Resend(t, h, at) => ResentSuffix(op, t, h, at, chain, k);
      case WrongCode =>
    }
    hide Invariant, SuffixOf;
  }

  /** Across any run the remaining actions are a suffix of the original chain, one shorter per
      right code, and the operation is confirmed exactly when every action was passed, in order. */
  lemma {:induction false} LifeKeeps(op: Op, es: seq<Event>)
    requires Invariant(op) && Storable(op) && op.status.Opened?
    ensures Invariant(Life(op, es)) && Storable(Life(op, es))
    ensures SuffixOf(Life(op, es), op.actions, RightCount(op, es))
    ensures Life(op, es).status.Confirmed? <==> RightCount(op, es) == |op.actions|
    ensures Life(op, es).name == op.name && Life(op, es).user == op.user && Life(op, es).payload == op.payload
  {
    if es != [] {
      var before, e := es[..|es| - 1], es[|es| - 1];
      LifeKeeps(op, before);
      hide After, Invariant, Storable, SuffixOf;
      AfterKeeps(Life(op, before), e, op.actions, RightCount(op, before));
    }
  }

  // ---------- how many wrong codes an operation can absorb ----------

  function Pos(x: int): nat {
    if x < 0 then 0 else x
  }

  /** Wrong codes one action can take in all, resends included. */
  function Cap(a: Action): nat {
    if Sendable(a) then Pos(a.maxAttempts) * (1 + Pos(a.maxResends)) else Pos(a.maxAttempts)
  }

  function CapSum(actions: seq<Action>): nat {
    if actions == [] then 0 else Cap(actions[0]) + CapSum(actions[1..])
  }

  /** Wrong codes the operation can still take. */
  function Budget(op: Op): nat {
    if op.actions == [] then 0
    else
      var a := op.actions[0];
      Pos(op.attempts) + (if Sendable(a) then Pos(op.resends) * Pos(a.maxAttempts) else 0) + CapSum(op.actions[1..])
  }

  /** Opened, with the counters of its first action untouched. */
  predicate NewlyMade(op: Op) {
    && op.status.Opened? && op.actions != [] && op.attempts == op.actions[0].maxAttempts
    && (Sendable(op.actions[0]) ==> op.resends == op.actions[0].maxResends)
  }

  lemma CreatedIsNew(token: string, name: string, user: nat, actions: seq<Action>, payload: string, now: int,
      hash: string)
    requires actions != []
    ensures NewlyMade(Created(token, name, user, actions, payload, now))
    ensures NewlyMade(WithCode(Created(token, name, user, actions, payload, now), hash))
  {
  }

  lemma CapOfFresh(op: Op)
    requires NewlyMade(op)
    ensures Budget(op) == CapSum(op.actions)
  {
    var m, r := Pos(op.actions[0].maxAttempts), Pos(op.actions[0].maxResends);
    assert m * (1 + r) == m + r * m;
  }

  /** No event raises the budget, and every wrong code that is counted lowers it. */
  lemma AfterBudget(op: Op, e: Event)
    requires Storable(op)
    ensures Budget(After(op, e)) <= Budget(op) - (if e.WrongCode? && Accepts(op, e) then 1 else 0)
  {
    if Accepts(op, e) {
      match e
      case RightCode(c, t, h, at) =>
        if |op.actions| > 1 {
          var p := Passed(op, at);
          CapOfFresh(Activated(p, t, at));
          assert CapSum(op.actions[1..]) == CapSum(p.actions);
          CodeKeepsBudget(Activated(p, t, at), h);
        }
      case WrongCode =>
      case Resend(t, h, at) =>
        var m := Pos(op.actions[0].maxAttempts);
        assert op.resends * m == (op.resends - 1) * m + m;
        CodeKeepsBudget(Resent(op, t, at), h);
    }
  }

  lemma CodeKeepsBudget(op: Op, hash: string)
    requires op.actions != []
    ensures Budget(WithCode(op, hash)) == Budget(op)
  {
    assert WithCode(op, hash).actions[1..] == op.actions[1..];
  }

  lemma {:induction false} LifeBudget(op: Op, es: seq<Event>)
    requires Invariant(op) && Storable(op) && op.status.Opened?
    ensures Budget(Life(op, es)) + WrongCount(op, es) <= Budget(op)
  {
    if es != [] {
      LifeBudget(op, es[..|es| - 1]);
      LifeKeeps(op, es[..|es| - 1]);
      AfterBudget(Life(op, es[..|es| - 1]), es[|es| - 1]);
    }
  }

  /** A created operation absorbs at most the sum over its actions of MaxAttempts * (1 + MaxResends),
      MaxAttempts alone for the second factor, whatever the order of codes and resends. */
  lemma WrongCodesBounded(token: string, name: string, user: nat, actions: seq<Action>, payload: string, now: int,
      es: seq<Event>)
    requires actions != []
    requires var op := Created(token, name, user, actions, payload, now); Invariant(op) && Storable(op)
    ensures WrongCount(Created(token, name, user, actions, payload, now), es) <= CapSum(actions)
  {
    var op := Created(token, name, user, actions, payload, now);
    LifeBudget(op, es);
    CapOfFresh(op);
  }
}
