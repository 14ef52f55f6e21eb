/** The second factor: its row, the verifier that reads it, and the conditional updates that spend a code.
    mrauth/service/auth2fa/verifier.go, mrauth/repository/auth_2fa_postgres.go */
module SecondFactor {
  import opened SecureOperations

  datatype Option<T> = None | Some(value: T)

  datatype Kind = PasswordKind | TotpKind

  datatype Factor = Factor(kind: Kind, secret: string, lastStep: int, codes: seq<string>)

  datatype Answer = Yes | No | Failure

  datatype StepAnswer = Step(step: int) | NoStep | StepFailure

  /** bcrypt and TOTP as they answer during one call: any functions at all. */
  datatype Oracle = Oracle(compare: (string, string) -> Answer, totp: (string, string) -> StepAnswer)

  datatype Limits = Limits(minLength: nat, maxLength: nat)

  /** NewVerifier puts unusable limits right. */
  function Normalized(minLength: int, maxLength: int): (l: Limits)
    ensures 1 <= l.minLength <= l.maxLength
    ensures 1 <= minLength <= maxLength ==> l == Limits(minLength, maxLength)
  {
    var lo := if minLength < 1 then 8 else minLength;
    var hi := if maxLength < 1 then 32 else maxLength;
    Limits(lo, if lo > hi then lo else hi)
  }

  // ---------- checking a code ----------

  /** The first stored hash that does not answer No. */
  function FirstMatch(o: Oracle, codes: seq<string>, code: string): (k: nat)
    ensures k <= |codes|
    ensures forall i :: 0 <= i < k ==> o.compare(code, codes[i]).No?
    ensures k < |codes| ==> !o.compare(code, codes[k]).No?
  {
    if codes == [] || !o.compare(code, codes[0]).No? then 0 else 1 + FirstMatch(o, codes[1..], code)
  }

  function Recovery(o: Oracle, codes: seq<string>, code: string): Check {
    var k := FirstMatch(o, codes, code);
    if k == |codes| then Wrong
    else if o.compare(code, codes[k]).Failure? then Broken
    else Right(RecoveryCommit(codes[k]))
  }

  function RecoveryIfLong(o: Oracle, l: Limits, codes: seq<string>, code: string): Check {
    if l.minLength <= |code| <= l.maxLength then Recovery(o, codes, code) else Wrong
  }

  function CheckFactor(o: Oracle, l: Limits, row: Option<Factor>, how: Method, code: string): Check {
    if row.None? then Broken
    else
      var f := row.value;
      match how
      case Password =>
        if !f.kind.PasswordKind? then Wrong
        else (match o.compare(code, f.secret)
              case Failure => Broken
              case Yes => Right(NoCommit)
              case No => RecoveryIfLong(o, l, f.codes, code))
      case TOTP =>
        if !f.kind.TotpKind? then Wrong
        else (match o.totp(code, f.secret)
              case StepFailure => Broken
              case Step(n) => if n <= f.lastStep then Wrong else Right(StepCommit(n))
              case NoStep => RecoveryIfLong(o, l, f.codes, code))
      case _ => Wrong
  }

  /** The check of the current action of an operation: the stored code, or the second factor. */
  function CheckAction(o: Oracle, l: Limits, row: Option<Factor>, a: Action, code: string): Check {
    match a.how
    case Email => FromAnswer(o.compare(code, a.code))
    case Phone => FromAnswer(o.compare(code, a.code))
    case TOTP => CheckFactor(o, l, row, a.how, code)
    case Password => CheckFactor(o, l, row, a.how, code)
    case Unspecified => Broken
  }

  function FromAnswer(r: Answer): Check {
    match r
    case Yes => Right(NoCommit)
    case No => Wrong
    case Failure => Broken
  }

  /** A right code owes an update only if the snapshot allows it: a newer step, a code still there. */
  lemma OwedBySnapshot(o: Oracle, l: Limits, row: Option<Factor>, a: Action, code: string)
    ensures var c := CheckAction(o, l, row, a, code);
            && (c.Right? && !c.commit.NoCommit? ==> !Sendable(a) && row.Some?)
            && (c.Right? && c.commit.StepCommit? ==> row.value.kind.TotpKind? && c.commit.step > row.value.lastStep)
            && (c.Right? && c.commit.RecoveryCommit? ==>
              c.commit.hash in row.value.codes && o.compare(code, c.commit.hash).Yes?)
  {
  }

  // ---------- the row ----------

  /** array_remove: every copy goes. */
  function Without(codes: seq<string>, hash: string): (r: seq<string>)
    ensures hash !in r
    ensures forall h :: h in r <==> h in codes && h != hash
    ensures |r| <= |codes| && (hash in codes ==> |r| < |codes|)
  {
    if codes == [] then []
    else if codes[0] == hash then Without(codes[1..], hash)
    else [codes[0]] + Without(codes[1..], hash)
  }

  /** What a commit does to the row, or None when its condition no longer holds. */
  function Spend(row: Option<Factor>, c: Commit): Option<Factor> {
    match c
    case NoCommit => row
    case StepCommit(n) =>
      if row.Some? && row.value.lastStep < n then Some(row.value.(lastStep := n)) else None
    case RecoveryCommit(h) =>
      if row.Some? && h in row.value.codes then Some(row.value.(codes := Without(row.value.codes, h))) else None
  }

  predicate CanSpend(row: Option<Factor>, c: Commit) {
    c.NoCommit? || Spend(row, c).Some?
  }

  datatype Committed = Spent | UsedUp | AlertFailed

  class FactorTable {
    var rows: map<nat, Factor>

    constructor ()
      ensures rows == map[]
    {
      rows := map[];
    }

    function Row(user: nat): Option<Factor>
      reads this
    {
      if user in rows then Some(rows[user]) else None
    }

    /** Fails on a second factor that is already there. */
    method Insert(user: nat, f: Factor) returns (ok: bool)
      modifies this
      ensures ok <==> user !in old(rows)
      ensures rows == if ok then old(rows)[user := f] else old(rows)
    {
      if user in rows { return false; }
      rows := rows[user := f];
      return true;
    }

    method UpdateTOTPStep(user: nat, step: int) returns (ok: bool)
      modifies this
      ensures ok <==> CanSpend(old(Row(user)), StepCommit(step))
      ensures ok <==> user in old(rows) && old(rows)[user].lastStep < step
      ensures ok ==> rows == old(rows)[user := old(rows)[user].(lastStep := step)]
      ensures rows == if ok then old(rows)[user := Spend(old(Row(user)), StepCommit(step)).value] else old(rows)
    {
      if user !in rows || rows[user].lastStep >= step { return false; }
      rows := rows[user := rows[user].(lastStep := step)];
      return true;
    }

    method UpdateRecoveryCode(user: nat, hash: string) returns (ok: bool, remaining: nat)
      modifies this
      ensures ok <==> CanSpend(old(Row(user)), RecoveryCommit(hash))
      ensures ok <==> user in old(rows) && hash in old(rows)[user].codes
      ensures ok ==>
                && user in rows && rows == old(rows)[user := old(rows)[user].(codes := rows[user].codes)]
                && forall h :: h in rows[user].codes <==> h in old(rows)[user].codes && h != hash
      ensures rows == if ok then old(rows)[user := Spend(old(Row(user)), RecoveryCommit(hash)).value] else old(rows)
      ensures ok ==> remaining == |rows[user].codes| < |old(rows)[user].codes|
    {
      if user !in rows || hash !in rows[user].codes { return false, 0; }
      var left := Without(rows[user].codes, hash);
      rows := rows[user := rows[user].(codes := left)];
      return true, |left|;
    }

    method UpdateRecoveryCodes(user: nat, codes: seq<string>) returns (ok: bool)
      modifies this
      ensures ok <==> user in old(rows)
      ensures rows == if ok then old(rows)[user := old(rows)[user].(codes := codes)] else old(rows)
    {
      if user !in rows { return false; }
      rows := rows[user := rows[user].(codes := codes)];
      return true;
    }

    method Delete(user: nat) returns (ok: bool)
      modifies this
      ensures ok <==> user in old(rows)
      ensures rows == old(rows) - {user}
    {
      ok := user in rows;
      rows := rows - {user};
    }

    // ---------- the verifier ----------

    method TryRecovery(o: Oracle, codes: seq<string>, code: string) returns (c: Check)
      ensures c == Recovery(o, codes, code)
    {
      for i := 0 to |codes|
        invariant forall j :: 0 <= j < i ==> o.compare(code, codes[j]).No?
      {
        var r := o.compare(code, codes[i]);
        if r.Failure? { return Broken; }
        if r.No? { continue; }
        return Right(RecoveryCommit(codes[i]));
      }
      return Wrong;
    }

    method Verify(o: Oracle, l: Limits, user: nat, how: Method, code: string) returns (c: Check)
      ensures c == CheckFactor(o, l, Row(user), how, code)
    {
      if user !in rows { return Broken; }
      var row := rows[user];
      if how.Password? {
        if !row.kind.PasswordKind? { return Wrong; }
        var r := o.compare(code, row.secret);
        if r.Failure? { return Broken; }
        if r.Yes? { return Right(NoCommit); }
      } else if how.TOTP? {
        if !row.kind.TotpKind? { return Wrong; }
        var r := o.totp(code, row.secret);
        if r.StepFailure? { return Broken; }
        if r.Step? {
          if r.step <= row.lastStep { return Wrong; }
          return Right(StepCommit(r.step));
        }
      } else {
        return Wrong;
      }
      if !(l.minLength <= |code| <= l.maxLength) { return Wrong; }
      c := TryRecovery(o, row.codes, code);
    }

    /** The closure Verify hands back, run inside the confirming transaction. A spent recovery code is
        reported too, and a report that fails makes the caller roll back. */
    method RunCommit(user: nat, c: Commit, alerted: bool) returns (r: Committed)
      modifies this
      ensures r == if !CanSpend(old(Row(user)), c) then UsedUp
                   else if c.RecoveryCommit? && !alerted then AlertFailed
                   else Spent
      ensures rows == if !r.UsedUp? && !c.NoCommit? then old(rows)[user := Spend(old(Row(user)), c).value]
              else old(rows)
    {
      var ok;
      match c {
        case NoCommit => ok := true;
        case StepCommit(n) => ok := UpdateTOTPStep(user, n);
        case RecoveryCommit(h) =>
          var left;
          ok, left := UpdateRecoveryCode(user, h);
          if ok && !alerted { return AlertFailed; }
      }
      return if ok then Spent else UsedUp;
    }
  }
}
