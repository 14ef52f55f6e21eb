/** Whole runs of mover calls: the order they produce, and how the indices behind it behave. */
module OrderingRuns {
  import opened Ordering
  import opened NodeMoving

  // ---------- the order alone ----------

  function Ids(s: Chain): seq<nat> {
    seq(|s|, i requires 0 <= i < |s| => s[i].id)
  }

  function Drop(ids: seq<nat>, id: nat): seq<nat> {
    if ids == [] then []
    else (if ids[0] == id then [] else [ids[0]]) + Drop(ids[1..], id)
  }

  function Behind(ids: seq<nat>, after: nat, id: nat): seq<nat> {
    if ids == [] then []
    else if ids[0] == after then [after, id] + ids[1..]
    else [ids[0]] + Behind(ids[1..], after, id)
  }

  /** What each call does to the order of the ids, with no indices and no links. */
  function Reorder(ids: seq<nat>, op: Op): seq<nat> {
    match op
    case InsertFirst(id) => if ids == [] then [] else [id] + Drop(ids, id)
    case MoveFirst(id) => if ids == [] then [] else [id] + Drop(ids, id)
    case InsertLast(id) => if ids == [] then [] else Drop(ids, id) + [id]
    case MoveLast(id) => Drop(ids, id) + [id]
    case MoveAfter(id, after) =>
      if after == 0 then (if ids == [] then [] else [id] + Drop(ids, id))
      else if id == after || after !in ids then ids
      else Behind(Drop(ids, id), after, id)
    case Detach(id) => Drop(ids, id)
  }

  ghost predicate Distinct(ids: seq<nat>) {
    forall i, j :: 0 <= i < j < |ids| ==> ids[i] != ids[j]
  }

  lemma {:induction false} DropNone(ids: seq<nat>, id: nat)
    requires id !in ids
    ensures Drop(ids, id) == ids
  {
    if ids != [] { DropNone(ids[1..], id); }
  }

  lemma {:induction false} DropAt(ids: seq<nat>, k: nat)
    requires Distinct(ids) && k < |ids|
    ensures Drop(ids, ids[k]) == ids[..k] + ids[k + 1..]
  {
    if k == 0 {
      DropNone(ids[1..], ids[0]);
    } else {
      assert ids[1..][k - 1] == ids[k];
      DropAt(ids[1..], k - 1);
    }
  }

  lemma {:induction false} BehindAt(ids: seq<nat>, k: nat, id: nat)
    requires Distinct(ids) && k < |ids|
    ensures Behind(ids, ids[k], id) == ids[..k + 1] + [id] + ids[k + 1..]
  {
    if k > 0 {
      assert ids[1..][k - 1] == ids[k];
      BehindAt(ids[1..], k - 1, id);
    }
  }

  lemma IdsLinked(s: Chain, id: nat)
    requires Ordered(s)
    ensures Distinct(Ids(s)) && (Linked(s, id) <==> id in Ids(s))
  {
    if Linked(s, id) { assert Ids(s)[PosOf(s, id)] == id; }
  }

  lemma IdsRemoved(s: Chain, k: nat)
    requires k < |s|
    ensures Ids(RemoveAt(s, k)) == Ids(s)[..k] + Ids(s)[k + 1..] && |Ids(s)| == |s| && Ids(s)[k] == s[k].id
  {
  }

  lemma IdsWithout(s: Chain, id: nat)
    requires Ordered(s)
    ensures Ids(Without(s, id)) == Drop(Ids(s), id) && Distinct(Ids(s))
    ensures Linked(s, id) <==> id in Ids(s)
  {
    hide Ordered, Linked, Ids, RemoveAt, Distinct;
    IdsLinked(s, id);
    if Linked(s, id) {
      IdsRemoved(s, PosOf(s, id));
      DropAt(Ids(s), PosOf(s, id));
    } else {
      DropNone(Ids(s), id);
    }
  }

  lemma IdsPlace(t: Chain, k: nat, id: nat)
    requires k <= |t|
    ensures Ids(Place(t, k, id)) == Ids(t)[..k] + [id] + Ids(t)[k..]
  {
  }

  /** Indices and renumbering never show: every call edits the order as Reorder says. */
  lemma ApplyReorders(s: Chain, op: Op)
    requires Ordered(s) && op.id != 0
    ensures Ids(Apply(s, op)) == Reorder(Ids(s), op)
  {
    hide Ordered, Place, Without, Drop, Behind, Linked;
    var id, t := op.id, Without(s, op.id);
    IdsWithout(s, id);
    IdsPlace(t, 0, id);
    IdsPlace(t, |t|, id);
    EndsStay(s, id);
    if op.MoveAfter? && op.after != 0 && op.after != id {
      IdsWithout(s, op.after);
      if Linked(s, op.after) { AfterReorders(s, id, op.after); }
    }
  }

  lemma EndsStay(s: Chain, id: nat)
    requires Ordered(s)
    ensures s != [] && s[0].id == id ==> [id] + Drop(Ids(s), id) == Ids(s)
    ensures s != [] && s[|s| - 1].id == id ==> Drop(Ids(s), id) + [id] == Ids(s)
  {
    IdsWithout(s, id);
    if s != [] && s[0].id == id { DropAt(Ids(s), 0); }
    if s != [] && s[|s| - 1].id == id { DropAt(Ids(s), |s| - 1); }
  }

  lemma AfterReorders(s: Chain, id: nat, after: nat)
    requires Ordered(s) && Linked(s, after) && after != id && id != 0 && after != 0
    ensures Ids(Apply(s, MoveAfter(id, after))) == Behind(Drop(Ids(s), id), after, id)
  {
    var t := Without(s, id);
    IdsWithout(s, id);
    Removed(s, id);
    IdsWithout(t, after);
    WithoutKeeps(s, id, after);
    var k := PosOf(t, after);
    BehindAt(Ids(t), k, id);
    IdsPlace(t, k + 1, id);
    if Follows(s, id, after) { AlreadyBehind(s, id, after); }
  }

  lemma SplitAgain(ids: seq<nat>, k: nat)
    requires k < |ids|
    ensures var rest := ids[..k] + ids[k + 1..]; ids == rest[..k] + [ids[k]] + rest[k..]
  {
  }

  lemma AlreadyBehind(s: Chain, id: nat, after: nat)
    requires Ordered(s) && Follows(s, id, after)
    ensures Linked(Without(s, id), after)
    ensures var t := Without(s, id); var k := PosOf(t, after); Ids(s) == Ids(t)[..k + 1] + [id] + Ids(t)[k + 1..]
  {
    var i :| 0 <= i < |s| - 1 && s[i].id == after && s[i + 1].id == id;
    Removed(s, id);
    PosUnique(s, i + 1);
    RemovedAt(s, i + 1);
    PosUnique(RemoveAt(s, i + 1), i);
    IdsRemoved(s, i + 1);
    hide Ids, Ordered, RemoveAt, Linked;
    SplitAgain(Ids(s), i + 1);
  }

  lemma {:induction false} DropParts(a: seq<nat>, b: seq<nat>, id: nat)
    ensures Drop(a + b, id) == Drop(a, id) + Drop(b, id)
  {
    if a == [] {
      assert a + b == b;
    } else {
      assert (a + b)[1..] == a[1..] + b;
      DropParts(a[1..], b, id);
    }
  }

  lemma {:induction false} DropTwice(ids: seq<nat>, id: nat)
    ensures id !in Drop(ids, id) && Drop(Drop(ids, id), id) == Drop(ids, id)
    ensures forall x :: x in Drop(ids, id) <==> x in ids && x != id
  {
    if ids != [] {
      DropTwice(ids[1..], id);
      assert ids == [ids[0]] + ids[1..];
      DropNone(Drop(ids, id), id);
    }
  }

  lemma {:induction false} BehindSplits(ids: seq<nat>, after: nat, id: nat) returns (k: nat)
    requires after in ids
    ensures k < |ids| && ids[k] == after && Behind(ids, after, id) == ids[..k + 1] + [id] + ids[k + 1..]
  {
    if ids[0] == after {
      k := 0;
    } else {
      k := BehindSplits(ids[1..], after, id);
      k := k + 1;
    }
  }

  lemma DropInserted(front: seq<nat>, back: seq<nat>, id: nat)
    requires id !in front && id !in back
    ensures Drop(front + [id] + back, id) == front + back
  {
    DropParts(front + [id], back, id);
    DropParts(front, [id], id);
    DropNone(front, id);
    DropNone(back, id);
    assert Drop([id], id) == [];
    hide Drop;
    assert front + [] == front;
  }

  lemma InsertedBehind(ids: seq<nat>, k: nat, id: nat)
    requires k < |ids|
    ensures var r := ids[..k + 1] + [id] + ids[k + 1..]; k < |r| - 1 && r[k] == ids[k] && r[k + 1] == id
    ensures ids[..k + 1] + ids[k + 1..] == ids
  {
  }

  lemma BehindPlaces(ids: seq<nat>, after: nat, id: nat)
    requires after in ids && id !in ids
    ensures Drop(Behind(ids, after, id), id) == ids
    ensures var r := Behind(ids, after, id); exists i :: 0 <= i < |r| - 1 && r[i] == after && r[i + 1] == id
  {
    hide Drop, Behind;
    var k := BehindSplits(ids, after, id);
    InsertedBehind(ids, k, id);
    DropInserted(ids[..k + 1], ids[k + 1..], id);
  }

  /** What the edits come to: the element stands where it was sent, and all others are in the order they
      were in; a call on an empty list, behind itself or behind a stranger changes nothing. */
  lemma ReorderPlaces(ids: seq<nat>, op: Op)
    ensures var r := Reorder(ids, op);
            && (Drop(r, op.id) == Drop(ids, op.id))
            && (op.Detach? ==> op.id !in r)
            && (op.InsertFirst? || op.MoveFirst? || (op.MoveAfter? && op.after == 0) ==>
                  if ids == [] then r == [] else r != [] && r[0] == op.id)
            && (op.InsertLast? ==> if ids == [] then r == [] else r != [] && r[|r| - 1] == op.id)
            && (op.MoveLast? ==> r != [] && r[|r| - 1] == op.id)
            && (op.MoveAfter? && op.after != 0 ==>
                  if op.id == op.after || op.after !in ids then r == ids
                  else exists i :: 0 <= i < |r| - 1 && r[i] == op.after && r[i + 1] == op.id)
  {
    var id, rest := op.id, Drop(ids, op.id);
    DropTwice(ids, id);
    DropParts([id], rest, id);
    DropParts(rest, [id], id);
    assert Drop([id], id) == [] && [] + rest == rest && rest + [] == rest;
    if op.MoveAfter? && op.after in rest { BehindPlaces(rest, op.after, id); }
    hide Drop, Behind;
  }

  // ---------- growth of the indices ----------

  function Top(s: Chain): nat {
    if s == [] then 0 else s[|s| - 1].index
  }

  lemma TopOfPlace(t: Chain, k: nat, id: nat)
    requires Ordered(t) && k <= |t|
    ensures Top(Place(t, k, id)) <= Top(t) + 2 * STEP
  {
    InsertedAt(Widened(t, k), k, Entry(id, NewIndex(t, k)));
    assert t != [] ==> Below(t, k) <= Top(t) && (k < |t| ==> t[k].index <= Top(t));
    hide InsertAt, Ordered;
  }

  lemma TopOfRest(s: Chain, id: nat)
    requires Ordered(s)
    ensures Ordered(Without(s, id)) && Top(Without(s, id)) <= Top(s)
  {
    Removed(s, id);
    hide Without, Linked;
  }

  /** One call raises the largest index by at most two steps. */
  lemma TopOfApply(s: Chain, op: Op)
    requires Ordered(s) && op.id != 0
    ensures Top(Apply(s, op)) <= Top(s) + 2 * STEP
  {
    hide Place, Without, Ordered;
    var t := Without(s, op.id);
    TopOfRest(s, op.id);
    hide Top;
    TopOfPlace(t, 0, op.id);
    TopOfPlace(t, |t|, op.id);
    if op.MoveAfter? && op.after != op.id && Linked(s, op.after) {
      WithoutKeeps(s, op.id, op.after);
      TopOfPlace(t, PosOf(t, op.after) + 1, op.id);
    }
  }

  ghost function Run(s: Chain, ops: seq<Op>): Chain {
    if ops == [] then s else Apply(Run(s, ops[..|ops| - 1]), ops[|ops| - 1])
  }

  ghost predicate ValidOps(ops: seq<Op>) {
    forall i :: 0 <= i < |ops| ==> ops[i].id != 0
  }

  /** After k calls from an empty list no index exceeds k * 2^21. */
  lemma {:induction false} RunBound(ops: seq<Op>)
    requires ValidOps(ops)
    ensures Ordered(Run([], ops)) && Top(Run([], ops)) <= |ops| * (2 * STEP)
  {
    hide Apply;
    if ops != [] {
      var before, op := ops[..|ops| - 1], ops[|ops| - 1];
      assert forall i :: 0 <= i < |before| ==> before[i] == ops[i];
      RunBound(before);
      ApplyOrdered(Run([], before), op);
      TopOfApply(Run([], before), op);
    }
  }

  lemma FitsBelow(s: Chain, id: nat, k: nat)
    requires Ordered(s) && k <= |Without(s, id)| && Top(s) + 2 * STEP <= MAX_INDEX
    ensures MoveFits(s, id, k)
  {
    Removed(s, id);
    assert forall i :: 0 <= i < |s| ==> s[i].index <= Top(s);
  }

  /** The column's range is not reached in the first 2^42 - 1 calls. */
  lemma NoOverflow(rows: Table, ops: seq<Op>, op: Op)
    requires ValidOps(ops) && |ops| < 0x400_0000_0000 - 1
    requires Mirrors(rows, Run([], ops))
    ensures !Outcome(rows, Run([], ops), op).Overflow?
  {
    hide Outcome, Mirrors, Run;
    RunBound(ops);
    NoOverflowBelow(rows, Run([], ops), op);
  }

  lemma NoOverflowBelow(rows: Table, s: Chain, op: Op)
    requires Ordered(s) && Top(s) + 2 * STEP <= MAX_INDEX
    ensures !Outcome(rows, s, op).Overflow?
  {
    hide Ordered, MoveFits, Without, Linked;
    var id := op.id;
    FitsBelow(s, id, 0);
    FitsBelow(s, id, |Without(s, id)|);
    if op.MoveAfter? && op.after != id && Linked(s, op.after) {
      WithoutKeeps(s, id, op.after);
      FitsBelow(s, id, PosOf(Without(s, id), op.after) + 1);
    }
  }

  // ---------- whole runs of calls ----------

  /** What is stored between two calls: the rows, and the list they store. */
  datatype Moment = Moment(rows: Table, list: Chain)

  /** A call as the mover's contracts describe it. */
  ghost predicate Called(a: Moment, op: Op, r: Result, b: Moment) {
    r == Outcome(a.rows, a.list, op) && Done(a.rows, a.list, op, r, b.rows, b.list)
  }

  /** What is left to the caller: sound calls, and insertions of rows that exist. */
  ghost predicate Careful(a: Moment, op: Op) {
    Sound(a.list, op) && (op.InsertFirst? || op.InsertLast? ==> op.id in a.rows)
  }

  ghost predicate CarefulRun(ms: seq<Moment>, ops: seq<Op>, rs: seq<Result>) {
    && |ms| == |ops| + 1 && |rs| == |ops|
    && forall i :: 0 <= i < |ops| ==> Called(ms[i], ops[i], rs[i], ms[i + 1]) && Careful(ms[i], ops[i])
  }

  /** The calls that succeeded. */
  function Succeeded(ops: seq<Op>, rs: seq<Result>): (done: seq<Op>)
    requires |ops| == |rs|
    ensures |done| <= |ops|
  {
    if ops == [] then []
    else
      var n := |ops| - 1;
      Succeeded(ops[..n], rs[..n]) + if rs[n].Ok? then [ops[n]] else []
  }

  function Reordered(ops: seq<Op>): seq<nat> {
    if ops == [] then [] else Reorder(Reordered(ops[..|ops| - 1]), ops[|ops| - 1])
  }

  lemma {:induction false} RunReorders(ops: seq<Op>)
    requires ValidOps(ops)
    ensures Ids(Run([], ops)) == Reordered(ops)
  {
    hide Apply, Reorder;
    if ops != [] {
      var before, op := ops[..|ops| - 1], ops[|ops| - 1];
      assert ValidOps(before) by { assert forall i :: 0 <= i < |before| ==> before[i] == ops[i]; }
      RunReorders(before);
      RunBound(before);
      ApplyReorders(Run([], before), op);
    }
  }

  lemma CallKeeps(a: Moment, op: Op, r: Result, b: Moment)
    requires Mirrors(a.rows, a.list) && Called(a, op, r, b) && Careful(a, op) && !r.Overflow?
    ensures Mirrors(b.rows, b.list) && b.list == (if r.Ok? then Apply(a.list, op) else a.list)
    ensures r.Ok? ==> op.id != 0
  {
    hide Mirrors, Apply, MoveFits, FitsAfter, WellFormed, Linked;
  }

  lemma RunMore(done: seq<Op>, op: Op)
    requires ValidOps(done) && op.id != 0
    ensures ValidOps(done + [op]) && Run([], done + [op]) == Apply(Run([], done), op)
  {
    hide Apply;
    assert (done + [op])[..|done|] == done;
  }

  /** After any run of careful calls on rows that stored no list, the rows store one: the list of the
      calls that succeeded, its ids in the order plain edits give. No call meets the column's range. */
  lemma {:induction false} CarefulRunKeeps(ms: seq<Moment>, ops: seq<Op>, rs: seq<Result>)
    requires CarefulRun(ms, ops, rs) && ms[0].list == [] && Mirrors(ms[0].rows, [])
    requires |ops| < 0x400_0000_0000
    ensures var n := |ops|;
            && Mirrors(ms[n].rows, ms[n].list) && ValidOps(Succeeded(ops, rs))
            && ms[n].list == Run([], Succeeded(ops, rs)) && Ids(ms[n].list) == Reordered(Succeeded(ops, rs))
    ensures forall i :: 0 <= i < |rs| ==> !rs[i].Overflow?
    decreases |ops|
  {
    if ops != [] {
      hide Mirrors, Run, Reordered, Called, Careful, ValidOps, CarefulRun, Succeeded, Ids;
      var n := |ops| - 1;
      RunBefore(ms, ops, rs);
      LastSucceeded(ops, rs);
      var done := Succeeded(ops[..n], rs[..n]);
      CarefulRunKeeps(ms[..n + 1], ops[..n], rs[..n]);
      LastCall(ms[n], ops[n], rs[n], ms[n + 1], done);
      forall i | 0 <= i < |rs|
        ensures !rs[i].Overflow?
      {
        if i < n { assert rs[..n][i] == rs[i]; }
      }
    } else {
      assert Run([], []) == [] && Reordered([]) == [] && Ids([]) == [];
    }
  }

  lemma LastSucceeded(ops: seq<Op>, rs: seq<Result>)
    requires |ops| == |rs| && ops != []
    ensures var n := |ops| - 1;
            Succeeded(ops, rs) == Succeeded(ops[..n], rs[..n]) + if rs[n].Ok? then [ops[n]] else []
  {
  }

  lemma RunBefore(ms: seq<Moment>, ops: seq<Op>, rs: seq<Result>)
    requires CarefulRun(ms, ops, rs) && ops != []
    ensures var n := |ops| - 1;
            && CarefulRun(ms[..n + 1], ops[..n], rs[..n]) && ms[..n + 1][0] == ms[0] && ms[..n + 1][n] == ms[n]
            && |ms| == n + 2 && |rs| == n + 1
            && Called(ms[n], ops[n], rs[n], ms[n + 1]) && Careful(ms[n], ops[n])
  {
    hide Called, Careful;
  }

  lemma LastCall(a: Moment, op: Op, r: Result, b: Moment, done: seq<Op>)
    requires ValidOps(done) && |done| < 0x400_0000_0000 - 1 && a.list == Run([], done) && Mirrors(a.rows, a.list)
    requires Called(a, op, r, b) && Careful(a, op) && Ids(a.list) == Reordered(done)
    ensures !r.Overflow? && Mirrors(b.rows, b.list)
    ensures var all := done + if r.Ok? then [op] else [];
            ValidOps(all) && b.list == Run([], all) && Ids(b.list) == Reordered(all)
  {
    NoOverflow(a.rows, done, op);
    assert r == Outcome(a.rows, a.list, op);
    hide Mirrors, Run, Reordered, Careful, Called, Outcome;
    CallKeeps(a, op, r, b);
    if r.Ok? {
      RunMore(done, op);
      RunReorders(done + [op]);
    } else {
      assert done + [] == done;
    }
  }

  // ---------- calls that leave no list ----------

  function TwoRows(): Table {
    map[1 := Node(0, 2, STEP), 2 := Node(1, 0, 2 * STEP)]
  }

  /** Inserting the last of two elements in front succeeds, and the rows it leaves store no list. */
  lemma InsertingLinked(b: Moment)
    ensures var a := Moment(TwoRows(), [Entry(1, STEP), Entry(2, 2 * STEP)]);
            && Mirrors(a.rows, a.list) && Outcome(a.rows, a.list, InsertFirst(2)).Ok?
            && (Called(a, InsertFirst(2), Ok, b) ==> !WellFormed(b.rows))
    ensures !WellFormed(map[1 := Node(2, 2, STEP), 2 := Node(0, 1, STEP / 2)])
  {
    var s := [Entry(1, STEP), Entry(2, 2 * STEP)];
    TwoStored();
    assert Linked(s, 2) by { assert s[1].id == 2; }
    PosUnique(s, 1);
    OneWayLink(map[1 := Node(2, 2, STEP), 2 := Node(0, 1, STEP / 2)], 1, 2);
  }

  lemma TwoStored()
    ensures Mirrors(TwoRows(), [Entry(1, STEP), Entry(2, 2 * STEP)])
  {
    var s := [Entry(1, STEP), Entry(2, 2 * STEP)];
    assert Stored(TwoRows(), s, 0) && Stored(TwoRows(), s, 1);
    assert s[0].id == 1 && s[1].id == 2;
  }

  /** Moving the only element behind a row that is not linked succeeds, and leaves no list either. */
  lemma MovingBehindUnlinked(b: Moment)
    ensures var a := Moment(map[1 := Node(0, 0, STEP), 2 := UNLINKED], [Entry(1, STEP)]);
            && Mirrors(a.rows, a.list) && Outcome(a.rows, a.list, MoveAfter(1, 2)).Ok?
            && (Called(a, MoveAfter(1, 2), Ok, b) ==> !WellFormed(b.rows))
    ensures !WellFormed(map[1 := Node(2, 0, STEP), 2 := Node(0, 1, 0)])
  {
    var rows, s := map[1 := Node(0, 0, STEP), 2 := UNLINKED], [Entry(1, STEP)];
    assert Stored(rows, s, 0) && s[0].id == 1;
    var after := map[1 := Node(2, 0, STEP), 2 := Node(0, 1, 0)];
    forall t: Chain | Mirrors(after, t)
      ensures false
    {
      NeighboursAgree(after, t, 2);
    }
  }

  /** The sums taken for a midpoint and for a new last index never wrap in uint64. */
  lemma SumsExact(rows: Table, s: Chain, i: nat, j: nat)
    requires Mirrors(rows, s) && i < |s| && j < |s|
    ensures Add64(s[i].index, s[j].index) == s[i].index + s[j].index
    ensures Add64(s[i].index, STEP) == s[i].index + STEP
  {
    AfterGapBounds(rows, s, i);
    AfterGapBounds(rows, s, j);
  }

  // ---------- renumbering ----------

  ghost predicate Between(lo: int, m: int, hi: int) {
    lo < m < hi
  }

  /** Another element got a new index. */
  ghost predicate Renumbers(t: Chain, k: nat, id: nat)
    requires k <= |t|
  {
    exists i :: 0 <= i < |t| && t[i] !in Place(t, k, id)
  }

  /** Others are renumbered exactly when no integer is left between the new neighbours. */
  lemma RenumbersIff(t: Chain, k: nat, id: nat)
    requires Ordered(t) && k <= |t| && !Linked(t, id)
    ensures Renumbers(t, k, id) <==> k < |t| && !exists m :: Between(Below(t, k), m, t[k].index)
  {
    assert k < |t| && Room(t, k) ==> Between(Below(t, k), Below(t, k) + 1, t[k].index);
    if Renumbering(t, k) { PushedUp(t, k, id); } else { LeftAlone(t, k, id); }
  }

  lemma PushedUp(t: Chain, k: nat, id: nat)
    requires Ordered(t) && k <= |t| && !Linked(t, id) && Renumbering(t, k)
    ensures t[k] !in Place(t, k, id)
  {
    var u := Place(t, k, id);
    forall j | 0 <= j < |u|
      ensures u[j] != t[k]
    {
      assert u[j] == if j < k then t[j] else if j == k then Entry(id, NewIndex(t, k)) else Widened(t, k)[j - 1];
    }
  }

  lemma LeftAlone(t: Chain, k: nat, id: nat)
    requires k <= |t| && !Renumbering(t, k)
    ensures forall i :: 0 <= i < |t| ==> t[i] in Place(t, k, id)
  {
    forall i | 0 <= i < |t|
      ensures t[i] in Place(t, k, id)
    {
      assert Place(t, k, id)[if i < k then i else i + 1] == t[i];
    }
  }

  function Pow2(n: nat): (p: nat)
    ensures p >= 1
  {
    if n == 0 then 1 else 2 * Pow2(n - 1)
  }

  /** The ids put at position k one after the other, each right behind the same neighbour. */
  function PlaceAll(t: Chain, k: nat, ids: seq<nat>): Chain
    requires k <= |t|
    decreases |ids|
  {
    if ids == [] then t else PlaceAll(Place(t, k, ids[0]), k, ids[1..])
  }

  /** An insertion into a gap leaves at least half of it, and every other entry as it was. */
  lemma GapHalved(t: Chain, k: nat, id: nat, p: nat)
    requires k < |t| && t[k].index - Below(t, k) >= 2 * p && p >= 1
    ensures |Place(t, k, id)| > k && Place(t, k, id)[k].index - Below(Place(t, k, id), k) >= p
    ensures forall e :: e in t ==> e in Place(t, k, id)
  {
    assert !Renumbering(t, k);
    InsertedAt(t, k, Entry(id, NewIndex(t, k)));
    LeftAlone(t, k, id);
  }

  ghost predicate AllFree(t: Chain, ids: seq<nat>) {
    Distinct(ids) && forall i :: 0 <= i < |ids| ==> ids[i] != 0 && !Linked(t, ids[i])
  }

  lemma RestFree(t: Chain, k: nat, ids: seq<nat>)
    requires AllFree(t, ids) && ids != [] && k <= |t|
    ensures AllFree(Place(t, k, ids[0]), ids[1..]) && ids[0] != 0 && !Linked(t, ids[0])
  {
    forall i | 0 <= i < |ids[1..]|
      ensures !Linked(Place(t, k, ids[0]), ids[1..][i])
    {
      PlaceLinks(t, k, ids[0], ids[i + 1]);
    }
  }

  /** A gap of 2^n takes n insertions at the same place with every other index left alone. */
  lemma {:induction false} GapLasts(t: Chain, k: nat, ids: seq<nat>)
    requires Ordered(t) && k < |t| && t[k].index - Below(t, k) >= Pow2(|ids|)
    requires AllFree(t, ids)
    ensures forall e :: e in t ==> e in PlaceAll(t, k, ids)
    decreases |ids|
  {
    if ids != [] {
      hide AllFree, Ordered, Below, Place, Linked;
      RestFree(t, k, ids);
      PlaceOrdered(t, k, ids[0]);
      GapHalved(t, k, ids[0], Pow2(|ids| - 1));
      GapLasts(Place(t, k, ids[0]), k, ids[1..]);
    }
  }

  /** Those insertions are calls: an unlinked id goes behind an element or to the front by placing it. */
  lemma CallsPlace(s: Chain, id: nat, j: nat)
    requires Ordered(s) && id != 0 && !Linked(s, id)
    ensures j < |s| ==> Apply(s, MoveAfter(id, s[j].id)) == Place(s, j + 1, id)
    ensures s != [] ==> Apply(s, MoveFirst(id)) == Place(s, 0, id) == Apply(s, InsertFirst(id))
    ensures Apply(s, MoveLast(id)) == Place(s, |s|, id)
  {
    if j < |s| {
      PosUnique(s, j);
      assert !Follows(s, id, s[j].id);
    }
  }

  /** A renumbering leaves room for 20 more insertions right behind the same neighbour. */
  lemma RenumberingLasts(t: Chain, k: nat, id: nat, ids: seq<nat>)
    requires Ordered(t) && k <= |t| && Renumbers(t, k, id) && |ids| == 20
    requires AllFree(t, [id] + ids)
    ensures forall e :: e in Place(t, k, id) ==> e in PlaceAll(Place(t, k, id), k, ids)
  {
    RestFree(t, k, [id] + ids);
    assert ([id] + ids)[1..] == ids && ([id] + ids)[0] == id;
    RenumberedGap(t, k, id);
    PlaceOrdered(t, k, id);
    hide *;
    GapLasts(Place(t, k, id), k, ids);
  }

  lemma RenumberedGap(t: Chain, k: nat, id: nat)
    requires Ordered(t) && k <= |t| && !Linked(t, id) && Renumbers(t, k, id)
    ensures |Place(t, k, id)| > k && Place(t, k, id)[k].index - Below(Place(t, k, id), k) == Pow2(20)
  {
    RenumbersIff(t, k, id);
    assert k < |t| && Room(t, k) ==> Between(Below(t, k), Below(t, k) + 1, t[k].index);
    Pow2Of20();
  }

  lemma PlaceLinks(t: Chain, k: nat, id: nat, x: nat)
    requires k <= |t| && x != id && !Linked(t, x)
    ensures !Linked(Place(t, k, id), x)
  {
    var u := Place(t, k, id);
    assert forall j :: 0 <= j < |u| ==> u[j].id == if j < k then t[j].id else if j == k then id else t[j - 1].id;
  }

  lemma Pow2Of20()
    ensures Pow2(20) == STEP
  {
    assert Pow2(10) == 1024;
    assert Pow2(20) == 1024 * Pow2(10);
  }
}
