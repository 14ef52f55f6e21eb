/** The mover: a short sequence of single-row updates per call.
    mrordering/service/node_mover.go over mrordering/repository/node_postgres.go */
module NodeMoving {
  import opened Ordering

  /** How a call ends. EntityMissing and Inconsistent are the service's internal errors. */
  datatype Result =
    | Ok
    | NoRecord
    | InvalidInput
    | NotFound
    | AfterNotFound
    | EntityMissing
    | Inconsistent
    | Overflow

  function Wrap(r: Result): Result {
    if r.NoRecord? then NotFound else r
  }

  function MustExist(r: Result): Result {
    if r.NoRecord? then EntityMissing else r
  }

  /** Go adds uint64 values modulo 2^64. */
  function Add64(x: nat, y: nat): nat {
    (x + y) % TWO64
  }

  // ---------- what a call must do ----------

  /** The column's range admits placing id at position k; the row being moved is renumbered too. */
  ghost predicate MoveFits(s: Chain, id: nat, k: nat)
    requires k <= |Without(s, id)|
  {
    var t := Without(s, id);
    if Renumbering(t, k) then ShiftFits(s, Below(t, k), 2 * STEP) else NewIndex(t, k) <= MAX_INDEX
  }

  ghost predicate FitsAfter(s: Chain, id: nat, after: nat) {
    if !Linked(s, after) || id == after then true
    else
      WithoutKeeps(s, id, after);
      MoveFits(s, id, PosOf(Without(s, id), after) + 1)
  }

  ghost function Outcome(rows: Table, s: Chain, op: Op): Result {
    var id := op.id;
    if id == 0 then InvalidInput
    else match op
      case InsertFirst(_) =>
        if s == [] then EntityMissing
        else if s[0].id == id then InvalidInput
        else if !MoveFits(s, id, 0) then Overflow
        else if id !in rows then NotFound
        else Ok
      case InsertLast(_) =>
        if s == [] then EntityMissing
        else if s[|s| - 1].id == id then InvalidInput
        else if !MoveFits(s, id, |Without(s, id)|) then Overflow
        else if id !in rows then NotFound
        else Ok
      case MoveFirst(_) => OutcomeFront(rows, s, id)
      case MoveLast(_) =>
        if s != [] && s[|s| - 1].id == id then Ok
        else if id !in rows then NotFound
        else if !MoveFits(s, id, |Without(s, id)|) then Overflow
        else Ok
      case MoveAfter(_, after) =>
        if after == 0 then OutcomeFront(rows, s, id)
        else if id == after then InvalidInput
        else if id !in rows then NotFound
        else if rows[id].prev == after then Ok
        else if after !in rows then AfterNotFound
        else if !FitsAfter(s, id, after) then Overflow
        else Ok
      case Detach(_) => if id !in rows then NotFound else Ok
  }

  ghost function OutcomeFront(rows: Table, s: Chain, id: nat): Result {
    if s == [] then EntityMissing
    else if s[0].id == id then Ok
    else if id !in rows then NotFound
    else if !MoveFits(s, id, 0) then Overflow
    else Ok
  }

  /** What a caller must see to before the call: Insert takes an unlinked element, MoveAfter a linked target. */
  ghost predicate Sound(s: Chain, op: Op) {
    match op
    case InsertFirst(id) => !Linked(s, id)
    case InsertLast(id) => !Linked(s, id)
    case MoveAfter(id, after) => after == 0 || Linked(s, after)
    case _ => true
  }

  /** A failed call wrote rows before it failed. */
  predicate HalfDone(op: Op, r: Result) {
    r.Overflow? || (r.NotFound? && (op.InsertFirst? || op.InsertLast?))
  }

  /** From rows storing s, a call that answers r leaves `after`, storing u. A sound call that
      succeeds leaves the edited list, an unsound one no list at all; a failed call either
      changes nothing or, half done, also leaves no list. */
  ghost predicate Done(rows: Table, s: Chain, op: Op, r: Result, after: Table, u: Chain) {
    && after.Keys == rows.Keys
    && (if r.Ok? && Sound(s, op) then u == Apply(s, op) && Mirrors(after, u)
        else if r.Ok? || HalfDone(op, r) then !WellFormed(after)
        else after == rows && u == s)
  }

  class NodeMover {
    var rows: Table
    ghost var chain: Chain

    ghost predicate Valid()
      reads this
    {
      Mirrors(rows, chain)
    }

    constructor (ids: set<nat>)
      requires 0 !in ids
      ensures Valid() && chain == [] && rows.Keys == ids
    {
      rows := map id | id in ids :: UNLINKED;
      chain := [];
    }

    // ---------- repository ----------

    method UpdateNode(id: nat, node: Node) returns (r: Result)
      modifies this`rows
      ensures r == if node.index > MAX_INDEX then Overflow else if id !in old(rows) then NoRecord else Ok
      ensures rows == if r.Ok? then old(rows)[id := node] else old(rows)
    {
      if node.index > MAX_INDEX { return Overflow; }
      if id !in rows { return NoRecord; }
      rows := rows[id := node];
      return Ok;
    }

    method UpdateNodePrevId(id: nat, prevId: nat) returns (r: Result)
      modifies this`rows
      ensures r == if id !in old(rows) then NoRecord else Ok
      ensures rows == if r.Ok? then old(rows)[id := old(rows)[id].(prev := prevId)] else old(rows)
    {
      if id !in rows { return NoRecord; }
      rows := rows[id := rows[id].(prev := prevId)];
      return Ok;
    }

    method UpdateNodeNextId(id: nat, nextId: nat) returns (r: Result)
      modifies this`rows
      ensures r == if id !in old(rows) then NoRecord else Ok
      ensures rows == if r.Ok? then old(rows)[id := old(rows)[id].(next := nextId)] else old(rows)
    {
      if id !in rows { return NoRecord; }
      rows := rows[id := rows[id].(next := nextId)];
      return Ok;
    }

    method RecalcOrderIndex(minBorder: nat, step: nat) returns (r: Result)
      modifies this`rows
      ensures r.Ok? || r.Overflow?
      ensures r.Ok? <==> ShiftFitsRows(old(rows), minBorder, step)
      ensures rows == if r.Ok? then ShiftRows(old(rows), minBorder, step) else old(rows)
    {
      if !ShiftFitsRows(rows, minBorder, step) { return Overflow; }
      rows := map id | id in rows :: ShiftedNode(rows[id], minBorder, step);
      return Ok;
    }

    /** The linked row of least order_index, least id among equals. */
    method FetchFirstNode() returns (r: Result, id: nat, node: Node)
      ensures r.NoRecord? <==> NoneLinked(rows)
      ensures !r.NoRecord? ==> LeastRow(rows, id) && node == rows[id]
      ensures r == if r.NoRecord? then NoRecord else if node.prev > 0 then Inconsistent else Ok
    {
      var todo := rows.Keys;
      id, node := 0, UNLINKED;
      while todo != {}
        invariant todo <= rows.Keys
        invariant node.index == 0 ==> forall x :: x in rows.Keys - todo ==> rows[x].index == 0
        invariant node.index > 0 ==> id in rows && node == rows[id]
        invariant node.index > 0 ==> forall x :: x in rows.Keys - todo && rows[x].index > 0 ==>
                  node.index < rows[x].index || (node.index == rows[x].index && id <= x)
        decreases todo
      {
        var x :| x in todo;
        todo := todo - {x};
        var n := rows[x];
        if n.index > 0 && (node.index == 0 || n.index < node.index || (n.index == node.index && x < id)) {
          id, node := x, n;
        }
      }
      r := if node.index == 0 then NoRecord else if node.prev > 0 then Inconsistent else Ok;
    }

    /** The row of greatest order_index, or a zero node when no row is linked. */
    method FetchLastNode() returns (r: Result, id: nat, node: Node)
      ensures node.index == 0 <==> NoneLinked(rows)
      ensures node.index == 0 ==> id == 0 && node == UNLINKED
      ensures node.index > 0 ==> GreatestRow(rows, id) && node == rows[id]
      ensures r == if node.index > 0 && node.next > 0 then Inconsistent else Ok
    {
      var todo := rows.Keys;
      id, node := 0, UNLINKED;
      while todo != {}
        invariant todo <= rows.Keys
        invariant node.index == 0 ==> id == 0 && node == UNLINKED && forall x :: x in rows.Keys - todo ==>
                  rows[x].index == 0
        invariant node.index > 0 ==> id in rows && node == rows[id]
        invariant node.index > 0 ==> forall x :: x in rows.Keys - todo ==>
                  rows[x].index < node.index || (node.index == rows[x].index && id <= x)
        decreases todo
      {
        var x :| x in todo;
        todo := todo - {x};
        var n := rows[x];
        if n.index > node.index || (n.index > 0 && n.index == node.index && x < id) {
          id, node := x, n;
        }
      }
      r := if node.index > 0 && node.next > 0 then Inconsistent else Ok;
    }

    // ---------- service ----------

    /** Joins the two neighbours of a row that is taken out of its place. */
    method JoinNeighbours(current: Node) returns (r: Result)
      modifies this`rows
      ensures current.prev in old(rows).Keys + {0} && current.next in old(rows).Keys + {0} ==> r.Ok?
      ensures r.Ok? && 0 !in old(rows) ==>
              rows == SetPrev(SetNext(old(rows), current.prev, current.next), current.next, current.prev)
      ensures r.Ok? || r.NoRecord?
    {
      if current.prev > 0 {
        r := UpdateNodeNextId(current.prev, current.next);
        if !r.Ok? { return; }
      }
      if current.next > 0 {
        r := UpdateNodePrevId(current.next, current.prev);
        if !r.Ok? { return; }
      }
      return Ok;
    }

    /** Ties the target's neighbours to the moved row, then joins the row's old ones. No update can
        fail: every row named here was read before, or is linked from one that was. */
    method Relink(nodeId: nat, prevId: nat, nextId: nat) returns (r: Result)
      requires nodeId in rows && 0 !in rows && prevId != nodeId && nextId != nodeId
      requires rows[nodeId].prev in rows.Keys + {0} - {nodeId} && rows[nodeId].next in rows.Keys + {0} - {nodeId}
      requires prevId in rows.Keys + {0} && nextId in rows.Keys + {0}
      requires (rows[nodeId].prev != 0 ==> rows[nodeId].prev != prevId)
               && (rows[nodeId].next != 0 ==> rows[nodeId].next != nextId)
      modifies this`rows
      ensures r.Ok? && rows == NeighbourUpdates(old(rows), prevId, nextId, nodeId)
      ensures rows[nodeId] == old(rows)[nodeId] && (forall x :: x in rows ==> rows[x].index == old(rows)[x].index)
      ensures (prevId in rows ==> rows[prevId].next == nodeId) && (nextId in rows ==> rows[nextId].prev == nodeId)
    {
      Tied(rows, prevId, nextId, nodeId);
      var current := rows[nodeId];
      if prevId > 0 {
        r := UpdateNodeNextId(prevId, nodeId);
        assert r.Ok?;
      }
      if nextId > 0 {
        r := UpdateNodePrevId(nextId, nodeId);
        assert r.Ok?;
      }
      r := JoinNeighbours(current);
    }

    /** The index for an element put before the first one; renumbers the rest when none is left. */
    method IndexInFront(firstIndex: nat) returns (r: Result, index: nat)
      modifies this`rows
      ensures r == if firstIndex >= 2 || ShiftFitsRows(old(rows), 0, 2 * STEP) then Ok else Overflow
      ensures rows == if firstIndex < 2 && r.Ok? then ShiftRows(old(rows), 0, 2 * STEP) else old(rows)
      ensures index == if firstIndex >= 2 then firstIndex / 2 else STEP
    {
      index := firstIndex / 2;
      r := Ok;
      if index == 0 {
        r := RecalcOrderIndex(0, 2 * STEP);
        index := STEP;
      }
    }

    /** The index for an element put behind another one, in the middle of the gap if it can be;
        renumbers what follows when the gap is used up. */
    method IndexBehind(index: nat, nextId: nat, nextIndex: nat) returns (r: Result, found: nat)
      requires index <= MAX_INDEX && nextIndex <= MAX_INDEX && if nextId == 0 then nextIndex == 0 else index < nextIndex
      modifies this`rows
      ensures r == if nextId == 0 || index + 1 < nextIndex || ShiftFitsRows(old(rows), index, 2 * STEP) then Ok
              else Overflow
      ensures rows == if r.Ok? && nextId != 0 && index + 1 >= nextIndex then ShiftRows(old(rows), index, 2 * STEP)
              else old(rows)
      ensures r.Ok? ==> found == if nextId != 0 && index + 1 < nextIndex then (index + nextIndex) / 2 else index + STEP
    {
      r, found := Ok, Add64(index, nextIndex) / 2;
      if found <= index {
        if nextId > 0 {
          r := RecalcOrderIndex(index, 2 * STEP);
        }
        found := Add64(index, STEP);
      }
    }

    method InsertToFirst(nodeId: nat) returns (r: Result)
      requires Valid()
      modifies this
      ensures r == Outcome(old(rows), old(chain), InsertFirst(nodeId))
      ensures Done(old(rows), old(chain), InsertFirst(nodeId), r, rows, chain)
    {
      hide Mirrors, WellFormed, Place, MoveFits, Without, Linked, PlaceAt, LinkRows, UnlinkRows, NoneLinked, LeastRow,
        GreatestRow, Done;
      ghost var was, s, op := rows, chain, InsertFirst(nodeId);
      NothingDone(was, s, op);
      if nodeId == 0 { return InvalidInput; }
      var q, firstId, first := FetchFirstNode();
      EndsOf(was, s, firstId);
      if !q.Ok? { return MustExist(q); }
      if nodeId == firstId { return InvalidInput; }
      FrontGap(was, s, nodeId);
      q := UpdateNodePrevId(firstId, nodeId);
      assert q.Ok?;
      var index;
      q, index := IndexInFront(first.index);
      if !q.Ok? {
        Broken(was, s, op, Overflow, rows, chain, firstId, nodeId);
        return Wrap(q);
      }
      q := UpdateNode(nodeId, Node(0, firstId, index));
      if !q.Ok? {
        Broken(was, s, op, NotFound, rows, chain, firstId, nodeId);
      } else if Linked(s, nodeId) {
        Neighbours(was, s, nodeId);
        Broken(was, s, op, Ok, rows, chain, was[nodeId].prev, nodeId);
      } else {
        Neighbours(was, s, nodeId);
        Moved(was, s, op, 0, 0, firstId, 0, first.index, rows);
        chain := Apply(s, op);
      }
      return Wrap(q);
    }

    method InsertToLast(nodeId: nat) returns (r: Result)
      requires Valid()
      modifies this
      ensures r == Outcome(old(rows), old(chain), InsertLast(nodeId))
      ensures Done(old(rows), old(chain), InsertLast(nodeId), r, rows, chain)
    {
      hide Mirrors, WellFormed, Place, MoveFits, Without, Linked, PlaceAt, LinkRows, UnlinkRows, NoneLinked, LeastRow,
        GreatestRow, Done;
      ghost var was, s, op := rows, chain, InsertLast(nodeId);
      NothingDone(was, s, op);
      if nodeId == 0 { return InvalidInput; }
      var q, lastId, last := FetchLastNode();
      EndsOf(was, s, lastId);
      if !q.Ok? { return MustExist(q); }
      if nodeId == lastId { return InvalidInput; }
      BackGap(was, s, nodeId);
      q := UpdateNodeNextId(lastId, nodeId);
      assert q.Ok? || lastId == 0;
      if !q.Ok? { return MustExist(q); }
      q := UpdateNode(nodeId, Node(lastId, 0, Add64(last.index, STEP)));
      if !q.Ok? {
        Broken(was, s, op, Wrap(q), rows, chain, lastId, nodeId);
      } else if Linked(s, nodeId) {
        Neighbours(was, s, nodeId);
        Broken(was, s, op, Ok, rows, chain, was[nodeId].next, nodeId);
      } else {
        Neighbours(was, s, nodeId);
        Moved(was, s, op, |Without(s, nodeId)|, lastId, 0, last.index, 0, rows);
        chain := Apply(s, op);
      }
      return Wrap(q);
    }

    method MoveToFirst(nodeId: nat) returns (r: Result)
      requires Valid()
      modifies this
      ensures r == Outcome(old(rows), old(chain), MoveFirst(nodeId))
      ensures Done(old(rows), old(chain), MoveFirst(nodeId), r, rows, chain)
    {
      hide Mirrors, WellFormed, Place, MoveFits, Without, Linked, PlaceAt, LinkRows, UnlinkRows, NoneLinked, LeastRow,
        GreatestRow, Done, ShiftFitsRows, NeighbourUpdates;
      ghost var was, s, op := rows, chain, MoveFirst(nodeId);
      NothingDone(was, s, op);
      if nodeId == 0 { return InvalidInput; }
      var q, firstId, first := FetchFirstNode();
      EndsOf(was, s, firstId);
      if !q.Ok? { return MustExist(q); }
      if nodeId == firstId { return Ok; }
      if nodeId !in rows { return NotFound; }
      var current := rows[nodeId];
      FrontGap(was, s, nodeId);
      Neighbours(was, s, nodeId);
      assert current.next != firstId;
      q := Relink(nodeId, 0, firstId);
      ShiftFitsSame(was, rows, 0, 2 * STEP);
      var index;
      q, index := IndexInFront(first.index);
      if !q.Ok? {
        Broken(was, s, op, Overflow, rows, chain, firstId, nodeId);
        return Wrap(q);
      }
      q := UpdateNode(nodeId, Node(0, firstId, index));
      Moved(was, s, op, 0, 0, firstId, 0, first.index, rows);
      chain := Apply(s, op);
      return MustExist(q);
    }

    method MoveToLast(nodeId: nat) returns (r: Result)
      requires Valid()
      modifies this
      ensures r == Outcome(old(rows), old(chain), MoveLast(nodeId))
      ensures Done(old(rows), old(chain), MoveLast(nodeId), r, rows, chain)
    {
      hide Mirrors, WellFormed, Place, MoveFits, Without, Linked, PlaceAt, LinkRows, UnlinkRows, NoneLinked, LeastRow,
        GreatestRow, Done, ShiftFitsRows, NeighbourUpdates;
      ghost var was, s, op := rows, chain, MoveLast(nodeId);
      NothingDone(was, s, op);
      if nodeId == 0 { return InvalidInput; }
      var q, lastId, last := FetchLastNode();
      EndsOf(was, s, lastId);
      if !q.Ok? { return MustExist(q); }
      if nodeId == lastId { return Ok; }
      if nodeId !in rows { return NotFound; }
      var current := rows[nodeId];
      BackGap(was, s, nodeId);
      Neighbours(was, s, nodeId);
      assert lastId > 0 ==> current.prev != lastId;
      q := Relink(nodeId, lastId, 0);
      q := UpdateNode(nodeId, Node(lastId, 0, Add64(last.index, STEP)));
      if q.Ok? {
        Moved(was, s, op, |Without(s, nodeId)|, lastId, 0, last.index, 0, rows);
        chain := Apply(s, op);
      } else {
        Broken(was, s, op, Overflow, rows, chain, lastId, nodeId);
      }
      return MustExist(q);
    }

    method MoveAfterId(nodeId: nat, afterId: nat) returns (r: Result)
      requires Valid()
      modifies this
      ensures r == Outcome(old(rows), old(chain), MoveAfter(nodeId, afterId))
      ensures Done(old(rows), old(chain), MoveAfter(nodeId, afterId), r, rows, chain)
    {
      hide Mirrors, WellFormed, Place, MoveFits, Without, Linked, PlaceAt, LinkRows, UnlinkRows, NoneLinked, LeastRow,
        GreatestRow, Done, FitsAfter, ShiftFitsRows, NeighbourUpdates;
      ghost var was, s, op := rows, chain, MoveAfter(nodeId, afterId);
      NothingDone(was, s, op);
      if afterId == 0 {
        r := MoveToFirst(nodeId);
        SameAsFront(was, s, nodeId, r, rows, chain);
        return;
      }
      if nodeId == 0 { return InvalidInput; }
      if nodeId == afterId { return InvalidInput; }
      if nodeId !in rows { return NotFound; }
      var current := rows[nodeId];
      AfterGap(was, s, nodeId, afterId);
      if current.prev == afterId { return Ok; }
      if afterId !in rows { return AfterNotFound; }
      var after := rows[afterId];
      var afterNextId, afterNext := after.next, UNLINKED;
      if afterNextId > 0 {
        assert afterNextId in rows;
        afterNext := rows[afterNextId];
      }
      Neighbours(was, s, nodeId);
      var q := Relink(nodeId, afterId, afterNextId);
      ShiftFitsSame(was, rows, after.index, 2 * STEP);
      ShiftFitsOne(was, afterNextId, after.index, 2 * STEP);
      var index;
      q, index := IndexBehind(after.index, afterNextId, afterNext.index);
      if !q.Ok? {
        Broken(was, s, op, Overflow, rows, chain, afterId, nodeId);
        return MustExist(q);
      }
      q := UpdateNode(nodeId, Node(afterId, afterNextId, index));
      if !q.Ok? {
        Broken(was, s, op, Overflow, rows, chain, afterId, nodeId);
      } else if Linked(s, afterId) {
        Moved(was, s, op, PosOf(Without(s, nodeId), afterId) + 1, afterId, afterNextId, after.index, afterNext.index,
          rows);
        chain := Apply(s, op);
      } else {
        HalfLinked(was, s, op, rows, chain, afterId);
      }
      return MustExist(q);
    }

    method Unlink(nodeId: nat) returns (r: Result)
      requires Valid()
      modifies this
      ensures r == Outcome(old(rows), old(chain), Detach(nodeId))
      ensures Done(old(rows), old(chain), Detach(nodeId), r, rows, chain)
    {
      hide Mirrors, WellFormed, Place, MoveFits, Without, Linked, PlaceAt, LinkRows, NoneLinked, LeastRow, GreatestRow,
        Done, ShiftFitsRows, NeighbourUpdates;
      ghost var was, s, op := rows, chain, Detach(nodeId);
      NothingDone(was, s, op);
      if nodeId == 0 { return InvalidInput; }
      if nodeId !in rows { return NotFound; }
      var current := rows[nodeId];
      Neighbours(was, s, nodeId);
      Detached(was, s, nodeId);
      if current == UNLINKED { return Ok; }
      var q := JoinNeighbours(current);
      assert q.Ok?;
      q := UpdateNode(nodeId, UNLINKED);
      chain := Apply(s, op);
      return MustExist(q);
    }
  }

  lemma PlacedAt(rows: Table, s: Chain, id: nat, k: nat, prev: nat, next: nat, lo: nat, hi: nat)
    requires Mirrors(rows, s) && id in rows && k <= |Without(s, id)| && MoveFits(s, id, k)
    requires Gap(Without(s, id), k, prev, next, lo, hi)
    ensures Mirrors(PlaceAt(UnlinkRows(rows, id), prev, next, lo, hi, id), Place(Without(s, id), k, id))
  {
    FitsThen(s, id, k);
    MovedRows(rows, s, k, id);
    PlaceAtGap(UnlinkRows(rows, id), Without(s, id), k, prev, next, lo, hi, id);
  }

  /** The closing step of every call that succeeds. */
  lemma Moved(rows: Table, s: Chain, op: Op, k: nat, prev: nat, next: nat, lo: nat, hi: nat, now: Table)
    requires Mirrors(rows, s) && op.id in rows && Sound(s, op)
    requires Gap(Without(s, op.id), k, prev, next, lo, hi) && MoveFits(s, op.id, k)
    requires Apply(s, op) == Place(Without(s, op.id), k, op.id)
    requires (rows[op.id].prev != 0 ==> rows[op.id].prev != prev)
             && (rows[op.id].next != 0 ==> rows[op.id].next != next)
    requires now == OwnRow(NeighbourUpdates(rows, prev, next, op.id), prev, next, lo, hi, op.id)
             && now.Keys == rows.Keys
    ensures Done(rows, s, op, Ok, now, Apply(s, op))
  {
    hide Place, PlaceAt, OwnRow, LinkRows, UnlinkRows, NeighbourUpdates, Outcome, MoveFits;
    Neighbours(rows, s, op.id);
    NotOwnGap(s, op.id, k, prev, next, lo, hi);
    MoveRows(rows, prev, next, lo, hi, op.id, now);
    PlacedAt(rows, s, op.id, k, prev, next, lo, hi);
  }

  lemma NotOwnGap(s: Chain, id: nat, k: nat, prev: nat, next: nat, lo: nat, hi: nat)
    requires Ordered(s) && Gap(Without(s, id), k, prev, next, lo, hi) && id != 0
    ensures prev != id && next != id
  {
    Removed(s, id);
  }

  lemma FitsThen(s: Chain, id: nat, k: nat)
    requires k <= |Without(s, id)| && MoveFits(s, id, k)
    ensures PlaceFits(Without(s, id), k)
  {
    var t := Without(s, id);
    forall i: nat | i < |t|
      ensures exists j :: 0 <= j < |s| && s[j] == t[i]
    {
      if Linked(s, id) { assert s[if i < PosOf(s, id) then i else i + 1] == t[i]; }
    }
  }

  lemma NothingDone(rows: Table, s: Chain, op: Op)
    requires Mirrors(rows, s)
    ensures forall r: Result :: !r.Ok? && !HalfDone(op, r) ==> Done(rows, s, op, r, rows, s)
    ensures Sound(s, op) && Apply(s, op) == s ==> Done(rows, s, op, Ok, rows, s)
  {
  }

  /** The closing step of every call that leaves a link without its return link. */
  lemma Broken(rows: Table, s: Chain, op: Op, r: Result, now: Table, u: Chain, a: nat, b: nat)
    requires if r.Ok? then !Sound(s, op) else HalfDone(op, r)
    requires now.Keys == rows.Keys
    requires a in now && b != 0
    requires (now[a].next == b && (b !in now || now[b].prev != a))
             || (now[a].prev == b && (b !in now || now[b].next != a))
    ensures Done(rows, s, op, r, now, u)
  {
    OneWayLink(now, a, b);
  }

  /** The rows around id point back at it; a linked id has both neighbours unless it stands at an end. */
  lemma Neighbours(rows: Table, s: Chain, id: nat)
    requires Mirrors(rows, s)
    ensures 0 !in rows
    ensures Linked(s, id) ==> id in rows && rows[id].index > 0
    ensures id in rows && !Linked(s, id) ==> rows[id] == UNLINKED
    ensures id in rows && rows[id].next != 0 ==>
            rows[id].next in rows && rows[rows[id].next].prev == id && rows[id].next != id
    ensures id in rows && rows[id].prev != 0 ==>
            rows[id].prev in rows && rows[rows[id].prev].next == id && rows[id].prev != id
    ensures Linked(s, id) && s[0].id != id ==> rows[id].prev != 0
    ensures Linked(s, id) && s[|s| - 1].id != id ==> rows[id].next != 0
  {
    if Linked(s, id) {
      var k: int := PosOf(s, id);
      AroundOf(rows, s, k - 1);
      AroundOf(rows, s, k);
      AroundOf(rows, s, k + 1);
    }
  }

  // ---------- what the rows show of the list ----------

  ghost predicate NoneLinked(rows: Table) {
    forall x :: x in rows ==> rows[x].index == 0
  }

  ghost predicate LeastRow(rows: Table, id: nat) {
    && id in rows && rows[id].index > 0
    && forall x :: x in rows && rows[x].index > 0 ==>
      rows[id].index < rows[x].index || (rows[id].index == rows[x].index && id <= x)
  }

  ghost predicate GreatestRow(rows: Table, id: nat) {
    && id in rows && rows[id].index > 0
    && forall x :: x in rows ==> rows[x].index < rows[id].index || (rows[x].index == rows[id].index && id <= x)
  }

  lemma EndsOf(rows: Table, s: Chain, id: nat)
    requires Mirrors(rows, s)
    ensures NoneLinked(rows) <==> s == []
    ensures LeastRow(rows, id) ==>
            s != [] && id == s[0].id && rows[id].prev == 0 && rows[id].index == s[0].index <= MAX_INDEX
    ensures GreatestRow(rows, id) ==>
            s != [] && id == s[|s| - 1].id && rows[id].next == 0 && rows[id].index == s[|s| - 1].index <= MAX_INDEX
  {
    if s != [] {
      RowOf(rows, s, 0);
      RowOf(rows, s, |s| - 1);
      if id in rows && rows[id].index > 0 { RowOf(rows, s, PosOf(s, id)); }
    }
  }

  /** The place in front of s, as the rows show it. */
  lemma FrontGap(rows: Table, s: Chain, id: nat)
    requires Mirrors(rows, s) && s != [] && s[0].id != id
    ensures s[0].id in rows && rows[s[0].id].index <= MAX_INDEX
            && Gap(Without(s, id), 0, 0, s[0].id, 0, rows[s[0].id].index)
    ensures MoveFits(s, id, 0) <==> FitsAt(rows, s[0].id, 0, rows[s[0].id].index)
    ensures id in rows ==> rows[id].next != s[0].id
    ensures 0 !in rows
  {
    Removed(s, id);
    RowOf(rows, s, 0);
    Neighbours(rows, s, id);
    ShiftFitsBoth(rows, s, 0, 2 * STEP);
  }

  /** The place behind s, as the rows show it. */
  lemma BackGap(rows: Table, s: Chain, id: nat)
    requires Mirrors(rows, s) && (s != [] ==> s[|s| - 1].id != id)
    ensures s != [] ==>
            s[|s| - 1].id in rows && Gap(Without(s, id), |Without(s, id)|, s[|s| - 1].id, 0, s[|s| - 1].index, 0)
    ensures s != [] ==> (MoveFits(s, id, |Without(s, id)|) <==> FitsAt(rows, 0, s[|s| - 1].index, 0))
    ensures s == [] ==> Gap(Without(s, id), |Without(s, id)|, 0, 0, 0, 0) && MoveFits(s, id, |Without(s, id)|)
    ensures s != [] && id in rows ==> rows[id].prev != s[|s| - 1].id
    ensures 0 !in rows
  {
    Removed(s, id);
    Neighbours(rows, s, id);
    if s != [] { RowOf(rows, s, |s| - 1); }
  }

  lemma ShiftFitsSame(a: Table, b: Table, border: nat, d: nat)
    requires a.Keys == b.Keys && forall x :: x in a ==> a[x].index == b[x].index
    ensures ShiftFitsRows(a, border, d) <==> ShiftFitsRows(b, border, d)
  {
  }

  /** The place behind `after`, as the rows show it. */
  lemma AfterGap(rows: Table, s: Chain, id: nat, after: nat)
    requires Mirrors(rows, s) && id in rows && id != after && after != 0
    ensures 0 !in rows
    ensures rows[id].prev == after ==> Linked(s, after) && Apply(s, MoveAfter(id, after)) == s
    ensures after in rows ==>
            rows[after].index <= MAX_INDEX && (rows[after].next != 0 ==>
            rows[after].next in rows && rows[after].index < rows[rows[after].next].index <= MAX_INDEX)
    ensures after in rows && !Linked(s, after) ==> rows[after] == UNLINKED
    ensures after in rows && rows[id].prev != after ==>
            rows[after].next != id && (rows[after].next != 0 ==> rows[id].next != rows[after].next)
    ensures Linked(s, after) ==> after in rows && rows[after].index > 0
    ensures Linked(s, after) && rows[id].prev != after ==>
              && Linked(Without(s, id), after)
              && !Follows(s, id, after)
              && var k := PosOf(Without(s, id), after) + 1;
              var hi := if rows[after].next == 0 then 0 else rows[rows[after].next].index;
              && Gap(Without(s, id), k, after, rows[after].next, rows[after].index, hi)
              && (MoveFits(s, id, k) <==> FitsAfter(s, id, after))
              && (MoveFits(s, id, k) <==> FitsAt(rows, rows[after].next, rows[after].index, hi))
    ensures !Linked(s, after) ==> FitsAfter(s, id, after)
  {
    hide Mirrors, Gap, MoveFits, FitsAt, Linked, Without, Stored;
    Neighbours(rows, s, id);
    Neighbours(rows, s, after);
    if Linked(s, after) {
      AfterGapBounds(rows, s, PosOf(s, after));
      AfterGapLinked(rows, s, id, PosOf(s, after));
      if rows[id].prev != after {
        var hi := if rows[after].next == 0 then 0 else rows[rows[after].next].index;
        GapFits(rows, s, id, PosOf(Without(s, id), after) + 1, after, rows[after].next, rows[after].index, hi);
      }
    }
  }

  lemma AfterGapBounds(rows: Table, s: Chain, j: nat)
    requires Mirrors(rows, s) && j < |s|
    ensures s[j].id in rows && rows[s[j].id] == Node(PrevId(s, j), NextId(s, j), s[j].index) && s[j].index <= MAX_INDEX
    ensures j + 1 < |s| ==>
            s[j + 1].id in rows && s[j].index < rows[s[j + 1].id].index == s[j + 1].index <= MAX_INDEX
            && s[j + 1].id != 0
  {
    RowOf(rows, s, j);
    if j + 1 < |s| { RowOf(rows, s, j + 1); }
  }

  lemma GapFits(rows: Table, s: Chain, id: nat, k: nat, prev: nat, next: nat, lo: nat, hi: nat)
    requires Mirrors(rows, s) && Gap(Without(s, id), k, prev, next, lo, hi)
    ensures MoveFits(s, id, k) <==> FitsAt(rows, next, lo, hi)
  {
    Removed(s, id);
    ShiftFitsBoth(rows, s, lo, 2 * STEP);
  }

  lemma FollowsRow(rows: Table, s: Chain, id: nat, j: nat)
    requires Mirrors(rows, s) && id in rows && j < |s| && s[j].id != id
    ensures Follows(s, id, s[j].id) <==> j + 1 < |s| && s[j + 1].id == id
    ensures Follows(s, id, s[j].id) <==> rows[id].prev == s[j].id
  {
    RowOf(rows, s, j);
    if Linked(s, id) {
      RowOf(rows, s, PosOf(s, id));
    }
  }

  /** Where element j of s stands once id is taken out, and what follows it. */
  lemma PosBehind(s: Chain, id: nat, j: nat)
    requires Ordered(s) && j < |s| && s[j].id != id
    ensures var t := Without(s, id);
            var k := if Linked(s, id) && PosOf(s, id) < j then j - 1 else j;
            && k < |t| && t[k] == s[j] && Linked(t, s[j].id) && PosOf(t, s[j].id) == k
            && (j + 1 < |s| && s[j + 1].id != id ==> k + 1 < |t| && t[k + 1] == s[j + 1])
            && (j + 1 == |s| ==> k + 1 == |t|)
  {
    Removed(s, id);
    hide Without;
    PosUnique(Without(s, id), if Linked(s, id) && PosOf(s, id) < j then j - 1 else j);
  }

  lemma GapBehind(s: Chain, id: nat, j: nat)
    requires Ordered(s) && j < |s| && s[j].id != id && (j + 1 < |s| ==> s[j + 1].id != id && s[j + 1].id != 0)
    ensures Linked(Without(s, id), s[j].id)
    ensures Gap(Without(s, id), PosOf(Without(s, id), s[j].id) + 1, s[j].id, NextId(s, j), s[j].index,
            if j + 1 == |s| then 0 else s[j + 1].index)
  {
    hide Without, Ordered, Linked;
    PosBehind(s, id, j);
  }

  lemma AfterGapLinked(rows: Table, s: Chain, id: nat, j: nat)
    requires Mirrors(rows, s) && id in rows && j < |s| && s[j].id != id
    ensures var after, t := s[j].id, Without(s, id);
            && Stored(rows, s, j)
            && (rows[id].prev == after <==> Follows(s, id, after))
            && (rows[after].next != 0 ==> j + 1 < |s| && Stored(rows, s, j + 1))
            && (rows[id].prev != after ==>
                  && Linked(t, after)
                  && Gap(t, PosOf(t, after) + 1, after, rows[after].next, s[j].index,
                    if j + 1 == |s| then 0 else s[j + 1].index))
  {
    RowOf(rows, s, j);
    if j + 1 < |s| { RowOf(rows, s, j + 1); }
    FollowsRow(rows, s, id, j);
    assert Ordered(s);
    hide Mirrors, Ordered, Follows, Linked, Without, Gap;
    if rows[id].prev != s[j].id { GapBehind(s, id, j); }
  }

  lemma SameAsFront(rows: Table, s: Chain, id: nat, r: Result, now: Table, u: Chain)
    requires r == Outcome(rows, s, MoveFirst(id)) && Done(rows, s, MoveFirst(id), r, now, u)
    ensures r == Outcome(rows, s, MoveAfter(id, 0)) && Done(rows, s, MoveAfter(id, 0), r, now, u)
  {
  }

  /** A row with a neighbour and no index belongs to no list. */
  lemma HalfLinked(rows: Table, s: Chain, op: Op, now: Table, u: Chain, a: nat)
    requires !Sound(s, op) && now.Keys == rows.Keys
    requires a in now && now[a].index == 0 && now[a] != UNLINKED
    ensures Done(rows, s, op, Ok, now, u)
  {
    forall t: Chain | Mirrors(now, t)
      ensures false
    {
      NeighboursAgree(now, t, a);
    }
  }

  lemma Detached(rows: Table, s: Chain, id: nat)
    requires Mirrors(rows, s) && id in rows && id != 0
    ensures Done(rows, s, Detach(id), Ok, UnlinkRows(rows, id), Apply(s, Detach(id)))
    ensures rows[id] == UNLINKED ==> Apply(s, Detach(id)) == s
  {
    Unlinked(rows, s, id);
    Neighbours(rows, s, id);
  }

  lemma ShiftFitsOne(rows: Table, x: nat, border: nat, d: nat)
    ensures ShiftFitsRows(rows, border, d) && x in rows && rows[x].index > border ==> rows[x].index + d <= MAX_INDEX
  {
  }
}
