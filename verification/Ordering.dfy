/** Table rows that carry an ordered, doubly linked list, and the service that edits them.
    mrordering/service/node_mover.go, mrordering/repository/node_postgres.go */
module Ordering {

  /** Distance between neighbours when an index is chosen freely. */
  const STEP: nat := 1024 * 1024

  /** Largest value a signed 64-bit column holds. */
  const MAX_INDEX: nat := 0x7FFF_FFFF_FFFF_FFFF

  const TWO64: nat := 0x1_0000_0000_0000_0000

  /** One row; 0 stands for NULL in every field. */
  datatype Node = Node(prev: nat, next: nat, index: nat)

  const UNLINKED := Node(0, 0, 0)

  type Table = map<nat, Node>

  /** One element of the list a table stands for. */
  datatype Entry = Entry(id: nat, index: nat)

  type Chain = seq<Entry>

  // ---------- the table as a list ----------

  ghost predicate Linked(s: Chain, id: nat) {
    exists i :: 0 <= i < |s| && s[i].id == id
  }

  ghost predicate DistinctIds(s: Chain) {
    forall i, j :: 0 <= i < j < |s| ==> s[i].id != s[j].id
  }

  ghost predicate Increasing(s: Chain) {
    forall i, j :: 0 <= i < j < |s| ==> s[i].index < s[j].index
  }

  ghost predicate Ordered(s: Chain) {
    && DistinctIds(s)
    && Increasing(s)
    && (forall i :: 0 <= i < |s| ==> s[i].id != 0 && 0 < s[i].index)
  }

  function PrevId(s: Chain, i: int): nat
    requires 0 <= i < |s|
  {
    if i == 0 then 0 else s[i - 1].id
  }

  function NextId(s: Chain, i: int): nat
    requires 0 <= i < |s|
  {
    if i == |s| - 1 then 0 else s[i + 1].id
  }

  /** Element i of s is stored in its row, with both neighbours. */
  ghost predicate Stored(rows: Table, s: Chain, i: int)
    requires 0 <= i < |s|
  {
    s[i].id in rows && rows[s[i].id] == Node(PrevId(s, i), NextId(s, i), s[i].index)
  }

  /** The table stores exactly the list s: every element has its row, every other row is unlinked. */
  ghost predicate Mirrors(rows: Table, s: Chain) {
    && Ordered(s)
    && (forall i :: 0 <= i < |s| ==> s[i].index <= MAX_INDEX)
    && (forall i {:trigger Stored(rows, s, i)} :: 0 <= i < |s| ==> Stored(rows, s, i))
    && RestUnlinked(rows, s)
  }

  ghost predicate RestUnlinked(rows: Table, s: Chain) {
    forall id :: id in rows ==> id != 0 && (Linked(s, id) || rows[id] == UNLINKED)
  }

  ghost predicate WellFormed(rows: Table) {
    exists s :: Mirrors(rows, s)
  }

  /** A table stores at most one list: the rows determine the order. */
  lemma MirrorsUnique(rows: Table, s: Chain, t: Chain)
    requires Mirrors(rows, s) && Mirrors(rows, t)
    ensures s == t
  {
    SamePrefix(rows, s, t, |s|);
    SamePrefix(rows, t, s, |t|);
  }

  lemma {:induction false} SamePrefix(rows: Table, s: Chain, t: Chain, n: nat)
    requires Mirrors(rows, s) && Mirrors(rows, t) && n <= |s|
    ensures n <= |t| && s[..n] == t[..n]
  {
    if n > 0 {
      SamePrefix(rows, s, t, n - 1);
      var e := s[n - 1];
      assert Stored(rows, s, n - 1);
      assert rows[e.id] != UNLINKED && Linked(t, e.id);
      var j :| 0 <= j < |t| && t[j].id == e.id;
      assert Stored(rows, t, j);
      if n > 1 {
        assert t[n - 2] == t[..n - 1][n - 2] == s[n - 2];
        assert t[j - 1].id == t[n - 2].id;
      }
      assert j == n - 1;
    }
  }

  /** Links go both ways, and only to stored rows. */
  lemma NeighboursAgree(rows: Table, s: Chain, a: nat)
    requires Mirrors(rows, s) && a in rows
    ensures rows[a].next != 0 ==> rows[a].next in rows && rows[rows[a].next].prev == a
    ensures rows[a].prev != 0 ==> rows[a].prev in rows && rows[rows[a].prev].next == a
    ensures rows[a].index == 0 ==> rows[a] == UNLINKED
  {
    if rows[a] != UNLINKED {
      assert Linked(s, a);
      var i :| 0 <= i < |s| && s[i].id == a;
      assert Stored(rows, s, i);
      if i + 1 < |s| { assert Stored(rows, s, i + 1); }
      if i > 0 { assert Stored(rows, s, i - 1); }
    }
  }

  /** A link without its return link is not part of any list. */
  lemma OneWayLink(rows: Table, a: nat, b: nat)
    requires a in rows && b != 0
    requires (rows[a].next == b && (b !in rows || rows[b].prev != a))
             || (rows[a].prev == b && (b !in rows || rows[b].next != a))
    ensures !WellFormed(rows)
  {
    forall s: Chain | Mirrors(rows, s)
      ensures false
    {
      NeighboursAgree(rows, s, a);
    }
  }

  // ---------- list edits ----------

  ghost function PosOf(s: Chain, id: nat): (k: nat)
    requires Linked(s, id)
    ensures k < |s| && s[k].id == id
  {
    var k :| 0 <= k < |s| && s[k].id == id;
    k
  }

  function RemoveAt(s: Chain, k: nat): Chain
    requires k < |s|
  {
    s[..k] + s[k + 1..]
  }

  function InsertAt(s: Chain, k: nat, e: Entry): Chain
    requires k <= |s|
  {
    s[..k] + [e] + s[k..]
  }

  ghost function Without(s: Chain, id: nat): Chain {
    if Linked(s, id) then RemoveAt(s, PosOf(s, id)) else s
  }

  lemma WithoutKeeps(s: Chain, id: nat, x: nat)
    requires Linked(s, x) && x != id
    ensures Linked(Without(s, id), x)
  {
    if Linked(s, id) {
      var k, i := PosOf(s, id), PosOf(s, x);
      assert RemoveAt(s, k)[if i < k then i else i - 1] == s[i];
    }
  }

  /** Adds d to every index from position k on. */
  function ShiftFrom(s: Chain, k: nat, d: nat): (t: Chain)
    ensures |t| == |s|
  {
    seq(|s|, i requires 0 <= i < |s| => if i < k then s[i] else Entry(s[i].id, s[i].index + d))
  }

  datatype Op =
    | InsertFirst(id: nat)
    | InsertLast(id: nat)
    | MoveFirst(id: nat)
    | MoveLast(id: nat)
    | MoveAfter(id: nat, after: nat)
    | Detach(id: nat)

  /** The index below position k of t; 0 below the first element. */
  function Below(t: Chain, k: nat): nat
    requires k <= |t|
  {
    if k == 0 then 0 else t[k - 1].index
  }

  /** Some integer lies strictly between the neighbours at position k. */
  predicate Room(t: Chain, k: nat)
    requires k < |t|
  {
    Below(t, k) + 1 < t[k].index
  }

  predicate Renumbering(t: Chain, k: nat)
    requires k <= |t|
  {
    k < |t| && !Room(t, k)
  }

  function NewIndex(t: Chain, k: nat): nat
    requires k <= |t|
  {
    if k < |t| && Room(t, k) then (Below(t, k) + t[k].index) / 2 else Below(t, k) + STEP
  }

  /** What stays around the new element: t itself, or t with everything behind the gap pushed up. */
  function Widened(t: Chain, k: nat): Chain
    requires k <= |t|
  {
    if Renumbering(t, k) then ShiftFrom(t, k, 2 * STEP) else t
  }

  /** id between positions k - 1 and k of t. */
  function Place(t: Chain, k: nat, id: nat): Chain
    requires k <= |t|
  {
    InsertAt(Widened(t, k), k, Entry(id, NewIndex(t, k)))
  }

  ghost function ToFront(s: Chain, id: nat): Chain {
    if s == [] || s[0].id == id then s else Place(Without(s, id), 0, id)
  }

  ghost function ToBack(s: Chain, id: nat): Chain {
    if s != [] && s[|s| - 1].id == id then s else Place(Without(s, id), |Without(s, id)|, id)
  }

  /** The list after a call that succeeds; calls that change nothing give s back. */
  ghost function Apply(s: Chain, op: Op): Chain {
    match op
    case InsertFirst(id) => ToFront(s, id)
    case MoveFirst(id) => ToFront(s, id)
    case InsertLast(id) => if s == [] then s else ToBack(s, id)
    case MoveLast(id) => ToBack(s, id)
    case MoveAfter(id, after) =>
      if after == 0 then ToFront(s, id)
      else if id == after || !Linked(s, after) || Follows(s, id, after) then s
      else
        WithoutKeeps(s, id, after);
        Place(Without(s, id), PosOf(Without(s, id), after) + 1, id)
    case Detach(id) => Without(s, id)
  }

  /** id stands right after `after`. */
  ghost predicate Follows(s: Chain, id: nat, after: nat) {
    exists i :: 0 <= i < |s| - 1 && s[i].id == after && s[i + 1].id == id
  }

  // ---------- what the edits keep ----------

  lemma PosUnique(s: Chain, k: nat)
    requires DistinctIds(s) && k < |s|
    ensures Linked(s, s[k].id) && PosOf(s, s[k].id) == k
  {
  }

  lemma RemovedAt(s: Chain, k: nat)
    requires k < |s|
    ensures |RemoveAt(s, k)| == |s| - 1
    ensures forall i {:trigger RemoveAt(s, k)[i]} :: 0 <= i < |s| - 1 ==>
            RemoveAt(s, k)[i] == if i < k then s[i] else s[i + 1]
  {
  }

  lemma PartOrdered(s: Chain, t: Chain, k: nat)
    requires Ordered(s) && k < |s| && |t| == |s| - 1
    requires forall i {:trigger t[i]} :: 0 <= i < |t| ==> t[i] == if i < k then s[i] else s[i + 1]
    ensures Ordered(t) && !Linked(t, s[k].id)
  {
    forall i | 0 <= i < |t|
      ensures t[i].id != 0 && 0 < t[i].index && t[i].id != s[k].id
    {
      assert t[i] == s[if i < k then i else i + 1];
    }
    forall i, j | 0 <= i < j < |t|
      ensures t[i].id != t[j].id && t[i].index < t[j].index
    {
      assert t[i] == s[if i < k then i else i + 1] && t[j] == s[if j < k then j else j + 1];
    }
  }

  lemma Removed(s: Chain, id: nat)
    requires Ordered(s)
    ensures Ordered(Without(s, id)) && !Linked(Without(s, id), id)
    ensures forall i :: 0 <= i < |Without(s, id)| ==>
              Without(s, id)[i] == if Linked(s, id) && i >= PosOf(s, id) then s[i + 1] else s[i]
    ensures |Without(s, id)| == if Linked(s, id) then |s| - 1 else |s|
  {
    hide Ordered, Linked, RemoveAt;
    if Linked(s, id) {
      RemovedAt(s, PosOf(s, id));
      PartOrdered(s, RemoveAt(s, PosOf(s, id)), PosOf(s, id));
    }
  }

  lemma InsertedAt(t: Chain, k: nat, e: Entry)
    requires k <= |t|
    ensures |InsertAt(t, k, e)| == |t| + 1 && InsertAt(t, k, e)[k] == e
    ensures forall i {:trigger InsertAt(t, k, e)[i]} :: 0 <= i <= |t| ==>
              InsertAt(t, k, e)[i] == if i < k then t[i] else if i == k then e else t[i - 1]
  {
  }

  lemma InsertedOrdered(t: Chain, k: nat, e: Entry)
    requires Ordered(t) && k <= |t| && e.id != 0 && !Linked(t, e.id) && 0 < e.index
    requires (k > 0 ==> t[k - 1].index < e.index) && (k < |t| ==> e.index < t[k].index)
    ensures Ordered(InsertAt(t, k, e))
  {
    hide InsertAt;
    InsertedAt(t, k, e);
    var u := InsertAt(t, k, e);
    forall i, j | 0 <= i < j < |u|
      ensures u[i].id != u[j].id && u[i].index < u[j].index
    {
      if i != k { assert u[i] == t[if i < k then i else i - 1]; }
      if j != k { assert u[j] == t[if j < k then j else j - 1]; }
    }
  }

  lemma ShiftedOrdered(s: Chain, k: nat, d: nat)
    requires Ordered(s)
    ensures Ordered(ShiftFrom(s, k, d))
  {
  }

  lemma WidenedOrdered(t: Chain, k: nat, id: nat)
    requires Ordered(t) && k <= |t| && !Linked(t, id)
    ensures Ordered(Widened(t, k)) && !Linked(Widened(t, k), id)
  {
  }

  lemma PlaceOrdered(t: Chain, k: nat, id: nat)
    requires Ordered(t) && k <= |t| && id != 0 && !Linked(t, id)
    ensures Ordered(Place(t, k, id))
  {
    WidenedOrdered(t, k, id);
    InsertedOrdered(Widened(t, k), k, Entry(id, NewIndex(t, k)));
  }

  /** Every call keeps the ids distinct and the indices positive and strictly increasing. */
  lemma ApplyOrdered(s: Chain, op: Op)
    requires Ordered(s) && op.id != 0
    ensures Ordered(Apply(s, op))
  {
    hide Place;
    Removed(s, op.id);
    var t := Without(s, op.id);
    PlaceOrdered(t, 0, op.id);
    PlaceOrdered(t, |t|, op.id);
    if op.MoveAfter? && op.after != op.id && Linked(s, op.after) {
      WithoutKeeps(s, op.id, op.after);
      PlaceOrdered(t, PosOf(t, op.after) + 1, op.id);
    }
  }

  // ---------- the same edits on rows ----------

  function SetPrev(rows: Table, id: nat, prev: nat): Table {
    if id in rows then rows[id := rows[id].(prev := prev)] else rows
  }

  function SetNext(rows: Table, id: nat, next: nat): Table {
    if id in rows then rows[id := rows[id].(next := next)] else rows
  }

  function UnlinkRows(rows: Table, id: nat): (r: Table)
    requires id in rows
    ensures r.Keys == rows.Keys
  {
    var n := rows[id];
    SetPrev(SetNext(rows, n.prev, n.next), n.next, n.prev)[id := UNLINKED]
  }

  function LinkRows(rows: Table, prev: nat, id: nat, next: nat, index: nat): (r: Table)
    ensures r.Keys == rows.Keys + {id}
  {
    SetPrev(SetNext(rows, prev, id), next, id)[id := Node(prev, next, index)]
  }

  function ShiftedNode(n: Node, border: nat, d: nat): Node {
    if n.index > border then n.(index := n.index + d) else n
  }

  function ShiftRows(rows: Table, border: nat, d: nat): Table {
    map id | id in rows :: ShiftedNode(rows[id], border, d)
  }

  /** No shifted index leaves the column's range. */
  ghost predicate ShiftFits(s: Chain, border: nat, d: nat) {
    forall i :: 0 <= i < |s| && s[i].index > border ==> s[i].index + d <= MAX_INDEX
  }

  /** The rows after id is put between positions k - 1 and k of t. */
  function PlaceRows(rows: Table, t: Chain, k: nat, id: nat): Table
    requires k <= |t|
  {
    LinkRows(if Renumbering(t, k) then ShiftRows(rows, Below(t, k), 2 * STEP) else rows,
             if k == 0 then 0 else t[k - 1].id, id, if k == |t| then 0 else t[k].id, NewIndex(t, k))
  }

  /** What the column's range asks of that. */
  ghost predicate PlaceFits(t: Chain, k: nat)
    requires k <= |t|
  {
    if Renumbering(t, k) then ShiftFits(t, Below(t, k), 2 * STEP) else NewIndex(t, k) <= MAX_INDEX
  }

  lemma RowOf(rows: Table, s: Chain, i: nat)
    requires Mirrors(rows, s) && i < |s|
    ensures Stored(rows, s, i) && s[i].id != 0 && PosOf(s, s[i].id) == i
  {
  }

  /** Position i of s and its row, with what tells it from the rows around it. */
  ghost predicate Around(rows: Table, s: Chain, i: int) {
    0 <= i < |s| ==> Stored(rows, s, i) && s[i].id != 0
  }

  lemma AroundOf(rows: Table, s: Chain, i: int)
    requires Mirrors(rows, s)
    ensures Around(rows, s, i)
  {
  }

  lemma UnlinkedAt(rows: Table, s: Chain, k: nat, i: nat)
    requires k < |s| && i < |s| - 1 && DistinctIds(s)
    requires Around(rows, s, k - 1) && Around(rows, s, k) && Around(rows, s, k + 1) && Around(rows, s, i)
             && Around(rows, s, i + 1)
    ensures Stored(UnlinkRows(rows, s[k].id), RemoveAt(s, k), i)
  {
    var j := if i < k then i else i + 1;
    var t := RemoveAt(s, k);
    assert t[i] == s[j];
    assert i > 0 ==> t[i - 1] == if i - 1 < k then s[i - 1] else s[i];
    assert i + 1 < |t| ==> t[i + 1] == if i + 1 < k then s[i + 1] else s[i + 2];
  }

  lemma NotLinked(rows: Table, s: Chain, id: nat)
    requires Mirrors(rows, s) && id in rows && !Linked(s, id)
    ensures UnlinkRows(rows, id) == rows
  {
    assert rows[id] == UNLINKED && 0 !in rows;
  }

  lemma UnlinkedStored(rows: Table, s: Chain, k: int)
    requires Mirrors(rows, s) && 0 <= k < |s|
    ensures Around(rows, s, k)
    ensures forall i {:trigger Stored(UnlinkRows(rows, s[k].id), RemoveAt(s, k), i)} :: 0 <= i < |s| - 1 ==>
            Stored(UnlinkRows(rows, s[k].id), RemoveAt(s, k), i)
  {
    AroundOf(rows, s, k - 1);
    AroundOf(rows, s, k);
    AroundOf(rows, s, k + 1);
    forall i | 0 <= i < |s| - 1
      ensures Stored(UnlinkRows(rows, s[k].id), RemoveAt(s, k), i)
    {
      AroundOf(rows, s, i);
      AroundOf(rows, s, i + 1);
      UnlinkedAt(rows, s, k, i);
    }
  }

  lemma Unlinked(rows: Table, s: Chain, id: nat)
    requires Mirrors(rows, s) && id in rows
    ensures Mirrors(UnlinkRows(rows, id), Without(s, id)) && UnlinkRows(rows, id)[id] == UNLINKED
    ensures !Linked(s, id) ==> UnlinkRows(rows, id) == rows
  {
    if Linked(s, id) {
      Removed(s, id);
      UnlinkedStored(rows, s, PosOf(s, id));
      UnlinkedRest(rows, s, id);
      hide Ordered, Stored, RestUnlinked, Linked, RemoveAt, UnlinkRows;
    } else {
      NotLinked(rows, s, id);
    }
  }

  lemma UnlinkedRest(rows: Table, s: Chain, id: nat)
    requires Mirrors(rows, s) && Linked(s, id) && id in rows
    ensures RestUnlinked(UnlinkRows(rows, id), Without(s, id)) && UnlinkRows(rows, id)[id] == UNLINKED
  {
    NeighboursAgree(rows, s, id);
    forall x | x in rows && x != id && Linked(s, x)
      ensures Linked(Without(s, id), x)
    {
      WithoutKeeps(s, id, x);
    }
  }

  lemma LinkedRow(rows: Table, t: Chain, k: nat, id: nat, index: nat, i: nat)
    requires DistinctIds(t) && id in rows && !Linked(t, id) && k <= |t| && i <= |t|
    requires Around(rows, t, k - 1) && Around(rows, t, k) && Around(rows, t, i - 1) && Around(rows, t, i)
    ensures Stored(LinkRows(rows, if k == 0 then 0 else t[k - 1].id, id, if k == |t| then 0 else t[k].id, index),
            InsertAt(t, k, Entry(id, index)), i)
  {
    var u := InsertAt(t, k, Entry(id, index));
    assert u[k] == Entry(id, index);
    if i != k {
      var j := if i < k then i else i - 1;
      assert u[i] == t[j];
      assert i > 0 && i - 1 != k ==> u[i - 1] == t[j - 1];
      assert i < |t| && i + 1 != k ==> u[i + 1] == t[j + 1];
    } else {
      assert k > 0 ==> u[k - 1] == t[k - 1];
      assert k < |t| ==> u[k + 1] == t[k];
    }
  }

  lemma LinkedRest(rows: Table, t: Chain, k: nat, e: Entry, prev: nat, next: nat)
    requires RestUnlinked(rows, t) && k <= |t|
    requires prev in rows ==> Linked(t, prev)
    requires next in rows ==> Linked(t, next)
    requires e.id != 0
    ensures RestUnlinked(LinkRows(rows, prev, e.id, next, e.index), InsertAt(t, k, e))
  {
    var u := InsertAt(t, k, e);
    assert u[k] == e;
    forall x | Linked(t, x)
      ensures Linked(u, x)
    {
      var i := PosOf(t, x);
      assert u[if i < k then i else i + 1].id == x;
    }
  }

  lemma LinkedAt(rows: Table, t: Chain, k: nat, id: nat, index: nat)
    requires Mirrors(rows, t) && id in rows && !Linked(t, id) && k <= |t| && 0 < index <= MAX_INDEX
    requires (k > 0 ==> t[k - 1].index < index) && (k < |t| ==> index < t[k].index)
    ensures Mirrors(LinkRows(rows, if k == 0 then 0 else t[k - 1].id, id, if k == |t| then 0 else t[k].id, index),
            InsertAt(t, k, Entry(id, index)))
  {
    var u := InsertAt(t, k, Entry(id, index));
    var prev, next := if k == 0 then 0 else t[k - 1].id, if k == |t| then 0 else t[k].id;
    InsertedOrdered(t, k, Entry(id, index));
    LinkedRest(rows, t, k, Entry(id, index), prev, next);
    InsertedAt(t, k, Entry(id, index));
    hide Stored, LinkRows, InsertAt, RestUnlinked, Linked, Ordered, Around;
    forall i: nat | i < |u|
      ensures Stored(LinkRows(rows, prev, id, next, index), u, i)
    {
      AroundOf(rows, t, k - 1); AroundOf(rows, t, k); AroundOf(rows, t, i - 1); AroundOf(rows, t, i);
      LinkedRow(rows, t, k, id, index, i);
    }
    forall i: nat | i < |u|
      ensures u[i].index <= MAX_INDEX
    {
    }
  }

  lemma ShiftedRow(rows: Table, s: Chain, k: nat, border: nat, d: nat, i: nat)
    requires Increasing(s) && k <= |s| && i < |s| && Stored(rows, s, i)
    requires (k > 0 ==> s[k - 1].index <= border) && (k < |s| ==> border < s[k].index)
    ensures Stored(ShiftRows(rows, border, d), ShiftFrom(s, k, d), i)
    ensures ShiftFrom(s, k, d)[i].index == if s[i].index > border then s[i].index + d else s[i].index
  {
  }

  lemma ShiftedRest(rows: Table, s: Chain, k: nat, border: nat, d: nat)
    requires RestUnlinked(rows, s)
    ensures RestUnlinked(ShiftRows(rows, border, d), ShiftFrom(s, k, d))
  {
    forall x | Linked(s, x)
      ensures Linked(ShiftFrom(s, k, d), x)
    {
      assert ShiftFrom(s, k, d)[PosOf(s, x)].id == x;
    }
  }

  lemma ShiftedRows(rows: Table, s: Chain, k: nat, border: nat, d: nat)
    requires Mirrors(rows, s) && k <= |s| && ShiftFits(s, border, d)
    requires (k > 0 ==> s[k - 1].index <= border) && (k < |s| ==> border < s[k].index)
    ensures Mirrors(ShiftRows(rows, border, d), ShiftFrom(s, k, d))
  {
    ShiftedOrdered(s, k, d);
    ShiftedRest(rows, s, k, border, d);
    assert Increasing(s);
    hide Stored, ShiftRows, ShiftFrom, RestUnlinked, Ordered, Increasing;
    forall i | 0 <= i < |s|
      ensures Stored(ShiftRows(rows, border, d), ShiftFrom(s, k, d), i) && ShiftFrom(s, k, d)[i].index <= MAX_INDEX
    {
      assert Stored(rows, s, i);
      ShiftedRow(rows, s, k, border, d, i);
    }
  }

  lemma WidenedRows(rows: Table, t: Chain, k: nat)
    requires Mirrors(rows, t) && k <= |t| && PlaceFits(t, k)
    ensures Mirrors(if Renumbering(t, k) then ShiftRows(rows, Below(t, k), 2 * STEP) else rows, Widened(t, k))
  {
    if Renumbering(t, k) { ShiftedRows(rows, t, k, Below(t, k), 2 * STEP); }
  }

  lemma LinkedAtLike(rows: Table, u: Chain, t: Chain, k: nat, id: nat, index: nat)
    requires Mirrors(rows, u) && id in rows && !Linked(u, id) && k <= |u| == |t| && 0 < index <= MAX_INDEX
    requires (k > 0 ==> u[k - 1].index < index && u[k - 1].id == t[k - 1].id)
             && (k < |u| ==> index < u[k].index && u[k].id == t[k].id)
    ensures Mirrors(LinkRows(rows, if k == 0 then 0 else t[k - 1].id, id, if k == |t| then 0 else t[k].id, index),
            InsertAt(u, k, Entry(id, index)))
  {
    LinkedAt(rows, u, k, id, index);
  }

  lemma WidenedGap(t: Chain, k: nat, id: nat)
    requires Ordered(t) && k <= |t| && !Linked(t, id) && PlaceFits(t, k)
    ensures |Widened(t, k)| == |t| && !Linked(Widened(t, k), id) && 0 < NewIndex(t, k) <= MAX_INDEX
    ensures k > 0 ==> Widened(t, k)[k - 1] == t[k - 1] && t[k - 1].index < NewIndex(t, k)
    ensures k < |t| ==> Widened(t, k)[k].id == t[k].id && NewIndex(t, k) < Widened(t, k)[k].index
  {
  }

  /** The row updates of every placement store the placed list. */
  lemma PlacedRows(rows: Table, t: Chain, k: nat, id: nat)
    requires Mirrors(rows, t) && id in rows && !Linked(t, id) && k <= |t| && PlaceFits(t, k)
    ensures Mirrors(PlaceRows(rows, t, k, id), Place(t, k, id))
  {
    WidenedRows(rows, t, k);
    WidenedGap(t, k, id);
    LinkedAtLike(if Renumbering(t, k) then ShiftRows(rows, Below(t, k), 2 * STEP) else rows,
                 Widened(t, k), t, k, id, NewIndex(t, k));
  }

  /** Unlinking id and placing it anew, in one table. */
  lemma MovedRows(rows: Table, s: Chain, k: nat, id: nat)
    requires Mirrors(rows, s) && id in rows && k <= |Without(s, id)| && PlaceFits(Without(s, id), k)
    ensures Mirrors(PlaceRows(UnlinkRows(rows, id), Without(s, id), k, id), Place(Without(s, id), k, id))
  {
    Unlinked(rows, s, id);
    Removed(s, id);
    PlacedRows(UnlinkRows(rows, id), Without(s, id), k, id);
  }

  /** The same in terms of the neighbouring rows only: their ids and indices, 0 where there is none. */
  function PlaceAt(rows: Table, prev: nat, next: nat, lo: nat, hi: nat, id: nat): Table {
    if next == 0 then LinkRows(rows, prev, id, next, lo + STEP)
    else if lo + 1 < hi then LinkRows(rows, prev, id, next, (lo + hi) / 2)
    else LinkRows(ShiftRows(rows, lo, 2 * STEP), prev, id, next, lo + STEP)
  }

  ghost predicate Gap(t: Chain, k: nat, prev: nat, next: nat, lo: nat, hi: nat) {
    && k <= |t|
    && (if k == 0 then prev == lo == 0 else prev == t[k - 1].id && lo == t[k - 1].index)
    && (if k == |t| then next == 0 else next == t[k].id && hi == t[k].index && next != 0)
  }

  lemma PlaceAtGap(rows: Table, t: Chain, k: nat, prev: nat, next: nat, lo: nat, hi: nat, id: nat)
    requires Gap(t, k, prev, next, lo, hi)
    ensures PlaceAt(rows, prev, next, lo, hi, id) == PlaceRows(rows, t, k, id)
  {
  }

  /** What the column's range asks of PlaceAt, with every row still in the table. */
  predicate FitsAt(rows: Table, next: nat, lo: nat, hi: nat) {
    if next != 0 && lo + 1 < hi then (lo + hi) / 2 <= MAX_INDEX
    else if next != 0 then ShiftFitsRows(rows, lo, 2 * STEP)
    else lo + STEP <= MAX_INDEX
  }

  predicate ShiftFitsRows(rows: Table, border: nat, d: nat) {
    forall x :: x in rows && rows[x].index > border ==> rows[x].index + d <= MAX_INDEX
  }

  lemma ShiftFitsBoth(rows: Table, s: Chain, border: nat, d: nat)
    requires Mirrors(rows, s)
    ensures ShiftFits(s, border, d) <==> ShiftFitsRows(rows, border, d)
  {
    forall x | x in rows && rows[x].index > border
      ensures Linked(s, x) && rows[x].index == s[PosOf(s, x)].index
    {
      RowOf(rows, s, PosOf(s, x));
    }
    forall i: nat | i < |s|
      ensures s[i].id in rows && rows[s[i].id].index == s[i].index
    {
      RowOf(rows, s, i);
    }
  }

  // ---------- the mover's order of updates ----------

  /** The four neighbour updates of a move: tie the target's neighbours to id, then join id's old ones. */
  function NeighbourUpdates(rows: Table, prev: nat, next: nat, id: nat): (r: Table)
    requires id in rows
    ensures r.Keys == rows.Keys
  {
    var tied := SetPrev(SetNext(rows, prev, id), next, id);
    SetPrev(SetNext(tied, rows[id].prev, rows[id].next), rows[id].next, rows[id].prev)
  }

  /** The end of a move: the renumbering if there is no room, and the moved row itself. */
  function OwnRow(rows: Table, prev: nat, next: nat, lo: nat, hi: nat, id: nat): Table {
    if next == 0 then rows[id := Node(prev, next, lo + STEP)]
    else if lo + 1 < hi then rows[id := Node(prev, next, (lo + hi) / 2)]
    else ShiftRows(rows, lo, 2 * STEP)[id := Node(prev, next, lo + STEP)]
  }

  /** What they leave: id's row and every index as they were, the target's neighbours tied to id. */
  lemma Tied(rows: Table, prev: nat, next: nat, id: nat)
    requires id in rows && 0 !in rows && prev != id && next != id && rows[id].prev != id && rows[id].next != id
    requires (rows[id].prev != 0 ==> rows[id].prev != prev) && (rows[id].next != 0 ==> rows[id].next != next)
    ensures var m := NeighbourUpdates(rows, prev, next, id);
            && m[id] == rows[id]
            && (forall x :: x in rows ==> m[x].index == rows[x].index)
            && (prev in rows ==> m[prev].next == id)
            && (next in rows ==> m[next].prev == id)
  {
  }

  lemma UpdatesCommuteAt(rows: Table, prev: nat, next: nat, id: nat, index: nat, x: nat)
    requires id in rows && 0 !in rows && prev != id && next != id && rows[id].prev != id && rows[id].next != id
             && x in rows
    requires (rows[id].prev != 0 ==> rows[id].prev != prev) && (rows[id].next != 0 ==> rows[id].next != next)
    ensures NeighbourUpdates(rows, prev, next, id)[id := Node(prev, next, index)][x]
            == LinkRows(UnlinkRows(rows, id), prev, id, next, index)[x]
  {
    var n := rows[id];
    var tied := SetPrev(SetNext(rows, prev, id), next, id);
    var apart := SetPrev(SetNext(rows, n.prev, n.next), n.next, n.prev);
    assert tied[x] == Node(if x == next then id else rows[x].prev,
                           if x == prev then id else rows[x].next, rows[x].index);
    assert apart[x] == Node(if x == n.next then n.prev else rows[x].prev,
                            if x == n.prev then n.next else rows[x].next, rows[x].index);
  }

  lemma UpdatesCommute(rows: Table, prev: nat, next: nat, id: nat, index: nat)
    requires id in rows && 0 !in rows && prev != id && next != id && rows[id].prev != id && rows[id].next != id
    requires (rows[id].prev != 0 ==> rows[id].prev != prev) && (rows[id].next != 0 ==> rows[id].next != next)
    ensures NeighbourUpdates(rows, prev, next, id)[id := Node(prev, next, index)]
            == LinkRows(UnlinkRows(rows, id), prev, id, next, index)
  {
    var a, b := NeighbourUpdates(rows, prev, next, id)[id := Node(prev, next, index)],
      LinkRows(UnlinkRows(rows, id), prev, id, next, index);
    forall x | x in rows
      ensures a[x] == b[x]
    {
      UpdatesCommuteAt(rows, prev, next, id, index, x);
    }
    hide *;
    assert a.Keys == rows.Keys;
    assert b.Keys == rows.Keys;
  }

  lemma ShiftCommutes(rows: Table, prev: nat, next: nat, id: nat, border: nat, d: nat, index: nat)
    requires id in rows
    ensures ShiftRows(LinkRows(rows, prev, id, next, index), border, d)[id := Node(prev, next, index)]
         == LinkRows(ShiftRows(rows, border, d), prev, id, next, index)
  {
  }

  /** Tying the target's neighbours to id first and untying id's old ones after gives the same
      table as the other way round, whichever of them coincide. */
  lemma MoveRows(rows: Table, prev: nat, next: nat, lo: nat, hi: nat, id: nat, now: Table)
    requires id in rows && 0 !in rows && prev != id && next != id && rows[id].prev != id && rows[id].next != id
    requires (rows[id].prev != 0 ==> rows[id].prev != prev) && (rows[id].next != 0 ==> rows[id].next != next)
    requires now == OwnRow(NeighbourUpdates(rows, prev, next, id), prev, next, lo, hi, id)
    ensures now == PlaceAt(UnlinkRows(rows, id), prev, next, lo, hi, id)
  {
    hide LinkRows, UnlinkRows, NeighbourUpdates, ShiftRows;
    UpdatesCommute(rows, prev, next, id, lo + STEP);
    UpdatesCommute(rows, prev, next, id, (lo + hi) / 2);
    ShiftCommutes(UnlinkRows(rows, id), prev, next, id, lo, 2 * STEP, lo + STEP);
    ShiftOthers(NeighbourUpdates(rows, prev, next, id), LinkRows(UnlinkRows(rows, id), prev, id, next, lo + STEP), id,
      lo, 2 * STEP, Node(prev, next, lo + STEP));
  }

  lemma ShiftOthers(a: Table, b: Table, id: nat, border: nat, d: nat, n: Node)
    requires id in a && a[id := n] == b
    ensures ShiftRows(a, border, d)[id := n] == ShiftRows(b, border, d)[id := n]
  {
    forall x | x in a && x != id
      ensures x in b && a[x] == b[x]
    {
      assert a[id := n][x] == a[x];
    }
  }
}