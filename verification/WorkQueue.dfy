/** A work queue with attempts and competing consumers.
    mrqueue/repository/queue_postgres.go, mrqueue/service, mrqueue/usecase */
module WorkQueue {

  datatype Status = Ready | Processing | Retry

  /** updated lies in the future while a ready item is delayed. */
  datatype Item = Item(status: Status, attempts: int, updated: int)

  datatype NewItem = NewItem(id: nat, readyDelayed: int, retryAttempts: int)

  type Items = map<nat, Item>

  datatype Cause = System | Other

  /** The sample table checks remaining_attempts >= 0 and has the id as its key. */
  predicate Insertable(items: Items, appended: seq<NewItem>) {
    && (forall i :: 0 <= i < |appended| ==> appended[i].id !in items && appended[i].retryAttempts >= 0)
    && (forall i, j :: 0 <= i < j < |appended| ==> appended[i].id != appended[j].id)
  }

  /** What the producer refuses before it asks the table. */
  predicate Appendable(appended: seq<NewItem>) {
    forall i :: 0 <= i < |appended| ==> appended[i].id != 0 && appended[i].retryAttempts != 0
  }

  function Added(items: Items, appended: seq<NewItem>, now: int): Items {
    if appended == [] then items
    else
      var n := appended[|appended| - 1];
      Added(items, appended[..|appended| - 1], now)[n.id := Item(Ready, n.retryAttempts, now + n.readyDelayed)]
  }

  /** Items of these ids change status if they have the expected one. */
  function Moved(items: Items, ids: set<nat>, from: Status, to: Status, now: int): (r: Items)
    ensures r.Keys == items.Keys
  {
    map id | id in items :: if id in ids && items[id].status == from then Item(to, items[id].attempts, now)
      else items[id]
  }

  predicate InProcessing(items: Items, id: nat) {
    id in items && items[id].status.Processing?
  }

  /** A batch a query may return: items of one status that are due, within the limit if there is
      one. Rows locked by others are passed over, so any choice is possible. */
  ghost predicate BatchOf(items: Items, ids: set<nat>, limit: nat, status: Status, due: Item -> bool) {
    && (limit == 0 || |ids| <= limit)
    && (forall id :: id in ids ==> id in items && items[id].status == status && due(items[id]))
  }

  class Queue {
    var items: Items
    var completed: set<nat>
    var crashed: seq<nat>
    var effects: seq<nat>

    /** What is stored is what a run of the queue, st, comes to. */
    ghost predicate Shows(st: State)
      reads this
    {
      items == st.items && completed == st.completed && effects == st.effects
    }

    constructor ()
      ensures items == map[] && completed == {} && crashed == [] && effects == []
    {
      items, completed, crashed, effects := map[], {}, [], [];
    }

    method Append(appended: seq<NewItem>, now: int) returns (ok: bool)
      modifies this`items
      ensures ok <==> Appendable(appended) && Insertable(old(items), appended)
      ensures items == if ok then Added(old(items), appended, now) else old(items)
      ensures forall st: State :: old(Shows(st)) && NeverAppended(st, appended) ==>
              Shows(Next(st, Appending(appended, now)))
    {
      for i := 0 to |appended|
        invariant forall j :: 0 <= j < i ==> appended[j].id != 0 && appended[j].retryAttempts != 0
      {
        if appended[i].id == 0 { return false; }
        if appended[i].retryAttempts == 0 { return false; }
      }
      if !Insertable(items, appended) { return false; }
      items := Added(items, appended, now);
      return true;
    }

    /** FetchAndUpdateStatusReadyToProcessing hands a batch to one consumer. */
    method ReadItems(limit: int, batch: set<nat>, now: int) returns (ids: set<nat>)
      requires limit >= 1 ==> BatchOf(items, batch, limit, Ready, (i: Item) => i.updated <= now)
      modifies this`items
      ensures ids == if limit < 1 then {} else batch
      ensures items == Moved(old(items), ids, Ready, Processing, now)
      ensures items.Keys == old(items).Keys
              && forall id :: id in items ==>
                   items[id] == if id in ids then Item(Processing, old(items)[id].attempts, now) else old(items)[id]
      ensures forall st: State :: old(Shows(st)) ==> Shows(Next(st, Reading(ids, now)))
    {
      if limit < 1 {
        assert items == Moved(items, {}, Ready, Processing, now);
        return {};
      }
      items := Moved(items, batch, Ready, Processing, now);
      return batch;
    }

    method CancelItems(ids: set<nat>, now: int)
      modifies this`items
      ensures items == Moved(old(items), ids, Processing, Ready, now)
      ensures items.Keys == old(items).Keys
              && forall id :: id in items ==>
                   items[id] == if id in ids && old(items)[id].status.Processing? then
                     Item(Ready, old(items)[id].attempts, now) else old(items)[id]
      ensures forall st: State :: old(Shows(st)) ==> Shows(Next(st, Cancelling(ids, now)))
    {
      items := Moved(items, ids, Processing, Ready, now);
    }

    method Delete(id: nat, status: Status) returns (ok: bool)
      modifies this`items
      ensures ok <==> id in old(items) && old(items)[id].status == status
      ensures items == if ok then old(items) - {id} else old(items)
    {
      if id !in items || items[id].status != status { return false; }
      items := items - {id};
      return true;
    }

    /** Deletes the item and journals it; a key that is journalled already undoes the deletion. */
    method Commit(id: nat) returns (ok: bool)
      modifies this`items, this`completed
      ensures ok <==> id != 0 && InProcessing(old(items), id) && id !in old(completed)
      ensures items == if ok then old(items) - {id} else old(items)
      ensures completed == if ok then old(completed) + {id} else old(completed)
    {
      if id == 0 { return false; }
      var was := items;
      ok := Delete(id, Processing);
      if !ok { return; }
      if id in completed {
        items := was;
        return false;
      }
      completed := completed + {id};
    }

    /** The consumer's own effect and the commit of the item are one transaction. */
    method CommitMessage(id: nat, preCommit: bool) returns (ok: bool)
      modifies this`items, this`completed, this`effects
      ensures ok <==> preCommit && id != 0 && InProcessing(old(items), id) && id !in old(completed)
      ensures items == if ok then old(items) - {id} else old(items)
      ensures completed == if ok then old(completed) + {id} else old(completed)
      ensures effects == if ok then old(effects) + [id] else old(effects)
      ensures forall st: State :: old(Shows(st)) ==> Shows(Next(st, Committing(id, preCommit)))
    {
      if !preCommit { return false; }
      var was := effects;
      effects := effects + [id];
      ok := Commit(id);
      if !ok {
        effects := was;
      }
    }

    /** A system cause charges an attempt and retries, any other drops the item. */
    method Reject(id: nat, cause: Cause, now: int) returns (ok: bool)
      modifies this`items, this`crashed
      ensures ok <==> id != 0 && (cause.System? || InProcessing(old(items), id)) && Charged(old(items), id, cause) >= 0
      ensures items == if ok then Rejected(old(items), id, cause, now) else old(items)
      ensures crashed == if ok then old(crashed) + [id] else old(crashed)
      ensures forall st: State :: old(Shows(st)) ==> Shows(Next(st, Rejecting(id, cause, now)))
    {
      if id == 0 { return false; }
      if cause.System? {
        if InProcessing(items, id) {
          if items[id].attempts - 1 < 0 { return false; }
          items := items[id := Item(Retry, items[id].attempts - 1, now)];
        }
      } else {
        ok := Delete(id, Processing);
        if !ok { return; }
      }
      crashed := crashed + [id];
      return true;
    }

    method ToRetryByTimeout(batch: set<nat>, limit: nat, timeout: nat, now: int)
      requires BatchOf(items, batch, limit, Processing, (i: Item) => i.updated < now - timeout)
      modifies this`items
      ensures items == Moved(old(items), batch, Processing, Retry, now)
      ensures items.Keys == old(items).Keys
              && forall id :: id in items ==>
                   items[id] == if id in batch then Item(Retry, old(items)[id].attempts, now) else old(items)[id]
      ensures forall st: State :: old(Shows(st)) ==> Shows(Next(st, TimingOut(batch, timeout, now)))
    {
      items := Moved(items, batch, Processing, Retry, now);
    }

    method RetryToReady(batch: set<nat>, limit: nat, delay: nat, now: int)
      requires BatchOf(items, batch, limit, Retry, (i: Item) => i.updated <= now - delay && i.attempts > 0)
      modifies this`items
      ensures items == Moved(old(items), batch, Retry, Ready, now)
      ensures items.Keys == old(items).Keys
              && forall id :: id in items ==>
                   items[id] == if id in batch then Item(Ready, old(items)[id].attempts, now) else old(items)[id]
      ensures forall st: State :: old(Shows(st)) ==> Shows(Next(st, Readying(batch, delay, now)))
    {
      items := Moved(items, batch, Retry, Ready, now);
    }

    /** QueueCleaner.Execute; the hook that runs with it can undo the deletion. */
    method Clean(batch: set<nat>, limit: int, hook: bool) returns (ok: bool, count: nat)
      requires limit >= 1 ==> BatchOf(items, batch, limit, Retry, (i: Item) => i.attempts == 0)
      modifies this`items
      ensures ok <==> limit >= 1 && (batch == {} || hook)
      ensures items == if ok then old(items) - batch else old(items)
      ensures count == if ok then |batch| else 0
      ensures forall st: State :: old(Shows(st)) ==> Shows(if ok then Next(st, Cleaning(batch)) else st)
    {
      if limit < 1 { return false, 0; }
      if batch == {} {
        assert items - {} == items;
        return true, 0;
      }
      if !hook { return false, 0; }
      items := items - batch;
      ok, count := true, |batch|;
    }
  }

  /** The attempts a rejection would leave, or 0 where it takes none. */
  function Charged(items: Items, id: nat, cause: Cause): int {
    if cause.System? && InProcessing(items, id) then items[id].attempts - 1 else 0
  }

  function Rejected(items: Items, id: nat, cause: Cause, now: int): Items {
    if !InProcessing(items, id) then items
    else if cause.System? then items[id := Item(Retry, items[id].attempts - 1, now)]
    else items - {id}
  }

  // ---------- all interleavings of producers, consumers and background jobs ----------

  /** The queue with its whole past: what was appended with how many attempts, what was completed,
      what was dropped, the effects applied, and the attempts charged to each item. */
  datatype State = State(
    items: Items, completed: set<nat>, dropped: set<nat>, effects: seq<nat>, initial: map<nat, int>,
      charged: map<nat, nat>)

  datatype Event =
    | Appending(appended: seq<NewItem>, now: int)
    | Reading(ids: set<nat>, now: int)
    | Cancelling(ids: set<nat>, now: int)
    | Committing(id: nat, preCommit: bool)
    | Rejecting(id: nat, cause: Cause, now: int)
    | TimingOut(ids: set<nat>, timeout: nat, now: int)
    | Readying(ids: set<nat>, delay: nat, now: int)
    | Cleaning(ids: set<nat>)

  const START := State(map[], {}, {}, [], map[], map[])

  /** The ids come from a generator. */
  predicate NeverAppended(st: State, f: seq<NewItem>) {
    forall i :: 0 <= i < |f| ==> f[i].id !in st.initial
  }

  /** Any consumer may commit, cancel or reject any id at any time, however late. */
  function Next(st: State, e: Event): State {
    match e
    case Appending(f, now) =>
      if Appendable(f) && Insertable(st.items, f) && NeverAppended(st, f) then
        st.(items := Added(st.items, f, now), initial := Noted(st.initial, f))
      else st
    case Reading(ids, now) =>
      if forall id :: id in ids ==> id in st.items && st.items[id].status.Ready? && st.items[id].updated <= now then
        st.(items := Moved(st.items, ids, Ready, Processing, now))
      else st
    case Cancelling(ids, now) => st.(items := Moved(st.items, ids, Processing, Ready, now))
    case Committing(id, preCommit) =>
      if preCommit && id != 0 && InProcessing(st.items, id) && id !in st.completed then
        st.(items := st.items - {id}, completed := st.completed + {id}, effects := st.effects + [id])
      else st
    case Rejecting(id, cause, now) =>
      if id == 0 || !InProcessing(st.items, id) || Charged(st.items, id, cause) < 0 then st
      else if cause.System? then
        st.(items := Rejected(st.items, id, cause, now), charged := st.charged[id := ChargesOf(st, id) + 1])
      else st.(items := st.items - {id}, dropped := st.dropped + {id})
    case TimingOut(ids, timeout, now) =>
      if forall id :: id in ids ==> InProcessing(st.items, id) && st.items[id].updated < now - timeout then
        st.(items := Moved(st.items, ids, Processing, Retry, now))
      else st
    case Readying(ids, delay, now) =>
      if forall id :: id in ids ==>
           && id in st.items && st.items[id].status.Retry?
           && st.items[id].updated <= now - delay && st.items[id].attempts > 0 then
        st.(items := Moved(st.items, ids, Retry, Ready, now))
      else st
    case Cleaning(ids) =>
      if forall id :: id in ids ==> id in st.items && st.items[id].status.Retry? && st.items[id].attempts == 0 then
        st.(items := st.items - ids, dropped := st.dropped + ids)
      else st
  }

  function Noted(initial: map<nat, int>, f: seq<NewItem>): map<nat, int> {
    if f == [] then initial else Noted(initial, f[..|f| - 1])[f[|f| - 1].id := f[|f| - 1].retryAttempts]
  }

  /** Attempts charged to an item so far. */
  function ChargesOf(st: State, id: nat): nat {
    if id in st.charged then st.charged[id] else 0
  }

  ghost function Exec(es: seq<Event>): State {
    if es == [] then START else Next(Exec(es[..|es| - 1]), es[|es| - 1])
  }

  // ---------- invariants ----------

  /** An item that waits or is worked on has an attempt left; one to be retried may have none. */
  predicate AttemptsOk(i: Item) {
    i.attempts >= (if i.status.Retry? then 0 else 1)
  }

  /** Every appended id is in exactly one place, and was effective exactly if it is completed. */
  ghost predicate Placed(st: State) {
    && st.initial.Keys == st.items.Keys + st.completed + st.dropped
    && st.items.Keys !! st.completed && st.items.Keys !! st.dropped && st.completed !! st.dropped
    && (forall id :: id in st.completed <==> id in st.effects)
    && (forall i, j :: 0 <= i < j < |st.effects| ==> st.effects[i] != st.effects[j])
  }

  ghost predicate Counted(st: State) {
    && st.charged.Keys <= st.initial.Keys
    && (forall id :: id in st.items ==> AttemptsOk(st.items[id]))
    && (forall id :: id in st.items && id in st.initial ==> st.items[id].attempts + ChargesOf(st, id) == st.initial[id])
    && (forall id :: id in st.initial ==> ChargesOf(st, id) <= st.initial[id])
  }

  lemma {:induction false} AddedItems(items: Items, f: seq<NewItem>, now: int)
    requires Insertable(items, f)
    ensures Added(items, f, now).Keys == items.Keys + IdsOf(f)
    ensures forall id :: id in items ==> Added(items, f, now)[id] == items[id]
    ensures forall i :: 0 <= i < |f| ==>
            Added(items, f, now)[f[i].id] == Item(Ready, f[i].retryAttempts, now + f[i].readyDelayed)
  {
    if f != [] {
      var g, n := f[..|f| - 1], f[|f| - 1];
      assert Added(items, f, now) == Added(items, g, now)[n.id := Item(Ready, n.retryAttempts, now + n.readyDelayed)];
      assert n.id !in items && Insertable(items, g);
      AddedItems(items, g, now);
      LastId(f);
      hide Added, IdsOf;
      forall i | 0 <= i < |f|
        ensures Added(items, f, now)[f[i].id] == Item(Ready, f[i].retryAttempts, now + f[i].readyDelayed)
      {
        if i < |g| { assert f[i] == g[i] && f[i].id != n.id; }
      }
    }
  }

  lemma LastId(f: seq<NewItem>)
    requires f != []
    ensures IdsOf(f) == IdsOf(f[..|f| - 1]) + {f[|f| - 1].id}
  {
  }

  function IdsOf(f: seq<NewItem>): set<nat> {
    set i | 0 <= i < |f| :: f[i].id
  }

  lemma {:induction false} NotedItems(initial: map<nat, int>, f: seq<NewItem>)
    requires forall i, j :: 0 <= i < j < |f| ==> f[i].id != f[j].id
    requires forall i :: 0 <= i < |f| ==> f[i].id !in initial
    ensures Noted(initial, f).Keys == initial.Keys + IdsOf(f)
    ensures forall id :: id in initial ==> Noted(initial, f)[id] == initial[id]
    ensures forall i :: 0 <= i < |f| ==> Noted(initial, f)[f[i].id] == f[i].retryAttempts
  {
    if f != [] {
      var g, n := f[..|f| - 1], f[|f| - 1];
      NotedItems(initial, g);
      LastId(f);
      hide IdsOf, Noted;
      assert Noted(initial, f) == Noted(initial, g)[n.id := n.retryAttempts];
      assert forall i :: 0 <= i < |g| ==> f[i] == g[i] && f[i].id != n.id;
    }
  }

  lemma PlacedKept(st: State, e: Event)
    requires Placed(st)
    ensures Placed(Next(st, e))
  {
    hide Moved, Added, Noted;
    match e
    case Appending(f, now) =>
      if Next(st, e) != st {
        AddedItems(st.items, f, now);
        NotedItems(st.initial, f);
      }
    case _ =>
  }

  lemma CountedKept(st: State, e: Event)
    requires Placed(st) && Counted(st)
    ensures Counted(Next(st, e))
  {
    hide Counted, Placed, Moved, Added, Noted, Rejected;
    match e
    case Appending(f, now) => if Next(st, e) != st { AppendCounted(st, f, now); }
    case Rejecting(id, cause, now) => RejectCounted(st, id, cause, now);
    case Committing(id, preCommit) => FewerCounted(st, Next(st, e));
    case Cleaning(ids) => FewerCounted(st, Next(st, e));
    case Reading(ids, now) => MovedCounted(st, ids, Ready, Processing, now);
    case Cancelling(ids, now) => MovedCounted(st, ids, Processing, Ready, now);
    case TimingOut(ids, timeout, now) => MovedCounted(st, ids, Processing, Retry, now);
    case Readying(ids, delay, now) => if Next(st, e) != st { MovedCounted(st, ids, Retry, Ready, now); }
  }

  /** Changing status charges nothing. */
  lemma MovedCounted(st: State, ids: set<nat>, from: Status, to: Status, now: int)
    requires Counted(st) && (from.Retry? ==> forall id :: id in ids && id in st.items ==> st.items[id].attempts > 0)
    ensures Counted(st.(items := Moved(st.items, ids, from, to, now)))
  {
  }

  lemma FewerCounted(st: State, now: State)
    requires Counted(st) && now.initial == st.initial && now.charged == st.charged
    requires forall id :: id in now.items ==> id in st.items && now.items[id] == st.items[id]
    ensures Counted(now)
  {
  }

  lemma RejectCounted(st: State, id: nat, cause: Cause, now: int)
    requires Placed(st) && Counted(st)
    ensures Counted(Next(st, Rejecting(id, cause, now)))
  {
    var after := Next(st, Rejecting(id, cause, now));
    if after != st && cause.System? {
      assert id in st.initial;
      assert after.items[id].attempts + ChargesOf(after, id) == st.initial[id];
    }
  }

  /** New items bring their own initial attempts, the others stay as they were. */
  lemma MoreCounted(st: State, now: State)
    requires Counted(st) && now.charged == st.charged
    requires forall id :: id in st.initial ==> id in now.initial && now.initial[id] == st.initial[id]
    requires forall id :: id in now.initial && id !in st.initial ==> now.initial[id] >= 0
    requires forall id :: id in now.items ==>
               || (id in st.items && now.items[id] == st.items[id] && id in st.initial)
               || (AttemptsOk(now.items[id]) && id !in st.initial && id in now.initial
                 && now.items[id].attempts == now.initial[id])
    ensures Counted(now)
  {
  }

  lemma AppendCounted(st: State, f: seq<NewItem>, now: int)
    requires Placed(st) && Counted(st) && Next(st, Appending(f, now)) != st
    ensures Counted(Next(st, Appending(f, now)))
  {
    var after := Next(st, Appending(f, now));
    AddedItems(st.items, f, now);
    NotedItems(st.initial, f);
    assert after.items == Added(st.items, f, now) && after.initial == Noted(st.initial, f);
    hide Added, Noted, Counted, Next;
    MoreCounted(st, after);
  }

  /** In every run each id is in exactly one place and takes effect at most once, however often it
      timed out and was handed on; and charges and attempts left add up to the initial attempts. */
  lemma {:induction false} AlwaysInOrder(es: seq<Event>)
    ensures Placed(Exec(es)) && Counted(Exec(es))
  {
    if es != [] {
      AlwaysInOrder(es[..|es| - 1]);
      PlacedKept(Exec(es[..|es| - 1]), es[|es| - 1]);
      CountedKept(Exec(es[..|es| - 1]), es[|es| - 1]);
    }
  }

  /** No item to be retried is stuck: once its delay has passed one of the two jobs takes it, never both. */
  lemma RetryGoesOn(es: seq<Event>, id: nat, delay: nat, now: int)
    requires id in Exec(es).items && Exec(es).items[id].status.Retry? && Exec(es).items[id].updated <= now - delay
    ensures Next(Exec(es), Readying({id}, delay, now)) != Exec(es) <==> Next(Exec(es), Cleaning({id})) == Exec(es)
  {
    AlwaysInOrder(es);
    var st := Exec(es);
    assert Moved(st.items, {id}, Retry, Ready, now)[id].status.Ready?;
    assert id !in st.items - {id};
  }

  /** The table's check on attempts never stops a rejection, and a rejection of an item that was
      handed on, finished or dropped meanwhile charges nothing. */
  lemma RejectionCharges(es: seq<Event>, id: nat, now: int)
    ensures InProcessing(Exec(es).items, id) ==> Charged(Exec(es).items, id, System) >= 0
    ensures !InProcessing(Exec(es).items, id) ==> Next(Exec(es), Rejecting(id, System, now)) == Exec(es)
  {
    AlwaysInOrder(es);
  }

  lemma StaysCompleted(st: State, e: Event, id: nat)
    requires id in st.completed
    ensures id in Next(st, e).completed
  {
  }

  /** Whoever commits second finds nothing: the id has left the queue for good. */
  lemma {:induction false} CommittedOnce(es: seq<Event>, more: seq<Event>, id: nat)
    requires id in Exec(es).completed
    ensures id in Exec(es + more).completed && id !in Exec(es + more).items
  {
    if more == [] {
      assert es + more == es;
    } else {
      var n := |more| - 1;
      CommittedOnce(es, more[..n], id);
      assert (es + more)[..|es + more| - 1] == es + more[..n];
      StaysCompleted(Exec(es + more[..n]), more[n], id);
    }
    AlwaysInOrder(es + more);
    hide Next, Counted;
  }

  // ---------- delays and timeouts ----------

  /** No batch reads an item before its delay, times out one before its timeout, or retries one before
      its delay there has passed. */
  lemma NotBefore(st: State, id: nat, ids: set<nat>, d: nat, now: int)
    requires id in st.items && id in ids
    ensures st.items[id].status.Ready? && now < st.items[id].updated ==> Next(st, Reading(ids, now)) == st
    ensures st.items[id].status.Processing? && now <= st.items[id].updated + d ==>
            Next(st, TimingOut(ids, d, now)) == st
    ensures st.items[id].status.Retry? && now < st.items[id].updated + d ==> Next(st, Readying(ids, d, now)) == st
  {
  }

  /** An item that is read, or given back, times out, becomes ready again or is rejected starts to wait anew. */
  lemma WaitsAnew(st: State, e: Event, id: nat)
    requires id in st.items && id in Next(st, e).items && Next(st, e).items[id] != st.items[id]
    ensures match e
            case Reading(ids, now) => Next(st, e).items[id] == Item(Processing, st.items[id].attempts, now)
            case Cancelling(ids, now) => Next(st, e).items[id] == Item(Ready, st.items[id].attempts, now)
            case TimingOut(ids, timeout, now) => Next(st, e).items[id] == Item(Retry, st.items[id].attempts, now)
            case Readying(ids, delay, now) => Next(st, e).items[id] == Item(Ready, st.items[id].attempts, now)
            case Rejecting(i, cause, now) => Next(st, e).items[id] == Item(Retry, st.items[id].attempts - 1, now)
            case _ => false
  {
    if e.Appending? && Next(st, e) != st { AddedItems(st.items, e.appended, e.now); }
  }

  /** The step takes an item that was read at `at` from its consumer: it is handled, given back, or timed out. */
  predicate TakesBack(e: Event, id: nat, at: int) {
    match e
    case Committing(i, preCommit) => i == id
    case Rejecting(i, cause, now) => i == id
    case Cancelling(ids, now) => id in ids
    case TimingOut(ids, timeout, now) => id in ids && now > at + timeout
    case _ => false
  }

  lemma StaysRead(st: State, e: Event, id: nat)
    requires InProcessing(st.items, id) && !TakesBack(e, id, st.items[id].updated)
    ensures id in Next(st, e).items && Next(st, e).items[id] == st.items[id]
  {
    if e.Appending? && Next(st, e) != st { AddedItems(st.items, e.appended, e.now); }
  }

  /** Whatever other consumers and jobs do, an item stays with the consumer that read it until that one is
      done with it or the timeout has passed since. */
  lemma {:induction false} StaysWithConsumer(es: seq<Event>, more: seq<Event>, id: nat)
    requires InProcessing(Exec(es).items, id)
    requires forall i :: 0 <= i < |more| ==> !TakesBack(more[i], id, Exec(es).items[id].updated)
    ensures id in Exec(es + more).items && Exec(es + more).items[id] == Exec(es).items[id]
  {
    if more == [] {
      assert es + more == es;
    } else {
      var n := |more| - 1;
      StaysWithConsumer(es, more[..n], id);
      assert (es + more)[..|es + more| - 1] == es + more[..n];
      hide Next, TakesBack;
      StaysRead(Exec(es + more[..n]), more[n], id);
    }
  }
}
