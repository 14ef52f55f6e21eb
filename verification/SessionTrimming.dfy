/** Which sessions of a user are closed when there are too many.
    mrauth/usecase/clean/session_excess_trimmer.go */
module SessionTrimming {

  datatype Listed = Listed(id: int, agent: string)

  /** A session without a user agent is a device of its own. */
  datatype Device = Named(agent: string) | Anonymous(at: int)

  function DeviceAt(ss: seq<Listed>, i: int): Device
    requires 0 <= i < |ss|
  {
    if ss[i].agent == "" then Anonymous(i) else Named(ss[i].agent)
  }

  function Positions(n: nat): (s: set<int>)
    ensures forall i :: i in s <==> 0 <= i < n
  {
    if n == 0 then {} else Positions(n - 1) + {n - 1}
  }

  function Devices(ss: seq<Listed>, at: set<int>): set<Device>
    requires forall i :: i in at ==> 0 <= i < |ss|
  {
    set i | i in at :: DeviceAt(ss, i)
  }

  function Limit(limit: int): nat {
    if limit < 1 then 1 else limit
  }

  function Excess(ss: seq<Listed>, limit: int): nat {
    if |ss| <= Limit(limit) then 0 else |ss| - Limit(limit)
  }

  function Elements(s: seq<int>): set<int> {
    set i | i in s
  }

  ghost predicate Rising(s: seq<int>) {
    forall i, j :: 0 <= i < j < |s| ==> s[i] < s[j]
  }

  /** Positions of one device each. */
  ghost predicate AllDiffer(ss: seq<Listed>, at: set<int>)
    requires forall i :: i in at ==> 0 <= i < |ss|
  {
    forall i, j :: i in at && j in at && i != j ==> DeviceAt(ss, i) != DeviceAt(ss, j)
  }

  /** No choice of as many sessions has more devices. */
  ghost predicate MostDevices(ss: seq<Listed>, kept: set<int>)
    requires forall i :: i in kept ==> 0 <= i < |ss|
  {
    forall other: set<int> :: other <= Positions(|ss|) && |other| == |kept| ==>
      |Devices(ss, other)| <= |Devices(ss, kept)|
  }

  /** Dropping these positions is what the limit asks for: exactly the excess, in the order given,
      never the most active session, and no choice of as many sessions keeps more devices. A device
      is lost altogether only if the kept sessions are all of different devices. */
  ghost predicate BestDrop(ss: seq<Listed>, limit: int, drop: seq<int>) {
    && Rising(drop) && (forall k :: 0 <= k < |drop| ==> 0 < drop[k] < |ss|)
    && |drop| == Excess(ss, limit)
    && var kept := Positions(|ss|) - Elements(drop);
    && |kept| == |ss| - |drop|
    && MostDevices(ss, kept)
    && ((exists k :: 0 <= k < |drop| && DeviceAt(ss, drop[k]) !in Devices(ss, kept)) ==> AllDiffer(ss, kept))
  }

  /** The same user agent stands further up in the list. */
  ghost predicate Repeats(ss: seq<Listed>, i: int) {
    0 <= i < |ss| && ss[i].agent != "" && exists h :: 0 <= h < i && ss[h].agent == ss[i].agent
  }

  /** A session only goes before a less active one if it repeats a device and the other one does not. */
  ghost predicate InTurn(ss: seq<Listed>, drop: seq<int>) {
    forall i, j :: i in drop && 0 <= i < j < |ss| && j !in drop ==> Repeats(ss, i) && !Repeats(ss, j)
  }

  lemma DropFacts(ss: seq<Listed>, limit: int, drop: seq<int>)
    requires BestDrop(ss, limit, drop)
    ensures Rising(drop) && |drop| == Excess(ss, limit) && forall k :: 0 <= k < |drop| ==> 0 < drop[k] < |ss|
  {
  }

  // ---------- counting ----------

  lemma {:induction false} PositionsSize(n: nat)
    ensures |Positions(n)| == n
  {
    if n > 0 {
      PositionsSize(n - 1);
      var below := Positions(n - 1);
      assert n - 1 !in below;
      assert |below + {n - 1}| == |below| + 1;
    }
  }

  lemma {:induction false} ElementsSize(s: seq<int>)
    requires Rising(s)
    ensures |Elements(s)| == |s|
  {
    if s != [] {
      var front, last := s[..|s| - 1], s[|s| - 1];
      ElementsSize(front);
      assert s == front + [last];
      assert Elements(s) == Elements(front) + {last};
    }
  }

  lemma Pick<T>(s: set<T>) returns (x: T)
    requires s != {}
    ensures x in s
  {
    x :| x in s;
  }

  lemma {:induction false} DevicesAtMost(ss: seq<Listed>, at: set<int>)
    requires forall i :: i in at ==> 0 <= i < |ss|
    ensures |Devices(ss, at)| <= |at|
    decreases |at|
  {
    if at != {} {
      var i := Pick(at);
      DevicesAtMost(ss, at - {i});
      assert Devices(ss, at) == Devices(ss, at - {i}) + {DeviceAt(ss, i)};
    }
  }

  lemma {:induction false} DevicesAll(ss: seq<Listed>, at: set<int>)
    requires (forall i :: i in at ==> 0 <= i < |ss|) && AllDiffer(ss, at)
    ensures |Devices(ss, at)| == |at|
    decreases |at|
  {
    if at != {} {
      var i := Pick(at);
      DevicesAll(ss, at - {i});
      assert Devices(ss, at) == Devices(ss, at - {i}) + {DeviceAt(ss, i)};
    }
  }

  lemma {:induction false} SubsetSize<T>(a: set<T>, b: set<T>)
    requires a <= b
    ensures |a| <= |b|
    decreases |a|
  {
    if a != {} {
      var x :| x in a;
      SubsetSize(a - {x}, b - {x});
    }
  }

  // ---------- the selection ----------

  ghost predicate Inside(ss: seq<Listed>, at: seq<int>) {
    forall i :: 0 <= i < |at| ==> 0 <= at[i] < |ss|
  }

  ghost function IdsAt(ss: seq<Listed>, at: seq<int>): (ids: seq<int>)
    requires Inside(ss, at)
    ensures |ids| == |at|
  {
    seq(|at|, i requires 0 <= i < |at| => ss[at[i]].id)
  }

  lemma IdsAtGrows(ss: seq<Listed>, at: seq<int>, i: nat)
    requires Inside(ss, at) && i < |ss|
    ensures Inside(ss, at + [i]) && IdsAt(ss, at + [i]) == IdsAt(ss, at) + [ss[i].id]
  {
  }

  lemma IdsAtRest(ss: seq<Listed>, at: seq<int>, m: nat)
    requires Inside(ss, at) && m <= |at|
    ensures Inside(ss, at[m..]) && IdsAt(ss, at[m..]) == IdsAt(ss, at)[m..]
  {
  }

  /** After i sessions: the kept ones are of different devices, the candidates are the others in
      order, and while the limit is not filled the kept ones have every device seen so far. */
  ghost predicate Passed(ss: seq<Listed>, max: nat, i: nat, keep: set<int>, rest: seq<int>) {
    && i <= |ss|
    && keep !! Elements(rest) && keep + Elements(rest) == Positions(i)
    && Rising(rest) && (forall k :: 0 <= k < |rest| ==> 0 < rest[k] < i)
    && |keep| <= max && |keep| + |rest| == i
    && AllDiffer(ss, keep)
    && (|keep| < max ==> Devices(ss, keep) == Devices(ss, Positions(i)))
  }

  lemma ElementsGrow(rest: seq<int>, i: nat)
    requires Rising(rest) && forall k :: 0 <= k < |rest| ==> 0 <= rest[k] < i
    ensures Elements(rest + [i]) == Elements(rest) + {i} && Rising(rest + [i])
  {
  }

  lemma PositionsGrow(ss: seq<Listed>, i: nat)
    requires i < |ss|
    ensures Positions(i + 1) == Positions(i) + {i} && i !in Positions(i)
    ensures Devices(ss, Positions(i + 1)) == Devices(ss, Positions(i)) + {DeviceAt(ss, i)}
  {
  }

  lemma PassCandidate(ss: seq<Listed>, max: nat, i: nat, keep: set<int>, rest: seq<int>)
    requires Passed(ss, max, i, keep, rest) && i < |ss| && 0 < max
    requires |keep| == max || DeviceAt(ss, i) in Devices(ss, keep)
    ensures Passed(ss, max, i + 1, keep, rest + [i])
  {
    hide AllDiffer, Devices, DeviceAt, Rising, Elements, Positions;
    ElementsGrow(rest, i);
    PositionsGrow(ss, i);
    NotFirst(ss, keep, i, DeviceAt(ss, i));
  }

  lemma NotFirst(ss: seq<Listed>, keep: set<int>, i: nat, d: Device)
    requires i <= |ss| && keep <= Positions(i) && (|keep| > 0 || d in Devices(ss, keep))
    ensures 0 < i
  {
    assert i == 0 ==> keep == {};
  }

  lemma PassKeep(ss: seq<Listed>, max: nat, i: nat, keep: set<int>, rest: seq<int>)
    requires Passed(ss, max, i, keep, rest) && i < |ss|
    requires |keep| < max && DeviceAt(ss, i) !in Devices(ss, keep)
    ensures Passed(ss, max, i + 1, keep + {i}, rest)
  {
    hide Devices, DeviceAt, Rising, Elements, Positions, AllDiffer;
    PositionsGrow(ss, i);
    DevicesGrow(ss, keep, i);
    assert i !in keep;
  }

  lemma DevicesGrow(ss: seq<Listed>, keep: set<int>, i: nat)
    requires (forall x :: x in keep ==> 0 <= x < |ss|) && i < |ss|
    ensures Devices(ss, keep + {i}) == Devices(ss, keep) + {DeviceAt(ss, i)}
    ensures AllDiffer(ss, keep) && DeviceAt(ss, i) !in Devices(ss, keep) ==> AllDiffer(ss, keep + {i})
  {
  }

  // ---------- which of the repeated sessions go ----------

  /** After a pass: what was kept repeats nothing, and a candidate ahead of something kept, or any
      candidate while the limit is not filled, is a repetition. */
  ghost predicate TurnKept(ss: seq<Listed>, max: nat, keep: set<int>, rest: seq<int>) {
    && (forall j :: j in keep ==> !Repeats(ss, j))
    && (forall i, j :: i in rest && j in keep && i < j ==> Repeats(ss, i))
    && (|keep| < max ==> forall i :: i in rest ==> Repeats(ss, i))
  }

  lemma SeenRepeats(ss: seq<Listed>, i: nat, seen: set<int>)
    requires i < |ss| && seen <= Positions(i)
    ensures DeviceAt(ss, i) in Devices(ss, seen) ==> Repeats(ss, i)
    ensures Devices(ss, seen) == Devices(ss, Positions(i)) && Repeats(ss, i) ==> DeviceAt(ss, i) in Devices(ss, seen)
  {
    if Repeats(ss, i) {
      var h :| 0 <= h < i && ss[h].agent == ss[i].agent;
      assert h in Positions(i) && DeviceAt(ss, h) == DeviceAt(ss, i);
    }
  }

  lemma TurnCandidate(ss: seq<Listed>, max: nat, i: nat, keep: set<int>, rest: seq<int>)
    requires Passed(ss, max, i, keep, rest) && TurnKept(ss, max, keep, rest) && i < |ss|
    requires |keep| == max || DeviceAt(ss, i) in Devices(ss, keep)
    ensures TurnKept(ss, max, keep, rest + [i])
  {
    SeenRepeats(ss, i, keep);
    hide Repeats, Devices, DeviceAt, AllDiffer, Elements;
  }

  lemma TurnKeep(ss: seq<Listed>, max: nat, i: nat, keep: set<int>, rest: seq<int>)
    requires Passed(ss, max, i, keep, rest) && TurnKept(ss, max, keep, rest) && i < |ss|
    requires |keep| < max && DeviceAt(ss, i) !in Devices(ss, keep)
    ensures TurnKept(ss, max, keep + {i}, rest)
  {
    SeenRepeats(ss, i, keep);
    hide Repeats, Devices, DeviceAt, AllDiffer, Elements;
  }

  lemma LastInTurn(ss: seq<Listed>, max: nat, keep: set<int>, rest: seq<int>, m: nat)
    requires Passed(ss, max, |ss|, keep, rest) && TurnKept(ss, max, keep, rest) && m <= |rest|
    ensures InTurn(ss, rest[m..])
  {
    hide Repeats, Devices, DeviceAt, AllDiffer;
    var drop := rest[m..];
    forall i, j | i in drop && 0 <= i < j < |ss| && j !in drop
      ensures Repeats(ss, i) && !Repeats(ss, j)
    {
      BehindStays(rest, m, i, j);
      assert j in Positions(|ss|);
    }
  }

  lemma BehindStays(rest: seq<int>, m: nat, i: int, j: int)
    requires Rising(rest) && m <= |rest| && i in rest[m..] && i < j
    ensures i in rest && (j in Elements(rest) ==> j in rest[m..])
  {
    var k :| 0 <= k < |rest[m..]| && rest[m..][k] == i;
    if j in Elements(rest) {
      var l :| 0 <= l < |rest| && rest[l] == j;
      assert l > m + k;
      assert rest[m..][l - m] == j;
    }
  }

  /** Where two choices first part, one drops what the other keeps. The other would have to drop
      everything after it, too: an earlier session of its device stays in both. */
  lemma NoneEarlier(ss: seq<Listed>, limit: int, d: seq<int>, e: seq<int>, x: int, y: int)
    requires BestDrop(ss, limit, d) && InTurn(ss, d) && InTurn(ss, e)
    requires 0 <= x < y < |ss| && x !in d && x in e && y in d
    requires forall i :: 0 <= i < x ==> (i in d <==> i in e)
    ensures y in e
  {
    hide BestDrop, Repeats;
    if y !in e {
      var f := FirstOf(ss, x);
      assert f !in d;
      DroppedRepeats(ss, limit, d, f, x, y);
    }
  }

  /** A choice that keeps two sessions of one device drops only repetitions. */
  lemma DroppedRepeats(ss: seq<Listed>, limit: int, d: seq<int>, f: int, x: int, y: int)
    requires BestDrop(ss, limit, d) && InTurn(ss, d)
    requires 0 <= f < x < |ss| && DeviceAt(ss, f) == DeviceAt(ss, x) && f !in d && x !in d
    requires 0 <= y < |ss| && y in d
    ensures Repeats(ss, y)
  {
    hide MostDevices, Rising, Excess, InTurn, Repeats, DeviceAt;
    var kept := Positions(|ss|) - Elements(d);
    assert f in kept && x in kept;
    assert !AllDiffer(ss, kept);
    var k :| 0 <= k < |d| && d[k] == y;
    assert DeviceAt(ss, d[k]) in Devices(ss, kept);
    var z :| z in kept && DeviceAt(ss, z) == DeviceAt(ss, y);
    hide BestDrop, AllDiffer, Devices;
    AnotherOf(ss, d, y, z);
  }

  lemma AnotherOf(ss: seq<Listed>, d: seq<int>, y: int, z: int)
    requires InTurn(ss, d) && 0 <= y < |ss| && 0 <= z < |ss| && y in d && z !in d
    ensures DeviceAt(ss, z) == DeviceAt(ss, y) ==> Repeats(ss, y)
  {
  }

  lemma FirstOf(ss: seq<Listed>, x: int) returns (f: int)
    requires Repeats(ss, x)
    ensures 0 <= f < x < |ss| && DeviceAt(ss, f) == DeviceAt(ss, x) && !Repeats(ss, f)
  {
    f :| 0 <= f < x && ss[f].agent == ss[x].agent;
    while Repeats(ss, f)
      invariant 0 <= f < x && ss[f].agent == ss[x].agent
      decreases f
    {
      var g :| 0 <= g < f && ss[g].agent == ss[f].agent;
      f := g;
    }
  }

  lemma SameElements(ss: seq<Listed>, limit: int, d: seq<int>, e: seq<int>, x: nat)
    requires BestDrop(ss, limit, d) && InTurn(ss, d) && BestDrop(ss, limit, e) && InTurn(ss, e)
    requires forall i :: 0 <= i < x ==> (i in d <==> i in e)
    ensures x in e ==> x in d
  {
    hide MostDevices, Excess, AllDiffer, InTurn, Repeats;
    if x in e && x !in d {
      ElementsSize(d);
      ElementsSize(e);
      if Elements(d) <= Elements(e) {
        SubsetSize(Elements(d), Elements(e) - {x});
        assert false;
      }
      var y :| y in Elements(d) && y !in Elements(e);
      NoneEarlier(ss, limit, d, e, x, y);
    }
  }

  lemma {:induction false} SameBelow(ss: seq<Listed>, limit: int, d: seq<int>, e: seq<int>, x: nat)
    requires BestDrop(ss, limit, d) && InTurn(ss, d) && BestDrop(ss, limit, e) && InTurn(ss, e)
    ensures forall i :: 0 <= i < x ==> (i in d <==> i in e)
  {
    hide BestDrop, InTurn;
    if x > 0 {
      SameBelow(ss, limit, d, e, x - 1);
      SameElements(ss, limit, d, e, x - 1);
      SameElements(ss, limit, e, d, x - 1);
    }
  }

  lemma RisingFront(d: seq<int>)
    requires Rising(d) && d != []
    ensures var front, last := d[..|d| - 1], d[|d| - 1];
            && Rising(front) && d == front + [last] && Elements(front) == Elements(d) - {last}
            && last in Elements(d) && forall x :: x in Elements(d) ==> x <= last
  {
    var front, last := d[..|d| - 1], d[|d| - 1];
    assert d == front + [last];
  }

  lemma NoElements(s: seq<int>)
    ensures Elements(s) == {} <==> s == []
  {
    assert s != [] ==> s[0] in Elements(s);
  }

  lemma {:induction false} SameRising(d: seq<int>, e: seq<int>)
    requires Rising(d) && Rising(e) && Elements(d) == Elements(e)
    ensures d == e
  {
    NoElements(d);
    NoElements(e);
    if d != [] {
      RisingFront(d);
      RisingFront(e);
      hide Rising, Elements;
      SameRising(d[..|d| - 1], e[..|e| - 1]);
    }
  }

  /** Number, devices and turn leave one choice only. */
  lemma OneChoice(ss: seq<Listed>, limit: int, d: seq<int>, e: seq<int>)
    requires BestDrop(ss, limit, d) && InTurn(ss, d) && BestDrop(ss, limit, e) && InTurn(ss, e)
    ensures d == e
  {
    SameBelow(ss, limit, d, e, |ss|);
    DropFacts(ss, limit, d);
    DropFacts(ss, limit, e);
    hide BestDrop, InTurn, Rising;
    assert Elements(d) == Elements(e);
    SameRising(d, e);
  }

  /** These are the ids of a best choice, made in turn. */
  ghost predicate ExcessIds(ss: seq<Listed>, limit: int, ids: seq<int>) {
    exists drop: seq<int> ::
      BestDrop(ss, limit, drop) && InTurn(ss, drop) && Inside(ss, drop) && ids == IdsAt(ss, drop)
  }

  /** As many as there are too many; one always stays. */
  lemma ExcessSize(ss: seq<Listed>, limit: int, ids: seq<int>)
    requires ExcessIds(ss, limit, ids)
    ensures |ids| == if |ss| <= limit || ss == [] then 0 else if limit < 1 then |ss| - 1 else |ss| - limit
  {
    hide InTurn, MostDevices, Inside;
  }

  /** So the list and the limit decide which sessions are revoked. */
  lemma ExcessDecided(ss: seq<Listed>, limit: int, a: seq<int>, b: seq<int>)
    requires ExcessIds(ss, limit, a) && ExcessIds(ss, limit, b)
    ensures a == b
  {
    hide BestDrop, InTurn, Inside, IdsAt;
    var d :| BestDrop(ss, limit, d) && InTurn(ss, d) && Inside(ss, d) && a == IdsAt(ss, d);
    var e :| BestDrop(ss, limit, e) && InTurn(ss, e) && Inside(ss, e) && b == IdsAt(ss, e);
    OneChoice(ss, limit, d, e);
  }

  /** The user agents among the sessions kept so far. */
  ghost predicate Seen(ss: seq<Listed>, i: nat, keep: set<int>, seen: set<string>) {
    && i <= |ss| && (forall x :: x in keep ==> 0 <= x < i)
    && forall a :: a in seen <==> a != "" && Named(a) in Devices(ss, keep)
  }

  lemma SeenTells(ss: seq<Listed>, i: nat, keep: set<int>, seen: set<string>)
    requires Seen(ss, i, keep, seen) && i < |ss|
    ensures Seen(ss, i + 1, keep, seen) && forall x :: x in keep ==> 0 <= x < |ss|
    ensures DeviceAt(ss, i) in Devices(ss, keep) <==> ss[i].agent != "" && ss[i].agent in seen
  {
  }

  lemma SeenMore(ss: seq<Listed>, i: nat, keep: set<int>, seen: set<string>)
    requires Seen(ss, i, keep, seen) && i < |ss|
    ensures Seen(ss, i + 1, keep + {i}, if ss[i].agent != "" then seen + {ss[i].agent} else seen)
    ensures |keep + {i}| == |keep| + 1
  {
    DevicesGrow(ss, keep, i);
    hide Devices;
  }

  lemma NothingSeen(ss: seq<Listed>)
    ensures Seen(ss, 0, {}, {})
  {
  }

  /** One pass, most active first: a repeated device, or any session once the limit is filled, is a
      candidate; the most active candidates fill up what the limit leaves. */
  method SelectExcessSessions(ss: seq<Listed>, limit: int) returns (revoked: seq<int>)
    ensures ExcessIds(ss, limit, revoked)
  {
    hide Passed, TurnKept, ExcessIds, Positions, AllDiffer, Inside, IdsAt, Seen, Devices, DeviceAt;
    var max := Limit(limit);
    if |ss| <= max {
      NoExcess(ss, limit);
      return [];
    }
    var kept, seen, candidates := 0, {}, [];
    ghost var keep: set<int>, rest: seq<int> := {}, [];
    NothingPassed(ss, max);
    NoIds(ss);
    NothingSeen(ss);
    for i := 0 to |ss|
      invariant Passed(ss, max, i, keep, rest) && TurnKept(ss, max, keep, rest) && Seen(ss, i, keep, seen)
      invariant kept == |keep| <= max
      invariant Inside(ss, rest) && candidates == IdsAt(ss, rest)
    {
      var agent := ss[i].agent;
      SeenTells(ss, i, keep, seen);
      if (agent != "" && agent in seen) || kept >= max {
        PassCandidate(ss, max, i, keep, rest);
        TurnCandidate(ss, max, i, keep, rest);
        IdsAtGrows(ss, rest, i);
        candidates, rest := candidates + [ss[i].id], rest + [i];
        continue;
      }
      PassKeep(ss, max, i, keep, rest);
      TurnKeep(ss, max, i, keep, rest);
      SeenMore(ss, i, keep, seen);
      if agent != "" {
        seen := seen + {agent};
      }
      kept, keep := kept + 1, keep + {i};
    }
    LastIds(ss, limit, keep, rest);
    revoked := candidates[max - kept..];
  }

  lemma NoExcess(ss: seq<Listed>, limit: int)
    requires |ss| <= Limit(limit)
    ensures ExcessIds(ss, limit, [])
  {
    hide BestDrop, Inside, IdsAt;
    NoneDropped(ss);
    KeepAll(ss, limit);
    NoIds(ss);
  }

  lemma LastIds(ss: seq<Listed>, limit: int, keep: set<int>, rest: seq<int>)
    requires |ss| > Limit(limit) && Passed(ss, Limit(limit), |ss|, keep, rest) && Inside(ss, rest)
    requires TurnKept(ss, Limit(limit), keep, rest)
    ensures 0 <= Limit(limit) - |keep| <= |rest| && ExcessIds(ss, limit, IdsAt(ss, rest)[Limit(limit) - |keep|..])
  {
    hide *;
    LastPassed(ss, limit, keep, rest);
    LastInTurn(ss, Limit(limit), keep, rest, Limit(limit) - |keep|);
    IdsAtRest(ss, rest, Limit(limit) - |keep|);
    BestIds(ss, limit, rest[Limit(limit) - |keep|..]);
  }

  lemma BestIds(ss: seq<Listed>, limit: int, drop: seq<int>)
    requires BestDrop(ss, limit, drop) && InTurn(ss, drop) && Inside(ss, drop)
    ensures ExcessIds(ss, limit, IdsAt(ss, drop))
  {
    hide BestDrop, InTurn, Inside, IdsAt;
  }

  lemma NoIds(ss: seq<Listed>)
    ensures Inside(ss, []) && IdsAt(ss, []) == []
  {
  }

  lemma NothingPassed(ss: seq<Listed>, max: nat)
    ensures Passed(ss, max, 0, {}, []) && TurnKept(ss, max, {}, [])
  {
  }

  lemma NoneDropped(ss: seq<Listed>)
    ensures InTurn(ss, [])
  {
  }

  lemma LastPassed(ss: seq<Listed>, limit: int, keep: set<int>, rest: seq<int>)
    requires |ss| > Limit(limit) && Passed(ss, Limit(limit), |ss|, keep, rest)
    ensures 0 <= Limit(limit) - |keep| <= |rest| && BestDrop(ss, limit, rest[Limit(limit) - |keep|..])
  {
    hide *;
    DropShape(ss, limit, keep, rest);
    var m := Limit(limit) - |keep|;
    var drop := rest[m..];
    KeptSize(|ss|, drop);
    var kept := Positions(|ss|) - Elements(drop);
    KeptOf(ss, keep, rest, m);
    if m == 0 {
      DevicesAll(ss, keep);
    } else {
      DevicesStay(ss, kept, drop);
    }
    KeptIsBest(ss, kept);
    Assembled(ss, limit, drop, kept);
  }

  lemma Assembled(ss: seq<Listed>, limit: int, drop: seq<int>, kept: set<int>)
    requires kept == Positions(|ss|) - Elements(drop) && |kept| == |ss| - |drop| && |drop| == Excess(ss, limit)
    requires Rising(drop) && (forall k :: 0 <= k < |drop| ==> 0 < drop[k] < |ss|)
    requires MostDevices(ss, kept)
    requires AllDiffer(ss, kept) || forall k :: 0 <= k < |drop| ==> DeviceAt(ss, drop[k]) in Devices(ss, kept)
    ensures BestDrop(ss, limit, drop)
  {
  }

  lemma DropShape(ss: seq<Listed>, limit: int, keep: set<int>, rest: seq<int>)
    requires |ss| > Limit(limit) && Passed(ss, Limit(limit), |ss|, keep, rest)
    ensures var m := Limit(limit) - |keep|;
            && 0 <= m <= |rest| && |rest| - m == Excess(ss, limit)
            && Rising(rest[m..]) && (forall k :: 0 <= k < |rest[m..]| ==> 0 < rest[m..][k] < |ss|)
    ensures keep !! Elements(rest) && keep + Elements(rest) == Positions(|ss|) && AllDiffer(ss, keep)
    ensures |keep| < Limit(limit) ==> Devices(ss, keep) == Devices(ss, Positions(|ss|))
  {
  }

  /** What the pass kept stays kept; nothing else does when the limit was filled, and no device is
      lost when it was not. */
  lemma KeptOf(ss: seq<Listed>, keep: set<int>, rest: seq<int>, m: nat)
    requires m <= |rest| && keep !! Elements(rest) && keep + Elements(rest) == Positions(|ss|)
    ensures var kept := Positions(|ss|) - Elements(rest[m..]);
            && keep <= kept && (m == 0 ==> kept == keep)
            && (Devices(ss, keep) == Devices(ss, Positions(|ss|)) ==> Devices(ss, kept) == Devices(ss, Positions(|ss|)))
  {
    assert Elements(rest[m..]) <= Elements(rest);
    assert m == 0 ==> rest[m..] == rest;
  }

  lemma DevicesStay(ss: seq<Listed>, kept: set<int>, drop: seq<int>)
    requires kept <= Positions(|ss|) && Devices(ss, kept) == Devices(ss, Positions(|ss|))
    requires forall k :: 0 <= k < |drop| ==> 0 <= drop[k] < |ss|
    ensures forall k :: 0 <= k < |drop| ==> DeviceAt(ss, drop[k]) in Devices(ss, kept)
  {
    forall k | 0 <= k < |drop|
      ensures DeviceAt(ss, drop[k]) in Devices(ss, kept)
    {
      assert drop[k] in Positions(|ss|);
    }
  }

  lemma KeptSize(n: nat, drop: seq<int>)
    requires Rising(drop) && forall k :: 0 <= k < |drop| ==> 0 <= drop[k] < n
    ensures |Positions(n) - Elements(drop)| == n - |drop|
  {
    PositionsSize(n);
    ElementsSize(drop);
    assert Positions(n) == (Positions(n) - Elements(drop)) + Elements(drop);
  }

  lemma KeptIsBest(ss: seq<Listed>, kept: set<int>)
    requires kept <= Positions(|ss|)
    requires |Devices(ss, kept)| == |kept| || Devices(ss, kept) == Devices(ss, Positions(|ss|))
    ensures MostDevices(ss, kept)
  {
    forall other: set<int> | other <= Positions(|ss|) && |other| == |kept|
      ensures |Devices(ss, other)| <= |Devices(ss, kept)|
    {
      DevicesAtMost(ss, other);
      SubsetSize(Devices(ss, other), Devices(ss, Positions(|ss|)));
    }
  }

  lemma KeepAll(ss: seq<Listed>, limit: int)
    requires |ss| <= Limit(limit)
    ensures BestDrop(ss, limit, [])
  {
    PositionsSize(|ss|);
    assert Positions(|ss|) - Elements([]) == Positions(|ss|);
    KeptIsBest(ss, Positions(|ss|));
  }
}
