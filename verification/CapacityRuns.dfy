/** The load limits that each scheduling algorithm keeps, and those it breaks, over whole runs of the
    balancer. */
module CapacityRuns {
  import opened Options
  import opened Schedulers
  import opened Sums
  import opened Conversions
  import opened Balancer
  import opened BalancerRuns

  /** How much of its capacity a server shall keep free: its reserve, or nothing. */
  type Margin = c: int | 0 <= c <= RESERVED_CAPACITY

  /** The two capacities, in this order in the pool, let the algorithm use up the margin of the second
      server: LC and WLC ask only the first candidate for spare capacity. */
  ghost predicate Breaks(alg: Algorithm, first: int, second: int, c: Margin) {
    match alg
    case Least_Connection => first >= second + 3 - c
    case Weighted_Least_Connection => c == 1 && first > 2 * second
    case _ => false
  }

  /** Whatever the order of the pool, no two of its capacities break the margin. */
  ghost predicate MayKeep(alg: Algorithm, pool: map<int, RealServer>, c: Margin) {
    forall fd, fd' :: fd in pool && fd' in pool ==> !Breaks(alg, pool[fd].maxLoad, pool[fd'].maxLoad, c)
  }

  /** No server has used up its margin. */
  ghost predicate Kept(pool: map<int, RealServer>, c: Margin) {
    forall fd :: fd in pool ==> 1 <= pool[fd].maxLoad && pool[fd].curLoad <= pool[fd].maxLoad - c
  }

  ghost predicate Usable(m: SchedMap) {
    m != [] && Sane(m) && forall i :: 0 <= i < |m| ==> m[i].fd > 0
  }

  ghost predicate CapacitiesAllow(alg: Algorithm, m: SchedMap, c: Margin) {
    forall i, j :: 0 <= i < j < |m| ==> !Breaks(alg, m[i].server.maxLoad, m[j].server.maxLoad, c)
  }

  /** The selected server can take the request and still keep its margin. */
  lemma ChosenKeepsMargin(alg: Algorithm, m: SchedMap, count: nat, c: Margin)
    requires Usable(m) && CapacitiesAllow(alg, m, c) && Position(alg, m, count).Some?
    ensures var r := m[Position(alg, m, count).value].server; r.curLoad + 1 <= r.maxLoad - c
  {
    match alg {
      case Round_Robin => ProbeHasSpare(m, count % |m|);
      case Hashing(ip, width) => ProbeHasSpare(m, HashKey(ip.value, width) % |m|);
      case Weighted_Round_Robin => WrrOptimal(m);
      case Least_Connection => SelectIsBest(m, LcBeats);
      case Weighted_Least_Connection => WlcKeepsMargin(m, c);
    }
  }

  lemma WlcKeepsMargin(m: SchedMap, c: Margin)
    requires Usable(m) && CapacitiesAllow(Weighted_Least_Connection, m, c) && Select(m, WlcBeats).Some?
    ensures var r := m[Select(m, WlcBeats).value].server; r.curLoad + 1 <= r.maxLoad - c
  {
    WlcOptimal(m);
    if c == 1 {
      var maxs := seq(|m|, i requires 0 <= i < |m| => m[i].server.maxLoad);
      assert HasCapacities(m, maxs);
      forall i, j | 0 <= i < j < |maxs|
        ensures maxs[i] <= 2 * maxs[j]
      {
        assert !Breaks(Weighted_Least_Connection, m[i].server.maxLoad, m[j].server.maxLoad, c);
      }
      WlcKeepsReserveIff(maxs);
    }
  }

  lemma ProbeHasSpare(m: SchedMap, p: nat)
    requires p < |m| && Probe(m, p).Some?
    ensures HasSpare(m[Probe(m, p).value])
  {
  }

  /** A refusal for lack of capacity means that no server of the pool has spare capacity, and the other
      way round, whatever the algorithm. */
  lemma RefusesIffFull(alg: Algorithm, m: SchedMap, count: nat)
    requires Usable(m) && (alg.Hashing? ==> alg.ip.Some?)
    ensures Choose(alg, m, count) == -1 <==> NoneSpare(m)
  {
    match alg {
      case Round_Robin => ProbeIsFirstSpare(m, count % |m|);
      case Hashing(ip, width) => ProbeIsFirstSpare(m, HashKey(ip.value, width) % |m|);
      case _ =>
    }
  }

  // ------------------------------------------------------------------ steps and runs

  lemma ViewOfPool(alg: Algorithm, s: State, order: seq<int>, c: Margin)
    requires Inv(s) && IsOrder(order, s.pool.Keys) && order != []
    requires forall fd :: fd in s.pool ==> fd > 0 && 1 <= s.pool[fd].maxLoad
    ensures Usable(View(s.pool, order)) && (MayKeep(alg, s.pool, c) ==> CapacitiesAllow(alg, View(s.pool, order), c))
  {
  }

  ghost predicate ServersPositive(s: State) {
    forall fd :: fd in s.pool ==> fd > 0
  }

  ghost predicate CapacitiesPositive(s: State) {
    forall fd :: fd in s.pool ==> fd > 0 && 1 <= s.pool[fd].maxLoad
  }

  /** The pool has lost servers or load. */
  ghost predicate PoolShrinks(pool: map<int, RealServer>, pool': map<int, RealServer>) {
    && pool'.Keys <= pool.Keys
    && forall fd :: fd in pool' ==> pool'[fd].maxLoad == pool[fd].maxLoad && pool'[fd].curLoad <= pool[fd].curLoad
  }

  /** The pool has one request more, on the server that the scheduler selected. */
  ghost predicate PoolGrows(alg: Algorithm, s: State, order: seq<int>, pool': map<int, RealServer>) {
    && order != [] && HasOrder(s, order) && (forall i :: 0 <= i < |order| ==> order[i] in s.pool)
    && var h := Choose(alg, View(s.pool, order), s.count);
       h in s.pool && h > 0 && pool' == AddLoad(s.pool, h, 1)
  }

  lemma {:induction false} ChecksShrink(s: State, order: seq<int>, health: map<int, Health>)
    requires forall fd :: fd in order ==> fd in health
    ensures PoolShrinks(s.pool, CheckAll(s, order, health).pool)
    decreases |order|
  {
    if order != [] {
      ChecksShrink(CheckOne(s, order[0], health[order[0]]), order[1..], health);
    }
  }

  lemma RequestOnPool(alg: Algorithm, s: State, a: Accept)
    requires Legal(s, Request(a)) && ServersPositive(s)
    ensures var pool' := Handle(alg, s, Request(a)).s.pool;
            PoolShrinks(s.pool, pool') || (a.Accepted? && PoolGrows(alg, s, a.order, pool'))
  {
    if a.Accepted? {
      OrderKnown(s, a.order);
    }
  }

  lemma ResponseOnPool(s: State, trigger: int, r: Response)
    requires Legal(s, Event.Response(trigger, r)) && trigger in s.lost
    ensures PoolShrinks(s.pool, OnResponse(s, trigger, r).s.pool)
  {
    if r.Responded? {
      var t := Arrived(s, trigger, r);
      var k := Match(t.requests, t.target, 0);
      if k < |t.requests| {
        DeliverSteps(t, trigger, r, k);
      }
    }
  }

  /** A step removes servers, lowers a load, or raises the load of the selected server. */
  lemma StepOnPool(alg: Algorithm, s: State, e: Event)
    requires Inv(s) && Legal(s, e) && ServersPositive(s)
    ensures var pool' := Step(alg, s, e).pool;
            PoolShrinks(s.pool, pool') || (e.Request? && e.a.Accepted? && PoolGrows(alg, s, e.a.order, pool'))
  {
    match e {
      case Request(a) => RequestOnPool(alg, s, a);
      case Response(trigger, r) => ResponseOnPool(s, trigger, r);
      case HealthTimer(order, health) =>
        OrderKnown(s, order);
        if |s.requests| == 0 {
          ChecksShrink(s, order, health);
        }
    }
  }

  lemma ChosenIsPosition(alg: Algorithm, m: SchedMap, count: nat)
    requires m != [] && Choose(alg, m, count) > 0
    ensures Position(alg, m, count).Some? && m[Position(alg, m, count).value].fd == Choose(alg, m, count)
  {
  }

  lemma CapacitiesStay(alg: Algorithm, pool: map<int, RealServer>, h: int, c: Margin)
    requires h in pool && MayKeep(alg, pool, c)
    ensures MayKeep(alg, AddLoad(pool, h, 1), c)
  {
    var pool' := AddLoad(pool, h, 1);
    assert pool'.Keys == pool.Keys && forall fd :: fd in pool ==> pool'[fd].maxLoad == pool[fd].maxLoad;
  }

  lemma GrowthKeepsMargin(alg: Algorithm, s: State, order: seq<int>, pool': map<int, RealServer>, c: Margin)
    requires Inv(s) && ServersPositive(s) && PoolGrows(alg, s, order, pool')
    requires MayKeep(alg, s.pool, c) && Kept(s.pool, c)
    ensures MayKeep(alg, pool', c) && Kept(pool', c)
  {
    var m := View(s.pool, order);
    ViewOfPool(alg, s, order, c);
    ChosenIsPosition(alg, m, s.count);
    ChosenKeepsMargin(alg, m, s.count, c);
    CapacitiesStay(alg, s.pool, Choose(alg, m, s.count), c);
  }

  lemma ShrinkingKeepsMargin(alg: Algorithm, pool: map<int, RealServer>, pool': map<int, RealServer>, c: Margin)
    requires PoolShrinks(pool, pool') && MayKeep(alg, pool, c) && Kept(pool, c)
    ensures MayKeep(alg, pool', c) && Kept(pool', c)
  {
  }

  /** The step invariant for the margin. */
  lemma StepKeepsMargin(alg: Algorithm, s: State, e: Event, c: Margin)
    requires Inv(s) && Legal(s, e) && ServersPositive(s) && MayKeep(alg, s.pool, c) && Kept(s.pool, c)
    ensures var t := Step(alg, s, e); MayKeep(alg, t.pool, c) && Kept(t.pool, c) && ServersPositive(t)
  {
    var pool' := Step(alg, s, e).pool;
    StepOnPool(alg, s, e);
    if PoolShrinks(s.pool, pool') {
      ShrinkingKeepsMargin(alg, s.pool, pool', c);
    } else {
      GrowthKeepsMargin(alg, s, e.a.order, pool', c);
    }
  }

  lemma {:induction false} RunKeepsMargin(alg: Algorithm, s: State, events: seq<Event>, t: State, c: Margin)
    requires Inv(s) && Reaches(alg, s, events, t) && ServersPositive(s) && MayKeep(alg, s.pool, c) && Kept(s.pool, c)
    ensures Kept(t.pool, c)
    decreases |events|
  {
    if events != [] {
      StepKeepsInv(alg, s, events[0]);
      StepKeepsMargin(alg, s, events[0], c);
      RunKeepsMargin(alg, Step(alg, s, events[0]), events[1..], t, c);
    }
  }

  // ------------------------------------------------------------------ the conditions are exact

  ghost function AnyOrder(keys: set<int>): (order: seq<int>)
    ensures IsOrder(order, keys)
  {
    if keys == {} then []
    else
      var k := Pick(keys);
      [k] + AnyOrder(keys - {k})
  }

  /** Server `i` of the order has a request to go before its reserve, and its capacity breaks the
      condition with that of server `j` behind it. */
  ghost predicate Tempting(alg: Algorithm, s: State, order: seq<int>, i: nat, j: nat, c: Margin) {
    && IsOrder(order, s.pool.Keys) && i < j < |order|
    && Breaks(alg, s.pool[order[i]].maxLoad, s.pool[order[j]].maxLoad, c)
    && s.pool[order[i]].curLoad <= s.pool[order[i]].maxLoad - 2
  }

  /** A server about to use its last request before the reserve is beaten by the one behind it. */
  lemma LastIsBeaten(alg: Algorithm, a: Slot, b: Slot, c: Margin)
    requires Breaks(alg, a.server.maxLoad, b.server.maxLoad, c)
    requires 0 < a.server.maxLoad && 0 < b.server.maxLoad
    requires a.server.curLoad == a.server.maxLoad - 2 && b.server.curLoad <= b.server.maxLoad - c
    ensures if alg.Least_Connection? then LcBeats(b, a) else WlcBeats(b, a)
  {
    if alg.Weighted_Least_Connection? {
      GapBeats(a.server.maxLoad, b.server.maxLoad);
      MulMonotone(a.server.maxLoad, b.server.curLoad, b.server.maxLoad - 1);
    }
  }

  /** So the scheduler does not select it. */
  lemma NotTheLast(alg: Algorithm, m: SchedMap, count: nat, i: nat, j: nat, c: Margin)
    requires Usable(m) && i < j < |m| && Breaks(alg, m[i].server.maxLoad, m[j].server.maxLoad, c)
    requires m[i].server.curLoad == m[i].server.maxLoad - 2 && m[j].server.curLoad <= m[j].server.maxLoad - c
    ensures Position(alg, m, count) != Some(i)
  {
    LastIsBeaten(alg, m[i], m[j], c);
    if Position(alg, m, count) == Some(i) {
      if alg.Least_Connection? {
        SelectIsBest(m, LcBeats);
      } else {
        WlcRanks(m);
        SelectIsBest(m, WlcBeats);
      }
      assert false;
    }
  }

  /** A request that nothing disturbs, from a client on a new descriptor. */
  ghost function Undisturbed(fd: int, order: seq<int>): Event {
    Request(Accepted(fd, Got, Some(Peer("127.0.0.1", ConvertToString(fd))), order, true))
  }

  lemma {:induction false} NewDescriptor(used: set<int>) returns (fd: int)
    ensures 0 < fd && forall k :: k in used ==> k < fd
    decreases used
  {
    if used == {} {
      return 1;
    }
    var k := Pick(used);
    fd := NewDescriptor(used - {k});
    assert forall k' :: k' in used ==> k' == k || k' in used - {k};
    fd := if fd <= k then k + 1 else fd;
  }

  lemma UndisturbedOutcome(alg: Algorithm, s: State, order: seq<int>, fd: int, h: int)
    requires order != [] && forall i :: 0 <= i < |order| ==> order[i] in s.pool
    requires h == Choose(alg, View(s.pool, order), s.count) && h > 0 && h in s.pool
    ensures var o := OnRequest(alg, s, Undisturbed(fd, order).a);
            o.status == SUCCESS && o.s.pool == AddLoad(s.pool, h, 1)
  {
  }

  lemma UndisturbedIsLegal(s: State, order: seq<int>, fd: int)
    requires Waiting(s) && s.running && IsOrder(order, s.pool.Keys) && fd > 0 && fd !in s.owner && fd !in s.pool
    ensures Legal(s, Undisturbed(fd, order))
  {
    WaitingAnchors(s);
  }

  /** An undisturbed request is forwarded when some server has spare capacity. */
  lemma UndisturbedStep(alg: Algorithm, s: State, order: seq<int>, fd: int, k: nat)
    requires Legal(s, Undisturbed(fd, order)) && order != [] && ServersPositive(s)
    requires forall i :: 0 <= i < |order| ==> order[i] in s.pool
    requires k < |order| && Position(alg, View(s.pool, order), s.count) == Some(k)
    ensures var t := Step(alg, s, Undisturbed(fd, order)); t.running && t.pool == AddLoad(s.pool, order[k], 1)
  {
    assert View(s.pool, order)[k].fd == order[k];
    UndisturbedOutcome(alg, s, order, fd, order[k]);
  }

  /** The flood of requests can go on. */
  ghost predicate Flooding(alg: Algorithm, s: State, order: seq<int>, i: nat, j: nat, c: Margin) {
    Inv(s) && s.running && CapacitiesPositive(s) && Kept(s.pool, c) && Tempting(alg, s, order, i, j, c)
  }

  /** The scheduler finds some server, and not the tempting one at its last request. */
  lemma SomeOtherPosition(alg: Algorithm, s: State, order: seq<int>, i: nat, j: nat, c: Margin)
    requires Flooding(alg, s, order, i, j, c)
    ensures forall k :: 0 <= k < |order| ==> order[k] in s.pool
    ensures Position(alg, View(s.pool, order), s.count).Some?
    ensures s.pool[order[i]].curLoad == s.pool[order[i]].maxLoad - 2 ==>
              Position(alg, View(s.pool, order), s.count) != Some(i)
  {
    OrderKnown(s, order);
    ViewOfPool(alg, s, order, c);
    var m := View(s.pool, order);
    assert HasSpare(m[i]);
    if s.pool[order[i]].curLoad == s.pool[order[i]].maxLoad - 2 {
      NotTheLast(alg, m, s.count, i, j, c);
    }
  }

  lemma StillTempting(alg: Algorithm, s: State, t: State, order: seq<int>, i: nat, j: nat, k: nat, c: Margin)
    requires Tempting(alg, s, order, i, j, c) && k < |order|
    requires s.pool[order[i]].curLoad == s.pool[order[i]].maxLoad - 2 ==> k != i
    requires t.pool == AddLoad(s.pool, order[k], 1)
    ensures Tempting(alg, t, order, i, j, c)
  {
    assert t.pool.Keys == s.pool.Keys;
  }

  function RoomOf(pool: map<int, RealServer>): map<int, int> {
    map fd | fd in pool :: pool[fd].maxLoad - pool[fd].curLoad
  }

  lemma RoomShrinks(pool: map<int, RealServer>, h: int, c: Margin)
    requires h in pool && Kept(pool, c)
    ensures Sum(RoomOf(AddLoad(pool, h, 1))) == Sum(RoomOf(pool)) - 1 && Sum(RoomOf(pool)) >= 0
  {
    var room := RoomOf(pool);
    assert RoomOf(AddLoad(pool, h, 1)) == room[h := room[h] - 1];
    SumUpdates(room, h, room[h] - 1);
    SumIsPositive(room, room.Keys);
  }

  lemma FloodGoesOn(alg: Algorithm, s: State, order: seq<int>, i: nat, j: nat, fd: int, c: Margin)
    requires Flooding(alg, s, order, i, j, c) && fd > 0 && fd !in s.owner && fd !in s.pool
    ensures Legal(s, Undisturbed(fd, order))
    ensures var t := Step(alg, s, Undisturbed(fd, order));
            && (Kept(t.pool, c) ==> Flooding(alg, t, order, i, j, c))
            && Sum(RoomOf(t.pool)) < Sum(RoomOf(s.pool)) && Sum(RoomOf(s.pool)) >= 0
  {
    SomeOtherPosition(alg, s, order, i, j, c);
    var k := Position(alg, View(s.pool, order), s.count).value;
    UndisturbedIsLegal(s, order, fd);
    UndisturbedStep(alg, s, order, fd, k);
    var t := Step(alg, s, Undisturbed(fd, order));
    StillTempting(alg, s, t, order, i, j, k, c);
    RoomShrinks(s.pool, order[k], c);
    StepKeepsInv(alg, s, Undisturbed(fd, order));
  }

  ghost predicate Overruns(alg: Algorithm, s: State, events: seq<Event>, c: Margin) {
    exists t :: Reaches(alg, s, events, t) && !Kept(t.pool, c)
  }

  lemma OneEventMore(alg: Algorithm, s: State, e: Event, events: seq<Event>, c: Margin)
    requires Legal(s, e) && Overruns(alg, Step(alg, s, e), events, c)
    ensures Overruns(alg, s, [e] + events, c)
  {
    var t :| Reaches(alg, Step(alg, s, e), events, t) && !Kept(t.pool, c);
    assert ([e] + events)[1..] == events;
    assert Reaches(alg, s, [e] + events, t);
  }

  lemma NoEvent(alg: Algorithm, s: State, c: Margin)
    requires !Kept(s.pool, c)
    ensures Overruns(alg, s, [], c)
  {
    assert Reaches(alg, s, [], s);
  }

  /** Undisturbed requests, none of them answered, use up the margin of some server sooner or later. */
  lemma {:induction false} FloodOverruns(alg: Algorithm, s: State, order: seq<int>, i: nat, j: nat, c: Margin)
    returns (events: seq<Event>)
    requires Flooding(alg, s, order, i, j, c)
    ensures Overruns(alg, s, events, c)
    decreases Sum(RoomOf(s.pool))
  {
    var fd := NewDescriptor(s.owner.Keys + s.pool.Keys);
    FloodGoesOn(alg, s, order, i, j, fd, c);
    var e := Undisturbed(fd, order);
    var t := Step(alg, s, e);
    events := [];
    if Kept(t.pool, c) {
      events := FloodOverruns(alg, t, order, i, j, c);
    } else {
      NoEvent(alg, t, c);
    }
    OneEventMore(alg, s, e, events, c);
    events := [e] + events;
  }

  lemma TwoFirst(keys: set<int>, a: int, b: int) returns (order: seq<int>)
    requires a in keys && b in keys && a != b
    ensures IsOrder(order, keys) && |order| >= 2 && order[0] == a && order[1] == b
  {
    var rest := AnyOrder(keys - {a, b});
    order := [a, b] + rest;
    assert forall k :: k in keys ==> k == a || k == b || k in rest;
    assert order[0] == a && order[1] == b && forall k :: k in rest ==> k in order;
  }

  lemma BreakingPair(alg: Algorithm, pool: map<int, RealServer>, c: Margin) returns (a: int, b: int)
    requires !MayKeep(alg, pool, c) && forall fd :: fd in pool ==> 1 <= pool[fd].maxLoad
    ensures a in pool && b in pool && Breaks(alg, pool[a].maxLoad, pool[b].maxLoad, c)
    ensures a != b
    ensures pool[a].maxLoad >= 2
  {
    assert alg.Least_Connection? || alg.Weighted_Least_Connection?;
    a, b :| a in pool && b in pool && Breaks(alg, pool[a].maxLoad, pool[b].maxLoad, c);
    assert 1 <= pool[a].maxLoad && 1 <= pool[b].maxLoad;
  }

  /** An order of the pool that tempts. */
  lemma ConditionBroken(alg: Algorithm, s: State, c: Margin) returns (order: seq<int>)
    requires !MayKeep(alg, s.pool, c) && CapacitiesPositive(s) && forall fd :: fd in s.pool ==> s.pool[fd].curLoad == 0
    ensures Tempting(alg, s, order, 0, 1, c)
  {
    var a, b := BreakingPair(alg, s.pool, c);
    order := TwoFirst(s.pool.Keys, a, b);
  }

  lemma StartIsSafe(s: State, c: Margin)
    requires Initial(s) && CapacitiesPositive(s)
    ensures Inv(s) && s.running && Kept(s.pool, c) && forall fd :: fd in s.pool ==> s.pool[fd].curLoad == 0
  {
    InitialInv(s);
  }

  lemma SomeRunOverruns(alg: Algorithm, s: State, c: Margin) returns (events: seq<Event>)
    requires Initial(s) && CapacitiesPositive(s) && !MayKeep(alg, s.pool, c)
    ensures Overruns(alg, s, events, c)
  {
    StartIsSafe(s, c);
    var order := ConditionBroken(alg, s, c);
    events := FloodOverruns(alg, s, order, 0, 1, c);
  }

  /** For every algorithm and every start of the balancer: no run uses up the margin of any server
      exactly when the capacities satisfy the condition, which can be read off the configuration.

      With the reserve as margin, RR, WRR, DH and SH always satisfy it, LC if no two capacities differ
      by two or more, WLC if none is more than twice another.  With no margin, WLC always satisfies it
      as well, LC if no two capacities differ by three or more: beyond that, LC overloads a server. */
  lemma MarginKeptIff(alg: Algorithm, s: State, c: Margin)
    requires Initial(s) && CapacitiesPositive(s)
    ensures (forall events :: !Overruns(alg, s, events, c)) <==> MayKeep(alg, s.pool, c)
  {
    if MayKeep(alg, s.pool, c) {
      StartIsSafe(s, c);
      forall events | Overruns(alg, s, events, c)
        ensures false
      {
        var t :| Reaches(alg, s, events, t) && !Kept(t.pool, c);
        RunKeepsMargin(alg, s, events, t, c);
      }
    } else {
      var events := SomeRunOverruns(alg, s, c);
      assert Overruns(alg, s, events, c);
    }
  }
}
