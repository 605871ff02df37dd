/** Round Robin inside the balancer: no server with spare capacity is passed over for long. */
module RoundRobinRuns {
  import opened Options
  import opened Schedulers
  import opened Balancer
  import opened BalancerRuns

  /** The event asks the scheduler. */
  predicate Schedules(e: Event) {
    e.Request? && e.a.Accepted? && e.a.read == Got && e.a.name.Some? && e.a.order != []
  }

  /** The pool keeps its servers, in one iteration order, and server `order[p]` has spare capacity whenever
      the scheduler is asked; the loads are free otherwise. */
  ghost predicate Patient(s: State, events: seq<Event>, order: seq<int>, p: nat)
    decreases |events|
  {
    && IsOrder(order, s.pool.Keys) && p < |order|
    && (events != [] ==>
          && Legal(s, events[0])
          && (Schedules(events[0]) ==> events[0].a.order == order && HasSpare(Slot(order[p], s.pool[order[p]])))
          && Patient(Step(Round_Robin, s, events[0]), events[1..], order, p))
  }

  /** The map lists the servers of the pool in this order. */
  predicate Lists(m: SchedMap, order: seq<int>) {
    |m| == |order| && forall i :: 0 <= i < |m| ==> m[i].fd == order[i]
  }

  /** The map that the scheduler is given. */
  ghost function MapIn(s: State, order: seq<int>): (m: SchedMap)
    requires IsOrder(order, s.pool.Keys)
    ensures Lists(m, order)
    ensures forall i :: 0 <= i < |m| ==> order[i] in s.pool && m[i] == Slot(order[i], s.pool[order[i]])
  {
    OrderKnown(s, order);
    View(s.pool, order)
  }

  /** What the scheduler is asked with: the map, and the counter as the last call left it. */
  datatype Ask = Ask(pool: SchedMap, count: nat)
  {
    /** What the balancer schedules the request to. */
    function Chosen(): int
      requires pool != []
    {
      Choose(Round_Robin, pool, count)
    }
  }

  ghost function Asks(s: State, events: seq<Event>, order: seq<int>, p: nat): (asks: seq<Ask>)
    requires Patient(s, events, order, p)
    ensures forall k :: 0 <= k < |asks| ==> Lists(asks[k].pool, order)
    decreases |events|
  {
    if events == [] then []
    else
      var rest := Asks(Step(Round_Robin, s, events[0]), events[1..], order, p);
      if Schedules(events[0]) then [Ask(MapIn(s, order), s.count)] + rest else rest
  }

  /** Only these events move the counter, and as one call of the scheduler does. */
  lemma CounterMoves(s: State, e: Event)
    requires Legal(s, e)
    ensures Step(Round_Robin, s, e).count ==
              if Schedules(e) then NextCount(MapIn(s, e.a.order), s.count) else s.count
  {
    match e {
      case Request(a) =>
        if a.Accepted? {
          OrderKnown(s, a.order);
        }
      case Response(trigger, r) =>
      case HealthTimer(order, health) =>
        OrderKnown(s, order);
        ChecksKeepCount(s, order, health);
    }
  }

  lemma {:induction false} ChecksKeepCount(s: State, order: seq<int>, health: map<int, Health>)
    requires forall fd :: fd in order ==> fd in health
    ensures CheckAll(s, order, health).count == s.count
    decreases |order|
  {
    if order != [] {
      ChecksKeepCount(CheckOne(s, order[0], health[order[0]]), order[1..], health);
    }
  }

  /** Each map is that of `n` servers with spare capacity at `p`, and each counter is what the call before
      left. */
  predicate Chained(asks: seq<Ask>, count: nat, n: nat, p: nat)
    decreases |asks|
  {
    asks != [] ==>
      && p < n == |asks[0].pool| && HasSpare(asks[0].pool[p])
      && asks[0].count == count
      && Chained(asks[1..], NextCount(asks[0].pool, count), n, p)
  }

  lemma {:induction false} AsksAreChained(s: State, events: seq<Event>, order: seq<int>, p: nat)
    requires Patient(s, events, order, p)
    ensures Chained(Asks(s, events, order, p), s.count, |order|, p)
    decreases |events|
  {
    if events != [] {
      CounterMoves(s, events[0]);
      AsksAreChained(Step(Round_Robin, s, events[0]), events[1..], order, p);
    }
  }

  function MapsOf(asks: seq<Ask>): (maps: seq<SchedMap>)
    ensures |maps| == |asks| && forall i :: 0 <= i < |asks| ==> maps[i] == asks[i].pool
  {
    seq(|asks|, i requires 0 <= i < |asks| => asks[i].pool)
  }

  lemma {:induction false} ChainedMaps(asks: seq<Ask>, count: nat, n: nat, p: nat)
    requires Chained(asks, count, n, p)
    ensures forall i :: 0 <= i < |asks| ==> p < n == |asks[i].pool| && HasSpare(asks[i].pool[p])
    decreases |asks|
  {
    if asks != [] {
      ChainedMaps(asks[1..], NextCount(asks[0].pool, count), n, p);
    }
  }

  /** So the choices are those of successive calls of Round Robin. */
  lemma {:induction false} ChainedCalls(asks: seq<Ask>, count: nat, n: nat, p: nat, k: nat)
    requires Chained(asks, count, n, p) && k < |asks|
    requires forall i :: 0 <= i < |asks| ==> asks[i].pool != []
    ensures RrRun(MapsOf(asks), count)[k] == Probe(asks[k].pool, asks[k].count % |asks[k].pool|)
    decreases |asks|
  {
    assert MapsOf(asks)[1..] == MapsOf(asks[1..]);
    if k > 0 {
      ChainedCalls(asks[1..], NextCount(asks[0].pool, count), n, p, k - 1);
    }
  }

  lemma ChainedBypass(asks: seq<Ask>, count: nat, n: nat, p: nat) returns (k: nat)
    requires Chained(asks, count, n, p) && p < n && |asks| > Distance(count % n, p, n)
    requires forall i :: 0 <= i < |asks| ==> asks[i].pool != []
    ensures k <= Distance(count % n, p, n) && k < |asks|
    ensures Probe(asks[k].pool, asks[k].count % |asks[k].pool|) == Some(p)
  {
    ChainedMaps(asks, count, n, p);
    RrBoundedBypass(MapsOf(asks), count, n, p);
    k :| 0 <= k <= Distance(count % n, p, n) && RrRun(MapsOf(asks), count)[k] == Some(p);
    ChainedCalls(asks, count, n, p, k);
  }

  /** Bounded bypass for the balancer, over every run: when the scheduler is asked more often than the server
      is slots away from the counter, one of these requests is scheduled to that server. */
  lemma NobodyIsPassedOver(s: State, events: seq<Event>, order: seq<int>, p: nat)
    requires Patient(s, events, order, p)
    requires |Asks(s, events, order, p)| > Distance(s.count % |order|, p, |order|)
    ensures exists k: nat ::
              && k <= Distance(s.count % |order|, p, |order|)
              && Asks(s, events, order, p)[k].pool != [] && Asks(s, events, order, p)[k].Chosen() == order[p]
  {
    var asks := Asks(s, events, order, p);
    AsksAreChained(s, events, order, p);
    var k := ChainedBypass(asks, s.count, |order|, p);
    assert asks[k].Chosen() == order[p];
  }
}
