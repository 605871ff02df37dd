/** What each event of the balancer does, in every reachable state, told in terms of the balancer's tables
    alone: which server gets a request, who is refused, where a response goes, who survives a health check. */
module Outcomes {
  import Sums
  import opened Options
  import opened Schedulers
  import opened Balancer
  import opened BalancerRuns
  import opened CapacityRuns

  // ------------------------------------------------------------------ which server an algorithm owes the request to

  predicate Spare(r: RealServer) {
    r.curLoad < r.maxLoad - 1
  }

  /** Position `k` is the first one with spare capacity, going around from `start`. */
  ghost predicate FirstAround(pool: map<int, RealServer>, order: seq<int>, start: nat, k: nat)
    requires (forall i :: 0 <= i < |order| ==> order[i] in pool) && start < |order| && k < |order|
  {
    && Spare(pool[order[k]])
    && forall j :: 0 <= j < |order| && Spare(pool[order[j]]) ==>
         (k + |order| - start) % |order| <= (j + |order| - start) % |order|
  }

  /** Position `j` has spare capacity, or one in front of it. */
  ghost predicate Behind(pool: map<int, RealServer>, order: seq<int>, j: int)
    requires forall i :: 0 <= i < |order| ==> order[i] in pool
  {
    0 <= j < |order| && exists i :: 0 <= i <= j && Spare(pool[order[i]])
  }

  /** The server at position `k` is the one that the algorithm stands for. */
  ghost predicate Deserves(alg: Algorithm, pool: map<int, RealServer>, order: seq<int>, count: nat, k: nat)
    requires (forall i :: 0 <= i < |order| ==> order[i] in pool) && k < |order|
  {
    match alg
    case Round_Robin => FirstAround(pool, order, count % |order|, k)
    case Hashing(ip, _) =>
      ip.Some? && FirstAround(pool, order, ip.value % 4096 * 2481 % 4096 % |order|, k)
    case Weighted_Round_Robin =>
      && Spare(pool[order[k]])
      && (forall j :: 0 <= j < |order| ==>
            pool[order[j]].maxLoad - pool[order[j]].curLoad <= pool[order[k]].maxLoad - pool[order[k]].curLoad)
      && (forall j :: 0 <= j < k && Spare(pool[order[j]]) ==>
            pool[order[j]].maxLoad - pool[order[j]].curLoad < pool[order[k]].maxLoad - pool[order[k]].curLoad)
    case Least_Connection =>
      && Behind(pool, order, k)
      && (forall j :: Behind(pool, order, j) ==> pool[order[k]].curLoad <= pool[order[j]].curLoad)
      && (forall j :: Behind(pool, order, j) && j < k ==> pool[order[k]].curLoad < pool[order[j]].curLoad)
    case Weighted_Least_Connection =>
      && Behind(pool, order, k)
      && (forall j :: Behind(pool, order, j) ==>
            pool[order[k]].curLoad * pool[order[j]].maxLoad <= pool[order[j]].curLoad * pool[order[k]].maxLoad)
      && (forall j :: Behind(pool, order, j) && j < k ==>
            pool[order[k]].curLoad * pool[order[j]].maxLoad < pool[order[j]].curLoad * pool[order[k]].maxLoad)
  }

  ghost predicate SomeoneSpare(pool: map<int, RealServer>) {
    exists fd :: fd in pool && Spare(pool[fd])
  }

  predicate AddressOk(alg: Algorithm) {
    alg.Hashing? ==> alg.ip.Some?
  }

  lemma SpareSlots(s: State, order: seq<int>)
    requires IsOrder(order, s.pool.Keys)
    ensures forall i :: 0 <= i < |order| ==> order[i] in s.pool
    ensures SomeoneSpare(s.pool) <==> SomeSpare(View(s.pool, order))
    ensures forall j :: Behind(s.pool, order, j) <==> InLine(View(s.pool, order), j)
  {
    var m := View(s.pool, order);
    if SomeoneSpare(s.pool) {
      var fd :| fd in s.pool && Spare(s.pool[fd]);
      var k :| 0 <= k < |order| && order[k] == fd;
      assert m[k].server.curLoad < m[k].server.maxLoad - 1;
    }
    if SomeSpare(m) {
      var k :| 0 <= k < |m| && m[k].server.curLoad < m[k].server.maxLoad - 1;
      assert Spare(s.pool[order[k]]);
    }
    forall j
      ensures Behind(s.pool, order, j) <==> InLine(m, j)
    {
      BehindIff(s, order, j);
    }
  }

  lemma BehindIff(s: State, order: seq<int>, j: int)
    requires forall i :: 0 <= i < |order| ==> order[i] in s.pool
    ensures Behind(s.pool, order, j) <==> InLine(View(s.pool, order), j)
  {
    var m := View(s.pool, order);
    if InLine(m, j) {
      var i :| 0 <= i <= j && m[i].server.curLoad < m[i].server.maxLoad - 1;
      assert Spare(s.pool[order[i]]);
    }
    if Behind(s.pool, order, j) {
      var i :| 0 <= i <= j && Spare(s.pool[order[i]]);
      assert m[i].server.curLoad < m[i].server.maxLoad - 1;
    }
  }

  lemma ProbeFirstAround(s: State, order: seq<int>, start: nat)
    requires (forall i :: 0 <= i < |order| ==> order[i] in s.pool) && start < |order|
    requires SomeSpare(View(s.pool, order))
    ensures var r := Probe(View(s.pool, order), start); r.Some? && FirstAround(s.pool, order, start, r.value)
  {
    var m := View(s.pool, order);
    var k :| 0 <= k < |m| && m[k].server.curLoad < m[k].server.maxLoad - 1;
    assert HasSpare(m[k]);
    ProbeIsNext(m, start);
    forall j | 0 <= j < |order| && Spare(s.pool[order[j]])
      ensures HasSpare(m[j])
    {
    }
  }

  lemma ProbeIsNext(m: SchedMap, start: nat)
    requires start < |m|
    ensures var r := Probe(m, start);
            forall j :: 0 <= j < |m| && HasSpare(m[j]) ==>
              r.Some? && HasSpare(m[r.value]) && (r.value + |m| - start) % |m| <= (j + |m| - start) % |m|
  {
    ProbeIsFirstSpare(m, start);
    forall j | 0 <= j < |m| && HasSpare(m[j])
      ensures (Probe(m, start).value + |m| - start) % |m| <= (j + |m| - start) % |m|
    {
      DistanceIs(start, Probe(m, start).value, |m|);
      DistanceIs(start, j, |m|);
    }
  }

  lemma DistanceIs(p: nat, s: nat, n: nat)
    requires p < n && s < n
    ensures Distance(p, s, n) == (s + n - p) % n
  {
    ModUnique(s + n - p, if p <= s then 1 else 0, Distance(p, s, n), n);
  }

  /** How far Round Robin's counter moves among `n` servers: past the ones in front of the chosen one and
      past that one; past all, if none is chosen. */
  function Moved(alg: Algorithm, count: nat, choice: Option<nat>, n: nat): nat
    requires 0 < n
  {
    if !alg.Round_Robin? then 0
    else
      match choice
      case Some(k) => (k + n - count % n) % n + 1
      case None => n
  }

  lemma CountMoves(alg: Algorithm, m: SchedMap, count: nat)
    requires m != []
    ensures CountAfter(alg, m, count) == count + Moved(alg, count, Position(alg, m, count), |m|)
  {
    var k := Probe(m, count % |m|);
    if k.Some? {
      DistanceIs(count % |m|, k.value, |m|);
    }
  }

  lemma ProbeNobody(m: SchedMap, start: nat)
    requires start < |m| && !SomeSpare(m)
    ensures Probe(m, start).None?
  {
    ProbeIsFirstSpare(m, start);
    forall i | 0 <= i < |m|
      ensures !HasSpare(m[i])
    {
      assert !(m[i].server.curLoad < m[i].server.maxLoad - 1);
    }
  }

  /** The scheduler finds a server exactly if one has spare capacity, and then the one that deserves it. */
  lemma PositionDeserves(alg: Algorithm, s: State, order: seq<int>)
    requires Inv(s) && CapacitiesPositive(s) && IsOrder(order, s.pool.Keys) && order != [] && AddressOk(alg)
    ensures forall i :: 0 <= i < |order| ==> order[i] in s.pool
    ensures var r := Position(alg, View(s.pool, order), s.count);
            && (r.Some? <==> SomeoneSpare(s.pool))
            && (r.Some? ==> Deserves(alg, s.pool, order, s.count, r.value))
  {
    SpareSlots(s, order);
    var m := View(s.pool, order);
    match alg {
      case Round_Robin => AroundDeserves(s, order, s.count % |order|);
      case Hashing(ip, width) =>
        HashIsLowBits(ip.value, width);
        AroundDeserves(s, order, HashKey(ip.value, width) % |order|);
      case Weighted_Round_Robin => WrrDeserves(s, order);
      case Least_Connection => LcDeserves(s, order);
      case Weighted_Least_Connection =>
        ViewIsSane(s, order);
        WlcDeserves(s, order);
    }
  }

  lemma AroundDeserves(s: State, order: seq<int>, start: nat)
    requires (forall i :: 0 <= i < |order| ==> order[i] in s.pool) && start < |order|
    ensures var r := Probe(View(s.pool, order), start);
            && (r.Some? <==> SomeSpare(View(s.pool, order)))
            && (r.Some? ==> FirstAround(s.pool, order, start, r.value))
  {
    if SomeSpare(View(s.pool, order)) {
      ProbeFirstAround(s, order, start);
    } else {
      ProbeNobody(View(s.pool, order), start);
    }
  }

  lemma WrrDeserves(s: State, order: seq<int>)
    requires forall i :: 0 <= i < |order| ==> order[i] in s.pool
    ensures var r := Select(View(s.pool, order), WrrBeats);
            && (r.Some? <==> SomeSpare(View(s.pool, order)))
            && (r.Some? ==> Deserves(Weighted_Round_Robin, s.pool, order, s.count, r.value))
  {
    SelectFindsIff(View(s.pool, order), WrrBeats);
    if SomeSpare(View(s.pool, order)) {
      WrrOptimal(View(s.pool, order));
    }
  }

  lemma LcDeserves(s: State, order: seq<int>)
    requires forall i :: 0 <= i < |order| ==> order[i] in s.pool
    ensures var r := Select(View(s.pool, order), LcBeats);
            && (r.Some? <==> SomeSpare(View(s.pool, order)))
            && (r.Some? ==> Deserves(Least_Connection, s.pool, order, s.count, r.value))
  {
    var m := View(s.pool, order);
    SelectFindsIff(m, LcBeats);
    if SomeSpare(m) {
      LcOptimal(m);
      forall j
        ensures Behind(s.pool, order, j) <==> InLine(m, j)
      {
        BehindIff(s, order, j);
      }
    }
  }

  lemma WlcDeserves(s: State, order: seq<int>)
    requires (forall i :: 0 <= i < |order| ==> order[i] in s.pool) && Sane(View(s.pool, order))
    ensures var r := Select(View(s.pool, order), WlcBeats);
            && (r.Some? <==> SomeSpare(View(s.pool, order)))
            && (r.Some? ==> Deserves(Weighted_Least_Connection, s.pool, order, s.count, r.value))
  {
    var m := View(s.pool, order);
    SelectFindsIff(m, WlcBeats);
    if SomeSpare(m) {
      WlcOptimal(m);
      forall j
        ensures Behind(s.pool, order, j) <==> InLine(m, j)
      {
        BehindIff(s, order, j);
      }
    }
  }

  lemma ViewIsSane(s: State, order: seq<int>)
    requires Inv(s) && CapacitiesPositive(s) && forall i :: 0 <= i < |order| ==> order[i] in s.pool
    ensures Sane(View(s.pool, order))
  {
  }

  // ------------------------------------------------------------------ requests

  /** The connection is known by name, its request was read, and there are servers. */
  predicate Asks(a: Accept) {
    a.Accepted? && a.read == Got && a.name.Some? && a.order != []
  }

  /** From `s` to `t`, the request went to server `h`. */
  ghost predicate IsForwarded(s: State, t: State, a: Accept, h: int)
    requires Asks(a) && h in s.pool
  {
    t == s.(pool := s.pool[h := s.pool[h].(curLoad := s.pool[h].curLoad + 1)],
            requests := s.requests + [Entry(a.name.value, a.fd)],
            owed := s.owed + {Owed(h, ReplyTo(|s.conns|))},
            conns := s.conns + [Conn(a.name, 0)], owner := s.owner[a.fd := |s.conns|],
            count := t.count)
  }

  /** A request that is written goes to the server that deserves it: one more node, one more load there, one
      more reply owed, and nothing else but the new connection and the counter. */
  lemma RequestIsForwarded(alg: Algorithm, s: State, a: Accept) returns (k: nat)
    requires Inv(s) && CapacitiesPositive(s) && Legal(s, Request(a)) && Asks(a) && AddressOk(alg)
    requires SomeoneSpare(s.pool) && a.written
    ensures (forall i :: 0 <= i < |a.order| ==> a.order[i] in s.pool) && k < |a.order|
    ensures Deserves(alg, s.pool, a.order, s.count, k)
    ensures var h, t := a.order[k], Step(alg, s, Request(a));
            IsForwarded(s, t, a, h) && t.count == s.count + Moved(alg, s.count, Some(k), |a.order|)
  {
    k := Deserving(alg, s, a.order);
    ForwardedTo(alg, s, a, a.order[k]);
  }

  /** The position that the algorithm finds. */
  lemma Deserving(alg: Algorithm, s: State, order: seq<int>) returns (k: nat)
    requires Inv(s) && CapacitiesPositive(s) && IsOrder(order, s.pool.Keys) && order != [] && AddressOk(alg)
    requires SomeoneSpare(s.pool)
    ensures (forall i :: 0 <= i < |order| ==> order[i] in s.pool) && k < |order|
    ensures Deserves(alg, s.pool, order, s.count, k)
    ensures Choose(alg, View(s.pool, order), s.count) == order[k] && order[k] > 0
    ensures CountAfter(alg, View(s.pool, order), s.count) == s.count + Moved(alg, s.count, Some(k), |order|)
  {
    PositionDeserves(alg, s, order);
    CountMoves(alg, View(s.pool, order), s.count);
    k := Position(alg, View(s.pool, order), s.count).value;
    ChosenIs(alg, s, order, k);
  }

  lemma ForwardedTo(alg: Algorithm, s: State, a: Accept, h: int)
    requires Legal(s, Request(a)) && Asks(a) && a.written && h in s.pool && h > 0
    requires forall i :: 0 <= i < |a.order| ==> a.order[i] in s.pool
    requires Choose(alg, View(s.pool, a.order), s.count) == h
    ensures var t := Step(alg, s, Request(a));
            IsForwarded(s, t, a, h) && t.count == CountAfter(alg, View(s.pool, a.order), s.count)
  {
  }

  lemma ChosenIs(alg: Algorithm, s: State, order: seq<int>, k: nat)
    requires CapacitiesPositive(s) && order != [] && AddressOk(alg)
    requires forall i :: 0 <= i < |order| ==> order[i] in s.pool
    requires Position(alg, View(s.pool, order), s.count) == Some(k) && k < |order|
    ensures Choose(alg, View(s.pool, order), s.count) == order[k] && order[k] > 0
  {
  }

  /** From `s` to `t`, server `h` left all tables with what it owes, and the client got nothing. */
  ghost predicate IsDropped(s: State, t: State, a: Accept, h: int)
    requires Asks(a) && h in s.pool
  {
    && t.running && t.requests == s.requests && t.log == s.log && t.target == s.target
    && t.pool == s.pool - {h} && t.serverFds == s.serverFds - {h}
    && (forall o :: o in t.owed <==> o in s.owed && o.fd != h)
    && t.conns == s.conns + [Conn(a.name, 0)] && t.owner == s.owner[a.fd := |s.conns|]
    && t.removedLoad == s.removedLoad + s.pool[h].curLoad
  }

  /** If it cannot be written, that server leaves, and the client gets nothing. */
  lemma BrokenServerIsDropped(alg: Algorithm, s: State, a: Accept) returns (k: nat)
    requires Inv(s) && CapacitiesPositive(s) && Legal(s, Request(a)) && Asks(a) && AddressOk(alg)
    requires SomeoneSpare(s.pool) && !a.written
    ensures (forall i :: 0 <= i < |a.order| ==> a.order[i] in s.pool) && k < |a.order|
    ensures Deserves(alg, s.pool, a.order, s.count, k)
    ensures var h, t := a.order[k], Step(alg, s, Request(a));
            IsDropped(s, t, a, h) && t.count == s.count + Moved(alg, s.count, Some(k), |a.order|)
  {
    k := Deserving(alg, s, a.order);
    DroppedAt(alg, s, a, a.order[k]);
  }

  lemma DroppedAt(alg: Algorithm, s: State, a: Accept, h: int)
    requires Legal(s, Request(a)) && Asks(a) && !a.written && h in s.pool && h > 0
    requires forall i :: 0 <= i < |a.order| ==> a.order[i] in s.pool
    requires Choose(alg, View(s.pool, a.order), s.count) == h
    ensures var t := Step(alg, s, Request(a));
            IsDropped(s, t, a, h) && t.count == CountAfter(alg, View(s.pool, a.order), s.count)
  {
  }

  /** From `s` to `t`, the client got one reply, if it can be written, and nothing else happened. */
  ghost predicate IsRefused(s: State, t: State, a: Accept)
    requires Asks(a)
  {
    t == s.(conns := s.conns + [Conn(a.name, if a.written then 1 else 0)], owner := s.owner[a.fd := |s.conns|],
            count := t.count)
  }

  /** Without spare capacity, or with an address that the hash cannot read, the client is refused. */
  lemma RequestIsRefused(alg: Algorithm, s: State, a: Accept)
    requires Inv(s) && CapacitiesPositive(s) && Legal(s, Request(a)) && Asks(a)
    requires AddressOk(alg) ==> !SomeoneSpare(s.pool)
    ensures var t := Step(alg, s, Request(a));
            IsRefused(s, t, a) && t.count == s.count + Moved(alg, s.count, None, |a.order|)
  {
    OrderKnown(s, a.order);
    NobodyIsFound(alg, s, a.order);
    RefusedBy(alg, s, a);
  }

  lemma NobodyIsFound(alg: Algorithm, s: State, order: seq<int>)
    requires Inv(s) && CapacitiesPositive(s) && IsOrder(order, s.pool.Keys) && order != []
    requires forall i :: 0 <= i < |order| ==> order[i] in s.pool
    requires AddressOk(alg) ==> !SomeoneSpare(s.pool)
    ensures Position(alg, View(s.pool, order), s.count).None?
    ensures CountAfter(alg, View(s.pool, order), s.count) == s.count + Moved(alg, s.count, None, |order|)
  {
    if AddressOk(alg) {
      PositionDeserves(alg, s, order);
    }
    CountMoves(alg, View(s.pool, order), s.count);
  }

  lemma RefusedBy(alg: Algorithm, s: State, a: Accept)
    requires Legal(s, Request(a)) && Asks(a)
    requires forall i :: 0 <= i < |a.order| ==> a.order[i] in s.pool
    requires Position(alg, View(s.pool, a.order), s.count).None?
    ensures var t := Step(alg, s, Request(a));
            IsRefused(s, t, a) && t.count == CountAfter(alg, View(s.pool, a.order), s.count)
  {
  }

  /** A connection that cannot be read or named stays open and unanswered; without servers the balancer
      stops, and so it does when it cannot accept. */
  lemma RequestIsNotScheduled(alg: Algorithm, s: State, a: Accept)
    requires Legal(s, Request(a)) && !Asks(a)
    ensures var t := Step(alg, s, Request(a));
            if a.AcceptFailed? then t == s.(running := false)
            else
              var name := if a.read == Got then a.name else None;
              t == s.(conns := s.conns + [Conn(name, 0)], owner := s.owner[a.fd := |s.conns|],
                      running := a.read != Got || a.name.None?)
  {
    if a.Accepted? {
      OrderKnown(s, a.order);
    }
  }

  // ------------------------------------------------------------------ responses

  /** A server whose connection ended leaves all tables; with the last one the balancer stops. */
  lemma EndedServerIsDropped(alg: Algorithm, s: State, trigger: int)
    requires Legal(s, Event.Response(trigger, NoResponse))
    ensures var t := Step(alg, s, Event.Response(trigger, NoResponse));
            && t.pool == s.pool - {trigger} && t.serverFds == s.serverFds - {trigger}
            && (forall o :: o in t.owed <==> o in s.owed && o.fd != trigger)
            && t.requests == s.requests && t.conns == s.conns && t.owner == s.owner && t.log == s.log
            && t.target == s.target && t.count == s.count
            && (t.running <==> t.pool != map[])
  {
  }

  /** The peer that a response names; a field that it lacks is that of the response before. */
  function Named(s: State, r: Response): Peer
    requires r.Responded?
  {
    Peer(if r.ip.Some? then r.ip.value else s.target.addr, if r.port.Some? then r.port.value else s.target.port)
  }

  /** Node `k` is the first one of the peer. */
  predicate FirstOf(requests: seq<Entry>, p: Peer, k: nat) {
    k < |requests| && requests[k].peer == p && forall i :: 0 <= i < k ==> requests[i].peer != p
  }

  lemma MatchIs(requests: seq<Entry>, p: Peer, k: nat)
    ensures FirstOf(requests, p, k) ==> Match(requests, p, 0) == k
    ensures (forall i :: 0 <= i < |requests| ==> requests[i].peer != p) ==> Match(requests, p, 0) == |requests|
  {
  }

  /** Nobody waits under that name: the response is dropped, and its server keeps the load. */
  lemma UnknownResponseIsDropped(alg: Algorithm, s: State, trigger: int, r: Response)
    requires Legal(s, Event.Response(trigger, r)) && r.Responded?
    requires forall i :: 0 <= i < |s.requests| ==> s.requests[i].peer != Named(s, r)
    ensures var t := Step(alg, s, Event.Response(trigger, r));
            && t.pool == s.pool && t.serverFds == s.serverFds && t.requests == s.requests
            && t.conns == s.conns && t.owner == s.owner && t.log == s.log && t.count == s.count
            && t.owed == s.owed - {Owed(trigger, r.what)} && t.target == Named(s, r) && t.running
  {
    MatchIs(s.requests, Named(s, r), 0);
  }

  /** Somebody does: the first node of that name is gone, its client gets the response if it can be written,
      its descriptor is closed if that succeeds, and only then the server has one load less. */
  lemma ResponseIsDelivered(alg: Algorithm, s: State, trigger: int, r: Response, k: nat)
    requires Inv(s) && Legal(s, Event.Response(trigger, r)) && r.Responded? && FirstOf(s.requests, Named(s, r), k)
    ensures var t, fd := Step(alg, s, Event.Response(trigger, r)), s.requests[k].fd;
            && fd in s.owner && s.owner[fd] < |s.conns| && trigger in s.pool
            && t.running && t.target == Named(s, r) && t.owed == s.owed - {Owed(trigger, r.what)}
            && Unlisted(s, t, k) && DeliveredTo(s, t, trigger, r, fd)
  {
    DeliveredWhere(alg, s, trigger, r, k);
    DeliveredTables(Arrived(s, trigger, r), trigger, r, k);
  }

  /** Node `k` is gone, and servers and counter are as before. */
  predicate Unlisted(s: State, t: State, k: nat)
    requires k < |s.requests|
  {
    t.requests == s.requests[..k] + s.requests[k + 1..] && t.count == s.count && t.serverFds == s.serverFds
  }

  /** How connections, descriptors and loads look after a delivery to descriptor `fd`. */
  ghost predicate DeliveredTo(s: State, t: State, trigger: int, r: Response, fd: int)
    requires r.Responded? && fd in s.owner && s.owner[fd] < |s.conns| && trigger in s.pool
  {
    var c := s.owner[fd];
    && t.conns == (if r.written then s.conns[c := Conn(s.conns[c].peer, s.conns[c].replies + 1)] else s.conns)
    && t.owner == (if r.written && r.close != CloseFailed(true) then s.owner - {fd} else s.owner)
    && t.pool == (if r.written && r.close == Closed
                  then s.pool[trigger := s.pool[trigger].(curLoad := s.pool[trigger].curLoad - 1)]
                  else s.pool)
    && (if r.written then t.log == s.log + [Delivery(c, r.what, Named(s, r), r.close != CloseFailed(true))]
        else t.log == s.log)
  }

  lemma DeliveredWhere(alg: Algorithm, s: State, trigger: int, r: Response, k: nat)
    requires Legal(s, Event.Response(trigger, r)) && r.Responded? && FirstOf(s.requests, Named(s, r), k)
    ensures Step(alg, s, Event.Response(trigger, r))
         == Deliver(Arrived(s, trigger, r), trigger, r, k).s.(running := true)
  {
    MatchIs(s.requests, Named(s, r), k);
  }

  lemma DeliveredTables(s: State, trigger: int, r: Response, k: nat)
    requires r.Responded? && k < |s.requests| && trigger in s.pool
    requires s.requests[k].fd in s.owner && s.owner[s.requests[k].fd] < |s.conns|
    requires s.target == Named(s, r)
    ensures var t := Deliver(s, trigger, r, k).s;
            && t.target == s.target && t.owed == s.owed
            && Unlisted(s, t, k) && DeliveredTo(s, t, trigger, r, s.requests[k].fd)
  {
    if !r.written || r.close.Closed? {
      PlainDelivery(s, trigger, r, k);
    } else {
      FailedClosing(s, trigger, r, k);
    }
  }

  lemma PlainDelivery(s: State, trigger: int, r: Response, k: nat)
    requires r.Responded? && k < |s.requests| && trigger in s.pool && (!r.written || r.close.Closed?)
    requires s.requests[k].fd in s.owner && s.owner[s.requests[k].fd] < |s.conns|
    requires s.target == Named(s, r)
    ensures var t := Deliver(s, trigger, r, k).s;
            && t.target == s.target && t.owed == s.owed
            && Unlisted(s, t, k) && DeliveredTo(s, t, trigger, r, s.requests[k].fd)
  {
  }

  lemma FailedClosing(s: State, trigger: int, r: Response, k: nat)
    requires r.Responded? && k < |s.requests| && trigger in s.pool && r.written && r.close.CloseFailed?
    requires s.requests[k].fd in s.owner && s.owner[s.requests[k].fd] < |s.conns|
    requires s.target == Named(s, r)
    ensures var t := Deliver(s, trigger, r, k).s;
            && t.target == s.target && t.owed == s.owed
            && Unlisted(s, t, k) && DeliveredTo(s, t, trigger, r, s.requests[k].fd)
  {
  }

  // ------------------------------------------------------------------ the health check

  lemma {:induction false} ChecksKeepEntries(s: State, order: seq<int>, health: map<int, Health>)
    requires forall fd :: fd in order ==> fd in health
    ensures var t := CheckAll(s, order, health);
            && (forall fd :: fd in t.pool ==> fd in s.pool && t.pool[fd] == s.pool[fd])
            && t.count == s.count && t.target == s.target && t.failed == s.failed && t.closed == s.closed
    decreases |order|
  {
    if order != [] {
      ChecksKeepEntries(CheckOne(s, order[0], health[order[0]]), order[1..], health);
    }
  }

  /** If nobody waits, the check leaves precisely the servers that replied, each with its entry, and the
      balancer goes on exactly if there is one. */
  lemma HealthCheckSweeps(alg: Algorithm, s: State, order: seq<int>, health: map<int, Health>)
    requires Inv(s) && Legal(s, HealthTimer(order, health)) && s.requests == []
    ensures var t := Step(alg, s, HealthTimer(order, health));
            IsSwept(s, t, health) && (t.running <==> exists fd :: fd in s.pool && health[fd].Replied?)
  {
    OrderKnown(s, order);
    ChecksSweep(s, order, health);
  }

  /** From `s` to `t`, the servers that did not reply left, and nothing else happened. */
  ghost predicate IsSwept(s: State, t: State, health: map<int, Health>)
    requires health.Keys == s.pool.Keys
  {
    && (forall fd :: fd in t.pool <==> fd in s.pool && health[fd].Replied?)
    && (forall fd :: fd in t.pool ==> t.pool[fd] == s.pool[fd])
    && t.serverFds == t.pool.Keys && t.owed == {} && t.requests == []
    && t.conns == s.conns && t.owner == s.owner && t.log == s.log && t.count == s.count
  }

  lemma ChecksSweep(s: State, order: seq<int>, health: map<int, Health>)
    requires Inv(s) && s.requests == [] && ChecksApply(s, order, health)
    requires HasOrder(s, order) && health.Keys == s.pool.Keys
    ensures var t := CheckAll(s, order, health);
            IsSwept(s, t, health) && (t.pool == map[] <==> !exists fd :: fd in s.pool && health[fd].Replied?)
  {
    HealthCheckReadsItsOwn(s, order, health);
    ChecksKeepEntries(s, order, health);
    ChecksFrame(s, order, health);
    var t := CheckAll(s, order, health);
    SurvivorsAre(s, t, order, health);
    NoDebts(t);
  }

  lemma NoDebts(t: State)
    requires Inv(t) && t.requests == []
    ensures t.owed == {} && t.serverFds == t.pool.Keys
  {
  }

  lemma SurvivorsAre(s: State, t: State, order: seq<int>, health: map<int, Health>)
    requires HasOrder(s, order) && health.Keys == s.pool.Keys
    requires forall fd :: fd in order ==> fd in health
    requires forall fd :: fd in t.pool <==> fd in s.pool && (fd in order ==> health[fd].Replied?)
    ensures forall fd :: fd in t.pool <==> fd in s.pool && health[fd].Replied?
    ensures t.pool == map[] <==> !exists fd :: fd in s.pool && health[fd].Replied?
  {
    if t.pool != map[] {
      var fd := Sums.Pick(t.pool.Keys);
      assert fd in s.pool && health[fd].Replied?;
    }
  }

  /** If somebody waits, the check does nothing. */
  lemma HealthCheckWaits(alg: Algorithm, s: State, order: seq<int>, health: map<int, Health>)
    requires Legal(s, HealthTimer(order, health)) && s.requests != []
    ensures Step(alg, s, HealthTimer(order, health)) == s
  {
    OrderKnown(s, order);
  }

  // ------------------------------------------------------------------ reachable states

  lemma PoolKeepsCapacities(pool: map<int, RealServer>, pool': map<int, RealServer>)
    requires forall fd :: fd in pool' ==> fd in pool && pool'[fd].maxLoad == pool[fd].maxLoad
    requires forall fd :: fd in pool ==> fd > 0 && 1 <= pool[fd].maxLoad
    ensures forall fd :: fd in pool' ==> fd > 0 && 1 <= pool'[fd].maxLoad
  {
  }

  lemma StepKeepsCapacities(alg: Algorithm, s: State, e: Event)
    requires Inv(s) && Legal(s, e) && CapacitiesPositive(s)
    ensures CapacitiesPositive(Step(alg, s, e))
  {
    var pool' := Step(alg, s, e).pool;
    StepOnPool(alg, s, e);
    PoolKeepsCapacities(s.pool, pool');
  }

  /** What these laws ask of a state holds in every reachable one. */
  lemma {:induction false} ReachableIsSound(alg: Algorithm, s: State, events: seq<Event>, t: State)
    requires Inv(s) && CapacitiesPositive(s) && Reaches(alg, s, events, t)
    ensures Inv(t) && CapacitiesPositive(t)
    decreases |events|
  {
    if events != [] {
      StepKeepsInv(alg, s, events[0]);
      StepKeepsCapacities(alg, s, events[0]);
      ReachableIsSound(alg, Step(alg, s, events[0]), events[1..], t);
    }
  }
}
