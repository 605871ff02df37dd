/** What holds in every reachable state of the balancer. */
module BalancerRuns {
  import opened Options
  import opened Schedulers
  import opened Sums
  import opened Balancer

  // ------------------------------------------------------------------ invariants

  /** The tables of servers agree, and no client descriptor is a server descriptor. */
  ghost predicate Tables(s: State) {
    && s.serverFds == s.pool.Keys && s.lost.Keys == s.pool.Keys
    && s.owner.Keys !! s.pool.Keys
    && (forall fd :: fd in s.owner ==> 0 < fd && s.owner[fd] < |s.conns|)
    && (forall fd, fd' :: fd in s.owner && fd' in s.owner && s.owner[fd] == s.owner[fd'] ==> fd == fd')
  }

  /** Every node of the request map stands for an open connection that has not been answered, under
      the name of its peer; no two nodes share a descriptor. */
  ghost predicate Waiting(s: State) {
    && (forall i :: 0 <= i < |s.requests| ==>
          && s.requests[i].fd in s.owner
          && s.owner[s.requests[i].fd] < |s.conns|
          && s.conns[s.owner[s.requests[i].fd]] == Conn(Some(s.requests[i].peer), 0))
    && (forall i, j :: 0 <= i < j < |s.requests| ==> s.requests[i].fd != s.requests[j].fd)
  }

  /** No connection is answered twice, and each delivery went to the peer that the response named. */
  ghost predicate Delivered(s: State) {
    && (forall c :: 0 <= c < |s.conns| ==> s.conns[c].replies <= 1)
    && (forall i :: 0 <= i < |s.log| ==>
          s.log[i].conn < |s.conns| && s.conns[s.log[i].conn].peer == Some(s.log[i].target))
  }

  /** What is owed are replies to accepted connections, by servers of the pool, and no more of them
      than there are waiting requests. */
  ghost predicate Debts(s: State) {
    && (forall o :: o in s.owed ==> o.fd in s.pool && o.what.ReplyTo? && o.what.conn < |s.conns|)
    && |s.owed| <= |s.requests|
  }

  function OwedBy(owed: set<Owed>, fd: int): set<Owed> {
    set o | o in owed && o.fd == fd
  }

  /** The load of a server counts what it owes and what it lost. */
  ghost predicate Loads(s: State) {
    s.lost.Keys == s.pool.Keys && forall fd :: fd in s.pool ==> s.pool[fd].curLoad == |OwedBy(s.owed, fd)| + s.lost[fd]
  }

  function LoadOf(pool: map<int, RealServer>): map<int, int> {
    map fd | fd in pool :: pool[fd].curLoad
  }

  /** The ledger of load, and that of descriptors. */
  ghost predicate Ledger(s: State) {
    && Sum(LoadOf(s.pool)) + s.removedLoad == |s.requests| + s.failed
    && |s.owner| + s.closed == |s.conns|
    && s.closed <= |s.log|
  }

  ghost predicate Inv(s: State) {
    Tables(s) && Waiting(s) && Delivered(s) && Debts(s) && Loads(s) && Ledger(s)
  }

  lemma InitialInv(s: State)
    requires Initial(s)
    ensures Inv(s)
  {
    forall fd | fd in s.pool
      ensures OwedBy(s.owed, fd) == {}
    {
    }
    SumOfZeros(LoadOf(s.pool), LoadOf(s.pool).Keys);
  }

  lemma WaitingAnchors(s: State)
    requires Waiting(s)
    ensures Anchored(s)
  {
  }

  // ------------------------------------------------------------------ the building blocks keep it

  lemma OpenedKeepsTables(s: State, fd: int, name: Option<Peer>)
    requires Tables(s) && 0 < fd && fd !in s.owner && fd !in s.pool
    ensures Tables(Opened(s, fd, name)) && |Opened(s, fd, name).owner| == |s.owner| + 1
  {
    assert Opened(s, fd, name).owner.Keys == s.owner.Keys + {fd};
  }

  lemma OpenedKeepsWaiting(s: State, fd: int, name: Option<Peer>)
    requires Waiting(s) && Delivered(s) && fd !in s.owner
    ensures Waiting(Opened(s, fd, name)) && Delivered(Opened(s, fd, name))
  {
    assert forall i :: 0 <= i < |s.requests| ==> s.requests[i].fd != fd;
  }

  lemma OpenedKeeps(s: State, fd: int, name: Option<Peer>)
    requires Inv(s) && 0 < fd && fd !in s.owner && fd !in s.pool
    ensures Inv(Opened(s, fd, name))
  {
    OpenedKeepsTables(s, fd, name);
    OpenedKeepsWaiting(s, fd, name);
  }

  lemma AnsweredKeeps(s: State, fd: int)
    requires Inv(s) && fd in s.owner && s.conns[s.owner[fd]].replies == 0
    requires forall i :: 0 <= i < |s.requests| ==> s.requests[i].fd != fd
    ensures Inv(Answered(s, s.owner[fd]))
  {
  }

  lemma RemoveServerKeepsLoads(s: State, h: int)
    requires Loads(s) && h in s.pool
    ensures Loads(RemoveServer(s, h))
  {
    var t := RemoveServer(s, h);
    forall fd | fd in t.pool
      ensures t.pool[fd].curLoad == |OwedBy(t.owed, fd)| + t.lost[fd]
    {
      assert OwedBy(t.owed, fd) == OwedBy(s.owed, fd);
    }
  }

  lemma RemoveServerKeepsLedger(s: State, h: int)
    requires Ledger(s) && h in s.pool
    ensures Ledger(RemoveServer(s, h))
  {
    SumRemoves(LoadOf(s.pool), h);
    assert LoadOf(s.pool - {h}) == LoadOf(s.pool) - {h};
  }

  lemma RemoveServerKeeps(s: State, h: int)
    requires Inv(s) && h in s.pool
    ensures Inv(RemoveServer(s, h))
  {
    SubsetSize(RemoveServer(s, h).owed, s.owed);
    RemoveServerKeepsLoads(s, h);
    RemoveServerKeepsLedger(s, h);
  }

  lemma AddLoadSum(pool: map<int, RealServer>, h: int, delta: int)
    requires h in pool
    ensures Sum(LoadOf(AddLoad(pool, h, delta))) == Sum(LoadOf(pool)) + delta
  {
    assert LoadOf(AddLoad(pool, h, delta)) == LoadOf(pool)[h := pool[h].curLoad + delta];
    SumUpdates(LoadOf(pool), h, pool[h].curLoad + delta);
  }

  lemma OwedByAfter(owed: set<Owed>, o: Owed, fd: int)
    ensures o !in owed ==> |OwedBy(owed + {o}, fd)| == |OwedBy(owed, fd)| + if o.fd == fd then 1 else 0
    ensures o in owed ==> |OwedBy(owed - {o}, fd)| == |OwedBy(owed, fd)| - if o.fd == fd then 1 else 0
  {
    if o.fd == fd {
      assert o !in owed ==> OwedBy(owed + {o}, fd) == OwedBy(owed, fd) + {o};
      assert o in owed ==> OwedBy(owed - {o}, fd) == OwedBy(owed, fd) - {o};
    } else {
      assert OwedBy(owed + {o}, fd) == OwedBy(owed, fd);
      assert OwedBy(owed - {o}, fd) == OwedBy(owed, fd);
    }
  }

  lemma ForwardedKeepsLoads(s: State, h: int, o: Owed)
    requires Loads(s) && h in s.pool && o.fd == h && o !in s.owed
    ensures Loads(s.(pool := AddLoad(s.pool, h, 1), owed := s.owed + {o}))
  {
    var t := s.(pool := AddLoad(s.pool, h, 1), owed := s.owed + {o});
    forall fd | fd in t.pool
      ensures t.pool[fd].curLoad == |OwedBy(t.owed, fd)| + t.lost[fd]
    {
      OwedByAfter(s.owed, o, fd);
    }
  }

  /** The newest connection is forwarded to a server of the pool. */
  lemma ForwardedKeeps(s: State, h: int, fd: int, peer: Peer)
    requires Inv(s) && h in s.pool && fd in s.owner && s.conns[s.owner[fd]] == Conn(Some(peer), 0)
    requires forall i :: 0 <= i < |s.requests| ==> s.requests[i].fd != fd
    requires Owed(h, ReplyTo(s.owner[fd])) !in s.owed
    ensures Inv(Forwarded(s, h, fd, peer, s.owner[fd]))
  {
    var t := Forwarded(s, h, fd, peer, s.owner[fd]);
    ForwardedKeepsLoads(s, h, Owed(h, ReplyTo(s.owner[fd])));
    AddLoadSum(s.pool, h, 1);
    assert t.pool.Keys == s.pool.Keys;
  }

  lemma RequestKeeps(alg: Algorithm, s: State, a: Accept)
    requires Inv(s) && Legal(s, Request(a))
    ensures Inv(Handle(alg, s, Request(a)).s)
  {
    if a.Accepted? {
      OrderKnown(s, a.order);
      OpenedKeeps(s, a.fd, None);
      if a.read == Got && a.name.Some? {
        OpenedKeeps(s, a.fd, a.name);
        if a.order != [] {
          ScheduledRequestKeeps(alg, s, a);
        }
      }
    }
  }

  lemma CountIsFree(s: State, count: nat)
    requires Inv(s)
    ensures Inv(s.(count := count))
  {
  }

  lemma ScheduledRequestKeeps(alg: Algorithm, s: State, a: Accept)
    requires Inv(s) && Legal(s, Request(a)) && a.Accepted? && a.read == Got && a.name.Some? && a.order != []
    requires forall i :: 0 <= i < |a.order| ==> a.order[i] in s.pool
    requires Inv(Opened(s, a.fd, a.name))
    ensures Inv(OnRequest(alg, s, a).s)
  {
    var o := Opened(s, a.fd, a.name);
    var m := View(s.pool, a.order);
    var h := Choose(alg, m, s.count);
    var t := o.(count := CountAfter(alg, m, s.count));
    CountIsFree(o, CountAfter(alg, m, s.count));
    NewIsUnknown(s, a.fd);
    ScheduledKeeps(t, a, h);
    assert |t.conns| - 1 == |s.conns|;
  }

  lemma NewIsUnknown(s: State, fd: int)
    requires Inv(s) && fd !in s.owner
    ensures forall i :: 0 <= i < |s.requests| ==> s.requests[i].fd != fd
    ensures forall o :: o in s.owed ==> o.what != ReplyTo(|s.conns|)
  {
  }

  /** After the scheduling: the newest connection is refused, forwarded, or lost with its server. */
  lemma ScheduledKeeps(t: State, a: Accept, h: int)
    requires Inv(t) && a.Accepted? && a.name.Some? && |t.conns| > 0
    requires a.fd in t.owner && t.owner[a.fd] == |t.conns| - 1 && t.conns[|t.conns| - 1] == Conn(a.name, 0)
    requires forall i :: 0 <= i < |t.requests| ==> t.requests[i].fd != a.fd
    requires forall o :: o in t.owed ==> o.what != ReplyTo(|t.conns| - 1)
    ensures Inv(Answered(t, |t.conns| - 1))
    ensures h in t.pool ==> Inv(RemoveServer(t, h)) && Inv(Forwarded(t, h, a.fd, a.name.value, |t.conns| - 1))
  {
    AnsweredKeeps(t, a.fd);
    if h in t.pool {
      RemoveServerKeeps(t, h);
      ForwardedKeeps(t, h, a.fd, a.name.value);
    }
  }

  // ------------------------------------------------------------------ responses

  /** A message has been read: its server owes it no more, and the answer may get lost. */
  lemma ArrivedAndLost(s: State, trigger: int, r: Response)
    requires Inv(s) && trigger in s.pool && r.Responded? && Owed(trigger, r.what) in s.owed
    ensures Inv(Lose(Arrived(s, trigger, r), trigger))
    ensures |Arrived(s, trigger, r).owed| == |s.owed| - 1
  {
    var o := Owed(trigger, r.what);
    var t := Lose(Arrived(s, trigger, r), trigger);
    forall fd | fd in t.pool
      ensures t.pool[fd].curLoad == |OwedBy(t.owed, fd)| + t.lost[fd]
    {
      OwedByAfter(s.owed, o, fd);
    }
  }

  function Without(requests: seq<Entry>, k: nat): (r: seq<Entry>)
    requires k < |requests|
    ensures |r| == |requests| - 1
    ensures forall i :: 0 <= i < |r| ==> r[i] == requests[if i < k then i else i + 1]
  {
    requests[..k] + requests[k + 1..]
  }

  /** The state in which the matched answer counts as failed. */
  function AsFailed(t: State, trigger: int, k: nat): State
    requires k < |t.requests|
  {
    Lose(t, trigger).(requests := Without(t.requests, k), failed := t.failed + 1)
  }

  /** Undoes the failure: the answer has lowered the load of its server. */
  function AsDone(t: State, trigger: int): State
    requires trigger in t.pool && trigger in t.lost && t.lost[trigger] > 0 && t.failed > 0
  {
    t.(pool := AddLoad(t.pool, trigger, -1), lost := t.lost[trigger := t.lost[trigger] - 1], failed := t.failed - 1)
  }

  function Logged(t: State, d: Delivery): State {
    t.(log := t.log + [d])
  }

  /** The state in which the response of the matched answer is written, the answer still failed. */
  function AsWritten(t: State, trigger: int, r: Response, k: nat): State
    requires r.Responded? && k < |t.requests|
    requires t.requests[k].fd in t.owner && t.owner[t.requests[k].fd] < |t.conns|
  {
    var conn := t.owner[t.requests[k].fd];
    Logged(Answered(AsFailed(t, trigger, k), conn), Delivery(conn, r.what, t.target, !LeavesOpen(r.close)))
  }

  lemma DeliverFailedSteps(t: State, trigger: int, r: Response, k: nat)
    requires r.Responded? && k < |t.requests| && trigger in t.pool && trigger in t.lost
    requires t.requests[k].fd in t.owner && t.owner[t.requests[k].fd] < |t.conns|
    requires !r.written || r.close.CloseFailed?
    ensures Deliver(t, trigger, r, k).s ==
              if !r.written then AsFailed(t, trigger, k)
              else if LeavesOpen(r.close) then AsWritten(t, trigger, r, k)
              else CloseClient(AsWritten(t, trigger, r, k), t.requests[k].fd)
  {
  }

  lemma DeliverDoneSteps(t: State, trigger: int, r: Response, k: nat)
    requires r.Responded? && k < |t.requests| && trigger in t.pool && trigger in t.lost
    requires t.requests[k].fd in t.owner && t.owner[t.requests[k].fd] < |t.conns|
    requires r.written && r.close.Closed?
    ensures Deliver(t, trigger, r, k).s
         == AsDone(CloseClient(AsWritten(t, trigger, r, k), t.requests[k].fd), trigger)
  {
    var u := t.lost[trigger := t.lost[trigger] + 1];
    assert u[trigger := u[trigger] - 1] == t.lost;
  }

  /** Deliver in terms of these changes. */
  lemma DeliverSteps(t: State, trigger: int, r: Response, k: nat)
    requires r.Responded? && k < |t.requests| && trigger in t.pool && trigger in t.lost
    requires t.requests[k].fd in t.owner && t.owner[t.requests[k].fd] < |t.conns|
    ensures var fd := t.requests[k].fd;
            var z := AsWritten(t, trigger, r, k);
            Deliver(t, trigger, r, k).s ==
              if !r.written then AsFailed(t, trigger, k)
              else if LeavesOpen(r.close) then z
              else if r.close.CloseFailed? then CloseClient(z, fd)
              else AsDone(CloseClient(z, fd), trigger)
  {
    if r.written && r.close.Closed? {
      DeliverDoneSteps(t, trigger, r, k);
    } else {
      DeliverFailedSteps(t, trigger, r, k);
    }
  }

  lemma DeliverKeeps(s: State, trigger: int, r: Response)
    requires Inv(s) && trigger in s.pool && r.Responded? && Owed(trigger, r.what) in s.owed
    requires var t := Arrived(s, trigger, r); Match(t.requests, t.target, 0) < |t.requests|
    ensures var t := Arrived(s, trigger, r);
            Inv(Deliver(t, trigger, r, Match(t.requests, t.target, 0)).s)
  {
    var t := Arrived(s, trigger, r);
    var k := Match(t.requests, t.target, 0);
    DeliverSteps(t, trigger, r, k);
    MatchedAndLost(s, trigger, r, k);
    WrittenKeeps(AsFailed(t, trigger, k), t.requests[k].fd, trigger, r.what, t.target, !LeavesOpen(r.close));
  }

  /** A connection that is open, unanswered and no longer waiting gets its response. */
  lemma WrittenKeeps(x: State, fd: int, trigger: int, what: What, target: Peer, closed: bool)
    requires Inv(x) && fd in x.owner && x.conns[x.owner[fd]] == Conn(Some(target), 0)
    requires forall i :: 0 <= i < |x.requests| ==> x.requests[i].fd != fd
    requires trigger in x.pool && x.lost[trigger] > 0 && x.failed > 0
    ensures var z := Logged(Answered(x, x.owner[fd]), Delivery(x.owner[fd], what, target, closed));
            Inv(z) && Inv(CloseClient(z, fd)) && Inv(AsDone(CloseClient(z, fd), trigger))
  {
    var y := Answered(x, x.owner[fd]);
    AnsweredKeeps(x, fd);
    var d := Delivery(x.owner[fd], what, target, closed);
    LoggedKeeps(y, d);
    var z := Logged(y, d);
    CloseKeeps(z, fd);
    DoneKeeps(CloseClient(z, fd), trigger);
  }

  /** Counting the matched answer as failed is consistent, whether or not it fails. */
  lemma MatchedAndLost(s: State, trigger: int, r: Response, k: nat)
    requires Inv(s) && trigger in s.pool && r.Responded? && Owed(trigger, r.what) in s.owed
    requires k < |s.requests|
    ensures var x := AsFailed(Arrived(s, trigger, r), trigger, k);
            && Inv(x) && x.lost[trigger] > 0 && x.failed > 0
            && forall i :: 0 <= i < |x.requests| ==> x.requests[i].fd != s.requests[k].fd
  {
    ArrivedAndLost(s, trigger, r);
    var l := Lose(Arrived(s, trigger, r), trigger);
    OthersStillWait(l, AsFailed(Arrived(s, trigger, r), trigger, k), k);
  }

  /** Without one node the others still wait, and none of them under its descriptor. */
  lemma OthersStillWait(s: State, t: State, k: nat)
    requires Waiting(s) && k < |s.requests| && t.requests == Without(s.requests, k)
    requires t.owner == s.owner && t.conns == s.conns
    ensures Waiting(t) && forall i :: 0 <= i < |t.requests| ==> t.requests[i].fd != s.requests[k].fd
  {
  }

  lemma LoggedKeeps(s: State, d: Delivery)
    requires Inv(s) && d.conn < |s.conns| && s.conns[d.conn].peer == Some(d.target)
    ensures Inv(Logged(s, d))
  {
  }

  lemma CloseKeeps(s: State, fd: int)
    requires Inv(s) && fd in s.owner && s.closed < |s.log|
    requires forall i :: 0 <= i < |s.requests| ==> s.requests[i].fd != fd
    ensures Inv(CloseClient(s, fd))
  {
    assert (s.owner - {fd}).Keys == s.owner.Keys - {fd};
  }

  /** Nothing failed after all: the answer lowers the load. */
  lemma DoneKeeps(s: State, trigger: int)
    requires Inv(s) && trigger in s.pool && s.lost[trigger] > 0 && s.failed > 0
    ensures Inv(AsDone(s, trigger))
  {
    AddLoadSum(s.pool, trigger, -1);
    var t := AsDone(s, trigger);
    assert t.pool.Keys == s.pool.Keys && t.lost.Keys == s.lost.Keys;
  }

  lemma ResponseKeeps(s: State, trigger: int, r: Response)
    requires Inv(s) && Legal(s, Event.Response(trigger, r))
    ensures Inv(OnResponse(s, trigger, r).s)
  {
    if r.NoResponse? {
      RemoveServerKeeps(s, trigger);
    } else {
      ArrivedAndLost(s, trigger, r);
      var t := Arrived(s, trigger, r);
      if Match(t.requests, t.target, 0) < |t.requests| {
        DeliverKeeps(s, trigger, r);
      }
    }
  }

  // ------------------------------------------------------------------ the health check

  /** Nobody waits, so nobody owes anything, so a server that has been asked for its options can only
      deliver these. */
  lemma OnlyOptionsCanArrive(s: State, fd: int, what: What)
    requires Inv(s) && s.requests == []
    requires Owed(fd, what) in s.owed + {Owed(fd, OptionsReply)}
    ensures what == OptionsReply && CheckOne(s, fd, Replied(what)) == s
  {
    assert s.owed == {};
    assert s.owed + {Owed(fd, OptionsReply)} - {Owed(fd, what)} == s.owed;
  }

  ghost predicate ChecksApply(s: State, order: seq<int>, health: map<int, Health>) {
    && (forall i, j :: 0 <= i < j < |order| ==> order[i] != order[j])
    && (forall i :: 0 <= i < |order| ==> order[i] in s.pool && order[i] in health)
    && LegalChecks(s, order, health)
  }

  lemma CheckOneKeeps(s: State, fd: int, h: Health)
    requires Inv(s) && s.requests == [] && fd in s.pool
    requires h.Replied? ==> Owed(fd, h.what) in s.owed + {Owed(fd, OptionsReply)}
    ensures var t := CheckOne(s, fd, h);
            && Inv(t) && t.requests == [] && t.running == s.running
            && t.pool == (if h.Replied? then s.pool else s.pool - {fd})
            && (h.Replied? ==> h.what == OptionsReply)
  {
    if h.Replied? {
      OnlyOptionsCanArrive(s, fd, h.what);
    } else {
      RemoveServerKeeps(s, fd);
    }
  }

  lemma ChecksGoOn(s: State, order: seq<int>, health: map<int, Health>)
    requires order != [] && ChecksApply(s, order, health)
    requires var t := CheckOne(s, order[0], health[order[0]]); t.pool == s.pool || t.pool == s.pool - {order[0]}
    ensures ChecksApply(CheckOne(s, order[0], health[order[0]]), order[1..], health)
    ensures forall fd :: fd in order <==> fd == order[0] || fd in order[1..]
  {
    var rest := order[1..];
    assert forall i :: 0 <= i < |rest| ==> rest[i] == order[i + 1];
    assert order == [order[0]] + rest;
  }

  /** The health check never steals the response of a client: whenever its guard lets it proceed, each
      message that it reads is the reply to its own OPTIONS request, and it removes precisely the
      servers whose socket fails. */
  lemma {:induction false} HealthCheckReadsItsOwn(s: State, order: seq<int>, health: map<int, Health>)
    requires Inv(s) && s.requests == [] && ChecksApply(s, order, health)
    ensures var t := CheckAll(s, order, health);
            && Inv(t) && t.requests == [] && t.running == s.running
            && (forall fd :: fd in order && health[fd].Replied? ==> health[fd].what == OptionsReply)
            && (forall fd :: fd in t.pool <==> fd in s.pool && (fd in order ==> health[fd].Replied?))
    decreases |order|
  {
    if order != [] {
      CheckOneKeeps(s, order[0], health[order[0]]);
      ChecksGoOn(s, order, health);
      HealthCheckReadsItsOwn(CheckOne(s, order[0], health[order[0]]), order[1..], health);
    }
  }

  lemma HealthKeeps(s: State, order: seq<int>, health: map<int, Health>)
    requires Inv(s) && Legal(s, HealthTimer(order, health))
    requires forall fd :: fd in order ==> fd in health
    ensures Inv(OnHealthCheck(s, order, health).s)
  {
    if |s.requests| == 0 {
      OrderKnown(s, order);
      HealthCheckReadsItsOwn(s, order, health);
    }
  }

  // ------------------------------------------------------------------ runs

  lemma StepKeepsInv(alg: Algorithm, s: State, e: Event)
    requires Inv(s) && Legal(s, e)
    ensures Inv(Step(alg, s, e))
  {
    match e {
      case Request(a) => RequestKeeps(alg, s, a);
      case Response(trigger, r) => ResponseKeeps(s, trigger, r);
      case HealthTimer(order, health) =>
        OrderKnown(s, order);
        HealthKeeps(s, order, health);
    }
    RunningIsFree(Handle(alg, s, e).s, Handle(alg, s, e).status != FATAL_ERROR);
  }

  lemma RunningIsFree(s: State, running: bool)
    requires Inv(s)
    ensures Inv(s.(running := running))
  {
  }

  /** `t` is reached from `s` by the events. */
  ghost predicate Reaches(alg: Algorithm, s: State, events: seq<Event>, t: State)
    decreases |events|
  {
    if events == [] then s == t else Legal(s, events[0]) && Reaches(alg, Step(alg, s, events[0]), events[1..], t)
  }

  lemma {:induction false} RunKeepsInv(alg: Algorithm, s: State, events: seq<Event>, t: State)
    requires Inv(s) && Reaches(alg, s, events, t)
    ensures Inv(t)
    decreases |events|
  {
    if events != [] {
      StepKeepsInv(alg, s, events[0]);
      RunKeepsInv(alg, Step(alg, s, events[0]), events[1..], t);
    }
  }

  /** Delivery safety, in every reachable state.  The descriptors of waiting clients are open, distinct
      and none of a server's; no connection is answered twice, a waiting one not yet; and a forwarded
      response went to the peer that its target fields name. */
  lemma DeliverySafety(alg: Algorithm, s: State, events: seq<Event>, t: State)
    requires Initial(s) && Reaches(alg, s, events, t)
    ensures Tables(t) && Waiting(t) && Delivered(t)
    ensures forall i :: 0 <= i < |t.requests| ==>
              && t.requests[i].fd in t.owner && t.requests[i].fd !in t.serverFds
              && t.conns[t.owner[t.requests[i].fd]] == Conn(Some(t.requests[i].peer), 0)
    ensures forall c :: 0 <= c < |t.conns| ==> t.conns[c].replies <= 1
    ensures forall i :: 0 <= i < |t.log| ==> t.conns[t.log[i].conn].peer == Some(t.log[i].target)
  {
    InitialInv(s);
    RunKeepsInv(alg, s, events, t);
  }

  /** The load ledger, in every reachable state, faults included; and its counterpart for descriptors,
      which OpenIff and ForgottenForGood state connection by connection. */
  lemma LoadLedger(alg: Algorithm, s: State, events: seq<Event>, t: State)
    requires Initial(s) && Reaches(alg, s, events, t)
    ensures Sum(LoadOf(t.pool)) + t.removedLoad == |t.requests| + t.failed
    ensures Loads(t) && forall fd :: fd in t.pool ==> t.pool[fd].curLoad >= 0
    ensures |t.owed| <= |t.requests|
    ensures |t.owner| + t.closed == |t.conns| && t.closed <= |t.log|
    ensures |t.owner| >= |t.conns| - |t.log|
  {
    InitialInv(s);
    RunKeepsInv(alg, s, events, t);
  }

  /** In every reachable state in which the guard of the health check lets it proceed. */
  lemma HealthCheckIsSafe(alg: Algorithm, s: State, events: seq<Event>, t: State,
                          order: seq<int>, health: map<int, Health>)
    requires Initial(s) && Reaches(alg, s, events, t) && Legal(t, HealthTimer(order, health))
    ensures t.requests == [] ==> t.owed == {}
    ensures t.requests == [] ==> forall fd :: fd in t.pool && health[fd].Replied? ==> health[fd].what == OptionsReply
  {
    InitialInv(s);
    RunKeepsInv(alg, s, events, t);
    if t.requests == [] {
      OrderKnown(t, order);
      HealthCheckReadsItsOwn(t, order, health);
    }
  }

  // ------------------------------------------------------------------ descriptors of clients

  /** The connection has its descriptor. */
  ghost predicate IsOpen(s: State, c: nat) {
    exists fd :: fd in s.owner && s.owner[fd] == c
  }

  /** A response was delivered to the connection, and its descriptor closed after it. */
  ghost predicate WasClosed(s: State, c: nat) {
    exists i :: 0 <= i < |s.log| && s.log[i].conn == c && s.log[i].closed
  }

  ghost predicate Descriptors(s: State) {
    forall c: nat :: c < |s.conns| ==> (IsOpen(s, c) <==> !WasClosed(s, c))
  }

  ghost predicate NoNewNodes(s: State, t: State) {
    forall e :: e in t.requests ==> e in s.requests
  }

  /** The event neither opened nor closed a client descriptor, and wrote nothing to one of them. */
  ghost predicate Unmoved(s: State, t: State) {
    t.owner == s.owner && t.log == s.log && |t.conns| == |s.conns| && NoNewNodes(s, t)
  }

  ghost predicate Joined(s: State, t: State, fd: int) {
    && fd !in s.owner && t.owner == s.owner[fd := |s.conns|]
    && t.log == s.log && |t.conns| == |s.conns| + 1
    && forall e :: e in t.requests ==> e in s.requests || e.fd == fd
  }

  /** A response was delivered to the connection of the node, and its descriptor closed or not. */
  ghost predicate Served(s: State, t: State, k: nat, d: Delivery) {
    && k < |s.requests| && s.requests[k].fd in s.owner && d.conn == s.owner[s.requests[k].fd]
    && t.log == s.log + [d] && |t.conns| == |s.conns|
    && t.owner == (if d.closed then s.owner - {s.requests[k].fd} else s.owner)
    && NoNewNodes(s, t)
  }

  lemma {:induction false} ChecksFrame(s: State, order: seq<int>, health: map<int, Health>)
    requires forall fd :: fd in order ==> fd in health
    ensures var t := CheckAll(s, order, health);
            t.owner == s.owner && t.log == s.log && t.conns == s.conns && t.requests == s.requests
    decreases |order|
  {
    if order != [] {
      ChecksFrame(CheckOne(s, order[0], health[order[0]]), order[1..], health);
    }
  }

  lemma RequestJoins(alg: Algorithm, s: State, a: Accept)
    requires Legal(s, Request(a))
    ensures var t := Handle(alg, s, Request(a)).s; if a.Accepted? then Joined(s, t, a.fd) else Unmoved(s, t)
  {
    if a.Accepted? {
      OrderKnown(s, a.order);
    }
  }

  lemma ResponseServes(s: State, trigger: int, r: Response) returns (k: nat, d: Delivery)
    requires Inv(s) && Legal(s, Event.Response(trigger, r))
    ensures var t := OnResponse(s, trigger, r).s; Unmoved(s, t) || Served(s, t, k, d)
  {
    k, d := 0, Delivery(0, OptionsReply, s.target, false);
    if r.Responded? {
      var a := Arrived(s, trigger, r);
      k := Match(a.requests, a.target, 0);
      if k < |a.requests| {
        d := Delivery(a.owner[a.requests[k].fd], r.what, a.target, !LeavesOpen(r.close));
        DeliverSteps(a, trigger, r, k);
      }
    }
  }

  /** What an event may do to the client descriptors. */
  lemma StepOnDescriptors(alg: Algorithm, s: State, e: Event)
    requires Inv(s) && Legal(s, e)
    ensures var t := Step(alg, s, e);
            || Unmoved(s, t)
            || (exists fd :: Joined(s, t, fd))
            || (exists k: nat, d :: Served(s, t, k, d))
  {
    match e {
      case Request(a) =>
        RequestJoins(alg, s, a);
        assert a.Accepted? ==> Joined(s, Step(alg, s, e), a.fd);
      case Response(trigger, r) =>
        var k, d := ResponseServes(s, trigger, r);
        assert Unmoved(s, Step(alg, s, e)) || Served(s, Step(alg, s, e), k, d);
      case HealthTimer(order, health) =>
        OrderKnown(s, order);
        ChecksFrame(s, order, health);
    }
  }

  lemma UnmovedDescriptors(s: State, t: State)
    requires Descriptors(s) && t.owner == s.owner && t.log == s.log && |t.conns| == |s.conns|
    ensures Descriptors(t)
  {
    forall c: nat | c < |t.conns|
      ensures IsOpen(t, c) <==> !WasClosed(t, c)
    {
      assert IsOpen(t, c) <==> IsOpen(s, c);
      assert WasClosed(t, c) <==> WasClosed(s, c);
    }
  }

  lemma JoinedOpen(s: State, t: State, fd: int, c: nat)
    requires Joined(s, t, fd)
    ensures IsOpen(t, c) <==> IsOpen(s, c) || c == |s.conns|
  {
    assert t.owner.Keys == s.owner.Keys + {fd} && t.owner[fd] == |s.conns|;
    if IsOpen(s, c) {
      var f :| f in s.owner && s.owner[f] == c;
      assert t.owner[f] == c;
    }
  }

  lemma JoinedDescriptors(s: State, t: State, fd: int)
    requires Delivered(s) && Descriptors(s) && Joined(s, t, fd)
    ensures Descriptors(t)
  {
    forall c: nat | c < |t.conns|
      ensures IsOpen(t, c) <==> !WasClosed(t, c)
    {
      JoinedOpen(s, t, fd, c);
      assert WasClosed(t, c) <==> WasClosed(s, c);
    }
  }

  lemma ServedOpen(s: State, t: State, k: nat, d: Delivery, c: nat)
    requires Inv(s) && Served(s, t, k, d)
    ensures IsOpen(t, c) <==> IsOpen(s, c) && !(d.closed && c == d.conn)
  {
    if IsOpen(s, c) && !(d.closed && c == d.conn) {
      var fd :| fd in s.owner && s.owner[fd] == c;
      assert fd in t.owner && t.owner[fd] == c;
    }
  }

  lemma ServedClosed(s: State, t: State, k: nat, d: Delivery, c: nat)
    requires Served(s, t, k, d)
    ensures WasClosed(t, c) <==> WasClosed(s, c) || (d.closed && c == d.conn)
  {
    assert t.log[|s.log|] == d;
    if WasClosed(s, c) {
      var i :| 0 <= i < |s.log| && s.log[i].conn == c && s.log[i].closed;
      assert t.log[i] == s.log[i];
    }
  }

  lemma StepKeepsDescriptors(alg: Algorithm, s: State, e: Event)
    requires Inv(s) && Legal(s, e) && Descriptors(s)
    ensures Descriptors(Step(alg, s, e))
  {
    var t := Step(alg, s, e);
    StepOnDescriptors(alg, s, e);
    if Unmoved(s, t) {
      UnmovedDescriptors(s, t);
    } else if fd :| Joined(s, t, fd) {
      JoinedDescriptors(s, t, fd);
    } else {
      var k: nat, d :| Served(s, t, k, d);
      forall c: nat | c < |t.conns|
        ensures IsOpen(t, c) <==> !WasClosed(t, c)
      {
        ServedOpen(s, t, k, d, c);
        ServedClosed(s, t, k, d, c);
      }
    }
  }

  lemma {:induction false} RunKeepsDescriptors(alg: Algorithm, s: State, events: seq<Event>, t: State)
    requires Inv(s) && Descriptors(s) && Reaches(alg, s, events, t)
    ensures Inv(t) && Descriptors(t)
    decreases |events|
  {
    if events != [] {
      StepKeepsInv(alg, s, events[0]);
      StepKeepsDescriptors(alg, s, events[0]);
      RunKeepsDescriptors(alg, Step(alg, s, events[0]), events[1..], t);
    }
  }

  /** The connection has its descriptor, and no request waits under it. */
  ghost predicate Forgotten(s: State, fd: int) {
    fd in s.owner && forall e :: e in s.requests ==> e.fd != fd
  }

  lemma StepLeavesForgotten(alg: Algorithm, s: State, e: Event, fd: int)
    requires Inv(s) && Legal(s, e) && Forgotten(s, fd)
    ensures var t := Step(alg, s, e); Forgotten(t, fd) && t.owner[fd] == s.owner[fd]
  {
    var t := Step(alg, s, e);
    StepOnDescriptors(alg, s, e);
    if k: nat, d :| Served(s, t, k, d) {
      assert s.requests[k] in s.requests;
    }
  }

  lemma {:induction false} RunLeavesForgotten(alg: Algorithm, s: State, events: seq<Event>, t: State, fd: int)
    requires Inv(s) && Forgotten(s, fd) && Reaches(alg, s, events, t)
    ensures Forgotten(t, fd) && t.owner[fd] == s.owner[fd]
    decreases |events|
  {
    if events != [] {
      StepKeepsInv(alg, s, events[0]);
      StepLeavesForgotten(alg, s, events[0], fd);
      RunLeavesForgotten(alg, Step(alg, s, events[0]), events[1..], t, fd);
    }
  }

  /** Which client descriptors are open, connection by connection, in every reachable state: all but those
      that a delivery closed.  A connection that got no response at all has its descriptor. */
  lemma OpenIff(alg: Algorithm, s: State, events: seq<Event>, t: State)
    requires Initial(s) && Reaches(alg, s, events, t)
    ensures forall c: nat :: c < |t.conns| ==> (IsOpen(t, c) <==> !WasClosed(t, c))
    ensures forall c: nat :: c < |t.conns| ==> IsOpen(t, c) || exists i :: 0 <= i < |t.log| && t.log[i].conn == c
  {
    InitialInv(s);
    assert Descriptors(s);
    RunKeepsDescriptors(alg, s, events, t);
    forall c: nat | c < |t.conns| && !IsOpen(t, c)
      ensures exists i :: 0 <= i < |t.log| && t.log[i].conn == c
    {
      assert WasClosed(t, c);
    }
  }

  /** The leak: an open connection without a waiting request, such as one that was refused with 503 or
      whose response could not be written, keeps its descriptor whatever happens from then on. */
  lemma ForgottenForGood(alg: Algorithm, s: State, before: seq<Event>, t: State, fd: int)
    requires Initial(s) && Reaches(alg, s, before, t) && fd in t.owner
    ensures Forgotten(t, fd) ==>
              forall after, u :: Reaches(alg, t, after, u) ==> fd in u.owner && u.owner[fd] == t.owner[fd]
  {
    InitialInv(s);
    RunKeepsInv(alg, s, before, t);
    if Forgotten(t, fd) {
      forall after, u | Reaches(alg, t, after, u)
        ensures fd in u.owner && u.owner[fd] == t.owner[fd]
      {
        RunLeavesForgotten(alg, t, after, u, fd);
      }
    }
  }

  // ------------------------------------------------------------------ runs without faults

  ghost predicate FaultFree(e: Event) {
    match e
    case Request(a) => a.Accepted? && a.read == Got && a.name.Some? && a.written
    case Response(_, r) => r.Responded? && r.written && r.close == Closed
    case HealthTimer(_, health) => forall fd :: fd in health ==> health[fd].Replied?
  }

  lemma FaultFreeRequest(alg: Algorithm, s: State, a: Accept)
    requires FaultFree(Request(a))
    requires forall i :: 0 <= i < |a.order| ==> a.order[i] in s.pool
    requires a.order == [] ==> s.pool == map[]
    ensures var t := OnRequest(alg, s, a).s; t.failed == s.failed && t.removedLoad == s.removedLoad
  {
  }

  lemma FaultFreeResponse(s: State, trigger: int, r: Response)
    requires FaultFree(Event.Response(trigger, r)) && trigger in s.pool && Anchored(s)
    ensures var t := OnResponse(s, trigger, r).s; t.failed == s.failed && t.removedLoad == s.removedLoad
  {
  }

  lemma FaultFreeStep(alg: Algorithm, s: State, e: Event)
    requires Inv(s) && Legal(s, e) && FaultFree(e)
    ensures Step(alg, s, e).failed == s.failed && Step(alg, s, e).removedLoad == s.removedLoad
  {
    match e {
      case Request(a) =>
        OrderKnown(s, a.order);
        FaultFreeRequest(alg, s, a);
      case Response(trigger, r) => FaultFreeResponse(s, trigger, r);
      case HealthTimer(order, health) =>
        OrderKnown(s, order);
        ChecksRemoveNothing(s, order, health);
    }
  }

  lemma {:induction false} ChecksRemoveNothing(s: State, order: seq<int>, health: map<int, Health>)
    requires forall fd :: fd in order ==> fd in health && health[fd].Replied?
    ensures CheckAll(s, order, health).failed == s.failed && CheckAll(s, order, health).removedLoad == s.removedLoad
    decreases |order|
  {
    if order != [] {
      ChecksRemoveNothing(CheckOne(s, order[0], health[order[0]]), order[1..], health);
    }
  }

  lemma {:induction false} FaultFreeRun(alg: Algorithm, s: State, events: seq<Event>, t: State)
    requires Inv(s) && Reaches(alg, s, events, t) && forall i :: 0 <= i < |events| ==> FaultFree(events[i])
    ensures t.failed == s.failed && t.removedLoad == s.removedLoad
    decreases |events|
  {
    if events != [] {
      FaultFreeStep(alg, s, events[0]);
      StepKeepsInv(alg, s, events[0]);
      FaultFreeRun(alg, Step(alg, s, events[0]), events[1..], t);
    }
  }

  /** Without faults the loads add up to the number of waiting requests. */
  lemma FaultFreeLedger(alg: Algorithm, s: State, events: seq<Event>, t: State)
    requires Initial(s) && Reaches(alg, s, events, t) && forall i :: 0 <= i < |events| ==> FaultFree(events[i])
    ensures Sum(LoadOf(t.pool)) == |t.requests|
  {
    InitialInv(s);
    FaultFreeRun(alg, s, events, t);
    RunKeepsInv(alg, s, events, t);
  }
}
