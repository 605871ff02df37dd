/** What honest clients can rely on: each response goes to the client that asked for it. */
module HonestRuns {
  import opened Options
  import opened Schedulers
  import opened Balancer
  import opened BalancerRuns

  /** Some node of the request map stands for the connection. */
  ghost predicate HasNode(s: State, conn: nat) {
    exists i :: 0 <= i < |s.requests| && s.requests[i].fd in s.owner && s.owner[s.requests[i].fd] == conn
  }

  ghost predicate PeersDiffer(s: State) {
    forall i, j :: 0 <= i < j < |s.requests| ==> s.requests[i].peer != s.requests[j].peer
  }

  /** Every debt is the only one to a client that still waits, and no two waiting clients have the same
      name; all deliveries so far went to the asker. */
  ghost predicate Honest(s: State) {
    && PeersDiffer(s)
    && (forall o :: o in s.owed && o.what.ReplyTo? ==> HasNode(s, o.what.conn))
    && (forall o, o' :: o in s.owed && o' in s.owed && o.what == o'.what ==> o == o')
    && (forall i :: 0 <= i < |s.log| ==> s.log[i].answers == ReplyTo(s.log[i].conn))
  }

  /** A response names the address and port of the connection that it answers; EndToEnd derives this for
      servers that answer what clients print. */
  ghost predicate NamesAsker(s: State, e: Event) {
    match e
    case Response(_, r) =>
      r.Responded? && r.what.ReplyTo? && r.what.conn < |s.conns| && s.conns[r.what.conn].peer.Some? ==>
        var p := s.conns[r.what.conn].peer.value;
        r.ip == Some(p.addr) && r.port == Some(p.port)
    case _ => true
  }

  /** The event forwards a request of a peer that still waits for another one. */
  ghost predicate Repeats(alg: Algorithm, s: State, e: Event)
    requires Legal(s, e)
  {
    && e.Request? && e.a.Accepted? && e.a.name.Some?
    && |Handle(alg, s, e).s.requests| > |s.requests|
    && HasPeer(s, e.a.name.value)
  }

  ghost predicate HasPeer(s: State, p: Peer) {
    exists i :: 0 <= i < |s.requests| && s.requests[i].peer == p
  }

  ghost predicate PlaysFair(alg: Algorithm, s: State, e: Event)
    requires Legal(s, e)
  {
    NamesAsker(s, e) && !Repeats(alg, s, e)
  }

  /** A response matches the node of the connection it answers exactly when no older node has the same
      peer; its target fields being those of that connection. */
  lemma ReachesAskerIff(s: State, k: nat)
    requires Inv(s) && k < |s.requests|
    ensures Match(s.requests, s.requests[k].peer, 0) == k <==>
              forall i :: 0 <= i < k ==> s.requests[i].peer != s.requests[k].peer
  {
  }

  /** In an honest state every response finds the node of the client that it answers. */
  lemma FindsAsker(s: State, trigger: int, r: Response)
    requires Inv(s) && Honest(s) && Legal(s, Event.Response(trigger, r)) && NamesAsker(s, Event.Response(trigger, r))
    requires r.Responded?
    ensures var t := Arrived(s, trigger, r);
            var k := Match(t.requests, t.target, 0);
            && r.what.ReplyTo?
            && k < |t.requests| && t.owner[t.requests[k].fd] == r.what.conn
  {
    var o := Owed(trigger, r.what);
    assert o in s.owed && HasNode(s, o.what.conn);
    var i :| 0 <= i < |s.requests| && s.requests[i].fd in s.owner && s.owner[s.requests[i].fd] == r.what.conn;
    ReachesAskerIff(s, i);
  }

  lemma OpenedStaysHonest(s: State, fd: int, name: Option<Peer>)
    requires Inv(s) && Honest(s) && fd !in s.owner
    ensures Honest(Opened(s, fd, name))
  {
    var t := Opened(s, fd, name);
    forall o | o in t.owed && o.what.ReplyTo?
      ensures HasNode(t, o.what.conn)
    {
      assert HasNode(s, o.what.conn);
      var i :| 0 <= i < |s.requests| && s.requests[i].fd in s.owner && s.owner[s.requests[i].fd] == o.what.conn;
      assert t.owner[t.requests[i].fd] == o.what.conn;
    }
  }

  lemma SameNodes(s: State, t: State)
    requires Honest(s) && t.requests == s.requests && t.owner == s.owner && t.owed <= s.owed && t.log == s.log
    ensures Honest(t)
  {
    forall o | o in t.owed && o.what.ReplyTo?
      ensures HasNode(t, o.what.conn)
    {
      assert HasNode(s, o.what.conn);
      var i :| 0 <= i < |s.requests| && s.requests[i].fd in s.owner && s.owner[s.requests[i].fd] == o.what.conn;
      assert t.owner[t.requests[i].fd] == o.what.conn;
    }
  }

  lemma ForwardedStaysHonest(s: State, h: int, fd: int, peer: Peer)
    requires Honest(s) && h in s.pool && fd in s.owner
    requires !HasPeer(s, peer)
    requires forall o :: o in s.owed ==> o.what != ReplyTo(s.owner[fd])
    ensures Honest(Forwarded(s, h, fd, peer, s.owner[fd]))
  {
    var t := Forwarded(s, h, fd, peer, s.owner[fd]);
    forall o | o in t.owed && o.what.ReplyTo?
      ensures HasNode(t, o.what.conn)
    {
      if o in s.owed {
        assert HasNode(s, o.what.conn);
        var i :| 0 <= i < |s.requests| && s.requests[i].fd in s.owner && s.owner[s.requests[i].fd] == o.what.conn;
        assert t.requests[i] == s.requests[i];
      } else {
        assert t.requests[|s.requests|].fd == fd;
      }
    }
  }

  lemma RequestStaysHonest(alg: Algorithm, s: State, a: Accept)
    requires Inv(s) && Honest(s) && Legal(s, Request(a)) && !Repeats(alg, s, Request(a))
    ensures Honest(Handle(alg, s, Request(a)).s)
  {
    if a.Accepted? {
      OrderKnown(s, a.order);
      OpenedStaysHonest(s, a.fd, None);
      OpenedStaysHonest(s, a.fd, a.name);
      if a.read == Got && a.name.Some? && a.order != [] {
        ScheduledStaysHonest(alg, s, a);
      }
    }
  }

  lemma ScheduledStaysHonest(alg: Algorithm, s: State, a: Accept)
    requires Inv(s) && Legal(s, Request(a)) && !Repeats(alg, s, Request(a))
    requires a.Accepted? && a.read == Got && a.name.Some? && a.order != []
    requires forall i :: 0 <= i < |a.order| ==> a.order[i] in s.pool
    requires Honest(Opened(s, a.fd, a.name))
    ensures Honest(OnRequest(alg, s, a).s)
  {
    var m := View(s.pool, a.order);
    var h := Choose(alg, m, s.count);
    var t := Opened(s, a.fd, a.name).(count := CountAfter(alg, m, s.count));
    SameNodes(Opened(s, a.fd, a.name), t);
    NewIsUnknown(s, a.fd);
    if h == -1 || h == 0 || h !in s.pool {
      SameNodes(t, Answered(t, |s.conns|));
    } else if a.written {
      ForwardedStaysHonest(t, h, a.fd, a.name.value);
    } else {
      SameNodes(t, RemoveServer(t, h));
    }
  }

  /** The delivered response leaves the other debts their nodes. */
  lemma DeliverStaysHonest(s: State, trigger: int, r: Response)
    requires Inv(s) && Honest(s) && Legal(s, Event.Response(trigger, r)) && NamesAsker(s, Event.Response(trigger, r))
    requires r.Responded?
    ensures Honest(OnResponse(s, trigger, r).s)
  {
    FindsAsker(s, trigger, r);
    var t := Arrived(s, trigger, r);
    var k := Match(t.requests, t.target, 0);
    var fd := t.requests[k].fd;
    DeliverSteps(t, trigger, r, k);
    var u := OnResponse(s, trigger, r).s;
    assert u.requests == Without(s.requests, k) && u.owed == s.owed - {Owed(trigger, r.what)};
    assert u.log == s.log || u.log == s.log + [Delivery(r.what.conn, r.what, t.target, !LeavesOpen(r.close))];
    assert u.owner == s.owner || u.owner == s.owner - {fd};
    OthersKeepNodes(s, u, trigger, r.what, k);
  }

  /** `u` is `s` after node `k` and the debt that it was waiting for have gone. */
  ghost predicate Settled(s: State, u: State, debt: Owed, k: nat) {
    && debt in s.owed && debt.what.ReplyTo?
    && k < |s.requests| && s.requests[k].fd in s.owner && s.owner[s.requests[k].fd] == debt.what.conn
    && u.requests == Without(s.requests, k)
    && u.owed == s.owed - {debt}
    && (u.owner == s.owner || u.owner == s.owner - {s.requests[k].fd})
  }

  lemma OthersKeepTheirNode(s: State, u: State, debt: Owed, k: nat, o: Owed)
    requires Waiting(s) && Honest(s) && Settled(s, u, debt, k)
    requires o in u.owed && o.what.ReplyTo?
    ensures HasNode(u, o.what.conn)
  {
    assert HasNode(s, o.what.conn);
    var i :| 0 <= i < |s.requests| && s.requests[i].fd in s.owner && s.owner[s.requests[i].fd] == o.what.conn;
    assert o.what != debt.what && i != k;
    var j := if i < k then i else i - 1;
    assert u.requests[j] == s.requests[i];
    assert s.requests[i].fd != s.requests[k].fd;
  }

  lemma OthersKeepNodes(s: State, u: State, trigger: int, what: What, k: nat)
    requires Waiting(s) && Honest(s) && Settled(s, u, Owed(trigger, what), k)
    requires u.log == s.log || exists target, closed :: u.log == s.log + [Delivery(what.conn, what, target, closed)]
    ensures Honest(u)
  {
    forall o | o in u.owed && o.what.ReplyTo?
      ensures HasNode(u, o.what.conn)
    {
      OthersKeepTheirNode(s, u, Owed(trigger, what), k, o);
    }
  }

  lemma StepStaysHonest(alg: Algorithm, s: State, e: Event)
    requires Inv(s) && Honest(s) && Legal(s, e) && PlaysFair(alg, s, e)
    ensures Honest(Step(alg, s, e))
  {
    match e {
      case Request(a) => RequestStaysHonest(alg, s, a);
      case Response(trigger, r) =>
        if r.Responded? {
          DeliverStaysHonest(s, trigger, r);
        } else {
          SameNodes(s, RemoveServer(s, trigger));
        }
      case HealthTimer(order, health) => HealthStaysHonest(s, order, health);
    }
    SameNodes(Handle(alg, s, e).s, Step(alg, s, e));
  }

  lemma HealthStaysHonest(s: State, order: seq<int>, health: map<int, Health>)
    requires Inv(s) && Honest(s) && Legal(s, HealthTimer(order, health))
    requires forall fd :: fd in order ==> fd in health
    ensures Honest(OnHealthCheck(s, order, health).s)
  {
    OrderKnown(s, order);
    if |s.requests| == 0 {
      HealthCheckReadsItsOwn(s, order, health);
      ChecksFrame(s, order, health);
    }
  }

  ghost predicate ReachesFairly(alg: Algorithm, s: State, events: seq<Event>, t: State)
    decreases |events|
  {
    if events == [] then s == t
    else
      && Legal(s, events[0]) && PlaysFair(alg, s, events[0])
      && ReachesFairly(alg, Step(alg, s, events[0]), events[1..], t)
  }

  lemma {:induction false} RunStaysHonest(alg: Algorithm, s: State, events: seq<Event>, t: State)
    requires Inv(s) && Honest(s) && ReachesFairly(alg, s, events, t)
    ensures Inv(t) && Honest(t)
    decreases |events|
  {
    if events != [] {
      StepKeepsInv(alg, s, events[0]);
      StepStaysHonest(alg, s, events[0]);
      RunStaysHonest(alg, Step(alg, s, events[0]), events[1..], t);
    }
  }

  /** With honest clients, in every reachable state and whatever fails: all responses forwarded so far
      went to the clients that asked for them, and the next one will. */
  lemma ResponsesReachTheirAskers(alg: Algorithm, s: State, events: seq<Event>, t: State)
    requires Initial(s) && ReachesFairly(alg, s, events, t)
    ensures forall i :: 0 <= i < |t.log| ==> t.log[i].answers == ReplyTo(t.log[i].conn)
    ensures forall trigger, r ::
              Legal(t, Event.Response(trigger, r)) && NamesAsker(t, Event.Response(trigger, r)) && r.Responded? ==>
              var u := Arrived(t, trigger, r);
              var k := Match(u.requests, u.target, 0);
              && k < |u.requests|
              && u.requests[k].fd in u.owner
              && r.what == ReplyTo(u.owner[u.requests[k].fd])
  {
    InitialInv(s);
    RunStaysHonest(alg, s, events, t);
    forall trigger, r |
      Legal(t, Event.Response(trigger, r)) && NamesAsker(t, Event.Response(trigger, r)) && r.Responded?
      ensures var u := Arrived(t, trigger, r);
              var k := Match(u.requests, u.target, 0);
              && k < |u.requests|
              && u.requests[k].fd in u.owner
              && r.what == ReplyTo(u.owner[u.requests[k].fd])
    {
      FindsAsker(t, trigger, r);
    }
  }

  // ------------------------------------------------------------------ when a response goes astray

  /** A run in which responses name their askers; a client may ask again while it waits. */
  ghost predicate ReachesNamed(alg: Algorithm, s: State, events: seq<Event>, t: State)
    decreases |events|
  {
    if events == [] then s == t
    else
      && Legal(s, events[0]) && NamesAsker(s, events[0])
      && ReachesNamed(alg, Step(alg, s, events[0]), events[1..], t)
  }

  /** Some event of the run forwards a request of a peer that still waits. */
  ghost predicate RunRepeats(alg: Algorithm, s: State, events: seq<Event>)
    decreases |events|
  {
    && events != [] && Legal(s, events[0])
    && (Repeats(alg, s, events[0]) || RunRepeats(alg, Step(alg, s, events[0]), events[1..]))
  }

  lemma {:induction false} FairWithoutRepeats(alg: Algorithm, s: State, events: seq<Event>, t: State)
    requires ReachesNamed(alg, s, events, t) && !RunRepeats(alg, s, events)
    ensures ReachesFairly(alg, s, events, t)
    decreases |events|
  {
    if events != [] {
      FairWithoutRepeats(alg, Step(alg, s, events[0]), events[1..], t);
    }
  }

  /** The response is delivered to a connection that it does not answer. */
  ghost predicate GoesAstray(s: State, trigger: int, r: Response) {
    && Legal(s, Event.Response(trigger, r)) && NamesAsker(s, Event.Response(trigger, r))
    && var t := OnResponse(s, trigger, r).s;
       |t.log| > |s.log| && t.log[|s.log|].answers != ReplyTo(t.log[|s.log|].conn)
  }

  ghost predicate CanGoAstray(s: State) {
    exists trigger, r :: GoesAstray(s, trigger, r)
  }

  /** The response to the newest connection that names its peer and meets no failure. */
  function Prompt(conn: nat, p: Peer): Response {
    Responded(ReplyTo(conn), Some(p.addr), Some(p.port), true, Closed)
  }

  lemma HonestNeverStrays(s: State)
    requires Inv(s) && Honest(s)
    ensures !CanGoAstray(s)
  {
    forall trigger, r
      ensures !GoesAstray(s, trigger, r)
    {
      if Legal(s, Event.Response(trigger, r)) && NamesAsker(s, Event.Response(trigger, r)) && r.Responded? {
        DeliverStaysHonest(s, trigger, r);
      }
    }
  }

  /** What forwarding a request leaves. */
  lemma ForwardingDetails(alg: Algorithm, s: State, a: Accept) returns (h: int)
    requires Inv(s) && Legal(s, Request(a)) && a.Accepted? && a.name.Some?
    requires |Handle(alg, s, Request(a)).s.requests| > |s.requests|
    ensures var t := Step(alg, s, Request(a));
            && t.running && h in t.pool && Owed(h, ReplyTo(|s.conns|)) in t.owed
            && t.requests == s.requests + [Entry(a.name.value, a.fd)]
            && t.owner == s.owner[a.fd := |s.conns|]
            && t.conns == s.conns + [Conn(a.name, 0)] && t.log == s.log
  {
    OrderKnown(s, a.order);
    h := Choose(alg, View(s.pool, a.order), s.count);
    ForwardedDetails(alg, s, a, h);
  }

  lemma ForwardedDetails(alg: Algorithm, s: State, a: Accept, h: int)
    requires a.Accepted? && a.name.Some? && (forall i :: 0 <= i < |a.order| ==> a.order[i] in s.pool)
    requires a.order == [] ==> s.pool == map[]
    requires |OnRequest(alg, s, a).s.requests| > |s.requests|
    ensures a.order != []
    requires h == Choose(alg, View(s.pool, a.order), s.count)
    ensures var o := Opened(s, a.fd, a.name).(count := CountAfter(alg, View(s.pool, a.order), s.count));
            h in s.pool && OnRequest(alg, s, a) == Outcome(Forwarded(o, h, a.fd, a.name.value, |s.conns|), SUCCESS)
  {
  }

  lemma FirstWithPeer(requests: seq<Entry>, p: Peer, i: nat)
    requires i < |requests| && requests[i].peer == p
    ensures Match(requests, p, 0) <= i
  {
  }

  /** The response to the second request of a peer goes to its first one. */
  lemma RepeatStrays(alg: Algorithm, s: State, e: Event)
    requires Inv(s) && Legal(s, e) && Repeats(alg, s, e)
    ensures CanGoAstray(Step(alg, s, e))
  {
    var t, p, c := Step(alg, s, e), e.a.name.value, |s.conns|;
    StepKeepsInv(alg, s, e);
    var h := ForwardingDetails(alg, s, e.a);
    var i :| 0 <= i < |s.requests| && s.requests[i].peer == p;
    FirstWithPeer(t.requests, p, i);
    WaitingAnchors(t);
    StrayDelivery(t, h, c, p);
  }

  lemma StrayDelivery(t: State, h: int, c: nat, p: Peer)
    requires Inv(t) && t.running && Anchored(t) && h in t.pool && Owed(h, ReplyTo(c)) in t.owed
    requires c < |t.conns| && t.conns[c].peer == Some(p)
    requires var k := Match(t.requests, p, 0); k < |t.requests| && t.owner[t.requests[k].fd] != c
    ensures CanGoAstray(t)
  {
    assert Legal(t, Event.Response(h, Prompt(c, p))) && NamesAsker(t, Event.Response(h, Prompt(c, p)));
    var a := Arrived(t, h, Prompt(c, p));
    DeliverSteps(a, h, Prompt(c, p), Match(a.requests, a.target, 0));
    assert GoesAstray(t, h, Prompt(c, p));
  }

  ghost predicate StraysOnTheWay(alg: Algorithm, s: State, events: seq<Event>) {
    exists n: nat, u :: n <= |events| && ReachesNamed(alg, s, events[..n], u) && CanGoAstray(u)
  }

  lemma NamedPrefix(alg: Algorithm, s: State, events: seq<Event>, n: nat, t: State)
    requires n < |events| && Legal(s, events[0]) && NamesAsker(s, events[0])
    requires ReachesNamed(alg, Step(alg, s, events[0]), events[1..][..n], t)
    ensures ReachesNamed(alg, s, events[..n + 1], t)
  {
    assert events[..n + 1][1..] == events[1..][..n];
  }

  lemma {:induction false} RepeatOpensWay(alg: Algorithm, s: State, events: seq<Event>, t: State)
    returns (n: nat, u: State)
    requires Inv(s) && ReachesNamed(alg, s, events, t) && RunRepeats(alg, s, events)
    ensures n <= |events| && ReachesNamed(alg, s, events[..n], u) && CanGoAstray(u)
    decreases |events|
  {
    StepKeepsInv(alg, s, events[0]);
    if Repeats(alg, s, events[0]) {
      RepeatStrays(alg, s, events[0]);
      n, u := 0, Step(alg, s, events[0]);
      assert events[1..][..0] == [];
    } else {
      n, u := RepeatOpensWay(alg, Step(alg, s, events[0]), events[1..], t);
    }
    NamedPrefix(alg, s, events, n, u);
    n := n + 1;
  }

  lemma {:induction false} PrefixRepeats(alg: Algorithm, s: State, events: seq<Event>, n: nat)
    requires n <= |events| && RunRepeats(alg, s, events[..n])
    ensures RunRepeats(alg, s, events)
    decreases n
  {
    assert events[..n][1..] == events[1..][..n - 1];
    if !Repeats(alg, s, events[0]) {
      PrefixRepeats(alg, Step(alg, s, events[0]), events[1..], n - 1);
    }
  }

  lemma InitialIsHonest(s: State)
    requires Initial(s)
    ensures Inv(s) && Honest(s)
  {
    InitialInv(s);
  }

  /** In every run in which responses name their askers: at some point a response can be delivered to a
      client that it does not answer exactly when some event of the run forwards a request of a peer that
      still waits for another one. */
  lemma StraysIff(alg: Algorithm, s: State, events: seq<Event>, t: State)
    requires Initial(s) && ReachesNamed(alg, s, events, t)
    ensures StraysOnTheWay(alg, s, events) <==> RunRepeats(alg, s, events)
  {
    InitialIsHonest(s);
    if RunRepeats(alg, s, events) {
      var n, u := RepeatOpensWay(alg, s, events, t);
    } else {
      forall n: nat, u | n <= |events| && ReachesNamed(alg, s, events[..n], u)
        ensures !CanGoAstray(u)
      {
        if RunRepeats(alg, s, events[..n]) {
          PrefixRepeats(alg, s, events, n);
        }
        FairWithoutRepeats(alg, s, events[..n], u);
        RunStaysHonest(alg, s, events[..n], u);
        HonestNeverStrays(u);
      }
    }
  }

  // ------------------------------------------------------------------ who waits in vain

  ghost predicate IsOwed(s: State, c: nat) {
    exists h :: Owed(h, ReplyTo(c)) in s.owed
  }

  lemma {:induction false} ChecksAskNoReplies(s: State, order: seq<int>, health: map<int, Health>, o: Owed)
    requires forall fd :: fd in order ==> fd in health
    requires o in CheckAll(s, order, health).owed && o.what.ReplyTo?
    ensures o in s.owed
    decreases |order|
  {
    if order != [] {
      ChecksAskNoReplies(CheckOne(s, order[0], health[order[0]]), order[1..], health, o);
    }
  }

  /** Nobody is owed a reply later who was connected before and not owed one. */
  lemma StepOwesNoMore(alg: Algorithm, s: State, e: Event, h: int, c: nat)
    requires Inv(s) && Legal(s, e) && c < |s.conns| && Owed(h, ReplyTo(c)) in Step(alg, s, e).owed
    ensures Owed(h, ReplyTo(c)) in s.owed
  {
    match e {
      case Request(a) => RequestOwesOneMore(alg, s, a, Owed(h, ReplyTo(c)));
      case Response(trigger, r) => ResponseOwesNoMore(s, trigger, r, Owed(h, ReplyTo(c)));
      case HealthTimer(order, health) =>
        OrderKnown(s, order);
        if |s.requests| == 0 {
          ChecksAskNoReplies(s, order, health, Owed(h, ReplyTo(c)));
        }
    }
  }

  lemma RequestOwesOneMore(alg: Algorithm, s: State, a: Accept, o: Owed)
    requires Legal(s, Request(a)) && o in Handle(alg, s, Request(a)).s.owed
    ensures o in s.owed || o.what == ReplyTo(|s.conns|)
  {
    if a.Accepted? {
      OrderKnown(s, a.order);
    }
  }

  lemma ResponseOwesNoMore(s: State, trigger: int, r: Response, o: Owed)
    requires Inv(s) && Legal(s, Event.Response(trigger, r)) && o in OnResponse(s, trigger, r).s.owed
    ensures o in s.owed
  {
    if r.Responded? {
      var a := Arrived(s, trigger, r);
      var k := Match(a.requests, a.target, 0);
      if k < |a.requests| {
        DeliverSteps(a, trigger, r, k);
      }
    }
  }

  /** An open connection to which nobody owes a reply. */
  ghost predicate InVain(s: State, fd: int) {
    fd in s.owner && s.owner[fd] < |s.conns| && !IsOwed(s, s.owner[fd])
  }

  lemma FairResponseKeepsOpen(s: State, trigger: int, r: Response, fd: int)
    requires Inv(s) && Honest(s) && InVain(s, fd) && r.Responded?
    requires Legal(s, Event.Response(trigger, r)) && NamesAsker(s, Event.Response(trigger, r))
    ensures var t := OnResponse(s, trigger, r).s; fd in t.owner && t.owner[fd] == s.owner[fd]
  {
    FindsAsker(s, trigger, r);
    var a := Arrived(s, trigger, r);
    DeliverSteps(a, trigger, r, Match(a.requests, a.target, 0));
    assert Owed(trigger, r.what) in s.owed;
  }

  lemma FairStepKeepsOpen(alg: Algorithm, s: State, e: Event, fd: int)
    requires Inv(s) && Honest(s) && Legal(s, e) && PlaysFair(alg, s, e) && InVain(s, fd)
    ensures fd in Step(alg, s, e).owner && Step(alg, s, e).owner[fd] == s.owner[fd]
    ensures |Step(alg, s, e).conns| >= |s.conns|
  {
    StepOnDescriptors(alg, s, e);
    if e.Response? && e.r.Responded? {
      FairResponseKeepsOpen(s, e.trigger, e.r, fd);
    } else {
      NoResponseKeepsOpen(alg, s, e, fd);
    }
  }

  lemma NoResponseKeepsOpen(alg: Algorithm, s: State, e: Event, fd: int)
    requires Inv(s) && Legal(s, e) && fd in s.owner && (e.Response? ==> e.r.NoResponse?)
    ensures fd in Step(alg, s, e).owner && Step(alg, s, e).owner[fd] == s.owner[fd]
  {
    match e {
      case Request(a) => RequestJoins(alg, s, a);
      case Response(trigger, r) =>
      case HealthTimer(order, health) =>
        OrderKnown(s, order);
        ChecksFrame(s, order, health);
    }
  }

  lemma FairStepKeepsVain(alg: Algorithm, s: State, e: Event, fd: int)
    requires Inv(s) && Honest(s) && Legal(s, e) && PlaysFair(alg, s, e) && InVain(s, fd)
    ensures InVain(Step(alg, s, e), fd)
  {
    var t := Step(alg, s, e);
    FairStepKeepsOpen(alg, s, e, fd);
    forall h
      ensures Owed(h, ReplyTo(t.owner[fd])) !in t.owed
    {
      if Owed(h, ReplyTo(t.owner[fd])) in t.owed {
        StepOwesNoMore(alg, s, e, h, s.owner[fd]);
      }
    }
  }

  lemma {:induction false} FairRunKeepsVain(alg: Algorithm, s: State, events: seq<Event>, t: State, fd: int)
    requires Inv(s) && Honest(s) && ReachesFairly(alg, s, events, t) && InVain(s, fd)
    ensures InVain(t, fd) && t.owner[fd] == s.owner[fd]
    decreases |events|
  {
    if events != [] {
      FairStepKeepsOpen(alg, s, events[0], fd);
      FairStepKeepsVain(alg, s, events[0], fd);
      StepKeepsInv(alg, s, events[0]);
      StepStaysHonest(alg, s, events[0]);
      FairRunKeepsVain(alg, Step(alg, s, events[0]), events[1..], t, fd);
    }
  }

  ghost predicate CanBeClosed(alg: Algorithm, s: State, fd: int) {
    exists after, u :: ReachesFairly(alg, s, after, u) && fd !in u.owner
  }

  lemma OwedCanBeClosed(alg: Algorithm, s: State, fd: int, h: int)
    requires Inv(s) && Honest(s) && s.running && fd in s.owner && Owed(h, ReplyTo(s.owner[fd])) in s.owed
    ensures CanBeClosed(alg, s, fd)
  {
    var c := s.owner[fd];
    assert HasNode(s, c);
    var i :| 0 <= i < |s.requests| && s.requests[i].fd in s.owner && s.owner[s.requests[i].fd] == c;
    var e := Event.Response(h, Prompt(c, s.requests[i].peer));
    WaitingAnchors(s);
    assert Legal(s, e) && PlaysFair(alg, s, e);
    PromptCloses(s, h, c, s.requests[i].peer, fd);
    var u := Step(alg, s, e);
    assert [e][1..] == [];
    assert ReachesFairly(alg, u, [], u);
    assert ReachesFairly(alg, s, [e], u);
  }

  lemma PromptCloses(s: State, h: int, c: nat, p: Peer, fd: int)
    requires Inv(s) && Honest(s) && fd in s.owner && s.owner[fd] == c
    requires var e := Event.Response(h, Prompt(c, p)); Legal(s, e) && NamesAsker(s, e)
    ensures fd !in OnResponse(s, h, Prompt(c, p)).s.owner
  {
    FindsAsker(s, h, Prompt(c, p));
    var a := Arrived(s, h, Prompt(c, p));
    DeliverSteps(a, h, Prompt(c, p), Match(a.requests, a.target, 0));
  }

  /** With honest clients, whatever fails: the descriptor of a connection can still be closed exactly when
      the balancer runs and some server owes the reply.  So a client whose server was removed, whose
      response was lost or who was refused keeps its connection for good. */
  lemma CanBeClosedIff(alg: Algorithm, s: State, events: seq<Event>, t: State, fd: int)
    requires Initial(s) && ReachesFairly(alg, s, events, t) && fd in t.owner
    ensures CanBeClosed(alg, t, fd) <==> t.running && IsOwed(t, t.owner[fd])
  {
    InitialIsHonest(s);
    RunStaysHonest(alg, s, events, t);
    if t.running && IsOwed(t, t.owner[fd]) {
      var h :| Owed(h, ReplyTo(t.owner[fd])) in t.owed;
      OwedCanBeClosed(alg, t, fd, h);
    } else {
      forall after, u | ReachesFairly(alg, t, after, u)
        ensures fd in u.owner
      {
        if t.running {
          FairRunKeepsVain(alg, t, after, u, fd);
        }
      }
    }
  }
}
