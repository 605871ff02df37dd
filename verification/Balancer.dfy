/** The balancer as an event machine: requests of clients, responses of real servers, health checks.

    A state pairs the balancer's own data with the history that the properties speak about: the
    connections accepted so far, which of their descriptors are still open, and what every real
    server still owes an answer to. */
module Balancer {
  import opened Options
  import opened Schedulers
  import opened Conversions

  datatype Peer = Peer(addr: string, port: string)

  /** One node of the request map: a port, and the address and descriptor stored under it.  Nodes
      with equal ports keep their order of insertion. */
  datatype Entry = Entry(peer: Peer, fd: int)

  /** A connection accepted from a client: who it is, if known, and how many responses it was sent. */
  datatype Conn = Conn(peer: Option<Peer>, replies: nat)

  datatype What = ReplyTo(conn: nat) | OptionsReply

  /** A message that real server `fd` has been asked for and has not delivered. */
  datatype Owed = Owed(fd: int, what: What)

  /** A forwarded response: the connection it was written to, the one it answers, its target fields, and
      whether the descriptor of the connection was closed after it. */
  datatype Delivery = Delivery(conn: nat, answers: What, target: Peer, closed: bool)

  datatype State = State(
    pool: map<int, RealServer>,
    serverFds: set<int>,
    requests: seq<Entry>,
    target: Peer,
    count: nat,
    running: bool,
    conns: seq<Conn>,
    owner: map<int, nat>,     // open client descriptors
    owed: set<Owed>,
    lost: map<int, nat>,      // answers of each server that did not lower its load
    removedLoad: int,         // load of the servers removed, when they were
    failed: nat,              // matched responses whose write or close failed
    closed: nat,              // client descriptors closed
    log: seq<Delivery>)

  // ------------------------------------------------------------------ scheduling

  datatype Algorithm =
    | Round_Robin
    | Weighted_Round_Robin
    | Least_Connection
    | Weighted_Least_Connection
    | Hashing(ip: Option<nat>, width: Width)  // destination or source hashing

  ghost predicate IsOrder(order: seq<int>, keys: set<int>) {
    && (forall i, j :: 0 <= i < j < |order| ==> order[i] != order[j])
    && (forall i :: 0 <= i < |order| ==> order[i] in keys)
    && (forall k :: k in keys ==> k in order)
  }

  /** The copy of the pool that the scheduler gets, in its iteration order. */
  function View(pool: map<int, RealServer>, order: seq<int>): (m: SchedMap)
    requires forall i :: 0 <= i < |order| ==> order[i] in pool
    ensures |m| == |order| && forall i :: 0 <= i < |m| ==> m[i] == Slot(order[i], pool[order[i]])
  {
    seq(|order|, i requires 0 <= i < |order| => Slot(order[i], pool[order[i]]))
  }

  function Position(alg: Algorithm, m: SchedMap, count: nat): (r: Option<nat>)
    requires m != []
    ensures r.Some? ==> r.value < |m|
  {
    match alg
    case Round_Robin => Probe(m, count % |m|)
    case Weighted_Round_Robin => Select(m, WrrBeats)
    case Least_Connection => Select(m, LcBeats)
    case Weighted_Least_Connection => Select(m, WlcBeats)
    case Hashing(ip, width) => if ip.None? then None else Probe(m, HashKey(ip.value, width) % |m|)
  }

  /** What the algorithm selector answers: a descriptor, -1 for an overload, 0 for a bad address. */
  function Choose(alg: Algorithm, m: SchedMap, count: nat): int
    requires m != []
  {
    if alg.Hashing? && alg.ip.None? then 0 else FdOf(m, Position(alg, m, count))
  }

  function CountAfter(alg: Algorithm, m: SchedMap, count: nat): nat
    requires m != []
  {
    if alg.Round_Robin? then NextCount(m, count) else count
  }

  class AlgorithmSelector {
    const alg: Algorithm
    const rr: SchedRR
    const wrr: SchedWRR
    const lc: SchedLC
    const wlc: SchedWLC
    const hash: SchedHash

    constructor (alg: Algorithm)
      ensures this.alg == alg && rr.count == 1 && fresh(rr) && fresh(wrr) && fresh(lc) && fresh(wlc) && fresh(hash)
      ensures Valid()
    {
      this.alg := alg;
      rr := new SchedRR();
      wrr := new SchedWRR();
      lc := new SchedLC();
      wlc := new SchedWLC();
      hash := new SchedHash(if alg.Hashing? then alg.width else Bits32);
      new;
      if alg.Hashing? {
        hash.SetHandleIP(alg.ip);
      }
    }

    ghost predicate Valid()
      reads hash
    {
      alg.Hashing? ==> hash.handleIp == alg.ip && hash.width == alg.width
    }

    method SelectServer(m: SchedMap) returns (fd: int)
      requires m != [] && Valid()
      modifies rr, wrr, lc, wlc, hash`schedMap
      ensures fd == Choose(alg, m, old(rr.count)) && rr.count == CountAfter(alg, m, old(rr.count)) && Valid()
    {
      if alg.Round_Robin? {
        rr.SetSchedMap(m);
        fd := rr.SelectServer();
      } else if alg.Weighted_Round_Robin? {
        wrr.SetSchedMap(m);
        fd := wrr.SelectServer();
      } else if alg.Least_Connection? {
        lc.SetSchedMap(m);
        fd := lc.SelectServer();
      } else if alg.Weighted_Least_Connection? {
        wlc.SetSchedMap(m);
        fd := wlc.SelectServer();
      } else {
        hash.SetSchedMap(m);
        fd := hash.SelectServer();
      }
    }
  }

  // ------------------------------------------------------------------ events

  datatype ReadKind = Failed | Eof | Got

  /** A connection: its descriptor, how reading from it went, the name of the peer, the iteration
      order of the pool, and whether the write that follows the scheduling succeeds. */
  datatype Accept = AcceptFailed | Accepted(fd: int, read: ReadKind, name: Option<Peer>, order: seq<int>, written: bool)

  datatype Close = Closed | CloseFailed(stillOpen: bool)

  /** A response as the balancer reads it; a target field that it does not find stays as it was. */
  datatype Response =
    | NoResponse
    | Responded(what: What, ip: Option<string>, port: Option<string>, written: bool, close: Close)

  datatype Health = WriteFailed | ReadFailed | Replied(what: What)

  datatype Status = SUCCESS | MINOR_ERROR | FATAL_ERROR

  function OwedByOthers(owed: set<Owed>, fd: int): set<Owed> {
    set o | o in owed && o.fd != fd
  }

  /** A server whose socket failed; what it owes will never arrive. */
  function RemoveServer(s: State, fd: int): State {
    s.(pool := s.pool - {fd}, serverFds := s.serverFds - {fd}, lost := s.lost - {fd},
       owed := OwedByOthers(s.owed, fd),
       removedLoad := s.removedLoad + if fd in s.pool then s.pool[fd].curLoad else 0)
  }

  /** A new connection, on a descriptor that nobody has closed yet. */
  function Opened(s: State, fd: int, name: Option<Peer>): State {
    s.(conns := s.conns + [Conn(name, 0)], owner := s.owner[fd := |s.conns|])
  }

  function Answered(s: State, conn: nat): State
    requires conn < |s.conns|
  {
    s.(conns := s.conns[conn := s.conns[conn].(replies := s.conns[conn].replies + 1)])
  }

  function AddLoad(pool: map<int, RealServer>, fd: int, delta: int): map<int, RealServer>
    requires fd in pool
  {
    pool[fd := pool[fd].(curLoad := pool[fd].curLoad + delta)]
  }

  /** The request has been written to server `h`. */
  function Forwarded(s: State, h: int, fd: int, peer: Peer, conn: nat): State
    requires h in s.pool
  {
    s.(pool := AddLoad(s.pool, h, 1), requests := s.requests + [Entry(peer, fd)],
       owed := s.owed + {Owed(h, ReplyTo(conn))})
  }

  datatype Outcome = Outcome(s: State, status: Status)

  function OnRequest(alg: Algorithm, s: State, a: Accept): Outcome
    requires a.Accepted? ==> forall i :: 0 <= i < |a.order| ==> a.order[i] in s.pool
    requires a.Accepted? && a.order == [] ==> s.pool == map[]
  {
    if a.AcceptFailed? then Outcome(s, FATAL_ERROR)
    else if a.read != Got || a.name.None? then Outcome(Opened(s, a.fd, None), MINOR_ERROR)
    else
      var o := Opened(s, a.fd, a.name);
      if a.order == [] then Outcome(o, FATAL_ERROR)
      else
        var m := View(s.pool, a.order);
        var h := Choose(alg, m, s.count);
        var t := o.(count := CountAfter(alg, m, s.count));
        if h == -1 || h == 0 || h !in s.pool then
          Outcome(if a.written then Answered(t, |s.conns|) else t, MINOR_ERROR)
        else if !a.written then Outcome(RemoveServer(t, h), MINOR_ERROR)
        else Outcome(Forwarded(t, h, a.fd, a.name.value, |s.conns|), SUCCESS)
  }

  /** The first node for a peer. */
  function Match(requests: seq<Entry>, peer: Peer, i: nat): (k: nat)
    requires i <= |requests|
    ensures i <= k <= |requests|
    ensures k < |requests| ==> requests[k].peer == peer
    ensures forall j :: i <= j < k ==> requests[j].peer != peer
    decreases |requests| - i
  {
    if i == |requests| || requests[i].peer == peer then i else Match(requests, peer, i + 1)
  }

  /** A response has arrived; its target fields are on record and its server owes it no more. */
  function Arrived(s: State, trigger: int, r: Response): State
    requires r.Responded?
  {
    s.(target := Peer(if r.ip.Some? then r.ip.value else s.target.addr,
                      if r.port.Some? then r.port.value else s.target.port),
       owed := s.owed - {Owed(trigger, r.what)})
  }

  function Lose(s: State, trigger: int): State {
    s.(lost := if trigger in s.lost then s.lost[trigger := s.lost[trigger] + 1] else s.lost)
  }

  function CloseClient(s: State, fd: int): State {
    s.(owner := s.owner - {fd}, closed := s.closed + 1)
  }

  predicate LeavesOpen(c: Close) {
    c.CloseFailed? && c.stillOpen
  }

  /** The matched node leaves the request map, and the response is written to its descriptor. */
  function Deliver(s: State, trigger: int, r: Response, k: nat): Outcome
    requires r.Responded? && k < |s.requests| && s.requests[k].fd in s.owner && s.owner[s.requests[k].fd] < |s.conns|
    requires trigger in s.pool
  {
    var e := s.requests[k];
    var conn := s.owner[e.fd];
    var t := s.(requests := s.requests[..k] + s.requests[k + 1..]);
    if !r.written then Outcome(Lose(t, trigger).(failed := t.failed + 1), MINOR_ERROR)
    else
      var u := Answered(t, conn).(log := t.log + [Delivery(conn, r.what, s.target, !LeavesOpen(r.close))]);
      match r.close
      case CloseFailed(stillOpen) =>
        var v := Lose(u, trigger).(failed := u.failed + 1);
        Outcome(if stillOpen then v else CloseClient(v, e.fd), MINOR_ERROR)
      case Closed => Outcome(CloseClient(u, e.fd).(pool := AddLoad(u.pool, trigger, -1)), SUCCESS)
  }

  /** The descriptors in the request map belong to connections. */
  ghost predicate Anchored(s: State) {
    forall i :: 0 <= i < |s.requests| ==> s.requests[i].fd in s.owner && s.owner[s.requests[i].fd] < |s.conns|
  }

  function OnResponse(s: State, trigger: int, r: Response): Outcome
    requires trigger in s.pool && Anchored(s)
  {
    if r.NoResponse? then
      var t := RemoveServer(s, trigger);
      if t.pool == map[] then Outcome(t, FATAL_ERROR) else Outcome(t, MINOR_ERROR)
    else
      var t := Arrived(s, trigger, r);
      var k := Match(t.requests, t.target, 0);
      if k == |t.requests| then Outcome(Lose(t, trigger), MINOR_ERROR) else Deliver(t, trigger, r, k)
  }

  /** One round of the health check: OPTIONS is written to the server and one message is read. */
  function CheckOne(s: State, fd: int, h: Health): State {
    match h
    case WriteFailed => RemoveServer(s, fd)
    case ReadFailed => RemoveServer(s, fd)
    case Replied(what) => s.(owed := s.owed + {Owed(fd, OptionsReply)} - {Owed(fd, what)})
  }

  function CheckAll(s: State, order: seq<int>, health: map<int, Health>): State
    requires forall fd :: fd in order ==> fd in health
    decreases |order|
  {
    if order == [] then s else CheckAll(CheckOne(s, order[0], health[order[0]]), order[1..], health)
  }

  function OnHealthCheck(s: State, order: seq<int>, health: map<int, Health>): Outcome
    requires forall fd :: fd in order ==> fd in health
  {
    if |s.requests| > 0 then Outcome(s, MINOR_ERROR)
    else
      var t := CheckAll(s, order, health);
      if t.pool == map[] then Outcome(t, FATAL_ERROR) else Outcome(t, SUCCESS)
  }

  datatype Event =
    | Request(a: Accept)
    | Response(trigger: int, r: Response)
    | HealthTimer(order: seq<int>, health: map<int, Health>)

  ghost predicate HasOrder(s: State, order: seq<int>) {
    IsOrder(order, s.pool.Keys)
  }

  /** What the environment may do.  A new connection gets a positive descriptor that is not open.  Only
      servers that the balancer knows trigger a response, and a message that arrives from a server is
      one that the server owes. */
  ghost predicate Legal(s: State, e: Event) {
    && s.running && Anchored(s)
    && match e
       case Request(a) => a.Accepted? ==> 0 < a.fd && a.fd !in s.owner && a.fd !in s.pool && HasOrder(s, a.order)
       case Response(trigger, r) => trigger in s.pool && (r.Responded? ==> Owed(trigger, r.what) in s.owed)
       case HealthTimer(order, health) =>
         && HasOrder(s, order)
         && health.Keys == s.pool.Keys
         && (|s.requests| == 0 ==> LegalChecks(s, order, health))
  }

  /** Each round of a health check reads a message that the server owes at that moment. */
  ghost predicate LegalChecks(s: State, order: seq<int>, health: map<int, Health>)
    decreases |order|
  {
    order != [] ==>
      && order[0] in health
      && (health[order[0]].Replied? ==>
            Owed(order[0], health[order[0]].what) in s.owed + {Owed(order[0], OptionsReply)})
      && LegalChecks(CheckOne(s, order[0], health[order[0]]), order[1..], health)
  }

  ghost function Handle(alg: Algorithm, s: State, e: Event): Outcome
    requires Legal(s, e)
  {
    match e
    case Request(a) => if a.Accepted? then OrderKnown(s, a.order); OnRequest(alg, s, a) else OnRequest(alg, s, a)
    case Response(trigger, r) => OnResponse(s, trigger, r)
    case HealthTimer(order, health) => OrderKnown(s, order); OnHealthCheck(s, order, health)
  }

  lemma OrderKnown(s: State, order: seq<int>)
    requires HasOrder(s, order)
    ensures forall i :: 0 <= i < |order| ==> order[i] in s.pool
    ensures order == [] ==> s.pool == map[]
  {
    if order == [] {
      assert forall k :: k in s.pool.Keys ==> k in order;
      assert s.pool.Keys == {};
    }
  }

  function EraseNode(nodes: seq<int>, it: nat): (r: seq<int>)
    requires it < |nodes|
    ensures |r| == |nodes| - 1 && forall i :: 0 <= i < |r| ==> r[i] == nodes[if i < it then i else i + 1]
    ensures r[it..] == nodes[it + 1..] && r[..it] == nodes[..it]
  {
    nodes[..it] + nodes[it + 1..]
  }

  /** Erasing a node leaves an iteration order of the rest. */
  lemma ErasedIsOrder(nodes: seq<int>, it: nat, keys: set<int>)
    requires IsOrder(nodes, keys) && it < |nodes|
    ensures IsOrder(EraseNode(nodes, it), keys - {nodes[it]})
  {
    var rest := EraseNode(nodes, it);
    forall k | k in keys - {nodes[it]}
      ensures k in rest
    {
      var i :| 0 <= i < |nodes| && nodes[i] == k;
      assert rest[if i < it then i else i - 1] == k;
    }
  }

  /** One turn of the event loop; a fatal error ends it. */
  ghost function Step(alg: Algorithm, s: State, e: Event): State
    requires Legal(s, e)
  {
    var o := Handle(alg, s, e);
    o.s.(running := o.status != FATAL_ERROR)
  }

  // ------------------------------------------------------------------ the balancer

  /** How connecting to one real server goes. */
  datatype Connect = NotConnected | CheckNotWritten | CheckNotAnswered | Connected(fd: int, maxLoad: int)

  const MAX_REAL_SERVER := 3
  const SERVER_PORT_NUM := "50000"

  /** The hosts are 127.0.0.2, 127.0.0.3 and so on. */
  function HostOf(i: nat): string {
    "127.0.0." + ConvertToString(i + 1)
  }

  ghost predicate DistinctFds(connects: seq<Connect>) {
    forall i, j :: 0 <= i < j < |connects| && connects[i].Connected? && connects[j].Connected? ==>
      connects[i].fd != connects[j].fd
  }

  ghost predicate AllAnswered(connects: seq<Connect>) {
    forall c :: c in connects ==> c.NotConnected? || c.Connected?
  }

  /** The first host that is reachable and does not answer is number `i`; there is none if `i` is past the last. */
  ghost predicate StopsAt(connects: seq<Connect>, i: int) {
    && 0 <= i <= |connects| && AllAnswered(connects[..i])
    && (i < |connects| ==> !connects[i].NotConnected? && !connects[i].Connected?)
  }

  /** The servers that were connected, with their hosts and limits. */
  function PoolOf(connects: seq<Connect>): map<int, RealServer> {
    if connects == [] then map[]
    else
      var n := |connects| - 1;
      var c, before := connects[n], PoolOf(connects[..n]);
      if c.Connected? then before[c.fd := RealServer(HostOf(n + 1), SERVER_PORT_NUM, c.maxLoad, 0)] else before
  }

  ghost predicate ConnectedAs(connects: seq<Connect>, fd: int) {
    exists i :: 0 <= i < |connects| && connects[i].Connected? && connects[i].fd == fd
  }

  lemma ConnectedBefore(connects: seq<Connect>, n: nat, fd: int)
    requires n <= |connects| && ConnectedAs(connects[..n], fd)
    ensures ConnectedAs(connects, fd)
  {
    var i :| 0 <= i < n && connects[..n][i].Connected? && connects[..n][i].fd == fd;
    assert connects[i].fd == fd;
  }

  /** The pool lists every connected server, and nothing else, under its own host and without load. */
  lemma {:induction false} PoolHolds(connects: seq<Connect>)
    requires DistinctFds(connects)
    ensures forall i :: 0 <= i < |connects| && connects[i].Connected? ==>
              connects[i].fd in PoolOf(connects) &&
              PoolOf(connects)[connects[i].fd] == RealServer(HostOf(i + 1), SERVER_PORT_NUM, connects[i].maxLoad, 0)
    ensures forall fd :: fd in PoolOf(connects) ==> ConnectedAs(connects, fd) && PoolOf(connects)[fd].curLoad == 0
    decreases |connects|
  {
    if connects != [] {
      var n := |connects| - 1;
      PoolHolds(connects[..n]);
      forall fd | fd in PoolOf(connects)
        ensures ConnectedAs(connects, fd) && PoolOf(connects)[fd].curLoad == 0
      {
        if !(connects[n].Connected? && connects[n].fd == fd) {
          ConnectedBefore(connects, n, fd);
        }
      }
    }
  }

  lemma Hosts()
    ensures HostOf(1) == "127.0.0.2" && HostOf(2) == "127.0.0.3" && HostOf(3) == "127.0.0.4"
  {
    assert ConvertToString(2) == "2" && ConvertToString(3) == "3" && ConvertToString(4) == "4";
  }

  /** The three servers that the balancer knows of. */
  lemma ThreeServers(connects: seq<Connect>)
    requires |connects| == MAX_REAL_SERVER && DistinctFds(connects)
    ensures connects[0].Connected? ==>
              MapsTo(PoolOf(connects), connects[0].fd, RealServer("127.0.0.2", "50000", connects[0].maxLoad, 0))
    ensures connects[1].Connected? ==>
              MapsTo(PoolOf(connects), connects[1].fd, RealServer("127.0.0.3", "50000", connects[1].maxLoad, 0))
    ensures connects[2].Connected? ==>
              MapsTo(PoolOf(connects), connects[2].fd, RealServer("127.0.0.4", "50000", connects[2].maxLoad, 0))
  {
    Hosts();
    PoolHolds(connects);
  }

  predicate MapsTo(pool: map<int, RealServer>, fd: int, server: RealServer) {
    fd in pool && pool[fd] == server
  }

  function NoneLost(fds: set<int>): map<int, nat> {
    map fd | fd in fds :: 0
  }

  function Started(pool: map<int, RealServer>): State {
    Blank().(pool := pool, serverFds := pool.Keys, lost := NoneLost(pool.Keys))
  }

  /** The next host of the list. */
  lemma OneMoreHost(connects: seq<Connect>, i: nat)
    requires i < |connects| && AllAnswered(connects[..i])
    ensures var c, before := connects[i], PoolOf(connects[..i]);
            && (AllAnswered(connects[..i + 1]) <==> c.NotConnected? || c.Connected?)
            && (AllAnswered(connects) ==> c.NotConnected? || c.Connected?)
            && Started(PoolOf(connects[..i + 1])) ==
                 if !c.Connected? then Started(before)
                 else Added(Started(before), c.fd, RealServer(HostOf(i + 1), SERVER_PORT_NUM, c.maxLoad, 0))
  {
    var c, upTo := connects[i], connects[..i + 1];
    assert upTo == connects[..i] + [c] && upTo[..i] == connects[..i] && upTo[i] == c;
    assert c in connects;
    if c.Connected? {
      StartedAdds(PoolOf(connects[..i]), c.fd, RealServer(HostOf(i + 1), SERVER_PORT_NUM, c.maxLoad, 0));
    }
  }

  function Added(s: State, fd: int, server: RealServer): State {
    s.(pool := s.pool[fd := server], serverFds := s.serverFds + {fd}, lost := s.lost[fd := 0])
  }

  lemma StartedAdds(pool: map<int, RealServer>, fd: int, server: RealServer)
    ensures pool[fd := server].Keys == pool.Keys + {fd}
    ensures NoneLost(pool[fd := server].Keys) == NoneLost(pool.Keys)[fd := 0]
  {
  }

  class LoadBalancer {
    const selector: AlgorithmSelector
    var serverPool: map<int, RealServer>
    var serverFds: set<int>
    var requestMap: seq<Entry>
    var targetIp: string
    var targetPort: string
    var balancerRun: bool
    // The history.  The functions that define the events define it, so the handlers just assign it; what
    // their contracts check of a body is what it does to the fields above.
    ghost var past: State

    ghost function State(): State
      reads this, selector.rr
    {
      past.(pool := serverPool, serverFds := serverFds, requests := requestMap, target := Peer(targetIp, targetPort),
            count := selector.rr.count, running := balancerRun)
    }

    constructor (alg: Algorithm)
      ensures selector.alg == alg && selector.Valid()
      ensures State() == Blank()
    {
      selector := new AlgorithmSelector(alg);
      serverPool, serverFds, requestMap := map[], {}, [];
      targetIp, targetPort, balancerRun := "", "", true;
      past := Blank();
    }

    method AddServer(fd: int, server: RealServer)
      modifies this`serverPool, this`serverFds, this`past
      ensures serverPool == old(serverPool)[fd := server] && serverFds == old(serverFds) + {fd}
      ensures past == old(past).(lost := old(past).lost[fd := 0])
    {
      serverFds := serverFds + {fd};
      serverPool := serverPool[fd := server];
      past := past.(lost := past.lost[fd := 0]);
    }

    /** An unreachable host is passed over; a host that does not answer the check ends the balancer. */
    method ConnectRealServers(connects: seq<Connect>) returns (status: Status)
      requires |connects| == MAX_REAL_SERVER && State() == Blank() && DistinctFds(connects)
      modifies this
      ensures status == SUCCESS || status == FATAL_ERROR
      ensures status == SUCCESS <==> AllAnswered(connects) && PoolOf(connects) != map[]
      ensures status == SUCCESS ==> State() == Started(PoolOf(connects)) && Initial(State())
      ensures exists i :: StopsAt(connects, i) && State() == Started(PoolOf(connects[..i]))
    {
      var i := 0;
      assert connects[..0] == [];
      while i < MAX_REAL_SERVER
        invariant 0 <= i <= MAX_REAL_SERVER
        invariant State() == Started(PoolOf(connects[..i])) && AllAnswered(connects[..i])
      {
        var c := connects[i];
        OneMoreHost(connects, i);
        i := i + 1;
        if c.NotConnected? {
          continue;
        }
        if !c.Connected? {
          assert StopsAt(connects, i - 1);
          return FATAL_ERROR;
        }
        AddServer(c.fd, RealServer(HostOf(i), SERVER_PORT_NUM, c.maxLoad, 0));
      }
      assert connects[..i] == connects && StopsAt(connects, i);
      if |serverPool| <= 0 {
        return FATAL_ERROR;
      }
      PoolHolds(connects);
      return SUCCESS;
    }

    method HandleRequestFromClient(a: Accept) returns (status: Status)
      requires selector.Valid() && Legal(State(), Request(a))
      modifies this`serverPool, this`serverFds, this`requestMap, this`past
      modifies selector.rr, selector.wrr, selector.lc, selector.wlc, selector.hash`schedMap
      ensures selector.Valid()
      ensures Outcome(State(), status) == Handle(selector.alg, old(State()), Request(a))
    {
      if a.AcceptFailed? {
        return FATAL_ERROR;
      }
      OrderKnown(State(), a.order);
      if a.read != Got || a.name.None? {
        past := Opened(State(), a.fd, None);
        return MINOR_ERROR;
      }
      ghost var conn := |past.conns|;
      past := Opened(State(), a.fd, a.name);
      if a.order == [] {
        return FATAL_ERROR;
      }
      var handle := selector.SelectServer(View(serverPool, a.order));
      if handle == -1 || handle == 0 || handle !in serverPool {
        // 503 or 500 to the client; the descriptor stays open
        if a.written {
          past := Answered(State(), conn);
        }
        return MINOR_ERROR;
      }
      if !a.written {
        DropServer(handle);
        return MINOR_ERROR;
      }
      past := Forwarded(State(), handle, a.fd, a.name.value, conn);
      serverPool := AddLoad(serverPool, handle, 1);
      requestMap := requestMap + [Entry(a.name.value, a.fd)];
      return SUCCESS;
    }

    /** The loop over the nodes of a port: the first one with the right address leaves the map. */
    method TakeMatch() returns (fd: int)
      modifies this`requestMap
      ensures var k := Match(old(requestMap), Peer(targetIp, targetPort), 0);
              if k == |old(requestMap)| then fd == 0 && requestMap == old(requestMap)
              else fd == old(requestMap)[k].fd && requestMap == old(requestMap)[..k] + old(requestMap)[k + 1..]
    {
      fd := 0;
      var it := 0;
      while it < |requestMap|
        invariant 0 <= it <= |requestMap| && requestMap == old(requestMap) && fd == 0
        invariant Match(requestMap, Peer(targetIp, targetPort), 0) == Match(requestMap, Peer(targetIp, targetPort), it)
      {
        if requestMap[it].peer == Peer(targetIp, targetPort) {
          fd := requestMap[it].fd;
          requestMap := requestMap[..it] + requestMap[it + 1..];
          return;
        }
        it := it + 1;
      }
    }

    /** The server's socket has failed. */
    method DropServer(fd: int)
      modifies this`serverPool, this`serverFds, this`past
      ensures State() == RemoveServer(old(State()), fd)
    {
      past := RemoveServer(State(), fd);
      serverFds := serverFds - {fd};
      serverPool := serverPool - {fd};
    }

    /** The target fields of the message; what the extractor does not find keeps its old value. */
    method GetTarget(trigger: int, r: Response)
      requires r.Responded?
      modifies this`targetIp, this`targetPort, this`past
      ensures State() == Arrived(old(State()), trigger, r)
    {
      past := Arrived(State(), trigger, r);
      if r.ip.Some? {
        targetIp := r.ip.value;
      }
      if r.port.Some? {
        targetPort := r.port.value;
      }
    }

    /** The matched node `k` of `arrived` has left the map; the rest of the delivery. */
    method SendBack(trigger: int, r: Response, ghost arrived: State, ghost k: nat) returns (status: Status)
      requires r.Responded? && k < |arrived.requests| && trigger in arrived.pool
      requires arrived.requests[k].fd in arrived.owner && arrived.owner[arrived.requests[k].fd] < |arrived.conns|
      requires State() == arrived.(requests := arrived.requests[..k] + arrived.requests[k + 1..])
      modifies this`serverPool, this`past
      ensures Outcome(State(), status) == Deliver(arrived, trigger, r, k)
    {
      past := Deliver(arrived, trigger, r, k).s;
      if !r.written {
        return MINOR_ERROR;
      }
      if r.close.CloseFailed? {
        return MINOR_ERROR;
      }
      serverPool := AddLoad(serverPool, trigger, -1);
      return SUCCESS;
    }

    method HandleResultFromServer(trigger: int, r: Response) returns (status: Status)
      requires Legal(State(), Event.Response(trigger, r))
      requires forall i :: 0 <= i < |requestMap| ==> requestMap[i].fd != 0
      modifies this
      ensures Outcome(State(), status) == OnResponse(old(State()), trigger, r)
    {
      if r.NoResponse? {
        DropServer(trigger);
        if |serverPool| <= 0 {
          return FATAL_ERROR;
        }
        return MINOR_ERROR;
      }
      GetTarget(trigger, r);
      ghost var arrived := State();
      ghost var k := Match(arrived.requests, arrived.target, 0);
      var targetFd := TakeMatch();
      if targetFd == 0 {
        past := Lose(State(), trigger);
        return MINOR_ERROR;
      }
      status := SendBack(trigger, r, arrived, k);
    }

    /** The round of the health check for the node under the iterator.  The loop erases while it iterates:
        `nodes` are the nodes of the pool in iteration order, and erasing one makes the iterator stand at
        the next. */
    method CheckServer(nodes: seq<int>, it: nat, h: Health) returns (rest: seq<int>, next: nat)
      requires IsOrder(nodes, serverPool.Keys) && it < |nodes|
      modifies this`serverPool, this`serverFds, this`past
      ensures State() == CheckOne(old(State()), nodes[it], h)
      ensures IsOrder(rest, serverPool.Keys) && serverPool.Keys <= old(serverPool.Keys)
      ensures next <= |rest| && rest[next..] == nodes[it + 1..]
      ensures rest[..next] == nodes[..it] + if h.Replied? then [nodes[it]] else []
    {
      if h.Replied? {
        past := CheckOne(State(), nodes[it], h);
        return nodes, it + 1;
      }
      ErasedIsOrder(nodes, it, serverPool.Keys);
      DropServer(nodes[it]);
      return EraseNode(nodes, it), it;
    }

    method HealthCheck(order: seq<int>, health: map<int, Health>) returns (status: Status)
      requires IsOrder(order, serverPool.Keys) && health.Keys == serverPool.Keys
      modifies this`serverPool, this`serverFds, this`past
      ensures Outcome(State(), status) == OnHealthCheck(old(State()), order, health)
      ensures status == MINOR_ERROR <==> old(requestMap) != []
      ensures status != MINOR_ERROR ==> forall fd :: fd in serverPool ==> fd in health && health[fd].Replied?
    {
      if |requestMap| > 0 {
        return MINOR_ERROR;
      }
      var nodes, it := order, 0;
      assert nodes[0..] == order;
      while it < |nodes|
        invariant 0 <= it <= |nodes| && IsOrder(nodes, serverPool.Keys) && serverPool.Keys <= health.Keys
        invariant CheckAll(old(State()), order, health) == CheckAll(State(), nodes[it..], health)
        invariant forall fd :: fd in nodes[..it] ==> health[fd].Replied?
        decreases |nodes| - it
      {
        assert nodes[it..][0] == nodes[it] && nodes[it..][1..] == nodes[it + 1..];
        nodes, it := CheckServer(nodes, it, health[nodes[it]]);
      }
      assert nodes[..it] == nodes;
      if |serverPool| <= 0 {
        return FATAL_ERROR;
      }
      return SUCCESS;
    }

    /** One turn of the event loop. */
    method Turn(e: Event)
      requires selector.Valid() && Legal(State(), e)
      requires forall i :: 0 <= i < |requestMap| ==> requestMap[i].fd != 0
      modifies this, selector.rr, selector.wrr, selector.lc, selector.wlc, selector.hash`schedMap
      ensures selector.Valid() && State() == Step(selector.alg, old(State()), e)
    {
      var status: Status;
      match e {
        case Request(a) =>
          status := HandleRequestFromClient(a);
        case Response(trigger, r) =>
          status := HandleResultFromServer(trigger, r);
        case HealthTimer(order, health) =>
          OrderKnown(State(), order);
          status := HealthCheck(order, health);
      }
      if status == FATAL_ERROR {
        balancerRun := false;
      }
    }
  }

  function Blank(): State {
    State(map[], {}, [], Peer("", ""), 1, true, [], map[], {}, map[], 0, 0, 0, [])
  }

  /** After a successful start: some servers, all without load, and nothing else yet. */
  ghost predicate Initial(s: State) {
    && s == Blank().(pool := s.pool, serverFds := s.serverFds, lost := s.lost)
    && s.pool != map[] && s.serverFds == s.pool.Keys == s.lost.Keys
    && forall fd :: fd in s.pool ==> s.pool[fd].curLoad == 0 && s.lost[fd] == 0
  }
}
