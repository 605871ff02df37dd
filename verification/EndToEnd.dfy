/** The balancer and its real servers together: the responses that arrive are those that the servers print
    for the requests that the balancer forwarded. */
module EndToEnd {
  import opened Options
  import opened Text
  import opened Conversions
  import opened Balancer
  import opened BalancerRuns
  import opened HonestRuns
  import HttpReader
  import HttpWriter
  import Refusals
  import Routing

  // ------------------------------------------------------------------ the answers of a real server

  /** The first word that makes a child tell the limit of its server, in upper or lower case. */
  const CHECK := "SERVERCHECK"

  function ToUpper(c: char): char {
    if 'a' <= c <= 'z' then (c as int - 32) as char else c
  }

  predicate IsCheck(text: string) {
    |text| >= |CHECK| && forall i :: 0 <= i < |CHECK| ==> ToUpper(text[i]) == CHECK[i]
  }

  function LoadFor(text: string, maxChildren: int): string {
    if IsCheck(text) then ConvertToString(maxChildren) else ""
  }

  /** What a child of a server with this limit replies to a text. */
  function ChildReply(text: string, maxChildren: int, file: HttpReader.FileResult): HttpReader.Reply {
    HttpReader.ReplyTo(text, LoadFor(text, maxChildren), file)
  }

  /** The round of a child for one request. */
  method ChildWork(msg: HttpWriter.HTTPMessage, maxChildren: int, file: HttpReader.FileResult)
    returns (end: HttpReader.End, response: Option<HttpWriter.HTTPMessage>)
    requires HttpReader.Printable(CStr(msg), LoadFor(CStr(msg), maxChildren), file)
    ensures var r := ChildReply(CStr(msg), maxChildren, file);
            && (end == HttpReader.Broke <==> r.Undefined?)
            && (r.Silent? ==> response.None?)
            && (r.Sent? ==> response.Some? && HttpReader.Carries(response.value, r))
  {
    var reader := new HttpReader.HTTPReader(msg);
    if IsCheck(CStr(msg)) {
      reader.SetMaxLoad(ConvertToString(maxChildren));
    }
    end := reader.Start(file);
    response := reader.responseMsg;
  }

  /** A text that a real server sends back for the request: the reply of a child, or the server's own
      refusal if the request does not hide its source from the server. */
  ghost predicate IsFromServer(text: string, r: Routing.Request)
    requires |r.Text()| < HttpWriter.HTTP_MSG_SIZE
  {
    IsRefusalOf(text, r) || exists maxChildren, file :: IsReplyOf(text, r, maxChildren, file)
  }

  ghost predicate IsReplyOf(text: string, r: Routing.Request, maxChildren: int, file: HttpReader.FileResult)
    requires |r.Text()| < HttpWriter.HTTP_MSG_SIZE
  {
    var reply := ChildReply(CStr(HttpWriter.Pack(r.Text())), maxChildren, file);
    && reply.Sent? && |reply.text| < HttpWriter.HTTP_MSG_SIZE
    && text == CStr(HttpWriter.Pack(reply.text))
  }

  ghost predicate IsRefusalOf(text: string, r: Routing.Request)
    requires |r.Text()| < HttpWriter.HTTP_MSG_SIZE
  {
    var refusal := Refusals.Refusal(CStr(HttpWriter.Pack(r.Text())));
    && |refusal| < HttpWriter.HTTP_MSG_SIZE
    && text == CStr(HttpWriter.Pack(refusal))
    && !Refusals.Hides(Refusals.BeforeIp(r), Refusals.SOURCE_IP, r.sourceIp)
    && !Refusals.Hides(Refusals.BeforePort(r), Refusals.SOURCE_PORT, r.sourcePort)
  }

  // ------------------------------------------------------------------ responses name their askers

  /** A request that a client prints on its connection: it states the client's own address and port. */
  ghost predicate PrintedBy(r: Routing.Request, p: Peer) {
    && r.WellFormed() && '\0' !in r.Text() && |r.Text()| < HttpWriter.HTTP_MSG_SIZE
    && r.sourceIp == p.addr && r.sourcePort == p.port && Free(p.addr, Routing.TARGET_PORT)
  }

  /** The target fields that arrive are those of a text that a server sends back for the request. */
  ghost predicate Answers(r: Routing.Request, ip: Option<string>, port: Option<string>)
    requires |r.Text()| < HttpWriter.HTTP_MSG_SIZE
  {
    exists text ::
      && IsFromServer(text, r)
      && ip == Routing.Lookup(text, Routing.TARGET_IP) && port == Routing.Lookup(text, Routing.TARGET_PORT)
  }

  lemma LookupIs(text: string, target: string, value: string)
    requires forall content :: Routing.Extract(text, target, content) == value
    ensures Routing.Lookup(text, target) == Some(value)
  {
    assert Routing.Extract(text, target, value + "x") == value;
  }

  lemma TextNamesClient(text: string, r: Routing.Request, p: Peer, content: string)
    requires PrintedBy(r, p) && IsFromServer(text, r)
    ensures Routing.Extract(text, Routing.TARGET_IP, content) == p.addr
    ensures Routing.Extract(text, Routing.TARGET_PORT, content) == p.port
  {
    Routing.PortReadIff(p.addr, p.port);
    if IsRefusalOf(text, r) {
      Refusals.RefusalRoundTrip(r, content, content);
      Refusals.RefusalReadIff(r);
    } else {
      var maxChildren, file :| IsReplyOf(text, r, maxChildren, file);
      Routing.RoutingRoundTrip(r, LoadFor(CStr(HttpWriter.Pack(r.Text())), maxChildren), file, content, content);
    }
  }

  /** The response names the client. */
  lemma ReplyNamesClient(r: Routing.Request, p: Peer, ip: Option<string>, port: Option<string>)
    requires PrintedBy(r, p) && Answers(r, ip, port)
    ensures ip == Some(p.addr) && port == Some(p.port)
  {
    var text :| IsFromServer(text, r)
      && ip == Routing.Lookup(text, Routing.TARGET_IP) && port == Routing.Lookup(text, Routing.TARGET_PORT);
    forall content
      ensures Routing.Extract(text, Routing.TARGET_IP, content) == p.addr
      ensures Routing.Extract(text, Routing.TARGET_PORT, content) == p.port
    {
      TextNamesClient(text, r, p, content);
    }
    LookupIs(text, Routing.TARGET_IP, p.addr);
    LookupIs(text, Routing.TARGET_PORT, p.port);
  }

  // ------------------------------------------------------------------ runs of the whole system

  /** An event of the balancer; if it is a connection, also the request printed on it. */
  datatype Turn = Turn(e: Event, printed: Routing.Request)

  /** The requests printed so far, connection by connection. */
  function SentAfter(sent: seq<Routing.Request>, turn: Turn): seq<Routing.Request> {
    if turn.e.Request? && turn.e.a.Accepted? then sent + [turn.printed] else sent
  }

  /** Clients print their own address and port, and a response that arrives for a connection answers the
      request that was printed on it. */
  ghost predicate IsServed(s: State, sent: seq<Routing.Request>, turn: Turn) {
    match turn.e
    case Request(a) => a.Accepted? && a.name.Some? ==> PrintedBy(turn.printed, a.name.value)
    case Response(_, r) =>
      r.Responded? && r.what.ReplyTo? && r.what.conn < |s.conns| && s.conns[r.what.conn].peer.Some? ==>
        && r.what.conn < |sent| && |sent[r.what.conn].Text()| < HttpWriter.HTTP_MSG_SIZE
        && Answers(sent[r.what.conn], r.ip, r.port)
    case HealthTimer(_, _) => true
  }

  /** The connections and the requests printed on them. */
  ghost predicate OnRecord(s: State, sent: seq<Routing.Request>) {
    && |sent| == |s.conns|
    && forall c :: 0 <= c < |sent| && s.conns[c].peer.Some? ==> PrintedBy(sent[c], s.conns[c].peer.value)
  }

  lemma DeliveryKeepsPeers(s: State, trigger: int, r: Response)
    requires Inv(s) && Legal(s, Event.Response(trigger, r))
    ensures var t := OnResponse(s, trigger, r).s;
            |t.conns| == |s.conns| && forall c :: 0 <= c < |s.conns| ==> t.conns[c].peer == s.conns[c].peer
  {
    if r.Responded? {
      var a := Arrived(s, trigger, r);
      var k := Match(a.requests, a.target, 0);
      if k < |a.requests| {
        DeliverSteps(a, trigger, r, k);
      }
    }
  }

  lemma RequestKeepsPeers(alg: Algorithm, s: State, a: Accept)
    requires Legal(s, Request(a))
    ensures var t := Handle(alg, s, Request(a)).s;
            && |t.conns| == |s.conns| + (if a.Accepted? then 1 else 0)
            && (forall c :: 0 <= c < |s.conns| ==> t.conns[c].peer == s.conns[c].peer)
            && (a.Accepted? ==> t.conns[|s.conns|].peer == None || t.conns[|s.conns|].peer == a.name)
  {
    if a.Accepted? {
      OrderKnown(s, a.order);
    }
  }

  lemma StepKeepsRecord(alg: Algorithm, s: State, sent: seq<Routing.Request>, turn: Turn)
    requires Inv(s) && Legal(s, turn.e) && OnRecord(s, sent) && IsServed(s, sent, turn)
    ensures OnRecord(Step(alg, s, turn.e), SentAfter(sent, turn))
  {
    match turn.e {
      case Request(a) => RequestKeepsRecord(alg, s, sent, turn);
      case _ =>
        OthersKeepPeers(alg, s, turn.e);
        SamePeersSameRecord(s, Step(alg, s, turn.e), sent);
    }
  }

  lemma OthersKeepPeers(alg: Algorithm, s: State, e: Event)
    requires Inv(s) && Legal(s, e) && !e.Request?
    ensures var t := Step(alg, s, e);
            |t.conns| == |s.conns| && forall c :: 0 <= c < |s.conns| ==> t.conns[c].peer == s.conns[c].peer
  {
    if e.Response? {
      DeliveryKeepsPeers(s, e.trigger, e.r);
    } else {
      OrderKnown(s, e.order);
      ChecksFrame(s, e.order, e.health);
    }
  }

  lemma SamePeersSameRecord(s: State, t: State, sent: seq<Routing.Request>)
    requires OnRecord(s, sent) && |t.conns| == |s.conns|
    requires forall c :: 0 <= c < |s.conns| ==> t.conns[c].peer == s.conns[c].peer
    ensures OnRecord(t, sent)
  {
  }

  lemma RequestKeepsRecord(alg: Algorithm, s: State, sent: seq<Routing.Request>, turn: Turn)
    requires turn.e.Request? && Legal(s, turn.e) && OnRecord(s, sent) && IsServed(s, sent, turn)
    ensures OnRecord(Step(alg, s, turn.e), SentAfter(sent, turn))
  {
    RequestKeepsPeers(alg, s, turn.e.a);
    if turn.e.a.AcceptFailed? {
      SamePeersSameRecord(s, Step(alg, s, turn.e), sent);
    }
  }

  /** So responses name their askers. */
  lemma ServedNamesAsker(s: State, sent: seq<Routing.Request>, turn: Turn)
    requires OnRecord(s, sent) && IsServed(s, sent, turn)
    ensures NamesAsker(s, turn.e)
  {
    if turn.e.Response? {
      var r := turn.e.r;
      if r.Responded? && r.what.ReplyTo? && r.what.conn < |s.conns| && s.conns[r.what.conn].peer.Some? {
        ReplyNamesClient(sent[r.what.conn], s.conns[r.what.conn].peer.value, r.ip, r.port);
      }
    }
  }

  ghost predicate ReachesServed(alg: Algorithm, s: State, sent: seq<Routing.Request>, turns: seq<Turn>, t: State)
    decreases |turns|
  {
    if turns == [] then s == t
    else
      && Legal(s, turns[0].e) && IsServed(s, sent, turns[0])
      && ReachesServed(alg, Step(alg, s, turns[0].e), SentAfter(sent, turns[0]), turns[1..], t)
  }

  function Events(turns: seq<Turn>): (events: seq<Event>)
    ensures |events| == |turns| && forall i :: 0 <= i < |turns| ==> events[i] == turns[i].e
  {
    seq(|turns|, i requires 0 <= i < |turns| => turns[i].e)
  }

  lemma {:induction false} ServedRunsAreNamed(
    alg: Algorithm, s: State, sent: seq<Routing.Request>, turns: seq<Turn>, t: State)
    requires Inv(s) && OnRecord(s, sent) && ReachesServed(alg, s, sent, turns, t)
    ensures ReachesNamed(alg, s, Events(turns), t)
    decreases |turns|
  {
    if turns != [] {
      ServedNamesAsker(s, sent, turns[0]);
      StepKeepsInv(alg, s, turns[0].e);
      StepKeepsRecord(alg, s, sent, turns[0]);
      ServedRunsAreNamed(alg, Step(alg, s, turns[0].e), SentAfter(sent, turns[0]), turns[1..], t);
      assert Events(turns)[1..] == Events(turns[1..]);
    }
  }

  /** The system as a whole, when clients print their own address and port and servers answer what was
      forwarded to them, whatever fails and whatever the requests ask for.  At some point a response can be
      delivered to a client that it does not answer exactly when a request was forwarded for a peer that
      still waited for another one; otherwise every response that the balancer forwarded went to the client
      that asked for it. */
  lemma ClientsGetTheirResponses(alg: Algorithm, s: State, turns: seq<Turn>, t: State)
    requires Initial(s) && ReachesServed(alg, s, [], turns, t)
    ensures StraysOnTheWay(alg, s, Events(turns)) <==> RunRepeats(alg, s, Events(turns))
    ensures !RunRepeats(alg, s, Events(turns)) ==>
              forall i :: 0 <= i < |t.log| ==> t.log[i].answers == ReplyTo(t.log[i].conn)
  {
    InitialInv(s);
    ServedRunsAreNamed(alg, s, [], turns, t);
    StraysIff(alg, s, Events(turns), t);
    if !RunRepeats(alg, s, Events(turns)) {
      FairWithoutRepeats(alg, s, Events(turns), t);
      ResponsesReachTheirAskers(alg, s, Events(turns), t);
    }
  }

  // ------------------------------------------------------------------ the limits of the servers

  const BIND_ADDRESS := "127.0.0.1"
  const PORT_NUM := "60000"

  /** What the balancer prints to ask a host for its limit. */
  function CheckRequest(host: string): Routing.Request {
    Routing.Request.Request(CHECK, host, "HTTP/1.1", host, [], BIND_ADDRESS, PORT_NUM, "")
  }

  /** The characters of the hosts that the balancer tries. */
  predicate HostLike(s: string) {
    |s| <= 100 && forall c :: c in s ==> IsDigit(c) || c == '.'
  }

  lemma HostsAreHostLike(i: nat)
    requires i < MAX_REAL_SERVER
    ensures HostLike(HostOf(i + 1))
  {
    assert ConvertToString(i + 2) == DigitsOf(i + 2) && |DigitsOf(i + 2)| == 1;
  }

  lemma CheckHeaderText(host: string)
    ensures HttpWriter.HeaderText(CheckRequest(host).Lines())
         == "Host" + ": " + host + CRLF + ("Source-IP" + ": " + BIND_ADDRESS + CRLF)
            + ("Source-Port" + ": " + PORT_NUM + CRLF)
  {
    var h := HttpWriter.Line("Host", host);
    var x, y := HttpWriter.Line("Source-IP", BIND_ADDRESS), HttpWriter.Line("Source-Port", PORT_NUM);
    assert CheckRequest(host).Lines() == [h] + [x] + [y];
    HttpWriter.HeaderOf("Host", host);
    HttpWriter.HeaderAppend([h], x);
    HttpWriter.HeaderAppend([h] + [x], y);
  }

  lemma CheckText(host: string)
    requires HostLike(host)
    ensures '\0' !in CheckRequest(host).Text() && |CheckRequest(host).Text()| < HttpWriter.HTTP_MSG_SIZE
    ensures IsCheck(CheckRequest(host).Text())
  {
    HttpWriter.ThreeWords(CHECK, host, "HTTP/1.1");
    CheckHeaderText(host);
    NoNulInParts(host);
    var start, header := CheckRequest(host).StartLine(), HttpWriter.HeaderText(CheckRequest(host).Lines());
    CheckParts(host, start, header);
    StartsWithCheck(start, CRLF + (header + CRLF) + "");
    assert CheckRequest(host).Text() == start + (CRLF + (header + CRLF) + "");
  }

  lemma CheckParts(host: string, start: string, header: string)
    requires HostLike(host)
    requires start == CHECK + " " + host + " " + "HTTP/1.1" + " "
    requires header == "Host" + ": " + host + CRLF + ("Source-IP" + ": " + BIND_ADDRESS + CRLF)
                       + ("Source-Port" + ": " + PORT_NUM + CRLF)
    ensures |start| < 200 && |header| < 300 && '\0' !in start && '\0' !in header
    ensures |start| >= |CHECK| && start[..|CHECK|] == CHECK
  {
    NoNulInParts(host);
  }

  lemma StartsWithCheck(start: string, rest: string)
    requires |start| >= |CHECK| && start[..|CHECK|] == CHECK
    ensures IsCheck(start + rest)
  {
    var text := start + rest;
    forall i | 0 <= i < |CHECK|
      ensures ToUpper(text[i]) == CHECK[i]
    {
      assert text[i] == start[..|CHECK|][i];
      assert CHECK[i] in CHECK && 'A' <= CHECK[i] <= 'Z';
    }
  }

  lemma NoNulInParts(host: string)
    requires HostLike(host)
    ensures '\0' !in host && '\r' !in host && ' ' !in host
    ensures '\0' !in CHECK && '\0' !in BIND_ADDRESS && '\0' !in PORT_NUM
  {
    assert '\0' !in CHECK && '\0' !in BIND_ADDRESS && '\0' !in PORT_NUM;
  }

  lemma CheckIsWellFormed(host: string)
    requires HostLike(host)
    ensures CheckRequest(host).WellFormed() && Free(host, " ")
  {
    NoNulInParts(host);
    assert '\r' !in CHECK && '\r' !in "HTTP/1.1" && '\r' !in BIND_ADDRESS && '\r' !in PORT_NUM;
    Routing.NoCrIsFree(host);
    Routing.NoCrIsFree(CHECK);
    Routing.NoCrIsFree("HTTP/1.1");
    Routing.NoCrIsFree(BIND_ADDRESS);
    Routing.NoCrIsFree(PORT_NUM);
    Routing.NoBlankIsFree(host);
  }

  /** The connection to a host went well: its server, of this limit, was asked for it and replied, and the
      balancer read the number out of the body of the reply. */
  ghost predicate Handshake(c: Connect, host: string, limit: int) {
    exists file :: HandshakeWith(c, host, limit, file)
  }

  ghost predicate HandshakeWith(c: Connect, host: string, limit: int, file: HttpReader.FileResult) {
    c.Connected? && |CheckRequest(host).Text()| < HttpWriter.HTTP_MSG_SIZE &&
    var reply := ChildReply(CStr(HttpWriter.Pack(CheckRequest(host).Text())), limit, file);
    && reply.Sent? && |reply.text| < HttpWriter.HTTP_MSG_SIZE
    && c.maxLoad == ConvertStringToInt(Routing.Body(CStr(HttpWriter.Pack(reply.text))))
  }

  /** Then the number is the limit. */
  lemma HandshakeTellsLimit(c: Connect, host: string, limit: int)
    requires HostLike(host) && Handshake(c, host, limit) && INT_MIN <= limit <= INT_MAX
    ensures c.maxLoad == limit
  {
    var file :| HandshakeWith(c, host, limit, file);
    CheckText(host);
    CheckIsWellFormed(host);
    HttpWriter.PackThenRead(CheckRequest(host).Text());
    Routing.CapacityHandshake(CheckRequest(host), limit, file);
  }

  /** After a start in which every connection was made by a handshake, the pool holds the servers' own
      limits. */
  lemma PoolHoldsLimits(connects: seq<Connect>, limits: seq<int>)
    requires |limits| == |connects| == MAX_REAL_SERVER && DistinctFds(connects)
    requires forall i :: 0 <= i < |connects| && connects[i].Connected? ==>
               INT_MIN <= limits[i] <= INT_MAX && Handshake(connects[i], HostOf(i + 1), limits[i])
    ensures forall i :: 0 <= i < |connects| && connects[i].Connected? ==>
              connects[i].fd in PoolOf(connects) && PoolOf(connects)[connects[i].fd].maxLoad == limits[i]
  {
    PoolHolds(connects);
    forall i | 0 <= i < |connects| && connects[i].Connected?
      ensures connects[i].maxLoad == limits[i]
    {
      HostsAreHostLike(i);
      HandshakeTellsLimit(connects[i], HostOf(i + 1), limits[i]);
    }
  }
}
