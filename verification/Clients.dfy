/** The client manager: threads that share a cache, a port and a message buffer under one mutex.

    Between two steps of a thread any other thread may run; only the mutex keeps them apart. */
module Clients {
  import opened Options
  import opened Caches

  const CACHE_SIZE := 3
  const METHODS := 7

  /** Where a thread stands, named after what it does next. */
  datatype Pc =
    | Connect
    | LockToList | List
    | AskName
    | LockToSend | SetPort | PickOption | LookUp | Build | Write | UnlockToRead | UnlockAtHit
    | Read
    | LockToPut | Put
    | CloseSocket
    | LockToExit | Exit
    | Done

  datatype Thread = Thread(pc: Pc, fd: int, port: string, option: int, reply: string)

  /** The shared message buffer: the request of some method, with the port written into it. */
  datatype Message = Message(option: int, port: string)

  datatype Written = Written(thread: nat, fd: int, message: Message)

  datatype Data = Data(
    lock: Option<nat>,
    portNum: string,
    sendMsg: Message,
    cache: Content<int, string>,
    exist: int,
    hits: nat,
    socks: seq<int>,
    written: seq<Written>)  // history: the requests written to sockets

  datatype State = State(threads: seq<Thread>, data: Data)

  predicate Critical(pc: Pc) {
    match pc
    case List | SetPort | PickOption | LookUp | Build | Write | UnlockToRead | UnlockAtHit | Put | Exit => true
    case _ => false
  }

  predicate Acquires(pc: Pc) {
    pc.LockToList? || pc.LockToSend? || pc.LockToPut? || pc.LockToExit?
  }

  function AfterLock(pc: Pc): Pc
    requires Acquires(pc)
  {
    match pc
    case LockToList => List
    case LockToSend => SetPort
    case LockToPut => Put
    case LockToExit => Exit
  }

  /** What the system contributes to a step: a descriptor, a port name, a random method, a reply. */
  datatype Input = Input(fd: int, port: string, option: int, reply: string)

  ghost predicate Enabled(s: State, i: nat, x: Input) {
    && i < |s.threads|
    && s.threads[i].pc != Done
    && (Acquires(s.threads[i].pc) ==> s.data.lock.None?)
    && (s.threads[i].pc.PickOption? ==> 0 <= x.option < METHODS)
  }

  /** The step of thread `t`, as far as the thread itself is concerned. */
  function Next(d: Data, t: Thread, x: Input): Thread {
    match t.pc
    case Connect => t.(pc := LockToList, fd := x.fd)
    case LockToList | LockToSend | LockToPut | LockToExit => t.(pc := AfterLock(t.pc))
    case List => t.(pc := AskName)
    case AskName => t.(pc := LockToSend, port := x.port)
    case SetPort => t.(pc := PickOption)
    case PickOption => t.(pc := LookUp, option := x.option)
    case LookUp => t.(pc := if t.option in d.cache.table then UnlockAtHit else Build)
    case Build => t.(pc := Write)
    case Write => t.(pc := UnlockToRead)
    case UnlockToRead => t.(pc := Read)
    case UnlockAtHit => t.(pc := CloseSocket)
    case Read => t.(pc := LockToPut, reply := x.reply)
    case Put => t.(pc := CloseSocket)
    case CloseSocket => t.(pc := LockToExit)
    case Exit => t.(pc := Done)
    case Done => t
  }

  /** The same step of thread number `i`, as far as the shared data are concerned. */
  function Effect(d: Data, t: Thread, i: nat): Data {
    match t.pc
    case LockToList | LockToSend | LockToPut | LockToExit => d.(lock := Some(i))
    case List => d.(socks := d.socks + [t.fd], lock := None)
    case SetPort => d.(portNum := t.port)
    case LookUp => if t.option in d.cache.table then d.(hits := d.hits + 1) else d
    case Build => d.(sendMsg := Message(t.option, d.portNum))
    case Write => d.(written := d.written + [Written(i, t.fd, d.sendMsg)])
    case UnlockToRead | UnlockAtHit => d.(lock := None)
    case Put => d.(cache := LruPut(d.cache, CACHE_SIZE, t.option, t.reply), lock := None)
    case Exit => d.(exist := d.exist - 1, socks := Remove(d.socks, t.fd), lock := None)
    case Connect | AskName | PickOption | Read | CloseSocket | Done => d
  }

  function Step(s: State, i: nat, x: Input): State
    requires i < |s.threads|
  {
    var t := s.threads[i];
    State(s.threads[i := Next(s.data, t, x)], Effect(s.data, t, i))
  }

  // ------------------------------------------------------------------ the locked sections

  /** What the threads share. */
  datatype Shared = Shared(portNum: string, sendMsg: Message, cache: Content<int, string>,
                           exist: int, hits: nat, socks: seq<int>)

  function SharedOf(s: State): Shared {
    Shared(s.data.portNum, s.data.sendMsg, s.data.cache, s.data.exist, s.data.hits, s.data.socks)
  }

  function Listed(s: Shared, fd: int): Shared {
    s.(socks := s.socks + [fd])
  }

  /** The section that asks the cache: a hit is counted, for a miss the request is built. */
  function Asked(s: Shared, port: string, option: int): Shared {
    if option in s.cache.table then s.(portNum := port, hits := s.hits + 1)
    else s.(portNum := port, sendMsg := Message(option, port))
  }

  function Stored(s: Shared, option: int, reply: string): Shared {
    s.(cache := LruPut(s.cache, CACHE_SIZE, option, reply))
  }

  function Gone(s: Shared, fd: int): Shared {
    s.(exist := s.exist - 1, socks := Remove(s.socks, fd))
  }

  /** The shared data, and the locked sections of a thread as methods. */
  class ClientManager {
    const requestCache: LRUCache<int, string>
    var portNum: string
    var sendMsg: Message
    var clientExist: int
    var cacheHitCount: nat
    var sockList: seq<int>

    ghost function Data(): Shared
      reads this, requestCache
    {
      Shared(portNum, sendMsg, requestCache.Held(), clientExist, cacheHitCount, sockList)
    }

    ghost predicate Valid()
      reads this, requestCache
    {
      requestCache.size == CACHE_SIZE && Within(requestCache.Held(), CACHE_SIZE)
    }

    constructor (clientCount: nat)
      ensures Valid() && fresh(requestCache)
      ensures Data().cache == Content([], map[]) && clientExist == clientCount && cacheHitCount == 0 && sockList == []
    {
      requestCache := new LRUCache(CACHE_SIZE, "");
      portNum, sendMsg, sockList := "", Message(0, ""), [];
      clientExist, cacheHitCount := clientCount, 0;
    }

    method ListSocket(fd: int)
      requires Valid()
      modifies this`sockList
      ensures Valid() && Data() == Listed(old(Data()), fd)
    {
      sockList := sockList + [fd];
    }

    /** The request to write to the connection, if any. */
    method Ask(port: string, option: int) returns (request: Option<Message>)
      requires Valid() && 0 <= option < METHODS
      modifies this`portNum, this`sendMsg, this`cacheHitCount
      ensures Valid() && Data() == Asked(old(Data()), port, option)
      ensures request == if option in old(requestCache.cacheMap) then None else Some(Message(option, port))
    {
      portNum := port;
      var cached := requestCache.IsCached(option);
      if cached {
        cacheHitCount := cacheHitCount + 1;
        return None;
      }
      sendMsg := Message(option, portNum);
      request := Some(sendMsg);
    }

    method Store(option: int, reply: string)
      requires Valid()
      modifies requestCache
      ensures Valid() && Data() == Stored(old(Data()), option, reply)
    {
      requestCache.PutElement(option, reply);
    }

    method Leave(fd: int)
      requires Valid()
      modifies this`clientExist, this`sockList
      ensures Valid() && Data() == Gone(old(Data()), fd)
    {
      clientExist := clientExist - 1;
      sockList := Remove(sockList, fd);
    }
  }

  /** How many steps a thread is away from unlocking. */
  function StepsLeft(pc: Pc): nat {
    match pc
    case SetPort => 6
    case PickOption => 5
    case LookUp => 4
    case Build => 3
    case Write => 2
    case List | UnlockToRead | UnlockAtHit | Put | Exit => 1
    case _ => 0
  }

  /** Thread `i` runs alone until it is out of its section. */
  function Through(s: State, i: nat, x: Input): (t: State)
    requires i < |s.threads|
    ensures |t.threads| == |s.threads|
    decreases StepsLeft(s.threads[i].pc)
  {
    if Critical(s.threads[i].pc) then Through(Step(s, i, x), i, x) else s
  }

  lemma ShortSections(s: State, i: nat, x: Input)
    requires i < |s.threads|
    ensures var t := s.threads[i];
            var after := SharedOf(Through(s, i, x));
            && (t.pc.List? ==> after == Listed(SharedOf(s), t.fd))
            && (t.pc.Put? ==> after == Stored(SharedOf(s), t.option, t.reply))
            && (t.pc.Exit? ==> after == Gone(SharedOf(s), t.fd))
  {
  }

  lemma BuildAndWrite(s: State, i: nat, x: Input)
    requires i < |s.threads| && s.threads[i].pc.Build?
    ensures var t := s.threads[i];
            var u := Through(s, i, x);
            && SharedOf(u) == SharedOf(s).(sendMsg := Message(t.option, s.data.portNum))
            && u.data.written == s.data.written + [Written(i, t.fd, Message(t.option, s.data.portNum))]
            && u.threads[i].pc == Read
  {
    var a := Step(s, i, x);
    var b := Step(a, i, x);
    assert Through(s, i, x) == Through(a, i, x) == Through(b, i, x);
    assert Through(b, i, x) == Step(b, i, x);
  }

  lemma AskSection(s: State, i: nat, x: Input)
    requires i < |s.threads| && s.threads[i].pc.SetPort?
    ensures var t := s.threads[i];
            var u := Through(s, i, x);
            && SharedOf(u) == Asked(SharedOf(s), t.port, x.option)
            && u.data.written == s.data.written + (if x.option in s.data.cache.table then []
                                                   else [Written(i, t.fd, Message(x.option, t.port))])
            && u.threads[i].pc == (if x.option in s.data.cache.table then CloseSocket else Read)
  {
    var a := Step(s, i, x);
    var b := Step(a, i, x);
    var c := Step(b, i, x);
    assert Through(s, i, x) == Through(a, i, x) == Through(b, i, x) == Through(c, i, x);
    if x.option in s.data.cache.table {
      assert Through(c, i, x) == Step(c, i, x);
    } else {
      BuildAndWrite(c, i, x);
    }
  }

  /** Each section has the effect of its method when its thread runs alone. */
  lemma SectionsAreMethods(s: State, i: nat, x: Input)
    requires i < |s.threads|
    ensures var t := s.threads[i];
            var after := SharedOf(Through(s, i, x));
            && (t.pc.List? ==> after == Listed(SharedOf(s), t.fd))
            && (t.pc.SetPort? ==> after == Asked(SharedOf(s), t.port, x.option))
            && (t.pc.Put? ==> after == Stored(SharedOf(s), t.option, t.reply))
            && (t.pc.Exit? ==> after == Gone(SharedOf(s), t.fd))
  {
    ShortSections(s, i, x);
    if s.threads[i].pc.SetPort? {
      AskSection(s, i, x);
    }
  }

  // ------------------------------------------------------------------ invariants

  function Live(threads: seq<Thread>): nat {
    if threads == [] then 0
    else Live(threads[..|threads| - 1]) + if threads[|threads| - 1].pc == Done then 0 else 1
  }

  /** The thread has been told that it hit the cache, or has written its request. */
  predicate PastQuestion(pc: Pc) {
    match pc
    case UnlockToRead | UnlockAtHit | Read | LockToPut | Put | CloseSocket | LockToExit | Exit | Done => true
    case _ => false
  }

  function Settled(threads: seq<Thread>): nat {
    if threads == [] then 0
    else Settled(threads[..|threads| - 1]) + if PastQuestion(threads[|threads| - 1].pc) then 1 else 0
  }

  /** A thread is inside a critical section exactly when it holds the mutex. */
  ghost predicate Exclusive(s: State) {
    && (forall i :: 0 <= i < |s.threads| ==> (Critical(s.threads[i].pc) <==> s.data.lock == Some(i)))
    && (s.data.lock.Some? ==> s.data.lock.value < |s.threads|)
  }

  predicate UsesPort(pc: Pc) {
    pc.PickOption? || pc.LookUp? || pc.Build?
  }

  /** While a thread is about to use the shared port or the shared message, they are its own. */
  ghost predicate OwnData(s: State) {
    && (forall i :: 0 <= i < |s.threads| && UsesPort(s.threads[i].pc) ==> s.data.portNum == s.threads[i].port)
    && (forall i :: 0 <= i < |s.threads| && s.threads[i].pc.Write? ==>
          s.data.sendMsg == Message(s.threads[i].option, s.threads[i].port))
  }

  predicate BeforeName(pc: Pc) {
    pc.Connect? || pc.LockToList? || pc.List? || pc.AskName?
  }

  predicate BeforePick(pc: Pc) {
    BeforeName(pc) || pc.LockToSend? || pc.SetPort? || pc.PickOption?
  }

  /** Each request written so far went to the socket of its thread and carries that thread's method
      and port. */
  ghost predicate OwnRequests(s: State) {
    forall k :: 0 <= k < |s.data.written| ==> OwnRequest(s.threads, s.data.written[k])
  }

  ghost predicate OwnRequest(threads: seq<Thread>, w: Written) {
    && w.thread < |threads|
    && !BeforePick(threads[w.thread].pc)
    && w.fd == threads[w.thread].fd
    && w.message == Message(threads[w.thread].option, threads[w.thread].port)
  }

  ghost predicate BoundedCache(s: State) {
    Within(s.data.cache, CACHE_SIZE)
  }

  /** Every thread that is past its question was answered by the cache or wrote one request. */
  ghost predicate Ledger(s: State) {
    && s.data.exist == Live(s.threads)
    && s.data.hits + |s.data.written| == Settled(s.threads)
  }

  ghost predicate Inv(s: State) {
    Exclusive(s) && OwnData(s) && OwnRequests(s) && BoundedCache(s) && Ledger(s)
  }

  lemma {:induction false} CountUpdate(threads: seq<Thread>, i: nat, t: Thread)
    requires i < |threads|
    ensures Live(threads[i := t]) - (if t.pc == Done then 0 else 1)
         == Live(threads) - (if threads[i].pc == Done then 0 else 1)
    ensures Settled(threads[i := t]) - (if PastQuestion(t.pc) then 1 else 0)
         == Settled(threads) - (if PastQuestion(threads[i].pc) then 1 else 0)
    decreases |threads|
  {
    var n := |threads| - 1;
    if i == n {
      assert threads[i := t][..n] == threads[..n];
    } else {
      assert threads[i := t][..n] == threads[..n][i := t];
      CountUpdate(threads[..n], i, t);
    }
  }

  lemma StepKeepsLedger(s: State, i: nat, x: Input)
    requires Ledger(s) && Enabled(s, i, x)
    ensures Ledger(Step(s, i, x))
  {
    StepWrites(s, i, x);
    CountUpdate(s.threads, i, Step(s, i, x).threads[i]);
  }

  lemma StepKeepsExclusive(s: State, i: nat, x: Input)
    requires Exclusive(s) && Enabled(s, i, x)
    ensures Exclusive(Step(s, i, x))
  {
  }

  lemma StepKeepsOwnData(s: State, i: nat, x: Input)
    requires Exclusive(s) && OwnData(s) && Enabled(s, i, x)
    ensures OwnData(Step(s, i, x))
  {
  }

  /** Once the method is picked, neither it nor the port nor the socket of a thread changes. */
  lemma PickIsFinal(s: State, i: nat, x: Input, w: Written)
    requires Enabled(s, i, x) && OwnRequest(s.threads, w)
    ensures OwnRequest(Step(s, i, x).threads, w)
  {
  }

  lemma StepWrites(s: State, i: nat, x: Input)
    requires Enabled(s, i, x)
    ensures var w := Written(i, s.threads[i].fd, s.data.sendMsg);
            Step(s, i, x).data.written == if s.threads[i].pc.Write? then s.data.written + [w] else s.data.written
  {
  }

  lemma StepKeepsOwnRequests(s: State, i: nat, x: Input)
    requires OwnData(s) && OwnRequests(s) && Enabled(s, i, x)
    ensures OwnRequests(Step(s, i, x))
  {
    var t := Step(s, i, x);
    StepWrites(s, i, x);
    forall k | 0 <= k < |t.data.written|
      ensures OwnRequest(t.threads, t.data.written[k])
    {
      if k < |s.data.written| {
        PickIsFinal(s, i, x, s.data.written[k]);
      } else {
        WriteIsOwn(s, i, x);
      }
    }
  }

  lemma WriteIsOwn(s: State, i: nat, x: Input)
    requires OwnData(s) && Enabled(s, i, x) && s.threads[i].pc.Write?
    ensures OwnRequest(Step(s, i, x).threads, Written(i, s.threads[i].fd, s.data.sendMsg))
  {
  }

  lemma StepKeepsInv(s: State, i: nat, x: Input)
    requires Inv(s) && Enabled(s, i, x)
    ensures Inv(Step(s, i, x))
  {
    StepKeepsExclusive(s, i, x);
    StepKeepsOwnData(s, i, x);
    StepKeepsOwnRequests(s, i, x);
    StepKeepsLedger(s, i, x);
  }

  /** And running alone is no restriction: while a thread holds the mutex, the steps of the others
      commute with its own, so a section that was interrupted might as well not have been. */
  lemma OthersCommute(s: State, i: nat, j: nat, x: Input, y: Input)
    requires Exclusive(s) && s.data.lock == Some(i) && i != j && Enabled(s, i, x) && Enabled(s, j, y)
    ensures Enabled(Step(s, i, x), j, y) && Enabled(Step(s, j, y), i, x)
    ensures Step(Step(s, i, x), j, y) == Step(Step(s, j, y), i, x)
    ensures SharedOf(Step(s, j, y)) == SharedOf(s)
  {
    var t, u := s.threads[i], s.threads[j];
    OutsideIsPrivate(s.data, u, j, y);
    OutsideIsPrivate(Effect(s.data, t, i), u, j, y);
    assert s.threads[i := Next(s.data, t, x)][j := Next(s.data, u, y)]
        == s.threads[j := Next(s.data, u, y)][i := Next(s.data, t, x)];
  }

  /** Outside the sections a thread neither reads nor writes shared data, unless it takes the mutex. */
  lemma OutsideIsPrivate(d: Data, t: Thread, i: nat, x: Input)
    requires !Critical(t.pc) && !Acquires(t.pc)
    ensures Effect(d, t, i) == d && forall d' :: Next(d, t, x) == Next(d', t, x)
  {
  }

  // ------------------------------------------------------------------ all interleavings

  ghost predicate Initial(s: State) {
    && (forall i :: 0 <= i < |s.threads| ==> s.threads[i].pc == Connect)
    && s.data.lock.None? && s.data.cache == Content([], map[]) && s.data.exist == |s.threads|
    && s.data.hits == 0 && s.data.written == []
  }

  lemma {:induction false} AllLive(threads: seq<Thread>)
    requires forall i :: 0 <= i < |threads| ==> threads[i].pc == Connect
    ensures Live(threads) == |threads| && Settled(threads) == 0
  {
    if threads != [] {
      AllLive(threads[..|threads| - 1]);
    }
  }

  /** `t` is reached from `s` when the threads run in the given order with the given inputs. */
  ghost predicate Reaches(s: State, turns: seq<(nat, Input)>, t: State)
    decreases |turns|
  {
    if turns == [] then s == t
    else Enabled(s, turns[0].0, turns[0].1) && Reaches(Step(s, turns[0].0, turns[0].1), turns[1..], t)
  }

  lemma {:induction false} RunKeepsInv(s: State, turns: seq<(nat, Input)>, t: State)
    requires Inv(s) && Reaches(s, turns, t)
    ensures Inv(t)
    decreases |turns|
  {
    if turns != [] {
      StepKeepsInv(s, turns[0].0, turns[0].1);
      RunKeepsInv(Step(s, turns[0].0, turns[0].1), turns[1..], t);
    }
  }

  lemma {:induction false} NoneLive(threads: seq<Thread>)
    ensures Live(threads) == 0 <==> forall i :: 0 <= i < |threads| ==> threads[i].pc == Done
    ensures Live(threads) == 0 ==> Settled(threads) == |threads|
  {
    if threads != [] {
      var n := |threads| - 1;
      NoneLive(threads[..n]);
      assert forall i :: 0 <= i < n ==> threads[..n][i] == threads[i];
    }
  }

  /** What the system contributed to the step that each thread took at `at` in the course of a run. */
  function Given(s: State, turns: seq<(nat, Input)>, at: Pc): (r: map<nat, Input>)
    requires forall k :: 0 <= k < |turns| ==> turns[k].0 < |s.threads|
    decreases |turns|
  {
    if turns == [] then map[]
    else
      var i, x := turns[0].0, turns[0].1;
      var later := Given(Step(s, i, x), turns[1..], at);
      if s.threads[i].pc == at && i !in later then later[i := x] else later
  }

  /** For each method, the thread that was the last to put a reply to it. */
  function LastToPut(s: State, turns: seq<(nat, Input)>): (r: map<int, nat>)
    requires forall k :: 0 <= k < |turns| ==> turns[k].0 < |s.threads|
    decreases |turns|
  {
    if turns == [] then map[]
    else
      var i, x := turns[0].0, turns[0].1;
      var later := LastToPut(Step(s, i, x), turns[1..]);
      if s.threads[i].pc.Put? && s.threads[i].option !in later then later[s.threads[i].option := i] else later
  }

  lemma {:induction false} TurnsAreThreads(s: State, turns: seq<(nat, Input)>, t: State)
    requires Reaches(s, turns, t)
    ensures |t.threads| == |s.threads| && forall k :: 0 <= k < |turns| ==> turns[k].0 < |s.threads|
    decreases |turns|
  {
    if turns != [] {
      TurnsAreThreads(Step(s, turns[0].0, turns[0].1), turns[1..], t);
      assert forall k :: 0 < k < |turns| ==> turns[k] == turns[1..][k - 1];
    }
  }

  /** The field that a thread sets at `at` is what the system gave. */
  predicate Took(t: Thread, at: Pc, x: Input) {
    && (at.Connect? ==> t.fd == x.fd)
    && (at.AskName? ==> t.port == x.port)
    && (at.PickOption? ==> t.option == x.option)
    && (at.Read? ==> t.reply == x.reply)
  }

  /** A thread has what it was given and keeps it. */
  lemma {:induction false} TakesWhatIsGiven(s: State, turns: seq<(nat, Input)>, t: State, at: Pc, i: nat)
    requires Reaches(s, turns, t) && i < |s.threads|
    requires forall k :: 0 <= k < |turns| ==> turns[k].0 < |s.threads|
    ensures i < |t.threads|
    ensures if i in Given(s, turns, at) then Took(t.threads[i], at, Given(s, turns, at)[i])
            else forall x :: Took(s.threads[i], at, x) ==> Took(t.threads[i], at, x)
    decreases |turns|
  {
    if turns != [] {
      TakesWhatIsGiven(Step(s, turns[0].0, turns[0].1), turns[1..], t, at, i);
    }
  }

  /** Every thread that is past the question has connected, asked for its name and picked a method. */
  lemma {:induction false} AllAreGiven(s: State, turns: seq<(nat, Input)>, t: State, at: Pc, i: nat)
    requires Reaches(s, turns, t) && i < |s.threads| && i < |t.threads|
    requires forall k :: 0 <= k < |turns| ==> turns[k].0 < |s.threads|
    requires at.Connect? || at.AskName? || at.PickOption?
    requires StepsToClose(s.threads[i].pc) >= StepsToClose(at) > StepsToClose(t.threads[i].pc)
    ensures i in Given(s, turns, at)
    decreases |turns|
  {
    if turns != [] && !(turns[0].0 == i && s.threads[i].pc == at) {
      AllAreGiven(Step(s, turns[0].0, turns[0].1), turns[1..], t, at, i);
    }
  }

  /** Every request that was written: the thread `i` wrote it to the connection that the system gave it, with
      the method that it drew and the port that the system told it. */
  lemma {:induction false} RequestsAreAsGiven(s: State, turns: seq<(nat, Input)>, t: State, k: nat)
    requires Initial(s) && Reaches(s, turns, t) && k < |t.data.written|
    ensures forall n :: 0 <= n < |turns| ==> turns[n].0 < |s.threads|
    ensures var w := t.data.written[k];
            && w.thread in Given(s, turns, Connect) && w.thread in Given(s, turns, AskName)
            && w.thread in Given(s, turns, PickOption)
            && w.fd == Given(s, turns, Connect)[w.thread].fd
            && w.message.port == Given(s, turns, AskName)[w.thread].port
            && w.message.option == Given(s, turns, PickOption)[w.thread].option
  {
    AllLive(s.threads);
    TurnsAreThreads(s, turns, t);
    RunKeepsInv(s, turns, t);
    assert OwnRequest(t.threads, t.data.written[k]);
    FieldsAreGiven(s, turns, t, t.data.written[k].thread);
  }

  /** The fields of a thread that is past the question. */
  lemma {:induction false} FieldsAreGiven(s: State, turns: seq<(nat, Input)>, t: State, i: nat)
    requires Reaches(s, turns, t) && i < |s.threads| && i < |t.threads|
    requires forall k :: 0 <= k < |turns| ==> turns[k].0 < |s.threads|
    requires s.threads[i].pc == Connect && !BeforePick(t.threads[i].pc)
    ensures i in Given(s, turns, Connect) && t.threads[i].fd == Given(s, turns, Connect)[i].fd
    ensures i in Given(s, turns, AskName) && t.threads[i].port == Given(s, turns, AskName)[i].port
    ensures i in Given(s, turns, PickOption) && t.threads[i].option == Given(s, turns, PickOption)[i].option
  {
    AllAreGiven(s, turns, t, Connect, i);
    AllAreGiven(s, turns, t, AskName, i);
    AllAreGiven(s, turns, t, PickOption, i);
    TakesWhatIsGiven(s, turns, t, Connect, i);
    TakesWhatIsGiven(s, turns, t, AskName, i);
    TakesWhatIsGiven(s, turns, t, PickOption, i);
  }

  predicate PastRead(pc: Pc) {
    match pc
    case UnlockAtHit | LockToPut | Put | CloseSocket | LockToExit | Exit | Done => true
    case _ => false
  }

  /** A thread reads once, and then keeps its reply and its method. */
  lemma {:induction false} ReadsOnce(s: State, turns: seq<(nat, Input)>, t: State, i: nat)
    requires Reaches(s, turns, t) && i < |s.threads| && PastRead(s.threads[i].pc)
    requires forall k :: 0 <= k < |turns| ==> turns[k].0 < |s.threads|
    ensures i !in Given(s, turns, Read) && i < |t.threads|
    ensures t.threads[i].option == s.threads[i].option && t.threads[i].reply == s.threads[i].reply
    decreases |turns|
  {
    if turns != [] {
      ReadsOnce(Step(s, turns[0].0, turns[0].1), turns[1..], t, i);
    }
  }

  lemma TurnOnCache(s: State, i: nat, x: Input, k: int)
    requires Inv(s) && Enabled(s, i, x) && k in Step(s, i, x).data.cache.table
    ensures s.threads[i].pc.Put? && s.threads[i].option == k ==>
              Step(s, i, x).data.cache.table[k] == s.threads[i].reply
    ensures !(s.threads[i].pc.Put? && s.threads[i].option == k) ==>
              k in s.data.cache.table && Step(s, i, x).data.cache.table[k] == s.data.cache.table[k]
  {
  }

  /** What the final cache holds under `k` is the reply of the thread that put it last, which has read it by
      then; without such a thread it is what the cache held before. */
  ghost predicate PutLast(s: State, turns: seq<(nat, Input)>, t: State, k: int)
    requires k in t.data.cache.table && |t.threads| == |s.threads|
    requires forall n :: 0 <= n < |turns| ==> turns[n].0 < |s.threads|
  {
    if k in LastToPut(s, turns) then
      var i := LastToPut(s, turns)[k];
      && i < |t.threads| && t.threads[i].option == k && t.data.cache.table[k] == t.threads[i].reply
      && (i in Given(s, turns, Read) || s.threads[i].pc.LockToPut? || s.threads[i].pc.Put?)
    else k in s.data.cache.table && t.data.cache.table[k] == s.data.cache.table[k]
  }

  lemma {:induction false} EarlierPut(s: State, turns: seq<(nat, Input)>, t: State, k: int)
    requires turns != [] && |t.threads| == |s.threads| && k in t.data.cache.table
    requires forall n :: 0 <= n < |turns| ==> turns[n].0 < |s.threads|
    requires k in LastToPut(Step(s, turns[0].0, turns[0].1), turns[1..])
    requires PutLast(Step(s, turns[0].0, turns[0].1), turns[1..], t, k)
    ensures PutLast(s, turns, t, k)
  {
    assert LastToPut(s, turns)[k] == LastToPut(Step(s, turns[0].0, turns[0].1), turns[1..])[k];
  }

  lemma {:induction false} LatestPut(s: State, turns: seq<(nat, Input)>, t: State, k: int)
    requires Inv(s) && Reaches(s, turns, t) && turns != [] && |t.threads| == |s.threads| && k in t.data.cache.table
    requires forall n :: 0 <= n < |turns| ==> turns[n].0 < |s.threads|
    requires k !in LastToPut(Step(s, turns[0].0, turns[0].1), turns[1..])
    requires PutLast(Step(s, turns[0].0, turns[0].1), turns[1..], t, k)
    ensures PutLast(s, turns, t, k)
  {
    var i, x := turns[0].0, turns[0].1;
    TurnOnCache(s, i, x, k);
    if s.threads[i].pc.Put? {
      ReadsOnce(Step(s, i, x), turns[1..], t, i);
    }
  }

  lemma {:induction false} LastPutStays(s: State, turns: seq<(nat, Input)>, t: State, k: int)
    requires Inv(s) && Reaches(s, turns, t) && |t.threads| == |s.threads| && k in t.data.cache.table
    requires forall n :: 0 <= n < |turns| ==> turns[n].0 < |s.threads|
    ensures PutLast(s, turns, t, k)
    decreases |turns|
  {
    if turns != [] {
      var u, rest := Step(s, turns[0].0, turns[0].1), turns[1..];
      StepKeepsInv(s, turns[0].0, turns[0].1);
      LastPutStays(u, rest, t, k);
      if k in LastToPut(u, rest) {
        EarlierPut(s, turns, t, k);
      } else {
        LatestPut(s, turns, t, k);
      }
    }
  }

  /** What the cache holds for a method is what the last thread that put a reply to it has read, and that
      thread had asked for this method. */
  lemma CachedIsRead(s: State, turns: seq<(nat, Input)>, t: State, k: int)
    requires Initial(s) && Reaches(s, turns, t) && k in t.data.cache.table
    ensures forall n :: 0 <= n < |turns| ==> turns[n].0 < |s.threads|
    ensures k in LastToPut(s, turns)
    ensures var i := LastToPut(s, turns)[k];
            && i < |t.threads| && t.threads[i].option == k
            && i in Given(s, turns, Read) && t.data.cache.table[k] == Given(s, turns, Read)[i].reply
  {
    AllLive(s.threads);
    TurnsAreThreads(s, turns, t);
    LastPutStays(s, turns, t, k);
    TakesWhatIsGiven(s, turns, t, Read, LastToPut(s, turns)[k]);
  }

  /** In every interleaving: each request carries the port of the connection it is written to; the
      counter counts the unfinished threads, so the manager stops waiting exactly when all of them
      have finished, and then each of them has hit the cache or written one request; and the cache
      holds at most three methods. */
  lemma ThreadSafety(s: State, turns: seq<(nat, Input)>, t: State)
    requires Initial(s) && Reaches(s, turns, t)
    ensures OwnRequests(t) && Agrees(t.data.cache) && |t.data.cache.keys| <= 3
    ensures t.data.exist == Live(t.threads)
    ensures t.data.exist == 0 <==> forall i :: 0 <= i < |t.threads| ==> t.threads[i].pc == Done
    ensures t.data.exist == 0 ==> t.data.hits + |t.data.written| == |t.threads|
  {
    AllLive(s.threads);
    RunKeepsInv(s, turns, t);
    NoneLive(t.threads);
  }

  // ------------------------------------------------------------------ the list of sockets

  /** The thread has listed its socket and not closed it yet. */
  predicate Working(pc: Pc) {
    match pc
    case AskName | LockToSend | SetPort | PickOption | LookUp | Build | Write | UnlockToRead | UnlockAtHit => true
    case Read | LockToPut | Put | CloseSocket => true
    case _ => false
  }

  /** The thread has an open socket. */
  predicate Open(pc: Pc) {
    pc.LockToList? || pc.List? || Working(pc)
  }

  /** The system does not give out the descriptor of an open socket. */
  ghost predicate LegalTurn(s: State, i: nat, x: Input) {
    && Enabled(s, i, x)
    && (s.threads[i].pc.Connect? ==>
          forall j :: 0 <= j < |s.threads| && Open(s.threads[j].pc) ==> s.threads[j].fd != x.fd)
  }

  /** But it may give out one that a thread has just closed, and that thread still has to wait for the
      mutex before it takes the descriptor off the list. */
  ghost predicate Reuses(s: State, i: nat, x: Input) {
    && i < |s.threads| && s.threads[i].pc.Connect?
    && exists j :: 0 <= j < |s.threads| && s.threads[j].pc.LockToExit? && s.threads[j].fd == x.fd
  }

  ghost predicate LegallyReaches(s: State, turns: seq<(nat, Input)>, t: State)
    decreases |turns|
  {
    if turns == [] then s == t
    else
      && LegalTurn(s, turns[0].0, turns[0].1)
      && LegallyReaches(Step(s, turns[0].0, turns[0].1), turns[1..], t)
  }

  /** Some turn of the run reuses a descriptor in that way. */
  ghost predicate RunReuses(s: State, turns: seq<(nat, Input)>)
    decreases |turns|
  {
    && turns != [] && LegalTurn(s, turns[0].0, turns[0].1)
    && (Reuses(s, turns[0].0, turns[0].1) || RunReuses(Step(s, turns[0].0, turns[0].1), turns[1..]))
  }

  /** A thread works on a socket that is not on the list. */
  ghost predicate Unlisted(s: State) {
    exists j :: 0 <= j < |s.threads| && UnlistedAt(s, j)
  }

  ghost predicate UnlistedAt(s: State, j: nat)
    requires j < |s.threads|
  {
    Working(s.threads[j].pc) && s.threads[j].fd !in s.data.socks
  }

  /** A legal run without any further connection leads from `s` to a state with such a thread. */
  ghost predicate CanUnlist(s: State) {
    exists turns, t :: LegallyReaches(s, turns, t) && OnlyConnected(s, turns) && Unlisted(t)
  }

  ghost predicate OnlyConnected(s: State, turns: seq<(nat, Input)>) {
    forall k :: 0 <= k < |turns| ==> turns[k].0 < |s.threads| && !s.threads[turns[k].0].pc.Connect?
  }

  /** Every socket in use is listed; two threads with the same descriptor are one that is leaving, inside
      its section, and one that has not listed its socket yet. */
  ghost predicate ListInv(s: State) {
    && Exclusive(s)
    && (forall j :: 0 <= j < |s.threads| ==> IsListed(s, j))
    && (forall i, j :: 0 <= i < |s.threads| && 0 <= j < |s.threads| && i != j ==> Apart(s.threads[i], s.threads[j]))
  }

  ghost predicate IsListed(s: State, j: nat)
    requires j < |s.threads|
  {
    InUse(s.threads[j].pc) ==> s.threads[j].fd in s.data.socks
  }

  predicate InUse(pc: Pc) {
    Working(pc) || pc.LockToExit? || pc.Exit?
  }

  predicate Holds(pc: Pc) {
    pc.LockToList? || pc.List? || InUse(pc)
  }

  predicate Apart(t: Thread, u: Thread) {
    Holds(t.pc) && Holds(u.pc) && t.fd == u.fd ==>
      (t.pc.Exit? && u.pc.LockToList?) || (t.pc.LockToList? && u.pc.Exit?)
  }

  lemma StepKeepsListed(s: State, i: nat, x: Input, j: nat)
    requires ListInv(s) && LegalTurn(s, i, x) && j < |s.threads|
    ensures IsListed(Step(s, i, x), j)
  {
    assert IsListed(s, j);
    if i != j {
      assert Apart(s.threads[i], s.threads[j]);
    }
  }

  lemma StepKeepsApart(s: State, i: nat, x: Input, j: nat)
    requires ListInv(s) && LegalTurn(s, i, x) && !Reuses(s, i, x) && j < |s.threads| && i != j
    ensures Apart(Step(s, i, x).threads[i], s.threads[j])
  {
    assert Apart(s.threads[i], s.threads[j]);
  }

  lemma ApartIsMutual(t: Thread, u: Thread)
    ensures Apart(t, u) <==> Apart(u, t)
  {
  }

  lemma StepKeepsListInv(s: State, i: nat, x: Input)
    requires ListInv(s) && LegalTurn(s, i, x) && !Reuses(s, i, x)
    ensures ListInv(Step(s, i, x))
  {
    var t := Step(s, i, x);
    StepKeepsExclusive(s, i, x);
    forall j | 0 <= j < |t.threads|
      ensures IsListed(t, j)
    {
      StepKeepsListed(s, i, x, j);
    }
    forall j, k | 0 <= j < |t.threads| && 0 <= k < |t.threads| && j != k
      ensures Apart(t.threads[j], t.threads[k])
    {
      if j == i {
        StepKeepsApart(s, i, x, k);
      } else if k == i {
        StepKeepsApart(s, i, x, j);
        ApartIsMutual(t.threads[j], t.threads[k]);
      } else {
        assert Apart(s.threads[j], s.threads[k]);
      }
    }
  }

  lemma InitialListInv(s: State)
    requires Initial(s)
    ensures ListInv(s)
  {
  }

  lemma {:induction false} RunKeepsListInv(s: State, turns: seq<(nat, Input)>, t: State)
    requires ListInv(s) && LegallyReaches(s, turns, t) && !RunReuses(s, turns)
    ensures ListInv(t)
    decreases |turns|
  {
    if turns != [] {
      StepKeepsListInv(s, turns[0].0, turns[0].1);
      RunKeepsListInv(Step(s, turns[0].0, turns[0].1), turns[1..], t);
    }
  }

  /** No thread connects again. */
  lemma StaysConnected(s: State, i: nat, x: Input, turns: seq<(nat, Input)>)
    requires LegalTurn(s, i, x) && !s.threads[i].pc.Connect?
    ensures OnlyConnected(s, [(i, x)] + turns) <==> OnlyConnected(Step(s, i, x), turns)
  {
    var all, t := [(i, x)] + turns, Step(s, i, x);
    assert forall k :: 0 <= k < |turns| ==> turns[k] == all[k + 1];
    assert forall k :: 0 <= k < |s.threads| ==> (s.threads[k].pc.Connect? <==> t.threads[k].pc.Connect?);
    if OnlyConnected(t, turns) {
      forall k | 0 <= k < |all|
        ensures all[k].0 < |s.threads| && !s.threads[all[k].0].pc.Connect?
      {
        if k > 0 {
          assert all[k] == turns[k - 1];
        }
      }
    }
  }

  lemma {:induction false} ConnectedNeverReuse(s: State, turns: seq<(nat, Input)>, t: State)
    requires LegallyReaches(s, turns, t) && OnlyConnected(s, turns)
    ensures !RunReuses(s, turns)
    decreases |turns|
  {
    if turns != [] {
      assert !s.threads[turns[0].0].pc.Connect?;
      assert turns == [turns[0]] + turns[1..];
      StaysConnected(s, turns[0].0, turns[0].1, turns[1..]);
      ConnectedNeverReuse(Step(s, turns[0].0, turns[0].1), turns[1..], t);
    }
  }

  lemma ListInvCannotUnlist(s: State)
    requires ListInv(s)
    ensures !CanUnlist(s)
  {
    forall turns, t | LegallyReaches(s, turns, t) && OnlyConnected(s, turns)
      ensures !Unlisted(t)
    {
      ConnectedNeverReuse(s, turns, t);
      RunKeepsListInv(s, turns, t);
      forall j | 0 <= j < |t.threads|
        ensures !UnlistedAt(t, j)
      {
        assert IsListed(t, j);
      }
    }
  }

  lemma OneTurnMore(s: State, i: nat, x: Input, turns: seq<(nat, Input)>, t: State)
    requires LegalTurn(s, i, x) && LegallyReaches(Step(s, i, x), turns, t)
    ensures LegallyReaches(s, [(i, x)] + turns, t)
  {
    assert ([(i, x)] + turns)[1..] == turns;
  }

  lemma TurnBeforeUnlisting(s: State, i: nat, x: Input)
    requires LegalTurn(s, i, x) && !s.threads[i].pc.Connect? && CanUnlist(Step(s, i, x))
    ensures CanUnlist(s)
  {
    var turns, t :| LegallyReaches(Step(s, i, x), turns, t) && OnlyConnected(Step(s, i, x), turns) && Unlisted(t);
    OneTurnMore(s, i, x, turns, t);
    StaysConnected(s, i, x, turns);
  }

  lemma UnlistedCan(s: State)
    requires Unlisted(s)
    ensures CanUnlist(s)
  {
    assert LegallyReaches(s, [], s) && OnlyConnected(s, []);
  }

  /** A thread that has yet to list its socket, and one that has closed the same descriptor and has yet
      to unlist it. */
  ghost predicate Meet(s: State, i: nat, j: nat) {
    && i < |s.threads| && j < |s.threads|
    && s.threads[i].pc.LockToList? && s.threads[j].pc.LockToExit? && s.threads[i].fd == s.threads[j].fd
  }

  const SOME := Input(0, "", 0, "")

  /** With the mutex free, the first thread lists its socket and the second one takes it off the list. */
  lemma FreeMeetingUnlists(s: State, i: nat, j: nat)
    requires Exclusive(s) && s.data.lock.None? && Meet(s, i, j)
    ensures CanUnlist(s)
  {
    var a := Step(s, i, SOME);
    var b := Step(a, i, SOME);
    assert b.data.lock.None? && b.threads[i].pc.AskName? && b.threads[j] == s.threads[j];
    var c := Step(b, j, SOME);
    var d := Step(c, j, SOME);
    assert d.threads[i] == b.threads[i] && UnlistedAt(d, i);
    UnlistedCan(d);
    TurnBeforeUnlisting(c, j, SOME);
    TurnBeforeUnlisting(b, j, SOME);
    TurnBeforeUnlisting(a, i, SOME);
    TurnBeforeUnlisting(s, i, SOME);
  }

  lemma HolderGoesOn(s: State, m: nat, x: Input)
    requires Exclusive(s) && s.data.lock == Some(m)
    ensures var t := Step(s, m, x);
            t.data.lock.None? ||
            (t.data.lock == Some(m) && StepsLeft(t.threads[m].pc) < StepsLeft(s.threads[m].pc))
  {
  }

  lemma {:induction false} MeetingUnlists(s: State, i: nat, j: nat)
    requires Exclusive(s) && Meet(s, i, j)
    ensures CanUnlist(s)
    decreases if s.data.lock.Some? then 1 + StepsLeft(s.threads[s.data.lock.value].pc) else 0
  {
    if s.data.lock.None? {
      FreeMeetingUnlists(s, i, j);
    } else {
      var m := s.data.lock.value;
      StepKeepsExclusive(s, m, SOME);
      HolderGoesOn(s, m, SOME);
      MeetingUnlists(Step(s, m, SOME), i, j);
      TurnBeforeUnlisting(s, m, SOME);
    }
  }

  lemma ReuseUnlists(s: State, i: nat, x: Input)
    requires Exclusive(s) && LegalTurn(s, i, x) && Reuses(s, i, x)
    ensures CanUnlist(Step(s, i, x))
  {
    var j :| 0 <= j < |s.threads| && s.threads[j].pc.LockToExit? && s.threads[j].fd == x.fd;
    StepKeepsExclusive(s, i, x);
    assert Meet(Step(s, i, x), i, j);
    MeetingUnlists(Step(s, i, x), i, j);
  }

  /** Some state on the way can be continued to one with an unlisted socket in use. */
  ghost predicate CanUnlistOnTheWay(s: State, turns: seq<(nat, Input)>) {
    exists k: nat, u :: k <= |turns| && LegallyReaches(s, turns[..k], u) && CanUnlist(u)
  }

  lemma {:induction false} ReuseOpensWay(s: State, turns: seq<(nat, Input)>, t: State)
    requires Exclusive(s) && LegallyReaches(s, turns, t) && RunReuses(s, turns)
    ensures CanUnlistOnTheWay(s, turns)
    decreases |turns|
  {
    var i, x := turns[0].0, turns[0].1;
    var s', rest := Step(s, i, x), turns[1..];
    StepKeepsExclusive(s, i, x);
    var k: nat, u;
    if Reuses(s, i, x) {
      ReuseUnlists(s, i, x);
      k, u := 0, s';
      assert rest[..0] == [];
    } else {
      ReuseOpensWay(s', rest, t);
      k, u :| k <= |rest| && LegallyReaches(s', rest[..k], u) && CanUnlist(u);
    }
    assert turns[..k + 1] == [(i, x)] + rest[..k];
    OneTurnMore(s, i, x, rest[..k], u);
  }

  lemma {:induction false} NoReusePrefix(s: State, turns: seq<(nat, Input)>, k: nat, u: State)
    requires k <= |turns| && LegallyReaches(s, turns[..k], u) && RunReuses(s, turns[..k])
    ensures RunReuses(s, turns)
    decreases k
  {
    assert turns[..k][1..] == turns[1..][..k - 1];
    if !Reuses(s, turns[0].0, turns[0].1) {
      NoReusePrefix(Step(s, turns[0].0, turns[0].1), turns[1..], k - 1, u);
    }
  }

  /** Unless a descriptor is reused in that way, every socket in use is listed, in every interleaving. */
  lemma SocketsAreListed(s: State, turns: seq<(nat, Input)>, t: State)
    requires Initial(s) && LegallyReaches(s, turns, t) && !RunReuses(s, turns)
    ensures forall j :: 0 <= j < |t.threads| && InUse(t.threads[j].pc) ==> t.threads[j].fd in t.data.socks
  {
    InitialListInv(s);
    RunKeepsListInv(s, turns, t);
    forall j | 0 <= j < |t.threads| && InUse(t.threads[j].pc)
      ensures t.threads[j].fd in t.data.socks
    {
      assert IsListed(t, j);
    }
  }

  /** A leaving thread takes its descriptor off the list after it has closed it, and every occurrence
      of it.  Exactly when the system gives a descriptor out again between the closing and the locking of
      some thread, the run has a point from which the threads already connected can go on to a state in
      which one of them works on a socket that is not listed. */
  lemma LeavingUnlistsIff(s: State, turns: seq<(nat, Input)>, t: State)
    requires Initial(s) && LegallyReaches(s, turns, t)
    ensures RunReuses(s, turns) <==> CanUnlistOnTheWay(s, turns)
  {
    InitialListInv(s);
    if RunReuses(s, turns) {
      ReuseOpensWay(s, turns, t);
    } else {
      forall k: nat, u | k <= |turns| && LegallyReaches(s, turns[..k], u)
        ensures !CanUnlist(u)
      {
        if RunReuses(s, turns[..k]) {
          NoReusePrefix(s, turns, k, u);
        }
        RunKeepsListInv(s, turns[..k], u);
        ListInvCannotUnlist(u);
      }
    }
  }

  // ------------------------------------------------------------------ it does happen

  ghost predicate SomeRunUnlists(s: State) {
    exists turns, t :: LegallyReaches(s, turns, t) && Unlisted(t)
  }

  lemma TurnBeforeRun(s: State, i: nat, x: Input)
    requires LegalTurn(s, i, x) && SomeRunUnlists(Step(s, i, x))
    ensures SomeRunUnlists(s)
  {
    var turns, t :| LegallyReaches(Step(s, i, x), turns, t) && Unlisted(t);
    OneTurnMore(s, i, x, turns, t);
  }

  /** How many steps a thread is away from closing its socket, at most. */
  function StepsToClose(pc: Pc): nat {
    match pc
    case Connect => 16
    case LockToList => 15
    case List => 14
    case AskName => 13
    case LockToSend => 12
    case SetPort => 11
    case PickOption => 10
    case LookUp => 9
    case Build => 8
    case Write => 7
    case UnlockToRead => 6
    case Read => 5
    case LockToPut => 4
    case Put => 3
    case UnlockAtHit => 2
    case CloseSocket => 1
    case LockToExit | Exit | Done => 0
  }

  /** Thread 0 has not left yet, and the others have not begun. */
  ghost predicate Alone(s: State) {
    && |s.threads| >= 2 && Exclusive(s)
    && !s.threads[0].pc.Exit? && !s.threads[0].pc.Done?
    && forall j :: 0 < j < |s.threads| ==> s.threads[j].pc.Connect?
  }

  lemma AloneGoesOn(s: State)
    requires Alone(s) && !s.threads[0].pc.LockToExit?
    ensures LegalTurn(s, 0, SOME) && Alone(Step(s, 0, SOME))
    ensures StepsToClose(Step(s, 0, SOME).threads[0].pc) < StepsToClose(s.threads[0].pc)
  {
    StepKeepsExclusive(s, 0, SOME);
  }

  lemma {:induction false} LoneRunUnlists(s: State)
    requires Alone(s)
    ensures SomeRunUnlists(s)
    decreases StepsToClose(s.threads[0].pc)
  {
    if s.threads[0].pc.LockToExit? {
      var x := SOME.(fd := s.threads[0].fd);
      assert s.threads[0].fd == x.fd && Reuses(s, 1, x) && LegalTurn(s, 1, x);
      ReuseUnlists(s, 1, x);
      TurnBeforeRun(s, 1, x);
    } else {
      AloneGoesOn(s);
      LoneRunUnlists(Step(s, 0, SOME));
      TurnBeforeRun(s, 0, SOME);
    }
  }

  /** Two threads are enough: from every start with at least two, a legal run leads to a thread that
      works on a socket that is not listed. */
  lemma TwoThreadsCanUnlist(s: State)
    requires Initial(s) && |s.threads| >= 2
    ensures exists turns, t :: LegallyReaches(s, turns, t) && Unlisted(t)
  {
    LoneRunUnlists(s);
  }
}
