/** The child pool of a real server: pre-forked children, temporary children with timers, and the
    handlers that fork, finish, time out and replace them. */
module ChildPool {
  import opened Options

  const PREFORKED_CHILDREN := 5

  datatype ChildStatus = FREE | BUSY

  datatype ChildInfo = ChildInfo(pid: int, status: ChildStatus, index: int, pipe: int, timer: int)

  datatype Pool = Pool(children: seq<ChildInfo>, exist: int, timers: set<int>)

  // ------------------------------------------------------------------ the invariant

  ghost predicate TimerHeld(c: seq<ChildInfo>, t: int) {
    exists i :: PREFORKED_CHILDREN <= i < |c| && c[i].timer == t
  }

  ghost predicate Shape(c: seq<ChildInfo>, maxChildren: int) {
    && PREFORKED_CHILDREN <= |c| <= maxChildren
    && (forall i :: 0 <= i < PREFORKED_CHILDREN ==> c[i].index == i && c[i].timer == 0)
    && (forall i :: PREFORKED_CHILDREN <= i < |c| ==> i <= c[i].index < maxChildren && c[i].timer != 0)
  }

  ghost predicate Distinct(c: seq<ChildInfo>) {
    && (forall i, j :: 0 <= i < j < |c| ==> c[i].pid != c[j].pid)
    && (forall i, j :: 0 <= i < j < |c| ==> c[i].pipe != c[j].pipe)
    && (forall i, j :: PREFORKED_CHILDREN <= i < j < |c| ==> c[i].timer != c[j].timer)
  }

  ghost predicate TimersAgree(p: Pool) {
    && (forall i :: PREFORKED_CHILDREN <= i < |p.children| ==> p.children[i].timer in p.timers)
    && (forall t :: t in p.timers ==> TimerHeld(p.children, t))
  }

  ghost predicate Inv(p: Pool, maxChildren: int) {
    p.exist == |p.children| && Shape(p.children, maxChildren) && Distinct(p.children) && TimersAgree(p)
  }

  // ------------------------------------------------------------------ what the handlers do

  function CountFree(c: seq<ChildInfo>): nat {
    if c == [] then 0 else CountFree(c[..|c| - 1]) + if c[|c| - 1].status == FREE then 1 else 0
  }

  /** The first position from `i` on whose child satisfies the test; the length if there is none. */
  function First(c: seq<ChildInfo>, test: ChildInfo -> bool, i: nat): (k: nat)
    requires i <= |c|
    ensures i <= k <= |c|
    ensures k < |c| ==> test(c[k])
    ensures forall j :: i <= j < k ==> !test(c[j])
    decreases |c| - i
  {
    if i == |c| || test(c[i]) then i else First(c, test, i + 1)
  }

  predicate IsFree(x: ChildInfo) {
    x.status == FREE
  }

  function FirstFree(c: seq<ChildInfo>): nat {
    First(c, IsFree, 0)
  }

  function FirstWithTimer(c: seq<ChildInfo>, t: int): nat
    requires PREFORKED_CHILDREN <= |c|
  {
    First(c, (x: ChildInfo) => x.timer == t, PREFORKED_CHILDREN)
  }

  function FirstWithPid(c: seq<ChildInfo>, pid: int): nat {
    First(c, (x: ChildInfo) => x.pid == pid, 0)
  }

  function SetStatus(c: seq<ChildInfo>, k: nat, s: ChildStatus): seq<ChildInfo>
    requires k < |c|
  {
    c[k := c[k].(status := s)]
  }

  function Erase(p: Pool, k: nat): Pool
    requires k < |p.children|
  {
    Pool(p.children[..k] + p.children[k + 1..], p.exist - 1, p.timers - {p.children[k].timer})
  }

  /** The descriptors and the process that a successful fork brings. */
  datatype Born = Born(pid: int, pipe: int, timer: int)

  /** A request goes to the first free child, else to a new temporary child, else it is refused. */
  function OnRequest(p: Pool, maxChildren: int, born: Born): Pool {
    var k := FirstFree(p.children);
    if k < |p.children| then p.(children := SetStatus(p.children, k, BUSY))
    else if p.exist < maxChildren then OnGrowth(p, born)
    else p
  }

  function OnGrowth(p: Pool, born: Born): Pool {
    Pool(p.children + [ChildInfo(born.pid, BUSY, p.exist, born.pipe, born.timer)], p.exist + 1, p.timers + {born.timer})
  }

  /** A finish message carries the index that its sender was forked with, and the server takes that
      for a position.  Beyond the end of the vector the original has no defined behaviour. */
  function OnFinish(p: Pool, index: int): Option<Pool> {
    if 0 <= index < |p.children| then Some(p.(children := SetStatus(p.children, index, FREE))) else None
  }

  function OnEof(p: Pool, pipe: int): Pool {
    p.(children := seq(|p.children|, i requires 0 <= i < |p.children| =>
      if p.children[i].pipe == pipe then p.children[i].(status := BUSY) else p.children[i]))
  }

  function OnTimeOut(p: Pool, t: int): Pool
    requires PREFORKED_CHILDREN <= |p.children|
  {
    var k := FirstWithTimer(p.children, t);
    if k < |p.children| then Erase(p, k) else p
  }

  /** A dead pre-forked child is replaced in place, a dead temporary child is erased. */
  function OnChildDeath(p: Pool, pid: int, born: Born): Option<Pool> {
    var k := FirstWithPid(p.children, pid);
    if k == |p.children| then Some(p)
    else if p.children[k].index < PREFORKED_CHILDREN then
      var i := p.children[k].index;
      if 0 <= i < |p.children| then
        Some(p.(children := p.children[i := ChildInfo(born.pid, FREE, p.children[i].index, born.pipe, 0)]))
      else None
    else Some(Erase(p, k))
  }

  // ------------------------------------------------------------------ the server

  datatype Status = SUCCESS | MINOR_ERROR | FATAL_ERROR | UNDEFINED

  datatype Read<+T> = ReadFailed | ReadEof | ReadDone(value: T)

  /** The system calls of a fork: socketpair, fork, timer; None is a failure. */
  datatype Calls = Calls(pair: Option<int>, fork: Option<int>, timer: Option<int>, armed: bool, written: bool)

  datatype Signal = SIGCHLD(pid: int) | SIGTERM | SIGINT | UNKNOWN

  class Server {
    const maxChildren: int
    var childPool: seq<ChildInfo>
    var childrenExist: int
    var childrenFree: int
    var timerFds: set<int>
    var serverStop: bool

    ghost function State(): Pool
      reads this
    {
      Pool(childPool, childrenExist, timerFds)
    }

    ghost predicate Valid()
      reads this
    {
      Inv(State(), maxChildren)
    }

    /** The original exits the process for a limit below the number of pre-forked children. */
    constructor (maxChildren: int)
      requires PREFORKED_CHILDREN <= maxChildren
      ensures this.maxChildren == maxChildren && State() == Pool([], PREFORKED_CHILDREN, {}) && !serverStop
    {
      this.maxChildren := maxChildren;
      childPool, childrenExist, childrenFree := [], PREFORKED_CHILDREN, 0;
      timerFds, serverStop := {}, false;
    }

    /** The loop of start() over the pre-forked children. */
    method PreFork(born: seq<Born>) returns (status: Status)
      requires State() == Pool([], PREFORKED_CHILDREN, {}) && PREFORKED_CHILDREN <= maxChildren
      requires |born| == PREFORKED_CHILDREN
      requires forall i, j :: 0 <= i < j < |born| ==> born[i].pid != born[j].pid && born[i].pipe != born[j].pipe
      modifies this`childPool
      ensures status == SUCCESS && Valid()
      ensures forall i :: 0 <= i < PREFORKED_CHILDREN ==>
                childPool[i] == ChildInfo(born[i].pid, FREE, i, born[i].pipe, 0)
    {
      var index := 0;
      while index < PREFORKED_CHILDREN
        invariant 0 <= index <= PREFORKED_CHILDREN && |childPool| == index
        invariant childrenExist == PREFORKED_CHILDREN && timerFds == {}
        invariant forall i :: 0 <= i < index ==> childPool[i] == ChildInfo(born[i].pid, FREE, i, born[i].pipe, 0)
      {
        var forked := ForkChild(index, Calls(Some(born[index].pipe), Some(born[index].pid), None, false, false));
        index := index + 1;
      }
      return SUCCESS;
    }

    method ForkChild(index: int, calls: Calls) returns (status: Status)
      modifies this`childPool
      ensures status == FATAL_ERROR <==> calls.pair.None? || calls.fork.None?
      ensures status == FATAL_ERROR || status == SUCCESS
      ensures status == FATAL_ERROR ==> childPool == old(childPool)
      ensures status == SUCCESS ==>
                childPool == old(childPool) + [ChildInfo(calls.fork.value, FREE, index, calls.pair.value, 0)]
    {
      if calls.pair.None? {
        return FATAL_ERROR;
      }
      var info := ChildInfo(0, FREE, index, calls.pair.value, 0);
      if calls.fork.None? {
        return FATAL_ERROR;
      }
      info := info.(pid := calls.fork.value);
      childPool := childPool + [info];
      return SUCCESS;
    }

    method AddTimer(index: int, calls: Calls) returns (status: Status)
      requires 0 <= index < |childPool|
      modifies this`childPool, this`timerFds
      ensures status == SUCCESS <==> calls.timer.Some? && calls.armed
      ensures status == FATAL_ERROR || status == SUCCESS
      ensures status == FATAL_ERROR ==> State() == old(State())
      ensures status == SUCCESS ==>
                && timerFds == old(timerFds) + {calls.timer.value}
                && childPool == old(childPool)[index := old(childPool)[index].(timer := calls.timer.value)]
    {
      if calls.timer.None? || !calls.armed {
        return FATAL_ERROR;
      }
      timerFds := timerFds + {calls.timer.value};
      childPool := childPool[index := childPool[index].(timer := calls.timer.value)];
      return SUCCESS;
    }

    /** The loop that counts the free children and finds the first one. */
    method CountChildren() returns (firstFree: nat)
      modifies this`childrenFree
      ensures childrenFree == CountFree(childPool)
      ensures childrenFree > 0 <==> FirstFree(childPool) < |childPool|
      ensures childrenFree > 0 ==> firstFree == FirstFree(childPool)
    {
      childrenFree := 0;
      firstFree := 0;
      var i := 0;
      while i < |childPool|
        invariant 0 <= i <= |childPool| && childrenFree == CountFree(childPool[..i])
        invariant childrenFree == 0 ==> FirstFree(childPool) == First(childPool, IsFree, i)
        invariant childrenFree > 0 ==> firstFree == FirstFree(childPool) < |childPool|
      {
        assert childPool[..i + 1][..i] == childPool[..i];
        if childPool[i].status == FREE {
          if childrenFree == 0 {
            firstFree := i;
          }
          childrenFree := childrenFree + 1;
        }
        i := i + 1;
      }
      assert childPool[..i] == childPool;
    }

    /** No child is free: fork one, with a timer, and hand the request to it. */
    method Grow(calls: Calls) returns (status: Status)
      requires childrenExist == |childPool|
      modifies this`childPool, this`childrenExist, this`timerFds
      ensures status == FATAL_ERROR || status == SUCCESS
      ensures status == SUCCESS <==>
                calls.pair.Some? && calls.fork.Some? && calls.timer.Some? && calls.armed && calls.written
      ensures State() == if status == SUCCESS then OnGrowth(old(State()), BornBy(calls))
                         else OnFailedGrowth(old(State()), calls)
    {
      var forked := ForkChild(childrenExist, calls);
      if forked == FATAL_ERROR {
        return FATAL_ERROR;
      }
      var timed := AddTimer(childrenExist, calls);
      if timed == FATAL_ERROR || !calls.written {
        return FATAL_ERROR;
      }
      var i := childrenExist;
      childPool := childPool[i := childPool[i].(status := BUSY)];
      childrenExist := childrenExist + 1;
      return SUCCESS;
    }

    method HandleRequestFromClient(read: Read<()>, calls: Calls) returns (status: Status)
      requires childrenExist == |childPool|
      modifies this`childPool, this`childrenExist, this`childrenFree, this`timerFds
      ensures status == FATAL_ERROR || status == SUCCESS
      ensures status == SUCCESS <==>
                && read.ReadDone? && calls.written
                && (old(FirstFree(childPool) == |childPool| && childrenExist < maxChildren) ==>
                      calls.pair.Some? && calls.fork.Some? && calls.timer.Some? && calls.armed)
      ensures status == SUCCESS ==>
                && childrenFree == CountFree(old(childPool))
                && State() == OnRequest(old(State()), maxChildren, BornBy(calls))
      ensures status == FATAL_ERROR ==>
                State() == if read.ReadDone? && old(FirstFree(childPool) == |childPool| && childrenExist < maxChildren)
                           then OnFailedGrowth(old(State()), calls) else old(State())
    {
      if !read.ReadDone? {
        return FATAL_ERROR;
      }
      var firstFree := CountChildren();
      if childrenFree > 0 {
        if !calls.written {
          return FATAL_ERROR;
        }
        childPool := childPool[firstFree := childPool[firstFree].(status := BUSY)];
      } else if childrenExist < maxChildren {
        status := Grow(calls);
        return;
      } else if !calls.written {
        return FATAL_ERROR;
      }
      return SUCCESS;
    }

    /** `message` is the copy of its own entry that a finished child sends. */
    method HandleResponseFromChild(trigger: int, message: Read<ChildInfo>, armed: bool) returns (status: Status)
      modifies this`childPool
      ensures message.ReadFailed? ==> status == FATAL_ERROR && State() == old(State())
      ensures message.ReadEof? ==> status == MINOR_ERROR && State() == OnEof(old(State()), trigger)
      ensures message.ReadDone? && message.value.pid <= 0 ==> status == SUCCESS && State() == old(State())
      ensures message.ReadDone? && message.value.pid > 0 ==>
                match OnFinish(old(State()), message.value.index)
                case None => status == UNDEFINED && State() == old(State())
                case Some(p) =>
                  && State() == p
                  && status == (if message.value.index >= PREFORKED_CHILDREN && !armed then FATAL_ERROR else SUCCESS)
    {
      match message {
        case ReadFailed => return FATAL_ERROR;
        case ReadEof =>
          var i := 0;
          while i < |childPool|
            invariant 0 <= i <= |childPool| == |old(childPool)|
            invariant childrenExist == old(childrenExist) && timerFds == old(timerFds)
            invariant forall j :: 0 <= j < i ==> childPool[j] == OnEof(old(State()), trigger).children[j]
            invariant forall j :: i <= j < |childPool| ==> childPool[j] == old(childPool)[j]
          {
            if childPool[i].pipe == trigger {
              childPool := childPool[i := childPool[i].(status := BUSY)];
            }
            i := i + 1;
          }
          assert childPool == OnEof(old(State()), trigger).children;
          return MINOR_ERROR;
        case ReadDone(result) =>
          if result.pid > 0 {
            var index := result.index;
            if !(0 <= index < |childPool|) {
              return UNDEFINED;
            }
            childPool := childPool[index := childPool[index].(status := FREE)];
            if index >= PREFORKED_CHILDREN && !armed {
              return FATAL_ERROR;
            }
          }
          return SUCCESS;
      }
    }

    method HandleChildTimeOut(trigger: int) returns (status: Status)
      requires PREFORKED_CHILDREN <= |childPool|
      modifies this`childPool, this`childrenExist, this`timerFds
      ensures status == SUCCESS && State() == OnTimeOut(old(State()), trigger)
    {
      var it := PREFORKED_CHILDREN;
      while it < |childPool|
        invariant PREFORKED_CHILDREN <= it <= |childPool| && State() == old(State())
        invariant FirstWithTimer(childPool, trigger) == First(childPool, (x: ChildInfo) => x.timer == trigger, it)
      {
        if childPool[it].timer == trigger {
          timerFds := timerFds - {trigger};
          childrenExist := childrenExist - 1;
          childPool := childPool[..it] + childPool[it + 1..];
          break;
        }
        it := it + 1;
      }
      return SUCCESS;
    }

    method UpdateChild(index: int, calls: Calls) returns (status: Status)
      requires 0 <= index < |childPool|
      modifies this`childPool
      ensures status == FATAL_ERROR || status == SUCCESS
      ensures status == SUCCESS <==> calls.pair.Some? && calls.fork.Some?
      ensures status == SUCCESS ==>
                childPool == old(childPool)[index :=
                  ChildInfo(calls.fork.value, FREE, old(childPool)[index].index, calls.pair.value, 0)]
      ensures status == FATAL_ERROR ==>
                childPool == old(childPool)[index := OnFailedUpdate(old(childPool)[index], calls)]
    {
      childPool := childPool[index := childPool[index].(status := FREE, timer := 0)];
      if calls.pair.None? {
        return FATAL_ERROR;
      }
      childPool := childPool[index := childPool[index].(pipe := calls.pair.value)];
      if calls.fork.None? {
        return FATAL_ERROR;
      }
      childPool := childPool[index := childPool[index].(pid := calls.fork.value)];
      return SUCCESS;
    }

    /** Pre-forked children are looked up by their index; Valid() implies that they are there. */
    ghost predicate Indexed()
      reads this`childPool
    {
      forall i :: 0 <= i < |childPool| && childPool[i].index < PREFORKED_CHILDREN ==>
        0 <= childPool[i].index < |childPool|
    }

    method ServerSigHandler(signal: Read<Signal>, calls: Calls) returns (status: Status)
      requires Indexed()
      modifies this`childPool, this`childrenExist, this`timerFds, this`serverStop
      ensures status == FATAL_ERROR || status == SUCCESS
      ensures status == SUCCESS <==> signal.ReadDone? && (signal.value.SIGCHLD? ==>
                var k := old(FirstWithPid(childPool, signal.value.pid));
                k < |old(childPool)| && old(childPool)[k].index < PREFORKED_CHILDREN ==>
                  calls.pair.Some? && calls.fork.Some?)
      ensures status == SUCCESS && signal.value.SIGCHLD? ==>
                && OnChildDeath(old(State()), signal.value.pid, BornBy(calls)) == Some(State())
                && serverStop == old(serverStop)
      ensures status == FATAL_ERROR && !signal.ReadDone? ==> State() == old(State()) && serverStop == old(serverStop)
      ensures status == FATAL_ERROR && signal.ReadDone? ==>
                && serverStop && childrenExist == old(childrenExist) && timerFds == old(timerFds)
                && signal.value.SIGCHLD?
                && var i := old(childPool)[FirstWithPid(old(childPool), signal.value.pid)].index;
                   childPool == old(childPool)[i := OnFailedUpdate(old(childPool)[i], calls)]
      ensures signal.ReadDone? && !signal.value.SIGCHLD? ==>
                && status == SUCCESS && State() == old(State())
                && serverStop == (old(serverStop) || signal.value != UNKNOWN)
    {
      if !signal.ReadDone? {
        return FATAL_ERROR;
      }
      match signal.value {
        case SIGCHLD(pid) =>
          var it := 0;
          while it < |childPool|
            invariant 0 <= it <= |childPool| && State() == old(State()) && serverStop == old(serverStop)
            invariant FirstWithPid(childPool, pid) == First(childPool, (x: ChildInfo) => x.pid == pid, it)
          {
            if childPool[it].pid == pid {
              if childPool[it].index < PREFORKED_CHILDREN {
                var updated := UpdateChild(childPool[it].index, calls);
                if updated == FATAL_ERROR {
                  serverStop := true;
                  return FATAL_ERROR;
                }
              } else {
                timerFds := timerFds - {childPool[it].timer};
                childrenExist := childrenExist - 1;
                childPool := childPool[..it] + childPool[it + 1..];
              }
              break;
            }
            it := it + 1;
          }
        case SIGTERM | SIGINT => serverStop := true;
        case UNKNOWN =>
      }
      return SUCCESS;
    }
  }

  function BornBy(calls: Calls): Born {
    Born(if calls.fork.Some? then calls.fork.value else 0,
         if calls.pair.Some? then calls.pair.value else 0,
         if calls.timer.Some? then calls.timer.value else 0)
  }

  /** What a growth that fails half-way leaves behind: the counter never counts the new child. */
  function OnFailedGrowth(p: Pool, calls: Calls): Pool {
    if calls.pair.None? || calls.fork.None? then p
    else
      var child := ChildInfo(calls.fork.value, FREE, p.exist, calls.pair.value, 0);
      if calls.timer.None? || !calls.armed then p.(children := p.children + [child])
      else p.(children := p.children + [child.(timer := calls.timer.value)], timers := p.timers + {calls.timer.value})
  }

  /** What a replacement that fails leaves of the dead child. */
  function OnFailedUpdate(c: ChildInfo, calls: Calls): ChildInfo {
    c.(status := FREE, timer := 0, pipe := if calls.pair.Some? then calls.pair.value else c.pipe)
  }

  // ------------------------------------------------------------------ every step keeps the invariant

  ghost predicate Fresh(p: Pool, born: Born) {
    && born.timer != 0 && born.timer !in p.timers
    && (forall i :: 0 <= i < |p.children| ==> p.children[i].pid != born.pid && p.children[i].pipe != born.pipe)
  }

  lemma StatusKeepsInv(p: Pool, c: seq<ChildInfo>, maxChildren: int)
    requires Inv(p, maxChildren)
    requires |c| == |p.children| && forall i :: 0 <= i < |c| ==> c[i] == p.children[i].(status := c[i].status)
    ensures Inv(p.(children := c), maxChildren)
  {
    forall t | t in p.timers
      ensures TimerHeld(c, t)
    {
      assert TimerHeld(p.children, t);
      var i :| PREFORKED_CHILDREN <= i < |p.children| && p.children[i].timer == t;
      assert c[i].timer == t;
    }
  }

  lemma GrowthKeepsInv(p: Pool, maxChildren: int, born: Born)
    requires Inv(p, maxChildren) && p.exist < maxChildren && Fresh(p, born)
    ensures Inv(OnGrowth(p, born), maxChildren)
  {
    var q := OnGrowth(p, born);
    assert q.children[|p.children|].timer == born.timer;
    forall t | t in q.timers
      ensures TimerHeld(q.children, t)
    {
      if t in p.timers {
        assert TimerHeld(p.children, t);
        var i :| PREFORKED_CHILDREN <= i < |p.children| && p.children[i].timer == t;
        assert q.children[i].timer == t;
      }
    }
  }

  lemma ErasedChildren(p: Pool, k: nat)
    requires k < |p.children|
    ensures var c := Erase(p, k).children;
            |c| == |p.children| - 1 && forall i :: 0 <= i < |c| ==> c[i] == p.children[if i < k then i else i + 1]
  {
  }

  lemma EraseKeepsShape(p: Pool, maxChildren: int, k: nat)
    requires Inv(p, maxChildren) && PREFORKED_CHILDREN <= k < |p.children|
    ensures Shape(Erase(p, k).children, maxChildren) && Distinct(Erase(p, k).children)
  {
    ErasedChildren(p, k);
  }

  lemma EraseKeepsTimers(p: Pool, maxChildren: int, k: nat)
    requires Inv(p, maxChildren) && PREFORKED_CHILDREN <= k < |p.children|
    ensures TimersAgree(Erase(p, k))
    ensures !TimerHeld(Erase(p, k).children, p.children[k].timer)
  {
    ErasedChildren(p, k);
    var q := Erase(p, k);
    forall t | t in q.timers
      ensures TimerHeld(q.children, t)
    {
      assert TimerHeld(p.children, t);
      var i :| PREFORKED_CHILDREN <= i < |p.children| && p.children[i].timer == t;
      assert q.children[if i < k then i else i - 1].timer == t;
    }
  }

  lemma EraseKeepsInv(p: Pool, maxChildren: int, k: nat)
    requires Inv(p, maxChildren) && PREFORKED_CHILDREN <= k < |p.children|
    ensures Inv(Erase(p, k), maxChildren)
    ensures !TimerHeld(Erase(p, k).children, p.children[k].timer)
  {
    EraseKeepsShape(p, maxChildren, k);
    EraseKeepsTimers(p, maxChildren, k);
  }

  lemma ReplaceKeepsInv(p: Pool, maxChildren: int, k: nat, born: Born)
    requires Inv(p, maxChildren) && k < PREFORKED_CHILDREN && Fresh(p, born)
    ensures var child := ChildInfo(born.pid, FREE, p.children[k].index, born.pipe, 0);
            Inv(p.(children := p.children[k := child]), maxChildren)
  {
    var c := p.children[k := ChildInfo(born.pid, FREE, p.children[k].index, born.pipe, 0)];
    forall t | t in p.timers
      ensures TimerHeld(c, t)
    {
      assert TimerHeld(p.children, t);
      var i :| PREFORKED_CHILDREN <= i < |p.children| && p.children[i].timer == t;
      assert c[i].timer == t;
    }
  }

  /** A timer that the dispatcher knows belongs to one temporary child, and its alarm removes that
      child and nothing else. */
  lemma TimeOutRemovesOne(p: Pool, maxChildren: int, t: int) returns (k: nat)
    requires Inv(p, maxChildren) && t in p.timers
    ensures PREFORKED_CHILDREN <= k < |p.children| && p.children[k].timer == t
    ensures forall i :: PREFORKED_CHILDREN <= i < |p.children| && p.children[i].timer == t ==> i == k
    ensures OnTimeOut(p, t) == Erase(p, k) && Inv(OnTimeOut(p, t), maxChildren)
  {
    assert TimerHeld(p.children, t);
    k := FirstWithTimer(p.children, t);
    EraseKeepsInv(p, maxChildren, k);
  }

  /** The death of a child replaces exactly that child where it stands, if it was pre-forked, and
      otherwise removes exactly that child. */
  lemma DeathHitsTheChild(p: Pool, maxChildren: int, k: nat, born: Born)
    requires Inv(p, maxChildren) && k < |p.children| && Fresh(p, born)
    ensures OnChildDeath(p, p.children[k].pid, born) == Some(
              if k < PREFORKED_CHILDREN then p.(children := p.children[k := ChildInfo(born.pid, FREE, k, born.pipe, 0)])
              else Erase(p, k))
  {
    assert FirstWithPid(p.children, p.children[k].pid) == k;
  }

  // ------------------------------------------------------------------ runs

  datatype Event =
    | Requested(born: Born)
    | Finished(sender: nat)  // the position of the child whose message arrives
    | Closed(pipe: int)
    | TimedOut(timer: int)
    | Died(pid: int, born: Born)

  function Step(p: Pool, maxChildren: int, e: Event): Option<Pool>
    requires PREFORKED_CHILDREN <= |p.children|
  {
    match e
    case Requested(born) => Some(OnRequest(p, maxChildren, born))
    case Finished(sender) => if sender < |p.children| then OnFinish(p, p.children[sender].index) else Some(p)
    case Closed(pipe) => Some(OnEof(p, pipe))
    case TimedOut(timer) => Some(OnTimeOut(p, timer))
    case Died(pid, born) => OnChildDeath(p, pid, born)
  }

  /** The system gives out unused descriptors and process numbers; an alarm is dispatched for a timer
      of the set, and a message comes from a child of the pool. */
  ghost predicate Legal(p: Pool, e: Event) {
    match e
    case Requested(born) => Fresh(p, born)
    case Finished(sender) => sender < |p.children|
    case Closed(_) => true
    case TimedOut(timer) => timer in p.timers
    case Died(_, born) => Fresh(p, born)
  }

  lemma StepKeepsInv(p: Pool, maxChildren: int, e: Event)
    requires Inv(p, maxChildren) && Legal(p, e)
    ensures Step(p, maxChildren, e).None? ==> e.Finished?
    ensures Step(p, maxChildren, e).Some? ==> Inv(Step(p, maxChildren, e).value, maxChildren)
  {
    match e {
      case Requested(born) =>
        if FirstFree(p.children) < |p.children| {
          StatusKeepsInv(p, OnRequest(p, maxChildren, born).children, maxChildren);
        } else if p.exist < maxChildren {
          GrowthKeepsInv(p, maxChildren, born);
        }
      case Finished(sender) =>
        var r := OnFinish(p, p.children[sender].index);
        if r.Some? {
          StatusKeepsInv(p, r.value.children, maxChildren);
        }
      case Closed(pipe) =>
        StatusKeepsInv(p, OnEof(p, pipe).children, maxChildren);
      case TimedOut(timer) =>
        var k := TimeOutRemovesOne(p, maxChildren, timer);
      case Died(pid, born) =>
        var k := FirstWithPid(p.children, pid);
        if k < |p.children| {
          DeathHitsTheChild(p, maxChildren, k, born);
          if k < PREFORKED_CHILDREN {
            ReplaceKeepsInv(p, maxChildren, k, born);
          } else {
            EraseKeepsInv(p, maxChildren, k);
          }
        }
    }
  }

  /** The pool after a run; None where the original has left its vector. */
  function Run(p: Pool, maxChildren: int, events: seq<Event>): Option<Pool>
    decreases |events|
  {
    if events == [] then Some(p)
    else if |p.children| < PREFORKED_CHILDREN then None
    else
      var q := Step(p, maxChildren, events[0]);
      if q.None? then None else Run(q.value, maxChildren, events[1..])
  }

  ghost predicate LegalRun(p: Pool, maxChildren: int, events: seq<Event>)
    decreases |events|
  {
    events != [] ==>
      && |p.children| >= PREFORKED_CHILDREN
      && Legal(p, events[0])
      && (Step(p, maxChildren, events[0]).Some? ==>
            LegalRun(Step(p, maxChildren, events[0]).value, maxChildren, events[1..]))
  }

  /** Whatever happens, in whatever order: the pool keeps its shape as long as no finish message leads
      the server out of its vector. */
  lemma {:induction false} RunKeepsInv(p: Pool, maxChildren: int, events: seq<Event>)
    requires Inv(p, maxChildren) && LegalRun(p, maxChildren, events)
    ensures Run(p, maxChildren, events).Some? ==> Inv(Run(p, maxChildren, events).value, maxChildren)
    decreases |events|
  {
    if events != [] {
      StepKeepsInv(p, maxChildren, events[0]);
      var q := Step(p, maxChildren, events[0]);
      if q.Some? {
        RunKeepsInv(q.value, maxChildren, events[1..]);
      }
    }
  }

  // ------------------------------------------------------------------ index and position

  ghost predicate Aligned(c: seq<ChildInfo>) {
    forall i :: 0 <= i < |c| ==> c[i].index == i
  }

  /** A finish message frees its sender exactly when the sender stands where its index says.  It
      frees a later child otherwise, or leaves the vector. */
  lemma FinishHitsSenderIff(p: Pool, maxChildren: int, k: nat)
    requires Inv(p, maxChildren) && k < |p.children|
    ensures var i := p.children[k].index;
            var r := OnFinish(p, i);
            && i >= k
            && (r.None? <==> i >= |p.children|)
            && (r.Some? ==> r.value.children[i].status == FREE)
            && (r.Some? ==> forall j :: 0 <= j < |p.children| && j != i ==> r.value.children[j] == p.children[j])
            && (p.children[k].status == BUSY ==> (r.Some? && r.value.children[k].status == FREE <==> i == k))
  {
  }

  /** Removing a temporary child keeps index and position together exactly when it is the last one
      and all children before it were aligned. */
  lemma EraseAlignedIff(p: Pool, maxChildren: int, k: nat)
    requires Inv(p, maxChildren) && PREFORKED_CHILDREN <= k < |p.children|
    ensures Aligned(Erase(p, k).children) <==> Aligned(p.children[..k]) && k == |p.children| - 1
  {
    var c := Erase(p, k).children;
    if k < |p.children| - 1 {
      assert c[k] == p.children[k + 1];
    }
    if Aligned(c) {
      assert forall i :: 0 <= i < k ==> p.children[..k][i] == c[i];
    }
  }

  /** No other step touches the alignment. */
  lemma OthersKeepAligned(p: Pool, maxChildren: int, e: Event)
    requires Inv(p, maxChildren) && Legal(p, e) && Step(p, maxChildren, e).Some?
    requires !e.TimedOut?
    requires e.Died? ==> var k := FirstWithPid(p.children, e.pid); k < PREFORKED_CHILDREN || k == |p.children|
    ensures Aligned(Step(p, maxChildren, e).value.children) <==> Aligned(p.children)
  {
    var q := Step(p, maxChildren, e).value;
    if e.Died? && FirstWithPid(p.children, e.pid) < PREFORKED_CHILDREN {
      DeathHitsTheChild(p, maxChildren, FirstWithPid(p.children, e.pid), e.born);
    }
    if Aligned(q.children) {
      assert forall i :: 0 <= i < |p.children| ==> p.children[i].index == q.children[i].index;
    }
  }

  /** As soon as a temporary child that is not the last one of an aligned pool is removed, the last
      child drives the server out of its vector when it finishes. */
  lemma LastChildLeavesVector(p: Pool, maxChildren: int, k: nat)
    requires Inv(p, maxChildren) && Aligned(p.children) && PREFORKED_CHILDREN <= k < |p.children| - 1
    ensures Step(Erase(p, k), maxChildren, Finished(|p.children| - 2)).None?
  {
    assert Erase(p, k).children[|p.children| - 2] == p.children[|p.children| - 1];
  }

  // ------------------------------------------------------------------ removals inside the vector

  /** Position `k` holds a temporary child that is not the last one. */
  predicate Inner(p: Pool, k: nat) {
    PREFORKED_CHILDREN <= k < |p.children| - 1
  }

  /** The event removes such a child. */
  predicate RemovesInner(p: Pool, e: Event) {
    match e
    case TimedOut(timer) => PREFORKED_CHILDREN <= |p.children| && Inner(p, FirstWithTimer(p.children, timer))
    case Died(pid, _) => Inner(p, FirstWithPid(p.children, pid))
    case _ => false
  }

  /** An event that removes no inner child keeps an aligned pool aligned, and stays inside the vector. */
  lemma StepStaysAligned(p: Pool, maxChildren: int, e: Event)
    requires Inv(p, maxChildren) && Legal(p, e) && Aligned(p.children) && !RemovesInner(p, e)
    ensures var q := Step(p, maxChildren, e); q.Some? && Inv(q.value, maxChildren) && Aligned(q.value.children)
  {
    StepKeepsInv(p, maxChildren, e);
    if e.TimedOut? {
      var k := TimeOutRemovesOne(p, maxChildren, e.timer);
      assert k == FirstWithTimer(p.children, e.timer);
      EraseAlignedIff(p, maxChildren, k);
    } else if e.Died? && PREFORKED_CHILDREN <= FirstWithPid(p.children, e.pid) < |p.children| {
      var k := FirstWithPid(p.children, e.pid);
      DeathHitsTheChild(p, maxChildren, k, e.born);
      EraseAlignedIff(p, maxChildren, k);
    } else {
      OthersKeepAligned(p, maxChildren, e);
    }
  }

  // ------------------------------------------------------------------ a run out of the vector

  /** A freshly started server whose first `busy` children have been given a request. */
  function Started(busy: nat): Pool {
    Pool(seq(PREFORKED_CHILDREN, i requires 0 <= i < PREFORKED_CHILDREN =>
           ChildInfo(i + 1, if i < busy then BUSY else FREE, i, i + 1, 0)), PREFORKED_CHILDREN, {})
  }

  function Newborn(j: nat): Born {
    Born(10 + j, 10 + j, 10 + j)
  }

  function Requests(from: nat, to: nat): seq<Event>
    requires from <= to
  {
    seq(to - from, i requires 0 <= i < to - from => Requested(Newborn(from + i)))
  }

  lemma FirstFreeIs(c: seq<ChildInfo>, k: nat)
    requires k < |c| && IsFree(c[k]) && forall j :: 0 <= j < k ==> !IsFree(c[j])
    ensures FirstFree(c) == k
  {
    var f := FirstFree(c);
    assert f < |c| ==> IsFree(c[f]);
  }

  lemma {:induction false} FillUp(busy: nat, rest: seq<Event>)
    requires busy <= PREFORKED_CHILDREN
    ensures var events := Requests(busy, PREFORKED_CHILDREN) + rest;
            && Run(Started(busy), 7, events) == Run(Started(PREFORKED_CHILDREN), 7, rest)
            && (LegalRun(Started(PREFORKED_CHILDREN), 7, rest) ==> LegalRun(Started(busy), 7, events))
    decreases PREFORKED_CHILDREN - busy
  {
    var events := Requests(busy, PREFORKED_CHILDREN) + rest;
    if busy == PREFORKED_CHILDREN {
      assert events == rest;
    } else {
      assert events[0] == Requested(Newborn(busy));
      assert events[1..] == Requests(busy + 1, PREFORKED_CHILDREN) + rest;
      FirstFreeIs(Started(busy).children, busy);
      assert OnRequest(Started(busy), 7, Newborn(busy)).children == Started(busy + 1).children;
      FillUp(busy + 1, rest);
    }
  }

  /** Two temporary children beyond the pre-forked ones, all at work. */
  function Overloaded(): Pool {
    Pool(Started(PREFORKED_CHILDREN).children + [ChildInfo(15, BUSY, 5, 15, 15), ChildInfo(16, BUSY, 6, 16, 16)],
         7, {15, 16})
  }

  lemma GrowTwice(rest: seq<Event>)
    ensures var events := Requests(PREFORKED_CHILDREN, 7) + rest;
            && Run(Started(PREFORKED_CHILDREN), 7, events) == Run(Overloaded(), 7, rest)
            && (LegalRun(Overloaded(), 7, rest) ==> LegalRun(Started(PREFORKED_CHILDREN), 7, events))
  {
    var events := Requests(PREFORKED_CHILDREN, 7) + rest;
    var p := Started(PREFORKED_CHILDREN);
    assert events[0] == Requested(Newborn(5)) && events[1..][0] == Requested(Newborn(6));
    assert events[1..][1..] == rest;
    assert FirstFree(p.children) == |p.children|;
    var q := OnGrowth(p, Newborn(5));
    assert FirstFree(q.children) == |q.children|;
    var r := OnGrowth(q, Newborn(6));
    assert r.children == Overloaded().children && r.timers == Overloaded().timers;
  }

  /** Nine legal steps lead a freshly started server of seven children out of its vector: all children
      get work, the first temporary child times out, the second one finishes. */
  lemma VectorCanBeLeft()
    ensures exists events: seq<Event> ::
              Inv(Started(0), 7) && LegalRun(Started(0), 7, events) && Run(Started(0), 7, events).None?
  {
    var last := [TimedOut(15), Finished(5)];
    var p := Overloaded();
    assert p.children[5].timer == 15;
    assert FirstWithTimer(p.children, 15) == 5;
    var q := Erase(p, 5);
    assert q.children[5] == p.children[6];
    assert last[1..] == [Finished(5)];
    assert LegalRun(p, 7, last) && Run(p, 7, last).None?;
    GrowTwice(last);
    FillUp(0, Requests(PREFORKED_CHILDREN, 7) + last);
  }
}
