/** When the server of the child pool stays inside its vector.

    The pool is what the server believes.  Here it is paired with what its children do: a child sends a
    finish message only for a request that it was given, and none after its end of file. */
module ChildRuns {
  import opened Options
  import opened ChildPool

  /** The requests that a child was given and has not finished, and whether its end of file was seen: a
      closed child is dead, and its death will be reported. */
  datatype Activity = Activity(work: nat, closed: bool)

  /** The activities of the children, position by position. */
  datatype Site = Site(pool: Pool, acts: seq<Activity>)

  const IDLE := Activity(0, false)

  predicate Shaped(s: Site) {
    |s.acts| == |s.pool.children|
  }

  /** The child can send a finish message. */
  predicate Works(s: Site, i: nat) {
    i < |s.acts| && s.acts[i].work > 0 && !s.acts[i].closed
  }

  function Without<T>(a: seq<T>, k: nat): (r: seq<T>)
    requires k < |a|
    ensures |r| == |a| - 1 && forall i :: 0 <= i < |r| ==> r[i] == a[if i < k then i else i + 1]
  {
    a[..k] + a[k + 1..]
  }

  function ActsAfter(s: Site, maxChildren: int, e: Event): (acts: seq<Activity>)
    requires Shaped(s) && PREFORKED_CHILDREN <= |s.acts|
  {
    var c, acts := s.pool.children, s.acts;
    match e
    case Requested(_) =>
      var k := FirstFree(c);
      if k < |c| then acts[k := acts[k].(work := acts[k].work + 1)]
      else if s.pool.exist < maxChildren then acts + [Activity(1, false)]
      else acts
    case Finished(i) => if Works(s, i) then acts[i := acts[i].(work := acts[i].work - 1)] else acts
    case Closed(pipe) =>
      seq(|acts|, i requires 0 <= i < |acts| => if c[i].pipe == pipe then Activity(0, true) else acts[i])
    case TimedOut(timer) =>
      var k := FirstWithTimer(c, timer);
      if k < |c| then Without(acts, k) else acts
    case Died(pid, _) =>
      var k := FirstWithPid(c, pid);
      if k == |c| then acts
      else if c[k].index >= PREFORKED_CHILDREN then Without(acts, k)
      else if 0 <= c[k].index then acts[c[k].index := IDLE]
      else acts
  }

  function SiteStep(s: Site, maxChildren: int, e: Event): (r: Option<Site>)
    requires Shaped(s) && PREFORKED_CHILDREN <= |s.acts|
  {
    var q := Step(s.pool, maxChildren, e);
    if q.None? then None else Some(Site(q.value, ActsAfter(s, maxChildren, e)))
  }

  ghost predicate SiteLegal(s: Site, e: Event) {
    Legal(s.pool, e) && (e.Finished? ==> Works(s, e.sender))
  }

  /** The server believes a child free exactly if it neither works nor is closed. */
  ghost predicate InSync(s: Site) {
    Shaped(s) && forall i :: 0 <= i < |s.acts| ==> Matches(s.pool.children[i], s.acts[i])
  }

  predicate Matches(x: ChildInfo, a: Activity) {
    a.work <= 1 && (IsFree(x) <==> !a.closed && a.work == 0)
  }

  ghost predicate Good(s: Site, maxChildren: int) {
    Inv(s.pool, maxChildren) && InSync(s)
  }

  // ------------------------------------------------------------------ what can happen next

  /** A request, or the report of a death that is due. */
  predicate Due(s: Site, e: Event)
    requires Shaped(s)
  {
    match e
    case Requested(_) => true
    case Died(pid, _) => var k := FirstWithPid(s.pool.children, pid); k < |s.acts| && s.acts[k].closed
    case _ => false
  }

  /** A child at work would lead the server out of its vector by finishing. */
  ghost predicate LeavesNow(s: Site) {
    Shaped(s) && exists i: nat :: Works(s, i) && OnFinish(s.pool, s.pool.children[i].index).None?
  }

  /** A child at work would not be the one that its finish message frees. */
  ghost predicate MissesNow(s: Site) {
    Shaped(s) && exists i: nat :: Works(s, i) && s.pool.children[i].index != i
  }

  /** Requests and due deaths lead from `s` to `t`. */
  ghost predicate DueLeads(s: Site, maxChildren: int, events: seq<Event>, t: Site)
    decreases |events|
  {
    if events == [] then s == t
    else
      && Shaped(s) && PREFORKED_CHILDREN <= |s.acts|
      && SiteLegal(s, events[0]) && Due(s, events[0])
      && SiteStep(s, maxChildren, events[0]).Some?
      && DueLeads(SiteStep(s, maxChildren, events[0]).value, maxChildren, events[1..], t)
  }

  ghost predicate CanLeave(s: Site, maxChildren: int) {
    exists events, t :: DueLeads(s, maxChildren, events, t) && LeavesNow(t)
  }

  ghost predicate CanMiss(s: Site, maxChildren: int) {
    exists events, t :: DueLeads(s, maxChildren, events, t) && MissesNow(t)
  }

  lemma LeavingMisses(s: Site, maxChildren: int)
    requires CanLeave(s, maxChildren)
    ensures CanMiss(s, maxChildren)
  {
    var events, t :| DueLeads(s, maxChildren, events, t) && LeavesNow(t);
    var i: nat :| Works(t, i) && OnFinish(t.pool, t.pool.children[i].index).None?;
    assert t.pool.children[i].index != i;
  }

  lemma LeavesAtOnce(s: Site, maxChildren: int)
    requires LeavesNow(s)
    ensures CanLeave(s, maxChildren)
  {
    assert DueLeads(s, maxChildren, [], s);
  }

  lemma DueBeforeLeaving(s: Site, maxChildren: int, e: Event)
    requires Shaped(s) && PREFORKED_CHILDREN <= |s.acts| && SiteLegal(s, e) && Due(s, e)
    requires SiteStep(s, maxChildren, e).Some? && CanLeave(SiteStep(s, maxChildren, e).value, maxChildren)
    ensures CanLeave(s, maxChildren)
  {
    var s' := SiteStep(s, maxChildren, e).value;
    var events, t :| DueLeads(s', maxChildren, events, t) && LeavesNow(t);
    assert ([e] + events)[1..] == events;
    assert DueLeads(s, maxChildren, [e] + events, t);
  }

  // ------------------------------------------------------------------ steps keep belief and work in step

  lemma RequestKeepsSync(s: Site, maxChildren: int, born: Born)
    requires Good(s, maxChildren)
    ensures InSync(SiteStep(s, maxChildren, Requested(born)).value)
  {
  }

  lemma RemovalKeepsSync(s: Site, k: nat)
    requires InSync(s) && k < |s.acts|
    ensures InSync(Site(Erase(s.pool, k), Without(s.acts, k)))
  {
    ErasedChildren(s.pool, k);
  }

  lemma DeathKeepsSync(s: Site, maxChildren: int, k: nat, born: Born)
    requires Good(s, maxChildren) && k < |s.acts| && Fresh(s.pool, born)
    ensures var t := SiteStep(s, maxChildren, Died(s.pool.children[k].pid, born));
            && t.Some? && InSync(t.value)
            && (k >= PREFORKED_CHILDREN ==> t.value == Site(Erase(s.pool, k), Without(s.acts, k)))
  {
    DeathHitsTheChild(s.pool, maxChildren, k, born);
    assert FirstWithPid(s.pool.children, s.pool.children[k].pid) == k;
    if k >= PREFORKED_CHILDREN {
      RemovalKeepsSync(s, k);
    }
  }

  lemma OthersKeepSync(s: Site, maxChildren: int, e: Event)
    requires Good(s, maxChildren) && SiteLegal(s, e) && Aligned(s.pool.children)
    requires e.Finished? || e.Closed? || e.TimedOut?
    ensures var t := SiteStep(s, maxChildren, e); t.Some? ==> InSync(t.value)
  {
    if e.TimedOut? {
      var k := TimeOutRemovesOne(s.pool, maxChildren, e.timer);
      RemovalKeepsSync(s, k);
    } else if e.Finished? {
      assert s.pool.children[e.sender].index == e.sender;
    }
  }

  lemma StepKeepsGood(s: Site, maxChildren: int, e: Event)
    requires Good(s, maxChildren) && SiteLegal(s, e) && Aligned(s.pool.children)
    ensures var t := SiteStep(s, maxChildren, e); t.Some? && Good(t.value, maxChildren)
    ensures !RemovesInner(s.pool, e) ==> Aligned(SiteStep(s, maxChildren, e).value.pool.children)
  {
    StepKeepsInv(s.pool, maxChildren, e);
    if !RemovesInner(s.pool, e) {
      StepStaysAligned(s.pool, maxChildren, e);
    }
    match e {
      case Requested(born) => RequestKeepsSync(s, maxChildren, born);
      case Died(pid, born) =>
        var k := FirstWithPid(s.pool.children, pid);
        if k < |s.acts| {
          DeathKeepsSync(s, maxChildren, k, born);
        }
      case _ => OthersKeepSync(s, maxChildren, e);
    }
  }

  // ------------------------------------------------------------------ the way out

  /** A process number, a pipe and a timer that nobody has. */
  lemma {:induction false} Unused(c: seq<ChildInfo>) returns (n: int)
    ensures n > 0 && forall i :: 0 <= i < |c| ==> c[i].pid < n && c[i].pipe < n && c[i].timer < n
  {
    n := 1;
    if c != [] {
      var x := c[0];
      n := Unused(c[1..]);
      n := if n <= x.pid then x.pid + 1 else n;
      n := if n <= x.pipe then x.pipe + 1 else n;
      n := if n <= x.timer then x.timer + 1 else n;
    }
  }

  lemma SomeBorn(p: Pool, maxChildren: int) returns (born: Born)
    requires Inv(p, maxChildren)
    ensures Fresh(p, born)
  {
    var n := Unused(p.children);
    born := Born(n, n, n);
    assert n in p.timers ==> TimerHeld(p.children, n);
  }

  /** The last child lives, and its index is beyond the vector. */
  predicate Overhangs(s: Site) {
    && Shaped(s) && s.acts != []
    && var n := |s.acts| - 1;
       !s.acts[n].closed && s.pool.children[n].index > n
  }

  /** A request goes to the first free child and changes nothing else. */
  lemma FreeGetsRequest(s: Site, maxChildren: int, born: Born)
    requires Good(s, maxChildren) && Fresh(s.pool, born) && FirstFree(s.pool.children) < |s.acts|
    ensures var t := SiteStep(s, maxChildren, Requested(born)).value;
            && Good(t, maxChildren) && |t.acts| == |s.acts|
            && FirstFree(t.pool.children) > FirstFree(s.pool.children)
            && forall i :: 0 <= i < |s.acts| ==>
                 t.acts[i].closed == s.acts[i].closed && t.pool.children[i].index == s.pool.children[i].index
  {
    StepKeepsInv(s.pool, maxChildren, Requested(born));
    RequestKeepsSync(s, maxChildren, born);
    var c, k := s.pool.children, FirstFree(s.pool.children);
    var c' := SetStatus(c, k, BUSY);
    var k' := FirstFree(c');
    assert k' < |c'| ==> IsFree(c'[k']);
  }

  lemma WorkingOverhangLeaves(s: Site, maxChildren: int)
    requires Overhangs(s) && s.acts[|s.acts| - 1].work > 0
    ensures CanLeave(s, maxChildren)
  {
    var n := |s.acts| - 1;
    assert Works(s, n) && OnFinish(s.pool, s.pool.children[n].index).None?;
    LeavesAtOnce(s, maxChildren);
  }

  lemma IdleIsFree(s: Site, i: nat)
    requires InSync(s) && i < |s.acts| && s.acts[i] == IDLE
    ensures FirstFree(s.pool.children) <= i
  {
    assert Matches(s.pool.children[i], s.acts[i]);
  }

  lemma OverhangStays(s: Site, t: Site)
    requires Overhangs(s) && Shaped(t) && |t.acts| == |s.acts|
    requires forall i :: 0 <= i < |s.acts| ==>
               t.acts[i].closed == s.acts[i].closed && t.pool.children[i].index == s.pool.children[i].index
    ensures Overhangs(t)
  {
  }

  /** Free children in front get requests until the last one has one. */
  lemma {:induction false} OverhangLeaves(s: Site, maxChildren: int)
    requires Good(s, maxChildren) && Overhangs(s)
    ensures CanLeave(s, maxChildren)
    decreases |s.acts| - FirstFree(s.pool.children)
  {
    if s.acts[|s.acts| - 1].work > 0 {
      WorkingOverhangLeaves(s, maxChildren);
    } else {
      var born := SomeBorn(s.pool, maxChildren);
      IdleIsFree(s, |s.acts| - 1);
      FreeGetsRequest(s, maxChildren, born);
      OverhangStays(s, SiteStep(s, maxChildren, Requested(born)).value);
      OverhangLeaves(SiteStep(s, maxChildren, Requested(born)).value, maxChildren);
      DueBeforeLeaving(s, maxChildren, Requested(born));
    }
  }

  /** The last child is closed and temporary, and the pool may grow. */
  predicate DeadEnd(s: Site, maxChildren: int) {
    && Shaped(s) && PREFORKED_CHILDREN < |s.acts| < maxChildren
    && s.acts[|s.acts| - 1].closed
  }

  lemma DeadEndStays(s: Site, t: Site, maxChildren: int)
    requires DeadEnd(s, maxChildren) && Shaped(t) && |t.acts| == |s.acts|
    requires forall i :: 0 <= i < |s.acts| ==> t.acts[i].closed == s.acts[i].closed
    ensures DeadEnd(t, maxChildren)
  {
  }

  /** Requests fill the pool and let it grow; then the death of the child in front of the new one is due. */
  lemma {:induction false} DeadEndLeaves(s: Site, maxChildren: int)
    requires Good(s, maxChildren) && DeadEnd(s, maxChildren)
    ensures CanLeave(s, maxChildren)
    decreases |s.acts| - FirstFree(s.pool.children)
  {
    var born := SomeBorn(s.pool, maxChildren);
    var e := Requested(born);
    if FirstFree(s.pool.children) < |s.acts| {
      FreeGetsRequest(s, maxChildren, born);
      DeadEndStays(s, SiteStep(s, maxChildren, e).value, maxChildren);
      DeadEndLeaves(SiteStep(s, maxChildren, e).value, maxChildren);
    } else {
      GrowthLeaves(s, maxChildren, born);
    }
    DueBeforeLeaving(s, maxChildren, e);
  }

  lemma GrowthLeaves(s: Site, maxChildren: int, born: Born)
    requires Good(s, maxChildren) && DeadEnd(s, maxChildren) && Fresh(s.pool, born)
    requires FirstFree(s.pool.children) == |s.acts|
    ensures CanLeave(SiteStep(s, maxChildren, Requested(born)).value, maxChildren)
  {
    var n := |s.acts|;
    var t := SiteStep(s, maxChildren, Requested(born)).value;
    StepKeepsInv(s.pool, maxChildren, Requested(born));
    RequestKeepsSync(s, maxChildren, born);
    assert t.acts == s.acts + [Activity(1, false)] && t.pool.children[n].index == n;
    DueDeathLeaves(t, maxChildren, n - 1);
  }

  /** The report of the death of child `k`. */
  lemma DueDeath(s: Site, maxChildren: int, k: nat, born: Born)
    requires Good(s, maxChildren) && PREFORKED_CHILDREN <= k < |s.acts| && s.acts[k].closed && Fresh(s.pool, born)
    ensures var e := Died(s.pool.children[k].pid, born);
            && SiteLegal(s, e) && Due(s, e)
            && SiteStep(s, maxChildren, e) == Some(Site(Erase(s.pool, k), Without(s.acts, k)))
            && Good(SiteStep(s, maxChildren, e).value, maxChildren)
  {
    var e := Died(s.pool.children[k].pid, born);
    assert FirstWithPid(s.pool.children, s.pool.children[k].pid) == k;
    DeathKeepsSync(s, maxChildren, k, born);
    EraseKeepsInv(s.pool, maxChildren, k);
  }

  /** If the last child lives and stands at its index, a due death in front of it makes it overhang. */
  lemma DueDeathLeaves(s: Site, maxChildren: int, k: nat)
    requires Good(s, maxChildren) && PREFORKED_CHILDREN <= k < |s.acts| - 1 && s.acts[k].closed
    requires var n := |s.acts| - 1; !s.acts[n].closed && s.pool.children[n].index >= n
    ensures CanLeave(s, maxChildren)
  {
    var born := SomeBorn(s.pool, maxChildren);
    DueDeath(s, maxChildren, k, born);
    LastMovesUp(s, k);
    var e := Died(s.pool.children[k].pid, born);
    OverhangLeaves(SiteStep(s, maxChildren, e).value, maxChildren);
    DueBeforeLeaving(s, maxChildren, e);
  }

  /** If the last child is closed too, a due death in front of it leaves it at a dead end. */
  lemma DueDeathDeadEnd(s: Site, maxChildren: int, k: nat)
    requires Good(s, maxChildren) && PREFORKED_CHILDREN <= k < |s.acts| - 1 && s.acts[k].closed
    requires s.acts[|s.acts| - 1].closed
    ensures CanLeave(s, maxChildren)
  {
    var born := SomeBorn(s.pool, maxChildren);
    DueDeath(s, maxChildren, k, born);
    LastMovesUp(s, k);
    var e := Died(s.pool.children[k].pid, born);
    DeadEndLeaves(SiteStep(s, maxChildren, e).value, maxChildren);
    DueBeforeLeaving(s, maxChildren, e);
  }

  // ------------------------------------------------------------------ the condition

  /** A temporary child is closed, and it is not the last one, or it is and the pool may grow behind it. */
  ghost predicate DeadInside(s: Site, maxChildren: int) {
    Shaped(s) && exists k: nat :: DeadAt(s, maxChildren, k)
  }

  predicate DeadAt(s: Site, maxChildren: int, k: nat) {
    PREFORKED_CHILDREN <= k < |s.acts| && s.acts[k].closed && (k < |s.acts| - 1 || |s.acts| < maxChildren)
  }

  lemma DeadInsideLeaves(s: Site, maxChildren: int)
    requires Good(s, maxChildren) && Aligned(s.pool.children) && DeadInside(s, maxChildren)
    ensures CanLeave(s, maxChildren)
  {
    var k: nat :| DeadAt(s, maxChildren, k);
    var n := |s.acts| - 1;
    if k == n {
      DeadEndLeaves(s, maxChildren);
    } else if s.acts[n].closed {
      DueDeathDeadEnd(s, maxChildren, k);
    } else {
      DueDeathLeaves(s, maxChildren, k);
    }
  }

  lemma RemovalLeaves(s: Site, maxChildren: int, e: Event)
    requires Good(s, maxChildren) && Aligned(s.pool.children) && SiteLegal(s, e) && RemovesInner(s.pool, e)
    ensures var t := SiteStep(s, maxChildren, e); t.Some? && CanLeave(t.value, maxChildren)
  {
    StepKeepsGood(s, maxChildren, e);
    var k := RemovedAt(s, maxChildren, e);
    RemovedLeaves(s, SiteStep(s, maxChildren, e).value, maxChildren, k);
  }

  /** The former last child overhangs, or it is closed, at a dead end. */
  lemma RemovedLeaves(s: Site, t: Site, maxChildren: int, k: nat)
    requires Shaped(s) && Inner(s.pool, k) && Aligned(s.pool.children) && |s.acts| <= maxChildren
    requires t == Site(Erase(s.pool, k), Without(s.acts, k)) && Good(t, maxChildren)
    ensures CanLeave(t, maxChildren)
  {
    LastMovesUp(s, k);
    if s.acts[|s.acts| - 1].closed {
      DeadEndLeaves(t, maxChildren);
    } else {
      OverhangLeaves(t, maxChildren);
    }
  }

  lemma LastMovesUp(s: Site, k: nat)
    requires Shaped(s) && k < |s.acts| - 1
    ensures var t, n := Site(Erase(s.pool, k), Without(s.acts, k)), |s.acts| - 1;
            Shaped(t) && |t.acts| == n && t.acts[n - 1] == s.acts[n] && t.pool.children[n - 1] == s.pool.children[n]
  {
    ErasedChildren(s.pool, k);
  }

  lemma RemovedAt(s: Site, maxChildren: int, e: Event) returns (k: nat)
    requires Good(s, maxChildren) && SiteLegal(s, e) && RemovesInner(s.pool, e)
    ensures Inner(s.pool, k)
    ensures SiteStep(s, maxChildren, e) == Some(Site(Erase(s.pool, k), Without(s.acts, k)))
  {
    if e.TimedOut? {
      k := TimeOutRemovesOne(s.pool, maxChildren, e.timer);
      assert k == FirstWithTimer(s.pool.children, e.timer);
    } else {
      k := FirstWithPid(s.pool.children, e.pid);
      DeathKeepsSync(s, maxChildren, k, e.born);
    }
  }

  // ------------------------------------------------------------------ no way out otherwise

  ghost predicate Calm(s: Site, maxChildren: int) {
    Good(s, maxChildren) && Aligned(s.pool.children) && !DeadInside(s, maxChildren)
  }

  lemma CalmNow(s: Site, maxChildren: int)
    requires Calm(s, maxChildren)
    ensures !MissesNow(s)
  {
  }

  /** A due event does not end the calm: a closed temporary child is the last one of a full pool. */
  lemma DueKeepsCalm(s: Site, maxChildren: int, e: Event)
    requires Calm(s, maxChildren) && SiteLegal(s, e) && Due(s, e)
    ensures var t := SiteStep(s, maxChildren, e); t.Some? && Calm(t.value, maxChildren)
  {
    if e.Died? {
      var k := FirstWithPid(s.pool.children, e.pid);
      assert !DeadAt(s, maxChildren, k);
    }
    StepKeepsGood(s, maxChildren, e);
    var t := SiteStep(s, maxChildren, e).value;
    forall k: nat
      ensures !DeadAt(t, maxChildren, k)
    {
      assert !DeadAt(s, maxChildren, k);
      DueKeepsAlive(s, maxChildren, e, k);
    }
  }

  lemma DueKeepsAlive(s: Site, maxChildren: int, e: Event, k: nat)
    requires Calm(s, maxChildren) && SiteLegal(s, e) && Due(s, e)
    requires SiteStep(s, maxChildren, e).Some? && !DeadAt(s, maxChildren, k)
    ensures !DeadAt(SiteStep(s, maxChildren, e).value, maxChildren, k)
  {
    if e.Died? {
      var d := FirstWithPid(s.pool.children, e.pid);
      DeathKeepsSync(s, maxChildren, d, e.born);
      assert !DeadAt(s, maxChildren, d);
    }
  }

  lemma {:induction false} CalmCannotMiss(s: Site, maxChildren: int, events: seq<Event>, t: Site)
    requires Calm(s, maxChildren) && DueLeads(s, maxChildren, events, t)
    ensures !MissesNow(t)
    decreases |events|
  {
    if events == [] {
      CalmNow(s, maxChildren);
    } else {
      DueKeepsCalm(s, maxChildren, events[0]);
      CalmCannotMiss(SiteStep(s, maxChildren, events[0]).value, maxChildren, events[1..], t);
    }
  }

  // ------------------------------------------------------------------ runs

  function SiteRun(s: Site, maxChildren: int, events: seq<Event>): Option<Site>
    decreases |events|
  {
    if events == [] then Some(s)
    else if !Shaped(s) || |s.acts| < PREFORKED_CHILDREN then None
    else
      var t := SiteStep(s, maxChildren, events[0]);
      if t.None? then None else SiteRun(t.value, maxChildren, events[1..])
  }

  ghost predicate LegalSiteRun(s: Site, maxChildren: int, events: seq<Event>)
    decreases |events|
  {
    events != [] ==>
      && Shaped(s) && |s.acts| >= PREFORKED_CHILDREN
      && SiteLegal(s, events[0])
      && (SiteStep(s, maxChildren, events[0]).Some? ==>
            LegalSiteRun(SiteStep(s, maxChildren, events[0]).value, maxChildren, events[1..]))
  }

  /** After the first `n` events: a closed temporary child is inside the pool, or the next event removes a
      temporary child that is not the last one. */
  ghost predicate DisturbedAt(s: Site, maxChildren: int, events: seq<Event>, n: nat) {
    && n <= |events| && SiteRun(s, maxChildren, events[..n]).Some?
    && var t := SiteRun(s, maxChildren, events[..n]).value;
       DeadInside(t, maxChildren) || (n < |events| && RemovesInner(t.pool, events[n]))
  }

  ghost predicate CanLeaveAt(s: Site, maxChildren: int, events: seq<Event>, n: nat) {
    && n <= |events| && SiteRun(s, maxChildren, events[..n]).Some?
    && CanLeave(SiteRun(s, maxChildren, events[..n]).value, maxChildren)
  }

  ghost predicate CanMissAt(s: Site, maxChildren: int, events: seq<Event>, n: nat) {
    && n <= |events| && SiteRun(s, maxChildren, events[..n]).Some?
    && CanMiss(SiteRun(s, maxChildren, events[..n]).value, maxChildren)
  }

  lemma SiteRunAfterFirst(s: Site, maxChildren: int, events: seq<Event>, n: nat)
    requires Good(s, maxChildren) && 0 < n <= |events| && SiteStep(s, maxChildren, events[0]).Some?
    ensures SiteRun(s, maxChildren, events[..n])
         == SiteRun(SiteStep(s, maxChildren, events[0]).value, maxChildren, events[1..][..n - 1])
  {
    assert events[..n][1..] == events[1..][..n - 1];
  }

  /** An undisturbed run stays defined and calm. */
  lemma {:induction false} UndisturbedIsCalm(s: Site, maxChildren: int, events: seq<Event>, n: nat)
    requires Good(s, maxChildren) && Aligned(s.pool.children) && LegalSiteRun(s, maxChildren, events)
    requires n <= |events| && forall k: nat :: !DisturbedAt(s, maxChildren, events, k)
    ensures var t := SiteRun(s, maxChildren, events[..n]); t.Some? && Calm(t.value, maxChildren)
    decreases n
  {
    assert events[..0] == [];
    assert !DisturbedAt(s, maxChildren, events, 0);
    if n > 0 {
      StepKeepsGood(s, maxChildren, events[0]);
      var t := SiteStep(s, maxChildren, events[0]).value;
      forall k: nat
        ensures !DisturbedAt(t, maxChildren, events[1..], k)
      {
        if k <= |events[1..]| {
          SiteRunAfterFirst(s, maxChildren, events, k + 1);
          assert !DisturbedAt(s, maxChildren, events, k + 1);
        }
      }
      UndisturbedIsCalm(t, maxChildren, events[1..], n - 1);
      SiteRunAfterFirst(s, maxChildren, events, n);
    }
  }

  /** The first disturbance opens the way out. */
  lemma {:induction false} DisturbanceOpensWay(s: Site, maxChildren: int, events: seq<Event>, k: nat) returns (n: nat)
    requires Good(s, maxChildren) && Aligned(s.pool.children) && LegalSiteRun(s, maxChildren, events)
    requires DisturbedAt(s, maxChildren, events, k)
    ensures CanLeaveAt(s, maxChildren, events, n)
    decreases k
  {
    assert events[..0] == [];
    if DeadInside(s, maxChildren) {
      n := 0;
      DeadInsideLeaves(s, maxChildren);
    } else if events != [] && RemovesInner(s.pool, events[0]) {
      n := 1;
      RemovalLeaves(s, maxChildren, events[0]);
      SiteRunAfterFirst(s, maxChildren, events, 1);
      assert events[1..][..0] == [];
    } else {
      StepKeepsGood(s, maxChildren, events[0]);
      SiteRunAfterFirst(s, maxChildren, events, k);
      n := DisturbanceOpensWay(SiteStep(s, maxChildren, events[0]).value, maxChildren, events[1..], k - 1);
      n := n + 1;
      SiteRunAfterFirst(s, maxChildren, events, n);
    }
  }

  /** After the start nobody works. */
  lemma StartIsGood(p: Pool, maxChildren: int)
    requires Inv(p, maxChildren) && forall i :: 0 <= i < |p.children| ==> IsFree(p.children[i])
    ensures Good(Site(p, seq(|p.children|, _ => IDLE)), maxChildren)
    ensures |p.children| == PREFORKED_CHILDREN ==> Aligned(p.children)
  {
  }

  /** When the server stays inside its vector, for every legal run from an aligned pool, such as that of a
      fresh start.  At some point of the run, requests and deaths that are due can lead to a child that has
      work and whose finish message leads the server out of its vector, exactly when the run is disturbed at
      some point: a temporary child that is not the last one is removed, or is closed, or the last one is
      closed while the pool may still grow.  A run without that ends, and ends aligned. */
  lemma StaysInVectorIff(s: Site, maxChildren: int, events: seq<Event>)
    requires Good(s, maxChildren) && Aligned(s.pool.children) && LegalSiteRun(s, maxChildren, events)
    ensures (exists n: nat :: CanLeaveAt(s, maxChildren, events, n))
       <==> (exists n: nat :: DisturbedAt(s, maxChildren, events, n))
    ensures (forall n: nat :: !DisturbedAt(s, maxChildren, events, n)) ==>
              var t := SiteRun(s, maxChildren, events); t.Some? && Aligned(t.value.pool.children)
  {
    if k: nat :| DisturbedAt(s, maxChildren, events, k) {
      var n := DisturbanceOpensWay(s, maxChildren, events, k);
    } else {
      forall n: nat
        ensures !CanLeaveAt(s, maxChildren, events, n)
      {
        NoMissAt(s, maxChildren, events, n);
        if CanLeaveAt(s, maxChildren, events, n) {
          LeavingMisses(SiteRun(s, maxChildren, events[..n]).value, maxChildren);
        }
      }
      UndisturbedIsCalm(s, maxChildren, events, |events|);
      assert events[..|events|] == events;
    }
  }

  lemma NoMissAt(s: Site, maxChildren: int, events: seq<Event>, n: nat)
    requires Good(s, maxChildren) && Aligned(s.pool.children) && LegalSiteRun(s, maxChildren, events)
    requires forall k: nat :: !DisturbedAt(s, maxChildren, events, k)
    ensures !CanMissAt(s, maxChildren, events, n)
  {
    if n <= |events| {
      UndisturbedIsCalm(s, maxChildren, events, n);
      var u := SiteRun(s, maxChildren, events[..n]).value;
      forall due, t | DueLeads(u, maxChildren, due, t)
        ensures !MissesNow(t)
      {
        CalmCannotMiss(u, maxChildren, due, t);
      }
    }
  }

  /** The same condition decides whether finish messages free the children that send them. */
  lemma SendersAreHitIff(s: Site, maxChildren: int, events: seq<Event>)
    requires Good(s, maxChildren) && Aligned(s.pool.children) && LegalSiteRun(s, maxChildren, events)
    ensures (exists n: nat :: CanMissAt(s, maxChildren, events, n))
       <==> (exists n: nat :: DisturbedAt(s, maxChildren, events, n))
  {
    if k: nat :| DisturbedAt(s, maxChildren, events, k) {
      var n := DisturbanceOpensWay(s, maxChildren, events, k);
      LeavingMisses(SiteRun(s, maxChildren, events[..n]).value, maxChildren);
      assert CanMissAt(s, maxChildren, events, n);
    } else {
      forall n: nat
        ensures !CanMissAt(s, maxChildren, events, n)
      {
        NoMissAt(s, maxChildren, events, n);
      }
    }
  }
}
