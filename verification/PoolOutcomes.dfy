/** What each event of a real server does to its children, child by child. */
module PoolOutcomes {
  import opened Options
  import opened ChildPool

  /** Child `k` is the first free one. */
  predicate FirstFreeAt(c: seq<ChildInfo>, k: nat) {
    k < |c| && c[k].status == FREE && forall i :: 0 <= i < k ==> c[i].status != FREE
  }

  predicate NoneFree(c: seq<ChildInfo>) {
    forall i :: 0 <= i < |c| ==> c[i].status != FREE
  }

  /** The two lists agree but for the status of child `k`. */
  ghost predicate OnlyStatusAt(c: seq<ChildInfo>, d: seq<ChildInfo>, k: nat, s: ChildStatus) {
    && |c| == |d| && k < |c| && d[k] == ChildInfo(c[k].pid, s, c[k].index, c[k].pipe, c[k].timer)
    && forall i :: 0 <= i < |c| && i != k ==> d[i] == c[i]
  }

  /** The first free child, and no other, gets a request. */
  lemma RequestGoesToFirstFree(p: Pool, maxChildren: int, born: Born, k: nat)
    requires FirstFreeAt(p.children, k)
    ensures var q := OnRequest(p, maxChildren, born);
            q.exist == p.exist && q.timers == p.timers && OnlyStatusAt(p.children, q.children, k, BUSY)
  {
    FirstFreeIs(p.children, k);
  }

  lemma NobodyFree(c: seq<ChildInfo>)
    requires NoneFree(c)
    ensures FirstFree(c) == |c|
  {
    if FirstFree(c) < |c| {
      assert false;
    }
  }

  /** If none is free and the pool may grow, a new child at the end gets it, under the next index and with its
      timer; if the pool is full, nothing changes. */
  lemma RequestNeedsNewChild(p: Pool, maxChildren: int, born: Born)
    requires NoneFree(p.children)
    ensures OnRequest(p, maxChildren, born) ==
              if p.exist < maxChildren then
                Pool(p.children + [ChildInfo(born.pid, BUSY, p.exist, born.pipe, born.timer)], p.exist + 1,
                     p.timers + {born.timer})
              else p
  {
    NobodyFree(p.children);
  }

  /** Whoever is at the end of the pipe gets no more work; nobody else changes. */
  lemma EofEndsWork(p: Pool, pipe: int)
    ensures var q := OnEof(p, pipe);
            && q.exist == p.exist && q.timers == p.timers && |q.children| == |p.children|
            && forall i :: 0 <= i < |p.children| ==>
                 var x := p.children[i];
                 q.children[i] == if x.pipe == pipe then ChildInfo(x.pid, BUSY, x.index, x.pipe, x.timer) else x
  {
  }

  /** A finish message makes the child at the index that it carries free, if there is one. */
  lemma FinishFreesTheIndex(p: Pool, index: nat)
    ensures OnFinish(p, index).Some? <==> index < |p.children|
    ensures index < |p.children| ==>
              var q := OnFinish(p, index).value;
              q.exist == p.exist && q.timers == p.timers && OnlyStatusAt(p.children, q.children, index, FREE)
  {
  }

  ghost predicate Without(p: Pool, q: Pool, k: nat) {
    && k < |p.children| && |q.children| == |p.children| - 1 && q.exist == p.exist - 1
    && (forall i :: 0 <= i < k ==> q.children[i] == p.children[i])
    && (forall i :: k <= i < |q.children| ==> q.children[i] == p.children[i + 1])
    && (forall t :: t in q.timers <==> t in p.timers && t != p.children[k].timer)
  }

  /** The alarm of a timer removes the first temporary child that has it; an unknown timer removes nobody. */
  lemma TimeOutRemovesTheFirst(p: Pool, t: int)
    requires PREFORKED_CHILDREN <= |p.children|
    ensures (forall i :: PREFORKED_CHILDREN <= i < |p.children| ==> p.children[i].timer != t) ==> OnTimeOut(p, t) == p
    ensures forall k :: PREFORKED_CHILDREN <= k < |p.children| && p.children[k].timer == t
                        && (forall i :: PREFORKED_CHILDREN <= i < k ==> p.children[i].timer != t) ==>
                        Without(p, OnTimeOut(p, t), k)
  {
    var f := FirstWithTimer(p.children, t);
    if f < |p.children| {
      ErasedChildren(p, f);
    }
  }

  /** A dead child: unknown, replaced in its place with a free one, or removed. */
  lemma DeathOutcome(p: Pool, maxChildren: int, pid: int, born: Born)
    requires Inv(p, maxChildren) && Fresh(p, born)
    ensures (forall i :: 0 <= i < |p.children| ==> p.children[i].pid != pid) ==> OnChildDeath(p, pid, born) == Some(p)
    ensures forall k :: 0 <= k < |p.children| && p.children[k].pid == pid ==> ReplacedOrRemoved(p, pid, born, k)
  {
    var f := FirstWithPid(p.children, pid);
    assert f < |p.children| ==> p.children[f].pid == pid;
    forall k | 0 <= k < |p.children| && p.children[k].pid == pid
      ensures ReplacedOrRemoved(p, pid, born, k)
    {
      DeathHitsTheChild(p, maxChildren, k, born);
      ErasedChildren(p, k);
    }
  }

  ghost predicate ReplacedOrRemoved(p: Pool, pid: int, born: Born, k: int) {
    && 0 <= k < |p.children| && OnChildDeath(p, pid, born).Some?
    && var q := OnChildDeath(p, pid, born).value;
       if k < 5 then
         && q.exist == p.exist && q.timers == p.timers && |q.children| == |p.children|
         && q.children[k] == ChildInfo(born.pid, FREE, k, born.pipe, 0)
         && forall i :: 0 <= i < |p.children| && i != k ==> q.children[i] == p.children[i]
       else Without(p, q, k)
  }

  /** What a growth that fails leaves: nothing if there is no new process, and otherwise a child that the
      counter does not count, free and at the end. */
  lemma FailedGrowthLeaves(p: Pool, calls: Calls)
    ensures var q := OnFailedGrowth(p, calls);
            if calls.pair.None? || calls.fork.None? then q == p
            else
              var timer := if calls.timer.Some? && calls.armed then calls.timer.value else 0;
              && q.children == p.children + [ChildInfo(calls.fork.value, FREE, p.exist, calls.pair.value, timer)]
              && q.timers == (if calls.timer.Some? && calls.armed then p.timers + {timer} else p.timers)
              && q.exist == p.exist
  {
  }

  /** So the counter goes wrong exactly if a process was forked. */
  lemma CounterStaysIff(p: Pool, calls: Calls)
    requires p.exist == |p.children|
    ensures OnFailedGrowth(p, calls).exist == |OnFailedGrowth(p, calls).children| <==>
              calls.pair.None? || calls.fork.None?
  {
    FailedGrowthLeaves(p, calls);
  }

  /** What a replacement that fails leaves: the number of the dead process, free to get work. */
  lemma FailedUpdateLeaves(c: ChildInfo, calls: Calls)
    ensures OnFailedUpdate(c, calls) ==
              ChildInfo(c.pid, FREE, c.index, if calls.pair.Some? then calls.pair.value else c.pipe, 0)
  {
  }

  // ------------------------------------------------------------------ counting

  ghost function FreeOnes(c: seq<ChildInfo>): set<int> {
    set i | 0 <= i < |c| && c[i].status == FREE
  }

  /** The loop counts the positions of the free children. */
  lemma {:induction false} CountsFree(c: seq<ChildInfo>)
    ensures CountFree(c) == |FreeOnes(c)|
  {
    if c != [] {
      var n := |c| - 1;
      CountsFree(c[..n]);
      if c[n].status == FREE {
        assert FreeOnes(c) == FreeOnes(c[..n]) + {n};
      } else {
        assert FreeOnes(c) == FreeOnes(c[..n]);
      }
    }
  }
}
