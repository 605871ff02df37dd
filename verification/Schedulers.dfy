/** The six scheduling algorithms of the balancer.

    A scheduling map is the copy of the server pool that the balancer hands to its scheduler.  It is
    modelled in its iteration order, which stays fixed while the set of keys does not change. */
module Schedulers {
  import opened Options

  datatype RealServer = RealServer(address: string, portNum: string, maxLoad: int, curLoad: int)

  /** One node of the scheduling map: the descriptor of a server and what is known of that server. */
  datatype Slot = Slot(fd: int, server: RealServer)

  type SchedMap = seq<Slot>

  const RESERVED_CAPACITY := 1
  const HASH_TAB_SIZE := 4096

  /** The server may take one more request and still keep its reserve. */
  predicate HasSpare(s: Slot) {
    s.server.curLoad < s.server.maxLoad - RESERVED_CAPACITY
  }

  ghost predicate NoneSpare(m: SchedMap) {
    forall i :: 0 <= i < |m| ==> !HasSpare(m[i])
  }

  /** What a selectServer() answers for a chosen position: its descriptor, or -1. */
  function FdOf(m: SchedMap, choice: Option<nat>): int
    requires choice.Some? ==> choice.value < |m|
  {
    if choice.Some? then m[choice.value].fd else -1
  }

  // ------------------------------------------------------------------ probing (RR, DH, SH)

  /** The position `d` steps after `p` on a ring of `n`. */
  function Turn(p: nat, d: nat, n: nat): (r: nat)
    requires p < n && d <= n
    ensures r < n
  {
    if p + d < n then p + d else p + d - n
  }

  /** The number of steps from `p` forward to `s` on a ring of `n`. */
  function Distance(p: nat, s: nat, n: nat): (d: nat)
    requires p < n && s < n
    ensures d < n && Turn(p, d, n) == s
    ensures forall e :: 0 <= e < n && Turn(p, e, n) == s ==> e == d
  {
    if p <= s then s - p else s + n - p
  }

  /** How many slots a cyclic probe from `p` passes, `d` of them passed already, before it meets a
      server with spare capacity. */
  function Passed(m: SchedMap, p: nat, d: nat): (r: Option<nat>)
    requires p < |m| && d <= |m|
    ensures r.Some? ==> d <= r.value < |m| && HasSpare(m[Turn(p, r.value, |m|)])
    ensures forall k :: d <= k < |m| && (r.Some? ==> k < r.value) ==> !HasSpare(m[Turn(p, k, |m|)])
    decreases |m| - d
  {
    if d == |m| then None
    else if HasSpare(m[Turn(p, d, |m|)]) then Some(d)
    else Passed(m, p, d + 1)
  }

  /** The position a cyclic probe from `p` selects. */
  function Probe(m: SchedMap, p: nat): (r: Option<nat>)
    requires p < |m|
    ensures r.Some? ==> r.value < |m|
  {
    var d := Passed(m, p, 0);
    if d.Some? then Some(Turn(p, d.value, |m|)) else None
  }

  /** The probe selects the first server with spare capacity in cyclic order, and finds none exactly
      when no server in the whole map has any. */
  lemma ProbeIsFirstSpare(m: SchedMap, p: nat)
    requires p < |m|
    ensures Probe(m, p).None? <==> NoneSpare(m)
    ensures forall s :: 0 <= s < |m| && HasSpare(m[s]) ==>
              && Probe(m, p).Some?
              && HasSpare(m[Probe(m, p).value])
              && Distance(p, Probe(m, p).value, |m|) <= Distance(p, s, |m|)
  {
    forall s | 0 <= s < |m| && HasSpare(m[s])
      ensures Probe(m, p).Some? && Distance(p, Probe(m, p).value, |m|) <= Distance(p, s, |m|)
    {
      assert HasSpare(m[Turn(p, Distance(p, s, |m|), |m|)]);
    }
  }

  /** Filling up a server that the probe did not select leaves the selection as it is. */
  lemma ProbeIgnoresUnselected(m: SchedMap, p: nat, k: nat, full: Slot)
    requires p < |m| && k < |m| && !HasSpare(full)
    requires Probe(m, p) != Some(k)
    ensures Probe(m[k := full], p) == Probe(m, p)
  {
    var m' := m[k := full];
    var d, d' := Passed(m, p, 0), Passed(m', p, 0);
    if d'.Some? {
      assert HasSpare(m[Turn(p, d'.value, |m|)]);
    }
    if d.Some? {
      assert HasSpare(m'[Turn(p, d.value, |m'|)]);
    }
  }

  lemma MulMonotone(k: int, x: int, y: int)
    requires 0 <= k && x <= y
    ensures k * x <= k * y
  {
  }

  lemma MulCancel(k: int, x: int, y: int)
    requires 0 < k && k * x <= k * y
    ensures x <= y
  {
    if x > y {
      assert k * (y + 1) == k * y + k;
      MulMonotone(k, y + 1, x);
      assert false;
    }
  }

  lemma MultipleNearZero(k: int, n: int)
    requires 0 < n && -n < k * n < n
    ensures k == 0
  {
    if k > 0 {
      MulMonotone(n, 1, k);
      assert false;
    } else if k < 0 {
      MulMonotone(n, k, -1);
      assert false;
    }
  }

  lemma ModUnique(x: nat, q: int, r: nat, n: nat)
    requires r < n && x == q * n + r
    ensures x % n == r
  {
    var k, y := x / n, x % n;
    assert x == k * n + y;
    assert (q - k) * n == y - r;
    MultipleNearZero(q - k, n);
  }

  /** The slot under a counter that has moved on by `d`. */
  lemma CounterTurns(count: nat, d: nat, n: nat)
    requires 0 < n && d <= n
    ensures (count + d) % n == Turn(count % n, d, n)
  {
    var q, p := count / n, count % n;
    assert count == q * n + p;
    if p + d < n {
      ModUnique(count + d, q, p + d, n);
    } else {
      assert (q + 1) * n == q * n + n;
      ModUnique(count + d, q + 1, p + d - n, n);
    }
  }

  /** The value of RR's counter after a call: one past the selected slot, or a full turn. */
  function NextCount(m: SchedMap, count: nat): nat
    requires m != []
  {
    var d := Passed(m, count % |m|, 0);
    if d.Some? then count + d.value + 1 else count + |m|
  }

  /** Round Robin.  The counter is a function-local static of the original: it outlives a call. */
  class SchedRR {
    var schedMap: SchedMap
    var count: nat

    constructor ()
      ensures schedMap == [] && count == 1
    {
      schedMap, count := [], 1;
    }

    method SetSchedMap(m: SchedMap)
      modifies this`schedMap
      ensures schedMap == m
    {
      schedMap := m;
    }

    method SelectServer() returns (fd: int)
      requires schedMap != []
      modifies this`count
      ensures fd == FdOf(schedMap, Probe(schedMap, old(count) % |schedMap|))
      ensures count == NextCount(schedMap, old(count))
    {
      ghost var first := count;
      var n := |schedMap|;
      var it := count % n;
      var backup := it;
      count := count + 1;
      while !HasSpare(schedMap[it])
        invariant first < count <= first + n
        invariant it == Turn(backup, count - first - 1, n)
        invariant Passed(schedMap, backup, 0) == Passed(schedMap, backup, count - first - 1)
        decreases first + n - count
      {
        CounterTurns(first, count - first, n);
        it := count % n;
        if it == backup {
          return -1;
        }
        count := count + 1;
      }
      return schedMap[it].fd;
    }
  }

  /** After a call the counter stands one past the selected slot; after a call that found nobody it has gone
      around once, so that the next call starts where this one did. */
  lemma RrCounter(m: SchedMap, count: nat)
    requires m != []
    ensures count < NextCount(m, count) <= count + |m|
    ensures Probe(m, count % |m|).Some? ==> (NextCount(m, count) - 1) % |m| == Probe(m, count % |m|).value
    ensures Probe(m, count % |m|).None? ==>
              NextCount(m, count) == count + |m| && NextCount(m, count) % |m| == count % |m|
  {
    var d := Passed(m, count % |m|, 0);
    CounterTurns(count, if d.Some? then d.value else |m|, |m|);
  }

  /** The positions selected by successive calls of Round Robin, one call for each map: the loads may
      have changed arbitrarily between the calls. */
  function RrRun(maps: seq<SchedMap>, count: nat): (r: seq<Option<nat>>)
    requires forall k :: 0 <= k < |maps| ==> maps[k] != []
    ensures |r| == |maps|
  {
    if maps == [] then []
    else [Probe(maps[0], count % |maps[0]|)] + RrRun(maps[1..], NextCount(maps[0], count))
  }

  ghost predicate AlwaysSpare(maps: seq<SchedMap>, n: nat, s: nat) {
    s < n && forall k :: 0 <= k < |maps| ==> |maps[k]| == n && HasSpare(maps[k][s])
  }

  /** Bounded bypass: a server that has spare capacity whenever the scheduler is asked is selected
      after at most as many calls as it is slots away from the counter, hence within n calls. */
  lemma {:induction false} RrBoundedBypass(maps: seq<SchedMap>, count: nat, n: nat, s: nat)
    requires AlwaysSpare(maps, n, s)
    requires |maps| > Distance(count % n, s, n)
    ensures exists k :: 0 <= k <= Distance(count % n, s, n) && RrRun(maps, count)[k] == Some(s)
    decreases |maps|
  {
    var m, p := maps[0], count % n;
    var dist, d := Distance(p, s, n), Passed(m, p, 0);
    assert HasSpare(m[Turn(p, dist, n)]);
    if d.value == dist {
      assert RrRun(maps, count)[0] == Some(s);
    } else {
      var count' := NextCount(m, count);
      CounterTurns(count, d.value + 1, n);
      assert Turn(count' % n, dist - d.value - 1, n) == s;
      RrBoundedBypass(maps[1..], count', n, s);
      var k :| 0 <= k <= dist - d.value - 1 && RrRun(maps[1..], count')[k] == Some(s);
      assert RrRun(maps, count)[k + 1] == Some(s);
    }
  }

  ghost predicate AllSpare(maps: seq<SchedMap>, n: nat) {
    forall k :: 0 <= k < |maps| ==> |maps[k]| == n && forall s :: 0 <= s < n ==> HasSpare(maps[k][s])
  }

  lemma RrFirstCall(maps: seq<SchedMap>, count: nat, n: nat)
    requires 0 < n && AllSpare(maps, n) && maps != []
    ensures RrRun(maps, count) == [Some(count % n)] + RrRun(maps[1..], count + 1)
  {
    assert Passed(maps[0], count % n, 0) == Some(0);
  }

  lemma TurnOnce(p: nat, k: nat, n: nat)
    requires p < n && 0 < k < n
    ensures Turn(Turn(p, 1, n), k - 1, n) == Turn(p, k, n)
  {
  }

  lemma {:induction false} RrAllSpare(maps: seq<SchedMap>, count: nat, n: nat, k: nat)
    requires 0 < n && AllSpare(maps, n)
    requires k < |maps| && k < n
    ensures RrRun(maps, count)[k] == Some(Turn(count % n, k, n))
  {
    RrFirstCall(maps, count, n);
    if k > 0 {
      RrAllSpare(maps[1..], count + 1, n, k - 1);
      CounterTurns(count, 1, n);
      TurnOnce(count % n, k, n);
    }
  }

  /** With spare capacity everywhere, n consecutive calls select every server exactly once. */
  lemma RrFair(maps: seq<SchedMap>, count: nat, n: nat, s: nat)
    requires s < n == |maps| && AllSpare(maps, n)
    ensures forall k :: 0 <= k < n ==> (RrRun(maps, count)[k] == Some(s) <==> k == Distance(count % n, s, n))
  {
    forall k | 0 <= k < n
      ensures RrRun(maps, count)[k] == Some(s) <==> k == Distance(count % n, s, n)
    {
      RrAllSpare(maps, count, n, k);
    }
  }

  // ------------------------------------------------------------------ hashing (DH, SH)

  /** The number of values of the `unsigned long` in which the hash multiplies. */
  datatype Width = Bits32 | Bits64
  {
    function Size(): nat {
      if Bits32? then 0x1_0000_0000 else 0x1_0000_0000_0000_0000
    }
  }

  function HashKey(ip: nat, width: Width): nat {
    ip * 2654435761 % width.Size() % HASH_TAB_SIZE
  }

  lemma ModOfMod(x: nat, k: nat, n: nat)
    requires 0 < k && 0 < n
    ensures 0 < k * n && x % (k * n) % n == x % n
  {
    var q, r := x / (k * n), x % (k * n);
    assert x == q * (k * n) + r;
    assert q * (k * n) == (q * k) * n;
    assert r == r / n * n + r % n;
    assert (q * k) * n + r / n * n == (q * k + r / n) * n;
    ModUnique(x, q * k + r / n, r % n, n);
  }

  /** The hash only sees the low twelve bits of the address, whatever the width of the multiply. */
  lemma HashIsLowBits(ip: nat, width: Width)
    ensures HashKey(ip, width) == ip % HASH_TAB_SIZE * 2481 % HASH_TAB_SIZE
  {
    if width.Bits32? {
      ModOfMod(ip * 2654435761, 0x10_0000, 4096);
    } else {
      ModOfMod(ip * 2654435761, 0x10_0000_0000_0000, 4096);
    }
    var q, r := ip / 4096, ip % 4096;
    var t, u := r * 2481 / 4096, r * 2481 % 4096;
    ModUnique(ip * 2654435761, q * 2654435761 + r * 648055 + t, u, 4096);
  }

  /** Two addresses collide exactly when they agree modulo the size of the table. */
  lemma HashCollisions(a: nat, b: nat, width: Width)
    ensures HashKey(a, width) < HASH_TAB_SIZE
    ensures HashKey(a, width) == HashKey(b, width) <==> a % HASH_TAB_SIZE == b % HASH_TAB_SIZE
  {
    HashIsLowBits(a, width);
    HashIsLowBits(b, width);
    UndoHash(a % HASH_TAB_SIZE);
    UndoHash(b % HASH_TAB_SIZE);
  }

  /** The multiplier is odd, so it permutes the residues: 3921 undoes it. */
  lemma UndoHash(r: nat)
    requires r < HASH_TAB_SIZE
    ensures r * 2481 % HASH_TAB_SIZE * 3921 % HASH_TAB_SIZE == r
  {
    var t, u := r * 2481 / 4096, r * 2481 % 4096;
    ModUnique(u * 3921, r * 2375 - t * 3921, r, 4096);
  }

  /** Destination Hashing and Source Hashing run the same code on a different address.  `handleIp` is
      the address in network order, or None where inet_pton() refuses the text. */
  class SchedHash {
    var schedMap: SchedMap
    var handleIp: Option<nat>
    const width: Width

    constructor (width: Width)
      ensures schedMap == [] && handleIp == None && this.width == width
    {
      this.width := width;
      schedMap, handleIp := [], None;
    }

    method SetSchedMap(m: SchedMap)
      modifies this`schedMap
      ensures schedMap == m
    {
      schedMap := m;
    }

    method SetHandleIP(ip: Option<nat>)
      modifies this`handleIp
      ensures handleIp == ip
    {
      handleIp := ip;
    }

    method SelectServer() returns (fd: int)
      requires schedMap != []
      ensures handleIp.None? ==> fd == 0
      ensures handleIp.Some? ==>
                fd == FdOf(schedMap, Probe(schedMap, HashKey(handleIp.value, width) % |schedMap|))
    {
      if handleIp.None? {
        return 0;
      }
      var n := |schedMap|;
      var it := HashKey(handleIp.value, width) % n;
      var backup := it;
      ghost var d := 0;
      while !HasSpare(schedMap[it])
        invariant 0 <= d < n && it == Turn(backup, d, n)
        invariant Passed(schedMap, backup, 0) == Passed(schedMap, backup, d)
        decreases n - d
      {
        it := it + 1;
        if it == n {
          it := 0;
        }
        d := d + 1;
        if it == backup {
          return -1;
        }
      }
      return schedMap[it].fd;
    }
  }

  // ------------------------------------------------------------------ scanning (WRR, LC, WLC)

  predicate WrrBeats(a: Slot, b: Slot) {
    a.server.maxLoad - a.server.curLoad > b.server.maxLoad - b.server.curLoad
  }

  predicate LcBeats(a: Slot, b: Slot) {
    b.server.curLoad > a.server.curLoad
  }

  predicate WlcBeats(a: Slot, b: Slot) {
    a.server.maxLoad * b.server.curLoad > a.server.curLoad * b.server.maxLoad
  }

  function FirstSpare(m: SchedMap, i: nat): (f: nat)
    requires i <= |m|
    ensures i <= f <= |m|
    ensures f < |m| ==> HasSpare(m[f])
    ensures forall k :: i <= k < f ==> !HasSpare(m[k])
    decreases |m| - i
  {
    if i == |m| || HasSpare(m[i]) then i else FirstSpare(m, i + 1)
  }

  /** The champion of the positions from `j` on, challenging `it` one after another. */
  function Scan(m: SchedMap, beats: (Slot, Slot) -> bool, it: nat, j: nat): (r: nat)
    requires it < j <= |m|
    ensures it <= r < |m|
    decreases |m| - j
  {
    if j == |m| then it else Scan(m, beats, if beats(m[j], m[it]) then j else it, j + 1)
  }

  /** The common scheme: only the first candidate is asked for spare capacity, the others merely compete. */
  function Select(m: SchedMap, beats: (Slot, Slot) -> bool): (r: Option<nat>)
    ensures r.Some? ==> FirstSpare(m, 0) <= r.value < |m|
    ensures r.None? <==> NoneSpare(m)
  {
    var f := FirstSpare(m, 0);
    if f < |m| then Some(Scan(m, beats, f, f + 1)) else None
  }

  /** On the slots of the map, `beats` is a strict weak order. */
  ghost predicate Ranks(m: SchedMap, beats: (Slot, Slot) -> bool) {
    && (forall i, j :: 0 <= i < |m| && 0 <= j < |m| && beats(m[i], m[j]) ==> !beats(m[j], m[i]))
    && (forall i, j, k :: 0 <= i < |m| && 0 <= j < |m| && 0 <= k < |m| && beats(m[i], m[k]) ==>
          beats(m[i], m[j]) || beats(m[j], m[k]))
  }

  /** Of slot `it` and the slots from `j` on, slot `r` is the first that none of them beats. */
  ghost predicate Champion(m: SchedMap, beats: (Slot, Slot) -> bool, it: nat, j: nat, r: nat)
    requires it < j <= |m| && r < |m|
  {
    && !beats(m[it], m[r])
    && (r != it ==> r >= j && beats(m[r], m[it]))
    && (forall k :: j <= k < |m| ==> !beats(m[k], m[r]))
    && (forall k :: j <= k < r ==> beats(m[r], m[k]))
  }

  lemma {:induction false} ScanIsBest(m: SchedMap, beats: (Slot, Slot) -> bool, it: nat, j: nat)
    requires it < j <= |m| && Ranks(m, beats)
    ensures Champion(m, beats, it, j, Scan(m, beats, it, j))
    decreases |m| - j
  {
    if j < |m| {
      ScanIsBest(m, beats, if beats(m[j], m[it]) then j else it, j + 1);
    }
  }

  lemma ChampionIsBest(m: SchedMap, beats: (Slot, Slot) -> bool, f: nat, r: nat)
    requires f < |m| && r < |m| && Champion(m, beats, f, f + 1, r)
    ensures r != f ==> beats(m[r], m[f])
    ensures forall k :: f <= k < |m| ==> !beats(m[k], m[r])
    ensures forall k :: f <= k < r ==> beats(m[r], m[k])
  {
  }

  lemma SelectIsBest(m: SchedMap, beats: (Slot, Slot) -> bool)
    requires Ranks(m, beats) && Select(m, beats).Some?
    ensures var r := Select(m, beats).value;
            && (r != FirstSpare(m, 0) ==> beats(m[r], m[FirstSpare(m, 0)]))
            && (forall k :: FirstSpare(m, 0) <= k < |m| ==> !beats(m[k], m[r]))
            && (forall k :: FirstSpare(m, 0) <= k < r ==> beats(m[r], m[k]))
  {
    var f := FirstSpare(m, 0);
    ScanIsBest(m, beats, f, f + 1);
    ChampionIsBest(m, beats, f, Scan(m, beats, f, f + 1));
  }

  class SchedWRR {
    var schedMap: SchedMap

    constructor ()
      ensures schedMap == []
    {
      schedMap := [];
    }

    method SetSchedMap(m: SchedMap)
      modifies this
      ensures schedMap == m
    {
      schedMap := m;
    }

    method SelectServer() returns (fd: int)
      ensures fd == FdOf(schedMap, Select(schedMap, WrrBeats))
    {
      var n, it := |schedMap|, 0;
      while it < n
        invariant it <= n && FirstSpare(schedMap, 0) == FirstSpare(schedMap, it)
      {
        if !HasSpare(schedMap[it]) {
          it := it + 1;
          continue;
        }
        var it2 := it + 1;
        while it2 < n
          invariant it < it2 <= n
          invariant Select(schedMap, WrrBeats) == Some(Scan(schedMap, WrrBeats, it, it2))
        {
          if WrrBeats(schedMap[it2], schedMap[it]) {
            it := it2;
          }
          it2 := it2 + 1;
        }
        return schedMap[it].fd;
      }
      return -1;
    }
  }

  class SchedLC {
    var schedMap: SchedMap

    constructor ()
      ensures schedMap == []
    {
      schedMap := [];
    }

    method SetSchedMap(m: SchedMap)
      modifies this
      ensures schedMap == m
    {
      schedMap := m;
    }

    method SelectServer() returns (fd: int)
      requires schedMap != []
      ensures fd == FdOf(schedMap, Select(schedMap, LcBeats))
    {
      var n, it := |schedMap|, 0;
      while it < n
        invariant it <= n && FirstSpare(schedMap, 0) == FirstSpare(schedMap, it)
      {
        if !HasSpare(schedMap[it]) {
          it := it + 1;
          continue;
        }
        var it2 := it + 1;
        while it2 < n
          invariant it < it2 <= n
          invariant Select(schedMap, LcBeats) == Some(Scan(schedMap, LcBeats, it, it2))
        {
          if LcBeats(schedMap[it2], schedMap[it]) {
            it := it2;
          }
          it2 := it2 + 1;
        }
        return schedMap[it].fd;
      }
      return -1;
    }
  }

  class SchedWLC {
    var schedMap: SchedMap

    constructor ()
      ensures schedMap == []
    {
      schedMap := [];
    }

    method SetSchedMap(m: SchedMap)
      modifies this
      ensures schedMap == m
    {
      schedMap := m;
    }

    method SelectServer() returns (fd: int)
      requires schedMap != []
      ensures fd == FdOf(schedMap, Select(schedMap, WlcBeats))
    {
      var n, it := |schedMap|, 0;
      while it < n
        invariant it <= n && FirstSpare(schedMap, 0) == FirstSpare(schedMap, it)
      {
        if !HasSpare(schedMap[it]) {
          it := it + 1;
          continue;
        }
        var it2 := it + 1;
        while it2 < n
          invariant it < it2 <= n
          invariant Select(schedMap, WlcBeats) == Some(Scan(schedMap, WlcBeats, it, it2))
        {
          if WlcBeats(schedMap[it2], schedMap[it]) {
            it := it2;
          }
          it2 := it2 + 1;
        }
        return schedMap[it].fd;
      }
      return -1;
    }
  }

  /** Some slot has a load of at least two below its capacity. */
  ghost predicate SomeSpare(m: SchedMap) {
    exists k :: 0 <= k < |m| && m[k].server.curLoad < m[k].server.maxLoad - 1
  }

  /** The slot, or one in front of it, has: the scan from the first candidate comes to it. */
  ghost predicate InLine(m: SchedMap, j: int) {
    0 <= j < |m| && exists i :: 0 <= i <= j && m[i].server.curLoad < m[i].server.maxLoad - 1
  }

  lemma SelectFindsIff(m: SchedMap, beats: (Slot, Slot) -> bool)
    ensures Select(m, beats).Some? <==> SomeSpare(m)
  {
  }

  lemma InLineIff(m: SchedMap, j: int)
    ensures InLine(m, j) <==> FirstSpare(m, 0) <= j < |m|
  {
    var f := FirstSpare(m, 0);
    if f < |m| {
      assert m[f].server.curLoad < m[f].server.maxLoad - 1;
    }
  }

  /** WRR keeps the reserve of the server it selects, and no server of the whole map has more room:
      the servers skipped in front have less than two, the selected one has at least two.  Of equals it
      selects the first. */
  lemma WrrOptimal(m: SchedMap)
    requires SomeSpare(m)
    ensures Select(m, WrrBeats).Some?
    ensures var r := Select(m, WrrBeats).value;
            && m[r].server.curLoad < m[r].server.maxLoad - 1
            && (forall k :: 0 <= k < |m| ==>
                  m[k].server.maxLoad - m[k].server.curLoad <= m[r].server.maxLoad - m[r].server.curLoad)
            && (forall k :: 0 <= k < r && m[k].server.curLoad < m[k].server.maxLoad - 1 ==>
                  m[k].server.maxLoad - m[k].server.curLoad < m[r].server.maxLoad - m[r].server.curLoad)
  {
    SelectFindsIff(m, WrrBeats);
    SelectIsBest(m, WrrBeats);
    assert !WrrBeats(m[FirstSpare(m, 0)], m[Select(m, WrrBeats).value]);
  }

  /** From the first candidate on, no server has fewer connections than the one LC selects, the first of
      equals. */
  lemma LcOptimal(m: SchedMap)
    requires SomeSpare(m)
    ensures Select(m, LcBeats).Some?
    ensures var r := Select(m, LcBeats).value;
            && InLine(m, r)
            && (forall k :: InLine(m, k) ==> m[r].server.curLoad <= m[k].server.curLoad)
            && (forall k :: InLine(m, k) && k < r ==> m[r].server.curLoad < m[k].server.curLoad)
  {
    SelectFindsIff(m, LcBeats);
    SelectIsBest(m, LcBeats);
    forall k
      ensures InLine(m, k) <==> FirstSpare(m, 0) <= k < |m|
    {
      InLineIff(m, k);
    }
  }

  ghost predicate Sane(m: SchedMap) {
    forall i :: 0 <= i < |m| ==> 0 < m[i].server.maxLoad && 0 <= m[i].server.curLoad
  }

  /** Comparing cross products is comparing ratios: b/b' <= c/c' and a/a' <= b/b' give a/a' <= c/c'. */
  lemma RatioTransitive(a: int, a': int, b: int, b': int, c: int, c': int)
    requires 0 < a' && 0 < b' && 0 < c'
    requires c' * b <= c * b' && b' * a <= b * a'
    ensures c' * a <= c * a'
  {
    MulMonotone(c', b' * a, b * a');
    MulMonotone(a', c' * b, c * b');
    assert b' * (c' * a) == c' * (b' * a) && c' * (b * a') == a' * (c' * b) && a' * (c * b') == b' * (c * a');
    MulCancel(b', c' * a, c * a');
  }

  lemma WlcRanks(m: SchedMap)
    requires Sane(m)
    ensures Ranks(m, WlcBeats)
  {
    forall i, j, k | 0 <= i < |m| && 0 <= j < |m| && 0 <= k < |m| && WlcBeats(m[i], m[k])
      ensures WlcBeats(m[i], m[j]) || WlcBeats(m[j], m[k])
    {
      if !WlcBeats(m[i], m[j]) && !WlcBeats(m[j], m[k]) {
        RatioTransitive(m[k].server.curLoad, m[k].server.maxLoad, m[j].server.curLoad, m[j].server.maxLoad,
                        m[i].server.curLoad, m[i].server.maxLoad);
      }
    }
  }

  lemma BelowCapacity(cur: int, max: int, cur': int, max': int)
    requires 0 < max && 0 < max' && cur < max
    requires max' * cur >= cur' * max
    ensures cur' < max'
  {
    if cur' >= max' {
      MulMonotone(max, max', cur');
      MulMonotone(max', cur + 1, max);
      assert false;
    }
  }

  /** From the first candidate on, no server has a smaller ratio of load to capacity than the one WLC
      selects, the first of equals; and that one is strictly below its capacity, though it may be down to
      the reserve. */
  lemma WlcOptimal(m: SchedMap)
    requires Sane(m) && SomeSpare(m)
    ensures Select(m, WlcBeats).Some?
    ensures var r := Select(m, WlcBeats).value;
            && InLine(m, r) && m[r].server.curLoad < m[r].server.maxLoad
            && (forall k :: InLine(m, k) ==>
                  m[r].server.curLoad * m[k].server.maxLoad <= m[k].server.curLoad * m[r].server.maxLoad)
            && (forall k :: InLine(m, k) && k < r ==>
                  m[r].server.curLoad * m[k].server.maxLoad < m[k].server.curLoad * m[r].server.maxLoad)
  {
    SelectFindsIff(m, WlcBeats);
    WlcRanks(m);
    SelectIsBest(m, WlcBeats);
    WlcFields(m);
    var f, r := m[FirstSpare(m, 0)], m[Select(m, WlcBeats).value];
    if r != f {
      BelowCapacity(f.server.curLoad, f.server.maxLoad, r.server.curLoad, r.server.maxLoad);
    }
  }

  lemma WlcFields(m: SchedMap)
    requires Select(m, WlcBeats).Some?
    requires var r := Select(m, WlcBeats).value;
             && (forall k :: FirstSpare(m, 0) <= k < |m| ==> !WlcBeats(m[k], m[r]))
             && (forall k :: FirstSpare(m, 0) <= k < r ==> WlcBeats(m[r], m[k]))
    ensures var r := Select(m, WlcBeats).value;
            && InLine(m, r)
            && (forall k :: InLine(m, k) ==>
                  m[r].server.curLoad * m[k].server.maxLoad <= m[k].server.curLoad * m[r].server.maxLoad)
            && (forall k :: InLine(m, k) && k < r ==>
                  m[r].server.curLoad * m[k].server.maxLoad < m[k].server.curLoad * m[r].server.maxLoad)
  {
    var r := Select(m, WlcBeats).value;
    InLineIff(m, r);
    forall k | InLine(m, k)
      ensures m[r].server.curLoad * m[k].server.maxLoad <= m[k].server.curLoad * m[r].server.maxLoad
      ensures k < r ==> m[r].server.curLoad * m[k].server.maxLoad < m[k].server.curLoad * m[r].server.maxLoad
    {
      InLineIff(m, k);
      CrossProducts(m[r], m[k]);
    }
  }

  lemma CrossProducts(a: Slot, b: Slot)
    ensures WlcBeats(a, b) <==> a.server.curLoad * b.server.maxLoad < b.server.curLoad * a.server.maxLoad
    ensures !WlcBeats(b, a) <==> a.server.curLoad * b.server.maxLoad <= b.server.curLoad * a.server.maxLoad
  {
  }

  // ------------------------------------------------------------------ when LC and WLC keep the reserve

  ghost predicate HasCapacities(m: SchedMap, maxs: seq<int>) {
    |m| == |maxs| && Sane(m) && forall i :: 0 <= i < |m| ==> m[i].server.maxLoad == maxs[i]
  }

  /** Whatever the loads, the algorithm only selects servers that can keep their reserve. */
  ghost predicate KeepsReserve(maxs: seq<int>, beats: (Slot, Slot) -> bool) {
    forall m: SchedMap :: HasCapacities(m, maxs) && Select(m, beats).Some? ==> HasSpare(m[Select(m, beats).value])
  }

  ghost predicate Positive(maxs: seq<int>) {
    forall i :: 0 <= i < |maxs| ==> 0 < maxs[i]
  }

  /** Loads under which only servers `i` and `j` can be selected. */
  function TwoChoices(maxs: seq<int>, i: nat, atI: int, j: nat, atJ: int): (m: SchedMap)
    requires i < j < |maxs|
    ensures |m| == |maxs|
    ensures forall k :: 0 <= k < |m| ==> m[k].server.maxLoad == maxs[k]
    ensures forall k :: 0 <= k < |m| ==>
              m[k].server.curLoad == if k == i then atI else if k == j then atJ else maxs[k] * (1 + maxs[j])
  {
    seq(|maxs|, k requires 0 <= k < |maxs| => Slot(k + 1, RealServer("", "", maxs[k],
      if k == i then atI else if k == j then atJ else maxs[k] * (1 + maxs[j]))))
  }

  lemma TwoChoicesFirst(maxs: seq<int>, i: nat, atI: int, j: nat, atJ: int)
    requires Positive(maxs) && i < j < |maxs| && 0 <= atI < maxs[i] - RESERVED_CAPACITY && 0 <= atJ
    ensures var m := TwoChoices(maxs, i, atI, j, atJ);
            && HasCapacities(m, maxs)
            && FirstSpare(m, 0) == i
            && forall k :: 0 <= k < |m| && k != i && k != j ==> m[k].server.curLoad >= maxs[k] + maxs[j]
  {
    var m := TwoChoices(maxs, i, atI, j, atJ);
    forall k | 0 <= k < |m| && k != i && k != j
      ensures m[k].server.curLoad >= maxs[k] + maxs[j]
    {
      MulMonotone(maxs[j], 1, maxs[k]);
      assert maxs[k] * (1 + maxs[j]) == maxs[k] + maxs[j] * maxs[k];
    }
    assert HasSpare(m[i]);
  }

  /** Under these loads nobody but the two can be the best. */
  lemma LcOthersAreBeaten(maxs: seq<int>, i: nat, j: nat, r: nat)
    requires Positive(maxs) && i < j < |maxs| && maxs[i] >= maxs[j] + 2 && r < |maxs| && r != j
    ensures var m := TwoChoices(maxs, i, maxs[j], j, maxs[j] - 1); LcBeats(m[j], m[r])
  {
    if r != i {
      TwoChoicesFirst(maxs, i, maxs[j], j, maxs[j] - 1);
    }
  }

  lemma LcBreaksReserve(maxs: seq<int>, i: nat, j: nat)
    requires Positive(maxs) && i < j < |maxs| && maxs[i] >= maxs[j] + 2
    ensures !KeepsReserve(maxs, LcBeats)
  {
    var m := TwoChoices(maxs, i, maxs[j], j, maxs[j] - 1);
    TwoChoicesFirst(maxs, i, maxs[j], j, maxs[j] - 1);
    SelectIsBest(m, LcBeats);
    var r := Select(m, LcBeats).value;
    if r != j {
      LcOthersAreBeaten(maxs, i, j, r);
      assert false;
    }
    assert !HasSpare(m[j]);
  }

  /** LC respects the reserve exactly when no capacity is by two or more below one in front of it. */
  lemma LcKeepsReserveIff(maxs: seq<int>)
    requires Positive(maxs)
    ensures KeepsReserve(maxs, LcBeats) <==> forall i, j :: 0 <= i < j < |maxs| ==> maxs[i] < maxs[j] + 2
  {
    if KeepsReserve(maxs, LcBeats) {
      forall i, j | 0 <= i < j < |maxs|
        ensures maxs[i] < maxs[j] + 2
      {
        if maxs[i] >= maxs[j] + 2 {
          LcBreaksReserve(maxs, i, j);
        }
      }
    }
    if forall i, j :: 0 <= i < j < |maxs| ==> maxs[i] < maxs[j] + 2 {
      forall m: SchedMap | HasCapacities(m, maxs) && Select(m, LcBeats).Some?
        ensures HasSpare(m[Select(m, LcBeats).value])
      {
        SelectIsBest(m, LcBeats);
      }
    }
  }

  lemma RatioGap(cur: int, max: int, cur': int, max': int)
    requires 0 < max && 0 < max' && cur <= max - 2 && cur' >= max' - 1
    requires max' * cur > cur' * max
    ensures max > 2 * max'
  {
    assert max' * (max - 2) == max' * max - 2 * max';
    assert max * (max' - 1) == max' * max - max;
    MulMonotone(max', cur, max - 2);
    MulMonotone(max, max' - 1, cur');
  }

  /** WLC respects the reserve exactly when no capacity is less than half of one in front of it. */
  lemma WlcKeepsReserveIff(maxs: seq<int>)
    requires Positive(maxs)
    ensures KeepsReserve(maxs, WlcBeats) <==> forall i, j :: 0 <= i < j < |maxs| ==> maxs[i] <= 2 * maxs[j]
  {
    if KeepsReserve(maxs, WlcBeats) {
      forall i, j | 0 <= i < j < |maxs|
        ensures maxs[i] <= 2 * maxs[j]
      {
        if maxs[i] > 2 * maxs[j] {
          WlcBreaksReserve(maxs, i, j);
        }
      }
    }
    if forall i, j :: 0 <= i < j < |maxs| ==> maxs[i] <= 2 * maxs[j] {
      forall m: SchedMap | HasCapacities(m, maxs) && Select(m, WlcBeats).Some?
        ensures HasSpare(m[Select(m, WlcBeats).value])
      {
        WlcRanks(m);
        SelectIsBest(m, WlcBeats);
        var f, r := FirstSpare(m, 0), Select(m, WlcBeats).value;
        if r != f && !HasSpare(m[r]) {
          RatioGap(m[f].server.curLoad, maxs[f], m[r].server.curLoad, maxs[r]);
        }
      }
    }
  }

  lemma GapBeats(x: int, y: int)
    requires x > 2 * y
    ensures y * (x - 2) > (y - 1) * x
  {
    assert y * (x - 2) == y * x - 2 * y;
    assert (y - 1) * x == y * x - x;
  }

  lemma OverloadedIsBeaten(y: int, cur: int, max: int)
    requires 0 < y && 0 < max && cur >= max + y
    ensures y * cur > (y - 1) * max
  {
    MulMonotone(y, max, cur);
    assert (y - 1) * max == y * max - max;
  }

  /** Under these loads nobody but the two can be the best. */
  lemma OthersAreBeaten(maxs: seq<int>, i: nat, j: nat, r: nat)
    requires Positive(maxs) && i < j < |maxs| && maxs[i] > 2 * maxs[j] && r < |maxs| && r != j
    ensures var m := TwoChoices(maxs, i, maxs[i] - 2, j, maxs[j] - 1); WlcBeats(m[j], m[r])
  {
    if r == i {
      GapBeats(maxs[i], maxs[j]);
    } else {
      TwoChoicesFirst(maxs, i, maxs[i] - 2, j, maxs[j] - 1);
      OverloadedIsBeaten(maxs[j], maxs[r] * (1 + maxs[j]), maxs[r]);
    }
  }

  lemma WlcBreaksReserve(maxs: seq<int>, i: nat, j: nat)
    requires Positive(maxs) && i < j < |maxs| && maxs[i] > 2 * maxs[j]
    ensures !KeepsReserve(maxs, WlcBeats)
  {
    var m := TwoChoices(maxs, i, maxs[i] - 2, j, maxs[j] - 1);
    TwoChoicesFirst(maxs, i, maxs[i] - 2, j, maxs[j] - 1);
    WlcRanks(m);
    SelectIsBest(m, WlcBeats);
    var r := Select(m, WlcBeats).value;
    if r != j {
      OthersAreBeaten(maxs, i, j, r);
      assert false;
    }
    assert !HasSpare(m[j]);
  }
}
