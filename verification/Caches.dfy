/** The LRU and FIFO caches of the client manager: a list of keys and a hash table that must agree. */
module Caches {
  import opened Sums

  /** What a cache holds: its list of keys, front first, and its table. */
  datatype Content<K, E> = Content(keys: seq<K>, table: map<K, E>)

  ghost predicate NoDuplicates<K>(s: seq<K>) {
    forall i, j :: 0 <= i < j < |s| ==> s[i] != s[j]
  }

  /** The list has no duplicates and lists exactly the keys of the table. */
  ghost predicate Agrees<K, E>(c: Content<K, E>) {
    NoDuplicates(c.keys) && (forall k :: k in c.keys ==> k in c.table) && (forall k :: k in c.table ==> k in c.keys)
  }

  ghost predicate Within<K, E>(c: Content<K, E>, size: nat) {
    Agrees(c) && |c.keys| <= size
  }

  /** std::list::remove: every occurrence goes. */
  function Remove<K(==)>(s: seq<K>, k: K): (r: seq<K>)
    ensures k !in r && (forall x :: x in r ==> x in s) && (forall x :: x in s && x != k ==> x in r)
    ensures k !in s ==> r == s
  {
    if s == [] then []
    else if s[0] == k then Remove(s[1..], k)
    else [s[0]] + Remove(s[1..], k)
  }

  lemma CutTail<K>(s: seq<K>, i: nat)
    requires 0 < i < |s|
    ensures [s[0]] + (s[1..][..i - 1] + s[1..][i..]) == s[..i] + s[i + 1..]
  {
  }

  lemma {:induction false} RemoveAt<K>(s: seq<K>, i: nat)
    requires NoDuplicates(s) && i < |s|
    ensures Remove(s, s[i]) == s[..i] + s[i + 1..]
  {
    if i == 0 {
      assert s[0] !in s[1..];
      assert s[..0] + s[1..] == s[1..];
    } else {
      RemoveAt(s[1..], i - 1);
      CutTail(s, i);
    }
  }

  function Front<K(==)>(s: seq<K>, k: K): (r: seq<K>)
    ensures forall x :: x in r ==> x == k || x in s
    ensures k in r && forall x :: x in s ==> x in r
    ensures NoDuplicates(s) ==> NoDuplicates(r) && |r| == if k in s then |s| else |s| + 1
    ensures NoDuplicates(s) && s != [] && s[0] == k ==> r == s
  {
    ghost var r := [k] + Remove(s, k);
    assert NoDuplicates(s) && k in s ==> NoDuplicates(r) && |r| == |s| && (s[0] == k ==> r == s) by {
      if NoDuplicates(s) && k in s {
        var i :| 0 <= i < |s| && s[i] == k;
        RemoveAt(s, i);
      }
    }
    [k] + Remove(s, k)
  }

  /** The key is in front, and the others keep their order. */
  lemma FrontIs<K>(s: seq<K>, i: nat)
    requires NoDuplicates(s) && i < |s|
    ensures Front(s, s[i]) == [s[i]] + (s[..i] + s[i + 1..])
  {
    RemoveAt(s, i);
  }

  /** The number of table entries is the length of the list, so testing either is testing both. */
  lemma {:induction false} SizesAgree<K, E>(c: Content<K, E>)
    requires Agrees(c)
    ensures |c.table| == |c.keys|
  {
    KeySetSize(c.keys, c.table.Keys);
  }

  lemma {:induction false} KeySetSize<K>(s: seq<K>, keys: set<K>)
    requires NoDuplicates(s) && (forall k :: k in s ==> k in keys) && (forall k :: k in keys ==> k in s)
    ensures |keys| == |s|
  {
    if s == [] {
      assert keys == {};
    } else {
      assert s[0] in s && s == [s[0]] + s[1..];
      assert s[0] !in s[1..];
      KeySetSize(s[1..], keys - {s[0]});
    }
  }

  // ------------------------------------------------------------------ LRU

  function LruPut<K, E>(c: Content<K, E>, size: nat, key: K, element: E): (r: Content<K, E>)
    ensures (Agrees(c) ==> Agrees(r)) && (Within(c, size) ==> Within(r, size))
    ensures Within(c, size) && (0 < size || key in c.table) ==> key in r.table && r.table[key] == element
    ensures forall k :: k in r.table && k != key ==> k in c.table && r.table[k] == c.table[k]
  {
    if key in c.table then
      Content(Front(c.keys, key), c.table[key := element])
    else if |c.keys| >= size then
      DropLast(Content([key] + c.keys, c.table[key := element]))
    else
      Content([key] + c.keys, c.table[key := element])
  }

  function DropLast<K, E>(c: Content<K, E>): (r: Content<K, E>)
    requires c.keys != []
    ensures r.keys == c.keys[..|c.keys| - 1]
    ensures r.table == c.table - {c.keys[|c.keys| - 1]}
    ensures Agrees(c) ==> Agrees(r)
  {
    var n := |c.keys| - 1;
    assert c.keys == c.keys[..n] + [c.keys[n]];
    Content(c.keys[..n], c.table - {c.keys[n]})
  }

  /** Reading through operator[] puts a default element under a missing key and never evicts, so the
      capacity bound survives exactly when the key is cached or there is room. */
  function LruGet<K, E>(c: Content<K, E>, key: K, absent: E): (r: Content<K, E>)
    ensures Agrees(c) ==> Agrees(r) && r.keys == Front(c.keys, key)
    ensures forall size: nat :: Within(c, size) ==> (Within(r, size) <==> key in c.table || |c.keys| < size)
  {
    Content(if c.keys != [] && c.keys[0] == key then c.keys else Front(c.keys, key),
            if key in c.table then c.table else c.table[key := absent])
  }

  /** Where the keys stand after a put.  A cached key moves to the front and the others keep their order; any
      other key comes to the front, and if the cache was full the last one goes. */
  lemma LruPutOrder<K, E>(c: Content<K, E>, size: nat, key: K, element: E)
    requires Agrees(c)
    ensures var r := LruPut(c, size, key, element);
            if key in c.table then
              exists i :: 0 <= i < |c.keys| && c.keys[i] == key && r.keys == [key] + (c.keys[..i] + c.keys[i + 1..])
            else if |c.keys| < size then r.keys == [key] + c.keys
            else r.keys == ([key] + c.keys)[..|c.keys|]
  {
    if key in c.table {
      var i :| 0 <= i < |c.keys| && c.keys[i] == key;
      FrontIs(c.keys, i);
    }
  }

  /** Reading a cached key moves it to the front in the same way and changes no element. */
  lemma LruGetOrder<K, E>(c: Content<K, E>, key: K, absent: E)
    requires Agrees(c)
    ensures var r := LruGet(c, key, absent);
            if key in c.table then
              && r.table == c.table
              && exists i :: 0 <= i < |c.keys| && c.keys[i] == key && r.keys == [key] + (c.keys[..i] + c.keys[i + 1..])
            else r.table == c.table[key := absent] && r.keys == [key] + c.keys
  {
    if key in c.table {
      var i :| 0 <= i < |c.keys| && c.keys[i] == key;
      FrontIs(c.keys, i);
    }
  }

  class LRUCache<K(==), E> {
    const size: nat
    const absent: E
    var cacheList: seq<K>
    var cacheMap: map<K, E>

    ghost function Held(): Content<K, E>
      reads this
    {
      Content(cacheList, cacheMap)
    }

    constructor (size: nat, absent: E)
      ensures this.size == size && this.absent == absent && Held() == Content([], map[])
    {
      this.size, this.absent := size, absent;
      cacheList, cacheMap := [], map[];
    }

    method IsCached(key: K) returns (r: bool)
      ensures r <==> key in cacheMap
    {
      r := key in cacheMap;
    }

    method MoveToFront(key: K)
      requires cacheList != []
      modifies this`cacheList
      ensures cacheList == Front(old(cacheList), key) || (old(cacheList)[0] == key && cacheList == old(cacheList))
      ensures old(cacheList)[0] == key ==> cacheList == old(cacheList)
    {
      if cacheList[0] == key {
        return;
      }
      cacheList := Remove(cacheList, key);
      cacheList := [key] + cacheList;
    }

    method RemoveBack()
      requires cacheList != []
      modifies this
      ensures Held() == DropLast(old(Held()))
    {
      var n := |cacheList| - 1;
      cacheMap := cacheMap - {cacheList[n]};
      cacheList := cacheList[..n];
    }

    method InsertNewElement(key: K, element: E)
      requires key !in cacheMap
      modifies this
      ensures cacheList == [key] + old(cacheList) && cacheMap == old(cacheMap)[key := element]
    {
      cacheList := [key] + cacheList;
      cacheMap := cacheMap[key := element];
    }

    method PutElement(key: K, element: E)
      requires Agrees(Held())
      modifies this
      ensures Held() == LruPut(old(Held()), size, key, element)
      ensures Agrees(Held()) && (old(Within(Held(), size)) ==> Within(Held(), size))
    {
      SizesAgree(Held());
      var cached := IsCached(key);
      if cached {
        cacheMap := cacheMap[key := element];
        MoveToFront(key);
      } else if |cacheMap| >= size {
        InsertNewElement(key, element);
        RemoveBack();
      } else {
        InsertNewElement(key, element);
      }
    }

    /** list::front() needs a list that is not empty; the key itself may be missing. */
    method GetElement(key: K) returns (element: E)
      requires cacheList != []
      modifies this
      ensures Held() == LruGet(old(Held()), key, absent)
      ensures element == if key in old(cacheMap) then old(cacheMap)[key] else absent
    {
      MoveToFront(key);
      if key !in cacheMap {
        cacheMap := cacheMap[key := absent];
      }
      element := cacheMap[key];
    }
  }

  // ------------------------------------------------------------------ the LRU stack theorem

  /** What clients do: read a key if it is cached and otherwise fetch and put its element; or put an element
      that was fetched some time ago, when the key may be cached already. */
  datatype Access<K, E> = Look(key: K, fetched: E) | Store(key: K, fetched: E)

  function LruAccess<K, E>(c: Content<K, E>, size: nat, a: Access<K, E>): (r: Content<K, E>)
    ensures Within(c, size) ==> Within(r, size)
  {
    if a.Look? && a.key in c.table then LruGet(c, a.key, a.fetched) else LruPut(c, size, a.key, a.fetched)
  }

  function LruRun<K, E>(size: nat, trace: seq<Access<K, E>>): (c: Content<K, E>)
    ensures Within(c, size)
    decreases |trace|
  {
    if trace == [] then Content([], map[])
    else LruAccess(LruRun(size, trace[..|trace| - 1]), size, trace[|trace| - 1])
  }

  /** All keys accessed so far, the most recently used first. */
  function Recency<K(==), E>(trace: seq<Access<K, E>>): (r: seq<K>)
    ensures NoDuplicates(r)
    decreases |trace|
  {
    if trace == [] then [] else Front(Recency(trace[..|trace| - 1]), trace[|trace| - 1].key)
  }

  function Take<K>(s: seq<K>, n: nat): seq<K> {
    if n <= |s| then s[..n] else s
  }

  /** Moving to the front and cutting off commute, for a key within the cut. */
  lemma FrontOfTake<K>(s: seq<K>, n: nat, i: nat)
    requires NoDuplicates(s) && i < n && i < |s|
    ensures Front(Take(s, n), s[i]) == Take(Front(s, s[i]), n)
  {
    FrontIs(s, i);
    if n <= |s| {
      var t := s[..n];
      assert t[i] == s[i] && NoDuplicates(t);
      FrontIs(t, i);
      CutOfPrefix(s, n, i);
    }
  }

  lemma CutOfPrefix<K>(s: seq<K>, n: nat, i: nat)
    requires i < n <= |s|
    ensures [s[i]] + (s[..n][..i] + s[..n][i + 1..]) == ([s[i]] + (s[..i] + s[i + 1..]))[..n]
  {
    assert s[..n][..i] == s[..i] && s[..n][i + 1..] == s[i + 1..n];
  }

  lemma TakeOfFrontMissing<K>(s: seq<K>, n: nat, k: K)
    requires NoDuplicates(s) && k !in Take(s, n)
    ensures Take(Front(s, k), n) == Take([k] + Take(s, n), n)
  {
    if k in s {
      var i :| 0 <= i < |s| && s[i] == k;
      assert forall j :: 0 <= j < n && j < |s| ==> s[j] == Take(s, n)[j];
      RemoveAt(s, i);
    }
  }

  lemma LruAccessKeys<K, E>(c: Content<K, E>, size: nat, a: Access<K, E>)
    requires Within(c, size)
    ensures LruAccess(c, size, a).keys ==
              if a.key in c.table then Front(c.keys, a.key) else Take([a.key] + c.keys, size)
  {
  }

  lemma LruStackStep<K, E>(c: Content<K, E>, size: nat, r: seq<K>, a: Access<K, E>)
    requires Within(c, size) && NoDuplicates(r) && c.keys == Take(r, size)
    ensures LruAccess(c, size, a).keys == Take(Front(r, a.key), size)
  {
    LruAccessKeys(c, size, a);
    if a.key in c.table {
      StackHit(c.keys, size, r, a.key);
    } else {
      TakeOfFrontMissing(r, size, a.key);
    }
  }

  lemma StackHit<K>(keys: seq<K>, size: nat, r: seq<K>, k: K)
    requires NoDuplicates(r) && keys == Take(r, size) && k in keys
    ensures Front(keys, k) == Take(Front(r, k), size)
  {
    var i :| 0 <= i < |keys| && keys[i] == k;
    FrontOfTake(r, size, i);
  }

  /** After every access sequence, a cache of any capacity lists the first keys of one and the same
      recency order. */
  lemma {:induction false} LruStack<K, E>(size: nat, trace: seq<Access<K, E>>)
    ensures LruRun(size, trace).keys == Take(Recency(trace), size)
    decreases |trace|
  {
    if trace != [] {
      var before := trace[..|trace| - 1];
      LruStack(size, before);
      LruStackStep(LruRun(size, before), size, Recency(before), trace[|trace| - 1]);
    }
  }

  /** The number of reads that found their key. */
  function Hits<K(==), E>(size: nat, trace: seq<Access<K, E>>): nat
    decreases |trace|
  {
    if trace == [] then 0
    else
      var n := |trace| - 1;
      Hits(size, trace[..n]) + if trace[n].Look? && trace[n].key in LruRun(size, trace[..n]).table then 1 else 0
  }

  /** Inclusion: a larger LRU cache holds all that a smaller one holds, so it never has fewer hits. */
  lemma {:induction false} LruInclusion<K, E>(small: nat, large: nat, trace: seq<Access<K, E>>)
    requires small <= large
    ensures LruRun(small, trace).keys <= LruRun(large, trace).keys
    ensures forall k :: k in LruRun(small, trace).table ==> k in LruRun(large, trace).table
    ensures Hits(small, trace) <= Hits(large, trace)
    decreases |trace|
  {
    LruStack(small, trace);
    LruStack(large, trace);
    var a, b := LruRun(small, trace), LruRun(large, trace);
    forall k | k in a.table
      ensures k in b.table
    {
      assert k in a.keys;
      assert k in b.keys;
    }
    if trace != [] {
      LruInclusion(small, large, trace[..|trace| - 1]);
    }
  }

  /** What each key was given last: by a put, or by a read that had to fetch. */
  function LastWritten<K, E>(size: nat, trace: seq<Access<K, E>>): map<K, E>
    decreases |trace|
  {
    if trace == [] then map[]
    else
      var n := |trace| - 1;
      var before, a := LastWritten(size, trace[..n]), trace[n];
      if a.Look? && a.key in LruRun(size, trace[..n]).table then before else before[a.key := a.fetched]
  }

  /** A cache holds no stale element: under each of its keys it has what that key was given last. */
  lemma {:induction false} LruServesLatest<K, E>(size: nat, trace: seq<Access<K, E>>, k: K)
    requires k in LruRun(size, trace).table
    ensures k in LastWritten(size, trace) && LruRun(size, trace).table[k] == LastWritten(size, trace)[k]
    decreases |trace|
  {
    var n := |trace| - 1;
    var c, a := LruRun(size, trace[..n]), trace[n];
    LruAccessValue(c, size, a, k);
    if a.key != k || (a.Look? && k in c.table) {
      LruServesLatest(size, trace[..n], k);
    }
  }

  lemma LruAccessValue<K, E>(c: Content<K, E>, size: nat, a: Access<K, E>, k: K)
    requires Within(c, size) && k in LruAccess(c, size, a).table
    ensures a.key == k && (a.Store? || k !in c.table) ==> LruAccess(c, size, a).table[k] == a.fetched
    ensures a.key != k || (a.Look? && k in c.table) ==> k in c.table && LruAccess(c, size, a).table[k] == c.table[k]
  {
  }

  // ------------------------------------------------------------------ FIFO

  function FifoPut<K, E>(c: Content<K, E>, size: nat, key: K, element: E): (r: Content<K, E>)
    ensures (Agrees(c) ==> Agrees(r)) && (Within(c, size) ==> Within(r, size))
    ensures forall k :: k in r.table && k != key ==> k in c.table && r.table[k] == c.table[k]
    ensures Within(c, size) && (0 < size || key in c.table) ==> key in r.table && r.table[key] == element
  {
    if key in c.table then Content(c.keys, c.table[key := element])
    else if |c.keys| < size then Content(c.keys + [key], c.table[key := element])
    else DropFirst(Content(c.keys + [key], c.table[key := element]))
  }

  function DropFirst<K, E>(c: Content<K, E>): (r: Content<K, E>)
    requires c.keys != []
    ensures Agrees(c) ==> Agrees(r)
  {
    assert c.keys == [c.keys[0]] + c.keys[1..];
    Content(c.keys[1..], c.table - {c.keys[0]})
  }

  /** Reading through operator[] puts a default element under a missing key, but only into the table:
      list and table still agree exactly when the key was cached. */
  function FifoGet<K, E>(c: Content<K, E>, key: K, absent: E): (r: Content<K, E>)
    ensures Agrees(c) ==> (Agrees(r) <==> key in c.table) && (key in c.table ==> r == c)
    ensures r.keys == c.keys && (key !in c.table ==> r.table == c.table[key := absent])
  {
    Content(c.keys, if key in c.table then c.table else c.table[key := absent])
  }

  class FIFOCache<K(==), E> {
    const size: nat
    const absent: E
    var cacheList: seq<K>
    var cacheMap: map<K, E>

    ghost function Held(): Content<K, E>
      reads this
    {
      Content(cacheList, cacheMap)
    }

    constructor (size: nat, absent: E)
      ensures this.size == size && this.absent == absent && Held() == Content([], map[])
    {
      this.size, this.absent := size, absent;
      cacheList, cacheMap := [], map[];
    }

    method IsCached(key: K) returns (r: bool)
      ensures r <==> key in cacheMap
    {
      r := key in cacheMap;
    }

    method GetElement(key: K) returns (element: E)
      modifies this`cacheMap
      ensures Held() == FifoGet(old(Held()), key, absent)
      ensures element == if key in old(cacheMap) then old(cacheMap)[key] else absent
    {
      if key !in cacheMap {
        cacheMap := cacheMap[key := absent];
      }
      element := cacheMap[key];
    }

    method InsertNewElement(key: K, element: E)
      requires key !in cacheMap
      modifies this
      ensures cacheList == old(cacheList) + [key] && cacheMap == old(cacheMap)[key := element]
    {
      cacheList := cacheList + [key];
      cacheMap := cacheMap[key := element];
    }

    method RemoveFront()
      requires cacheList != []
      modifies this
      ensures Held() == DropFirst(old(Held()))
    {
      cacheMap := cacheMap - {cacheList[0]};
      cacheList := cacheList[1..];
    }

    method PutElement(key: K, element: E)
      requires Agrees(Held())
      modifies this
      ensures Held() == FifoPut(old(Held()), size, key, element)
      ensures Agrees(Held()) && (old(Within(Held(), size)) ==> Within(Held(), size))
    {
      SizesAgree(Held());
      var cached := IsCached(key);
      if cached {
        cacheMap := cacheMap[key := element];
        return;
      } else if |cacheMap| < size {
        InsertNewElement(key, element);
      } else {
        InsertNewElement(key, element);
        RemoveFront();
      }
    }
  }

  function FifoAccess<K, E>(c: Content<K, E>, size: nat, a: Access<K, E>): (r: Content<K, E>)
    ensures Within(c, size) ==> Within(r, size)
    ensures r.keys == if a.key in c.table then c.keys
                      else if |c.keys| < size then c.keys + [a.key]
                      else (c.keys + [a.key])[1..]
  {
    if a.Look? && a.key in c.table then c else FifoPut(c, size, a.key, a.fetched)
  }

  function FifoRun<K, E>(c: Content<K, E>, size: nat, trace: seq<Access<K, E>>): Content<K, E>
    decreases |trace|
  {
    if trace == [] then c else FifoRun(FifoAccess(c, size, trace[0]), size, trace[1..])
  }

  /** The keys that were not cached when accessed, in order of access. */
  function FifoMisses<K, E>(c: Content<K, E>, size: nat, trace: seq<Access<K, E>>): seq<K>
    decreases |trace|
  {
    if trace == [] then []
    else (if trace[0].key in c.table then [] else [trace[0].key]) +
         FifoMisses(FifoAccess(c, size, trace[0]), size, trace[1..])
  }

  function Last<K>(s: seq<K>, n: nat): seq<K> {
    if n <= |s| then s[|s| - n..] else s
  }

  /** A FIFO cache holds precisely the keys of its latest misses, oldest first. */
  lemma {:induction false} FifoWindow<K, E>(c: Content<K, E>, size: nat, trace: seq<Access<K, E>>)
    requires Within(c, size)
    ensures FifoRun(c, size, trace).keys == Last(c.keys + FifoMisses(c, size, trace), size)
    decreases |trace|
  {
    if trace == [] {
      assert c.keys + [] == c.keys;
    } else {
      var c', k := FifoAccess(c, size, trace[0]), trace[0].key;
      var later := FifoMisses(c', size, trace[1..]);
      FifoWindow(c', size, trace[1..]);
      if k in c.table {
        assert FifoMisses(c, size, trace) == later;
      } else {
        assert FifoMisses(c, size, trace) == [k] + later;
        FifoWindowStep(c.keys, k, later, size);
      }
    }
  }

  lemma FifoWindowStep<K>(keys: seq<K>, k: K, later: seq<K>, size: nat)
    requires |keys| <= size
    ensures var keys' := if |keys| < size then keys + [k] else (keys + [k])[1..];
            Last(keys' + later, size) == Last(keys + ([k] + later), size)
  {
    if |keys| < size {
      assert keys + [k] + later == keys + ([k] + later);
    } else {
      var s := keys + ([k] + later);
      assert (keys + [k])[1..] + later == s[1..];
      assert s[1..][|s| - 1 - size..] == s[|s| - size..];
    }
  }

  // ------------------------------------------------------------------ when a larger FIFO cache is never worse

  /** The list of keys alone, after a miss and after a trace; and the number of misses on a trace. */
  function FifoAdd<K>(keys: seq<K>, size: nat, k: K): (r: seq<K>)
    ensures |keys| <= size ==> |r| <= size
  {
    if |keys| < size then keys + [k] else (keys + [k])[1..]
  }

  function FifoKeys<K(==)>(keys: seq<K>, size: nat, trace: seq<K>): seq<K>
    decreases |trace|
  {
    if trace == [] then keys
    else FifoKeys(if trace[0] in keys then keys else FifoAdd(keys, size, trace[0]), size, trace[1..])
  }

  function FifoCost<K(==)>(keys: seq<K>, size: nat, trace: seq<K>): nat
    decreases |trace|
  {
    if trace == [] then 0
    else if trace[0] in keys then FifoCost(keys, size, trace[1..])
    else 1 + FifoCost(FifoAdd(keys, size, trace[0]), size, trace[1..])
  }

  function KeysOf<K, E>(trace: seq<Access<K, E>>): (r: seq<K>)
    ensures |r| == |trace| && forall i :: 0 <= i < |r| ==> r[i] == trace[i].key
  {
    seq(|trace|, i requires 0 <= i < |trace| => trace[i].key)
  }

  lemma {:induction false} MissesAreCost<K, E>(c: Content<K, E>, size: nat, trace: seq<Access<K, E>>)
    requires Within(c, size)
    ensures |FifoMisses(c, size, trace)| == FifoCost(c.keys, size, KeysOf(trace))
    decreases |trace|
  {
    if trace != [] {
      assert KeysOf(trace)[1..] == KeysOf(trace[1..]);
      MissesAreCost(FifoAccess(c, size, trace[0]), size, trace[1..]);
    }
  }

  function IndexOf<K(==)>(s: seq<K>, k: K): (i: nat)
    requires k in s
    ensures i < |s| && s[i] == k
  {
    if s[0] == k then 0 else 1 + IndexOf(s[1..], k)
  }

  /** The number of misses after which a key is evicted; none if it is not cached. */
  function Life<K(==)>(keys: seq<K>, size: nat, k: K): (n: nat)
    requires |keys| <= size
    ensures n <= size && (n > 0 <==> k in keys)
  {
    if k in keys then IndexOf(keys, k) + 1 + size - |keys| else 0
  }

  lemma LifeIs<K>(keys: seq<K>, size: nat, i: nat)
    requires NoDuplicates(keys) && |keys| <= size && i < |keys|
    ensures Life(keys, size, keys[i]) == i + 1 + size - |keys|
  {
  }

  /** A miss takes one off the life of every other key. */
  lemma LifeAfterMiss<K>(keys: seq<K>, size: nat, x: K, k: K)
    requires NoDuplicates(keys) && |keys| <= size && x !in keys
    ensures var keys' := FifoAdd(keys, size, x);
            && NoDuplicates(keys')
            && Life(keys', size, k) ==
                 if k == x then size else if Life(keys, size, k) > 0 then Life(keys, size, k) - 1 else 0
  {
    var keys' := FifoAdd(keys, size, x);
    if k == x {
      if size > 0 {
        LifeIs(keys', size, |keys'| - 1);
      }
    } else if k in keys {
      var i := IndexOf(keys, k);
      if |keys| < size {
        LifeIs(keys', size, i);
      } else if i > 0 {
        assert keys'[i - 1] == k;
        LifeIs(keys', size, i - 1);
      }
    }
  }

  /** The keys of the small cache that the large one evicts less than `d` misses later, or before. */
  ghost function Late<K(!new)>(a: seq<K>, large: nat, b: seq<K>, small: nat, d: int): (r: set<K>)
    requires |a| <= large && |b| <= small
    ensures |r| <= small
  {
    var all := set k | k in b;
    var late := set k | k in b && Life(a, large, k) - Life(b, small, k) < d;
    SeqSetSize(b);
    SubsetSize(late, all);
    late
  }

  lemma {:induction false} SeqSetSize<K>(s: seq<K>)
    ensures |set k | k in s| <= |s|
  {
    if s != [] {
      SeqSetSize(s[1..]);
      assert (set k | k in s) == {s[0]} + set k | k in s[1..];
    }
  }

  /** The two caches, and a lead `d` of the large one that covers all its late keys. */
  ghost predicate Covered<K(!new)>(a: seq<K>, large: nat, b: seq<K>, small: nat, d: nat) {
    && NoDuplicates(a) && NoDuplicates(b) && |a| <= large && |b| <= small
    && |Late(a, large, b, small, d)| <= d
  }

  lemma BothMiss<K(!new)>(a: seq<K>, large: nat, b: seq<K>, small: nat, d: nat, x: K)
    requires Covered(a, large, b, small, d) && large >= 2 * small - 1 && x !in a && x !in b
    ensures Covered(FifoAdd(a, large, x), large, FifoAdd(b, small, x), small, d)
  {
    var a', b' := FifoAdd(a, large, x), FifoAdd(b, small, x);
    LifeAfterMiss(a, large, x, x);
    LifeAfterMiss(b, small, x, x);
    if d < small {
      forall k | k in Late(a', large, b', small, d)
        ensures k in Late(a, large, b, small, d)
      {
        LifeAfterMiss(a, large, x, k);
        LifeAfterMiss(b, small, x, k);
      }
      SubsetSize(Late(a', large, b', small, d), Late(a, large, b, small, d));
    }
  }

  lemma SmallMisses<K(!new)>(a: seq<K>, large: nat, b: seq<K>, small: nat, d: nat, x: K)
    requires Covered(a, large, b, small, d) && x in a && x !in b
    ensures Covered(a, large, FifoAdd(b, small, x), small, d + 1)
  {
    var b' := FifoAdd(b, small, x);
    LifeAfterMiss(b, small, x, x);
    forall k | k in Late(a, large, b', small, d + 1)
      ensures k in Late(a, large, b, small, d) + {x}
    {
      LifeAfterMiss(b, small, x, k);
    }
    SubsetSize(Late(a, large, b', small, d + 1), Late(a, large, b, small, d) + {x});
  }

  /** A miss of the large cache alone uses up one of its lead, which therefore is not zero. */
  lemma LargeMisses<K(!new)>(a: seq<K>, large: nat, b: seq<K>, small: nat, d: nat, x: K)
    requires Covered(a, large, b, small, d) && large >= 2 * small - 1 && x !in a && x in b
    ensures d > 0 && Covered(FifoAdd(a, large, x), large, b, small, d - 1)
  {
    var a', late := FifoAdd(a, large, x), Late(a, large, b, small, d);
    assert x in late;
    SubsetSize({x}, late);
    LifeAfterMiss(a, large, x, x);
    if d <= small {
      forall k | k in Late(a', large, b, small, d - 1)
        ensures k in late - {x}
      {
        LifeAfterMiss(a, large, x, k);
      }
      SubsetSize(Late(a', large, b, small, d - 1), late - {x});
    }
  }

  lemma {:induction false} LeadSuffices<K(!new)>(a: seq<K>, large: nat, b: seq<K>, small: nat, d: nat, trace: seq<K>)
    requires Covered(a, large, b, small, d) && large >= 2 * small - 1
    ensures FifoCost(a, large, trace) <= FifoCost(b, small, trace) + d
    decreases |trace|
  {
    if trace != [] {
      var x, rest := trace[0], trace[1..];
      if x in a && x in b {
        LeadSuffices(a, large, b, small, d, rest);
      } else if x in a {
        SmallMisses(a, large, b, small, d, x);
        LeadSuffices(a, large, FifoAdd(b, small, x), small, d + 1, rest);
      } else if x in b {
        LargeMisses(a, large, b, small, d, x);
        LeadSuffices(FifoAdd(a, large, x), large, b, small, d - 1, rest);
      } else {
        BothMiss(a, large, b, small, d, x);
        LeadSuffices(FifoAdd(a, large, x), large, FifoAdd(b, small, x), small, d, rest);
      }
    }
  }

  /** A FIFO cache of at least twice the size, less one, never misses more often, whatever the trace. */
  lemma FifoTwiceIsSafe<K(!new), E>(small: nat, large: nat, trace: seq<Access<K, E>>)
    requires large >= 2 * small - 1
    ensures |FifoMisses(Content([], map[]), large, trace)| <= |FifoMisses(Content([], map[]), small, trace)|
  {
    var none: Content<K, E> := Content([], map[]);
    MissesAreCost(none, large, trace);
    MissesAreCost(none, small, trace);
    assert Late(none.keys, large, none.keys, small, 0) == {};
    LeadSuffices(none.keys, large, none.keys, small, 0, KeysOf(trace));
  }

  // ------------------------------------------------------------------ the anomaly of FIFO

  /** From position `from` on, equal keys are more than `size` apart. */
  ghost predicate FarApart(w: seq<int>, from: nat, size: nat) {
    forall i, j :: from <= i < |w| && 0 <= j < i && i - j <= size ==> w[i] != w[j]
  }

  lemma LastAdds<K>(s: seq<K>, size: nat, k: K)
    ensures FifoAdd(Last(s, size), size, k) == Last(s + [k], size)
  {
  }

  /** The next key is not held, and the keys held after it are again the last ones. */
  lemma NextMisses(w: seq<int>, from: nat, size: nat)
    requires from < |w| && FarApart(w, from, size)
    ensures w[from] !in Last(w[..from], size)
    ensures FifoAdd(Last(w[..from], size), size, w[from]) == Last(w[..from + 1], size)
  {
    var held := Last(w[..from], size);
    assert forall i :: 0 <= i < |held| ==> held[i] == w[from - |held| + i];
    LastAdds(w[..from], size, w[from]);
    assert w[..from] + [w[from]] == w[..from + 1];
  }

  lemma CostOfMiss(keys: seq<int>, size: nat, trace: seq<int>)
    requires trace != [] && trace[0] !in keys
    ensures FifoCost(keys, size, trace) == 1 + FifoCost(FifoAdd(keys, size, trace[0]), size, trace[1..])
    ensures FifoKeys(keys, size, trace) == FifoKeys(FifoAdd(keys, size, trace[0]), size, trace[1..])
  {
  }

  lemma {:induction false} AllMiss(w: seq<int>, from: nat, size: nat)
    requires from <= |w| && FarApart(w, from, size)
    ensures FifoCost(Last(w[..from], size), size, w[from..]) == |w| - from
    ensures FifoKeys(Last(w[..from], size), size, w[from..]) == Last(w, size)
    decreases |w| - from
  {
    var held := Last(w[..from], size);
    if from == |w| {
      assert w[..from] == w;
    } else {
      NextMisses(w, from, size);
      CostOfMiss(held, size, w[from..]);
      assert w[from..][1..] == w[from + 1..];
      AllMiss(w, from + 1, size);
    }
  }

  ghost predicate AllIn<K>(trace: seq<K>, keys: seq<K>) {
    forall k :: k in trace ==> k in keys
  }

  lemma {:induction false} AllHit<K>(keys: seq<K>, size: nat, trace: seq<K>)
    requires AllIn(trace, keys)
    ensures FifoCost(keys, size, trace) == 0 && FifoKeys(keys, size, trace) == keys
    decreases |trace|
  {
    if trace != [] {
      AllHit(keys, size, trace[1..]);
    }
  }

  lemma {:induction false} CostConcat<K>(keys: seq<K>, size: nat, x: seq<K>, y: seq<K>)
    ensures FifoKeys(keys, size, x + y) == FifoKeys(FifoKeys(keys, size, x), size, y)
    ensures FifoCost(keys, size, x + y) == FifoCost(keys, size, x) + FifoCost(FifoKeys(keys, size, x), size, y)
    decreases |x|
  {
    if x == [] {
      assert x + y == y;
    } else {
      assert (x + y)[1..] == x[1..] + y;
      CostConcat(if x[0] in keys then keys else FifoAdd(keys, size, x[0]), size, x[1..], y);
    }
  }

  /** The keys from 0 on. */
  function UpTo(n: nat): (r: seq<int>)
    ensures |r| == n && forall i :: 0 <= i < n ==> r[i] == i
  {
    seq(n, i => i)
  }

  function SmallKey(small: nat, large: nat, i: nat): nat
    requires 0 < small
  {
    if i < large then i
    else if i < large + small - 1 then i - large
    else if i == large + small - 1 then large
    else i
  }

  /** What the small cache misses, in order: the first `large` keys, the first of them again, the key
      `large`, and keys that are new. */
  function SmallMissed(small: nat, large: nat): (r: seq<int>)
    requires 0 < small <= large
    ensures |r| == 2 * large + 1
    ensures forall i :: 0 <= i < |r| ==> r[i] == SmallKey(small, large, i)
  {
    seq(2 * large + 1, i requires i >= 0 => SmallKey(small, large, i))
  }

  function LargeKey(small: nat, large: nat, i: nat): nat {
    if i <= large then i
    else if i < large + small then i - large - 1
    else if i <= 2 * large then i
    else large
  }

  /** What the large cache misses, in order: it has the first keys when they come again, but not when they
      come for the third time, nor the key `large` at the end. */
  function LargeMissed(small: nat, large: nat): (r: seq<int>)
    requires 0 < small <= large
    ensures |r| == 2 * large + 2
    ensures forall i :: 0 <= i < |r| ==> r[i] == LargeKey(small, large, i)
  {
    seq(2 * large + 2, i requires i >= 0 => LargeKey(small, large, i))
  }

  function AnomalyTrace(small: nat, large: nat): seq<int>
    requires 0 < small <= large
  {
    LargeMissed(small, large)[..large] + UpTo(small - 1) + LargeMissed(small, large)[large..]
  }

  lemma SameTrace(small: nat, large: nat)
    requires 0 < small <= large
    ensures var w := SmallMissed(small, large);
            AnomalyTrace(small, large) == w[..large + small] + UpTo(small - 1) + w[large + small..] + [large]
  {
  }

  lemma LargeCost(small: nat, large: nat)
    requires 0 < small <= large
    ensures FifoCost([], large, AnomalyTrace(small, large)) == 2 * large + 2
  {
    var w, again := LargeMissed(small, large), UpTo(small - 1);
    var first := w[..large];
    AllMiss(first, 0, large);
    assert first[..0] == [] && first[0..] == first && Last(first, large) == first;
    forall k | k in again
      ensures k in first
    {
      assert first[k] == k;
    }
    AllHit(first, large, again);
    AllMiss(w, large, large);
    CostConcat([], large, first, again);
    CostConcat([], large, first + again, w[large..]);
  }

  /** The first keys are in the small cache when they come for the third time, and so is `large` at the end. */
  lemma SmallHolds(small: nat, large: nat)
    requires small < large < 2 * small - 1
    ensures var w := SmallMissed(small, large);
            && AllIn(UpTo(small - 1), Last(w[..large + small], small))
            && large in Last(w, small)
  {
    var w := SmallMissed(small, large);
    var held := Last(w[..large + small], small);
    forall k | k in UpTo(small - 1)
      ensures k in held
    {
      assert held[k] == w[large + k] == k;
    }
    var end := Last(w, small);
    assert end[2 * small - large - 2] == w[large + small - 1] == large;
  }

  lemma SmallFirst(small: nat, large: nat)
    requires small < large < 2 * small - 1
    ensures var n, w := large + small, SmallMissed(small, large);
            FifoCost([], small, w[..n]) == n && FifoKeys([], small, w[..n]) == Last(w[..n], small)
  {
    var first := SmallMissed(small, large)[..large + small];
    AllMiss(first, 0, small);
    assert first[..0] == [] && first[0..] == first && Last(first[..0], small) == [];
  }

  /** The trace goes on after the first part, with the keys held then. */
  lemma SmallRest(small: nat, large: nat)
    requires small < large < 2 * small - 1
    ensures var n, w := large + small, SmallMissed(small, large);
            FifoCost(Last(w[..n], small), small, UpTo(small - 1) + w[n..] + [large]) == |w| - n
  {
    var n, w := large + small, SmallMissed(small, large);
    var held := Last(w[..n], small);
    SmallHolds(small, large);
    AllHit(held, small, UpTo(small - 1));
    AllMiss(w, n, small);
    AllHit(Last(w, small), small, [large]);
    CostConcat(held, small, UpTo(small - 1), w[n..]);
    CostConcat(held, small, UpTo(small - 1) + w[n..], [large]);
  }

  lemma SmallCost(small: nat, large: nat)
    requires small < large < 2 * small - 1
    ensures FifoCost([], small, AnomalyTrace(small, large)) == 2 * large + 1
  {
    var n, w := large + small, SmallMissed(small, large);
    var rest := UpTo(small - 1) + w[n..] + [large];
    SameTrace(small, large);
    assert AnomalyTrace(small, large) == w[..n] + rest;
    SmallFirst(small, large);
    SmallRest(small, large);
    CostConcat([], small, w[..n], rest);
  }

  function Accesses(keys: seq<int>): (r: seq<Access<int, int>>)
    ensures |r| == |keys| && forall i :: 0 <= i < |r| ==> r[i] == Look(keys[i], 0)
  {
    seq(|keys|, i requires 0 <= i < |keys| => Look(keys[i], 0))
  }

  /** FIFO has no inclusion property: for all these pairs of sizes there is a trace on which the larger
      cache misses more often. */
  lemma FifoAnomaly(small: nat, large: nat)
    requires small < large < 2 * small - 1
    ensures exists trace: seq<Access<int, int>> ::
              |FifoMisses(Content([], map[]), large, trace)| > |FifoMisses(Content([], map[]), small, trace)|
  {
    var none: Content<int, int> := Content([], map[]);
    var trace := Accesses(AnomalyTrace(small, large));
    assert KeysOf(trace) == AnomalyTrace(small, large);
    LargeCost(small, large);
    SmallCost(small, large);
    MissesAreCost(none, large, trace);
    MissesAreCost(none, small, trace);
  }

  /** A larger FIFO cache never misses more often, whatever the trace, exactly when it is at least twice
      as large, less one. */
  lemma FifoNeverWorseIff(small: nat, large: nat)
    requires small < large
    ensures (forall trace: seq<Access<int, int>> ::
               |FifoMisses(Content([], map[]), large, trace)| <= |FifoMisses(Content([], map[]), small, trace)|)
       <==> large >= 2 * small - 1
  {
    if large >= 2 * small - 1 {
      forall trace: seq<Access<int, int>>
        ensures |FifoMisses(Content([], map[]), large, trace)| <= |FifoMisses(Content([], map[]), small, trace)|
      {
        FifoTwiceIsSafe(small, large, trace);
      }
    } else {
      FifoAnomaly(small, large);
    }
  }
}
