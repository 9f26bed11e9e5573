/**
 One shard of the LRU cache: the hash table, the LRU list and the reference counts of all handles, as
 they change under the shard's mutex. A handle is in one of three states: in the table and referenced, in
 the table and not referenced (then it is on the LRU list), or only referenced.
 */
module LruShard {
  import opened ChainLinks
  import LruList
  import LruTable

  type Name = LruTable.Name

  datatype Priority = High | Low | Bottom

  /** References and flags of a handle. A handle that is not live was freed, or does not count yet. */
  datatype Handle = Handle(refs: nat, live: bool, inCache: bool, hit: bool, priority: Priority)

  /** The shard as a value. */
  datatype State = State(h: seq<Handle>, charge: seq<nat>, name: seq<Name>, m: map<Name, nat>, list: seq<nat>,
                         usage: int, capacity: nat)

  ghost predicate InTable(s: State, x: nat)
    requires x < |s.name|
  {
    s.name[x] in s.m && s.m[s.name[x]] == x
  }

  /** The three states of a handle, and what they mean for the table and the list. */
  ghost predicate HandleOk(s: State, x: nat)
    requires x < |s.h| == |s.name|
  {
    && (s.h[x].live ==> s.h[x].inCache || s.h[x].refs > 0)
    && (s.h[x].live && s.h[x].inCache <==> InTable(s, x))
    && (x in s.list <==> s.h[x].live && s.h[x].inCache && s.h[x].refs == 0)
  }

  /** The charges of the first n handles that are live. */
  function LiveSum(h: seq<Handle>, charge: seq<nat>, n: nat): nat
    requires n <= |h| == |charge|
  {
    if n == 0 then 0 else LiveSum(h, charge, n - 1) + if h[n - 1].live then charge[n - 1] else 0
  }

  ghost predicate Handles(s: State)
  {
    && 0 < |s.h| == |s.charge| == |s.name| && !s.h[0].live
    && (forall x :: 0 <= x < |s.h| ==> HandleOk(s, x))
    && (forall x :: x in s.list ==> x < |s.h|)
    && (forall k :: k in s.m ==> s.m[k] < |s.h| && s.name[s.m[k]] == k)
    && (forall x :: 0 <= x < |s.name| ==> s.name[x].hash < LruTable.HASH_LIMIT)
  }

  /** Handles are in their states, and usage is the charge of all live ones. */
  ghost predicate Sound(s: State)
  {
    Handles(s) && s.usage == LiveSum(s.h, s.charge, |s.h|)
  }

  /** A shard over capacity has nothing left to evict. */
  ghost predicate Drained(s: State) { s.usage > s.capacity ==> s.list == [] }

  function Counted(a: Handle, c: nat): int { if a.live then c else 0 }

  lemma {:induction false} LiveSumAt(h: seq<Handle>, charge: seq<nat>, n: nat, x: nat, a: Handle)
    requires n <= |h| == |charge| && x < |h|
    ensures LiveSum(h[x := a], charge, n) ==
            LiveSum(h, charge, n) + if x < n then Counted(a, charge[x]) - Counted(h[x], charge[x]) else 0
  {
    if n > 0 {
      LiveSumAt(h, charge, n - 1, x, a);
    }
  }

  lemma {:induction false} LiveSumMore(h: seq<Handle>, charge: seq<nat>, n: nat, a: Handle, c: nat)
    requires n <= |h| == |charge|
    ensures LiveSum(h + [a], charge + [c], n) == LiveSum(h, charge, n)
  {
    if n > 0 {
      LiveSumMore(h, charge, n - 1, a, c);
    }
  }

  lemma {:induction false} LiveSumMember(h: seq<Handle>, charge: seq<nat>, n: nat, x: nat)
    requires n <= |h| == |charge| && x < n && h[x].live
    ensures LiveSum(h, charge, n) >= charge[x]
  {
    if x < n - 1 {
      LiveSumMember(h, charge, n - 1, x);
    }
  }

  /** A step that changes handle x alone keeps all others in their states. */
  ghost predicate OnlyChanged(s: State, t: State, x: nat)
  {
    && 0 < x < |s.h| && |t.h| == |s.h| && t.h == s.h[x := t.h[x]] && t.charge == s.charge && t.name == s.name
    && (forall y :: y != x ==> (y in t.list <==> y in s.list))
    && (forall k :: k in t.m && t.m[k] != x ==> k in s.m && s.m[k] == t.m[k])
    && (forall k :: k in s.m && s.m[k] != x ==> k in t.m && t.m[k] == s.m[k])
    && (forall k :: k in t.m && t.m[k] == x ==> x < |t.name| && k == t.name[x])
  }

  lemma OneChanged(s: State, t: State, x: nat)
    requires Sound(s) && OnlyChanged(s, t, x) && HandleOk(t, x)
    requires t.usage == s.usage + Counted(t.h[x], s.charge[x]) - Counted(s.h[x], s.charge[x])
    ensures Sound(t)
  {
    hide LiveSum;
    LiveSumAt(s.h, s.charge, |s.h|, x, t.h[x]);
    forall y | 0 <= y < |t.h|
      ensures HandleOk(t, y)
    {
      assert HandleOk(s, y);
    }
  }

  // ---- Steps, in terms of the state ----

  /** Handle x leaves the table; without references it is freed and leaves the list, too. */
  ghost function Dropped(s: State, x: nat, list: seq<nat>): State
    requires x < |s.h| == |s.name| == |s.charge|
  {
    var freed := s.h[x].refs == 0;
    s.(h := s.h[x := s.h[x].(inCache := false, live := !freed)], m := s.m - {s.name[x]}, list := list,
       usage := if freed then s.usage - s.charge[x] else s.usage)
  }

  lemma DropOk(s: State, x: nat, list: seq<nat>)
    requires Sound(s) && x < |s.h| && InTable(s, x)
    requires forall y :: y in list <==> y in s.list && y != x
    ensures x < |s.h| == |s.name| == |s.charge| && Sound(Dropped(s, x, list)) && s.h[x].live && s.h[x].inCache && x > 0
    ensures s.h[x].refs == 0 <==> x in s.list
  {
    hide LiveSum;
    assert HandleOk(s, x) && HandleOk(s, 0);
    OneChanged(s, Dropped(s, x, list), x);
  }

  class Shard {
    const table: LruTable.HandleTable
    const lru: LruList.PriorityList
    var h: seq<Handle>
    var usage: int
    var capacity: nat
    var strict: bool
    var highRatio: real
    var lowRatio: real

    ghost function View(): State
      reads this, table, lru
    {
      State(h, lru.charge, table.name, table.m, lru.list, usage, capacity)
    }

    /** Table, list and handles fit together. */
    ghost predicate Consistent()
      reads this, table, lru
    {
      table.Valid() && lru.Valid() && Sound(View())
    }

    ghost predicate Valid()
      reads this, table, lru
    {
      Consistent() && Drained(View())
    }

    constructor (capacity: nat, strict: bool, highRatio: real, lowRatio: real, maxBits: nat)
      ensures Valid() && fresh(table) && fresh(lru)
      ensures table.m == map[] && lru.list == [] && usage == 0 && this.capacity == capacity && this.strict == strict
      ensures this.highRatio == highRatio && this.lowRatio == lowRatio
      ensures lru.highCapacity == PoolCapacity(capacity, highRatio) && lru.lowCapacity == PoolCapacity(capacity, lowRatio)
    {
      hide LruList.Ok, LruTable.Ok, Sound;
      var tab := new LruTable.HandleTable(maxBits);
      var dummy := tab.AddHandle(LruTable.Name(0, 0));
      table := tab;
      var list := new LruList.PriorityList();
      lru := list;
      h := [Handle(0, false, false, false, Bottom)];
      usage := 0;
      this.capacity, this.strict, this.highRatio, this.lowRatio := capacity, strict, highRatio, lowRatio;
      new;
      lru.highCapacity, lru.lowCapacity := PoolCapacity(capacity, highRatio), PoolCapacity(capacity, lowRatio);
      EmptyShard(View());
    }

    // ---- Eviction ----

    /** Evicts the oldest entry of the LRU list. */
    method EvictOne() returns (x: nat)
      requires Consistent() && lru.list != []
      modifies this`h, this`usage, table, lru
      ensures Consistent() && x == old(lru.list)[0] && x < |old(h)| && lru.list == old(lru.list)[1..]
      ensures View() == Dropped(old(View()), x, lru.list)
      ensures lru.pool == old(lru.pool) && lru.highCapacity == old(lru.highCapacity) && lru.lowCapacity == old(lru.lowCapacity)
    {
      hide Sound, LruList.PriorityList.Valid, LruTable.HandleTable.Valid;
      OnList(View(), lru.list[0]);
      x := lru.RemoveOldest();
      DropOk(old(View()), x, lru.list);
      var r := table.Remove(table.name[x]);
      h := h[x := h[x].(inCache := false, live := false)];
      usage := usage - lru.charge[x];
      assert View() == Dropped(old(View()), x, lru.list);
    }

    /** Evicts the oldest entries until `charge` fits in, or nothing is left to evict. */
    method EvictFromLRU(charge: nat) returns (deleted: seq<nat>)
      requires Consistent()
      modifies this`h, this`usage, table, lru
      ensures Consistent() && capacity == old(capacity) && lru.charge == old(lru.charge) && table.name == old(table.name)
      ensures usage + charge > capacity ==> lru.list == []
      ensures deleted + lru.list == old(lru.list) && usage == old(usage) - LruList.Sum(lru.charge, deleted)
      ensures Needed(lru.charge, deleted, old(usage), charge, capacity)
      ensures OnlyEvicted(old(View()), View(), deleted)
      ensures lru.pool == old(lru.pool) && lru.highCapacity == old(lru.highCapacity) && lru.lowCapacity == old(lru.lowCapacity)
    {
      hide Sound, LruList.PriorityList.Valid, LruTable.HandleTable.Valid, OnlyEvicted, LruList.Sum;
      deleted := [];
      LruList.SumEmpty(lru.charge, []);
      ghost var s := View();
      NoneEvicted(s);
      while usage + charge > capacity && !lru.IsEmpty()
        invariant Consistent() && capacity == s.capacity && lru.charge == s.charge && table.name == s.name
        invariant deleted + lru.list == s.list && usage == s.usage - LruList.Sum(lru.charge, deleted)
        invariant Needed(lru.charge, deleted, s.usage, charge, capacity)
        invariant OnlyEvicted(s, View(), deleted)
        invariant lru.pool == old(lru.pool) && lru.highCapacity == old(lru.highCapacity) && lru.lowCapacity == old(lru.lowCapacity)
        decreases |lru.list|
      {
        ghost var before := View();
        OnList(before, lru.list[0]);
        var x := EvictOne();
        OneEvicted(s, before, View(), deleted, x);
        SumAfter(lru.charge, deleted, x);
        deleted := deleted + [x];
      }
    }

    /** Takes entry `x` off the LRU list. */
    method TakeOff(x: nat)
      requires lru.Valid() && x in lru.list
      modifies lru
      ensures lru.Valid() && lru.charge == old(lru.charge)
      ensures lru.pool == old(lru.pool) && lru.highCapacity == old(lru.highCapacity) && lru.lowCapacity == old(lru.lowCapacity)
      ensures lru.list == LruList.Except(old(lru.list), x)
      ensures forall y :: y in lru.list <==> y in old(lru.list) && y != x
    {
      hide LruList.PriorityList.Valid, NoDup;
      lru.Facts();
      ghost var p :| 0 <= p < |lru.list| && lru.list[p] == x;
      LruList.RemoveNoDup(lru.list, p);
      LruList.ExceptAt(lru.list, p);
      lru.Remove(x, p);
    }

    // ---- Lookup and references ----

    /** The handle for name `k`, with one more reference, if it is in the table. */
    method Lookup(k: Name) returns (r: int)
      requires Valid() && k.hash < LruTable.HASH_LIMIT
      modifies this`h, lru
      ensures Valid() && r == if k in table.m then table.m[k] else LruTable.NULL
      ensures r < 0 ==> h == old(h) && lru.list == old(lru.list)
      ensures r >= 0 ==> r < |old(h)| && h == old(h)[r := Found(old(h)[r])]
      ensures r >= 0 ==> lru.list == LruList.Except(old(lru.list), r)
      ensures lru.pool == old(lru.pool) && lru.highCapacity == old(lru.highCapacity) && lru.lowCapacity == old(lru.lowCapacity)
    {
      hide Sound, LruList.PriorityList.Valid, LruTable.HandleTable.Valid, NoDup;
      r := table.Lookup(k);
      if r != LruTable.NULL {
        ghost var s := View();
        InMap(s, k);
        if h[r].refs == 0 {
          TakeOff(r);
        } else {
          LruList.ExceptNone(lru.list, r);
        }
        FoundOk(s, r, lru.list);
        h := h[r := Found(h[r])];
      }
    }

    /** One more reference on a handle that has one. */
    method Ref(e: nat)
      requires Valid() && e < |h| && h[e].live && h[e].refs > 0
      modifies this`h
      ensures Valid() && h == old(h)[e := old(h)[e].(refs := old(h)[e].refs + 1)]
    {
      hide Sound, LruList.PriorityList.Valid, LruTable.HandleTable.Valid;
      RefsOk(View(), e, h[e].refs + 1);
      h := h[e := h[e].(refs := h[e].refs + 1)];
    }

    /** The pool that an entry is put in front of. */
    method TargetPool(e: nat) returns (pool: LruList.Pool)
      requires e < |h|
      ensures pool == Target(h[e], highRatio, lowRatio)
    {
      if highRatio > 0.0 && (h[e].priority == High || h[e].hit) {
        pool := LruList.High;
      } else if lowRatio > 0.0 && (h[e].priority == High || h[e].priority == Low || h[e].hit) {
        pool := LruList.Low;
      } else {
        pool := LruList.Bottom;
      }
    }

    /** Puts entry `e` on the LRU list, in front of its pool. */
    method PutOn(e: nat)
      requires lru.Valid() && 0 < e < |h| == |lru.charge| && e !in lru.list
      modifies lru
      ensures lru.Valid() && lru.charge == old(lru.charge) && forall y :: y in lru.list <==> y in old(lru.list) || y == e
      ensures InFront(old(lru.list), old(lru.nb), old(lru.nl), Target(h[e], highRatio, lowRatio), e, lru.list)
      ensures Target(h[e], highRatio, lowRatio) != LruList.Bottom ==>
                lru.highUsage <= lru.highCapacity && lru.lowUsage <= lru.lowCapacity
      ensures LruList.Except(lru.list, e) == old(lru.list)
      ensures Newest(lru.list, lru.nb, Target(h[e], highRatio, lowRatio), e)
      // Other entries stay in their pools, but for as many as must overflow.
      ensures LruList.Joined(Target(h[e], highRatio, lowRatio), lru.charge, lru.list, old(lru.nb), old(lru.nl), lru.nb, lru.nl,
                             lru.highCapacity, lru.lowCapacity)
      ensures lru.highCapacity == old(lru.highCapacity) && lru.lowCapacity == old(lru.lowCapacity)
    {
      hide LruList.PriorityList.Valid, NoDup, LruList.Overflowed;
      lru.Facts();
      var pool := TargetPool(e);
      lru.Insert(e, pool);
      LruList.InsertNoDup(old(lru.list), LruList.Front(pool, old(lru.nb), old(lru.nl), |old(lru.list)|), e);
      FrontFacts(old(lru.list), old(lru.nb), old(lru.nl), pool, e, lru.list, lru.nb);
    }

    /**
     Gives back a reference. The last one frees a handle that is not in the table; one that is goes to the
     LRU list, unless the shard is over capacity or erasure was asked for.
     */
    method Release(e: nat, eraseIfLast: bool) returns (freed: bool)
      requires Valid() && e < |h| && h[e].live && h[e].refs > 0
      modifies this`h, this`usage, table, lru
      ensures Valid() && usage <= old(usage)
      ensures freed == (old(h)[e].refs == 1 && (!old(h)[e].inCache || old(usage) > capacity || eraseIfLast))
      ensures View() == Released(old(View()), e, freed, lru.list)
      // The entry goes to the front of its pool, and no other entry moves.
      ensures if old(h)[e].refs == 1 && !freed
              then InFront(old(lru.list), old(lru.nb), old(lru.nl), Target(h[e], highRatio, lowRatio), e, lru.list) &&
                   LruList.Joined(Target(h[e], highRatio, lowRatio), lru.charge, lru.list, old(lru.nb), old(lru.nl),
                                  lru.nb, lru.nl, lru.highCapacity, lru.lowCapacity)
              else lru.list == old(lru.list) && lru.pool == old(lru.pool)
      ensures lru.highCapacity == old(lru.highCapacity) && lru.lowCapacity == old(lru.lowCapacity)
    {
      hide Sound, LruList.PriorityList.Valid, LruTable.HandleTable.Valid, InFront, LruList.Joined;
      ghost var s := View();
      HandleFacts(s, e);
      freed := false;
      if h[e].refs > 1 {
        NotLast(s, e);
        RefsOk(s, e, h[e].refs - 1);
        h := h[e := h[e].(refs := h[e].refs - 1)];
      } else if h[e].inCache && usage <= capacity && !eraseIfLast {
        PutBack(e);
      } else {
        assert h[e].inCache ==> lru.list == [] || eraseIfLast;
        freed := true;
        FreeHandle(e);
      }
    }

    /** The last reference to an entry of the cache is gone; it goes to the LRU list. */
    method PutBack(e: nat)
      requires Consistent() && 0 < e < |h| == |lru.charge| && e !in lru.list
      requires h[e].live && h[e].inCache && h[e].refs == 1
      modifies this`h, lru
      ensures Consistent() && View() == Released(old(View()), e, false, lru.list)
      ensures lru.list != []
      ensures InFront(old(lru.list), old(lru.nb), old(lru.nl), Target(h[e], highRatio, lowRatio), e, lru.list)
      ensures LruList.Joined(Target(h[e], highRatio, lowRatio), lru.charge, lru.list, old(lru.nb), old(lru.nl), lru.nb, lru.nl,
                             lru.highCapacity, lru.lowCapacity)
      ensures lru.highCapacity == old(lru.highCapacity) && lru.lowCapacity == old(lru.lowCapacity)
    {
      hide Sound, LruList.PriorityList.Valid, LruTable.HandleTable.Valid, InFront, LruList.Joined;
      ghost var s := View();
      HandleFacts(s, e);
      h := h[e := h[e].(refs := 0)];
      PutOn(e);
      assert e in lru.list;
      ReleaseOk(s, View(), e, false);
    }

    /** The last reference to a handle is gone, and the handle with it. */
    method FreeHandle(e: nat)
      requires Consistent() && e < |h| && h[e].live && h[e].refs == 1
      modifies this`h, this`usage, table
      ensures Consistent() && View() == Released(old(View()), e, true, lru.list)
    {
      hide Sound, LruList.PriorityList.Valid, LruTable.HandleTable.Valid;
      ghost var s := View();
      HandleFacts(s, e);
      if h[e].inCache {
        var r := table.Remove(table.name[e]);
      }
      h := h[e := h[e].(refs := 0, live := false, inCache := false)];
      usage := usage - lru.charge[e];
      ReleaseOk(s, View(), e, true);
    }

    /** Removes the entry with name `k`, if there is one; it is freed unless it is referenced. */
    method Erase(k: Name)
      requires Valid() && k.hash < LruTable.HASH_LIMIT
      modifies this`h, this`usage, table, lru
      ensures Valid() && usage <= old(usage)
      ensures k !in old(table.m) ==> View() == old(View())
      ensures k in old(table.m) ==> old(table.m)[k] < |old(h)| == |old(table.name)| == |old(lru.charge)| &&
                                    View() == Dropped(old(View()), old(table.m)[k], LruList.Except(old(lru.list), old(table.m)[k]))
      ensures lru.pool == old(lru.pool) && lru.highCapacity == old(lru.highCapacity) && lru.lowCapacity == old(lru.lowCapacity)
    {
      hide Sound, LruList.PriorityList.Valid, LruTable.HandleTable.Valid;
      ghost var s := View();
      var e := table.Remove(k);
      LruTable.RemovedNone(old(table.m), k);
      if e != LruTable.NULL {
        InMap(s, k);
        Displace(e);
        DropOk(s, e, lru.list);
        assert View() == Dropped(s, e, lru.list);
      }
    }

    // ---- Insertion ----

    /** A new handle, which does not count yet. */
    method CreateHandle(k: Name, charge: nat, priority: Priority) returns (e: nat)
      requires Valid() && k.hash < LruTable.HASH_LIMIT
      modifies this`h, table, lru
      ensures Valid() && e == |old(h)| && View() == More(old(View()), k, charge, priority)
      ensures table.m == old(table.m) && lru.list == old(lru.list) && old(lru.pool) <= lru.pool
      ensures lru.highCapacity == old(lru.highCapacity) && lru.lowCapacity == old(lru.lowCapacity)
    {
      hide Sound, LruList.PriorityList.Valid, LruTable.HandleTable.Valid;
      SoundSizes(View());
      MoreOk(View(), k, charge, priority);
      e := table.AddHandle(k);
      lru.AddNode(charge);
      h := h + [Handle(0, false, false, false, priority)];
    }

    /** A handle that lost its place in the table is freed, unless it is referenced. */
    method Displace(x: nat)
      requires lru.Valid() && x < |h| == |lru.charge| && (x in lru.list <==> h[x].refs == 0)
      modifies this`h, this`usage, lru
      ensures lru.Valid() && lru.charge == old(lru.charge)
      ensures lru.pool == old(lru.pool) && lru.highCapacity == old(lru.highCapacity) && lru.lowCapacity == old(lru.lowCapacity)
      ensures h == old(h)[x := old(h)[x].(inCache := false, live := old(h)[x].refs != 0 && old(h)[x].live)]
      ensures usage == old(usage) - if old(h)[x].refs == 0 then lru.charge[x] else 0
      ensures lru.list == LruList.Except(old(lru.list), x)
      ensures forall y :: y in lru.list <==> y in old(lru.list) && y != x
    {
      hide LruList.PriorityList.Valid;
      h := h[x := h[x].(inCache := false)];
      if h[x].refs == 0 {
        TakeOff(x);
        usage := usage - lru.charge[x];
        h := h[x := h[x].(live := false)];
      } else {
        LruList.ExceptNone(lru.list, x);
      }
    }

    /**
     Handle `e` takes its place in the table, in the place of the entry with its name if there is one.
     `mid` is the state without either of them in the table.
     */
    method TakePlace(e: nat) returns (replaced: int, ghost mid: State)
      requires Consistent() && 0 < e < |h| && !h[e].live && h[e].refs == 0
      modifies this`h, this`usage, table, lru
      ensures table.Valid() && lru.Valid() && e < |mid.h| == |mid.name| == |mid.charge| == |old(h)|
      ensures Sound(mid) && mid.h[e] == old(h)[e] && mid.name == old(table.name) && mid.charge == old(lru.charge)
      ensures mid.name[e] !in mid.m && View() == Entering(mid, e) && mid.usage <= old(usage) && mid.capacity == capacity
      ensures table.m == old(table.m)[mid.name[e] := e]
      ensures replaced == if mid.name[e] in old(table.m) then old(table.m)[mid.name[e]] else LruTable.NULL
      ensures mid.list == Vacated(old(lru.list), replaced)
      ensures lru.pool == old(lru.pool) && lru.highCapacity == old(lru.highCapacity) && lru.lowCapacity == old(lru.lowCapacity)
      ensures forall y :: 0 <= y < |old(h)| && y != e ==> Kept(old(h)[y], h[y])
    {
      hide Sound, LruList.PriorityList.Valid, LruTable.HandleTable.Valid, LruTable.BitsAfter, LruList.Except, Kept, HandleOk;
      mid := View();
      ghost var s := mid;
      NotInTable(s, e);
      replaced := table.Insert(e);
      usage := usage + lru.charge[e];
      KeptAll(h, e, h[e].(live := true, inCache := true));
      h := h[e := h[e].(live := true, inCache := true)];
      if replaced != LruTable.NULL {
        InMap(s, table.name[e]);
        Displace(replaced);
        DropOk(s, replaced, lru.list);
        mid := Dropped(s, replaced, lru.list);
        Replaced(s, View(), e, replaced);
      }
    }

    /** Handle `e` becomes an entry of the cache, referenced if a handle is wanted. */
    method Enter(e: nat, wantHandle: bool) returns (replaced: int)
      requires Consistent() && 0 < e < |h| && !h[e].live && h[e].refs == 0
      modifies this`h, this`usage, table, lru
      ensures Consistent() && |h| == |old(h)| && table.name == old(table.name) && lru.charge == old(lru.charge)
      ensures h[e] == old(h)[e].(live := true, inCache := true, refs := if wantHandle then 1 else 0)
      ensures e < |table.name| == |lru.charge| && table.m == old(table.m)[table.name[e] := e]
      ensures replaced == if table.name[e] in old(table.m) then old(table.m)[table.name[e]] else LruTable.NULL
      ensures usage <= old(usage) + lru.charge[e]
      ensures LruList.Except(lru.list, e) == if replaced == LruTable.NULL then old(lru.list) else Vacated(old(lru.list), replaced)
      ensures wantHandle ==> lru.list == Vacated(old(lru.list), replaced)
      ensures !wantHandle ==> Newest(lru.list, lru.nb, Target(h[e], highRatio, lowRatio), e)
      ensures lru.highCapacity == old(lru.highCapacity) && lru.lowCapacity == old(lru.lowCapacity)
      ensures if wantHandle then lru.pool == old(lru.pool)
              else JoinedPools(Target(h[e], highRatio, lowRatio), old(lru.pool), e, lru.charge, lru.list, lru.nb, lru.nl,
                               lru.highCapacity, lru.lowCapacity)
      ensures forall y :: 0 <= y < |old(h)| && y != e ==> Kept(old(h)[y], h[y])
    {
      hide Sound, LruList.PriorityList.Valid, LruTable.HandleTable.Valid, Kept, LruList.Except, InFront, Newest, LruList.Joined;
      ghost var mid;
      replaced, mid := TakePlace(e);
      NotListed(mid, e);
      if wantHandle {
        h := h[e := h[e].(refs := 1)];
        LruList.ExceptNone(mid.list, e);
      } else {
        lru.CountEnds();
        PutOn(e);
      }
      EnterOk(mid, View(), e, wantHandle);
    }

    /**
     Inserts an entry after making room for it. If there is not enough room, it is dropped (when no handle is
     wanted), refused (with the strict limit), or inserted all the same.
     */
    method Insert(k: Name, charge: nat, priority: Priority, wantHandle: bool)
      returns (status: Status, e: nat, deleted: seq<nat>)
      requires Valid() && k.hash < LruTable.HASH_LIMIT
      modifies this`h, this`usage, table, lru
      ensures Valid() && e == |old(h)| && |h| == e + 1 == |lru.charge| && lru.charge[e] == charge
      // Only the oldest entries are evicted, and just as many of them as needed.
      ensures deleted <= old(lru.list) && Needed(lru.charge, deleted, old(usage), charge, capacity)
      ensures !Fits(old(usage), lru.charge, deleted, charge, capacity) ==> deleted == old(lru.list)
      // Other handles keep their references, other names their handles, and other entries their order.
      ensures AllKept(old(h), h) && NamesKept(old(table.m), table.m, k, e, deleted, h[e].live)
      ensures OrderKept(old(lru.list), |deleted|, lru.list, e, Overwritten(status, old(table.m), k))
      // The entry gets in exactly if there is room after the evictions, or a handle is wanted and the limit is not
      // strict; without a handle it is the newest of its pool.
      ensures h[e].live <==> Fits(old(usage), lru.charge, deleted, charge, capacity) || (wantHandle && !strict)
      ensures Outcome(status, h[e], wantHandle)
      ensures h[e].priority == priority && !h[e].hit
      ensures status == OkOverwritten <==> h[e].live && k in old(table.m) && old(table.m)[k] !in deleted
      ensures h[e].live && !wantHandle ==> Newest(lru.list, lru.nb, Target(h[e], highRatio, lowRatio), e)
      ensures strict && old(usage) <= capacity ==> usage <= capacity
      // Other entries stay in their pools, but for as many as must overflow.
      ensures lru.highCapacity == old(lru.highCapacity) && lru.lowCapacity == old(lru.lowCapacity)
      ensures if h[e].live && !wantHandle
              then JoinedPools(Target(h[e], highRatio, lowRatio), old(lru.pool), e, lru.charge, lru.list, lru.nb, lru.nl,
                               lru.highCapacity, lru.lowCapacity)
              else old(lru.pool) <= lru.pool
    {
      hide Sound, LruList.PriorityList.Valid, LruTable.HandleTable.Valid, Kept, Needed, Newest, LruList.Except, Vacated, AllKept,
           NamesKept, OrderKept, JoinedPools;
      e, deleted := CreateWithRoom(k, charge, priority);
      ghost var mid, list, m := h, lru.list, table.m;
      if usage + charge > capacity && (strict || !wantHandle) {
        status := if wantHandle then MemoryLimit else Ok;
        LruList.ExceptNone(lru.list, e);
        Ordered(old(lru.list), deleted, list, list, e, LruTable.NULL);
        NamesStay(old(table.m), m, k, e, deleted);
      } else {
        ghost var pool := lru.pool;
        var replaced := Enter(e, wantHandle);
        if !wantHandle {
          VacatedNone(list);
          PoolsBefore(Target(h[e], highRatio, lowRatio), old(lru.pool), pool, old(lru.list), deleted, e, lru.charge, lru.list, lru.nb,
                      lru.nl, lru.highCapacity, lru.lowCapacity, list, replaced);
        }
        VacatedEmpty(list, replaced);
        status := if replaced == LruTable.NULL then Ok else OkOverwritten;
        KeptTwice(old(h), mid, h);
        Ordered(old(lru.list), deleted, list, lru.list, e, replaced);
        NamesEnter(old(table.m), m, k, e, deleted);
      }
    }

    /** A new handle, and room for it as far as eviction can make it. */
    method CreateWithRoom(k: Name, charge: nat, priority: Priority) returns (e: nat, deleted: seq<nat>)
      requires Valid() && k.hash < LruTable.HASH_LIMIT
      modifies this`h, this`usage, table, lru
      ensures Valid() && 0 < e == |old(h)| && |h| == e + 1 == |lru.charge| == |table.name| && lru.charge[e] == charge
      ensures table.name[e] == k && h[e] == Handle(0, false, false, false, priority) && usage <= old(usage)
      ensures usage + charge > capacity ==> lru.list == []
      ensures deleted + lru.list == old(lru.list) && Needed(lru.charge, deleted, old(usage), charge, capacity)
      ensures usage + charge <= capacity <==> Fits(old(usage), lru.charge, deleted, charge, capacity)
      ensures !Fits(old(usage), lru.charge, deleted, charge, capacity) ==> deleted == old(lru.list)
      ensures e !in lru.list && forall n :: n in table.m ==> table.m[n] != e && table.m[n] !in deleted
      ensures old(lru.pool) <= lru.pool && forall x :: x in old(lru.list) ==> x < |old(lru.pool)|
      ensures lru.highCapacity == old(lru.highCapacity) && lru.lowCapacity == old(lru.lowCapacity)
      ensures AllKept(old(h), h)
      ensures forall n :: n in table.m ==> n in old(table.m) && table.m[n] == old(table.m)[n]
      ensures forall n :: n in old(table.m) ==> n in table.m || old(table.m)[n] in deleted
    {
      hide Sound, LruList.PriorityList.Valid, LruTable.HandleTable.Valid, OnlyEvicted, More, Kept, Needed, LruList.Sum;
      SoundSizes(View());
      lru.Facts();
      e := CreateHandle(k, charge, priority);
      Created(View(), old(View()), k, charge, priority);
      ghost var s := View();
      NotInTable(s, e);
      deleted := EvictFromLRU(charge);
      NotEvicted(s, View(), deleted, e);
      NotInTable(View(), e);
      EvictedGone(s, View(), deleted);
      EvictedKept(s, View(), deleted);
    }

    /** A handle that is never in the table, with one reference, if it may be charged or go without charge. */
    method CreateStandalone(k: Name, charge: nat, allowUncharged: bool) returns (r: int, deleted: seq<nat>)
      requires Valid() && k.hash < LruTable.HASH_LIMIT
      modifies this`h, this`usage, table, lru
      ensures Valid()
      // It is refused exactly if there is no room after the evictions, the limit is strict and it may not go
      // uncharged; it goes uncharged exactly if there is no room and the limit is strict.
      ensures r < 0 <==> strict && !allowUncharged && !Fits(old(usage), old(lru.charge), deleted, charge, capacity)
      ensures r >= 0 ==> r < |h| == |lru.charge| && h[r].live && !h[r].inCache && h[r].refs == 1
      ensures r >= 0 ==>
                lru.charge[r] == if strict && !Fits(old(usage), old(lru.charge), deleted, charge, capacity) then 0 else charge
      ensures strict && old(usage) <= capacity ==> usage <= capacity
      ensures deleted + lru.list == old(lru.list) && Needed(old(lru.charge), deleted, old(usage), charge, capacity)
      ensures !Fits(old(usage), old(lru.charge), deleted, charge, capacity) ==> deleted == old(lru.list)
      ensures |h| >= |old(h)| && forall x :: 0 <= x < |old(h)| ==> Kept(old(h)[x], h[x])
      ensures old(lru.pool) <= lru.pool && lru.highCapacity == old(lru.highCapacity) && lru.lowCapacity == old(lru.lowCapacity)
    {
      hide Sound, LruList.PriorityList.Valid, LruTable.HandleTable.Valid, OnlyEvicted, More, Kept;
      ghost var s := View();
      deleted := EvictFromLRU(charge);
      EvictedKept(s, View(), deleted);
      var uncharged := strict && usage + charge > capacity;
      if uncharged && !allowUncharged {
        return LruTable.NULL, deleted;
      }
      r := AddStandalone(k, if uncharged then 0 else charge);
    }

    /** A live handle outside the table, with one reference. */
    method AddStandalone(k: Name, charge: nat) returns (e: nat)
      requires Valid() && k.hash < LruTable.HASH_LIMIT && (usage + charge > capacity ==> lru.list == [])
      modifies this`h, this`usage, table, lru
      ensures Valid() && lru.list == old(lru.list) && usage == old(usage) + charge && e < |h| == |lru.charge|
      ensures |h| == |old(h)| + 1 && e == |old(h)| && forall x :: 0 <= x < |old(h)| ==> h[x] == old(h)[x]
      ensures h[e] == Handle(1, true, false, false, Bottom) && lru.charge[e] == charge
      ensures old(lru.pool) <= lru.pool && lru.highCapacity == old(lru.highCapacity) && lru.lowCapacity == old(lru.lowCapacity)
    {
      hide Sound, LruList.PriorityList.Valid, LruTable.HandleTable.Valid, OnlyEvicted, More;
      ghost var before := View();
      SoundSizes(before);
      e := CreateHandle(k, charge, Bottom);
      Created(View(), before, k, charge, Bottom);
      StandaloneOk(View(), e);
      h := h[e := h[e].(live := true, refs := 1)];
      usage := usage + lru.charge[e];
    }

    // ---- Settings ----

    /** A new capacity: entries that no longer fit are evicted. The pool ends are left where they are. */
    method SetCapacity(c: nat) returns (deleted: seq<nat>)
      requires Valid()
      modifies this`h, this`usage, this`capacity, table, lru
      ensures Valid() && capacity == c && usage <= old(usage)
      ensures deleted + lru.list == old(lru.list) && Needed(lru.charge, deleted, old(usage), 0, c)
      ensures |h| == |old(h)| && forall x :: 0 <= x < |h| ==> Kept(old(h)[x], h[x])
      ensures lru.highCapacity == PoolCapacity(c, highRatio) && lru.lowCapacity == PoolCapacity(c, lowRatio)
      ensures lru.pool == old(lru.pool)
    {
      hide Sound, LruList.Ok, LruTable.HandleTable.Valid, OnlyEvicted, PoolCapacity, Kept;
      SameState(View(), c);
      capacity := c;
      lru.highCapacity, lru.lowCapacity := PoolCapacity(c, highRatio), PoolCapacity(c, lowRatio);
      ghost var s := View();
      deleted := EvictFromLRU(0);
      EvictedKept(s, View(), deleted);
    }

    method SetStrictCapacityLimit(b: bool)
      requires Valid()
      modifies this`strict
      ensures Valid() && strict == b
    {
      hide Sound, LruList.PriorityList.Valid, LruTable.HandleTable.Valid;
      strict := b;
    }

    /** A new share for the high pool; entries overflow to lower pools until both are within their capacity. */
    method SetHighPriorityPoolRatio(ratio: real)
      requires Valid()
      modifies this`highRatio, lru
      ensures Valid() && highRatio == ratio && lru.list == old(lru.list)
      ensures lru.highUsage <= lru.highCapacity == PoolCapacity(capacity, ratio) && lru.lowUsage <= lru.lowCapacity
      ensures lru.lowCapacity == old(lru.lowCapacity)
      ensures LruList.Overflowed(lru.charge, lru.list, old(lru.nb), old(lru.nl), lru.nb, lru.nl, lru.highCapacity, lru.lowCapacity)
    {
      hide Sound, LruList.Ok, LruTable.HandleTable.Valid, LruList.Overflowed;
      highRatio := ratio;
      lru.highCapacity := PoolCapacity(capacity, ratio);
      lru.MaintainPoolSize();
    }

    method SetLowPriorityPoolRatio(ratio: real)
      requires Valid()
      modifies this`lowRatio, lru
      ensures Valid() && lowRatio == ratio && lru.list == old(lru.list)
      ensures lru.highUsage <= lru.highCapacity && lru.lowUsage <= lru.lowCapacity == PoolCapacity(capacity, ratio)
      ensures lru.highCapacity == old(lru.highCapacity)
      ensures LruList.Overflowed(lru.charge, lru.list, old(lru.nb), old(lru.nl), lru.nb, lru.nl, lru.highCapacity, lru.lowCapacity)
    {
      hide Sound, LruList.Ok, LruTable.HandleTable.Valid, LruList.Overflowed;
      lowRatio := ratio;
      lru.lowCapacity := PoolCapacity(capacity, ratio);
      lru.MaintainPoolSize();
    }

    /** Frees every entry that is not referenced. */
    method EraseUnRefEntries()
      requires Valid()
      modifies this`h, this`usage, table, lru
      ensures Valid() && lru.list == [] && usage <= old(usage)
      ensures OnlyEvicted(old(View()), View(), old(lru.list))
    {
      hide Sound, LruList.PriorityList.Valid, LruTable.HandleTable.Valid, OnlyEvicted;
      ghost var s, deleted := View(), [];
      NoneEvicted(s);
      while !lru.IsEmpty()
        invariant Consistent() && capacity == s.capacity && usage <= s.usage
        invariant deleted + lru.list == s.list && OnlyEvicted(s, View(), deleted)
        decreases |lru.list|
      {
        ghost var before := View();
        OnList(before, lru.list[0]);
        var x := EvictOne();
        OneEvicted(s, before, View(), deleted, x);
        deleted := deleted + [x];
      }
      assert deleted == s.list;
    }
  }

  datatype Status = Ok | OkOverwritten | MemoryLimit

  /** A pool's share of the capacity, cut to a whole number. */
  function PoolCapacity(capacity: nat, ratio: real): nat
  {
    var c := (capacity as real * ratio).Floor;
    if c < 0 then 0 else c
  }

  lemma EmptyShard(s: State)
    requires |s.h| == |s.charge| == |s.name| == 1 && !s.h[0].live && s.m == map[] && s.list == [] && s.usage == 0
    requires s.name[0].hash == 0
    ensures Sound(s)
  {
    assert HandleOk(s, 0);
    assert LiveSum(s.h, s.charge, 0) == 0;
  }

  /** A handle that a lookup returns. */
  function Found(a: Handle): Handle { a.(refs := a.refs + 1, hit := true) }

  lemma InMap(s: State, k: Name)
    requires Sound(s) && k in s.m
    ensures var x := s.m[k]; 0 < x < |s.h| == |s.name| == |s.charge| && s.name[x] == k && InTable(s, x)
    ensures var x := s.m[k]; s.h[x].live && s.h[x].inCache && (s.h[x].refs == 0 <==> x in s.list)
  {
    assert HandleOk(s, s.m[k]) && HandleOk(s, 0);
  }

  lemma FoundOk(s: State, x: nat, list: seq<nat>)
    requires Sound(s) && x < |s.h| == |s.name| && InTable(s, x) && forall y :: y in list <==> y in s.list && y != x
    ensures Sound(s.(h := s.h[x := Found(s.h[x])], list := list))
  {
    hide LiveSum;
    assert HandleOk(s, x) && HandleOk(s, 0);
    OneChanged(s, s.(h := s.h[x := Found(s.h[x])], list := list), x);
  }

  /** Between s and t only entries of the LRU list were evicted: they left the table and were freed. */
  ghost predicate OnlyEvicted(s: State, t: State, deleted: seq<nat>)
  {
    && |t.h| == |s.h| && t.charge == s.charge && t.name == s.name
    && (forall x :: 0 <= x < |s.h| ==> t.h[x] == if x in deleted then s.h[x].(inCache := false, live := false) else s.h[x])
    && (forall x :: x in deleted ==> x in s.list)
    && (forall k :: k in t.m ==> k in s.m && t.m[k] == s.m[k])
    && (forall k :: k in s.m ==> k in t.m || s.m[k] in deleted)
  }

  lemma NoneEvicted(s: State)
    ensures OnlyEvicted(s, s, [])
  {
  }

  lemma OneEvicted(s: State, t: State, u: State, deleted: seq<nat>, x: nat)
    requires OnlyEvicted(s, t, deleted) && x in t.list && deleted + t.list == s.list
    requires Sound(t) && x < |t.h| == |t.name| == |t.charge| && u == Dropped(t, x, u.list)
    ensures OnlyEvicted(s, u, deleted + [x])
  {
    hide LiveSum;
    assert HandleOk(t, x);
    assert x in s.list;
  }

  function Target(a: Handle, highRatio: real, lowRatio: real): LruList.Pool
  {
    if highRatio > 0.0 && (a.priority == High || a.hit) then LruList.High
    else if lowRatio > 0.0 && (a.priority != Bottom || a.hit) then LruList.Low
    else LruList.Bottom
  }

  /** The list without the handle that was replaced, if there is one. */
  ghost function Vacated(list: seq<nat>, replaced: int): seq<nat>
  {
    if replaced >= 0 then LruList.Except(list, replaced) else list
  }

  lemma VacatedNone(list: seq<nat>)
    ensures Vacated(list, LruTable.NULL) == list
  {
  }

  lemma VacatedEmpty(list: seq<nat>, replaced: int)
    ensures list == [] ==> Vacated(list, replaced) == []
  {
  }

  /** The handle that an insert replaced. */
  ghost function Overwritten(status: Status, m: map<Name, nat>, k: Name): int
  {
    if status == OkOverwritten && k in m then m[k] else LruTable.NULL
  }

  /** Evicting fewer entries than these, the oldest first, would not have made room. */
  ghost predicate Needed(charge: seq<nat>, deleted: seq<nat>, usage: int, wanted: nat, capacity: nat)
  {
    deleted != [] ==> usage - LruList.Sum(charge, deleted[..|deleted| - 1]) + wanted > capacity
  }

  lemma SumAfter(charge: seq<nat>, deleted: seq<nat>, x: nat)
    requires x < |charge|
    ensures LruList.Sum(charge, deleted + [x]) == LruList.Sum(charge, deleted) + charge[x]
    ensures (deleted + [x])[..|deleted|] == deleted
  {
    LruList.ChargeConcat(charge, deleted, [x]);
    LruList.SumOne(charge, x);
  }

  /** Entry e joined the front of its pool, and no other entry moved. */
  ghost predicate InFront(was: seq<nat>, nb: nat, nl: nat, target: LruList.Pool, e: nat, list: seq<nat>)
  {
    nb <= nl <= |was| && list == LruList.InsertedAt(was, LruList.Front(target, nb, nl, |was|), e)
  }

  /** Entry e is the newest of the whole list, or of the bottom pool. */
  ghost predicate Newest(list: seq<nat>, nb: nat, target: LruList.Pool, e: nat)
  {
    && (target == LruList.High ==> list != [] && list[|list| - 1] == e)
    && (target == LruList.Bottom ==> 0 < nb <= |list| && list[nb - 1] == e)
  }

  /**
   Entry e joined the front of a pool of a list whose other entries were in the pools given by `pool`: those keep their
   order and stay in their pools, but for as many as must overflow.
   */
  ghost predicate JoinedPools(target: LruList.Pool, pool: seq<LruList.Pool>, e: nat, charge: seq<nat>, list: seq<nat>, nb: nat,
                              nl: nat, highCapacity: nat, lowCapacity: nat)
  {
    var was := LruList.Except(list, e);
    var bottom, low := LruList.CountPool(pool, was, LruList.Bottom), LruList.CountPool(pool, was, LruList.Low);
    && InFront(was, bottom, bottom + low, target, e, list)
    && LruList.Joined(target, charge, list, bottom, bottom + low, nb, nl, highCapacity, lowCapacity)
  }

  lemma PoolsBefore(target: LruList.Pool, pool: seq<LruList.Pool>, pool': seq<LruList.Pool>, was: seq<nat>, deleted: seq<nat>, e: nat,
                    charge: seq<nat>, list: seq<nat>, nb: nat, nl: nat, highCapacity: nat, lowCapacity: nat, mid: seq<nat>, replaced: int)
    requires JoinedPools(target, pool', e, charge, list, nb, nl, highCapacity, lowCapacity) && pool <= pool'
    requires forall x :: x in was ==> x < |pool|
    requires deleted + mid == was && LruList.Except(list, e) == Vacated(mid, replaced)
    ensures JoinedPools(target, pool, e, charge, list, nb, nl, highCapacity, lowCapacity)
  {
    hide LruList.Joined, InFront;
    var others := LruList.Except(list, e);
    VacatedIn(mid, replaced);
    forall x | x in others
      ensures x < |pool|
    {
      assert x in mid && x in was;
    }
    LruList.CountSame(pool, pool', others, LruList.Bottom);
    LruList.CountSame(pool, pool', others, LruList.Low);
  }

  lemma VacatedIn(list: seq<nat>, replaced: int)
    ensures forall x :: x in Vacated(list, replaced) ==> x in list
  {
    if replaced >= 0 {
      LruList.ExceptIn(list, replaced);
    }
  }

  lemma FrontFacts(was: seq<nat>, nb: nat, nl: nat, target: LruList.Pool, e: nat, list: seq<nat>, nb': nat)
    requires InFront(was, nb, nl, target, e, list) && e !in was && (target == LruList.Bottom ==> nb' == nb + 1)
    ensures LruList.Except(list, e) == was && Newest(list, nb', target, e)
  {
    LruList.ExceptInserted(was, LruList.Front(target, nb, nl, |was|), e);
  }

  /** A freed entry is not in the table any more. */
  lemma EvictedGone(s: State, t: State, deleted: seq<nat>)
    requires OnlyEvicted(s, t, deleted) && Sound(t)
    ensures forall k :: k in t.m ==> t.m[k] !in deleted
  {
    hide LiveSum;
    forall k | k in t.m
      ensures t.m[k] !in deleted
    {
      assert HandleOk(t, t.m[k]);
    }
  }

  lemma RefsOk(s: State, x: nat, n: nat)
    requires Sound(s) && x < |s.h| && s.h[x].live && s.h[x].refs > 0 && n > 0
    ensures Sound(s.(h := s.h[x := s.h[x].(refs := n)]))
  {
    hide LiveSum;
    assert HandleOk(s, x) && HandleOk(s, 0);
    OneChanged(s, s.(h := s.h[x := s.h[x].(refs := n)]), x);
  }

  lemma HandleFacts(s: State, x: nat)
    requires Sound(s) && x < |s.h| && s.h[x].live
    ensures 0 < x < |s.name| == |s.charge| == |s.h| && s.name[x].hash < LruTable.HASH_LIMIT
    ensures (s.h[x].inCache <==> InTable(s, x)) && (x in s.list <==> s.h[x].inCache && s.h[x].refs == 0)
    ensures s.charge[x] <= s.usage
  {
    assert HandleOk(s, x) && HandleOk(s, 0);
    LiveSumMember(s.h, s.charge, |s.h|, x);
  }

  /** Handle x after one reference was given back. */
  ghost function Released(s: State, x: nat, freed: bool, list: seq<nat>): State
  {
    if x < |s.h| && x < |s.name| && x < |s.charge| && s.h[x].refs > 0 then
      s.(h := s.h[x := s.h[x].(refs := s.h[x].refs - 1, live := !freed, inCache := s.h[x].inCache && !freed)],
         m := if freed && s.h[x].inCache then s.m - {s.name[x]} else s.m,
         list := list,
         usage := if freed then s.usage - s.charge[x] else s.usage)
    else s
  }

  lemma NotLast(s: State, x: nat)
    requires x < |s.h| == |s.name| == |s.charge| && s.h[x].refs > 1 && s.h[x].live
    ensures Released(s, x, false, s.list) == s.(h := s.h[x := s.h[x].(refs := s.h[x].refs - 1)])
  {
  }

  lemma ReleaseOk(s: State, t: State, x: nat, freed: bool)
    requires Sound(s) && x < |s.h| == |s.name| == |s.charge| && s.h[x].live && s.h[x].refs > 0
    requires freed ==> s.h[x].refs == 1
    requires s.h[x].refs == 1 && !s.h[x].inCache ==> freed
    requires t == Released(s, x, freed, t.list)
    requires forall y :: y in t.list <==> y in s.list || (y == x && !freed && s.h[x].inCache && s.h[x].refs == 1)
    ensures Sound(t)
  {
    hide LiveSum;
    assert HandleOk(s, x) && HandleOk(s, 0);
    OneChanged(s, t, x);
  }

  /** One more handle, which is not live. */
  ghost function More(s: State, k: Name, c: nat, priority: Priority): State
  {
    s.(h := s.h + [Handle(0, false, false, false, priority)], charge := s.charge + [c], name := s.name + [k])
  }

  lemma MoreOk(s: State, k: Name, c: nat, priority: Priority)
    requires Sound(s) && k.hash < LruTable.HASH_LIMIT
    ensures Sound(More(s, k, c, priority))
  {
    hide LiveSum, Handles;
    assert 0 < |s.h| == |s.charge| == |s.name| by {
      SoundSizes(s);
    }
    var t := More(s, k, c, priority);
    MoreHandles(s, k, c, priority);
    LiveSumMore(s.h, s.charge, |s.h|, Handle(0, false, false, false, priority), c);
    LiveSumLast(t.h, t.charge);
  }

  lemma MoreHandles(s: State, k: Name, c: nat, priority: Priority)
    requires Handles(s) && k.hash < LruTable.HASH_LIMIT
    ensures Handles(More(s, k, c, priority))
  {
    var t := More(s, k, c, priority);
    forall x | 0 <= x < |t.h|
      ensures HandleOk(t, x)
    {
      if x < |s.h| {
        assert HandleOk(s, x);
      }
    }
  }

  lemma LiveSumLast(h: seq<Handle>, charge: seq<nat>)
    requires |h| == |charge| > 0 && !h[|h| - 1].live
    ensures LiveSum(h, charge, |h|) == LiveSum(h, charge, |h| - 1)
  {
  }

  lemma NotInTable(s: State, x: nat)
    requires Sound(s) && x < |s.h| && !s.h[x].live
    ensures forall k :: k in s.m ==> s.m[k] != x
    ensures x !in s.list && |s.h| == |s.name| == |s.charge|
  {
    assert HandleOk(s, x);
  }

  lemma SoundSizes(s: State)
    requires Sound(s)
    ensures |s.h| == |s.name| == |s.charge| > 0
  {
  }

  lemma NotListed(s: State, x: nat)
    requires Sound(s) && x < |s.h| && !s.h[x].live
    ensures x !in s.list
  {
    assert HandleOk(s, x);
  }

  /** Handle x enters the table. */
  ghost function Entering(s: State, x: nat): State
    requires x < |s.h| == |s.name| == |s.charge|
  {
    s.(h := s.h[x := s.h[x].(live := true, inCache := true)], m := s.m[s.name[x] := x], usage := s.usage + s.charge[x])
  }

  /** Putting handle e into the table and then taking out the one it replaced comes to the same as the other way round. */
  lemma Replaced(s: State, t: State, e: nat, x: nat)
    requires e != x && e < |s.h| == |s.name| == |s.charge| && x < |s.h| && s.name[e] == s.name[x] && s.h[x].live && s.h[x].inCache
    requires var unused := s.h[x].refs == 0;
             t == s.(h := s.h[e := s.h[e].(live := true, inCache := true)][x := s.h[x].(inCache := false, live := !unused)],
                     m := s.m[s.name[e] := e], list := t.list,
                     usage := s.usage + s.charge[e] - if unused then s.charge[x] else 0)
    ensures t == Entering(Dropped(s, x, t.list), e)
    ensures forall y :: 0 <= y < |s.h| && y != e ==> Kept(s.h[y], t.h[y])
  {
    assert t.h == Entering(Dropped(s, x, t.list), e).h;
  }

  lemma KeptAll(h: seq<Handle>, e: nat, a: Handle)
    requires e < |h|
    ensures forall y :: 0 <= y < |h| && y != e ==> Kept(h[y], h[e := a][y])
  {
  }

  /** Handle x enters the table, referenced or on the LRU list. */
  lemma EnterOk(s: State, t: State, x: nat, wantHandle: bool)
    requires Sound(s) && 0 < x < |s.h| == |s.name| == |s.charge| && !s.h[x].live && s.name[x] !in s.m
    requires t == s.(h := s.h[x := s.h[x].(live := true, inCache := true, refs := if wantHandle then 1 else 0)],
                     m := s.m[s.name[x] := x], list := t.list, usage := s.usage + s.charge[x])
    requires forall y :: y in t.list <==> y in s.list || (y == x && !wantHandle)
    ensures Sound(t)
  {
    hide LiveSum;
    assert HandleOk(s, x);
    OneChanged(s, t, x);
  }

  lemma Created(t: State, s: State, k: Name, c: nat, priority: Priority)
    requires |s.h| == |s.name| == |s.charge| && t == More(s, k, c, priority)
    ensures |t.h| == |t.name| == |t.charge| == |s.h| + 1 && !t.h[|s.h|].live && t.h[|s.h|].refs == 0
    ensures t.h[|s.h|] == Handle(0, false, false, false, priority) && forall y :: 0 <= y < |s.h| ==> t.h[y] == s.h[y]
    ensures t.charge[|s.h|] == c && t.name[|s.h|] == k && t.usage == s.usage && t.capacity == s.capacity
  {
  }

  lemma NotEvicted(s: State, t: State, deleted: seq<nat>, x: nat)
    requires OnlyEvicted(s, t, deleted) && x < |s.h| && x !in s.list
    ensures |t.h| == |s.h| && t.h[x] == s.h[x]
  {
  }

  /** A handle keeps its references; at most it leaves the cache, and is freed if it is not referenced. */
  predicate Kept(a: Handle, b: Handle)
  {
    b == a || (a.inCache && b == a.(inCache := false, live := a.live && a.refs > 0))
  }

  ghost predicate AllKept(a: seq<Handle>, b: seq<Handle>)
  {
    |a| <= |b| && forall y :: 0 <= y < |a| ==> Kept(a[y], b[y])
  }

  lemma KeptTwice(a: seq<Handle>, b: seq<Handle>, c: seq<Handle>)
    requires AllKept(a, b) && |c| == |b| && forall y :: 0 <= y < |a| ==> Kept(b[y], c[y])
    ensures AllKept(a, c)
  {
  }

  /** Names other than k keep their handles unless those were evicted, and so does k if e did not get in. */
  ghost predicate NamesKept(m: map<Name, nat>, m': map<Name, nat>, k: Name, e: nat, deleted: seq<nat>, entered: bool)
  {
    && (forall n :: n in m' && (n != k || !entered) ==> n in m && m'[n] == m[n])
    && (forall n :: n in m && (n != k || !entered) ==> n in m' || m[n] in deleted)
    && (entered ==> k in m' && m'[k] == e)
  }

  /** After n evictions and the loss of a replaced handle the entries other than e are in the same order. */
  ghost predicate OrderKept(was: seq<nat>, n: nat, list: seq<nat>, e: nat, replaced: int)
  {
    n <= |was| && LruList.Except(list, e) == Vacated(was[n..], replaced)
  }

  lemma Ordered(was: seq<nat>, deleted: seq<nat>, list: seq<nat>, list': seq<nat>, e: nat, replaced: int)
    requires deleted + list == was
    requires LruList.Except(list', e) == if replaced == LruTable.NULL then list else Vacated(list, replaced)
    ensures OrderKept(was, |deleted|, list', e, replaced)
  {
    assert was[|deleted|..] == list;
  }

  lemma NamesStay(m: map<Name, nat>, mid: map<Name, nat>, k: Name, e: nat, deleted: seq<nat>)
    requires forall n :: n in mid ==> n in m && mid[n] == m[n]
    requires forall n :: n in m ==> n in mid || m[n] in deleted
    ensures NamesKept(m, mid, k, e, deleted, false)
  {
  }

  lemma NamesEnter(m: map<Name, nat>, mid: map<Name, nat>, k: Name, e: nat, deleted: seq<nat>)
    requires forall n :: n in mid ==> n in m && mid[n] == m[n]
    requires forall n :: n in m ==> n in mid || m[n] in deleted
    ensures NamesKept(m, mid[k := e], k, e, deleted, true)
  {
  }

  /** The status says whether the entry got in, or was dropped at once as if it had been evicted. */
  ghost predicate Outcome(status: Status, a: Handle, wantHandle: bool)
  {
    && (a.live ==> a.inCache && a.refs == if wantHandle then 1 else 0)
    && (status == MemoryLimit <==> wantHandle && !a.live)
  }

  /** There is room for an entry after the evictions. */
  ghost predicate Fits(usage: int, charge: seq<nat>, deleted: seq<nat>, wanted: nat, capacity: nat)
  {
    usage - LruList.Sum(charge, deleted) + wanted <= capacity
  }

  lemma EvictedKept(s: State, t: State, deleted: seq<nat>)
    requires Sound(s) && OnlyEvicted(s, t, deleted)
    ensures |t.h| == |s.h| && forall y :: 0 <= y < |s.h| ==> Kept(s.h[y], t.h[y])
    ensures forall k :: k in t.m ==> k in s.m && t.m[k] == s.m[k]
    ensures forall k :: k in s.m ==> k in t.m || s.m[k] in deleted
  {
    hide LiveSum;
    forall y | 0 <= y < |s.h|
      ensures Kept(s.h[y], t.h[y])
    {
      assert HandleOk(s, y);
    }
  }

  lemma StandaloneOk(s: State, x: nat)
    requires Sound(s) && 0 < x < |s.h| == |s.charge| && !s.h[x].live && !s.h[x].inCache
    ensures Sound(s.(h := s.h[x := s.h[x].(live := true, refs := 1)], usage := s.usage + s.charge[x]))
  {
    hide LiveSum;
    assert HandleOk(s, x);
    OneChanged(s, s.(h := s.h[x := s.h[x].(live := true, refs := 1)], usage := s.usage + s.charge[x]), x);
  }

  lemma SameState(s: State, c: nat)
    requires Sound(s)
    ensures Sound(s.(capacity := c))
  {
    hide LiveSum;
    var t := s.(capacity := c);
    forall x | 0 <= x < |t.h|
      ensures HandleOk(t, x)
    {
      assert HandleOk(s, x);
    }
  }

  lemma OnList(s: State, x: nat)
    requires Sound(s) && x in s.list
    ensures 0 < x < |s.h| == |s.name| == |s.charge| && InTable(s, x) && s.h[x].live && s.h[x].refs == 0
    ensures s.name[x].hash < LruTable.HASH_LIMIT
  {
    assert x < |s.h| && HandleOk(s, x) && HandleOk(s, 0);
  }
}
