/**
 The growable clock table as one thread sees it: slots with a metadata word and a key, one chain per
 home index, and linear hashing between them. Every operation keeps each entry on exactly one chain,
 the one of its home.
 */
module AutoTable {
  import opened Bits
  import opened LinearHashing
  import opened HashedKeys
  import opened ChainLinks
  import opened ChainSides
  import opened ChainSplit
  import opened ChainPurge
  import opened SlotMeta
  import opened SlotSearch

  /** A table: memory, metadata, keys, number of heads in use, and the slots on the chain of each head. */
  datatype Tab = Tab(m: Mem, meta: seq<Meta>, key: seq<Key>, used: nat, paths: seq<seq<nat>>)

  ghost predicate Sizes(t: Tab)
  {
    && |t.m.head| == |t.m.next| == |t.m.hash| == |t.meta| == |t.key|
    && 4 <= t.used <= |t.m.head| && |t.paths| == t.used && t.m.inflight == {}
  }

  ghost predicate HasEntry(t: Tab, x: nat)
    requires x < |t.meta|
  {
    t.meta[x].state != Empty
  }

  ghost function Home(t: Tab, x: nat): nat
    requires Sizes(t) && x < |t.meta|
  {
    HomeIndex(t.used, t.m.hash[x])
  }

  /** The chain of head `h` is acyclic, ends at `h`, and holds only entries with that home. */
  ghost predicate ChainOk(t: Tab, h: nat)
    requires Sizes(t) && h < t.used
  {
    && ChainAt(t.m.head, t.m.next, h, HeadShift(t.used, h), t.paths[h])
    && NoDup(t.paths[h])
    && forall x :: x in t.paths[h] ==> x < t.used && HasEntry(t, x) && Home(t, x) == h
  }

  /** An entry is on the chain of its home; a free slot is on none. */
  ghost predicate SlotOk(t: Tab, x: nat)
    requires Sizes(t) && x < |t.meta|
  {
    && t.m.hash[x] == t.key[x].hash
    && (HasEntry(t, x) ==> x < t.used && Home(t, x) < t.used && x in t.paths[Home(t, x)])
  }

  ghost predicate TabOk(t: Tab)
  {
    && Sizes(t)
    && (forall h :: 0 <= h < t.used ==> ChainOk(t, h))
    && (forall x :: 0 <= x < |t.meta| ==> SlotOk(t, x))
    && (forall h :: t.used <= h < |t.m.head| ==> t.m.head[h] == UnusedLink)
  }

  class GrowableTable {
    const states: SlotStates
    // The hashed key stored in each slot.
    var key: seq<Key>
    // Heads in use; the published length and, with one thread, also the growth frontier.
    var used: nat
    ghost var paths: seq<seq<nat>>

    ghost function View(): Tab
      reads this, states, states.chains
    {
      Tab(states.chains.View(), states.meta, key, used, paths)
    }

    /** The index is right and no operation is under way. */
    ghost predicate Valid()
      reads this, states, states.chains
    {
      TabOk(View()) && AtRest(states.meta) && states.pending == 0
    }

    /** An empty table of `start` heads in an array of `capacity` slots. */
    constructor (capacity: nat, start: nat)
      requires 4 <= start <= capacity
      ensures Valid() && fresh(states) && fresh(states.chains)
      ensures used == start && |states.meta| == capacity && forall x :: 0 <= x < capacity ==> states.meta[x] == EmptyMeta
    {
      var chains := new ChainArray(capacity);
      PopulateHeads(chains, start);
      states := new SlotStates(chains, seq(capacity, _ => EmptyMeta), 0);
      key := seq(capacity, _ => Key(0, 0));
      used := start;
      paths := seq(start, _ => []);
      new;
      FreshOk(View());
    }

    // ---- Lookup ----

    /** The quick attempt: at most ten hops, and a reference only where the key seems to match. */
    method NaiveLookup(k: Key, home: nat) returns (r: int)
      requires Valid() && home == HomeIndex(used, k.hash) < used
      modifies states`meta
      ensures Taken(old(View()), View(), k, r) && home < |old(paths)|
      ensures Among(old(View()), k, old(paths)[home], 10, r)
    {
      hide Seg, NoDup, HomeIndex, TabOk, HeadShift, Passed, Matches, Among;
      r := -1;
      ghost var t := View();
      PassedStart(t, k, home);
      var link, i := states.chains.head[home], 0;
      ghost var seen, left, last: int := [], paths[home], -1;
      while !link.end && i < 10
        invariant Passed(t, k, seen, left, link, last, home) && states.meta == t.meta && i == |seen| <= 10
        decreases |left|
      {
        PassedNext(t, k, seen, left, link, last, home);
        var h := link.idx;
        if key[h] == k {
          var hit := TakeIfVisible(h);
          if hit {
            FoundAmong(t, k, seen, left, link, last, home);
            return h;
          }
        }
        link := states.chains.next[h];
        seen, left, last := seen + [h], left[1..], h;
        i := i + 1;
      }
      NotAmong(t, k, seen, left, link, last, home);
    }

    /** Takes a reference on an entry, and keeps it if the entry is visible. */
    method TakeIfVisible(h: nat) returns (hit: bool)
      requires h < |states.meta|
      modifies states`meta
      ensures hit == (old(states.meta)[h].state == Visible)
      ensures if hit then states.meta == WithRef(old(states.meta), h)
              else old(states.meta)[h].Shareable() ==> states.meta == old(states.meta)
    {
      var m := AddRef(h);
      hit := m.state == Visible;
      if m.Shareable() && !hit {
        DropRef(h);
      }
    }

    /** Adds to the acquire counter and returns the metadata from before. */
    method AddRef(h: nat) returns (was: Meta)
      requires h < |states.meta|
      modifies states`meta
      ensures was == old(states.meta)[h] && states.meta == WithRef(old(states.meta), h)
    {
      was := states.meta[h];
      states.meta := states.meta[h := states.meta[h].(acquire := states.meta[h].acquire + 1)];
    }

    /** Takes back a reference, so that it does not count as a use. */
    method DropRef(h: nat)
      requires h < |states.meta| && states.meta[h].acquire > 0
      modifies states`meta
      ensures states.meta == old(states.meta)[h := Unref(old(states.meta)[h])]
    {
      states.meta := states.meta[h := Unref(states.meta[h])];
    }

    /** Takes a reference on `h` and gives up the one on the entry before, if any. */
    method HopRef(readRef: int, h: nat, ghost base: seq<Meta>) returns (was: Meta)
      requires readRef < |base| && h < |base| && readRef != h && states.meta == WithRef(base, readRef)
      modifies states`meta
      ensures was == base[h] && states.meta == WithRef(base, h)
    {
      was := AddRef(h);
      Swap2(base, readRef, h);
      if readRef >= 0 {
        DropRef(readRef);
      }
    }

    /** The full walk, with a reference kept on the last entry passed. */
    method FullLookup(k: Key, home: nat) returns (r: int)
      requires Valid() && home == HomeIndex(used, k.hash) < used
      modifies states`meta
      ensures Taken(old(View()), View(), k, r)
      ensures r < 0 ==> forall x :: x in paths[home] ==> !Matches(View(), x, k)
    {
      hide Seg, NoDup, HomeIndex, TabOk, HeadShift, Passed, Matches;
      ghost var t := View();
      PassedStart(t, k, home);
      var link, readRef := states.chains.head[home], -1;
      ghost var seen, left := [], paths[home];
      while !link.end
        invariant Passed(t, k, seen, left, link, readRef, home)
        invariant readRef < |states.meta| == |t.meta| && states.meta == WithRef(t.meta, readRef)
        decreases |left|
      {
        PassedNext(t, k, seen, left, link, readRef, home);
        var h := link.idx;
        assert BottomBits(key[h].hash, link.shift) == home;
        var m := HopRef(readRef, h, t.meta);
        if key[h] == k && m.state == Visible {
          return h;
        }
        readRef := h;
        link := states.chains.next[h];
        seen, left := seen + [h], left[1..];
      }
      PassedAll(t, k, seen, left, link, readRef, home);
      assert link.idx == home;
      if readRef >= 0 {
        DropRef(readRef);
      }
      r := -1;
    }

    /** A handle for a visible entry with key `k`, with a reference, if and only if there is one. */
    method Lookup(k: Key) returns (r: int)
      requires Valid()
      modifies states`meta
      ensures Valid()
      ensures Taken(old(View()), View(), k, r)
      ensures r >= 0 <==> exists x :: Matches(old(View()), x, k)
    {
      hide Seg, NoDup, HomeIndex, ChainOk, SlotOk, HeadShift;
      HomeIndexInRange(used, k.hash);
      var home := HomeIndex(used, k.hash);
      r := NaiveLookup(k, home);
      if r < 0 {
        r := FullLookup(k, home);
      }
      TakenOk(old(View()), View(), k, r);
      if r < 0 {
        NoMatch(old(View()), k, home);
      }
    }

    // ---- Insert ----

    /**
     Adds an entry unless a slot that is looked at already holds the key; then that entry is only marked
     as used. The caller learns which, or that no slot is free. `saved` is the length from when the insert
     began; since then it may have grown the table, and `likely` is a slot that it opened, or 0. An entry with
     the key in that slot is marked as used, too.
     */
    method Insert(k: Key, countdown: nat, takeRef: bool, saved: nat, likely: nat) returns (f: Found, noted: bool)
      requires Valid() && 0 < countdown && k.hash < 0x1_0000_0000_0000_0000 && 4 <= saved <= used && likely < used
      modifies this`key, this`paths, states`meta, states.chains
      ensures Valid()
      ensures f.Slot? ==>
                f.idx < old(used) && old(states.meta)[f.idx].state == Empty &&
                View() == Inserted(Noted(old(View()), noted, likely, countdown), f.idx, k, NewMeta(countdown, takeRef))
      ensures f.Match? ==>
                Matches(old(View()), f.idx, k) &&
                View() == Noted(Noted(old(View()), noted, likely, countdown), true, f.idx, countdown)
      ensures f.GaveUp? ==>
                View() == Noted(old(View()), noted, likely, countdown) &&
                forall x :: 0 <= x < saved ==> states.meta[x].state != Empty && !Matches(View(), x, k)
      // The home slot of the old length comes first, then the likely slot.
      ensures InOrder(old(states.meta), old(key), k, HomeIndex(saved, k.hash), likely, f, noted)
    {
      hide TabOk, HomeIndex;
      TabSizes(View());
      HomeIndexInRange(saved, k.hash);
      f, noted := FindSlot(k, saved, likely);
      ghost var t := Noted(View(), noted, likely, countdown);
      NotedOk(View(), noted, likely, countdown);
      if noted {
        states.meta := states.meta[likely := Boosted(states.meta[likely], countdown)];
      }
      assert View() == t;
      match f
      case GaveUp =>
      case Match(idx) =>
        NotedOk(t, true, idx, countdown);
        states.meta := states.meta[idx := Boosted(states.meta[idx], countdown)];
      case Slot(idx) =>
        FillAndLink(idx, k, countdown, takeRef, saved);
    }

    /** Looks for a free slot or an entry with the key. */
    method FindSlot(k: Key, saved: nat, likely: nat) returns (f: Found, noted: bool)
      requires Valid() && k.hash < 0x1_0000_0000_0000_0000 && 4 <= saved <= used && likely < used
      ensures f.Slot? ==> f.idx < used <= |states.meta| && states.meta[f.idx].state == Empty
      ensures f.Match? ==> Matches(View(), f.idx, k)
      ensures f.GaveUp? ==> used <= |states.meta| && forall x :: 0 <= x < saved ==> states.meta[x].state != Empty && !Matches(View(), x, k)
      ensures InOrder(states.meta, key, k, HomeIndex(saved, k.hash), likely, f, noted)
    {
      hide ChainOk, SlotOk, HomeIndex;
      var probes := [];
      while |probes| < used
        invariant |probes| <= used
        invariant forall x :: 0 <= x < |probes| ==> probes[x] == ProbeOf(states.meta[x], key[x], k)
      {
        var x := |probes|;
        probes := probes + [ProbeOf(states.meta[x], key[x], k)];
      }
      HomeIndexInRange(saved, k.hash);
      f, noted := Search(probes, saved, used, HomeIndex(saved, k.hash), likely, k.hash);
    }

    /** Fills a free slot and links it in front of the chain of its home, which is found from the old length. */
    method FillAndLink(idx: nat, k: Key, countdown: nat, takeRef: bool, saved: nat)
      requires Valid() && 0 < countdown && idx < used <= |states.meta| && states.meta[idx].state == Empty
      requires 4 <= saved <= used
      modifies this`key, this`paths, states`meta, states.chains
      ensures Valid()
      ensures View() == Inserted(old(View()), idx, k, NewMeta(countdown, takeRef))
    {
      hide TabOk, HomeIndex, HashShift, HeadShift;
      ghost var t := View();
      TabSizes(t);
      HomeIndexInRange(used, k.hash);
      var home, shift := HomeIndex(saved, k.hash), HashShift(saved, k.hash);
      ghost var now := HomeIndex(used, k.hash);
      states.meta := states.meta[idx := Meta(Visible, countdown, countdown - 1, false)];
      key := key[idx := k];
      states.chains.hash := states.chains.hash[idx := k.hash];
      WayForward(t, saved, k.hash);
      var h := states.chains.LinkAtHead(idx, home, shift, HashShift(used, k.hash));
      if !takeRef {
        DropRef(idx);
      }
      paths := paths[now := [idx] + paths[now]];
      assert states.meta == t.meta[idx := NewMeta(countdown, takeRef)];
      assert View() == Inserted(t, idx, k, NewMeta(countdown, takeRef));
      InsertOk(t, idx, k, NewMeta(countdown, takeRef));
    }

    // ---- Growth ----

    /** Opens one more head, unless the array is used up. No entry changes. */
    method Grow() returns (ok: bool)
      requires Valid()
      modifies this`used, this`paths, states.chains
      ensures Valid() && states.meta == old(states.meta) && key == old(key)
      ensures ok == (old(used) < |states.meta|) && used == old(used) + if ok then 1 else 0
    {
      hide Seg, NoDup, HomeIndex, ChainOk, SlotOk, HeadShift, Restrict, Belongs, LooseFrame, Elems;
      if used >= |states.chains.head| {
        return false;
      }
      var oldHome, oldShift := SplitHome(used), FloorLog2(used);
      ghost var t := View();
      GrowReady(t);
      ghost var base, zero, one := states.chains.SplitForGrow(used, oldHome, oldShift, paths[oldHome]);
      GrowDone(t, states.chains.View(), base, zero, one);
      used := used + 1;
      paths := paths[oldHome := zero] + [one];
      ok := true;
    }

    // ---- Removal ----

    /** Gives back a reference; the last one of an invisible entry, or of any entry on request, frees it. */
    method Release(h: nat, useful: bool, eraseIfLast: bool) returns (gone: bool)
      requires Valid() && h < |states.meta| && states.meta[h].Shareable() && states.meta[h].acquire > states.meta[h].release
      modifies this`paths, states, states.chains
      ensures Valid()
      ensures gone == ((eraseIfLast || old(states.meta)[h].state == Invisible) && old(states.meta)[h].Refs() == 1)
      ensures states.meta == old(states.meta)[h := if gone then EmptyMeta else GivenBack(old(states.meta)[h], useful)]
    {
      hide TabOk;
      var m := states.meta[h];
      states.meta := states.meta[h := GivenBack(m, useful)];
      MetaOnly(old(View()), states.meta);
      gone := false;
      if eraseIfLast || m.state == Invisible {
        gone := TryEraseHandle(h, false, false);
      }
    }

    /** Hides the entry if asked to, and frees it if nobody but the caller refers to it. */
    method TryEraseHandle(h: nat, holdingRef: bool, markInvisible: bool) returns (gone: bool)
      requires Valid() && h < |states.meta| && states.meta[h].Shareable()
      modifies this`paths, states, states.chains
      ensures Valid()
      ensures gone == (old(states.meta)[h].Refs() == if holdingRef then 1 else 0)
      ensures states.meta == old(states.meta)[h := if gone then EmptyMeta
                                                   else if markInvisible then old(states.meta)[h].(state := Invisible)
                                                   else old(states.meta)[h]]
    {
      hide TabOk;
      if markInvisible {
        states.meta := states.meta[h := states.meta[h].(state := Invisible)];
        MetaOnly(old(View()), states.meta);
      }
      gone := states.meta[h].Refs() == if holdingRef then 1 else 0;
      if gone {
        FreeSlot(h);
      }
    }

    /** Erases the entry that a lookup just found, and gives up the reference from it. */
    method EraseFound(h: nat, ghost before: seq<Meta>)
      requires Valid() && AtRest(before) && h < |before| && states.meta == WithRef(before, h) && before[h].state == Visible
      modifies this`paths, states, states.chains
      ensures Valid()
      ensures states.meta == before[h := Erased(before[h])]
    {
      hide TabOk;
      var gone := TryEraseHandle(h, true, true);
      if !gone {
        ghost var t := View();
        DropRef(h);
        MetaOnly(t, states.meta);
      }
    }

    /** Erases every visible entry with key `k`: freed if nobody refers to it, otherwise hidden. */
    method Erase(k: Key)
      requires Valid()
      modifies this`paths, states, states.chains
      ensures Valid()
      ensures states.meta == ErasedAll(old(View()), k)
      ensures !exists x :: Matches(View(), x, k)
    {
      hide TabOk;
      ghost var t := View();
      TabSizes(t);
      ghost var todo := set x | 0 <= x < |t.meta| && Matches(t, x, k);
      while true
        invariant Valid() && key == t.key && used == t.used && |states.meta| == |t.meta|
        invariant forall x :: x in todo <==> Matches(View(), x, k)
        invariant forall x :: 0 <= x < |t.meta| ==>
                    states.meta[x] == if Matches(t, x, k) && x !in todo then Erased(t.meta[x]) else t.meta[x]
        decreases todo
      {
        ghost var before := View();
        var h := Lookup(k);
        if h < 0 {
          break;
        }
        EraseFound(h, before.meta);
        todo := todo - {h};
      }
      assert states.meta == ErasedAll(t, k);
    }

    /** Frees every entry without references. */
    method EraseUnRefEntries()
      requires Valid()
      modifies this`paths, states, states.chains
      ensures Valid()
      ensures |states.meta| == |old(states.meta)| && forall x :: 0 <= x < |states.meta| ==>
                states.meta[x] == if old(states.meta)[x].Shareable() && old(states.meta)[x].Refs() == 0 then EmptyMeta
                                  else old(states.meta)[x]
    {
      hide TabOk;
      ghost var t := View();
      TabSizes(t);
      var i := 0;
      while i < used
        invariant i <= used == t.used && Valid() && |states.meta| == |t.meta|
        invariant forall x :: 0 <= x < |t.meta| ==>
                    states.meta[x] == if x < i && t.meta[x].Shareable() && t.meta[x].Refs() == 0 then EmptyMeta else t.meta[x]
      {
        if states.meta[i].Shareable() && states.meta[i].Refs() == 0 {
          FreeSlot(i);
        }
        i := i + 1;
      }
      forall x | used <= x < |t.meta|
        ensures t.meta[x].state == Empty
      {
        BeyondUsed(t, x);
      }
    }

    /**
     Locks the chain of `home`, purges it and unlocks it. Entries taken by clock updates are returned, and how
     many were pinned; `left` is what remains on the chain.
     */
    method PurgeHome(home: nat, clock: bool) returns (evicted: seq<nat>, pinned: nat, ghost left: seq<nat>)
      requires TabOk(View()) && states.pending == 0 && home < used
      modifies states, states.chains
      ensures states.pending == 0
      ensures Filtered(old(states.meta), states.meta, clock, paths[home], left, evicted)
      ensures pinned == |Restrict(paths[home], PinnedSet(old(states.meta), clock))|
      ensures LooseFrame(old(states.chains.View()), states.chains.View(), {home},
                         Belongs(old(states.chains.hash), home, HeadShift(used, home)))
      ensures ChainAt(states.chains.head, states.chains.next, home, HeadShift(used, home), left) && NoDup(left)
    {
      hide Seg, NoDup, HomeIndex, ChainOk, SlotOk, HeadShift, Restrict, Belongs, Filtered, Suffix, PinnedSet, Accounted;
      ghost var t, shift := View(), HeadShift(used, home);
      ChainIsBefore(t, home);
      PathOf(t, home);
      var saved := states.chains.Acquire(home);
      PurgeReady(t, states.chains.View(), home);
      evicted, pinned, left := [], 0, [];
      RestrictNone([], PinnedSet(t.meta, clock));
      if !saved.end {
        ghost var trip;
        evicted, pinned, saved, trip := states.PurgeImplLocked(home, saved.shift, saved, clock, paths[home]);
        left := trip.front;
        PurgeDone(t.m, states.chains.View(), states.meta, trip, home, shift);
        states.chains.Release(home, !saved.end);
      }
    }

    /** Frees the entry in slot `h`: takes ownership, unlinks it and empties the slot. */
    method FreeSlot(h: nat)
      requires Valid() && h < |states.meta| && states.meta[h].state != Empty
      modifies this`paths, states, states.chains
      ensures Valid()
      ensures states.meta == old(states.meta)[h := EmptyMeta]
    {
      hide Seg, NoDup, HomeIndex, TabOk, HeadShift, Restrict, Belongs, LooseFrame, Filtered;
      ghost var t := View();
      TabSizes(t);
      EntryHome(t, h);
      HomeIndexInRange(used, key[h].hash);
      var home := HomeIndex(used, key[h].hash);
      states.meta := states.meta[h := Meta(Construction, 0, 0, false)];
      MetaOnly(t, states.meta);
      var evicted, pinned;
      ghost var left;
      evicted, pinned, left := PurgeHome(home, false);
      FreeOk(t, states.chains.View(), states.meta, home, h, left, evicted);
      states.meta := states.meta[h := EmptyMeta];
      paths := paths[home := left];
      assert View() == t.(m := states.chains.View(), meta := states.meta, paths := t.paths[home := left]);
    }

    /** Evicts from the chain of one home: a clock update for each entry, and freedom for those it took. */
    method EvictHome(home: nat) returns (evicted: seq<nat>, pinned: nat)
      requires Valid() && home < used
      modifies this`paths, states, states.chains
      ensures Valid()
      ensures |states.meta| == |old(states.meta)| && forall x :: 0 <= x < |states.meta| ==>
                states.meta[x] == if old(HasEntry(View(), x) && Home(View(), x) == home) then AfterEvict(old(states.meta)[x])
                                  else old(states.meta)[x]
      ensures NoDup(evicted) && forall x :: x in evicted <==> x in old(paths)[home] && x < |old(states.meta)| && Evicts(old(states.meta)[x])
      ensures pinned == |Restrict(old(paths)[home], PinnedSet(old(states.meta), true))|
    {
      hide Seg, NoDup, HomeIndex, TabOk, HeadShift, Restrict, Belongs, LooseFrame, Filtered, Evicts, ClockUpdate;
      ghost var t := View();
      TabSizes(t);
      ghost var left;
      evicted, pinned, left := PurgeHome(home, true);
      EvictOk(t, states.chains.View(), states.meta, home, left, evicted);
      FinishEvictions(evicted);
      paths := paths[home := left];
      assert View() == t.(m := states.chains.View(), meta := states.meta, paths := t.paths[home := left]);
    }

    /** Empties the slots of evicted entries. */
    method FinishEvictions(evicted: seq<nat>)
      requires forall x :: x in evicted ==> x < |states.meta|
      modifies states`meta
      ensures states.meta == Cleared(old(states.meta), evicted)
    {
      var i := 0;
      while i < |evicted|
        invariant i <= |evicted| && states.meta == Cleared(old(states.meta), evicted[..i])
      {
        assert evicted[i] in evicted && evicted[..i + 1] == evicted[..i] + [evicted[i]];
        states.meta := states.meta[evicted[i] := EmptyMeta];
        i := i + 1;
      }
      assert evicted[..i] == evicted;
    }
  }

  /** Gives each of the first `used` heads its shift and makes it an empty chain. */
  method PopulateHeads(chains: ChainArray, used: nat)
    requires chains.Valid() && 4 <= used <= |chains.head|
    requires forall h :: 0 <= h < |chains.head| ==> chains.head[h] == UnusedLink
    modifies chains`head
    ensures |chains.head| == |old(chains.head)|
    ensures forall h :: 0 <= h < |chains.head| ==>
              chains.head[h] == if h < used then EndLink(h, HeadShift(used, h)) else UnusedLink
  {
    var minShift := FloorLog2(used);
    var maxShift, major, i := minShift + 1, Pow2(minShift), 0;
    while i < major
      invariant i <= major && |chains.head| == |old(chains.head)|
      invariant forall h :: 0 <= h < |chains.head| ==>
                  chains.head[h] == if h < i || (major <= h < major + i && h < used) then EndLink(h, HeadShift(used, h)) else UnusedLink
    {
      if major + i < used {
        chains.head := chains.head[i := EndLink(i, maxShift)];
        chains.head := chains.head[major + i := EndLink(major + i, maxShift)];
      } else {
        chains.head := chains.head[i := EndLink(i, minShift)];
      }
      i := i + 1;
    }
  }

  lemma FreshOk(t: Tab)
    requires Sizes(t) && forall x :: 0 <= x < |t.meta| ==> t.meta[x] == EmptyMeta && t.m.hash[x] == t.key[x].hash
    requires forall h :: 0 <= h < t.used ==> t.paths[h] == []
    requires forall h :: 0 <= h < |t.m.head| ==>
               t.m.head[h] == if h < t.used then EndLink(h, HeadShift(t.used, h)) else UnusedLink
    ensures TabOk(t)
  {
    hide HeadShift, HomeIndex;
    forall h | 0 <= h < t.used
      ensures ChainOk(t, h)
    {
    }
    forall x | 0 <= x < |t.meta|
      ensures SlotOk(t, x)
    {
    }
  }

  // ---- Lookup, in terms of the table ----

  /** Slot x holds a visible entry with key k. */
  ghost predicate Matches(t: Tab, x: nat, k: Key)
  {
    x < |t.meta| == |t.key| && t.meta[x].state == Visible && t.key[x] == k
  }

  /** Slot r, if any, holds k and has one more reference; nothing else changed. */
  ghost predicate Taken(t: Tab, t': Tab, k: Key, r: int)
  {
    if r < 0 then t' == t
    else Matches(t, r, k) && t' == t.(meta := t.meta[r := t.meta[r].(acquire := t.meta[r].acquire + 1)])
  }

  function WithRef(meta: seq<Meta>, r: int): seq<Meta>
    requires r < |meta|
  {
    if r < 0 then meta else meta[r := meta[r].(acquire := meta[r].acquire + 1)]
  }

  lemma Swap2(meta: seq<Meta>, r: int, h: nat)
    requires r < |meta| && h < |meta| && r != h
    ensures r >= 0 ==> WithRef(WithRef(meta, r), h)[r := meta[r]] == WithRef(meta, h)
  {
  }

  /** A walk along the chain of `home` passed `seen`, without a match, and `link` leads to the rest. */
  ghost predicate Passed(t: Tab, k: Key, seen: seq<nat>, left: seq<nat>, link: Link, readRef: int, home: nat)
  {
    && TabOk(t) && home < t.used
    && t.paths[home] == seen + left
    && Seg(t.m.next, link, left, HeadShift(t.used, home), EndLink(home, HeadShift(t.used, home)))
    && readRef == (if seen == [] then -1 else seen[|seen| - 1])
    && forall x :: x in seen ==> !Matches(t, x, k)
  }

  /** The first entry with the key among the first n of a chain, if there is one. */
  ghost predicate Among(t: Tab, k: Key, path: seq<nat>, n: nat, r: int)
  {
    if r < 0 then forall j :: 0 <= j < |path| && j < n ==> !Matches(t, path[j], k)
    else exists j :: 0 <= j < |path| && j < n && path[j] == r && forall i :: 0 <= i < j ==> !Matches(t, path[i], k)
  }

  lemma FoundAmong(t: Tab, k: Key, seen: seq<nat>, left: seq<nat>, link: Link, readRef: int, home: nat)
    requires Passed(t, k, seen, left, link, readRef, home) && !link.end && |seen| < 10
    ensures home < |t.paths| && Among(t, k, t.paths[home], 10, link.idx)
  {
    hide Seg, NoDup, ChainOk, SlotOk, HeadShift, HomeIndex, Matches;
    PassedNext(t, k, seen, left, link, readRef, home);
    PathOf(t, home);
    SegHead(t.m.next, link, left, HeadShift(t.used, home), EndLink(home, HeadShift(t.used, home)));
    assert t.paths[home][|seen|] == link.idx;
    assert forall i :: 0 <= i < |seen| ==> t.paths[home][i] == seen[i];
  }

  lemma NotAmong(t: Tab, k: Key, seen: seq<nat>, left: seq<nat>, link: Link, readRef: int, home: nat)
    requires Passed(t, k, seen, left, link, readRef, home) && (link.end || |seen| >= 10)
    ensures home < |t.paths| && Among(t, k, t.paths[home], 10, -1)
  {
    hide Seg, NoDup, ChainOk, SlotOk, HeadShift, HomeIndex, Matches;
    PathOf(t, home);
    if link.end {
      PassedAll(t, k, seen, left, link, readRef, home);
    }
    assert forall i :: 0 <= i < |seen| ==> t.paths[home][i] == seen[i];
  }

  lemma PassedStart(t: Tab, k: Key, home: nat)
    requires TabOk(t) && home < t.used
    ensures home < |t.m.head| && home < |t.paths| && Passed(t, k, [], t.paths[home], t.m.head[home], -1, home)
  {
    hide Seg, NoDup, ChainOk, SlotOk, HeadShift;
    PathOf(t, home);
    assert t.paths[home] == [] + t.paths[home];
  }

  lemma PassedNext(t: Tab, k: Key, seen: seq<nat>, left: seq<nat>, link: Link, readRef: int, home: nat)
    requires Passed(t, k, seen, left, link, readRef, home) && !link.end
    ensures left != [] && link.idx < |t.meta| == |t.key| == |t.m.next| && link.idx != readRef
    ensures BottomBits(t.key[link.idx].hash, link.shift) == home
    ensures !Matches(t, link.idx, k) ==> Passed(t, k, seen + [link.idx], left[1..], t.m.next[link.idx], link.idx, home)
    ensures t.key[link.idx] == k && t.meta[link.idx].state == Visible <==> Matches(t, link.idx, k)
    ensures AtRest(t.meta) ==> t.meta[link.idx].Shareable()
  {
    hide Seg, NoDup, ChainOk, SlotOk, HeadShift, HomeIndex;
    PathOf(t, home);
    SegHead(t.m.next, link, left, HeadShift(t.used, home), EndLink(home, HeadShift(t.used, home)));
    NextSeen(t.paths[home], seen, left);
    EntryHome(t, link.idx);
  }

  lemma PassedAll(t: Tab, k: Key, seen: seq<nat>, left: seq<nat>, link: Link, readRef: int, home: nat)
    requires Passed(t, k, seen, left, link, readRef, home) && link.end
    ensures link.idx == home && home < |t.paths| && forall x :: x in t.paths[home] ==> !Matches(t, x, k)
  {
    hide NoDup, ChainOk, SlotOk, HeadShift, HomeIndex;
    assert left == [] && t.paths[home] == seen;
  }

  lemma NextSeen(path: seq<nat>, seen: seq<nat>, left: seq<nat>)
    requires path == seen + left && NoDup(path) && left != []
    ensures path == (seen + [left[0]]) + left[1..] && left[0] in path && left[0] !in seen
  {
    NoDupPrefix(seen, left);
  }

  lemma EntryHome(t: Tab, x: nat)
    requires TabOk(t) && x < |t.meta|
    ensures BottomBits(t.key[x].hash, HeadShift(t.used, Home(t, x))) == Home(t, x)
    ensures Home(t, x) == HomeIndex(t.used, t.key[x].hash)
  {
    assert SlotOk(t, x);
    HomeIndexInRange(t.used, t.m.hash[x]);
  }

  ghost function ErasedAll(t: Tab, k: Key): seq<Meta>
  {
    seq(|t.meta|, x requires 0 <= x < |t.meta| => if Matches(t, x, k) then Erased(t.meta[x]) else t.meta[x])
  }

  lemma BeyondUsed(t: Tab, x: nat)
    requires TabOk(t) && t.used <= x < |t.meta|
    ensures t.meta[x].state == Empty
  {
    assert SlotOk(t, x);
  }

  lemma TakenOk(t: Tab, t': Tab, k: Key, r: int)
    requires TabOk(t) && AtRest(t.meta) && Taken(t, t', k, r)
    ensures TabOk(t') && AtRest(t'.meta)
  {
    hide TabOk;
    MetaOnly(t, t'.meta);
  }

  /** A visible entry with the key would be on the chain of the key's home. */
  lemma NoMatch(t: Tab, k: Key, home: nat)
    requires TabOk(t) && home == HomeIndex(t.used, k.hash) < t.used
    requires forall x :: x in t.paths[home] ==> !Matches(t, x, k)
    ensures !exists x :: Matches(t, x, k)
  {
    hide HomeIndex;
    forall x: nat
      ensures !Matches(t, x, k)
    {
      if x < |t.meta| {
        assert SlotOk(t, x);
      }
    }
  }

  lemma PathOf(t: Tab, home: nat)
    requires TabOk(t) && home < t.used
    ensures Seg(t.m.next, t.m.head[home], t.paths[home], HeadShift(t.used, home), EndLink(home, HeadShift(t.used, home)))
    ensures NoDup(t.paths[home])
    ensures forall x :: x in t.paths[home] ==> x < |t.meta| && t.meta[x].state != Empty && Home(t, x) == home
  {
    assert ChainOk(t, home);
  }

  lemma SegHead(next: seq<Link>, link: Link, p: seq<nat>, shift: nat, b: Link)
    requires Seg(next, link, p, shift, b) && b.end
    ensures link.end <==> p == []
    ensures p != [] ==> link == NextLink(p[0], shift) && p[0] < |next| && Seg(next, next[p[0]], p[1..], shift, b)
    ensures p == [] ==> link == b
  {
  }

  // ---- Each entry is on exactly one chain ----

  lemma OneChain(t: Tab, x: nat, h: nat)
    requires TabOk(t) && x < |t.meta| && h < t.used
    ensures x in t.paths[h] <==> HasEntry(t, x) && h == Home(t, x)
  {
    assert ChainOk(t, h) && SlotOk(t, x);
  }

  // ---- What keeps a table well formed ----

  ghost predicate SameEntries(meta: seq<Meta>, meta': seq<Meta>)
  {
    |meta'| == |meta| && forall x :: 0 <= x < |meta| ==> (meta'[x].state == Empty <==> meta[x].state == Empty)
  }

  lemma MetaOnly(t: Tab, meta': seq<Meta>)
    requires TabOk(t) && SameEntries(t.meta, meta')
    ensures TabOk(t.(meta := meta'))
  {
    hide Seg, NoDup, ChainAt, HomeIndex;
    var u := t.(meta := meta');
    forall h | 0 <= h < u.used
      ensures ChainOk(u, h)
    {
      assert ChainOk(t, h);
    }
    forall x | 0 <= x < |u.meta|
      ensures SlotOk(u, x)
    {
      assert SlotOk(t, x);
    }
  }

  lemma ShiftBounds(used: nat, h: nat)
    requires 4 <= used && h < used
    ensures h < Pow2(HeadShift(used, h))
  {
  }

  /** The chain of a head, as the code that rewrites a chain needs it. */
  lemma ChainIsBefore(t: Tab, h: nat)
    requires TabOk(t) && h < t.used
    ensures BeforeInv(t.m, t.paths[h], h, HeadShift(t.used, h))
    ensures !Held(t.m.head[h]) && t.m.head[h].Unlock() == t.m.head[h]
  {
    hide Seg, NoDup, HomeIndex, HeadShift;
    ShiftBounds(t.used, h);
    assert ChainOk(t, h);
    forall x | x in t.paths[h]
      ensures x in Belongs(t.m.hash, h, HeadShift(t.used, h))
    {
      HomeIndexInRange(t.used, t.m.hash[x]);
    }
  }

  /** A slot on another chain does not have this head's bits. */
  lemma NotBelongs(t: Tab, x: nat, h: nat)
    requires Sizes(t) && x < |t.meta| && h < t.used && Home(t, x) != h
    ensures x !in Belongs(t.m.hash, h, HeadShift(t.used, h))
  {
    HomeIndexUnique(t.used, t.m.hash[x], h);
  }

  /** Rewriting one chain leaves every other chain as it is. */
  lemma OtherChain(t: Tab, m': Mem, home: nat, h: nat)
    requires TabOk(t) && home < t.used && h < t.used && h != home
    requires LooseFrame(t.m, m', {home}, Belongs(t.m.hash, home, HeadShift(t.used, home)))
    ensures ChainAt(m'.head, m'.next, h, HeadShift(t.used, h), t.paths[h])
  {
    hide Seg, NoDup, HomeIndex, HeadShift, Belongs;
    assert ChainOk(t, h);
    forall x | x in t.paths[h] && x < |t.m.next|
      ensures m'.next[x] == t.m.next[x]
    {
      NotBelongs(t, x, home);
    }
    SegFrame(t.m.next, m'.next, t.m.head[h], t.paths[h], HeadShift(t.used, h), EndLink(h, HeadShift(t.used, h)));
  }

  function ProbeOf(m: Meta, key: Key, k: Key): Probe
  {
    if m.state == Empty then Free else if m.state == Visible && key == k then Same else Busy
  }

  /**
   The home slot decides if it is free or has the key; then the likely slot if it is free; if that one has the key, this
   is noted, and the search goes on.
   */
  ghost predicate InOrder(meta: seq<Meta>, key: seq<Key>, k: Key, home: nat, likely: nat, f: Found, noted: bool)
  {
    home < |meta| == |key| && likely < |meta| &&
    var p, q := ProbeOf(meta[home], key[home], k), ProbeOf(meta[likely], key[likely], k);
    && (p == Free ==> f == Slot(home))
    && (p == Same ==> f == Match(home))
    && (p == Busy && likely > 0 && q == Free ==> f == Slot(likely))
    && (noted <==> p == Busy && likely > 0 && q == Same)
  }

  lemma TabSizes(t: Tab)
    requires TabOk(t)
    ensures Sizes(t)
  {
  }

  /** A table in which an entry was marked as used, if it was noted that it has the key. */
  ghost function Noted(t: Tab, noted: bool, x: nat, countdown: nat): Tab
  {
    if noted && x < |t.meta| then t.(meta := t.meta[x := Boosted(t.meta[x], countdown)]) else t
  }

  lemma NotedOk(t: Tab, noted: bool, x: nat, countdown: nat)
    requires TabOk(t) && AtRest(t.meta) && (noted ==> x < |t.meta| && t.meta[x].state == Visible)
    ensures TabOk(Noted(t, noted, x, countdown)) && AtRest(Noted(t, noted, x, countdown).meta)
  {
    hide TabOk;
    MetaOnly(t, Noted(t, noted, x, countdown).meta);
  }

  /** From the home at an older length, the shifts on the heads lead on to the present one. */
  lemma WayForward(t: Tab, saved: nat, hash: nat)
    requires TabOk(t) && 4 <= saved <= t.used
    ensures HomeIndex(saved, hash) == BottomBits(hash, HashShift(saved, hash))
    ensures HomeIndex(t.used, hash) == BottomBits(hash, HashShift(t.used, hash)) < t.used
    ensures t.m.head[HomeIndex(t.used, hash)].shift == HashShift(t.used, hash)
    ensures HashShift(saved, hash) <= HashShift(t.used, hash)
    ensures forall s :: HashShift(saved, hash) <= s < HashShift(t.used, hash) ==>
              BottomBits(hash, s) < |t.m.head| && t.m.head[BottomBits(hash, s)].shift > s
  {
    hide TabOk, HashShift, HeadShift, BottomBits;
    TabSizes(t);
    HomeIndexInRange(t.used, hash);
    HeadOk(t, HomeIndex(t.used, hash));
    FallForward(saved, t.used, hash, 0);
    forall s: nat | HashShift(saved, hash) <= s < HashShift(t.used, hash)
      ensures BottomBits(hash, s) < |t.m.head| && t.m.head[BottomBits(hash, s)].shift > s
    {
      FallForward(saved, t.used, hash, s);
      HeadOk(t, BottomBits(hash, s));
    }
  }

  lemma HeadOk(t: Tab, home: nat)
    requires TabOk(t) && home < t.used
    ensures t.m.head[home].shift == HeadShift(t.used, home)
  {
    assert ChainOk(t, home);
  }

  /** The chain once its lock is taken. */
  lemma PurgeReady(t: Tab, m': Mem, home: nat)
    requires TabOk(t) && home < t.used && m' == t.m.(head := t.m.head[home := t.m.head[home].Lock()])
    ensures BeforeInv(m', t.paths[home], home, HeadShift(t.used, home))
    ensures m'.head[home].shift == HeadShift(t.used, home)
    ensures m'.head[home].end ==> t.paths[home] == [] && m' == t.m
    ensures !m'.head[home].end ==> Held(m'.head[home])
    ensures ChainAt(t.m.head, t.m.next, home, HeadShift(t.used, home), t.paths[home])
    ensures LooseFrame(t.m, m', {home}, Belongs(t.m.hash, home, HeadShift(t.used, home)))
    ensures forall clock :: Filtered(t.meta, t.meta, clock, [], [], [])
  {
    hide ChainOk, SlotOk, NoDup, HeadShift, HomeIndex, Belongs;
    ChainIsBefore(t, home);
    assert ChainOk(t, home);
    assert m'.head[home].end ==> m'.head == t.m.head;
  }

  lemma PurgeDone(m0: Mem, m: Mem, meta: seq<Meta>, trip: Trip, home: nat, shift: nat)
    requires Walk(m, meta, trip, home, shift) && trip.dropping == trip.todo == []
    ensures home < |m.head| && NoDup(trip.front)
    ensures Seg(m.next, m.head[home].Unlock(), trip.front, shift, EndLink(home, shift))
  {
    hide Seg, NoDup, Restrict, Belongs;
    assert Line(trip) == trip.front by {
      assert trip.dropping + trip.todo == [] && trip.front + [] == trip.front;
    }
  }

  /** A freed entry leaves its chain and its slot, and nothing else changes. */
  lemma FreeOk(t: Tab, m': Mem, meta': seq<Meta>, home: nat, h: nat, left: seq<nat>, evicted: seq<nat>)
    requires TabOk(t) && AtRest(t.meta) && h < |t.meta| && HasEntry(t, h) && home == Home(t, h) < t.used
    requires Filtered(t.meta[h := Meta(Construction, 0, 0, false)], meta', false, t.paths[home], left, evicted)
    requires LooseFrame(t.m, m', {home}, Belongs(t.m.hash, home, HeadShift(t.used, home)))
    requires ChainAt(m'.head, m'.next, home, HeadShift(t.used, home), left) && NoDup(left)
    ensures |meta'| == |t.meta| && meta'[h := EmptyMeta] == t.meta[h := EmptyMeta]
    ensures TabOk(t.(m := m', meta := t.meta[h := EmptyMeta], paths := t.paths[home := left]))
  {
    hide Seg, NoDup, HomeIndex, HeadShift, Restrict, Belongs, LooseFrame, ChainAt;
    OneChain(t, h, home);
    var dying := t.meta[h := Meta(Construction, 0, 0, false)];
    RestrictMembers(t.paths[home], Keepers(dying, false));
    forall x | 0 <= x < |t.meta|
      ensures x in t.paths[home] ==> (x in left <==> x != h) && t.meta[x].state != Empty
    {
      OneChain(t, x, home);
    }
    RewriteOk(t, m', t.meta[h := EmptyMeta], home, left);
  }

  ghost function Cleared(meta: seq<Meta>, gone: seq<nat>): seq<Meta>
  {
    seq(|meta|, x requires 0 <= x < |meta| => if x in gone then EmptyMeta else meta[x])
  }

  /** Entries taken by their clock update leave the chain and their slots; the others stay. */
  lemma EvictOk(t: Tab, m': Mem, meta': seq<Meta>, home: nat, left: seq<nat>, evicted: seq<nat>)
    requires TabOk(t) && AtRest(t.meta) && home < t.used
    requires Filtered(t.meta, meta', true, t.paths[home], left, evicted)
    requires LooseFrame(t.m, m', {home}, Belongs(t.m.hash, home, HeadShift(t.used, home)))
    requires ChainAt(m'.head, m'.next, home, HeadShift(t.used, home), left) && NoDup(left)
    ensures |meta'| == |t.meta| && forall x :: 0 <= x < |t.meta| ==>
              Cleared(meta', evicted)[x] == if HasEntry(t, x) && Home(t, x) == home then AfterEvict(t.meta[x]) else t.meta[x]
    ensures NoDup(evicted) && forall x :: x in evicted <==> x in t.paths[home] && x < |t.meta| && Evicts(t.meta[x])
    ensures TabOk(t.(m := m', meta := Cleared(meta', evicted), paths := t.paths[home := left]))
    ensures AtRest(Cleared(meta', evicted))
  {
    hide Seg, NoDup, HomeIndex, HeadShift, Restrict, Belongs, LooseFrame, ChainAt;
    RestrictMembers(t.paths[home], Keepers(t.meta, true));
    RestrictMembers(t.paths[home], Evictees(t.meta, true));
    PathOf(t, home);
    RestrictNoDup(t.paths[home], Evictees(t.meta, true));
    forall x | 0 <= x < |t.meta|
      ensures x in t.paths[home] <==> HasEntry(t, x) && Home(t, x) == home
    {
      OneChain(t, x, home);
    }
    RewriteOk(t, m', Cleared(meta', evicted), home, left);
  }

  lemma GrowReady(t: Tab)
    requires TabOk(t) && t.used < |t.m.head|
    ensures var home := SplitHome(t.used);
            && home < t.used && t.used == home + Pow2(FloorLog2(t.used))
            && BeforeInv(t.m, t.paths[home], home, FloorLog2(t.used)) && !Held(t.m.head[home])
  {
    hide ChainOk, SlotOk;
    GrowShifts(t.used, 0);
    ChainIsBefore(t, SplitHome(t.used));
  }

  lemma GrowDone(t: Tab, m': Mem, base: seq<nat>, zero: seq<nat>, one: seq<nat>)
    requires TabOk(t) && t.used < |t.m.head|
    requires var home, s := SplitHome(t.used), FloorLog2(t.used);
             && ChainAt(m'.head, m'.next, home, s + 1, zero) && ChainAt(m'.head, m'.next, t.used, s + 1, one)
             && SplitEntries(t.m.hash, base, zero, one, home, t.used, s)
             && Elems(zero) + Elems(one) + m'.inflight == Elems(t.paths[home]) + t.m.inflight
             && LooseFrame(t.m, m', {home, t.used}, Belongs(t.m.hash, home, s))
    ensures TabOk(Grown(t, m', zero, one))
  {
    hide NoDup, Belongs, Elems, Seg, HeadShift, HomeIndex, ChainOk, SlotOk, ChainAt;
    NoDupPrefix(zero, one);
    assert m'.inflight == {};
    GrowOk(t, m', zero, one);
  }

  ghost function Inserted(t: Tab, idx: nat, k: Key, meta: Meta): Tab
    requires Sizes(t) && idx < t.used
  {
    var home := HomeIndex(t.used, k.hash);
    HomeIndexInRange(t.used, k.hash);
    Tab(Mem(t.m.head[home := PushedHead(t.m.head[home], idx)], t.m.next[idx := t.m.head[home].Unlock()],
            t.m.hash[idx := k.hash], {}),
        t.meta[idx := meta], t.key[idx := k], t.used, t.paths[home := [idx] + t.paths[home]])
  }

  /** Linking a filled slot in front of the chain of its home. */
  lemma InsertOk(t: Tab, idx: nat, k: Key, meta: Meta)
    requires TabOk(t) && idx < t.used && !HasEntry(t, idx) && meta.state != Empty
    ensures TabOk(Inserted(t, idx, k, meta))
  {
    hide HomeIndex, HeadShift, Seg, NoDup, ChainAt;
    var home := HomeIndex(t.used, k.hash);
    HomeIndexInRange(t.used, k.hash);
    var u := Inserted(t, idx, k, meta);
    forall h | 0 <= h < u.used
      ensures ChainOk(u, h)
    {
      assert ChainOk(t, h) && idx !in t.paths[h];
      InsertLinks(t, idx, home, h);
    }
    forall x | 0 <= x < |u.meta|
      ensures SlotOk(u, x)
    {
      assert SlotOk(t, x);
    }
  }

  lemma InsertLinks(t: Tab, idx: nat, home: nat, h: nat)
    requires TabOk(t) && idx < t.used && !HasEntry(t, idx) && home < t.used && h < t.used
    ensures var path := if h == home then [idx] + t.paths[h] else t.paths[h];
            ChainAt(t.m.head[home := PushedHead(t.m.head[home], idx)], t.m.next[idx := t.m.head[home].Unlock()],
                    h, HeadShift(t.used, h), path) && NoDup(path)
  {
    hide HomeIndex, HeadShift, Seg, NoDup;
    assert ChainOk(t, h) && idx !in t.paths[h];
    var s, first := HeadShift(t.used, h), t.m.head[h];
    if h == home {
      FirstLinkOf(t.m.next, first, t.paths[h], s, EndLink(h, s));
      SegPush(t.m.next, first, t.paths[h], s, EndLink(h, s), idx);
      OneNoDup(idx);
      NoDupJoin([idx], t.paths[h]);
    } else {
      SegFrame(t.m.next, t.m.next[idx := t.m.head[home].Unlock()], first, t.paths[h], s, EndLink(h, s));
    }
  }

  /** Rewriting the chain of `home` down to `kept`, and freeing the slots that left it. */
  lemma RewriteOk(t: Tab, m': Mem, meta': seq<Meta>, home: nat, kept: seq<nat>)
    requires TabOk(t) && home < t.used
    requires LooseFrame(t.m, m', {home}, Belongs(t.m.hash, home, HeadShift(t.used, home)))
    requires ChainAt(m'.head, m'.next, home, HeadShift(t.used, home), kept) && NoDup(kept)
    requires forall x :: x in kept ==> x in t.paths[home]
    requires |meta'| == |t.meta| && forall x :: 0 <= x < |t.meta| ==>
                (meta'[x].state != Empty <==> if x in t.paths[home] then x in kept else t.meta[x].state != Empty)
    ensures TabOk(t.(m := m', meta := meta', paths := t.paths[home := kept]))
  {
    hide HomeIndex, HeadShift, Seg, NoDup, ChainAt, Belongs;
    var u := t.(m := m', meta := meta', paths := t.paths[home := kept]);
    assert m'.inflight == {};
    forall h | 0 <= h < u.used
      ensures ChainOk(u, h)
    {
      assert ChainOk(t, h) && ChainOk(t, home);
      if h != home {
        OtherChain(t, m', home, h);
      }
    }
    forall x | 0 <= x < |u.meta|
      ensures SlotOk(u, x)
    {
      assert SlotOk(t, x) && ChainOk(t, home);
    }
  }

  ghost function Grown(t: Tab, m': Mem, zero: seq<nat>, one: seq<nat>): Tab
    requires Sizes(t)
  {
    t.(m := m', used := t.used + 1, paths := t.paths[SplitHome(t.used) := zero] + [one])
  }

  /** The chain of the split head was divided between it and the new head. */
  ghost predicate Divided(t: Tab, m': Mem, zero: seq<nat>, one: seq<nat>)
    requires Sizes(t)
  {
    var home, s := SplitHome(t.used), FloorLog2(t.used);
    && ChainAt(m'.head, m'.next, home, s + 1, zero) && ChainAt(m'.head, m'.next, t.used, s + 1, one)
    && NoDup(zero) && NoDup(one)
    && Elems(zero) + Elems(one) == Elems(t.paths[home])
    && (forall x :: x in zero ==> x in Belongs(t.m.hash, home, s + 1))
    && (forall x :: x in one ==> x in Belongs(t.m.hash, t.used, s + 1))
    && LooseFrame(t.m, m', {home, t.used}, Belongs(t.m.hash, home, s))
  }

  lemma GrowOk(t: Tab, m': Mem, zero: seq<nat>, one: seq<nat>)
    requires TabOk(t) && t.used < |t.m.head| && Divided(t, m', zero, one)
    ensures TabOk(Grown(t, m', zero, one))
  {
    hide HomeIndex, HeadShift, Seg, NoDup, ChainAt, Belongs;
    var u := Grown(t, m', zero, one);
    forall h | 0 <= h < u.used
      ensures ChainOk(u, h)
    {
      GrowChain(t, m', zero, one, h);
    }
    forall x | 0 <= x < |u.meta|
      ensures SlotOk(u, x)
    {
      GrowSlot(t, m', zero, one, x);
    }
  }

  lemma GrowChain(t: Tab, m': Mem, zero: seq<nat>, one: seq<nat>, h: nat)
    requires TabOk(t) && t.used < |t.m.head| && Divided(t, m', zero, one) && h <= t.used
    ensures Sizes(Grown(t, m', zero, one)) && ChainOk(Grown(t, m', zero, one), h)
  {
    if h == SplitHome(t.used) || h == t.used {
      GrowTarget(t, m', zero, one, h);
    } else {
      GrowOther(t, m', zero, one, h);
    }
  }

  lemma GrowTarget(t: Tab, m': Mem, zero: seq<nat>, one: seq<nat>, h: nat)
    requires Sizes(t) && TabOk(t) && t.used < |t.m.head| && Divided(t, m', zero, one)
    requires h == SplitHome(t.used) || h == t.used
    ensures Sizes(Grown(t, m', zero, one)) && ChainOk(Grown(t, m', zero, one), h)
  {
    hide HomeIndex, HeadShift, FloorLog2, Seg, NoDup, Elems, Belongs, ChainAt, LooseFrame, TabOk;
    var u, home := Grown(t, m', zero, one), SplitHome(t.used);
    FrameSizes(t.m, m', {home, t.used}, Belongs(t.m.hash, home, FloorLog2(t.used)));
    GrowShifts(t.used, h);
    var path := if h == home then zero else one;
    assert u.paths[h] == path;
    forall x | x in path
      ensures x < t.used && HasEntry(t, x) && HomeIndex(t.used + 1, t.m.hash[x]) == h
    {
      GrowEntry(t, m', zero, one, h, x);
    }
  }

  lemma GrowEntry(t: Tab, m': Mem, zero: seq<nat>, one: seq<nat>, h: nat, x: nat)
    requires TabOk(t) && Divided(t, m', zero, one)
    requires (h == SplitHome(t.used) && x in zero) || (h == t.used && x in one)
    ensures x < t.used && HasEntry(t, x) && HomeIndex(t.used + 1, t.m.hash[x]) == h
  {
    hide HomeIndex, HeadShift, FloorLog2, Seg, NoDup, Elems, Belongs, ChainAt;
    var home := SplitHome(t.used);
    InElems(zero, x);
    InElems(one, x);
    InElems(t.paths[home], x);
    assert ChainOk(t, home);
    NewHome(t.used, t.m.hash, x, h);
  }

  lemma GrowOther(t: Tab, m': Mem, zero: seq<nat>, one: seq<nat>, h: nat)
    requires TabOk(t) && t.used < |t.m.head| && Divided(t, m', zero, one) && h < t.used && h != SplitHome(t.used)
    ensures Sizes(Grown(t, m', zero, one)) && ChainOk(Grown(t, m', zero, one), h)
  {
    hide HomeIndex, HeadShift, FloorLog2, Seg, NoDup, Elems, Belongs, Bit;
    var u, home, s := Grown(t, m', zero, one), SplitHome(t.used), HeadShift(t.used, h);
    GrowShifts(t.used, h);
    assert ChainOk(t, h);
    forall x | x in t.paths[h]
      ensures m'.next[x] == t.m.next[x] && Home(u, x) == h
    {
      NotBelongs(t, x, home);
      GrowMovesOnlySplitHome(t.used, t.m.hash[x]);
    }
    SegFrame(t.m.next, m'.next, t.m.head[h], t.paths[h], s, EndLink(h, s));
  }

  lemma GrowSlot(t: Tab, m': Mem, zero: seq<nat>, one: seq<nat>, x: nat)
    requires TabOk(t) && t.used < |t.m.head| && Divided(t, m', zero, one) && x < |t.meta|
    ensures Sizes(Grown(t, m', zero, one)) && SlotOk(Grown(t, m', zero, one), x)
  {
    hide HomeIndex, HeadShift, FloorLog2, Seg, NoDup, Elems, ChainAt, Belongs, LooseFrame, Bit;
    assert m'.inflight == {} && m'.hash == t.m.hash && |m'.head| == |t.m.head| && |m'.next| == |t.m.next| by {
      FrameSizes(t.m, m', {SplitHome(t.used), t.used}, Belongs(t.m.hash, SplitHome(t.used), FloorLog2(t.used)));
    }
    var u, home := Grown(t, m', zero, one), SplitHome(t.used);
    assert SlotOk(t, x);
    GrowMovesOnlySplitHome(t.used, t.m.hash[x]);
    if HasEntry(t, x) && Home(t, x) == home {
      InElems(t.paths[home], x);
      InElems(zero, x);
      InElems(one, x);
      if x in zero {
        NewHome(t.used, t.m.hash, x, home);
      } else {
        NewHome(t.used, t.m.hash, x, t.used);
      }
    }
  }

  lemma FrameSizes(m: Mem, m': Mem, homes: set<nat>, slots: set<nat>)
    requires LooseFrame(m, m', homes, slots)
    ensures |m'.head| == |m.head| && |m'.next| == |m.next| && m'.hash == m.hash && m'.inflight <= m.inflight
  {
  }

  /** With one more hash bit, the bits of the split head or of the new head make it the home. */
  lemma NewHome(used: nat, hash: seq<nat>, x: nat, h: nat)
    requires used >= 2 && (h == SplitHome(used) || h == used)
    requires x in Belongs(hash, h, FloorLog2(used) + 1)
    ensures x < |hash| && HomeIndex(used + 1, hash[x]) == h
  {
    hide HomeIndex, HeadShift, FloorLog2;
    GrowShifts(used, h);
    HomeIndexUnique(used + 1, hash[x], h);
  }

  lemma InElems(p: seq<nat>, x: nat)
    ensures x in Elems(p) <==> x in p
  {
  }
}
