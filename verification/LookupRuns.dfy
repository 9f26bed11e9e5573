/**
 Whole lookups beside the split of their chain, in every interleaving. A run begins while the chain is still whole, or
 at any time during the split; its steps are the reads of the lookup, the stores of the splitting thread in the order
 in which it makes them, the inserts of other threads, and whatever happens to the rest of the memory.
 */
module LookupRuns {
  import opened Bits
  import opened HashedKeys
  import opened ChainLinks
  import opened ChainSides
  import opened ChainSplit
  import opened ChainLookup
  import opened SlotMeta

  // ---- States ----

  /**
   The memory with the chain, whole or being split, and where the lookup stands. Side `a` is for the half of the key
   that is looked up. While the chain is whole the sides are what they will be if the heads change now.
   */
  datatype World = World(m: Mem, whole: bool, a: Side, b: Side, meta: seq<Meta>, w: Walker)

  ghost predicate InWhole(m: Mem, a: Side, b: Side, meta: seq<Meta>, key: seq<Key>, oldHome: nat, oldShift: nat)
  {
    && BeforeInv(m, a.base, oldHome, oldShift) && oldShift > 0 && |meta| == |key| == |m.hash|
    && (forall x :: 0 <= x < |key| ==> key[x].hash == m.hash[x])
    && oldHome + Pow2(oldShift) < |m.head|
    && ((a.home == oldHome && b.home == oldHome + Pow2(oldShift)) ||
        (b.home == oldHome && a.home == oldHome + Pow2(oldShift)))
    && a == InitialSide(a.base, a.home, Belongs(m.hash, a.home, oldShift + 1))
    && b == InitialSide(a.base, b.home, Belongs(m.hash, b.home, oldShift + 1))
  }

  ghost predicate Fine(u: World, key: seq<Key>, oldHome: nat, oldShift: nat)
  {
    if u.whole then InWhole(u.m, u.a, u.b, u.meta, key, oldHome, oldShift)
    else InSplit(u.m, u.a, u.b, u.meta, key, oldHome, oldShift)
  }

  // ---- What other threads do ----

  /** An insert into the chain while it is whole. */
  ghost predicate InsertWhole(u: World, v: World, e: nat, oldHome: nat)
  {
    && u.whole && e in u.m.inflight && oldHome < |u.m.head| && e < |u.m.next|
    && v == u.(m := PushMem(u.m, oldHome, e), a := InitialSide([e] + u.a.base, u.a.home, u.a.keep),
               b := InitialSide([e] + u.a.base, u.b.home, u.b.keep), meta := v.meta)
  }

  /** An insert onto one of the two heads while the chain is being split. */
  ghost predicate InsertOnSide(u: World, v: World, e: nat)
  {
    && !u.whole && e in u.m.inflight && e < |u.m.next| && u.a.home < |u.m.head| && u.b.home < |u.m.head|
    && ((e in u.a.keep && v == u.(m := PushMem(u.m, u.a.home, e), a := Pushed(u.a, [e]), meta := v.meta)) ||
        (e in u.b.keep && v == u.(m := PushMem(u.m, u.b.home, e), b := Pushed(u.b, [e]), meta := v.meta)))
  }

  /** The compare-and-swap on the old head, after which the chain is being split; the new head was prepared. */
  ghost predicate HeadsChange(u: World, v: World, oldHome: nat, oldShift: nat)
  {
    && u.whole && oldHome < |u.m.head| == |v.m.head| && oldHome + Pow2(oldShift) < |u.m.head|
    && v == u.(m := u.m.(head := u.m.head[oldHome := v.m.head[oldHome]]), whole := false, meta := v.meta)
    && v.m.head[oldHome].Unlock() ==
       FirstLink(FirstOf(u.a.base, Belongs(u.m.hash, oldHome, oldShift + 1)), oldHome, oldShift + 1)
    && u.m.head[oldHome + Pow2(oldShift)].Unlock() ==
       FirstLink(FirstOf(u.a.base, Belongs(u.m.hash, oldHome + Pow2(oldShift), oldShift + 1)), oldHome + Pow2(oldShift), oldShift + 1)
  }

  /** The pointer that the splitting thread stores next on a side: to its next own entry, or its end marker. */
  ghost function StoredLink(s: Side, oldShift: nat): Link
  {
    FirstLink(FirstOf(s.rest, s.keep), s.home, oldShift + 1)
  }

  ghost function StoredSide(s: Side): Side
  {
    var x := FirstOf(s.rest, s.keep);
    if x < 0 then s.(rest := [], open := false) else s.(front := s.front + [x], rest := AfterFirst(s.rest, s.keep))
  }

  /** The store is for the side whose new-shift part ends first: the other one does not run through that end. */
  ghost predicate StoreOn(m: Mem, s: Side, t: Side, m': Mem, s': Side, oldShift: nat)
  {
    && s.open && s.front != [] && Last(s.front) !in Slots(t) && Last(s.front) < |m.next|
    && m' == m.(next := m.next[Last(s.front) := StoredLink(s, oldShift)]) && s' == StoredSide(s)
  }

  ghost predicate Stores(u: World, v: World, oldShift: nat)
  {
    && !u.whole
    && ((StoreOn(u.m, u.a, u.b, v.m, v.a, oldShift) && v == u.(m := v.m, a := v.a, meta := v.meta)) ||
        (StoreOn(u.m, u.b, u.a, v.m, v.b, oldShift) && v == u.(m := v.m, b := v.b, meta := v.meta)))
  }

  /** Everything but the chain changes in any way: other heads, other slots, and the lock flags. */
  ghost predicate Elsewhere(u: World, v: World, oldHome: nat)
  {
    && v == u.(m := u.m.(head := v.m.head, next := v.m.next), meta := v.meta)
    && |v.m.head| == |u.m.head| && |v.m.next| == |u.m.next|
    && (forall x: nat :: x < |u.m.next| && (x in u.a.base || x in Slots(u.a) || x in Slots(u.b)) ==> v.m.next[x] == u.m.next[x])
    && (forall h: nat :: h < |u.m.head| && (if u.whole then h == oldHome else h == u.a.home || h == u.b.home) ==>
          v.m.head[h].Unlock() == u.m.head[h].Unlock())
  }

  /** One step of some other thread; metadata changes in any way. */
  ghost predicate OthersAct(u: World, v: World, oldHome: nat, oldShift: nat)
  {
    && v.w == u.w && |v.meta| == |u.meta|
    && (|| (exists e :: InsertWhole(u, v, e, oldHome))
        || (exists e :: InsertOnSide(u, v, e))
        || HeadsChange(u, v, oldHome, oldShift)
        || Stores(u, v, oldShift)
        || Elsewhere(u, v, oldHome))
  }

  // ---- What such a step keeps ----

  /** The chain only grows in front, on whichever head, and a pointer that is upgraded stays so. */
  ghost predicate Evolves(u: World, v: World, oldShift: nat)
  {
    && v.w == u.w && |v.meta| == |u.meta| && v.m.hash == u.m.hash && (v.whole ==> u.whole)
    && v.a.home == u.a.home && v.b.home == u.b.home && v.a.keep == u.a.keep && v.b.keep == u.b.keep
    && EndsWith(v.a.own, u.a.own) && EndsWith(v.b.own, u.b.own)
    && EndsWith(v.a.base, u.a.base) && (!u.whole ==> v.a.base == u.a.base)
    && v.m.inflight <= u.m.inflight
    && forall x :: x in v.a.base || x in v.a.own || x in v.b.own ==>
         x in u.a.base || x in u.a.own || x in u.b.own || x in u.m.inflight
  }

  ghost predicate Upgraded(u: World, oldShift: nat, y: nat) { !u.whole && y < |u.m.next| && u.m.next[y].shift == oldShift + 1 }

  lemma EndsWithSelf(p: seq<nat>)
    ensures EndsWith(p, p)
  {
  }

  lemma EndsWithMore(e: nat, p: seq<nat>)
    ensures EndsWith([e] + p, p)
  {
  }

  lemma SideFacts(base: seq<nat>, home: nat, keep: set<nat>)
    requires NoDup(base)
    ensures var s := InitialSide(base, home, keep);
            s.own == Restrict(base, keep) && s.base == base && s.home == home && s.keep == keep
  {
    hide NoDup;
    InitialOnBase(base, home, keep);
    FirstSplits(base, keep);
    if FirstOf(base, keep) < 0 {
      assert BeforeFirst(base, keep) + [] == base;
      RestrictNone(base, keep);
    }
  }

  lemma WholeFacts(u: World, key: seq<Key>, oldHome: nat, oldShift: nat)
    requires Fine(u, key, oldHome, oldShift) && u.whole
    ensures NoDup(u.a.base) && u.b.base == u.a.base
    ensures u.a.keep == Belongs(u.m.hash, u.a.home, oldShift + 1) && u.b.keep == Belongs(u.m.hash, u.b.home, oldShift + 1)
    ensures u.a.own == Restrict(u.a.base, u.a.keep) && u.b.own == Restrict(u.a.base, u.b.keep)
  {
    hide NoDup, Seg, Belongs, InitialSide, Restrict;
    SideFacts(u.a.base, u.a.home, Belongs(u.m.hash, u.a.home, oldShift + 1));
    SideFacts(u.a.base, u.b.home, Belongs(u.m.hash, u.b.home, oldShift + 1));
  }

  lemma InsertWholeKeeps(u: World, v: World, e: nat, key: seq<Key>, oldHome: nat, oldShift: nat)
    requires Fine(u, key, oldHome, oldShift) && InsertWhole(u, v, e, oldHome) && |v.meta| == |u.meta|
    ensures Fine(v, key, oldHome, oldShift) && Evolves(u, v, oldShift)
    ensures v.a.base == [e] + u.a.base
  {
    hide Seg, Belongs, InitialSide, NoDup, Restrict, EndsWith, Pow2;
    WholeFacts(u, key, oldHome, oldShift);
    var base := [e] + u.a.base;
    SegPush(u.m.next, u.m.head[oldHome].Unlock(), u.a.base, oldShift, EndLink(oldHome, oldShift), e);
    HeadShiftIs(u.m, u.a.base, oldHome, oldShift);
    OneNoDup(e);
    NoDupJoin([e], u.a.base);
    SideFacts(base, u.a.home, u.a.keep);
    SideFacts(base, u.b.home, u.b.keep);
    EndsWithMore(e, u.a.base);
    RestrictConcat([e], u.a.base, u.a.keep);
    RestrictConcat([e], u.a.base, u.b.keep);
    RestrictMembers([e], u.a.keep);
    RestrictMembers([e], u.b.keep);
    EndsWithConcat(Restrict([e], u.a.keep), u.a.own);
    EndsWithConcat(Restrict([e], u.b.keep), u.b.own);
  }

  lemma EndsWithConcat(p: seq<nat>, q: seq<nat>)
    ensures EndsWith(p + q, q)
  {
  }

  lemma HeadShiftIs(m: Mem, chain: seq<nat>, oldHome: nat, oldShift: nat)
    requires BeforeInv(m, chain, oldHome, oldShift)
    ensures m.head[oldHome].Unlock() == LinkTo(chain, oldHome, oldShift) && m.head[oldHome].shift == oldShift
  {
  }

  lemma InsertOnSideKeeps(u: World, v: World, e: nat, key: seq<Key>, oldHome: nat, oldShift: nat)
    requires Fine(u, key, oldHome, oldShift) && InsertOnSide(u, v, e) && |v.meta| == |u.meta|
    ensures Fine(v, key, oldHome, oldShift) && Evolves(u, v, oldShift)
  {
    hide SplitInv;
    EndsWithMore(e, u.a.own);
    EndsWithMore(e, u.b.own);
    EndsWithSelf(u.a.own);
    EndsWithSelf(u.b.own);
    EndsWithSelf(u.a.base);
    if e in u.a.keep && v.b == u.b {
      PushKeeps(u.m, u.a, u.b, e, oldHome, oldShift);
    } else {
      SplitInvSwap(u.m, u.a, u.b, oldHome, oldShift);
      PushKeeps(u.m, u.b, u.a, e, oldHome, oldShift);
      SplitInvSwap(v.m, v.b, v.a, oldHome, oldShift);
    }
  }

  lemma HeadsChangeKeeps(u: World, v: World, key: seq<Key>, oldHome: nat, oldShift: nat)
    requires Fine(u, key, oldHome, oldShift) && HeadsChange(u, v, oldHome, oldShift) && |v.meta| == |u.meta|
    ensures Fine(v, key, oldHome, oldShift) && Evolves(u, v, oldShift)
  {
    hide Seg, Belongs, InitialSide, NoDup, SplitInv, FirstOf;
    EndsWithSelf(u.a.own);
    EndsWithSelf(u.b.own);
    EndsWithSelf(u.a.base);
    BigStep(u.m, u.a.base, v.m.head[oldHome], oldHome, oldHome + Pow2(oldShift), oldShift);
    if u.a.home != oldHome {
      SplitInvSwap(v.m, v.b, v.a, oldHome, oldShift);
    }
  }

  /** The next store of the splitting thread leads to another state of the split. */
  lemma StoreKeeps(m: Mem, s: Side, t: Side, m': Mem, s': Side, oldHome: nat, oldShift: nat)
    requires SplitInv(m, s, t, oldHome, oldShift) && StoreOn(m, s, t, m', s', oldShift)
    ensures SplitInv(m', s', t, oldHome, oldShift)
  {
    hide SplitInv, FirstOf, AfterFirst, BeforeFirst;
    FirstSplits(s.rest, s.keep);
    var skipped := BeforeFirst(s.rest, s.keep);
    if FirstOf(s.rest, s.keep) < 0 {
      assert skipped + [] == skipped;
      CloseInv(m, s, t, oldHome, oldShift);
    } else {
      AdvanceInv(m, s, t, skipped, FirstOf(s.rest, s.keep), AfterFirst(s.rest, s.keep), oldHome, oldShift);
    }
  }

  lemma StoresKeeps(u: World, v: World, key: seq<Key>, oldHome: nat, oldShift: nat)
    requires Fine(u, key, oldHome, oldShift) && Stores(u, v, oldShift) && |v.meta| == |u.meta|
    ensures Fine(v, key, oldHome, oldShift) && Evolves(u, v, oldShift)
  {
    hide SplitInv, FirstOf, AfterFirst;
    EndsWithSelf(u.a.own);
    EndsWithSelf(u.b.own);
    EndsWithSelf(u.a.base);
    if StoreOn(u.m, u.a, u.b, v.m, v.a, oldShift) && v == u.(m := v.m, a := v.a, meta := v.meta) {
      StoreKeeps(u.m, u.a, u.b, v.m, v.a, oldHome, oldShift);
    } else {
      SplitInvSwap(u.m, u.a, u.b, oldHome, oldShift);
      StoreKeeps(u.m, u.b, u.a, v.m, v.b, oldHome, oldShift);
      SplitInvSwap(v.m, v.b, v.a, oldHome, oldShift);
    }
  }

  lemma ElsewhereKeeps(u: World, v: World, key: seq<Key>, oldHome: nat, oldShift: nat)
    requires Fine(u, key, oldHome, oldShift) && Elsewhere(u, v, oldHome) && |v.meta| == |u.meta|
    ensures Fine(v, key, oldHome, oldShift) && Evolves(u, v, oldShift)
  {
    hide SideList, SideLinks, OnBase, InitialSide, Seg, NoDup, Belongs;
    EndsWithSelf(u.a.own);
    EndsWithSelf(u.b.own);
    EndsWithSelf(u.a.base);
    if u.whole {
      SegFrame(u.m.next, v.m.next, u.m.head[oldHome].Unlock(), u.a.base, oldShift, EndLink(oldHome, oldShift));
    } else {
      SideHeadShift(u.m.head, u.m.next, u.a, oldHome, oldShift);
      SideHeadShift(u.m.head, u.m.next, u.b, oldHome, oldShift);
      SideFrame(u.m.head, u.m.next, v.m.head, v.m.next, u.a, oldHome, oldShift);
      SideFrame(u.m.head, u.m.next, v.m.head, v.m.next, u.b, oldHome, oldShift);
    }
  }

  lemma OthersKeepFine(u: World, v: World, key: seq<Key>, oldHome: nat, oldShift: nat)
    requires Fine(u, key, oldHome, oldShift) && OthersAct(u, v, oldHome, oldShift)
    ensures Fine(v, key, oldHome, oldShift) && Evolves(u, v, oldShift)
  {
    hide Fine, Evolves, HeadsChange, Stores, Elsewhere, InsertWhole, InsertOnSide;
    if e :| InsertWhole(u, v, e, oldHome) {
      InsertWholeKeeps(u, v, e, key, oldHome, oldShift);
    } else if e :| InsertOnSide(u, v, e) {
      InsertOnSideKeeps(u, v, e, key, oldHome, oldShift);
    } else if HeadsChange(u, v, oldHome, oldShift) {
      HeadsChangeKeeps(u, v, key, oldHome, oldShift);
    } else if Stores(u, v, oldShift) {
      StoresKeeps(u, v, key, oldHome, oldShift);
    } else {
      ElsewhereKeeps(u, v, key, oldHome, oldShift);
    }
  }

  // ---- Runs ----

  ghost predicate ForKey(u: World, k: Key, oldHome: nat, oldShift: nat)
  {
    BottomBits(k.hash, oldShift) == oldHome && BottomBits(k.hash, oldShift + 1) == u.a.home
  }

  /** A lookup begins at the head of its home, by the length of the table from before the split or by the new one. */
  ghost predicate Begins(u: World, v: World, oldHome: nat, oldShift: nat)
  {
    && u.w == Idle
    && (v == u.(w := Quick(oldHome, oldShift, -1, 0)) || (!u.whole && v == u.(w := Quick(u.a.home, oldShift + 1, -1, 0))))
  }

  ghost predicate Hops(u: World, v: World, key: seq<Key>, k: Key)
  {
    (u.w.Quick? || u.w.At?) && v == u.(w := Step(u.m, u.meta, key, k, u.w))
  }

  ghost predicate Next(u: World, v: World, key: seq<Key>, k: Key, oldHome: nat, oldShift: nat)
  {
    OthersAct(u, v, oldHome, oldShift) || Begins(u, v, oldHome, oldShift) || Hops(u, v, key, k)
  }

  ghost predicate Run(us: seq<World>, key: seq<Key>, k: Key, oldHome: nat, oldShift: nat)
  {
    && us != [] && us[0].w == Idle && Fine(us[0], key, oldHome, oldShift) && ForKey(us[0], k, oldHome, oldShift)
    && forall j :: 0 < j < |us| ==> Next(us[j - 1], us[j], key, k, oldHome, oldShift)
  }

  lemma NextFine(u: World, v: World, key: seq<Key>, k: Key, oldHome: nat, oldShift: nat)
    requires Fine(u, key, oldHome, oldShift) && ForKey(u, k, oldHome, oldShift) && Next(u, v, key, k, oldHome, oldShift)
    ensures Fine(v, key, oldHome, oldShift) && ForKey(v, k, oldHome, oldShift)
  {
    hide InWhole, InSplit, OthersAct, BottomBits, Step;
    if OthersAct(u, v, oldHome, oldShift) {
      OthersKeepFine(u, v, key, oldHome, oldShift);
    }
  }

  /** Every state of a run is one of a whole chain or of a split. */
  lemma {:induction false} RunFine(us: seq<World>, key: seq<Key>, k: Key, oldHome: nat, oldShift: nat, j: nat)
    requires Run(us, key, k, oldHome, oldShift) && j < |us|
    ensures Fine(us[j], key, oldHome, oldShift) && ForKey(us[j], k, oldHome, oldShift)
  {
    hide Fine, ForKey, Next;
    if j > 0 {
      RunFine(us, key, k, oldHome, oldShift, j - 1);
      NextFine(us[j - 1], us[j], key, k, oldHome, oldShift);
    }
  }

  // ---- What is kept ----

  /** A full walk that goes by the old shift has all wanted entries ahead of it on the old chain. */
  ghost predicate OldLooking(a: Side, oldHome: nat, oldShift: nat, w: Walker, wanted: set<nat>)
  {
    && w.At? && w.home == oldHome && w.shift == oldShift && -1 <= w.at && -1 <= w.safe && (w.at < 0 ==> w.safe < 0)
    && (w.at < 0 || w.at in a.base) && (w.safe < 0 || w.safe in a.base)
    && forall x :: x in wanted ==>
         x in a.own && (w.at >= 0 ==> x in After(a.base, w.at)) && (w.safe >= 0 ==> x in After(a.base, w.safe))
  }

  ghost predicate Kept(u: World, key: seq<Key>, k: Key, oldHome: nat, oldShift: nat, wanted: set<nat>)
  {
    match u.w
    case Idle => forall x :: x in wanted ==> x in u.a.own
    case Quick(home, shift, _, _) =>
      && ((home == oldHome && shift == oldShift) || (!u.whole && home == u.a.home && shift == oldShift + 1))
      && forall x :: x in wanted ==> x in u.a.own
    case At(_, _, _, _) =>
      OldLooking(u.a, oldHome, oldShift, u.w, wanted) || (!u.whole && Looking(u.a, u.b, k, oldShift, u.w, wanted))
    case Found(x) => x < |key| && key[x] == k
    case Missing => wanted == {}
  }

  lemma SuffixIn(p: seq<nat>, q: seq<nat>)
    requires EndsWith(q, p)
    ensures forall x :: x in p ==> x in q
  {
    assert q == q[..|q| - |p|] + p;
  }

  lemma OwnOnce(m: Mem, a: Side, b: Side, oldHome: nat, oldShift: nat)
    requires SplitInv(m, a, b, oldHome, oldShift)
    ensures NoDup(a.own)
  {
    hide NoDup, SideLinks, OnBase;
    OwnShape(a);
  }

  lemma BaseOnce(m: Mem, a: Side, b: Side, oldHome: nat, oldShift: nat)
    requires SplitInv(m, a, b, oldHome, oldShift)
    ensures NoDup(a.base) && b.base == a.base
  {
  }

  lemma ChainOnce(u: World, key: seq<Key>, oldHome: nat, oldShift: nat)
    requires Fine(u, key, oldHome, oldShift)
    ensures NoDup(u.a.base) && NoDup(u.a.own) && NoDup(u.b.own) && u.b.base == u.a.base
  {
    hide NoDup, SplitInv, BeforeInv, InitialSide;
    if u.whole {
      WholeFacts(u, key, oldHome, oldShift);
      RestrictNoDup(u.a.base, u.a.keep);
      RestrictNoDup(u.a.base, u.b.keep);
    } else {
      OwnOnce(u.m, u.a, u.b, oldHome, oldShift);
      SplitInvSwap(u.m, u.a, u.b, oldHome, oldShift);
      OwnOnce(u.m, u.b, u.a, oldHome, oldShift);
      BaseOnce(u.m, u.a, u.b, oldHome, oldShift);
    }
  }

  /** What lies behind a slot stays behind it. */
  lemma AfterGrows(p: seq<nat>, q: seq<nat>, x: nat)
    requires EndsWith(q, p) && NoDup(q) && x in p
    ensures After(q, x) == After(p, x) && x in q
  {
    hide After, NoDup;
    AfterSuffix(q, p, x);
  }

  lemma AheadStays(u: World, v: World, key: seq<Key>, oldHome: nat, oldShift: nat, at: int, x: nat)
    requires Fine(u, key, oldHome, oldShift) && Fine(v, key, oldHome, oldShift) && Evolves(u, v, oldShift) && !u.whole
    requires Spot(u.a, u.b, at) && Ahead(u.a, at, x)
    ensures Ahead(v.a, at, x)
  {
    hide SplitInv, After, NoDup, EndsWith;
    SuffixIn(u.a.own, v.a.own);
    SuffixIn(u.b.own, v.b.own);
    if at >= 0 {
      if at in u.a.own {
        OwnOnce(v.m, v.a, v.b, oldHome, oldShift);
        AfterGrows(u.a.own, v.a.own, at);
      } else {
        OtherSide(v.m, v.a, v.b, v.meta, key, oldHome, oldShift, at);
      }
    }
  }

  lemma LookingStays(u: World, v: World, key: seq<Key>, k: Key, oldHome: nat, oldShift: nat, wanted: set<nat>)
    requires Fine(u, key, oldHome, oldShift) && Fine(v, key, oldHome, oldShift) && Evolves(u, v, oldShift) && !u.whole
    requires Looking(u.a, u.b, k, oldShift, u.w, wanted)
    ensures Looking(v.a, v.b, k, oldShift, u.w, wanted)
  {
    hide SplitInv, After, NoDup, BottomBits, EndsWith, Ahead;
    SuffixIn(u.a.own, v.a.own);
    SuffixIn(u.b.own, v.b.own);
    forall x | x in wanted
      ensures Ahead(v.a, u.w.at, x) && Ahead(v.a, u.w.safe, x)
    {
      AheadStays(u, v, key, oldHome, oldShift, u.w.at, x);
      AheadStays(u, v, key, oldHome, oldShift, u.w.safe, x);
    }
  }

  lemma OldLookingStays(u: World, v: World, key: seq<Key>, oldHome: nat, oldShift: nat, wanted: set<nat>)
    requires Fine(v, key, oldHome, oldShift) && Evolves(u, v, oldShift) && OldLooking(u.a, oldHome, oldShift, u.w, wanted)
    ensures OldLooking(v.a, oldHome, oldShift, u.w, wanted)
  {
    hide Fine, After, NoDup, EndsWith;
    ChainOnce(v, key, oldHome, oldShift);
    SuffixIn(u.a.own, v.a.own);
    SuffixIn(u.a.base, v.a.base);
    if u.w.at >= 0 {
      AfterGrows(u.a.base, v.a.base, u.w.at);
    }
    if u.w.safe >= 0 {
      AfterGrows(u.a.base, v.a.base, u.w.safe);
    }
  }

  lemma OthersKeep(u: World, v: World, key: seq<Key>, k: Key, oldHome: nat, oldShift: nat, wanted: set<nat>)
    requires Fine(u, key, oldHome, oldShift) && OthersAct(u, v, oldHome, oldShift) && Kept(u, key, k, oldHome, oldShift, wanted)
    ensures Kept(v, key, k, oldHome, oldShift, wanted)
  {
    hide Fine, OthersAct, Looking, OldLooking, EndsWith, BottomBits;
    OthersKeepFine(u, v, key, oldHome, oldShift);
    SuffixIn(u.a.own, v.a.own);
    if u.w.At? {
      if OldLooking(u.a, oldHome, oldShift, u.w, wanted) {
        OldLookingStays(u, v, key, oldHome, oldShift, wanted);
      } else {
        LookingStays(u, v, key, k, oldHome, oldShift, wanted);
      }
    }
  }

  // ---- Reads of a full walk that goes by the old shift ----

  /** The pointer of a slot of the old chain leads on along it, or is upgraded. */
  lemma BasePointer(u: World, key: seq<Key>, oldHome: nat, oldShift: nat, at: nat)
    requires Fine(u, key, oldHome, oldShift) && at in u.a.base
    ensures at < |u.m.next| && at < |key| && BottomBits(key[at].hash, oldShift) == oldHome
    ensures u.m.next[at] == LinkTo(After(u.a.base, at), oldHome, oldShift) || Upgraded(u, oldShift, at)
  {
    hide After, NoDup, BottomBits, Pow2, InitialSide, Belongs;
    if u.whole {
      WholePointer(u.m, u.a.base, oldHome, oldShift, at);
    } else {
      hide SplitInv;
      BaseOwned(u.m, u.a, u.b, oldHome, oldShift, at);
      SideOf(u.m, u.a, u.b, key, u.meta, oldHome, oldShift, at);
      SpotLink(u.m, u.a, u.b, oldHome, oldShift, at);
    }
  }

  lemma WholePointer(m: Mem, base: seq<nat>, oldHome: nat, oldShift: nat, at: nat)
    requires BeforeInv(m, base, oldHome, oldShift) && at in base
    ensures at < |m.next| && m.next[at] == LinkTo(After(base, at), oldHome, oldShift)
    ensures at < |m.hash| && BottomBits(m.hash[at], oldShift) == oldHome
  {
    hide After, BottomBits;
    var i :| 0 <= i < |base| && base[i] == at;
    SegAt(m.next, m.head[oldHome].Unlock(), base, oldShift, EndLink(oldHome, oldShift), i);
    AfterAt(base, i);
  }

  /** So does the head, and only while the chain is whole. */
  lemma HeadPointer(u: World, key: seq<Key>, oldHome: nat, oldShift: nat)
    requires Fine(u, key, oldHome, oldShift)
    ensures oldHome < |u.m.head|
    ensures if u.whole then u.m.head[oldHome].Unlock() == LinkTo(u.a.base, oldHome, oldShift)
            else u.m.head[oldHome].shift == oldShift + 1
  {
    hide SideList, InitialSide, Belongs, NoDup, OnBase;
    if u.whole {
      HeadShiftIs(u.m, u.a.base, oldHome, oldShift);
    } else {
      SideHeadShift(u.m.head, u.m.next, u.a, oldHome, oldShift);
      SideHeadShift(u.m.head, u.m.next, u.b, oldHome, oldShift);
    }
  }

  /** The slots that a walk by the old shift has ahead. */
  ghost function Way(a: Side, at: int): seq<nat> { if at < 0 then a.base else After(a.base, at) }

  lemma OldAlong(u: World, key: seq<Key>, oldHome: nat, oldShift: nat, w: Walker, wanted: set<nat>)
    requires Fine(u, key, oldHome, oldShift) && OldLooking(u.a, oldHome, oldShift, w, wanted)
    requires w.at < 0 ==> forall x :: x in wanted ==> x in u.a.base
    ensures Way(u.a, w.at) == [] ==> wanted == {}
    ensures Way(u.a, w.at) != [] ==>
              var y := Way(u.a, w.at)[0];
              && y in u.a.base
              && (y !in wanted ==> OldLooking(u.a, oldHome, oldShift, w.(at := y), wanted))
              && (y !in wanted ==> OldLooking(u.a, oldHome, oldShift, w.(at := y, safe := y), wanted))
  {
    hide Fine, After, NoDup;
    ChainOnce(u, key, oldHome, oldShift);
    var way := Way(u.a, w.at);
    if way != [] {
      if w.at < 0 {
        AfterAt(u.a.base, 0);
      } else {
        AfterNext(u.a.base, w.at);
        AfterMembers(u.a.base, w.at);
      }
    }
  }

  lemma WantedInBase(u: World, key: seq<Key>, oldHome: nat, oldShift: nat, wanted: set<nat>)
    requires Fine(u, key, oldHome, oldShift) && u.whole && forall x :: x in wanted ==> x in u.a.own
    ensures forall x :: x in wanted ==> x in u.a.base
  {
    hide Fine;
    WholeFacts(u, key, oldHome, oldShift);
    RestrictMembers(u.a.base, u.a.keep);
  }

  /** A full walk by the old shift misses nothing: it goes on along the old chain, or starts over by the new shift. */
  lemma OldHop(u: World, key: seq<Key>, k: Key, oldHome: nat, oldShift: nat, wanted: set<nat>)
    requires Fine(u, key, oldHome, oldShift) && ForKey(u, k, oldHome, oldShift)
    requires OldLooking(u.a, oldHome, oldShift, u.w, wanted) && forall x :: x in wanted ==> Matches(u.meta, key, k, x)
    ensures Kept(u.(w := Hop(u.m, u.meta, key, k, u.w)), key, k, oldHome, oldShift, wanted)
  {
    hide Fine, After, BottomBits, Look, Looking;
    var w := u.w;
    FirstLook(u.a, u.b, k, oldShift, wanted);
    if w.at < 0 {
      HeadPointer(u, key, oldHome, oldShift);
    } else {
      BasePointer(u, key, oldHome, oldShift, w.at);
    }
    var link := ReadLink(u.m, w);
    if link.shift == oldShift {
      if w.at < 0 {
        WantedInBase(u, key, oldHome, oldShift, wanted);
      }
      OldAlong(u, key, oldHome, oldShift, w, wanted);
      if Way(u.a, w.at) != [] {
        OldLook(u, key, k, oldHome, oldShift, w, link, Way(u.a, w.at)[0]);
      }
    } else {
      BackOrOver(u, key, k, oldHome, oldShift, wanted);
    }
  }

  lemma BackOrOver(u: World, key: seq<Key>, k: Key, oldHome: nat, oldShift: nat, wanted: set<nat>)
    requires ForKey(u, k, oldHome, oldShift) && OldLooking(u.a, oldHome, oldShift, u.w, wanted)
    requires ReadLink(u.m, u.w).shift == oldShift + 1 && !u.whole
    ensures Kept(u.(w := Hop(u.m, u.meta, key, k, u.w)), key, k, oldHome, oldShift, wanted)
  {
    hide BottomBits, After, Look;
    FirstLook(u.a, u.b, k, oldShift, wanted);
  }

  lemma OldLook(u: World, key: seq<Key>, k: Key, oldHome: nat, oldShift: nat, w: Walker, link: Link, y: nat)
    requires Fine(u, key, oldHome, oldShift) && w.At? && w.home == oldHome && w.shift == oldShift && y in u.a.base
    requires link.Unlock() == NextLink(y, oldShift)
    ensures var r := Look(u.meta, key, k, w, link, oldHome);
            if Matches(u.meta, key, k, y) then r == Found(y) else r == w.(at := y) || r == w.(at := y, safe := y)
  {
    hide InWhole, InSplit, BottomBits;
    BasePointer(u, key, oldHome, oldShift, y);
    FineSizes(u, key, oldHome, oldShift);
  }

  lemma FineSizes(u: World, key: seq<Key>, oldHome: nat, oldShift: nat)
    requires Fine(u, key, oldHome, oldShift)
    ensures |u.meta| == |key| == |u.m.next| == |u.m.hash| && oldShift > 0
  {
    hide SplitInv, Belongs, InitialSide;
  }

  lemma FirstLook(a: Side, b: Side, k: Key, oldShift: nat, wanted: set<nat>)
    requires a.home == BottomBits(k.hash, oldShift + 1) && forall x :: x in wanted ==> x in a.own
    ensures Looking(a, b, k, oldShift, At(a.home, oldShift + 1, -1, -1), wanted)
  {
  }

  // ---- Nothing is missed ----

  /** No entry of the other half of the chain is being destroyed while it is split. */
  ghost predicate NoneDying(u: World)
  {
    !u.whole ==> forall x :: x in u.b.own && x in u.a.base ==> x < |u.meta| && u.meta[x].Shareable()
  }

  /** A slot of the other side that a full walk by the new shift stands on is not upgraded yet. */
  ghost predicate Steady(u: World, oldShift: nat)
  {
    u.w.At? && u.w.shift == oldShift + 1 && u.w.at >= 0 && u.w.at !in u.a.own ==> u.w.at in u.a.rest
  }

  lemma NoSlip(u: World, key: seq<Key>, k: Key, oldHome: nat, oldShift: nat, wanted: set<nat>)
    requires Fine(u, key, oldHome, oldShift) && !u.whole && Looking(u.a, u.b, k, oldShift, u.w, wanted)
    requires NoneDying(u) || Steady(u, oldShift)
    ensures !Slips(u.m, u.a, u.meta, u.w)
  {
    hide SplitInv, After;
    LookingFacts(u.a, u.b, k, oldShift, u.w, wanted);
    if u.w.at >= 0 && u.w.at !in u.a.own {
      SpotLink(u.m, u.a, u.b, oldHome, oldShift, u.w.at);
      if New(u.m.next, u.b, u.w.at, oldShift) && After(u.b.own, u.w.at) != [] {
        SlipTarget(u.m, u.a, u.b, oldHome, oldShift, u.w.at);
      }
    }
  }

  lemma QuickKeeps(u: World, key: seq<Key>, k: Key, oldHome: nat, oldShift: nat, wanted: set<nat>)
    requires u.w.Quick? && ForKey(u, k, oldHome, oldShift) && Kept(u, key, k, oldHome, oldShift, wanted)
    ensures Kept(u.(w := QuickHop(u.m, u.meta, key, k, u.w)), key, k, oldHome, oldShift, wanted)
  {
    hide BottomBits, After, Looking;
    FirstLook(u.a, u.b, k, oldShift, wanted);
  }

  lemma HopInRun(u: World, v: World, key: seq<Key>, k: Key, oldHome: nat, oldShift: nat, wanted: set<nat>)
    requires Fine(u, key, oldHome, oldShift) && ForKey(u, k, oldHome, oldShift) && Hops(u, v, key, k)
    requires Kept(u, key, k, oldHome, oldShift, wanted) && forall x :: x in wanted ==> Matches(u.meta, key, k, x)
    requires NoneDying(u) || Steady(u, oldShift)
    ensures Kept(v, key, k, oldHome, oldShift, wanted)
  {
    hide SplitInv, InWhole, After, Hop, QuickHop, Looking, OldLooking, Slips, BottomBits;
    if u.w.Quick? {
      QuickKeeps(u, key, k, oldHome, oldShift, wanted);
    } else if OldLooking(u.a, oldHome, oldShift, u.w, wanted) {
      OldHop(u, key, k, oldHome, oldShift, wanted);
    } else {
      NoSlip(u, key, k, oldHome, oldShift, wanted);
      HopKeeps(u.m, u.a, u.b, u.meta, key, k, oldHome, oldShift, u.w, wanted);
      GoodKept(u, v.w, key, k, oldHome, oldShift, wanted);
    }
  }

  lemma GoodKept(u: World, r: Walker, key: seq<Key>, k: Key, oldHome: nat, oldShift: nat, wanted: set<nat>)
    requires !u.whole && Good(u.a, u.b, u.meta, key, k, oldShift, r, wanted)
    ensures Kept(u.(w := r), key, k, oldHome, oldShift, wanted)
  {
  }

  /**
   In every interleaving with a split, with inserts and with changes of metadata, from before the split on, a lookup
   finds only what has the key, and ends without finding anything only if no entry with the key was on the chain,
   visible all along, when the run began -- as long as no entry of the other half of the chain is being destroyed
   during the split.
   */
  lemma {:induction false} NothingMissed(us: seq<World>, key: seq<Key>, k: Key, oldHome: nat, oldShift: nat, wanted: set<nat>, j: nat)
    requires Run(us, key, k, oldHome, oldShift) && j < |us|
    requires forall x :: x in wanted ==> x in us[0].a.own
    requires forall i, x :: 0 <= i < |us| && x in wanted ==> Matches(us[i].meta, key, k, x)
    requires forall i :: 0 <= i < |us| ==> NoneDying(us[i])
    ensures Kept(us[j], key, k, oldHome, oldShift, wanted)
    ensures us[j].w.Missing? ==> wanted == {}
  {
    hide Fine, ForKey, Looking, OldLooking, Hops, NoneDying, OthersAct, BottomBits;
    if j > 0 {
      NothingMissed(us, key, k, oldHome, oldShift, wanted, j - 1);
      RunFine(us, key, k, oldHome, oldShift, j - 1);
      var u, v := us[j - 1], us[j];
      assert Next(u, v, key, k, oldHome, oldShift);
      if OthersAct(u, v, oldHome, oldShift) {
        OthersKeep(u, v, key, k, oldHome, oldShift, wanted);
      } else if Hops(u, v, key, k) {
        HopInRun(u, v, key, k, oldHome, oldShift, wanted);
      }
    }
  }

  /** From a slot of the rest, or of the side itself, a hop leads to the side itself or to a slot of the rest. */
  lemma HopSteady(u: World, v: World, key: seq<Key>, k: Key, oldHome: nat, oldShift: nat, wanted: set<nat>)
    requires Fine(u, key, oldHome, oldShift) && !u.whole && Hops(u, v, key, k)
    requires Looking(u.a, u.b, k, oldShift, u.w, wanted) && Steady(u, oldShift)
    requires forall x :: x in wanted ==> Matches(u.meta, key, k, x)
    ensures Steady(v, oldShift)
    ensures v.w.At? ==> Rank(u.a, v.w) < Rank(u.a, u.w)
  {
    hide SplitInv, After, Hop, Looking, BottomBits;
    LookingFacts(u.a, u.b, k, oldShift, u.w, wanted);
    OwnOnce(u.m, u.a, u.b, oldHome, oldShift);
    BaseOnce(u.m, u.a, u.b, oldHome, oldShift);
    var at := u.w.at;
    if at < 0 {
      HopNew(u.m, u.a, u.b, u.meta, key, k, oldHome, oldShift, u.w, wanted);
      AfterSmaller(u.a);
    } else {
      SpotLink(u.m, u.a, u.b, oldHome, oldShift, at);
      if at in u.a.own && New(u.m.next, u.a, at, oldShift) {
        HopNew(u.m, u.a, u.b, u.meta, key, k, oldHome, oldShift, u.w, wanted);
        if v.w.At? {
          RankOnSide(u.m, u.a, u.b, oldHome, oldShift, at);
        }
      } else {
        HopOld(u.m, u.a, u.b, u.meta, key, k, oldHome, oldShift, u.w, wanted);
        if v.w.At? {
          AfterNext(u.a.base, at);
          AfterMembers(u.a.base, at);
        }
      }
    }
  }

  /** How far a lookup still has to go. */
  ghost function Rank(a: Side, w: Walker): nat
    requires w.At?
  {
    if w.at < 0 then |a.base| + |a.own| + 1
    else if w.at in a.base then |After(a.base, w.at)|
    else |a.base| + |After(a.own, w.at)|
  }

  lemma AfterSmaller(a: Side)
    ensures forall x: nat :: |After(a.base, x)| <= |a.base| && |After(a.own, x)| <= |a.own|
  {
    forall x: nat
      ensures |After(a.base, x)| <= |a.base| && |After(a.own, x)| <= |a.own|
    {
      AfterMembers(a.base, x);
      AfterMembers(a.own, x);
    }
  }

  lemma RankOnSide(m: Mem, a: Side, b: Side, oldHome: nat, oldShift: nat, at: nat)
    requires SplitInv(m, a, b, oldHome, oldShift) && at in a.own && After(a.own, at) != []
    ensures var y := After(a.own, at)[0];
            && (at in a.base ==> y in a.base && |After(a.base, y)| < |After(a.base, at)|)
            && (at !in a.base && y !in a.base ==> |After(a.own, y)| < |After(a.own, at)|)
            && (y in a.base ==> |After(a.base, y)| < |a.base|)
  {
    hide SideLinks, NoDup, Restrict, After;
    OwnShape(a);
    AfterNext(a.own, at);
    var y := After(a.own, at)[0];
    AfterMembers(a.base, y);
    if at in a.base {
      OwnAfter(a, at);
      RestrictMembers(After(a.base, at), a.keep);
      assert y in After(a.own, at);
      AfterMembers(a.base, at);
      AfterShrinks(a.base, at, y);
    }
  }

  lemma {:induction false} AfterShrinks(p: seq<nat>, x: nat, y: nat)
    requires NoDup(p) && y in After(p, x)
    ensures |After(p, y)| < |After(p, x)|
  {
    AfterMembers(p, x);
    if p[0] == x {
      assert y != x;
      AfterMembers(p[1..], y);
    } else {
      AfterMembers(p[1..], x);
      assert y in p[1..];
      AfterShrinks(p[1..], x, y);
    }
  }

  /** The same holds, whatever is being destroyed, while the splitting thread rests. */
  lemma {:induction false} NothingMissedAtRest(us: seq<World>, key: seq<Key>, k: Key, oldHome: nat, oldShift: nat, wanted: set<nat>, j: nat)
    requires Run(us, key, k, oldHome, oldShift) && j < |us|
    requires forall x :: x in wanted ==> x in us[0].a.own
    requires forall i, x :: 0 <= i < |us| && x in wanted ==> Matches(us[i].meta, key, k, x)
    requires forall i :: 0 <= i < |us| ==> !us[i].whole && us[i].a.rest == us[0].a.rest
    ensures Kept(us[j], key, k, oldHome, oldShift, wanted) && Steady(us[j], oldShift)
    ensures us[j].w.Missing? ==> wanted == {}
  {
    hide Fine, ForKey, Looking, OldLooking, Hop, QuickHop, BottomBits, EndsWith, OthersAct;
    if j > 0 {
      NothingMissedAtRest(us, key, k, oldHome, oldShift, wanted, j - 1);
      RunFine(us, key, k, oldHome, oldShift, j - 1);
      var u, v := us[j - 1], us[j];
      assert Next(u, v, key, k, oldHome, oldShift);
      if OthersAct(u, v, oldHome, oldShift) {
        OthersKeep(u, v, key, k, oldHome, oldShift, wanted);
        SteadyStays(u, v, key, oldHome, oldShift);
      } else if Hops(u, v, key, k) {
        HopInRun(u, v, key, k, oldHome, oldShift, wanted);
        if u.w.At? && Looking(u.a, u.b, k, oldShift, u.w, wanted) {
          HopSteady(u, v, key, k, oldHome, oldShift, wanted);
        } else {
          OldSteady(u, v, key, k, oldHome, oldShift, wanted);
        }
      }
    }
  }

  lemma SteadyStays(u: World, v: World, key: seq<Key>, oldHome: nat, oldShift: nat)
    requires Fine(u, key, oldHome, oldShift) && OthersAct(u, v, oldHome, oldShift)
    requires Steady(u, oldShift) && v.a.rest == u.a.rest
    ensures Steady(v, oldShift)
  {
    hide Fine, OthersAct;
    OthersKeepFine(u, v, key, oldHome, oldShift);
    SuffixIn(u.a.own, v.a.own);
  }

  lemma OldSteady(u: World, v: World, key: seq<Key>, k: Key, oldHome: nat, oldShift: nat, wanted: set<nat>)
    requires Hops(u, v, key, k) && (u.w.At? ==> u.w.shift == oldShift || OldLooking(u.a, oldHome, oldShift, u.w, wanted))
    ensures Steady(v, oldShift)
  {
    hide BottomBits, After;
  }

  // ---- A lookup that is left alone ----

  /** A lookup of at most n reads in one memory. */
  function Walk(m: Mem, meta: seq<Meta>, key: seq<Key>, k: Key, w: Walker, n: nat): Walker
    decreases n
  {
    if n == 0 then w else Walk(m, meta, key, k, Step(m, meta, key, k, w), n - 1)
  }

  lemma {:induction false} WalkEnds(u: World, key: seq<Key>, k: Key, oldHome: nat, oldShift: nat, wanted: set<nat>) returns (n: nat)
    requires Fine(u, key, oldHome, oldShift) && !u.whole
    requires Looking(u.a, u.b, k, oldShift, u.w, wanted) && Steady(u, oldShift)
    requires forall x :: x in wanted ==> Matches(u.meta, key, k, x)
    ensures var r := Walk(u.m, u.meta, key, k, u.w, n);
            (r.Found? || r.Missing?) && Good(u.a, u.b, u.meta, key, k, oldShift, r, wanted)
    decreases if u.w.At? then Rank(u.a, u.w) else 0
  {
    hide SplitInv, Looking, Hop, Steady, Slips;
    LookingFacts(u.a, u.b, k, oldShift, u.w, wanted);
    var v := u.(w := Hop(u.m, u.meta, key, k, u.w));
    NoSlip(u, key, k, oldHome, oldShift, wanted);
    HopKeeps(u.m, u.a, u.b, u.meta, key, k, oldHome, oldShift, u.w, wanted);
    HopSteady(u, v, key, k, oldHome, oldShift, wanted);
    if v.w.Found? || v.w.Missing? {
      n := 1;
      assert Walk(u.m, u.meta, key, k, v.w, 0) == v.w;
    } else {
      LookingFacts(u.a, u.b, k, oldShift, v.w, wanted);
      n := WalkEnds(v, key, k, oldHome, oldShift, wanted);
      n := n + 1;
    }
  }

  /** The first hop of a full walk that goes by the old length takes it to the head of the right side. */
  lemma CatchUp(u: World, key: seq<Key>, k: Key, oldHome: nat, oldShift: nat)
    requires Fine(u, key, oldHome, oldShift) && !u.whole && u.w == At(oldHome, oldShift, -1, -1)
    requires ForKey(u, k, oldHome, oldShift)
    ensures Hop(u.m, u.meta, key, k, u.w) == At(u.a.home, oldShift + 1, -1, -1)
  {
    hide Fine, BottomBits, Look;
    HeadPointer(u, key, oldHome, oldShift);
  }

  /** The quick attempt stays on the two sides. */
  ghost predicate OnSides(u: World, at: int) { at < 0 || at in u.a.own || at in u.b.own }

  lemma SidePointer(m: Mem, a: Side, b: Side, oldHome: nat, oldShift: nat, at: nat)
    requires SplitInv(m, a, b, oldHome, oldShift) && at in a.own
    ensures at < |m.next| && (m.next[at].end || m.next[at].idx in a.own || m.next[at].idx in b.own)
  {
    hide SideLinks, SideList, OnBase, After;
    SpotLink(m, a, b, oldHome, oldShift, at);
    if New(m.next, a, at, oldShift) {
      AfterMembers(a.own, at);
      assert After(a.own, at) != [] ==> After(a.own, at)[0] in After(a.own, at);
    } else {
      AfterMembers(a.base, at);
      if After(a.base, at) != [] {
        assert After(a.base, at)[0] in After(a.base, at);
        BaseOwned(m, a, b, oldHome, oldShift, After(a.base, at)[0]);
      }
    }
  }

  lemma QuickPointer(u: World, key: seq<Key>, oldHome: nat, oldShift: nat)
    requires Fine(u, key, oldHome, oldShift) && !u.whole && u.w.Quick? && OnSides(u, u.w.pos)
    requires u.w.home == u.a.home || u.w.home == u.b.home
    ensures var link := ReadLink(u.m, u.w); !link.end ==> link.idx in u.a.own || link.idx in u.b.own
  {
    hide SplitInv;
    SplitInvSwap(u.m, u.a, u.b, oldHome, oldShift);
    if u.w.pos >= 0 {
      if u.w.pos in u.a.own {
        SidePointer(u.m, u.a, u.b, oldHome, oldShift, u.w.pos);
      } else {
        SidePointer(u.m, u.b, u.a, oldHome, oldShift, u.w.pos);
      }
    } else {
      HeadOfSide(u.m, u.a, u.b, oldHome, oldShift);
      HeadOfSide(u.m, u.b, u.a, oldHome, oldShift);
    }
  }

  lemma {:induction false} QuickEnds(u: World, key: seq<Key>, k: Key, oldHome: nat, oldShift: nat) returns (n: nat)
    requires Fine(u, key, oldHome, oldShift) && ForKey(u, k, oldHome, oldShift) && !u.whole
    requires u.w.Quick? && OnSides(u, u.w.pos) && (u.w.home == u.a.home || u.w.home == u.b.home)
    ensures var r := Walk(u.m, u.meta, key, k, u.w, n);
            r == At(u.w.home, u.w.shift, -1, -1) || (r.Found? && r.slot in u.a.own && Matches(u.meta, key, k, r.slot))
    decreases if u.w.Quick? then QUICK_HOPS - u.w.hops else 0
  {
    hide SplitInv, BottomBits;
    QuickPointer(u, key, oldHome, oldShift);
    var v := u.(w := QuickHop(u.m, u.meta, key, k, u.w));
    if v.w.Quick? {
      n := QuickEnds(v, key, k, oldHome, oldShift);
      n := n + 1;
    } else {
      n := 1;
      assert Walk(u.m, u.meta, key, k, v.w, 0) == v.w;
      if v.w.Found? && v.w.slot in u.b.own {
        OtherSide(u.m, u.a, u.b, u.meta, key, oldHome, oldShift, v.w.slot);
        HomesDiffer(u, key, oldHome, oldShift);
      }
    }
  }

  lemma HomesDiffer(u: World, key: seq<Key>, oldHome: nat, oldShift: nat)
    requires Fine(u, key, oldHome, oldShift) && !u.whole
    ensures u.a.home != u.b.home && (oldHome == u.a.home || oldHome == u.b.home)
  {
    hide SideOk, OnBase, Belongs, Pow2;
  }

  lemma {:induction false} WalkMore(m: Mem, meta: seq<Meta>, key: seq<Key>, k: Key, w: Walker, n: nat, l: nat)
    ensures Walk(m, meta, key, k, w, n + l) == Walk(m, meta, key, k, Walk(m, meta, key, k, w, n), l)
    decreases n
  {
    hide Step;
    if n > 0 {
      WalkMore(m, meta, key, k, Step(m, meta, key, k, w), n - 1, l);
    }
  }

  /** In every state of a split a lookup that is left alone ends, and finds an entry if and only if one has the key. */
  lemma LookupInSplit(u: World, v: World, key: seq<Key>, k: Key, oldHome: nat, oldShift: nat) returns (n: nat)
    requires Fine(u, key, oldHome, oldShift) && ForKey(u, k, oldHome, oldShift) && !u.whole && Begins(u, v, oldHome, oldShift)
    ensures var r := Walk(v.m, v.meta, key, k, v.w, n);
            && (r.Found? || r.Missing?)
            && (r.Found? ==> r.slot in u.a.own && Matches(u.meta, key, k, r.slot))
            && (r.Found? <==> exists x :: x in u.a.own && Matches(u.meta, key, k, x))
  {
    hide Looking, Hop, QuickHop, Matches, InSplit, BottomBits;
    HomesDiffer(u, key, oldHome, oldShift);
    n := QuickEnds(v, key, k, oldHome, oldShift);
    var r := Walk(v.m, v.meta, key, k, v.w, n);
    if !r.Found? {
      var l := FullEnds(u.(w := r), key, k, oldHome, oldShift);
      WalkMore(v.m, v.meta, key, k, v.w, n, l);
      n := n + l;
    }
  }

  lemma FullEnds(u: World, key: seq<Key>, k: Key, oldHome: nat, oldShift: nat) returns (n: nat)
    requires Fine(u, key, oldHome, oldShift) && ForKey(u, k, oldHome, oldShift) && !u.whole
    requires u.w == At(oldHome, oldShift, -1, -1) || u.w == At(u.a.home, oldShift + 1, -1, -1)
    ensures var r := Walk(u.m, u.meta, key, k, u.w, n);
            && (r.Found? || r.Missing?)
            && (r.Found? ==> r.slot in u.a.own && Matches(u.meta, key, k, r.slot))
            && (r.Found? <==> exists x :: x in u.a.own && Matches(u.meta, key, k, x))
  {
    hide Looking, Hop, Matches, InSplit, BottomBits;
    var wanted := set x | x in u.a.own && Matches(u.meta, key, k, x);
    FirstLook(u.a, u.b, k, oldShift, wanted);
    var start := u.(w := At(u.a.home, oldShift + 1, -1, -1));
    n := WalkEnds(start, key, k, oldHome, oldShift, wanted);
    if u.w != start.w {
      CatchUp(u, key, k, oldHome, oldShift);
      n := n + 1;
    }
    assert (exists x :: x in u.a.own && Matches(u.meta, key, k, x)) <==> wanted != {} by {
      assert forall x :: x in wanted <==> x in u.a.own && Matches(u.meta, key, k, x);
    }
  }
}
