/**
 Exactly when some interleaving of a lookup with the split of its chain misses: some of the slots that are about to be
 linked can be linked first so that then every visible entry with the key lies in a gap with enough slots in front.
 */
module LookupMiss {
  import opened Bits
  import opened HashedKeys
  import opened ChainLinks
  import opened ChainSides
  import opened ChainSplit
  import opened ChainLookup
  import opened LookupRuns
  import opened LookupGap
  import opened QuickAttempt
  import opened SlotMeta

  // ---- The statement ----

  /**
   A chain of slots with keys of one home, in a table with room for the new head; the slots in `free` are about to be
   linked into it, none of them with the key that is looked up.
   */
  ghost predicate Chain(chain: seq<nat>, free: set<nat>, meta: seq<Meta>, key: seq<Key>, k: Key, oldHome: nat, oldShift: nat)
  {
    && NoDup(chain) && |meta| == |key| && oldShift > 0
    && (forall v :: v in chain || v in free ==> v < |key| && BottomBits(key[v].hash, oldShift) == oldHome)
    && (forall v :: v in free ==> v !in chain && key[v] != k)
    && oldHome < Pow2(oldShift) && oldHome + Pow2(oldShift) < |key| && BottomBits(k.hash, oldShift) == oldHome
  }

  /** A run from the whole chain on, with the metadata as it is, that ends without finding anything. */
  ghost predicate Misses(us: seq<World>, chain: seq<nat>, free: set<nat>, meta: seq<Meta>, key: seq<Key>, k: Key,
                         oldHome: nat, oldShift: nat)
  {
    && Run(us, key, k, oldHome, oldShift) && us[0].whole && us[0].a.base == chain && us[0].m.inflight == free
    && us[|us| - 1].w == Missing && forall j :: 0 <= j < |us| ==> us[j].meta == meta
  }

  ghost predicate CanMiss(chain: seq<nat>, free: set<nat>, meta: seq<Meta>, key: seq<Key>, k: Key, oldHome: nat, oldShift: nat)
  {
    exists us: seq<World> :: Misses(us, chain, free, meta, key, k, oldHome, oldShift)
  }

  /** With the slots of p linked in front, every visible entry with the key is in a gap with enough slots in front. */
  ghost predicate Hides(p: seq<nat>, chain: seq<nat>, free: set<nat>, meta: seq<Meta>, key: seq<Key>, k: Key, oldShift: nat)
  {
    && NoDup(p) && (forall e :: e in p ==> e in free)
    && forall x :: x in chain && Matches(meta, key, k, x) ==>
         Gap(p + chain, Half(key, k, oldShift), meta, x) && QUICK_HOPS <= Front(p + chain, x)
  }

  // ---- A miss needs the condition ----

  /** The entry has been missed, or will be. */
  ghost predicate Lost(u: World, key: seq<Key>, k: Key, oldShift: nat, x: nat)
  {
    !u.whole && x in u.a.base && Gap(u.a.base, Half(key, k, oldShift), u.meta, x) && Enough(u, x)
  }

  /** The entry is still ahead; if the quick attempt did not give up in front of it, then the split is past it. */
  ghost predicate Watched(u: World, key: seq<Key>, k: Key, oldHome: nat, oldShift: nat, x: nat)
  {
    && Kept(u, key, k, oldHome, oldShift, {x}) && x in u.a.base && x in u.a.own
    && (u.w.Quick? ==> QuickInv(u, oldShift, x))
    && (u.w.At? ==> Enough(u, x) || (Sealed(u, oldShift, x) && (u.w.shift == oldShift + 1 ==> u.w.at < 0 || u.w.at in u.a.own)))
    && (u.w.At? && u.w.shift == oldShift + 1 ==> Passed(u))
  }

  lemma MatchIsOwn(u: World, key: seq<Key>, k: Key, oldHome: nat, oldShift: nat, x: nat)
    requires Fine(u, key, oldHome, oldShift) && ForKey(u, k, oldHome, oldShift)
    requires x in u.a.base && Matches(u.meta, key, k, x)
    ensures x in u.a.own
  {
    hide SplitInv, BeforeInv, BottomBits, InitialSide, Restrict;
    if u.whole {
      WholeFacts(u, key, oldHome, oldShift);
      RestrictMembers(u.a.base, u.a.keep);
      FineSizes(u, key, oldHome, oldShift);
    } else {
      HalfOf(u, key, k, oldHome, oldShift, x);
    }
  }

  lemma PassedStays(u: World, v: World, oldShift: nat)
    requires Evolves(u, v, oldShift) && !u.whole && Passed(u)
    ensures Passed(v)
  {
    hide After;
    SuffixIn(u.a.own, v.a.own);
    if v.w.At? && v.w.at >= 0 && v.w.at !in v.a.own {
      var h :| h in u.a.own && h in u.a.base && u.w.at in After(u.a.base, h);
      assert h in v.a.own;
    }
  }

  lemma OthersWatch(u: World, v: World, key: seq<Key>, k: Key, oldHome: nat, oldShift: nat, x: nat)
    requires Fine(u, key, oldHome, oldShift) && OthersAct(u, v, oldHome, oldShift) && Watched(u, key, k, oldHome, oldShift, x)
    ensures Watched(v, key, k, oldHome, oldShift, x)
  {
    hide Fine, OthersAct, QuickInv, Sealed, Enough, Passed, EndsWith, Looking, OldLooking, BottomBits;
    OthersKeepFine(u, v, key, oldHome, oldShift);
    OthersKeep(u, v, key, k, oldHome, oldShift, {x});
    SuffixIn(u.a.base, v.a.base);
    SuffixIn(u.a.own, v.a.own);
    EnoughStays(u, v, key, oldHome, oldShift, x);
    if u.w.Quick? {
      QuickInvStays(u, v, key, oldHome, oldShift, x);
    }
    if Sealed(u, oldShift, x) {
      SealedStays(u, v, key, oldHome, oldShift, x);
    }
    if u.w.At? && u.w.shift == oldShift + 1 {
      NewIsSplit(u, key, k, oldHome, oldShift, x);
      PassedStays(u, v, oldShift);
    }
  }

  lemma NewIsSplit(u: World, key: seq<Key>, k: Key, oldHome: nat, oldShift: nat, x: nat)
    requires Kept(u, key, k, oldHome, oldShift, {x}) && u.w.At? && u.w.shift == oldShift + 1
    ensures !u.whole && Looking(u.a, u.b, k, oldShift, u.w, {x})
  {
    hide Looking;
  }

  lemma OthersLose(u: World, v: World, key: seq<Key>, k: Key, oldHome: nat, oldShift: nat, x: nat)
    requires Fine(u, key, oldHome, oldShift) && OthersAct(u, v, oldHome, oldShift) && v.meta == u.meta
    requires Lost(u, key, k, oldShift, x)
    ensures Lost(v, key, k, oldShift, x)
  {
    hide Fine, OthersAct, Enough, Gap, Half;
    OthersKeepFine(u, v, key, oldHome, oldShift);
    EnoughStays(u, v, key, oldHome, oldShift, x);
  }

  // ---- Hops of the full walk ----

  lemma OldHopWatch(u: World, v: World, key: seq<Key>, k: Key, oldHome: nat, oldShift: nat, x: nat)
    requires Fine(u, key, oldHome, oldShift) && ForKey(u, k, oldHome, oldShift) && Hops(u, v, key, k)
    requires Watched(u, key, k, oldHome, oldShift, x) && Matches(u.meta, key, k, x) && u.w.At? && u.w.shift == oldShift
    ensures Watched(v, key, k, oldHome, oldShift, x)
  {
    hide Fine, After, BottomBits, Look, Looking, Sealed, Enough;
    LookKeepsShift(u.meta, key, k, u.w);
    LookingShift(u, k, oldShift, x);
    OldHop(u, key, k, oldHome, oldShift, {x});
    SealedSame(u, v, oldShift, x);
  }

  lemma LookingShift(u: World, k: Key, oldShift: nat, x: nat)
    ensures Looking(u.a, u.b, k, oldShift, u.w, {x}) ==> u.w.At? && u.w.shift == oldShift + 1
  {
  }

  lemma LookKeepsShift(meta: seq<Meta>, key: seq<Key>, k: Key, w: Walker)
    requires w.At?
    ensures forall link: Link, home: nat :: var r := Look(meta, key, k, w, link, home); r.At? ==> r.shift == w.shift
    ensures forall link: Link, home: nat :: !Look(meta, key, k, w, link, home).Quick?
  {
  }

  /** With enough slots in front, a hop keeps x ahead or loses it in a gap. */
  lemma NewHopWatch(u: World, v: World, key: seq<Key>, k: Key, oldHome: nat, oldShift: nat, x: nat)
    requires Fine(u, key, oldHome, oldShift) && ForKey(u, k, oldHome, oldShift) && Hops(u, v, key, k) && !u.whole
    requires Watched(u, key, k, oldHome, oldShift, x) && Matches(u.meta, key, k, x)
    requires Looking(u.a, u.b, k, oldShift, u.w, {x}) && Enough(u, x)
    ensures Watched(v, key, k, oldHome, oldShift, x) || Lost(v, key, k, oldShift, x)
  {
    hide SplitInv, After, BottomBits, Slips, Looking, OldLooking, NoDup, Half, Gap, Hop, Sealed, Enough;
    LookingFacts(u.a, u.b, k, oldShift, u.w, {x});
    SealedSame(u, v, oldShift, x);
    if Slips(u.m, u.a, u.meta, u.w) && x !in After(u.a.base, ReadLink(u.m, u.w).idx) {
      SlipNeedsGap(u, key, k, oldHome, oldShift, x);
    } else {
      HopKeeps(u.m, u.a, u.b, u.meta, key, k, oldHome, oldShift, u.w, {x});
      HopPasses(u, v, key, k, oldHome, oldShift, x);
      GoodKept(u, v.w, key, k, oldHome, oldShift, {x});
      GoodShape(u, v.w, key, k, oldShift, x);
    }
  }

  lemma GoodShape(u: World, r: Walker, key: seq<Key>, k: Key, oldShift: nat, x: nat)
    requires Good(u.a, u.b, u.meta, key, k, oldShift, r, {x})
    ensures r.Found? || (r.At? && r.shift == oldShift + 1)
  {
    assert x in {x};
  }

  lemma HopPasses(u: World, v: World, key: seq<Key>, k: Key, oldHome: nat, oldShift: nat, x: nat)
    requires Fine(u, key, oldHome, oldShift) && !u.whole && Hops(u, v, key, k)
    requires Looking(u.a, u.b, k, oldShift, u.w, {x}) && Passed(u) && Matches(u.meta, key, k, x)
    ensures Passed(v)
  {
    hide SplitInv, After, BottomBits, Slips, Looking, NoDup, Hop;
    LookingFacts(u.a, u.b, k, oldShift, u.w, {x});
    BaseOnce(u.m, u.a, u.b, oldHome, oldShift);
    var at, base := u.w.at, u.a.base;
    if at < 0 {
      HopNew(u.m, u.a, u.b, u.meta, key, k, oldHome, oldShift, u.w, {x});
    } else {
      SpotLink(u.m, u.a, u.b, oldHome, oldShift, at);
      if at in u.a.own && New(u.m.next, u.a, at, oldShift) {
        HopNew(u.m, u.a, u.b, u.meta, key, k, oldHome, oldShift, u.w, {x});
      } else if at !in u.a.own && New(u.m.next, u.b, at, oldShift) {
        HopBack(u.m, u.a, u.b, u.meta, key, k, oldHome, oldShift, u.w, {x});
        if Slips(u.m, u.a, u.meta, u.w) {
          SlipTarget(u.m, u.a, u.b, oldHome, oldShift, at);
          PassOn(u, v);
        }
      } else {
        HopOld(u.m, u.a, u.b, u.meta, key, k, oldHome, oldShift, u.w, {x});
        if v.w.At? {
          PassOn(u, v);
        }
      }
    }
  }

  lemma PassOn(u: World, v: World)
    requires Passed(u) && u.w.At? && u.w.at >= 0 && u.w.at in u.a.base && NoDup(u.a.base)
    requires v.a == u.a && v.w.At? && v.w.at >= 0 && v.w.at in After(u.a.base, u.w.at)
    ensures Passed(v)
  {
    hide After;
    if u.w.at !in u.a.own {
      var h :| h in u.a.own && h in u.a.base && u.w.at in After(u.a.base, h);
      AfterTrans(u.a.base, h, u.w.at, v.w.at);
    } else {
      var h: nat := u.w.at;
      assert h in u.a.own && h in u.a.base && v.w.at in After(u.a.base, h);
    }
  }

  /** Once the split is past x, the full walk stays on its own side until it comes to x. */
  lemma SealedHopWatch(u: World, v: World, key: seq<Key>, k: Key, oldHome: nat, oldShift: nat, x: nat)
    requires Fine(u, key, oldHome, oldShift) && ForKey(u, k, oldHome, oldShift) && Hops(u, v, key, k) && !u.whole
    requires Watched(u, key, k, oldHome, oldShift, x) && Matches(u.meta, key, k, x)
    requires Looking(u.a, u.b, k, oldShift, u.w, {x}) && Sealed(u, oldShift, x) && (u.w.at < 0 || u.w.at in u.a.own)
    ensures Watched(v, key, k, oldHome, oldShift, x)
  {
    hide SplitInv, After, BottomBits, Looking, OldLooking, NoDup, Hop, Sealed, Enough, EndsWith;
    LookingFacts(u.a, u.b, k, oldShift, u.w, {x});
    SealedSame(u, v, oldShift, x);
    var at := u.w.at;
    if at < 0 || New(u.m.next, u.a, at, oldShift) {
      HopNew(u.m, u.a, u.b, u.meta, key, k, oldHome, oldShift, u.w, {x});
    } else {
      SpotLink(u.m, u.a, u.b, oldHome, oldShift, at);
      HopOld(u.m, u.a, u.b, u.meta, key, k, oldHome, oldShift, u.w, {x});
      if v.w.At? && v.w.at !in u.a.own {
        SealedAhead(u, key, k, oldHome, oldShift, x, v.w.at);
      }
    }
    GoodKept(u, v.w, key, k, oldHome, oldShift, {x});
    GoodShape(u, v.w, key, k, oldShift, x);
  }

  /** Over a pointer that is not upgraded there is no entry of the other half in front of x any more. */
  lemma SealedAhead(u: World, key: seq<Key>, k: Key, oldHome: nat, oldShift: nat, x: nat, y: nat)
    requires Fine(u, key, oldHome, oldShift) && !u.whole && Sealed(u, oldShift, x) && u.w.At? && u.w.at >= 0
    requires Looking(u.a, u.b, k, oldShift, u.w, {x}) && u.w.at in u.a.own && Old(u.m.next, u.a, u.w.at, oldHome, oldShift)
    requires After(u.a.base, u.w.at) != [] && y == After(u.a.base, u.w.at)[0] && x in u.a.base && x in u.a.own
    ensures y in u.a.own
  {
    hide SideList, SideLinks, OnBase, After, NoDup, Ahead;
    BaseNext(u.m, u.a, u.b, oldHome, oldShift, u.w.at);
    assert y in After(u.a.base, u.w.at) && x in {x};
    AheadOnBaseIn(u.m, u.a, u.b, oldHome, oldShift, u.w.at, x);
    if y !in u.a.own {
      BaseOwned(u.m, u.a, u.b, oldHome, oldShift, y);
      RestLink(u.m.head, u.m.next, u.a, y, oldHome, oldShift);
    }
  }

  lemma HopWatch(u: World, v: World, key: seq<Key>, k: Key, oldHome: nat, oldShift: nat, x: nat)
    requires Fine(u, key, oldHome, oldShift) && ForKey(u, k, oldHome, oldShift) && Hops(u, v, key, k)
    requires Watched(u, key, k, oldHome, oldShift, x) && Matches(u.meta, key, k, x)
    ensures Watched(v, key, k, oldHome, oldShift, x) || Lost(v, key, k, oldShift, x)
  {
    hide Fine, ForKey, Hop, QuickHop, QuickInv, Looking, Sealed, Enough, Passed, Lost, After;
    if u.w.Quick? {
      QuickHopInv(u, v, key, k, oldHome, oldShift, x);
      QuickKeeps(u, key, k, oldHome, oldShift, {x});
      HeadPassed(v);
    } else if u.w.shift == oldShift {
      OldHopWatch(u, v, key, k, oldHome, oldShift, x);
    } else {
      if u.w.shift == oldShift + 1 {
        NewIsSplit(u, key, k, oldHome, oldShift, x);
      } else {
        LookingShift(u, k, oldShift, x);
      }
      if Enough(u, x) {
        NewHopWatch(u, v, key, k, oldHome, oldShift, x);
      } else {
        SealedHopWatch(u, v, key, k, oldHome, oldShift, x);
      }
    }
  }

  lemma HeadPassed(u: World)
    requires u.w.At? ==> u.w.at < 0
    ensures Passed(u)
  {
  }

  lemma LostSame(u: World, v: World, key: seq<Key>, k: Key, oldShift: nat, x: nat)
    requires Lost(u, key, k, oldShift, x) && v == u.(w := v.w)
    ensures Lost(v, key, k, oldShift, x)
  {
    hide Gap, Half;
  }

  /** In every state of a run an entry that is visible all along is still ahead, or lies in a gap with enough slots in front. */
  lemma {:induction false} LostOrWatched(us: seq<World>, meta: seq<Meta>, key: seq<Key>, k: Key, oldHome: nat, oldShift: nat, x: nat, j: nat)
    requires Run(us, key, k, oldHome, oldShift) && j < |us| && forall i :: 0 <= i < |us| ==> us[i].meta == meta
    requires x in us[0].a.base && Matches(meta, key, k, x)
    ensures Watched(us[j], key, k, oldHome, oldShift, x) || Lost(us[j], key, k, oldShift, x)
  {
    hide Fine, ForKey, OthersAct, Hops, Lost, Watched, Matches;
    RunFine(us, key, k, oldHome, oldShift, j);
    if j == 0 {
      MatchIsOwn(us[0], key, k, oldHome, oldShift, x);
      IdleWatched(us[0], key, k, oldHome, oldShift, x);
    } else {
      LostOrWatched(us, meta, key, k, oldHome, oldShift, x, j - 1);
      RunFine(us, key, k, oldHome, oldShift, j - 1);
      var u, v := us[j - 1], us[j];
      assert Next(u, v, key, k, oldHome, oldShift);
      if OthersAct(u, v, oldHome, oldShift) {
        if Watched(u, key, k, oldHome, oldShift, x) {
          OthersWatch(u, v, key, k, oldHome, oldShift, x);
        } else {
          OthersLose(u, v, key, k, oldHome, oldShift, x);
        }
      } else if Watched(u, key, k, oldHome, oldShift, x) {
        if Hops(u, v, key, k) {
          HopWatch(u, v, key, k, oldHome, oldShift, x);
        } else {
          BeginWatched(u, v, key, k, oldHome, oldShift, x);
        }
      } else {
        HopSame(u, v, key, k, oldHome, oldShift);
        LostSame(u, v, key, k, oldShift, x);
      }
    }
  }

  lemma HopSame(u: World, v: World, key: seq<Key>, k: Key, oldHome: nat, oldShift: nat)
    requires Hops(u, v, key, k) || Begins(u, v, oldHome, oldShift)
    ensures v == u.(w := v.w)
  {
    hide Step;
  }

  lemma IdleWatched(u: World, key: seq<Key>, k: Key, oldHome: nat, oldShift: nat, x: nat)
    requires u.w == Idle && x in u.a.base && x in u.a.own
    ensures Watched(u, key, k, oldHome, oldShift, x)
  {
    hide Sealed;
  }

  lemma BeginWatched(u: World, v: World, key: seq<Key>, k: Key, oldHome: nat, oldShift: nat, x: nat)
    requires Begins(u, v, oldHome, oldShift) && Watched(u, key, k, oldHome, oldShift, x)
    ensures Watched(v, key, k, oldHome, oldShift, x)
  {
    hide Sealed, Enough;
  }

  // ---- What was linked in a run ----

  /** The chain has grown by slots that were about to be linked. */
  ghost predicate Grown(u: World, chain: seq<nat>, free: set<nat>)
  {
    && EndsWith(u.a.base, chain) && u.m.inflight <= free
    && forall x :: x in u.a.base || x in u.a.own || x in u.b.own ==> x in chain || x in free
  }

  lemma EndsWithTrans(p: seq<nat>, q: seq<nat>, r: seq<nat>)
    requires EndsWith(p, q) && EndsWith(q, r)
    ensures EndsWith(p, r)
  {
    assert p[|p| - |q|..][|q| - |r|..] == p[|p| - |r|..];
  }

  lemma {:induction false} RunGrown(us: seq<World>, key: seq<Key>, k: Key, oldHome: nat, oldShift: nat, j: nat)
    requires Run(us, key, k, oldHome, oldShift) && us[0].whole && j < |us|
    ensures Grown(us[j], us[0].a.base, us[0].m.inflight)
  {
    hide Fine, ForKey, OthersAct, Hops, EndsWith;
    RunFine(us, key, k, oldHome, oldShift, j);
    if j == 0 {
      EndsWithSelf(us[0].a.base);
      forall x | x in us[0].a.own || x in us[0].b.own
        ensures x in us[0].a.base
      {
        WholeOwnInBase(us[0], key, oldHome, oldShift, x);
      }
    } else {
      RunGrown(us, key, k, oldHome, oldShift, j - 1);
      RunFine(us, key, k, oldHome, oldShift, j - 1);
      var u, v := us[j - 1], us[j];
      assert Next(u, v, key, k, oldHome, oldShift);
      if OthersAct(u, v, oldHome, oldShift) {
        OthersKeepFine(u, v, key, oldHome, oldShift);
        EndsWithTrans(v.a.base, u.a.base, us[0].a.base);
      } else {
        HopSame(u, v, key, k, oldHome, oldShift);
      }
    }
  }

  /** Slots in front do not close a gap. */
  lemma GapBehind(q: seq<nat>, base: seq<nat>, half: set<nat>, meta: seq<Meta>, x: nat)
    requires NoDup(q + base) && x in base && Gap(base, half, meta, x)
    ensures Gap(q + base, half, meta, x) && Front(q + base, x) == |q| + Front(base, x)
  {
    hide After, NoDup;
    NoDupPrefix(q, base);
    AfterConcat(q, base, x);
    var w: nat, y: nat, z: nat :| Between(base, half, meta, x, w, y, z);
    AfterMembers(base, w);
    AfterMembers(base, y);
    AfterConcat(q, base, w);
    AfterConcat(q, base, y);
    forall v | v in After(q + base, y) && z in After(q + base, v)
      ensures v in half
    {
      AfterConcat(q, base, v);
    }
    assert Between(q + base, half, meta, x, w, y, z);
  }

  /** All slots that were linked, those from after the heads changed first. */
  ghost function Linked(u: World, chain: seq<nat>): seq<nat>
    requires |chain| <= |u.a.base|
  {
    (Inserted(u.a) + Inserted(u.b)) + u.a.base[..|u.a.base| - |chain|]
  }

  lemma LinkedFacts(u: World, chain: seq<nat>, free: set<nat>, key: seq<Key>, oldHome: nat, oldShift: nat)
    requires Fine(u, key, oldHome, oldShift) && Grown(u, chain, free) && forall e :: e in free ==> e !in chain
    ensures var q := Inserted(u.a) + Inserted(u.b);
            && |chain| <= |u.a.base| && Linked(u, chain) + chain == q + u.a.base
            && NoDup(q + u.a.base) && NoDup(Linked(u, chain)) && |q| == Inserts(u)
    ensures forall e :: e in Linked(u, chain) ==> e in free
  {
    hide Fine, NoDup, Restrict, Inserted;
    Shapes(u, key, oldHome, oldShift);
    InsertedFacts(u.a);
    InsertedFacts(u.b);
    var q, pre := Inserted(u.a) + Inserted(u.b), u.a.base[..|u.a.base| - |chain|];
    assert u.a.base == pre + chain;
    assert Linked(u, chain) + chain == q + u.a.base;
    NoDupJoin(Inserted(u.a), Inserted(u.b));
    NoDupJoin(q, u.a.base);
    NoDupPrefix(Linked(u, chain), chain);
  }

  /** A miss shows which slots to link first. */
  lemma MissShows(us: seq<World>, chain: seq<nat>, free: set<nat>, meta: seq<Meta>, key: seq<Key>, k: Key, oldHome: nat, oldShift: nat)
    requires Chain(chain, free, meta, key, k, oldHome, oldShift) && Misses(us, chain, free, meta, key, k, oldHome, oldShift)
    ensures exists p :: Hides(p, chain, free, meta, key, k, oldShift)
  {
    hide Fine, ForKey, Next, Gap, Half, Matches, Watched, NoDup, EndsWith, Inserted, After;
    var u := us[|us| - 1];
    RunFine(us, key, k, oldHome, oldShift, |us| - 1);
    RunGrown(us, key, k, oldHome, oldShift, |us| - 1);
    LinkedFacts(u, chain, free, key, oldHome, oldShift);
    var p, q := Linked(u, chain), Inserted(u.a) + Inserted(u.b);
    forall x | x in chain && Matches(meta, key, k, x)
      ensures Gap(p + chain, Half(key, k, oldShift), meta, x) && QUICK_HOPS <= Front(p + chain, x)
    {
      LostOrWatched(us, meta, key, k, oldHome, oldShift, x, |us| - 1);
      MissingLost(u, key, k, oldHome, oldShift, x);
      GapBehind(q, u.a.base, Half(key, k, oldShift), meta, x);
    }
    assert Hides(p, chain, free, meta, key, k, oldShift);
  }

  lemma MissingLost(u: World, key: seq<Key>, k: Key, oldHome: nat, oldShift: nat, x: nat)
    requires u.w == Missing && (Watched(u, key, k, oldHome, oldShift, x) || Lost(u, key, k, oldShift, x))
    ensures Lost(u, key, k, oldShift, x)
  {
    hide Gap, Half, Enough;
    assert x in {x};
  }
}
