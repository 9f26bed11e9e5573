/**
 A run that misses, for every chain whose entries with the key are hidden: the slots are linked, the quick attempt
 gives up, the heads change, and then the split and the full walk take turns so that the walk slips over each gap.
 */
module MissRun {
  import opened Bits
  import opened HashedKeys
  import opened ChainLinks
  import opened ChainSides
  import opened ChainSplit
  import opened ChainLookup
  import opened LookupRuns
  import opened LookupGap
  import opened LookupMiss
  import opened SlotMeta

  // ---- Parts of runs ----

  ghost predicate Trail(us: seq<World>, u: World, v: World, key: seq<Key>, k: Key, oldHome: nat, oldShift: nat)
  {
    && us != [] && us[0] == u && us[|us| - 1] == v && (forall j :: 0 <= j < |us| ==> us[j].meta == u.meta)
    && forall j :: 0 < j < |us| ==> Next(us[j - 1], us[j], key, k, oldHome, oldShift)
  }

  /** Some steps, with the metadata as it is, lead from u to v. */
  ghost predicate Reaches(u: World, v: World, key: seq<Key>, k: Key, oldHome: nat, oldShift: nat)
  {
    exists us: seq<World> :: Trail(us, u, v, key, k, oldHome, oldShift)
  }

  lemma ReachesSelf(u: World, key: seq<Key>, k: Key, oldHome: nat, oldShift: nat)
    ensures Reaches(u, u, key, k, oldHome, oldShift)
  {
    hide Next;
    assert Trail([u], u, u, key, k, oldHome, oldShift);
  }

  lemma ReachesNext(u: World, v: World, key: seq<Key>, k: Key, oldHome: nat, oldShift: nat)
    requires Next(u, v, key, k, oldHome, oldShift) && v.meta == u.meta
    ensures Reaches(u, v, key, k, oldHome, oldShift)
  {
    hide Next;
    assert Trail([u, v], u, v, key, k, oldHome, oldShift);
  }

  lemma ReachesTrans(u: World, v: World, w: World, key: seq<Key>, k: Key, oldHome: nat, oldShift: nat)
    requires Reaches(u, v, key, k, oldHome, oldShift) && Reaches(v, w, key, k, oldHome, oldShift)
    ensures Reaches(u, w, key, k, oldHome, oldShift)
  {
    hide Next;
    var us :| Trail(us, u, v, key, k, oldHome, oldShift);
    var vs :| Trail(vs, v, w, key, k, oldHome, oldShift);
    var ws := us + vs[1..];
    forall j | 0 < j < |ws|
      ensures Next(ws[j - 1], ws[j], key, k, oldHome, oldShift)
    {
      if j >= |us| {
        assert ws[j] == vs[j - |us| + 1] && ws[j - 1] == vs[j - |us|];
      }
    }
    assert Trail(ws, u, w, key, k, oldHome, oldShift);
  }

  lemma ReachesHop(u: World, v: World, key: seq<Key>, k: Key, oldHome: nat, oldShift: nat)
    requires Hops(u, v, key, k)
    ensures Reaches(u, v, key, k, oldHome, oldShift)
  {
    hide Step, OthersAct, Begins;
    ReachesNext(u, v, key, k, oldHome, oldShift);
  }

  lemma ReachesOthers(u: World, v: World, key: seq<Key>, k: Key, oldHome: nat, oldShift: nat)
    requires OthersAct(u, v, oldHome, oldShift) && v.meta == u.meta
    ensures Reaches(u, v, key, k, oldHome, oldShift)
  {
    hide OthersAct, Hops, Begins;
    ReachesNext(u, v, key, k, oldHome, oldShift);
  }

  // ---- The split moves to a gap, one store at a time ----

  ghost predicate SameSide(s: Side, t: Side) { t == s.(front := t.front, rest := t.rest) }

  /** The new-shift part of a side ends at slot t or before it. */
  ghost predicate UpTo(s: Side, t: nat) { s.open && s.front != [] && (Last(s.front) == t || t in s.rest) }

  lemma RestIs(s: Side)
    requires OnBase(s) && s.open
    ensures s.front != [] && Last(s.front) in s.base && s.rest == After(s.base, Last(s.front))
  {
    hide After, NoDup;
    AfterSuffix(s.base, [Last(s.front)] + s.rest, Last(s.front));
    AfterHead(Last(s.front), s.rest);
    SuffixIn([Last(s.front)] + s.rest, s.base);
  }

  /** A store takes the next own entry into the new-shift part of a side that does not end behind the other one. */
  lemma StoreNext(m: Mem, a: Side, b: Side, oldHome: nat, oldShift: nat, t: nat) returns (n: Mem, c: Side)
    requires SplitInv(m, a, b, oldHome, oldShift) && UpTo(a, t) && t in a.keep
    requires Last(a.front) != t && Last(a.front) !in b.rest
    ensures StoreOn(m, a, b, n, c, oldShift) && SameSide(a, c) && UpTo(c, t) && |c.rest| < |a.rest|
  {
    hide SideLinks, OnBase, NoDup, Restrict, FirstOf, AfterFirst;
    FirstSplits(a.rest, a.keep);
    KeepBelongs(m, a, b, oldHome, oldShift);
    var skipped := BeforeFirst(a.rest, a.keep);
    assert skipped + [] == skipped;
    assert Last(a.front) in a.front;
    LastInRange(m, a, b, oldHome, oldShift);
    n, c := m.(next := m.next[Last(a.front) := StoredLink(a, oldShift)]), StoredSide(a);
  }

  lemma LastInRange(m: Mem, a: Side, b: Side, oldHome: nat, oldShift: nat)
    requires SplitInv(m, a, b, oldHome, oldShift) && a.open
    ensures a.front != [] && Last(a.front) < |m.next|
  {
  }

  /** By stores on whichever side ends first, the sides come to end at two given neighbours of the chain. */
  lemma {:induction false} Reach(u: World, key: seq<Key>, k: Key, oldHome: nat, oldShift: nat, l: nat, z: nat) returns (v: World)
    requires Fine(u, key, oldHome, oldShift) && !u.whole && UpTo(u.a, l) && UpTo(u.b, z) && l in u.a.keep && z in u.b.keep
    requires l in u.a.base && After(u.a.base, l) != [] && After(u.a.base, l)[0] == z
    ensures Reaches(u, v, key, k, oldHome, oldShift) && Fine(v, key, oldHome, oldShift)
    ensures !v.whole && SameSide(u.a, v.a) && SameSide(u.b, v.b) && v.w == u.w && v.meta == u.meta
    ensures UpTo(v.a, l) && Last(v.a.front) == l && UpTo(v.b, z) && Last(v.b.front) == z
    decreases |u.a.rest| + |u.b.rest|
  {
    hide SplitInv, After, Slots, FirstOf, AfterFirst;
    var fa, fb := Last(u.a.front), Last(u.b.front);
    if fa != l && fa !in u.b.rest {
      var n, c := StoreNext(u.m, u.a, u.b, oldHome, oldShift, l);
      var u' := u.(m := n, a := c);
      StoreReaches(u, u', key, k, oldHome, oldShift);
      v := Reach(u', key, k, oldHome, oldShift, l, z);
      ReachesTrans(u, u', v, key, k, oldHome, oldShift);
    } else if fb != z && fb !in u.a.rest {
      SplitInvSwap(u.m, u.a, u.b, oldHome, oldShift);
      var n, d := StoreNext(u.m, u.b, u.a, oldHome, oldShift, z);
      var u' := u.(m := n, b := d);
      StoreReaches(u, u', key, k, oldHome, oldShift);
      v := Reach(u', key, k, oldHome, oldShift, l, z);
      ReachesTrans(u, u', v, key, k, oldHome, oldShift);
    } else {
      OneMoves(u.m, u.a, u.b, oldHome, oldShift, l, z);
      ReachesSelf(u, key, k, oldHome, oldShift);
      v := u;
    }
  }

  lemma StoreReaches(u: World, v: World, key: seq<Key>, k: Key, oldHome: nat, oldShift: nat)
    requires Fine(u, key, oldHome, oldShift) && Stores(u, v, oldShift) && v.w == u.w && v.meta == u.meta
    ensures Reaches(u, v, key, k, oldHome, oldShift) && Fine(v, key, oldHome, oldShift)
  {
    hide Fine, Stores;
    StoresKeeps(u, v, key, oldHome, oldShift);
    ReachesOthers(u, v, key, k, oldHome, oldShift);
  }

  /** Short of the two neighbours, one of the sides can move. */
  lemma OneMoves(m: Mem, a: Side, b: Side, oldHome: nat, oldShift: nat, l: nat, z: nat)
    requires SplitInv(m, a, b, oldHome, oldShift) && UpTo(a, l) && UpTo(b, z)
    requires l in a.base && After(a.base, l) != [] && After(a.base, l)[0] == z
    requires Last(a.front) == l || Last(a.front) in b.rest
    requires Last(b.front) == z || Last(b.front) in a.rest
    ensures Last(a.front) == l && Last(b.front) == z
  {
    hide SideList, SideLinks, OnBase, After, NoDup;
    RestIs(a);
    RestIs(b);
    BaseOnce(m, a, b, oldHome, oldShift);
    NeighbourOrder(a.base, Last(a.front), Last(b.front), l, z);
  }

  lemma NeighbourOrder(p: seq<nat>, f: nat, g: nat, l: nat, z: nat)
    requires NoDup(p) && f in p && g in p && After(p, l) != [] && After(p, l)[0] == z
    requires (f == l || l in After(p, f)) && (g == z || z in After(p, g))
    requires (f == l || f in After(p, g)) && (g == z || g in After(p, f))
    ensures f == l && g == z
  {
    hide After;
    AfterNext(p, l);
    AfterMembers(p, l);
    AfterMembers(p, z);
    AfterMembers(p, f);
    assert z in After(p, l);
    if f != l && g != z {
      AfterTrans(p, f, g, f);
    } else if f == l && g != z {
      AfterTrans(p, z, g, z);
    } else if f != l {
      AfterTrans(p, z, f, l);
      AfterTrans(p, l, z, l);
    }
  }

  // ---- The full walk goes along ----

  /** The part of a side, from the end of its new-shift part on, whose pointers are not upgraded. */
  ghost predicate OnRest(s: Side, at: int) { s.open && s.front != [] && at >= 0 && (at == Last(s.front) || at in s.rest) }

  lemma RestOld(m: Mem, a: Side, b: Side, oldHome: nat, oldShift: nat, at: nat)
    requires SplitInv(m, a, b, oldHome, oldShift) && OnRest(a, at)
    ensures Old(m.next, a, at, oldHome, oldShift)
  {
    hide NoDup, Restrict, After, Seg;
    if at in a.rest {
      RestLink(m.head, m.next, a, at, oldHome, oldShift);
    } else {
      RestIs(a);
      FirstOfSeg(m.next, m.next[at], a.rest, oldShift, EndLink(oldHome, oldShift));
    }
  }

  /** Is slot v on the way to `stop`, or to the end if that is -1? */
  ghost predicate OnWay(base: seq<nat>, v: nat, stop: int) { stop < 0 || v == stop || stop in After(base, v) }

  /** Over pointers that are not upgraded a lookup comes to any slot, or to the end, that has no match before it. */
  lemma {:induction false} Hike(u: World, key: seq<Key>, k: Key, oldHome: nat, oldShift: nat, stop: int) returns (v: World)
    requires Fine(u, key, oldHome, oldShift) && !u.whole && Looking(u.a, u.b, k, oldShift, u.w, {}) && OnRest(u.a, u.w.at)
    requires OnWay(u.a.base, u.w.at, stop)
    requires forall y :: y in After(u.a.base, u.w.at) && OnWay(u.a.base, y, stop) ==> !Matches(u.meta, key, k, y)
    ensures Reaches(u, v, key, k, oldHome, oldShift) && v == u.(w := v.w)
    ensures if stop < 0 then v.w == Missing else v.w.At? && v.w.at == stop && Looking(u.a, u.b, k, oldShift, v.w, {})
    decreases |After(u.a.base, u.w.at)|
  {
    hide SplitInv, Looking, After, Hop, Matches, NoDup;
    LookingFacts(u.a, u.b, k, oldShift, u.w, {});
    var at, base := u.w.at, u.a.base;
    if at == stop {
      v := u;
      ReachesSelf(u, key, k, oldHome, oldShift);
    } else {
      BaseOnce(u.m, u.a, u.b, oldHome, oldShift);
      RestOld(u.m, u.a, u.b, oldHome, oldShift, at);
      HopOld(u.m, u.a, u.b, u.meta, key, k, oldHome, oldShift, u.w, {});
      var u' := u.(w := Hop(u.m, u.meta, key, k, u.w));
      ReachesHop(u, u', key, k, oldHome, oldShift);
      if After(base, at) == [] {
        v := u';
      } else {
        var y := After(base, at)[0];
        AfterNext(base, at);
        assert y in After(base, at);
        assert OnWay(base, y, stop);
        forall x | x in After(base, y) && OnWay(base, x, stop)
          ensures !Matches(u.meta, key, k, x)
        {
          AfterTrans(base, at, y, x);
        }
        v := Hike(u', key, k, oldHome, oldShift, stop);
        ReachesTrans(u, u', v, key, k, oldHome, oldShift);
      }
    }
  }

  // ---- Any gap can be slipped over ----

  /** The lookup is where pointers are not upgraded, on its first own entry or one of the other half, and so is what follows. */
  ghost predicate Ready(u: World, key: seq<Key>, k: Key, oldHome: nat, oldShift: nat)
  {
    && Fine(u, key, oldHome, oldShift) && !u.whole && Looking(u.a, u.b, k, oldShift, u.w, {}) && OnRest(u.a, u.w.at)
    && u.a.own == Restrict(u.a.base, u.a.keep) && (u.w.at in u.a.own ==> u.w.at == u.a.own[0])
    && forall z :: z in After(u.a.base, u.w.at) && z in u.b.own ==> UpTo(u.b, z)
  }

  lemma ReadyFacts(u: World, key: seq<Key>, k: Key, oldHome: nat, oldShift: nat)
    requires Ready(u, key, k, oldHome, oldShift)
    ensures u.w.At? && u.w.at >= 0 && u.w.at in u.a.base && NoDup(u.a.base) && u.b.base == u.a.base
    ensures u.a.home == BottomBits(k.hash, oldShift + 1)
    ensures forall x :: x in After(u.a.base, u.w.at) ==> x in u.a.base && x in u.a.rest
  {
    hide SideList, SideLinks, After, NoDup, Restrict, BottomBits;
    RestOld(u.m, u.a, u.b, oldHome, oldShift, u.w.at);
    AfterMembers(u.a.base, u.w.at);
  }

  /** The first own entry is not behind any entry of the half. */
  lemma FirstIsFirst(u: World, key: seq<Key>, k: Key, oldHome: nat, oldShift: nat, w: nat)
    requires Fine(u, key, oldHome, oldShift) && !u.whole && u.a.home == BottomBits(k.hash, oldShift + 1)
    requires u.a.own == Restrict(u.a.base, u.a.keep) && w in u.a.base && w in Half(key, k, oldShift)
    ensures u.a.own != [] && u.a.own[0] !in After(u.a.base, w)
  {
    hide SideLinks, SideList, After, NoDup, Restrict, BottomBits;
    HalfOf(u, key, k, oldHome, oldShift, w);
    BaseOwned(u.m, u.a, u.b, oldHome, oldShift, w);
    FirstInOrder(u.a.base, u.a.keep, w);
  }

  /** A gap around an entry ahead is ahead as a whole. */
  lemma GapAhead(u: World, key: seq<Key>, k: Key, oldHome: nat, oldShift: nat, x: nat, w: nat, y: nat, z: nat)
    requires Ready(u, key, k, oldHome, oldShift) && x in After(u.a.base, u.w.at)
    requires Between(u.a.base, Half(key, k, oldShift), u.meta, x, w, y, z)
    ensures u.w.At? && OnWay(u.a.base, u.w.at, y) && y in u.a.base && z in After(u.a.base, u.w.at) && z in u.a.base
    ensures y in u.b.own && y !in u.a.own && z in u.b.own && z !in u.a.own
  {
    hide SplitInv, After, NoDup, Restrict, Looking, Half, BottomBits;
    ReadyFacts(u, key, k, oldHome, oldShift);
    var at, base := u.w.at, u.a.base;
    AfterMembers(base, w);
    AfterMembers(base, y);
    AfterMembers(base, x);
    AfterTrans(base, at, x, z);
    HalfOf(u, key, k, oldHome, oldShift, y);
    HalfOf(u, key, k, oldHome, oldShift, z);
    if at != y {
      AfterTotal(base, at, y);
      if at in After(base, y) {
        HalfOf(u, key, k, oldHome, oldShift, at);
        FirstIsFirst(u, key, k, oldHome, oldShift, w);
        AfterTrans(base, w, y, at);
      }
    }
  }

  lemma {:induction false} Predecessor(p: seq<nat>, y: nat, z: nat) returns (l: nat)
    requires NoDup(p) && y in p && z in After(p, y)
    ensures l in p && After(p, l) != [] && After(p, l)[0] == z && (l == y || l in After(p, y))
    decreases |After(p, y)|
  {
    hide After, NoDup;
    AfterNext(p, y);
    AfterMembers(p, y);
    var f := After(p, y)[0];
    if f == z {
      l := y;
    } else {
      assert f in After(p, y);
      l := Predecessor(p, f, z);
      if l != f {
        AfterTrans(p, y, f, l);
      }
    }
  }

  /** The neighbour before the gap's end is an own entry behind the gap's start. */
  lemma BeforeGapEnd(u: World, key: seq<Key>, k: Key, oldHome: nat, oldShift: nat, x: nat, w: nat, y: nat, z: nat) returns (l: nat)
    requires Fine(u, key, oldHome, oldShift) && !u.whole && u.a.home == BottomBits(k.hash, oldShift + 1) && y in u.a.base
    requires Between(u.a.base, Half(key, k, oldShift), u.meta, x, w, y, z)
    ensures l in u.a.base && l in u.a.own && l in After(u.a.base, y) && After(u.a.base, l) != [] && After(u.a.base, l)[0] == z
  {
    hide SplitInv, After, NoDup, Half, BottomBits;
    var base := u.a.base;
    BaseOnce(u.m, u.a, u.b, oldHome, oldShift);
    AfterTrans(base, y, x, z);
    AfterMembers(base, y);
    l := Predecessor(base, y, z);
    if l == y {
      AfterNext(base, y);
      AfterMembers(base, x);
      AfterTrans(base, x, z, x);
    }
    assert z in After(base, l);
    HalfOf(u, key, k, oldHome, oldShift, l);
  }

  /** The pointer of a gap's start leads to its end once the sides end around that end. */
  lemma SlipPointer(u: World, key: seq<Key>, k: Key, oldHome: nat, oldShift: nat, x: nat, w: nat, y: nat, z: nat)
    requires Fine(u, key, oldHome, oldShift) && !u.whole && u.a.home == BottomBits(k.hash, oldShift + 1)
    requires Between(u.a.base, Half(key, k, oldShift), u.meta, x, w, y, z)
    requires y in u.a.base && y in u.b.own && y !in u.a.own && UpTo(u.b, z) && Last(u.b.front) == z
    ensures New(u.m.next, u.b, y, oldShift) && After(u.b.own, y) != [] && After(u.b.own, y)[0] == z
  {
    hide SplitInv, After, NoDup, Half, BottomBits, Restrict;
    var base := u.a.base;
    BaseOnce(u.m, u.a, u.b, oldHome, oldShift);
    AfterTrans(base, y, x, z);
    AfterMembers(base, y);
    AfterMembers(base, z);
    NotOld(u, key, oldHome, oldShift, y, z);
    HalfOf(u, key, k, oldHome, oldShift, z);
    FirstOther(u, key, oldHome, oldShift, y, z);
    SlipTarget(u.m, u.a, u.b, oldHome, oldShift, y);
    var f := After(u.b.own, y)[0];
    if f != z {
      AfterTotal(base, f, z);
      HalfOf(u, key, k, oldHome, oldShift, f);
    }
  }

  lemma NotOld(u: World, key: seq<Key>, oldHome: nat, oldShift: nat, y: nat, z: nat)
    requires Fine(u, key, oldHome, oldShift) && !u.whole && y in u.b.own && UpTo(u.b, z) && Last(u.b.front) == z
    requires z in After(u.a.base, y) && z !in After(u.a.base, z)
    ensures New(u.m.next, u.b, y, oldShift)
  {
    hide SideList, SideLinks, OnBase, After, NoDup;
    OwnLink(u.m.head, u.m.next, u.b, y, oldHome, oldShift);
    RestIs(u.b);
  }

  /** The split comes to where the walk slips from a gap's start to its end. */
  lemma Slip(u: World, p: World, key: seq<Key>, k: Key, oldHome: nat, oldShift: nat, x: nat, w: nat, y: nat, z: nat)
    returns (v: World)
    requires Ready(u, key, k, oldHome, oldShift) && x in After(u.a.base, u.w.at)
    requires Between(u.a.base, Half(key, k, oldShift), u.meta, x, w, y, z)
    requires p == u.(w := p.w) && p.w.At? && p.w.at == y && Looking(u.a, u.b, k, oldShift, p.w, {})
    ensures Reaches(p, v, key, k, oldHome, oldShift) && Ready(v, key, k, oldHome, oldShift)
    ensures v.w.at == z && v.a.base == u.a.base && v.meta == u.meta
  {
    hide SplitInv, After, NoDup, Restrict, Looking, Half, BottomBits, Hop;
    ReadyFacts(u, key, k, oldHome, oldShift);
    GapAhead(u, key, k, oldHome, oldShift, x, w, y, z);
    var l := BeforeGapEnd(u, key, k, oldHome, oldShift, x, w, y, z);
    OwnKept(u, key, oldHome, oldShift, l, z);
    AheadOnRest(u.a.base, u.w.at, y, l);
    var q := Reach(p, key, k, oldHome, oldShift, l, z);
    SameLooking(u.a, u.b, q.a, q.b, k, oldShift, p.w);
    SlipPointer(q, key, k, oldHome, oldShift, x, w, y, z);
    HopBack(q.m, q.a, q.b, q.meta, key, k, oldHome, oldShift, p.w, {});
    v := q.(w := p.w.(at := z));
    SlippedLooking(q.a, q.b, k, oldShift, p.w, {}, z);
    SlipReady(v, key, k, oldHome, oldShift, l, z);
    ReachesHop(q, v, key, k, oldHome, oldShift);
    ReachesTrans(p, q, v, key, k, oldHome, oldShift);
  }

  lemma OwnKept(u: World, key: seq<Key>, oldHome: nat, oldShift: nat, l: nat, z: nat)
    requires Fine(u, key, oldHome, oldShift) && !u.whole && l in u.a.own && z in u.b.own
    ensures l in u.a.keep && z in u.b.keep
  {
    hide SideLinks, OnBase, NoDup, Restrict;
    OwnShape(u.a);
    OwnShape(u.b);
  }

  lemma AheadOnRest(base: seq<nat>, at: nat, y: nat, l: nat)
    requires NoDup(base) && OnWay(base, at, y) && l in After(base, y)
    ensures l in After(base, at)
  {
    if at != y {
      AfterTrans(base, at, y, l);
    }
  }

  lemma SameLooking(a: Side, b: Side, c: Side, d: Side, k: Key, oldShift: nat, w: Walker)
    requires Looking(a, b, k, oldShift, w, {}) && SameSide(a, c) && SameSide(b, d)
    ensures Looking(c, d, k, oldShift, w, {})
  {
  }

  lemma SlipReady(v: World, key: seq<Key>, k: Key, oldHome: nat, oldShift: nat, l: nat, z: nat)
    requires Fine(v, key, oldHome, oldShift) && !v.whole && Looking(v.a, v.b, k, oldShift, v.w, {}) && v.w.at == z
    requires v.a.own == Restrict(v.a.base, v.a.keep) && z !in v.a.own
    requires UpTo(v.a, l) && Last(v.a.front) == l && UpTo(v.b, z) && Last(v.b.front) == z
    requires After(v.a.base, l) != [] && After(v.a.base, l)[0] == z
    ensures Ready(v, key, k, oldHome, oldShift)
  {
    hide SideLinks, SideList, OnBase, After, NoDup, Restrict, Looking;
    RestIs(v.a);
    RestIs(v.b);
    assert z in After(v.a.base, l);
  }

  /** A walk that has only entries in gaps to find can miss them all. */
  lemma {:induction false} Finish(u: World, key: seq<Key>, k: Key, oldHome: nat, oldShift: nat) returns (v: World)
    requires Ready(u, key, k, oldHome, oldShift)
    requires forall x :: x in After(u.a.base, u.w.at) && Matches(u.meta, key, k, x) ==> Gap(u.a.base, Half(key, k, oldShift), u.meta, x)
    ensures Reaches(u, v, key, k, oldHome, oldShift) && v.w == Missing
    decreases if u.w.At? then |After(u.a.base, u.w.at)| else 0
  {
    hide SplitInv, After, NoDup, Looking, Half, BottomBits, Hop, Matches, Between, Restrict, Reaches;
    ReadyFacts(u, key, k, oldHome, oldShift);
    var at, base := u.w.at, u.a.base;
    if forall x :: x in After(base, at) ==> !Matches(u.meta, key, k, x) {
      v := Hike(u, key, k, oldHome, oldShift, -1);
    } else {
      var x := FirstMatch(base, at, u.meta, key, k);
      var w: nat, y: nat, z: nat :| Between(base, Half(key, k, oldShift), u.meta, x, w, y, z);
      GapAhead(u, key, k, oldHome, oldShift, x, w, y, z);
      NoneBeforeGap(u, key, k, oldShift, x, w, y, z);
      var p := Hike(u, key, k, oldHome, oldShift, y);
      var q := Slip(u, p, key, k, oldHome, oldShift, x, w, y, z);
      ReachesTrans(u, p, q, key, k, oldHome, oldShift);
      AfterShrinks(base, at, z);
      forall x' | x' in After(base, z) && Matches(u.meta, key, k, x')
        ensures Gap(base, Half(key, k, oldShift), u.meta, x')
      {
        AfterTrans(base, at, z, x');
      }
      v := Finish(q, key, k, oldHome, oldShift);
      ReachesTrans(u, q, v, key, k, oldHome, oldShift);
    }
  }

  lemma FirstMatch(base: seq<nat>, at: nat, meta: seq<Meta>, key: seq<Key>, k: Key) returns (x: nat)
    requires NoDup(base) && exists v :: v in After(base, at) && Matches(meta, key, k, v)
    ensures x in After(base, at) && Matches(meta, key, k, x)
    ensures forall v :: v in After(base, at) && Matches(meta, key, k, v) ==> x !in After(base, v)
  {
    hide After, NoDup, Matches;
    var matches := set v | v in After(base, at) && Matches(meta, key, k, v);
    var rest := After(base, at);
    AfterIsOnce(base, at);
    RestrictMembers(rest, matches);
    forall v | v in rest && Matches(meta, key, k, v)
      ensures Restrict(rest, matches) != [] && Restrict(rest, matches)[0] !in After(base, v)
    {
      FirstInOrder(rest, matches, v);
      AfterOfAfter(base, at, v);
    }
    x := Restrict(rest, matches)[0];
    assert x in Restrict(rest, matches);
  }

  lemma NoneBeforeGap(u: World, key: seq<Key>, k: Key, oldShift: nat, x: nat, w: nat, y: nat, z: nat)
    requires NoDup(u.a.base) && u.w.At? && u.w.at >= 0 && Between(u.a.base, Half(key, k, oldShift), u.meta, x, w, y, z)
    requires forall v :: v in After(u.a.base, u.w.at) && Matches(u.meta, key, k, v) ==> x !in After(u.a.base, v)
    ensures forall v :: v in After(u.a.base, u.w.at) && OnWay(u.a.base, v, y) ==> !Matches(u.meta, key, k, v)
  {
    hide After, NoDup, Matches, Half;
    forall v | v in After(u.a.base, u.w.at) && OnWay(u.a.base, v, y)
      ensures x in After(u.a.base, v)
    {
      if v != y {
        AfterTrans(u.a.base, v, y, x);
      }
    }
  }

  // ---- From the whole chain on ----

  ghost function ChainNext(chain: seq<nat>, n: nat, oldHome: nat, oldShift: nat): seq<Link>
  {
    seq(n, v requires 0 <= v < n => LinkTo(After(chain, v), oldHome, oldShift))
  }

  lemma {:induction false} ChainLinked(chain: seq<nat>, n: nat, oldHome: nat, oldShift: nat, i: nat)
    requires NoDup(chain) && i <= |chain| && forall v :: v in chain ==> v < n
    ensures Seg(ChainNext(chain, n, oldHome, oldShift), LinkTo(chain[i..], oldHome, oldShift), chain[i..], oldShift, EndLink(oldHome, oldShift))
    decreases |chain| - i
  {
    if i < |chain| {
      ChainLinked(chain, n, oldHome, oldShift, i + 1);
      AfterAt(chain, i);
      assert chain[i] in chain && chain[i..][1..] == chain[i + 1..];
    }
  }

  /** The new head has been prepared for the split of `base`. */
  ghost predicate Prepared(m: Mem, base: seq<nat>, oldHome: nat, oldShift: nat)
  {
    var growHome := oldHome + Pow2(oldShift);
    growHome < |m.head| &&
    m.head[growHome].Unlock() == FirstLink(FirstOf(base, Belongs(m.hash, growHome, oldShift + 1)), growHome, oldShift + 1)
  }

  /** A memory that holds the chain, with the new head prepared for when it will have become `base`. */
  lemma Start(chain: seq<nat>, free: set<nat>, base: seq<nat>, meta: seq<Meta>, key: seq<Key>, k: Key, oldHome: nat, oldShift: nat)
    returns (u: World)
    requires Chain(chain, free, meta, key, k, oldHome, oldShift)
    ensures Fine(u, key, oldHome, oldShift) && ForKey(u, k, oldHome, oldShift) && u.whole && u.w == Idle && u.meta == meta
    ensures u.a.base == chain && u.m.inflight == free && Prepared(u.m, base, oldHome, oldShift)
  {
    hide NoDup, Seg, FirstOf, Pow2, BottomBits, After, InitialSide;
    var n, growHome := |key|, oldHome + Pow2(oldShift);
    var hash := seq(n, v requires 0 <= v < n => key[v].hash);
    var first := FirstLink(FirstOf(base, Belongs(hash, growHome, oldShift + 1)), growHome, oldShift + 1);
    var head := seq(n, _ => UnusedLink)[oldHome := LinkTo(chain, oldHome, oldShift)][growHome := first];
    ChainLinked(chain, n, oldHome, oldShift, 0);
    assert chain[0..] == chain;
    var m := Mem(head, ChainNext(chain, n, oldHome, oldShift), hash, free);
    TwoHomes(k.hash, oldHome, oldShift);
    var home := BottomBits(k.hash, oldShift + 1);
    var other := if home == oldHome then growHome else oldHome;
    var a := InitialSide(chain, home, Belongs(hash, home, oldShift + 1));
    var b := InitialSide(chain, other, Belongs(hash, other, oldShift + 1));
    SideFacts(chain, home, Belongs(hash, home, oldShift + 1));
    SideFacts(chain, other, Belongs(hash, other, oldShift + 1));
    u := World(m, true, a, b, meta, Idle);
  }

  /** Slots that are about to be linked are linked, the last of them first. */
  lemma {:induction false} LinkAll(u: World, p: seq<nat>, base: seq<nat>, key: seq<Key>, k: Key, oldHome: nat, oldShift: nat) returns (v: World)
    requires Fine(u, key, oldHome, oldShift) && u.whole && NoDup(p) && forall e :: e in p ==> e in u.m.inflight
    requires ForKey(u, k, oldHome, oldShift) && Prepared(u.m, base, oldHome, oldShift)
    ensures Reaches(u, v, key, k, oldHome, oldShift) && Fine(v, key, oldHome, oldShift) && v.whole && v.w == u.w
    ensures v.a.base == p + u.a.base && v.meta == u.meta && ForKey(v, k, oldHome, oldShift) && Prepared(v.m, base, oldHome, oldShift)
    decreases |p|
  {
    hide InWhole, NoDup, InitialSide, FirstOf, Belongs, BottomBits;
    if p == [] {
      assert [] + u.a.base == u.a.base;
      ReachesSelf(u, key, k, oldHome, oldShift);
      v := u;
    } else {
      var q, e := p[..|p| - 1], p[|p| - 1];
      assert p == q + [e] && e in p && forall x :: x in q ==> x in p;
      NoDupPrefix(q, [e]);
      var u' := LinkOne(u, e, base, key, k, oldHome, oldShift);
      v := LinkAll(u', q, base, key, k, oldHome, oldShift);
      assert q + ([e] + u.a.base) == p + u.a.base;
      ReachesTrans(u, u', v, key, k, oldHome, oldShift);
    }
  }

  lemma LinkOne(u: World, e: nat, base: seq<nat>, key: seq<Key>, k: Key, oldHome: nat, oldShift: nat) returns (v: World)
    requires Fine(u, key, oldHome, oldShift) && u.whole && e in u.m.inflight
    requires ForKey(u, k, oldHome, oldShift) && Prepared(u.m, base, oldHome, oldShift)
    ensures Reaches(u, v, key, k, oldHome, oldShift) && Fine(v, key, oldHome, oldShift) && v.whole && v.w == u.w
    ensures v.a.base == [e] + u.a.base && v.m.inflight == u.m.inflight - {e}
    ensures v.meta == u.meta && ForKey(v, k, oldHome, oldShift) && Prepared(v.m, base, oldHome, oldShift)
  {
    hide Seg, NoDup, InitialSide, FirstOf, Belongs, BottomBits;
    v := u.(m := PushMem(u.m, oldHome, e), a := InitialSide([e] + u.a.base, u.a.home, u.a.keep),
            b := InitialSide([e] + u.a.base, u.b.home, u.b.keep));
    assert InsertWhole(u, v, e, oldHome);
    InsertWholeKeeps(u, v, e, key, oldHome, oldShift);
    LinkedReaches(u, v, e, key, k, oldHome, oldShift);
  }

  lemma LinkedReaches(u: World, v: World, e: nat, key: seq<Key>, k: Key, oldHome: nat, oldShift: nat)
    requires InsertWhole(u, v, e, oldHome) && v.meta == u.meta && v.w == u.w
    ensures Reaches(u, v, key, k, oldHome, oldShift)
  {
    hide InsertWhole, Reaches, HeadsChange, Stores, Elsewhere, InsertOnSide;
    ReachesOthers(u, v, key, k, oldHome, oldShift);
  }

  /** The quick attempt looks at ten slots, or at all, and gives up. */
  lemma {:induction false} QuickThrough(u: World, i: nat, key: seq<Key>, k: Key, oldHome: nat, oldShift: nat)
    requires Fine(u, key, oldHome, oldShift) && u.whole && i <= QUICK_HOPS && i <= |u.a.base|
    requires u.w == Quick(oldHome, oldShift, if i == 0 then -1 else u.a.base[i - 1], i)
    requires forall j :: 0 <= j < |u.a.base| && j < QUICK_HOPS ==> !Matches(u.meta, key, k, u.a.base[j])
    ensures Reaches(u, u.(w := At(oldHome, oldShift, -1, -1)), key, k, oldHome, oldShift)
    decreases QUICK_HOPS - i
  {
    hide InWhole, After, Reaches;
    QuickLink(u, i, key, oldHome, oldShift);
    var v := u.(w := QuickHop(u.m, u.meta, key, k, u.w));
    ReachesHop(u, v, key, k, oldHome, oldShift);
    if i < QUICK_HOPS && i < |u.a.base| {
      FineSizes(u, key, oldHome, oldShift);
      QuickThrough(v, i + 1, key, k, oldHome, oldShift);
      ReachesTrans(u, v, u.(w := At(oldHome, oldShift, -1, -1)), key, k, oldHome, oldShift);
    }
  }

  lemma QuickLink(u: World, i: nat, key: seq<Key>, oldHome: nat, oldShift: nat)
    requires Fine(u, key, oldHome, oldShift) && u.whole && i <= |u.a.base|
    requires u.w.Quick? && u.w.home == oldHome && u.w.pos == if i == 0 then -1 else u.a.base[i - 1]
    ensures ReadLink(u.m, u.w).Unlock() == LinkTo(u.a.base[i..], oldHome, oldShift)
  {
    hide Fine, After;
    if i == 0 {
      HeadPointer(u, key, oldHome, oldShift);
      assert u.a.base[0..] == u.a.base;
    } else {
      ChainOnce(u, key, oldHome, oldShift);
      assert u.a.base[i - 1] in u.a.base;
      BasePointer(u, key, oldHome, oldShift, u.a.base[i - 1]);
      AfterAt(u.a.base, i - 1);
    }
  }

  /** The heads change. */
  lemma ChangeHeads(u: World, key: seq<Key>, k: Key, oldHome: nat, oldShift: nat) returns (v: World)
    requires Fine(u, key, oldHome, oldShift) && u.whole && Prepared(u.m, u.a.base, oldHome, oldShift)
    ensures Reaches(u, v, key, k, oldHome, oldShift) && Fine(v, key, oldHome, oldShift)
    ensures !v.whole && v.a == u.a && v.b == u.b && v.meta == u.meta && v.w == u.w
  {
    hide Seg, NoDup, InitialSide, FirstOf, Belongs, Pow2;
    var zero := FirstLink(FirstOf(u.a.base, Belongs(u.m.hash, oldHome, oldShift + 1)), oldHome, oldShift + 1);
    v := u.(m := u.m.(head := u.m.head[oldHome := zero]), whole := false);
    HeadsChangeKeeps(u, v, key, oldHome, oldShift);
    ReachesOthers(u, v, key, k, oldHome, oldShift);
  }

  /** Both sides begin with one new-shift pointer each. */
  ghost predicate Initial(u: World, base: seq<nat>)
  {
    u.a == InitialSide(base, u.a.home, u.a.keep) && u.b == InitialSide(base, u.b.home, u.b.keep)
  }

  lemma WholeInitial(u: World, key: seq<Key>, oldHome: nat, oldShift: nat)
    requires Fine(u, key, oldHome, oldShift) && u.whole
    ensures Initial(u, u.a.base)
  {
    hide BeforeInv, InitialSide, Belongs;
    WholeFacts(u, key, oldHome, oldShift);
  }

  /** The first hop leads to the first own entry, from where everything is ready, or the lookup ends. */
  lemma FirstHop(u: World, key: seq<Key>, k: Key, oldHome: nat, oldShift: nat) returns (v: World)
    requires Fine(u, key, oldHome, oldShift) && !u.whole && ForKey(u, k, oldHome, oldShift) && Initial(u, u.a.base)
    requires u.w == At(u.a.home, oldShift + 1, -1, -1)
    requires forall x :: x in u.a.base && Matches(u.meta, key, k, x) ==> Gap(u.a.base, Half(key, k, oldShift), u.meta, x)
    ensures Hops(u, v, key, k) && (v.w == Missing || Ready(v, key, k, oldHome, oldShift))
  {
    hide SplitInv, After, NoDup, Looking, Half, BottomBits, Hop, Matches, Restrict, Gap;
    FirstLook(u.a, u.b, k, oldShift, {});
    HopNew(u.m, u.a, u.b, u.meta, key, k, oldHome, oldShift, u.w, {});
    v := u.(w := Hop(u.m, u.meta, key, k, u.w));
    InitialFacts(u, key, oldHome, oldShift);
    if u.a.own != [] && Matches(u.meta, key, k, u.a.own[0]) {
      FirstHasNoGap(u, key, k, oldHome, oldShift);
    }
  }

  lemma FirstHasNoGap(u: World, key: seq<Key>, k: Key, oldHome: nat, oldShift: nat)
    requires Fine(u, key, oldHome, oldShift) && !u.whole && u.a.home == BottomBits(k.hash, oldShift + 1)
    requires u.a.own == Restrict(u.a.base, u.a.keep) && u.a.own != []
    ensures !Gap(u.a.base, Half(key, k, oldShift), u.meta, u.a.own[0])
  {
    hide SplitInv, After, NoDup, Half, BottomBits, Restrict;
    var f, base := u.a.own[0], u.a.base;
    BaseOnce(u.m, u.a, u.b, oldHome, oldShift);
    forall w: nat, y: nat, z: nat | Between(base, Half(key, k, oldShift), u.meta, f, w, y, z)
      ensures false
    {
      FirstIsFirst(u, key, k, oldHome, oldShift, w);
      AfterTrans(base, w, y, f);
    }
  }

  lemma InitialFacts(u: World, key: seq<Key>, oldHome: nat, oldShift: nat)
    requires Fine(u, key, oldHome, oldShift) && !u.whole && Initial(u, u.a.base)
    ensures u.a.own == Restrict(u.a.base, u.a.keep)
    ensures u.a.own != [] ==> OnRest(u.a, u.a.own[0]) && u.a.own[0] in u.a.base
    ensures forall z :: z in u.b.own ==> UpTo(u.b, z)
  {
    hide SideLinks, OnBase, NoDup, Restrict, FirstOf, AfterFirst, Belongs, BeforeFirst;
    OwnShape(u.a);
    OwnShape(u.b);
    RestrictMembers(u.a.base, u.a.keep);
    FirstSplits(u.a.base, u.a.keep);
    if FirstOf(u.a.base, u.a.keep) < 0 {
      RestrictNone(u.a.base, u.a.keep);
    }
  }

  /** From the end of the quick attempt on. */
  lemma FullWalkMisses(u: World, key: seq<Key>, k: Key, oldHome: nat, oldShift: nat) returns (v: World)
    requires Fine(u, key, oldHome, oldShift) && u.whole && ForKey(u, k, oldHome, oldShift) && u.w == At(oldHome, oldShift, -1, -1)
    requires Prepared(u.m, u.a.base, oldHome, oldShift)
    requires forall x :: x in u.a.base && Matches(u.meta, key, k, x) ==> Gap(u.a.base, Half(key, k, oldShift), u.meta, x)
    ensures Reaches(u, v, key, k, oldHome, oldShift) && v.w == Missing
  {
    hide InWhole, InSplit, After, Half, Gap, Matches, Hop, Looking, BottomBits, Reaches, Initial;
    WholeInitial(u, key, oldHome, oldShift);
    var c := ChangeHeads(u, key, k, oldHome, oldShift);
    CatchUp(c, key, k, oldHome, oldShift);
    var d := c.(w := At(c.a.home, oldShift + 1, -1, -1));
    ReachesHop(c, d, key, k, oldHome, oldShift);
    ReachesTrans(u, c, d, key, k, oldHome, oldShift);
    InitialSame(u, d);
    var e := FirstHop(d, key, k, oldHome, oldShift);
    ReachesHop(d, e, key, k, oldHome, oldShift);
    ReachesTrans(u, d, e, key, k, oldHome, oldShift);
    if e.w == Missing {
      v := e;
    } else {
      HopSame(d, e, key, k, oldHome, oldShift);
      ReadyFacts(e, key, k, oldHome, oldShift);
      v := Finish(e, key, k, oldHome, oldShift);
      ReachesTrans(u, e, v, key, k, oldHome, oldShift);
    }
  }

  lemma InitialSame(u: World, v: World)
    requires Initial(u, u.a.base) && v.a == u.a && v.b == u.b
    ensures Initial(v, v.a.base)
  {
  }

  lemma FirstTen(base: seq<nat>, meta: seq<Meta>, key: seq<Key>, k: Key)
    requires NoDup(base) && forall x :: x in base && Matches(meta, key, k, x) ==> QUICK_HOPS <= Front(base, x)
    ensures forall j :: 0 <= j < |base| && j < QUICK_HOPS ==> !Matches(meta, key, k, base[j])
  {
    hide After, Matches;
    forall j | 0 <= j < |base| && j < QUICK_HOPS
      ensures !Matches(meta, key, k, base[j])
    {
      AfterAt(base, j);
    }
  }

  /** Only entries of the chain itself can match. */
  lemma HiddenInBase(p: seq<nat>, chain: seq<nat>, free: set<nat>, meta: seq<Meta>, key: seq<Key>, k: Key, oldHome: nat, oldShift: nat)
    requires Chain(chain, free, meta, key, k, oldHome, oldShift) && Hides(p, chain, free, meta, key, k, oldShift)
    ensures forall x :: x in p + chain && Matches(meta, key, k, x) ==>
              Gap(p + chain, Half(key, k, oldShift), meta, x) && QUICK_HOPS <= Front(p + chain, x)
    ensures NoDup(p + chain)
  {
    hide Gap, Half, Front, BottomBits;
    NoDupJoin(p, chain);
  }

  lemma HiddenMiss(p: seq<nat>, chain: seq<nat>, free: set<nat>, meta: seq<Meta>, key: seq<Key>, k: Key, oldHome: nat, oldShift: nat)
    requires Chain(chain, free, meta, key, k, oldHome, oldShift) && Hides(p, chain, free, meta, key, k, oldShift)
    ensures CanMiss(chain, free, meta, key, k, oldHome, oldShift)
  {
    hide Chain, Fine, ForKey, Half, Gap, Matches, Reaches, Prepared, NoDup, Front, CanMiss;
    var base := p + chain;
    HiddenInBase(p, chain, free, meta, key, k, oldHome, oldShift);
    var u := Start(chain, free, base, meta, key, k, oldHome, oldShift);
    var a := LinkAll(u, p, base, key, k, oldHome, oldShift);
    var b := a.(w := Quick(oldHome, oldShift, -1, 0));
    BeginReaches(a, b, key, k, oldHome, oldShift);
    ReachesTrans(u, a, b, key, k, oldHome, oldShift);
    FirstTen(base, meta, key, k);
    SameFine(a, b, key, k, oldHome, oldShift);
    QuickThrough(b, 0, key, k, oldHome, oldShift);
    var c := b.(w := At(oldHome, oldShift, -1, -1));
    ReachesTrans(u, b, c, key, k, oldHome, oldShift);
    SameFine(a, c, key, k, oldHome, oldShift);
    var v := FullWalkMisses(c, key, k, oldHome, oldShift);
    ReachesTrans(u, c, v, key, k, oldHome, oldShift);
    TrailMisses(u, v, chain, free, meta, key, k, oldHome, oldShift);
  }

  lemma BeginReaches(u: World, v: World, key: seq<Key>, k: Key, oldHome: nat, oldShift: nat)
    requires u.w == Idle && v == u.(w := Quick(oldHome, oldShift, -1, 0))
    ensures Reaches(u, v, key, k, oldHome, oldShift)
  {
    hide OthersAct, Hops, Reaches;
    ReachesNext(u, v, key, k, oldHome, oldShift);
  }

  lemma SameFine(u: World, v: World, key: seq<Key>, k: Key, oldHome: nat, oldShift: nat)
    requires v == u.(w := v.w)
    ensures Fine(u, key, oldHome, oldShift) ==> Fine(v, key, oldHome, oldShift)
    ensures ForKey(u, k, oldHome, oldShift) ==> ForKey(v, k, oldHome, oldShift)
  {
    hide InWhole, InSplit, BottomBits;
  }

  lemma TrailMisses(u: World, v: World, chain: seq<nat>, free: set<nat>, meta: seq<Meta>, key: seq<Key>, k: Key, oldHome: nat, oldShift: nat)
    requires Fine(u, key, oldHome, oldShift) && ForKey(u, k, oldHome, oldShift) && u.whole && u.w == Idle && u.meta == meta
    requires u.a.base == chain && u.m.inflight == free && Reaches(u, v, key, k, oldHome, oldShift) && v.w == Missing
    ensures CanMiss(chain, free, meta, key, k, oldHome, oldShift)
  {
    hide Fine, ForKey, Next;
    var us :| Trail(us, u, v, key, k, oldHome, oldShift);
    assert Misses(us, chain, free, meta, key, k, oldHome, oldShift);
  }

  /**
   With the metadata as it is, some interleaving of a lookup with the split of its chain and with the inserts of others
   ends without finding anything if and only if some of the slots that are about to be linked can be linked so that
   every visible entry with the key lies in a gap and has ten slots in front.
   */
  lemma MissIff(chain: seq<nat>, free: set<nat>, meta: seq<Meta>, key: seq<Key>, k: Key, oldHome: nat, oldShift: nat)
    requires Chain(chain, free, meta, key, k, oldHome, oldShift)
    ensures CanMiss(chain, free, meta, key, k, oldHome, oldShift) <==>
            exists p: seq<nat> :: Hides(p, chain, free, meta, key, k, oldShift)
  {
    hide Chain, Hides, Misses;
    if CanMiss(chain, free, meta, key, k, oldHome, oldShift) {
      var us: seq<World> :| Misses(us, chain, free, meta, key, k, oldHome, oldShift);
      MissShows(us, chain, free, meta, key, k, oldHome, oldShift);
    }
    if p: seq<nat> :| Hides(p, chain, free, meta, key, k, oldShift) {
      HiddenMiss(p, chain, free, meta, key, k, oldHome, oldShift);
    }
  }

  /** With no inserts meanwhile: if and only if every visible entry with the key lies in a gap and has ten slots in front. */
  lemma MissIffAlone(chain: seq<nat>, meta: seq<Meta>, key: seq<Key>, k: Key, oldHome: nat, oldShift: nat)
    requires Chain(chain, {}, meta, key, k, oldHome, oldShift)
    ensures CanMiss(chain, {}, meta, key, k, oldHome, oldShift) <==>
            forall x :: x in chain && Matches(meta, key, k, x) ==>
              Gap(chain, Half(key, k, oldShift), meta, x) && QUICK_HOPS <= Front(chain, x)
  {
    hide Chain, CanMiss, Gap, Half, Matches, Front;
    MissIff(chain, {}, meta, key, k, oldHome, oldShift);
    assert [] + chain == chain;
    if p: seq<nat> :| Hides(p, chain, {}, meta, key, k, oldShift) {
      OnlyEmpty(p);
    } else {
      assert !Hides([], chain, {}, meta, key, k, oldShift);
    }
  }

  lemma OnlyEmpty(p: seq<nat>)
    requires forall e :: e in p ==> e in {}
    ensures p == []
  {
    if p != [] {
      HasFirst(p);
    }
  }

  lemma HasFirst(p: seq<nat>)
    requires p != []
    ensures exists e :: e in p
  {
    assert p[0] in p;
  }

  // ---- A lookup that misses an entry ----

  const DYING: Meta := Meta(Construction, 0, 0, false)
  const LIVE: Meta := Meta(Visible, 1, 1, false)

  /**
   Twelve entries on a chain of even hashes. Those with hash 2 modulo 4 are to move: the last but two, and the last,
   which is being destroyed. The entry between them is to stay, like those in front.
   */
  function TwelveHash(i: nat): nat { if i == 9 then 2 else if i == 11 then 6 else 4 * i }

  function Twelve(): seq<nat> { seq(12, i => i) }

  function TwelveKeys(): (r: seq<Key>)
    ensures |r| == 12
  {
    seq(12, i requires 0 <= i < 12 => Key(i, TwelveHash(i)))
  }

  function TwelveMetas(): seq<Meta> { seq(12, i => if i == 11 then DYING else LIVE) }

  lemma TwelveHomes()
    ensures Pow2(1) == 2 && Pow2(2) == 4
    ensures forall v :: 0 <= v < 12 ==> BottomBits(TwelveKeys()[v].hash, 1) == 0
    ensures forall v :: 0 <= v < 12 ==> BottomBits(TwelveKeys()[v].hash, 2) == if v == 9 || v == 11 then 2 else 0
  {
    assert Pow2(1) == 2 && Pow2(2) == 4;
    forall v | 0 <= v < 12
      ensures TwelveHash(v) % 2 == 0 && TwelveHash(v) % 4 == if v == 9 || v == 11 then 2 else 0
    {
    }
  }

  /** Entry 10 is on the chain and visible all along, nobody inserts anything, and a lookup of its key can miss it. */
  lemma MissedDuringSplit()
    ensures Chain(Twelve(), {}, TwelveMetas(), TwelveKeys(), Key(10, 40), 0, 1)
    ensures 10 in Twelve() && Matches(TwelveMetas(), TwelveKeys(), Key(10, 40), 10)
    ensures CanMiss(Twelve(), {}, TwelveMetas(), TwelveKeys(), Key(10, 40), 0, 1)
  {
    hide CanMiss, After, BottomBits, Pow2, Gap;
    TwelveHomes();
    var chain, key, meta, k := Twelve(), TwelveKeys(), TwelveMetas(), Key(10, 40);
    assert chain[10] == 10 && key[10] == k;
    InGap();
    assert [] + chain == chain;
    assert Hides([], chain, {}, meta, key, k, 1);
    HiddenMiss([], chain, {}, meta, key, k, 0, 1);
  }

  lemma InGap()
    ensures Gap(Twelve(), Half(TwelveKeys(), Key(10, 40), 1), TwelveMetas(), 10) && Front(Twelve(), 10) == 10
  {
    hide After, BottomBits, Pow2;
    TwelveHomes();
    var chain, half := Twelve(), Half(TwelveKeys(), Key(10, 40), 1);
    AfterAt(chain, 0);
    AfterAt(chain, 9);
    AfterAt(chain, 10);
    AfterAt(chain, 11);
    assert chain[1..][8] == 9 && chain[10..] == [10, 11] && chain[11..] == [11] && chain[12..] == [];
    assert TwelveKeys()[10].hash == 40;
    assert 0 in half && 9 !in half && 10 in half && 11 !in half;
    assert Between(chain, half, TwelveMetas(), 10, 0, 9, 11);
  }
}
