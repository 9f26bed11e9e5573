/**
 When a lookup can miss an entry during a split. It takes two things. The entry lies in a gap: between two neighbouring
 entries of the other half, of which the second is being destroyed, with an entry of its own half before the first.
 And there are enough slots in front of it for the quick attempt to give up.
 */
module LookupGap {
  import opened Bits
  import opened HashedKeys
  import opened ChainLinks
  import opened ChainSides
  import opened ChainSplit
  import opened ChainLookup
  import opened LookupRuns
  import opened SlotMeta

  // ---- The condition ----

  /** The slots with keys of the same half as k. */
  ghost function Half(key: seq<Key>, k: Key, oldShift: nat): set<nat>
  {
    set v | 0 <= v < |key| && BottomBits(key[v].hash, oldShift + 1) == BottomBits(k.hash, oldShift + 1)
  }

  /** Entry x lies between neighbouring entries y and z of the other half; z is being destroyed, and w comes before y. */
  ghost predicate Between(base: seq<nat>, half: set<nat>, meta: seq<Meta>, x: nat, w: nat, y: nat, z: nat)
  {
    && w in base && w in half && y in After(base, w) && y !in half
    && x in After(base, y) && z in After(base, x) && z !in half && z < |meta| && !meta[z].Shareable()
    && forall v :: v in After(base, y) && z in After(base, v) ==> v in half
  }

  ghost predicate Gap(base: seq<nat>, half: set<nat>, meta: seq<Meta>, x: nat)
  {
    exists w: nat, y: nat, z: nat :: Between(base, half, meta, x, w, y, z)
  }

  /** How many slots are in front of x. */
  ghost function Front(base: seq<nat>, x: nat): int { |base| - |After(base, x)| - 1 }

  // ---- Order on the chain ----

  lemma {:induction false} AfterTrans(p: seq<nat>, x: nat, y: nat, z: nat)
    requires NoDup(p) && y in After(p, x) && z in After(p, y)
    ensures z in After(p, x)
  {
    AfterMembers(p, x);
    if p[0] == x {
      AfterMembers(p[1..], y);
    } else {
      AfterMembers(p[1..], x);
      AfterTrans(p[1..], x, y, z);
    }
  }

  lemma {:induction false} AfterTotal(p: seq<nat>, x: nat, y: nat)
    requires NoDup(p) && x in p && y in p && x != y
    ensures y in After(p, x) || x in After(p, y)
  {
    if p[0] != x && p[0] != y {
      AfterTotal(p[1..], x, y);
    }
  }

  // ---- A slip shows a gap ----

  /** A lookup on a slot of the other half has passed an entry of its own half. */
  ghost predicate Passed(u: World)
  {
    u.w.At? && u.w.at >= 0 && u.w.at !in u.a.own ==>
      exists h :: h in u.a.own && h in u.a.base && u.w.at in After(u.a.base, h)
  }

  lemma HalfOf(u: World, key: seq<Key>, k: Key, oldHome: nat, oldShift: nat, v: nat)
    requires Fine(u, key, oldHome, oldShift) && !u.whole && u.a.home == BottomBits(k.hash, oldShift + 1) && v in u.a.base
    ensures v in u.a.own <==> v in Half(key, k, oldShift)
    ensures v in u.a.own || v in u.b.own
  {
    hide SplitInv, BottomBits;
    SideOf(u.m, u.a, u.b, key, u.meta, oldHome, oldShift, v);
    BaseOwned(u.m, u.a, u.b, oldHome, oldShift, v);
  }

  /** A slip past an entry shows that the entry lies in a gap. */
  lemma SlipNeedsGap(u: World, key: seq<Key>, k: Key, oldHome: nat, oldShift: nat, x: nat)
    requires Fine(u, key, oldHome, oldShift) && !u.whole && Looking(u.a, u.b, k, oldShift, u.w, {x}) && Passed(u)
    requires Slips(u.m, u.a, u.meta, u.w) && x in u.a.base && x !in After(u.a.base, ReadLink(u.m, u.w).idx)
    ensures Gap(u.a.base, Half(key, k, oldShift), u.meta, x)
  {
    hide SplitInv, After, BottomBits, Slips, Looking, NoDup, Half;
    LookingFacts(u.a, u.b, k, oldShift, u.w, {x});
    SlipsFacts(u.m, u.a, u.meta, u.w);
    BaseOnce(u.m, u.a, u.b, oldHome, oldShift);
    var base, y := u.a.base, u.w.at;
    var h :| h in u.a.own && h in base && y in After(base, h);
    SpotLink(u.m, u.a, u.b, oldHome, oldShift, y);
    SlipLink(u, key, oldHome, oldShift, y);
    var z := After(u.b.own, y)[0];
    SlipTarget(u.m, u.a, u.b, oldHome, oldShift, y);
    WantedAhead(u, key, k, oldHome, oldShift, x);
    HalfOf(u, key, k, oldHome, oldShift, h);
    HalfOf(u, key, k, oldHome, oldShift, y);
    HalfOf(u, key, k, oldHome, oldShift, z);
    AfterTotal(base, x, z);
    forall v | v in After(base, y) && z in After(base, v)
      ensures v in Half(key, k, oldShift)
    {
      AfterMembers(base, y);
      HalfOf(u, key, k, oldHome, oldShift, v);
      if v in u.b.own {
        FirstOther(u, key, oldHome, oldShift, y, v);
      }
    }
    assert Between(base, Half(key, k, oldShift), u.meta, x, h, y, z);
  }

  lemma WantedAhead(u: World, key: seq<Key>, k: Key, oldHome: nat, oldShift: nat, x: nat)
    requires Fine(u, key, oldHome, oldShift) && !u.whole && Looking(u.a, u.b, k, oldShift, u.w, {x}) && x in u.a.base
    requires u.w.at >= 0 && u.w.at !in u.a.own
    ensures x in After(u.a.base, u.w.at) && x in u.a.own
  {
    assert x in {x};
  }

  lemma SlipLink(u: World, key: seq<Key>, oldHome: nat, oldShift: nat, y: nat)
    requires Fine(u, key, oldHome, oldShift) && !u.whole && u.w.At? && u.w.at == y && u.w.shift == oldShift + 1
    requires Slips(u.m, u.a, u.meta, u.w) && y < |u.m.next|
    requires u.m.next[y] == LinkTo(After(u.a.base, y), oldHome, oldShift) || New(u.m.next, u.b, y, oldShift)
    ensures After(u.b.own, y) != [] && ReadLink(u.m, u.w).idx == After(u.b.own, y)[0]
    ensures After(u.b.own, y)[0] < |u.meta| && !u.meta[After(u.b.own, y)[0]].Shareable()
  {
    hide SplitInv, After;
  }

  /** The next entry of the other side is the first of them behind a slot. */
  lemma FirstOther(u: World, key: seq<Key>, oldHome: nat, oldShift: nat, y: nat, v: nat)
    requires Fine(u, key, oldHome, oldShift) && !u.whole && y in u.b.own && y in u.a.base && v in u.b.own && v in After(u.a.base, y)
    ensures After(u.b.own, y) != [] && After(u.b.own, y)[0] !in After(u.a.base, v)
  {
    hide After, NoDup, Restrict, SideLinks;
    OwnAfter(u.b, y);
    OwnShape(u.b);
    RestrictMembers(After(u.b.base, y), u.b.keep);
    AfterIsOnce(u.b.base, y);
    FirstInOrder(After(u.b.base, y), u.b.keep, v);
    AfterOfAfter(u.b.base, y, v);
  }

  lemma {:induction false} AfterIsOnce(p: seq<nat>, y: nat)
    requires NoDup(p)
    ensures NoDup(After(p, y))
  {
    if p != [] {
      AfterIsOnce(p[1..], y);
    }
  }

  lemma {:induction false} AfterOfAfter(p: seq<nat>, y: nat, v: nat)
    requires NoDup(p) && v in After(p, y)
    ensures After(p, v) == After(After(p, y), v)
  {
    AfterMembers(p, y);
    if p[0] == y {
      assert v != y;
    } else {
      AfterMembers(p[1..], y);
      AfterOfAfter(p[1..], y, v);
    }
  }

  /** The first member that is kept is not behind any other. */
  lemma {:induction false} FirstInOrder(p: seq<nat>, keep: set<nat>, v: nat)
    requires NoDup(p) && v in p && v in keep
    ensures Restrict(p, keep) != [] && Restrict(p, keep)[0] !in After(p, v)
  {
    if p[0] in keep {
      AfterMembers(p[1..], v);
    } else {
      assert v in p[1..];
      FirstInOrder(p[1..], keep, v);
      assert [] + Restrict(p[1..], keep) == Restrict(p[1..], keep);
    }
  }

}
