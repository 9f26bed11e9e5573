/**
 How the quick attempt of a lookup can end without the entry it looks for. Every slot that it looks at is further on
 than the one before. So either it looked at enough slots in front of the entry, or it went past the entry on the
 other side -- and then the split is past the entry, too, and the full walk will not slip there.
 */
module QuickAttempt {
  import opened Bits
  import opened HashedKeys
  import opened ChainLinks
  import opened ChainSides
  import opened ChainSplit
  import opened ChainLookup
  import opened LookupRuns
  import opened LookupGap

  // ---- How far along a slot is ----

  /** What was inserted on a side since the heads changed. */
  ghost function Inserted(s: Side): seq<nat>
  {
    var r := Restrict(s.base, s.keep);
    if |r| <= |s.own| then s.own[..|s.own| - |r|] else []
  }

  ghost predicate SideShape(s: Side)
  {
    && NoDup(s.base) && NoDup(s.own) && EndsWith(s.own, Restrict(s.base, s.keep))
    && forall x :: x in s.own ==> x in s.keep
  }

  lemma Shapes(u: World, key: seq<Key>, oldHome: nat, oldShift: nat)
    requires Fine(u, key, oldHome, oldShift)
    ensures SideShape(u.a) && SideShape(u.b) && u.b.base == u.a.base && u.a.keep !! u.b.keep
    ensures u.whole ==> Inserted(u.a) == [] && Inserted(u.b) == []
  {
    hide NoDup, EndsWith, SideLinks, InitialSide, BeforeInv, Restrict, Belongs;
    ChainOnce(u, key, oldHome, oldShift);
    KeepsApart(u, key, oldHome, oldShift);
    if u.whole {
      WholeFacts(u, key, oldHome, oldShift);
      EndsWithSelf(u.a.own);
      EndsWithSelf(u.b.own);
      RestrictMembers(u.a.base, u.a.keep);
      RestrictMembers(u.a.base, u.b.keep);
    } else {
      OwnShape(u.a);
      OwnShape(u.b);
    }
  }

  lemma KeepsApart(u: World, key: seq<Key>, oldHome: nat, oldShift: nat)
    requires Fine(u, key, oldHome, oldShift)
    ensures u.a.keep !! u.b.keep
  {
    hide NoDup, SideOk, OnBase, InitialSide, Seg, Pow2;
    if u.whole {
      WholeFacts(u, key, oldHome, oldShift);
    }
  }

  lemma InsertedFacts(s: Side)
    requires SideShape(s)
    ensures s.own == Inserted(s) + Restrict(s.base, s.keep) && NoDup(Inserted(s))
    ensures forall x :: x in Inserted(s) ==> x !in s.base && x in s.keep && x in s.own
    ensures forall x :: x in s.own <==> x in Inserted(s) || (x in s.base && x in s.keep)
  {
    hide NoDup, Restrict;
    var r := Restrict(s.base, s.keep);
    assert s.own == Inserted(s) + r;
    NoDupPrefix(Inserted(s), r);
    RestrictMembers(s.base, s.keep);
  }

  /** How many slots are behind an entry of a side, counting the whole old chain. */
  ghost function RankIn(s: Side, at: nat): nat
  {
    if at in s.base then |After(s.base, at)| else |s.base| + |After(Inserted(s), at)|
  }

  ghost function RankOf(u: World, at: nat): nat { if at in u.a.own then RankIn(u.a, at) else RankIn(u.b, at) }

  ghost function Inserts(u: World): nat { |Inserted(u.a)| + |Inserted(u.b)| }

  /** Going on along a side is going on. */
  lemma SideHop(s: Side, at: nat)
    requires SideShape(s) && at in s.own && After(s.own, at) != []
    ensures var y := After(s.own, at)[0]; y in s.own && RankIn(s, y) < RankIn(s, at)
    ensures at in s.base ==> After(s.own, at)[0] in After(s.base, at)
    ensures at !in s.base && After(s.own, at)[0] in s.base ==>
              Restrict(s.base, s.keep) != [] && After(s.own, at)[0] == Restrict(s.base, s.keep)[0]
  {
    hide NoDup, Restrict, After;
    InsertedFacts(s);
    var ins, r := Inserted(s), Restrict(s.base, s.keep);
    AfterMembers(s.own, at);
    var y := After(s.own, at)[0];
    assert y in After(s.own, at);
    if at in s.base {
      SideAfter(s, at);
      RestrictMembers(After(s.base, at), s.keep);
      AfterMembers(s.base, at);
      AfterShrinks(s.base, at, y);
    } else {
      var i :| 0 <= i < |ins| && ins[i] == at;
      AfterAt(s.own, i);
      AfterAt(ins, i);
      assert s.own[i] == at && y == s.own[i + 1];
      if i + 1 < |ins| {
        assert y == ins[i + 1];
        AfterAt(ins, i + 1);
      } else {
        assert y == r[0];
        RestrictMembers(s.base, s.keep);
        AfterMembers(s.base, y);
      }
    }
  }

  lemma SideAfter(s: Side, at: nat)
    requires SideShape(s) && at in s.own && at in s.base
    ensures After(s.own, at) == Restrict(After(s.base, at), s.keep) && at in s.keep
  {
    hide NoDup, Restrict, After;
    RestrictMembers(s.base, s.keep);
    AfterSuffix(s.own, Restrict(s.base, s.keep), at);
    AfterRestrict(s.base, s.keep, at);
  }

  /** A slot of the old chain is ahead of a slot that ranks higher. */
  lemma RankAhead(base: seq<nat>, at: nat, x: nat)
    requires NoDup(base) && at in base && x in base && |After(base, at)| > |After(base, x)|
    ensures x in After(base, at)
  {
    AfterTotal(base, at, x);
    if at in After(base, x) {
      AfterShrinks(base, x, at);
    }
  }

  /** What a side has ahead of one of its slots: an own entry of the old chain with a lower rank. */
  lemma SideAhead(s: Side, at: nat, x: nat)
    requires SideShape(s) && at in s.own && x in s.own && x in s.base && RankIn(s, at) > |After(s.base, x)|
    ensures x in After(s.own, at)
  {
    hide NoDup, Restrict, After;
    InsertedFacts(s);
    if at in s.base {
      RankAhead(s.base, at, x);
      SideAfter(s, at);
      RestrictMembers(After(s.base, at), s.keep);
    } else {
      var ins := Inserted(s);
      var i :| 0 <= i < |ins| && ins[i] == at;
      AfterAt(s.own, i);
      assert s.own[i] == at;
      var j :| 0 <= j < |s.own| && s.own[j] == x;
      assert x == s.own[i + 1..][j - i - 1];
    }
  }

  // ---- The two ways to miss ----

  /** The split is past x: all entries of the other half in front of it are upgraded. */
  ghost predicate Sealed(u: World, oldShift: nat, x: nat)
  {
    !u.whole && forall y :: y in u.b.own && y in u.a.base && x in After(u.a.base, y) ==> Upgraded(u, oldShift, y)
  }

  /** There are enough slots in front of x for the quick attempt to give up. */
  ghost predicate Enough(u: World, x: nat) { QUICK_HOPS <= Inserts(u) + Front(u.a.base, x) }

  ghost predicate QuickInv(u: World, oldShift: nat, x: nat)
  {
    && u.w.Quick? && x in u.a.base && x in u.a.own
    && if u.w.pos < 0 then u.w.hops == 0
       else
         && (u.w.pos in u.a.own || u.w.pos in u.b.own)
         && (Sealed(u, oldShift, x) ||
             (u.w.hops + RankOf(u, u.w.pos) <= |u.a.base| + Inserts(u) && RankOf(u, u.w.pos) > |After(u.a.base, x)|))
  }

  /** Where the quick attempt goes from a state in which it has not given up. */
  ghost predicate QuickOn(u: World, oldShift: nat, x: nat, y: nat)
  {
    u.w.Quick? && y != x ==> QuickInv(u.(w := u.w.(pos := y, hops := u.w.hops + 1)), oldShift, x)
  }

  /** Two entries of the other half, one before the other: if the later one is upgraded, so is the earlier one. */
  lemma UpgradedBefore(u: World, key: seq<Key>, oldHome: nat, oldShift: nat, y: nat, z: nat)
    requires Fine(u, key, oldHome, oldShift) && y in u.b.own && y in u.a.base && z in u.b.own && z in After(u.a.base, y)
    requires Upgraded(u, oldShift, z)
    ensures Upgraded(u, oldShift, y)
  {
    hide SideList, SideLinks, OnBase, After;
    OwnLink(u.m.head, u.m.next, u.b, y, oldHome, oldShift);
    if Old(u.m.next, u.b, y, oldHome, oldShift) {
      RestLink(u.m.head, u.m.next, u.b, z, oldHome, oldShift);
    }
  }

  /** If the last entry of the other half in front of x is upgraded, or there is none, the split is past x. */
  lemma SealedBy(u: World, key: seq<Key>, oldHome: nat, oldShift: nat, x: nat, last: int)
    requires Fine(u, key, oldHome, oldShift) && !u.whole
    requires last >= 0 ==> last in u.b.own && Upgraded(u, oldShift, last)
    requires forall y :: y in u.b.own && y in u.a.base && x in After(u.a.base, y) ==> y == last || last in After(u.a.base, y)
    ensures Sealed(u, oldShift, x)
  {
    hide Fine, After;
    forall y | y in u.b.own && y in u.a.base && x in After(u.a.base, y)
      ensures Upgraded(u, oldShift, y)
    {
      if y != last {
        AfterMembers(u.a.base, y);
        UpgradedBefore(u, key, oldHome, oldShift, y, last);
      }
    }
  }

  /** The first entry of the other half on the old chain is behind x: then there is none in front of it. */
  lemma SealedByFirst(u: World, key: seq<Key>, oldHome: nat, oldShift: nat, x: nat)
    requires Fine(u, key, oldHome, oldShift) && !u.whole && x in u.a.base && x in u.a.own
    requires var r := Restrict(u.a.base, u.b.keep); r == [] || x !in After(u.a.base, r[0])
    ensures Sealed(u, oldShift, x)
  {
    hide Fine, After, NoDup, Restrict;
    Shapes(u, key, oldHome, oldShift);
    InsertedFacts(u.b);
    var r := Restrict(u.a.base, u.b.keep);
    RestrictMembers(u.a.base, u.b.keep);
    forall y | y in u.b.own && y in u.a.base && x in After(u.a.base, y)
      ensures false
    {
      FirstInOrder(u.a.base, u.b.keep, y);
      if y != r[0] {
        AfterTotal(u.a.base, r[0], y);
        AfterTrans(u.a.base, r[0], y, x);
      }
    }
    SealedBy(u, key, oldHome, oldShift, x, -1);
  }

  // ---- One hop ----

  lemma AheadRank(base: seq<nat>, y: nat, x: nat)
    requires NoDup(base) && x in After(base, y)
    ensures |After(base, x)| < |After(base, y)|
  {
    AfterShrinks(base, y, x);
  }

  /** A hop to a slot in front of x. */
  lemma HopBefore(u: World, key: seq<Key>, oldHome: nat, oldShift: nat, x: nat, y: nat)
    requires Fine(u, key, oldHome, oldShift) && u.w.Quick? && x in u.a.base && x in u.a.own && (y in u.a.own || y in u.b.own)
    requires y in u.a.base ==> y == x || x in After(u.a.base, y)
    requires u.w.hops + 1 + RankOf(u, y) <= |u.a.base| + Inserts(u)
    ensures QuickOn(u, oldShift, x, y)
  {
    hide Fine, After, NoDup;
    Shapes(u, key, oldHome, oldShift);
    if y in u.a.base && y != x {
      AheadRank(u.a.base, y, x);
    }
    AfterMembers(u.a.base, x);
    RankAbove(u, key, oldHome, oldShift, x, y);
  }

  lemma RankAbove(u: World, key: seq<Key>, oldHome: nat, oldShift: nat, x: nat, y: nat)
    requires u.b.base == u.a.base && x in u.a.base && |After(u.a.base, x)| < |u.a.base|
    requires y in u.a.base && y != x ==> |After(u.a.base, x)| < |After(u.a.base, y)|
    ensures y != x ==> RankOf(u, y) > |After(u.a.base, x)|
  {
    hide After, Inserted;
  }

  /** Along the old chain, over a pointer that is not upgraded. */
  lemma QuickAlongBase(u: World, key: seq<Key>, oldHome: nat, oldShift: nat, x: nat)
    requires Fine(u, key, oldHome, oldShift) && QuickInv(u, oldShift, x) && !Sealed(u, oldShift, x) && u.w.pos >= 0
    requires u.w.pos in u.a.base
    ensures After(u.a.base, u.w.pos) != [] && QuickOn(u, oldShift, x, After(u.a.base, u.w.pos)[0])
  {
    hide Fine, After, NoDup, Sealed, EndsWith, Restrict, Inserts, Inserted;
    Shapes(u, key, oldHome, oldShift);
    var at, base := u.w.pos, u.a.base;
    RankAhead(base, at, x);
    AfterNext(base, at);
    AfterMembers(base, at);
    var y := After(base, at)[0];
    assert y in After(base, at);
    InBaseOwned(u, key, oldHome, oldShift, y);
    HopBefore(u, key, oldHome, oldShift, x, y);
  }

  lemma InBaseOwned(u: World, key: seq<Key>, oldHome: nat, oldShift: nat, y: nat)
    requires Fine(u, key, oldHome, oldShift) && y in u.a.base
    ensures y in u.a.own || y in u.b.own
  {
    hide SplitInv, NoDup, Seg, InitialSide, Restrict, Pow2, BottomBits;
    if u.whole {
      WholeFacts(u, key, oldHome, oldShift);
      RestrictMembers(u.a.base, u.a.keep);
      RestrictMembers(u.a.base, u.b.keep);
      TwoHomes(u.m.hash[y], oldHome, oldShift);
    } else {
      BaseOwned(u.m, u.a, u.b, oldHome, oldShift, y);
    }
  }

  /** Along the own side. */
  lemma QuickAlongOwn(u: World, key: seq<Key>, oldHome: nat, oldShift: nat, x: nat)
    requires Fine(u, key, oldHome, oldShift) && QuickInv(u, oldShift, x) && !Sealed(u, oldShift, x) && u.w.pos >= 0
    requires u.w.pos in u.a.own
    ensures After(u.a.own, u.w.pos) != [] && QuickOn(u, oldShift, x, After(u.a.own, u.w.pos)[0])
  {
    hide Fine, After, NoDup, Sealed, EndsWith, Restrict, Inserts, Inserted;
    Shapes(u, key, oldHome, oldShift);
    var at := u.w.pos;
    SideAhead(u.a, at, x);
    SideHop(u.a, at);
    AfterNext(u.a.own, at);
    var y := After(u.a.own, at)[0];
    if y in u.a.base && y != x {
      SideAfter(u.a, y);
      RestrictMembers(After(u.a.base, y), u.a.keep);
    }
    HopBefore(u, key, oldHome, oldShift, x, y);
  }

  /** Along the other side: to a slot in front of x, or the split is past x. */
  lemma QuickAlongOther(u: World, key: seq<Key>, oldHome: nat, oldShift: nat, x: nat)
    requires Fine(u, key, oldHome, oldShift) && !u.whole && QuickInv(u, oldShift, x) && !Sealed(u, oldShift, x) && u.w.pos >= 0
    requires u.w.pos in u.b.own && New(u.m.next, u.b, u.w.pos, oldShift)
    ensures After(u.b.own, u.w.pos) != [] && QuickOn(u, oldShift, x, After(u.b.own, u.w.pos)[0])
  {
    hide Fine, After, NoDup, Sealed, EndsWith, Restrict, Inserts, Inserted;
    Shapes(u, key, oldHome, oldShift);
    var at, base := u.w.pos, u.a.base;
    if at in base {
      RankAhead(base, at, x);
      if After(u.b.own, at) == [] || (x !in After(base, After(u.b.own, at)[0])) {
        PastOther(u, key, oldHome, oldShift, x, at);
      }
    } else if After(u.b.own, at) == [] {
      LastInserted(u.b, at);
      SealedByFirst(u, key, oldHome, oldShift, x);
    } else {
      SideHop(u.b, at);
      if After(u.b.own, at)[0] in base && x !in After(base, After(u.b.own, at)[0]) {
        SealedByFirst(u, key, oldHome, oldShift, x);
      }
    }
    SideHop(u.b, at);
    HopBefore(u, key, oldHome, oldShift, x, After(u.b.own, at)[0]);
  }

  lemma LastInserted(s: Side, at: nat)
    requires SideShape(s) && at in s.own && at !in s.base && After(s.own, at) == []
    ensures Restrict(s.base, s.keep) == []
  {
    hide NoDup, Restrict, After;
    InsertedFacts(s);
    var ins := Inserted(s);
    var i :| 0 <= i < |ins| && ins[i] == at;
    assert s.own[i] == at;
    AfterAt(s.own, i);
  }

  /** From an upgraded entry of the other half in front of x to nothing in front of x. */
  lemma PastOther(u: World, key: seq<Key>, oldHome: nat, oldShift: nat, x: nat, at: nat)
    requires Fine(u, key, oldHome, oldShift) && !u.whole && at in u.b.own && at in u.a.base && New(u.m.next, u.b, at, oldShift)
    requires x in After(u.a.base, at)
    requires After(u.b.own, at) == [] || x !in After(u.a.base, After(u.b.own, at)[0])
    ensures Sealed(u, oldShift, x)
  {
    hide Fine, After, NoDup, EndsWith, Restrict;
    Shapes(u, key, oldHome, oldShift);
    var base := u.a.base;
    forall y | y in u.b.own && y in base && x in After(base, y)
      ensures y == at || at in After(base, y)
    {
      if y != at {
        AfterTotal(base, y, at);
        if y in After(base, at) {
          FirstOther(u, key, oldHome, oldShift, at, y);
          var z := After(u.b.own, at)[0];
          SlipTargetIn(u, key, oldHome, oldShift, at);
          if z != y {
            AfterTotal(base, z, y);
            AfterTrans(base, z, y, x);
          }
        }
      }
    }
    SealedBy(u, key, oldHome, oldShift, x, at);
  }

  lemma SlipTargetIn(u: World, key: seq<Key>, oldHome: nat, oldShift: nat, at: nat)
    requires Fine(u, key, oldHome, oldShift) && !u.whole && at in u.b.own && at in u.a.base && After(u.b.own, at) != []
    ensures After(u.b.own, at)[0] in u.a.base
  {
    hide SplitInv, After;
    SlipTarget(u.m, u.a, u.b, oldHome, oldShift, at);
  }

  /** When the quick attempt gives up, the split is past x, or it looked at enough slots in front of x. */
  lemma GivesUp(u: World, key: seq<Key>, oldHome: nat, oldShift: nat, x: nat)
    requires Fine(u, key, oldHome, oldShift) && QuickInv(u, oldShift, x) && u.w.hops >= QUICK_HOPS
    ensures Sealed(u, oldShift, x) || Enough(u, x)
  {
    hide Fine, After, Sealed, Inserts, RankOf;
  }

  /** The quick attempt from the head while the chain is whole. */
  lemma QuickFromHead(u: World, key: seq<Key>, oldHome: nat, oldShift: nat, x: nat)
    requires Fine(u, key, oldHome, oldShift) && u.whole && QuickInv(u, oldShift, x) && u.w.pos < 0
    ensures u.a.base != [] && QuickOn(u, oldShift, x, u.a.base[0])
  {
    hide Fine, After, NoDup, Sealed, EndsWith, Restrict, Inserted;
    Shapes(u, key, oldHome, oldShift);
    var y := u.a.base[0];
    AfterAt(u.a.base, 0);
    InBaseOwned(u, key, oldHome, oldShift, y);
    HopBefore(u, key, oldHome, oldShift, x, y);
  }

  lemma FirstRank(s: Side)
    requires SideShape(s) && s.own != []
    ensures 1 + RankIn(s, s.own[0]) <= |s.base| + |Inserted(s)|
    ensures s.own[0] in s.base ==> Restrict(s.base, s.keep) != [] && s.own[0] == Restrict(s.base, s.keep)[0]
  {
    hide NoDup, Restrict, After;
    InsertedFacts(s);
    var ins, y := Inserted(s), s.own[0];
    AfterMembers(s.base, y);
    if ins != [] {
      assert y == ins[0];
      AfterAt(ins, 0);
    } else {
      assert s.own == Restrict(s.base, s.keep);
      assert y in s.own;
    }
  }

  /** From the head of the own side. */
  lemma QuickFromOwn(u: World, key: seq<Key>, oldHome: nat, oldShift: nat, x: nat)
    requires Fine(u, key, oldHome, oldShift) && QuickInv(u, oldShift, x) && u.w.pos < 0
    ensures u.a.own != [] && QuickOn(u, oldShift, x, u.a.own[0])
  {
    hide Fine, After, NoDup, Sealed, EndsWith, Restrict, Inserted, RankIn;
    Shapes(u, key, oldHome, oldShift);
    FirstRank(u.a);
    var y := u.a.own[0];
    assert y in u.a.own;
    if y in u.a.base && y != x {
      FirstInOrder(u.a.base, u.a.keep, x);
      AfterTotal(u.a.base, x, y);
    }
    HopBefore(u, key, oldHome, oldShift, x, y);
  }

  /** From the head of the other side: to a slot in front of x, or the split is past x. */
  lemma QuickFromOther(u: World, key: seq<Key>, oldHome: nat, oldShift: nat, x: nat)
    requires Fine(u, key, oldHome, oldShift) && !u.whole && QuickInv(u, oldShift, x) && u.w.pos < 0 && !Sealed(u, oldShift, x)
    ensures u.b.own != [] && QuickOn(u, oldShift, x, u.b.own[0])
  {
    hide Fine, After, NoDup, Sealed, EndsWith, Restrict, Inserted, RankIn;
    Shapes(u, key, oldHome, oldShift);
    InsertedFacts(u.b);
    if u.b.own == [] {
      SealedByFirst(u, key, oldHome, oldShift, x);
    }
    FirstRank(u.b);
    var y := u.b.own[0];
    assert y in u.b.own;
    if y in u.a.base && x !in After(u.a.base, y) {
      SealedByFirst(u, key, oldHome, oldShift, x);
    }
    OnOneSide(u, y);
    HopBefore(u, key, oldHome, oldShift, x, y);
  }

  lemma OnOneSide(u: World, y: nat)
    requires SideShape(u.a) && SideShape(u.b) && u.a.keep !! u.b.keep && y in u.b.own
    ensures y !in u.a.own
  {
    hide NoDup, EndsWith;
  }

  /** What the pointer read by the quick attempt is, unless the split is past x. */
  lemma QuickReads(u: World, key: seq<Key>, k: Key, oldHome: nat, oldShift: nat, x: nat)
    requires Fine(u, key, oldHome, oldShift) && QuickInv(u, oldShift, x) && !Sealed(u, oldShift, x)
    requires Kept(u, key, k, oldHome, oldShift, {x})
    ensures var link := ReadLink(u.m, u.w); !link.end && QuickOn(u, oldShift, x, link.idx)
  {
    hide InWhole, SplitInv, After, NoDup, Sealed, QuickOn, Looking, OldLooking, BottomBits, RankOf, Inserts;
    if u.w.pos < 0 {
      HeadPointer(u, key, oldHome, oldShift);
      if u.whole {
        QuickFromHead(u, key, oldHome, oldShift, x);
      } else {
        SplitInvSwap(u.m, u.a, u.b, oldHome, oldShift);
        HomesDiffer(u, key, oldHome, oldShift);
        HeadOfSide(u.m, u.a, u.b, oldHome, oldShift);
        HeadOfSide(u.m, u.b, u.a, oldHome, oldShift);
        QuickFromOwn(u, key, oldHome, oldShift, x);
        QuickFromOther(u, key, oldHome, oldShift, x);
      }
    } else {
      QuickReadsSlot(u, key, oldHome, oldShift, x);
    }
  }

  lemma QuickReadsSlot(u: World, key: seq<Key>, oldHome: nat, oldShift: nat, x: nat)
    requires Fine(u, key, oldHome, oldShift) && QuickInv(u, oldShift, x) && !Sealed(u, oldShift, x) && u.w.pos >= 0
    ensures var link := ReadLink(u.m, u.w); !link.end && QuickOn(u, oldShift, x, link.idx)
  {
    hide InWhole, SplitInv, After, NoDup, Sealed, QuickOn;
    var at := u.w.pos;
    if u.whole {
      WholeOwnInBase(u, key, oldHome, oldShift, at);
      BasePointer(u, key, oldHome, oldShift, at);
      QuickAlongBase(u, key, oldHome, oldShift, x);
    } else if at in u.a.own {
      SpotLink(u.m, u.a, u.b, oldHome, oldShift, at);
      if New(u.m.next, u.a, at, oldShift) {
        QuickAlongOwn(u, key, oldHome, oldShift, x);
      } else {
        QuickAlongBase(u, key, oldHome, oldShift, x);
      }
    } else {
      SplitInvSwap(u.m, u.a, u.b, oldHome, oldShift);
      SpotLink(u.m, u.b, u.a, oldHome, oldShift, at);
      if New(u.m.next, u.b, at, oldShift) {
        QuickAlongOther(u, key, oldHome, oldShift, x);
      } else {
        BaseOnce(u.m, u.a, u.b, oldHome, oldShift);
        QuickAlongBase(u, key, oldHome, oldShift, x);
      }
    }
  }

  lemma WholeOwnInBase(u: World, key: seq<Key>, oldHome: nat, oldShift: nat, at: nat)
    requires Fine(u, key, oldHome, oldShift) && u.whole && (at in u.a.own || at in u.b.own)
    ensures at in u.a.base
  {
    hide Fine;
    WholeFacts(u, key, oldHome, oldShift);
    RestrictMembers(u.a.base, u.a.keep);
    RestrictMembers(u.a.base, u.b.keep);
  }

  /** One hop of the quick attempt. */
  lemma QuickHopInv(u: World, v: World, key: seq<Key>, k: Key, oldHome: nat, oldShift: nat, x: nat)
    requires Fine(u, key, oldHome, oldShift) && ForKey(u, k, oldHome, oldShift) && QuickInv(u, oldShift, x)
    requires Kept(u, key, k, oldHome, oldShift, {x}) && Matches(u.meta, key, k, x) && Hops(u, v, key, k)
    ensures v.w.Quick? ==> QuickInv(v, oldShift, x)
    ensures v.w.At? ==> v.w.at < 0 && (Sealed(v, oldShift, x) || Enough(v, x))
    ensures v.w.Quick? || v.w.At? || v.w.Found?
  {
    hide Fine, After, Kept, Sealed, Enough, ForKey;
    if Sealed(u, oldShift, x) {
      SealedHop(u, v, key, k, oldHome, oldShift, x);
    } else {
      QuickReads(u, key, k, oldHome, oldShift, x);
      if u.w.hops >= QUICK_HOPS {
        GivesUp(u, key, oldHome, oldShift, x);
      }
      SealedSame(u, v, oldShift, x);
    }
  }

  lemma SealedSame(u: World, v: World, oldShift: nat, x: nat)
    requires v == u.(w := v.w)
    ensures Sealed(u, oldShift, x) <==> Sealed(v, oldShift, x)
    ensures Enough(u, x) <==> Enough(v, x)
  {
  }

  lemma SealedHop(u: World, v: World, key: seq<Key>, k: Key, oldHome: nat, oldShift: nat, x: nat)
    requires Fine(u, key, oldHome, oldShift) && ForKey(u, k, oldHome, oldShift) && QuickInv(u, oldShift, x)
    requires Sealed(u, oldShift, x) && Kept(u, key, k, oldHome, oldShift, {x}) && Hops(u, v, key, k)
    ensures Sealed(v, oldShift, x) && (v.w.Quick? ==> QuickInv(v, oldShift, x)) && (v.w.At? ==> v.w.at < 0)
    ensures v.w.Quick? || v.w.At? || v.w.Found?
  {
    hide InSplit, After, Looking, OldLooking, BottomBits, Inserts;
    HomesDiffer(u, key, oldHome, oldShift);
    QuickPointer(u, key, oldHome, oldShift);
  }

  // ---- Steps of other threads ----

  lemma NotAboutToBeLinked(u: World, key: seq<Key>, oldHome: nat, oldShift: nat, y: nat)
    requires Fine(u, key, oldHome, oldShift) && !u.whole && y in u.a.base
    ensures y !in u.m.inflight
  {
    hide SideLinks, OnBase, NoDup, Restrict;
    BaseOwned(u.m, u.a, u.b, oldHome, oldShift, y);
    OwnShape(u.a);
    OwnShape(u.b);
  }

  /** A pointer of the old chain that is upgraded stays so. */
  lemma UpgradedStays(u: World, v: World, key: seq<Key>, oldHome: nat, oldShift: nat, y: nat)
    requires Fine(u, key, oldHome, oldShift) && OthersAct(u, v, oldHome, oldShift) && y in u.a.base && Upgraded(u, oldShift, y)
    ensures Upgraded(v, oldShift, y)
  {
    hide Fine, FirstOf, AfterFirst, InitialSide;
    NotAboutToBeLinked(u, key, oldHome, oldShift, y);
  }

  lemma SealedStays(u: World, v: World, key: seq<Key>, oldHome: nat, oldShift: nat, x: nat)
    requires Fine(u, key, oldHome, oldShift) && OthersAct(u, v, oldHome, oldShift) && Sealed(u, oldShift, x)
    ensures Sealed(v, oldShift, x)
  {
    hide Fine, OthersAct, After, EndsWith, NoDup, Upgraded;
    OthersKeepFine(u, v, key, oldHome, oldShift);
    Shapes(v, key, oldHome, oldShift);
    SuffixIn(u.a.own, v.a.own);
    forall y | y in v.b.own && y in v.a.base && x in After(v.a.base, y)
      ensures Upgraded(v, oldShift, y)
    {
      InBaseOwned(u, key, oldHome, oldShift, y);
      OnOneSide(v, y);
      UpgradedStays(u, v, key, oldHome, oldShift, y);
    }
  }

  lemma InsertedGrows(s: Side, t: Side)
    requires SideShape(s) && SideShape(t) && t.keep == s.keep && t.base == s.base && EndsWith(t.own, s.own)
    ensures EndsWith(Inserted(t), Inserted(s)) && |Inserted(s)| <= |Inserted(t)|
  {
    hide NoDup, Restrict;
    var r := Restrict(s.base, s.keep);
    assert t.own[|t.own| - |s.own|..] == s.own;
    assert Inserted(t)[|t.own| - |s.own|..] == t.own[|t.own| - |s.own|..][..|s.own| - |r|];
  }

  lemma RankStays(s: Side, t: Side, at: nat)
    requires SideShape(s) && SideShape(t) && t.keep == s.keep && t.base == s.base && EndsWith(t.own, s.own) && at in s.own
    ensures RankIn(t, at) == RankIn(s, at)
  {
    hide NoDup, Restrict, After, EndsWith, Inserted;
    InsertedGrows(s, t);
    InsertedFacts(s);
    InsertedFacts(t);
    if at !in s.base {
      AfterGrows(Inserted(s), Inserted(t), at);
    }
  }

  /** More slots may come in front of x, none go away. */
  lemma EnoughStays(u: World, v: World, key: seq<Key>, oldHome: nat, oldShift: nat, x: nat)
    requires Fine(u, key, oldHome, oldShift) && OthersAct(u, v, oldHome, oldShift) && x in u.a.base
    ensures After(v.a.base, x) == After(u.a.base, x) && |u.a.base| + Inserts(u) <= |v.a.base| + Inserts(v)
    ensures Enough(u, x) ==> Enough(v, x)
  {
    hide Fine, OthersAct, After, NoDup, Inserted, Restrict;
    OthersKeepFine(u, v, key, oldHome, oldShift);
    Shapes(u, key, oldHome, oldShift);
    Shapes(v, key, oldHome, oldShift);
    AfterGrows(u.a.base, v.a.base, x);
    if !u.whole {
      InsertedGrows(u.a, v.a);
      InsertedGrows(u.b, v.b);
    }
  }

  lemma RankOfStays(u: World, v: World, key: seq<Key>, oldHome: nat, oldShift: nat, at: nat)
    requires Fine(u, key, oldHome, oldShift) && OthersAct(u, v, oldHome, oldShift) && (at in u.a.own || at in u.b.own)
    ensures RankOf(v, at) == RankOf(u, at) && (at in v.a.own || at in v.b.own)
  {
    hide Fine, OthersAct, After, NoDup, Inserted, Restrict, EndsWith;
    OthersKeepFine(u, v, key, oldHome, oldShift);
    Shapes(u, key, oldHome, oldShift);
    Shapes(v, key, oldHome, oldShift);
    SuffixIn(u.a.own, v.a.own);
    SuffixIn(u.b.own, v.b.own);
    if u.whole {
      WholeOwnInBase(u, key, oldHome, oldShift, at);
      AfterGrows(u.a.base, v.a.base, at);
    } else if at in u.a.own {
      RankStays(u.a, v.a, at);
    } else {
      OnOneSide(v, at);
      RankStays(u.b, v.b, at);
    }
  }

  lemma QuickInvStays(u: World, v: World, key: seq<Key>, oldHome: nat, oldShift: nat, x: nat)
    requires Fine(u, key, oldHome, oldShift) && OthersAct(u, v, oldHome, oldShift) && QuickInv(u, oldShift, x)
    ensures QuickInv(v, oldShift, x)
  {
    hide Fine, OthersAct, After, RankOf, Inserts, Sealed, EndsWith;
    OthersKeepFine(u, v, key, oldHome, oldShift);
    SuffixIn(u.a.base, v.a.base);
    SuffixIn(u.a.own, v.a.own);
    EnoughStays(u, v, key, oldHome, oldShift, x);
    if u.w.pos >= 0 {
      RankOfStays(u, v, key, oldHome, oldShift, u.w.pos);
      if Sealed(u, oldShift, x) {
        SealedStays(u, v, key, oldHome, oldShift, x);
      }
    }
  }
}
