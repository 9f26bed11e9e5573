/**
 One hop of a lookup while its chain is being split. The lookup takes no lock: it reads one pointer at a time, from the
 head or from the slot it has come to, and between two reads the splitting thread may have stored new pointers, and
 other threads may have pushed entries and changed metadata. The shift on a pointer tells it what to make of it.

 A split state is a memory with its two target chains, `a` for the key that is looked up and `b` for the other half.
 */
module ChainLookup {
  import opened Bits
  import opened HashedKeys
  import opened ChainLinks
  import opened ChainSides
  import opened ChainSplit
  import opened SlotMeta

  // ---- The lookup ----

  /**
   Where a lookup stands: the home and shift that it goes by and the slot whose pointer it reads next (-1 for the
   head). In its quick attempt it counts the slots it has looked at; in the full walk it remembers the last slot on
   which it took a reference for falling back on (-1 for none). Or it has not begun, or this is how it ended.
   */
  datatype Walker =
    | Idle
    | Quick(home: nat, shift: nat, pos: int, hops: nat)
    | At(home: nat, shift: nat, at: int, safe: int)
    | Found(slot: nat)
    | Missing

  /** The quick attempt looks at no more slots than this. */
  const QUICK_HOPS: nat := 10

  function ReadLink(m: Mem, w: Walker): Link
    requires w.At? || w.Quick?
  {
    var at := if w.Quick? then w.pos else w.at;
    if at < 0 then if w.home < |m.head| then m.head[w.home] else UnusedLink
    else if at < |m.next| then m.next[at] else UnusedLink
  }

  /** One hop of the quick attempt: it minds no shifts, and gives up at any end marker and after enough slots. */
  function QuickHop(m: Mem, meta: seq<Meta>, key: seq<Key>, k: Key, w: Walker): Walker
    requires w.Quick?
  {
    var link := ReadLink(m, w);
    if link.end || w.hops >= QUICK_HOPS then At(w.home, w.shift, -1, -1)
    else if link.idx < |meta| && link.idx < |key| && meta[link.idx].state == Visible && key[link.idx] == k then Found(link.idx)
    else w.(pos := link.idx, hops := w.hops + 1)
  }

  function Step(m: Mem, meta: seq<Meta>, key: seq<Key>, k: Key, w: Walker): Walker
  {
    if w.Quick? then QuickHop(m, meta, key, k, w) else if w.At? then Hop(m, meta, key, k, w) else w
  }

  /** Reads one pointer and acts on it. */
  function Hop(m: Mem, meta: seq<Meta>, key: seq<Key>, k: Key, w: Walker): Walker
    requires w.At?
  {
    var link := ReadLink(m, w);
    if link.shift > w.shift then
      // Newer than what the lookup goes by: one more hash bit, or back to where it is sure to be on the chain.
      if w.at == w.safe then At(BottomBits(k.hash, w.shift + 1), w.shift + 1, -1, -1) else w.(at := w.safe)
    else
      // A pointer that is not upgraded yet is read as it was meant.
      var home := if link.shift < w.shift then BottomBits(w.home, link.shift) else w.home;
      if link.end then if link.idx == home then Missing else w.(at := w.safe)
      else Look(meta, key, k, w, link, home)
  }

  /** Looks at the slot that a pointer leads to. */
  function Look(meta: seq<Meta>, key: seq<Key>, k: Key, w: Walker, link: Link, home: nat): Walker
    requires w.At?
  {
    var h := link.idx;
    if h >= |meta| || h >= |key| then w
    else if !meta[h].Shareable() then w.(at := h)
    else if meta[h].state == Visible && key[h] == k then Found(h)
    else if link.shift == 0 || BottomBits(key[h].hash, link.shift) != home then w.(at := w.safe)
    else if link.shift != w.shift && BottomBits(key[h].hash, w.shift) != w.home then w.(at := h)
    else w.(at := h, safe := h)
  }

  /**
   Whatever pointer led to an entry, upgraded or not: the lookup will fall back on it if and only if it is an entry of the
   home that is looked up.
   */
  lemma FallsBackOnOwn(m: Mem, meta: seq<Meta>, key: seq<Key>, k: Key, w: Walker)
    requires w.At? && ReadLink(m, w).idx < |meta| == |key| && meta[ReadLink(m, w).idx].Shareable()
    ensures var h, w' := ReadLink(m, w).idx, Hop(m, meta, key, k, w);
            w'.At? && w'.shift == w.shift && w'.at == h && h != w.safe ==>
              (w'.safe == h <==> BottomBits(key[h].hash, w.shift) == w.home) && (w'.safe != h ==> w'.safe == w.safe)
  {
    hide BottomBits;
  }

  ghost predicate Matches(meta: seq<Meta>, key: seq<Key>, k: Key, x: nat)
  {
    x < |meta| && x < |key| && meta[x].state == Visible && key[x] == k
  }

  // ---- Behind a slot ----

  ghost function After(p: seq<nat>, x: nat): seq<nat>
  {
    if p == [] then [] else if p[0] == x then p[1..] else After(p[1..], x)
  }

  lemma {:induction false} AfterAt(p: seq<nat>, i: nat)
    requires NoDup(p) && i < |p|
    ensures After(p, p[i]) == p[i + 1..]
  {
    if i > 0 {
      assert p[0] != p[i];
      AfterAt(p[1..], i - 1);
      assert p[1..][i..] == p[i + 1..];
    }
  }

  lemma {:induction false} AfterConcat(p: seq<nat>, q: seq<nat>, x: nat)
    requires x !in p
    ensures After(p + q, x) == After(q, x)
  {
    if p == [] {
      assert p + q == q;
    } else {
      AfterConcat(p[1..], q, x);
      assert (p + q)[1..] == p[1..] + q;
    }
  }

  lemma {:induction false} AfterMembers(p: seq<nat>, x: nat)
    ensures forall y :: y in After(p, x) ==> y in p
    ensures NoDup(p) ==> x !in After(p, x)
    ensures |After(p, x)| <= |p| && (p != [] ==> |After(p, x)| < |p|)
  {
    if p != [] {
      AfterMembers(p[1..], x);
    }
  }

  /** Behind the slot that comes next is what was behind the slot before, without it. */
  lemma {:induction false} AfterNext(p: seq<nat>, x: nat)
    requires NoDup(p) && After(p, x) != []
    ensures After(p, x) == [After(p, x)[0]] + After(p, After(p, x)[0])
    ensures |After(p, After(p, x)[0])| < |After(p, x)|
  {
    if p[0] == x {
      AfterAt(p, 1);
    } else {
      AfterNext(p[1..], x);
      AfterMembers(p[1..], x);
      assert After(p, x)[0] in p[1..];
    }
  }

  lemma {:induction false} AfterRestrict(p: seq<nat>, keep: set<nat>, x: nat)
    requires NoDup(p) && x in p && x in keep
    ensures After(Restrict(p, keep), x) == Restrict(After(p, x), keep)
  {
    if p[0] != x {
      AfterRestrict(p[1..], keep, x);
      var r := Restrict(p[1..], keep);
      if p[0] in keep {
        assert Restrict(p, keep) == [p[0]] + r;
        assert ([p[0]] + r)[1..] == r;
      } else {
        assert [] + r == r;
      }
    } else {
      assert ([x] + Restrict(p[1..], keep))[1..] == Restrict(p[1..], keep);
    }
  }

  lemma AfterSuffix(p: seq<nat>, q: seq<nat>, x: nat)
    requires EndsWith(p, q) && NoDup(p) && x in q
    ensures After(p, x) == After(q, x) && x in p
  {
    var r := p[..|p| - |q|];
    assert p == r + q;
    NoDupPrefix(r, q);
    AfterConcat(r, q, x);
  }

  // ---- The pointers of a chain that is being split ----

  /** The pointer to the first of some slots, or the end marker. */
  function LinkTo(p: seq<nat>, home: nat, shift: nat): Link
  {
    if p == [] then EndLink(home, shift) else NextLink(p[0], shift)
  }

  lemma {:induction false} SegAt(next: seq<Link>, a: Link, p: seq<nat>, shift: nat, b: Link, i: nat)
    requires Seg(next, a, p, shift, b) && i < |p|
    ensures p[i] < |next| && next[p[i]] == if i + 1 < |p| then NextLink(p[i + 1], shift) else b
    decreases |p|
  {
    if i > 0 {
      SegAt(next, next[p[0]], p[1..], shift, b, i - 1);
    } else if |p| > 1 {
      assert p[1..][0] == p[1];
    }
  }

  /** The own entries of a side are its new-shift part and its share of the rest, each once. */
  lemma OwnShape(s: Side)
    requires SideList(s)
    ensures s.own == s.front + Restrict(s.rest, s.keep) && NoDup(s.own)
    ensures forall x :: x in s.own <==> (x in s.front || x in s.rest) && x in s.keep
  {
    hide NoDup;
    RestrictConcat(s.front, s.rest, s.keep);
    RestrictAll(s.front, s.keep);
    RestrictNoDup(s.front + s.rest, s.keep);
    RestrictMembers(s.front + s.rest, s.keep);
  }

  /** The head of a side points at its first own entry. */
  lemma HeadLink(head: seq<Link>, next: seq<Link>, s: Side, oldHome: nat, oldShift: nat)
    requires SideOk(head, next, s, oldHome, oldShift)
    ensures s.home < |head| && head[s.home].Unlock() == LinkTo(s.own, s.home, oldShift + 1)
  {
    hide NoDup;
    OwnShape(s);
  }

  /** A pointer that is not upgraded yet leads on along the old chain, of which nothing behind it is upgraded. */
  ghost predicate Old(next: seq<Link>, s: Side, x: nat, oldHome: nat, oldShift: nat)
  {
    && x < |next| && x in s.base && next[x] == LinkTo(After(s.base, x), oldHome, oldShift)
    && forall y :: y in After(s.base, x) ==> y in s.rest
  }

  /** A pointer that is upgraded leads on along the side. */
  ghost predicate New(next: seq<Link>, s: Side, x: nat, oldShift: nat)
  {
    x < |next| && next[x] == LinkTo(After(s.own, x), s.home, oldShift + 1)
  }

  /** The pointer of every own entry leads on along the old chain or along the side, and its shift says which. */
  lemma OwnLink(head: seq<Link>, next: seq<Link>, s: Side, x: nat, oldHome: nat, oldShift: nat)
    requires SideOk(head, next, s, oldHome, oldShift) && OnBase(s) && x in s.own
    ensures Old(next, s, x, oldHome, oldShift) || New(next, s, x, oldShift)
    ensures x in s.rest ==> Old(next, s, x, oldHome, oldShift)
  {
    hide NoDup, Restrict, After;
    OwnShape(s);
    if x in s.rest {
      RestLink(head, next, s, x, oldHome, oldShift);
    } else {
      FrontLink(head, next, s, x, oldHome, oldShift);
    }
  }

  /** So does the pointer of every slot in the rest, own or not. */
  lemma RestLink(head: seq<Link>, next: seq<Link>, s: Side, x: nat, oldHome: nat, oldShift: nat)
    requires SideOk(head, next, s, oldHome, oldShift) && OnBase(s) && x in s.rest
    ensures Old(next, s, x, oldHome, oldShift)
  {
    hide NoDup, Restrict, After;
    var j :| 0 <= j < |s.rest| && s.rest[j] == x;
    SegAt(next, next[Last(s.front)], s.rest, oldShift, EndLink(oldHome, oldShift), j);
    EndsWithTail(s.base, [Last(s.front)], s.rest);
    NoDupPrefix(s.front, s.rest);
    AfterAt(s.rest, j);
    AfterSuffix(s.base, s.rest, x);
  }

  lemma FrontLink(head: seq<Link>, next: seq<Link>, s: Side, x: nat, oldHome: nat, oldShift: nat)
    requires SideOk(head, next, s, oldHome, oldShift) && OnBase(s) && x in s.front
    ensures Old(next, s, x, oldHome, oldShift) || New(next, s, x, oldShift)
  {
    hide NoDup, Restrict, After, Seg;
    OwnShape(s);
    var i :| 0 <= i < |s.front| && s.front[i] == x;
    var last := if s.open then next[Last(s.front)] else EndLink(s.home, oldShift + 1);
    SegAt(next, head[s.home].Unlock(), s.front, oldShift + 1, last, i);
    if s.open && i + 1 == |s.front| {
      FirstOfSeg(next, last, s.rest, oldShift, EndLink(oldHome, oldShift));
      AfterSuffix(s.base, [x] + s.rest, x);
      AfterHead(x, s.rest);
    } else {
      assert s.own[i] == x;
      AfterAt(s.own, i);
      if !s.open {
        RestrictNone([], s.keep);
      }
    }
  }

  lemma AfterHead(x: nat, p: seq<nat>)
    ensures After([x] + p, x) == p
  {
  }

  /** For an own entry of the old chain, its side goes on with the side's share of what comes behind it there. */
  lemma OwnAfter(s: Side, x: nat)
    requires SideList(s) && OnBase(s) && x in s.own && x in s.base
    ensures After(s.own, x) == Restrict(After(s.base, x), s.keep)
  {
    hide NoDup, Restrict, After;
    OwnShape(s);
    RestrictMembers(s.base, s.keep);
    AfterSuffix(s.own, Restrict(s.base, s.keep), x);
    AfterRestrict(s.base, s.keep, x);
  }

  /** Every entry of the old chain is on one of the two sides. */
  lemma BaseOwned(m: Mem, a: Side, b: Side, oldHome: nat, oldShift: nat, x: nat)
    requires SplitInv(m, a, b, oldHome, oldShift) && x in a.base
    ensures x in a.own || x in b.own
    ensures x in a.own <==> x in a.keep
  {
    hide NoDup, Restrict;
    EitherKeep(m, a, b, oldHome, oldShift, x);
    SuffixOwned(a, x);
    SuffixOwned(b, x);
    OwnShape(a);
    OwnShape(b);
  }

  lemma SuffixOwned(s: Side, x: nat)
    requires OnBase(s) && x in s.base
    ensures x in s.keep ==> x in s.own
  {
    hide NoDup, Restrict;
    RestrictMembers(s.base, s.keep);
    var r := Restrict(s.base, s.keep);
    assert s.own == s.own[..|s.own| - |r|] + r;
  }

  // ---- What a lookup still has ahead of it ----

  /** Slot x of side `a` lies ahead of a position: behind it on the side or, for a slot of the other side, on the old chain. */
  ghost predicate Ahead(a: Side, at: int, x: nat)
  {
    x in a.own &&
    if at < 0 then true else if at in a.own then x in After(a.own, at) else x in After(a.base, at)
  }

  /** A position that a lookup for side `a` can come to. */
  ghost predicate Spot(a: Side, b: Side, at: int) { at < 0 || at in a.own || (at in b.own && at in a.base) }

  /** The lookup has all wanted entries ahead of it, from where it stands and from where it would fall back to. */
  ghost predicate Looking(a: Side, b: Side, k: Key, oldShift: nat, w: Walker, wanted: set<nat>)
  {
    && w.At? && w.home == a.home == BottomBits(k.hash, oldShift + 1) && w.shift == oldShift + 1
    && Spot(a, b, w.at) && (w.safe < 0 || w.safe in a.own)
    && forall x :: x in wanted ==> Ahead(a, w.at, x) && Ahead(a, w.safe, x)
  }

  ghost predicate InSplit(m: Mem, a: Side, b: Side, meta: seq<Meta>, key: seq<Key>, oldHome: nat, oldShift: nat)
  {
    && SplitInv(m, a, b, oldHome, oldShift) && oldShift > 0 && |meta| == |key| == |m.hash| == |m.next|
    && forall x :: 0 <= x < |key| ==> key[x].hash == m.hash[x]
  }

  /** On the old chain, what lies ahead of a slot is what comes behind it. */
  lemma AheadOnBase(a: Side, at: nat, x: nat)
    requires SideList(a) && OnBase(a) && at in a.base && x in a.own
    ensures Ahead(a, at, x) <==> x in After(a.base, at)
  {
    hide NoDup, Restrict, After;
    if at in a.own {
      OwnAfter(a, at);
      RestrictMembers(After(a.base, at), a.keep);
      OwnShape(a);
    }
  }

  lemma OldHomeOf(m: Mem, a: Side, b: Side, oldHome: nat, oldShift: nat)
    requires SplitInv(m, a, b, oldHome, oldShift)
    ensures BottomBits(a.home, oldShift) == oldHome && a.home != b.home
  {
    ModIsUnique(oldHome, Pow2(oldShift), 0, oldHome);
    ModIsUnique(oldHome + Pow2(oldShift), Pow2(oldShift), 1, oldHome);
  }

  /** What a slot's own hash says about which side it is on. */
  lemma SideOf(m: Mem, a: Side, b: Side, key: seq<Key>, meta: seq<Meta>, oldHome: nat, oldShift: nat, y: nat)
    requires InSplit(m, a, b, meta, key, oldHome, oldShift) && (y in a.own || y in a.base)
    ensures y < |key| && (y in a.own <==> BottomBits(key[y].hash, oldShift + 1) == a.home)
    ensures BottomBits(key[y].hash, oldShift) == oldHome
  {
    hide NoDup, Restrict;
    OwnShape(a);
    KeepBelongs(m, a, b, oldHome, oldShift);
    if y in a.base {
      BaseOwned(m, a, b, oldHome, oldShift, y);
    }
  }

  /** Looking at the next slot of the old chain, or of the side, goes on to it unless it is what is looked for. */
  lemma LookOn(m: Mem, a: Side, b: Side, meta: seq<Meta>, key: seq<Key>, k: Key, oldHome: nat, oldShift: nat,
               w: Walker, link: Link, home: nat, y: nat)
    requires InSplit(m, a, b, meta, key, oldHome, oldShift) && w.At? && w.home == a.home && w.shift == oldShift + 1
    requires (link == NextLink(y, oldShift) && y in a.base && home == oldHome) ||
             (link.Unlock() == NextLink(y, oldShift + 1) && y in a.own && home == a.home)
    ensures var r := Look(meta, key, k, w, link, home);
            if Matches(meta, key, k, y) then r == Found(y)
            else r == w.(at := y) || (r == w.(at := y, safe := y) && y in a.own)
  {
    hide SplitInv, BottomBits;
    SideOf(m, a, b, key, meta, oldHome, oldShift, y);
  }

  /** Going on along the old chain. */
  lemma OnAlongBase(m: Mem, a: Side, b: Side, k: Key, oldHome: nat, oldShift: nat, w: Walker, wanted: set<nat>)
    requires SplitInv(m, a, b, oldHome, oldShift) && Looking(a, b, k, oldShift, w, wanted) && w.at >= 0 && w.at in a.base
    ensures After(a.base, w.at) == [] ==> wanted == {}
    ensures After(a.base, w.at) != [] ==>
              var y := After(a.base, w.at)[0];
              && y in a.base && Spot(a, b, y)
              && (y !in wanted ==> Looking(a, b, k, oldShift, w.(at := y), wanted))
              && (y !in wanted && y in a.own ==> Looking(a, b, k, oldShift, w.(at := y, safe := y), wanted))
  {
    hide NoDup, Restrict, After, Ahead, SideLinks, SideList, OnBase;
    var rest := After(a.base, w.at);
    forall x | x in wanted
      ensures x in rest
    {
      AheadSide(a, x, w.at);
      AheadOnBaseIn(m, a, b, oldHome, oldShift, w.at, x);
    }
    if rest != [] {
      var y := rest[0];
      BaseNext(m, a, b, oldHome, oldShift, w.at);
      BaseOwned(m, a, b, oldHome, oldShift, y);
      forall x | x in wanted && x != y
        ensures Ahead(a, y, x)
      {
        AheadSide(a, x, w.at);
        AheadOnBaseIn(m, a, b, oldHome, oldShift, y, x);
      }
    }
  }

  lemma AheadSide(a: Side, x: nat, at: int)
    requires Ahead(a, at, x)
    ensures x in a.own
  {
  }

  lemma AheadOnBaseIn(m: Mem, a: Side, b: Side, oldHome: nat, oldShift: nat, at: nat, x: nat)
    requires SplitInv(m, a, b, oldHome, oldShift) && at in a.base && x in a.own
    ensures Ahead(a, at, x) <==> x in After(a.base, at)
  {
    hide SideLinks, NoDup, Restrict, After, Ahead;
    AheadOnBase(a, at, x);
  }

  lemma BaseNext(m: Mem, a: Side, b: Side, oldHome: nat, oldShift: nat, at: nat)
    requires SplitInv(m, a, b, oldHome, oldShift) && After(a.base, at) != []
    ensures var y := After(a.base, at)[0];
            y in a.base && forall x :: x in After(a.base, at) && x != y ==> x in After(a.base, y)
  {
    hide SideLinks, SideList, After;
    AfterNext(a.base, at);
    AfterMembers(a.base, at);
  }

  /** Going on along the side itself. */
  lemma OnAlongSide(m: Mem, a: Side, b: Side, k: Key, oldHome: nat, oldShift: nat, w: Walker, wanted: set<nat>)
    requires SplitInv(m, a, b, oldHome, oldShift) && Looking(a, b, k, oldShift, w, wanted) && (w.at < 0 || w.at in a.own)
    ensures var rest := if w.at < 0 then a.own else After(a.own, w.at);
            && (rest == [] ==> wanted == {})
            && (rest != [] ==>
                  && rest[0] in a.own
                  && (rest[0] !in wanted ==> Looking(a, b, k, oldShift, w.(at := rest[0]), wanted))
                  && (rest[0] !in wanted ==> Looking(a, b, k, oldShift, w.(at := rest[0], safe := rest[0]), wanted)))
  {
    hide NoDup, Restrict, After, SideLinks, OnBase;
    var rest := if w.at < 0 then a.own else After(a.own, w.at);
    OwnShape(a);
    if rest != [] {
      if w.at < 0 {
        AfterAt(a.own, 0);
      } else {
        AfterNext(a.own, w.at);
        AfterMembers(a.own, w.at);
      }
    }
  }

  // ---- One hop ----

  /**
   A lookup slips: it stands on a slot of the other side whose pointer was upgraded under it, and the pointer leads
   to an entry that is being destroyed, which the lookup takes for one of its own chain.
   */
  ghost predicate Slips(m: Mem, a: Side, meta: seq<Meta>, w: Walker)
  {
    w.At? && w.at >= 0 && w.at !in a.own &&
    var link := ReadLink(m, w);
    link.shift == w.shift && !link.end && link.idx < |meta| && !meta[link.idx].Shareable()
  }

  /** What a hop must do: find only what matches, miss nothing, and keep all that is wanted ahead. */
  ghost predicate Good(a: Side, b: Side, meta: seq<Meta>, key: seq<Key>, k: Key, oldShift: nat, r: Walker, wanted: set<nat>)
  {
    match r
    case Found(x) => x in a.own && Matches(meta, key, k, x)
    case Missing => wanted == {}
    case _ => Looking(a, b, k, oldShift, r, wanted)
  }

  /** A hop ends the lookup at the end of the way and at what is looked for, and otherwise goes on to the next slot. */
  ghost predicate Onward(r: Walker, w: Walker, way: seq<nat>, meta: seq<Meta>, key: seq<Key>, k: Key)
  {
    if way == [] then r == Missing
    else if Matches(meta, key, k, way[0]) then r == Found(way[0])
    else r.At? && r.at == way[0] && r.at in way
  }

  lemma HopOld(m: Mem, a: Side, b: Side, meta: seq<Meta>, key: seq<Key>, k: Key, oldHome: nat, oldShift: nat, w: Walker, wanted: set<nat>)
    requires InSplit(m, a, b, meta, key, oldHome, oldShift) && Looking(a, b, k, oldShift, w, wanted)
    requires forall x :: x in wanted ==> Matches(meta, key, k, x)
    requires 0 <= w.at < |m.next| && w.at in a.base && m.next[w.at] == LinkTo(After(a.base, w.at), oldHome, oldShift)
    ensures var r := Hop(m, meta, key, k, w);
            && Good(a, b, meta, key, k, oldShift, r, wanted)
            && Onward(r, w, After(a.base, w.at), meta, key, k)
  {
    hide SplitInv, Looking, After, BottomBits, Look;
    LookingFacts(a, b, k, oldShift, w, wanted);
    OldHomeOf(m, a, b, oldHome, oldShift);
    OnAlongBase(m, a, b, k, oldHome, oldShift, w, wanted);
    var rest := After(a.base, w.at);
    if rest != [] {
      assert rest[0] in rest;
      LookOn(m, a, b, meta, key, k, oldHome, oldShift, w, m.next[w.at], oldHome, rest[0]);
      if Matches(meta, key, k, rest[0]) {
        SideOf(m, a, b, key, meta, oldHome, oldShift, rest[0]);
      }
    }
  }

  lemma HopNew(m: Mem, a: Side, b: Side, meta: seq<Meta>, key: seq<Key>, k: Key, oldHome: nat, oldShift: nat, w: Walker, wanted: set<nat>)
    requires InSplit(m, a, b, meta, key, oldHome, oldShift) && Looking(a, b, k, oldShift, w, wanted)
    requires forall x :: x in wanted ==> Matches(meta, key, k, x)
    requires w.at < 0 || (w.at in a.own && New(m.next, a, w.at, oldShift))
    ensures var r := Hop(m, meta, key, k, w);
            && Good(a, b, meta, key, k, oldShift, r, wanted)
            && Onward(r, w, if w.at < 0 then a.own else After(a.own, w.at), meta, key, k)
            && (r.At? ==> r.at in a.own)
  {
    hide SplitInv, Looking, After, BottomBits, Look;
    LookingFacts(a, b, k, oldShift, w, wanted);
    OnAlongSide(m, a, b, k, oldHome, oldShift, w, wanted);
    HeadOfSide(m, a, b, oldHome, oldShift);
    var rest := if w.at < 0 then a.own else After(a.own, w.at);
    var link := ReadLink(m, w);
    assert link.Unlock() == LinkTo(rest, a.home, oldShift + 1);
    if rest != [] {
      LookOn(m, a, b, meta, key, k, oldHome, oldShift, w, link, a.home, rest[0]);
    }
  }

  lemma LookingFacts(a: Side, b: Side, k: Key, oldShift: nat, w: Walker, wanted: set<nat>)
    requires Looking(a, b, k, oldShift, w, wanted)
    ensures w.At? && w.home == a.home == BottomBits(k.hash, oldShift + 1) && w.shift == oldShift + 1
    ensures Spot(a, b, w.at) && (w.safe < 0 || w.safe in a.own)
    ensures forall at :: at == w.safe ==> Looking(a, b, k, oldShift, w.(at := at), wanted)
  {
  }

  lemma HeadOfSide(m: Mem, a: Side, b: Side, oldHome: nat, oldShift: nat)
    requires SplitInv(m, a, b, oldHome, oldShift)
    ensures a.home < |m.head| && m.head[a.home].Unlock() == LinkTo(a.own, a.home, oldShift + 1)
  {
    hide SideList, SideLinks, OnBase;
    HeadLink(m.head, m.next, a, oldHome, oldShift);
  }

  /** From a slot of the other side whose pointer was upgraded, the lookup falls back, unless it slips. */
  lemma HopBack(m: Mem, a: Side, b: Side, meta: seq<Meta>, key: seq<Key>, k: Key, oldHome: nat, oldShift: nat, w: Walker, wanted: set<nat>)
    requires InSplit(m, a, b, meta, key, oldHome, oldShift) && Looking(a, b, k, oldShift, w, wanted)
    requires w.at >= 0 && w.at in b.own && w.at !in a.own && New(m.next, b, w.at, oldShift)
    ensures !Slips(m, a, meta, w) ==> Hop(m, meta, key, k, w) == w.(at := w.safe)
    ensures Slips(m, a, meta, w) ==> After(b.own, w.at) != [] && Hop(m, meta, key, k, w) == w.(at := After(b.own, w.at)[0])
  {
    hide SplitInv, Looking, After, BottomBits;
    LookingFacts(a, b, k, oldShift, w, wanted);
    OldHomeOf(m, a, b, oldHome, oldShift);
    var rest := After(b.own, w.at);
    if rest != [] {
      AfterMembers(b.own, w.at);
      assert rest[0] in rest;
      OtherSide(m, a, b, meta, key, oldHome, oldShift, rest[0]);
    }
  }

  lemma OtherSide(m: Mem, a: Side, b: Side, meta: seq<Meta>, key: seq<Key>, oldHome: nat, oldShift: nat, y: nat)
    requires InSplit(m, a, b, meta, key, oldHome, oldShift) && y in b.own
    ensures y < |key| && BottomBits(key[y].hash, oldShift + 1) == b.home && y !in a.own
  {
    hide NoDup, Restrict, BottomBits;
    OwnShape(a);
    OwnShape(b);
    KeepBelongs(m, a, b, oldHome, oldShift);
  }

  /** How the pointer of a slot is to be read, by the side it is on. */
  lemma SpotLink(m: Mem, a: Side, b: Side, oldHome: nat, oldShift: nat, at: nat)
    requires SplitInv(m, a, b, oldHome, oldShift) && Spot(a, b, at)
    ensures at in a.own ==> Old(m.next, a, at, oldHome, oldShift) || New(m.next, a, at, oldShift)
    ensures at !in a.own ==>
              at in b.own && at in a.base && at < |m.next| &&
              (m.next[at] == LinkTo(After(a.base, at), oldHome, oldShift) || New(m.next, b, at, oldShift))
    ensures at in a.rest ==> Old(m.next, a, at, oldHome, oldShift)
  {
    hide SideList, SideLinks, OnBase, After;
    if at in a.own {
      OwnLink(m.head, m.next, a, at, oldHome, oldShift);
    } else {
      OwnLink(m.head, m.next, b, at, oldHome, oldShift);
    }
    if at in a.rest {
      RestLink(m.head, m.next, a, at, oldHome, oldShift);
    }
  }

  /** A slip leads to a slot of the other side that is further on along the old chain. */
  lemma SlipTarget(m: Mem, a: Side, b: Side, oldHome: nat, oldShift: nat, at: nat)
    requires SplitInv(m, a, b, oldHome, oldShift) && at in b.own && at in a.base && After(b.own, at) != []
    ensures var z := After(b.own, at)[0]; z in b.own && z in After(a.base, at) && z in a.base && z !in a.own
  {
    hide SideLinks, NoDup, Restrict, After;
    OwnAfter(b, at);
    var z := After(b.own, at)[0];
    assert z in After(b.own, at);
    AfterMembers(b.own, at);
    RestrictMembers(After(b.base, at), b.keep);
    AfterMembers(b.base, at);
    OwnShape(a);
    OwnShape(b);
    KeepBelongs(m, a, b, oldHome, oldShift);
  }

  /**
   A hop in any state of the split does what it must, if and only if the lookup does not slip past a wanted entry:
   one that is not behind the slot to which it slips.
   */
  lemma HopKeeps(m: Mem, a: Side, b: Side, meta: seq<Meta>, key: seq<Key>, k: Key, oldHome: nat, oldShift: nat, w: Walker, wanted: set<nat>)
    requires InSplit(m, a, b, meta, key, oldHome, oldShift) && Looking(a, b, k, oldShift, w, wanted)
    requires forall x :: x in wanted ==> Matches(meta, key, k, x)
    ensures Good(a, b, meta, key, k, oldShift, Hop(m, meta, key, k, w), wanted) <==>
            !Slips(m, a, meta, w) || forall x :: x in wanted ==> x in After(a.base, ReadLink(m, w).idx)
  {
    hide SplitInv, Looking, After, Hop, Slips;
    LookingFacts(a, b, k, oldShift, w, wanted);
    SlipsFacts(m, a, meta, w);
    if w.at < 0 {
      HopNew(m, a, b, meta, key, k, oldHome, oldShift, w, wanted);
    } else {
      SpotLink(m, a, b, oldHome, oldShift, w.at);
      if w.at in a.own {
        if New(m.next, a, w.at, oldShift) {
          HopNew(m, a, b, meta, key, k, oldHome, oldShift, w, wanted);
        } else {
          HopOld(m, a, b, meta, key, k, oldHome, oldShift, w, wanted);
        }
      } else if New(m.next, b, w.at, oldShift) {
        HopBack(m, a, b, meta, key, k, oldHome, oldShift, w, wanted);
        if Slips(m, a, meta, w) {
          SlipTarget(m, a, b, oldHome, oldShift, w.at);
          SlippedLooking(a, b, k, oldShift, w, wanted, After(b.own, w.at)[0]);
        }
      } else {
        HopOld(m, a, b, meta, key, k, oldHome, oldShift, w, wanted);
      }
    }
  }

  lemma SlipsFacts(m: Mem, a: Side, meta: seq<Meta>, w: Walker)
    ensures Slips(m, a, meta, w) ==> w.At? && w.at >= 0 && w.at !in a.own && ReadLink(m, w).shift == w.shift
  {
  }

  lemma SlippedLooking(a: Side, b: Side, k: Key, oldShift: nat, w: Walker, wanted: set<nat>, z: nat)
    requires Looking(a, b, k, oldShift, w, wanted) && z in b.own && z in a.base && z !in a.own
    ensures Looking(a, b, k, oldShift, w.(at := z), wanted) <==> forall x :: x in wanted ==> x in After(a.base, z)
  {
    hide After;
  }
}
