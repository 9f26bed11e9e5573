/**
 Growing the table by one head: the chain of an existing head is split in place, one atomic store
 at a time, while other threads push entries onto the heads. `Yield` stands for what the other
 threads do between two stores. Its precondition is the safety property of the split, so that
 property holds at every point where another thread can run.
 */
module ChainSplit {
  import opened Bits
  import opened ChainLinks
  import opened ChainSides

  /** The head value after linking slot `e` in front: the lock of a locked chain stays on. */
  function PushedHead(seen: Link, e: nat): Link
  {
    NextLink(e, seen.shift).(locked := seen.locked && !seen.end)
  }

  class ChainArray {
    // Per slot: the head pointer of the chain with this home, the pointer that continues the chain
    // the slot's entry is on, and the hash of that entry's key.
    var head: seq<Link>
    var next: seq<Link>
    var hash: seq<nat>
    // Slots that an inserting thread has filled and is about to link into a chain.
    var inflight: set<nat>

    ghost predicate Valid()
      reads this
    {
      && |head| == |next| == |hash|
      && forall e :: e in inflight ==> e < |next|
    }

    constructor (capacity: nat)
      ensures Valid() && |head| == capacity && inflight == {}
      ensures forall i :: 0 <= i < capacity ==> head[i] == UnusedLink && next[i] == UnusedLink && hash[i] == 0
    {
      head := seq(capacity, _ => UnusedLink);
      next := seq(capacity, _ => UnusedLink);
      hash := seq(capacity, _ => 0);
      inflight := {};
    }

    /** Acquires the rewrite lock of a chain that nobody has locked; an empty chain needs none. */
    method Acquire(home: nat) returns (saved: Link)
      requires Valid() && home < |head|
      requires head[home].end || !head[home].locked
      modifies this`head
      ensures saved == old(head)[home].Lock()
      ensures head == old(head)[home := saved]
    {
      saved := head[home].Lock();
      head := head[home := saved];
    }

    /** Releases the rewrite lock of a chain, if it was taken. */
    method Release(home: nat, held: bool)
      requires home < |head| && held == Held(head[home])
      modifies this`head
      ensures head == old(head)[home := old(head)[home].Unlock()] && !Held(head[home])
    {
      if held {
        head := head[home := head[home].Unlock()];
      }
    }

    /**
     Links the filled slot `e` in front of the chain of its home. The caller may know an older
     home; the shift on the head then sends it on, one hash bit at a time, to the current one.
     */
    method LinkAtHead(e: nat, home: nat, shift: nat, ghost current: nat) returns (h: nat)
      requires Valid() && e < |next|
      requires home == BottomBits(hash[e], shift) && shift <= current
      requires forall s :: shift <= s < current ==>
                 BottomBits(hash[e], s) < |head| && head[BottomBits(hash[e], s)].shift > s
      requires BottomBits(hash[e], current) < |head|
      requires head[BottomBits(hash[e], current)].shift == current
      modifies this`head, this`next
      ensures h == BottomBits(hash[e], current)
      ensures next == old(next)[e := old(head)[h].Unlock()]
      ensures head == old(head)[h := PushedHead(old(head)[h], e)]
    {
      h := home;
      var s := shift;
      while head[h].shift > s
        invariant shift <= s <= current && h == BottomBits(hash[e], s)
        invariant head == old(head) && next == old(next)
        decreases current - s
      {
        BottomBitsStep(hash[e], s);
        h := h + Pow2(s) * Bit(hash[e], s);
        s := s + 1;
      }
      var seen := head[h];
      next := next[e := seen.Unlock()];
      head := head[h := PushedHead(seen, e)];
    }

    ghost function View(): Mem
      reads this
    {
      Mem(head, next, hash, inflight)
    }

    // ---- What other threads do ----

    /** One inserting thread links its slot onto the old head, at the old shift. */
    method PushBefore(e: nat, ghost chain: seq<nat>, oldHome: nat, oldShift: nat)
      requires BeforeInv(View(), chain, oldHome, oldShift) && e in inflight
      modifies this`head, this`next, this`inflight
      ensures BeforeInv(View(), [e] + chain, oldHome, oldShift)
      ensures inflight == old(inflight) - {e}
      ensures next == old(next)[e := old(head)[oldHome].Unlock()]
      ensures head == old(head)[oldHome := PushedHead(old(head)[oldHome], e)]
    {
      inflight := inflight - {e};
      var h := LinkAtHead(e, oldHome, oldShift, oldShift);
      SegPush(old(next), old(head)[oldHome].Unlock(), chain, oldShift, EndLink(oldHome, oldShift), e);
      NoDupJoin([e], chain);
    }

    /** One inserting thread links its slot onto the head its hash selects, at the new shift. */
    method PushSplit(e: nat, ghost a: Side, ghost b: Side, oldHome: nat, oldShift: nat)
      returns (ghost pa: seq<nat>, ghost pb: seq<nat>)
      requires SplitInv(View(), a, b, oldHome, oldShift) && e in inflight
      modifies this`head, this`next, this`inflight
      ensures SplitInv(View(), Pushed(a, pa), Pushed(b, pb), oldHome, oldShift)
      ensures (pa == [e] && pb == []) || (pa == [] && pb == [e])
      ensures inflight == old(inflight) - {e}
      ensures Frame(old(View()), View(), {a.home, b.home}, {})
    {
      hide SplitInv, BottomBits, Pow2;
      ghost var m := View();
      PushTarget(m, a, b, e, oldHome, oldShift);
      inflight := inflight - {e};
      var h := LinkAtHead(e, oldHome, oldShift, oldShift + 1);
      assert View() == PushMem(m, h, e);
      PushedTwice(a, [], []);
      PushedTwice(b, [], []);
      pa, pb := if h == a.home then [e] else [], if h == a.home then [] else [e];
      if h == a.home {
        PushKeeps(m, a, b, e, oldHome, oldShift);
      } else {
        SplitInvSwap(m, a, b, oldHome, oldShift);
        PushKeeps(m, b, a, e, oldHome, oldShift);
        SplitInvSwap(View(), Pushed(b, [e]), a, oldHome, oldShift);
      }
    }

    /** Other threads link any number of their slots, in any order, before the heads change. */
    method YieldBefore(ghost chain: seq<nat>, oldHome: nat, oldShift: nat) returns (ghost p: seq<nat>)
      requires BeforeInv(View(), chain, oldHome, oldShift)
      modifies this`head, this`next, this`inflight
      ensures BeforeInv(View(), p + chain, oldHome, oldShift)
      ensures Elems(p) == old(inflight) - inflight
      ensures p == [] ==> head == old(head) && next == old(next) && inflight == old(inflight)
      ensures p != [] ==>
                head[oldHome] == PushedHead(old(head)[oldHome], p[0])
      ensures Frame(old(View()), View(), {oldHome}, {})
    {
      hide Seg, NoDup, Belongs;
      p := [];
      assert [] + chain == chain;
      while inflight != {}
        invariant BeforeInv(View(), p + chain, oldHome, oldShift)
        invariant Elems(p) == old(inflight) - inflight
        invariant p == [] ==> head == old(head) && next == old(next) && inflight == old(inflight)
        invariant p != [] ==>
                    head[oldHome] == PushedHead(old(head)[oldHome], p[0])
        invariant Frame(old(View()), View(), {oldHome}, {})
        decreases inflight
      {
        if * {
          break;
        }
        var e :| e in inflight;
        PushBefore(e, p + chain, oldHome, oldShift);
        assert [e] + (p + chain) == ([e] + p) + chain;
        ElemsConcat([e], p);
        p := [e] + p;
      }
    }

    /** Other threads link any number of their slots, in any order, while the split goes on. */
    method Yield(ghost a: Side, ghost b: Side, oldHome: nat, oldShift: nat)
      returns (ghost c: Side, ghost d: Side)
      requires SplitInv(View(), a, b, oldHome, oldShift)
      modifies this`head, this`next, this`inflight
      ensures SplitInv(View(), c, d, oldHome, oldShift)
      ensures Grew(a, c, old(inflight)) && Grew(b, d, old(inflight))
      ensures Entries(c, d, inflight) == Entries(a, b, old(inflight))
      ensures Frame(old(View()), View(), {a.home, b.home}, {})
    {
      hide SplitInv, Grew, Frame;
      Unmoved(View(), a, b, {a.home, b.home}, {});
      c, d := a, b;
      while inflight != {}
        invariant SplitInv(View(), c, d, oldHome, oldShift) && inflight <= old(inflight)
        invariant Grew(a, c, old(inflight)) && Grew(b, d, old(inflight))
        invariant Entries(c, d, inflight) == Entries(a, b, old(inflight))
        invariant Frame(old(View()), View(), {a.home, b.home}, {})
        decreases inflight
      {
        if * {
          break;
        }
        var e :| e in inflight;
        ghost var m := View();
        ghost var pc, pd := PushSplit(e, c, d, oldHome, oldShift);
        PushedGrew(a, c, pc, old(inflight));
        PushedGrew(b, d, pd, old(inflight));
        FrameTrans(old(View()), m, View(), {a.home, b.home}, {}, {});
        ElemsConcat(pc, c.own);
        ElemsConcat(pd, d.own);
        c, d := Pushed(c, pc), Pushed(d, pd);
      }
    }

    // ---- The split itself ----

    /** Lets other threads run and then points slot `f`, where side `a` changes shift, at `x`. */
    method StoreForward(f: nat, value: Link, oldHome: nat, oldShift: nat,
                        ghost a: Side, ghost b: Side, ghost skipped: seq<nat>, ghost x: nat, ghost tail: seq<nat>)
      returns (ghost c: Side, ghost d: Side)
      requires SplitInv(View(), a, b, oldHome, oldShift)
      requires a.open && a.front != [] && f == Last(a.front) && f !in Slots(b)
      requires a.rest == skipped + ([x] + tail) && value == NextLink(x, oldShift + 1)
      requires x in a.keep && forall y :: y in skipped ==> y !in a.keep
      modifies this`head, this`next, this`inflight
      ensures SplitInv(View(), c, d, oldHome, oldShift)
      ensures Later(a, c) && c.open && c.rest == tail && c.front != [] && Last(c.front) == x
      ensures Grew(b, d, old(inflight))
      ensures Entries(c, d, inflight) == Entries(a, b, old(inflight))
      ensures Frame(old(View()), View(), {a.home, b.home}, {f})
    {
      hide SplitInv, Frame, Grew, Later;
      c, d := Yield(a, b, oldHome, oldShift);
      AdvanceAfterYield(old(View()), View(), a, b, c, d, skipped, x, tail, oldHome, oldShift);
      next := next[f := value];
      c := c.(front := c.front + [x], rest := tail);
    }

    /** Lets other threads run and then ends side `a` at slot `f` with its own end marker. */
    method StoreEnd(f: nat, value: Link, oldHome: nat, oldShift: nat, ghost a: Side, ghost b: Side)
      returns (ghost c: Side, ghost d: Side)
      requires SplitInv(View(), a, b, oldHome, oldShift)
      requires a.open && a.front != [] && f == Last(a.front) && f !in Slots(b)
      requires value == EndLink(a.home, oldShift + 1) && forall y :: y in a.rest ==> y !in a.keep
      modifies this`head, this`next, this`inflight
      ensures SplitInv(View(), c, d, oldHome, oldShift)
      ensures Later(a, c) && !c.open && c.rest == []
      ensures Grew(b, d, old(inflight))
      ensures Entries(c, d, inflight) == Entries(a, b, old(inflight))
      ensures Frame(old(View()), View(), {a.home, b.home}, {f})
    {
      hide SplitInv, Frame, Grew, Later;
      c, d := Yield(a, b, oldHome, oldShift);
      CloseAfterYield(old(View()), View(), a, b, c, d, oldHome, oldShift);
      next := next[f := value];
      c := c.(rest := [], open := false);
    }

    /**
     Raises the shift of the pointers from `frontier` on, up to the pointer equal to `stop`, or, if
     `stop` is an end marker, to the end of the chain, where `stop` becomes the new end marker.
     Side `a` is the one whose new-shift part ends at `frontier`; it passes over `mids` to `tail`.
     */
    method UpgradeShiftsOnRange(frontier: nat, stop: Link, oldHome: nat, oldShift: nat,
                                ghost a: Side, ghost b: Side, ghost mids: seq<nat>, ghost tail: seq<nat>)
      returns (last: nat, ghost c: Side, ghost d: Side)
      requires SplitInv(View(), a, b, oldHome, oldShift)
      requires a.open && a.front != [] && frontier == Last(a.front) && a.rest == mids + tail
      requires forall x :: x in mids ==> x in a.keep
      requires frontier !in Slots(b) && forall x :: x in mids ==> x !in Slots(b)
      requires if tail == [] then stop == EndLink(a.home, oldShift + 1)
               else stop == NextLink(tail[0], oldShift) && tail[0] !in mids
      modifies this`head, this`next, this`inflight
      ensures SplitInv(View(), c, d, oldHome, oldShift)
      ensures Later(a, c) && c.rest == tail && c.open == (tail != []) && (c.open ==> c.front != [] && last == Last(c.front))
      ensures Grew(b, d, old(inflight))
      ensures Entries(c, d, inflight) == Entries(a, b, old(inflight))
      ensures Frame(old(View()), View(), {a.home, b.home}, {frontier} + Elems(mids))
    {
      hide SideOk, Belongs;
      last := frontier;
      c, d := a, b;
      ghost var todo := mids;
      while true
        invariant SplitInv(View(), c, d, oldHome, oldShift)
        invariant Later(a, c) && c.open && c.rest == todo + tail && c.front != [] && last == Last(c.front)
        invariant Grew(b, d, old(inflight))
        invariant Entries(c, d, inflight) == Entries(a, b, old(inflight))
        invariant Frame(old(View()), View(), {a.home, b.home}, {frontier} + Elems(mids))
        invariant (last == frontier || last in mids) && last !in Slots(d)
        invariant forall x :: x in todo ==> x in mids && x !in Slots(d)
        decreases |todo|
      {
        RestHead(head, next, c, oldHome, oldShift);
        var link := next[last];
        NextToUpgrade(link, stop, a.home, todo, tail, oldHome, oldShift);
        if link == stop {
          return;
        }
        assert todo != [] ==> todo[0] in todo;
        ghost var m := View();
        ghost var b' := d;
        if link.end {
          c, d := StoreEnd(last, stop, oldHome, oldShift, c, d);
        } else {
          c, d := StoreForward(last, link.(shift := link.shift + 1), oldHome, oldShift,
                               c, d, [], link.idx, todo[1..] + tail);
        }
        FrameTrans(old(View()), m, View(), {a.home, b.home}, {frontier} + Elems(mids), {last});
        GrewTrans(b, b', d, old(inflight), m.inflight);
        if link.end {
          return;
        }
        last := link.idx;
        todo := todo[1..];
      }
    }

    /**
     Finds the first entry of the chain for each of the two target chains (-1 if there is none), and
     which of the two comes first. The rewrite lock keeps the entries behind `saved` in place.
     */
    method FindFrontiers(saved: Link, oldHome: nat, oldShift: nat, ghost chain: seq<nat>)
      returns (zero: int, one: int, first: int)
      requires Valid()
      requires Seg(next, saved.Unlock(), chain, oldShift, EndLink(oldHome, oldShift))
      requires forall x :: x in chain ==> x in Belongs(hash, oldHome, oldShift)
      ensures zero == FirstOf(chain, Belongs(hash, oldHome, oldShift + 1))
      ensures one == FirstOf(chain, Belongs(hash, oldHome + Pow2(oldShift), oldShift + 1))
      ensures first == if chain == [] then -1 else if chain[0] == zero then 0 else 1
    {
      ghost var z, o := Belongs(hash, oldHome, oldShift + 1), Belongs(hash, oldHome + Pow2(oldShift), oldShift + 1);
      ghost var left := chain;
      zero, one, first := -1, -1, -1;
      var link := saved.Unlock();
      while !link.end
        invariant Seg(next, link, left, oldShift, EndLink(oldHome, oldShift))
        invariant forall x :: x in left ==> x in chain
        invariant zero < 0 || one < 0
        invariant (zero >= 0 ==> zero in z) && (one >= 0 ==> one in o)
        invariant FirstOf(chain, z) == if zero >= 0 then zero else FirstOf(left, z)
        invariant FirstOf(chain, o) == if one >= 0 then one else FirstOf(left, o)
        invariant first == if left == chain then -1 else if chain[0] == zero then 0 else 1
        invariant left == chain ==> zero == -1 && one == -1
        invariant left != chain ==> |left| < |chain| && (chain[0] == zero || chain[0] == one)
        decreases |left|
      {
        var cur := link.idx;
        assert cur == left[0] && cur in left;
        TwoHomes(hash[cur], oldHome, oldShift);
        Pow2Positive(oldShift);
        if BottomBits(hash[cur], oldShift + 1) == oldHome {
          if zero < 0 {
            zero := cur;
            if one >= 0 {
              break;
            }
            first := 0;
          }
        } else if one < 0 {
          one := cur;
          if zero >= 0 {
            break;
          }
          first := 1;
        }
        link := next[cur];
        left := left[1..];
      }
    }

    /** Writes the new head while other threads may link entries onto the old one before and after. */
    method StoreNewHead(growHome: nat, oldHome: nat, oldShift: nat, value: Link, ghost base: seq<nat>)
      returns (ghost p: seq<nat>)
      requires BeforeInv(View(), base, oldHome, oldShift)
      requires oldHome != growHome && growHome < |head|
      modifies this`head, this`next, this`inflight
      ensures BeforeInv(View(), p + base, oldHome, oldShift)
      ensures Elems(p) == old(inflight) - inflight
      ensures p == [] ==> head[oldHome] == old(head)[oldHome] && inflight == old(inflight)
      ensures p != [] ==> head[oldHome] == PushedHead(old(head)[oldHome], p[0])
      ensures LooseFrame(old(View()), View(), {oldHome, growHome}, {}) && head[growHome] == value
    {
      hide Seg, NoDup, Belongs;
      ghost var p1 := YieldBefore(base, oldHome, oldShift);
      head := head[growHome := value];
      ghost var p2 := YieldBefore(p1 + base, oldHome, oldShift);
      p := p2 + p1;
      assert p2 + (p1 + base) == p + base;
      ElemsConcat(p2, p1);
    }

    /**
     Tries to point both heads at the first entry of their target chain, with the new shift. The new
     head is written first; nobody uses it until the compare-and-swap on the old head succeeds. That
     fails exactly if other threads linked entries, `p`, in the meantime.
     */
    method TryUpdateHeads(growHome: nat, oldHome: nat, oldShift: nat, saved: Link, ghost base: seq<nat>)
      returns (ok: bool, zero: int, one: int, first: int, ghost p: seq<nat>)
      requires BeforeInv(View(), base, oldHome, oldShift)
      requires growHome == oldHome + Pow2(oldShift) < |head|
      requires head[oldHome] == saved
      modifies this`head, this`next, this`inflight
      ensures zero == FirstOf(base, Belongs(hash, oldHome, oldShift + 1))
      ensures one == FirstOf(base, Belongs(hash, growHome, oldShift + 1))
      ensures first == if base == [] then -1 else if base[0] == zero then 0 else 1
      ensures LooseFrame(old(View()), View(), {oldHome, growHome}, {})
      ensures ok ==> inflight == old(inflight) && SplitStart(View(), base, oldHome, oldShift)
      ensures ok ==> Held(head[oldHome]) == (zero >= 0) && Held(head[growHome]) == (one >= 0)
      ensures !ok ==> p != [] && BeforeInv(View(), p + base, oldHome, oldShift) && Elems(p) == old(inflight) - inflight
      ensures !ok ==> head[oldHome] == PushedHead(saved, p[0])
    {
      hide Seg, NoDup, Belongs, FirstOf, SplitInv;
      BeforeStart(View(), base, oldHome, oldShift);
      zero, one, first := FindFrontiers(saved, oldHome, oldShift, base);
      p := StoreNewHead(growHome, oldHome, oldShift, FirstLink(one, growHome, oldShift + 1).Lock(), base);
      assert p != [] ==> p[0] in Elems(p);
      ok := head[oldHome] == saved;
      if ok {
        assert p + base == base;
        var newZero := FirstLink(zero, oldHome, oldShift + 1).Lock();
        BigStep(View(), base, newZero, oldHome, growHome, oldShift);
        head := head[oldHome := newZero];
      }
    }

    /** Repeats the update of both heads until no other thread gets in between. */
    method UpdateHeads(growHome: nat, oldHome: nat, oldShift: nat, saved0: Link, ghost chain: seq<nat>)
      returns (zero: int, one: int, first: int, ghost base: seq<nat>)
      requires BeforeInv(View(), chain, oldHome, oldShift)
      requires growHome == oldHome + Pow2(oldShift) < |head|
      requires head[oldHome] == saved0 && saved0.locked
      modifies this`head, this`next, this`inflight
      ensures Suffix(chain, base) && Elems(base) + inflight == Elems(chain) + old(inflight)
      ensures NoDup(base) && forall x :: x in base ==> x in Belongs(hash, oldHome, oldShift)
      ensures zero == FirstOf(base, Belongs(hash, oldHome, oldShift + 1))
      ensures one == FirstOf(base, Belongs(hash, growHome, oldShift + 1))
      ensures first == if base == [] then -1 else if base[0] == zero then 0 else 1
      ensures SplitStart(View(), base, oldHome, oldShift)
      ensures LooseFrame(old(View()), View(), {oldHome, growHome}, {})
      ensures Held(head[oldHome]) == (zero >= 0) && Held(head[growHome]) == (one >= 0)
    {
      hide Seg, NoDup, Belongs, FirstOf, SplitStart;
      var saved := saved0;
      base := chain;
      while true
        invariant BeforeInv(View(), base, oldHome, oldShift)
        invariant head[oldHome] == saved && saved.locked
        invariant Suffix(chain, base) && Elems(base) + inflight == Elems(chain) + old(inflight)
        invariant LooseFrame(old(View()), View(), {oldHome, growHome}, {})
        decreases inflight
      {
        ghost var before := inflight;
        var ok;
        ghost var p;
        ok, zero, one, first, p := TryUpdateHeads(growHome, oldHome, oldShift, saved, base);
        if ok {
          return;
        }
        assert p[0] in Elems(p) && inflight < before;
        ElemsConcat(p, base);
        ghost var seen := head[oldHome];
        if saved.end {
          saved := Acquire(oldHome);
        } else {
          saved := head[oldHome];
        }
        assert head[oldHome].Unlock() == seen.Unlock();
        base := p + base;
      }
    }

    /**
     Points the first chain at its next entry, past those of the other chain, and raises the shifts
     of the other chain up to that entry. The other chain is then the one that runs into it.
     */
    method SkipTo(link: Link, firstFrontier: nat, otherFrontier: nat, oldHome: nat, oldShift: nat,
                  ghost a: Side, ghost b: Side, ghost seen: seq<nat>, ghost unseen: seq<nat>)
      returns (frontier: nat, ghost c: Side, ghost d: Side)
      requires SplitInv(View(), a, b, oldHome, oldShift)
      requires Shared(View(), a, b, firstFrontier, otherFrontier, seen, unseen, oldHome, oldShift)
      requires unseen != [] && link == NextLink(unseen[0], oldShift) && unseen[0] in a.keep
      modifies this`head, this`next, this`inflight
      ensures SplitInv(View(), c, d, oldHome, oldShift)
      ensures Later(b, c) && Later(a, d)
      ensures Shared(View(), c, d, frontier, unseen[0], [], unseen[1..], oldHome, oldShift)
      ensures Entries(c, d, inflight) == Entries(a, b, old(inflight))
      ensures Frame(old(View()), View(), {a.home, b.home}, Belongs(hash, oldHome, oldShift))
    {
      hide SplitInv, Frame, Belongs, Slots;
      FrontOff(View(), a, b, firstFrontier, otherFrontier, seen, unseen, oldHome, oldShift);
      assert [otherFrontier] + (seen + unseen) == ([otherFrontier] + seen) + ([unseen[0]] + unseen[1..]);
      d, c := StoreForward(firstFrontier, NextLink(link.idx, oldShift + 1), oldHome, oldShift,
                           a, b, [otherFrontier] + seen, unseen[0], unseen[1..]);
      ghost var m, a', b' := View(), d, c;
      AfterSkip(old(View()), m, a, b, a', b', otherFrontier, seen, unseen, oldHome, oldShift);
      SplitInvSwap(m, a', b', oldHome, oldShift);
      frontier, c, d := UpgradeShiftsOnRange(otherFrontier, link, oldHome, oldShift, b', a', seen, unseen);
      ComposeSteps(old(View()), m, View(), a, b, a', b', d, c, firstFrontier, {otherFrontier} + Elems(seen), oldHome, oldShift);
    }

    /** Ends the first chain after its last entry and raises the shifts of what is left of the other. */
    method FinishMigration(firstHome: nat, otherHome: nat, firstFrontier: nat, otherFrontier: nat,
                           oldHome: nat, oldShift: nat, ghost a: Side, ghost b: Side, ghost seen: seq<nat>)
      returns (ghost c: Side, ghost d: Side)
      requires SplitInv(View(), a, b, oldHome, oldShift) && firstHome == a.home && otherHome == b.home
      requires Shared(View(), a, b, firstFrontier, otherFrontier, seen, [], oldHome, oldShift)
      modifies this`head, this`next, this`inflight
      ensures SplitInv(View(), c, d, oldHome, oldShift)
      ensures Later(a, c) && Later(b, d) && !c.open && !d.open
      ensures Entries(c, d, inflight) == Entries(a, b, old(inflight))
      ensures Frame(old(View()), View(), {a.home, b.home}, Belongs(hash, oldHome, oldShift))
    {
      hide SplitInv, Frame, Belongs, Slots;
      FrontOff(View(), a, b, firstFrontier, otherFrontier, seen, [], oldHome, oldShift);
      c, d := StoreEnd(firstFrontier, EndLink(firstHome, oldShift + 1), oldHome, oldShift, a, b);
      ghost var m, a', b' := View(), c, d;
      AfterSkip(old(View()), m, a, b, a', b', otherFrontier, seen, [], oldHome, oldShift);
      var last;
      SplitInvSwap(m, a', b', oldHome, oldShift);
      last, d, c := UpgradeShiftsOnRange(otherFrontier, EndLink(otherHome, oldShift + 1), oldHome, oldShift, b', a', seen, []);
      SplitInvSwap(View(), d, c, oldHome, oldShift);
      ComposeSteps(old(View()), m, View(), a, b, a', b', c, d, firstFrontier, {otherFrontier} + Elems(seen), oldHome, oldShift);
    }

    /**
     Splits the part of the chain that the two target chains still share. Side `a` is the one that
     runs into the other's last new-shift slot; `first` is 0 if `a` belongs to the old head.
     */
    method Migrate(first0: int, firstFrontier0: nat, otherFrontier0: nat, oldHome: nat, growHome: nat, oldShift: nat,
                   ghost a: Side, ghost b: Side)
      returns (ghost c: Side, ghost d: Side)
      requires SplitInv(View(), a, b, oldHome, oldShift) && growHome == oldHome + Pow2(oldShift)
      requires first0 == if a.home == oldHome then 0 else 1
      requires Shared(View(), a, b, firstFrontier0, otherFrontier0, [], b.rest, oldHome, oldShift)
      modifies this`head, this`next, this`inflight
      ensures SplitInv(View(), c, d, oldHome, oldShift)
      ensures !c.open && !d.open && LaterPair(a, b, c, d)
      ensures Entries(c, d, inflight) == Entries(a, b, old(inflight))
      ensures Frame(old(View()), View(), {a.home, b.home}, Belongs(hash, oldHome, oldShift))
    {
      hide SplitInv, Frame, Belongs, Slots, Entries, Later, Shared;
      Unmoved(View(), a, b, {a.home, b.home}, Belongs(hash, oldHome, oldShift));
      var first := first0;
      var firstFrontier: nat, otherFrontier: nat, cur: nat := firstFrontier0, otherFrontier0, otherFrontier0;
      c, d := a, b;
      ghost var seen: seq<nat>, unseen: seq<nat> := [], b.rest;
      while true
        invariant SplitInv(View(), c, d, oldHome, oldShift)
        invariant first == if c.home == oldHome then 0 else 1
        invariant Shared(View(), c, d, firstFrontier, otherFrontier, seen, unseen, oldHome, oldShift)
        invariant cur == if seen == [] then otherFrontier else Last(seen)
        invariant LaterPair(a, b, c, d)
        invariant Entries(c, d, inflight) == Entries(a, b, old(inflight))
        invariant Frame(old(View()), View(), {a.home, b.home}, Belongs(hash, oldHome, oldShift))
        decreases |unseen|
      {
        CurrentLink(View(), c, d, firstFrontier, otherFrontier, seen, unseen, cur, oldHome, oldShift);
        ghost var m, c', d' := View(), c, d;
        var link := next[cur];
        var firstHome := if first == 0 then oldHome else growHome;
        if link.end {
          c, d := FinishMigration(firstHome, if first == 0 then growHome else oldHome, firstFrontier, otherFrontier,
                                  oldHome, oldShift, c, d, seen);
          MigrationStep(old(View()), m, View(), a, b, c', d', c, d, Belongs(hash, oldHome, oldShift));
          return;
        }
        cur := link.idx;
        if BottomBits(hash[cur], oldShift + 1) == firstHome {
          firstFrontier, c, d := SkipTo(link, firstFrontier, otherFrontier, oldHome, oldShift, c, d, seen, unseen);
          MigrationStep(old(View()), m, View(), a, b, c', d', c, d, Belongs(hash, oldHome, oldShift));
          otherFrontier := cur;
          first := 1 - first;
          seen, unseen := [], unseen[1..];
        } else {
          seen, unseen := seen + [cur], unseen[1..];
        }
      }
    }

    /**
     What is left to do once both heads point at the new chains: raise the shifts on the chain that
     comes first, up to the other chain's first entry or to the end, and then split the shared rest.
     */
    method SplitRest(first: int, firstFrontier: nat, otherFrontier: int, oldHome: nat, growHome: nat, oldShift: nat,
                     ghost base: seq<nat>, ghost a: Side, ghost b: Side)
      returns (ghost c: Side, ghost d: Side)
      requires SplitInv(View(), a, b, oldHome, oldShift) && growHome == oldHome + Pow2(oldShift)
      requires first == if a.home == oldHome then 0 else 1
      requires a == InitialSide(base, a.home, a.keep) && b == InitialSide(base, b.home, b.keep)
      requires base != [] && firstFrontier == base[0] && base[0] in a.keep && otherFrontier == FirstOf(base, b.keep)
      requires NoDup(base) && forall x :: x in base ==> x in Belongs(hash, oldHome, oldShift)
      modifies this`head, this`next, this`inflight
      ensures SplitInv(View(), c, d, oldHome, oldShift)
      ensures !c.open && !d.open && LaterPair(a, b, c, d)
      ensures Entries(c, d, inflight) == Entries(a, b, old(inflight))
      ensures Frame(old(View()), View(), {a.home, b.home}, Belongs(hash, oldHome, oldShift))
    {
      hide SplitInv, Frame, Belongs, Slots, Entries, Later, InitialSide, FirstOf, NoDup;
      InitialShape(View(), base, a, b, oldHome, oldShift);
      var stop := if otherFrontier >= 0 then NextLink(otherFrontier, oldShift)
                  else EndLink(if first == 0 then oldHome else growHome, oldShift + 1);
      ghost var mids := BeforeFirst(base, b.keep)[1..];
      ghost var tail := if otherFrontier >= 0 then [otherFrontier] + b.rest else [];
      var last;
      last, c, d := UpgradeShiftsOnRange(firstFrontier, stop, oldHome, oldShift, a, b, mids, tail);
      ghost var m, c', d' := View(), c, d;
      AfterUpgrade(old(View()), m, a, b, c', d', {firstFrontier} + Elems(mids), otherFrontier, last, oldHome, oldShift);
      if otherFrontier >= 0 {
        c, d := Migrate(first, last, otherFrontier, oldHome, growHome, oldShift, c, d);
        MigrationStep(old(View()), m, View(), a, b, c', d', c, d, Belongs(hash, oldHome, oldShift));
      }
    }

    /** Runs the split from the changed heads to the end and names the two resulting chains. */
    method SplitLists(first: int, zeroFrontier: int, oneFrontier: int, oldHome: nat, growHome: nat, oldShift: nat,
                      ghost base: seq<nat>)
      returns (ghost zero: seq<nat>, ghost one: seq<nat>)
      requires SplitStart(View(), base, oldHome, oldShift) && growHome == oldHome + Pow2(oldShift)
      requires NoDup(base) && forall x :: x in base ==> x in Belongs(hash, oldHome, oldShift)
      requires zeroFrontier == FirstOf(base, Belongs(hash, oldHome, oldShift + 1))
      requires oneFrontier == FirstOf(base, Belongs(hash, growHome, oldShift + 1))
      requires first == if base == [] then -1 else if base[0] == zeroFrontier then 0 else 1
      modifies this`head, this`next, this`inflight
      ensures SplitLinks(View(), zero, one, oldHome, growHome, oldShift)
      ensures SplitEntries(hash, base, zero, one, oldHome, growHome, oldShift)
      ensures Elems(zero) + Elems(one) + inflight == Elems(base) + old(inflight)
      ensures Frame(old(View()), View(), {oldHome, growHome}, Belongs(hash, oldHome, oldShift))
    {
      hide SplitInv, Seg, NoDup, Belongs, InitialSide, FirstOf, Restrict, Slots, Frame, Entries, Later;
      ghost var a := InitialSide(base, oldHome, Belongs(hash, oldHome, oldShift + 1));
      ghost var b := InitialSide(base, growHome, Belongs(hash, growHome, oldShift + 1));
      ghost var c, d := a, b;
      StartFacts(View(), base, a, b, zeroFrontier, oneFrontier, first, oldHome, growHome, oldShift);
      if first == 0 {
        c, d := SplitRest(first, zeroFrontier, oneFrontier, oldHome, growHome, oldShift, base, a, b);
      } else if first == 1 {
        c, d := SplitRest(first, oneFrontier, zeroFrontier, oldHome, growHome, oldShift, base, b, a);
        assert {growHome, oldHome} == {oldHome, growHome};
        EntriesSwap(b, a, old(inflight));
      }
      zero, one := if c.home == oldHome then c.own else d.own, if c.home == oldHome then d.own else c.own;
      SplitResult(old(View()), View(), base, a, b, c, d, oldHome, growHome, oldShift);
    }

    /**
     Splits the chain of `oldHome` between that head and the new head `growHome`. Other threads may
     link entries at any time. Those linked before the heads changed are in front in `base`; those
     linked later are in front of the result.
     */
    method SplitForGrow(growHome: nat, oldHome: nat, oldShift: nat, ghost chain: seq<nat>)
      returns (ghost base: seq<nat>, ghost zero: seq<nat>, ghost one: seq<nat>)
      requires BeforeInv(View(), chain, oldHome, oldShift)
      requires growHome == oldHome + Pow2(oldShift) < |head|
      requires !Held(head[oldHome]) && head[growHome] == UnusedLink
      modifies this`head, this`next, this`inflight
      // Both heads list exactly their own entries, at the new shift, each ending at its own end marker.
      ensures ChainAt(head, next, oldHome, oldShift + 1, zero) && ChainAt(head, next, growHome, oldShift + 1, one)
      // The entries keep their order behind later ones, and no entry is lost or made up.
      ensures Suffix(chain, base) && SplitEntries(hash, base, zero, one, oldHome, growHome, oldShift)
      ensures Elems(zero) + Elems(one) + inflight == Elems(chain) + old(inflight)
      // With no other thread at work the result is the old chain, split.
      ensures old(inflight) == {} ==> zero == Restrict(chain, Belongs(hash, oldHome, oldShift + 1))
      ensures old(inflight) == {} ==> one == Restrict(chain, Belongs(hash, growHome, oldShift + 1))
      // Nothing else changes.
      ensures LooseFrame(old(View()), View(), {oldHome, growHome}, Belongs(hash, oldHome, oldShift))
    {
      hide Seg, NoDup, Belongs, FirstOf, Restrict, SplitStart, SplitEntries, Frame, Suffix, Elems;
      BeforeStart(View(), chain, oldHome, oldShift);
      var saved := Acquire(oldHome);
      BeforeLocked(old(View()), View(), chain, oldHome, growHome, oldShift);
      var zeroFrontier, oneFrontier, first;
      zeroFrontier, oneFrontier, first, base := UpdateHeads(growHome, oldHome, oldShift, saved, chain);
      ghost var m := View();
      zero, one := SplitLists(first, zeroFrontier, oneFrontier, oldHome, growHome, oldShift, base);
      SplitSummary(old(View()), m, View(), chain, base, zero, one, oldHome, growHome, oldShift);
      Release(oldHome, zeroFrontier >= 0);
      Release(growHome, oneFrontier >= 0);
    }
  }

  // ---- What holds whenever another thread may run ----

  /** The shared memory of the split: heads, chain pointers, key hashes, slots about to be linked. */
  datatype Mem = Mem(head: seq<Link>, next: seq<Link>, hash: seq<nat>, inflight: set<nat>)

  ghost predicate MemOk(m: Mem)
  {
    && |m.head| == |m.next| == |m.hash|
    && forall e :: e in m.inflight ==> e < |m.next|
  }

  /** Before the heads change: the old head reaches exactly `chain`, at the old shift. */
  ghost predicate BeforeInv(m: Mem, chain: seq<nat>, oldHome: nat, oldShift: nat)
  {
    && MemOk(m)
    && oldHome < |m.head| && oldHome < Pow2(oldShift)
    && Seg(m.next, m.head[oldHome].Unlock(), chain, oldShift, EndLink(oldHome, oldShift))
    && NoDup(chain)
    && (forall x :: x in chain ==> x in Belongs(m.hash, oldHome, oldShift) && x !in m.inflight)
    && (forall e :: e in m.inflight ==> e in Belongs(m.hash, oldHome, oldShift))
  }

  /** After the heads change: both heads reach all of their own entries. */
  ghost predicate SplitInv(m: Mem, a: Side, b: Side, oldHome: nat, oldShift: nat)
  {
    && MemOk(m)
    && oldHome < Pow2(oldShift)
    && ((a.home == oldHome && b.home == oldHome + Pow2(oldShift)) ||
        (b.home == oldHome && a.home == oldHome + Pow2(oldShift)))
    && a.keep == Belongs(m.hash, a.home, oldShift + 1)
    && b.keep == Belongs(m.hash, b.home, oldShift + 1)
    && SideOk(m.head, m.next, a, oldHome, oldShift)
    && SideOk(m.head, m.next, b, oldHome, oldShift)
    && m.inflight !! Slots(a) && m.inflight !! Slots(b)
    && (forall e :: e in m.inflight ==> e in Belongs(m.hash, oldHome, oldShift))
    && OnBase(a) && OnBase(b) && a.base == b.base
    && (forall x :: x in a.base ==> x in Belongs(m.hash, oldHome, oldShift))
  }

  /** Whenever another thread may run, each entry is some number of hops from the head of its own home. */
  lemma HeadReachesOwn(m: Mem, a: Side, b: Side, oldHome: nat, oldShift: nat, x: nat)
    requires SplitInv(m, a, b, oldHome, oldShift) && x in a.own
    ensures x < |m.hash| && BottomBits(m.hash[x], oldShift + 1) == a.home
    ensures exists k: nat :: !Follow(m.next, m.head[a.home].Unlock(), k).end && Follow(m.next, m.head[a.home].Unlock(), k).idx == x
  {
    RestrictMembers(a.front + a.rest, a.keep);
    SideReaches(m.head, m.next, a, oldHome, oldShift, x);
  }

  /** The first member of `p` that is in `keep`, or -1. */
  ghost function FirstOf(p: seq<nat>, keep: set<nat>): int
  {
    if p == [] then -1 else if p[0] in keep then p[0] else FirstOf(p[1..], keep)
  }

  ghost function AfterFirst(p: seq<nat>, keep: set<nat>): seq<nat>
  {
    if p == [] then [] else if p[0] in keep then p[1..] else AfterFirst(p[1..], keep)
  }

  /** A target chain right after the heads changed: only its head pointer has the new shift. */
  ghost function InitialSide(base: seq<nat>, home: nat, keep: set<nat>): Side
  {
    var f := FirstOf(base, keep);
    if f < 0 then Side(home, keep, [], [], false, [], base)
    else Side(home, keep, [f], AfterFirst(base, keep), true, Restrict(base, keep), base)
  }

  lemma {:induction false} InitialSideOk(head: seq<Link>, next: seq<Link>, start: Link, base: seq<nat>, home: nat, keep: set<nat>,
                                         oldHome: nat, oldShift: nat)
    requires Seg(next, start, base, oldShift, EndLink(oldHome, oldShift))
    requires NoDup(base) && home < |head|
    requires head[home].Unlock() == if FirstOf(base, keep) < 0 then EndLink(home, oldShift + 1)
                                    else NextLink(FirstOf(base, keep), oldShift + 1)
    ensures SideOk(head, next, InitialSide(base, home, keep), oldHome, oldShift)
    ensures forall x :: x in Slots(InitialSide(base, home, keep)) ==> x in base
    ensures InitialSide(base, home, keep).own == Restrict(base, keep)
    ensures InitialSide(base, home, keep).home == home && InitialSide(base, home, keep).keep == keep
    decreases |base|
  {
    if base != [] {
      if base[0] in keep {
        assert [base[0]] + base[1..] == base;
        assert [base[0]][1..] == [];
      } else {
        NoDupPrefix([base[0]], base[1..]);
        assert [base[0]] + base[1..] == base;
        InitialSideOk(head, next, next[base[0]], base[1..], home, keep, oldHome, oldShift);
      }
    }
  }

  lemma InitialOnBase(base: seq<nat>, home: nat, keep: set<nat>)
    requires NoDup(base)
    ensures OnBase(InitialSide(base, home, keep)) && InitialSide(base, home, keep).base == base
  {
    hide NoDup, Restrict, FirstOf, AfterFirst;
    FirstSplits(base, keep);
    if FirstOf(base, keep) < 0 {
      assert BeforeFirst(base, keep) + [] == base;
      RestrictNone(base, keep);
    }
  }

  /** The head pointer for a chain that starts at slot `f`, or of an empty chain if f is -1. */
  function FirstLink(f: int, home: nat, shift: nat): Link
  {
    if f >= 0 then NextLink(f, shift) else EndLink(home, shift)
  }

  /** A head can be told apart from one that a thread about to link a slot would write. */
  lemma BeforeStart(m: Mem, chain: seq<nat>, oldHome: nat, oldShift: nat)
    requires BeforeInv(m, chain, oldHome, oldShift)
    ensures m.head[oldHome].end || m.head[oldHome].idx !in m.inflight
    ensures m.head[oldHome].end ==> m.head[oldHome] == EndLink(oldHome, oldShift)
  {
    assert chain != [] ==> chain[0] in chain;
  }

  /** Both heads changed, nothing else: each reaches its own entries of `base` in order. */
  ghost predicate SplitStart(m: Mem, base: seq<nat>, oldHome: nat, oldShift: nat)
  {
    SplitInv(m, InitialSide(base, oldHome, Belongs(m.hash, oldHome, oldShift + 1)),
             InitialSide(base, oldHome + Pow2(oldShift), Belongs(m.hash, oldHome + Pow2(oldShift), oldShift + 1)),
             oldHome, oldShift)
  }

  /** The successful compare-and-swap: both heads reach all of their own entries at once. */
  lemma BigStep(m: Mem, base: seq<nat>, zero: Link, oldHome: nat, growHome: nat, oldShift: nat)
    requires BeforeInv(m, base, oldHome, oldShift)
    requires oldHome + Pow2(oldShift) == growHome < |m.head|
    requires zero.Unlock() == FirstLink(FirstOf(base, Belongs(m.hash, oldHome, oldShift + 1)), oldHome, oldShift + 1)
    requires m.head[growHome].Unlock() ==
             FirstLink(FirstOf(base, Belongs(m.hash, growHome, oldShift + 1)), growHome, oldShift + 1)
    ensures SplitStart(m.(head := m.head[oldHome := zero]), base, oldHome, oldShift)
  {
    hide Seg, NoDup, Belongs, FirstOf, SideOk, InitialSide, Restrict, Slots, Pow2, OnBase;
    InitialOnBase(base, oldHome, Belongs(m.hash, oldHome, oldShift + 1));
    InitialOnBase(base, growHome, Belongs(m.hash, growHome, oldShift + 1));
    var head', start := m.head[oldHome := zero], m.head[oldHome].Unlock();
    InitialSideOk(head', m.next, start, base, oldHome, Belongs(m.hash, oldHome, oldShift + 1), oldHome, oldShift);
    InitialSideOk(head', m.next, start, base, growHome, Belongs(m.hash, growHome, oldShift + 1), oldHome, oldShift);
  }

  /**
   The two target chains share what is left of the old one: side `c` runs into the last new-shift slot
   of side `d`, whose rest starts with `seen`, all for `d`, and goes on with `unseen`.
   */
  ghost predicate Shared(m: Mem, c: Side, d: Side, firstFrontier: nat, otherFrontier: nat,
                         seen: seq<nat>, unseen: seq<nat>, oldHome: nat, oldShift: nat)
  {
    && c.open && c.front != [] && firstFrontier == Last(c.front)
    && d.open && d.front != [] && otherFrontier == Last(d.front)
    && d.rest == seen + unseen
    && c.rest == [otherFrontier] + (seen + unseen)
    && (forall x :: x in seen ==> x in d.keep)
    && (forall x :: x in unseen ==> x in Belongs(m.hash, oldHome, oldShift))
  }

  ghost predicate LaterPair(a: Side, b: Side, c: Side, d: Side)
  {
    (Later(a, c) && Later(b, d)) || (Later(a, d) && Later(b, c))
  }

  /** Slot e is linked in front of the chain of head h. */
  function PushMem(m: Mem, h: nat, e: nat): Mem
    requires h < |m.head| && e < |m.next|
  {
    Mem(m.head[h := PushedHead(m.head[h], e)], m.next[e := m.head[h].Unlock()], m.hash, m.inflight - {e})
  }

  /** An insert onto the head of side a; the other side is as it was. */
  lemma PushKeeps(m: Mem, a: Side, b: Side, e: nat, oldHome: nat, oldShift: nat)
    requires SplitInv(m, a, b, oldHome, oldShift) && e in m.inflight && e in a.keep
    ensures e < |m.next| && a.home < |m.head| && SplitInv(PushMem(m, a.home, e), Pushed(a, [e]), b, oldHome, oldShift)
  {
    hide SideList, SideLinks, OnBase, Pow2;
    SideHeadShift(m.head, m.next, a, oldHome, oldShift);
    PushedSlots(a, [e]);
    PushOnBase(a, [e]);
    KeepBelongs(m, a, b, oldHome, oldShift);
    PushSides(m, a, b, e, oldHome, oldShift);
  }

  lemma PushSides(m: Mem, a: Side, b: Side, e: nat, oldHome: nat, oldShift: nat)
    requires SideOk(m.head, m.next, a, oldHome, oldShift) && SideOk(m.head, m.next, b, oldHome, oldShift)
    requires a.home < |m.head| && m.head[a.home].shift == oldShift + 1 && a.home != b.home
    requires e < |m.next| && e in a.keep && e !in Slots(a) && e !in Slots(b)
    ensures SideOk(PushMem(m, a.home, e).head, PushMem(m, a.home, e).next, Pushed(a, [e]), oldHome, oldShift)
    ensures SideOk(PushMem(m, a.home, e).head, PushMem(m, a.home, e).next, b, oldHome, oldShift)
  {
    hide SideList, SideLinks;
    var n := PushMem(m, a.home, e);
    SidePush(m.head, m.next, a, e, n.head[a.home].locked, oldHome, oldShift);
    SideHeadShift(m.head, m.next, b, oldHome, oldShift);
    SideFrame(m.head, m.next, n.head, n.next, b, oldHome, oldShift);
  }

  /** Which head a slot that is about to be linked goes to, and how an insert finds it. */
  lemma PushTarget(m: Mem, a: Side, b: Side, e: nat, oldHome: nat, oldShift: nat)
    requires SplitInv(m, a, b, oldHome, oldShift) && e in m.inflight
    ensures MemOk(m) && e < |m.next| && oldHome < |m.head|
    ensures BottomBits(m.hash[e], oldShift) == oldHome && m.head[oldHome].shift > oldShift
    ensures var h := BottomBits(m.hash[e], oldShift + 1);
            && h < |m.head| && m.head[h].shift == oldShift + 1 && (h == a.home || h == b.home)
            && (if h == a.home then e in a.keep else e in b.keep)
  {
    hide SideList, SideLinks, OnBase, BottomBits, Pow2;
    SideHeadShift(m.head, m.next, a, oldHome, oldShift);
    SideHeadShift(m.head, m.next, b, oldHome, oldShift);
    TwoHomes(m.hash[e], oldHome, oldShift);
  }

  lemma SplitInvSwap(m: Mem, a: Side, b: Side, oldHome: nat, oldShift: nat)
    requires SplitInv(m, a, b, oldHome, oldShift)
    ensures SplitInv(m, b, a, oldHome, oldShift)
  {
  }

  lemma MigrationStep(m: Mem, m': Mem, m'': Mem, a: Side, b: Side, c: Side, d: Side, c': Side, d': Side, slots: set<nat>)
    requires LaterPair(a, b, c, d) && LaterPair(c, d, c', d')
    requires Frame(m, m', {a.home, b.home}, slots) && Frame(m', m'', {c.home, d.home}, slots)
    ensures LaterPair(a, b, c', d') && Frame(m, m'', {a.home, b.home}, slots)
    ensures Later(c, d') && Later(d, c') ==> c'.home == d.home && d'.home == c.home
  {
    assert {c.home, d.home} == {a.home, b.home};
    FrameTrans(m, m', m'', {a.home, b.home}, slots, slots);
  }

  /** An entry of a target chain was an entry of the old chain, and of only one target chain. */
  lemma KeepBelongs(m: Mem, a: Side, b: Side, oldHome: nat, oldShift: nat)
    requires SplitInv(m, a, b, oldHome, oldShift)
    ensures a.keep <= Belongs(m.hash, oldHome, oldShift)
    ensures a.keep !! b.keep
  {
    Pow2Positive(oldShift);
    forall x | x in a.keep
      ensures x in Belongs(m.hash, oldHome, oldShift)
    {
      BottomBitsStep(m.hash[x], oldShift);
      BottomBitsStep(oldHome, oldShift);
    }
  }

  /** The last new-shift slot of the first chain is off the other chain, and what comes next is not its own. */
  lemma FrontOff(m: Mem, a: Side, b: Side, firstFrontier: nat, otherFrontier: nat, seen: seq<nat>, unseen: seq<nat>,
                 oldHome: nat, oldShift: nat)
    requires SplitInv(m, a, b, oldHome, oldShift)
    requires Shared(m, a, b, firstFrontier, otherFrontier, seen, unseen, oldHome, oldShift)
    ensures firstFrontier !in Slots(b) && firstFrontier in a.keep
    ensures forall y :: y in [otherFrontier] + seen ==> y !in a.keep
    ensures forall y :: y in a.rest && unseen == [] ==> y !in a.keep
  {
    hide Seg, Restrict, Belongs;
    KeepBelongs(m, a, b, oldHome, oldShift);
    NoDupPrefix(a.front, a.rest);
    assert firstFrontier in a.front && otherFrontier in b.front;
  }

  /** After the store on the first chain the other chain's own stretch is off the first chain. */
  lemma AfterSkip(m: Mem, m': Mem, a: Side, b: Side, a': Side, b': Side, otherFrontier: nat,
                  seen: seq<nat>, unseen: seq<nat>, oldHome: nat, oldShift: nat)
    requires SplitInv(m, a, b, oldHome, oldShift) && SplitInv(m', a', b', oldHome, oldShift)
    requires Later(a, a') && Grew(b, b', m.inflight)
    requires a'.rest == if unseen == [] then [] else unseen[1..]
    requires b.open && b.front != [] && otherFrontier == Last(b.front) && b.rest == seen + unseen
    requires forall x :: x in seen ==> x in b.keep
    ensures b'.open && b'.front != [] && otherFrontier == Last(b'.front) && b'.rest == seen + unseen
    ensures b'.keep == b.keep && otherFrontier in b.keep
    ensures otherFrontier !in Slots(a') && forall x :: x in seen ==> x !in Slots(a')
    ensures unseen != [] ==> unseen[0] !in seen
  {
    hide Seg, Restrict, Belongs;
    KeepBelongs(m', a', b', oldHome, oldShift);
    NoDupPrefix(b'.front, b'.rest);
    NoDupPrefix(seen, unseen);
    assert otherFrontier in b'.front;
    assert unseen != [] ==> unseen[0] in unseen;
    assert forall x :: x in a'.rest ==> x in unseen && x in b'.rest;
  }

  /** A store on one chain followed by shift upgrades on the other. */
  lemma ComposeSteps(m: Mem, m': Mem, m'': Mem, a: Side, b: Side, a': Side, b': Side, a'': Side, b'': Side,
                     f: nat, slots: set<nat>, oldHome: nat, oldShift: nat)
    requires SplitInv(m, a, b, oldHome, oldShift)
    requires f in a.keep && slots <= b.keep
    requires Later(a, a') && Grew(b, b', m.inflight) && Grew(a', a'', m'.inflight) && Later(b', b'')
    requires Frame(m, m', {a.home, b.home}, {f}) && Frame(m', m'', {b'.home, a'.home}, slots)
    ensures Later(a, a'') && Later(b, b'')
    ensures Frame(m, m'', {a.home, b.home}, Belongs(m.hash, oldHome, oldShift))
  {
    hide SideOk, Belongs;
    KeepBelongs(m, a, b, oldHome, oldShift);
    KeepBelongs(m, b, a, oldHome, oldShift);
  }

  /** Where the walk along the shared part stands. */
  lemma CurrentLink(m: Mem, c: Side, d: Side, firstFrontier: nat, otherFrontier: nat, seen: seq<nat>, unseen: seq<nat>,
                    cur: nat, oldHome: nat, oldShift: nat)
    requires SplitInv(m, c, d, oldHome, oldShift)
    requires Shared(m, c, d, firstFrontier, otherFrontier, seen, unseen, oldHome, oldShift)
    requires cur == if seen == [] then otherFrontier else Last(seen)
    ensures cur < |m.next|
    ensures m.next[cur] == if unseen == [] then EndLink(oldHome, oldShift) else NextLink(unseen[0], oldShift)
    ensures unseen != [] ==> unseen[0] < |m.hash| && (unseen[0] in c.keep || unseen[0] in d.keep)
    ensures unseen != [] ==> (BottomBits(m.hash[unseen[0]], oldShift + 1) == c.home <==> unseen[0] in c.keep)
    ensures unseen != [] && unseen[0] in d.keep ==>
              Shared(m, c, d, firstFrontier, otherFrontier, seen + [unseen[0]], unseen[1..], oldHome, oldShift)
    ensures {c.home, d.home} == {oldHome, oldHome + Pow2(oldShift)} && c.home != d.home
  {
    hide NoDup, Restrict, OnBase, SideList, BottomBits, Pow2;
    SegSplit(m.next, m.next[otherFrontier], seen, unseen, oldShift, EndLink(oldHome, oldShift));
    FirstOfSeg(m.next, if seen == [] then m.next[otherFrontier] else m.next[Last(seen)], unseen, oldShift, EndLink(oldHome, oldShift));
    if unseen != [] {
      assert unseen[0] in unseen;
      TwoHomes(m.hash[unseen[0]], oldHome, oldShift);
      assert (seen + [unseen[0]]) + unseen[1..] == seen + unseen;
    }
    Pow2Positive(oldShift);
  }

  ghost function BeforeFirst(p: seq<nat>, keep: set<nat>): seq<nat>
  {
    if p == [] || p[0] in keep then [] else [p[0]] + BeforeFirst(p[1..], keep)
  }

  lemma {:induction false} FirstSplits(p: seq<nat>, keep: set<nat>)
    ensures p == BeforeFirst(p, keep) + (if FirstOf(p, keep) < 0 then [] else [FirstOf(p, keep)] + AfterFirst(p, keep))
    ensures forall x :: x in BeforeFirst(p, keep) ==> x in p && x !in keep
    ensures FirstOf(p, keep) >= 0 ==> FirstOf(p, keep) in keep
  {
    if p != [] && p[0] !in keep {
      FirstSplits(p[1..], keep);
    }
  }

  /** Right after the heads changed, the first chain passes over its own entries to the other's first. */
  lemma InitialShape(m: Mem, base: seq<nat>, a: Side, b: Side, oldHome: nat, oldShift: nat)
    requires SplitInv(m, a, b, oldHome, oldShift)
    requires a == InitialSide(base, a.home, a.keep) && b == InitialSide(base, b.home, b.keep)
    requires base != [] && base[0] in a.keep
    requires NoDup(base) && forall x :: x in base ==> x in Belongs(m.hash, oldHome, oldShift)
    ensures a.open && a.front == [base[0]] && BeforeFirst(base, b.keep) != []
    ensures var mids := BeforeFirst(base, b.keep)[1..];
            var other := FirstOf(base, b.keep);
            && a.rest == mids + (if other < 0 then [] else [other] + b.rest)
            && (forall x :: x in mids ==> x in a.keep && x !in Slots(b))
            && base[0] !in Slots(b)
            && (other >= 0 ==> other !in mids && b.open && b.front == [other])
            && (forall x :: x in b.rest ==> x in Belongs(m.hash, oldHome, oldShift))
            && (other < 0 ==> !b.open)
    ensures a.home == oldHome || a.home == oldHome + Pow2(oldShift)
  {
    hide SideOk, Belongs, Restrict, OnBase, FirstOf, BeforeFirst, AfterFirst;
    KeepBelongs(m, a, b, oldHome, oldShift);
    FirstOwn(base, a.keep);
    FirstSplits(base, b.keep);
    var before, other := BeforeFirst(base, b.keep), FirstOf(base, b.keep);
    var tail := if other < 0 then [] else [other] + b.rest;
    NoDupPrefix(before, tail);
    assert before == [base[0]] + before[1..];
    forall x | x in base
      ensures x in a.keep || x in b.keep
    {
      EitherKeep(m, a, b, oldHome, oldShift, x);
    }
  }

  lemma FirstOwn(base: seq<nat>, keep: set<nat>)
    requires base != [] && base[0] in keep
    ensures FirstOf(base, keep) == base[0] && AfterFirst(base, keep) == base[1..]
  {
  }

  lemma EitherKeep(m: Mem, a: Side, b: Side, oldHome: nat, oldShift: nat, x: nat)
    requires SplitInv(m, a, b, oldHome, oldShift)
    requires x in Belongs(m.hash, oldHome, oldShift)
    ensures x in a.keep || x in b.keep
  {
    TwoHomes(m.hash[x], oldHome, oldShift);
  }

  lemma AfterUpgrade(m: Mem, m': Mem, a: Side, b: Side, c: Side, d: Side, slots: set<nat>, other: int, last: nat,
                     oldHome: nat, oldShift: nat)
    requires SplitInv(m, a, b, oldHome, oldShift) && SplitInv(m', c, d, oldHome, oldShift)
    requires Later(a, c) && Grew(b, d, m.inflight) && slots <= a.keep
    requires Frame(m, m', {a.home, b.home}, slots)
    requires c.rest == (if other < 0 then [] else [other] + b.rest) && c.open == (other >= 0)
    requires c.open ==> c.front != [] && last == Last(c.front)
    requires if other < 0 then !b.open else b.open && b.front == [other]
    requires forall x :: x in b.rest ==> x in Belongs(m.hash, oldHome, oldShift)
    ensures LaterPair(a, b, c, d) && c.home == a.home && d.home == b.home && d.open == b.open
    ensures Frame(m, m', {a.home, b.home}, Belongs(m.hash, oldHome, oldShift))
    ensures other >= 0 ==> Shared(m', c, d, last, other, [], d.rest, oldHome, oldShift)
  {
    hide SideOk, Belongs;
    KeepBelongs(m, a, b, oldHome, oldShift);
    assert [] + d.rest == d.rest;
  }

  /** Head `home` is not locked and lists exactly `path`, all pointers at `shift`. */
  ghost predicate ChainAt(head: seq<Link>, next: seq<Link>, home: nat, shift: nat, path: seq<nat>)
  {
    home < |head| && !Held(head[home]) && Seg(next, head[home], path, shift, EndLink(home, shift))
  }

  lemma StartFacts(m: Mem, base: seq<nat>, a: Side, b: Side, zero: int, one: int, first: int,
                   oldHome: nat, growHome: nat, oldShift: nat)
    requires SplitStart(m, base, oldHome, oldShift) && growHome == oldHome + Pow2(oldShift)
    requires a == InitialSide(base, oldHome, Belongs(m.hash, oldHome, oldShift + 1))
    requires b == InitialSide(base, growHome, Belongs(m.hash, growHome, oldShift + 1))
    requires forall x :: x in base ==> x in Belongs(m.hash, oldHome, oldShift)
    requires zero == FirstOf(base, Belongs(m.hash, oldHome, oldShift + 1))
    requires one == FirstOf(base, Belongs(m.hash, growHome, oldShift + 1))
    requires first == if base == [] then -1 else if base[0] == zero then 0 else 1
    ensures SplitInv(m, a, b, oldHome, oldShift) && SplitInv(m, b, a, oldHome, oldShift)
    ensures a.home == oldHome && b.home == growHome && oldHome != growHome
    ensures a.keep == Belongs(m.hash, oldHome, oldShift + 1) && b.keep == Belongs(m.hash, growHome, oldShift + 1)
    ensures a.own == Restrict(base, a.keep) && b.own == Restrict(base, b.keep)
    ensures first == 0 ==> base[0] in a.keep && zero == base[0]
    ensures first == 1 ==> base[0] in b.keep && one == base[0]
    ensures base == [] ==> !a.open && !b.open
    ensures Later(a, a) && Later(b, b) && Frame(m, m, {oldHome, growHome}, Belongs(m.hash, oldHome, oldShift))
  {
    hide SideOk, Belongs, OnBase, FirstOf, AfterFirst, Restrict, Slots;
    Pow2Positive(oldShift);
    FirstSplits(base, a.keep);
    FirstSplits(base, b.keep);
    RestrictBeforeFirst(base, a.keep);
    RestrictBeforeFirst(base, b.keep);
    if base != [] {
      assert base[0] in base;
      EitherKeep(m, a, b, oldHome, oldShift, base[0]);
      if base[0] in a.keep {
        FirstOwn(base, a.keep);
      } else {
        FirstOwn(base, b.keep);
      }
    }
  }

  lemma RestrictBeforeFirst(base: seq<nat>, keep: set<nat>)
    ensures FirstOf(base, keep) < 0 ==> Restrict(base, keep) == []
  {
    FirstSplits(base, keep);
    if FirstOf(base, keep) < 0 {
      RestrictNone(base, keep);
    }
  }

  /** Each head, apart from its lock, lists its chain at the new shift and ends at itself. */
  ghost predicate SplitLinks(m: Mem, zero: seq<nat>, one: seq<nat>, oldHome: nat, growHome: nat, oldShift: nat)
  {
    && oldHome < |m.head| && growHome < |m.head|
    && Seg(m.next, m.head[oldHome].Unlock(), zero, oldShift + 1, EndLink(oldHome, oldShift + 1))
    && Seg(m.next, m.head[growHome].Unlock(), one, oldShift + 1, EndLink(growHome, oldShift + 1))
  }

  /** The two chains list the entries of `base` by their next hash bit, in order, behind later ones. */
  ghost predicate SplitEntries(hash: seq<nat>, base: seq<nat>, zero: seq<nat>, one: seq<nat>,
                               oldHome: nat, growHome: nat, oldShift: nat)
  {
    && NoDup(zero + one)
    && (forall x :: x in zero ==> x in Belongs(hash, oldHome, oldShift + 1))
    && (forall x :: x in one ==> x in Belongs(hash, growHome, oldShift + 1))
    && Suffix(Restrict(base, Belongs(hash, oldHome, oldShift + 1)), zero)
    && Suffix(Restrict(base, Belongs(hash, growHome, oldShift + 1)), one)
  }

  lemma EntriesSwap(a: Side, b: Side, inflight: set<nat>)
    ensures Entries(a, b, inflight) == Entries(b, a, inflight)
  {
  }

  /** Both target chains closed: each head lists its own entries, and together they are all entries. */
  lemma SplitResult(m: Mem, m': Mem, base: seq<nat>, a: Side, b: Side, c: Side, d: Side,
                    oldHome: nat, growHome: nat, oldShift: nat)
    requires SplitInv(m, a, b, oldHome, oldShift) && SplitInv(m', c, d, oldHome, oldShift) && m'.hash == m.hash
    requires !c.open && !d.open && LaterPair(a, b, c, d) && a.home == oldHome && b.home == growHome
    requires Entries(c, d, m'.inflight) == Entries(a, b, m.inflight)
    requires a.own == Restrict(base, a.keep) && b.own == Restrict(base, b.keep)
    requires forall x :: x in base ==> x in Belongs(m.hash, oldHome, oldShift)
    ensures var zero := if c.home == oldHome then c.own else d.own;
            var one := if c.home == oldHome then d.own else c.own;
            && SplitLinks(m', zero, one, oldHome, growHome, oldShift)
            && SplitEntries(m.hash, base, zero, one, oldHome, growHome, oldShift)
            && Elems(zero) + Elems(one) + m'.inflight == Elems(base) + m.inflight
  {
    hide Seg, Belongs, Restrict, Slots;
    KeepBelongs(m, a, b, oldHome, oldShift);
    ClosedOwn(c);
    ClosedOwn(d);
    NoDupJoin(c.own, d.own);
    NoDupJoin(d.own, c.own);
    RestrictMembers(base, a.keep);
    RestrictMembers(base, b.keep);
    forall x | x in base
      ensures x in a.keep || x in b.keep
    {
      EitherKeep(m, a, b, oldHome, oldShift, x);
    }
    assert Elems(a.own) + Elems(b.own) == Elems(base);
  }

  lemma BeforeLocked(m: Mem, m': Mem, chain: seq<nat>, oldHome: nat, growHome: nat, oldShift: nat)
    requires BeforeInv(m, chain, oldHome, oldShift)
    requires m' == m.(head := m.head[oldHome := m.head[oldHome].Lock()])
    requires !Held(m.head[oldHome]) && (m.head[oldHome].end ==> m.head[oldHome] == EndLink(oldHome, oldShift))
    ensures BeforeInv(m', chain, oldHome, oldShift)
    ensures LooseFrame(m, m', {oldHome, growHome}, {})
  {
    hide Seg, NoDup, Belongs;
    assert m'.head[oldHome].Unlock() == m.head[oldHome].Unlock();
  }

  /** The whole split, seen from before the heads changed. */
  lemma SplitSummary(m: Mem, m': Mem, m'': Mem, chain: seq<nat>, base: seq<nat>, zero: seq<nat>, one: seq<nat>,
                     oldHome: nat, growHome: nat, oldShift: nat)
    requires LooseFrame(m, m', {oldHome, growHome}, {})
    requires Frame(m', m'', {oldHome, growHome}, Belongs(m.hash, oldHome, oldShift))
    requires Suffix(chain, base) && NoDup(base) && Elems(base) + m'.inflight == Elems(chain) + m.inflight
    requires SplitEntries(m.hash, base, zero, one, oldHome, growHome, oldShift)
    requires Elems(zero) + Elems(one) + m''.inflight == Elems(base) + m'.inflight
    ensures m.inflight == {} ==> zero == Restrict(chain, Belongs(m.hash, oldHome, oldShift + 1))
    ensures m.inflight == {} ==> one == Restrict(chain, Belongs(m.hash, growHome, oldShift + 1))
    ensures LooseFrame(m, m'', {oldHome, growHome}, Belongs(m.hash, oldHome, oldShift))
    ensures forall i :: 0 <= i < |m'.head| ==> Held(m''.head[i]) == Held(m'.head[i])
  {
    hide Belongs, Restrict;
    NoDupPrefix(zero, one);
    SplitQuiet(chain, base, zero, one, Belongs(m.hash, oldHome, oldShift + 1), Belongs(m.hash, growHome, oldShift + 1),
               m.inflight, m''.inflight);
  }

  lemma ClosedOwn(s: Side)
    requires SideList(s) && s.rest == []
    ensures s.own == s.front && NoDup(s.own)
  {
    assert s.front + s.rest == s.front;
    RestrictAll(s.front, s.keep);
  }

  /** With nothing about to be linked, nothing is put in front of the old entries. */
  lemma SplitQuiet(chain: seq<nat>, base: seq<nat>, zero: seq<nat>, one: seq<nat>, z: set<nat>, o: set<nat>,
                   before: set<nat>, after: set<nat>)
    requires Suffix(chain, base) && NoDup(base) && Elems(base) <= Elems(chain) + before
    requires NoDup(zero) && Suffix(Restrict(base, z), zero) && forall x :: x in zero ==> x in z
    requires NoDup(one) && Suffix(Restrict(base, o), one) && forall x :: x in one ==> x in o
    requires Elems(zero) + Elems(one) + after == Elems(chain) + before
    ensures before == {} ==> base == chain && zero == Restrict(chain, z) && one == Restrict(chain, o)
  {
    hide Restrict, NoDup, Suffix;
    if before == {} {
      forall x | x in base
        ensures x in chain
      {
        InElems(base, chain, x);
      }
      SuffixAll(chain, base);
      RestrictMembers(chain, z);
      RestrictMembers(chain, o);
      forall x | x in zero || x in one
        ensures x in chain
      {
        InUnion(zero, one, chain, x);
      }
      SuffixAll(Restrict(chain, z), zero);
      SuffixAll(Restrict(chain, o), one);
    }
  }

  lemma InElems(p: seq<nat>, q: seq<nat>, x: nat)
    requires x in p && Elems(p) <= Elems(q) + {}
    ensures x in q
  {
    assert x in Elems(p);
  }

  lemma InUnion(p: seq<nat>, q: seq<nat>, r: seq<nat>, x: nat)
    requires (x in p || x in q) && Elems(p) + Elems(q) <= Elems(r)
    ensures x in r
  {
    assert x in Elems(p) + Elems(q);
  }

  lemma SuffixAll(p: seq<nat>, q: seq<nat>)
    requires Suffix(p, q) && NoDup(q) && forall x :: x in q ==> x in p
    ensures p == q
  {
    SuffixHead(p, q);
    assert q != [] ==> q[0] in q;
  }

  lemma SuffixHead(p: seq<nat>, q: seq<nat>)
    requires Suffix(p, q) && NoDup(q)
    ensures |p| < |q| ==> q[0] !in p
  {
    forall i | 0 <= i < |p| < |q|
      ensures p[i] != q[0]
    {
      assert p[i] == q[|q| - |p| + i];
    }
  }

  lemma Pow2Positive(n: nat)
    ensures Pow2(n) > 0
  {
  }

  ghost predicate Suffix(p: seq<nat>, q: seq<nat>)
  {
    |p| <= |q| && q[|q| - |p|..] == p
  }

  /** The same target chain at a later time: entries may have been pushed in front of its own. */
  ghost predicate Later(s: Side, t: Side)
  {
    t.home == s.home && t.keep == s.keep && Suffix(s.own, t.own)
  }

  /** Side `s` after some of `pushed` were pushed onto its head and nothing else happened to it. */
  ghost predicate Grew(s: Side, t: Side, pushed: set<nat>)
  {
    && Later(s, t)
    && t.rest == s.rest && t.open == s.open
    && Suffix(s.front, t.front)
    && Slots(t) <= Slots(s) + pushed
  }

  /** All entries in play: those of the two chains and those about to be linked. */
  ghost function Entries(a: Side, b: Side, inflight: set<nat>): set<nat>
  {
    Elems(a.own) + Elems(b.own) + inflight
  }

  lemma Unmoved(m: Mem, a: Side, b: Side, homes: set<nat>, slots: set<nat>)
    ensures Grew(a, a, m.inflight) && Grew(b, b, m.inflight) && Later(a, a) && Later(b, b) && Frame(m, m, homes, slots)
  {
  }

  lemma PushedGrew(s: Side, t: Side, p: seq<nat>, pushed: set<nat>)
    requires Grew(s, t, pushed) && Elems(p) <= pushed
    ensures Grew(s, Pushed(t, p), pushed)
    ensures t.home == s.home
  {
    PushedSlots(t, p);
  }

  lemma GrewTrans(s: Side, t: Side, u: Side, pushed: set<nat>, pushed': set<nat>)
    requires Grew(s, t, pushed) && Grew(t, u, pushed') && pushed' <= pushed
    ensures Grew(s, u, pushed)
  {
  }

  /** Pushes leave the place where a side changes shift alone, and off the other side. */
  lemma GrewFrontier(a: Side, c: Side, b: Side, d: Side, pushed: set<nat>)
    requires Grew(a, c, pushed) && Grew(b, d, pushed)
    requires a.front != [] && Last(a.front) !in Slots(b) && pushed !! Slots(a)
    ensures c.front != [] && Last(c.front) == Last(a.front) && Last(c.front) !in Slots(d)
  {
    assert (a.front + a.rest)[|a.front| - 1] == Last(a.front);
  }

  lemma AdvanceAfterYield(m: Mem, m': Mem, a: Side, b: Side, c: Side, d: Side,
                          skipped: seq<nat>, x: nat, tail: seq<nat>, oldHome: nat, oldShift: nat)
    requires SplitInv(m, a, b, oldHome, oldShift) && SplitInv(m', c, d, oldHome, oldShift)
    requires Grew(a, c, m.inflight) && Grew(b, d, m.inflight) && Frame(m, m', {a.home, b.home}, {})
    requires a.open && a.front != [] && Last(a.front) !in Slots(b)
    requires a.rest == skipped + ([x] + tail)
    requires x in a.keep && forall y :: y in skipped ==> y !in a.keep
    ensures Last(a.front) < |m'.next|
    ensures var m'' := m'.(next := m'.next[Last(a.front) := NextLink(x, oldShift + 1)]);
            var c' := c.(front := c.front + [x], rest := tail);
            && SplitInv(m'', c', d, oldHome, oldShift)
            && Later(a, c') && c'.open && Last(c'.front) == x
            && Frame(m, m'', {a.home, b.home}, {Last(a.front)})
  {
    hide SideOk, Belongs;
    RestHead(m.head, m.next, a, oldHome, oldShift);
    GrewFrontier(a, c, b, d, m.inflight);
    AdvanceInv(m', c, d, skipped, x, tail, oldHome, oldShift);
  }

  lemma CloseAfterYield(m: Mem, m': Mem, a: Side, b: Side, c: Side, d: Side, oldHome: nat, oldShift: nat)
    requires SplitInv(m, a, b, oldHome, oldShift) && SplitInv(m', c, d, oldHome, oldShift)
    requires Grew(a, c, m.inflight) && Grew(b, d, m.inflight) && Frame(m, m', {a.home, b.home}, {})
    requires a.open && a.front != [] && Last(a.front) !in Slots(b)
    requires forall y :: y in a.rest ==> y !in a.keep
    ensures Last(a.front) < |m'.next|
    ensures var m'' := m'.(next := m'.next[Last(a.front) := EndLink(a.home, oldShift + 1)]);
            var c' := c.(rest := [], open := false);
            && SplitInv(m'', c', d, oldHome, oldShift)
            && Later(a, c')
            && Frame(m, m'', {a.home, b.home}, {Last(a.front)})
  {
    hide SideOk, Belongs;
    RestHead(m.head, m.next, a, oldHome, oldShift);
    GrewFrontier(a, c, b, d, m.inflight);
    CloseInv(m', c, d, oldHome, oldShift);
  }

  /** The pointer at the end of the new-shift part says whether anything is left to upgrade. */
  lemma NextToUpgrade(link: Link, stop: Link, home: nat, todo: seq<nat>, tail: seq<nat>, oldHome: nat, oldShift: nat)
    requires link == if todo + tail == [] then EndLink(oldHome, oldShift) else NextLink((todo + tail)[0], oldShift)
    requires if tail == [] then stop == EndLink(home, oldShift + 1)
             else stop == NextLink(tail[0], oldShift) && tail[0] !in todo
    ensures link == stop <==> todo == [] && tail != []
    ensures link.end <==> todo == [] && tail == []
    ensures todo != [] ==> link == NextLink(todo[0], oldShift) && todo + tail == [] + ([todo[0]] + (todo[1..] + tail))
    ensures todo == [] ==> todo + tail == tail
  {
    if todo != [] {
      assert (todo + tail)[0] == todo[0] && todo[0] in todo;
    }
  }

  /** What an open side's last new-shift slot points at. */
  lemma RestHead(head: seq<Link>, next: seq<Link>, s: Side, oldHome: nat, oldShift: nat)
    requires SideOk(head, next, s, oldHome, oldShift) && s.open
    ensures s.front != [] && Last(s.front) < |next|
    ensures next[Last(s.front)] == if s.rest == [] then EndLink(oldHome, oldShift) else NextLink(s.rest[0], oldShift)
  {
  }

  /** The store that takes `x` into the new-shift part of side `a`, past entries of the other side. */
  lemma AdvanceInv(m: Mem, a: Side, b: Side, skipped: seq<nat>, x: nat, tail: seq<nat>, oldHome: nat, oldShift: nat)
    requires SplitInv(m, a, b, oldHome, oldShift) && a.open
    requires a.rest == skipped + ([x] + tail)
    requires x in a.keep && forall y :: y in skipped ==> y !in a.keep
    requires Last(a.front) !in Slots(b)
    ensures SplitInv(m.(next := m.next[Last(a.front) := NextLink(x, oldShift + 1)]),
                     a.(front := a.front + [x], rest := tail), b, oldHome, oldShift)
  {
    hide Seg, NoDup, Restrict, OnBase;
    AdvanceOnBase(a, skipped, x, tail);
    SideAdvance(m.head, m.next, a, skipped, x, tail, oldHome, oldShift);
    SideFrame(m.head, m.next, m.head, m.next[Last(a.front) := NextLink(x, oldShift + 1)], b, oldHome, oldShift);
    assert forall y :: y in (a.front + [x]) + tail ==> y in a.front + a.rest;
  }

  /** The store that ends side `a` after its last own entry. */
  lemma CloseInv(m: Mem, a: Side, b: Side, oldHome: nat, oldShift: nat)
    requires SplitInv(m, a, b, oldHome, oldShift) && a.open
    requires forall y :: y in a.rest ==> y !in a.keep
    requires Last(a.front) !in Slots(b)
    ensures SplitInv(m.(next := m.next[Last(a.front) := EndLink(a.home, oldShift + 1)]),
                     a.(rest := [], open := false), b, oldHome, oldShift)
  {
    hide Seg, NoDup, Restrict;
    SideClose(m.head, m.next, a, oldHome, oldShift);
    SideFrame(m.head, m.next, m.head, m.next[Last(a.front) := EndLink(a.home, oldShift + 1)], b, oldHome, oldShift);
    assert forall y :: y in a.front + [] ==> y in a.front + a.rest;
  }

  /** A rewrite lock is held on a chain that is not empty. */
  ghost predicate Held(l: Link) { l.locked && !l.end }

  /**
   From m to m' only the heads of `homes`, the pointers of `slots` and those of slots that were
   about to be linked may change, and no rewrite lock is taken or dropped.
   */
  ghost predicate Frame(m: Mem, m': Mem, homes: set<nat>, slots: set<nat>)
  {
    && |m'.head| == |m.head| && |m'.next| == |m.next| && m'.hash == m.hash
    && m'.inflight <= m.inflight
    && (forall i :: 0 <= i < |m.head| && i !in homes ==> m'.head[i] == m.head[i])
    && (forall i :: 0 <= i < |m.head| ==> Held(m'.head[i]) == Held(m.head[i]))
    && (forall i :: 0 <= i < |m.next| && i !in m.inflight && i !in slots ==> m'.next[i] == m.next[i])
  }

  /** The same, for steps that take or drop rewrite locks. */
  ghost predicate LooseFrame(m: Mem, m': Mem, homes: set<nat>, slots: set<nat>)
  {
    && |m'.head| == |m.head| && |m'.next| == |m.next| && m'.hash == m.hash
    && m'.inflight <= m.inflight
    && (forall i :: 0 <= i < |m.head| && i !in homes ==> m'.head[i] == m.head[i])
    && (forall i :: 0 <= i < |m.next| && i !in m.inflight && i !in slots ==> m'.next[i] == m.next[i])
  }

  lemma FrameTrans(m: Mem, m': Mem, m'': Mem, homes: set<nat>, slots: set<nat>, slots': set<nat>)
    requires Frame(m, m', homes, slots) && Frame(m', m'', homes, slots') && slots' <= slots
    ensures Frame(m, m'', homes, slots)
  {
  }

  /** The slots whose key has `home` as its home under `shift`. */
  ghost function Belongs(hash: seq<nat>, home: nat, shift: nat): set<nat>
  {
    set x | 0 <= x < |hash| && BottomBits(hash[x], shift) == home
  }

  /** The head of a side carries the new shift. */
  lemma SideHeadShift(head: seq<Link>, next: seq<Link>, s: Side, oldHome: nat, oldShift: nat)
    requires SideOk(head, next, s, oldHome, oldShift)
    ensures s.home < |head| && head[s.home].shift == oldShift + 1
  {
  }

  /** A hash at the old home goes to the old home or to the new one, by its next bit. */
  lemma TwoHomes(h: nat, oldHome: nat, oldShift: nat)
    requires BottomBits(h, oldShift) == oldHome
    ensures BottomBits(h, oldShift + 1) == oldHome || BottomBits(h, oldShift + 1) == oldHome + Pow2(oldShift)
  {
    BottomBitsStep(h, oldShift);
    assert Bit(h, oldShift) == 0 || Bit(h, oldShift) == 1;
  }
}
