/**
 One target chain of a split in progress. Its head reaches `front` over pointers already at the
 new shift, and from there `rest` over pointers still at the old shift; while the chain is open
 the `rest` may be shared with the other target chain and hold entries that belong there. `base` is the
 chain that is split.
 */
module ChainSides {
  import opened ChainLinks

  datatype Side = Side(home: nat, keep: set<nat>, front: seq<nat>, rest: seq<nat>, open: bool, own: seq<nat>,
                       base: seq<nat>)

  ghost function Last(p: seq<nat>): nat
    requires p != []
  {
    p[|p| - 1]
  }

  ghost function Slots(s: Side): set<nat> { Elems(s.front + s.rest) }

  /** The side lists each slot once, its own entries in order, and only own entries in front. */
  ghost predicate SideList(s: Side)
  {
    && (forall x :: x in s.front ==> x in s.keep)
    && Restrict(s.front + s.rest, s.keep) == s.own
    && NoDup(s.front + s.rest)
  }

  /** Where the side's new-shift part ends. */
  ghost predicate SideLinks(head: seq<Link>, next: seq<Link>, s: Side, oldHome: nat, oldShift: nat)
  {
    && s.home < |head|
    && (if s.open then
          && s.front != [] && Last(s.front) < |next|
          && Seg(next, head[s.home].Unlock(), s.front, oldShift + 1, next[Last(s.front)])
          && Seg(next, next[Last(s.front)], s.rest, oldShift, EndLink(oldHome, oldShift))
        else
          && s.rest == []
          && Seg(next, head[s.home].Unlock(), s.front, oldShift + 1, EndLink(s.home, oldShift + 1)))
  }

  /** The head of `s` reaches its own entries in order, and its new-shift part holds nothing else. */
  ghost predicate SideOk(head: seq<Link>, next: seq<Link>, s: Side, oldHome: nat, oldShift: nat)
  {
    SideList(s) && SideLinks(head, next, s, oldHome, oldShift)
  }

  /**
   The side's own entries are what was pushed and then its share of the old chain; while it is open, what is left
   at the old shift is the end of the old chain behind its last new-shift entry.
   */
  ghost predicate OnBase(s: Side)
  {
    && NoDup(s.base)
    && EndsWith(s.own, Restrict(s.base, s.keep))
    && (s.open ==> s.front != [] && EndsWith(s.base, [Last(s.front)] + s.rest))
  }

  ghost predicate EndsWith(p: seq<nat>, q: seq<nat>) { |q| <= |p| && p[|p| - |q|..] == q }

  lemma EndsWithTail(p: seq<nat>, q: seq<nat>, r: seq<nat>)
    requires EndsWith(p, q + r)
    ensures EndsWith(p, r)
  {
    assert p[|p| - |r|..] == (q + r)[|q|..];
  }

  lemma PushOnBase(s: Side, p: seq<nat>)
    requires OnBase(s)
    ensures OnBase(Pushed(s, p))
  {
    hide NoDup, Restrict;
    var own := Restrict(s.base, s.keep);
    assert (p + s.own)[|p + s.own| - |own|..] == s.own[|s.own| - |own|..];
    if s.open {
      assert Last(p + s.front) == Last(s.front);
    }
  }

  lemma AdvanceOnBase(s: Side, skipped: seq<nat>, x: nat, tail: seq<nat>)
    requires OnBase(s) && s.open && s.rest == skipped + ([x] + tail)
    ensures OnBase(s.(front := s.front + [x], rest := tail))
  {
    hide NoDup, Restrict;
    assert [Last(s.front)] + s.rest == ([Last(s.front)] + skipped) + ([x] + tail);
    EndsWithTail(s.base, [Last(s.front)] + skipped, [x] + tail);
  }

  /** The side after the slots of `p` were pushed onto its head. */
  ghost function Pushed(s: Side, p: seq<nat>): Side
  {
    s.(front := p + s.front, own := p + s.own)
  }

  lemma PushedTwice(s: Side, p: seq<nat>, q: seq<nat>)
    ensures Pushed(Pushed(s, p), q) == Pushed(s, q + p)
    ensures Pushed(s, []) == s
  {
    assert q + (p + s.front) == (q + p) + s.front;
    assert q + (p + s.own) == (q + p) + s.own;
    assert [] + s.front == s.front && [] + s.own == s.own;
  }

  lemma PushedSlots(s: Side, p: seq<nat>)
    ensures Slots(Pushed(s, p)) == Elems(p) + Slots(s)
  {
    assert (p + s.front) + s.rest == p + (s.front + s.rest);
    ElemsConcat(p, s.front + s.rest);
  }

  /** A side depends only on its own head and on the pointers of the slots it runs through. */
  lemma SideFrame(head: seq<Link>, next: seq<Link>, head': seq<Link>, next': seq<Link>, s: Side, oldHome: nat, oldShift: nat)
    requires SideOk(head, next, s, oldHome, oldShift)
    requires s.home < |head'| && head'[s.home].Unlock() == head[s.home].Unlock()
    requires |next'| == |next| && forall x :: x in Slots(s) && x < |next| ==> next'[x] == next[x]
    ensures SideOk(head', next', s, oldHome, oldShift)
  {
    var first := head[s.home].Unlock();
    assert forall x :: x in s.front || x in s.rest ==> x in Slots(s);
    if s.open {
      assert Last(s.front) in s.front;
      SegFrame(next, next', first, s.front, oldShift + 1, next[Last(s.front)]);
      SegFrame(next, next', next[Last(s.front)], s.rest, oldShift, EndLink(oldHome, oldShift));
    } else {
      SegFrame(next, next', first, s.front, oldShift + 1, EndLink(s.home, oldShift + 1));
    }
  }

  /** Pushing a slot onto the head puts it in front and moves nothing else. */
  lemma SidePush(head: seq<Link>, next: seq<Link>, s: Side, e: nat, locked: bool, oldHome: nat, oldShift: nat)
    requires SideOk(head, next, s, oldHome, oldShift)
    requires e < |next| && e in s.keep && e !in Slots(s)
    ensures SideOk(head[s.home := Link(e, oldShift + 1, false, locked)], next[e := head[s.home].Unlock()],
                   Pushed(s, [e]), oldHome, oldShift)
  {
    PushList(s, e);
    PushLinks(head, next, s, e, locked, oldHome, oldShift);
  }

  lemma PushList(s: Side, e: nat)
    requires SideList(s) && e in s.keep && e !in Slots(s)
    ensures SideList(Pushed(s, [e]))
  {
    var whole := s.front + s.rest;
    assert ([e] + s.front) + s.rest == [e] + whole;
    RestrictConcat([e], whole, s.keep);
    RestrictAll([e], s.keep);
    assert e !in whole;
    NoDupJoin([e], whole);
  }

  lemma PushLinks(head: seq<Link>, next: seq<Link>, s: Side, e: nat, locked: bool, oldHome: nat, oldShift: nat)
    requires SideLinks(head, next, s, oldHome, oldShift)
    requires e < |next| && e !in s.front && e !in s.rest
    ensures SideLinks(head[s.home := Link(e, oldShift + 1, false, locked)], next[e := head[s.home].Unlock()],
                      Pushed(s, [e]), oldHome, oldShift)
  {
    var first := head[s.home].Unlock();
    var next' := next[e := first];
    var t := Pushed(s, [e]);
    var last := if s.open then next[Last(s.front)] else EndLink(s.home, oldShift + 1);
    SegPush(next, first, s.front, oldShift + 1, last, e);
    if s.open {
      assert Last(t.front) == Last(s.front);
      SegFrame(next, next', last, s.rest, oldShift, EndLink(oldHome, oldShift));
    }
  }

  /**
   Pointing the last slot of the new-shift part at `x` takes `x` into that part and drops the
   `skipped` entries before it, which belong to the other chain.
   */
  lemma SideAdvance(head: seq<Link>, next: seq<Link>, s: Side, skipped: seq<nat>, x: nat, tail: seq<nat>,
                    oldHome: nat, oldShift: nat)
    requires SideOk(head, next, s, oldHome, oldShift) && s.open
    requires s.rest == skipped + ([x] + tail)
    requires x in s.keep && forall y :: y in skipped ==> y !in s.keep
    ensures SideOk(head, next[Last(s.front) := NextLink(x, oldShift + 1)],
                   s.(front := s.front + [x], rest := tail), oldHome, oldShift)
  {
    AdvanceList(s, skipped, x, tail);
    NoDupPrefix(s.front, s.rest);
    AdvanceLinks(head, next, s, skipped, x, tail, oldHome, oldShift);
  }

  lemma AdvanceList(s: Side, skipped: seq<nat>, x: nat, tail: seq<nat>)
    requires SideList(s)
    requires s.rest == skipped + ([x] + tail)
    requires x in s.keep && forall y :: y in skipped ==> y !in s.keep
    ensures SideList(s.(front := s.front + [x], rest := tail))
  {
    SkippedRestrict(s, skipped, x, tail);
    SkippedNoDup(s.front, skipped, [x] + tail);
    assert s.front + ([x] + tail) == (s.front + [x]) + tail;
  }

  lemma AdvanceLinks(head: seq<Link>, next: seq<Link>, s: Side, skipped: seq<nat>, x: nat, tail: seq<nat>,
                     oldHome: nat, oldShift: nat)
    requires SideLinks(head, next, s, oldHome, oldShift) && s.open
    requires s.rest == skipped + ([x] + tail)
    requires NoDup(s.front) && forall y :: y in s.front ==> y !in s.rest
    ensures SideLinks(head, next[Last(s.front) := NextLink(x, oldShift + 1)],
                      s.(front := s.front + [x], rest := tail), oldHome, oldShift)
  {
    var f, link, first := Last(s.front), NextLink(x, oldShift + 1), head[s.home].Unlock();
    var next' := next[f := link];
    assert f in s.front && x in s.rest;
    assert forall y :: y in tail ==> y in s.rest;
    SegUpdateLast(next, first, s.front, oldShift + 1, next[f], link);
    SegSplit(next, next[f], skipped, [x] + tail, oldShift, EndLink(oldHome, oldShift));
    assert ([x] + tail)[1..] == tail;
    assert Seg(next', link, [x], oldShift + 1, next[x]) by {
      assert [x][1..] == [];
    }
    SegConcat(next', first, s.front, oldShift + 1, link, [x], next[x]);
    SegFrame(next, next', next[x], tail, oldShift, EndLink(oldHome, oldShift));
  }

  lemma SkippedRestrict(s: Side, skipped: seq<nat>, x: nat, tail: seq<nat>)
    requires s.rest == skipped + ([x] + tail)
    requires forall y :: y in skipped ==> y !in s.keep
    ensures Restrict((s.front + [x]) + tail, s.keep) == Restrict(s.front + s.rest, s.keep)
  {
    RestrictConcat(s.front, s.rest, s.keep);
    RestrictConcat(skipped, [x] + tail, s.keep);
    RestrictNone(skipped, s.keep);
    RestrictConcat(s.front, [x] + tail, s.keep);
    assert s.front + ([x] + tail) == (s.front + [x]) + tail;
  }

  lemma NoDupPrefix(p: seq<nat>, q: seq<nat>)
    requires NoDup(p + q)
    ensures NoDup(p)
    ensures NoDup(q)
    ensures forall x :: x in p ==> x !in q
  {
    forall i, j | 0 <= i < j < |p|
      ensures p[i] != p[j]
    {
      assert (p + q)[i] == p[i] && (p + q)[j] == p[j];
    }
    forall i, j | 0 <= i < j < |q|
      ensures q[i] != q[j]
    {
      assert (p + q)[|p| + i] == q[i] && (p + q)[|p| + j] == q[j];
    }
    forall i, j | 0 <= i < |p| && 0 <= j < |q|
      ensures p[i] != q[j]
    {
      assert (p + q)[i] == p[i] && (p + q)[|p| + j] == q[j];
    }
  }

  lemma NoDupJoin(p: seq<nat>, q: seq<nat>)
    requires NoDup(p) && NoDup(q)
    requires forall x :: x in p ==> x !in q
    ensures NoDup(p + q)
  {
    var w := p + q;
    forall i, j | 0 <= i < j < |w|
      ensures w[i] != w[j]
    {
      if i < |p| && |p| <= j {
        assert w[i] in p && w[j] == q[j - |p|];
      }
    }
  }

  lemma OneNoDup(x: nat)
    ensures NoDup([x]) && NoDup([])
  {
  }

  lemma {:induction false} RestrictNoDup(p: seq<nat>, keep: set<nat>)
    requires NoDup(p)
    ensures NoDup(Restrict(p, keep))
  {
    if p != [] {
      assert p == [p[0]] + p[1..];
      NoDupPrefix([p[0]], p[1..]);
      RestrictNoDup(p[1..], keep);
      RestrictMembers(p[1..], keep);
      if p[0] in keep {
        OneNoDup(p[0]);
        NoDupJoin([p[0]], Restrict(p[1..], keep));
      }
    }
  }

  lemma SkippedNoDup(p: seq<nat>, q: seq<nat>, r: seq<nat>)
    requires NoDup(p + (q + r))
    ensures NoDup(p + r)
  {
    NoDupPrefix(p, q + r);
    NoDupPrefix(q, r);
    NoDupJoin(p, r);
  }

  /** Storing the new end marker after the last own entry closes the side. */
  lemma SideClose(head: seq<Link>, next: seq<Link>, s: Side, oldHome: nat, oldShift: nat)
    requires SideOk(head, next, s, oldHome, oldShift) && s.open
    requires forall y :: y in s.rest ==> y !in s.keep
    ensures SideOk(head, next[Last(s.front) := EndLink(s.home, oldShift + 1)],
                   s.(rest := [], open := false), oldHome, oldShift)
    ensures s.own == s.front
  {
    NoDupPrefix(s.front, s.rest);
    SegUpdateLast(next, head[s.home].Unlock(), s.front, oldShift + 1, next[Last(s.front)], EndLink(s.home, oldShift + 1));
    RestrictConcat(s.front, s.rest, s.keep);
    RestrictNone(s.rest, s.keep);
    RestrictAll(s.front, s.keep);
    assert s.front + [] == s.front;
  }

  /** Every own entry is some number of hops from the head, in every state of the split. */
  lemma SideReaches(head: seq<Link>, next: seq<Link>, s: Side, oldHome: nat, oldShift: nat, x: nat)
    requires SideOk(head, next, s, oldHome, oldShift)
    requires x in s.own
    ensures exists k: nat :: !Follow(next, head[s.home].Unlock(), k).end && Follow(next, head[s.home].Unlock(), k).idx == x
  {
    var first := head[s.home].Unlock();
    RestrictMembers(s.front + s.rest, s.keep);
    if x in s.front {
      var k :| 0 <= k < |s.front| && s.front[k] == x;
      SegFollow(next, first, s.front, oldShift + 1, if s.open then next[Last(s.front)] else EndLink(s.home, oldShift + 1), k);
      assert Follow(next, first, k).idx == x;
    } else {
      var k :| 0 <= k < |s.rest| && s.rest[k] == x;
      SegFollow(next, first, s.front, oldShift + 1, next[Last(s.front)], |s.front|);
      SegFollow(next, next[Last(s.front)], s.rest, oldShift, EndLink(oldHome, oldShift), k);
      FollowAdd(next, first, |s.front|, k);
      assert Follow(next, first, |s.front| + k).idx == x;
    }
  }

  lemma {:induction false} FollowAdd(next: seq<Link>, a: Link, m: nat, n: nat)
    ensures Follow(next, a, m + n) == Follow(next, Follow(next, a, m), n)
    decreases m
  {
    if m > 0 && !a.end && a.idx < |next| {
      FollowAdd(next, next[a.idx], m - 1, n);
    }
  }
}
