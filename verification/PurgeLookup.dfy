/**
 A lookup beside purges of its chain. Entries that are being destroyed leave the chain while the lookup may stand on
 them, and their slots are used again: linked in front of this chain or into another one, with another key. A slot
 keeps its pointer until it is linked again. No chain is split meanwhile.
 */
module PurgeLookup {
  import opened Bits
  import opened HashedKeys
  import opened ChainLinks
  import opened ChainSides
  import opened ChainSplit
  import opened ChainLookup
  import opened SlotMeta

  // ---- States ----

  /**
   The memory, the keys and the metadata of all slots, and where the lookup stands. `chain` is the chain of the
   lookup's home, `linked` are the slots that were on any chain when the lookup began or were linked since, and `gone`
   are those that left this chain since and were not linked again.
   */
  datatype Scene = Scene(m: Mem, key: seq<Key>, meta: seq<Meta>, chain: seq<nat>, linked: set<nat>, gone: set<nat>, w: Walker)

  ghost predicate Sound(u: Scene, home: nat, shift: nat)
  {
    && home < |u.m.head| && shift > 0 && |u.m.next| == |u.key| == |u.meta|
    && Seg(u.m.next, u.m.head[home].Unlock(), u.chain, shift, EndLink(home, shift)) && NoDup(u.chain)
    && (forall x :: x in u.chain || x in u.gone ==> x in u.linked)
    && (forall x :: x in u.linked ==> x < |u.m.next|)
    && (forall x :: x in u.gone ==> x !in u.chain)
  }

  // ---- What other threads do ----

  /** An end marker that a lookup at this home takes for the end of its chain. */
  predicate Accepted(l: Link, home: nat, shift: nat)
  {
    l.idx == if l.shift < shift then BottomBits(home, l.shift) else home
  }

  /** Keys change only where no entry of this chain is, and metadata in any way. */
  ghost predicate SlotsChange(u: Scene, v: Scene)
  {
    && v.w == u.w && |v.key| == |u.key| && |v.meta| == |u.meta|
    && forall x :: x in u.chain && x < |u.key| ==> v.key[x] == u.key[x]
  }

  /** A slot that is not on the chain is linked in front of it. */
  ghost predicate Links(u: Scene, v: Scene, e: nat, home: nat)
  {
    && e !in u.chain && e < |u.m.next| && home < |u.m.head|
    && v == u.(m := u.m.(head := u.m.head[home := PushedHead(u.m.head[home], e)], next := u.m.next[e := u.m.head[home].Unlock()]),
               chain := [e] + u.chain, linked := u.linked + {e}, gone := u.gone - {e}, key := v.key, meta := v.meta)
  }

  /** A slot that is not on the chain is linked into another chain, or has its pointer changed there. */
  ghost predicate LinksElsewhere(u: Scene, v: Scene, e: nat, l: Link, home: nat, shift: nat)
  {
    && e !in u.chain && e < |u.m.next| && l.shift <= shift
    && (if l.end then !Accepted(l, home, shift) else l.idx in u.linked && l.idx !in u.chain && l.idx !in u.gone)
    && v == u.(m := u.m.(next := u.m.next[e := l]), linked := u.linked + {e}, gone := u.gone - {e}, key := v.key, meta := v.meta)
  }

  ghost predicate Dying(u: Scene, d: seq<nat>) { forall x :: x in d ==> x < |u.meta| && !u.meta[x].Shareable() }

  /** A purge links slot f around entries that are being destroyed. */
  ghost predicate Drops(u: Scene, v: Scene, p: seq<nat>, f: nat, d: seq<nat>, q: seq<nat>, home: nat, shift: nat)
  {
    && u.chain == p + ([f] + (d + q)) && Dying(u, d) && f < |u.m.next|
    && v == u.(m := u.m.(next := u.m.next[f := LinkTo(q, home, shift)]), chain := p + ([f] + q),
               gone := u.gone + Elems(d), key := v.key, meta := v.meta)
  }

  /** A purge links the head around such entries. */
  ghost predicate DropsFirst(u: Scene, v: Scene, d: seq<nat>, q: seq<nat>, home: nat, shift: nat)
  {
    && u.chain == d + q && Dying(u, d) && home < |u.m.head| == |v.m.head|
    && v.m.head[home].Unlock() == LinkTo(q, home, shift)
    && v == u.(m := u.m.(head := u.m.head[home := v.m.head[home]]), chain := q, gone := u.gone + Elems(d),
               key := v.key, meta := v.meta)
  }

  /** Other heads change in any way, and so do lock flags. */
  ghost predicate HeadsElsewhere(u: Scene, v: Scene, home: nat)
  {
    && home < |u.m.head| == |v.m.head| && v.m.head[home].Unlock() == u.m.head[home].Unlock()
    && v == u.(m := u.m.(head := v.m.head), key := v.key, meta := v.meta)
  }

  ghost predicate Purges(u: Scene, v: Scene, home: nat, shift: nat)
  {
    || (exists p, f, d, q :: Drops(u, v, p, f, d, q, home, shift))
    || (exists d, q :: DropsFirst(u, v, d, q, home, shift))
  }

  ghost predicate OthersAct(u: Scene, v: Scene, home: nat, shift: nat)
  {
    && SlotsChange(u, v)
    && (|| (exists e :: Links(u, v, e, home))
        || (exists e, l :: LinksElsewhere(u, v, e, l, home, shift))
        || Purges(u, v, home, shift)
        || HeadsElsewhere(u, v, home))
  }

  ghost predicate Hops(u: Scene, v: Scene, k: Key)
  {
    v == u.(w := Step(u.m, u.meta, u.key, k, u.w))
  }

  ghost predicate Run(us: seq<Scene>, k: Key, home: nat, shift: nat)
  {
    && us != [] && us[0].w == Quick(home, shift, -1, 0)
    && forall j :: 0 < j < |us| ==> OthersAct(us[j - 1], us[j], home, shift) || Hops(us[j - 1], us[j], k)
  }

  // ---- What keeps the lookup in front of an entry ----

  /** A pointer that does not lead behind the entry, nor to an end that would be taken for that of the chain. */
  ghost predicate Leads(u: Scene, l: Link, behind: set<nat>, home: nat, shift: nat)
  {
    l.shift <= shift && if l.end then !Accepted(l, home, shift) else l.idx in u.linked && l.idx !in behind
  }

  ghost predicate InFront(u: Scene, at: int, behind: set<nat>, x: nat) { at < 0 || (at in u.linked && at !in behind && at != x) }

  /**
   The slots behind x are those behind it on the chain and some that left the chain from there. No pointer leads to
   them but from x and from among them.
   */
  ghost predicate Cut(u: Scene, behind: set<nat>, home: nat, shift: nat, x: nat)
  {
    && x in u.chain && x !in behind
    && (forall y :: y in After(u.chain, x) ==> y in behind)
    && (forall y :: y in behind ==> y in After(u.chain, x) || y in u.gone)
    && (forall y :: y in u.linked && y !in behind && y != x ==> y < |u.m.next| && Leads(u, u.m.next[y], behind, home, shift))
  }

  /** The lookup is in front of x, or has found something. */
  ghost predicate Waits(u: Scene, behind: set<nat>, home: nat, shift: nat, x: nat)
  {
    match u.w
    case Idle => false
    case Quick(h, s, _, _) => h == home && s == shift
    case At(h, s, at, safe) => h == home && s == shift && InFront(u, at, behind, x) && InFront(u, safe, behind, x)
    case Found(_) => true
    case Missing => false
  }

  // ---- Steps ----

  /** The first slot of the chain is not behind x. */
  lemma FirstInFront(p: seq<nat>, x: nat)
    requires NoDup(p) && x in p
    ensures p != [] && p[0] !in After(p, x)
  {
    if p[0] != x {
      AfterMembers(p[1..], x);
    }
  }

  lemma HeadLeads(u: Scene, behind: set<nat>, home: nat, shift: nat, x: nat)
    requires Sound(u, home, shift) && Cut(u, behind, home, shift, x)
    ensures u.chain != [] && u.m.head[home].Unlock() == NextLink(u.chain[0], shift)
    ensures u.chain[0] in u.linked && u.chain[0] !in behind
  {
    hide NoDup, After, Seg;
    FirstInFront(u.chain, x);
    FirstOfSeg(u.m.next, u.m.head[home].Unlock(), u.chain, shift, EndLink(home, shift));
    assert u.chain[0] in u.chain;
  }

  /** One hop keeps the lookup in front of a visible entry with the key, or finds an entry with the key. */
  lemma HopWaits(u: Scene, v: Scene, behind: set<nat>, k: Key, home: nat, shift: nat, x: nat)
    requires Sound(u, home, shift) && Cut(u, behind, home, shift, x) && Waits(u, behind, home, shift, x) && Hops(u, v, k)
    requires Matches(u.meta, u.key, k, x)
    ensures Waits(v, behind, home, shift, x)
    ensures v.w.Found? && !u.w.Found? ==> Matches(u.meta, u.key, k, v.w.slot)
  {
    hide Seg, NoDup, After, BottomBits;
    HeadLeads(u, behind, home, shift, x);
    if u.w.At? && u.w.at < 0 {
      assert ReadLink(u.m, u.w).shift == shift && !ReadLink(u.m, u.w).end;
    }
  }

  lemma LinksKeeps(u: Scene, v: Scene, e: nat, behind: set<nat>, home: nat, shift: nat, x: nat)
    requires Sound(u, home, shift) && Cut(u, behind, home, shift, x) && Waits(u, behind, home, shift, x)
    requires SlotsChange(u, v) && Links(u, v, e, home)
    ensures Sound(v, home, shift) && Cut(v, behind - {e}, home, shift, x) && Waits(v, behind - {e}, home, shift, x)
  {
    hide Seg, NoDup, After, BottomBits;
    HeadLeads(u, behind, home, shift, x);
    SegPush(u.m.next, u.m.head[home].Unlock(), u.chain, shift, EndLink(home, shift), e);
    OneNoDup(e);
    NoDupJoin([e], u.chain);
    AfterConcat([e], u.chain, x);
    AfterMembers(u.chain, x);
  }

  lemma LinksElsewhereKeeps(u: Scene, v: Scene, e: nat, l: Link, behind: set<nat>, home: nat, shift: nat, x: nat)
    requires Sound(u, home, shift) && Cut(u, behind, home, shift, x) && Waits(u, behind, home, shift, x)
    requires SlotsChange(u, v) && LinksElsewhere(u, v, e, l, home, shift)
    ensures Sound(v, home, shift) && Cut(v, behind - {e}, home, shift, x) && Waits(v, behind - {e}, home, shift, x)
  {
    hide Seg, NoDup, After, BottomBits, Accepted;
    SegFrame(u.m.next, v.m.next, u.m.head[home].Unlock(), u.chain, shift, EndLink(home, shift));
    AfterMembers(u.chain, x);
  }

  /** What is behind x on a chain from which entries other than x are dropped. */
  lemma {:induction false} AfterDropped(p: seq<nat>, d: seq<nat>, q: seq<nat>, x: nat)
    requires NoDup(p + (d + q)) && x in p + q
    ensures forall y :: y in After(p + q, x) ==> y in After(p + (d + q), x)
    ensures forall y :: y in After(p + (d + q), x) ==> y in After(p + q, x) || y in d
    ensures x in q ==> After(p + q, x) == After(p + (d + q), x) == After(q, x)
  {
    NoDupPrefix(p, d + q);
    NoDupPrefix(d, q);
    if x in q {
      AfterConcat(p, q, x);
      AfterConcat(p, d + q, x);
      AfterConcat(d, q, x);
    } else {
      AfterInFirst(p, q, x);
      AfterInFirst(p, d + q, x);
    }
  }

  lemma {:induction false} AfterInFirst(p: seq<nat>, q: seq<nat>, x: nat)
    requires x in p
    ensures After(p + q, x) == After(p, x) + q
  {
    if p[0] == x {
      assert (p + q)[1..] == p[1..] + q;
    } else {
      assert (p + q)[1..] == p[1..] + q && x in p[1..];
      AfterInFirst(p[1..], q, x);
    }
  }

  lemma NotDropped(u: Scene, d: seq<nat>, x: nat)
    requires Dying(u, d) && x < |u.meta| && u.meta[x].state == Visible
    ensures x !in d
  {
  }

  lemma DropsKeeps(u: Scene, v: Scene, p: seq<nat>, f: nat, d: seq<nat>, q: seq<nat>, behind: set<nat>, home: nat, shift: nat, x: nat)
    requires Sound(u, home, shift) && Cut(u, behind, home, shift, x) && Waits(u, behind, home, shift, x)
    requires SlotsChange(u, v) && Drops(u, v, p, f, d, q, home, shift) && x < |u.meta| && u.meta[x].state == Visible
    ensures Sound(v, home, shift) && Cut(v, behind, home, shift, x) && Waits(v, behind, home, shift, x)
  {
    hide Seg, NoDup, After, BottomBits;
    NotDropped(u, d, x);
    var r := p + [f];
    assert u.chain == r + (d + q) && v.chain == r + q;
    AfterDropped(r, d, q, x);
    SkippedNoDup(r, d, q);
    DroppedSeg(u, v, r, f, d, q, home, shift);
    AfterMembers(u.chain, x);
    NoDupPrefix(r, d + q);
    NoDupPrefix(d, q);
    if f !in behind && f != x {
      DropLeads(u, r, f, d, q, behind, home, shift, x);
    }
  }

  lemma DroppedSeg(u: Scene, v: Scene, r: seq<nat>, f: nat, d: seq<nat>, q: seq<nat>, home: nat, shift: nat)
    requires Sound(u, home, shift) && u.chain == r + (d + q) && r != [] && Last(r) == f < |u.m.next|
    requires v.m.head == u.m.head && v.m.next == u.m.next[f := LinkTo(q, home, shift)]
    ensures Seg(v.m.next, v.m.head[home].Unlock(), r + q, shift, EndLink(home, shift))
  {
    hide NoDup;
    var first, end := u.m.head[home].Unlock(), EndLink(home, shift);
    SegSplit(u.m.next, first, r, d + q, shift, end);
    SegSplit(u.m.next, u.m.next[f], d, q, shift, end);
    NoDupPrefix(r, d + q);
    SegUpdateLast(u.m.next, first, r, shift, u.m.next[f], LinkTo(q, home, shift));
    var mid := if d == [] then u.m.next[f] else u.m.next[d[|d| - 1]];
    FirstOfSeg(u.m.next, mid, q, shift, end);
    assert f in r && forall y :: y in q ==> y in d + q;
    SegFrame(u.m.next, v.m.next, mid, q, shift, end);
    SegConcat(v.m.next, first, r, shift, LinkTo(q, home, shift), q, end);
  }

  /** From a slot in front of x a purge links to x or to a slot in front of it. */
  lemma DropLeads(u: Scene, r: seq<nat>, f: nat, d: seq<nat>, q: seq<nat>, behind: set<nat>, home: nat, shift: nat, x: nat)
    requires Sound(u, home, shift) && Cut(u, behind, home, shift, x) && u.chain == r + (d + q) && r != [] && Last(r) == f
    requires f !in behind && f != x && x !in d
    ensures x in q && q != [] && q[0] in u.linked && q[0] !in behind
  {
    hide Seg, NoDup, After;
    NoDupPrefix(r, d + q);
    if x in r {
      LastBehind(r, d + q, x);
    }
    AfterConcat(r, d + q, x);
    AfterConcat(d, q, x);
    NoDupPrefix(d, q);
    FirstInFront(q, x);
    assert q[0] in u.chain;
  }

  lemma LastBehind(r: seq<nat>, q: seq<nat>, x: nat)
    requires NoDup(r) && x in r && Last(r) != x
    ensures Last(r) in After(r + q, x)
  {
    hide After;
    AfterInFirst(r, q, x);
    var i :| 0 <= i < |r| && r[i] == x;
    AfterAt(r, i);
    assert Last(r) == r[i + 1..][|r| - i - 2];
  }

  lemma DropsFirstKeeps(u: Scene, v: Scene, d: seq<nat>, q: seq<nat>, behind: set<nat>, home: nat, shift: nat, x: nat)
    requires Sound(u, home, shift) && Cut(u, behind, home, shift, x) && Waits(u, behind, home, shift, x)
    requires SlotsChange(u, v) && DropsFirst(u, v, d, q, home, shift) && x < |u.meta| && u.meta[x].state == Visible
    ensures Sound(v, home, shift) && Cut(v, behind, home, shift, x) && Waits(v, behind, home, shift, x)
  {
    hide Seg, NoDup, After, BottomBits;
    NotDropped(u, d, x);
    var first, end := u.m.head[home].Unlock(), EndLink(home, shift);
    SegSplit(u.m.next, first, d, q, shift, end);
    var mid := if d == [] then first else u.m.next[d[|d| - 1]];
    FirstOfSeg(u.m.next, mid, q, shift, end);
    NoDupPrefix(d, q);
    AfterConcat(d, q, x);
  }

  lemma OthersKeep(u: Scene, v: Scene, behind: set<nat>, home: nat, shift: nat, x: nat) returns (behind': set<nat>)
    requires Sound(u, home, shift) && Cut(u, behind, home, shift, x) && Waits(u, behind, home, shift, x)
    requires OthersAct(u, v, home, shift) && x < |u.meta| && u.meta[x].state == Visible
    ensures Sound(v, home, shift) && Cut(v, behind', home, shift, x) && Waits(v, behind', home, shift, x)
  {
    hide Sound, Cut, Waits, Links, LinksElsewhere, Drops, DropsFirst, SlotsChange;
    behind' := behind;
    if e :| Links(u, v, e, home) {
      LinksKeeps(u, v, e, behind, home, shift, x);
      behind' := behind - {e};
    } else if e, l :| LinksElsewhere(u, v, e, l, home, shift) {
      LinksElsewhereKeeps(u, v, e, l, behind, home, shift, x);
      behind' := behind - {e};
    } else if p, f, d, q :| Drops(u, v, p, f, d, q, home, shift) {
      DropsKeeps(u, v, p, f, d, q, behind, home, shift, x);
    } else if d, q :| DropsFirst(u, v, d, q, home, shift) {
      DropsFirstKeeps(u, v, d, q, behind, home, shift, x);
    } else {
      HeadsKeep(u, v, behind, home, shift, x);
    }
  }

  lemma HeadsKeep(u: Scene, v: Scene, behind: set<nat>, home: nat, shift: nat, x: nat)
    requires Sound(u, home, shift) && Cut(u, behind, home, shift, x) && Waits(u, behind, home, shift, x)
    requires SlotsChange(u, v) && HeadsElsewhere(u, v, home)
    ensures Sound(v, home, shift) && Cut(v, behind, home, shift, x) && Waits(v, behind, home, shift, x)
  {
    hide Seg, NoDup, After, Accepted;
  }

  lemma {:induction false} StaysInFront(us: seq<Scene>, behind: set<nat>, k: Key, home: nat, shift: nat, x: nat, j: nat)
    returns (behind': set<nat>)
    requires Run(us, k, home, shift) && Sound(us[0], home, shift) && Cut(us[0], behind, home, shift, x) && j < |us|
    requires forall i :: 0 <= i < |us| ==> Matches(us[i].meta, us[i].key, k, x)
    ensures Sound(us[j], home, shift) && Cut(us[j], behind', home, shift, x) && Waits(us[j], behind', home, shift, x)
    ensures !us[j].w.Missing?
    ensures j > 0 && us[j].w.Found? && !us[j - 1].w.Found? ==> Matches(us[j - 1].meta, us[j - 1].key, k, us[j].w.slot)
  {
    hide Sound, Cut, OthersAct, Hops;
    if j == 0 {
      behind' := behind;
    } else {
      behind' := StaysInFront(us, behind, k, home, shift, x, j - 1);
      var u, v := us[j - 1], us[j];
      if OthersAct(u, v, home, shift) {
        behind' := OthersKeep(u, v, behind', home, shift, x);
        SameWalker(u, v, home, shift);
      } else {
        HopSound(u, v, behind', k, home, shift, x);
        HopWaits(u, v, behind', k, home, shift, x);
      }
    }
  }

  lemma SameWalker(u: Scene, v: Scene, home: nat, shift: nat)
    requires OthersAct(u, v, home, shift)
    ensures v.w == u.w
  {
  }

  lemma HopSound(u: Scene, v: Scene, behind: set<nat>, k: Key, home: nat, shift: nat, x: nat)
    requires Sound(u, home, shift) && Cut(u, behind, home, shift, x) && Hops(u, v, k)
    ensures Sound(v, home, shift) && Cut(v, behind, home, shift, x)
  {
    hide Step, Seg, After;
  }

  /** When the lookup begins, nothing is gone yet, and the pointers of other chains stay on them. */
  ghost predicate Apart(u: Scene, home: nat, shift: nat)
  {
    && u.gone == {}
    && forall y :: y in u.linked && y !in u.chain ==>
         y < |u.m.next| && u.m.next[y].shift <= shift &&
         if u.m.next[y].end then !Accepted(u.m.next[y], home, shift)
         else u.m.next[y].idx in u.linked && u.m.next[y].idx !in u.chain
  }

  /** Then no pointer leads past any entry. */
  lemma CutAtFirst(u: Scene, home: nat, shift: nat, x: nat)
    requires Sound(u, home, shift) && x in u.chain && Apart(u, home, shift)
    ensures Cut(u, Elems(After(u.chain, x)), home, shift, x)
  {
    hide NoDup, After, Accepted;
    var behind := Elems(After(u.chain, x));
    AfterMembers(u.chain, x);
    forall y | y in u.linked && y !in behind && y != x
      ensures y < |u.m.next| && Leads(u, u.m.next[y], behind, home, shift)
    {
      if y in u.chain {
        ChainLeads(u, home, shift, x, y);
      }
    }
  }

  lemma ChainLeads(u: Scene, home: nat, shift: nat, x: nat, y: nat)
    requires Sound(u, home, shift) && x in u.chain && y in u.chain && y != x && y !in After(u.chain, x)
    ensures y < |u.m.next| && Leads(u, u.m.next[y], Elems(After(u.chain, x)), home, shift)
  {
    hide After;
    var i :| 0 <= i < |u.chain| && u.chain[i] == y;
    var j :| 0 <= j < |u.chain| && u.chain[j] == x;
    AfterAt(u.chain, j);
    SegAt(u.m.next, u.m.head[home].Unlock(), u.chain, shift, EndLink(home, shift), i);
    assert u.chain[i + 1] in u.chain;
    assert u.chain[i + 1] !in u.chain[j + 1..];
  }

  /**
   In every interleaving with purges, with inserts into this chain and others and with slots used again, a lookup does
   not miss an entry that is on the chain and visible with the key from when it began; and what it finds has the key.
   */
  lemma NothingMissed(us: seq<Scene>, k: Key, home: nat, shift: nat, x: nat, j: nat)
    requires Run(us, k, home, shift) && Sound(us[0], home, shift) && Apart(us[0], home, shift) && x in us[0].chain && j < |us|
    requires forall i :: 0 <= i < |us| ==> Matches(us[i].meta, us[i].key, k, x)
    ensures !us[j].w.Missing? && x in us[j].chain
    ensures j > 0 && us[j].w.Found? && !us[j - 1].w.Found? ==> Matches(us[j - 1].meta, us[j - 1].key, k, us[j].w.slot)
  {
    hide Sound, Apart, Run, Matches;
    CutAtFirst(us[0], home, shift, x);
    var behind := StaysInFront(us, Elems(After(us[0].chain, x)), k, home, shift, x, j);
  }
}
