/**
 Purging a chain: the holder of a chain's rewrite lock walks it once, gives each entry a clock update
 (or only looks at it) and links around the entries that are being destroyed. Meanwhile other threads
 push entries onto the head and change the metadata of entries. `Others` stands for what they do
 between two atomic operations of the walk.
 */
module ChainPurge {
  import opened ChainLinks
  import opened ChainSides
  import opened ChainSplit
  import opened SlotMeta

  class SlotStates {
    const chains: ChainArray
    // The metadata word of each slot.
    var meta: seq<Meta>
    // Metadata changes that other threads will still make.
    var pending: nat
    // The slots that other threads took for destruction since the walk began.
    ghost var stolen: set<nat>

    constructor (chains: ChainArray, meta: seq<Meta>, pending: nat)
      ensures this.chains == chains && this.meta == meta && this.pending == pending
    {
      this.chains := chains;
      this.meta := meta;
      this.pending := pending;
      this.stolen := {};
    }

    /**
     Other threads link any of their slots, `p`, onto the head and change metadata. An entry that is
     being destroyed stays so while the chain is locked, and one about to be linked is kept by its
     inserter.
     */
    method Others(home: nat, shift: nat, ghost t: Trip) returns (ghost p: seq<nat>)
      requires Walk(chains.View(), meta, t, home, shift)
      modifies this`meta, this`pending, this`stolen, chains`head, chains`next, chains`inflight
      ensures Walk(chains.View(), meta, Ahead(t, p), home, shift)
      ensures Elems(p) == old(chains.inflight) - chains.inflight && chains.inflight <= old(chains.inflight)
      ensures p == [] ==> chains.View() == old(chains.View())
      ensures Frame(old(chains.View()), chains.View(), {home}, {})
      ensures Disturbed(old(meta), meta) && |meta| == |old(meta)| && Stole(old(meta), meta, old(stolen), stolen)
      ensures pending <= old(pending) && (old(pending) == 0 ==> meta == old(meta))
    {
      hide Seg, NoDup, Belongs, Restrict;
      p := chains.YieldBefore(Line(t), home, shift);
      while pending > 0
        invariant Disturbed(old(meta), meta) && |meta| == |chains.next|
        invariant forall e :: e in chains.inflight ==> e < |meta| && meta[e].Shareable()
        invariant pending <= old(pending) && (old(pending) == 0 ==> meta == old(meta))
        invariant Stole(old(meta), meta, old(stolen), stolen)
        modifies this`meta, this`pending, this`stolen
      {
        if * {
          break;
        }
        pending := pending - 1;
        var x: nat, m: Meta := *, *;
        if x < |meta| && MayBecome(meta[x], m) && (x in chains.inflight ==> m.Shareable()) {
          StoleOne(old(meta), meta, old(stolen), stolen, x, m);
          stolen := if Went(meta, meta[x := m], x) then stolen + {x} else stolen;
          meta := meta[x := m];
        }
      }
      WalkDisturbed(old(chains.View()), chains.View(), old(meta), meta, t, p, home, shift);
    }

    /** Looks at the entry in slot `h`, after a clock update if one is asked for. */
    method Visit(h: nat, clock: bool, home: nat, shift: nat, ghost t: Trip)
      returns (evict: bool, purgeable: bool, pinned: bool, ghost p: seq<nat>, ghost seen: seq<Meta>)
      requires Walk(chains.View(), meta, t, home, shift)
      requires t.todo != [] && h == t.todo[0]
      modifies this`meta, this`pending, this`stolen, chains`head, chains`next, chains`inflight
      ensures Walk(chains.View(), meta, Taking(Ahead(t, p), evict), home, shift)
      ensures Elems(p) == old(chains.inflight) - chains.inflight && chains.inflight <= old(chains.inflight)
      ensures p == [] ==> chains.View() == old(chains.View())
      ensures Frame(old(chains.View()), chains.View(), {home}, {})
      ensures Disturbed(old(meta), meta) && h < |meta|
      // Other threads left the metadata as in `seen`; the visit itself does no more than one clock update to it,
      // and says that it took the entry if and only if it did.
      ensures Stole(old(meta), seen, old(stolen), stolen) && Disturbed(old(meta), seen)
      ensures meta == seen || (clock && meta == seen[h := ClockUpdate(seen[h])])
      ensures evict <==> Went(seen, meta, h)
      // An entry is purged only if it is being destroyed, and taken only if it was not before.
      ensures purgeable ==> meta[h].state == Construction
      ensures old(meta)[h].state == Construction ==> purgeable && !evict
      ensures evict ==> clock && purgeable
      // Undisturbed, the visit is exactly one clock update.
      ensures pending <= old(pending)
      ensures old(pending) == 0 ==> meta == old(meta)[h := Updated(old(meta)[h], clock)]
      ensures old(pending) == 0 ==> purgeable == !meta[h].Shareable() && evict == (clock && Evicts(old(meta)[h]))
      ensures old(pending) == 0 ==> pinned == (clock && SeenPinned(old(meta)[h]))
    {
      hide Walk, Frame, Stole;
      InTodo(chains.View(), meta, t, home, shift);
      p := Others(home, shift, t);
      var m := meta[h];
      evict, purgeable, pinned := false, !m.Shareable(), clock && SeenPinned(m);
      seen := meta;
      if clock && m.Shareable() && m.acquire == m.release {
        ghost var v, taken := chains.View(), stolen;
        ghost var p' := Others(home, shift, Ahead(t, p));
        AheadTwice(t, p, p');
        ElemsConcat(p', p);
        FrameTrans(old(chains.View()), v, chains.View(), {home}, {}, {});
        p := p' + p;
        StoleTwice(old(meta), seen, meta, old(stolen), taken, stolen);
        seen := meta;
        if meta[h] == m {
          Take(chains.View(), meta, Ahead(t, p), home, shift);
          meta := meta[h := ClockUpdate(m)];
          evict, purgeable := Evicts(m), Evicts(m);
        }
      }
    }

    /** Visits an entry and keeps the account of who took which slot. */
    method VisitEntry(h: nat, clock: bool, home: nat, shift: nat, ghost b: Base, ghost t: Trip)
      returns (evict: bool, purgeable: bool, pinned: bool, ghost p: seq<nat>)
      requires Walk(chains.View(), meta, t, home, shift) && t.todo != [] && h == t.todo[0]
      requires Accounted(b.meta, meta, t.evicted, stolen) && Disturbed(b.meta, meta) && NoDup(b.chain)
      modifies this`meta, this`pending, this`stolen, chains`head, chains`next, chains`inflight
      ensures Walk(chains.View(), meta, Taking(Ahead(t, p), evict), home, shift)
      ensures Elems(p) == old(chains.inflight) - chains.inflight && chains.inflight <= old(chains.inflight)
      ensures p == [] ==> chains.View() == old(chains.View())
      ensures Frame(old(chains.View()), chains.View(), {home}, {})
      ensures Disturbed(old(meta), meta) && h < |meta|
      ensures purgeable ==> meta[h].state == Construction
      ensures old(meta)[h].state == Construction ==> purgeable && !evict
      ensures evict ==> clock && purgeable
      ensures Accounted(b.meta, meta, if evict then t.evicted + [h] else t.evicted, stolen)
      ensures pending <= old(pending)
      ensures old(pending) == 0 && Quiet(b, old(meta), t, clock) ==>
                QuietVisit(b, meta, Taking(t, evict), clock, purgeable) && pinned == PinnedAt(b.meta, h, clock)
    {
      hide Walk, Frame, NoDup, Restrict, Disturbed, Accounted, Stole, Quiet, QuietVisit, ClockUpdate, Evicts, SeenPinned,
           Updated, PinnedAt, Went;
      InTodo(chains.View(), meta, t, home, shift);
      ghost var seen;
      evict, purgeable, pinned, p, seen := Visit(h, clock, home, shift, t);
      SameSize(old(meta), seen);
      VisitAccounted(b.meta, old(meta), seen, meta, t.evicted, old(stolen), stolen, h, evict);
      if old(pending) == 0 && Quiet(b, old(meta), t, clock) {
        FilterVisit(b, old(meta), meta, t, clock, evict, purgeable);
      }
    }

    /** Visits the current entry (-1 at the end of the chain, where only other threads act). */
    method VisitNext(h: int, clock: bool, home: nat, shift: nat, ghost link: Link, ghost b: Base, ghost t: Trip, ghost mark: set<nat>)
      returns (evict: bool, purgeable: bool, pinned: bool, ghost t': Trip)
      requires Going(b, chains.View(), meta, t, link, mark) && h == First(t.todo) && home == b.home && shift == b.shift
      requires Accounted(b.meta, meta, t.evicted, stolen)
      modifies this`meta, this`pending, this`stolen, chains`head, chains`next, chains`inflight
      ensures Going(b, chains.View(), meta, t', link, mark) && Since(t, t', chains.inflight, mark)
      ensures SameHeld(b.home, old(chains.head), chains.head) && chains.inflight <= old(chains.inflight)
      ensures t'.evicted == if evict then t.evicted + [h] else t.evicted
      ensures Accounted(b.meta, meta, t'.evicted, stolen)
      ensures (evict ==> clock && h >= 0) && (purgeable ==> h >= 0)
      ensures h >= 0 ==> Verdict(b, meta, t', h, purgeable)
      ensures Calm(b, old(pending)) && Quiet(b, old(meta), t, clock) ==>
                pending == 0 && QuietVisit(b, meta, t', clock, purgeable) && pinned == PinnedAt(b.meta, h, clock)
    {
      hide Walk, Frame, LooseFrame, Seg, Belongs, Restrict, NoDup, Suffix, Filtered, Disturbed, Accounted, Stole;
      ghost var p;
      evict, purgeable, pinned := false, false, false;
      if h >= 0 {
        InTodo(chains.View(), meta, t, b.home, b.shift);
        Sticky(b.meta, meta, h);
        evict, purgeable, pinned, p := VisitEntry(h, clock, home, shift, b, t);
      } else {
        p := Others(home, shift, t);
        OthersAccounted(b.meta, old(meta), meta, t.evicted, old(stolen), stolen);
      }
      Moved(b, old(chains.View()), chains.View(), old(meta), meta, t, p, link, mark);
      AheadNone(t);
      AheadNone(if evict then Taking(t, evict) else t);
      t' := Ahead(if evict then Taking(t, evict) else t, p);
    }

    /**
     Links around the entries to drop, behind the last entry to keep or, if there is none, at the head.
     The swap of the head fails if other threads pushed entries since it was read; the walk then has to
     start over, from the head as it is now.
     */
    method Relink(saved: Link, link: Link, prev: int, home: nat, shift: nat, ghost b: Base, ghost t: Trip, ghost mark: set<nat>)
      returns (ok: bool, saved': Link, ghost t': Trip)
      requires Going(b, chains.View(), meta, t, link, mark) && home == b.home && shift == b.shift
      requires t.dropping != [] && link == link.Unlock() && Accounted(b.meta, meta, t.evicted, stolen)
      requires home < |chains.head| && Held(chains.head[home]) && At(saved, prev, t, chains.inflight, mark, shift)
      modifies this`meta, this`pending, this`stolen, chains`head, chains`next, chains`inflight
      ensures home < |chains.head| && t'.evicted == t.evicted && |meta| == |old(meta)|
      ensures Accounted(b.meta, meta, t'.evicted, stolen)
      ensures ok ==> Going(b, chains.View(), meta, t', link, mark) && t'.dropping == [] && t'.todo == t.todo
      ensures !ok ==> t'.todo != [] && saved'.idx == t'.todo[0] && !saved'.end
      ensures ok && prev >= 0 ==> t'.front != [] && Last(t'.front) == prev && Held(chains.head[home])
      ensures ok && prev < 0 ==> t'.front == [] && saved'.end == (t.todo == []) && Held(chains.head[home]) == !saved'.end
      ensures ok && prev >= 0 ==> saved' == saved
      ensures !ok ==> Going(b, chains.View(), meta, t', saved', chains.inflight) && Held(chains.head[home])
      ensures !ok ==> t'.dropping == [] && At(saved', prev, t', chains.inflight, chains.inflight, shift)
      ensures !ok ==> chains.inflight < mark
      ensures Calm(b, old(pending)) ==> ok && pending == 0 && meta == old(meta) && t'.front == t.front
    {
      hide Walk, Frame, LooseFrame, Seg, Belongs, Restrict, NoDup, Suffix, Disturbed, Accounted, Stole;
      ghost var p := Others(home, shift, t);
      OthersAccounted(b.meta, old(meta), meta, t.evicted, old(stolen), stolen);
      Moved(b, old(chains.View()), chains.View(), old(meta), meta, t, p, link, mark);
      AheadNone(t);
      t' := Ahead(t, p);
      saved' := saved;
      HeadOf(chains.View(), meta, t', home, shift);
      ok := true;
      if prev >= 0 {
        StitchPrev(b.m, chains.View(), meta, t', link, home, shift);
        chains.next := chains.next[prev := link];
        t' := t'.(dropping := []);
      } else if chains.head[home] == saved {
        StitchHead(b.m, chains.View(), meta, t', link, home, shift);
        saved' := link.Lock();
        chains.head := chains.head[home := saved'];
        t' := t'.(dropping := []);
      } else {
        Restart(chains.View(), meta, t', home, shift);
        ok, saved' := false, chains.head[home];
        t' := t'.(front := [], dropping := [], todo := Line(t'));
      }
    }

    /** Visits the next entry, and keeps the list of evicted entries and the count of pinned ones. */
    method VisitCounted(h: int, clock: bool, home: nat, shift: nat, evicted: seq<nat>, pinned: nat, ghost link: Link,
                        ghost b: Base, ghost t: Trip, ghost mark: set<nat>)
      returns (purgeable: bool, evicted': seq<nat>, pinned': nat, ghost t': Trip)
      requires Going(b, chains.View(), meta, t, link, mark) && h == First(t.todo) && home == b.home && shift == b.shift
      requires t.evicted == evicted && Accounted(b.meta, meta, evicted, stolen)
      modifies this`meta, this`pending, this`stolen, chains`head, chains`next, chains`inflight
      ensures Going(b, chains.View(), meta, t', link, mark) && Since(t, t', chains.inflight, mark)
      ensures SameHeld(b.home, old(chains.head), chains.head) && chains.inflight <= old(chains.inflight)
      ensures t'.evicted == evicted' && (!clock ==> evicted' == evicted) && Accounted(b.meta, meta, evicted', stolen)
      ensures (purgeable ==> h >= 0) && (h >= 0 ==> Verdict(b, meta, t', h, purgeable))
      ensures Calm(b, old(pending)) && Quiet(b, old(meta), t, clock) && Counted(b, |t.todo|, clock, pinned) ==>
                pending == 0 && QuietVisit(b, meta, t', clock, purgeable) &&
                Counted(b, if t.todo == [] then 0 else |t.todo| - 1, clock, pinned')
    {
      hide Going, Quiet, Accounted, Counted, PinnedAt, Since, SameHeld, Verdict, Calm, QuietVisit;
      var evict, isPinned;
      evict, purgeable, isPinned, t' := VisitNext(h, clock, home, shift, link, b, t, mark);
      evicted', pinned' := if evict then evicted + [h] else evicted, if isPinned then pinned + 1 else pinned;
      if Calm(b, old(pending)) && Quiet(b, old(meta), t, clock) && Counted(b, |t.todo|, clock, pinned) {
        CountVisit(b, old(meta), t, clock, pinned, isPinned);
      }
    }

    /**
     Walks the locked chain from the saved head. `prev` is the last entry to keep (-1 for the head) and
     `link` the pointer that led to the current entry `h` (-1 at the end of the chain). The result `t`
     lists as `full` everything that was on the chain meanwhile: what other threads pushed, and behind
     it the old chain.
     */
    method PurgeImplLocked(home: nat, shift: nat, saved0: Link, clock: bool, ghost chain: seq<nat>)
      returns (evicted: seq<nat>, pinned: nat, saved: Link, ghost t: Trip)
      requires BeforeInv(chains.View(), chain, home, shift)
      requires chains.head[home] == saved0 && Held(saved0)
      requires |meta| == |chains.next| && forall e :: e in chains.inflight ==> meta[e].Shareable()
      requires forall x :: x in chain ==> x < |meta| && meta[x].state != Empty
      modifies this`meta, this`pending, this`stolen, chains`head, chains`next, chains`inflight
      // The head reaches `t.front`, which lacks no shareable entry; an entry is reported at most once.
      ensures Walk(chains.View(), meta, t, home, shift) && t.dropping == t.todo == [] && t.evicted == evicted
      ensures Suffix(chain, t.full) && Elems(t.full) + chains.inflight == Elems(chain) + old(chains.inflight)
      // Of the slots taken for destruction meanwhile, exactly those that no other thread took are reported.
      ensures Accounted(old(meta), meta, evicted, stolen)
      // What was being destroyed before is gone, and without clock updates nothing is taken.
      ensures forall x :: x in t.front ==> x < |old(meta)| && old(meta)[x].state != Construction
      ensures !clock ==> evicted == []
      // With no other thread at work this is a filter.
      ensures old(pending) == 0 && old(chains.inflight) == {} ==>
                pending == 0 && Filtered(old(meta), meta, clock, chain, t.front, evicted) &&
                pinned == |Restrict(chain, PinnedSet(old(meta), clock))|
      // Nothing else changes.
      ensures Disturbed(old(meta), meta)
      ensures LooseFrame(old(chains.View()), chains.View(), {home}, Belongs(chains.hash, home, shift))
      // The saved head says whether the lock is still held.
      ensures home < |chains.head| && saved.end == (t.front == []) && Held(chains.head[home]) == !saved.end
    {
      hide Walk, Going, At, Quiet, Seg, Belongs, Restrict, NoDup, Suffix, Disturbed, Filtered, LooseFrame, Accounted, Counted,
           PinnedAt, PinnedSet;
      ghost var b := Base(chains.View(), meta, chain, home, shift);
      var link, h, prev: int, pendingPurge := saved0, saved0.idx as int, -1, false;
      evicted, pinned, saved, t := [], 0, saved0, Trip(chain, [], [], chain, []);
      stolen := {};
      NothingAccounted(meta);
      NothingCounted(b, clock);
      ghost var mark := chains.inflight;
      StartGoing(b, saved0, clock);
      while true
        invariant Going(b, chains.View(), meta, t, link, mark) && At(saved, prev, t, chains.inflight, mark, shift)
        invariant home < |chains.head| && Held(chains.head[home]) && !saved.end
        invariant h == First(t.todo) && pendingPurge == (t.dropping != []) && (pendingPurge ==> link == link.Unlock())
        invariant t.evicted == evicted && (!clock ==> evicted == [])
        invariant Accounted(b.meta, meta, evicted, stolen)
        invariant Calm(b, old(pending)) ==> pending == 0 && Quiet(b, meta, t, clock) && Counted(b, |t.todo|, clock, pinned)
        decreases mark, |t.todo|
      {
        var purgeable;
        ghost var t0, inflight := t, chains.inflight;
        purgeable, evicted, pinned, t := VisitCounted(h, clock, home, shift, evicted, pinned, link, b, t, mark);
        AtSince(saved, prev, t0, t, inflight, chains.inflight, mark, shift);
        if purgeable {
          pendingPurge := true;
        } else if pendingPurge {
          var ok;
          t0 := t;
          ok, saved, t := Relink(saved, link, prev, home, shift, b, t, mark);
          QuietSame(b, meta, t0, t, clock);
          pendingPurge := false;
          if !ok {
            link, h, mark := saved, saved.idx, chains.inflight;
            continue;
          }
          prev := h;
        } else {
          prev := h;
        }
        if h < 0 {
          EndGoing(b, chains.View(), meta, t, link, mark, clock);
          EndCounted(b, clock, pinned);
          return;
        }
        GoOn(b, chains.View(), meta, t, link, mark, purgeable);
        AtOn(saved, prev, t, chains.inflight, mark, shift, purgeable);
        t := if purgeable then Dropped(t) else Kept(t);
        link := chains.next[h];
        h := if link.end then -1 else link.idx;
      }
    }
  }

  // ---- What other threads may do to metadata ----

  /** While the chain is locked, an entry being destroyed stays so, and no entry vanishes. */
  predicate MayBecome(m: Meta, m': Meta)
  {
    match m.state
    case Empty => m' == m
    case Construction => m'.state == Construction
    case _ => m'.Shareable() || m'.state == Construction
  }

  ghost predicate Disturbed(meta: seq<Meta>, meta': seq<Meta>)
  {
    |meta'| == |meta| && forall x :: 0 <= x < |meta| ==> MayBecome(meta[x], meta'[x])
  }

  // ---- Who took which slot ----

  /** Slot x went into destruction from `meta` to `meta'`. */
  predicate Went(meta: seq<Meta>, meta': seq<Meta>, x: nat)
  {
    x < |meta| && x < |meta'| && meta[x].state != Construction && meta'[x].state == Construction
  }

  /** The slots that went into destruction from `meta` to `meta'` are new in `stolen'`. */
  ghost predicate Stole(meta: seq<Meta>, meta': seq<Meta>, stolen: set<nat>, stolen': set<nat>)
  {
    |meta'| == |meta| && forall x: nat :: x in stolen' <==> x in stolen || Went(meta, meta', x)
  }

  /**
   The slots that went into destruction since `was` are those in `evicted`, taken by the walk, and those in
   `stolen`, taken by other threads; no slot was taken by both.
   */
  ghost predicate Accounted(was: seq<Meta>, meta: seq<Meta>, evicted: seq<nat>, stolen: set<nat>)
  {
    && |meta| == |was|
    && (forall x: nat :: x in evicted || x in stolen <==> Went(was, meta, x))
    && (forall x: nat :: x in evicted ==> x !in stolen)
  }

  lemma NothingAccounted(meta: seq<Meta>)
    ensures Accounted(meta, meta, [], {})
  {
  }

  lemma StoleOne(was: seq<Meta>, meta: seq<Meta>, stolen: set<nat>, stolen': set<nat>, x: nat, m: Meta)
    requires Stole(was, meta, stolen, stolen') && Disturbed(was, meta) && x < |meta| && MayBecome(meta[x], m)
    ensures Stole(was, meta[x := m], stolen, if Went(meta, meta[x := m], x) then stolen' + {x} else stolen')
    ensures Disturbed(was, meta[x := m])
  {
    var meta' := meta[x := m];
    forall y: nat
      ensures Went(was, meta', y) <==> if y == x then Went(was, meta, x) || Went(meta, meta', x) else Went(was, meta, y)
    {
    }
  }

  lemma StoleTwice(meta: seq<Meta>, meta': seq<Meta>, meta'': seq<Meta>, stolen: set<nat>, stolen': set<nat>, stolen'': set<nat>)
    requires Stole(meta, meta', stolen, stolen') && Disturbed(meta, meta')
    requires Stole(meta', meta'', stolen', stolen'') && Disturbed(meta', meta'')
    ensures Stole(meta, meta'', stolen, stolen'') && Disturbed(meta, meta'')
  {
    forall x: nat
      ensures Went(meta, meta'', x) <==> Went(meta, meta', x) || Went(meta', meta'', x)
    {
      assert x < |meta| ==> MayBecome(meta[x], meta'[x]) && MayBecome(meta'[x], meta''[x]);
    }
  }

  lemma OthersAccounted(was: seq<Meta>, meta: seq<Meta>, meta': seq<Meta>, evicted: seq<nat>, stolen: set<nat>, stolen': set<nat>)
    requires Accounted(was, meta, evicted, stolen) && Stole(meta, meta', stolen, stolen')
    requires Disturbed(was, meta) && Disturbed(meta, meta')
    ensures Accounted(was, meta', evicted, stolen')
  {
    forall x: nat
      ensures Went(was, meta', x) <==> Went(was, meta, x) || Went(meta, meta', x)
    {
      assert x < |meta| ==> MayBecome(was[x], meta[x]) && MayBecome(meta[x], meta'[x]);
    }
  }

  lemma OwnAccounted(was: seq<Meta>, meta: seq<Meta>, meta': seq<Meta>, evicted: seq<nat>, stolen: set<nat>, h: nat, evict: bool)
    requires Accounted(was, meta, evicted, stolen) && Disturbed(was, meta) && h < |meta|
    requires meta' == meta || meta' == meta[h := ClockUpdate(meta[h])]
    requires evict <==> Went(meta, meta', h)
    ensures Accounted(was, meta', if evict then evicted + [h] else evicted, stolen)
  {
    assert MayBecome(was[h], meta[h]);
    forall x: nat
      ensures Went(was, meta', x) <==> Went(was, meta, x) || (x == h && evict)
    {
    }
  }

  // ---- The walk ----

  /**
   Where a walk stands. `full` is everything that was on the chain since the walk began. Of it the head
   still reaches `front`, kept so far, `dropping`, found to be on the way out, and `todo`, not visited
   yet.
   */
  datatype Trip = Trip(full: seq<nat>, front: seq<nat>, dropping: seq<nat>, todo: seq<nat>, evicted: seq<nat>)

  ghost function Line(t: Trip): seq<nat> { t.front + (t.dropping + t.todo) }

  ghost function Ahead(t: Trip, p: seq<nat>): Trip { t.(full := p + t.full, front := p + t.front) }

  /** The walk took the entry it is visiting. */
  ghost function Taking(t: Trip, evict: bool): Trip
    requires t.todo != []
  {
    if evict then t.(evicted := t.evicted + [t.todo[0]]) else t
  }

  ghost predicate Walk(m: Mem, meta: seq<Meta>, t: Trip, home: nat, shift: nat)
  {
    && BeforeInv(m, Line(t), home, shift)
    && |meta| == |m.next|
    && Parts(m.inflight, meta, t)
    && Reported(meta, t)
  }

  /** The head reaches what is left of `full`; what is in neither `front` nor `todo` is being destroyed. */
  ghost predicate Parts(inflight: set<nat>, meta: seq<Meta>, t: Trip)
  {
    && NoDup(t.full)
    && (forall x :: x in t.full ==> x < |meta| && x !in inflight && meta[x].state != Empty)
    && (forall e :: e in inflight ==> e < |meta| && meta[e].Shareable())
    && Line(t) == Restrict(t.full, Elems(Line(t)))
    && (forall x :: x in t.full && x < |meta| && x !in t.front && x !in t.todo ==> meta[x].state == Construction)
  }

  /** Evicted entries are all different, are being destroyed and are not kept. */
  ghost predicate Reported(meta: seq<Meta>, t: Trip)
  {
    && NoDup(t.evicted)
    && forall x :: x in t.evicted ==> x in t.full && x !in t.front && x < |meta| && meta[x].state == Construction
  }

  /** What other threads do between two steps of the walk puts their entries in front. */
  lemma WalkDisturbed(m: Mem, m': Mem, meta: seq<Meta>, meta': seq<Meta>, t: Trip, p: seq<nat>, home: nat, shift: nat)
    requires Walk(m, meta, t, home, shift)
    requires BeforeInv(m', p + Line(t), home, shift) && |m'.next| == |m.next|
    requires Elems(p) == m.inflight - m'.inflight && m'.inflight <= m.inflight
    requires Disturbed(meta, meta') && forall e :: e in m'.inflight ==> e < |meta'| && meta'[e].Shareable()
    ensures Walk(m', meta', Ahead(t, p), home, shift)
  {
    hide Seg, Belongs, NoDup, Restrict;
    assert Line(Ahead(t, p)) == p + Line(t);
    assert forall x :: x in p <==> x in Elems(p);
    NoDupPrefix(p, Line(t));
    NoDupJoin(p, t.full);
    RestrictPushed(p, t.full, Elems(Line(t)));
    ElemsConcat(p, Line(t));
  }

  lemma RestrictPushed(p: seq<nat>, full: seq<nat>, keep: set<nat>)
    requires forall x :: x in p ==> x !in full
    ensures Restrict(p + full, Elems(p) + keep) == p + Restrict(full, keep)
  {
    RestrictConcat(p, full, Elems(p) + keep);
    RestrictAll(p, Elems(p) + keep);
    RestrictSame(full, Elems(p) + keep, keep);
  }

  lemma {:induction false} RestrictSame(p: seq<nat>, keep: set<nat>, keep': set<nat>)
    requires forall x :: x in p ==> (x in keep <==> x in keep')
    ensures Restrict(p, keep) == Restrict(p, keep')
  {
    if p != [] {
      assert p[0] in p && forall x :: x in p[1..] ==> x in p;
      RestrictSame(p[1..], keep, keep');
    }
  }

  function Updated(m: Meta, clock: bool): Meta { if clock then ClockUpdate(m) else m }

  lemma InTodo(m: Mem, meta: seq<Meta>, t: Trip, home: nat, shift: nat)
    requires Walk(m, meta, t, home, shift)
    requires t.todo != []
    ensures |meta| == |m.next| && t.todo[0] < |meta| && meta[t.todo[0]].state != Empty && t.todo[0] !in m.inflight
    ensures t.todo[0] in t.full && t.todo[0] !in t.front
    ensures meta[t.todo[0]].state != Construction ==> t.todo[0] !in t.evicted
  {
    hide Seg, Belongs, NoDup, Restrict;
    var h := t.todo[0];
    assert h in t.dropping + t.todo && h in Line(t);
    RestrictMembers(t.full, Elems(Line(t)));
    NoDupPrefix(t.front, t.dropping + t.todo);
  }

  lemma AheadTwice(t: Trip, p: seq<nat>, q: seq<nat>)
    ensures Ahead(Ahead(t, p), q) == Ahead(t, q + p)
  {
    assert q + (p + t.full) == (q + p) + t.full;
    assert q + (p + t.front) == (q + p) + t.front;
  }

  lemma AheadNone(t: Trip)
    ensures Ahead(t, []) == t
  {
    assert [] + t.full == t.full && [] + t.front == t.front;
  }

  lemma Sticky(meta: seq<Meta>, meta': seq<Meta>, x: nat)
    requires Disturbed(meta, meta') && x < |meta'|
    ensures x < |meta| && (meta[x].state == Construction ==> meta'[x].state == Construction)
  {
  }

  /** A clock update of the entry being visited keeps the walk, and reports the entry if it takes it. */
  lemma Take(m: Mem, meta: seq<Meta>, t: Trip, home: nat, shift: nat)
    requires Walk(m, meta, t, home, shift)
    requires t.todo != []
    requires t.todo[0] < |meta| && meta[t.todo[0]].Shareable() && meta[t.todo[0]].acquire == meta[t.todo[0]].release
    ensures Walk(m, meta[t.todo[0] := ClockUpdate(meta[t.todo[0]])], Taking(t, Evicts(meta[t.todo[0]])), home, shift)
  {
    hide Seg, Belongs, NoDup, Restrict;
    InTodo(m, meta, t, home, shift);
    var h := t.todo[0];
    NoDupJoin(t.evicted, [h]) by {
      OneNoDup(h);
    }
    assert Line(Taking(t, true)) == Line(t);
  }

  // ---- Steps of the walk ----

  /** Where the walk began: memory, metadata and the locked chain. */
  datatype Base = Base(m: Mem, meta: seq<Meta>, chain: seq<nat>, home: nat, shift: nat)

  function First(p: seq<nat>): int { if p == [] then -1 else p[0] }

  /** `link` leads to what is not visited yet; nothing on the chain is lost track of, and nothing off it changes. */
  ghost predicate Going(b: Base, m: Mem, meta: seq<Meta>, t: Trip, link: Link, mark: set<nat>)
  {
    && Walk(m, meta, t, b.home, b.shift)
    && Seg(m.next, link.Unlock(), t.todo, b.shift, EndLink(b.home, b.shift))
    && NoDup(b.chain) && Suffix(b.chain, t.full) && Elems(t.full) + m.inflight == Elems(b.chain) + b.m.inflight
    && Disturbed(b.meta, meta)
    && (forall x :: x in t.front ==> x < |b.meta| && b.meta[x].state != Construction)
    && LooseFrame(b.m, m, {b.home}, Belongs(b.m.hash, b.home, b.shift))
    && m.inflight <= mark <= b.m.inflight
  }

  /** Other threads only put entries in front. */
  ghost predicate Since(t: Trip, t': Trip, inflight: set<nat>, mark: set<nat>)
  {
    && t'.dropping == t.dropping && t'.todo == t.todo
    && (t.front != [] ==> t'.front != [] && Last(t'.front) == Last(t.front))
    && (t'.front != [] ==> t.front != [] || inflight < mark)
  }

  /** Where the next entry to keep is to be linked: at the head as it was read, or behind `prev`. */
  ghost predicate At(saved: Link, prev: int, t: Trip, inflight: set<nat>, mark: set<nat>, shift: nat)
  {
    if prev < 0 then
      && t.dropping + t.todo != [] && saved == NextLink((t.dropping + t.todo)[0], shift).Lock()
      && (t.front != [] ==> inflight < mark)
    else
      t.front != [] && prev == Last(t.front)
  }

  ghost predicate SameHeld(home: nat, head: seq<Link>, head': seq<Link>)
  {
    home < |head| == |head'| && Held(head'[home]) == Held(head[home])
  }

  /** A purged entry is being destroyed; one to be kept was not, when the walk began, and was not taken. */
  ghost predicate Verdict(b: Base, meta: seq<Meta>, t: Trip, h: nat, purgeable: bool)
  {
    && h < |meta|
    && (purgeable ==> meta[h].state == Construction)
    && (!purgeable ==> h !in t.evicted && h < |b.meta| && b.meta[h].state != Construction)
  }

  ghost predicate Calm(b: Base, pending: nat) { pending == 0 && b.m.inflight == {} }

  /** In a walk without other threads: what the part of the chain behind `todo` went through. */
  ghost predicate Quiet(b: Base, meta: seq<Meta>, t: Trip, clock: bool)
  {
    && |t.todo| <= |b.chain| && t.todo == b.chain[|b.chain| - |t.todo|..]
    && Filtered(b.meta, meta, clock, b.chain[..|b.chain| - |t.todo|], t.front, t.evicted)
  }

  ghost predicate QuietVisit(b: Base, meta: seq<Meta>, t: Trip, clock: bool, purgeable: bool)
  {
    if t.todo == [] then Quiet(b, meta, t, clock)
    else Quiet(b, meta, if purgeable then Dropped(t) else Kept(t), clock)
  }

  /** What one undisturbed walk over `done` does: one clock update each, and those still shareable kept, in order. */
  ghost predicate Filtered(meta: seq<Meta>, meta': seq<Meta>, clock: bool, done: seq<nat>, kept: seq<nat>, evicted: seq<nat>)
  {
    && |meta'| == |meta|
    && (forall x :: 0 <= x < |meta| ==> meta'[x] == if x in done then Updated(meta[x], clock) else meta[x])
    && kept == Restrict(done, Keepers(meta, clock))
    && evicted == Restrict(done, Evictees(meta, clock))
  }

  ghost function Keepers(meta: seq<Meta>, clock: bool): set<nat>
  {
    set x | 0 <= x < |meta| && Updated(meta[x], clock).Shareable()
  }

  ghost function Evictees(meta: seq<Meta>, clock: bool): set<nat>
  {
    set x | 0 <= x < |meta| && clock && Evicts(meta[x])
  }

  ghost function PinnedSet(meta: seq<Meta>, clock: bool): set<nat>
  {
    set x | 0 <= x < |meta| && clock && SeenPinned(meta[x])
  }

  predicate PinnedAt(meta: seq<Meta>, h: int, clock: bool) { clock && 0 <= h < |meta| && SeenPinned(meta[h]) }

  /** In a walk without other threads: how many pinned entries there were behind `todo`. */
  ghost predicate Counted(b: Base, left: nat, clock: bool, pinned: nat)
  {
    left <= |b.chain| && pinned == |Restrict(b.chain[..|b.chain| - left], PinnedSet(b.meta, clock))|
  }

  lemma NothingCounted(b: Base, clock: bool)
    ensures Counted(b, |b.chain|, clock, 0)
  {
  }

  lemma EndCounted(b: Base, clock: bool, pinned: nat)
    ensures Counted(b, 0, clock, pinned) ==> pinned == |Restrict(b.chain, PinnedSet(b.meta, clock))|
  {
    assert b.chain[..|b.chain|] == b.chain;
  }

  lemma CountVisit(b: Base, meta: seq<Meta>, t: Trip, clock: bool, pinned: nat, isPinned: bool)
    requires Quiet(b, meta, t, clock) && Counted(b, |t.todo|, clock, pinned)
    requires isPinned == PinnedAt(b.meta, First(t.todo), clock)
    ensures Counted(b, if t.todo == [] then 0 else |t.todo| - 1, clock, if isPinned then pinned + 1 else pinned)
  {
    hide Restrict, Filtered;
    if t.todo != [] {
      var k := |b.chain| - |t.todo|;
      assert b.chain[..k + 1] == b.chain[..k] + [t.todo[0]];
      RestrictStep(b.chain[..k], t.todo[0], PinnedSet(b.meta, clock));
    }
  }

  lemma StartWalk(m: Mem, meta: seq<Meta>, chain: seq<nat>, saved: Link, home: nat, shift: nat)
    requires BeforeInv(m, chain, home, shift)
    requires m.head[home] == saved && Held(saved)
    requires |meta| == |m.next| && forall e :: e in m.inflight ==> meta[e].Shareable()
    requires forall x :: x in chain ==> x < |meta| && meta[x].state != Empty
    ensures Walk(m, meta, Trip(chain, [], [], chain, []), home, shift)
    ensures chain != [] && saved == NextLink(chain[0], shift).Lock() && saved.idx == chain[0]
    ensures Seg(m.next, saved.Unlock(), chain, shift, EndLink(home, shift))
  {
    hide Belongs, NoDup, Seg, Parts;
    assert Line(Trip(chain, [], [], chain, [])) == chain by {
      assert [] + ([] + chain) == chain;
    }
    StartParts(m.inflight, meta, chain);
    OneNoDup(0);
    FirstLinkOf(m.next, saved.Unlock(), chain, shift, EndLink(home, shift));
  }

  lemma StartParts(inflight: set<nat>, meta: seq<Meta>, chain: seq<nat>)
    requires NoDup(chain) && forall x :: x in chain ==> x < |meta| && x !in inflight && meta[x].state != Empty
    requires forall e :: e in inflight ==> e < |meta| && meta[e].Shareable()
    ensures Parts(inflight, meta, Trip(chain, [], [], chain, []))
  {
    assert [] + ([] + chain) == chain;
    RestrictAll(chain, Elems(chain));
  }

  lemma FirstLinkOf(next: seq<Link>, a: Link, p: seq<nat>, shift: nat, b: Link)
    requires Seg(next, a, p, shift, b)
    ensures a == if p == [] then b else NextLink(p[0], shift)
  {
  }

  ghost function Kept(t: Trip): Trip
    requires t.todo != []
  {
    t.(front := t.front + [t.todo[0]], todo := t.todo[1..])
  }

  ghost function Dropped(t: Trip): Trip
    requires t.todo != []
  {
    t.(dropping := t.dropping + [t.todo[0]], todo := t.todo[1..])
  }

  /** The pointer stored in the slot being visited leads to the entries behind it. */
  ghost predicate ReadNext(m: Mem, t: Trip, home: nat, shift: nat)
  {
    t.todo != [] && t.todo[0] < |m.next| &&
    var link := m.next[t.todo[0]];
    && Seg(m.next, link.Unlock(), t.todo[1..], shift, EndLink(home, shift)) && link == link.Unlock()
    && (if link.end then |t.todo| == 1 else |t.todo| > 1 && link.idx == t.todo[1])
  }

  lemma NextOf(m: Mem, t: Trip, home: nat, shift: nat)
    requires BeforeInv(m, Line(t), home, shift) && t.todo != []
    ensures ReadNext(m, t, home, shift)
  {
    hide NoDup, Belongs;
    var before := (t.front + t.dropping) + [t.todo[0]];
    assert Line(t) == before + t.todo[1..];
    SegSplit(m.next, m.head[home].Unlock(), before, t.todo[1..], shift, EndLink(home, shift));
    assert before[|before| - 1] == t.todo[0];
  }

  /** A locked head points at the first entry of the chain. */
  lemma HeadOf(m: Mem, meta: seq<Meta>, t: Trip, home: nat, shift: nat)
    requires Walk(m, meta, t, home, shift)
    ensures home < |m.head|
    ensures Held(m.head[home]) ==> Line(t) != [] && m.head[home] == NextLink(Line(t)[0], shift).Lock()
    ensures t.front == [] ==> Line(t) == t.dropping + t.todo
    ensures t.front != [] && t.dropping + t.todo != [] ==> Line(t)[0] != (t.dropping + t.todo)[0]
  {
    hide Belongs, Restrict;
    if t.front != [] && t.dropping + t.todo != [] {
      assert Line(t)[0] == t.front[0] && Line(t)[|t.front|] == (t.dropping + t.todo)[0];
    }
  }

  lemma Keep(m: Mem, meta: seq<Meta>, t: Trip, home: nat, shift: nat)
    requires Walk(m, meta, t, home, shift)
    requires t.todo != [] && t.dropping == [] && t.todo[0] !in t.evicted
    ensures Walk(m, meta, Kept(t), home, shift)
    ensures ReadNext(m, t, home, shift)
  {
    hide NoDup, Restrict, Belongs, Seg;
    assert Line(Kept(t)) == Line(t);
    NextOf(m, t, home, shift);
    assert t.todo == [t.todo[0]] + t.todo[1..];
  }

  lemma Drop(m: Mem, meta: seq<Meta>, t: Trip, home: nat, shift: nat)
    requires Walk(m, meta, t, home, shift)
    requires t.todo != [] && t.todo[0] < |meta| && meta[t.todo[0]].state == Construction
    ensures Walk(m, meta, Dropped(t), home, shift)
    ensures ReadNext(m, t, home, shift)
  {
    hide NoDup, Restrict, Belongs, Seg;
    assert Line(Dropped(t)) == Line(t);
    NextOf(m, t, home, shift);
    assert t.todo == [t.todo[0]] + t.todo[1..];
  }

  lemma Restart(m: Mem, meta: seq<Meta>, t: Trip, home: nat, shift: nat)
    requires Walk(m, meta, t, home, shift)
    ensures Walk(m, meta, t.(front := [], dropping := [], todo := Line(t)), home, shift)
    ensures home < |m.head| && Seg(m.next, m.head[home].Unlock(), Line(t), shift, EndLink(home, shift))
  {
    hide Belongs, NoDup, Restrict;
    assert [] + ([] + Line(t)) == Line(t);
  }

  /** Linking around the entries to drop leaves the rest of the chain in order. */
  lemma StitchedParts(inflight: set<nat>, meta: seq<Meta>, t: Trip)
    requires Parts(inflight, meta, t) && NoDup(Line(t))
    ensures Parts(inflight, meta, t.(dropping := []))
  {
    hide NoDup, Restrict;
    var all, some := Elems(Line(t)), Elems(t.front + t.todo);
    assert Line(t.(dropping := [])) == t.front + t.todo by {
      assert [] + t.todo == t.todo;
    }
    RestrictTwice(t.full, all, some);
    WithoutMiddle(t.front, t.dropping, t.todo);
  }

  lemma WithoutMiddle(p: seq<nat>, d: seq<nat>, q: seq<nat>)
    requires NoDup(p + (d + q))
    ensures Restrict(p + (d + q), Elems(p + q)) == p + q
  {
    hide NoDup, Restrict;
    var some := Elems(p + q);
    NoDupPrefix(p, d + q);
    NoDupPrefix(d, q);
    RestrictConcat(p, d + q, some);
    RestrictConcat(d, q, some);
    RestrictAll(p, some);
    RestrictAll(q, some);
    RestrictNone(d, some);
    assert [] + q == q;
  }

  lemma {:induction false} RestrictTwice(p: seq<nat>, keep: set<nat>, keep': set<nat>)
    requires keep' <= keep
    ensures Restrict(Restrict(p, keep), keep') == Restrict(p, keep')
  {
    if p != [] {
      var r := Restrict(p[1..], keep);
      RestrictTwice(p[1..], keep, keep');
      if p[0] in keep {
        RestrictConcat([p[0]], r, keep');
        RestrictOne(p[0], keep');
      } else {
        assert [] + r == r && [] + Restrict(p[1..], keep') == Restrict(p[1..], keep');
      }
    }
  }

  lemma RestrictOne(x: nat, keep: set<nat>)
    ensures Restrict([x], keep) == if x in keep then [x] else []
  {
    assert [x][1..] == [];
  }

  lemma RestrictStep(p: seq<nat>, x: nat, keep: set<nat>)
    ensures Restrict(p + [x], keep) == if x in keep then Restrict(p, keep) + [x] else Restrict(p, keep)
  {
    RestrictConcat(p, [x], keep);
    RestrictOne(x, keep);
  }

  lemma StitchPrev(m0: Mem, m: Mem, meta: seq<Meta>, t: Trip, link: Link, home: nat, shift: nat)
    requires Walk(m, meta, t, home, shift) && t.front != []
    requires Seg(m.next, link, t.todo, shift, EndLink(home, shift))
    requires LooseFrame(m0, m, {home}, Belongs(m0.hash, home, shift))
    ensures Last(t.front) < |m.next|
    ensures LooseFrame(m0, m.(next := m.next[Last(t.front) := link]), {home}, Belongs(m0.hash, home, shift))
    ensures Seg(m.next[Last(t.front) := link], link, t.todo, shift, EndLink(home, shift))
    ensures Walk(m.(next := m.next[Last(t.front) := link]), meta, t.(dropping := []), home, shift)
  {
    hide Restrict, Belongs, NoDup, Parts, Reported, Seg;
    assert Last(t.front) in t.front && Last(t.front) in Line(t);
    StitchedParts(m.inflight, meta, t);
    ReportedStitched(meta, t);
    NoDupPrefix(t.front, t.dropping + t.todo);
    StitchedSeg(m.next, m.head[home].Unlock(), t, link, home, shift);
    SkippedNoDup(t.front, t.dropping, t.todo);
    assert [] + t.todo == t.todo;
  }

  lemma StitchedSeg(next: seq<Link>, first: Link, t: Trip, link: Link, home: nat, shift: nat)
    requires Seg(next, first, Line(t), shift, EndLink(home, shift)) && NoDup(Line(t)) && t.front != []
    requires Seg(next, link, t.todo, shift, EndLink(home, shift))
    ensures Last(t.front) < |next|
    ensures Seg(next[Last(t.front) := link], first, t.front + t.todo, shift, EndLink(home, shift))
    ensures Seg(next[Last(t.front) := link], link, t.todo, shift, EndLink(home, shift))
  {
    hide NoDup, Seg;
    var f, end := Last(t.front), EndLink(home, shift);
    assert f in t.front;
    NoDupPrefix(t.front, t.dropping + t.todo);
    SegSplit(next, first, t.front, t.dropping + t.todo, shift, end);
    SegUpdateLast(next, first, t.front, shift, next[f], link);
    SegFrame(next, next[f := link], link, t.todo, shift, end);
    SegConcat(next[f := link], first, t.front, shift, link, t.todo, end);
  }

  lemma ReportedStitched(meta: seq<Meta>, t: Trip)
    requires Reported(meta, t)
    ensures Reported(meta, t.(dropping := []))
  {
  }

  lemma StitchHead(m0: Mem, m: Mem, meta: seq<Meta>, t: Trip, link: Link, home: nat, shift: nat)
    requires Walk(m, meta, t, home, shift) && t.front == [] && link == link.Unlock()
    requires Seg(m.next, link, t.todo, shift, EndLink(home, shift))
    requires LooseFrame(m0, m, {home}, Belongs(m0.hash, home, shift))
    ensures home < |m.head|
    ensures LooseFrame(m0, m.(head := m.head[home := link.Lock()]), {home}, Belongs(m0.hash, home, shift))
    ensures Walk(m.(head := m.head[home := link.Lock()]), meta, t.(dropping := []), home, shift)
    ensures link.Lock().end == (t.todo == []) && Held(link.Lock()) == !link.Lock().end
  {
    hide Restrict, Belongs, NoDup, Parts, Reported;
    StitchedParts(m.inflight, meta, t);
    SkippedNoDup(t.front, t.dropping, t.todo);
    assert [] + t.todo == t.todo;
    assert [] + ([] + t.todo) == t.todo;
    ReportedStitched(meta, t);
  }

  /** What other threads did leaves the walk's pointer and the list of all entries right. */
  lemma Moved(b: Base, m: Mem, m': Mem, meta: seq<Meta>, meta': seq<Meta>, t: Trip, p: seq<nat>, link: Link, mark: set<nat>)
    requires Going(b, m, meta, t, link, mark) && Frame(m, m', {b.home}, {})
    requires Elems(p) == m.inflight - m'.inflight && Disturbed(meta, meta')
    ensures Seg(m'.next, link.Unlock(), t.todo, b.shift, EndLink(b.home, b.shift))
    ensures LooseFrame(b.m, m', {b.home}, Belongs(b.m.hash, b.home, b.shift))
    ensures Suffix(b.chain, p + t.full) && Elems(p + t.full) + m'.inflight == Elems(b.chain) + b.m.inflight
    ensures SameHeld(b.home, m.head, m'.head)
    ensures Disturbed(b.meta, meta')
    ensures forall x :: x in p + t.front ==> x < |b.meta| && b.meta[x].state != Construction
    ensures m'.inflight <= mark && Since(t, Ahead(t, p), m'.inflight, mark)
    ensures b.m.inflight == {} ==> p == []
  {
    hide Belongs, NoDup, Restrict, Seg, Disturbed;
    MovedSeg(m, m', meta, t, link.Unlock(), b.home, b.shift);
    MovedMeta(m.inflight, b.meta, meta, meta', t, p);
    ElemsConcat(p, t.full);
    SuffixPush(b.chain, t.full, p);
    assert p != [] ==> p[0] in Elems(p);
  }

  lemma MovedMeta(inflight: set<nat>, meta0: seq<Meta>, meta: seq<Meta>, meta': seq<Meta>, t: Trip, p: seq<nat>)
    requires Parts(inflight, meta, t) && Elems(p) <= inflight
    requires Disturbed(meta0, meta) && Disturbed(meta, meta')
    ensures Disturbed(meta0, meta')
    ensures forall x :: x in p ==> x < |meta0| && meta0[x].state != Construction
  {
    hide NoDup, Restrict;
    assert forall x :: x in p ==> x in Elems(p);
  }

  lemma MovedSeg(m: Mem, m': Mem, meta: seq<Meta>, t: Trip, link: Link, home: nat, shift: nat)
    requires Walk(m, meta, t, home, shift) && Frame(m, m', {home}, {})
    requires Seg(m.next, link, t.todo, shift, EndLink(home, shift))
    ensures Seg(m'.next, link, t.todo, shift, EndLink(home, shift))
    ensures home < |m.head|
  {
    hide Belongs, NoDup, Restrict, Seg;
    assert forall x :: x in t.todo ==> x in t.dropping + t.todo;
    assert forall x :: x in t.todo ==> x in Line(t);
    SegFrame(m.next, m'.next, link, t.todo, shift, EndLink(home, shift));
  }

  lemma SuffixPush(p: seq<nat>, q: seq<nat>, r: seq<nat>)
    requires Suffix(p, q)
    ensures Suffix(p, r + q)
  {
    assert (r + q)[|r + q| - |p|..] == q[|q| - |p|..];
  }

  lemma NextOfChain(chain: seq<nat>, todo: seq<nat>, k: nat)
    requires NoDup(chain) && k < |chain| && todo == chain[k..]
    ensures todo[0] !in chain[..k] && chain[..k + 1] == chain[..k] + [todo[0]] && chain[k + 1..] == todo[1..]
  {
  }

  lemma SinceBase(was: seq<Meta>, meta: seq<Meta>, meta': seq<Meta>)
    requires Disturbed(was, meta) && Disturbed(meta, meta')
    ensures Disturbed(was, meta')
  {
    forall x | 0 <= x < |was|
      ensures MayBecome(was[x], meta'[x])
    {
      assert MayBecome(was[x], meta[x]) && MayBecome(meta[x], meta'[x]);
    }
  }

  lemma SameSize(meta: seq<Meta>, meta': seq<Meta>)
    requires Disturbed(meta, meta')
    ensures |meta'| == |meta|
  {
  }

  lemma VisitAccounted(was: seq<Meta>, meta: seq<Meta>, seen: seq<Meta>, meta': seq<Meta>, evicted: seq<nat>,
                       stolen: set<nat>, stolen': set<nat>, h: nat, evict: bool)
    requires Accounted(was, meta, evicted, stolen) && Disturbed(was, meta)
    requires Stole(meta, seen, stolen, stolen') && Disturbed(meta, seen) && h < |seen|
    requires meta' == seen || meta' == seen[h := ClockUpdate(seen[h])]
    requires evict <==> Went(seen, meta', h)
    ensures Accounted(was, meta', if evict then evicted + [h] else evicted, stolen')
  {
    hide Accounted, Stole, Disturbed, ClockUpdate;
    OthersAccounted(was, meta, seen, evicted, stolen, stolen');
    SinceBase(was, meta, seen);
    OwnAccounted(was, seen, meta', evicted, stolen', h, evict);
  }

  /** An undisturbed walk has not changed the entry it comes to. */
  lemma StillThere(b: Base, meta: seq<Meta>, t: Trip, clock: bool)
    requires Quiet(b, meta, t, clock) && NoDup(b.chain) && t.todo != [] && t.todo[0] < |meta|
    ensures t.todo[0] < |b.meta| && meta[t.todo[0]] == b.meta[t.todo[0]]
  {
    hide NoDup;
    NextOfChain(b.chain, t.todo, |b.chain| - |t.todo|);
  }

  /** One undisturbed visit extends what the walk has done by the entry visited. */
  lemma FilterVisit(b: Base, meta: seq<Meta>, meta': seq<Meta>, t: Trip, clock: bool, evict: bool, purgeable: bool)
    requires Quiet(b, meta, t, clock) && NoDup(b.chain) && t.todo != [] && t.todo[0] < |meta|
    requires meta' == meta[t.todo[0] := Updated(meta[t.todo[0]], clock)]
    requires purgeable == !meta'[t.todo[0]].Shareable() && evict == (clock && Evicts(meta[t.todo[0]]))
    ensures QuietVisit(b, meta', Taking(t, evict), clock, purgeable)
    ensures PinnedAt(b.meta, t.todo[0], clock) == (clock && SeenPinned(meta[t.todo[0]]))
  {
    hide NoDup, Filtered, Updated, ClockUpdate, Evicts, SeenPinned;
    StillThere(b, meta, t, clock);
    var h, k := t.todo[0], |b.chain| - |t.todo|;
    NextOfChain(b.chain, t.todo, k);
    FilterStep(b.meta, meta, meta', clock, b.chain[..k], t.front, t.evicted, h);
    var u := if purgeable then Dropped(Taking(t, evict)) else Kept(Taking(t, evict));
    assert u.todo == t.todo[1..] && |b.chain| - |u.todo| == k + 1;
  }

  lemma FilterStep(meta0: seq<Meta>, meta: seq<Meta>, meta': seq<Meta>, clock: bool, done: seq<nat>,
                   kept: seq<nat>, evicted: seq<nat>, h: nat)
    requires Filtered(meta0, meta, clock, done, kept, evicted) && h !in done && h < |meta|
    requires meta' == meta[h := Updated(meta[h], clock)]
    ensures Filtered(meta0, meta', clock, done + [h], if meta'[h].Shareable() then kept + [h] else kept,
                     if clock && Evicts(meta[h]) then evicted + [h] else evicted)
  {
    hide Restrict, ClockUpdate, Evicts;
    RestrictStep(done, h, Keepers(meta0, clock));
    RestrictStep(done, h, Evictees(meta0, clock));
    FilteredMeta(meta0, meta, meta', clock, done, h);
  }

  lemma FilteredMeta(meta0: seq<Meta>, meta: seq<Meta>, meta': seq<Meta>, clock: bool, done: seq<nat>, h: nat)
    requires |meta| == |meta0| && h < |meta| && h !in done
    requires forall x :: 0 <= x < |meta0| ==> meta[x] == if x in done then Updated(meta0[x], clock) else meta0[x]
    requires meta' == meta[h := Updated(meta[h], clock)]
    ensures forall x :: 0 <= x < |meta0| ==> meta'[x] == if x in done + [h] then Updated(meta0[x], clock) else meta0[x]
  {
  }

  lemma StartGoing(b: Base, saved: Link, clock: bool)
    requires BeforeInv(b.m, b.chain, b.home, b.shift)
    requires b.m.head[b.home] == saved && Held(saved)
    requires |b.meta| == |b.m.next| && forall e :: e in b.m.inflight ==> b.meta[e].Shareable()
    requires forall x :: x in b.chain ==> x < |b.meta| && b.meta[x].state != Empty
    ensures var t := Trip(b.chain, [], [], b.chain, []);
            && Going(b, b.m, b.meta, t, saved, b.m.inflight) && At(saved, -1, t, b.m.inflight, b.m.inflight, b.shift)
            && Quiet(b, b.meta, t, clock)
    ensures b.chain != [] && saved.idx == b.chain[0]
  {
    hide Walk, Seg, Belongs, NoDup;
    StartWalk(b.m, b.meta, b.chain, saved, b.home, b.shift);
    assert [] + b.chain == b.chain;
  }

  lemma EndGoing(b: Base, m: Mem, meta: seq<Meta>, t: Trip, link: Link, mark: set<nat>, clock: bool)
    requires Going(b, m, meta, t, link, mark) && t.todo == []
    ensures Walk(m, meta, t, b.home, b.shift)
    ensures Suffix(b.chain, t.full) && Elems(t.full) + m.inflight == Elems(b.chain) + b.m.inflight
    ensures Disturbed(b.meta, meta) && forall x :: x in t.front ==> x < |b.meta| && b.meta[x].state != Construction
    ensures LooseFrame(b.m, m, {b.home}, Belongs(m.hash, b.home, b.shift))
    ensures Quiet(b, meta, t, clock) ==> Filtered(b.meta, meta, clock, b.chain, t.front, t.evicted)
  {
    hide Walk, Seg, Belongs, NoDup, Filtered;
    assert b.chain[..|b.chain|] == b.chain;
  }

  /** The visited entry joins the kept or the dropped ones, and its pointer leads on. */
  lemma GoOn(b: Base, m: Mem, meta: seq<Meta>, t: Trip, link: Link, mark: set<nat>, purgeable: bool)
    requires Going(b, m, meta, t, link, mark) && t.todo != [] && Verdict(b, meta, t, t.todo[0], purgeable)
    requires !purgeable ==> t.dropping == []
    ensures t.todo[0] < |m.next|
    ensures Going(b, m, meta, if purgeable then Dropped(t) else Kept(t), m.next[t.todo[0]], mark)
    ensures var l := m.next[t.todo[0]]; l == l.Unlock() && First(t.todo[1..]) == if l.end then -1 else l.idx
  {
    hide Walk, Seg, Belongs, NoDup, LooseFrame, Suffix, Disturbed;
    if purgeable {
      Drop(m, meta, t, b.home, b.shift);
    } else {
      Keep(m, meta, t, b.home, b.shift);
    }
  }

  lemma AtSince(saved: Link, prev: int, t: Trip, t': Trip, inflight: set<nat>, inflight': set<nat>, mark: set<nat>, shift: nat)
    requires At(saved, prev, t, inflight, mark, shift) && Since(t, t', inflight', mark) && inflight' <= inflight
    ensures At(saved, prev, t', inflight', mark, shift)
    ensures t'.dropping == [] && t'.todo == [] ==> t'.front != []
  {
  }

  lemma AtOn(saved: Link, prev: int, t: Trip, inflight: set<nat>, mark: set<nat>, shift: nat, purgeable: bool)
    requires t.todo != []
    ensures purgeable && At(saved, prev, t, inflight, mark, shift) ==> At(saved, prev, Dropped(t), inflight, mark, shift)
    ensures At(saved, t.todo[0], Kept(t), inflight, mark, shift)
  {
    assert Dropped(t).dropping + Dropped(t).todo == t.dropping + t.todo;
  }

  lemma QuietSame(b: Base, meta: seq<Meta>, t: Trip, t': Trip, clock: bool)
    ensures t'.front == t.front && t'.todo == t.todo && t'.evicted == t.evicted && QuietVisit(b, meta, t, clock, false) ==>
              QuietVisit(b, meta, t', clock, false)
  {
    hide Filtered;
  }
}
