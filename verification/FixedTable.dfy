/**
 The open-addressing clock table as one thread sees it. Inserts count a displacement on every slot they
 pass over; removals take the counts back. A lookup may stop at a slot that nobody passed over, and the
 counts being exact is what makes that right.
 */
module FixedTable {
  import opened Bits
  import opened HashedKeys
  import opened SlotMeta
  import opened ProbePath
  import opened ClockVisits

  class FixedClockTable {
    const bits: nat
    var meta: seq<Meta>
    var key: seq<Key>
    var displacements: seq<int>
    var clockPointer: nat

    /** The displacement counts are exact and no operation is under way. */
    ghost predicate Valid()
      reads this
    {
      Exact(bits, meta, key, displacements) && AtRest(meta)
    }

    constructor (bits: nat)
      ensures Valid() && this.bits == bits && clockPointer == 0 && forall x :: 0 <= x < |meta| ==> meta[x] == EmptyMeta
    {
      this.bits := bits;
      meta := seq(Pow2(bits), _ => EmptyMeta);
      key := seq(Pow2(bits), _ => Key(0, 0));
      displacements := seq(Pow2(bits), _ => 0);
      clockPointer := 0;
      new;
      EmptyExact(bits, meta, key, displacements);
    }

    /** Takes back the displacements that an entry with key `k` left before slot `h`. */
    method Rollback(k: Key, h: nat)
      requires |displacements| == Pow2(bits) && h < Pow2(bits)
      modifies this`displacements
      ensures displacements == Raised(bits, old(displacements), k, Pos(bits, k, h), -1)
    {
      hide Pos, Probed, Pow2, Raised;
      ghost var i := 0;
      var current := BottomBits(k.hash, bits);
      FirstProbe(bits, k);
      RaiseNone(bits, displacements, k, -1);
      while current != h
        invariant i <= Pos(bits, k, h) && current == Probed(bits, k, i)
        invariant displacements == Raised(bits, old(displacements), k, i, -1) && |displacements| == Pow2(bits)
        decreases Pos(bits, k, h) - i
      {
        RaiseNext(bits, old(displacements), k, i, -1);
        NextProbe(bits, k, i);
        displacements := displacements[current := displacements[current] - 1];
        current := BottomBits(current + Increment(k), bits);
        i := i + 1;
      }
      PosOfProbe(bits, k, i);
    }

    /**
     Looks along the probe path for a free slot, counting displacements on the way. If a slot on the way
     already holds the key, or there is no free slot, all of them are taken back.
     */
    method DoInsert(k: Key, countdown: nat, keepRef: bool) returns (r: int, ghost matched: int, ghost steps: nat)
      requires Valid() && countdown > 0
      modifies this`meta, this`key, this`displacements
      ensures Valid()
      ensures r >= 0 ==>
                r < |meta| && old(meta)[r].state == Empty && key == old(key)[r := k] &&
                meta == old(meta)[r := Meta(Visible, countdown, if keepRef then countdown - 1 else countdown, false)]
      ensures r < 0 ==> key == old(key) && displacements == old(displacements)
      ensures r < 0 && matched >= 0 ==>
                Matches(old(meta), key, matched, k) && meta == old(meta)[matched := Boosted(old(meta)[matched], countdown)]
      ensures r < 0 && matched < 0 ==> meta == old(meta) && forall x :: 0 <= x < |meta| ==> meta[x].state != Empty
      // It goes on as long as slots are taken by others, and not any longer.
      ensures steps <= |old(meta)| && forall j :: 0 <= j < steps ==> TakenByOthers(bits, old(meta), old(key), k, j)
      ensures if r >= 0 then r == Probed(bits, k, steps) else if matched >= 0 then matched == Probed(bits, k, steps) else steps == |meta|
    {
      hide Pos, Probed, Pow2, Raised, Exact, ClockUpdate;
      ExactSizes(bits, meta, key, displacements);
      ghost var i := 0;
      var first := BottomBits(k.hash, bits);
      var current := first;
      FirstProbe(bits, k);
      RaiseNone(bits, displacements, k, 1);
      while true
        invariant i < Pow2(bits) && current == Probed(bits, k, i) && first == Probed(bits, k, 0)
        invariant meta == old(meta) && key == old(key) && |meta| == |key| == |displacements| == Pow2(bits)
        invariant displacements == Raised(bits, old(displacements), k, i, 1)
        invariant forall j :: 0 <= j < i ==> TakenByOthers(bits, meta, key, k, j)
        decreases Pow2(bits) - i
      {
        var h := current;
        PosOfProbe(bits, k, i);
        if meta[h].state == Empty {
          FillExact(bits, old(meta), old(key), old(displacements), h,
                    Meta(Visible, countdown, if keepRef then countdown - 1 else countdown, false), k);
          meta := meta[h := Meta(Visible, countdown, if keepRef then countdown - 1 else countdown, false)];
          key := key[h := k];
          return h, -1, i;
        }
        RaiseUndo(bits, old(displacements), k, i);
        if meta[h].state == Visible && key[h] == k {
          meta := meta[h := Boosted(meta[h], countdown)];
          SameExact(bits, old(meta), meta, key, old(displacements));
          Rollback(k, h);
          return -1, h, i;
        }
        NextProbe(bits, k, i);
        WrapAround(bits, k, i);
        current := BottomBits(current + Increment(k), bits);
        if current == first {
          AllProbed(bits, k, meta, key);
          Rollback(k, h);
          return -1, -1, i + 1;
        }
        RaiseNext(bits, old(displacements), k, i, 1);
        displacements := displacements[h := displacements[h] + 1];
        i := i + 1;
      }
    }

    /** Adds to the acquire counter of any slot, whatever its state, and returns the metadata from before. */
    method AddRef(h: nat) returns (was: Meta)
      requires h < |meta|
      modifies this`meta
      ensures was == old(meta)[h] && meta == old(meta)[h := was.(acquire := was.acquire + 1)]
    {
      was := meta[h];
      meta := meta[h := was.(acquire := was.acquire + 1)];
    }

    /** Takes a reference if slot `h` holds a visible entry with key `k`; otherwise leaves its entry, if any, as it is. */
    method MatchSlot(h: nat, k: Key) returns (hit: bool)
      requires h < |meta| == |key| && AtRest(meta)
      modifies this`meta
      ensures hit == Matches(old(meta), key, h, k)
      ensures AtRest(meta) && |meta| == |old(meta)| && meta == old(meta)[h := meta[h]]
      ensures hit ==> meta[h] == old(meta)[h].(acquire := old(meta)[h].acquire + 1)
      ensures !hit ==> SameEntry(old(meta)[h], meta[h])
    {
      var m := AddRef(h);
      hit := m.state == Visible && key[h] == k;
      if !hit && m.Shareable() {
        meta := meta[h := Unref(meta[h])];
      }
    }

    /**
     A handle for a visible entry with key `k`, with a reference, if and only if there is one. No other
     entry changes; only counters of free slots, which mean nothing, do.
     */
    method Lookup(k: Key) returns (r: int, ghost steps: nat)
      requires Valid()
      modifies this`meta
      ensures Valid()
      ensures r >= 0 <==> exists x :: Matches(old(meta), key, x, k)
      ensures r >= 0 ==> Matches(old(meta), key, r, k) && meta[r] == old(meta)[r].(acquire := old(meta)[r].acquire + 1)
      ensures |meta| == |old(meta)| && forall x :: 0 <= x < |meta| && x != r ==> SameEntry(old(meta)[x], meta[x])
      // It goes on as long as entries were displaced, and not any longer.
      ensures steps <= |meta| && forall j :: 0 <= j < steps ==> Displaced(bits, displacements, k, j)
      ensures if r >= 0 then r == Probed(bits, k, steps) else steps == |meta| || !Displaced(bits, displacements, k, steps)
    {
      hide Pos, Probed, Pow2, Exact;
      ExactSizes(bits, meta, key, displacements);
      ghost var i := 0;
      var first := BottomBits(k.hash, bits);
      var current := first;
      FirstProbe(bits, k);
      while true
        invariant i < Pow2(bits) && current == Probed(bits, k, i) && first == Probed(bits, k, 0)
        invariant |meta| == |key| == |displacements| == Pow2(bits)
        invariant |meta| == |old(meta)| && forall x :: 0 <= x < |meta| ==> SameEntry(old(meta)[x], meta[x])
        invariant forall j :: 0 <= j < i ==> !Matches(old(meta), key, Probed(bits, k, j), k) && Displaced(bits, displacements, k, j)
        decreases Pow2(bits) - i
      {
        var h := current;
        var hit := MatchSlot(h, k);
        SameExact(bits, old(meta), meta, key, displacements);
        if hit {
          assert Matches(old(meta), key, h, k);
          return h, i;
        }
        if displacements[h] == 0 {
          NoneBeyond(bits, old(meta), key, displacements, k, i);
          return -1, i;
        }
        NextProbe(bits, k, i);
        WrapAround(bits, k, i);
        current := BottomBits(current + Increment(k), bits);
        i := i + 1;
        if current == first {
          NoneAtAll(bits, old(meta), key, k);
          return -1, i;
        }
      }
    }

    /** Frees the entry in slot `h`: takes back its displacements and empties the slot. */
    method FreeSlot(h: nat)
      requires Valid() && h < |meta| && meta[h].state != Empty
      modifies this`meta, this`displacements
      ensures Valid() && meta == old(meta)[h := EmptyMeta]
    {
      hide Pos, Probed, Pow2, Exact, Raised;
      ExactSizes(bits, meta, key, displacements);
      ClearExact(bits, meta, key, displacements, h, EmptyMeta);
      Rollback(key[h], h);
      meta := meta[h := EmptyMeta];
    }

    /** Gives back a reference; the last one of an invisible entry, or of any entry on request, frees it. */
    method Release(h: nat, useful: bool, eraseIfLast: bool) returns (gone: bool)
      requires Valid() && h < |meta| && meta[h].Shareable() && meta[h].acquire > meta[h].release
      modifies this`meta, this`displacements
      ensures Valid()
      ensures gone == ((eraseIfLast || old(meta)[h].state == Invisible) && old(meta)[h].Refs() == 1)
      ensures meta == old(meta)[h := if gone then EmptyMeta else GivenBack(old(meta)[h], useful)]
    {
      hide Exact;
      ExactSizes(bits, meta, key, displacements);
      var m := meta[h];
      meta := meta[h := GivenBack(m, useful)];
      SameExact(bits, old(meta), meta, key, displacements);
      gone := (eraseIfLast || m.state == Invisible) && meta[h].Refs() == 0;
      if gone {
        FreeSlot(h);
      }
    }

    /** Erases the entry in slot `h` if it has the key: hides it, and frees it if nobody else refers to it. */
    method EraseIfMatch(h: nat, k: Key)
      requires Valid() && h < |meta|
      modifies this`meta, this`displacements
      ensures Valid() && |meta| == |old(meta)| && meta == old(meta)[h := meta[h]]
      ensures EraseVisit(old(meta)[h], meta[h], Matches(old(meta), key, h, k))
    {
      hide Exact;
      ExactSizes(bits, meta, key, displacements);
      var hit := MatchSlot(h, k);
      if hit {
        meta := meta[h := meta[h].(state := Invisible)];
        SameExact(bits, old(meta), meta, key, displacements);
        if meta[h].Refs() > 1 {
          meta := meta[h := Unref(meta[h])];
          SameExact(bits, old(meta), meta, key, displacements);
        } else {
          FreeSlot(h);
        }
      } else {
        SameExact(bits, old(meta), meta, key, displacements);
      }
    }

    /** Erases every visible entry with key `k`: freed if nobody refers to it, otherwise hidden. */
    method Erase(k: Key)
      requires Valid()
      modifies this`meta, this`displacements
      ensures Valid()
      ensures !exists x :: Matches(meta, key, x, k)
      ensures |meta| == |old(meta)| && forall x :: 0 <= x < |meta| ==>
                EraseVisit(old(meta)[x], meta[x], Matches(old(meta), key, x, k))
    {
      hide Pos, Probed, Pow2, Exact, Matches, EraseVisit, ErasedTo;
      ExactSizes(bits, meta, key, displacements);
      ghost var i, start := 0, meta;
      var first := BottomBits(k.hash, bits);
      var current := first;
      FirstProbe(bits, k);
      NoneErased(bits, start, key, k);
      while true
        invariant i < Pow2(bits) && current == Probed(bits, k, i) && first == Probed(bits, k, 0)
        invariant Valid() && ErasedTo(bits, start, meta, key, k, i)
        decreases Pow2(bits) - i
      {
        var h := current;
        ghost var before := meta;
        ExactSizes(bits, meta, key, displacements);
        EraseIfMatch(h, k);
        ExactSizes(bits, meta, key, displacements);
        ErasedNext(bits, start, before, meta, key, k, i);
        i := i + 1;
        if displacements[h] == 0 {
          NoneBeyond(bits, meta, key, displacements, k, i - 1);
          AllErased(bits, start, meta, key, k, i);
          return;
        }
        NextProbe(bits, k, i - 1);
        WrapAround(bits, k, i - 1);
        current := BottomBits(current + Increment(k), bits);
        if current == first {
          NoneAtAll(bits, meta, key, k);
          AllErased(bits, start, meta, key, k, i);
          return;
        }
      }
    }

    /** Frees every entry without references. */
    method EraseUnRefEntries()
      requires Valid()
      modifies this`meta, this`displacements
      ensures Valid()
      ensures |meta| == |old(meta)| && forall x :: 0 <= x < |meta| ==>
                meta[x] == if old(meta)[x].Shareable() && old(meta)[x].Refs() == 0 then EmptyMeta else old(meta)[x]
    {
      hide Exact;
      ExactSizes(bits, meta, key, displacements);
      var i := 0;
      while i < |meta|
        invariant i <= |meta| == |old(meta)| && Valid()
        invariant forall x :: 0 <= x < |meta| ==>
                    meta[x] == if x < i && old(meta)[x].Shareable() && old(meta)[x].Refs() == 0 then EmptyMeta else old(meta)[x]
      {
        if meta[i].Shareable() && meta[i].Refs() == 0 {
          FreeSlot(i);
        }
        i := i + 1;
      }
    }

    // ---- Eviction ----

    /** One visit of the clock: a clock update, and the slot emptied if it took the entry. */
    method VisitSlot(h: nat, charge: nat, data: EvictionData) returns (d: EvictionData)
      requires Valid() && h < |meta|
      modifies this`meta, this`displacements
      ensures Valid() && meta == old(meta)[h := AfterEvict(old(meta)[h])]
      ensures d == Counted(data, old(meta)[h], charge)
    {
      hide Exact;
      ExactSizes(bits, meta, key, displacements);
      var m := meta[h];
      d := data;
      if SeenPinned(m) {
        d := data.(seenPinned := data.seenPinned + 1);
      } else if Evicts(m) {
        d := EvictionData(data.freedCharge + charge, data.freedCount + 1, data.seenPinned);
        FreeSlot(h);
      } else {
        meta := meta[h := ClockUpdate(m)];
        SameExact(bits, old(meta), meta, key, displacements);
      }
    }

    /** Four visits in a row, from clock position `pointer` on. */
    method VisitStep(pointer: nat, charge: seq<nat>, data: EvictionData, ghost start: nat, ghost was: seq<Meta>)
      returns (d: EvictionData)
      requires Valid() && AtRest(was) && start <= pointer && Run(bits, start, pointer - start, was, meta, charge, data)
      modifies this`meta, this`displacements
      ensures Valid() && Run(bits, start, pointer + STEP_SIZE - start, was, meta, charge, d)
    {
      hide Exact, Run, AfterEvict, Evicts;
      d := data;
      var i := 0;
      while i < STEP_SIZE
        invariant i <= STEP_SIZE && Valid() && Run(bits, start, pointer + i - start, was, meta, charge, d)
      {
        var h := BottomBits((pointer + i) % 0x1_0000_0000, bits);
        RunNext(bits, start, pointer + i - start, was, meta, charge, d);
        d := VisitSlot(h, charge[h], d);
        i := i + 1;
      }
    }

    /**
     Turns the clock until enough is freed, the effort is judged too high, or every slot was passed at
     least three times.
     */
    method Evict(requested: nat, charge: seq<nat>, effortCap: nat) returns (d: EvictionData, steps: nat)
      requires Valid() && bits <= 32 && |charge| == |meta| && requested > 0
      modifies this`meta, this`displacements, this`clockPointer
      ensures Valid()
      // The effort is bounded, and the clock moves by what was passed.
      ensures 0 < steps <= MostSteps(bits) && (steps < MostSteps(bits) ==> !GoesOn(d, requested, effortCap))
      ensures clockPointer == old(clockPointer) + STEP_SIZE * steps
      // Every entry got one clock update per visit, and charge and number of the entries gone and the visits to
      // pinned entries are as counted.
      ensures Run(bits, old(clockPointer), STEP_SIZE * steps, old(meta), meta, charge, d)
      // It stops with the first step that freed enough or made the effort too high.
      ensures |old(meta)| == |charge| == Pow2(bits)
      ensures forall k :: 0 < k < steps ==>
                GoesOn(AccountOf(old(meta), charge, TurnVisits(bits, old(clockPointer), STEP_SIZE * k)), requested, effortCap)
      // Falling short leaves nothing unpinned but recently used entries, at countdown 0.
      ensures GoesOn(d, requested, effortCap) ==> Drained(old(meta), meta)
      // Meeting fewer pinned entries than the cap it does not stop short; with nothing pinned it meets none.
      ensures d.seenPinned < effortCap ==> d.freedCharge >= requested || (steps == MostSteps(bits) && Drained(old(meta), meta))
      ensures NonePinned(old(meta)) ==> d.seenPinned == 0
    {
      hide Exact, Run, Drained, IsEvictionEffortExceeded, AccountOf, TurnVisits, GoesOn, NonePinned;
      ExactSizes(bits, meta, key, displacements);
      d, steps := EvictionData(0, 0, 0), 0;
      ghost var start, was := clockPointer, meta;
      var pointer := clockPointer;
      clockPointer := clockPointer + STEP_SIZE;
      var maxPointer := pointer + MAX_COUNTDOWN * Pow2(bits);
      RunStart(bits, start, meta, key, displacements, charge);
      while true
        invariant Valid() && Run(bits, start, STEP_SIZE * steps, was, meta, charge, d)
        invariant pointer == start + STEP_SIZE * steps && clockPointer == pointer + STEP_SIZE
        invariant pointer < maxPointer + STEP_SIZE && steps < MostSteps(bits)
        invariant forall k :: 0 < k <= steps ==>
                    GoesOn(AccountOf(was, charge, TurnVisits(bits, start, STEP_SIZE * k)), requested, effortCap)
        decreases maxPointer + STEP_SIZE - pointer
      {
        d := VisitStep(pointer, charge, d, start, was);
        steps := steps + 1;
        RunAccount(bits, start, STEP_SIZE * steps, was, meta, charge, d);
        EffortFacts(was, charge, TurnVisits(bits, start, STEP_SIZE * steps), requested, effortCap);
        if d.freedCharge >= requested {
          return;
        }
        if pointer >= maxPointer {
          RunDrains(bits, start, STEP_SIZE * steps, was, meta, charge, d);
          return;
        }
        if IsEvictionEffortExceeded(d, effortCap) {
          return;
        }
        pointer := clockPointer;
        clockPointer := clockPointer + STEP_SIZE;
      }
    }
  }

  /** The number of steps that pass every slot at least three times. */
  function MostSteps(bits: nat): nat { (3 * Pow2(bits) + 3) / 4 + 1 }

  /** How often the clock passes each slot on n positions from `start` on. */
  ghost function TurnVisits(bits: nat, start: nat, n: nat): (v: seq<nat>)
    ensures |v| == Pow2(bits)
  {
    seq(Pow2(bits), x requires 0 <= x < Pow2(bits) => VisitCount(start, n, Pow2(bits), x))
  }

  /** The clock went over n positions from `start` on, and `d` accounts for what it did. */
  ghost predicate Run(bits: nat, start: nat, n: nat, was: seq<Meta>, meta: seq<Meta>, charge: seq<nat>, d: EvictionData)
  {
    |was| == Pow2(bits) && bits <= 32 && Visited(was, meta, charge, d, TurnVisits(bits, start, n))
  }

  lemma RunAccount(bits: nat, start: nat, n: nat, was: seq<Meta>, meta: seq<Meta>, charge: seq<nat>, d: EvictionData)
    requires Run(bits, start, n, was, meta, charge, d)
    ensures |was| == |charge| == Pow2(bits) && d == AccountOf(was, charge, TurnVisits(bits, start, n))
  {
  }

  /**
   Unpinned entries are gone, but for visible ones that began with a countdown of 3 or more; those are
   gone or at countdown 0. Pinned entries are as they were.
   */
  ghost predicate Drained(was: seq<Meta>, meta: seq<Meta>)
  {
    && |meta| == |was|
    && forall x :: 0 <= x < |was| ==>
         if !was[x].Shareable() || was[x].acquire != was[x].release then meta[x] == was[x]
         else if was[x].state == Invisible || was[x].acquire <= 2 then meta[x] == EmptyMeta
         else meta[x] == EmptyMeta || (meta[x].state == Visible && meta[x].acquire == meta[x].release == 0)
  }

  lemma RunStart(bits: nat, start: nat, meta: seq<Meta>, key: seq<Key>, disp: seq<int>, charge: seq<nat>)
    requires Exact(bits, meta, key, disp) && |charge| == |meta| && bits <= 32
    ensures Run(bits, start, 0, meta, meta, charge, EvictionData(0, 0, 0))
  {
    NothingVisited(meta, charge, TurnVisits(bits, start, 0));
  }

  lemma RunNext(bits: nat, start: nat, n: nat, was: seq<Meta>, meta: seq<Meta>, charge: seq<nat>, d: EvictionData)
    requires Run(bits, start, n, was, meta, charge, d) && AtRest(was)
    ensures var h := BottomBits((start + n) % 0x1_0000_0000, bits);
            && h < |meta| == |charge|
            && Run(bits, start, n + 1, was, meta[h := AfterEvict(meta[h])], charge, Counted(d, meta[h], charge[h]))
  {
    hide AfterEvict, Evicts, AccountOf, AfterAll, Counted;
    var h, v := BottomBits((start + n) % 0x1_0000_0000, bits), TurnVisits(bits, start, n);
    LowBits(start + n, bits);
    RunAccount(bits, start, n, was, meta, charge, d);
    VisitedOneMore(was, meta, charge, d, v, h);
    assert TurnVisits(bits, start, n + 1) == v[h := v[h] + 1];
  }

  /** The low 32 bits of the clock position choose the same slot as the whole position. */
  lemma LowBits(p: nat, bits: nat)
    requires bits <= 32
    ensures BottomBits(p % 0x1_0000_0000, bits) == p % Pow2(bits)
  {
    hide Pow2;
    Pow2Add(bits, 32 - bits);
    Pow2At32();
    ModOfMod(p, Pow2(bits), Pow2(32 - bits), 0x1_0000_0000);
  }

  lemma ModOfMod(p: nat, n: nat, q: nat, m: nat)
    requires n > 0 && m == n * q > 0
    ensures (p % m) % n == p % n
  {
    var c, r := p / m, p % m;
    assert p == r + (c * q) * n by {
      assert p == m * c + r;
      SlotSearch.Swap(c, q, n);
      assert c * (q * n) == c * m;
    }
    SlotSearch.ModShift(r, n, c * q);
  }

  lemma RunDrains(bits: nat, start: nat, n: nat, was: seq<Meta>, meta: seq<Meta>, charge: seq<nat>, d: EvictionData)
    requires Run(bits, start, n, was, meta, charge, d) && n >= 3 * Pow2(bits) && AtRest(was)
    ensures Drained(was, meta)
  {
    hide AfterVisits, VisitCount, AccountOf;
    forall x | 0 <= x < |was|
      ensures if !was[x].Shareable() || was[x].acquire != was[x].release then meta[x] == was[x]
              else if was[x].state == Invisible || was[x].acquire <= 2 then meta[x] == EmptyMeta
              else meta[x] == EmptyMeta || (meta[x].state == Visible && meta[x].acquire == meta[x].release == 0)
    {
      ThreeTurns(start, n, Pow2(bits), x);
      ThreeVisits(was[x], VisitCount(start, n, Pow2(bits), x));
    }
  }

  // ---- In terms of the slots ----

  /** An entry is as it was; a slot without one still has none. */
  ghost predicate SameEntry(m: Meta, m': Meta)
  {
    if m.Shareable() then m' == m else m'.state == m.state
  }

  /** What an erase does to a slot that it passes. */
  ghost predicate EraseVisit(m: Meta, m': Meta, matches: bool)
  {
    if matches then m' == Erased(m) else SameEntry(m, m')
  }

  /** The first i slots on the path of k were passed by an erase that started from `start`. */
  ghost predicate ErasedTo(bits: nat, start: seq<Meta>, meta: seq<Meta>, key: seq<Key>, k: Key, i: nat)
  {
    && |start| == |meta| == |key| == Pow2(bits)
    && forall x :: 0 <= x < |meta| ==>
         EraseVisit(start[x], meta[x], Matches(start, key, x, k) && Pos(bits, k, x) < i)
  }

  lemma NoneErased(bits: nat, start: seq<Meta>, key: seq<Key>, k: Key)
    requires |start| == |key| == Pow2(bits)
    ensures ErasedTo(bits, start, start, key, k, 0)
  {
  }

  lemma ErasedNext(bits: nat, start: seq<Meta>, meta: seq<Meta>, meta': seq<Meta>, key: seq<Key>, k: Key, i: nat)
    requires ErasedTo(bits, start, meta, key, k, i) && i < Pow2(bits)
    requires var h := Probed(bits, k, i);
             && |meta'| == |meta| && meta' == meta[h := meta'[h]]
             && EraseVisit(meta[h], meta'[h], Matches(meta, key, h, k))
    ensures ErasedTo(bits, start, meta', key, k, i + 1)
    ensures forall j :: 0 <= j <= i ==> !Matches(meta', key, Probed(bits, k, j), k)
  {
    hide Pos, Probed, Pow2;
    var h := Probed(bits, k, i);
    PosOfProbe(bits, k, i);
    forall x | 0 <= x < |meta'|
      ensures EraseVisit(start[x], meta'[x], Matches(start, key, x, k) && Pos(bits, k, x) < i + 1)
    {
      assert EraseVisit(start[x], meta[x], Matches(start, key, x, k) && Pos(bits, k, x) < i);
      if x != h {
        assert Probed(bits, k, Pos(bits, k, x)) == x;
      }
    }
    forall j | 0 <= j <= i
      ensures !Matches(meta', key, Probed(bits, k, j), k)
    {
      PosOfProbe(bits, k, j);
      var x := Probed(bits, k, j);
      assert EraseVisit(start[x], meta'[x], Matches(start, key, x, k) && Pos(bits, k, x) < i + 1);
    }
  }

  lemma AllErased(bits: nat, start: seq<Meta>, meta: seq<Meta>, key: seq<Key>, k: Key, i: nat)
    requires ErasedTo(bits, start, meta, key, k, i) && !exists x :: Matches(meta, key, x, k)
    ensures |meta| == |start| && forall x :: 0 <= x < |meta| ==> EraseVisit(start[x], meta[x], Matches(start, key, x, k))
  {
    hide Pos;
    forall x | 0 <= x < |meta|
      ensures EraseVisit(start[x], meta[x], Matches(start, key, x, k))
    {
      assert !Matches(meta, key, x, k);
    }
  }

  /** Stopping at a slot that nobody passed over misses nothing. */
  lemma NoneBeyond(bits: nat, meta: seq<Meta>, key: seq<Key>, disp: seq<int>, k: Key, i: nat)
    requires Exact(bits, meta, key, disp) && i < Pow2(bits) && disp[Probed(bits, k, i)] == 0
    requires forall j :: 0 <= j <= i ==> !Matches(meta, key, Probed(bits, k, j), k)
    ensures !exists x :: Matches(meta, key, x, k)
  {
    hide Probed;
    forall x: int
      ensures !Matches(meta, key, x, k)
    {
      if 0 <= x < |meta| && meta[x].state == Visible && key[x] == k {
        if i < Pos(bits, k, x) {
          PathIsCounted(bits, meta, key, disp, k, x, i);
        }
        assert Probed(bits, k, Pos(bits, k, x)) == x;
      }
    }
  }

  lemma NoneAtAll(bits: nat, meta: seq<Meta>, key: seq<Key>, k: Key)
    requires |meta| == |key| == Pow2(bits)
    requires forall j :: 0 <= j < Pow2(bits) ==> !Matches(meta, key, Probed(bits, k, j), k)
    ensures !exists x :: Matches(meta, key, x, k)
  {
    hide Probed;
    forall x: int
      ensures !Matches(meta, key, x, k)
    {
      if 0 <= x < |meta| {
        assert Probed(bits, k, Pos(bits, k, x)) == x;
      }
    }
  }

  ghost predicate Matches(meta: seq<Meta>, key: seq<Key>, x: int, k: Key)
  {
    0 <= x < |meta| == |key| && meta[x].state == Visible && key[x] == k
  }

  /** Probe number j meets a slot that is not free and has no visible entry with the key. */
  ghost predicate TakenByOthers(bits: nat, meta: seq<Meta>, key: seq<Key>, k: Key, j: nat)
  {
    var x := Probed(bits, k, j);
    x < |meta| && meta[x].state != Empty && !Matches(meta, key, x, k)
  }

  /** Probe number j meets a slot that some entry passed on its way. */
  ghost predicate Displaced(bits: nat, disp: seq<int>, k: Key, j: nat)
  {
    var x := Probed(bits, k, j);
    x < |disp| && disp[x] != 0
  }

  lemma EmptyExact(bits: nat, meta: seq<Meta>, key: seq<Key>, disp: seq<int>)
    requires |meta| == |key| == |disp| == Pow2(bits)
    requires forall x :: 0 <= x < |meta| ==> meta[x].state == Empty && disp[x] == 0
    ensures Exact(bits, meta, key, disp)
  {
    forall x | 0 <= x < |disp|
      ensures disp[x] == CountTo(bits, meta, key, x, Pow2(bits))
    {
      CountNone(bits, meta, key, x, Pow2(bits));
    }
  }

  lemma {:induction false} CountNone(bits: nat, meta: seq<Meta>, key: seq<Key>, x: nat, n: nat)
    requires |meta| == |key| == Pow2(bits) && x < Pow2(bits) && n <= Pow2(bits)
    requires forall x :: 0 <= x < |meta| ==> meta[x].state == Empty
    ensures CountTo(bits, meta, key, x, n) == 0
  {
    if n > 0 {
      CountNone(bits, meta, key, x, n - 1);
    }
  }

  lemma ExactSizes(bits: nat, meta: seq<Meta>, key: seq<Key>, disp: seq<int>)
    requires Exact(bits, meta, key, disp)
    ensures |meta| == |key| == |disp| == Pow2(bits)
  {
  }

  lemma FirstProbe(bits: nat, k: Key)
    ensures BottomBits(k.hash, bits) == Probed(bits, k, 0)
  {
  }

  /** The search is back at its first slot exactly after a full round. */
  lemma WrapAround(bits: nat, k: Key, i: nat)
    requires i < Pow2(bits)
    ensures Probed(bits, k, i + 1) == Probed(bits, k, 0) <==> i + 1 == Pow2(bits)
  {
    hide Increment, Probed;
    if i + 1 < Pow2(bits) {
      ProbesDiffer(bits, k, 0, i + 1);
    } else {
      FullRound(bits, k);
    }
  }

  lemma FullRound(bits: nat, k: Key)
    ensures Probed(bits, k, Pow2(bits)) == Probed(bits, k, 0)
  {
    var n, inc := Pow2(bits), Increment(k);
    SlotSearch.ModShift(k.hash, n, inc);
  }

  lemma AllProbed(bits: nat, k: Key, meta: seq<Meta>, key: seq<Key>)
    requires |meta| == Pow2(bits)
    requires forall j :: 0 <= j < Pow2(bits) ==> TakenByOthers(bits, meta, key, k, j)
    ensures forall x :: 0 <= x < |meta| ==> meta[x].state != Empty
  {
    hide Probed;
    forall x | 0 <= x < |meta|
      ensures meta[x].state != Empty
    {
      assert Probed(bits, k, Pos(bits, k, x)) == x;
      assert TakenByOthers(bits, meta, key, k, Pos(bits, k, x));
    }
  }
}
