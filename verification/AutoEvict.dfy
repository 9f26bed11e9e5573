/**
 The eviction clock of the growable table. A step covers four homes in each stretch of the table that the
 clock's mask divides it into. An eviction goes by the length that the table had when the insert began, which
 may have grown the table since. The mask is brought up to date with it only at the beginning of a turn, so for
 a while after the table grew it is that of a smaller table.
 */
module AutoEvict {
  import opened Bits
  import opened LinearHashing
  import opened HashedKeys
  import opened ChainLinks
  import opened ChainSides
  import opened ChainPurge
  import opened SlotMeta
  import opened SlotSearch
  import opened ClockVisits
  import opened AutoTable

  /** The bits of the mask in a step at clock position p, for a table with a minimum shift of l. */
  function Refreshed(p: nat, b: nat, l: nat): nat { if p % Pow2(b) == 0 then l else b }

  /** Whether a step at clock position p covers a home. */
  predicate Due(p: nat, b: nat, home: nat) { p % Pow2(b) == (home - home % STEP_SIZE) % Pow2(b) }

  /** The bits of the mask in the k-th step from position p on. */
  function MaskIn(p: nat, b: nat, l: nat, k: nat): nat
  {
    Refreshed(p + STEP_SIZE * k, if k == 0 then b else MaskIn(p, b, l, k - 1), l)
  }

  function MaskBefore(p: nat, b: nat, l: nat, k: nat): nat { if k == 0 then b else MaskIn(p, b, l, k - 1) }

  /** How many of n steps cover a home. */
  function Times(p: nat, b: nat, l: nat, n: nat, home: nat): nat
  {
    if n == 0 then 0
    else Times(p, b, l, n - 1, home) + if Due(p + STEP_SIZE * (n - 1), MaskIn(p, b, l, n - 1), home) then 1 else 0
  }

  // ---- Counting visits ----

  /** In units of steps: the clock goes around Pow2(b - 2) groups of four homes. */
  lemma Units(p: nat, b: nat, home: nat)
    requires p % STEP_SIZE == 0 && b >= 2
    ensures Pow2(b) == STEP_SIZE * Pow2(b - 2)
    ensures p % Pow2(b) == STEP_SIZE * (p / STEP_SIZE % Pow2(b - 2))
    ensures Due(p, b, home) <==> p / STEP_SIZE % Pow2(b - 2) == home / STEP_SIZE % Pow2(b - 2)
  {
    assert Pow2(b) == 2 * Pow2(b - 1) && Pow2(b - 1) == 2 * Pow2(b - 2);
    TimesFour(p / STEP_SIZE, Pow2(b - 2));
    TimesFour(home / STEP_SIZE, Pow2(b - 2));
  }

  lemma UnitsAt(p: nat, k: nat, b: nat, home: nat)
    requires p % STEP_SIZE == 0 && b >= 2
    ensures Due(p + STEP_SIZE * k, b, home) <==> (p / STEP_SIZE + k) % Pow2(b - 2) == home / STEP_SIZE % Pow2(b - 2)
    ensures (p + STEP_SIZE * k) % Pow2(b) == STEP_SIZE * ((p / STEP_SIZE + k) % Pow2(b - 2))
  {
    hide Due, Pow2;
    Units(p + STEP_SIZE * k, b, home);
    assert (p + STEP_SIZE * k) / STEP_SIZE == p / STEP_SIZE + k;
  }

  lemma TimesFour(u: nat, q: nat)
    requires q > 0
    ensures (STEP_SIZE * u) % (STEP_SIZE * q) == STEP_SIZE * (u % q)
  {
    var c, r := u / q, u % q;
    assert u == q * c + r;
    assert STEP_SIZE * u == (STEP_SIZE * q) * c + STEP_SIZE * r;
    ModIsUnique(STEP_SIZE * u, STEP_SIZE * q, c, STEP_SIZE * r);
  }

  lemma MaskStep(p: nat, b: nat, l: nat, k: nat)
    ensures MaskBefore(p, b, l, 0) == b
    ensures MaskBefore(p, b, l, k + 1) == MaskIn(p, b, l, k) == Refreshed(p + STEP_SIZE * k, MaskBefore(p, b, l, k), l)
  {
    hide Refreshed;
  }

  /** Once the mask is up to date it stays so. */
  lemma {:induction false} CurrentStays(p: nat, b: nat, l: nat, w: nat, k: nat)
    requires w <= k && MaskIn(p, b, l, w) == l
    ensures MaskIn(p, b, l, k) == l
  {
    if w < k {
      CurrentStays(p, b, l, w, k - 1);
    }
  }

  /** From step w on, with the mask up to date, visits are those of an ordinary clock. */
  lemma {:induction false} TimesIsCount(p: nat, b: nat, l: nat, w: nat, n: nat, home: nat)
    requires p % STEP_SIZE == 0 && l >= 2 && w <= n && MaskIn(p, b, l, w) == l
    ensures Times(p, b, l, n, home) == Times(p, b, l, w, home) +
            VisitCount(p / STEP_SIZE + w, n - w, Pow2(l - 2), home / STEP_SIZE % Pow2(l - 2))
  {
    hide Due, Refreshed, MaskIn, Pow2;
    if w < n {
      TimesIsCount(p, b, l, w, n - 1, home);
      CurrentStays(p, b, l, w, n - 1);
      UnitsAt(p, n - 1, l, home);
      assert p / STEP_SIZE + w + (n - w) - 1 == p / STEP_SIZE + (n - 1);
    }
  }

  /** In one run with an up-to-date mask every home is visited four times. */
  lemma CurrentVisits(p: nat, b: nat, l: nat, home: nat)
    requires p % STEP_SIZE == 0 && l >= 2 && Refreshed(p, b, l) == l
    ensures Times(p, b, l, Pow2(l), home) == 4
  {
    hide VisitCount;
    TimesIsCount(p, b, l, 0, Pow2(l), home);
    Units(p, l, home);
    FourTurns(p / STEP_SIZE, Pow2(l - 2), home / STEP_SIZE % Pow2(l - 2));
  }

  /** Before the end of a turn no step is at its beginning. */
  lemma BeforeTurn(p: nat, b: nat, k: nat)
    requires p % STEP_SIZE == 0 && b >= 2 && p % Pow2(b) != 0
    requires k < Pow2(b - 2) - p / STEP_SIZE % Pow2(b - 2)
    ensures (p + STEP_SIZE * k) % Pow2(b) != 0 && !Due(p + STEP_SIZE * k, b, 0)
  {
    hide Due, Pow2;
    var u, q := p / STEP_SIZE, Pow2(b - 2);
    Units(p, b, 0);
    UnitsAt(p, k, b, 0);
    assert (u + k) % q == u % q + k by {
      ModIsUnique(u + k, q, u / q, u % q + k);
    }
    assert 0 / STEP_SIZE % q == 0 by {
      ModIsUnique(0, q, 0, 0);
    }
  }

  /** With an old mask, nothing of the first group is visited until the mask is brought up to date. */
  lemma {:induction false} StaleStart(p: nat, b: nat, l: nat, n: nat)
    requires p % STEP_SIZE == 0 && b >= 2 && p % Pow2(b) != 0
    requires n <= Pow2(b - 2) - p / STEP_SIZE % Pow2(b - 2)
    ensures Times(p, b, l, n, 0) == 0
    ensures n > 0 ==> MaskIn(p, b, l, n - 1) == b
  {
    hide Due, Pow2;
    if n > 0 {
      StaleStart(p, b, l, n - 1);
      BeforeTurn(p, b, n - 1);
    }
  }

  /** When the turn is over the mask is brought up to date. */
  lemma TurnOver(p: nat, b: nat, l: nat) returns (w: nat)
    requires p % STEP_SIZE == 0 && b >= 2 && p % Pow2(b) != 0
    ensures w <= Pow2(b - 2) && MaskIn(p, b, l, w) == l && Times(p, b, l, w, 0) == 0
  {
    hide Times, Due, Pow2, MaskIn;
    w := EndOfTurn(p, b);
    StaleStart(p, b, l, w);
    MaskStep(p, b, l, w);
    MaskStep(p, b, l, w - 1);
  }

  lemma EndOfTurn(p: nat, b: nat) returns (w: nat)
    requires p % STEP_SIZE == 0 && b >= 2
    ensures 0 < w <= Pow2(b - 2) && w == Pow2(b - 2) - p / STEP_SIZE % Pow2(b - 2) && (p + STEP_SIZE * w) % Pow2(b) == 0
  {
    hide Due, Pow2;
    var u, q := p / STEP_SIZE, Pow2(b - 2);
    w := q - u % q;
    UnitsAt(p, w, b, 0);
    assert (u + w) % q == 0 by {
      ModIsUnique(u + w, q, u / q + 1, 0);
    }
  }

  /** With the mask of a smaller table, a run visits the first group at most twice. */
  lemma StaleVisits(p: nat, b: nat, l: nat)
    requires p % STEP_SIZE == 0 && 2 <= b < l && p % Pow2(b) != 0
    ensures Times(p, b, l, Pow2(b), 0) <= 2
  {
    hide VisitCount, Times, Due, Pow2, MaskIn;
    var w := TurnOver(p, b, l);
    Units(p, b, 0);
    Pow2Strict(b - 2, l - 2);
    TimesIsCount(p, b, l, w, Pow2(b), 0);
    TwoTurns(p / STEP_SIZE + w, Pow2(b) - w, Pow2(l - 2), 0 / STEP_SIZE % Pow2(l - 2));
  }

  /** With the mask of a larger table, a run is long enough to visit every group four times after the turn. */
  lemma LargerVisits(p: nat, b: nat, l: nat, home: nat)
    requires p % STEP_SIZE == 0 && 2 <= l < b && p % Pow2(b) != 0
    ensures Times(p, b, l, Pow2(b), home) >= 4
  {
    hide VisitCount, Times, Due, Pow2, MaskIn;
    var w := TurnOver(p, b, l);
    Units(p, b, home);
    Pow2Strict(l - 2, b - 2);
    TimesIsCount(p, b, l, w, Pow2(b), home);
    var start, q, c := p / STEP_SIZE + w, Pow2(l - 2), home / STEP_SIZE % Pow2(l - 2);
    VisitCountSplit(start, 4 * q, Pow2(b) - w - 4 * q, q, c);
    FourTurns(start, q, c);
  }

  /** Whether a run starts with the mask up to date, or with one that does no harm. */
  predicate FreshMask(p: nat, b: nat, l: nat) { b >= l || p % Pow2(b) == 0 }

  lemma FreshVisits(p: nat, b: nat, l: nat, home: nat)
    requires p % STEP_SIZE == 0 && b >= 2 && l >= 2 && FreshMask(p, b, l)
    ensures Times(p, b, l, Pow2(Refreshed(p, b, l)), home) >= 4
    ensures b == l || p % Pow2(b) == 0 ==> Times(p, b, l, Pow2(Refreshed(p, b, l)), home) == 4
  {
    if b == l || p % Pow2(b) == 0 {
      CurrentVisits(p, b, l, home);
    } else {
      LargerVisits(p, b, l, home);
    }
  }

  lemma FirstHome(p: nat, b: nat, l: nat)
    requires p % STEP_SIZE == 0 && b >= 2 && l >= 2 && !FreshMask(p, b, l)
    ensures Times(p, b, l, Pow2(Refreshed(p, b, l)), 0) <= 2
  {
    StaleVisits(p, b, l);
  }

  /** How often a run of n steps visits a home of the table: one that was opened since is not visited at all. */
  function Passes(p: nat, b: nat, saved: nat, n: nat, home: nat): nat
    requires saved > 0
  {
    if home < saved then Times(p, b, FloorLog2(saved), n, home) else 0
  }

  ghost predicate EveryHome(p: nat, b: nat, saved: nat, used: nat, n: nat)
    requires saved > 0
  {
    forall home: nat :: home < used ==> Passes(p, b, saved, n, home) >= 4
  }

  /**
   So a run to the limit visits every home of the table at least four times if and only if the table did not grow
   since the insert began, and the mask is not that of a smaller table or is brought up to date at once.
   */
  lemma EveryHomeIff(p: nat, b: nat, saved: nat, used: nat)
    requires p % STEP_SIZE == 0 && b >= 2 && 4 <= saved <= used
    ensures EveryHome(p, b, saved, used, Pow2(Refreshed(p, b, FloorLog2(saved)))) <==>
            saved == used && FreshMask(p, b, FloorLog2(saved))
  {
    hide Times, FloorLog2, Refreshed, FreshMask;
    var l := FloorLog2(saved);
    var n := Pow2(Refreshed(p, b, l));
    AtLeastFour(saved);
    if saved < used {
      assert Passes(p, b, saved, n, saved) == 0;
      assert !EveryHome(p, b, saved, used, n);
    } else if FreshMask(p, b, l) {
      forall home: nat | home < used
        ensures Passes(p, b, saved, n, home) >= 4
      {
        FreshVisits(p, b, l, home);
      }
    } else {
      FirstHome(p, b, l);
      assert Passes(p, b, saved, n, 0) < 4;
    }
  }

  /** With the mask of a smaller table, unpinned entries of the first home stay if they were used enough. */
  lemma StaleKeeps(p: nat, b: nat, l: nat, m: Meta)
    requires p % STEP_SIZE == 0 && 2 <= b < l && p % Pow2(b) != 0
    requires m.state == Visible && m.acquire == m.release >= 2
    ensures AfterVisits(m, Times(p, b, l, Pow2(b), 0)).state == Visible
  {
    hide Times;
    StaleVisits(p, b, l);
    assert AfterVisits(m, 0) == m && AfterVisits(m, 1) == AfterEvict(m);
    assert AfterVisits(m, 2) == AfterEvict(AfterEvict(m));
  }

  // ---- Visits to slots ----

  ghost function HomeOf(key: seq<Key>, used: nat, x: nat): nat
    requires x < |key| && used >= 2
  {
    HomeIndex(used, key[x].hash)
  }

  /** One more visit to the slots with a given home. */
  ghost function OneMore(key: seq<Key>, used: nat, v: seq<nat>, home: nat): (r: seq<nat>)
    requires |v| == |key| && used >= 2
    ensures |r| == |key|
  {
    seq(|v|, x requires 0 <= x < |v| => v[x] + if HomeOf(key, used, x) == home then 1 else 0)
  }

  /** One more visit to the slots whose home is due and below `limit`. */
  ghost function Stepped(key: seq<Key>, used: nat, v: seq<nat>, p: nat, b: nat, limit: nat): (r: seq<nat>)
    requires |v| == |key| && used >= 2
    ensures |r| == |key|
  {
    seq(|v|, x requires 0 <= x < |v| =>
      v[x] + if Due(p, b, HomeOf(key, used, x)) && HomeOf(key, used, x) < limit then 1 else 0)
  }

  /** The visits to each slot in n steps from position p on. */
  ghost function VisitsOf(key: seq<Key>, used: nat, p: nat, b: nat, saved: nat, n: nat): (r: seq<nat>)
    requires used >= 2 && saved > 0
    ensures |r| == |key|
  {
    seq(|key|, x requires 0 <= x < |key| => Passes(p, b, saved, n, HomeOf(key, used, x)))
  }

  class EvictionClock {
    const table: GrowableTable
    var clockPointer: nat
    // The mask has this many bits.
    var maskBits: nat

    ghost predicate Valid()
      reads this, table, table.states, table.states.chains
    {
      table.Valid() && clockPointer % STEP_SIZE == 0 && table.used >= 4 && 2 <= maskBits <= FloorLog2(table.used)
    }

    constructor (table: GrowableTable)
      requires table.Valid()
      ensures Valid() && this.table == table && clockPointer == 0 && maskBits == FloorLog2(table.used)
    {
      this.table := table;
      clockPointer := 0;
      maskBits := FloorLog2(table.used);
      new;
      AtLeastFour(table.used);
    }

    /** Opens one more head; the clock stays where it is, and its mask as it is. */
    method Grow() returns (ok: bool)
      requires Valid()
      modifies table`used, table`paths, table.states.chains
      ensures Valid() && table.states.meta == old(table.states.meta) && table.key == old(table.key)
      ensures ok == (old(table.used) < |table.states.meta|) && table.used == old(table.used) + if ok then 1 else 0
    {
      hide GrowableTable.Valid, FloorLog2;
      ok := table.Grow();
      LogMonotone(old(table.used), table.used);
    }

    /** Evicts from one home, and keeps the account. */
    method VisitHome(home: nat, charge: seq<nat>, d: EvictionData, ghost was: seq<Meta>, ghost v: seq<nat>)
      returns (d': EvictionData)
      requires table.Valid() && 2 <= table.used && home < table.used && AtRest(was)
      requires Visited(was, table.states.meta, charge, d, v) && |v| == |table.key|
      modifies table`paths, table.states, table.states.chains
      ensures table.Valid() && Visited(was, table.states.meta, charge, d', OneMore(table.key, table.used, v, home))
    {
      hide TabOk, Visited, AfterEvict, Evicts, NoDup, HomeIndex, Restrict, OneMore;
      ghost var t := table.View();
      TabSizes(t);
      var evicted, pinned := table.EvictHome(home);
      VisitedMore(t, table.states.meta, home, evicted, pinned, charge, d, was, v);
      var sum := AddCharges(evicted, charge);
      d' := EvictionData(d.freedCharge + sum, d.freedCount + |evicted|, d.seenPinned + pinned);
    }

    /** One step of the clock, with the mask as it is, over the homes of the length `saved`. */
    method Step(p: nat, saved: nat, charge: seq<nat>, d: EvictionData, ghost was: seq<Meta>, ghost v: seq<nat>)
      returns (d': EvictionData)
      requires Valid() && p % STEP_SIZE == 0 && 4 <= saved <= table.used && AtRest(was)
      requires Visited(was, table.states.meta, charge, d, v) && |v| == |table.key|
      modifies table`paths, table.states, table.states.chains
      ensures Valid()
      ensures Visited(was, table.states.meta, charge, d', Stepped(table.key, table.used, v, p, maskBits, saved))
    {
      hide TabOk, AtRest, Visited, Stepped, OneMore, Due, HomeIndex, Pow2, FloorLog2, SameRest;
      TabSizes(table.View());
      d' := d;
      var major := Pow2(maskBits);
      var base := p % major;
      NothingStepped(table.key, table.used, v, p, maskBits, saved);
      while base < saved
        invariant Valid() && SameRest(base, p, maskBits)
        invariant Visited(was, table.states.meta, charge, d', Stepped(table.key, table.used, v, p, maskBits, Min(base, saved)))
      {
        d' := VisitGroup(p, base, saved, charge, d', was, v);
        SteppedGap(table.key, table.used, v, p, maskBits, base, saved);
        base := base + major;
      }
    }

    /** Visits up to four homes from `base` on. */
    method VisitGroup(p: nat, base: nat, saved: nat, charge: seq<nat>, d: EvictionData, ghost was: seq<Meta>, ghost v: seq<nat>)
      returns (d': EvictionData)
      requires Valid() && p % STEP_SIZE == 0 && base < saved <= table.used && AtRest(was) && |v| == |table.key|
      requires SameRest(base, p, maskBits)
      requires Visited(was, table.states.meta, charge, d, Stepped(table.key, table.used, v, p, maskBits, base))
      modifies table`paths, table.states, table.states.chains
      ensures Valid()
      ensures Visited(was, table.states.meta, charge, d',
                      Stepped(table.key, table.used, v, p, maskBits, Min(base + STEP_SIZE, saved)))
    {
      hide GrowableTable.Valid, AtRest, Visited, Stepped, OneMore, Due, HomeIndex, Pow2, FloorLog2;
      d' := d;
      var i := 0;
      while i < STEP_SIZE && base + i < saved
        invariant i <= STEP_SIZE && base + i <= saved && Valid()
        invariant Visited(was, table.states.meta, charge, d', Stepped(table.key, table.used, v, p, maskBits, base + i))
      {
        GroupDue(p, maskBits, base, i);
        SteppedOne(table.key, table.used, v, p, maskBits, base + i);
        d' := VisitHome(base + i, charge, d', was, Stepped(table.key, table.used, v, p, maskBits, base + i));
        i := i + 1;
      }
    }

    /** Brings the mask up to date at the beginning of a turn. */
    method Refresh(p: nat, saved: nat)
      requires 4 <= saved <= table.used && 2 <= maskBits <= FloorLog2(table.used)
      modifies this`maskBits
      ensures maskBits == Refreshed(p, old(maskBits), FloorLog2(saved)) && 2 <= maskBits <= FloorLog2(table.used)
    {
      AtLeastFour(saved);
      LogMonotone(saved, table.used);
      if p % Pow2(maskBits) == 0 {
        maskBits := FloorLog2(saved);
      }
    }

    /** Moves the clock by one step, with the mask brought up to date at the beginning of a turn. */
    method Advance(saved: nat, charge: seq<nat>, d: EvictionData, ghost p0: nat, ghost b0: nat, ghost n: nat, ghost was: seq<Meta>)
      returns (d': EvictionData)
      requires Valid() && 4 <= saved <= table.used && AtRest(was)
      requires clockPointer == p0 + STEP_SIZE * n && maskBits == MaskBefore(p0, b0, FloorLog2(saved), n)
      requires Visited(was, table.states.meta, charge, d, VisitsOf(table.key, table.used, p0, b0, saved, n))
      modifies this`clockPointer, this`maskBits, table`paths, table.states, table.states.chains
      ensures Valid() && clockPointer == old(clockPointer) + STEP_SIZE
      ensures maskBits == MaskBefore(p0, b0, FloorLog2(saved), n + 1)
      ensures n == 0 ==> maskBits == Refreshed(p0, b0, FloorLog2(saved))
      ensures Visited(was, table.states.meta, charge, d', VisitsOf(table.key, table.used, p0, b0, saved, n + 1))
    {
      hide TabOk, AtRest, Visited, Stepped, VisitsOf, HomeIndex, Refreshed, MaskIn, MaskBefore, FloorLog2;
      TabSizes(table.View());
      var pointer := clockPointer;
      clockPointer := clockPointer + STEP_SIZE;
      Refresh(pointer, saved);
      MaskStep(p0, b0, FloorLog2(saved), n);
      OneMoreStep(table.key, table.used, p0, b0, saved, n);
      d' := Step(pointer, saved, charge, d, was, VisitsOf(table.key, table.used, p0, b0, saved, n));
    }

    /**
     An insert as a whole: it remembers the length, opens more heads if there are too few for the new occupancy, evicts
     if it has to and then adds the entry, all by the length that it remembered. `wanted` is the charge that is to be
     freed; with a strict limit the insert is refused if it is not, and so it is if the table cannot grow any more and
     nothing was evicted.
     */
    method InsertEntry(k: Key, countdown: nat, takeRef: bool, occupancy: nat, wanted: nat, strict: bool, charge: seq<nat>, effortCap: nat)
      returns (r: Entered, ghost steps: nat, ghost noted: bool)
      requires Valid() && 0 < countdown && k.hash < 0x1_0000_0000_0000_0000 && |charge| == |table.states.meta|
      modifies this`clockPointer, this`maskBits, table`key, table`used, table`paths, table.states, table.states.chains
      ensures Valid() && |table.states.meta| == |table.key| == |charge| == |old(table.key)| == |old(table.states.meta)|
      // As many heads as needed are opened, or all there are.
      ensures GrownTo(old(table.used), table.used, |charge|, occupancy) && 4 <= old(table.used)
      // Each entry got the clock updates of an eviction by the remembered length, if anything was to be evicted.
      ensures EvictionRun(old(table.states.meta), charge, old(table.key), table.used, old(clockPointer), old(maskBits), old(table.used),
                          steps, Requested(wanted, occupancy, table.used), effortCap)
      ensures clockPointer == old(clockPointer) + STEP_SIZE * steps
      ensures var visits := VisitsOf(old(table.key), table.used, old(clockPointer), old(maskBits), old(table.used), steps);
              var d := AccountOf(old(table.states.meta), charge, visits);
              var mid := AfterAll(old(table.states.meta), visits);
              var likely := if table.used > old(table.used) then table.used - 1 else 0;
              // It is refused exactly if a place was needed and nothing was evicted, or too little under a strict limit.
              && (r.Refused? <==> (occupancy > OccupancyLimit(table.used) && d.freedCount == 0) || (strict && d.freedCharge < wanted))
              && (r.Refused? ==> table.states.meta == mid && table.key == old(table.key))
              // Otherwise the entry went into what is left, as far as there is a place.
              && (r.Tried? ==> EntryMade(mid, old(table.key), table.used, old(table.used), k, countdown, takeRef, likely, r.f, noted,
                                         table.states.meta, table.key))
    {
      hide TabOk, AtRest, HomeIndex, FloorLog2, Matches, Inserted, Noted, VisitsOf, AfterAll, AccountOf,
           EvictionRun, OccupancyLimit, EntryMade;
      var saved := table.used;
      TabSizes(table.View());
      var grown, likely := GrowIfNeeded(occupancy);
      TabSizes(table.View());
      var requested := if !grown && wanted == 0 then 1 else wanted;
      var d;
      d, steps := MakeRoom(requested, saved, charge, effortCap);
      noted := false;
      if (!grown && d.freedCount == 0) || (strict && d.freedCharge < wanted) {
        return Refused, steps, noted;
      }
      var f, n := AddEntry(k, countdown, takeRef, saved, likely);
      r, noted := Tried(f), n;
    }

    /** Puts the entry into an empty slot, unless there is none or it is found to be there. */
    method AddEntry(k: Key, countdown: nat, takeRef: bool, saved: nat, likely: nat) returns (f: Found, noted: bool)
      requires Valid() && 0 < countdown && k.hash < 0x1_0000_0000_0000_0000
      requires 4 <= saved <= table.used && likely < table.used
      modifies table`key, table`paths, table.states, table.states.chains
      ensures Valid() && |table.states.meta| == |table.key| == |old(table.states.meta)|
      ensures EntryMade(old(table.states.meta), old(table.key), table.used, saved, k, countdown, takeRef, likely, f, noted,
                        table.states.meta, table.key)
    {
      hide TabOk, AtRest, HomeIndex, FloorLog2, Matches, Inserted, Noted, EntryMade, InOrder;
      ghost var t := table.View();
      TabSizes(t);
      f, noted := table.Insert(k, countdown, takeRef, saved, likely);
      TabSizes(table.View());
      MadeEntry(t, table.View(), saved, k, countdown, takeRef, likely, f, noted);
    }

    /** Evicts if anything is asked for. */
    method MakeRoom(requested: nat, saved: nat, charge: seq<nat>, effortCap: nat) returns (d: EvictionData, ghost steps: nat)
      requires Valid() && |charge| == |table.states.meta| && 4 <= saved <= table.used
      modifies this`clockPointer, this`maskBits, table`paths, table.states, table.states.chains
      ensures Valid() && |table.states.meta| == |table.key| == |charge|
      ensures clockPointer == old(clockPointer) + STEP_SIZE * steps
      ensures var visits := VisitsOf(table.key, table.used, old(clockPointer), old(maskBits), saved, steps);
              table.states.meta == AfterAll(old(table.states.meta), visits) && d == AccountOf(old(table.states.meta), charge, visits)
      ensures EvictionRun(old(table.states.meta), charge, table.key, table.used, old(clockPointer), old(maskBits), saved, steps,
                          requested, effortCap)
    {
      hide TabOk, AtRest, AllGone, VisitsOf, AccountOf, FloorLog2, MaskBefore, Refreshed, AfterAll, GoesOn;
      TabSizes(table.View());
      if requested > 0 {
        d, steps := Evict(requested, saved, charge, effortCap);
      } else {
        d, steps := EvictionData(0, 0, 0), 0;
        NoVisits(table.key, table.used, table.states.meta, charge, clockPointer, maskBits, saved);
      }
    }

    /** Opens heads until the occupancy is within its limit, or there are no more; returns the last opened, or 0. */
    method GrowIfNeeded(occupancy: nat) returns (ok: bool, likely: nat)
      requires Valid()
      modifies table`used, table`paths, table.states.chains
      ensures Valid() && table.states.meta == old(table.states.meta) && table.key == old(table.key)
      ensures GrownTo(old(table.used), table.used, |table.states.meta|, occupancy) && (ok <==> occupancy <= OccupancyLimit(table.used))
      ensures likely == if table.used > old(table.used) then table.used - 1 else 0
    {
      hide TabOk, AtRest, FloorLog2, OccupancyLimit;
      TabSizes(table.View());
      likely := 0;
      while occupancy > OccupancyLimit(table.used)
        invariant Valid() && table.states.meta == old(table.states.meta) && table.key == old(table.key)
        invariant old(table.used) <= table.used <= |table.states.meta|
        invariant table.used > old(table.used) ==> occupancy > OccupancyLimit(table.used - 1)
        invariant likely == if table.used > old(table.used) then table.used - 1 else 0
        decreases |table.states.meta| - table.used
      {
        var more := Grow();
        TabSizes(table.View());
        if !more {
          return false, likely;
        }
        likely := table.used - 1;
      }
      ok := true;
    }

    /**
     Turns the clock until enough is freed, the limit is reached, or the effort is too high. `saved` is the length
     from when the insert began.
     */
    method Evict(requested: nat, saved: nat, charge: seq<nat>, effortCap: nat) returns (d: EvictionData, steps: nat)
      requires Valid() && requested > 0 && |charge| == |table.states.meta| && 4 <= saved <= table.used
      modifies this`clockPointer, this`maskBits, table`paths, table.states, table.states.chains
      ensures Valid() && |table.states.meta| == |table.key| == |charge|
      // The effort is bounded, and the clock moves by what was passed.
      ensures var most := Pow2(Refreshed(old(clockPointer), old(maskBits), FloorLog2(saved)));
              && 0 < steps <= most && (steps < most ==> !GoesOn(d, requested, effortCap))
      ensures clockPointer == old(clockPointer) + STEP_SIZE * steps
      ensures maskBits == MaskBefore(old(clockPointer), old(maskBits), FloorLog2(saved), steps)
      // Every entry got one clock update per visit to its home, and the account is right.
      ensures Visited(old(table.states.meta), table.states.meta, charge, d,
                      VisitsOf(table.key, table.used, old(clockPointer), old(maskBits), saved, steps))
      // It stops with the first step that freed enough or made the effort too high.
      ensures forall k :: 0 < k < steps ==>
                GoesOn(AccountOf(old(table.states.meta), charge,
                                 VisitsOf(table.key, table.used, old(clockPointer), old(maskBits), saved, k)), requested, effortCap)
      // Falling short without too much effort leaves nothing unpinned at the homes that the insert knew of, unless
      // the mask was that of a smaller table, and does nothing to the entries of other homes.
      ensures GoesOn(d, requested, effortCap) && FreshMask(old(clockPointer), old(maskBits), FloorLog2(saved)) ==>
                AllGone(table.key, table.used, old(table.states.meta), table.states.meta, saved)
      // Meeting fewer pinned entries than the cap it does not stop short; with nothing pinned it meets none.
      ensures d.seenPinned < effortCap ==>
                d.freedCharge >= requested || steps == Pow2(Refreshed(old(clockPointer), old(maskBits), FloorLog2(saved)))
      ensures d.seenPinned < effortCap && FreshMask(old(clockPointer), old(maskBits), FloorLog2(saved)) ==>
                d.freedCharge >= requested || AllGone(table.key, table.used, old(table.states.meta), table.states.meta, saved)
      ensures NonePinned(old(table.states.meta)) ==> d.seenPinned == 0
    {
      hide TabOk, AtRest, Visited, VisitsOf, AccountOf, AllGone, HomeIndex, Pow2, FloorLog2, Refreshed, MaskIn, MaskBefore,
           FreshMask, IsEvictionEffortExceeded, GoesOn, NonePinned;
      TabSizes(table.View());
      d, steps := EvictionData(0, 0, 0), 0;
      var limit := 0;
      ghost var p0, b0, l, was := clockPointer, maskBits, FloorLog2(saved), table.states.meta;
      ghost var most := Pow2(Refreshed(p0, b0, l));
      NoVisits(table.key, table.used, was, charge, p0, b0, saved);
      MaskStep(p0, b0, l, 0);
      while true
        invariant Valid() && clockPointer == p0 + STEP_SIZE * steps && maskBits == MaskBefore(p0, b0, l, steps)
        invariant Visited(was, table.states.meta, charge, d, VisitsOf(table.key, table.used, p0, b0, saved, steps))
        invariant forall k :: 0 < k <= steps ==>
                    GoesOn(AccountOf(was, charge, VisitsOf(table.key, table.used, p0, b0, saved, k)), requested, effortCap)
        invariant limit == if steps == 0 then 0 else p0 + (MAX_COUNTDOWN + 1) * most
        invariant steps < most
        decreases most - steps
      {
        var pointer := clockPointer;
        d := Advance(saved, charge, d, p0, b0, steps, was);
        steps := steps + 1;
        IsAccount(was, table.states.meta, charge, d, VisitsOf(table.key, table.used, p0, b0, saved, steps));
        EffortFacts(was, charge, VisitsOf(table.key, table.used, p0, b0, saved, steps), requested, effortCap);
        TabSizes(table.View());
        if d.freedCharge >= requested {
          return;
        }
        if limit == 0 {
          limit := pointer + (MAX_COUNTDOWN + 1) * Pow2(maskBits);
        }
        if pointer + STEP_SIZE >= limit {
          NothingLeft(table.key, table.used, was, table.states.meta, charge, d, p0, b0, saved);
          return;
        }
        if IsEvictionEffortExceeded(d, effortCap) {
          return;
        }
      }
    }
  }

  /**
   A run that comes to a mask of a smaller table in the middle of a turn: an eviction stops after its first step,
   and then the table doubles.
   */
  method StaleMaskIsReached() returns (c: EvictionClock)
    ensures fresh(c) && c.Valid() && !FreshMask(c.clockPointer, c.maskBits, FloorLog2(c.table.used))
  {
    hide AccountOf, VisitsOf, HomeIndex, MaskIn, MaskBefore, Visited, AllGone, TabOk, AtRest, IsEvictionEffortExceeded;
    var table := new GrowableTable(16, 8);
    c := new EvictionClock(table);
    assert Pow2(3) == 8 && Pow2(4) == 16;
    FloorLog2Unique(8, 3);
    var charge := seq(16, _ => 0);
    ghost var was := table.states.meta;
    var d, steps := c.Evict(1, 8, charge, 0);
    ghost var e := AccountOf(was, charge, VisitsOf(table.key, table.used, 0, 3, 8, 1));
    assert 1 < steps ==> GoesOn(e, 1, 0);
    NoEffort(e);
    MaskStep(0, 3, 3, 0);
    while c.table.used < 16
      invariant c.Valid() && c.table == table && 8 <= c.table.used <= 16 == |c.table.states.meta|
      invariant c.clockPointer == 4 && c.maskBits == 3
      decreases 16 - c.table.used
    {
      var ok := c.Grow();
    }
    FloorLog2Unique(16, 4);
  }

  lemma NoEffort(d: EvictionData)
    ensures !GoesOn(d, 1, 0)
  {
  }

  // ---- What an insert does ----

  /** Whether an insert was refused, or what it found. */
  datatype Entered = Refused | Tried(f: Found)

  /** Three fifths of the heads in use, rounded up. */
  function OccupancyLimit(used: nat): nat { (600 * used + 999) / 1000 }

  /** The limit lets no more than three fifths of the slots be occupied, up to one. */
  lemma LimitIsLoad(used: nat, occupancy: nat)
    ensures occupancy <= OccupancyLimit(used) <==> 5 * occupancy < 3 * used + 5
  {
    var limit := OccupancyLimit(used);
    assert 1000 * limit <= 600 * used + 999 < 1000 * limit + 1000;
  }

  /** The length grew just as far as the occupancy needs, or as far as it can. */
  ghost predicate GrownTo(was: nat, used: nat, most: nat, occupancy: nat)
  {
    && was <= used <= most
    && (used > was ==> occupancy > OccupancyLimit(used - 1))
    && (occupancy > OccupancyLimit(used) ==> used == most)
  }

  /** At least one eviction if a place is needed. */
  function Requested(wanted: nat, occupancy: nat, used: nat): nat
  {
    if occupancy > OccupancyLimit(used) && wanted == 0 then 1 else wanted
  }

  /**
   The steps of an eviction: none if nothing is asked for, otherwise up to the first that freed enough or made the effort
   too high, or to the limit.
   */
  ghost predicate EvictionRun(was: seq<Meta>, charge: seq<nat>, key: seq<Key>, used: nat, p: nat, b: nat, saved: nat, steps: nat,
                              requested: nat, effortCap: nat)
  {
    && |was| == |charge| == |key| && used >= 2 && saved > 0
    && if requested == 0 then steps == 0
       else
         var most := Pow2(Refreshed(p, b, FloorLog2(saved)));
         && 0 < steps <= most
         && (steps < most ==> !GoesOn(AccountOf(was, charge, VisitsOf(key, used, p, b, saved, steps)), requested, effortCap))
         && forall k :: 0 < k < steps ==> GoesOn(AccountOf(was, charge, VisitsOf(key, used, p, b, saved, k)), requested, effortCap)
  }

  /** What adding an entry does to slots and keys. */
  ghost predicate EntryMade(was: seq<Meta>, key: seq<Key>, used: nat, saved: nat, k: Key, countdown: nat, takeRef: bool, likely: nat,
                            f: Found, noted: bool, meta: seq<Meta>, key': seq<Key>)
    requires countdown > 0 && saved >= 2
  {
    && saved <= used <= |was| == |key| && InOrder(was, key, k, HomeIndex(saved, k.hash), likely, f, noted)
    && var m := if noted && likely < |was| then was[likely := Boosted(was[likely], countdown)] else was;
       match f
       case Slot(x) => x < used && was[x].state == Empty && meta == m[x := NewMeta(countdown, takeRef)] && key' == key[x := k]
       case Match(x) =>
         && x < |was| && was[x].state == Visible && key[x] == k
         && meta == m[x := Boosted(m[x], countdown)] && key' == key
       case GaveUp =>
         && meta == m && key' == key
         && forall x :: 0 <= x < saved ==> was[x].state != Empty && !(was[x].state == Visible && key[x] == k)
  }

  lemma MadeEntry(t: Tab, u: Tab, saved: nat, k: Key, countdown: nat, takeRef: bool, likely: nat, f: Found, noted: bool)
    requires Sizes(t) && countdown > 0 && 4 <= saved <= t.used && InOrder(t.meta, t.key, k, HomeIndex(saved, k.hash), likely, f, noted)
    requires f.Slot? ==> f.idx < t.used && t.meta[f.idx].state == Empty &&
                         u == Inserted(Noted(t, noted, likely, countdown), f.idx, k, NewMeta(countdown, takeRef))
    requires f.Match? ==> Matches(t, f.idx, k) && u == Noted(Noted(t, noted, likely, countdown), true, f.idx, countdown)
    requires f.GaveUp? ==> u == Noted(t, noted, likely, countdown) &&
                           forall x :: 0 <= x < saved ==> u.meta[x].state != Empty && !Matches(u, x, k)
    ensures |u.meta| == |t.meta| && |u.key| == |t.key|
    ensures EntryMade(t.meta, t.key, t.used, saved, k, countdown, takeRef, likely, f, noted, u.meta, u.key)
  {
    hide HomeIndex;
    if f.GaveUp? {
      forall x | 0 <= x < saved
        ensures t.meta[x].state != Empty && !(t.meta[x].state == Visible && t.key[x] == k)
      {
        assert u.meta[x].state == t.meta[x].state;
      }
    }
  }

  // ---- Which homes a step covers ----

  lemma NothingStepped(key: seq<Key>, used: nat, v: seq<nat>, p: nat, b: nat, saved: nat)
    requires |v| == |key| && used >= 2
    ensures Stepped(key, used, v, p, b, Min(p % Pow2(b), saved)) == v
    ensures SameRest(p % Pow2(b), p, b)
  {
    hide HomeIndex, Pow2;
    ModIsUnique(p % Pow2(b), Pow2(b), 0, p % Pow2(b));
    forall x | 0 <= x < |v| && HomeOf(key, used, x) < p % Pow2(b)
      ensures !Due(p, b, HomeOf(key, used, x))
    {
      var home := HomeOf(key, used, x);
      ModIsUnique(home - home % STEP_SIZE, Pow2(b), 0, home - home % STEP_SIZE);
    }
  }

  /** Two positions are at the same place under the mask. */
  predicate SameRest(base: nat, p: nat, b: nat) { base % Pow2(b) == p % Pow2(b) }

  lemma BaseAligned(p: nat, b: nat, base: nat)
    requires p % STEP_SIZE == 0 && b >= 2 && SameRest(base, p, b)
    ensures base % STEP_SIZE == 0
  {
    hide Pow2, Due;
    Units(p, b, 0);
    FourTimes(Pow2(b - 2), base / Pow2(b), p / STEP_SIZE % Pow2(b - 2), base);
  }

  lemma FourTimes(q: nat, c: nat, r: nat, base: nat)
    requires base == (STEP_SIZE * q) * c + STEP_SIZE * r
    ensures base % STEP_SIZE == 0
  {
    assert base == STEP_SIZE * (q * c + r);
  }

  lemma GroupDue(p: nat, b: nat, base: nat, i: nat)
    requires p % STEP_SIZE == 0 && b >= 2 && SameRest(base, p, b) && i < STEP_SIZE
    ensures Due(p, b, base + i)
  {
    hide Pow2;
    BaseAligned(p, b, base);
    assert (base + i) % STEP_SIZE == i;
  }

  lemma NotDue(p: nat, b: nat, base: nat, home: nat)
    requires b >= 2 && SameRest(base, p, b) && base + STEP_SIZE <= home < base + Pow2(b)
    requires base % STEP_SIZE == 0
    ensures !Due(p, b, home)
  {
    var d := home - home % STEP_SIZE - base;
    assert 0 < d < Pow2(b);
    ModDiffers(base, d, Pow2(b));
  }

  lemma SteppedOne(key: seq<Key>, used: nat, v: seq<nat>, p: nat, b: nat, home: nat)
    requires |v| == |key| && used >= 2 && Due(p, b, home)
    ensures OneMore(key, used, Stepped(key, used, v, p, b, home), home) == Stepped(key, used, v, p, b, home + 1)
  {
    hide Due, HomeIndex;
  }

  /** Between two groups of a step nothing is due. */
  lemma SteppedGap(key: seq<Key>, used: nat, v: seq<nat>, p: nat, b: nat, base: nat, saved: nat)
    requires |v| == |key| && used >= 2 && p % STEP_SIZE == 0 && b >= 2 && SameRest(base, p, b)
    ensures Stepped(key, used, v, p, b, Min(base + STEP_SIZE, saved)) == Stepped(key, used, v, p, b, Min(base + Pow2(b), saved))
    ensures SameRest(base + Pow2(b), p, b)
  {
    hide Due, HomeIndex, Pow2;
    assert Pow2(b) == STEP_SIZE * Pow2(b - 2) by {
      Units(p, b, 0);
    }
    BaseAligned(p, b, base);
    ModIsUnique(base + Pow2(b), Pow2(b), base / Pow2(b) + 1, base % Pow2(b));
    forall x | 0 <= x < |v| && Min(base + STEP_SIZE, saved) <= HomeOf(key, used, x) < Min(base + Pow2(b), saved)
      ensures !Due(p, b, HomeOf(key, used, x))
    {
      NotDue(p, b, base, HomeOf(key, used, x));
    }
  }

  // ---- Many steps ----

  lemma NoVisits(key: seq<Key>, used: nat, was: seq<Meta>, charge: seq<nat>, p: nat, b: nat, saved: nat)
    requires |was| == |charge| == |key| && used >= 2 && saved > 0
    ensures Visited(was, was, charge, EvictionData(0, 0, 0), VisitsOf(key, used, p, b, saved, 0))
  {
    hide HomeIndex;
    NothingVisited(was, charge, VisitsOf(key, used, p, b, saved, 0));
  }

  lemma OneMoreStep(key: seq<Key>, used: nat, p: nat, b: nat, saved: nat, n: nat)
    requires used >= 2 && saved > 0
    ensures Stepped(key, used, VisitsOf(key, used, p, b, saved, n), p + STEP_SIZE * n, MaskIn(p, b, FloorLog2(saved), n), saved) ==
            VisitsOf(key, used, p, b, saved, n + 1)
  {
    hide Due, HomeIndex, MaskIn, FloorLog2;
  }

  /** At the homes below `saved`, unpinned entries are gone; all other entries are as they were. */
  ghost predicate AllGone(key: seq<Key>, used: nat, was: seq<Meta>, meta: seq<Meta>, saved: nat)
  {
    && |meta| == |was| == |key| && used >= 2
    && forall x :: 0 <= x < |was| ==>
         meta[x] == if HomeOf(key, used, x) < saved && was[x].Shareable() && was[x].acquire == was[x].release then EmptyMeta
                    else was[x]
  }

  lemma NothingLeft(key: seq<Key>, used: nat, was: seq<Meta>, meta: seq<Meta>, charge: seq<nat>, d: EvictionData,
                    p: nat, b: nat, saved: nat)
    requires |key| == |was| && used >= 2 && saved >= 4 && b >= 2 && AtRest(was) && p % STEP_SIZE == 0
    requires Visited(was, meta, charge, d, VisitsOf(key, used, p, b, saved, Pow2(Refreshed(p, b, FloorLog2(saved)))))
    ensures FreshMask(p, b, FloorLog2(saved)) ==> AllGone(key, used, was, meta, saved)
  {
    hide Times, HomeIndex, FreedSum, PinnedVisits, AfterVisits, FreshMask, Refreshed, FloorLog2;
    AtLeastFour(saved);
    if FreshMask(p, b, FloorLog2(saved)) {
      var v := VisitsOf(key, used, p, b, saved, Pow2(Refreshed(p, b, FloorLog2(saved))));
      forall x | 0 <= x < |was|
        ensures meta[x] == if HomeOf(key, used, x) < saved && was[x].Shareable() && was[x].acquire == was[x].release
                           then EmptyMeta else was[x]
      {
        if HomeOf(key, used, x) < saved {
          FreshVisits(p, b, FloorLog2(saved), HomeOf(key, used, x));
          FourVisits(was[x], v[x]);
        } else {
          NoVisit(was[x]);
        }
      }
    }
  }

  lemma NoVisit(m: Meta)
    ensures AfterVisits(m, 0) == m
  {
  }

  // ---- Keeping the account ----

  function ChargeOf(charge: seq<nat>, xs: seq<nat>): nat
  {
    if xs == [] then 0
    else var x := xs[|xs| - 1]; ChargeOf(charge, xs[..|xs| - 1]) + if x < |charge| then charge[x] else 0
  }

  /** Adds up the charges of the evicted entries. */
  method AddCharges(evicted: seq<nat>, charge: seq<nat>) returns (sum: nat)
    requires forall x :: x in evicted ==> x < |charge|
    ensures sum == ChargeOf(charge, evicted)
  {
    sum := 0;
    var i := 0;
    while i < |evicted|
      invariant i <= |evicted| && sum == ChargeOf(charge, evicted[..i])
    {
      assert evicted[i] in evicted && evicted[..i + 1][..i] == evicted[..i];
      sum := sum + charge[evicted[i]];
      i := i + 1;
    }
    assert evicted[..i] == evicted;
  }

  lemma {:induction false} ChargeOfOnes(n: nat, xs: seq<nat>)
    requires forall x: nat :: x in xs ==> x < n
    ensures ChargeOf(Ones(n), xs) == |xs|
  {
    if xs != [] {
      var less := xs[..|xs| - 1];
      forall x: nat | x in less
        ensures x < n
      {
        assert x in xs;
      }
      ChargeOfOnes(n, less);
      assert xs[|xs| - 1] in xs;
    }
  }

  /** Clearing slots frees their charges. */
  lemma {:induction false} ClearedSum(was: seq<Meta>, meta: seq<Meta>, charge: seq<nat>, gone: seq<nat>)
    requires |was| == |meta| == |charge| && NoDup(gone)
    requires forall x :: x in gone ==> x < |meta| && meta[x].state != Empty
    requires forall x :: 0 <= x < |was| && was[x].state == Empty ==> meta[x].state == Empty
    ensures FreedSum(was, Cleared(meta, gone), charge, |meta|) == FreedSum(was, meta, charge, |meta|) + ChargeOf(charge, gone)
  {
    hide FreedSum;
    if gone == [] {
      assert Cleared(meta, gone) == meta;
    } else {
      var less, x := gone[..|gone| - 1], gone[|gone| - 1];
      assert gone == less + [x] && x in gone && x !in less && forall y :: y in less ==> y in gone;
      ClearedSum(was, meta, charge, less);
      FreedSumStep(was, Cleared(meta, less), charge, |meta|, x, EmptyMeta);
      assert Cleared(meta, gone) == Cleared(meta, less)[x := EmptyMeta];
    }
  }

  lemma FreedMore(was: seq<Meta>, meta: seq<Meta>, meta': seq<Meta>, charge: seq<nat>, evicted: seq<nat>)
    requires |was| == |meta| == |meta'| == |charge| && NoDup(evicted)
    requires forall x: nat :: x in evicted ==> x < |meta| && meta[x].state != Empty && meta'[x].state == Empty
    requires forall x: nat :: x < |meta| && x !in evicted ==> (meta'[x].state == Empty <==> meta[x].state == Empty)
    requires forall x :: 0 <= x < |was| && was[x].state == Empty ==> meta[x].state == Empty
    ensures FreedSum(was, meta', charge, |meta|) == FreedSum(was, meta, charge, |meta|) + ChargeOf(charge, evicted)
  {
    ClearedSum(was, meta, charge, evicted);
    FreedSumSame(was, Cleared(meta, evicted), meta', charge, |meta|);
  }

  /** A clock update for each entry of one home, with those that it took and those that it saw pinned. */
  lemma VisitedMore(t: Tab, meta': seq<Meta>, home: nat, evicted: seq<nat>, pinned: nat, charge: seq<nat>, d: EvictionData,
                    was: seq<Meta>, v: seq<nat>)
    requires TabOk(t) && AtRest(t.meta) && home < t.used && |meta'| == |t.meta| == |t.key|
    requires forall x :: 0 <= x < |t.meta| ==>
               meta'[x] == if HasEntry(t, x) && Home(t, x) == home then AfterEvict(t.meta[x]) else t.meta[x]
    requires NoDup(evicted) && forall x :: x in evicted <==> x in t.paths[home] && x < |t.meta| && Evicts(t.meta[x])
    requires pinned == |Restrict(t.paths[home], PinnedSet(t.meta, true))|
    requires Visited(was, t.meta, charge, d, v)
    ensures (forall x :: x in evicted ==> x < |charge|) && t.used >= 2 && |v| == |t.key|
    ensures Visited(was, meta', charge,
                    EvictionData(d.freedCharge + ChargeOf(charge, evicted), d.freedCount + |evicted|, d.seenPinned + pinned),
                    OneMore(t.key, t.used, v, home))
  {
    hide TabOk, HomeIndex, NoDup, Restrict, FreedSum, PinnedVisits, AfterVisits, AfterAll, AfterEvict, Evicts, OneMore;
    TabSizes(t);
    var n := |was|;
    AllThere(was, t.meta, v);
    MetaMore(t, meta', home, was, v);
    WhichGone(t, meta', home, evicted);
    FreedMore(was, t.meta, meta', charge, evicted);
    FreedMore(was, t.meta, meta', Ones(n), evicted);
    ChargeOfOnes(n, evicted);
    PinnedMore(t, home, pinned, was, v);
  }

  lemma AllThere(was: seq<Meta>, meta: seq<Meta>, v: seq<nat>)
    requires |was| == |v| && meta == AfterAll(was, v)
    ensures |meta| == |was| && forall x :: 0 <= x < |was| ==> meta[x] == AfterVisits(was[x], v[x])
    ensures forall x :: 0 <= x < |was| && was[x].state == Empty ==> meta[x].state == Empty
  {
    hide AfterVisits;
    forall x | 0 <= x < |was| && was[x].state == Empty
      ensures meta[x].state == Empty
    {
      EmptyStays(was[x], v[x]);
    }
  }

  lemma MetaMore(t: Tab, meta': seq<Meta>, home: nat, was: seq<Meta>, v: seq<nat>)
    requires TabOk(t) && home < t.used && |meta'| == |t.meta| == |t.key| == |was| == |v|
    requires forall x :: 0 <= x < |t.meta| ==>
               meta'[x] == if HasEntry(t, x) && Home(t, x) == home then AfterEvict(t.meta[x]) else t.meta[x]
    requires forall x :: 0 <= x < |was| ==> t.meta[x] == AfterVisits(was[x], v[x])
    ensures t.used >= 2 && meta' == AfterAll(was, OneMore(t.key, t.used, v, home))
  {
    hide TabOk, HomeIndex, AfterVisits;
    TabSizes(t);
    var v' := OneMore(t.key, t.used, v, home);
    forall x | 0 <= x < |was|
      ensures meta'[x] == AfterVisits(was[x], v'[x])
    {
      EntryHome(t, x);
      VisitOnce(was[x], v[x]);
    }
  }

  lemma WhichGone(t: Tab, meta': seq<Meta>, home: nat, evicted: seq<nat>)
    requires TabOk(t) && AtRest(t.meta) && home < t.used && |meta'| == |t.meta|
    requires forall x :: 0 <= x < |t.meta| ==>
               meta'[x] == if HasEntry(t, x) && Home(t, x) == home then AfterEvict(t.meta[x]) else t.meta[x]
    requires forall x :: x in evicted <==> x in t.paths[home] && x < |t.meta| && Evicts(t.meta[x])
    ensures forall x: nat :: x in evicted ==> x < |t.meta| && t.meta[x].state != Empty && meta'[x].state == Empty
    ensures forall x: nat :: x < |t.meta| && x !in evicted ==> (meta'[x].state == Empty <==> t.meta[x].state == Empty)
  {
    hide TabOk, HomeIndex;
    TabSizes(t);
    forall x: nat | x < |t.meta|
      ensures x in evicted <==> Evicts(t.meta[x]) && HasEntry(t, x) && Home(t, x) == home
    {
      OneChain(t, x, home);
    }
  }

  lemma VisitOnce(m: Meta, v: nat)
    ensures AfterVisits(m, v + 1) == AfterEvict(AfterVisits(m, v))
  {
  }

  lemma PinnedMore(t: Tab, home: nat, pinned: nat, was: seq<Meta>, v: seq<nat>)
    requires TabOk(t) && home < t.used && |was| == |v| == |t.meta| == |t.key|
    requires pinned == |Restrict(t.paths[home], PinnedSet(t.meta, true))|
    requires forall x :: 0 <= x < |was| ==> t.meta[x] == AfterVisits(was[x], v[x])
    ensures t.used >= 2 && PinnedVisits(was, OneMore(t.key, t.used, v, home), |was|) == PinnedVisits(was, v, |was|) + pinned
  {
    hide TabOk, HomeIndex, NoDup, Restrict, PinnedVisits, AfterVisits, SeenPinned, CountIn;
    TabSizes(t);
    PathOf(t, home);
    var p := Restrict(t.paths[home], PinnedSet(t.meta, true));
    RestrictMembers(t.paths[home], PinnedSet(t.meta, true));
    RestrictNoDup(t.paths[home], PinnedSet(t.meta, true));
    CountInList(p, |was|);
    forall x: nat | x < |was|
      ensures x in p <==> SeenPinned(was[x]) && HomeOf(t.key, t.used, x) == home
    {
      PinnedStays(was[x], v[x]);
      OneChain(t, x, home);
      EntryHome(t, x);
      PinnedEntry(t.meta[x]);
    }
    PinnedVisitsMore(was, v, OneMore(t.key, t.used, v, home), Elems(p), |was|);
  }

  lemma PinnedEntry(m: Meta)
    ensures SeenPinned(m) ==> m.state != Empty
  {
  }

  // ---- The mask and the length ----

  lemma LogMonotone(a: nat, b: nat)
    requires 0 < a <= b
    ensures FloorLog2(a) <= FloorLog2(b)
  {
    if FloorLog2(b) < FloorLog2(a) {
      Pow2Strict(FloorLog2(b), FloorLog2(a));
    }
  }

  lemma AtLeastFour(used: nat)
    requires used >= 4
    ensures FloorLog2(used) >= 2
  {
  }
}
