/**
 What a run of the eviction clock does to each slot: how often consecutive clock positions come by, and
 what that many visits leave of an entry.
 */
module ClockVisits {
  import opened Bits
  import opened ChainLinks
  import opened SlotMeta
  import opened SlotSearch

  // Both tables move their clock by this much at a time.
  const STEP_SIZE: nat := 4

  /** What an eviction has done so far. */
  datatype EvictionData = EvictionData(freedCharge: nat, freedCount: nat, seenPinned: nat)

  /** The ratio of useful to wasted effort is too low. */
  predicate IsEvictionEffortExceeded(d: EvictionData, cap: nat) { (d.freedCount + 1) * cap <= d.seenPinned }

  /**
   Not enough is freed yet, and it did not meet `effortCap` pinned entries for each entry freed and as many more for a
   start.
   */
  ghost predicate GoesOn(d: EvictionData, requested: nat, effortCap: nat)
  {
    d.freedCharge < requested && d.seenPinned < effortCap * d.freedCount + effortCap
  }

  /** The test of the effort is what it is meant to be. */
  lemma EffortIs(d: EvictionData, effortCap: nat)
    ensures IsEvictionEffortExceeded(d, effortCap) <==> effortCap * d.freedCount + effortCap <= d.seenPinned
  {
    assert (d.freedCount + 1) * effortCap == effortCap * d.freedCount + effortCap;
  }

  /** Meeting fewer pinned entries than the cap is never too much effort. */
  lemma LittleEffort(d: EvictionData, requested: nat, effortCap: nat)
    requires d.seenPinned < effortCap
    ensures GoesOn(d, requested, effortCap) <==> d.freedCharge < requested
  {
    assert effortCap * d.freedCount >= 0;
  }

  ghost predicate NonePinned(was: seq<Meta>) { forall x :: 0 <= x < |was| ==> !SeenPinned(was[x]) }

  /** With nothing pinned there is no wasted effort. */
  lemma {:induction false} NoWaste(was: seq<Meta>, v: seq<nat>, n: nat)
    requires n <= |was| == |v| && NonePinned(was)
    ensures PinnedVisits(was, v, n) == 0
  {
    if n > 0 {
      NoWaste(was, v, n - 1);
    }
  }

  /** How many of the n clock positions from `start` on fall on slot x of a table of `size` slots. */
  function VisitCount(start: nat, n: nat, size: nat, x: nat): nat
    requires size > 0
  {
    if n == 0 then 0 else VisitCount(start, n - 1, size, x) + if (start + n - 1) % size == x then 1 else 0
  }

  /** A slot after v visits, with evicted entries removed. */
  function AfterVisits(m: Meta, v: nat): Meta
  {
    if v == 0 then m else AfterEvict(AfterVisits(m, v - 1))
  }

  lemma {:induction false} VisitCountSplit(start: nat, a: nat, b: nat, size: nat, x: nat)
    requires size > 0
    ensures VisitCount(start, a + b, size, x) == VisitCount(start, a, size, x) + VisitCount(start + a, b, size, x)
  {
    if b > 0 {
      VisitCountSplit(start, a, b - 1, size, x);
    }
  }

  lemma {:induction false} VisitCountHit(start: nat, n: nat, size: nat, x: nat, i: nat)
    requires size > 0 && i < n && (start + i) % size == x
    ensures VisitCount(start, n, size, x) > 0
  {
    if i < n - 1 {
      VisitCountHit(start, n - 1, size, x, i);
    }
  }

  /** A full turn of the clock comes by every slot. */
  lemma FullTurn(start: nat, size: nat, x: nat)
    requires x < size
    ensures VisitCount(start, size, size, x) > 0
  {
    var i := (x - start) % size;
    ModAdd(x - start, start, size);
    ModIsUnique(x, size, 0, x);
    VisitCountHit(start, size, size, x, i);
  }

  lemma ModDiffers(a: nat, d: nat, size: nat)
    requires 0 < d < size
    ensures (a + d) % size != a % size
  {
    var c, r := a / size, a % size;
    if r + d < size {
      ModIsUnique(a + d, size, c, r + d);
    } else {
      ModIsUnique(a + d, size, c + 1, r + d - size);
    }
  }

  /** Less than a turn before a visit there is no other. */
  lemma {:induction false} NoneBefore(start: nat, m: nat, n: nat, size: nat, x: nat)
    requires m < n <= size && (start + n - 1) % size == x
    ensures VisitCount(start, m, size, x) == 0
  {
    if m > 0 {
      NoneBefore(start, m - 1, n, size, x);
      ModDiffers(start + m - 1, n - m, size);
    }
  }

  /** Within a turn the clock comes by no slot twice. */
  lemma {:induction false} AtMostOnce(start: nat, n: nat, size: nat, x: nat)
    requires n <= size && size > 0
    ensures VisitCount(start, n, size, x) <= 1
  {
    if n > 0 {
      AtMostOnce(start, n - 1, size, x);
      if (start + n - 1) % size == x {
        NoneBefore(start, n - 1, n, size, x);
      }
    }
  }

  lemma TwoTurns(start: nat, n: nat, size: nat, x: nat)
    requires n <= 2 * size && size > 0
    ensures VisitCount(start, n, size, x) <= 2
  {
    if n <= size {
      AtMostOnce(start, n, size, x);
    } else {
      VisitCountSplit(start, size, n - size, size, x);
      AtMostOnce(start, size, size, x);
      AtMostOnce(start + size, n - size, size, x);
    }
  }

  lemma FourTurns(start: nat, size: nat, x: nat)
    requires x < size
    ensures VisitCount(start, 4 * size, size, x) == 4
  {
    VisitCountSplit(start, 3 * size, size, size, x);
    VisitCountSplit(start, 2 * size, size, size, x);
    VisitCountSplit(start, size, size, size, x);
    forall s: nat
      ensures VisitCount(s, size, size, x) == 1
    {
      FullTurn(s, size, x);
      AtMostOnce(s, size, size, x);
    }
  }

  lemma ThreeTurns(start: nat, n: nat, size: nat, x: nat)
    requires x < size && n >= 3 * size
    ensures VisitCount(start, n, size, x) >= 3
  {
    VisitCountSplit(start, size, n - size, size, x);
    VisitCountSplit(start + size, size, n - 2 * size, size, x);
    VisitCountSplit(start + 2 * size, size, n - 3 * size, size, x);
    FullTurn(start, size, x);
    FullTurn(start + size, size, x);
    FullTurn(start + 2 * size, size, x);
  }

  /** Three visits free every unpinned entry but a visible one with a countdown of 3 or more, which is down to 0. */
  lemma {:induction false} ThreeVisits(m: Meta, v: nat)
    requires v >= 3 && m.state != Construction
    ensures !m.Shareable() || m.acquire != m.release ==> AfterVisits(m, v) == m
    ensures m.Shareable() && m.acquire == m.release && (m.state == Invisible || m.acquire <= 2) ==>
              AfterVisits(m, v) == EmptyMeta
    ensures m.state == Visible && m.acquire == m.release ==>
              var a := AfterVisits(m, v); a == EmptyMeta || (a.state == Visible && a.acquire == a.release == 0)
  {
    if v > 3 {
      ThreeVisits(m, v - 1);
    } else {
      assert AfterVisits(m, 1) == AfterEvict(m) by {
        assert AfterVisits(m, 0) == m;
      }
      assert AfterVisits(m, 3) == AfterEvict(AfterVisits(m, 2));
    }
  }

  /** Four visits free every unpinned entry. */
  lemma {:induction false} FourVisits(m: Meta, v: nat)
    requires v >= 4 && m.state != Construction
    ensures AfterVisits(m, v) == if m.Shareable() && m.acquire == m.release then EmptyMeta else m
  {
    if v > 4 {
      FourVisits(m, v - 1);
    } else {
      ThreeVisits(m, 3);
      assert AfterVisits(m, 4) == AfterEvict(AfterVisits(m, 3));
    }
  }

  /** Visits neither pin an entry nor free a pinned one. */
  lemma {:induction false} PinnedStays(m: Meta, v: nat)
    ensures SeenPinned(AfterVisits(m, v)) <==> SeenPinned(m)
  {
    if v > 0 {
      PinnedStays(m, v - 1);
    }
  }

  lemma {:induction false} EmptyStays(m: Meta, v: nat)
    requires m.state == Empty
    ensures AfterVisits(m, v) == m
  {
    if v > 0 {
      EmptyStays(m, v - 1);
    }
  }

  // ---- What was freed, and what was pinned ----

  /** How often the first n slots were visited while they held a pinned entry. */
  function PinnedVisits(was: seq<Meta>, v: seq<nat>, n: nat): nat
    requires n <= |was| == |v|
  {
    if n == 0 then 0 else PinnedVisits(was, v, n - 1) + if SeenPinned(was[n - 1]) then v[n - 1] else 0
  }

  /** All slots after the given numbers of visits. */
  ghost function AfterAll(was: seq<Meta>, v: seq<nat>): (r: seq<Meta>)
    requires |v| == |was|
    ensures |r| == |was|
  {
    seq(|was|, x requires 0 <= x < |was| => AfterVisits(was[x], v[x]))
  }

  /** The charges and the number of the entries that are gone after these visits, and the visits to pinned entries. */
  ghost function AccountOf(was: seq<Meta>, charge: seq<nat>, v: seq<nat>): EvictionData
    requires |was| == |charge| == |v|
  {
    EvictionData(FreedSum(was, AfterAll(was, v), charge, |was|), FreedSum(was, AfterAll(was, v), Ones(|was|), |was|),
                 PinnedVisits(was, v, |was|))
  }

  /** Slot x got v[x] clock updates since `was`, and `d` accounts for what they did. */
  ghost predicate Visited(was: seq<Meta>, meta: seq<Meta>, charge: seq<nat>, d: EvictionData, v: seq<nat>)
  {
    |was| == |charge| == |v| && meta == AfterAll(was, v) && d == AccountOf(was, charge, v)
  }

  lemma IsAccount(was: seq<Meta>, meta: seq<Meta>, charge: seq<nat>, d: EvictionData, v: seq<nat>)
    requires Visited(was, meta, charge, d, v)
    ensures |was| == |charge| == |v| == |meta| && d == AccountOf(was, charge, v)
  {
  }

  /** What an account says about the effort, from what was pinned at first. */
  lemma EffortFacts(was: seq<Meta>, charge: seq<nat>, v: seq<nat>, requested: nat, effortCap: nat)
    requires |was| == |charge| == |v|
    ensures var d := AccountOf(was, charge, v);
            && (IsEvictionEffortExceeded(d, effortCap) || d.freedCharge >= requested <==> !GoesOn(d, requested, effortCap))
            && (d.seenPinned < effortCap ==> (GoesOn(d, requested, effortCap) <==> d.freedCharge < requested))
            && (NonePinned(was) ==> d.seenPinned == 0)
  {
    hide FreedSum, AfterAll, IsEvictionEffortExceeded;
    var d := AccountOf(was, charge, v);
    EffortIs(d, effortCap);
    if d.seenPinned < effortCap {
      LittleEffort(d, requested, effortCap);
    }
    if NonePinned(was) {
      NoWaste(was, v, |was|);
    }
  }

  /** One more visit to slot h does one clock update there, and is added to the account. */
  lemma VisitedOneMore(was: seq<Meta>, meta: seq<Meta>, charge: seq<nat>, d: EvictionData, v: seq<nat>, h: nat)
    requires Visited(was, meta, charge, d, v) && AtRest(was) && h < |was|
    ensures Visited(was, meta[h := AfterEvict(meta[h])], charge, Counted(d, meta[h], charge[h]), v[h := v[h] + 1])
  {
    hide AfterEvict, Evicts, FreedSum, SeenPinned, PinnedVisits, AfterVisits;
    var m, v' := AfterEvict(meta[h]), v[h := v[h] + 1];
    EmptyOnce(was[h], v[h]);
    EmptyAfter(meta[h]);
    PinnedStays(was[h], v[h]);
    VisitsNext(was[h], v[h]);
    assert AfterAll(was, v') == meta[h := m];
    FreedSumStep(was, meta, charge, |was|, h, m);
    FreedSumStep(was, meta, Ones(|was|), |was|, h, m);
    var s: set<nat> := if SeenPinned(was[h]) then {h} else {};
    PinnedVisitsMore(was, v, v', s, |was|);
    CountInNone(|was|);
    CountInMore({}, |was|, h);
    assert {} + {h} == {h};
    NotBoth(meta[h]);
  }

  /** The account after one more visit. */
  function Counted(d: EvictionData, m: Meta, charge: nat): EvictionData
  {
    if Evicts(m) then EvictionData(d.freedCharge + charge, d.freedCount + 1, d.seenPinned)
    else if SeenPinned(m) then d.(seenPinned := d.seenPinned + 1)
    else d
  }

  lemma NotBoth(m: Meta)
    ensures !(Evicts(m) && SeenPinned(m))
  {
  }

  lemma VisitsNext(m: Meta, v: nat)
    ensures AfterVisits(m, v + 1) == AfterEvict(AfterVisits(m, v))
  {
  }

  lemma EmptyAfter(m: Meta)
    ensures m.state == Empty ==> AfterEvict(m) == m
    ensures m.state != Empty && m.state != Construction ==> (AfterEvict(m).state == Empty <==> Evicts(m))
    ensures m.state == Empty ==> !Evicts(m)
  {
  }

  lemma {:induction false} EmptyOnce(m: Meta, v: nat)
    requires m.state != Construction
    ensures m.state == Empty ==> AfterVisits(m, v) == m
    ensures AfterVisits(m, v).state != Construction
  {
    if v > 0 {
      EmptyOnce(m, v - 1);
    }
  }

  function Ones(n: nat): seq<nat> { seq(n, _ => 1) }

  lemma {:induction false} PinnedVisitsNone(was: seq<Meta>, v: seq<nat>, n: nat)
    requires n <= |was| == |v| && forall x :: 0 <= x < |v| ==> v[x] == 0
    ensures PinnedVisits(was, v, n) == 0
  {
    if n > 0 {
      PinnedVisitsNone(was, v, n - 1);
    }
  }

  lemma NothingVisited(was: seq<Meta>, charge: seq<nat>, v: seq<nat>)
    requires |was| == |charge| == |v| && forall x :: 0 <= x < |v| ==> v[x] == 0
    ensures Visited(was, was, charge, EvictionData(0, 0, 0), v)
  {
    assert AfterAll(was, v) == was;
    FreedSumNone(was, charge, |was|);
    FreedSumNone(was, Ones(|was|), |was|);
    PinnedVisitsNone(was, v, |was|);
  }

  /** How many of the first n slots are in a set. */
  ghost function CountIn(s: set<nat>, n: nat): nat
  {
    if n == 0 then 0 else CountIn(s, n - 1) + if n - 1 in s then 1 else 0
  }

  lemma {:induction false} CountInMore(s: set<nat>, n: nat, x: nat)
    requires x !in s
    ensures CountIn(s + {x}, n) == CountIn(s, n) + if x < n then 1 else 0
  {
    if n > 0 {
      CountInMore(s, n - 1, x);
    }
  }

  lemma {:induction false} CountInNone(n: nat)
    ensures CountIn({}, n) == 0
  {
    if n > 0 {
      CountInNone(n - 1);
    }
  }

  /** A list without repetitions is as long as its set. */
  lemma {:induction false} CountInList(p: seq<nat>, n: nat)
    requires NoDup(p) && forall x :: x in p ==> x < n
    ensures CountIn(Elems(p), n) == |p|
  {
    if p == [] {
      CountInNone(n);
      assert Elems(p) == {};
    } else {
      var q, x := p[..|p| - 1], p[|p| - 1];
      assert p == q + [x] && forall y :: y in q ==> y in p;
      CountInList(q, n);
      ElemsConcat(q, [x]);
      assert Elems([x]) == {x} && x !in Elems(q);
      CountInMore(Elems(q), n, x);
    }
  }

  /** One more visit to some slots counts those of them that are pinned. */
  lemma {:induction false} PinnedVisitsMore(was: seq<Meta>, v: seq<nat>, v': seq<nat>, s: set<nat>, n: nat)
    requires n <= |was| == |v| == |v'|
    requires forall x :: 0 <= x < |was| && SeenPinned(was[x]) ==> v'[x] == v[x] + if x in s then 1 else 0
    requires forall x :: x in s ==> x < |was| && SeenPinned(was[x])
    ensures PinnedVisits(was, v', n) == PinnedVisits(was, v, n) + CountIn(s, n)
  {
    if n > 0 {
      PinnedVisitsMore(was, v, v', s, n - 1);
    }
  }

  /** The charges of the entries among the first n slots that are gone. */
  function FreedSum(was: seq<Meta>, meta: seq<Meta>, charge: seq<nat>, n: nat): nat
    requires n <= |was| == |meta| == |charge|
  {
    if n == 0 then 0
    else FreedSum(was, meta, charge, n - 1) +
         if was[n - 1].state != Empty && meta[n - 1].state == Empty then charge[n - 1] else 0
  }

  lemma {:induction false} FreedSumStep(was: seq<Meta>, meta: seq<Meta>, charge: seq<nat>, n: nat, h: nat, m: Meta)
    requires n <= |was| == |meta| == |charge| && h < |meta|
    requires was[h].state == Empty ==> meta[h].state == Empty && m.state == Empty
    requires meta[h].state == Empty ==> m.state == Empty
    ensures FreedSum(was, meta[h := m], charge, n) ==
            FreedSum(was, meta, charge, n) + if h < n && meta[h].state != Empty && m.state == Empty then charge[h] else 0
  {
    if n > 0 {
      FreedSumStep(was, meta, charge, n - 1, h, m);
    }
  }

  lemma {:induction false} FreedSumSame(was: seq<Meta>, meta: seq<Meta>, meta': seq<Meta>, charge: seq<nat>, n: nat)
    requires n <= |was| == |meta| == |meta'| == |charge|
    requires forall x :: 0 <= x < |meta| ==> (meta'[x].state == Empty <==> meta[x].state == Empty)
    ensures FreedSum(was, meta', charge, n) == FreedSum(was, meta, charge, n)
  {
    if n > 0 {
      FreedSumSame(was, meta, meta', charge, n - 1);
    }
  }

  lemma {:induction false} FreedSumNone(was: seq<Meta>, charge: seq<nat>, n: nat)
    requires n <= |was| == |charge|
    ensures FreedSum(was, was, charge, n) == 0
  {
    if n > 0 {
      FreedSumNone(was, charge, n - 1);
    }
  }
}
