/**
 Where the growable table looks for a free slot: the home slot, a slot that is likely to be empty, four
 slots in a row, and then steps of about 0.618 of the table length. Such a step can share a factor with
 the table length and then visits only some of the slots before it comes back; each round therefore
 starts one slot further on.
 */
module SlotSearch {
  import opened Bits

  /** What an insert meets in a slot: free, an entry with the same key, or neither. */
  datatype Probe = Free | Same | Busy

  datatype Found = Slot(idx: nat) | Match(idx: nat) | GaveUp

  const GOLDEN: nat := 0x9E3779B185EBCA87
  const MAX_LINEAR_PROBE: nat := 4

  /** Maps a 64-bit number evenly onto [0, range). */
  function FastRange64(hash: nat, range: nat): nat { hash * range / 0x1_0000_0000_0000_0000 }

  /** The step used for a key, with at least 4 slots: at least one slot and less than the whole table. */
  lemma IncrementInRange(hash: nat, n: nat)
    requires hash < 0x1_0000_0000_0000_0000 && 4 <= n
    ensures 0 < FastRange64(GOLDEN + hash / 64, n) < n
  {
    var ratio := GOLDEN + hash / 64;
    ScaleBounds(ratio, n);
  }

  lemma ScaleBounds(ratio: nat, n: nat)
    requires 0x8000_0000_0000_0000 <= ratio < 0x1_0000_0000_0000_0000 && 4 <= n
    ensures 0 < ratio * n / 0x1_0000_0000_0000_0000 < n
  {
    assert ratio * n >= 4 * 0x8000_0000_0000_0000;
    assert ratio * n < 0x1_0000_0000_0000_0000 * n by {
      MulStrict(ratio, 0x1_0000_0000_0000_0000, n);
    }
  }

  lemma MulStrict(a: nat, b: nat, n: nat)
    requires a < b && n > 0
    ensures a * n < b * n
  {
  }

  // ---- Number theory ----

  function Gcd(a: nat, b: nat): (g: nat)
    requires a > 0
    ensures g > 0
    decreases b
  {
    if b == 0 then a else Gcd(b, a % b)
  }

  /** The greatest common divisor divides both numbers; here are the quotients. */
  lemma {:induction false} GcdDivides(a: nat, b: nat) returns (u: nat, v: nat)
    requires a > 0
    ensures a == Gcd(a, b) * u && b == Gcd(a, b) * v
    decreases b
  {
    if b == 0 {
      u, v := 1, 0;
    } else {
      var u', v' := GcdDivides(b, a % b);
      u := DividesSum(a, b, Gcd(a, b), u', v');
      v := u';
    }
  }

  lemma DividesSum(a: nat, b: nat, g: nat, u: nat, v: nat) returns (w: nat)
    requires b > 0 && b == g * u && a % b == g * v
    ensures a == g * w
  {
    var q: nat := a / b;
    w := u * q + v;
    assert a == b * q + a % b;
    Distribute(g, u, q, v);
  }

  lemma Distribute(g: int, u: int, q: int, v: int)
    ensures (g * u) * q + g * v == g * (u * q + v)
  {
    assert (g * u) * q == g * (u * q);
  }

  lemma Swap(a: int, b: int, c: int)
    ensures a * (b * c) == (a * b) * c == (a * c) * b
  {
  }

  lemma {:induction false} Bezout(a: nat, b: nat) returns (x: int, y: int)
    requires a > 0
    ensures a * x + b * y == Gcd(a, b)
    decreases b
  {
    if b == 0 {
      x, y := 1, 0;
    } else {
      var x', y' := Bezout(b, a % b);
      x, y := y', x' - (a / b) * y';
      BezoutStep(a, b, a / b, a % b, x', y');
    }
  }

  lemma BezoutStep(a: int, b: int, q: int, r: int, x: int, y: int)
    requires a == b * q + r
    ensures b * x + r * y == a * y + b * (x - q * y)
  {
    assert a * y == (b * q) * y + r * y;
    Swap(b, q, y);
    assert b * (x - q * y) == b * x - b * (q * y);
  }

  lemma ModShift(x: int, n: int, k: int)
    requires n > 0
    ensures (x + k * n) % n == x % n
  {
    ModIsUnique(x + k * n, n, x / n + k, x % n);
  }

  lemma ModAdd(x: int, y: int, n: int)
    requires n > 0
    ensures (x % n + y) % n == (x + y) % n
  {
    assert x == n * (x / n) + x % n;
    ModShift(x % n + y, n, x / n);
  }

  /** Whether `j` steps lead back to where the search started. */
  predicate Back(n: nat, step: nat, j: nat)
    requires n > 0
  {
    (j * step) % n == 0
  }

  lemma MultipleIsBack(n: nat, step: nat, j: nat, u: nat)
    requires n > 0 && j * step == u * n
    ensures Back(n, step, j)
  {
    ModShift(0, n, u);
  }

  /** After how many steps, counted from j on, the search first comes back to where it started. */
  function Period(n: nat, step: nat, j: nat): (c: nat)
    requires 0 < j <= n
    ensures j <= c <= n && Back(n, step, c)
    ensures forall i :: j <= i < c ==> !Back(n, step, i)
    decreases n - j
  {
    if j == n then MultipleIsBack(n, step, n, step); n
    else if Back(n, step, j) then j
    else Period(n, step, j + 1)
  }

  /** The period divides out the common factor: it is at most n / gcd. */
  lemma PeriodBound(n: nat, step: nat)
    requires n > 0 && step > 0
    ensures Period(n, step, 1) * Gcd(step, n) <= n
  {
    hide Gcd, Back;
    var u, v := GcdDivides(step, n);
    var g, c := Gcd(step, n), Period(n, step, 1);
    Swap(v, g, u);
    MultipleIsBack(n, step, v, u);
    FactorBounds(g, v);
    assert c <= v;
    MulMonotone(c, v, g);
  }

  lemma FactorBounds(g: nat, v: nat)
    requires g > 0 && g * v > 0
    ensures 0 < v <= g * v
  {
  }

  lemma MulMonotone(a: nat, b: nat, n: nat)
    requires a <= b
    ensures a * n <= b * n
  {
  }

  /** The slot that is `k` rounds and `j` steps on from `start`. */
  function At(start: nat, k: nat, j: nat, step: nat, n: nat): (i: nat)
    requires n > 0
    ensures i < n
  {
    (start + k + j * step) % n
  }

  /** Whole multiples of n steps of the search: q * gcd slots are some number of steps, at most one round of them. */
  lemma ReachMultiple(n: nat, step: nat, q: nat) returns (j: nat, w: int)
    requires n > 0 && step > 0
    ensures j < Period(n, step, 1) && q * Gcd(step, n) == j * step + w * n
  {
    hide Gcd, Period;
    var c := Period(n, step, 1);
    var x, y := Bezout(step, n);
    var z, e := (c * step) / n, (q * x) / c;
    j, w := (q * x) % c, e * z + q * y;
    Expand(q, step, x, n, y);
    assert q * x == c * e + j;
    assert c * step == n * z;
    Regroup(c, e, j, step, n, z, q * y);
  }

  lemma Expand(q: int, a: int, x: int, b: int, y: int)
    ensures q * (a * x + b * y) == (q * x) * a + (q * y) * b
  {
    Swap(q, a, x);
    Swap(q, b, y);
  }

  lemma Regroup(c: int, e: int, j: int, step: int, n: int, z: int, r: int)
    requires c * step == n * z
    ensures (c * e + j) * step + r * n == j * step + (e * z + r) * n
  {
    Swap(e, c, step);
    Swap(e, n, z);
    assert (c * e + j) * step == (c * e) * step + j * step;
    assert (e * z + r) * n == (e * z) * n + r * n;
  }

  /** Rounds of almost n steps altogether are as many as the common factor. */
  lemma EnoughRounds(n: nat, step: nat, rounds: nat, slack: nat)
    requires n > 0 && step > 0 && slack < Period(n, step, 1) && rounds * Period(n, step, 1) + slack >= n
    ensures Gcd(step, n) <= rounds
  {
    hide Gcd, Back, Period;
    PeriodBound(n, step);
    if rounds < Gcd(step, n) {
      MulGap(rounds, Gcd(step, n), Period(n, step, 1));
    }
  }

  lemma MulGap(a: nat, b: nat, c: nat)
    requires a < b
    ensures a * c + c <= b * c == c * b
  {
    assert b * c == a * c + c + (b - a - 1) * c;
  }

  lemma Arrive(start: nat, d: nat, slot: nat, n: nat, k: nat, js: int, w: int)
    requires n > 0 && d == k + js + w * n && (d + start) % n == slot
    ensures (start + k + js) % n == slot
  {
    ModShift(start + k + js, n, w);
  }

  /** A number of rounds that is at least the common factor covers every slot. */
  lemma EverySlot(start: nat, step: nat, n: nat, rounds: nat, slot: nat) returns (k: nat, j: nat)
    requires n > 0 && step > 0 && slot < n && Gcd(step, n) <= rounds
    ensures k < rounds && j < Period(n, step, 1) && At(start, k, j, step, n) == slot
  {
    hide Gcd, Back, Period;
    var g := Gcd(step, n);
    var d := (slot - start) % n;
    var w;
    k := d % g;
    j, w := ReachMultiple(n, step, d / g);
    // start + d is the slot, up to a multiple of n.
    Arrive(start, d, slot, n, k, j * step, w) by {
      assert d == g * (d / g) + k;
      ModAdd(slot - start, start, n);
      ModIsUnique(slot, n, 0, slot);
    }
  }

  // ---- The search ----

  /** The first `j` steps of round `k`, and the slot the round starts from, met neither a free slot nor the key. */
  ghost predicate Tried(slots: seq<Probe>, n: nat, start: nat, step: nat, k: nat, j: nat)
  {
    0 < n <= |slots| && forall i :: 0 <= i < j ==> slots[At(start, k, i, step, n)] == Busy
  }

  ghost predicate AllBusy(slots: seq<Probe>, n: nat) { n <= |slots| && forall i :: 0 <= i < n ==> slots[i] == Busy }

  lemma AllTried(slots: seq<Probe>, n: nat, start: nat, step: nat, rounds: nat)
    requires 0 < n <= |slots| && step > 0
    requires forall k :: 0 <= k < rounds ==> Tried(slots, n, start, step, k, Period(n, step, 1))
    requires Gcd(step, n) <= rounds
    ensures AllBusy(slots, n)
  {
    hide Period, At, Gcd;
    forall i | 0 <= i < n
      ensures slots[i] == Busy
    {
      var k, j := EverySlot(start, step, n, rounds, i);
      assert Tried(slots, n, start, step, k, Period(n, step, 1));
    }
  }

  function Wrap(i: nat, n: nat): nat { if i >= n then i - n else i }

  lemma WrapIsMod(i: nat, n: nat)
    requires n > 0 && i < 2 * n
    ensures Wrap(i, n) == i % n
  {
    if i >= n {
      ModIsUnique(i, n, 1, i - n);
    } else {
      ModIsUnique(i, n, 0, i);
    }
  }

  /** One step on from slot (k, j), and the first slot of the next round. */
  lemma StepAt(start: nat, k: nat, j: nat, step: nat, n: nat)
    requires step < n && 1 < n
    ensures Wrap(At(start, k, j, step, n) + step, n) == At(start, k, j + 1, step, n)
    ensures Wrap(At(start, k, 0, step, n) + 1, n) == At(start, k + 1, 0, step, n)
    ensures At(start, k, j, step, n) == At(start, k, 0, step, n) <==> Back(n, step, j)
  {
    var x := start + k + j * step;
    WrapIsMod(x % n + step, n);
    ModAdd(x, step, n);
    assert (j + 1) * step == j * step + step;
    WrapIsMod((start + k) % n + 1, n);
    ModAdd(start + k, 1, n);
    SameMod(start + k, j * step, n);
  }

  lemma SameMod(x: nat, y: nat, n: nat)
    requires n > 0
    ensures (x + y) % n == x % n <==> y % n == 0
  {
    if y % n == 0 {
      assert y == n * (y / n);
      ModShift(x, n, y / n);
    } else if (x + y) % n == x % n {
      var c, d := (x + y) / n, x / n;
      assert x + y == n * c + x % n && x == n * d + x % n;
      assert n * (c - d) == n * c - n * d;
      ModIsUnique(y, n, c - d, 0);
    }
  }

  /** Where the rounds of a search stand: j steps into round k from `base`, and the count of steps when they began. */
  datatype Rounds = Rounds(base: nat, k: nat, j: nat, began: nat)

  /**
   What is known in the middle of the search of `length` slots. When it is a search of more slots than at first,
   either all of the first ones were tried, or there is time left for a whole search.
   */
  ghost predicate InRounds(slots: seq<Probe>, saved: nat, n: nat, length: nat, step: nat, r: Rounds, i: nat)
  {
    0 < length <= |slots| && 0 < step < length &&
    var c := Period(length, step, 1);
    && i == r.began + r.k * c + r.j && i <= 2 * length + r.j
    && (forall k :: 0 <= k < r.k ==> Tried(slots, length, r.base, step, k, c))
    && Tried(slots, length, r.base, step, r.k, r.j + 1)
    && (if length == saved then r.began == MAX_LINEAR_PROBE && (saved != n ==> r.began - 1 + r.k * c < saved)
        else AllBusy(slots, saved) || r.began <= saved + 3)
  }

  lemma PeriodAtLeastTwo(n: nat, step: nat)
    requires 0 < step < n
    ensures Period(n, step, 1) >= 2
  {
    ModIsUnique(step, n, 0, step);
    assert !Back(n, step, 1);
  }

  lemma NextStep(slots: seq<Probe>, saved: nat, n: nat, length: nat, step: nat, r: Rounds, i: nat)
    requires InRounds(slots, saved, n, length, step, r, i) && slots[At(r.base, r.k, r.j + 1, step, length)] == Busy
    ensures InRounds(slots, saved, n, length, step, r.(j := r.j + 1), i + 1)
  {
    hide Period, At, AllBusy;
    TriedMore(slots, length, r.base, step, r.k, r.j + 1);
  }

  lemma NextRound(slots: seq<Probe>, saved: nat, n: nat, length: nat, step: nat, r: Rounds, i: nat)
    requires InRounds(slots, saved, n, length, step, r, i) && r.j + 1 == Period(length, step, 1)
    requires i < 2 * length && (length == saved != n ==> i < length)
    requires slots[At(r.base, r.k + 1, 0, step, length)] == Busy
    ensures InRounds(slots, saved, n, length, step, r.(k := r.k + 1, j := 0), i + 1)
  {
    hide Period, At, Tried, AllBusy;
    MulStep(r.k, Period(length, step, 1));
    TriedMore(slots, length, r.base, step, r.k + 1, 0);
  }

  /** At the end of a round, when the length is read again and the table has grown. */
  lemma LongerTable(slots: seq<Probe>, saved: nat, n: nat, step: nat, r: Rounds, i: nat)
    requires InRounds(slots, saved, n, saved, step, r, i) && saved < n && r.j + 1 == Period(saved, step, 1) && saved <= i
    ensures i < 2 * n && (AllBusy(slots, saved) || i + 1 <= saved + 3)
  {
    hide Period, AllBusy, Tried, Gcd;
    MulStep(r.k, Period(saved, step, 1));
    if Period(saved, step, 1) > 3 {
      EnoughRounds(saved, step, r.k + 1, 3);
      AllTried(slots, saved, r.base, step, r.k + 1);
    }
  }

  lemma NewRounds(slots: seq<Probe>, saved: nat, n: nat, step: nat, r: Rounds, i: nat, start: nat)
    requires InRounds(slots, saved, n, saved, step, r, i) && saved < n <= |slots|
    requires r.j + 1 == Period(saved, step, 1) && saved <= i
    requires start < saved && slots[start] == Busy
    ensures InRounds(slots, saved, n, n, step, Rounds(start, 0, 0, i + 1), i + 1)
  {
    hide Period, At, Tried, AllBusy;
    LongerTable(slots, saved, n, step, r, i);
    StartAt(start, step, n);
    TriedMore(slots, n, start, step, 0, 0);
  }

  lemma EnoughTried(slots: seq<Probe>, saved: nat, n: nat, step: nat, r: Rounds, i: nat)
    requires InRounds(slots, saved, n, n, step, r, i) && 4 <= saved <= n
    requires r.j + 1 == Period(n, step, 1) && i >= 2 * n
    ensures AllBusy(slots, saved)
  {
    hide Period, AllBusy, Tried, Gcd;
    MulStep(r.k, Period(n, step, 1));
    if !AllBusy(slots, saved) {
      PeriodAtLeastTwo(n, step);
      EnoughRounds(n, step, r.k + 1, 1);
      AllTried(slots, n, r.base, step, r.k + 1);
      LessBusy(slots, saved, n);
    }
  }

  lemma LessBusy(slots: seq<Probe>, saved: nat, n: nat)
    requires AllBusy(slots, n) && saved <= n
    ensures AllBusy(slots, saved)
  {
  }

  /**
   Big steps from `start0`, which was tried, until a free slot or the key is met or the search has gone on for
   long enough. From the end of a round on, when it has gone on for `saved` steps, it is a search of all `n` slots.
   */
  method GoldenSearch(slots: seq<Probe>, saved: nat, n: nat, start0: nat, step: nat) returns (f: Found)
    requires 4 <= saved <= n <= |slots| && start0 < saved && 0 < step < saved && slots[start0] == Busy
    ensures f.Slot? ==> f.idx < n && slots[f.idx] == Free
    ensures f.Match? ==> f.idx < n && slots[f.idx] == Same
    ensures f.GaveUp? ==> AllBusy(slots, saved)
  {
    hide Period, At, Back, Tried, AllBusy, InRounds;
    var idx, start, length := start0, start0, saved;
    var i: nat := MAX_LINEAR_PROBE;
    ghost var r := Rounds(start0, 0, 0, MAX_LINEAR_PROBE);
    FirstRound(slots, saved, n, start0, step);
    while true
      invariant length == saved || length == n
      invariant 0 <= r.j < Period(length, step, 1) && i <= 2 * length + r.j
      invariant start == At(r.base, r.k, 0, step, length) && idx == At(r.base, r.k, r.j, step, length)
      invariant InRounds(slots, saved, n, length, step, r, i)
      decreases if length == n then 0 else 1, 3 * length - i
    {
      StepInRound(r, step, length);
      idx := Wrap(idx + step, length);
      ghost var next := r.(j := r.j + 1);
      ghost var was := length;
      if idx == start {
        next := Rounds(r.base, r.k + 1, 0, r.began);
        idx := Wrap(idx + 1, length);
        start := Wrap(start + 1, length);
        if i >= length {
          if length != n {
            LongerTable(slots, saved, n, step, r, i);
            StartAt(start, step, n);
            next := Rounds(start, 0, 0, i + 1);
          }
          length := n;
          if i >= length * 2 {
            EnoughTried(slots, saved, n, step, r, i);
            return GaveUp;
          }
        }
      }
      if slots[idx] == Free {
        return Slot(idx);
      }
      if slots[idx] == Same {
        return Match(idx);
      }
      if next.j > 0 {
        NextStep(slots, saved, n, length, step, r, i);
      } else if length == was {
        NextRound(slots, saved, n, length, step, r, i);
      } else {
        NewRounds(slots, saved, n, step, r, i, start);
      }
      r, i := next, i + 1;
    }
  }

  /** A step comes back to where the round started exactly at the end of the round. */
  lemma StepInRound(r: Rounds, step: nat, n: nat)
    requires 0 < step < n && r.j < Period(n, step, 1)
    ensures Wrap(At(r.base, r.k, r.j, step, n) + step, n) == At(r.base, r.k, r.j + 1, step, n)
    ensures Wrap(At(r.base, r.k, 0, step, n) + 1, n) == At(r.base, r.k + 1, 0, step, n)
    ensures At(r.base, r.k, r.j + 1, step, n) == At(r.base, r.k, 0, step, n) <==> r.j + 1 == Period(n, step, 1)
  {
    hide Period, At, Back;
    StepAt(r.base, r.k, r.j, step, n);
    StepAt(r.base, r.k, r.j + 1, step, n);
  }

  lemma FirstRound(slots: seq<Probe>, saved: nat, n: nat, start: nat, step: nat)
    requires 4 <= saved <= n <= |slots| && start < saved && 0 < step < saved && slots[start] == Busy
    ensures At(start, 0, 0, step, saved) == start
    ensures InRounds(slots, saved, n, saved, step, Rounds(start, 0, 0, MAX_LINEAR_PROBE), MAX_LINEAR_PROBE)
  {
    hide Period, At, Tried, AllBusy;
    StartAt(start, step, saved);
    TriedMore(slots, saved, start, step, 0, 0);
  }

  lemma MulStep(a: nat, c: nat)
    ensures (a + 1) * c == a * c + c
  {
  }

  lemma TriedMore(slots: seq<Probe>, n: nat, start: nat, step: nat, k: nat, j: nat)
    requires 0 < n <= |slots| && slots[At(start, k, j, step, n)] == Busy
    requires j > 0 ==> Tried(slots, n, start, step, k, j)
    ensures Tried(slots, n, start, step, k, j + 1)
  {
    hide At;
  }

  lemma StartAt(start: nat, step: nat, n: nat)
    requires start < n
    ensures At(start, 0, 0, step, n) == start
  {
    ModIsUnique(start, n, 0, start);
  }

  /**
   Looks for a slot for a new entry whose home was `home` when the table had `saved` slots; now it has `n`. A likely
   slot is looked at first; that it has the key is noted, and does not end the search.
   */
  /** What slot number i behind the home slot holds. */
  function Near(slots: seq<Probe>, n: nat, home: nat, i: nat): Probe
    requires 0 < n <= |slots|
  {
    slots[(home + i) % n]
  }

  /** Of the slots from number i on behind the home slot, the nearest one that is free or has the key, if any is close. */
  function Nearest(slots: seq<Probe>, n: nat, home: nat, i: nat): Found
    requires 0 < n <= |slots|
    decreases MAX_LINEAR_PROBE + 1 - i
  {
    if i > MAX_LINEAR_PROBE then GaveUp
    else if Near(slots, n, home, i) == Free then Slot((home + i) % n)
    else if Near(slots, n, home, i) == Same then Match((home + i) % n)
    else Nearest(slots, n, home, i + 1)
  }

  lemma NextSlot(i: nat, n: nat)
    requires n > 0
    ensures Wrap(i % n + 1, n) == (i + 1) % n
  {
    WrapIsMod(i % n + 1, n);
    ModAdd(i, 1, n);
  }

  /** The slots next to the home slot, one by one; `idx` is the last that was looked at. */
  method LinearSearch(slots: seq<Probe>, saved: nat, home: nat) returns (f: Found, idx: nat)
    requires 4 <= saved <= |slots| && home < saved && slots[home] == Busy
    ensures f == Nearest(slots, saved, home, 1) && idx < saved
    ensures f.Slot? ==> f.idx == idx && slots[idx] == Free
    ensures f.Match? ==> f.idx == idx && slots[idx] == Same
    ensures f.GaveUp? ==> slots[idx] == Busy
  {
    ModIsUnique(home, saved, 0, home);
    idx := home;
    var i := 0;
    while i < MAX_LINEAR_PROBE
      invariant i <= MAX_LINEAR_PROBE && idx == (home + i) % saved && slots[idx] == Busy
      invariant Nearest(slots, saved, home, 1) == Nearest(slots, saved, home, i + 1)
    {
      NextSlot(home + i, saved);
      idx := Wrap(idx + 1, saved);
      if slots[idx] == Free {
        return Slot(idx), idx;
      }
      if slots[idx] == Same {
        return Match(idx), idx;
      }
      i := i + 1;
    }
    f := GaveUp;
  }

  method Search(slots: seq<Probe>, saved: nat, n: nat, home: nat, likely: nat, hash: nat) returns (f: Found, noted: bool)
    requires 4 <= saved <= n <= |slots| && home < saved && likely < n && hash < 0x1_0000_0000_0000_0000
    // A slot returned is free, a match returned has the key, and giving up means there is neither in the old length.
    ensures f.Slot? ==> f.idx < n && slots[f.idx] == Free
    ensures f.Match? ==> f.idx < n && slots[f.idx] == Same
    ensures f.GaveUp? ==> AllBusy(slots, saved)
    // The home slot decides if it is free or has the key; then the likely slot if it is free.
    ensures slots[home] == Free ==> f == Slot(home)
    ensures slots[home] == Same ==> f == Match(home)
    ensures slots[home] == Busy && likely > 0 && slots[likely] == Free ==> f == Slot(likely)
    ensures noted <==> slots[home] == Busy && likely > 0 && slots[likely] == Same
    // Then the slots next to the home slot, the nearest first.
    ensures slots[home] == Busy && (likely == 0 || slots[likely] != Free) && Nearest(slots, saved, home, 1) != GaveUp ==>
              f == Nearest(slots, saved, home, 1)
  {
    noted := false;
    if slots[home] == Free {
      return Slot(home), false;
    } else if slots[home] == Same {
      return Match(home), false;
    } else if likely > 0 {
      if slots[likely] == Free {
        return Slot(likely), false;
      }
      noted := slots[likely] == Same;
    }
    var idx;
    f, idx := LinearSearch(slots, saved, home);
    if f != GaveUp {
      return;
    }
    IncrementInRange(hash, saved);
    f := GoldenSearch(slots, saved, n, idx, FastRange64(GOLDEN + hash / 64, saved));
  }
}
