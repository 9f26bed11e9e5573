/**
 Double hashing in a table of 2^bits slots: the i-th probe of a key is base + i * increment, with an odd
 increment, so that the probe path visits every slot exactly once. Per slot, the table counts the entries
 whose probe path passes over it.
 */
module ProbePath {
  import opened Bits
  import opened HashedKeys
  import opened SlotSearch
  import opened SlotMeta

  /** The odd increment of a key. */
  function Increment(k: Key): (i: nat)
    ensures i % 2 == 1
  {
    if k.id % 2 == 1 then k.id else k.id + 1
  }

  /** The slot of the i-th probe. */
  function Probed(bits: nat, k: Key, i: nat): (x: nat)
    ensures x < Pow2(bits)
  {
    At(k.hash, 0, i, Increment(k), Pow2(bits))
  }

  lemma NextProbe(bits: nat, k: Key, i: nat)
    ensures BottomBits(Probed(bits, k, i) + Increment(k), bits) == Probed(bits, k, i + 1)
  {
    hide Increment, Pow2, At;
    AtStep(k.hash, i, Increment(k), Pow2(bits));
  }

  lemma AtStep(start: nat, j: nat, step: nat, n: nat)
    requires n > 0
    ensures (At(start, 0, j, step, n) + step) % n == At(start, 0, j + 1, step, n)
  {
    hide At;
    var x := AtIs(start, j, step, n);
    var z := AtIs(start, j + 1, step, n);
    MulStep(j, step);
    ModAddTo(x, step, z, n);
  }

  lemma AtIs(start: nat, j: nat, step: nat, n: nat) returns (x: nat)
    requires n > 0
    ensures x == start + j * step && At(start, 0, j, step, n) == x % n
  {
    x := start + j * step;
  }

  lemma ModAddTo(x: nat, y: nat, z: nat, n: nat)
    requires n > 0 && z == x + y
    ensures (x % n + y) % n == z % n
  {
    ModAdd(x, y, n);
  }

  /** An odd factor does not hide a power of two. */
  lemma {:induction false} OddCancels(bits: nat, d: nat, inc: nat)
    requires inc % 2 == 1 && (d * inc) % Pow2(bits) == 0
    ensures d % Pow2(bits) == 0
  {
    if bits > 0 {
      var p := Pow2(bits - 1);
      var q := Halve(d * inc, p);
      EvenFactor(d, inc, p * q);
      var e := d / 2;
      HalfProduct(d, e, inc, p, q);
      OddCancels(bits - 1, e, inc);
      DoubleMultiple(d, e, p);
    } else {
      ModIsUnique(d, 1, d, 0);
    }
  }

  lemma Halve(x: nat, p: nat) returns (q: nat)
    requires p > 0 && x % (2 * p) == 0
    ensures x == 2 * (p * q)
  {
    q := x / (2 * p);
    assert x == (2 * p) * q;
    Swap(2, p, q);
  }

  lemma HalfProduct(d: nat, e: nat, inc: nat, p: nat, q: nat)
    requires p > 0 && d == 2 * e && d * inc == 2 * (p * q)
    ensures (e * inc) % p == 0
  {
    Swap(2, e, inc);
    ModIsUnique(e * inc, p, q, 0);
  }

  lemma DoubleMultiple(d: nat, e: nat, p: nat)
    requires p > 0 && d == 2 * e && e % p == 0
    ensures d % (2 * p) == 0
  {
    var c := e / p;
    assert e == p * c;
    Swap(2, p, c);
    ModIsUnique(d, 2 * p, c, 0);
  }

  lemma EvenFactor(d: nat, inc: nat, h: nat)
    requires inc % 2 == 1 && d * inc == 2 * h
    ensures d % 2 == 0
  {
    var c := inc / 2;
    assert d * inc == 2 * (d * c) + d by {
      assert inc == 2 * c + 1;
      assert d * (2 * c + 1) == d * (2 * c) + d;
      Swap(d, 2, c);
      Swap(2, d, c);
    }
    assert d == 2 * (h - d * c);
  }

  lemma FullPeriod(bits: nat, inc: nat)
    requires inc % 2 == 1
    ensures Period(Pow2(bits), inc, 1) == Pow2(bits)
  {
    var n := Pow2(bits);
    var c := Period(n, inc, 1);
    OddCancels(bits, c, inc);
    if c < n {
      ModIsUnique(c, n, 0, c);
    }
  }

  /** No two probes within one round meet. */
  lemma ProbesDiffer(bits: nat, k: Key, i: nat, j: nat)
    requires i < j < Pow2(bits)
    ensures Probed(bits, k, i) != Probed(bits, k, j)
  {
    hide Increment, At, Pow2;
    var n, inc := Pow2(bits), Increment(k);
    if Probed(bits, k, i) == Probed(bits, k, j) {
      var x := AtIs(k.hash, i, inc, n);
      var z := AtIs(k.hash, j, inc, n);
      Apart(i, j, inc);
      SameMod(x, (j - i) * inc, n);
      OddCancels(bits, j - i, inc);
      ModIsUnique(j - i, n, 0, j - i);
    }
  }

  lemma Apart(i: nat, j: nat, inc: nat)
    requires i < j
    ensures j * inc == i * inc + (j - i) * inc
  {
  }

  /** Some probe within one round meets each slot. */
  lemma ProbesCover(bits: nat, k: Key, x: nat) returns (i: nat)
    requires x < Pow2(bits)
    ensures i < Pow2(bits) && Probed(bits, k, i) == x
  {
    hide Increment, Pow2, Period, Gcd, At;
    var r;
    FullPeriod(bits, Increment(k));
    EnoughRounds(Pow2(bits), Increment(k), 1, 0);
    r, i := EverySlot(k.hash, Increment(k), Pow2(bits), 1, x);
  }

  /** At which probe a key meets slot x. */
  ghost function Pos(bits: nat, k: Key, x: nat): (i: nat)
    requires x < Pow2(bits)
    ensures i < Pow2(bits) && Probed(bits, k, i) == x
  {
    assert exists i: nat :: i < Pow2(bits) && Probed(bits, k, i) == x by {
      var i := ProbesCover(bits, k, x);
    }
    var i: nat :| i < Pow2(bits) && Probed(bits, k, i) == x;
    i
  }

  lemma PosOfProbe(bits: nat, k: Key, i: nat)
    requires i < Pow2(bits)
    ensures Pos(bits, k, Probed(bits, k, i)) == i
  {
    var j := Pos(bits, k, Probed(bits, k, i));
    if i < j {
      ProbesDiffer(bits, k, i, j);
    } else if j < i {
      ProbesDiffer(bits, k, j, i);
    }
  }

  // ---- Counting displacements ----

  /** The entry in slot y, if there is one, probed slot x before it found y. */
  ghost predicate Passes(bits: nat, m: Meta, k: Key, y: nat, x: nat)
    requires x < Pow2(bits) && y < Pow2(bits)
  {
    m.state != Empty && Pos(bits, k, x) < Pos(bits, k, y)
  }

  /** How many of the first n slots hold an entry that passed over slot x. */
  ghost function CountTo(bits: nat, meta: seq<Meta>, key: seq<Key>, x: nat, n: nat): nat
    requires |meta| == |key| == Pow2(bits) && x < Pow2(bits) && n <= Pow2(bits)
  {
    if n == 0 then 0
    else CountTo(bits, meta, key, x, n - 1) + if Passes(bits, meta[n - 1], key[n - 1], n - 1, x) then 1 else 0
  }

  /** Each slot's counter is exact. */
  ghost predicate Exact(bits: nat, meta: seq<Meta>, key: seq<Key>, disp: seq<int>)
  {
    && |meta| == |key| == |disp| == Pow2(bits)
    && forall x :: 0 <= x < |disp| ==> disp[x] == CountTo(bits, meta, key, x, Pow2(bits))
  }

  lemma {:induction false} CountPositive(bits: nat, meta: seq<Meta>, key: seq<Key>, x: nat, n: nat, y: nat)
    requires |meta| == |key| == Pow2(bits) && x < Pow2(bits) && n <= Pow2(bits)
    requires y < n && Passes(bits, meta[y], key[y], y, x)
    ensures CountTo(bits, meta, key, x, n) > 0
  {
    if y < n - 1 {
      CountPositive(bits, meta, key, x, n - 1, y);
    }
  }

  /** A change of one slot changes each count by what that slot contributes. */
  lemma {:induction false} CountChange(bits: nat, meta: seq<Meta>, key: seq<Key>, x: nat, n: nat, y: nat, m: Meta, k: Key)
    requires |meta| == |key| == Pow2(bits) && x < Pow2(bits) && n <= Pow2(bits) && y < Pow2(bits)
    ensures CountTo(bits, meta[y := m], key[y := k], x, n) ==
            CountTo(bits, meta, key, x, n) +
            if y < n then (if Passes(bits, m, k, y, x) then 1 else 0) - (if Passes(bits, meta[y], key[y], y, x) then 1 else 0)
            else 0
  {
    hide Passes;
    if n > 0 {
      CountChange(bits, meta, key, x, n - 1, y, m, k);
    }
  }

  lemma {:induction false} CountSame(bits: nat, meta: seq<Meta>, meta': seq<Meta>, key: seq<Key>, x: nat, n: nat)
    requires |meta| == |meta'| == |key| == Pow2(bits) && x < Pow2(bits) && n <= Pow2(bits)
    requires forall y :: 0 <= y < |meta| ==> (meta'[y].state == Empty <==> meta[y].state == Empty)
    ensures CountTo(bits, meta', key, x, n) == CountTo(bits, meta, key, x, n)
  {
    if n > 0 {
      CountSame(bits, meta, meta', key, x, n - 1);
    }
  }

  /** One more on each of the first hi slots of the probe path of k, or one less. */
  ghost function Raised(bits: nat, disp: seq<int>, k: Key, hi: nat, d: int): seq<int>
    requires |disp| == Pow2(bits)
  {
    seq(|disp|, x requires 0 <= x < |disp| => disp[x] + if Pos(bits, k, x) < hi then d else 0)
  }

  lemma RaiseNext(bits: nat, disp: seq<int>, k: Key, i: nat, d: int)
    requires |disp| == Pow2(bits) && i < Pow2(bits)
    ensures var r := Raised(bits, disp, k, i, d); var x := Probed(bits, k, i);
            Raised(bits, disp, k, i + 1, d) == r[x := r[x] + d]
  {
    hide Pos, Probed;
    PosOfProbe(bits, k, i);
    var r, x := Raised(bits, disp, k, i, d), Probed(bits, k, i);
    var u, v := Raised(bits, disp, k, i + 1, d), r[x := r[x] + d];
    forall y | 0 <= y < |disp|
      ensures u[y] == v[y]
    {
      assert Probed(bits, k, Pos(bits, k, y)) == y;
    }
  }

  lemma RaiseNone(bits: nat, disp: seq<int>, k: Key, d: int)
    requires |disp| == Pow2(bits)
    ensures Raised(bits, disp, k, 0, d) == disp
  {
  }

  lemma RaiseUndo(bits: nat, disp: seq<int>, k: Key, hi: nat)
    requires |disp| == Pow2(bits)
    ensures Raised(bits, Raised(bits, disp, k, hi, 1), k, hi, -1) == disp
  {
  }

  /** Filling slot y, found after passing the slots before it, keeps the counters exact. */
  lemma FillExact(bits: nat, meta: seq<Meta>, key: seq<Key>, disp: seq<int>, y: nat, m: Meta, k: Key)
    requires Exact(bits, meta, key, disp) && y < Pow2(bits) && meta[y].state == Empty && m.state != Empty
    ensures Exact(bits, meta[y := m], key[y := k], Raised(bits, disp, k, Pos(bits, k, y), 1))
  {
    hide Pos, CountTo;
    forall x | 0 <= x < |disp|
      ensures Raised(bits, disp, k, Pos(bits, k, y), 1)[x] == CountTo(bits, meta[y := m], key[y := k], x, Pow2(bits))
    {
      CountChange(bits, meta, key, x, Pow2(bits), y, m, k);
    }
  }

  /** Emptying slot y, with its path rolled back, keeps the counters exact. */
  lemma ClearExact(bits: nat, meta: seq<Meta>, key: seq<Key>, disp: seq<int>, y: nat, m: Meta)
    requires Exact(bits, meta, key, disp) && y < Pow2(bits) && meta[y].state != Empty && m.state == Empty
    ensures Exact(bits, meta[y := m], key, Raised(bits, disp, key[y], Pos(bits, key[y], y), -1))
  {
    hide Pos, CountTo;
    assert key[y := key[y]] == key;
    forall x | 0 <= x < |disp|
      ensures Raised(bits, disp, key[y], Pos(bits, key[y], y), -1)[x] == CountTo(bits, meta[y := m], key, x, Pow2(bits))
    {
      CountChange(bits, meta, key, x, Pow2(bits), y, m, key[y]);
    }
  }

  lemma SameExact(bits: nat, meta: seq<Meta>, meta': seq<Meta>, key: seq<Key>, disp: seq<int>)
    requires Exact(bits, meta, key, disp) && |meta'| == |meta|
    requires forall y :: 0 <= y < |meta| ==> (meta'[y].state == Empty <==> meta[y].state == Empty)
    ensures Exact(bits, meta', key, disp)
  {
    hide CountTo;
    forall x | 0 <= x < |disp|
      ensures disp[x] == CountTo(bits, meta', key, x, Pow2(bits))
    {
      CountSame(bits, meta, meta', key, x, Pow2(bits));
    }
  }

  /** An entry with key k in slot y has been counted on every slot of the path of k before y. */
  lemma PathIsCounted(bits: nat, meta: seq<Meta>, key: seq<Key>, disp: seq<int>, k: Key, y: nat, i: nat)
    requires Exact(bits, meta, key, disp) && y < Pow2(bits) && meta[y].state != Empty && key[y] == k
    requires i < Pos(bits, k, y)
    ensures disp[Probed(bits, k, i)] > 0
  {
    hide Probed;
    PosOfProbe(bits, k, i);
    CountPositive(bits, meta, key, Probed(bits, k, i), Pow2(bits), y);
  }
}
