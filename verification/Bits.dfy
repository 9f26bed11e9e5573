/** Powers of two, low bits of a hash, and floor(log2), as the block cache uses them. */
module Bits {

  function Pow2(n: nat): (p: nat)
    ensures p > 0
  {
    if n == 0 then 1 else 2 * Pow2(n - 1)
  }

  /** The lowest n bits of h. */
  function BottomBits(h: nat, n: nat): (r: nat)
    ensures r < Pow2(n)
  {
    h % Pow2(n)
  }

  /** Bit n of h, counted from the lowest. */
  function Bit(h: nat, n: nat): (b: nat)
    ensures b < 2
  {
    (h / Pow2(n)) % 2
  }

  function FloorLog2(v: nat): (s: nat)
    requires v > 0
    ensures Pow2(s) <= v < 2 * Pow2(s)
  {
    if v == 1 then 0 else FloorLog2(v / 2) + 1
  }

  lemma {:induction false} Pow2Monotone(a: nat, b: nat)
    requires a <= b
    ensures Pow2(a) <= Pow2(b)
    decreases b
  {
    if a < b {
      Pow2Monotone(a, b - 1);
    }
  }

  lemma {:induction false} Pow2Strict(a: nat, b: nat)
    requires a < b
    ensures 2 * Pow2(a) <= Pow2(b)
  {
    Pow2Monotone(a + 1, b);
  }

  lemma {:induction false} Pow2Add(a: nat, b: nat)
    ensures Pow2(a + b) == Pow2(a) * Pow2(b)
    decreases b
  {
    if b > 0 {
      Pow2Add(a, b - 1);
      assert Pow2(a) * Pow2(b) == 2 * (Pow2(a) * Pow2(b - 1));
    }
  }

  /** floor(log2) is pinned down by its two bounds. */
  lemma FloorLog2Unique(v: nat, s: nat)
    requires v > 0
    requires Pow2(s) <= v < 2 * Pow2(s)
    ensures FloorLog2(v) == s
  {
    var t := FloorLog2(v);
    if s < t {
      Pow2Strict(s, t);
    } else if t < s {
      Pow2Strict(t, s);
    }
  }

  lemma ModDouble(h: nat, p: nat)
    requires p > 0
    ensures h % (2 * p) == h % p + p * ((h / p) % 2)
  {
    var q, r := h / p, h % p;
    var c, b := q / 2, q % 2;
    assert h == p * q + r;
    assert p * q == p * (2 * c + b) == (2 * p) * c + p * b;
    assert p * b <= p;
    var low := p * b + r;
    assert low < 2 * p by {
      if b == 0 { assert p * b == 0; } else { assert p * b == p; }
    }
    ModIsUnique(h, 2 * p, c, low);
  }

  lemma ModIsUnique(h: int, m: int, c: int, low: int)
    requires m > 0 && 0 <= low < m
    requires h == m * c + low
    ensures h % m == low
    ensures h / m == c
  {
    var d := h / m;
    assert h == m * d + h % m;
    assert m * (d - c) == low - h % m;
    SmallMultipleIsZero(m, d - c);
  }

  lemma SmallMultipleIsZero(m: int, k: int)
    requires m > 0 && -m < m * k < m
    ensures k == 0
  {
  }

  /** One more hash bit either keeps the low bits or adds that bit on top of them. */
  lemma BottomBitsStep(h: nat, n: nat)
    ensures BottomBits(h, n + 1) == BottomBits(h, n) + Pow2(n) * Bit(h, n)
  {
    ModDouble(h, Pow2(n));
  }

  lemma Pow2At32()
    ensures Pow2(32) == 0x1_0000_0000
  {
    hide Pow2;
    Pow2Add(16, 16);
    Pow2Add(8, 8);
    Pow2At8();
  }

  lemma Pow2At8()
    ensures Pow2(8) == 256
  {
    assert Pow2(4) == 16;
  }

  lemma Pow2At64()
    ensures Pow2(64) == 0x1_0000_0000_0000_0000
  {
    hide Pow2;
    Pow2Add(32, 32);
    Pow2At32();
  }
}
