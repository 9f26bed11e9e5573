/**
 The metadata word of a cache slot. One 64-bit word holds the state of the slot, a counter of
 acquired references, a counter of released references and a hit flag. `Meta` is the word taken
 apart; `Pack` and the lemmas beside it say when the atomic operations on the word act on one
 field alone.
 */
module SlotMeta {
  import opened Bits

  datatype State = Empty | Construction | Invisible | Visible

  datatype Meta = Meta(state: State, acquire: nat, release: nat, hit: bool) {
    predicate Shareable() { state == Visible || state == Invisible }

    /** References held: acquired and not released. */
    function Refs(): int { acquire - release }
  }

  const EmptyMeta: Meta := Meta(Empty, 0, 0, false)

  // During a clock update any countdown above this counts as this.
  const MAX_COUNTDOWN: nat := 3

  function Min(a: nat, b: nat): nat { if a < b then a else b }

  /** One visit of the eviction clock: the slot's new metadata. */
  function ClockUpdate(m: Meta): Meta
  {
    if !m.Shareable() || m.acquire != m.release then m
    else if m.state == Visible && m.acquire > 0 then
      var n := Min(m.acquire - 1, MAX_COUNTDOWN - 1);
      Meta(Visible, n, n, m.hit)
    else Meta(Construction, 0, 0, m.hit)
  }

  /** Whether that visit took the entry for eviction. */
  predicate Evicts(m: Meta)
  {
    m.Shareable() && m.acquire == m.release && (m.state == Visible ==> m.acquire == 0)
  }

  /** A visit to a pinned entry is wasted effort. */
  predicate SeenPinned(m: Meta)
  {
    m.Shareable() && m.acquire != m.release
  }

  // ---- What whole operations do to a slot, when no other thread is at work ----

  function Unref(m: Meta): Meta { if m.acquire > 0 then m.(acquire := m.acquire - 1) else m }

  /** A reference given back, counted as a use or not. */
  function GivenBack(m: Meta, useful: bool): Meta
  {
    if useful then m.(release := m.release + 1) else Unref(m)
  }

  /** References taken and released again, which counts as use. */
  function Boosted(m: Meta, countdown: nat): Meta
  {
    m.(acquire := m.acquire + countdown, release := m.release + countdown)
  }

  /** The metadata of a new entry; without a reference to hand out, the inserter takes its own one back. */
  function NewMeta(countdown: nat, takeRef: bool): Meta
    requires countdown > 0
  {
    Meta(Visible, if takeRef then countdown else countdown - 1, countdown - 1, false)
  }

  /** An erased entry is freed, or hidden if it is still referenced. */
  function Erased(m: Meta): Meta { if m.Refs() == 0 then EmptyMeta else m.(state := Invisible) }

  /** A clock update, with the slot emptied if it took the entry. */
  function AfterEvict(m: Meta): Meta { if Evicts(m) then EmptyMeta else ClockUpdate(m) }

  /** No thread is in the middle of freeing an entry, and no more references were released than acquired. */
  ghost predicate AtRest(meta: seq<Meta>)
  {
    forall x :: 0 <= x < |meta| ==> meta[x].state != Construction && (meta[x].Shareable() ==> meta[x].release <= meta[x].acquire)
  }

  // ---- Repeated clock updates ----

  function Visits(m: Meta, n: nat): Meta
  {
    if n == 0 then m else ClockUpdate(Visits(m, n - 1))
  }

  /**
   An unpinned visible entry with countdown c survives min(c, 3) visits and is taken by the next one.
   In between, its countdown is min(c, 3) minus the number of visits so far.
   */
  lemma {:induction false} VisitsCountDown(m: Meta, n: nat)
    requires m.state == Visible && m.acquire == m.release
    ensures n <= Min(m.acquire, MAX_COUNTDOWN) ==>
              var v := Visits(m, n);
              v.state == Visible && v.release == v.acquire &&
              v.acquire == if n == 0 then m.acquire else Min(m.acquire, MAX_COUNTDOWN) - n
    ensures n == Min(m.acquire, MAX_COUNTDOWN) + 1 ==> Evicts(Visits(m, n - 1)) && Visits(m, n).state == Construction
  {
    if n > 0 {
      VisitsCountDown(m, n - 1);
    }
  }

  // ---- The packed word ----

  const C29: nat := 0x2000_0000
  const C30: nat := 0x4000_0000
  const C60: nat := 0x1000_0000_0000_0000
  const C61: nat := 0x2000_0000_0000_0000
  const C64: nat := 0x1_0000_0000_0000_0000

  function StateBits(s: State): (b: nat)
    ensures b < 8
  {
    match s
    case Empty => 0
    case Construction => 4
    case Invisible => 6
    case Visible => 7
  }

  function BitsToState(b: nat): State
  {
    if b == 0 then Empty else if b == 4 then Construction else if b == 6 then Invisible else Visible
  }

  predicate Fits(m: Meta) { m.acquire < C30 && m.release < C30 }

  function Pack(m: Meta): nat
  {
    m.acquire + C30 * m.release + C60 * (if m.hit then 1 else 0) + C61 * StateBits(m.state)
  }

  function AcquireField(w: nat): nat { w % C30 }
  function ReleaseField(w: nat): nat { w / C30 % C30 }
  function HitField(w: nat): nat { w / C60 % 2 }
  function StateField(w: nat): nat { w / C61 }

  function Unpack(w: nat): Meta
  {
    Meta(BitsToState(StateField(w)), AcquireField(w), ReleaseField(w), HitField(w) == 1)
  }

  lemma WordFields(a: nat, r: nat, h: nat, s: nat)
    requires a < C30 && r < C30 && h < 2 && s < 8
    ensures var w := a + C30 * r + C60 * h + C61 * s;
            && w < C64
            && AcquireField(w) == a && ReleaseField(w) == r && HitField(w) == h && StateField(w) == s
  {
    var w := a + C30 * r + C60 * h + C61 * s;
    var high := r + C30 * h + 2 * C30 * s;
    ModIsUnique(w, C30, high, a);
    ModIsUnique(high, C30, h + 2 * s, r);
    ModIsUnique(w, C60, h + 2 * s, a + C30 * r);
    ModIsUnique(w, C61, s, a + C30 * r + C60 * h);
  }

  lemma PackRoundTrip(m: Meta)
    requires Fits(m)
    ensures Pack(m) < C64 && Unpack(Pack(m)) == m
  {
    WordFields(m.acquire, m.release, if m.hit then 1 else 0, StateBits(m.state));
  }

  lemma BelowCounter(w: nat)
    ensures AcquireField(w) < C30 && ReleaseField(w) < C30
  {
  }

  lemma InWord(w: nat)
    requires w < C64
    ensures w % C64 == w
  {
  }

  // The atomic operations on the word. All arithmetic is modulo 2^64.

  function FetchAddAcquire(w: nat, n: nat): nat { (w + n) % C64 }
  function FetchSubAcquire(w: nat, n: nat): nat { (w - n) % C64 }
  function FetchAddRelease(w: nat, n: nat): nat { (w + C30 * n) % C64 }
  /** Bitwise or with the occupied bit of the state, which is the top bit of the word. */
  function FetchOrOccupied(w: nat): nat { if w / (4 * C61) % 2 == 0 then w + 4 * C61 else w }
  /** Bitwise and with everything but the visible bit of the state. */
  function FetchAndNotVisible(w: nat): nat { if w / C61 % 2 == 1 then w - C61 else w }
  function GetRefcount(w: nat): nat { (w - w / C30) % C30 }

  /** Adding to the acquire counter touches that field alone exactly while it does not overflow. */
  lemma AcquireIsFieldwise(m: Meta, n: nat)
    requires Fits(m) && n < C30
    ensures Unpack(FetchAddAcquire(Pack(m), n)) == m.(acquire := m.acquire + n) <==> m.acquire + n < C30
    ensures m.acquire + n < C30 ==> FetchAddAcquire(Pack(m), n) == Pack(m.(acquire := m.acquire + n))
  {
    hide AcquireField, ReleaseField, HitField, StateField;
    var h, s := if m.hit then 1 else 0, StateBits(m.state);
    if m.acquire + n < C30 {
      WordFields(m.acquire + n, m.release, h, s);
      InWord(Pack(m) + n);
    } else {
      BelowCounter(FetchAddAcquire(Pack(m), n));
    }
  }

  /** Adding to the release counter touches that field alone exactly while it does not overflow. */
  lemma ReleaseIsFieldwise(m: Meta, n: nat)
    requires Fits(m) && n < C30
    ensures Unpack(FetchAddRelease(Pack(m), n)) == m.(release := m.release + n) <==> m.release + n < C30
    ensures m.release + n < C30 ==> FetchAddRelease(Pack(m), n) == Pack(m.(release := m.release + n))
  {
    hide AcquireField, ReleaseField, HitField, StateField;
    var h, s := if m.hit then 1 else 0, StateBits(m.state);
    if m.release + n < C30 {
      WordFields(m.acquire, m.release + n, h, s);
      InWord(Pack(m) + C30 * n);
    } else {
      BelowCounter(FetchAddRelease(Pack(m), n));
    }
  }

  /** Undoing an acquire touches that field alone as long as there is one to undo. */
  lemma UnrefIsFieldwise(m: Meta, n: nat)
    requires Fits(m) && n <= m.acquire
    ensures FetchSubAcquire(Pack(m), n) == Pack(m.(acquire := m.acquire - n))
  {
    hide AcquireField, ReleaseField, HitField, StateField;
    WordFields(m.acquire - n, m.release, if m.hit then 1 else 0, StateBits(m.state));
    InWord(Pack(m) - n);
  }

  /** The masked difference of the counters is the number of references held. */
  lemma RefcountOfWord(m: Meta)
    requires Fits(m)
    ensures GetRefcount(Pack(m)) == m.Refs() % C30
    ensures m.release <= m.acquire ==> GetRefcount(Pack(m)) == m.Refs()
    ensures GetRefcount(Pack(m)) == 0 <==> m.Refs() == 0
  {
    var h, s := if m.hit then 1 else 0, StateBits(m.state);
    var high := m.release + C30 * h + 2 * C30 * s;
    ModIsUnique(Pack(m), C30, high, m.acquire);
    RefcountMod(m.acquire, m.release, high, h + 2 * s);
  }

  lemma RefcountMod(a: nat, r: nat, high: nat, k: nat)
    requires high == r + C30 * k && r < C30
    ensures (a + C30 * high - high) % C30 == (a - r) % C30
  {
    var d := (a - r) % C30;
    var q := (a - r) / C30;
    ModIsUnique(a + C30 * high - high, C30, q + high - k, d);
  }

  /** Setting the occupied bit takes an empty slot into construction and leaves every other state. */
  lemma OccupyWord(m: Meta)
    requires Fits(m)
    ensures FetchOrOccupied(Pack(m)) == Pack(if m.state == Empty then m.(state := Construction) else m)
  {
    var h, s := if m.hit then 1 else 0, StateBits(m.state);
    WordFields(m.acquire, m.release, h, s);
    WordFields(m.acquire, m.release, h, 4);
    ModIsUnique(Pack(m), 4 * C61, s / 4, m.acquire + C30 * m.release + C60 * h + C61 * (s % 4));
  }

  /** Clearing the visible bit hides a visible entry and leaves every other state. */
  lemma HideWord(m: Meta)
    requires Fits(m)
    ensures FetchAndNotVisible(Pack(m)) == Pack(if m.state == Visible then m.(state := Invisible) else m)
  {
    var h, s := if m.hit then 1 else 0, StateBits(m.state);
    WordFields(m.acquire, m.release, h, s);
    WordFields(m.acquire, m.release, h, 6);
  }

  // ---- Correction of counters near overflow ----

  function TopBit(c: nat): nat { c / C29 % 2 }
  function ClearTop(c: nat): nat { c % C29 }

  /** Whether a word makes the correction fire: on the top bit or on bit 2 of the release counter. */
  predicate Fires(tested: Meta) { TopBit(tested.release) == 1 || tested.release / 4 % 2 == 1 }

  /** The correction as the code makes it: it tests the word from before its own update, and corrects the present one. */
  function CorrectNearOverflow(tested: Meta, m: Meta): Meta
  {
    if Fires(tested) then m.(acquire := ClearTop(m.acquire), release := ClearTop(m.release)) else m
  }

  /** Below the top bit the correction never changes anything, although bit 2 makes it fire. */
  lemma CorrectionIsIdle(tested: Meta, m: Meta)
    requires m.acquire < C29 && m.release < C29
    ensures CorrectNearOverflow(tested, m) == m
  {
  }

  /** It keeps the number of references if and only if it does not fire or both top bits of the present word agree. */
  lemma CorrectionKeepsRefs(tested: Meta, m: Meta)
    requires Fits(m)
    ensures CorrectNearOverflow(tested, m).Refs() == m.Refs() <==> !Fires(tested) || TopBit(m.acquire) == TopBit(m.release)
  {
    assert m.acquire == C29 * TopBit(m.acquire) + ClearTop(m.acquire);
    assert m.release == C29 * TopBit(m.release) + ClearTop(m.release);
  }

  /**
   Two references on an entry that was used very often, and one of them is released: bit 2 of the release counter
   makes it fire, and as only the acquire counter is at its top bit the reference that is left turns into -2^29 + 1.
   */
  lemma CorrectionCanLoseRefs()
    ensures var tested := Meta(Visible, C29, C29 - 2, false);
            var m := tested.(release := tested.release + 1);
            tested.Refs() == 2 && m.Refs() == 1 && CorrectNearOverflow(tested, m).Refs() == 1 - C29
  {
    assert (C29 - 2) / 4 % 2 == 1;
  }
}
