/**
 The slot protocol on the packed word. The code has one 64-bit word and changes it by atomic arithmetic; each of
 these operations does to the word what the protocol does to the fields, as long as the counters do not overflow.
 */
module SlotWords {
  import opened Bits
  import opened SlotMeta
  import opened SlotProtocol

  // ---- What the code does to the word ----

  /** Bitwise or with the hit bit. */
  function FetchOrHit(w: nat): nat { if HitField(w) == 0 then w + C60 else w }

  predicate IsShareable(w: nat) { StateField(w) / 2 % 2 == 1 }

  function StoreVisible(countdown: nat, kept: nat): int { C61 * 7 + countdown + C30 * (countdown - kept) }

  const ConstructionWord: nat := C61 * 4

  /** The clock update, computed from the fields of a word. */
  function ClockWord(w: nat): nat
  {
    var acquire, release := AcquireField(w), ReleaseField(w);
    if !IsShareable(w) || acquire != release then w
    else if StateField(w) == 7 && acquire > 0 then
      var n := Min(acquire - 1, MAX_COUNTDOWN - 1);
      C61 * 7 + C60 * HitField(w) + C30 * n + n
    else ConstructionWord + C60 * HitField(w)
  }

  /** Clears the top bits of both counters if the tested word says so. */
  function CorrectWord(tested: nat, w: nat): int
  {
    if TopBit(ReleaseField(tested)) == 1 || ReleaseField(tested) / 4 % 2 == 1
    then w - C29 * TopBit(AcquireField(w)) - C30 * (C29 * TopBit(ReleaseField(w)))
    else w
  }

  /** A compare-and-swap, which may fail for no reason. */
  function Swapped(w: nat, expected: nat, desired: nat, spurious: bool): nat
  {
    if w == expected && !spurious then desired else w
  }

  function WordStep(w: nat, a: Agent, act: Action): int
  {
    match act
    case Occupy => FetchOrOccupied(w)
    case Publish(c, keep) => StoreVisible(c, if keep then 1 else 0)
    case Acquire(n) => FetchAddAcquire(w, n)
    case Boost => if a.Acquired? then FetchAddRelease(w, a.n) else w
    case TakeBack => FetchSubAcquire(w, RefsOf(a))
    case MarkHit => FetchOrHit(w)
    case AddRef(_) => FetchAddAcquire(w, 1)
    case Release(useful, _) => if useful then FetchAddRelease(w, 1) else FetchSubAcquire(w, 1)
    case Hide => FetchAndNotVisible(w)
    case EraseStep(spurious) =>
      if a.Erasing? && GetRefcount(Pack(a.saved)) == 1 then Swapped(w, Pack(a.saved), ConstructionWord, spurious) else w
    case ReclaimStep(spurious) =>
      if a.Reclaiming? && GetRefcount(Pack(a.saved)) == 0 && IsShareable(Pack(a.saved))
      then Swapped(w, Pack(a.saved), ConstructionWord, spurious) else w
    case ClockStep => if a.Clocking? then Swapped(w, Pack(a.saved), ClockWord(Pack(a.saved)), false) else w
    case Clear => 0
    case Correct(tested) => CorrectWord(Pack(tested), w)
    case _ => w
  }

  // ---- Words and fields ----

  lemma Fields(m: Meta)
    requires Fits(m)
    ensures AcquireField(Pack(m)) == m.acquire && ReleaseField(Pack(m)) == m.release
    ensures HitField(Pack(m)) == (if m.hit then 1 else 0) && StateField(Pack(m)) == StateBits(m.state)
    ensures IsShareable(Pack(m)) <==> m.Shareable()
  {
    hide AcquireField, ReleaseField, HitField, StateField;
    WordFields(m.acquire, m.release, if m.hit then 1 else 0, StateBits(m.state));
  }

  lemma PackInjective(m: Meta, m': Meta)
    requires Fits(m) && Fits(m')
    ensures Pack(m) == Pack(m') <==> m == m'
  {
    hide Unpack, Pack;
    PackRoundTrip(m);
    PackRoundTrip(m');
  }

  lemma ClockWordIs(m: Meta)
    requires Fits(m)
    ensures ClockWord(Pack(m)) == Pack(ClockUpdate(m))
  {
    hide AcquireField, ReleaseField, HitField, StateField, IsShareable;
    Fields(m);
  }

  lemma CorrectWordIs(tested: Meta, m: Meta)
    requires Fits(tested) && Fits(m)
    ensures CorrectWord(Pack(tested), Pack(m)) == Pack(CorrectNearOverflow(tested, m))
  {
    hide AcquireField, ReleaseField, HitField, StateField;
    Fields(tested);
    Fields(m);
    assert m.acquire == C29 * TopBit(m.acquire) + ClearTop(m.acquire);
    assert m.release == C29 * TopBit(m.release) + ClearTop(m.release);
  }

  lemma HitWord(m: Meta)
    requires Fits(m)
    ensures FetchOrHit(Pack(m)) == Pack(m.(hit := true))
  {
    hide HitField;
    Fields(m);
  }

  /** What a thread remembers of the word is a word; if it holds a reference, one with counters below their top bits. */
  predicate SavedOk(a: Agent)
  {
    match a
    case Erasing(saved, _) => Bounded(saved)
    case Reclaiming(saved) => Fits(saved)
    case Clocking(saved) => Fits(saved)
    case _ => true
  }

  lemma OneReference(m: Meta)
    requires Bounded(m)
    ensures GetRefcount(Pack(m)) == 1 <==> m.Refs() == 1
  {
    hide Pack, GetRefcount;
    RefcountOfWord(m);
    if m.Refs() < 0 {
      ModIsUnique(m.Refs(), C30, -1, m.Refs() + C30);
    } else {
      ModIsUnique(m.Refs(), C30, 0, m.Refs());
    }
  }

  // ---- Every step ----

  lemma ArithmeticStep(s: Slot, i: nat, act: Action)
    requires Inv(s) && Enabled(s, i, act) && Bounded(s.meta) && Fits(Next(s, i, act).meta)
    requires act.Acquire? || act.Boost? || act.TakeBack? || act.AddRef? || act.Release?
    ensures WordStep(Pack(s.meta), s.agents[i], act) == Pack(Next(s, i, act).meta)
  {
    hide Pack, Inv, FetchAddAcquire, FetchAddRelease, FetchSubAcquire;
    AssertionsHold(s, i, act);
    match act
    case Acquire(n) => AcquireIsFieldwise(s.meta, n);
    case Boost => ReleaseIsFieldwise(s.meta, s.agents[i].n);
    case TakeBack => UnrefIsFieldwise(s.meta, RefsOf(s.agents[i]));
    case AddRef(_) => AcquireIsFieldwise(s.meta, 1);
    case Release(useful, _) =>
      ReleaseIsFieldwise(s.meta, 1);
      UnrefIsFieldwise(s.meta, 1);
  }

  lemma SwapStep(s: Slot, i: nat, act: Action)
    requires Inv(s) && Enabled(s, i, act) && Bounded(s.meta) && SavedOk(s.agents[i])
    requires act.EraseStep? || act.ReclaimStep? || act.ClockStep?
    ensures WordStep(Pack(s.meta), s.agents[i], act) == Pack(Next(s, i, act).meta)
  {
    hide Inv, GetRefcount, IsShareable, ClockWord, ClockUpdate;
    var saved := s.agents[i].saved;
    PackInjective(s.meta, saved);
    RefcountOfWord(saved);
    Fields(saved);
    ClockWordIs(saved);
    if act.EraseStep? {
      OneReference(saved);
    }
  }

  lemma BitStep(s: Slot, i: nat, act: Action)
    requires Enabled(s, i, act) && Bounded(s.meta)
    requires act.Occupy? || act.Hide? || act.MarkHit? || act.Correct? || act.Publish? || act.Clear?
    ensures WordStep(Pack(s.meta), s.agents[i], act) == Pack(Next(s, i, act).meta)
  {
    hide FetchOrOccupied, FetchAndNotVisible, FetchOrHit, CorrectWord, CorrectNearOverflow;
    OccupyWord(s.meta);
    HideWord(s.meta);
    HitWord(s.meta);
    if act.Correct? {
      CorrectWordIs(act.tested, s.meta);
    }
  }

  /** Every step of the protocol is what the code's operation does to the word. */
  lemma StepOnWord(s: Slot, i: nat, act: Action)
    requires Inv(s) && Enabled(s, i, act) && Bounded(s.meta) && Fits(Next(s, i, act).meta) && SavedOk(s.agents[i])
    ensures WordStep(Pack(s.meta), s.agents[i], act) == Pack(Next(s, i, act).meta)
  {
    hide Inv, Pack;
    if act.Acquire? || act.Boost? || act.TakeBack? || act.AddRef? || act.Release? {
      ArithmeticStep(s, i, act);
    } else if act.EraseStep? || act.ReclaimStep? || act.ClockStep? {
      SwapStep(s, i, act);
    } else if act.Occupy? || act.Hide? || act.MarkHit? || act.Correct? || act.Publish? || act.Clear? {
      BitStep(s, i, act);
    }
  }

  lemma SavedKept(s: Slot, i: nat, act: Action, j: nat)
    requires Enabled(s, i, act) && Bounded(s.meta) && j < |s.agents| && SavedOk(s.agents[j])
    ensures SavedOk(Next(s, i, act).agents[j])
  {
  }

  lemma {:induction false} SavedInRun(states: seq<Slot>, moves: seq<Move>, k: nat, j: nat)
    requires Run(states, moves) && Start(states[0]) && k < |states| && j < |states[k].agents|
    ensures SavedOk(states[k].agents[j])
  {
    hide SavedOk;
    if k == 0 {
      assert SavedOk(Idle) by {
        IdleOk();
      }
    } else {
      var mv := moves[k - 1];
      SavedInRun(states, moves, k - 1, j);
      SavedKept(states[k - 1], mv.agent, mv.act, j);
    }
  }

  lemma IdleOk()
    ensures SavedOk(Idle)
  {
  }

  /**
   A whole run of the protocol is a run on the word: the word of every state comes from the word before by the
   code's operation, and the empty slot is the word 0.
   */
  lemma RunOnWord(states: seq<Slot>, moves: seq<Move>, k: nat)
    requires Run(states, moves) && Start(states[0]) && k < |moves| && Fits(states[k + 1].meta)
    ensures Pack(states[0].meta) == 0 && moves[k].agent < |states[k].agents|
    ensures Pack(states[k + 1].meta) == WordStep(Pack(states[k].meta), states[k].agents[moves[k].agent], moves[k].act)
    ensures Unpack(Pack(states[k + 1].meta)) == states[k + 1].meta
  {
    hide Inv, Next, WordStep, SavedOk, Unpack;
    EveryRunIsSafe(states, moves, k);
    SavedInRun(states, moves, k, moves[k].agent);
    StepOnWord(states[k], moves[k].agent, moves[k].act);
    PackRoundTrip(states[k + 1].meta);
  }
}
