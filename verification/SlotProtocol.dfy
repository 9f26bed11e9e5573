/**
 The life of one slot under any number of threads. Every atomic operation on the metadata word and
 every write of the slot's data is one step, and the threads' steps interleave in any order. Counters
 are taken to stay below their top bit. What a thread is about to do with the slot is its `Agent`
 value, which also remembers the entry it saw when it took its reference.
 */
module SlotProtocol {
  import opened SlotMeta

  datatype Data = Garbage | Entry(key: nat, value: nat)

  datatype Agent =
    | Idle
    | Acquired(n: nat, seen: Data)        // took n references on a visible entry, key not yet compared
    | Undoing(n: nat, seen: Data)         // about to take back n references
    | Holding(seen: Data)                 // a handle in a user's hands: one reference
    | Erasing(saved: Meta, seen: Data)    // holds one reference, about to compare-and-swap for ownership
    | Reclaiming(saved: Meta)             // holds nothing, about to compare-and-swap for ownership
    | Clocking(saved: Meta)               // holds nothing, about to apply a clock update
    | Filling                             // owner, writing an entry
    | Ready(entry: Data)                  // owner, entry written
    | Freeing                             // owner, freeing the entry

  datatype Slot = Slot(meta: Meta, data: Data, agents: seq<Agent>)

  datatype Action =
    | Occupy                              // fetch-or of the occupied bit
    | Scribble(d: Data)                   // owner writes data, in any pieces
    | Complete(entry: Data)               // owner has written the whole entry
    | Publish(countdown: nat, keep: bool)
    | Acquire(n: nat)                     // fetch-add on the acquire counter
    | Keep                                // key matches: a lookup hands out its reference
    | Boost                               // key matches an insert: release in a way that counts as use
    | TakeBack                            // subtract from the acquire counter
    | MarkHit
    | AddRef(other: nat)                  // the holder makes one more reference, for another thread
    | Release(useful: bool, erase: bool)
    | Hide                                // fetch-and that clears the visible bit
    | EraseStep(spurious: bool)
    | LoadToReclaim(m: Meta)              // a relaxed load may return any value
    | ReclaimStep(spurious: bool)
    | LoadToClock(m: Meta)
    | ClockStep
    | Free
    | Clear
    | Correct(tested: Meta)               // correction of counters near overflow, by a word from before

  function RefsOf(a: Agent): nat
  {
    match a
    case Acquired(n, _) => n
    case Undoing(n, _) => n
    case Holding(_) => 1
    case Erasing(_, _) => 1
    case _ => 0
  }

  function Owns(a: Agent): nat { if a.Filling? || a.Ready? || a.Freeing? then 1 else 0 }

  function RefSum(s: seq<Agent>): nat { if s == [] then 0 else RefsOf(s[0]) + RefSum(s[1..]) }
  function OwnerSum(s: seq<Agent>): nat { if s == [] then 0 else Owns(s[0]) + OwnerSum(s[1..]) }

  // ---- Steps ----

  predicate Enabled(s: Slot, i: nat, act: Action)
  {
    i < |s.agents| &&
    var a := s.agents[i];
    match act
    case Occupy => a.Idle?
    case Scribble(_) => a.Filling?
    case Complete(e) => a.Filling? && e.Entry?
    case Publish(c, _) => a.Ready? && c > 0
    case Acquire(n) => a.Idle? && n > 0
    case Keep => a.Acquired? && a.n == 1
    case Boost => a.Acquired?
    case TakeBack => a.Acquired? || a.Undoing? || a.Holding?
    case MarkHit => a.Acquired? || a.Holding?
    case AddRef(j) => a.Holding? && j < |s.agents| && s.agents[j].Idle?
    case Release(_, _) => a.Holding?
    case Hide => a.Holding? || (a.Acquired? && a.n == 1)
    case EraseStep(_) => a.Erasing?
    case LoadToReclaim(m) => a.Idle? && Fits(m)
    case ReclaimStep(_) => a.Reclaiming?
    case LoadToClock(m) => a.Idle? && Fits(m)
    case ClockStep => a.Clocking?
    case Free => a.Freeing?
    case Clear => a.Freeing?
    case Correct(tested) => Fits(tested)
  }

  function With(s: Slot, i: nat, m: Meta, a: Agent): Slot
    requires i < |s.agents|
  {
    s.(meta := m, agents := s.agents[i := a])
  }

  const Taken: Meta := Meta(Construction, 0, 0, false)

  function Hidden(m: Meta): Meta { if m.state == Visible then m.(state := Invisible) else m }

  function Unacquire(m: Meta, n: nat): Meta { if n <= m.acquire then m.(acquire := m.acquire - n) else m }

  function Next(s: Slot, i: nat, act: Action): Slot
    requires Enabled(s, i, act)
  {
    var a, m := s.agents[i], s.meta;
    match act
    case Occupy => if m.state == Empty then With(s, i, m.(state := Construction), Filling) else s
    case Scribble(d) => s.(data := d)
    case Complete(e) => With(s, i, m, Ready(e)).(data := e)
    case Publish(c, keep) =>
      With(s, i, Meta(Visible, c, if keep then c - 1 else c, false), if keep then Holding(s.data) else Idle)
    case Acquire(n) =>
      With(s, i, m.(acquire := m.acquire + n),
           if m.state == Visible then Acquired(n, s.data)
           else if m.state == Invisible then Undoing(n, s.data)
           else Idle)
    case Keep => With(s, i, m, Holding(a.seen))
    case Boost => With(s, i, m.(release := m.release + a.n), Idle)
    case TakeBack => With(s, i, Unacquire(m, RefsOf(a)), Idle)
    case MarkHit => s.(meta := m.(hit := true))
    case AddRef(j) => With(s, j, m.(acquire := m.acquire + 1), Holding(a.seen))
    case Release(useful, erase) =>
      var m' := GivenBack(m, useful);
      With(s, i, m', if erase || m.state == Invisible then Reclaiming(m') else Idle)
    case Hide => With(s, i, Hidden(m), Erasing(Hidden(m), a.seen))
    case EraseStep(spurious) =>
      if a.saved.Refs() != 1 then With(s, i, m, Undoing(1, a.seen))
      else if m == a.saved && !spurious then With(s, i, Taken, Freeing)
      else With(s, i, m, Erasing(m, a.seen))
    case LoadToReclaim(x) => With(s, i, m, Reclaiming(x))
    case ReclaimStep(spurious) =>
      if a.saved.Refs() != 0 || !a.saved.Shareable() then With(s, i, m, Idle)
      else if m == a.saved && !spurious then With(s, i, Taken, Freeing)
      else With(s, i, m, Reclaiming(m))
    case LoadToClock(x) => With(s, i, m, Clocking(x))
    case ClockStep =>
      if m != a.saved then With(s, i, m, Idle)
      else With(s, i, ClockUpdate(m), if Evicts(m) then Freeing else Idle)
    case Free => s.(data := Garbage)
    case Clear => With(s, i, EmptyMeta, Idle)
    case Correct(tested) => s.(meta := CorrectNearOverflow(tested, m))
  }

  /** No counter reaches its top bit. */
  predicate Bounded(m: Meta) { m.acquire < C29 && m.release < C29 }

  // ---- What every interleaving keeps ----

  /** Who may touch the slot, by its state. */
  predicate Counted(s: Slot)
  {
    match s.meta.state
    case Empty => OwnerSum(s.agents) == 0 && RefSum(s.agents) == 0
    case Construction => OwnerSum(s.agents) == 1 && RefSum(s.agents) == 0
    case _ => OwnerSum(s.agents) == 0 && s.meta.Refs() == RefSum(s.agents)
  }

  /** What a thread that holds a reference saw is what the slot holds. */
  predicate Agrees(a: Agent, d: Data)
  {
    && (a.Acquired? || a.Undoing? || a.Holding? || a.Erasing? ==> a.seen == d && RefsOf(a) > 0)
    && (a.Ready? ==> a.entry == d && d.Entry?)
  }

  predicate Pinned(s: Slot)
  {
    forall i :: 0 <= i < |s.agents| ==> Agrees(s.agents[i], s.data)
  }

  predicate Inv(s: Slot)
  {
    && Counted(s)
    && Pinned(s)
    && (s.meta.Shareable() ==> s.data.Entry?)
  }

  predicate Start(s: Slot)
  {
    && s.meta == EmptyMeta
    && (forall i :: 0 <= i < |s.agents| ==> s.agents[i] == Idle)
  }

  // ---- Sums over threads ----

  lemma {:induction false} SumAt(s: seq<Agent>, i: nat, a: Agent)
    requires i < |s|
    ensures RefSum(s[i := a]) == RefSum(s) - RefsOf(s[i]) + RefsOf(a)
    ensures OwnerSum(s[i := a]) == OwnerSum(s) - Owns(s[i]) + Owns(a)
    ensures RefsOf(s[i]) <= RefSum(s) && Owns(s[i]) <= OwnerSum(s)
  {
    if i == 0 {
      assert s[i := a][1..] == s[1..];
    } else {
      SumAt(s[1..], i - 1, a);
      assert s[i := a][1..] == s[1..][i - 1 := a];
    }
  }

  lemma {:induction false} SumTwo(s: seq<Agent>, i: nat, j: nat)
    requires i < j < |s|
    ensures RefsOf(s[i]) + RefsOf(s[j]) <= RefSum(s)
    ensures Owns(s[i]) + Owns(s[j]) <= OwnerSum(s)
  {
    if i == 0 {
      SumAt(s[1..], j - 1, s[j]);
    } else {
      SumTwo(s[1..], i - 1, j - 1);
    }
  }

  lemma {:induction false} SumZero(s: seq<Agent>)
    requires forall i :: 0 <= i < |s| ==> s[i] == Idle
    ensures RefSum(s) == 0 && OwnerSum(s) == 0
  {
    if s != [] {
      SumZero(s[1..]);
    }
  }

  /** An owner shuts out every reference and every other owner. */
  lemma OwnerIsAlone(s: Slot, i: nat, j: nat)
    requires Inv(s) && i < |s.agents| && j < |s.agents| && Owns(s.agents[i]) == 1
    ensures s.meta.state == Construction
    ensures RefsOf(s.agents[j]) == 0
    ensures i != j ==> Owns(s.agents[j]) == 0
  {
    SumAt(s.agents, i, Idle);
    SumAt(s.agents, j, Idle);
    if i < j {
      SumTwo(s.agents, i, j);
    } else if j < i {
      SumTwo(s.agents, j, i);
    }
  }

  /** A reference keeps the entry shareable and intact, and keeps every owner out. */
  lemma HolderIsSafe(s: Slot, i: nat)
    requires Inv(s) && i < |s.agents| && RefsOf(s.agents[i]) > 0
    ensures s.meta.Shareable() && s.data.Entry? && OwnerSum(s.agents) == 0
    ensures RefsOf(s.agents[i]) <= s.meta.Refs()
  {
    SumAt(s.agents, i, Idle);
  }

  // ---- The invariant is kept ----

  lemma CountedByOwner(s: Slot, i: nat, act: Action)
    requires Inv(s) && Enabled(s, i, act) && Bounded(s.meta)
    requires Owns(s.agents[i]) == 1 || act.Occupy?
    ensures Counted(Next(s, i, act))
  {
    hide RefSum, OwnerSum, Pinned, CorrectNearOverflow;
    SumAt(s.agents, i, s.agents[i]);
    SumAt(s.agents, i, Next(s, i, act).agents[i]);
    if act.Correct? {
      CorrectionIsIdle(act.tested, s.meta);
    }
  }

  lemma CountedByClaim(s: Slot, i: nat, act: Action)
    requires Inv(s) && Enabled(s, i, act) && Bounded(s.meta)
    requires act.EraseStep? || act.ReclaimStep? || act.ClockStep?
    ensures Counted(Next(s, i, act))
  {
    hide RefSum, OwnerSum, Pinned, CorrectNearOverflow;
    SumAt(s.agents, i, s.agents[i]);
    SumAt(s.agents, i, Next(s, i, act).agents[i]);
  }

  lemma CountedByHolder(s: Slot, i: nat, act: Action)
    requires Inv(s) && Enabled(s, i, act) && Bounded(s.meta)
    requires Owns(s.agents[i]) == 0 && !act.Occupy? && !act.EraseStep? && !act.ReclaimStep? && !act.ClockStep?
    ensures Counted(Next(s, i, act))
  {
    hide RefSum, OwnerSum, Pinned, CorrectNearOverflow;
    SumAt(s.agents, i, s.agents[i]);
    if act.AddRef? {
      SumAt(s.agents, act.other, Holding(s.agents[i].seen));
    } else {
      SumAt(s.agents, i, Next(s, i, act).agents[i]);
    }
    if act.Correct? {
      CorrectionIsIdle(act.tested, s.meta);
    }
  }

  lemma PinnedKept(s: Slot, i: nat, act: Action)
    requires Inv(s) && Enabled(s, i, act)
    ensures Pinned(Next(s, i, act))
  {
    var t := Next(s, i, act);
    forall j | 0 <= j < |t.agents|
      ensures Agrees(t.agents[j], t.data)
    {
      assert Agrees(s.agents[j], s.data) && Agrees(s.agents[i], s.data);
      if Owns(s.agents[i]) == 1 {
        OwnerIsAlone(s, i, j);
      }
    }
  }

  lemma DataKept(s: Slot, i: nat, act: Action)
    requires Inv(s) && Enabled(s, i, act)
    ensures Next(s, i, act).meta.Shareable() ==> Next(s, i, act).data.Entry?
  {
    assert Agrees(s.agents[i], s.data);
    if Owns(s.agents[i]) == 1 {
      OwnerIsAlone(s, i, i);
    }
  }

  lemma InvKept(s: Slot, i: nat, act: Action)
    requires Inv(s) && Enabled(s, i, act) && Bounded(s.meta)
    ensures Inv(Next(s, i, act))
  {
    hide Counted, Pinned, Agrees, RefSum, OwnerSum;
    if act.EraseStep? || act.ReclaimStep? || act.ClockStep? {
      CountedByClaim(s, i, act);
    } else if Owns(s.agents[i]) == 1 || act.Occupy? {
      CountedByOwner(s, i, act);
    } else {
      CountedByHolder(s, i, act);
    }
    PinnedKept(s, i, act);
    DataKept(s, i, act);
  }

  // ---- Whole runs ----

  datatype Move = Move(agent: nat, act: Action)

  predicate Run(states: seq<Slot>, moves: seq<Move>)
  {
    && |states| == |moves| + 1
    && forall k :: 0 <= k < |moves| ==>
         && Bounded(states[k].meta)
         && Enabled(states[k], moves[k].agent, moves[k].act)
         && states[k + 1] == Next(states[k], moves[k].agent, moves[k].act)
  }

  /** Every state of every run from an empty slot satisfies the invariant. */
  lemma {:induction false} EveryRunIsSafe(states: seq<Slot>, moves: seq<Move>, k: nat)
    requires Run(states, moves) && Start(states[0]) && k < |states|
    ensures Inv(states[k])
  {
    if k == 0 {
      SumZero(states[0].agents);
    } else {
      EveryRunIsSafe(states, moves, k - 1);
      InvKept(states[k - 1], moves[k - 1].agent, moves[k - 1].act);
    }
  }

  lemma StepKeepsData(s: Slot, i: nat, act: Action, j: nat)
    requires Inv(s) && Enabled(s, i, act) && j < |s.agents| && RefsOf(s.agents[j]) > 0
    ensures Next(s, i, act).data == s.data
  {
    if Owns(s.agents[i]) == 1 {
      OwnerIsAlone(s, i, j);
    }
  }

  /** While a thread holds its references, the slot stays shareable and its data does not change. */
  lemma {:induction false} DataIsStable(states: seq<Slot>, moves: seq<Move>, i: nat, from: nat, n: nat)
    requires Run(states, moves) && Start(states[0]) && from + n < |states|
    requires i < |states[0].agents|
    requires forall k :: from <= k <= from + n ==> i < |states[k].agents| && RefsOf(states[k].agents[i]) > 0
    ensures states[from + n].data == states[from].data
    ensures states[from + n].data.Entry? && states[from + n].meta.Shareable()
  {
    hide Inv, Next, Enabled, RefsOf, Start;
    var to := from + n;
    EveryRunIsSafe(states, moves, to);
    HolderIsSafe(states[to], i);
    if n > 0 {
      DataIsStable(states, moves, i, from, n - 1);
      var s, mv := states[to - 1], moves[to - 1];
      EveryRunIsSafe(states, moves, to - 1);
      StepKeepsData(s, mv.agent, mv.act, i);
    }
  }

  /** The state diagram: the only changes of state, and what the one who makes them must be. */
  lemma StateDiagram(s: Slot, i: nat, act: Action)
    requires Inv(s) && Enabled(s, i, act) && Bounded(s.meta)
    ensures var x, y := s.meta.state, Next(s, i, act).meta.state;
            || x == y
            || (x == Empty && y == Construction && act.Occupy?)
            || (x == Construction && y == Visible && s.agents[i].Ready?)
            || (x == Construction && y == Empty && s.agents[i].Freeing?)
            || (x == Visible && y == Invisible && RefsOf(s.agents[i]) == 1)
            || (s.meta.Shareable() && y == Construction && RefSum(s.agents) == RefsOf(s.agents[i]) <= 1)
  {
    SumAt(s.agents, i, Idle);
    if Owns(s.agents[i]) == 1 {
      OwnerIsAlone(s, i, i);
    }
  }

  /** The code's own assertions: references are there to be given back, and only owners store. */
  lemma AssertionsHold(s: Slot, i: nat, act: Action)
    requires Inv(s) && Enabled(s, i, act)
    ensures act.TakeBack? ==> 0 < RefsOf(s.agents[i]) <= s.meta.Refs() && RefsOf(s.agents[i]) <= s.meta.acquire
    ensures act.Release? ==> s.meta.Shareable() && s.meta.acquire > s.meta.release
    ensures act.Publish? || act.Clear? ==> s.meta.state == Construction
    ensures act.EraseStep? ==> s.meta.Refs() > 0
  {
    assert Agrees(s.agents[i], s.data);
    SumAt(s.agents, i, Idle);
    if Owns(s.agents[i]) == 1 {
      OwnerIsAlone(s, i, i);
    }
  }

  /** When no thread is inside an operation and no handle is out, the slot is empty or holds an unpinned entry. */
  lemma QuietSlot(s: Slot)
    requires Inv(s) && forall i :: 0 <= i < |s.agents| ==> s.agents[i] == Idle
    ensures s.meta.state == Empty || (s.meta.Shareable() && s.meta.acquire == s.meta.release && s.data.Entry?)
  {
    SumZero(s.agents);
  }
}
