/**
 What the operations on a slot come to. The steps of one operation, done by a thread that is not interrupted, leave the
 slot just as the whole operation is meant to, whatever references other threads hold. If it is interrupted, a thread
 that asked for ownership gives up only for a reason that was there during its call.
 */
module SlotOutcomes {
  import opened SlotMeta
  import opened SlotProtocol

  // ---- Steps of one thread ----

  predicate CanDo(s: Slot, i: nat, acts: seq<Action>)
    decreases |acts|
  {
    acts == [] || (Enabled(s, i, acts[0]) && CanDo(Next(s, i, acts[0]), i, acts[1..]))
  }

  function Do(s: Slot, i: nat, acts: seq<Action>): Slot
    requires CanDo(s, i, acts)
    decreases |acts|
  {
    if acts == [] then s else Do(Next(s, i, acts[0]), i, acts[1..])
  }

  lemma DoMore(s: Slot, i: nat, act: Action, acts: seq<Action>)
    requires Enabled(s, i, act) && CanDo(Next(s, i, act), i, acts)
    ensures CanDo(s, i, [act] + acts) && Do(s, i, [act] + acts) == Do(Next(s, i, act), i, acts)
  {
    assert ([act] + acts)[1..] == acts;
  }

  // ---- Operations ----

  datatype Op =
    | Insert(entry: Data, countdown: nat, keep: bool)  // into a slot of the table with a fixed size
    | InsertLink(entry: Data, countdown: nat, keep: bool)  // into one of the table that grows, pinned until it is linked
    | Lookup(matching: bool)                           // with the outcome of comparing the keys
    | Compare(countdown: nat, matching: bool)          // of an insert that passes the slot
    | EraseKey(matching: bool)
    | EraseHandle
    | Release(useful: bool, erase: bool)
    | Visit                                            // by the eviction clock
    | EraseUnRef

  /** A thread that starts the operation holds a handle exactly if the operation is about one. */
  predicate Starts(s: Slot, i: nat, op: Op)
  {
    && i < |s.agents|
    && (if op.EraseHandle? || op.Release? then s.agents[i].Holding? else s.agents[i].Idle?)
    && (op.Insert? || op.InsertLink? ==> op.entry.Entry? && op.countdown > 0)
    && (op.Compare? ==> op.countdown > 0)
  }

  /** The rest of the operation once a thread asked for ownership: it frees the entry if it got it. */
  function Reclaim(m: Meta): seq<Action>
  {
    if m.Shareable() && m.Refs() == 0 then [ReclaimStep(false), Action.Free, Clear] else [ReclaimStep(false)]
  }

  function EraseSteps(m: Meta): seq<Action>
  {
    if m.Refs() == 1 then [Hide, EraseStep(false), Action.Free, Clear] else [Hide, EraseStep(false), TakeBack]
  }

  function Steps(m: Meta, op: Op): seq<Action>
  {
    match op
    case Insert(e, c, keep) => if m.state == Empty then [Occupy, Complete(e), Publish(c, keep)] else [Occupy]
    case InsertLink(e, c, keep) =>
      if m.state == Empty then [Occupy, Complete(e), Publish(c, true)] + if keep then [] else [TakeBack] else [Occupy]
    case Lookup(matching) =>
      [Acquire(1)] + if m.state == Visible && matching then [Keep] else if m.Shareable() then [TakeBack] else []
    case Compare(c, matching) =>
      [Acquire(c)] + if m.state == Visible && matching then [Boost] else if m.Shareable() then [TakeBack] else []
    case EraseKey(matching) =>
      [Acquire(1)] + if m.state == Visible && matching then EraseSteps(m.(acquire := m.acquire + 1))
      else if m.Shareable() then [TakeBack] else []
    case EraseHandle => EraseSteps(m)
    case Release(useful, erase) =>
      [Action.Release(useful, erase)] + if erase || m.state == Invisible then Reclaim(GivenBack(m, useful)) else []
    case Visit => [LoadToClock(m), ClockStep] + if Evicts(m) then [Action.Free, Clear] else []
    case EraseUnRef => [LoadToReclaim(m)] + Reclaim(m)
  }

  // ---- What they leave ----

  function Emptied(s: Slot, i: nat): Slot
    requires i < |s.agents|
  {
    Slot(EmptyMeta, Garbage, s.agents[i := Idle])
  }

  /** An erased entry is gone or hidden, and the thread holds nothing. */
  function AfterErase(s: Slot, i: nat, m: Meta): Slot
    requires i < |s.agents|
  {
    if Erased(m) == EmptyMeta then Emptied(s, i) else With(s, i, Erased(m), Idle)
  }

  /** The slot after a whole operation. */
  function Outcome(s: Slot, i: nat, op: Op): Slot
    requires Starts(s, i, op)
  {
    var m := s.meta;
    match op
    case Insert(e, c, keep) =>
      if m.state != Empty then s
      else Slot(Meta(Visible, c, if keep then c - 1 else c, false), e, s.agents[i := if keep then Holding(e) else Idle])
    case InsertLink(e, c, keep) =>
      if m.state != Empty then s
      else Slot(NewMeta(c, keep), e, s.agents[i := if keep then Holding(e) else Idle])
    case Lookup(matching) =>
      if m.state == Visible && matching then With(s, i, m.(acquire := m.acquire + 1), Holding(s.data))
      else Passed(s, 1)
    case Compare(c, matching) =>
      if m.state == Visible && matching then s.(meta := Boosted(m, c)) else Passed(s, c)
    case EraseKey(matching) =>
      if m.state == Visible && matching then AfterErase(s, i, m) else Passed(s, 1)
    case EraseHandle => AfterErase(s, i, Unref(m))
    case Release(useful, erase) =>
      var m' := GivenBack(m, useful);
      if (erase || m.state == Invisible) && m'.Refs() == 0 then Emptied(s, i) else With(s, i, m', Idle)
    case Visit => if Evicts(m) then Emptied(s, i) else s.(meta := AfterEvict(m))
    case EraseUnRef => if m.Shareable() && m.Refs() == 0 then Emptied(s, i) else s
  }

  /** A thread that went by leaves an entry as it was; what it adds to the counter of a free slot has no effect there. */
  function Passed(s: Slot, n: nat): Slot
  {
    if s.meta.Shareable() then s else s.(meta := s.meta.(acquire := s.meta.acquire + n))
  }

  // ---- Uninterrupted operations ----

  lemma NoSteps(s: Slot, i: nat)
    ensures CanDo(s, i, []) && Do(s, i, []) == s
  {
  }

  lemma One(s: Slot, i: nat, a: Action)
    requires Enabled(s, i, a)
    ensures CanDo(s, i, [a]) && Do(s, i, [a]) == Next(s, i, a)
  {
    DoMore(s, i, a, []);
  }

  lemma Two(s: Slot, i: nat, a: Action, b: Action)
    requires Enabled(s, i, a) && Enabled(Next(s, i, a), i, b)
    ensures CanDo(s, i, [a, b]) && Do(s, i, [a, b]) == Next(Next(s, i, a), i, b)
  {
    hide Enabled, Next;
    One(Next(s, i, a), i, b);
    DoMore(s, i, a, [b]);
    assert [a] + [b] == [a, b];
  }

  /** An owner frees the entry and leaves an empty slot. */
  lemma OwnerFrees(s: Slot, i: nat)
    requires i < |s.agents| && s.agents[i].Freeing?
    ensures CanDo(s, i, [Action.Free, Clear]) && Do(s, i, [Action.Free, Clear]) == Emptied(s, i)
  {
    Two(s, i, Action.Free, Clear);
  }

  lemma ReclaimAlone(s: Slot, i: nat)
    requires i < |s.agents| && s.agents[i] == Reclaiming(s.meta)
    ensures var m := s.meta;
            && CanDo(s, i, Reclaim(m))
            && Do(s, i, Reclaim(m)) == if m.Shareable() && m.Refs() == 0 then Emptied(s, i) else With(s, i, m, Idle)
  {
    var a := ReclaimStep(false);
    if s.meta.Shareable() && s.meta.Refs() == 0 {
      OwnerFrees(Next(s, i, a), i);
      DoMore(s, i, a, [Action.Free, Clear]);
      assert [a] + [Action.Free, Clear] == Reclaim(s.meta);
    } else {
      One(s, i, a);
    }
  }

  lemma EraseAlone(s: Slot, i: nat)
    requires Inv(s) && i < |s.agents| && (s.agents[i].Holding? || (s.agents[i].Acquired? && s.agents[i].n == 1))
    ensures CanDo(s, i, EraseSteps(s.meta)) && Do(s, i, EraseSteps(s.meta)) == AfterErase(s, i, Unref(s.meta))
  {
    hide Counted, Pinned, RefSum, OwnerSum, CanDo, Do;
    HolderIsSafe(s, i);
    var t := Next(s, i, Hide);
    var u := Next(t, i, EraseStep(false));
    if s.meta.Refs() == 1 {
      OwnerFrees(u, i);
      DoMore(t, i, EraseStep(false), [Action.Free, Clear]);
      DoMore(s, i, Hide, [EraseStep(false)] + [Action.Free, Clear]);
      assert EraseSteps(s.meta) == [Hide] + ([EraseStep(false)] + [Action.Free, Clear]);
    } else {
      Two(t, i, EraseStep(false), TakeBack);
      DoMore(s, i, Hide, [EraseStep(false), TakeBack]);
      assert EraseSteps(s.meta) == [Hide] + [EraseStep(false), TakeBack];
    }
  }

  lemma InsertAlone(s: Slot, i: nat, op: Op)
    requires Starts(s, i, op) && (op.Insert? || op.InsertLink?)
    ensures CanDo(s, i, Steps(s.meta, op)) && Do(s, i, Steps(s.meta, op)) == Outcome(s, i, op)
  {
    hide CanDo, Do;
    if s.meta.state != Empty {
      One(s, i, Occupy);
    } else {
      var keep := op.InsertLink? || op.keep;
      var last := if op.InsertLink? && !op.keep then [TakeBack] else [];
      var t := Next(s, i, Occupy);
      var u := Next(t, i, Complete(op.entry));
      var v := Next(u, i, Publish(op.countdown, keep));
      if last == [] { NoSteps(v, i); } else { One(v, i, TakeBack); }
      DoMore(u, i, Publish(op.countdown, keep), last);
      DoMore(t, i, Complete(op.entry), [Publish(op.countdown, keep)] + last);
      DoMore(s, i, Occupy, [Complete(op.entry)] + ([Publish(op.countdown, keep)] + last));
      assert Steps(s.meta, op) == [Occupy] + ([Complete(op.entry)] + ([Publish(op.countdown, keep)] + last));
    }
  }

  /** A thread that found a visible entry with another key, or an invisible one, leaves no trace. */
  lemma PassAlone(s: Slot, i: nat, n: nat)
    requires i < |s.agents| && s.agents[i].Idle? && n > 0
    ensures var acts := [Acquire(n)] + if s.meta.Shareable() then [TakeBack] else [];
            CanDo(s, i, acts) && Do(s, i, acts) == Passed(s, n)
  {
    hide CanDo, Do;
    var t := Next(s, i, Acquire(n));
    if s.meta.Shareable() {
      One(t, i, TakeBack);
      DoMore(s, i, Acquire(n), [TakeBack]);
      assert s.agents == s.agents[i := Idle];
    } else {
      NoSteps(t, i);
      DoMore(s, i, Acquire(n), []);
      assert s.agents == s.agents[i := Idle];
    }
  }

  lemma MatchAlone(s: Slot, i: nat, op: Op)
    requires Inv(s) && Bounded(s.meta) && Starts(s, i, op) && s.meta.state == Visible
    requires (op.Lookup? || op.Compare? || op.EraseKey?) && op.matching
    ensures CanDo(s, i, Steps(s.meta, op)) && Do(s, i, Steps(s.meta, op)) == Outcome(s, i, op)
  {
    hide CanDo, Do, Inv, Counted, Pinned, RefSum, OwnerSum;
    match op
    case Lookup(_) =>
      One(Next(s, i, Acquire(1)), i, Keep);
      DoMore(s, i, Acquire(1), [Keep]);
    case Compare(c, _) =>
      One(Next(s, i, Acquire(c)), i, Boost);
      DoMore(s, i, Acquire(c), [Boost]);
      assert s.agents == s.agents[i := Idle];
    case EraseKey(_) =>
      var t := Next(s, i, Acquire(1));
      InvKept(s, i, Acquire(1));
      EraseAlone(t, i);
      DoMore(s, i, Acquire(1), EraseSteps(t.meta));
      assert Unref(t.meta) == s.meta;
  }

  lemma ReleaseAlone(s: Slot, i: nat, useful: bool, erase: bool)
    requires Inv(s) && Starts(s, i, Op.Release(useful, erase))
    ensures var op := Op.Release(useful, erase);
            CanDo(s, i, Steps(s.meta, op)) && Do(s, i, Steps(s.meta, op)) == Outcome(s, i, op)
  {
    hide CanDo, Do, Counted, Pinned, RefSum, OwnerSum;
    HolderIsSafe(s, i);
    var a := Action.Release(useful, erase);
    var t := Next(s, i, a);
    if erase || s.meta.state == Invisible {
      ReclaimAlone(t, i);
      DoMore(s, i, a, Reclaim(t.meta));
    } else {
      NoSteps(t, i);
      DoMore(s, i, a, []);
    }
  }

  lemma VisitAlone(s: Slot, i: nat)
    requires Starts(s, i, Visit) && Fits(s.meta)
    ensures CanDo(s, i, Steps(s.meta, Visit)) && Do(s, i, Steps(s.meta, Visit)) == Outcome(s, i, Visit)
  {
    hide CanDo, Do;
    var m := s.meta;
    var t := Next(s, i, LoadToClock(m));
    var u := Next(t, i, ClockStep);
    assert s.agents == s.agents[i := Idle];
    if Evicts(m) {
      OwnerFrees(u, i);
      DoMore(t, i, ClockStep, [Action.Free, Clear]);
      DoMore(s, i, LoadToClock(m), [ClockStep] + [Action.Free, Clear]);
      assert Steps(m, Visit) == [LoadToClock(m)] + ([ClockStep] + [Action.Free, Clear]);
    } else {
      Two(s, i, LoadToClock(m), ClockStep);
      assert Steps(m, Visit) == [LoadToClock(m), ClockStep];
    }
  }

  /**
   Every operation, done without interruption: its steps can all be taken, and they leave the slot as the operation
   is meant to, with every other thread's references as they were.
   */
  lemma Alone(s: Slot, i: nat, op: Op)
    requires Inv(s) && Bounded(s.meta) && Starts(s, i, op)
    ensures CanDo(s, i, Steps(s.meta, op)) && Do(s, i, Steps(s.meta, op)) == Outcome(s, i, op)
  {
    hide CanDo, Do, Inv, Next, Enabled, Reclaim, EraseSteps;
    match op
    case Insert(_, _, _) => InsertAlone(s, i, op);
    case InsertLink(_, _, _) => InsertAlone(s, i, op);
    case Lookup(matching) => if s.meta.state == Visible && matching { MatchAlone(s, i, op); } else { PassAlone(s, i, 1); }
    case Compare(c, matching) => if s.meta.state == Visible && matching { MatchAlone(s, i, op); } else { PassAlone(s, i, c); }
    case EraseKey(matching) => if s.meta.state == Visible && matching { MatchAlone(s, i, op); } else { PassAlone(s, i, 1); }
    case EraseHandle => EraseAlone(s, i);
    case Release(useful, erase) => ReleaseAlone(s, i, useful, erase);
    case Visit => VisitAlone(s, i);
    case EraseUnRef => SweepAlone(s, i);
  }

  lemma SweepAlone(s: Slot, i: nat)
    requires Starts(s, i, EraseUnRef) && Fits(s.meta)
    ensures CanDo(s, i, Steps(s.meta, EraseUnRef)) && Do(s, i, Steps(s.meta, EraseUnRef)) == Outcome(s, i, EraseUnRef)
  {
    hide CanDo, Do;
    var a := LoadToReclaim(s.meta);
    assert s.agents == s.agents[i := Idle];
    ReclaimAlone(Next(s, i, a), i);
    DoMore(s, i, a, Reclaim(s.meta));
  }

  // ---- Interrupted operations ----

  /** A reference to compare keys with is got on a visible entry only, and a handle only from one or from a holder. */
  lemma OnlyVisible(s: Slot, i: nat, act: Action, j: nat)
    requires Enabled(s, i, act) && j < |s.agents|
    ensures var a, b := s.agents[j], Next(s, i, act).agents[j];
            && (b.Acquired? && !a.Acquired? <==> i == j && act.Acquire? && s.meta.state == Visible)
            && (b.Holding? && !a.Holding? <==>
                  || (i == j && (act.Keep? || (act.Publish? && act.keep)))
                  || (act.AddRef? && act.other == j))
  {
  }

  /**
   A lookup that compares keys reads the entry that was visible when it took its reference, and on a match hands out
   that entry.
   */
  lemma HandedOutWasVisible(states: seq<Slot>, moves: seq<Move>, i: nat, from: nat, n: nat)
    requires Run(states, moves) && Start(states[0]) && from + 1 + n < |states| && i < |states[0].agents|
    requires i < |states[from].agents| && !states[from].agents[i].Acquired?
    requires forall k :: from < k <= from + 1 + n ==> i < |states[k].agents| && states[k].agents[i].Acquired?
    ensures states[from].meta.state == Visible && states[from].data.Entry?
    ensures states[from + 1 + n].data == states[from].data == states[from + 1 + n].agents[i].seen
  {
    hide RefSum, OwnerSum, Bounded, Counted;
    var s, mv, last := states[from], moves[from], states[from + 1 + n];
    assert states[from + 1] == Next(s, mv.agent, mv.act);
    OnlyVisible(s, mv.agent, mv.act, i);
    EveryRunIsSafe(states, moves, from);
    forall k | from + 1 <= k <= from + 1 + n
      ensures RefsOf(states[k].agents[i]) > 0
    {
      EveryRunIsSafe(states, moves, k);
      assert Agrees(states[k].agents[i], states[k].data);
    }
    DataIsStable(states, moves, i, from + 1, n);
    EveryRunIsSafe(states, moves, from + 1 + n);
    assert Agrees(last.agents[i], last.data);
  }

  predicate Asks(a: Agent, erasing: bool) { if erasing then a.Erasing? else a.Reclaiming? }

  ghost predicate Asking(states: seq<Slot>, i: nat, from: nat, to: nat, erasing: bool)
  {
    && from <= to < |states|
    && forall k :: from <= k <= to ==>
         i < |states[k].agents| && Asks(states[k].agents[i], erasing)
  }

  /** A failed attempt ends with the word that the slot has then. */
  lemma Relearns(s: Slot, i: nat, act: Action, j: nat, erasing: bool)
    requires Enabled(s, i, act) && j < |s.agents| && Asks(s.agents[j], erasing) && Asks(Next(s, i, act).agents[j], erasing)
    ensures var a, t := s.agents[j], Next(s, i, act); t.agents[j].saved == a.saved || t.agents[j].saved == t.meta
  {
  }

  /** A thread that asks for ownership knows a word that the slot had since it began to ask. */
  lemma {:induction false} KnowsRecent(states: seq<Slot>, moves: seq<Move>, i: nat, from: nat, to: nat, erasing: bool)
    returns (t: nat)
    requires Run(states, moves) && Asking(states, i, from, to, erasing) && states[from].agents[i].saved == states[from].meta
    ensures from <= t <= to && states[to].agents[i].saved == states[t].meta
  {
    hide Bounded, Next, Enabled;
    if from == to {
      t := from;
    } else {
      t := KnowsRecent(states, moves, i, from, to - 1, erasing);
      var s, mv := states[to - 1], moves[to - 1];
      assert states[to] == Next(s, mv.agent, mv.act);
      Relearns(s, mv.agent, mv.act, i, erasing);
      if states[to].agents[i].saved != s.agents[i].saved {
        t := to;
      }
    }
  }

  /**
   A release that asked for ownership and gave up did so because, at some time during the call, there were other
   references or the entry was owned or gone.
   */
  lemma ReleaseGivesUp(states: seq<Slot>, moves: seq<Move>, i: nat, from: nat, to: nat) returns (t: nat)
    requires Run(states, moves) && Start(states[0]) && from + 1 <= to < |moves| && Asking(states, i, from + 1, to, false)
    requires moves[from].agent == moves[to].agent == i && moves[from].act.Release?
    requires to + 1 < |states| && i < |states[to + 1].agents| && states[to + 1].agents[i] == Idle
    ensures from < t <= to && (!states[t].meta.Shareable() || RefSum(states[t].agents) > 0)
  {
    hide RefSum, OwnerSum, Bounded;
    assert states[from + 1] == Next(states[from], i, moves[from].act);
    t := KnowsRecent(states, moves, i, from + 1, to, false);
    EveryRunIsSafe(states, moves, t);
    assert states[to + 1] == Next(states[to], i, moves[to].act);
  }

  /** An erase that asked for ownership and gave up met another reference at some time during the call. */
  lemma EraseGivesUp(states: seq<Slot>, moves: seq<Move>, i: nat, from: nat, to: nat) returns (t: nat)
    requires Run(states, moves) && Start(states[0]) && from + 1 <= to < |moves| && Asking(states, i, from + 1, to, true)
    requires moves[from].agent == moves[to].agent == i && moves[from].act.Hide?
    requires to + 1 < |states| && i < |states[to + 1].agents| && states[to + 1].agents[i].Undoing?
    ensures from < t <= to && states[t].meta.Shareable() && RefSum(states[t].agents) > 1
  {
    hide RefSum, OwnerSum, Bounded;
    assert states[from + 1] == Next(states[from], i, moves[from].act);
    t := KnowsRecent(states, moves, i, from + 1, to, true);
    EveryRunIsSafe(states, moves, t);
    assert states[to + 1] == Next(states[to], i, moves[to].act);
    HolderIsSafe(states[t], i);
  }
}
