/**
 What the steps of the usage ledger come to: when a charge is refused, how much an insert asks to be evicted, and what
 an operation of a thread that is left alone does to the counters, from beginning to end.
 */
module LedgerOutcomes {
  import opened Totals
  import opened UsageLedger

  // ---- When a charge is refused, in every interleaving ----

  /** Why a thread that charges usage is refused, in terms of what it grabbed, freed and evicted. */
  predicate MustRefuse(c: Config, a: Agent)
  {
    match a
    case Counted(op, _) => c.strict && op.charge > c.capacity
    case Evicting(_, needOccupancy, _, _, _, count) => needOccupancy && count == 0
    case Settling(op, _, _, grabbed, freed) => c.strict && grabbed + freed < op.charge
    case _ => false
  }

  /** A step of a thread at work ends in a refusal if and only if it must. */
  lemma RefusedIff(c: Config, s: Ledger, i: nat, act: Action)
    requires Inv(c, s) && Enabled(c, s, i, act) && (act.Read? || act.EndEvict? || act.Settle?)
    ensures Next(c, s, i, act).agents[i].Refused? <==> MustRefuse(c, s.agents[i])
  {
    hide Conserved;
    assert Consistent(c, s.agents[i]);
  }

  /** In every run, a charge is refused only if it must be, and nothing but the charge in hand is given back. */
  lemma EveryRefusal(c: Config, states: seq<Ledger>, moves: seq<Move>, k: nat, i: nat)
    requires Run(c, states, moves) && Start(c, states[0]) && k < |moves| && i < |states[k].agents| == |states[k + 1].agents|
    requires states[k + 1].agents[i].Refused? && !states[k].agents[i].Refused?
    ensures moves[k].agent == i && MustRefuse(c, states[k].agents[i])
    ensures states[k + 1].agents[i].op == states[k].agents[i].op
    ensures c.strict ==> states[k + 1].usage == states[k].usage - HeldUsage(states[k].agents[i])
    ensures !c.strict ==> states[k + 1].usage == states[k].usage
  {
    hide Conserved, NeedEvict;
    EveryRunConserves(c, states, moves, k);
    var act := moves[k].act;
    assert Enabled(c, states[k], moves[k].agent, act) && states[k + 1] == Next(c, states[k], moves[k].agent, act);
    assert Consistent(c, states[k].agents[i]);
  }

  // ---- How much is to be evicted ----

  /**
   Without the strict limit: nothing if the charge fits or there is less than that to evict; otherwise as much as leaves
   usage where it was, and a little more if it was over capacity. A place that is needed takes at least one eviction.
   */
  lemma AsksEnough(c: Config, charge: nat, seen: int, needOccupancy: bool)
    ensures var need := NeedEvict(c, charge, seen, needOccupancy);
            && need >= 0 && (needOccupancy ==> need > 0)
            && (seen + charge <= c.capacity || charge > seen ==> need == One(needOccupancy))
            && (seen + charge > c.capacity && charge <= seen <= c.capacity ==> seen + charge - need == seen)
            && (charge <= seen && c.capacity < seen ==>
                  seen + charge - need < seen && need <= 2 * charge + 1 && need <= charge + c.capacity / 1024 + 1)
  {
  }

  /**
   A thread evicts only if it needs a place or, under the strict limit, could not grab its whole charge; otherwise, if what
   it read leaves no room for the charge and there is as much to evict.
   */
  lemma EvictsIff(c: Config, s: Ledger, i: nat, j: nat)
    requires Inv(c, s) && i < |s.agents| && j < |s.live|
    ensures var a := s.agents[i];
            && (c.strict && a.Evicting? ==>
                  (Enabled(c, s, i, TakeVictim(j)) <==> a.needOccupancy || a.grabbed < a.op.charge))
            && (!c.strict && a.Counted? ==>
                  (Enabled(c, Next(c, s, i, Read), i, TakeVictim(j)) <==>
                     a.needOccupancy || s.usage - a.op.charge >= 0 > c.capacity - s.usage - a.op.charge))
  {
    hide Conserved;
    assert Consistent(c, s.agents[i]);
  }

  // ---- A thread that is left alone ----

  /** Whether thread i can take these steps, one after the other, and where that leads. */
  predicate CanDo(c: Config, s: Ledger, i: nat, acts: seq<Action>)
    decreases |acts|
  {
    acts == [] || (Enabled(c, s, i, acts[0]) && CanDo(c, Next(c, s, i, acts[0]), i, acts[1..]))
  }

  function Do(c: Config, s: Ledger, i: nat, acts: seq<Action>): Ledger
    requires CanDo(c, s, i, acts)
    decreases |acts|
  {
    if acts == [] then s else Do(c, Next(c, s, i, acts[0]), i, acts[1..])
  }

  lemma {:induction false} DoConcat(c: Config, s: Ledger, i: nat, a: seq<Action>, b: seq<Action>)
    requires CanDo(c, s, i, a) && CanDo(c, Do(c, s, i, a), i, b)
    ensures CanDo(c, s, i, a + b) && Do(c, s, i, a + b) == Do(c, Do(c, s, i, a), i, b)
    decreases |a|
  {
    hide Enabled, Next;
    if a == [] {
      assert a + b == b;
    } else {
      assert (a + b)[1..] == a[1..] + b;
      DoConcat(c, Next(c, s, i, a[0]), i, a[1..], b);
    }
  }

  lemma DoOne(c: Config, s: Ledger, i: nat, act: Action)
    requires Enabled(c, s, i, act)
    ensures CanDo(c, s, i, [act]) && Do(c, s, i, [act]) == Next(c, s, i, act)
  {
    hide Enabled, Next;
    assert [act][1..] == [];
  }

  // ---- Victims ----

  predicate Victims(live: seq<nat>, js: seq<nat>)
  {
    js == [] || (js[0] < |live| && Victims(Without(live, js[0]), js[1..]))
  }

  /** The charge of the entries that are evicted, and those that are left. */
  function Freed(live: seq<nat>, js: seq<nat>): nat
    requires Victims(live, js)
  {
    if js == [] then 0 else live[js[0]] + Freed(Without(live, js[0]), js[1..])
  }

  function Left(live: seq<nat>, js: seq<nat>): (r: seq<nat>)
    requires Victims(live, js)
    ensures |r| == |live| - |js| && Sum(r) == Sum(live) - Freed(live, js)
  {
    if js == [] then live
    else
      SumWithout(live, js[0]);
      Left(Without(live, js[0]), js[1..])
  }

  function Takes(js: seq<nat>): seq<Action> { if js == [] then [] else [TakeVictim(js[0])] + Takes(js[1..]) }

  lemma {:induction false} TakeAll(c: Config, s: Ledger, i: nat, js: seq<nat>)
    requires i < |s.agents| && s.agents[i].Evicting? && Victims(s.live, js)
    requires js != [] ==> s.agents[i].need > 0 || s.agents[i].needOccupancy
    ensures CanDo(c, s, i, Takes(js)) && Do(c, s, i, Takes(js)) == Taken(s, i, Left(s.live, js), Freed(s.live, js), |js|)
    decreases |js|
  {
    hide Enabled, Next, CanDo, Do, Sum, Without;
    if js == [] {
      NoSteps(c, s, i);
      assert s.agents[i := s.agents[i]] == s.agents;
    } else {
      TakeOne(c, s, i, js[0]);
      var t := Next(c, s, i, TakeVictim(js[0]));
      DoOne(c, s, i, TakeVictim(js[0]));
      TakeAll(c, t, i, js[1..]);
      DoConcat(c, s, i, [TakeVictim(js[0])], Takes(js[1..]));
    }
  }

  /** The ledger after thread i took n victims with charges of `freed` altogether. */
  function Taken(s: Ledger, i: nat, live: seq<nat>, freed: nat, n: nat): Ledger
    requires i < |s.agents| && s.agents[i].Evicting?
  {
    var a := s.agents[i];
    s.(live := live, agents := s.agents[i := a.(freed := a.freed + freed, count := a.count + n)])
  }

  lemma NoSteps(c: Config, s: Ledger, i: nat)
    ensures CanDo(c, s, i, []) && Do(c, s, i, []) == s
  {
  }

  lemma TakeOne(c: Config, s: Ledger, i: nat, j: nat)
    requires i < |s.agents| && s.agents[i].Evicting? && j < |s.live|
    requires s.agents[i].need > 0 || s.agents[i].needOccupancy
    ensures Enabled(c, s, i, TakeVictim(j))
    ensures Next(c, s, i, TakeVictim(j)) == Taken(s, i, Without(s.live, j), s.live[j], 1)
  {
  }

  // ---- Charging ----

  /** Whether anything is to be evicted for a charge. */
  predicate Asked(c: Config, usage: int, charge: nat, needOccupancy: bool)
  {
    needOccupancy || (usage + charge > c.capacity && (c.strict || charge <= usage))
  }

  /** Whether there is not enough room for a charge after entries with charge `freed` were evicted, n of them. */
  predicate Rejected(c: Config, usage: int, charge: nat, needOccupancy: bool, freed: nat, n: nat)
  {
    (needOccupancy && n == 0) || (c.strict && (charge > c.capacity || usage + charge - freed > c.capacity))
  }

  function ChargeActs(c: Config, op: Op, needOccupancy: bool, js: seq<nat>): seq<Action>
  {
    if c.strict && op.charge > c.capacity then [Read]
    else
      (if c.strict then [Read, Swap(false)] else [Read]) +
      (Takes(js) + if needOccupancy && js == [] then [EndEvict] else [EndEvict, Settle])
  }

  /** A state in which nobody but thread i has anything in hand. */
  function With(s: Ledger, i: nat, a: Agent): Ledger
    requires i < |s.agents|
  {
    s.(agents := s.agents[i := a])
  }

  /** Reading usage, and grabbing what there is with the strict limit. */
  lemma GrabAlone(c: Config, s: Ledger, i: nat, op: Op, needOccupancy: bool)
    requires i < |s.agents| && s.agents[i] == Counted(op, needOccupancy)
    requires c.strict ==> s.usage <= c.capacity && op.charge <= c.capacity
    ensures var acts := if c.strict then [Read, Swap(false)] else [Read];
            var grabbed := if c.strict then Min(c.capacity - s.usage, op.charge) else 0;
            var need := if c.strict then op.charge - grabbed else NeedEvict(c, op.charge, s.usage, needOccupancy);
            && CanDo(c, s, i, acts)
            && Do(c, s, i, acts) == With(s, i, Evicting(op, needOccupancy, need, grabbed, 0, 0)).(usage := s.usage + grabbed)
  {
    hide NeedEvict;
    var t := Next(c, s, i, Read);
    if c.strict {
      assert [Read, Swap(false)] == [Read] + [Swap(false)];
      DoOne(c, s, i, Read);
      DoOne(c, t, i, Swap(false));
      DoConcat(c, s, i, [Read], [Swap(false)]);
    } else {
      DoOne(c, s, i, Read);
    }
  }

  /** Settling after an eviction. */
  lemma SettleAlone(c: Config, s: Ledger, i: nat, a: Agent)
    requires i < |s.agents| && s.agents[i] == a && a.Evicting? && Consistent(c, a)
    ensures var acts := if a.needOccupancy && a.count == 0 then [EndEvict] else [EndEvict, Settle];
            var refused := (a.needOccupancy && a.count == 0) || (c.strict && a.grabbed + a.freed < a.op.charge);
            && CanDo(c, s, i, acts)
            && Do(c, s, i, acts) ==
               With(s, i, if refused then Refused(a.op) else Charged(a.op)).(
                 occupancy := s.occupancy - a.count,
                 usage := s.usage - a.grabbed - a.freed + if refused then 0 else a.op.charge)
  {
    if a.needOccupancy && a.count == 0 {
      DoOne(c, s, i, EndEvict);
    } else {
      assert [EndEvict, Settle] == [EndEvict] + [Settle];
      var t := Next(c, s, i, EndEvict);
      DoOne(c, s, i, EndEvict);
      DoOne(c, t, i, Settle);
      DoConcat(c, s, i, [EndEvict], [Settle]);
    }
  }

  /** A charge by a thread that is left alone: refused exactly if there is no room, otherwise usage has it. */
  lemma ChargeAlone(c: Config, s: Ledger, i: nat, op: Op, needOccupancy: bool, js: seq<nat>)
    requires i < |s.agents| && s.agents[i] == Counted(op, needOccupancy) && Victims(s.live, js)
    requires c.strict ==> s.usage <= c.capacity
    requires js != [] ==> Asked(c, s.usage, op.charge, needOccupancy)
    requires c.strict && op.charge > c.capacity ==> js == []
    ensures var refused := Rejected(c, s.usage, op.charge, needOccupancy, Freed(s.live, js), |js|);
            && CanDo(c, s, i, ChargeActs(c, op, needOccupancy, js))
            && Do(c, s, i, ChargeActs(c, op, needOccupancy, js)) ==
               With(s, i, if refused then Refused(op) else Charged(op)).(
                 live := Left(s.live, js), occupancy := s.occupancy - |js|,
                 usage := s.usage - Freed(s.live, js) + if refused then 0 else op.charge)
  {
    hide Victims, Freed, Left, Takes, NeedEvict, Enabled, Next, CanDo, Do;
    if c.strict && op.charge > c.capacity {
      TooLarge(c, s, i, op, needOccupancy);
      NoVictims(s.live);
    } else {
      var acts := if c.strict then [Read, Swap(false)] else [Read];
      var more := if needOccupancy && js == [] then [EndEvict] else [EndEvict, Settle];
      GrabAlone(c, s, i, op, needOccupancy);
      if !c.strict {
        NeedsWhenAsked(c, op.charge, s.usage, needOccupancy);
      }
      var t := Do(c, s, i, acts);
      TakeAll(c, t, i, js);
      var u := Do(c, t, i, Takes(js));
      NoVictims(s.live);
      SettleAlone(c, u, i, u.agents[i]);
      DoConcat(c, t, i, Takes(js), more);
      DoConcat(c, s, i, acts, Takes(js) + more);
    }
  }

  lemma NeedsWhenAsked(c: Config, charge: nat, seen: int, needOccupancy: bool)
    requires !c.strict
    ensures Asked(c, seen, charge, needOccupancy) <==> NeedEvict(c, charge, seen, needOccupancy) > 0
  {
  }

  lemma NoVictims(live: seq<nat>)
    ensures Victims(live, []) && Freed(live, []) == 0 && Left(live, []) == live
  {
  }

  lemma TooLarge(c: Config, s: Ledger, i: nat, op: Op, needOccupancy: bool)
    requires i < |s.agents| && s.agents[i] == Counted(op, needOccupancy) && c.strict && op.charge > c.capacity
    ensures CanDo(c, s, i, [Read]) && Do(c, s, i, [Read]) == With(s, i, Refused(op))
  {
    DoOne(c, s, i, Read);
  }

  // ---- Whole operations ----

  /** The entry goes without a place in the table. */
  function Stand(s: Ledger, charge: nat): Ledger
  {
    s.(standing := s.standing + [charge], standaloneUsage := s.standaloneUsage + charge)
  }

  /** What becomes of an entry that was refused, and of one that was charged. */
  function RefusedOutcome(c: Config, s: Ledger, op: Op): Ledger
  {
    if op.table then
      var t := s.(occupancy := s.occupancy - 1);
      if c.strict || !op.handle then t else Stand(t.(usage := t.usage + op.charge), op.charge)
    else if op.allowUncharged then Stand(s, 0)
    else s
  }

  function ChargedOutcome(s: Ledger, op: Op, placed: bool): Ledger
  {
    if !op.table then Stand(s, op.charge)
    else if placed then s.(live := s.live + [op.charge])
    else
      var t := s.(occupancy := s.occupancy - 1);
      if op.handle then Stand(t, op.charge) else t.(usage := t.usage - op.charge)
  }

  function RefusedActs(c: Config, op: Op): seq<Action>
  {
    if op.table then if c.strict || !op.handle then [Refuse] else [Refuse, Force, MakeStandalone]
    else if op.allowUncharged then [Refuse, MakeStandalone]
    else [Refuse]
  }

  function ChargedActs(op: Op, placed: bool): seq<Action>
  {
    if !op.table then [Place(placed), MakeStandalone]
    else if placed then [Place(true)]
    else if op.handle then [Place(false), GiveUp, MakeStandalone]
    else [Place(false), GiveUp]
  }

  lemma DoTwo(c: Config, s: Ledger, i: nat, a: Action, b: Action)
    requires Enabled(c, s, i, a) && Enabled(c, Next(c, s, i, a), i, b)
    ensures CanDo(c, s, i, [a, b]) && Do(c, s, i, [a, b]) == Next(c, Next(c, s, i, a), i, b)
  {
    hide Enabled, Next, CanDo, Do;
    DoOne(c, s, i, a);
    DoOne(c, Next(c, s, i, a), i, b);
    DoConcat(c, s, i, [a], [b]);
    assert [a] + [b] == [a, b];
  }

  lemma DoThree(c: Config, s: Ledger, i: nat, a: Action, b: Action, d: Action)
    requires Enabled(c, s, i, a) && Enabled(c, Next(c, s, i, a), i, b) && Enabled(c, Next(c, Next(c, s, i, a), i, b), i, d)
    ensures CanDo(c, s, i, [a, b, d]) && Do(c, s, i, [a, b, d]) == Next(c, Next(c, Next(c, s, i, a), i, b), i, d)
  {
    hide Enabled, Next, CanDo, Do;
    DoTwo(c, s, i, a, b);
    DoOne(c, Next(c, Next(c, s, i, a), i, b), i, d);
    DoConcat(c, s, i, [a, b], [d]);
    assert [a, b] + [d] == [a, b, d];
  }

  lemma RefusedAlone(c: Config, s: Ledger, i: nat, op: Op)
    requires i < |s.agents| && s.agents[i] == Refused(op)
    ensures CanDo(c, s, i, RefusedActs(c, op))
    ensures Do(c, s, i, RefusedActs(c, op)) == RefusedOutcome(c, With(s, i, Idle), op)
  {
    hide CanDo, Do;
    if op.table {
      if c.strict || !op.handle {
        DoOne(c, s, i, Refuse);
      } else {
        DoThree(c, s, i, Refuse, Force, MakeStandalone);
      }
    } else if op.allowUncharged {
      DoTwo(c, s, i, Refuse, MakeStandalone);
    } else {
      DoOne(c, s, i, Refuse);
    }
  }

  lemma ChargedAlone(c: Config, s: Ledger, i: nat, op: Op, placed: bool)
    requires i < |s.agents| && s.agents[i] == Charged(op)
    ensures CanDo(c, s, i, ChargedActs(op, placed))
    ensures Do(c, s, i, ChargedActs(op, placed)) == ChargedOutcome(With(s, i, Idle), op, placed)
  {
    hide CanDo, Do;
    if !op.table {
      DoTwo(c, s, i, Place(placed), MakeStandalone);
    } else if placed {
      DoOne(c, s, i, Place(true));
    } else if op.handle {
      DoThree(c, s, i, Place(false), GiveUp, MakeStandalone);
    } else {
      DoTwo(c, s, i, Place(false), GiveUp);
    }
  }

  /** Whether the entry would be one too many. */
  predicate Crowded(c: Config, s: Ledger, op: Op) { op.table && s.occupancy + 1 > c.occupancyLimit }

  /** The ledger after an insert that evicted the given entries and found a slot or not. */
  function Outcome(c: Config, s: Ledger, op: Op, js: seq<nat>, placed: bool): Ledger
    requires Victims(s.live, js)
  {
    var freed := Freed(s.live, js);
    var t := s.(live := Left(s.live, js), occupancy := s.occupancy + One(op.table) - |js|, usage := s.usage - freed);
    if Rejected(c, s.usage, op.charge, Crowded(c, s, op), freed, |js|) then RefusedOutcome(c, t, op)
    else ChargedOutcome(t.(usage := t.usage + op.charge), op, placed)
  }

  function InsertActs(c: Config, s: Ledger, op: Op, js: seq<nat>, placed: bool): seq<Action>
    requires Victims(s.live, js)
  {
    [if op.table then BeginInsert(op) else BeginStandalone(op)] +
    (ChargeActs(c, op, Crowded(c, s, op), js) +
     if Rejected(c, s.usage, op.charge, Crowded(c, s, op), Freed(s.live, js), |js|) then RefusedActs(c, op)
     else ChargedActs(op, placed))
  }

  /**
   An insert by a thread that is left alone, from its first step to its last: it ends, and the ledger is as an insert in
   one step would leave it.
   */
  lemma InsertAlone(c: Config, s: Ledger, i: nat, op: Op, js: seq<nat>, placed: bool)
    requires i < |s.agents| && s.agents[i] == Idle && Victims(s.live, js) && (c.strict ==> s.usage <= c.capacity)
    requires if op.table then !op.allowUncharged else op.handle
    requires js != [] ==> Asked(c, s.usage, op.charge, Crowded(c, s, op)) && !(c.strict && op.charge > c.capacity)
    ensures CanDo(c, s, i, InsertActs(c, s, op, js, placed))
    ensures Do(c, s, i, InsertActs(c, s, op, js, placed)) == Outcome(c, s, op, js, placed)
  {
    hide Victims, Freed, Left, CanDo, Do, ChargeActs, RefusedActs, ChargedActs, RefusedOutcome, ChargedOutcome, Rejected, Asked;
    var first := if op.table then BeginInsert(op) else BeginStandalone(op);
    var crowded := Crowded(c, s, op);
    DoOne(c, s, i, first);
    var t := Next(c, s, i, first);
    BeginAlone(c, s, i, op);
    ChargeAlone(c, t, i, op, crowded, js);
    var u := Do(c, t, i, ChargeActs(c, op, crowded, js));
    var refused := Rejected(c, s.usage, op.charge, crowded, Freed(s.live, js), |js|);
    if refused {
      RefusedAlone(c, u, i, op);
    } else {
      ChargedAlone(c, u, i, op, placed);
    }
    var rest := if refused then RefusedActs(c, op) else ChargedActs(op, placed);
    DoConcat(c, t, i, ChargeActs(c, op, crowded, js), rest);
    DoConcat(c, s, i, [first], ChargeActs(c, op, crowded, js) + rest);
    assert s.agents[i := Counted(op, crowded)][i := if refused then Refused(op) else Charged(op)][i := Idle] == s.agents;
  }

  lemma BeginAlone(c: Config, s: Ledger, i: nat, op: Op)
    requires i < |s.agents| && s.agents[i] == Idle && if op.table then !op.allowUncharged else op.handle
    ensures var first := if op.table then BeginInsert(op) else BeginStandalone(op);
            && Enabled(c, s, i, first)
            && Next(c, s, i, first) == With(s, i, Counted(op, Crowded(c, s, op))).(occupancy := s.occupancy + One(op.table))
  {
  }

  /** An insert that fits, by a thread that is left alone, evicts nothing; its charge is in the table and in usage. */
  lemma FittingInsert(c: Config, s: Ledger, i: nat, op: Op)
    requires i < |s.agents| && s.agents[i] == Idle && op.table && !op.allowUncharged
    requires s.usage + op.charge <= c.capacity && s.occupancy < c.occupancyLimit && s.usage >= 0
    ensures CanDo(c, s, i, InsertActs(c, s, op, [], true))
    ensures Do(c, s, i, InsertActs(c, s, op, [], true)) ==
            s.(live := s.live + [op.charge], usage := s.usage + op.charge, occupancy := s.occupancy + 1)
    ensures !Asked(c, s.usage, op.charge, Crowded(c, s, op))
  {
    hide CanDo, Do, InsertActs;
    NoVictims(s.live);
    InsertAlone(c, s, i, op, [], true);
  }

  /** Freeing an entry of the table, and a standalone one, takes exactly its charge out of usage. */
  lemma FreeAlone(c: Config, s: Ledger, i: nat, j: nat)
    requires i < |s.agents| && s.agents[i] == Idle
    ensures j < |s.live| ==>
              && CanDo(c, s, i, [FreeEntry(j), Account, Account])
              && Do(c, s, i, [FreeEntry(j), Account, Account]) ==
                 s.(live := Without(s.live, j), occupancy := s.occupancy - 1, usage := s.usage - s.live[j])
    ensures j < |s.standing| ==>
              && CanDo(c, s, i, [FreeStandalone(j), Account, Account])
              && Do(c, s, i, [FreeStandalone(j), Account, Account]) ==
                 s.(standing := Without(s.standing, j), standaloneUsage := s.standaloneUsage - s.standing[j],
                    usage := s.usage - s.standing[j])
  {
    hide CanDo, Do;
    if j < |s.live| {
      DoThree(c, s, i, FreeEntry(j), Account, Account);
      assert s.agents[i := Reclaiming(s.live[j], true)][i := Reclaiming(s.live[j], false)][i := Idle] == s.agents;
    }
    if j < |s.standing| {
      DoThree(c, s, i, FreeStandalone(j), Account, Account);
      assert s.agents[i := Discarding(s.standing[j], true)][i := Discarding(s.standing[j], false)][i := Idle] == s.agents;
    }
  }
}
