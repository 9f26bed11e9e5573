/**
 The usage and occupancy counters of the fixed-size clock table, under any number of threads. Each atomic
 operation on a counter, and each entry that appears or disappears, is one step. What a thread has added
 to a counter and not yet accounted for is what it holds; the counters are exactly what is there plus what
 is held.

 Amounts are mathematical integers here. The code computes them modulo 2^64, which makes no difference to
 sums whose true value fits.
 */
module UsageLedger {
  import opened Totals

  /** What does not change: capacity, charge of the table itself, strict limit or not, most entries allowed. */
  datatype Config = Config(capacity: nat, tableCharge: nat, strict: bool, occupancyLimit: nat)

  /** An insert: the charge, whether it goes to the table, whether a handle is wanted, whether it may go uncharged. */
  datatype Op = Op(charge: nat, table: bool, handle: bool, allowUncharged: bool)

  datatype Agent =
    | Idle
    | Counted(op: Op, needOccupancy: bool)                      // entry counted, usage not yet charged
    | Grabbing(op: Op, needOccupancy: bool, seen: int)          // strict: usage read, about to swap in a new value
    | Evicting(op: Op, needOccupancy: bool, need: int, grabbed: int, freed: nat, count: nat)
    | Settling(op: Op, needOccupancy: bool, need: int, grabbed: int, freed: nat)
    | Refused(op: Op)                                           // charge refused
    | Forcing(op: Op)                                           // not strict: to be charged without eviction
    | Charged(op: Op)                                           // usage charged, entry not yet placed
    | Unplaced(op: Op)                                          // no slot for it, occupancy already given back
    | Standing(op: Op)                                          // to become a standalone entry
    | Reclaiming(charge: nat, counted: bool)                    // freed a table entry
    | Discarding(charge: nat, standalone: bool)                 // freed a standalone entry

  datatype Ledger = Ledger(usage: int, occupancy: int, standaloneUsage: int,
                           live: seq<nat>, standing: seq<nat>, agents: seq<Agent>)

  // ---- What a thread holds ----

  function HeldUsage(a: Agent): int
  {
    match a
    case Evicting(_, _, _, grabbed, freed, _) => grabbed + freed
    case Settling(_, _, _, grabbed, freed) => grabbed + freed
    case Charged(op) => op.charge
    case Unplaced(op) => op.charge
    case Standing(op) => op.charge
    case Reclaiming(charge, _) => charge
    case Discarding(charge, standalone) => if standalone then 0 else charge
    case _ => 0
  }

  function One(b: bool): int { if b then 1 else 0 }

  function HeldOccupancy(a: Agent): int
  {
    match a
    case Counted(op, _) => One(op.table)
    case Grabbing(op, _, _) => One(op.table)
    case Evicting(op, _, _, _, _, count) => One(op.table) + count
    case Settling(op, _, _, _, _) => One(op.table)
    case Refused(op) => One(op.table)
    case Charged(op) => One(op.table)
    case Reclaiming(_, counted) => One(counted)
    case _ => 0
  }

  function HeldStandalone(a: Agent): int
  {
    if a.Discarding? && a.standalone then a.charge else 0
  }

  function UsageSum(s: seq<Agent>): int { if s == [] then 0 else HeldUsage(s[0]) + UsageSum(s[1..]) }
  function OccupancySum(s: seq<Agent>): int { if s == [] then 0 else HeldOccupancy(s[0]) + OccupancySum(s[1..]) }
  function StandaloneSum(s: seq<Agent>): int { if s == [] then 0 else HeldStandalone(s[0]) + StandaloneSum(s[1..]) }

  // ---- Steps ----

  datatype Action =
    | BeginInsert(op: Op)            // occupancy up by one
    | BeginStandalone(op: Op)
    | Read                           // look at usage
    | Swap(spurious: bool)           // strict: compare-and-swap on usage
    | TakeVictim(i: nat)             // evict a table entry
    | EndEvict                       // occupancy down by what was evicted
    | Settle                         // adjust usage
    | Refuse                         // revert occupancy and give up, or go standalone
    | Force                          // charge what could not be charged
    | Place(ok: bool)                // put the entry into the table, or not
    | GiveUp                         // take back the charge of an entry without a place
    | MakeStandalone
    | FreeEntry(i: nat)              // take ownership of a table entry and free it
    | FreeStandalone(i: nat)
    | Account                        // next step of accounting for something freed

  predicate Enabled(c: Config, s: Ledger, i: nat, act: Action)
  {
    i < |s.agents| &&
    var a := s.agents[i];
    match act
    case BeginInsert(op) => a.Idle? && op.table && !op.allowUncharged
    case BeginStandalone(op) => a.Idle? && !op.table && op.handle
    case Read => a.Counted?
    case Swap(_) => a.Grabbing?
    case TakeVictim(j) => a.Evicting? && (a.need > 0 || a.needOccupancy) && j < |s.live|
    case EndEvict => a.Evicting?
    case Settle => a.Settling?
    case Refuse => a.Refused?
    case Force => a.Forcing?
    case Place(_) => a.Charged?
    case GiveUp => a.Unplaced?
    case MakeStandalone => a.Standing?
    case FreeEntry(j) => a.Idle? && j < |s.live|
    case FreeStandalone(j) => a.Idle? && j < |s.standing|
    case Account => a.Reclaiming? || a.Discarding?
  }

  function Min(a: int, b: int): int { if a < b then a else b }

  /** Non-strict: how much to evict, given the usage seen. */
  function NeedEvict(c: Config, charge: nat, seen: int, needOccupancy: bool): int
  {
    var need := if seen + charge <= c.capacity || charge > seen then 0
                else charge + if seen > c.capacity then Min(c.capacity / 1024, charge) + 1 else 0;
    if needOccupancy && need == 0 then 1 else need
  }

  /** What a thread does after reading usage. */
  function AfterRead(c: Config, usage: int, op: Op, needOccupancy: bool): Agent
  {
    if c.strict then
      if op.charge > c.capacity then Refused(op) else Grabbing(op, needOccupancy, usage)
    else
      Evicting(op, needOccupancy, NeedEvict(c, op.charge, usage, needOccupancy), 0, 0, 0)
  }

  function Next(c: Config, s: Ledger, i: nat, act: Action): Ledger
    requires Enabled(c, s, i, act)
  {
    var a := s.agents[i];
    match act
    case BeginInsert(op) =>
      s.(occupancy := s.occupancy + 1, agents := s.agents[i := Counted(op, s.occupancy + 1 > c.occupancyLimit)])
    case BeginStandalone(op) => s.(agents := s.agents[i := Counted(op, false)])
    case Read => s.(agents := s.agents[i := AfterRead(c, s.usage, a.op, a.needOccupancy)])
    case Swap(spurious) =>
      var target := Min(c.capacity, a.seen + a.op.charge);
      if target == a.seen then
        s.(agents := s.agents[i := Evicting(a.op, a.needOccupancy, a.op.charge, 0, 0, 0)])
      else if s.usage == a.seen && !spurious then
        s.(usage := target,
           agents := s.agents[i := Evicting(a.op, a.needOccupancy, a.seen + a.op.charge - target, target - a.seen, 0, 0)])
      else s.(agents := s.agents[i := a.(seen := s.usage)])
    case TakeVictim(j) =>
      s.(live := Without(s.live, j),
         agents := s.agents[i := a.(freed := a.freed + s.live[j], count := a.count + 1)])
    case EndEvict =>
      if a.needOccupancy && a.count == 0 then
        // Nothing was evicted although a place was needed; strict mode gives back what it grabbed.
        if c.strict then s.(usage := s.usage - (a.freed + a.grabbed), agents := s.agents[i := Refused(a.op)])
        else s.(agents := s.agents[i := Refused(a.op)])
      else
        s.(occupancy := s.occupancy - a.count,
           agents := s.agents[i := Settling(a.op, a.needOccupancy, a.need, a.grabbed, a.freed)])
    case Settle =>
      if c.strict then
        if a.freed < a.need then
          s.(usage := s.usage - (a.freed + a.grabbed), agents := s.agents[i := Refused(a.op)])
        else s.(usage := s.usage - (a.freed - a.need), agents := s.agents[i := Charged(a.op)])
      else s.(usage := s.usage + (a.op.charge - a.freed), agents := s.agents[i := Charged(a.op)])
    case Refuse =>
      if a.op.table then
        if c.strict || !a.op.handle then s.(occupancy := s.occupancy - 1, agents := s.agents[i := Idle])
        else s.(occupancy := s.occupancy - 1, agents := s.agents[i := Forcing(a.op)])
      else if a.op.allowUncharged then s.(agents := s.agents[i := Standing(a.op.(charge := 0))])
      else s.(agents := s.agents[i := Idle])
    case Force => s.(usage := s.usage + a.op.charge, agents := s.agents[i := Standing(a.op)])
    case Place(ok) =>
      if !a.op.table then s.(agents := s.agents[i := Standing(a.op)])
      else if ok then s.(live := s.live + [a.op.charge], agents := s.agents[i := Idle])
      else s.(occupancy := s.occupancy - 1, agents := s.agents[i := Unplaced(a.op)])
    case GiveUp =>
      if a.op.handle then s.(agents := s.agents[i := Standing(a.op)])
      else s.(usage := s.usage - a.op.charge, agents := s.agents[i := Idle])
    case MakeStandalone =>
      s.(standaloneUsage := s.standaloneUsage + a.op.charge, standing := s.standing + [a.op.charge],
         agents := s.agents[i := Idle])
    case FreeEntry(j) => s.(live := Without(s.live, j), agents := s.agents[i := Reclaiming(s.live[j], true)])
    case FreeStandalone(j) =>
      s.(standing := Without(s.standing, j), agents := s.agents[i := Discarding(s.standing[j], true)])
    case Account =>
      if a.Reclaiming? then
        if a.counted then s.(occupancy := s.occupancy - 1, agents := s.agents[i := a.(counted := false)])
        else s.(usage := s.usage - a.charge, agents := s.agents[i := Idle])
      else if a.standalone then
        s.(standaloneUsage := s.standaloneUsage - a.charge, agents := s.agents[i := a.(standalone := false)])
      else s.(usage := s.usage - a.charge, agents := s.agents[i := Idle])
  }

  // ---- What every interleaving keeps ----

  /** The counters are exactly what is there plus what threads hold. */
  predicate Conserved(c: Config, s: Ledger)
  {
    && s.usage == c.tableCharge + Sum(s.live) + s.standaloneUsage + UsageSum(s.agents)
    && s.occupancy == |s.live| + OccupancySum(s.agents)
    && s.standaloneUsage == Sum(s.standing) + StandaloneSum(s.agents)
  }

  /** A thread's local amounts fit together. */
  predicate Consistent(c: Config, a: Agent)
  {
    match a
    case Evicting(op, _, need, grabbed, freed, count) =>
      && (if c.strict then grabbed + need == op.charge else grabbed == 0)
      && (count == 0 ==> freed == 0)
    case Settling(op, _, need, grabbed, _) => if c.strict then grabbed + need == op.charge else grabbed == 0
    case Grabbing(_, _, _) => c.strict
    case Forcing(_) => !c.strict
    case Unplaced(op) => op.table
    case _ => true
  }

  /** In strict mode a thread read a usage within capacity and grabbed a non-negative part of it. */
  predicate Within(c: Config, a: Agent)
  {
    match a
    case Grabbing(_, _, seen) => seen <= c.capacity
    case Evicting(_, _, _, grabbed, _, _) => grabbed >= 0
    case Settling(_, _, _, grabbed, _) => grabbed >= 0
    case _ => true
  }

  predicate Inv(c: Config, s: Ledger)
  {
    Conserved(c, s) && forall i :: 0 <= i < |s.agents| ==> Consistent(c, s.agents[i])
  }

  predicate StrictInv(c: Config, s: Ledger)
  {
    s.usage <= c.capacity && forall i :: 0 <= i < |s.agents| ==> Within(c, s.agents[i])
  }

  lemma {:induction false} HeldAt(s: seq<Agent>, i: nat, a: Agent)
    requires i < |s|
    ensures UsageSum(s[i := a]) == UsageSum(s) - HeldUsage(s[i]) + HeldUsage(a)
    ensures OccupancySum(s[i := a]) == OccupancySum(s) - HeldOccupancy(s[i]) + HeldOccupancy(a)
    ensures StandaloneSum(s[i := a]) == StandaloneSum(s) - HeldStandalone(s[i]) + HeldStandalone(a)
  {
    hide HeldUsage, HeldOccupancy, HeldStandalone;
    if i == 0 {
      assert s[i := a][1..] == s[1..];
    } else {
      HeldAt(s[1..], i - 1, a);
      assert s[i := a][1..] == s[1..][i - 1 := a];
    }
  }

  lemma UsageKept(c: Config, s: Ledger, i: nat, act: Action)
    requires Inv(c, s) && Enabled(c, s, i, act)
    ensures var t := Next(c, s, i, act); t.usage == c.tableCharge + Sum(t.live) + t.standaloneUsage + UsageSum(t.agents)
  {
    hide UsageSum, OccupancySum, StandaloneSum, Sum, Without, NeedEvict, HeldOccupancy, HeldStandalone;
    assert Consistent(c, s.agents[i]);
    HeldAt(s.agents, i, Next(c, s, i, act).agents[i]);
    match act
    case TakeVictim(j) => SumWithout(s.live, j);
    case FreeEntry(j) => SumWithout(s.live, j);
    case Place(ok) => SumAppend(s.live, s.agents[i].op.charge);
    case _ =>
  }

  lemma OccupancyKept(c: Config, s: Ledger, i: nat, act: Action)
    requires Inv(c, s) && Enabled(c, s, i, act)
    ensures var t := Next(c, s, i, act); t.occupancy == |t.live| + OccupancySum(t.agents)
  {
    hide UsageSum, OccupancySum, StandaloneSum, Sum, Without, NeedEvict, HeldUsage, HeldStandalone;
    assert Consistent(c, s.agents[i]);
    HeldAt(s.agents, i, Next(c, s, i, act).agents[i]);
    match act
    case TakeVictim(j) => SumWithout(s.live, j);
    case FreeEntry(j) => SumWithout(s.live, j);
    case Place(ok) => SumAppend(s.live, s.agents[i].op.charge);
    case _ =>
  }

  lemma StandaloneKept(c: Config, s: Ledger, i: nat, act: Action)
    requires Inv(c, s) && Enabled(c, s, i, act)
    ensures var t := Next(c, s, i, act); t.standaloneUsage == Sum(t.standing) + StandaloneSum(t.agents)
  {
    hide UsageSum, OccupancySum, StandaloneSum, Sum, Without, NeedEvict, HeldUsage, HeldOccupancy;
    assert Consistent(c, s.agents[i]);
    HeldAt(s.agents, i, Next(c, s, i, act).agents[i]);
    match act
    case FreeStandalone(j) => SumWithout(s.standing, j);
    case MakeStandalone => SumAppend(s.standing, s.agents[i].op.charge);
    case _ =>
  }

  lemma ConsistentKept(c: Config, s: Ledger, i: nat, act: Action)
    requires Inv(c, s) && Enabled(c, s, i, act)
    ensures forall j :: 0 <= j < |s.agents| ==> Consistent(c, Next(c, s, i, act).agents[j])
    ensures |Next(c, s, i, act).agents| == |s.agents|
  {
    hide Conserved, NeedEvict, Without;
    assert Consistent(c, s.agents[i]);
    assert Consistent(c, Next(c, s, i, act).agents[i]);
  }

  lemma InvKept(c: Config, s: Ledger, i: nat, act: Action)
    requires Inv(c, s) && Enabled(c, s, i, act)
    ensures Inv(c, Next(c, s, i, act))
  {
    hide Next, Consistent, Enabled;
    UsageKept(c, s, i, act);
    OccupancyKept(c, s, i, act);
    StandaloneKept(c, s, i, act);
    ConsistentKept(c, s, i, act);
  }

  /** In strict mode no step takes usage over capacity. */
  lemma StrictKept(c: Config, s: Ledger, i: nat, act: Action)
    requires c.strict && Inv(c, s) && StrictInv(c, s) && Enabled(c, s, i, act)
    ensures StrictInv(c, Next(c, s, i, act))
  {
    hide Conserved, NeedEvict, Without;
    var t := Next(c, s, i, act);
    assert Consistent(c, s.agents[i]) && Within(c, s.agents[i]);
    assert t.usage <= c.capacity;
    assert Within(c, t.agents[i]);
  }

  // ---- Whole runs ----

  datatype Move = Move(agent: nat, act: Action)

  predicate Run(c: Config, states: seq<Ledger>, moves: seq<Move>)
  {
    && |states| == |moves| + 1
    && forall k :: 0 <= k < |moves| ==>
         && Enabled(c, states[k], moves[k].agent, moves[k].act)
         && states[k + 1] == Next(c, states[k], moves[k].agent, moves[k].act)
  }

  /** An empty table: its own charge is all the usage there is. */
  predicate Start(c: Config, s: Ledger)
  {
    && s.usage == c.tableCharge && s.occupancy == 0 && s.standaloneUsage == 0 && s.live == [] && s.standing == []
    && forall i :: 0 <= i < |s.agents| ==> s.agents[i] == Idle
  }

  lemma {:induction false} IdleHoldsNothing(s: seq<Agent>)
    requires forall i :: 0 <= i < |s| ==> s[i] == Idle
    ensures UsageSum(s) == 0 && OccupancySum(s) == 0 && StandaloneSum(s) == 0
  {
    if s != [] {
      IdleHoldsNothing(s[1..]);
    }
  }

  /** In every state of every run the counters are accounted for. */
  lemma {:induction false} EveryRunConserves(c: Config, states: seq<Ledger>, moves: seq<Move>, k: nat)
    requires Run(c, states, moves) && Start(c, states[0]) && k < |states|
    ensures Inv(c, states[k])
  {
    hide Next, Enabled;
    if k == 0 {
      IdleHoldsNothing(states[0].agents);
    } else {
      EveryRunConserves(c, states, moves, k - 1);
      InvKept(c, states[k - 1], moves[k - 1].agent, moves[k - 1].act);
    }
  }

  /** With the strict limit, usage is within capacity in every state of every run that starts within it. */
  lemma {:induction false} StrictLimitHolds(c: Config, states: seq<Ledger>, moves: seq<Move>, k: nat)
    requires Run(c, states, moves) && Start(c, states[0]) && c.strict && c.tableCharge <= c.capacity && k < |states|
    ensures states[k].usage <= c.capacity
  {
    StrictEverywhere(c, states, moves, k);
  }

  lemma {:induction false} StrictEverywhere(c: Config, states: seq<Ledger>, moves: seq<Move>, k: nat)
    requires Run(c, states, moves) && Start(c, states[0]) && c.strict && c.tableCharge <= c.capacity && k < |states|
    ensures StrictInv(c, states[k])
  {
    hide Next, Enabled, Inv;
    if k > 0 {
      StrictEverywhere(c, states, moves, k - 1);
      EveryRunConserves(c, states, moves, k - 1);
      StrictKept(c, states[k - 1], moves[k - 1].agent, moves[k - 1].act);
    }
  }

  /** When no thread is at work, usage is the table, its entries and the standalone entries, and nothing else. */
  lemma QuietLedger(c: Config, s: Ledger)
    requires Inv(c, s) && forall i :: 0 <= i < |s.agents| ==> s.agents[i] == Idle
    ensures s.usage == c.tableCharge + Sum(s.live) + Sum(s.standing)
    ensures s.occupancy == |s.live| && s.standaloneUsage == Sum(s.standing)
  {
    IdleHoldsNothing(s.agents);
  }

  /** Without the strict limit there is a run that passes capacity: an entry larger than all that is there is charged. */
  lemma LooseLimitIsPassed(c: Config) returns (states: seq<Ledger>, moves: seq<Move>)
    requires !c.strict
    ensures Run(c, states, moves) && Start(c, states[0]) && states[|states| - 1].usage > c.capacity
  {
    var op := Op(c.capacity + 1, false, true, false);
    moves := [Move(0, BeginStandalone(op)), Move(0, Read), Move(0, EndEvict), Move(0, Settle)];
    var s0 := Ledger(c.tableCharge, 0, 0, [], [], [Idle]);
    var s1 := Next(c, s0, 0, BeginStandalone(op));
    var s2 := Next(c, s1, 0, Read);
    var s3 := Next(c, s2, 0, EndEvict);
    states := [s0, s1, s2, s3, Next(c, s3, 0, Settle)];
  }

  /** No run from an empty table passes capacity in any state. */
  ghost predicate NeverPassed(c: Config)
  {
    forall states: seq<Ledger>, moves: seq<Move>, k: nat ::
      Run(c, states, moves) && Start(c, states[0]) && k < |states| ==> states[k].usage <= c.capacity
  }

  /** Capacity is a limit for every run if and only if the limit is strict and the empty table fits. */
  lemma LimitIff(c: Config)
    ensures NeverPassed(c) <==> c.strict && c.tableCharge <= c.capacity
  {
    hide Next, Enabled;
    if c.tableCharge > c.capacity {
      var states := [Ledger(c.tableCharge, 0, 0, [], [], [])];
      assert Run(c, states, []) && Start(c, states[0]) && states[0].usage > c.capacity;
    } else if c.strict {
      forall states: seq<Ledger>, moves: seq<Move>, k: nat | Run(c, states, moves) && Start(c, states[0]) && k < |states|
        ensures states[k].usage <= c.capacity
      {
        StrictLimitHolds(c, states, moves, k);
      }
    } else {
      var states, moves := LooseLimitIsPassed(c);
      assert states[|states| - 1].usage > c.capacity;
    }
  }
}
