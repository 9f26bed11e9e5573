/**
 The LRU list: a circular doubly linked list through a dummy node, oldest entry first. Two pointers cut
 it into a bottom, a low and a high priority pool; each points at the last entry of its pool, or further
 back if the pool is empty.
 */
module LruList {
  import opened ChainLinks

  // ---- The ring ----

  /** The dummy node. */
  const DUMMY: nat := 0

  /** The nodes around the ring, from the dummy back to the dummy. */
  ghost function Around(list: seq<nat>): seq<nat> { [DUMMY] + list + [DUMMY] }

  ghost predicate LinkedAt(next: seq<nat>, prev: seq<nat>, a: nat, b: nat)
  {
    a < |next| == |prev| && b < |next| && next[a] == b && prev[b] == a
  }

  /** Following `next` or `prev` from the dummy node goes around `list` and comes back. */
  ghost predicate Ring(next: seq<nat>, prev: seq<nat>, list: seq<nat>)
  {
    && NoDup(list) && DUMMY !in list
    && forall i :: 0 <= i <= |list| ==> LinkedAt(next, prev, Around(list)[i], Around(list)[i + 1])
  }

  ghost function InsertedAt(list: seq<nat>, p: nat, e: nat): seq<nat>
    requires p <= |list|
  {
    list[..p] + [e] + list[p..]
  }

  ghost function RemovedAt(list: seq<nat>, p: nat): seq<nat>
    requires p < |list|
  {
    list[..p] + list[p + 1..]
  }

  lemma RingInsert(next: seq<nat>, prev: seq<nat>, list: seq<nat>, p: nat, e: nat)
    requires Ring(next, prev, list) && p <= |list| && 0 < e < |next| == |prev| && e !in list
    ensures var a, b := Around(list)[p], Around(list)[p + 1];
            && a < |next| && b < |next| && next[a] == b
            && Ring(next[e := b][a := e], prev[e := a][b := e], InsertedAt(list, p, e))
  {
    var a, b, list' := Around(list)[p], Around(list)[p + 1], InsertedAt(list, p, e);
    assert LinkedAt(next, prev, a, b);
    var next', prev' := next[e := b][a := e], prev[e := a][b := e];
    InsertNoDup(list, p, e);
    forall i | 0 <= i <= |list'|
      ensures LinkedAt(next', prev', Around(list')[i], Around(list')[i + 1])
    {
      if i < p {
        AroundDiffer(list, i, p);
        assert LinkedAt(next, prev, Around(list)[i], Around(list)[i + 1]);
      } else if i > p + 1 {
        AroundDiffer(list, i - 1, p);
        assert LinkedAt(next, prev, Around(list)[i - 1], Around(list)[i]);
      }
    }
  }

  /** Different places on the ring have different nodes, and different nodes behind them. */
  lemma AroundDiffer(list: seq<nat>, i: nat, p: nat)
    requires NoDup(list) && DUMMY !in list && i <= |list| && p <= |list| && i != p
    ensures Around(list)[i] != Around(list)[p] && Around(list)[i + 1] != Around(list)[p + 1]
  {
  }

  lemma InsertNoDup(list: seq<nat>, p: nat, e: nat)
    requires NoDup(list) && p <= |list| && e !in list
    ensures NoDup(InsertedAt(list, p, e))
    ensures forall x :: x in InsertedAt(list, p, e) <==> x in list || x == e
  {
  }

  lemma RemoveNoDup(list: seq<nat>, p: nat)
    requires NoDup(list) && p < |list|
    ensures NoDup(RemovedAt(list, p))
    ensures forall x :: x in RemovedAt(list, p) <==> x in list && x != list[p]
  {
  }

  /** The list without entry e, in the same order. */
  ghost function Except(list: seq<nat>, e: nat): seq<nat>
  {
    if list == [] then [] else if list[0] == e then Except(list[1..], e) else [list[0]] + Except(list[1..], e)
  }

  lemma {:induction false} ExceptIn(list: seq<nat>, e: nat)
    ensures forall x :: x in Except(list, e) <==> x in list && x != e
  {
    if list != [] {
      ExceptIn(list[1..], e);
      assert list == [list[0]] + list[1..];
    }
  }

  lemma {:induction false} ExceptNone(list: seq<nat>, e: nat)
    requires e !in list
    ensures Except(list, e) == list
  {
    if list != [] {
      ExceptNone(list[1..], e);
    }
  }

  lemma {:induction false} ExceptAt(list: seq<nat>, p: nat)
    requires NoDup(list) && p < |list|
    ensures Except(list, list[p]) == RemovedAt(list, p)
  {
    if p == 0 {
      ExceptNone(list[1..], list[0]);
      assert RemovedAt(list, 0) == list[1..];
    } else {
      ExceptAt(list[1..], p - 1);
      assert RemovedAt(list, p) == [list[0]] + RemovedAt(list[1..], p - 1);
    }
  }

  lemma {:induction false} ExceptInserted(list: seq<nat>, p: nat, e: nat)
    requires p <= |list| && e !in list
    ensures Except(InsertedAt(list, p, e), e) == list
  {
    if p == 0 {
      ExceptNone(list, e);
      assert InsertedAt(list, 0, e)[1..] == list;
    } else {
      ExceptInserted(list[1..], p - 1, e);
      assert InsertedAt(list, p, e)[1..] == InsertedAt(list[1..], p - 1, e);
    }
  }

  lemma RingRemove(next: seq<nat>, prev: seq<nat>, list: seq<nat>, p: nat)
    requires Ring(next, prev, list) && p < |list|
    ensures var e := list[p];
            && e < |next| == |prev| && next[e] < |next| && prev[e] < |next|
            && prev[e] == Around(list)[p]
            && Ring(next[prev[e] := next[e]], prev[next[e] := prev[e]], RemovedAt(list, p))
  {
    var e, list' := list[p], RemovedAt(list, p);
    assert LinkedAt(next, prev, Around(list)[p], Around(list)[p + 1]);
    assert LinkedAt(next, prev, Around(list)[p + 1], Around(list)[p + 2]);
    var a, b := Around(list)[p], Around(list)[p + 2];
    var next', prev' := next[a := b], prev[b := a];
    RemoveNoDup(list, p);
    forall i | 0 <= i <= |list'|
      ensures LinkedAt(next', prev', Around(list')[i], Around(list')[i + 1])
    {
      if i < p {
        AroundDiffer(list, i, p);
        AroundDiffer(list, i, p + 1);
        assert LinkedAt(next, prev, Around(list)[i], Around(list)[i + 1]);
      } else if i > p {
        AroundDiffer(list, i + 1, p);
        AroundDiffer(list, i + 1, p + 1);
        assert LinkedAt(next, prev, Around(list)[i + 1], Around(list)[i + 2]);
      }
    }
  }

  // ---- Pools and sums ----

  datatype Pool = Bottom | Low | High

  /** A list: nodes, ring, pool pointers and running sums, and where the pools end. */
  datatype Lru = Lru(charge: seq<nat>, pool: seq<Pool>, next: seq<nat>, prev: seq<nat>, bottom: nat, low: nat,
                     lruUsage: int, highUsage: int, lowUsage: int, list: seq<nat>, nb: nat, nl: nat)

  function Sum(charge: seq<nat>, p: seq<nat>): nat
  {
    if p == [] then 0 else (if p[0] < |charge| then charge[p[0]] else 0) + Sum(charge, p[1..])
  }

  lemma {:induction false} ChargeConcat(charge: seq<nat>, p: seq<nat>, q: seq<nat>)
    ensures Sum(charge, p + q) == Sum(charge, p) + Sum(charge, q)
  {
    if p == [] {
      assert p + q == q;
    } else {
      ChargeConcat(charge, p[1..], q);
      assert (p + q)[1..] == p[1..] + q;
    }
  }

  lemma SumOne(charge: seq<nat>, x: nat)
    requires x < |charge|
    ensures Sum(charge, [x]) == charge[x]
  {
    assert [x][1..] == [];
  }

  /** The pool of the i-th entry: the first nb are bottom, then low up to nl, then high. */
  function PoolAt(i: nat, nb: nat, nl: nat): Pool { if i < nb then Bottom else if i < nl then Low else High }

  ghost predicate Pools(v: Lru)
  {
    && v.nb <= v.nl <= |v.list| && |v.pool| == |v.charge| == |v.next| == |v.prev|
    && (forall i :: 0 <= i < |v.list| ==> v.list[i] < |v.pool| && v.pool[v.list[i]] == PoolAt(i, v.nb, v.nl))
    && v.bottom == Around(v.list)[v.nb] && v.low == Around(v.list)[v.nl]
  }

  ghost predicate Sums(v: Lru)
  {
    && v.nb <= v.nl <= |v.list|
    && v.lruUsage == Sum(v.charge, v.list)
    && v.lowUsage == Sum(v.charge, v.list[v.nb..v.nl])
    && v.highUsage == Sum(v.charge, v.list[v.nl..])
  }

  ghost predicate Ok(v: Lru)
  {
    Ring(v.next, v.prev, v.list) && Pools(v) && Sums(v)
  }

  function Minus(p: nat, n: nat): nat { if p < n then n - 1 else n }

  /** The entry at index p leaves the list. */
  ghost function WithoutEntry(v: Lru, p: nat): Lru
    requires p < |v.list| && v.list[p] < |v.next| == |v.prev| == |v.charge| == |v.pool|
    requires v.next[v.list[p]] < |v.prev| && v.prev[v.list[p]] < |v.next|
  {
    var e := v.list[p];
    v.(next := v.next[v.prev[e] := v.next[e]], prev := v.prev[v.next[e] := v.prev[e]],
       bottom := if v.bottom == e then v.prev[e] else v.bottom,
       low := if v.low == e then v.prev[e] else v.low,
       lruUsage := v.lruUsage - v.charge[e],
       highUsage := if v.pool[e] == High then v.highUsage - v.charge[e] else v.highUsage,
       lowUsage := if v.pool[e] == Low then v.lowUsage - v.charge[e] else v.lowUsage,
       list := RemovedAt(v.list, p), nb := Minus(p, v.nb), nl := Minus(p, v.nl))
  }

  lemma RemoveOk(v: Lru, p: nat)
    requires Ok(v) && p < |v.list|
    ensures v.list[p] < |v.next| == |v.prev| == |v.charge| == |v.pool|
    ensures v.next[v.list[p]] < |v.prev| && v.prev[v.list[p]] < |v.next|
    ensures Ok(WithoutEntry(v, p))
  {
    hide Ring, Sum;
    RingRemove(v.next, v.prev, v.list, p);
    RemovePools(v, p);
    RemoveSums(v, p);
  }

  lemma RemovePools(v: Lru, p: nat)
    requires Ring(v.next, v.prev, v.list) && Pools(v) && p < |v.list|
    requires v.list[p] < |v.next| && v.next[v.list[p]] < |v.prev| && v.prev[v.list[p]] < |v.next|
    requires v.prev[v.list[p]] == Around(v.list)[p]
    ensures Pools(WithoutEntry(v, p))
  {
    var u, e := WithoutEntry(v, p), v.list[p];
    forall i | 0 <= i < |u.list|
      ensures u.list[i] < |u.pool| && u.pool[u.list[i]] == PoolAt(i, u.nb, u.nl)
    {
      assert u.list[i] == v.list[if i < p then i else i + 1];
    }
    CutAfterRemove(v.list, p, v.nb);
    CutAfterRemove(v.list, p, v.nl);
  }

  /** Where a pool ended, it still ends, or one entry earlier. */
  lemma CutAfterRemove(list: seq<nat>, p: nat, n: nat)
    requires NoDup(list) && DUMMY !in list && p < |list| && n <= |list|
    ensures var c := Around(list)[n];
            Around(RemovedAt(list, p))[Minus(p, n)] == if c == list[p] then Around(list)[p] else c
  {
    if n > 0 && n - 1 != p {
      assert list[n - 1] != list[p];
    }
  }

  /** Which part of a list an element is taken out of. */
  lemma RemovedSlices(list: seq<nat>, p: nat, i: nat, j: nat)
    requires p < |list| && i <= j <= |list|
    ensures p < i ==> RemovedAt(list, p)[i - 1..j - 1] == list[i..j]
    ensures i <= p < j ==> RemovedAt(list, p)[i..j - 1] == RemovedAt(list[i..j], p - i)
    ensures j <= p ==> RemovedAt(list, p)[i..j] == list[i..j]
  {
    if p < i {
      RemovedBefore(list, p, i, j);
    } else if p < j {
      RemovedWithin(list, p, i, j);
    } else {
      RemovedBehind(list, p, i, j);
    }
  }

  lemma RemovedBefore(list: seq<nat>, p: nat, i: nat, j: nat)
    requires p < i <= j <= |list|
    ensures RemovedAt(list, p)[i - 1..j - 1] == list[i..j]
  {
    var r := RemovedAt(list, p);
    forall k | 0 <= k < j - i
      ensures r[i - 1..j - 1][k] == list[i..j][k]
    {
      assert r[i - 1 + k] == list[p + 1..][i - 1 + k - p];
    }
  }

  lemma RemovedWithin(list: seq<nat>, p: nat, i: nat, j: nat)
    requires i <= p < j <= |list|
    ensures RemovedAt(list, p)[i..j - 1] == RemovedAt(list[i..j], p - i)
  {
    var r, s := RemovedAt(list, p), RemovedAt(list[i..j], p - i);
    forall k | 0 <= k < j - 1 - i
      ensures r[i..j - 1][k] == s[k]
    {
      if k < p - i {
        assert r[i + k] == list[..p][i + k] && s[k] == list[i..j][..p - i][k];
      } else {
        assert r[i + k] == list[p + 1..][i + k - p] && s[k] == list[i..j][p - i + 1..][k - (p - i)];
      }
    }
  }

  lemma RemovedBehind(list: seq<nat>, p: nat, i: nat, j: nat)
    requires i <= j <= p < |list|
    ensures RemovedAt(list, p)[i..j] == list[i..j]
  {
    forall k | 0 <= k < j - i
      ensures RemovedAt(list, p)[i..j][k] == list[i..j][k]
    {
      assert RemovedAt(list, p)[i + k] == list[..p][i + k];
    }
  }

  lemma RemoveSums(v: Lru, p: nat)
    requires Pools(v) && Sums(v) && p < |v.list|
    requires v.list[p] < |v.next| && v.next[v.list[p]] < |v.prev| && v.prev[v.list[p]] < |v.next|
    ensures Sums(WithoutEntry(v, p))
  {
    hide Sum, RemovedAt;
    var u, e, n := WithoutEntry(v, p), v.list[p], |v.list|;
    SumRemoved(v.charge, v.list, p);
    assert v.pool[e] == PoolAt(p, v.nb, v.nl);
    RemovedSize(v.list, p);
    SliceSum(v.charge, v.list, p, v.nb, v.nl);
    SliceSum(v.charge, v.list, p, v.nl, n);
    assert v.list[v.nl..] == v.list[v.nl..n] && u.list[u.nl..] == u.list[u.nl..n - 1];
  }

  /** A slice loses the charge of the element that is taken out, if it was in there. */
  lemma SliceSum(charge: seq<nat>, list: seq<nat>, p: nat, i: nat, j: nat)
    requires p < |list| && list[p] < |charge| && i <= j <= |list|
    ensures Minus(p, i) <= Minus(p, j) <= |RemovedAt(list, p)|
    ensures Sum(charge, RemovedAt(list, p)[Minus(p, i)..Minus(p, j)]) ==
            Sum(charge, list[i..j]) - if i <= p < j then charge[list[p]] else 0
  {
    hide Sum, RemovedAt;
    RemovedSize(list, p);
    RemovedSlices(list, p, i, j);
    if i <= p < j {
      SumRemoved(charge, list[i..j], p - i);
    }
  }

  lemma RemovedSize(list: seq<nat>, p: nat)
    requires p < |list|
    ensures |RemovedAt(list, p)| == |list| - 1
  {
  }

  lemma SumRemoved(charge: seq<nat>, list: seq<nat>, p: nat)
    requires p < |list| && list[p] < |charge|
    ensures Sum(charge, RemovedAt(list, p)) == Sum(charge, list) - charge[list[p]]
  {
    hide Sum;
    ChargeConcat(charge, list[..p], list[p + 1..]);
    ChargeConcat(charge, list[..p], [list[p]] + list[p + 1..]);
    ChargeConcat(charge, [list[p]], list[p + 1..]);
    SumOne(charge, list[p]);
    assert list == list[..p] + ([list[p]] + list[p + 1..]);
  }

  lemma SumInserted(charge: seq<nat>, list: seq<nat>, p: nat, e: nat)
    requires p <= |list| && e < |charge|
    ensures Sum(charge, InsertedAt(list, p, e)) == Sum(charge, list) + charge[e]
  {
    hide Sum;
    ChargeConcat(charge, list[..p] + [e], list[p..]);
    ChargeConcat(charge, list[..p], [e]);
    ChargeConcat(charge, list[..p], list[p..]);
    SumOne(charge, e);
    assert list == list[..p] + list[p..];
  }

  /** Where an entry that goes to the front of its pool goes. */
  function Front(pool: Pool, nb: nat, nl: nat, n: nat): nat
  {
    match pool
    case Bottom => nb
    case Low => nl
    case High => n
  }

  /** Entry e joins the front of a pool. */
  ghost function With(v: Lru, e: nat, pool: Pool): Lru
    requires v.nb <= v.nl <= |v.list| && e < |v.next| == |v.prev| == |v.charge| == |v.pool|
    requires forall i :: 0 <= i < |Around(v.list)| ==> Around(v.list)[i] < |v.next|
  {
    var p := Front(pool, v.nb, v.nl, |v.list|);
    var a, b := Around(v.list)[p], Around(v.list)[p + 1];
    v.(pool := v.pool[e := pool], next := v.next[e := b][a := e], prev := v.prev[e := a][b := e],
       bottom := if pool == Bottom then e else v.bottom,
       low := if pool == Low || (pool == Bottom && v.bottom == v.low) then e else v.low,
       lruUsage := v.lruUsage + v.charge[e],
       highUsage := if pool == High then v.highUsage + v.charge[e] else v.highUsage,
       lowUsage := if pool == Low then v.lowUsage + v.charge[e] else v.lowUsage,
       list := InsertedAt(v.list, p, e),
       nb := if pool == Bottom then v.nb + 1 else v.nb,
       nl := if pool == High then v.nl else v.nl + 1)
  }

  lemma RingNodes(next: seq<nat>, prev: seq<nat>, list: seq<nat>)
    requires Ring(next, prev, list)
    ensures forall i :: 0 <= i < |Around(list)| ==> Around(list)[i] < |next|
    ensures forall x :: x in list ==> x < |next|
    ensures |next| == |prev| > 0
  {
    forall i | 0 <= i < |Around(list)|
      ensures Around(list)[i] < |next|
    {
      assert LinkedAt(next, prev, Around(list)[if i == 0 then 0 else i - 1], Around(list)[if i == 0 then 1 else i]);
    }
    assert forall i :: 0 <= i < |list| ==> list[i] == Around(list)[i + 1];
    assert LinkedAt(next, prev, Around(list)[0], Around(list)[1]);
  }

  lemma InsertOk(v: Lru, e: nat, pool: Pool)
    requires Ok(v) && 0 < e < |v.next| && e !in v.list
    ensures v.nb <= v.nl <= |v.list| && e < |v.next| == |v.prev| == |v.charge| == |v.pool|
    ensures forall i :: 0 <= i < |Around(v.list)| ==> Around(v.list)[i] < |v.next|
    ensures Ok(With(v, e, pool))
  {
    hide Sum, LinkedAt, NoDup;
    RingNodes(v.next, v.prev, v.list);
    RingInsert(v.next, v.prev, v.list, Front(pool, v.nb, v.nl, |v.list|), e);
    InsertPools(v, e, pool);
    InsertSums(v, e, pool);
  }

  lemma InsertPools(v: Lru, e: nat, pool: Pool)
    requires NoDup(v.list) && DUMMY !in v.list && Pools(v) && 0 < e < |v.next| && e !in v.list
    requires forall i :: 0 <= i < |Around(v.list)| ==> Around(v.list)[i] < |v.next|
    ensures Pools(With(v, e, pool))
  {
    hide NoDup, Around;
    var u, p := With(v, e, pool), Front(pool, v.nb, v.nl, |v.list|);
    CutAfterInsert(v.list, p, e, v.nb);
    CutAfterInsert(v.list, p, e, v.nl);
    SameCut(v.list, v.nb, v.nl);
    forall i | 0 <= i < |u.list|
      ensures u.list[i] < |u.pool| && u.pool[u.list[i]] == PoolAt(i, u.nb, u.nl)
    {
      InsertedEntry(v.list, p, e, i);
    }
  }

  lemma InsertedEntry(list: seq<nat>, p: nat, e: nat, i: nat)
    requires p <= |list| && i <= |list| && e !in list
    ensures InsertedAt(list, p, e)[i] == if i == p then e else list[if i < p then i else i - 1]
    ensures i != p ==> InsertedAt(list, p, e)[i] != e
  {
  }

  lemma CutAfterInsert(list: seq<nat>, p: nat, e: nat, n: nat)
    requires p <= |list| && n <= |list|
    ensures Around(InsertedAt(list, p, e))[p + 1] == e
    ensures n <= p ==> Around(InsertedAt(list, p, e))[n] == Around(list)[n]
    ensures n > p ==> Around(InsertedAt(list, p, e))[n + 1] == Around(list)[n]
    ensures |Around(InsertedAt(list, p, e))| == |list| + 3 && |Around(list)| == |list| + 2
  {
  }

  /** Two pool ends are the same node exactly if they are the same place. */
  lemma SameCut(list: seq<nat>, m: nat, n: nat)
    requires NoDup(list) && DUMMY !in list && m <= n <= |list|
    ensures |Around(list)| == |list| + 2 && (Around(list)[m] == Around(list)[n] <==> m == n)
  {
    if m < n {
      assert list[n - 1] in list;
      if m > 0 {
        assert list[m - 1] != list[n - 1];
      }
    }
  }

  lemma InsertSums(v: Lru, e: nat, pool: Pool)
    requires Sums(v) && e < |v.next| == |v.prev| == |v.charge| == |v.pool|
    requires forall i :: 0 <= i < |Around(v.list)| ==> Around(v.list)[i] < |v.next|
    ensures Sums(With(v, e, pool))
  {
    hide Sum;
    var u, p := With(v, e, pool), Front(pool, v.nb, v.nl, |v.list|);
    SumInserted(v.charge, v.list, p, e);
    match pool
    case High =>
      SumInserted(v.charge, v.list[v.nl..], |v.list| - v.nl, e);
      assert u.list[u.nl..] == InsertedAt(v.list[v.nl..], |v.list| - v.nl, e);
      assert u.list[u.nb..u.nl] == v.list[v.nb..v.nl];
    case Low =>
      SumInserted(v.charge, v.list[v.nb..v.nl], v.nl - v.nb, e);
      assert u.list[u.nb..u.nl] == InsertedAt(v.list[v.nb..v.nl], v.nl - v.nb, e);
      assert u.list[u.nl..] == v.list[v.nl..];
    case Bottom =>
      assert u.list[u.nb..u.nl] == v.list[v.nb..v.nl] && u.list[u.nl..] == v.list[v.nl..];
  }

  /** The first high entry becomes the last low one. */
  ghost function Lowered(v: Lru): Lru
    requires v.nl < |v.list| && v.list[v.nl] < |v.pool| == |v.charge|
  {
    var x := v.list[v.nl];
    v.(low := x, pool := v.pool[x := Low], highUsage := v.highUsage - v.charge[x], lowUsage := v.lowUsage + v.charge[x],
       nl := v.nl + 1)
  }

  /** The first low entry becomes the last bottom one. */
  ghost function Sunk(v: Lru): Lru
    requires v.nb < |v.list| && v.list[v.nb] < |v.pool| == |v.charge|
  {
    var x := v.list[v.nb];
    v.(bottom := x, pool := v.pool[x := Bottom], lowUsage := v.lowUsage - v.charge[x], nb := v.nb + 1)
  }

  lemma LowerOk(v: Lru)
    requires Ok(v) && v.highUsage > 0
    ensures v.nl < |v.list| && v.low < |v.next| && v.next[v.low] == v.list[v.nl] != DUMMY
    ensures v.list[v.nl] < |v.pool| == |v.charge| && v.pool[v.list[v.nl]] == High && v.highUsage >= v.charge[v.list[v.nl]]
    ensures Ok(Lowered(v))
  {
    hide Sum;
    SumEmpty(v.charge, v.list[v.nl..]);
    var x, u := v.list[v.nl], Lowered(v);
    assert x in v.list;
    assert LinkedAt(v.next, v.prev, Around(v.list)[v.nl], Around(v.list)[v.nl + 1]);
    SumSplit(v.charge, v.list, v.nl, |v.list|);
    SumSplit2(v.charge, v.list, v.nb, v.nl);
    assert v.list[v.nl..|v.list|] == v.list[v.nl..] && v.list[v.nl + 1..|v.list|] == v.list[v.nl + 1..];
    forall i | 0 <= i < |v.list|
      ensures u.pool[v.list[i]] == PoolAt(i, u.nb, u.nl)
    {
      assert i != v.nl ==> v.list[i] != x;
    }
  }

  lemma SinkOk(v: Lru)
    requires Ok(v) && v.lowUsage > 0
    ensures v.nb < v.nl && v.bottom < |v.next| && v.next[v.bottom] == v.list[v.nb] != DUMMY
    ensures v.list[v.nb] < |v.pool| == |v.charge| && v.pool[v.list[v.nb]] == Low && v.lowUsage >= v.charge[v.list[v.nb]]
    ensures Ok(Sunk(v))
  {
    hide Sum;
    SumEmpty(v.charge, v.list[v.nb..v.nl]);
    var x, u := v.list[v.nb], Sunk(v);
    assert x in v.list;
    assert LinkedAt(v.next, v.prev, Around(v.list)[v.nb], Around(v.list)[v.nb + 1]);
    SumSplit(v.charge, v.list, v.nb, v.nl);
    forall i | 0 <= i < |v.list|
      ensures u.pool[v.list[i]] == PoolAt(i, u.nb, u.nl)
    {
      assert i != v.nb ==> v.list[i] != x;
    }
  }

  lemma SumEmpty(charge: seq<nat>, p: seq<nat>)
    ensures p == [] ==> Sum(charge, p) == 0
  {
  }

  lemma SumSplit(charge: seq<nat>, list: seq<nat>, i: nat, j: nat)
    requires i < j <= |list| && list[i] < |charge|
    ensures Sum(charge, list[i..j]) == charge[list[i]] + Sum(charge, list[i + 1..j])
  {
    assert list[i..j] == [list[i]] + list[i + 1..j];
    ChargeConcat(charge, [list[i]], list[i + 1..j]);
    SumOne(charge, list[i]);
  }

  lemma SumSplit2(charge: seq<nat>, list: seq<nat>, i: nat, j: nat)
    requires i <= j < |list| && list[j] < |charge|
    ensures Sum(charge, list[i..j + 1]) == Sum(charge, list[i..j]) + charge[list[j]]
  {
    assert list[i..j + 1] == list[i..j] + [list[j]];
    ChargeConcat(charge, list[i..j], [list[j]]);
    SumOne(charge, list[j]);
  }

  // ---- Where pools end ----

  /** A pool that ends at `end` and began at `from` now begins at `to`: no later than needed to be within capacity. */
  ghost predicate Least(charge: seq<nat>, list: seq<nat>, from: nat, to: nat, end: nat, capacity: nat)
  {
    && from <= to <= end <= |list| && Sum(charge, list[to..end]) <= capacity
    && (from < to ==> Sum(charge, list[to - 1..end]) > capacity)
  }

  /** As many entries as needed overflowed from the high pool to the low one, and then from there to the bottom one. */
  ghost predicate Overflowed(charge: seq<nat>, list: seq<nat>, nb: nat, nl: nat, nb': nat, nl': nat, highCapacity: nat, lowCapacity: nat)
  {
    Least(charge, list, nl, nl', |list|, highCapacity) && Least(charge, list, nb, nb', nl', lowCapacity)
  }

  /** Where the pools end after an entry joined the front of one of them. */
  ghost predicate Joined(target: Pool, charge: seq<nat>, list: seq<nat>, nb: nat, nl: nat, nb': nat, nl': nat,
                         highCapacity: nat, lowCapacity: nat)
  {
    if target == Bottom then nb' == nb + 1 && nl' == nl + 1
    else Overflowed(charge, list, nb, if target == High then nl else nl + 1, nb', nl', highCapacity, lowCapacity)
  }

  /** How many entries of the list are in a pool. */
  ghost function CountPool(pool: seq<Pool>, list: seq<nat>, p: Pool): nat
  {
    if list == [] then 0
    else CountPool(pool, list[1..], p) + if list[0] < |pool| && pool[list[0]] == p then 1 else 0
  }

  lemma {:induction false} CountConcat(pool: seq<Pool>, a: seq<nat>, b: seq<nat>, p: Pool)
    ensures CountPool(pool, a + b, p) == CountPool(pool, a, p) + CountPool(pool, b, p)
  {
    if a == [] {
      assert a + b == b;
    } else {
      assert (a + b)[1..] == a[1..] + b;
      CountConcat(pool, a[1..], b, p);
    }
  }

  lemma {:induction false} CountAll(pool: seq<Pool>, list: seq<nat>, p: Pool, q: Pool)
    requires forall x :: x in list ==> x < |pool| && pool[x] == q
    ensures CountPool(pool, list, p) == if p == q then |list| else 0
  {
    if list != [] {
      assert list[0] in list && forall x :: x in list[1..] ==> x in list;
      CountAll(pool, list[1..], p, q);
    }
  }

  /** A part of the list that lies in one pool. */
  lemma CountPart(v: Lru, from: nat, to: nat, p: Pool)
    requires Pools(v) && from <= to <= |v.list| && forall i :: from <= i < to ==> PoolAt(i, v.nb, v.nl) == PoolAt(from, v.nb, v.nl)
    ensures CountPool(v.pool, v.list[from..to], p) == if p == PoolAt(from, v.nb, v.nl) then to - from else 0
  {
    hide CountPool, PoolAt;
    var part := v.list[from..to];
    forall x | x in part
      ensures x < |v.pool| && v.pool[x] == PoolAt(from, v.nb, v.nl)
    {
      var i :| 0 <= i < |part| && part[i] == x;
      assert part[i] == v.list[from + i];
    }
    CountAll(v.pool, part, p, PoolAt(from, v.nb, v.nl));
  }

  lemma CountParts(pool: seq<Pool>, list: seq<nat>, nb: nat, nl: nat, p: Pool)
    requires nb <= nl <= |list|
    ensures CountPool(pool, list, p) ==
            CountPool(pool, list[0..nb], p) + CountPool(pool, list[nb..nl], p) + CountPool(pool, list[nl..|list|], p)
  {
    hide CountPool;
    assert list == list[0..nb] + (list[nb..nl] + list[nl..|list|]);
    CountConcat(pool, list[0..nb], list[nb..nl] + list[nl..|list|], p);
    CountConcat(pool, list[nb..nl], list[nl..|list|], p);
  }

  /** The pool ends count the entries of the pools before them. */
  lemma EndsCount(v: Lru)
    requires Ok(v)
    ensures v.nb == CountPool(v.pool, v.list, Bottom) && v.nl == v.nb + CountPool(v.pool, v.list, Low)
  {
    hide Sum, Ring, CountPool, Pools;
    PoolsOf(v);
    forall p: Pool
      ensures CountPool(v.pool, v.list, p) ==
              (if p == Bottom then v.nb else 0) + (if p == Low then v.nl - v.nb else 0) + if p == High then |v.list| - v.nl else 0
    {
      CountParts(v.pool, v.list, v.nb, v.nl, p);
      CountPart(v, 0, v.nb, p);
      CountPart(v, v.nb, v.nl, p);
      CountPart(v, v.nl, |v.list|, p);
    }
  }

  lemma PoolsOf(v: Lru)
    requires Ok(v)
    ensures Pools(v) && v.nb <= v.nl <= |v.list|
  {
    hide Sum, Ring;
  }

  lemma {:induction false} CountSame(pool: seq<Pool>, pool': seq<Pool>, list: seq<nat>, p: Pool)
    requires forall x :: x in list ==> x < |pool| && x < |pool'| && pool'[x] == pool[x]
    ensures CountPool(pool', list, p) == CountPool(pool, list, p)
  {
    if list != [] {
      assert list[0] in list && forall x :: x in list[1..] ==> x in list;
      CountSame(pool, pool', list[1..], p);
    }
  }

  lemma UsageIs(v: Lru)
    requires Ok(v)
    ensures v.nb <= v.nl <= |v.list|
    ensures v.highUsage == Sum(v.charge, v.list[v.nl..|v.list|]) && v.lowUsage == Sum(v.charge, v.list[v.nb..v.nl])
  {
    hide Sum, Ring;
    assert v.list[v.nl..|v.list|] == v.list[v.nl..];
  }

  // ---- The list ----

  class PriorityList {
    // Per node; node 0 is the dummy.
    var charge: seq<nat>
    var pool: seq<Pool>
    var next: seq<nat>
    var prev: seq<nat>
    // The last nodes of the bottom and the low pool.
    var bottom: nat
    var low: nat
    var lruUsage: int
    var highUsage: int
    var lowUsage: int
    var highCapacity: nat
    var lowCapacity: nat
    ghost var list: seq<nat>
    ghost var nb: nat
    ghost var nl: nat

    ghost function View(): Lru
      reads this
    {
      Lru(charge, pool, next, prev, bottom, low, lruUsage, highUsage, lowUsage, list, nb, nl)
    }

    ghost predicate Valid()
      reads this
    {
      Ok(View())
    }

    constructor ()
      ensures Valid() && list == [] && |charge| == 1 && highCapacity == lowCapacity == 0
    {
      charge, pool, next, prev := [0], [Bottom], [DUMMY], [DUMMY];
      bottom, low, lruUsage, highUsage, lowUsage, highCapacity, lowCapacity := DUMMY, DUMMY, 0, 0, 0, 0, 0;
      list, nb, nl := [], 0, 0;
    }

    /** What callers may know of a valid list: its oldest entry is next to the dummy node. */
    lemma Facts()
      requires Valid()
      ensures |next| == |prev| == |charge| == |pool| > 0 && NoDup(list) && forall x :: x in list ==> 0 < x < |charge|
      ensures next[DUMMY] == if list == [] then DUMMY else list[0]
    {
      Nodes(View());
      assert LinkedAt(next, prev, Around(list)[0], Around(list)[1]);
    }

    lemma CountEnds()
      requires Valid()
      ensures nb == CountPool(pool, list, Bottom) && nl == nb + CountPool(pool, list, Low)
    {
      EndsCount(View());
    }

    predicate IsEmpty()
      requires Valid()
      reads this
      ensures IsEmpty() <==> list == []
    {
      Facts();
      next[DUMMY] == DUMMY
    }

    /** Makes a node that is not on the list. */
    method AddNode(c: nat)
      requires Valid()
      modifies this`charge, this`pool, this`next, this`prev
      ensures Valid() && charge == old(charge) + [c] && pool == old(pool) + [Bottom]
    {
      hide Ok;
      MoreNodes(View(), c);
      charge, pool, next, prev := charge + [c], pool + [Bottom], next + [DUMMY], prev + [DUMMY];
    }

    /** Moves pool ends off entry `e`. */
    method MoveEnds(e: nat)
      requires e < |prev|
      modifies this`bottom, this`low
      ensures low == (if old(low) == e then prev[e] else old(low)) && bottom == if old(bottom) == e then prev[e] else old(bottom)
    {
      if low == e {
        low := prev[e];
      }
      if bottom == e {
        bottom := prev[e];
      }
    }

    method Unlink(e: nat)
      requires e < |next| == |prev| && next[e] < |prev| && prev[e] < |next|
      modifies this`next, this`prev
      ensures next == old(next)[old(prev)[e] := old(next)[e]] && prev == old(prev)[old(next)[e] := old(prev)[e]]
    {
      var a, b := prev[e], next[e];
      prev := prev[b := a];
      next := next[a := b];
    }

    /** Takes the charge of entry `e` out of the sums. */
    method Uncharge(e: nat)
      requires e < |charge| == |pool|
      modifies this`lruUsage, this`highUsage, this`lowUsage
      ensures lruUsage == old(lruUsage) - charge[e]
      ensures highUsage == old(highUsage) - (if pool[e] == High then charge[e] else 0)
      ensures lowUsage == old(lowUsage) - (if pool[e] == Low then charge[e] else 0)
    {
      lruUsage := lruUsage - charge[e];
      if pool[e] == High {
        highUsage := highUsage - charge[e];
      } else if pool[e] == Low {
        lowUsage := lowUsage - charge[e];
      }
    }

    /** Takes entry `e` off the list. */
    method Remove(e: nat, ghost p: nat)
      requires Valid() && p < |list| && list[p] == e
      modifies this`next, this`prev, this`bottom, this`low, this`lruUsage, this`highUsage, this`lowUsage,
               this`list, this`nb, this`nl
      ensures Valid() && list == RemovedAt(old(list), p) && nb == Minus(p, old(nb)) && nl == Minus(p, old(nl))
    {
      hide Ok, RemovedAt;
      RemoveOk(View(), p);
      MoveEnds(e);
      Unlink(e);
      Uncharge(e);
      list, nb, nl := RemovedAt(list, p), Minus(p, nb), Minus(p, nl);
      assert View() == WithoutEntry(old(View()), p);
    }

    /** Takes the oldest entry off the list. */
    method RemoveOldest() returns (x: nat)
      requires Valid() && list != []
      modifies this`next, this`prev, this`bottom, this`low, this`lruUsage, this`highUsage, this`lowUsage,
               this`list, this`nb, this`nl
      ensures Valid() && x == old(list)[0] && list == old(list)[1..]
      ensures forall y :: y in list <==> y in old(list) && y != x
    {
      hide Ok, NoDup;
      Facts();
      x := next[DUMMY];
      RemoveNoDup(list, 0);
      assert RemovedAt(list, 0) == list[1..];
      Remove(x, 0);
    }

    method LinkBehind(a: nat, e: nat)
      requires a < |next| == |prev| && e < |next| && next[a] < |prev|
      modifies this`next, this`prev
      ensures next == old(next)[e := old(next)[a]][a := e] && prev == old(prev)[e := a][old(next)[a] := e]
    {
      var b := next[a];
      next := next[e := b][a := e];
      prev := prev[e := a][b := e];
    }

    /** Puts the entry into the sums, and moves the ends of the pool it joins. */
    method Join(e: nat, target: Pool)
      requires e < |charge| == |pool|
      modifies this`pool, this`bottom, this`low, this`lruUsage, this`highUsage, this`lowUsage
      ensures pool == old(pool)[e := target] && lruUsage == old(lruUsage) + charge[e]
      ensures highUsage == old(highUsage) + (if target == High then charge[e] else 0)
      ensures lowUsage == old(lowUsage) + (if target == Low then charge[e] else 0)
      ensures bottom == if target == Bottom then e else old(bottom)
      ensures low == if target == Low || (target == Bottom && old(bottom) == old(low)) then e else old(low)
    {
      pool := pool[e := target];
      match target {
        case High => highUsage := highUsage + charge[e];
        case Low =>
          lowUsage := lowUsage + charge[e];
          low := e;
        case Bottom =>
          if bottom == low {
            low := e;
          }
          bottom := e;
      }
      lruUsage := lruUsage + charge[e];
    }

    /** Puts entry `e` in front of the given pool and lets pools that are too full overflow. */
    method Insert(e: nat, target: Pool)
      requires Valid() && 0 < e < |charge| && e !in list
      modifies this`pool, this`next, this`prev, this`bottom, this`low, this`lruUsage, this`highUsage, this`lowUsage,
               this`list, this`nb, this`nl
      ensures Valid() && old(nb) <= old(nl) <= |old(list)|
      ensures list == InsertedAt(old(list), Front(target, old(nb), old(nl), |old(list)|), e)
      ensures target != Bottom ==> highUsage <= highCapacity && lowUsage <= lowCapacity
      ensures Joined(target, charge, list, old(nb), old(nl), nb, nl, highCapacity, lowCapacity)
    {
      hide Ok, With, Sum, InsertedAt, Front;
      Place(e, target);
      if target != Bottom {
        MaintainPoolSize();
      }
    }

    method Place(e: nat, target: Pool)
      requires Valid() && 0 < e < |charge| && e !in list
      modifies this`pool, this`next, this`prev, this`bottom, this`low, this`lruUsage, this`highUsage, this`lowUsage,
               this`list, this`nb, this`nl
      ensures Valid() && old(nb) <= old(nl) <= |old(list)|
      ensures list == InsertedAt(old(list), Front(target, old(nb), old(nl), |old(list)|), e)
      ensures nb == (if target == Bottom then old(nb) + 1 else old(nb)) && nl == if target == High then old(nl) else old(nl) + 1
    {
      hide Ok, InsertedAt, Front;
      ghost var v := View();
      Nodes(v);
      var a := if target == High then prev[DUMMY] else if target == Low then low else bottom;
      PlaceOk(v, e, target, a);
      LinkBehind(a, e);
      Join(e, target);
      list := InsertedAt(list, Front(target, nb, nl, |list|), e);
      nb, nl := if target == Bottom then nb + 1 else nb, if target == High then nl else nl + 1;
      assert View() == Placed(v, e, target, a);
    }

    /** The last entry of the high pool overflows to the low pool. */
    method LowerOne()
      requires Valid() && highUsage > 0
      modifies this`pool, this`low, this`highUsage, this`lowUsage, this`nl
      ensures Valid() && old(nl) < |list| && nl == old(nl) + 1
    {
      hide Ok;
      LowerOk(View());
      low := next[low];
      pool := pool[low := Low];
      highUsage := highUsage - charge[low];
      lowUsage := lowUsage + charge[low];
      nl := nl + 1;
    }

    /** The last entry of the low pool overflows to the bottom pool. */
    method SinkOne()
      requires Valid() && lowUsage > 0
      modifies this`pool, this`bottom, this`lowUsage, this`nb
      ensures Valid() && old(nb) < nl && nb == old(nb) + 1
    {
      hide Ok;
      SinkOk(View());
      bottom := next[bottom];
      pool := pool[bottom := Bottom];
      lowUsage := lowUsage - charge[bottom];
      nb := nb + 1;
    }

    /** Moves pool ends until the high and the low pool are within their capacities, and no further. */
    method MaintainPoolSize()
      requires Valid()
      modifies this`pool, this`bottom, this`low, this`highUsage, this`lowUsage, this`nb, this`nl
      ensures Valid() && highUsage <= highCapacity && lowUsage <= lowCapacity
      ensures Overflowed(charge, list, old(nb), old(nl), nb, nl, highCapacity, lowCapacity)
    {
      hide Ok, Sum;
      UsageIs(View());
      while highUsage > highCapacity
        invariant Valid() && nb == old(nb) && old(nl) <= nl <= |list| && highUsage == Sum(charge, list[nl..|list|])
        invariant old(nl) < nl ==> Sum(charge, list[nl - 1..|list|]) > highCapacity
        decreases |list| - nl
      {
        LowerOne();
        UsageIs(View());
      }
      UsageIs(View());
      ghost var end := nl;
      while lowUsage > lowCapacity
        invariant Valid() && highUsage <= highCapacity && nl == end
        invariant old(nb) <= nb <= nl && lowUsage == Sum(charge, list[nb..nl])
        invariant old(nb) < nb ==> Sum(charge, list[nb - 1..nl]) > lowCapacity
        decreases nl - nb
      {
        SinkOne();
        UsageIs(View());
      }
    }
  }

  lemma MoreNodes(v: Lru, c: nat)
    requires Ok(v)
    ensures Ok(v.(charge := v.charge + [c], pool := v.pool + [Bottom], next := v.next + [DUMMY], prev := v.prev + [DUMMY]))
  {
    hide Sum;
    RingNodes(v.next, v.prev, v.list);
    var u := v.(charge := v.charge + [c], pool := v.pool + [Bottom], next := v.next + [DUMMY], prev := v.prev + [DUMMY]);
    forall i | 0 <= i <= |v.list|
      ensures LinkedAt(u.next, u.prev, Around(v.list)[i], Around(v.list)[i + 1])
    {
      assert LinkedAt(v.next, v.prev, Around(v.list)[i], Around(v.list)[i + 1]);
    }
    SumSame(v.charge, u.charge, v.list);
    SumSame(v.charge, u.charge, v.list[v.nb..v.nl]);
    SumSame(v.charge, u.charge, v.list[v.nl..]);
  }

  lemma {:induction false} SumSame(charge: seq<nat>, charge': seq<nat>, p: seq<nat>)
    requires |charge| <= |charge'| && forall x :: x in p ==> x < |charge| && charge'[x] == charge[x]
    ensures Sum(charge', p) == Sum(charge, p)
  {
    if p != [] {
      assert p[0] in p && forall x :: x in p[1..] ==> x in p;
      SumSame(charge, charge', p[1..]);
    }
  }

  lemma Nodes(v: Lru)
    requires Ok(v)
    ensures |v.next| == |v.prev| == |v.charge| == |v.pool| > 0 && v.nb <= v.nl <= |v.list|
    ensures forall x :: x in v.list ==> 0 < x < |v.next|
    ensures NoDup(v.list)
  {
    RingNodes(v.next, v.prev, v.list);
  }

  /** Entry e joins the front of a pool, behind node a. */
  ghost function Placed(v: Lru, e: nat, target: Pool, a: nat): Lru
    requires v.nb <= v.nl <= |v.list| && e < |v.next| == |v.prev| == |v.charge| == |v.pool|
    requires a < |v.next| && v.next[a] < |v.prev| && Front(target, v.nb, v.nl, |v.list|) <= |v.list|
  {
    Lru(v.charge, v.pool[e := target], v.next[e := v.next[a]][a := e], v.prev[e := a][v.next[a] := e],
        if target == Bottom then e else v.bottom,
        if target == Low || (target == Bottom && v.bottom == v.low) then e else v.low,
        v.lruUsage + v.charge[e],
        v.highUsage + (if target == High then v.charge[e] else 0),
        v.lowUsage + (if target == Low then v.charge[e] else 0),
        InsertedAt(v.list, Front(target, v.nb, v.nl, |v.list|), e),
        if target == Bottom then v.nb + 1 else v.nb,
        if target == High then v.nl else v.nl + 1)
  }

  lemma PlaceOk(v: Lru, e: nat, target: Pool, a: nat)
    requires Ok(v) && 0 < e < |v.next| && e !in v.list && |v.prev| > 0
    requires a == if target == High then v.prev[DUMMY] else if target == Low then v.low else v.bottom
    ensures v.nb <= v.nl <= |v.list| && e < |v.next| == |v.prev| == |v.charge| == |v.pool|
    ensures a < |v.next| && v.next[a] < |v.prev| && Front(target, v.nb, v.nl, |v.list|) <= |v.list|
    ensures Ok(Placed(v, e, target, a))
  {
    hide Ok, InsertedAt, Around;
    InsertOk(v, e, target);
    FrontNode(v, target);
    assert Placed(v, e, target, a) == With(v, e, target);
  }

  /** The node behind which an entry goes, as the code finds it. */
  lemma FrontNode(v: Lru, target: Pool)
    requires Ok(v)
    ensures var p := Front(target, v.nb, v.nl, |v.list|);
            var a := if target == High then (if |v.prev| > 0 then v.prev[DUMMY] else 0) else if target == Low then v.low else v.bottom;
            |v.prev| > 0 && p + 1 < |Around(v.list)| && a == Around(v.list)[p] && a < |v.next| && v.next[a] == Around(v.list)[p + 1]
  {
    var p := Front(target, v.nb, v.nl, |v.list|);
    assert LinkedAt(v.next, v.prev, Around(v.list)[p], Around(v.list)[p + 1]);
  }
}
