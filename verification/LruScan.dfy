/**
 Scanning the table in pieces. Between two pieces the lock is dropped and the table may double. The saved
 state is a 64-bit hash prefix, so it means the same for every table size.
 */
module LruScan {
  import opened Bits
  import opened ChainLinks
  import opened ChainSides
  import opened LruTable

  /** The state that says that a scan is over. */
  const SIZE_MAX: nat := 0xFFFF_FFFF_FFFF_FFFF

  /** Where a 32-bit hash lies among 64-bit states. */
  function Position(hash: nat): nat { hash * 0x1_0000_0000 }

  /** The first position that a piece does not cover. */
  function Limit(state: nat): nat { if state == SIZE_MAX then SIZE_MAX + 1 else state }

  /** A state that lies at the beginning of a bucket. */
  ghost predicate Aligned(state: nat, bits: nat)
    requires bits <= 32
  {
    exists i: nat :: BeginsBucket(state, bits, i)
  }

  ghost predicate BeginsBucket(state: nat, bits: nat, i: nat)
    requires bits <= 32
  {
    state == i * Pow2(64 - bits) && i < Pow2(bits)
  }

  /** One piece: which handles it visits, and the state it leaves. */
  ghost predicate Piece(t: Tab, state: nat, state': nat, visited: seq<nat>)
  {
    && NoDup(visited)
    && state < Limit(state')
    && forall x: nat :: x in visited <==> In(t, x) && state <= Position(t.name[x].hash) < Limit(state')
  }

  method ApplyToSomeEntries(t: HandleTable, perLock: nat, state: nat) returns (state': nat, visited: seq<nat>)
    requires t.Valid() && perLock > 0 && Aligned(state, t.bits)
    ensures Piece(t.View(), state, state', visited)
    ensures state' == SIZE_MAX || Aligned(state', t.bits)
    // It goes through as many buckets as asked for, or to the end.
    ensures state' == Ahead(t.bits, state, perLock)
  {
    hide Ok, Pow2, Bucket, Piece, BeginsBucket;
    OkSizes(t.View());
    var length, width := Pow2(t.bits), Pow2(64 - t.bits);
    ghost var i :| BeginsBucket(state, t.bits, i);
    Begins(state, t.bits, i);
    FirstBucket(state, width, i);
    var begin := Quotient(state, width);
    var end := begin + perLock;
    if end >= length {
      end := length;
      state' := SIZE_MAX;
    } else {
      state' := end * width;
    }
    PieceEnd(t.bits, begin, perLock, state);
    LastBucket(t.bits, begin, end, state, state');
    visited := VisitRange(t, begin, end);
    CoversRange(t.View(), begin, end, state, state', visited);
  }

  /** All handles of the buckets from `begin` to `end`, in the order of the lists. */
  method VisitRange(t: HandleTable, begin: nat, end: nat) returns (visited: seq<nat>)
    requires t.Valid() && begin <= end <= |t.heads|
    ensures Range(t.View(), begin, end, visited)
  {
    hide Ok, Path, Bucket, Range;
    ghost var v := t.View();
    OkSizes(v);
    visited := [];
    var b := begin;
    RangeStart(v, begin);
    while b < end
      invariant begin <= b <= end && Range(v, begin, b, visited)
    {
      var h := t.heads[b];
      ghost var done, left := [], t.chains[b];
      ghost var before := visited;
      ListOf(v, b);
      assert before + done == before;
      while h != NULL
        invariant v.chains[b] == done + left && Path(v.next, h, left) && visited == before + done
        invariant h == if left == [] then NULL else left[0]
        decreases |left|
      {
        PathHead(v.next, h, left[0], left[1..]) by {
          assert left == [left[0]] + left[1..];
        }
        PathStart(v.next, v.next[h], left[1..]);
        assert before + (done + [left[0]]) == (before + done) + [left[0]];
        assert done + left == (done + [left[0]]) + left[1..];
        visited := visited + [h];
        done, left := done + [left[0]], left[1..];
        h := t.next[h];
      }
      assert v.chains[b] == done;
      RangeNext(v, begin, b, before);
      b := b + 1;
    }
  }

  /** `visited` lists each handle of buckets begin to end exactly once. */
  ghost predicate Range(t: Tab, begin: nat, end: nat, visited: seq<nat>)
  {
    && t.bits <= 32 && NoDup(visited)
    && forall x: nat :: x in visited <==> In(t, x) && begin <= Bucket(t.name[x].hash, t.bits) < end
  }

  lemma RangeStart(t: Tab, begin: nat)
    requires t.bits <= 32
    ensures Range(t, begin, begin, [])
  {
  }

  lemma ListOf(t: Tab, b: nat)
    requires Ok(t) && b < |t.chains|
    ensures b < |t.heads| && Path(t.next, t.heads[b], t.chains[b]) && t.chains[b] == [] + t.chains[b]
    ensures t.heads[b] == if t.chains[b] == [] then NULL else t.chains[b][0]
  {
    assert ChainOk(t, b);
  }

  lemma RangeNext(t: Tab, begin: nat, b: nat, visited: seq<nat>)
    requires Ok(t) && begin <= b < |t.chains| && Range(t, begin, b, visited)
    ensures Range(t, begin, b + 1, visited + t.chains[b])
  {
    hide Path, Bucket, NoDup;
    assert ChainOk(t, b);
    forall x: nat | In(t, x) && Bucket(t.name[x].hash, t.bits) == b
      ensures x in t.chains[b]
    {
      assert NameOk(t, t.name[x]);
    }
    NoDupJoin(visited, t.chains[b]);
  }

  // ---- Buckets and positions ----

  lemma Begins(state: nat, bits: nat, i: nat)
    requires bits <= 32 && BeginsBucket(state, bits, i)
    ensures state == i * Pow2(64 - bits) && i < Pow2(bits)
  {
  }

  lemma FirstBucket(state: nat, width: nat, i: nat)
    requires width > 0 && state == i * width
    ensures Quotient(state, width) == i
  {
    var q := Quotient(state, width);
    if q < i {
      MulLe(q + 1, i, width);
    } else if i < q {
      MulLe(i + 1, q, width);
    }
  }

  /** Bucket boundaries, as positions: at or behind bucket i means at or behind its first position. */
  lemma BucketPosition(hash: nat, bits: nat, i: nat)
    requires bits <= 32
    ensures i <= Bucket(hash, bits) <==> i * Pow2(64 - bits) <= Position(hash)
  {
    hide Pow2, Quotient;
    var w, q := Pow2(32 - bits), Bucket(hash, bits);
    Pow2Add(32 - bits, 32);
    Pow2At32();
    if i <= q {
      MulLe(i, q, w);
      Scale(i, w, hash);
    } else {
      MulLe(q + 1, i, w);
      ScaleStrict(i, w, hash);
    }
  }

  lemma Scale(i: nat, w: nat, hash: nat)
    requires i * w <= hash
    ensures i * (w * 0x1_0000_0000) <= hash * 0x1_0000_0000
  {
    assert i * (w * 0x1_0000_0000) == (i * w) * 0x1_0000_0000;
  }

  lemma ScaleStrict(i: nat, w: nat, hash: nat)
    requires hash < i * w
    ensures hash * 0x1_0000_0000 < i * (w * 0x1_0000_0000)
  {
    assert i * (w * 0x1_0000_0000) == (i * w) * 0x1_0000_0000;
  }

  lemma PieceEnd(bits: nat, begin: nat, perLock: nat, state: nat)
    requires bits <= 32 && state == begin * Pow2(64 - bits)
    ensures (begin + perLock) * Pow2(64 - bits) == state + perLock * Pow2(64 - bits)
    ensures begin + perLock < Pow2(bits) <==> state + perLock * Pow2(64 - bits) < SIZE_MAX + 1
  {
    hide Pow2;
    Pow2Add(bits, 64 - bits);
    Pow2At64();
    Pow2Strict(0, 64 - bits);
    if begin + perLock < Pow2(bits) {
      MulLe(begin + perLock + 1, Pow2(bits), Pow2(64 - bits));
    } else {
      MulLe(Pow2(bits), begin + perLock, Pow2(64 - bits));
    }
  }

  lemma LastBucket(bits: nat, begin: nat, end: nat, state: nat, state': nat)
    requires bits <= 31 && begin < end <= Pow2(bits) && state == begin * Pow2(64 - bits)
    requires state' == if end == Pow2(bits) then SIZE_MAX else end * Pow2(64 - bits)
    ensures Limit(state') == end * Pow2(64 - bits) && state < Limit(state')
    ensures state' == SIZE_MAX || BeginsBucket(state', bits, end)
  {
    hide Pow2;
    Pow2Add(bits, 64 - bits);
    Pow2At64();
    Pow2Strict(0, 64 - bits);
    MulLe(begin + 1, end, Pow2(64 - bits));
    if end < Pow2(bits) {
      MulLe(end + 1, Pow2(bits), Pow2(64 - bits));
    }
  }

  lemma CoversRange(t: Tab, begin: nat, end: nat, state: nat, state': nat, visited: seq<nat>)
    requires t.bits <= 32 && Range(t, begin, end, visited)
    requires state == begin * Pow2(64 - t.bits) && Limit(state') == end * Pow2(64 - t.bits) && state < Limit(state')
    ensures Piece(t, state, state', visited)
  {
    hide Bucket, Position, NoDup, Pow2;
    forall x: nat | In(t, x)
      ensures begin <= Bucket(t.name[x].hash, t.bits) < end <==> state <= Position(t.name[x].hash) < Limit(state')
    {
      BucketPosition(t.name[x].hash, t.bits, begin);
      BucketPosition(t.name[x].hash, t.bits, end);
    }
  }

  lemma Halve(state: nat, bits: nat, i: nat)
    requires bits < 32 && BeginsBucket(state, bits, i)
    ensures BeginsBucket(state, bits + 1, 2 * i)
  {
    MoveTwo(i, Pow2(64 - (bits + 1)));
  }

  lemma MoveTwo(i: nat, w: nat)
    ensures i * (2 * w) == (2 * i) * w
  {
  }

  /** A state at the beginning of a bucket is at the beginning of a bucket of any larger table. */
  lemma {:induction false} AlignedStays(state: nat, bits: nat, bits': nat)
    requires bits <= bits' <= 32 && Aligned(state, bits)
    ensures Aligned(state, bits')
    decreases bits' - bits
  {
    hide BeginsBucket;
    if bits < bits' {
      var i: nat :| BeginsBucket(state, bits, i);
      Halve(state, bits, i);
      AlignedStays(state, bits + 1, bits');
    }
  }

  // ---- A whole scan ----

  /** One call: the table as it was then, the states before and after, and what was visited. */
  datatype Call = Call(t: Tab, state: nat, state': nat, visited: seq<nat>)

  ghost predicate Continues(calls: seq<Call>, i: nat)
    requires 0 < i < |calls|
  {
    calls[i].state == calls[i - 1].state' != SIZE_MAX
  }

  /** Calls that begin at state 0, each go on where the one before stopped, and have come to `state`. */
  ghost predicate ScanTo(calls: seq<Call>, state: nat)
  {
    && (if calls == [] then state == 0 else calls[0].state == 0 && calls[|calls| - 1].state' == state)
    && (forall i :: 0 <= i < |calls| ==> Piece(calls[i].t, calls[i].state, calls[i].state', calls[i].visited))
    && (forall i :: 0 < i < |calls| ==> Continues(calls, i))
  }

  ghost predicate Scan(calls: seq<Call>) { calls != [] && ScanTo(calls, SIZE_MAX) }

  lemma ScanMore(calls: seq<Call>, state: nat, c: Call)
    requires ScanTo(calls, state) && state != SIZE_MAX && c.state == state && Piece(c.t, c.state, c.state', c.visited)
    ensures ScanTo(calls + [c], c.state')
  {
    hide Piece;
    var all := calls + [c];
    forall i | 0 < i < |all|
      ensures Continues(all, i)
    {
      assert i < |calls| ==> Continues(calls, i);
    }
  }

  /** What all calls visited, in order. */
  function VisitedBy(calls: seq<Call>): seq<nat>
  {
    if calls == [] then [] else VisitedBy(calls[..|calls| - 1]) + calls[|calls| - 1].visited
  }

  lemma {:induction false} StatesGrow(calls: seq<Call>, i: nat, j: nat)
    requires Scan(calls) && i < j < |calls|
    ensures Limit(calls[i].state') <= calls[j].state
    decreases j
  {
    assert Continues(calls, j);
    if i < j - 1 {
      StatesGrow(calls, i, j - 1);
      assert Piece(calls[j - 1].t, calls[j - 1].state, calls[j - 1].state', calls[j - 1].visited);
    }
  }

  /** The call whose piece covers a position. */
  lemma {:induction false} Covering(calls: seq<Call>, p: nat, n: nat) returns (i: nat)
    requires Scan(calls) && 0 < n <= |calls| && p < Limit(calls[n - 1].state')
    ensures i < n && calls[i].state <= p < Limit(calls[i].state')
  {
    if calls[n - 1].state <= p {
      i := n - 1;
    } else {
      assert n > 1 ==> Continues(calls, n - 1);
      i := Covering(calls, p, n - 1);
    }
  }

  /** A handle that is in the table, under the same name, during every call is visited by exactly one of them. */
  lemma VisitedOnce(calls: seq<Call>, x: nat, name: Name) returns (i: nat)
    requires Scan(calls) && name.hash < 0x1_0000_0000
    requires forall j :: 0 <= j < |calls| ==> In(calls[j].t, x) && calls[j].t.name[x] == name
    ensures i < |calls| && x in calls[i].visited && NoDup(calls[i].visited)
    ensures forall j :: 0 <= j < |calls| && j != i ==> x !in calls[j].visited
  {
    hide NoDup, In;
    i := Covering(calls, Position(name.hash), |calls|);
    assert Piece(calls[i].t, calls[i].state, calls[i].state', calls[i].visited);
    forall j | 0 <= j < |calls| && j != i
      ensures x !in calls[j].visited
    {
      assert Piece(calls[j].t, calls[j].state, calls[j].state', calls[j].visited);
      if i < j {
        StatesGrow(calls, i, j);
      } else {
        StatesGrow(calls, j, i);
      }
    }
  }

  lemma {:induction false} NotVisited(calls: seq<Call>, x: nat)
    requires forall j :: 0 <= j < |calls| ==> x !in calls[j].visited
    ensures multiset(VisitedBy(calls))[x] == 0
  {
    if calls != [] {
      NotVisited(calls[..|calls| - 1], x);
    }
  }

  lemma {:induction false} OnceInList(p: seq<nat>, x: nat)
    requires NoDup(p) && x in p
    ensures multiset(p)[x] == 1
  {
    assert p == [p[0]] + p[1..];
    if p[0] == x {
      assert x !in p[1..];
    } else {
      OnceInList(p[1..], x);
    }
  }

  lemma {:induction false} VisitedByOne(calls: seq<Call>, i: nat, x: nat)
    requires i < |calls| && x in calls[i].visited && NoDup(calls[i].visited)
    requires forall j :: 0 <= j < |calls| && j != i ==> x !in calls[j].visited
    ensures multiset(VisitedBy(calls))[x] == 1
  {
    hide NoDup;
    var less := calls[..|calls| - 1];
    if i == |calls| - 1 {
      NotVisited(less, x);
      OnceInList(calls[i].visited, x);
    } else {
      VisitedByOne(less, i, x);
      assert x !in calls[|calls| - 1].visited;
    }
  }

  /** So over a whole scan it is visited once, whatever else happens to the table between two calls. */
  lemma StaysAndVisited(calls: seq<Call>, x: nat, name: Name)
    requires Scan(calls) && name.hash < 0x1_0000_0000
    requires forall j :: 0 <= j < |calls| ==> In(calls[j].t, x) && calls[j].t.name[x] == name
    ensures multiset(VisitedBy(calls))[x] == 1
  {
    hide NoDup, In, Scan, VisitedBy;
    var i := VisitedOnce(calls, x, name);
    VisitedByOne(calls, i, x);
  }

  // ---- All shards, in turn ----

  /** What is left of a scan in the given state. */
  function Left(state: nat): nat { if state <= SIZE_MAX then SIZE_MAX + 1 - Limit(state) else 0 }

  function LeftOver(states: seq<nat>): nat { if states == [] then 0 else Left(states[0]) + LeftOver(states[1..]) }

  lemma {:induction false} LeftOverAt(states: seq<nat>, i: nat, s: nat)
    requires i < |states|
    ensures LeftOver(states[i := s]) == LeftOver(states) - Left(states[i]) + Left(s)
  {
    if i == 0 {
      assert states[i := s][1..] == states[1..];
    } else {
      LeftOverAt(states[1..], i - 1, s);
      assert states[i := s][1..] == states[1..][i - 1 := s];
    }
  }

  // ---- What other threads do between two pieces ----

  /** Table u can come from table t: handles are added, and one that left the table does not come back. */
  ghost predicate Evolves(t: Tab, u: Tab)
  {
    t.bits <= u.bits && t.name <= u.name && forall x :: 0 <= x < |t.name| && In(u, x) ==> In(t, x)
  }

  lemma EvolvesTwice(t: Tab, u: Tab, v: Tab)
    requires Evolves(t, u) && Evolves(u, v)
    ensures Evolves(t, v)
  {
    hide In;
  }

  /** Another thread inserts or removes an entry, which may double the table. */
  method Disturb(t: HandleTable)
    requires t.Valid()
    modifies t
    ensures t.Valid() && Evolves(old(t.View()), t.View())
  {
    hide Ok;
    var k: Name := *;
    if k.hash < HASH_LIMIT {
      if * {
        NewIsFree(t.View());
        var h := t.AddHandle(k);
        var replaced := t.Insert(h);
      } else {
        var r := t.Remove(k);
      }
    }
  }

  lemma NewIsFree(t: Tab)
    requires Ok(t)
    ensures forall k :: k in t.m ==> t.m[k] != |t.name|
  {
    hide ChainOk;
  }

  ghost predicate AllDifferent(shards: seq<HandleTable>) { forall i, j :: 0 <= i < j < |shards| ==> shards[i] != shards[j] }

  /** Other threads do anything to any shards. */
  method OtherThreads(shards: seq<HandleTable>)
    requires AllDifferent(shards) && forall i :: 0 <= i < |shards| ==> shards[i].Valid()
    modifies shards
    ensures forall i :: 0 <= i < |shards| ==> shards[i].Valid() && Evolves(old(shards[i].View()), shards[i].View())
  {
    hide HandleTable.Valid, Evolves, HandleTable.View;
    SelfEvolves(shards);
    var n: nat := *;
    while n > 0
      invariant forall i :: 0 <= i < |shards| ==> shards[i].Valid() && Evolves(old(shards[i].View()), shards[i].View())
    {
      var i: int := *;
      if 0 <= i < |shards| {
        label before:
        Disturb(shards[i]);
        EvolvesTwice(old(shards[i].View()), old@before(shards[i].View()), shards[i].View());
      }
      n := n - 1;
    }
  }

  lemma SelfEvolves(shards: seq<HandleTable>)
    ensures forall i :: 0 <= i < |shards| ==> Evolves(shards[i].View(), shards[i].View())
  {
  }

  // ---- The scan of a shard, seen between two pieces ----

  /** The calls saw the table as it went from t to u. */
  ghost predicate History(t: Tab, calls: seq<Call>, u: Tab)
  {
    && Evolves(t, u)
    && (forall j :: 0 <= j < |calls| ==> Evolves(t, calls[j].t) && Evolves(calls[j].t, u))
    && forall i, j :: 0 <= i < j < |calls| ==> Evolves(calls[i].t, calls[j].t)
  }

  lemma HistoryGoesOn(t: Tab, calls: seq<Call>, u: Tab, v: Tab)
    requires History(t, calls, u) && Evolves(u, v)
    ensures History(t, calls, v)
  {
    hide Evolves;
    EvolvesTwice(t, u, v);
    forall j | 0 <= j < |calls|
      ensures Evolves(calls[j].t, v)
    {
      EvolvesTwice(calls[j].t, u, v);
    }
  }

  lemma HistoryMore(t: Tab, calls: seq<Call>, u: Tab, c: Call)
    requires History(t, calls, u) && c.t == u
    ensures History(t, calls + [c], u)
  {
    assert Evolves(u, u);
  }

  /**
   What a scan of a shard that goes from t to u means: an entry that is there before and after is visited once, no entry
   is visited twice, and what is visited was there before or was added since.
   */
  ghost predicate Scanned(t: Tab, u: Tab, visited: seq<nat>)
  {
    && (forall x :: In(t, x) && In(u, x) ==> multiset(visited)[x] == 1)
    && (forall x :: multiset(visited)[x] <= 1)
    && forall x :: x in visited ==> In(t, x) || |t.name| <= x < |u.name|
  }

  lemma HistoryScanned(t: Tab, calls: seq<Call>, u: Tab)
    requires Ok(t) && Ok(u) && Scan(calls) && History(t, calls, u)
    ensures Scanned(t, u, VisitedBy(calls))
  {
    hide Ok, Scan, VisitedBy, In, Evolves;
    forall x: nat | In(t, x) && In(u, x)
      ensures multiset(VisitedBy(calls))[x] == 1
    {
      StaysThroughout(t, calls, u, x);
      HashOf(t, x);
      StaysAndVisited(calls, x, t.name[x]);
    }
    forall x: nat
      ensures multiset(VisitedBy(calls))[x] <= 1
      ensures x in VisitedBy(calls) ==> In(t, x) || |t.name| <= x < |u.name|
    {
      if j :| 0 <= j < |calls| && x in calls[j].visited {
        VisitedIsIn(t, calls, u, j, x);
        OnlyThere(t, calls, u, j, x);
        VisitedByOne(calls, j, x);
      } else {
        NotVisited(calls, x);
      }
    }
  }

  lemma HashOf(t: Tab, x: nat)
    requires Ok(t) && In(t, x)
    ensures x < |t.name| && t.name[x].hash < HASH_LIMIT
  {
    hide ChainOk, NameOk;
  }

  lemma StaysThroughout(t: Tab, calls: seq<Call>, u: Tab, x: nat)
    requires History(t, calls, u) && In(t, x) && In(u, x)
    ensures forall j :: 0 <= j < |calls| ==> In(calls[j].t, x) && calls[j].t.name[x] == t.name[x]
  {
    forall j | 0 <= j < |calls|
      ensures In(calls[j].t, x) && calls[j].t.name[x] == t.name[x]
    {
      assert Evolves(t, calls[j].t) && Evolves(calls[j].t, u);
    }
  }

  lemma VisitedIsIn(t: Tab, calls: seq<Call>, u: Tab, j: nat, x: nat)
    requires History(t, calls, u) && Scan(calls) && j < |calls| && x in calls[j].visited
    ensures In(calls[j].t, x) && NoDup(calls[j].visited) && (In(t, x) || |t.name| <= x < |u.name|)
  {
    hide NoDup;
    assert Piece(calls[j].t, calls[j].state, calls[j].state', calls[j].visited);
    assert Evolves(t, calls[j].t) && Evolves(calls[j].t, u);
  }

  /** Two pieces do not visit the same entry. */
  lemma OnlyThere(t: Tab, calls: seq<Call>, u: Tab, j: nat, x: nat)
    requires History(t, calls, u) && Scan(calls) && j < |calls| && x in calls[j].visited
    ensures forall i :: 0 <= i < |calls| && i != j ==> x !in calls[i].visited
  {
    hide NoDup;
    forall i | 0 <= i < |calls| && i != j
      ensures x !in calls[i].visited
    {
      assert Piece(calls[j].t, calls[j].state, calls[j].state', calls[j].visited);
      assert Piece(calls[i].t, calls[i].state, calls[i].state', calls[i].visited);
      if i < j {
        StatesGrow(calls, i, j);
        assert Evolves(calls[i].t, calls[j].t);
      } else {
        StatesGrow(calls, j, i);
        assert Evolves(calls[j].t, calls[i].t);
      }
    }
  }

  /** The scan of a shard has come to `state`, where the next piece can go on. */
  ghost predicate Going(calls: seq<Call>, bits: nat, state: nat)
  {
    bits <= 32 && ScanTo(calls, state) && (state == SIZE_MAX || Aligned(state, bits)) && (state == SIZE_MAX ==> calls != [])
  }

  lemma GoingStart(t: Tab)
    requires Ok(t)
    ensures Going([], t.bits, 0)
  {
    hide ChainOk, NameOk;
    assert BeginsBucket(0, t.bits, 0);
  }

  lemma GoingStays(calls: seq<Call>, bits: nat, bits': nat, state: nat)
    requires Going(calls, bits, state) && bits <= bits' <= 32
    ensures Going(calls, bits', state)
  {
    hide Aligned, ScanTo;
    if state != SIZE_MAX {
      AlignedStays(state, bits, bits');
    }
  }

  lemma BitsOf(t: Tab)
    requires Ok(t)
    ensures t.bits <= 32
  {
    hide ChainOk, NameOk;
  }

  /** Where a piece of so many buckets ends. */
  ghost function Ahead(bits: nat, state: nat, perLock: nat): nat
    requires bits <= 64
  {
    var far := state + perLock * Pow2(64 - bits);
    if far <= SIZE_MAX then far else SIZE_MAX
  }

  /** Every piece went through as many buckets of its table as it should, or to the end. */
  ghost predicate Paced(calls: seq<Call>, perLock: nat)
  {
    forall j :: 0 <= j < |calls| ==> calls[j].t.bits <= 64 && calls[j].state' == Ahead(calls[j].t.bits, calls[j].state, perLock)
  }

  /** One piece of one shard, under its lock. */
  method ScanShard(shard: HandleTable, perLock: nat, state: nat, ghost calls: seq<Call>)
    returns (state': nat, piece: seq<nat>, ghost more: seq<Call>)
    requires shard.Valid() && perLock > 0 && Going(calls, shard.bits, state) && state != SIZE_MAX
    ensures more == calls + [Call(shard.View(), state, state', piece)]
    ensures Going(more, shard.bits, state') && Left(state') < Left(state) && (Paced(calls, perLock) ==> Paced(more, perLock))
  {
    hide Ok, ScanTo, Piece, Aligned;
    state', piece := ApplyToSomeEntries(shard, perLock, state);
    PieceAdvances(shard.View(), state, state', piece);
    ScanMore(calls, state, Call(shard.View(), state, state', piece));
    more := calls + [Call(shard.View(), state, state', piece)];
  }

  /**
   Visits the shards in turn, a piece of each, until all are done; the lock is only held for one piece, and in
   between other threads change the shards. `calls` records what each piece saw: tables that the shard went through
   between the beginning and the end. The number of entries per lock is cut to one, whatever the caller asks for.
   */
  method ApplyToAllEntries(shards: seq<HandleTable>, entriesPerLock: nat)
    returns (visited: seq<seq<nat>>, ghost calls: seq<seq<Call>>)
    requires entriesPerLock > 0 && AllDifferent(shards) && forall i :: 0 <= i < |shards| ==> shards[i].Valid()
    modifies shards
    ensures |visited| == |calls| == |shards| && forall i :: 0 <= i < |shards| ==> shards[i].Valid()
    ensures forall i :: 0 <= i < |shards| ==> Scanned(old(shards[i].View()), shards[i].View(), visited[i])
    ensures forall i :: 0 <= i < |shards| ==>
              && Scan(calls[i]) && Paced(calls[i], 1) && visited[i] == VisitedBy(calls[i])
              && History(old(shards[i].View()), calls[i], shards[i].View())
  {
    hide Ok, Going, Scan, VisitedBy, AllDifferent, HandleTable.Valid, History, Scanned, LeftOver, HandleTable.View;
    ghost var first := Views(shards);
    var states, perLock := seq(|shards|, _ => 0), if entriesPerLock < 1 then entriesPerLock else 1;
    visited, calls := seq(|shards|, _ => []), seq(|shards|, _ => []);
    AllStart(shards, perLock);
    var remaining := true;
    while remaining
      invariant Standing(shards, perLock, first, states, visited, calls)
      invariant !remaining ==> forall i :: 0 <= i < |shards| ==> states[i] == SIZE_MAX
      decreases LeftOver(states), remaining
    {
      states, visited, remaining, calls := Round(shards, perLock, first, states, visited, calls);
    }
    AllDone(shards, perLock, first, states, visited, calls);
  }

  /** One piece of each shard that is not done, and whether any is left. */
  method Round(shards: seq<HandleTable>, perLock: nat, ghost first: seq<Tab>, states: seq<nat>, visited: seq<seq<nat>>,
               ghost calls: seq<seq<Call>>)
    returns (states': seq<nat>, visited': seq<seq<nat>>, remaining: bool, ghost calls': seq<seq<Call>>)
    requires perLock > 0 && AllDifferent(shards) && Standing(shards, perLock, first, states, visited, calls)
    modifies shards
    ensures Standing(shards, perLock, first, states', visited', calls') && |states'| == |shards|
    ensures LeftOver(states') <= LeftOver(states) && (remaining ==> LeftOver(states') < LeftOver(states))
    ensures !remaining ==> forall i :: 0 <= i < |shards| ==> states'[i] == SIZE_MAX
  {
    hide Standing, AllDifferent, LeftOver;
    states', visited', calls', remaining := states, visited, calls, false;
    StandingSizes(shards, perLock, first, states', visited', calls');
    var i := 0;
    while i < |shards|
      invariant i <= |shards| == |states'| && Standing(shards, perLock, first, states', visited', calls')
      invariant LeftOver(states') <= LeftOver(states) && (remaining ==> LeftOver(states') < LeftOver(states))
      invariant !remaining ==> forall j :: 0 <= j < i ==> states'[j] == SIZE_MAX
    {
      if states'[i] != SIZE_MAX {
        states', visited', calls' := NextPiece(shards, perLock, i, first, states', visited', calls');
        StandingSizes(shards, perLock, first, states', visited', calls');
        remaining := remaining || states'[i] != SIZE_MAX;
      }
      i := i + 1;
    }
  }

  lemma StandingSizes(shards: seq<HandleTable>, perLock: nat, first: seq<Tab>, states: seq<nat>, visited: seq<seq<nat>>,
                      calls: seq<seq<Call>>)
    requires Standing(shards, perLock, first, states, visited, calls)
    ensures |first| == |states| == |visited| == |calls| == |shards|
  {
  }

  ghost function Views(shards: seq<HandleTable>): (r: seq<Tab>)
    reads shards
    ensures |r| == |shards| && forall i :: 0 <= i < |shards| ==> r[i] == shards[i].View()
  {
    seq(|shards|, i requires 0 <= i < |shards| reads shards => shards[i].View())
  }

  ghost predicate Standing(shards: seq<HandleTable>, perLock: nat, first: seq<Tab>, states: seq<nat>, visited: seq<seq<nat>>,
                           calls: seq<seq<Call>>)
    reads shards
  {
    && |first| == |states| == |visited| == |calls| == |shards|
    && forall i :: 0 <= i < |shards| ==>
         && shards[i].Valid() && Going(calls[i], shards[i].bits, states[i]) && visited[i] == VisitedBy(calls[i])
         && Ok(first[i]) && History(first[i], calls[i], shards[i].View()) && Paced(calls[i], perLock)
  }

  lemma AllStart(shards: seq<HandleTable>, perLock: nat)
    requires forall i :: 0 <= i < |shards| ==> shards[i].Valid()
    ensures Standing(shards, perLock, Views(shards), seq(|shards|, _ => 0), seq(|shards|, _ => []), seq(|shards|, _ => []))
  {
    hide Ok, Going, In;
    forall i | 0 <= i < |shards|
      ensures Going([], shards[i].bits, 0) && Ok(shards[i].View())
    {
      GoingStart(shards[i].View());
    }
  }

  lemma AllDone(shards: seq<HandleTable>, perLock: nat, first: seq<Tab>, states: seq<nat>, visited: seq<seq<nat>>, calls: seq<seq<Call>>)
    requires Standing(shards, perLock, first, states, visited, calls) && forall i :: 0 <= i < |shards| ==> states[i] == SIZE_MAX
    ensures forall i :: 0 <= i < |shards| ==>
              Scan(calls[i]) && Paced(calls[i], perLock) && Scanned(first[i], shards[i].View(), visited[i])
  {
    hide ScanTo, Ok, History, Scanned, VisitedBy;
    forall i | 0 <= i < |shards|
      ensures Scan(calls[i]) && Scanned(first[i], shards[i].View(), visited[i])
    {
      HistoryScanned(first[i], calls[i], shards[i].View());
    }
  }

  /** A piece of shard i, and then whatever other threads do. */
  method NextPiece(shards: seq<HandleTable>, perLock: nat, i: nat, ghost first: seq<Tab>, states: seq<nat>,
                   visited: seq<seq<nat>>, ghost calls: seq<seq<Call>>)
    returns (states': seq<nat>, visited': seq<seq<nat>>, ghost calls': seq<seq<Call>>)
    requires perLock > 0 && AllDifferent(shards) && Standing(shards, perLock, first, states, visited, calls)
    requires i < |shards| == |states| && states[i] != SIZE_MAX
    modifies shards
    ensures Standing(shards, perLock, first, states', visited', calls') && |states'| == |states|
    ensures LeftOver(states') < LeftOver(states) && forall j :: 0 <= j < |states| && j != i ==> states'[j] == states[j]
  {
    hide Ok, Going, VisitedBy, AllDifferent, HandleTable.Valid, History, Evolves;
    var state', piece;
    ghost var more;
    state', piece, more := ScanShard(shards[i], perLock, states[i], calls[i]);
    LeftOverAt(states, i, state');
    VisitedMore(calls[i], more, piece);
    HistoryMore(first[i], calls[i], shards[i].View(), Call(shards[i].View(), states[i], state', piece));
    states', visited', calls' := states[i := state'], visited[i := visited[i] + piece], calls[i := more];
    label pieceDone:
    OtherThreads(shards);
    forall j | 0 <= j < |shards|
      ensures Going(calls'[j], shards[j].bits, states'[j]) && History(first[j], calls'[j], shards[j].View())
    {
      AtMost32(shards[j]);
      MoreBits(old@pieceDone(shards[j].View()), shards[j].View());
      GoingStays(calls'[j], old@pieceDone(shards[j].bits), shards[j].bits, states'[j]);
      HistoryGoesOn(first[j], calls'[j], old@pieceDone(shards[j].View()), shards[j].View());
    }
  }

  lemma MoreBits(t: Tab, u: Tab)
    requires Evolves(t, u)
    ensures t.bits <= u.bits
  {
  }

  lemma AtMost32(t: HandleTable)
    requires t.Valid()
    ensures t.bits <= 32
  {
    hide Ok;
    BitsOf(t.View());
  }

  lemma VisitedMore(calls: seq<Call>, more: seq<Call>, piece: seq<nat>)
    requires |more| == |calls| + 1 && more[..|calls|] == calls && more[|calls|].visited == piece
    ensures VisitedBy(more) == VisitedBy(calls) + piece
  {
  }

  lemma PieceAdvances(t: Tab, state: nat, state': nat, visited: seq<nat>)
    requires Piece(t, state, state', visited) && state != SIZE_MAX && t.bits <= 32 && Aligned(state, t.bits)
    requires state' == SIZE_MAX || Aligned(state', t.bits)
    ensures Left(state') < Left(state)
  {
    hide NoDup, In, Pow2;
    var i: nat :| BeginsBucket(state, t.bits, i);
    Pow2Add(t.bits, 64 - t.bits);
    Pow2At64();
    MulLe(i + 1, Pow2(t.bits), Pow2(64 - t.bits));
    if state' != SIZE_MAX {
      var j: nat :| BeginsBucket(state', t.bits, j);
      MulLe(j + 1, Pow2(t.bits), Pow2(64 - t.bits));
    }
  }
}
