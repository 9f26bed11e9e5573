/**
 The hash table of the LRU cache: buckets chosen by the top bits of a 32-bit hash, each a linked list
 through the handles. It behaves as a finite map from key to handle, also while it doubles.
 */
module LruTable {
  import opened Bits
  import opened ChainLinks
  import opened ChainSides

  /** A key and its 32-bit hash. */
  datatype Name = Name(hash: nat, key: nat)

  const NULL: int := -1

  // One more than the largest 32-bit hash.
  const HASH_LIMIT: nat := 0x1_0000_0000

  /** A place that holds a pointer to a handle: the head of a bucket, or the link inside a handle. */
  datatype Place = Head(bucket: nat) | After(handle: nat)

  function Bucket(hash: nat, bits: nat): nat
    requires bits <= 32
  {
    Quotient(hash, Pow2(32 - bits))
  }

  function Quotient(h: nat, d: nat): (q: nat)
    requires d > 0
    ensures q * d <= h < q * d + d
  {
    h / d
  }

  lemma BucketInRange(hash: nat, bits: nat)
    requires bits <= 32 && hash < HASH_LIMIT
    ensures Bucket(hash, bits) < Pow2(bits)
  {
    hide Pow2;
    Pow2Add(bits, 32 - bits);
    Pow2At32();
    QuotientBelow(hash, Pow2(32 - bits), Pow2(bits));
  }

  lemma QuotientBelow(h: nat, d: nat, n: nat)
    requires d > 0 && h < n * d
    ensures Quotient(h, d) < n
  {
    hide Quotient;
    if n <= Quotient(h, d) {
      MulLe(n, Quotient(h, d), d);
    }
  }

  lemma MulLe(a: nat, b: nat, d: nat)
    requires a <= b
    ensures a * d <= b * d
  {
  }

  /** Following `next` from `first` visits exactly `p`. */
  ghost predicate Path(next: seq<int>, first: int, p: seq<nat>)
    decreases |p|
  {
    if p == [] then first == NULL
    else first == p[0] && p[0] < |next| && Path(next, next[p[0]], p[1..])
  }

  /** The same, up to a pointer that is not followed. */
  ghost predicate Part(next: seq<int>, first: int, p: seq<nat>, last: int)
    decreases |p|
  {
    if p == [] then first == last
    else first == p[0] && p[0] < |next| && Part(next, next[p[0]], p[1..], last)
  }

  lemma {:induction false} PathSplit(next: seq<int>, first: int, p: seq<nat>, q: seq<nat>)
    requires Path(next, first, p + q)
    ensures p != [] ==> p[|p| - 1] < |next|
    ensures var mid := if p == [] then first else next[p[|p| - 1]];
            Part(next, first, p, mid) && Path(next, mid, q)
    decreases |p|
  {
    if p == [] {
      assert p + q == q;
    } else {
      assert (p + q)[1..] == p[1..] + q;
      PathSplit(next, next[p[0]], p[1..], q);
    }
  }

  lemma {:induction false} PathJoin(next: seq<int>, first: int, p: seq<nat>, mid: int, q: seq<nat>)
    requires Part(next, first, p, mid) && Path(next, mid, q)
    ensures Path(next, first, p + q)
    decreases |p|
  {
    if p == [] {
      assert p + q == q;
    } else {
      assert (p + q)[1..] == p[1..] + q;
      PathJoin(next, next[p[0]], p[1..], mid, q);
    }
  }

  lemma {:induction false} PathFrame(next: seq<int>, next': seq<int>, first: int, p: seq<nat>)
    requires Path(next, first, p) && |next'| >= |next|
    requires forall x :: x in p && x < |next| ==> next'[x] == next[x]
    ensures Path(next', first, p)
    ensures forall x :: x in p ==> x < |next|
    decreases |p|
  {
    if p != [] {
      assert p == [p[0]] + p[1..];
      PathFrame(next, next', next[p[0]], p[1..]);
    }
  }

  /** Redirecting the last link of a part moves its end and nothing else. */
  lemma {:induction false} PartRedirect(next: seq<int>, first: int, p: seq<nat>, last: int, v: int)
    requires Part(next, first, p, last) && p != [] && NoDup(p)
    ensures p[|p| - 1] < |next| && Part(next[p[|p| - 1] := v], first, p, v)
    decreases |p|
  {
    if |p| == 1 {
      assert p[1..] == [];
    } else {
      PartNoDup(p);
      PartRedirect(next, next[p[0]], p[1..], last, v);
      assert p[0] != p[|p| - 1];
    }
  }

  lemma PartNoDup(p: seq<nat>)
    requires NoDup(p) && p != []
    ensures NoDup(p[1..])
  {
  }

  /** Storing `v` behind `pre` replaces what followed by the path from `v`. */
  lemma Redirected(next: seq<int>, first: int, pre: seq<nat>, q: seq<nat>, v: int, q': seq<nat>)
    requires Path(next, first, pre + q) && NoDup(pre) && pre != []
    requires Path(next, v, q') && pre[|pre| - 1] !in q'
    ensures pre[|pre| - 1] < |next| && Path(next[pre[|pre| - 1] := v], first, pre + q')
  {
    hide Path, Part, NoDup;
    PathSplit(next, first, pre, q);
    var last := pre[|pre| - 1];
    PartRedirect(next, first, pre, next[last], v);
    PathFrame(next, next[last := v], v, q');
    PathJoin(next[last := v], first, pre, v, q');
  }

  // ---- The table as a value ----

  datatype Tab = Tab(bits: nat, heads: seq<int>, next: seq<int>, name: seq<Name>, chains: seq<seq<nat>>, m: map<Name, nat>)

  ghost predicate Sizes(t: Tab)
  {
    && t.bits <= 31 && |t.heads| == |t.chains| == Pow2(t.bits) && |t.next| == |t.name|
    && forall x :: 0 <= x < |t.name| ==> t.name[x].hash < HASH_LIMIT
  }

  /** The list of bucket b holds only handles of that bucket, and the map knows each of them by its name. */
  ghost predicate ChainOk(t: Tab, b: nat)
    requires Sizes(t) && b < |t.chains|
  {
    && Path(t.next, t.heads[b], t.chains[b]) && NoDup(t.chains[b])
    && forall x :: x in t.chains[b] ==>
         x < |t.name| && Bucket(t.name[x].hash, t.bits) == b && t.name[x] in t.m && t.m[t.name[x]] == x
  }

  /** A name in the map leads to a handle with that name, in the bucket of its hash. */
  ghost predicate NameOk(t: Tab, k: Name)
    requires Sizes(t)
  {
    k in t.m ==>
      && t.m[k] < |t.name| && t.name[t.m[k]] == k
      && Bucket(k.hash, t.bits) < |t.chains| && t.m[k] in t.chains[Bucket(k.hash, t.bits)]
  }

  ghost predicate Ok(t: Tab)
  {
    && Sizes(t)
    && (forall b :: 0 <= b < |t.chains| ==> ChainOk(t, b))
    && (forall k :: k in t.m ==> NameOk(t, k))
  }

  ghost function Stored(t: Tab, place: Place, v: int): Tab
  {
    match place
    case Head(i) => if i < |t.heads| then t.(heads := t.heads[i := v]) else t
    case After(x) => if x < |t.next| then t.(next := t.next[x := v]) else t
  }

  /** The place behind `pre` in bucket b. */
  ghost function PlaceOf(b: nat, pre: seq<nat>): Place
  {
    if pre == [] then Head(b) else After(pre[|pre| - 1])
  }

  /** The list of bucket b is now `chain`, and no other list changed. */
  ghost predicate EditedLinks(t: Tab, u: Tab, b: nat, chain: seq<nat>)
    requires Sizes(t) && b < |t.chains|
  {
    && u.bits == t.bits && u.name == t.name && |u.heads| == |t.heads| && |u.next| == |t.next|
    && u.chains == t.chains[b := chain]
    && (forall c :: 0 <= c < |t.chains| && c != b ==> Path(u.next, u.heads[c], t.chains[c]))
    && Path(u.next, u.heads[b], chain) && NoDup(chain)
  }

  /** The map is now m', which knows `chain` as bucket b and all other buckets as before. */
  ghost predicate EditedNames(t: Tab, m': map<Name, nat>, b: nat, chain: seq<nat>)
    requires Sizes(t) && b < |t.chains|
  {
    && (forall x :: x in chain ==> x < |t.name| && Bucket(t.name[x].hash, t.bits) == b && t.name[x] in m' && m'[t.name[x]] == x)
    && (forall k :: k in m' ==> if Bucket(k.hash, t.bits) == b then m'[k] in chain && m'[k] < |t.name| && t.name[m'[k]] == k
                                else k in t.m && m'[k] == t.m[k])
    && (forall k :: k in t.m && Bucket(k.hash, t.bits) != b ==> k in m' && m'[k] == t.m[k])
  }

  lemma EditOk(t: Tab, u: Tab, b: nat, chain: seq<nat>)
    requires Ok(t) && b < |t.chains| && EditedLinks(t, u, b, chain) && EditedNames(t, u.m, b, chain)
    ensures Ok(u)
  {
    hide Path, Bucket, NoDup;
    forall c | 0 <= c < |u.chains|
      ensures ChainOk(u, c)
    {
      assert ChainOk(t, c);
    }
    forall k | k in u.m
      ensures NameOk(u, k)
    {
      if Bucket(k.hash, t.bits) != b {
        assert NameOk(t, k);
      }
    }
  }

  ghost function Unlinked(t: Tab, b: nat, pre: seq<nat>, cur: nat, post: seq<nat>): Tab
    requires b < |t.chains| && cur < |t.next| && cur < |t.name|
  {
    Stored(t, PlaceOf(b, pre), t.next[cur]).(chains := t.chains[b := pre + post], m := t.m - {t.name[cur]})
  }

  /** Handle `cur` leaves its list. */
  lemma RemoveOk(t: Tab, b: nat, pre: seq<nat>, cur: nat, post: seq<nat>)
    requires Ok(t) && b < |t.chains| && t.chains[b] == pre + ([cur] + post)
    ensures cur < |t.next| && cur < |t.name| && t.name[cur] in t.m
    ensures Ok(Unlinked(t, b, pre, cur, post))
  {
    hide Path, Bucket, NoDup, EditedNames;
    assert ChainOk(t, b) && cur in t.chains[b];
    var u := Unlinked(t, b, pre, cur, post);
    RemovePath(t.next, t.heads[b], pre, cur, post);
    RemoveNames(t, b, pre, cur, post);
    forall c | 0 <= c < |t.chains| && c != b
      ensures Path(u.next, u.heads[c], t.chains[c])
    {
      OtherPath(t, b, pre, t.next[cur], c);
    }
    EditOk(t, u, b, pre + post);
  }

  lemma RemoveNames(t: Tab, b: nat, pre: seq<nat>, cur: nat, post: seq<nat>)
    requires Ok(t) && b < |t.chains| && t.chains[b] == pre + ([cur] + post) && cur !in pre + post
    ensures cur < |t.name| && EditedNames(t, t.m - {t.name[cur]}, b, pre + post)
  {
    hide Path, Bucket, NoDup;
    assert ChainOk(t, b) && cur in t.chains[b];
    assert forall x :: x in pre + post ==> x in t.chains[b];
    assert forall x :: x in t.chains[b] ==> x == cur || x in pre + post;
    forall k | k in t.m
      ensures NameOk(t, k)
    {
    }
  }

  lemma RemovePath(next: seq<int>, first: int, pre: seq<nat>, cur: nat, post: seq<nat>)
    requires Path(next, first, pre + ([cur] + post)) && NoDup(pre + ([cur] + post))
    ensures cur < |next| && NoDup(pre + post) && cur !in pre + post
    ensures pre == [] ==> Path(next, next[cur], pre + post)
    ensures pre != [] ==> pre[|pre| - 1] < |next| && Path(next[pre[|pre| - 1] := next[cur]], first, pre + post)
  {
    hide Path, NoDup;
    NoDupPrefix(pre, [cur] + post);
    NoDupPrefix([cur], post);
    SkippedNoDup(pre, [cur], post);
    PathSplit(next, first, pre, [cur] + post);
    PathHead(next, if pre == [] then first else next[pre[|pre| - 1]], cur, post);
    assert cur in [cur];
    assert forall x :: x in post ==> x in [cur] + post;
    if pre == [] {
      assert pre + post == post;
    } else {
      assert pre[|pre| - 1] in pre;
      Redirected(next, first, pre, [cur] + post, next[cur], post);
    }
  }

  lemma PathHead(next: seq<int>, first: int, x: nat, p: seq<nat>)
    requires Path(next, first, [x] + p)
    ensures first == x && x < |next| && Path(next, next[x], p)
  {
    assert ([x] + p)[1..] == p;
  }

  /** Storing behind a part of one list leaves every other list as it is. */
  lemma OtherPath(t: Tab, b: nat, pre: seq<nat>, v: int, c: nat)
    requires Ok(t) && b < |t.chains| && c < |t.chains| && b != c && forall x :: x in pre ==> x in t.chains[b]
    ensures var u := Stored(t, PlaceOf(b, pre), v); |u.heads| == |t.heads| && Path(u.next, u.heads[c], t.chains[c])
  {
    hide Path, Bucket, NoDup;
    assert ChainOk(t, c) && ChainOk(t, b);
    var u := Stored(t, PlaceOf(b, pre), v);
    PathFrame(t.next, u.next, t.heads[c], t.chains[c]);
  }

  // ---- Insertion ----

  /** The list behind the handle that an insert replaces, if it replaces one. */
  function Behind(rest: seq<nat>): seq<nat> { if rest == [] then [] else rest[1..] }

  /** Slot `h` takes the place of the first handle of `rest`, or comes last if there is none. */
  ghost function Linked(t: Tab, b: nat, pre: seq<nat>, rest: seq<nat>, h: nat): Tab
    requires b < |t.heads| && b < |t.chains| && h < |t.next| && h < |t.name| && (rest != [] ==> rest[0] < |t.next|)
  {
    Stored(t.(next := t.next[h := if rest == [] then NULL else t.next[rest[0]]]), PlaceOf(b, pre), h)
    .(chains := t.chains[b := pre + ([h] + Behind(rest))], m := t.m[t.name[h] := h])
  }

  lemma InsertOk(t: Tab, b: nat, pre: seq<nat>, rest: seq<nat>, h: nat)
    requires InsertSpot(t, b, pre, rest, h)
    requires forall k :: k in t.m ==> t.m[k] != h
    ensures Ok(Linked(t, b, pre, rest, h))
  {
    hide Path, Bucket, NoDup, EditedNames, EditedLinks;
    InsertLinks(t, b, pre, rest, h);
    InsertNames(t, b, pre, rest, h);
    EditOk(t, Linked(t, b, pre, rest, h), b, pre + ([h] + Behind(rest)));
  }

  lemma InsertLinks(t: Tab, b: nat, pre: seq<nat>, rest: seq<nat>, h: nat)
    requires InsertSpot(t, b, pre, rest, h)
    requires forall k :: k in t.m ==> t.m[k] != h
    ensures EditedLinks(t, Linked(t, b, pre, rest, h), b, pre + ([h] + Behind(rest)))
  {
    hide Path, Bucket, NoDup;
    assert ChainOk(t, b);
    var u := Linked(t, b, pre, rest, h);
    NotLinked(t, h, b);
    InsertPath(t.next, t.heads[b], pre, rest, h);
    assert forall x :: x in pre ==> x in t.chains[b];
    forall c | 0 <= c < |t.chains| && c != b
      ensures Path(u.next, u.heads[c], t.chains[c])
    {
      NotLinked(t, h, c);
      assert ChainOk(t, c);
      PathFrame(t.next, u.next, t.heads[c], t.chains[c]);
    }
  }

  lemma NotLinked(t: Tab, h: nat, c: nat)
    requires Ok(t) && c < |t.chains| && forall k :: k in t.m ==> t.m[k] != h
    ensures h !in t.chains[c]
  {
    assert ChainOk(t, c);
  }

  lemma InsertPath(next: seq<int>, first: int, pre: seq<nat>, rest: seq<nat>, h: nat)
    requires Path(next, first, pre + rest) && NoDup(pre + rest) && h !in pre + rest && h < |next|
    requires rest != [] ==> rest[0] < |next|
    ensures NoDup(pre + ([h] + Behind(rest)))
    ensures var next1 := next[h := if rest == [] then NULL else next[rest[0]]];
            && (pre == [] ==> Path(next1, h, pre + ([h] + Behind(rest))))
            && (pre != [] ==> pre[|pre| - 1] < |next| && Path(next1[pre[|pre| - 1] := h], first, pre + ([h] + Behind(rest))))
  {
    hide Path, NoDup;
    var post := Behind(rest);
    var next1 := next[h := if rest == [] then NULL else next[rest[0]]];
    PathSplit(next, first, pre, rest);
    NoDupPrefix(pre, rest);
    assert forall x :: x in rest ==> x in pre + rest;
    assert forall x :: x in pre ==> x in pre + rest;
    if rest == [] {
      PathEnds(next1);
    } else {
      assert rest == [rest[0]] + post;
      NoDupPrefix([rest[0]], post);
      PathHead(next, if pre == [] then first else next[pre[|pre| - 1]], rest[0], post);
      PathFrame(next, next1, next[rest[0]], post);
    }
    PathPush(next1, h, post);
    OneIsNoDup(h, post);
    NoDupJoin([h], post);
    NoDupJoin(pre, [h] + post);
    if pre == [] {
      assert pre + ([h] + post) == [h] + post;
    } else {
      assert pre[|pre| - 1] in pre;
      PathFrame(next, next1, first, pre + rest);
      Redirected(next1, first, pre, rest, h, [h] + post);
    }
  }

  lemma PathEnds(next: seq<int>)
    ensures Path(next, NULL, [])
  {
  }

  lemma PathPush(next: seq<int>, h: nat, p: seq<nat>)
    requires h < |next| && Path(next, next[h], p)
    ensures Path(next, h, [h] + p)
  {
    assert ([h] + p)[1..] == p;
  }

  lemma OneIsNoDup(h: nat, p: seq<nat>)
    ensures NoDup([h]) && (p == [] ==> NoDup(p))
  {
  }

  ghost predicate InsertSpot(t: Tab, b: nat, pre: seq<nat>, rest: seq<nat>, h: nat)
  {
    && Ok(t) && h < |t.name| && b == Bucket(t.name[h].hash, t.bits) < |t.chains| && t.chains[b] == pre + rest
    && (forall x :: x in pre && x < |t.name| ==> t.name[x] != t.name[h])
    && (rest != [] ==> rest[0] < |t.name| && t.name[rest[0]] == t.name[h] && rest[0] !in Behind(rest))
  }

  lemma InsertNames(t: Tab, b: nat, pre: seq<nat>, rest: seq<nat>, h: nat)
    requires InsertSpot(t, b, pre, rest, h)
    ensures EditedNames(t, t.m[t.name[h] := h], b, pre + ([h] + Behind(rest)))
  {
    hide Path, Bucket, NoDup, Ok;
    OkSizes(t);
    forall x | x in pre + ([h] + Behind(rest))
      ensures x < |t.name| && Bucket(t.name[x].hash, t.bits) == b && (t.name[x] == t.name[h] ==> x == h) &&
              (x != h ==> t.name[x] in t.m && t.m[t.name[x]] == x)
    {
      InsertMember(t, b, pre, rest, h, x);
    }
    forall k | k in t.m && k != t.name[h] && Bucket(k.hash, t.bits) == b
      ensures t.m[k] in pre + ([h] + Behind(rest)) && t.m[k] < |t.name| && t.name[t.m[k]] == k
    {
      InsertKey(t, b, pre, rest, h, k);
    }
  }

  lemma OkSizes(t: Tab)
    requires Ok(t)
    ensures Sizes(t)
  {
  }

  lemma InsertMember(t: Tab, b: nat, pre: seq<nat>, rest: seq<nat>, h: nat, x: nat)
    requires InsertSpot(t, b, pre, rest, h) && x in pre + ([h] + Behind(rest))
    ensures x < |t.name| && Bucket(t.name[x].hash, t.bits) == b && (t.name[x] == t.name[h] ==> x == h)
    ensures x != h ==> t.name[x] in t.m && t.m[t.name[x]] == x
  {
    hide Path, Bucket, NoDup;
    assert ChainOk(t, b);
    if x in pre {
      assert x in t.chains[b];
    } else if x != h {
      assert x in Behind(rest) && x in rest && rest[0] in rest;
      assert x in t.chains[b] && rest[0] in t.chains[b];
    }
  }

  lemma InsertKey(t: Tab, b: nat, pre: seq<nat>, rest: seq<nat>, h: nat, k: Name)
    requires InsertSpot(t, b, pre, rest, h) && k in t.m && k != t.name[h] && Bucket(k.hash, t.bits) == b
    ensures t.m[k] in pre + ([h] + Behind(rest)) && t.m[k] < |t.name| && t.name[t.m[k]] == k
  {
    hide Path, Bucket, NoDup;
    assert NameOk(t, k);
    var x := t.m[k];
    assert x in pre || x in rest;
    assert rest != [] ==> rest == [rest[0]] + Behind(rest);
  }

  // ---- Doubling ----

  /** Handle x is in the table. */
  ghost predicate In(t: Tab, x: nat)
  {
    x < |t.name| && t.name[x] in t.m && t.m[t.name[x]] == x
  }

  /** A list of the doubled array: moved handles whose hash begins with its index. */
  ghost predicate NewChainOk(t: Tab, next: seq<int>, head: int, chain: seq<nat>, c: nat, moved: set<nat>)
    requires Sizes(t)
  {
    && Path(next, head, chain) && NoDup(chain)
    && forall x :: x in chain ==> x in moved && In(t, x) && Bucket(t.name[x].hash, t.bits + 1) == c
  }

  /**
   In the middle of doubling table t: the handles of `moved` are in the new lists, and the links of all
   others are still those of the old ones.
   */
  ghost predicate Doubling(t: Tab, next: seq<int>, heads: seq<int>, chains: seq<seq<nat>>, moved: set<nat>)
  {
    && Ok(t) && t.bits < 31 && |next| == |t.next|
    && |heads| == |chains| == Pow2(t.bits + 1)
    && (forall c :: 0 <= c < |chains| ==> NewChainOk(t, next, heads[c], chains[c], c, moved))
    && (forall x :: x in moved ==> In(t, x) && Bucket(t.name[x].hash, t.bits + 1) < |chains| &&
                                   x in chains[Bucket(t.name[x].hash, t.bits + 1)])
    && (forall x :: 0 <= x < |next| && x !in moved ==> next[x] == t.next[x])
  }

  /** The handles of the first i buckets. */
  ghost function Below(t: Tab, i: nat): set<nat>
    requires Sizes(t)
  {
    set x | 0 <= x < |t.name| && In(t, x) && Bucket(t.name[x].hash, t.bits) < i
  }

  lemma StartDoubling(t: Tab, heads: seq<int>, chains: seq<seq<nat>>)
    requires Ok(t) && t.bits < 31 && |heads| == |chains| == Pow2(t.bits + 1)
    requires forall c :: 0 <= c < |heads| ==> heads[c] == NULL && chains[c] == []
    ensures Doubling(t, t.next, heads, chains, {}) && Below(t, 0) == {}
  {
    hide Bucket;
  }

  /** Moving one handle to the front of its new list. */
  lemma MoveOne(t: Tab, next: seq<int>, heads: seq<int>, chains: seq<seq<nat>>, moved: set<nat>, h: nat)
    requires Doubling(t, next, heads, chains, moved) && In(t, h) && h !in moved
    ensures var c := Bucket(t.name[h].hash, t.bits + 1);
            && c < |heads|
            && Doubling(t, next[h := heads[c]], heads[c := h], chains[c := [h] + chains[c]], moved + {h})
  {
    hide Bucket, Path, NoDup, ChainOk, NameOk;
    var c := Bucket(t.name[h].hash, t.bits + 1);
    BucketInRange(t.name[h].hash, t.bits + 1);
    var next', heads', chains' := next[h := heads[c]], heads[c := h], chains[c := [h] + chains[c]];
    forall d | 0 <= d < |chains|
      ensures NewChainOk(t, next', heads'[d], chains'[d], d, moved + {h})
    {
      assert NewChainOk(t, next, heads[d], chains[d], d, moved);
      PathFrame(next, next', heads[d], chains[d]);
      if d == c {
        PathPush(next', h, chains[c]);
        OneIsNoDup(h, []);
        NoDupJoin([h], chains[c]);
      }
    }
  }

  lemma DoneDoubling(t: Tab, next: seq<int>, heads: seq<int>, chains: seq<seq<nat>>)
    requires Sizes(t) && Doubling(t, next, heads, chains, Below(t, |t.chains|))
    ensures Ok(Tab(t.bits + 1, heads, next, t.name, chains, t.m))
  {
    hide Bucket, Path, NoDup;
    var u := Tab(t.bits + 1, heads, next, t.name, chains, t.m);
    forall c | 0 <= c < |chains|
      ensures ChainOk(u, c)
    {
      assert NewChainOk(t, next, heads[c], chains[c], c, Below(t, |t.chains|));
    }
    forall k | k in u.m
      ensures NameOk(u, k)
    {
      assert NameOk(t, k);
      assert t.m[k] in Below(t, |t.chains|);
    }
  }

  /** A bucket that is done belongs to the handles of the first buckets. */
  lemma BelowNext(t: Tab, i: nat)
    requires Ok(t) && i < |t.chains|
    ensures Below(t, i + 1) == Below(t, i) + Elems(t.chains[i])
    ensures forall x :: x in t.chains[i] ==> In(t, x) && x !in Below(t, i)
  {
    hide Bucket, Path, NoDup;
    assert ChainOk(t, i);
    forall x | x in Below(t, i + 1)
      ensures x in Below(t, i) || x in t.chains[i]
    {
      assert NameOk(t, t.name[x]);
    }
  }

  lemma MoreHandles(t: Tab, k: Name)
    requires Ok(t) && k.hash < HASH_LIMIT
    ensures Ok(t.(next := t.next + [NULL], name := t.name + [k]))
  {
    hide Path, Bucket, NoDup;
    var u := t.(next := t.next + [NULL], name := t.name + [k]);
    forall b | 0 <= b < |u.chains|
      ensures ChainOk(u, b)
    {
      assert ChainOk(t, b);
      PathFrame(t.next, u.next, t.heads[b], t.chains[b]);
    }
    forall k' | k' in u.m
      ensures NameOk(u, k')
    {
      assert NameOk(t, k');
    }
  }

  lemma PathStart(next: seq<int>, first: int, p: seq<nat>)
    requires Path(next, first, p)
    ensures first == (if p == [] then NULL else p[0]) && (p != [] ==> p[0] < |next|)
  {
  }

  /** A search in bucket b passed `pre`, where no handle has name k, and stands at `cur`. */
  ghost predicate Seeking(t: Tab, b: nat, pre: seq<nat>, rest: seq<nat>, place: Place, cur: int, k: Name)
  {
    && Ok(t) && b == Bucket(k.hash, t.bits) && b < |t.chains| && t.chains[b] == pre + rest && place == PlaceOf(b, pre)
    && Path(t.next, cur, rest) && cur == (if rest == [] then NULL else rest[0])
    && forall x :: x in pre ==> x < |t.name| && t.name[x] != k
  }

  lemma SeekStart(t: Tab, b: nat, k: Name)
    requires Ok(t) && b == Bucket(k.hash, t.bits) && b < |t.chains|
    ensures Seeking(t, b, [], t.chains[b], Head(b), t.heads[b], k)
    ensures t.heads[b] == NULL || 0 <= t.heads[b] < |t.name|
  {
    hide Bucket, NoDup, NameOk;
    assert ChainOk(t, b) && [] + t.chains[b] == t.chains[b];
    PathStart(t.next, t.heads[b], t.chains[b]);
  }

  lemma SeekNext(t: Tab, b: nat, pre: seq<nat>, rest: seq<nat>, place: Place, cur: int, k: Name)
    requires Seeking(t, b, pre, rest, place, cur, k) && 0 <= cur < |t.name| && t.name[cur] != k
    ensures rest != [] && cur < |t.next|
    ensures Seeking(t, b, pre + [rest[0]], rest[1..], After(cur), t.next[cur], k)
    ensures t.next[cur] == NULL || 0 <= t.next[cur] < |t.name|
  {
    hide Path, Bucket, NoDup, NameOk, ChainOk;
    assert rest == [rest[0]] + rest[1..];
    PathHead(t.next, cur, rest[0], rest[1..]);
    PathStart(t.next, t.next[cur], rest[1..]);
    assert pre + rest == (pre + [rest[0]]) + rest[1..];
  }

  /** The search ends at the handle with name k, if there is one. */
  lemma FoundIt(t: Tab, b: nat, pre: seq<nat>, rest: seq<nat>, place: Place, cur: int, k: Name)
    requires Seeking(t, b, pre, rest, place, cur, k)
    requires cur == NULL || (0 <= cur < |t.name| && t.name[cur] == k)
    ensures b < |t.chains| && t.chains[b] == pre + rest && place == PlaceOf(b, pre)
    ensures cur == (if rest == [] then NULL else rest[0])
    ensures forall x :: x in pre ==> x < |t.name| && t.name[x] != k
    ensures rest != [] <==> k in t.m
    ensures rest != [] ==> t.m[k] == rest[0] && rest[0] !in Behind(rest)
  {
    hide Path, Bucket, NoDup;
    assert ChainOk(t, b) && (k in t.m ==> NameOk(t, k));
    if rest != [] {
      assert rest[0] in t.chains[b];
      NoDupPrefix(pre, rest);
      assert rest == [rest[0]] + Behind(rest);
      NoDupPrefix([rest[0]], Behind(rest));
      assert rest[0] in [rest[0]];
    }
  }

  /** With a new name the buckets double if there are now as many handles, as long as the hash has bits to give. */
  ghost function BitsAfter(bits: nat, maxBits: nat, added: bool, count: nat): nat
  {
    if added && count >= Pow2(bits) && bits < maxBits && bits < 31 then bits + 1 else bits
  }

  lemma LoadIs(elems: nat, length: nat)
    requires length > 0
    ensures elems / length > 0 <==> elems >= length
  {
    var q := elems / length;
    assert elems == length * q + elems % length;
  }

  lemma Spot(t: Tab, b: nat, pre: seq<nat>, rest: seq<nat>, h: nat)
    requires Ok(t) && h < |t.name| && b == Bucket(t.name[h].hash, t.bits) && b < |t.chains| && t.chains[b] == pre + rest
    requires forall x :: x in pre ==> x < |t.name| && t.name[x] != t.name[h]
    requires rest != [] ==> rest[0] < |t.name| && t.name[rest[0]] == t.name[h] && rest[0] !in Behind(rest)
    ensures InsertSpot(t, b, pre, rest, h)
    ensures b < |t.heads| && |t.next| == |t.name| && (pre != [] ==> pre[|pre| - 1] < |t.next|)
  {
    hide Bucket, Path, NoDup, ChainOk, NameOk;
    assert pre != [] ==> pre[|pre| - 1] in pre;
  }

  lemma RemovedSize(m: map<Name, nat>, k: Name)
    requires k in m
    ensures |m - {k}| == |m| - 1
  {
    assert m == (m - {k})[k := m[k]];
  }

  lemma RemovedNone(m: map<Name, nat>, k: Name)
    ensures k !in m ==> m - {k} == m
  {
  }

  lemma BucketList(t: Tab, i: nat)
    requires Ok(t) && i < |t.chains|
    ensures i < |t.heads| && Path(t.next, t.heads[i], t.chains[i]) && t.chains[i] == [] + t.chains[i]
    ensures t.heads[i] == if t.chains[i] == [] then NULL else t.chains[i][0]
    ensures Below(t, i + 1) == Below(t, i) + Elems(t.chains[i])
  {
    hide Bucket, NoDup, NameOk, Below;
    assert ChainOk(t, i);
    BelowNext(t, i);
  }

  /** The first handle that is left in bucket i was not moved yet; its old link leads to the others. */
  lemma ListNext(t: Tab, next: seq<int>, list: seq<int>, lists: seq<seq<nat>>, moved: set<nat>,
                 i: nat, done: seq<nat>, left: seq<nat>, h: int)
    requires Ok(t) && Doubling(t, next, list, lists, moved) && moved == Below(t, i) + Elems(done)
    requires Ok(t) && i < |t.chains| && t.chains[i] == done + left && Path(t.next, h, left) && h >= 0
    ensures left != [] && left[0] == h && In(t, h) && h < |t.next| && h !in Below(t, i) + Elems(done)
    ensures h < |next| && next[h] == t.next[h]
    ensures Path(t.next, t.next[h], left[1..]) && t.next[h] == (if left[1..] == [] then NULL else left[1])
    ensures t.chains[i] == (done + [h]) + left[1..] && Elems(done + [h]) == Elems(done) + {h as nat}
  {
    hide Bucket, NoDup, NameOk, Below;
    assert ChainOk(t, i);
    BelowNext(t, i);
    NoDupPrefix(done, left);
    assert h in left && h in t.chains[i];
    PathStart(t.next, t.next[h], left[1..]);
  }

  // ---- The table ----

  class HandleTable {
    const maxBits: nat
    var bits: nat
    var heads: seq<int>
    // Per handle: the next one in its bucket, and its name.
    var next: seq<int>
    var name: seq<Name>
    var elems: nat
    ghost var chains: seq<seq<nat>>
    ghost var m: map<Name, nat>

    ghost function View(): Tab
      reads this
    {
      Tab(bits, heads, next, name, chains, m)
    }

    /** The lists represent the map `m`, and `elems` is its size. */
    ghost predicate Valid()
      reads this
    {
      Ok(View()) && elems == |m|
    }

    constructor (maxBits: nat)
      ensures Valid() && m == map[] && name == [] && this.maxBits == maxBits
    {
      this.maxBits := maxBits;
      bits := 4;
      heads := seq(Pow2(4), _ => NULL);
      next, name, elems := [], [], 0;
      chains := seq(Pow2(4), _ => []);
      m := map[];
    }

    /** Makes room for one more handle, which is not in the table yet. */
    method AddHandle(k: Name) returns (h: nat)
      requires Valid() && k.hash < HASH_LIMIT
      modifies this`next, this`name
      ensures Valid() && h == |old(name)| && name == old(name) + [k]
    {
      hide Path, Bucket, NoDup, Ok;
      h := |name|;
      MoreHandles(View(), k);
      next, name := next + [NULL], name + [k];
    }

    /** The place of the pointer to the handle named k, or of the null pointer at the end of its list. */
    method FindPointer(k: Name) returns (place: Place, cur: int, ghost pre: seq<nat>, ghost rest: seq<nat>)
      requires Valid() && k.hash < HASH_LIMIT
      ensures var b := Bucket(k.hash, bits);
              && b < |chains| && chains[b] == pre + rest && place == PlaceOf(b, pre)
              && cur == (if rest == [] then NULL else rest[0])
      ensures forall x :: x in pre ==> x < |name| && name[x] != k
      ensures cur >= 0 <==> k in m
      ensures cur >= 0 ==> cur < |name| && name[cur] == k && m[k] == cur && rest != [] && rest[0] !in Behind(rest)
    {
      hide Ok, Bucket, Seeking;
      ghost var t := View();
      OkSizes(t);
      BucketInRange(k.hash, bits);
      var b := Bucket(k.hash, bits);
      place, cur := Head(b), heads[b];
      pre, rest := [], chains[b];
      SeekStart(t, b, k);
      while cur != NULL && name[cur] != k
        invariant Seeking(t, b, pre, rest, place, cur, k) && (cur == NULL || 0 <= cur < |name|)
        decreases |rest|
      {
        SeekNext(t, b, pre, rest, place, cur, k);
        place, cur := After(cur), next[cur];
        pre, rest := pre + [rest[0]], rest[1..];
      }
      FoundIt(t, b, pre, rest, place, cur, k);
    }

    method Store(place: Place, v: int)
      requires place.Head? ==> place.bucket < |heads|
      requires place.After? ==> place.handle < |next|
      modifies this`heads, this`next
      ensures View() == Stored(old(View()), place, v)
    {
      match place
      case Head(b) => heads := heads[b := v];
      case After(h) => next := next[h := v];
    }

    method Lookup(k: Name) returns (r: int)
      requires Valid() && k.hash < HASH_LIMIT
      ensures r == if k in m then m[k] else NULL
    {
      var place;
      ghost var pre, rest;
      place, r, pre, rest := FindPointer(k);
    }

    /** Links handle `h` in, in front of what followed the handle `cur` that it replaces, if any. */
    method Link(h: nat, place: Place, cur: int, ghost b: nat, ghost pre: seq<nat>, ghost rest: seq<nat>)
      requires h < |next| && h < |name| && b < |heads| && b < |chains| && (pre != [] ==> pre[|pre| - 1] < |next|)
      requires cur == (if rest == [] then NULL else rest[0]) && cur < |next| && place == PlaceOf(b, pre)
      modifies this`heads, this`next, this`chains, this`m
      ensures View() == Linked(old(View()), b, pre, rest, h) && m == old(m)[name[h] := h]
    {
      next := next[h := if cur == NULL then NULL else next[cur]];
      Store(place, h);
      chains := chains[b := pre + ([h] + Behind(rest))];
      m := m[name[h] := h];
    }

    /** Unlinks handle `cur`. */
    method Unlink(cur: nat, place: Place, ghost b: nat, ghost pre: seq<nat>, ghost post: seq<nat>)
      requires cur < |next| && cur < |name| && b < |heads| && b < |chains| && (pre != [] ==> pre[|pre| - 1] < |next|)
      requires place == PlaceOf(b, pre)
      modifies this`heads, this`next, this`chains, this`m
      ensures View() == Unlinked(old(View()), b, pre, cur, post) && m == old(m) - {name[cur]}
    {
      Store(place, next[cur]);
      chains := chains[b := pre + post];
      m := m - {name[cur]};
    }

    /** Adds handle `h`, in the place of the one with its name if there is one, which is returned. */
    method Insert(h: nat) returns (replaced: int)
      requires Valid() && h < |name| && forall k :: k in m ==> m[k] != h
      modifies this`bits, this`heads, this`next, this`elems, this`chains, this`m
      ensures Valid() && m == old(m)[name[h] := h]
      ensures replaced == if name[h] in old(m) then old(m)[name[h]] else NULL
      ensures bits == BitsAfter(old(bits), maxBits, name[h] !in old(m), |m|)
    {
      hide Ok, Bucket, Linked, InsertSpot;
      ghost var t := View();
      OkSizes(t);
      var place;
      ghost var pre, rest;
      place, replaced, pre, rest := FindPointer(name[h]);
      ghost var b := Bucket(name[h].hash, bits);
      Spot(t, b, pre, rest, h);
      InsertOk(t, b, pre, rest, h);
      Link(h, place, replaced, b, pre, rest);
      if replaced == NULL {
        elems := elems + 1;
        LoadIs(elems, Pow2(bits));
        if elems / Pow2(bits) > 0 {
          Resize();
        }
      }
    }

    /** Removes the handle named `k`, if there is one, and returns it. */
    method Remove(k: Name) returns (r: int)
      requires Valid() && k.hash < HASH_LIMIT
      modifies this`heads, this`next, this`elems, this`chains, this`m
      ensures Valid() && m == old(m) - {k}
      ensures r == if k in old(m) then old(m)[k] else NULL
    {
      hide Ok, Bucket, Unlinked, InsertSpot;
      ghost var t := View();
      OkSizes(t);
      var place;
      ghost var pre, rest;
      place, r, pre, rest := FindPointer(k);
      RemovedNone(m, k);
      if r != NULL {
        ghost var b := Bucket(k.hash, bits);
        assert rest == [rest[0]] + Behind(rest);
        Spot(t, b, pre, rest, r);
        RemoveOk(t, b, pre, r, Behind(rest));
        Unlink(r, place, b, pre, Behind(rest));
        RemovedSize(old(m), k);
        elems := elems - 1;
      }
    }

    /** Puts handle `h` in front of its list in the doubled array. */
    method MoveHandle(h: nat, list: seq<int>, ghost t: Tab, ghost lists: seq<seq<nat>>, ghost moved: set<nat>)
      returns (list': seq<int>, ghost lists': seq<seq<nat>>)
      requires Doubling(t, next, list, lists, moved) && In(t, h) && h !in moved && name == t.name && bits == t.bits
      modifies this`next
      ensures Doubling(t, next, list', lists', moved + {h}) && |next| == |old(next)|
    {
      hide Ok, Bucket, Path, NewChainOk;
      OkSizes(t);
      var b := Bucket(name[h].hash, bits + 1);
      MoveOne(t, next, list, lists, moved, h);
      next := next[h := list[b]];
      list', lists' := list[b := h], lists[b := [h] + lists[b]];
    }

    /** Doubles the number of buckets, unless the hash has no more bits to give. */
    method Resize()
      requires Valid()
      modifies this`bits, this`heads, this`next, this`chains
      ensures Valid()
      ensures bits == if old(bits) >= maxBits || old(bits) >= 31 then old(bits) else old(bits) + 1
    {
      hide Ok, Bucket, Doubling, Path, Below;
      ghost var t := View();
      OkSizes(t);
      if bits >= maxBits || bits >= 31 {
        return;
      }
      var oldLength, newBits := Pow2(bits), bits + 1;
      var newList := seq(Pow2(newBits), _ => NULL);
      ghost var newChains: seq<seq<nat>>, moved: set<nat> := seq(Pow2(newBits), _ => []), {};
      StartDoubling(t, newList, newChains);
      var i := 0;
      while i < oldLength
        invariant i <= oldLength && |next| == |name| && heads == t.heads && chains == t.chains && bits == t.bits
        invariant Doubling(t, next, newList, newChains, moved) && moved == Below(t, i)
      {
        var h := heads[i];
        ghost var done, left := [], chains[i];
        BucketList(t, i);
        while h != NULL
          invariant Doubling(t, next, newList, newChains, moved) && |next| == |name|
          invariant heads == t.heads && chains == t.chains && bits == t.bits
          invariant t.chains[i] == done + left && Path(t.next, h, left) && moved == Below(t, i) + Elems(done)
          invariant h == if left == [] then NULL else left[0]
          decreases |left|
        {
          ListNext(t, next, newList, newChains, moved, i, done, left, h);
          var after := next[h];
          newList, newChains := MoveHandle(h, newList, t, newChains, moved);
          moved := moved + {h};
          done, left := done + [left[0]], left[1..];
          h := after;
        }
        assert t.chains[i] == done;
        i := i + 1;
      }
      DoneDoubling(t, next, newList, newChains);
      heads, bits, chains := newList, newBits, newChains;
    }
  }
}
