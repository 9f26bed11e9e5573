/**
 Chains of table slots. A chain starts at a head pointer and runs through the `next` pointer
 of each slot; every pointer carries the number of hash bits ("shift") that chose the chain,
 and the last pointer is an end marker that names the head it belongs to.
 */
module ChainLinks {
  import Bits

  /** A decorated slot index: the fields of a "next with shift" word. */
  datatype Link = Link(idx: nat, shift: nat, end: bool, locked: bool) {

    /** Sets the rewrite-lock flag. An end marker already has it, so it is left as it is. */
    function Lock(): Link { this.(locked := true) }

    /** Clears the rewrite-lock flag of a head that is not an end marker. */
    function Unlock(): Link { if end then this else this.(locked := false) }
  }

  function NextLink(idx: nat, shift: nat): Link { Link(idx, shift, false, false) }

  function EndLink(home: nat, shift: nat): Link { Link(home, shift, true, true) }

  /** The value of a head that is not part of the table yet. */
  const UnusedLink: Link := Link(0, 0, false, false)

  // ---- The 64-bit word: index above bit 8, lock at bit 7, end at bit 6, shift below. ----

  function Pack(l: Link): nat
  {
    l.idx * 256 + (if l.locked then 128 else 0) + (if l.end then 64 else 0) + l.shift
  }

  function Unpack(w: nat): Link
  {
    Link(w / 256, w % 64, (w / 64) % 2 == 1, (w / 128) % 2 == 1)
  }

  /** The word keeps all four fields, and adding one to it raises the shift alone. */
  lemma LinkWordRoundTrip(l: Link)
    requires l.shift < 64
    ensures Unpack(Pack(l)) == l
    ensures l.shift < 63 ==> Unpack(Pack(l) + 1) == l.(shift := l.shift + 1)
  {
    var e, k := if l.end then 1 else 0, if l.locked then 1 else 0;
    WordFields(l.idx, k, e, l.shift);
    if l.shift < 63 {
      WordFields(l.idx, k, e, l.shift + 1);
    }
  }

  lemma WordFields(i: nat, k: nat, e: nat, s: nat)
    requires k < 2 && e < 2 && s < 64
    ensures var w := i * 256 + 128 * k + 64 * e + s;
            w / 256 == i && w / 128 % 2 == k && w / 64 % 2 == e && w % 64 == s
  {
    var w := i * 256 + 128 * k + 64 * e + s;
    DivMod(w, 256, i, 128 * k + 64 * e + s);
    DivMod(w, 128, 2 * i + k, 64 * e + s);
    DivMod(w, 64, 4 * i + 2 * k + e, s);
    DivMod(2 * i + k, 2, i, k);
    DivMod(4 * i + 2 * k + e, 2, 2 * i + k, e);
  }

  lemma DivMod(w: nat, d: nat, q: nat, r: nat)
    requires w == d * q + r && r < d
    ensures w / d == q && w % d == r
  {
    Bits.ModIsUnique(w, d, q, r);
  }

  // ---- Segments ----

  /** Following `next` from pointer `first` visits `path`, over pointers at `shift`, and ends on `last`. */
  ghost predicate Seg(next: seq<Link>, first: Link, path: seq<nat>, shift: nat, last: Link)
    decreases |path|
  {
    if path == [] then
      first == last
    else
      && first == NextLink(path[0], shift)
      && path[0] < |next|
      && Seg(next, next[path[0]], path[1..], shift, last)
  }

  ghost predicate NoDup(p: seq<nat>)
  {
    forall i, j :: 0 <= i < j < |p| ==> p[i] != p[j]
  }

  ghost function Elems(p: seq<nat>): set<nat> { set x | x in p }

  /** The members of `p` that are in `keep`, in the order of `p`. */
  ghost function Restrict(p: seq<nat>, keep: set<nat>): seq<nat>
  {
    if p == [] then [] else (if p[0] in keep then [p[0]] else []) + Restrict(p[1..], keep)
  }

  /** The pointer reached after n hops from `first`, or the end marker met on the way. */
  ghost function Follow(next: seq<Link>, first: Link, n: nat): Link
    decreases n
  {
    if n == 0 || first.end || first.idx >= |next| then first else Follow(next, next[first.idx], n - 1)
  }

  // ---- Facts about segments ----

  lemma {:induction false} SegConcat(next: seq<Link>, a: Link, p: seq<nat>, shift: nat, b: Link, q: seq<nat>, c: Link)
    requires Seg(next, a, p, shift, b) && Seg(next, b, q, shift, c)
    ensures Seg(next, a, p + q, shift, c)
    decreases |p|
  {
    if p == [] {
      assert p + q == q;
    } else {
      SegConcat(next, next[p[0]], p[1..], shift, b, q, c);
      assert (p + q)[1..] == p[1..] + q;
    }
  }

  lemma {:induction false} SegFrame(next: seq<Link>, next': seq<Link>, a: Link, p: seq<nat>, shift: nat, b: Link)
    requires Seg(next, a, p, shift, b)
    requires |next'| == |next|
    requires forall x :: x in p && x < |next| ==> next'[x] == next[x]
    ensures Seg(next', a, p, shift, b)
    decreases |p|
  {
    if p != [] {
      assert p[0] in p;
      assert forall x :: x in p[1..] ==> x in p;
      SegFrame(next, next', next[p[0]], p[1..], shift, b);
    }
  }

  lemma {:induction false} SegMembers(next: seq<Link>, a: Link, p: seq<nat>, shift: nat, b: Link)
    requires Seg(next, a, p, shift, b)
    ensures forall x :: x in p ==> x < |next|
    decreases |p|
  {
    if p != [] {
      SegMembers(next, next[p[0]], p[1..], shift, b);
      assert p == [p[0]] + p[1..];
    }
  }

  lemma FirstOfSeg(next: seq<Link>, a: Link, p: seq<nat>, shift: nat, b: Link)
    requires Seg(next, a, p, shift, b)
    ensures a == if p == [] then b else NextLink(p[0], shift)
  {
  }

  /** The pointer stored in the last slot of a path is the one the path ends on. */
  lemma {:induction false} SegLast(next: seq<Link>, a: Link, p: seq<nat>, shift: nat, b: Link)
    requires Seg(next, a, p, shift, b) && p != []
    ensures p[|p| - 1] < |next| && next[p[|p| - 1]] == b
    decreases |p|
  {
    if |p| > 1 {
      SegLast(next, next[p[0]], p[1..], shift, b);
    }
  }

  lemma {:induction false} SegSplit(next: seq<Link>, a: Link, p: seq<nat>, q: seq<nat>, shift: nat, b: Link)
    requires Seg(next, a, p + q, shift, b)
    ensures p != [] ==> p[|p| - 1] < |next|
    ensures var mid := if p == [] then a else next[p[|p| - 1]];
            Seg(next, a, p, shift, mid) && Seg(next, mid, q, shift, b)
    decreases |p|
  {
    if p == [] {
      assert p + q == q;
    } else {
      assert (p + q)[1..] == p[1..] + q;
      SegSplit(next, next[p[0]], p[1..], q, shift, b);
    }
  }

  /** Rewriting the pointer of the last slot changes where the path ends and nothing before it. */
  lemma {:induction false} SegUpdateLast(next: seq<Link>, a: Link, p: seq<nat>, shift: nat, b: Link, c: Link)
    requires Seg(next, a, p, shift, b) && p != [] && NoDup(p)
    ensures p[|p| - 1] < |next|
    ensures Seg(next[p[|p| - 1] := c], a, p, shift, c)
    decreases |p|
  {
    SegLast(next, a, p, shift, b);
    if |p| > 1 {
      assert p[0] != p[|p| - 1];
      SegUpdateLast(next, next[p[0]], p[1..], shift, b, c);
    }
  }

  /** Pointing a slot off the path at its start, and entering through that slot, puts it in front. */
  lemma SegPush(next: seq<Link>, a: Link, p: seq<nat>, shift: nat, b: Link, e: nat)
    requires Seg(next, a, p, shift, b)
    requires e < |next| && e !in p
    ensures Seg(next[e := a], NextLink(e, shift), [e] + p, shift, b)
  {
    SegFrame(next, next[e := a], a, p, shift, b);
    assert ([e] + p)[1..] == p;
  }

  /** A path is reached by following pointers from its start, one slot per hop, and then its end. */
  lemma {:induction false} SegFollow(next: seq<Link>, a: Link, p: seq<nat>, shift: nat, b: Link, k: nat)
    requires Seg(next, a, p, shift, b)
    requires k <= |p|
    ensures Follow(next, a, k) == if k < |p| then NextLink(p[k], shift) else b
    decreases k
  {
    if k > 0 {
      SegFollow(next, next[p[0]], p[1..], shift, b, k - 1);
    }
  }

  lemma ElemsConcat(p: seq<nat>, q: seq<nat>)
    ensures Elems(p + q) == Elems(p) + Elems(q)
  {
  }

  // ---- Facts about restriction ----

  lemma {:induction false} RestrictConcat(p: seq<nat>, q: seq<nat>, keep: set<nat>)
    ensures Restrict(p + q, keep) == Restrict(p, keep) + Restrict(q, keep)
  {
    if p == [] {
      assert p + q == q;
    } else {
      RestrictConcat(p[1..], q, keep);
      assert (p + q)[1..] == p[1..] + q;
      Associative(if p[0] in keep then [p[0]] else [], Restrict(p[1..], keep), Restrict(q, keep));
    }
  }

  lemma Associative(a: seq<nat>, b: seq<nat>, c: seq<nat>)
    ensures a + (b + c) == (a + b) + c
  {
  }

  lemma {:induction false} RestrictAll(p: seq<nat>, keep: set<nat>)
    requires forall x :: x in p ==> x in keep
    ensures Restrict(p, keep) == p
  {
    if p != [] {
      assert p[0] in p && forall x :: x in p[1..] ==> x in p;
      RestrictAll(p[1..], keep);
    }
  }

  lemma {:induction false} RestrictNone(p: seq<nat>, keep: set<nat>)
    requires forall x :: x in p ==> x !in keep
    ensures Restrict(p, keep) == []
  {
    if p != [] {
      assert p[0] in p && forall x :: x in p[1..] ==> x in p;
      RestrictNone(p[1..], keep);
    }
  }

  lemma {:induction false} RestrictMembers(p: seq<nat>, keep: set<nat>)
    ensures forall x :: x in Restrict(p, keep) <==> x in p && x in keep
  {
    if p != [] {
      RestrictMembers(p[1..], keep);
      assert p == [p[0]] + p[1..];
    }
  }
}
