/**
 Splitting a value into chunks that fill the bins of the memory allocator, and merging them again.
 */
module Chunks {

  newtype Byte = x: int | 0 <= x < 256

  /** The sizes that the allocator rounds up to. */
  const BINS: seq<nat> := [128, 256, 512, 1024, 2048, 4096, 8192, 16384]

  // The size of a chunk's own fields and its first byte, as allocated.
  const CHUNK_SIZE: nat := 24

  // What a chunk takes beyond its data.
  const OVERHEAD: nat := CHUNK_SIZE - 1

  function Flatten(chunks: seq<seq<Byte>>): seq<Byte>
  {
    if chunks == [] then [] else chunks[0] + Flatten(chunks[1..])
  }

  lemma {:induction false} FlattenConcat(a: seq<seq<Byte>>, b: seq<seq<Byte>>)
    ensures Flatten(a + b) == Flatten(a) + Flatten(b)
  {
    if a == [] {
      assert a + b == b;
    } else {
      FlattenConcat(a[1..], b);
      assert (a + b)[1..] == a[1..] + b && (a + b)[0] == a[0];
      Associative(a[0], Flatten(a[1..]), Flatten(b));
    }
  }

  lemma Associative(a: seq<Byte>, b: seq<Byte>, c: seq<Byte>)
    ensures a + (b + c) == (a + b) + c
  {
  }

  lemma FlattenAppend(chunks: seq<seq<Byte>>, c: seq<Byte>)
    ensures Flatten(chunks + [c]) == Flatten(chunks) + c
  {
    FlattenConcat(chunks, [c]);
    assert [c][1..] == [];
  }

  /** The first bin that is larger than n, or the number of bins. */
  method UpperBound(n: nat) returns (i: nat)
    ensures i <= |BINS|
    ensures forall j :: 0 <= j < i ==> BINS[j] <= n
    ensures forall j :: i <= j < |BINS| ==> BINS[j] > n
  {
    i := 0;
    while i < |BINS| && BINS[i] <= n
      invariant i <= |BINS|
      invariant forall j :: 0 <= j < i ==> BINS[j] <= n
    {
      i := i + 1;
    }
  }

  /** An allocation of n bytes would leave 128 or more of the bin unused, and there is a smaller bin. */
  predicate Wasteful(n: int, i: nat) { 0 < i < |BINS| && BINS[i - 1] <= n && n + BINS[0] <= BINS[i] }

  /** A compressed chunk is cut to the next smaller bin if the rest of the value would waste too much of its own. */
  ghost predicate SizeIs(predicted: int, compressed: bool, size: nat)
  {
    && (forall i :: compressed && Wasteful(predicted, i) ==> size == BINS[i - 1])
    && ((forall i :: compressed ==> !Wasteful(predicted, i)) ==> size == predicted)
  }

  /** How much to allocate for the next chunk, with `left` bytes to go. */
  method NextSize(left: nat, compressed: bool) returns (size: nat)
    requires left > 0
    ensures OVERHEAD < size <= OVERHEAD + left
    ensures size < OVERHEAD + left ==> size in BINS
    ensures SizeIs(OVERHEAD + left, compressed, size)
    ensures !compressed ==> size == OVERHEAD + left
  {
    var predicted := CHUNK_SIZE - 1 + left;
    var upper := UpperBound(predicted);
    if upper == 0 || upper == |BINS| || BINS[upper] - predicted < BINS[0] || !compressed {
      size := predicted;
    } else {
      size := BINS[upper - 1];
      assert size in BINS && Wasteful(predicted, upper);
    }
  }

  /** Every chunk but the last one fills a bin exactly. */
  ghost predicate FillBins(chunks: seq<seq<Byte>>)
  {
    forall i :: 0 <= i < |chunks| - 1 ==> |chunks[i]| + OVERHEAD in BINS
  }

  /** A chunk has the size that is right for what was left of the value. */
  ghost predicate CutAt(chunks: seq<seq<Byte>>, i: nat, length: nat, compressed: bool)
    requires i < |chunks|
  {
    SizeIs(OVERHEAD + length - |Flatten(chunks[..i])|, compressed, |chunks[i]| + OVERHEAD)
  }

  ghost predicate CutWell(chunks: seq<seq<Byte>>, length: nat, compressed: bool)
  {
    forall i :: 0 <= i < |chunks| ==> CutAt(chunks, i, length, compressed)
  }

  lemma NothingCut(length: nat, compressed: bool)
    ensures CutWell([], length, compressed)
  {
  }

  lemma CutSame(chunks: seq<seq<Byte>>, i: nat, length: nat, compressed: bool, c: seq<Byte>)
    requires i < |chunks| && CutAt(chunks, i, length, compressed)
    ensures CutAt(chunks + [c], i, length, compressed)
  {
    hide SizeIs, Flatten;
    assert (chunks + [c])[..i] == chunks[..i];
  }

  lemma CutLast(chunks: seq<seq<Byte>>, length: nat, compressed: bool, c: seq<Byte>)
    requires SizeIs(OVERHEAD + length - |Flatten(chunks)|, compressed, |c| + OVERHEAD)
    ensures CutAt(chunks + [c], |chunks|, length, compressed)
  {
    hide SizeIs, Flatten;
    assert (chunks + [c])[..|chunks|] == chunks;
  }

  lemma CutMore(chunks: seq<seq<Byte>>, length: nat, compressed: bool, c: seq<Byte>)
    requires CutWell(chunks, length, compressed) && SizeIs(OVERHEAD + length - |Flatten(chunks)|, compressed, |c| + OVERHEAD)
    ensures CutWell(chunks + [c], length, compressed)
  {
    hide SizeIs, Flatten, CutAt;
    forall i | 0 <= i < |chunks| + 1
      ensures CutAt(chunks + [c], i, length, compressed)
    {
      if i == |chunks| {
        CutLast(chunks, length, compressed, c);
      } else {
        CutSame(chunks, i, length, compressed, c);
      }
    }
  }

  /** The chunks put together are the value; each costs its data plus a fixed overhead. */
  method SplitValueIntoChunks(value: seq<Byte>, compressed: bool, charge0: nat) returns (chunks: seq<seq<Byte>>, charge: nat)
    requires value != []
    ensures Flatten(chunks) == value && FillBins(chunks) && chunks != []
    ensures charge == charge0 + |value| + OVERHEAD * |chunks|
    ensures forall i :: 0 <= i < |chunks| ==> chunks[i] != []
    ensures !compressed ==> chunks == [value]
    ensures CutWell(chunks, |value|, compressed)
  {
    hide SizeIs, CutWell;
    var pos := 0;
    chunks, charge := [], charge0;
    NothingCut(|value|, compressed);
    while pos < |value|
      invariant pos <= |value| && Flatten(chunks) == value[..pos]
      invariant charge == charge0 + pos + OVERHEAD * |chunks|
      invariant forall i :: 0 <= i < |chunks| ==> chunks[i] != []
      invariant forall i :: 0 <= i < |chunks| - (if pos < |value| then 0 else 1) ==> |chunks[i]| + OVERHEAD in BINS
      invariant (pos == 0 ==> chunks == []) && (pos > 0 ==> chunks != [])
      invariant !compressed ==> pos == 0 || chunks == [value]
      invariant CutWell(chunks, |value|, compressed)
      decreases |value| - pos
    {
      var size := NextSize(|value| - pos, compressed);
      var actual := size - CHUNK_SIZE + 1;
      FlattenAppend(chunks, value[pos..pos + actual]);
      CutMore(chunks, |value|, compressed, value[pos..pos + actual]);
      assert value[..pos] + value[pos..pos + actual] == value[..pos + actual];
      assert actual == |value| ==> value[..actual] == value;
      chunks := chunks + [value[pos..pos + actual]];
      pos := pos + actual;
      charge := charge + size;
    }
    assert value[..pos] == value;
  }

  /** Copies the data of all chunks, in order, into one block of their total size. */
  method MergeChunksIntoValue(chunks: seq<seq<Byte>>) returns (value: seq<Byte>, charge: nat)
    ensures value == Flatten(chunks) && charge == |value|
  {
    charge := 0;
    var i := 0;
    while i < |chunks|
      invariant i <= |chunks| && charge == |Flatten(chunks[..i])|
    {
      FlattenAppend(chunks[..i], chunks[i]);
      assert chunks[..i + 1] == chunks[..i] + [chunks[i]];
      charge := charge + |chunks[i]|;
      i := i + 1;
    }
    assert chunks[..i] == chunks;
    var block := new Byte[charge](_ => 0);
    var pos := 0;
    i := 0;
    while i < |chunks|
      invariant i <= |chunks| && pos == |Flatten(chunks[..i])| && pos <= block.Length
      invariant block[..pos] == Flatten(chunks[..i])
    {
      FlattenSplit(chunks, i);
      pos := CopyTo(block, pos, chunks[i]);
      i := i + 1;
    }
    assert chunks[..i] == chunks;
    value := block[..];
  }

  lemma FlattenSplit(chunks: seq<seq<Byte>>, i: nat)
    requires i < |chunks|
    ensures Flatten(chunks[..i + 1]) == Flatten(chunks[..i]) + chunks[i]
    ensures |Flatten(chunks[..i])| + |chunks[i]| <= |Flatten(chunks)|
  {
    FlattenAppend(chunks[..i], chunks[i]);
    assert chunks[..i + 1] == chunks[..i] + [chunks[i]];
    FlattenConcat(chunks[..i + 1], chunks[i + 1..]);
    assert chunks[..i + 1] + chunks[i + 1..] == chunks;
  }

  /** Copies `data` to the block from `pos` on. */
  method CopyTo(block: array<Byte>, pos: nat, data: seq<Byte>) returns (end: nat)
    requires pos + |data| <= block.Length
    modifies block
    ensures end == pos + |data| && block[..end] == old(block[..pos]) + data
  {
    var k := 0;
    while k < |data|
      invariant k <= |data| && block[..pos] == old(block[..pos]) && block[pos..pos + k] == data[..k]
    {
      block[pos + k] := data[k];
      k := k + 1;
    }
    end := pos + |data|;
    assert block[..end] == block[..pos] + block[pos..end];
  }

  /** Whatever is split can be merged again, to the same bytes and the same size. */
  method RoundTrip(value: seq<Byte>, compressed: bool) returns (result: seq<Byte>, size: nat)
    requires value != []
    ensures result == value && size == |value|
  {
    var chunks, charge := SplitValueIntoChunks(value, compressed, 0);
    result, size := MergeChunksIntoValue(chunks);
  }
}
