/**
 Snake cells (scripts/generate_ath_metadata_content.ts): a byte string behind a zero prefix, cut into chunks
 of 127 bytes, each cell holding one chunk and a reference to the next (TEP-64, "Data serialization").
 */
module SnakeContent {
  import opened Results
  import opened Cells
  import opened Numbers

  type Byte = b: nat | b < 256

  const SNAKE_PREFIX: Byte := 0
  const CHUNK := 127

  function ByteBits(bs: seq<Byte>): (b: Bits)
    ensures |b| == 8 * |bs|
  {
    if |bs| == 0 then [] else UintBits(bs[0], 8) + ByteBits(bs[1..])
  }

  /** Whole bytes read off a bit string. */
  function BytesOf(b: Bits): seq<nat> {
    if |b| < 8 then [] else [BitsUint(b[..8])] + BytesOf(b[8..])
  }

  /** Reading a snake: the bits of each cell in turn, following the first reference. */
  function ReadSnake(c: Cell): Bits {
    c.bits + (if |c.refs| > 0 then ReadSnake(c.refs[0]) else [])
  }

  /** The cells a reader visits. */
  function Chain(c: Cell): (cs: seq<Cell>)
    ensures |cs| > 0 && cs[0] == c
  {
    [c] + (if |c.refs| > 0 then Chain(c.refs[0]) else [])
  }

  // ---------------------------------------------------------------- what the two loops compute

  function Chunks(all: seq<Byte>): seq<seq<Byte>> {
    if |all| == 0 then [] else [all[..Min(CHUNK, |all|)]] + Chunks(all[Min(CHUNK, |all|)..])
  }

  function Linked(chunks: seq<seq<Byte>>): Cell
    requires |chunks| > 0
  {
    Cell(ByteBits(chunks[0]), if |chunks| == 1 then [] else [Linked(chunks[1..])])
  }

  lemma {:induction false} ChunksAppend(done: seq<Byte>, rest: seq<Byte>)
    requires |done| % CHUNK == 0 && |rest| > 0
    ensures Chunks(done + rest) == Chunks(done) + Chunks(rest)
  {
    if |done| == 0 {
      assert done + rest == rest;
    } else {
      var tail := done[CHUNK..];
      assert (done + rest)[..CHUNK] == done[..CHUNK] && (done + rest)[CHUNK..] == tail + rest;
      ChunksAppend(tail, rest);
    }
  }

  lemma {:induction false} ChunkSizes(all: seq<Byte>)
    ensures |Chunks(all)| == (|all| + CHUNK - 1) / CHUNK
    ensures forall k | 0 <= k < |Chunks(all)| ::
            0 < |Chunks(all)[k]| <= CHUNK && (k < |Chunks(all)| - 1 ==> |Chunks(all)[k]| == CHUNK)
  {
    if |all| > 0 {
      ChunkSizes(all[Min(CHUNK, |all|)..]);
    }
  }

  lemma {:induction false} ByteBitsAppend(a: seq<Byte>, b: seq<Byte>)
    ensures ByteBits(a + b) == ByteBits(a) + ByteBits(b)
  {
    if |a| == 0 {
      assert a + b == b;
    } else {
      assert (a + b)[1..] == a[1..] + b;
      ByteBitsAppend(a[1..], b);
    }
  }

  lemma {:induction false} LinkedReadsBack(all: seq<Byte>)
    requires |all| > 0
    ensures |Chunks(all)| > 0 && ReadSnake(Linked(Chunks(all))) == ByteBits(all)
  {
    var n := Min(CHUNK, |all|);
    assert all == all[..n] + all[n..];
    ByteBitsAppend(all[..n], all[n..]);
    if n < |all| {
      LinkedReadsBack(all[n..]);
      assert Chunks(all)[1..] == Chunks(all[n..]);
    } else {
      assert Chunks(all[n..]) == [];
    }
  }

  lemma {:induction false} LinkedChain(chunks: seq<seq<Byte>>)
    requires |chunks| > 0
    ensures |Chain(Linked(chunks))| == |chunks|
    ensures forall k | 0 <= k < |chunks| :: Chain(Linked(chunks))[k].bits == ByteBits(chunks[k])
  {
    if |chunks| > 1 {
      LinkedChain(chunks[1..]);
    }
  }

  lemma {:induction false} BytesReadBack(bs: seq<Byte>)
    ensures BytesOf(ByteBits(bs)) == bs
  {
    if |bs| > 0 {
      var b := ByteBits(bs);
      assert b[..8] == UintBits(bs[0], 8) && b[8..] == ByteBits(bs[1..]);
      ByteFits(bs[0]);
      UintBitsDecodes(bs[0], 8);
      BytesReadBack(bs[1..]);
    }
  }

  lemma ByteFits(b: Byte)
    ensures b < Pow2(8)
  {
    Pow2Step(0); Pow2Step(1); Pow2Step(2); Pow2Step(3);
    Pow2Step(4); Pow2Step(5); Pow2Step(6); Pow2Step(7);
  }

  // ---------------------------------------------------------------- the source's loops

  /** A cell that holds `value` as a snake. */
  ghost predicate SnakeOf(c: Cell, value: seq<Byte>) {
    var cells := Chain(c);
    ReadSnake(c) == ByteBits([0] + value) && BytesOf(ReadSnake(c)) == [0] + value &&
    |cells| == (|value| + 1 + 126) / 127 &&
    (forall k | 0 <= k < |cells| :: 0 < |cells[k].bits| <= 8 * 127 && |cells[k].refs| <= 1) &&
    (forall k | 0 <= k < |cells| - 1 :: |cells[k].bits| == 8 * 127)
  }

  lemma {:induction false} LinkedRefs(chunks: seq<seq<Byte>>)
    requires |chunks| > 0
    ensures forall k | 0 <= k < |Chain(Linked(chunks))| :: |Chain(Linked(chunks))[k].refs| <= 1
  {
    if |chunks| > 1 {
      LinkedRefs(chunks[1..]);
    }
  }

  lemma ChunksMakeASnake(value: seq<Byte>)
    ensures var all := [SNAKE_PREFIX] + value; |Chunks(all)| > 0 && SnakeOf(Linked(Chunks(all)), value)
  {
    var all := [SNAKE_PREFIX] + value;
    hide UintBits, BitsUint;
    LinkedReadsBack(all);
    BytesReadBack(all);
    ChunkSizes(all);
    LinkedChain(Chunks(all));
    LinkedRefs(Chunks(all));
    hide Chunks, Linked, Chain, ReadSnake, BytesOf;
  }

  /** The first loop: the value behind its prefix, cut into chunks. */
  method Cut(all: seq<Byte>) returns (chunks: seq<seq<Byte>>)
    ensures chunks == Chunks(all)
  {
    chunks := [];
    var i := 0;
    while i < |all|
      invariant 0 <= i && i % CHUNK == 0
      invariant chunks == Chunks(all[..Min(i, |all|)])
    {
      var end := Min(i + CHUNK, |all|);
      var chunk := all[i..end];
      assert all[..end] == all[..i] + chunk;
      ChunksAppend(all[..i], chunk);
      assert chunk[..|chunk|] == chunk && Chunks(chunk) == [chunk];
      chunks := chunks + [chunk];
      i := i + CHUNK;
    }
    assert all[..|all|] == all;
  }

  /** The second: a cell for each chunk from the last on, each holding a reference to the one made before it. */
  method Link(chunks: seq<seq<Byte>>) returns (c: Cell)
    requires |chunks| > 0 && forall k | 0 <= k < |chunks| :: |chunks[k]| <= CHUNK
    ensures c == Linked(chunks)
  {
    hide ByteBits;
    var next: Option<Cell> := None;
    var k := |chunks|;
    while k > 0
      invariant 0 <= k <= |chunks|
      invariant next == if k == |chunks| then None else Some(Linked(chunks[k..]))
    {
      k := k - 1;
      assert chunks[k..][1..] == chunks[k + 1..];
      var bits := ByteBits(chunks[k]);
      assert |bits| <= 8 * CHUNK;
      var b := Builder([], []);
      assert b.StoreBits(bits) == Ok(Builder(bits, [])) by {
        assert [] + bits == bits;
      }
      b := b.StoreBits(bits).value;
      if next.Some? {
        assert b.StoreRef(next.value) == Ok(Builder(bits, [next.value])) by {
          assert [] + [next.value] == [next.value];
        }
        b := b.StoreRef(next.value).value;
      }
      next := Some(b.EndCell());
    }
    assert chunks[0..] == chunks;
    c := next.value;
  }

  /**
   The snake round trip: following the references of the result reads the zero byte and then the value, bit for
   bit; every cell but the last is full; and there are as many as the length asks for.
   */
  method SnakeCell(value: seq<Byte>) returns (c: Cell)
    ensures SnakeOf(c, value)
  {
    hide Linked, SnakeOf, Chunks;
    var all := [SNAKE_PREFIX] + value;
    ChunkSizes(all);
    ChunksMakeASnake(value);
    var chunks := Cut(all);
    c := Link(chunks);
  }
}
