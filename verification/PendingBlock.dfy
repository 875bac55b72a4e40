/** A block being received: a buffer and the offsets still missing
    (peer_connection.go). */
module PendingBlocks {
  import opened Bytes
  import opened Geometry
  import opened Regions

  datatype Pending = Pending(block: PieceBlock, data: seq<byte>, segs: seq<Range>)

  datatype Chunk = Chunk(begin: nat, bytes: seq<byte>)

  /** A part as it is announced, and what the connection still delivers. Nobody checks that
      the part ends behind its begin, or that all of it comes. */
  datatype Part = Part(begin: nat, end: nat, bytes: seq<byte>)

  /** The length of a block; a block of the file starts before the end of the file. */
  function BlockLength(size: nat, b: PieceBlock): nat {
    if b.Start() <= BlockEnd(size, b) then BlockEnd(size, b) - b.Start() else 0
  }

  function MakePending(b: PieceBlock, size: nat): Pending {
    Pending(b, Zeros(BlockLength(size, b)), [Range(b.Start(), BlockEnd(size, b))])
  }

  /** The slice of the buffer a chunk is read into exists. */
  predicate Fits(p: Pending, begin: nat, length: nat) {
    InBlockOffset(begin) + length <= |p.data|
  }

  function ReceiveChunk(p: Pending, c: Chunk): Pending
    requires Fits(p, c.begin, |c.bytes|)
  {
    p.(data := Overlay(p.data, InBlockOffset(c.begin), c.bytes),
       segs := SubAll(p.segs, Range(c.begin, c.begin + |c.bytes|)))
  }

  /** The part is given forwards, and its slice of the buffer exists. */
  predicate HasSlice(p: Pending, part: Part) {
    part.begin <= part.end && Fits(p, part.begin, part.end - part.begin)
  }

  /** The stream ends before the part does. */
  predicate CutShort(part: Part) {
    |part.bytes| < part.end - part.begin
  }

  /** What arrives of the part. */
  function Arriving(part: Part): Chunk {
    Chunk(part.begin, if part.end < part.begin then [] else part.bytes[..Min(|part.bytes|, part.end - part.begin)])
  }

  /** A part cut short is in the buffer as far as it came, and still missing. */
  function TakePart(p: Pending, part: Part): Pending
    requires HasSlice(p, part)
  {
    if CutShort(part) then p.(data := Overlay(p.data, InBlockOffset(part.begin), part.bytes))
    else ReceiveChunk(p, Arriving(part))
  }

  /** A 64-bit number read as a signed one. */
  function Signed64(x: int): int {
    var r := x % TWO_TO_THE_64;
    if r < TWO_TO_THE_64 / 2 then r else r - TWO_TO_THE_64
  }

  /** The bounds of the slice that Receive computes from two unsigned offsets. */
  predicate SliceInBounds(p: Pending, begin: nat, end: nat) {
    var low := InBlockOffset(begin);
    low <= Signed64(low + Signed64(end - begin)) <= |p.data|
  }

  lemma SignedSlice(low: nat, begin: nat, end: nat, n: nat)
    requires low <= begin < TWO_TO_THE_64 && end < TWO_TO_THE_64 && low < BLOCK_SIZE && n <= BLOCK_SIZE
    requires begin - low + n < TWO_TO_THE_64
    ensures low <= Signed64(low + Signed64(end - begin)) <= n <==> begin <= end && low + (end - begin) <= n
  {
  }

  /** In 64-bit arithmetic, wrap-around included, the slice of a part that starts in its block
      exists exactly when the part is given forwards and ends within the block. */
  lemma SliceIff(size: nat, p: Pending, begin: nat, end: nat)
    requires Representable(size) && IsBlockOf(size, p.block) && |p.data| == BlockLength(size, p.block)
    requires begin < TWO_TO_THE_64 && end < TWO_TO_THE_64 && FromOffset(begin) == p.block
    ensures SliceInBounds(p, begin, end) <==> begin <= end <= BlockEnd(size, p.block)
    ensures SliceInBounds(p, begin, end) <==> HasSlice(p, Part(begin, end, []))
  {
    BlockBounds(size, p.block);
    OffsetInItsBlock(begin);
    FromOffsetStart(p.block, begin - p.block.Start());
    hide Signed64, PieceBlock.Start, InBlockOffset, FromOffset, IsBlockOf, NumPiecesAndBlocks;
    SignedSlice(InBlockOffset(begin), begin, end, |p.data|);
  }

  /** The chunk starts in the block and does not run over its end. */
  predicate InBlock(p: Pending, c: Chunk) {
    && FromOffset(c.begin) == p.block
    && c.begin + |c.bytes| <= p.block.Start() + |p.data|
  }

  function ReceiveAll(p: Pending, cs: seq<Chunk>): (r: Pending)
    requires |p.data| <= BLOCK_SIZE && forall c :: c in cs ==> InBlock(p, c)
    ensures |r.data| == |p.data| && r.block == p.block
  {
    if cs == [] then p
    else
      var init, c := cs[..|cs| - 1], cs[|cs| - 1];
      var r := ReceiveAll(p, init);
      assert c in cs;
      InBlockFits(p, c);
      ReceiveChunk(r, c)
  }

  /** What the chunks say about an offset: the byte that arrived last. */
  function LastByte(cs: seq<Chunk>, x: nat): Option<byte> {
    if cs == [] then None
    else
      var c := cs[|cs| - 1];
      if c.begin <= x < c.begin + |c.bytes| then Some(c.bytes[x - c.begin]) else LastByte(cs[..|cs| - 1], x)
  }

  lemma InBlockFits(p: Pending, c: Chunk)
    requires |p.data| <= BLOCK_SIZE && InBlock(p, c)
    ensures Fits(p, c.begin, |c.bytes|) && p.block.Start() <= c.begin
    ensures InBlockOffset(c.begin) == c.begin - p.block.Start()
  {
    OffsetInItsBlock(c.begin);
    FromOffsetStart(p.block, c.begin - p.block.Start());
  }

  /** What holds of a block of the file in every state of its reception. */
  ghost predicate Tracks(size: nat, b: PieceBlock, p: Pending, cs: seq<Chunk>) {
    && p.block == b
    && |p.data| == BlockLength(size, b) && b.Start() <= BlockEnd(size, b)
    && Sorted(p.segs)
    && |p.segs| <= 1 + |cs|
    && (forall x: nat :: Covers(p.segs, x) <==> b.Start() <= x < BlockEnd(size, b) && LastByte(cs, x).None?)
    && (forall x: nat :: b.Start() <= x < BlockEnd(size, b) ==>
          p.data[x - b.Start()] == if LastByte(cs, x).Some? then LastByte(cs, x).value else 0)
  }

  /** After any chunks inside the block, the region is the block minus what
      arrived, as at most one more range than there were chunks; the buffer
      holds the last byte that arrived for every offset that did. */
  lemma {:induction false} PendingTracksChunks(size: nat, b: PieceBlock, cs: seq<Chunk>)
    requires Representable(size) && IsBlockOf(size, b)
    requires forall c :: c in cs ==> InBlock(MakePending(b, size), c)
    ensures |MakePending(b, size).data| <= BLOCK_SIZE
    ensures Tracks(size, b, ReceiveAll(MakePending(b, size), cs), cs)
  {
    BlockBounds(size, b);
    var p0 := MakePending(b, size);
    if cs == [] {
      forall x: nat
        ensures Covers(p0.segs, x) <==> b.Start() <= x < BlockEnd(size, b)
      {
        assert Covers(p0.segs, x) <==> Holds(p0.segs[0], x);
      }
    } else {
      var init, c := cs[..|cs| - 1], cs[|cs| - 1];
      PendingTracksChunks(size, b, init);
      assert c in cs;
      InBlockFits(p0, c);
      TracksNext(size, b, ReceiveAll(p0, init), cs);
    }
  }

  ghost predicate NextChunk(size: nat, b: PieceBlock, p: Pending, cs: seq<Chunk>) {
    && cs != [] && Tracks(size, b, p, cs[..|cs| - 1])
    && var c := cs[|cs| - 1];
      && b.Start() <= c.begin && c.begin + |c.bytes| <= BlockEnd(size, b)
      && InBlockOffset(c.begin) == c.begin - b.Start()
  }

  lemma RegionNext(size: nat, b: PieceBlock, p: Pending, cs: seq<Chunk>, x: nat)
    requires NextChunk(size, b, p, cs)
    ensures var q := ReceiveChunk(p, cs[|cs| - 1]);
            && Sorted(q.segs) && |q.segs| <= 1 + |cs|
            && (Covers(q.segs, x) <==> b.Start() <= x < BlockEnd(size, b) && LastByte(cs, x).None?)
  {
    hide Sorted, SubAll, Covers, BlockEnd, InBlockOffset, Overlay;
    var init, c := cs[..|cs| - 1], cs[|cs| - 1];
    var r := Range(c.begin, c.begin + |c.bytes|);
    SubAllRemoves(p.segs, r);
    SubAllGrowsByOne(p.segs, r);
    assert Covers(p.segs, x) <==> b.Start() <= x < BlockEnd(size, b) && LastByte(init, x).None?;
  }

  lemma BufferNext(size: nat, b: PieceBlock, p: Pending, cs: seq<Chunk>, x: nat)
    requires NextChunk(size, b, p, cs) && b.Start() <= x < BlockEnd(size, b)
    ensures ReceiveChunk(p, cs[|cs| - 1]).data[x - b.Start()]
            == if LastByte(cs, x).Some? then LastByte(cs, x).value else 0
  {
    var init, c := cs[..|cs| - 1], cs[|cs| - 1];
    var q := ReceiveChunk(p, c);
    var i := x - b.Start();
    assert p.data[i] == if LastByte(init, x).Some? then LastByte(init, x).value else 0;
    assert q.data[i] == if c.begin <= x < c.begin + |c.bytes| then c.bytes[x - c.begin] else p.data[i];
  }

  lemma TracksNext(size: nat, b: PieceBlock, p: Pending, cs: seq<Chunk>)
    requires NextChunk(size, b, p, cs)
    ensures Tracks(size, b, ReceiveChunk(p, cs[|cs| - 1]), cs)
  {
    var q := ReceiveChunk(p, cs[|cs| - 1]);
    RegionNext(size, b, p, cs, 0);
    forall x: nat
      ensures Covers(q.segs, x) <==> b.Start() <= x < BlockEnd(size, b) && LastByte(cs, x).None?
    {
      RegionNext(size, b, p, cs, x);
    }
    forall x: nat | b.Start() <= x < BlockEnd(size, b)
      ensures q.data[x - b.Start()] == if LastByte(cs, x).Some? then LastByte(cs, x).value else 0
    {
      BufferNext(size, b, p, cs, x);
    }
  }

  /** The region is empty exactly when the chunks cover the whole block. */
  lemma CompleteIffCovered(size: nat, b: PieceBlock, p: Pending, cs: seq<Chunk>)
    requires Tracks(size, b, p, cs)
    ensures p.segs == [] <==> forall x: nat :: b.Start() <= x < BlockEnd(size, b) ==> LastByte(cs, x).Some?
  {
    if p.segs == [] {
      forall x: nat | b.Start() <= x < BlockEnd(size, b)
        ensures LastByte(cs, x).Some?
      {
        assert !Covers(p.segs, x);
      }
    } else {
      var x: nat := p.segs[0].begin;
      assert Holds(p.segs[0], x);
      assert Covers(p.segs, x);
      assert LastByte(cs, x).None?;
    }
  }

  class PendingBlock {
    const block: PieceBlock
    const data: array<byte>
    const region: Region

    constructor MakePendingBlock(b: PieceBlock, size: nat)
      requires b.Start() <= size
      ensures Value() == MakePending(b, size)
      ensures fresh(data) && fresh(region)
    {
      block := b;
      var end := Min(b.Start() + BLOCK_SIZE, size);
      data := new byte[end - b.Start()](_ => 0);
      region := new Region.MakeRegion(Range(b.Start(), end));
      new;
      assert data[..] == Zeros(end - b.Start());
    }

    function Value(): Pending
      reads data, region
    {
      Pending(block, data[..], region.Segments)
    }

    /** io.ReadFull into data[at..at+want]: all of it, or what there is and an error. */
    method ReadFull(reader: seq<byte>, at: nat, want: nat) returns (n: nat, ok: bool)
      requires at + want <= data.Length
      modifies data
      ensures n == Min(|reader|, want) && (ok <==> want <= |reader|)
      ensures data[..] == Overlay(old(data[..]), at, reader[..n])
    {
      n := 0;
      while n < want && n < |reader|
        invariant n <= want && n <= |reader|
        invariant forall k :: 0 <= k < data.Length ==>
                    data[k] == if at <= k < at + n then reader[k - at] else old(data[..])[k]
      {
        data[at + n] := reader[n];
        n := n + 1;
      }
      ok := n == want;
      assert data[..] == Overlay(old(data[..]), at, reader[..n]);
    }

    method Receive(reader: seq<byte>, begin: nat, end: nat) returns (n: nat, ok: bool)
      requires begin <= end && Fits(Value(), begin, end - begin)
      modifies data, region
      ensures ok <==> end - begin <= |reader|
      ensures ok ==> n == end - begin && Value() == ReceiveChunk(old(Value()), Chunk(begin, reader[..n]))
      ensures !ok ==> n == |reader|
                      && Value() == old(Value()).(data := Overlay(old(data[..]), InBlockOffset(begin), reader))
    {
      var inBlockOffset := InBlockOffset(begin);
      var chunkLen := end - begin;
      n, ok := ReadFull(reader, inBlockOffset, chunkLen);
      if ok {
        if n != chunkLen {
          return n, false;
        }
        region.Sub(Range(begin, end));
      } else {
        assert reader[..n] == reader;
      }
    }

    /** Decompressed data has to fill the block from begin to its end. */
    method ReceiveToEof(reader: seq<byte>, begin: nat) returns (n: nat, ok: bool)
      requires Fits(Value(), begin, 0)
      modifies data, region
      ensures ok <==> data.Length - InBlockOffset(begin) <= |reader|
      ensures ok ==> n == data.Length - InBlockOffset(begin)
                     && Value() == ReceiveChunk(old(Value()), Chunk(begin, reader[..n]))
      ensures !ok ==> n == |reader|
                      && Value() == old(Value()).(data := Overlay(old(data[..]), InBlockOffset(begin), reader))
    {
      var inBlockOffset := InBlockOffset(begin);
      n, ok := ReadFull(reader, inBlockOffset, data.Length - inBlockOffset);
      if ok {
        region.Sub(Range(begin, begin + n));
      } else {
        assert reader[..n] == reader;
      }
    }
  }
}
