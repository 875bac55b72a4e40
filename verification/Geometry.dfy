/** Pieces and blocks of a file: sizes, offsets and how they tile [0, size).

    Offsets are uint64 in the program. They are natural numbers here; the one
    place where the 64-bit arithmetic can wrap for a legal file size,
    DivCeil64, wraps explicitly. */
module Geometry {

  const PIECE_SIZE: nat := 9728000
  const BLOCK_SIZE: nat := 190 * 1024
  const BLOCKS_PER_PIECE: nat := PIECE_SIZE / BLOCK_SIZE
  const TWO_TO_THE_64: nat := 0x1_0000_0000_0000_0000

  datatype PieceBlock = PieceBlock(pieceIndex: nat, blockIndex: nat)
  {
    function Start(): nat {
      pieceIndex * PIECE_SIZE + blockIndex * BLOCK_SIZE
    }
  }

  function Min(a: int, b: int): int {
    if a < b then a else b
  }

  function FromOffset(offset: nat): PieceBlock {
    PieceBlock(offset / PIECE_SIZE, offset % PIECE_SIZE / BLOCK_SIZE)
  }

  function InBlockOffset(begin: nat): nat {
    begin % BLOCK_SIZE
  }

  function DivCeil64(a: nat, b: nat): nat
    requires 0 < b
  {
    (a + b - 1) % TWO_TO_THE_64 / b
  }

  datatype FileShape = FileShape(pieces: nat, blocksInLastPiece: nat)

  function NumPiecesAndBlocks(size: nat): FileShape {
    if size == 0 then FileShape(0, 0)
    else
      var last := DivCeil64(size % PIECE_SIZE, BLOCK_SIZE);
      FileShape(DivCeil64(size, PIECE_SIZE), if last == 0 then BLOCKS_PER_PIECE else last)
  }

  /** Sizes for which rounding up to whole pieces stays within 64 bits. */
  predicate Representable(size: nat) {
    size <= TWO_TO_THE_64 - PIECE_SIZE
  }

  function BlocksInPiece(shape: FileShape, piece: nat): nat {
    if piece + 1 == shape.pieces then shape.blocksInLastPiece else BLOCKS_PER_PIECE
  }

  /** The blocks that a file of this size consists of. */
  predicate IsBlockOf(size: nat, b: PieceBlock) {
    var shape := NumPiecesAndBlocks(size);
    b.pieceIndex < shape.pieces && b.blockIndex < BlocksInPiece(shape, b.pieceIndex)
  }

  /** One past the last byte of a block, as MakePendingBlock computes it. */
  function BlockEnd(size: nat, b: PieceBlock): nat {
    Min(b.Start() + BLOCK_SIZE, size)
  }

  function PieceEnd(size: nat, piece: nat): nat {
    Min((piece + 1) * PIECE_SIZE, size)
  }

  lemma FiftyBlocks()
    ensures BLOCKS_PER_PIECE == 50 && PIECE_SIZE == 50 * BLOCK_SIZE
  {
  }

  /** Rounding up without the wrap, and what the wrap does. */
  lemma DivCeilIsCeiling(a: nat, b: nat)
    requires 0 < b && a + b - 1 < TWO_TO_THE_64
    ensures var q := DivCeil64(a, b); a <= q * b < a + b
  {
    var s := a + b - 1;
    assert s % TWO_TO_THE_64 == s;
    assert s == s / b * b + s % b;
  }

  lemma ShapeOf(size: nat)
    requires 0 < size && Representable(size)
    ensures var shape := NumPiecesAndBlocks(size);
            && 0 < shape.pieces
            && (shape.pieces - 1) * PIECE_SIZE < size <= shape.pieces * PIECE_SIZE
            && 0 < shape.blocksInLastPiece <= BLOCKS_PER_PIECE
            && (shape.pieces - 1) * PIECE_SIZE + (shape.blocksInLastPiece - 1) * BLOCK_SIZE < size
            && size <= (shape.pieces - 1) * PIECE_SIZE + shape.blocksInLastPiece * BLOCK_SIZE
  {
    var shape := NumPiecesAndBlocks(size);
    DivCeilIsCeiling(size, PIECE_SIZE);
    var rest := size % PIECE_SIZE;
    DivCeilIsCeiling(rest, BLOCK_SIZE);
    assert size == size / PIECE_SIZE * PIECE_SIZE + rest;
    if rest == 0 {
      assert shape.pieces == size / PIECE_SIZE;
    } else {
      assert shape.pieces == size / PIECE_SIZE + 1;
    }
  }

  /** The piece count is right exactly for the representable sizes: one byte
      more and the rounding wraps around to zero pieces. */
  lemma PieceCountIsCeilingIff(size: nat)
    requires 0 < size < TWO_TO_THE_64
    ensures var n := NumPiecesAndBlocks(size).pieces;
            size <= n * PIECE_SIZE < size + PIECE_SIZE <==> Representable(size)
  {
    if Representable(size) {
      DivCeilIsCeiling(size, PIECE_SIZE);
    } else {
      var s := size + PIECE_SIZE - 1;
      assert s % TWO_TO_THE_64 == s - TWO_TO_THE_64;
      assert NumPiecesAndBlocks(size).pieces == 0;
    }
  }

  lemma SplitByPiece(q: nat, r: nat)
    requires r < PIECE_SIZE
    ensures (q * PIECE_SIZE + r) / PIECE_SIZE == q && (q * PIECE_SIZE + r) % PIECE_SIZE == r
  {
  }

  lemma SplitByBlock(q: nat, r: nat)
    requires r < BLOCK_SIZE
    ensures (q * BLOCK_SIZE + r) / BLOCK_SIZE == q && (q * BLOCK_SIZE + r) % BLOCK_SIZE == r
  {
  }

  /** FromOffset inverts Start, and maps an offset to the block whose range holds it. */
  lemma FromOffsetStart(b: PieceBlock, d: nat)
    requires b.blockIndex < BLOCKS_PER_PIECE && d < BLOCK_SIZE
    ensures FromOffset(b.Start() + d) == b
    ensures InBlockOffset(b.Start() + d) == d
  {
    var r := b.blockIndex * BLOCK_SIZE + d;
    assert r < PIECE_SIZE && b.Start() + d == b.pieceIndex * PIECE_SIZE + r;
    SplitByPiece(b.pieceIndex, r);
    SplitByBlock(b.blockIndex, d);
    var k := 50 * b.pieceIndex + b.blockIndex;
    assert b.Start() + d == k * BLOCK_SIZE + d;
    SplitByBlock(k, d);
  }

  /** Every block is nonempty, at most BLOCK_SIZE long and inside its piece and the file. */
  lemma BlockBounds(size: nat, b: PieceBlock)
    requires Representable(size) && IsBlockOf(size, b)
    ensures b.blockIndex < BLOCKS_PER_PIECE
    ensures b.pieceIndex * PIECE_SIZE <= b.Start() < BlockEnd(size, b) <= PieceEnd(size, b.pieceIndex)
    ensures BlockEnd(size, b) <= b.Start() + BLOCK_SIZE < TWO_TO_THE_64
    ensures InBlockOffset(b.Start()) == 0
  {
    ShapeOf(size);
    FiftyBlocks();
    FromOffsetStart(b, 0);
    hide NumPiecesAndBlocks, FromOffset, InBlockOffset;
    var shape := NumPiecesAndBlocks(size);
    if b.pieceIndex + 1 < shape.pieces {
      assert (b.pieceIndex + 1) * PIECE_SIZE <= (shape.pieces - 1) * PIECE_SIZE;
    } else {
      assert b.blockIndex * BLOCK_SIZE <= (shape.blocksInLastPiece - 1) * BLOCK_SIZE;
    }
  }

  lemma OffsetInItsBlock(offset: nat)
    ensures var b := FromOffset(offset);
            b.blockIndex < BLOCKS_PER_PIECE && b.Start() <= offset < b.Start() + BLOCK_SIZE
  {
    var r := offset % PIECE_SIZE;
    assert offset == offset / PIECE_SIZE * PIECE_SIZE + r;
    assert r == r / BLOCK_SIZE * BLOCK_SIZE + r % BLOCK_SIZE;
  }

  /** Tiling: an offset of the file lies in exactly one block, the one FromOffset names. */
  lemma BlocksPartitionFile(size: nat, offset: nat, b: PieceBlock)
    requires Representable(size)
    ensures offset < size ==>
              && IsBlockOf(size, FromOffset(offset))
              && (IsBlockOf(size, b) ==> (b.Start() <= offset < BlockEnd(size, b) <==> b == FromOffset(offset)))
    ensures size <= offset && IsBlockOf(size, b) ==> !(b.Start() <= offset < BlockEnd(size, b))
  {
    if offset < size {
      ShapeOf(size);
      OffsetInItsBlock(offset);
      var o, shape := FromOffset(offset), NumPiecesAndBlocks(size);
      assert o.pieceIndex * PIECE_SIZE <= offset;
      assert o.pieceIndex < shape.pieces by {
        if o.pieceIndex >= shape.pieces { assert false; }
      }
      assert o.blockIndex < BlocksInPiece(shape, o.pieceIndex) by {
        if o.pieceIndex + 1 == shape.pieces && o.blockIndex >= shape.blocksInLastPiece { assert false; }
      }
      if IsBlockOf(size, b) && b.Start() <= offset < BlockEnd(size, b) {
        BlockBounds(size, b);
        FromOffsetStart(b, offset - b.Start());
      }
    }
  }

  /** Two different blocks of a file share no byte. */
  lemma BlocksDisjoint(size: nat, a: PieceBlock, b: PieceBlock)
    requires Representable(size) && IsBlockOf(size, a) && IsBlockOf(size, b) && a != b
    ensures BlockEnd(size, a) <= b.Start() || BlockEnd(size, b) <= a.Start()
  {
    BlockBounds(size, a);
    BlockBounds(size, b);
    var m := if a.Start() < b.Start() then b.Start() else a.Start();
    if m < BlockEnd(size, a) && m < BlockEnd(size, b) {
      BlocksPartitionFile(size, m, a);
      BlocksPartitionFile(size, m, b);
    }
  }

  /** The blocks of one piece are laid end to end. */
  lemma BlocksOfPieceAreConsecutive(size: nat, b: PieceBlock)
    requires Representable(size) && IsBlockOf(size, b)
    ensures var n := BlocksInPiece(NumPiecesAndBlocks(size), b.pieceIndex);
            if b.blockIndex + 1 < n
            then BlockEnd(size, b) == PieceBlock(b.pieceIndex, b.blockIndex + 1).Start()
            else BlockEnd(size, b) == PieceEnd(size, b.pieceIndex)
  {
    ShapeOf(size);
    FiftyBlocks();
    var shape := NumPiecesAndBlocks(size);
    var n := BlocksInPiece(shape, b.pieceIndex);
    if b.blockIndex + 1 < n {
      BlockBounds(size, PieceBlock(b.pieceIndex, b.blockIndex + 1));
      assert PieceBlock(b.pieceIndex, b.blockIndex + 1).Start() == b.Start() + BLOCK_SIZE;
    } else if b.pieceIndex + 1 < shape.pieces {
      assert (b.pieceIndex + 1) * PIECE_SIZE <= (shape.pieces - 1) * PIECE_SIZE;
    }
  }

  function BytesOfBlocks(size: nat, piece: nat, blocks: nat): nat
    decreases blocks
  {
    if blocks == 0 then 0
    else
      var b := PieceBlock(piece, blocks - 1);
      var length := if b.Start() <= BlockEnd(size, b) then BlockEnd(size, b) - b.Start() else 0;
      BytesOfBlocks(size, piece, blocks - 1) + length
  }

  function BytesOfPieces(size: nat, pieces: nat): nat {
    if pieces == 0 then 0
    else
      BytesOfPieces(size, pieces - 1)
      + BytesOfBlocks(size, pieces - 1, BlocksInPiece(NumPiecesAndBlocks(size), pieces - 1))
  }

  lemma {:induction false} BlockLengthsOfPiece(size: nat, piece: nat, blocks: nat)
    requires Representable(size) && piece < NumPiecesAndBlocks(size).pieces
    requires 0 < blocks <= BlocksInPiece(NumPiecesAndBlocks(size), piece)
    ensures BytesOfBlocks(size, piece, blocks) == BlockEnd(size, PieceBlock(piece, blocks - 1)) - piece * PIECE_SIZE
  {
    var b := PieceBlock(piece, blocks - 1);
    BlockBounds(size, b);
    if 1 < blocks {
      BlockLengthsOfPiece(size, piece, blocks - 1);
      BlocksOfPieceAreConsecutive(size, PieceBlock(piece, blocks - 2));
    } else {
      assert BytesOfBlocks(size, piece, 0) == 0;
    }
  }

  lemma {:induction false} BytesOfPrefix(size: nat, pieces: nat)
    requires Representable(size) && pieces <= NumPiecesAndBlocks(size).pieces
    ensures BytesOfPieces(size, pieces) == Min(pieces * PIECE_SIZE, size)
  {
    if 0 < pieces {
      BytesOfPrefix(size, pieces - 1);
      ShapeOf(size);
      var shape := NumPiecesAndBlocks(size);
      var n := BlocksInPiece(shape, pieces - 1);
      BlockLengthsOfPiece(size, pieces - 1, n);
      BlocksOfPieceAreConsecutive(size, PieceBlock(pieces - 1, n - 1));
      assert (pieces - 1) * PIECE_SIZE <= (shape.pieces - 1) * PIECE_SIZE;
    }
  }

  /** The lengths of all blocks add up to the size of the file. */
  lemma BlockLengthsSumToSize(size: nat)
    requires Representable(size)
    ensures BytesOfPieces(size, NumPiecesAndBlocks(size).pieces) == size
  {
    BytesOfPrefix(size, NumPiecesAndBlocks(size).pieces);
    if size != 0 {
      ShapeOf(size);
    }
  }
}
