/** A piece in progress: which of its blocks are free, requested or finished,
    and who downloads them (downloading_piece.go).

    Piece is the state as a value; the class DownloadingPiece changes it in place. */
module DownloadingPieces {
  import opened Geometry
  import opened BitFields
  import opened Peers

  datatype BlockState = BlockState(requested: bool, finished: bool, downloadersCount: int, lastDownloader: Peer?)

  datatype Piece = Piece(pieceIndex: nat, blocks: seq<BlockState>)

  const FRESH := BlockState(false, false, 0, null)

  function NewPiece(pieceIndex: nat, blocksCount: nat): Piece {
    Piece(pieceIndex, seq(blocksCount, _ => FRESH))
  }

  function HaveBlock(have: bool): BlockState {
    BlockState(have, have, 0, null)
  }

  function PieceFromBits(pieceIndex: nat, have: seq<bool>): Piece {
    Piece(pieceIndex, seq(|have|, i requires 0 <= i < |have| => HaveBlock(have[i])))
  }

  function Requested(blocks: seq<BlockState>): seq<bool> {
    seq(|blocks|, i requires 0 <= i < |blocks| => blocks[i].requested)
  }

  function Finished(blocks: seq<BlockState>): seq<bool> {
    seq(|blocks|, i requires 0 <= i < |blocks| => blocks[i].finished)
  }

  /** A free block, or in end game an unfinished one with at most one other
      downloader, who was forgotten or belongs to the slower peers. */
  predicate CanPick(b: BlockState, peer: Peer, slower: set<Peer>, endGame: bool) {
    !b.requested
    || (endGame && !b.finished && b.downloadersCount < 2
        && (b.lastDownloader == null || (b.lastDownloader in slower && peer != b.lastDownloader)))
  }

  function Take(b: BlockState, peer: Peer): BlockState {
    b.(requested := true, downloadersCount := b.downloadersCount + 1, lastDownloader := peer)
  }

  /** The first n blocks from index i on that can be picked, in order. */
  function PickFrom(blocks: seq<BlockState>, i: nat, n: int, peer: Peer, slower: set<Peer>, endGame: bool)
    : (r: (seq<BlockState>, seq<nat>))
    ensures |r.0| == |blocks|
    decreases |blocks| - i
  {
    if i >= |blocks| || n <= 0 then (blocks, [])
    else if CanPick(blocks[i], peer, slower, endGame) then
      var r := PickFrom(blocks[i := Take(blocks[i], peer)], i + 1, n - 1, peer, slower, endGame);
      (r.0, [i] + r.1)
    else PickFrom(blocks, i + 1, n, peer, slower, endGame)
  }

  function OfPiece(pieceIndex: nat, ks: seq<nat>): seq<PieceBlock> {
    seq(|ks|, i requires 0 <= i < |ks| => PieceBlock(pieceIndex, ks[i]))
  }

  function PickPiece(p: Piece, n: int, peer: Peer, slower: set<Peer>, endGame: bool): (Piece, seq<PieceBlock>) {
    var r := PickFrom(p.blocks, 0, n, peer, slower, endGame);
    (p.(blocks := r.0), OfPiece(p.pieceIndex, r.1))
  }

  function AbortBlockState(b: BlockState, peer: Peer): BlockState {
    if b.finished then b
    else
      var count := b.downloadersCount - 1;
      b.(requested := b.requested && count != 0,
         downloadersCount := count,
         lastDownloader := if b.lastDownloader != null && b.lastDownloader.endpoint == peer.endpoint
                           then null else b.lastDownloader)
  }

  function FinishBlockState(b: BlockState): BlockState {
    b.(finished := true, downloadersCount := b.downloadersCount - 1, lastDownloader := null)
  }

  /** What a pick returns and changes: distinct blocks that could be picked,
      each taken once; it falls short of n only when nothing more can be picked. */
  lemma {:induction false} PickFromPicks(blocks: seq<BlockState>, i: nat, n: int, peer: Peer, slower: set<Peer>,
          endGame: bool)
    ensures var (after, ks) := PickFrom(blocks, i, n, peer, slower, endGame);
            && (forall j, k :: 0 <= j < k < |ks| ==> ks[j] < ks[k])
            && (forall k :: k in ks ==> i <= k < |blocks| && CanPick(blocks[k], peer, slower, endGame))
            && (forall k :: 0 <= k < |blocks| ==> after[k] == if k in ks then Take(blocks[k], peer) else blocks[k])
            && |ks| <= (if n < 0 then 0 else n)
            && (|ks| < n ==> forall k :: i <= k < |blocks| && CanPick(blocks[k], peer, slower, endGame) ==> k in ks)
    decreases |blocks| - i
  {
    if i < |blocks| && 0 < n {
      if CanPick(blocks[i], peer, slower, endGame) {
        var blocks' := blocks[i := Take(blocks[i], peer)];
        PickFromPicks(blocks', i + 1, n - 1, peer, slower, endGame);
        var (after, ks) := PickFrom(blocks', i + 1, n - 1, peer, slower, endGame);
        assert forall k :: k in [i] + ks <==> k == i || k in ks;
        assert forall k :: 0 <= k < |ks| ==> ks[k] in ks;
      } else {
        PickFromPicks(blocks, i + 1, n, peer, slower, endGame);
      }
    }
  }

  /** No block that could be picked is passed over for a later one. */
  lemma {:induction false} PickFromIsFirst(blocks: seq<BlockState>, i: nat, n: int, peer: Peer, slower: set<Peer>,
          endGame: bool, j: nat, k: nat)
    requires i <= j < k < |blocks| && CanPick(blocks[j], peer, slower, endGame)
    requires k in PickFrom(blocks, i, n, peer, slower, endGame).1
    ensures j in PickFrom(blocks, i, n, peer, slower, endGame).1
    decreases |blocks| - i
  {
    hide CanPick;
    if CanPick(blocks[i], peer, slower, endGame) {
      var blocks' := blocks[i := Take(blocks[i], peer)];
      var ks := PickFrom(blocks', i + 1, n - 1, peer, slower, endGame).1;
      if j != i {
        assert k in ks;
        PickFromIsFirst(blocks', i + 1, n - 1, peer, slower, endGame, j, k);
      }
    } else {
      PickFromIsFirst(blocks, i + 1, n, peer, slower, endGame, j, k);
    }
  }

  lemma PickFromEnd(blocks: seq<BlockState>, i: nat, n: int, peer: Peer, slower: set<Peer>, endGame: bool)
    requires |blocks| <= i || n <= 0
    ensures PickFrom(blocks, i, n, peer, slower, endGame) == (blocks, [])
  {
  }

  /** One round of the picking loop, given what was picked before it. */
  lemma PickFromStep(all: (seq<BlockState>, seq<nat>), ks: seq<nat>, blocks: seq<BlockState>, i: nat, n: int,
                     peer: Peer, slower: set<Peer>, endGame: bool)
    requires i < |blocks| && 0 < n
    requires var rest := PickFrom(blocks, i, n, peer, slower, endGame);
             all.0 == rest.0 && all.1 == ks + rest.1
    ensures if CanPick(blocks[i], peer, slower, endGame)
            then var rest := PickFrom(blocks[i := Take(blocks[i], peer)], i + 1, n - 1, peer, slower, endGame);
                 all.0 == rest.0 && all.1 == ks + [i] + rest.1
            else var rest := PickFrom(blocks, i + 1, n, peer, slower, endGame);
                 all.0 == rest.0 && all.1 == ks + rest.1
  {
  }

  /** Without free blocks a plain pick returns nothing, as the early return says. */
  lemma {:induction false} NothingToPick(blocks: seq<BlockState>, i: nat, n: int, peer: Peer, slower: set<Peer>)
    requires forall k :: 0 <= k < |blocks| ==> blocks[k].requested
    ensures PickFrom(blocks, i, n, peer, slower, false) == (blocks, [])
    decreases |blocks| - i
  {
    if i < |blocks| && 0 < n {
      NothingToPick(blocks, i + 1, n, peer, slower);
    }
  }

  function Downloaders(blocks: seq<BlockState>): set<Peer> {
    set i | 0 <= i < |blocks| && blocks[i].lastDownloader != null :: blocks[i].lastDownloader
  }

  lemma TakeDownloaders(blocks: seq<BlockState>, i: nat, peer: Peer)
    requires i < |blocks|
    ensures Downloaders(blocks[i := Take(blocks[i], peer)]) <= Downloaders(blocks) + {peer}
  {
    var after := blocks[i := Take(blocks[i], peer)];
    forall q | q in Downloaders(after) && q != peer
      ensures q in Downloaders(blocks)
    {
      var k :| 0 <= k < |after| && after[k].lastDownloader == q;
      assert blocks[k].lastDownloader == q;
    }
  }

  /** slower holds exactly those of the downloaders that are slower than the peer. */
  predicate SlowerIn(downloaders: set<Peer>, slower: set<Peer>, peer: Peer) {
    && peer !in slower
    && forall p :: p in downloaders ==> (p in slower <==> p.Speed < peer.Speed)
  }

  datatype Block = Block(downloadersCount: int, lastDownloader: Peer?)

  class DownloadingPiece {
    const pieceIndex: nat
    const blocks: array<Block>
    const blocksRequested: BitField
    const blocksFinished: BitField

    ghost const Repr: set<object>

    ghost predicate Valid()
      reads Repr
    {
      && {blocks, blocksRequested, blocksFinished} <= Repr
      && blocksRequested.bytes in Repr && blocksFinished.bytes in Repr
      && blocks as object != blocksRequested.bytes && blocks as object != blocksFinished.bytes
      && blocksRequested != blocksFinished
      && blocksRequested.bytes != blocksFinished.bytes
      && blocksRequested.Valid() && blocksFinished.Valid()
      && blocksRequested.bits == blocksFinished.bits == blocks.Length
    }

    ghost function StateOf(i: nat): BlockState
      requires Valid() && i < blocks.Length
      reads Repr
    {
      BlockState(blocksRequested.Value()[i], blocksFinished.Value()[i], blocks[i].downloadersCount,
          blocks[i].lastDownloader)
    }

    ghost function Value(): (p: Piece)
      requires Valid()
      reads Repr
      ensures |p.blocks| == blocks.Length && p.pieceIndex == pieceIndex
      ensures forall i :: 0 <= i < blocks.Length ==> p.blocks[i] == StateOf(i)
    {
      Piece(pieceIndex, seq(blocks.Length, i requires 0 <= i < blocks.Length reads Repr requires Valid() => StateOf(i)))
    }

    constructor NewDownloadingPiece(pieceIndex: nat, blocksCount: nat)
      ensures Valid() && fresh(Repr)
      ensures Value() == NewPiece(pieceIndex, blocksCount)
    {
      hide Unpack, BitOf, BitField.GetBit, BitField.Raw, BitField.Value;
      this.pieceIndex := pieceIndex;
      blocks := new Block[blocksCount](_ => Block(0, null));
      var requested := new BitField.Create(blocksCount);
      var finished := new BitField.Create(blocksCount);
      blocksRequested, blocksFinished := requested, finished;
      Repr := {blocks, requested, requested.bytes, finished, finished.bytes};
    }

    constructor NewDownloadingPieceParams(pieceIndex: nat, blocksHave: BitField)
      requires blocksHave.Valid()
      ensures Valid() && fresh(Repr)
      ensures Value() == PieceFromBits(pieceIndex, blocksHave.Value())
    {
      hide Unpack, BitOf, BitField.GetBit, BitField.Raw, BitField.Value;
      this.pieceIndex := pieceIndex;
      blocks := new Block[blocksHave.bits](_ => Block(0, null));
      var requested := new BitField.Clone(blocksHave);
      var finished := new BitField.Clone(blocksHave);
      blocksRequested, blocksFinished := requested, finished;
      Repr := {blocks, requested, requested.bytes, finished, finished.bytes};
    }

    method FreeBlocksCount() returns (free: nat)
      requires Valid()
      ensures free == blocks.Length - CountTrue(Requested(Value().blocks))
      ensures free == 0 <==> forall i :: 0 <= i < blocks.Length ==> Value().blocks[i].requested
    {
      var count := blocksRequested.Count();
      CountAllIff(blocksRequested.Value(), blocks.Length);
      assert forall i :: 0 <= i < blocks.Length ==> blocksRequested.Value()[i] == Value().blocks[i].requested;
      assert Requested(Value().blocks) == blocksRequested.Value();
      free := blocksRequested.Bits() - count;
    }

    method NumHave() returns (have: nat)
      requires Valid()
      ensures have == CountTrue(Finished(Value().blocks))
    {
      have := blocksFinished.Count();
      assert Finished(Value().blocks) == blocksFinished.Value();
    }

    predicate IsBlockRequested(blockIndex: nat): (r: bool)
      requires Valid() && blockIndex < blocks.Length
      reads Repr
      ensures r == Value().blocks[blockIndex].requested
    {
      blocksRequested.GetBit(blockIndex)
    }

    predicate IsBlockFinished(blockIndex: nat): (r: bool)
      requires Valid() && blockIndex < blocks.Length
      reads Repr
      ensures r == Value().blocks[blockIndex].finished
    {
      blocksFinished.GetBit(blockIndex)
    }

    /** The body of the picking loop for one block. */
    method OfferBlock(i: nat, peer: Peer, endGame: bool, ghost slower: set<Peer>) returns (picked: bool)
      requires Valid() && SlowerIn(Downloaders(Value().blocks), slower, peer) && i < blocks.Length
      modifies blocks, blocksRequested.bytes
      ensures Valid() && SlowerIn(Downloaders(Value().blocks), slower, peer)
      ensures picked == CanPick(old(Value()).blocks[i], peer, slower, endGame)
      ensures Value().blocks == if picked then old(Value()).blocks[i := Take(old(Value()).blocks[i], peer)]
                                else old(Value()).blocks
    {
      hide Unpack, BitOf, BitField.GetBit, BitField.Raw, BitField.Value;
      var requested, finished := IsBlockRequested(i), IsBlockFinished(i);
      var last := blocks[i].lastDownloader;
      picked := !requested
                || (endGame && !finished && blocks[i].downloadersCount < 2
                    && (last == null || (last.Speed < peer.Speed && peer != last)));
      if picked {
        ghost var before := Value().blocks;
        TakeDownloaders(before, i, peer);
        blocksRequested.SetBit(i);
        blocks[i] := Block(blocks[i].downloadersCount + 1, peer);
        assert Value().blocks == before[i := Take(before[i], peer)];
      }
    }

    method PickBlock(requiredBlocksCount: int, peer: Peer, endGame: bool, ghost slower: set<Peer>)
      returns (res: seq<PieceBlock>)
      requires Valid() && SlowerIn(Downloaders(Value().blocks), slower, peer)
      modifies blocks, blocksRequested.bytes
      ensures Valid() && SlowerIn(Downloaders(Value().blocks), slower, peer)
      ensures (Value(), res) == PickPiece(old(Value()), requiredBlocksCount, peer, slower, endGame)
    {
      hide Unpack, BitOf, BitField.GetBit, BitField.Raw, BitField.Value, PickFrom;
      ghost var start := Value().blocks;
      res := [];
      var free := FreeBlocksCount();
      assert Value().blocks == start;
      if !endGame && free == 0 {
        NothingToPick(start, 0, requiredBlocksCount, peer, slower);
        assert OfPiece(pieceIndex, []) == [];
        return;
      }
      ghost var ks: seq<nat> := [];
      ghost var all := PickFrom(start, 0, requiredBlocksCount, peer, slower, endGame);
      ghost var now := start;
      assert all.1 == ks + all.1;
      var i: nat := 0;
      while i < blocks.Length && |res| < requiredBlocksCount
        invariant i <= |now| == blocks.Length
        invariant Valid() && SlowerIn(Downloaders(Value().blocks), slower, peer)
        invariant Value().blocks == now
        invariant |res| == |ks| && res == OfPiece(pieceIndex, ks)
        invariant var rest := PickFrom(now, i, requiredBlocksCount - |ks|, peer, slower, endGame);
                  all.0 == rest.0 && all.1 == ks + rest.1
      {
        PickFromStep(all, ks, now, i, requiredBlocksCount - |ks|, peer, slower, endGame);
        var picked := OfferBlock(i, peer, endGame, slower);
        if picked {
          res := res + [PieceBlock(pieceIndex, i)];
          now := now[i := Take(now[i], peer)];
          ks := ks + [i];
        }
        i := i + 1;
      }
      PickFromEnd(now, i, requiredBlocksCount - |ks|, peer, slower, endGame);
      assert Value().blocks == all.0 && ks == all.1;
    }

    method AbortBlock(blockIndex: nat, peer: Peer)
      requires Valid() && blockIndex < blocks.Length
      modifies blocks, blocksRequested.bytes
      ensures Valid()
      ensures Value() == old(Value()).(blocks := old(Value()).blocks[blockIndex :=
              AbortBlockState(old(Value()).blocks[blockIndex], peer)])
    {
      hide Unpack, BitOf, BitField.GetBit, BitField.Raw, BitField.Value;
      var finished := IsBlockFinished(blockIndex);
      if finished {
        return;
      }
      var b := blocks[blockIndex];
      b := b.(downloadersCount := b.downloadersCount - 1);
      if b.downloadersCount == 0 {
        blocksRequested.ClearBit(blockIndex);
      }
      if b.lastDownloader != null && b.lastDownloader.endpoint == peer.endpoint {
        b := b.(lastDownloader := null);
      }
      blocks[blockIndex] := b;
    }

    /** Panics on a block that is not requested. */
    method FinishBlock(blockIndex: nat)
      requires Valid() && blockIndex < blocks.Length && Value().blocks[blockIndex].requested
      modifies blocks, blocksFinished.bytes
      ensures Valid()
      ensures Value() == old(Value()).(blocks := old(Value()).blocks[blockIndex :=
              FinishBlockState(old(Value()).blocks[blockIndex])])
    {
      hide Unpack, BitOf, BitField.GetBit, BitField.Raw, BitField.Value;
      blocksFinished.SetBit(blockIndex);
      blocks[blockIndex] := Block(blocks[blockIndex].downloadersCount - 1, null);
    }
  }
}
