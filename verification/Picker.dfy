/** The block allocator of a transfer as a value: what piece_picker.go computes,
    and what it guarantees about every block of the file. */
module Pickers {
  import opened Geometry
  import opened BitFields
  import opened Peers
  import opened DownloadingPieces

  /** A set bit is a piece that is downloading (it is in the list) or that we have. */
  datatype Picker = Picker(blocksInLastPiece: nat, downloading: seq<Piece>, pieces: seq<bool>)

  function Create(pieceCount: nat, blocksInLastPiece: nat): Picker {
    Picker(blocksInLastPiece, [], seq(pieceCount, _ => false))
  }

  function BlocksIn(pk: Picker, piece: nat): nat {
    if piece + 1 == |pk.pieces| then pk.blocksInLastPiece else BLOCKS_PER_PIECE
  }

  /** Where a piece stands in the list; its length if it is not there. */
  function IndexOf(dps: seq<Piece>, piece: nat): (j: nat)
    ensures j <= |dps|
    ensures j < |dps| ==> dps[j].pieceIndex == piece
    ensures forall i :: 0 <= i < j ==> dps[i].pieceIndex != piece
  {
    if dps == [] || dps[0].pieceIndex == piece then 0 else 1 + IndexOf(dps[1..], piece)
  }

  predicate Listed(pk: Picker, piece: nat) {
    IndexOf(pk.downloading, piece) < |pk.downloading|
  }

  function PieceAt(pk: Picker, piece: nat): Piece
    requires Listed(pk, piece)
  {
    pk.downloading[IndexOf(pk.downloading, piece)]
  }

  /** Downloaded and verified: the bit is set and the piece has left the list. */
  predicate Have(pk: Picker, piece: nat) {
    piece < |pk.pieces| && pk.pieces[piece] && !Listed(pk, piece)
  }

  predicate Untouched(pk: Picker, piece: nat) {
    piece < |pk.pieces| && !pk.pieces[piece] && !Listed(pk, piece)
  }

  /** What nobody may request: blocks of finished pieces and blocks outside the file. */
  const DONE := BlockState(true, true, 0, null)

  /** The state of any block of the file, in the list or not. */
  function Look(pk: Picker, b: PieceBlock): BlockState {
    var j := IndexOf(pk.downloading, b.pieceIndex);
    if j < |pk.downloading| then
      if b.blockIndex < |pk.downloading[j].blocks| then pk.downloading[j].blocks[b.blockIndex] else DONE
    else if Untouched(pk, b.pieceIndex) && b.blockIndex < BlocksIn(pk, b.pieceIndex) then FRESH
    else DONE
  }

  ghost predicate DistinctPieces(dps: seq<Piece>) {
    forall i, j :: 0 <= i < j < |dps| ==> dps[i].pieceIndex != dps[j].pieceIndex
  }

  /** The list and the bits agree. */
  ghost predicate WellFormed(pk: Picker) {
    && DistinctPieces(pk.downloading)
    && forall j :: 0 <= j < |pk.downloading| ==>
         pk.downloading[j].pieceIndex < |pk.pieces| && pk.pieces[pk.downloading[j].pieceIndex]
  }

  /** Every piece in the list has the number of blocks its place in the file gives it. */
  ghost predicate Sized(pk: Picker) {
    && (forall j :: 0 <= j < |pk.downloading| ==>
          |pk.downloading[j].blocks| == BlocksIn(pk, pk.downloading[j].pieceIndex))
    && pk.blocksInLastPiece <= BLOCKS_PER_PIECE
  }

  lemma IndexIs(dps: seq<Piece>, j: nat)
    requires DistinctPieces(dps) && j < |dps|
    ensures IndexOf(dps, dps[j].pieceIndex) == j
  {
  }

  // ----- picking

  function AddFrom(dps: seq<Piece>, j: nat, n: int, peer: Peer, slower: set<Peer>, endGame: bool)
    : (r: (seq<Piece>, seq<PieceBlock>))
    ensures |r.0| == |dps|
    decreases |dps| - j
  {
    if j >= |dps| then (dps, [])
    else
      var (p, picked) := PickPiece(dps[j], n, peer, slower, endGame);
      var (rest, more) := AddFrom(dps[j := p], j + 1, n - |picked|, peer, slower, endGame);
      (rest, picked + more)
  }

  function AddBlocks(pk: Picker, n: int, peer: Peer, slower: set<Peer>, endGame: bool): (Picker, seq<PieceBlock>) {
    var (dps, res) := AddFrom(pk.downloading, 0, n, peer, slower, endGame);
    (pk.(downloading := dps), res)
  }

  function FirstUnset(pieces: seq<bool>): (i: nat)
    ensures i <= |pieces| && (i < |pieces| ==> !pieces[i])
    ensures forall k :: 0 <= k < i ==> pieces[k]
  {
    if pieces == [] || !pieces[0] then 0 else 1 + FirstUnset(pieces[1..])
  }

  function Choose(pk: Picker): Picker
    requires FirstUnset(pk.pieces) < |pk.pieces|
  {
    var i := FirstUnset(pk.pieces);
    pk.(downloading := pk.downloading + [NewPiece(i, BlocksIn(pk, i))], pieces := pk.pieces[i := true])
  }

  ghost function Unset(pieces: seq<bool>): set<nat> {
    set i: nat | i < |pieces| && !pieces[i]
  }

  /** A plain pass and, for a peer that is not slow, an end-game pass; isEndGame is always true. */
  function TwoPasses(pk: Picker, n: int, peer: Peer, slower: set<Peer>, slow: bool): (Picker, seq<PieceBlock>) {
    var (pk1, plain) := AddBlocks(pk, n, peer, slower, false);
    if !slow && |plain| < n then
      var (pk2, again) := AddBlocks(pk1, n - |plain|, peer, slower, true);
      (pk2, plain + again)
    else (pk1, plain)
  }

  lemma ChooseUnsets(pk: Picker)
    requires FirstUnset(pk.pieces) < |pk.pieces|
    ensures Unset(Choose(pk).pieces) < Unset(pk.pieces)
  {
    var i := FirstUnset(pk.pieces);
    assert i in Unset(pk.pieces) && Unset(Choose(pk).pieces) == Unset(pk.pieces) - {i};
  }

  /** One call of PickPieces; slow tells whether the peer's speed class is the lowest. */
  function PickPieces(pk: Picker, n: int, peer: Peer, slower: set<Peer>, slow: bool): (Picker, seq<PieceBlock>)
    decreases Unset(pk.pieces)
  {
    var (pk1, res) := TwoPasses(pk, n, peer, slower, slow);
    if |res| < n && FirstUnset(pk1.pieces) < |pk1.pieces| then
      ChooseUnsets(pk1);
      var (pk2, more) := PickPieces(Choose(pk1), n - |res|, peer, slower, slow);
      (pk2, res + more)
    else (pk1, res)
  }

  ghost predicate Distinct(bs: seq<PieceBlock>) {
    forall i, j :: 0 <= i < j < |bs| ==> bs[i] != bs[j]
  }

  /** res was picked between two states: distinct blocks, each one available
      before and taken once, and no other block of the file changed. */
  ghost predicate Picked(before: Picker, after: Picker, res: seq<PieceBlock>, peer: Peer, slower: set<Peer>,
          endGame: bool) {
    && Distinct(res)
    && (forall b :: b in res ==>
          CanPick(Look(before, b), peer, slower, endGame) && Look(after, b) == Take(Look(before, b), peer))
    && (forall b :: b !in res ==> Look(after, b) == Look(before, b))
  }

  /** What never changes while picking in the listed pieces. */
  ghost predicate SameShape(a: seq<Piece>, b: seq<Piece>) {
    && |a| == |b|
    && forall j :: 0 <= j < |a| ==> a[j].pieceIndex == b[j].pieceIndex && |a[j].blocks| == |b[j].blocks|
  }

  /** The piece holds the block and it can be picked. */
  predicate Offers(p: Piece, b: PieceBlock, peer: Peer, slower: set<Peer>, endGame: bool) {
    && p.pieceIndex == b.pieceIndex && b.blockIndex < |p.blocks|
    && CanPick(p.blocks[b.blockIndex], peer, slower, endGame)
  }

  /** What picking from the pieces from j on returns and changes. */
  ghost predicate TookFrom(dps: seq<Piece>, j: nat, after: seq<Piece>, res: seq<PieceBlock>, peer: Peer,
          slower: set<Peer>, endGame: bool) {
    && SameShape(dps, after)
    && (forall i :: 0 <= i < j && i < |dps| ==> after[i] == dps[i])
    && (forall b :: b in res ==> exists i :: j <= i < |dps| && Offers(dps[i], b, peer, slower, endGame))
    && (forall i, k :: j <= i < |dps| && 0 <= k < |dps[i].blocks| ==>
          after[i].blocks[k] == if PieceBlock(dps[i].pieceIndex, k) in res then Take(dps[i].blocks[k], peer)
                                else dps[i].blocks[k])
  }

  /** No block on offer in the pieces from j on is left out. */
  ghost predicate AllTaken(dps: seq<Piece>, j: nat, res: seq<PieceBlock>, peer: Peer, slower: set<Peer>,
          endGame: bool) {
    forall i, b :: j <= i < |dps| && Offers(dps[i], b, peer, slower, endGame) ==> b in res
  }

  lemma PickPieceTakes(p: Piece, n: int, peer: Peer, slower: set<Peer>, endGame: bool)
    ensures var (q, res) := PickPiece(p, n, peer, slower, endGame);
            && q.pieceIndex == p.pieceIndex && |q.blocks| == |p.blocks|
            && Distinct(res) && |res| <= (if n < 0 then 0 else n)
            && (forall b :: b in res ==> b.pieceIndex == p.pieceIndex && b.blockIndex < |p.blocks|
                                         && CanPick(p.blocks[b.blockIndex], peer, slower, endGame))
            && (forall k :: 0 <= k < |p.blocks| ==>
                  q.blocks[k] == if PieceBlock(p.pieceIndex, k) in res then Take(p.blocks[k], peer) else p.blocks[k])
            && (|res| < n ==> forall k :: 0 <= k < |p.blocks| && CanPick(p.blocks[k], peer, slower, endGame)
                                          ==> PieceBlock(p.pieceIndex, k) in res)
  {
    PickFromPicks(p.blocks, 0, n, peer, slower, endGame);
    var (after, ks) := PickFrom(p.blocks, 0, n, peer, slower, endGame);
    var res := OfPiece(p.pieceIndex, ks);
    assert |res| == |ks|;
    forall k: nat
      ensures PieceBlock(p.pieceIndex, k) in res <==> k in ks
    {
      if k in ks {
        var i :| 0 <= i < |ks| && ks[i] == k;
        assert res[i] == PieceBlock(p.pieceIndex, k);
      }
    }
  }

  lemma {:induction false} AddFromTakes(dps: seq<Piece>, j: nat, n: int, peer: Peer, slower: set<Peer>, endGame: bool)
    requires DistinctPieces(dps)
    ensures var (after, res) := AddFrom(dps, j, n, peer, slower, endGame);
            && TookFrom(dps, j, after, res, peer, slower, endGame)
            && Distinct(res) && |res| <= (if n < 0 then 0 else n)
            && (|res| < n ==> AllTaken(dps, j, res, peer, slower, endGame))
    decreases |dps| - j
  {
    hide CanPick, PickPiece;
    if j < |dps| {
      var (p, picked) := PickPiece(dps[j], n, peer, slower, endGame);
      PickPieceTakes(dps[j], n, peer, slower, endGame);
      var dps' := dps[j := p];
      var m := n - |picked|;
      AddFromTakes(dps', j + 1, m, peer, slower, endGame);
      var (after, more) := AddFrom(dps', j + 1, m, peer, slower, endGame);
      MoreIsOther(dps, j, p, picked, after, more, peer, slower, endGame);
      hide TookFrom, AllTaken, DistinctPieces;
      AddFromJoins(dps, j, p, picked, after, more, peer, slower, endGame);
    }
  }

  lemma PickPieceIsFirst(p: Piece, n: int, peer: Peer, slower: set<Peer>, endGame: bool, x: PieceBlock, b: PieceBlock)
    requires Offers(p, x, peer, slower, endGame) && x.blockIndex < b.blockIndex
    requires b in PickPiece(p, n, peer, slower, endGame).1
    ensures x in PickPiece(p, n, peer, slower, endGame).1
  {
    hide CanPick;
    PickFromPicks(p.blocks, 0, n, peer, slower, endGame);
    var ks := PickFrom(p.blocks, 0, n, peer, slower, endGame).1;
    assert OfPiece(p.pieceIndex, ks) == PickPiece(p, n, peer, slower, endGame).1;
    hide PickFrom;
    var i :| 0 <= i < |ks| && OfPiece(p.pieceIndex, ks)[i] == b;
    assert b.blockIndex == ks[i] && ks[i] in ks;
    PickFromIsFirst(p.blocks, 0, n, peer, slower, endGame, x.blockIndex, b.blockIndex);
    var j :| 0 <= j < |ks| && ks[j] == x.blockIndex;
    assert OfPiece(p.pieceIndex, ks)[j] == x;
  }

  /** b comes behind x in the list of pieces, x being of piece i. */
  ghost predicate Behind(dps: seq<Piece>, j: nat, i: nat, x: PieceBlock, b: PieceBlock)
    requires i < |dps|
  {
    || (b.pieceIndex == dps[i].pieceIndex && x.blockIndex < b.blockIndex)
    || forall l :: j <= l <= i ==> dps[l].pieceIndex != b.pieceIndex
  }

  /** Of the blocks on offer in the list the first ones are taken. */
  lemma {:induction false} AddFromIsFirst(dps: seq<Piece>, j: nat, n: int, peer: Peer, slower: set<Peer>, endGame: bool,
          i: nat, x: PieceBlock, b: PieceBlock)
    requires DistinctPieces(dps) && j <= i < |dps| && Offers(dps[i], x, peer, slower, endGame)
    requires Behind(dps, j, i, x, b)
    requires b in AddFrom(dps, j, n, peer, slower, endGame).1
    ensures x in AddFrom(dps, j, n, peer, slower, endGame).1
    decreases |dps| - j
  {
    hide CanPick, PickPiece;
    var (p, picked) := PickPiece(dps[j], n, peer, slower, endGame);
    var dps', m := dps[j := p], n - |picked|;
    PickPieceTakes(dps[j], n, peer, slower, endGame);
    AddFromTakes(dps', j + 1, m, peer, slower, endGame);
    var (after, more) := AddFrom(dps', j + 1, m, peer, slower, endGame);
    MoreIsOther(dps, j, p, picked, after, more, peer, slower, endGame);
    hide TookFrom, AllTaken;
    if i == j {
      if b in picked {
        PickPieceIsFirst(dps[j], n, peer, slower, endGame, x, b);
      } else {
        assert more != [];
        assert PieceBlock(dps[j].pieceIndex, x.blockIndex) in picked;
      }
    } else {
      assert b !in picked;
      assert forall l :: j + 1 <= l <= i ==> dps'[l] == dps[l];
      AddFromIsFirst(dps', j + 1, m, peer, slower, endGame, i, x, b);
    }
  }

  /** What is taken from the pieces after j is no block of piece j. */
  lemma MoreIsOther(dps: seq<Piece>, j: nat, p: Piece, picked: seq<PieceBlock>, after: seq<Piece>,
          more: seq<PieceBlock>, peer: Peer, slower: set<Peer>, endGame: bool)
    requires DistinctPieces(dps) && j < |dps|
    requires forall b: PieceBlock :: b in picked ==> b.pieceIndex == dps[j].pieceIndex
    requires TookFrom(dps[j := p], j + 1, after, more, peer, slower, endGame)
    ensures forall b :: b in more ==>
              b !in picked && exists i :: j <= i < |dps| && Offers(dps[i], b, peer, slower, endGame)
  {
    hide CanPick;
    var dps' := dps[j := p];
    forall b | b in more
      ensures b !in picked && exists i :: j <= i < |dps| && Offers(dps[i], b, peer, slower, endGame)
    {
      var i :| j + 1 <= i < |dps'| && Offers(dps'[i], b, peer, slower, endGame);
      assert dps'[i] == dps[i];
    }
  }

  lemma DistinctConcat(a: seq<PieceBlock>, b: seq<PieceBlock>)
    requires Distinct(a) && Distinct(b) && forall x :: x in b ==> x !in a
    ensures Distinct(a + b)
  {
    var s := a + b;
    forall i, j | 0 <= i < j < |s|
      ensures s[i] != s[j]
    {
      if i < |a| <= j {
        assert b[j - |a|] in b && a[i] in a;
      }
    }
  }

  /** Taking from piece j and then from the pieces after it. */
  lemma AddFromJoins(dps: seq<Piece>, j: nat, p: Piece, picked: seq<PieceBlock>, after: seq<Piece>,
          more: seq<PieceBlock>, peer: Peer, slower: set<Peer>, endGame: bool)
    requires DistinctPieces(dps) && j < |dps|
    requires p.pieceIndex == dps[j].pieceIndex && |p.blocks| == |dps[j].blocks|
    requires Distinct(picked) && forall b :: b in picked ==> Offers(dps[j], b, peer, slower, endGame)
    requires forall k :: 0 <= k < |p.blocks| ==>
               p.blocks[k] == if PieceBlock(p.pieceIndex, k) in picked then Take(dps[j].blocks[k], peer)
                              else dps[j].blocks[k]
    requires TookFrom(dps[j := p], j + 1, after, more, peer, slower, endGame) && Distinct(more)
    requires forall b :: b in more ==>
               b !in picked && exists i :: j <= i < |dps| && Offers(dps[i], b, peer, slower, endGame)
    ensures TookFrom(dps, j, after, picked + more, peer, slower, endGame) && Distinct(picked + more)
    ensures AllTaken(dps[j := p], j + 1, more, peer, slower, endGame)
            && (forall b :: Offers(dps[j], b, peer, slower, endGame) ==> b in picked)
            ==> AllTaken(dps, j, picked + more, peer, slower, endGame)
  {
    var dps', res := dps[j := p], picked + more;
    DistinctConcat(picked, more);
    assert after[j] == p;
    forall b | b in more
      ensures b.pieceIndex != dps[j].pieceIndex
    {
      var i :| j + 1 <= i < |dps'| && Offers(dps'[i], b, peer, slower, endGame);
      assert dps'[i] == dps[i];
    }
    forall i, k | j <= i < |dps| && 0 <= k < |dps[i].blocks|
      ensures after[i].blocks[k] == if PieceBlock(dps[i].pieceIndex, k) in res then Take(dps[i].blocks[k], peer)
                                    else dps[i].blocks[k]
    {
      if j < i {
        assert dps'[i] == dps[i];
      }
    }
    if AllTaken(dps', j + 1, more, peer, slower, endGame)
       && (forall b :: Offers(dps[j], b, peer, slower, endGame) ==> b in picked)
    {
      forall i, b | j <= i < |dps| && Offers(dps[i], b, peer, slower, endGame)
        ensures b in res
      {
        if j < i {
          assert dps'[i] == dps[i];
        }
      }
    }
  }

  lemma {:induction false} IndexSame(a: seq<Piece>, b: seq<Piece>, piece: nat)
    requires SameShape(a, b)
    ensures IndexOf(a, piece) == IndexOf(b, piece)
  {
    if a != [] && a[0].pieceIndex != piece {
      IndexSame(a[1..], b[1..], piece);
    }
  }

  /** Some block of the picker can be picked by this peer. */
  ghost predicate Available(pk: Picker, b: PieceBlock, peer: Peer, slower: set<Peer>, endGame: bool) {
    CanPick(Look(pk, b), peer, slower, endGame)
  }

  /** Passes over the list: of the listed blocks, all that are available are taken or n are. */
  ghost predicate Pass(pk: Picker, after: Picker, res: seq<PieceBlock>, n: int, peer: Peer, slower: set<Peer>,
          endGame: bool) {
    && WellFormed(after) && after.pieces == pk.pieces && (Sized(pk) ==> Sized(after))
    && SameShape(pk.downloading, after.downloading) && after.blocksInLastPiece == pk.blocksInLastPiece
    && Picked(pk, after, res, peer, slower, endGame)
    && (forall b: PieceBlock :: b in res ==> Listed(pk, b.pieceIndex))
    && |res| <= (if n < 0 then 0 else n)
    && (|res| < n ==>
          forall b: PieceBlock :: Listed(pk, b.pieceIndex) && Available(pk, b, peer, slower, endGame) ==> b in res)
  }

  lemma TookIsPicked(pk: Picker, after: Picker, res: seq<PieceBlock>, b: PieceBlock, peer: Peer, slower: set<Peer>,
          endGame: bool)
    requires WellFormed(pk) && after == pk.(downloading := after.downloading)
    requires TookFrom(pk.downloading, 0, after.downloading, res, peer, slower, endGame)
    ensures b in res ==> Listed(pk, b.pieceIndex) && Available(pk, b, peer, slower, endGame)
    ensures Look(after, b) == if b in res then Take(Look(pk, b), peer) else Look(pk, b)
  {
    var dps := pk.downloading;
    IndexSame(dps, after.downloading, b.pieceIndex);
    if b in res {
      var i :| 0 <= i < |dps| && Offers(dps[i], b, peer, slower, endGame);
      IndexIs(dps, i);
    }
  }

  lemma AddBlocksPicks(pk: Picker, n: int, peer: Peer, slower: set<Peer>, endGame: bool)
    requires WellFormed(pk)
    ensures var (after, res) := AddBlocks(pk, n, peer, slower, endGame);
            Pass(pk, after, res, n, peer, slower, endGame)
  {
    hide Look, AddFrom, CanPick;
    var dps := pk.downloading;
    var (after, res) := AddBlocks(pk, n, peer, slower, endGame);
    AddFromTakes(dps, 0, n, peer, slower, endGame);
    forall b: PieceBlock
      ensures b in res ==> Listed(pk, b.pieceIndex) && Available(pk, b, peer, slower, endGame)
      ensures Look(after, b) == if b in res then Take(Look(pk, b), peer) else Look(pk, b)
    {
      TookIsPicked(pk, after, res, b, peer, slower, endGame);
    }
    forall b: PieceBlock | |res| < n && Listed(pk, b.pieceIndex) && Available(pk, b, peer, slower, endGame)
      ensures b in res
    {
      ListedIsOffered(pk, b, peer, slower, endGame);
    }
  }

  lemma ListedIsOffered(pk: Picker, b: PieceBlock, peer: Peer, slower: set<Peer>, endGame: bool)
    requires Listed(pk, b.pieceIndex) && Available(pk, b, peer, slower, endGame)
    ensures Offers(PieceAt(pk, b.pieceIndex), b, peer, slower, endGame)
  {
  }

  lemma TwoPassesPick(pk: Picker, n: int, peer: Peer, slower: set<Peer>, slow: bool)
    requires WellFormed(pk)
    ensures var (after, res) := TwoPasses(pk, n, peer, slower, slow);
            Pass(pk, after, res, n, peer, slower, !slow)
  {
    hide Look, AddBlocks, CanPick;
    AddBlocksPicks(pk, n, peer, slower, false);
    var (pk1, plain) := AddBlocks(pk, n, peer, slower, false);
    if !slow && |plain| < n {
      AddBlocksPicks(pk1, n - |plain|, peer, slower, true);
      var (pk2, again) := AddBlocks(pk1, n - |plain|, peer, slower, true);
      PickedTwice(pk, pk1, pk2, plain, again, peer, slower, false, true);
      forall b: PieceBlock | b in again
        ensures Listed(pk, b.pieceIndex)
      {
        IndexSame(pk.downloading, pk1.downloading, b.pieceIndex);
      }
      forall b: PieceBlock | |plain + again| < n && Listed(pk, b.pieceIndex) && Available(pk, b, peer, slower, true)
        ensures b in plain + again
      {
        IndexSame(pk.downloading, pk1.downloading, b.pieceIndex);
        if b !in plain {
          assert Available(pk1, b, peer, slower, true);
        }
      }
    } else if !slow {
      PickedMore(pk, pk1, plain, peer, slower);
    }
  }

  lemma PickedMore(pk: Picker, after: Picker, res: seq<PieceBlock>, peer: Peer, slower: set<Peer>)
    requires Picked(pk, after, res, peer, slower, false)
    ensures Picked(pk, after, res, peer, slower, true)
  {
  }

  lemma ChosenIndex(pk: Picker, p: nat)
    requires WellFormed(pk) && FirstUnset(pk.pieces) < |pk.pieces|
    ensures !Listed(pk, FirstUnset(pk.pieces))
    ensures IndexOf(Choose(pk).downloading, p)
            == if Listed(pk, p) then IndexOf(pk.downloading, p)
               else if p == FirstUnset(pk.pieces) then |pk.downloading| else |pk.downloading| + 1
  {
    IndexAppend(pk.downloading, Choose(pk).downloading[|pk.downloading|], p);
  }

  lemma ChooseLook(pk: Picker, b: PieceBlock)
    requires WellFormed(pk) && FirstUnset(pk.pieces) < |pk.pieces|
    ensures Look(Choose(pk), b) == Look(pk, b)
  {
    ChosenIndex(pk, b.pieceIndex);
    hide WellFormed, FirstUnset, IndexOf;
    var i := FirstUnset(pk.pieces);
    assert Choose(pk).downloading[|pk.downloading|] == NewPiece(i, BlocksIn(pk, i));
  }

  lemma ChooseWellFormed(pk: Picker)
    requires WellFormed(pk) && FirstUnset(pk.pieces) < |pk.pieces|
    ensures WellFormed(Choose(pk)) && (Sized(pk) ==> Sized(Choose(pk)))
  {
  }

  /** Starting a new piece changes the state of no block. */
  lemma ChooseKeepsBlocks(pk: Picker)
    requires WellFormed(pk) && FirstUnset(pk.pieces) < |pk.pieces|
    ensures WellFormed(Choose(pk)) && (Sized(pk) ==> Sized(Choose(pk)))
    ensures forall b :: Look(Choose(pk), b) == Look(pk, b)
  {
    ChooseWellFormed(pk);
    hide WellFormed, FirstUnset, Choose, Sized, Look;
    forall b
      ensures Look(Choose(pk), b) == Look(pk, b)
    {
      ChooseLook(pk, b);
    }
  }

  lemma {:induction false} IndexAppend(dps: seq<Piece>, d: Piece, piece: nat)
    ensures IndexOf(dps + [d], piece) == if IndexOf(dps, piece) < |dps|
            || d.pieceIndex == piece then IndexOf(dps, piece) else |dps| + 1
  {
    if dps == [] {
      assert dps + [d] == [d];
    } else {
      assert (dps + [d])[0] == dps[0] && (dps + [d])[1..] == dps[1..] + [d];
      if dps[0].pieceIndex != piece {
        IndexAppend(dps[1..], d, piece);
      }
    }
  }

  /** Picking twice is picking once: what was taken first is not available again. */
  lemma PickedTwice(a: Picker, b: Picker, c: Picker, first: seq<PieceBlock>, second: seq<PieceBlock>,
                    peer: Peer, slower: set<Peer>, e1: bool, e2: bool)
    requires Picked(a, b, first, peer, slower, e1) && Picked(b, c, second, peer, slower, e2)
    ensures Picked(a, c, first + second, peer, slower, e1 || e2)
  {
    forall x | x in second
      ensures x !in first
    {
      assert CanPick(Look(b, x), peer, slower, e2);
    }
    DistinctConcat(first, second);
  }

  /** What one call of PickPieces guarantees at any speed of the peer: distinct
      blocks, each one free or, in end game, unfinished with fewer than two
      downloaders; fewer than asked for only when nothing else is available. */
  ghost predicate PickOutcome(pk: Picker, after: Picker, res: seq<PieceBlock>, n: int, peer: Peer, slower: set<Peer>,
          endGame: bool) {
    && WellFormed(after) && (Sized(pk) ==> Sized(after)) && |after.pieces| == |pk.pieces|
    && Picked(pk, after, res, peer, slower, endGame)
    && |res| <= (if n < 0 then 0 else n)
    && (|res| < n ==> forall b :: Available(pk, b, peer, slower, endGame) ==> b in res)
  }

  lemma AllStarted(pk: Picker, b: PieceBlock, peer: Peer, slower: set<Peer>, endGame: bool)
    requires FirstUnset(pk.pieces) == |pk.pieces| && Available(pk, b, peer, slower, endGame)
    ensures Listed(pk, b.pieceIndex)
  {
  }

  lemma PassThenRest(pk: Picker, mid: Picker, res: seq<PieceBlock>, start: Picker, after: Picker, more: seq<PieceBlock>,
                     n: int, peer: Peer, slower: set<Peer>, endGame: bool)
    requires Pass(pk, mid, res, n, peer, slower, endGame) && |res| < n
    requires WellFormed(start) && (Sized(mid) ==> Sized(start)) && |start.pieces| == |mid.pieces|
    requires forall b :: Look(start, b) == Look(mid, b)
    requires PickOutcome(start, after, more, n - |res|, peer, slower, endGame)
    ensures PickOutcome(pk, after, res + more, n, peer, slower, endGame)
  {
    hide Look, CanPick;
    PickedTwice(pk, mid, start, res, [], peer, slower, endGame, endGame);
    assert res + [] == res;
    PickedTwice(pk, start, after, res, more, peer, slower, endGame, endGame);
    forall b | |res + more| < n && Available(pk, b, peer, slower, endGame)
      ensures b in res + more
    {
      if b !in res {
        assert Available(start, b, peer, slower, endGame);
      }
    }
  }

  lemma {:induction false} PickPiecesPicks(pk: Picker, n: int, peer: Peer, slower: set<Peer>, slow: bool)
    requires WellFormed(pk)
    ensures var (after, res) := PickPieces(pk, n, peer, slower, slow);
            PickOutcome(pk, after, res, n, peer, slower, !slow)
    decreases Unset(pk.pieces)
  {
    hide Look, CanPick, TwoPasses, Picked;
    TwoPassesPick(pk, n, peer, slower, slow);
    var (mid, res) := TwoPasses(pk, n, peer, slower, slow);
    if |res| < n && FirstUnset(mid.pieces) < |mid.pieces| {
      ChooseUnsets(mid);
      ChooseKeepsBlocks(mid);
      var start := Choose(mid);
      PickPiecesPicks(start, n - |res|, peer, slower, slow);
      var (after, more) := PickPieces(start, n - |res|, peer, slower, slow);
      PassThenRest(pk, mid, res, start, after, more, n, peer, slower, !slow);
    } else {
      forall b | |res| < n && Available(pk, b, peer, slower, !slow)
        ensures b in res
      {
        AllStarted(pk, b, peer, slower, !slow);
      }
    }
  }

  // ----- which pieces a pick starts

  lemma ChooseLists(pk: Picker, p: nat)
    requires WellFormed(pk) && FirstUnset(pk.pieces) < |pk.pieces|
    ensures Listed(Choose(pk), p) <==> Listed(pk, p) || p == FirstUnset(pk.pieces)
    ensures Have(Choose(pk), p) <==> Have(pk, p)
    ensures Untouched(Choose(pk), p) <==> Untouched(pk, p) && p != FirstUnset(pk.pieces)
  {
    var i, next := FirstUnset(pk.pieces), Choose(pk);
    IndexAppend(pk.downloading, next.downloading[|pk.downloading|], p);
  }

  lemma PassLists(pk: Picker, after: Picker, res: seq<PieceBlock>, n: int, peer: Peer, slower: set<Peer>,
          endGame: bool, p: nat)
    requires Pass(pk, after, res, n, peer, slower, endGame)
    ensures Listed(after, p) <==> Listed(pk, p)
    ensures Have(after, p) <==> Have(pk, p)
    ensures Untouched(after, p) <==> Untouched(pk, p)
  {
    IndexSame(pk.downloading, after.downloading, p);
  }

  /** If everything listed but the new piece i is requested, picking goes to piece i first. */
  lemma NewPieceIsUsed(start: Picker, n: int, i: nat, peer: Peer, slower: set<Peer>, slow: bool)
    requires WellFormed(start) && 0 < n && Listed(start, i) && !Look(start, PieceBlock(i, 0)).requested
    requires forall b: PieceBlock :: Listed(start, b.pieceIndex) && b.pieceIndex != i ==> Look(start, b).requested
    ensures exists b: PieceBlock :: b in TwoPasses(start, n, peer, slower, slow).1 && b.pieceIndex == i
  {
    hide Look, AddBlocks;
    AddBlocksPicks(start, n, peer, slower, false);
    var (pk1, plain) := AddBlocks(start, n, peer, slower, false);
    var first := PieceBlock(i, 0);
    assert Available(start, first, peer, slower, false);
    var b := if first in plain then first else plain[0];
    assert b in plain && Available(start, b, peer, slower, false);
    assert b in TwoPasses(start, n, peer, slower, slow).1;
  }

  /** Started is what was untouched before, is listed now and has a block picked. */
  ghost predicate Started(pk: Picker, after: Picker, res: seq<PieceBlock>, p: nat) {
    Untouched(pk, p) && exists b: PieceBlock :: b in res && b.pieceIndex == p
  }

  /** What a pick does to one piece. */
  ghost predicate StartedIfUsed(pk: Picker, after: Picker, res: seq<PieceBlock>, p: nat) {
    && (Have(after, p) <==> Have(pk, p))
    && (Listed(pk, p) || Started(pk, after, res, p) ==> Listed(after, p))
    && (Listed(after, p) && 0 < BlocksIn(pk, p) ==> Listed(pk, p) || Started(pk, after, res, p))
  }

  /** Picking lists exactly the pieces it needs, and gives up none; of a piece
      without blocks, which a restarted transfer can have, it may need none. */
  lemma {:induction false} PickStartsUsedPieces(pk: Picker, n: int, peer: Peer, slower: set<Peer>, slow: bool)
    requires WellFormed(pk)
    ensures var (after, res) := PickPieces(pk, n, peer, slower, slow);
            && after.blocksInLastPiece == pk.blocksInLastPiece && |after.pieces| == |pk.pieces|
            && forall p: nat :: StartedIfUsed(pk, after, res, p)
    decreases Unset(pk.pieces)
  {
    hide Look, CanPick, TwoPasses, Picked;
    TwoPassesPick(pk, n, peer, slower, slow);
    var (mid, res) := TwoPasses(pk, n, peer, slower, slow);
    if |res| < n && FirstUnset(mid.pieces) < |mid.pieces| {
      var i, start := FirstUnset(mid.pieces), Choose(mid);
      ChooseUnsets(mid);
      ChooseKeepsBlocks(mid);
      PickStartsUsedPieces(start, n - |res|, peer, slower, slow);
      var (after, more) := PickPieces(start, n - |res|, peer, slower, slow);
      if 0 < BlocksIn(mid, i) {
        NewPieceUsed(pk, n, peer, slower, slow);
      }
      forall p: nat
        ensures StartedIfUsed(pk, after, res + more, p)
      {
        assert StartedIfUsed(start, after, more, p);
        PassLists(pk, mid, res, n, peer, slower, !slow, p);
        ChooseLists(mid, p);
        if Started(pk, after, res + more, p) {
          var b: PieceBlock :| b in res + more && b.pieceIndex == p;
          assert b in res ==> Listed(pk, p);
        }
      }
    } else {
      forall p: nat
        ensures StartedIfUsed(pk, mid, res, p)
      {
        PassLists(pk, mid, res, n, peer, slower, !slow, p);
      }
    }
  }

  lemma NewPieceUsed(pk: Picker, n: int, peer: Peer, slower: set<Peer>, slow: bool)
    requires WellFormed(pk)
    requires var (mid, res) := TwoPasses(pk, n, peer, slower, slow);
             |res| < n && FirstUnset(mid.pieces) < |mid.pieces| && 0 < BlocksIn(mid, FirstUnset(mid.pieces))
    ensures var (mid, res) := TwoPasses(pk, n, peer, slower, slow);
            exists b: PieceBlock :: b in PickPieces(Choose(mid), n - |res|, peer, slower, slow).1
                && b.pieceIndex == FirstUnset(mid.pieces)
  {
    hide TwoPasses;
    TwoPassesPick(pk, n, peer, slower, slow);
    var (mid, res) := TwoPasses(pk, n, peer, slower, slow);
    var i, start := FirstUnset(mid.pieces), Choose(mid);
    ChooseKeepsBlocks(mid);
    ChooseLists(mid, i);
    forall b: PieceBlock | Listed(start, b.pieceIndex) && b.pieceIndex != i
      ensures Look(start, b).requested
    {
      ChooseLists(mid, b.pieceIndex);
      PassLists(pk, mid, res, n, peer, slower, !slow, b.pieceIndex);
      assert !Look(pk, b).requested ==> Available(pk, b, peer, slower, !slow);
    }
    assert Look(mid, PieceBlock(i, 0)) == FRESH;
    NewPieceIsUsed(start, n - |res|, i, peer, slower, slow);
    var b: PieceBlock :| b in TwoPasses(start, n - |res|, peer, slower, slow).1 && b.pieceIndex == i;
    assert b in PickPieces(start, n - |res|, peer, slower, slow).1;
  }

  // ----- how many blocks a pick returns

  ghost function AvailableBlocks(pk: Picker, peer: Peer, slower: set<Peer>, endGame: bool): set<PieceBlock> {
    set p: nat, k: nat | p < |pk.pieces| && k < BLOCKS_PER_PIECE
        && Available(pk, PieceBlock(p, k), peer, slower, endGame)
      :: PieceBlock(p, k)
  }

  /** The blocks nobody has requested, those of untouched pieces included. */
  ghost function FreeBlocks(pk: Picker): set<PieceBlock> {
    set p: nat, k: nat | p < |pk.pieces| && k < BLOCKS_PER_PIECE
        && !Look(pk, PieceBlock(p, k)).requested :: PieceBlock(p, k)
  }

  lemma {:induction false} DistinctCardinality(bs: seq<PieceBlock>)
    requires Distinct(bs)
    ensures |set b | b in bs| == |bs|
  {
    if bs != [] {
      var n := |bs| - 1;
      DistinctCardinality(bs[..n]);
      assert (set b | b in bs) == (set b | b in bs[..n]) + {bs[n]};
    } else {
      assert (set b | b in bs) == {};
    }
  }

  lemma AvailableIsInFile(pk: Picker, b: PieceBlock, peer: Peer, slower: set<Peer>, endGame: bool)
    requires WellFormed(pk) && Sized(pk)
    ensures Available(pk, b, peer, slower, endGame) <==> b in AvailableBlocks(pk, peer, slower, endGame)
    ensures !Look(pk, b).requested <==> b in FreeBlocks(pk)
  {
    assert b == PieceBlock(b.pieceIndex, b.blockIndex);
  }

  /** A pick returns as many blocks as were asked for, or all that are available. */
  lemma PickPiecesExact(pk: Picker, n: nat, peer: Peer, slower: set<Peer>, slow: bool)
    requires WellFormed(pk) && Sized(pk)
    ensures var (after, res) := PickPieces(pk, n, peer, slower, slow);
            var available := AvailableBlocks(pk, peer, slower, !slow);
            |res| == Min(n, |available|) && forall b :: b in res ==> b in available
  {
    hide Look, CanPick;
    PickPiecesPicks(pk, n, peer, slower, slow);
    var (after, res) := PickPieces(pk, n, peer, slower, slow);
    var available := AvailableBlocks(pk, peer, slower, !slow);
    var picked := set b | b in res;
    DistinctCardinality(res);
    forall b | b in res
      ensures b in available
    {
      AvailableIsInFile(pk, b, peer, slower, !slow);
      assert Available(pk, b, peer, slower, !slow);
    }
    Subsets(picked, available);
    if |res| < n {
      forall b | b in available
        ensures b in picked
      {
        AvailableIsInFile(pk, b, peer, slower, !slow);
      }
      assert picked == available;
    }
  }

  lemma Subsets(a: set<PieceBlock>, b: set<PieceBlock>)
    requires a <= b
    ensures |a| <= |b|
  {
    assert b == a + (b - a);
  }

  /** For a slow peer the blocks are free ones, and they are what stops being free. */
  lemma SlowPickTakesFreeBlocks(pk: Picker, n: nat, peer: Peer, slower: set<Peer>)
    requires WellFormed(pk) && Sized(pk)
    ensures var (after, res) := PickPieces(pk, n, peer, slower, true);
            && |res| == Min(n, |FreeBlocks(pk)|)
            && (forall b :: b in res ==> b in FreeBlocks(pk))
            && FreeBlocks(after) == FreeBlocks(pk) - set b | b in res
  {
    PickPiecesExact(pk, n, peer, slower, true);
    PickPiecesPicks(pk, n, peer, slower, true);
    var (after, res) := PickPieces(pk, n, peer, slower, true);
    forall b
      ensures Available(pk, b, peer, slower, false) <==> !Look(pk, b).requested
    {
    }
    assert AvailableBlocks(pk, peer, slower, false) == FreeBlocks(pk);
    forall b
      ensures b in FreeBlocks(after) <==> b in FreeBlocks(pk) && b !in res
    {
      AvailableIsInFile(pk, b, peer, slower, false);
      AvailableIsInFile(after, b, peer, slower, false);
    }
  }

  // ----- downloader counts

  /** A finished block stays requested; an unfinished one is requested exactly
      while it has downloaders, and has at most two. */
  predicate CountsOk(b: BlockState) {
    if b.finished then b.requested
    else 0 <= b.downloadersCount <= 2 && (b.requested <==> 0 < b.downloadersCount)
  }

  ghost predicate AllCountsOk(pk: Picker) {
    forall b :: CountsOk(Look(pk, b))
  }

  /** Picking keeps the counts in order; what it requests again had one
      downloader, who was forgotten or slower. */
  lemma PickKeepsCounts(pk: Picker, n: int, peer: Peer, slower: set<Peer>, slow: bool)
    requires WellFormed(pk) && AllCountsOk(pk)
    ensures var (after, res) := PickPieces(pk, n, peer, slower, slow);
            && AllCountsOk(after)
            && forall b :: b in res ==>
                 var was := Look(pk, b);
                 && !was.finished
                 && (was.requested ==> !slow && was.downloadersCount == 1
                                       && (was.lastDownloader == null || was.lastDownloader in slower))
                 && (!was.requested ==> was.downloadersCount == 0)
  {
    PickPiecesPicks(pk, n, peer, slower, slow);
    var (after, res) := PickPieces(pk, n, peer, slower, slow);
    hide PickPieces, Look;
    forall b
      ensures CountsOk(Look(after, b))
    {
      assert CountsOk(Look(pk, b));
    }
  }

  // ----- which blocks come first

  /** A pass takes the blocks on offer that come first in the list of pieces. */
  lemma AddBlocksIsFirst(pk: Picker, n: int, peer: Peer, slower: set<Peer>, endGame: bool, x: PieceBlock, b: PieceBlock)
    requires WellFormed(pk) && Listed(pk, x.pieceIndex) && Listed(pk, b.pieceIndex)
    requires Available(pk, x, peer, slower, endGame) && b in AddBlocks(pk, n, peer, slower, endGame).1
    requires || IndexOf(pk.downloading, x.pieceIndex) < IndexOf(pk.downloading, b.pieceIndex)
             || (x.pieceIndex == b.pieceIndex && x.blockIndex < b.blockIndex)
    ensures x in AddBlocks(pk, n, peer, slower, endGame).1
  {
    hide AddFrom, CanPick;
    ListedIsOffered(pk, x, peer, slower, endGame);
    AddFromIsFirst(pk.downloading, 0, n, peer, slower, endGame, IndexOf(pk.downloading, x.pieceIndex), x, b);
  }

  /** Before any block is requested again, every free block of the started pieces is picked; and before a
      new piece is started, everything on offer in the started ones is, end game included. */
  lemma PickOrder(pk: Picker, n: int, peer: Peer, slower: set<Peer>, slow: bool, x: PieceBlock, b: PieceBlock)
    requires WellFormed(pk) && Listed(pk, x.pieceIndex) && b in PickPieces(pk, n, peer, slower, slow).1
    ensures Look(pk, b).requested && !Look(pk, x).requested ==> x in PickPieces(pk, n, peer, slower, slow).1
    ensures !Listed(pk, b.pieceIndex) && Available(pk, x, peer, slower, !slow)
            ==> x in PickPieces(pk, n, peer, slower, slow).1
  {
    hide Look, AddBlocks, Picked;
    TwoPassesPick(pk, n, peer, slower, slow);
    AddBlocksPicks(pk, n, peer, slower, false);
    var (mid, res) := TwoPasses(pk, n, peer, slower, slow);
    var (pk1, plain) := AddBlocks(pk, n, peer, slower, false);
    if b in plain {
      PickedIsAvailable(pk, pk1, plain, peer, slower, false, b);
    }
  }

  // ----- end game

  /** The block is not finished, has one downloader, and that one is forgotten or slower than the peer. */
  predicate SlowerHolds(b: BlockState, peer: Peer, slower: set<Peer>) {
    && b.requested && !b.finished && b.downloadersCount == 1
    && (b.lastDownloader == null || (b.lastDownloader in slower && b.lastDownloader != peer))
  }

  /** A peer that is not slow gets no other blocks than the free ones and those a slower peer holds
      alone, and when it gets fewer than it asked for, it got all of these. */
  lemma EndGamePicksIff(pk: Picker, n: int, peer: Peer, slower: set<Peer>)
    requires WellFormed(pk) && AllCountsOk(pk)
    ensures var res := PickPieces(pk, n, peer, slower, false).1;
            forall b ::
              var was := Look(pk, b);
              && (b in res ==> !was.requested || SlowerHolds(was, peer, slower))
              && (|res| < n && (!was.requested || SlowerHolds(was, peer, slower)) ==> b in res)
  {
    PickPiecesPicks(pk, n, peer, slower, false);
    var res := PickPieces(pk, n, peer, slower, false).1;
    hide PickPieces, Look, Picked;
    forall b
      ensures Available(pk, b, peer, slower, true)
              <==> !Look(pk, b).requested || SlowerHolds(Look(pk, b), peer, slower)
    {
      assert CountsOk(Look(pk, b));
    }
    assert Picked(pk, PickPieces(pk, n, peer, slower, false).0, res, peer, slower, true);
    forall b | b in res
      ensures Available(pk, b, peer, slower, true)
    {
      PickedIsAvailable(pk, PickPieces(pk, n, peer, slower, false).0, res, peer, slower, true, b);
    }
  }

  lemma PickedIsAvailable(pk: Picker, after: Picker, res: seq<PieceBlock>, peer: Peer, slower: set<Peer>,
          endGame: bool, b: PieceBlock)
    requires Picked(pk, after, res, peer, slower, endGame) && b in res
    ensures Available(pk, b, peer, slower, endGame) && Look(after, b) == Take(Look(pk, b), peer)
  {
  }

  /** A block picked free by one peer: another one that is not slow is given it too exactly when it is
      faster, and after that nobody is, until one of the two gives it back. */
  lemma FasterTakesOver(pk: Picker, n: int, first: Peer, slower: set<Peer>, slow: bool, m: int, second: Peer,
          slower2: set<Peer>, k: int, third: Peer, slower3: set<Peer>, slow3: bool, b: PieceBlock)
    requires WellFormed(pk) && AllCountsOk(pk)
    requires !Look(pk, b).requested && b in PickPieces(pk, n, first, slower, slow).1
    ensures var pk1 := PickPieces(pk, n, first, slower, slow).0;
            var (pk2, res2) := PickPieces(pk1, m, second, slower2, false);
            && (b in res2 ==> first in slower2 && first != second)
            && (|res2| < m && first in slower2 && first != second ==> b in res2)
            && (b in res2 ==> b !in PickPieces(pk2, k, third, slower3, slow3).1)
  {
    PickPiecesPicks(pk, n, first, slower, slow);
    PickKeepsCounts(pk, n, first, slower, slow);
    var (pk1, res1) := PickPieces(pk, n, first, slower, slow);
    hide PickPieces, Look, Picked;
    PickedIsAvailable(pk, pk1, res1, first, slower, !slow, b);
    EndGamePicksIff(pk1, m, second, slower2);
    PickPiecesPicks(pk1, m, second, slower2, false);
    PickKeepsCounts(pk1, m, second, slower2, false);
    var (pk2, res2) := PickPieces(pk1, m, second, slower2, false);
    if b in res2 {
      PickedIsAvailable(pk1, pk2, res2, second, slower2, true, b);
      PickKeepsCounts(pk2, k, third, slower3, slow3);
    }
  }

  // ----- the other operations

  function Update(pk: Picker, b: PieceBlock, s: BlockState): Picker
    requires Listed(pk, b.pieceIndex) && b.blockIndex < |PieceAt(pk, b.pieceIndex).blocks|
  {
    var j := IndexOf(pk.downloading, b.pieceIndex);
    var dp := pk.downloading[j];
    pk.(downloading := pk.downloading[j := dp.(blocks := dp.blocks[b.blockIndex := s])])
  }

  lemma UpdateLookAt(pk: Picker, b: PieceBlock, s: BlockState, x: PieceBlock)
    requires Listed(pk, b.pieceIndex) && b.blockIndex < |PieceAt(pk, b.pieceIndex).blocks|
    ensures SameShape(pk.downloading, Update(pk, b, s).downloading)
    ensures Look(Update(pk, b, s), x) == if x == b then s else Look(pk, x)
  {
    IndexSame(pk.downloading, Update(pk, b, s).downloading, x.pieceIndex);
  }

  lemma UpdateLook(pk: Picker, b: PieceBlock, s: BlockState)
    requires WellFormed(pk) && Listed(pk, b.pieceIndex) && b.blockIndex < |PieceAt(pk, b.pieceIndex).blocks|
    ensures WellFormed(Update(pk, b, s)) && (Sized(pk) ==> Sized(Update(pk, b, s)))
    ensures SameShape(pk.downloading, Update(pk, b, s).downloading)
    ensures forall x :: Look(Update(pk, b, s), x) == if x == b then s else Look(pk, x)
  {
    hide Look;
    UpdateLookAt(pk, b, s, b);
    forall x
      ensures Look(Update(pk, b, s), x) == if x == b then s else Look(pk, x)
    {
      UpdateLookAt(pk, b, s, x);
    }
  }

  /** Abort and finish find the piece in the list or do nothing. */
  function Abort(pk: Picker, b: PieceBlock, peer: Peer): Picker
    requires Listed(pk, b.pieceIndex) ==> b.blockIndex < |PieceAt(pk, b.pieceIndex).blocks|
  {
    if Listed(pk, b.pieceIndex) then Update(pk, b, AbortBlockState(Look(pk, b), peer)) else pk
  }

  /** When one of two downloaders gives a block back, the other one has it: only a faster peer than the
      one remembered is given it, unless it was that one who gave it back, which leaves nobody remembered. */
  lemma AbortRemembersOther(pk: Picker, b: PieceBlock, leaver: Peer, n: int, peer: Peer, slower: set<Peer>)
    requires WellFormed(pk) && AllCountsOk(pk) && Listed(pk, b.pieceIndex)
             && b.blockIndex < |PieceAt(pk, b.pieceIndex).blocks|
    requires var was := Look(pk, b); !was.finished && was.downloadersCount == 2 && was.lastDownloader != null
    ensures var res := PickPieces(Abort(pk, b, leaver), n, peer, slower, false).1;
            var last := Look(pk, b).lastDownloader;
            var offered := last.endpoint == leaver.endpoint || (last in slower && last != peer);
            && (b in res ==> offered)
            && (|res| < n && offered ==> b in res)
  {
    var after := Abort(pk, b, leaver);
    UpdateLook(pk, b, AbortBlockState(Look(pk, b), leaver));
    hide PickPieces, Look, Abort, Update, WellFormed, Listed;
    forall x
      ensures CountsOk(Look(after, x))
    {
      assert CountsOk(Look(pk, x));
    }
    EndGamePicksIff(after, n, peer, slower);
  }

  function Finish(pk: Picker, b: PieceBlock): Picker
    requires Listed(pk, b.pieceIndex) ==> b.blockIndex < |PieceAt(pk, b.pieceIndex).blocks|
  {
    if Listed(pk, b.pieceIndex) then Update(pk, b, FinishBlockState(Look(pk, b))) else pk
  }

  /** The last element takes the place of the removed one. */
  function RemoveAt<T>(s: seq<T>, i: nat): seq<T>
    requires i < |s|
  {
    s[i := s[|s| - 1]][..|s| - 1]
  }

  function RemovePiece(pk: Picker, piece: nat): Picker
    requires Listed(pk, piece)
  {
    pk.(downloading := RemoveAt(pk.downloading, IndexOf(pk.downloading, piece)))
  }

  predicate AllFinished(p: Piece) {
    CountTrue(Finished(p.blocks)) == |p.blocks|
  }

  /** Where SetHave does not panic. */
  predicate CanSetHave(pk: Picker, piece: nat) {
    && piece < |pk.pieces| && pk.pieces[piece]
    && (Listed(pk, piece) ==> AllFinished(PieceAt(pk, piece)))
  }

  function SetHave(pk: Picker, piece: nat): Picker
    requires CanSetHave(pk, piece)
  {
    if Listed(pk, piece) then RemovePiece(pk, piece) else pk
  }

  function RemoveDownloadingPiece(pk: Picker, piece: nat): Picker
    requires piece < |pk.pieces|
  {
    if Listed(pk, piece) then RemovePiece(pk, piece).(pieces := pk.pieces[piece := false]) else pk
  }

  predicate IsFinished(pk: Picker) {
    CountTrue(pk.pieces) == |pk.pieces| && |pk.downloading| == 0
  }

  /** Swap-removal takes exactly one piece off the list. */
  lemma RemovePieceList(pk: Picker, piece: nat, q: nat)
    requires WellFormed(pk) && Listed(pk, piece)
    ensures var after := RemovePiece(pk, piece);
            && (Listed(after, q) <==> Listed(pk, q) && q != piece)
            && (Listed(after, q) ==> PieceAt(after, q) == PieceAt(pk, q))
  {
    var dps, i := pk.downloading, IndexOf(pk.downloading, piece);
    var after := RemovePiece(pk, piece);
    var j := IndexOf(dps, q);
    if j < |dps| && q != piece {
      IndexIs(after.downloading, if j == |dps| - 1 then i else j);
    }
  }

  lemma RemovePieceLook(pk: Picker, piece: nat)
    requires WellFormed(pk) && Listed(pk, piece)
    ensures var after := RemovePiece(pk, piece);
            && WellFormed(after) && (Sized(pk) ==> Sized(after)) && Have(after, piece)
            && forall x: PieceBlock :: Look(after, x) == if x.pieceIndex == piece then DONE else Look(pk, x)
  {
    var after := RemovePiece(pk, piece);
    RemovePieceList(pk, piece, piece);
    assert PieceAt(pk, piece) in pk.downloading;
    forall x: PieceBlock
      ensures Look(after, x) == if x.pieceIndex == piece then DONE else Look(pk, x)
    {
      RemovePieceList(pk, piece, x.pieceIndex);
    }
  }

  lemma FinishedIffAllHave(pk: Picker)
    requires WellFormed(pk)
    ensures IsFinished(pk) <==> forall p: nat :: p < |pk.pieces| ==> Have(pk, p)
  {
    CountAllIff(pk.pieces, |pk.pieces|);
    if pk.downloading != [] {
      IndexIs(pk.downloading, 0);
      assert !Have(pk, pk.downloading[0].pieceIndex) && pk.downloading[0].pieceIndex < |pk.pieces|;
    }
    forall i | 0 <= i < |pk.pieces|
      ensures pk.downloading == [] ==> (pk.pieces[i] <==> Have(pk, i))
    {
    }
  }
}
