/** The block allocator of a transfer, changed in place (piece_picker.go), and
    what survives saving and restoring it. */
module PiecePickers {
  import opened Geometry
  import opened BitFields
  import opened Peers
  import opened DownloadingPieces
  import opened Pickers

  ghost function AllDownloaders(dps: seq<Piece>): set<Peer> {
    set i, p | 0 <= i < |dps| && p in Downloaders(dps[i].blocks) :: p
  }

  class PiecePicker {
    ghost var Repr: set<object>
    var BlocksInLastPiece: nat
    var downloadingPieces: seq<DownloadingPiece>
    const pieces: BitField

    ghost predicate Valid()
      reads this, Repr
    {
      && {this, pieces} <= Repr && pieces.bytes in Repr && pieces.Valid()
      && (forall dp :: dp in downloadingPieces ==>
            dp.Repr <= Repr && dp.Valid() && {this, pieces} !! dp.Repr && pieces.bytes !in dp.Repr)
      && (forall i, j :: 0 <= i < j < |downloadingPieces| ==> downloadingPieces[i].Repr !! downloadingPieces[j].Repr)
    }

    ghost function Values(): (v: seq<Piece>)
      requires Valid()
      reads this, Repr
      ensures |v| == |downloadingPieces|
      ensures forall i :: 0 <= i < |v| ==> v[i] == downloadingPieces[i].Value()
    {
      seq(|downloadingPieces|, i requires 0 <= i < |downloadingPieces|
          && Valid() reads this, Repr => downloadingPieces[i].Value())
    }

    ghost function Value(): Picker
      requires Valid()
      reads this, Repr
    {
      Picker(BlocksInLastPiece, Values(), pieces.Value())
    }

    constructor CreatePiecePicker(pieceCount: nat, blocksInLastPiece: nat)
      ensures Valid() && fresh(Repr)
      ensures Value() == Create(pieceCount, blocksInLastPiece)
    {
      BlocksInLastPiece := blocksInLastPiece;
      downloadingPieces := [];
      pieces := new BitField.Create(pieceCount);
      new;
      Repr := {this, pieces, pieces.bytes};
    }

    function BlocksInPiece(pieceIndex: nat): (n: nat)
      requires Valid()
      reads this, Repr
      ensures n == BlocksIn(Value(), pieceIndex)
    {
      if pieceIndex + 1 == pieces.Bits() then BlocksInLastPiece else BLOCKS_PER_PIECE
    }

    /** The position of the piece in the list, or the length of the list. */
    method GetDownloadingPiece(pieceIndex: nat) returns (i: nat)
      requires Valid()
      ensures i == IndexOf(Values(), pieceIndex)
    {
      i := 0;
      while i < |downloadingPieces| && downloadingPieces[i].pieceIndex != pieceIndex
        invariant i <= |downloadingPieces|
        invariant forall k :: 0 <= k < i ==> downloadingPieces[k].pieceIndex != pieceIndex
      {
        i := i + 1;
      }
      FirstIndex(Values(), pieceIndex, i);
    }

    /** Changing one piece of the list in place leaves all others alone. */
    twostate lemma OneChanged(i: nat)
      requires old(Valid()) && unchanged(this) && i < |downloadingPieces|
      requires downloadingPieces[i].Valid()
      requires forall o :: o in Repr && o !in downloadingPieces[i].Repr ==> unchanged(o)
      ensures Valid() && pieces.Value() == old(pieces.Value())
      ensures Values() == old(Values())[i := downloadingPieces[i].Value()]
    {
      var changed := downloadingPieces[i];
      forall k | 0 <= k < |downloadingPieces| && k != i
        ensures downloadingPieces[k].Valid() && downloadingPieces[k].Value() == old(downloadingPieces[k].Value())
      {
        assert downloadingPieces[k] in downloadingPieces;
        assert downloadingPieces[k].Repr !! changed.Repr;
      }
    }

    method AddDownloadingBlocks(requiredBlocksCount: int, peer: Peer, endGame: bool, ghost slower: set<Peer>)
      returns (res: seq<PieceBlock>)
      requires Valid() && SlowerIn(AllDownloaders(Values()), slower, peer)
      modifies Repr
      ensures Valid() && Repr == old(Repr) && SlowerIn(AllDownloaders(Values()), slower, peer) && unchanged(this)
      ensures (Value(), res) == AddBlocks(old(Value()), requiredBlocksCount, peer, slower, endGame)
    {
      hide Unpack, BitOf, BitField.GetBit, BitField.Raw, BitField.Value, AddFrom, PickPiece, SlowerIn, Downloaders,
           AllDownloaders;
      res := [];
      ghost var start := Values();
      ghost var all := AddFrom(start, 0, requiredBlocksCount, peer, slower, endGame);
      ghost var now := start;
      assert all.1 == res + all.1;
      var i: nat := 0;
      while i < |downloadingPieces|
        invariant i <= |downloadingPieces| == |now|
        invariant unchanged(this) && Valid() && SlowerIn(AllDownloaders(Values()), slower, peer)
                  && pieces.Value() == old(pieces.Value())
        invariant Values() == now
        invariant var rest := AddFrom(now, i, requiredBlocksCount - |res|, peer, slower, endGame);
                  all.0 == rest.0 && all.1 == res + rest.1
      {
        AddFromStep(all, res, now, i, requiredBlocksCount - |res|, peer, slower, endGame);
        var dp := downloadingPieces[i];
        SlowerOne(now, i, slower, peer);
        label before:
        var picked := dp.PickBlock(requiredBlocksCount - |res|, peer, endGame, slower);
        OneChanged@before(i);
        SlowerAfterPick(now, i, requiredBlocksCount - |res|, peer, slower, endGame);
        now := now[i := dp.Value()];
        res := res + picked;
        i := i + 1;
        if |res| == requiredBlocksCount {
          break;
        }
      }
      AddFromEnd(now, i, requiredBlocksCount - |res|, peer, slower, endGame);
      assert Values() == all.0 && res == all.1;
    }

    method Append(dp: DownloadingPiece)
      requires Valid() && dp.Valid() && dp.Repr !! Repr
      modifies this
      ensures Valid() && Repr == old(Repr) + dp.Repr
      ensures Values() == old(Values()) + [dp.Value()] && pieces.Value() == old(pieces.Value())
      ensures BlocksInLastPiece == old(BlocksInLastPiece)
    {
      hide Unpack, BitOf, BitField.GetBit, BitField.Raw, BitField.Value;
      downloadingPieces := downloadingPieces + [dp];
      Repr := Repr + dp.Repr;
    }

    method StartPiece(i: nat)
      requires Valid() && i < pieces.bits
      modifies Repr
      ensures Valid() && fresh(Repr - old(Repr))
      ensures Values() == old(Values()) + [NewPiece(i, BlocksIn(old(Value()), i))]
      ensures pieces.Value() == old(pieces.Value())[i := true] && BlocksInLastPiece == old(BlocksInLastPiece)
    {
      hide Unpack, BitOf, BitField.GetBit, BitField.Raw, BitField.Value;
      var n := BlocksInPiece(i);
      var dp := new DownloadingPiece.NewDownloadingPiece(i, n);
      Append(dp);
      pieces.SetBit(i);
    }

    method ChooseNextPiece() returns (chosen: bool)
      requires Valid()
      modifies Repr
      ensures Valid() && fresh(Repr - old(Repr))
      ensures chosen == (FirstUnset(old(Value()).pieces) < |old(Value()).pieces|)
      ensures Value() == if chosen then Choose(old(Value())) else old(Value())
    {
      hide Unpack, BitOf, BitField.GetBit, BitField.Raw, BitField.Value;
      for i := 0 to pieces.Bits()
        invariant forall k :: 0 <= k < i ==> pieces.Value()[k]
        invariant forall o :: o in old(Repr) ==> unchanged(o)
      {
        var isSet := pieces.GetBit(i);
        if !isSet {
          FirstUnsetIs(pieces.Value(), i);
          StartPiece(i);
          return true;
        }
      }
      FirstUnsetIs(pieces.Value(), pieces.Bits());
      return false;
    }

    /** The recursion ends because each round starts one more piece. */
    method PickPieces(requiredBlocksCount: int, peer: Peer, ghost slower: set<Peer>) returns (res: seq<PieceBlock>)
      requires Valid() && SlowerIn(AllDownloaders(Values()), slower, peer)
      modifies Repr
      ensures Valid() && fresh(Repr - old(Repr)) && SlowerIn(AllDownloaders(Values()), slower, peer)
      ensures (Value(), res)
              == Pickers.PickPieces(old(Value()), requiredBlocksCount, peer, slower, peer.Speed == PEER_SPEED_SLOW)
      decreases Unset(Value().pieces)
    {
      hide Unpack, BitOf, BitField.GetBit, BitField.Raw, BitField.Value, AddBlocks, Choose, Downloaders,
           AllDownloaders, SlowerIn;
      ghost var pk := Value();
      res := AddDownloadingBlocks(requiredBlocksCount, peer, false, slower);
      if peer.Speed != PEER_SPEED_SLOW && |res| < requiredBlocksCount {
        var again := AddDownloadingBlocks(requiredBlocksCount - |res|, peer, true, slower);
        res := res + again;
      }
      assert (Value(), res) == TwoPasses(pk, requiredBlocksCount, peer, slower, peer.Speed == PEER_SPEED_SLOW);
      ghost var mid := Value();
      if |res| < requiredBlocksCount {
        var chosen := ChooseNextPiece();
        if chosen {
          ChooseUnsets(mid);
          SlowerAfterChoose(mid, slower, peer);
          AddBlocksKeepsPieces(pk, requiredBlocksCount, peer, slower, peer.Speed == PEER_SPEED_SLOW);
          var more := PickPieces(requiredBlocksCount - |res|, peer, slower);
          res := res + more;
        }
      }
    }

    method AbortBlock(block: PieceBlock, peer: Peer) returns (found: bool)
      requires Valid()
      requires Listed(Value(), block.pieceIndex) ==> block.blockIndex < |PieceAt(Value(), block.pieceIndex).blocks|
      modifies Repr
      ensures Valid() && unchanged(this)
      ensures found == Listed(old(Value()), block.pieceIndex)
      ensures Value() == Abort(old(Value()), block, peer)
    {
      hide Unpack, BitOf, BitField.GetBit, BitField.Raw, BitField.Value;
      var i := GetDownloadingPiece(block.pieceIndex);
      if i == |downloadingPieces| {
        return false;
      }
      label before:
      downloadingPieces[i].AbortBlock(block.blockIndex, peer);
      OneChanged@before(i);
      return true;
    }

    /** Panics if the block is in a listed piece and not requested. */
    method FinishBlock(block: PieceBlock)
      requires Valid()
      requires Listed(Value(), block.pieceIndex) ==>
                 block.blockIndex < |PieceAt(Value(), block.pieceIndex).blocks| && Look(Value(), block).requested
      modifies Repr
      ensures Valid() && unchanged(this)
      ensures Value() == Finish(old(Value()), block)
    {
      hide Unpack, BitOf, BitField.GetBit, BitField.Raw, BitField.Value;
      var i := GetDownloadingPiece(block.pieceIndex);
      if i < |downloadingPieces| {
        label before:
        downloadingPieces[i].FinishBlock(block.blockIndex);
        OneChanged@before(i);
      }
    }

    method Remove(i: nat)
      requires Valid() && i < |downloadingPieces|
      modifies this
      ensures Valid() && Repr == old(Repr) && BlocksInLastPiece == old(BlocksInLastPiece)
      ensures Values() == RemoveAt(old(Values()), i) && pieces.Value() == old(pieces.Value())
    {
      hide Unpack, BitOf, BitField.GetBit, BitField.Raw, BitField.Value, DownloadingPiece.Value, DownloadingPiece.Valid;
      var last := |downloadingPieces| - 1;
      downloadingPieces := downloadingPieces[i := downloadingPieces[last]][..last];
    }

    method ClearPiece(i: nat)
      requires Valid() && i < pieces.bits
      modifies pieces.bytes
      ensures Valid() && Values() == old(Values()) && pieces.Value() == old(pieces.Value())[i := false]
    {
      hide Unpack, BitOf, BitField.GetBit, BitField.Raw, BitField.Value;
      pieces.ClearBit(i);
    }

    method RemoveDownloadingPiece(pieceIndex: nat) returns (removed: bool)
      requires Valid() && pieceIndex < pieces.bits
      modifies Repr
      ensures Valid() && Repr == old(Repr)
      ensures removed == Listed(old(Value()), pieceIndex)
      ensures Value() == Pickers.RemoveDownloadingPiece(old(Value()), pieceIndex)
    {
      hide Unpack, BitOf, BitField.GetBit, BitField.Raw, BitField.Value;
      var i := GetDownloadingPiece(pieceIndex);
      if i == |downloadingPieces| {
        return false;
      }
      Remove(i);
      ClearPiece(pieceIndex);
      return true;
    }

    /** Panics if the bit is clear or a listed piece has unfinished blocks. */
    method SetHave(pieceIndex: nat)
      requires Valid() && CanSetHave(Value(), pieceIndex)
      modifies this
      ensures Valid() && Repr == old(Repr)
      ensures Value() == Pickers.SetHave(old(Value()), pieceIndex)
    {
      hide Unpack, BitOf, BitField.GetBit, BitField.Raw, BitField.Value, AllFinished;
      var i := GetDownloadingPiece(pieceIndex);
      if i < |downloadingPieces| {
        Remove(i);
      }
    }

    method IsFinished() returns (finished: bool)
      requires Valid()
      ensures finished == Pickers.IsFinished(Value())
    {
      var count := pieces.Count();
      finished := count == pieces.Bits() && |downloadingPieces| == 0;
    }

    method GetPieces() returns (res: BitField)
      requires Valid()
      ensures res.Valid() && fresh(res) && fresh(res.bytes) && res.Value() == Value().pieces
    {
      res := new BitField.Clone(pieces);
    }

    /** A copy of the finished bits of every listed piece. */
    method GetDownloadedBlocks() returns (res: map<nat, BitField>)
      requires Valid()
      ensures res.Keys == DownloadedBlocks(Values()).Keys
      ensures forall p :: p in res ==> fresh(res[p]) && fresh(res[p].bytes) && res[p].Valid()
                                       && res[p].Value() == DownloadedBlocks(Values())[p]
    {
      hide Unpack, BitOf, BitField.GetBit, BitField.Raw, BitField.Value, DownloadedBlocks;
      res := map[];
      SavedNone();
      for i := 0 to |downloadingPieces|
        invariant res.Keys == DownloadedBlocks(Values()[..i]).Keys
        invariant forall p :: p in res ==> fresh(res[p]) && fresh(res[p].bytes) && res[p].Valid()
                                           && res[p].Value() == DownloadedBlocks(Values()[..i])[p]
      {
        var x := downloadingPieces[i];
        var clone := new BitField.Clone(x.blocksFinished);
        SavedNext(Values(), i);
        assert clone.Value() == Finished(Values()[i].blocks);
        res := res[x.pieceIndex := clone];
      }
      assert Values()[..|downloadingPieces|] == Values();
    }

    method RestorePiece(pieceIndex: nat, have: BitField)
      requires Valid() && have.Valid()
      modifies this
      ensures Valid() && fresh(Repr - old(Repr)) && BlocksInLastPiece == old(BlocksInLastPiece)
      ensures Values() == old(Values()) + [PieceFromBits(pieceIndex, old(have.Value()))]
              && pieces.Value() == old(pieces.Value())
    {
      hide Unpack, BitOf, BitField.GetBit, BitField.Raw, BitField.Value;
      var dp := new DownloadingPiece.NewDownloadingPieceParams(pieceIndex, have);
      Append(dp);
    }

    method RestorePieces(downloadedBlocks: map<nat, BitField>, order: seq<nat>, ghost bits: seq<bool>,
            ghost db: map<nat, seq<bool>>)
      requires Valid() && downloadingPieces == [] && db.Keys == downloadedBlocks.Keys
      requires forall p :: p in downloadedBlocks ==> downloadedBlocks[p].Valid() && downloadedBlocks[p].Value() == db[p]
      requires forall p :: p in order ==> p in downloadedBlocks
      modifies this
      ensures Valid() && fresh(Repr - old(Repr)) && BlocksInLastPiece == old(BlocksInLastPiece)
      ensures pieces.Value() == old(pieces.Value()) && Values() == FromResume(bits, db, order).downloading
    {
      hide Unpack, BitOf, BitField.GetBit, BitField.Raw, BitField.Value, FromResume, PieceFromBits;
      ghost var now: seq<Piece> := [];
      FromResumeNone(bits, db);
      for i := 0 to |order|
        invariant Valid() && fresh(Repr - old(Repr)) && BlocksInLastPiece == old(BlocksInLastPiece)
        invariant pieces.Value() == old(pieces.Value())
        invariant Values() == now == FromResume(bits, db, order[..i]).downloading
      {
        FromResumeNext(bits, db, order, i);
        var have := downloadedBlocks[order[i]];
        assert have.Valid() && have.Value() == db[order[i]];
        RestorePiece(order[i], have);
        now := now + [PieceFromBits(order[i], db[order[i]])];
      }
      assert order[..|order|] == order;
    }

    /** The map is visited in an arbitrary order; bits and db are what the arguments hold. */
    constructor FromResumeData(atpPieces: BitField, downloadedBlocks: map<nat, BitField>, order: seq<nat>,
                               ghost bits: seq<bool>, ghost db: map<nat, seq<bool>>)
      requires atpPieces.Valid() && bits == atpPieces.Value() && db.Keys == downloadedBlocks.Keys
      requires forall p :: p in downloadedBlocks ==> downloadedBlocks[p].Valid() && downloadedBlocks[p].Value() == db[p]
      requires forall p :: p in order ==> p in downloadedBlocks
      ensures Valid() && fresh(Repr)
      ensures Value() == FromResume(bits, db, order)
    {
      BlocksInLastPiece := 0;
      var cloned := new BitField.Clone(atpPieces);
      pieces := cloned;
      downloadingPieces := [];
      new;
      hide Unpack, BitOf, BitField.GetBit, BitField.Raw, BitField.Value, FromResume;
      Repr := {this, cloned, cloned.bytes};
      RestorePieces(downloadedBlocks, order, bits, db);
      FromResumeAll(bits, db, order);
    }
  }

  lemma SlowerOne(dps: seq<Piece>, i: nat, slower: set<Peer>, peer: Peer)
    requires i < |dps| && SlowerIn(AllDownloaders(dps), slower, peer)
    ensures SlowerIn(Downloaders(dps[i].blocks), slower, peer)
  {
    assert Downloaders(dps[i].blocks) <= AllDownloaders(dps);
  }

  lemma AddBlocksKeepsPieces(pk: Picker, n: int, peer: Peer, slower: set<Peer>, slow: bool)
    ensures TwoPasses(pk, n, peer, slower, slow).0.pieces == pk.pieces
  {
  }

  lemma SlowerAfterChoose(pk: Picker, slower: set<Peer>, peer: Peer)
    requires FirstUnset(pk.pieces) < |pk.pieces| && SlowerIn(AllDownloaders(pk.downloading), slower, peer)
    ensures SlowerIn(AllDownloaders(Choose(pk).downloading), slower, peer)
  {
    var after := Choose(pk).downloading;
    forall q | q in AllDownloaders(after)
      ensures q in AllDownloaders(pk.downloading)
    {
      var j :| 0 <= j < |after| && q in Downloaders(after[j].blocks);
      assert j < |pk.downloading| ==> after[j] == pk.downloading[j];
    }
  }

  lemma SlowerAfterPick(dps: seq<Piece>, i: nat, n: int, peer: Peer, slower: set<Peer>, endGame: bool)
    requires i < |dps| && SlowerIn(AllDownloaders(dps), slower, peer)
    ensures SlowerIn(AllDownloaders(dps[i := PickPiece(dps[i], n, peer, slower, endGame).0]), slower, peer)
  {
    PickPieceTakes(dps[i], n, peer, slower, endGame);
    var p := PickPiece(dps[i], n, peer, slower, endGame).0;
    var after := dps[i := p];
    forall q | q in AllDownloaders(after)
      ensures q == peer || q in AllDownloaders(dps)
    {
      var j :| 0 <= j < |after| && q in Downloaders(after[j].blocks);
      if j == i && q != peer {
        assert q in Downloaders(dps[i].blocks);
      }
    }
  }

  lemma {:induction false} FirstUnsetIs(pieces: seq<bool>, i: nat)
    requires i <= |pieces| && forall k :: 0 <= k < i ==> pieces[k]
    requires i < |pieces| ==> !pieces[i]
    ensures FirstUnset(pieces) == i
  {
  }

  lemma AddFromStep(all: (seq<Piece>, seq<PieceBlock>), res: seq<PieceBlock>, dps: seq<Piece>, j: nat, n: int,
                    peer: Peer, slower: set<Peer>, endGame: bool)
    requires j < |dps|
    requires var rest := AddFrom(dps, j, n, peer, slower, endGame);
             all.0 == rest.0 && all.1 == res + rest.1
    ensures var (p, picked) := PickPiece(dps[j], n, peer, slower, endGame);
            var rest := AddFrom(dps[j := p], j + 1, n - |picked|, peer, slower, endGame);
            all.0 == rest.0 && all.1 == res + picked + rest.1
  {
  }

  /** Asking for no more blocks changes nothing, so the loop may stop early. */
  lemma {:induction false} AddFromEnd(dps: seq<Piece>, j: nat, n: int, peer: Peer, slower: set<Peer>, endGame: bool)
    requires |dps| <= j || n <= 0
    ensures AddFrom(dps, j, n, peer, slower, endGame) == (dps, [])
    decreases |dps| - j
  {
    if j < |dps| {
      PickFromEnd(dps[j].blocks, 0, n, peer, slower, endGame);
      assert OfPiece(dps[j].pieceIndex, []) == [];
      assert PickPiece(dps[j], n, peer, slower, endGame) == (dps[j], []);
      assert dps[j := dps[j]] == dps;
      AddFromEnd(dps, j + 1, n, peer, slower, endGame);
      var (rest, more) := AddFrom(dps, j + 1, n, peer, slower, endGame);
      assert [] + more == more;
    }
  }

  lemma {:induction false} FirstIndex(dps: seq<Piece>, piece: nat, i: nat)
    requires i <= |dps| && forall k :: 0 <= k < i ==> dps[k].pieceIndex != piece
    requires i < |dps| ==> dps[i].pieceIndex == piece
    ensures IndexOf(dps, piece) == i
  {
  }

  // ----- saving and restoring

  /** What GetDownloadedBlocks saves of the listed pieces. */
  function DownloadedBlocks(dps: seq<Piece>): map<nat, seq<bool>> {
    if dps == [] then map[]
    else
      var last := dps[|dps| - 1];
      DownloadedBlocks(dps[..|dps| - 1])[last.pieceIndex := Finished(last.blocks)]
  }

  lemma SavedNone()
    ensures DownloadedBlocks([]) == map[]
  {
  }

  lemma SavedNext(dps: seq<Piece>, i: nat)
    requires i < |dps|
    ensures DownloadedBlocks(dps[..i + 1]) == DownloadedBlocks(dps[..i])[dps[i].pieceIndex := Finished(dps[i].blocks)]
  {
    assert dps[..i + 1][..i] == dps[..i];
  }

  function FromResume(pieces: seq<bool>, db: map<nat, seq<bool>>, order: seq<nat>): Picker
    requires forall p :: p in order ==> p in db
  {
    Picker(0, seq(|order|, i requires 0 <= i < |order| => PieceFromBits(order[i], db[order[i]])), pieces)
  }

  lemma FromResumeNone(pieces: seq<bool>, db: map<nat, seq<bool>>)
    ensures FromResume(pieces, db, []).downloading == []
  {
  }

  lemma FromResumeAll(pieces: seq<bool>, db: map<nat, seq<bool>>, order: seq<nat>)
    requires forall p :: p in order ==> p in db
    ensures FromResume(pieces, db, order) == Picker(0, FromResume(pieces, db, order).downloading, pieces)
  {
  }

  lemma FromResumeNext(pieces: seq<bool>, db: map<nat, seq<bool>>, order: seq<nat>, i: nat)
    requires i < |order| && forall p :: p in order ==> p in db
    ensures FromResume(pieces, db, order[..i + 1]).downloading
            == FromResume(pieces, db, order[..i]).downloading + [PieceFromBits(order[i], db[order[i]])]
  {
  }

  /** An order in which a map iteration may visit the keys: each one once. */
  ghost predicate IterationOrder(order: seq<nat>, keys: set<nat>) {
    && (forall p :: p in order <==> p in keys)
    && forall i, j :: 0 <= i < j < |order| ==> order[i] != order[j]
  }

  predicate WantMoreData(pieces: seq<bool>, db: map<nat, seq<bool>>) {
    |pieces| != CountTrue(pieces) || |db| > 0
  }

  lemma {:induction false} SavedBits(dps: seq<Piece>, p: nat)
    requires DistinctPieces(dps)
    ensures p in DownloadedBlocks(dps) <==> IndexOf(dps, p) < |dps|
    ensures p in DownloadedBlocks(dps) ==> DownloadedBlocks(dps)[p] == Finished(dps[IndexOf(dps, p)].blocks)
  {
    if dps != [] {
      var n := |dps| - 1;
      SavedBits(dps[..n], p);
      IndexAppend(dps[..n], dps[n], p);
      assert dps == dps[..n] + [dps[n]];
    }
  }

  /** Restoring what was saved, in any iteration order, keeps the state of every
      piece and the finished blocks, and frees exactly the requested ones. */
  lemma RestoreKeepsPieces(pk: Picker, order: seq<nat>)
    requires WellFormed(pk) && IterationOrder(order, DownloadedBlocks(pk.downloading).Keys)
    ensures var r := FromResume(pk.pieces, DownloadedBlocks(pk.downloading), order);
            && WellFormed(r) && r.pieces == pk.pieces
            && (forall p: nat :: && (Listed(r, p) <==> Listed(pk, p)) && (Have(r, p) <==> Have(pk, p))
                                 && (Untouched(r, p) <==> Untouched(pk, p)))
            && (forall p: nat :: Listed(pk, p) ==> |PieceAt(r, p).blocks| == |PieceAt(pk, p).blocks|)
            && (forall b: PieceBlock :: Listed(pk, b.pieceIndex) ==>
                  Look(r, b) == HaveBlock(Look(pk, b).finished).(requested := Look(pk, b).finished))
  {
    var db := DownloadedBlocks(pk.downloading);
    var r := FromResume(pk.pieces, db, order);
    forall p: nat
      ensures Listed(r, p) <==> Listed(pk, p)
      ensures Listed(pk, p) ==> PieceAt(r, p).blocks == PieceFromBits(p, Finished(PieceAt(pk, p).blocks)).blocks
    {
      RestoredAt(pk, order, p);
    }
    forall j | 0 <= j < |order|
      ensures order[j] < |pk.pieces| && pk.pieces[order[j]]
    {
      SavedBits(pk.downloading, order[j]);
    }
  }

  lemma RestoredAt(pk: Picker, order: seq<nat>, p: nat)
    requires WellFormed(pk) && IterationOrder(order, DownloadedBlocks(pk.downloading).Keys)
    ensures var r := FromResume(pk.pieces, DownloadedBlocks(pk.downloading), order);
            && (Listed(r, p) <==> Listed(pk, p))
            && (Listed(pk, p) ==> PieceAt(r, p).blocks == PieceFromBits(p, Finished(PieceAt(pk, p).blocks)).blocks)
  {
    var r := FromResume(pk.pieces, DownloadedBlocks(pk.downloading), order);
    SavedBits(pk.downloading, p);
    if p in order {
      var i :| 0 <= i < |order| && order[i] == p;
      IndexIs(r.downloading, i);
    } else {
      forall j | 0 <= j < |order|
        ensures r.downloading[j].pieceIndex != p
      {
        assert order[j] in order;
      }
    }
  }

  /** The saved parameters ask for more data exactly until the transfer is finished. */
  lemma WantsMoreUntilFinished(pk: Picker)
    requires WellFormed(pk)
    ensures WantMoreData(pk.pieces, DownloadedBlocks(pk.downloading)) <==> !IsFinished(pk)
  {
    if pk.downloading != [] {
      var p := pk.downloading[|pk.downloading| - 1].pieceIndex;
      assert p in DownloadedBlocks(pk.downloading);
    }
  }

  /** The block count of the last piece is not saved: a restored picker offers
      the blocks of an untouched piece if and only if it is not the last one. */
  lemma RestoreForgetsLastPiece(pk: Picker, order: seq<nat>, b: PieceBlock)
    requires WellFormed(pk) && IterationOrder(order, DownloadedBlocks(pk.downloading).Keys)
    requires Untouched(pk, b.pieceIndex) && b.blockIndex < BlocksIn(pk, b.pieceIndex)
    ensures var r := FromResume(pk.pieces, DownloadedBlocks(pk.downloading), order);
            Look(r, b) == Look(pk, b) <==> b.pieceIndex + 1 < |pk.pieces|
  {
    RestoredAt(pk, order, b.pieceIndex);
  }
}
