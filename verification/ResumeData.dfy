/** What a transfer saves to go on after a restart, and its file format
    (proto/transfer.go, AddTransferParameters, with HashSet of proto/peer.go and
    BitField of proto/bitfield.go). */
module ResumeData {
  import opened Bytes
  import opened StateBuffers
  import opened BitFields
  import opened Tags
  import opened Packets

  // ----- bit fields

  datatype Bits = Bits(bytes: seq<byte>, bits: nat)

  predicate WellFormedBits(bf: Bits) {
    bf.bits < 0x1_0000 && |bf.bytes| == BitsToBytes(bf.bits)
  }

  function EncodeBits(bf: Bits): seq<byte> {
    LittleEndian(bf.bits, 2) + bf.bytes
  }

  /** No bytes are read for no bits. */
  function GetBits(b: Buffer): Got<Bits> {
    var sz := TakeNumber(b, 2);
    if sz.buffer.err.Some? then Got(sz.buffer, Bits([], 0))
    else if sz.value == 0 then Got(sz.buffer, Bits([], 0))
    else
      var bytes := TakeSlice(sz.buffer, BitsToBytes(sz.value));
      Got(bytes.buffer, Bits(bytes.value, sz.value))
  }

  function PutBits(b: Buffer, bf: Bits): Buffer {
    PutBytes(PutNumber(b, bf.bits, 2), bf.bytes)
  }

  method ReadBits(sb: StateBuffer) returns (bf: Bits)
    modifies sb
    ensures Got(sb.Value(), bf) == GetBits(old(sb.Value()))
  {
    bf := Bits([], 0);
    var sz := sb.ReadNumber(2);
    if sb.err.None? {
      bf := bf.(bits := sz);
      if bf.bits > 0 {
        var bytes := sb.ReadSlice(BitsToBytes(sz));
        bf := bf.(bytes := bytes);
      }
    }
  }

  method WriteBits(sb: StateBuffer, bf: Bits)
    modifies sb, sb.Data
    ensures sb.Value() == PutBits(old(sb.Value()), bf)
  {
    sb.WriteNumber(bf.bits, 2);
    sb.WriteBytes(bf.bytes);
  }

  lemma GetBitsAt(b: Buffer, bf: Bits)
    requires WellFormedBits(bf) && At(b, EncodeBits(bf))
    ensures GetBits(b) == Got(b.Skip(|EncodeBits(bf)|), bf)
  {
    hide TakeNumber, LittleEndian;
    Powers();
    AtAppend(b, LittleEndian(bf.bits, 2), bf.bytes);
    TakeNumberAt(b, bf.bits, 2);
    TakeAt(b.Skip(2), bf.bytes);
  }

  lemma GotBitsAreWellFormed(b: Buffer)
    requires GetBits(b).buffer.err.None?
    ensures WellFormedBits(GetBits(b).value)
  {
    TakenFits(b);
  }

  lemma PutBitsWrites(b: Buffer, bf: Bits)
    ensures Wrote(b, PutBits(b, bf), EncodeBits(bf))
  {
    hide LittleEndian;
    var t := PutNumber(b, bf.bits, 2);
    PutWrites(b, LittleEndian(bf.bits, 2));
    PutWrites(t, bf.bytes);
    WroteAppend(b, t, PutBytes(t, bf.bytes), LittleEndian(bf.bits, 2), bf.bytes);
  }

  lemma BitsLonger(b: Buffer, more: seq<byte>)
    ensures Stable(b, GetBits(b), GetBits(Longer(b, more)), more)
  {
    hide TakeNumber, TakeSlice;
    TakeLonger(b, more, 2);
    var sz := TakeNumber(b, 2);
    TakeLonger(sz.buffer, more, BitsToBytes(sz.value));
  }

  // ----- hash sets

  datatype HashSet = HashSet(Hash: ED2KHash, PieceHashes: seq<ED2KHash>)

  function EncodeHashes(hs: seq<ED2KHash>): seq<byte> {
    if hs == [] then [] else hs[0] + EncodeHashes(hs[1..])
  }

  function EncodeHashSet(hs: HashSet): seq<byte> {
    hs.Hash + (LittleEndian(|hs.PieceHashes|, 2) + EncodeHashes(hs.PieceHashes))
  }

  /** Once the error is set, all further hashes are zeros. */
  function GetHashes(b: Buffer, n: nat): Got<seq<ED2KHash>>
    decreases n
  {
    if n == 0 then Got(b, [])
    else
      var h := GetHash(b);
      var rest := GetHashes(h.buffer, n - 1);
      Got(rest.buffer, [h.value] + rest.value)
  }

  function GetHashSet(b: Buffer): Got<HashSet> {
    var hash := GetHash(b);
    var size := TakeNumber(hash.buffer, 2);
    if size.value > MAX_ELEMS then Got(size.buffer.Fail(TooMany), HashSet(hash.value, []))
    else
      var hashes := GetHashes(size.buffer, size.value);
      Got(hashes.buffer, HashSet(hash.value, hashes.value))
  }

  function PutHashes(b: Buffer, hs: seq<ED2KHash>): Buffer
    decreases |hs|
  {
    if hs == [] then b else PutHashes(PutBytes(b, hs[0]), hs[1..])
  }

  function PutHashSet(b: Buffer, hs: HashSet): Buffer {
    PutHashes(PutNumber(PutBytes(b, hs.Hash), |hs.PieceHashes|, 2), hs.PieceHashes)
  }

  method ReadHashSet(sb: StateBuffer) returns (hs: HashSet)
    modifies sb
    ensures Got(sb.Value(), hs) == GetHashSet(old(sb.Value()))
  {
    hide GetHash, TakeNumber;
    var hash := ReadHash(sb);
    hs := HashSet(hash, []);
    var size := sb.ReadNumber(2);
    if size > MAX_ELEMS {
      sb.SetError(TooMany);
      return;
    }
    ghost var all := GetHashes(sb.Value(), size);
    var hashes: seq<ED2KHash> := [];
    assert [] + all.value == all.value;
    var i := 0;
    while i < size
      invariant 0 <= i <= size
      invariant all.buffer == GetHashes(sb.Value(), size - i).buffer
      invariant all.value == hashes + GetHashes(sb.Value(), size - i).value
    {
      ghost var before := hashes;
      var h := ReadHash(sb);
      hashes := hashes + [h];
      i := i + 1;
      assert before + ([h] + GetHashes(sb.Value(), size - i).value) == hashes + GetHashes(sb.Value(), size - i).value;
    }
    assert hashes + [] == hashes;
    hs := hs.(PieceHashes := hashes);
  }

  method WriteHashSet(sb: StateBuffer, hs: HashSet)
    modifies sb, sb.Data
    ensures sb.Value() == PutHashSet(old(sb.Value()), hs)
  {
    hide PutBytes, LittleEndian;
    sb.WriteBytes(hs.Hash);
    sb.WriteNumber(|hs.PieceHashes|, 2);
    ghost var all := PutHashes(sb.Value(), hs.PieceHashes);
    assert hs.PieceHashes[0..] == hs.PieceHashes;
    var i := 0;
    while i < |hs.PieceHashes|
      invariant 0 <= i <= |hs.PieceHashes| && PutHashes(sb.Value(), hs.PieceHashes[i..]) == all
    {
      sb.WriteBytes(hs.PieceHashes[i]);
      assert hs.PieceHashes[i..][0] == hs.PieceHashes[i] && hs.PieceHashes[i..][1..] == hs.PieceHashes[i + 1..];
      i := i + 1;
    }
  }

  lemma {:induction false} HashesLength(hs: seq<ED2KHash>)
    ensures |EncodeHashes(hs)| == HASH_LEN * |hs|
  {
    if hs != [] {
      HashesLength(hs[1..]);
    }
  }

  function HashSetSize(hs: HashSet): (size: nat)
    ensures size == |EncodeHashSet(hs)|
  {
    HashesLength(hs.PieceHashes);
    HASH_LEN + 2 + |hs.PieceHashes| * HASH_LEN
  }

  lemma {:induction false} GetHashesAt(b: Buffer, hs: seq<ED2KHash>)
    requires b.err.None? && At(b, EncodeHashes(hs))
    ensures GetHashes(b, |hs|) == Got(b.Skip(|EncodeHashes(hs)|), hs)
    decreases |hs|
  {
    hide GetHash;
    if hs != [] {
      assert hs == [hs[0]] + hs[1..];
      AtAppend(b, hs[0], EncodeHashes(hs[1..]));
      GetHashAt(b, hs[0]);
      GetHashesAt(b.Skip(HASH_LEN), hs[1..]);
    }
  }

  lemma GetHashSetAt(b: Buffer, hs: HashSet)
    requires |hs.PieceHashes| <= MAX_ELEMS && At(b, EncodeHashSet(hs))
    ensures GetHashSet(b) == Got(b.Skip(|EncodeHashSet(hs)|), hs)
  {
    hide GetHash, TakeNumber, GetHashes, EncodeHashes, LittleEndian;
    Powers();
    var count, hashes := LittleEndian(|hs.PieceHashes|, 2), EncodeHashes(hs.PieceHashes);
    AtAppend(b, hs.Hash, count + hashes);
    AtAppend(b.Skip(HASH_LEN), count, hashes);
    GetHashAt(b, hs.Hash);
    TakeNumberAt(b.Skip(HASH_LEN), |hs.PieceHashes|, 2);
    GetHashesAt(b.Skip(HASH_LEN).Skip(2), hs.PieceHashes);
  }

  lemma {:induction false} GotHashesCount(b: Buffer, n: nat)
    ensures |GetHashes(b, n).value| == n
    decreases n
  {
    if n != 0 {
      GotHashesCount(GetHash(b).buffer, n - 1);
    }
  }

  lemma {:induction false} PutHashesWrites(b: Buffer, hs: seq<ED2KHash>)
    ensures Wrote(b, PutHashes(b, hs), EncodeHashes(hs))
    decreases |hs|
  {
    if hs == [] {
      PutNothing(b);
    } else {
      hide PutBytes, EncodeHashes;
      var t := PutBytes(b, hs[0]);
      PutWrites(b, hs[0]);
      PutHashesWrites(t, hs[1..]);
      WroteAppend(b, t, PutHashes(t, hs[1..]), hs[0], EncodeHashes(hs[1..]));
      assert EncodeHashes(hs) == hs[0] + EncodeHashes(hs[1..]) by {
        EncodeHashesStep(hs);
      }
    }
  }

  lemma EncodeHashesStep(hs: seq<ED2KHash>)
    requires hs != []
    ensures EncodeHashes(hs) == hs[0] + EncodeHashes(hs[1..])
  {
  }

  lemma PutHashSetWrites(b: Buffer, hs: HashSet)
    ensures Wrote(b, PutHashSet(b, hs), EncodeHashSet(hs))
  {
    hide PutBytes, PutHashes, EncodeHashes, LittleEndian;
    var count, hashes := LittleEndian(|hs.PieceHashes|, 2), EncodeHashes(hs.PieceHashes);
    var t := PutBytes(b, hs.Hash);
    var u := PutBytes(t, count);
    var v := PutHashes(u, hs.PieceHashes);
    PutWrites(b, hs.Hash);
    PutWrites(t, count);
    PutHashesWrites(u, hs.PieceHashes);
    WroteAppend(t, u, v, count, hashes);
    WroteAppend(b, t, v, hs.Hash, count + hashes);
  }

  lemma {:induction false} HashesLonger(b: Buffer, more: seq<byte>, n: nat)
    ensures Stable(b, GetHashes(b, n), GetHashes(Longer(b, more), n), more)
    ensures b.err.Some? ==> GetHashes(b, n).buffer == b
    decreases n
  {
    hide GetHash;
    if n != 0 {
      HashLonger(b, more);
      HashErrorStays(b);
      HashesLonger(GetHash(b).buffer, more, n - 1);
    }
  }

  lemma HashErrorStays(b: Buffer)
    ensures b.err.Some? ==> GetHash(b).buffer == b
  {
  }

  lemma HashSetLonger(b: Buffer, more: seq<byte>)
    ensures Stable(b, GetHashSet(b), GetHashSet(Longer(b, more)), more)
    ensures b.err.Some? ==> GetHashSet(b).buffer.err.Some?
  {
    hide GetHash, TakeNumber, GetHashes;
    HashLonger(b, more);
    HashErrorStays(b);
    var hash := GetHash(b);
    TakeLonger(hash.buffer, more, 2);
    ErrorStays(hash.buffer, 2);
    var size := TakeNumber(hash.buffer, 2);
    HashesLonger(size.buffer, more, size.value);
  }

  // ----- downloaded blocks

  /** A map is written in any order that names each key once. */
  ghost predicate IsOrder(order: seq<nat>, keys: set<nat>) {
    multiset(order) == multiset(keys)
  }

  function EncodeBlock(piece: nat, bf: Bits): seq<byte> {
    LittleEndian(piece, 4) + EncodeBits(bf)
  }

  function EncodeBlocks(m: map<nat, Bits>, order: seq<nat>): seq<byte>
    requires forall k :: k in order ==> k in m
  {
    if order == [] then [] else EncodeBlock(order[0], m[order[0]]) + EncodeBlocks(m, order[1..])
  }

  function GetBlocks(b: Buffer, n: nat, m: map<nat, Bits>): Got<map<nat, Bits>>
    decreases n
  {
    if n == 0 then Got(b, m)
    else
      var piece := TakeNumber(b, 4);
      var bf := GetBits(piece.buffer);
      GetBlocks(bf.buffer, n - 1, m[piece.value := bf.value])
  }

  function PutBlock(b: Buffer, piece: nat, bf: Bits): Buffer {
    PutBits(PutNumber(b, piece, 4), bf)
  }

  function PutBlocks(b: Buffer, m: map<nat, Bits>, order: seq<nat>): Buffer
    requires forall k :: k in order ==> k in m
    decreases |order|
  {
    if order == [] then b else PutBlocks(PutBlock(b, order[0], m[order[0]]), m, order[1..])
  }

  predicate WellFormedBlocks(m: map<nat, Bits>) {
    forall k :: k in m ==> k < 0x1_0000_0000 && WellFormedBits(m[k])
  }

  /** m with the pieces of order as in blocks. */
  function Filled(m: map<nat, Bits>, blocks: map<nat, Bits>, order: seq<nat>): map<nat, Bits>
    requires forall k :: k in order ==> k in blocks
    decreases |order|
  {
    if order == [] then m else Filled(m[order[0] := blocks[order[0]]], blocks, order[1..])
  }

  lemma {:induction false} FilledLooks(m: map<nat, Bits>, blocks: map<nat, Bits>, order: seq<nat>)
    requires forall k :: k in order ==> k in blocks
    ensures forall k :: k in Filled(m, blocks, order) <==> k in m || k in order
    ensures forall k :: k in order ==> Filled(m, blocks, order)[k] == blocks[k]
    ensures forall k :: k in m && k !in order ==> Filled(m, blocks, order)[k] == m[k]
    decreases |order|
  {
    if order != [] {
      FilledLooks(m[order[0] := blocks[order[0]]], blocks, order[1..]);
      assert forall k :: k in order <==> k == order[0] || k in order[1..];
    }
  }

  lemma OrderKeys(order: seq<nat>, keys: set<nat>)
    requires IsOrder(order, keys)
    ensures |order| == |keys| && forall k :: k in order <==> k in keys
  {
    assert |multiset(order)| == |order|;
    forall k
      ensures k in order <==> k in keys
    {
      assert k in order <==> k in multiset(order);
    }
  }

  lemma FilledInAnyOrder(blocks: map<nat, Bits>, order: seq<nat>)
    requires IsOrder(order, blocks.Keys)
    ensures (forall k :: k in order ==> k in blocks) && Filled(map[], blocks, order) == blocks
  {
    OrderKeys(order, blocks.Keys);
    FilledLooks(map[], blocks, order);
  }

  lemma {:induction false} GetBlocksAt(b: Buffer, m: map<nat, Bits>, blocks: map<nat, Bits>, order: seq<nat>)
    requires WellFormedBlocks(blocks) && (forall k :: k in order ==> k in blocks)
    requires At(b, EncodeBlocks(blocks, order))
    ensures GetBlocks(b, |order|, m) == Got(b.Skip(|EncodeBlocks(blocks, order)|), Filled(m, blocks, order))
    decreases |order|
  {
    hide GetBits, EncodeBits, TakeNumber, LittleEndian;
    if order != [] {
      var k := order[0];
      var bf := blocks[k];
      var rest := EncodeBlocks(blocks, order[1..]);
      AtAppend(b, EncodeBlock(k, bf), rest);
      AtAppend(b, LittleEndian(k, 4), EncodeBits(bf));
      Powers();
      TakeNumberAt(b, k, 4);
      GetBitsAt(b.Skip(4), bf);
      GetBlocksAt(b.Skip(|EncodeBlock(k, bf)|), m[k := bf], blocks, order[1..]);
    }
  }

  lemma {:induction false} GotBlocksAreWellFormed(b: Buffer, n: nat, m: map<nat, Bits>)
    requires WellFormedBlocks(m) && GetBlocks(b, n, m).buffer.err.None? && b.err.None?
    ensures WellFormedBlocks(GetBlocks(b, n, m).value) && |GetBlocks(b, n, m).value| <= |m| + n
    decreases n
  {
    hide GetBits, TakeNumber, WellFormedBits;
    if n != 0 {
      var piece := TakeNumber(b, 4);
      var bf := GetBits(piece.buffer);
      BlockErrorStays(b);
      BlocksErrorStays(bf.buffer, n - 1, m[piece.value := bf.value]);
      TakenFits(b);
      GotBitsAreWellFormed(piece.buffer);
      var next := m[piece.value := bf.value];
      assert next.Keys == m.Keys + {piece.value};
      GotBlocksAreWellFormed(bf.buffer, n - 1, next);
    }
  }

  lemma BlockErrorStays(b: Buffer)
    ensures b.err.Some? ==> GetBits(TakeNumber(b, 4).buffer).buffer == b
    ensures GetBits(TakeNumber(b, 4).buffer).buffer.err.None? ==> TakeNumber(b, 4).buffer.err.None?
  {
  }

  lemma {:induction false} BlocksErrorStays(b: Buffer, n: nat, m: map<nat, Bits>)
    ensures b.err.Some? ==> GetBlocks(b, n, m).buffer == b
    decreases n
  {
    hide GetBits, TakeNumber;
    if n != 0 {
      BlockErrorStays(b);
      var piece := TakeNumber(b, 4);
      var bf := GetBits(piece.buffer);
      BlocksErrorStays(bf.buffer, n - 1, m[piece.value := bf.value]);
    }
  }

  lemma PutBlockWrites(b: Buffer, piece: nat, bf: Bits)
    ensures Wrote(b, PutBlock(b, piece, bf), EncodeBlock(piece, bf))
  {
    hide PutBits, EncodeBits, LittleEndian;
    var t := PutNumber(b, piece, 4);
    PutWrites(b, LittleEndian(piece, 4));
    PutBitsWrites(t, bf);
    WroteAppend(b, t, PutBits(t, bf), LittleEndian(piece, 4), EncodeBits(bf));
  }

  lemma {:induction false} PutBlocksWrites(b: Buffer, m: map<nat, Bits>, order: seq<nat>)
    requires forall k :: k in order ==> k in m
    ensures Wrote(b, PutBlocks(b, m, order), EncodeBlocks(m, order))
    decreases |order|
  {
    hide PutBlock, EncodeBlock;
    if order == [] {
      PutNothing(b);
    } else {
      var k := order[0];
      var t := PutBlock(b, k, m[k]);
      PutBlockWrites(b, k, m[k]);
      PutBlocksWrites(t, m, order[1..]);
      WroteAppend(b, t, PutBlocks(t, m, order[1..]), EncodeBlock(k, m[k]), EncodeBlocks(m, order[1..]));
    }
  }

  lemma {:induction false} BlocksLonger(b: Buffer, more: seq<byte>, n: nat, m: map<nat, Bits>)
    ensures Stable(b, GetBlocks(b, n, m), GetBlocks(Longer(b, more), n, m), more)
    decreases n
  {
    hide GetBits, TakeNumber;
    if n != 0 {
      TakeLonger(b, more, 4);
      var piece := TakeNumber(b, 4);
      BitsLonger(piece.buffer, more);
      var bf := GetBits(piece.buffer);
      BlockErrorStays(b);
      BlocksErrorStays(bf.buffer, n - 1, m[piece.value := bf.value]);
      BlocksLonger(bf.buffer, more, n - 1, m[piece.value := bf.value]);
    }
  }

  // ----- the length does not depend on the order

  lemma {:induction false} BlocksLengthWithout(m: map<nat, Bits>, order: seq<nat>, i: nat)
    requires (forall k :: k in order ==> k in m) && i < |order|
    ensures |EncodeBlocks(m, order)|
            == |EncodeBlock(order[i], m[order[i]])| + |EncodeBlocks(m, order[..i] + order[i + 1..])|
    decreases |order|
  {
    hide EncodeBlock;
    var without := order[..i] + order[i + 1..];
    if i == 0 {
      assert without == order[1..];
    } else {
      BlocksLengthWithout(m, order[1..], i - 1);
      assert without[1..] == order[1..][..i - 1] + order[1..][i..];
    }
  }

  lemma MultisetWithout(order: seq<nat>, i: nat)
    requires i < |order|
    ensures multiset(order[..i] + order[i + 1..]) == multiset(order) - multiset{order[i]}
  {
    assert order == order[..i] + [order[i]] + order[i + 1..];
  }

  lemma {:induction false} SameLengthInAnyOrder(m: map<nat, Bits>, order: seq<nat>, other: seq<nat>)
    requires multiset(order) == multiset(other)
    requires (forall k :: k in order ==> k in m) && (forall k :: k in other ==> k in m)
    ensures |EncodeBlocks(m, order)| == |EncodeBlocks(m, other)|
    decreases |order|
  {
    hide EncodeBlock;
    if order == [] {
      assert |multiset(other)| == |other|;
    } else {
      var k := order[0];
      assert k in multiset(other);
      var i :| 0 <= i < |other| && other[i] == k;
      var without := other[..i] + other[i + 1..];
      MultisetWithout(other, i);
      MultisetWithout(order, 0);
      assert order[..0] + order[0 + 1..] == order[1..];
      BlocksLengthWithout(m, other, i);
      SameLengthInAnyOrder(m, order[1..], without);
    }
  }

  // ----- the parameters

  datatype AddTransferParameters = AddTransferParameters(
    Hashes: HashSet,
    Filename: seq<byte>,
    Filesize: nat,
    Pieces: Bits,
    DownloadedBlocks: map<nat, Bits>)

  /** Exactly the parameters that survive saving and loading. */
  predicate WellFormedParameters(atp: AddTransferParameters) {
    && |atp.Hashes.PieceHashes| <= MAX_ELEMS
    && WellFormedContainer(atp.Filename)
    && atp.Filesize < 0x1_0000_0000_0000_0000
    && WellFormedBits(atp.Pieces)
    && |atp.DownloadedBlocks| <= MAX_ELEMS
    && WellFormedBlocks(atp.DownloadedBlocks)
  }

  function EncodeFront(atp: AddTransferParameters): seq<byte> {
    EncodeHashSet(atp.Hashes)
    + (EncodeContainer(atp.Filename) + (LittleEndian(atp.Filesize, 8) + EncodeBits(atp.Pieces)))
  }

  function EncodeParameters(atp: AddTransferParameters, order: seq<nat>): seq<byte>
    requires forall k :: k in order ==> k in atp.DownloadedBlocks
  {
    EncodeFront(atp) + (LittleEndian(|atp.DownloadedBlocks|, 2) + EncodeBlocks(atp.DownloadedBlocks, order))
  }

  /** Read does nothing once the error is set. */
  function ReadOr<T>(b: Buffer, got: Got<T>, initial: T): Got<T> {
    if b.err.Some? then Got(b, initial) else got
  }

  const NO_HASHES := HashSet(Zeros(HASH_LEN), [])

  function GetFront(b: Buffer): Got<AddTransferParameters> {
    var hashes := ReadOr(b, GetHashSet(b), NO_HASHES);
    var filename := GetContainer(hashes.buffer);
    var filesize := TakeNumber(filename.buffer, 8);
    var pieces := GetBits(filesize.buffer);
    Got(pieces.buffer, AddTransferParameters(hashes.value, filename.value, filesize.value, pieces.value, map[]))
  }

  function GetParameters(b: Buffer): Got<AddTransferParameters> {
    var front := GetFront(b);
    var count := TakeNumber(front.buffer, 2);
    if count.buffer.err.Some? then Got(count.buffer, front.value)
    else if count.value > MAX_ELEMS then Got(count.buffer.Fail(TooMany), front.value)
    else
      var blocks := GetBlocks(count.buffer, count.value, map[]);
      Got(blocks.buffer, front.value.(DownloadedBlocks := blocks.value))
  }

  function PutFront(b: Buffer, atp: AddTransferParameters): Buffer {
    var hashes := if b.err.Some? then b else PutHashSet(b, atp.Hashes);
    PutBits(PutNumber(PutContainer(hashes, atp.Filename), atp.Filesize, 8), atp.Pieces)
  }

  function PutParameters(b: Buffer, atp: AddTransferParameters, order: seq<nat>): Buffer
    requires forall k :: k in order ==> k in atp.DownloadedBlocks
  {
    PutBlocks(PutNumber(PutFront(b, atp), |atp.DownloadedBlocks|, 2), atp.DownloadedBlocks, order)
  }

  method ReadParameters(sb: StateBuffer) returns (atp: AddTransferParameters)
    modifies sb
    ensures Got(sb.Value(), atp) == GetParameters(old(sb.Value()))
  {
    hide GetFront, TakeNumber, GetBits;
    atp := ReadFront(sb);
    var downloadedBlocksSize := sb.ReadNumber(2);
    if sb.err.None? {
      if downloadedBlocksSize > MAX_ELEMS {
        sb.SetError(TooMany);
        return;
      }
      ghost var all := GetBlocks(sb.Value(), downloadedBlocksSize, map[]);
      var blocks: map<nat, Bits> := map[];
      var i := 0;
      while i < downloadedBlocksSize
        invariant 0 <= i <= downloadedBlocksSize
        invariant GetBlocks(sb.Value(), downloadedBlocksSize - i, blocks) == all
      {
        var pieceIndex := sb.ReadNumber(4);
        var bf := ReadBits(sb);
        blocks := blocks[pieceIndex := bf];
        i := i + 1;
      }
      atp := atp.(DownloadedBlocks := blocks);
    }
  }

  method ReadFront(sb: StateBuffer) returns (atp: AddTransferParameters)
    modifies sb
    ensures Got(sb.Value(), atp) == GetFront(old(sb.Value()))
  {
    hide GetHashSet, GetContainer, TakeNumber, GetBits;
    var hashes := NO_HASHES;
    if sb.err.None? {
      hashes := ReadHashSet(sb);
    }
    var filename := ReadContainer(sb);
    var filesize := sb.ReadNumber(8);
    var pieces := ReadBits(sb);
    atp := AddTransferParameters(hashes, filename, filesize, pieces, map[]);
  }

  method WriteParameters(sb: StateBuffer, atp: AddTransferParameters) returns (ghost order: seq<nat>)
    modifies sb, sb.Data
    ensures IsOrder(order, atp.DownloadedBlocks.Keys) && (forall k :: k in order ==> k in atp.DownloadedBlocks)
    ensures sb.Value() == PutParameters(old(sb.Value()), atp, order)
  {
    hide PutHashSet, PutContainer, PutBits, PutBytes, LittleEndian;
    if sb.err.None? {
      WriteHashSet(sb, atp.Hashes);
    }
    WriteContainer(sb, atp.Filename);
    sb.WriteNumber(atp.Filesize, 8);
    WriteBits(sb, atp.Pieces);
    sb.WriteNumber(|atp.DownloadedBlocks|, 2);
    order := WriteBlocks(sb, atp.DownloadedBlocks);
  }

  /** The keys come in no particular order. */
  method WriteBlocks(sb: StateBuffer, m: map<nat, Bits>) returns (ghost order: seq<nat>)
    modifies sb, sb.Data
    ensures IsOrder(order, m.Keys) && (forall k :: k in order ==> k in m)
    ensures sb.Value() == PutBlocks(old(sb.Value()), m, order)
  {
    hide PutBits, PutBytes, LittleEndian;
    order := [];
    var keys := m.Keys;
    while keys != {}
      invariant keys <= m.Keys && (forall k :: k in order ==> k in m)
      invariant multiset(order) + multiset(keys) == multiset(m.Keys)
      invariant sb.Value() == PutBlocks(old(sb.Value()), m, order)
      decreases keys
    {
      var i :| i in keys;
      PutBlocksLast(old(sb.Value()), m, order, i);
      sb.WriteNumber(i, 4);
      WriteBits(sb, m[i]);
      assert multiset(keys) == multiset(keys - {i}) + multiset{i};
      order := order + [i];
      keys := keys - {i};
    }
  }

  lemma {:induction false} PutBlocksLast(b: Buffer, m: map<nat, Bits>, order: seq<nat>, last: nat)
    requires (forall k :: k in order ==> k in m) && last in m
    ensures PutBlocks(b, m, order + [last]) == PutBlock(PutBlocks(b, m, order), last, m[last])
    decreases |order|
  {
    hide PutBlock;
    if order == [] {
      assert ([] + [last])[1..] == [];
    } else {
      assert (order + [last])[1..] == order[1..] + [last];
      PutBlocksLast(PutBlock(b, order[0], m[order[0]]), m, order[1..], last);
    }
  }

  /** Size goes over the map in an order of its own. */
  method ParametersSize(atp: AddTransferParameters) returns (size: nat)
    ensures forall order :: && IsOrder(order, atp.DownloadedBlocks.Keys)
                            && (forall k :: k in order ==> k in atp.DownloadedBlocks)
                            ==> size == |EncodeParameters(atp, order)|
  {
    hide EncodeBlocks, EncodeBlock;
    var m := atp.DownloadedBlocks;
    size := HashSetSize(atp.Hashes) + (2 + |atp.Filename|) + 8 + (2 + |atp.Pieces.bytes|) + 2;
    ghost var front := size;
    assert |EncodeFront(atp)| + 2 == front;
    ghost var order: seq<nat> := [];
    var keys := m.Keys;
    EncodeNoBlocks(m);
    while keys != {}
      invariant keys <= m.Keys && (forall k :: k in order ==> k in m)
      invariant multiset(order) + multiset(keys) == multiset(m.Keys)
      invariant size == front + |EncodeBlocks(m, order)|
      decreases keys
    {
      var i :| i in keys;
      size := size + 4;
      size := size + (2 + |m[i].bytes|);
      EncodeOneMore(m, order, i);
      assert multiset(keys) == multiset(keys - {i}) + multiset{i};
      order := order + [i];
      keys := keys - {i};
    }
    forall other: seq<nat> | IsOrder(other, m.Keys) && forall k :: k in other ==> k in m
      ensures size == |EncodeParameters(atp, other)|
    {
      SameLengthInAnyOrder(m, order, other);
    }
  }

  lemma EncodeNoBlocks(m: map<nat, Bits>)
    ensures EncodeBlocks(m, []) == []
  {
  }

  lemma EncodeOneMore(m: map<nat, Bits>, order: seq<nat>, i: nat)
    requires (forall k :: k in order ==> k in m) && i in m
    ensures |EncodeBlocks(m, order + [i])| == |EncodeBlocks(m, order)| + 4 + (2 + |m[i].bytes|)
  {
    BlocksLengthWithout(m, order + [i], |order|);
    assert (order + [i])[..|order|] + (order + [i])[|order| + 1..] == order;
  }

  // ----- round trip

  lemma GetFrontAt(b: Buffer, atp: AddTransferParameters)
    requires WellFormedParameters(atp) && At(b, EncodeFront(atp))
    ensures GetFront(b) == Got(b.Skip(|EncodeFront(atp)|), atp.(DownloadedBlocks := map[]))
  {
    hide GetHashSet, GetContainer, TakeNumber, GetBits;
    hide EncodeHashSet, EncodeContainer, LittleEndian, EncodeBits, WellFormedBits, WellFormedBlocks,
         WellFormedContainer;
    var hashes, filename := EncodeHashSet(atp.Hashes), EncodeContainer(atp.Filename);
    var filesize, pieces := LittleEndian(atp.Filesize, 8), EncodeBits(atp.Pieces);
    Powers();
    AtAppend(b, hashes, filename + (filesize + pieces));
    var b1 := b.Skip(|hashes|);
    AtAppend(b1, filename, filesize + pieces);
    var b2 := b1.Skip(|filename|);
    AtAppend(b2, filesize, pieces);
    GetHashSetAt(b, atp.Hashes);
    GetContainerAt(b1, atp.Filename);
    TakeNumberAt(b2, atp.Filesize, 8);
    GetBitsAt(b2.Skip(8), atp.Pieces);
  }

  lemma GetParametersAt(b: Buffer, atp: AddTransferParameters, order: seq<nat>)
    requires WellFormedParameters(atp) && IsOrder(order, atp.DownloadedBlocks.Keys)
    requires (forall k :: k in order ==> k in atp.DownloadedBlocks) && At(b, EncodeParameters(atp, order))
    ensures GetParameters(b) == Got(b.Skip(|EncodeParameters(atp, order)|), atp)
  {
    hide GetFront, EncodeFront, TakeNumber, LittleEndian, GetBlocks, EncodeBlocks;
    var m := atp.DownloadedBlocks;
    var count, blocks := LittleEndian(|m|, 2), EncodeBlocks(m, order);
    Powers();
    OrderKeys(order, m.Keys);
    AtAppend(b, EncodeFront(atp), count + blocks);
    var b1 := b.Skip(|EncodeFront(atp)|);
    AtAppend(b1, count, blocks);
    GetFrontAt(b, atp);
    TakeNumberAt(b1, |m|, 2);
    GetBlocksAt(b1.Skip(2), map[], m, order);
    FilledInAnyOrder(m, order);
  }

  /** An error stays an error through the fields that follow. */
  lemma FrontErrors(b: Buffer)
    requires GetFront(b).buffer.err.None?
    ensures b.err.None? && GetHashSet(b).buffer.err.None?
    ensures GetContainer(GetHashSet(b).buffer).buffer.err.None?
    ensures TakeNumber(GetContainer(GetHashSet(b).buffer).buffer, 8).buffer.err.None?
  {
    hide GetHashSet;
  }

  lemma GotFrontIsWellFormed(b: Buffer)
    requires GetFront(b).buffer.err.None?
    ensures WellFormedParameters(GetFront(b).value)
  {
    hide GetContainer, GetBits, WellFormedBits, WellFormedContainer, GetHashes;
    FrontErrors(b);
    Powers();
    var hashes := GetHashSet(b);
    GotHashSetIsSmall(b);
    GotContainerIsWellFormed(hashes.buffer);
    var filename := GetContainer(hashes.buffer);
    NumberBelow(Take(filename.buffer, 8).value);
    GotBitsAreWellFormed(TakeNumber(filename.buffer, 8).buffer);
  }

  lemma GotHashSetIsSmall(b: Buffer)
    requires GetHashSet(b).buffer.err.None?
    ensures |GetHashSet(b).value.PieceHashes| <= MAX_ELEMS
  {
    hide GetHashes;
    var size := TakeNumber(GetHash(b).buffer, 2);
    GotHashesCount(size.buffer, size.value);
  }

  lemma GotParametersAreWellFormed(b: Buffer)
    requires GetParameters(b).buffer.err.None?
    ensures WellFormedParameters(GetParameters(b).value)
  {
    hide GetFront, GetBlocks, TakeNumber, WellFormedBits, WellFormedContainer;
    var front := GetFront(b);
    var count := TakeNumber(front.buffer, 2);
    ErrorStays(front.buffer, 2);
    GotFrontIsWellFormed(b);
    GotBlocksAreWellFormed(count.buffer, count.value, map[]);
  }

  lemma PutFrontWrites(b: Buffer, atp: AddTransferParameters)
    requires b.err.None?
    ensures Wrote(b, PutFront(b, atp), EncodeFront(atp))
  {
    hide PutHashSet, PutContainer, PutBits, PutBytes, EncodeHashSet, EncodeContainer, LittleEndian, EncodeBits;
    var filename, filesize, pieces := EncodeContainer(atp.Filename), LittleEndian(atp.Filesize, 8),
        EncodeBits(atp.Pieces);
    var t := PutHashSet(b, atp.Hashes);
    var u := PutContainer(t, atp.Filename);
    var v := PutNumber(u, atp.Filesize, 8);
    var w := PutBits(v, atp.Pieces);
    PutHashSetWrites(b, atp.Hashes);
    PutContainerWrites(t, atp.Filename);
    PutWrites(u, filesize);
    PutBitsWrites(v, atp.Pieces);
    WroteAppend(u, v, w, filesize, pieces);
    WroteAppend(t, u, w, filename, filesize + pieces);
    WroteAppend(b, t, w, EncodeHashSet(atp.Hashes), filename + (filesize + pieces));
  }

  lemma PutParametersWrites(b: Buffer, atp: AddTransferParameters, order: seq<nat>)
    requires b.err.None? && forall k :: k in order ==> k in atp.DownloadedBlocks
    ensures Wrote(b, PutParameters(b, atp, order), EncodeParameters(atp, order))
  {
    hide PutFront, EncodeFront, PutBytes, PutBlocks, EncodeBlocks, LittleEndian;
    var m := atp.DownloadedBlocks;
    var count := LittleEndian(|m|, 2);
    var t := PutFront(b, atp);
    var u := PutNumber(t, |m|, 2);
    var v := PutBlocks(u, m, order);
    PutFrontWrites(b, atp);
    PutWrites(t, count);
    PutBlocksWrites(u, m, order);
    WroteAppend(t, u, v, count, EncodeBlocks(m, order));
    WroteAppend(b, t, v, EncodeFront(atp), count + EncodeBlocks(m, order));
  }

  /** Whatever the order of the map, what Put writes is Size bytes long and Get
      reads the same parameters back, exactly when they are well formed. */
  lemma ParametersRoundTripIff(b: Buffer, atp: AddTransferParameters, order: seq<nat>)
    requires IsOrder(order, atp.DownloadedBlocks.Keys) && forall k :: k in order ==> k in atp.DownloadedBlocks
    requires b.Room(|EncodeParameters(atp, order)|)
    ensures PutParameters(b, atp, order).err.None?
    ensures PutParameters(b, atp, order).pos == b.pos + |EncodeParameters(atp, order)|
    ensures RoundTrips(GetParameters, PutParameters(b, atp, order), b.pos, atp) <==> WellFormedParameters(atp)
  {
    hide EncodeParameters, GetParameters, PutParameters, WellFormedParameters;
    var written := PutParameters(b, atp, order);
    PutParametersWrites(b, atp, order);
    WrittenIsThere(b, written, EncodeParameters(atp, order));
    var start := written.(pos := b.pos);
    if WellFormedParameters(atp) {
      GetParametersAt(start, atp, order);
    }
    if GetParameters(start) == Got(written, atp) {
      GotParametersAreWellFormed(start);
    }
  }

  lemma FrontLonger(b: Buffer, more: seq<byte>)
    ensures Stable(b, GetFront(b), GetFront(Longer(b, more)), more)
  {
    hide GetHashSet, GetContainer, TakeNumber, GetBits;
    if GetFront(b).buffer.err.None? {
      FrontErrors(b);
      var hashes := GetHashSet(b);
      var filename := GetContainer(hashes.buffer);
      var filesize := TakeNumber(filename.buffer, 8);
      HashSetLonger(b, more);
      ContainerLonger(hashes.buffer, more);
      TakeLonger(filename.buffer, more, 8);
      BitsLonger(filesize.buffer, more);
    }
  }

  lemma ParametersLonger(b: Buffer, more: seq<byte>)
    ensures Stable(b, GetParameters(b), GetParameters(Longer(b, more)), more)
  {
    hide GetFront, TakeNumber, GetBlocks;
    FrontLonger(b, more);
    var front := GetFront(b);
    ErrorStays(front.buffer, 2);
    TakeLonger(front.buffer, more, 2);
    var count := TakeNumber(front.buffer, 2);
    BlocksLonger(count.buffer, more, count.value, map[]);
  }

  /** A resume file cut short anywhere is an error. */
  lemma ShortParametersFail(b: Buffer, atp: AddTransferParameters, order: seq<nat>, cut: nat)
    requires WellFormedParameters(atp) && IsOrder(order, atp.DownloadedBlocks.Keys)
    requires forall k :: k in order ==> k in atp.DownloadedBlocks
    requires b.err.None? && b.pos <= |b.data| && cut < |EncodeParameters(atp, order)|
    requires b.data[b.pos..] == EncodeParameters(atp, order)[..cut]
    ensures GetParameters(b).buffer.err.Some?
  {
    hide GetParameters, EncodeParameters, WellFormedParameters;
    var e := EncodeParameters(atp, order);
    CompletedIsThere(b, e, cut);
    GetParametersAt(Longer(b, e[cut..]), atp, order);
    ParametersLonger(b, e[cut..]);
    ShortFails(b, e, cut, GetParameters(b), GetParameters(Longer(b, e[cut..])));
  }
}
