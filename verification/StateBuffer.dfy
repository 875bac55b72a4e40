/** The serializer: a byte buffer with a position and an error that sticks
    (proto/common.go, StateBuffer and ByteContainer). */
module StateBuffers {
  import opened Bytes

  datatype Error = Eof | InvalidType | UnknownTag | TooMany

  const MAX_ELEMS: nat := 1000

  datatype Buffer = Buffer(data: seq<byte>, pos: nat, err: Option<Error>)
  {
    predicate Room(n: nat) {
      err.None? && pos + n <= |data|
    }

    function Skip(n: nat): Buffer {
      this.(pos := pos + n)
    }

    function Fail(e: Error): Buffer {
      this.(err := Some(e))
    }
  }

  /** A buffer after a read, and what was read. */
  datatype Got<+T> = Got(buffer: Buffer, value: T)

  // ----- little-endian numbers

  function Pow256(width: nat): (p: nat)
    ensures p > 0
  {
    if width == 0 then 1 else 256 * Pow256(width - 1)
  }

  /** The low bytes of a number; what does not fit is cut off. */
  function LittleEndian(n: nat, width: nat): (bs: seq<byte>)
    ensures |bs| == width
  {
    if width == 0 then [] else [ToByte(n % 256)] + LittleEndian(n / 256, width - 1)
  }

  function Number(bs: seq<byte>): nat {
    if bs == [] then 0 else FromByte(bs[0]) + 256 * Number(bs[1..])
  }

  lemma {:induction false} NumberBelow(bs: seq<byte>)
    ensures Number(bs) < Pow256(|bs|)
  {
    if bs != [] {
      NumberBelow(bs[1..]);
    }
  }

  lemma {:induction false} NumberOfZeros(width: nat)
    ensures Number(Zeros(width)) == 0
  {
    if width != 0 {
      assert Zeros(width)[1..] == Zeros(width - 1);
      NumberOfZeros(width - 1);
    }
  }

  /** What fits comes back, and what comes back fits. */
  lemma {:induction false} NumberRoundTripIff(n: nat, width: nat)
    ensures Number(LittleEndian(n, width)) == n <==> n < Pow256(width)
  {
    if width == 0 {
      assert Pow256(0) == 1;
    } else {
      hide ToByte, FromByte;
      var q, low := n / 256, n % 256;
      var rest := LittleEndian(q, width - 1);
      assert LittleEndian(n, width) == [ToByte(low)] + rest;
      assert ([ToByte(low)] + rest)[1..] == rest;
      ByteRoundTrip(low, 0);
      NumberRoundTripIff(q, width - 1);
      DigitBelow(n, Pow256(width - 1));
    }
  }

  lemma DigitBelow(n: nat, p: nat)
    ensures n == n % 256 + 256 * (n / 256)
    ensures n / 256 < p <==> n < 256 * p
  {
  }

  lemma Digits(low: nat, rest: nat)
    requires low < 256
    ensures (low + 256 * rest) % 256 == low && (low + 256 * rest) / 256 == rest
  {
  }

  lemma {:induction false} BytesRoundTrip(bs: seq<byte>)
    ensures LittleEndian(Number(bs), |bs|) == bs
  {
    hide ToByte, FromByte;
    if bs != [] {
      BytesRoundTrip(bs[1..]);
      Digits(FromByte(bs[0]), Number(bs[1..]));
      ByteRoundTrip(0, bs[0]);
    }
  }

  lemma Powers()
    ensures Pow256(1) == 0x100 && Pow256(2) == 0x1_0000 && Pow256(4) == 0x1_0000_0000
    ensures Pow256(8) == 0x1_0000_0000_0000_0000
  {
    assert Pow256(1) == 0x100;
    assert Pow256(2) == 0x1_0000;
    assert Pow256(3) == 0x100_0000;
    assert Pow256(4) == 0x1_0000_0000;
    assert Pow256(5) == 0x100_0000_0000;
    assert Pow256(6) == 0x1_0000_0000_0000;
    assert Pow256(7) == 0x100_0000_0000_0000;
  }

  // ----- what the buffer operations do

  /** The next n bytes; without them the error is set and zeros are read. */
  function Take(b: Buffer, n: nat): (r: Got<seq<byte>>)
    ensures |r.value| == n
  {
    if b.Room(n) then Got(b.Skip(n), b.data[b.pos..b.pos + n])
    else Got(if b.err.None? then b.Fail(Eof) else b, Zeros(n))
  }

  function TakeNumber(b: Buffer, width: nat): Got<nat> {
    var bs := Take(b, width);
    Got(bs.buffer, Number(bs.value))
  }

  /** Reading into a byte slice: an empty slice reads as an invalid type. */
  function TakeSlice(b: Buffer, n: nat): (r: Got<seq<byte>>)
    ensures |r.value| == n
  {
    if b.Room(n) && n == 0 then Got(b.Fail(InvalidType), []) else Take(b, n)
  }

  function PutBytes(b: Buffer, bs: seq<byte>): Buffer {
    if b.Room(|bs|) then Buffer(Overlay(b.data, b.pos, bs), b.pos + |bs|, None)
    else if b.err.None? then b.Fail(Eof)
    else b
  }

  function PutNumber(b: Buffer, n: nat, width: nat): Buffer {
    PutBytes(b, LittleEndian(n, width))
  }

  class StateBuffer {
    const Data: array<byte>
    var err: Option<Error>
    var pos: nat

    ghost function Value(): Buffer
      reads this, Data
    {
      Buffer(Data[..], pos, err)
    }

    constructor (data: array<byte>)
      ensures Data == data && Value() == Buffer(data[..], 0, None)
    {
      Data, err, pos := data, None, 0;
    }

    /** ReadUint8, ReadUint16, ReadUint32, ReadUint64, and Read of a number. */
    method ReadNumber(width: nat) returns (n: nat)
      requires width > 0
      modifies this
      ensures Got(Value(), n) == TakeNumber(old(Value()), width)
    {
      NumberOfZeros(width);
      if err.Some? {
        return 0;
      }
      if pos + width <= Data.Length {
        n := NumberAt(width);
        pos := pos + width;
        return;
      }
      err := Some(Eof);
      n := 0;
    }

    method NumberAt(width: nat) returns (n: nat)
      requires pos + width <= Data.Length
      ensures n == Number(Data[pos..pos + width])
    {
      n := 0;
      var i := width;
      while 0 < i
        invariant 0 <= i <= width && n == Number(Data[pos + i..pos + width])
      {
        i := i - 1;
        assert Data[pos + i..pos + width][1..] == Data[pos + i + 1..pos + width];
        n := FromByte(Data[pos + i]) + 256 * n;
      }
    }

    /** Read of a new byte slice of n zeros. */
    method ReadSlice(n: nat) returns (bs: seq<byte>)
      modifies this
      ensures Got(Value(), bs) == TakeSlice(old(Value()), n)
    {
      bs := Zeros(n);
      if err.Some? {
        return;
      }
      if n + pos > Data.Length {
        err := Some(Eof);
        return;
      }
      bs := Data[pos..pos + n];
      if n != 0 {
        pos := pos + n;
        return;
      }
      err := Some(InvalidType);
    }

    /** Write of a number. */
    method WriteNumber(n: nat, width: nat)
      modifies this, Data
      ensures Value() == PutNumber(old(Value()), n, width)
    {
      WriteBytes(LittleEndian(n, width));
    }

    method WriteBytes(bs: seq<byte>)
      modifies this, Data
      ensures Value() == PutBytes(old(Value()), bs)
    {
      if err.Some? {
        return;
      }
      if pos + |bs| > Data.Length {
        err := Some(Eof);
        return;
      }
      var i := 0;
      while i < |bs|
        invariant 0 <= i <= |bs| && pos == old(pos) && err == old(err)
        invariant forall k :: 0 <= k < Data.Length ==>
                                Data[k] == if pos <= k < pos + i then bs[k - pos] else old(Data[..])[k]
      {
        Data[pos + i] := bs[i];
        i := i + 1;
      }
      assert Data[..] == Overlay(old(Data[..]), pos, bs);
      pos := pos + |bs|;
    }

    method SetError(e: Error)
      modifies this`err
      ensures Value() == old(Value()).Fail(e)
    {
      err := Some(e);
    }
  }

  // ----- putting and getting in sequence

  /** The bytes e lie ahead. */
  predicate At(b: Buffer, e: seq<byte>) {
    b.Room(|e|) && b.data[b.pos..b.pos + |e|] == e
  }

  lemma AtAppend(b: Buffer, d: seq<byte>, e: seq<byte>)
    ensures At(b, d + e) <==> At(b, d) && At(b.Skip(|d|), e)
    ensures b.Skip(|d|).Skip(|e|) == b.Skip(|d + e|)
  {
    if b.Room(|d + e|) {
      var ahead := b.data[b.pos..b.pos + |d + e|];
      assert ahead[..|d|] == b.data[b.pos..b.pos + |d|];
      assert ahead[|d|..] == b.data[b.pos + |d|..b.pos + |d| + |e|];
      assert ahead == d + e <==> ahead[..|d|] == d && ahead[|d|..] == e;
    }
  }

  lemma TakeAt(b: Buffer, e: seq<byte>)
    requires At(b, e)
    ensures Take(b, |e|) == Got(b.Skip(|e|), e)
    ensures e != [] ==> TakeSlice(b, |e|) == Got(b.Skip(|e|), e)
  {
  }

  lemma TakeNumberAt(b: Buffer, n: nat, width: nat)
    requires At(b, LittleEndian(n, width)) && n < Pow256(width)
    ensures TakeNumber(b, width) == Got(b.Skip(width), n)
  {
    NumberRoundTripIff(n, width);
  }

  /** t is b with e written, or t has an error and b has no room for e.
      Writing no parts at all changes nothing. */
  ghost predicate Wrote(b: Buffer, t: Buffer, e: seq<byte>) {
    if b.Room(|e|) then t == PutBytes(b, e) else t.err.Some? || (e == [] && t == b)
  }

  lemma PutWrites(b: Buffer, e: seq<byte>)
    ensures Wrote(b, PutBytes(b, e), e)
  {
  }

  lemma WroteAppend(b: Buffer, t: Buffer, u: Buffer, d: seq<byte>, e: seq<byte>)
    requires Wrote(b, t, d) && Wrote(t, u, e)
    ensures Wrote(b, u, d + e)
  {
    if b.Room(|d + e|) {
      assert u.data == Overlay(b.data, b.pos, d + e);
    }
  }

  /** What was written lies ahead when the buffer is read from the same position. */
  lemma WrittenIsThere(b: Buffer, t: Buffer, e: seq<byte>)
    requires Wrote(b, t, e) && b.Room(|e|)
    ensures t.err.None? && t.pos == b.pos + |e| && At(t.(pos := b.pos), e)
  {
    assert Overlay(b.data, b.pos, e)[b.pos..b.pos + |e|] == e;
  }

  /** A read from b that succeeded stays inside the data, and gives the same with more data behind. */
  ghost predicate Stable<T(!new)>(b: Buffer, short: Got<T>, long: Got<T>, more: seq<byte>) {
    short.buffer.err.None? ==>
      && short.buffer.data == b.data
      && (b.pos <= |b.data| ==> short.buffer.pos <= |b.data|)
      && long == Got(Longer(short.buffer, more), short.value)
  }

  function Longer(b: Buffer, more: seq<byte>): Buffer {
    b.(data := b.data + more)
  }

  lemma TakeLonger(b: Buffer, more: seq<byte>, n: nat)
    ensures Stable(b, Take(b, n), Take(Longer(b, more), n), more)
    ensures Stable(b, TakeSlice(b, n), TakeSlice(Longer(b, more), n), more)
    ensures Stable(b, TakeNumber(b, n), TakeNumber(Longer(b, more), n), more)
  {
    if b.Room(n) {
      assert (b.data + more)[b.pos..b.pos + n] == b.data[b.pos..b.pos + n];
    }
  }

  /** What is there when the missing part of e is added. */
  lemma CompletedIsThere(b: Buffer, e: seq<byte>, cut: nat)
    requires b.err.None? && b.pos <= |b.data| && cut <= |e| && b.data[b.pos..] == e[..cut]
    ensures At(Longer(b, e[cut..]), e)
  {
    assert Longer(b, e[cut..]).data[b.pos..] == e[..cut] + e[cut..] == e;
  }

  /** Data that ends inside e is an error for a read that needs all of e. */
  lemma ShortFails<T(!new)>(b: Buffer, e: seq<byte>, cut: nat, short: Got<T>, long: Got<T>)
    requires b.err.None? && b.pos <= |b.data| && cut < |e| && b.data[b.pos..] == e[..cut]
    requires Stable(b, short, long, e[cut..]) && long.buffer == Longer(b, e[cut..]).Skip(|e|)
    ensures short.buffer.err.Some?
  {
  }

  // ----- byte containers

  function EncodeContainer(bs: seq<byte>): seq<byte> {
    LittleEndian(|bs|, 2) + bs
  }

  /** Only a container that was read is stored; a failed read leaves it empty. */
  function GetContainer(b: Buffer): Got<seq<byte>> {
    var length := TakeNumber(b, 2);
    if length.buffer.err.Some? then Got(length.buffer, [])
    else
      var data := TakeSlice(length.buffer, length.value);
      if data.buffer.err.None? then data else Got(data.buffer, [])
  }

  function PutContainer(b: Buffer, bs: seq<byte>): Buffer {
    PutBytes(PutNumber(b, |bs|, 2), bs)
  }

  predicate WellFormedContainer(bs: seq<byte>) {
    0 < |bs| < 0x1_0000
  }

  lemma GetContainerAt(b: Buffer, bs: seq<byte>)
    requires At(b, EncodeContainer(bs)) && WellFormedContainer(bs)
    ensures GetContainer(b) == Got(b.Skip(|EncodeContainer(bs)|), bs)
  {
    Powers();
    AtAppend(b, LittleEndian(|bs|, 2), bs);
    TakeNumberAt(b, |bs|, 2);
    TakeAt(b.Skip(2), bs);
  }

  lemma GotContainerIsWellFormed(b: Buffer)
    requires GetContainer(b).buffer.err.None?
    ensures WellFormedContainer(GetContainer(b).value)
  {
    Powers();
    NumberBelow(Take(b, 2).value);
  }

  lemma PutContainerWrites(b: Buffer, bs: seq<byte>)
    ensures Wrote(b, PutContainer(b, bs), EncodeContainer(bs))
  {
    var t := PutNumber(b, |bs|, 2);
    PutWrites(b, LittleEndian(|bs|, 2));
    PutWrites(t, bs);
    WroteAppend(b, t, PutContainer(b, bs), LittleEndian(|bs|, 2), bs);
  }

  lemma ContainerLonger(b: Buffer, more: seq<byte>)
    ensures Stable(b, GetContainer(b), GetContainer(Longer(b, more)), more)
  {
    TakeLonger(b, more, 2);
    TakeLonger(TakeNumber(b, 2).buffer, more, TakeNumber(b, 2).value);
  }

  method ReadContainer(sb: StateBuffer) returns (bc: seq<byte>)
    modifies sb
    ensures Got(sb.Value(), bc) == GetContainer(old(sb.Value()))
  {
    bc := [];
    var length := sb.ReadNumber(2);
    if sb.err.None? {
      var data := sb.ReadSlice(length);
      if sb.err.None? {
        bc := data;
      }
    }
  }

  method WriteContainer(sb: StateBuffer, bc: seq<byte>)
    modifies sb, sb.Data
    ensures sb.Value() == PutContainer(old(sb.Value()), bc)
  {
    sb.WriteNumber(|bc|, 2);
    sb.WriteBytes(bc);
  }
}
