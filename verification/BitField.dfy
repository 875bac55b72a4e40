/** A growable array of bits packed into bytes, most significant bit first
    (proto/bitfield.go). */
module BitFields {
  import opened Bytes

  function MaskOf(k: nat): byte
    requires k < 8
  {
    match k
    case 0 => 0x80
    case 1 => 0x40
    case 2 => 0x20
    case 3 => 0x10
    case 4 => 0x08
    case 5 => 0x04
    case 6 => 0x02
    case 7 => 0x01
  }

  /** Bit k of a byte, counted from the most significant one. */
  predicate BitOf(b: byte, k: nat)
    requires k < 8
  {
    b & MaskOf(k) != 0
  }

  /** A byte is what its bits spell, the first one being the highest. */
  lemma BitsSpellByte(b: byte)
    ensures b == (if BitOf(b, 0) then 0x80 else 0x00) | (if BitOf(b, 1) then 0x40 else 0x00)
                 | (if BitOf(b, 2) then 0x20 else 0x00) | (if BitOf(b, 3) then 0x10 else 0x00)
                 | (if BitOf(b, 4) then 0x08 else 0x00) | (if BitOf(b, 5) then 0x04 else 0x00)
                 | (if BitOf(b, 6) then 0x02 else 0x00) | (if BitOf(b, 7) then 0x01 else 0x00)
  {
  }

  function BitsToBytes(count: nat): nat {
    (count + 8 - 1) / 8
  }

  /** All bits of a byte sequence. */
  function Unpack(bs: seq<byte>): (r: seq<bool>)
    ensures |r| == 8 * |bs|
  {
    seq(8 * |bs|, i requires 0 <= i < 8 * |bs| => BitOf(bs[i / 8], i % 8))
  }

  lemma UnpackAt(bs: seq<byte>, index: nat)
    requires index < 8 * |bs|
    ensures Unpack(bs)[index] == BitOf(bs[index / 8], index % 8)
  {
  }

  lemma UnpackByte(bs: seq<byte>, i: nat, k: nat)
    requires i < |bs| && k < 8
    ensures Unpack(bs)[8 * i + k] == BitOf(bs[i], k)
  {
    assert (8 * i + k) / 8 == i && (8 * i + k) % 8 == k;
  }

  function Bit(b: bool): nat {
    if b then 1 else 0
  }

  /** How many of the first n are true. */
  function CountTo(s: seq<bool>, n: nat): nat
    requires n <= |s|
  {
    if n == 0 then 0 else CountTo(s, n - 1) + Bit(s[n - 1])
  }

  function CountTrue(s: seq<bool>): nat {
    CountTo(s, |s|)
  }

  function Members(s: seq<bool>): set<nat> {
    set i: nat | i < |s| && s[i]
  }

  /** Counting bits is the cardinality of the set they stand for. */
  lemma CountIsCardinality(s: seq<bool>)
    ensures CountTrue(s) == |Members(s)| <= |s|
  {
    CountToIsCardinality(s, |s|);
    assert Members(s) == set i: nat | i < |s| && s[i];
  }

  lemma {:induction false} CountToIsCardinality(s: seq<bool>, n: nat)
    requires n <= |s|
    ensures CountTo(s, n) == |set i: nat | i < n && s[i]| <= n
  {
    var members := set i: nat | i < n && s[i];
    if n != 0 {
      CountToIsCardinality(s, n - 1);
      var init := set i: nat | i < n - 1 && s[i];
      assert members == if s[n - 1] then init + {n - 1} else init;
    } else {
      assert members == {};
    }
  }

  lemma {:induction false} CountAllIff(s: seq<bool>, n: nat)
    requires n <= |s|
    ensures CountTo(s, n) <= n
    ensures CountTo(s, n) == n <==> forall i :: 0 <= i < n ==> s[i]
  {
    if n != 0 {
      CountAllIff(s, n - 1);
    }
  }

  lemma {:induction false} CountSame(s: seq<bool>, t: seq<bool>, n: nat)
    requires n <= |s| && n <= |t| && forall i :: 0 <= i < n ==> s[i] == t[i]
    ensures CountTo(s, n) == CountTo(t, n)
  {
    if n != 0 {
      CountSame(s, t, n - 1);
    }
  }

  lemma {:induction false} CountUpdate(s: seq<bool>, i: nat, v: bool, n: nat)
    requires i < n <= |s|
    ensures CountTo(s[i := v], n) == CountTo(s, n) - Bit(s[i]) + Bit(v)
  {
    if i == n - 1 {
      CountSame(s, s[i := v], n - 1);
    } else {
      CountUpdate(s, i, v, n - 1);
    }
  }

  // ----- bit arithmetic on one byte

  lemma Masks(k: nat, j: nat)
    requires k < 8 && j < 8
    ensures (0x80 as bv8) >> k == MaskOf(k) != 0
    ensures k != j ==> MaskOf(k) & MaskOf(j) == 0
  {
  }

  lemma OrAndNot(b: byte, x: byte, y: byte)
    ensures x & y == 0 ==> (b | x) & y == b & y && (b & !x) & y == b & y
    ensures (b | x) & x == x && (b & !x) & x == 0
  {
  }

  lemma SettingBit(b: byte, k: nat, j: nat)
    requires k < 8 && j < 8
    ensures BitOf(b | (0x80 >> k), j) == (j == k || BitOf(b, j))
  {
    Masks(k, j);
    Masks(j, k);
    hide MaskOf;
    OrAndNot(b, MaskOf(k), MaskOf(j));
  }

  lemma ClearingMask(b: byte, mask: byte, k: nat, j: nat)
    requires k < 8 && j < 8 && mask == MaskOf(k)
    ensures BitOf(b & !mask, j) == (j != k && BitOf(b, j))
  {
    Masks(k, j);
    hide MaskOf;
    OrAndNot(b, mask, MaskOf(j));
  }

  lemma ClearingBit(b: byte, k: nat, j: nat)
    requires k < 8 && j < 8
    ensures BitOf(b & !(0x80 >> k), j) == (j != k && BitOf(b, j))
  {
    Masks(k, j);
    hide BitOf, MaskOf;
    ClearingMask(b, 0x80 >> k, k, j);
  }

  /** The byte whose first k bits are set. */
  function FirstBits(k: nat): byte
    requires k < 8
  {
    match k
    case 0 => 0
    case 1 => 0x80
    case 2 => 0xc0
    case 3 => 0xe0
    case 4 => 0xf0
    case 5 => 0xf8
    case 6 => 0xfc
    case 7 => 0xfe
  }

  lemma FirstBitsMasks(k: nat, j: nat)
    requires k < 8 && j < 8
    ensures 0 < k ==> (0xff as bv8) << (8 - k) == FirstBits(k)
    ensures (0xff as bv8) >> k == !FirstBits(k)
    ensures FirstBits(k) & MaskOf(j) == if j < k then MaskOf(j) else 0
  {
  }

  lemma AndOrNot(b: byte, f: byte, m: byte)
    ensures f & m == m ==> (b & f) & m == b & m && (b | !f) & m == b & m
    ensures f & m == 0 ==> (b & f) & m == 0 && (b | !f) & m == m
  {
  }

  lemma KeepFirstBits(b: byte, k: nat, j: nat)
    requires 0 < k < 8 && j < 8
    ensures BitOf(b & ((0xff as bv8) << (8 - k)), j) == (j < k && BitOf(b, j))
  {
    Masks(j, j);
    FirstBitsMasks(k, j);
    AndOrNot(b, FirstBits(k), MaskOf(j));
  }

  lemma FillLastBits(b: byte, k: nat, j: nat)
    requires k < 8 && j < 8
    ensures BitOf(b | ((0xff as bv8) >> k), j) == (j >= k || BitOf(b, j))
    ensures BitOf(0xff, j) && !BitOf(0, j)
  {
    Masks(j, j);
    FirstBitsMasks(k, j);
    FirstBitsMasks(0, j);
    AndOrNot(b, FirstBits(k), MaskOf(j));
  }

  function NumBits(): (t: seq<nat>)
    ensures |t| == 16
  {
    [0, 1, 1, 2, 1, 2, 2, 3, 1, 2, 2, 3, 2, 3, 3, 4]
  }

  /** The bits of a byte, looked up nibble by nibble. */
  function ByteCount(b: byte): nat {
    NumBits()[(b & 0xf) as int] + NumBits()[(b >> 4) as int]
  }

  /** Bit i of a byte as the tail loop of Count extracts it. */
  function TailBit(b: byte, i: nat): nat
    requires i < 8
  {
    ((b >> (7 - i)) & 1) as int
  }

  lemma TailBitIsBit(b: byte, i: nat)
    requires i < 8
    ensures TailBit(b, i) == Bit(BitOf(b, i))
  {
  }

  lemma NibbleTable(b: byte)
    ensures NumBits()[(b & 0xf) as int] == Bit(BitOf(b, 4)) + Bit(BitOf(b, 5)) + Bit(BitOf(b, 6)) + Bit(BitOf(b, 7))
    ensures NumBits()[(b >> 4) as int] == Bit(BitOf(b, 0)) + Bit(BitOf(b, 1)) + Bit(BitOf(b, 2)) + Bit(BitOf(b, 3))
  {
  }

  lemma CountFourBits(s: seq<bool>, n: nat)
    requires n + 4 <= |s|
    ensures CountTo(s, n + 4) == CountTo(s, n) + Bit(s[n]) + Bit(s[n + 1]) + Bit(s[n + 2]) + Bit(s[n + 3])
  {
    assert CountTo(s, n + 2) == CountTo(s, n) + Bit(s[n]) + Bit(s[n + 1]);
  }

  /** The nibble table adds the bits of one more byte. */
  lemma CountNextByte(bs: seq<byte>, i: nat)
    requires i < |bs|
    ensures CountTo(Unpack(bs), 8 * i + 8) == CountTo(Unpack(bs), 8 * i) + ByteCount(bs[i])
  {
    hide Unpack, BitOf;
    var s, n, b := Unpack(bs), 8 * i, bs[i];
    assert CountTo(s, n + 4)
        == CountTo(s, n) + Bit(BitOf(b, 0)) + Bit(BitOf(b, 1)) + Bit(BitOf(b, 2)) + Bit(BitOf(b, 3)) by {
      CountFourBits(s, n);
      UnpackByte(bs, i, 0);
      UnpackByte(bs, i, 1);
      UnpackByte(bs, i, 2);
      UnpackByte(bs, i, 3);
    }
    assert CountTo(s, n + 8)
        == CountTo(s, n + 4) + Bit(BitOf(b, 4)) + Bit(BitOf(b, 5)) + Bit(BitOf(b, 6)) + Bit(BitOf(b, 7)) by {
      CountFourBits(s, n + 4);
      UnpackByte(bs, i, 4);
      UnpackByte(bs, i, 5);
      UnpackByte(bs, i, 6);
      UnpackByte(bs, i, 7);
    }
    NibbleTable(b);
  }

  lemma CountTailBit(bs: seq<byte>, i: nat, k: nat)
    requires i < |bs| && k < 8
    ensures CountTo(Unpack(bs), 8 * i + k + 1) == CountTo(Unpack(bs), 8 * i + k) + TailBit(bs[i], k)
  {
    hide Unpack, BitOf;
    TailBitIsBit(bs[i], k);
    UnpackByte(bs, i, k);
  }

  /** Changing one bit of one byte changes one bit of the whole. */
  lemma UnpackUpdate(bs: seq<byte>, index: nat, b: byte, v: bool)
    requires index / 8 < |bs|
    requires forall k :: 0 <= k < 8 ==> BitOf(b, k) == if k == index % 8 then v else BitOf(bs[index / 8], k)
    ensures Unpack(bs[index / 8 := b]) == Unpack(bs)[index := v]
  {
    hide Unpack, BitOf;
    var after := Unpack(bs[index / 8 := b]);
    forall i | 0 <= i < 8 * |bs|
      ensures after[i] == Unpack(bs)[index := v][i]
    {
      UnpackAt(bs, i);
      UnpackAt(bs[index / 8 := b], i);
    }
  }

  /** Masking the byte with the last bits clears the bits after them. */
  lemma UnpackMask(bs: seq<byte>, bits: nat, b: byte)
    requires bits / 8 < |bs| == BitsToBytes(bits)
    requires forall k :: 0 <= k < 8 ==> BitOf(b, k) == (k < bits % 8 && BitOf(bs[bits / 8], k))
    ensures forall i :: 0 <= i < 8 * |bs| ==> Unpack(bs[bits / 8 := b])[i] == (i < bits && Unpack(bs)[i])
  {
    hide Unpack, BitOf;
    forall i | 0 <= i < 8 * |bs|
      ensures Unpack(bs[bits / 8 := b])[i] == (i < bits && Unpack(bs)[i])
    {
      UnpackAt(bs, i);
      UnpackAt(bs[bits / 8 := b], i);
    }
  }

  /** Filling the bits from s on, byte by byte. */
  lemma UnpackFill(r: seq<byte>, f: seq<byte>, s: nat, i: nat)
    requires |r| == |f| && BitsToBytes(s) <= |r| && i < 8 * |r|
    requires forall j :: 0 <= j < s / 8 ==> f[j] == r[j]
    requires s % 8 != 0 ==> f[s / 8] == r[s / 8] | (0xff >> (s % 8))
    requires forall j :: BitsToBytes(s) <= j < |r| ==> f[j] == 0xff
    ensures Unpack(f)[i] == (i >= s || Unpack(r)[i])
  {
    hide Unpack, BitOf;
    UnpackAt(r, i);
    UnpackAt(f, i);
    FillLastBits(r[i / 8], s % 8, i % 8);
  }

  lemma UnpackZeros(f: seq<byte>, i: nat)
    requires i < 8 * |f| && f[i / 8] == 0
    ensures !Unpack(f)[i]
  {
    hide Unpack, BitOf;
    UnpackAt(f, i);
    FillLastBits(0, 0, i % 8);
  }

  lemma {:induction false} UnpackAgree(a: seq<byte>, b: seq<byte>, n: nat)
    requires n <= |a| && n <= |b| && forall i :: 0 <= i < n ==> a[i] == b[i]
    ensures forall i :: 0 <= i < 8 * n ==> Unpack(a)[i] == Unpack(b)[i]
  {
    hide Unpack, BitOf;
    forall i | 0 <= i < 8 * n
      ensures Unpack(a)[i] == Unpack(b)[i]
    {
      UnpackAt(a, i);
      UnpackAt(b, i);
    }
  }

  lemma KeepFirstBitsOfByte(b: byte, n: nat, kept: byte)
    requires 0 < n < 8 && kept == b & ((0xff as bv8) << (8 - n))
    ensures forall k :: 0 <= k < 8 ==> BitOf(kept, k) == (k < n && BitOf(b, k))
  {
    forall k | 0 <= k < 8
      ensures BitOf(kept, k) == (k < n && BitOf(b, k))
    {
      KeepFirstBits(b, n, k);
    }
  }

  class BitField {
    var bytes: array<byte>
    var bits: nat

    /** As many bytes as the bits need, and zeros after the last bit. */
    ghost predicate Valid()
      reads this, bytes
    {
      && bytes.Length == BitsToBytes(bits)
      && forall i :: bits <= i < 8 * bytes.Length ==> !Unpack(bytes[..])[i]
    }

    /** The bits, trailing ones included. */
    ghost function Raw(): seq<bool>
      reads this, bytes
    {
      Unpack(bytes[..])
    }

    ghost function Value(): (v: seq<bool>)
      reads this, bytes
      requires Valid()
      ensures |v| == bits
    {
      Raw()[..bits]
    }

    constructor Create(bitsCount: nat)
      ensures Valid() && fresh(bytes)
      ensures Value() == seq(bitsCount, _ => false)
    {
      bytes := new byte[BitsToBytes(bitsCount)](_ => 0);
      bits := bitsCount;
      new;
      forall i | 0 <= i < 8 * bytes.Length
        ensures !Raw()[i]
      {
        UnpackZeros(bytes[..], i);
      }
      ClearTrailingBits();
      assert Value() == seq(bitsCount, _ => false);
    }

    constructor Clone(src: BitField)
      requires src.Valid()
      ensures Valid() && fresh(bytes)
      ensures Value() == src.Value() && bytes[..] == src.bytes[..]
    {
      bytes := new byte[src.bytes.Length](i requires 0 <= i < src.bytes.Length reads src, src.bytes => src.bytes[i]);
      bits := src.bits;
      new;
      assert bytes[..] == src.bytes[..];
    }

    function Bits(): nat
      reads this
    {
      bits
    }

    predicate GetBit(index: nat): (r: bool)
      reads this, bytes
      requires index / 8 < bytes.Length
      ensures r == Raw()[index]
      ensures Valid() && index < bits ==> r == Value()[index]
    {
      Masks(index % 8, 0);
      UnpackAt(bytes[..], index);
      bytes[index / 8] & (0x80 >> (index % 8)) != 0
    }

    /** Only the byte holding the index has to exist: a bit past the last one
        can be set, and then the trailing bits are no longer zero. */
    method SetBit(index: nat)
      requires index / 8 < bytes.Length
      modifies bytes
      ensures Raw() == old(Raw())[index := true]
      ensures old(Valid()) && index < bits ==> Valid() && Value() == old(Value())[index := true]
    {
      hide Unpack, BitOf;
      ghost var before := bytes[..];
      bytes[index / 8] := bytes[index / 8] | (0x80 >> (index % 8));
      var b := bytes[index / 8];
      forall k | 0 <= k < 8
        ensures BitOf(b, k) == if k == index % 8 then true else BitOf(before[index / 8], k)
      {
        SettingBit(before[index / 8], index % 8, k);
      }
      UnpackUpdate(before, index, b, true);
      assert bytes[..] == before[index / 8 := b];
    }

    method ClearBit(index: nat)
      requires index / 8 < bytes.Length
      modifies bytes
      ensures Raw() == old(Raw())[index := false]
      ensures old(Valid()) ==> Valid()
      ensures old(Valid()) && index < bits ==> Value() == old(Value())[index := false]
    {
      hide Unpack, BitOf;
      ghost var before := bytes[..];
      bytes[index / 8] := bytes[index / 8] & !(0x80 >> (index % 8));
      var b := bytes[index / 8];
      forall k | 0 <= k < 8
        ensures BitOf(b, k) == if k == index % 8 then false else BitOf(before[index / 8], k)
      {
        ClearingBit(before[index / 8], index % 8, k);
      }
      UnpackUpdate(before, index, b, false);
      assert bytes[..] == before[index / 8 := b];
    }

    method ClearTrailingBits()
      requires bytes.Length == BitsToBytes(bits)
      modifies bytes
      ensures Valid()
      ensures Raw()[..bits] == old(Raw())[..bits]
    {
      hide Unpack, BitOf;
      if bits % 8 != 0 {
        var last := BitsToBytes(bits) - 1;
        ghost var before, n := bytes[..], bits;
        assert last == n / 8;
        var b := bytes[last] & ((0xff as bv8) << (8 - bits % 8));
        KeepFirstBitsOfByte(before[last], n % 8, b);
        bytes[last] := b;
        assert bytes[..] == before[n / 8 := b];
        UnpackMask(before, n, b);
      } else {
        assert 8 * bytes.Length == bits;
      }
    }

    /** Bits beyond the old size come out clear. */
    method Resize(bits: nat)
      requires Valid()
      modifies this, bytes
      ensures Valid() && fresh(bytes) && this.bits == bits
      ensures forall i :: 0 <= i < bits ==> Value()[i] == (i < old(this.bits) && old(Value())[i])
    {
      hide Unpack, BitOf;
      ghost var before := bytes[..];
      var b := BitsToBytes(bits);
      var nbytes := new byte[b](_ => 0);
      var n := if nbytes.Length < bytes.Length then nbytes.Length else bytes.Length;
      forall i | 0 <= i < n {
        nbytes[i] := bytes[i];
      }
      UnpackAgree(before, nbytes[..], n);
      forall i | 0 <= i < 8 * b
        ensures Unpack(nbytes[..])[i] == (i < 8 * n && old(Raw())[i])
      {
        if i >= 8 * n {
          UnpackZeros(nbytes[..], i);
        }
      }
      bytes := nbytes;
      this.bits := bits;
      ClearTrailingBits();
    }

    method SetAll()
      requires Valid()
      modifies bytes
      ensures Valid() && Value() == seq(bits, _ => true)
    {
      FillBytes(0, 0xff);
      forall i | 0 <= i < 8 * bytes.Length
        ensures Raw()[i]
      {
        UnpackAt(bytes[..], i);
        FillLastBits(0, 0, i % 8);
      }
      ClearTrailingBits();
      assert Value() == seq(bits, _ => true);
    }

    method ClearAll()
      requires Valid()
      modifies bytes
      ensures Valid() && Value() == seq(bits, _ => false)
    {
      FillBytes(0, 0);
      forall i | 0 <= i < 8 * bytes.Length
        ensures !Raw()[i]
      {
        UnpackZeros(bytes[..], i);
      }
      assert Value() == seq(bits, _ => false);
    }

    /** Growing with a value gives that value to exactly the new bits. */
    method ResizeVal(bits: nat, val: bool)
      requires Valid()
      modifies this, bytes
      ensures Valid() && fresh(bytes) && this.bits == bits
      ensures forall i :: 0 <= i < bits ==> Value()[i] == if i < old(this.bits) then old(Value())[i] else val
    {
      hide Unpack, BitOf;
      var s := this.bits;
      var b := this.bits % 8;
      Resize(bits);
      if s >= this.bits {
        return;
      }
      var oldSizeBytes := BitsToBytes(s);
      var newSizeBytes := BitsToBytes(this.bits);
      ghost var resized := bytes[..];
      ghost var r := Unpack(resized);
      forall i | s <= i < |r|
        ensures !r[i]
      {
        assert i < this.bits ==> r[i] == Value()[i];
      }
      if val {
        if oldSizeBytes != 0 && b != 0 {
          assert oldSizeBytes - 1 == s / 8;
          bytes[oldSizeBytes - 1] := bytes[oldSizeBytes - 1] | ((0xff as bv8) >> b);
        }
        FillBytes(oldSizeBytes, 0xff);
        forall i | 0 <= i < 8 * bytes.Length
          ensures Raw()[i] == (i >= s || r[i])
        {
          UnpackFill(resized, bytes[..], s, i);
        }
        ClearTrailingBits();
      } else {
        FillBytes(oldSizeBytes, 0);
        UnpackAgree(bytes[..], resized, oldSizeBytes);
        forall i | 0 <= i < 8 * bytes.Length
          ensures Raw()[i] == r[i]
        {
          if oldSizeBytes <= i / 8 {
            UnpackZeros(bytes[..], i);
          }
        }
        assert Raw() == r;
      }
    }

    method FillBytes(first: nat, b: byte)
      requires first <= bytes.Length
      modifies bytes
      ensures forall j :: 0 <= j < bytes.Length ==> bytes[j] == if j < first then old(bytes[j]) else b
    {
      for i := first to bytes.Length
        invariant forall j :: 0 <= j < bytes.Length ==> bytes[j] == if first <= j < i then b else old(bytes[j])
      {
        bytes[i] := b;
      }
    }

    method Assign(b: seq<byte>, c: nat)
      requires Valid() && BitsToBytes(c) <= |b|
      modifies this, bytes
      ensures Valid() && fresh(bytes) && bits == c
      ensures Value() == Unpack(b)[..c]
    {
      Resize(c);
      forall i | 0 <= i < BitsToBytes(c) {
        bytes[i] := b[i];
      }
      UnpackAgree(bytes[..], b, BitsToBytes(c));
      assert Raw()[..c] == Unpack(b)[..c];
      ClearTrailingBits();
    }

    method Count() returns (ret: nat)
      requires Valid()
      ensures ret == CountTrue(Value())
    {
      hide Unpack, BitOf;
      ret := 0;
      var numBytes := bits / 8;
      for i := 0 to numBytes
        invariant ret == CountTo(Raw(), 8 * i)
      {
        CountNextByte(bytes[..], i);
        ret := ret + ByteCount(bytes[i]);
      }
      var rest := bits - numBytes * 8;
      for i := 0 to rest
        invariant ret == CountTo(Raw(), 8 * numBytes + i)
      {
        CountTailBit(bytes[..], numBytes, i);
        ret := ret + TailBit(bytes[numBytes], i);
      }
      CountSame(Raw(), Value(), bits);
    }
  }
}
