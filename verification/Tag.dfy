/** Typed tags and their wire form (proto/tag.go). */
module Tags {
  import opened Bytes
  import opened StateBuffers

  const TAGTYPE_UNDEFINED: byte := 0x00
  const TAGTYPE_HASH16: byte := 0x01
  const TAGTYPE_STRING: byte := 0x02
  const TAGTYPE_UINT32: byte := 0x03
  const TAGTYPE_FLOAT32: byte := 0x04
  const TAGTYPE_BOOL: byte := 0x05
  const TAGTYPE_BOOLARRAY: byte := 0x06
  const TAGTYPE_BLOB: byte := 0x07
  const TAGTYPE_UINT16: byte := 0x08
  const TAGTYPE_UINT8: byte := 0x09
  const TAGTYPE_BSOB: byte := 0x0A
  const TAGTYPE_UINT64: byte := 0x0B
  const TAGTYPE_STR1: byte := 0x11
  const TAGTYPE_STR16: byte := 0x20

  /** Values of this many bytes and more are not read. */
  const VALUE_LIMIT: nat := 100000

  datatype Tag = Tag(Type: byte, Id: byte, Name: seq<byte>, value: seq<byte>)

  const NO_TAG := Tag(0, 0, [], [])

  /** The length that a type fixes for its values. */
  function FixedLength(t: byte): Option<nat> {
    if t == TAGTYPE_UINT8 || t == TAGTYPE_BOOL then Some(1)
    else if t == TAGTYPE_UINT16 then Some(2)
    else if t == TAGTYPE_UINT32 || t == TAGTYPE_FLOAT32 then Some(4)
    else if t == TAGTYPE_UINT64 then Some(8)
    else if TAGTYPE_STR1 <= t <= TAGTYPE_STR16 then Some(FromByte(t) - 0x10)
    else if t == TAGTYPE_HASH16 then Some(16)
    else None
  }

  /** How many bytes hold the length of a value. */
  function LengthWidth(t: byte): Option<nat> {
    if t == TAGTYPE_STRING || t == TAGTYPE_BOOLARRAY then Some(2)
    else if t == TAGTYPE_BLOB then Some(4)
    else if t == TAGTYPE_BSOB then Some(1)
    else None
  }

  predicate KnownType(t: byte) {
    FixedLength(t).Some? || LengthWidth(t).Some?
  }

  // ----- the wire form

  function EncodeHead(t: Tag): seq<byte> {
    if t.Name == [] then [t.Type | 0x80, t.Id] else [t.Type] + EncodeContainer(t.Name)
  }

  function EncodeValue(t: Tag): seq<byte>
    requires KnownType(t.Type)
  {
    if FixedLength(t.Type).Some? then t.value
    else LittleEndian(|t.value|, LengthWidth(t.Type).value) + t.value
  }

  function EncodeTag(t: Tag): seq<byte>
    requires KnownType(t.Type)
  {
    EncodeHead(t) + EncodeValue(t)
  }

  /** Exactly the tags that survive the wire. */
  predicate WellFormed(t: Tag) {
    && KnownType(t.Type)
    && (t.Name == [] || (2 <= |t.Name| < 0x1_0000 && t.Id == 0))
    && (if FixedLength(t.Type).Some? then |t.value| == FixedLength(t.Type).value
        else |t.value| < Pow256(LengthWidth(t.Type).value) && |t.value| < VALUE_LIMIT)
  }

  // ----- reading and writing

  function GetName(b: Buffer, type_: byte): Got<Tag> {
    var l := TakeNumber(b, 2);
    if l.buffer.err.Some? then Got(l.buffer, Tag(type_, 0, [], []))
    else
      var bc := TakeSlice(l.buffer, l.value);
      Got(bc.buffer, if l.value == 1 then Tag(type_, bc.value[0], [], []) else Tag(type_, 0, bc.value, []))
  }

  function GetHead(b: Buffer): (r: Got<Tag>)
    ensures r.value.value == []
  {
    var type_ := Take(b, 1);
    var v := type_.value[0];
    if type_.buffer.err.Some? then Got(type_.buffer, Tag(v, 0, [], []))
    else if v & 0x80 != 0 then
      var id := Take(type_.buffer, 1);
      Got(id.buffer, Tag(v & 0x7f, id.value[0], [], []))
    else GetName(type_.buffer, v)
  }

  /** The length of the value is still looked for when the head was not read. */
  function GetLength(b: Buffer, type_: byte): Got<nat>
    requires KnownType(type_)
  {
    if FixedLength(type_).Some? then Got(b, FixedLength(type_).value)
    else TakeNumber(b, LengthWidth(type_).value)
  }

  /** A value too long is left in the buffer, unread. */
  function GetValue(b: Buffer, n: nat): Got<seq<byte>> {
    if b.err.None? && 0 < n < VALUE_LIMIT then TakeSlice(b, n) else Got(b, [])
  }

  function GetTag(b: Buffer): Got<Tag> {
    var head := GetHead(b);
    if !KnownType(head.value.Type) then Got(head.buffer.Fail(UnknownTag), head.value)
    else
      var length := GetLength(head.buffer, head.value.Type);
      var v := GetValue(length.buffer, length.value);
      Got(v.buffer, head.value.(value := v.value))
  }

  function PutHead(b: Buffer, t: Tag): Buffer {
    if t.Name == [] then PutBytes(PutBytes(b, [t.Type | 0x80]), [t.Id])
    else PutBytes(PutNumber(PutBytes(b, [t.Type]), |t.Name|, 2), t.Name)
  }

  function PutTag(b: Buffer, t: Tag): Buffer {
    var head := PutHead(b, t);
    if b.err.Some? then b
    else if FixedLength(t.Type).Some? then PutBytes(head, t.value)
    else if LengthWidth(t.Type).Some? then PutBytes(PutNumber(head, |t.value|, LengthWidth(t.Type).value), t.value)
    else head.Fail(UnknownTag)
  }

  method ReadTag(sb: StateBuffer) returns (t: Tag)
    modifies sb
    ensures Got(sb.Value(), t) == GetTag(old(sb.Value()))
  {
    hide GetHead, GetLength, KnownType;
    t := ReadHead(sb);
    var known, bc := ReadLength(sb, t.Type);
    if !known {
      sb.SetError(UnknownTag);
      return;
    }
    if sb.err.None? && bc > 0 && bc < VALUE_LIMIT {
      var value := sb.ReadSlice(bc);
      t := t.(value := value);
    }
  }

  method ReadLength(sb: StateBuffer, type_: byte) returns (known: bool, bc: nat)
    modifies sb
    ensures known == KnownType(type_)
    ensures known ==> Got(sb.Value(), bc) == GetLength(old(sb.Value()), type_)
    ensures !known ==> sb.Value() == old(sb.Value())
  {
    hide TakeNumber;
    known, bc := true, 0;
    if type_ == TAGTYPE_UINT8 {
      bc := 1;
    } else if type_ == TAGTYPE_UINT16 {
      bc := 2;
    } else if type_ == TAGTYPE_UINT32 {
      bc := 4;
    } else if type_ == TAGTYPE_UINT64 {
      bc := 8;
    } else if type_ == TAGTYPE_FLOAT32 {
      bc := 4;
    } else if type_ == TAGTYPE_BOOL {
      bc := 1;
    } else if TAGTYPE_STR1 <= type_ <= TAGTYPE_STR16 {
      bc := FromByte(type_) - FromByte(TAGTYPE_STR1) + 1;
    } else if type_ == TAGTYPE_STRING {
      bc := sb.ReadNumber(2);
    } else if type_ == TAGTYPE_BLOB {
      bc := sb.ReadNumber(4);
    } else if type_ == TAGTYPE_BSOB {
      bc := sb.ReadNumber(1);
    } else if type_ == TAGTYPE_BOOLARRAY {
      bc := sb.ReadNumber(2);
    } else if type_ == TAGTYPE_HASH16 {
      bc := 16;
    } else {
      known := false;
    }
  }

  method ReadHead(sb: StateBuffer) returns (t: Tag)
    modifies sb
    ensures Got(sb.Value(), t) == GetHead(old(sb.Value()))
  {
    t := NO_TAG;
    var type_ := ReadByte(sb);
    t := t.(Type := type_);
    if sb.err.None? {
      if t.Type & 0x80 != 0 {
        var id := ReadByte(sb);
        t := t.(Type := t.Type & 0x7f, Id := id);
      } else {
        var l := sb.ReadNumber(2);
        if sb.err.None? {
          var bc := sb.ReadSlice(l);
          if l == 1 {
            t := t.(Id := bc[0]);
          } else {
            t := t.(Name := bc);
          }
        }
      }
    }
  }

  method ReadByte(sb: StateBuffer) returns (v: byte)
    modifies sb
    ensures Got(sb.Value(), [v]) == Take(old(sb.Value()), 1)
  {
    ghost var bs := Take(sb.Value(), 1).value;
    var n := sb.ReadNumber(1);
    assert bs == [bs[0]] && [bs[0]][1..] == [];
    assert Number(bs) == FromByte(bs[0]) + 256 * Number([]);
    ByteRoundTrip(0, bs[0]);
    v := ToByte(n);
  }

  method WriteTag(sb: StateBuffer, t: Tag)
    modifies sb, sb.Data
    ensures sb.Value() == PutTag(old(sb.Value()), t)
  {
    hide PutHead, PutBytes, LittleEndian;
    if sb.err.Some? {
      return;
    }
    WriteHead(sb, t);
    if || t.Type == TAGTYPE_UINT8 || t.Type == TAGTYPE_UINT16 || t.Type == TAGTYPE_UINT32 || t.Type == TAGTYPE_UINT64
       || t.Type == TAGTYPE_FLOAT32 || t.Type == TAGTYPE_BOOL || t.Type == TAGTYPE_HASH16
       || TAGTYPE_STR1 <= t.Type <= TAGTYPE_STR16
    {
      sb.WriteBytes(t.value);
    } else if t.Type == TAGTYPE_STRING || t.Type == TAGTYPE_BOOLARRAY {
      sb.WriteNumber(|t.value|, 2);
      sb.WriteBytes(t.value);
    } else if t.Type == TAGTYPE_BSOB {
      sb.WriteNumber(|t.value|, 1);
      sb.WriteBytes(t.value);
    } else if t.Type == TAGTYPE_BLOB {
      sb.WriteNumber(|t.value|, 4);
      sb.WriteBytes(t.value);
    } else {
      sb.SetError(UnknownTag);
    }
  }

  method WriteHead(sb: StateBuffer, t: Tag)
    modifies sb, sb.Data
    ensures sb.Value() == PutHead(old(sb.Value()), t)
  {
    hide PutBytes, LittleEndian;
    if t.Name == [] {
      sb.WriteBytes([t.Type | 0x80]);
      sb.WriteBytes([t.Id]);
    } else {
      sb.WriteBytes([t.Type]);
      sb.WriteNumber(|t.Name|, 2);
      sb.WriteBytes(t.Name);
    }
  }

  /** Size is the length of the wire form, and -1 for a type that has none. */
  function TagSize(t: Tag): (size: int)
    ensures size == if KnownType(t.Type) then |EncodeTag(t)| else -1
  {
    var head := if t.Name == [] then 1 + 1 else 1 + 2 + |t.Name|;
    if FixedLength(t.Type).Some? then head + |t.value|
    else if LengthWidth(t.Type).Some? then head + LengthWidth(t.Type).value + |t.value|
    else -1
  }

  // ----- round trips

  lemma TypeBits(t: byte)
    requires KnownType(t)
    ensures t & 0x80 == 0 && (t | 0x80) & 0x80 != 0 && (t | 0x80) & 0x7f == t
  {
    assert t <= 0x20;
  }

  lemma GetHeadAt(b: Buffer, t: Tag)
    requires At(b, EncodeHead(t)) && WellFormed(t)
    ensures GetHead(b) == Got(b.Skip(|EncodeHead(t)|), t.(value := []))
  {
    TypeBits(t.Type);
    hide At, Take, GetName, FixedLength, LengthWidth, EncodeContainer;
    if t.Name == [] {
      var first, second := [t.Type | 0x80], [t.Id];
      assert EncodeHead(t) == first + second;
      AtAppend(b, first, second);
      TakeAt(b, first);
      TakeAt(b.Skip(1), second);
    } else {
      AtAppend(b, [t.Type], EncodeContainer(t.Name));
      TakeAt(b, [t.Type]);
      GetNameAt(b.Skip(1), t.Type, t.Name);
    }
  }

  lemma GetNameAt(b: Buffer, type_: byte, name: seq<byte>)
    requires At(b, EncodeContainer(name)) && 2 <= |name| < 0x1_0000
    ensures GetName(b, type_) == Got(b.Skip(|EncodeContainer(name)|), Tag(type_, 0, name, []))
  {
    Powers();
    AtAppend(b, LittleEndian(|name|, 2), name);
    TakeNumberAt(b, |name|, 2);
    TakeAt(b.Skip(2), name);
  }

  lemma GetValueAt(b: Buffer, t: Tag)
    requires WellFormed(t) && At(b, EncodeValue(t))
    ensures var length := GetLength(b, t.Type);
            && length.buffer.err.None?
            && GetValue(length.buffer, length.value) == Got(b.Skip(|EncodeValue(t)|), t.value)
  {
    if FixedLength(t.Type).Some? {
      TakeAt(b, t.value);
    } else {
      var w := LengthWidth(t.Type).value;
      AtAppend(b, LittleEndian(|t.value|, w), t.value);
      TakeNumberAt(b, |t.value|, w);
      TakeAt(b.Skip(w), t.value);
    }
  }

  lemma GetTagAt(b: Buffer, t: Tag)
    requires WellFormed(t) && At(b, EncodeTag(t))
    ensures GetTag(b) == Got(b.Skip(|EncodeTag(t)|), t)
  {
    hide GetHead, GetLength, GetValue, EncodeHead, EncodeValue;
    AtAppend(b, EncodeHead(t), EncodeValue(t));
    GetHeadAt(b, t);
    GetValueAt(b.Skip(|EncodeHead(t)|), t);
  }

  lemma GotHead(b: Buffer)
    requires GetHead(b).buffer.err.None?
    ensures var t := GetHead(b).value; t.value == [] && (t.Name == [] || (2 <= |t.Name| < 0x1_0000 && t.Id == 0))
  {
    Powers();
    NumberBelow(Take(Take(b, 1).buffer, 2).value);
  }

  lemma GotValue(b: Buffer, type_: byte)
    requires KnownType(type_)
    requires var length := GetLength(b, type_); GetValue(length.buffer, length.value).buffer.err.None?
    ensures var length := GetLength(b, type_);
            var v := GetValue(length.buffer, length.value).value;
            if FixedLength(type_).Some? then |v| == FixedLength(type_).value
            else |v| < Pow256(LengthWidth(type_).value) && |v| < VALUE_LIMIT
  {
    if FixedLength(type_).None? {
      NumberBelow(Take(b, LengthWidth(type_).value).value);
    }
  }

  lemma HeadErrorStays(b: Buffer, type_: byte)
    requires b.err.Some? && KnownType(type_)
    ensures var length := GetLength(b, type_); GetValue(length.buffer, length.value).buffer == b
  {
  }

  /** Whatever is read without an error is well formed. */
  lemma GotTagIsWellFormed(b: Buffer)
    requires GetTag(b).buffer.err.None?
    ensures WellFormed(GetTag(b).value)
  {
    hide GetHead, GetLength, GetValue, FixedLength, LengthWidth;
    var head := GetHead(b);
    if head.buffer.err.Some? {
      HeadErrorStays(head.buffer, head.value.Type);
    } else {
      GotHead(b);
      GotValue(head.buffer, head.value.Type);
    }
  }

  lemma PutHeadWrites(b: Buffer, t: Tag)
    ensures Wrote(b, PutHead(b, t), EncodeHead(t))
  {
    hide PutBytes, Wrote, LittleEndian;
    if t.Name == [] {
      var first, second := [t.Type | 0x80], [t.Id];
      PutWrites(b, first);
      PutWrites(PutBytes(b, first), second);
      WroteAppend(b, PutBytes(b, first), PutHead(b, t), first, second);
      assert first + second == EncodeHead(t);
    } else {
      var first := PutBytes(b, [t.Type]);
      PutWrites(b, [t.Type]);
      PutContainerWrites(first, t.Name);
      WroteAppend(b, first, PutHead(b, t), [t.Type], EncodeContainer(t.Name));
    }
  }

  lemma PutTagWrites(b: Buffer, t: Tag)
    requires KnownType(t.Type)
    ensures Wrote(b, PutTag(b, t), EncodeTag(t))
  {
    hide PutHead, EncodeHead;
    var head := PutHead(b, t);
    PutHeadWrites(b, t);
    if b.err.None? {
      var end := PutTag(b, t);
      if LengthWidth(t.Type).Some? {
        var w := LengthWidth(t.Type).value;
        WroteAppend(head, PutNumber(head, |t.value|, w), end, LittleEndian(|t.value|, w), t.value);
      }
      assert Wrote(head, end, EncodeValue(t));
      WroteAppend(b, head, end, EncodeHead(t), EncodeValue(t));
    }
  }

  /** A buffer with room for the wire form, filled with it and read from the start of it. */
  ghost predicate RoundTrips<T(!new)>(get: Buffer -> Got<T>, written: Buffer, start: nat, x: T) {
    written.err.None? && get(written.(pos := start)) == Got(written, x)
  }

  /** What Put writes, Get reads back, exactly for the well-formed tags. */
  lemma TagRoundTripIff(b: Buffer, t: Tag)
    requires KnownType(t.Type) && b.Room(|EncodeTag(t)|)
    ensures PutTag(b, t).err.None? && PutTag(b, t).pos == b.pos + TagSize(t)
    ensures RoundTrips(GetTag, PutTag(b, t), b.pos, t) <==> WellFormed(t)
  {
    hide EncodeTag, GetTag, PutTag;
    var written := PutTag(b, t);
    PutTagWrites(b, t);
    WrittenIsThere(b, written, EncodeTag(t));
    var start := written.(pos := b.pos);
    if WellFormed(t) {
      GetTagAt(start, t);
    }
    if GetTag(start) == Got(written, t) {
      GotTagIsWellFormed(start);
    }
  }

  // ----- short buffers

  lemma NameLonger(b: Buffer, more: seq<byte>, type_: byte)
    ensures Stable(b, GetName(b, type_), GetName(Longer(b, more), type_), more)
  {
    hide Take, TakeNumber, TakeSlice;
    TakeLonger(b, more, 2);
    var l := TakeNumber(b, 2);
    TakeLonger(l.buffer, more, l.value);
  }

  lemma HeadLonger(b: Buffer, more: seq<byte>)
    ensures Stable(b, GetHead(b), GetHead(Longer(b, more)), more)
  {
    hide Take, GetName;
    TakeLonger(b, more, 1);
    var rest := Take(b, 1);
    TakeLonger(rest.buffer, more, 1);
    NameLonger(rest.buffer, more, rest.value[0]);
  }

  lemma TagLonger(b: Buffer, more: seq<byte>)
    ensures Stable(b, GetTag(b), GetTag(Longer(b, more)), more)
  {
    hide GetHead, FixedLength, LengthWidth;
    HeadLonger(b, more);
    var head := GetHead(b);
    if KnownType(head.value.Type) {
      if head.buffer.err.Some? {
        HeadErrorStays(head.buffer, head.value.Type);
      } else if FixedLength(head.value.Type).None? {
        TakeLonger(head.buffer, more, LengthWidth(head.value.Type).value);
      }
      var length := GetLength(head.buffer, head.value.Type);
      TakeLonger(length.buffer, more, length.value);
    }
  }

  /** A buffer that ends inside the wire form of a tag is an error. */
  lemma ShortTagFails(b: Buffer, t: Tag, cut: nat)
    requires WellFormed(t) && b.err.None? && b.pos <= |b.data| && cut < |EncodeTag(t)|
    requires b.data[b.pos..] == EncodeTag(t)[..cut]
    ensures GetTag(b).buffer.err.Some?
  {
    hide GetTag, EncodeTag;
    var e := EncodeTag(t);
    var long := Longer(b, e[cut..]);
    CompletedIsThere(b, e, cut);
    GetTagAt(long, t);
    TagLonger(b, e[cut..]);
    ShortFails(b, e, cut, GetTag(b), GetTag(long));
  }

  // ----- made tags

  datatype Data =
    | Byte(byte) | Uint16(uint16: nat) | Uint32(uint32: nat) | Uint64(uint64: nat) | Float32(bits: nat)
    | Text(text: seq<byte>) | Bool(bool) | Blob(blob: seq<byte>) | HashOf(hash: ED2KHash) | Unsupported

  const HASH_LEN: nat := 16

  type ED2KHash = h: seq<byte> | |h| == HASH_LEN witness seq(HASH_LEN, _ => 0)

  function CreateTag(data: Data, id: byte, name: seq<byte>): Tag {
    match data
    case Byte(b) => Tag(TAGTYPE_UINT8, id, name, [b])
    case Uint16(n) => Tag(TAGTYPE_UINT16, id, name, LittleEndian(n, 2))
    case Uint32(n) => Tag(TAGTYPE_UINT32, id, name, LittleEndian(n, 4))
    case Uint64(n) => Tag(TAGTYPE_UINT64, id, name, LittleEndian(n, 8))
    case Float32(bits) => Tag(TAGTYPE_FLOAT32, id, name, LittleEndian(bits, 4))
    case Text(v) =>
      if 0 < |v| <= 16 then Tag(TAGTYPE_STR1 + ToByte(|v|) - 1, id, name, v) else Tag(TAGTYPE_STRING, id, name, v)
    case Bool(b) => Tag(TAGTYPE_BOOL, id, name, [if b then 0x01 else 0x00])
    case Blob(v) => Tag(TAGTYPE_BLOB, id, name, v)
    case HashOf(h) => Tag(TAGTYPE_HASH16, id, name, h)
    case Unsupported => Tag(TAGTYPE_UNDEFINED, 0, [], [])
  }

  lemma TextType(n: nat)
    requires 0 < n <= 16
    ensures FixedLength(TAGTYPE_STR1 + ToByte(n) - 1) == Some(n)
  {
    ByteRoundTrip(n, 0);
    SixteenAbove(ToByte(n));
  }

  lemma SixteenAbove(b: byte)
    requires 0 < FromByte(b) <= 16
    ensures FromByte(TAGTYPE_STR1 + b - 1) == 16 + FromByte(b)
    ensures TAGTYPE_STR1 <= TAGTYPE_STR1 + b - 1 <= TAGTYPE_STR16
  {
  }

  /** Which of the made tags survive the wire. */
  lemma CreatedSurvivesIff(data: Data, id: byte, name: seq<byte>)
    ensures WellFormed(CreateTag(data, id, name)) <==>
            && !data.Unsupported?
            && (name == [] || (2 <= |name| < 0x1_0000 && id == 0))
            && (data.Text? ==> |data.text| < 0x1_0000)
            && (data.Blob? ==> |data.blob| < VALUE_LIMIT)
  {
    Powers();
    if data.Text? && 0 < |data.text| <= 16 {
      TextType(|data.text|);
    }
  }

  lemma NamelessWireForm(t: Tag)
    requires KnownType(t.Type) && t.Name == []
    ensures EncodeTag(t) == [t.Type | 0x80, t.Id]
                            + (if FixedLength(t.Type).Some? then t.value
                               else LittleEndian(|t.value|, LengthWidth(t.Type).value) + t.value)
  {
  }

  /** The bytes of a made tag without a name: its type with the highest bit set, its id, the length where
      the kind needs one, and the value; numbers come lowest byte first. */
  lemma CreatedWireForm(data: Data, id: byte)
    requires !data.Unsupported? && !data.Text?
    ensures var t := CreateTag(data, id, []);
            && KnownType(t.Type)
            && match data
               case Byte(b) => EncodeTag(t) == [0x89, id] + [b]
               case Uint16(n) => EncodeTag(t) == [0x88, id] + LittleEndian(n, 2)
               case Uint32(n) => EncodeTag(t) == [0x83, id] + LittleEndian(n, 4)
               case Uint64(n) => EncodeTag(t) == [0x8B, id] + LittleEndian(n, 8)
               case Float32(bits) => EncodeTag(t) == [0x84, id] + LittleEndian(bits, 4)
               case Bool(b) => EncodeTag(t) == [0x85, id] + [if b then 0x01 else 0x00]
               case Blob(v) => EncodeTag(t) == [0x87, id] + (LittleEndian(|v|, 4) + v)
               case HashOf(h) => EncodeTag(t) == [0x81, id] + h
               case _ => true
  {
    hide EncodeTag, LittleEndian;
    NamelessWireForm(CreateTag(data, id, []));
  }

  /** A text of 1 to 16 bytes has its length in its type. */
  lemma ShortTextWireForm(v: seq<byte>, id: byte)
    requires 1 <= |v| <= 16
    ensures var t := CreateTag(Text(v), id, []);
            KnownType(t.Type) && EncodeTag(t) == [0x90 + ToByte(|v|), id] + v
  {
    hide EncodeTag, LittleEndian, ToByte, FixedLength, LengthWidth, FromByte;
    TextType(|v|);
    ByteRoundTrip(|v|, 0);
    ShortTextType(ToByte(|v|));
    NamelessWireForm(CreateTag(Text(v), id, []));
  }

  /** Every other text has its length in two bytes. */
  lemma LongTextWireForm(v: seq<byte>, id: byte)
    requires |v| == 0 || 16 < |v|
    ensures var t := CreateTag(Text(v), id, []);
            KnownType(t.Type) && EncodeTag(t) == [0x82, id] + (LittleEndian(|v|, 2) + v)
  {
    hide EncodeTag, LittleEndian, ToByte;
    var t := CreateTag(Text(v), id, []);
    assert t == Tag(TAGTYPE_STRING, id, [], v);
    NamelessWireForm(t);
  }

  lemma ShortTextType(b: byte)
    requires 0 < FromByte(b) <= 16
    ensures (TAGTYPE_STR1 + b - 1) | 0x80 == 0x90 + b
  {
  }

  /** What a tag says it holds. */
  predicate IsByte(t: Tag) { t.Type == TAGTYPE_UINT8 }
  predicate IsUint16(t: Tag) { t.Type == TAGTYPE_UINT16 }
  predicate IsUint32(t: Tag) { t.Type == TAGTYPE_UINT32 }
  predicate IsUint64(t: Tag) { t.Type == TAGTYPE_UINT64 }
  predicate IsString(t: Tag) { TAGTYPE_STR1 <= t.Type <= TAGTYPE_STR16 || t.Type == TAGTYPE_STRING }
  predicate IsBool(t: Tag) { t.Type == TAGTYPE_BOOL }
  predicate IsBlob(t: Tag) { t.Type == TAGTYPE_BLOB }
  predicate IsHash(t: Tag) { t.Type == TAGTYPE_HASH16 }
  predicate IsFloat(t: Tag) { t.Type == TAGTYPE_FLOAT32 }

  function AsByte(t: Tag): byte
    requires 0 < |t.value|
  {
    t.value[0]
  }

  function AsBool(t: Tag): bool
    requires 0 < |t.value|
  {
    t.value[0] != 0x00
  }

  function AsString(t: Tag): seq<byte> {
    t.value
  }

  function AsBlob(t: Tag): seq<byte> {
    t.value
  }

  function AsHash(t: Tag): seq<byte> {
    t.value
  }

  /** The bits of the number; what they mean is left to IEEE 754. */
  function AsFloatBits(t: Tag): nat
    requires |t.value| == 4
  {
    Number(t.value)
  }

  /** The tag passes the test of one kind and of no other. */
  predicate IsOnly(t: Tag, data: Data) {
    && IsByte(t) == data.Byte? && IsUint16(t) == data.Uint16? && IsUint32(t) == data.Uint32?
    && IsUint64(t) == data.Uint64? && IsString(t) == data.Text? && IsBool(t) == data.Bool?
    && IsBlob(t) == data.Blob? && IsHash(t) == data.HashOf? && IsFloat(t) == data.Float32?
  }

  /** What was put into a tag is read from it by the accessor of its kind, and a tag is of one kind only.
      A text of 1 to 16 bytes has its length in its type; every other one has a field for it. */
  lemma CreatedIsRead(data: Data, id: byte, name: seq<byte>)
    requires data.Float32? ==> data.bits < 0x1_0000_0000
    ensures var t := CreateTag(data, id, name);
            && IsOnly(t, data)
            && (!data.Unsupported? ==> t.Id == id && t.Name == name)
            && match data
               case Byte(b) => |t.value| == 1 && AsByte(t) == b
               case Bool(b) => |t.value| == 1 && AsBool(t) == b
               case Float32(bits) => |t.value| == 4 && AsFloatBits(t) == bits
               case Text(v) => AsString(t) == v && (LengthWidth(t.Type).None? <==> 1 <= |v| <= 16)
               case Blob(v) => AsBlob(t) == v
               case HashOf(h) => AsHash(t) == h
               case Unsupported => t == NO_TAG
               case Uint16(n) => |t.value| == 2
               case Uint32(n) => |t.value| == 4
               case Uint64(n) => |t.value| == 8
  {
    Powers();
    match data
    case Text(v) =>
      if 0 < |v| <= 16 {
        ByteRoundTrip(|v|, 0);
        SixteenAbove(ToByte(|v|));
      }
    case Float32(bits) =>
      NumberRoundTripIff(bits, 4);
    case _ =>
  }

  /** The accessors of uint16, uint32 and uint64 tags; the one for uint32 reads big-endian. */
  function AsUint16(t: Tag): nat
    requires |t.value| == 2
  {
    Number(t.value)
  }

  function AsUint32(t: Tag): nat
    requires |t.value| == 4
  {
    ((FromByte(t.value[0]) * 256 + FromByte(t.value[1])) * 256 + FromByte(t.value[2])) * 256 + FromByte(t.value[3])
  }

  function AsUint64(t: Tag): nat
    requires |t.value| == 8
  {
    Number(t.value)
  }

  /** Numbers of 16 and 64 bits come back from a tag; one of 32 bits does exactly
      when its bytes read the same in both directions. */
  lemma TagNumberIff(n: nat, id: byte, name: seq<byte>)
    ensures n < 0x1_0000 ==> AsUint16(CreateTag(Uint16(n), id, name)) == n
    ensures n < 0x1_0000_0000_0000_0000 ==> AsUint64(CreateTag(Uint64(n), id, name)) == n
    ensures n < 0x1_0000_0000 ==>
              var v := LittleEndian(n, 4);
              AsUint32(CreateTag(Uint32(n), id, name)) == n <==> v[0] == v[3] && v[1] == v[2]
  {
    Powers();
    NumberRoundTripIff(n, 2);
    NumberRoundTripIff(n, 4);
    NumberRoundTripIff(n, 8);
    FourBytes(LittleEndian(n, 4));
  }

  lemma FourBytes(v: seq<byte>)
    requires |v| == 4
    ensures ((FromByte(v[0]) * 256 + FromByte(v[1])) * 256 + FromByte(v[2])) * 256 + FromByte(v[3]) == Number(v)
            <==> v[0] == v[3] && v[1] == v[2]
  {
    hide ToByte, FromByte;
    assert v[1..][1..] == v[2..] && v[2..][1..] == v[3..] && v[3..][1..] == [];
    assert Number(v[3..]) == FromByte(v[3]);
    assert Number(v[2..]) == FromByte(v[2]) + 256 * FromByte(v[3]);
    assert Number(v[1..]) == FromByte(v[1]) + 256 * Number(v[2..]);
    assert Number(v) == FromByte(v[0]) + 256 * Number(v[1..]);
    forall i | 0 <= i < 4
      ensures ToByte(FromByte(v[i])) == v[i]
    {
      ByteRoundTrip(0, v[i]);
    }
    Palindrome(FromByte(v[0]), FromByte(v[1]), FromByte(v[2]), FromByte(v[3]));
  }

  lemma Palindrome(a: nat, b: nat, c: nat, d: nat)
    requires a < 256 && b < 256 && c < 256 && d < 256
    ensures ((a * 256 + b) * 256 + c) * 256 + d == a + 256 * (b + 256 * (c + 256 * d)) <==> a == d && b == c
  {
  }
}
