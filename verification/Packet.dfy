/** Lists of tags and the packet that carries them (proto/common.go,
    TagCollection, Endpoint and UsualPacket). */
module Packets {
  import opened Bytes
  import opened StateBuffers
  import opened Tags
  import opened Peers

  // ----- hashes and endpoints

  function GetHash(b: Buffer): Got<ED2KHash> {
    TakeSlice(b, HASH_LEN)
  }

  lemma GetHashAt(b: Buffer, h: ED2KHash)
    requires At(b, h)
    ensures GetHash(b) == Got(b.Skip(HASH_LEN), h)
  {
    TakeAt(b, h);
  }

  method ReadHash(sb: StateBuffer) returns (h: ED2KHash)
    modifies sb
    ensures Got(sb.Value(), h) == GetHash(old(sb.Value()))
  {
    h := sb.ReadSlice(HASH_LEN);
  }

  function NumberOfIp(ip: bv32): (n: nat)
    ensures n < 0x1_0000_0000
  {
    ip as nat
  }

  function IpOf(n: nat): bv32
    requires n < 0x1_0000_0000
  {
    n as bv32
  }

  function NumberOfPort(port: bv16): (n: nat)
    ensures n < 0x1_0000
  {
    port as nat
  }

  function PortOf(n: nat): bv16
    requires n < 0x1_0000
  {
    n as bv16
  }

  lemma EndpointNumbers(e: Endpoint)
    ensures IpOf(NumberOfIp(e.ip)) == e.ip && PortOf(NumberOfPort(e.port)) == e.port
  {
  }

  function EncodeEndpoint(e: Endpoint): seq<byte> {
    LittleEndian(NumberOfIp(e.ip), 4) + LittleEndian(NumberOfPort(e.port), 2)
  }

  lemma TakenFits(b: Buffer)
    ensures TakeNumber(b, 4).value < 0x1_0000_0000 && TakeNumber(b, 2).value < 0x1_0000
  {
    Powers();
    NumberBelow(Take(b, 4).value);
    NumberBelow(Take(b, 2).value);
  }

  function GetEndpoint(b: Buffer): Got<Endpoint> {
    var ip := TakeNumber(b, 4);
    var port := TakeNumber(ip.buffer, 2);
    TakenFits(b);
    TakenFits(ip.buffer);
    Got(port.buffer, Endpoint(IpOf(ip.value), PortOf(port.value)))
  }

  function PutEndpoint(b: Buffer, e: Endpoint): Buffer {
    PutNumber(PutNumber(b, NumberOfIp(e.ip), 4), NumberOfPort(e.port), 2)
  }

  lemma GetEndpointAt(b: Buffer, e: Endpoint)
    requires At(b, EncodeEndpoint(e))
    ensures GetEndpoint(b) == Got(b.Skip(6), e)
  {
    hide NumberOfIp, NumberOfPort, IpOf, PortOf, TakeNumber, LittleEndian;
    var ip, port := NumberOfIp(e.ip), NumberOfPort(e.port);
    Powers();
    AtAppend(b, LittleEndian(ip, 4), LittleEndian(port, 2));
    TakeNumberAt(b, ip, 4);
    TakeNumberAt(b.Skip(4), port, 2);
    EndpointNumbers(e);
  }

  lemma EndpointLonger(b: Buffer, more: seq<byte>)
    ensures Stable(b, GetEndpoint(b), GetEndpoint(Longer(b, more)), more)
  {
    hide TakeNumber, IpOf, PortOf;
    TakeLonger(b, more, 4);
    TakeLonger(TakeNumber(b, 4).buffer, more, 2);
    ErrorStays(TakeNumber(b, 4).buffer, 2);
  }

  lemma ErrorStays(b: Buffer, width: nat)
    ensures b.err.Some? ==> TakeNumber(b, width).buffer == b && TakeSlice(b, width).buffer == b
  {
  }

  method ReadEndpoint(sb: StateBuffer) returns (e: Endpoint)
    modifies sb
    ensures Got(sb.Value(), e) == GetEndpoint(old(sb.Value()))
  {
    hide TakeNumber, IpOf, PortOf;
    TakenFits(sb.Value());
    var ip := sb.ReadNumber(4);
    TakenFits(sb.Value());
    var port := sb.ReadNumber(2);
    e := Endpoint(IpOf(ip), PortOf(port));
  }

  // ----- lists of tags

  predicate KnownTags(c: seq<Tag>) {
    forall t :: t in c ==> KnownType(t.Type)
  }

  function EncodeTags(c: seq<Tag>): seq<byte>
    requires KnownTags(c)
  {
    if c == [] then [] else EncodeTag(c[0]) + EncodeTags(c[1..])
  }

  function EncodeCollection(c: seq<Tag>): seq<byte>
    requires KnownTags(c)
  {
    LittleEndian(|c|, 4) + EncodeTags(c)
  }

  predicate WellFormedTags(c: seq<Tag>) {
    forall t :: t in c ==> WellFormed(t)
  }

  predicate WellFormedCollection(c: seq<Tag>) {
    |c| <= MAX_ELEMS && WellFormedTags(c)
  }

  /** Reading stops with the first tag that was not read; that tag is kept. */
  function GetTags(b: Buffer, n: nat): Got<seq<Tag>>
    decreases n
  {
    if n == 0 then Got(b, [])
    else
      var t := GetTag(b);
      if t.buffer.err.Some? then Got(t.buffer, [t.value])
      else
        var rest := GetTags(t.buffer, n - 1);
        Got(rest.buffer, [t.value] + rest.value)
  }

  function GetCollection(b: Buffer): Got<seq<Tag>> {
    var sz := TakeNumber(b, 4);
    if sz.buffer.err.Some? then Got(sz.buffer, [])
    else if sz.value > MAX_ELEMS then Got(sz.buffer.Fail(TooMany), [])
    else GetTags(sz.buffer, sz.value)
  }

  function PutTags(b: Buffer, c: seq<Tag>): Buffer
    decreases |c|
  {
    if c == [] then b else PutTags(PutTag(b, c[0]), c[1..])
  }

  function PutCollection(b: Buffer, c: seq<Tag>): Buffer {
    PutTags(PutNumber(b, |c|, 4), c)
  }

  method ReadCollection(sb: StateBuffer) returns (c: seq<Tag>)
    modifies sb
    ensures Got(sb.Value(), c) == GetCollection(old(sb.Value()))
  {
    hide GetTag, TakeNumber, GetTags;
    c := [];
    var sz := sb.ReadNumber(4);
    if sb.err.None? {
      if sz > MAX_ELEMS {
        sb.SetError(TooMany);
        return;
      }
      ghost var all := GetTags(sb.Value(), sz);
      assert [] + all.value == all.value;
      var i := 0;
      while i < sz
        invariant 0 <= i <= sz && sb.err.None?
        invariant all.buffer == GetTags(sb.Value(), sz - i).buffer
        invariant all.value == c + GetTags(sb.Value(), sz - i).value
      {
        ghost var at, before := sb.Value(), c;
        var t := ReadTag(sb);
        c := c + [t];
        GetTagsStep(at, sz - i, before);
        NoTags(sb.Value());
        if sb.err.Some? {
          break;
        }
        i := i + 1;
      }
      NoTags(sb.Value());
      assert c + [] == c;
    }
  }

  lemma NoTags(b: Buffer)
    ensures GetTags(b, 0) == Got(b, [])
  {
  }

  lemma GetTagsStep(b: Buffer, n: nat, before: seq<Tag>)
    requires 0 < n
    ensures var t, all := GetTag(b), GetTags(b, n);
            if t.buffer.err.Some? then all.buffer == t.buffer && before + all.value == before + [t.value]
            else var rest := GetTags(t.buffer, n - 1);
                 all.buffer == rest.buffer && before + all.value == before + [t.value] + rest.value
  {
    hide GetTag;
    var t := GetTag(b);
    if t.buffer.err.None? {
      var rest := GetTags(t.buffer, n - 1).value;
      assert before + ([t.value] + rest) == before + [t.value] + rest;
    }
  }

  method WriteCollection(sb: StateBuffer, c: seq<Tag>)
    modifies sb, sb.Data
    ensures sb.Value() == PutCollection(old(sb.Value()), c)
  {
    hide PutTag;
    sb.WriteNumber(|c|, 4);
    ghost var all := PutTags(sb.Value(), c);
    assert c[0..] == c;
    var i := 0;
    while i < |c|
      invariant 0 <= i <= |c| && PutTags(sb.Value(), c[i..]) == all
    {
      WriteTag(sb, c[i]);
      assert c[i..][0] == c[i] && c[i..][1..] == c[i + 1..];
      i := i + 1;
    }
  }

  /** The tags that have a wire form. */
  function Writable(c: seq<Tag>): (r: seq<Tag>)
    ensures KnownTags(r) && |r| <= |c|
    ensures KnownTags(c) ==> r == c
  {
    if c == [] then []
    else
      assert c == [c[0]] + c[1..];
      (if KnownType(c[0].Type) then [c[0]] else []) + Writable(c[1..])
  }

  /** The length of the tags that have a wire form, less one for every other tag. */
  method CollectionSize(c: seq<Tag>) returns (size: int)
    ensures size == |EncodeCollection(Writable(c))| - (|c| - |Writable(c)|)
    ensures KnownTags(c) ==> size == |EncodeCollection(c)|
  {
    hide EncodeTag, KnownType;
    size := 4;
    var i := |c|;
    while 0 < i
      invariant 0 <= i <= |c|
      invariant size == 4 + |EncodeTags(Writable(c[i..]))| - (|c| - i - |Writable(c[i..])|)
    {
      i := i - 1;
      WritableNext(c[i..]);
      assert c[i..][0] == c[i] && c[i..][1..] == c[i + 1..];
      size := size + TagSize(c[i]);
    }
    assert c[0..] == c;
  }

  lemma WritableNext(c: seq<Tag>)
    requires c != []
    ensures var rest := Writable(c[1..]);
            if KnownType(c[0].Type) then |Writable(c)| == 1 + |rest|
                                         && |EncodeTags(Writable(c))| == |EncodeTag(c[0])| + |EncodeTags(rest)|
            else Writable(c) == rest
  {
    hide EncodeTag, KnownType;
    var rest := Writable(c[1..]);
    assert ([c[0]] + rest)[1..] == rest && [] + rest == rest;
  }

  lemma AreKnown(c: seq<Tag>)
    requires WellFormedTags(c)
    ensures KnownTags(c) && (c != [] ==> KnownType(c[0].Type) && KnownTags(c[1..]) && WellFormedTags(c[1..]))
  {
    forall t | t in c
      ensures KnownType(t.Type)
    {
      assert WellFormed(t);
    }
  }

  lemma {:induction false} GetTagsAt(b: Buffer, c: seq<Tag>)
    requires WellFormedTags(c) && At(b, EncodeTags(c))
    ensures GetTags(b, |c|) == Got(b.Skip(|EncodeTags(c)|), c)
    decreases |c|
  {
    hide GetTag, EncodeTag, FixedLength, LengthWidth;
    AreKnown(c);
    if c != [] {
      assert c == [c[0]] + c[1..];
      AtAppend(b, EncodeTag(c[0]), EncodeTags(c[1..]));
      GetTagAt(b, c[0]);
      GetTagsAt(b.Skip(|EncodeTag(c[0])|), c[1..]);
    }
  }

  lemma GetCollectionAt(b: Buffer, c: seq<Tag>)
    requires WellFormedCollection(c) && At(b, EncodeCollection(c))
    ensures GetCollection(b) == Got(b.Skip(|EncodeCollection(c)|), c)
  {
    hide TakeNumber, LittleEndian, GetTags, EncodeTags, FixedLength, LengthWidth;
    Powers();
    AtAppend(b, LittleEndian(|c|, 4), EncodeTags(c));
    TakeNumberAt(b, |c|, 4);
    GetTagsAt(b.Skip(4), c);
  }

  lemma {:induction false} GotTagsAreWellFormed(b: Buffer, n: nat)
    requires GetTags(b, n).buffer.err.None?
    ensures |GetTags(b, n).value| == n && WellFormedTags(GetTags(b, n).value)
    decreases n
  {
    hide GetTag, WellFormed;
    if n != 0 {
      GotTagIsWellFormed(b);
      GotTagsAreWellFormed(GetTag(b).buffer, n - 1);
    }
  }

  lemma GotCollectionIsWellFormed(b: Buffer)
    requires GetCollection(b).buffer.err.None?
    ensures WellFormedCollection(GetCollection(b).value)
  {
    hide GetTags;
    var sz := TakeNumber(b, 4);
    GotTagsAreWellFormed(sz.buffer, sz.value);
  }

  lemma {:induction false} PutTagsWrites(b: Buffer, c: seq<Tag>)
    requires KnownTags(c)
    ensures Wrote(b, PutTags(b, c), EncodeTags(c))
    decreases |c|
  {
    hide PutTag, EncodeTag;
    if c == [] {
      PutWrites(b, []);
      PutNothing(b);
    } else {
      PutTagWrites(b, c[0]);
      PutTagsWrites(PutTag(b, c[0]), c[1..]);
      WroteAppend(b, PutTag(b, c[0]), PutTags(b, c), EncodeTag(c[0]), EncodeTags(c[1..]));
    }
  }

  lemma PutNothing(b: Buffer)
    ensures Wrote(b, b, [])
  {
    if b.Room(0) {
      assert Overlay(b.data, b.pos, []) == b.data;
    }
  }

  lemma PutCollectionWrites(b: Buffer, c: seq<Tag>)
    requires KnownTags(c)
    ensures Wrote(b, PutCollection(b, c), EncodeCollection(c))
  {
    hide PutTags, EncodeTags, LittleEndian;
    var t := PutNumber(b, |c|, 4);
    PutWrites(b, LittleEndian(|c|, 4));
    PutTagsWrites(t, c);
    WroteAppend(b, t, PutTags(t, c), LittleEndian(|c|, 4), EncodeTags(c));
  }

  lemma {:induction false} TagsLonger(b: Buffer, more: seq<byte>, n: nat)
    requires b.err.None?
    ensures Stable(b, GetTags(b, n), GetTags(Longer(b, more), n), more)
    decreases n
  {
    hide GetTag;
    if n != 0 {
      TagLonger(b, more);
      var t := GetTag(b);
      if t.buffer.err.None? {
        TagsLonger(t.buffer, more, n - 1);
      }
    }
  }

  lemma CollectionLonger(b: Buffer, more: seq<byte>)
    ensures Stable(b, GetCollection(b), GetCollection(Longer(b, more)), more)
  {
    hide GetTags, TakeNumber;
    TakeLonger(b, more, 4);
    var sz := TakeNumber(b, 4);
    if sz.buffer.err.None? {
      TagsLonger(sz.buffer, more, sz.value);
    }
  }

  // ----- the packet

  datatype UsualPacket = UsualPacket(Hash: ED2KHash, Point: Endpoint, Properties: seq<Tag>)

  function EncodePacket(up: UsualPacket): seq<byte>
    requires KnownTags(up.Properties)
  {
    up.Hash + (EncodeEndpoint(up.Point) + EncodeCollection(up.Properties))
  }

  /** Read is a no-op once the error is set. */
  function GetPacket(b: Buffer): Got<UsualPacket> {
    var hash := GetHash(b);
    var point := GetEndpoint(hash.buffer);
    var properties := GetCollection(point.buffer);
    Got(properties.buffer, UsualPacket(hash.value, point.value, properties.value))
  }

  function PutPacket(b: Buffer, up: UsualPacket): Buffer {
    var hash := PutBytes(b, up.Hash);
    var point := PutEndpoint(hash, up.Point);
    if point.err.Some? then point else PutCollection(point, up.Properties)
  }

  method ReadPacket(sb: StateBuffer) returns (up: UsualPacket)
    modifies sb
    ensures Got(sb.Value(), up) == GetPacket(old(sb.Value()))
  {
    hide GetHash, GetEndpoint, GetCollection;
    var hash := ReadHash(sb);
    var point := ReadEndpoint(sb);
    var properties := ReadCollection(sb);
    up := UsualPacket(hash, point, properties);
  }

  method WritePacket(sb: StateBuffer, up: UsualPacket)
    modifies sb, sb.Data
    ensures sb.Value() == PutPacket(old(sb.Value()), up)
  {
    hide PutCollection, LittleEndian, NumberOfIp, NumberOfPort;
    sb.WriteBytes(up.Hash);
    sb.WriteNumber(NumberOfIp(up.Point.ip), 4);
    sb.WriteNumber(NumberOfPort(up.Point.port), 2);
    if sb.err.None? {
      WriteCollection(sb, up.Properties);
    }
  }

  method PacketSize(up: UsualPacket) returns (size: int)
    ensures var written := Writable(up.Properties);
            size == |EncodePacket(up.(Properties := written))| - (|up.Properties| - |written|)
    ensures KnownTags(up.Properties) ==> size == |EncodePacket(up)|
  {
    hide KnownTags, EncodeCollection, Writable;
    var properties := CollectionSize(up.Properties);
    size := HASH_LEN + (4 + 2) + properties;
  }

  lemma GetPacketAt(b: Buffer, up: UsualPacket)
    requires WellFormedCollection(up.Properties) && At(b, EncodePacket(up))
    ensures GetPacket(b) == Got(b.Skip(|EncodePacket(up)|), up)
  {
    hide GetHash, GetEndpoint, GetCollection, EncodeCollection, LittleEndian, NumberOfIp, NumberOfPort;
    var point, properties := EncodeEndpoint(up.Point), EncodeCollection(up.Properties);
    AtAppend(b, up.Hash, point + properties);
    AtAppend(b.Skip(HASH_LEN), point, properties);
    GetHashAt(b, up.Hash);
    GetEndpointAt(b.Skip(HASH_LEN), up.Point);
    GetCollectionAt(b.Skip(HASH_LEN).Skip(6), up.Properties);
  }

  lemma PutPacketWrites(b: Buffer, up: UsualPacket)
    requires KnownTags(up.Properties)
    ensures Wrote(b, PutPacket(b, up), EncodePacket(up))
  {
    hide PutCollection, EncodeCollection, LittleEndian, NumberOfIp, NumberOfPort;
    var hash := PutBytes(b, up.Hash);
    var point := PutEndpoint(hash, up.Point);
    PutWrites(b, up.Hash);
    PutEndpointWrites(hash, up.Point);
    if point.err.None? {
      PutCollectionWrites(point, up.Properties);
    }
    var end := PutPacket(b, up);
    WroteAppend(hash, point, end, EncodeEndpoint(up.Point), EncodeCollection(up.Properties));
    WroteAppend(b, hash, end, up.Hash, EncodeEndpoint(up.Point) + EncodeCollection(up.Properties));
  }

  lemma PutEndpointWrites(b: Buffer, e: Endpoint)
    ensures Wrote(b, PutEndpoint(b, e), EncodeEndpoint(e))
  {
    hide LittleEndian, NumberOfIp, NumberOfPort;
    var ip, port := LittleEndian(NumberOfIp(e.ip), 4), LittleEndian(NumberOfPort(e.port), 2);
    var t := PutBytes(b, ip);
    PutWrites(b, ip);
    PutWrites(t, port);
    WroteAppend(b, t, PutBytes(t, port), ip, port);
  }

  /** Put fills exactly Size bytes and Get reads them back, exactly for packets
      with well-formed tags that are not too many. */
  lemma PacketRoundTripIff(b: Buffer, up: UsualPacket)
    requires KnownTags(up.Properties) && b.Room(|EncodePacket(up)|)
    ensures PutPacket(b, up).err.None? && PutPacket(b, up).pos == b.pos + |EncodePacket(up)|
    ensures RoundTrips(GetPacket, PutPacket(b, up), b.pos, up) <==> WellFormedCollection(up.Properties)
  {
    hide EncodePacket, GetPacket, PutPacket, WellFormedCollection;
    var written := PutPacket(b, up);
    PutPacketWrites(b, up);
    WrittenIsThere(b, written, EncodePacket(up));
    var start := written.(pos := b.pos);
    if WellFormedCollection(up.Properties) {
      GetPacketAt(start, up);
    }
    if GetPacket(start) == Got(written, up) {
      GotPacketIsWellFormed(start);
    }
  }

  lemma GotPacketIsWellFormed(b: Buffer)
    requires GetPacket(b).buffer.err.None?
    ensures WellFormedCollection(GetPacket(b).value.Properties)
  {
    hide GetHash, GetEndpoint, GetCollection, WellFormedCollection;
    GotCollectionIsWellFormed(GetEndpoint(GetHash(b).buffer).buffer);
  }

  /** Without room for the packet, the error is set. */
  lemma NoRoomForPacket(b: Buffer, up: UsualPacket)
    requires KnownTags(up.Properties) && !b.Room(|EncodePacket(up)|)
    ensures PutPacket(b, up).err.Some?
  {
    hide PutPacket, EncodeEndpoint, EncodeCollection;
    assert EncodePacket(up) != [];
    PutPacketWrites(b, up);
  }

  lemma PacketLonger(b: Buffer, more: seq<byte>)
    ensures Stable(b, GetPacket(b), GetPacket(Longer(b, more)), more)
  {
    hide GetHash, GetEndpoint, GetCollection;
    var hash := GetHash(b);
    var point := GetEndpoint(hash.buffer);
    HashLonger(b, more);
    EndpointLonger(hash.buffer, more);
    CollectionLonger(point.buffer, more);
    if GetPacket(b).buffer.err.None? {
      PacketErrors(b);
      assert GetHash(Longer(b, more)).buffer == Longer(hash.buffer, more);
      assert GetEndpoint(Longer(hash.buffer, more)).buffer == Longer(point.buffer, more);
    }
  }

  lemma HashLonger(b: Buffer, more: seq<byte>)
    ensures Stable(b, GetHash(b), GetHash(Longer(b, more)), more)
  {
    TakeLonger(b, more, HASH_LEN);
  }

  /** An error of an early part is not cleared by a later one. */
  lemma PacketErrors(b: Buffer)
    requires GetPacket(b).buffer.err.None?
    ensures GetHash(b).buffer.err.None? && GetEndpoint(GetHash(b).buffer).buffer.err.None?
  {
    hide GetTags;
  }

  /** A buffer that ends inside the packet is an error. */
  lemma ShortPacketFails(b: Buffer, up: UsualPacket, cut: nat)
    requires WellFormedCollection(up.Properties)
    requires b.err.None? && b.pos <= |b.data| && cut < |EncodePacket(up)| && b.data[b.pos..] == EncodePacket(up)[..cut]
    ensures GetPacket(b).buffer.err.Some?
  {
    hide GetPacket, EncodePacket;
    var e := EncodePacket(up);
    CompletedIsThere(b, e, cut);
    GetPacketAt(Longer(b, e[cut..]), up);
    PacketLonger(b, e[cut..]);
    ShortFails(b, e, cut, GetPacket(b), GetPacket(Longer(b, e[cut..])));
  }
}
