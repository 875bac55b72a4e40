/** Bytes and the few sequence helpers shared by the modules. */
module Bytes {

  type byte = bv8

  /** A digest. */
  type Hash = seq<byte>

  datatype Option<+T> = None | Some(value: T)

  function Zeros(n: nat): (r: seq<byte>)
    ensures |r| == n && forall i :: 0 <= i < n ==> r[i] == 0
  {
    seq(n, _ => 0)
  }

  /** src laid over dst from position at on. */
  function Overlay(dst: seq<byte>, at: nat, src: seq<byte>): (r: seq<byte>)
    requires at + |src| <= |dst|
    ensures |r| == |dst|
    ensures forall i :: 0 <= i < |dst| ==> r[i] == if at <= i < at + |src| then src[i - at] else dst[i]
  {
    dst[..at] + src + dst[at + |src|..]
  }

  /** A byte as a number. */
  function FromByte(b: byte): (n: nat)
    ensures n < 256
  {
    b as nat
  }

  /** The byte that stands for a number. */
  function ToByte(n: nat): byte
    requires n < 256
  {
    if n == 0 then 0 else ToByte(n - 1) + 1
  }

  lemma NextByte(b: byte)
    requires b != 0xff
    ensures FromByte(b + 1) == FromByte(b) + 1
  {
  }

  lemma LastByteOnly(b: byte)
    requires FromByte(b) < 255
    ensures b != 0xff
  {
  }

  lemma {:induction false} NumberOfByte(n: nat)
    requires n < 256
    ensures FromByte(ToByte(n)) == n
  {
    hide FromByte;
    if n == 0 {
      ZeroByte();
    } else {
      NumberOfByte(n - 1);
      LastByteOnly(ToByte(n - 1));
      NextByte(ToByte(n - 1));
    }
  }

  lemma ZeroByte()
    ensures FromByte(0) == 0
  {
  }

  lemma SameNumberSameByte(b: byte, c: byte)
    requires FromByte(b) == FromByte(c)
    ensures b == c
  {
  }

  lemma ByteRoundTrip(n: nat, b: byte)
    ensures n < 256 ==> FromByte(ToByte(n)) == n
    ensures ToByte(FromByte(b)) == b
  {
    hide FromByte, ToByte;
    if n < 256 {
      NumberOfByte(n);
    }
    NumberOfByte(FromByte(b));
    SameNumberSameByte(ToByte(FromByte(b)), b);
  }
}
