/** Peers as the download engine and the connection policy see them (policy.go). */
module Peers {

  datatype Endpoint = Endpoint(ip: bv32, port: bv16)
  {
    predicate IsEmpty() {
      ip == 0 && port == 0
    }

    predicate IsLocalAddress() {
      IsLocal(ip)
    }
  }

  predicate IsLocal(ip: bv32) {
    || ip & 0x0000ff == 0x0000000a    // 10.x.x.x
    || ip & 0x0000f0ff == 0x000010ac  // 172.16.x.x
    || ip & 0x0000ffff == 0x0000a8c0  // 192.168.x.x
    || ip & 0x0000ffff == 0x0000fea9  // 169.254.x.x
    || ip & 0x000000ff == 0x0000007f  // 127.x.x.x
  }

  const EMPTY_ENDPOINT := Endpoint(0, 0)

  /** The first two numbers of a dotted address are its lowest bytes. The local addresses are
      those of 10/8, 172.16/12, 192.168/16, 169.254/16 and 127/8. */
  lemma LocalIff(ip: bv32)
    ensures var a, b := ip & 0xff, (ip >> 8) & 0xff;
            IsLocal(ip) <==>
            a == 10 || (a == 172 && 16 <= b <= 31) || (a == 192 && b == 168) || (a == 169 && b == 254) || a == 127
  {
  }

  const PEER_SPEED_SLOW: int := 0

  /** A connection and the peer it was made for. */
  class PeerConnection {
    const endpoint: Endpoint
    const peer: Peer

    constructor (e: Endpoint, p: Peer)
      ensures endpoint == e && peer == p
    {
      endpoint, peer := e, p;
    }
  }

  /** Times are integers; the zero time.Time is 0. */
  class Peer {
    const endpoint: Endpoint
    const Speed: int
    var SourceFlag: bv8
    var LastConnected: int
    var NextConnection: int
    var FailCount: int
    var peerConnection: PeerConnection?

    constructor (e: Endpoint, speed: int)
      ensures endpoint == e && Speed == speed
      ensures SourceFlag == 0 && LastConnected == NextConnection == FailCount == 0 && peerConnection == null
    {
      endpoint, Speed := e, speed;
      SourceFlag, LastConnected, NextConnection, FailCount, peerConnection := 0, 0, 0, 0, null;
    }
  }
}
