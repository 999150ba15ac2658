/**
 Flow keys: the 5-tuple the kernel program stores and the agent reads back, and the
 normalization that puts both directions of a conversation under one key.
 Addresses and ports are held as the little-endian host sees the network-order bytes.
 `A` is `uint32` for IPv4 and a sequence of four `uint32` words for IPv6.
 */
module Flows {
  import opened Statistics

  datatype Direction = Ingress | Egress

  datatype Flow<A> = Flow(src: A, dst: A, proto: uint8, sport: uint16, dport: uint16) {

    /** The same conversation written from the other end. */
    function Reverse(): Flow<A> {
      Flow(dst, src, proto, dport, sport)
    }
  }

  type V4Flow = Flow<uint32>
  type V6Flow = Flow<seq<uint32>>

  /** Ingress packets keep their tuple; egress packets are stored under the reversed one. */
  function Normalized<A>(f: Flow<A>, dir: Direction): (key: Flow<A>) {
    match dir
    case Ingress => f
    case Egress => f.Reverse()
  }

  /** The key struct that `normalize_v4_flow` and `normalize_v6_flow` rewrite through a pointer. */
  class FlowBuffer<A> {
    var src: A
    var dst: A
    var proto: uint8
    var sport: uint16
    var dport: uint16

    constructor (f: Flow<A>)
      ensures Value() == f
    {
      src, dst, proto, sport, dport := f.src, f.dst, f.proto, f.sport, f.dport;
    }

    function Value(): Flow<A>
      reads this
    {
      Flow(src, dst, proto, sport, dport)
    }

    method SetPorts(source: uint16, dest: uint16)
      modifies this
      ensures Value() == old(Value()).(sport := source, dport := dest)
    {
      sport, dport := source, dest;
    }

    method Normalize(dir: Direction)
      modifies this
      ensures Value() == Normalized(old(Value()), dir)
    {
      if dir == Ingress {
        return;
      }
      var addr := src;
      var port := sport;
      src := dst;
      dst := addr;
      sport := dport;
      dport := port;
    }
  }

  /**
   A conversation has exactly one key per capturing end: what one end receives and what that same
   end sends back normalize alike, and no packet of another conversation joins them.
   */
  lemma ConversationSharesKey<A>(p: Flow<A>, q: Flow<A>)
    ensures Normalized(p, Ingress) == Normalized(q, Egress) <==> q == p.Reverse()
    ensures forall dir :: Normalized(p, dir) == Normalized(q, dir) <==> p == q
    ensures forall dir :: Normalized(Normalized(p, dir), dir) == p
  {
    assert p.Reverse().Reverse() == p && q.Reverse().Reverse() == q;
  }

  // ---------------------------------------------------------------- Go-side accessors

  predicate IsDigit(c: char) {
    '0' <= c <= '9'
  }

  function Digit(d: nat): (c: char)
    requires d < 10
    ensures IsDigit(c)
  {
    ['0', '1', '2', '3', '4', '5', '6', '7', '8', '9'][d]
  }

  function OctetText(b: uint8): (s: string)
    ensures 1 <= |s| && forall c :: c in s ==> IsDigit(c)
  {
    if b < 10 then [Digit(b)]
    else if b < 100 then [Digit(b / 10), Digit(b % 10)]
    else [Digit(b / 100), Digit(b / 10 % 10), Digit(b % 10)]
  }

  /** The four bytes of an address word in memory order on a little-endian host. */
  function Octets(ip: uint32): (bytes: seq<uint8>)
    ensures |bytes| == 4
    ensures ip == bytes[0] + TWO_8 * bytes[1] + TWO_16 * bytes[2] + TWO_16 * TWO_8 * bytes[3]
  {
    var q1 := ip / TWO_8;
    var q2 := q1 / TWO_8;
    var q3 := q2 / TWO_8;
    assert ip == TWO_8 * q1 + ip % TWO_8 && q1 == TWO_8 * q2 + q1 % TWO_8 && q2 == TWO_8 * q3 + q2 % TWO_8;
    [ip % TWO_8, q1 % TWO_8, q2 % TWO_8, q3]
  }

  /** `GetSrcIp`/`GetDstIp`: the dotted text of the four address bytes. */
  function IpText(ip: uint32): (s: string)
    ensures '/' !in s && s != ""
  {
    var b := Octets(ip);
    OctetText(b[0]) + "." + OctetText(b[1]) + "." + OctetText(b[2]) + "." + OctetText(b[3])
  }

  /** `GetSPort`/`GetDPort`: written big-endian and read back little-endian. */
  function PortNumber(stored: uint16): (port: uint16)
    ensures port == stored / TWO_8 + TWO_8 * (stored % TWO_8)
  {
    var written := [stored / TWO_8, stored % TWO_8];
    written[0] + TWO_8 * written[1]
  }
}
