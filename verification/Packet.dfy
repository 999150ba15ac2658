/**
 `bpf_flow_reader` on the bytes of a packet: header parsing, loopback filter and the flow-map
 update. Decoding is related to an encoder written from the header layouts of section 3.1 of
 RFC 791 (IPv4) and section 3 of RFC 8200 (IPv6). Fragments and IPv6 extension headers are not
 told apart by the program and not encoded here.
 */
module Packet {
  import opened Statistics
  import opened Flows
  import opened KernelMap

  /** A socket buffer: the bytes between `data` and `data_end`, and `len`, which may exceed them. */
  datatype Skb = Skb(data: seq<uint8>, len: uint32)

  const PROTO_TCP: uint8 := 6
  const PROTO_UDP: uint8 := 17
  const V4_HEADER: nat := 20
  const V6_HEADER: nat := 40
  const TCP_HEADER: nat := 20
  const UDP_HEADER: nat := 8

  /** IPV4_LOOPBACK, 127.0.0.1 as a little-endian host loads it. */
  const V4_LOOPBACK: uint32 := 0x0100_007f
  const V6_LOOPBACK: seq<uint32> := [0, 0, 0, 0x0100_0000]

  // ---------------------------------------------------------------- little-endian loads

  function Half(data: seq<uint8>, at: nat): uint16
    requires at + 2 <= |data|
  {
    (data[at] as int) + 0x100 * (data[at + 1] as int)
  }

  function Word(data: seq<uint8>, at: nat): uint32
    requires at + 4 <= |data|
  {
    (data[at] as int) + 0x100 * (data[at + 1] as int) + 0x1_0000 * (data[at + 2] as int) + 0x100_0000 * (data[at + 3] as int)
  }

  function Words(data: seq<uint8>, at: nat): seq<uint32>
    requires at + 16 <= |data|
  {
    [Word(data, at), Word(data, at + 4), Word(data, at + 8), Word(data, at + 12)]
  }

  // ---------------------------------------------------------------- what the parser finds

  datatype Ports = Ports(source: uint16, dest: uint16)

  datatype Decoded = Skipped | V4Packet(v4: V4Flow) | V6Packet(v6: V6Flow)

  /** Ports exist for TCP and UDP only, behind a complete transport header. */
  function PortsAt(data: seq<uint8>, proto: uint8, offset: nat): Option<Ports> {
    if proto == PROTO_TCP && offset + TCP_HEADER > |data| then None
    else if proto == PROTO_UDP && offset + UDP_HEADER > |data| then None
    else if proto == PROTO_TCP || proto == PROTO_UDP then Some(Ports(Half(data, offset), Half(data, offset + 2)))
    else Some(Ports(0, 0))
  }

  /** The tuple a packet is accounted under; `Skipped` when it is too short or loopback traffic. */
  function Decode(data: seq<uint8>): Decoded {
    if |data| < V4_HEADER then Skipped
    else if data[0] / 16 == 4 then
      var proto := data[9];
      var src, dst := Word(data, 12), Word(data, 16);
      var ports := PortsAt(data, proto, data[0] % 16 * 4);
      if src == V4_LOOPBACK || dst == V4_LOOPBACK || ports == None then Skipped
      else V4Packet(Flow(src, dst, proto, ports.value.source, ports.value.dest))
    else if |data| < V6_HEADER then Skipped
    else
      var proto := data[6];
      var src, dst := Words(data, 8), Words(data, 24);
      var ports := PortsAt(data, proto, V6_HEADER);
      if src == V6_LOOPBACK || dst == V6_LOOPBACK || ports == None then Skipped
      else V6Packet(Flow(src, dst, proto, ports.value.source, ports.value.dest))
  }

  // ---------------------------------------------------------------- the program

  /** The counters a new entry starts with. */
  method InitialStats(dir: Direction, len: uint32) returns (stats: FlowStats)
    ensures stats == Hit(dir, len)
  {
    if dir == Ingress {
      stats := FlowStats(Traffic(len, 1), Traffic(0, 0));
    } else {
      stats := FlowStats(Traffic(0, 0), Traffic(len, 1));
    }
  }

  /** The two atomic adds at the end of the program. */
  method CountPacket(stats: FlowStats, dir: Direction, len: uint32) returns (counted: FlowStats)
    ensures counted == AddStats(stats, Hit(dir, len))
  {
    if dir == Ingress {
      counted := stats.(outgoing := stats.outgoing.(bytes := Mod64(stats.outgoing.bytes + len)));
      counted := counted.(outgoing := counted.outgoing.(packets := Mod64(counted.outgoing.packets + 1)));
    } else {
      counted := stats.(incoming := stats.incoming.(bytes := Mod64(stats.incoming.bytes + len)));
      counted := counted.(incoming := counted.incoming.(packets := Mod64(counted.incoming.packets + 1)));
    }
  }

  /** `bpf_flow_reader`; its verdict is always "accept", so it has no result. */
  method FlowReader(skb: Skb, dir: Direction, maps: KernelMaps)
    modifies maps
    ensures maps.v4 == match Decode(skb.data)
                       case V4Packet(f) => Record(old(maps.v4), f, dir, skb.len)
                       case _ => old(maps.v4)
    ensures maps.v6 == match Decode(skb.data)
                       case V6Packet(f) => Record(old(maps.v6), f, dir, skb.len)
                       case _ => old(maps.v6)
  {
    hide AddStats, Hit, Words, Word, Half;
    var data := skb.data;
    if V4_HEADER > |data| {
      return;
    }
    if data[0] / 16 == 4 {
      var key := new FlowBuffer<uint32>(Flow(Word(data, 12), Word(data, 16), data[9], 0, 0));
      var offset := data[0] % 16 * 4;
      if key.src == V4_LOOPBACK || key.dst == V4_LOOPBACK {
        return;
      }
      if key.proto == PROTO_TCP {
        if offset + TCP_HEADER > |data| {
          return;
        }
        key.SetPorts(Half(data, offset), Half(data, offset + 2));
      } else if key.proto == PROTO_UDP {
        if offset + UDP_HEADER > |data| {
          return;
        }
        key.SetPorts(Half(data, offset), Half(data, offset + 2));
      }
      assert Decode(data) == V4Packet(key.Value());
      key.Normalize(dir);
      CountV4(maps, key.Value(), dir, skb.len);
    } else {
      if V6_HEADER > |data| {
        return;
      }
      var key := new FlowBuffer<seq<uint32>>(Flow(Words(data, 8), Words(data, 24), data[6], 0, 0));
      if key.src == V6_LOOPBACK || key.dst == V6_LOOPBACK {
        return;
      }
      if key.proto == PROTO_TCP {
        if V6_HEADER + TCP_HEADER > |data| {
          return;
        }
        key.SetPorts(Half(data, V6_HEADER), Half(data, V6_HEADER + 2));
      } else if key.proto == PROTO_UDP {
        if V6_HEADER + UDP_HEADER > |data| {
          return;
        }
        key.SetPorts(Half(data, V6_HEADER), Half(data, V6_HEADER + 2));
      }
      assert Decode(data) == V6Packet(key.Value());
      key.Normalize(dir);
      CountV6(maps, key.Value(), dir, skb.len);
    }
  }

  /** Lookup, then insert or add, in the IPv4 map; a failed insert is only traced. */
  method CountV4(maps: KernelMaps, key: V4Flow, dir: Direction, len: uint32)
    modifies maps`v4
    ensures maps.v4 == Tally(old(maps.v4), key, dir, len)
  {
    hide AddStats, Hit;
    if key !in maps.v4 {
      var value := InitialStats(dir, len);
      if |maps.v4| < FLOW_MAP_SIZE {
        maps.v4 := maps.v4[key := value];
      }
      return;
    }
    var value := CountPacket(maps.v4[key], dir, len);
    maps.v4 := maps.v4[key := value];
  }

  method CountV6(maps: KernelMaps, key: V6Flow, dir: Direction, len: uint32)
    modifies maps`v6
    ensures maps.v6 == Tally(old(maps.v6), key, dir, len)
  {
    hide AddStats, Hit;
    if key !in maps.v6 {
      var value := InitialStats(dir, len);
      if |maps.v6| < FLOW_MAP_SIZE {
        maps.v6 := maps.v6[key := value];
      }
      return;
    }
    var value := CountPacket(maps.v6[key], dir, len);
    maps.v6 := maps.v6[key := value];
  }

  // ---------------------------------------------------------------- encoding

  function PortBytes(port: uint16): (b: seq<uint8>)
    ensures |b| == 2
  {
    [port / 0x100, port % 0x100]
  }

  /** What follows the network header: ports and the rest, or fewer than four bytes. */
  datatype Segment = Segment(sport: uint16, dport: uint16, rest: seq<uint8>) | Stub(bytes: seq<uint8>) {
    predicate WellFormed() {
      Stub? ==> |bytes| < 4
    }

    function Encode(): (b: seq<uint8>)
      ensures |b| == if Stub? then |bytes| else 4 + |rest|
    {
      if Stub? then bytes else PortBytes(sport) + PortBytes(dport) + rest
    }

    /** No transport header is cut short: twenty bytes for TCP (6), eight for UDP (17). */
    predicate Complete(proto: uint8) {
      && (proto == 6 ==> |Encode()| >= 20)
      && (proto == 17 ==> |Encode()| >= 8)
    }
  }

  /** Every payload is some segment, so the packets below are all packets with their header. */
  lemma EveryPayloadIsASegment(payload: seq<uint8>)
    ensures exists s: Segment :: s.WellFormed() && s.Encode() == payload
  {
    if |payload| < 4 {
      assert Stub(payload).Encode() == payload;
    } else {
      var s := Segment((payload[0] as int) * 0x100 + payload[1], (payload[2] as int) * 0x100 + payload[3], payload[4..]);
      assert s.Encode() == payload;
    }
  }

  /** An IPv4 packet; `lead` is everything between the first byte and the protocol. */
  datatype V4Wire = V4Wire(ihl: nat, lead: seq<uint8>, proto: uint8, checksum: seq<uint8>,
                           src: seq<uint8>, dst: seq<uint8>, options: seq<uint8>, segment: Segment)
  {
    predicate WellFormed() {
      && 5 <= ihl <= 15 && |lead| == 8 && |checksum| == 2 && |src| == |dst| == 4
      && |options| == (ihl - 5) * 4 && segment.WellFormed()
    }

    function Header(): (b: seq<uint8>)
      requires WellFormed()
      ensures |b| == 20
    {
      [4 * 16 + ihl] + lead + [proto] + checksum + src + dst
    }

    function Encode(): (b: seq<uint8>)
      requires WellFormed()
      ensures |b| == ihl * 4 + |segment.Encode()|
    {
      Header() + options + segment.Encode()
    }
  }

  /**
   A packet without extension headers that is read as IPv6: every version but 4 is. `lead` is what
   follows the first byte up to the next header.
   */
  datatype V6Wire = V6Wire(version: nat, priority: nat, lead: seq<uint8>, proto: uint8, hopLimit: uint8,
                           src: seq<uint8>, dst: seq<uint8>, segment: Segment)
  {
    predicate WellFormed() {
      version < 16 && version != 4 && priority < 16 && |lead| == 5 && |src| == |dst| == 16 && segment.WellFormed()
    }

    function Header(): (b: seq<uint8>)
      requires WellFormed()
      ensures |b| == 40
    {
      [version * 16 + priority] + lead + [proto, hopLimit] + src + dst
    }

    function Encode(): (b: seq<uint8>)
      requires WellFormed()
      ensures |b| == 40 + |segment.Encode()|
    {
      Header() + segment.Encode()
    }
  }

  /** TCP and UDP by their assigned numbers. */
  predicate HasPorts(proto: uint8) {
    proto == 6 || proto == 17
  }

  // ---------------------------------------------------------------- accessors undo the byte order

  /** The Go address accessor reads back the bytes as they were on the wire. */
  lemma OctetsOfWord(data: seq<uint8>, at: nat)
    requires at + 4 <= |data|
    ensures Octets(Word(data, at)) == data[at..at + 4]
  {
    hide Octets;
    var b := Octets(Word(data, at));
    SameBase256(b[0], b[1], b[2], b[3], data[at], data[at + 1], data[at + 2], data[at + 3]);
    assert b == data[at..at + 4];
  }

  lemma SameBase256(a0: uint8, a1: uint8, a2: uint8, a3: uint8, b0: uint8, b1: uint8, b2: uint8, b3: uint8)
    requires (a0 as int) + 0x100 * (a1 as int) + 0x1_0000 * (a2 as int) + 0x100_0000 * (a3 as int)
             == (b0 as int) + 0x100 * (b1 as int) + 0x1_0000 * (b2 as int) + 0x100_0000 * (b3 as int)
    ensures a0 == b0 && a1 == b1 && a2 == b2 && a3 == b3
  {
    SameDigit(a0, b0, a1 + 0x100 * (a2 + 0x100 * a3 as int), b1 + 0x100 * (b2 + 0x100 * b3 as int));
    SameDigit(a1, b1, a2 + 0x100 * a3 as int, b2 + 0x100 * b3 as int);
    SameDigit(a2, b2, a3, b3);
  }

  lemma SameDigit(a: uint8, b: uint8, x: int, y: int)
    requires (a as int) + 0x100 * x == (b as int) + 0x100 * y
    ensures a == b && x == y
  {}

  lemma PortOfHalf(data: seq<uint8>, at: nat, port: uint16)
    requires at + 2 <= |data| && data[at..at + 2] == PortBytes(port)
    ensures PortNumber(Half(data, at)) == port
  {
    assert data[at] == data[at..at + 2][0] && data[at + 1] == data[at..at + 2][1];
  }

  /** A word is 127.0.0.1 exactly when its bytes are. */
  lemma LoopbackWord(data: seq<uint8>, at: nat)
    requires at + 4 <= |data|
    ensures Word(data, at) == V4_LOOPBACK <==> data[at..at + 4] == [127, 0, 0, 1]
  {
    if Word(data, at) == V4_LOOPBACK {
      SameBase256(data[at], data[at + 1], data[at + 2], data[at + 3], 127, 0, 0, 1);
    } else {
      assert data[at..at + 4] == [data[at], data[at + 1], data[at + 2], data[at + 3]];
    }
  }

  // ---------------------------------------------------------------- round trips

  lemma SegmentPorts(data: seq<uint8>, offset: nat, s: Segment, proto: uint8)
    requires offset <= |data| && data[offset..] == s.Encode() && s.WellFormed()
    ensures PortsAt(data, proto, offset) == None <==> !s.Complete(proto)
    ensures s.Complete(proto) && HasPorts(proto) ==>
              var ports := PortsAt(data, proto, offset).value;
              s.Segment? && PortNumber(ports.source) == s.sport && PortNumber(ports.dest) == s.dport
    ensures !HasPorts(proto) ==> PortsAt(data, proto, offset) == Some(Ports(0, 0))
  {
    hide PortNumber, Half, PortBytes;
    assert |data| == offset + |s.Encode()|;
    if s.Segment? {
      assert data[offset..offset + 2] == s.Encode()[..2] == PortBytes(s.sport);
      assert data[offset + 2..offset + 4] == s.Encode()[2..4] == PortBytes(s.dport);
      PortOfHalf(data, offset, s.sport);
      PortOfHalf(data, offset + 2, s.dport);
    }
  }

  /** Where the fields of an encoded IPv4 packet are. */
  lemma V4Layout(p: V4Wire)
    requires p.WellFormed()
    ensures var data := p.Encode();
            && data[0] == 64 + p.ihl && data[9] == p.proto
            && data[12..16] == p.src && data[16..20] == p.dst && data[p.ihl * 4..] == p.segment.Encode()
  {
    var header := p.Header();
    var data := p.Encode();
    assert data[..20] == header;
    assert header[12..16] == p.src && header[16..20] == p.dst;
    assert data[12..16] == data[..20][12..16] && data[16..20] == data[..20][16..20];
  }

  lemma V6Layout(p: V6Wire)
    requires p.WellFormed()
    ensures var data := p.Encode();
            && data[0] == p.version * 16 + p.priority && data[6] == p.proto
            && data[8..24] == p.src && data[24..40] == p.dst && data[40..] == p.segment.Encode()
  {
    var header := p.Header();
    var data := p.Encode();
    assert data[..40] == header;
    assert header[8..24] == p.src && header[24..40] == p.dst;
    assert data[8..24] == data[..40][8..24] && data[24..40] == data[..40][24..40];
  }

  /** TCP and UDP ports as the Go accessors answer them, zero for every other protocol. */
  predicate DescribesPorts(source: uint16, dest: uint16, proto: uint8, s: Segment) {
    if HasPorts(proto) then s.Segment? && PortNumber(source) == s.sport && PortNumber(dest) == s.dport
    else source == dest == 0
  }

  /** The key holds what the packet said, in the terms the Go accessors answer. */
  predicate DescribesV4(f: V4Flow, p: V4Wire) {
    && Octets(f.src) == p.src && Octets(f.dst) == p.dst && f.proto == p.proto
    && DescribesPorts(f.sport, f.dport, p.proto, p.segment)
  }

  /**
   Every IPv4 packet with a complete header, of any header length and payload, is decoded to its own 5-tuple, and is left out exactly
   when an address is 127.0.0.1 or its transport header is cut short.
   */
  lemma V4RoundTrip(p: V4Wire)
    requires p.WellFormed()
    ensures Decode(p.Encode()).Skipped?
            <==> p.src == [127, 0, 0, 1] || p.dst == [127, 0, 0, 1] || !p.segment.Complete(p.proto)
    ensures !Decode(p.Encode()).Skipped? ==> Decode(p.Encode()).V4Packet? && DescribesV4(Decode(p.Encode()).v4, p)
  {
    hide Octets, PortNumber, Half, Word;
    var data := p.Encode();
    V4Layout(p);
    assert data[0] / 16 == 4 && data[0] % 16 == p.ihl;
    OctetsOfWord(data, 12);
    OctetsOfWord(data, 16);
    LoopbackWord(data, 12);
    LoopbackWord(data, 16);
    SegmentPorts(data, p.ihl * 4, p.segment, p.proto);
  }

  /** The reply at network level: addresses and ports exchanged, all else free. */
  predicate Answers(q: V4Wire, p: V4Wire) {
    && q.src == p.dst && q.dst == p.src && q.proto == p.proto
    && (HasPorts(p.proto) && p.segment.Segment? && q.segment.Segment? ==>
          q.segment.sport == p.segment.dport && q.segment.dport == p.segment.sport)
  }

  /** A packet received and any answer sent are accounted under one key, and as different directions of it. */
  lemma AnswersShareTheEntry(p: V4Wire, q: V4Wire)
    requires p.WellFormed() && q.WellFormed() && Answers(q, p)
    requires !Decode(p.Encode()).Skipped? && !Decode(q.Encode()).Skipped?
    ensures Normalized(Decode(p.Encode()).v4, Ingress) == Normalized(Decode(q.Encode()).v4, Egress)
  {
    hide Decode, Octets, PortNumber;
    V4RoundTrip(p);
    V4RoundTrip(q);
    var f, g := Decode(p.Encode()).v4, Decode(q.Encode()).v4;
    SameOctets(f.src, g.dst);
    SameOctets(f.dst, g.src);
    SamePort(f.sport, g.dport);
    SamePort(f.dport, g.sport);
  }

  lemma SameOctets(a: uint32, b: uint32)
    ensures Octets(a) == Octets(b) <==> a == b
  {
    hide Octets;
  }

  lemma SamePort(a: uint16, b: uint16)
    ensures PortNumber(a) == PortNumber(b) <==> a == b
  {}

  /** The bytes of four words in memory order. */
  function AddressBytes(words: seq<uint32>): seq<uint8>
    requires |words| == 4
  {
    Octets(words[0]) + Octets(words[1]) + Octets(words[2]) + Octets(words[3])
  }

  lemma BytesOfWords(data: seq<uint8>, at: nat)
    requires at + 16 <= |data|
    ensures AddressBytes(Words(data, at)) == data[at..at + 16]
  {
    hide Octets, Word;
    OctetsOfWord(data, at);
    OctetsOfWord(data, at + 4);
    OctetsOfWord(data, at + 8);
    OctetsOfWord(data, at + 12);
  }

  /** ::1 */
  predicate IsV6Loopback(b: seq<uint8>) {
    b == [0, 0, 0, 0, 0, 0, 0, 0, 0, 0, 0, 0, 0, 0, 0, 1]
  }

  lemma LoopbackWords(data: seq<uint8>, at: nat)
    requires at + 16 <= |data|
    ensures Words(data, at) == V6_LOOPBACK <==> IsV6Loopback(data[at..at + 16])
  {
    var b := data[at..at + 16];
    if Words(data, at) == V6_LOOPBACK {
      SameBase256(data[at], data[at + 1], data[at + 2], data[at + 3], 0, 0, 0, 0);
      SameBase256(data[at + 4], data[at + 5], data[at + 6], data[at + 7], 0, 0, 0, 0);
      SameBase256(data[at + 8], data[at + 9], data[at + 10], data[at + 11], 0, 0, 0, 0);
      SameBase256(data[at + 12], data[at + 13], data[at + 14], data[at + 15], 0, 0, 0, 1);
    }
  }

  predicate DescribesV6(f: V6Flow, p: V6Wire) {
    && |f.src| == |f.dst| == 4
    && AddressBytes(f.src) == p.src && AddressBytes(f.dst) == p.dst && f.proto == p.proto
    && DescribesPorts(f.sport, f.dport, p.proto, p.segment)
  }

  /** The same for IPv6, where the loopback address is ::1. */
  lemma V6RoundTrip(p: V6Wire)
    requires p.WellFormed()
    ensures Decode(p.Encode()).Skipped?
            <==> IsV6Loopback(p.src) || IsV6Loopback(p.dst) || !p.segment.Complete(p.proto)
    ensures !Decode(p.Encode()).Skipped? ==> Decode(p.Encode()).V6Packet? && DescribesV6(Decode(p.Encode()).v6, p)
  {
    hide AddressBytes, PortNumber, Half, Word;
    var data := p.Encode();
    V6Layout(p);
    BytesOfWords(data, 8);
    BytesOfWords(data, 24);
    LoopbackWords(data, 8);
    LoopbackWords(data, 24);
    SegmentPorts(data, V6_HEADER, p.segment, p.proto);
  }

  // ---------------------------------------------------------------- any bytes at all

  /** Too short for its network header. */
  lemma ShortPacketsAreSkipped(data: seq<uint8>)
    requires |data| < 20 || (data[0] / 16 != 4 && |data| < 40)
    ensures Decode(data).Skipped?
  {}

  /** The transport header that starts at `offset` is cut short. */
  predicate CutShort(data: seq<uint8>, proto: uint8, offset: nat) {
    (proto == 6 && |data| < offset + 20) || (proto == 17 && |data| < offset + 8)
  }

  /** The ports as numbers in network order, zero for protocols without ports. */
  predicate PortsRead(data: seq<uint8>, proto: uint8, offset: nat, source: uint16, dest: uint16)
    requires !CutShort(data, proto, offset)
  {
    if HasPorts(proto) then
      && PortNumber(source) == 0x100 * (data[offset] as int) + data[offset + 1]
      && PortNumber(dest) == 0x100 * (data[offset + 2] as int) + data[offset + 3]
    else source == dest == 0
  }

  lemma PortsAtBytes(data: seq<uint8>, proto: uint8, offset: nat)
    ensures PortsAt(data, proto, offset) == None <==> CutShort(data, proto, offset)
    ensures !CutShort(data, proto, offset) ==>
              var ports := PortsAt(data, proto, offset).value; PortsRead(data, proto, offset, ports.source, ports.dest)
  {}

  /** Every byte string of version 4, also with a header length below five words. */
  lemma DecodesV4Bytes(data: seq<uint8>)
    requires |data| >= 20 && data[0] / 16 == 4
    ensures var offset := data[0] % 16 * 4;
            && (Decode(data).Skipped? <==>
                  data[12..16] == [127, 0, 0, 1] || data[16..20] == [127, 0, 0, 1] || CutShort(data, data[9], offset))
            && (!Decode(data).Skipped? ==>
                  && Decode(data).V4Packet?
                  && var f := Decode(data).v4;
                     && Octets(f.src) == data[12..16] && Octets(f.dst) == data[16..20] && f.proto == data[9]
                     && PortsRead(data, data[9], offset, f.sport, f.dport))
  {
    hide Octets, Word, Half, PortsAt, PortsRead;
    OctetsOfWord(data, 12);
    OctetsOfWord(data, 16);
    LoopbackWord(data, 12);
    LoopbackWord(data, 16);
    PortsAtBytes(data, data[9], data[0] % 16 * 4);
  }

  /** Every byte string of any other version is read as IPv6. */
  lemma DecodesV6Bytes(data: seq<uint8>)
    requires |data| >= 40 && data[0] / 16 != 4
    ensures && (Decode(data).Skipped? <==>
                  IsV6Loopback(data[8..24]) || IsV6Loopback(data[24..40]) || CutShort(data, data[6], 40))
            && (!Decode(data).Skipped? ==>
                  && Decode(data).V6Packet?
                  && var f := Decode(data).v6;
                     && |f.src| == |f.dst| == 4 && AddressBytes(f.src) == data[8..24] && AddressBytes(f.dst) == data[24..40]
                     && f.proto == data[6] && PortsRead(data, data[6], 40, f.sport, f.dport))
  {
    hide AddressBytes, Word, Half, PortsAt, PortsRead;
    BytesOfWords(data, 8);
    BytesOfWords(data, 24);
    LoopbackWords(data, 8);
    LoopbackWords(data, 24);
    PortsAtBytes(data, data[6], 40);
  }
}
