/**
 The flow maps the cgroup program fills and the agent scans: bounded hash maps whose entries
 only the insert, the atomic adds and the agent's deletes change.
 */
module KernelMap {
  import opened Statistics
  import opened Flows

  /** V4_FLOW_MAP_SIZE and V6_FLOW_MAP_SIZE. */
  const FLOW_MAP_SIZE: nat := 65535

  type FlowMap<A(==)> = map<Flow<A>, FlowStats>

  /** The counters of one packet: the ingress hook counts as out, the egress hook as in. */
  function Hit(dir: Direction, len: uint32): FlowStats {
    match dir
    case Ingress => FlowStats(Traffic(len, 1), Traffic(0, 0))
    case Egress => FlowStats(Traffic(0, 0), Traffic(len, 1))
  }

  /** The counters a hook adds bytes and packets to. */
  function ByteCounter(dir: Direction): Counter {
    match dir
    case Ingress => OutBytes
    case Egress => InBytes
  }

  function PacketCounter(dir: Direction): Counter {
    match dir
    case Ingress => OutPackets
    case Egress => InPackets
  }

  /** An insert of a new key into a full map fails; the packet is then not counted anywhere. */
  predicate Rejected<A(==)>(m: FlowMap<A>, key: Flow<A>) {
    key !in m && |m| >= FLOW_MAP_SIZE
  }

  /** Lookup, then insert or atomic add, under a normalized key. */
  function Tally<A(==)>(m: FlowMap<A>, key: Flow<A>, dir: Direction, len: uint32): FlowMap<A> {
    if key in m then m[key := AddStats(m[key], Hit(dir, len))]
    else if Rejected(m, key) then m
    else m[key := Hit(dir, len)]
  }

  /** The same for a packet with tuple `f`. */
  function Record<A(==)>(m: FlowMap<A>, f: Flow<A>, dir: Direction, len: uint32): FlowMap<A> {
    Tally(m, Normalized(f, dir), dir, len)
  }

  class KernelMaps {
    var v4: FlowMap<uint32>
    var v6: FlowMap<seq<uint32>>

    constructor ()
      ensures v4 == map[] && v6 == map[]
    {
      v4, v6 := map[], map[];
    }

    /** `m2.Delete`: removes the key unless the call fails, which the caller of the model decides. */
    method DeleteV4(key: V4Flow, fails: bool) returns (err: bool)
      modifies this`v4
      ensures v4 == if fails then old(v4) else old(v4) - {key}
      ensures err <==> fails || key !in old(v4)
    {
      err := fails || key !in v4;
      if !fails {
        v4 := v4 - {key};
      }
    }
  }
}
