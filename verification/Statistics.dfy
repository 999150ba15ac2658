/**
 Flow statistics as four uint64 counters, their wrap-around arithmetic, and integer sums.
 Ledgers and theorems speak of one counter at a time, as an unbounded integer.
 */
module Statistics {

  const TWO_8: int := 0x100
  const TWO_16: int := 0x1_0000
  const TWO_32: int := 0x1_0000_0000
  const TWO_64: int := 0x1_0000_0000_0000_0000

  type uint8 = x: int | 0 <= x < 0x100
  type uint16 = x: int | 0 <= x < 0x1_0000
  type uint32 = x: int | 0 <= x < 0x1_0000_0000
  type uint64 = x: int | 0 <= x < 0x1_0000_0000_0000_0000

  datatype Option<+T> = None | Some(value: T)

  /** Truncation to 64 bits. */
  function Mod64(x: int): (r: uint64)
    ensures 0 <= x < 0x1_0000_0000_0000_0000 ==> r == x
  {
    x % 0x1_0000_0000_0000_0000
  }

  /** Which of the four counters. */
  datatype Counter = OutBytes | OutPackets | InBytes | InPackets {
    /** The counter of the same traffic at the other endpoint. */
    function Mirror(): Counter {
      match this
      case OutBytes => InBytes
      case OutPackets => InPackets
      case InBytes => OutBytes
      case InPackets => OutPackets
    }
  }

  /** Bytes and packets of one direction. */
  datatype Traffic = Traffic(bytes: uint64, packets: uint64)

  /** `Out_bytes`, `Out_packets` and `In_bytes`, `In_packets`. */
  datatype FlowStats = FlowStats(outgoing: Traffic, incoming: Traffic) {

    function Get(w: Counter): uint64 {
      match w
      case OutBytes => outgoing.bytes
      case OutPackets => outgoing.packets
      case InBytes => incoming.bytes
      case InPackets => incoming.packets
    }

    /** `swap`: the same traffic seen from the other endpoint. */
    function Swap(): FlowStats {
      FlowStats(incoming, outgoing)
    }

    predicate AtMost(s: FlowStats) {
      && outgoing.bytes <= s.outgoing.bytes && outgoing.packets <= s.outgoing.packets
      && incoming.bytes <= s.incoming.bytes && incoming.packets <= s.incoming.packets
    }
  }

  const ZERO := FlowStats(Traffic(0, 0), Traffic(0, 0))

  function AddTraffic(base: Traffic, inc: Traffic): Traffic {
    Traffic(Mod64(base.bytes + inc.bytes), Mod64(base.packets + inc.packets))
  }

  /** `addFlowStats`: four uint64 additions, each wrapping on its own. */
  function AddStats(base: FlowStats, inc: FlowStats): (sum: FlowStats)
    ensures forall w: Counter :: sum.Get(w) == Mod64(base.Get(w) + inc.Get(w))
  {
    FlowStats(AddTraffic(base.outgoing, inc.outgoing), AddTraffic(base.incoming, inc.incoming))
  }

  /** `diffFlowStats`: one counter that went backwards makes the whole difference zero. */
  function DiffStats(previous: FlowStats, current: FlowStats): (delta: FlowStats)
    ensures previous.AtMost(current) ==> forall w: Counter :: previous.Get(w) + delta.Get(w) == current.Get(w)
    ensures !previous.AtMost(current) ==> delta == ZERO
    ensures delta == ZERO <==> previous == current || !previous.AtMost(current)
  {
    if current.outgoing.bytes < previous.outgoing.bytes || current.outgoing.packets < previous.outgoing.packets
       || current.incoming.bytes < previous.incoming.bytes || current.incoming.packets < previous.incoming.packets
    then ZERO
    else FlowStats(Traffic(current.outgoing.bytes - previous.outgoing.bytes,
                           current.outgoing.packets - previous.outgoing.packets),
                   Traffic(current.incoming.bytes - previous.incoming.bytes,
                           current.incoming.packets - previous.incoming.packets))
  }

  /** Statistics are equal when their four counters are. */
  lemma SameCounters(a: FlowStats, b: FlowStats)
    requires forall w: Counter :: a.Get(w) == b.Get(w)
    ensures a == b
  {
    assert a.Get(OutBytes) == b.Get(OutBytes) && a.Get(OutPackets) == b.Get(OutPackets);
    assert a.Get(InBytes) == b.Get(InBytes) && a.Get(InPackets) == b.Get(InPackets);
  }

  /** Wrapping early or late makes no difference. */
  lemma Mod64Plus(x: int, y: int)
    ensures Mod64(Mod64(x) + y) == Mod64(x + y)
  {
    var q := x / 0x1_0000_0000_0000_0000;
    Mod64Shift(Mod64(x) + y, q);
  }

  lemma {:induction false} Mod64Shift(x: int, q: int)
    ensures Mod64(x + q * 0x1_0000_0000_0000_0000) == Mod64(x)
    decreases if q < 0 then -q else q
  {
    if q > 0 {
      Mod64Shift(x, q - 1);
      assert x + q * 0x1_0000_0000_0000_0000 == (x + (q - 1) * 0x1_0000_0000_0000_0000) + 0x1_0000_0000_0000_0000;
    } else if q < 0 {
      Mod64Shift(x, q + 1);
      assert x + q * 0x1_0000_0000_0000_0000 == (x + (q + 1) * 0x1_0000_0000_0000_0000) - 0x1_0000_0000_0000_0000;
    }
  }

  // ---------------------------------------------------------------- sums over sequences and sets

  ghost function SumSeq<T>(xs: seq<T>, f: T -> int): int {
    if xs == [] then 0 else SumSeq(xs[..|xs| - 1], f) + f(xs[|xs| - 1])
  }

  ghost function SumSet<T>(s: set<T>, f: T -> int): int {
    if s == {} then 0 else var x :| x in s; f(x) + SumSet(s - {x}, f)
  }

  /** The element a set sum starts with does not matter. */
  lemma {:induction false} SumSetTake<T>(s: set<T>, x: T, f: T -> int)
    requires x in s
    ensures SumSet(s, f) == f(x) + SumSet(s - {x}, f)
    decreases s
  {
    var y :| y in s && SumSet(s, f) == f(y) + SumSet(s - {y}, f);
    if x != y {
      SumSetTake(s - {y}, x, f);
      SumSetTake(s - {x}, y, f);
      assert s - {y} - {x} == s - {x} - {y};
    }
  }

  /** Sums are linear; `h` agrees with `f` plus `g` on the set. */
  lemma {:induction false} SumSetPlus<T>(s: set<T>, f: T -> int, g: T -> int, h: T -> int)
    requires forall x :: x in s ==> h(x) == f(x) + g(x)
    ensures SumSet(s, h) == SumSet(s, f) + SumSet(s, g)
    decreases s
  {
    if s != {} {
      var x :| x in s;
      SumSetTake(s, x, f);
      SumSetTake(s, x, g);
      SumSetTake(s, x, h);
      SumSetPlus(s - {x}, f, g, h);
    }
  }

  lemma {:induction false} SumSetAgree<T>(s: set<T>, f: T -> int, g: T -> int)
    requires forall x :: x in s ==> f(x) == g(x)
    ensures SumSet(s, f) == SumSet(s, g)
    decreases s
  {
    if s != {} {
      var x :| x in s;
      SumSetTake(s, x, f);
      SumSetTake(s, x, g);
      SumSetAgree(s - {x}, f, g);
    }
  }

  /** Elements that contribute nothing can be left out. */
  lemma {:induction false} SumSetSupport<T>(s: set<T>, part: set<T>, f: T -> int)
    requires part <= s
    requires forall x :: x in s && x !in part ==> f(x) == 0
    ensures SumSet(s, f) == SumSet(part, f)
    decreases s
  {
    if s != part {
      var x :| x in s && x !in part;
      SumSetTake(s, x, f);
      SumSetSupport(s - {x}, part, f);
    }
  }

  /** A sum of natural numbers vanishes exactly when every term does. */
  lemma {:induction false} SumSetNatural<T>(s: set<T>, f: T -> int)
    requires forall x :: x in s ==> f(x) >= 0
    ensures SumSet(s, f) >= 0
    ensures SumSet(s, f) == 0 <==> forall x :: x in s ==> f(x) == 0
    decreases s
  {
    if s != {} {
      var x :| x in s;
      SumSetTake(s, x, f);
      SumSetNatural(s - {x}, f);
    }
  }

  lemma {:induction false} SumSetSplit<T>(s: set<T>, part: set<T>, f: T -> int)
    requires part <= s
    ensures SumSet(s, f) == SumSet(part, f) + SumSet(s - part, f)
    decreases part
  {
    if part == {} {
      assert s - part == s;
    } else {
      var x :| x in part;
      SumSetTake(s, x, f);
      SumSetTake(part, x, f);
      SumSetSplit(s - {x}, part - {x}, f);
      assert s - {x} - (part - {x}) == s - part;
    }
  }

  predicate Distinct<K(==)>(keys: seq<K>) {
    forall i, j :: 0 <= i < j < |keys| ==> keys[i] != keys[j]
  }

  /** Items with distinct keys sum over the set of their keys, in whatever order they come. */
  lemma {:induction false} SumSeqIsSumSet<T, K>(xs: seq<T>, f: T -> int, keys: seq<K>, g: K -> int)
    requires |keys| == |xs| && Distinct(keys)
    requires forall i :: 0 <= i < |xs| ==> f(xs[i]) == g(keys[i])
    ensures SumSeq(xs, f) == SumSet((set k | k in keys), g)
  {
    if xs != [] {
      var n := |xs| - 1;
      var s := set k | k in keys;
      SumSeqIsSumSet(xs[..n], f, keys[..n], g);
      SumSetTake(s, keys[n], g);
      assert keys == keys[..n] + [keys[n]];
      assert s - {keys[n]} == (set k | k in keys[..n]);
    }
  }

  lemma {:induction false} SumSeqUpdate<T>(xs: seq<T>, i: nat, x: T, f: T -> int)
    requires i < |xs|
    ensures SumSeq(xs[i := x], f) == SumSeq(xs, f) - f(xs[i]) + f(x)
  {
    var n := |xs| - 1;
    if i < n {
      assert xs[i := x][..n] == xs[..n][i := x];
      SumSeqUpdate(xs[..n], i, x, f);
    } else {
      assert xs[i := x][..n] == xs[..n];
    }
  }

  /** Pointwise equal functions have equal sequence sums. */
  lemma {:induction false} SumSeqAgree<T>(xs: seq<T>, f: T -> int, g: T -> int)
    requires forall i :: 0 <= i < |xs| ==> f(xs[i]) == g(xs[i])
    ensures SumSeq(xs, f) == SumSeq(xs, g)
  {
    if xs != [] {
      var front := xs[..|xs| - 1];
      assert forall i :: 0 <= i < |front| ==> front[i] == xs[i];
      SumSeqAgree(front, f, g);
    }
  }
}
