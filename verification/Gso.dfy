/** The send-side batching of `node/src/gso.rs`: runs of equal-size datagrams for one destination go
    out as one segmented send. The model proves when batching is invisible on the wire. */
module Gso {
  import opened Common

  type Byte = bv8
  type Addr = nat

  /** Below 64 KiB: a batch is one datagram until the kernel cuts it. */
  const MAX_BATCH_BYTES: nat := 60 * 1024

  datatype Datagram = Datagram(dst: Addr, payload: seq<Byte>)

  datatype Batch = Batch(buf: seq<Byte>, seg: nat, dst: Option<Addr>, count: nat, gsoOk: bool)

  const EMPTY: Batch := Batch([], 0, None, 0, true)

  // ---- Cutting a buffer -------------------------------------------------------------------------

  /** Consecutive pieces of n bytes, the last one possibly shorter. */
  function Chunks(buf: seq<Byte>, n: nat): seq<seq<Byte>>
    requires n >= 1
    decreases |buf|
  {
    if buf == [] then []
    else if |buf| <= n then [buf]
    else [buf[..n]] + Chunks(buf[n..], n)
  }

  function AllTo(dst: Addr, payloads: seq<seq<Byte>>): seq<Datagram> {
    seq(|payloads|, i requires 0 <= i < |payloads| => Datagram(dst, payloads[i]))
  }

  /** What the kernel emits for a segmented send it accepts. The size travels as a 16-bit option, and
      0 asks for no segmentation. */
  function Segmented(buf: seq<Byte>, seg: nat): seq<seq<Byte>> {
    if seg % 0x1_0000 == 0 then [buf] else Chunks(buf, seg % 0x1_0000)
  }

  function Split(buf: seq<Byte>, seg: nat): seq<seq<Byte>> {
    Chunks(buf, if seg == 0 then 1 else seg)
  }

  // ---- The batch ---------------------------------------------------------------------------------

  /** `accepted` is the kernel's answer, should a segmented send be tried. */
  function FlushOut(b: Batch, accepted: bool): seq<Datagram> {
    if b.count == 0 || b.dst.None? then []
    else if b.count == 1 then [Datagram(b.dst.value, b.buf)]
    else if b.gsoOk && accepted then AllTo(b.dst.value, Segmented(b.buf, b.seg))
    else AllTo(b.dst.value, Split(b.buf, b.seg))
  }

  function FlushNext(b: Batch, accepted: bool): Batch {
    if b.count == 0 then b
    else if b.dst.None? || b.count == 1 then b.(buf := [], seg := 0, dst := None, count := 0)
    else Batch([], 0, None, 0, b.gsoOk && accepted)
  }

  predicate MustFlush(b: Batch, dst: Addr, pkt: seq<Byte>) {
    b.dst != Some(dst) || (b.count > 0 && |pkt| != b.seg) || |b.buf| + |pkt| > MAX_BATCH_BYTES
  }

  function PushOut(b: Batch, dst: Addr, pkt: seq<Byte>, accepted: bool): seq<Datagram> {
    if MustFlush(b, dst, pkt) then FlushOut(b, accepted) else []
  }

  function Extend(b: Batch, dst: Addr, pkt: seq<Byte>): Batch {
    if b.count == 0 then Batch(b.buf + pkt, |pkt|, Some(dst), 1, b.gsoOk)
    else b.(buf := b.buf + pkt, count := b.count + 1)
  }

  function PushNext(b: Batch, dst: Addr, pkt: seq<Byte>, accepted: bool): Batch {
    Extend(if MustFlush(b, dst, pkt) then FlushNext(b, accepted) else b, dst, pkt)
  }

  class Socket {
    var wire: seq<Datagram>

    constructor ()
      ensures wire == []
    {
      wire := [];
    }

    method SendTo(payload: seq<Byte>, dst: Addr)
      modifies this
      ensures wire == old(wire) + [Datagram(dst, payload)]
    {
      wire := wire + [Datagram(dst, payload)];
    }

    /** The kernel takes the whole buffer or refuses it. */
    method SendSegmented(buf: seq<Byte>, seg: nat, dst: Addr) returns (accepted: bool)
      modifies this
      ensures wire == old(wire) + if accepted then AllTo(dst, Segmented(buf, seg)) else []
    {
      accepted := *;
      if accepted { wire := wire + AllTo(dst, Segmented(buf, seg)); }
    }

    method SendSplit(buf: seq<Byte>, seg: nat, dst: Addr)
      modifies this
      ensures wire == old(wire) + AllTo(dst, Split(buf, seg))
    {
      var n := if seg == 0 then 1 else seg;
      var rest := buf;
      while rest != []
        invariant wire + AllTo(dst, Chunks(rest, n)) == old(wire) + AllTo(dst, Chunks(buf, n))
        decreases |rest|
      {
        var k := if |rest| <= n then |rest| else n;
        if k == |rest| { assert rest[..k] == rest && rest[k..] == []; }
        assert Chunks(rest, n) == [rest[..k]] + Chunks(rest[k..], n);
        SendTo(rest[..k], dst);
        rest := rest[k..];
      }
    }
  }

  class Sender {
    var buf: seq<Byte>
    var seg: nat
    var dst: Option<Addr>
    var count: nat
    var gsoOk: bool
    const disabled: bool

    function Value(): Batch
      reads this
    {
      Batch(buf, seg, dst, count, gsoOk)
    }

    constructor (disabled: bool)
      ensures Value() == EMPTY && this.disabled == disabled
    {
      buf, seg, dst, count, gsoOk := [], 0, None, 0, true;
      this.disabled := disabled;
    }

    method Flush(udp: Socket) returns (accepted: bool)
      modifies this, udp
      ensures Value() == FlushNext(old(Value()), accepted)
      ensures udp.wire == old(udp.wire) + FlushOut(old(Value()), accepted)
    {
      accepted := false;
      if count == 0 { return; }
      var taken := dst;
      dst := None;
      if taken.None? {
        buf, seg, count := [], 0, 0;
        return;
      }
      if count == 1 {
        udp.SendTo(buf, taken.value);
      } else {
        if gsoOk { accepted := udp.SendSegmented(buf, seg, taken.value); }
        if !accepted {
          gsoOk := false;
          udp.SendSplit(buf, seg, taken.value);
        }
      }
      buf, seg, count := [], 0, 0;
    }

    /** The flush after a short segment never runs: a segment of another size starts a batch of its
        own. */
    method Push(udp: Socket, target: Addr, pkt: seq<Byte>) returns (accepted: bool)
      modifies this, udp
      ensures disabled ==> Value() == old(Value()) && udp.wire == old(udp.wire) + [Datagram(target, pkt)]
      ensures !disabled ==> Value() == PushNext(old(Value()), target, pkt, accepted)
      ensures !disabled ==> udp.wire == old(udp.wire) + PushOut(old(Value()), target, pkt, accepted)
    {
      accepted := false;
      if disabled {
        udp.SendTo(pkt, target);
        return;
      }
      if dst != Some(target) || (count > 0 && |pkt| != seg) || |buf| + |pkt| > MAX_BATCH_BYTES {
        accepted := Flush(udp);
      }
      if count == 0 { seg, dst := |pkt|, Some(target); }
      buf := buf + pkt;
      count := count + 1;
      if |pkt| < seg { assert false; }
    }
  }

  // ---- What a batch holds -------------------------------------------------------------------------

  /** The buffer is count segments of seg bytes. */
  predicate Even(buf: seq<Byte>, seg: nat, count: nat) {
    if count == 0 then buf == [] else |buf| >= seg && Even(buf[seg..], seg, count - 1)
  }

  function Cut(buf: seq<Byte>, seg: nat, count: nat): (r: seq<seq<Byte>>)
    requires Even(buf, seg, count)
    ensures |r| == count
  {
    if count == 0 then [] else [buf[..seg]] + Cut(buf[seg..], seg, count - 1)
  }

  lemma {:induction false} CutAppend(buf: seq<Byte>, seg: nat, count: nat, pkt: seq<Byte>)
    requires Even(buf, seg, count) && |pkt| == seg
    ensures Even(buf + pkt, seg, count + 1) && Cut(buf + pkt, seg, count + 1) == Cut(buf, seg, count) + [pkt]
  {
    if count == 0 {
      assert buf + pkt == pkt && pkt[seg..] == [] && pkt[..seg] == pkt;
    } else {
      CutAppend(buf[seg..], seg, count - 1, pkt);
      assert (buf + pkt)[seg..] == buf[seg..] + pkt && (buf + pkt)[..seg] == buf[..seg];
    }
  }

  lemma {:induction false} ChunksAreCut(buf: seq<Byte>, seg: nat, count: nat)
    requires Even(buf, seg, count) && seg >= 1
    ensures Chunks(buf, seg) == Cut(buf, seg, count)
  {
    if count > 0 {
      ChunksAreCut(buf[seg..], seg, count - 1);
      if |buf| == seg { assert buf[..seg] == buf && buf[seg..] == []; }
    }
  }

  lemma {:induction false} EmptyEven(buf: seq<Byte>, count: nat)
    requires Even(buf, 0, count)
    ensures buf == []
  {
    if count > 0 { EmptyEven(buf[0..], count - 1); }
  }

  predicate Valid(b: Batch) {
    && (b.count == 0 <==> b.dst.None?)
    && Even(b.buf, b.seg, b.count)
    && (b.count >= 2 ==> |b.buf| <= MAX_BATCH_BYTES)
  }

  function Pending(b: Batch): seq<Datagram>
    requires Valid(b)
  {
    if b.count == 0 then [] else AllTo(b.dst.value, Cut(b.buf, b.seg, b.count))
  }

  /** Several empty packets in one batch: the buffer no longer says how many. */
  predicate Collapsed(b: Batch) {
    b.count >= 2 && b.seg == 0
  }

  /** The most datagrams the batch can still produce. */
  function Worth(b: Batch): nat {
    if Collapsed(b) then 1 else b.count
  }

  /** A batch of two or more has a segment size the kernel's 16-bit option holds. */
  lemma SegmentFits(b: Batch)
    requires Valid(b) && b.count >= 2
    ensures b.seg <= MAX_BATCH_BYTES / 2 < 0x1_0000
  {
    assert Even(b.buf[b.seg..], b.seg, b.count - 1);
  }

  lemma FlushDelivers(b: Batch, accepted: bool)
    requires Valid(b)
    ensures Valid(FlushNext(b, accepted)) && FlushNext(b, accepted).count == 0
    ensures !Collapsed(b) ==> FlushOut(b, accepted) == Pending(b)
    ensures |FlushOut(b, accepted)| <= Worth(b)
  {
    if b.count == 1 {
      assert Even(b.buf[b.seg..], b.seg, 0);
      assert b.buf[..b.seg] == b.buf;
      assert Cut(b.buf, b.seg, 1) == [b.buf] + Cut(b.buf[b.seg..], b.seg, 0);
    } else if Collapsed(b) {
      EmptyEven(b.buf, b.count);
    } else if b.count >= 2 {
      SegmentFits(b);
      ChunksAreCut(b.buf, b.seg, b.count);
    }
  }

  /** Pushing an empty packet behind an empty packet for the same destination. */
  predicate Collapses(b: Batch, dst: Addr, pkt: seq<Byte>) {
    b.count >= 1 && b.seg == 0 && b.dst == Some(dst) && pkt == []
  }

  lemma AllToAppend(dst: Addr, payloads: seq<seq<Byte>>, pkt: seq<Byte>)
    ensures AllTo(dst, payloads + [pkt]) == AllTo(dst, payloads) + [Datagram(dst, pkt)]
  {
  }

  lemma ExtendHolds(b: Batch, dst: Addr, pkt: seq<Byte>)
    requires Valid(b) && (b.count > 0 ==> !MustFlush(b, dst, pkt))
    ensures
      var next := Extend(b, dst, pkt);
      && Valid(next) && next.count == b.count + 1 && next.seg == |pkt| && next.dst == Some(dst)
      && Pending(next) == Pending(b) + [Datagram(dst, pkt)]
  {
    assert b.count == 0 ==> Even(b.buf, |pkt|, 0);
    CutAppend(b.buf, |pkt|, b.count, pkt);
    AllToAppend(dst, Cut(b.buf, |pkt|, b.count), pkt);
  }

  /** An empty packet is never kept apart from a batch of empty packets. */
  lemma CollapseStays(b: Batch, dst: Addr, pkt: seq<Byte>)
    requires Valid(b) && Collapses(b, dst, pkt)
    ensures !MustFlush(b, dst, pkt)
  {
    EmptyEven(b.buf, b.count);
  }

  lemma PushIsValid(b: Batch, dst: Addr, pkt: seq<Byte>, accepted: bool)
    requires Valid(b)
    ensures
      var next := PushNext(b, dst, pkt, accepted);
      Valid(next) && next.count >= 1 && next.seg == |pkt| && next.dst == Some(dst)
  {
    FlushDelivers(b, accepted);
    ExtendHolds(if MustFlush(b, dst, pkt) then FlushNext(b, accepted) else b, dst, pkt);
  }

  lemma PushDelivers(b: Batch, dst: Addr, pkt: seq<Byte>, accepted: bool)
    requires Valid(b) && !Collapsed(b) && !Collapses(b, dst, pkt)
    ensures
      var next := PushNext(b, dst, pkt, accepted);
      && Valid(next) && !Collapsed(next)
      && PushOut(b, dst, pkt, accepted) + Pending(next) == Pending(b) + [Datagram(dst, pkt)]
  {
    if MustFlush(b, dst, pkt) {
      FlushDelivers(b, accepted);
      ExtendHolds(FlushNext(b, accepted), dst, pkt);
    } else {
      ExtendHolds(b, dst, pkt);
    }
  }

  lemma PushCosts(b: Batch, dst: Addr, pkt: seq<Byte>, accepted: bool)
    requires Valid(b)
    ensures |PushOut(b, dst, pkt, accepted)| + Worth(PushNext(b, dst, pkt, accepted))
            <= Worth(b) + if Collapses(b, dst, pkt) then 0 else 1
  {
    FlushDelivers(b, accepted);
    if Collapses(b, dst, pkt) { CollapseStays(b, dst, pkt); }
  }

  // ---- Runs ----------------------------------------------------------------------------------------

  /** One call, with the kernel's answer to the segmented send it may try. */
  datatype Call = Push(dst: Addr, pkt: seq<Byte>, accepted: bool) | Flush(accepted: bool)

  function Step(b: Batch, c: Call): Batch {
    match c
    case Push(dst, pkt, accepted) => PushNext(b, dst, pkt, accepted)
    case Flush(accepted) => FlushNext(b, accepted)
  }

  function Out(b: Batch, c: Call): seq<Datagram> {
    match c
    case Push(dst, pkt, accepted) => PushOut(b, dst, pkt, accepted)
    case Flush(accepted) => FlushOut(b, accepted)
  }

  function After(calls: seq<Call>, n: nat): Batch
    requires n <= |calls|
  {
    if n == 0 then EMPTY else Step(After(calls, n - 1), calls[n - 1])
  }

  /** Everything on the wire after n calls. */
  function Sent(calls: seq<Call>, n: nat): seq<Datagram>
    requires n <= |calls|
  {
    if n == 0 then [] else Sent(calls, n - 1) + Out(After(calls, n - 1), calls[n - 1])
  }

  /** Everything pushed in n calls: what sending each packet at once would put on the wire. */
  function Pushed(calls: seq<Call>, n: nat): seq<Datagram>
    requires n <= |calls|
  {
    if n == 0 then []
    else Pushed(calls, n - 1) + (if calls[n - 1].Push? then [Datagram(calls[n - 1].dst, calls[n - 1].pkt)] else [])
  }

  /** Call i pushes an empty packet straight after an empty packet for the same destination. */
  predicate EmptyPair(calls: seq<Call>, i: nat)
    requires i < |calls|
  {
    && i > 0 && calls[i].Push? && calls[i - 1].Push?
    && calls[i].pkt == [] && calls[i - 1].pkt == [] && calls[i].dst == calls[i - 1].dst
  }

  lemma {:induction false} AfterIsValid(calls: seq<Call>, n: nat)
    requires n <= |calls|
    ensures Valid(After(calls, n))
    ensures n > 0 && calls[n - 1].Flush? ==> After(calls, n).count == 0
    ensures n > 0 && calls[n - 1].Push? ==>
              After(calls, n).count >= 1 && After(calls, n).seg == |calls[n - 1].pkt| && After(calls, n).dst == Some(calls[n - 1].dst)
  {
    if n > 0 {
      AfterIsValid(calls, n - 1);
      var b := After(calls, n - 1);
      match calls[n - 1]
      case Push(dst, pkt, accepted) => PushIsValid(b, dst, pkt, accepted);
      case Flush(accepted) => FlushDelivers(b, accepted);
    }
  }

  lemma Regroup<T>(sent: seq<T>, out: seq<T>, later: seq<T>, pending: seq<T>, pushed: seq<T>)
    requires out + later == pending + pushed
    ensures (sent + out) + later == (sent + pending) + pushed
  {
    assert (sent + out) + later == sent + (out + later);
    assert (sent + pending) + pushed == sent + (pending + pushed);
  }

  lemma {:induction false} Faithful(calls: seq<Call>, n: nat)
    requires n <= |calls| && forall i | 0 <= i < n :: !EmptyPair(calls, i)
    ensures Valid(After(calls, n)) && !Collapsed(After(calls, n))
    ensures Sent(calls, n) + Pending(After(calls, n)) == Pushed(calls, n)
  {
    if n > 0 {
      Faithful(calls, n - 1);
      AfterIsValid(calls, n - 1);
      assert !EmptyPair(calls, n - 1);
      var b := After(calls, n - 1);
      match calls[n - 1]
      case Push(dst, pkt, accepted) =>
        PushDelivers(b, dst, pkt, accepted);
        Regroup(Sent(calls, n - 1), PushOut(b, dst, pkt, accepted), Pending(After(calls, n)), Pending(b), [Datagram(dst, pkt)]);
      case Flush(accepted) =>
        FlushDelivers(b, accepted);
    }
  }

  /** Packets pushed beyond what the wire has seen and the batch can still give. */
  function Missing(calls: seq<Call>, n: nat): int
    requires n <= |calls|
  {
    |Pushed(calls, n)| - |Sent(calls, n)| - Worth(After(calls, n))
  }

  lemma CallMisses(calls: seq<Call>, n: nat)
    requires n < |calls|
    ensures Missing(calls, n + 1) >= Missing(calls, n) + if EmptyPair(calls, n) then 1 else 0
  {
    AfterIsValid(calls, n);
    var b := After(calls, n);
    match calls[n]
    case Push(dst, pkt, accepted) => PushCosts(b, dst, pkt, accepted);
    case Flush(accepted) => FlushDelivers(b, accepted);
  }

  lemma {:induction false} Climbs(f: nat -> int, m: nat, n: nat)
    requires m <= n && forall k: nat | m <= k < n :: f(k) <= f(k + 1)
    ensures f(m) <= f(n)
    decreases n
  {
    if m < n { Climbs(f, m, n - 1); }
  }

  lemma MissingGrows(calls: seq<Call>, m: nat, n: nat)
    requires m <= n <= |calls|
    ensures Missing(calls, m) <= Missing(calls, n)
  {
    var missing := (k: nat) => if k <= |calls| then Missing(calls, k) else 0;
    forall k: nat | m <= k < n
      ensures missing(k) <= missing(k + 1)
    {
      CallMisses(calls, k);
    }
    Climbs(missing, m, n);
  }

  lemma PairIsMissed(calls: seq<Call>, i: nat)
    requires i < |calls| && EmptyPair(calls, i)
    ensures Missing(calls, |calls|) >= 1
  {
    MissingGrows(calls, 0, i);
    CallMisses(calls, i);
    MissingGrows(calls, i + 1, |calls|);
  }

  /** Batching is invisible: after a closing flush, whatever the kernel answered at each send, the
      wire carries exactly the packets pushed, in order and with their destinations, if and only if
      no empty packet was pushed straight after an empty packet for the same destination. */
  lemma BatchingIsInvisibleIff(calls: seq<Call>, accepted: bool)
    ensures Sent(calls, |calls|) + FlushOut(After(calls, |calls|), accepted) == Pushed(calls, |calls|)
            <==> forall i | 0 <= i < |calls| :: !EmptyPair(calls, i)
  {
    AfterIsValid(calls, |calls|);
    FlushDelivers(After(calls, |calls|), accepted);
    if forall i | 0 <= i < |calls| :: !EmptyPair(calls, i) {
      Faithful(calls, |calls|);
    } else {
      var i :| 0 <= i < |calls| && EmptyPair(calls, i);
      PairIsMissed(calls, i);
    }
  }

  /** In every reachable state a batch has a destination, so no packet is discarded for the want of
      one, and a segment size the kernel can take. */
  lemma ReachableBatchIsSendable(calls: seq<Call>, n: nat)
    requires n <= |calls|
    ensures
      var b := After(calls, n);
      (b.count > 0 ==> b.dst.Some?) && (b.count >= 2 ==> b.seg < 0x1_0000)
  {
  }

  /** Two empty packets in a row: one datagram reaches the wire, or none. */
  lemma EmptyPacketsLost(accepted: bool)
    ensures
      var calls := [Push(7, [], true), Push(7, [], true)];
      |Pushed(calls, 2)| == 2 && |Sent(calls, 2) + FlushOut(After(calls, 2), accepted)| == if accepted then 1 else 0
  {
  }
}
