/** The recommended sample count, as long as nothing was decoded and fewer than 250 packets
    have come. It follows the jitter of the arrivals and decides when playing starts, so
    through it the order of arrival can be heard. */
module QueueJitter {
  import opened Width
  import opened Wrappers
  import opened QueueModel
  import opened QueueInvariants
  import opened QueueReorder
  import opened QueueAlike
  import opened QueueAnyOrder
  import QueueResync

  /** The estimate in seconds, and timestamp and time of the packet received last. */
  datatype Jitter = Jitter(seconds: real, last: Option<(Word, Word)>)

  /** Timestamp units in a millisecond. */
  function PerMs(rate: nat): nat {
    rate / 1000
  }

  function Smaller(x: real, y: real): real {
    if x < y then x else y
  }

  /** `calcJit` for an accepted packet, and the bound `addPack` keeps at first. */
  function Jittered(j: Jitter, rate: nat, ts: Word, received: Word): Jitter
    requires rate >= 1000
  {
    match j.last
    case None => j.(last := Some((ts, received)))
    case Some((ts0, received0)) =>
      var off := Abs(Diff(received, received0) * PerMs(rate) - Diff(ts, ts0));
      var now := Smaller(off as real / (1000 * PerMs(rate)) as real, 2.0);
      var next := if now > j.seconds then now else (j.seconds * 255.0 + now) / 256.0;
      Jitter(Smaller(next, 0.5), Some((ts, received)))
  }

  /** The estimate after some arrivals, which starts at 0 after construction and at 0.01
      after a reset; repeats do not count. */
  function JitterAfter(rate: nat, start: real, packets: seq<Packet>, ds: seq<Delivery>): Jitter
    requires rate >= 1000 && InBurst(ds, |packets|)
  {
    if ds == [] then Jitter(start, None)
    else
      var d, before := ds[|ds| - 1], ds[..|ds| - 1];
      var j := JitterAfter(rate, start, packets, before);
      if d.index in Indices(before) then j else Jittered(j, rate, packets[d.index].ts, Wrap(d.at))
  }

  /** `getRecomendedSampleCnt`, with the 300 samples the sound card reads at a time, for so
      many samples of jitter. */
  function CountFor(samples: int, rate: nat): nat {
    var n := samples + 300 / 4;
    var n := if n > rate * 2 then rate * 2 else n;
    if n < 300 + 80 then 300 + 80 else n
  }

  function Recommended(j: Jitter, rate: nat): nat {
    CountFor((j.seconds * rate as real).Floor, rate)
  }

  /** How many seconds the time between two packets is off from that between sending them. */
  function Deviation(rate: nat, ts0: Word, received0: Word, ts: Word, received: Word): real
    requires rate >= 1000
  {
    Abs(Diff(received, received0) * (rate / 1000) - Diff(ts, ts0)) as real / (1000 * (rate / 1000)) as real
  }

  /** The estimate rises to a larger deviation at once, up to half a second, and else goes a
      256th of the way to it. */
  lemma JitterFollows(j: Jitter, rate: nat, ts: Word, received: Word)
    requires rate >= 1000 && 0.0 <= j.seconds <= 0.5
    ensures Jittered(j, rate, ts, received).last == Some((ts, received))
    ensures j.last.None? ==> Jittered(j, rate, ts, received).seconds == j.seconds
    ensures j.last.Some? ==>
      var x := Deviation(rate, j.last.value.0, j.last.value.1, ts, received);
      var y := Jittered(j, rate, ts, received).seconds;
      && (x > j.seconds ==> y == if x < 0.5 then x else 0.5)
      && (x <= j.seconds ==> 256.0 * (j.seconds - y) == j.seconds - x)
  {
  }

  /** The count is the samples of jitter and 75 more; but at least 380 and, up to that, at
      most two seconds. */
  lemma CountBounds(x: int, rate: nat)
    ensures
      var n := CountFor(x, rate);
      && n >= 380 && (n <= 2 * rate || n == 380)
      && (380 < n < 2 * rate ==> n == x + 75)
      && (n == 380 && 2 * rate > 380 ==> x <= 305)
      && (n == 2 * rate && n > 380 ==> x + 75 >= n)
  {
  }

  /** The recommended count after some arrivals. */
  function CountAfter(rate: nat, start: real, packets: seq<Packet>, ds: seq<Delivery>): nat
    requires rate >= 1000 && InBurst(ds, |packets|)
  {
    Recommended(JitterAfter(rate, start, packets, ds), rate)
  }

  // ----- any burst in two orders

  lemma Receptive(q: Queue, q0: Queue, packets: seq<Packet>, base: int, ds: seq<Delivery>)
    requires Fresh(q0) && Arrived(q, q0, q0, packets, base, {}, ds) && ds != []
    ensures !q.canPlay && q.waiting == 0 && q.realData
  {
    NothingIndexed(ds);
    hide Holding, Filled, Sane, RocState, Indices;
    assert Indices(ds) - {} == Indices(ds);
  }

  /** Two orders of arrival leave queues that look alike and have yet to start. */
  lemma BurstAlike(q0: Queue, packets: seq<Packet>, first: int, ds1: seq<Delivery>, ds2: seq<Delivery>)
    requires Fresh(q0) && Burst(packets) && InBurst(ds1, |packets|) && InBurst(ds2, |packets|)
    requires ds1 != [] && ds2 != [] && Indices(ds1) == Indices(ds2)
    ensures
      var q1, q2 := ReceiveAll(q0, packets, first, ds1), ReceiveAll(q0, packets, first, ds2);
      && Alike(q1, q2, Base(q0, first, ds2) - Base(q0, first, ds1), iset{})
      && !q1.canPlay && q1.waiting == 0 && q1.realData && !q2.canPlay && q2.waiting == 0 && q2.realData
  {
    hide Fresh, Sane, Arrived, ReceiveAll, Base, Indices, Matched, Newest, Holding, Alike;
    var q1, q2 := ReceiveAll(q0, packets, first, ds1), ReceiveAll(q0, packets, first, ds2);
    var base1, base2 := Base(q0, first, ds1), Base(q0, first, ds2);
    SameShift(q0, first, |packets|, ds1, ds2);
    FreshHolds(q0, packets, first, ds1);
    FreshHolds(q0, packets, first, ds2);
    FreshPair(q0, packets, base1, base2, iset{});
    ReceiveAllSane(q0, packets, first, ds1);
    ReceiveAllSane(q0, packets, first, ds2);
    ReceivedAlike(q1, q2, q0, q0, q0, packets, base1, base2, {}, ds1, ds2, iset{});
    NothingIndexed(ds1);
    assert {} + Indices(ds1) == Indices(ds1);
    MatchedIsAlike(q1, q2, base1, base2, {} + Indices(ds1), iset{});
    Receptive(q1, q0, packets, base1, ds1);
    Receptive(q2, q0, packets, base2, ds2);
  }

  lemma CountsDecide(q1: Queue, q2: Queue, n1: nat, n2: nat, rate: nat, shift: int)
    requires Alike(q1, q2, shift, iset{})
    requires !q1.canPlay && q1.waiting == 0 && q1.realData && !q2.canPlay && q2.waiting == 0 && q2.realData
    ensures
      (Prepare(q1, n1, rate).1 <==> Prepare(q2, n2, rate).1) <==>
        (QueueResync.Starts(q1, n1) <==> QueueResync.Starts(q1, n2))
  {
    hide *;
    StartsAlike(q1, q2, n2, shift, iset{});
    QueueResync.NeedDecides(q1, n1, rate);
    QueueResync.NeedDecides(q2, n2, rate);
  }

  /** With the counts the code computes, for any burst in any two orders: the first call
      tells the orders apart exactly when one count lets the packets that came start and
      the other does not. */
  lemma OrderHeardExactly(q0: Queue, packets: seq<Packet>, first: int, rate: nat, start: real, ds1: seq<Delivery>,
                          ds2: seq<Delivery>)
    requires Fresh(q0) && Burst(packets) && InBurst(ds1, |packets|) && InBurst(ds2, |packets|) && rate >= 1000
    requires ds1 != [] && ds2 != [] && Indices(ds1) == Indices(ds2)
    ensures
      var n1, n2 := CountAfter(rate, start, packets, ds1), CountAfter(rate, start, packets, ds2);
      var q1, q2 := ReceiveAll(q0, packets, first, ds1), ReceiveAll(q0, packets, first, ds2);
      (Prepare(q1, n1, rate).1 <==> Prepare(q2, n2, rate).1) <==>
        (QueueResync.Starts(q1, n1) <==> QueueResync.Starts(q1, n2))
  {
    hide *;
    var n1, n2 := CountAfter(rate, start, packets, ds1), CountAfter(rate, start, packets, ds2);
    var q1, q2 := ReceiveAll(q0, packets, first, ds1), ReceiveAll(q0, packets, first, ds2);
    BurstAlike(q0, packets, first, ds1, ds2);
    CountsDecide(q1, q2, n1, n2, rate, Base(q0, first, ds2) - Base(q0, first, ds1));
  }

  // ----- two packets

  /** What a slot holds after the two packets came. */
  lemma SlotOfTwo(q: Queue, q0: Queue, packets: seq<Packet>, base: int, ds: seq<Delivery>, k: nat)
    requires Fresh(q0) && Arrived(q, q0, q0, packets, base, {}, ds) && |packets| == 2 && Indices(ds) == {0, 1}
    requires k < SLOTS
    ensures q.table.slots[k].inUse <==> k == Idx(base + 1) || k == Idx(base)
    ensures k == Idx(base + 1) ==> q.table.slots[k].ts == packets[1].ts
    ensures k == Idx(base) ==> q.table.slots[k].ts == packets[0].ts
  {
    assert {} + {0, 1} == {0, 1} && {0, 1} - {} == {0, 1};
    SlotHeld(q, q0, packets, base, {0, 1}, k);
    FilledAt(q, q0, base, {0, 1}, ds, k);
    WhichIdx(base, 0, k);
    WhichIdx(base, 1, k);
    hide Which, Idx, Fresh, CameIn, InStore, Filled, Holding, RocState;
  }

  lemma LastIsHighest(q: Queue, q0: Queue, packets: seq<Packet>, base: int, ds: seq<Delivery>)
    requires Fresh(q0) && Arrived(q, q0, q0, packets, base, {}, ds) && Indices(ds) == {0, 1} && base > 0
    ensures q.lastRecv == base + 1
  {
    hide Holding, Filled, RocState, Sane;
    assert 1 in Indices(ds) - {};
  }

  /** Either way the two packets are queued as far apart as they were sent. */
  lemma TwoAreQueued(q0: Queue, packets: seq<Packet>, first: int, ds: seq<Delivery>)
    requires Fresh(q0) && Burst(packets) && |packets| == 2 && InBurst(ds, 2) && ds != [] && Indices(ds) == {0, 1}
    ensures QueueResync.TwoQueued(ReceiveAll(q0, packets, first, ds), Diff(packets[1].ts, packets[0].ts))
  {
    hide ReceiveAll, Base, Indices, Idx, Arrived, Fresh, Burst, Diff;
    var base := Base(q0, first, ds);
    var q := ReceiveAll(q0, packets, first, ds);
    FreshHolds(q0, packets, first, ds);
    BaseRange(q0, first, ds);
    LastIsHighest(q, q0, packets, base, ds);
    forall k | 0 <= k < SLOTS
      ensures q.table.slots[k].inUse <==> k == Idx(base + 1) || k == Idx(base)
      ensures k == Idx(base + 1) ==> q.table.slots[k].ts == packets[1].ts
      ensures k == Idx(base) ==> q.table.slots[k].ts == packets[0].ts
    {
      SlotOfTwo(q, q0, packets, base, ds, k);
    }
  }

  /** For any two packets less than 2000 apart in either order, with any repeats: the first
      call tells the orders apart exactly when the distance between the packets lies between
      the two counts. */
  lemma TwoOrdersHeard(q0: Queue, packets: seq<Packet>, first: int, rate: nat, start: real, ds1: seq<Delivery>,
                       ds2: seq<Delivery>)
    requires Fresh(q0) && Burst(packets) && |packets| == 2 && InBurst(ds1, 2) && InBurst(ds2, 2) && rate >= 1000
    requires ds1 != [] && ds2 != [] && Indices(ds1) == {0, 1} == Indices(ds2)
    requires 0 < Diff(packets[1].ts, packets[0].ts) < 2000
    ensures
      var n1, n2 := CountAfter(rate, start, packets, ds1), CountAfter(rate, start, packets, ds2);
      var q1, q2 := ReceiveAll(q0, packets, first, ds1), ReceiveAll(q0, packets, first, ds2);
      var lag := Diff(packets[1].ts, packets[0].ts);
      && (Prepare(q1, n1, rate).1 <==> n1 <= lag) && (Prepare(q2, n2, rate).1 <==> n2 <= lag)
      && ((Prepare(q1, n1, rate).1 <==> Prepare(q2, n2, rate).1) <==> (n1 <= lag <==> n2 <= lag))
  {
    hide *;
    var n1, n2 := CountAfter(rate, start, packets, ds1), CountAfter(rate, start, packets, ds2);
    var q1, q2 := ReceiveAll(q0, packets, first, ds1), ReceiveAll(q0, packets, first, ds2);
    BurstAlike(q0, packets, first, ds1, ds2);
    TwoAreQueued(q0, packets, first, ds1);
    TwoAreQueued(q0, packets, first, ds2);
    QueueResync.TwoStart(q1, n1, Diff(packets[1].ts, packets[0].ts));
    QueueResync.TwoStart(q2, n2, Diff(packets[1].ts, packets[0].ts));
    QueueResync.NeedDecides(q1, n1, rate);
    QueueResync.NeedDecides(q2, n2, rate);
  }

  // ----- an instance: sent and received 30 ms apart

  function TwoPackets(c: CodecId, a: seq<Byte>, b: seq<Byte>): seq<Packet> {
    [Packet(c, a, 1000), Packet(c, b, 1480)]
  }

  const IN_ORDER := [Delivery(0, 0), Delivery(1, 30)]
  const REVERSED := [Delivery(1, 0), Delivery(0, 30)]

  lemma JitterFirst(start: real, packets: seq<Packet>, ds: seq<Delivery>)
    requires |ds| == 1 && ds[0].index < |packets|
    ensures JitterAfter(16000, start, packets, ds) == Jitter(start, Some((packets[ds[0].index].ts, Wrap(ds[0].at))))
  {
    assert ds[..0] == [];
    assert JitterAfter(16000, start, packets, []) == Jitter(start, None);
  }

  lemma JitterSecond(start: real, packets: seq<Packet>, ds: seq<Delivery>)
    requires |ds| == 2 && ds[0].index < |packets| && ds[1].index < |packets| && ds[0].index != ds[1].index
    ensures
      var first := Jitter(start, Some((packets[ds[0].index].ts, Wrap(ds[0].at))));
      JitterAfter(16000, start, packets, ds) == Jittered(first, 16000, packets[ds[1].index].ts, Wrap(ds[1].at))
  {
    hide Jittered;
    JitterFirst(start, packets, ds[..1]);
    assert ds[..1][0] == ds[0];
    assert ds[1].index !in Indices(ds[..1]);
  }

  lemma CalmJitter(start: real)
    requires 0.0 <= start <= 0.01
    ensures Recommended(Jittered(Jitter(start, Some((1000, 0))), 16000, 1480, 30), 16000) == 380
  {
    assert 0.0 <= Jittered(Jitter(start, Some((1000, 0))), 16000, 1480, 30).seconds <= 0.01;
  }

  lemma RoughJitter(start: real)
    requires 0.0 <= start <= 0.01
    ensures Recommended(Jittered(Jitter(start, Some((1480, 0))), 16000, 1000, 30), 16000) == 1035
  {
    assert Jittered(Jitter(start, Some((1480, 0))), 16000, 1000, 30).seconds == 0.06;
    assert (0.06 * 16000.0).Floor == 960;
  }

  /** In order they show no jitter; in reverse order they show 60 ms of it. */
  lemma CountsDiffer(start: real, c: CodecId, a: seq<Byte>, b: seq<Byte>)
    requires 0.0 <= start <= 0.01
    ensures CountAfter(16000, start, TwoPackets(c, a, b), IN_ORDER) == 380
    ensures CountAfter(16000, start, TwoPackets(c, a, b), REVERSED) == 1035
  {
    hide Jittered, JitterAfter, Recommended;
    JitterSecond(start, TwoPackets(c, a, b), IN_ORDER);
    JitterSecond(start, TwoPackets(c, a, b), REVERSED);
    CalmJitter(start);
    RoughJitter(start);
  }

  lemma BothIndices(ds: seq<Delivery>)
    requires |ds| == 2 && {ds[0].index, ds[1].index} == {0, 1}
    ensures Indices(ds) == {0, 1}
  {
    assert ds[0].index in Indices(ds) && ds[1].index in Indices(ds);
  }

  /** The first call plays after one order of arrival and stays silent after the other. */
  lemma OrderCanBeHeard(q0: Queue, start: real, c: CodecId, a: seq<Byte>, b: seq<Byte>)
    requires Fresh(q0) && Burst(TwoPackets(c, a, b)) && 0.0 <= start <= 0.01
    ensures
      var packets := TwoPackets(c, a, b);
      var q1, q2 := ReceiveAll(q0, packets, 7, IN_ORDER), ReceiveAll(q0, packets, 7, REVERSED);
      && Prepare(q1, CountAfter(16000, start, packets, IN_ORDER), 16000).1
      && !Prepare(q2, CountAfter(16000, start, packets, REVERSED), 16000).1
  {
    CountsDiffer(start, c, a, b);
    BothIndices(IN_ORDER);
    BothIndices(REVERSED);
    hide ReceiveAll, CountAfter, Prepare, Fresh, Indices;
    TwoOrdersHeard(q0, TwoPackets(c, a, b), 7, 16000, start, IN_ORDER, REVERSED);
  }
}
