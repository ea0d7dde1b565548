/** A burst of packets delivered in any order, with duplicates, ends up in the queue as
    if it had been delivered in order, whether it arrives at once or in parts, with calls
    of `getData` in between. */
module QueueReorder {
  import opened Width
  import opened Wrappers
  import opened RingAllocator
  import opened QueueModel
  import opened QueueInvariants
  import Rollover

  /** What the sender sends, and one arrival of it: which packet, and when. */
  datatype Packet = Packet(codec: CodecId, payload: seq<Byte>, ts: Word)
  datatype Delivery = Delivery(index: nat, at: nat)

  /** At most 159 data packets, of sizes the queue accepts. */
  ghost predicate Burst(packets: seq<Packet>) {
    && 1 <= |packets| <= 159
    && forall i :: 0 <= i < |packets| ==> 1 <= |packets[i].payload| <= MAX_PACK
  }

  predicate InBurst(ds: seq<Delivery>, n: nat) {
    forall k :: 0 <= k < |ds| ==> ds[k].index < n
  }

  /** All arrivals fall into one stretch of 6 seconds. */
  ghost predicate InTime(ds: seq<Delivery>, n: nat, lo: nat) {
    forall k :: 0 <= k < |ds| ==> ds[k].index < n && lo <= ds[k].at <= lo + 6000
  }

  function Indices(ds: seq<Delivery>): set<nat> {
    set k | 0 <= k < |ds| :: ds[k].index
  }

  /** Packet `i` carries the low 16 bits of `first + i`. */
  function SeqNo(first: int, i: nat): Half {
    (first + i) % 0x1_0000
  }

  function Receive(q: Queue, p: Packet, s: Half, at: nat): Queue {
    AddPack(q, p.ts, s, p.payload, Some(p.codec), Wrap(at)).0
  }

  function ReceiveAll(q: Queue, packets: seq<Packet>, first: int, ds: seq<Delivery>): Queue
    requires InBurst(ds, |packets|)
  {
    if ds == [] then q
    else
      var d := ds[|ds| - 1];
      Receive(ReceiveAll(q, packets, first, ds[..|ds| - 1]), packets[d.index], SeqNo(first, d.index), d.at)
  }

  /** A queue in which nothing has arrived since construction. */
  ghost predicate Fresh(q: Queue) {
    && Sane(q) && q.stores == [] && q.lastRecv == 0 && !q.canPlay
    && Rollover.Restarted(q.roc) && 1 <= q.roc.rollover <= 80
    && forall k {:trigger q.table.slots[k]} :: 0 <= k < SLOTS ==>
         !q.table.slots[k].inUse && (q.table.slots[k].ext == 0 || q.table.slots[k].ext == NO_SEQ)
  }

  lemma InitialFresh(buf: Ring, play: Word, prevCodec: Option<CodecId>, fed: seq<Feed>)
    ensures Fresh(Initial(buf, play, prevCodec, fed))
  {
    InitialSane(buf, play, prevCodec, fed);
    hide Sane;
  }

  /** The extended number of packet 0, fixed by whichever packet comes first. */
  function Base(q: Queue, first: int, ds: seq<Delivery>): int
    requires ds != []
  {
    first + Rollover.Shift(q.roc, first + ds[0].index)
  }

  lemma BaseRange(q: Queue, first: int, ds: seq<Delivery>)
    requires Fresh(q) && ds != [] && ds[0].index < 159
    ensures 0 < Base(q, first, ds) < 0x100_0000
    ensures (Base(q, first, ds) - first) % 0x1_0000 == 0
  {
  }

  lemma IdxOfLow(x: int)
    ensures Idx(x % 0x1_0000) == Idx(x)
  {
    var q, r := x / 0x1_0000, x % 0x1_0000;
    assert x == (q * 64) * SLOTS + r;
  }

  lemma SeqNoOfBase(base: int, first: int, i: nat)
    requires (base - first) % 0x1_0000 == 0
    ensures (base + i) % 0x1_0000 == SeqNo(first, i)
    ensures Idx(base + i) == Idx(SeqNo(first, i))
  {
    var k := (base - first) / 0x1_0000;
    assert base + i == first + i + k * 0x1_0000;
    Rollover.LowBits(first + i, k);
    IdxOfLow(base + i);
    hide Idx;
  }

  // ----- what the table holds

  ghost predicate InStore(s: Slot, stores: seq<Store>, payload: seq<Byte>, j: nat) {
    j < |stores| && s.data == Some(stores[j].off) && s.len == |stores[j].data| && stores[j].data == payload
  }

  /** Slot `s` was filled with packet `p` under extended number `x` and not taken over since. */
  ghost predicate Carries(s: Slot, stores: seq<Store>, p: Packet, x: int) {
    && s.ext == x && s.seqRec == x % 0x1_0000 && s.codec == Some(p.codec) && s.ts == p.ts
    && exists j: nat :: InStore(s, stores, p.payload, j)
  }

  /** Which packet of a burst numbered from `base` belongs to slot `k`. */
  function Which(base: int, k: nat): nat {
    Idx(k - base)
  }

  lemma WhichIdx(base: int, i: nat, k: nat)
    requires i < SLOTS && k < SLOTS
    ensures Which(base, k) == i <==> k == Idx(base + i)
  {
  }

  ghost predicate SlotState(s: Slot, s0: Slot, stores: seq<Store>, packets: seq<Packet>, base: int, got: set<nat>,
                            k: nat)
    requires forall i :: i in got ==> i < |packets|
  {
    var i := Which(base, k);
    if i in got then Carries(s, stores, packets[i], base + i) else s == s0
  }

  /** The slots of the packets `got` were filled with them, the others as in `q0`. */
  ghost predicate Holding(q: Queue, q0: Queue, packets: seq<Packet>, base: int, got: set<nat>) {
    && (forall i :: i in got ==> i < |packets|)
    && |q.stores| == |got|
    && forall k {:trigger q.table.slots[k]} :: 0 <= k < SLOTS ==>
         SlotState(q.table.slots[k], q0.table.slots[k], q.stores, packets, base, got, k)
  }

  lemma HoldingAt(q: Queue, q0: Queue, packets: seq<Packet>, base: int, got: set<nat>, k: nat)
    requires Holding(q, q0, packets, base, got) && k < SLOTS
    ensures SlotState(q.table.slots[k], q0.table.slots[k], q.stores, packets, base, got, k)
  {
  }

  ghost predicate RocState(r: Rollover.State, base: int, n: nat) {
    exists epoch: int, prev: int, high: int ::
      Rollover.Tracks(r, epoch, prev, high) && base <= prev < base + n && base <= high < base + n
  }

  // ----- what some arrivals change

  /** The slot was filled by one of the arrivals of packet `i`. */
  ghost predicate CameIn(s: Slot, ds: seq<Delivery>, i: nat) {
    exists k :: 0 <= k < |ds| && ds[k].index == i && s.received == Wrap(ds[k].at)
  }

  ghost predicate SlotEffect(s: Slot, was: Slot, base: int, added: set<nat>, ds: seq<Delivery>, k: nat) {
    var i := Which(base, k);
    if i in added then s.inUse && CameIn(s, ds, i) else s == was
  }

  /** The packets `added` are queued, and no other slot has changed. */
  ghost predicate Filled(q: Queue, was: Queue, base: int, added: set<nat>, ds: seq<Delivery>) {
    forall k {:trigger q.table.slots[k]} :: 0 <= k < SLOTS ==>
      SlotEffect(q.table.slots[k], was.table.slots[k], base, added, ds, k)
  }

  lemma FilledAt(q: Queue, was: Queue, base: int, added: set<nat>, ds: seq<Delivery>, k: nat)
    requires Filled(q, was, base, added, ds) && k < SLOTS
    ensures SlotEffect(q.table.slots[k], was.table.slots[k], base, added, ds, k)
  {
  }

  /** The highest number, the flags, and everything receiving leaves alone. */
  ghost predicate Rest(q: Queue, was: Queue, base: int, added: set<nat>) {
    && (if added == {} then q.waiting == was.waiting && q.realData == was.realData && q.lastRecv == was.lastRecv
        else q.waiting == 0 && q.realData && (q.lastRecv == was.lastRecv || (q.lastRecv as int) - base in added))
    && was.lastRecv <= q.lastRecv && (forall i :: i in added ==> base + i <= q.lastRecv)
    && q.sound == was.sound && q.play == was.play && q.playPos == was.playPos
    && q.canPlay == was.canPlay && q.resetPos == was.resetPos
  }

  /** The arrivals `ds` since `was`, where the packets `got` had come before. */
  ghost predicate Arrived(q: Queue, was: Queue, q0: Queue, packets: seq<Packet>, base: int, got: set<nat>,
                          ds: seq<Delivery>) {
    && Holding(q, q0, packets, base, got + Indices(ds))
    && Filled(q, was, base, Indices(ds) - got, ds) && Rest(q, was, base, Indices(ds) - got)
    && (got + Indices(ds) != {} ==> RocState(q.roc, base, |packets|))
  }

  // ----- one arrival

  lemma IndicesAppend(ds: seq<Delivery>, d: Delivery)
    ensures Indices(ds + [d]) == Indices(ds) + {d.index}
  {
    forall i | i in Indices(ds + [d])
      ensures i in Indices(ds) + {d.index}
    {
      var k :| 0 <= k < |ds + [d]| && (ds + [d])[k].index == i;
      assert k < |ds| ==> ds[k].index == i;
    }
    forall i | i in Indices(ds) + {d.index}
      ensures i in Indices(ds + [d])
    {
      if i != d.index {
        var k :| 0 <= k < |ds| && ds[k].index == i;
        assert (ds + [d])[k].index == i;
      } else {
        assert (ds + [d])[|ds|].index == i;
      }
    }
  }

  lemma CameInAppend(s: Slot, ds: seq<Delivery>, d: Delivery, i: nat)
    requires CameIn(s, ds, i) || (d.index == i && s.received == Wrap(d.at))
    ensures CameIn(s, ds + [d], i)
  {
    if CameIn(s, ds, i) {
      var k :| 0 <= k < |ds| && ds[k].index == i && s.received == Wrap(ds[k].at);
      assert (ds + [d])[k] == ds[k];
    } else {
      assert (ds + [d])[|ds|] == d;
    }
  }

  /** A packet whose number its slot has changes nothing but the note of the unwrapper. */
  lemma AddPackRepeat(q: Queue, p: Packet, s: Half, at: nat)
    requires q.table.slots[Idx(s)].ext == Rollover.Unwrap(q.roc, s).0
    ensures Receive(q, p, s, at) == q || Receive(q, p, s, at) == q.(roc := Rollover.Looked(q.roc, s))
  {
    hide Rollover.Unwrap, Rollover.Looked, Accepted;
  }

  lemma AddPackNew(q: Queue, p: Packet, s: Half, at: nat, x: Word)
    requires Rollover.Unwrap(q.roc, s).0 == x
    requires !q.table.slots[Idx(s)].inUse && q.table.slots[Idx(s)].ext != x && 1 <= |p.payload| <= MAX_PACK
    ensures
      Receive(q, p, s, at) ==
        Accepted(q.(roc := Rollover.Looked(q.roc, s)), p.ts, s, x, p.payload, Some(p.codec), Wrap(at))
  {
    hide Rollover.Unwrap, Rollover.Looked, Accepted;
  }

  lemma CarriesGrows(s: Slot, stores: seq<Store>, more: Store, p: Packet, x: int)
    requires Carries(s, stores, p, x)
    ensures Carries(s, stores + [more], p, x)
  {
    var j: nat :| InStore(s, stores, p.payload, j);
    assert InStore(s, stores + [more], p.payload, j);
  }

  lemma HoldingMore(q: Queue, q0: Queue, packets: seq<Packet>, base: int, got: set<nat>, i: nat, s: Half, at: nat)
    requires Holding(q, q0, packets, base, got)
    requires i < |packets| <= 159 && i !in got && 0 < base < 0x100_0000
    requires s == (base + i) % 0x1_0000 && Idx(s) == Idx(base + i)
    ensures
      var p := packets[i];
      Holding(Accepted(q, p.ts, s, base + i, p.payload, Some(p.codec), Wrap(at)), q0, packets, base, got + {i})
  {
    var p := packets[i];
    var q' := Accepted(q, p.ts, s, base + i, p.payload, Some(p.codec), Wrap(at));
    var more := Store(Place(q.table.mem.pos, |p.payload|), p.payload);
    assert q'.stores == q.stores + [more];
    forall k {:trigger q'.table.slots[k]} | 0 <= k < SLOTS
      ensures SlotState(q'.table.slots[k], q0.table.slots[k], q'.stores, packets, base, got + {i}, k)
    {
      WhichIdx(base, i, k);
      HoldingAt(q, q0, packets, base, got, k);
      if k == Idx(base + i) {
        assert InStore(q'.table.slots[k], q'.stores, p.payload, |q.stores|);
      } else if Which(base, k) in got {
        CarriesGrows(q.table.slots[k], q.stores, more, packets[Which(base, k)], base + Which(base, k));
      }
    }
  }

  lemma FilledIf(q: Queue, was: Queue, base: int, added: set<nat>, ds: seq<Delivery>)
    requires forall k {:trigger q.table.slots[k]} :: 0 <= k < SLOTS ==>
      SlotEffect(q.table.slots[k], was.table.slots[k], base, added, ds, k)
    ensures Filled(q, was, base, added, ds)
  {
  }

  lemma FilledMore(q: Queue, was: Queue, base: int, added: set<nat>, ds: seq<Delivery>, p: Packet, s: Half, d: Delivery)
    requires Filled(q, was, base, added, ds) && d.index < 159 && 0 < base < 0x100_0000 && Idx(s) == Idx(base + d.index)
    ensures
      Filled(Accepted(q, p.ts, s, base + d.index, p.payload, Some(p.codec), Wrap(d.at)), was, base,
             added + {d.index}, ds + [d])
  {
    var q' := Accepted(q, p.ts, s, base + d.index, p.payload, Some(p.codec), Wrap(d.at));
    hide Filled;
    forall k {:trigger q'.table.slots[k]} | 0 <= k < SLOTS
      ensures SlotEffect(q'.table.slots[k], was.table.slots[k], base, added + {d.index}, ds + [d], k)
    {
      WhichIdx(base, d.index, k);
      FilledAt(q, was, base, added, ds, k);
      if Which(base, k) in added + {d.index} {
        CameInAppend(q'.table.slots[k], ds, d, Which(base, k));
      }
    }
    FilledIf(q', was, base, added + {d.index}, ds + [d]);
  }

  lemma FilledStill(q: Queue, was: Queue, base: int, added: set<nat>, ds: seq<Delivery>, d: Delivery)
    requires Filled(q, was, base, added, ds)
    ensures Filled(q, was, base, added, ds + [d])
  {
    hide Filled;
    forall k {:trigger q.table.slots[k]} | 0 <= k < SLOTS
      ensures SlotEffect(q.table.slots[k], was.table.slots[k], base, added, ds + [d], k)
    {
      FilledAt(q, was, base, added, ds, k);
      if Which(base, k) in added {
        CameInAppend(q.table.slots[k], ds, d, Which(base, k));
      }
    }
    FilledIf(q, was, base, added, ds + [d]);
  }

  lemma RestMore(q: Queue, was: Queue, base: int, added: set<nat>, i: nat, p: Packet, s: Half, at: nat)
    requires Rest(q, was, base, added) && 0 < base && base + i < 0x200_0000
    ensures Rest(Accepted(q, p.ts, s, base + i, p.payload, Some(p.codec), Wrap(at)), was, base, added + {i})
  {
    var q' := Accepted(q, p.ts, s, base + i, p.payload, Some(p.codec), Wrap(at));
    assert i in added + {i};
    assert q'.lastRecv == (if base + i > q.lastRecv then base + i else q.lastRecv);
  }

  /** The unwrapped number and the state of the unwrapper after a packet of the burst. */
  lemma UnwrapInBurst(r: Rollover.State, base: int, first: int, n: nat, i: nat)
    requires RocState(r, base, n) && i < n <= 159
    requires (base - first) % 0x1_0000 == 0 && 0 < base < 0x100_0000
    ensures Rollover.Unwrap(r, SeqNo(first, i)).0 == base + i
    ensures RocState(Rollover.Step(r, SeqNo(first, i)), base, n)
    ensures RocState(Rollover.Looked(r, SeqNo(first, i)), base, n)
  {
    assert Wrap(base + i) == base + i;
    hide Rollover.Unwrap, Rollover.Step, Idx, Wrap, SeqNo;
    var epoch: int, prev: int, high: int :|
      Rollover.Tracks(r, epoch, prev, high) && base <= prev < base + n && base <= high < base + n;
    SeqNoOfBase(base, first, i);
    Rollover.UnwrapNear(r, epoch, prev, high, base + i);
    Rollover.StepTracks(r, epoch, prev, high, base + i);
    var next, looked := Rollover.Step(r, SeqNo(first, i)), Rollover.Looked(r, SeqNo(first, i));
    assert Rollover.Tracks(next, Rollover.EpochAfter(epoch, base + i), base + i, Rollover.Max(high, base + i));
    assert Rollover.Tracks(looked, epoch, prev, high);
    hide Rollover.Tracks;
  }

  /** The first packet of all fixes the numbers of the others. */
  lemma UnwrapFirst(q0: Queue, base: int, first: int, n: nat, d: Delivery)
    requires Fresh(q0) && d.index < n <= 159 && base == Base(q0, first, [d])
    ensures Rollover.Unwrap(q0.roc, SeqNo(first, d.index)).0 == base + d.index
    ensures RocState(Rollover.Step(q0.roc, SeqNo(first, d.index)), base, n)
  {
    hide Rollover.Unwrap, Rollover.Step, Idx;
    BaseRange(q0, first, [d]);
    Rollover.FirstNumber(q0.roc, first + d.index);
    var x: int := base + d.index;
    assert Rollover.Tracks(Rollover.Step(q0.roc, SeqNo(first, d.index)), q0.roc.rollover, x, x);
  }

  lemma AcceptedRoc(q: Queue, ts: Word, s: Half, ext: Word, data: seq<Byte>, codec: Option<CodecId>, now: Word)
    ensures Accepted(q, ts, s, ext, data, codec, now).roc == Rollover.Accept(q.roc, ext)
  {
  }

  lemma FilledSame(q: Queue, q': Queue, was: Queue, base: int, added: set<nat>, ds: seq<Delivery>)
    requires Filled(q, was, base, added, ds) && q'.table == q.table
    ensures Filled(q', was, base, added, ds)
  {
  }

  /** A packet whose slot has its number already. */
  lemma ReceiveAgain(q: Queue, was: Queue, q0: Queue, packets: seq<Packet>, first: int, base: int, got: set<nat>,
                     ds: seq<Delivery>, d: Delivery)
    requires Burst(packets) && d.index < |packets| && Arrived(q, was, q0, packets, base, got, ds)
    requires d.index in got + Indices(ds) && (base - first) % 0x1_0000 == 0 && 0 < base < 0x100_0000
    ensures
      Arrived(Receive(q, packets[d.index], SeqNo(first, d.index), d.at), was, q0, packets, base, got, ds + [d])
  {
    hide Rollover.Unwrap, Rollover.Step, Rollover.Looked, RocState, SeqNo, Receive, Indices, Filled, Idx;
    var i, k, s := d.index, Idx(base + d.index), SeqNo(first, d.index);
    SeqNoOfBase(base, first, i);
    WhichIdx(base, i, k);
    HoldingAt(q, q0, packets, base, got + Indices(ds), k);
    UnwrapInBurst(q.roc, base, first, |packets|, i);
    AddPackRepeat(q, packets[i], s, d.at);
    IndicesAppend(ds, d);
    assert got + Indices(ds + [d]) == got + Indices(ds) && Indices(ds + [d]) - got == Indices(ds) - got;
    FilledStill(q, was, base, Indices(ds) - got, ds, d);
    FilledSame(q, Receive(q, packets[i], s, d.at), was, base, Indices(ds) - got, ds + [d]);
  }

  /** The slot of a packet that has not come is as good as new. */
  lemma SlotUntouched(q: Queue, q0: Queue, packets: seq<Packet>, base: int, got: set<nat>, i: nat)
    requires Fresh(q0) && Holding(q, q0, packets, base, got) && i < 159 && i !in got && 0 < base < 0x100_0000
    ensures !q.table.slots[Idx(base + i)].inUse && q.table.slots[Idx(base + i)].ext != base + i
  {
    var k := Idx(base + i);
    WhichIdx(base, i, k);
    hide Idx;
    HoldingAt(q, q0, packets, base, got, k);
    assert !q0.table.slots[k].inUse && (q0.table.slots[k].ext == 0 || q0.table.slots[k].ext == NO_SEQ);
  }

  lemma SameBut(q: Queue, q1: Queue, was: Queue, q0: Queue, packets: seq<Packet>, base: int, got: set<nat>,
                ds: seq<Delivery>)
    requires Arrived(q, was, q0, packets, base, got, ds) && q1 == q.(roc := q1.roc)
    ensures Holding(q1, q0, packets, base, got + Indices(ds))
    ensures Filled(q1, was, base, Indices(ds) - got, ds) && Rest(q1, was, base, Indices(ds) - got)
  {
    hide SlotState, SlotEffect, Indices;
  }

  /** A packet that has not come is added under its own number. */
  lemma ReceiveNew(q: Queue, was: Queue, q0: Queue, packets: seq<Packet>, first: int, base: int, got: set<nat>,
                   ds: seq<Delivery>, d: Delivery)
    requires Fresh(q0) && Burst(packets) && d.index < |packets| && d.index !in got + Indices(ds)
    requires Arrived(q, was, q0, packets, base, got, ds)
    requires (base - first) % 0x1_0000 == 0 && 0 < base < 0x100_0000
    requires Rollover.Unwrap(q.roc, SeqNo(first, d.index)).0 == base + d.index
    requires RocState(Rollover.Step(q.roc, SeqNo(first, d.index)), base, |packets|)
    ensures
      Arrived(Receive(q, packets[d.index], SeqNo(first, d.index), d.at), was, q0, packets, base, got, ds + [d])
  {
    hide Rollover.Unwrap, Rollover.Looked, RocState, SeqNo, Idx, Receive, Accepted, Indices, Holding, Filled, Rest;
    hide Rollover.Accept;
    var i, s, p := d.index, SeqNo(first, d.index), packets[d.index];
    SeqNoOfBase(base, first, i);
    SlotUntouched(q, q0, packets, base, got + Indices(ds), i);
    AddPackNew(q, p, s, d.at, base + i);
    var q1 := q.(roc := Rollover.Looked(q.roc, s));
    SameBut(q, q1, was, q0, packets, base, got, ds);
    HoldingMore(q1, q0, packets, base, got + Indices(ds), i, s, d.at);
    FilledMore(q1, was, base, Indices(ds) - got, ds, p, s, d);
    RestMore(q1, was, base, Indices(ds) - got, i, p, s, d.at);
    AcceptedRoc(q1, p.ts, s, base + i, p.payload, Some(p.codec), Wrap(d.at));
    IndicesAppend(ds, d);
    assert got + Indices(ds + [d]) == (got + Indices(ds)) + {i};
    assert Indices(ds + [d]) - got == (Indices(ds) - got) + {i};
  }

  /** Nothing has come yet, or the numbers of the burst are known. */
  ghost predicate NumbersKnown(q: Queue, q0: Queue, first: int, base: int, n: nat, got: set<nat>, ds: seq<Delivery>) {
    && (base - first) % 0x1_0000 == 0 && 0 < base < 0x100_0000
    && if got == {} then q == q0 && (ds != [] ==> base == Base(q0, first, ds)) else RocState(q.roc, base, n)
  }

  lemma ReceiveStep(q: Queue, was: Queue, q0: Queue, packets: seq<Packet>, first: int, base: int, got: set<nat>,
                    ds: seq<Delivery>, d: Delivery)
    requires Fresh(q0) && Burst(packets) && d.index < |packets| && Arrived(q, was, q0, packets, base, got, ds)
    requires NumbersKnown(q, q0, first, base, |packets|, got + Indices(ds), [d])
    ensures
      Arrived(Receive(q, packets[d.index], SeqNo(first, d.index), d.at), was, q0, packets, base, got, ds + [d])
  {
    hide Arrived, RocState, Receive, SeqNo, Rollover.Step, Rollover.Unwrap, Rollover.Looked, Base, Fresh;
    if got + Indices(ds) == {} {
      UnwrapFirst(q0, base, first, |packets|, d);
      ReceiveNew(q, was, q0, packets, first, base, got, ds, d);
    } else {
      UnwrapInBurst(q.roc, base, first, |packets|, d.index);
      if d.index in got + Indices(ds) {
        ReceiveAgain(q, was, q0, packets, first, base, got, ds, d);
      } else {
        ReceiveNew(q, was, q0, packets, first, base, got, ds, d);
      }
    }
  }

  lemma NothingArrived(was: Queue, q0: Queue, packets: seq<Packet>, base: int, got: set<nat>)
    requires Holding(was, q0, packets, base, got) && (got != {} ==> RocState(was.roc, base, |packets|))
    ensures Arrived(was, was, q0, packets, base, got, [])
  {
    hide RocState, SlotState;
    assert Indices([]) == {} && got + {} == got && {} - got == {};
  }

  lemma NumbersStillKnown(q: Queue, was: Queue, q0: Queue, packets: seq<Packet>, first: int, base: int, got: set<nat>,
                      front: seq<Delivery>, d: Delivery)
    requires InBurst(front, |packets|) && q == ReceiveAll(was, packets, first, front)
    requires Arrived(q, was, q0, packets, base, got, front)
    requires NumbersKnown(was, q0, first, base, |packets|, got, front + [d])
    ensures NumbersKnown(q, q0, first, base, |packets|, got + Indices(front), [d])
  {
    hide RocState, Receive, Rollover.Shift, Holding, Filled, Rest;
    if front != [] {
      assert front[0].index in Indices(front);
    }
  }

  /** Whatever the order, and however often packets are repeated, afterwards exactly the
      packets that arrived are queued, each under its own number and with its own bytes. */
  lemma {:induction false} ReceiveAllHolds(was: Queue, q0: Queue, packets: seq<Packet>, first: int, base: int,
                                           got: set<nat>, ds: seq<Delivery>)
    requires Fresh(q0) && Burst(packets) && InBurst(ds, |packets|) && Holding(was, q0, packets, base, got)
    requires NumbersKnown(was, q0, first, base, |packets|, got, ds)
    ensures Arrived(ReceiveAll(was, packets, first, ds), was, q0, packets, base, got, ds)
  {
    hide Arrived, Receive, SeqNo, Indices, RocState, Holding, Fresh;
    if ds == [] {
      NothingArrived(was, q0, packets, base, got);
    } else {
      var front, d := ds[..|ds| - 1], ds[|ds| - 1];
      assert InBurst(front, |packets|) && ds == front + [d];
      ReceiveAllHolds(was, q0, packets, first, base, got, front);
      var q := ReceiveAll(was, packets, first, front);
      NumbersStillKnown(q, was, q0, packets, first, base, got, front, d);
      ReceiveStep(q, was, q0, packets, first, base, got, front, d);
    }
  }

  /** From a fresh queue. */
  lemma FreshHolds(q0: Queue, packets: seq<Packet>, first: int, ds: seq<Delivery>)
    requires Fresh(q0) && Burst(packets) && InBurst(ds, |packets|) && ds != []
    ensures Arrived(ReceiveAll(q0, packets, first, ds), q0, q0, packets, Base(q0, first, ds), {}, ds)
  {
    BaseRange(q0, first, ds);
    assert Holding(q0, q0, packets, Base(q0, first, ds), {});
    hide Arrived, Holding, Base, Fresh;
    ReceiveAllHolds(q0, q0, packets, first, Base(q0, first, ds), {}, ds);
  }

  lemma {:induction false} ReceiveAllSane(q: Queue, packets: seq<Packet>, first: int, ds: seq<Delivery>)
    requires Sane(q) && InBurst(ds, |packets|)
    ensures Sane(ReceiveAll(q, packets, first, ds))
  {
    if ds == [] {
    } else {
      var d := ds[|ds| - 1];
      ReceiveAllSane(q, packets, first, ds[..|ds| - 1]);
      AddPackSane(ReceiveAll(q, packets, first, ds[..|ds| - 1]), packets[d.index].ts, SeqNo(first, d.index),
                  packets[d.index].payload, Some(packets[d.index].codec), Wrap(d.at));
      hide Sane, AddPack;
    }
  }
}
