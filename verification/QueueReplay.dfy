/** Playing back a burst: the decoders get the original payloads in sequence order,
    whatever order the packets arrived in. */
module QueueReplay {
  import opened Width
  import opened Wrappers
  import opened RingAllocator
  import opened QueueModel
  import opened QueueInvariants
  import opened QueueReorder
  import QueueResync

  /** One `decodeNextPacket(n)` at time `tick`, after `take` samples were fetched. */
  datatype Call = Call(take: nat, n: nat, tick: nat)

  function Drain(env: Codecs, q: Queue, calls: seq<Call>): Queue
    decreases |calls|
  {
    if calls == [] then q
    else Drain(env, DecodeNext(env, Take(q, calls[0].take), calls[0].n, Wrap(calls[0].tick)), calls[1..])
  }

  /** What is left of a FIFO after `take` samples were fetched. */
  function Behind(fifo: seq<Sample>, take: nat): seq<Sample> {
    fifo[if take < |fifo| then take else |fifo|..]
  }

  /** The player decodes the packet straight from the sender, if the decoder takes it when it
      is told of the room the queue would tell it of. */
  function IdealStep(env: Codecs, s: Sound, p: Packet, x: int, take: nat): Sound {
    var left := Behind(s.fifo, take);
    if env.canDecode(p.codec, p.payload, 2 * (32000 - |left| - 100)) then
      var out := env.decode(s.fed, p.codec, p.payload);
      Sound(left + out, |out|, false, true, p.payload, Some(p.codec), s.fed + [Feed(p.codec, p.payload)],
            s.played + [Wrap(x)])
    else s.(fifo := left, prevWasCN := false, prevWasOK := false)
  }

  lemma DecodesIdeally(env: Codecs, s: Sound, p: Packet, x: int, take: nat)
    ensures Decode(env, s.(fifo := Left(s.fifo, take)), Wrap(x), p.codec, p.payload) == IdealStep(env, s, p, x, take)
  {
    assert Left(s.fifo, take) == Behind(s.fifo, take);
  }

  /** A player without a network: packets `j`.. are decoded in order, straight from
      the sender. */
  function Ideal(env: Codecs, s: Sound, packets: seq<Packet>, base: int, j: nat, calls: seq<Call>): Sound
    requires j + |calls| <= |packets|
    decreases |calls|
  {
    if calls == [] then s
    else Ideal(env, IdealStep(env, s, packets[j], base + j, calls[0].take), packets, base, j + 1, calls[1..])
  }

  ghost predicate TicksInTime(calls: seq<Call>, lo: nat) {
    forall k :: 0 <= k < |calls| ==> lo <= calls[k].tick <= lo + 6000
  }

  ghost predicate Recent(received: Word, lo: nat) {
    exists at: nat :: lo <= at <= lo + 6000 && received == Wrap(at)
  }

  ghost predicate WaitingSlot(s: Slot, stores: seq<Store>, packets: seq<Packet>, base: int, j: nat, lo: nat, k: nat) {
    var i := Which(base, k);
    if j <= i < |packets| then s.inUse && Carries(s, stores, packets[i], base + i) && Recent(s.received, lo)
    else !s.inUse
  }

  /** Packets `j`.. of the burst wait at the play position, and nothing else is queued. */
  ghost predicate Remaining(q: Queue, packets: seq<Packet>, base: int, j: nat, lo: nat) {
    && q.play == base + j && SlotsOk(q.table)
    && |q.stores| <= 159 && Intact(q.table.mem.buf, q.stores)
    && forall k {:trigger q.table.slots[k]} :: 0 <= k < SLOTS ==>
         WaitingSlot(q.table.slots[k], q.stores, packets, base, j, lo, k)
  }

  lemma RecentNotExpired(s: Slot, lo: nat, now: nat)
    requires Recent(s.received, lo) && lo <= now <= lo + 6000
    ensures !QueueResync.Expired(s, Wrap(now))
  {
    var at: nat :| lo <= at <= lo + 6000 && s.received == Wrap(at);
    DiffOfNear(now, at);
  }

  lemma {:induction false} FindNextNoneExpired(t: Table, from: Word, i: nat, now: Word)
    requires forall k {:trigger t.slots[k]} :: 0 <= k < SLOTS ==> !QueueResync.Expired(t.slots[k], now)
    ensures FindNext(t, from, i, now).0 == t
    decreases MAX_LOST + 1 - i
  {
    if i > MAX_LOST {
    } else {
      assert !QueueResync.Expired(t.slots[Idx(from + i)], now);
      FindNextNoneExpired(t, from, i + 1, now);
    }
  }

  lemma PositionOf(q: Queue, packets: seq<Packet>, base: int, j: nat, lo: nat)
    requires Remaining(q, packets, base, j, lo) && j < |packets| <= 159 && 0 < base < 0x100_0000
    ensures q.play == base + j && Wrap(q.play + 1) == base + (j + 1) && Wrap(base + j) == base + j
    ensures |q.stores| <= 159 && Intact(q.table.mem.buf, q.stores)
  {
  }

  lemma NoneExpired(q: Queue, packets: seq<Packet>, base: int, j: nat, lo: nat, now: nat)
    requires Remaining(q, packets, base, j, lo) && lo <= now <= lo + 6000
    ensures forall k {:trigger q.table.slots[k]} :: 0 <= k < SLOTS ==> !QueueResync.Expired(q.table.slots[k], Wrap(now))
  {
    hide Which, Wrap, Intact, SlotsOk;
    forall k {:trigger q.table.slots[k]} | 0 <= k < SLOTS
      ensures !QueueResync.Expired(q.table.slots[k], Wrap(now))
    {
      assert WaitingSlot(q.table.slots[k], q.stores, packets, base, j, lo, k);
      if q.table.slots[k].inUse {
        RecentNotExpired(q.table.slots[k], lo, now);
      }
    }
  }

  /** The slot of packet `i` holds nothing but packet `i`. */
  lemma NumberAt(q: Queue, packets: seq<Packet>, base: int, j: nat, lo: nat, i: nat)
    requires Remaining(q, packets, base, j, lo) && j <= i <= |packets| <= 159
    ensures q.table.slots[Idx(base + i)].inUse ==> q.table.slots[Idx(base + i)].ext == base + i
    ensures i < |packets| ==>
      q.table.slots[Idx(base + i)].inUse && Carries(q.table.slots[Idx(base + i)], q.stores, packets[i], base + i)
  {
    var k := Idx(base + i);
    WhichIdx(base, i, k);
    hide Idx, Which, Intact, SlotsOk;
    assert WaitingSlot(q.table.slots[k], q.stores, packets, base, j, lo, k);
  }

  lemma KeepIfNumbered(t: Table, pos: Word)
    requires t.slots[Idx(pos)].inUse ==> t.slots[Idx(pos)].ext == pos
    ensures DropIfStale(t, pos) == t
  {
  }

  /** The source sees exactly packet `j`, and drops nothing. */
  lemma LookRemaining(q: Queue, packets: seq<Packet>, base: int, j: nat, lo: nat, now: nat)
    requires Remaining(q, packets, base, j, lo) && j < |packets| <= 159 && 0 < base < 0x100_0000
    requires lo <= now <= lo + 6000
    ensures Look(q.table, q.play, Wrap(now)).0 == q.table
    ensures Look(q.table, q.play, Wrap(now)).1 == q.table.slots[Idx(base + j)]
    ensures q.table.slots[Idx(base + j)].inUse
    ensures Carries(q.table.slots[Idx(base + j)], q.stores, packets[j], base + j)
  {
    hide Remaining, Carries, Idx, Wrap, DropIfStale, FindNext, Intact;
    PositionOf(q, packets, base, j, lo);
    NoneExpired(q, packets, base, j, lo, now);
    FindNextNoneExpired(q.table, q.play, 1, Wrap(now));
    NumberAt(q, packets, base, j, lo, j);
    NumberAt(q, packets, base, j, lo, j + 1);
    KeepIfNumbered(q.table, q.play);
    KeepIfNumbered(q.table, Wrap(q.play + 1));
  }

  lemma PayloadCarried(q: Queue, p: Packet, x: int, s: Slot)
    requires Carries(s, q.stores, p, x) && |q.stores| <= 159 && Intact(q.table.mem.buf, q.stores)
    ensures Payload(q.table, s) == p.payload && s.codec == Some(p.codec) && s.ext == x && IsOK(s) == s.inUse
  {
    var j: nat :| InStore(s, q.stores, p.payload, j);
    assert Readable(q.table.mem.buf, q.stores[j]);
  }

  lemma SoundOfPacket(env: Codecs, s: Sound, t: Table, cur: Slot, after: Slot, next: Option<Slot>, n: nat)
    requires IsOK(cur)
    ensures Sounded(env, s, t, cur, after, next, n) == Decode(env, s, cur.ext, cur.codec.value, Payload(t, cur))
  {
  }

  lemma RemainingAfter(q: Queue, q': Queue, packets: seq<Packet>, base: int, j: nat, lo: nat)
    requires Remaining(q, packets, base, j, lo) && j < |packets| <= 159
    requires q'.table == Release(q.table, Idx(base + j)) && q'.play == base + (j + 1) && q'.stores == q.stores
    ensures Remaining(q', packets, base, j + 1, lo)
  {
    ReleaseFrees(q.table, Idx(base + j));
    hide Carries, Idx, Which, Recent;
    forall k {:trigger q'.table.slots[k]} | 0 <= k < SLOTS
      ensures WaitingSlot(q'.table.slots[k], q.stores, packets, base, j + 1, lo, k)
    {
      WhichIdx(base, j, k);
      assert WaitingSlot(q.table.slots[k], q.stores, packets, base, j, lo, k);
    }
  }

  /** One call decodes packet `j` from its original bytes and leaves the rest waiting. */
  lemma PlayOne(env: Codecs, q: Queue, packets: seq<Packet>, base: int, j: nat, lo: nat, n: nat, now: nat)
    requires Remaining(q, packets, base, j, lo) && j < |packets| <= 159 && 0 < base < 0x100_0000
    requires lo <= now <= lo + 6000
    ensures Remaining(DecodeNext(env, q, n, Wrap(now)), packets, base, j + 1, lo)
    ensures
      DecodeNext(env, q, n, Wrap(now)).sound == Decode(env, q.sound, base + j, packets[j].codec, packets[j].payload)
  {
    hide DecodeNext, Look, Sounded, Decode, Payload, Carries, Remaining, Wrap, Idx, Release, Intact;
    PositionOf(q, packets, base, j, lo);
    LookRemaining(q, packets, base, j, lo, now);
    var (t, cur, next) := Look(q.table, q.play, Wrap(now));
    PayloadCarried(q, packets[j], base + j, cur);
    SoundOfPacket(env, q.sound, t, cur, t.slots[Idx(q.play + 1)], next, n);
    DecodeNextEffect(env, q, n, Wrap(now));
    RemainingAfter(q, DecodeNext(env, q, n, Wrap(now)), packets, base, j, lo);
  }

  lemma PlayOneAfterTake(env: Codecs, q: Queue, packets: seq<Packet>, base: int, j: nat, lo: nat, call: Call)
    requires Remaining(q, packets, base, j, lo) && j < |packets| <= 159 && 0 < base < 0x100_0000
    requires lo <= call.tick <= lo + 6000
    ensures Remaining(DecodeNext(env, Take(q, call.take), call.n, Wrap(call.tick)), packets, base, j + 1, lo)
    ensures
      DecodeNext(env, Take(q, call.take), call.n, Wrap(call.tick)).sound ==
        IdealStep(env, q.sound, packets[j], base + j, call.take)
  {
    hide DecodeNext, Wrap, Decode, IdealStep, Carries, Idx, SlotsOk, Intact, WaitingSlot;
    PositionOf(q, packets, base, j, lo);
    assert Remaining(Take(q, call.take), packets, base, j, lo);
    hide Remaining;
    PlayOne(env, Take(q, call.take), packets, base, j, lo, call.n, call.tick);
    DecodesIdeally(env, q.sound, packets[j], base + j, call.take);
  }

  /** Drained from the position of packet `j`, the queue sounds like the ideal player. */
  lemma {:induction false} DrainIsIdeal(env: Codecs, q: Queue, packets: seq<Packet>, base: int, j: nat, lo: nat,
                                        calls: seq<Call>)
    requires Remaining(q, packets, base, j, lo) && j + |calls| <= |packets| <= 159 && 0 < base < 0x100_0000
    requires TicksInTime(calls, lo)
    ensures Drain(env, q, calls).sound == Ideal(env, q.sound, packets, base, j, calls)
    decreases |calls|
  {
    hide DecodeNext, IdealStep, Remaining, Take;
    if calls == [] {
    } else {
      PlayOneAfterTake(env, q, packets, base, j, lo, calls[0]);
      var q' := DecodeNext(env, Take(q, calls[0].take), calls[0].n, Wrap(calls[0].tick));
      DrainIsIdeal(env, q', packets, base, j + 1, lo, calls[1..]);
    }
  }

  // ----- the reorder theorem

  ghost predicate All(ds: seq<Delivery>, n: nat) {
    forall i :: 0 <= i < n ==> i in Indices(ds)
  }

  lemma {:induction false} AtMost(got: set<nat>, n: nat)
    requires forall i :: i in got ==> i < n
    ensures |got| <= n
  {
    if n > 0 {
      AtMost(got - {n - 1}, n - 1);
    } else {
      assert got == {};
    }
  }

  lemma CameRecently(s: Slot, ds: seq<Delivery>, i: nat, n: nat, lo: nat)
    requires CameIn(s, ds, i) && InTime(ds, n, lo)
    ensures Recent(s.received, lo)
  {
  }

  lemma ArrivedRemains(q: Queue, q0: Queue, packets: seq<Packet>, base: int, ds: seq<Delivery>, lo: nat)
    requires Sane(q) && Fresh(q0) && Burst(packets) && InTime(ds, |packets|, lo) && All(ds, |packets|)
    requires Arrived(q, q0, q0, packets, base, {}, ds) && 0 < base < 0x100_0000
    ensures Remaining(q.(play := base), packets, base, 0, lo)
  {
    var got := {} + Indices(ds);
    AtMost(got, |packets|);
    hide Recent, CameIn, Carries, Idx;
    forall k {:trigger q.table.slots[k]} | 0 <= k < SLOTS
      ensures WaitingSlot(q.table.slots[k], q.stores, packets, base, 0, lo, k)
    {
      HoldingAt(q, q0, packets, base, got, k);
      FilledAt(q, q0, base, Indices(ds) - {}, ds, k);
      if Which(base, k) < |packets| {
        CameRecently(q.table.slots[k], ds, Which(base, k), |packets|, lo);
      }
    }
  }

  lemma BurstRemains(q0: Queue, packets: seq<Packet>, first: int, ds: seq<Delivery>, lo: nat)
    requires Fresh(q0) && Burst(packets) && ds != [] && InTime(ds, |packets|, lo) && All(ds, |packets|)
    ensures
      var base := Base(q0, first, ds);
      var q1 := ReceiveAll(q0, packets, first, ds).(play := base);
      0 < base < 0x100_0000 && Remaining(q1, packets, base, 0, lo) && q1.sound == q0.sound
  {
    var base := Base(q0, first, ds);
    BaseRange(q0, first, ds);
    hide Sane, Holding, Filled, Remaining, ReceiveAll, Base;
    FreshHolds(q0, packets, first, ds);
    assert Sane(q0);
    ReceiveAllSane(q0, packets, first, ds);
    ArrivedRemains(ReceiveAll(q0, packets, first, ds), q0, packets, base, ds, lo);
  }

  /** From a fresh queue, a burst of up to 159 packets received in any order, with any
      duplicates, is played back exactly as if there were no network in between. */
  lemma AnyOrderPlaysInOrder(env: Codecs, q0: Queue, packets: seq<Packet>, first: int, ds: seq<Delivery>, lo: nat,
                             calls: seq<Call>)
    requires Fresh(q0) && Burst(packets) && ds != [] && InTime(ds, |packets|, lo) && All(ds, |packets|)
    requires |calls| <= |packets| && TicksInTime(calls, lo)
    ensures 0 < Base(q0, first, ds) < 0x100_0000
    ensures
      var base := Base(q0, first, ds);
      var q1 := ReceiveAll(q0, packets, first, ds).(play := base);
      Drain(env, q1, calls).sound == Ideal(env, q0.sound, packets, base, 0, calls)
  {
    BaseRange(q0, first, ds);
    hide Remaining, ReceiveAll, Drain, Ideal, Base;
    BurstRemains(q0, packets, first, ds, lo);
    var base := Base(q0, first, ds);
    DrainIsIdeal(env, ReceiveAll(q0, packets, first, ds).(play := base), packets, base, 0, lo, calls);
  }

  // ----- what the decoders are given, and what is heard

  /** What the decoders are told of at least, while the FIFO keeps its bound. */
  const LEAST_ROOM: int := 2 * (32000 - 16000 - 100)

  /** The codecs accept these payloads whenever they are told of that much room. */
  ghost predicate Decodable(env: Codecs, packets: seq<Packet>) {
    forall i, room {:trigger env.canDecode(packets[i].codec, packets[i].payload, room)} ::
      0 <= i < |packets| && room >= LEAST_ROOM ==> env.canDecode(packets[i].codec, packets[i].payload, room)
  }

  function Feeds(packets: seq<Packet>, j: nat): seq<Feed>
    requires j <= |packets|
  {
    seq(|packets| - j, i requires 0 <= i < |packets| - j => Feed(packets[j + i].codec, packets[j + i].payload))
  }

  /** The outputs of the decoders for packets `j` up to `j + n`, fed one after the other. */
  function Outputs(env: Codecs, fed: seq<Feed>, packets: seq<Packet>, j: nat, n: nat): seq<Sample>
    requires j + n <= |packets|
    decreases n
  {
    if n == 0 then []
    else
      var c, p := packets[j].codec, packets[j].payload;
      env.decode(fed, c, p) + Outputs(env, fed + [Feed(c, p)], packets, j + 1, n - 1)
  }

  /** With `left` samples waiting, each call finds room for one more frame; beyond that the
      source would write past its buffer. */
  ghost predicate RoomAtEachCall(env: Codecs, fed: seq<Feed>, left: nat, packets: seq<Packet>, j: nat, calls: seq<Call>)
    requires j + |calls| <= |packets|
    decreases |calls|
  {
    calls != [] ==>
      var rest := if calls[0].take < left then left - calls[0].take else 0;
      var c, p := packets[j].codec, packets[j].payload;
      && rest + env.maxFrame <= 16000
      && RoomAtEachCall(env, fed + [Feed(c, p)], rest + |env.decode(fed, c, p)|, packets, j + 1, calls[1..])
  }

  /** The samples the calls fetch. */
  function Fetched(env: Codecs, q: Queue, calls: seq<Call>): seq<Sample>
    decreases |calls|
  {
    if calls == [] then []
    else
      var fifo, take := q.sound.fifo, calls[0].take;
      fifo[..if take < |fifo| then take else |fifo|]
      + Fetched(env, DecodeNext(env, Take(q, take), calls[0].n, Wrap(calls[0].tick)), calls[1..])
  }

  lemma IdealAccepts(env: Codecs, s: Sound, packets: seq<Packet>, base: int, j: nat, take: nat)
    requires j < |packets| && Decodable(env, packets) && |Behind(s.fifo, take)| <= 16000
    ensures
      var (c, p, s') := (packets[j].codec, packets[j].payload, IdealStep(env, s, packets[j], base + j, take));
      && s'.fifo == Behind(s.fifo, take) + env.decode(s.fed, c, p)
      && s'.fed == s.fed + [Feed(c, p)]
  {
    var room := 2 * (32000 - |Behind(s.fifo, take)| - 100);
    assert env.canDecode(packets[j].codec, packets[j].payload, room);
  }

  lemma {:induction false} IdealFeedsInOrder(env: Codecs, s: Sound, packets: seq<Packet>, base: int, j: nat,
                                             calls: seq<Call>)
    requires j + |calls| == |packets| && Decodable(env, packets)
    requires RoomAtEachCall(env, s.fed, |s.fifo|, packets, j, calls)
    ensures Ideal(env, s, packets, base, j, calls).fed == s.fed + Feeds(packets, j)
    decreases |calls|
  {
    hide IdealStep, Decodable;
    if calls == [] {
    } else {
      IdealAccepts(env, s, packets, base, j, calls[0].take);
      var s' := IdealStep(env, s, packets[j], base + j, calls[0].take);
      IdealFeedsInOrder(env, s', packets, base, j + 1, calls[1..]);
      assert Feeds(packets, j) == [Feed(packets[j].codec, packets[j].payload)] + Feeds(packets, j + 1);
    }
  }

  /** So n calls hand the decoders the n original payloads in sequence order. */
  lemma AnyOrderFeedsInOrder(env: Codecs, q0: Queue, packets: seq<Packet>, first: int, ds: seq<Delivery>, lo: nat,
                             calls: seq<Call>)
    requires Fresh(q0) && Burst(packets) && ds != [] && InTime(ds, |packets|, lo) && All(ds, |packets|)
    requires |calls| == |packets| && TicksInTime(calls, lo)
    requires Decodable(env, packets) && RoomAtEachCall(env, q0.sound.fed, |q0.sound.fifo|, packets, 0, calls)
    ensures 0 < Base(q0, first, ds) < 0x100_0000
    ensures
      var q1 := ReceiveAll(q0, packets, first, ds).(play := Base(q0, first, ds));
      Drain(env, q1, calls).sound.fed == q0.sound.fed + Feeds(packets, 0)
  {
    AnyOrderPlaysInOrder(env, q0, packets, first, ds, lo, calls);
    IdealFeedsInOrder(env, q0.sound, packets, Base(q0, first, ds), 0, calls);
    hide Drain, ReceiveAll, Ideal, Base;
  }

  lemma HeadAndBehind(fifo: seq<Sample>, take: nat)
    ensures fifo[..if take < |fifo| then take else |fifo|] + Behind(fifo, take) == fifo
  {
  }

  lemma Rearranged(a: seq<Sample>, b: seq<Sample>, c: seq<Sample>, d: seq<Sample>, fifo: seq<Sample>, left: seq<Sample>)
    requires fifo == a + left && b + c == (left + d)
    ensures (a + b) + c == fifo + d
  {
    assert a + (b + c) == a + (left + d) == (a + left) + d;
  }

  /** Drained from the position of packet `j`, what is fetched and what is left are what the
      FIFO held and the outputs of the decoders for the original payloads, in order. */
  lemma {:induction false} DrainSounds(env: Codecs, q: Queue, packets: seq<Packet>, base: int, j: nat, lo: nat,
                                       calls: seq<Call>)
    requires Remaining(q, packets, base, j, lo) && j + |calls| <= |packets| <= 159 && 0 < base < 0x100_0000
    requires TicksInTime(calls, lo) && Decodable(env, packets)
    requires RoomAtEachCall(env, q.sound.fed, |q.sound.fifo|, packets, j, calls)
    ensures
      Fetched(env, q, calls) + Drain(env, q, calls).sound.fifo ==
        q.sound.fifo + Outputs(env, q.sound.fed, packets, j, |calls|)
    decreases |calls|
  {
    hide DecodeNext, IdealStep, Remaining, Take, Behind, Decodable;
    if calls == [] {
    } else {
      var take := calls[0].take;
      var q', left := DecodeNext(env, Take(q, take), calls[0].n, Wrap(calls[0].tick)), Behind(q.sound.fifo, take);
      PlayOneAfterTake(env, q, packets, base, j, lo, calls[0]);
      HeadAndBehind(q.sound.fifo, take);
      IdealAccepts(env, q.sound, packets, base, j, take);
      DrainSounds(env, q', packets, base, j + 1, lo, calls[1..]);
      var c, p := packets[j].codec, packets[j].payload;
      var out, rest := env.decode(q.sound.fed, c, p), Outputs(env, q'.sound.fed, packets, j + 1, |calls| - 1);
      assert (left + out) + rest == left + (out + rest);
      Rearranged(q.sound.fifo[..if take < |q.sound.fifo| then take else |q.sound.fifo|], Fetched(env, q', calls[1..]),
                 Drain(env, q', calls[1..]).sound.fifo, out + rest, q.sound.fifo, left);
    }
  }

  /** What is heard of a burst, in whatever order and with whatever repeats it arrived: the
      samples fetched, followed by those left, are the FIFO of the fresh queue followed by
      the outputs of the decoders for the original payloads in sequence order. */
  lemma AnyOrderSoundsInOrder(env: Codecs, q0: Queue, packets: seq<Packet>, first: int, ds: seq<Delivery>, lo: nat,
                              calls: seq<Call>)
    requires Fresh(q0) && Burst(packets) && ds != [] && InTime(ds, |packets|, lo) && All(ds, |packets|)
    requires |calls| <= |packets| && TicksInTime(calls, lo)
    requires Decodable(env, packets) && RoomAtEachCall(env, q0.sound.fed, |q0.sound.fifo|, packets, 0, calls)
    ensures 0 < Base(q0, first, ds) < 0x100_0000
    ensures
      var q1 := ReceiveAll(q0, packets, first, ds).(play := Base(q0, first, ds));
      Fetched(env, q1, calls) + Drain(env, q1, calls).sound.fifo ==
        q0.sound.fifo + Outputs(env, q0.sound.fed, packets, 0, |calls|)
  {
    BaseRange(q0, first, ds);
    hide Remaining, ReceiveAll, Drain, Fetched, Outputs, Base, Decodable, RoomAtEachCall;
    BurstRemains(q0, packets, first, ds, lo);
    var q1 := ReceiveAll(q0, packets, first, ds).(play := Base(q0, first, ds));
    DrainSounds(env, q1, packets, Base(q0, first, ds), 0, lo, calls);
  }
}
