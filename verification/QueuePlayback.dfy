/** `getData`: why its loop ends, what it delivers, and what whole runs keep. */
module QueuePlayback {
  import opened Width
  import opened Wrappers
  import opened RingAllocator
  import opened QueueModel
  import opened QueueInvariants
  import Rollover

  // ----- termination

  function Credit(s: Sound): nat {
    if s.prevWasOK then 1 else 0
  }

  function Missing(s: Sound, n: nat): nat {
    if n <= |s.fifo| then 0 else n - |s.fifo|
  }

  /** A step at an empty position spends the right to replay, or else adds samples. */
  lemma ConcealProgress(env: Codecs, s: Sound, cur: Slot, after: Slot, next: Option<Slot>, n: nat)
    requires !cur.inUse && |s.fifo| < n
    ensures
      var s' := Conceal(env, s, cur, after, next, n);
      !s'.prevWasOK && (s.prevWasOK || |s.fifo| < |s'.fifo|)
  {
  }

  lemma UnusedRelease(t: Table, i: nat)
    requires i < SLOTS && !t.slots[i].inUse
    ensures Release(t, i) == t
  {
  }

  /** Every iteration of the loop in `getData` frees a slot, spends the right to
      replay, or adds samples: decoding, comfort noise, replay, loss and expiry alike. */
  lemma Progress(env: Codecs, q: Queue, n: nat, now: Word)
    requires SlotsOk(q.table) && |q.sound.fifo| < n
    ensures
      var q' := DecodeNext(env, q, n, now);
      || InUse(q'.table) < InUse(q.table)
      || (InUse(q'.table) == InUse(q.table)
          && (Credit(q'.sound) < Credit(q.sound)
              || (Credit(q'.sound) == Credit(q.sound) && Missing(q'.sound, n) < Missing(q.sound, n))))
  {
    var (t, cur, next) := Look(q.table, q.play, now);
    DecodeNextFrees(env, q, n, now);
    if !cur.inUse {
      UnusedRelease(t, Idx(q.play));
      ConcealProgress(env, q.sound, cur, t.slots[Idx(q.play + 1)], next, n);
    }
  }

  /** The loop of `getData`; `clock(k)` is the tick count the k-th iteration reads. */
  ghost function Pump(env: Codecs, q: Queue, n: nat, clock: nat -> Word, k: nat): Queue
    requires SlotsOk(q.table)
    decreases InUse(q.table), Credit(q.sound), Missing(q.sound, n)
  {
    if n <= |q.sound.fifo| then q
    else
      Progress(env, q, n, clock(k));
      DecodeNextFrees(env, q, n, clock(k));
      Pump(env, DecodeNext(env, q, n, clock(k)), n, clock, k + 1)
  }

  lemma FindBestSlotsOk(q: Queue, need: nat)
    requires SlotsOk(q.table)
    ensures SlotsOk(FindBest(q, need).0.table)
  {
    var c := Choice(q, need);
    if c.Some? {
      ReleaseBehindFrees(q.table, c.value, BEHIND);
    }
  }

  lemma PrepareSlotsOk(q: Queue, need: nat, rate: int)
    requires SlotsOk(q.table)
    ensures SlotsOk(Prepare(q, need, rate).0.table)
  {
    hide FindBest, SlotsOk;
    FindBestSlotsOk(q, need);
    var q1 := if !q.canPlay then Resync(q, need) else q;
    FindBestSlotsOk(q1, need);
    var si := SamplesIn(q1, rate);
    var q2 := if si < -rate then Resync(q1, need) else q1;
    FindBestSlotsOk(q2, need);
    FindBestSlotsOk(q2.(resetPos := false, waiting := 0), need);
  }

  /** `getData` and the samples it writes out. */
  ghost function GetData(env: Codecs, q: Queue, n: nat, need: nat, rate: int, clock: nat -> Word): (Queue, seq<Sample>)
    requires SlotsOk(q.table)
  {
    var (q1, plays) := Prepare(q, need, rate);
    if !plays then (Take(q1, n), Taken(q1.sound.fifo, n))
    else
      PrepareSlotsOk(q, need, rate);
      var q2 := Pump(env, q1, n, clock, 0);
      (Take(q2, n).(playPos := Wrap(q2.playPos + n)), Taken(q2.sound.fifo, n))
  }

  // ----- bounds

  ghost predicate Bounded(env: Codecs, s: Sound) {
    |s.fifo| <= FIFO_MAX && s.prevDecoded <= env.maxFrame && |s.prevPack| <= MAX_PACK
  }

  lemma PayloadLength(t: Table, s: Slot, i: nat)
    requires SlotOk(s, i) && IsOK(s)
    ensures |Payload(t, s)| == s.len && 1 <= s.len <= MAX_PACK
  {
  }

  lemma SoundedBounded(env: Codecs, s: Sound, t: Table, cur: Slot, after: Slot, next: Option<Slot>, n: nat, i: nat)
    requires Framed(env) && Bounded(env, s) && SlotOk(cur, i)
    requires |s.fifo| <= n && n + env.maxFrame <= FIFO_MAX
    ensures Bounded(env, Sounded(env, s, t, cur, after, next, n))
  {
    if IsOK(cur) {
      PayloadLength(t, cur, i);
    }
  }

  /** The decode buffer never overflows, if the request and one frame fit together. */
  lemma DecodeNextBounded(env: Codecs, q: Queue, n: nat, now: Word)
    requires Framed(env) && Bounded(env, q.sound) && SlotsOk(q.table)
    requires |q.sound.fifo| <= n && n + env.maxFrame <= FIFO_MAX
    ensures Bounded(env, DecodeNext(env, q, n, now).sound)
  {
    var (t, cur, next) := Look(q.table, q.play, now);
    LookFrees(q.table, q.play, now);
    SoundedBounded(env, q.sound, t, cur, t.slots[Idx(q.play + 1)], next, n, Idx(q.play));
  }

  lemma {:induction false} PumpKeeps(env: Codecs, q: Queue, n: nat, clock: nat -> Word, k: nat)
    requires Sane(q) && Framed(env) && Bounded(env, q.sound) && n + env.maxFrame <= FIFO_MAX
    ensures var q' := Pump(env, q, n, clock, k);
      Sane(q') && Bounded(env, q'.sound) && n <= |q'.sound.fifo|
    decreases InUse(q.table), Credit(q.sound), Missing(q.sound, n)
  {
    if n <= |q.sound.fifo| {
    } else {
      Progress(env, q, n, clock(k));
      DecodeNextSane(env, q, n, clock(k));
      DecodeNextBounded(env, q, n, clock(k));
      PumpKeeps(env, DecodeNext(env, q, n, clock(k)), n, clock, k + 1);
    }
  }

  ghost predicate SameOrFlushed(s: Sound, s': Sound) {
    s' == s || s' == s.(fifo := [])
  }

  lemma FindBestSound(q: Queue, need: nat)
    ensures SameOrFlushed(q.sound, FindBest(q, need).0.sound)
  {
  }

  lemma ResyncSound(q: Queue, need: nat)
    ensures SameOrFlushed(q.sound, Resync(q, need).sound)
  {
    FindBestSound(q, need);
  }

  lemma TrimSound(q: Queue, si: int, need: nat, rate: int)
    ensures SameOrFlushed(q.sound, Trim(q, si, need, rate).sound)
  {
    FindBestSound(q, need);
  }

  lemma PrepareSound(q: Queue, need: nat, rate: int)
    ensures SameOrFlushed(q.sound, Prepare(q, need, rate).0.sound)
  {
    hide Resync, Trim, SamplesIn;
    var q1 := if !q.canPlay then Resync(q, need) else q;
    assert SameOrFlushed(q.sound, q1.sound) by { ResyncSound(q, need); }
    var si := SamplesIn(q1, rate);
    var q2 := if si < -rate then Resync(q1, need) else q1;
    assert SameOrFlushed(q1.sound, q2.sound) by { ResyncSound(q1, need); }
    var q3 := q2.(resetPos := false, waiting := 0);
    var r := Prepare(q, need, rate).0;
    assert r == q2 || r == Trim(q2, si, need, rate) || r == Trim(q3, si, need, rate);
    assert SameOrFlushed(q2.sound, Trim(q2, si, need, rate).sound) by { TrimSound(q2, si, need, rate); }
    assert SameOrFlushed(q3.sound, Trim(q3, si, need, rate).sound) by { TrimSound(q3, si, need, rate); }
  }

  lemma PrepareBounded(env: Codecs, q: Queue, need: nat, rate: int)
    requires Bounded(env, q.sound)
    ensures Bounded(env, Prepare(q, need, rate).0.sound)
  {
    hide Prepare;
    PrepareSound(q, need, rate);
  }

  // ----- delivery

  lemma DecodeNextAppends(env: Codecs, q: Queue, n: nat, now: Word)
    requires |q.sound.fifo| <= n
    ensures q.sound.fifo <= DecodeNext(env, q, n, now).sound.fifo
  {
  }

  /** The loop only adds samples at the back of the FIFO. */
  lemma {:induction false} PumpAppends(env: Codecs, q: Queue, n: nat, clock: nat -> Word, k: nat)
    requires SlotsOk(q.table)
    ensures q.sound.fifo <= Pump(env, q, n, clock, k).sound.fifo
    decreases InUse(q.table), Credit(q.sound), Missing(q.sound, n)
  {
    if n <= |q.sound.fifo| {
    } else {
      Progress(env, q, n, clock(k));
      DecodeNextFrees(env, q, n, clock(k));
      DecodeNextAppends(env, q, n, clock(k));
      PumpAppends(env, DecodeNext(env, q, n, clock(k)), n, clock, k + 1);
    }
  }

  lemma TakeSplits(fifo: seq<Sample>, n: nat)
    ensures |Taken(fifo, n)| == n
    ensures Taken(fifo, n) + Left(fifo, n) == fifo + Zeros(n - |fifo|)
  {
  }

  lemma TakeSane(env: Codecs, q: Queue, n: nat, pos: Word)
    requires Sane(q) && Bounded(env, q.sound)
    ensures var q' := Take(q, n).(playPos := pos); Sane(q') && Bounded(env, q'.sound)
    ensures Sane(Take(q, n)) && Bounded(env, Take(q, n).sound)
  {
  }

  /** When it plays, what `getData` writes out is the head of the FIFO and the rest of
      the FIFO stays behind: no sample is lost, repeated or reordered. */
  lemma PlayingDelivers(env: Codecs, q: Queue, n: nat, need: nat, rate: int, clock: nat -> Word)
    requires Sane(q) && Framed(env) && Bounded(env, q.sound) && n + env.maxFrame <= FIFO_MAX
    requires Prepare(q, need, rate).1
    ensures
      var (q', out) := GetData(env, q, n, need, rate, clock);
      var q1 := Prepare(q, need, rate).0;
      && Sane(q') && Bounded(env, q'.sound) && |out| == n && SlotsOk(q1.table)
      && q1.sound.fifo <= out + q'.sound.fifo
      && out + q'.sound.fifo == Pump(env, q1, n, clock, 0).sound.fifo
  {
    var q1 := Prepare(q, need, rate).0;
    assert Sane(q1) by { PrepareSane(q, need, rate); }
    assert Bounded(env, q1.sound) by { PrepareSound(q, need, rate); }
    var q2 := Pump(env, q1, n, clock, 0);
    PumpKeeps(env, q1, n, clock, 0);
    PumpAppends(env, q1, n, clock, 0);
    TakeSplits(q2.sound.fifo, n);
    TakeSane(env, q2, n, Wrap(q2.playPos + n));
  }

  /** `getData` returns exactly `n` samples: the head of the FIFO while playing,
      otherwise what was left of it, padded with zeros. */
  lemma GetDataDelivers(env: Codecs, q: Queue, n: nat, need: nat, rate: int, clock: nat -> Word)
    requires Sane(q) && Framed(env) && Bounded(env, q.sound) && n + env.maxFrame <= FIFO_MAX
    ensures
      var (q', out) := GetData(env, q, n, need, rate, clock);
      var (q1, plays) := Prepare(q, need, rate);
      && Sane(q') && Bounded(env, q'.sound) && |out| == n
      && SameOrFlushed(q.sound, q1.sound) && SlotsOk(q1.table)
      && out + q'.sound.fifo == (if plays then Pump(env, q1, n, clock, 0).sound.fifo
                                 else q1.sound.fifo + Zeros(n - |q1.sound.fifo|))
  {
    var (q1, plays) := Prepare(q, need, rate);
    PrepareSound(q, need, rate);
    if plays {
      PlayingDelivers(env, q, n, need, rate, clock);
    } else {
      assert Sane(q1) by { PrepareSane(q, need, rate); }
      TakeSplits(q1.sound.fifo, n);
      TakeSane(env, q1, n, 0);
    }
  }

  // ----- whole runs

  datatype Op =
    | Receive(ts: Word, s: Half, data: seq<Byte>, codec: Option<CodecId>, now: Word)
    | Fetch(n: nat, need: nat, clock: nat -> Word)

  ghost predicate Fits(env: Codecs, op: Op) {
    op.Fetch? ==> op.n + env.maxFrame <= FIFO_MAX
  }

  ghost function Apply(env: Codecs, rate: int, q: Queue, op: Op): Queue
    requires SlotsOk(q.table)
  {
    match op
    case Receive(ts, s, data, codec, now) => AddPack(q, ts, s, data, codec, now).0
    case Fetch(n, need, clock) => GetData(env, q, n, need, rate, clock).0
  }

  lemma AddPackSound(q: Queue, ts: Word, s: Half, data: seq<Byte>, codec: Option<CodecId>, now: Word)
    ensures AddPack(q, ts, s, data, codec, now).0.sound == q.sound
    ensures AddPack(q, ts, s, data, codec, now).0.play == q.play
  {
  }

  lemma ApplyKeeps(env: Codecs, rate: int, q: Queue, op: Op)
    requires Framed(env) && Sane(q) && Bounded(env, q.sound) && Fits(env, op)
    ensures Sane(Apply(env, rate, q, op)) && Bounded(env, Apply(env, rate, q, op).sound)
  {
    hide AddPack, GetData, Prepare;
    match op
    case Receive(ts, s, data, codec, now) =>
      AddPackSane(q, ts, s, data, codec, now);
      AddPackSound(q, ts, s, data, codec, now);
    case Fetch(n, need, clock) =>
      GetDataDelivers(env, q, n, need, rate, clock);
  }

  /** Any mix of packets and requests keeps the books, the links, the stored payloads
      and the bounds. */
  ghost function Run(env: Codecs, rate: int, q: Queue, ops: seq<Op>): (r: Queue)
    requires Framed(env) && Sane(q) && Bounded(env, q.sound)
    requires forall i :: 0 <= i < |ops| ==> Fits(env, ops[i])
    ensures Sane(r) && Bounded(env, r.sound)
  {
    if ops == [] then q
    else
      var q1 := Run(env, rate, q, ops[..|ops| - 1]);
      ApplyKeeps(env, rate, q1, ops[|ops| - 1]);
      hide *;
      Apply(env, rate, q1, ops[|ops| - 1])
  }

  lemma InitialBounded(buf: Ring, play: Word, prevCodec: Option<CodecId>, fed: seq<Feed>, env: Codecs)
    ensures Bounded(env, Initial(buf, play, prevCodec, fed).sound)
  {
  }

  /** Since construction `bytesUsed()` is the sum of the lengths of the in-use slots,
      each of which sits at its number modulo 1024 and keeps its 16-bit number. */
  lemma RunAccounting(env: Codecs, rate: int, buf: Ring, play: Word, prevCodec: Option<CodecId>, fed: seq<Feed>,
                      ops: seq<Op>)
    requires Framed(env)
    requires forall i :: 0 <= i < |ops| ==> Fits(env, ops[i])
    ensures
      var q0 := Initial(buf, play, prevCodec, fed);
      && Sane(q0) && Bounded(env, q0.sound)
      && var t := Run(env, rate, q0, ops).table;
      && t.mem.allocBytes - t.mem.relBytes == Total(t.slots, Used)
      && forall i :: 0 <= i < SLOTS && t.slots[i].inUse ==>
           t.slots[i].ext % SLOTS == i && t.slots[i].seqRec == t.slots[i].ext % 0x1_0000
  {
    InitialSane(buf, play, prevCodec, fed);
    InitialBounded(buf, play, prevCodec, fed, env);
    var t := Run(env, rate, Initial(buf, play, prevCodec, fed), ops).table;
    forall i | 0 <= i < SLOTS && t.slots[i].inUse
      ensures t.slots[i].ext % SLOTS == i && t.slots[i].seqRec == t.slots[i].ext % 0x1_0000
    {
      assert SlotOk(t.slots[i], i);
    }
  }

  // ----- reset

  lemma {:induction false} ClearedSlots(t: Table, k: nat)
    requires k <= SLOTS
    ensures forall i :: 0 <= i < k ==> !Cleared(t, k).slots[i].inUse
    ensures forall i :: k <= i < SLOTS ==> Cleared(t, k).slots[i] == t.slots[i]
  {
    if k == 0 {
    } else {
      ClearedSlots(t, k - 1);
    }
  }

  /** The loop of `reset()` misses the last slot, so the books balance afterwards if
      and only if that slot holds no bytes. */
  lemma ResetAccounting(q: Queue)
    requires SlotsOk(q.table)
    ensures
      var last := q.table.slots[SLOTS - 1];
      Accounted(Reset(q).table) <==> !last.inUse || last.len == 0
  {
    var t, last := Reset(q).table, q.table.slots[SLOTS - 1];
    ClearedSlots(q.table, SLOTS - 1);
    assert SlotOk(last, SLOTS - 1);
    var front := t.slots[..SLOTS - 1];
    TotalOfIdle(front, Used);
    assert Total(t.slots, Used) == Total(front, Used) + Used(last);
    assert SlotsOk(t);
  }

  /** ... and the queue is as good as new if and only if that slot is not in use. */
  lemma ResetSane(q: Queue)
    requires SlotsOk(q.table)
    ensures Sane(Reset(q)) <==> !q.table.slots[SLOTS - 1].inUse
  {
    ResetAccounting(q);
    ClearedSlots(q.table, SLOTS - 1);
    var q' := Reset(q);
    if Sane(q') {
      assert LinkedSlot(q'.table.slots[SLOTS - 1], LastAt(q'.accepted, SLOTS - 1), q'.accepted, q'.stores);
    }
  }

  lemma {:induction false} ClearedMemory(t: Table, k: nat)
    requires k <= SLOTS
    ensures Cleared(t, k).mem.buf == t.mem.buf
    ensures forall i :: 0 <= i < k ==> Cleared(t, k).slots[i].ext == NO_SEQ
  {
    if k == 0 {
    } else {
      ClearedMemory(t, k - 1);
    }
  }

  /** After a reset the queue is as constructed, but for the rollover counter, which goes on
      to the next epoch, the numbers left in the slots, and the last slot. */
  lemma ResetIsConstruction(q: Queue)
    ensures
      var q' := Reset(q);
      && q' == Initial(q.table.mem.buf, q.play, q.sound.prevCodec, q.sound.fed).(
                 table := Table(q'.table.slots, Memory(q.table.mem.buf, 0, 0, 0)), roc := Rollover.Restart(q.roc))
      && q'.table.slots[1023] == q.table.slots[1023]
      && forall k {:trigger q'.table.slots[k]} :: 0 <= k < 1023 ==>
           !q'.table.slots[k].inUse && q'.table.slots[k].ext == 0xFFFF_FFFF
  {
    ClearedSlots(q.table, SLOTS - 1);
    ClearedMemory(q.table, SLOTS - 1);
    hide Cleared, Rollover.Restart;
  }

  lemma SaneSlotsOk(q: Queue)
    requires Sane(q)
    ensures SlotsOk(q.table)
  {
  }

  /** The failing state is within easy reach: one packet with number 1023 mod 1024. */
  lemma ResetForgets(buf: Ring, play: Word, prevCodec: Option<CodecId>, fed: seq<Feed>, c: CodecId)
    ensures
      var q := AddPack(Initial(buf, play, prevCodec, fed), 5, 1023, [7], Some(c), 0).0;
      Sane(q) && !Accounted(Reset(q).table) && !Sane(Reset(q))
  {
    var q0 := Initial(buf, play, prevCodec, fed);
    var q := AddPack(q0, 5, 1023, [7], Some(c), 0).0;
    InitialSane(buf, play, prevCodec, fed);
    AddPackSane(q0, 5, 1023, [7], Some(c), 0);
    Rollover.UnwrapLowBits(q0.roc, 1023);
    hide Sane, Reset, Accounted, Rollover.Unwrap, Rollover.Looked, Rollover.Accept;
    assert q.table.slots[SLOTS - 1].inUse && q.table.slots[SLOTS - 1].len == 1;
    assert SlotsOk(q.table) by { SaneSlotsOk(q); }
    ResetAccounting(q);
    ResetSane(q);
  }

  // ----- what the decoders are given

  /** The packet waiting in slot `i`, as it was received. */
  ghost predicate Holds(s: Slot, accepted: seq<Arrival>, stores: seq<Store>, i: nat) {
    var last := LastAt(accepted, i);
    && last.Some? && accepted[last.value].ext == s.ext && accepted[last.value].codec == s.codec
    && accepted[last.value].store < |stores|
  }

  function Original(accepted: seq<Arrival>, stores: seq<Store>, i: nat): Store
    requires LastAt(accepted, i).Some? && accepted[LastAt(accepted, i).value].store < |stores|
  {
    stores[accepted[LastAt(accepted, i).value].store]
  }

  /** As long as at most 158 data packets were stored after it, a waiting packet still
      has the bytes it came with. */
  lemma PayloadIsOriginal(t: Table, accepted: seq<Arrival>, stores: seq<Store>, i: nat)
    requires SlotsOk(t) && Linked(t, accepted, stores) && Intact(t.mem.buf, stores)
    requires i < SLOTS && IsOK(t.slots[i])
    ensures Holds(t.slots[i], accepted, stores, i)
    ensures |stores| - accepted[LastAt(accepted, i).value].store <= 159 ==>
      Payload(t, t.slots[i]) == Original(accepted, stores, i).data
  {
    assert LinkedSlot(t.slots[i], LastAt(accepted, i), accepted, stores);
    var j := accepted[LastAt(accepted, i).value].store;
    if |stores| - j <= 159 {
      assert Readable(t.mem.buf, stores[j]);
    }
  }

  lemma FedAfter(env: Codecs, s: Sound, t: Table, cur: Slot, after: Slot, next: Option<Slot>, n: nat)
    ensures
      var s' := Sounded(env, s, t, cur, after, next, n);
      s'.played != s.played ==>
        IsOK(cur) && s'.played == s.played + [cur.ext] && s'.fed == s.fed + [Feed(cur.codec.value, Payload(t, cur))]
  {
  }

  /** A packet that is decoded with at most 158 data packets stored after it reaches
      its decoder byte for byte as it was received. */
  lemma DecodedIsOriginal(env: Codecs, q: Queue, n: nat, now: Word)
    requires Sane(q)
    ensures
      var q', cur := DecodeNext(env, q, n, now), Look(q.table, q.play, now).1;
      q'.sound.played != q.sound.played ==>
        && q'.sound.played == q.sound.played + [q.play]
        && cur.ext == q.play && cur.codec.Some? && Holds(cur, q.accepted, q.stores, Idx(q.play))
        && (|q.stores| - q.accepted[LastAt(q.accepted, Idx(q.play)).value].store <= 159 ==>
              q'.sound.fed == q.sound.fed + [Feed(cur.codec.value, Original(q.accepted, q.stores, Idx(q.play)).data)])
  {
    var (t, cur, next) := Look(q.table, q.play, now);
    DecodeNextEffect(env, q, n, now);
    LookNumber(q.table, q.play, now);
    FedAfter(env, q.sound, t, cur, t.slots[Idx(q.play + 1)], next, n);
    if IsOK(cur) {
      assert SlotsOk(t) && Frees(q.table, t) by { LookFrees(q.table, q.play, now); }
      assert Linked(t, q.accepted, q.stores) by { FreesKeepsLinked(q.table, t, q.accepted, q.stores); }
      PayloadIsOriginal(t, q.accepted, q.stores, Idx(q.play));
    }
  }

  // ----- order

  /** Anything that happens between two re-synchronisations. */
  datatype Step =
    | Arrive(ts: Word, s: Half, data: seq<Byte>, codec: Option<CodecId>, now: Word)
    | Play(n: nat, tick: Word)
    | Deliver(k: nat)

  function Do(env: Codecs, q: Queue, step: Step): Queue {
    match step
    case Arrive(ts, s, data, codec, now) => AddPack(q, ts, s, data, codec, now).0
    case Play(n, tick) => DecodeNext(env, q, n, tick)
    case Deliver(k) => Take(q, k)
  }

  function Walk(env: Codecs, q: Queue, steps: seq<Step>): Queue
    decreases |steps|
  {
    if steps == [] then q else Walk(env, Do(env, q, steps[0]), steps[1..])
  }

  function Plays(steps: seq<Step>): nat {
    if steps == [] then 0 else (if steps[0].Play? then 1 else 0) + Plays(steps[1..])
  }

  ghost predicate Increasing(offs: seq<nat>, bound: nat) {
    && (forall i, j :: 0 <= i < j < |offs| ==> offs[i] < offs[j])
    && (forall i :: 0 <= i < |offs| ==> offs[i] < bound)
  }

  function Numbered(play: Word, offs: seq<nat>): seq<Word> {
    seq(|offs|, i requires 0 <= i < |offs| => Wrap(play + offs[i]))
  }

  function Moved(offs: seq<nat>): seq<nat> {
    seq(|offs|, i requires 0 <= i < |offs| => offs[i] + 1)
  }

  lemma NumberedNext(play: Word, offs: seq<nat>)
    ensures Numbered(Wrap(play + 1), offs) == Numbered(play, Moved(offs))
  {
    forall i | 0 <= i < |offs|
      ensures Wrap(Wrap(play + 1) + offs[i]) == Wrap(play + (offs[i] + 1))
    {
      WrapCongruent(Wrap(play + 1) + offs[i], play + (offs[i] + 1), -((play + 1) / 0x1_0000_0000));
    }
  }

  /** The offsets of a run that starts one position earlier. */
  lemma OffsetsBefore(play: Word, rest: seq<nat>, bound: nat, first: bool) returns (offs: seq<nat>)
    requires Increasing(rest, bound)
    ensures Increasing(offs, bound + 1)
    ensures Numbered(play, offs) == (if first then [play] else []) + Numbered(Wrap(play + 1), rest)
  {
    NumberedNext(play, rest);
    offs := Moved(rest);
    if first {
      offs := [0] + Moved(rest);
      assert Numbered(play, offs) == [play] + Numbered(play, Moved(rest));
    }
  }

  lemma PlayStep(env: Codecs, q: Queue, n: nat, now: Word)
    ensures var q' := DecodeNext(env, q, n, now);
      && q'.play == Wrap(q.play + 1)
      && (q'.sound.played == q.sound.played || q'.sound.played == q.sound.played + [q.play])
  {
    var (t, cur, next) := Look(q.table, q.play, now);
    DecodeNextEffect(env, q, n, now);
    LookNumber(q.table, q.play, now);
    PlayedAfter(env, q.sound, t, cur, t.slots[Idx(q.play + 1)], next, n);
  }

  lemma NoOffsets(play: Word)
    ensures Increasing([], 0) && Numbered(play, []) == []
  {
  }

  lemma DoOther(env: Codecs, q: Queue, step: Step)
    requires !step.Play?
    ensures Do(env, q, step).sound.played == q.sound.played && Do(env, q, step).play == q.play
  {
    if step.Arrive? {
      AddPackSound(q, step.ts, step.s, step.data, step.codec, step.now);
    }
  }

  lemma DoPlayed(env: Codecs, q: Queue, step: Step)
    ensures
      var q' := Do(env, q, step);
      if step.Play? then
        && q'.play == Wrap(q.play + 1)
        && (q'.sound.played == q.sound.played || q'.sound.played == q.sound.played + [q.play])
      else q'.sound.played == q.sound.played && q'.play == q.play
  {
    if step.Play? {
      PlayStep(env, q, step.n, step.tick);
      hide DecodeNext;
    } else {
      DoOther(env, q, step);
      hide Do;
    }
  }

  lemma PlayFirst(before: seq<Word>, after: seq<Word>, play: Word, bound: nat, rest: seq<nat>) returns (offs: seq<nat>)
    requires after == before || after == before + [play]
    requires Increasing(rest, bound)
    ensures Increasing(offs, bound + 1)
    ensures after + Numbered(Wrap(play + 1), rest) == before + Numbered(play, offs)
  {
    offs := OffsetsBefore(play, rest, bound, after != before);
    assert (before + [play]) + Numbered(Wrap(play + 1), rest) == before + ([play] + Numbered(Wrap(play + 1), rest));
  }

  /** Between re-synchronisations the numbers handed to the decoders are strictly
      increasing offsets, fewer than the steps played, from the play position. */
  lemma {:induction false} InOrder(env: Codecs, q: Queue, steps: seq<Step>) returns (offs: seq<nat>)
    ensures Increasing(offs, Plays(steps))
    ensures Walk(env, q, steps).sound.played == q.sound.played + Numbered(q.play, offs)
    decreases |steps|
  {
    hide Do, Numbered, Increasing, Wrap;
    if steps == [] {
      offs := [];
      NoOffsets(q.play);
    } else {
      var q1 := Do(env, q, steps[0]);
      var rest := InOrder(env, q1, steps[1..]);
      DoPlayed(env, q, steps[0]);
      if steps[0].Play? {
        offs := PlayFirst(q.sound.played, q1.sound.played, q.play, Plays(steps[1..]), rest);
      } else {
        offs := rest;
      }
    }
  }

  lemma NotEnoughBefore(env: Codecs, q: Queue, n: nat, now: Word, rest: seq<Step>)
    requires |q.sound.fifo| < n
    requires forall m :: 0 <= m < |rest| ==> |Walk(env, DecodeNext(env, q, n, now), rest[..m]).sound.fifo| < n
    ensures forall m :: 0 <= m <= |rest| ==> |Walk(env, q, ([Play(n, now)] + rest)[..m]).sound.fifo| < n
  {
    hide DecodeNext;
    var steps := [Play(n, now)] + rest;
    forall m | 0 <= m <= |rest|
      ensures |Walk(env, q, steps[..m]).sound.fifo| < n
    {
      if m > 0 {
        assert steps[..m][0] == Play(n, now) && steps[..m][1..] == rest[..m - 1];
      }
    }
  }

  lemma {:induction false} PumpSuffices(env: Codecs, q: Queue, n: nat, clock: nat -> Word, k: nat)
    requires SlotsOk(q.table)
    ensures n <= |Pump(env, q, n, clock, k).sound.fifo|
    decreases InUse(q.table), Credit(q.sound), Missing(q.sound, n)
  {
    hide DecodeNext, SlotsOk;
    if n <= |q.sound.fifo| {
    } else {
      Progress(env, q, n, clock(k));
      DecodeNextFrees(env, q, n, clock(k));
      PumpSuffices(env, DecodeNext(env, q, n, clock(k)), n, clock, k + 1);
    }
  }

  /** The `i`-th step reads the clock for the `k + i`-th time. */
  ghost predicate Ticking(steps: seq<Step>, n: nat, clock: nat -> Word, k: nat) {
    forall i :: 0 <= i < |steps| ==> steps[i] == Play(n, clock(k + i))
  }

  lemma {:induction false} TickingPlays(steps: seq<Step>, n: nat, clock: nat -> Word, k: nat)
    requires Ticking(steps, n, clock, k)
    ensures Plays(steps) == |steps|
    decreases |steps|
  {
    if steps == [] {
    } else {
      assert steps[0] == Play(n, clock(k + 0));
      TickingPlays(steps[1..], n, clock, k + 1);
    }
  }

  lemma NothingTicks(n: nat, clock: nat -> Word, k: nat)
    ensures Ticking([], n, clock, k)
  {
  }

  lemma TicksBefore(rest: seq<Step>, n: nat, clock: nat -> Word, k: nat)
    requires Ticking(rest, n, clock, k + 1)
    ensures Ticking([Play(n, clock(k))] + rest, n, clock, k)
  {
    forall i | 0 <= i <= |rest|
      ensures ([Play(n, clock(k))] + rest)[i] == Play(n, clock(k + i))
    {
      if i > 0 {
        assert rest[i - 1] == Play(n, clock(k + 1 + (i - 1)));
      }
    }
  }

  lemma WalkFirst(env: Codecs, q: Queue, step: Step, rest: seq<Step>)
    ensures Walk(env, q, [step] + rest) == Walk(env, Do(env, q, step), rest)
  {
    hide Do;
    assert ([step] + rest)[1..] == rest;
  }

  lemma {:induction false} PumpSteps(env: Codecs, q: Queue, n: nat, clock: nat -> Word, k: nat)
    returns (steps: seq<Step>)
    requires SlotsOk(q.table)
    ensures Pump(env, q, n, clock, k) == Walk(env, q, steps) && Ticking(steps, n, clock, k)
    ensures forall m :: 0 <= m < |steps| ==> |Walk(env, q, steps[..m]).sound.fifo| < n
    decreases InUse(q.table), Credit(q.sound), Missing(q.sound, n)
  {
    hide DecodeNext, SlotsOk, Ticking, InUse, Credit, Missing;
    steps := [];
    if n <= |q.sound.fifo| {
      NothingTicks(n, clock, k);
    } else {
      Progress(env, q, n, clock(k));
      DecodeNextFrees(env, q, n, clock(k));
      var q1 := DecodeNext(env, q, n, clock(k));
      var rest := PumpSteps(env, q1, n, clock, k + 1);
      steps := [Play(n, clock(k))] + rest;
      TicksBefore(rest, n, clock, k);
      WalkFirst(env, q, Play(n, clock(k)), rest);
      NotEnoughBefore(env, q, n, clock(k), rest);
      hide Walk;
    }
  }

  /** The loop of `getData` is a row of such steps, each with the next tick of the clock, and
      ends as soon as there are enough samples. */
  lemma PumpIsWalk(env: Codecs, q: Queue, n: nat, clock: nat -> Word, k: nat) returns (steps: seq<Step>)
    requires SlotsOk(q.table)
    ensures Pump(env, q, n, clock, k) == Walk(env, q, steps)
    ensures Plays(steps) == |steps| && forall i :: 0 <= i < |steps| ==> steps[i] == Play(n, clock(k + i))
    ensures n <= |Walk(env, q, steps).sound.fifo|
    ensures forall m :: 0 <= m < |steps| ==> |Walk(env, q, steps[..m]).sound.fifo| < n
  {
    hide Pump, Walk, Plays, SlotsOk;
    steps := PumpSteps(env, q, n, clock, k);
    TickingPlays(steps, n, clock, k);
    PumpSuffices(env, q, n, clock, k);
  }

  // ----- at most once

  lemma {:induction false} EarlierAccept(a: seq<Arrival>, x: Word, j: nat) returns (i: nat)
    requires j <= |a| && Accepts(a[..j], x) >= 1
    ensures i < j && a[i].ext == x
    decreases j
  {
    assert a[..j][..j - 1] == a[..j - 1];
    if a[j - 1].ext == x {
      i := j - 1;
    } else {
      i := EarlierAccept(a, x, j - 1);
    }
  }

  lemma {:induction false} LatestTwo(a: seq<Arrival>, x: Word, n: nat) returns (i: nat, j: nat)
    requires n <= |a| && Accepts(a[..n], x) >= 2
    ensures i < j < n && a[i].ext == x && a[j].ext == x
    decreases n
  {
    assert a[..n][..n - 1] == a[..n - 1];
    if a[n - 1].ext == x {
      j := n - 1;
      i := EarlierAccept(a, x, j);
    } else {
      i, j := LatestTwo(a, x, n - 1);
    }
  }

  /** In any run since construction or a clean reset, a number is decoded twice only if it
      was accepted twice, with another number taking its slot in between. */
  lemma DecodedTwiceMeansTakenOver(q: Queue, x: Word) returns (i: nat, j: nat)
    requires Sane(q) && multiset(q.sound.played)[x] >= 2
    ensures i < j < |q.accepted| && q.accepted[i].ext == x == q.accepted[j].ext && TakenOver(q.accepted, i, j)
  {
    var a := q.accepted;
    assert multiset(q.sound.played)[x] + Waiting(q.table, x) <= Accepts(a, x);
    assert a[..|a|] == a;
    i, j := LatestTwo(a, x, |a|);
  }
}
