/** The claim the queue exists for: arrival order and duplicates cannot be heard. */
module QueueAnyOrder {
  import opened Width
  import opened RingAllocator
  import opened QueueModel
  import opened QueueInvariants
  import opened QueuePlayback
  import opened QueueReorder
  import opened QueueReplay
  import opened QueueAlike

  // ----- what getData keeps

  /** Some slots were given back, and what was received is as before. */
  ghost predicate GaveBack(q: Queue, q': Queue) {
    Frees(q.table, q'.table) && q'.roc == q.roc && q'.stores == q.stores && q'.lastRecv == q.lastRecv
  }

  lemma FindBestGivesBack(q: Queue, need: nat)
    requires SlotsOk(q.table)
    ensures GaveBack(q, FindBest(q, need).0) && SlotsOk(FindBest(q, need).0.table)
  {
    var c := Choice(q, need);
    if c.Some? {
      ReleaseBehindFrees(q.table, c.value, BEHIND);
    }
    hide Choice, ReleaseBehind;
  }

  lemma GaveBackTwice(a: Queue, b: Queue, c: Queue)
    requires GaveBack(a, b) && GaveBack(b, c)
    ensures GaveBack(a, c)
  {
    FreesTransitive(a.table, b.table, c.table);
    hide Frees;
  }

  lemma ResyncGivesBack(q: Queue, need: nat)
    requires SlotsOk(q.table)
    ensures GaveBack(q, Resync(q, need)) && SlotsOk(Resync(q, need).table)
  {
    FindBestGivesBack(q, need);
    hide FindBest, Frees, SlotsOk;
  }

  lemma TrimGivesBack(q: Queue, si: int, need: nat, rate: int)
    requires SlotsOk(q.table)
    ensures GaveBack(q, Trim(q, si, need, rate)) && SlotsOk(Trim(q, si, need, rate).table)
  {
    FindBestGivesBack(q, need);
    assert Frees(q.table, q.table);
    hide FindBest, Frees, SlotsOk;
  }

  lemma PositionedGivesBack(q: Queue, need: nat, rate: int)
    requires SlotsOk(q.table)
    ensures GaveBack(q, Positioned(q, need, rate).0) && SlotsOk(Positioned(q, need, rate).0.table)
  {
    assert Frees(q.table, q.table);
    hide Resync, SamplesIn, SlotsOk, Frees;
    ResyncGivesBack(q, need);
    var q1 := if !q.canPlay then Resync(q, need) else q;
    ResyncGivesBack(q1, need);
    GaveBackTwice(q, q1, Resync(q1, need));
  }

  lemma PrepareGivesBack(q: Queue, need: nat, rate: int)
    requires SlotsOk(q.table)
    ensures GaveBack(q, Prepare(q, need, rate).0) && SlotsOk(Prepare(q, need, rate).0.table)
  {
    hide Positioned, Trim, SlotsOk, Frees;
    PositionedGivesBack(q, need, rate);
    var (q2, si) := Positioned(q, need, rate);
    var q3 := q2.(resetPos := false, waiting := 0);
    assert GaveBack(q, q3);
    TrimGivesBack(q2, si, need, rate);
    TrimGivesBack(q3, si, need, rate);
    GaveBackTwice(q, q2, Trim(q2, si, need, rate));
    GaveBackTwice(q, q3, Trim(q3, si, need, rate));
    hide GaveBack;
  }

  lemma StepGivesBack(env: Codecs, q: Queue, n: nat, now: Word)
    requires Sane(q)
    ensures GaveBack(q, DecodeNext(env, q, n, now)) && Sane(DecodeNext(env, q, n, now))
  {
    DecodeNextFrees(env, q, n, now);
    DecodeNextSane(env, q, n, now);
    DecodeNextEffect(env, q, n, now);
    hide DecodeNext, Frees;
  }

  lemma {:induction false} PumpGivesBack(env: Codecs, q: Queue, n: nat, clock: nat -> Word, k: nat)
    requires Sane(q)
    ensures SlotsOk(q.table) && GaveBack(q, Pump(env, q, n, clock, k)) && Sane(Pump(env, q, n, clock, k))
    decreases InUse(q.table), Credit(q.sound), Missing(q.sound, n)
  {
    SaneSlotsOk(q);
    hide DecodeNext, Sane, SlotsOk;
    if n <= |q.sound.fifo| {
    } else {
      Progress(env, q, n, clock(k));
      StepGivesBack(env, q, n, clock(k));
      PumpGivesBack(env, DecodeNext(env, q, n, clock(k)), n, clock, k + 1);
      GaveBackTwice(q, DecodeNext(env, q, n, clock(k)), Pump(env, DecodeNext(env, q, n, clock(k)), n, clock, k + 1));
    }
  }

  lemma TakenSane(q: Queue, n: nat, pos: Word)
    requires Sane(q)
    ensures Sane(Take(q, n)) && Sane(Take(q, n).(playPos := pos))
  {
  }

  /** A call of `getData` keeps the invariant and only gives slots back. */
  lemma GetDataGivesBack(env: Codecs, q: Queue, n: nat, need: nat, rate: int, clock: nat -> Word)
    requires Sane(q)
    ensures SlotsOk(q.table)
    ensures
      var q' := GetData(env, q, n, need, rate, clock).0;
      GaveBack(q, q') && Sane(q')
  {
    SaneSlotsOk(q);
    PrepareGivesBack(q, need, rate);
    PrepareSane(q, need, rate);
    hide Prepare, Sane, SlotsOk, Frees;
    var q1 := Prepare(q, need, rate).0;
    TakenSane(q1, n, 0);
    if Prepare(q, need, rate).1 {
      PumpGivesBack(env, q1, n, clock, 0);
      var q2 := Pump(env, q1, n, clock, 0);
      GaveBackTwice(q, q1, q2);
      TakenSane(q2, n, Wrap(q2.playPos + n));
    }
  }

  // ----- rounds

  /** One call of `getData`. */
  datatype Request = Request(n: nat, need: nat, clock: nat -> Word)

  /** What arrives before a call of `getData`, and the call. */
  datatype Round = Round(ds: seq<Delivery>, r: Request)

  ghost predicate AllInBurst(rounds: seq<Round>, n: nat) {
    forall k :: 0 <= k < |rounds| ==> InBurst(rounds[k].ds, n)
  }

  /** The samples delivered over the rounds. */
  ghost function Heard(env: Codecs, rate: int, q: Queue, packets: seq<Packet>, first: int, rounds: seq<Round>):
    seq<Sample>
    requires Sane(q) && AllInBurst(rounds, |packets|)
    decreases |rounds|
  {
    if rounds == [] then []
    else
      var (ds, r) := (rounds[0].ds, rounds[0].r);
      ReceiveAllSane(q, packets, first, ds);
      var q1 := ReceiveAll(q, packets, first, ds);
      GetDataGivesBack(env, q1, r.n, r.need, rate, r.clock);
      var (q2, out) := GetData(env, q1, r.n, r.need, rate, r.clock);
      hide Sane;
      out + Heard(env, rate, q2, packets, first, rounds[1..])
  }

  /** Every tick a call reads. */
  ghost function Ticks(rounds: seq<Round>): iset<Word> {
    iset k: nat, i: nat | k < |rounds| :: rounds[k].r.clock(i)
  }

  /** No tick lies between the ends of the 6 seconds of two arrivals of one packet. */
  ghost predicate SameAges(ds1: seq<Delivery>, ds2: seq<Delivery>, ticks: iset<Word>) {
    forall k, l :: 0 <= k < |ds1| && 0 <= l < |ds2| && ds1[k].index == ds2[l].index ==>
      SameAge(Wrap(ds1[k].at), Wrap(ds2[l].at), ticks)
  }

  ghost predicate SameRound(a: Round, b: Round, n: nat, ticks: iset<Word>) {
    && a.r == b.r && (forall i: nat :: a.r.clock(i) in ticks)
    && InBurst(a.ds, n) && InBurst(b.ds, n) && Indices(a.ds) == Indices(b.ds) && SameAges(a.ds, b.ds, ticks)
  }

  /** The same calls, and before each the same packets in any order with any repeats. */
  ghost predicate SameRounds(a: seq<Round>, b: seq<Round>, n: nat, ticks: iset<Word>) {
    |a| == |b| && forall k :: 0 <= k < |a| ==> SameRound(a[k], b[k], n, ticks)
  }

  // ----- two queues that received the same packets

  lemma WhichShifted(base1: int, base2: int, k: nat)
    requires (base2 - base1) % 0x1_0000 == 0
    ensures Which(base1, k) == Which(base2, k)
  {
    IdxPlus(k - base2, (base2 - base1) / 0x1_0000 * 64);
    assert (base2 - base1) == (base2 - base1) / 0x1_0000 * 0x1_0000;
    hide Idx;
  }

  ghost predicate StoresIntact(q: Queue) {
    |q.stores| <= 159 && Intact(q.table.mem.buf, q.stores)
  }

  lemma CarriesAlike(q1: Queue, q2: Queue, p: Packet, x1: int, x2: int, s1: Slot, s2: Slot, ticks: iset<Word>)
    requires Carries(s1, q1.stores, p, x1) && Carries(s2, q2.stores, p, x2) && StoresIntact(q1) && StoresIntact(q2)
    requires (x2 - x1) % 0x1_0000 == 0 && s1.inUse == s2.inUse
    requires s1.inUse ==> SameAge(s1.received, s2.received, ticks)
    ensures AlikeSlot(q1.table, q2.table, s1, s2, x2 - x1, ticks)
  {
    PayloadCarried(q1, p, x1, s1);
    PayloadCarried(q2, p, x2, s2);
    assert s2.ext == Wrap(s1.ext + (x2 - x1));
    hide Carries, SameAge;
  }

  lemma SlotHeld(q: Queue, q0: Queue, packets: seq<Packet>, base: int, got: set<nat>, k: nat)
    requires Fresh(q0) && Holding(q, q0, packets, base, got) && k < SLOTS
    ensures
      var i := Which(base, k);
      if i in got then i < |packets| && Carries(q.table.slots[k], q.stores, packets[i], base + i)
      else q.table.slots[k] == q0.table.slots[k] && !q.table.slots[k].inUse
  {
    HoldingAt(q, q0, packets, base, got, k);
    hide Carries, Which;
  }

  lemma CameTogether(s1: Slot, s2: Slot, ds1: seq<Delivery>, ds2: seq<Delivery>, i: nat, ticks: iset<Word>)
    requires CameIn(s1, ds1, i) && CameIn(s2, ds2, i) && SameAges(ds1, ds2, ticks)
    ensures SameAge(s1.received, s2.received, ticks)
  {
    hide SameAge;
  }

  lemma UseAlike(q1: Queue, q2: Queue, was1: Queue, was2: Queue, base1: int, base2: int, added: set<nat>,
                 ds1: seq<Delivery>, ds2: seq<Delivery>, k: nat, ticks: iset<Word>)
    requires Filled(q1, was1, base1, added, ds1) && Filled(q2, was2, base2, added, ds2) && SameAges(ds1, ds2, ticks)
    requires AlikeTable(was1.table, was2.table, base2 - base1, ticks) && (base2 - base1) % 0x1_0000 == 0 && k < SLOTS
    ensures
      var s1, s2 := q1.table.slots[k], q2.table.slots[k];
      s1.inUse == s2.inUse && (s1.inUse ==> SameAge(s1.received, s2.received, ticks))
  {
    FilledAt(q1, was1, base1, added, ds1, k);
    FilledAt(q2, was2, base2, added, ds2, k);
    WhichShifted(base1, base2, k);
    SlotAt(was1.table, was2.table, k, base2 - base1, ticks);
    if Which(base1, k) in added {
      CameTogether(q1.table.slots[k], q2.table.slots[k], ds1, ds2, Which(base1, k), ticks);
    }
    hide SameAge, CameIn, Which, AlikeTable, Filled;
  }

  /** Both queues hold the same packets, under numbers of their own. */
  ghost predicate Held(q: Queue, q0: Queue, packets: seq<Packet>, base: int, got: set<nat>) {
    Fresh(q0) && Holding(q, q0, packets, base, got) && StoresIntact(q)
  }

  lemma OneSlotAlike(q1: Queue, q2: Queue, q0: Queue, packets: seq<Packet>, base1: int, base2: int, got: set<nat>,
                     k: nat, ticks: iset<Word>)
    requires Held(q1, q0, packets, base1, got) && Held(q2, q0, packets, base2, got)
    requires (base2 - base1) % 0x1_0000 == 0 && k < SLOTS
    requires
      var s1, s2 := q1.table.slots[k], q2.table.slots[k];
      s1.inUse == s2.inUse && (s1.inUse ==> SameAge(s1.received, s2.received, ticks))
    ensures AlikeSlot(q1.table, q2.table, q1.table.slots[k], q2.table.slots[k], base2 - base1, ticks)
  {
    SlotHeld(q1, q0, packets, base1, got, k);
    SlotHeld(q2, q0, packets, base2, got, k);
    WhichShifted(base1, base2, k);
    hide Which, SameAge, Carries, Holding, Fresh, StoresIntact;
    var i := Which(base1, k);
    if i in got {
      CarriesAlike(q1, q2, packets[i], base1 + i, base2 + i, q1.table.slots[k], q2.table.slots[k], ticks);
      assert (base2 + i) - (base1 + i) == base2 - base1;
    }
  }

  /** The newest number is that of the last packet, in sequence order, that has come. */
  ghost predicate Newest(q1: Queue, q2: Queue, base1: int, base2: int, got: set<nat>) {
    if got == {} then q1.lastRecv == 0 == q2.lastRecv
    else (q1.lastRecv as int) - base1 == (q2.lastRecv as int) - base2 && (q1.lastRecv as int) - base1 in got
  }

  lemma NewestAfter(q1: Queue, q2: Queue, was1: Queue, was2: Queue, base1: int, base2: int, got: set<nat>,
                    ds: set<nat>)
    requires Rest(q1, was1, base1, ds - got) && Rest(q2, was2, base2, ds - got)
    requires Newest(was1, was2, base1, base2, got) && 0 < base1 && 0 < base2
    ensures Newest(q1, q2, base1, base2, got + ds)
  {
    var o1: int, o2: int := q1.lastRecv - base1, q2.lastRecv - base2;
    if ds - got == {} {
      assert ds <= got by {
        forall i | i in ds
          ensures i in got
        {
          assert i in got || i in ds - got;
        }
      }
      assert got + ds == got;
    } else {
      var i :| i in ds - got;
      assert o1 in got + ds && o2 in got + ds;
      assert o1 <= o2 && o2 <= o1;
    }
  }

  /** The two queues may disagree on the play position as long as neither can play. */
  ghost predicate Matched(q1: Queue, q2: Queue, shift: int, ticks: iset<Word>) {
    && AlikeTable(q1.table, q2.table, shift, ticks) && AlikeSound(q1.sound, q2.sound) && Flags(q1, q2)
    && (q1.canPlay ==> Renumbered(q1.play, q2.play, shift))
  }

  lemma MatchedAfter(q1: Queue, q2: Queue, was1: Queue, was2: Queue, base1: int, base2: int, added: set<nat>,
                     shift: int, ticks: iset<Word>)
    requires Rest(q1, was1, base1, added) && Rest(q2, was2, base2, added) && Matched(was1, was2, shift, ticks)
    requires AlikeTable(q1.table, q2.table, shift, ticks)
    ensures Matched(q1, q2, shift, ticks)
  {
    hide AlikeTable, AlikeSound, Renumbered;
  }

  lemma IntactStores(q: Queue, q0: Queue, packets: seq<Packet>, base: int, got: set<nat>)
    requires Sane(q) && Holding(q, q0, packets, base, got) && Burst(packets)
    ensures StoresIntact(q)
  {
    AtMost(got, |packets|);
  }

  ghost predicate Pair(q1: Queue, q2: Queue, q0: Queue, packets: seq<Packet>, base1: int, base2: int, got: set<nat>,
                       ticks: iset<Word>) {
    && Sane(q1) && Sane(q2) && Fresh(q0) && Burst(packets) && (base2 - base1) % 0x1_0000 == 0
    && Holding(q1, q0, packets, base1, got) && Holding(q2, q0, packets, base2, got)
    && Matched(q1, q2, base2 - base1, ticks) && Newest(q1, q2, base1, base2, got)
  }

  lemma AlikeIf(t1: Table, t2: Table, shift: int, ticks: iset<Word>)
    requires forall k {:trigger t1.slots[k]} {:trigger t2.slots[k]} :: 0 <= k < SLOTS ==>
      AlikeSlot(t1, t2, t1.slots[k], t2.slots[k], shift, ticks)
    ensures AlikeTable(t1, t2, shift, ticks)
  {
  }

  /** Two queues that look alike still do when the same packets reach them in different
      orders. */
  lemma ReceivedAlike(q1: Queue, q2: Queue, was1: Queue, was2: Queue, q0: Queue, packets: seq<Packet>, base1: int,
                      base2: int, got: set<nat>, ds1: seq<Delivery>, ds2: seq<Delivery>, ticks: iset<Word>)
    requires Pair(was1, was2, q0, packets, base1, base2, got, ticks) && Sane(q1) && Sane(q2)
    requires Arrived(q1, was1, q0, packets, base1, got, ds1) && Arrived(q2, was2, q0, packets, base2, got, ds2)
    requires Indices(ds1) == Indices(ds2) && SameAges(ds1, ds2, ticks) && 0 < base1 && 0 < base2
    ensures Pair(q1, q2, q0, packets, base1, base2, got + Indices(ds1), ticks)
  {
    hide Sane, Holding, Filled, Rest, Indices, SameAges, AlikeTable, AlikeSlot, Newest, Flags, AlikeSound, RocState;
    hide Fresh;
    var all, added := got + Indices(ds1), Indices(ds1) - got;
    IntactStores(q1, q0, packets, base1, all);
    IntactStores(q2, q0, packets, base2, all);
    assert Held(q1, q0, packets, base1, all) && Held(q2, q0, packets, base2, all);
    forall k {:trigger q1.table.slots[k]} {:trigger q2.table.slots[k]} | 0 <= k < SLOTS
      ensures AlikeSlot(q1.table, q2.table, q1.table.slots[k], q2.table.slots[k], base2 - base1, ticks)
    {
      UseAlike(q1, q2, was1, was2, base1, base2, added, ds1, ds2, k, ticks);
      OneSlotAlike(q1, q2, q0, packets, base1, base2, all, k, ticks);
    }
    AlikeIf(q1.table, q2.table, base2 - base1, ticks);
    MatchedAfter(q1, q2, was1, was2, base1, base2, added, base2 - base1, ticks);
    NewestAfter(q1, q2, was1, was2, base1, base2, got, Indices(ds1));
  }

  // ----- calls in between

  lemma StillCarries(s: Slot, s': Slot, stores: seq<Store>, p: Packet, x: int)
    requires Carries(s, stores, p, x) && FreedSlot(s, s')
    ensures Carries(s', stores, p, x)
  {
    var j: nat :| InStore(s, stores, p.payload, j);
    assert InStore(s', stores, p.payload, j);
  }

  lemma HoldingAfter(q: Queue, q': Queue, q0: Queue, packets: seq<Packet>, base: int, got: set<nat>)
    requires Fresh(q0) && Holding(q, q0, packets, base, got) && GaveBack(q, q')
    ensures Holding(q', q0, packets, base, got)
  {
    hide Carries, Which;
    forall k {:trigger q'.table.slots[k]} | 0 <= k < SLOTS
      ensures SlotState(q'.table.slots[k], q0.table.slots[k], q'.stores, packets, base, got, k)
    {
      HoldingAt(q, q0, packets, base, got, k);
      assert FreedSlot(q.table.slots[k], q'.table.slots[k]);
      assert !q0.table.slots[k].inUse;
      if Which(base, k) in got {
        StillCarries(q.table.slots[k], q'.table.slots[k], q.stores, packets[Which(base, k)], base + Which(base, k));
      }
    }
  }

  lemma MatchedIsAlike(q1: Queue, q2: Queue, base1: int, base2: int, got: set<nat>, ticks: iset<Word>)
    requires Matched(q1, q2, base2 - base1, ticks) && Newest(q1, q2, base1, base2, got) && got != {}
    requires (base2 - base1) % 0x1_0000 == 0
    ensures Alike(q1, q2, base2 - base1, ticks)
  {
    hide AlikeTable, AlikeSound;
    assert q2.lastRecv == Wrap(q1.lastRecv + (base2 - base1));
  }

  lemma AlikeIsMatched(q1: Queue, q2: Queue, shift: int, ticks: iset<Word>)
    requires AlikePlaying(q1, q2, shift, ticks)
    ensures Matched(q1, q2, shift, ticks)
  {
    hide AlikeTable, AlikeSound, Renumbered;
  }

  lemma MatchedPlay(q1: Queue, q2: Queue, shift: int, ticks: iset<Word>)
    requires Matched(q1, q2, shift, ticks)
    ensures q1.canPlay ==> Renumbered(q1.play, q2.play, shift)
  {
  }

  lemma NewestStill(q1: Queue, q2: Queue, a1: Queue, a2: Queue, base1: int, base2: int, got: set<nat>)
    requires Newest(q1, q2, base1, base2, got) && a1.lastRecv == q1.lastRecv && a2.lastRecv == q2.lastRecv
    ensures Newest(a1, a2, base1, base2, got)
  {
  }

  /** One call of both queues. */
  lemma CallAlike(env: Codecs, rate: int, q1: Queue, q2: Queue, q0: Queue, packets: seq<Packet>, base1: int,
                  base2: int, got: set<nat>, r: Request, ticks: iset<Word>)
    requires Pair(q1, q2, q0, packets, base1, base2, got, ticks) && got != {} && forall i: nat :: r.clock(i) in ticks
    ensures SlotsOk(q1.table) && SlotsOk(q2.table)
    ensures
      var a1, a2 := GetData(env, q1, r.n, r.need, rate, r.clock), GetData(env, q2, r.n, r.need, rate, r.clock);
      && a1.1 == a2.1 && Pair(a1.0, a2.0, q0, packets, base1, base2, got, ticks)
      && a1.0.roc == q1.roc && a2.0.roc == q2.roc
  {
    hide Sane, Holding, Matched, Newest, GetData, SlotsOk, Fresh, Frees, Alike, AlikePlaying;
    GetDataGivesBack(env, q1, r.n, r.need, rate, r.clock);
    GetDataGivesBack(env, q2, r.n, r.need, rate, r.clock);
    MatchedIsAlike(q1, q2, base1, base2, got, ticks);
    MatchedPlay(q1, q2, base2 - base1, ticks);
    GetDataAlike(env, q1, q2, r.n, r.need, rate, r.clock, base2 - base1, ticks);
    var a1, a2 := GetData(env, q1, r.n, r.need, rate, r.clock).0, GetData(env, q2, r.n, r.need, rate, r.clock).0;
    HoldingAfter(q1, a1, q0, packets, base1, got);
    HoldingAfter(q2, a2, q0, packets, base2, got);
    AlikeIsMatched(a1, a2, base2 - base1, ticks);
    NewestStill(q1, q2, a1, a2, base1, base2, got);
  }

  // ----- before anything has come

  lemma {:induction false} NothingToChoose(slots: Slots, newest: Word, from: Word, need: nat, cnt: nat)
    requires forall k :: 0 <= k < SLOTS ==> !slots[k].inUse
    ensures Best(slots, newest, from, need, cnt).0.None?
  {
    if cnt == 0 {
    } else {
      NothingToChoose(slots, newest, from, need, cnt - 1);
    }
  }

  lemma FreshResync(q: Queue, need: nat)
    requires Fresh(q)
    ensures var q' := Resync(q, need); q'.table == q.table && !q'.canPlay && q'.resetPos
  {
    NothingToChoose(q.table.slots, q.table.slots[Idx(q.lastRecv)].ts, Wrap(q.lastRecv - WindowSize(q, need)), need,
                    WindowSize(q, need));
    hide Best, WindowSize, Idx, Wrap, Diff;
  }

  lemma SameFresh(q: Queue, q': Queue)
    requires Fresh(q) && GaveBack(q, q') && Sane(q') && q'.table == q.table && !q'.canPlay
    ensures Fresh(q')
  {
    hide Sane, Frees;
  }

  lemma FreshPrepare(q: Queue, need: nat, rate: int)
    requires Fresh(q)
    ensures var (q', plays) := Prepare(q, need, rate); !plays && !q'.canPlay && q'.table == q.table
  {
    hide Resync, SamplesIn, Trim, Sane;
    assert !q.canPlay;
    FreshResync(q, need);
    var q1 := Resync(q, need);
    ResyncGivesBack(q, need) by { SaneSlotsOk(q); }
    assert Sane(q1) by { ResyncSane(q, need); }
    SameFresh(q, q1);
    FreshResync(q1, need);
    hide Fresh;
  }

  /** A queue in which nothing has come stays so. */
  lemma FreshStays(env: Codecs, q: Queue, n: nat, need: nat, rate: int, clock: nat -> Word)
    requires Fresh(q)
    ensures SlotsOk(q.table) && Fresh(GetData(env, q, n, need, rate, clock).0)
  {
    GetDataGivesBack(env, q, n, need, rate, clock);
    FreshPrepare(q, need, rate);
    hide Prepare, Sane, Frees, SlotsOk;
    SameFresh(q, GetData(env, q, n, need, rate, clock).0);
  }

  lemma FreshPair(q0: Queue, packets: seq<Packet>, base1: int, base2: int, ticks: iset<Word>)
    requires Fresh(q0) && Burst(packets) && (base2 - base1) % 0x1_0000 == 0
    ensures Pair(q0, q0, q0, packets, base1, base2, {}, ticks)
  {
    hide Sane, Renumbered;
  }

  // ----- any order

  lemma LaterRounds(a: seq<Round>, b: seq<Round>, n: nat, ticks: iset<Word>)
    requires SameRounds(a, b, n, ticks)
    ensures AllInBurst(a, n) && AllInBurst(b, n)
    ensures a != [] ==> SameRound(a[0], b[0], n, ticks) && SameRounds(a[1..], b[1..], n, ticks)
  {
    hide InBurst;
  }

  /** The numbers of both queues are known. */
  ghost predicate BothNumbered(q1: Queue, q2: Queue, first: int, base1: int, base2: int, n: nat) {
    && (base1 - first) % 0x1_0000 == 0 && 0 < base1 < 0x100_0000 && RocState(q1.roc, base1, n)
    && (base2 - first) % 0x1_0000 == 0 && 0 < base2 < 0x100_0000 && RocState(q2.roc, base2, n)
  }

  /** One round of both queues. */
  lemma RoundAlike(env: Codecs, rate: int, q1: Queue, q2: Queue, q0: Queue, packets: seq<Packet>, first: int,
                   base1: int, base2: int, got: set<nat>, a: Round, b: Round, ticks: iset<Word>)
    requires Pair(q1, q2, q0, packets, base1, base2, got, ticks) && SameRound(a, b, |packets|, ticks)
    requires NumbersKnown(q1, q0, first, base1, |packets|, got, a.ds)
    requires NumbersKnown(q2, q0, first, base2, |packets|, got, b.ds)
    requires got + Indices(a.ds) != {}
    ensures
      var c1, c2 := ReceiveAll(q1, packets, first, a.ds), ReceiveAll(q2, packets, first, b.ds);
      && Sane(c1) && Sane(c2) && SlotsOk(c1.table) && SlotsOk(c2.table)
      && var d1 := GetData(env, c1, a.r.n, a.r.need, rate, a.r.clock);
      var d2 := GetData(env, c2, b.r.n, b.r.need, rate, b.r.clock);
      && d1.1 == d2.1 && Pair(d1.0, d2.0, q0, packets, base1, base2, got + Indices(a.ds), ticks)
      && BothNumbered(d1.0, d2.0, first, base1, base2, |packets|)
  {
    hide Sane, Fresh, Holding, Matched, Newest, GetData, ReceiveAll, Indices, SameAges, RocState, Filled, Rest, SlotsOk;
    var c1, c2 := ReceiveAll(q1, packets, first, a.ds), ReceiveAll(q2, packets, first, b.ds);
    ReceiveAllHolds(q1, q0, packets, first, base1, got, a.ds);
    ReceiveAllHolds(q2, q0, packets, first, base2, got, b.ds);
    ReceiveAllSane(q1, packets, first, a.ds);
    ReceiveAllSane(q2, packets, first, b.ds);
    ReceivedAlike(c1, c2, q1, q2, q0, packets, base1, base2, got, a.ds, b.ds, ticks);
    CallAlike(env, rate, c1, c2, q0, packets, base1, base2, got + Indices(a.ds), a.r, ticks);
  }

  /** Once something has come. */
  lemma {:induction false} PairHeard(env: Codecs, rate: int, q1: Queue, q2: Queue, q0: Queue, packets: seq<Packet>,
                                     first: int, base1: int, base2: int, got: set<nat>, rounds1: seq<Round>,
                                     rounds2: seq<Round>, ticks: iset<Word>)
    requires Pair(q1, q2, q0, packets, base1, base2, got, ticks) && got != {}
    requires SameRounds(rounds1, rounds2, |packets|, ticks)
    requires BothNumbered(q1, q2, first, base1, base2, |packets|)
    ensures AllInBurst(rounds1, |packets|) && AllInBurst(rounds2, |packets|)
    ensures Heard(env, rate, q1, packets, first, rounds1) == Heard(env, rate, q2, packets, first, rounds2)
    decreases |rounds1|
  {
    LaterRounds(rounds1, rounds2, |packets|, ticks);
    hide Sane, Fresh, Holding, Matched, Newest, GetData, ReceiveAll, Indices, SameAges, RocState, SlotsOk, AllInBurst;
    if rounds1 == [] {
    } else {
      var a, b := rounds1[0], rounds2[0];
      RoundAlike(env, rate, q1, q2, q0, packets, first, base1, base2, got, a, b, ticks);
      var c1, c2 := ReceiveAll(q1, packets, first, a.ds), ReceiveAll(q2, packets, first, b.ds);
      var d1 := GetData(env, c1, a.r.n, a.r.need, rate, a.r.clock).0;
      var d2 := GetData(env, c2, b.r.n, b.r.need, rate, b.r.clock).0;
      PairHeard(env, rate, d1, d2, q0, packets, first, base1, base2, got + Indices(a.ds), rounds1[1..], rounds2[1..],
                ticks);
    }
  }

  lemma SameShift(q0: Queue, first: int, n: nat, ds1: seq<Delivery>, ds2: seq<Delivery>)
    requires Fresh(q0) && ds1 != [] && ds2 != [] && ds1[0].index < n <= 159 && ds2[0].index < n
    ensures (Base(q0, first, ds2) - Base(q0, first, ds1)) % 0x1_0000 == 0
    ensures NumbersKnown(q0, q0, first, Base(q0, first, ds1), n, {}, ds1)
    ensures NumbersKnown(q0, q0, first, Base(q0, first, ds2), n, {}, ds2)
  {
    hide Base, Fresh;
    BaseRange(q0, first, ds1);
    BaseRange(q0, first, ds2);
  }

  lemma NothingIndexed(ds: seq<Delivery>)
    ensures ds == [] <==> Indices(ds) == {}
  {
    if ds != [] {
      assert ds[0].index in Indices(ds);
    }
  }

  /** The first arrivals fix the numbers of both queues. */
  lemma FirstRound(env: Codecs, rate: int, q0: Queue, packets: seq<Packet>, first: int, rounds1: seq<Round>,
                   rounds2: seq<Round>, ticks: iset<Word>)
    requires Fresh(q0) && Burst(packets) && SameRounds(rounds1, rounds2, |packets|, ticks)
    requires rounds1 != [] && rounds1[0].ds != [] && rounds2[0].ds != []
    ensures AllInBurst(rounds1, |packets|) && AllInBurst(rounds2, |packets|)
    ensures Heard(env, rate, q0, packets, first, rounds1) == Heard(env, rate, q0, packets, first, rounds2)
  {
    LaterRounds(rounds1, rounds2, |packets|, ticks);
    hide Sane, Holding, Matched, Newest, GetData, ReceiveAll, Indices, SameAges, RocState, SlotsOk, AllInBurst, Base;
    hide Fresh, SameRounds, Pair;
    var a, b := rounds1[0], rounds2[0];
    var base1, base2 := Base(q0, first, a.ds), Base(q0, first, b.ds);
    NothingIndexed(a.ds);
    assert {} + Indices(a.ds) == Indices(a.ds);
    SameShift(q0, first, |packets|, a.ds, b.ds);
    FreshPair(q0, packets, base1, base2, ticks);
    RoundAlike(env, rate, q0, q0, q0, packets, first, base1, base2, {}, a, b, ticks);
    var c1, c2 := ReceiveAll(q0, packets, first, a.ds), ReceiveAll(q0, packets, first, b.ds);
    var d1 := GetData(env, c1, a.r.n, a.r.need, rate, a.r.clock).0;
    var d2 := GetData(env, c2, b.r.n, b.r.need, rate, b.r.clock).0;
    PairHeard(env, rate, d1, d2, q0, packets, first, base1, base2, {} + Indices(a.ds), rounds1[1..], rounds2[1..],
              ticks);
  }

  lemma {:induction false} FreshHeard(env: Codecs, rate: int, q0: Queue, packets: seq<Packet>, first: int,
                                      rounds1: seq<Round>, rounds2: seq<Round>, ticks: iset<Word>)
    requires Fresh(q0) && Burst(packets) && SameRounds(rounds1, rounds2, |packets|, ticks)
    ensures AllInBurst(rounds1, |packets|) && AllInBurst(rounds2, |packets|)
    ensures Heard(env, rate, q0, packets, first, rounds1) == Heard(env, rate, q0, packets, first, rounds2)
    decreases |rounds1|
  {
    LaterRounds(rounds1, rounds2, |packets|, ticks);
    hide Sane, Holding, Matched, Newest, GetData, Indices, SameAges, RocState, SlotsOk, AllInBurst, Base, Fresh;
    if rounds1 == [] {
    } else {
      var a, b := rounds1[0], rounds2[0];
      NothingIndexed(a.ds);
      NothingIndexed(b.ds);
      if a.ds == [] {
        FreshStays(env, q0, a.r.n, a.r.need, rate, a.r.clock);
        var d := GetData(env, q0, a.r.n, a.r.need, rate, a.r.clock).0;
        FreshHeard(env, rate, d, packets, first, rounds1[1..], rounds2[1..], ticks);
      } else {
        FirstRound(env, rate, q0, packets, first, rounds1, rounds2, ticks);
      }
    }
  }

  /** From a fresh queue, for any burst of up to 159 packets, any part of it that is not
      lost, any calls of `getData`, and any two ways for that part to arrive before and
      between the calls, the same packets before each call but in any order and with any
      repeats: the calls deliver the same samples, and what is lost is concealed alike.
      The calls are given the same recommended sample counts, and none of them reads the
      clock between the ends of the 6 seconds of two arrivals of one packet. */
  lemma ArrivalOrderIsInaudible(env: Codecs, rate: int, q0: Queue, packets: seq<Packet>, first: int,
                                rounds1: seq<Round>, rounds2: seq<Round>)
    requires Fresh(q0) && Burst(packets) && SameRounds(rounds1, rounds2, |packets|, Ticks(rounds1))
    ensures Sane(q0) && AllInBurst(rounds1, |packets|) && AllInBurst(rounds2, |packets|)
    ensures Heard(env, rate, q0, packets, first, rounds1) == Heard(env, rate, q0, packets, first, rounds2)
  {
    hide Heard, SameRounds, AllInBurst, Sane;
    FreshHeard(env, rate, q0, packets, first, rounds1, rounds2, Ticks(rounds1));
  }
}
