/** The state of the packet queue as a value, and what each operation does to it.
    The class `RtpQueue` is proved to do exactly these steps in place. */
module QueueModel {
  import opened Width
  import opened Wrappers
  import opened RingAllocator
  import Rollover

  const SLOTS: nat := 1024
  const MAX_LOST: nat := 300
  const FIFO_MAX: nat := 16000
  const BEHIND: nat := 255
  const NO_SEQ: Word := 0xFFFF_FFFF

  type CodecId = nat

  /** One payload handed to a decoder. */
  datatype Feed = Feed(codec: CodecId, payload: seq<Byte>)

  /** The decoders. What a call returns may depend on everything fed before, so a
      decoder may keep any state; `canDecode` also sees the room it is told of. */
  datatype Codecs = Codecs(
    canDecode: (CodecId, seq<Byte>, int) -> bool,
    hasPLC: CodecId -> bool,
    decode: (seq<Feed>, CodecId, seq<Byte>) -> seq<Sample>,
    maxFrame: nat)

  ghost predicate Framed(env: Codecs) {
    forall fed, c, p :: |env.decode(fed, c, p)| <= env.maxFrame
  }

  datatype Slot = Slot(
    inUse: bool, received: Word, ts: Word, ext: Word, seqRec: Half,
    codec: Option<CodecId>, len: nat, data: Option<nat>)

  const EMPTY_SLOT := Slot(false, 0, 0, 0, 0, None, 0, None)

  type Slots = s: seq<Slot> | |s| == SLOTS witness seq(SLOTS, _ => EMPTY_SLOT)

  datatype Memory = Memory(buf: Ring, pos: nat, allocBytes: nat, relBytes: nat)

  datatype Table = Table(slots: Slots, mem: Memory)

  /** Decoded samples and what concealment remembers. `played` lists the extended
      numbers of the packets decoded, `fed` every payload handed to a decoder. */
  datatype Sound = Sound(
    fifo: seq<Sample>, prevDecoded: nat, prevWasCN: bool, prevWasOK: bool,
    prevPack: seq<Byte>, prevCodec: Option<CodecId>, fed: seq<Feed>, played: seq<Word>)

  /** An accepted packet; a data packet is the `store`-th payload stored. */
  datatype Arrival = Arrival(ext: Word, codec: Option<CodecId>, store: nat)

  /** `accepted` and `stores` record the past; no branch reads them. */
  datatype Queue = Queue(
    table: Table, roc: Rollover.State, sound: Sound,
    play: Word, lastRecv: Word, lastPlay: Word, playPos: Word, bufferedTs: Word,
    waiting: nat, canPlay: bool, resetPos: bool, realData: bool, underflow: bool,
    accepted: seq<Arrival>, stores: seq<Store>)

  function Idx(x: int): (i: nat)
    ensures i < SLOTS
  {
    x % SLOTS
  }

  lemma IdxPlus(x: int, q: int)
    ensures Idx(x + q * SLOTS) == Idx(x)
  {
  }

  lemma IdxWrap(x: int)
    ensures Idx(Wrap(x)) == Idx(x)
  {
    var q := x / 0x1_0000_0000;
    assert x == q * 0x40_0000 * SLOTS + Wrap(x);
    IdxPlus(Wrap(x), q * 0x40_0000);
  }

  function Zeros(n: int): seq<Sample> {
    seq(if n < 0 then 0 else n, _ => 0)
  }

  // ----- slots

  function Release(t: Table, i: nat): Table
    requires i < SLOTS
  {
    var s := t.slots[i];
    if !s.inUse then t
    else Table(t.slots[i := s.(inUse := false)],
               if s.data.Some? then t.mem.(relBytes := t.mem.relBytes + s.len) else t.mem)
  }

  /** The bytes a slot points at; `QueueInvariants.SlotOk` keeps them inside the ring. */
  function Payload(t: Table, s: Slot): seq<Byte> {
    if s.data.Some? && s.data.value + s.len <= SIZE then t.mem.buf[s.data.value..s.data.value + s.len] else []
  }

  // ----- receiving

  function Stored(m: Memory, data: seq<Byte>): Memory {
    var off := Place(m.pos, |data|);
    m.(buf := if off + |data| <= SIZE then Written(m.buf, off, data) else m.buf,
       pos := off + |data|, allocBytes := m.allocBytes + |data|)
  }

  predicate Bad(data: seq<Byte>, codec: Option<CodecId>) {
    codec.Some? && (|data| > MAX_PACK || |data| < 1)
  }

  /** The table once a packet's payload is stored and its slot `i` filled in. */
  function Put(t: Table, i: nat, ts: Word, s: Half, ext: Word, data: seq<Byte>, codec: Option<CodecId>,
               now: Word): Table
    requires i < SLOTS
  {
    if codec.Some? then
      var off := Place(t.mem.pos, |data|);
      Table(t.slots[i := Slot(true, now, ts, ext, s, codec, |data|, Some(off))], Stored(t.mem, data))
    else t.(slots := t.slots[i := Slot(true, now, ts, ext, s, None, 0, t.slots[i].data)])
  }

  function Accepted(q: Queue, ts: Word, s: Half, ext: Word, data: seq<Byte>, codec: Option<CodecId>, now: Word): Queue {
    q.(table := Put(q.table, Idx(s), ts, s, ext, data, codec, now),
       roc := Rollover.Accept(q.roc, ext),
       lastRecv := if ext > q.lastRecv then ext else q.lastRecv,
       waiting := 0,
       realData := q.realData || codec.Some?,
       accepted := q.accepted + [Arrival(ext, codec, |q.stores|)],
       stores := if codec.Some? then q.stores + [Store(Place(q.table.mem.pos, |data|), data)] else q.stores)
  }

  function AddPack(q: Queue, ts: Word, s: Half, data: seq<Byte>, codec: Option<CodecId>, now: Word): (Queue, int) {
    var slot := q.table.slots[Idx(s)];
    if slot.inUse && slot.seqRec == s then (q, 0)
    else
      var ext := Rollover.Unwrap(q.roc, s).0;
      var q1 := q.(roc := Rollover.Looked(q.roc, s));
      if slot.ext == ext then (q1, 0)
      else
        var q2 := q1.(table := Release(q1.table, Idx(s)));
        if Bad(data, codec) then (q2, -1) else (Accepted(q2, ts, s, ext, data, codec, now), 0)
  }

  // ----- decoding

  /** Scan the slots after `from` starting at distance `i`, dropping what is older than 6 s. */
  function FindNext(t: Table, from: Word, i: nat, now: Word): (r: (Table, Option<nat>))
    ensures r.1.Some? ==> r.1.value < SLOTS
    decreases MAX_LOST + 1 - i
  {
    if i > MAX_LOST then (t, None)
    else
      var k := Idx(from + i);
      if !t.slots[k].inUse then FindNext(t, from, i + 1, now)
      else if Diff(now, t.slots[k].received) > 6000 then FindNext(Release(t, k), from, i + 1, now)
      else (t, Some(k))
  }

  function DropIfStale(t: Table, pos: Word): Table {
    var s := t.slots[Idx(pos)];
    if s.inUse && s.ext != pos then Release(t, Idx(pos)) else t
  }

  /** What the source looks at when it turns to position `play`: the table without
      expired and stale packets, the packet there, and the next one in the queue. */
  function Look(t: Table, play: Word, now: Word): (Table, Slot, Option<Slot>) {
    var (t0, next) := FindNext(t, play, 1, now);
    var t1 := DropIfStale(DropIfStale(t0, play), Wrap(play + 1));
    (t1, t1.slots[Idx(play)], if next.Some? then Some(t1.slots[next.value]) else None)
  }

  predicate IsOK(s: Slot) {
    s.inUse && s.codec.Some?
  }

  function Room(s: Sound): int {
    2 * (2 * FIFO_MAX - |s.fifo| - 100)
  }

  function Decode(env: Codecs, s: Sound, ext: Word, c: CodecId, p: seq<Byte>): Sound {
    if env.canDecode(c, p, Room(s)) then
      var out := env.decode(s.fed, c, p);
      Sound(s.fifo + out, |out|, false, true, p, Some(c), s.fed + [Feed(c, p)], s.played + [ext])
    else s.(prevWasCN := false, prevWasOK := false)
  }

  predicate CanReplay(env: Codecs, s: Sound, lost: bool, next: Option<Slot>) {
    s.prevWasOK && lost && |s.prevPack| > 0 && next.Some? && s.prevCodec.Some? && env.hasPLC(s.prevCodec.value)
  }

  function Replay(env: Codecs, s: Sound): Sound
    requires s.prevCodec.Some?
  {
    var c := s.prevCodec.value;
    var out := env.decode(s.fed, c, s.prevPack);
    s.(prevDecoded := |out|, fifo := s.fifo + out, fed := s.fed + [Feed(c, s.prevPack)])
  }

  function PadTo(fifo: seq<Sample>, n: nat): seq<Sample> {
    if n >= |fifo| then fifo + Zeros(n - |fifo|) else fifo[..n]
  }

  /** Comfort noise: silence until the next packet is due. */
  function Gap(s: Sound, cur: Slot, next: Slot): int {
    var b := Diff(next.ts, cur.ts);
    var b := if b < 0 then s.prevDecoded else b;
    if b + |s.fifo| > FIFO_MAX then FIFO_MAX - |s.fifo| else b
  }

  /** The samples in place of a missing packet: the last one again, or silence. */
  function FilledIn(env: Codecs, s: Sound, cur: Slot, after: Slot, next: Option<Slot>, n: nat): Sound {
    if CanReplay(env, s, !cur.inUse, next) then Replay(env, s)
    else if next.None? || !cur.inUse then
      if (!cur.inUse || after.inUse) && s.prevDecoded != 0 then s.(fifo := s.fifo + Zeros(s.prevDecoded))
      else s.(fifo := PadTo(s.fifo, n))
    else s.(fifo := s.fifo + Zeros(Gap(s, cur, next.value)))
  }

  /** No decodable packet. */
  function Conceal(env: Codecs, s: Sound, cur: Slot, after: Slot, next: Option<Slot>, n: nat): Sound {
    FilledIn(env, s, cur, after, next, n).(prevWasCN := cur.inUse, prevWasOK := false, prevPack := [])
  }

  function Sounded(env: Codecs, s: Sound, t: Table, cur: Slot, after: Slot, next: Option<Slot>, n: nat): Sound {
    if IsOK(cur) then Decode(env, s, cur.ext, cur.codec.value, Payload(t, cur))
    else Conceal(env, s, cur, after, next, n)
  }

  function DecodeNext(env: Codecs, q: Queue, n: nat, now: Word): Queue {
    var (t, cur, next) := Look(q.table, q.play, now);
    var after := t.slots[Idx(q.play + 1)];
    var sound := Sounded(env, q.sound, t, cur, after, next, n);
    var dry := !IsOK(cur) && next.None?;
    q.(table := Release(t, Idx(q.play)),
       sound := sound,
       play := Wrap(q.play + 1),
       lastPlay := if cur.inUse then cur.ext else q.lastPlay,
       bufferedTs :=
         if !cur.inUse then q.bufferedTs else if after.inUse then after.ts else Wrap(cur.ts + sound.prevDecoded),
       playPos := if cur.inUse then Wrap(cur.ts - |sound.fifo|) else q.playPos,
       underflow := !cur.inUse && next.None?,
       waiting := if dry then 1 else q.waiting,
       resetPos := dry || q.resetPos,
       canPlay := !dry && q.canPlay)
  }

  // ----- the sample FIFO

  function Taken(fifo: seq<Sample>, n: nat): seq<Sample> {
    if n <= |fifo| then fifo[..n] else fifo + Zeros(n - |fifo|)
  }

  function Left(fifo: seq<Sample>, n: nat): seq<Sample> {
    if n <= |fifo| then fifo[n..] else []
  }

  function Take(q: Queue, n: nat): Queue {
    q.(sound := q.sound.(fifo := Left(q.sound.fifo, n)))
  }

  // ----- choosing where to play

  function WindowSize(q: Queue, need: nat): nat {
    if q.table.slots[Idx(q.lastRecv)].ts == 0 || q.sound.prevDecoded == 0 then 20
    else need / q.sound.prevDecoded + 10
  }

  function Lag(slots: Slots, newest: Word, pos: Word): int {
    Diff(newest, slots[Idx(pos)].ts)
  }

  /** The best of the first `cnt` positions from `from`, with its distance from `need`. */
  function Best(slots: Slots, newest: Word, from: Word, need: nat, cnt: nat): (Option<Word>, int) {
    if cnt == 0 then (None, 2 * need + 2000)
    else
      var (best, bd) := Best(slots, newest, from, need, cnt - 1);
      var pos := Wrap(from + cnt - 1);
      var d := Lag(slots, newest, pos);
      if slots[Idx(pos)].inUse && d > 0 && Abs(d - need) < bd then (Some(pos), Abs(d - need)) else (best, bd)
  }

  function ReleaseBehind(t: Table, pos: Word, k: nat): Table {
    if k == 0 then t else Release(ReleaseBehind(t, pos, k - 1), Idx(pos - k))
  }

  function Choice(q: Queue, need: nat): Option<Word> {
    var cnt := WindowSize(q, need);
    Best(q.table.slots, q.table.slots[Idx(q.lastRecv)].ts, Wrap(q.lastRecv - cnt), need, cnt).0
  }

  function FindBest(q: Queue, need: nat): (Queue, bool) {
    match Choice(q, need)
    case Some(pos) =>
      (q.(table := ReleaseBehind(q.table, pos, BEHIND), play := pos, resetPos := true,
          playPos := q.table.slots[Idx(pos)].ts, sound := q.sound.(fifo := [])), true)
    case None =>
      (q.(resetPos := true, play := Wrap(q.lastRecv - 5),
          playPos := if q.playPos == 0 then Wrap(q.table.slots[Idx(q.lastRecv)].ts - need) else q.playPos), false)
  }

  // ----- delivering samples

  function SamplesIn(q: Queue, rate: int): int {
    if q.waiting == 2 || !q.realData then 0
    else
      var r := Diff(q.table.slots[Idx(q.lastRecv)].ts, q.playPos) + |q.sound.fifo|;
      if r < -rate * 4 then -rate * 4 else r
  }

  function Resync(q: Queue, need: nat): Queue {
    var (q1, ok) := FindBest(q, need);
    q1.(canPlay := ok, resetPos := true)
  }

  function Trim(q: Queue, si: int, need: nat, rate: int): Queue {
    if si > 4 * rate || si > 3 * rate + need then FindBest(q, need).0 else q
  }

  /** `getData` re-synchronises when it cannot play, or when the queue has run far dry. */
  function Positioned(q: Queue, need: nat, rate: int): (Queue, int) {
    var q1 := if !q.canPlay then Resync(q, need) else q;
    var si := SamplesIn(q1, rate);
    (if si < -rate then Resync(q1, need) else q1, si)
  }

  /** The decisions `getData` takes before it decodes; the flag says whether it plays. */
  function Prepare(q: Queue, need: nat, rate: int): (Queue, bool) {
    var (q2, si) := Positioned(q, need, rate);
    if q2.resetPos || q2.waiting != 0 || !q2.canPlay then
      if si < need || !q2.canPlay then (q2, false)
      else (Trim(q2.(resetPos := false, waiting := 0), si, need, rate), true)
    else (Trim(q2, si, need, rate), true)
  }

  // ----- construction and reset

  /** After the constructor: the table is zeroed and the rollover counter was restarted
      twice. The arguments stand for members the constructor leaves alone. */
  function Initial(buf: Ring, play: Word, prevCodec: Option<CodecId>, fed: seq<Feed>): Queue {
    Queue(Table(seq(SLOTS, _ => EMPTY_SLOT), Memory(buf, 0, 0, 0)), Rollover.State(2, 0x2_0000, false),
          Sound([], 0, false, false, [], prevCodec, fed, []),
          play, 0, 0, 0, 0, 2, false, true, false, false, [], [])
  }

  function Cleared(t: Table, k: nat): Table
    requires k <= SLOTS
  {
    if k == 0 then t
    else
      var t1 := Release(Cleared(t, k - 1), k - 1);
      t1.(slots := t1.slots[k - 1 := t1.slots[k - 1].(ext := NO_SEQ)])
  }

  /** `reset()`: its loop stops one slot short of the table. */
  function Reset(q: Queue): Queue {
    var t := Cleared(q.table, SLOTS - 1);
    Queue(t.(mem := Memory(t.mem.buf, 0, 0, 0)), Rollover.Restart(q.roc),
          Sound([], 0, false, false, [], q.sound.prevCodec, q.sound.fed, []),
          q.play, 0, 0, 0, 0, 2, false, true, false, false, [], [])
  }
}
