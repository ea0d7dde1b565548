/** The packet queue as the source keeps it: fixed tables and buffers updated in place.
    Every method is proved to take the state `View()` exactly where the step functions of
    `QueueModel` and `QueuePlayback` take it. */
module RtpQueue {
  import opened Width
  import opened Wrappers
  import RingAllocator
  import Rollover
  import opened QueueModel
  import opened QueueInvariants
  import opened QueuePlayback

  const PREV_PACK_MAX: nat := RingAllocator.MAX_PACK + 512

  /** The step of the search, with the position written as the loop reaches it. */
  lemma BestNext(slots: Slots, newest: Word, from: Word, need: nat, i: nat)
    ensures
      var (best, bd) := Best(slots, newest, from, need, i);
      var pos := Wrap(from + i);
      var d := Lag(slots, newest, pos);
      Best(slots, newest, from, need, i + 1) ==
        (if slots[Idx(pos)].inUse && d > 0 && Abs(d - need) < bd then (Some(pos), Abs(d - need)) else (best, bd))
  {
    assert from + (i + 1) - 1 == from + i;
  }

  class RtpQueue {
    const env: Codecs
    const mem: RingAllocator.MemBuf
    const roc: Rollover.Roc
    const qPack: array<Slot>
    const tmpSamples: array<Sample>
    const prevPackD: array<Byte>
    var samplesLeft: nat
    var prevPackLen: nat
    var prevCodec: Option<CodecId>
    var prevDecoded: nat
    var prevWasCN: bool
    var prevWasOK: bool
    var play: Word
    var lastRecv: Word
    var lastPlay: Word
    var playPos: Word
    var bufferedTs: Word
    var waiting: nat
    var canPlay: bool
    var resetPos: bool
    var realData: bool
    var underflow: bool
    var fed: seq<Feed>
    ghost var played: seq<Word>
    ghost var accepted: seq<Arrival>
    ghost var stores: seq<RingAllocator.Store>

    ghost predicate Valid()
      reads this, mem
    {
      && mem.Valid() && qPack.Length == SLOTS && tmpSamples.Length == FIFO_MAX && prevPackD.Length == PREV_PACK_MAX
      && prevPackD != mem.buf && samplesLeft <= FIFO_MAX && prevPackLen <= PREV_PACK_MAX
    }

    ghost function TableView(): Table
      requires mem.Valid() && qPack.Length == SLOTS
      reads mem, mem.buf, qPack
    {
      Table(qPack[..], Memory(mem.buf[..], mem.pos, mem.allocBytes, mem.relBytes))
    }

    ghost function SoundView(): Sound
      requires samplesLeft <= tmpSamples.Length && prevPackLen <= prevPackD.Length
      reads this`samplesLeft, this`prevDecoded, this`prevWasCN, this`prevWasOK, this`prevPackLen, this`prevCodec
      reads this`fed, this`played, tmpSamples, prevPackD
    {
      Sound(tmpSamples[..samplesLeft], prevDecoded, prevWasCN, prevWasOK, prevPackD[..prevPackLen], prevCodec,
            fed, played)
    }

    ghost function View(): Queue
      reads this, mem, mem.buf, qPack, roc, tmpSamples, prevPackD
      requires Valid()
    {
      Queue(TableView(), roc.View(), SoundView(), play, lastRecv, lastPlay, playPos, bufferedTs,
            waiting, canPlay, resetPos, realData, underflow, accepted, stores)
    }

    /** The constructor; `play`, `codec` and the call history stand for members it leaves
        uninitialised. */
    constructor (env: Codecs, play: Word, codec: Option<CodecId>, fed: seq<Feed>)
      ensures Valid() && fresh(mem) && fresh(mem.buf) && fresh(roc) && fresh(qPack) && fresh(tmpSamples)
      ensures fresh(prevPackD)
      ensures this.env == env && View() == Initial(View().table.mem.buf, play, codec, fed)
    {
      this.env := env;
      mem := new RingAllocator.MemBuf();
      var r := new Rollover.Roc();
      r.Reset();
      assert r.View() == Rollover.State(2, 0x2_0000, false);
      hide Rollover.Restart;
      roc := r;
      qPack := new Slot[SLOTS](_ => EMPTY_SLOT);
      tmpSamples := new Sample[FIFO_MAX](_ => 0);
      prevPackD := new Byte[PREV_PACK_MAX](_ => 0);
      samplesLeft, prevPackLen, prevCodec, prevDecoded := 0, 0, codec, 0;
      prevWasCN, prevWasOK := false, false;
      this.play, lastRecv, lastPlay, playPos, bufferedTs := play, 0, 0, 0, 0;
      waiting, canPlay, resetPos, realData, underflow := 2, false, true, false, false;
      this.fed, played, accepted, stores := fed, [], [], [];
      new;
      assert qPack[..] == seq(SLOTS, _ => EMPTY_SLOT);
    }

    /** `relPack` */
    method RelPack(i: nat)
      requires Valid() && i < SLOTS
      modifies qPack, mem`relBytes
      ensures Valid() && TableView() == Release(old(TableView()), i)
    {
      if !qPack[i].inUse {
        return;
      }
      var s := qPack[i];
      qPack[i] := s.(inUse := false);
      if s.data.Some? {
        mem.RelBytes(s.len);
      }
    }

    /** `bytesUsed` of the memory: while the books balance, what the slots in use hold. */
    method BytesUsed() returns (n: int)
      requires Valid() && Accounted(TableView())
      ensures n == Total(TableView().slots, Used)
    {
      n := mem.BytesUsed();
    }

    /** `findNext` */
    method FindNextPacket(from: Word, now: Word) returns (next: Option<nat>)
      requires Valid()
      modifies qPack, mem`relBytes
      ensures Valid()
      ensures (TableView(), next) == FindNext(old(TableView()), from, 1, now)
      ensures next.Some? ==> next.value < SLOTS
    {
      for i := 1 to MAX_LOST + 1
        invariant Valid()
        invariant FindNext(TableView(), from, i, now) == FindNext(old(TableView()), from, 1, now)
      {
        var k := Idx(from + i);
        if qPack[k].inUse {
          if Diff(now, qPack[k].received) > 6000 {
            RelPack(k);
          } else {
            return Some(k);
          }
        }
      }
      return None;
    }

    /** The copy into the ring. */
    method CopyIn(off: nat, data: seq<Byte>)
      requires Valid() && off + |data| <= RingAllocator.SIZE
      modifies mem.buf
      ensures mem.buf[..] == RingAllocator.Written(old(mem.buf[..]), off, data)
    {
      forall k | 0 <= k < |data| {
        mem.buf[off + k] := data[k];
      }
    }

    /** Room for a payload, and the copy; a payload of an accepted size always fits. */
    method StorePayload(data: seq<Byte>) returns (off: nat)
      requires Valid() && 1 <= |data| <= RingAllocator.MAX_PACK
      modifies this`stores, mem, mem.buf
      ensures Valid() && off == RingAllocator.Place(old(mem.pos), |data|)
      ensures TableView() == old(TableView()).(mem := Stored(old(TableView()).mem, data))
      ensures stores == old(stores) + [RingAllocator.Store(off, data)]
    {
      var pData := mem.GetBuf(|data|);
      off := pData.value;
      CopyIn(off, data);
      stores := stores + [RingAllocator.Store(off, data)];
    }

    /** The part of `addPack` that copies the payload, if any, and fills the slot. */
    method FillSlot(ts: Word, s: Half, ext: Word, data: seq<Byte>, codec: Option<CodecId>, now: Word)
      requires Valid() && !Bad(data, codec)
      modifies this`stores, mem, mem.buf, qPack
      ensures Valid() && TableView() == Put(old(TableView()), Idx(s), ts, s, ext, data, codec, now)
      ensures
        var store := RingAllocator.Store(RingAllocator.Place(old(mem.pos), |data|), data);
        stores == (if codec.Some? then old(stores) + [store] else old(stores))
    {
      var i := Idx(s);
      if codec.Some? {
        var off := StorePayload(data);
        qPack[i] := Slot(true, now, ts, ext, s, codec, |data|, Some(off));
      } else {
        qPack[i] := Slot(true, now, ts, ext, s, None, 0, qPack[i].data);
      }
      hide Stored, RingAllocator.Place;
    }

    method NoteRoc(ext: Word)
      requires Valid()
      modifies roc
      ensures Valid() && View() == old(View()).(roc := Rollover.Accept(old(View()).roc, ext))
    {
      hide Rollover.Accept;
      roc.UpdateRocSeq(ext);
    }

    /** The rest of `addPack` once no check speaks against the packet. */
    method Accept(ts: Word, s: Half, ext: Word, data: seq<Byte>, codec: Option<CodecId>, now: Word)
      requires Valid() && !Bad(data, codec)
      modifies this, mem, mem.buf, qPack, roc
      ensures Valid()
      ensures View() == Accepted(old(View()), ts, s, ext, data, codec, now)
    {
      hide Put, RingAllocator.Place, Idx, Rollover.Accept, Bad;
      Note(ext, codec);
      NoteRoc(ext);
      FillSlot(ts, s, ext, data, codec, now);
    }

    method Note(ext: Word, codec: Option<CodecId>)
      requires Valid()
      modifies this`realData, this`lastRecv, this`waiting, this`accepted
      ensures Valid()
      ensures View() == old(View()).(
        realData := old(realData) || codec.Some?, waiting := 0,
        lastRecv := if ext > old(lastRecv) then ext else old(lastRecv),
        accepted := old(accepted) + [Arrival(ext, codec, |stores|)])
    {
      hide TableView, SoundView;
      if codec.Some? {
        realData := true;
      }
      if ext > lastRecv {
        lastRecv := ext;
      }
      waiting := 0;
      accepted := accepted + [Arrival(ext, codec, |stores|)];
    }

    /** `addPack` */
    method AddPacket(ts: Word, s: Half, data: seq<Byte>, codec: Option<CodecId>, now: Word) returns (r: int)
      requires Valid()
      modifies this, mem, mem.buf, qPack, roc
      ensures Valid()
      ensures (View(), r) == AddPack(old(View()), ts, s, data, codec, now)
    {
      var i := Idx(s);
      if qPack[i].inUse && qPack[i].seqRec == s {
        return 0;
      }
      var ext := roc.RolSeq(s);
      if qPack[i].ext == ext {
        return 0;
      }
      RelPack(i);
      if codec.Some? && |data| > RingAllocator.MAX_PACK {
        return -1;
      }
      if codec.Some? && |data| < 1 {
        return -1;
      }
      Accept(ts, s, ext, data, codec, now);
      return 0;
    }

    // ----- samples

    method Append(out: seq<Sample>)
      requires Valid() && samplesLeft + |out| <= FIFO_MAX
      modifies this`samplesLeft, tmpSamples
      ensures Valid() && samplesLeft == old(samplesLeft) + |out|
      ensures tmpSamples[..samplesLeft] == old(tmpSamples[..samplesLeft]) + out
    {
      forall k | 0 <= k < |out| {
        tmpSamples[samplesLeft + k] := out[k];
      }
      samplesLeft := samplesLeft + |out|;
    }

    method RememberPack(p: seq<Byte>, c: CodecId)
      requires Valid() && |p| <= PREV_PACK_MAX
      modifies this`prevPackLen, this`prevCodec, prevPackD
      ensures Valid() && prevPackD[..prevPackLen] == p && prevCodec == Some(c)
    {
      forall k | 0 <= k < |p| {
        prevPackD[k] := p[k];
      }
      prevPackLen, prevCodec := |p|, Some(c);
    }

    /** The samples copied out, with zeros behind them if they are too few. */
    method CopyHead(s: array<Sample>, n: nat) returns (cnt: nat)
      requires Valid() && n <= s.Length && s != tmpSamples
      modifies s
      ensures cnt == if n > samplesLeft then samplesLeft else n
      ensures s[..n] == Taken(tmpSamples[..samplesLeft], n) && s[n..] == old(s[n..])
    {
      cnt := n;
      if cnt > samplesLeft {
        cnt := samplesLeft;
        forall k | cnt <= k < n {
          s[k] := 0;
        }
      }
      if cnt > 0 {
        forall k | 0 <= k < cnt {
          s[k] := tmpSamples[k];
        }
      }
      assert forall k :: 0 <= k < n ==> s[k] == Taken(tmpSamples[..samplesLeft], n)[k];
    }

    /** The samples behind those moved to the front. */
    method MoveUp(n: nat, cnt: nat)
      requires Valid() && cnt == if n > samplesLeft then samplesLeft else n
      modifies this`samplesLeft, tmpSamples
      ensures Valid() && tmpSamples[..samplesLeft] == Left(old(tmpSamples[..samplesLeft]), n)
    {
      samplesLeft := samplesLeft - cnt;
      if samplesLeft > 0 {
        forall k | 0 <= k < samplesLeft {
          tmpSamples[k] := tmpSamples[n + k];
        }
      }
      assert forall k :: 0 <= k < samplesLeft ==> tmpSamples[k] == old(tmpSamples[..samplesLeft])[n + k];
      assert tmpSamples[..samplesLeft] == Left(old(tmpSamples[..samplesLeft]), n);
    }

    /** `copySamplesFromTmpBuf` */
    method CopySamples(s: array<Sample>, n: nat)
      requires Valid() && n <= s.Length && s != tmpSamples
      modifies this`samplesLeft, tmpSamples, s
      ensures Valid()
      ensures s[..n] == Taken(old(tmpSamples[..samplesLeft]), n) && s[n..] == old(s[n..])
      ensures tmpSamples[..samplesLeft] == Left(old(tmpSamples[..samplesLeft]), n)
    {
      hide Taken, Left;
      var cnt := CopyHead(s, n);
      ghost var out, fifo := s[..], tmpSamples[..samplesLeft];
      MoveUp(n, cnt);
      assert s[..] == out;
    }

    // ----- choosing where to play

    /** How far back `findBestDecodePack` searches. */
    method Window(need: nat) returns (cnt: nat)
      requires Valid()
      ensures cnt == WindowSize(View(), need)
    {
      cnt := if qPack[Idx(lastRecv)].ts == 0 || prevDecoded == 0 then 20 else need / prevDecoded + 10;
    }

    /** The search loop of `findBestDecodePack`. */
    method Search(tsRecv: Word, from: Word, need: nat, cnt: nat) returns (best: Option<Word>)
      requires Valid()
      ensures best == Best(TableView().slots, tsRecv, from, need, cnt).0
    {
      hide Idx, Diff, Wrap;
      var pos := Wrap(from);
      var bd: int := need * 2 + 2000;
      best := None;
      for i := 0 to cnt
        invariant pos == Wrap(from + i)
        invariant Best(TableView().slots, tsRecv, from, need, i) == (best, bd)
      {
        BestNext(TableView().slots, tsRecv, from, need, i);
        if qPack[Idx(pos)].inUse {
          var d := Diff(tsRecv, qPack[Idx(pos)].ts);
          var cd := Abs(d - need);
          if d > 0 && cd < bd {
            bd, best := cd, Some(pos);
          }
        }
        WrapPlus(from + i, 1);
        pos := Wrap(pos as int + 1);
      }
    }

    method ChooseBest(need: nat) returns (best: Option<Word>)
      requires Valid()
      ensures best == Choice(View(), need)
    {
      var cnt := Window(need);
      best := Search(qPack[Idx(lastRecv)].ts, Wrap(lastRecv - cnt), need, cnt);
      hide WindowSize, Best, Idx, Wrap;
    }

    /** The releasing loop of `findBestDecodePack`. */
    method RelBehind(pos: Word)
      requires Valid()
      modifies qPack, mem`relBytes
      ensures Valid() && TableView() == ReleaseBehind(old(TableView()), pos, BEHIND)
    {
      var p := pos;
      for i := 0 to BEHIND
        invariant Valid() && p == Wrap(pos - i)
        invariant TableView() == ReleaseBehind(old(TableView()), pos, i)
      {
        WrapPlus(pos - i, -1);
        p := Wrap(p as int - 1);
        IdxWrap(pos - (i + 1));
        RelPack(Idx(p));
      }
    }

    /** Throws the decoded samples away. */
    method Flush()
      requires Valid()
      modifies this`samplesLeft
      ensures Valid() && SoundView() == old(SoundView()).(fifo := [])
    {
      samplesLeft := 0;
      assert tmpSamples[..samplesLeft] == [];
    }

    lemma SlotRead(i: nat)
      requires Valid() && i < SLOTS
      ensures TableView().slots[i] == qPack[i]
    {
    }

    /** ... when a packet was found, */
    method PlayFrom(best: Word)
      requires Valid()
      modifies this`play, this`resetPos, this`playPos, this`samplesLeft, qPack, mem`relBytes
      ensures Valid()
      ensures View() == old(View()).(
        table := ReleaseBehind(old(TableView()), best, BEHIND), play := best, resetPos := true,
        playPos := old(TableView()).slots[Idx(best)].ts, sound := old(SoundView()).(fifo := []))
    {
      hide ReleaseBehind, Idx, TableView, SoundView;
      SlotRead(Idx(best));
      resetPos := true;
      play := best;
      playPos := qPack[Idx(play)].ts;
      Flush();
      RelBehind(play);
    }

    /** ... and when none was. */
    method WaitFor(need: nat)
      requires Valid()
      modifies this`play, this`resetPos, this`playPos
      ensures Valid()
      ensures View() == old(View()).(
        resetPos := true, play := Wrap(lastRecv - 5),
        playPos :=
          if old(playPos) == 0 then Wrap(TableView().slots[Idx(lastRecv)].ts - need) else old(playPos))
    {
      hide TableView, SoundView, Idx, Wrap;
      SlotRead(Idx(lastRecv));
      resetPos := true;
      if playPos == 0 {
        playPos := Wrap(qPack[Idx(lastRecv)].ts - need);
      }
      play := Wrap(lastRecv - 5);
    }

    /** `findBestDecodePack` */
    method FindBestDecodePack(need: nat) returns (ok: bool)
      requires Valid()
      modifies this`play, this`resetPos, this`playPos, this`samplesLeft, qPack, mem`relBytes
      ensures Valid() && (View(), ok) == FindBest(old(View()), need)
    {
      var best := ChooseBest(need);
      hide Choice, ReleaseBehind, Idx, Wrap, TableView, SoundView;
      if best.Some? {
        PlayFrom(best.value);
        return true;
      }
      WaitFor(need);
      return false;
    }

    // ----- decoding

    /** The bytes a slot points at. */
    method PayloadOf(i: nat) returns (p: seq<Byte>)
      requires Valid() && i < SLOTS && IsOK(qPack[i]) && SlotOk(qPack[i], i)
      ensures p == Payload(TableView(), qPack[i]) && |p| <= RingAllocator.MAX_PACK
    {
      p := mem.buf[qPack[i].data.value..qPack[i].data.value + qPack[i].len];
    }

    /** What was decoded from a packet. */
    method TakeIn(out: seq<Sample>, c: CodecId, p: seq<Byte>, ghost ext: Word)
      requires Valid() && samplesLeft + |out| <= FIFO_MAX && |p| <= PREV_PACK_MAX
      modifies this`prevWasOK, this`prevDecoded, this`samplesLeft, this`prevPackLen, this`prevCodec,
               this`fed, this`played, tmpSamples, prevPackD
      ensures Valid()
      ensures
        var s := old(SoundView());
        SoundView() == Sound(s.fifo + out, |out|, s.prevWasCN, true, p, Some(c), s.fed + [Feed(c, p)], s.played + [ext])
    {
      prevDecoded := |out|;
      prevWasOK := true;
      fed := fed + [Feed(c, p)];
      played := played + [ext];
      Append(out);
      RememberPack(p, c);
    }

    /** A decodable packet at the play position. */
    method DecodeSlot(i: nat)
      requires Valid() && i < SLOTS && IsOK(qPack[i]) && SlotOk(qPack[i], i)
      requires Framed(env) && samplesLeft + env.maxFrame <= FIFO_MAX
      modifies this`prevWasCN, this`prevWasOK, this`prevDecoded, this`samplesLeft, this`prevPackLen, this`prevCodec,
               this`fed, this`played, tmpSamples, prevPackD
      ensures Valid()
      ensures
        var s := qPack[i];
        SoundView() == Decode(env, old(SoundView()), s.ext, s.codec.value, Payload(TableView(), s))
    {
      hide Payload, TableView;
      ghost var s := SoundView();
      var c := qPack[i].codec.value;
      var p := PayloadOf(i);
      prevWasCN := false;
      if env.canDecode(c, p, 2 * (2 * FIFO_MAX - samplesLeft - 100)) {
        TakeIn(env.decode(fed, c, p), c, p, qPack[i].ext);
      } else {
        prevWasOK := false;
      }
    }

    /** The last payload once more, for the codecs that can conceal with it. */
    method ReplayPack()
      requires Valid() && Framed(env) && samplesLeft + env.maxFrame <= FIFO_MAX && prevCodec.Some?
      modifies this`prevDecoded, this`samplesLeft, this`fed, tmpSamples
      ensures Valid() && SoundView() == Replay(env, old(SoundView()))
    {
      var p := prevPackD[..prevPackLen];
      var out := env.decode(fed, prevCodec.value, p);
      fed := fed + [Feed(prevCodec.value, p)];
      prevDecoded := |out|;
      Append(out);
    }

    /** Silence for one frame, or up to the request. */
    method InsertSilence(frame: bool, n: nat)
      requires Valid() && samplesLeft + prevDecoded <= FIFO_MAX && n <= FIFO_MAX
      modifies this`samplesLeft, tmpSamples
      ensures Valid()
      ensures
        tmpSamples[..samplesLeft] ==
          (if frame && prevDecoded != 0 then old(tmpSamples[..samplesLeft]) + Zeros(prevDecoded)
           else PadTo(old(tmpSamples[..samplesLeft]), n))
    {
      if frame && prevDecoded != 0 {
        Append(Zeros(prevDecoded));
      } else {
        PadSamples(n);
      }
    }

    /** Comfort noise until the next packet is due. */
    method InsertGap(cur: Slot, next: Slot)
      requires Valid() && prevDecoded <= FIFO_MAX
      modifies this`samplesLeft, tmpSamples
      ensures Valid()
      ensures tmpSamples[..samplesLeft] == old(tmpSamples[..samplesLeft]) + Zeros(Gap(old(SoundView()), cur, next))
    {
      var b := Diff(next.ts, cur.ts);
      hide Diff;
      if b < 0 {
        b := prevDecoded;
      }
      if b + samplesLeft > FIFO_MAX {
        b := FIFO_MAX - samplesLeft;
      }
      Append(Zeros(b));
    }

    /** Replay, silence, or comfort noise. */
    method FillIn(cur: Slot, after: Slot, next: Option<Slot>, n: nat)
      requires Valid() && Framed(env) && samplesLeft + env.maxFrame <= FIFO_MAX && prevDecoded <= env.maxFrame
      requires n <= FIFO_MAX
      modifies this`prevDecoded, this`samplesLeft, this`fed, this`waiting, this`resetPos, this`canPlay, tmpSamples
      ensures Valid()
      ensures SoundView() == FilledIn(env, old(SoundView()), cur, after, next, n)
      ensures waiting == (if next.None? then 1 else old(waiting))
      ensures resetPos == (next.None? || old(resetPos)) && canPlay == (!next.None? && old(canPlay))
    {
      hide Gap, PadTo, Zeros, Replay;
      if prevWasOK && !cur.inUse && prevPackLen > 0 && next.Some? && prevCodec.Some? && env.hasPLC(prevCodec.value) {
        ReplayPack();
      } else if next.None? || !cur.inUse {
        InsertSilence(!cur.inUse || after.inUse, n);
        if next.None? {
          waiting, resetPos, canPlay := 1, true, false;
        }
      } else {
        InsertGap(cur, next.value);
      }
    }

    /** No decodable packet at the play position. */
    method ConcealSlot(cur: Slot, after: Slot, next: Option<Slot>, n: nat)
      requires Valid() && Framed(env) && samplesLeft + env.maxFrame <= FIFO_MAX && prevDecoded <= env.maxFrame
      requires n <= FIFO_MAX
      modifies this`prevWasCN, this`prevWasOK, this`prevDecoded, this`samplesLeft, this`prevPackLen,
               this`fed, this`waiting, this`resetPos, this`canPlay, tmpSamples
      ensures Valid()
      ensures SoundView() == Conceal(env, old(SoundView()), cur, after, next, n)
      ensures waiting == (if next.None? then 1 else old(waiting))
      ensures resetPos == (next.None? || old(resetPos)) && canPlay == (!next.None? && old(canPlay))
    {
      hide FilledIn;
      FillIn(cur, after, next, n);
      prevWasCN := cur.inUse;
      prevWasOK := false;
      prevPackLen := 0;
      assert prevPackD[..prevPackLen] == [];
    }

    /** Silence up to `n` samples in all. */
    method PadSamples(n: nat)
      requires Valid() && n <= FIFO_MAX
      modifies this`samplesLeft, tmpSamples
      ensures Valid() && tmpSamples[..samplesLeft] == PadTo(old(tmpSamples[..samplesLeft]), n)
    {
      if n > samplesLeft {
        Append(Zeros(n - samplesLeft));
      }
      samplesLeft := n;
    }

    /** The first half of `decodeNextPacket`: find the next packet, drop what is stale. */
    method LookAhead(now: Word) returns (next: Option<Slot>)
      requires Valid()
      modifies qPack, mem`relBytes
      ensures Valid()
      ensures (TableView(), qPack[Idx(play)], next) == Look(old(TableView()), play, now)
    {
      hide FindNext, Idx, Wrap, DropIfStale;
      var k := FindNextPacket(play, now);
      DropStalePacket(play);
      DropStalePacket(Wrap(play + 1));
      next := if k.Some? then Some(qPack[k.value]) else None;
    }

    method DropStalePacket(pos: Word)
      requires Valid()
      modifies qPack, mem`relBytes
      ensures Valid() && TableView() == DropIfStale(old(TableView()), pos)
    {
      var i := Idx(pos);
      if qPack[i].inUse && qPack[i].ext != pos {
        RelPack(i);
      }
    }

    /** Decoding or concealing at slot `i`. */
    method PlaySlot(i: nat, after: Slot, next: Option<Slot>, n: nat)
      requires Valid() && i < SLOTS && SlotOk(qPack[i], i)
      requires Framed(env) && samplesLeft + env.maxFrame <= FIFO_MAX && prevDecoded <= env.maxFrame && n <= FIFO_MAX
      modifies this`prevWasCN, this`prevWasOK, this`prevDecoded, this`samplesLeft, this`prevPackLen, this`prevCodec,
               this`fed, this`played, this`waiting, this`resetPos, this`canPlay, tmpSamples, prevPackD
      ensures Valid()
      ensures SoundView() == Sounded(env, old(SoundView()), TableView(), qPack[i], after, next, n)
      ensures
        var dry := !IsOK(qPack[i]) && next.None?;
        && waiting == (if dry then 1 else old(waiting))
        && resetPos == (dry || old(resetPos)) && canPlay == (!dry && old(canPlay))
    {
      if qPack[i].inUse && qPack[i].codec.Some? {
        DecodeSlot(i);
      } else {
        ConcealSlot(qPack[i], after, next, n);
      }
      hide Decode, Conceal, Payload;
    }

    /** The last part of `decodeNextPacket`. */
    method StepOn(cur: Slot, after: Slot)
      requires Valid()
      modifies this`bufferedTs, this`playPos, this`play, qPack, mem`relBytes
      ensures Valid() && TableView() == Release(old(TableView()), Idx(old(play))) && play == Wrap(old(play) + 1)
      ensures
        bufferedTs ==
          (if !cur.inUse then old(bufferedTs) else if after.inUse then after.ts else Wrap(cur.ts + prevDecoded))
      ensures playPos == (if cur.inUse then Wrap(cur.ts - samplesLeft) else old(playPos))
    {
      hide Release, Wrap, Idx;
      if cur.inUse {
        bufferedTs := if after.inUse then after.ts else Wrap(cur.ts + prevDecoded);
        playPos := Wrap(cur.ts - samplesLeft);
      }
      RelPack(Idx(play));
      play := Wrap(play + 1);
    }

    /** The first part of `decodeNextPacket`: everything up to the samples. */
    method PlayHere(n: nat, now: Word) returns (cur: Slot, after: Slot, ghost next: Option<Slot>)
      requires Valid() && SlotsOk(TableView())
      requires Framed(env) && samplesLeft + env.maxFrame <= FIFO_MAX && prevDecoded <= env.maxFrame && n <= FIFO_MAX
      modifies this`prevWasCN, this`prevWasOK, this`prevDecoded, this`samplesLeft, this`prevPackLen, this`prevCodec,
               this`fed, this`played, this`waiting, this`resetPos, this`canPlay, this`underflow, this`lastPlay,
               tmpSamples, prevPackD, qPack, mem`relBytes
      ensures Valid()
      ensures (TableView(), cur, next) == Look(old(TableView()), play, now)
      ensures after == TableView().slots[Idx(play + 1)]
      ensures SoundView() == Sounded(env, old(SoundView()), TableView(), cur, after, next, n)
      ensures lastPlay == (if cur.inUse then cur.ext else old(lastPlay)) && underflow == (!cur.inUse && next.None?)
      ensures
        var dry := !IsOK(cur) && next.None?;
        && waiting == (if dry then 1 else old(waiting))
        && resetPos == (dry || old(resetPos)) && canPlay == (!dry && old(canPlay))
    {
      hide Idx, Release, Sounded, Look, Frees;
      LookFrees(TableView(), play, now);
      var ahead := LookAhead(now);
      next := ahead;
      cur, after := qPack[Idx(play)], qPack[Idx(play + 1)];
      assert SlotOk(TableView().slots[Idx(play)], Idx(play));
      hide SlotOk, SlotsOk;
      PlaySlot(Idx(play), after, ahead, n);
      underflow := !cur.inUse && ahead.None?;
      if cur.inUse {
        lastPlay := cur.ext;
      }
    }

    /** `decodeNextPacket` */
    method DecodeNextPacket(n: nat, now: Word)
      requires Valid() && SlotsOk(TableView())
      requires Framed(env) && samplesLeft + env.maxFrame <= FIFO_MAX && prevDecoded <= env.maxFrame && n <= FIFO_MAX
      modifies this, tmpSamples, prevPackD, qPack, mem`relBytes
      ensures Valid()
      ensures View() == DecodeNext(env, old(View()), n, now)
    {
      hide Idx, Wrap, Release, Sounded, Look, SlotsOk, TableView;
      var cur, after, next := PlayHere(n, now);
      StepOn(cur, after);
    }

    // ----- getData

    /** `samplesIn` */
    method SamplesQueued(rate: int) returns (r: int)
      requires Valid()
      ensures r == SamplesIn(View(), rate)
    {
      if waiting == 2 || !realData {
        return 0;
      }
      r := Diff(qPack[Idx(lastRecv)].ts, playPos) + samplesLeft;
      if r < -rate * 4 {
        r := -rate * 4;
      }
      hide Diff, Idx;
    }

    method ResyncPlay(need: nat)
      requires Valid()
      modifies this`play, this`resetPos, this`playPos, this`samplesLeft, this`canPlay, qPack, mem`relBytes
      ensures Valid() && View() == Resync(old(View()), need)
    {
      hide FindBest, TableView, SoundView;
      canPlay := FindBestDecodePack(need);
      resetPos := true;
    }

    method TrimQueue(si: int, need: nat, rate: int)
      requires Valid()
      modifies this`play, this`resetPos, this`playPos, this`samplesLeft, qPack, mem`relBytes
      ensures Valid() && View() == Trim(old(View()), si, need, rate)
    {
      hide FindBest, TableView, SoundView;
      if si > 4 * rate || si > 3 * rate + need {
        var ok := FindBestDecodePack(need);
      }
    }

    /** Re-synchronising in `getData`, with the sample count it goes by. */
    method Position(need: nat, rate: int) returns (si: int)
      requires Valid()
      modifies this`play, this`resetPos, this`playPos, this`samplesLeft, this`canPlay, qPack, mem`relBytes
      ensures Valid() && (View(), si) == Positioned(old(View()), need, rate)
    {
      hide Resync, SamplesIn;
      if !canPlay {
        ResyncPlay(need);
      }
      si := SamplesQueued(rate);
      if si < -rate {
        ResyncPlay(need);
      }
    }

    method Resume()
      requires Valid()
      modifies this`resetPos, this`waiting
      ensures Valid() && View() == old(View()).(resetPos := false, waiting := 0)
    {
      resetPos := false;
      waiting := 0;
    }

    /** The decisions of `getData` before it decodes. */
    method PrepareToPlay(need: nat, rate: int) returns (plays: bool)
      requires Valid()
      modifies this`play, this`resetPos, this`playPos, this`samplesLeft, this`canPlay, this`waiting, qPack, mem`relBytes
      ensures Valid() && (View(), plays) == Prepare(old(View()), need, rate)
    {
      hide Positioned, Trim;
      var si := Position(need, rate);
      if resetPos || waiting != 0 || !canPlay {
        if si < need || !canPlay {
          return false;
        }
        Resume();
      }
      TrimQueue(si, need, rate);
      return true;
    }

    /** The decoding loop of `getData`: it ends, whatever is queued. */
    method PumpSamples(n: nat, clock: nat -> Word)
      requires Valid() && SlotsOk(TableView()) && Framed(env) && Bounded(env, SoundView())
      requires n + env.maxFrame <= FIFO_MAX
      modifies this, tmpSamples, prevPackD, qPack, mem`relBytes
      ensures Valid() && View() == Pump(env, old(View()), n, clock, 0) && n <= samplesLeft
    {
      hide DecodeNext, SlotsOk, InUse;
      var k := 0;
      while samplesLeft < n
        invariant Valid() && SlotsOk(TableView()) && Bounded(env, SoundView())
        invariant Pump(env, View(), n, clock, k) == Pump(env, old(View()), n, clock, 0)
        decreases InUse(TableView()), Credit(SoundView()), Missing(SoundView(), n)
      {
        QueuePlayback.Progress(env, View(), n, clock(k));
        DecodeNextFrees(env, View(), n, clock(k));
        DecodeNextBounded(env, View(), n, clock(k));
        DecodeNextPacket(n, clock(k));
        k := k + 1;
      }
    }

    method Advance(n: nat)
      requires Valid()
      modifies this`playPos
      ensures Valid() && View() == old(View()).(playPos := Wrap(old(playPos) + n))
    {
      playPos := Wrap(playPos + n);
    }

    method CopyOut(s: array<Sample>, n: nat)
      requires Valid() && n <= s.Length && s != tmpSamples
      modifies this`samplesLeft, tmpSamples, s
      ensures Valid()
      ensures View() == Take(old(View()), n) && s[..n] == Taken(old(View()).sound.fifo, n) && s[n..] == old(s[n..])
    {
      hide Taken, Left;
      CopySamples(s, n);
    }

    /** `getData` */
    method FetchSamples(s: array<Sample>, n: nat, need: nat, rate: int, clock: nat -> Word)
      requires Valid() && SlotsOk(TableView()) && Framed(env) && Bounded(env, SoundView())
      requires n + env.maxFrame <= FIFO_MAX
      requires n <= s.Length && s != tmpSamples
      modifies this, tmpSamples, prevPackD, qPack, mem`relBytes, s
      ensures Valid()
      ensures (View(), s[..n]) == GetData(env, old(View()), n, need, rate, clock) && s[n..] == old(s[n..])
    {
      hide Prepare, Pump, Taken, Left, SlotsOk, Wrap, Bounded;
      PrepareSlotsOk(View(), need, rate);
      PrepareBounded(env, View(), need, rate);
      var plays := PrepareToPlay(need, rate);
      if plays {
        PumpSamples(n, clock);
        Advance(n);
      }
      CopyOut(s, n);
    }

    // ----- reset

    /** The loop of `reset()`. */
    method ClearSlots()
      requires Valid()
      modifies qPack, mem`relBytes
      ensures Valid() && TableView() == Cleared(old(TableView()), SLOTS - 1)
    {
      for i := 0 to SLOTS - 1
        invariant Valid() && TableView() == Cleared(old(TableView()), i)
      {
        RelPack(i);
        qPack[i] := qPack[i].(ext := NO_SEQ);
      }
    }

    /** The flags `reset()` sets. */
    method ClearFlags()
      modifies this`prevWasCN, this`prevWasOK, this`waiting, this`canPlay, this`resetPos, this`realData, this`underflow
      ensures !prevWasCN && !prevWasOK && waiting == 2 && !canPlay && resetPos && !realData && !underflow
    {
      prevWasOK, realData, canPlay, prevWasCN, underflow := false, false, false, false, false;
      resetPos, waiting := true, 2;
    }

    /** The counters and positions `reset()` sets, and the record of the past. */
    method ClearCounts()
      modifies this`samplesLeft, this`prevDecoded, this`prevPackLen, this`lastRecv, this`lastPlay, this`playPos,
               this`bufferedTs,
               this`played, this`accepted, this`stores
      ensures samplesLeft == prevDecoded == prevPackLen == 0 && lastRecv == lastPlay == playPos == bufferedTs == 0
      ensures played == [] && accepted == [] && stores == []
    {
      bufferedTs, playPos, samplesLeft, lastPlay, lastRecv, prevDecoded, prevPackLen := 0, 0, 0, 0, 0, 0, 0;
      played, accepted, stores := [], [], [];
    }

    method ClearFields()
      requires Valid()
      modifies this`prevWasCN, this`prevWasOK, this`waiting, this`canPlay, this`resetPos, this`realData, this`underflow,
               this`samplesLeft, this`prevDecoded, this`prevPackLen, this`lastRecv, this`lastPlay, this`playPos,
               this`bufferedTs,
               this`played, this`accepted, this`stores
      ensures Valid()
      ensures View() ==
        Queue(old(TableView()), old(roc.View()), Sound([], 0, false, false, [], prevCodec, fed, []), play,
              0, 0, 0, 0, 2, false, true, false, false, [], [])
    {
      ClearFlags();
      ClearCounts();
      assert tmpSamples[..samplesLeft] == [] && prevPackD[..prevPackLen] == [];
    }

    method ClearRoc()
      requires Valid()
      modifies roc
      ensures Valid() && View() == old(View()).(roc := Rollover.Restart(old(View()).roc))
    {
      hide Rollover.Restart;
      roc.Reset();
    }

    method ClearTable()
      requires Valid()
      modifies qPack, mem
      ensures Valid()
      ensures
        var t := Cleared(old(TableView()), SLOTS - 1);
        View() == old(View()).(table := t.(mem := Memory(t.mem.buf, 0, 0, 0)))
    {
      hide Cleared;
      ClearSlots();
      mem.Reset();
    }

    /** `reset()` */
    method ResetQueue()
      requires Valid()
      modifies this, qPack, mem, roc
      ensures Valid() && View() == Reset(old(View()))
    {
      hide Rollover.Restart, Cleared;
      ClearFields();
      ClearRoc();
      ClearTable();
    }
  }
}
