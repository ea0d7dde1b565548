/** What one step of decoding does to the samples and to the rest of the queue, case by
    case, from what lies in the table. */
module QueueSound {
  import opened Width
  import opened Wrappers
  import opened QueueModel
  import opened QueueInvariants
  import opened QueuePlayback
  import opened QueueResync
  import opened QueueDecisions

  // ----- what a step looks at

  lemma DroppedSlot(t: Table, pos: Word, k: nat)
    requires k < SLOTS
    ensures
      var s := t.slots[k];
      DropIfStale(t, pos).slots[k] ==
        if s.inUse && k == Idx(pos) && s.ext != pos then s.(inUse := false) else s
  {
    ReleaseSlot(t, Idx(pos), k);
    hide Idx;
  }

  lemma LookParts(t: Table, play: Word, now: Word)
    ensures
      var ((t0, next), (t', cur, after)) := (FindNext(t, play, 1, now), Look(t, play, now));
      && t' == DropIfStale(DropIfStale(t0, play), Wrap(play + 1)) && cur == t'.slots[Idx(play)]
      && after == (if next.Some? then Some(t'.slots[next.value]) else None)
  {
    hide FindNext, DropIfStale, Idx, Wrap;
  }

  /** A step gives back the expired packets ahead of the first that is not, and packets of
      other numbers at the play position and the one after; the next packet is that first
      one, if it lies at most 300 ahead. */
  lemma LookExactly(t: Table, play: Word, now: Word, k: nat)
    requires k < SLOTS
    ensures
      var ((t', cur, next), stop, s) := (Look(t, play, now), StopAt(t, play, 1, now), t.slots[k]);
      && cur == t'.slots[Idx(play)]
      && next == (if stop <= 300 then Some(t'.slots[Idx(play + stop)]) else None)
      && t'.slots[k] ==
           if s.inUse && ((k == Idx(play) && s.ext != play) || (k == Idx(play + 1) && s.ext != Wrap(play + 1))
                          || 1 <= AheadBy(play, k) < stop)
           then s.(inUse := false) else s
  {
    hide FindNext, StopAt, Idx, AheadBy, Wrap, DropIfStale, Look;
    FindNextExact(t, play, 1, now, k);
    IdxWrap(play + 1);
    LookParts(t, play, now);
    var t0 := FindNext(t, play, 1, now).0;
    DroppedSlot(t0, play, k);
    DroppedSlot(DropIfStale(t0, play), Wrap(play + 1), k);
  }

  lemma NextIdx(play: Word)
    ensures Idx(play) != Idx(play + 1)
  {
  }

  /** The packet at the play position is seen as it lies there, if it has that number. */
  lemma SeesPacket(t: Table, play: Word, now: Word)
    ensures
      var s, cur := t.slots[Idx(play)], Look(t, play, now).1;
      cur == if s.inUse && s.ext != play then s.(inUse := false) else s
  {
    LookExactly(t, play, now, Idx(play));
    AheadIdx(play, Idx(play), 0);
    assert play + 0 == play;
    NextIdx(play);
    hide Look, StopAt, Idx, AheadBy, Wrap;
  }

  lemma SamePayload(t: Table, play: Word, now: Word, s: Slot)
    requires SlotsOk(t)
    ensures Payload(Look(t, play, now).0, s) == Payload(t, s)
  {
    LookFrees(t, play, now);
    hide Look;
  }

  // ----- a packet at the play position

  /** A decodable packet under the number of the play position is fed to its decoder, and
      what comes out is put behind the samples that wait. */
  lemma DecodesPacket(env: Codecs, q: Queue, n: nat, now: Word)
    requires SlotsOk(q.table)
    requires
      var s := q.table.slots[Idx(q.play)];
      s.inUse && s.ext == q.play && s.codec.Some?
    ensures
      var s, q' := q.table.slots[Idx(q.play)], DecodeNext(env, q, n, now);
      var c, p, after := s.codec.value, Payload(q.table, s), Look(q.table, q.play, now).0.slots[Idx(q.play + 1)];
      && (if env.canDecode(c, p, 2 * (32000 - |q.sound.fifo| - 100)) then
            var out := env.decode(q.sound.fed, c, p);
            q'.sound == Sound(q.sound.fifo + out, |out|, false, true, p, Some(c), q.sound.fed + [Feed(c, p)],
                              q.sound.played + [q.play])
          else q'.sound == q.sound.(prevWasCN := false, prevWasOK := false))
      && q'.play == Wrap(q.play + 1) && q'.lastPlay == q.play && q'.playPos == Wrap(s.ts - |q'.sound.fifo|)
      && q'.bufferedTs == (if after.inUse then after.ts else Wrap(s.ts + q'.sound.prevDecoded))
      && q'.waiting == q.waiting && q'.resetPos == q.resetPos && q'.canPlay == q.canPlay && !q'.underflow
      && !q'.table.slots[Idx(q.play)].inUse
  {
    var s := q.table.slots[Idx(q.play)];
    SeesPacket(q.table, q.play, now);
    SamePayload(q.table, q.play, now, s);
    ReleaseSlot(Look(q.table, q.play, now).0, Idx(q.play), Idx(q.play));
    hide Look, Payload, Idx, Wrap, Release;
  }

  /** ... with the bytes it came with, as long as at most 158 data packets were stored
      after it. */
  lemma DecodesOriginal(env: Codecs, q: Queue, n: nat, now: Word)
    requires Sane(q)
    requires
      var s := q.table.slots[Idx(q.play)];
      s.inUse && s.ext == q.play && s.codec.Some?
    ensures
      var s, i := q.table.slots[Idx(q.play)], Idx(q.play);
      && Holds(s, q.accepted, q.stores, i)
      && (|q.stores| - q.accepted[LastAt(q.accepted, i).value].store <= 159 ==>
            var c, p := s.codec.value, Original(q.accepted, q.stores, i).data;
            env.canDecode(c, p, 2 * (32000 - |q.sound.fifo| - 100)) ==>
              DecodeNext(env, q, n, now).sound.fifo == q.sound.fifo + env.decode(q.sound.fed, c, p))
  {
    PayloadIsOriginal(q.table, q.accepted, q.stores, Idx(q.play));
    SaneSlotsOk(q);
    hide Sane, SlotsOk, DecodeNext, Payload, Idx, Original, Holds;
    DecodesPacket(env, q, n, now);
  }

  // ----- no decodable packet there

  /** A packet is missing, the one before it was decoded, its decoder can conceal, and
      another packet waits. */
  ghost predicate CanConceal(env: Codecs, s: Sound, cur: Slot, next: Option<Slot>) {
    && !cur.inUse && next.Some? && s.prevWasOK && |s.prevPack| > 0
    && s.prevCodec.Some? && env.hasPLC(s.prevCodec.value)
  }

  lemma ZerosAreSilent()
    ensures forall m: int :: Zeros(m) == Silence(m)
  {
    forall m: int
      ensures Zeros(m) == Silence(m)
    {
    }
  }

  /** What is played instead: the last packet once more, if its decoder can conceal and
      another packet waits; for a comfort-noise packet with another waiting, silence up to
      its time; else silence as long as the last frame, or up to what was asked for. */
  lemma Conceals(env: Codecs, q: Queue, n: nat, now: Word)
    requires
      var s := q.table.slots[Idx(q.play)];
      !(s.inUse && s.ext == q.play && s.codec.Some?)
    ensures
      var (t, cur, next) := Look(q.table, q.play, now);
      var after, fifo, fifo' := t.slots[Idx(q.play + 1)], q.sound.fifo, DecodeNext(env, q, n, now).sound.fifo;
      if CanConceal(env, q.sound, cur, next) then
        fifo' == fifo + env.decode(q.sound.fed, q.sound.prevCodec.value, q.sound.prevPack)
      else if cur.inUse && next.Some? then
        var gap := Diff(next.value.ts, cur.ts);
        && (gap >= 0 && |fifo| + gap <= 16000 ==> fifo' == fifo + Silence(gap))
        && (gap < 0 && |fifo| + q.sound.prevDecoded <= 16000 ==> fifo' == fifo + Silence(q.sound.prevDecoded))
        && (|fifo| + (if gap < 0 then q.sound.prevDecoded else gap) > 16000 ==> fifo' == fifo + Silence(16000 - |fifo|))
      else if (!cur.inUse || after.inUse) && q.sound.prevDecoded != 0 then
        fifo' == fifo + Silence(q.sound.prevDecoded)
      else if |fifo| <= n then fifo' == fifo + Silence(n - |fifo|)
      else fifo' == fifo[..n]
  {
    SeesPacket(q.table, q.play, now);
    hide Look, Payload, Idx, Wrap, Release, Diff, Zeros;
    DecodeNextEffect(env, q, n, now);
    ZerosAreSilent();
  }

  /** ... and the rest of the queue: what is remembered for concealment, and whether playing
      goes on, which it does if there is another packet. */
  lemma ConcealKeeps(env: Codecs, q: Queue, n: nat, now: Word)
    requires
      var s := q.table.slots[Idx(q.play)];
      !(s.inUse && s.ext == q.play && s.codec.Some?)
    ensures
      var (t, cur, next) := Look(q.table, q.play, now);
      var after, q' := t.slots[Idx(q.play + 1)], DecodeNext(env, q, n, now);
      && (if CanConceal(env, q.sound, cur, next) then
            var (c, p) := (q.sound.prevCodec.value, q.sound.prevPack);
            && q'.sound.fed == q.sound.fed + [Feed(c, p)]
            && q'.sound.prevDecoded == |env.decode(q.sound.fed, c, p)|
          else q'.sound.fed == q.sound.fed && q'.sound.prevDecoded == q.sound.prevDecoded)
      && q'.sound.played == q.sound.played && q'.sound.prevCodec == q.sound.prevCodec
      && q'.sound.prevWasCN == cur.inUse && !q'.sound.prevWasOK && q'.sound.prevPack == []
      && q'.play == Wrap(q.play + 1) && q'.lastPlay == (if cur.inUse then q.play else q.lastPlay)
      && q'.playPos == (if cur.inUse then Wrap(cur.ts - |q'.sound.fifo|) else q.playPos)
      && q'.bufferedTs == (if !cur.inUse then q.bufferedTs else if after.inUse then after.ts
                           else Wrap(cur.ts + q'.sound.prevDecoded))
      && (next.Some? ==> q'.waiting == q.waiting && q'.resetPos == q.resetPos && q'.canPlay == q.canPlay)
      && (next.None? ==> q'.waiting == 1 && q'.resetPos && !q'.canPlay)
      && q'.underflow == (!cur.inUse && next.None?)
  {
    SeesPacket(q.table, q.play, now);
    hide Look, Payload, Idx, Wrap, Release, Diff, Zeros;
  }
}
