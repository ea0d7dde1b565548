/** Two queues that differ only in how their packets are numbered, where the payloads
    lie and when they came, but not so that a tick of a call tells the times apart, behave
    alike: `getData` delivers the same samples. */
module QueueAlike {
  import opened Width
  import opened Wrappers
  import opened QueueModel
  import opened QueueInvariants
  import opened QueuePlayback
  import QueueResync

  // ----- the relation

  /** `b` is `a` renumbered. */
  ghost predicate Renumbered(a: Word, b: Word, shift: int) {
    shift % 0x1_0000 == 0 && b == Wrap(a + shift)
  }

  /** A packet is dropped when it is looked at more than 6 seconds after it came. */
  predicate Aged(received: Word, now: Word) {
    Diff(now, received) > 6000
  }

  /** Two arrival times that no tick of the calls tells apart. */
  ghost predicate SameAge(received1: Word, received2: Word, ticks: iset<Word>) {
    forall now :: now in ticks ==> (Aged(received1, now) <==> Aged(received2, now))
  }

  /** Slots that look the same to the decoding side at those ticks. */
  ghost predicate AlikeSlot(t1: Table, t2: Table, s1: Slot, s2: Slot, shift: int, ticks: iset<Word>) {
    && s1.inUse == s2.inUse && s1.ts == s2.ts
    && (s1.inUse ==>
          && s1.codec == s2.codec && Renumbered(s1.ext, s2.ext, shift)
          && Payload(t1, s1) == Payload(t2, s2) && SameAge(s1.received, s2.received, ticks))
  }

  ghost predicate AlikeTable(t1: Table, t2: Table, shift: int, ticks: iset<Word>) {
    forall k {:trigger t1.slots[k]} {:trigger t2.slots[k]} :: 0 <= k < SLOTS ==>
      AlikeSlot(t1, t2, t1.slots[k], t2.slots[k], shift, ticks)
  }

  ghost predicate AlikeSound(s1: Sound, s2: Sound) {
    s1.(played := []) == s2.(played := [])
  }

  ghost predicate Flags(q1: Queue, q2: Queue) {
    && q1.playPos == q2.playPos && q1.waiting == q2.waiting && q1.canPlay == q2.canPlay
    && q1.resetPos == q2.resetPos && q1.realData == q2.realData
  }

  ghost predicate Alike(q1: Queue, q2: Queue, shift: int, ticks: iset<Word>) {
    && AlikeTable(q1.table, q2.table, shift, ticks) && AlikeSound(q1.sound, q2.sound) && Flags(q1, q2)
    && Renumbered(q1.lastRecv, q2.lastRecv, shift)
  }

  // ----- renumbering and slot indices

  /** A shift by a multiple of 2^16 keeps every slot index. */
  lemma IdxRenumbered(a: Word, b: Word, shift: int, i: int)
    requires Renumbered(a, b, shift)
    ensures Idx(a + i) == Idx(b + i)
  {
    hide Idx, Wrap;
    WrapPlus(a + shift, i);
    IdxWrap(a + shift + i);
    IdxWrap(b + i);
    IdxPlus(a + i, shift / 0x1_0000 * 64);
  }

  lemma RenumberedPlus(a: Word, b: Word, shift: int, i: int)
    requires Renumbered(a, b, shift)
    ensures Renumbered(Wrap(a + i), Wrap(b + i), shift)
  {
    hide Wrap;
    WrapPlus(a + i, shift);
    WrapPlus(a + shift, i);
    assert (a + i) + shift == (a + shift) + i;
  }

  /** Renumbering keeps numbers apart. */
  lemma RenumberedInjective(a1: Word, b1: Word, a2: Word, b2: Word, shift: int)
    requires Renumbered(a1, b1, shift) && Renumbered(a2, b2, shift)
    ensures a1 == a2 <==> b1 == b2
  {
    assert Wrap(a1) == a1 && Wrap(a2) == a2;
    hide Wrap;
    WrapPlus(a1 + shift, -shift);
    WrapPlus(a2 + shift, -shift);
    assert a1 + shift - shift == a1 && a2 + shift - shift == a2;
  }

  // ----- the table

  lemma SlotAt(t1: Table, t2: Table, k: nat, shift: int, ticks: iset<Word>)
    requires AlikeTable(t1, t2, shift, ticks) && k < SLOTS
    ensures AlikeSlot(t1, t2, t1.slots[k], t2.slots[k], shift, ticks)
    ensures t1.slots[k].ts == t2.slots[k].ts && t1.slots[k].inUse == t2.slots[k].inUse
  {
  }

  lemma ReleaseAlike(t1: Table, t2: Table, i: nat, shift: int, ticks: iset<Word>)
    requires AlikeTable(t1, t2, shift, ticks) && i < SLOTS
    ensures AlikeTable(Release(t1, i), Release(t2, i), shift, ticks)
  {
    hide Renumbered;
    var r1, r2 := Release(t1, i), Release(t2, i);
    forall k {:trigger r1.slots[k]} {:trigger r2.slots[k]} | 0 <= k < SLOTS
      ensures AlikeSlot(r1, r2, r1.slots[k], r2.slots[k], shift, ticks)
    {
      assert AlikeSlot(t1, t2, t1.slots[k], t2.slots[k], shift, ticks);
      assert AlikeSlot(t1, t2, t1.slots[i], t2.slots[i], shift, ticks);
      assert r1.mem.buf == t1.mem.buf && r2.mem.buf == t2.mem.buf;
    }
  }

  /** One turn of the search, in which both queues drop a packet, stop or go on. */
  lemma TurnAlike(t1: Table, t2: Table, k: nat, shift: int, ticks: iset<Word>, now: Word)
    requires AlikeTable(t1, t2, shift, ticks) && k < SLOTS && now in ticks
    ensures t1.slots[k].inUse == t2.slots[k].inUse
    ensures QueueResync.Expired(t1.slots[k], now) == QueueResync.Expired(t2.slots[k], now)
  {
    SlotAt(t1, t2, k, shift, ticks);
    assert t1.slots[k].inUse ==> (Aged(t1.slots[k].received, now) <==> Aged(t2.slots[k].received, now));
    hide AlikeTable, Payload, Renumbered, Diff;
  }

  lemma {:induction false} FindNextAlike(t1: Table, t2: Table, from1: Word, from2: Word, i: nat, shift: int,
                                         ticks: iset<Word>, now: Word)
    requires AlikeTable(t1, t2, shift, ticks) && Renumbered(from1, from2, shift) && now in ticks
    ensures
      var (r1, r2) := (FindNext(t1, from1, i, now), FindNext(t2, from2, i, now));
      AlikeTable(r1.0, r2.0, shift, ticks) && r1.1 == r2.1
    decreases MAX_LOST + 1 - i
  {
    if i > MAX_LOST {
    } else {
      QueueResync.FindNextTurn(t1, from1, i, now);
      QueueResync.FindNextTurn(t2, from2, i, now);
      hide *;
      IdxRenumbered(from1, from2, shift, i);
      var k := Idx(from1 + i);
      TurnAlike(t1, t2, k, shift, ticks, now);
      if !t1.slots[k].inUse {
        FindNextAlike(t1, t2, from1, from2, i + 1, shift, ticks, now);
      } else if QueueResync.Expired(t1.slots[k], now) {
        ReleaseAlike(t1, t2, k, shift, ticks);
        FindNextAlike(Release(t1, k), Release(t2, k), from1, from2, i + 1, shift, ticks, now);
      }
    }
  }

  lemma DropAlike(t1: Table, t2: Table, pos1: Word, pos2: Word, shift: int, ticks: iset<Word>)
    requires AlikeTable(t1, t2, shift, ticks) && Renumbered(pos1, pos2, shift)
    ensures
      var (r1, r2) := (DropIfStale(t1, pos1), DropIfStale(t2, pos2));
      AlikeTable(r1, r2, shift, ticks)
  {
    IdxRenumbered(pos1, pos2, shift, 0);
    var k := Idx(pos1);
    hide Idx;
    assert AlikeSlot(t1, t2, t1.slots[k], t2.slots[k], shift, ticks);
    if t1.slots[k].inUse {
      RenumberedInjective(t1.slots[k].ext, t2.slots[k].ext, pos1, pos2, shift);
    }
    ReleaseAlike(t1, t2, k, shift, ticks);
    hide AlikeTable, Release, Renumbered;
  }

  /** Both queues see the same packet, and the same next packet. */
  ghost predicate AlikeLook(r1: (Table, Slot, Option<Slot>), r2: (Table, Slot, Option<Slot>), shift: int,
                            ticks: iset<Word>) {
    && AlikeTable(r1.0, r2.0, shift, ticks)
    && AlikeSlot(r1.0, r2.0, r1.1, r2.1, shift, ticks)
    && r1.2.Some? == r2.2.Some? && (r1.2.Some? ==> r1.2.value.ts == r2.2.value.ts)
  }

  lemma LookAlike(t1: Table, t2: Table, play1: Word, play2: Word, shift: int, ticks: iset<Word>, now: Word)
    requires AlikeTable(t1, t2, shift, ticks) && now in ticks && Renumbered(play1, play2, shift)
    ensures AlikeLook(Look(t1, play1, now), Look(t2, play2, now), shift, ticks)
  {
    hide AlikeTable, FindNext, DropIfStale, Idx, Wrap, Renumbered, AlikeSlot;
    FindNextAlike(t1, t2, play1, play2, 1, shift, ticks, now);
    var (f1, next1) := FindNext(t1, play1, 1, now);
    var f2 := FindNext(t2, play2, 1, now).0;
    DropAlike(f1, f2, play1, play2, shift, ticks);
    var a1, a2 := DropIfStale(f1, play1), DropIfStale(f2, play2);
    RenumberedPlus(play1, play2, shift, 1);
    DropAlike(a1, a2, Wrap(play1 + 1), Wrap(play2 + 1), shift, ticks);
    IdxRenumbered(play1, play2, shift, 0);
    assert play1 + 0 == play1 && play2 + 0 == play2;
    var b1, b2 := DropIfStale(a1, Wrap(play1 + 1)), DropIfStale(a2, Wrap(play2 + 1));
    SlotAt(b1, b2, Idx(play1), shift, ticks);
    if next1.Some? {
      SlotAt(b1, b2, next1.value, shift, ticks);
    }
  }

  // ----- decoding

  lemma SoundedAlike(env: Codecs, s1: Sound, s2: Sound, t1: Table, t2: Table, cur1: Slot, cur2: Slot,
                     after1: Slot, after2: Slot, next1: Option<Slot>, next2: Option<Slot>, n: nat, shift: int,
                     ticks: iset<Word>)
    requires AlikeSound(s1, s2) && AlikeSlot(t1, t2, cur1, cur2, shift, ticks) && after1.inUse == after2.inUse
    requires next1.Some? == next2.Some? && (next1.Some? ==> next1.value.ts == next2.value.ts)
    ensures AlikeSound(Sounded(env, s1, t1, cur1, after1, next1, n), Sounded(env, s2, t2, cur2, after2, next2, n))
  {
    hide Renumbered, Payload;
  }

  ghost predicate AlikePlaying(q1: Queue, q2: Queue, shift: int, ticks: iset<Word>) {
    Alike(q1, q2, shift, ticks) && Renumbered(q1.play, q2.play, shift)
  }

  lemma DecodeNextFlags(env: Codecs, q: Queue, n: nat, now: Word)
    ensures
      var q' := DecodeNext(env, q, n, now);
      var (t, cur, next) := Look(q.table, q.play, now);
      && q'.playPos == (if cur.inUse then Wrap(cur.ts - |q'.sound.fifo|) else q.playPos)
      && q'.waiting == (if !IsOK(cur) && next.None? then 1 else q.waiting)
      && q'.resetPos == ((!IsOK(cur) && next.None?) || q.resetPos)
      && q'.canPlay == (!(!IsOK(cur) && next.None?) && q.canPlay)
      && q'.realData == q.realData
  {
    hide Look, Release, Sounded, Idx, Wrap;
  }

  /** The sounds after a step of two queues that look alike. */
  lemma StepSoundAlike(env: Codecs, q1: Queue, q2: Queue, n: nat, now: Word, shift: int, ticks: iset<Word>)
    requires AlikePlaying(q1, q2, shift, ticks) && now in ticks
    ensures AlikeLook(Look(q1.table, q1.play, now), Look(q2.table, q2.play, now), shift, ticks)
    ensures AlikeSound(DecodeNext(env, q1, n, now).sound, DecodeNext(env, q2, n, now).sound)
  {
    hide DecodeNext, Look, Sounded, Wrap, Renumbered, Release, Payload, Idx;
    LookAlike(q1.table, q2.table, q1.play, q2.play, shift, ticks, now);
    DecodeNextEffect(env, q1, n, now);
    DecodeNextEffect(env, q2, n, now);
    IdxRenumbered(q1.play, q2.play, shift, 1);
    var (t1, cur1, next1) := Look(q1.table, q1.play, now);
    var (t2, cur2, next2) := Look(q2.table, q2.play, now);
    var k := Idx(q1.play + 1);
    assert AlikeSlot(t1, t2, t1.slots[k], t2.slots[k], shift, ticks);
    SoundedAlike(env, q1.sound, q2.sound, t1, t2, cur1, cur2, t1.slots[k], t2.slots[k], next1, next2, n, shift,
                 ticks);
  }

  lemma StepFlagsAlike(env: Codecs, q1: Queue, q2: Queue, n: nat, now: Word, shift: int, ticks: iset<Word>)
    requires Flags(q1, q2)
    requires AlikeLook(Look(q1.table, q1.play, now), Look(q2.table, q2.play, now), shift, ticks)
    requires AlikeSound(DecodeNext(env, q1, n, now).sound, DecodeNext(env, q2, n, now).sound)
    ensures Flags(DecodeNext(env, q1, n, now), DecodeNext(env, q2, n, now))
  {
    hide DecodeNext, Look, Wrap, Renumbered, Payload, AlikeTable;
    DecodeNextFlags(env, q1, n, now);
    DecodeNextFlags(env, q2, n, now);
  }

  lemma DecodeNextAlike(env: Codecs, q1: Queue, q2: Queue, n: nat, now: Word, shift: int, ticks: iset<Word>)
    requires AlikePlaying(q1, q2, shift, ticks) && now in ticks
    ensures AlikePlaying(DecodeNext(env, q1, n, now), DecodeNext(env, q2, n, now), shift, ticks)
  {
    hide DecodeNext, Look, Sounded, Wrap, Renumbered, Release, Payload;
    hide Idx, AlikeTable, Flags, AlikeSound;
    StepSoundAlike(env, q1, q2, n, now, shift, ticks);
    StepFlagsAlike(env, q1, q2, n, now, shift, ticks);
    DecodeNextEffect(env, q1, n, now);
    DecodeNextEffect(env, q2, n, now);
    IdxRenumbered(q1.play, q2.play, shift, 0);
    RenumberedPlus(q1.play, q2.play, shift, 1);
    ReleaseAlike(Look(q1.table, q1.play, now).0, Look(q2.table, q2.play, now).0, Idx(q1.play + 0), shift, ticks);
    assert q1.play + 0 == q1.play && q2.play + 0 == q2.play;
  }

  // ----- choosing where to play

  /** Corresponding positions are as good a choice. */
  lemma CandidateAlike(t1: Table, t2: Table, newest: Word, from1: Word, from2: Word, need: nat, j: nat, shift: int,
                       ticks: iset<Word>)
    requires AlikeTable(t1, t2, shift, ticks) && Renumbered(from1, from2, shift)
    ensures
      var pos1, pos2 := QueueResync.At(from1, j), QueueResync.At(from2, j);
      && Renumbered(pos1, pos2, shift)
      && QueueResync.Eligible(t1.slots, newest, pos1) == QueueResync.Eligible(t2.slots, newest, pos2)
      && QueueResync.Distance(t1.slots, newest, need, pos1) == QueueResync.Distance(t2.slots, newest, need, pos2)
  {
    RenumberedPlus(from1, from2, shift, j);
    var pos1, pos2 := Wrap(from1 + j), Wrap(from2 + j);
    IdxRenumbered(pos1, pos2, shift, 0);
    assert pos1 + 0 == pos1 && pos2 + 0 == pos2;
    SlotAt(t1, t2, Idx(pos1), shift, ticks);
    hide Wrap, Idx, Renumbered, Diff, AlikeTable;
  }

  lemma {:induction false} BestAlike(t1: Table, t2: Table, newest: Word, from1: Word, from2: Word, need: nat,
                                     cnt: nat, shift: int, ticks: iset<Word>)
    requires AlikeTable(t1, t2, shift, ticks) && Renumbered(from1, from2, shift)
    ensures
      var (r1, r2) := (Best(t1.slots, newest, from1, need, cnt), Best(t2.slots, newest, from2, need, cnt));
      r1.1 == r2.1 && r1.0.Some? == r2.0.Some? && (r1.0.Some? ==> Renumbered(r1.0.value, r2.0.value, shift))
  {
    hide *;
    if cnt == 0 {
      QueueResync.BestOfNone(t1.slots, newest, from1, need);
      QueueResync.BestOfNone(t2.slots, newest, from2, need);
    } else {
      BestAlike(t1, t2, newest, from1, from2, need, cnt - 1, shift, ticks);
      QueueResync.BestStep(t1.slots, newest, from1, need, cnt - 1);
      QueueResync.BestStep(t2.slots, newest, from2, need, cnt - 1);
      CandidateAlike(t1, t2, newest, from1, from2, need, cnt - 1, shift, ticks);
    }
  }

  lemma {:induction false} ReleaseBehindAlike(t1: Table, t2: Table, pos1: Word, pos2: Word, k: nat, shift: int,
                                              ticks: iset<Word>)
    requires AlikeTable(t1, t2, shift, ticks) && Renumbered(pos1, pos2, shift)
    ensures
      var (r1, r2) := (ReleaseBehind(t1, pos1, k), ReleaseBehind(t2, pos2, k));
      AlikeTable(r1, r2, shift, ticks)
  {
    hide Release, Idx, AlikeTable;
    if k == 0 {
    } else {
      ReleaseBehindAlike(t1, t2, pos1, pos2, k - 1, shift, ticks);
      IdxRenumbered(pos1, pos2, shift, 0 - k);
      ReleaseAlike(ReleaseBehind(t1, pos1, k - 1), ReleaseBehind(t2, pos2, k - 1), Idx(pos1 - k), shift, ticks);
    }
  }

  /** Both queues have the same newest timestamp, and search equally far. */
  lemma NewestAlike(q1: Queue, q2: Queue, need: nat, shift: int, ticks: iset<Word>)
    requires Alike(q1, q2, shift, ticks)
    ensures q1.table.slots[Idx(q1.lastRecv)].ts == q2.table.slots[Idx(q2.lastRecv)].ts
    ensures WindowSize(q1, need) == WindowSize(q2, need)
  {
    IdxRenumbered(q1.lastRecv, q2.lastRecv, shift, 0);
    hide Idx, Renumbered, Payload;
    assert q1.lastRecv + 0 == q1.lastRecv && q2.lastRecv + 0 == q2.lastRecv;
    var k := Idx(q1.lastRecv);
    assert AlikeSlot(q1.table, q2.table, q1.table.slots[k], q2.table.slots[k], shift, ticks);
  }

  lemma ChoiceAlike(q1: Queue, q2: Queue, need: nat, shift: int, ticks: iset<Word>)
    requires Alike(q1, q2, shift, ticks)
    ensures Choice(q1, need).Some? == Choice(q2, need).Some?
    ensures Choice(q1, need).Some? ==> Renumbered(Choice(q1, need).value, Choice(q2, need).value, shift)
    ensures Choice(q1, need).Some? ==>
      q1.table.slots[Idx(Choice(q1, need).value)].ts == q2.table.slots[Idx(Choice(q2, need).value)].ts
  {
    NewestAlike(q1, q2, need, shift, ticks);
    var cnt := WindowSize(q1, need);
    var back: int := cnt;
    RenumberedPlus(q1.lastRecv, q2.lastRecv, shift, -back);
    BestAlike(q1.table, q2.table, q1.table.slots[Idx(q1.lastRecv)].ts, Wrap(q1.lastRecv - cnt),
              Wrap(q2.lastRecv - cnt), need, cnt, shift, ticks);
    hide Best, WindowSize, Wrap, Idx, Renumbered, Payload;
    if Choice(q1, need).Some? {
      var a, b := Choice(q1, need).value, Choice(q2, need).value;
      IdxRenumbered(a, b, shift, 0);
      assert a + 0 == a && b + 0 == b;
      assert AlikeSlot(q1.table, q2.table, q1.table.slots[Idx(a)], q2.table.slots[Idx(a)], shift, ticks);
    }
  }

  lemma FindBestAlike(q1: Queue, q2: Queue, need: nat, shift: int, ticks: iset<Word>)
    requires Alike(q1, q2, shift, ticks)
    ensures FindBest(q1, need).1 == FindBest(q2, need).1
    ensures AlikePlaying(FindBest(q1, need).0, FindBest(q2, need).0, shift, ticks)
  {
    NewestAlike(q1, q2, need, shift, ticks);
    ChoiceAlike(q1, q2, need, shift, ticks);
    RenumberedPlus(q1.lastRecv, q2.lastRecv, shift, -5);
    hide Choice, WindowSize, Wrap, Idx, Renumbered, Payload, AlikeTable, ReleaseBehind;
    if Choice(q1, need).Some? {
      ReleaseBehindAlike(q1.table, q2.table, Choice(q1, need).value, Choice(q2, need).value, BEHIND, shift, ticks);
    }
  }

  // ----- getData

  lemma ResyncAlike(q1: Queue, q2: Queue, need: nat, shift: int, ticks: iset<Word>)
    requires Alike(q1, q2, shift, ticks)
    ensures AlikePlaying(Resync(q1, need), Resync(q2, need), shift, ticks)
  {
    FindBestAlike(q1, q2, need, shift, ticks);
    hide FindBest, AlikeTable, Renumbered;
  }

  lemma SamplesInAlike(q1: Queue, q2: Queue, rate: int, shift: int, ticks: iset<Word>)
    requires Alike(q1, q2, shift, ticks)
    ensures SamplesIn(q1, rate) == SamplesIn(q2, rate)
  {
    NewestAlike(q1, q2, 0, shift, ticks);
    hide AlikeTable, Renumbered, Diff, Idx, WindowSize;
  }

  /** The same counts let both queues start. */
  lemma StartsAlike(q1: Queue, q2: Queue, need: nat, shift: int, ticks: iset<Word>)
    requires Alike(q1, q2, shift, ticks)
    ensures QueueResync.Starts(q1, need) == QueueResync.Starts(q2, need)
  {
    NewestAlike(q1, q2, need, shift, ticks);
    ChoiceAlike(q1, q2, need, shift, ticks);
    hide Choice, Idx, Diff, Renumbered, AlikeTable;
  }

  lemma TrimAlike(q1: Queue, q2: Queue, si: int, need: nat, rate: int, shift: int, ticks: iset<Word>)
    requires AlikePlaying(q1, q2, shift, ticks)
    ensures AlikePlaying(Trim(q1, si, need, rate), Trim(q2, si, need, rate), shift, ticks)
  {
    FindBestAlike(q1, q2, need, shift, ticks);
    hide FindBest, Alike;
  }

  lemma ResumeAlike(q1: Queue, q2: Queue, shift: int, ticks: iset<Word>)
    requires AlikePlaying(q1, q2, shift, ticks)
    ensures AlikePlaying(q1.(resetPos := false, waiting := 0), q2.(resetPos := false, waiting := 0), shift, ticks)
  {
    hide AlikeTable, Renumbered;
  }

  /** The two queues may disagree on the play position as long as neither can play. */
  lemma PrepareAlike(q1: Queue, q2: Queue, need: nat, rate: int, shift: int, ticks: iset<Word>)
    requires Alike(q1, q2, shift, ticks) && (q1.canPlay ==> Renumbered(q1.play, q2.play, shift))
    ensures Prepare(q1, need, rate).1 == Prepare(q2, need, rate).1
    ensures AlikePlaying(Prepare(q1, need, rate).0, Prepare(q2, need, rate).0, shift, ticks)
  {
    hide AlikeTable, Renumbered, Resync, SamplesIn, Trim;
    ResyncAlike(q1, q2, need, shift, ticks);
    var a1, a2 := if !q1.canPlay then Resync(q1, need) else q1, if !q2.canPlay then Resync(q2, need) else q2;
    SamplesInAlike(a1, a2, rate, shift, ticks);
    var si := SamplesIn(a1, rate);
    ResyncAlike(a1, a2, need, shift, ticks);
    var b1, b2 := if si < -rate then Resync(a1, need) else a1, if si < -rate then Resync(a2, need) else a2;
    TrimAlike(b1, b2, si, need, rate, shift, ticks);
    ResumeAlike(b1, b2, shift, ticks);
    TrimAlike(b1.(resetPos := false, waiting := 0), b2.(resetPos := false, waiting := 0), si, need, rate, shift, ticks);
  }

  lemma {:induction false} PumpAlike(env: Codecs, q1: Queue, q2: Queue, n: nat, clock: nat -> Word, k: nat,
                                     shift: int, ticks: iset<Word>)
    requires SlotsOk(q1.table) && SlotsOk(q2.table)
    requires AlikePlaying(q1, q2, shift, ticks) && forall i :: clock(i) in ticks
    ensures AlikePlaying(Pump(env, q1, n, clock, k), Pump(env, q2, n, clock, k), shift, ticks)
    decreases InUse(q1.table), Credit(q1.sound), Missing(q1.sound, n)
  {
    hide DecodeNext, AlikeTable, Renumbered, SlotsOk, Flags;
    if n <= |q1.sound.fifo| {
    } else {
      assert clock(k) in ticks;
      Progress(env, q1, n, clock(k));
      DecodeNextFrees(env, q1, n, clock(k));
      DecodeNextFrees(env, q2, n, clock(k));
      DecodeNextAlike(env, q1, q2, n, clock(k), shift, ticks);
      PumpAlike(env, DecodeNext(env, q1, n, clock(k)), DecodeNext(env, q2, n, clock(k)), n, clock, k + 1, shift, ticks);
    }
  }

  lemma TakeAlike(q1: Queue, q2: Queue, n: nat, shift: int, ticks: iset<Word>)
    requires AlikePlaying(q1, q2, shift, ticks)
    ensures AlikePlaying(Take(q1, n), Take(q2, n), shift, ticks)
    ensures
      AlikePlaying(Take(q1, n).(playPos := Wrap(q1.playPos + n)), Take(q2, n).(playPos := Wrap(q2.playPos + n)),
                   shift, ticks)
    ensures Taken(q1.sound.fifo, n) == Taken(q2.sound.fifo, n)
  {
    hide AlikeTable, Renumbered, Wrap;
  }

  /** Two queues that look alike deliver the same samples and stay alike. */
  lemma GetDataAlike(env: Codecs, q1: Queue, q2: Queue, n: nat, need: nat, rate: int, clock: nat -> Word, shift: int,
                     ticks: iset<Word>)
    requires SlotsOk(q1.table) && SlotsOk(q2.table)
    requires Alike(q1, q2, shift, ticks) && (q1.canPlay ==> Renumbered(q1.play, q2.play, shift))
    requires forall i :: clock(i) in ticks
    ensures
      var r1, r2 := GetData(env, q1, n, need, rate, clock), GetData(env, q2, n, need, rate, clock);
      r1.1 == r2.1 && AlikePlaying(r1.0, r2.0, shift, ticks)
  {
    hide Alike, Renumbered, SlotsOk, Prepare, Take, Taken;
    PrepareSlotsOk(q1, need, rate);
    PrepareSlotsOk(q2, need, rate);
    PrepareAlike(q1, q2, need, rate, shift, ticks);
    var (a1, plays) := Prepare(q1, need, rate);
    var a2 := Prepare(q2, need, rate).0;
    if plays {
      PumpAlike(env, a1, a2, n, clock, 0, shift, ticks);
      TakeAlike(Pump(env, a1, n, clock, 0), Pump(env, a2, n, clock, 0), n, shift, ticks);
    } else {
      TakeAlike(a1, a2, n, shift, ticks);
    }
  }

  // ----- when an arrival time can be heard

  /** Two arrivals of a packet are of different age at a tick exactly when the tick lies
      between the ends of their 6 seconds. */
  lemma AgesDiffer(at1: nat, at2: nat, tick: nat)
    requires at1 <= at2 && Abs(tick - at1) < 0x8000_0000 && Abs(tick - at2) < 0x8000_0000
    ensures
      Aged(Wrap(at1), Wrap(tick)) != Aged(Wrap(at2), Wrap(tick)) <==> at1 + 6000 < tick <= at2 + 6000
  {
    DiffOfNear(tick, at1);
    DiffOfNear(tick, at2);
    hide Diff, Wrap;
  }

  ghost predicate OnlyInUse(t: Table, k: nat) {
    forall j {:trigger t.slots[j]} :: 0 <= j < SLOTS && t.slots[j].inUse ==> j == k
  }

  lemma {:induction false} NoneAhead(t: Table, from: Word, i: nat, now: Word)
    requires forall j {:trigger t.slots[j]} :: 0 <= j < SLOTS ==> !t.slots[j].inUse
    ensures FindNext(t, from, i, now).1.None?
    decreases MAX_LOST + 1 - i
  {
    if i > MAX_LOST {
    } else {
      assert !t.slots[Idx(from + i)].inUse;
      NoneAhead(t, from, i + 1, now);
    }
  }

  lemma {:induction false} OneAhead(t: Table, from: Word, i: nat, now: Word, k: nat)
    requires k < SLOTS && t.slots[k].inUse && OnlyInUse(t, k) && i <= QueueResync.AheadBy(from, k) <= MAX_LOST
    ensures FindNext(t, from, i, now).1 == if Aged(t.slots[k].received, now) then None else Some(k)
    decreases MAX_LOST + 1 - i
  {
    QueueResync.FindNextTurn(t, from, i, now);
    QueueResync.AheadIdx(from, k, i);
    var j := Idx(from + i);
    hide FindNext, Idx, QueueResync.AheadBy, Diff;
    if j != k {
      OneAhead(t, from, i + 1, now, k);
    } else if Aged(t.slots[k].received, now) {
      NoneAhead(Release(t, k), from, i + 1, now);
    }
  }

  lemma StaysUnused(t: Table, t': Table, i: nat)
    requires Frees(t, t') && i < SLOTS && !t.slots[i].inUse
    ensures !t'.slots[i].inUse
  {
    assert FreedSlot(t.slots[i], t'.slots[i]);
  }

  lemma LookAt(t: Table, play: Word, now: Word)
    ensures Look(t, play, now).1 == Look(t, play, now).0.slots[Idx(play)]
  {
    hide FindNext, DropIfStale, Idx;
  }

  lemma NotAtPlay(t: Table, play: Word, now: Word, k: nat)
    requires SlotsOk(t) && OnlyInUse(t, k) && k < SLOTS && QueueResync.AheadBy(play, k) >= 1
    ensures !Look(t, play, now).1.inUse
  {
    hide Look, Frees, SlotsOk, Idx, QueueResync.AheadBy;
    QueueResync.AheadIdx(play, k, 0);
    assert play + 0 == play;
    LookFrees(t, play, now);
    LookAt(t, play, now);
    StaysUnused(t, Look(t, play, now).0, Idx(play));
  }

  /** With one packet waiting ahead, playing goes on exactly when that packet came at most
      6 seconds ago: so its arrival time can be heard. */
  lemma AgeDecides(env: Codecs, q: Queue, n: nat, now: Word, k: nat)
    requires SlotsOk(q.table) && k < SLOTS && q.table.slots[k].inUse && OnlyInUse(q.table, k) && q.canPlay
    requires 1 <= QueueResync.AheadBy(q.play, k) <= MAX_LOST
    ensures DecodeNext(env, q, n, now).canPlay <==> !Aged(q.table.slots[k].received, now)
  {
    DecodeNextFlags(env, q, n, now);
    NotAtPlay(q.table, q.play, now, k);
    OneAhead(q.table, q.play, 1, now, k);
    hide FindNext, DropIfStale, DecodeNext, SlotsOk;
  }
}
