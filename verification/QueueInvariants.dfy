/** What every operation of the queue keeps. */
module QueueInvariants {
  import opened Width
  import opened Wrappers
  import opened RingAllocator
  import opened QueueModel
  import Rollover

  // ----- sums over the table

  function Used(s: Slot): nat {
    if s.inUse then s.len else 0
  }

  function Busy(s: Slot): nat {
    if s.inUse then 1 else 0
  }

  function Total(slots: seq<Slot>, w: Slot -> nat): nat {
    if slots == [] then 0 else Total(slots[..|slots| - 1], w) + w(slots[|slots| - 1])
  }

  lemma {:induction false} TotalUpdate(slots: seq<Slot>, i: nat, s: Slot, w: Slot -> nat)
    requires i < |slots|
    ensures Total(slots[i := s], w) == Total(slots, w) - w(slots[i]) + w(s)
  {
    var n := |slots| - 1;
    if i < n {
      assert slots[i := s][..n] == slots[..n][i := s];
      TotalUpdate(slots[..n], i, s, w);
    } else {
      assert slots[i := s][..n] == slots[..n];
    }
  }

  ghost function InUse(t: Table): nat {
    Total(t.slots, Busy)
  }

  /** `bytesUsed()` minus the lengths held by in-use slots: 0 when the books balance. */
  ghost function Imbalance(t: Table): int {
    t.mem.allocBytes - t.mem.relBytes - Total(t.slots, Used)
  }

  // ----- giving slots back

  ghost predicate SlotOk(s: Slot, i: nat) {
    s.inUse ==>
      && s.ext % SLOTS == i && s.seqRec == s.ext % 0x1_0000
      && (s.codec.Some? ==> s.data.Some? && 1 <= s.len <= MAX_PACK && s.data.value + s.len <= SIZE)
      && (s.codec.None? ==> s.len == 0)
  }

  ghost predicate SlotsOk(t: Table) {
    forall i {:trigger t.slots[i]} :: 0 <= i < SLOTS ==> SlotOk(t.slots[i], i)
  }

  ghost predicate FreedSlot(s: Slot, s': Slot) {
    s' == s || s' == s.(inUse := false)
  }

  /** `t'` is `t` with some slots given back, the books adjusted to match. */
  ghost predicate Frees(t: Table, t': Table) {
    && (forall i {:trigger t'.slots[i]} :: 0 <= i < SLOTS ==> FreedSlot(t.slots[i], t'.slots[i]))
    && t'.mem == t.mem.(relBytes := t'.mem.relBytes)
    && Imbalance(t') == Imbalance(t)
    && (t'.slots == t.slots || InUse(t') < InUse(t))
  }

  lemma FreesTransitive(a: Table, b: Table, c: Table)
    requires Frees(a, b) && Frees(b, c)
    ensures Frees(a, c)
  {
  }

  lemma FreesKeepsSlotsOk(t: Table, t': Table)
    requires SlotsOk(t) && Frees(t, t')
    ensures SlotsOk(t')
  {
  }

  lemma ReleaseFrees(t: Table, i: nat)
    requires SlotsOk(t) && i < SLOTS
    ensures Frees(t, Release(t, i)) && SlotsOk(Release(t, i))
    ensures t.slots[i].inUse ==> InUse(Release(t, i)) < InUse(t)
  {
    var s := t.slots[i].(inUse := false);
    assert SlotOk(t.slots[i], i);
    TotalUpdate(t.slots, i, s, Used);
    TotalUpdate(t.slots, i, s, Busy);
  }

  lemma {:induction false} FindNextFrees(t: Table, from: Word, i: nat, now: Word)
    requires SlotsOk(t)
    ensures Frees(t, FindNext(t, from, i, now).0) && SlotsOk(FindNext(t, from, i, now).0)
    decreases MAX_LOST + 1 - i
  {
    if i > MAX_LOST {
    } else {
      var k := Idx(from + i);
      if !t.slots[k].inUse {
        FindNextFrees(t, from, i + 1, now);
      } else if Diff(now, t.slots[k].received) > 6000 {
        ReleaseFrees(t, k);
        FindNextFrees(Release(t, k), from, i + 1, now);
        FreesTransitive(t, Release(t, k), FindNext(t, from, i, now).0);
      }
    }
  }

  lemma DropIfStaleFrees(t: Table, pos: Word)
    requires SlotsOk(t)
    ensures Frees(t, DropIfStale(t, pos)) && SlotsOk(DropIfStale(t, pos))
  {
    ReleaseFrees(t, Idx(pos));
  }

  lemma LookFrees(t: Table, play: Word, now: Word)
    requires SlotsOk(t)
    ensures Frees(t, Look(t, play, now).0) && SlotsOk(Look(t, play, now).0)
  {
    var t0 := FindNext(t, play, 1, now).0;
    FindNextFrees(t, play, 1, now);
    var t1 := DropIfStale(t0, play);
    DropIfStaleFrees(t0, play);
    DropIfStaleFrees(t1, Wrap(play + 1));
    FreesTransitive(t, t0, t1);
    FreesTransitive(t, t1, Look(t, play, now).0);
  }

  /** Decoding only ever gives slots back, and it gives one back whenever there is
      a packet at the play position. */
  lemma DecodeNextFrees(env: Codecs, q: Queue, n: nat, now: Word)
    requires SlotsOk(q.table)
    ensures
      var q' := DecodeNext(env, q, n, now);
      && Frees(q.table, q'.table) && SlotsOk(q'.table)
      && (Look(q.table, q.play, now).1.inUse ==> InUse(q'.table) < InUse(q.table))
  {
    var t := Look(q.table, q.play, now).0;
    LookFrees(q.table, q.play, now);
    ReleaseFrees(t, Idx(q.play));
    FreesTransitive(q.table, t, Release(t, Idx(q.play)));
  }

  lemma {:induction false} ReleaseBehindFrees(t: Table, pos: Word, k: nat)
    requires SlotsOk(t)
    ensures Frees(t, ReleaseBehind(t, pos, k)) && SlotsOk(ReleaseBehind(t, pos, k))
  {
    if k == 0 {
    } else {
      ReleaseBehindFrees(t, pos, k - 1);
      ReleaseFrees(ReleaseBehind(t, pos, k - 1), Idx(pos - k));
      FreesTransitive(t, ReleaseBehind(t, pos, k - 1), ReleaseBehind(t, pos, k));
    }
  }

  // ----- the invariant of the whole queue

  /** Every in-use slot sits where its number says, and the books balance. */
  ghost predicate Accounted(t: Table) {
    SlotsOk(t) && Imbalance(t) == 0
  }

  ghost predicate RingOk(m: Memory, stores: seq<Store>) {
    WellPlaced(stores) && m.pos == End(stores, |stores|) && Intact(m.buf, stores)
  }

  /** The last accepted packet that went to slot `i`. */
  function LastAt(accepted: seq<Arrival>, i: nat): (r: Option<nat>)
    ensures r.Some? ==> r.value < |accepted|
  {
    var n := |accepted|;
    if n == 0 then None
    else if accepted[n - 1].ext % SLOTS == i then Some(n - 1)
    else LastAt(accepted[..n - 1], i)
  }

  /** A slot holds the last packet accepted for it, or nothing. */
  ghost predicate LinkedSlot(s: Slot, last: Option<nat>, accepted: seq<Arrival>, stores: seq<Store>)
    requires last.Some? ==> last.value < |accepted|
  {
    match last
    case None => !s.inUse
    case Some(k) =>
      && s.ext == accepted[k].ext
      && (s.inUse ==> s.codec == accepted[k].codec)
      && (s.inUse && s.codec.Some? ==>
            var j := accepted[k].store;
            j < |stores| && s.data == Some(stores[j].off) && s.len == |stores[j].data|)
  }

  ghost predicate Linked(t: Table, accepted: seq<Arrival>, stores: seq<Store>) {
    forall i {:trigger t.slots[i]} :: 0 <= i < SLOTS ==> LinkedSlot(t.slots[i], LastAt(accepted, i), accepted, stores)
  }

  /** Another number took the slot of packet `i` before packet `j` came. */
  ghost predicate TakenOver(accepted: seq<Arrival>, i: nat, j: nat)
    requires i < j < |accepted|
  {
    exists k :: i < k < j && accepted[k].ext % SLOTS == accepted[i].ext % SLOTS && accepted[k].ext != accepted[i].ext
  }

  /** A number is accepted again only after another number took its slot. */
  ghost predicate RepeatsSeparated(accepted: seq<Arrival>) {
    forall i, j :: 0 <= i < j < |accepted| && accepted[i].ext == accepted[j].ext ==> TakenOver(accepted, i, j)
  }

  function Accepts(accepted: seq<Arrival>, x: Word): nat {
    var n := |accepted|;
    if n == 0 then 0 else Accepts(accepted[..n - 1], x) + (if accepted[n - 1].ext == x then 1 else 0)
  }

  function Waiting(t: Table, x: Word): nat {
    if t.slots[Idx(x)].inUse && t.slots[Idx(x)].ext == x then 1 else 0
  }

  /** A number is decoded, or waits to be, at most as often as it was accepted. */
  ghost predicate NoneTwice(t: Table, accepted: seq<Arrival>, played: seq<Word>) {
    forall x: Word :: multiset(played)[x] + Waiting(t, x) <= Accepts(accepted, x)
  }

  ghost predicate Sane(q: Queue) {
    && Accounted(q.table)
    && RingOk(q.table.mem, q.stores)
    && Linked(q.table, q.accepted, q.stores)
    && RepeatsSeparated(q.accepted)
    && NoneTwice(q.table, q.accepted, q.sound.played)
  }

  lemma {:induction false} TotalOfIdle(slots: seq<Slot>, w: Slot -> nat)
    requires forall i :: 0 <= i < |slots| ==> w(slots[i]) == 0
    ensures Total(slots, w) == 0
  {
    if slots == [] {
    } else {
      TotalOfIdle(slots[..|slots| - 1], w);
    }
  }

  lemma InitialSane(buf: Ring, play: Word, prevCodec: Option<CodecId>, fed: seq<Feed>)
    ensures Sane(Initial(buf, play, prevCodec, fed))
  {
    TotalOfIdle(Initial(buf, play, prevCodec, fed).table.slots, Used);
  }

  lemma FreesKeepsLinked(t: Table, t': Table, accepted: seq<Arrival>, stores: seq<Store>)
    requires Frees(t, t') && Linked(t, accepted, stores)
    ensures Linked(t', accepted, stores)
  {
    forall i {:trigger t'.slots[i]} | 0 <= i < SLOTS
      ensures LinkedSlot(t'.slots[i], LastAt(accepted, i), accepted, stores)
    {
      assert FreedSlot(t.slots[i], t'.slots[i]);
    }
  }

  lemma FreesKeepsNoneTwice(t: Table, t': Table, accepted: seq<Arrival>, played: seq<Word>)
    requires Frees(t, t') && NoneTwice(t, accepted, played)
    ensures NoneTwice(t', accepted, played)
  {
    forall x: Word
      ensures multiset(played)[x] + Waiting(t', x) <= Accepts(accepted, x)
    {
      assert FreedSlot(t.slots[Idx(x)], t'.slots[Idx(x)]);
      assert multiset(played)[x] + Waiting(t, x) <= Accepts(accepted, x);
    }
  }

  /** Giving slots back disturbs nothing. */
  lemma FreesKeepsSane(q: Queue, q': Queue)
    requires Sane(q) && Frees(q.table, q'.table)
    requires q'.accepted == q.accepted && q'.stores == q.stores && q'.sound.played == q.sound.played
    ensures Sane(q')
  {
    FreesKeepsSlotsOk(q.table, q'.table);
    FreesKeepsLinked(q.table, q'.table, q.accepted, q.stores);
    FreesKeepsNoneTwice(q.table, q'.table, q.accepted, q.sound.played);
  }

  // ----- receiving keeps it

  lemma IdxOfExt(ext: Word, s: Half)
    requires ext % 0x1_0000 == s
    ensures Idx(ext) == Idx(s)
  {
    assert ext == (ext / 0x1_0000 * 64) * SLOTS + s;
    IdxPlus(s, ext / 0x1_0000 * 64);
    hide Idx;
  }

  lemma PutAccounted(t: Table, i: nat, ts: Word, s: Half, ext: Word, data: seq<Byte>, codec: Option<CodecId>, now: Word)
    requires Accounted(t) && i < SLOTS && !t.slots[i].inUse && !Bad(data, codec)
    requires ext % 0x1_0000 == s && Idx(s) == i
    ensures Accounted(Put(t, i, ts, s, ext, data, codec, now))
  {
    var t' := Put(t, i, ts, s, ext, data, codec, now);
    TotalUpdate(t.slots, i, t'.slots[i], Used);
    IdxOfExt(ext, s);
    assert SlotOk(t'.slots[i], i);
  }

  lemma LastAtAppend(a: seq<Arrival>, x: Arrival, i: nat)
    ensures LastAt(a + [x], i) == (if x.ext % SLOTS == i then Some(|a|) else LastAt(a, i))
    ensures Accepts(a + [x], x.ext) == Accepts(a, x.ext) + 1
    ensures forall y :: y != x.ext ==> Accepts(a + [x], y) == Accepts(a, y)
  {
    assert (a + [x])[..|a|] == a;
  }

  lemma {:induction false} LastAtIsLast(a: seq<Arrival>, i: nat, j: nat)
    requires j < |a| && a[j].ext % SLOTS == i
    ensures LastAt(a, i).Some? && j <= LastAt(a, i).value && a[LastAt(a, i).value].ext % SLOTS == i
  {
    var n := |a| - 1;
    if a[n].ext % SLOTS != i {
      LastAtIsLast(a[..n], i, j);
    }
  }

  lemma AcceptedLinked(q: Queue, ts: Word, s: Half, ext: Word, data: seq<Byte>, codec: Option<CodecId>, now: Word)
    requires Linked(q.table, q.accepted, q.stores) && !Bad(data, codec)
    requires ext % 0x1_0000 == s
    ensures var q' := Accepted(q, ts, s, ext, data, codec, now); Linked(q'.table, q'.accepted, q'.stores)
  {
    var q' := Accepted(q, ts, s, ext, data, codec, now);
    var x := Arrival(ext, codec, |q.stores|);
    IdxOfExt(ext, s);
    forall i {:trigger q'.table.slots[i]} | 0 <= i < SLOTS
      ensures LinkedSlot(q'.table.slots[i], LastAt(q'.accepted, i), q'.accepted, q'.stores)
    {
      LastAtAppend(q.accepted, x, i);
      if i != Idx(s) {
        assert LinkedSlot(q.table.slots[i], LastAt(q.accepted, i), q.accepted, q.stores);
      }
    }
  }

  lemma TakenOverAppend(a: seq<Arrival>, x: Arrival, i: nat, j: nat)
    requires i < j < |a| && TakenOver(a, i, j)
    ensures TakenOver(a + [x], i, j)
  {
    var k :| i < k < j && a[k].ext % SLOTS == a[i].ext % SLOTS && a[k].ext != a[i].ext;
    assert (a + [x])[k] == a[k];
  }

  lemma AcceptedSeparated(q: Queue, x: Arrival)
    requires RepeatsSeparated(q.accepted)
    requires Linked(q.table, q.accepted, q.stores)
    requires q.table.slots[Idx(x.ext)].ext != x.ext
    ensures RepeatsSeparated(q.accepted + [x])
  {
    var a := q.accepted;
    var a' := a + [x];
    forall i, j | 0 <= i < j < |a'| && a'[i].ext == a'[j].ext
      ensures TakenOver(a', i, j)
    {
      if j < |a| {
        TakenOverAppend(a, x, i, j);
      } else {
        LastAtIsLast(a, Idx(x.ext), i);
        assert LinkedSlot(q.table.slots[Idx(x.ext)], LastAt(a, Idx(x.ext)), a, q.stores);
        hide LastAt;
        var k := LastAt(a, Idx(x.ext)).value;
        assert a'[k] == a[k];
      }
    }
  }

  lemma AcceptedNoneTwice(q: Queue, ts: Word, s: Half, ext: Word, data: seq<Byte>, codec: Option<CodecId>, now: Word)
    requires NoneTwice(q.table, q.accepted, q.sound.played)
    requires ext % 0x1_0000 == s && q.table.slots[Idx(s)].ext != ext
    ensures var q' := Accepted(q, ts, s, ext, data, codec, now); NoneTwice(q'.table, q'.accepted, q'.sound.played)
  {
    var q' := Accepted(q, ts, s, ext, data, codec, now);
    IdxOfExt(ext, s);
    LastAtAppend(q.accepted, Arrival(ext, codec, |q.stores|), 0);
    forall x: Word
      ensures multiset(q'.sound.played)[x] + Waiting(q'.table, x) <= Accepts(q'.accepted, x)
    {
      assert multiset(q.sound.played)[x] + Waiting(q.table, x) <= Accepts(q.accepted, x);
    }
  }

  lemma AcceptedRing(q: Queue, data: seq<Byte>)
    requires RingOk(q.table.mem, q.stores) && 1 <= |data| <= MAX_PACK
    ensures RingOk(Stored(q.table.mem, data), q.stores + [Store(Place(q.table.mem.pos, |data|), data)])
  {
    IntactAfterStore(q.table.mem.buf, q.stores, data);
    ExtendedWellPlaced(q.stores, data);
  }

  lemma AcceptedSane(q: Queue, ts: Word, s: Half, ext: Word, data: seq<Byte>, codec: Option<CodecId>, now: Word)
    requires Sane(q) && !Bad(data, codec)
    requires ext % 0x1_0000 == s && !q.table.slots[Idx(s)].inUse && q.table.slots[Idx(s)].ext != ext
    ensures Sane(Accepted(q, ts, s, ext, data, codec, now))
  {
    IdxOfExt(ext, s);
    PutAccounted(q.table, Idx(s), ts, s, ext, data, codec, now);
    AcceptedLinked(q, ts, s, ext, data, codec, now);
    AcceptedSeparated(q, Arrival(ext, codec, |q.stores|));
    AcceptedNoneTwice(q, ts, s, ext, data, codec, now);
    if codec.Some? {
      AcceptedRing(q, data);
    }
  }

  /** `addPack` keeps the invariant on every packet: new, repeated, late or malformed. */
  lemma AddPackSane(q: Queue, ts: Word, s: Half, data: seq<Byte>, codec: Option<CodecId>, now: Word)
    requires Sane(q)
    ensures Sane(AddPack(q, ts, s, data, codec, now).0)
  {
    var q1 := q.(roc := Rollover.Looked(q.roc, s));
    var q2 := q1.(table := Release(q1.table, Idx(s)));
    Rollover.UnwrapLowBits(q.roc, s);
    ReleaseFrees(q.table, Idx(s));
    FreesKeepsSane(q, q1);
    FreesKeepsSane(q, q2);
    var slot := q.table.slots[Idx(s)];
    if !(slot.inUse && slot.seqRec == s) && slot.ext != Rollover.Unwrap(q.roc, s).0 && !Bad(data, codec) {
      AcceptedSane(q2, ts, s, Rollover.Unwrap(q.roc, s).0, data, codec, now);
    }
  }

  // ----- decoding keeps it

  /** The packet the source is about to decode carries the number of the play position. */
  lemma LookNumber(t: Table, play: Word, now: Word)
    ensures var cur := Look(t, play, now).1; cur.inUse ==> cur.ext == play
  {
  }

  /** Each step decodes at most one packet, and that is the one at the play position. */
  lemma PlayedAfter(env: Codecs, s: Sound, t: Table, cur: Slot, after: Slot, next: Option<Slot>, n: nat)
    ensures
      var s' := Sounded(env, s, t, cur, after, next, n);
      s'.played == s.played || (IsOK(cur) && s'.played == s.played + [cur.ext])
  {
  }

  /** A step in terms of what it looks at. */
  lemma DecodeNextEffect(env: Codecs, q: Queue, n: nat, now: Word)
    ensures
      var q' := DecodeNext(env, q, n, now);
      var (t, cur, next) := Look(q.table, q.play, now);
      && q'.table == Release(t, Idx(q.play))
      && q'.sound == Sounded(env, q.sound, t, cur, t.slots[Idx(q.play + 1)], next, n)
      && q'.play == Wrap(q.play + 1)
      && q'.accepted == q.accepted && q'.stores == q.stores && q'.roc == q.roc && q'.lastRecv == q.lastRecv
  {
    hide Look, Release, Sounded, Idx, Wrap;
  }

  lemma PlayedNoneTwice(q: Queue, n: nat, now: Word, env: Codecs)
    requires SlotsOk(q.table) && NoneTwice(q.table, q.accepted, q.sound.played)
    ensures var q' := DecodeNext(env, q, n, now); NoneTwice(q'.table, q.accepted, q'.sound.played)
  {
    var q' := DecodeNext(env, q, n, now);
    var (t, cur, next) := Look(q.table, q.play, now);
    DecodeNextEffect(env, q, n, now);
    LookFrees(q.table, q.play, now);
    LookNumber(q.table, q.play, now);
    FreesKeepsNoneTwice(q.table, t, q.accepted, q.sound.played);
    PlayedAfter(env, q.sound, t, cur, t.slots[Idx(q.play + 1)], next, n);
    hide DecodeNext, Look, Sounded;
    forall x: Word
      ensures multiset(q'.sound.played)[x] + Waiting(q'.table, x) <= Accepts(q.accepted, x)
    {
      assert multiset(q.sound.played)[x] + Waiting(t, x) <= Accepts(q.accepted, x);
    }
  }

  lemma DecodeNextSane(env: Codecs, q: Queue, n: nat, now: Word)
    requires Sane(q)
    ensures Sane(DecodeNext(env, q, n, now))
  {
    var q' := DecodeNext(env, q, n, now);
    DecodeNextFrees(env, q, n, now);
    PlayedNoneTwice(q, n, now, env);
    FreesKeepsLinked(q.table, q'.table, q.accepted, q.stores);
  }

  lemma FindBestSane(q: Queue, need: nat)
    requires Sane(q)
    ensures Sane(FindBest(q, need).0)
  {
    var c := Choice(q, need);
    if c.Some? {
      ReleaseBehindFrees(q.table, c.value, BEHIND);
      FreesKeepsSane(q, FindBest(q, need).0);
    } else {
      FreesKeepsSane(q, FindBest(q, need).0);
    }
  }

  lemma ResyncSane(q: Queue, need: nat)
    requires Sane(q)
    ensures Sane(Resync(q, need))
  {
    FindBestSane(q, need);
    FreesKeepsSane(FindBest(q, need).0, Resync(q, need));
  }

  lemma TrimSane(q: Queue, si: int, need: nat, rate: int)
    requires Sane(q)
    ensures Sane(Trim(q, si, need, rate))
  {
    FindBestSane(q, need);
  }

  lemma ResumeSane(q: Queue)
    requires Sane(q)
    ensures Sane(q.(resetPos := false, waiting := 0))
  {
  }

  lemma PositionedSane(q: Queue, need: nat, rate: int)
    requires Sane(q)
    ensures Sane(Positioned(q, need, rate).0)
  {
    hide Sane, Resync, SamplesIn;
    ResyncSane(q, need);
    ResyncSane(if !q.canPlay then Resync(q, need) else q, need);
  }

  lemma PrepareSane(q: Queue, need: nat, rate: int)
    requires Sane(q)
    ensures Sane(Prepare(q, need, rate).0)
  {
    hide Sane, Positioned, Trim;
    PositionedSane(q, need, rate);
    var (q2, si) := Positioned(q, need, rate);
    ResumeSane(q2);
    TrimSane(q2, si, need, rate);
    TrimSane(q2.(resetPos := false, waiting := 0), si, need, rate);
  }
}
