/** The searches of the queue: the best packet to restart from, and the next packet. */
module QueueResync {
  import opened Width
  import opened Wrappers
  import opened QueueModel

  // ----- choosing the best packet

  /** The `j`-th position of a search window. */
  function At(from: Word, j: nat): Word {
    Wrap(from + j)
  }

  predicate Eligible(slots: Slots, newest: Word, pos: Word) {
    slots[Idx(pos)].inUse && Lag(slots, newest, pos) > 0
  }

  function Distance(slots: Slots, newest: Word, need: nat, pos: Word): nat {
    Abs(Lag(slots, newest, pos) - need)
  }

  /** The search starts out looking for something better than this. */
  function Limit(need: nat): nat {
    2 * need + 2000
  }

  /** Position `j` of the window is no better a choice than one at distance `d`, the
      first found being preferred among equals. */
  ghost predicate NoBetter(slots: Slots, newest: Word, from: Word, need: nat, j: nat, d: nat, k: nat) {
    Eligible(slots, newest, At(from, j)) ==>
      d <= Distance(slots, newest, need, At(from, j)) && (j < k ==> d < Distance(slots, newest, need, At(from, j)))
  }

  /** No packet in the window is nearer to the wanted lag, and none before it is as near. */
  ghost predicate Nearest(slots: Slots, newest: Word, from: Word, need: nat, cnt: nat, k: nat) {
    && k < cnt
    && Eligible(slots, newest, At(from, k))
    && Distance(slots, newest, need, At(from, k)) < Limit(need)
    && forall j: nat ::
         j < cnt ==> NoBetter(slots, newest, from, need, j, Distance(slots, newest, need, At(from, k)), k)
  }

  /** Every packet of the window is too far from the wanted lag. */
  ghost predicate AllFar(slots: Slots, newest: Word, from: Word, need: nat, cnt: nat) {
    forall j: nat :: j < cnt ==> NoBetter(slots, newest, from, need, j, Limit(need), 0)
  }

  /** One step of the search, in the terms above. */
  lemma BestStep(slots: Slots, newest: Word, from: Word, need: nat, cnt: nat)
    ensures
      var (best, bd) := Best(slots, newest, from, need, cnt);
      var pos := At(from, cnt);
      Best(slots, newest, from, need, cnt + 1) ==
        (if Eligible(slots, newest, pos) && Distance(slots, newest, need, pos) < bd
         then (Some(pos), Distance(slots, newest, need, pos)) else (best, bd))
  {
    assert from + (cnt + 1) - 1 == from + cnt;
  }

  lemma BestOfNone(slots: Slots, newest: Word, from: Word, need: nat)
    ensures Best(slots, newest, from, need, 0) == (None, 2 * need + 2000)
  {
  }

  ghost predicate SearchResult(slots: Slots, newest: Word, from: Word, need: nat, cnt: nat, r: (Option<Word>, int),
                               k: nat) {
    match r.0
    case None => r.1 == Limit(need) && AllFar(slots, newest, from, need, cnt)
    case Some(best) =>
      && Nearest(slots, newest, from, need, cnt, k)
      && best == At(from, k) && r.1 == Distance(slots, newest, need, best)
  }

  lemma NearestStep(slots: Slots, newest: Word, from: Word, need: nat, cnt: nat, r: (Option<Word>, int), k: nat)
    returns (k': nat)
    requires SearchResult(slots, newest, from, need, cnt, r, k)
    ensures
      var pos := At(from, cnt);
      var r' := if Eligible(slots, newest, pos) && Distance(slots, newest, need, pos) < r.1
                then (Some(pos), Distance(slots, newest, need, pos)) else r;
      SearchResult(slots, newest, from, need, cnt + 1, r', k')
  {
    hide At, Eligible, Distance;
    k' := k;
    var pos := At(from, cnt);
    if Eligible(slots, newest, pos) && Distance(slots, newest, need, pos) < r.1 {
      k' := cnt;
      var d := Distance(slots, newest, need, pos);
      forall j: nat | j < cnt + 1
        ensures NoBetter(slots, newest, from, need, j, d, cnt)
      {
        if j < cnt && r.0.Some? {
          assert NoBetter(slots, newest, from, need, j, r.1, k);
        } else if j < cnt {
          assert NoBetter(slots, newest, from, need, j, Limit(need), 0);
        }
      }
    } else {
      assert NoBetter(slots, newest, from, need, cnt, r.1, if r.0.Some? then k else 0);
    }
  }

  lemma {:induction false} BestIsNearest(slots: Slots, newest: Word, from: Word, need: nat, cnt: nat) returns (k: nat)
    ensures SearchResult(slots, newest, from, need, cnt, Best(slots, newest, from, need, cnt), k)
  {
    k := 0;
    if cnt == 0 {
    } else {
      k := BestIsNearest(slots, newest, from, need, cnt - 1);
      BestStep(slots, newest, from, need, cnt - 1);
      k := NearestStep(slots, newest, from, need, cnt - 1, Best(slots, newest, from, need, cnt - 1), k);
    }
  }

  /** How far slot `i` lies behind position `pos`. */
  function BehindBy(pos: Word, i: nat): nat {
    Idx(pos - i)
  }

  lemma BehindIdx(pos: Word, i: nat, k: nat)
    requires i < SLOTS && k < SLOTS
    ensures BehindBy(pos, i) == k <==> i == Idx(pos - k)
  {
  }

  /** Exactly the slots up to `k` behind are given back. */
  lemma {:induction false} ReleaseBehindExact(t: Table, pos: Word, k: nat, i: nat)
    requires i < SLOTS && k < SLOTS
    ensures
      ReleaseBehind(t, pos, k).slots[i] ==
        (if 1 <= BehindBy(pos, i) <= k then t.slots[i].(inUse := false) else t.slots[i])
  {
    if k == 0 {
    } else {
      ReleaseBehindExact(t, pos, k - 1, i);
      BehindIdx(pos, i, k);
      hide BehindBy, ReleaseBehind, Idx;
    }
  }

  /** How many positions are searched: twenty before anything was decoded, else as many as
      the samples wanted take up, and nine packets more. */
  ghost predicate Reaches(q: Queue, need: nat, cnt: nat) {
    if q.table.slots[Idx(q.lastRecv)].ts == 0 || q.sound.prevDecoded == 0 then cnt == 20
    else cnt >= 10 && (cnt - 10) * q.sound.prevDecoded <= need < (cnt - 9) * q.sound.prevDecoded
  }

  lemma RoundedDown(n: nat, d: nat)
    requires d > 0
    ensures (n / d) * d <= n < (n / d + 1) * d
  {
    assert n == (n / d) * d + n % d && (n / d + 1) * d == (n / d) * d + d;
  }

  lemma WindowReaches(q: Queue, need: nat)
    ensures Reaches(q, need, WindowSize(q, need))
  {
    hide Idx;
    if q.sound.prevDecoded > 0 {
      RoundedDown(need, q.sound.prevDecoded);
      assert WindowSize(q, need) == 20 || WindowSize(q, need) - 10 == need / q.sound.prevDecoded;
    }
  }

  /** What re-synchronising does, and whether it succeeds. If so, the packet chosen has the
      lag nearest to the wanted one among the queued packets of the window, playing starts
      at its timestamp with an empty FIFO, and exactly the 255 slots behind it are given
      back. It fails exactly when every queued packet of the window is too far off, and
      playing is to start five packets behind the newest. */
  ghost predicate Repositions(q: Queue, q': Queue, ok: bool, need: nat, cnt: nat, k: nat) {
    var newest, from := q.table.slots[Idx(q.lastRecv)].ts, Wrap(q.lastRecv - cnt);
    && Reaches(q, need, cnt)
    && q' == q.(table := q'.table, play := q'.play, playPos := q'.playPos, resetPos := true, sound := q'.sound)
    && if ok then
         && Nearest(q.table.slots, newest, from, need, cnt, k) && q'.play == At(from, k)
         && q'.playPos == q.table.slots[Idx(q'.play)].ts && q'.sound == q.sound.(fifo := [])
         && forall i {:trigger q'.table.slots[i]} :: 0 <= i < SLOTS ==>
              q'.table.slots[i] ==
                (if 1 <= BehindBy(q'.play, i) <= 255 then q.table.slots[i].(inUse := false) else q.table.slots[i])
       else
         && AllFar(q.table.slots, newest, from, need, cnt) && q'.table == q.table && q'.sound == q.sound
         && q'.play == Wrap(q.lastRecv - 5)
         && q'.playPos == (if q.playPos == 0 then Wrap(newest - need) else q.playPos)
  }

  lemma FindBestFound(q: Queue, need: nat, pos: Word)
    requires Choice(q, need) == Some(pos)
    ensures
      var (q', ok) := FindBest(q, need);
      && ok && q' == q.(table := q'.table, play := pos, playPos := q.table.slots[Idx(pos)].ts, resetPos := true,
                        sound := q.sound.(fifo := []))
      && forall i {:trigger q'.table.slots[i]} :: 0 <= i < SLOTS ==>
           q'.table.slots[i] ==
             (if 1 <= BehindBy(pos, i) <= 255 then q.table.slots[i].(inUse := false) else q.table.slots[i])
  {
    hide Choice, BehindBy, Idx, ReleaseBehind;
    forall i | 0 <= i < SLOTS
      ensures
        ReleaseBehind(q.table, pos, BEHIND).slots[i] ==
          (if 1 <= BehindBy(pos, i) <= 255 then q.table.slots[i].(inUse := false) else q.table.slots[i])
    {
      ReleaseBehindExact(q.table, pos, BEHIND, i);
    }
  }

  lemma FindBestChoosesNearest(q: Queue, need: nat) returns (cnt: nat, k: nat)
    ensures Repositions(q, FindBest(q, need).0, FindBest(q, need).1, need, cnt, k)
  {
    cnt := WindowSize(q, need);
    WindowReaches(q, need);
    var newest, from := q.table.slots[Idx(q.lastRecv)].ts, Wrap(q.lastRecv - cnt);
    k := BestIsNearest(q.table.slots, newest, from, need, cnt);
    var best := Choice(q, need);
    hide Best, WindowSize, Reaches, AllFar, Nearest, BehindBy, Idx, At;
    if best.Some? {
      FindBestFound(q, need, best.value);
    }
  }

  lemma NearIsNotFar(slots: Slots, newest: Word, from: Word, need: nat, cnt: nat, j: nat)
    requires j < cnt && Eligible(slots, newest, At(from, j)) && Distance(slots, newest, need, At(from, j)) < Limit(need)
    ensures !AllFar(slots, newest, from, need, cnt)
  {
    assert !NoBetter(slots, newest, from, need, j, Limit(need), 0);
  }

  /** A nearest packet and a window full of far ones exclude each other. */
  lemma NearestNotFar(slots: Slots, newest: Word, from: Word, need: nat, cnt: nat, k: nat)
    requires Nearest(slots, newest, from, need, cnt, k)
    ensures !AllFar(slots, newest, from, need, cnt)
  {
    NearIsNotFar(slots, newest, from, need, cnt, k);
  }

  // ----- what the recommended sample count decides

  /** The search finds a packet, and one that leaves as many samples ahead as wanted. */
  predicate Starts(q: Queue, need: nat) {
    var c, newest := Choice(q, need), q.table.slots[Idx(q.lastRecv)].ts;
    c.Some? && need <= Lag(q.table.slots, newest, c.value)
  }

  lemma ChosenIsOlder(q: Queue, need: nat)
    ensures
      var c, newest := Choice(q, need), q.table.slots[Idx(q.lastRecv)].ts;
      c.Some? ==> Eligible(q.table.slots, newest, c.value)
  {
    var cnt, newest := WindowSize(q, need), q.table.slots[Idx(q.lastRecv)].ts;
    var k := BestIsNearest(q.table.slots, newest, Wrap(q.lastRecv - cnt), need, cnt);
    hide Best, WindowSize, Idx, Wrap, Eligible;
  }

  /** Re-synchronising with a packet chosen: what then counts as queued is its lag. */
  lemma ResyncFound(q: Queue, need: nat, rate: int)
    requires Choice(q, need).Some? && q.waiting != 2 && q.realData && rate >= 0
    ensures
      var q', c := Resync(q, need), Choice(q, need).value;
      q'.canPlay && q'.resetPos
      && SamplesIn(q', rate) == Lag(q.table.slots, q.table.slots[Idx(q.lastRecv)].ts, c) > 0
  {
    ChosenIsOlder(q, need);
    var pos := Choice(q, need).value;
    ReleaseBehindExact(q.table, pos, BEHIND, Idx(q.lastRecv));
    hide Choice, ReleaseBehind, BehindBy, Idx, Diff;
  }

  lemma ResyncFailed(q: Queue, need: nat)
    requires Choice(q, need).None?
    ensures !Resync(q, need).canPlay && Choice(Resync(q, need), need).None?
  {
    hide Best, Idx, Wrap, Diff;
  }

  /** A queue that cannot play starts to play exactly when the recommended count lets it:
      when the packet found for that count leaves as many samples ahead. */
  lemma NeedDecides(q: Queue, need: nat, rate: nat)
    requires !q.canPlay && q.waiting != 2 && q.realData
    ensures Prepare(q, need, rate).1 <==> Starts(q, need)
  {
    var q1 := Resync(q, need);
    if Choice(q, need).Some? {
      ResyncFound(q, need, rate);
    } else {
      ResyncFailed(q, need);
      ResyncFailed(q1, need);
    }
    hide Choice, Resync, SamplesIn, Trim, Lag, Idx;
  }

  /** Nothing is queued but the newest packet and the one before it, `lag` earlier. */
  ghost predicate TwoQueued(q: Queue, lag: int) {
    && q.table.slots[Idx(q.lastRecv)].inUse && q.table.slots[Idx(q.lastRecv - 1)].inUse
    && (forall i :: 0 <= i < SLOTS && q.table.slots[i].inUse ==> i == Idx(q.lastRecv) || i == Idx(q.lastRecv - 1))
    && lag == Diff(q.table.slots[Idx(q.lastRecv)].ts, q.table.slots[Idx(q.lastRecv - 1)].ts)
  }

  lemma WindowAtLeast(q: Queue, need: nat)
    ensures WindowSize(q, need) >= 10
  {
  }

  lemma SameTime(ts: Word)
    ensures Diff(ts, ts) == 0
  {
  }

  /** The position of the earlier packet is in the window and will do. */
  lemma EarlierWillDo(q: Queue, need: nat, lag: int, from: Word, j: nat, cnt: nat)
    requires TwoQueued(q, lag) && 0 < lag < 2000 && from == Wrap(q.lastRecv - cnt) && cnt == j + 1
    ensures !AllFar(q.table.slots, q.table.slots[Idx(q.lastRecv)].ts, from, need, cnt)
  {
    var newest := q.table.slots[Idx(q.lastRecv)].ts;
    WrapPlus(q.lastRecv - cnt, j);
    IdxWrap(q.lastRecv - 1);
    hide Idx, Wrap, AllFar;
    assert At(from, j) == Wrap(q.lastRecv - 1);
    NearIsNotFar(q.table.slots, newest, from, need, cnt, j);
  }

  /** The search finds the earlier of the two. */
  lemma ChoosesEarlier(q: Queue, need: nat, lag: int)
    requires TwoQueued(q, lag) && 0 < lag < 2000
    ensures Choice(q, need).Some? && Idx(Choice(q, need).value) == Idx(q.lastRecv - 1)
  {
    var cnt, newest := WindowSize(q, need), q.table.slots[Idx(q.lastRecv)].ts;
    var from := Wrap(q.lastRecv - cnt);
    WindowAtLeast(q, need);
    var k := BestIsNearest(q.table.slots, newest, from, need, cnt);
    EarlierWillDo(q, need, lag, from, cnt - 1, cnt);
    ChosenIsOlder(q, need);
    SameTime(newest);
    hide Best, WindowSize, Idx, Wrap, AllFar, Nearest, Diff;
  }

  /** With two packets queued playing starts exactly when it is asked to keep no more
      samples back than lie between them. */
  lemma TwoStart(q: Queue, need: nat, lag: int)
    requires TwoQueued(q, lag) && 0 < lag < 2000
    ensures Starts(q, need) <==> need <= lag
  {
    ChoosesEarlier(q, need, lag);
    hide Choice, Idx, Diff;
  }

  // ----- the next packet

  predicate Expired(s: Slot, now: Word) {
    s.inUse && Diff(now, s.received) > 6000
  }

  predicate Live(s: Slot, now: Word) {
    s.inUse && !Expired(s, now)
  }

  /** How far slot `k` lies ahead of position `from`. */
  function AheadBy(from: Word, k: nat): nat {
    Idx(k - from)
  }

  lemma AheadIdx(from: Word, k: nat, i: nat)
    requires i < SLOTS && k < SLOTS
    ensures AheadBy(from, k) == i <==> k == Idx(from + i)
  {
  }

  /** Where the search starting at distance `i` stops. */
  function StopAt(t: Table, from: Word, i: nat, now: Word): (stop: nat)
    ensures i <= stop && (i <= MAX_LOST ==> stop <= MAX_LOST + 1)
    decreases MAX_LOST + 1 - i
  {
    if i > MAX_LOST then i else if Live(t.slots[Idx(from + i)], now) then i else StopAt(t, from, i + 1, now)
  }

  lemma ReleaseSlot(t: Table, j: nat, k: nat)
    requires j < SLOTS && k < SLOTS
    ensures Release(t, j).slots[k] == (if j == k then t.slots[k].(inUse := false) else t.slots[k])
  {
  }

  /** One turn of the search and of where it stops. */
  lemma FindNextTurn(t: Table, from: Word, i: nat, now: Word)
    requires i <= MAX_LOST
    ensures
      var s := t.slots[Idx(from + i)];
      && FindNext(t, from, i, now) ==
           (if !s.inUse then FindNext(t, from, i + 1, now)
            else if Expired(s, now) then FindNext(Release(t, Idx(from + i)), from, i + 1, now)
            else (t, Some(Idx(from + i))))
      && StopAt(t, from, i, now) == (if s.inUse && !Expired(s, now) then i else StopAt(t, from, i + 1, now))
  {
    hide Idx, Diff, Release;
  }

  lemma {:induction false} StopAtAfterRelease(t: Table, j: nat, from: Word, i: nat, now: Word)
    requires j < SLOTS && Expired(t.slots[j], now)
    ensures StopAt(Release(t, j), from, i, now) == StopAt(t, from, i, now)
    decreases MAX_LOST + 1 - i
  {
    if i > MAX_LOST {
    } else {
      StopAtAfterRelease(t, j, from, i + 1, now);
    }
  }

  lemma SearchOver(t: Table, from: Word, i: nat, now: Word)
    requires i > MAX_LOST
    ensures FindNext(t, from, i, now) == (t, None) && StopAt(t, from, i, now) == i
  {
  }

  lemma StopsFrom(t: Table, from: Word, i: nat, now: Word)
    requires i <= MAX_LOST && !Live(t.slots[Idx(from + i)], now)
    ensures StopAt(t, from, i, now) == StopAt(t, from, i + 1, now) > i
  {
    hide Live, Idx;
  }

  /** `findNext` stops at the first live packet; it gives back exactly the expired ones
      it passes and touches nothing else. */
  lemma {:induction false} FindNextExact(t: Table, from: Word, i: nat, now: Word, k: nat)
    requires k < SLOTS
    ensures
      var (t', next) := FindNext(t, from, i, now);
      var stop := StopAt(t, from, i, now);
      && next == (if stop <= MAX_LOST then Some(Idx(from + stop)) else None)
      && t'.slots[k] == (if i <= AheadBy(from, k) < stop then t.slots[k].(inUse := false) else t.slots[k])
    decreases MAX_LOST + 1 - i
  {
    hide AheadBy, Idx, Expired, Release, FindNext, StopAt;
    if i > MAX_LOST {
      SearchOver(t, from, i, now);
    } else {
      var j := Idx(from + i);
      AheadIdx(from, k, i);
      FindNextTurn(t, from, i, now);
      if !t.slots[j].inUse {
        FindNextExact(t, from, i + 1, now, k);
        StopsFrom(t, from, i, now);
      } else if Expired(t.slots[j], now) {
        StopsFrom(t, from, i, now);
        ReleaseSlot(t, j, k);
        StopAtAfterRelease(t, j, from, i + 1, now);
        FindNextExact(Release(t, j), from, i + 1, now, k);
      }
    }
  }

  lemma {:induction false} StopAtFirstLive(t: Table, from: Word, i: nat, now: Word, j: nat)
    requires i <= j && j < StopAt(t, from, i, now) && j <= MAX_LOST
    ensures !Live(t.slots[Idx(from + j)], now)
    decreases MAX_LOST + 1 - i
  {
    if i == j {
    } else {
      StopAtFirstLive(t, from, i + 1, now, j);
    }
  }
}
