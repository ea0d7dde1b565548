/** What `getData` decides before it decodes, in every state, and what then comes out. */
module QueueDecisions {
  import opened Width
  import opened Wrappers
  import opened QueueModel
  import opened QueueInvariants
  import opened QueuePlayback
  import opened QueueResync

  /** The samples counted as queued: from the play position to the newest packet, and what
      is decoded; none while nothing real has come since construction or a reset. */
  ghost predicate Queued(q: Queue, si: int) {
    si == (if q.waiting == 2 || !q.realData then 0
           else Diff(q.table.slots[Idx(q.lastRecv)].ts, q.playPos) + |q.sound.fifo|)
  }

  /** The code does not count further down than four seconds, which is as good. */
  lemma QueuedIs(q: Queue, si: int, rate: int)
    requires Queued(q, si) && rate > 0
    ensures SamplesIn(q, rate) < -rate <==> si < -rate
    ensures si >= -rate ==> SamplesIn(q, rate) == si
  {
    hide Idx, Diff;
  }

  lemma ResyncRepositions(q: Queue, need: nat) returns (ok: bool, cnt: nat, k: nat)
    ensures Resync(q, need).canPlay == ok && Repositions(q.(canPlay := ok), Resync(q, need), ok, need, cnt, k)
  {
    ok := FindBest(q, need).1;
    cnt, k := FindBestChoosesNearest(q, need);
    hide FindBest, Nearest, AllFar, BehindBy, Idx, At, Wrap, Diff;
  }

  // ----- while it can play

  /** Too many samples are queued: more than four seconds, or three and what is wanted. */
  predicate Overfull(si: int, need: nat, rate: int) {
    si > 4 * rate || si > 3 * rate + need
  }

  /** Nothing is done before decoding as long as no more than a second is missing, there are
      not too many samples, and nothing is waited for. */
  lemma PlaysOn(q: Queue, need: nat, rate: int, si: int)
    requires rate > 0 && q.canPlay && !q.resetPos && q.waiting == 0 && Queued(q, si)
    requires -rate <= si && !Overfull(si, need, rate)
    ensures Prepare(q, need, rate) == (q, true)
  {
    QueuedIs(q, si, rate);
    hide SamplesIn, Queued, Resync, FindBest;
  }

  /** Too many samples: it looks for the best packet again, and plays. */
  lemma CutsBack(q: Queue, need: nat, rate: int, si: int) returns (ok: bool, cnt: nat, k: nat)
    requires rate > 0 && q.canPlay && !q.resetPos && q.waiting == 0 && Queued(q, si)
    requires Overfull(si, need, rate)
    ensures Prepare(q, need, rate).1 && Repositions(q, Prepare(q, need, rate).0, ok, need, cnt, k)
  {
    QueuedIs(q, si, rate);
    cnt, k := FindBestChoosesNearest(q, need);
    ok := FindBest(q, need).1;
    hide SamplesIn, Queued, Resync, FindBest, Repositions;
  }

  lemma ResetAfter(q: Queue, need: nat)
    ensures Resync(q, need).resetPos
  {
  }

  /** More than a second is missing: it looks for the best packet again, and does not play. */
  lemma RunsDry(q: Queue, need: nat, rate: int, si: int) returns (ok: bool, cnt: nat, k: nat)
    requires rate > 0 && q.canPlay && Queued(q, si) && si < -rate
    ensures !Prepare(q, need, rate).1 && Prepare(q, need, rate).0.canPlay == ok
    ensures Repositions(q.(canPlay := ok), Prepare(q, need, rate).0, ok, need, cnt, k)
  {
    QueuedIs(q, si, rate);
    ok, cnt, k := ResyncRepositions(q, need);
    ResetAfter(q, need);
    hide SamplesIn, Queued, Resync, FindBest, Repositions, Trim;
  }

  /** After a reset or a dry spell it waits until the wanted count is there; only then are
      the flags cleared. */
  lemma WaitsForMore(q: Queue, need: nat, rate: int, si: int)
    requires rate > 0 && q.canPlay && (q.resetPos || q.waiting != 0) && Queued(q, si) && -rate <= si
    requires !Overfull(si, need, rate)
    ensures
      Prepare(q, need, rate) == if si < need then (q, false) else (q.(resetPos := false, waiting := 0), true)
  {
    QueuedIs(q, si, rate);
    hide SamplesIn, Queued, Resync, FindBest;
  }

  lemma SameReposition(q: Queue, q1: Queue, q': Queue, ok: bool, need: nat, cnt: nat, k: nat)
    requires Repositions(q, q', ok, need, cnt, k) && q1 == q.(resetPos := q1.resetPos)
    ensures Repositions(q1, q', ok, need, cnt, k)
  {
    hide Nearest, AllFar, BehindBy, Idx, At, Wrap;
  }

  /** ... and if there are too many by then, it looks for the best packet again. */
  lemma CutsBackAtOnce(q: Queue, need: nat, rate: int, si: int) returns (ok: bool, cnt: nat, k: nat)
    requires rate > 0 && q.canPlay && (q.resetPos || q.waiting != 0) && Queued(q, si)
    requires Overfull(si, need, rate) && si >= need
    ensures Prepare(q, need, rate).1
    ensures Repositions(q.(waiting := 0), Prepare(q, need, rate).0, ok, need, cnt, k)
  {
    QueuedIs(q, si, rate);
    var q1 := q.(resetPos := false, waiting := 0);
    cnt, k := FindBestChoosesNearest(q1, need);
    ok := FindBest(q1, need).1;
    SameReposition(q1, q.(waiting := 0), FindBest(q1, need).0, ok, need, cnt, k);
    hide SamplesIn, Queued, Resync, FindBest, Repositions;
  }

  // ----- while it cannot

  lemma FoundCounts(q: Queue, need: nat, rate: int)
    requires Resync(q, need).canPlay && q.waiting != 2 && q.realData && rate > 0
    ensures
      var q1 := Resync(q, need);
      SamplesIn(q1, rate) == Diff(q.table.slots[Idx(q.lastRecv)].ts, q1.playPos) > 0
  {
    hide Choice, ReleaseBehind, Idx, Diff, SamplesIn;
    assert FindBest(q, need).1 == Choice(q, need).Some?;
    ResyncFound(q, need, rate);
    FindBestFound(q, need, Choice(q, need).value);
  }

  lemma NoneTwice(q: Queue, need: nat, rate: int)
    requires !Resync(q, need).canPlay
    ensures
      var q1 := Resync(q, need);
      && q1.table == q.table && !Resync(q1, need).canPlay && Resync(q1, need).table == q.table
  {
    hide Choice, ReleaseBehind, Idx, Wrap;
    assert FindBest(q, need).1 == Choice(q, need).Some?;
    ResyncFailed(q, need);
  }

  /** It looks for the best packet. With none it stays silent; with one it plays if that
      leaves the wanted count ahead, and waits otherwise. */
  lemma StartsOrWaits(q: Queue, need: nat, rate: int) returns (q1: Queue, ok: bool, cnt: nat, k: nat)
    requires rate > 0 && !q.canPlay && q.waiting != 2 && q.realData
    ensures q1.canPlay == ok && Repositions(q.(canPlay := ok), q1, ok, need, cnt, k)
    ensures !ok ==> !Prepare(q, need, rate).1 && Prepare(q, need, rate).0.table == q.table
    ensures ok ==>
      var si := Diff(q.table.slots[Idx(q.lastRecv)].ts, q1.playPos);
      && si > 0 && (si < need ==> Prepare(q, need, rate) == (q1, false))
      && (si >= need ==> Prepare(q, need, rate).1)
      && (si >= need && !Overfull(si, need, rate) ==>
            Prepare(q, need, rate).0 == q1.(resetPos := false, waiting := 0))
  {
    ok, cnt, k := ResyncRepositions(q, need);
    q1 := Resync(q, need);
    ResetAfter(q, need);
    if ok {
      FoundCounts(q, need, rate);
      hide SamplesIn, Resync, FindBest, Repositions, Diff, Idx;
    } else {
      NoneTwice(q, need, rate);
      hide SamplesIn, Resync, FindBest, Repositions, Diff, Idx, Trim;
    }
  }

  // ----- what comes out

  /** While it plays on, the samples that wait come out first, and nothing is lost. */
  lemma PlaysOnDelivers(env: Codecs, q: Queue, n: nat, need: nat, rate: int, si: int, clock: nat -> Word)
    requires Sane(q) && Framed(env) && Bounded(env, q.sound) && n + env.maxFrame <= FIFO_MAX
    requires rate > 0 && q.canPlay && !q.resetPos && q.waiting == 0 && Queued(q, si)
    requires -rate <= si && !Overfull(si, need, rate)
    ensures
      var (q', out) := GetData(env, q, n, need, rate, clock);
      |out| == n && q.sound.fifo <= out + q'.sound.fifo
  {
    PlaysOn(q, need, rate, si);
    PlayingDelivers(env, q, n, need, rate, clock);
    hide Prepare, GetData, Queued, Sane, Pump;
  }

  function Silence(n: int): (s: seq<Sample>)
    ensures |s| == (if n < 0 then 0 else n) && forall i :: 0 <= i < |s| ==> s[i] == 0
  {
    seq(if n < 0 then 0 else n, _ => 0)
  }

  /** With enough samples waiting nothing is decoded: they move up, and so does the play
      position. */
  lemma EnoughWaiting(env: Codecs, q: Queue, n: nat, need: nat, rate: int, si: int, clock: nat -> Word)
    requires SlotsOk(q.table) && n <= |q.sound.fifo|
    requires rate > 0 && q.canPlay && !q.resetPos && q.waiting == 0 && Queued(q, si)
    requires -rate <= si && !Overfull(si, need, rate)
    ensures
      GetData(env, q, n, need, rate, clock) ==
        (q.(sound := q.sound.(fifo := q.sound.fifo[n..]), playPos := Wrap(q.playPos + n)), q.sound.fifo[..n])
  {
    PlaysOn(q, need, rate, si);
    hide Prepare, Queued, SlotsOk, Wrap;
  }

  /** While it waits, they come out too, with silence behind them. */
  lemma WaitingDelivers(env: Codecs, q: Queue, n: nat, need: nat, rate: int, si: int, clock: nat -> Word)
    requires Sane(q) && rate > 0 && q.canPlay && (q.resetPos || q.waiting != 0) && Queued(q, si)
    requires -rate <= si < need && !Overfull(si, need, rate)
    ensures
      var (q', out) := GetData(env, q, n, need, rate, clock);
      && out + q'.sound.fifo == q.sound.fifo + Silence(n - |q.sound.fifo|)
      && |out| == n && q' == q.(sound := q.sound.(fifo := q'.sound.fifo))
  {
    WaitsForMore(q, need, rate, si);
    SaneSlotsOk(q);
    TakeSplits(q.sound.fifo, n);
    hide Prepare, Queued, Sane, SlotsOk, Taken, Left;
    assert Zeros(n - |q.sound.fifo|) == Silence(n - |q.sound.fifo|);
  }
}
