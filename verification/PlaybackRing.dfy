/** The ring between the decoder and the sound card. Positions are stream positions, counted
    in samples; whatever is written inside the window ahead of the play position comes out
    at that position. */
module PlaybackRing {
  import opened Division
  import opened Width
  import opened Wrappers

  // ----- slots

  /** Advancing a slot and wrapping at the end is counting modulo the size. */
  lemma NextSlot(a: nat, n: nat)
    requires n > 0
    ensures (a + 1) % n == (if a % n + 1 == n then 0 else a % n + 1)
  {
    var q, r := a / n, a % n;
    assert a + 1 == q * n + (r + 1);
    if r + 1 == n {
      assert a + 1 == (q + 1) * n;
      DivMod(a + 1, n, q + 1, 0);
    } else {
      DivMod(a + 1, n, q, r + 1);
    }
  }

  lemma LessThanOnce(j: int, k: int, q: int, s: int, n: nat, r: int)
    requires j == q * n + r && k == s * n + r && k - n < j < k + n
    ensures j == k
  {
    AtLeast(q - s, n);
    assert (q - s) * n == q * n - s * n;
  }

  /** Two positions of one window have different slots. */
  lemma SlotsDiffer(p: nat, j: nat, k: nat, n: nat)
    requires n > 0 && p <= j < p + n && p <= k < p + n && j % n == k % n
    ensures j == k
  {
    LessThanOnce(j, k, j / n, k / n, n, j % n);
  }

  /** The byte position modulo the size in bytes, halved, is the slot. */
  lemma SlotOfBytes(pos: nat, n: nat)
    requires n > 0
    ensures (pos % (2 * n)) / 2 == (pos / 2) % n
  {
    var q, r := pos / (2 * n), pos % (2 * n);
    assert pos == (2 * n) * q + r;
    assert pos / 2 == q * n + r / 2 by {
      assert (2 * n) * q == 2 * (q * n);
    }
    DivMod(pos / 2, n, q, r / 2);
  }

  lemma ThreeDivides(rate: nat, d: int)
    ensures 6 * rate * d == 3 * (2 * (rate * d))
  {
  }

  /** No buffer of six seconds divides 2^31 samples, at any rate. */
  lemma HalfRangeMoves(k: nat, rate: nat)
    requires rate > 0
    ensures (k + 0x8000_0000) % (6 * rate) != k % (6 * rate)
  {
    if (k + 0x8000_0000) % (6 * rate) == k % (6 * rate) {
      var d := SameRemainder(k, 0x8000_0000, 6 * rate);
      ThreeDivides(rate, d);
    }
  }

  /** After `frames` frames the byte position, a 32-bit number, is at the slot of the stream
      position exactly when it has not wrapped. */
  lemma WrapMovesSlots(pos: Word, frames: nat, rate: nat)
    requires rate > 0 && frames < 0x8000_0000
    ensures
      Wrap(pos + 2 * frames) / 2 % (6 * rate) == (pos / 2 + frames) % (6 * rate) <==>
        pos + 2 * frames < 0x1_0000_0000
  {
    var k := Wrap(pos + 2 * frames) / 2;
    if pos + 2 * frames < 0x1_0000_0000 {
      assert k == pos / 2 + frames;
    } else {
      assert pos / 2 + frames == k + 0x8000_0000;
      HalfRangeMoves(k, rate);
    }
  }

  // ----- the ring and its steps

  type Ring = s: seq<Sample> | |s| > 0 witness [0]
  datatype Player = Player(buf: Ring, pos: nat)

  /** `Take` is one frame of a read, which clears what it played or leaves it. */
  datatype Op = Put(at: nat, ys: seq<Sample>) | Take(clear: bool)

  /** `ys` stored from position `at` on. */
  function Stored(buf: Ring, at: nat, ys: seq<Sample>): (r: Ring)
    ensures |r| == |buf|
  {
    if ys == [] then buf
    else Stored(buf, at, ys[..|ys| - 1])[(at + |ys| - 1) % |buf| := ys[|ys| - 1]]
  }

  function Step(s: Player, op: Op): Player {
    match op
    case Put(at, ys) => s.(buf := Stored(s.buf, at, ys))
    case Take(clear) => Player(if clear then s.buf[s.pos % |s.buf| := 0] else s.buf, s.pos + 1)
  }

  /** The state after a run and the samples it played. */
  function Run(s: Player, ops: seq<Op>): (r: (Player, seq<Sample>))
    ensures |r.0.buf| == |s.buf|
  {
    if ops == [] then (s, [])
    else
      var (s1, out) := Run(s, ops[..|ops| - 1]);
      var op := ops[|ops| - 1];
      (Step(s1, op), if op.Take? then out + [s1.buf[s1.pos % |s1.buf|]] else out)
  }

  lemma Associates(a: seq<Sample>, b: seq<Sample>, c: seq<Sample>)
    ensures (a + b) + c == a + (b + c)
  {
  }

  lemma RunExtended(s: Player, ops: seq<Op>, op: Op)
    ensures
      var (s1, out) := Run(s, ops);
      Run(s, ops + [op]) == (Step(s1, op), if op.Take? then out + [s1.buf[s1.pos % |s1.buf|]] else out)
  {
    hide Step;
    assert (ops + [op])[..|ops|] == ops;
  }

  lemma RunNothing(s: Player)
    ensures Run(s, []) == (s, [])
  {
  }

  lemma {:induction false} RunAppend(s: Player, a: seq<Op>, b: seq<Op>)
    ensures
      var (s1, out1) := Run(s, a);
      var (s2, out2) := Run(s1, b);
      Run(s, a + b) == (s2, out1 + out2)
  {
    hide Run, Step;
    if b == [] {
      assert a + b == a;
      RunNothing(Run(s, a).0);
      assert Run(s, a).1 + [] == Run(s, a).1;
    } else {
      var before, op := b[..|b| - 1], b[|b| - 1];
      RunAppend(s, a, before);
      RunExtended(s, a + before, op);
      assert (a + before) + [op] == a + b;
      RunExtended(Run(s, a).0, before, op);
      assert before + [op] == b;
      var x := Run(Run(s, a).0, before).0;
      if op.Take? {
        Associates(Run(s, a).1, Run(Run(s, a).0, before).1, [x.buf[x.pos % |x.buf|]]);
      }
    }
  }

  // ----- the timeline

  function Played(ops: seq<Op>): nat {
    if ops == [] then 0 else Played(ops[..|ops| - 1]) + (if ops[|ops| - 1].Take? then 1 else 0)
  }

  function Covers(op: Op, k: nat): bool {
    op.Put? && op.at <= k < op.at + |op.ys|
  }

  /** What position `k` sounds like after a run from a silent buffer at position `p`: the
      last thing put there; else silence, or without clearing what was one buffer before. */
  function Heard(n: nat, p: nat, ops: seq<Op>, k: nat): Sample
    requires n > 0
    decreases |ops|
  {
    if ops == [] then 0
    else
      var op, before := ops[|ops| - 1], ops[..|ops| - 1];
      if Covers(op, k) then op.ys[k - op.at]
      else if op.Take? && k >= p + Played(before) + n then
        if op.clear then 0 else Heard(n, p, before, k - n)
      else Heard(n, p, before, k)
  }

  /** Every write lies in the window ahead of the play position of its time. */
  predicate InWindow(n: nat, p: nat, ops: seq<Op>) {
    ops != [] ==>
      var op, before := ops[|ops| - 1], ops[..|ops| - 1];
      && InWindow(n, p, before)
      && (op.Put? ==> p + Played(before) <= op.at && op.at + |op.ys| <= p + Played(before) + n)
  }

  ghost predicate Shows(s: Player, p: nat, ops: seq<Op>) {
    && s.pos == p + Played(ops)
    && forall k :: s.pos <= k < s.pos + |s.buf| ==> s.buf[k % |s.buf|] == Heard(|s.buf|, p, ops, k)
  }

  /** A store inside the window changes those positions and no other. */
  lemma {:induction false} StoredAt(buf: Ring, at: nat, ys: seq<Sample>, p: nat, k: nat)
    requires p <= at && at + |ys| <= p + |buf| && p <= k < p + |buf|
    ensures Stored(buf, at, ys)[k % |buf|] == if at <= k < at + |ys| then ys[k - at] else buf[k % |buf|]
  {
    if ys == [] {
    } else {
      StoredAt(buf, at, ys[..|ys| - 1], p, k);
      var last := at + |ys| - 1;
      if k % |buf| == last % |buf| {
        SlotsDiffer(p, k, last, |buf|);
      }
    }
  }

  lemma PutShows(s: Player, p: nat, ops: seq<Op>, op: Op)
    requires Shows(s, p, ops) && op.Put? && InWindow(|s.buf|, p, ops + [op])
    ensures Shows(Step(s, op), p, ops + [op])
  {
    var n, all := |s.buf|, ops + [op];
    assert all[..|all| - 1] == ops;
    forall k | s.pos <= k < s.pos + n
      ensures Stored(s.buf, op.at, op.ys)[k % n] == Heard(n, p, all, k)
    {
      StoredAt(s.buf, op.at, op.ys, s.pos, k);
    }
  }

  lemma TakeShows(s: Player, p: nat, ops: seq<Op>, op: Op)
    requires Shows(s, p, ops) && op.Take?
    ensures Shows(Step(s, op), p, ops + [op])
  {
    var n, all, s' := |s.buf|, ops + [op], Step(s, op);
    assert all[..|all| - 1] == ops;
    forall k | s'.pos <= k < s'.pos + n
      ensures s'.buf[k % n] == Heard(n, p, all, k)
    {
      if k == s.pos + n {
        DivMod(k, n, s.pos / n + 1, s.pos % n) by {
          assert s.pos == n * (s.pos / n) + s.pos % n;
        }
        assert s.buf[s.pos % n] == Heard(n, p, ops, s.pos);
      } else {
        if k % n == s.pos % n {
          SlotsDiffer(s.pos, k, s.pos, n);
        }
        assert s.buf[k % n] == Heard(n, p, ops, k);
      }
    }
  }

  function Silence(n: nat): (r: seq<Sample>)
    ensures |r| == n && forall k :: 0 <= k < n ==> r[k] == 0
  {
    seq(n, _ => 0)
  }

  lemma SilentShows(n: nat, p: nat)
    requires n > 0
    ensures Shows(Player(Silence(n), p), p, [])
  {
  }

  /** The ring holds the timeline of its window after every run. */
  lemma {:induction false} RingIsTimeline(n: nat, p: nat, ops: seq<Op>)
    requires n > 0 && InWindow(n, p, ops)
    ensures Shows(Run(Player(Silence(n), p), ops).0, p, ops)
  {
    hide Shows, Step, Heard;
    var s := Player(Silence(n), p);
    if ops == [] {
      SilentShows(n, p);
    } else {
      var op, before := ops[|ops| - 1], ops[..|ops| - 1];
      RingIsTimeline(n, p, before);
      assert before + [op] == ops;
      if op.Put? {
        PutShows(Run(s, before).0, p, before, op);
      } else {
        TakeShows(Run(s, before).0, p, before, op);
      }
    }
  }

  /** From a silent buffer, for every run whose writes lie in the window: the samples played
      are, in order, one for each position, what the whole run ever makes of it. */
  lemma {:induction false} OutputsAreTimeline(n: nat, p: nat, ops: seq<Op>)
    requires n > 0 && InWindow(n, p, ops)
    ensures
      var out := Run(Player(Silence(n), p), ops).1;
      |out| == Played(ops) && forall i :: 0 <= i < |out| ==> out[i] == Heard(n, p, ops, p + i)
  {
    hide Step;
    if ops == [] {
    } else {
      var op, before := ops[|ops| - 1], ops[..|ops| - 1];
      OutputsAreTimeline(n, p, before);
      RingIsTimeline(n, p, before);
      var s, out := Run(Player(Silence(n), p), before).0, Run(Player(Silence(n), p), ops).1;
      if op.Take? {
        assert s.buf[s.pos % n] == Heard(n, p, before, s.pos);
      }
      forall i | 0 <= i < |out|
        ensures out[i] == Heard(n, p, ops, p + i)
      {
        assert Heard(n, p, ops, p + i) == Heard(n, p, before, p + i);
      }
    }
  }

  // ----- with clearing

  /** The last sample written at position `k`, silence if none was. */
  function Written(ops: seq<Op>, k: nat): Sample
    decreases |ops|
  {
    if ops == [] then 0
    else if Covers(ops[|ops| - 1], k) then ops[|ops| - 1].ys[k - ops[|ops| - 1].at]
    else Written(ops[..|ops| - 1], k)
  }

  lemma {:induction false} LastWriteCounts(ops: seq<Op>, k: nat, j: nat)
    requires k < |ops| && Covers(ops[k], j) && forall m :: k < m < |ops| ==> !Covers(ops[m], j)
    ensures Written(ops, j) == ops[k].ys[j - ops[k].at]
    decreases |ops|
  {
    if k == |ops| - 1 {
    } else {
      LastWriteCounts(ops[..|ops| - 1], k, j);
    }
  }

  predicate Clearing(ops: seq<Op>) {
    forall op :: op in ops && op.Take? ==> op.clear
  }

  lemma {:induction false} NothingBeyond(n: nat, p: nat, ops: seq<Op>, k: nat)
    requires InWindow(n, p, ops) && k >= p + Played(ops) + n
    ensures Written(ops, k) == 0
    decreases |ops|
  {
    if ops == [] {
    } else {
      NothingBeyond(n, p, ops[..|ops| - 1], k);
    }
  }

  lemma {:induction false} HeardIsWritten(n: nat, p: nat, ops: seq<Op>, k: nat)
    requires n > 0 && InWindow(n, p, ops) && Clearing(ops)
    ensures Heard(n, p, ops, k) == Written(ops, k)
    decreases |ops|
  {
    if ops == [] {
    } else {
      var op, before := ops[|ops| - 1], ops[..|ops| - 1];
      assert op in ops && forall o :: o in before ==> o in ops;
      HeardIsWritten(n, p, before, k);
      if op.Take? && k >= p + Played(before) + n {
        NothingBeyond(n, p, before, k);
      }
    }
  }

  /** When played data is cleared, every sample written is played exactly once, at its
      position, and a position nobody wrote is silent. */
  lemma PlayedOnce(n: nat, p: nat, ops: seq<Op>)
    requires n > 0 && InWindow(n, p, ops) && Clearing(ops)
    ensures
      var out := Run(Player(Silence(n), p), ops).1;
      |out| == Played(ops) && forall i :: 0 <= i < |out| ==> out[i] == Written(ops, p + i)
  {
    hide Run, InWindow, Clearing, Heard, Written;
    OutputsAreTimeline(n, p, ops);
    var out := Run(Player(Silence(n), p), ops).1;
    forall i | 0 <= i < |out|
      ensures out[i] == Written(ops, p + i)
    {
      HeardIsWritten(n, p, ops, p + i);
    }
  }

  // ----- the class

  function Takes(n: nat, clear: bool): (ops: seq<Op>)
    ensures |ops| == n
  {
    if n == 0 then [] else Takes(n - 1, clear) + [Take(clear)]
  }

  lemma {:induction false} PlayedAppend(a: seq<Op>, b: seq<Op>)
    ensures Played(a + b) == Played(a) + Played(b)
  {
    if b == [] {
      assert a + b == a;
    } else {
      PlayedAppend(a, b[..|b| - 1]);
      assert (a + b)[..|a + b| - 1] == a + b[..|b| - 1];
    }
  }

  lemma {:induction false} PlayedTakes(n: nat, clear: bool)
    ensures Played(Takes(n, clear)) == n
  {
    if n == 0 {
    } else {
      PlayedTakes(n - 1, clear);
      assert Takes(n, clear)[..n - 1] == Takes(n - 1, clear);
    }
  }

  lemma PosAfter(pos: Word, frames: nat)
    requires pos + 2 * frames < 0x1_0000_0000
    ensures Wrap(pos + 2 * frames) == pos + 2 * frames && (pos + 2 * frames) / 2 == pos / 2 + frames
  {
  }

  lemma SlotReached(at: nat, n: nat, j: nat) returns (k: nat)
    requires j < n
    ensures at <= k < at + n && k % n == j
  {
    var q, a := at / n, at % n;
    assert at == q * n + a;
    if j >= a {
      k := at + (j - a);
      DivMod(k, n, q, j);
    } else {
      k := at + (j - a) + n;
      assert (q + 1) * n == q * n + n;
      DivMod(k, n, q + 1, j);
    }
  }

  /** Storing silence over the whole buffer leaves nothing of it. */
  lemma StoredSilence(buf: Ring, at: nat)
    ensures Stored(buf, at, Silence(|buf|)) == Silence(|buf|)
  {
    var n := |buf|;
    forall j: nat | j < n
      ensures Stored(buf, at, Silence(n))[j] == 0
    {
      var k := SlotReached(at, n, j);
      StoredAt(buf, at, Silence(n), at, k);
    }
  }

  class CTAudioOutRing {
    const rate: nat
    const sbuf: array<Sample>
    var playPos: Word
    var wPosLast: Word
    var canClear: bool
    ghost var ops: seq<Op>
    ghost var played: seq<Sample>

    /** The buffer holds six seconds. */
    ghost predicate Valid() {
      0 < rate < 0x800_0000 && sbuf.Length == 6 * rate
    }

    ghost function View(): Player
      reads this, sbuf
      requires Valid()
    {
      Player(sbuf[..], playPos / 2)
    }

    /** The record of the past describes the buffer and the position: a run from silence,
        whose position has not wrapped. */
    ghost predicate Told()
      reads this, sbuf
    {
      && Valid() && playPos == 2 * Played(ops)
      && Run(Player(Silence(sbuf.Length), 0), ops) == (View(), played)
    }

    /** Everything played so far, with clearing, is what was written at those positions. */
    lemma PlayedWhatWasWritten()
      requires Told() && InWindow(sbuf.Length, 0, ops) && Clearing(ops)
      ensures |played| == Played(ops) && forall i :: 0 <= i < |played| ==> played[i] == Written(ops, i)
    {
      PlayedOnce(sbuf.Length, 0, ops);
    }

    /** ... so what one write put somewhere is played sample for sample once the play position
        has passed it, if no later write went over it. */
    lemma WriteIsPlayed(k: nat)
      requires Told() && InWindow(sbuf.Length, 0, ops) && Clearing(ops)
      requires k < |ops| && ops[k].Put? && ops[k].at + |ops[k].ys| <= Played(ops)
      requires forall m, j :: k < m < |ops| && ops[k].at <= j < ops[k].at + |ops[k].ys| ==> !Covers(ops[m], j)
      ensures |played| == Played(ops) && played[ops[k].at..ops[k].at + |ops[k].ys|] == ops[k].ys
    {
      PlayedWhatWasWritten();
      var at, ys := ops[k].at, ops[k].ys;
      forall i | 0 <= i < |ys|
        ensures played[at + i] == ys[i]
      {
        LastWriteCounts(ops, k, at + i);
      }
    }

    /** ... and without clearing it is the timeline. */
    lemma PlayedTheTimeline()
      requires Told() && InWindow(sbuf.Length, 0, ops)
      ensures |played| == Played(ops) && forall i :: 0 <= i < |played| ==> played[i] == Heard(sbuf.Length, 0, ops, i)
    {
      OutputsAreTimeline(sbuf.Length, 0, ops);
    }

    constructor (rate: nat)
      requires 0 < rate < 0x800_0000
      ensures Valid() && this.rate == rate && View() == Player(Silence(6 * rate), 0) && wPosLast == 0 && !canClear
      ensures fresh(sbuf) && Told() && ops == [] && played == []
    {
      this.rate := rate;
      sbuf := new Sample[6 * rate](_ => 0);
      playPos, wPosLast, canClear, ops, played := 0, 0, false, [], [];
      new;
      RunNothing(Player(Silence(sbuf.Length), 0));
    }

    method StoreAll(at: nat, ys: seq<Sample>)
      requires Valid()
      modifies sbuf
      ensures sbuf[..] == Stored(old(sbuf[..]), at, ys)
    {
      var w, i := at % sbuf.Length, 0;
      while i < |ys|
        invariant 0 <= i <= |ys| && sbuf[..] == Stored(old(sbuf[..]), at, ys[..i])
        invariant w == (if w == sbuf.Length then sbuf.Length else (at + i) % sbuf.Length)
        invariant w == sbuf.Length ==> (at + i) % sbuf.Length == 0
      {
        if w >= sbuf.Length {
          w := 0;
        }
        sbuf[w] := ys[i];
        NextSlot(at + i, sbuf.Length);
        assert ys[..i + 1][..i] == ys[..i];
        w := w + 1;
        i := i + 1;
      }
      assert ys[..i] == ys;
    }

    /** The loop of a write, which the record takes down. */
    method Write(pos: Word, ys: seq<Sample>)
      requires Valid()
      modifies this`ops, sbuf
      ensures View() == Step(old(View()), Put(pos / 2, ys)) && ops == old(ops) + [Put(pos / 2, ys)]
      ensures old(Told()) ==> Told()
    {
      SlotOfBytes(pos, sbuf.Length);
      ghost var op := Put(pos / 2, ys);
      RunExtended(Player(Silence(sbuf.Length), 0), ops, op);
      PlayedAppend(ops, [op]);
      hide Run, Played, Stored;
      StoreAll(pos / 2, ys);
      ops := ops + [op];
    }

    /** The write loop of `updateFreqOk`; the length is in bytes and no samples given means
        silence. An odd byte is not written. The whole buffer is, where the length is larger,
        where it is not positive, and where neither samples nor a position are given. */
    method Update(p: Option<seq<Sample>>, len: int, pos: Word)
      requires Valid() && (p.Some? ==> (if 0 < len <= 2 * sbuf.Length then len / 2 else sbuf.Length) <= |p.value|)
      modifies this`wPosLast, this`ops, sbuf
      ensures ops != [] && ops == old(ops) + [ops[|ops| - 1]] && View() == Step(old(View()), ops[|ops| - 1])
      ensures p.Some? && 0 < len <= 2 * sbuf.Length ==> ops[|ops| - 1] == Put(pos / 2, p.value[..len / 2])
      ensures p.Some? && !(0 < len <= 2 * sbuf.Length) ==> ops[|ops| - 1] == Put(pos / 2, p.value[..sbuf.Length])
      ensures p.None? && 0 < len <= 2 * sbuf.Length && pos != 0 ==> ops[|ops| - 1] == Put(pos / 2, Silence(len / 2))
      ensures p.None? && (!(0 < len <= 2 * sbuf.Length) || pos == 0) ==>
        ops[|ops| - 1] == Put(pos / 2, Silence(sbuf.Length))
      ensures old(Told()) ==> Told()
      ensures wPosLast == if p.Some? && len != 0 then Wrap(pos + 40) else old(wPosLast)
    {
      hide Run, Played, Stored, Step, Silence, Wrap;
      var l := if len > 2 * sbuf.Length then 2 * sbuf.Length else len;
      var n := if l > 0 && (pos != 0 || p.Some?) then l / 2 else sbuf.Length;
      if p.Some? && len != 0 {
        wPosLast := Wrap(pos + 40);
      }
      Write(pos, if p.Some? then p.value[..n] else Silence(n));
    }

    /** `p` is where position `at` lies; it may still stand at the end of the buffer. */
    predicate PointsAt(p: nat, at: nat)
      requires Valid()
    {
      if p == sbuf.Length then at % sbuf.Length == 0 else p == at % sbuf.Length
    }

    /** One frame of `getNextBufR`. */
    method TakeOne(p: nat, ghost at: nat) returns (y: Sample, q: nat)
      requires Valid() && PointsAt(p, at)
      modifies sbuf
      ensures y == old(sbuf[..])[at % sbuf.Length] && PointsAt(q, at + 1)
      ensures Player(sbuf[..], at + 1) == Step(Player(old(sbuf[..]), at), Take(canClear))
    {
      q := p;
      if q >= sbuf.Length {
        q := 0;
      }
      y := sbuf[q];
      if canClear {
        sbuf[q] := 0;
      }
      NextSlot(at, sbuf.Length);
      q := q + 1;
    }

    function FirstSlot(pos: Word): (p: nat)
      requires Valid()
      ensures PointsAt(p, pos / 2)
    {
      SlotOfBytes(pos, sbuf.Length);
      (pos % (2 * sbuf.Length)) / 2
    }

    lemma SlotOfFirst(pos: Word)
      requires Valid()
      ensures FirstSlot(pos) % sbuf.Length == pos / 2 % sbuf.Length
    {
      hide FirstSlot;
      if FirstSlot(pos) < sbuf.Length {
        DivMod(FirstSlot(pos), sbuf.Length, 0, FirstSlot(pos));
      } else {
        DivMod(FirstSlot(pos), sbuf.Length, 1, 0);
      }
    }

    /** The loop of `getNextBufR`: each frame is one `Take`. */
    method PlayFrames(frames: nat) returns (samples: array<Sample>)
      requires Valid()
      modifies sbuf
      ensures fresh(samples)
      ensures Run(old(View()), Takes(frames, canClear)) == (Player(sbuf[..], old(playPos) / 2 + frames), samples[..])
    {
      hide Run, Step, Stored, PointsAt, FirstSlot;
      ghost var s0: Player, at: nat := View(), playPos / 2;
      RunNothing(s0);
      var p, i := FirstSlot(playPos), 0;
      samples := new Sample[frames](_ => 0);
      while i < frames
        invariant 0 <= i <= frames && PointsAt(p, at + i)
        invariant Run(s0, Takes(i, canClear)) == (Player(sbuf[..], at + i), samples[..i])
      {
        var y;
        RunExtended(s0, Takes(i, canClear), Take(canClear));
        y, p := TakeOne(p, at + i);
        samples[i] := y;
        assert samples[..i + 1] == samples[..i] + [y];
        i := i + 1;
      }
      assert samples[..i] == samples[..];
    }

    /** The play position moves on; the slot it names is that of the next stream position
        exactly when it has not wrapped. */
    method Advance(frames: nat)
      requires Valid()
      modifies this`playPos
      ensures playPos == Wrap(old(playPos) + 2 * frames)
      ensures frames < 0x8000_0000 ==>
        (FirstSlot(playPos) % sbuf.Length == (old(playPos) / 2 + frames) % sbuf.Length <==>
           old(playPos) + 2 * frames < 0x1_0000_0000)
    {
      if frames < 0x8000_0000 {
        WrapMovesSlots(playPos, frames, rate);
      }
      playPos := Wrap(playPos + 2 * frames);
      SlotOfFirst(playPos);
      hide FirstSlot, Wrap;
    }

    /** `getNextBufR`; the play position is a 32-bit number, and once it wraps the next frame
        is read from another slot than that of the next stream position. */
    method GetNext(frames: nat) returns (samples: array<Sample>)
      requires Valid()
      modifies this`playPos, this`ops, this`played, sbuf
      ensures fresh(samples) && playPos == Wrap(old(playPos) + 2 * frames)
      ensures frames < 0x8000_0000 ==>
        (FirstSlot(playPos) % sbuf.Length == (old(playPos) / 2 + frames) % sbuf.Length <==>
           old(playPos) + 2 * frames < 0x1_0000_0000)
      ensures
        var (s, out) := Run(old(View()), Takes(frames, canClear));
        && sbuf[..] == s.buf && samples[..] == out
        && (old(playPos) + 2 * frames < 0x1_0000_0000 ==> View() == s)
      ensures ops == old(ops) + Takes(frames, canClear) && played == old(played) + samples[..]
      ensures old(Told()) && old(playPos) + 2 * frames < 0x1_0000_0000 ==> Told()
    {
      hide Run, Played, Takes, Wrap, Silence, FirstSlot;
      samples := PlayFrames(frames);
      if playPos + 2 * frames < 0x1_0000_0000 {
        PosAfter(playPos, frames);
      }
      RunAppend(Player(Silence(sbuf.Length), 0), ops, Takes(frames, canClear));
      PlayedAppend(ops, Takes(frames, canClear));
      PlayedTakes(frames, canClear);
      Advance(frames);
      ops := ops + Takes(frames, canClear);
      played := played + samples[..];
    }
  }
}
