/** Unwrapping of 16-bit sequence numbers into 32-bit extended ones. */
module Rollover {
  import opened Width

  /** `inc` is the note `rolSeq` leaves for `updateRocSeq`. */
  datatype State = State(rollover: Word, prev: Word, inc: bool)

  function Candidate(rollover: int, s: Half): Word {
    Wrap(rollover * 0x1_0000 + s)
  }

  /** Which epoch, relative to the rollover counter, the three distances select. */
  function Pick(d: nat, dm: nat, dp: nat): int {
    if dp < (if dm < d then dm else d) then (if dp > 0x8001 then 2 else 1)
    else if dm < d then -1
    else 0
  }

  /** The extended number for `s`, and whether the rollover counter moves on. */
  function Unwrap(r: State, s: Half): (Word, bool) {
    var g, down, up := Candidate(r.rollover, s), Candidate(r.rollover - 1, s), Candidate(r.rollover + 1, s);
    var p := Pick(Abs(Diff(r.prev, g)), Abs(Diff(r.prev, down)), Abs(Diff(r.prev, up)));
    if p == 2 then (Wrap(up + 0x1_0000), true)
    else (if p == 1 then up else if p == 0 then g else down, false)
  }

  function Accept(r: State, ext: Word): State {
    State(if r.inc then Wrap(r.rollover + 1) else r.rollover, ext, false)
  }

  /** Rejected packets leave only the note behind. */
  function Looked(r: State, s: Half): State {
    r.(inc := Unwrap(r, s).1)
  }

  function Step(r: State, s: Half): State {
    Accept(Looked(r, s), Unwrap(r, s).0)
  }

  function Restart(r: State): State {
    var n := if Wrap(r.rollover + 1) > 80 then 1 else Wrap(r.rollover + 1);
    State(n, Wrap(n * 0x1_0000), false)
  }

  /** The true, unbounded extended numbers behind a state: `prev` was the last
      accepted, `high` the highest so far, `epoch` the unbounded rollover counter. */
  ghost predicate Tracks(r: State, epoch: int, prev: int, high: int) {
    && r.rollover == Wrap(epoch)
    && r.prev == Wrap(prev)
    && high - 0x8001 <= prev <= high
    && (epoch - 1) * 0x1_0000 + 0x8001 <= high < (epoch + 2) * 0x1_0000
  }

  ghost predicate Near(prev: int, high: int, next: int) {
    && Abs(next - prev) < 0x7FFF
    && high - 0x8001 <= next
  }

  function Max(a: int, b: int): int {
    if a < b then b else a
  }

  lemma CandidateOf(epoch: int, c: int, s: Half)
    ensures Candidate(Wrap(epoch) + c, s) == Wrap((epoch + c) * 0x1_0000 + s)
  {
    WrapCongruent((Wrap(epoch) + c) * 0x1_0000 + s, (epoch + c) * 0x1_0000 + s, -(epoch / 0x1_0000_0000) * 0x1_0000);
  }

  lemma Parts(r: State, s: Half, g: Word, down: Word, up: Word, d: nat, dm: nat, dp: nat)
    requires g == Candidate(r.rollover, s) && down == Candidate(r.rollover - 1, s) && up == Candidate(r.rollover + 1, s)
    requires d == Abs(Diff(r.prev, g)) && dm == Abs(Diff(r.prev, down)) && dp == Abs(Diff(r.prev, up))
    ensures
      var p := Pick(d, dm, dp);
      && (p == 2 ==> Unwrap(r, s) == (Wrap(up + 0x1_0000), true))
      && (p != 2 ==> Unwrap(r, s) == (if p == 1 then up else if p == 0 then g else down, false))
  {
  }

  /** The three distances `rolSeq` compares are the true ones. */
  lemma Distance(r: State, epoch: int, prev: int, c: int, s: Half)
    requires r.rollover == Wrap(epoch) && r.prev == Wrap(prev)
    requires Abs(prev - ((epoch + c) * 0x1_0000 + s)) < 0x8000_0000
    ensures Candidate(r.rollover + c, s) == Wrap((epoch + c) * 0x1_0000 + s)
    ensures Diff(r.prev, Candidate(r.rollover + c, s)) == prev - ((epoch + c) * 0x1_0000 + s)
  {
    CandidateOf(epoch, c, s);
    DiffOfNear(prev, (epoch + c) * 0x1_0000 + s);
  }

  function PickFor(epoch: int, prev: int, s: Half): int {
    Pick(Abs(prev - (epoch * 0x1_0000 + s)), Abs(prev - ((epoch - 1) * 0x1_0000 + s)),
         Abs(prev - ((epoch + 1) * 0x1_0000 + s)))
  }

  /** `rolSeq` decides by the true distances. */
  lemma UnwrapByDistance(r: State, epoch: int, prev: int, s: Half)
    requires r.rollover == Wrap(epoch) && r.prev == Wrap(prev)
    requires Abs(prev - epoch * 0x1_0000) < 0x4000_0000
    ensures Unwrap(r, s) == (Wrap((epoch + PickFor(epoch, prev, s)) * 0x1_0000 + s), PickFor(epoch, prev, s) == 2)
  {
    hide Wrap, Diff, Candidate, Unwrap;
    Distance(r, epoch, prev, 0, s);
    Distance(r, epoch, prev, -1, s);
    Distance(r, epoch, prev, 1, s);
    Parts(r, s, Candidate(r.rollover + 0, s), Candidate(r.rollover + -1, s), Candidate(r.rollover + 1, s),
          Abs(prev - (epoch * 0x1_0000 + s)), Abs(prev - ((epoch - 1) * 0x1_0000 + s)),
              Abs(prev - ((epoch + 1) * 0x1_0000 + s)));
    WrapPlus((epoch + 1) * 0x1_0000 + s, 0x1_0000);
  }

  lemma PickNear(epoch: int, prev: int, high: int, q: int, s: Half)
    requires high - 0x8001 <= prev <= high && Near(prev, high, q * 0x1_0000 + s)
    requires (epoch - 1) * 0x1_0000 + 0x8001 <= high < (epoch + 2) * 0x1_0000
    ensures -1 <= q - epoch <= 2 && PickFor(epoch, prev, s) == q - epoch
  {
  }

  /** A near number is unwrapped to itself; the counter moves exactly when the
      number lies two epochs on. */
  lemma UnwrapNear(r: State, epoch: int, prev: int, high: int, next: int)
    requires Tracks(r, epoch, prev, high) && Near(prev, high, next)
    ensures Unwrap(r, next % 0x1_0000) == (Wrap(next), next >= (epoch + 2) * 0x1_0000)
  {
    var q, s := next / 0x1_0000, next % 0x1_0000;
    PickNear(epoch, prev, high, q, s);
    UnwrapByDistance(r, epoch, prev, s);
  }

  function EpochAfter(epoch: int, next: int): int {
    if next >= (epoch + 2) * 0x1_0000 then epoch + 1 else epoch
  }

  lemma StepTracks(r: State, epoch: int, prev: int, high: int, next: int)
    requires Tracks(r, epoch, prev, high) && Near(prev, high, next)
    ensures Tracks(Step(r, next % 0x1_0000), EpochAfter(epoch, next), next, Max(high, next))
    ensures !Step(r, next % 0x1_0000).inc
  {
    UnwrapNear(r, epoch, prev, high, next);
    WrapPlus(epoch, 1);
    hide Unwrap;
  }

  // ----- whole runs

  function Highest(ts: seq<int>): int
    requires ts != []
  {
    if |ts| == 1 then ts[0] else Max(Highest(ts[..|ts| - 1]), ts[|ts| - 1])
  }

  /** Accepted numbers, in arrival order: neighbours differ by less than 2^15 - 1
      and none lies more than 2^15 + 1 behind the highest so far. */
  ghost predicate Orderly(ts: seq<int>) {
    |ts| > 1 ==> var front := ts[..|ts| - 1]; Orderly(front) && Near(front[|front| - 1], Highest(front), ts[|ts| - 1])
  }

  /** The state after accepting packets that carry the low 16 bits of `ts`. */
  function Run(r: State, ts: seq<int>): State {
    if ts == [] then r else Step(Run(r, ts[..|ts| - 1]), ts[|ts| - 1] % 0x1_0000)
  }

  /** The extended numbers those packets get. */
  function Numbers(r: State, ts: seq<int>): seq<Word> {
    if ts == [] then []
    else Numbers(r, ts[..|ts| - 1]) + [Unwrap(Run(r, ts[..|ts| - 1]), ts[|ts| - 1] % 0x1_0000).0]
  }

  ghost predicate Restarted(r: State) {
    r.prev == Wrap(r.rollover * 0x1_0000)
  }

  /** A restart goes on to the next epoch, after 80 to the first, and begins there. */
  lemma RestartBegins(r: State)
    ensures Restarted(Restart(r)) && !Restart(r).inc
    ensures r.rollover < 80 ==> Restart(r).rollover == r.rollover + 1
    ensures 80 <= r.rollover < 0xFFFF_FFFF ==> Restart(r).rollover == 1
  {
  }

  /** A number exactly half way between two epochs stays in that of the counter. */
  lemma HalfWay(r: State, epoch: int, s: Half, up: bool)
    requires r.rollover == Wrap(epoch)
    requires r.prev == Wrap(epoch * 0x1_0000 + s + (if up then 0x8000 else -0x8000))
    ensures Unwrap(r, s) == (Wrap(epoch * 0x1_0000 + s), false)
  {
    hide Unwrap, Wrap;
    UnwrapByDistance(r, epoch, epoch * 0x1_0000 + s + (if up then 0x8000 else -0x8000), s);
  }

  /** The epoch the first packet is put in, and so the shift of the whole run. */
  function Shift(r: State, first: int): int {
    var e := if first % 0x1_0000 > 0x8000 then r.rollover - 1 else r.rollover;
    (e - first / 0x1_0000) * 0x1_0000
  }

  lemma FirstNumber(r: State, first: int)
    requires Restarted(r)
    ensures Unwrap(r, first % 0x1_0000).0 == Wrap(first + Shift(r, first))
    ensures Tracks(Step(r, first % 0x1_0000), r.rollover, first + Shift(r, first), first + Shift(r, first))
  {
    var s, e := first % 0x1_0000, if first % 0x1_0000 > 0x8000 then r.rollover - 1 else r.rollover;
    UnwrapByDistance(r, r.rollover, r.rollover * 0x1_0000, s);
    assert first + Shift(r, first) == e * 0x1_0000 + s;
  }

  lemma LowBits(x: int, k: int)
    ensures (x + k * 0x1_0000) % 0x1_0000 == x % 0x1_0000
  {
  }

  /** One more packet at the end of a tracked run. */
  lemma RunStep(r: State, epoch: int, prev: int, high: int, next: int, k: int)
    requires k % 0x1_0000 == 0 && Near(prev, high, next)
    requires Tracks(r, epoch, prev + k, high + k)
    ensures Unwrap(r, next % 0x1_0000).0 == Wrap(next + k)
    ensures Tracks(Step(r, next % 0x1_0000), EpochAfter(epoch, next + k), next + k, Max(high, next) + k)
  {
    LowBits(next, k / 0x1_0000);
    UnwrapNear(r, epoch, prev + k, high + k, next + k);
    StepTracks(r, epoch, prev + k, high + k, next + k);
  }

  ghost predicate Shifted(r: State, ts: seq<int>, k: int) {
    && |Numbers(r, ts)| == |ts|
    && forall i :: 0 <= i < |ts| ==> Numbers(r, ts)[i] == Wrap(ts[i] + k)
  }

  ghost predicate TracksRun(r: State, ts: seq<int>, k: int, epoch: int)
    requires ts != []
  {
    Shifted(r, ts, k) && Tracks(Run(r, ts), epoch, ts[|ts| - 1] + k, Highest(ts) + k)
  }

  lemma {:induction false} FirstOfRun(r: State, ts: seq<int>)
    requires Restarted(r) && |ts| == 1
    ensures TracksRun(r, ts, Shift(r, ts[0]), r.rollover)
  {
    FirstNumber(r, ts[0]);
    assert ts[..0] == [];
    assert Run(r, ts[..0]) == r && Numbers(r, ts[..0]) == [];
  }

  lemma {:induction false} NextShifted(r: State, ts: seq<int>, k: int)
    requires ts != [] && Shifted(r, ts[..|ts| - 1], k)
    requires Unwrap(Run(r, ts[..|ts| - 1]), ts[|ts| - 1] % 0x1_0000).0 == Wrap(ts[|ts| - 1] + k)
    ensures Shifted(r, ts, k)
  {
    var front := ts[..|ts| - 1];
    forall i | 0 <= i < |ts|
      ensures Numbers(r, ts)[i] == Wrap(ts[i] + k)
    {
      if i < |front| {
        assert Numbers(r, front)[i] == Wrap(front[i] + k);
      }
    }
  }

  lemma {:induction false} NextOfRun(r: State, ts: seq<int>, k: int, epoch: int)
    requires |ts| > 1 && k % 0x1_0000 == 0
    requires TracksRun(r, ts[..|ts| - 1], k, epoch)
    requires Near(ts[|ts| - 2], Highest(ts[..|ts| - 1]), ts[|ts| - 1])
    ensures TracksRun(r, ts, k, EpochAfter(epoch, ts[|ts| - 1] + k))
  {
    var front, last := ts[..|ts| - 1], ts[|ts| - 1];
    assert front[|front| - 1] == ts[|ts| - 2];
    RunStep(Run(r, front), epoch, ts[|ts| - 2], Highest(front), last, k);
    assert Shifted(r, ts, k) by { NextShifted(r, ts, k); }
  }

  lemma ShiftIsMultiple(r: State, first: int)
    ensures Shift(r, first) % 0x1_0000 == 0
  {
  }

  lemma WrapLowBits(x: int)
    ensures Wrap(x) % 0x1_0000 == x % 0x1_0000
  {
    LowBits(x, -(x / 0x1_0000_0000) * 0x1_0000);
  }

  lemma CandidateLowBits(c: int, s: Half)
    ensures Candidate(c, s) % 0x1_0000 == s
    ensures Wrap(Candidate(c, s) + 0x1_0000) % 0x1_0000 == s
  {
    WrapLowBits(c * 0x1_0000 + s);
    LowBits(s, c);
    WrapLowBits(Candidate(c, s) + 0x1_0000);
    LowBits(Candidate(c, s), 1);
  }

  /** The extended number always ends in the 16 bits received. */
  lemma UnwrapLowBits(r: State, s: Half)
    ensures Unwrap(r, s).0 % 0x1_0000 == s
  {
    CandidateLowBits(r.rollover, s);
    CandidateLowBits(r.rollover - 1, s);
    CandidateLowBits(r.rollover + 1, s);
    hide Wrap, Candidate, Diff, Pick;
  }

  /** Over any run, across any number of wraps, the extended numbers are the true
      ones shifted by one constant multiple of 2^16. */
  lemma {:induction false} RunUnwraps(r: State, ts: seq<int>) returns (epoch: int)
    requires Restarted(r) && ts != [] && Orderly(ts)
    ensures Shift(r, ts[0]) % 0x1_0000 == 0
    ensures TracksRun(r, ts, Shift(r, ts[0]), epoch)
  {
    ShiftIsMultiple(r, ts[0]);
    if |ts| == 1 {
      FirstOfRun(r, ts);
      epoch := r.rollover;
    } else {
      var front := ts[..|ts| - 1];
      assert front[0] == ts[0] && front[|front| - 1] == ts[|ts| - 2];
      epoch := RunUnwraps(r, front);
      NextOfRun(r, ts, Shift(r, ts[0]), epoch);
      epoch := EpochAfter(epoch, ts[|ts| - 1] + Shift(r, ts[0]));
    }
  }

  /** The step bound is sharp: a jump of 2^15 - 1 across the wrap is numbered one
      epoch too low. */
  lemma JumpTooFar(r: State, epoch: int)
    requires Tracks(r, epoch, (epoch + 2) * 0x1_0000 - 1, (epoch + 2) * 0x1_0000 - 1)
    ensures
      var next := (epoch + 2) * 0x1_0000 + 0x7FFE;
      next % 0x1_0000 == 0x7FFE && Unwrap(r, 0x7FFE) == (Wrap(next - 0x1_0000), false)
  {
    hide Unwrap, Wrap;
    LowBits(0x7FFE, epoch + 2);
    UnwrapByDistance(r, epoch, (epoch + 2) * 0x1_0000 - 1, 0x7FFE);
    assert PickFor(epoch, (epoch + 2) * 0x1_0000 - 1, 0x7FFE) == 1;
    hide PickFor;
  }

  /** So is the bound on lateness: reached in small steps, a packet 2^15 + 2 behind
      a first packet with low bits 0x8001 is numbered one epoch too high. */
  lemma TooFarBehind(r: State, epoch: int)
    requires Tracks(r, epoch, (epoch - 1) * 0x1_0000 + 1, (epoch - 1) * 0x1_0000 + 0x8001)
    ensures
      var next := (epoch - 1) * 0x1_0000 - 1;
      next % 0x1_0000 == 0xFFFF && Unwrap(r, 0xFFFF) == (Wrap(next + 0x1_0000), false)
  {
    hide Unwrap, Wrap;
    LowBits(0xFFFF, epoch - 2);
    UnwrapByDistance(r, epoch, (epoch - 1) * 0x1_0000 + 1, 0xFFFF);
    assert PickFor(epoch, (epoch - 1) * 0x1_0000 + 1, 0xFFFF) == -1;
    hide PickFor;
  }

  class Roc {
    var rollover: Word
    var prev: Word
    var inc: bool

    ghost function View(): State
      reads this
    {
      State(rollover, prev, inc)
    }

    constructor ()
      ensures View() == Restart(State(0, 0, false))
    {
      rollover, prev, inc := 1, 0x1_0000, false;
    }

    method Reset()
      modifies this
      ensures View() == Restart(old(View()))
    {
      rollover := Wrap(rollover + 1);
      if rollover > 80 {
        rollover := 1;
      }
      prev := Wrap(rollover * 0x1_0000);
      inc := false;
    }

    method RolSeq(s: Half) returns (ext: Word)
      modifies this`inc
      ensures View() == Looked(old(View()), s)
      ensures ext == Unwrap(old(View()), s).0
    {
      ghost var r := View();
      inc := false;
      ext := Candidate(rollover, s);
      var down := Candidate(rollover - 1, s);
      var up := Candidate(rollover + 1, s);
      var d := Abs(Diff(prev, ext));
      var dp := Abs(Diff(prev, up));
      var dm := Abs(Diff(prev, down));
      ghost var pick := Pick(d, dm, dp);
      Parts(r, s, ext, down, up, d, dm, dp);
      if dm < d {
        d := dm;
        ext := down;
      }
      if dp < d {
        d := dp;
        ext := up;
        if d > 0x8001 {
          inc := true;
          ext := Wrap(ext + 0x1_0000);
        }
      }
      assert inc == (pick == 2);
    }

    method UpdateRocSeq(ext: Word)
      modifies this
      ensures View() == Accept(old(View()), ext)
    {
      prev := ext;
      if inc {
        rollover := Wrap(rollover + 1);
        inc := false;
      }
    }
  }
}
