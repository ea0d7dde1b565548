/** The 2x upsampler: however the output is requested, in even or odd pieces, the pieces
    are consecutive parts of one filtered stream. */
module Upsample {
  import opened Buffers
  import opened Width

  function Clamp(x: int): Sample {
    if x < -32766 then -32766 else if x > 32766 then 32766 else x
  }

  // ----- the filtered stream

  /** Sample `k` of the input, silence before its start. */
  function X(xs: seq<Sample>, k: int): Sample {
    if 0 <= k < |xs| then xs[k] else 0
  }

  /** Output `j`, from the five inputs up to input `j / 2`. */
  function Filtered(xs: seq<Sample>, j: nat): Sample {
    var k := j / 2;
    if j % 2 == 0 then Clamp((X(xs, k - 2) * 7 + X(xs, k - 3) * 3 + 4 - X(xs, k - 4) - X(xs, k - 1)) / 8)
    else Clamp((X(xs, k - 2) * 7 + X(xs, k - 1) * 3 + 4 - X(xs, k - 3) - X(xs, k)) / 8)
  }

  /** Outputs `from` up to `from + n`. */
  function Stream(xs: seq<Sample>, from: nat, n: nat): (out: seq<Sample>)
    ensures |out| == n
  {
    if n == 0 then [] else Stream(xs, from, n - 1) + [Filtered(xs, from + n - 1)]
  }

  lemma {:induction false} StreamSplit(xs: seq<Sample>, from: nat, a: nat, b: nat)
    ensures Stream(xs, from, a + b) == Stream(xs, from, a) + Stream(xs, from + a, b)
  {
    hide Filtered;
    if b == 0 {
    } else {
      StreamSplit(xs, from, a, b - 1);
      assert from + (a + b) - 1 == from + a + b - 1;
    }
  }

  // ----- the state machine

  datatype Window = Window(prevPrev: Sample, prev: Sample, cur: Sample, next: Sample)
  datatype State = State(w: Window, hasNext: bool, nextSample: Sample)

  const SILENT := State(Window(0, 0, 0, 0), false, 0)

  function First(w: Window, x: Sample): Sample {
    Clamp((w.cur * 7 + w.prev * 3 + 4 - w.prevPrev - w.next) / 8)
  }

  function Second(w: Window, x: Sample): Sample {
    Clamp((w.cur * 7 + w.next * 3 + 4 - w.prev - x) / 8)
  }

  function Shifted(w: Window, x: Sample): Window {
    Window(w.prev, w.cur, w.next, x)
  }

  /** `m` turns of the loop over the inputs from `i` on. */
  function Loop(w: Window, xs: seq<Sample>, i: nat, m: nat): (r: (Window, seq<Sample>))
    requires i + m <= |xs|
    ensures |r.1| == 2 * m
  {
    if m == 0 then (w, [])
    else
      var (w1, out) := Loop(w, xs, i, m - 1);
      var x := xs[i + m - 1];
      (Shifted(w1, x), out + [First(w1, x), Second(w1, x)])
  }

  function Wanted(samples: nat, request: int): int {
    if request == -1 then samples * 2 else request
  }

  /** What is left of the request once the remembered sample is used. */
  function Rest(s: State, samples: nat, request: int): int {
    Wanted(samples, request) - (if s.hasNext then 1 else 0)
  }

  function Fewer(a: nat, b: nat): nat {
    if a < b then a else b
  }

  /** Turns until `rest` outputs are there; the loop looks only after the first. */
  function Needed(rest: int): nat {
    if rest <= 2 then 1 else (rest + 1) / 2
  }

  /** How many inputs the loop consumes. */
  function Turns(s: State, samples: nat, request: int): nat {
    var rest := Rest(s, samples, request);
    Fewer(samples + rest % 2, Needed(rest))
  }

  /** What `doJob` writes and how many inputs it uses; it may write one more than asked. */
  function Job(s: State, xs: seq<Sample>, i: nat, samples: nat, request: int): (State, seq<Sample>, nat)
    requires i + Turns(s, samples, request) <= |xs|
  {
    var m := Turns(s, samples, request);
    var (w, out) := Loop(s.w, xs, i, m);
    var remember := Rest(s, samples, request) % 2 == 1;
    (State(w, remember, if remember && m > 0 then out[2 * m - 1] else s.nextSample),
     (if s.hasNext then [s.nextSample] else []) + out, m)
  }

  /** The request is one the loop can meet: something is left to ask for, or no input is
      offered, and there is input enough. */
  predicate Servable(s: State, samples: nat, request: int) {
    var rest := Rest(s, samples, request);
    0 <= rest && rest / 2 <= samples && (rest == 0 ==> samples == 0)
  }

  // ----- chunking

  function WindowAt(xs: seq<Sample>, used: nat): Window {
    Window(X(xs, used - 4), X(xs, used - 3), X(xs, used - 2), X(xs, used - 1))
  }

  /** The state after `used` inputs of `xs` and `sent` outputs. */
  ghost predicate At(s: State, xs: seq<Sample>, used: nat, sent: nat) {
    && used <= |xs| && s.w == WindowAt(xs, used)
    && 2 * used - sent == (if s.hasNext then 1 else 0)
    && (s.hasNext ==> s.nextSample == Filtered(xs, sent))
  }

  lemma TurnIsFiltered(xs: seq<Sample>, k: nat)
    requires k < |xs|
    ensures First(WindowAt(xs, k), xs[k]) == Filtered(xs, 2 * k)
    ensures Second(WindowAt(xs, k), xs[k]) == Filtered(xs, 2 * k + 1)
    ensures Shifted(WindowAt(xs, k), xs[k]) == WindowAt(xs, k + 1)
  {
    assert (2 * k) / 2 == k && (2 * k + 1) / 2 == k && (2 * k) % 2 == 0 && (2 * k + 1) % 2 == 1;
  }

  lemma {:induction false} LoopIsStream(xs: seq<Sample>, used: nat, m: nat)
    requires used + m <= |xs|
    ensures Loop(WindowAt(xs, used), xs, used, m) == (WindowAt(xs, used + m), Stream(xs, 2 * used, 2 * m))
  {
    hide WindowAt, First, Second, Shifted, Filtered;
    if m == 0 {
    } else {
      LoopIsStream(xs, used, m - 1);
      var k := used + (m - 1);
      TurnIsFiltered(xs, k);
      assert Stream(xs, 2 * used, 2 * m - 1) == Stream(xs, 2 * used, 2 * (m - 1)) + [Filtered(xs, 2 * k)];
      assert Stream(xs, 2 * used, 2 * m) == Stream(xs, 2 * used, 2 * m - 1) + [Filtered(xs, 2 * k + 1)];
      var a, y, z := Stream(xs, 2 * used, 2 * (m - 1)), Filtered(xs, 2 * k), Filtered(xs, 2 * k + 1);
      assert (a + [y]) + [z] == a + [y, z];
    }
  }

  /** The loop runs exactly as often as a servable request needs. */
  lemma TurnsOfServable(s: State, samples: nat, request: int)
    requires Servable(s, samples, request)
    ensures 2 * Turns(s, samples, request) == Rest(s, samples, request) + Rest(s, samples, request) % 2
  {
  }

  lemma ServableRest(s: State, samples: nat, request: int)
    requires Servable(s, samples, request)
    ensures Rest(s, samples, request) >= 0
  {
  }

  lemma OneFiltered(xs: seq<Sample>, j: nat)
    ensures Stream(xs, j, 1) == [Filtered(xs, j)]
  {
    assert Stream(xs, j, 1) == Stream(xs, j, 0) + [Filtered(xs, j)];
  }

  /** Everything one call writes is the next part of the stream. */
  lemma WrittenIsStream(s: State, xs: seq<Sample>, used: nat, sent: nat, m: nat)
    requires At(s, xs, used, sent) && used + m <= |xs|
    ensures
      var pre := if s.hasNext then [s.nextSample] else [];
      pre + Loop(s.w, xs, used, m).1 == Stream(xs, sent, |pre| + 2 * m)
  {
    hide Loop, WindowAt, Filtered;
    LoopIsStream(xs, used, m);
    if s.hasNext {
      assert sent + 1 == 2 * used;
      StreamSplit(xs, sent, 1, 2 * m);
      OneFiltered(xs, sent);
    }
    hide Stream;
  }

  /** What a call does, from what its loop does. */
  lemma JobParts(s: State, xs: seq<Sample>, i: nat, samples: nat, request: int)
    requires i + Turns(s, samples, request) <= |xs|
    ensures
      var m, remember := Turns(s, samples, request), Rest(s, samples, request) % 2 == 1;
      var ((s', out, used), (w, ys)) := (Job(s, xs, i, samples, request), Loop(s.w, xs, i, m));
      && used == m && s'.w == w && s'.hasNext == remember
      && out == (if s.hasNext then [s.nextSample] else []) + ys
      && (remember && m > 0 ==> s'.nextSample == ys[2 * m - 1])
  {
    hide Loop, Turns;
  }

  /** The counts of a servable request. */
  lemma ServableCounts(s: State, samples: nat, request: int)
    requires Servable(s, samples, request)
    ensures
      var n, rest, pre := Wanted(samples, request), Rest(s, samples, request), if s.hasNext then 1 else 0;
      && n >= 0 && pre + 2 * Turns(s, samples, request) == n + rest % 2
      && (rest % 2 == 1 ==> Turns(s, samples, request) > 0)
  {
    hide Turns, Servable;
    TurnsOfServable(s, samples, request);
    assert Rest(s, samples, request) >= 0 by { ServableRest(s, samples, request); }
  }

  /** All but the last sample of a part, and the last. */
  lemma StreamLast(xs: seq<Sample>, from: nat, n: nat, extra: nat)
    requires extra <= 1
    ensures Stream(xs, from, n + extra)[..n] == Stream(xs, from, n)
    ensures extra == 1 ==> Stream(xs, from, n + 1)[n] == Filtered(xs, from + n)
  {
    hide Filtered;
    assert extra == 1 ==> Stream(xs, from, n + 1) == Stream(xs, from, n) + [Filtered(xs, from + n)];
  }

  /** One request gets the next part of the stream. */
  lemma JobIsNext(s: State, xs: seq<Sample>, used: nat, sent: nat, samples: nat, request: int)
    requires At(s, xs, used, sent) && Servable(s, samples, request)
    requires used + Turns(s, samples, request) <= |xs|
    ensures
      var n := Wanted(samples, request);
      var (s', out, m) := Job(s, xs, used, samples, request);
      && n >= 0 && |out| == n + Rest(s, samples, request) % 2
      && out[..n] == Stream(xs, sent, n) && At(s', xs, used + m, sent + n)
  {
    hide Job, Loop, WindowAt, Filtered, Turns, Stream, Wanted, Rest, Servable;
    var n, m, rest := Wanted(samples, request), Turns(s, samples, request), Rest(s, samples, request);
    ServableCounts(s, samples, request);
    WrittenIsStream(s, xs, used, sent, m);
    LoopIsStream(xs, used, m);
    JobParts(s, xs, used, samples, request);
    StreamLast(xs, sent, n, rest % 2);
    if rest % 2 == 1 {
      var out := Job(s, xs, used, samples, request).1;
      assert out[|out| - 1] == Loop(s.w, xs, used, m).1[2 * m - 1];
    }
  }

  lemma JobTurns(s: State, xs: seq<Sample>, i: nat, samples: nat, request: int)
    requires i + Turns(s, samples, request) <= |xs|
    ensures Job(s, xs, i, samples, request).2 == Turns(s, samples, request)
  {
  }

  /** Given `samples` inputs and no count, a call uses them all and gives twice as many
      outputs. */
  lemma PushGivesTwice(s: State, xs: seq<Sample>, used: nat, sent: nat, samples: nat)
    requires At(s, xs, used, sent) && samples > 0 && used + samples <= |xs|
    ensures Turns(s, samples, -1) == samples
    ensures
      var (s', out, m) := Job(s, xs, used, samples, -1);
      && m == samples && 2 * samples <= |out| <= 2 * samples + 1
      && out[..2 * samples] == Stream(xs, sent, 2 * samples) && At(s', xs, used + samples, sent + 2 * samples)
  {
    assert Turns(s, samples, -1) == samples && Servable(s, samples, -1) && Wanted(samples, -1) == 2 * samples;
    hide Job, Loop, WindowAt, Filtered, Turns, Stream, Wanted, Servable;
    JobIsNext(s, xs, used, sent, samples, -1);
    JobTurns(s, xs, used, samples, -1);
    assert 0 <= Rest(s, samples, -1) % 2 <= 1;
  }

  /** A call has kept the stream: at most one sample more than asked is written, the samples
      asked for are its next part, and so will be those of the next call. */
  ghost predicate Keeps(s: State, xs: seq<Sample>, used: nat, sent: nat, samples: nat, request: int)
    requires used + Turns(s, samples, request) <= |xs|
  {
    var n := Wanted(samples, request);
    var (s', out, m) := Job(s, xs, used, samples, request);
    0 <= n <= |out| <= n + 1 && out[..n] == Stream(xs, sent, n) && At(s', xs, used + m, sent + n)
  }

  /** What a request that is not servable does to the counts. */
  lemma UnservableMiscounts(s: State, xs: seq<Sample>, used: nat, samples: nat, request: int)
    requires used + Turns(s, samples, request) <= |xs| && !Servable(s, samples, request)
    ensures
      var n, m := Wanted(samples, request), Turns(s, samples, request);
      var (s', out, _) := Job(s, xs, used, samples, request);
      n < 0 || |out| < n || |out| > n + 1
      || 2 * m + (if s.hasNext then 1 else 0) - n != (if s'.hasNext then 1 else 0)
  {
    hide Loop;
    assert |Loop(s.w, xs, used, Turns(s, samples, request)).1| == 2 * Turns(s, samples, request);
  }

  /** A call keeps the stream exactly when its request is servable: something is left to ask
      for, or no input is offered, and there is input enough. */
  lemma KeepsExactly(s: State, xs: seq<Sample>, used: nat, sent: nat, samples: nat, request: int)
    requires At(s, xs, used, sent) && used + Turns(s, samples, request) <= |xs|
    ensures Keeps(s, xs, used, sent, samples, request) <==> Servable(s, samples, request)
  {
    if Servable(s, samples, request) {
      JobIsNext(s, xs, used, sent, samples, request);
    } else {
      UnservableMiscounts(s, xs, used, samples, request);
      JobTurns(s, xs, used, samples, request);
    }
    hide Stream, WindowAt, Filtered, Job, Servable, Turns;
  }

  datatype Request = Request(samples: nat, n: int)

  /** Every request is servable when its turn comes, with the inputs there are. */
  predicate Feasible(s: State, xs: seq<Sample>, i: nat, rs: seq<Request>)
    decreases |rs|
  {
    rs != [] ==>
      && Servable(s, rs[0].samples, rs[0].n) && i + Turns(s, rs[0].samples, rs[0].n) <= |xs|
      && Feasible(Job(s, xs, i, rs[0].samples, rs[0].n).0, xs, i + Turns(s, rs[0].samples, rs[0].n), rs[1..])
  }

  function Upto(out: seq<Sample>, n: int): seq<Sample> {
    if 0 <= n <= |out| then out[..n] else out
  }

  /** The samples a series of requests is given, the inputs before `i` being used up. */
  function Serve(s: State, xs: seq<Sample>, i: nat, rs: seq<Request>): (State, seq<Sample>, nat)
    requires Feasible(s, xs, i, rs)
    decreases |rs|
  {
    if rs == [] then (s, [], i)
    else
      var (s1, out, m) := Job(s, xs, i, rs[0].samples, rs[0].n);
      var (s2, rest, i2) := Serve(s1, xs, i + m, rs[1..]);
      (s2, Upto(out, Wanted(rs[0].samples, rs[0].n)) + rest, i2)
  }

  function TotalWanted(rs: seq<Request>): int {
    if rs == [] then 0 else Wanted(rs[0].samples, rs[0].n) + TotalWanted(rs[1..])
  }

  lemma {:induction false} ServeFrom(s: State, xs: seq<Sample>, used: nat, sent: nat, rs: seq<Request>)
    requires At(s, xs, used, sent) && Feasible(s, xs, used, rs)
    ensures TotalWanted(rs) >= 0
    ensures
      var (s', out, used') := Serve(s, xs, used, rs);
      out == Stream(xs, sent, TotalWanted(rs)) && At(s', xs, used', sent + TotalWanted(rs))
    decreases |rs|
  {
    hide Job, At, Servable, Turns, Filtered;
    if rs == [] {
    } else {
      var r := rs[0];
      JobIsNext(s, xs, used, sent, r.samples, r.n);
      var (s1, out, m) := Job(s, xs, used, r.samples, r.n);
      JobTurns(s, xs, used, r.samples, r.n);
      ServeFrom(s1, xs, used + m, sent + Wanted(r.samples, r.n), rs[1..]);
      StreamSplit(xs, sent, Wanted(r.samples, r.n), TotalWanted(rs[1..]));
    }
  }

  /** Chunking cannot be heard: from a reset, for any series of requests, the concatenated
      outputs are a prefix of the stream filtered in one pass, and twice the inputs used
      exceed the outputs by the one sample remembered. */
  lemma ChunkingIsInaudible(xs: seq<Sample>, rs: seq<Request>)
    requires Feasible(SILENT, xs, 0, rs)
    ensures TotalWanted(rs) >= 0
    ensures
      var (s, out, used) := Serve(SILENT, xs, 0, rs);
      out == Stream(xs, 0, TotalWanted(rs)) && 2 * used - |out| == (if s.hasNext then 1 else 0)
  {
    hide Serve, Feasible, Stream, TotalWanted, Filtered;
    ServeFrom(SILENT, xs, 0, 0, rs);
  }

  /** Every call of a series keeps the stream, with the input there is. */
  ghost predicate KeepsAll(s: State, xs: seq<Sample>, used: nat, sent: nat, rs: seq<Request>)
    decreases |rs|
  {
    rs != [] ==>
      var m, n := Turns(s, rs[0].samples, rs[0].n), Wanted(rs[0].samples, rs[0].n);
      && used + m <= |xs| && Keeps(s, xs, used, sent, rs[0].samples, rs[0].n)
      && KeepsAll(Job(s, xs, used, rs[0].samples, rs[0].n).0, xs, used + m, sent + n, rs[1..])
  }

  /** The condition of the chunking law is exact: a series keeps the stream at every call
      if and only if every request is servable when its turn comes. */
  lemma {:induction false} KeepsAllExactly(s: State, xs: seq<Sample>, used: nat, sent: nat, rs: seq<Request>)
    requires At(s, xs, used, sent)
    ensures KeepsAll(s, xs, used, sent, rs) <==> Feasible(s, xs, used, rs)
    decreases |rs|
  {
    hide Job, At, Servable, Turns, Filtered, Stream;
    if rs == [] {
    } else {
      var r := rs[0];
      if used + Turns(s, r.samples, r.n) <= |xs| {
        KeepsExactly(s, xs, used, sent, r.samples, r.n);
        if Servable(s, r.samples, r.n) {
          JobIsNext(s, xs, used, sent, r.samples, r.n);
          JobTurns(s, xs, used, r.samples, r.n);
          var s' := Job(s, xs, used, r.samples, r.n).0;
          KeepsAllExactly(s', xs, used + Turns(s, r.samples, r.n), sent + Wanted(r.samples, r.n), rs[1..]);
        }
      }
    }
  }

  /** The failing family can be reached: after one pull of a single sample from a reset, a
      pull of nothing writes three samples nobody asked for. */
  lemma NothingWhileRemembering(xs: seq<Sample>)
    requires |xs| >= 2
    ensures
      var s := Job(SILENT, xs, 0, 0, 1).0;
      && At(s, xs, 1, 1) && s.hasNext && Turns(s, 0, 0) == 1
      && |Job(s, xs, 1, 0, 0).1| == 3 && !Keeps(s, xs, 1, 1, 0, 0)
  {
    JobIsNext(SILENT, xs, 0, 0, 0, 1);
    hide Stream, WindowAt, Filtered, Loop;
  }

  // ----- what the stream is like

  lemma OnLine(xs: seq<Sample>, k: nat, a: int, slope: int, d: nat)
    requires d <= k < |xs| && xs[k - d] == a + slope * (k - d)
    ensures X(xs, k - d) == a + slope * k - slope * d
  {
  }

  lemma Quarters(slope: int, k: int, d: int)
    ensures slope * (4 * k - d) == 4 * (slope * k) - slope * d
  {
  }

  lemma Rounded(v: int)
    requires -131064 <= v <= 131064
    ensures -2 < 4 * Clamp((2 * v + 4) / 8) - v <= 2
  {
  }

  /** Samples on a straight line stay on it at twice the rate: output `j` is its value at
      `(2 * j - 9) / 4`, rounded to the nearest, upwards in the middle. */
  lemma LineReproduced(xs: seq<Sample>, j: nat, a: int, slope: int)
    requires 4 <= j / 2 < |xs|
    requires forall k :: j / 2 - 4 <= k <= j / 2 ==> xs[k] == a + slope * k
    requires -131064 <= 4 * a + slope * (2 * j - 9) <= 131064
    ensures -2 < 4 * Filtered(xs, j) - (4 * a + slope * (2 * j - 9)) <= 2
  {
    var k := j / 2;
    OnLine(xs, k, a, slope, 0);
    OnLine(xs, k, a, slope, 1);
    OnLine(xs, k, a, slope, 2);
    OnLine(xs, k, a, slope, 3);
    OnLine(xs, k, a, slope, 4);
    Quarters(slope, k, if j % 2 == 0 then 9 else 7);
    assert 2 * j - 9 == 4 * k - (if j % 2 == 0 then 9 else 7);
    hide X, Clamp;
    Rounded(4 * a + slope * (2 * j - 9));
  }

  /** A constant is reproduced exactly once the window is filled with it. */
  lemma ConstantReproduced(xs: seq<Sample>, j: nat, c: Sample)
    requires 4 <= j / 2 < |xs| && -32766 <= c <= 32766
    requires forall k :: j / 2 - 4 <= k <= j / 2 ==> xs[k] == c
    ensures Filtered(xs, j) == c
  {
    hide Filtered;
    LineReproduced(xs, j, c, 0);
  }

  /** No output leaves the range, remembered or not. */
  lemma {:induction false} StreamBounded(xs: seq<Sample>, from: nat, n: nat)
    ensures forall y :: y in Stream(xs, from, n) ==> -32766 <= y <= 32766
  {
    if n == 0 {
    } else {
      StreamBounded(xs, from, n - 1);
    }
  }

  // ----- the class

  class CTUpSample2x {
    var prevPrev: Sample
    var prev: Sample
    var cur: Sample
    var next: Sample
    var hasNext: bool
    var nextSample: Sample

    ghost function View(): State
      reads this
    {
      State(Window(prevPrev, prev, cur, next), hasNext, nextSample)
    }

    constructor ()
      ensures View() == SILENT
    {
      prevPrev, prev, cur, next, hasNext, nextSample := 0, 0, 0, 0, false, 0;
    }

    method Reset()
      modifies this
      ensures View() == SILENT
    {
      prevPrev, prev, cur, next, hasNext, nextSample := 0, 0, 0, 0, false, 0;
    }

    /** One turn of the loop. */
    method Turn(x: Sample) returns (y: Sample, z: Sample)
      modifies this`prevPrev, this`prev, this`cur, this`next
      ensures y == First(old(View()).w, x) && z == Second(old(View()).w, x)
      ensures View() == old(View()).(w := Shifted(old(View()).w, x))
    {
      y := Clamp((cur * 7 + prev * 3 + 4 - prevPrev - next) / 8);
      z := Clamp((cur * 7 + next * 3 + 4 - prev - x) / 8);
      prevPrev := prev;
      prev := cur;
      cur := next;
      next := x;
    }

    /** The loop of `doJob`: at most `n` turns, fewer once `rest` outputs are there. */
    method RunLoop(xs: seq<Sample>, i: nat, n: nat, rest: int, out: array<Sample>, at: nat)
      returns (used: nat, res: Sample)
      requires
        var turns := Fewer(n, Needed(rest));
        i + turns <= |xs| && at + 2 * turns <= out.Length
      modifies this`prevPrev, this`prev, this`cur, this`next, out
      ensures used == Fewer(n, Needed(rest))
      ensures
        var (w, ys) := Loop(old(View()).w, xs, i, used);
        && View() == old(View()).(w := w) && (used > 0 ==> res == ys[2 * used - 1])
        && Wrote(out[..], old(out[..]), at, ys)
    {
      hide First, Second, Shifted;
      var k, left := n, rest;
      used, res := 0, 0;
      while k > 0
        invariant k == n - used && left == rest - 2 * used && used <= Needed(rest) && (k > 0 ==> used < Needed(rest))
        invariant View() == old(View()).(w := Loop(old(View()).w, xs, i, used).0)
        invariant Wrote(out[..], old(out[..]), at, Loop(old(View()).w, xs, i, used).1)
        invariant used > 0 ==> res == Loop(old(View()).w, xs, i, used).1[2 * used - 1]
      {
        ghost var before := out[..];
        var y;
        y, res := Turn(xs[i + used]);
        out[at + 2 * used] := y;
        out[at + 2 * used + 1] := res;
        WroteMore(old(out[..]), before, out[..], at, Loop(old(View()).w, xs, i, used).1, [y, res]);
        used := used + 1;
        k := k - 1;
        left := left - 2;
        if left <= 0 {
          break;
        }
      }
    }

    /** The remembered sample, if any, goes out first. */
    method EmitRemembered(out: array<Sample>, at: nat) returns (p: nat)
      requires at + (if hasNext then 1 else 0) <= out.Length
      modifies this`hasNext, out
      ensures p == at + (if old(hasNext) then 1 else 0) && !hasNext
      ensures Wrote(out[..], old(out[..]), at, if old(hasNext) then [nextSample] else [])
    {
      p := at;
      if hasNext {
        hasNext := false;
        out[p] := nextSample;
        p := p + 1;
      }
    }

    /** `doJob`: writes to `out` from `at` on; the caller leaves room for one more sample
        than it asks for. */
    method DoJob(xs: seq<Sample>, i: nat, samples: nat, out: array<Sample>, at: nat, request: int) returns (used: nat)
      requires i + Turns(View(), samples, request) <= |xs|
      requires at + |Job(View(), xs, i, samples, request).1| <= out.Length
      modifies this, out
      ensures
        var (s, ys, m) := Job(old(View()), xs, i, samples, request);
        View() == s && used == m && Wrote(out[..], old(out[..]), at, ys)
    {
      hide Loop, Wrote;
      ghost var s0, pre := View(), if hasNext then [nextSample] else [];
      var left, n := if request == -1 then samples * 2 else request, samples;
      if hasNext {
        left := left - 1;
      }
      var p := EmitRemembered(out, at);
      ghost var before := out[..];
      var remember := left % 2 == 1;
      if remember {
        n := n + 1;
      }
      var res;
      used, res := RunLoop(xs, i, n, left, out, p);
      if remember {
        hasNext := true;
        nextSample := res;
      }
      WroteMore(old(out[..]), before, out[..], at, pre, Loop(s0.w, xs, i, used).1);
    }
  }
}
