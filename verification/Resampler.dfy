/** The rate changer in front of the upsampler: it fixes how many samples go in and out, so
    that at twice the rate every request but one is servable. */
module Resampler {
  import opened Buffers
  import opened Division
  import opened Width
  import opened Wrappers
  import opened Upsample

  /** Division of `int` values, which truncates toward zero. */
  function Quotient(a: int, b: int): int
    requires b > 0
  {
    if a >= 0 then a / b else -(-a / b)
  }

  /** It is the quotient of the amounts, with the sign of the dividend. */
  lemma Truncates(a: int, b: int)
    requires a >= 0 && b > 0
    ensures Quotient(a, b) * b <= a < (Quotient(a, b) + 1) * b
    ensures Quotient(-a, b) == -Quotient(a, b)
  {
    var q, r := a / b, a % b;
    assert a == q * b + r && (q + 1) * b == q * b + b;
    if a == 0 {
      DivMod(0, b, 0, 0);
    }
  }

  /** The counts used: an absent one follows from the other. */
  function Counts(inRate: int, outRate: int, samples: nat, request: int): (int, int)
    requires inRate > 0 && outRate > 0
  {
    if samples == 0 then (Quotient(request * inRate, outRate), request)
    else if request == -1 then (samples, Quotient(samples * outRate, inRate))
    else (samples, request)
  }

  /** The mean of two samples, rounded up. */
  function Mean(a: Sample, b: Sample): (m: Sample)
    ensures a <= m <= b || b <= m <= a
    ensures a + b <= 2 * m <= a + b + 1
  {
    (a + b + 1) / 2
  }

  function Halved(xs: seq<Sample>, n: nat): (ys: seq<Sample>)
    requires 2 * n <= |xs|
    ensures |ys| == n && forall k :: 0 <= k < n ==> ys[k] == Mean(xs[2 * k], xs[2 * k + 1])
  {
    if n == 0 then [] else Halved(xs, n - 1) + [Mean(xs[2 * n - 2], xs[2 * n - 1])]
  }

  // ----- the counts

  lemma QuotientIs(a: nat, b: int, q: nat, r: nat)
    requires a == q * b + r && r < b
    ensures Quotient(a, b) == q
  {
    DivMod(a, b, q, r);
  }

  /** At twice the rate a request for `n` outputs offers `n / 2` inputs, and `k` inputs give
      `2 * k` outputs; at half the rate it is the other way round. */
  lemma CountsAgree(r: int, n: nat)
    requires r > 0
    ensures Counts(r, 2 * r, 0, n) == (n / 2, n)
    ensures n > 0 ==> Counts(r, 2 * r, n, -1) == (n, 2 * n)
    ensures Counts(2 * r, r, 0, n) == (2 * n, n)
    ensures n > 0 ==> Counts(2 * r, r, n, -1) == (n, n / 2)
    ensures Counts(r, r, 0, n) == (n, n) && (n > 0 ==> Counts(r, r, n, -1) == (n, n))
  {
    assert n * r == (n / 2) * (2 * r) + (n % 2) * r by {
      assert n == 2 * (n / 2) + n % 2;
    }
    QuotientIs(n * r, 2 * r, n / 2, (n % 2) * r);
    assert n * (2 * r) == (2 * n) * r;
    QuotientIs(n * (2 * r), r, 2 * n, 0);
    QuotientIs(n * r, r, n, 0);
  }

  /** A pull for `n` outputs with `n / 2` inputs offered is servable unless it asks for
      nothing while a sample is remembered; a push of inputs is always servable. */
  lemma PullServable(s: State, n: nat)
    ensures Servable(s, n / 2, n) <==> n > 0 || !s.hasNext
    ensures n > 0 ==> Servable(s, n, -1) && Servable(s, n, 2 * n)
  {
  }

  // ----- pulling at twice the rate

  function Total(ns: seq<nat>): nat {
    if ns == [] then 0 else ns[0] + Total(ns[1..])
  }

  function Pulls(r: int, ns: seq<nat>): (rs: seq<Request>)
    requires r > 0
    ensures |rs| == |ns|
  {
    if ns == [] then []
    else
      var c := Counts(r, 2 * r, 0, ns[0]);
      CountsAgree(r, ns[0]);
      [Request(c.0, c.1)] + Pulls(r, ns[1..])
  }

  /** A pull takes half its outputs, rounded up over the whole run. */
  lemma PullTakes(s: State, xs: seq<Sample>, used: nat, sent: nat, n: nat)
    requires n > 0 && At(s, xs, used, sent) && sent + n <= 2 * |xs|
    ensures Servable(s, n / 2, n) && used + Turns(s, n / 2, n) <= |xs|
  {
    hide WindowAt, Filtered;
    PullServable(s, n);
    TurnsOfServable(s, n / 2, n);
    hide Servable, Turns;
    assert Rest(s, n / 2, n) + Rest(s, n / 2, n) % 2 <= n + 1 - (2 * used - sent);
  }

  /** Positive pulls never ask for more input than half the output, rounded up. */
  lemma {:induction false} PullsFeasible(r: int, s: State, xs: seq<Sample>, used: nat, sent: nat, ns: seq<nat>)
    requires r > 0 && At(s, xs, used, sent) && forall n :: n in ns ==> n > 0
    requires sent + Total(ns) <= 2 * |xs|
    ensures Feasible(s, xs, used, Pulls(r, ns)) && TotalWanted(Pulls(r, ns)) == Total(ns)
    decreases |ns|
  {
    hide Job, At, Filtered, Servable, Turns, Counts;
    if ns == [] {
    } else {
      var n := ns[0];
      CountsAgree(r, n);
      assert Pulls(r, ns)[0] == Request(n / 2, n) && Pulls(r, ns)[1..] == Pulls(r, ns[1..]);
      assert n in ns && forall m :: m in ns[1..] ==> m in ns;
      PullTakes(s, xs, used, sent, n);
      JobIsNext(s, xs, used, sent, n / 2, n);
      JobTurns(s, xs, used, n / 2, n);
      PullsFeasible(r, Job(s, xs, used, n / 2, n).0, xs, used + Turns(s, n / 2, n), sent + n, ns[1..]);
    }
  }

  /** Pulling at twice the rate in pieces of any positive sizes, even or odd, gives one
      stream, and never runs out of input when there is one input for two outputs. */
  lemma PullingIsInaudible(r: int, xs: seq<Sample>, ns: seq<nat>)
    requires r > 0 && Total(ns) <= 2 * |xs| && forall n :: n in ns ==> n > 0
    ensures Feasible(SILENT, xs, 0, Pulls(r, ns))
    ensures
      var (s, out, used) := Serve(SILENT, xs, 0, Pulls(r, ns));
      out == Stream(xs, 0, Total(ns)) && used == (Total(ns) + 1) / 2
  {
    hide Serve, Feasible, Stream, TotalWanted, Filtered, Pulls, Total;
    PullsFeasible(r, SILENT, xs, 0, 0, ns);
    ChunkingIsInaudible(xs, Pulls(r, ns));
  }

  // ----- the class

  class CTResampler {
    var inRate: int
    var outRate: int
    const ups2x: CTUpSample2x

    constructor ()
      ensures inRate == 0 && outRate == 0 && fresh(ups2x) && ups2x.View() == SILENT
    {
      inRate, outRate := 0, 0;
      ups2x := new CTUpSample2x();
    }

    method Reset()
      modifies ups2x
      ensures ups2x.View() == SILENT
    {
      ups2x.Reset();
    }

    method SetRates(i: int, o: int)
      modifies this
      ensures inRate == i && outRate == o
    {
      inRate, outRate := i, o;
    }

    /** There is input and room for what the call consumes and writes. */
    ghost predicate Fits(xs: seq<Sample>, samples: nat, request: int, room: nat)
      reads this, ups2x
      requires inRate > 0 && outRate > 0
    {
      var (k, n) := Counts(inRate, outRate, samples, request);
      if inRate == outRate then k <= |xs| && k <= room
      else if inRate * 2 == outRate then
        k >= 0 && Turns(ups2x.View(), k, n) <= |xs| && |Job(ups2x.View(), xs, 0, k, n).1| <= room
      else if outRate * 2 == inRate then k <= |xs| && k / 2 <= room
      else true
    }

    method CopySamples(xs: seq<Sample>, n: int, out: array<Sample>)
      requires n <= |xs| && n <= out.Length
      modifies out
      ensures Wrote(out[..], old(out[..]), 0, if n > 0 then xs[..n] else [])
    {
      var i := 0;
      while i < n
        invariant 0 <= i && (n > 0 ==> i <= n) && (n <= 0 ==> i == 0)
        invariant Wrote(out[..], old(out[..]), 0, xs[..i])
      {
        out[i] := xs[i];
        i := i + 1;
      }
    }

    method HalveSamples(xs: seq<Sample>, n: int, out: array<Sample>)
      requires 2 * n <= |xs| && n <= out.Length
      modifies out
      ensures Wrote(out[..], old(out[..]), 0, if n > 0 then Halved(xs, n) else [])
    {
      hide Mean;
      var i := 0;
      while i < n
        invariant 0 <= i && (n > 0 ==> i <= n) && (n <= 0 ==> i == 0)
        invariant Wrote(out[..], old(out[..]), 0, Halved(xs, i))
      {
        out[i] := Mean(xs[i * 2], xs[i * 2 + 1]);
        i := i + 1;
      }
    }

    /** `doJob`: `used` is what it reports about the inputs, if it reports at all. */
    method DoJob(xs: seq<Sample>, samples: nat, out: array<Sample>, request: int) returns (r: int, used: Option<int>)
      requires inRate > 0 && outRate > 0 && Fits(xs, samples, request, out.Length)
      modifies ups2x, out
      ensures
        var (k, n) := Counts(inRate, outRate, samples, request);
        var reported := if samples == 0 || request == -1 then Some(k) else None;
        if inRate == outRate then
          r == n && used == reported && ups2x.View() == old(ups2x.View())
          && Wrote(out[..], old(out[..]), 0, if k > 0 then xs[..k] else [])
        else if inRate * 2 == outRate then
          r == n && used == Some(Job(old(ups2x.View()), xs, 0, k, n).2)
          && ups2x.View() == Job(old(ups2x.View()), xs, 0, k, n).0
          && Wrote(out[..], old(out[..]), 0, Job(old(ups2x.View()), xs, 0, k, n).1)
        else if outRate * 2 == inRate then
          r == n && used == reported && ups2x.View() == old(ups2x.View())
          && Wrote(out[..], old(out[..]), 0, if k > 1 then Halved(xs, k / 2) else [])
        else
          r == 0 && used == reported && ups2x.View() == old(ups2x.View()) && out[..] == old(out[..])
    {
      hide Job, Wrote, Turns;
      var k, n := samples as int, request;
      used := None;
      if k == 0 {
        k := Quotient(n * inRate, outRate);
        used := Some(k);
      } else if n == -1 {
        n := Quotient(k * outRate, inRate);
        used := Some(k);
      }
      if outRate == inRate {
        CopySamples(xs, k, out);
        return n, used;
      }
      if inRate * 2 == outRate {
        var u := ups2x.DoJob(xs, 0, k, out, 0, n);
        return n, Some(u);
      } else if outRate * 2 == inRate {
        HalveSamples(xs, Quotient(k, 2), out);
        return n, used;
      }
      return 0, used;
    }
  }
}
