/** The network must answer as promptly as the verdict needs: if it does not, some run ends
    with the wrong label or runs past the deadline. */
module StunExact {
  import opened StunModel
  import opened StunNat
  import opened Wrappers

  // ----- reachability

  ghost predicate Reaches(n: Net, d: Delays, a: World, b: World) {
    exists es :: AllowedRun(n, d, a, es) && Run(n, a, es) == b
  }

  lemma {:induction false} RunAppend(n: Net, d: Delays, w: World, xs: seq<Event>, ys: seq<Event>)
    requires AllowedRun(n, d, w, xs) && AllowedRun(n, d, Run(n, w, xs), ys)
    ensures AllowedRun(n, d, w, xs + ys) && Run(n, w, xs + ys) == Run(n, Run(n, w, xs), ys)
    decreases |xs|
  {
    hide Step, Allowed;
    if xs == [] {
      assert xs + ys == ys;
    } else {
      RunAppend(n, d, Step(n, w, xs[0]), xs[1..], ys);
      assert (xs + ys)[1..] == xs[1..] + ys;
    }
  }

  lemma Still(n: Net, d: Delays, a: World)
    ensures Reaches(n, d, a, a)
  {
    assert AllowedRun(n, d, a, []) && Run(n, a, []) == a;
  }

  lemma Then(n: Net, d: Delays, a: World, b: World, c: World)
    requires Reaches(n, d, a, b) && Reaches(n, d, b, c)
    ensures Reaches(n, d, a, c)
  {
    var xs :| AllowedRun(n, d, a, xs) && Run(n, a, xs) == b;
    var ys :| AllowedRun(n, d, b, ys) && Run(n, b, ys) == c;
    RunAppend(n, d, a, xs, ys);
  }

  lemma ThenStep(n: Net, d: Delays, a: World, b: World, e: Event)
    requires Reaches(n, d, a, b) && Allowed(n, d, b, e)
    ensures Reaches(n, d, a, Step(n, b, e))
  {
    hide Allowed, Step;
    var w := Step(n, b, e);
    assert [e][1..] == [];
    assert AllowedRun(n, d, w, []) && Run(n, w, []) == w;
    assert AllowedRun(n, d, b, [e]) && Run(n, b, [e]) == w;
    Then(n, d, a, b, w);
  }

  // ----- turns of the loop

  /** The time after `j` more turns. */
  function Later(t: int, j: nat): int {
    if t == 0 then (if j == 0 then 0 else 20 * j - 10) else t + 20 * j
  }

  /** Time may pass until `t` in the present stage. */
  ghost predicate MayWait(n: Net, d: Delays, w: World, t: int) {
    w.c.active && Passes(n, w.c.contacted, Source(n, w.c.seqNo)) ==> t <= w.since + Delay(d, w.c.seqNo)
  }

  function Interval(slow: bool): int {
    if slow then 300 else 150
  }

  /** Turns from one request to the next. */
  function Turns(slow: bool): nat {
    if slow then 16 else 8
  }

  /** A request has just gone out, and the next is due after the interval given. */
  ghost predicate Sent(w: World, slow: bool) {
    && w.checked && w.c.active && w.c.maxResend >= 0 && OnTick(w.c.timeStamp) && (w.c.timeStamp == 0 ==> slow)
    && w.c.nextResend == w.c.timeStamp + Interval(slow)
    && Target(w.c) in w.c.contacted
  }

  /** The pings measured so far keep the interval. */
  predicate Paced(c: Client, slow: bool) {
    slow <==> !(c.pingTime > 0 && c.pingTime * 2 < RETRANSMIT_MS)
  }

  /** The state `j` turns after a request, with `q` resends in between. */
  function Idled(w: World, slow: bool, j: nat, q: nat): World {
    w.(c := w.c.(timeStamp := Later(w.c.timeStamp, j), maxResend := w.c.maxResend - q,
                 nextResend := Later(w.c.timeStamp, Turns(slow) * q) + Interval(slow)))
  }

  /** One turn: the loop sleeps, wakes up and looks at the timer. */
  lemma OneTurn(n: Net, d: Delays, a: World, w: World)
    requires Reaches(n, d, a, w) && w.checked && w.c.active
    requires Sleep(w.c).timeStamp < MAX_CHECK_MS && MayWait(n, d, w, Sleep(w.c).timeStamp)
    ensures
      var c := Resend(Sleep(w.c));
      Reaches(n, d, a, World(c, if c.seqNo != w.c.seqNo then Sleep(w.c).timeStamp else w.since, true))
  {
    hide Passes, Resend;
    ThenStep(n, d, a, w, Wait);
    ThenStep(n, d, a, Step(n, w, Wait), Check);
  }

  /** Waiting, with the resends that fall due. */
  lemma {:induction false} Idle(n: Net, d: Delays, w: World, slow: bool, j: nat, q: nat)
    requires Sent(w, slow) && (j >= Turns(slow) ==> Paced(w.c, slow))
    requires Turns(slow) * q <= j < Turns(slow) * (q + 1) && q <= w.c.maxResend
    requires Later(w.c.timeStamp, j) < MAX_CHECK_MS && MayWait(n, d, w, Later(w.c.timeStamp, j))
    ensures Reaches(n, d, w, Idled(w, slow, j, q))
    decreases j
  {
    hide Passes, Reaches;
    if j == 0 {
      Still(n, d, w);
      assert q == 0;
      assert Idled(w, slow, 0, 0) == w;
    } else {
      var p: nat := if j - 1 < Turns(slow) * q then q - 1 else q;
      Idle(n, d, w, slow, j - 1, p);
      var v := Idled(w, slow, j - 1, p);
      assert Sleep(v.c).timeStamp == Later(w.c.timeStamp, j);
      OneTurn(n, d, w, v);
      assert World(Resend(Sleep(v.c)), w.since, true) == Idled(w, slow, j, q);
    }
  }

  /** What the timer does in the end, at time `t`. */
  function GaveUp(w: World, t: int): World {
    var c := Resend(w.c.(timeStamp := t, maxResend := 0, nextResend := t - 10));
    World(c, if c.seqNo != w.c.seqNo then t else w.since, true)
  }

  /** A stage nobody answers is given up after its last resend. */
  lemma UsedUp(n: Net, d: Delays, w: World, slow: bool)
    requires Sent(w, slow) && Paced(w.c, slow)
    requires
      var t := Later(w.c.timeStamp, Turns(slow) * (w.c.maxResend + 1));
      t < MAX_CHECK_MS && MayWait(n, d, w, t)
    ensures Reaches(n, d, w, GaveUp(w, Later(w.c.timeStamp, Turns(slow) * (w.c.maxResend + 1))))
  {
    hide Passes, Reaches;
    var r: nat := w.c.maxResend;
    var j: nat := Turns(slow) * (r + 1) - 1;
    Idle(n, d, w, slow, j, r);
    OneTurn(n, d, w, Idled(w, slow, j, r));
  }

  // ----- the stages

  /** The first request of stage `k` has just gone out. */
  ghost predicate Enters(n: Net, w: World, k: nat, slow: bool) {
    && Sent(w, slow) && Knows(n, w) && w.c.seqNo == k <= 3 && w.c.natType == Firewall
    && w.c.maxResend == Resends(k) && w.since == w.c.timeStamp
  }

  lemma BeginEnters(n: Net, stun2: Addr)
    requires Proper(n) && (stun2 == NO_ADDR || stun2 == n.other)
    ensures Enters(n, Begin(n, stun2), 0, true) && Paced(Begin(n, stun2).c, true)
  {
  }

  /** Waiting in a stage whose time has not run out. */
  lemma MayWaitIn(n: Net, d: Delays, w: World, t: int)
    requires Proper(n) && Knows(n, w) && w.c.seqNo <= 3
    requires (Answered(n, w.c.seqNo) ==> t <= w.since + Delay(d, w.c.seqNo))
    ensures MayWait(n, d, w, t)
  {
    PassesIsAnswered(n, w.c.seqNo);
    hide Passes, Source;
  }

  lemma MayAnswer(n: Net, d: Delays, w: World, rtt: Option<int>)
    requires Proper(n) && Knows(n, w) && w.c.seqNo <= 3 && Answered(n, w.c.seqNo)
    ensures Allowed(n, d, w, Response(w.c.seqNo, rtt))
  {
    PassesIsAnswered(n, w.c.seqNo);
    hide Passes, Source;
  }

  /** The first response leads to the second stage, at the usual pace first. */
  lemma FirstAnswer(n: Net, w: World, rtt: Option<int>)
    requires Proper(n) && !n.kind.Open? && Knows(n, w) && w.c.seqNo == 0 && w.c.active && w.c.natType == Firewall
    requires w.checked && OnTick(w.c.timeStamp) && (rtt == None || rtt == Some(1))
    ensures
      var v := Step(n, w, Response(0, rtt));
      Enters(n, v, 1, true) && v.c.timeStamp == w.c.timeStamp && Paced(v.c, rtt == None)
  {
  }

  /** A third response leads to the fourth stage, at the pace there is. */
  lemma ThirdAnswer(n: Net, w: World, slow: bool)
    requires Proper(n) && (n.kind.Cone? || n.kind.AddrRest? || n.kind.PortRest?) && Knows(n, w) && w.c.seqNo == 2
    requires w.c.active && w.c.natType == Firewall && w.checked && OnTick(w.c.timeStamp) && w.c.timeStamp > 0
    requires Paced(w.c, slow)
    ensures
      var v := Step(n, w, Response(2, None));
      Enters(n, v, 3, slow) && v.c.timeStamp == w.c.timeStamp && Paced(v.c, slow)
  {
    assert {n.first, n.other} + {n.first} == {n.first, n.other};
  }

  /** The second stage given up leads to the third. */
  lemma SecondGivenUp(n: Net, w: World, slow: bool, t: int)
    requires Proper(n) && Knows(n, w) && w.c.seqNo == 1 && w.c.active && w.c.natType == Firewall && Paced(w.c, slow)
    requires OnTick(t) && t > 10
    ensures Enters(n, GaveUp(w, t), 2, slow) && GaveUp(w, t).c.timeStamp == t && Paced(GaveUp(w, t).c, slow)
  {
    assert {n.first} + {n.other} == {n.first, n.other};
  }

  /** The other stages given up end the detection. */
  lemma OtherGivenUp(n: Net, w: World, t: int)
    requires w.c.active && w.c.seqNo != 1 && t > 10 && w.c.natType == Firewall
    ensures !GaveUp(w, t).c.active && GaveUp(w, t).c.natType == (if w.c.seqNo == 3 then PortRestricted else Firewall)
  {
  }

  // ----- late responses

  /** Some run from the start goes wrong. */
  ghost predicate GoesWrong(n: Net, d: Delays, stun2: Addr) {
    exists w :: Reaches(n, d, Begin(n, stun2), w) && !RightSoFar(n, w.c)
  }

  lemma Wrong(n: Net, d: Delays, stun2: Addr, w: World)
    requires Reaches(n, d, Begin(n, stun2), w) && !RightSoFar(n, w.c)
    ensures GoesWrong(n, d, stun2)
  {
  }

  /** No first response before the first stage is given up. */
  lemma FirstTooLate(n: Net, d: Delays, stun2: Addr)
    requires Proper(n) && !n.kind.Blocked? && (stun2 == NO_ADDR || stun2 == n.other) && d.d0 >= 1910
    ensures GoesWrong(n, d, stun2)
  {
    var w := Begin(n, stun2);
    BeginEnters(n, stun2);
    MayWaitIn(n, d, w, 1910);
    UsedUp(n, d, w, true);
    OtherGivenUp(n, w, 1910);
    Wrong(n, d, stun2, GaveUp(w, 1910));
  }

  /** The first resend of the second stage goes over to the quick pace. */
  lemma FirstResend(n: Net, b: World)
    requires Proper(n) && Enters(n, b, 1, true) && b.c.timeStamp == 0 && Paced(b.c, false)
    ensures
      var c := World(Resend(Sleep(Idled(b, true, 15, 0).c)), b.since, true);
      && c.c.seqNo == 1 && c.c.natType == Firewall && c.c.timeStamp == 310 && c.c.maxResend == 4
      && Sent(c, false) && Knows(n, c) && Paced(c.c, false)
  {
  }

  /** As soon as can be: the first response comes at once and shows a short round trip, and
      the second stage is given up after 1110 ms. */
  lemma QuickThirdStage(n: Net, d: Delays, stun2: Addr) returns (w: World)
    requires Proper(n) && (stun2 == NO_ADDR || stun2 == n.other) && !n.kind.Open? && !n.kind.Blocked?
    requires Answered(n, 1) ==> d.d1 >= 1110
    ensures Reaches(n, d, Begin(n, stun2), w) && Enters(n, w, 2, false) && Paced(w.c, false) && w.c.timeStamp == 1110
  {
    hide Reaches, Allowed, Step, Resend, Passes;
    var a := Begin(n, stun2);
    BeginEnters(n, stun2);
    Still(n, d, a);
    MayAnswer(n, d, a, Some(1));
    ThenStep(n, d, a, a, Response(0, Some(1)));
    FirstAnswer(n, a, Some(1));
    var b := Step(n, a, Response(0, Some(1)));
    MayWaitIn(n, d, b, 310);
    MayWaitIn(n, d, b, 290);
    Idle(n, d, b, true, 15, 0);
    OneTurn(n, d, b, Idled(b, true, 15, 0));
    FirstResend(n, b);
    var c := World(Resend(Sleep(Idled(b, true, 15, 0).c)), b.since, true);
    Then(n, d, a, b, c);
    MayWaitIn(n, d, c, 1110);
    UsedUp(n, d, c, false);
    SecondGivenUp(n, c, false, 1110);
    w := GaveUp(c, 1110);
    Then(n, d, a, c, w);
  }

  lemma FourthAnswer(n: Net, w: World)
    requires Proper(n) && !n.kind.Open? && Knows(n, w) && w.c.seqNo == 3 && w.c.active && n.out1 == n.out2
    ensures
      var c := Step(n, w, Response(3, None)).c;
      !c.active && c.natType == AddrRestricted
  {
  }

  lemma SecondTooLate(n: Net, d: Delays, stun2: Addr)
    requires Proper(n) && n.kind.Cone? && (stun2 == NO_ADDR || stun2 == n.other) && d.d1 >= 1110
    ensures GoesWrong(n, d, stun2)
  {
    hide Reaches, Allowed, Step, Passes;
    var a := Begin(n, stun2);
    var w := QuickThirdStage(n, d, stun2);
    MayAnswer(n, d, w, None);
    ThenStep(n, d, a, w, Response(2, None));
    ThirdAnswer(n, w, false);
    var v := Step(n, w, Response(2, None));
    MayAnswer(n, d, v, None);
    ThenStep(n, d, a, v, Response(3, None));
    FourthAnswer(n, v);
    Wrong(n, d, stun2, Step(n, v, Response(3, None)));
  }

  lemma ThirdTooLate(n: Net, d: Delays, stun2: Addr)
    requires Proper(n) && (n.kind.AddrRest? || n.kind.PortRest? || n.kind.Symm?)
    requires (stun2 == NO_ADDR || stun2 == n.other) && d.d2 >= 1760
    ensures GoesWrong(n, d, stun2)
  {
    hide Reaches, Resend, Passes;
    var a := Begin(n, stun2);
    var w := QuickThirdStage(n, d, stun2);
    MayWaitIn(n, d, w, 2870);
    UsedUp(n, d, w, false);
    OtherGivenUp(n, w, 2870);
    Then(n, d, a, w, GaveUp(w, 2870));
    Wrong(n, d, stun2, GaveUp(w, 2870));
  }

  lemma FourthTooLate(n: Net, d: Delays, stun2: Addr)
    requires Proper(n) && n.kind.AddrRest? && (stun2 == NO_ADDR || stun2 == n.other) && d.d3 >= 960
    ensures GoesWrong(n, d, stun2)
  {
    hide Reaches, Resend, Passes, Allowed, Step;
    var a := Begin(n, stun2);
    var w := QuickThirdStage(n, d, stun2);
    MayAnswer(n, d, w, None);
    ThenStep(n, d, a, w, Response(2, None));
    ThirdAnswer(n, w, false);
    var v := Step(n, w, Response(2, None));
    MayWaitIn(n, d, v, 2070);
    UsedUp(n, d, v, false);
    OtherGivenUp(n, v, 2070);
    Then(n, d, a, v, GaveUp(v, 2070));
    Wrong(n, d, stun2, GaveUp(v, 2070));
  }

  // ----- past the deadline

  /** Letting time pass in one stage at the usual pace, up to a time the loop sees. */
  lemma WaitUntil(n: Net, d: Delays, w: World, t: int) returns (v: World)
    requires Proper(n) && w.c.seqNo <= 3 && Enters(n, w, w.c.seqNo, true) && Paced(w.c, true)
    requires OnTick(t) && w.c.timeStamp <= t < MAX_CHECK_MS && t < w.c.timeStamp + 320 * (Resends(w.c.seqNo) + 1) - 10
    requires Answered(n, w.c.seqNo) ==> t <= w.since + Delay(d, w.c.seqNo)
    ensures Reaches(n, d, w, v) && v.c.timeStamp == t && v.checked && v.c.active && v.c.natType == Firewall
    ensures Knows(n, v) && v.c.seqNo == w.c.seqNo && v.since == w.since && Paced(v.c, true)
  {
    hide Reaches, Passes;
    var j: nat := if w.c.timeStamp == 0 && t > 0 then (t + 10) / 20 else (t - w.c.timeStamp) / 20;
    var q: nat := j / 16;
    assert Later(w.c.timeStamp, j) == t;
    MayWaitIn(n, d, w, t);
    Idle(n, d, w, true, j, q);
    v := Idled(w, true, j, q);
  }

  /** As late as can be: no round trip is measured, the first response uses its time up and
      the second stage all its resends. */
  lemma SlowThirdStage(n: Net, d: Delays, stun2: Addr) returns (w: World)
    requires Proper(n) && (n.kind.AddrRest? || n.kind.PortRest? || n.kind.Symm?)
    requires (stun2 == NO_ADDR || stun2 == n.other) && d.d0 < 1910
    ensures Reaches(n, d, Begin(n, stun2), w) && Enters(n, w, 2, true) && Paced(w.c, true)
    ensures w.c.timeStamp == LastStart2(d)
  {
    hide Reaches, Allowed, Step, Resend, Passes;
    var a := Begin(n, stun2);
    BeginEnters(n, stun2);
    var t := Tick(d.d0);
    var b := WaitUntil(n, d, a, t);
    MayAnswer(n, d, b, None);
    ThenStep(n, d, a, b, Response(0, None));
    FirstAnswer(n, b, None);
    var c := Step(n, b, Response(0, None));
    MayWaitIn(n, d, c, LastStart2(d));
    UsedUp(n, d, c, true);
    SecondGivenUp(n, c, true, LastStart2(d));
    w := GaveUp(c, LastStart2(d));
    Then(n, d, a, c, w);
  }

  /** A stage in which time may run past the deadline. */
  lemma RunsOver(n: Net, d: Delays, stun2: Addr, w: World)
    requires Proper(n) && Reaches(n, d, Begin(n, stun2), w) && 2 <= w.c.seqNo <= 3 && Enters(n, w, w.c.seqNo, true)
    requires Paced(w.c, true)
    requires 0 < w.c.timeStamp < MAX_CHECK_MS && 4990 < w.c.timeStamp + 320 * (Resends(w.c.seqNo) + 1) - 10
    requires Answered(n, w.c.seqNo) ==> 5010 <= w.since + Delay(d, w.c.seqNo)
    ensures GoesWrong(n, d, stun2)
  {
    hide Reaches, Passes;
    var v := WaitUntil(n, d, w, 4990);
    Then(n, d, Begin(n, stun2), w, v);
    MayWaitIn(n, d, v, 5010);
    ThenStep(n, d, Begin(n, stun2), v, Wait);
    Wrong(n, d, stun2, Step(n, v, Wait));
  }

  lemma DeadlineMissed(n: Net, d: Delays, stun2: Addr)
    requires Proper(n) && (n.kind.AddrRest? || n.kind.PortRest? || n.kind.Symm?)
    requires (stun2 == NO_ADDR || stun2 == n.other)
    requires d.d0 < 1910 && d.d2 < 1760 && (n.kind.AddrRest? ==> d.d3 < 960) && LastEnd(n.kind, d) >= MAX_CHECK_MS
    ensures GoesWrong(n, d, stun2)
  {
    hide Reaches, Allowed, Step, Passes;
    var a := Begin(n, stun2);
    var w := SlowThirdStage(n, d, stun2);
    var t := LastStart2(d) + (d.d2 - d.d2 % 20);
    if t >= MAX_CHECK_MS {
      RunsOver(n, d, stun2, w);
    } else {
      var b := WaitUntil(n, d, w, t);
      Then(n, d, a, w, b);
      MayAnswer(n, d, b, None);
      ThenStep(n, d, a, b, Response(2, None));
      ThirdAnswer(n, b, true);
      RunsOver(n, d, stun2, Step(n, b, Response(2, None)));
    }
  }

  // ----- the condition is exact

  /** For every network: in all runs the verdict is right and in time if and only if the
      network answers as promptly as its kind of NAT requires. */
  lemma VerdictExactly(n: Net, d: Delays, stun2: Addr)
    requires Proper(n) && (stun2 == NO_ADDR || stun2 == n.other)
    ensures
      (forall es :: AllowedRun(n, d, Begin(n, stun2), es) ==> RightSoFar(n, Run(n, Begin(n, stun2), es).c))
      <==> Prompt(n, d)
  {
    if Prompt(n, d) {
      forall es | AllowedRun(n, d, Begin(n, stun2), es)
        ensures RightSoFar(n, Run(n, Begin(n, stun2), es).c)
      {
        VerdictIsRight(n, d, stun2, es);
      }
    } else {
      if d.d0 >= 1910 {
        FirstTooLate(n, d, stun2);
      } else if n.kind.Cone? {
        SecondTooLate(n, d, stun2);
      } else if d.d2 >= 1760 {
        ThirdTooLate(n, d, stun2);
      } else if n.kind.AddrRest? && d.d3 >= 960 {
        FourthTooLate(n, d, stun2);
      } else {
        DeadlineMissed(n, d, stun2);
      }
      hide Begin, RightSoFar, Prompt, AllowedRun, Run;
      var w :| Reaches(n, d, Begin(n, stun2), w) && !RightSoFar(n, w.c);
      var es :| AllowedRun(n, d, Begin(n, stun2), es) && Run(n, Begin(n, stun2), es) == w;
      assert !RightSoFar(n, Run(n, Begin(n, stun2), es).c);
    }
  }

  /** Enough for every kind of NAT: two unanswered stages and two responses that take less
      than 1160 ms together fit the deadline. */
  lemma EnoughForAll(n: Net, d: Delays)
    requires d.d0 + d.d2 < 1160 && d.d1 < 1110 && d.d3 < 960
    ensures Prompt(n, d)
  {
  }
}
