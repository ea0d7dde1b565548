/** The client against a network: whatever the NAT is, and however responses interleave
    with the resend timer, the verdict is the right one. */
module StunNat {
  import opened Wrappers
  import opened StunModel

  datatype Kind = Open | Cone | AddrRest | PortRest | Symm | Blocked

  /** A server with two addresses and two ports, a client address, and the addresses the
      NAT maps it to, towards the first and towards the second server address. */
  datatype Net = Net(kind: Kind, first: Addr, other: Addr, local: Addr, out1: Addr, out2: Addr)

  ghost predicate Proper(n: Net) {
    && n.first.ip != 0 && n.other.ip != 0 && n.first.ip != n.other.ip && n.first.port != n.other.port
    && n.local.ip != 0 && n.out1.ip != 0 && n.out2.ip != 0
    && (n.kind.Open? ==> n.out1 == n.out2 == n.local)
    && (!n.kind.Open? ==> n.out1.ip != n.local.ip)
    && (n.kind.Symm? <==> n.out1 != n.out2)
  }

  /** Where the response to request `k` comes from: request 1 asks for the other address
      and port, 2 goes to the other address, 3 asks for the other port. */
  function Source(n: Net, k: nat): Addr {
    if k == 0 then n.first else if k == 3 then Addr(n.first.ip, n.other.port) else n.other
  }

  /** The address the server sees the request from. */
  function Seen(n: Net, k: nat): Addr {
    if k == 2 then n.out2 else n.out1
  }

  /** The filtering rule of the NAT, given whom the client has contacted so far. */
  ghost predicate Passes(n: Net, contacted: set<Addr>, src: Addr) {
    match n.kind
    case Open => true
    case Cone => true
    case AddrRest => exists a :: a in contacted && a.ip == src.ip
    case PortRest => src in contacted
    case Symm => src in contacted
    case Blocked => false
  }

  function Verdict(k: Kind): NatType {
    match k
    case Open => NoNat
    case Cone => FullCone
    case AddrRest => AddrRestricted
    case PortRest => PortRestricted
    case Symm => Symmetric
    case Blocked => Firewall
  }

  /** `since` is when the first request of the current stage went out; `checked` says
      that the loop is in its sleep. */
  datatype World = World(c: Client, since: int, checked: bool)

  /** The longest a response takes, per request. */
  datatype Delays = Delays(d0: nat, d1: nat, d2: nat, d3: nat)

  function Delay(d: Delays, k: nat): nat {
    if k == 0 then d.d0 else if k == 1 then d.d1 else if k == 2 then d.d2 else d.d3
  }

  /** The loop wakes at 10, 30, 50, ... ms: the latest time it sees up to `t`. */
  function Tick(t: nat): nat {
    if t < 10 then 0 else t - (t - 10) % 20
  }

  /** The latest the third stage begins: all resends of the second are used up, a round of
      320 ms each; from the very start the first round is 10 ms short. */
  function LastStart2(d: Delays): nat {
    if Tick(d.d0) == 0 then 1910 else Tick(d.d0) + 1920
  }

  /** The latest the last stage of each kind is over. */
  function LastEnd(k: Kind, d: Delays): nat {
    LastStart2(d) + (d.d2 - d.d2 % 20) + (if k.AddrRest? then d.d3 - d.d3 % 20 else if k.PortRest? then 1920 else 0)
  }

  /** The network answers in time: no answered stage is given up before its response, not
      even when all its resends are quick, and the last stage ends before the deadline. */
  ghost predicate Prompt(n: Net, d: Delays) {
    !n.kind.Blocked? ==>
      && d.d0 < 1910
      && (n.kind.Cone? ==> d.d1 < 1110)
      && (n.kind.AddrRest? || n.kind.PortRest? || n.kind.Symm? ==> d.d2 < 1760 && LastEnd(n.kind, d) < MAX_CHECK_MS)
      && (n.kind.AddrRest? ==> d.d3 < 960)
  }

  /** The loop checks and sleeps in turn; responses come at any time. */
  datatype Event = Check | Wait | Response(k: nat, rtt: Option<int>)

  function Step(n: Net, w: World, e: Event): World {
    var c' :=
      match e
      case Check => Resend(w.c)
      case Wait => Sleep(w.c)
      case Response(k, rtt) => Respond(w.c, k, Source(n, k), Seen(n, k), n.other, rtt);
    World(c', if c'.seqNo != w.c.seqNo then w.c.timeStamp else w.since,
          if e.Check? then true else if e.Wait? then false else w.checked)
  }

  /** A response arrives only if the NAT lets it in; and time does not pass the point by
      which the response to the current request is due. Responses to earlier requests
      may arrive whenever they like, any number of times. */
  ghost predicate Allowed(n: Net, d: Delays, w: World, e: Event) {
    match e
    case Check => !w.checked && Running(w.c)
    case Wait =>
      && w.checked
      && (w.c.active && Passes(n, w.c.contacted, Source(n, w.c.seqNo)) ==>
            Sleep(w.c).timeStamp <= w.since + Delay(d, w.c.seqNo))
    case Response(k, rtt) => k <= w.c.seqNo && Passes(n, w.c.contacted, Source(n, k))
  }

  ghost predicate AllowedRun(n: Net, d: Delays, w: World, es: seq<Event>)
    decreases |es|
  {
    es != [] ==> Allowed(n, d, w, es[0]) && AllowedRun(n, d, Step(n, w, es[0]), es[1..])
  }

  function Run(n: Net, w: World, es: seq<Event>): World
    decreases |es|
  {
    if es == [] then w else Run(n, Step(n, w, es[0]), es[1..])
  }

  // ----- the invariant

  function Resends(k: nat): int {
    if k == 2 then 10 else 5
  }

  /** How soon after `since` the next request of stage `k` may go out, `r` resends on. */
  function Soonest(k: nat, r: int): int {
    if k == 0 then (if r == 0 then 300 else 290 + 320 * r) else if k == 1 then 300 + 160 * r else 150 + 160 * r
  }

  /** ... and how late it goes out. */
  function Latest(since: int, r: int): int {
    if since == 0 && r > 0 then 290 + 320 * r else 300 + 320 * r
  }

  predicate OnTick(t: int) {
    t == 0 || (t >= 10 && t % 20 == 10)
  }

  ghost predicate Answered(n: Net, k: nat) {
    match n.kind
    case Open => true
    case Cone => true
    case AddrRest => k != 1
    case PortRest => k == 0 || k == 2
    case Symm => k == 0 || k == 2
    case Blocked => false
  }

  /** The stages each kind of NAT can lead to, and the latest they can begin. */
  ghost predicate Reached(n: Net, d: Delays, k: nat, since: int) {
    match k
    case 0 => since == 0
    case 1 => !n.kind.Open? && !n.kind.Blocked? && 0 <= since <= Tick(d.d0)
    case 2 => (n.kind.AddrRest? || n.kind.PortRest? || n.kind.Symm?) && 10 <= since <= LastStart2(d)
    case 3 => (n.kind.AddrRest? || n.kind.PortRest?) && 10 <= since <= LastStart2(d) + (d.d2 - d.d2 % 20)
    case _ => false
  }

  ghost predicate Timing(d: Delays, n: Net, w: World) {
    var c, k := w.c, w.c.seqNo;
    var r := Resends(k) - c.maxResend;
    && 0 <= r <= Resends(k)
    && w.since + Soonest(k, r) <= c.nextResend <= w.since + Latest(w.since, r)
    && w.since <= c.timeStamp <= c.nextResend + (if w.checked then 0 else 20)
    && (Answered(n, k) ==> c.timeStamp <= w.since + Delay(d, k))
    && OnTick(c.timeStamp) && OnTick(w.since) && c.nextResend % 10 == 0
  }

  ghost predicate Knows(n: Net, w: World) {
    var c := w.c;
    && c.stun1 == n.first && c.bound == n.local.ip
    && c.contacted == (if c.seqNo >= 2 then {n.first, n.other} else {n.first})
    && (if c.seqNo == 0 then c.ext1 == NO_ADDR && (c.stun2 == NO_ADDR || c.stun2 == n.other)
        else c.ext1 == n.out1 && c.stun2 == n.other)
    && (if c.seqNo <= 2 then c.ext2 == NO_ADDR else c.ext2 == n.out1)
    && (c.seqNo == 0 ==> c.pingTime == 0)
  }

  ghost predicate Inv(n: Net, d: Delays, w: World) {
    if w.c.active then
      && w.c.natType == Firewall && w.c.seqNo <= 3
      && Reached(n, d, w.c.seqNo, w.since) && Timing(d, n, w) && Knows(n, w)
    else w.c.natType == Verdict(n.kind)
  }

  lemma PassesIsAnswered(n: Net, k: nat)
    requires Proper(n) && k <= 3
    ensures
      var contacted := if k >= 2 then {n.first, n.other} else {n.first};
      Passes(n, contacted, Source(n, k)) <==> Answered(n, k)
  {
    var contacted := if k >= 2 then {n.first, n.other} else {n.first};
    assert n.first in contacted;
    assert n.first.ip == Source(n, 3).ip == Source(n, 0).ip;
    assert k == 2 ==> n.other in contacted;
  }

  function Resent(c: Client): Client {
    var c1 := Send(c);
    c1.(maxResend := c1.maxResend - 1)
  }

  lemma ResendStep(n: Net, w: World)
    requires 0 < w.c.nextResend < w.c.timeStamp && w.c.maxResend > 0
    ensures Step(n, w, Check) == World(Resent(w.c), w.since, true)
  {
  }

  lemma DueIsPositive(d: Delays, n: Net, w: World)
    requires Timing(d, n, w) && w.c.seqNo <= 3
    ensures w.c.nextResend > 0
  {
    hide Answered, Delay, Latest;
  }

  lemma ResendTiming(d: Delays, n: Net, w: World)
    requires Timing(d, n, w) && w.c.seqNo <= 3 && !w.checked && (w.c.seqNo == 0 ==> w.c.pingTime == 0)
    requires w.c.nextResend < w.c.timeStamp && w.c.maxResend > 0
    requires w.since >= 0 && (w.c.seqNo == 0 ==> w.since == 0)
    ensures Timing(d, n, World(Resent(w.c), w.since, true))
  {
    hide Answered, Delay;
  }

  lemma FirstFromStart(n: Net, d: Delays, k: nat, since: int)
    requires Reached(n, d, k, since)
    ensures since >= 0 && (k == 0 ==> since == 0)
  {
    hide LastStart2;
  }

  lemma PingIsUnknown(n: Net, w: World)
    requires Knows(n, w)
    ensures w.c.seqNo == 0 ==> w.c.pingTime == 0
  {
  }

  lemma ResentKeeps(c: Client)
    ensures Resent(c).active == c.active && Resent(c).natType == c.natType && Resent(c).seqNo == c.seqNo
  {
  }

  lemma ResendKnows(n: Net, w: World)
    requires Knows(n, w) && w.c.seqNo <= 3
    ensures Knows(n, World(Resent(w.c), w.since, true))
  {
    assert Resent(w.c).contacted == w.c.contacted;
  }

  /** A due request with resends left goes out again. */
  lemma ResendKeepsInv(n: Net, d: Delays, w: World)
    requires Proper(n) && Inv(n, d, w) && w.c.active && !w.checked
    requires w.c.nextResend < w.c.timeStamp && w.c.maxResend > 0
    ensures Inv(n, d, Step(n, w, Check))
  {
    hide Passes, Reached, Timing, Knows, Resent, Step;
    DueIsPositive(d, n, w);
    ResendStep(n, w);
    PingIsUnknown(n, w);
    FirstFromStart(n, d, w.c.seqNo, w.since);
    ResendTiming(d, n, w);
    ResendKnows(n, w);
    ResentKeeps(w.c);
  }

  /** An unanswered second stage that is used up leads to the third. */
  lemma SecondUsedUpKeepsInv(n: Net, d: Delays, w: World)
    requires Proper(n) && Prompt(n, d) && Inv(n, d, w) && Running(w.c) && !w.checked && w.c.seqNo == 1
    requires w.c.nextResend < w.c.timeStamp && w.c.maxResend <= 0
    ensures Inv(n, d, Step(n, w, Check))
  {
    hide Passes, LastEnd;
    assert !Answered(n, 1);
    assert {n.first} + {n.other} == {n.first, n.other};
  }

  /** An unanswered stage that is used up leads to the next stage or to the verdict. */
  lemma GiveUpKeepsInv(n: Net, d: Delays, w: World)
    requires Proper(n) && Prompt(n, d) && Inv(n, d, w) && Running(w.c) && !w.checked
    requires w.c.nextResend < w.c.timeStamp && w.c.maxResend <= 0
    ensures Inv(n, d, Step(n, w, Check))
  {
    if w.c.seqNo == 1 {
      SecondUsedUpKeepsInv(n, d, w);
      hide Step, Timing;
    } else {
      hide Passes, LastEnd, LastStart2;
      assert !Answered(n, w.c.seqNo);
    }
  }

  lemma CheckKeepsInv(n: Net, d: Delays, w: World)
    requires Proper(n) && Prompt(n, d) && Inv(n, d, w) && Allowed(n, d, w, Check)
    ensures Inv(n, d, Step(n, w, Check))
  {
    hide Passes, Prompt, Reached;
    if w.c.nextResend < w.c.timeStamp {
      if w.c.maxResend > 0 {
        ResendKeepsInv(n, d, w);
      } else {
        GiveUpKeepsInv(n, d, w);
      }
      hide Inv, Step;
    }
  }

  lemma WaitKeepsInv(n: Net, d: Delays, w: World)
    requires Proper(n) && Prompt(n, d) && Inv(n, d, w) && Allowed(n, d, w, Wait)
    ensures Inv(n, d, Step(n, w, Wait))
  {
    if w.c.active {
      PassesIsAnswered(n, w.c.seqNo);
    }
    hide Passes, Source;
  }

  /** A response to the first request ends the detection or leads to the second stage. */
  lemma FirstResponseKeepsInv(n: Net, d: Delays, w: World, rtt: Option<int>)
    requires Proper(n) && Prompt(n, d) && Inv(n, d, w) && Allowed(n, d, w, Response(0, rtt)) && w.c.active
    requires w.c.seqNo == 0
    ensures Inv(n, d, Step(n, w, Response(0, rtt)))
  {
    PassesIsAnswered(n, 0);
    hide Passes, LastEnd, LastStart2;
  }

  /** What a response to the third request does: it ends the detection or begins the
      fourth stage. */
  lemma ThirdResponseStep(n: Net, w: World, rtt: Option<int>)
    requires Proper(n) && Knows(n, w) && w.c.active && w.c.seqNo == 2 && w.c.natType == Firewall
    requires n.kind.AddrRest? || n.kind.PortRest? || n.kind.Symm?
    ensures
      var w' := Step(n, w, Response(2, rtt));
      if n.kind.Symm? then !w'.c.active && w'.c.natType == Symmetric
      else
        && w'.c.active && w'.c.natType == Firewall && w'.c.seqNo == 3 && w'.c.maxResend == 5
        && w'.c.timeStamp == w.c.timeStamp == w'.since && w'.checked == w.checked
        && (w'.c.nextResend == w.c.timeStamp + 150 || w'.c.nextResend == w.c.timeStamp + 300)
        && Knows(n, w')
  {
    assert {n.first, n.other} + {n.first} == {n.first, n.other};
  }

  lemma FourthBegins(n: Net, d: Delays, w: World, w': World)
    requires Reached(n, d, 2, w.since) && Timing(d, n, w) && w.c.seqNo == 2 && !n.kind.Symm?
    requires w'.c.seqNo == 3 && w'.c.maxResend == 5
    requires w'.c.timeStamp == w.c.timeStamp == w'.since && w'.checked == w.checked
    requires w'.c.nextResend == w.c.timeStamp + 150 || w'.c.nextResend == w.c.timeStamp + 300
    ensures Reached(n, d, 3, w'.since) && Timing(d, n, w')
  {
    hide LastStart2;
  }

  lemma ThirdResponseKeepsInv(n: Net, d: Delays, w: World, rtt: Option<int>)
    requires Proper(n) && Prompt(n, d) && Inv(n, d, w) && Allowed(n, d, w, Response(2, rtt)) && w.c.active
    requires w.c.seqNo == 2
    ensures Inv(n, d, Step(n, w, Response(2, rtt)))
  {
    hide Passes, Timing, Knows, Step, Prompt, Proper;
    ThirdResponseStep(n, w, rtt);
    if !n.kind.Symm? {
      FourthBegins(n, d, w, Step(n, w, Response(2, rtt)));
    }
  }

  /** A response to the second or the fourth request ends the detection. */
  lemma LastResponseKeepsInv(n: Net, d: Delays, w: World, k: nat, rtt: Option<int>)
    requires Proper(n) && Inv(n, d, w) && Allowed(n, d, w, Response(k, rtt)) && w.c.active && w.c.seqNo == k
    requires (k == 1 || k == 3)
    ensures Inv(n, d, Step(n, w, Response(k, rtt)))
  {
    PassesIsAnswered(n, k);
    hide Passes, LastEnd, LastStart2, Timing, Prompt;
  }

  lemma ResponseKeepsInv(n: Net, d: Delays, w: World, k: nat, rtt: Option<int>)
    requires Proper(n) && Prompt(n, d) && Inv(n, d, w) && Allowed(n, d, w, Response(k, rtt))
    ensures Inv(n, d, Step(n, w, Response(k, rtt)))
  {
    if !w.c.active || k != w.c.seqNo {
      hide Passes, Inv;
    } else if k == 0 {
      FirstResponseKeepsInv(n, d, w, rtt);
    } else if k == 2 {
      ThirdResponseKeepsInv(n, d, w, rtt);
    } else {
      assert k <= 3;
      LastResponseKeepsInv(n, d, w, k, rtt);
    }
    hide Step, Prompt, Timing, Knows, Reached, Passes;
  }

  lemma StepKeepsInv(n: Net, d: Delays, w: World, e: Event)
    requires Proper(n) && Prompt(n, d) && Inv(n, d, w) && Allowed(n, d, w, e)
    ensures Inv(n, d, Step(n, w, e))
  {
    hide Inv, Step, Allowed;
    match e
    case Check => CheckKeepsInv(n, d, w);
    case Wait => WaitKeepsInv(n, d, w);
    case Response(k, rtt) => ResponseKeepsInv(n, d, w, k, rtt);
  }

  function Begin(n: Net, stun2: Addr): World {
    World(Start(n.first, stun2, n.local.ip), 0, true)
  }

  lemma BeginInv(n: Net, d: Delays, stun2: Addr)
    requires Proper(n) && (stun2 == NO_ADDR || stun2 == n.other)
    ensures Inv(n, d, Begin(n, stun2))
  {
  }

  lemma {:induction false} RunKeepsInv(n: Net, d: Delays, w: World, es: seq<Event>)
    requires Proper(n) && Prompt(n, d) && Inv(n, d, w) && AllowedRun(n, d, w, es)
    ensures Inv(n, d, Run(n, w, es))
    decreases |es|
  {
    hide Inv, Step, Allowed;
    if es == [] {
    } else {
      StepKeepsInv(n, d, w, es[0]);
      RunKeepsInv(n, d, Step(n, w, es[0]), es[1..]);
    }
  }

  /** An ended detection has found the kind of NAT there is; a running one has time left. */
  predicate RightSoFar(n: Net, c: Client) {
    if c.active then c.timeStamp < MAX_CHECK_MS && c.natType == Firewall else c.natType == Verdict(n.kind)
  }

  lemma BeforeDeadline(n: Net, d: Delays, w: World)
    requires Prompt(n, d) && Inv(n, d, w) && w.c.active
    ensures w.c.timeStamp < MAX_CHECK_MS
  {
    hide Knows, Passes, Verdict, Soonest;
  }

  lemma InvIsRight(n: Net, d: Delays, w: World)
    requires Prompt(n, d) && Inv(n, d, w)
    ensures RightSoFar(n, w.c)
  {
    if w.c.active {
      BeforeDeadline(n, d, w);
    }
    hide Prompt, Timing, Knows, Reached;
  }

  /** However responses, duplicates and the timer interleave, and whatever round-trip
      times are measured: a detection that has ended has found the kind of NAT there is,
      and it has ended before the deadline. */
  lemma VerdictIsRight(n: Net, d: Delays, stun2: Addr, es: seq<Event>)
    requires Proper(n) && Prompt(n, d) && (stun2 == NO_ADDR || stun2 == n.other)
    requires AllowedRun(n, d, Begin(n, stun2), es)
    ensures RightSoFar(n, Run(n, Begin(n, stun2), es).c)
  {
    BeginInv(n, d, stun2);
    RunKeepsInv(n, d, Begin(n, stun2), es);
    var w := Run(n, Begin(n, stun2), es);
    hide Inv, Prompt;
    InvIsRight(n, d, w);
  }

  function Waits(es: seq<Event>): nat {
    if es == [] then 0 else Waits(es[1..]) + (if es[0].Wait? then 1 else 0)
  }

  lemma StepTime(n: Net, w: World, e: Event)
    ensures Step(n, w, e).c.timeStamp == (if e.Wait? then Sleep(w.c).timeStamp else w.c.timeStamp)
  {
  }

  lemma {:induction false} RunTime(n: Net, w: World, es: seq<Event>)
    requires w.c.timeStamp >= 0
    ensures Run(n, w, es).c.timeStamp >= w.c.timeStamp + 20 * Waits(es) - 10
    ensures w.c.timeStamp > 0 ==> Run(n, w, es).c.timeStamp >= w.c.timeStamp + 20 * Waits(es)
    decreases |es|
  {
    hide Step;
    if es == [] {
    } else {
      StepTime(n, w, es[0]);
      RunTime(n, Step(n, w, es[0]), es[1..]);
    }
  }

  /** After 251 turns of the loop the detection has ended, with the right verdict. */
  lemma VerdictIsReached(n: Net, d: Delays, stun2: Addr, es: seq<Event>)
    requires Proper(n) && Prompt(n, d) && (stun2 == NO_ADDR || stun2 == n.other)
    requires AllowedRun(n, d, Begin(n, stun2), es) && Waits(es) >= 251
    ensures
      var c := Run(n, Begin(n, stun2), es).c;
      !c.active && c.natType == Verdict(n.kind)
  {
    hide Prompt, Run, AllowedRun;
    VerdictIsRight(n, d, stun2, es);
    RunTime(n, Begin(n, stun2), es);
  }

  /** While the detection runs there is always something that may happen next. */
  lemma NeverStuck(n: Net, d: Delays, w: World) returns (e: Event)
    requires Proper(n) && Prompt(n, d) && Inv(n, d, w) && w.c.active
    ensures Allowed(n, d, w, e)
    ensures e.Response? ==> e.k == w.c.seqNo
  {
    BeforeDeadline(n, d, w);
    if !w.checked {
      e := Check;
    } else if Sleep(w.c).timeStamp <= w.since + Delay(d, w.c.seqNo) {
      e := Wait;
    } else if Passes(n, w.c.contacted, Source(n, w.c.seqNo)) {
      e := Response(w.c.seqNo, None);
    } else {
      e := Wait;
    }
  }

  // ----- any run, whatever the network does

  /** Any event at all; the only promise is a non-zero MAPPED-ADDRESS. */
  datatype Input = Turn | Pause | Packet(k: nat, src: Addr, mapped: Addr, changed: Addr, rtt: Option<int>)

  function Feed(c: Client, i: Input): Client {
    match i
    case Turn => if Running(c) then Resend(c) else c
    case Pause => Sleep(c)
    case Packet(k, src, mapped, changed, rtt) => Respond(c, k, src, mapped, changed, rtt)
  }

  function FeedAll(c: Client, inputs: seq<Input>): Client
    decreases |inputs|
  {
    if inputs == [] then c else FeedAll(Feed(c, inputs[0]), inputs[1..])
  }

  ghost predicate WellFormed(i: Input) {
    i.Packet? ==> i.mapped.ip != 0
  }

  /** Later stages have a first address. */
  ghost predicate Staged(c: Client) {
    c.seqNo >= 1 ==> c.ext1.ip != 0
  }

  lemma FeedOnce(c: Client, i: Input)
    requires Staged(c) && WellFormed(i) && (c.active ==> c.natType == Firewall)
    ensures
      var c' := Feed(c, i);
      && Staged(c') && (c'.active ==> c'.natType == Firewall && c.active)
      && c.seqNo <= c'.seqNo && (!c.active ==> c'.natType == c.natType)
  {
  }

  /** In any run the stage never goes back, and the verdict is written at most once:
      while the client is active it is the initial one, afterwards it stays. */
  lemma {:induction false} StagesAdvance(c: Client, inputs: seq<Input>, more: seq<Input>)
    requires Staged(c) && (c.active ==> c.natType == Firewall)
    requires forall i :: 0 <= i < |inputs| ==> WellFormed(inputs[i])
    requires forall i :: 0 <= i < |more| ==> WellFormed(more[i])
    ensures
      var c1, c2 := FeedAll(c, inputs), FeedAll(FeedAll(c, inputs), more);
      && c1.seqNo <= c2.seqNo
      && (if c1.active then c1.natType == Firewall else !c2.active && c2.natType == c1.natType)
    decreases |inputs| + |more|
  {
    hide Feed, Staged;
    if inputs != [] {
      assert WellFormed(inputs[0]);
      FeedOnce(c, inputs[0]);
      StagesAdvance(Feed(c, inputs[0]), inputs[1..], more);
    } else if more != [] {
      assert WellFormed(more[0]);
      FeedOnce(c, more[0]);
      StagesAdvance(Feed(c, more[0]), [], more[1..]);
    }
  }

  /** Without that promise a stage can be entered twice. */
  lemma ZeroMappingGoesBack(c: Client, src: Addr, rtt: Option<int>)
    requires c.active && c.seqNo == 2 && c.ext1.ip != 0 && c.ext1.ip != c.bound && c.ext2.ip == 0
    requires c.stun2.ip != 0 && src.ip == c.stun2.ip
    ensures Respond(c, 2, src, NO_ADDR, NO_ADDR, rtt).seqNo == 1
  {
  }

  function Pauses(inputs: seq<Input>): nat {
    if inputs == [] then 0 else Pauses(inputs[1..]) + (if inputs[0].Pause? then 1 else 0)
  }

  lemma FeedTime(c: Client, i: Input)
    ensures Feed(c, i).timeStamp == (if i.Pause? then Sleep(c).timeStamp else c.timeStamp)
  {
  }

  /** Every run ends: 251 turns of the loop use up the 5 seconds. */
  lemma {:induction false} PausesUseUpTime(c: Client, inputs: seq<Input>)
    requires 0 <= c.timeStamp
    ensures FeedAll(c, inputs).timeStamp >= c.timeStamp + 20 * Pauses(inputs) - 10
    ensures c.timeStamp > 0 ==> FeedAll(c, inputs).timeStamp >= c.timeStamp + 20 * Pauses(inputs)
    ensures Pauses(inputs) >= 251 ==> !Running(FeedAll(c, inputs))
    decreases |inputs|
  {
    hide Feed;
    if inputs == [] {
    } else {
      FeedTime(c, inputs[0]);
      PausesUseUpTime(Feed(c, inputs[0]), inputs[1..]);
    }
  }
}
