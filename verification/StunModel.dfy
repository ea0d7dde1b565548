/** NAT classification: the states of the STUN client, and what each event does to them. */
module StunModel {
  import opened Wrappers

  datatype Addr = Addr(ip: nat, port: nat)

  datatype NatType = NoNat | FullCone | AddrRestricted | PortRestricted | Symmetric | Firewall

  const RETRANSMIT_MS: int := 300
  const MAX_CHECK_MS: int := 5000
  const MAX_RESEND: int := 10
  const NO_ADDR := Addr(0, 0)

  /** `contacted` lists where requests went; no branch reads it. */
  datatype Client = Client(
    active: bool, natType: NatType, seqNo: nat, maxResend: int, nextResend: int, timeStamp: int,
    ext1: Addr, ext2: Addr, stun1: Addr, stun2: Addr, bound: nat, pingTime: int, contacted: set<Addr>)

  function Target(c: Client): Addr {
    if c.seqNo == 2 then c.stun2 else c.stun1
  }

  function Send(c: Client): Client {
    var quick := c.pingTime > 0 && c.pingTime * 2 < RETRANSMIT_MS;
    c.(nextResend := c.timeStamp + (if quick then RETRANSMIT_MS / 2 else RETRANSMIT_MS),
       contacted := c.contacted + {Target(c)})
  }

  function SetInactive(c: Client): Client {
    if c.active then c.(active := false, nextResend := 0) else c
  }

  function Decide(c: Client, natType: NatType): Client {
    SetInactive(c.(natType := natType))
  }

  function CheckState(c: Client): Client {
    if !c.active then c
    else if c.ext1.ip == c.bound then Decide(c, NoNat)
    else if c.ext2.ip == 0 && c.stun2.ip != 0 then Send(c.(maxResend := 5, seqNo := 1))
    else if c.ext2.ip != 0 then
      if c.ext1 == c.ext2 then
        if c.seqNo == 1 then Decide(c, FullCone)
        else if c.seqNo == 2 then Send(c.(seqNo := 3, maxResend := MAX_RESEND / 2))
        else if c.seqNo == 3 then Decide(c, AddrRestricted)
        else c
      else Decide(c, Symmetric)
    else c
  }

  /** MAPPED-ADDRESS fills the first address, and the second once the first is known. */
  function Mapped(c: Client, a: Addr): Client {
    if c.ext1.ip != 0 then c.(ext2 := a) else c.(ext1 := a)
  }

  /** CHANGED-ADDRESS counts only the first time. */
  function Changed(c: Client, a: Addr): Client {
    if c.stun2.ip != 0 then c else c.(stun2 := a)
  }

  function Ping(c: Client, rtt: Option<int>): Client {
    match rtt
    case None => c
    case Some(t) =>
      if t >= c.pingTime && c.pingTime != 0 then c
      else c.(pingTime := if t <= 0 then 3 else if t > 10000 then 10000 else t)
  }

  /** The time noted is from 1 to 10000, and the shortest measured; one that is not positive
      counts as 3. */
  lemma PingBounds(c: Client, t: int)
    requires 0 <= c.pingTime <= 10000
    ensures 1 <= Ping(c, Some(t)).pingTime <= 10000
    ensures t > 0 && c.pingTime == 0 ==> Ping(c, Some(t)).pingTime == if t < 10000 then t else 10000
    ensures t > 0 && c.pingTime != 0 ==> Ping(c, Some(t)).pingTime == if t < c.pingTime then t else c.pingTime
    ensures t <= 0 ==> Ping(c, Some(t)).pingTime == 3
    ensures Ping(c, None) == c && Ping(c, Some(t)) == c.(pingTime := Ping(c, Some(t)).pingTime)
  {
  }

  /** A response with number `k` from `src`: its attributes, then the state check. */
  function Respond(c: Client, k: nat, src: Addr, mapped: Addr, changed: Addr, rtt: Option<int>): Client {
    if !c.active || k != c.seqNo || (src.ip != c.stun1.ip && src.ip != c.stun2.ip) then c
    else Ping(CheckState(Changed(Mapped(c, mapped), changed)), rtt)
  }

  /** The body of the resend loop, before its sleep. */
  function Resend(c: Client): Client {
    if c.nextResend == 0 || c.nextResend >= c.timeStamp then c
    else if c.maxResend <= 0 then
      if c.seqNo == 1 then Send(c.(seqNo := 2, maxResend := MAX_RESEND))
      else if c.seqNo == 3 then Decide(c, PortRestricted)
      else SetInactive(c)
    else
      var c1 := Send(c);
      c1.(maxResend := c1.maxResend - 1)
  }

  predicate Running(c: Client) {
    c.active && c.timeStamp < MAX_CHECK_MS
  }

  /** 10 ms in front of the loop, then 20 ms in every turn. */
  function Sleep(c: Client): Client {
    c.(timeStamp := if c.timeStamp == 0 then 10 else c.timeStamp + 20)
  }

  /** When the detection starts: the first request has just gone out. */
  function Start(stun1: Addr, stun2: Addr, bound: nat): Client {
    Send(Client(true, Firewall, 0, 5, 0, 0, NO_ADDR, NO_ADDR, stun1, stun2, bound, 0, {}))
  }
}
