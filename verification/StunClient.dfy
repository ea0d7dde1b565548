/** The STUN client as the source keeps it, proved to take the steps of `StunModel` and
    to read messages as `StunMessage` does. */
module StunClient {
  import opened Width
  import opened Wrappers
  import opened StunModel
  import opened StunMessage

  class StunClient {
    var active: bool
    var natType: NatType
    var sendSeq: nat
    var maxResend: int
    var nextResend: int
    var timeStamp: int
    var addrExt1: Addr
    var addrExt2: Addr
    var addrStun: Addr
    var addrStun2: Addr
    var ipBinded: nat
    var pingTime: int
    ghost var contacted: set<Addr>

    ghost function View(): Client
      reads this
    {
      Client(active, natType, sendSeq, maxResend, nextResend, timeStamp,
             addrExt1, addrExt2, addrStun, addrStun2, ipBinded, pingTime, contacted)
    }

    /** `constr` and the first `send` of `getNatType`. */
    constructor (stun: Addr, stun2: Addr, ipBinded: nat)
      ensures View() == Start(stun, stun2, ipBinded)
    {
      active, natType, sendSeq, maxResend, nextResend, timeStamp := true, Firewall, 0, 5, 0, 0;
      addrExt1, addrExt2, addrStun, addrStun2 := NO_ADDR, NO_ADDR, stun, stun2;
      this.ipBinded, pingTime, contacted := ipBinded, 0, {};
      new;
      SendRequest();
    }

    /** The schedule and the target of `send`. */
    method SendRequest()
      modifies this`nextResend, this`contacted
      ensures View() == Send(old(View()))
    {
      var a := addrStun;
      if sendSeq == 2 {
        a := addrStun2;
      }
      if pingTime > 0 && pingTime * 2 < RETRANSMIT_MS {
        nextResend := timeStamp + RETRANSMIT_MS / 2;
      } else {
        nextResend := timeStamp + RETRANSMIT_MS;
      }
      contacted := contacted + {a};
    }

    method Deactivate()
      modifies this`active, this`nextResend
      ensures View() == SetInactive(old(View()))
    {
      if active {
        active := false;
        nextResend := 0;
      }
    }

    /** `checkState` */
    method CheckNat()
      modifies this
      ensures View() == CheckState(old(View()))
    {
      if !active {
        return;
      }
      if addrExt1.ip == ipBinded {
        natType := NoNat;
        Deactivate();
        return;
      }
      if addrExt2.ip == 0 && addrStun2.ip != 0 {
        maxResend := 5;
        sendSeq := 1;
        SendRequest();
        return;
      }
      if addrExt2.ip != 0 {
        if addrExt1 == addrExt2 {
          if sendSeq == 1 {
            natType := FullCone;
            Deactivate();
          } else if sendSeq == 2 {
            sendSeq := 3;
            maxResend := MAX_RESEND / 2;
            SendRequest();
          } else if sendSeq == 3 {
            natType := AddrRestricted;
            Deactivate();
          }
        } else {
          natType := Symmetric;
          Deactivate();
        }
      }
    }

    method ReadAddress(t: Half, a: Addr)
      modifies this`addrExt1, this`addrExt2, this`addrStun2
      ensures View() == Apply(old(View()), t, a)
    {
      if t == MAPPED_ADDRESS {
        if addrExt1.ip != 0 {
          addrExt2 := a;
        } else {
          addrExt1 := a;
        }
      } else if t == CHANGED_ADDRESS {
        if addrStun2.ip == 0 {
          addrStun2 := a;
        }
      }
    }

    /** The attribute loop of `parse`. */
    method ReadAttributes(p: seq<Byte>) returns (err: int)
      requires |p| >= HEADER
      modifies this`addrExt1, this`addrExt2, this`addrStun2
      ensures (View(), err) == ParseAttrs(old(View()), p, HEADER, |p| - HEADER)
    {
      var i, rec := HEADER, |p| - HEADER;
      while rec >= 4 && active
        invariant rec >= 0 ==> i + rec == |p|
        invariant rec < 0 ==> ParseAttrs(old(View()), p, HEADER, |p| - HEADER) == (View(), 0)
        invariant rec >= 0 ==> ParseAttrs(old(View()), p, HEADER, |p| - HEADER) == ParseAttrs(View(), p, i, rec)
        decreases rec
      {
        var t := Be16(p, i);
        var len := Be16(p, i + 2);
        i := i + 4;
        rec := rec - 4 - len;
        if t == MAPPED_ADDRESS || t == SOURCE_ADDRESS || t == CHANGED_ADDRESS {
          if len != 8 {
            return -5;
          }
          if rec < 0 {
            return -6;
          }
          ReadAddress(t, Addr(Le32(p, i + 4), Le16(p, i + 2)));
        }
        i := i + len;
      }
      return 0;
    }

    /** `parse` */
    method ParseMessage(p: seq<Byte>) returns (err: int)
      modifies this
      ensures
        var (c, e) := Parse(old(View()), p);
        err == e && View() == (if e == 0 then CheckState(c) else c)
    {
      hide ParseAttrs, CheckState;
      if |p| < HEADER {
        return -1;
      }
      if Be16(p, 0) != 0x0101 {
        return -2;
      }
      if Be16(p, 2) + HEADER != |p| {
        return -3;
      }
      err := ReadAttributes(p);
      if err == 0 {
        CheckNat();
      }
    }

    method NotePing(rtt: Option<int>)
      modifies this`pingTime
      ensures View() == Ping(old(View()), rtt)
    {
      if rtt.Some? {
        if rtt.value < pingTime || pingTime == 0 {
          pingTime := rtt.value;
          if pingTime <= 0 {
            pingTime := 3;
          } else if pingTime > 10000 {
            pingTime := 10000;
          }
        }
      }
    }

    /** `isStunResponce`; the measured round-trip time is an input. */
    method OnPacket(id: seq<Byte>, p: seq<Byte>, src: Addr, rtt: Option<int>) returns (mine: bool)
      requires |id| == 8
      modifies this
      ensures (View(), mine) == Receive(old(View()), id, p, src, rtt)
    {
      hide Parse, CheckState, Ping;
      if !active || |p| < 28 || |p| > 80 {
        return false;
      }
      if p[12..20] != id {
        return false;
      }
      if Le32(p, 4) != sendSeq {
        return false;
      }
      if src.ip != addrStun.ip && src.ip != addrStun2.ip {
        return false;
      }
      var err := ParseMessage(p);
      if err == 0 {
        NotePing(rtt);
        return true;
      }
      return false;
    }

    /** One turn of the resend loop before its sleep. */
    method ResendTurn()
      requires Running(View())
      modifies this
      ensures View() == Resend(old(View()))
    {
      if nextResend != 0 && nextResend < timeStamp {
        if maxResend <= 0 {
          if sendSeq == 1 {
            sendSeq := 2;
            maxResend := MAX_RESEND;
            SendRequest();
          } else if sendSeq == 3 {
            natType := PortRestricted;
            Deactivate();
          } else {
            Deactivate();
          }
        } else {
          SendRequest();
          maxResend := maxResend - 1;
        }
      }
    }
  }
}
