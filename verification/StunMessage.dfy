/** STUN responses as bytes: reading them is proved to undo writing them. */
module StunMessage {
  import opened Width
  import opened Wrappers
  import opened StunModel

  const HEADER: nat := 20

  function Be16(p: seq<Byte>, i: nat): Half
    requires i + 2 <= |p|
  {
    (p[i] as int) * 0x100 + p[i + 1]
  }

  function Le16(p: seq<Byte>, i: nat): Half
    requires i + 2 <= |p|
  {
    p[i] + (p[i + 1] as int) * 0x100
  }

  function Le32(p: seq<Byte>, i: nat): Word
    requires i + 4 <= |p|
  {
    Le16(p, i) + (Le16(p, i + 2) as int) * 0x1_0000
  }

  const MAPPED_ADDRESS: Half := 1
  const SOURCE_ADDRESS: Half := 4
  const CHANGED_ADDRESS: Half := 5

  predicate IsAddress(t: Half) {
    t == MAPPED_ADDRESS || t == SOURCE_ADDRESS || t == CHANGED_ADDRESS
  }

  /** What one address attribute does to the client. */
  function Apply(c: Client, t: Half, a: Addr): Client {
    if t == MAPPED_ADDRESS then Mapped(c, a) else if t == CHANGED_ADDRESS then Changed(c, a) else c
  }

  /** The attribute loop of `parse`, from byte `i` with `rec` bytes to go. */
  function ParseAttrs(c: Client, p: seq<Byte>, i: nat, rec: int): (Client, int)
    requires i + rec == |p|
    decreases rec
  {
    if rec < 4 || !c.active then (c, 0)
    else
      var t, len := Be16(p, i), Be16(p, i + 2);
      var rest := rec - 4 - len;
      if !IsAddress(t) then (if rest < 0 then (c, 0) else ParseAttrs(c, p, i + 4 + len, rest))
      else if len != 8 then (c, -5)
      else if rest < 0 then (c, -6)
      else ParseAttrs(Apply(c, t, Addr(Le32(p, i + 8), Le16(p, i + 6))), p, i + 12, rest)
  }

  /** `parse` up to the state check. */
  function Parse(c: Client, p: seq<Byte>): (Client, int) {
    if |p| < HEADER then (c, -1)
    else if Be16(p, 0) != 0x0101 then (c, -2)
    else if Be16(p, 2) + HEADER != |p| then (c, -3)
    else ParseAttrs(c, p, HEADER, |p| - HEADER)
  }

  /** `isStunResponce`; `id` are the eight bytes this client put into its requests. */
  function Receive(c: Client, id: seq<Byte>, p: seq<Byte>, src: Addr, rtt: Option<int>): (Client, bool)
    requires |id| == 8
  {
    if !c.active || |p| < 28 || |p| > 80 then (c, false)
    else if p[12..20] != id || Le32(p, 4) != c.seqNo then (c, false)
    else if src.ip != c.stun1.ip && src.ip != c.stun2.ip then (c, false)
    else
      var (c1, err) := Parse(c, p);
      if err == 0 then (Ping(CheckState(c1), rtt), true) else (c1, false)
  }

  // ----- writing

  /** The family of an address is written, and not looked at when it is read. */
  datatype Attr = Address(t: Half, family: Half, addr: Addr) | Other(t: Half, value: seq<Byte>)

  ghost predicate Writable(a: Attr) {
    match a
    case Address(t, _, addr) => IsAddress(t) && addr.ip < 0x1_0000_0000 && addr.port < 0x1_0000
    case Other(t, value) => !IsAddress(t) && |value| < 0x1_0000
  }

  function Enc16(x: int): seq<Byte> {
    [x / 0x100 % 0x100, x % 0x100]
  }

  function Raw16(x: int): seq<Byte> {
    [x % 0x100, x / 0x100 % 0x100]
  }

  function Raw32(x: int): seq<Byte> {
    Raw16(x % 0x1_0000) + Raw16(x / 0x1_0000)
  }

  function EncAttr(a: Attr): seq<Byte> {
    match a
    case Address(t, family, addr) => Enc16(t) + Enc16(8) + Enc16(family) + Raw16(addr.port) + Raw32(addr.ip)
    case Other(t, value) => Enc16(t) + Enc16(|value|) + value
  }

  function EncAttrs(attrs: seq<Attr>): seq<Byte> {
    if attrs == [] then [] else EncAttr(attrs[0]) + EncAttrs(attrs[1..])
  }

  function Message(k: nat, cnt: nat, id: seq<Byte>, attrs: seq<Attr>): seq<Byte> {
    [1, 1] + Enc16(|EncAttrs(attrs)|) + Raw32(k) + Raw32(cnt) + id + EncAttrs(attrs)
  }

  function ApplyAll(c: Client, attrs: seq<Attr>): Client
    decreases |attrs|
  {
    if attrs == [] then c
    else ApplyAll(if attrs[0].Address? then Apply(c, attrs[0].t, attrs[0].addr) else c, attrs[1..])
  }

  // ----- reading undoes writing

  lemma ReadBe16(p: seq<Byte>, i: nat, x: int)
    requires i + 2 <= |p| && p[i..i + 2] == Enc16(x) && 0 <= x < 0x1_0000
    ensures Be16(p, i) == x
  {
    assert p[i] == p[i..i + 2][0] && p[i + 1] == p[i..i + 2][1];
  }

  lemma ReadLe16(p: seq<Byte>, i: nat, x: int)
    requires i + 2 <= |p| && p[i..i + 2] == Raw16(x) && 0 <= x < 0x1_0000
    ensures Le16(p, i) == x
  {
    assert p[i] == p[i..i + 2][0] && p[i + 1] == p[i..i + 2][1];
  }

  lemma ReadLe32(p: seq<Byte>, i: nat, x: int)
    requires i + 4 <= |p| && p[i..i + 4] == Raw32(x) && 0 <= x < 0x1_0000_0000
    ensures Le32(p, i) == x
  {
    assert p[i..i + 2] == p[i..i + 4][..2] == Raw16(x % 0x1_0000);
    assert p[i + 2..i + 4] == p[i..i + 4][2..] == Raw16(x / 0x1_0000);
    ReadLe16(p, i, x % 0x1_0000);
    ReadLe16(p, i + 2, x / 0x1_0000);
    hide Le16, Raw16;
  }

  lemma ApplyActive(c: Client, t: Half, a: Addr)
    ensures Apply(c, t, a).active == c.active && Apply(c, t, a).seqNo == c.seqNo
  {
  }

  lemma SliceOf(p: seq<Byte>, i: nat, e: seq<Byte>, j: nat, n: nat)
    requires i + |e| <= |p| && p[i..i + |e|] == e && j + n <= |e|
    ensures p[i + j..i + j + n] == e[j..j + n]
  {
    var a, b, whole := p[i + j..i + j + n], e[j..j + n], p[i..i + |e|];
    forall m | 0 <= m < n
      ensures a[m] == b[m]
    {
      assert whole[j + m] == p[i + (j + m)];
    }
  }

  /** One address attribute is read as it was written. */
  lemma ParseAddress(c: Client, p: seq<Byte>, i: nat, a: Attr)
    requires Writable(a) && a.Address? && c.active
    requires i + 12 <= |p| && p[i..i + 12] == EncAttr(a)
    ensures ParseAttrs(c, p, i, |p| - i) == ParseAttrs(Apply(c, a.t, a.addr), p, i + 12, |p| - i - 12)
  {
    var e := EncAttr(a);
    assert
      && e[0..2] == Enc16(a.t) && e[2..4] == Enc16(8)
      && e[6..8] == Raw16(a.addr.port) && e[8..12] == Raw32(a.addr.ip);
    hide Be16, Le16, Le32, Enc16, Raw16, Raw32, EncAttr, Apply;
    SliceOf(p, i, e, 0, 2);
    SliceOf(p, i, e, 2, 2);
    SliceOf(p, i, e, 6, 2);
    SliceOf(p, i, e, 8, 4);
    ReadBe16(p, i, a.t);
    ReadBe16(p, i + 2, 8);
    ReadLe16(p, i + 6, a.addr.port);
    ReadLe32(p, i + 8, a.addr.ip);
  }

  lemma ParseOther(c: Client, p: seq<Byte>, i: nat, a: Attr)
    requires Writable(a) && a.Other? && c.active
    requires i + 4 + |a.value| <= |p| && p[i..i + 4 + |a.value|] == EncAttr(a)
    ensures ParseAttrs(c, p, i, |p| - i) == ParseAttrs(c, p, i + 4 + |a.value|, |p| - i - 4 - |a.value|)
  {
    var e := EncAttr(a);
    assert e[0..2] == Enc16(a.t) && e[2..4] == Enc16(|a.value|);
    hide Be16, Enc16, EncAttr;
    SliceOf(p, i, e, 0, 2);
    SliceOf(p, i, e, 2, 2);
    ReadBe16(p, i, a.t);
    ReadBe16(p, i + 2, |a.value|);
  }

  lemma ParseNothing(c: Client, p: seq<Byte>)
    ensures ParseAttrs(c, p, |p|, 0) == (c, 0)
  {
  }

  lemma EncAttrLength(a: Attr)
    ensures |EncAttr(a)| == (if a.Address? then 12 else 4 + |a.value|)
  {
  }

  lemma {:induction false} ApplyAllActive(c: Client, attrs: seq<Attr>)
    ensures ApplyAll(c, attrs).active == c.active
    decreases |attrs|
  {
    hide Apply;
    if attrs == [] {
    } else {
      var a := attrs[0];
      if a.Address? {
        ApplyActive(c, a.t, a.addr);
      }
      ApplyAllActive(if a.Address? then Apply(c, a.t, a.addr) else c, attrs[1..]);
    }
  }

  lemma FirstWritten(p: seq<Byte>, i: nat, attrs: seq<Attr>, tail: seq<Byte>)
    requires attrs != [] && i <= |p| && p[i..] == EncAttrs(attrs) + tail
    ensures
      var n := |EncAttr(attrs[0])|;
      i + n <= |p| && p[i..i + n] == EncAttr(attrs[0]) && p[i + n..] == EncAttrs(attrs[1..]) + tail
  {
    hide EncAttr;
    var n := |EncAttr(attrs[0])|;
    assert EncAttrs(attrs) + tail == EncAttr(attrs[0]) + (EncAttrs(attrs[1..]) + tail);
    assert p[i..i + n] == p[i..][..n];
    assert p[i + n..] == p[i..][n..];
  }

  /** The attribute loop applies any list of attributes in order, up to what follows them. */
  lemma {:induction false} ParseEncAttrs(c: Client, p: seq<Byte>, i: nat, attrs: seq<Attr>, tail: seq<Byte>)
    requires c.active && i <= |p| && p[i..] == EncAttrs(attrs) + tail
    requires forall j :: 0 <= j < |attrs| ==> Writable(attrs[j])
    ensures |tail| <= |p|
    ensures ParseAttrs(c, p, i, |p| - i) == ParseAttrs(ApplyAll(c, attrs), p, |p| - |tail|, |tail|)
    decreases |attrs|
  {
    hide ParseAttrs, Apply, EncAttr;
    if attrs == [] {
      assert |p| - i == |p[i..]| == |tail|;
    } else {
      var a, n := attrs[0], |EncAttr(attrs[0])|;
      EncAttrLength(a);
      FirstWritten(p, i, attrs, tail);
      hide EncAttrs;
      if a.Address? {
        ParseAddress(c, p, i, a);
        ApplyActive(c, a.t, a.addr);
        ParseEncAttrs(Apply(c, a.t, a.addr), p, i + 12, attrs[1..], tail);
      } else {
        ParseOther(c, p, i, a);
        ParseEncAttrs(c, p, i + n, attrs[1..], tail);
      }
    }
  }

  /** Where a message carries what. */
  lemma MessageHeader(k: nat, cnt: nat, id: seq<Byte>, attrs: seq<Attr>)
    requires |id| == 8 && k < 0x1_0000_0000 && |EncAttrs(attrs)| < 0x1_0000
    ensures
      var p, body := Message(k, cnt, id, attrs), EncAttrs(attrs);
      && |p| == HEADER + |body| && p[12..20] == id && p[HEADER..] == body
      && Be16(p, 0) == 0x0101 && Be16(p, 2) == |body| && Le32(p, 4) == k
  {
    var p, body := Message(k, cnt, id, attrs), EncAttrs(attrs);
    hide EncAttrs;
    assert p[0..2] == [1, 1] == Enc16(0x0101) && p[2..4] == Enc16(|body|) && p[4..8] == Raw32(k);
    hide Message, Be16, Le32, Enc16, Raw32;
    ReadBe16(p, 0, 0x0101);
    ReadBe16(p, 2, |body|);
    ReadLe32(p, 4, k);
  }

  /** A response with any attributes, in any order, among any unknown ones, is read as it
      was written. */
  lemma ReceiveMessage(c: Client, k: nat, cnt: nat, id: seq<Byte>, attrs: seq<Attr>, src: Addr, rtt: Option<int>)
    requires |id| == 8 && k < 0x1_0000_0000 && 8 <= |EncAttrs(attrs)| <= 60
    requires forall j :: 0 <= j < |attrs| ==> Writable(attrs[j])
    ensures
      Receive(c, id, Message(k, cnt, id, attrs), src, rtt) ==
        (if !c.active || k != c.seqNo || (src.ip != c.stun1.ip && src.ip != c.stun2.ip) then (c, false)
         else (Ping(CheckState(ApplyAll(c, attrs)), rtt), true))
  {
    hide Be16, Le32, EncAttrs, Message, ParseAttrs, CheckState, Ping, ApplyAll, Writable;
    MessageHeader(k, cnt, id, attrs);
    if c.active {
      assert Message(k, cnt, id, attrs)[HEADER..] == EncAttrs(attrs) + [];
      ParseEncAttrs(c, Message(k, cnt, id, attrs), HEADER, attrs, []);
      ParseNothing(ApplyAll(c, attrs), Message(k, cnt, id, attrs));
    }
  }

  // ----- any bytes

  /** The attribute that starts here is of an address type and not as long as an address. */
  predicate Malformed(tail: seq<Byte>) {
    |tail| >= 4 && tail[0] == 0 && tail[1] in {1, 4, 5} && (tail[2] != 0 || tail[3] != 8 || |tail| < 12)
  }

  /** The error for it: another length, or too few bytes. */
  function Complaint(tail: seq<Byte>): int
    requires Malformed(tail)
  {
    if tail[2] == 0 && tail[3] == 8 then -6 else -5
  }

  /** Nothing, or an attribute of another type, starts here and is cut off. */
  predicate CutOff(tail: seq<Byte>) {
    |tail| < 4 || (!(tail[0] == 0 && tail[1] in {1, 4, 5}) && |tail| < 4 + (tail[2] as int) * 256 + tail[3])
  }

  lemma ReadTail(p: seq<Byte>, tail: seq<Byte>)
    requires 4 <= |tail| <= |p| && p[|p| - |tail|..] == tail
    ensures
      var i := |p| - |tail|;
      && Be16(p, i) == (tail[0] as int) * 256 + tail[1] && Be16(p, i + 2) == (tail[2] as int) * 256 + tail[3]
      && (IsAddress(Be16(p, i)) <==> tail[0] == 0 && tail[1] in {1, 4, 5})
  {
    var i := |p| - |tail|;
    assert p[i] == p[i..][0] && p[i + 1] == p[i..][1] && p[i + 2] == p[i..][2] && p[i + 3] == p[i..][3];
  }

  lemma ParseTail(c: Client, p: seq<Byte>, tail: seq<Byte>)
    requires c.active && |tail| <= |p| && p[|p| - |tail|..] == tail
    ensures CutOff(tail) ==> ParseAttrs(c, p, |p| - |tail|, |tail|) == (c, 0)
    ensures Malformed(tail) ==> ParseAttrs(c, p, |p| - |tail|, |tail|) == (c, Complaint(tail))
  {
    if |tail| >= 4 {
      ReadTail(p, tail);
      hide Be16, Le32, Le16, IsAddress;
    }
  }

  lemma WriteBe16(p: seq<Byte>, i: nat)
    requires i + 2 <= |p|
    ensures Enc16(Be16(p, i)) == p[i..i + 2]
  {
  }

  lemma WriteLe16(p: seq<Byte>, i: nat)
    requires i + 2 <= |p|
    ensures Raw16(Le16(p, i)) == p[i..i + 2]
  {
  }

  lemma WriteLe32(p: seq<Byte>, i: nat)
    requires i + 4 <= |p|
    ensures Raw32(Le32(p, i)) == p[i..i + 4]
  {
    var lo, hi := Le16(p, i), Le16(p, i + 2);
    assert Le32(p, i) % 0x1_0000 == lo && Le32(p, i) / 0x1_0000 == hi;
    WriteLe16(p, i);
    WriteLe16(p, i + 2);
    hide Le16, Raw16;
  }

  lemma Parts(body: seq<Byte>)
    requires |body| >= 12
    ensures body == body[0..2] + body[2..4] + body[4..6] + body[6..8] + body[8..12] + body[12..]
  {
  }

  lemma AddressOf(body: seq<Byte>) returns (a: Attr)
    requires |body| >= 12 && body[0] == 0 && body[1] in {1, 4, 5} && body[2] == 0 && body[3] == 8
    ensures Writable(a) && body == EncAttr(a) + body[12..]
  {
    a := Address(body[1], Be16(body, 4), Addr(Le32(body, 8), Le16(body, 6)));
    WriteBe16(body, 0);
    WriteBe16(body, 2);
    assert Be16(body, 0) == a.t && Be16(body, 2) == 8;
    hide Enc16, Raw16, Raw32, Le16, Le32, Be16;
    WriteBe16(body, 4);
    WriteLe16(body, 6);
    WriteLe32(body, 8);
    Parts(body);
  }

  lemma OtherOf(body: seq<Byte>) returns (a: Attr)
    requires |body| >= 4 && !(body[0] == 0 && body[1] in {1, 4, 5})
    requires |body| >= 4 + (body[2] as int) * 256 + body[3]
    ensures Writable(a) && body == EncAttr(a) + body[4 + (body[2] as int) * 256 + body[3]..]
  {
    var t, len: nat := (body[0] as int) * 256 + body[1], (body[2] as int) * 256 + body[3];
    assert Enc16(t) == body[0..2] && Enc16(len) == body[2..4];
    a := Other(t, body[4..4 + len]);
    hide Enc16;
    assert body == body[0..2] + body[2..4] + body[4..4 + len] + body[4 + len..];
  }

  /** An attribute as it would be written, from its bytes. */
  lemma OneAttr(body: seq<Byte>) returns (a: Attr, rest: seq<Byte>)
    requires |body| >= 4 && !Malformed(body) && !CutOff(body)
    ensures Writable(a) && body == EncAttr(a) + rest && |rest| < |body|
  {
    if body[0] == 0 && body[1] in {1, 4, 5} {
      a := AddressOf(body);
      rest := body[12..];
    } else {
      a := OtherOf(body);
      rest := body[4 + (body[2] as int) * 256 + body[3]..];
    }
  }

  /** Any bytes are a list of attributes and an end. */
  lemma {:induction false} Splits(body: seq<Byte>) returns (attrs: seq<Attr>, tail: seq<Byte>)
    ensures body == EncAttrs(attrs) + tail && (Malformed(tail) || CutOff(tail))
    ensures forall j :: 0 <= j < |attrs| ==> Writable(attrs[j])
    decreases |body|
  {
    if Malformed(body) || CutOff(body) {
      attrs, tail := [], body;
    } else {
      var a, rest := OneAttr(body);
      var more;
      more, tail := Splits(rest);
      attrs := [a] + more;
      hide EncAttr;
      assert attrs[1..] == more && EncAttr(a) + (EncAttrs(more) + tail) == EncAttr(a) + EncAttrs(more) + tail;
    }
  }

  /** The packet is a response to the current request: from one of the servers, with the
      bytes of this client, with the number sent last, of type 0x0101, and of the length it
      says. */
  ghost predicate Answers(c: Client, id: seq<Byte>, p: seq<Byte>, src: Addr) {
    && c.active && 28 <= |p| <= 80 && (src.ip == c.stun1.ip || src.ip == c.stun2.ip)
    && p[12..20] == id
    && p[4] + (p[5] as int) * 0x100 + (p[6] as int) * 0x1_0000 + (p[7] as int) * 0x100_0000 == c.seqNo
    && p[0] == 1 && p[1] == 1 && 20 + (p[2] as int) * 256 + p[3] == |p|
  }

  lemma HeaderRead(p: seq<Byte>)
    requires |p| >= 20
    ensures Be16(p, 0) == 0x0101 <==> p[0] == 1 && p[1] == 1
    ensures Be16(p, 2) == (p[2] as int) * 256 + p[3]
    ensures Le32(p, 4) == p[4] + (p[5] as int) * 0x100 + (p[6] as int) * 0x1_0000 + (p[7] as int) * 0x100_0000
  {
  }

  /** What the parser makes of any bytes, and its error codes. */
  lemma ParseBytes(c: Client, p: seq<Byte>, attrs: seq<Attr>, tail: seq<Byte>)
    requires c.active && (|p| >= 20 ==> p[20..] == EncAttrs(attrs) + tail) && (Malformed(tail) || CutOff(tail))
    requires forall j :: 0 <= j < |attrs| ==> Writable(attrs[j])
    ensures
      Parse(c, p) ==
        (if |p| < 20 then (c, -1)
         else if !(p[0] == 1 && p[1] == 1) then (c, -2)
         else if 20 + (p[2] as int) * 256 + p[3] != |p| then (c, -3)
         else (ApplyAll(c, attrs), if Malformed(tail) then Complaint(tail) else 0))
  {
    hide ParseAttrs, ApplyAll, Writable, EncAttrs, Be16, Le32, Malformed, CutOff, Complaint;
    if |p| >= 20 {
      HeaderRead(p);
      ParseEncAttrs(c, p, HEADER, attrs, tail);
      ApplyAllActive(c, attrs);
      assert p[|p| - |tail|..] == p[20..][|p[20..]| - |tail|..] == tail;
      ParseTail(ApplyAll(c, attrs), p, tail);
    }
  }

  lemma ComplaintIsError(tail: seq<Byte>)
    requires Malformed(tail)
    ensures Complaint(tail) < 0
  {
  }

  /** What is made of any bytes, `attrs` and `tail` being what their body consists of: a
      packet that is no answer changes nothing and is not taken; an answer is, with its
      attributes applied in order, if no address attribute in it has another length. */
  lemma ReceiveBytes(c: Client, id: seq<Byte>, p: seq<Byte>, src: Addr, rtt: Option<int>)
    returns (attrs: seq<Attr>, tail: seq<Byte>)
    requires |id| == 8
    ensures |p| >= 20 ==> p[20..] == EncAttrs(attrs) + tail && (Malformed(tail) || CutOff(tail))
    ensures forall j :: 0 <= j < |attrs| ==> Writable(attrs[j])
    ensures
      Receive(c, id, p, src, rtt) ==
        (if !Answers(c, id, p, src) then (c, false)
         else if Malformed(tail) then (ApplyAll(c, attrs), false)
         else (Ping(CheckState(ApplyAll(c, attrs)), rtt), true))
  {
    attrs, tail := Splits(if |p| >= 20 then p[20..] else []);
    hide Parse, ApplyAll, CheckState, Ping, Writable, EncAttrs, Be16, Le32, Malformed, CutOff, Complaint;
    if |p| >= 28 && c.active {
      HeaderRead(p);
      ParseBytes(c, p, attrs, tail);
      if Malformed(tail) {
        ComplaintIsError(tail);
      }
    }
  }

  // ----- well-formed responses

  /** The addresses of the attributes of type `t`, in order. */
  function Values(attrs: seq<Attr>, t: Half): seq<Addr> {
    if attrs == [] then []
    else (if attrs[0].Address? && attrs[0].t == t then [attrs[0].addr] else []) + Values(attrs[1..], t)
  }

  function AllMapped(c: Client, s: seq<Addr>): Client
    decreases |s|
  {
    if s == [] then c else AllMapped(Mapped(c, s[0]), s[1..])
  }

  function AllChanged(c: Client, s: seq<Addr>): Client
    decreases |s|
  {
    if s == [] then c else AllChanged(Changed(c, s[0]), s[1..])
  }

  lemma {:induction false} MappedCommutes(c: Client, a: Addr, s: seq<Addr>)
    ensures AllMapped(Changed(c, a), s) == Changed(AllMapped(c, s), a)
    decreases |s|
  {
    if s == [] {
    } else {
      MappedCommutes(Mapped(c, s[0]), a, s[1..]);
    }
  }

  /** The order between different attributes does not matter. */
  lemma {:induction false} ApplyAllSorts(c: Client, attrs: seq<Attr>)
    requires forall j :: 0 <= j < |attrs| ==> Writable(attrs[j])
    ensures
      var ms, cs := Values(attrs, MAPPED_ADDRESS), Values(attrs, CHANGED_ADDRESS);
      ApplyAll(c, attrs) == AllChanged(AllMapped(c, ms), cs)
    decreases |attrs|
  {
    if attrs == [] {
    } else {
      var a := attrs[0];
      var c1 := if a.Address? then Apply(c, a.t, a.addr) else c;
      ApplyAllSorts(c1, attrs[1..]);
      var ms, cs := Values(attrs[1..], MAPPED_ADDRESS), Values(attrs[1..], CHANGED_ADDRESS);
      if a.Address? && a.t == CHANGED_ADDRESS {
        MappedCommutes(c, a.addr, ms);
        assert Values(attrs, CHANGED_ADDRESS) == [a.addr] + cs && Values(attrs, MAPPED_ADDRESS) == ms;
        assert AllChanged(AllMapped(c, ms), [a.addr] + cs) == AllChanged(Changed(AllMapped(c, ms), a.addr), cs);
      } else if a.Address? && a.t == MAPPED_ADDRESS {
        assert Values(attrs, MAPPED_ADDRESS) == [a.addr] + ms && Values(attrs, CHANGED_ADDRESS) == cs;
        assert AllMapped(c, [a.addr] + ms) == AllMapped(Mapped(c, a.addr), ms);
      } else {
        assert Values(attrs, MAPPED_ADDRESS) == ms && Values(attrs, CHANGED_ADDRESS) == cs;
      }
    }
  }

  /** A response that carries one MAPPED-ADDRESS and one CHANGED-ADDRESS, anywhere, acts
      as `StunModel.Respond` says. */
  lemma WellFormedResponds(c: Client, k: nat, cnt: nat, id: seq<Byte>, attrs: seq<Attr>, src: Addr, rtt: Option<int>,
                           mapped: Addr, changed: Addr)
    requires |id| == 8 && k < 0x1_0000_0000 && 8 <= |EncAttrs(attrs)| <= 60
    requires forall j :: 0 <= j < |attrs| ==> Writable(attrs[j])
    requires Values(attrs, 1) == [mapped] && Values(attrs, 5) == [changed]
    ensures Receive(c, id, Message(k, cnt, id, attrs), src, rtt).0 == Respond(c, k, src, mapped, changed, rtt)
  {
    ReceiveMessage(c, k, cnt, id, attrs, src, rtt);
    ApplyAllSorts(c, attrs);
    hide Receive, Message, ApplyAll, CheckState, Ping, EncAttrs;
    assert AllMapped(c, [mapped]) == AllMapped(Mapped(c, mapped), []);
    assert AllChanged(Mapped(c, mapped), [changed]) == AllChanged(Changed(Mapped(c, mapped), changed), []);
  }
}
