/** The UTF-8 decoder behind the text edits: it inverts the encoding on the characters its
    16-bit output can hold, and a broken sequence never swallows what follows it. */
module Utf8 {
  import opened Buffers
  import opened Width
  import opened Wrappers

  // ----- the decoder as a machine over bytes

  /** The bits so far and how many continuation bytes are still due. */
  datatype State = State(ch: Word, cnt: nat)

  const START := State(0, 0)

  predicate Continues(b: Byte) {
    0x80 <= b < 0xC0
  }

  /** A byte that is not a continuation, or comes when none is due. */
  function Lead(b: Byte): (State, seq<Half>) {
    if b < 0x80 then (State(b, 0), [b])
    else if 0xC2 <= b < 0xE0 then (State(b % 0x20, 1), [])
    else if b / 0x10 == 0xE then (State(b % 0x10, 2), [])
    else if b / 8 == 0x1E then (State(b % 8, 3), [])
    else if b / 4 == 0x3E then (State(b % 4, 4), [])
    else if b / 2 == 0x7E then (State(b % 2, 5), [])
    else (State(b, 0), [])
  }

  function Step(s: State, b: Byte): (State, seq<Half>) {
    if s.cnt > 0 && Continues(b) then
      var ch := Wrap(s.ch * 0x40) + b % 0x40;
      (State(Wrap(ch), s.cnt - 1), if s.cnt == 1 then [ch % 0x1_0000] else [])
    else Lead(b)
  }

  /** Reading `bs` from state `s`. */
  function Reads(s: State, bs: seq<Byte>): (r: (State, seq<Half>))
    ensures |r.1| <= |bs|
  {
    if bs == [] then (s, [])
    else
      var (s1, out) := Reads(s, bs[..|bs| - 1]);
      var (s2, more) := Step(s1, bs[|bs| - 1]);
      (s2, out + more)
  }

  /** The characters in `bs`. */
  function Decoded(bs: seq<Byte>): seq<Half> {
    Reads(START, bs).1
  }

  lemma {:induction false} ReadsAppend(s: State, a: seq<Byte>, b: seq<Byte>)
    ensures
      var (s1, out1) := Reads(s, a);
      var (s2, out2) := Reads(s1, b);
      Reads(s, a + b) == (s2, out1 + out2)
  {
    hide Step;
    if b == [] {
      assert a + b == a && Reads(s, a).1 + [] == Reads(s, a).1;
    } else {
      var before := b[..|b| - 1];
      ReadsAppend(s, a, before);
      assert (a + b)[..|a + b| - 1] == a + before;
      var (s1, out1) := Reads(s, a);
      var (s2, out2) := Reads(s1, before);
      var more := Step(s2, b[|b| - 1]).1;
      assert (out1 + out2) + more == out1 + (out2 + more);
    }
  }

  // ----- resynchronisation

  /** Reading anything that does not begin with a continuation byte is the same from every
      state: an unfinished sequence is dropped. */
  lemma {:induction false} Resynchronises(s: State, v: seq<Byte>)
    requires v != [] ==> !Continues(v[0])
    ensures Reads(s, v).1 == Decoded(v) && (v != [] ==> Reads(s, v) == Reads(START, v))
  {
    if |v| == 1 {
      assert v[..0] == [];
      assert Reads(s, v[..0]) == (s, []) && Reads(START, v[..0]) == (START, []);
    } else if |v| > 1 {
      Resynchronises(s, v[..|v| - 1]);
    }
  }

  /** Decoding splits wherever a character may begin, for any bytes at all. */
  lemma DecodedAppend(b: seq<Byte>, v: seq<Byte>)
    requires v != [] ==> !Continues(v[0])
    ensures Decoded(b + v) == Decoded(b) + Decoded(v)
  {
    hide Reads;
    ReadsAppend(START, b, v);
    Resynchronises(Reads(START, b).0, v);
  }

  function Leads(bs: seq<Byte>): nat {
    if bs == [] then 0 else Leads(bs[..|bs| - 1]) + (if Continues(bs[|bs| - 1]) then 0 else 1)
  }

  /** At most one character for every byte that is not a continuation, none due being left
      over. */
  lemma {:induction false} OnePerLead(bs: seq<Byte>)
    ensures |Decoded(bs)| + (if Reads(START, bs).0.cnt > 0 then 1 else 0) <= Leads(bs)
  {
    if bs == [] {
    } else {
      OnePerLead(bs[..|bs| - 1]);
    }
  }

  type CodePoint = c: int | 0 <= c < 0x11_0000

  // ----- the encoding of section 3 of RFC 3629

  function Encoded(c: CodePoint): seq<Byte>
  {
    if c < 0x80 then [c]
    else if c < 0x800 then [0xC0 + c / 0x40, 0x80 + c % 0x40]
    else if c < 0x1_0000 then [0xE0 + c / 0x1000, 0x80 + c / 0x40 % 0x40, 0x80 + c % 0x40]
    else [0xF0 + c / 0x4_0000, 0x80 + c / 0x1000 % 0x40, 0x80 + c / 0x40 % 0x40, 0x80 + c % 0x40]
  }

  function EncodedAll(cs: seq<CodePoint>): seq<Byte>
  {
    if cs == [] then [] else EncodedAll(cs[..|cs| - 1]) + Encoded(cs[|cs| - 1])
  }

  lemma ReadsNext(s: State, bs: seq<Byte>, b: Byte)
    ensures
      var (s1, out) := Reads(s, bs);
      Reads(s, bs + [b]) == (Step(s1, b).0, out + Step(s1, b).1)
  {
    hide Step;
    assert (bs + [b])[..|bs|] == bs;
  }

  lemma ReadsNone(s: State)
    ensures Reads(s, []) == (s, [])
  {
  }

  lemma ReadsFront(s: State, b: Byte, bs: seq<Byte>)
    ensures
      var (s1, out) := Step(s, b);
      Reads(s, [b] + bs) == (Reads(s1, bs).0, out + Reads(s1, bs).1)
  {
    hide Reads, Step;
    ReadsNone(s);
    ReadsNext(s, [], b);
    assert [] + [b] == [b] && [] + Step(s, b).1 == Step(s, b).1;
    ReadsAppend(s, [b], bs);
  }

  /** A continuation byte carries six bits. */
  lemma StepSix(ch: nat, cnt: nat, x: nat)
    requires x < 0x40 && ch < 0x400_0000 - 1
    ensures Step(State(ch, cnt + 1), 0x80 + x)
         == (State(ch * 0x40 + x, cnt), if cnt == 0 then [(ch * 0x40 + x) % 0x1_0000] else [])
  {
    assert (0x80 + x) % 0x40 == x;
  }

  lemma LeadOf(c: CodePoint)
    requires c >= 0x80
    ensures
      var n := |Encoded(c)| - 1;
      && 1 <= n <= 3 && !Continues(Encoded(c)[0])
      && Step(START, Encoded(c)[0]) ==
           (State(if n == 1 then c / 0x40 else if n == 2 then c / 0x1000 else c / 0x4_0000, n), [])
  {
  }

  lemma AsciiIs(c: int)
    requires 0 <= c < 0x80
    ensures Step(START, c) == (State(c, 0), [c])
  {
  }

  /** The continuation bytes that complete `c`. */
  lemma DecodedRest(ch: nat, bs: seq<Byte>, c: CodePoint, n: nat)
    requires n == |bs| && 1 <= n <= 3
    requires n == 1 ==> ch == c / 0x40
    requires n == 2 ==> ch == c / 0x1000
    requires n == 3 ==> ch == c / 0x4_0000
    requires bs[n - 1] == 0x80 + c % 0x40
    requires n > 1 ==> bs[n - 2] == 0x80 + c / 0x40 % 0x40
    requires n > 2 ==> bs[n - 3] == 0x80 + c / 0x1000 % 0x40
    ensures Reads(State(ch, n), bs).1 == [c % 0x1_0000]
    decreases n
  {
    hide Reads, Step;
    var x := bs[0] - 0x80;
    StepSix(ch, n - 1, x);
    ReadsFront(State(ch, n), bs[0], bs[1..]);
    assert [bs[0]] + bs[1..] == bs;
    if n == 1 {
      assert bs[1..] == [];
      ReadsNone(State(c, 0));
    } else {
      assert c / 0x40 / 0x40 == c / 0x1000 && c / 0x1000 / 0x40 == c / 0x4_0000;
      DecodedRest(ch * 0x40 + x, bs[1..], c, n - 1);
    }
  }

  /** One character is decoded to its low 16 bits. */
  lemma DecodedOne(c: CodePoint)
    ensures Decoded(Encoded(c)) == [c % 0x1_0000] && !Continues(Encoded(c)[0])
  {
    var bs := Encoded(c);
    hide Reads, Step;
    if |bs| == 1 {
      ReadsFront(START, c, []);
      ReadsNone(Step(START, c).0);
      AsciiIs(c);
      assert [c] + [] == bs;
    } else {
      LeadOf(c);
      var n: nat := |bs| - 1;
      var s := Step(START, bs[0]).0;
      ReadsFront(START, bs[0], bs[1..]);
      assert [bs[0]] + bs[1..] == bs;
      DecodedRest(s.ch, bs[1..], c, n);
    }
  }

  function LowHalves(cs: seq<CodePoint>): (r: seq<Half>)
    ensures |r| == |cs| && forall i :: 0 <= i < |r| ==> r[i] == cs[i] % 0x1_0000
  {
    seq(|cs|, i requires 0 <= i < |cs| => cs[i] % 0x1_0000)
  }

  lemma DecodedNone()
    ensures Decoded([]) == []
  {
  }

  /** Decoding an encoded text gives the low 16 bits of every character. */
  lemma {:induction false} DecodedAll(cs: seq<CodePoint>)
    ensures Decoded(EncodedAll(cs)) == LowHalves(cs)
  {
    hide Decoded, Encoded;
    if cs == [] {
      DecodedNone();
    } else {
      var before, c := cs[..|cs| - 1], cs[|cs| - 1];
      DecodedAll(before);
      DecodedOne(c);
      DecodedAppend(EncodedAll(before), Encoded(c));
      assert LowHalves(cs) == LowHalves(before) + [c % 0x1_0000];
    }
  }

  /** The round trip holds exactly for the texts of characters below 2^16. */
  lemma RoundTrip(cs: seq<CodePoint>)
    ensures Decoded(EncodedAll(cs)) == cs <==> forall c :: c in cs ==> c < 0x1_0000
  {
    hide Decoded, EncodedAll;
    DecodedAll(cs);
    if Decoded(EncodedAll(cs)) == cs {
      forall c | c in cs
        ensures c < 0x1_0000
      {
        var i :| 0 <= i < |cs| && cs[i] == c;
        assert LowHalves(cs)[i] == c % 0x1_0000;
      }
    } else {
      var i :| 0 <= i < |cs| && LowHalves(cs)[i] != cs[i];
      assert cs[i] in cs;
    }
  }

  // ----- the decoder loop

  /** What a byte that opens a longer sequence, or none, makes the loop expect. */
  method Expect(b: Byte) returns (ch: Word, cnt: nat)
    requires b >= 0x80
    ensures Lead(b) == (State(ch, cnt), [])
  {
    ch := b;
    if 0xC2 <= ch < 0xE0 {
      cnt, ch := 2, ch % 0x20;
    } else if ch / 0x10 == 0xE {
      cnt, ch := 3, ch % 0x10;
    } else if ch / 8 == 0x1E {
      cnt, ch := 4, ch % 8;
    } else if ch / 4 == 0x3E {
      cnt, ch := 5, ch % 4;
    } else if ch / 2 == 0x7E {
      cnt, ch := 6, ch % 2;
    } else {
      cnt := 1;
    }
    cnt := cnt - 1;
  }

  /** The loop at byte `i`, with `p` characters written: it stands where the machine stands,
      or has given up on a sequence that this byte breaks. */
  ghost predicate Follows(str: seq<Byte>, i: nat, ch: Word, cnt: nat, done: seq<Half>) {
    && i <= |str| && Reads(START, str[..i]).1 == done
    && var s := Reads(START, str[..i]).0;
       if cnt == 0 then s.cnt == 0 || (i < |str| && !Continues(str[i])) else s == State(ch, cnt)
  }

  /** Both ways of looking at a byte are the machine's step. */
  lemma FollowsStep(str: seq<Byte>, i: nat, ch: Word, cnt: nat, done: seq<Half>)
    requires Follows(str, i, ch, cnt, done) && i < |str|
    ensures cnt > 0 && !Continues(str[i]) ==> Follows(str, i, ch, 0, done)
    ensures
      var (s, more) := if cnt == 0 then Lead(str[i]) else Step(State(ch, cnt), str[i]);
      cnt == 0 || Continues(str[i]) ==> Follows(str, i + 1, s.ch, s.cnt, done + more)
  {
    hide Reads, Lead;
    ReadsNext(START, str[..i], str[i]);
    assert str[..i] + [str[i]] == str[..i + 1];
  }

  lemma FollowsStart(str: seq<Byte>)
    ensures Follows(str, 0, 0, 0, [])
  {
    assert str[..0] == [];
  }

  lemma FollowsEnd(str: seq<Byte>, ch: Word, cnt: nat, done: seq<Half>)
    requires Follows(str, |str|, ch, cnt, done)
    ensures done == Decoded(str)
  {
    hide Reads;
    assert str[..|str|] == str;
  }

  lemma StepOf(ch: Word, cnt: nat, b: Byte)
    requires cnt > 0 && Continues(b)
    ensures
      var c := Wrap(Wrap(ch * 0x40) + b % 0x40);
      Step(State(ch, cnt), b) == (State(c, cnt - 1), if cnt == 1 then [c % 0x1_0000] else [])
  {
    WrapPlus(Wrap(ch * 0x40) + b % 0x40, 0);
  }

  lemma LeadAscii(b: Byte)
    requires b < 0x80
    ensures Lead(b) == (State(b, 0), [b])
  {
  }

  /** `t_utf8_to_ucs2`, writing from `at` on. A byte that breaks a sequence is looked at
      again, so the loop ends because the bytes due then drop to none. */
  method ToUcs2(str: seq<Byte>, out: array<Half>, at: nat) returns (n: Option<nat>)
    requires at + |str| <= out.Length
    modifies out
    ensures str == [] ==> n == None && out[..] == old(out[..])
    ensures str != [] ==> n == Some(|Decoded(str)|) && Wrote(out[..], old(out[..]), at, Decoded(str))
  {
    if |str| == 0 {
      return None;
    }
    hide Reads, Follows, Step, Lead;
    var ch: Word, cnt, i := 0, 0, 0;
    ghost var done: seq<Half> := [];
    var p := at;
    FollowsStart(str);
    while i < |str|
      invariant 0 <= i <= |str| && 0 <= cnt && p == at + |done| && |done| <= i
      invariant Follows(str, i, ch, cnt, done)
      invariant Wrote(out[..], old(out[..]), at, done)
      decreases |str| - i, cnt
    {
      FollowsStep(str, i, ch, cnt, done);
      if cnt > 0 {
        var byte := str[i];
        if byte / 0x40 != 2 {
          cnt := 0;
          continue;
        }
        StepOf(ch, cnt, byte);
        ch := Wrap(Wrap(ch * 0x40) + byte % 0x40);
        cnt := cnt - 1;
        if cnt == 0 {
          out[p], p, done := ch % 0x1_0000, p + 1, done + [ch % 0x1_0000];
        }
      } else {
        ch := str[i];
        if ch < 0x80 {
          LeadAscii(ch);
          out[p], p, done := ch, p + 1, done + [ch];
        } else {
          ch, cnt := Expect(ch);
        }
      }
      i := i + 1;
    }
    FollowsEnd(str, ch, cnt, done);
    n := Some(p - at);
  }
}
