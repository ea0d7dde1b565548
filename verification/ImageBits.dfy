/** Packing pixels into 12 bits: four bits a colour, through two tables that the constructor
    fills and that undo each other. */
module ImageBits {
  import opened Buffers
  import opened Width

  // ----- the tables

  /** The running level and its step in the constructor's loop. */
  function Ramp(k: nat): (int, int) {
    if k == 0 then (0, 20)
    else
      var (a, b) := Ramp(k - 1);
      var c := if a + b > 255 then 255 else a + b;
      (c, if c < 128 then b - 1 else b + 1)
  }

  lemma {:induction false} RampRises(k: nat)
    requires k <= 16
    ensures 0 <= Ramp(k).0 < 256 && Ramp(k).1 >= 20 - k
  {
    if k == 0 {
    } else {
      RampRises(k - 1);
    }
  }

  function Level(k: nat): Byte
    requires k < 16
  {
    RampRises(k);
    if k == 15 then 255 else Ramp(k).0
  }

  /** The level of a nibble has that nibble as its upper half. */
  lemma LevelKeepsNibble(k: nat)
    requires k < 16
    ensures Level(k) / 16 == k
  {
    assert Ramp(1) == (20, 19) && Ramp(2) == (39, 18) && Ramp(3) == (57, 17) && Ramp(4) == (74, 16);
    assert Ramp(5) == (90, 15) && Ramp(6) == (105, 14) && Ramp(7) == (119, 13) && Ramp(8) == (132, 14);
    assert Ramp(9) == (146, 15) && Ramp(10) == (161, 16) && Ramp(11) == (177, 17) && Ramp(12) == (194, 18);
    assert Ramp(13) == (212, 19) && Ramp(14) == (231, 20);
  }

  lemma RampStarts()
    ensures Ramp(0) == (0, 20)
  {
  }

  /** The levels rise from black to white. */
  lemma LevelsRise(k: nat)
    requires k < 15
    ensures Level(k) < Level(k + 1) && Level(0) == 0 && Level(15) == 255
  {
    LevelKeepsNibble(k);
    LevelKeepsNibble(k + 1);
    hide Ramp;
    assert Ramp(0) == (0, 20) by { RampStarts(); }
  }

  lemma RampNext(k: nat)
    ensures
      var (a, b) := Ramp(k);
      var c := if a + b > 255 then 255 else a + b;
      Ramp(k + 1) == (c, if c < 128 then b - 1 else b + 1)
  {
  }

  // ----- packing as a whole

  /** Two colours go into each byte, by their upper halves. */
  function Packed(s: seq<Byte>): (p: seq<Byte>)
    ensures |p| == |s| / 2
    ensures forall j :: 0 <= j < |p| ==> p[j] == s[2 * j] / 16 * 16 + s[2 * j + 1] / 16
  {
    seq(|s| / 2, j requires 0 <= j < |s| / 2 => s[2 * j] / 16 * 16 + s[2 * j + 1] / 16)
  }

  lemma PackedAppend(a: seq<Byte>, b: seq<Byte>)
    requires |a| % 2 == 0
    ensures Packed(a + b) == Packed(a) + Packed(b)
  {
  }

  function Nibble(p: seq<Byte>, i: nat): nat
    requires i < 2 * |p|
  {
    if i % 2 == 0 then p[i / 2] / 16 else p[i / 2] % 16
  }

  function Unpacked(p: seq<Byte>): (s: seq<Byte>)
    ensures |s| == 2 * |p|
    ensures forall i :: 0 <= i < |s| ==> s[i] == Level(Nibble(p, i))
  {
    seq(2 * |p|, i requires 0 <= i < 2 * |p| => Level(Nibble(p, i)))
  }

  lemma UnpackedAppend(a: seq<Byte>, b: seq<Byte>)
    ensures Unpacked(a + b) == Unpacked(a) + Unpacked(b)
  {
    hide Level;
    forall i | 0 <= i < 2 * |a + b|
      ensures Unpacked(a + b)[i] == (Unpacked(a) + Unpacked(b))[i]
    {
      if i >= 2 * |a| {
        assert (i - 2 * |a|) / 2 == i / 2 - |a|;
      }
    }
  }

  lemma PackedMore(src: seq<Byte>, was: seq<Byte>, before: seq<Byte>, now: seq<Byte>, p: nat)
    requires 6 * p + 6 <= |src| && Wrote(before, was, 0, Packed(src[..6 * p]))
    requires Wrote(now, before, 3 * p, Packed(src[6 * p..6 * p + 6]))
    ensures Wrote(now, was, 0, Packed(src[..6 * (p + 1)]))
  {
    hide Wrote;
    PackedAppend(src[..6 * p], src[6 * p..6 * p + 6]);
    assert src[..6 * p] + src[6 * p..6 * p + 6] == src[..6 * (p + 1)];
    WroteMore(was, before, now, 0, Packed(src[..6 * p]), Packed(src[6 * p..6 * p + 6]));
  }

  lemma UnpackedMore(src: seq<Byte>, was: seq<Byte>, before: seq<Byte>, now: seq<Byte>, p: nat)
    requires 3 * p + 3 <= |src| && Wrote(before, was, 0, Unpacked(src[..3 * p]))
    requires Wrote(now, before, 6 * p, Unpacked(src[3 * p..3 * p + 3]))
    ensures Wrote(now, was, 0, Unpacked(src[..3 * (p + 1)]))
  {
    hide Wrote, Level;
    UnpackedAppend(src[..3 * p], src[3 * p..3 * p + 3]);
    assert src[..3 * p] + src[3 * p..3 * p + 3] == src[..3 * (p + 1)];
    WroteMore(was, before, now, 0, Unpacked(src[..3 * p]), Unpacked(src[3 * p..3 * p + 3]));
  }

  lemma SixPacked(s: seq<Byte>)
    requires |s| == 6
    ensures Packed(s) == [s[0] / 16 * 16 + s[1] / 16, s[2] / 16 * 16 + s[3] / 16, s[4] / 16 * 16 + s[5] / 16]
  {
  }

  lemma ThreeUnpacked(p: seq<Byte>)
    requires |p| == 3
    ensures
      Unpacked(p) == [Level(p[0] / 16), Level(p[0] % 16), Level(p[1] / 16), Level(p[1] % 16),
                      Level(p[2] / 16), Level(p[2] % 16)]
  {
    hide Level;
    assert Nibble(p, 0) == p[0] / 16 && Nibble(p, 1) == p[0] % 16 && Nibble(p, 2) == p[1] / 16;
    assert Nibble(p, 3) == p[1] % 16 && Nibble(p, 4) == p[2] / 16 && Nibble(p, 5) == p[2] % 16;
  }

  /** The next six bytes of what is packed in place have not been overwritten yet. */
  lemma StillThere(now: seq<Byte>, was: seq<Byte>, ys: seq<Byte>, i: nat)
    requires Wrote(now, was, 0, ys) && |ys| <= i && i + 6 <= |was|
    ensures now[i..i + 6] == was[i..i + 6]
  {
  }

  /** Unpacking loses nothing: packing again gives back every byte. */
  lemma PackUndoesUnpack(p: seq<Byte>)
    ensures Packed(Unpacked(p)) == p
  {
    hide Level;
    var s := Unpacked(p);
    forall j | 0 <= j < |p|
      ensures Packed(s)[j] == p[j]
    {
      var x: nat, y: nat := p[j] / 16, p[j] % 16;
      LevelKeepsNibble(x);
      LevelKeepsNibble(y);
      assert Nibble(p, 2 * j) == x && Nibble(p, 2 * j + 1) == y;
      assert s[2 * j] == Level(x) && s[2 * j + 1] == Level(y);
    }
  }

  /** Packing keeps every colour within 15 of what it was. */
  lemma UnpackNearPacked(s: seq<Byte>, i: nat)
    requires i < 2 * (|s| / 2)
    ensures Abs(Unpacked(Packed(s))[i] as int - s[i] as int) <= 15
  {
    hide Level;
    var k: nat := s[i] / 16;
    LevelKeepsNibble(k);
    assert s[2 * (i / 2)] / 16 < 16 && s[2 * (i / 2) + 1] / 16 < 16;
    assert Packed(s)[i / 2] == s[2 * (i / 2)] / 16 * 16 + s[2 * (i / 2) + 1] / 16;
    assert Nibble(Packed(s), i) == k;
  }

  // ----- the class

  lemma NothingPacked(was: seq<Byte>)
    ensures Packed([]) == [] && Unpacked([]) == [] && Wrote(was, was, 0, [])
  {
  }

  /** Two pixels at a time; an odd last one takes a pair of its own. */
  function Pairs(pixels: nat): (n: nat)
    ensures pixels <= 2 * n <= pixels + 1
  {
    (pixels + 1) / 2
  }

  class CTConvImgBits {
    const pal16: array<Byte>
    const pal256: array<Byte>

    ghost predicate Valid()
      reads pal16, pal256
    {
      && pal16.Length == 16 && pal256.Length == 256
      && (forall k :: 0 <= k < 16 ==> pal16[k] == Level(k))
      && (forall c :: 0 <= c < 256 ==> pal256[c] == c / 16)
    }

    constructor ()
      ensures Valid() && fresh(pal16) && fresh(pal256)
    {
      pal16 := new Byte[16](_ => 0);
      pal256 := new Byte[256](_ => 0);
      new;
      FillLevels();
      FillNibbles();
    }

    method FillNibbles()
      requires pal16.Length == 16 && pal256.Length == 256 && pal16 != pal256
      requires forall k :: 0 <= k < 16 ==> pal16[k] == Level(k)
      modifies pal256
      ensures forall c :: 0 <= c < 256 ==> pal256[c] == c / 16
    {
      hide Level;
      var i := 0;
      while i < 256
        invariant 0 <= i <= 256
        invariant forall c :: 0 <= c < i ==> pal256[c] == c / 16
      {
        LevelKeepsNibble(i / 16);
        pal256[i] := pal16[i / 16] / 16;
        i := i + 1;
      }
    }

    method FillLevels()
      requires pal16.Length == 16
      modifies pal16
      ensures forall k :: 0 <= k < 16 ==> pal16[k] == Level(k)
    {
      hide Ramp;
      RampStarts();
      var i, a, b := 0, 0, 20;
      while i < 16
        invariant 0 <= i <= 16 && (a, b) == Ramp(i) && 0 <= a < 256
        invariant forall k :: 0 <= k < i ==> pal16[k] == Ramp(k).0
      {
        pal16[i] := a;
        RampNext(i);
        RampRises(i + 1);
        a := a + b;
        if a > 255 {
          a := 255;
        }
        if a < 128 {
          b := b - 1;
        } else {
          b := b + 1;
        }
        i := i + 1;
      }
      pal16[15] := 255;
    }

    /** Two colours into one byte; a nibble or-ed into an empty lower half is added. */
    method PackTwo(from: array<Byte>, i: nat, to: array<Byte>, o: nat)
      requires Valid() && i + 2 <= from.Length && o < to.Length
      requires (from == to ==> o <= i) && to != pal256 && to != pal16
      modifies to
      ensures Valid() && to[..] == old(to[..])[o := old(from[i]) / 16 * 16 + old(from[i + 1]) / 16]
    {
      hide Level;
      to[o] := pal256[from[i]] * 16;
      to[o] := to[o] + pal256[from[i + 1]];
    }

    /** Two pixels: six bytes from `i` on go into three from `o` on, which may be the front
        of the same six or lie before them, as when an image is packed in place. */
    method Bits24to12(from: array<Byte>, i: nat, to: array<Byte>, o: nat)
      requires Valid() && i + 6 <= from.Length && o + 3 <= to.Length
      requires (from == to ==> o + 3 <= i || o == i) && to != pal256 && to != pal16
      modifies to
      ensures Valid()
      ensures Wrote(to[..], old(to[..]), o, Packed(old(from[i..i + 6])))
    {
      hide Level, Packed;
      SixPacked(from[i..i + 6]);
      PackTwo(from, i, to, o);
      PackTwo(from, i + 2, to, o + 1);
      PackTwo(from, i + 4, to, o + 2);
    }

    /** Two pixels back: three bytes into six. */
    method Bits12to24(from: array<Byte>, i: nat, to: array<Byte>, o: nat)
      requires Valid() && i + 3 <= from.Length && o + 6 <= to.Length
      requires from != to && to != pal256 && to != pal16
      modifies to
      ensures Valid()
      ensures Wrote(to[..], old(to[..]), o, Unpacked(from[i..i + 3]))
    {
      hide Level, Unpacked;
      ThreeUnpacked(from[i..i + 3]);
      var r, g, b := from[i], from[i], from[i + 1];
      var r2 := b;
      r := r / 16;
      g := g % 16;
      b := b / 16;
      to[o], to[o + 1], to[o + 2] := pal16[r], pal16[g], pal16[b];
      g := from[i + 2];
      b := from[i + 2];
      r := r2 % 16;
      g := g / 16;
      b := b % 16;
      to[o + 3], to[o + 4], to[o + 5] := pal16[r], pal16[g], pal16[b];
    }

    /** `bits24to12` on an image of `pixels` pixels, taken two at a time, in place or not:
        the same bytes either way, and the rest of the buffer is left alone. */
    method PackImage(pixels: nat, from: array<Byte>, to: array<Byte>)
      requires Valid() && 6 * Pairs(pixels) <= from.Length && 3 * Pairs(pixels) <= to.Length
      requires to != pal256 && to != pal16
      modifies to
      ensures Valid() && Wrote(to[..], old(to[..]), 0, Packed(old(from[..6 * Pairs(pixels)])))
    {
      hide Wrote, Packed;
      ghost var src, was := from[..], to[..];
      var t, i, p := pixels, 0, 0;
      NothingPacked(was);
      assert src[..0] == [];
      while i < t
        invariant i == 2 * p && p <= Pairs(pixels) && Valid()
        invariant Wrote(to[..], was, 0, Packed(src[..6 * p]))
        invariant from != to ==> from[..] == src
      {
        ghost var before := to[..];
        if from == to {
          StillThere(from[..], src, Packed(src[..6 * p]), 6 * p);
          assert from[6 * p..6 * p + 6] == from[..][6 * p..6 * p + 6];
        }
        assert from[6 * p..6 * p + 6] == src[6 * p..6 * p + 6];
        Bits24to12(from, 6 * p, to, 3 * p);
        PackedMore(src, was, before, to[..], p);
        p := p + 1;
        i := i + 2;
      }
    }

    /** `bits12to24`. */
    method UnpackImage(pixels: nat, from: array<Byte>, to: array<Byte>)
      requires Valid() && 3 * Pairs(pixels) <= from.Length && 6 * Pairs(pixels) <= to.Length
      requires from != to && to != pal256 && to != pal16
      modifies to
      ensures Valid() && Wrote(to[..], old(to[..]), 0, Unpacked(from[..3 * Pairs(pixels)]))
    {
      hide Wrote, Unpacked, Level;
      ghost var was := to[..];
      var t, i, p := pixels, 0, 0;
      NothingPacked(was);
      assert from[..][..0] == [];
      while i < t
        invariant i == 2 * p && p <= Pairs(pixels) && Valid()
        invariant Wrote(to[..], was, 0, Unpacked(from[..][..3 * p]))
      {
        ghost var before := to[..];
        Bits12to24(from, 3 * p, to, 6 * p);
        UnpackedMore(from[..], was, before, to[..], p);
        p := p + 1;
        i := i + 2;
      }
    }
  }
}
