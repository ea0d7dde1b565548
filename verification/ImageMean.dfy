/** The mean of a block of pixels as the shrinker takes it: a shift where the block size is
    a small power of two, else a multiplication and a shift by 14. */
module ImageMean {
  import opened Division
  import opened Width

  function Shifter(dd: nat): nat {
    if dd == 2 then 1 else if dd == 4 then 2 else if dd == 8 then 3 else if dd == 16 then 4
    else if dd == 32 then 5 else if dd == 64 then 6 else if dd == 128 then 7 else if dd == 256 then 8
    else 0
  }

  function Power(s: nat): (p: nat)
    ensures p > 0
  {
    if s == 0 then 1 else 2 * Power(s - 1)
  }

  function Scale(dd: nat): nat
    requires dd > 0
  {
    0x4000 / dd + 1
  }

  /** The byte stored for a block of `dd` values that sum to `sum`. */
  function Mean(dd: nat, sum: nat): Byte
    requires dd > 0
  {
    if Shifter(dd) > 0 then sum / Power(Shifter(dd)) % 0x100
    else sum * Scale(dd) / 0x4000 % 0x100
  }

  /** How much `dd` times the scale exceeds 2^14. */
  function Excess(dd: nat): nat
    requires dd > 0
  {
    dd - 0x4000 % dd
  }

  /** The block sizes for which equal values have that value as their mean. */
  predicate Exact(dd: nat)
    requires dd > 0
  {
    Shifter(dd) > 0 || Excess(dd) <= 64
  }

  lemma ScaleTimes(dd: nat)
    requires dd > 0
    ensures dd * Scale(dd) == 0x4000 + Excess(dd) && 1 <= Excess(dd) <= dd
  {
    assert 0x4000 == dd * (0x4000 / dd) + 0x4000 % dd;
    assert dd * Scale(dd) == dd * (0x4000 / dd) + dd;
  }

  lemma ShiftDivides(dd: nat)
    requires Shifter(dd) > 0
    ensures Power(Shifter(dd)) == dd
  {
    assert Power(1) == 2 && Power(2) == 4 && Power(3) == 8 && Power(4) == 16;
    assert Power(5) == 32 && Power(6) == 64 && Power(7) == 128 && Power(8) == 256;
  }

  /** What the multiplication makes of `q * dd + r`. */
  lemma Multiplied(dd: nat, q: nat, r: nat)
    requires dd > 0
    ensures (q * dd + r) * Scale(dd) == q * 0x4000 + (q * Excess(dd) + r * Scale(dd))
  {
    ScaleTimes(dd);
    var s, e := Scale(dd), Excess(dd);
    calc {
      (q * dd + r) * s;
    ==
      q * (dd * s) + r * s;
    ==
      q * (0x4000 + e) + r * s;
    }
  }

  lemma Shifted(p: int, q: nat, x: nat)
    requires p == q * 0x4000 + x
    ensures p / 0x4000 == q + x / 0x4000
  {
  }

  lemma NotShifted(dd: nat, sum: nat)
    requires dd > 0 && Shifter(dd) == 0
    ensures Mean(dd, sum) == sum * Scale(dd) / 0x4000 % 0x100
  {
  }

  lemma MeanShifted(dd: nat, q: nat, r: nat)
    requires r < dd && Shifter(dd) > 0
    ensures Mean(dd, q * dd + r) == q % 0x100
  {
    ShiftDivides(dd);
    DivMod(q * dd + r, dd, q, r);
    hide Shifter, Power, Scale;
  }

  lemma MeanScaled(dd: nat, q: nat, r: nat)
    requires r < dd && Shifter(dd) == 0
    ensures Mean(dd, q * dd + r) == (q + (q * Excess(dd) + r * Scale(dd)) / 0x4000) % 0x100
  {
    hide *;
    NotShifted(dd, q * dd + r);
    Multiplied(dd, q, r);
    Shifted((q * dd + r) * Scale(dd), q, q * Excess(dd) + r * Scale(dd));
  }

  /** The mean of a sum: its quotient and what the excess and the remainder add. */
  lemma MeanIs(dd: nat, q: nat, r: nat)
    requires r < dd
    ensures
      Mean(dd, q * dd + r) ==
      (if Shifter(dd) > 0 then q else q + (q * Excess(dd) + r * Scale(dd)) / 0x4000) % 0x100
  {
    hide Mean, Shifter, Scale, Excess;
    if Shifter(dd) > 0 {
      MeanShifted(dd, q, r);
    } else {
      MeanScaled(dd, q, r);
    }
  }

  /** A byte the excess spoils. */
  function Spoiled(e: nat): nat
    requires e > 64
  {
    if e >= 0x4000 then 1 else (0x4000 + e - 1) / e
  }

  lemma JustOver(e: nat, q: nat)
    requires e > 0 && q == (0x4000 + e - 1) / e
    ensures 0x4000 <= q * e <= 0x4000 + e - 1
  {
    assert 0x4000 + e - 1 == q * e + (0x4000 + e - 1) % e;
  }

  lemma Halves(x: nat)
    requires 0x4000 <= x < 0x8000
    ensures x / 0x4000 == 1
  {
  }

  lemma SpoiledIs(e: nat)
    requires 64 < e < 0x40_0000
    ensures 0 < Spoiled(e) < 0x100 && 0 < Spoiled(e) * e / 0x4000 < 0x100
  {
    if e < 0x4000 {
      var q := Spoiled(e);
      JustOver(e, q);
      hide Spoiled;
      Less(q, 0x100, e);
      Less(0, q, e);
      Halves(q * e);
    }
  }

  lemma SmallProduct(c: Byte, e: nat)
    requires e <= 64
    ensures 0 <= c * e < 0x4000
  {
    assert c * e <= 255 * e;
  }

  lemma KeepsEqual(dd: nat, c: Byte)
    requires 0 < dd && Exact(dd)
    ensures Mean(dd, c * dd) == c
  {
    hide Mean;
    MeanIs(dd, c, 0);
    if Shifter(dd) == 0 {
      SmallProduct(c, Excess(dd));
    }
  }

  lemma NotExact(dd: nat)
    requires 0 < dd < 0x40_0000 && !Exact(dd)
    ensures
      var c := Spoiled(Excess(dd));
      0 < c < 0x100 && Mean(dd, c * dd) != c
  {
    ScaleTimes(dd);
    var e := Excess(dd);
    SpoiledIs(e);
    MeanIs(dd, Spoiled(e), 0);
    hide Spoiled, Excess, Mean;
  }

  /** Equal values keep their value, whatever it is, exactly for the sizes named; the bound
      keeps every intermediate result in 32 bits. */
  lemma ExactOnEqual(dd: nat)
    requires 0 < dd < 0x40_0000
    ensures (forall c: Byte :: Mean(dd, c * dd) == c) <==> Exact(dd)
  {
    hide Mean, Exact, Excess;
    if Exact(dd) {
      forall c: Byte
        ensures Mean(dd, c * dd) == c
      {
        KeepsEqual(dd, c);
      }
    } else {
      NotExact(dd);
    }
  }

  /** Every block of up to 64 pixels is exact, and so are the shifted sizes above. */
  lemma SmallIsExact(dd: nat)
    requires 0 < dd
    ensures dd <= 64 || dd == 128 || dd == 256 ==> Exact(dd)
  {
    ScaleTimes(dd);
  }

  lemma QuotientIsByte(dd: nat, q: nat, r: nat)
    requires r < dd && q * dd + r <= 255 * dd
    ensures q <= 255 && (q == 255 ==> r == 0)
  {
    Less(q, 256, dd);
  }

  lemma UnderTwo(x: nat)
    requires x < 0x8000
    ensures x / 0x4000 <= 1 && (x < 0x4000 ==> x / 0x4000 == 0)
  {
  }

  lemma Remainder(dd: nat, s: nat, q: nat, r: nat, e: nat)
    requires dd * s == 0x4000 + e && r < dd && s > 0 && e <= 64 && q <= 255
    ensures 0 <= q * e + r * s < 2 * 0x4000
    ensures r == 0 ==> q * e + r * s < 0x4000
  {
    assert 0 <= q * e <= 255 * 64 by {
      Monotone(q, 255, e);
    }
    assert r * s <= (dd - 1) * s by {
      Monotone(r, dd - 1, s);
    }
    assert (dd - 1) * s == dd * s - s;
  }

  lemma NearQuotient(dd: nat, q: nat, r: nat)
    requires r < dd && Exact(dd) && q <= 255 && (q == 255 ==> r == 0)
    ensures q <= Mean(dd, q * dd + r) <= q + 1
    ensures Shifter(dd) > 0 ==> Mean(dd, q * dd + r) == q
  {
    hide Mean, Scale, Excess, Shifter;
    MeanIs(dd, q, r);
    if Shifter(dd) == 0 {
      ScaleTimes(dd);
      Remainder(dd, Scale(dd), q, r, Excess(dd));
      UnderTwo(q * Excess(dd) + r * Scale(dd));
    }
  }

  /** For the exact sizes the mean of any bytes is the floor of the true mean or one more,
      and the shifted sizes give the floor itself. */
  lemma MeanIsNear(dd: nat, sum: nat)
    requires 0 < dd && Exact(dd) && sum <= 255 * dd
    ensures sum / dd <= Mean(dd, sum) <= sum / dd + 1
    ensures Shifter(dd) > 0 ==> Mean(dd, sum) == sum / dd
  {
    hide Mean, Exact;
    var q, r := sum / dd, sum % dd;
    assert sum == q * dd + r;
    QuotientIsByte(dd, q, r);
    NearQuotient(dd, q, r);
  }
}
