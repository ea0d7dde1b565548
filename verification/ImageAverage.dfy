/** What shrinking any image stores: the mean of every block, with the sums taken row by row
    over the pixels of the image. */
module ImageAverage {
  import opened Division
  import opened ImageMean
  import opened ImageScale
  import opened ImageRoundTrip
  import opened Width

  /** Red, green or blue. */
  function Colour(p: Pixel, ch: nat): Byte {
    if ch == 0 then p.r else if ch == 1 then p.g else p.b
  }

  function Sum(s: Sums, ch: nat): nat {
    if ch == 0 then s.r else if ch == 1 then s.g else s.b
  }

  /** A colour summed over `m` pixels of a row, from column `i` on. */
  function RowTotal(img: seq<Pixel>, cx: nat, row: nat, i: nat, m: nat, ch: nat): nat
    requires i + m <= cx && row * cx + cx <= |img|
  {
    if m == 0 then 0 else RowTotal(img, cx, row, i, m - 1, ch) + Colour(img[row * cx + (i + m - 1)], ch)
  }

  lemma RowFits(cx: nat, j: nat, n: nat, size: nat)
    requires (j + n) * cx <= size
    ensures n > 0 ==> (j + n - 1) * cx + cx <= size && (j + (n - 1)) * cx <= size
  {
    if n > 0 {
      assert (j + n - 1) * cx + cx == (j + n) * cx;
    }
  }

  /** A colour summed over a block of `n` rows and `m` columns. */
  function BlockTotal(img: seq<Pixel>, cx: nat, j: nat, n: nat, i: nat, m: nat, ch: nat): nat
    requires i + m <= cx && (j + n) * cx <= |img|
  {
    RowFits(cx, j, n, |img|);
    if n == 0 then 0 else BlockTotal(img, cx, j, n - 1, i, m, ch) + RowTotal(img, cx, j + n - 1, i, m, ch)
  }

  // ----- the sums taken column by column are the same

  lemma PlusSum(s: Sums, t: Sums, ch: nat)
    ensures Sum(Plus(s, t), ch) == Sum(s, ch) + Sum(t, ch)
    ensures Sum(NOTHING, ch) == 0
  {
  }

  lemma CellSum(img: seq<Pixel>, cx: nat, row: nat, col: nat, ch: nat)
    requires col < cx && row * cx + cx <= |img|
    ensures Sum(Times(1, Cell(img, cx, row, col)), ch) == Colour(img[row * cx + col], ch)
  {
  }

  /** One more column adds a pixel to every row. */
  lemma {:induction false} ColumnAdds(img: seq<Pixel>, cx: nat, j: nat, n: nat, i: nat, m: nat, ch: nat)
    requires m > 0 && i + m <= cx && (j + n) * cx <= |img|
    ensures
      BlockTotal(img, cx, j, n, i, m, ch) ==
        BlockTotal(img, cx, j, n, i, m - 1, ch) + Sum(ColumnSum(img, cx, i + m - 1, j, n), ch)
  {
    hide Cell, Times, Plus, Colour, Sum;
    RowFits(cx, j, n, |img|);
    if n == 0 {
      PlusSum(NOTHING, NOTHING, ch);
    } else {
      ColumnAdds(img, cx, j, n - 1, i, m, ch);
      var row, col := j + n - 1, i + m - 1;
      CellSum(img, cx, row, col, ch);
      PlusSum(ColumnSum(img, cx, col, j, n - 1), Times(1, Cell(img, cx, row, col)), ch);
    }
  }

  lemma {:induction false} NoColumns(img: seq<Pixel>, cx: nat, j: nat, n: nat, i: nat, ch: nat)
    requires i <= cx && (j + n) * cx <= |img|
    ensures BlockTotal(img, cx, j, n, i, 0, ch) == 0
  {
    RowFits(cx, j, n, |img|);
    if n == 0 {
    } else {
      NoColumns(img, cx, j, n - 1, i, ch);
    }
  }

  lemma {:induction false} SumsAgree(img: seq<Pixel>, cx: nat, j: nat, n: nat, i: nat, m: nat, ch: nat)
    requires i + m <= cx && (j + n) * cx <= |img|
    ensures Sum(BlockSum(img, cx, i, m, j, n), ch) == BlockTotal(img, cx, j, n, i, m, ch)
  {
    hide ColumnSum, BlockTotal, Plus, Sum;
    if m == 0 {
      PlusSum(NOTHING, NOTHING, ch);
      NoColumns(img, cx, j, n, i, ch);
    } else {
      SumsAgree(img, cx, j, n, i, m - 1, ch);
      PlusSum(BlockSum(img, cx, i, m - 1, j, n), ColumnSum(img, cx, i + m - 1, j, n), ch);
      ColumnAdds(img, cx, j, n, i, m, ch);
    }
  }

  // ----- the mean stored

  lemma {:induction false} RowBound(img: seq<Pixel>, cx: nat, row: nat, i: nat, m: nat, ch: nat)
    requires i + m <= cx && row * cx + cx <= |img|
    ensures RowTotal(img, cx, row, i, m, ch) <= 255 * m
  {
    if m == 0 {
    } else {
      RowBound(img, cx, row, i, m - 1, ch);
    }
  }

  lemma {:induction false} BlockBound(img: seq<Pixel>, cx: nat, j: nat, n: nat, i: nat, m: nat, ch: nat)
    requires i + m <= cx && (j + n) * cx <= |img|
    ensures BlockTotal(img, cx, j, n, i, m, ch) <= 255 * (m * n)
  {
    hide RowTotal;
    RowFits(cx, j, n, |img|);
    if n == 0 {
    } else {
      BlockBound(img, cx, j, n - 1, i, m, ch);
      RowBound(img, cx, j + n - 1, i, m, ch);
      assert m * n == m * (n - 1) + m;
    }
  }

  /** The pixels of block (`r`, `c`) are in the image. */
  lemma BlockFits(v: Header, r: nat, c: nat, size: nat)
    requires Formed(v) && r < v.b && c < v.a && v.cx * v.h <= size
    ensures 0 <= v.x + c * Dx(v) && v.x + c * Dx(v) + Dx(v) <= v.cx
    ensures 0 <= v.y + r * Dy(v) && (v.y + r * Dy(v) + Dy(v)) * v.cx <= size
  {
    Monotone(0, r, Dy(v));
    Monotone(0, c, Dx(v));
    assert At(v.cx, v.h, 0) == v.cx * v.h;
    BlockPlace(v, r, c, size);
    RowsInside(v.cx, v.y + r * Dy(v) + Dy(v), v.y + r * Dy(v) + Dy(v));
  }

  /** The sum of a colour over the block that becomes small pixel (`r`, `c`). */
  function Total(img: seq<Pixel>, v: Header, r: nat, c: nat, ch: nat): nat
    requires Formed(v) && r < v.b && c < v.a && v.cx * v.h <= |img|
  {
    BlockFits(v, r, c, |img|);
    BlockTotal(img, v.cx, v.y + r * Dy(v), Dy(v), v.x + c * Dx(v), Dx(v), ch)
  }

  lemma ShrunkColour(img: seq<Pixel>, v: Header, r: nat, c: nat, ch: nat)
    requires Formed(v) && r < v.b && c < v.a && v.cx * v.h <= |img|
    ensures Total(img, v, r, c, ch) <= 255 * Size(v)
    ensures Colour(Shrunk(img, v, r, c), ch) == Mean(Size(v), Total(img, v, r, c, ch))
  {
    BlockFits(v, r, c, |img|);
    SumsAgree(img, v.cx, v.y + r * Dy(v), Dy(v), v.x + c * Dx(v), Dx(v), ch);
    BlockBound(img, v.cx, v.y + r * Dy(v), Dy(v), v.x + c * Dx(v), Dx(v), ch);
    hide BlockTotal, BlockSum, Mean, Dx, Dy, Formed;
  }

  lemma MeanOf(dd: nat, total: nat)
    requires dd > 0 && total <= 255 * dd
    ensures Exact(dd) ==> total / dd <= Mean(dd, total) <= total / dd + 1
    ensures dd in {2, 4, 8, 16, 32, 64, 128, 256} ==> Mean(dd, total) == total / dd
    ensures dd !in {2, 4, 8, 16, 32, 64, 128, 256} ==> Mean(dd, total) == total * (16384 / dd + 1) / 16384 % 256
  {
    if Exact(dd) {
      MeanIsNear(dd, total);
    }
    if Shifter(dd) == 0 {
      NotShifted(dd, total);
    }
    hide Mean;
  }

  /** For any image, each colour of a small pixel is the floor of the true mean over all
      pixels of its block, or one more, and exactly the floor for the shifted sizes. For
      sizes that spoil equal values it is what the multiplication gives. */
  lemma ShrunkIsMean(img: seq<Pixel>, v: Header, r: nat, c: nat, ch: nat)
    requires Formed(v) && r < v.b && c < v.a && v.cx * v.h <= |img|
    ensures
      var total, dd, y := Total(img, v, r, c, ch), Dx(v) * Dy(v), Colour(Shrunk(img, v, r, c), ch);
      && dd > 0 && (Exact(dd) ==> total / dd <= y <= total / dd + 1)
      && (dd in {2, 4, 8, 16, 32, 64, 128, 256} ==> y == total / dd)
      && (dd !in {2, 4, 8, 16, 32, 64, 128, 256} ==> y == total * (16384 / dd + 1) / 16384 % 256)
  {
    ShrunkColour(img, v, r, c, ch);
    var total, dd := Total(img, v, r, c, ch), Size(v);
    hide Total, Size, Shrunk, Colour, Formed;
    MeanOf(dd, total);
  }

  lemma PlaceOf(v: Header, r: nat)
    requires Formed(v) && RowsRight(v) && r < v.b
    ensures RowPlace(v, r) == r * v.a && r * v.a + v.a <= v.a * v.b
  {
    RowPlaceIs(v, r);
    Multiples(r, Stride(v), v.a);
    BlockInside(v.b, v.a, r);
  }

  lemma PlaceInRow(a: nat, r: nat, c: nat, k: nat)
    requires c < a && r < k
    ensures r * a + c < k * a
  {
    Monotone(r + 1, k, a);
  }

  /** Where the rows are right, the pixel is found at its place in the small image. */
  lemma {:induction false} StoredInPlace(out: seq<Pixel>, img: seq<Pixel>, v: Header, n: nat, r: nat, c: nat)
    requires Formed(v) && RowsRight(v) && r < n <= v.b && c < v.a && v.a * v.b <= |out|
    ensures 0 <= r * v.a + c < |out| && Rows(out, img, v, n)[r * v.a + c] == Shrunk(img, v, r, c)
  {
    hide RowPlace, Shrunk, RowsRight, Formed;
    PlaceOf(v, n - 1);
    PlaceOf(v, r);
    if r == n - 1 {
    } else {
      PlaceInRow(v.a, r, c, n - 1);
      StoredInPlace(out, img, v, n - 1, r, c);
    }
  }
}
