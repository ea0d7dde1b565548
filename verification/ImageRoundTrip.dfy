/** When shrinking undoes enlarging, for any part of an image: exactly when equal pixels keep
    their value as mean and the rows end up where they belong. Which of the tiles that the
    tile codec sends are safe follows. */
module ImageRoundTrip {
  import opened Division
  import opened ImageBits
  import opened ImageMean
  import opened ImageScale
  import opened Width

  // ----- where the rows go

  /** Where the first row goes, and how far apart the rows are. */
  function Base(v: Header): nat
    requires Formed(v)
  {
    Monotone(0, v.y, v.w / Size(v));
    if Shifter(Size(v)) > 0 then 0 else v.y * (v.w / Size(v))
  }

  function Stride(v: Header): nat
    requires Formed(v)
  {
    Monotone(0, Dy(v), v.w / Size(v));
    if Shifter(Size(v)) > 0 then v.a else Dy(v) * (v.w / Size(v))
  }

  /** The rows of the small image follow each other from the start. */
  predicate RowsRight(v: Header)
    requires Formed(v)
  {
    Base(v) == 0 && (v.b == 1 || Stride(v) == v.a)
  }

  lemma Distributed(y: nat, r: nat, d: nat, q: nat)
    ensures (y + r * d) * q == y * q + r * (d * q)
  {
  }

  lemma RowPlaceIs(v: Header, r: nat)
    requires Formed(v)
    ensures RowPlace(v, r) == Base(v) + r * Stride(v)
  {
    var d: nat, q: nat := Dy(v), v.w / Size(v);
    hide Formed, Size, Dy, Dx;
    Distributed(v.y, r, d, q);
  }

  lemma NotEmpty(v: Header)
    requires Formed(v)
    ensures v.a >= 1 && v.b >= 1
  {
  }

  /** The width of a whole image in blocks of so many pixels. */
  lemma WidthInBlocks(a: nat, dx: nat, dy: nat)
    requires dx > 0 && dy > 0
    ensures dx * dy > 0 && (a * dx) / (dx * dy) == a / dy
  {
    AtLeast(dx, dy);
    var q, r := a / dy, a % dy;
    assert a == q * dy + r;
    Monotone(r + 1, dy, dx);
    calc {
      a * dx;
    ==
      (q * dy) * dx + r * dx;
    ==
      q * (dx * dy) + r * dx;
    }
    DivMod(a * dx, dx * dy, q, r * dx);
  }

  /** On a whole image the rows are right if the mean is a shift, or there is one row, or
      the rows of a block divide the columns. */
  lemma WholeRows(v: Header)
    requires Formed(v) && v.x == 0 && v.y == 0
    ensures RowsRight(v) <==> Shifter(Size(v)) > 0 || v.b == 1 || v.a % Dy(v) == 0
  {
    WidthInBlocks(v.a, Dx(v), Dy(v));
    assert v.w / Size(v) == v.a / Dy(v);
    assert v.a == Dy(v) * (v.a / Dy(v)) + v.a % Dy(v);
  }

  // ----- the round trip

  ghost predicate Sizes(v: Header, small: seq<Pixel>, was: seq<Pixel>, out: seq<Pixel>)
    requires Formed(v)
  {
    |small| == v.a * v.b <= |out| && At(v.cx, v.h, 0) <= |was| && Roomy(v, |out|)
  }

  /** The small image that comes back. */
  function Back(v: Header, small: seq<Pixel>, was: seq<Pixel>, out: seq<Pixel>): seq<Pixel>
    requires Formed(v) && |small| == v.a * v.b <= |out|
  {
    Rows(out, Enlarged(was, v, small), v, v.b)[..|small|]
  }

  lemma OverlaidBehind(s: seq<Pixel>, at: nat, ys: seq<Pixel>)
    requires at + |ys| <= |s|
    ensures Overlaid(s, at, ys)[..at + |ys|] == s[..at] + ys
  {
  }

  /** A row comes back, if the mean of equal pixels is right. */
  lemma RowBack(v: Header, small: seq<Pixel>, was: seq<Pixel>, r: nat)
    requires Formed(v) && Exact(Size(v)) && |small| == v.a * v.b && At(v.cx, v.h, 0) <= |was| && r < v.b
    ensures r * v.a + v.a <= |small|
    ensures ShrunkRow(Enlarged(was, v, small), v, r, v.a) == small[r * v.a..r * v.a + v.a]
  {
    hide Enlarged, Shrunk, MeanPixel, Times, Exact;
    BlockInside(v.b, v.a, r);
    forall c | 0 <= c < v.a
      ensures Shrunk(Enlarged(was, v, small), v, r, c) == small[r * v.a..r * v.a + v.a][c]
    {
      ShrunkEnlarged(was, v, small, r, c);
      MeanOfTimes(Size(v), small[At(v.a, r, c)]);
    }
  }

  lemma Multiples(r: nat, s: nat, a: nat)
    ensures s == a || r == 0 ==> r * s == r * a
  {
  }

  lemma {:induction false} RowsBack(v: Header, small: seq<Pixel>, was: seq<Pixel>, out: seq<Pixel>, n: nat)
    requires Formed(v) && Exact(Size(v)) && RowsRight(v) && n <= v.b
    requires |small| == v.a * v.b <= |out| && At(v.cx, v.h, 0) <= |was|
    ensures n * v.a <= |small|
    ensures Rows(out, Enlarged(was, v, small), v, n)[..n * v.a] == small[..n * v.a]
  {
    hide Enlarged, ShrunkRow, RowPlace, Exact, At, Stride, Base, Overlaid;
    if n == 0 {
      assert n * v.a == 0;
    } else {
      var r: nat := n - 1;
      BlockInside(v.b, v.a, r);
      RowsBack(v, small, was, out, r);
      RowBack(v, small, was, r);
      RowPlaceIs(v, r);
      Multiples(r, Stride(v), v.a);
      OverlaidBehind(Rows(out, Enlarged(was, v, small), v, r), r * v.a, small[r * v.a..r * v.a + v.a]);
      assert small[..r * v.a] + small[r * v.a..r * v.a + v.a] == small[..r * v.a + v.a];
    }
  }

  lemma WholeBack(v: Header, small: seq<Pixel>, was: seq<Pixel>, out: seq<Pixel>)
    requires Formed(v) && Exact(Size(v)) && RowsRight(v) && Sizes(v, small, was, out)
    ensures Back(v, small, was, out) == small
  {
    RowsBack(v, small, was, out, v.b);
    assert small[..|small|] == small;
  }

  // ----- where it fails

  function Grey(n: nat, c: nat): (s: seq<Pixel>)
    requires c < 0x100
    ensures |s| == n && forall k :: 0 <= k < n ==> s[k] == Pixel(c, c, c)
  {
    seq(n, _ => Pixel(c, c, c))
  }

  /** Room for the rows wherever they go. */
  function Ample(v: Header): nat
    requires Formed(v)
  {
    Monotone(0, v.b, v.a);
    Monotone(0, v.b, Stride(v));
    v.a * v.b + Base(v) + v.b * Stride(v)
  }

  lemma AmpleIsRoomy(v: Header)
    requires Formed(v)
    ensures Roomy(v, Ample(v)) && v.a * v.b <= Ample(v)
  {
    NotEmpty(v);
    hide Formed, RowPlace, Base, Stride;
    Monotone(0, v.b, Stride(v));
    Monotone(1, v.b, v.a);
    forall r: nat | r < v.b
      ensures RowPlace(v, r) + v.a <= Ample(v)
    {
      RowPlaceIs(v, r);
      Monotone(r, v.b, Stride(v));
    }
  }

  /** A pixel where no row comes stays as it was. */
  lemma {:induction false} Untouched(out: seq<Pixel>, img: seq<Pixel>, v: Header, n: nat, q: nat)
    requires Formed(v) && q < |out| && forall r: nat :: r < n ==> !(RowPlace(v, r) <= q < RowPlace(v, r) + v.a)
    ensures Rows(out, img, v, n)[q] == out[q]
  {
    hide RowPlace, ShrunkRow;
    if n == 0 {
    } else {
      Untouched(out, img, v, n - 1, q);
    }
  }

  /** The first pixel of the last row is nobody's but its own. */
  lemma LastRowStays(out: seq<Pixel>, img: seq<Pixel>, v: Header)
    requires Formed(v) && RowPlace(v, v.b - 1) + v.a <= |out|
    ensures Rows(out, img, v, v.b)[RowPlace(v, v.b - 1)] == Shrunk(img, v, v.b - 1, 0)
  {
    hide RowPlace, Shrunk;
  }

  /** The rows begin too late, or too far apart: a pixel no row comes to. */
  lemma GapPixel(v: Header) returns (q: nat)
    requires Formed(v) && (Base(v) > 0 || (v.b > 1 && Stride(v) > v.a))
    ensures q < v.a * v.b
    ensures forall r: nat :: r < v.b ==> !(RowPlace(v, r) <= q < RowPlace(v, r) + v.a)
  {
    NotEmpty(v);
    hide RowPlace, Formed, Base, Stride;
    q := if Base(v) > 0 then 0 else v.a;
    Monotone(1, v.b, v.a);
    if Base(v) == 0 {
      Monotone(2, v.b, v.a);
    }
    forall r: nat | r < v.b
      ensures !(RowPlace(v, r) <= q < RowPlace(v, r) + v.a)
    {
      RowPlaceIs(v, r);
      AtLeast(r, Stride(v));
      if r == 0 {
        assert r * Stride(v) == 0;
      }
    }
  }

  lemma GapFails(v: Header, was: seq<Pixel>)
    requires Formed(v) && At(v.cx, v.h, 0) <= |was|
    requires Base(v) > 0 || (v.b > 1 && Stride(v) > v.a)
    ensures exists small, out :: Sizes(v, small, was, out) && Back(v, small, was, out) != small
  {
    hide Enlarged, RowPlace, Roomy, Formed, Base, Stride, Rows, Ample, At;
    AmpleIsRoomy(v);
    var q := GapPixel(v);
    var small, out := Grey(v.a * v.b, 0), Grey(Ample(v), 1);
    Untouched(out, Enlarged(was, v, small), v, v.b, q);
    assert Back(v, small, was, out)[q] == out[q] != small[q];
    assert Sizes(v, small, was, out);
  }

  lemma StrideBound(r: nat, s: nat, a: nat)
    ensures r * s >= 0 && (s <= a || r == 0 ==> r * s <= r * a) && (s < a && r > 0 ==> r * s < r * a)
  {
    assert r * a - r * s == r * (a - s);
  }

  /** What comes back where the last row begins is the mean of its first pixel. */
  lemma LastRow(v: Header, small: seq<Pixel>, was: seq<Pixel>, out: seq<Pixel>) returns (q: nat)
    requires Formed(v) && Base(v) == 0 && (v.b == 1 || Stride(v) <= v.a) && Sizes(v, small, was, out)
    ensures q == (v.b - 1) * Stride(v) < |small| && At(v.a, v.b - 1, 0) == (v.b - 1) * v.a < |small|
    ensures Back(v, small, was, out)[q] == MeanPixel(Size(v), Times(Size(v), small[At(v.a, v.b - 1, 0)]))
  {
    hide Enlarged, RowPlace, Base, Stride, Shrunk, MeanPixel, Times, Rows, Size;
    var r: nat := v.b - 1;
    RowPlaceIs(v, r);
    q := RowPlace(v, r);
    StrideBound(r, Stride(v), v.a);
    BlockInside(v.b, v.a, r);
    LastRowStays(out, Enlarged(was, v, small), v);
    ShrunkEnlarged(was, v, small, r, 0);
  }

  /** The mean of equal pixels is wrong: the last row shows it, if it comes to lie inside. */
  lemma MeanFails(v: Header, was: seq<Pixel>)
    requires Formed(v) && At(v.cx, v.h, 0) <= |was| && Size(v) < 0x40_0000 && !Exact(Size(v))
    requires Base(v) == 0 && (v.b == 1 || Stride(v) <= v.a)
    ensures exists small, out :: Sizes(v, small, was, out) && Back(v, small, was, out) != small
  {
    NotExact(Size(v));
    var c := Spoiled(Excess(Size(v)));
    hide Enlarged, RowPlace, Roomy, Base, Stride, Exact, Excess, Spoiled, Shrunk, Mean, Rows, Size, Formed, At, Ample;
    AmpleIsRoomy(v);
    var small, out := Grey(v.a * v.b, c), Grey(Ample(v), 0);
    var q := LastRow(v, small, was, out);
    assert Size(v) * c == c * Size(v);
    assert Back(v, small, was, out)[q] != small[q];
    assert Sizes(v, small, was, out);
  }

  /** The rows overlap: the last one lands too early. */
  lemma OverlapFails(v: Header, was: seq<Pixel>)
    requires Formed(v) && At(v.cx, v.h, 0) <= |was| && Exact(Size(v))
    requires Base(v) == 0 && v.b > 1 && Stride(v) < v.a
    ensures exists small, out :: Sizes(v, small, was, out) && Back(v, small, was, out) != small
  {
    hide Enlarged, RowPlace, Roomy, Base, Stride, Exact, Shrunk, MeanPixel, Times, Rows, Size, Formed, At, Ample;
    AmpleIsRoomy(v);
    BlockInside(v.b, v.a, v.b - 1);
    var small, out := Grey((v.b - 1) * v.a, 0) + Grey(v.a, 1), Grey(Ample(v), 0);
    var q := LastRow(v, small, was, out);
    MeanOfTimes(Size(v), Pixel(1, 1, 1));
    StrideBound(v.b - 1, Stride(v), v.a);
    assert Back(v, small, was, out)[q] != small[q];
    assert Sizes(v, small, was, out);
  }

  ghost predicate Restored(v: Header, small: seq<Pixel>, was: seq<Pixel>, out: seq<Pixel>)
    requires Formed(v)
  {
    Sizes(v, small, was, out) ==> Back(v, small, was, out) == small
  }

  /** Shrinking undoes enlarging for every image, whatever was in the buffers before, exactly
      when equal pixels keep their value and the rows are placed right; the bound on the
      block keeps every intermediate result in 32 bits. */
  lemma ShrinkUndoesEnlarge(v: Header)
    requires Formed(v) && Size(v) < 0x40_0000
    ensures (forall small, was, out :: Restored(v, small, was, out)) <==> Exact(Size(v)) && RowsRight(v)
  {
    NotEmpty(v);
    hide Back, Exact, Size, Formed, At, Roomy, Base, Stride;
    if Exact(Size(v)) && RowsRight(v) {
      forall small, was, out
        ensures Restored(v, small, was, out)
      {
        if Sizes(v, small, was, out) {
          WholeBack(v, small, was, out);
        }
      }
    } else {
      var was := Grey(At(v.cx, v.h, 0), 0);
      if Base(v) > 0 || (v.b > 1 && Stride(v) > v.a) {
        GapFails(v, was);
      } else if !Exact(Size(v)) {
        MeanFails(v, was);
      } else {
        OverlapFails(v, was);
      }
      var small, out :| Sizes(v, small, was, out) && Back(v, small, was, out) != small;
      assert !Restored(v, small, was, out);
    }
  }

  /** Blocks of a power of two from 2 to 256 pixels always come back; other blocks of up to
      64 pixels of a whole image do if their rows divide the columns. */
  lemma UsualBlocks(v: Header)
    requires Formed(v)
    ensures Size(v) in {2, 4, 8, 16, 32, 64, 128, 256} ==> Exact(Size(v)) && RowsRight(v)
    ensures v.x == 0 && v.y == 0 && Size(v) <= 64 && v.a % Dy(v) == 0 ==> Exact(Size(v)) && RowsRight(v)
  {
    SmallIsExact(Size(v));
    if v.x == 0 && v.y == 0 {
      WholeRows(v);
    }
  }

  lemma AtOrigin(w: nat, h: nat, dx: nat, dy: nat)
    requires dx > 0 && dy > 0
    ensures Whole(w, h, dx, dy).x == 0 && Whole(w, h, dx, dy).y == 0
  {
  }

  /** For a whole image of `a` by `b` blocks: the round trip of the calls on whole images. */
  lemma WholeImages(a: nat, b: nat, dx: nat, dy: nat)
    requires a > 0 && b > 0 && dx > 0 && dy > 0 && 0 < dx * dy < 0x40_0000
    ensures
      var v := Whole(a * dx, b * dy, dx, dy);
      && Formed(v) && v.a == a && v.b == b
      && ((forall small, was, out :: Restored(v, small, was, out)) <==>
            Exact(dx * dy) && (Shifter(dx * dy) > 0 || b == 1 || a % dy == 0))
  {
    var v := Whole(a * dx, b * dy, dx, dy);
    WholeFormed(dx, dy, a, b);
    assert Size(v) == dx * dy;
    hide Formed, Size, Restored, Exact, RowsRight, Whole;
    AtOrigin(a * dx, b * dy, dx, dy);
    ShrinkUndoesEnlarge(v);
    WholeRows(v);
  }

  // ----- the tiles the codec sends

  /** Half a frame in blocks of 4 by 4, and a tile of 80 by 40 in blocks of 2 by 2, come
      back from anywhere in the frame. */
  lemma HalvesAndLargeTiles(x: nat, y: nat)
    requires x + 80 <= 160
    ensures
      var v := Header(0, y, 160, y + 60, 40, 15, 160);
      Formed(v) && Size(v) == 16 && Exact(16) && RowsRight(v)
    ensures
      var v := Header(x, y, x + 80, y + 40, 40, 20, 160);
      Formed(v) && Size(v) == 4 && Exact(4) && RowsRight(v)
  {
  }

  /** A tile of 40 by 20 single pixels comes back from the corner of the frame and from
      nowhere else: elsewhere its rows are placed as if the tile were the frame. */
  lemma SmallTiles(x: nat, y: nat)
    requires x + 40 <= 160
    ensures
      var v := Header(x, y, x + 40, y + 20, 40, 20, 160);
      Formed(v) && Size(v) == 1 && Exact(1) && (RowsRight(v) <==> x == 0 && y == 0)
  {
    var v := Header(x, y, x + 40, y + 20, 40, 20, 160);
    assert Dx(v) == 1 && Dy(v) == 1;
    if y > 0 {
      AtLeast(y, x + 40);
    }
  }

  /** The thumbnail of 16 by 12 for the motion check: its rows overlap, ten apart. */
  lemma ThumbnailOverlaps()
    ensures
      var v := Header(0, 0, 160, 120, 16, 12, 160);
      Formed(v) && Size(v) == 100 && Exact(100) && Base(v) == 0 && Stride(v) == 10 && !RowsRight(v)
  {
  }

  // ----- tiles on the wire

  function Flattened(px: seq<Pixel>): (s: seq<Byte>)
    ensures |s| == 3 * |px|
    ensures forall i :: 0 <= i < |px| ==> s[3 * i] == px[i].r && s[3 * i + 1] == px[i].g && s[3 * i + 2] == px[i].b
  {
    if px == [] then []
    else
      var p := px[|px| - 1];
      Flattened(px[..|px| - 1]) + [p.r, p.g, p.b]
  }

  function Grouped(s: seq<Byte>): (px: seq<Pixel>)
    ensures |px| == |s| / 3
    ensures forall i :: 0 <= i < |px| ==> px[i] == Pixel(s[3 * i], s[3 * i + 1], s[3 * i + 2])
  {
    seq(|s| / 3, i requires 0 <= i < |s| / 3 => Pixel(s[3 * i], s[3 * i + 1], s[3 * i + 2]))
  }

  lemma FlattenedGroups(s: seq<Byte>)
    requires |s| % 3 == 0
    ensures Flattened(Grouped(s)) == s
  {
    var t := Flattened(Grouped(s));
    forall k | 0 <= k < |s|
      ensures t[k] == s[k]
    {
      var i := k / 3;
      assert Grouped(s)[i] == Pixel(s[3 * i], s[3 * i + 1], s[3 * i + 2]);
      assert k == 3 * i || k == 3 * i + 1 || k == 3 * i + 2;
    }
  }

  lemma WireBack(tile: seq<Byte>)
    requires 2 * |tile| % 3 == 0
    ensures Packed(Flattened(Grouped(Unpacked(tile)))) == tile
  {
    hide *;
    FlattenedGroups(Unpacked(tile));
    PackUndoesUnpack(tile);
  }

  /** Unpacking a tile of 12-bit pixels, enlarging it into any frame, shrinking it out of
      that frame and packing it again gives back the bytes of the tile. */
  lemma TileRoundTrip(v: Header, tile: seq<Byte>, was: seq<Pixel>, out: seq<Pixel>)
    requires Formed(v) && Exact(Size(v)) && RowsRight(v) && 2 * |tile| == 3 * (v.a * v.b)
    requires Sizes(v, Grouped(Unpacked(tile)), was, out)
    ensures Packed(Flattened(Back(v, Grouped(Unpacked(tile)), was, out))) == tile
  {
    hide *;
    WholeBack(v, Grouped(Unpacked(tile)), was, out);
    WireBack(tile);
  }
}
