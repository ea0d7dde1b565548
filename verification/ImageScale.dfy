/** Enlarging a part of an image and shrinking it back. Every pixel of the small image
    becomes a block; shrinking takes the mean of each block. */
module ImageScale {
  import opened Buffers
  import opened Division
  import opened ImageMean
  import opened Width

  datatype Pixel = Pixel(r: Byte, g: Byte, b: Byte)

  /** The part from column `x` up to `w` and from row `y` up to `h` of an image `cx` wide,
      and the `a` columns and `b` rows it is made from. */
  datatype Header = Header(x: nat, y: nat, w: nat, h: nat, a: nat, b: nat, cx: nat)

  function Dx(v: Header): int
    requires v.a > 0
  {
    (v.w - v.x) / v.a
  }

  function Dy(v: Header): int
    requires v.b > 0
  {
    (v.h - v.y) / v.b
  }

  /** The part is made of whole blocks and lies in the image. */
  predicate Formed(v: Header) {
    && v.a > 0 && v.b > 0 && v.x <= v.w <= v.cx && v.y <= v.h
    && Dx(v) > 0 && Dy(v) > 0 && v.w - v.x == v.a * Dx(v) && v.h - v.y == v.b * Dy(v)
  }

  /** The header that the calls on a whole image of `w` by `h` pixels make up. */
  function Whole(w: nat, h: nat, dx: nat, dy: nat): Header
    requires dx > 0 && dy > 0
  {
    Header(0, 0, w, h, w / dx, h / dy, w)
  }

  lemma WholeFormed(dx: nat, dy: nat, a: nat, b: nat)
    requires dx > 0 && dy > 0 && a > 0 && b > 0
    ensures
      var v := Whole(a * dx, b * dy, dx, dy);
      Formed(v) && Dx(v) == dx && Dy(v) == dy && v.a == a && v.b == b
  {
    DivMod(a * dx, dx, a, 0);
    DivMod(b * dy, dy, b, 0);
    DivMod(a * dx, a, dx, 0);
    DivMod(b * dy, b, dy, 0);
  }

  // ----- cells of an image stored row by row

  function At(cx: nat, row: nat, col: nat): nat {
    row * cx + col
  }

  lemma CellsDiffer(cx: nat, row: nat, col: nat, row': nat, col': nat)
    requires col < cx && col' < cx && At(cx, row, col) == At(cx, row', col')
    ensures row == row' && col == col'
  {
    Unique(cx, row, col, row', col');
  }

  lemma CellOf(cx: nat, k: nat)
    requires cx > 0
    ensures At(cx, k / cx, k % cx) == k
  {
    assert k == (k / cx) * cx + k % cx;
  }

  lemma CellInside(cx: nat, rows: nat, row: nat, col: nat)
    requires row < rows && col < cx
    ensures At(cx, row, col) < At(cx, rows, 0)
  {
    Monotone(row + 1, rows, cx);
  }

  /** A run of cells of one row, and no other cells. */
  lemma CellInRun(cx: nat, row: nat, i: nat, n: nat, row': nat, col': nat)
    requires i + n <= cx && col' < cx
    ensures At(cx, row, i) <= At(cx, row', col') < At(cx, row, i) + n <==> row' == row && i <= col' < i + n
  {
    var k := At(cx, row', col');
    if At(cx, row, i) <= k < At(cx, row, i) + n {
      CellsDiffer(cx, row, i + (k - At(cx, row, i)), row', col');
    }
  }

  // ----- enlarging

  predicate InPart(v: Header, row: nat, col: nat) {
    v.y <= row < v.h && v.x <= col < v.w
  }

  lemma Sides(v: Header)
    requires Formed(v)
    ensures Dx(v) > 0 && Dy(v) > 0 && v.cx > 0
  {
  }

  /** The small pixel a cell of the part is made from. */
  function Pick(v: Header, row: nat, col: nat): nat
    requires Formed(v) && InPart(v, row, col)
  {
    Sides(v);
    hide Formed, Dx, Dy, At;
    At(v.a, (row - v.y) / Dy(v), (col - v.x) / Dx(v))
  }

  lemma BlockOf(n: nat, d: nat, z: nat)
    requires d > 0 && z < n * d
    ensures z / d < n && z == (z / d) * d + z % d
  {
    assert z == (z / d) * d + z % d;
    if z / d >= n {
      Monotone(n, z / d, d);
    }
  }

  lemma PickInside(v: Header, row: nat, col: nat)
    requires Formed(v) && InPart(v, row, col)
    ensures Pick(v, row, col) < v.a * v.b && (row - v.y) / Dy(v) < v.b && (col - v.x) / Dx(v) < v.a
  {
    BlockOf(v.b, Dy(v), row - v.y);
    BlockOf(v.a, Dx(v), col - v.x);
    CellInside(v.a, v.b, (row - v.y) / Dy(v), (col - v.x) / Dx(v));
    assert At(v.a, v.b, 0) == v.a * v.b;
  }

  function Picked(v: Header, small: seq<Pixel>, row: nat, col: nat): Pixel
    requires Formed(v) && InPart(v, row, col) && |small| == v.a * v.b
  {
    PickInside(v, row, col);
    small[Pick(v, row, col)]
  }

  /** Cell by cell, the image with the part enlarged from `small`. */
  function Enlarged(was: seq<Pixel>, v: Header, small: seq<Pixel>): (big: seq<Pixel>)
    requires Formed(v) && |small| == v.a * v.b
    ensures |big| == |was|
    ensures forall k :: 0 <= k < |was| ==>
      big[k] == if InPart(v, k / v.cx, k % v.cx) then Picked(v, small, k / v.cx, k % v.cx) else was[k]
  {
    seq(|was|, k requires 0 <= k < |was| =>
      if InPart(v, k / v.cx, k % v.cx) then Picked(v, small, k / v.cx, k % v.cx) else was[k])
  }

  lemma InBlock(d: nat, z: nat, r: nat)
    requires d > 0
    ensures z / d == r <==> r * d <= z < r * d + d
  {
    assert z == (z / d) * d + z % d;
    if r * d <= z < r * d + d {
      DivMod(z, d, r, z - r * d);
    }
  }

  lemma IndexIs(a: nat, dy: nat, dx: nat, z: nat, t: nat, r: nat, c: nat)
    requires dy > 0 && dx > 0 && t / dx < a && c < a
    ensures At(a, z / dy, t / dx) == At(a, r, c) <==> r * dy <= z < r * dy + dy && c * dx <= t < c * dx + dx
  {
    InBlock(dy, z, r);
    InBlock(dx, t, c);
    if At(a, z / dy, t / dx) == At(a, r, c) {
      CellsDiffer(a, z / dy, t / dx, r, c);
    }
  }

  /** The cells made from small pixel (`r`, `c`) are those of one block. */
  lemma PickIs(v: Header, row: nat, col: nat, r: nat, c: nat)
    requires Formed(v) && InPart(v, row, col) && r < v.b && c < v.a
    ensures Pick(v, row, col) == At(v.a, r, c) <==>
      v.y + r * Dy(v) <= row < v.y + r * Dy(v) + Dy(v) && v.x + c * Dx(v) <= col < v.x + c * Dx(v) + Dx(v)
  {
    PickInside(v, row, col);
    hide At, Dx, Dy;
    IndexIs(v.a, Dy(v), Dx(v), row - v.y, col - v.x, r, c);
  }

  /** The block lies in the part. */
  lemma BlockInside(n: nat, d: nat, r: nat)
    requires r < n
    ensures r * d + d == (r + 1) * d <= n * d
  {
    Monotone(r + 1, n, d);
  }

  lemma RowsInside(cx: nat, n: nat, rows: nat)
    requires n <= rows
    ensures At(cx, n, 0) <= At(cx, rows, 0) && At(cx, n, 0) == n * cx
  {
    Monotone(n, rows, cx);
  }

  function Run(p: Pixel, n: nat): (s: seq<Pixel>)
    ensures |s| == n && forall k :: 0 <= k < n ==> s[k] == p
  {
    seq(n, _ => p)
  }

  ghost predicate Filled(now: seq<Pixel>, was: seq<Pixel>, cx: nat, j: nat, n: nat, i: nat, m: nat, p: Pixel) {
    && |now| == |was|
    && forall row: nat, col: nat {:trigger At(cx, row, col)} :: col < cx && At(cx, row, col) < |now| ==>
         now[At(cx, row, col)] == if j <= row < j + n && i <= col < i + m then p else was[At(cx, row, col)]
  }

  lemma FilledMore(was: seq<Pixel>, before: seq<Pixel>, now: seq<Pixel>, cx: nat, j: nat, n: nat, i: nat, m: nat,
                   p: Pixel)
    requires Filled(before, was, cx, j, n, i, m, p) && i + m <= cx
    requires Wrote(now, before, At(cx, j + n, i), Run(p, m))
    ensures Filled(now, was, cx, j, n + 1, i, m, p)
  {
    hide At;
    forall row: nat, col: nat | col < cx && At(cx, row, col) < |now|
      ensures now[At(cx, row, col)] == if j <= row < j + (n + 1) && i <= col < i + m then p else was[At(cx, row, col)]
    {
      CellInRun(cx, j + n, i, m, row, col);
    }
  }

  /** The blocks of the first `k` small pixels are there, the rest is as it was. */
  ghost predicate Painted(now: seq<Pixel>, was: seq<Pixel>, v: Header, small: seq<Pixel>, k: nat)
    requires Formed(v) && |small| == v.a * v.b
  {
    && |now| == |was|
    && forall row: nat, col: nat {:trigger At(v.cx, row, col)} :: col < v.cx && At(v.cx, row, col) < |now| ==>
         now[At(v.cx, row, col)] ==
         if InPart(v, row, col) && Pick(v, row, col) < k then Picked(v, small, row, col) else was[At(v.cx, row, col)]
  }

  ghost predicate FilledBlock(now: seq<Pixel>, was: seq<Pixel>, v: Header, r: nat, c: nat, p: Pixel)
    requires Formed(v)
  {
    Sides(v);
    Monotone(0, r, Dy(v));
    Monotone(0, c, Dx(v));
    Filled(now, was, v.cx, v.y + r * Dy(v), Dy(v), v.x + c * Dx(v), Dx(v), p)
  }

  predicate InsideBlock(v: Header, r: nat, c: nat, row: nat, col: nat)
    requires Formed(v)
  {
    v.y + r * Dy(v) <= row < v.y + r * Dy(v) + Dy(v) && v.x + c * Dx(v) <= col < v.x + c * Dx(v) + Dx(v)
  }

  lemma InBlockOf(v: Header, row: nat, col: nat, r: nat, c: nat)
    requires Formed(v) && r < v.b && c < v.a
    ensures InsideBlock(v, r, c, row, col) <==> InPart(v, row, col) && Pick(v, row, col) == At(v.a, r, c)
  {
    BlockInside(v.b, Dy(v), r);
    BlockInside(v.a, Dx(v), c);
    if InPart(v, row, col) {
      PickIs(v, row, col, r, c);
    }
    hide At, Pick, Dx, Dy;
  }

  lemma FilledCell(now: seq<Pixel>, before: seq<Pixel>, v: Header, r: nat, c: nat, row: nat, col: nat, p: Pixel)
    requires Formed(v) && FilledBlock(now, before, v, r, c, p)
    requires col < v.cx && At(v.cx, row, col) < |now|
    ensures now[At(v.cx, row, col)] == if InsideBlock(v, r, c, row, col) then p else before[At(v.cx, row, col)]
  {
    hide At, Dx, Dy;
  }

  lemma PaintedCell(was: seq<Pixel>, before: seq<Pixel>, now: seq<Pixel>, v: Header, small: seq<Pixel>, r: nat,
                    c: nat, row: nat, col: nat)
    requires Formed(v) && |small| == v.a * v.b && r < v.b && c < v.a && At(v.a, r, c) < |small|
    requires Painted(before, was, v, small, At(v.a, r, c))
    requires FilledBlock(now, before, v, r, c, small[At(v.a, r, c)])
    requires col < v.cx && At(v.cx, row, col) < |now|
    ensures now[At(v.cx, row, col)] ==
      if InPart(v, row, col) && Pick(v, row, col) < At(v.a, r, c) + 1 then Picked(v, small, row, col)
      else was[At(v.cx, row, col)]
  {
    InBlockOf(v, row, col, r, c);
    hide At, Pick, Dx, Dy, Formed, InPart, InsideBlock;
    FilledCell(now, before, v, r, c, row, col, small[At(v.a, r, c)]);
  }

  lemma PaintedMore(was: seq<Pixel>, before: seq<Pixel>, now: seq<Pixel>, v: Header, small: seq<Pixel>, r: nat, c: nat)
    requires Formed(v) && |small| == v.a * v.b && r < v.b && c < v.a && At(v.a, r, c) < |small|
    requires Painted(before, was, v, small, At(v.a, r, c))
    requires FilledBlock(now, before, v, r, c, small[At(v.a, r, c)])
    ensures Painted(now, was, v, small, At(v.a, r, c) + 1)
  {
    forall row: nat, col: nat | col < v.cx && At(v.cx, row, col) < |now|
      ensures now[At(v.cx, row, col)] ==
        if InPart(v, row, col) && Pick(v, row, col) < At(v.a, r, c) + 1 then Picked(v, small, row, col)
      else was[At(v.cx, row, col)]
    {
      PaintedCell(was, before, now, v, small, r, c, row, col);
    }
  }

  lemma PaintedIs(now: seq<Pixel>, was: seq<Pixel>, v: Header, small: seq<Pixel>, k: nat)
    requires Formed(v) && |small| == v.a * v.b && Painted(now, was, v, small, v.a * v.b) && k < |now|
    ensures now[k] == if InPart(v, k / v.cx, k % v.cx) then Picked(v, small, k / v.cx, k % v.cx) else was[k]
  {
    CellOf(v.cx, k);
    var row: nat, col: nat := k / v.cx, k % v.cx;
    if InPart(v, row, col) {
      PickInside(v, row, col);
    }
    hide At, Pick, Picked, InPart;
    assert now[At(v.cx, row, col)] == now[k];
  }

  lemma PaintedAll(now: seq<Pixel>, was: seq<Pixel>, v: Header, small: seq<Pixel>)
    requires Formed(v) && |small| == v.a * v.b && Painted(now, was, v, small, v.a * v.b)
    ensures now == Enlarged(was, v, small)
  {
    Sides(v);
    hide At, Pick, InPart, Picked, Formed;
    forall k | 0 <= k < |now|
      ensures now[k] == if InPart(v, k / v.cx, k % v.cx) then Picked(v, small, k / v.cx, k % v.cx) else was[k]
    {
      PaintedIs(now, was, v, small, k);
    }
  }

  method FillRun(out: array<Pixel>, at: nat, n: nat, p: Pixel)
    requires at + n <= out.Length
    modifies out
    ensures Wrote(out[..], old(out[..]), at, Run(p, n))
  {
    var a := 0;
    while a < n
      invariant 0 <= a <= n && Wrote(out[..], old(out[..]), at, Run(p, a))
    {
      out[at + a] := p;
      a := a + 1;
    }
  }

  lemma FilledNone(s: seq<Pixel>, cx: nat, j: nat, i: nat, m: nat, p: Pixel)
    ensures Filled(s, s, cx, j, 0, i, m, p)
  {
  }

  lemma RunInside(cx: nat, rows: nat, row: nat, i: nat, n: nat)
    requires row < rows && i + n <= cx && n > 0
    ensures At(cx, row, i) + n <= At(cx, rows, 0)
  {
    CellInside(cx, rows, row, i + n - 1);
  }

  method FillBlock(out: array<Pixel>, cx: nat, j: nat, dy: nat, i: nat, dx: nat, p: Pixel)
    requires i + dx <= cx && At(cx, j + dy, 0) <= out.Length && dx > 0
    modifies out
    ensures Filled(out[..], old(out[..]), cx, j, dy, i, dx, p)
  {
    hide At, Run, Wrote;
    var b := 0;
    FilledNone(out[..], cx, j, i, dx, p);
    while b < dy
      invariant 0 <= b <= dy && Filled(out[..], old(out[..]), cx, j, b, i, dx, p)
    {
      ghost var before := out[..];
      RunInside(cx, j + dy, j + b, i, dx);
      FillRun(out, At(cx, j + b, i), dx, p);
      FilledMore(old(out[..]), before, out[..], cx, j, b, i, dx, p);
      b := b + 1;
    }
  }

  lemma PaintedNone(s: seq<Pixel>, v: Header, small: seq<Pixel>)
    requires Formed(v) && |small| == v.a * v.b
    ensures Painted(s, s, v, small, 0)
  {
  }

  lemma RowDone(v: Header, r: nat)
    ensures At(v.a, r, v.a) == At(v.a, r + 1, 0) && At(v.a, 0, 0) == 0 && At(v.a, v.b, 0) == v.a * v.b
  {
  }

  /** Where block (`r`, `c`) begins and ends, and its small pixel. */
  lemma BlockPlace(v: Header, r: nat, c: nat, size: nat)
    requires Formed(v) && r < v.b && c < v.a && At(v.cx, v.h, 0) <= size
    ensures v.x + c * Dx(v) + Dx(v) <= v.cx && At(v.cx, v.y + r * Dy(v) + Dy(v), 0) <= size
    ensures At(v.a, r, c) < v.a * v.b && v.y + r * Dy(v) < v.h && v.x + c * Dx(v) < v.w
    ensures r * Dy(v) + Dy(v) == (r + 1) * Dy(v) && c * Dx(v) + Dx(v) == (c + 1) * Dx(v)
  {
    BlockInside(v.b, Dy(v), r);
    BlockInside(v.a, Dx(v), c);
    CellInside(v.a, v.b, r, c);
    RowsInside(v.a, v.b, v.b);
    hide At, Dx, Dy;
    RowsInside(v.cx, v.y + r * Dy(v) + Dy(v), v.h);
  }

  lemma RowInside(v: Header, r: nat)
    requires Formed(v) && v.y + r * Dy(v) < v.h
    ensures r < v.b && r * Dy(v) + Dy(v) == (r + 1) * Dy(v)
  {
    if r >= v.b {
      Monotone(v.b, r, Dy(v));
    }
  }

  lemma RowsEnd(v: Header, r: nat)
    requires Formed(v) && r <= v.b && v.y + r * Dy(v) >= v.h
    ensures r == v.b && At(v.a, r, 0) == v.a * v.b
  {
    if r < v.b {
      BlockInside(v.b, Dy(v), r);
    }
  }

  lemma ColInside(v: Header, c: nat)
    requires Formed(v) && v.x + c * Dx(v) < v.w
    ensures c < v.a
  {
    if c >= v.a {
      Monotone(v.a, c, Dx(v));
    }
  }

  lemma ColsEnd(v: Header, c: nat)
    requires Formed(v) && c <= v.a && v.x + c * Dx(v) >= v.w
    ensures c == v.a
  {
    if c < v.a {
      BlockInside(v.a, Dx(v), c);
    }
  }

  method IncRow(v: Header, small: seq<Pixel>, out: array<Pixel>, ghost was: seq<Pixel>, ghost r: nat, j: nat, k: nat)
    returns (k': nat)
    requires Formed(v) && |small| == v.a * v.b && At(v.cx, v.h, 0) <= out.Length
    requires r < v.b && j == v.y + r * Dy(v) && k == At(v.a, r, 0) && Painted(out[..], was, v, small, k)
    modifies out
    ensures k' == At(v.a, r, v.a) && Painted(out[..], was, v, small, k')
  {
    hide Painted, Filled;
    var dx, dy := Dx(v), Dy(v);
    var i := v.x;
    k' := k;
    ghost var c := 0;
    while i < v.w
      invariant 0 <= c <= v.a && i == v.x + c * dx && k' == At(v.a, r, c)
      invariant Painted(out[..], was, v, small, k')
      decreases v.w - i
    {
      ColInside(v, c);
      BlockPlace(v, r, c, out.Length);
      ghost var before := out[..];
      FillBlock(out, v.cx, j, dy, i, dx, small[k']);
      PaintedMore(was, before, out[..], v, small, r, c);
      k' := k' + 1;
      i := i + dx;
      c := c + 1;
    }
    ColsEnd(v, c);
  }

  /** `incSize`. */
  method IncSize(v: Header, small: seq<Pixel>, out: array<Pixel>)
    requires Formed(v) && |small| == v.a * v.b && At(v.cx, v.h, 0) <= out.Length
    modifies out
    ensures out[..] == Enlarged(old(out[..]), v, small)
  {
    hide At, Painted, Filled, Enlarged;
    ghost var was := out[..];
    var dx, dy := Dx(v), Dy(v);
    var j, k := v.y, 0;
    ghost var r := 0;
    PaintedNone(was, v, small);
    RowDone(v, 0);
    while j < v.h
      invariant 0 <= r <= v.b && j == v.y + r * dy && k == At(v.a, r, 0)
      invariant Painted(out[..], was, v, small, k)
      decreases v.h - j
    {
      RowInside(v, r);
      k := IncRow(v, small, out, was, r, j, k);
      RowDone(v, r);
      j := j + dy;
      r := r + 1;
    }
    RowsEnd(v, r);
    PaintedAll(out[..], was, v, small);
  }

  // ----- shrinking

  datatype Sums = Sums(r: nat, g: nat, b: nat)

  const NOTHING := Sums(0, 0, 0)

  function Plus(s: Sums, t: Sums): Sums {
    Sums(s.r + t.r, s.g + t.g, s.b + t.b)
  }

  function Times(n: nat, p: Pixel): Sums {
    Sums(n * p.r, n * p.g, n * p.b)
  }

  /** A cell; black outside the image. */
  function Cell(img: seq<Pixel>, cx: nat, row: nat, col: nat): Pixel {
    if At(cx, row, col) < |img| then img[At(cx, row, col)] else Pixel(0, 0, 0)
  }

  /** The sums over `n` cells of a column from row `j` down. */
  function ColumnSum(img: seq<Pixel>, cx: nat, col: nat, j: nat, n: nat): Sums {
    if n == 0 then NOTHING
    else Plus(ColumnSum(img, cx, col, j, n - 1), Times(1, Cell(img, cx, j + n - 1, col)))
  }

  /** The sums over a block of `m` columns and `n` rows. */
  function BlockSum(img: seq<Pixel>, cx: nat, i: nat, m: nat, j: nat, n: nat): Sums {
    if m == 0 then NOTHING
    else Plus(BlockSum(img, cx, i, m - 1, j, n), ColumnSum(img, cx, i + m - 1, j, n))
  }

  function MeanPixel(dd: nat, s: Sums): Pixel
    requires dd > 0
  {
    Pixel(Mean(dd, s.r), Mean(dd, s.g), Mean(dd, s.b))
  }

  function Size(v: Header): (dd: nat)
    requires Formed(v)
    ensures dd > 0
  {
    AtLeast(Dx(v), Dy(v));
    Dx(v) * Dy(v)
  }

  /** Small pixel (`r`, `c`). */
  function Shrunk(img: seq<Pixel>, v: Header, r: nat, c: nat): Pixel
    requires Formed(v)
  {
    MeanPixel(Size(v), BlockSum(img, v.cx, v.x + c * Dx(v), Dx(v), v.y + r * Dy(v), Dy(v)))
  }

  function ShrunkRow(img: seq<Pixel>, v: Header, r: nat, n: nat): (s: seq<Pixel>)
    requires Formed(v)
    ensures |s| == n && forall c :: 0 <= c < n ==> s[c] == Shrunk(img, v, r, c)
  {
    seq(n, c requires 0 <= c < n => Shrunk(img, v, r, c))
  }

  /** Where a row of small pixels goes. */
  function RowPlace(v: Header, r: nat): nat
    requires Formed(v)
  {
    Monotone(0, r, v.a);
    Monotone(0, r, Dy(v));
    Monotone(0, v.y + r * Dy(v), v.w / Size(v));
    if Shifter(Size(v)) > 0 then r * v.a else (v.y + r * Dy(v)) * (v.w / Size(v))
  }

  /** `ys` put over `s` from `at` on, if it fits. */
  function Overlaid(s: seq<Pixel>, at: nat, ys: seq<Pixel>): (t: seq<Pixel>)
    ensures |t| == |s|
  {
    if at + |ys| <= |s| then s[..at] + ys + s[at + |ys|..] else s
  }

  /** The output with the first `n` rows put in, one after the other. */
  function Rows(out: seq<Pixel>, img: seq<Pixel>, v: Header, n: nat): (s: seq<Pixel>)
    requires Formed(v)
    ensures |s| == |out|
  {
    if n == 0 then out
    else Overlaid(Rows(out, img, v, n - 1), RowPlace(v, n - 1), ShrunkRow(img, v, n - 1, v.a))
  }

  lemma PlusNothing(s: Sums)
    ensures Plus(s, NOTHING) == s
  {
  }

  lemma PlusPixel(left: Sums, t: Sums, p: Pixel, r: nat, g: nat, b: nat)
    requires Sums(r, g, b) == Plus(left, t)
    ensures Sums(r + p.r, g + p.g, b + p.b) == Plus(left, Plus(t, Times(1, p)))
  {
  }

  method SumBlock(img: seq<Pixel>, cx: nat, i: nat, dx: nat, j: nat, dy: nat) returns (s: Sums)
    requires i + dx <= cx && At(cx, j + dy, 0) <= |img|
    ensures s == BlockSum(img, cx, i, dx, j, dy)
  {
    hide At, Plus, Times;
    var rc: nat, gc: nat, bc: nat := 0, 0, 0;
    var a := 0;
    while a < dx
      invariant 0 <= a <= dx && Sums(rc, gc, bc) == BlockSum(img, cx, i, a, j, dy)
    {
      ghost var left := Sums(rc, gc, bc);
      var b := 0;
      PlusNothing(left);
      while b < dy
        invariant 0 <= b <= dy && Sums(rc, gc, bc) == Plus(left, ColumnSum(img, cx, i + a, j, b))
      {
        CellInside(cx, j + dy, j + b, i + a);
        var p := img[At(cx, j + b, i + a)];
        PlusPixel(left, ColumnSum(img, cx, i + a, j, b), p, rc, gc, bc);
        rc, gc, bc := rc + p.r, gc + p.g, bc + p.b;
        b := b + 1;
      }
      a := a + 1;
    }
    s := Sums(rc, gc, bc);
  }

  /** Every row goes where there is room for it. */
  ghost predicate Roomy(v: Header, size: nat)
    requires Formed(v)
  {
    forall r: nat :: r < v.b ==> RowPlace(v, r) + v.a <= size
  }

  lemma WroteNothing(s: seq<Pixel>, at: nat)
    requires at <= |s|
    ensures Wrote(s, s, at, [])
  {
  }

  lemma WroteOver(now: seq<Pixel>, was: seq<Pixel>, at: nat, ys: seq<Pixel>)
    requires Wrote(now, was, at, ys)
    ensures now == Overlaid(was, at, ys)
  {
  }

  lemma ShrunkIs(img: seq<Pixel>, v: Header, r: nat, c: nat, s: Sums)
    requires Formed(v) && s == BlockSum(img, v.cx, v.x + c * Dx(v), Dx(v), v.y + r * Dy(v), Dy(v))
    ensures Pixel(Mean(Size(v), s.r), Mean(Size(v), s.g), Mean(Size(v), s.b)) == Shrunk(img, v, r, c)
  {
  }

  method ShrinkRow(img: seq<Pixel>, v: Header, j: nat, ghost r: nat, out: array<Pixel>, o: nat)
    requires Formed(v) && At(v.cx, v.h, 0) <= |img| && r < v.b && j == v.y + r * Dy(v) && o + v.a <= out.Length
    modifies out
    ensures out[..] == Overlaid(old(out[..]), o, ShrunkRow(img, v, r, v.a))
  {
    hide At, Mean, BlockSum, Wrote, Shrunk;
    var dx, dy, dd := Dx(v), Dy(v), Size(v);
    var i, p := v.x, o;
    ghost var c, was := 0, out[..];
    WroteNothing(was, o);
    while i < v.w
      invariant 0 <= c <= v.a && i == v.x + c * dx && p == o + c
      invariant Wrote(out[..], was, o, ShrunkRow(img, v, r, c))
      decreases v.w - i
    {
      ColInside(v, c);
      BlockPlace(v, r, c, |img|);
      var s := SumBlock(img, v.cx, i, dx, j, dy);
      ShrunkIs(img, v, r, c, s);
      WroteOne(was, out[..], o, ShrunkRow(img, v, r, c), Shrunk(img, v, r, c));
      out[p] := Pixel(Mean(dd, s.r), Mean(dd, s.g), Mean(dd, s.b));
      assert ShrunkRow(img, v, r, c) + [Shrunk(img, v, r, c)] == ShrunkRow(img, v, r, c + 1);
      p := p + 1;
      i := i + dx;
      c := c + 1;
    }
    ColsEnd(v, c);
    WroteOver(out[..], was, o, ShrunkRow(img, v, r, v.a));
  }

  lemma NextMultiple(r: nat, a: nat)
    ensures r * a + a == (r + 1) * a
  {
  }

  /** `decSize`: the rows follow each other where the mean is a shift, else each is put
      where a multiplication says. */
  method DecSize(v: Header, img: seq<Pixel>, out: array<Pixel>)
    requires Formed(v) && At(v.cx, v.h, 0) <= |img| && Roomy(v, out.Length)
    modifies out
    ensures out[..] == Rows(old(out[..]), img, v, v.b)
  {
    hide At, ShrunkRow, Overlaid;
    var dy, dd := Dy(v), Size(v);
    var j, o := v.y, 0;
    ghost var r := 0;
    while j < v.h
      invariant 0 <= r <= v.b && j == v.y + r * dy && o == r * v.a
      invariant out[..] == Rows(old(out[..]), img, v, r)
      decreases v.h - j
    {
      RowInside(v, r);
      var place := if Shifter(dd) > 0 then o else j * (v.w / dd);
      assert place == RowPlace(v, r);
      ShrinkRow(img, v, j, r, out, place);
      NextMultiple(r, v.a);
      o := o + v.a;
      j := j + dy;
      r := r + 1;
    }
    RowsEnd(v, r);
  }

  // ----- whole images

  /** The calls that make up the header from the size of the image and of the blocks. */
  method IncWhole(w: nat, h: nat, dx: nat, dy: nat, small: seq<Pixel>, out: array<Pixel>)
    requires dx > 0 && dy > 0 && Formed(Whole(w, h, dx, dy))
    requires |small| == (w / dx) * (h / dy) && At(w, h, 0) <= out.Length
    modifies out
    ensures out[..] == Enlarged(old(out[..]), Whole(w, h, dx, dy), small)
  {
    IncSize(Whole(w, h, dx, dy), small, out);
  }

  method DecWhole(w: nat, h: nat, dx: nat, dy: nat, img: seq<Pixel>, out: array<Pixel>)
    requires dx > 0 && dy > 0 && Formed(Whole(w, h, dx, dy))
    requires At(w, h, 0) <= |img| && Roomy(Whole(w, h, dx, dy), out.Length)
    modifies out
    ensures out[..] == Rows(old(out[..]), img, Whole(w, h, dx, dy), h / dy)
  {
    hide Formed, Roomy, Rows;
    DecSize(Whole(w, h, dx, dy), img, out);
  }

  // ----- shrinking what was enlarged

  lemma TimesPlus(m: nat, n: nat, p: Pixel)
    ensures Plus(Times(m, p), Times(n, p)) == Times(m + n, p)
  {
  }

  lemma {:induction false} EqualColumn(img: seq<Pixel>, cx: nat, col: nat, j: nat, n: nat, p: Pixel)
    requires forall row: nat :: j <= row < j + n ==> Cell(img, cx, row, col) == p
    ensures ColumnSum(img, cx, col, j, n) == Times(n, p)
  {
    hide Cell;
    if n == 0 {
    } else {
      EqualColumn(img, cx, col, j, n - 1, p);
      TimesPlus(n - 1, 1, p);
    }
  }

  lemma TimesNothing(p: Pixel)
    ensures Times(0, p) == NOTHING
  {
  }

  lemma {:induction false} EqualBlock(img: seq<Pixel>, cx: nat, i: nat, m: nat, j: nat, n: nat, p: Pixel)
    requires forall row: nat, col: nat :: j <= row < j + n && i <= col < i + m ==> Cell(img, cx, row, col) == p
    ensures BlockSum(img, cx, i, m, j, n) == Times(m * n, p)
  {
    hide Cell, Times, Plus;
    if m == 0 {
      TimesNothing(p);
      assert m * n == 0;
    } else {
      EqualBlock(img, cx, i, m - 1, j, n, p);
      EqualColumn(img, cx, i + m - 1, j, n, p);
      TimesPlus((m - 1) * n, n, p);
      NextMultiple(m - 1, n);
    }
  }

  lemma EnlargedCell(was: seq<Pixel>, v: Header, small: seq<Pixel>, r: nat, c: nat, row: nat, col: nat)
    requires Formed(v) && |small| == v.a * v.b && At(v.cx, v.h, 0) <= |was| && r < v.b && c < v.a
    requires At(v.a, r, c) < |small|
    requires v.y + r * Dy(v) <= row < v.y + r * Dy(v) + Dy(v) && v.x + c * Dx(v) <= col < v.x + c * Dx(v) + Dx(v)
    ensures Cell(Enlarged(was, v, small), v.cx, row, col) == small[At(v.a, r, c)]
  {
    BlockInside(v.b, Dy(v), r);
    BlockInside(v.a, Dx(v), c);
    assert InPart(v, row, col);
    PickIs(v, row, col, r, c);
    CellInside(v.cx, v.h, row, col);
    DivMod(At(v.cx, row, col), v.cx, row, col);
    hide At, Pick, Dx, Dy;
  }

  /** After enlarging, every cell of block (`r`, `c`) is its small pixel. */
  lemma EnlargedBlock(was: seq<Pixel>, v: Header, small: seq<Pixel>, r: nat, c: nat)
    requires Formed(v) && |small| == v.a * v.b && At(v.cx, v.h, 0) <= |was| && r < v.b && c < v.a
    ensures At(v.a, r, c) < |small|
    ensures forall row: nat, col: nat ::
      v.y + r * Dy(v) <= row < v.y + r * Dy(v) + Dy(v) && v.x + c * Dx(v) <= col < v.x + c * Dx(v) + Dx(v) ==>
        Cell(Enlarged(was, v, small), v.cx, row, col) == small[At(v.a, r, c)]
  {
    BlockPlace(v, r, c, |was|);
    forall row: nat, col: nat |
      v.y + r * Dy(v) <= row < v.y + r * Dy(v) + Dy(v) && v.x + c * Dx(v) <= col < v.x + c * Dx(v) + Dx(v)
      ensures Cell(Enlarged(was, v, small), v.cx, row, col) == small[At(v.a, r, c)]
    {
      EnlargedCell(was, v, small, r, c, row, col);
    }
  }

  /** Shrinking takes the mean of that pixel alone. */
  lemma ShrunkEnlarged(was: seq<Pixel>, v: Header, small: seq<Pixel>, r: nat, c: nat)
    requires Formed(v) && |small| == v.a * v.b && At(v.cx, v.h, 0) <= |was| && r < v.b && c < v.a
    ensures At(v.a, r, c) < |small|
    ensures
      var p := small[At(v.a, r, c)];
      Shrunk(Enlarged(was, v, small), v, r, c) == MeanPixel(Size(v), Times(Size(v), p))
  {
    hide Cell, Enlarged, At, Times, MeanPixel, BlockSum;
    EnlargedBlock(was, v, small, r, c);
    EqualBlock(Enlarged(was, v, small), v.cx, v.x + c * Dx(v), Dx(v), v.y + r * Dy(v), Dy(v), small[At(v.a, r, c)]);
  }

  lemma MeanOfTimes(dd: nat, p: Pixel)
    requires dd > 0 && Exact(dd)
    ensures MeanPixel(dd, Times(dd, p)) == p
  {
    hide Mean, Exact;
    KeepsEqual(dd, p.r);
    KeepsEqual(dd, p.g);
    KeepsEqual(dd, p.b);
    assert dd * p.r == p.r * dd && dd * p.g == p.g * dd && dd * p.b == p.b * dd;
  }
}
