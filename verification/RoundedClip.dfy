/**
 * Rounded clip rectangles, rasterised row by row. Doubles are real numbers here, and the
 * square root is any function that squares back.
 */
module RoundedClip {

  type Root = real -> real

  ghost predicate IsRoot(sqrt: Root) {
    forall t: real :: t >= 0.0 ==> sqrt(t) >= 0.0 && sqrt(t) * sqrt(t) == t
  }

  function Clamp(v: int, lo: int, hi: int): int {
    if v < lo then lo else if v > hi then hi else v
  }

  function Abs(d: real): real { if d < 0.0 then -d else d }

  /** The least integer not below d. */
  function Ceil(d: real): int { -((-d).Floor) }

  // ---------------------------------------------------------------- one row of a corner

  function Depth(dy: real, ry: real): real
    requires ry > 0.0
  {
    PositiveSquare(ry);
    1.0 - Square(Abs(dy)) / Square(ry)
  }

  /** How many pixels of a row, dy away from the centre of an ellipse, are cut off. */
  function EllipseInset(dy: real, rx: int, ry: int, sqrt: Root): int {
    if rx <= 0 || ry <= 0 then 0
    else if Abs(dy) >= ry as real then rx
    else
      var t := Depth(dy, ry as real);
      if t <= 0.0 then rx
      else Clamp(Ceil(rx as real - rx as real * sqrt(t)), 0, rx)
  }

  /** The point i from the edge of the box and dy from the centre is within the ellipse. */
  predicate Inside(i: int, dy: real, rx: int, ry: int)
    requires rx > 0 && ry > 0
  {
    Square((rx - i) as real / rx as real) + Square(dy / ry as real) <= 1.0
  }

  function Square(a: real): real { a * a }

  function Times(a: real, b: real): real { a * b }

  lemma PositiveProduct(a: real, b: real)
    requires a > 0.0 && b > 0.0
    ensures Times(a, b) > 0.0
  {
  }

  lemma DifferenceOfSquares(a: real, b: real)
    ensures Square(a) - Square(b) == Times(a - b, a + b)
  {
  }

  lemma SquareOrder(a: real, b: real)
    requires a >= 0.0 && b >= 0.0
    ensures Square(a) <= Square(b) <==> a <= b
  {
    hide Square, Times;
    if a > b {
      PositiveProduct(a - b, a + b);
      DifferenceOfSquares(a, b);
    } else if a < b {
      PositiveProduct(b - a, b + a);
      DifferenceOfSquares(b, a);
    }
  }

  lemma PositiveSquare(b: real)
    requires b > 0.0
    ensures Square(b) > 0.0
  {
    SquareOrder(b, 0.0);
  }

  lemma ProductOverFactor(a: real, b: real)
    requires b != 0.0
    ensures (a * b) / b == a
  {
  }

  lemma Regroup(q: real, b: real)
    ensures (q * b) * (q * b) == (q * q) * (b * b)
  {
    var p := q * b;
    assert p * p == q * (b * p);
    assert b * p == q * (b * b);
    assert q * (q * (b * b)) == (q * q) * (b * b);
  }

  lemma SquareOfQuotient(a: real, b: real)
    requires b > 0.0
    ensures Square(b) > 0.0 && Square(Abs(a)) / Square(b) == Square(a / b)
  {
    var q, bb := a / b, Square(b);
    PositiveSquare(b);
    assert Square(Abs(a)) == Square(q) * bb by {
      assert a == q * b;
      Regroup(q, b);
    }
    ProductOverFactor(Square(q), bb);
  }

  lemma QuotientOrder(a: real, b: real, s: real)
    requires b > 0.0
    ensures a / b <= s <==> a <= b * s
  {
    var q := a / b;
    assert a == q * b;
    if q <= s {
      assert q * b <= s * b;
    } else {
      assert q * b > s * b;
    }
  }

  lemma CeilOrder(d: real, i: int)
    ensures Ceil(d) <= i <==> d <= i as real
  {
  }

  /** The inset is the least integer between 0 and rx that is within the ellipse. */
  lemma InsetIsLeastInside(dy: real, rx: int, ry: int, sqrt: Root)
    requires rx > 0 && ry > 0 && Abs(dy) < ry as real && IsRoot(sqrt)
    ensures 0 <= EllipseInset(dy, rx, ry, sqrt) <= rx
    ensures forall i | 0 <= i <= rx :: Inside(i, dy, rx, ry) <==> EllipseInset(dy, rx, ry, sqrt) <= i
  {
    hide Depth, Square;
    SquareOfQuotient(dy, ry as real);
    var t := Depth(dy, ry as real);
    DepthIs(dy, ry as real);
    var s := sqrt(t);
    forall i | 0 <= i <= rx ensures Inside(i, dy, rx, ry) <==> EllipseInset(dy, rx, ry, sqrt) <= i {
      InsideByEdge(i, dy, rx, ry, s);
      CeilOrder(rx as real - rx as real * s, i);
    }
  }

  lemma DepthIs(dy: real, ry: real)
    requires Abs(dy) < ry
    ensures Depth(dy, ry) == 1.0 - Square(dy / ry) > 0.0
  {
    hide Square;
    SquareOfQuotient(dy, ry);
    PositiveBelow(dy, ry);
  }

  lemma InsideByEdge(i: int, dy: real, rx: int, ry: int, s: real)
    requires rx > 0 && ry > 0 && i <= rx && s >= 0.0 && s * s == 1.0 - Square(dy / ry as real)
    ensures Inside(i, dy, rx, ry) <==> rx as real - rx as real * s <= i as real
  {
    var a := (rx - i) as real / rx as real;
    NonNegativeQuotient((rx - i) as real, rx as real);
    SquareOrder(a, s);
    QuotientOrder((rx - i) as real, rx as real, s);
  }

  lemma NonNegativeQuotient(a: real, b: real)
    requires a >= 0.0 && b > 0.0
    ensures a / b >= 0.0
  {
  }

  lemma PositiveBelow(dy: real, ry: real)
    requires Abs(dy) < ry
    ensures Square(dy / ry) < 1.0
  {
    var q := Abs(dy) / ry;
    QuotientOrder(Abs(dy), ry, q);
    assert q < 1.0 by { QuotientOrder(ry, ry, q); }
    NonNegativeQuotient(Abs(dy), ry);
    SquareOrder(1.0, q);
    assert Square(dy / ry) == Square(q) by { assert dy / ry == q || dy / ry == -q; }
  }

  // ---------------------------------------------------------------- the region

  datatype Rect = Rect(x: int, y: int, width: int, height: int)

  predicate InRect(r: Rect, px: int, py: int) {
    r.x <= px < r.x + r.width && r.y <= py < r.y + r.height
  }

  /** The pixels of a union of rectangles. */
  predicate Covers(region: seq<Rect>, px: int, py: int) {
    exists k :: 0 <= k < |region| && InRect(region[k], px, py)
  }

  lemma CoversUnion(region: seq<Rect>, r: Rect, px: int, py: int)
    ensures Covers(region + [r], px, py) <==> Covers(region, px, py) || InRect(r, px, py)
  {
    if Covers(region, px, py) {
      var k :| 0 <= k < |region| && InRect(region[k], px, py);
      assert (region + [r])[k] == region[k];
    }
    if InRect(r, px, py) { assert (region + [r])[|region|] == r; }
  }

  /** The radii of a corner, and of the four. */
  datatype Corner = Corner(rx: int, ry: int)

  datatype Radii = Radii(tl: Corner, tr: Corner, br: Corner, bl: Corner)

  function Clamped(c: Corner, halfWidth: int, halfHeight: int): Corner {
    Corner(Clamp(c.rx, 0, halfWidth), Clamp(c.ry, 0, halfHeight))
  }

  function ClampedRadii(radii: Radii, width: int, height: int): (r: Radii)
    requires width > 0 && height > 0
    ensures Fits(r, width, height)
  {
    var w, h := width / 2, height / 2;
    Radii(Clamped(radii.tl, w, h), Clamped(radii.tr, w, h), Clamped(radii.br, w, h), Clamped(radii.bl, w, h))
  }

  predicate CornerFits(c: Corner, width: int, height: int) {
    0 <= c.rx && 2 * c.rx <= width && 0 <= c.ry && 2 * c.ry <= height
  }

  predicate Fits(r: Radii, width: int, height: int) {
    CornerFits(r.tl, width, height) && CornerFits(r.tr, width, height) && CornerFits(r.br, width, height)
      && CornerFits(r.bl, width, height)
  }

  /** The radius nearest to the one given that is half a side at most. */
  ghost predicate Nearest(v: int, r: int, side: int) {
    && 0 <= r && 2 * r <= side
    && forall u | 0 <= u && 2 * u <= side :: Distance(r, v) <= Distance(u, v)
  }

  function Distance(a: int, b: int): nat { if a < b then b - a else a - b }

  ghost predicate NearestCorner(c: Corner, r: Corner, width: int, height: int) {
    Nearest(c.rx, r.rx, width) && Nearest(c.ry, r.ry, height)
  }

  /** Radii that fit are kept as they are given; a larger one becomes half the side and a
      negative one 0, the nearest that fits. */
  lemma ClampedIsNearest(radii: Radii, width: int, height: int)
    requires width > 0 && height > 0
    ensures var r := ClampedRadii(radii, width, height);
      && NearestCorner(radii.tl, r.tl, width, height) && NearestCorner(radii.tr, r.tr, width, height)
      && NearestCorner(radii.br, r.br, width, height) && NearestCorner(radii.bl, r.bl, width, height)
    ensures ClampedRadii(radii, width, height) == radii <==> Fits(radii, width, height)
  {
    hide Clamped;
    ClampedCorner(radii.tl, width, height);
    ClampedCorner(radii.tr, width, height);
    ClampedCorner(radii.br, width, height);
    ClampedCorner(radii.bl, width, height);
  }

  lemma ClampedCorner(c: Corner, width: int, height: int)
    requires width > 0 && height > 0
    ensures var r := Clamped(c, width / 2, height / 2);
      NearestCorner(c, r, width, height) && (r == c <==> CornerFits(c, width, height))
  {
    ClampIsNearest(c.rx, width);
    ClampIsNearest(c.ry, height);
  }

  lemma ClampIsNearest(v: int, side: int)
    requires side > 0
    ensures var r := Clamp(v, 0, side / 2);
      && Nearest(v, r, side)
      && r == if v < 0 then 0 else if 2 * v > side then side / 2 else v
  {
  }

  /** A corner cuts off the pixel i from its side and in row j from its top or bottom, if
      the pixel's outer edge, at the middle of the row, is outside the ellipse. */
  predicate Cut(c: Corner, i: int, j: int) {
    c.rx > 0 && 0 <= j < c.ry && i < c.rx && !Inside(i, c.ry as real - (j as real + 0.5), c.rx, c.ry)
  }

  /** The rounded box: the pixels of the box that no corner cuts off. */
  predicate InRounded(x: int, y: int, width: int, height: int, r: Radii, px: int, py: int) {
    var i, j := px - x, py - y;
    && 0 <= i < width && 0 <= j < height
    && !Cut(r.tl, i, j) && !Cut(r.tr, width - 1 - i, j)
    && !Cut(r.bl, i, height - 1 - j) && !Cut(r.br, width - 1 - i, height - 1 - j)
  }

  function TopInset(c: Corner, row: int, sqrt: Root): int {
    if c.ry > 0 && row < c.ry then EllipseInset(row as real + 0.5 - c.ry as real, c.rx, c.ry, sqrt) else 0
  }

  function BottomInset(c: Corner, row: int, height: int, sqrt: Root): int {
    if c.ry > 0 && row >= height - c.ry
      then EllipseInset(row as real + 0.5 - (height - c.ry) as real, c.rx, c.ry, sqrt) else 0
  }

  /** The inset of a row of a corner cuts exactly the pixels that the corner cuts. */
  lemma InsetCuts(c: Corner, j: int, dy: real, sqrt: Root, i: int)
    requires c.rx >= 0 && 0 <= j < c.ry && i >= 0 && IsRoot(sqrt)
    requires Abs(dy) == c.ry as real - (j as real + 0.5)
    ensures 0 <= EllipseInset(dy, c.rx, c.ry, sqrt) <= c.rx
    ensures EllipseInset(dy, c.rx, c.ry, sqrt) <= i <==> !Cut(c, i, j)
  {
    hide IsRoot, Depth;
    if c.rx > 0 {
      InsetIsLeastInside(dy, c.rx, c.ry, sqrt);
      if i <= c.rx {
        SignIsNoMatter(dy, c.ry as real);
        assert Inside(i, Abs(dy), c.rx, c.ry) <==> Inside(i, dy, c.rx, c.ry);
      }
    }
  }

  lemma SignIsNoMatter(dy: real, ry: real)
    requires ry > 0.0
    ensures Square(Abs(dy) / ry) == Square(dy / ry)
  {
    SquareOfQuotient(dy, ry);
    SquareOfQuotient(Abs(dy), ry);
  }

  lemma TopCuts(c: Corner, row: int, sqrt: Root, i: int)
    requires c.rx >= 0 && row >= 0 && i >= 0 && IsRoot(sqrt)
    ensures 0 <= TopInset(c, row, sqrt) <= c.rx
    ensures TopInset(c, row, sqrt) <= i <==> !Cut(c, i, row)
  {
    hide IsRoot, EllipseInset, Inside;
    if row < c.ry { InsetCuts(c, row, row as real + 0.5 - c.ry as real, sqrt, i); }
  }

  lemma BottomCuts(c: Corner, row: int, height: int, sqrt: Root, i: int)
    requires c.rx >= 0 && row < height && i >= 0 && IsRoot(sqrt)
    ensures 0 <= BottomInset(c, row, height, sqrt) <= c.rx
    ensures BottomInset(c, row, height, sqrt) <= i <==> !Cut(c, i, height - 1 - row)
  {
    hide IsRoot, EllipseInset, Inside;
    if row >= height - c.ry {
      InsetCuts(c, height - 1 - row, row as real + 0.5 - (height - c.ry) as real, sqrt, i);
    }
  }

  function Max(a: int, b: int): int { if a > b then a else b }

  function TopBand(r: Radii): int { Max(r.tl.ry, r.tr.ry) }

  function BottomBand(r: Radii): int { Max(r.bl.ry, r.br.ry) }

  /** The part of a row that is left between two insets. */
  predicate InRow(row: int, left: int, right: int, width: int, i: int, j: int) {
    j == row && left <= i < width - right
  }

  lemma TopRow(width: int, height: int, r: Radii, row: int, sqrt: Root, i: int)
    requires Fits(r, width, height) && 0 <= row < TopBand(r) && IsRoot(sqrt)
    ensures InRow(row, TopInset(r.tl, row, sqrt), TopInset(r.tr, row, sqrt), width, i, row)
      <==> InRounded(0, 0, width, height, r, i, row)
    ensures TopInset(r.tl, row, sqrt) + TopInset(r.tr, row, sqrt) <= width
  {
    hide IsRoot, TopInset, Inside;
    TopCuts(r.tl, row, sqrt, Max(i, 0));
    TopCuts(r.tr, row, sqrt, Max(width - 1 - i, 0));
  }

  lemma BottomRow(width: int, height: int, r: Radii, row: int, sqrt: Root, i: int)
    requires Fits(r, width, height) && height - BottomBand(r) <= row < height && IsRoot(sqrt)
    ensures var left, right := BottomInset(r.bl, row, height, sqrt), BottomInset(r.br, row, height, sqrt);
      InRow(row, left, right, width, i, row) <==> InRounded(0, 0, width, height, r, i, row)
    ensures BottomInset(r.bl, row, height, sqrt) + BottomInset(r.br, row, height, sqrt) <= width
  {
    hide IsRoot, BottomInset, Inside;
    BottomCuts(r.bl, row, height, sqrt, Max(i, 0));
    BottomCuts(r.br, row, height, sqrt, Max(width - 1 - i, 0));
  }

  lemma MiddleRows(width: int, height: int, r: Radii, i: int, j: int)
    requires Fits(r, width, height) && TopBand(r) <= j < height - BottomBand(r)
    ensures InRounded(0, 0, width, height, r, i, j) <==> 0 <= i < width
  {
  }

  /** The region so far is the rounded box in the rows that are done. */
  ghost predicate Done(region: seq<Rect>, x: int, y: int, width: int, height: int, r: Radii, top: int, bottom: int) {
    forall px, py :: Covers(region, px, py) <==>
      InRounded(x, y, width, height, r, px, py) && IsDone(py - y, height, r, top, bottom)
  }

  /** The first rows of the top band, the middle, and the rows of the bottom band up to
      some row. */
  predicate IsDone(j: int, height: int, r: Radii, top: int, bottom: int) {
    j < top || (TopBand(r) <= j < height - BottomBand(r)) || height - BottomBand(r) <= j < bottom
  }

  /** No two rectangles share a row; each is a proper one. */
  predicate RowsApart(region: seq<Rect>) {
    && (forall k | 0 <= k < |region| :: region[k].width > 0 && region[k].height > 0)
    && forall k, l | 0 <= k < l < |region| ::
         region[k].y + region[k].height <= region[l].y || region[l].y + region[l].height <= region[k].y
  }

  lemma AddRow(region: seq<Rect>, x: int, y: int, width: int, height: int, r: Radii, row: int, left: int, right: int,
               top: int, bottom: int, top': int, bottom': int)
    requires Done(region, x, y, width, height, r, top, bottom)
    requires forall i :: InRow(row, left, right, width, i, row) <==> InRounded(0, 0, width, height, r, i, row)
    requires forall j :: IsDone(j, height, r, top', bottom') <==> IsDone(j, height, r, top, bottom) || j == row
    ensures var w := width - left - right;
      var next := if w > 0 then region + [Rect(x + left, y + row, w, 1)] else region;
      Done(next, x, y, width, height, r, top', bottom')
  {
    hide InRounded, IsDone;
    var w := width - left - right;
    var rect := Rect(x + left, y + row, w, 1);
    var next := if w > 0 then region + [rect] else region;
    forall px, py
      ensures Covers(next, px, py)
        <==> InRounded(x, y, width, height, r, px, py) && IsDone(py - y, height, r, top', bottom')
    {
      if w > 0 { CoversUnion(region, rect, px, py); }
      assert InRect(rect, px, py) <==> InRow(row, left, right, width, px - x, py - y);
      Moved(x, y, width, height, r, px, py);
      assert InRow(row, left, right, width, px - x, row) <==> InRounded(0, 0, width, height, r, px - x, row);
    }
  }

  lemma Moved(x: int, y: int, width: int, height: int, r: Radii, px: int, py: int)
    ensures InRounded(x, y, width, height, r, px, py) <==> InRounded(0, 0, width, height, r, px - x, py - y)
  {
  }

  lemma AddMiddle(x: int, y: int, width: int, height: int, r: Radii)
    requires width > 0 && height > 0 && Fits(r, width, height)
    ensures var h := height - TopBand(r) - BottomBand(r);
      var region := if h > 0 then [Rect(x, y + TopBand(r), width, h)] else [];
      Done(region, x, y, width, height, r, 0, height - BottomBand(r))
  {
    hide InRounded;
    var h := height - TopBand(r) - BottomBand(r);
    var rect := Rect(x, y + TopBand(r), width, h);
    var region := if h > 0 then [rect] else [];
    forall px, py
      ensures Covers(region, px, py) <==>
        InRounded(x, y, width, height, r, px, py) && IsDone(py - y, height, r, 0, height - BottomBand(r))
    {
      CoversUnion([], rect, px, py);
      Moved(x, y, width, height, r, px, py);
      InBox(width, height, r, px - x, py - y);
      if TopBand(r) <= py - y < height - BottomBand(r) { MiddleRows(width, height, r, px - x, py - y); }
    }
  }

  lemma InBox(width: int, height: int, r: Radii, i: int, j: int)
    ensures InRounded(0, 0, width, height, r, i, j) ==> 0 <= i < width && 0 <= j < height
  {
  }

  /** The region of a box with rounded corners: exactly the pixels no corner cuts off,
      each in one rectangle only. */
  method RoundedRegion(x: int, y: int, width: int, height: int, radii: Radii, sqrt: Root) returns (region: seq<Rect>)
    requires IsRoot(sqrt)
    ensures width <= 0 || height <= 0 ==> region == []
    ensures width > 0 && height > 0 ==>
      forall px, py :: Covers(region, px, py)
        <==> InRounded(x, y, width, height, ClampedRadii(radii, width, height), px, py)
    ensures RowsApart(region)
    ensures radii.tl == radii.bl && radii.tr == radii.br ==> SameUpsideDown(region, y, height)
    ensures radii.tl == radii.tr && radii.bl == radii.br ==> SameMirrored(region, x, width)
  {
    hide IsRoot, TopInset, BottomInset, InRounded, Done, IsDone, SameUpsideDown, SameMirrored;
    region := [];
    if width <= 0 || height <= 0 {
      NothingIsSymmetric(x, y, width, height);
      return;
    }
    var r := ClampedRadii(radii, width, height);
    var topBand, bottomBand := TopBand(r), BottomBand(r);
    var middle := height - topBand - bottomBand;
    if middle > 0 { region := [Rect(x, y + topBand, width, middle)]; }
    AddMiddle(x, y, width, height, r);
    var row := 0;
    while row < topBand
      invariant 0 <= row <= topBand
      invariant Done(region, x, y, width, height, r, row, height - bottomBand)
      invariant RowsApart(region)
      invariant forall k | 0 <= k < |region| :: region[k].y + region[k].height <= y + row || region[k].y >= y + topBand
      invariant forall k | 0 <= k < |region| :: region[k].y + region[k].height <= y + height - bottomBand
    {
      var left, right := TopInset(r.tl, row, sqrt), TopInset(r.tr, row, sqrt);
      TopRowDone(region, x, y, width, height, r, row, sqrt);
      var w := width - left - right;
      if w > 0 { region := region + [Rect(x + left, y + row, w, 1)]; }
      row := row + 1;
    }
    row := height - bottomBand;
    while row < height
      invariant height - bottomBand <= row <= height
      invariant Done(region, x, y, width, height, r, topBand, row)
      invariant RowsApart(region)
      invariant forall k | 0 <= k < |region| :: region[k].y + region[k].height <= y + row
    {
      var left, right := BottomInset(r.bl, row, height, sqrt), BottomInset(r.br, row, height, sqrt);
      BottomRowDone(region, x, y, width, height, r, row, sqrt);
      var w := width - left - right;
      if w > 0 { region := region + [Rect(x + left, y + row, w, 1)]; }
      row := row + 1;
    }
    AllDone(region, x, y, width, height, r);
    RegionIsSymmetric(region, x, y, width, height, radii);
  }

  lemma NothingIsSymmetric(x: int, y: int, width: int, height: int)
    ensures SameUpsideDown([], y, height) && SameMirrored([], x, width)
  {
  }

  lemma AllDone(region: seq<Rect>, x: int, y: int, width: int, height: int, r: Radii)
    requires Done(region, x, y, width, height, r, TopBand(r), height) && Fits(r, width, height)
    ensures forall px, py :: Covers(region, px, py) <==> InRounded(x, y, width, height, r, px, py)
  {
    hide InRounded, Covers;
    forall px, py ensures Covers(region, px, py) <==> InRounded(x, y, width, height, r, px, py) {
      Moved(x, y, width, height, r, px, py);
      InBox(width, height, r, px - x, py - y);
    }
  }

  lemma TopRowDone(region: seq<Rect>, x: int, y: int, width: int, height: int, r: Radii, row: int, sqrt: Root)
    requires Fits(r, width, height) && 0 <= row < TopBand(r) && IsRoot(sqrt)
    requires Done(region, x, y, width, height, r, row, height - BottomBand(r))
    ensures var left, right := TopInset(r.tl, row, sqrt), TopInset(r.tr, row, sqrt);
      var w := width - left - right;
      var next := if w > 0 then region + [Rect(x + left, y + row, w, 1)] else region;
      w >= 0 && Done(next, x, y, width, height, r, row + 1, height - BottomBand(r))
  {
    hide IsRoot, TopInset, InRounded, Done;
    var left, right := TopInset(r.tl, row, sqrt), TopInset(r.tr, row, sqrt);
    forall i ensures InRow(row, left, right, width, i, row) <==> InRounded(0, 0, width, height, r, i, row) {
      TopRow(width, height, r, row, sqrt, i);
    }
    TopRow(width, height, r, row, sqrt, 0);
    AddRow(region, x, y, width, height, r, row, left, right, row, height - BottomBand(r), row + 1,
      height - BottomBand(r));
  }

  lemma BottomRowDone(region: seq<Rect>, x: int, y: int, width: int, height: int, r: Radii, row: int, sqrt: Root)
    requires Fits(r, width, height) && height - BottomBand(r) <= row < height && IsRoot(sqrt)
    requires Done(region, x, y, width, height, r, TopBand(r), row)
    ensures var left, right := BottomInset(r.bl, row, height, sqrt), BottomInset(r.br, row, height, sqrt);
      var w := width - left - right;
      var next := if w > 0 then region + [Rect(x + left, y + row, w, 1)] else region;
      w >= 0 && Done(next, x, y, width, height, r, TopBand(r), row + 1)
  {
    hide IsRoot, BottomInset, InRounded, Done;
    var left, right := BottomInset(r.bl, row, height, sqrt), BottomInset(r.br, row, height, sqrt);
    forall i ensures InRow(row, left, right, width, i, row) <==> InRounded(0, 0, width, height, r, i, row) {
      BottomRow(width, height, r, row, sqrt, i);
    }
    BottomRow(width, height, r, row, sqrt, 0);
    AddRow(region, x, y, width, height, r, row, left, right, TopBand(r), row, TopBand(r), row + 1);
  }

  /** The region is its own reflection at the middle row of the box. */
  ghost predicate SameUpsideDown(region: seq<Rect>, y: int, height: int) {
    forall px, py :: Covers(region, px, py) <==> Covers(region, px, 2 * y + height - 1 - py)
  }

  /** The region is its own reflection at the middle column of the box. */
  ghost predicate SameMirrored(region: seq<Rect>, x: int, width: int) {
    forall px, py :: Covers(region, px, py) <==> Covers(region, 2 * x + width - 1 - px, py)
  }

  /** A region of the rounded box is its own reflection if the radii, as they are given,
      are equal at top and bottom, or left and right. */
  lemma RegionIsSymmetric(region: seq<Rect>, x: int, y: int, width: int, height: int, radii: Radii)
    requires width > 0 && height > 0
    requires forall px, py ::
      Covers(region, px, py) <==> InRounded(x, y, width, height, ClampedRadii(radii, width, height), px, py)
    ensures radii.tl == radii.bl && radii.tr == radii.br ==> SameUpsideDown(region, y, height)
    ensures radii.tl == radii.tr && radii.bl == radii.br ==> SameMirrored(region, x, width)
  {
    hide InRounded, Covers, ClampedRadii;
    var r := ClampedRadii(radii, width, height);
    ClampedAlike(radii, width, height);
    forall px, py
      ensures r.tl == r.bl && r.tr == r.br ==> (Covers(region, px, py) <==> Covers(region, px, 2 * y + height - 1 - py))
      ensures r.tl == r.tr && r.bl == r.br ==> (Covers(region, px, py) <==> Covers(region, 2 * x + width - 1 - px, py))
    {
      RoundedIsSymmetric(x, y, width, height, r, px, py);
    }
  }

  lemma ClampedAlike(radii: Radii, width: int, height: int)
    requires width > 0 && height > 0
    ensures var r := ClampedRadii(radii, width, height);
      && (radii.tl == radii.bl ==> r.tl == r.bl) && (radii.tr == radii.br ==> r.tr == r.br)
      && (radii.tl == radii.tr ==> r.tl == r.tr) && (radii.bl == radii.br ==> r.bl == r.br)
  {
  }

  lemma RoundedIsSymmetric(x: int, y: int, width: int, height: int, r: Radii, px: int, py: int)
    ensures r.tl == r.bl && r.tr == r.br ==>
      (InRounded(x, y, width, height, r, px, py) <==> InRounded(x, y, width, height, r, px, 2 * y + height - 1 - py))
    ensures r.tl == r.tr && r.bl == r.br ==>
      (InRounded(x, y, width, height, r, px, py) <==> InRounded(x, y, width, height, r, 2 * x + width - 1 - px, py))
  {
    hide Cut;
  }
}
