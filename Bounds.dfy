/**
 * The bounding-region extractor of the Home view: on submit, the canvas'
 * ImageData (width * height RGBA samples) is scanned row by row, and the box
 * enclosing every pixel whose alpha sample is non-zero gives the centre at
 * which the result overlays are placed.
 */
module BoundingRegion {

  /** One sample of the ImageData's Uint8ClampedArray. */
  type Byte = b: int | 0 <= b < 256

  /** The four running values of the scan: minX, minY, maxX, maxY. */
  datatype Box = Box(minX: int, minY: int, maxX: int, maxY: int)

  /** A screen position; the centre halves a sum, so it is real-valued. */
  datatype Point = Point(x: real, y: real)

  function Min(a: int, b: int): int { if a <= b then a else b }

  function Max(a: int, b: int): int { if a >= b then a else b }

  /**
   * The alpha sample of linear pixel p, at index p * 4 + 3. A read past either
   * end of the buffer yields 0: in the source such a read is `undefined`, and
   * `undefined > 0` is false, so the pixel is not ink.
   */
  function AlphaAt(data: seq<Byte>, p: int): Byte
  {
    var i := p * 4 + 3;
    if 0 <= i < |data| then data[i] else 0
  }

  /** Pixel (x, y) of a surface `width` pixels wide is ink when its alpha is non-zero. */
  predicate IsInk(data: seq<Byte>, width: int, x: int, y: int)
  {
    AlphaAt(data, y * width + x) > 0
  }

  /** An ink pixel inside the width x height surface. */
  predicate InkAt(data: seq<Byte>, width: int, height: int, x: int, y: int)
  {
    0 <= x < width && 0 <= y < height && IsInk(data, width, x, y)
  }

  ghost predicate HasInk(data: seq<Byte>, width: int, height: int)
  {
    exists x, y :: InkAt(data, width, height, x, y)
  }

  /** The values before the scan: minX = width, minY = height, maxX = maxY = 0. */
  function Initial(width: nat, height: nat): Box
  {
    Box(width, height, 0, 0)
  }

  /** The four min/max updates the scan makes at an ink pixel. */
  function Include(b: Box, x: int, y: int): Box
  {
    Box(Min(b.minX, x), Min(b.minY, y), Max(b.maxX, x), Max(b.maxY, y))
  }

  /**
   * The box once the inner loop has visited x = 0 .. n - 1 of row y, starting
   * from b: the minima can only fall and the maxima only rise, and a row
   * without ink leaves b as it was.
   */
  function RowScan(data: seq<Byte>, width: nat, y: nat, n: nat, b: Box): (r: Box)
    ensures r.minX <= b.minX && r.minY <= b.minY && r.maxX >= b.maxX && r.maxY >= b.maxY
    ensures (forall x :: 0 <= x < n ==> !IsInk(data, width, x, y)) ==> r == b
  {
    if n == 0 then b
    else
      var c := RowScan(data, width, y, n - 1, b);
      if IsInk(data, width, n - 1, y) then Include(c, n - 1, y) else c
  }

  /**
   * The box once the outer loop has visited rows 0 .. m - 1: never above the
   * initial minima, never below the initial maxima.
   */
  function Scan(data: seq<Byte>, width: nat, height: nat, m: nat): (r: Box)
    ensures r.minX <= width && r.minY <= height && r.maxX >= 0 && r.maxY >= 0
  {
    if m == 0 then Initial(width, height)
    else RowScan(data, width, m - 1, width, Scan(data, width, height, m - 1))
  }

  /** The box the whole scan leaves behind; its properties are the Bounds lemmas below. */
  function Bounds(data: seq<Byte>, width: nat, height: nat): (r: Box)
    ensures r.minX <= width && r.minY <= height && r.maxX >= 0 && r.maxY >= 0
  {
    Scan(data, width, height, height)
  }

  /** The overlay anchor computed from the box: ((minX + maxX) / 2, (minY + maxY) / 2). */
  function Centre(b: Box): (c: Point)
    ensures 2.0 * c.x == (b.minX + b.maxX) as real && 2.0 * c.y == (b.minY + b.maxY) as real
  {
    Point((b.minX + b.maxX) as real / 2.0, (b.minY + b.maxY) as real / 2.0)
  }

  /** Pixel (x, y) has been visited once rows 0 .. m - 1 and x = 0 .. n - 1 of row m are done. */
  predicate Visited(width: int, m: int, n: int, x: int, y: int)
  {
    0 <= x && 0 <= y && ((y < m && x < width) || (y == m && x < n))
  }

  predicate VisitedInk(data: seq<Byte>, width: int, m: int, n: int, x: int, y: int)
  {
    Visited(width, m, n, x, y) && IsInk(data, width, x, y)
  }

  /** The running box r encloses every visited ink pixel. */
  ghost predicate Encloses(data: seq<Byte>, width: int, m: int, n: int, r: Box)
  {
    forall x, y :: VisitedInk(data, width, m, n, x, y) ==>
      r.minX <= x <= r.maxX && r.minY <= y <= r.maxY
  }

  /**
   * Each running value is either still its initial value or the coordinate of
   * a visited ink pixel.
   */
  ghost predicate Attained(data: seq<Byte>, width: nat, height: nat, m: int, n: int, r: Box)
  {
    (r.minX == width || exists y :: VisitedInk(data, width, m, n, r.minX, y)) &&
    (r.maxX == 0 || exists y :: VisitedInk(data, width, m, n, r.maxX, y)) &&
    (r.minY == height || exists x :: VisitedInk(data, width, m, n, x, r.minY)) &&
    (r.maxY == 0 || exists x :: VisitedInk(data, width, m, n, x, r.maxY))
  }

  /** With no visited ink, the running box is still the initial one. */
  ghost predicate Untouched(data: seq<Byte>, width: nat, height: nat, m: int, n: int, r: Box)
  {
    (forall x, y :: !VisitedInk(data, width, m, n, x, y)) ==> r == Initial(width, height)
  }

  /** What the running box knows about the pixels visited so far. */
  ghost predicate Summarises(data: seq<Byte>, width: nat, height: nat, m: int, n: int, r: Box)
  {
    Encloses(data, width, m, n, r) && Attained(data, width, height, m, n, r) &&
    Untouched(data, width, height, m, n, r)
  }

  /** One more visited pixel, (n, m), adds at most that pixel to the visited ink. */
  lemma VisitedGrows(data: seq<Byte>, width: nat, m: nat, n: nat, x: int, y: int)
    ensures VisitedInk(data, width, m, n, x, y) ==> VisitedInk(data, width, m, n + 1, x, y)
    ensures VisitedInk(data, width, m, n + 1, x, y) ==>
      VisitedInk(data, width, m, n, x, y) || (x == n && y == m && IsInk(data, width, n, m))
  {
  }

  lemma EnclosesStep(data: seq<Byte>, width: nat, m: nat, n: nat, r: Box)
    requires Encloses(data, width, m, n, r)
    ensures Encloses(data, width, m, n + 1, if IsInk(data, width, n, m) then Include(r, n, m) else r)
  {
    var s := if IsInk(data, width, n, m) then Include(r, n, m) else r;
    var n1 := n + 1;
    forall x, y | VisitedInk(data, width, m, n1, x, y)
      ensures s.minX <= x <= s.maxX && s.minY <= y <= s.maxY
    {
      VisitedGrows(data, width, m, n, x, y);
    }
  }

  lemma AttainedStep(data: seq<Byte>, width: nat, height: nat, m: nat, n: nat, r: Box)
    requires Attained(data, width, height, m, n, r)
    ensures Attained(data, width, height, m, n + 1, if IsInk(data, width, n, m) then Include(r, n, m) else r)
  {
    var s := if IsInk(data, width, n, m) then Include(r, n, m) else r;
    if s.minX != r.minX {
      assert VisitedInk(data, width, m, n + 1, s.minX, m);
    } else if r.minX != width {
      var y :| VisitedInk(data, width, m, n, r.minX, y);
      VisitedGrows(data, width, m, n, r.minX, y);
    }
    if s.maxX != r.maxX {
      assert VisitedInk(data, width, m, n + 1, s.maxX, m);
    } else if r.maxX != 0 {
      var y :| VisitedInk(data, width, m, n, r.maxX, y);
      VisitedGrows(data, width, m, n, r.maxX, y);
    }
    if s.minY != r.minY {
      assert VisitedInk(data, width, m, n + 1, n, s.minY);
    } else if r.minY != height {
      var x :| VisitedInk(data, width, m, n, x, r.minY);
      VisitedGrows(data, width, m, n, x, r.minY);
    }
    if s.maxY != r.maxY {
      assert VisitedInk(data, width, m, n + 1, n, s.maxY);
    } else if r.maxY != 0 {
      var x :| VisitedInk(data, width, m, n, x, r.maxY);
      VisitedGrows(data, width, m, n, x, r.maxY);
    }
  }

  lemma UntouchedStep(data: seq<Byte>, width: nat, height: nat, m: nat, n: nat, r: Box)
    requires n < width
    requires Untouched(data, width, height, m, n, r)
    ensures Untouched(data, width, height, m, n + 1, if IsInk(data, width, n, m) then Include(r, n, m) else r)
  {
    var n1 := n + 1;
    if IsInk(data, width, n, m) {
      assert VisitedInk(data, width, m, n1, n, m);
    } else if forall x, y :: !VisitedInk(data, width, m, n1, x, y) {
      forall x, y ensures !VisitedInk(data, width, m, n, x, y) {
        VisitedGrows(data, width, m, n, x, y);
      }
    }
  }

  /** Visiting pixel (n, m) keeps the summary. */
  lemma SummarisesStep(data: seq<Byte>, width: nat, height: nat, m: nat, n: nat, r: Box)
    requires n < width
    requires Summarises(data, width, height, m, n, r)
    ensures Summarises(data, width, height, m, n + 1,
                       if IsInk(data, width, n, m) then Include(r, n, m) else r)
  {
    EnclosesStep(data, width, m, n, r);
    AttainedStep(data, width, height, m, n, r);
    UntouchedStep(data, width, height, m, n, r);
  }

  /** The inner loop keeps the summary across a row. */
  lemma {:induction false} RowScanSummarises(data: seq<Byte>, width: nat, height: nat, m: nat, n: nat, b: Box)
    requires n <= width
    requires Summarises(data, width, height, m, 0, b)
    ensures Summarises(data, width, height, m, n, RowScan(data, width, m, n, b))
  {
    if n > 0 {
      RowScanSummarises(data, width, height, m, n - 1, b);
      SummarisesStep(data, width, height, m, n - 1, RowScan(data, width, m, n - 1, b));
    }
  }

  /** A finished row is the same visited region as the start of the next one. */
  lemma RowDoneVisited(data: seq<Byte>, width: nat, m: nat, m1: nat, x: int, y: int)
    requires m1 == m + 1
    ensures VisitedInk(data, width, m, width, x, y) == VisitedInk(data, width, m1, 0, x, y)
  {
  }

  lemma RowDone(data: seq<Byte>, width: nat, height: nat, m: nat, r: Box)
    requires Summarises(data, width, height, m, width, r)
    ensures Summarises(data, width, height, m + 1, 0, r)
  {
    var m1 := m + 1;
    forall x, y | VisitedInk(data, width, m1, 0, x, y)
      ensures r.minX <= x <= r.maxX && r.minY <= y <= r.maxY
    {
      RowDoneVisited(data, width, m, m1, x, y);
    }
    if r.minX != width {
      var y :| VisitedInk(data, width, m, width, r.minX, y);
      RowDoneVisited(data, width, m, m1, r.minX, y);
    }
    if r.maxX != 0 {
      var y :| VisitedInk(data, width, m, width, r.maxX, y);
      RowDoneVisited(data, width, m, m1, r.maxX, y);
    }
    if r.minY != height {
      var x :| VisitedInk(data, width, m, width, x, r.minY);
      RowDoneVisited(data, width, m, m1, x, r.minY);
    }
    if r.maxY != 0 {
      var x :| VisitedInk(data, width, m, width, x, r.maxY);
      RowDoneVisited(data, width, m, m1, x, r.maxY);
    }
    if forall x, y :: !VisitedInk(data, width, m1, 0, x, y) {
      forall x, y ensures !VisitedInk(data, width, m, width, x, y) {
        RowDoneVisited(data, width, m, m1, x, y);
      }
    }
  }

  /** The outer loop keeps the summary. */
  lemma {:induction false} ScanSummarises(data: seq<Byte>, width: nat, height: nat, m: nat)
    ensures Summarises(data, width, height, m, 0, Scan(data, width, height, m))
  {
    if m > 0 {
      ScanSummarises(data, width, height, m - 1);
      var b := Scan(data, width, height, m - 1);
      RowScanSummarises(data, width, height, m - 1, width, b);
      RowDone(data, width, height, m - 1, RowScan(data, width, m - 1, width, b));
    }
  }

  lemma VisitedAllIsInk(data: seq<Byte>, width: nat, height: nat, x: int, y: int)
    ensures VisitedInk(data, width, height, 0, x, y) == InkAt(data, width, height, x, y)
  {
  }

  /**
   * Soundness: every ink pixel lies inside the box, so with any ink the box is
   * not inverted.
   */
  lemma BoundsSound(data: seq<Byte>, width: nat, height: nat)
    ensures var b := Bounds(data, width, height);
      (forall x, y :: InkAt(data, width, height, x, y) ==>
         b.minX <= x <= b.maxX && b.minY <= y <= b.maxY) &&
      (HasInk(data, width, height) ==> b.minX <= b.maxX && b.minY <= b.maxY)
  {
    ScanSummarises(data, width, height, height);
    var b := Bounds(data, width, height);
    forall x, y | InkAt(data, width, height, x, y)
      ensures b.minX <= x <= b.maxX && b.minY <= y <= b.maxY
    {
      assert VisitedInk(data, width, height, 0, x, y);
    }
  }

  /** Tightness: with ink present, each side of the box touches an ink pixel. */
  lemma BoundsTight(data: seq<Byte>, width: nat, height: nat)
    requires HasInk(data, width, height)
    ensures var b := Bounds(data, width, height);
      (exists y :: InkAt(data, width, height, b.minX, y)) &&
      (exists y :: InkAt(data, width, height, b.maxX, y)) &&
      (exists x :: InkAt(data, width, height, x, b.minY)) &&
      (exists x :: InkAt(data, width, height, x, b.maxY))
  {
    ScanSummarises(data, width, height, height);
    BoundsSound(data, width, height);
    var b := Bounds(data, width, height);
    var x0, y0 :| InkAt(data, width, height, x0, y0);
    assert VisitedInk(data, width, height, 0, x0, y0);
    if b.minX == width {
      assert false;
    }
    var y1 :| VisitedInk(data, width, height, 0, b.minX, y1);
    assert InkAt(data, width, height, b.minX, y1);
    if b.maxX == 0 {
      assert InkAt(data, width, height, b.maxX, y0);
    } else {
      var y2 :| VisitedInk(data, width, height, 0, b.maxX, y2);
      assert InkAt(data, width, height, b.maxX, y2);
    }
    if b.minY == height {
      assert false;
    }
    var x1 :| VisitedInk(data, width, height, 0, x1, b.minY);
    assert InkAt(data, width, height, x1, b.minY);
    if b.maxY == 0 {
      assert InkAt(data, width, height, x0, b.maxY);
    } else {
      var x2 :| VisitedInk(data, width, height, 0, x2, b.maxY);
      assert InkAt(data, width, height, x2, b.maxY);
    }
  }

  /** Without ink the running values keep their initial values, and the centre is (width/2, height/2). */
  lemma BoundsEmpty(data: seq<Byte>, width: nat, height: nat)
    requires !HasInk(data, width, height)
    ensures Bounds(data, width, height) == Box(width, height, 0, 0)
    ensures Centre(Bounds(data, width, height)) == Point(width as real / 2.0, height as real / 2.0)
  {
    ScanSummarises(data, width, height, height);
    forall x, y ensures !VisitedInk(data, width, height, 0, x, y) {
      VisitedAllIsInk(data, width, height, x, y);
    }
  }

  /** Ink filling exactly the rectangle [x0, x1] x [y0, y1] gives that rectangle and its centre. */
  lemma BoundsOfRectangle(data: seq<Byte>, width: nat, height: nat, x0: int, y0: int, x1: int, y1: int)
    requires 0 <= x0 <= x1 < width && 0 <= y0 <= y1 < height
    requires forall x, y :: InkAt(data, width, height, x, y) <==> (0 <= x < width && 0 <= y < height && x0 <= x <= x1 && y0 <= y <= y1)
    ensures Bounds(data, width, height) == Box(x0, y0, x1, y1)
    ensures Centre(Bounds(data, width, height)) == Point((x0 + x1) as real / 2.0, (y0 + y1) as real / 2.0)
  {
    assert InkAt(data, width, height, x0, y0);
    BoundsSound(data, width, height);
    BoundsTight(data, width, height);
    assert InkAt(data, width, height, x1, y1);
  }

  /** The inner loop only looks at alpha samples. */
  lemma {:induction false} RowScanAlphaOnly(d1: seq<Byte>, d2: seq<Byte>, width: nat, y: nat, n: nat, b: Box)
    requires forall p :: AlphaAt(d1, p) == AlphaAt(d2, p)
    ensures RowScan(d1, width, y, n, b) == RowScan(d2, width, y, n, b)
  {
    if n > 0 {
      RowScanAlphaOnly(d1, d2, width, y, n - 1, b);
      assert IsInk(d1, width, n - 1, y) == IsInk(d2, width, n - 1, y);
    }
  }

  lemma {:induction false} ScanAlphaOnly(d1: seq<Byte>, d2: seq<Byte>, width: nat, height: nat, m: nat)
    requires forall p :: AlphaAt(d1, p) == AlphaAt(d2, p)
    ensures Scan(d1, width, height, m) == Scan(d2, width, height, m)
  {
    if m > 0 {
      ScanAlphaOnly(d1, d2, width, height, m - 1);
      RowScanAlphaOnly(d1, d2, width, m - 1, width, Scan(d1, width, height, m - 1));
    }
  }

  /** Two buffers that agree on every alpha sample give the same box. */
  lemma BoundsAlphaOnly(d1: seq<Byte>, d2: seq<Byte>, width: nat, height: nat)
    requires forall p :: AlphaAt(d1, p) == AlphaAt(d2, p)
    ensures Bounds(d1, width, height) == Bounds(d2, width, height)
  {
    ScanAlphaOnly(d1, d2, width, height, height);
  }

  /** Overwriting a red, green or blue sample never changes the box. */
  lemma BoundsIgnoreColour(data: seq<Byte>, width: nat, height: nat, i: int, v: Byte)
    requires 0 <= i < |data| && i % 4 != 3
    ensures Bounds(data[i := v], width, height) == Bounds(data, width, height)
  {
    forall p ensures AlphaAt(data[i := v], p) == AlphaAt(data, p) {
      assert (p * 4 + 3) % 4 == 3;
    }
    BoundsAlphaOnly(data[i := v], data, width, height);
  }

  /** The sample index (y * width + x) * 4 + 3 of a pixel inside the surface lies inside the buffer. */
  lemma AlphaIndexInBuffer(width: nat, height: nat, x: nat, y: nat)
    requires x < width && y < height
    ensures 0 <= (y * width + x) * 4 + 3 < width * height * 4
  {
    assert y * width + x < (y + 1) * width;
    assert (y + 1) * width <= height * width;
  }

  /**
   * The nested scan of the source over the ImageData samples. It reads the
   * buffer only (no modifies clause), and every index it reads is in range.
   */
  method ScanBounds(data: array<Byte>, width: nat, height: nat) returns (b: Box)
    requires data.Length == width * height * 4
    ensures b == Bounds(data[..], width, height)
  {
    b := Initial(width, height);
    var y := 0;
    while y < height
      invariant 0 <= y <= height
      invariant b == Scan(data[..], width, height, y)
    {
      ghost var rowStart := b;
      var x := 0;
      while x < width
        invariant 0 <= x <= width
        invariant b == RowScan(data[..], width, y, x, rowStart)
      {
        AlphaIndexInBuffer(width, height, x, y);
        var i := (y * width + x) * 4;
        if data[i + 3] > 0 {
          b := Box(Min(b.minX, x), Min(b.minY, y), Max(b.maxX, x), Max(b.maxY, y));
        }
        x := x + 1;
      }
      y := y + 1;
    }
  }
}
