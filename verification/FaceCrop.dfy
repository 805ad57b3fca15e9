/**
 Framing a reference photo on its largest face: the crop square and the padded canvas. Coordinates
 are exact reals here; pixels are addressed [row, column].
 */
module FaceCrop {
  import opened Wrappers

  type Pixel = (int, int, int)

  const FILLER: Pixel := (20, 20, 20)

  datatype Box = Box(x1: real, y1: real, x2: real, y2: real) {
    function Width(): real { x2 - x1 }
    function Height(): real { y2 - y1 }
    function CenterX(): real { (x1 + x2) / 2.0 }
    function CenterY(): real { (y1 + y2) / 2.0 }
    function Larger(): real { if Width() < Height() then Height() else Width() }
    predicate Proper() { x1 <= x2 && y1 <= y2 }
  }

  /** Python's `round`: to the nearest integer, ties to the even one. */
  function Round(x: real): int {
    var f := x.Floor;
    if x - f as real < 0.5 || (x - f as real == 0.5 && f % 2 == 0) then f else f + 1
  }

  lemma RoundNear(x: real)
    ensures x - 0.5 <= Round(x) as real <= x + 0.5
  {}

  lemma RoundMonotone(x: real, y: real)
    requires x <= y
    ensures Round(x) <= Round(y)
  {
    if x.Floor < y.Floor {
    } else {
      assert x.Floor == y.Floor;
    }
  }

  function ExactSide(b: Box): real { b.Larger() * 2.3 }
  function Left(b: Box): int { Round(b.CenterX() - ExactSide(b) / 2.0) }
  function Top(b: Box): int { Round(b.CenterY() - ExactSide(b) * 0.42) }
  function Side(b: Box): int { Round(ExactSide(b)) }

  // ---------------------------------------------------------------------------------------------
  // The face stays inside the square
  // ---------------------------------------------------------------------------------------------

  /** The face box lies wholly inside the crop square. */
  predicate Inside(b: Box) {
    && Left(b) as real <= b.x1 && b.x2 <= (Left(b) + Side(b)) as real
    && Top(b) as real <= b.y1 && b.y2 <= (Top(b) + Side(b)) as real
  }

  /** The sizes at which rounding never cuts a face off: above 25/23 of a pixel, except between 50/33
      and 35/23. */
  predicate SafeSize(side: real) {
    (25.0 < 23.0 * side && 33.0 * side <= 50.0) || 35.0 <= 23.0 * side
  }

  /** The side of the square in pixels, against the size of the face. */
  lemma SideOf(larger: real)
    ensures var n := Round(larger * 2.3);
            && larger * 2.3 - 0.5 <= n as real <= larger * 2.3 + 0.5
            && (25.0 < 23.0 * larger ==> 3 <= n)
            && (35.0 <= 23.0 * larger ==> 4 <= n)
            && (23.0 * larger <= 25.0 ==> n <= 2)
            && (23.0 * larger < 35.0 ==> n <= 3)
  {
    RoundNear(larger * 2.3);
    if 25.0 < 23.0 * larger { HalfPast(larger * 2.3, 2); }
    if 35.0 <= 23.0 * larger { HalfPast(larger * 2.3, 3); }
    if 23.0 * larger <= 25.0 { RoundMonotone(larger * 2.3, 2.5); TwoAndAHalf(); }
  }

  lemma HalfPast(x: real, n: int)
    requires n as real + 0.5 <= x && (n % 2 == 1 || n as real + 0.5 < x)
    ensures n + 1 <= Round(x)
  {}

  lemma TwoAndAHalf()
    ensures Round(2.5) == 2 && Round(0.5) == 0 && Round(1.5) == 2
  {
    assert (2.5).Floor == 2 && (0.5).Floor == 0 && (1.5).Floor == 1;
  }

  /** A face of a safe size lies wholly inside the crop, wherever it is. */
  lemma FaceInsideSquare(b: Box)
    requires b.Proper() && SafeSize(b.Larger())
    ensures Inside(b)
  {
    RoundNear(b.CenterX() - ExactSide(b) / 2.0);
    RoundNear(b.CenterY() - ExactSide(b) * 0.42);
    SideOf(b.Larger());
  }

  /** A square face of the given size whose crop starts, before rounding, at the given point. */
  function SquareFace(side: real, left: real, top: real): Box {
    Box(left + 0.65 * side, top + 0.466 * side, left + 1.65 * side, top + 1.466 * side)
  }

  lemma SquareFaceStarts(side: real, left: real, top: real)
    requires 0.0 <= side
    ensures var b := SquareFace(side, left, top);
            && b.Proper() && b.Larger() == side
            && b.CenterX() - ExactSide(b) / 2.0 == left && b.CenterY() - ExactSide(b) * 0.42 == top
  {}

  /** Every other size is cut off somewhere: on top up to 250/233 of a pixel, on the right above that. */
  lemma FaceCutOff(side: real) returns (b: Box)
    requires 0.0 <= side && !SafeSize(side)
    ensures b.Proper() && b.Larger() == side && !Inside(b)
  {
    TwoAndAHalf();
    if 233.0 * side < 250.0 {
      b := SquareFace(side, 0.5, 1.5);
      SquareFaceStarts(side, 0.5, 1.5);
      assert Top(b) == 2;
    } else {
      b := SquareFace(side, 0.5, 0.5);
      SquareFaceStarts(side, 0.5, 0.5);
      SideOf(side);
      assert Left(b) == 0;
    }
  }

  /** So the face is inside at every position exactly for the safe sizes. */
  lemma FaceInsideIff(side: real)
    requires 0.0 <= side
    ensures (forall b: Box :: b.Proper() && b.Larger() == side ==> Inside(b)) <==> SafeSize(side)
  {
    if SafeSize(side) {
      forall b: Box | b.Proper() && b.Larger() == side ensures Inside(b) { FaceInsideSquare(b); }
    } else {
      var b := FaceCutOff(side);
      assert b.Proper() && b.Larger() == side && !Inside(b);
    }
  }

  // ---------------------------------------------------------------------------------------------
  // The canvas
  // ---------------------------------------------------------------------------------------------

  predicate CenteredIn(b: Box, width: nat, height: nat) {
    0.0 <= b.CenterX() <= width as real && 0.0 <= b.CenterY() <= height as real
  }

  /** For a box centred inside the image the region to copy is never inverted, so cropping it cannot
      fail, and it fits the canvas. */
  lemma RegionFits(b: Box, width: nat, height: nat)
    requires b.Proper() && CenteredIn(b, width, height)
    ensures 0 <= Side(b)
    ensures Max(0, Left(b)) <= Min(width, Left(b) + Side(b)) && Max(0, Top(b)) <= Min(height, Top(b) + Side(b))
  {
    AxisFits(b.CenterX(), ExactSide(b), ExactSide(b) / 2.0, width);
    AxisFits(b.CenterY(), ExactSide(b), ExactSide(b) * 0.42, height);
  }

  lemma AxisFits(c: real, side: real, shift: real, extent: nat)
    requires 0.0 <= c <= extent as real && 0.0 <= shift <= side / 2.0
    ensures 0 <= Round(side) && Max(0, Round(c - shift)) <= Min(extent, Round(c - shift) + Round(side))
  {
    RoundMonotone(0.0, side);
    RoundMonotone(c - shift, extent as real);
    RoundNear(c - shift);
    RoundNear(side);
    if side == 0.0 {
      RoundMonotone(0.0, c);
    } else {
      SpanReachesZero(c, side, shift, Round(c - shift), Round(side));
    }
  }

  lemma SpanReachesZero(c: real, side: real, shift: real, low: int, n: int)
    requires 0.0 <= c && 0.0 < side && shift <= side / 2.0
    requires c - shift - 0.5 <= low as real && side - 0.5 <= n as real
    ensures 0 <= low + n
  {
    assert (low + n) as real == low as real + n as real;
  }

  method Crop(ref: array2<Pixel>, left: nat, top: nat, right: nat, bottom: nat) returns (region: array2<Pixel>)
    requires left <= right <= ref.Length1 && top <= bottom <= ref.Length0
    ensures fresh(region) && region.Length0 == bottom - top && region.Length1 == right - left
    ensures forall i, j :: 0 <= i < region.Length0 && 0 <= j < region.Length1 ==> region[i, j] == ref[top + i, left + j]
  {
    region := new Pixel[bottom - top, right - left];
    forall i, j | 0 <= i < region.Length0 && 0 <= j < region.Length1 {
      region[i, j] := ref[top + i, left + j];
    }
  }

  method Paste(canvas: array2<Pixel>, region: array2<Pixel>, sx: nat, sy: nat)
    requires region != canvas && sy + region.Length0 <= canvas.Length0 && sx + region.Length1 <= canvas.Length1
    modifies canvas
    ensures forall i, j :: 0 <= i < canvas.Length0 && 0 <= j < canvas.Length1 ==>
              canvas[i, j] == if sy <= i < sy + region.Length0 && sx <= j < sx + region.Length1
                              then region[i - sy, j - sx] else old(canvas[i, j])
  {
    forall i, j | sy <= i < sy + region.Length0 && sx <= j < sx + region.Length1 {
      canvas[i, j] := region[i - sy, j - sx];
    }
  }

  /** The padded square around one face, before it is resized: the reference moved by (left, top),
      with filler wherever that falls outside the reference. */
  method FrameFace(ref: array2<Pixel>, b: Box) returns (canvas: array2<Pixel>)
    requires b.Proper() && CenteredIn(b, ref.Length1, ref.Length0)
    ensures canvas.Length0 == canvas.Length1 == Side(b)
    ensures forall i, j :: 0 <= i < Side(b) && 0 <= j < Side(b) ==>
              canvas[i, j] == if 0 <= Top(b) + i < ref.Length0 && 0 <= Left(b) + j < ref.Length1
                              then ref[Top(b) + i, Left(b) + j] else FILLER
  {
    RegionFits(b, ref.Length1, ref.Length0);
    var left, top, side := Left(b), Top(b), Side(b);
    canvas := new Pixel[side, side]((i, j) => FILLER);
    var sx, sy := Max(0, -left), Max(0, -top);
    var region := Crop(ref, Max(0, left), Max(0, top), Min(ref.Length1, left + side), Min(ref.Length0, top + side));
    Paste(canvas, region, sx, sy);
  }

  /** The face that is framed: the last of those with the largest area. */
  function Area(b: Box): real { b.Width() * b.Height() }

  function LargestFace(faces: seq<Box>): (k: nat)
    requires faces != []
    ensures k < |faces|
  {
    if |faces| == 1 then 0
    else
      var k := LargestFace(faces[..|faces| - 1]);
      if Area(faces[k]) <= Area(faces[|faces| - 1]) then |faces| - 1 else k
  }

  lemma {:induction false} LargestFaceIsLast(faces: seq<Box>)
    requires faces != []
    ensures var k := LargestFace(faces);
            && k < |faces|
            && (forall i :: 0 <= i < |faces| ==> Area(faces[i]) <= Area(faces[k]))
            && (forall i :: k < i < |faces| ==> Area(faces[i]) < Area(faces[k]))
  {
    if |faces| > 1 { LargestFaceIsLast(faces[..|faces| - 1]); }
  }
}
