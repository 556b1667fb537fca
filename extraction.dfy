/**
 * The control flow and the integer geometry of the card extractor
 * `detourer_carte_precise` in the application: choose the largest
 * contour, order its corners, and fix the size of the rectified card,
 * its destination corners and the rounded-corner mask.
 * The image operations (grey conversion, blur, threshold, contour
 * tracing, perspective warp, mask drawing) are outside the model:
 * the traced contours are an input.
 */
module Extraction {
  import opened Wrappers
  import opened Corners
  import Decimal

  /** A traced boundary; `cv2.findContours` never yields one without points. */
  type Contour = c: seq<Point> | c != [] witness [Point(0, 0)]

  /** A filled rectangle of the mask, from one corner pixel to the opposite one. */
  datatype Box = Box(from: Point, to: Point)

  /** What the extractor computes for a card it accepts. */
  datatype Rectified = Rectified(
    source: seq<Point>,   // corners of the card in the photo, in canonical order
    target: seq<Point>,   // where those corners go in the output
    width: int,           // output size in pixels
    height: int,
    radius: int,          // corner radius of the mask, in pixels
    bands: seq<Box>,      // the two rectangles that make the mask's cross
    centres: seq<Point>)  // centres of the four corner discs

  /** The triple `(image or None, success, message)`. */
  datatype Detection = Detection(card: Option<Rectified>, success: bool, message: string)

  const NoContour := "Aucun contour détecté."
  const BadContour := "Contour trop petit ou invalide."

  /** Twice the signed area enclosed by `c`, by the shoelace formula. */
  function ShoelaceFrom(c: seq<Point>, i: nat): int
    requires i <= |c|
    decreases |c| - i
  {
    if i == |c| then 0
    else
      var p, q := c[i], c[(i + 1) % |c|];
      p.x * q.y - q.x * p.y + ShoelaceFrom(c, i + 1)
  }

  /** `cv2.contourArea`, doubled so that it stays an integer; it orders contours the same way. */
  function Area2(c: Contour): (a: int)
    ensures a >= 0
  {
    var s := ShoelaceFrom(c, 0);
    if s < 0 then -s else s
  }

  /** The index of the contour `max(cnts, key=cv2.contourArea)` returns. */
  function Largest(contours: seq<Contour>): (k: nat)
    requires |contours| > 0
    ensures k < |contours|
  {
    ArgMax(contours, Area2)
  }

  /**
   * The output of the warp and of the mask for a `w` x `h` card: the
   * destination rectangle, the radius `int(3 * ppi)`, the two rectangles
   * drawn first and the four disc centres, listed as the source lists them.
   */
  function Rectify(source: seq<Point>, w: int, h: int, ppi: int): Rectified
  {
    var r := 3 * ppi;
    Rectified(
      source,
      [Point(0, 0), Point(w - 1, 0), Point(w - 1, h - 1), Point(0, h - 1)],
      w, h, r,
      [Box(Point(r, 0), Point(w - r, h)), Box(Point(0, r), Point(w, h - r))],
      [Point(r, r), Point(w - r, r), Point(r, h - r), Point(w - r, h - r)])
  }

  /** The success message, embedding the pixel size. */
  function Detected(w: nat, h: nat): string
  {
    "Carte détectée (" + Decimal.Digits(w) + "x" + Decimal.Digits(h) + "px)"
  }

  /**
   * `detourer_carte_precise(image, L_mm, H_mm, ppi, seuil)` for the
   * contours the thresholded image yields.
   */
  function Detect(contours: seq<Contour>, widthMm: nat, heightMm: nat, ppi: nat): (r: Detection)
    ensures r.success <==> r.card.Some?
  {
    if contours == [] then Detection(None, false, NoContour)
    else if |contours[Largest(contours)]| < 4 then Detection(None, false, BadContour)
    else Accept(contours[Largest(contours)], Pixels(widthMm, ppi), Pixels(heightMm, ppi), ppi)
  }

  /** `L_mm * ppi`: a length in millimetres as a whole number of pixels. */
  function Pixels(mm: nat, ppi: nat): nat
  {
    mm * ppi
  }

  /** The successful outcome for contour `c` and a `w` x `h` pixel target. */
  function Accept(c: Contour, w: nat, h: nat, ppi: nat): Detection
  {
    Detection(Some(Rectify(OrderPoints(c), w, h, ppi)), true, Detected(w, h))
  }

  /** With no contour at all the extractor reports that nothing was detected. */
  lemma NoContourFails(widthMm: nat, heightMm: nat, ppi: nat)
    ensures Detect([], widthMm, heightMm, ppi) == Detection(None, false, NoContour)
  {
  }

  /**
   * The extractor succeeds exactly when there is a contour and the first
   * contour of largest area has at least four points; otherwise it reports
   * a contour too small. On success it rectifies that contour to
   * `L_mm * ppi` by `H_mm * ppi` pixels.
   */
  lemma DetectOutcome(contours: seq<Contour>, widthMm: nat, heightMm: nat, ppi: nat)
    requires contours != []
    ensures var r := Detect(contours, widthMm, heightMm, ppi);
      var c := contours[Largest(contours)];
      (r.success <==> |c| >= 4) &&
      (!r.success ==> r == Detection(None, false, BadContour)) &&
      (r.success ==> r == Accept(c, Pixels(widthMm, ppi), Pixels(heightMm, ppi), ppi))
  {
    var c := contours[Largest(contours)];
    if |c| >= 4 {
      assert Detect(contours, widthMm, heightMm, ppi) == Accept(c, Pixels(widthMm, ppi), Pixels(heightMm, ppi), ppi);
    } else {
      assert Detect(contours, widthMm, heightMm, ppi) == Detection(None, false, BadContour);
    }
  }

  /** The contour chosen is the first one whose area no other contour exceeds. */
  lemma LargestIsFirstMaximal(contours: seq<Contour>)
    requires contours != []
    ensures var k := Largest(contours);
      (forall j :: 0 <= j < |contours| ==> Area2(contours[j]) <= Area2(contours[k])) &&
      (forall j :: 0 <= j < k ==> Area2(contours[j]) < Area2(contours[k]))
  {
  }

  /**
   * An accepted card is `w` x `h` pixels, its source corners are the
   * ordered corners of the contour, the destination corners are those of
   * the output rectangle in the same canonical order, the corner radius
   * is `3 * ppi`, and the message names the size.
   */
  lemma AcceptGeometry(c: Contour, w: nat, h: nat, ppi: nat)
    ensures var r := Accept(c, w, h, ppi);
      r.success && r.card.Some? &&
      var card := r.card.value;
      card.width == w && card.height == h &&
      card.source == OrderPoints(c) &&
      card.target == BoxCorners(0, 0, w - 1, h - 1) &&
      card.radius == 3 * ppi &&
      r.message == "Carte détectée (" + Decimal.Digits(w) + "x" + Decimal.Digits(h) + "px)"
  {
  }

  /**
   * The destination corners are already in the order `OrderPoints`
   * produces, so perspective correction maps top-left to top-left and
   * so on, for any card at least two pixels wide and high.
   */
  lemma TargetIsCanonical(source: seq<Point>, w: int, h: int, ppi: int)
    requires w >= 2 && h >= 2
    ensures OrderPoints(Rectify(source, w, h, ppi).target) == Rectify(source, w, h, ppi).target
  {
    FourCornersAnyOrder(Rectify(source, w, h, ppi).target, 0, 0, w - 1, h - 1);
  }

  /**
   * The four disc centres are the four points inset by the radius from
   * the corners of the card, and each of the two mask rectangles is the
   * full card cut back by the radius on two opposite sides.
   */
  lemma MaskLayout(source: seq<Point>, w: int, h: int, ppi: int)
    ensures var card := Rectify(source, w, h, ppi);
      var r := card.radius;
      |card.centres| == 4 &&
      (forall p :: p in card.centres <==>
        (p.x == r || p.x == w - r) && (p.y == r || p.y == h - r)) &&
      card.bands == [Box(Point(r, 0), Point(w - r, h)), Box(Point(0, r), Point(w, h - r))]
  {
  }

  /** The message names the width and the height, which can be read back from it. */
  lemma MessageNamesSize(w: nat, h: nat)
    ensures var m := Detected(w, h);
      var dw, dh := Decimal.Digits(w), Decimal.Digits(h);
      m[|"Carte détectée ("|..|"Carte détectée ("| + |dw|] == dw &&
      m[|"Carte détectée ("| + |dw|] == 'x' &&
      m[|"Carte détectée ("| + |dw| + 1..|m| - 3] == dh &&
      Decimal.Value(dw) == w && Decimal.Value(dh) == h
  {
    Decimal.ValueOfDigits(w);
    Decimal.ValueOfDigits(h);
  }
}
