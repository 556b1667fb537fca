/**
 * The stand-alone detection script `detect_card.py`: the same pipeline
 * with a fixed 60 x 113 mm target at 10 pixels per millimetre and a
 * fixed threshold, which, like all image processing, is outside the
 * model. It prints instead of returning, so the model returns
 * what it would write, or nothing when it stops early.
 */
module DetectScript {
  import opened Wrappers
  import opened Corners
  import opened Extraction

  const WidthMm := 60
  const HeightMm := 113
  const Ppi := 10

  /**
   * `detourer_carte_precise(image_path)` of the script: `loaded` tells
   * whether `cv2.imread` found the image. Unlike the application's
   * extractor, it has no check for contours of fewer than four points.
   */
  function RunScript(loaded: bool, contours: seq<Contour>): (r: Option<Rectified>)
    ensures r.Some? <==> loaded && contours != []
  {
    if !loaded || contours == [] then None
    else Some(Rectify(OrderPoints(contours[Largest(contours)]), Pixels(WidthMm, Ppi), Pixels(HeightMm, Ppi), Ppi))
  }

  /** The script's card is 600 x 1130 pixels with a 30-pixel corner radius. */
  lemma ScriptTarget(loaded: bool, contours: seq<Contour>)
    requires RunScript(loaded, contours).Some?
    ensures var card := RunScript(loaded, contours).value;
      card.width == 600 && card.height == 1130 && card.radius == 30 &&
      card.target == BoxCorners(0, 0, 599, 1129)
  {
  }

  /**
   * The script orders corners with the same definition as the
   * application: its corners come from the chosen contour and are the
   * extremes of x + y and y - x over it.
   */
  lemma ScriptCorners(loaded: bool, contours: seq<Contour>)
    requires RunScript(loaded, contours).Some?
    ensures var c := contours[Largest(contours)];
      var rect := RunScript(loaded, contours).value.source;
      rect == OrderPoints(c) &&
      (forall i :: 0 <= i < 4 ==> rect[i] in c) &&
      (forall p :: p in c ==>
        Sum(rect[0]) <= Sum(p) && Diff(rect[1]) <= Diff(p) &&
        Sum(p) <= Sum(rect[2]) && Diff(p) <= Diff(rect[3]))
  {
    OrderPointsExtremes(contours[Largest(contours)]);
  }

  /**
   * Where the script and the application part ways: for a chosen contour
   * of fewer than four points the script still rectifies (all corners
   * drawn from those few points) while the application reports a contour
   * too small, at the same size.
   */
  lemma ShortContourDiffers(p: Point)
    ensures RunScript(true, [[p]]).Some?
    ensures RunScript(true, [[p]]).value.source == [p, p, p, p]
    ensures Detect([[p]], WidthMm, HeightMm, Ppi) == Detection(None, false, BadContour)
  {
    assert Largest([[p]]) == 0;
  }
}
