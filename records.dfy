/**
 * The records the capture scripts and the web pages exchange: detector boxes,
 * eye points, the captured face geometry and the body POSTed to `/save`.
 */
module Records {

  /** A rectangle `(x, y, w, h)` as a Haar cascade reports it. */
  datatype Box = Box(x: int, y: int, w: int, h: int)

  /** An `{x, y}` pixel coordinate. */
  datatype Point = Point(x: int, y: int)

  /** The `{face_width, face_height, eyes}` object both capture scripts build. */
  datatype FaceData = FaceData(faceWidth: int, faceHeight: int, eyes: seq<Point>)

  /** The `face` value of a stored user: an opaque encoded text or the structured geometry. */
  datatype StoredFace = Encoded(text: string) | Structured(geometry: FaceData)

  /** The `{name, department, face}` body POSTed to the `/save` endpoint. */
  datatype SaveRequest = SaveRequest(name: string, department: string, face: FaceData)

  /**
   * Centre of an eye box detected in the face's region of interest, translated to frame
   * coordinates: `x + ex + ew // 2`. Python's `//` floors; Dafny's `/` floors too when the
   * divisor is positive, so `eye.w / 2` is the same number for every `eye.w`.
   */
  function Centre(face: Box, eye: Box): (p: Point)
    ensures 2 * (p.x - face.x - eye.x) <= eye.w < 2 * (p.x - face.x - eye.x) + 2
    ensures 2 * (p.y - face.y - eye.y) <= eye.h < 2 * (p.y - face.y - eye.y) + 2
  {
    Point(face.x + eye.x + eye.w / 2, face.y + eye.y + eye.h / 2)
  }

  /** The eye box lies inside the face's region of interest, in that region's coordinates. */
  predicate InsideRegion(face: Box, eye: Box)
  {
    0 <= eye.x && 0 < eye.w && eye.x + eye.w <= face.w &&
    0 <= eye.y && 0 < eye.h && eye.y + eye.h <= face.h
  }

  /** A point lies in the face rectangle. */
  predicate InsideFace(face: Box, p: Point)
  {
    face.x <= p.x < face.x + face.w && face.y <= p.y < face.y + face.h
  }

  /** An eye box inside the region of interest has its centre inside the face rectangle. */
  lemma CentreInsideFace(face: Box, eye: Box)
    requires InsideRegion(face, eye)
    ensures InsideFace(face, Centre(face, eye))
  {
    var p := Centre(face, eye);
    assert 2 * (p.x - face.x - eye.x) <= eye.w < 2 * (p.x - face.x - eye.x) + 2;
    assert 2 * (p.y - face.y - eye.y) <= eye.h < 2 * (p.y - face.y - eye.y) + 2;
  }

  /**
   * The list comprehension over `eyes[:2]`: the translated centres of the first two eye
   * boxes, in detection order (no left/right sorting); fewer if fewer were detected.
   */
  function EyeCentres(face: Box, eyes: seq<Box>): (r: seq<Point>)
    ensures |r| == if |eyes| < 2 then |eyes| else 2
    ensures forall i :: 0 <= i < |r| ==> r[i] == Centre(face, eyes[i])
  {
    var n := if |eyes| < 2 then |eyes| else 2;
    seq(n, i requires 0 <= i < n => Centre(face, eyes[i]))
  }

  /** The `captured_data` dictionary built from the face box and the detected eye boxes. */
  function CaptureData(face: Box, eyes: seq<Box>): (d: FaceData)
    requires |eyes| >= 2
    ensures d.faceWidth == face.w && d.faceHeight == face.h
    ensures |d.eyes| == 2
    ensures d.eyes[0] == Centre(face, eyes[0]) && d.eyes[1] == Centre(face, eyes[1])
  {
    FaceData(face.w, face.h, EyeCentres(face, eyes))
  }

  /** Eye boxes beyond the first two do not influence the captured data. */
  lemma CapturedIgnoresExtraEyes(face: Box, eyes: seq<Box>, extra: seq<Box>)
    requires |eyes| == 2
    ensures CaptureData(face, eyes + extra) == CaptureData(face, eyes)
  {
    assert EyeCentres(face, eyes + extra) == EyeCentres(face, eyes);
  }

  /** Every captured eye lies in the face rectangle when the detected eyes lie in its region. */
  lemma CapturedEyesInsideFace(face: Box, eyes: seq<Box>)
    requires |eyes| >= 2
    requires InsideRegion(face, eyes[0]) && InsideRegion(face, eyes[1])
    ensures forall i :: 0 <= i < |CaptureData(face, eyes).eyes| ==> InsideFace(face, CaptureData(face, eyes).eyes[i])
  {
    CentreInsideFace(face, eyes[0]);
    CentreInsideFace(face, eyes[1]);
  }
}
