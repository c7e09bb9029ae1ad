/**
 * The text `json.dumps(captured_data)` produces for the captured geometry (Python's default
 * separators `", "` and `": "`, keys in insertion order), and the link register_face.py
 * opens with it. The reader below is a specification device only: it proves that the
 * text, and so the link, determines the captured data.
 */
module CoordinatesJson {
  import opened Wrappers
  import opened Records
  import opened Numerals

  const FrontendUrl: string := "http://localhost:5173/signup"

  function PointJson(p: Point): string
  {
    "{\"x\": " + Decimal(p.x) + ", \"y\": " + Decimal(p.y) + "}"
  }

  /** The items of the eye list after the first, each preceded by `", "`. */
  function MoreEyesJson(eyes: seq<Point>): string
  {
    if |eyes| == 0 then "" else ", " + PointJson(eyes[0]) + MoreEyesJson(eyes[1..])
  }

  function EyesJson(eyes: seq<Point>): string
  {
    if |eyes| == 0 then "" else PointJson(eyes[0]) + MoreEyesJson(eyes[1..])
  }

  /** `json.dumps` of a `{face_width, face_height, eyes}` dictionary. */
  function Dumps(d: FaceData): (r: string)
    // one JSON object, opening with the first key and closing the eyes array
    ensures "{\"face_width\": " <= r
    ensures |r| >= 2 && r[|r| - 2..] == "]}"
  {
    "{\"face_width\": " + Decimal(d.faceWidth) + ", \"face_height\": " + Decimal(d.faceHeight) +
    ", \"eyes\": [" + EyesJson(d.eyes) + "]}"
  }

  /** `FRONTEND_URL + "?coordinates=" + json.dumps(captured_data)` (no percent-encoding). */
  function SignupUrl(d: FaceData): (url: string)
    ensures FrontendUrl + "?coordinates=" <= url
  {
    FrontendUrl + "?coordinates=" + Dumps(d)
  }

  // ---- reading the text back ----

  ghost function Expect(lit: string, s: string): (r: Option<string>)
    ensures r.Some? ==> |r.value| == |s| - |lit|
  {
    if lit <= s then Some(s[|lit|..]) else None
  }

  lemma ExpectLiteral(lit: string, rest: string)
    ensures lit <= lit + rest && (lit + rest)[|lit|..] == rest
    ensures Expect(lit, lit + rest) == Some(rest)
  {
    assert lit <= lit + rest;
    assert (lit + rest)[|lit|..] == rest;
  }

  ghost function ReadIntShorter(s: string): (r: Option<(int, string)>)
    ensures r.Some? ==> |r.value.1| < |s|
  {
    var r := ReadInt(s);
    if r.Some? && |r.value.1| < |s| then r else None
  }

  lemma ReadDecimalShorter(n: int, rest: string)
    requires |rest| == 0 || !IsDigit(rest[0])
    ensures ReadIntShorter(Decimal(n) + rest) == Some((n, rest))
  {
    ReadDecimal(n, rest);
  }

  /** Reads a key's literal text followed by its integer value. */
  ghost function ReadField(key: string, s: string): (r: Option<(int, string)>)
    ensures r.Some? ==> |r.value.1| < |s|
  {
    var s1 :- Expect(key, s);
    ReadIntShorter(s1)
  }

  lemma ReadFieldDecimal(key: string, n: int, rest: string)
    requires |rest| == 0 || !IsDigit(rest[0])
    ensures ReadField(key, key + (Decimal(n) + rest)) == Some((n, rest))
  {
    ExpectLiteral(key, Decimal(n) + rest);
    ReadDecimalShorter(n, rest);
  }

  ghost function ReadPoint(s: string): (r: Option<(Point, string)>)
    ensures r.Some? ==> |r.value.1| < |s|
  {
    var x :- ReadField("{\"x\": ", s);
    var y :- ReadField(", \"y\": ", x.1);
    var s5 :- Expect("}", y.1);
    Some((Point(x.0, y.0), s5))
  }

  ghost function ReadMoreEyes(s: string): (r: Option<(seq<Point>, string)>)
    ensures r.Some? ==> |r.value.1| <= |s|
    decreases |s|
  {
    if ", " <= s then
      var p :- ReadPoint(s[2..]);
      var more :- ReadMoreEyes(p.1);
      Some(([p.0] + more.0, more.1))
    else
      Some(([], s))
  }

  ghost function ReadEyes(s: string): Option<(seq<Point>, string)>
  {
    if "]" <= s then Some(([], s))
    else
      var p :- ReadPoint(s);
      var more :- ReadMoreEyes(p.1);
      Some(([p.0] + more.0, more.1))
  }

  /** Reads the whole text of a `{face_width, face_height, eyes}` dictionary. */
  ghost function Read(s: string): Option<FaceData>
  {
    var w :- ReadField("{\"face_width\": ", s);
    var h :- ReadField(", \"face_height\": ", w.1);
    var s5 :- Expect(", \"eyes\": [", h.1);
    var e :- ReadEyes(s5);
    var s7 :- Expect("]}", e.1);
    if s7 == [] then Some(FaceData(w.0, h.0, e.0)) else None
  }

  lemma ReadPointJson(p: Point, rest: string)
    ensures ReadPoint(PointJson(p) + rest) == Some((p, rest))
  {
    var dx, dy := Decimal(p.x), Decimal(p.y);
    var tailY := "}" + rest;
    var tailX := ", \"y\": " + (dy + tailY);
    assert PointJson(p) + rest == "{\"x\": " + (dx + tailX);
    ReadFieldDecimal("{\"x\": ", p.x, tailX);
    ReadFieldDecimal(", \"y\": ", p.y, tailY);
    ExpectLiteral("}", rest);
  }

  lemma MoreEyesJsonCons(eyes: seq<Point>, rest: string)
    requires |eyes| > 0
    ensures MoreEyesJson(eyes) + rest == ", " + (PointJson(eyes[0]) + (MoreEyesJson(eyes[1..]) + rest))
  {
    var p, more := PointJson(eyes[0]), MoreEyesJson(eyes[1..]);
    assert MoreEyesJson(eyes) == ", " + p + more;
    Associate(", ", p, more, rest);
  }

  lemma Associate(a: string, b: string, c: string, d: string)
    ensures a + b + c + d == a + (b + (c + d))
  {
  }

  lemma ReadMoreEyesCons(p: Point, tail: string, more: seq<Point>, rest: string)
    requires ReadMoreEyes(tail) == Some((more, rest))
    ensures ReadMoreEyes(", " + (PointJson(p) + tail)) == Some(([p] + more, rest))
  {
    ExpectLiteral(", ", PointJson(p) + tail);
    ReadPointJson(p, tail);
  }

  lemma ReadMoreEyesStep(eyes: seq<Point>, rest: string, s: string, tail: string)
    requires |eyes| > 0
    requires s == ", " + (PointJson(eyes[0]) + tail)
    requires ReadMoreEyes(tail) == Some((eyes[1..], rest))
    ensures ReadMoreEyes(s) == Some((eyes, rest))
  {
    var p, more := eyes[0], eyes[1..];
    assert [p] + more == eyes;
    ReadMoreEyesCons(p, tail, more, rest);
  }

  lemma {:induction false} ReadMoreEyesJson(eyes: seq<Point>, rest: string)
    requires !(", " <= rest)
    ensures ReadMoreEyes(MoreEyesJson(eyes) + rest) == Some((eyes, rest))
    decreases |eyes|
  {
    if |eyes| == 0 {
      assert MoreEyesJson(eyes) + rest == rest;
    } else {
      MoreEyesJsonCons(eyes, rest);
      ReadMoreEyesJson(eyes[1..], rest);
      ReadMoreEyesStep(eyes, rest, MoreEyesJson(eyes) + rest, MoreEyesJson(eyes[1..]) + rest);
    }
  }

  lemma ReadEyesCons(p: Point, tail: string, more: seq<Point>, rest: string)
    requires ReadMoreEyes(tail) == Some((more, rest))
    ensures ReadEyes(PointJson(p) + tail) == Some(([p] + more, rest))
  {
    assert (PointJson(p) + tail)[0] == '{';
    ReadPointJson(p, tail);
  }

  lemma ReadEyesJson(eyes: seq<Point>, rest: string)
    requires "]" <= rest
    ensures ReadEyes(EyesJson(eyes) + rest) == Some((eyes, rest))
  {
    if |eyes| == 0 {
      assert EyesJson(eyes) + rest == rest;
    } else {
      assert EyesJson(eyes) + rest == PointJson(eyes[0]) + (MoreEyesJson(eyes[1..]) + rest);
      assert rest[0] == ']';
      assert !(", " <= rest);
      ReadMoreEyesJson(eyes[1..], rest);
      ReadEyesCons(eyes[0], MoreEyesJson(eyes[1..]) + rest, eyes[1..], rest);
      assert [eyes[0]] + eyes[1..] == eyes;
    }
  }

  lemma Associate7(a: string, b: string, c: string, d: string, e: string, f: string, g: string)
    ensures a + b + c + d + e + f + g == a + (b + (c + (d + (e + (f + g)))))
  {
  }

  /** Reading back what `json.dumps` wrote gives the captured data again. */
  lemma {:induction false} ReadDumps(d: FaceData)
    ensures Read(Dumps(d)) == Some(d)
  {
    var dw, dh, de := Decimal(d.faceWidth), Decimal(d.faceHeight), EyesJson(d.eyes);
    var tailE := de + "]}";
    var tailH := ", \"eyes\": [" + tailE;
    var tailW := ", \"face_height\": " + (dh + tailH);
    Associate7("{\"face_width\": ", dw, ", \"face_height\": ", dh, ", \"eyes\": [", de, "]}");
    assert Dumps(d) == "{\"face_width\": " + (dw + tailW);
    ReadFieldDecimal("{\"face_width\": ", d.faceWidth, tailW);
    ReadFieldDecimal(", \"face_height\": ", d.faceHeight, tailH);
    ExpectLiteral(", \"eyes\": [", tailE);
    ReadEyesJson(d.eyes, "]}");
    ExpectLiteral("]}", []);
    assert "]}" + [] == "]}";
  }

  /** Two captures open the same link only if they captured the same data. */
  lemma SignupUrlInjective(a: FaceData, b: FaceData)
    requires SignupUrl(a) == SignupUrl(b)
    ensures a == b
  {
    var prefix := FrontendUrl + "?coordinates=";
    assert SignupUrl(a)[|prefix|..] == Dumps(a);
    assert SignupUrl(b)[|prefix|..] == Dumps(b);
    ReadDumps(a);
    ReadDumps(b);
  }
}
