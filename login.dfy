/**
 * frontend/src/pages/Login.jsx: the page that shows a verification result delivered in
 * the `result` query parameter. The effect decodes the parameter once; the view picks
 * the loading screen, the default screen or a result card from the page's two state cells.
 */
module Login {
  import opened Wrappers
  import opened Js

  /** An element of `coordinates.eyes`. */
  datatype EyeValue = EyeValue(x: Scalar, y: Scalar)

  /**
   * An object-valued property the page tests with `&&`: truthy, carrying what the page reads
   * from it, or falsy. A falsy `0` is told apart because JSX draws it as the text "0".
   */
  datatype Prop<T> = Present(value: T) | Absent(zero: bool)

  /**
   * A truthy `coordinates` value. A truthy value that is not an object reads as one whose
   * properties are all undefined.
   */
  datatype Coordinates = Coordinates(faceWidth: Scalar, faceHeight: Scalar, eyes: Prop<seq<EyeValue>>)

  /** The properties of a verification result the page reads. */
  datatype ResultObject = ResultObject(
    status: Scalar, message: Scalar, name: Scalar, department: Scalar, id: Scalar,
    coordinates: Prop<Coordinates>)

  /**
   * The `verificationResult` state cell: a falsy value (`null`, `false`, `0`, `""`) or an
   * object. A truthy non-object (a number, a string, an array) has none of the properties
   * read here, so it is the object whose properties are all undefined.
   */
  datatype JsValue = Falsy | Object(fields: ResultObject)

  const ParseErrorMessage: string := "Error parsing verification result"

  /** The fixed outcome stored when `JSON.parse` throws. */
  const ParseErrorResult: JsValue :=
    Object(ResultObject(Str("error"), Str(ParseErrorMessage), Undefined, Undefined, Undefined, Absent(false)))

  /**
   * What the effect stores in `verificationResult`. `param` is `queryParams.get('result')`;
   * `parse` stands for `JSON.parse`, None when it throws. An absent or empty parameter is
   * falsy and is never parsed.
   */
  function DecodeResult(param: Option<string>, parse: string -> Option<JsValue>): (r: JsValue)
    ensures param.None? || param == Some("") ==> r == Falsy
    ensures param.Some? && param.value != "" && parse(param.value).Some? ==> r == parse(param.value).value
    ensures param.Some? && param.value != "" && parse(param.value).None? ==> r == ParseErrorResult
  {
    match param
    case None => Falsy
    case Some(text) =>
      if text == "" then Falsy
      else
        match parse(text)
        case Some(v) => v
        case None => ParseErrorResult
  }

  /**
   * What a `cond && (<element/>)` child draws: the element, the text "0" when the falsy
   * operand it stopped at is the number 0, or nothing.
   */
  datatype Slot<T> = Shown(value: T) | ZeroText | Nothing

  datatype UserInfo = UserInfo(name: Scalar, department: Scalar, id: Slot<Scalar>)
  datatype EyePair = EyePair(left: EyeValue, right: EyeValue)
  datatype CoordinatesView = CoordinatesView(faceWidth: Scalar, faceHeight: Scalar, eyes: Slot<EyePair>)

  /** What the page shows. */
  datatype Screen =
    | LoadingScreen
    | DefaultScreen
    | ResultCard(success: bool, message: Scalar, user: Slot<UserInfo>, coordinates: Slot<CoordinatesView>)

  /** `verificationResult.status === 'granted'` */
  predicate IsSuccess(r: ResultObject)
    ensures IsSuccess(r) <==> r.status.Str? && r.status.s == "granted"
  {
    r.status == Str("granted")
  }

  /** What `v && (<element/>)` draws for a scalar `v`, given the element. */
  function ScalarGuard<T>(v: Scalar, element: T): (d: Slot<T>)
    ensures d.Shown? <==> Truthy(v)
    ensures d.Shown? ==> d.value == element
    ensures d.ZeroText? <==> v == Num(0)
  {
    if Truthy(v) then Shown(element)
    else if v == Num(0) then ZeroText
    else Nothing
  }

  function CoordinatesBlock(c: Coordinates): (v: CoordinatesView)
    ensures v.faceWidth == c.faceWidth && v.faceHeight == c.faceHeight
    ensures v.eyes.Shown? <==> c.eyes.Present? && |c.eyes.value| >= 2
    ensures v.eyes.Shown? ==> v.eyes.value == EyePair(c.eyes.value[0], c.eyes.value[1])
    // a falsy `0` in `eyes` is drawn; `eyes.length >= 2` failing draws nothing
    ensures v.eyes.ZeroText? <==> c.eyes == Absent(true)
  {
    var eyes := match c.eyes
                case Present(es) => if |es| >= 2 then Shown(EyePair(es[0], es[1])) else Nothing
                case Absent(zero) => if zero then ZeroText else Nothing;
    CoordinatesView(c.faceWidth, c.faceHeight, eyes)
  }

  /** The component's render from its two state cells. */
  function Render(loading: bool, result: JsValue): (s: Screen)
    ensures loading ==> s == LoadingScreen
    ensures !loading && result.Falsy? ==> s == DefaultScreen
    ensures !loading && result.Object? ==> s.ResultCard? && s.message == result.fields.message
    // the success card exactly for status 'granted', the error card for every other status
    ensures s.ResultCard? ==> (s.success <==> IsSuccess(result.fields))
    // user information only on success with a truthy name; a name of 0 on success is drawn as "0"
    ensures s.ResultCard? ==> (s.user.Shown? <==> s.success && Truthy(result.fields.name))
    ensures s.ResultCard? ==> (s.user.ZeroText? <==> s.success && result.fields.name == Num(0))
    // the ID line needs a truthy id; an id of 0 is drawn as "0"
    ensures s.ResultCard? && s.user.Shown? ==>
      s.user.value.name == result.fields.name && s.user.value.department == result.fields.department &&
      (s.user.value.id.Shown? <==> Truthy(result.fields.id)) &&
      (s.user.value.id.Shown? ==> s.user.value.id.value == result.fields.id) &&
      (s.user.value.id.ZeroText? <==> result.fields.id == Num(0))
    // the coordinates block whenever coordinates are truthy, success or not; a 0 is drawn as "0"
    ensures s.ResultCard? ==> (s.coordinates.Shown? <==> result.fields.coordinates.Present?)
    ensures s.ResultCard? && s.coordinates.Shown? ==> s.coordinates.value == CoordinatesBlock(result.fields.coordinates.value)
    ensures s.ResultCard? ==> (s.coordinates.ZeroText? <==> result.fields.coordinates == Absent(true))
  {
    if loading then LoadingScreen
    else
      match result
      case Falsy => DefaultScreen
      case Object(r) =>
        var success := IsSuccess(r);
        var user := if success
                    then ScalarGuard(r.name, UserInfo(r.name, r.department, ScalarGuard(r.id, r.id)))
                    else Nothing;
        var coordinates := match r.coordinates
                           case Present(c) => Shown(CoordinatesBlock(c))
                           case Absent(zero) => if zero then ZeroText else Nothing;
        ResultCard(success, r.message, user, coordinates)
  }

  /** The two state cells of the component. */
  class LoginPage {
    var verificationResult: JsValue
    var loading: bool

    /** `useState(null)`, `useState(true)` */
    constructor ()
      ensures verificationResult == Falsy && loading
    {
      verificationResult := Falsy;
      loading := true;
    }

    /** The `useEffect` body: store the decoded result, then `setLoading(false)` on every branch. */
    method LoadResult(param: Option<string>, parse: string -> Option<JsValue>)
      modifies this
      ensures verificationResult == DecodeResult(param, parse)
      ensures !loading
    {
      if param.Some? && param.value != "" {
        match parse(param.value) {
          case Some(result) =>
            verificationResult := result;
          case None =>
            verificationResult := ParseErrorResult;
        }
      } else {
        verificationResult := Falsy;
      }
      loading := false;
    }
  }

  /** Without a `result` parameter the page settles on the default screen. */
  lemma NoResultShowsDefault(param: Option<string>, parse: string -> Option<JsValue>)
    requires param.None? || param == Some("")
    ensures Render(false, DecodeResult(param, parse)) == DefaultScreen
  {
  }

  /** A parameter that does not parse shows the error card with the fixed message and nothing else. */
  lemma ParseFailureShowsErrorCard(text: string, parse: string -> Option<JsValue>)
    requires text != "" && parse(text).None?
    ensures Render(false, DecodeResult(Some(text), parse)) == ResultCard(false, Str(ParseErrorMessage), Nothing, Nothing)
  {
  }

  /** Changing only the status never changes the coordinates block. */
  lemma CoordinatesIgnoreStatus(r: ResultObject, status: Scalar)
    ensures Render(false, Object(r)).coordinates == Render(false, Object(r.(status := status))).coordinates
  {
  }

  /** A result that is not granted never shows user information, whatever its name and id. */
  lemma NoUserInfoUnlessGranted(r: ResultObject)
    requires !IsSuccess(r)
    ensures Render(false, Object(r)).user == Nothing
  {
  }

  /** A granted result whose name is the number 0 draws "0" in place of the user information. */
  lemma ZeroNameShowsZero(message: Scalar, department: Scalar, id: Scalar, coordinates: Prop<Coordinates>)
    ensures Render(false, Object(ResultObject(Str("granted"), message, Num(0), department, id, coordinates))).user == ZeroText
  {
  }
}
