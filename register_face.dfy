/**
 * `register_new_user` in backend/register_face.py: open the camera, run the dwell loop,
 * then POST the captured geometry to `/save` under a default name and department and open
 * the signup page with the geometry in its `coordinates` query parameter.
 */
module RegisterFace {
  import opened Wrappers
  import opened Records
  import opened Dwell
  import opened CoordinatesJson

  /** How `requests.post(API_URL_SAVE, json=payload)` ends. */
  datatype PostOutcome =
    | Responded           // any HTTP status: it is only printed
    | ConnectionRefused   // `requests.exceptions.ConnectionError`, caught
    | OtherError          // any other exception: it leaves the function

  /** What the run does to the outside world. */
  datatype Effects = Effects(
    posted: Option<SaveRequest>,  // the body of the POST to `/save`, if one was attempted
    browsed: Option<string>)       // the URL handed to `webbrowser.open`, if any

  const DefaultName: string := "User"
  const DefaultDepartment: string := "Default"

  method RegisterNewUser(cameraOpens: bool, frames: seq<Frame>, post: PostOutcome) returns (e: Effects)
    // a POST is attempted exactly when the loop captured a face
    ensures e.posted.Some? <==> cameraOpens && Run(frames).Captured?
    ensures e.posted.Some? ==> e.posted.value == SaveRequest(DefaultName, DefaultDepartment, Run(frames).data)
    ensures e.posted.Some? ==> |e.posted.value.face.eyes| == 2
    // the browser is opened after any response and after a connection error, not after another exception
    ensures e.browsed.Some? <==> e.posted.Some? && !post.OtherError?
    ensures e.browsed.Some? ==> e.browsed.value == SignupUrl(Run(frames).data)
  {
    if !cameraOpens {
      return Effects(None, None);
    }
    var end := CaptureLoop(frames);
    var capturedData: Option<FaceData> := if end.Captured? then Some(end.data) else None;
    if capturedData.None? {
      return Effects(None, None);
    }
    var payload := SaveRequest(DefaultName, DefaultDepartment, capturedData.value);
    match post
    case Responded =>
      e := Effects(Some(payload), Some(SignupUrl(capturedData.value)));
    case ConnectionRefused =>
      e := Effects(Some(payload), Some(SignupUrl(capturedData.value)));
    case OtherError =>
      e := Effects(Some(payload), None);
  }
}
