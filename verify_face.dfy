/**
 * `verify_user` in backend/verify_face.py: open the camera, run the dwell loop, POST the
 * captured geometry to `/verify` and report the answer by its HTTP status.
 */
module VerifyFace {
  import opened Wrappers
  import opened Records
  import opened Dwell

  /**
   * The JSON object of a response. None stands for a body `response.json()` cannot decode
   * and also for one that decodes to something other than an object (a list, a string, a
   * number or null), on which `result['status']` raises a TypeError. The values are strings:
   * a number or null `status` value, which the `[SUCCESS]` line would print, is not represented.
   */
  type Body = Option<map<string, string>>

  /** How `requests.post(API_URL_VERIFY, json=payload)` ends. */
  datatype Reply =
    | ConnectionRefused                                  // `ConnectionError`, caught
    | OtherError                                         // any other exception, not caught
    | Response(status: int, body: Body, text: string)

  /** The request body: the geometry alone, under the key `face`. */
  datatype VerifyRequest = VerifyRequest(face: FaceData)

  /** What the run reports on the terminal. */
  datatype Report =
    | CameraUnavailable                                  // the webcam did not open
    | NoCapture                                          // read failure or 'q'
    | Granted(resultStatus: string, name: string, department: string, left: Point, right: Point, width: int, height: int)
    | Denied(left: Point, right: Point, width: int, height: int)
    | Failed(status: int, text: string)                  // any other status code
    | Unreachable                                        // connection error
    | StatusThenCrashed(resultStatus: string)            // `[SUCCESS]` printed, then `result['department']` raises
    | GrantedThenCrashed(resultStatus: string)           // `[SUCCESS]` and "Access Granted" printed, then `result['name']` raises
    | Crashed                                            // an exception leaves `verify_user`, nothing of the report printed

  datatype Effects = Effects(request: Option<VerifyRequest>, report: Report)

  const StatusOk: int := 200
  const StatusNotFound: int := 404

  /**
   * The if/elif chain on `response.status_code`. Status 200 is reported as granted whatever
   * `result['status']` holds, but `result['status']`, `result['name']` and
   * `result['department']` are all read, so a missing key (or an undecodable body) raises,
   * after whatever lines were printed before that read.
   */
  function Classify(status: int, body: Body, text: string, d: FaceData): (r: Report)
    requires |d.eyes| >= 2
    ensures r.Granted? <==>
      status == StatusOk && body.Some? && "status" in body.value && "name" in body.value && "department" in body.value
    // the `[SUCCESS]` line prints `result['status']` as it is, "granted" or not
    ensures r.Granted? ==>
      r.resultStatus == body.value["status"] && r.name == body.value["name"] && r.department == body.value["department"] &&
      r.left == d.eyes[0] && r.right == d.eyes[1] && r.width == d.faceWidth && r.height == d.faceHeight
    // the `[SUCCESS]` line is printed exactly when the body is an object with a `status` key
    ensures r.Granted? || r.StatusThenCrashed? || r.GrantedThenCrashed? <==>
      status == StatusOk && body.Some? && "status" in body.value
    ensures r.StatusThenCrashed? || r.GrantedThenCrashed? ==> r.resultStatus == body.value["status"]
    // "Access Granted" is printed exactly when neither the `[INFO] User` line nor an earlier read raises
    ensures r.Granted? || r.GrantedThenCrashed? <==>
      status == StatusOk && body.Some? && "status" in body.value &&
      ("name" !in body.value || "department" in body.value)
    ensures r.StatusThenCrashed? <==>
      status == StatusOk && body.Some? && "status" in body.value && "name" in body.value && "department" !in body.value
    ensures r.GrantedThenCrashed? <==>
      status == StatusOk && body.Some? && "status" in body.value && "name" !in body.value
    ensures r.Crashed? <==> status == StatusOk && (body.None? || "status" !in body.value)
    ensures r.Denied? <==> status == StatusNotFound
    ensures r.Denied? ==> r == Denied(d.eyes[0], d.eyes[1], d.faceWidth, d.faceHeight)
    ensures r.Failed? <==> status != StatusOk && status != StatusNotFound
    ensures r.Failed? ==> r == Failed(status, text)
  {
    if status == StatusOk then
      match body
      case None => Crashed
      case Some(result) =>
        if "status" !in result then Crashed
        else if "name" !in result then GrantedThenCrashed(result["status"])
        else if "department" !in result then StatusThenCrashed(result["status"])
        else Granted(result["status"], result["name"], result["department"], d.eyes[0], d.eyes[1], d.faceWidth, d.faceHeight)
    else if status == StatusNotFound then
      Denied(d.eyes[0], d.eyes[1], d.faceWidth, d.faceHeight)
    else
      Failed(status, text)
  }

  method VerifyUser(cameraOpens: bool, frames: seq<Frame>, reply: Reply) returns (e: Effects)
    ensures !cameraOpens ==> e == Effects(None, CameraUnavailable)
    // an exception inside the loop is not caught: no request, the run crashes
    ensures cameraOpens && Run(frames).Faulted? ==> e == Effects(None, Crashed)
    ensures cameraOpens && (Run(frames).Cancelled? || Run(frames).ReadFailed?) ==> e == Effects(None, NoCapture)
    // a request, holding only the captured geometry, is sent exactly when a face was captured
    ensures e.request.Some? <==> cameraOpens && Run(frames).Captured?
    ensures e.request.Some? ==>
      e.request.value == VerifyRequest(Run(frames).data) &&
      e.report == match reply
                  case ConnectionRefused => Unreachable
                  case OtherError => Crashed
                  case Response(status, body, text) => Classify(status, body, text, Run(frames).data)
  {
    if !cameraOpens {
      return Effects(None, CameraUnavailable);
    }
    var end := CaptureLoop(frames);
    if end.Faulted? {
      return Effects(None, Crashed);
    }
    var capturedData: Option<FaceData> := if end.Captured? then Some(end.data) else None;
    if capturedData.None? {
      return Effects(None, NoCapture);
    }
    var payload := VerifyRequest(capturedData.value);
    var report;
    match reply {
      case ConnectionRefused =>
        report := Unreachable;
      case OtherError =>
        report := Crashed;
      case Response(status, body, text) =>
        report := Classify(status, body, text, capturedData.value);
    }
    e := Effects(Some(payload), report);
  }

  /**
   * A 200 answer `{"status": "denied"}` still prints "Access Granted", and only then
   * raises, on the `result['name']` read of the user details line.
   */
  lemma StatusOnlyBodyPrintsGranted(text: string, d: FaceData)
    requires |d.eyes| >= 2
    ensures Classify(StatusOk, Some(map["status" := "denied"]), text, d) == GrantedThenCrashed("denied")
  {
  }
}
