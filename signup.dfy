/**
 * frontend/src/pages/Singup.jsx: the manual enrollment form. Eight text cells hold the
 * entries; `handleSubmit` builds the `/save` body from them and reports the answer in
 * `message` and `isError`. `toNumber` stands for JavaScript's `Number()` on an entry.
 */
module Signup {
  import opened Wrappers
  import opened Records
  import opened Js

  /**
   * How the POST to `/save` and the following `response.json()` end. A body that decodes to
   * JSON `null` is `Rejected` too: reading `responseData.id` or `responseData.error` on it
   * throws a TypeError, which the same `catch` handles. Any other non-object body reads as
   * one whose `id` and `error` are undefined.
   */
  datatype SaveReply =
    | Rejected                                   // fetch or `response.json()` threw, or the body is null
    | Resolved(ok: bool, id: Scalar, error: Scalar)  // `response.ok`, `responseData.id`, `responseData.error`

  const NetworkErrorMessage: string := "Network Error: Could not connect to the server."
  const SuccessPrefix: string := "Success! User saved with ID: "
  const ErrorPrefix: string := "Error: "

  /** The nested payload: two eyes, left then right, each built from its own two entries. */
  function Payload(name: string, department: string,
                   faceWidth: string, faceHeight: string,
                   leftEyeX: string, leftEyeY: string, rightEyeX: string, rightEyeY: string,
                   toNumber: string -> int): (p: SaveRequest)
    ensures p.name == name && p.department == department
    ensures p.face.faceWidth == toNumber(faceWidth) && p.face.faceHeight == toNumber(faceHeight)
    ensures |p.face.eyes| == 2
    ensures p.face.eyes[0] == Point(toNumber(leftEyeX), toNumber(leftEyeY))
    ensures p.face.eyes[1] == Point(toNumber(rightEyeX), toNumber(rightEyeY))
  {
    SaveRequest(name, department,
      FaceData(toNumber(faceWidth), toNumber(faceHeight),
               [Point(toNumber(leftEyeX), toNumber(leftEyeY)), Point(toNumber(rightEyeX), toNumber(rightEyeY))]))
  }

  /** The message and error flag a reply leaves. */
  function Feedback(reply: SaveReply): (r: (string, bool))
    ensures r.1 <==> !(reply.Resolved? && reply.ok)
    ensures reply.Rejected? ==> r.0 == NetworkErrorMessage
    ensures reply.Resolved? && reply.ok ==> r.0 == SuccessPrefix + ToText(reply.id)
    ensures reply.Resolved? && !reply.ok ==> r.0 == ErrorPrefix + ToText(reply.error)
  {
    match reply
    case Rejected => (NetworkErrorMessage, true)
    case Resolved(ok, id, error) =>
      if ok then (SuccessPrefix + ToText(id), false) else (ErrorPrefix + ToText(error), true)
  }

  class SignupPage {
    var name: string
    var department: string
    var faceWidth: string
    var faceHeight: string
    var leftEyeX: string
    var leftEyeY: string
    var rightEyeX: string
    var rightEyeY: string
    var message: string
    var isError: bool

    /** The eight entries, in form order. */
    function Entries(): seq<string>
      reads this
    {
      [name, department, faceWidth, faceHeight, leftEyeX, leftEyeY, rightEyeX, rightEyeY]
    }

    constructor ()
      ensures Entries() == ["", "", "", "", "", "", "", ""] && message == "" && !isError
    {
      name, department, faceWidth, faceHeight := "", "", "", "";
      leftEyeX, leftEyeY, rightEyeX, rightEyeY := "", "", "", "";
      message, isError := "", false;
    }

    /** One keystroke in one entry. */
    method SetEntry(k: nat, value: string)
      requires k < 8
      modifies this
      ensures Entries() == old(Entries())[k := value]
      ensures message == old(message) && isError == old(isError)
    {
      if k == 0 { name := value; }
      else if k == 1 { department := value; }
      else if k == 2 { faceWidth := value; }
      else if k == 3 { faceHeight := value; }
      else if k == 4 { leftEyeX := value; }
      else if k == 5 { leftEyeY := value; }
      else if k == 6 { rightEyeX := value; }
      else { rightEyeY := value; }
    }

    /**
     * `handleSubmit`: reset the feedback, send the payload, then on an ok answer clear all
     * eight entries; on any failure keep them.
     */
    method Submit(toNumber: string -> int, reply: SaveReply) returns (sent: SaveRequest)
      requires forall k :: 0 <= k < |Entries()| ==> Entries()[k] != ""  // every input is `required`
      modifies this
      ensures sent == Payload(old(name), old(department), old(faceWidth), old(faceHeight),
                              old(leftEyeX), old(leftEyeY), old(rightEyeX), old(rightEyeY), toNumber)
      ensures (message, isError) == Feedback(reply)
      ensures reply.Resolved? && reply.ok ==> Entries() == ["", "", "", "", "", "", "", ""]
      ensures !(reply.Resolved? && reply.ok) ==> Entries() == old(Entries())
    {
      message := "";
      isError := false;
      sent := Payload(name, department, faceWidth, faceHeight, leftEyeX, leftEyeY, rightEyeX, rightEyeY, toNumber);
      match reply {
        case Rejected =>
          isError := true;
          message := NetworkErrorMessage;
        case Resolved(ok, id, error) =>
          if ok {
            message := SuccessPrefix + ToText(id);
            name, department, faceWidth, faceHeight := "", "", "", "";
            leftEyeX, leftEyeY, rightEyeX, rightEyeY := "", "", "", "";
          } else {
            isError := true;
            message := ErrorPrefix + ToText(error);
          }
      }
    }
  }

  /** `{message && ...}`: the banner shows a non-empty message, styled as an error when `isError`. */
  function Banner(message: string, isError: bool): (b: Option<(string, bool)>)
    ensures b.Some? <==> message != ""
    ensures b.Some? ==> b.value == (message, isError)
  {
    if message != "" then Some((message, isError)) else None
  }
}
