# faceapp core in Dafny

A model of the sequential rules of the face-enrollment and face-verification app:

- the frame loop of the two capture scripts (`register_new_user`, `verify_user`). A face
  must stay in view, alone and with at least two eyes detected, for five seconds. Then the
  geometry is captured: the face size and the centres of the first two eye boxes, moved
  from region coordinates to frame coordinates. 'q' cancels the loop and a failed read ends it;
- what the scripts do after a capture. Registration POSTs `{name: "User", department:
  "Default", face}` to `/save` and opens the signup page with the geometry as JSON in its
  `coordinates` parameter. Verification POSTs `{face}` to `/verify` and classifies the
  answer by its HTTP status;
- the login page: it decodes the `result` query parameter and decides what to display;
- the admin page's edit state (`users`, `editingId`, `formData`) and its handlers;
- the signup form's submit: the payload it builds and its message and field state.

Modules follow the source files: `Dwell` (the shared loop), `RegisterFace`, `VerifyFace`,
`Login`, `Admin`, `Signup`. Shared pieces sit beside them: `Records` (boxes, points, face
geometry, the `/save` body), `CoordinatesJson` (the `json.dumps` text and the signup link),
`Numerals` (decimal text), `Js` (truthiness and template-literal text) and `Wrappers` (`Option`).

Inputs the code gets from libraries are parameters of the model:
- camera frames: detector boxes, key codes and clock readings come as a sequence of `Dwell.Frame`;
- HTTP outcomes and `response.json()` results;
- `JSON.parse` of the login parameter, as a function returning `Option`;
- `Number()` on the signup entries, as a function to integers.

Time is an integer count of ticks, 1000 per second. `int(elapsed)` is written out as
truncation toward zero. `waitKey(1) & 0xFF` is the remainder modulo 256.

The central result is `Dwell.RunIsStopAtFirstStop`. The imperative loop `Dwell.CaptureLoop`
computes `Dwell.Run`, and `Run` agrees with a description in terms of streaks of qualifying
frames. Two lemmas follow from it: `CaptureIff` and `CancelIff` (both directions).

The code has no single-flight capture controller or guard timer, no repository error
types, no decoder that pre-fills the enrollment form, and no legacy-descriptor decoder,
so the model has none either. The `coordinates` text is read back here only to prove
that the link determines the captured data (`CoordinatesJson.ReadDumps`). That reader
is ghost and is not part of the app.

## Model

| member | source | states |
|---|---|---|
| `Records.Centre` | backend/register_face.py:99 | the eye centre is the region offset plus the eye box offset plus half its size, rounded down (Python `//`) |
| `Records.CentreInsideFace` | backend/register_face.py:82-99 | an eye box inside the face's region of interest has its translated centre inside the face rectangle |
| `Records.EyeCentres` | backend/register_face.py:99 | a definition: the comprehension over `eyes[:2]`, giving at most two centres in detection order, each from the eye box at the same index; what it promises is proved in `CapturedIgnoresExtraEyes` and `CapturedEyesInsideFace` |
| `Records.CaptureData` | backend/register_face.py:99-105 | captured data has width `w`, height `h` and exactly two eyes, the centres of the first two eye boxes |
| `Records.CapturedIgnoresExtraEyes` | backend/register_face.py:99 | eye boxes beyond the first two do not change the captured data |
| `Records.CapturedEyesInsideFace` | backend/register_face.py:82-105 | when the first two eye boxes lie in the region, every captured eye lies in the face rectangle |
| `Dwell.IsQuit` | backend/register_face.py:114 | `waitKey(1) & 0xFF == ord('q')`, as the remainder modulo 256: no key (-1) never quits, and a plain key code quits exactly when it is 'q' |
| `Dwell.Qualifies` | backend/register_face.py:81-86 | a frame qualifies only if it was read and has exactly one face and at least two eyes; `eyes[:2]` then gives two centres to capture |
| `Dwell.TruncSeconds` | backend/register_face.py:92-93 | `int(elapsed)` truncates toward zero: floor for a non-negative elapsed time, ceiling for a negative one |
| `Dwell.Countdown` | backend/register_face.py:92-96 | the countdown is drawn exactly when less than five seconds have elapsed; it is then positive, at most 5 for a non-negative elapsed time, and counts whole seconds left |
| `Dwell.Step` | backend/register_face.py:72-117 | one iteration: read failure and exception end the loop; capture exactly when the face qualified for at least five seconds, with the data from this frame; cancel exactly on 'q' when not capturing; the timer starts on the first qualifying frame, is kept while frames qualify, and is reset by any other frame |
| `Dwell.RunFrom` | backend/register_face.py:72-117 | the loop ends at a frame index at or after the start; running out of frames is a failed read; a capture always holds two eyes |
| `Dwell.CaptureLoop` | backend/register_face.py:69-117 | the while-loop that updates `face_detected_time` in place returns exactly the result of `Run` |
| `Dwell.StreakStart` | backend/register_face.py:81-111 | the start of the unbroken run of qualifying frames ending at a frame: every frame from it on qualifies, and the frame before it does not |
| `Dwell.FirstStop` | backend/verify_face.py:27-70 | the first frame that ends the loop: every earlier frame was read, had no 'q' and had not reached the dwell time |
| `Dwell.RunIsStopAtFirstStop` | backend/verify_face.py:27-70 | the loop ends at the first stopping frame, for the reason that frame gives (read failure, exception, dwell reached, or 'q') |
| `Dwell.CaptureIff` | backend/register_face.py:86-107 | a capture at frame k happens if and only if all earlier frames let the loop go on and frame k ends a qualifying streak at least five seconds long; the data come from frame k |
| `Dwell.CancelIff` | backend/register_face.py:98-117 | cancellation at frame k happens if and only if 'q' is pressed there, all earlier frames went on, and frame k has not reached the dwell time (a capturing frame breaks before the key check) |
| `Dwell.CapturedShape` | backend/verify_face.py:53-59 | captured data have exactly two eyes and the face box's width and height, after a qualifying streak of at least five seconds |
| `Dwell.CapturedWhenHeld` | backend/verify_face.py:35-61 | a face held in view from the first frame, with no 'q', is captured at the first frame that reaches five seconds |
| `CoordinatesJson.Dumps` | backend/register_face.py:148 | `json.dumps` of the captured dictionary with the default `", "` and `": "` separators: one object that opens with the `face_width` key and closes the `eyes` array; `ReadDumps` shows it reads back as the data |
| `CoordinatesJson.SignupUrl` | backend/register_face.py:148-149 | the link is `FRONTEND_URL + "?coordinates="` followed by the JSON text |
| `CoordinatesJson.ReadDumps` | backend/register_face.py:148 | the `json.dumps` text of the captured dictionary reads back as the same data |
| `CoordinatesJson.SignupUrlInjective` | backend/register_face.py:147-153 | two captures open the same link only if they captured the same data |
| `Numerals.ReadDecimal` | backend/register_face.py:148 | the decimal text of an integer in the JSON reads back as that integer and leaves the text after it untouched |
| `RegisterFace.RegisterNewUser` | backend/register_face.py:60-164 | a POST is attempted exactly when the camera opened and the loop captured a face; its body is `{User, Default, data}`, with two eyes; the signup link for the data is opened after any response and after a connection error, but not after any other exception; no camera, a 'q', a failed read or an exception give no POST and no browser |
| `VerifyFace.Classify` | backend/verify_face.py:88-107 | status 200 is fully granted whatever `result['status']` holds, exactly when the body is an object with `status`, `name` and `department`, and the `[SUCCESS]` line shows that status value. A body without `status` (or one that is not an object) crashes before the `[SUCCESS]` line. With `status` and `name` but no `department`, it crashes after `[SUCCESS]`. With `status` and no `name`, it prints "Access Granted" and then crashes. 404 is denied with the captured eyes and size; every other status is an error with its code and body text |
| `VerifyFace.StatusOnlyBodyPrintsGranted` | backend/verify_face.py:88-96 | a 200 answer `{"status": "denied"}` prints `[SUCCESS] denied` and "Access Granted" before the user-details line raises |
| `VerifyFace.VerifyUser` | backend/verify_face.py:17-107 | no camera returns before the loop; an exception in the loop crashes with no request; 'q' or a failed read sends nothing; a request carrying only `face` is sent exactly on capture, and its answer is classified (connection error reported, other exceptions crash) |
| `Js.ToText` | frontend/src/pages/Singup.jsx:118-124 | a string is inserted as is and a number as decimal text that reads back as it |
| `Login.DecodeResult` | frontend/src/pages/Login.jsx:11-28 | an absent or empty parameter gives the falsy outcome; a parameter that parses is stored unchanged; a parse failure gives the fixed `{status:'error', message:'Error parsing verification result'}` |
| `Login.LoginPage.constructor` | frontend/src/pages/Login.jsx:5-6 | the page starts with no result and loading |
| `Login.LoginPage.LoadResult` | frontend/src/pages/Login.jsx:8-30 | the effect stores the decoded result and ends with `loading` false on every branch |
| `Login.IsSuccess` | frontend/src/pages/Login.jsx:175 | `status === 'granted'` is strict: success only for the string "granted" |
| `Login.CoordinatesBlock` | frontend/src/pages/Login.jsx:210-233 | the block shows the face size; eye lines exactly when the eyes array has at least two elements, `eyes[0]` as left, `eyes[1]` as right; an `eyes` of 0 is drawn as "0" |
| `Login.Render` | frontend/src/pages/Login.jsx:150-235 | loading screen while loading; default screen for a falsy result; otherwise a result card showing the message; success exactly when `status === 'granted'`; user info exactly on success with a truthy name, the ID line exactly when the id is truthy; the coordinates block exactly when coordinates are truthy, whatever the status; a guard value of 0 (name on success, id, coordinates) is drawn as the text "0" instead |
| `Login.ZeroNameShowsZero` | frontend/src/pages/Login.jsx:191 | a granted result whose name is 0 draws "0" where the user information would be |
| `Login.NoResultShowsDefault` | frontend/src/pages/Login.jsx:25-28 | without a `result` parameter the settled page is the default screen |
| `Login.ParseFailureShowsErrorCard` | frontend/src/pages/Login.jsx:18-24 | an unparsable parameter settles on the error card with the fixed message, no user info and no coordinates |
| `Login.CoordinatesIgnoreStatus` | frontend/src/pages/Login.jsx:210 | changing only the status never changes the coordinates block |
| `Login.NoUserInfoUnlessGranted` | frontend/src/pages/Login.jsx:191 | a result that is not granted never shows user information |
| `Admin.WithField` | frontend/src/pages/Admin.jsx:38-40 | a change sets only the named field (the face textarea yields text) and keeps the other two |
| `Admin.EditableRows` | frontend/src/pages/Admin.jsx:55-57 | a definition: a row is in edit mode exactly when `editingId` equals its id; what it promises is proved in `AtMostOneRowEditable` |
| `Admin.AtMostOneRowEditable` | frontend/src/pages/Admin.jsx:57 | with unique ids at most one row is in edit mode, and none when `editingId` is null |
| `Admin.EditThenChange` | frontend/src/pages/Admin.jsx:18-40 | after entering edit mode and changing one field, the other fields hold that user's values |
| `Admin.AdminPanel.constructor` | frontend/src/pages/Admin.jsx:4-6 | no users, nothing in edit, an empty form, no requests |
| `Admin.AdminPanel.FetchUsers` | frontend/src/pages/Admin.jsx:8-16 | a GET is issued and `users` is replaced wholesale by the fetched list (kept when the fetch fails); edit state untouched |
| `Admin.AdminPanel.Edit` | frontend/src/pages/Admin.jsx:18-21 | `editingId` becomes the user's id and the form is overwritten with that user's name, department and face, whatever it held; no request |
| `Admin.AdminPanel.Change` | frontend/src/pages/Admin.jsx:38-40 | only the named form field changes; nothing else does |
| `Admin.AdminPanel.Cancel` | frontend/src/pages/Admin.jsx:64 | `editingId` becomes null, the form is kept and no request is made |
| `Admin.AdminPanel.Update` | frontend/src/pages/Admin.jsx:28-36 | the whole form (face included) is PUT; once the PUT resolves, whatever its status, edit mode ends and the list is refetched and replaced; a rejected PUT does neither |
| `Admin.AdminPanel.Delete` | frontend/src/pages/Admin.jsx:23-26 | a DELETE is issued; once it resolves the list is refetched and replaced; edit state untouched |
| `Signup.Payload` | frontend/src/pages/Singup.jsx:95-106 | the payload carries name and department and a face with exactly two eyes, left from `leftEyeX/Y` then right from `rightEyeX/Y` |
| `Signup.Feedback` | frontend/src/pages/Singup.jsx:117-129 | the error flag is set exactly when the answer is not ok; the messages are the success text with the id, `"Error: "` with the error, or the fixed network message |
| `Signup.Banner` | frontend/src/pages/Singup.jsx:188-192 | the message banner appears exactly when the message is non-empty, styled by `isError` |
| `Signup.SignupPage.constructor` | frontend/src/pages/Singup.jsx:76-87 | all eight entries and the message are empty and the error flag is false |
| `Signup.SignupPage.SetEntry` | frontend/src/pages/Singup.jsx:142-180 | an entry's change handler sets that entry alone |
| `Signup.SignupPage.Submit` | frontend/src/pages/Singup.jsx:89-130 | the payload is built from the entries before the request; message and error flag are reset and then fixed by the answer; an ok answer clears all eight entries and any other outcome keeps them |

## Left out

- OpenCV is not modelled: Haar-cascade detection, `VideoCapture`, `imshow`, `waitKey` and drawing. Their results are the fields of `Dwell.Frame`.
- The scripts are not run against a real camera stream. Frames come as a finite sequence, and past its end the read fails, as `cap.read()` does when a stream ends.
- Wall-clock float time is not modelled: `time.time()` is an integer tick count. `Dwell.Step` uses one clock reading for both uses in an iteration (starting the timer and computing `elapsed`). The source reads the clock twice.
- `Records.Centre` uses unbounded integers. It does not model numpy `int32` overflow, which pixel coordinates cannot reach.
- Terminal output, the exact printed text, and releasing the camera and windows are left out. `VerifyFace.Report` records which report is printed and the values in it, including a status-200 run that prints `[SUCCESS]`, and possibly "Access Granted", before a missing key raises.
- HTTP, `webbrowser.open`, `JSON.parse`, `json.dumps` in general and `Number()` are library calls. Their outcomes are parameters. Only the `json.dumps` text of the captured dictionary is written out.
- Login.jsx: JavaScript values are `Js.Scalar`, with integer numbers only (no fractions or NaN) below 1e21 in magnitude, which JavaScript would write in exponent form. An object-valued `name`, `message`, `id`, `department`, `face_width`, `face_height`, or eye `x` or `y` is not modelled; React would refuse to render one. Non-array `eyes` and non-object eye elements are not modelled either.
- Signup.Payload: `Number()` is an abstract function to integers. An entry that is not a number (NaN, which JSON sends as null) is not modelled.
- Async interleavings on the admin and signup pages are not modelled; each handler runs to completion as one step. This includes a second click while a request is pending and a refetch racing an edit.
- `get_user_info_dialog` (register_face.py:24-57) is a tkinter dialog that is never called.
- backend/app.py is a thin Flask/Mongo wrapper. The `/users`, `/verify` and `/run_register_face` endpoints the pages call are not part of this model.
- frontend/src/pages/Home.jsx is one fetch plus a redirect or an alert, with no guard or timer. It is not modelled.
- The signup page never reads the `coordinates` parameter the registration script puts in its link. No pre-fill decoder is modelled.
- Styles, markup and routing are presentation and are not modelled.
