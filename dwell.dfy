/**
 * The frame loop shared by register_face.py and verify_face.py: a face must stay in view,
 * alone and with at least two eyes detected, for five seconds before its geometry is
 * captured; 'q' cancels, and a failed read ends the loop.
 *
 * Camera frames, detector results, key presses and clock readings are inputs: a run is a
 * sequence of frames, and once the sequence is exhausted `cap.read()` fails.
 * Time is an integer number of ticks, `TicksPerSecond` per second.
 */
module Dwell {
  import opened Wrappers
  import opened Records

  const TicksPerSecond: int := 1000
  /** The dwell time in seconds (`elapsed >= 5`, `countdown = 5 - int(elapsed)`). */
  const DwellSeconds: int := 5
  const DwellTicks: int := DwellSeconds * TicksPerSecond
  /** `ord('q')`. */
  const KeyQ: int := 113

  /** What one iteration of the loop sees. */
  datatype Frame =
    | ReadFailure                 // `cap.read()` returned `ret == False`
    | Fault                       // an exception was raised while the frame was processed
    | Picture(faces: seq<Box>,    // face boxes found in the frame
              eyes: seq<Box>,     // eye boxes found in the region of `faces[0]`
              now: int,           // the clock reading `time.time()` in this iteration
              key: int)           // what `cv2.waitKey(1)` returned (-1: no key)

  /**
   * `cv2.waitKey(1) & 0xFF == ord('q')`. For every Python integer, `k & 0xFF` is the
   * non-negative remainder of `k` modulo 256, which is Dafny's `%`.
   */
  function IsQuit(key: int): (q: bool)
    // no key pressed (-1) never quits; a plain key code quits exactly when it is 'q'
    ensures key == -1 ==> !q
    ensures 0 <= key < 256 ==> (q <==> key == KeyQ)
  {
    key % 256 == KeyQ
  }

  /** `int(elapsed)` for an elapsed time of `ticks`: Python's `int` truncates toward zero. */
  function TruncSeconds(ticks: int): (s: int)
    ensures ticks >= 0 ==> s * TicksPerSecond <= ticks < (s + 1) * TicksPerSecond
    ensures ticks < 0 ==> (s - 1) * TicksPerSecond < ticks <= s * TicksPerSecond
  {
    if ticks >= 0 then ticks / TicksPerSecond else -((-ticks) / TicksPerSecond)
  }

  /** The countdown drawn on the frame: `5 - int(elapsed)`, drawn only when positive. */
  function Countdown(elapsed: int): (c: Option<int>)
    ensures c.Some? <==> elapsed < DwellTicks
    ensures c.Some? ==> c.value > 0
    ensures c.Some? && elapsed >= 0 ==>
      c.value <= DwellSeconds &&
      (DwellSeconds - c.value) * TicksPerSecond <= elapsed < (DwellSeconds - c.value + 1) * TicksPerSecond
  {
    var countdown := DwellSeconds - TruncSeconds(elapsed);
    if countdown > 0 then Some(countdown) else None
  }

  /** Exactly one face, and at least two eyes in it. */
  function Qualifies(f: Frame): (q: bool)
    // a qualifying frame has a face box and two eye boxes in `eyes[:2]` to capture from
    ensures q ==> f.Picture? && |f.faces| == 1 && |EyeCentres(f.faces[0], f.eyes)| == 2
    ensures !f.Picture? ==> !q
  {
    f.Picture? && |f.faces| == 1 && |f.eyes| >= 2
  }

  /** The start time after `if face_detected_time is None: face_detected_time = time.time()`. */
  function Start(timer: Option<int>, now: int): int
  {
    if timer.Some? then timer.value else now
  }

  /** How one iteration ends. */
  datatype StepResult =
    | Continue(timer: Option<int>, countdown: Option<int>)  // next `face_detected_time`; the countdown drawn
    | Capture(data: FaceData)                               // `captured_data` set, `break`
    | Cancel                                                // 'q' pressed, `break`
    | ReadError                                             // `ret` false, `break`
    | Raise                                                 // an exception left the iteration

  /** One iteration of `while True` with timer state `face_detected_time`. */
  function Step(timer: Option<int>, f: Frame): (r: StepResult)
    ensures r.ReadError? <==> f.ReadFailure?
    ensures r.Raise? <==> f.Fault?
    // capture exactly when the face has qualified for at least the dwell time
    ensures r.Capture? <==> Qualifies(f) && f.now - Start(timer, f.now) >= DwellTicks
    ensures r.Capture? ==> r.data == CaptureData(f.faces[0], f.eyes)
    // a capturing frame breaks before the key is read, so it is never cancelled
    ensures r.Cancel? <==> f.Picture? && IsQuit(f.key) && !r.Capture?
    // the timer starts on the first qualifying frame and is not restarted while it qualifies
    ensures r.Continue? && Qualifies(f) ==> r.timer == Some(Start(timer, f.now))
    ensures r.Continue? && Qualifies(f) ==> r.countdown == Countdown(f.now - Start(timer, f.now)) && r.countdown.Some?
    // any other frame resets it
    ensures r.Continue? && !Qualifies(f) ==> r.timer == None && r.countdown == None
  {
    match f
    case ReadFailure => ReadError
    case Fault => Raise
    case Picture(faces, eyes, now, key) =>
      if |faces| == 1 && |eyes| >= 2 then
        var start := Start(timer, now);
        if now - start >= DwellTicks then Capture(CaptureData(faces[0], eyes))
        else if IsQuit(key) then Cancel
        else Continue(Some(start), Countdown(now - start))
      else if IsQuit(key) then Cancel
      else Continue(None, None)
  }

  /** How the whole loop ends, and at which frame. */
  datatype LoopEnd =
    | Captured(data: FaceData, at: nat)
    | Cancelled(at: nat)
    | ReadFailed(at: nat)
    | Faulted(at: nat)

  /** The loop from frame `i` on, with timer state `timer`. */
  function RunFrom(frames: seq<Frame>, i: nat, timer: Option<int>): (r: LoopEnd)
    requires i <= |frames|
    ensures i <= r.at <= |frames|
    ensures r.at == |frames| ==> r == ReadFailed(|frames|)
    ensures r.Captured? ==> |r.data.eyes| == 2
    decreases |frames| - i
  {
    if i == |frames| then ReadFailed(i)
    else
      match Step(timer, frames[i])
      case Continue(t, _) => RunFrom(frames, i + 1, t)
      case Capture(d) => Captured(d, i)
      case Cancel => Cancelled(i)
      case ReadError => ReadFailed(i)
      case Raise => Faulted(i)
  }

  /** The loop from the first frame, `face_detected_time = None`. */
  function Run(frames: seq<Frame>): LoopEnd
  {
    RunFrom(frames, 0, None)
  }

  /** The loop as written in both scripts: the timer is a local that each iteration updates. */
  method CaptureLoop(frames: seq<Frame>) returns (end: LoopEnd)
    ensures end == Run(frames)
  {
    var faceDetectedTime: Option<int> := None;
    var i := 0;
    while true
      invariant i <= |frames|
      invariant RunFrom(frames, i, faceDetectedTime) == Run(frames)
      decreases |frames| - i
    {
      if i == |frames| || frames[i].ReadFailure? {
        return ReadFailed(i);
      }
      if frames[i].Fault? {
        return Faulted(i);
      }
      var f := frames[i];
      if |f.faces| == 1 {
        var face := f.faces[0];
        if |f.eyes| >= 2 {
          if faceDetectedTime.None? {
            faceDetectedTime := Some(f.now);
          }
          var elapsed := f.now - faceDetectedTime.value;
          if elapsed >= DwellTicks {
            return Captured(CaptureData(face, f.eyes), i);
          }
        } else {
          faceDetectedTime := None;
        }
      } else {
        faceDetectedTime := None;
      }
      if IsQuit(f.key) {
        return Cancelled(i);
      }
      i := i + 1;
    }
  }

  // ---- A reference description of the loop in terms of streaks of qualifying frames ----

  /** The first frame of the unbroken run of qualifying frames that ends at frame `k`. */
  function StreakStart(frames: seq<Frame>, k: nat): (j: nat)
    requires k < |frames| && Qualifies(frames[k])
    ensures j <= k
    ensures forall m :: j <= m <= k ==> Qualifies(frames[m])
    ensures j == 0 || !Qualifies(frames[j - 1])
  {
    if k == 0 || !Qualifies(frames[k - 1]) then k else StreakStart(frames, k - 1)
  }

  /** Frame `k` qualifies and the face has been in view for the dwell time since its streak began. */
  predicate DwellReached(frames: seq<Frame>, k: nat)
    requires k < |frames|
  {
    Qualifies(frames[k]) && frames[k].now - frames[StreakStart(frames, k)].now >= DwellTicks
  }

  /** Frame `m` lets the loop go on: it was read, 'q' was not pressed, and the dwell is not yet over. */
  predicate Passes(frames: seq<Frame>, m: nat)
    requires m < |frames|
  {
    frames[m].Picture? && !IsQuit(frames[m].key) && !DwellReached(frames, m)
  }

  /** The first frame from `i` on that does not let the loop go on (`|frames|` if none). */
  function FirstStop(frames: seq<Frame>, i: nat): (k: nat)
    requires i <= |frames|
    ensures i <= k <= |frames|
    ensures forall m :: i <= m < k ==> Passes(frames, m)
    ensures k < |frames| ==> !Passes(frames, k)
    decreases |frames| - i
  {
    if i == |frames| || !Passes(frames, i) then i else FirstStop(frames, i + 1)
  }

  /** How the loop ends at a frame that does not let it go on. */
  function StopAt(frames: seq<Frame>, k: nat): LoopEnd
    requires k <= |frames|
  {
    if k == |frames| then ReadFailed(k)
    else
      match frames[k]
      case ReadFailure => ReadFailed(k)
      case Fault => Faulted(k)
      case Picture(faces, eyes, _, _) =>
        if DwellReached(frames, k) then Captured(CaptureData(faces[0], eyes), k) else Cancelled(k)
  }

  /** The timer value the loop holds before frame `i`: the start of the streak just before it. */
  function TimerBefore(frames: seq<Frame>, i: nat): Option<int>
    requires i <= |frames|
  {
    if i == 0 || !Qualifies(frames[i - 1]) then None else Some(frames[StreakStart(frames, i - 1)].now)
  }

  lemma StepWithStreakTimer(frames: seq<Frame>, i: nat)
    requires i < |frames|
    ensures Passes(frames, i) ==> Step(TimerBefore(frames, i), frames[i]).Continue? &&
                                  Step(TimerBefore(frames, i), frames[i]).timer == TimerBefore(frames, i + 1)
    ensures !Passes(frames, i) ==> StopAt(frames, i) == RunFrom(frames, i, TimerBefore(frames, i))
  {
    var f := frames[i];
    if Qualifies(f) {
      assert Start(TimerBefore(frames, i), f.now) == frames[StreakStart(frames, i)].now;
    }
  }

  lemma {:induction false} RunFromStreak(frames: seq<Frame>, i: nat)
    requires i <= |frames|
    ensures RunFrom(frames, i, TimerBefore(frames, i)) == StopAt(frames, FirstStop(frames, i))
    decreases |frames| - i
  {
    if i < |frames| {
      StepWithStreakTimer(frames, i);
      if Passes(frames, i) {
        RunFromStreak(frames, i + 1);
      }
    }
  }

  /** The loop ends exactly where and how the streak description says. */
  lemma RunIsStopAtFirstStop(frames: seq<Frame>)
    ensures Run(frames) == StopAt(frames, FirstStop(frames, 0))
  {
    RunFromStreak(frames, 0);
  }

  lemma FirstStopIs(frames: seq<Frame>, k: nat)
    requires k <= |frames|
    requires forall m :: 0 <= m < k ==> Passes(frames, m)
    requires k < |frames| ==> !Passes(frames, k)
    ensures FirstStop(frames, 0) == k
  {
  }

  /**
   * A capture happens at frame `k` exactly when every earlier frame let the loop go on and
   * frame `k` ends a streak of qualifying frames at least the dwell time long; the data are
   * the translated centres of frame `k`'s first two eye boxes and its face size.
   */
  lemma CaptureIff(frames: seq<Frame>, d: FaceData, k: nat)
    ensures Run(frames) == Captured(d, k) <==>
      k < |frames| && (forall m :: 0 <= m < k ==> Passes(frames, m)) && DwellReached(frames, k) &&
      d == CaptureData(frames[k].faces[0], frames[k].eyes)
  {
    RunIsStopAtFirstStop(frames);
    if k < |frames| && (forall m :: 0 <= m < k ==> Passes(frames, m)) && DwellReached(frames, k) {
      FirstStopIs(frames, k);
    }
  }

  /** Cancellation at frame `k` happens exactly when 'q' is pressed there before any capture. */
  lemma CancelIff(frames: seq<Frame>, k: nat)
    ensures Run(frames) == Cancelled(k) <==>
      k < |frames| && (forall m :: 0 <= m < k ==> Passes(frames, m)) &&
      frames[k].Picture? && IsQuit(frames[k].key) && !DwellReached(frames, k)
  {
    RunIsStopAtFirstStop(frames);
    if k < |frames| && (forall m :: 0 <= m < k ==> Passes(frames, m)) &&
       frames[k].Picture? && IsQuit(frames[k].key) && !DwellReached(frames, k) {
      FirstStopIs(frames, k);
    }
  }

  /**
   * The captured data always hold exactly two eyes and the face box's width and height,
   * and the face was in view, alone and with two eyes, for the dwell time before it.
   */
  lemma CapturedShape(frames: seq<Frame>)
    requires Run(frames).Captured?
    ensures var k := Run(frames).at;
      k < |frames| && Qualifies(frames[k]) &&
      |Run(frames).data.eyes| == 2 &&
      Run(frames).data.faceWidth == frames[k].faces[0].w &&
      Run(frames).data.faceHeight == frames[k].faces[0].h &&
      var j := StreakStart(frames, k);
      (forall m :: j <= m <= k ==> Qualifies(frames[m])) &&
      frames[k].now - frames[j].now >= DwellTicks
  {
    CaptureIff(frames, Run(frames).data, Run(frames).at);
  }

  /** A face held in view from the first frame is captured on the first frame that reaches the dwell time. */
  lemma CapturedWhenHeld(frames: seq<Frame>, k: nat)
    requires k < |frames|
    requires Qualifies(frames[0])
    requires forall m :: 0 <= m <= k ==>
      Qualifies(frames[m]) && (m < k ==> !IsQuit(frames[m].key) && frames[m].now - frames[0].now < DwellTicks)
    requires Qualifies(frames[k]) && frames[k].now - frames[0].now >= DwellTicks
    ensures Run(frames) == Captured(CaptureData(frames[k].faces[0], frames[k].eyes), k)
  {
    forall m | 0 <= m <= k ensures StreakStart(frames, m) == 0 {
      StreakStartFromZero(frames, m);
    }
    CaptureIff(frames, CaptureData(frames[k].faces[0], frames[k].eyes), k);
  }

  lemma {:induction false} StreakStartFromZero(frames: seq<Frame>, k: nat)
    requires k < |frames|
    requires forall m :: 0 <= m <= k ==> Qualifies(frames[m])
    ensures StreakStart(frames, k) == 0
  {
    if k > 0 {
      StreakStartFromZero(frames, k - 1);
    }
  }
}
