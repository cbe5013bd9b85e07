/** The clock-in page: one capture, recognise, clock-in cycle per press of
    the capture button, a feed of the latest four records refreshed by a
    30 s poll and after a successful clock-in, and a geolocation fix cached
    for the requests.

    `handleCapture` awaits three service calls; each await is a suspension
    point, so the cycle is a small state machine (`Phase`) whose steps are the
    methods of `AttendanceView`: `Press` runs the handler up to the
    recognition request, `RecognitionSettled`, `ClockInSettled` and
    `RefreshSettled` resume it with the service's answer, which is a
    parameter. The poll (`PollTick`) and the geolocation callback
    (`PositionFixed`) may run between the steps. `isProcessing` is true
    exactly while a cycle is suspended, and the capture button is disabled
    then. */
module AttendancePage {
  import opened Common
  import opened Shared

  /** How many records the "Recent Check-ins" panel keeps. */
  const FeedWindow: nat := 4

  /** The employee part of a recognition answer. */
  datatype Employee = Employee(id: string, name: string, position: string, confidence: int)

  /** How `faceAPI.recognize` settled: an answer, or a rejection carrying the
      error's message ("" when it has none). */
  datatype Recognition =
    | Answered(success: bool, recognized: bool, employee: Option<Employee>, message: string)
    | Thrown(message: string)

  /** The body of a rejected attendance request, when the server sent one. */
  datatype ErrorBody = ErrorBody(alreadyCheckedIn: bool, message: string)

  /** How `attendanceAPI.clockIn` settled. */
  datatype ClockInReply = Resolved(success: bool) | Rejected(body: Option<ErrorBody>)

  /** How `attendanceAPI.getToday` settled. */
  datatype FeedReply = Fetched(records: seq<AttendanceRecord>) | FetchFailed(body: Option<ErrorBody>)

  /** A geolocation fix, its coordinates as their decimal text. */
  datatype Location = Location(lat: string, lng: string)

  datatype ClockInRequest = ClockInRequest(employeeId: string, latitude: string, longitude: string)

  /** The service call a step issues, if any. */
  datatype Call = NoCall | RecognizeCall(image: string) | ClockInCall(request: ClockInRequest) | FetchTodayCall

  /** The "recognized" overlay. */
  datatype Shown = Shown(name: string, id: string, position: string, confidence: int)

  /** Where a pending `handleCapture` is suspended. The location and the
      clock text are the ones its closure captured when it was pressed. */
  datatype Phase =
    | Idle
    | Recognizing(loc: Option<Location>, now: string)
    | ClockingIn(employee: Employee, now: string)
    | Refreshing

  /** What one step does: the phase it leaves, the call it issues, the toast it shows. */
  datatype Effect = Effect(next: Phase, call: Call, toast: Option<Toast>)

  const CameraUnavailable := Toast("Camera Error", "Camera is not available", true)
  const CaptureFailed := Toast("Error", "Failed to capture image", true)

  predicate HasImage(shot: Option<string>)
  {
    shot.Some? && shot.value != ""
  }

  /** The condition under which the page clocks in. */
  predicate RecognitionSucceeded(reply: Recognition)
  {
    reply.Answered? && reply.success && reply.recognized && reply.employee.Some?
  }

  /** The first records of a fetch, as many as the panel keeps. */
  function Window(records: seq<AttendanceRecord>): (r: seq<AttendanceRecord>)
    ensures r <= records
    ensures |r| == if |records| < FeedWindow then |records| else FeedWindow
  {
    records[..if |records| < FeedWindow then |records| else FeedWindow]
  }

  /** The clock-in request for a recognised employee: the cached coordinates
      as text, each "0" when there is no fix. */
  function RequestFor(e: Employee, loc: Option<Location>): (req: ClockInRequest)
    ensures req.employeeId == e.id
    ensures loc.None? ==> req.latitude == "0" && req.longitude == "0"
    ensures loc.Some? && loc.value.lat != "" ==> req.latitude == loc.value.lat
    ensures loc.Some? && loc.value.lng != "" ==> req.longitude == loc.value.lng
    ensures loc.Some? && loc.value.lat == "" ==> req.latitude == "0"
    ensures loc.Some? && loc.value.lng == "" ==> req.longitude == "0"
    ensures req.latitude != "" && req.longitude != ""
  {
    match loc
    case None => ClockInRequest(e.id, "0", "0")
    case Some(l) => ClockInRequest(e.id, OrElse(l.lat, "0"), OrElse(l.lng, "0"))
  }

  /** The overlay for a recognised employee, with the page's fallbacks. */
  function ShownFor(e: Employee): (r: Shown)
    ensures r.name != "" && r.id != "" && r.position != ""
    ensures e.name != "" ==> r.name == e.name
    ensures e.name == "" ==> r.name == "Unknown"
    ensures e.id != "" ==> r.id == e.id
    ensures e.id == "" ==> r.id == "N/A"
    ensures e.position != "" ==> r.position == e.position
    ensures e.position == "" ==> r.position == "Employee"
    ensures r.confidence == e.confidence
  {
    Shown(OrElse(e.name, "Unknown"), OrElse(e.id, "N/A"), OrElse(e.position, "Employee"), e.confidence)
  }

  /** The toast of the clock-in `catch`: exactly two kinds, the informational
      duplicate and the failure. */
  function ClockInErrorToast(body: Option<ErrorBody>): (t: Toast)
    ensures t.destructive
    ensures t.title == "Sudah Check-In" <==> body.Some? && body.value.alreadyCheckedIn
    ensures t.title != "Sudah Check-In" ==> t.title == "Clock In Failed"
    ensures body.Some? && body.value.alreadyCheckedIn ==>
              t.description == OrElse(body.value.message, "Anda sudah check-in hari ini")
    ensures body.Some? && !body.value.alreadyCheckedIn ==>
              t.description == OrElse(body.value.message, "Failed to record attendance")
    ensures body.None? ==> t.description == "Failed to record attendance"
  {
    if body.Some? && body.value.alreadyCheckedIn then
      Toast("Sudah Check-In", OrElse(body.value.message, "Anda sudah check-in hari ini"), true)
    else
      Toast("Clock In Failed", if body.Some? then OrElse(body.value.message, "Failed to record attendance")
                               else "Failed to record attendance", true)
  }

  // ---------------------------------------------------------------- the steps

  /** The handler from the press up to its first await. */
  function OnPress(hasCamera: bool, shot: Option<string>, loc: Option<Location>, now: string): (e: Effect)
    ensures e.call.RecognizeCall? <==> hasCamera && HasImage(shot)
    ensures e.call.RecognizeCall? ==> e == Effect(Recognizing(loc, now), RecognizeCall(shot.value), None)
    ensures !hasCamera ==> e == Effect(Idle, NoCall, Some(CameraUnavailable))
    ensures hasCamera && !HasImage(shot) ==> e == Effect(Idle, NoCall, Some(CaptureFailed))
  {
    if !hasCamera then Effect(Idle, NoCall, Some(CameraUnavailable))
    else if !HasImage(shot) then Effect(Idle, NoCall, Some(CaptureFailed))
    else Effect(Recognizing(loc, now), RecognizeCall(shot.value), None)
  }

  /** The handler resumed with the recognition answer. */
  function OnRecognition(reply: Recognition, loc: Option<Location>, now: string): (e: Effect)
    ensures e.call.ClockInCall? <==> RecognitionSucceeded(reply)
    ensures RecognitionSucceeded(reply) ==>
              e == Effect(ClockingIn(reply.employee.value, now), ClockInCall(RequestFor(reply.employee.value, loc)), None)
    ensures reply.Answered? && !RecognitionSucceeded(reply) ==>
              e == Effect(Idle, NoCall, Some(Toast("Face Not Recognized", OrElse(reply.message, "Please try again or register first"), true)))
    ensures reply.Thrown? ==>
              e == Effect(Idle, NoCall, Some(Toast("Error", OrElse(reply.message, "Failed to process face recognition"), true)))
  {
    match reply
    case Thrown(m) => Effect(Idle, NoCall, Some(Toast("Error", OrElse(m, "Failed to process face recognition"), true)))
    case Answered(_, _, _, m) =>
      if RecognitionSucceeded(reply) then
        Effect(ClockingIn(reply.employee.value, now), ClockInCall(RequestFor(reply.employee.value, loc)), None)
      else
        Effect(Idle, NoCall, Some(Toast("Face Not Recognized", OrElse(m, "Please try again or register first"), true)))
  }

  /** The handler resumed with the clock-in answer. Only a success refreshes
      the feed; nothing is retried. */
  function OnClockIn(employee: Employee, reply: ClockInReply, now: string): (e: Effect)
    ensures e.call == FetchTodayCall <==> reply == Resolved(true)
    ensures e.call != FetchTodayCall ==> e.call == NoCall && e.next == Idle
    ensures reply == Resolved(true) ==>
              e.next == Refreshing && e.toast == Some(Toast("Attendance Recorded", employee.name + " clocked in at " + now, false))
    ensures reply == Resolved(false) ==> e.toast.None?
    ensures reply.Rejected? ==> e.toast == Some(ClockInErrorToast(reply.body))
  {
    match reply
    case Resolved(ok) =>
      if ok then Effect(Refreshing, FetchTodayCall, Some(Toast("Attendance Recorded", employee.name + " clocked in at " + now, false)))
      else Effect(Idle, NoCall, None)
    case Rejected(body) => Effect(Idle, NoCall, Some(ClockInErrorToast(body)))
  }

  /** The handler resumed with the refreshed feed. A failed refresh lands in
      the clock-in `catch`, so it is reported like a failed clock-in. */
  function OnRefresh(reply: FeedReply): (r: (Option<seq<AttendanceRecord>>, Option<Toast>))
    ensures r.0.Some? <==> reply.Fetched?
    ensures reply.Fetched? ==> r.0 == Some(Window(reply.records)) && r.1.None?
    ensures reply.FetchFailed? ==> r.1 == Some(ClockInErrorToast(reply.body))
  {
    match reply
    case Fetched(records) => (Some(Window(records)), None)
    case FetchFailed(body) => (None, Some(ClockInErrorToast(body)))
  }

  function ToList(t: Option<Toast>): seq<Toast>
  {
    if t.Some? then [t.value] else []
  }

  // ---------------------------------------------------------------- a whole cycle

  /** How a cycle ended. */
  datatype Outcome =
    | CameraMissing
    | NoScreenshot
    | RecognitionError
    | NotRecognized
    | ClockedIn
    | AlreadyCheckedIn
    | ClockInFailed
    | ClockInUnconfirmed

  /** A cycle run without interruption: how it ended, the calls it made in
      order, the toasts it showed in order, and the new feed if it set one. */
  datatype CycleResult = CycleResult(
    outcome: Outcome,
    calls: seq<Call>,
    toasts: seq<Toast>,
    feed: Option<seq<AttendanceRecord>>)

  predicate ClockInCalled(calls: seq<Call>)
  {
    exists i :: 0 <= i < |calls| && calls[i].ClockInCall?
  }

  function Cycle(hasCamera: bool, shot: Option<string>, loc: Option<Location>, now: string,
                 recognition: Recognition, clockIn: ClockInReply, refresh: FeedReply): (r: CycleResult)
    // clock-in happens if and only if recognition succeeded
    ensures ClockInCalled(r.calls) <==> hasCamera && HasImage(shot) && RecognitionSucceeded(recognition)
    // recognition comes first, then clock-in, then the refresh; each at most once
    ensures |r.calls| <= 3
    ensures |r.calls| >= 1 ==> hasCamera && HasImage(shot) && r.calls[0] == RecognizeCall(shot.value)
    ensures |r.calls| >= 2 ==> RecognitionSucceeded(recognition) && r.calls[1] == ClockInCall(RequestFor(recognition.employee.value, loc))
    ensures |r.calls| == 3 ==> r.calls[2] == FetchTodayCall
    ensures !hasCamera ==> r == CycleResult(CameraMissing, [], [CameraUnavailable], None)
    ensures hasCamera && !HasImage(shot) ==> r == CycleResult(NoScreenshot, [], [CaptureFailed], None)
    ensures r.outcome == RecognitionError <==> hasCamera && HasImage(shot) && recognition.Thrown?
    ensures r.outcome == RecognitionError ==>
              HasImage(shot) && r.calls == [RecognizeCall(shot.value)]
              && r.toasts == [Toast("Error", OrElse(recognition.message, "Failed to process face recognition"), true)]
    ensures r.outcome == NotRecognized <==>
              hasCamera && HasImage(shot) && recognition.Answered? && !RecognitionSucceeded(recognition)
    ensures r.outcome == NotRecognized ==>
              HasImage(shot) && r.calls == [RecognizeCall(shot.value)]
              && r.toasts == [Toast("Face Not Recognized", OrElse(recognition.message, "Please try again or register first"), true)]
    // the clock-in answer decides the toasts
    ensures r.outcome == ClockedIn ==>
              RecognitionSucceeded(recognition)
              && r.toasts == [Toast("Attendance Recorded", recognition.employee.value.name + " clocked in at " + now, false)]
                             + ToList(OnRefresh(refresh).1)
    ensures ClockInCalled(r.calls) && clockIn.Rejected? ==>
              r.toasts == [ClockInErrorToast(clockIn.body)] && (r.outcome == AlreadyCheckedIn || r.outcome == ClockInFailed)
    ensures ClockInCalled(r.calls) && clockIn == Resolved(false) ==> r.outcome == ClockInUnconfirmed && r.toasts == []
    ensures r.outcome == ClockedIn <==> ClockInCalled(r.calls) && clockIn == Resolved(true)
    // a successful clock-in always refreshes today's records into the feed
    ensures r.outcome == ClockedIn ==>
              |r.calls| == 3 && r.feed == (if refresh.Fetched? then Some(Window(refresh.records)) else None)
    ensures r.outcome == AlreadyCheckedIn <==>
              ClockInCalled(r.calls) && clockIn.Rejected? && clockIn.body.Some? && clockIn.body.value.alreadyCheckedIn
    // only a successful clock-in touches the feed, and then with at most four records
    ensures r.feed.Some? ==> r.outcome == ClockedIn && refresh.Fetched? && r.feed == Some(Window(refresh.records))
    ensures r.outcome != ClockedIn ==> |r.calls| <= 2 && r.feed.None?
    ensures |r.toasts| <= 2
  {
    var pressed := OnPress(hasCamera, shot, loc, now);
    if !pressed.call.RecognizeCall? then
      CycleResult(if hasCamera then NoScreenshot else CameraMissing, [], ToList(pressed.toast), None)
    else
      var answered := OnRecognition(recognition, loc, now);
      if !answered.call.ClockInCall? then
        CycleResult(if recognition.Thrown? then RecognitionError else NotRecognized,
                    [pressed.call], ToList(answered.toast), None)
      else
        var settled := OnClockIn(recognition.employee.value, clockIn, now);
        assert [pressed.call, answered.call][1].ClockInCall?;
        if settled.call != FetchTodayCall then
          CycleResult(if clockIn.Resolved? then ClockInUnconfirmed
                      else if ClockInErrorToast(clockIn.body).title == "Sudah Check-In" then AlreadyCheckedIn
                      else ClockInFailed,
                      [pressed.call, answered.call], ToList(settled.toast), None)
        else
          var refreshed := OnRefresh(refresh);
          var calls := [pressed.call, answered.call, settled.call];
          assert calls[1].ClockInCall?;
          CycleResult(ClockedIn, calls,
                      ToList(settled.toast) + ToList(refreshed.1), refreshed.0)
  }

  /** A refresh that fails after a successful clock-in shows the success toast
      and then a "Clock In Failed" toast, and leaves the feed alone. */
  lemma RefreshFailureReportedAsClockInFailure(shot: string, loc: Option<Location>, now: string, e: Employee)
    requires shot != ""
    ensures var r := Cycle(true, Some(shot), loc, now, Answered(true, true, Some(e), ""), Resolved(true), FetchFailed(None));
            && r.outcome == ClockedIn
            && r.toasts == [Toast("Attendance Recorded", e.name + " clocked in at " + now, false),
                            Toast("Clock In Failed", "Failed to record attendance", true)]
            && r.feed.None?
  {
  }

  // ---------------------------------------------------------------- the page

  class AttendanceView {
    var isProcessing: bool
    var phase: Phase
    var recognized: Option<Shown>
    var recentAttendance: seq<AttendanceRecord>
    var location: Option<Location>

    ghost predicate Valid()
      reads this
    {
      (isProcessing <==> !phase.Idle?) && |recentAttendance| <= FeedWindow
    }

    constructor ()
      ensures Valid()
      ensures !isProcessing && recognized.None? && recentAttendance == [] && location.None?
    {
      isProcessing := false;
      phase := Idle;
      recognized := None;
      recentAttendance := [];
      location := None;
    }

    /** The capture button is disabled while a cycle is in flight. */
    predicate CaptureEnabled()
      reads this
    {
      !isProcessing
    }

    /** A press of the capture button. A press on the disabled button does
        nothing; otherwise the handler runs up to the recognition request, or
        to its end when there is no camera or no screenshot. */
    method Press(hasCamera: bool, shot: Option<string>, now: string) returns (call: Call, toast: Option<Toast>)
      requires Valid()
      modifies this
      ensures Valid()
      ensures old(isProcessing) ==> call == NoCall && toast.None? && phase == old(phase) && recognized == old(recognized)
      ensures !old(isProcessing) ==> Effect(phase, call, toast) == OnPress(hasCamera, shot, old(location), now)
      ensures !old(isProcessing) && hasCamera ==> recognized.None?
      ensures !hasCamera ==> recognized == old(recognized)
      ensures recentAttendance == old(recentAttendance) && location == old(location)
    {
      call, toast := NoCall, None;
      if !isProcessing {
        if !hasCamera {
          toast := Some(CameraUnavailable);
        } else {
          isProcessing := true;
          recognized := None;
          if !HasImage(shot) {
            toast := Some(CaptureFailed);
            isProcessing := false;
          } else {
            call := RecognizeCall(shot.value);
            phase := Recognizing(location, now);
          }
        }
      }
    }

    /** The recognition request settled. */
    method RecognitionSettled(reply: Recognition) returns (call: Call, toast: Option<Toast>)
      requires Valid() && phase.Recognizing?
      modifies this
      ensures Valid()
      ensures Effect(phase, call, toast) == OnRecognition(reply, old(phase).loc, old(phase).now)
      ensures RecognitionSucceeded(reply) ==> recognized == Some(ShownFor(reply.employee.value))
      ensures !RecognitionSucceeded(reply) ==> recognized == old(recognized)
      ensures recentAttendance == old(recentAttendance) && location == old(location)
    {
      var e := OnRecognition(reply, phase.loc, phase.now);
      if RecognitionSucceeded(reply) {
        recognized := Some(ShownFor(reply.employee.value));
      }
      phase, call, toast := e.next, e.call, e.toast;
      isProcessing := !phase.Idle?;
    }

    /** The clock-in request settled. */
    method ClockInSettled(reply: ClockInReply) returns (call: Call, toast: Option<Toast>)
      requires Valid() && phase.ClockingIn?
      modifies this
      ensures Valid()
      ensures Effect(phase, call, toast) == OnClockIn(old(phase).employee, reply, old(phase).now)
      ensures recognized == old(recognized) && recentAttendance == old(recentAttendance) && location == old(location)
    {
      var e := OnClockIn(phase.employee, reply, phase.now);
      phase, call, toast := e.next, e.call, e.toast;
      isProcessing := !phase.Idle?;
    }

    /** The refresh after a successful clock-in settled; the cycle ends. */
    method RefreshSettled(reply: FeedReply) returns (toast: Option<Toast>)
      requires Valid() && phase.Refreshing?
      modifies this
      ensures Valid() && !isProcessing && phase.Idle?
      ensures toast == OnRefresh(reply).1
      ensures recentAttendance == if reply.Fetched? then Window(reply.records) else old(recentAttendance)
      ensures recognized == old(recognized) && location == old(location)
    {
      var r := OnRefresh(reply);
      if r.0.Some? {
        recentAttendance := r.0.value;
      }
      toast := r.1;
      phase := Idle;
      isProcessing := false;
    }

    /** One firing of the 30 s poll (and the fetch on mount). A failure is
        swallowed and keeps the feed. */
    method PollTick(reply: FeedReply)
      requires Valid()
      modifies this
      ensures Valid()
      ensures recentAttendance == if reply.Fetched? then Window(reply.records) else old(recentAttendance)
      ensures isProcessing == old(isProcessing) && phase == old(phase)
      ensures recognized == old(recognized) && location == old(location)
    {
      if reply.Fetched? {
        recentAttendance := Window(reply.records);
      }
    }

    /** The geolocation success callback; the error callback changes nothing. */
    method PositionFixed(loc: Location)
      requires Valid()
      modifies this
      ensures Valid() && location == Some(loc)
      ensures isProcessing == old(isProcessing) && phase == old(phase)
      ensures recognized == old(recognized) && recentAttendance == old(recentAttendance)
    {
      location := Some(loc);
    }

    /** One press of the enabled button, run to the end with no poll or
        geolocation callback in between. */
    method HandleCapture(hasCamera: bool, shot: Option<string>, now: string,
                         recognition: Recognition, clockIn: ClockInReply, refresh: FeedReply)
      returns (calls: seq<Call>, toasts: seq<Toast>)
      requires Valid() && !isProcessing
      modifies this
      ensures Valid() && !isProcessing && phase.Idle?
      ensures var r := Cycle(hasCamera, shot, old(location), now, recognition, clockIn, refresh);
              && calls == r.calls && toasts == r.toasts
              && recentAttendance == (if r.feed.Some? then r.feed.value else old(recentAttendance))
      ensures location == old(location)
    {
      var call, toast := Press(hasCamera, shot, now);
      calls, toasts := [], ToList(toast);
      if call.RecognizeCall? {
        calls := [call];
        call, toast := RecognitionSettled(recognition);
        toasts := ToList(toast);
        if call.ClockInCall? {
          calls := calls + [call];
          call, toast := ClockInSettled(clockIn);
          toasts := ToList(toast);
          if call == FetchTodayCall {
            calls := calls + [call];
            var last := RefreshSettled(refresh);
            toasts := toasts + ToList(last);
          }
        }
      }
    }
  }
}
