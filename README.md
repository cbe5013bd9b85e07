# Face-recognition attendance: a Dafny model

This project models the stateful rules of a face-recognition attendance
system. The system has a Flask backend over MySQL and a React frontend.
The model covers:

- **Enrollment wizard** (`Registration`). Four stages: basic info, face
  capture, model training, complete. It has a stage gate on Next, an
  auto-capture timer filling a buffer of at most 20 frames, a placeholder
  fill when the camera fails, and a training timer adding 5 per tick.
  - Training finishes on the tick after progress reads 100.
  - Back/Next navigation and the "Register Another" reset.
- **Clock-in page** (`AttendancePage`). One capture → recognise →
  clock-in → refresh cycle per press.
  - Each await in the handler is a suspension point, so each step is a
    method resumed with the service's reply as a parameter.
  - The whole cycle is also a pure function `Cycle` that classifies the
    attempt into exactly one `Outcome`.
  - A feed of the first 4 records, kept when a poll fails.
  - A cached geolocation fix, sent as text with "0" as fallback.
- **Backend tables** (`Backend`). Tables are sequences of rows.
  - Clock-in: at most once per employee per day, 404 for an unknown
    employee.
  - The "today" status rule.
  - The dashboard statistics, with the absent count clamped at 0.
  - The next employee id.
- **Training labels** (`Training`). The `.jpg` files of the dataset
  listing, labelled by the integer before the first dot.
- **Admin session** (`Session`). One flag: set by login with
  admin/admin123, cleared by logout, reported by `me`.
- **Stream counter** (`Stream`). `cnt`, `pause_cnt` and `justscanned` of
  `draw_boundary`, per detected face.
- **Dashboard page** (`DashboardPage`).
  - The case-insensitive name search.
  - The statistics computed from the attendance list when the statistics
    call fails.
  - The loading/error flow and the empty-table message.
- **Simulated live feed** (`LiveFeed`). Prepend-and-truncate to 20 events.
  The random draws are parameters.

`Common` has the string helpers these use:

- JavaScript's `||` on strings;
- decimal digits;
- Python's `int()` and `str.split`;
- ASCII lower-casing and `includes`.

`Shared` has the attendance record, the statistics, the time of day and
the toast.

The timers become tick methods: `Wizard.CaptureTick`,
`Wizard.TrainingTick`, `AttendanceView.PollTick`, `LiveFeedView.Tick`,
and `DashboardView.StartFetch` for the 30-second refresh.

Service replies, screenshots, geolocation fixes, clock readings,
directory listings and face detections are all method parameters.

Where the code and its documentation differ, the model follows the code:

- Back is enabled on stage 2 as well as stage 1; it is disabled only on
  stage 0.
- The capture gate is "at least 20" frames.
- After a successful clock-in, a failed refresh of the feed lands in the
  clock-in `catch`. It therefore shows a "Clock In Failed" toast after the
  success toast (`AttendancePage.RefreshFailureReportedAsClockInFailure`).
- A record at exactly 09:00:00 is "late" by the status rule but is not
  counted by the late-arrivals statistic, which counts times strictly
  after 09:00:00.
- The dashboard's fallback absent count is `2 - present` and can be
  negative.
- The live feed's `scanning` flag is never cleared by the page.

## Model

| member | source | states |
|---|---|---|
| Common.ParseInt | backend/api.py:213 | a result exists iff the text is one or more ASCII digits with an optional leading `+` or `-`; it is the digits' decimal value, negated after `-` |
| Common.Split | backend/api.py:211 | at least one part, and no part contains the separator |
| Common.ParseIntOfNat | backend/api.py:213 | the decimal text of a number parses back to that number |
| Common.IncludesIff | frontend/src/pages/Dashboard.tsx:84 | `includes` holds exactly when the needle occurs at some position of the text |
| Shared.ClockText | backend/api.py:390 | `%H:%M:%S` text: eight characters with colons at positions 2 and 5; the three two-digit fields read back as the hour, minute and second |
| Shared.ClockTextInjective | backend/api.py:390 | different times of day give different texts |
| Registration.CanProceed | frontend/src/pages/EmployeeRegistration.tsx:64-68 | the gate is open on stage 0 iff all four fields are non-empty, on stage 1 iff at least 20 frames were captured, and always on the later stages |
| Registration.NextEnabled | frontend/src/pages/EmployeeRegistration.tsx:64-68 | Next is enabled on stage 0 iff all four fields are non-empty, on stage 1 iff at least 20 frames, on stage 2 iff progress ≥ 100, never on stage 3 |
| Registration.BackTarget | frontend/src/pages/EmployeeRegistration.tsx:210-213 | Back goes one stage earlier on stages 1 and 2, does nothing on stage 0, and is absent on stage 3 |
| Registration.AfterCaptureTick | frontend/src/pages/EmployeeRegistration.tsx:31-45 | a tick appends exactly the screenshot iff on stage 1 with fewer than 20 frames and a non-empty screenshot; otherwise the buffer is unchanged; it never exceeds 20 |
| Registration.Placeholders | frontend/src/pages/EmployeeRegistration.tsx:142-159 | exactly n entries `placeholder-i`, none starting with `data:`, so none is drawn as an image |
| Registration.NextProgress | frontend/src/pages/EmployeeRegistration.tsx:51-59 | a tick adds 5 below 100 and leaves 100 at 100; from a multiple of 5 at most 100 it stays a multiple of 5, at most 100, and grows unless already 100 |
| Registration.ProgressTraceShape | frontend/src/pages/EmployeeRegistration.tsx:47-62 | from a multiple of 5, successive ticks show p+5, p+10, … up to 100 and never beyond |
| Registration.TrainingFromZero | frontend/src/pages/EmployeeRegistration.tsx:47-62 | from 0, the first twenty ticks show 5, 10, …, 100 |
| Registration.Wizard.constructor | frontend/src/pages/EmployeeRegistration.tsx:21-25 | stage 0, empty form, empty buffer, progress 0, not training |
| Registration.Wizard.EditForm | frontend/src/pages/EmployeeRegistration.tsx:101-113 | an input edit replaces the form and changes nothing else |
| Registration.Wizard.CaptureTick | frontend/src/pages/EmployeeRegistration.tsx:31-45 | the buffer becomes `AfterCaptureTick` of the old state; nothing else changes |
| Registration.Wizard.CameraError | frontend/src/pages/EmployeeRegistration.tsx:142-146 | the buffer becomes exactly 20 placeholders; nothing else changes |
| Registration.Wizard.StartTraining | frontend/src/pages/EmployeeRegistration.tsx:47-50 | when offered (stage 2, not training, progress 0), starts training from 0 and records the trainee's name; otherwise changes nothing |
| Registration.Wizard.TrainingTick | frontend/src/pages/EmployeeRegistration.tsx:50-61 | while training: adds 5; on the tick that reads 100, stops, moves to stage 3 and returns the one completion notice with the recorded name; progress never decreases and never exceeds 100 |
| Registration.Wizard.Back | frontend/src/pages/EmployeeRegistration.tsx:212 | stage becomes `BackTarget` of the old stage; nothing else changes |
| Registration.Wizard.Next | frontend/src/pages/EmployeeRegistration.tsx:215-217 | moves one stage on iff `NextEnabled`; nothing else changes |
| Registration.Wizard.RegisterAnother | frontend/src/pages/EmployeeRegistration.tsx:201 | stage 0, empty form, empty buffer, progress 0 |
| AttendancePage.Window | frontend/src/pages/Attendance.tsx:57 | the first min(4, n) records, a prefix of the fetch |
| AttendancePage.RequestFor | frontend/src/pages/Attendance.tsx:106-110 | carries the employee id; each coordinate is the cached text, or exactly "0" when there is no fix or the text is empty |
| AttendancePage.ShownFor | frontend/src/pages/Attendance.tsx:98-103 | the overlay shows the employee's name, id and position, or "Unknown", "N/A" and "Employee" for an empty one, never an empty field; the confidence is passed through |
| AttendancePage.ClockInErrorToast | frontend/src/pages/Attendance.tsx:126-143 | exactly two kinds: "Sudah Check-In" iff the body says already checked in, else "Clock In Failed"; each with the server message or its fallback |
| AttendancePage.OnPress | frontend/src/pages/Attendance.tsx:68-92 | no camera: "Camera is not available", no call, phase stays idle; no screenshot: "Failed to capture image", no call; otherwise the recognition request for the screenshot |
| AttendancePage.OnRecognition | frontend/src/pages/Attendance.tsx:92-160 | clock-in is requested iff success, recognised and an employee; otherwise "Face Not Recognized" with the service message or "Please try again or register first", or "Error" on a rejection |
| AttendancePage.OnClockIn | frontend/src/pages/Attendance.tsx:112-144 | only a successful clock-in refreshes the feed, with the success toast; a rejection shows `ClockInErrorToast`; nothing is retried |
| AttendancePage.OnRefresh | frontend/src/pages/Attendance.tsx:121-143 | a fetched refresh sets the feed to its first four records; a failed one sets nothing and shows the clock-in failure toast |
| AttendancePage.Cycle | frontend/src/pages/Attendance.tsx:68-164 | clock-in is called iff camera present, screenshot present and recognition succeeded; calls come in order recognise → clock-in → refresh; the outcome is "recognition error" iff recognition was rejected and "not recognised" iff it answered without a match, each with its full toast; "clocked in" iff clock-in was called and succeeded, and then today's records are always fetched and their first four become the feed when the fetch succeeds, with the success toast naming the employee and time, then the refresh's toast if any; a rejected clock-in gives exactly `ClockInErrorToast` and a resolved failure no toast; only "clocked in" sets the feed, with at most four records |
| AttendancePage.RefreshFailureReportedAsClockInFailure | frontend/src/pages/Attendance.tsx:112-143 | a failed refresh after a successful clock-in shows the success toast then "Clock In Failed", and leaves the feed alone |
| AttendancePage.AttendanceView.constructor | frontend/src/pages/Attendance.tsx:20-27 | not processing, nothing recognised, empty feed, no location |
| AttendancePage.AttendanceView.Press | frontend/src/pages/Attendance.tsx:68-92 | a press while processing does nothing; otherwise the state and call are those of `OnPress`; without a camera, processing is never set |
| AttendancePage.AttendanceView.RecognitionSettled | frontend/src/pages/Attendance.tsx:92-160 | the state and call are those of `OnRecognition`; the overlay is set only on success |
| AttendancePage.AttendanceView.ClockInSettled | frontend/src/pages/Attendance.tsx:112-144 | the state and call are those of `OnClockIn` |
| AttendancePage.AttendanceView.RefreshSettled | frontend/src/pages/Attendance.tsx:121-163 | the cycle ends with processing false; the feed is the first four refreshed records, or unchanged on failure |
| AttendancePage.AttendanceView.PollTick | frontend/src/pages/Attendance.tsx:52-66 | a fetched poll sets the feed to its first four records; a failed one is swallowed and keeps the feed |
| AttendancePage.AttendanceView.PositionFixed | frontend/src/pages/Attendance.tsx:35-49 | the fix is cached; nothing else changes |
| AttendancePage.AttendanceView.HandleCapture | frontend/src/pages/Attendance.tsx:68-164 | one uninterrupted press makes the calls and toasts of `Cycle` and ends with processing false |
| Backend.FindPerson | backend/api.py:356-362 | the employee with that number, found iff one exists |
| Backend.FirstPresence | backend/api.py:369-374 | a row of that employee on that day, found iff one exists |
| Backend.ClockInOn | backend/api.py:345-415 | unknown or missing id: "Employee not found", nothing written; a row already today: `already_checked_in` with its time, nothing written; otherwise exactly one `absensi` row and one `accs_hist` row are appended and the next row id advances by one |
| Backend.OncePerDay | backend/api.py:369-384 | after a recorded clock-in, a second one the same day is refused with the first time, 400, success false, and writes nothing |
| Backend.ClockInKeepsOneRowPerDay | backend/api.py:369-399 | clock-in keeps at most one `absensi` row per employee per day |
| Backend.StatusOf | backend/api.py:435 | "on-time" iff the hour is before 9, else "late" |
| Backend.ToRecord | backend/api.py:432-448 | the record carries the row's id, employee, name and department, its `%H:%M:%S` time, status "on-time" iff the hour is before 9 and "late" otherwise, and confidence 95 |
| Backend.TodayRecords | backend/api.py:417-452 | exactly the rows of today become records (each with its status and confidence 95), and no others |
| Backend.CountActive | backend/api.py:507-508 | the number of employee rows marked active, at most the table size |
| Backend.DashboardStats | backend/api.py:500-534 | total = active employees; present and late = distinct employees (late: after 09:00:00); late ≤ present; absent = max(0, total − present) ≥ 0 |
| Backend.StatusAndLateCountDisagreeAtNine | backend/api.py:513-519 | the status rule says "late" exactly for times after 09:00:00 and for 09:00:00 itself |
| Backend.NineOClockRecord | backend/api.py:434-435 | a single 09:00:00 record is "late" yet counts 0 late arrivals out of 1 present |
| Backend.MaxNbr | backend/api.py:92 | the largest employee number, attained by some employee |
| Backend.NextEmployeeId | backend/api.py:87-97 | 101 for an empty table, else max + 1; greater than every number, so unused |
| Backend.Database.constructor | backend/api.py:23-30 | the connected database holds the given employees and no attendance or access rows yet; it is the starting state, not an endpoint |
| Backend.Database.ClockIn | backend/api.py:345-415 | the new tables and the answer are those of `ClockInOn` on the old tables |
| Training.JpgFiles | backend/api.py:200 | exactly the listed names ending in `.jpg`, each as often as it is listed |
| Training.JpgFilesAppend | backend/api.py:200 | selecting distributes over concatenation, so the `.jpg` names keep listing order |
| Training.JpgFilesSingle | backend/api.py:200 | a single name is kept iff it ends in `.jpg` |
| Training.Label | backend/api.py:211-213 | a name with fewer than three dot-separated parts has no label; otherwise the label is the `int()` parse of the first part |
| Training.Labels | backend/api.py:209-224 | one label per usable file (a label from its name and loadable as an image), so as many labels as usable files |
| Training.LabelsAppend | backend/api.py:209-224 | collecting distributes over concatenation, so labels follow file order |
| Training.LabelsSingle | backend/api.py:209-224 | a single file gives its label iff it is usable, else nothing |
| Training.SamePersonTwice | backend/api.py:209-242 | two usable images of one person give that label twice: two images, one distinct person |
| Training.LabelsSound | backend/api.py:209-224 | labels are never more than files; a label is collected iff some usable file gives it |
| Training.DistinctCount | backend/api.py:237 | distinct labels are never more than labels |
| Training.DatasetFileLabel | backend/api.py:162 | a dataset file `<nbr>.<img>.jpg` is used and labelled with `nbr` |
| Training.TrainClassifier | backend/api.py:190-246 | missing directory → 404; no `.jpg` → 404; no valid file → 400; otherwise the labels of the usable files in order, with total images = labels = the number of usable `.jpg` files and 1 ≤ unique persons ≤ total images |
| Session.FlagMeansUnrevokedLogin | backend/api.py:34-62 | from logged out, the flag is set iff some admin login was not followed by a logout |
| Session.AdminSession.constructor | backend/api.py:15 | a fresh session has no admin flag; it is the starting state, not an endpoint |
| Session.AdminSession.Login | backend/api.py:34-48 | succeeds (200) and sets the flag iff admin/admin123; otherwise 401 and the flag unchanged |
| Session.AdminSession.Logout | backend/api.py:50-53 | succeeds and clears the flag |
| Session.AdminSession.Me | backend/api.py:55-62 | succeeds (200) iff the flag is set, else 401 |
| Session.AdminSession.Serve | backend/api.py:34-62 | the flag moves as `FlagAfter` says for each kind of request |
| Stream.FaceStep | backend/api.py:614-668 | a row is written iff a confident detection of a known employee, with no scan pending, brings the counter to 30; that resets both counters and starts the pause; below 30 it adds one and changes nothing else; an unknown employee resets the counter; with no scan pending a detection of confidence ≤ 70 changes nothing; the pause ends only when the pause counter is above 80; the counter stays in 0..29 |
| Stream.FacesStep | backend/api.py:609-670 | over a frame's faces the counter stays in 0..29; rows written ≤ faces, each of today and a known employee |
| Stream.Frame | backend/api.py:600-672 | the pause counter goes up once per frame before the faces; the counter stays in range |
| Stream.PendingScanIgnoresFaces | backend/api.py:662-668 | while a scan is pending and the pause counter is ≤ 80, no detection changes anything |
| Stream.QualifyingDetectionsCount | backend/api.py:614-642 | k < 30 confident detections of a known employee count to k and write nothing |
| Stream.ThirtyDetectionsScanOnce | backend/api.py:642-655 | the 30th such detection writes exactly one row and starts the pause |
| Stream.RecognitionStream.constructor | backend/api.py:19-21 | the counters start at 0 and no scan is pending |
| Stream.RecognitionStream.DrawBoundary | backend/api.py:600-672 | the new counters and history are those of `Frame` on the old ones; the counter stays in range |
| DashboardPage.Filtered | frontend/src/pages/Dashboard.tsx:83-85 | keeps exactly the records whose lower-cased name contains the lower-cased search, each as often as it occurs |
| DashboardPage.FilteredAppend | frontend/src/pages/Dashboard.tsx:83-85 | filtering distributes over concatenation, so kept records stay in their original order |
| DashboardPage.FilteredSingle | frontend/src/pages/Dashboard.tsx:83-85 | a single record is kept iff it matches |
| DashboardPage.EmptySearchKeepsAll | frontend/src/pages/Dashboard.tsx:83-85 | an empty search keeps every record |
| DashboardPage.SearchIgnoresCase | frontend/src/pages/Dashboard.tsx:84 | lower-casing the search does not change the result |
| DashboardPage.CountLate | frontend/src/pages/Dashboard.tsx:55 | the number of records whose status is "late" |
| DashboardPage.FallbackStats | frontend/src/pages/Dashboard.tsx:52-62 | total 2, present = list length, late = number of "late" records ≤ present, present + absent = 2 |
| DashboardPage.FallbackAbsentNegative | frontend/src/pages/Dashboard.tsx:61 | the fallback absent count is negative iff there are more than 2 records |
| DashboardPage.TableBody | frontend/src/pages/Dashboard.tsx:207-218 | "Loading..." iff loading; with nothing to show, "No employees found" when searching, else "No attendance records today"; otherwise exactly the filtered rows |
| DashboardPage.NoRecordsNoSearch | frontend/src/pages/Dashboard.tsx:213-217 | with no records and no search, the table says "No attendance records today" |
| DashboardPage.DashboardView.constructor | frontend/src/pages/Dashboard.tsx:27-35 | empty search and list, all-zero statistics, loading |
| DashboardPage.DashboardView.SetSearch | frontend/src/pages/Dashboard.tsx:182-185 | sets the search, also while a fetch is pending; nothing else changes |
| DashboardPage.DashboardView.StartFetch | frontend/src/pages/Dashboard.tsx:39-44 | loading starts, the attendance list is awaited and the table shows "Loading..."; list, statistics and search are unchanged |
| DashboardPage.DashboardView.AttendanceSettled | frontend/src/pages/Dashboard.tsx:44-73 | a list replaces the table and the statistics are requested with loading still on; a failure shows the error toast, skips the statistics call, keeps list and statistics and ends loading |
| DashboardPage.DashboardView.StatsSettled | frontend/src/pages/Dashboard.tsx:48-73 | the statistics become the reply, or `FallbackStats` of the list this run received; loading ends |
| DashboardPage.DashboardView.FetchData | frontend/src/pages/Dashboard.tsx:39-74 | the three steps run back to back: a failed attendance call shows the error toast, skips the statistics call and keeps list and statistics; otherwise the list is replaced, then the statistics come from the call or from `FallbackStats`; loading is false afterwards |
| LiveFeed.NameIndex | frontend/src/pages/FaceRecognition.tsx:34 | `floor(roll × 4)` is a valid index into the four names |
| LiveFeed.MakeEvent | frontend/src/pages/FaceRecognition.tsx:31-38 | a known draw (> 0.3) gives "recognized" with one of the four names and confidence in [85, 100) in exact arithmetic; otherwise "Unknown Person", "unknown", confidence in [20, 45) |
| LiveFeed.Prepend | frontend/src/pages/FaceRecognition.tsx:39 | the new event is at the head, the length is min(20, n + 1), and the older events follow in order with the overflow dropped from the tail |
| LiveFeed.AfterTicksShape | frontend/src/pages/FaceRecognition.tsx:39 | after n ticks the feed holds min(20, m + n) events, the newest first |
| LiveFeed.FeedLength | frontend/src/pages/FaceRecognition.tsx:18-39 | from the three seeded events the feed holds min(20, 3 + n) after n ticks |
| LiveFeed.LiveFeedView.constructor | frontend/src/pages/FaceRecognition.tsx:18-23 | the three seeded events, scanning |
| LiveFeed.LiveFeedView.Tick | frontend/src/pages/FaceRecognition.tsx:27-42 | while scanning, the feed becomes `Prepend` of the new event; otherwise no event is generated |

## Left out

- Face detection, LBPH training and prediction, image decoding, resizing and writing (OpenCV, PIL): foreign library calls. A detection is a predicted employee number with an integer confidence. Unloadable images are a set of file names.
- The classifier's confidence formula `int(100 * (1 - pred / 300))` and the recognition endpoint `api_recognize_face`: floating point over library output. The clock-in page receives the recognition answer as a parameter.
- SQL execution, connections, commits and Flask routing and status plumbing; tables are sequences of rows and `fetchone` takes the first matching row.
- The 500 answers of the `except` branches of the backend endpoints: they come from database or library exceptions that the model does not have.
- Backend.TodayRecords: does not model the `ORDER BY a.waktu DESC` sort; it keeps table order, and its contract speaks of membership only.
- Backend.ToRecord: the record leaves out the `date`, `clockOut` (always null), `latitude` and `longitude` fields; the pages only render them (the dashboard shows the null `clockOut` as a dash), so no modelled rule depends on them.
- Backend.ClockInOn: the current date is one parameter for both `CURDATE()` and `now.date()`, so a clock-in spanning midnight is not modelled.
- Common.ParseInt: does not accept the surrounding whitespace, digit-group underscores or non-ASCII Unicode decimal digits that Python's `int()` accepts; such names give no label in the model.
- LiveFeed.MakeEvent: confidences are exact reals; JavaScript computes `85 + r * 15` and `20 + r * 25` in doubles, where rounding can reach 100 or 45 for the largest `Math.random()` results, so the upper bounds hold for exact arithmetic only.
- DashboardPage.DashboardView.StartFetch: starts a run only when none is pending; an interval firing while an earlier run still awaits its replies, and the interleaving of two runs' writes, is not modelled.
- Common.ToLower: lower-cases ASCII letters only, where JavaScript's `toLowerCase` follows Unicode.
- The webcam, geolocation, `setInterval`/`clearInterval` timing, `Date` formatting, toast rendering and animations: browser I/O. Timers are tick methods; clock text, fixes and screenshots are parameters. Toast titles omit their emoji prefixes.
- Overlapping runs of the same async handler (the 30-second dashboard refresh overlapping a slow fetch, two recognition cycles): the model runs each handler's steps in order.
- `lib/api` is not part of this model: a non-2xx answer is taken to reject with the server body as `response.data`, and a resolved call to give the body's data.
- The registration, employee list, attendance history, delete, weekly and monthly endpoints, the dataset generator's capture loop, the health check, the charts and the hard-coded pie data: outside the modelled rules. Only the generator's file-name format is used (`Training.DatasetFileLabel`).
- The `coords` value returned by `draw_boundary` and everything drawn on the frame: rendering only.
