/** The recognition counter of the live video stream. Per frame the pause
    counter goes up by one; then each detected face either advances the
    recognition counter (confidence above 70 while no scan is pending) or
    may end the pause after a scan (pause counter above 80). Thirty
    qualifying detections of a known employee write one `accs_hist` row.

    Face detection and the classifier are not modelled: a detection is the
    predicted employee number and its integer confidence score.
    `RecognitionStream.history` stands for the same `accs_hist` table as
    `Backend.Database.history`, seen only through the rows this path writes. */
module Stream {
  import opened Common
  import opened Backend

  /** The three module-level globals `cnt`, `pause_cnt` and `justscanned`. */
  datatype Counter = Counter(cnt: int, pauseCnt: int, justScanned: bool)

  const Initial := Counter(0, 0, false)

  /** Qualifying detections of one employee needed for a scan. */
  const ScanTarget := 30
  /** A detection qualifies when its confidence is above this. */
  const ConfidenceThreshold := 70
  /** After a scan, a non-qualifying detection ends the pause once the pause
      counter is above this. */
  const PauseFrames := 80

  datatype Detection = Detection(person: int, confidence: int)

  /** The counter is in its range. */
  predicate InRange(c: Counter)
  {
    0 <= c.cnt < ScanTarget
  }

  /** One face of `draw_boundary`'s loop: the new counter, and the
      `accs_hist` row it writes, if any. */
  function FaceStep(c: Counter, d: Detection, people: seq<Person>, today: int): (r: (Counter, Option<Access>))
    ensures r.1.Some? <==>
              d.confidence > ConfidenceThreshold && !c.justScanned && FindPerson(people, d.person).Some?
              && c.cnt + 1 == ScanTarget
    ensures r.1.Some? ==> r.1.value == Access(today, d.person) && r.0 == Counter(0, 0, true)
    ensures d.confidence > ConfidenceThreshold && !c.justScanned && FindPerson(people, d.person).None? ==>
              r.0 == Counter(0, c.pauseCnt, false)
    ensures d.confidence > ConfidenceThreshold && !c.justScanned && FindPerson(people, d.person).Some?
            && c.cnt + 1 != ScanTarget ==>
              r == (Counter(c.cnt + 1, c.pauseCnt, false), None)
    ensures d.confidence <= ConfidenceThreshold && !c.justScanned ==> r == (c, None)
    ensures c.justScanned ==> r.1.None? && r.0.cnt == c.cnt && r.0.pauseCnt == c.pauseCnt
    ensures c.justScanned ==> (r.0.justScanned <==> c.pauseCnt <= PauseFrames)
    ensures !c.justScanned && r.0.justScanned ==> r.1.Some?
    ensures InRange(c) ==> InRange(r.0)
  {
    if d.confidence > ConfidenceThreshold && !c.justScanned then
      var cnt := c.cnt + 1;
      match FindPerson(people, d.person)
      case Some(p) =>
        if cnt == ScanTarget then (Counter(0, 0, true), Some(Access(today, p.nbr)))
        else (Counter(cnt, c.pauseCnt, c.justScanned), None)
      case None => (Counter(0, c.pauseCnt, c.justScanned), None)
    else
      (Counter(c.cnt, c.pauseCnt, if c.pauseCnt > PauseFrames then false else c.justScanned), None)
  }

  /** The faces of one frame, in order: the counter after them and the rows
      they write. */
  function FacesStep(c: Counter, faces: seq<Detection>, people: seq<Person>, today: int): (r: (Counter, seq<Access>))
    ensures InRange(c) ==> InRange(r.0)
    ensures |r.1| <= |faces|
    ensures forall a :: a in r.1 ==> a.day == today && FindPerson(people, a.person).Some?
    decreases |faces|
  {
    if |faces| == 0 then (c, [])
    else
      var init := FacesStep(c, faces[..|faces| - 1], people, today);
      var last := FaceStep(init.0, faces[|faces| - 1], people, today);
      (last.0, init.1 + (if last.1.Some? then [last.1.value] else []))
  }

  /** One call of `draw_boundary`: the pause counter goes up first. */
  function Frame(c: Counter, faces: seq<Detection>, people: seq<Person>, today: int): (r: (Counter, seq<Access>))
    ensures InRange(c) ==> InRange(r.0)
    ensures faces == [] ==> r == (Counter(c.cnt, c.pauseCnt + 1, c.justScanned), [])
  {
    FacesStep(Counter(c.cnt, c.pauseCnt + 1, c.justScanned), faces, people, today)
  }

  /** While a scan is pending and the pause counter is at most 80, every
      detection, however confident, leaves the counter as it is. */
  lemma {:induction false} PendingScanIgnoresFaces(c: Counter, faces: seq<Detection>, people: seq<Person>, today: int)
    requires c.justScanned && c.pauseCnt <= PauseFrames
    ensures FacesStep(c, faces, people, today) == (c, [])
    decreases |faces|
  {
    if |faces| > 0 {
      PendingScanIgnoresFaces(c, faces[..|faces| - 1], people, today);
    }
  }

  /** Fewer than thirty qualifying detections of a known employee, from a
      fresh counter, count up and write nothing. */
  lemma {:induction false} QualifyingDetectionsCount(k: nat, d: Detection, people: seq<Person>, today: int, pause: int)
    requires d.confidence > ConfidenceThreshold && FindPerson(people, d.person).Some?
    requires k < ScanTarget
    ensures FacesStep(Counter(0, pause, false), seq(k, _ => d), people, today) == (Counter(k, pause, false), [])
    decreases k
  {
    if k > 0 {
      QualifyingDetectionsCount(k - 1, d, people, today, pause);
      assert seq(k, _ => d)[..k - 1] == seq(k - 1, _ => d);
    }
  }

  /** The thirtieth qualifying detection of a known employee writes the one
      `accs_hist` row, starts the pause and resets both counters. */
  lemma ThirtyDetectionsScanOnce(d: Detection, people: seq<Person>, today: int, pause: int)
    requires d.confidence > ConfidenceThreshold && FindPerson(people, d.person).Some?
    ensures FacesStep(Counter(0, pause, false), seq(ScanTarget, _ => d), people, today)
            == (Counter(0, 0, true), [Access(today, d.person)])
  {
    var all := seq(ScanTarget, _ => d);
    QualifyingDetectionsCount(ScanTarget - 1, d, people, today, pause);
    assert all[..ScanTarget - 1] == seq(ScanTarget - 1, _ => d);
    assert all[ScanTarget - 1] == d;
    var last := FaceStep(Counter(ScanTarget - 1, pause, false), d, people, today);
    assert last == (Counter(0, 0, true), Some(Access(today, d.person)));
    assert [] + [Access(today, d.person)] == [Access(today, d.person)];
  }

  /** The stream's globals and the `accs_hist` rows it writes. */
  class RecognitionStream {
    var cnt: int
    var pauseCnt: int
    var justScanned: bool
    var history: seq<Access>

    function State(): Counter
      reads this
    {
      Counter(cnt, pauseCnt, justScanned)
    }

    ghost predicate Valid()
      reads this
    {
      InRange(State())
    }

    constructor ()
      ensures Valid() && State() == Initial && history == []
    {
      cnt := 0;
      pauseCnt := 0;
      justScanned := false;
      history := [];
    }

    /** `draw_boundary` on one frame's detections. */
    method DrawBoundary(faces: seq<Detection>, people: seq<Person>, today: int)
      requires Valid()
      modifies this
      ensures Valid()
      ensures (State(), history) == (Frame(old(State()), faces, people, today).0,
                                     old(history) + Frame(old(State()), faces, people, today).1)
    {
      pauseCnt := pauseCnt + 1;
      ghost var start := State();
      ghost var h0 := history;
      var i := 0;
      assert faces[..0] == [];
      assert h0 + [] == h0;
      while i < |faces|
        invariant 0 <= i <= |faces|
        invariant Valid()
        invariant State() == FacesStep(start, faces[..i], people, today).0
        invariant history == h0 + FacesStep(start, faces[..i], people, today).1
      {
        assert faces[..i + 1][..i] == faces[..i];
        var d := faces[i];
        if d.confidence > ConfidenceThreshold && !justScanned {
          cnt := cnt + 1;
          var row := FindPerson(people, d.person);
          if row.Some? {
            if cnt == ScanTarget {
              cnt := 0;
              history := history + [Access(today, row.value.nbr)];
              justScanned := true;
              pauseCnt := 0;
            }
          } else {
            cnt := 0;
          }
        } else {
          if pauseCnt > PauseFrames {
            justScanned := false;
          }
        }
        i := i + 1;
      }
      assert faces[..i] == faces;
    }
  }
}
