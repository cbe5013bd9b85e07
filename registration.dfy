/** The employee enrollment wizard: four stages (0 basic info, 1 capture
    faces, 2 train model, 3 complete), a stage gate on the Next button, an
    auto-capture timer that fills a bounded frame buffer, a placeholder fill
    when the camera fails, a training timer that adds 5 per tick, Back/Next
    navigation and the "Register Another" reset.

    The two timers become tick methods: `CaptureTick` is one firing of the
    500 ms capture interval and `TrainingTick` one firing of the 200 ms
    training interval. Screenshots are parameters. */
module Registration {
  import opened Common

  /** How many frames the capture stage collects. */
  const CaptureTarget: nat := 20
  /** Progress added by one tick of the training interval. */
  const ProgressStep: nat := 5
  /** Progress at which training is finished. */
  const ProgressDone: nat := 100

  datatype Form = Form(name: string, id: string, position: string, department: string)

  const EmptyForm := Form("", "", "", "")

  predicate FormComplete(form: Form)
  {
    form.name != "" && form.id != "" && form.position != "" && form.department != ""
  }

  /** `canProceed`: the stage gate. Stage 0 needs every field filled in,
      stage 1 the full set of frames; the later stages are always open. */
  function CanProceed(step: int, form: Form, captured: nat): (ok: bool)
    ensures step == 0 ==> (ok <==> form.name != "" && form.id != "" && form.position != "" && form.department != "")
    ensures step == 1 ==> (ok <==> captured >= CaptureTarget)
    ensures step != 0 && step != 1 ==> ok
  {
    if step == 0 then FormComplete(form)
    else if step == 1 then captured >= CaptureTarget
    else true
  }

  /** Whether the Next button is shown and enabled: hidden on the last stage,
      disabled while the gate is closed or while training is short of 100. */
  function NextEnabled(step: int, form: Form, captured: nat, progress: int): (enabled: bool)
    requires 0 <= step <= 3
    ensures step == 0 ==> (enabled <==> form.name != "" && form.id != "" && form.position != "" && form.department != "")
    ensures step == 1 ==> (enabled <==> captured >= CaptureTarget)
    ensures step == 2 ==> (enabled <==> progress >= ProgressDone)
    ensures step == 3 ==> !enabled
  {
    step < 3 && CanProceed(step, form, captured) && !(step == 2 && progress < ProgressDone)
  }

  /** The stage Back leads to: one stage earlier but never below 0; the
      button is disabled on stage 0 and hidden on stage 3. */
  function BackTarget(step: int): (target: int)
    requires 0 <= step <= 3
    ensures step == 0 || step == 3 ==> target == step
    ensures 0 < step < 3 ==> target == step - 1
    ensures 0 <= target <= step
  {
    if step < 3 then (if step - 1 < 0 then 0 else step - 1) else step
  }

  // ---------------------------------------------------------------- capture

  /** The frame buffer after one firing of the auto-capture interval. The
      interval exists only on stage 1 while the buffer is short of the
      target; a firing appends the screenshot when the webcam gave one (a
      null or empty screenshot is falsy and appends nothing). */
  function AfterCaptureTick(step: int, images: seq<string>, shot: Option<string>): (r: seq<string>)
    ensures images <= r && |r| <= |images| + 1
    ensures |r| == |images| + 1 <==> step == 1 && |images| < CaptureTarget && shot.Some? && shot.value != ""
    ensures |r| == |images| + 1 ==> r[|images|] == shot.value
    ensures |images| <= CaptureTarget ==> |r| <= CaptureTarget
  {
    if step == 1 && |images| < CaptureTarget && shot.Some? && shot.value != "" then images + [shot.value]
    else images
  }

  /** Whether a thumbnail is drawn as an image rather than as a check mark. */
  predicate ShownAsImage(img: string)
  {
    StartsWith(img, "data:")
  }

  /** The entries the camera-error handler fills the buffer with:
      `placeholder-0` to `placeholder-(n-1)`. */
  function Placeholders(n: nat): (r: seq<string>)
    ensures |r| == n
    ensures forall i :: 0 <= i < n ==> r[i] == "placeholder-" + NatToString(i)
    ensures forall i :: 0 <= i < n ==> !ShownAsImage(r[i])
  {
    var r := seq(n, i requires 0 <= i < n => "placeholder-" + NatToString(i));
    assert forall i :: 0 <= i < n ==> r[i][0] == 'p' != "data:"[0];
    r
  }

  // ---------------------------------------------------------------- training

  /** The progress one firing of the training interval leaves: 5 more, or
      100 once it has read 100 (the firing that finishes training). */
  function NextProgress(prev: int): (next: int)
    ensures prev < ProgressDone ==> next == prev + ProgressStep
    ensures prev >= ProgressDone ==> next == ProgressDone
    ensures prev <= ProgressDone && prev % 5 == 0 ==> prev < next || prev == ProgressDone
    ensures prev <= ProgressDone && prev % 5 == 0 ==> next <= ProgressDone && next % 5 == 0
  {
    if prev >= ProgressDone then ProgressDone else prev + ProgressStep
  }

  /** The progress values shown by the successive firings of the training
      interval, starting from `p`, before the firing that finishes. */
  function ProgressTrace(p: int): seq<int>
    decreases ProgressDone - p
  {
    if p >= ProgressDone then [] else [NextProgress(p)] + ProgressTrace(NextProgress(p))
  }

  /** From a multiple of 5, progress climbs by 5 per firing and stops at 100. */
  lemma {:induction false} ProgressTraceShape(p: int)
    requires 0 <= p <= ProgressDone && p % 5 == 0
    ensures |ProgressTrace(p)| == (ProgressDone - p) / 5
    ensures forall i :: 0 <= i < |ProgressTrace(p)| ==> ProgressTrace(p)[i] == p + 5 * (i + 1)
    ensures forall i :: 0 <= i < |ProgressTrace(p)| ==> ProgressTrace(p)[i] <= ProgressDone
    decreases ProgressDone - p
  {
    if p < ProgressDone {
      ProgressTraceShape(p + 5);
      var t := ProgressTrace(p);
      assert t == [p + 5] + ProgressTrace(p + 5);
      forall i | 0 <= i < |t| ensures t[i] == p + 5 * (i + 1) {
        if i > 0 {
          assert t[i] == ProgressTrace(p + 5)[i - 1];
        }
      }
    }
  }

  /** Started from 0, training shows 5, 10, ..., 100 on its first twenty
      firings; the twenty-first firing reads 100 and finishes. */
  lemma TrainingFromZero()
    ensures |ProgressTrace(0)| == 20
    ensures forall i :: 0 <= i < 20 ==> ProgressTrace(0)[i] == 5 * (i + 1)
    ensures ProgressTrace(0)[19] == ProgressDone
  {
    ProgressTraceShape(0);
  }

  // ---------------------------------------------------------------- the wizard

  class Wizard {
    var step: int
    var form: Form
    var capturedImages: seq<string>
    var trainingProgress: int
    /** True from Start Training until the firing that finishes; the training
        interval is running exactly while this holds. */
    var isTraining: bool
    /** The name the training interval's closure captured at Start Training,
        used in the completion toast. */
    var trainingName: string

    ghost predicate Valid()
      reads this
    {
      && 0 <= step <= 3
      && |capturedImages| <= CaptureTarget
      && 0 <= trainingProgress <= ProgressDone
      && trainingProgress % ProgressStep == 0
      && (step == 3 ==> trainingProgress == ProgressDone)
    }

    constructor ()
      ensures Valid()
      ensures step == 0 && form == EmptyForm && capturedImages == []
      ensures trainingProgress == 0 && !isTraining
    {
      step := 0;
      form := EmptyForm;
      capturedImages := [];
      trainingProgress := 0;
      isTraining := false;
      trainingName := "";
    }

    /** Whether the Start Training button is offered. */
    predicate StartOffered()
      reads this
    {
      step == 2 && !isTraining && trainingProgress == 0
    }

    /** An edit in one of the basic-info inputs, shown only on stage 0. */
    method EditForm(f: Form)
      requires Valid() && step == 0
      modifies this
      ensures Valid() && form == f
      ensures step == old(step) && capturedImages == old(capturedImages)
      ensures trainingProgress == old(trainingProgress) && isTraining == old(isTraining)
      ensures trainingName == old(trainingName)
    {
      form := f;
    }

    /** One firing of the auto-capture interval. */
    method CaptureTick(shot: Option<string>)
      requires Valid()
      modifies this
      ensures Valid()
      ensures capturedImages == AfterCaptureTick(old(step), old(capturedImages), shot)
      ensures step == old(step) && form == old(form)
      ensures trainingProgress == old(trainingProgress) && isTraining == old(isTraining)
      ensures trainingName == old(trainingName)
    {
      if step == 1 && |capturedImages| < CaptureTarget && shot.Some? && shot.value != "" {
        capturedImages := capturedImages + [shot.value];
      }
    }

    /** The webcam's error callback; the webcam is mounted only on stage 1.
        The buffer is replaced by exactly `CaptureTarget` placeholders. */
    method CameraError()
      requires Valid() && step == 1
      modifies this
      ensures Valid()
      ensures capturedImages == Placeholders(CaptureTarget)
      ensures step == old(step) && form == old(form)
      ensures trainingProgress == old(trainingProgress) && isTraining == old(isTraining)
      ensures trainingName == old(trainingName)
    {
      capturedImages := Placeholders(CaptureTarget);
    }

    /** Start Training: does something only while the button is offered; it
        then starts the training interval from progress 0. */
    method StartTraining()
      requires Valid()
      modifies this
      ensures Valid()
      ensures old(StartOffered()) ==> isTraining && trainingProgress == 0 && trainingName == old(form.name)
      ensures !old(StartOffered()) ==> isTraining == old(isTraining) && trainingProgress == old(trainingProgress)
                                       && trainingName == old(trainingName)
      ensures step == old(step) && form == old(form) && capturedImages == old(capturedImages)
    {
      if StartOffered() {
        isTraining := true;
        trainingProgress := 0;
        trainingName := form.name;
      }
    }

    /** One firing of the training interval. A firing that reads 100 or more
        clears the interval, moves to stage 3 and returns the completion
        notice (the toast) naming the trainee; any other firing adds 5. */
    method TrainingTick() returns (notice: Option<string>)
      requires Valid()
      modifies this
      ensures Valid()
      ensures notice.Some? <==> old(isTraining) && old(trainingProgress) >= ProgressDone
      ensures notice.Some? ==> notice.value == old(trainingName) && step == 3 && !isTraining
      ensures old(isTraining) ==> trainingProgress == NextProgress(old(trainingProgress))
      ensures old(isTraining) && notice.None? ==> isTraining && step == old(step)
      ensures !old(isTraining) ==> trainingProgress == old(trainingProgress) && step == old(step)
                                   && !isTraining
      ensures trainingProgress >= old(trainingProgress)
      ensures form == old(form) && capturedImages == old(capturedImages) && trainingName == old(trainingName)
    {
      notice := None;
      if isTraining {
        if trainingProgress >= ProgressDone {
          isTraining := false;
          step := 3;
          trainingProgress := ProgressDone;
          notice := Some(trainingName);
        } else {
          trainingProgress := trainingProgress + ProgressStep;
        }
      }
    }

    /** The Back button. */
    method Back()
      requires Valid()
      modifies this
      ensures Valid()
      ensures step == BackTarget(old(step))
      ensures form == old(form) && capturedImages == old(capturedImages)
      ensures trainingProgress == old(trainingProgress) && isTraining == old(isTraining)
      ensures trainingName == old(trainingName)
    {
      if 0 < step < 3 {
        step := step - 1;
      }
    }

    /** The Next button: moves one stage on only while it is enabled. */
    method Next()
      requires Valid()
      modifies this
      ensures Valid()
      ensures NextEnabled(old(step), old(form), |old(capturedImages)|, old(trainingProgress)) ==> step == old(step) + 1
      ensures !NextEnabled(old(step), old(form), |old(capturedImages)|, old(trainingProgress)) ==> step == old(step)
      ensures form == old(form) && capturedImages == old(capturedImages)
      ensures trainingProgress == old(trainingProgress) && isTraining == old(isTraining)
      ensures trainingName == old(trainingName)
    {
      if NextEnabled(step, form, |capturedImages|, trainingProgress) {
        step := step + 1;
      }
    }

    /** Register Another, shown only on stage 3: back to an empty wizard.
        It does not touch the training interval. */
    method RegisterAnother()
      requires Valid() && step == 3
      modifies this
      ensures Valid()
      ensures step == 0 && form == EmptyForm && capturedImages == [] && trainingProgress == 0
      ensures isTraining == old(isTraining) && trainingName == old(trainingName)
    {
      step := 0;
      form := EmptyForm;
      capturedImages := [];
      trainingProgress := 0;
    }
  }
}
