/**
 * One run of `fetchData` in hushHarmonyMobile/App.jsx, as a specification over abstract
 * outcomes: the location fix (or its error), the settled noise value (or a Promise still
 * pending) and what the network did with the POST.
 *
 * The steps run one after another: location, then noise, then the display update, then
 * the submission. A location error is caught and aborts the rest of the cycle.
 */
module Cycle {
  import opened Common
  import opened Submission

  /** A fix as `fetchLocation` resolves it; `timestamp` is the device clock in ISO-8601. */
  datatype Position = Position(lat: real, long: real, timestamp: string)

  /** `fetchLocation` resolved with a fix or rejected with the library's error code. */
  datatype LocationOutcome = Fix(fix: Position) | LocationError(code: int)

  /** The timestamp field: the number 0 before the first cycle, an ISO string afterwards. */
  datatype Stamp = NumericZero | Iso(text: string)

  /** The record shown on screen and posted: `{lat, long, timestamp, noise}`. */
  datatype Reading = Reading(lat: real, long: real, timestamp: Stamp, noise: int)

  /** The displayed data before any cycle completed. */
  const InitialData: Reading := Reading(0.0, 0.0, NumericZero, 0)

  /** `{...locationData, noise: noiseLevel}`. */
  function Assemble(loc: Position, noise: int): (r: Reading)
    ensures r.lat == loc.lat && r.long == loc.long
    ensures r.timestamp == Iso(loc.timestamp) && r.noise == noise
  {
    Reading(loc.lat, loc.long, Iso(loc.timestamp), noise)
  }

  /** The observable steps of a cycle. */
  datatype Step =
    | RequestLocation
    | StartNoiseCapture
    | UpdateDisplay(shown: Reading)
    | Post(dto: Reading)

  /** How a cycle ended; none of these propagates out of `fetchData`. */
  datatype End =
    | LocationFailed(code: int)
    | NoisePending
    | Completed(reading: Reading, sent: Outcome)

  datatype Run = Run(steps: seq<Step>, end: End)

  /** Position of a step kind in the fixed order of a cycle. */
  function Rank(s: Step): nat
  {
    match s
    case RequestLocation => 0
    case StartNoiseCapture => 1
    case UpdateDisplay(_) => 2
    case Post(_) => 3
  }

  /**
   * The specification of one `fetchData` run: it completes exactly when both the fix and
   * the noise value were obtained, with the record built from them; a location error ends
   * it with that error, before any noise capture.
   */
  function RunCycle(loc: LocationOutcome, noise: Option<int>, t: Transport): (run: Run)
    ensures run.end.Completed? <==> loc.Fix? && noise.Some?
    ensures run.end.Completed? ==> run.end.reading == Assemble(loc.fix, noise.value)
    ensures loc.LocationError? ==> run.end == LocationFailed(loc.code) && |run.steps| == 1
    ensures loc.Fix? && noise.None? ==> run.end == NoisePending
    ensures 1 <= |run.steps| <= 4 && run.steps[0] == RequestLocation
  {
    match loc
    case LocationError(code) => Run([RequestLocation], LocationFailed(code))
    case Fix(fix) =>
      match noise
      case None => Run([RequestLocation, StartNoiseCapture], NoisePending)
      case Some(level) =>
        var dto := Assemble(fix, level);
        Run([RequestLocation, StartNoiseCapture, UpdateDisplay(dto), Post(dto)],
            Completed(dto, SendDataToMongoDB(t)))
  }

  /** The displayed data after `steps`, starting from `before`: the last update wins. */
  function Displayed(steps: seq<Step>, before: Reading): Reading
  {
    if steps == [] then before
    else
      var last := steps[|steps| - 1];
      if last.UpdateDisplay? then last.shown else Displayed(steps[..|steps| - 1], before)
  }

  /** The records handed to the submitter in `steps`, in order. */
  function Posted(steps: seq<Step>): seq<Reading>
  {
    if steps == [] then []
    else
      var last := steps[|steps| - 1];
      Posted(steps[..|steps| - 1]) + (if last.Post? then [last.dto] else [])
  }

  /** Steps run in the order location, noise, display, submit, none repeated or skipped. */
  lemma StepsInOrder(loc: LocationOutcome, noise: Option<int>, t: Transport)
    ensures var steps := RunCycle(loc, noise, t).steps;
            1 <= |steps| <= 4 && forall i :: 0 <= i < |steps| ==> Rank(steps[i]) == i
  {
  }

  /** A failed location fix starts no noise capture, leaves the display alone and posts nothing. */
  lemma LocationFailureAbortsCycle(code: int, noise: Option<int>, t: Transport, before: Reading)
    ensures var run := RunCycle(LocationError(code), noise, t);
            StartNoiseCapture !in run.steps &&
            Displayed(run.steps, before) == before &&
            Posted(run.steps) == [] &&
            run.end == LocationFailed(code)
  {
  }

  /**
   * On a completed cycle the displayed data and the posted record are the same record:
   * the fix's latitude, longitude and timestamp with the noise value.
   */
  lemma DisplayedIsPosted(fix: Position, level: int, t: Transport, before: Reading)
    ensures var run := RunCycle(Fix(fix), Some(level), t);
            var r := Reading(fix.lat, fix.long, Iso(fix.timestamp), level);
            Displayed(run.steps, before) == r && Posted(run.steps) == [r] &&
            run.end.Completed? && run.end.reading == r
  {
    var steps := RunCycle(Fix(fix), Some(level), t).steps;
    assert steps[..3][..2] == steps[..2] && steps[..2][..1] == steps[..1] && steps[..1][..0] == [];
    assert Posted(steps[..1]) == [];
    assert Posted(steps[..2]) == [];
    assert Posted(steps[..3]) == [];
  }

  /**
   * The display changes and a record is posted only when both signals were obtained, and
   * then exactly the record the cycle ends with.
   */
  lemma NoPartialReading(loc: LocationOutcome, noise: Option<int>, t: Transport, before: Reading)
    ensures var run := RunCycle(loc, noise, t);
            (run.end.Completed? <==> loc.Fix? && noise.Some?) &&
            Posted(run.steps) == (if run.end.Completed? then [run.end.reading] else []) &&
            Displayed(run.steps, before) == (if run.end.Completed? then run.end.reading else before)
  {
    var steps := RunCycle(loc, noise, t).steps;
    if loc.Fix? && noise.Some? {
      DisplayedIsPosted(loc.fix, noise.value, t, before);
    } else if loc.Fix? {
      assert steps[..1][..0] == [];
      assert Displayed(steps[..1], before) == before;
    } else {
      LocationFailureAbortsCycle(loc.code, noise, t, before);
    }
  }

  /**
   * The submission result never aborts the cycle: whatever the network did, the cycle
   * completes with the same steps, and only the logged outcome differs.
   */
  lemma SubmissionNeverPropagates(fix: Position, level: int, t1: Transport, t2: Transport)
    ensures RunCycle(Fix(fix), Some(level), t1).end.Completed?
    ensures RunCycle(Fix(fix), Some(level), t1).steps == RunCycle(Fix(fix), Some(level), t2).steps
    ensures RunCycle(Fix(fix), Some(level), t1).end.sent == SendDataToMongoDB(t1)
  {
  }

  /** Running steps `a` and then `b` displays what `b` displays starting from what `a` left. */
  lemma {:induction false} DisplayedAppend(a: seq<Step>, b: seq<Step>, before: Reading)
    ensures Displayed(a + b, before) == Displayed(b, Displayed(a, before))
  {
    if b == [] {
      assert a + b == a;
    } else {
      var b' := b[..|b| - 1];
      assert (a + b)[..|a + b| - 1] == a + b';
      DisplayedAppend(a, b', before);
    }
  }

  /** The records posted by steps `a` and then `b` are those of `a` followed by those of `b`. */
  lemma {:induction false} PostedAppend(a: seq<Step>, b: seq<Step>)
    ensures Posted(a + b) == Posted(a) + Posted(b)
  {
    if b == [] {
      assert a + b == a;
    } else {
      var b' := b[..|b| - 1];
      assert (a + b)[..|a + b| - 1] == a + b';
      PostedAppend(a, b');
    }
  }

  /**
   * A cycle appended to a history of steps: the display moves to the cycle's reading and
   * that reading is appended to the posted records exactly when the cycle completes;
   * otherwise both stay as the history left them.
   */
  lemma RunExtendsHistory(history: seq<Step>, loc: LocationOutcome, noise: Option<int>, t: Transport)
    ensures var run := RunCycle(loc, noise, t);
            var done := run.end.Completed?;
            Displayed(history + run.steps, InitialData) ==
              (if done then run.end.reading else Displayed(history, InitialData)) &&
            Posted(history + run.steps) ==
              Posted(history) + (if done then [run.end.reading] else [])
  {
    var run := RunCycle(loc, noise, t);
    DisplayedAppend(history, run.steps, InitialData);
    PostedAppend(history, run.steps);
    NoPartialReading(loc, noise, t, Displayed(history, InitialData));
  }
}
