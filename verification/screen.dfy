/**
 * The state of the `App` screen in hushHarmonyMobile/App.jsx that its core logic changes:
 * the displayed data (`data`), the interval handle (`intervalId`), the repeating timers and
 * background-fetch registrations started by `askForPermissions`, and, as observable history,
 * the permission queries issued, the steps of every `fetchData` run and the records posted.
 */
module Screen {
  import opened Common
  import opened Permissions
  import Noise
  import opened Submission
  import opened Cycle

  /** Period of the foreground interval: `updateInterval`, in milliseconds. */
  const UpdateInterval: nat := 12000

  /** A repeating timer started with `setInterval`. */
  datatype Timer = Timer(handle: nat, periodMs: nat)

  /** The options given to `BackgroundFetch.configure`. */
  datatype FetchConfig = FetchConfig(minimumFetchInterval: nat, stopOnTerminate: bool, startOnBoot: bool)

  /** Fifteen minutes, kept after termination, restarted on boot. */
  const BackgroundConfig: FetchConfig := FetchConfig(15, false, true)

  class App {
    /** The displayed data (`useState`). */
    var data: Reading
    /** The handle of the latest interval, `null` before the first one. */
    var intervalId: Option<nat>
    /** Every interval started; none is ever cancelled. */
    var timers: seq<Timer>
    /** The handle the next `setInterval` returns. */
    var nextHandle: nat
    /** Every background-fetch configuration made. */
    var backgroundConfigs: seq<FetchConfig>
    /** Every permission query issued, in order. */
    var queries: seq<Query>
    /** The steps of every `fetchData` run, in order. */
    var steps: seq<Step>
    /** Every record handed to `sendDataToMongoDB`, in order. */
    var posted: seq<Reading>

    ghost predicate Valid()
      reads this
    {
      SchedulingValid() && DisplayValid() && GateValid()
    }

    /**
     * Cycles run only from the interval callback, and an interval exists only once both
     * permissions were granted: nothing is captured or posted before that.
     */
    ghost predicate GateValid()
      reads this`timers, this`steps, this`posted
    {
      (posted != [] ==> steps != []) &&
      (steps != [] ==> timers != [])
    }

    /** The screen shows the record posted last, or the initial data while none was posted. */
    ghost predicate DisplayValid()
      reads this`data, this`posted
    {
      (posted == [] ==> data == InitialData) &&
      (posted != [] ==> data == posted[|posted| - 1])
    }

    /** Timers and background-fetch registrations are consistent with the handle. */
    ghost predicate SchedulingValid()
      reads this`intervalId, this`timers, this`nextHandle, this`backgroundConfigs
    {
      // the interval and the background fetch are started together
      |backgroundConfigs| == |timers| &&
      (forall i :: 0 <= i < |backgroundConfigs| ==> backgroundConfigs[i] == BackgroundConfig) &&
      // `intervalId` is the latest timer's handle; handles are distinct and increasing
      (intervalId.None? <==> timers == []) &&
      (timers != [] ==> intervalId == Some(timers[|timers| - 1].handle)) &&
      (forall i :: 0 <= i < |timers| ==>
         timers[i].handle < nextHandle && timers[i].periodMs == UpdateInterval) &&
      (forall i, j :: 0 <= i < j < |timers| ==> timers[i].handle < timers[j].handle)
    }

    /** The screen as first rendered. */
    constructor ()
      ensures Valid()
      ensures data == InitialData && intervalId == None && timers == [] && nextHandle == 0
      ensures backgroundConfigs == [] && queries == [] && steps == [] && posted == []
    {
      data := InitialData;
      intervalId := None;
      timers := [];
      nextHandle := 0;
      backgroundConfigs := [];
      queries := [];
      steps := [];
      posted := [];
    }

    /**
     * `askForPermissions` on `platform`, where `microphone` and `location` are the answers
     * the permissions library gives to the two queries. When both are granted it starts a
     * new foreground interval and configures the background fetch; the earlier interval,
     * if any, keeps running.
     */
    method AskForPermissions(platform: Platform, microphone: Status, location: Status)
      requires Valid()
      modifies this`queries, this`intervalId, this`timers, this`nextHandle, this`backgroundConfigs
      ensures Valid()
      ensures queries == old(queries) + Queries(platform)
      ensures MayStartCollection(microphone, location) ==>
                intervalId == Some(old(nextHandle)) &&
                nextHandle == old(nextHandle) + 1 &&
                timers == old(timers) + [Timer(old(nextHandle), UpdateInterval)] &&
                backgroundConfigs == old(backgroundConfigs) + [BackgroundConfig]
      ensures !MayStartCollection(microphone, location) ==>
                intervalId == old(intervalId) && nextHandle == old(nextHandle) &&
                timers == old(timers) && backgroundConfigs == old(backgroundConfigs)
      ensures data == old(data) && steps == old(steps) && posted == old(posted)
    {
      queries := queries + [MicrophoneQuery(platform)];
      queries := queries + [LocationQuery(platform)];
      if microphone == Granted && location == Granted {
        // `clearImmediate` does not cancel an interval, so an earlier timer is left running
        var handle := nextHandle;
        nextHandle := nextHandle + 1;
        timers := timers + [Timer(handle, UpdateInterval)];
        intervalId := Some(handle);
        backgroundConfigs := backgroundConfigs + [BackgroundConfig];
      }
    }

    /**
     * One `fetchData` run: `loc` is how `fetchLocation` settles, `frames` the frame values
     * the sound-level library delivers, `t` what the network does with the POST.
     * Any failure is caught and logged; the returned `End` is that logged outcome.
     * It runs only from the interval callback, so an interval has been started.
     */
    method FetchData(loc: LocationOutcome, frames: seq<real>, t: Transport) returns (end: End)
      requires Valid() && timers != []
      modifies this`data, this`steps, this`posted
      ensures Valid()
      ensures var run := RunCycle(loc, Noise.Settled(frames), t);
              end == run.end && steps == old(steps) + run.steps
      ensures end.Completed? ==> data == end.reading && posted == old(posted) + [end.reading]
      ensures !end.Completed? ==> data == old(data) && posted == old(posted)
    {
      steps := steps + [RequestLocation];
      match loc {
        case LocationError(code) =>
          end := LocationFailed(code);
        case Fix(fix) =>
          steps := steps + [StartNoiseCapture];
          var level, _ := Noise.FetchNoiseLevel(frames);
          if level.None? {
            end := NoisePending;
          } else {
            var shown := Assemble(fix, level.value);
            data := shown;
            steps := steps + [UpdateDisplay(shown)];
            var dto := Assemble(fix, level.value);
            steps := steps + [Post(dto)];
            posted := posted + [dto];
            end := Completed(dto, SendDataToMongoDB(t));
          }
      }
    }
  }
}
