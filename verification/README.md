# HushHarmony mobile: sampling and submission core

A Dafny model of the stateful logic inside the single screen of the HushHarmony mobile
app (`hushHarmonyMobile/App.jsx`). The screen samples the device location and the ambient
noise, shows the latest reading and posts it to a collector. Device libraries stay outside
the model. Their answers are inputs: permission statuses, the location fix or its error,
the stream of sound-level frames, and what the network did with the POST.

Modules, one per component of the screen:

- `Common`: the `Option` datatype. `None` also stands for a Promise that has not settled.
- `Noise`: the frame accumulator of `fetchNoiseLevel`. `NoiseCapture` is a class whose
  `OnNewFrame` updates the counter `cnt`, the running sum `noiseLevel`, the number of
  `stop` calls and the settled value. The functions `Retained`, `Sum`, `Level` and
  `Settled` say what those fields must hold after any sequence of frames. The class
  invariant `Valid()` ties the fields to them. `FetchNoiseLevel` delivers frames until the
  Promise settles.
- `Permissions`: the per-platform queries of `askForPermissions` and the condition
  (`MayStartCollection`) under which collection starts. On iOS the microphone is
  requested and location only checked. Every other platform takes the Android branch, where both
  are requested.
- `Submission`: `sendDataToMongoDB` classifies the attempt as ok, not ok or transport
  error, and never fails.
- `Cycle`: `fetchData` as a specification over abstract outcomes. `RunCycle` gives the
  steps (location, noise, display update, post, in that order) and how the cycle ended.
  `Displayed` and `Posted` read the steps back as the shown record and the posted records.
- `Screen`: the class `App`. It holds the displayed `data`, the interval handle, the
  timers and background-fetch configurations started, the permission queries issued, the
  cycle steps and the posted records. `AskForPermissions` and `FetchData` change them.

### What the code computes

- The noise value is the mean of frames 3 to 100 plus 160, rounded up.
- Location is obtained first. Noise capture starts only after the fix arrives.
- A capture always takes 100 frames, of which the first 2 are discarded.
- The reading's timestamp is the device clock when the fix arrives.
- The foreground interval is 12000 ms, although its comment says 60 seconds.
- The background-fetch callback only logs a location. It runs no cycle.

## Model

| member | source | states |
|---|---|---|
| `Noise.Ceil` | hushHarmonyMobile/App.jsx:133 | `Math.ceil`: the result is the least integer not below its argument (`x <= n < x + 1`) |
| `Noise.NoiseCapture.constructor` | hushHarmonyMobile/App.jsx:116-122 | a capture starts with no frames, `cnt = 0`, `noiseLevel = 0`, no stop call and an unsettled Promise |
| `Noise.NoiseCapture.OnNewFrame` | hushHarmonyMobile/App.jsx:123-135 | each frame increments `cnt` by exactly one; it is added to `noiseLevel` exactly when two frames came before it; `stop` is called on every frame from the 100th on; the Promise settles on the 100th frame to the level of the first 100 frames, and a later resolve changes nothing; the invariant ties the fields to the frame history |
| `Noise.FetchNoiseLevel` | hushHarmonyMobile/App.jsx:116-137 | delivering frames until the Promise settles yields the level of the first 100 frames, and capture is stopped exactly once; with fewer than 100 frames the Promise stays pending and capture is never stopped |
| `Noise.Level` | hushHarmonyMobile/App.jsx:133 | the value of a full window is the least integer not below the mean of the retained frames plus 160 |
| `Noise.Settled` | hushHarmonyMobile/App.jsx:117-133 | the Promise has a value exactly when at least 100 frames were delivered, and is pending before that |
| `Noise.RetainedSnoc` | hushHarmonyMobile/App.jsx:125-128 | a new frame joins the retained frames, and the sum, exactly when at least two frames preceded it |
| `Noise.CalibrationFramesIgnored` | hushHarmonyMobile/App.jsx:125-128 | the first two frames never influence the settled value, whatever they are |
| `Noise.LaterFramesIgnored` | hushHarmonyMobile/App.jsx:130-133 | frames after the 100th do not change the settled value: only the first resolve counts |
| `Noise.LevelFormula` | hushHarmonyMobile/App.jsx:119-133 | the value is `ceil(sum of frames 3..100 / 98 + 160)`; the divisor `cnt - 2` equals the number of retained frames (98, never zero); it is the ceiling of their arithmetic mean plus 160 |
| `Noise.SumBounds` | hushHarmonyMobile/App.jsx:126-127 | the accumulated sum of n frames within `[lo, hi]` lies within `[n*lo, n*hi]` |
| `Noise.MeanBounds` | hushHarmonyMobile/App.jsx:133 | the mean `noiseLevel/(cnt-2)` of frames within `[lo, hi]` lies within `[lo, hi]` |
| `Noise.CeilMonotone` | hushHarmonyMobile/App.jsx:133 | rounding up preserves order |
| `Noise.LevelBounds` | hushHarmonyMobile/App.jsx:122-133 | if every retained frame lies in `[lo, hi]`, the value lies in `[ceil(lo+160), ceil(hi+160)]` |
| `Noise.LevelInNormalizedRange` | hushHarmonyMobile/App.jsx:122-133 | frames in the sound-level range -160..0 give a value in 0..160 |
| `Permissions.MicrophoneQuery` | hushHarmonyMobile/App.jsx:31-35 | the microphone permission of the running platform is always requested |
| `Permissions.LocationQuery` | hushHarmonyMobile/App.jsx:31-36 | the location permission of the running platform is only checked on iOS and requested on every other platform (the Android branch) |
| `Permissions.Queries` | hushHarmonyMobile/App.jsx:28-37 | two queries are issued, microphone first and location second, both for the running platform |
| `Permissions.MayStartCollection` | hushHarmonyMobile/App.jsx:40 | the condition holds exactly when the answer for every capability (microphone and location) is `GRANTED`; what starts under it is stated by `Screen.App.AskForPermissions` |
| `Submission.SendDataToMongoDB` | hushHarmonyMobile/App.jsx:140-160 | an ok response, a non-ok response and a thrown transport error each end in their own logged outcome (in both directions); no case fails the caller |
| `Cycle.Assemble` | hushHarmonyMobile/App.jsx:170-178 | the record carries the fix's `lat`, `long` and `timestamp` and the noise value |
| `Cycle.RunCycle` | hushHarmonyMobile/App.jsx:163-184 | a cycle completes exactly when both the fix and the noise value were obtained, with the record assembled from them; a location error ends it after its first step with that error; a missing noise value leaves it pending; every cycle starts with the location request and has at most four steps |
| `Cycle.StepsInOrder` | hushHarmonyMobile/App.jsx:163-180 | a cycle runs location, then noise capture, then the display update, then the submission, each at most once and none skipped before the cycle stops |
| `Cycle.LocationFailureAbortsCycle` | hushHarmonyMobile/App.jsx:163-183 | a failed location fix starts no noise capture, leaves the displayed data unchanged, posts nothing, and ends the cycle with the caught error |
| `Cycle.DisplayedIsPosted` | hushHarmonyMobile/App.jsx:170-179 | on a successful cycle the displayed data, the posted record and the cycle's reading are one and the same record: the fix's fields plus the noise value |
| `Cycle.NoPartialReading` | hushHarmonyMobile/App.jsx:163-183 | a cycle completes if and only if both the fix and the noise value were obtained; only then does the display change and a record get posted, and it is that cycle's reading |
| `Cycle.SubmissionNeverPropagates` | hushHarmonyMobile/App.jsx:141-180 | whatever the network does, a cycle with both signals completes with the same steps; only the logged outcome differs |
| `Cycle.DisplayedAppend` | hushHarmonyMobile/App.jsx:170-173 | across successive cycles the displayed data is the last update, whatever came before |
| `Cycle.PostedAppend` | hushHarmonyMobile/App.jsx:175-179 | the records posted over successive cycles are those of each cycle, in order |
| `Cycle.RunExtendsHistory` | hushHarmonyMobile/App.jsx:163-184 | appending a cycle to any history of steps moves the display to the cycle's reading and appends that reading to the posted records exactly when the cycle completes, and changes neither otherwise; this is what `Screen.App.FetchData` does to `data` and `posted` |
| `Screen.App.constructor` | hushHarmonyMobile/App.jsx:13-16 | the screen starts with `{lat: 0, long: 0, noise: 0, timestamp: 0}`, no interval handle and nothing started, queried or posted |
| `Screen.App.AskForPermissions` | hushHarmonyMobile/App.jsx:28-55 | the platform's two queries are issued; a new interval of 12000 ms and one background-fetch configuration (15 minutes, kept after termination, started on boot) are started if and only if both answers are granted, and otherwise nothing is started; an earlier interval is not cancelled; the invariant keeps intervals and configurations paired and the handle on the latest timer |
| `Screen.App.FetchData` | hushHarmonyMobile/App.jsx:163-184 | one cycle appends exactly the steps of `RunCycle` for the fix, the value the frames settle to and the network outcome; on completion the displayed data is the posted record, otherwise data and posted records are unchanged; it runs only once an interval was started (App.jsx:40-48), and the invariant keeps the display on the record posted last, no record posted without a cycle and no cycle without a started interval, so a screen whose permissions were not both granted never captures noise or posts |

## Left out

- Rendering, `useState` mechanics and the style sheet (lines 187-210). These are presentation. `data` is a plain field.
- The device libraries (geolocation, sound level, permissions, background fetch) are foreign calls. Their answers are parameters: a `LocationOutcome`, a sequence of frame values, two `Status` values and a `Transport`.
- The POST itself (URL `${BACKEND_URL}/collect-noise-data`, headers, JSON body) is network I/O. Only the ok / not ok / thrown classification is kept.
- `setInterval` timing, the background-fetch callback and its `finish` call, `BackgroundFetch.status` and the unmount cleanup (lines 21-25, 45-51, 71-95) are timers and OS-driven concurrency. Only the fact that an interval and a background-fetch configuration were started is recorded.
- `onLocationFetch` (lines 57-69) only logs.
- Screen.App.AskForPermissions: a rejected `request` or `check` is not modelled. `askForPermissions` (lines 28-37) has no try/catch and is called without a catch (line 18). If the microphone query rejects, the location query is never issued, nothing starts and the rejection goes unhandled. Here both queries always return a `Status`.
- Overlapping cycles are not modelled. An interval can fire while an earlier cycle is still waiting for frames, and a later capture replaces `SoundLevel.onNewFrame`. Cycles here run one at a time.
- A location request whose callback never fires is not modelled. `fetchLocation` passes no timeout, but a `LocationOutcome` always settles. A noise capture that never gets 100 frames is modelled (`NoisePending`).
- Submission.SendDataToMongoDB: a POST that never settles is not modelled. `fetch` (line 142) has no timeout, so such a cycle would stay suspended after the display update and the post and log nothing. Here every `Transport` settles, and the cycle ends `Completed`.
- `intervalId` (line 16) is re-created at every render. The model keeps one handle for the screen's lifetime.
- Frame values are `real`. IEEE floating-point rounding of the sum and the division is not modelled.
- The frame-interval argument `FrameInterval` (20) passed to `SoundLevel.start` appears only in the capture's documentation; no timing is modelled. Its comment says 250 ms.
- All `console.log` / `console.error` output. The logged outcome of a cycle is the returned `End` value.
- Noise.FetchNoiseLevel: frames that arrive after `stop` are not delivered. The class method `OnNewFrame` still covers what such frames would do.
