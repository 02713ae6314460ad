/**
 * The noise frame accumulator behind `fetchNoiseLevel` in hushHarmonyMobile/App.jsx.
 *
 * The sound-level library calls `onNewFrame` once per frame. The callback keeps a frame
 * counter `cnt` and a running sum `noiseLevel`, skips the first two frames, and when the
 * counter reaches `numRecords` it stops the capture and resolves the Promise with
 * `ceil(noiseLevel / (cnt - 2) + 160)`. A Promise settles once: later resolves are ignored.
 */
module Noise {
  import opened Common

  /** Frames observed (discarded ones included) before capture stops: `numRecords`. */
  const NumRecords: nat := 100
  /** Leading frames skipped by the `cnt > 1` guard. */
  const CalibrationFrames: nat := 2
  /** Offset added to the mean frame value: `noiseLevelNormilizer`. */
  const Normalizer: real := 160.0
  /** Argument given to `SoundLevel.start`. */
  const FrameInterval: nat := 20

  // ---------------------------------------------------------------------------
  // Specification functions

  /** Sum of a sequence, added from the front to the back as the callback does. */
  function Sum(xs: seq<real>): real
  {
    if xs == [] then 0.0 else Sum(xs[..|xs| - 1]) + xs[|xs| - 1]
  }

  /** The frames that contribute to the sum: every frame but the first two. */
  function Retained(frames: seq<real>): seq<real>
  {
    if |frames| <= CalibrationFrames then [] else frames[CalibrationFrames..]
  }

  /** `Math.ceil` on reals, written with the floor Dafny provides. */
  function Ceil(x: real): (n: int)
    ensures x <= n as real < x + 1.0
  {
    -((-x).Floor)
  }

  /** Arithmetic mean of a non-empty sequence. */
  function Mean(xs: seq<real>): real
    requires |xs| > 0
  {
    Sum(xs) / |xs| as real
  }

  /** Frames retained from a complete window: the divisor of the mean. */
  const RetainedCount: nat := NumRecords - CalibrationFrames

  /**
   * The value produced from a complete window of `NumRecords` frames: the least integer
   * not below the mean of the retained frames plus the normalizer.
   */
  function Level(window: seq<real>): (n: int)
    requires |window| == NumRecords
    ensures Mean(Retained(window)) + Normalizer <= n as real < Mean(Retained(window)) + Normalizer + 1.0
  {
    Ceil(Sum(Retained(window)) / RetainedCount as real + Normalizer)
  }

  /**
   * What the Promise has settled to once `frames` have been delivered, in order:
   * pending while fewer than `NumRecords` frames arrived, otherwise the level of the
   * first `NumRecords` frames (a later resolve is ignored).
   */
  function Settled(frames: seq<real>): (r: Option<int>)
    ensures r.Some? <==> |frames| >= NumRecords
  {
    if |frames| < NumRecords then None else Some(Level(frames[..NumRecords]))
  }

  // ---------------------------------------------------------------------------
  // The per-frame state machine

  class NoiseCapture {
    /** Frames delivered so far (`cnt`). */
    var cnt: nat
    /** Running sum of the retained frames (`noiseLevel`). */
    var noiseLevel: real
    /** How many times `SoundLevel.stop()` has been called. */
    var stopCalls: nat
    /** The value the Promise settled to, if it has. */
    var resolved: Option<int>
    /** Every frame value delivered to the callback, in order. */
    ghost var frames: seq<real>

    ghost predicate Valid()
      reads this
    {
      cnt == |frames| &&
      noiseLevel == Sum(Retained(frames)) &&
      stopCalls == (if cnt < NumRecords then 0 else cnt - NumRecords + 1) &&
      resolved == Settled(frames)
    }

    /** `SoundLevel.start(FrameInterval)` with `cnt = 0` and `noiseLevel = 0`. */
    constructor ()
      ensures Valid()
      ensures frames == [] && cnt == 0 && noiseLevel == 0.0
      ensures stopCalls == 0 && resolved == None
    {
      cnt := 0;
      noiseLevel := 0.0;
      stopCalls := 0;
      resolved := None;
      frames := [];
    }

    /** The `onNewFrame` callback for one frame whose `value` is given. */
    method OnNewFrame(value: real)
      requires Valid()
      modifies this
      ensures Valid()
      ensures frames == old(frames) + [value]
      ensures cnt == old(cnt) + 1
      ensures noiseLevel == old(noiseLevel) + (if old(cnt) >= CalibrationFrames then value else 0.0)
      ensures stopCalls == old(stopCalls) + (if cnt >= NumRecords then 1 else 0)
      ensures old(resolved).Some? ==> resolved == old(resolved)
      ensures old(resolved).None? && cnt < NumRecords ==> resolved == None
      ensures old(resolved).None? && cnt >= NumRecords ==>
                cnt == NumRecords && resolved == Some(Level(frames))
    {
      RetainedSnoc(frames, value);
      if cnt > 1 {
        noiseLevel := noiseLevel + value;
      }
      cnt := cnt + 1;
      frames := frames + [value];
      if cnt >= NumRecords {
        stopCalls := stopCalls + 1;
        var level := Ceil(noiseLevel / (cnt - 2) as real + Normalizer);
        if resolved.None? {
          assert frames[..NumRecords] == frames;
          resolved := Some(level);
        } else {
          assert frames[..NumRecords] == old(frames)[..NumRecords];
        }
      }
    }
  }

  /**
   * `fetchNoiseLevel` awaited: starts a capture and delivers `frames` one per callback
   * until the Promise settles (the capture is stopped then, so no later frame arrives).
   * Returns the settled value, `None` if the frames ran out first (the Promise stays
   * pending), and the number of `stop` calls.
   */
  method FetchNoiseLevel(frames: seq<real>) returns (level: Option<int>, stops: nat)
    ensures level == Settled(frames)
    ensures level.Some? <==> |frames| >= NumRecords
    ensures stops == if level.Some? then 1 else 0
  {
    var capture := new NoiseCapture();
    var i := 0;
    while i < |frames| && capture.resolved.None?
      invariant 0 <= i <= |frames| && i <= NumRecords
      invariant fresh(capture)
      invariant capture.Valid() && capture.frames == frames[..i]
    {
      capture.OnNewFrame(frames[i]);
      assert frames[..i + 1] == frames[..i] + [frames[i]];
      i := i + 1;
    }
    if capture.resolved.Some? {
      assert frames[..i][..NumRecords] == frames[..NumRecords];
    } else {
      assert frames[..i] == frames;
    }
    level, stops := capture.resolved, capture.stopCalls;
  }

  // ---------------------------------------------------------------------------
  // Lemmas

  /** Appending a frame appends it to the retained frames exactly when two came before it. */
  lemma RetainedSnoc(frames: seq<real>, v: real)
    ensures Retained(frames + [v]) ==
              Retained(frames) + (if |frames| >= CalibrationFrames then [v] else [])
    ensures Sum(Retained(frames + [v])) ==
              Sum(Retained(frames)) + (if |frames| >= CalibrationFrames then v else 0.0)
  {
  }

  /** The first two frames never contribute to the produced value. */
  lemma CalibrationFramesIgnored(a: real, b: real, c: real, d: real, rest: seq<real>)
    ensures Settled([a, b] + rest) == Settled([c, d] + rest)
  {
    if |rest| + 2 >= NumRecords {
      assert Retained(([a, b] + rest)[..NumRecords]) == rest[..NumRecords - 2];
      assert Retained(([c, d] + rest)[..NumRecords]) == rest[..NumRecords - 2];
    }
  }

  /** Frames delivered after the Promise settled do not change the value it settled to. */
  lemma LaterFramesIgnored(frames: seq<real>, extra: seq<real>)
    requires |frames| >= NumRecords
    ensures Settled(frames + extra) == Settled(frames)
  {
    assert (frames + extra)[..NumRecords] == frames[..NumRecords];
  }

  /**
   * The produced value is the ceiling of the sum of frames 3 to 100 divided by 98, plus 160;
   * the divisor `cnt - 2` is the number of retained frames.
   */
  lemma LevelFormula(window: seq<real>)
    requires |window| == NumRecords
    ensures |Retained(window)| == RetainedCount == 98
    ensures Level(window) == Ceil(Sum(window[2..]) / 98.0 + 160.0)
    ensures Level(window) == Ceil(Mean(Retained(window)) + Normalizer)
  {
  }

  /** A sum of `n` values that all lie in `[lo, hi]` lies in `[n * lo, n * hi]`. */
  lemma {:induction false} SumBounds(xs: seq<real>, lo: real, hi: real)
    requires forall i :: 0 <= i < |xs| ==> lo <= xs[i] <= hi
    ensures lo * |xs| as real <= Sum(xs) <= hi * |xs| as real
  {
    if xs != [] {
      var n := |xs|;
      var init := xs[..n - 1];
      SumBounds(init, lo, hi);
      assert lo * n as real == lo * (n - 1) as real + lo;
      assert hi * n as real == hi * (n - 1) as real + hi;
    }
  }

  /** The mean of values in `[lo, hi]` lies in `[lo, hi]`. */
  lemma MeanBounds(xs: seq<real>, lo: real, hi: real)
    requires |xs| > 0
    requires forall i :: 0 <= i < |xs| ==> lo <= xs[i] <= hi
    ensures lo <= Mean(xs) <= hi
  {
    SumBounds(xs, lo, hi);
    var n := |xs| as real;
    assert Sum(xs) / n >= (lo * n) / n;
    assert Sum(xs) / n <= (hi * n) / n;
  }

  /** `Ceil` never decreases. */
  lemma CeilMonotone(x: real, y: real)
    requires x <= y
    ensures Ceil(x) <= Ceil(y)
  {
  }

  /** When every retained frame lies in `[lo, hi]`, so does the value, shifted by 160 and rounded up. */
  lemma LevelBounds(window: seq<real>, lo: real, hi: real)
    requires |window| == NumRecords
    requires forall i :: CalibrationFrames <= i < NumRecords ==> lo <= window[i] <= hi
    ensures Ceil(lo + Normalizer) <= Level(window) <= Ceil(hi + Normalizer)
  {
    var r := Retained(window);
    assert forall i :: 0 <= i < |r| ==> r[i] == window[i + CalibrationFrames];
    MeanBounds(r, lo, hi);
    LevelFormula(window);
    CeilMonotone(lo + Normalizer, Mean(r) + Normalizer);
    CeilMonotone(Mean(r) + Normalizer, hi + Normalizer);
  }

  /**
   * Frames in the sound-level library's range of -160 to 0 give a value between 0 and 160:
   * the normalizer shifts the mean into a non-negative scale.
   */
  lemma LevelInNormalizedRange(window: seq<real>)
    requires |window| == NumRecords
    requires forall i :: CalibrationFrames <= i < NumRecords ==> -160.0 <= window[i] <= 0.0
    ensures 0 <= Level(window) <= 160
  {
    LevelBounds(window, -160.0, 0.0);
  }
}
