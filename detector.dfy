/** The amplitude-threshold silence detector shared by both recording
    backends: per-frame loudness, the (started speaking, quiet chunks)
    state and its update, and the two recording loops as functions of the
    loudness of what they read. */
module Detector {
  import opened Pcm
  import opened Wrappers

  // ---------------------------------------------------------------------
  // Loudness of one frame

  function Magnitude(s: int16): nat
  {
    if s < 0 then -(s as int) else s as int
  }

  /** The sum of the magnitudes of the samples. */
  function AbsSum(samples: seq<int16>): nat
  {
    if samples == [] then 0 else Magnitude(samples[0]) + AbsSum(samples[1..])
  }

  /** A frame is loud when its mean absolute sample value exceeds the
      threshold; the mean is compared without division. An empty frame is
      never loud (numpy's mean of nothing is NaN, which compares false). */
  predicate IsLoud(samples: seq<int16>, threshold: int)
    ensures samples == [] ==> !IsLoud(samples, threshold)
    ensures threshold < 0 && samples != [] ==> IsLoud(samples, threshold)
  {
    AbsSum(samples) > threshold * |samples|
  }

  /** numpy's `abs` on int16 data, which wraps: the magnitude of -32768 does
      not fit in 16 bits and comes back as -32768. */
  function NumpyAbs(s: int16): int16
  {
    if s == -0x8000 then s else if s < 0 then -s else s
  }

  function NumpyAbsSum(samples: seq<int16>): int
  {
    if samples == [] then 0 else NumpyAbs(samples[0]) as int + NumpyAbsSum(samples[1..])
  }

  /** The loudness test as written: `np.abs(audio_data).mean() > threshold`. */
  predicate IsLoudAsWritten(samples: seq<int16>, threshold: int)
  {
    NumpyAbsSum(samples) > threshold * |samples|
  }

  /** A frame of full-scale negative samples, the loudest input there is,
      is judged silent by the test as written and loud by the corrected one. */
  lemma FullScaleNegativeFrameAsWritten()
    ensures var frame: seq<int16> := [-0x8000, -0x8000];
      !IsLoudAsWritten(frame, 500) && IsLoud(frame, 500) && Magnitude(frame[0]) > 500
  {
    var frame: seq<int16> := [-0x8000, -0x8000];
    assert frame[1..][1..] == [];
    assert NumpyAbsSum(frame) == -0x1_0000;
    assert AbsSum(frame) == 0x1_0000;
  }

  /** The two tests differ only on frames holding -32768. */
  lemma {:induction false} AsWrittenAgreesWithoutMinimum(samples: seq<int16>, threshold: int)
    requires forall i :: 0 <= i < |samples| ==> samples[i] != -0x8000
    ensures NumpyAbsSum(samples) == AbsSum(samples)
    ensures IsLoudAsWritten(samples, threshold) == IsLoud(samples, threshold)
  {
    if samples != [] {
      AsWrittenAgreesWithoutMinimum(samples[1..], threshold);
    }
  }

  /** Corrected test: a non-empty frame whose every sample is louder than
      the threshold is loud. */
  lemma {:induction false} EverySampleAboveThresholdIsLoud(samples: seq<int16>, threshold: int)
    requires |samples| > 0
    requires forall i :: 0 <= i < |samples| ==> Magnitude(samples[i]) > threshold
    ensures IsLoud(samples, threshold)
  {
    if |samples| > 1 {
      EverySampleAboveThresholdIsLoud(samples[1..], threshold);
      assert threshold * |samples| == threshold + threshold * (|samples| - 1);
    }
  }

  // ---------------------------------------------------------------------
  // Detector state

  datatype DetectorState = DetectorState(startedSpeaking: bool, silentChunks: nat)

  const Initial := DetectorState(false, 0)

  /** One evaluated frame: a loud frame starts (or continues) speech and
      zeroes the quiet count; a quiet frame counts only after speech. */
  function Update(st: DetectorState, loud: bool): (r: DetectorState)
    ensures r.startedSpeaking <==> st.startedSpeaking || loud
    ensures r.silentChunks <= st.silentChunks + 1
    ensures (!st.startedSpeaking ==> st.silentChunks == 0) ==> (!r.startedSpeaking ==> r.silentChunks == 0)
  {
    if loud then DetectorState(true, 0)
    else if st.startedSpeaking then DetectorState(true, st.silentChunks + 1)
    else st
  }

  /** The stop rule: speech has started and more than `threshold` quiet
      chunks have followed it. */
  predicate ShouldStop(st: DetectorState, threshold: nat)
  {
    st.startedSpeaking && st.silentChunks > threshold
  }

  /** The state after evaluating frames of the given loudness, in order. */
  function After(st: DetectorState, louds: seq<bool>): DetectorState
    decreases |louds|
  {
    if louds == [] then st else After(Update(st, louds[0]), louds[1..])
  }

  /** Quiet frames leave a state that has not heard speech alone, and add
      one quiet chunk each to a state that has. */
  lemma {:induction false} AfterQuiet(st: DetectorState, louds: seq<bool>)
    requires forall j :: 0 <= j < |louds| ==> !louds[j]
    ensures After(st, louds) ==
      if st.startedSpeaking then DetectorState(true, st.silentChunks + |louds|) else st
    decreases |louds|
  {
    if louds != [] {
      AfterQuiet(Update(st, louds[0]), louds[1..]);
    }
  }

  /** Whatever came before, if frame k is the last loud one, speech has
      started and the quiet count is the number of frames after k. */
  lemma {:induction false} AfterLastLoud(st: DetectorState, louds: seq<bool>, k: nat)
    requires k < |louds| && louds[k]
    requires forall j :: k < j < |louds| ==> !louds[j]
    ensures After(st, louds) == DetectorState(true, |louds| - 1 - k)
    decreases k
  {
    if k == 0 {
      AfterQuiet(DetectorState(true, 0), louds[1..]);
    } else {
      AfterLastLoud(Update(st, louds[0]), louds[1..], k - 1);
    }
  }

  /** From the initial state: speech has started exactly when some frame was
      loud, and before that the quiet count stays at zero. */
  lemma StartedIffSomeFrameLoud(louds: seq<bool>)
    ensures After(Initial, louds).startedSpeaking <==> (exists j :: 0 <= j < |louds| && louds[j])
    ensures !After(Initial, louds).startedSpeaking ==> After(Initial, louds).silentChunks == 0
  {
    if exists j :: 0 <= j < |louds| && louds[j] {
      var k :| 0 <= k < |louds| && louds[k] && forall j :: k < j < |louds| ==> !louds[j] by {
        LastLoudExists(louds);
      }
      AfterLastLoud(Initial, louds, k);
    } else {
      AfterQuiet(Initial, louds);
    }
  }

  lemma LastLoudExists(louds: seq<bool>)
    requires exists j :: 0 <= j < |louds| && louds[j]
    ensures exists k :: 0 <= k < |louds| && louds[k] && forall j :: k < j < |louds| ==> !louds[j]
  {
    var k :| 0 <= k < |louds| && louds[k];
    while exists j :: k < j < |louds| && louds[j]
      invariant 0 <= k < |louds| && louds[k]
      decreases |louds| - k
    {
      var j :| k < j < |louds| && louds[j];
      k := j;
    }
  }

  lemma AfterConcat(st: DetectorState, a: seq<bool>, b: seq<bool>)
    ensures After(st, a + b) == After(After(st, a), b)
    decreases |a|
  {
    if a != [] {
      assert (a + b)[1..] == a[1..] + b;
      AfterConcat(Update(st, a[0]), a[1..], b);
    } else {
      assert a + b == b;
    }
  }

  /** No non-empty prefix of the frames leaves a state that should stop. */
  ghost predicate NoStopWithin(st: DetectorState, louds: seq<bool>, threshold: nat)
  {
    forall n :: 1 <= n <= |louds| ==> !ShouldStop(After(st, louds[..n]), threshold)
  }

  lemma AfterStep(st: DetectorState, louds: seq<bool>, n: nat)
    requires 1 <= n <= |louds|
    ensures After(st, louds[..n]) == After(Update(st, louds[0]), louds[1..][..n - 1])
  {
    assert louds[..n][1..] == louds[1..][..n - 1];
  }

  /** `NoStopWithin` over a first frame and the rest. */
  lemma NoStopWithinStep(st: DetectorState, louds: seq<bool>, m: nat, threshold: nat)
    requires 1 <= m <= |louds|
    ensures NoStopWithin(st, louds[..m], threshold) <==>
      !ShouldStop(Update(st, louds[0]), threshold) && NoStopWithin(Update(st, louds[0]), louds[1..][..m - 1], threshold)
  {
    var next := Update(st, louds[0]);
    var head, tail := louds[..m], louds[1..][..m - 1];
    forall n | 1 <= n <= m
      ensures After(st, head[..n]) == if n == 1 then next else After(next, tail[..n - 1])
    {
      assert head[..n] == louds[..n];
      AfterStep(st, louds, n);
      assert tail[..n - 1] == louds[1..][..n - 1];
      assert louds[1..][..0] == [];
    }
    if NoStopWithin(st, head, threshold) {
      assert !ShouldStop(After(st, head[..1]), threshold);
      forall n | 1 <= n <= |tail| ensures !ShouldStop(After(next, tail[..n]), threshold) {
        assert !ShouldStop(After(st, head[..n + 1]), threshold);
      }
    }
  }

  // ---------------------------------------------------------------------
  // How a recording loop ends

  /** The loop ended by the silence rule, by reaching its iteration cap, or
      because the device failed to deliver the next frame; `count` is the
      number of iterations (frames read, or polling ticks) that ran. */
  datatype Ending = SilenceStop(count: nat) | CapReached(count: nat) | DeviceLost(count: nat)

  function Shift(e: Ending, d: nat): (r: Ending)
    ensures r.count == e.count + d
  {
    match e
    case SilenceStop(n) => SilenceStop(n + d)
    case CapReached(n) => CapReached(n + d)
    case DeviceLost(n) => DeviceLost(n + d)
  }

  /** The pull loop of the PyAudio backend: read a frame, evaluate it, stop
      if the rule fires; at most `budget` frames; reading past the frames
      the device delivers fails. */
  function PullRun(st: DetectorState, louds: seq<bool>, threshold: nat, budget: nat): (r: Ending)
    ensures r.count <= |louds| && r.count <= budget
    decreases budget
  {
    if budget == 0 then CapReached(0)
    else if louds == [] then DeviceLost(0)
    else
      var next := Update(st, louds[0]);
      if ShouldStop(next, threshold) then SilenceStop(1)
      else Shift(PullRun(next, louds[1..], threshold, budget - 1), 1)
  }

  lemma ShiftShift(e: Ending, a: nat, b: nat)
    ensures Shift(Shift(e, a), b) == Shift(e, a + b)
  {
  }

  /** One iteration of the pull loop, for use inside loops that model it. */
  lemma PullRunStep(st: DetectorState, louds: seq<bool>, i: nat, threshold: nat, budget: nat)
    requires i < |louds| && i < budget
    ensures var next := Update(st, louds[i]);
      PullRun(st, louds[i..], threshold, budget - i) ==
        if ShouldStop(next, threshold) then SilenceStop(1)
        else Shift(PullRun(next, louds[i + 1..], threshold, budget - i - 1), 1)
  {
    assert louds[i..][1..] == louds[i + 1..];
  }

  /** One iteration of the pull loop against the whole run: if `run` is the
      run from state `st` at frame i, offset by i, then frame i either stops
      it or leaves the run from the updated state at frame i + 1. */
  lemma PullLoopAdvance(run: Ending, st: DetectorState, next: DetectorState, louds: seq<bool>, i: nat, threshold: nat, budget: nat)
    requires i < |louds| && i < budget
    requires next == Update(st, louds[i])
    requires run == Shift(PullRun(st, louds[i..], threshold, budget - i), i)
    ensures ShouldStop(next, threshold) ==> run == SilenceStop(i + 1)
    ensures !ShouldStop(next, threshold) ==>
      run == Shift(PullRun(next, louds[i + 1..], threshold, budget - (i + 1)), i + 1)
  {
    PullRunStep(st, louds, i, threshold, budget);
    ShiftShift(PullRun(next, louds[i + 1..], threshold, budget - (i + 1)), 1, i);
  }

  /** The loop never reads more than its cap, runs to the cap when it ends
      there, and fails only when the device runs out first. */
  lemma {:induction false} PullRunBounds(st: DetectorState, louds: seq<bool>, threshold: nat, budget: nat)
    ensures match PullRun(st, louds, threshold, budget)
      case SilenceStop(n) => 1 <= n <= budget && n <= |louds|
      case CapReached(n) => n == budget <= |louds|
      case DeviceLost(n) => n == |louds| < budget
    decreases budget
  {
    if budget > 0 && louds != [] {
      PullRunBounds(Update(st, louds[0]), louds[1..], threshold, budget - 1);
    }
  }

  /** The loop stops at the first frame after which the rule holds, and
      not before: the reference reading of `PullRun` through `After`. */
  lemma {:induction false} PullRunStopsAtFirstStop(st: DetectorState, louds: seq<bool>, threshold: nat, budget: nat)
    ensures var e := PullRun(st, louds, threshold, budget);
      e.count <= |louds| &&
      (e.SilenceStop? ==> 1 <= e.count && NoStopWithin(st, louds[..e.count - 1], threshold) &&
                          ShouldStop(After(st, louds[..e.count]), threshold)) &&
      (!e.SilenceStop? ==> NoStopWithin(st, louds[..e.count], threshold))
    decreases budget
  {
    var e := PullRun(st, louds, threshold, budget);
    if budget == 0 || louds == [] {
      assert e.count == 0;
    } else {
      var next := Update(st, louds[0]);
      AfterStep(st, louds, 1);
      assert louds[1..][..0] == [];
      if !ShouldStop(next, threshold) {
        var rest := louds[1..];
        PullRunStopsAtFirstStop(next, rest, threshold, budget - 1);
        var r := PullRun(next, rest, threshold, budget - 1);
        assert e == Shift(r, 1);
        if e.SilenceStop? {
          NoStopWithinStep(st, louds, e.count - 1, threshold);
          AfterStep(st, louds, e.count);
        } else {
          NoStopWithinStep(st, louds, e.count, threshold);
        }
      }
    }
  }

  /** Running the loop over frames after a prefix that did not stop it is
      running it over the prefix and then the rest from the state reached. */
  lemma {:induction false} PullRunAfterPrefix(st: DetectorState, prefix: seq<bool>, rest: seq<bool>, threshold: nat, budget: nat)
    requires NoStopWithin(st, prefix, threshold) && |prefix| <= budget
    ensures PullRun(st, prefix + rest, threshold, budget) ==
      Shift(PullRun(After(st, prefix), rest, threshold, budget - |prefix|), |prefix|)
    decreases |prefix|
  {
    if prefix == [] {
      assert prefix + rest == rest;
      var e := PullRun(st, rest, threshold, budget);
      assert Shift(e, 0) == e;
    } else {
      var next := Update(st, prefix[0]);
      assert (prefix + rest)[1..] == prefix[1..] + rest;
      assert prefix[..|prefix|] == prefix && prefix[1..][..|prefix| - 1] == prefix[1..];
      NoStopWithinStep(st, prefix, |prefix|, threshold);
      PullRunAfterPrefix(next, prefix[1..], rest, threshold, budget - 1);
      var r := PullRun(After(next, prefix[1..]), rest, threshold, budget - |prefix|);
      assert Shift(Shift(r, |prefix| - 1), 1) == Shift(r, |prefix|);
    }
  }

  /** After speech, each quiet frame adds one to the count; the loop stops
      exactly when the count first exceeds the threshold. */
  lemma {:induction false} QuietCountdown(count: nat, louds: seq<bool>, threshold: nat, budget: nat)
    requires count <= threshold
    requires threshold + 1 - count <= |louds| && threshold + 1 - count <= budget
    requires forall j :: 0 <= j < threshold + 1 - count ==> !louds[j]
    ensures PullRun(DetectorState(true, count), louds, threshold, budget) == SilenceStop(threshold + 1 - count)
    decreases threshold - count
  {
    if count < threshold {
      QuietCountdown(count + 1, louds[1..], threshold, budget - 1);
    }
  }

  /** If frame k is loud, the run had not stopped before it, and the next
      `threshold + 1` frames are quiet, the loop reads exactly
      k + threshold + 2 frames (the last one is frame k + threshold + 1) and
      stops by the silence rule, provided the cap allows that many. */
  lemma StopsAfterTrailingSilence(louds: seq<bool>, k: nat, threshold: nat, cap: nat)
    requires k + threshold + 2 <= |louds| && k + threshold + 2 <= cap
    requires louds[k]
    requires forall j :: k < j < k + threshold + 2 ==> !louds[j]
    requires NoStopWithin(Initial, louds[..k], threshold)
    ensures PullRun(Initial, louds, threshold, cap) == SilenceStop(k + threshold + 2)
  {
    var prefix, rest := louds[..k], louds[k..];
    assert louds == prefix + rest;
    PullRunAfterPrefix(Initial, prefix, rest, threshold, cap);
    var st := After(Initial, prefix);
    assert rest[0] == louds[k];
    var tail := rest[1..];
    forall j | 0 <= j < threshold + 1
      ensures !tail[j]
    {
      assert tail[j] == louds[k + 1 + j];
    }
    QuietCountdown(0, tail, threshold, cap - k - 1);
    // the loud frame k zeroes the count; the quiet frames then count down
    assert PullRun(st, rest, threshold, cap - k) == Shift(PullRun(DetectorState(true, 0), tail, threshold, cap - k - 1), 1);
  }

  /** The single-utterance case: frame k is the only loud frame among the
      first k + threshold + 2, so nothing can stop the loop earlier. */
  lemma SingleUtteranceStop(louds: seq<bool>, k: nat, threshold: nat, cap: nat)
    requires k + threshold + 2 <= |louds| && k + threshold + 2 <= cap
    requires louds[k]
    requires forall j :: 0 <= j < k + threshold + 2 && j != k ==> !louds[j]
    ensures PullRun(Initial, louds, threshold, cap) == SilenceStop(k + threshold + 2)
  {
    forall n | 1 <= n <= k ensures !ShouldStop(After(Initial, louds[..k][..n]), threshold) {
      AfterQuiet(Initial, louds[..k][..n]);
    }
    StopsAfterTrailingSilence(louds, k, threshold, cap);
  }

  /** With no loud frame the silence rule never fires: the loop runs to its
      cap, or fails if the device delivers fewer frames. */
  lemma {:induction false} AllQuietRunsToCap(louds: seq<bool>, threshold: nat, cap: nat)
    requires forall j :: 0 <= j < |louds| ==> !louds[j]
    ensures PullRun(Initial, louds, threshold, cap) ==
      if cap <= |louds| then CapReached(cap) else DeviceLost(|louds|)
    decreases cap
  {
    if cap > 0 && louds != [] {
      AllQuietRunsToCap(louds[1..], threshold, cap - 1);
    }
  }

  /** With only loud frames the silence rule never fires either. */
  lemma {:induction false} AllLoudRunsToCap(st: DetectorState, louds: seq<bool>, threshold: nat, cap: nat)
    requires forall j :: 0 <= j < |louds| ==> louds[j]
    ensures PullRun(st, louds, threshold, cap) ==
      if cap <= |louds| then CapReached(cap) else DeviceLost(|louds|)
    decreases cap
  {
    if cap > 0 && louds != [] {
      AllLoudRunsToCap(Update(st, true), louds[1..], threshold, cap - 1);
    }
  }

  // ---------------------------------------------------------------------
  // The polling loop of the sounddevice backend

  /** One polling tick per element: `None` when no frame has arrived yet,
      otherwise the loudness of the most recently arrived frame. The tick
      count, not the frame count, drives the quiet count and the cap. */
  function PollRun(st: DetectorState, ticks: seq<Option<bool>>, threshold: nat, budget: nat): Ending
    requires budget <= |ticks|
    decreases budget
  {
    if budget == 0 then CapReached(0)
    else match ticks[0]
      case None => Shift(PollRun(st, ticks[1..], threshold, budget - 1), 1)
      case Some(loud) =>
        var next := Update(st, loud);
        if ShouldStop(next, threshold) then SilenceStop(1)
        else Shift(PollRun(next, ticks[1..], threshold, budget - 1), 1)
  }

  /** One tick of the polling loop, for use inside loops that model it. */
  lemma PollRunStep(st: DetectorState, ticks: seq<Option<bool>>, i: nat, threshold: nat, budget: nat)
    requires i < budget <= |ticks|
    ensures PollRun(st, ticks[i..], threshold, budget - i) ==
      match ticks[i]
      case None => Shift(PollRun(st, ticks[i + 1..], threshold, budget - i - 1), 1)
      case Some(loud) =>
        if ShouldStop(Update(st, loud), threshold) then SilenceStop(1)
        else Shift(PollRun(Update(st, loud), ticks[i + 1..], threshold, budget - i - 1), 1)
  {
    assert ticks[i..][1..] == ticks[i + 1..];
  }

  /** One tick of the polling loop against the whole run, as for the pull
      loop; a tick that sees no frame leaves the state alone. */
  lemma PollLoopAdvance(run: Ending, st: DetectorState, next: DetectorState, ticks: seq<Option<bool>>, i: nat, threshold: nat, budget: nat)
    requires i < budget <= |ticks|
    requires next == if ticks[i].None? then st else Update(st, ticks[i].value)
    requires run == Shift(PollRun(st, ticks[i..], threshold, budget - i), i)
    ensures ticks[i].Some? && ShouldStop(next, threshold) ==> run == SilenceStop(i + 1)
    ensures !(ticks[i].Some? && ShouldStop(next, threshold)) ==>
      run == Shift(PollRun(next, ticks[i + 1..], threshold, budget - (i + 1)), i + 1)
  {
    PollRunStep(st, ticks, i, threshold, budget);
    ShiftShift(PollRun(next, ticks[i + 1..], threshold, budget - (i + 1)), 1, i);
  }

  /** The polling loop never fails and never runs more than `budget` ticks;
      when it does not stop by silence it runs all of them. */
  lemma {:induction false} PollRunBounds(st: DetectorState, ticks: seq<Option<bool>>, threshold: nat, budget: nat)
    requires budget <= |ticks|
    ensures match PollRun(st, ticks, threshold, budget)
      case SilenceStop(n) => 1 <= n <= budget
      case CapReached(n) => n == budget
      case DeviceLost(_) => false
    decreases budget
  {
    if budget > 0 {
      match ticks[0]
      case None => PollRunBounds(st, ticks[1..], threshold, budget - 1);
      case Some(loud) => PollRunBounds(Update(st, loud), ticks[1..], threshold, budget - 1);
    }
  }

  /** Ticks before the first frame arrives change nothing but the tick
      count. */
  lemma {:induction false} EmptyTicksOnlyDelay(st: DetectorState, ticks: seq<Option<bool>>, m: nat, threshold: nat, budget: nat)
    requires m <= budget <= |ticks|
    requires forall t :: 0 <= t < m ==> ticks[t].None?
    ensures PollRun(st, ticks, threshold, budget) == Shift(PollRun(st, ticks[m..], threshold, budget - m), m)
  {
    if m == 0 {
      var e := PollRun(st, ticks, threshold, budget);
      assert ticks[m..] == ticks;
      assert Shift(e, 0) == e;
    } else {
      EmptyTicksOnlyDelay(st, ticks[1..], m - 1, threshold, budget - 1);
      assert ticks[1..][m - 1..] == ticks[m..];
      var r := PollRun(st, ticks[m..], threshold, budget - m);
      assert Shift(Shift(r, m - 1), 1) == Shift(r, m);
    }
  }

  /** After speech, `threshold + 1 - count` ticks that each see a quiet
      latest frame stop the loop, whether or not a new frame arrived in
      between: a stale quiet frame is counted again on every tick. */
  lemma {:induction false} QuietTicksStop(count: nat, ticks: seq<Option<bool>>, threshold: nat, budget: nat)
    requires count <= threshold
    requires threshold + 1 - count <= budget <= |ticks|
    requires forall t :: 0 <= t < threshold + 1 - count ==> ticks[t] == Some(false)
    ensures PollRun(DetectorState(true, count), ticks, threshold, budget) == SilenceStop(threshold + 1 - count)
    decreases threshold - count
  {
    if count < threshold {
      QuietTicksStop(count + 1, ticks[1..], threshold, budget - 1);
    }
  }

  /** With no loud frame ever seen the polling loop runs every tick. */
  lemma {:induction false} PollAllQuietRunsToCap(ticks: seq<Option<bool>>, threshold: nat, budget: nat)
    requires budget <= |ticks|
    requires forall t :: 0 <= t < |ticks| ==> ticks[t] != Some(true)
    ensures PollRun(Initial, ticks, threshold, budget) == CapReached(budget)
    decreases budget
  {
    if budget > 0 {
      PollAllQuietRunsToCap(ticks[1..], threshold, budget - 1);
    }
  }

  /** Every tick sees a fresh frame. */
  function EveryTickSees(louds: seq<bool>): (r: seq<Option<bool>>)
    ensures |r| == |louds|
  {
    seq(|louds|, i requires 0 <= i < |louds| => Some(louds[i]))
  }

  /** When exactly one new frame arrives per tick, the polling loop ends as
      the pull loop does on those frames. */
  lemma {:induction false} PollMatchesPull(st: DetectorState, louds: seq<bool>, threshold: nat, budget: nat)
    requires budget <= |louds|
    ensures PollRun(st, EveryTickSees(louds), threshold, budget) == PullRun(st, louds, threshold, budget)
    decreases budget
  {
    if budget > 0 {
      assert EveryTickSees(louds)[1..] == EveryTickSees(louds[1..]);
      PollMatchesPull(Update(st, louds[0]), louds[1..], threshold, budget - 1);
    }
  }
}
