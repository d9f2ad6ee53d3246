/** What `generateImage` (diffusion_image_gen.js:44-75) does, as a function of what it is
    given: the loaded network, `timesteps`, the stop flag, and its collaborators. The
    class method in the Generator module is proved to behave exactly like `Generate`. */
module Sampling {
  import opened Tensors

  /** The file both save calls name. */
  const OutputPath := "./images/output.png"

  /** Everything the sampling loop receives from outside itself. */
  datatype SampleEnv = SampleEnv(
    /** The standard-normal 1x256x256x3 starting image drawn before the loop. */
    initial: Tensor,
    /** The fresh standard-normal draw passed to `predict` at step `t`. */
    stepNoise: int -> Tensor,
    /** `model.predict([image, noise, [[t]]])`; `None` when the call throws. */
    predict: (Tensor, Tensor, int) -> Option<Tensor>,
    /** True when a caller has set `stopEarly` by the time the loop polls it at step `t`. */
    stopRequests: int -> bool)

  /** The calls the sampler makes that can be seen from outside it. */
  datatype SampleEvent =
    | Predicted(input: Tensor, noise: Tensor, step: int)
    | Checkpoint(step: int)
    | Saved(image: Tensor, path: string)

  datatype SampleOutcome =
    | NotLoaded           // the model guard returned undefined
    | Returned(image: Tensor)
    | Threw(step: int)    // predict threw at this step and the failure propagated

  /** The calls made, how the run ended, and the final `currentTimestep` and `stopEarly`. */
  datatype SampleRun = SampleRun(events: seq<SampleEvent>, outcome: SampleOutcome, timestep: int, stopEarly: bool)

  function Prepend(events: seq<SampleEvent>, r: SampleRun): SampleRun
  {
    r.(events := events + r.events)
  }

  lemma PrependTwice(a: seq<SampleEvent>, b: seq<SampleEvent>, r: SampleRun)
    ensures Prepend(a, Prepend(b, r)) == Prepend(a + b, r)
  {
    assert a + (b + r.events) == (a + b) + r.events;
  }

  /** The checkpoint log that follows the predict call of step `t`. */
  function CheckpointAt(t: int): seq<SampleEvent>
  {
    if t % 10 == 0 then [Checkpoint(t)] else []
  }

  /** The loop from step `t` down, holding `image`, with the stop flag at `stop` and
      `currentTimestep` at `cur` as it enters. */
  function Sample(env: SampleEnv, t: int, image: Tensor, stop: bool, cur: int): SampleRun
    decreases t
  {
    if t <= 0 then
      SampleRun([Saved(image, OutputPath)], Returned(image), cur, stop)
    else
      var seen := stop || env.stopRequests(t);
      if seen then
        SampleRun([Saved(image, OutputPath)], Returned(image), t, seen)
      else
        var noise := env.stepNoise(t);
        match env.predict(image, noise, t)
        case None => SampleRun([Predicted(image, noise, t)], Threw(t), t, seen)
        case Some(next) =>
          Prepend([Predicted(image, noise, t)] + CheckpointAt(t), Sample(env, t - 1, next, seen, t))
  }

  /** A whole call of `generateImage` with the network `model`. */
  function Generate(model: Option<nat>, timesteps: nat, stop: bool, cur: int, env: SampleEnv): SampleRun
  {
    if model.None? then SampleRun([], NotLoaded, cur, stop)
    else Sample(env, timesteps, env.initial, stop, cur)
  }

  // ---------------------------------------------------------------------------
  // Reference definitions the properties are stated with

  /** The steps `hi, hi - 1, ..., lo + 1`. */
  function Countdown(hi: int, lo: int): seq<int>
    decreases hi - lo
  {
    if hi <= lo then [] else [hi] + Countdown(hi - 1, lo)
  }

  /** Chaining `predict` at steps `hi` down to `lo + 1`, starting from `image`; `None`
      when one of those calls throws. */
  function Denoise(env: SampleEnv, hi: int, lo: int, image: Tensor): Option<Tensor>
    decreases hi - lo
  {
    if hi <= lo then Some(image)
    else match env.predict(image, env.stepNoise(hi), hi)
      case None => None
      case Some(next) => Denoise(env, hi - 1, lo, next)
  }

  /** The step arguments of the predict calls, in call order. */
  function PredictSteps(events: seq<SampleEvent>): seq<int>
  {
    if events == [] then []
    else (if events[0].Predicted? then [events[0].step] else []) + PredictSteps(events[1..])
  }

  /** The steps at which a checkpoint was logged, in order. */
  function CheckpointSteps(events: seq<SampleEvent>): seq<int>
  {
    if events == [] then []
    else (if events[0].Checkpoint? then [events[0].step] else []) + CheckpointSteps(events[1..])
  }

  /** The images saved, in order. */
  function Saves(events: seq<SampleEvent>): seq<Tensor>
  {
    if events == [] then []
    else (if events[0].Saved? then [events[0].image] else []) + Saves(events[1..])
  }

  /** The members of `s` that are multiples of 10, in order. */
  function MultiplesOfTen(s: seq<int>): seq<int>
  {
    if s == [] then [] else (if s[0] % 10 == 0 then [s[0]] else []) + MultiplesOfTen(s[1..])
  }

  // ---------------------------------------------------------------------------
  // Lemmas

  lemma {:induction false} CountdownShape(hi: int, lo: int)
    requires lo <= hi
    ensures |Countdown(hi, lo)| == hi - lo
    ensures forall k :: 0 <= k < hi - lo ==> Countdown(hi, lo)[k] == hi - k
    decreases hi - lo
  {
    if hi > lo {
      CountdownShape(hi - 1, lo);
    }
  }

  lemma {:induction false} MultiplesOfTenInCountdown(hi: int, lo: int, x: int)
    ensures x in MultiplesOfTen(Countdown(hi, lo)) <==> lo < x <= hi && x % 10 == 0
    decreases hi - lo
  {
    if hi > lo {
      var s := Countdown(hi, lo);
      assert s[0] == hi && s[1..] == Countdown(hi - 1, lo);
      MultiplesOfTenInCountdown(hi - 1, lo, x);
    }
  }

  lemma {:induction false} PredictStepsAppend(a: seq<SampleEvent>, b: seq<SampleEvent>)
    ensures PredictSteps(a + b) == PredictSteps(a) + PredictSteps(b)
  {
    if a != [] {
      assert (a + b)[0] == a[0] && (a + b)[1..] == a[1..] + b;
      PredictStepsAppend(a[1..], b);
    } else {
      assert a + b == b;
    }
  }

  lemma {:induction false} CheckpointStepsAppend(a: seq<SampleEvent>, b: seq<SampleEvent>)
    ensures CheckpointSteps(a + b) == CheckpointSteps(a) + CheckpointSteps(b)
  {
    if a != [] {
      assert (a + b)[0] == a[0] && (a + b)[1..] == a[1..] + b;
      CheckpointStepsAppend(a[1..], b);
    } else {
      assert a + b == b;
    }
  }

  lemma {:induction false} SavesAppend(a: seq<SampleEvent>, b: seq<SampleEvent>)
    ensures Saves(a + b) == Saves(a) + Saves(b)
  {
    if a != [] {
      assert (a + b)[0] == a[0] && (a + b)[1..] == a[1..] + b;
      SavesAppend(a[1..], b);
    } else {
      assert a + b == b;
    }
  }

  lemma EventsAppend(a: seq<SampleEvent>, b: seq<SampleEvent>)
    ensures PredictSteps(a + b) == PredictSteps(a) + PredictSteps(b)
    ensures CheckpointSteps(a + b) == CheckpointSteps(a) + CheckpointSteps(b)
    ensures Saves(a + b) == Saves(a) + Saves(b)
  {
    PredictStepsAppend(a, b);
    CheckpointStepsAppend(a, b);
    SavesAppend(a, b);
  }

  lemma {:induction false} MultiplesOfTenAppend(a: seq<int>, b: seq<int>)
    ensures MultiplesOfTen(a + b) == MultiplesOfTen(a) + MultiplesOfTen(b)
  {
    if a != [] {
      assert (a + b)[0] == a[0] && (a + b)[1..] == a[1..] + b;
      MultiplesOfTenAppend(a[1..], b);
    } else {
      assert a + b == b;
    }
  }

  lemma {:induction false} CountdownSplit(hi: int, mid: int, lo: int)
    requires lo <= mid <= hi
    ensures Countdown(hi, lo) == Countdown(hi, mid) + Countdown(mid, lo)
    decreases hi - mid
  {
    if hi > mid {
      CountdownSplit(hi - 1, mid, lo);
    }
  }

  /** A countdown through no multiple of 10 logs no checkpoint. */
  lemma {:induction false} NoMultiplesOfTen(hi: int, lo: int)
    requires forall x :: lo < x <= hi ==> x % 10 != 0
    ensures MultiplesOfTen(Countdown(hi, lo)) == []
    decreases hi - lo
  {
    if hi > lo {
      var c := Countdown(hi, lo);
      assert c[0] == hi && c[1..] == Countdown(hi - 1, lo);
      NoMultiplesOfTen(hi - 1, lo);
    }
  }

  /** Counting down from the multiple of ten `10 * (n + 1)` to 9 checkpoints at
      `10 * (n + 1)`, then at `10 * n` and so on down to 10. */
  lemma {:induction false} MultiplesOfTenStep(hi: int)
    requires hi % 10 == 0 && hi >= 10
    ensures MultiplesOfTen(Countdown(hi, hi - 10)) == [hi]
  {
    CountdownSplit(hi, hi - 1, hi - 10);
    MultiplesOfTenAppend(Countdown(hi, hi - 1), Countdown(hi - 1, hi - 10));
    var c := Countdown(hi, hi - 1);
    assert c == [hi] + Countdown(hi - 1, hi - 1);
    assert MultiplesOfTen(c) == [hi] + MultiplesOfTen([]);
    NoMultiplesOfTen(hi - 1, hi - 10);
  }

  /** The events of one completed step: one predict call at `t`, and a checkpoint at `t`
      exactly when `t` is a multiple of 10. */
  lemma StepEvents(input: Tensor, noise: Tensor, t: int)
    ensures var e := [Predicted(input, noise, t)] + CheckpointAt(t);
      PredictSteps(e) == [t] && Saves(e) == [] &&
      CheckpointSteps(e) == MultiplesOfTen([t])
  {
    var e := [Predicted(input, noise, t)] + CheckpointAt(t);
    EventsAppend([Predicted(input, noise, t)], CheckpointAt(t));
    assert MultiplesOfTen([t]) == (if t % 10 == 0 then [t] else []) + MultiplesOfTen([]);
  }

  /** One completed step: the predict call at `t`, its checkpoint, then the rest of the loop. */
  lemma SampleStep(env: SampleEnv, t: int, image: Tensor, stop: bool, cur: int)
    requires t > 0 && !stop && !env.stopRequests(t)
    requires env.predict(image, env.stepNoise(t), t).Some?
    ensures var next := env.predict(image, env.stepNoise(t), t).value;
      Sample(env, t, image, stop, cur)
      == Prepend([Predicted(image, env.stepNoise(t), t)] + CheckpointAt(t), Sample(env, t - 1, next, false, t))
    ensures Denoise(env, t, 0, image) == Denoise(env, t - 1, 0, env.predict(image, env.stepNoise(t), t).value)
  {
  }

  /** A step whose poll sees the flag saves the current image and returns it. */
  lemma SampleStops(env: SampleEnv, t: int, image: Tensor, stop: bool, cur: int)
    requires t > 0 && (stop || env.stopRequests(t))
    ensures Sample(env, t, image, stop, cur) == SampleRun([Saved(image, OutputPath)], Returned(image), t, true)
  {
  }

  /** A step whose predict call throws ends the run there. */
  lemma SampleThrows(env: SampleEnv, t: int, image: Tensor, stop: bool, cur: int)
    requires t > 0 && !stop && !env.stopRequests(t)
    requires env.predict(image, env.stepNoise(t), t).None?
    ensures Sample(env, t, image, stop, cur) == SampleRun([Predicted(image, env.stepNoise(t), t)], Threw(t), t, false)
  {
  }

  /** What a completed step adds to the three summaries of the trace. */
  lemma StepSummaries(input: Tensor, noise: Tensor, t: int, rest: seq<SampleEvent>)
    ensures var e := [Predicted(input, noise, t)] + CheckpointAt(t) + rest;
      PredictSteps(e) == [t] + PredictSteps(rest) &&
      Saves(e) == Saves(rest) &&
      CheckpointSteps(e) == MultiplesOfTen([t]) + CheckpointSteps(rest)
  {
    var head := [Predicted(input, noise, t)] + CheckpointAt(t);
    EventsAppend(head, rest);
    StepEvents(input, noise, t);
  }

  /** Early stop: when the flag is first seen at step `s` (already set on entry if
      `s == t`, otherwise raised by a caller just before the poll at `s`), the run makes
      `t - s` predict calls at steps `t` down to `s + 1`, leaves `currentTimestep` at `s`,
      and saves and returns exactly once the image reached so far. */
  lemma {:induction false} EarlyStop(env: SampleEnv, t: int, image: Tensor, stop: bool, cur: int, s: int)
    requires 1 <= s <= t
    requires s < t ==> !stop
    requires forall u :: s < u <= t ==> !env.stopRequests(u)
    requires stop || env.stopRequests(s)
    requires Denoise(env, t, s, image).Some?
    ensures var r := Sample(env, t, image, stop, cur);
      var reached := Denoise(env, t, s, image).value;
      r.outcome == Returned(reached) &&
      Saves(r.events) == [reached] &&
      PredictSteps(r.events) == Countdown(t, s) &&
      r.timestep == s && r.stopEarly
    decreases t
  {
    if s == t {
      var r := Sample(env, t, image, stop, cur);
      assert r.events == [Saved(image, OutputPath)];
      assert Saves(r.events) == [image] + Saves([]);
      assert PredictSteps(r.events) == [] + PredictSteps([]);
    } else {
      var noise := env.stepNoise(t);
      var next := env.predict(image, noise, t).value;
      SampleStep(env, t, image, stop, cur);
      assert Denoise(env, t, s, image) == Denoise(env, t - 1, s, next);
      EarlyStop(env, t - 1, next, false, t, s);
      StepSummaries(image, noise, t, Sample(env, t - 1, next, false, t).events);
      assert Countdown(t, s) == [t] + Countdown(t - 1, s);
    }
  }

  /** A run that never sees the flag and whose predict calls all return: `predict` is called
      at `t, t - 1, ..., 1`, a checkpoint follows every step that is a multiple of 10,
      the final image is saved exactly once and returned, and `currentTimestep` ends at 1. */
  lemma {:induction false} FullRun(env: SampleEnv, t: int, image: Tensor, stop: bool, cur: int)
    requires !stop
    requires forall u :: 1 <= u <= t ==> !env.stopRequests(u)
    requires Denoise(env, t, 0, image).Some?
    ensures var r := Sample(env, t, image, stop, cur);
      var final := Denoise(env, t, 0, image).value;
      r.outcome == Returned(final) &&
      Saves(r.events) == [final] &&
      PredictSteps(r.events) == Countdown(t, 0) &&
      CheckpointSteps(r.events) == MultiplesOfTen(Countdown(t, 0)) &&
      r.timestep == (if t >= 1 then 1 else cur) && !r.stopEarly
    decreases t
  {
    if t <= 0 {
      var r := Sample(env, t, image, stop, cur);
      assert r.events == [Saved(image, OutputPath)];
      assert Saves(r.events) == [image] + Saves([]);
      assert PredictSteps(r.events) == [] + PredictSteps([]);
      assert CheckpointSteps(r.events) == [] + CheckpointSteps([]);
    } else {
      var noise := env.stepNoise(t);
      var next := env.predict(image, noise, t).value;
      SampleStep(env, t, image, stop, cur);
      FullRun(env, t - 1, next, false, t);
      StepSummaries(image, noise, t, Sample(env, t - 1, next, false, t).events);
      var c := Countdown(t, 0);
      assert c == [t] + Countdown(t - 1, 0);
      MultiplesOfTenAppend([t], Countdown(t - 1, 0));
    }
  }

  /** A predict call that throws ends the run at its step: every call before it returned,
      the chained image reached that step and the call there threw; the calls up to and
      including the failing one were made, nothing is saved, and `currentTimestep` stays
      at that step. */
  lemma {:induction false} PredictFailure(env: SampleEnv, t: int, image: Tensor, stop: bool, cur: int)
    requires !stop
    requires forall u :: 1 <= u <= t ==> !env.stopRequests(u)
    requires Denoise(env, t, 0, image).None?
    ensures var r := Sample(env, t, image, stop, cur);
      r.outcome.Threw? && 1 <= r.outcome.step <= t &&
      Saves(r.events) == [] &&
      PredictSteps(r.events) == Countdown(t, r.outcome.step - 1) &&
      r.timestep == r.outcome.step &&
      var s := r.outcome.step;
      Denoise(env, t, s, image).Some? &&
      env.predict(Denoise(env, t, s, image).value, env.stepNoise(s), s).None?
    decreases t
  {
    var noise := env.stepNoise(t);
    match env.predict(image, noise, t)
    case None =>
      var r := Sample(env, t, image, stop, cur);
      assert r.events == [Predicted(image, noise, t)];
      assert Saves(r.events) == [] + Saves([]);
      assert PredictSteps(r.events) == [t] + PredictSteps([]);
      assert Countdown(t, t - 1) == [t] + Countdown(t - 1, t - 1);
    case Some(next) =>
      SampleStep(env, t, image, stop, cur);
      PredictFailure(env, t - 1, next, false, t);
      var rest := Sample(env, t - 1, next, false, t);
      StepSummaries(image, noise, t, rest.events);
      assert Countdown(t, rest.outcome.step - 1) == [t] + Countdown(t - 1, rest.outcome.step - 1);
      assert Denoise(env, t, rest.outcome.step, image) == Denoise(env, t - 1, rest.outcome.step, next);
  }

  // ---------------------------------------------------------------------------
  // The same properties for a whole call of generateImage

  /** Without a network nothing is called, nothing is saved, and no state changes. */
  lemma UnloadedGuard(timesteps: nat, stop: bool, cur: int, env: SampleEnv)
    ensures var r := Generate(None, timesteps, stop, cur, env);
      r.events == [] && r.outcome == NotLoaded && r.timestep == cur && r.stopEarly == stop
  {
  }

  /** With the flag set before the call, the untouched initial noise is saved and returned
      and the network is never called. */
  lemma StopBeforeStart(network: nat, timesteps: nat, cur: int, env: SampleEnv)
    ensures var r := Generate(Some(network), timesteps, true, cur, env);
      r.outcome == Returned(env.initial) && Saves(r.events) == [env.initial] && PredictSteps(r.events) == []
  {
    if timesteps >= 1 {
      EarlyStop(env, timesteps, env.initial, true, cur, timesteps);
    } else {
      var r := Generate(Some(network), timesteps, true, cur, env);
      assert r.events == [Saved(env.initial, OutputPath)];
      assert Saves(r.events) == [env.initial] + Saves([]);
      assert PredictSteps(r.events) == [] + PredictSteps([]);
    }
  }

  /** A complete uncancelled run: exactly `timesteps` predict calls, the k-th at step
      `timesteps - k`, so step 0 is never submitted; one save; a checkpoint at exactly the
      steps that are multiples of 10. */
  lemma UncancelledRun(network: nat, timesteps: nat, cur: int, env: SampleEnv)
    requires forall u :: 1 <= u <= timesteps ==> !env.stopRequests(u)
    requires Denoise(env, timesteps, 0, env.initial).Some?
    ensures var r := Generate(Some(network), timesteps, false, cur, env);
      var steps := PredictSteps(r.events);
      |steps| == timesteps &&
      (forall k :: 0 <= k < timesteps ==> steps[k] == timesteps - k) &&
      0 !in steps &&
      |Saves(r.events)| == 1 &&
      (forall x :: x in CheckpointSteps(r.events) <==> 1 <= x <= timesteps && x % 10 == 0)
  {
    FullRun(env, timesteps, env.initial, false, cur);
    CountdownShape(timesteps, 0);
    forall x ensures x in CheckpointSteps(Generate(Some(network), timesteps, false, cur, env).events)
      <==> 1 <= x <= timesteps && x % 10 == 0
    {
      MultiplesOfTenInCountdown(timesteps, 0, x);
    }
  }

  /** A run cancelled when the flag is first seen at step `s`: `timesteps - s` predict calls,
      `currentTimestep` left at `s`, and one save of the image returned, which is the
      untouched initial noise when `s == timesteps`. */
  lemma CancelledRun(network: nat, timesteps: nat, stop: bool, cur: int, env: SampleEnv, s: int)
    requires 1 <= s <= timesteps
    requires s < timesteps ==> !stop
    requires forall u :: s < u <= timesteps ==> !env.stopRequests(u)
    requires stop || env.stopRequests(s)
    requires Denoise(env, timesteps, s, env.initial).Some?
    ensures var r := Generate(Some(network), timesteps, stop, cur, env);
      |PredictSteps(r.events)| == timesteps - s && r.timestep == s &&
      |Saves(r.events)| == 1 && r.outcome == Returned(Saves(r.events)[0]) &&
      (s == timesteps ==> r.outcome == Returned(env.initial))
  {
    EarlyStop(env, timesteps, env.initial, stop, cur, s);
    CountdownShape(timesteps, s);
  }

  /** With the constructor's 10 steps, the checkpoint fires once, at step 10. */
  lemma DefaultCheckpoint(network: nat, cur: int, env: SampleEnv)
    requires forall u :: 1 <= u <= 10 ==> !env.stopRequests(u)
    requires Denoise(env, 10, 0, env.initial).Some?
    ensures CheckpointSteps(Generate(Some(network), 10, false, cur, env).events) == [10]
  {
    FullRun(env, 10, env.initial, false, cur);
    MultiplesOfTenStep(10);
  }

  /** With 30 steps the checkpoint fires at 30, 20 and 10: step 30 is a multiple of 10
      and its predict call happens, so the first step is checkpointed too. */
  lemma ThirtyStepCheckpoints(network: nat, cur: int, env: SampleEnv)
    requires forall u :: 1 <= u <= 30 ==> !env.stopRequests(u)
    requires Denoise(env, 30, 0, env.initial).Some?
    ensures CheckpointSteps(Generate(Some(network), 30, false, cur, env).events) == [30, 20, 10]
  {
    FullRun(env, 30, env.initial, false, cur);
    CheckpointsOfMultiple(3);
  }

  /** The multiples of ten from `10 * n` down to 10. */
  function TensDown(n: nat): seq<int>
  {
    if n == 0 then [] else [10 * n] + TensDown(n - 1)
  }

  /** Counting down from `10 * n` checkpoints at `10 * n`, `10 * (n - 1)`, ..., 10. */
  lemma {:induction false} CheckpointsOfMultiple(n: nat)
    ensures MultiplesOfTen(Countdown(10 * n, 0)) == TensDown(n)
  {
    if n > 0 {
      CountdownSplit(10 * n, 10 * (n - 1), 0);
      MultiplesOfTenAppend(Countdown(10 * n, 10 * (n - 1)), Countdown(10 * (n - 1), 0));
      MultiplesOfTenStep(10 * n);
      CheckpointsOfMultiple(n - 1);
    }
  }
}
