/** The `DiffusionImageGenerator` class (diffusion_image_gen.js:9-128): its four fields and
    the two loops that update `currentTimestep`. */
module Generator {
  import opened Tensors
  import opened NoiseSchedule
  import opened ImageLoading
  import opened Sampling
  import opened Training

  class DiffusionImageGenerator {
    /** The TensorFlow.js network, or `None` before `loadModel`; only whether it is set
        matters to the loops, so it is an opaque handle. */
    var model: Option<nat>
    var timesteps: nat
    var stopEarly: bool
    var currentTimestep: nat

    /** The progress counter stays within the schedule. */
    ghost predicate Valid()
      reads this
    {
      currentTimestep <= timesteps
    }

    constructor ()
      ensures Valid()
      ensures model == None && timesteps == 10 && !stopEarly && currentTimestep == 0
    {
      model := None;
      timesteps := 10;
      stopEarly := false;
      currentTimestep := 0;
    }

    /** The end of `loadModel`: the network is built and stored; nothing else changes. */
    method LoadModel(network: nat)
      requires Valid()
      modifies this`model
      ensures Valid() && model == Some(network)
    {
      model := Some(network);
    }

    /** `generateImage`: a countdown from `timesteps` to 1 that records the step, polls the
        stop flag, and otherwise replaces the image by the network's prediction. The
        assignment to `stopEarly` inside the loop stands for a write by another caller
        that lands before the poll; the sampler itself never writes the flag. */
    method GenerateImage(env: SampleEnv) returns (outcome: SampleOutcome, calls: seq<SampleEvent>)
      requires Valid()
      modifies this`currentTimestep, this`stopEarly
      ensures Valid()
      ensures SampleRun(calls, outcome, currentTimestep, stopEarly)
              == Generate(model, timesteps, old(stopEarly), old(currentTimestep), env)
      ensures old(stopEarly) ==> stopEarly
      ensures model.None? ==> calls == [] && currentTimestep == old(currentTimestep)
    {
      calls := [];
      if model.None? {
        return NotLoaded, calls;
      }
      ghost var spec := Generate(model, timesteps, stopEarly, currentTimestep, env);
      var image := env.initial;
      var t: int := timesteps;
      assert spec == Prepend(calls, Sample(env, t, image, stopEarly, currentTimestep));
      while t > 0
        invariant 0 <= t <= timesteps
        invariant currentTimestep <= timesteps
        invariant old(stopEarly) ==> stopEarly
        invariant spec == Prepend(calls, Sample(env, t, image, stopEarly, currentTimestep))
      {
        ghost var prev, done, flag, cur := image, calls, stopEarly, currentTimestep;
        currentTimestep := t;
        if env.stopRequests(t) {
          stopEarly := true;
        }
        if stopEarly {
          SampleStops(env, t, prev, flag, cur);
          calls := calls + [Saved(image, OutputPath)];
          return Returned(image), calls;
        }
        var noise := env.stepNoise(t);
        calls := calls + [Predicted(image, noise, t)];
        var predicted := env.predict(image, noise, t);
        if predicted.None? {
          SampleThrows(env, t, prev, false, cur);
          return Threw(t), calls;
        }
        image := predicted.value;
        if t % 10 == 0 {
          calls := calls + [Checkpoint(t)];
        }
        SampleStep(env, t, prev, false, cur);
        assert calls == done + ([Predicted(prev, noise, t)] + CheckpointAt(t));
        PrependTwice(done, [Predicted(prev, noise, t)] + CheckpointAt(t), Sample(env, t - 1, image, false, t));
        t := t - 1;
      }
      calls := calls + [Saved(image, OutputPath)];
      outcome := Returned(image);
    }

    /** `trainDiffusionModel`: load every image, then 10 epochs, each counting `j` up
        from 0 to `timesteps - 1`, submitting one batch per step and absorbing any failure. */
    method TrainDiffusionModel(sources: seq<seq<byte>>, env: TrainEnv) returns (attempts: seq<FitAttempt>)
      requires Valid()
      requires forall k :: 0 <= k < |sources| ==> |sources[k]| == 4 * PixelCount
      modifies this`currentTimestep
      ensures Valid()
      ensures attempts == TrainingRun(model, LoadedImages(sources), timesteps, env, Epochs)
      ensures currentTimestep == if timesteps > 0 then timesteps - 1 else old(currentTimestep)
    {
      var images := LoadImages(sources);
      var network, steps := model, timesteps;
      ghost var cur0 := currentTimestep;
      attempts := [];
      var i := 0;
      while i < Epochs
        invariant 0 <= i <= Epochs
        invariant i > 0 && steps > 0 ==> currentTimestep == steps - 1
        invariant i == 0 || steps == 0 ==> currentTimestep == cur0
        invariant attempts == TrainingRun(network, images, steps, env, i)
      {
        ghost var epochStart := currentTimestep;
        var j := 0;
        while j < steps
          invariant 0 <= j <= steps
          invariant j > 0 ==> currentTimestep == j - 1
          invariant j == 0 ==> currentTimestep == epochStart
          invariant attempts == TrainingRun(network, images, steps, env, i)
                                + EpochAttempts(network, images, steps, env, i, j)
        {
          currentTimestep := j;
          var noisy := NoisyImages(images, env, i, j, steps);
          var result;
          if network.None? {
            result := ModelMissing;
          } else if |images| == 0 {
            result := StackFailed;
          } else {
            var batch := FitBatch(noisy, env.batchNoise(i, j), Repeat(j, |images|), images);
            result := Fitted(batch, env.fit(i, j, batch));
          }
          var attempt := FitAttempt(i, j, currentTimestep, result);
          assert TrainingRun(network, images, steps, env, i) + EpochAttempts(network, images, steps, env, i, j + 1)
                 == attempts + [attempt] by {
            assert attempt == AttemptAt(network, images, steps, env, i, j);
            EpochGrows(network, images, steps, env, i, j);
          }
          attempts := attempts + [attempt];
          j := j + 1;
        }
        RunGrows(network, images, steps, env, i);
        i := i + 1;
      }
    }
  }

  /** Loads every training source in order, once each source is decoded to RGBA bytes. */
  method LoadImages(sources: seq<seq<byte>>) returns (images: seq<Tensor>)
    requires forall k :: 0 <= k < |sources| ==> |sources[k]| == 4 * PixelCount
    ensures images == LoadedImages(sources)
  {
    images := [];
    var k := 0;
    while k < |sources|
      invariant 0 <= k <= |sources|
      invariant images == LoadedImages(sources[..k])
    {
      var image := LoadImage(sources[k]);
      assert sources[..k + 1] == sources[..k] + [sources[k]];
      images := images + [image];
      k := k + 1;
    }
    assert sources[..k] == sources;
  }

  /** The tensors that loading every training source in order yields. */
  function LoadedImages(sources: seq<seq<byte>>): (images: seq<Tensor>)
    requires forall k :: 0 <= k < |sources| ==> |sources[k]| == 4 * PixelCount
    ensures |images| == |sources|
  {
    if sources == [] then []
    else LoadedImages(sources[..|sources| - 1]) + [LoadedImage(sources[|sources| - 1])]
  }

  /** Training image `k` is the normalised RGB repacking of source `k`: loading keeps the
      sources' order and neither drops nor merges any. */
  lemma {:induction false} LoadedImagesAt(sources: seq<seq<byte>>, k: nat)
    requires forall i :: 0 <= i < |sources| ==> |sources[i]| == 4 * PixelCount
    requires k < |sources|
    ensures LoadedImages(sources)[k] == LoadedImage(sources[k])
    decreases |sources|
  {
    if k < |sources| - 1 {
      LoadedImagesAt(sources[..|sources| - 1], k);
    }
  }

  /** The two loops run in opposite directions over different ranges: sampling asks the
      network about steps `timesteps .. 1`, training fits it at steps `0 .. timesteps - 1`.
      Step `timesteps` is sampled but never trained on, and step 0 is trained on but
      never sampled. */
  lemma StepDirections(network: nat, images: seq<Tensor>, timesteps: nat, cur: int,
                       sampleEnv: SampleEnv, trainEnv: TrainEnv)
    requires timesteps >= 1
    requires forall u :: 1 <= u <= timesteps ==> !sampleEnv.stopRequests(u)
    requires Denoise(sampleEnv, timesteps, 0, sampleEnv.initial).Some?
    ensures var sampled := PredictSteps(Generate(Some(network), timesteps, false, cur, sampleEnv).events);
      var trained := TrainingRun(Some(network), images, timesteps, trainEnv, Epochs);
      sampled[0] == timesteps && 0 !in sampled &&
      trained[0].step == 0 && (forall a :: a in trained ==> a.step != timesteps)
  {
    UncancelledRun(network, timesteps, cur, sampleEnv);
    AttemptsWithinSchedule(Some(network), images, timesteps, trainEnv, Epochs);
    TrainingOrder(Some(network), images, timesteps, trainEnv, Epochs, 0, 0);
  }
}
