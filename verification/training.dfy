/** What `trainDiffusionModel` (diffusion_image_gen.js:77-107) does, as a function of the
    network, the loaded images, `timesteps` and its collaborators. The class method in the
    Generator module is proved to produce exactly `TrainingRun(..., Epochs)`. */
module Training {
  import opened Tensors
  import opened NoiseSchedule

  /** The fixed number of passes over all timesteps. */
  const Epochs: nat := 10

  /** The arguments of one `model.fit` call: the stacked noisy images, a batch of fresh
      noise, the timestep column and, as the target, the stacked clean images. */
  datatype FitBatch = FitBatch(noisy: seq<Tensor>, noise: Tensor, steps: seq<int>, target: seq<Tensor>)

  datatype FitOutcome = Loss(value: real) | Failed

  /** Everything the training loop receives from outside itself. */
  datatype TrainEnv = TrainEnv(
    /** Element `x` of the standard-normal draw shaped like the image that `addNoise` makes for
        image `k` at step `j` of epoch `e`. */
    imageNoise: (nat, nat, nat, nat) -> real,
    /** The standard-normal target batch, one 256x256x3 image per source, at step `j` of epoch `e`. */
    batchNoise: (nat, nat) -> Tensor,
    /** What the network's `fit` does with the batch at step `j` of epoch `e`; its hidden
        weights change from call to call, so the outcome may depend on when it is called. */
    fit: (nat, nat, FitBatch) -> FitOutcome)

  /** How the `try` block of one step ended. */
  datatype AttemptResult =
    | ModelMissing                                // fitting through a null model threw
    | StackFailed                                 // stacking an empty list threw: no images
    | Fitted(batch: FitBatch, outcome: FitOutcome)  // fit was called; a Failed outcome was caught

  /** One pass through the inner loop body, with `currentTimestep` as the body left it. */
  datatype FitAttempt = FitAttempt(epoch: nat, step: nat, timestep: int, result: AttemptResult) {
    /** The `catch` branch ran: the step failed and was logged. */
    predicate Caught() {
      !(result.Fitted? && result.outcome.Loss?)
    }
  }

  /** The noise `addNoise` draws for image `k`: a tensor of that image's shape. */
  function ImageNoise(env: TrainEnv, epoch: nat, j: nat, k: nat, image: Tensor): (noise: Tensor)
    ensures |noise| == |image|
  {
    seq(|image|, x requires 0 <= x < |image| => env.imageNoise(epoch, j, k, x))
  }

  /** Every training image noised to timestep `j`, in order. */
  function NoisyImages(images: seq<Tensor>, env: TrainEnv, epoch: nat, j: nat, timesteps: nat): (noisy: seq<Tensor>)
    requires j < timesteps
    ensures |noisy| == |images|
    ensures forall k :: 0 <= k < |images| ==> |noisy[k]| == |images[k]|
  {
    seq(|images|, k requires 0 <= k < |images| =>
      AddNoise(images[k], ImageNoise(env, epoch, j, k, images[k]), j, timesteps))
  }

  /** The timestep column of a batch: `j` once per image. */
  function Repeat(j: int, n: nat): (column: seq<int>)
    ensures |column| == n && forall k :: 0 <= k < n ==> column[k] == j
  {
    seq(n, _ => j)
  }

  /** Step `j` of epoch `epoch`. */
  function AttemptAt(model: Option<nat>, images: seq<Tensor>, timesteps: nat, env: TrainEnv,
                     epoch: nat, j: nat): FitAttempt
    requires j < timesteps
  {
    FitAttempt(epoch, j, j,
      if model.None? then ModelMissing
      else if |images| == 0 then StackFailed
      else
        var batch := FitBatch(NoisyImages(images, env, epoch, j, timesteps), env.batchNoise(epoch, j),
                              Repeat(j, |images|), images);
        Fitted(batch, env.fit(epoch, j, batch)))
  }

  /** Steps `0 .. count - 1` of epoch `epoch`. */
  function EpochAttempts(model: Option<nat>, images: seq<Tensor>, timesteps: nat, env: TrainEnv,
                         epoch: nat, count: nat): seq<FitAttempt>
    requires count <= timesteps
  {
    if count == 0 then []
    else EpochAttempts(model, images, timesteps, env, epoch, count - 1)
         + [AttemptAt(model, images, timesteps, env, epoch, count - 1)]
  }

  /** Epochs `0 .. epochs - 1`, each over every timestep. */
  function TrainingRun(model: Option<nat>, images: seq<Tensor>, timesteps: nat, env: TrainEnv,
                       epochs: nat): seq<FitAttempt>
  {
    if epochs == 0 then []
    else TrainingRun(model, images, timesteps, env, epochs - 1)
         + EpochAttempts(model, images, timesteps, env, epochs - 1, timesteps)
  }

  /** How many times `fit` was actually entered. */
  function FitCalls(attempts: seq<FitAttempt>): nat
  {
    if attempts == [] then 0
    else FitCalls(attempts[..|attempts| - 1]) + (if attempts[|attempts| - 1].result.Fitted? then 1 else 0)
  }

  // ---------------------------------------------------------------------------
  // Lemmas

  lemma {:induction false} EpochAttemptsAt(model: Option<nat>, images: seq<Tensor>, timesteps: nat,
                                          env: TrainEnv, epoch: nat, count: nat, j: nat)
    requires count <= timesteps && j < count
    ensures |EpochAttempts(model, images, timesteps, env, epoch, count)| == count
    ensures EpochAttempts(model, images, timesteps, env, epoch, count)[j]
            == AttemptAt(model, images, timesteps, env, epoch, j)
  {
    if j < count - 1 {
      EpochAttemptsAt(model, images, timesteps, env, epoch, count - 1, j);
    } else if count > 1 {
      EpochAttemptsLength(model, images, timesteps, env, epoch, count - 1);
    }
  }

  lemma {:induction false} EpochAttemptsLength(model: Option<nat>, images: seq<Tensor>, timesteps: nat,
                                              env: TrainEnv, epoch: nat, count: nat)
    requires count <= timesteps
    ensures |EpochAttempts(model, images, timesteps, env, epoch, count)| == count
  {
    if count > 0 {
      EpochAttemptsLength(model, images, timesteps, env, epoch, count - 1);
    }
  }

  lemma {:induction false} TrainingRunLength(model: Option<nat>, images: seq<Tensor>, timesteps: nat,
                                            env: TrainEnv, epochs: nat)
    ensures |TrainingRun(model, images, timesteps, env, epochs)| == epochs * timesteps
  {
    if epochs > 0 {
      TrainingRunLength(model, images, timesteps, env, epochs - 1);
      EpochAttemptsLength(model, images, timesteps, env, epochs - 1, timesteps);
      assert epochs * timesteps == (epochs - 1) * timesteps + timesteps;
    }
  }

  /** The run holds exactly `epochs * timesteps` attempts, step `j` of epoch `e` at position
      `e * timesteps + j`: epochs in order, and inside each epoch `j = 0 .. timesteps - 1`,
      whatever any fit call returned. */
  lemma {:induction false} TrainingOrder(model: Option<nat>, images: seq<Tensor>, timesteps: nat,
                                        env: TrainEnv, epochs: nat, e: nat, j: nat)
    requires e < epochs && j < timesteps
    ensures |TrainingRun(model, images, timesteps, env, epochs)| == epochs * timesteps
    ensures e * timesteps + j < epochs * timesteps
    ensures TrainingRun(model, images, timesteps, env, epochs)[e * timesteps + j]
            == AttemptAt(model, images, timesteps, env, e, j)
  {
    TrainingRunLength(model, images, timesteps, env, epochs);
    TrainingRunLength(model, images, timesteps, env, epochs - 1);
    EpochAttemptsAt(model, images, timesteps, env, epochs - 1, timesteps, j);
    assert (epochs - 1) * timesteps + timesteps == epochs * timesteps;
    if e < epochs - 1 {
      TrainingOrder(model, images, timesteps, env, epochs - 1, e, j);
      assert e * timesteps + j < (epochs - 1) * timesteps;
    } else {
      assert e * timesteps == (epochs - 1) * timesteps;
    }
  }

  /** A failed step `t` of epoch `e` is recorded as caught at its place in the run, and the
      loop goes on: the next attempt is step `t + 1` of the same epoch, or step 0 of the
      next epoch when `t` was the last step. */
  lemma FailureAbsorbed(model: Option<nat>, images: seq<Tensor>, timesteps: nat, env: TrainEnv, e: nat, t: nat)
    requires e < Epochs && t < timesteps
    requires AttemptAt(model, images, timesteps, env, e, t).Caught()
    ensures var run := TrainingRun(model, images, timesteps, env, Epochs);
      e * timesteps + t < |run| &&
      run[e * timesteps + t] == AttemptAt(model, images, timesteps, env, e, t) &&
      run[e * timesteps + t].Caught()
    ensures var run := TrainingRun(model, images, timesteps, env, Epochs);
      t + 1 < timesteps ==>
        run[e * timesteps + t + 1] == AttemptAt(model, images, timesteps, env, e, t + 1)
    ensures var run := TrainingRun(model, images, timesteps, env, Epochs);
      t + 1 == timesteps && e + 1 < Epochs ==>
        run[e * timesteps + t + 1] == AttemptAt(model, images, timesteps, env, e + 1, 0)
  {
    var run := TrainingRun(model, images, timesteps, env, Epochs);
    assert e * timesteps + t < |run| && run[e * timesteps + t] == AttemptAt(model, images, timesteps, env, e, t) by {
      TrainingOrder(model, images, timesteps, env, Epochs, e, t);
    }
    if t + 1 < timesteps {
      assert run[e * timesteps + (t + 1)] == AttemptAt(model, images, timesteps, env, e, t + 1) by {
        TrainingOrder(model, images, timesteps, env, Epochs, e, t + 1);
      }
    } else if e + 1 < Epochs {
      EpochBoundary(model, images, timesteps, env, e);
    }
  }

  /** The attempt right after the last step of epoch `e` is step 0 of epoch `e + 1`. */
  lemma EpochBoundary(model: Option<nat>, images: seq<Tensor>, timesteps: nat, env: TrainEnv, e: nat)
    requires e + 1 < Epochs && 0 < timesteps
    ensures var run := TrainingRun(model, images, timesteps, env, Epochs);
      e * timesteps + timesteps < |run| &&
      run[e * timesteps + timesteps] == AttemptAt(model, images, timesteps, env, e + 1, 0)
  {
    TrainingOrder(model, images, timesteps, env, Epochs, e + 1, 0);
    assert (e + 1) * timesteps == e * timesteps + timesteps;
  }

  lemma {:induction false} EpochWithinSchedule(model: Option<nat>, images: seq<Tensor>, timesteps: nat,
                                              env: TrainEnv, epoch: nat, count: nat)
    requires count <= timesteps
    ensures forall a :: a in EpochAttempts(model, images, timesteps, env, epoch, count) ==>
      a.step < timesteps && a.timestep == a.step && a.epoch == epoch
  {
    if count > 0 {
      EpochWithinSchedule(model, images, timesteps, env, epoch, count - 1);
    }
  }

  /** One more step of an epoch. */
  lemma EpochGrows(model: Option<nat>, images: seq<Tensor>, timesteps: nat, env: TrainEnv, epoch: nat, j: nat)
    requires j < timesteps
    ensures EpochAttempts(model, images, timesteps, env, epoch, j + 1)
            == EpochAttempts(model, images, timesteps, env, epoch, j) + [AttemptAt(model, images, timesteps, env, epoch, j)]
  {
  }

  /** One more epoch of the run. */
  lemma RunGrows(model: Option<nat>, images: seq<Tensor>, timesteps: nat, env: TrainEnv, epochs: nat)
    ensures TrainingRun(model, images, timesteps, env, epochs + 1)
            == TrainingRun(model, images, timesteps, env, epochs) + EpochAttempts(model, images, timesteps, env, epochs, timesteps)
  {
  }

  /** Every attempt runs at a step `0 <= j < timesteps` with `currentTimestep == j`, so the
      progress counter never leaves the schedule during training. */
  lemma {:induction false} AttemptsWithinSchedule(model: Option<nat>, images: seq<Tensor>, timesteps: nat,
                                                 env: TrainEnv, epochs: nat)
    ensures forall a :: a in TrainingRun(model, images, timesteps, env, epochs) ==>
      a.step < timesteps && a.timestep == a.step && a.epoch < epochs
  {
    if epochs > 0 {
      AttemptsWithinSchedule(model, images, timesteps, env, epochs - 1);
      EpochWithinSchedule(model, images, timesteps, env, epochs - 1, timesteps);
    }
  }

  lemma {:induction false} FitCallsAppend(a: seq<FitAttempt>, b: seq<FitAttempt>)
    ensures FitCalls(a + b) == FitCalls(a) + FitCalls(b)
    decreases |b|
  {
    if b == [] {
      assert a + b == a;
    } else {
      var last := |b| - 1;
      assert (a + b)[..|a + b| - 1] == a + b[..last];
      assert (a + b)[|a + b| - 1] == b[last];
      FitCallsAppend(a, b[..last]);
    }
  }

  lemma {:induction false} EpochFitCalls(model: Option<nat>, images: seq<Tensor>, timesteps: nat,
                                        env: TrainEnv, epoch: nat, count: nat)
    requires count <= timesteps
    ensures FitCalls(EpochAttempts(model, images, timesteps, env, epoch, count))
            == if model.Some? && |images| > 0 then count else 0
  {
    if count > 0 {
      EpochFitCalls(model, images, timesteps, env, epoch, count - 1);
      var prefix := EpochAttempts(model, images, timesteps, env, epoch, count - 1);
      var s := EpochAttempts(model, images, timesteps, env, epoch, count);
      assert s[..|s| - 1] == prefix;
    }
  }

  lemma {:induction false} EveryAttemptFits(model: Option<nat>, images: seq<Tensor>, timesteps: nat,
                                           env: TrainEnv, epochs: nat)
    requires model.Some? && |images| > 0
    ensures FitCalls(TrainingRun(model, images, timesteps, env, epochs))
            == |TrainingRun(model, images, timesteps, env, epochs)|
  {
    if epochs > 0 {
      var earlier := TrainingRun(model, images, timesteps, env, epochs - 1);
      var last := EpochAttempts(model, images, timesteps, env, epochs - 1, timesteps);
      assert FitCalls(earlier) == |earlier| by {
        EveryAttemptFits(model, images, timesteps, env, epochs - 1);
      }
      assert FitCalls(last) == |last| by {
        EpochFitCalls(model, images, timesteps, env, epochs - 1, timesteps);
        EpochAttemptsLength(model, images, timesteps, env, epochs - 1, timesteps);
      }
      assert TrainingRun(model, images, timesteps, env, epochs) == earlier + last by {
        RunGrows(model, images, timesteps, env, epochs - 1);
      }
      FitCallsAppend(earlier, last);
    }
  }

  /** With a loaded network and at least one image, `fit` is entered exactly
      `epochs * timesteps` times. */
  lemma FitCallCount(model: Option<nat>, images: seq<Tensor>, timesteps: nat, env: TrainEnv, epochs: nat)
    requires model.Some? && |images| > 0
    ensures FitCalls(TrainingRun(model, images, timesteps, env, epochs)) == epochs * timesteps
  {
    EveryAttemptFits(model, images, timesteps, env, epochs);
    TrainingRunLength(model, images, timesteps, env, epochs);
  }

  lemma {:induction false} EpochCaught(model: Option<nat>, images: seq<Tensor>, timesteps: nat,
                                      env: TrainEnv, epoch: nat, count: nat)
    requires model.None? || |images| == 0
    requires count <= timesteps
    ensures forall a :: a in EpochAttempts(model, images, timesteps, env, epoch, count) ==> a.Caught()
  {
    if count > 0 {
      EpochCaught(model, images, timesteps, env, epoch, count - 1);
    }
  }

  /** With no network, or no image to stack, `fit` is never entered, though every step
      still runs and its error is caught. */
  lemma NoFitCalls(model: Option<nat>, images: seq<Tensor>, timesteps: nat, env: TrainEnv, epochs: nat)
    requires model.None? || |images| == 0
    ensures FitCalls(TrainingRun(model, images, timesteps, env, epochs)) == 0
    ensures |TrainingRun(model, images, timesteps, env, epochs)| == epochs * timesteps
    ensures forall a :: a in TrainingRun(model, images, timesteps, env, epochs) ==> a.Caught()
  {
    RunFitCallsZero(model, images, timesteps, env, epochs);
    TrainingRunLength(model, images, timesteps, env, epochs);
    RunCaught(model, images, timesteps, env, epochs);
  }

  lemma {:induction false} RunFitCallsZero(model: Option<nat>, images: seq<Tensor>, timesteps: nat,
                                          env: TrainEnv, epochs: nat)
    requires model.None? || |images| == 0
    ensures FitCalls(TrainingRun(model, images, timesteps, env, epochs)) == 0
  {
    if epochs > 0 {
      var earlier := TrainingRun(model, images, timesteps, env, epochs - 1);
      var last := EpochAttempts(model, images, timesteps, env, epochs - 1, timesteps);
      assert FitCalls(earlier) == 0 by {
        RunFitCallsZero(model, images, timesteps, env, epochs - 1);
      }
      assert FitCalls(last) == 0 by {
        EpochFitCalls(model, images, timesteps, env, epochs - 1, timesteps);
      }
      assert TrainingRun(model, images, timesteps, env, epochs) == earlier + last by {
        RunGrows(model, images, timesteps, env, epochs - 1);
      }
      FitCallsAppend(earlier, last);
    }
  }

  lemma {:induction false} RunCaught(model: Option<nat>, images: seq<Tensor>, timesteps: nat,
                                    env: TrainEnv, epochs: nat)
    requires model.None? || |images| == 0
    ensures forall a :: a in TrainingRun(model, images, timesteps, env, epochs) ==> a.Caught()
  {
    if epochs > 0 {
      RunCaught(model, images, timesteps, env, epochs - 1);
      EpochCaught(model, images, timesteps, env, epochs - 1, timesteps);
      RunGrows(model, images, timesteps, env, epochs - 1);
    }
  }


  /** What step `j` submits: `currentTimestep` is `j`; the batch has one entry per image, a
      timestep column of `j` repeated, the clean images in input order as the target, and a
      noisy image between each clean image and its noise. At `j == 0` the noisy images
      are the clean images themselves. */
  lemma AttemptShape(model: Option<nat>, images: seq<Tensor>, timesteps: nat, env: TrainEnv, epoch: nat, j: nat)
    requires j < timesteps
    ensures var a := AttemptAt(model, images, timesteps, env, epoch, j);
      a.epoch == epoch && a.step == j && a.timestep == j &&
      (a.result.Fitted? <==> model.Some? && |images| > 0) &&
      (model.None? ==> a.result == ModelMissing) &&
      (a.result.Fitted? ==>
        var b := a.result.batch;
        |b.noisy| == |b.steps| == |images| && b.target == images &&
        (forall k :: 0 <= k < |images| ==> b.steps[k] == j) &&
        (forall k, x :: 0 <= k < |images| && 0 <= x < |images[k]| ==>
           Between(b.noisy[k][x], images[k][x], ImageNoise(env, epoch, j, k, images[k])[x])) &&
        (j == 0 ==> b.noisy == images))
  {
  }
}
