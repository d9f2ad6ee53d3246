# DiffusionImageGenerator, modelled in Dafny

This project models the orchestration inside the `DiffusionImageGenerator` class of
`diffusion_image_gen.js`, a small TensorFlow.js denoising-diffusion image generator. The
model covers:

- the generator's state: `model`, `timesteps`, `stopEarly` and `currentTimestep`;
- the noise coefficient `alpha = 1 - step / timesteps` and the blend
  `image * alpha + noise * (1 - alpha)` used by `addNoise`;
- the reverse sampler `generateImage`. It counts down from `timesteps` to 1, polls the stop
  flag, calls the network's `predict`, logs a checkpoint at steps that are multiples of
  10, and saves the image it ends with;
- the trainer `trainDiffusionModel`. It runs 10 epochs, and each epoch counts `j` up from 0
  to `timesteps - 1`. Each step submits one batch to the network's `fit`, and a failure is
  caught so the next step still runs;
- the pixel part of `loadImage`: the strided copy from the canvas's RGBA bytes into an RGB
  `Uint8Array`, then division by 255.

The network, the random draws and the stop requests of other callers are inputs to the
model. Each is a field of an environment value (`SampleEnv`, `TrainEnv`):
- `predict` and `fit` are functions whose results the model does not constrain;
- each random draw is indexed by the place it is made (step, epoch, image);
- `stopRequests(t)` says whether another caller has set `stopEarly` before the poll at step `t`.

The calls the sampler makes are returned as a trace of `Predicted`, `Checkpoint` and `Saved`
events. The trainer returns one `FitAttempt` per pass through its inner loop body.

Layout:
- `tensors.dfy` holds the shared value types (`Tensor`, `byte`, `Option`).
- `noise_schedule.dfy` holds `Alpha` and `AddNoise`.
- `image_loading.dfy` holds the RGBA to RGB repacking over an array, and the normalisation.
- `sampling.dfy` holds `Generate`, the sampler as a function of its inputs, with its lemmas.
- `training.dfy` holds `TrainingRun`, the trainer as a function of its inputs, with its lemmas.
- `generator.dfy` holds the class `DiffusionImageGenerator`. Its methods `GenerateImage` and
  `TrainDiffusionModel` keep the source's loops and are proved equal to `Generate` and
  `TrainingRun`.

Three behaviours of the code are easy to misread, and the model follows the code in each:

- **Checkpoints.** The sampler tests `t % 10 === 0` after the predict call of every step,
  the first included. A 30-step run therefore logs checkpoints at 30, 20 and 10
  (`Sampling.ThirtyStepCheckpoints`).
- **Unloaded model.** Without a model, `generateImage` logs an error and returns
  `undefined` rather than throwing (`NotLoaded`, `Sampling.UnloadedGuard`).
- **Number of `fit` calls.** Training reaches `fit` only when the model is set and at
  least one image was loaded; then it makes `10 * timesteps` calls
  (`Training.FitCallCount`). With a null model, `this.model.fit` throws a TypeError
  inside the `try`. With no images, `tf.stack([])` throws. Each of these is caught once per
  step, and `fit` is never entered (`Training.NoFitCalls`).

## Model

| member | source | states |
|---|---|---|
| `Generator.DiffusionImageGenerator.constructor` | diffusion_image_gen.js:10-15 | A new generator has no model, 10 timesteps, the stop flag clear and `currentTimestep == 0`, and satisfies `0 <= currentTimestep <= timesteps` |
| `Generator.DiffusionImageGenerator.LoadModel` | diffusion_image_gen.js:32 | After loading, the model is set; nothing else changes |
| `Generator.DiffusionImageGenerator.GenerateImage` | diffusion_image_gen.js:44-75 | The calls made, the outcome, the final `currentTimestep` and the final flag are exactly `Generate` of the old state. The state invariant is kept and `timesteps` and `model` are not written. A set stop flag stays set. With no model, no call is made and `currentTimestep` is unchanged |
| `Generator.DiffusionImageGenerator.TrainDiffusionModel` | diffusion_image_gen.js:77-107 | The attempts are exactly `TrainingRun` over the loaded images for 10 epochs. `currentTimestep` ends at `timesteps - 1`, or is unchanged when `timesteps == 0`. Only `currentTimestep` is written, so `stopEarly`, `timesteps` and `model` are untouched |
| `Generator.LoadImages` | diffusion_image_gen.js:80 | The loading loop yields exactly `LoadedImages(sources)`, one tensor per source |
| `Generator.LoadedImagesAt` | diffusion_image_gen.js:80 | Training image `k` is `LoadedImage` of source `k`, so loading keeps the sources' order and drops none |
| `Generator.StepDirections` | diffusion_image_gen.js:52-84 | Sampling submits steps `timesteps..1` (first `timesteps`, never 0). Training fits at steps `0..timesteps-1` (first 0, never `timesteps`). So the two loops cover different ranges |
| `NoiseSchedule.Alpha` | diffusion_image_gen.js:40 | alpha is 1 at step 0 and 0 at step `timesteps`, lies in [0,1] for steps in range, and is `1 - 1/timesteps` at step 1 |
| `NoiseSchedule.AlphaDecreasing` | diffusion_image_gen.js:40 | A larger step gives a strictly smaller alpha, so alpha rises as the step counts down |
| `NoiseSchedule.AddNoise` | diffusion_image_gen.js:38-41 | The blend keeps the image's shape. It equals the image at step 0 and the noise at step `timesteps`. Each element lies between the image's and the noise's element |
| `ImageLoading.RgbaToRgb` | diffusion_image_gen.js:118-123 | The strided loop with `i += 4, j += 3` fills exactly `3*256*256` entries, and the buffer equals `Repacked(data)` (entry `m` is byte `m % 3` of RGBA group `m / 3`). It keeps the invariant `j == 3 * (i / 4)` |
| `ImageLoading.RepackedAt` | diffusion_image_gen.js:119-123 | `pixels[3p + c] == data[4p + c]` for every pixel `p < 256*256` and channel `c < 3` |
| `ImageLoading.AlphaByteIgnored` | diffusion_image_gen.js:119-123 | Two RGBA buffers that differ only in the fourth byte of each group repack identically, so the alpha byte is never read |
| `ImageLoading.Normalize` | diffusion_image_gen.js:125 | Every value is in [0,1], and multiplied by 255 it gives back its byte |
| `ImageLoading.LoadImage` | diffusion_image_gen.js:118-126 | The tensor has `3*256*256` values. Value `m` is in [0,1] and is the RGBA byte of group `m / 3`, channel `m % 3`, over 255 |
| `ImageLoading.LoadedImageAt` | diffusion_image_gen.js:118-125 | Channel `c` of pixel `p` of the loaded tensor is `data[4p + c] / 255` |
| `ImageLoading.ExamplePixel` | diffusion_image_gen.js:118-125 | The RGBA pixel (10, 200, 50, 255) loads as (10/255, 200/255, 50/255) |
| `Sampling.UnloadedGuard` | diffusion_image_gen.js:45-48 | Without a model there is no predict call and no save, and neither `currentTimestep` nor the flag changes |
| `Sampling.EarlyStop` | diffusion_image_gen.js:52-58 | If the flag is first seen at step `s`, predict is called at `t..s+1` in order, `currentTimestep` ends at `s`, and the image reached is saved once and returned |
| `Sampling.FullRun` | diffusion_image_gen.js:52-74 | If the flag is never seen and no predict call throws, predict is called at `t, t-1, ..., 1`. Checkpoints are exactly the multiples of 10 among those steps. The final chained prediction is saved once and returned. `currentTimestep` ends at 1 and the flag stays clear |
| `Sampling.PredictFailure` | diffusion_image_gen.js:61-65 | A predict call that throws ends the run at its step `s`: the chained calls from `t` down to `s + 1` all returned, the call at `s` on their result threw, the calls `t..s` were made, nothing is saved, and `currentTimestep` stays at `s` |
| `Sampling.StopBeforeStart` | diffusion_image_gen.js:53-58 | With the flag already set, the untouched initial noise is saved once and returned, with no predict call |
| `Sampling.UncancelledRun` | diffusion_image_gen.js:52-74 | A full run makes exactly `timesteps` predict calls, the k-th at step `timesteps - k`, never at step 0. It saves once. A checkpoint is logged at step `x` if and only if `1 <= x <= timesteps` and `x % 10 == 0` |
| `Sampling.CancelledRun` | diffusion_image_gen.js:52-58 | If the flag is first seen at step `s`, there are `timesteps - s` predict calls, `currentTimestep == s`, and one save of the returned image. That image is the initial noise when `s == timesteps` |
| `Sampling.CheckpointsOfMultiple` | diffusion_image_gen.js:67-69 | Counting down from `10n`, checkpoints are logged at `10n, 10(n-1), ..., 10` in that order |
| `Sampling.DefaultCheckpoint` | diffusion_image_gen.js:67-69 | With the default 10 steps, a full run logs one checkpoint, at step 10 |
| `Sampling.ThirtyStepCheckpoints` | diffusion_image_gen.js:67-69 | With 30 steps, a full run logs checkpoints at 30, 20 and 10 |
| `Training.TrainingOrder` | diffusion_image_gen.js:82-86 | There are exactly `epochs * timesteps` attempts whatever `fit` returns. Step `j` of epoch `e` is attempt `e * timesteps + j`, so epochs are in order and `j` counts up inside each |
| `Training.AttemptsWithinSchedule` | diffusion_image_gen.js:84-86 | Every attempt has `0 <= j < timesteps` and `currentTimestep == j` |
| `Training.AttemptShape` | diffusion_image_gen.js:86-91 | `fit` is entered if and only if the model is set and there is an image. The batch then has one entry per image, a step column of `j` repeated, and the clean images in input order as the target. Every noisy element lies between the clean element and its noise. At `j == 0` the noisy images equal the clean ones |
| `Training.FitCallCount` | diffusion_image_gen.js:88-103 | With the model set and at least one image, `fit` is entered exactly `epochs * timesteps` times, whatever each call returns |
| `Training.NoFitCalls` | diffusion_image_gen.js:88-103 | With no model or no image, `fit` is never entered, yet all `epochs * timesteps` steps still run and every one is recorded as caught |
| `Training.FailureAbsorbed` | diffusion_image_gen.js:88-103 | A failed step `t` of epoch `e` sits caught at position `e * timesteps + t` of the run, and the loop goes on: the next attempt is step `t + 1` of the same epoch, or step 0 of epoch `e + 1` after the last step |

## Left out

- Network construction and compilation in `loadModel` (diffusion_image_gen.js:17-36) are
  TensorFlow.js layer code. The model records only that a network handle is set.
- Tensor arithmetic is modelled over exact reals, not IEEE floating point. `predict` and
  `fit` are inputs whose results are unconstrained. Loss values are carried but never
  interpreted.
- `tf.randomNormal` draws are inputs, indexed by where they are drawn. Their distribution
  is not modelled.
- Image decoding, the canvas resize and `getImageData` (diffusion_image_gen.js:112-117) are
  the canvas library. `LoadImage` takes the 256 x 256 RGBA buffer as its input. A load
  that fails would reject `Promise.all` and abort training; this is not modelled.
- `saveImage` is called at diffusion_image_gen.js:56 and :73 but is not defined in
  diffusion_image_gen.js. As written, the call would throw at run time. The model records
  it as a `Saved(image, path)` event, and the file write is not modelled.
- `async`/`await` and `Promise.all` are modelled as sequential execution.
- Another caller's write to `stopEarly` is modelled as `stopRequests`. Such a write only
  sets the flag and is seen at the next poll. A caller clearing the flag during a run is
  not modelled.
- `console.log` and `console.error` text, including the per-step progress line, the epoch
  lines and the loss log, is left out. The `window` export is left out too.
- `prompt` in `generateImage` and `descriptions` in `trainDiffusionModel` are accepted by
  the source but read by no computation. They are not parameters of the model.
- A `predict` failure is modelled (`Threw`). A failure of `tf.tensor` or `reshape` is not.
- proxy.js is HTTP proxy plumbing and is not part of this model. test.js is a driver
  script that shows the call order load, train, generate, and is not part of this model.
