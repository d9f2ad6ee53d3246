/** The forward corruption step `addNoise` (diffusion_image_gen.js:38-41). */
module NoiseSchedule {
  import opened Tensors

  /** The noise coefficient `1 - step / timesteps`: the weight the clean image keeps. */
  function Alpha(step: int, timesteps: nat): (a: real)
    requires timesteps > 0
    ensures step == 0 ==> a == 1.0
    ensures step == timesteps ==> a == 0.0
    ensures 0 <= step <= timesteps ==> 0.0 <= a <= 1.0
    ensures step == 1 ==> a == 1.0 - 1.0 / timesteps as real
  {
    1.0 - step as real / timesteps as real
  }

  /** A larger step keeps less of the clean image: alpha rises as the step counts down. */
  lemma AlphaDecreasing(s1: int, s2: int, timesteps: nat)
    requires timesteps > 0 && s1 < s2
    ensures Alpha(s2, timesteps) < Alpha(s1, timesteps)
  {
    var t := timesteps as real;
    assert s1 as real / t < s2 as real / t by {
      assert s2 as real / t - s1 as real / t == (s2 - s1) as real / t;
    }
  }

  /** `x` lies on the closed segment between `p` and `q`, in either order. */
  ghost predicate Between(x: real, p: real, q: real)
  {
    (p <= x <= q) || (q <= x <= p)
  }

  lemma ProductNonnegative(u: real, v: real)
    requires u >= 0.0 && v >= 0.0
    ensures u * v >= 0.0
  {
  }

  /** A blend with a weight in [0, 1] lands between the two blended values. */
  lemma ConvexCombination(x: real, y: real, a: real)
    requires 0.0 <= a <= 1.0
    ensures Between(x * a + y * (1.0 - a), x, y)
  {
    var r := x * a + y * (1.0 - a);
    assert r - y == (x - y) * a;
    assert x - r == (x - y) * (1.0 - a);
    if x <= y {
      ProductNonnegative(y - x, a);
      ProductNonnegative(y - x, 1.0 - a);
      assert (x - y) * a == -((y - x) * a);
      assert (x - y) * (1.0 - a) == -((y - x) * (1.0 - a));
    } else {
      ProductNonnegative(x - y, a);
      ProductNonnegative(x - y, 1.0 - a);
    }
  }

  /** `image * alpha + noise * (1 - alpha)` element by element, where `noise` is the
      fresh standard-normal draw shaped like the image, so it has the image's length. */
  function AddNoise(image: Tensor, noise: Tensor, step: int, timesteps: nat): (r: Tensor)
    requires timesteps > 0 && |noise| == |image|
    ensures |r| == |image|
    ensures step == 0 ==> r == image
    ensures step == timesteps ==> r == noise
    ensures 0 <= step <= timesteps ==>
      forall i :: 0 <= i < |r| ==> Between(r[i], image[i], noise[i])
  {
    var a := Alpha(step, timesteps);
    var r := seq(|image|, i requires 0 <= i < |image| => image[i] * a + noise[i] * (1.0 - a));
    assert 0 <= step <= timesteps ==> forall i :: 0 <= i < |r| ==> Between(r[i], image[i], noise[i]) by {
      if 0 <= step <= timesteps {
        forall i | 0 <= i < |r| ensures Between(r[i], image[i], noise[i]) {
          ConvexCombination(image[i], noise[i], a);
        }
      }
    }
    r
  }
}
