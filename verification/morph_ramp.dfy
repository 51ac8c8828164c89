/*
 * What the morph ramp of mDoExt_McaMorf does over many frames: the ramp never
 * runs backwards for non-negative frame deltas, a ramp of n frames reaches 1
 * after exactly n unit frames, and the blend weights it hands to
 * `calcJointMatrix` on the way, 1/n, 1/(n-1), ..., 1/2, make the frame-by-frame
 * re-blend of a working transform a linear cross-fade.
 */
module MorphRamp {
  import opened Morph

  /** The ramp after one `play` per delta, in order. */
  function Ticks(m: MorfState, deltas: seq<real>): MorfState
    decreases |deltas|
  {
    if deltas == [] then m else PlayMorfState(Ticks(m, deltas[..|deltas| - 1]), deltas[|deltas| - 1])
  }

  /** k frames of one frame each. */
  function UnitFrames(k: nat): seq<real> {
    seq(k, _ => 1.0)
  }

  /** With a non-negative step and non-negative deltas the ramp only climbs,
      and `prev` never overtakes `cur`. */
  lemma {:induction false} TicksMonotone(m: MorfState, deltas: seq<real>)
    requires m.prev <= m.cur && m.step >= 0.0
    requires forall i :: 0 <= i < |deltas| ==> deltas[i] >= 0.0
    ensures m.cur <= Ticks(m, deltas).cur
    ensures Ticks(m, deltas).prev <= Ticks(m, deltas).cur
    ensures Ticks(m, deltas).step == m.step
    decreases |deltas|
  {
    if deltas != [] {
      var init := deltas[..|deltas| - 1];
      assert forall i :: 0 <= i < |init| ==> init[i] == deltas[i];
      TicksMonotone(m, init);
    }
  }

  /** Hence the blend weight of `calcJointMatrix` is never negative: when it
      is not positive it is exactly zero, and the working transform is kept
      only on frames where the ramp did not move. */
  lemma BlendWeightNeverNegative(m: MorfState, deltas: seq<real>)
    requires m.BlendDefined() && m.prev <= m.cur && m.step >= 0.0
    requires forall i :: 0 <= i < |deltas| ==> deltas[i] >= 0.0
    ensures Ticks(m, deltas).BlendDefined()
    ensures Ticks(m, deltas).cur < 1.0 ==> BlendAmount(Ticks(m, deltas)) >= 0.0
  {
    TicksMonotone(m, deltas);
    if deltas != [] {
      var init := deltas[..|deltas| - 1];
      assert Ticks(m, deltas) == PlayMorfState(Ticks(m, init), deltas[|deltas| - 1]);
    }
  }

  /** A ramp of n frames, started by `setMorf(n)` after an earlier morph,
      stands at k/n after k unit frames (k <= n), having moved by one step
      1/n on the last of them. */
  lemma {:induction false} RampAfterFrames(m: MorfState, n: nat, k: nat)
    requires m.prev >= 0.0 && 0 < n && k <= n
    ensures Ticks(SetMorfState(m, n as real), UnitFrames(k)).cur == k as real / n as real
    ensures Ticks(SetMorfState(m, n as real), UnitFrames(k)).step == 1.0 / n as real
    ensures k > 0 ==> Ticks(SetMorfState(m, n as real), UnitFrames(k)).prev == (k - 1) as real / n as real
  {
    var s0 := SetMorfState(m, n as real);
    if k == 0 {
      assert UnitFrames(0) == [];
    } else {
      RampAfterFrames(m, n, k - 1);
      assert UnitFrames(k)[..k - 1] == UnitFrames(k - 1);
      var s := Ticks(s0, UnitFrames(k - 1));
      QuotientBounds((k - 1) as real, n as real, s.cur);
      assert s.cur < 1.0;
      StepSum(k, n);
    }
  }

  /** (k-1)/n + 1/n = k/n. */
  lemma StepSum(k: nat, n: nat)
    requires 0 < k && 0 < n
    ensures (k - 1) as real / n as real + 1.0 / n as real * 1.0 == k as real / n as real
  {
  }

  /** On the k-th frame of an n-frame ramp (0 < k < n) the blend runs with
      weight 1/(n-k+1): the working transform moves by that share of its
      remaining distance to the clip's sample. */
  lemma RampBlendWeight(m: MorfState, n: nat, k: nat)
    requires m.prev >= 0.0 && 0 < k < n
    ensures Ticks(SetMorfState(m, n as real), UnitFrames(k)).cur < 1.0
    ensures Ticks(SetMorfState(m, n as real), UnitFrames(k)).BlendDefined()
    ensures BlendAmount(Ticks(SetMorfState(m, n as real), UnitFrames(k))) == 1.0 / (n - k + 1) as real
  {
    RampAfterFrames(m, n, k);
    var s := Ticks(SetMorfState(m, n as real), UnitFrames(k));
    FrameWeight(k, n, s.cur, s.prev);
  }

  /** The arithmetic of `RampBlendWeight`: from (k-1)/n to k/n is the share
      1/(n-k+1) of the distance still left. */
  lemma FrameWeight(k: nat, n: nat, cur: real, prev: real)
    requires 0 < k < n
    requires cur == k as real / n as real && prev == (k - 1) as real / n as real
    ensures cur < 1.0 && prev < 1.0
    ensures (cur - prev) / (1.0 - prev) == 1.0 / (n - k + 1) as real
  {
    var N := n as real;
    QuotientBounds(k as real, N, cur);
    QuotientBounds((k - 1) as real, N, prev);
    assert cur * N == k as real;
    assert prev * N == (k - 1) as real;
    var amt := (cur - prev) / (1.0 - prev);
    assert amt * (1.0 - prev) == cur - prev;
    assert amt * (1.0 - prev) * N == 1.0;
    assert (1.0 - prev) * N == (n - k + 1) as real;
    assert amt * (n - k + 1) as real == 1.0;
  }

  /** After n unit frames, and any number beyond, the ramp stands at 1 and
      `calcJointMatrix` takes the clip's sample directly. */
  lemma {:induction false} RampCompletes(m: MorfState, n: nat, k: nat)
    requires m.prev >= 0.0 && 0 < n <= k
    ensures Ticks(SetMorfState(m, n as real), UnitFrames(k)).cur == 1.0
    decreases k
  {
    if k == n {
      RampAfterFrames(m, n, n);
      SelfQuotient(n as real);
    } else {
      RampCompletes(m, n, k - 1);
      UnitFramesStep(SetMorfState(m, n as real), k);
    }
  }

  /** n/n = 1. */
  lemma SelfQuotient(n: real)
    requires n > 0.0
    ensures n / n == 1.0
  {
  }

  /** One more unit frame is one more `play(1)`. */
  lemma UnitFramesStep(s0: MorfState, k: nat)
    requires 0 < k
    ensures Ticks(s0, UnitFrames(k)) == PlayMorfState(Ticks(s0, UnitFrames(k - 1)), 1.0)
  {
    assert UnitFrames(k)[..k - 1] == UnitFrames(k - 1);
  }

  /** One component of a working transform, started at x0 and re-blended by
      `calcJointMatrix` after each `play` toward a clip sample y that holds
      still, with a lerp that is linear in that component: the sample itself
      once the ramp has reached 1, a lerp by the model's `BlendAmount` when
      the ramp advanced, and no change otherwise. */
  function Reblend(m0: MorfState, x0: real, y: real, deltas: seq<real>): real
    decreases |deltas|
  {
    if deltas == [] then x0
    else
      MorphBlend(Ticks(m0, deltas), Reblend(m0, x0, y, deltas[..|deltas| - 1]), y, LinearLerp)
  }

  /** A lerp that is linear in one real component. */
  function LinearLerp(a: real, b: real, t: real): real {
    a + (b - a) * t
  }

  /** A linear cross-fade from x0 to y that has covered the share c of the
      way, and is complete from c = 1 on. */
  function CrossFade(x0: real, y: real, c: real): real {
    if c < 1.0 then x0 + (y - x0) * c else y
  }

  /** One frame of the re-blend: a component that stands on the linear
      cross-fade at the ramp's value still does so after `play` with a
      non-negative delta. */
  lemma BlendFrameStep(m: MorfState, d: real, x0: real, y: real, x: real)
    requires m.prev <= m.cur && m.step >= 0.0 && d >= 0.0
    requires x == CrossFade(x0, y, m.cur)
    ensures MorphBlend(PlayMorfState(m, d), x, y, LinearLerp) == CrossFade(x0, y, PlayMorfState(m, d).cur)
  {
    var r := PlayMorfState(m, d);
    if m.cur < 1.0 && r.cur < 1.0 {
      var amt := BlendAmount(r);
      assert amt * (1.0 - m.cur) == r.cur - m.cur;
      assert y - x == (y - x0) * (1.0 - m.cur);
      assert (y - x) * amt == (y - x0) * (r.cur - m.cur);
      assert LinearLerp(x, y, amt) == x + (y - x) * amt;
    }
  }

  /** The incremental re-blend is a linear cross-fade: from the start of a
      ramp, over any run of non-negative deltas, the component has covered
      exactly the ramp's share `cur` of the way from x0 to y, and is y once
      the ramp is complete. */
  lemma {:induction false} ReblendIsLinearCrossFade(m0: MorfState, x0: real, y: real, deltas: seq<real>)
    requires m0.prev <= m0.cur == 0.0 && m0.step >= 0.0
    requires forall i :: 0 <= i < |deltas| ==> deltas[i] >= 0.0
    ensures Reblend(m0, x0, y, deltas) == CrossFade(x0, y, Ticks(m0, deltas).cur)
    decreases |deltas|
  {
    if deltas != [] {
      var init := deltas[..|deltas| - 1];
      var d := deltas[|deltas| - 1];
      assert forall i :: 0 <= i < |init| ==> init[i] == deltas[i];
      ReblendIsLinearCrossFade(m0, x0, y, init);
      var p := Ticks(m0, init);
      var x := Reblend(m0, x0, y, init);
      assert Ticks(m0, deltas) == PlayMorfState(p, d);
      assert Reblend(m0, x0, y, deltas) == MorphBlend(PlayMorfState(p, d), x, y, LinearLerp);
      TicksMonotone(m0, init);
      BlendFrameStep(p, d, x0, y, x);
    }
  }

  /** Hence after k unit frames of an n-frame ramp (k <= n) the component has
      covered k/n of the way; after n frames it is the sample itself. */
  lemma RampCrossFade(m: MorfState, n: nat, k: nat, x0: real, y: real)
    requires m.prev >= 0.0 && 0 < n && k <= n
    ensures Reblend(SetMorfState(m, n as real), x0, y, UnitFrames(k)) == x0 + (y - x0) * (k as real / n as real)
    ensures k == n ==> Reblend(SetMorfState(m, n as real), x0, y, UnitFrames(k)) == y
  {
    var s0 := SetMorfState(m, n as real);
    ReblendIsLinearCrossFade(s0, x0, y, UnitFrames(k));
    RampAfterFrames(m, n, k);
    CrossFadeAt(x0, y, n, k, Ticks(s0, UnitFrames(k)).cur);
  }

  /** The cross-fade at the share k/n (k <= n): k/n of the way, and the end
      itself at k = n. */
  lemma CrossFadeAt(x0: real, y: real, n: nat, k: nat, c: real)
    requires 0 < n && k <= n && c == k as real / n as real
    ensures CrossFade(x0, y, c) == x0 + (y - x0) * (k as real / n as real)
    ensures k == n ==> CrossFade(x0, y, c) == y
  {
    if k < n {
      QuotientBounds(k as real, n as real, c);
    } else {
      SelfQuotient(n as real);
    }
  }
}
