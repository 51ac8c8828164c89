# Wind Waker animation players and the McaMorf cross-fade, in Dafny

This project models the animation-playback core of `src/WindWaker/m_do_ext.ts`:

- `mDoExt_baseAnm`, the single-clip player. It binds one animation resource to
  its own frame controller. `initPlay` configures the controller when a clip
  starts, `play` advances it and reports "finished", and the per-kind `entry`
  overrides (`bck`, `btk`, `brk`/`bpk`, `btp`, `bva`) pin the controller's
  time before the pose is applied. The visibility kind (`bva`) writes one
  visibility flag per shape.
- `mDoExt_McaMorf`, the joint-animation player that cross-fades. It keeps a
  working transform per joint and a morph ramp (`prevMorf`, `curMorf`,
  `morfStepPerFrame`). `setMorf`, `setAnm` and `play` drive the ramp and the
  clock. `calcJointMatrix` resolves one joint in one of four ways: rest pose,
  direct sample, incremental lerp toward the sample, or unchanged.

Files:

- `j3d.dfy` (module `J3D`): the collaborators the core drives. `FrameCtrl` is
  a class with the controller's fields, and `Clock` is the same fields as one
  value. `Anm` holds the resources, `Transform` is a joint transform,
  `ModelData` holds the rest transforms and `ModelInstance` holds the shape
  visibility flags.
- `animation.dfy` (module `Animation`): `BaseAnm`, plus `InitPlayClock`, the
  controller state that `initPlay` produces.
- `morph.dfy` (module `Morph`): `McaMorf`, plus the functions that specify it:
  `SetMorfState`, `PlayMorfState`, `BlendAmount` and `SetAnmClock`.
- `morph_ramp.dfy` (module `MorphRamp`): lemmas about the ramp over many frames.

Time and morph values are `real`. Each state-changing method is specified by a
function of the old state (`Snapshot()` for the controller, `Morf()` for the
ramp). `McaMorf.Valid()` holds the invariant `prevMorf < 1 || curMorf >= 1`.
Every operation keeps it, with no assumption on deltas. So the divisor
`1 - prevMorf` of the blend weight is never zero when the blend branch runs.

The collaborators' arithmetic is not modelled. It is supplied as function
values:

- `LoopRules.update` stands for `J3DFrameCtrl.update`. It may change only the
  time, the speed and the HasStopped flag.
- `LoopRules.applyLoopMode` stands for `J3DFrameCtrl.applyLoopMode`.
- `ANK1.jointAnimation` stands for `calcANK1JointAnimationTransform` on the
  clip's entry for a joint.
- `VAF1.visibility` stands for `VAF1_getVisibility`.
- The `lerp` parameter of `CalcJointMatrix` stands for `JointTransformInfo.lerp`.

`setMorf(0)` after an earlier morph divides by zero (m_do_ext.ts:190, 194).
The test is `morfFrames < 0.0`, so a zero length starts a ramp with an infinite
step. The model excludes that input with a precondition.

## Model

| member | source | states |
|---|---|---|
| `Animation.InitPlayClock` | src/WindWaker/m_do_ext.ts:15-31 | The controller's end is `endFrame` when `endFrame >= 0`, else the duration. Loop mode and speed are stored. The time is `startFrame` when speed > 0 (strict), else the end frame. The repeat start equals that time. The controller's own start field stays 0: the start-frame argument never reaches it. The stop flag is clear. |
| `Animation.BaseAnm.InitPlay` | src/WindWaker/m_do_ext.ts:15-31 | The controller's new state is `InitPlayClock` of the arguments alone. Its earlier state, a start frame stored in it beforehand included, and `i_modify` have no effect. |
| `Animation.BaseAnm.constructor` | src/WindWaker/m_do_ext.ts:12-13 | A new player has no resource bound and a fresh controller in its reset state with end frame 0. |
| `Animation.BaseAnm.Init` | src/WindWaker/m_do_ext.ts:33-38 | Binds the resource. With `doInit`, the controller is started over the resource's own duration. Without it, the controller is untouched. |
| `Animation.BaseAnm.Play` | src/WindWaker/m_do_ext.ts:40-44 | The controller advances by the update rule. The result is true exactly when the HasStopped flag is set AND the speed is 0; the flag alone is not enough. |
| `Animation.BaseAnm.Entry` | src/WindWaker/m_do_ext.ts:49-85 | The controller's time becomes `curTime`, or stays as it was when no time is given. No other controller field changes. For the visibility kind, every shape `i` gets the clip's visibility for `i` at that time. For the other kinds, the shapes are unchanged. |
| `Morph.SetMorfState` | src/WindWaker/m_do_ext.ts:189-198 | Afterwards `prevMorf == curMorf`. `curMorf == 1` exactly when `prevMorf < 0` or the length is negative (instant switch), and then the step is unchanged. Otherwise `curMorf == 0` and `step * morfFrames == 1` with a positive step. A zero length with `prevMorf >= 0` is excluded. The blend divisor stays defined. |
| `Morph.McaMorf.SetMorf` | src/WindWaker/m_do_ext.ts:189-198 | The ramp becomes `SetMorfState` of the old ramp. The invariant is kept and the clip is unchanged. |
| `Morph.PlayMorfState` | src/WindWaker/m_do_ext.ts:179-183 | While `curMorf < 1`: `prevMorf` takes the old `curMorf`, and `curMorf` grows by `step * delta` with no clamp. Once `curMorf >= 1` the ramp is a fixed point. The step never changes. The blend divisor stays defined. With a non-negative step and delta the ramp does not go back. |
| `Morph.McaMorf.Play` | src/WindWaker/m_do_ext.ts:179-187 | The ramp becomes `PlayMorfState` of the old one and the controller advances by the update rule. The result is the controller's HasStopped flag alone. |
| `Morph.SetAnmClock` | src/WindWaker/m_do_ext.ts:200-219 | The end frame is the explicit duration if >= 0, else the clip's duration if a clip is bound, else 0. A negative loop mode with a bound clip takes the clip's loop mode. The time is `startFrame` when speed >= 0 (non-strict), else the end frame. Start, repeat start and stop flag keep their reset values. |
| `Morph.McaMorf.SetAnm` | src/WindWaker/m_do_ext.ts:200-225 | Binds the clip. The controller becomes `SetAnmClock`, and after it the ramp becomes `SetMorfState(old ramp, morf)`. The invariant is kept. |
| `Morph.McaMorf.constructor` | src/WindWaker/m_do_ext.ts:130-141 | The working buffer is exactly one copy of each joint's rest transform. The controller is `SetAnmClock` of the arguments. The ramp ends at `curMorf == 1` and `prevMorf == -1`, so the next `setAnm` switches instantly whatever its morph length. |
| `Morph.BlendAmount` | src/WindWaker/m_do_ext.ts:158-160 | The weight `(cur - prev) / (1 - prev)` is positive exactly when the ramp advanced (`prev < cur`), zero exactly when it stood still (`prev == cur`), negative exactly when it went back (`cur < prev`, after a negative delta), and always below 1. |
| `Morph.McaMorf.CalcJointMatrix` | src/WindWaker/m_do_ext.ts:143-172 | Only the chosen joint's working transform changes. With no clip it becomes the rest transform. With a clip it becomes `MorphBlend` of the ramp, its old value and the clip's sample at `(t, applyLoopMode(t + 1))`: the sample when `curMorf >= 1`, the lerp toward the sample by `BlendAmount` when the ramp advanced, and the old value when it did not (the clip is then not read). |
| `MorphRamp.TicksMonotone` | src/WindWaker/m_do_ext.ts:179-183 | Over any run of non-negative deltas from `prev <= cur` with a non-negative step, `cur` never decreases, `prev` never overtakes `cur`, and the step is kept. |
| `MorphRamp.BlendWeightNeverNegative` | src/WindWaker/m_do_ext.ts:158-183 | After any run of non-negative deltas the blend weight is never negative. So the "unchanged" branch is taken only on frames where the ramp did not move. |
| `MorphRamp.RampAfterFrames` | src/WindWaker/m_do_ext.ts:179-198 | After `setMorf(n)` following an earlier morph, `k <= n` unit frames leave `curMorf == k/n` and the step at `1/n`. For `k >= 1`, `prevMorf == (k-1)/n`. |
| `MorphRamp.RampBlendWeight` | src/WindWaker/m_do_ext.ts:153-194 | On the k-th frame of an n-frame ramp (`0 < k < n`), the blend branch runs with weight exactly `1/(n-k+1)`. |
| `MorphRamp.RampCompletes` | src/WindWaker/m_do_ext.ts:179-198 | After n or more unit frames of an n-frame ramp, `curMorf == 1`, so every joint takes the clip's sample directly. |
| `MorphRamp.BlendFrameStep` | src/WindWaker/m_do_ext.ts:153-183 | One `play` with a non-negative delta followed by `MorphBlend`, the branch choice of `calcJointMatrix`, toward a sample that holds still and with a lerp linear in the component: a component standing on the linear cross-fade at the ramp's old value stands on it at the new value. This holds in every branch (complete, lerp by `BlendAmount`, unchanged) and for any morph length. |
| `MorphRamp.ReblendIsLinearCrossFade` | src/WindWaker/m_do_ext.ts:153-183 | `Reblend` applies `play` and then the branches of `calcJointMatrix` to one component, frame by frame, from the start of a ramp. Over any run of non-negative deltas the component has covered exactly the ramp's share `curMorf` of the way to the sample, and equals the sample once the ramp is complete. The incremental blend is therefore a linear cross-fade. |
| `MorphRamp.RampCrossFade` | src/WindWaker/m_do_ext.ts:153-198 | After `setMorf(n)` following an earlier morph, and `k <= n` unit frames, the re-blended component has covered exactly `k/n` of the way; after n frames it equals the sample. |

## Left out

- `J3DFrameCtrl` is not part of this model. Its `update` and `applyLoopMode`
  are opaque function values (`LoopRules`), and no loop-mode wrap, clamp or
  reflect rule is modelled. Its `init` is taken to reset every field to the
  defaults its constructor uses: loop mode REPEAT, start 0, end as given,
  repeat start 0, speed 1, time 0, flags clear. The loop-mode numbers
  (`ONCE` = 0 … `MIRRORED_REPEAT` = 4) come from the J3D loader, which is not
  part of this model either.
- Only the HasStopped bit of `updateFlags` is modelled, because it is the only
  bit this core reads.
- `entryJointAnimator`, `entryTexMtxAnimator`, `entryTevRegAnimator` and
  `entryTexNoAnimator` bind a clip to the model's joints or materials in code
  outside this model. `Entry` models only the time pin that comes before them.
- `calcANK1JointAnimationTransform`, `JointTransformInfo.lerp` and
  `VAF1_getVisibility` are uninterpreted function values. `Reblend` writes out a
  lerp that is linear in one component, for the cross-fade lemmas alone.
- `calcJointMatrixFromTransform` is left out: `CalcJointMatrix` computes the
  working transform but not the output matrix. The load flags and the shape
  instance state that only feed that conversion are left out with it.
- `Morph.McaMorf.SetMorf`: requires a non-zero morph length when
  `prevMorf >= 0`. There the source divides by zero and continues with an
  infinite step, or a NaN ramp after a zero delta. Real numbers cannot express
  either, so `SetAnm` carries the same requirement.
- Morph.SetMorfState: carries the same requirement as `SetMorf`, for the same reason.
- Morph.McaMorf.SetAnm: requires `morf != 0` when `prevMorf >= 0`, because it
  calls `SetMorf`.
- Floating point as a whole: times and morph values are exact reals, with no
  rounding, infinities or NaN.
- The `callback1`/`callback2` hooks and the sound step of `setAnm` do nothing
  in this code and are not modelled.
- `McaMorf.calc`, `McaMorf.update` and `McaMorf.entryDL`, and the owned model
  instance (`model`) they use, are not modelled. They install the player as
  the model's joint resolver and submit it for drawing.
- `mDoExt_modelEntryDL`, `mDoExt_modelUpdateDL`, `mDoLib_project` and
  `mDoLib_projectFB` are not modelled: they are render submission and camera
  projection.
- The shared `scratchTransform` is a local value of `CalcJointMatrix`.
- Shape instances appear only as one array of visibility flags, so two shape
  entries that share an object are not modelled.
- The unused `modelData` parameter of `init` is dropped. The TypeScript default
  argument values are dropped too: callers pass every argument. The default
  `curTime` of `entry` is modelled as `None`.
- A joint clip with fewer entries than the joint being sampled makes the
  source read an undefined entry and fail. `CalcJointMatrix` requires the
  entry to exist (`jointCount` of `ANK1`) whenever it samples the clip.
- Before `init`, the TypeScript `anm` is undefined; here it is `None`, and
  `Entry` requires a bound resource.
- The constructor fills the working buffer before it calls `setAnm`, where the
  source does it after. The two steps touch disjoint state, so the order does
  not change the result.
