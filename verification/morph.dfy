/*
 * mDoExt_McaMorf: a joint-animation player that cross-fades from the pose a
 * model already has to a newly set clip. Beside its frame controller it keeps
 * a working transform per joint and a morph ramp: `curMorf` climbs from 0 to
 * 1 by `morfStepPerFrame` per frame, and `prevMorf` remembers where the
 * previous frame's blend stopped.
 */
module Morph {
  import opened J3D

  /** The morph ramp: prevMorf, curMorf and morfStepPerFrame. */
  datatype MorfState = MorfState(prev: real, cur: real, step: real) {
    /** Whenever the blend branch runs (`cur < 1`), its divisor `1 - prev`
        is positive. */
    predicate BlendDefined() {
      prev < 1.0 || cur >= 1.0
    }
  }

  /** The ramp after `setMorf(morfFrames)`. With no earlier morph
      (`prev < 0`) or a negative length the switch is instant; otherwise a
      ramp of `morfFrames` unit frames starts from zero. A zero length with
      `prev >= 0` would divide by zero and is excluded. */
  function SetMorfState(m: MorfState, morfFrames: real): (r: MorfState)
    requires m.prev < 0.0 || morfFrames != 0.0
    ensures r.prev == r.cur
    ensures r.cur == 1.0 <==> m.prev < 0.0 || morfFrames < 0.0
    ensures r.cur != 1.0 ==> r.cur == 0.0 && r.step * morfFrames == 1.0 && r.step > 0.0
    ensures r.cur == 1.0 ==> r.step == m.step
    ensures r.BlendDefined()
  {
    if m.prev < 0.0 || morfFrames < 0.0 then
      MorfState(1.0, 1.0, m.step)
    else
      MorfState(0.0, 0.0, 1.0 / morfFrames)
  }

  /** The ramp after `play(delta)`: while the ramp is running, the old value
      is remembered and the value moves by `step * delta`, unclamped; once it
      has reached 1 nothing moves. */
  function PlayMorfState(m: MorfState, delta: real): (r: MorfState)
    ensures r.step == m.step
    ensures m.cur >= 1.0 ==> r == m
    ensures m.cur < 1.0 ==> r.prev == m.cur && r.cur == m.cur + m.step * delta
    ensures r.BlendDefined()
    ensures m.prev <= m.cur && m.step >= 0.0 && delta >= 0.0 ==> m.cur <= r.cur && r.prev <= r.cur
  {
    if m.cur < 1.0 then MorfState(m.cur, m.cur + m.step * delta, m.step) else m
  }

  /** The blend weight of `calcJointMatrix`: the share of the remaining
      distance (`1 - prev`) that the ramp advanced on the last frame. It is
      positive exactly when the ramp moved forward, and always below 1. */
  function BlendAmount(m: MorfState): (amt: real)
    requires m.cur < 1.0 && m.BlendDefined()
    ensures amt > 0.0 <==> m.prev < m.cur
    ensures amt == 0.0 <==> m.prev == m.cur
    ensures amt < 1.0
  {
    var amt := (m.cur - m.prev) / (1.0 - m.prev);
    QuotientBounds(m.cur - m.prev, 1.0 - m.prev, amt);
    amt
  }

  /** What `calcJointMatrix` makes of one joint's working value when a clip
      is bound: the clip's sample once the ramp is complete, the working value
      lerped toward the sample by the blend weight while the ramp advances,
      and the working value unchanged otherwise. */
  function MorphBlend<T>(m: MorfState, current: T, sample: T, lerp: (T, T, real) -> T): T
    requires m.BlendDefined()
  {
    if m.cur >= 1.0 then sample
    else if BlendAmount(m) > 0.0 then lerp(current, sample, BlendAmount(m))
    else current
  }

  /** Sign and size of a quotient by a positive divisor. */
  lemma QuotientBounds(n: real, d: real, q: real)
    requires d > 0.0 && q == n / d
    ensures q > 0.0 <==> n > 0.0
    ensures q == 0.0 <==> n == 0.0
    ensures q < 1.0 <==> n < d
  {
    assert q * d == n;
    if q > 0.0 {
      assert q * d > 0.0;
    } else if q < 0.0 {
      assert q * d < 0.0;
    }
    assert (1.0 - q) * d == d - n;
    if q < 1.0 {
      assert (1.0 - q) * d > 0.0;
      assert n < d;
    } else if q > 1.0 {
      assert (q - 1.0) * d > 0.0;
      assert n > d;
    }
  }

  /** The controller state after `setAnm`: the end frame comes from the
      explicit duration, else the clip, else zero; a negative loop mode
      inherits the clip's; time starts at `startFrame` for any non-negative
      speed (unlike `initPlay`, which needs a positive one); the repeat start
      keeps the value `init` gave it. */
  function SetAnmClock(anm: Option<Anm>, loopMode: LoopMode, speed: real, startFrame: real, duration: real): (c: Clock)
    ensures duration >= 0.0 ==> c.endFrame == duration
    ensures duration < 0.0 && anm.Some? ==> c.endFrame == anm.value.duration
    ensures duration < 0.0 && anm.None? ==> c.endFrame == 0.0
    ensures c.loopMode == if anm.Some? && loopMode < 0 then anm.value.loopMode else loopMode
    ensures c.speedInFrames == speed
    ensures c.currentTimeInFrames == if speed >= 0.0 then startFrame else c.endFrame
    ensures c.startFrame == 0.0 && c.repeatStartFrame == 0.0 && !c.hasStopped
  {
    var c1 := Reset(if duration >= 0.0 then duration else if anm.Some? then anm.value.duration else 0.0);
    var mode := if anm.Some? && loopMode < 0 then anm.value.loopMode else loopMode;
    var c2 := c1.(loopMode := mode, speedInFrames := speed);
    c2.(currentTimeInFrames := if speed >= 0.0 then startFrame else c2.endFrame)
  }

  class McaMorf {
    const frameCtrl: FrameCtrl
    const transformInfos: array<Transform>
    var anm: Option<Anm>
    var prevMorf: real
    var curMorf: real
    var morfStepPerFrame: real

    function Morf(): MorfState
      reads this
    {
      MorfState(prevMorf, curMorf, morfStepPerFrame)
    }

    /** The bound clip is a joint animation, the ramp step is positive and the
        blend divisor is never zero. */
    ghost predicate Valid()
      reads this
    {
      (anm.Some? ==> anm.value.ANK1?) && Morf().BlendDefined() && morfStepPerFrame > 0.0
    }

    /** The clip's sample for `jointIndex` at the current time, with the next
        frame's time put through the controller's loop mode. */
    function Sample(jointIndex: nat): Transform
      reads this, frameCtrl
      requires anm.Some? && anm.value.ANK1? && jointIndex < anm.value.jointCount
    {
      var t := frameCtrl.currentTimeInFrames;
      anm.value.jointAnimation(jointIndex, t, frameCtrl.ApplyLoopMode(t + 1.0))
    }

    /** Starts `anm` with an instant switch and fills the working buffer with
        one copy of each joint's rest transform. `prevMorf` is left at -1, so
        the next `setAnm` switches instantly too, whatever its morph length. */
    constructor (modelData: ModelData, anm: Option<Anm>, loopMode: LoopMode, rules: LoopRules,
                 speedInFrames: real, startFrame: real, duration: real)
      requires anm.Some? ==> anm.value.ANK1?
      ensures Valid() && this.anm == anm
      ensures fresh(frameCtrl) && fresh(transformInfos) && frameCtrl.rules == rules
      ensures transformInfos[..] == modelData.joints
      ensures frameCtrl.Snapshot() == SetAnmClock(anm, loopMode, speedInFrames, startFrame, duration)
      ensures prevMorf == -1.0 && curMorf == 1.0 && morfStepPerFrame == 1.0
    {
      frameCtrl := new FrameCtrl(0.0, rules);
      this.anm := anm;
      prevMorf, curMorf, morfStepPerFrame := -1.0, 0.0, 1.0;
      var infos := new Transform[|modelData.joints|];
      for i := 0 to |modelData.joints|
        invariant forall k :: 0 <= k < i ==> infos[k] == modelData.joints[k]
      {
        infos[i] := modelData.joints[i];
      }
      transformInfos := infos;
      new;
      SetAnm(anm, loopMode, 0.0, speedInFrames, startFrame, duration);
      prevMorf := -1.0;
    }

    method SetMorf(morfFrames: real)
      requires Valid()
      requires prevMorf < 0.0 || morfFrames != 0.0
      modifies this
      ensures Valid() && anm == old(anm)
      ensures Morf() == SetMorfState(old(Morf()), morfFrames)
    {
      if prevMorf < 0.0 || morfFrames < 0.0 {
        curMorf := 1.0;
      } else {
        curMorf := 0.0;
        morfStepPerFrame := 1.0 / morfFrames;
      }
      prevMorf := curMorf;
    }

    method SetAnm(anm: Option<Anm>, loopMode: LoopMode, morf: real, speedInFrames: real, startFrame: real, duration: real)
      requires Valid()
      requires anm.Some? ==> anm.value.ANK1?
      requires prevMorf < 0.0 || morf != 0.0
      modifies this, frameCtrl
      ensures Valid() && this.anm == anm
      ensures frameCtrl.Snapshot() == SetAnmClock(anm, loopMode, speedInFrames, startFrame, duration)
      ensures Morf() == SetMorfState(old(Morf()), morf)
    {
      this.anm := anm;
      if duration >= 0.0 {
        frameCtrl.Init(duration);
      } else if this.anm.Some? {
        frameCtrl.Init(this.anm.value.duration);
      } else {
        frameCtrl.Init(0.0);
      }
      var mode := loopMode;
      if this.anm.Some? && mode < 0 {
        mode := this.anm.value.loopMode;
      }
      frameCtrl.loopMode := mode;
      frameCtrl.speedInFrames := speedInFrames;
      if speedInFrames >= 0.0 {
        frameCtrl.currentTimeInFrames := startFrame;
      } else {
        frameCtrl.currentTimeInFrames := frameCtrl.endFrame;
      }
      SetMorf(morf);
    }

    /** Advances the ramp and the clock; reports the controller's stop flag
        alone (no zero-speed condition, unlike the single-clip player). */
    method Play(deltaTimeFrames: real) returns (stopped: bool)
      requires Valid()
      modifies this, frameCtrl
      ensures Valid() && anm == old(anm)
      ensures Morf() == PlayMorfState(old(Morf()), deltaTimeFrames)
      ensures frameCtrl.Snapshot()
           == Advanced(old(frameCtrl.Snapshot()), frameCtrl.rules.update(old(frameCtrl.Snapshot()), deltaTimeFrames))
      ensures stopped == frameCtrl.HasStopped()
    {
      if curMorf < 1.0 {
        prevMorf := curMorf;
        curMorf := curMorf + morfStepPerFrame * deltaTimeFrames;
      }
      frameCtrl.Update(deltaTimeFrames);
      stopped := frameCtrl.HasStopped();
    }

    /** Resolves one joint's working transform; no other joint, and nothing
        else of the player, changes. The clip's entry for the joint is read
        only when it is sampled, and it must exist then. Without a clip the rest transform is
        copied; once fully switched the clip's sample is taken; during a morph
        the working transform moves toward the sample by the blend weight
        when the ramp advanced, and is kept otherwise. */
    method CalcJointMatrix(modelData: ModelData, jointIndex: nat, lerp: (Transform, Transform, real) -> Transform)
      requires Valid()
      requires jointIndex < transformInfos.Length && jointIndex < |modelData.joints|
      requires anm.Some? && (curMorf >= 1.0 || prevMorf < curMorf) ==> jointIndex < anm.value.jointCount
      modifies transformInfos
      ensures forall k :: 0 <= k < transformInfos.Length && k != jointIndex ==>
                transformInfos[k] == old(transformInfos[k])
      ensures anm.None? ==> transformInfos[jointIndex] == modelData.joints[jointIndex]
      ensures anm.Some? && (curMorf >= 1.0 || prevMorf < curMorf) ==>
                transformInfos[jointIndex] == MorphBlend(Morf(), old(transformInfos[jointIndex]), Sample(jointIndex), lerp)
      ensures anm.Some? && curMorf < 1.0 && curMorf <= prevMorf ==>
                transformInfos[jointIndex] == old(transformInfos[jointIndex])
    {
      var animFrame := frameCtrl.currentTimeInFrames;
      if anm.Some? {
        var animFrame1 := frameCtrl.ApplyLoopMode(animFrame + 1.0);
        if curMorf >= 1.0 {
          transformInfos[jointIndex] := anm.value.jointAnimation(jointIndex, animFrame, animFrame1);
        } else {
          var amt := BlendAmount(Morf());
          if amt > 0.0 {
            var scratch := anm.value.jointAnimation(jointIndex, animFrame, animFrame1);
            transformInfos[jointIndex] := lerp(transformInfos[jointIndex], scratch, amt);
          }
        }
      } else {
        transformInfos[jointIndex] := modelData.joints[jointIndex];
      }
    }
  }
}
