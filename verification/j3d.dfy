/*
 * The J3D collaborators that the animation core drives: the frame controller
 * (J3DFrameCtrl), the animation resources it plays, joint transforms, the
 * model's static data and a model instance's per-shape visibility.
 *
 * Only the state the core reads and writes is modelled. The arithmetic of the
 * collaborators (loop wrap-around, keyframe sampling, visibility lookup) lives
 * outside this model and appears as function values that a caller supplies.
 */
module J3D {

  datatype Option<T> = None | Some(value: T)

  /** Loop modes are small integers; a negative value is never a real mode. */
  type LoopMode = int
  const ONCE: LoopMode := 0
  const ONCE_AND_RESET: LoopMode := 1
  const REPEAT: LoopMode := 2
  const MIRRORED_ONCE: LoopMode := 3
  const MIRRORED_REPEAT: LoopMode := 4

  datatype Vec3 = Vec3(x: real, y: real, z: real)

  /** A joint's local transform (JointTransformInfo). */
  datatype Transform = Transform(scale: Vec3, rotation: Vec3, translation: Vec3)

  /** The fields of a frame controller, as one value. `hasStopped` is the
      HasStopped bit of its update flags, the only bit this core reads. */
  datatype Clock = Clock(
    loopMode: LoopMode,
    startFrame: real,
    endFrame: real,
    repeatStartFrame: real,
    speedInFrames: real,
    currentTimeInFrames: real,
    hasStopped: bool)

  /** The controller state `init(endFrame)` leaves behind: everything is reset,
      including any start frame set before. */
  function Reset(endFrame: real): Clock {
    Clock(REPEAT, 0.0, endFrame, 0.0, 1.0, 0.0, false)
  }

  /** What one `update` produces: the new time, the new speed (a one-shot clip
      that stops sets its speed to zero) and the HasStopped flag. */
  datatype Advance = Advance(currentTimeInFrames: real, speedInFrames: real, hasStopped: bool)

  /** The controller's loop arithmetic, not part of this model: `update`
      advances the clock by a delta, `applyLoopMode` maps a time through the
      current loop mode's wrap or reflect rule without changing anything. */
  datatype LoopRules = LoopRules(
    update: (Clock, real) -> Advance,
    applyLoopMode: (Clock, real) -> real)

  function Advanced(c: Clock, a: Advance): Clock {
    c.(currentTimeInFrames := a.currentTimeInFrames, speedInFrames := a.speedInFrames, hasStopped := a.hasStopped)
  }

  /** J3DFrameCtrl: an animation clock whose fields the core assigns directly. */
  class FrameCtrl {
    const rules: LoopRules
    var loopMode: LoopMode
    var startFrame: real
    var endFrame: real
    var repeatStartFrame: real
    var speedInFrames: real
    var currentTimeInFrames: real
    var hasStoppedFlag: bool

    function Snapshot(): Clock
      reads this
    {
      Clock(loopMode, startFrame, endFrame, repeatStartFrame, speedInFrames, currentTimeInFrames, hasStoppedFlag)
    }

    constructor (endFrame: real, rules: LoopRules)
      ensures Snapshot() == Reset(endFrame) && this.rules == rules
    {
      this.rules := rules;
      loopMode, startFrame, this.endFrame, repeatStartFrame := REPEAT, 0.0, endFrame, 0.0;
      speedInFrames, currentTimeInFrames, hasStoppedFlag := 1.0, 0.0, false;
    }

    method Init(endFrame: real)
      modifies this
      ensures Snapshot() == Reset(endFrame)
    {
      loopMode, startFrame, this.endFrame, repeatStartFrame := REPEAT, 0.0, endFrame, 0.0;
      speedInFrames, currentTimeInFrames, hasStoppedFlag := 1.0, 0.0, false;
    }

    /** Advances the clock; only the time, the speed and the stop flag change. */
    method Update(deltaTimeFrames: real)
      modifies this
      ensures Snapshot() == Advanced(old(Snapshot()), rules.update(old(Snapshot()), deltaTimeFrames))
    {
      var a := rules.update(Snapshot(), deltaTimeFrames);
      currentTimeInFrames, speedInFrames, hasStoppedFlag := a.currentTimeInFrames, a.speedInFrames, a.hasStopped;
    }

    predicate HasStopped()
      reads this
    {
      hasStoppedFlag
    }

    function ApplyLoopMode(t: real): real
      reads this
    {
      rules.applyLoopMode(Snapshot(), t)
    }
  }

  /** The animation resources, one variant per kind. Each carries its duration
      and declared loop mode; the keyframe data of the joint (ANK1) and
      visibility (VAF1) kinds is given as the sampler that reads it. A joint
      clip has `jointCount` joint entries, and the sampler means something
      only for a joint index below it. */
  datatype Anm =
    | ANK1(duration: real, loopMode: LoopMode, jointCount: nat, jointAnimation: (nat, real, real) -> Transform)
    | TTK1(duration: real, loopMode: LoopMode)
    | TRK1(duration: real, loopMode: LoopMode)
    | TPT1(duration: real, loopMode: LoopMode)
    | VAF1(duration: real, loopMode: LoopMode, visibility: (nat, real) -> bool)

  /** The static model data the core reads: each joint's rest transform. */
  datatype ModelData = ModelData(joints: seq<Transform>)

  /** A model instance, seen through the visibility flag of each shape instance. */
  class ModelInstance {
    const shapeVisible: array<bool>

    constructor (visible: seq<bool>)
      ensures shapeVisible[..] == visible && fresh(shapeVisible)
    {
      shapeVisible := new bool[|visible|](i requires 0 <= i < |visible| => visible[i]);
    }
  }
}
