/*
 * mDoExt_baseAnm and its per-kind subclasses: a player that binds one
 * animation resource to its own frame controller, advances the controller
 * each frame and, on `entry`, pins the controller's time and hands the pose
 * at that time to the model instance.
 */
module Animation {
  import opened J3D

  /** The concrete player classes: joint (bck), texture matrix (btk),
      register colour (brk, also used for bpk), texture index (btp) and
      shape visibility (bva). */
  datatype AnmKind = Bck | Btk | Brk | Btp | Bva

  function KindOf(a: Anm): AnmKind {
    match a
    case ANK1(_, _, _, _) => Bck
    case TTK1(_, _) => Btk
    case TRK1(_, _) => Brk
    case TPT1(_, _) => Btp
    case VAF1(_, _, _) => Bva
  }

  /** The controller state after `initPlay`. It is a function of the arguments
      alone: the first `init(0)` (skipped when `iModify` is set) is overwritten
      by the second `init`, so neither the controller's earlier state nor
      `iModify` reaches it. The start frame argument is only ever used as a
      time, never as the controller's start field: the line that would store
      it is disabled in the source, as in the game, where it ran before `init`
      and was lost. */
  function InitPlayClock(duration: real, loopMode: LoopMode, speed: real,
                         startFrame: real, endFrame: real): (c: Clock)
    ensures c.endFrame == (if endFrame >= 0.0 then endFrame else duration)
    ensures c.loopMode == loopMode && c.speedInFrames == speed
    ensures speed > 0.0 ==> c.currentTimeInFrames == startFrame
    ensures speed <= 0.0 ==> c.currentTimeInFrames == c.endFrame
    ensures c.repeatStartFrame == c.currentTimeInFrames
    ensures c.startFrame == 0.0 && !c.hasStopped
  {
    var c1 := Reset(if endFrame >= 0.0 then endFrame else duration);
    var c2 := c1.(loopMode := loopMode, speedInFrames := speed);
    var c3 := c2.(currentTimeInFrames := if speed > 0.0 then startFrame else c2.endFrame);
    c3.(repeatStartFrame := c3.currentTimeInFrames)
  }

  /** The public "finished playing" signal: stopped AND zero speed. */
  predicate Finished(c: Clock) {
    c.hasStopped && c.speedInFrames == 0.0
  }

  class BaseAnm {
    const kind: AnmKind
    const frameCtrl: FrameCtrl
    var anm: Option<Anm>

    /** The bound resource, once there is one, is of the player's kind. */
    ghost predicate Valid()
      reads this
    {
      anm.Some? ==> KindOf(anm.value) == kind
    }

    constructor (kind: AnmKind, rules: LoopRules)
      ensures Valid() && this.kind == kind && anm.None?
      ensures fresh(frameCtrl) && frameCtrl.Snapshot() == Reset(0.0) && frameCtrl.rules == rules
    {
      this.kind := kind;
      frameCtrl := new FrameCtrl(0.0, rules);
      anm := None;
    }

    /** Restarts the controller; whatever it held before, a start frame
        stored in it included, and `iModify` make no difference. */
    method InitPlay(duration: real, loopMode: LoopMode, speed: real, startFrame: real, endFrame: real, iModify: bool)
      modifies frameCtrl
      ensures frameCtrl.Snapshot() == InitPlayClock(duration, loopMode, speed, startFrame, endFrame)
    {
      if !iModify {
        frameCtrl.Init(0.0);
      }
      frameCtrl.Init(if endFrame >= 0.0 then endFrame else duration);
      frameCtrl.loopMode := loopMode;
      frameCtrl.speedInFrames := speed;
      if speed > 0.0 {
        frameCtrl.currentTimeInFrames := startFrame;
      } else {
        frameCtrl.currentTimeInFrames := frameCtrl.endFrame;
      }
      frameCtrl.repeatStartFrame := frameCtrl.currentTimeInFrames;
    }

    /** Binds `a` and, when `doInit`, starts it over its own duration. */
    method Init(a: Anm, doInit: bool, loopMode: LoopMode, speed: real, startFrame: real, endFrame: real, iModify: bool)
      requires KindOf(a) == kind
      modifies this, frameCtrl
      ensures Valid() && anm == Some(a)
      ensures doInit ==> frameCtrl.Snapshot() == InitPlayClock(a.duration, loopMode, speed, startFrame, endFrame)
      ensures !doInit ==> frameCtrl.Snapshot() == old(frameCtrl.Snapshot())
    {
      anm := Some(a);
      if doInit {
        InitPlay(a.duration, loopMode, speed, startFrame, endFrame, iModify);
      }
    }

    /** Advances the clock; reports finished only when the controller has
        stopped and its speed is exactly zero. */
    method Play(deltaTimeFrames: real) returns (finished: bool)
      modifies frameCtrl
      ensures frameCtrl.Snapshot()
           == Advanced(old(frameCtrl.Snapshot()), frameCtrl.rules.update(old(frameCtrl.Snapshot()), deltaTimeFrames))
      ensures finished <==> Finished(frameCtrl.Snapshot())
    {
      frameCtrl.Update(deltaTimeFrames);
      finished := frameCtrl.hasStoppedFlag && frameCtrl.speedInFrames == 0.0;
    }

    /** Pins the controller to `curTime` (its own current time when absent)
        and applies the pose at that time. The visibility kind sets every
        shape's flag from the clip; the other kinds hand over to appliers that
        are not part of this model and leave the shapes alone. */
    method Entry(model: ModelInstance, curTime: Option<real>)
      requires Valid() && anm.Some?
      modifies frameCtrl, model.shapeVisible
      ensures frameCtrl.Snapshot() == old(frameCtrl.Snapshot()).(currentTimeInFrames :=
                if curTime.Some? then curTime.value else old(frameCtrl.currentTimeInFrames))
      ensures kind == Bva ==> forall i :: 0 <= i < model.shapeVisible.Length ==>
                model.shapeVisible[i] == anm.value.visibility(i, frameCtrl.currentTimeInFrames)
      ensures kind != Bva ==> model.shapeVisible[..] == old(model.shapeVisible[..])
    {
      frameCtrl.currentTimeInFrames := if curTime.Some? then curTime.value else frameCtrl.currentTimeInFrames;
      if anm.value.VAF1? {
        var i := 0;
        while i < model.shapeVisible.Length
          modifies model.shapeVisible
          invariant 0 <= i <= model.shapeVisible.Length
          invariant forall k :: 0 <= k < i ==>
                      model.shapeVisible[k] == anm.value.visibility(k, frameCtrl.currentTimeInFrames)
        {
          model.shapeVisible[i] := anm.value.visibility(i, frameCtrl.currentTimeInFrames);
          i := i + 1;
        }
      }
    }
  }
}
