/**
  The projection-screen calibration of ProjectionCalibration/SetupCalibration.cs.

  The user clicks the four corners of the projected screen, top-left,
  top-right, bottom-right, bottom-left; each click stores the controller's
  position in the slot of the current corner and moves to the next corner.
  After the fourth click the calibration is finished and saved, and from then
  on every update turns the controllers into player frames with a screen
  position. A click while finished starts a new round at the top-left corner.

  The saved file is counted (`saves`), not written; the raycast against the
  screen quad and the viewport mapping are one function parameter.
 */
module ProjectionCalibration {
  import opened Common
  import opened Openvr
  import Calibration

  /** `CalibrationStates`; the corners have the values 0..3 and `Finished` is 4. */
  datatype CalibrationState = CornerTopLeft | CornerTopRight | CornerBottomRight | CornerBottomLeft | Finished

  /** The integer value of a state. */
  function StateIndex(s: CalibrationState): (i: nat)
    ensures i <= 4 && (i == 4 <==> s == Finished)
  {
    match s
    case CornerTopLeft => 0
    case CornerTopRight => 1
    case CornerBottomRight => 2
    case CornerBottomLeft => 3
    case Finished => 4
  }

  /** The state with integer value `i`. */
  function StateOf(i: nat): (s: CalibrationState)
    requires i <= 4
    ensures StateIndex(s) == i
  {
    if i == 0 then CornerTopLeft
    else if i == 1 then CornerTopRight
    else if i == 2 then CornerBottomRight
    else if i == 3 then CornerBottomLeft
    else Finished
  }

  /** `WorldScreenUvs`: per corner its texture coordinate, with the corner's index as z. */
  const WorldScreenUvs: seq<Vec3> := [Vec3(0.0, 0.0, 0.0), Vec3(1.0, 0.0, 1.0), Vec3(1.0, 1.0, 2.0), Vec3(0.0, 1.0, 3.0)]

  /** The target position `UpdateCalibrationTarget` shows for a corner: the x and y of its texture coordinate. */
  function TargetUv(s: CalibrationState): Vec2
    requires s != Finished
  {
    var uv := WorldScreenUvs[StateIndex(s)];
    Vec2(uv.x, uv.y)
  }

  /**
    The corners are targeted at (0,0), (1,0), (1,1), (0,1): the floor
    calibration's local corners in its editing order, and each texture
    coordinate carries its corner's index.
   */
  lemma TargetsFollowEditingOrder()
    ensures forall i :: 0 <= i < 4 ==> WorldScreenUvs[i].z == i as real
    ensures forall i :: 0 <= i < 4 ==> TargetUv(StateOf(i)) == Calibration.GetEditingLocalPositions()[i]
    ensures TargetUv(CornerTopLeft) == Vec2(0.0, 0.0) && TargetUv(CornerTopRight) == Vec2(1.0, 0.0)
    ensures TargetUv(CornerBottomRight) == Vec2(1.0, 1.0) && TargetUv(CornerBottomLeft) == Vec2(0.0, 1.0)
  {
  }

  /** The triangle indices of `CreateScreenQuad`. */
  const TriangleIndexes: seq<nat> := [0, 1, 2, 0, 2, 3]

  /** The quad is the triangles (0,1,2) and (0,2,3): every index names one of the four corners, every corner is used, and the two share the diagonal from corner 0 to corner 2. */
  lemma QuadIndexes()
    ensures |TriangleIndexes| == 6
    ensures forall k :: 0 <= k < |TriangleIndexes| ==> TriangleIndexes[k] < |WorldScreenUvs|
    ensures forall i :: 0 <= i < |WorldScreenUvs| ==> i in TriangleIndexes
    ensures {TriangleIndexes[0], TriangleIndexes[1], TriangleIndexes[2]}
            * {TriangleIndexes[3], TriangleIndexes[4], TriangleIndexes[5]} == {0, 2}
  {
  }

  /** The state after one click: `Finished` first wraps to the top-left corner, then the state moves on by one. */
  function NextState(s: CalibrationState): CalibrationState
  {
    var corner := if s == Finished then CornerTopLeft else s;
    StateOf(StateIndex(corner) + 1)
  }

  /** The slot a click in state `s` writes. */
  function SlotOf(s: CalibrationState): (i: nat)
    ensures i < 4
  {
    if s == Finished then 0 else StateIndex(s)
  }

  /** The state after `n` clicks. */
  function StateAfter(s: CalibrationState, n: nat): CalibrationState
  {
    if n == 0 then s else NextState(StateAfter(s, n - 1))
  }

  /** How many of `n` clicks save: those that move the state into `Finished`. */
  function SavesAfter(s: CalibrationState, n: nat): nat
  {
    if n == 0 then 0 else SavesAfter(s, n - 1) + if StateAfter(s, n) == Finished then 1 else 0
  }

  /**
    From the top-left corner the state runs through the corners and
    `Finished` with period four, and every fourth click saves.
   */
  lemma {:induction false} CycleFromTopLeft(n: nat)
    ensures StateAfter(CornerTopLeft, n) == if n > 0 && n % 4 == 0 then Finished else StateOf(n % 4)
    ensures SavesAfter(CornerTopLeft, n) == n / 4
  {
    if n > 0 {
      CycleFromTopLeft(n - 1);
    }
  }

  /** A finished calibration behaves like a fresh one: after any click the two agree. */
  lemma {:induction false} FinishedRestartsCycle(n: nat)
    requires n > 0
    ensures StateAfter(Finished, n) == StateAfter(CornerTopLeft, n)
    ensures SavesAfter(Finished, n) == SavesAfter(CornerTopLeft, n)
  {
    if n > 1 {
      FinishedRestartsCycle(n - 1);
    }
  }

  /** The calibration as a value: the state, the stored corner positions, and how many saves happened. */
  datatype Projection = Projection(state: CalibrationState, positions: seq<Vec3>, saves: nat)

  /**
    `UpdateCalibration` on the calibration data: the slot of the current
    corner receives the position; a slot past the end of the stored array
    fails after the wrap of `Finished` has happened.
   */
  function Click(c: Projection, position: Vec3): (Projection, Outcome)
  {
    var corner := if c.state == Finished then CornerTopLeft else c.state;
    var slot := StateIndex(corner);
    if slot >= |c.positions| then (c.(state := corner), Fail(IndexOutOfRange))
    else
      var next := StateOf(slot + 1);
      (Projection(next, c.positions[slot := position], if next == Finished then c.saves + 1 else c.saves), Pass)
  }

  /** Successive clicks, stopping at the first that fails. */
  function ClickAll(c: Projection, positions: seq<Vec3>): (Projection, Outcome)
    decreases |positions|
  {
    if positions == [] then (c, Pass)
    else
      var n := |positions| - 1;
      var (before, outcome) := ClickAll(c, positions[..n]);
      if outcome.Fail? then (before, outcome) else Click(before, positions[n])
  }

  /**
    A click with four slots writes exactly the slot of the current corner
    (slot 0 when finished), moves to the next state, and saves exactly when
    that state is `Finished`.
   */
  lemma ClickRule(c: Projection, position: Vec3)
    requires |c.positions| == 4
    ensures var (r, outcome) := Click(c, position);
            && outcome == Pass
            && r.state == NextState(c.state)
            && r.positions[SlotOf(c.state)] == position
            && (forall i :: 0 <= i < 4 && i != SlotOf(c.state) ==> r.positions[i] == c.positions[i])
            && |r.positions| == 4
            && r.saves == c.saves + (if r.state == Finished then 1 else 0)
  {
  }

  /** With four slots, `n` clicks follow the state cycle and save as often as it says. */
  lemma {:induction false} ClickAllFollowsCycle(c: Projection, positions: seq<Vec3>)
    requires |c.positions| == 4
    ensures var (r, outcome) := ClickAll(c, positions);
            && outcome == Pass && |r.positions| == 4
            && r.state == StateAfter(c.state, |positions|)
            && r.saves == c.saves + SavesAfter(c.state, |positions|)
    decreases |positions|
  {
    if positions != [] {
      var n := |positions| - 1;
      ClickAllFollowsCycle(c, positions[..n]);
      ClickRule(ClickAll(c, positions[..n]).0, positions[n]);
    }
  }

  /** One more click after `ClickAll`: it happens unless an earlier click failed. */
  lemma ClickAllSnoc(c: Projection, positions: seq<Vec3>, position: Vec3)
    ensures ClickAll(c, positions + [position])
            == if ClickAll(c, positions).1.Fail? then ClickAll(c, positions) else Click(ClickAll(c, positions).0, position)
  {
  }

  /** The first `k + 1` clicks are the first `k` and one more. */
  lemma ClickAllStep(c: Projection, positions: seq<Vec3>, k: nat)
    requires k < |positions|
    ensures ClickAll(c, positions[..k + 1])
            == if ClickAll(c, positions[..k]).1.Fail? then ClickAll(c, positions[..k])
               else Click(ClickAll(c, positions[..k]).0, positions[k])
  {
    assert positions[..k + 1] == positions[..k] + [positions[k]];
    ClickAllSnoc(c, positions[..k], positions[k]);
  }

  /**
    A full round from the top-left corner or from `Finished` stores the four
    clicked positions, whatever the slots held before, ends `Finished` and
    saves once.
   */
  lemma {:induction false} FullRound(c: Projection, positions: seq<Vec3>)
    requires |c.positions| == 4 && |positions| == 4
    requires c.state == CornerTopLeft || c.state == Finished
    ensures var (r, outcome) := ClickAll(c, positions);
            outcome == Pass && r.state == Finished && r.positions == positions && r.saves == c.saves + 1
  {
    assert positions[..0] == [];
    ClickAllStep(c, positions, 0);
    ClickRule(c, positions[0]);
    var c1 := Click(c, positions[0]).0;
    ClickAllStep(c, positions, 1);
    ClickRule(c1, positions[1]);
    var c2 := Click(c1, positions[1]).0;
    ClickAllStep(c, positions, 2);
    ClickRule(c2, positions[2]);
    var c3 := Click(c2, positions[2]).0;
    ClickAllStep(c, positions, 3);
    ClickRule(c3, positions[3]);
    assert positions[..4] == positions;
    var r := Click(c3, positions[3]).0;
    assert r.positions == positions;
  }

  /** The mesh `CreateScreenQuad` builds. */
  datatype Mesh = Mesh(vertices: seq<Vec3>, uvs: seq<Vec3>, indexes: seq<nat>)

  /** `PlayerControllerFrame`: a controller and where its ray meets the screen, if it does. */
  datatype PlayerControllerFrame = PlayerControllerFrame(controller: ControllerFrame, screenPosition: Option<Vec2>)

  /** The position of a controller whose application button went down; `None` for a null controller or no press. */
  function Press(c: ControllerFrame?): Option<Vec3>
    reads c
  {
    if c != null && c.buttons.appButton.pressed then Some(c.position) else None
  }

  /** The presses of a controller list, one per controller. */
  function Presses(controllers: seq<ControllerFrame?>): (r: seq<Option<Vec3>>)
    reads controllers
    ensures |r| == |controllers|
    ensures forall k :: 0 <= k < |r| ==> r[k] == Press(controllers[k])
    ensures forall k :: 0 <= k < |r| ==>
              (r[k].Some? <==> controllers[k] != null && controllers[k].buttons.appButton.pressed)
    ensures forall k :: 0 <= k < |r| && r[k].Some? ==> r[k].value == controllers[k].position
  {
    seq(|controllers|, k reads controllers requires 0 <= k < |controllers| => Press(controllers[k]))
  }

  /** The positions of the presses, in list order. */
  function Pressed(presses: seq<Option<Vec3>>): seq<Vec3>
    decreases |presses|
  {
    if presses == [] then []
    else
      var n := |presses| - 1;
      Pressed(presses[..n]) + if presses[n].Some? then [presses[n].value] else []
  }

  /** The positions of the controllers whose application button went down, in list order. */
  function PressedPositions(controllers: seq<ControllerFrame?>): seq<Vec3>
    reads controllers
  {
    Pressed(Presses(controllers))
  }

  /** `SetupCalibration`: the calibration component with its target, canvas and screen quad. */
  class SetupCalibration {
    var calibrationState: CalibrationState
    /** `CalibrationData.WorldScreenPositions`. */
    var worldScreenPositions: array<Vec3>
    var targetEnabled: bool
    var canvasActive: bool
    var targetUv: Vec2
    var screenQuad: Option<Mesh>
    ghost var saves: nat

    /** A fresh component: the top-left corner, four zero positions. */
    constructor ()
      ensures Snapshot() == Projection(CornerTopLeft, [ZeroVec3, ZeroVec3, ZeroVec3, ZeroVec3], 0)
      ensures fresh(worldScreenPositions)
    {
      calibrationState := CornerTopLeft;
      worldScreenPositions := new Vec3[4](_ => ZeroVec3);
      targetEnabled, canvasActive, targetUv, screenQuad := false, false, ZeroVec2, None;
      saves := 0;
      new;
      assert worldScreenPositions[..] == [ZeroVec3, ZeroVec3, ZeroVec3, ZeroVec3];
    }

    ghost function Snapshot(): Projection
      reads this, worldScreenPositions
    {
      Projection(calibrationState, worldScreenPositions[..], saves)
    }

    /** The target and canvas show the current corner, and the quad is built from the stored positions. */
    ghost predicate Displayed()
      reads this, worldScreenPositions
    {
      && targetEnabled == (calibrationState != Finished)
      && canvasActive == (calibrationState != Finished)
      && (calibrationState != Finished ==> targetUv == TargetUv(calibrationState))
      && screenQuad == Some(Mesh(worldScreenPositions[..], WorldScreenUvs, TriangleIndexes))
    }

    /** What the component shows: target enabled, canvas active, target uv and screen quad. */
    ghost function Display(): (bool, bool, Vec2, Option<Mesh>)
      reads this
    {
      (targetEnabled, canvasActive, targetUv, screenQuad)
    }

    /** `SaveCalibration`: writes the calibration file; a failing write is reported, not thrown (counted only). */
    method SaveCalibration()
      modifies this
      ensures calibrationState == old(calibrationState) && worldScreenPositions == old(worldScreenPositions)
      ensures targetEnabled == old(targetEnabled) && canvasActive == old(canvasActive)
      ensures targetUv == old(targetUv) && screenQuad == old(screenQuad)
      ensures saves == old(saves) + 1
    {
      saves := saves + 1;
    }

    /** `UpdateCalibrationTarget`: show the target at the current corner, or hide target and canvas. */
    method UpdateCalibrationTarget()
      modifies this
      ensures calibrationState == old(calibrationState) && worldScreenPositions == old(worldScreenPositions)
      ensures screenQuad == old(screenQuad) && saves == old(saves)
      ensures targetEnabled == canvasActive == (calibrationState != Finished)
      ensures targetUv == if calibrationState != Finished then TargetUv(calibrationState) else old(targetUv)
    {
      if calibrationState != Finished {
        var uv3 := WorldScreenUvs[StateIndex(calibrationState)];
        targetUv := Vec2(uv3.x, uv3.y);
        canvasActive := true;
        targetEnabled := true;
      } else {
        canvasActive := false;
        targetEnabled := false;
      }
    }

    /** `CreateScreenQuad`: the stored positions as vertices, `WorldScreenUvs` as uvs, two triangles. */
    method CreateScreenQuad()
      modifies this
      ensures calibrationState == old(calibrationState) && worldScreenPositions == old(worldScreenPositions)
      ensures targetEnabled == old(targetEnabled) && canvasActive == old(canvasActive)
      ensures targetUv == old(targetUv) && saves == old(saves)
      ensures screenQuad == Some(Mesh(worldScreenPositions[..], WorldScreenUvs, TriangleIndexes))
    {
      var triangles := new nat[6];
      triangles[0], triangles[1], triangles[2] := 0, 1, 2;
      triangles[3], triangles[4], triangles[5] := 0, 2, 3;
      assert triangles[..] == TriangleIndexes;
      screenQuad := Some(Mesh(worldScreenPositions[..], WorldScreenUvs, triangles[..]));
    }

    /** `UpdateCalibration`: one click at `position`. */
    method UpdateCalibration(position: Vec3) returns (outcome: Outcome)
      modifies this, worldScreenPositions
      ensures worldScreenPositions == old(worldScreenPositions)
      ensures (Snapshot(), outcome) == Click(old(Snapshot()), position)
      ensures outcome.Pass? ==> Displayed()
      ensures outcome.Fail? ==> targetEnabled == old(targetEnabled) && canvasActive == old(canvasActive)
                                && targetUv == old(targetUv) && screenQuad == old(screenQuad)
    {
      if calibrationState == Finished {
        calibrationState := CornerTopLeft;
      }
      var stateIndex := StateIndex(calibrationState);
      if stateIndex >= worldScreenPositions.Length {
        return Fail(IndexOutOfRange);
      }
      worldScreenPositions[stateIndex] := position;
      calibrationState := StateOf(stateIndex + 1);
      if calibrationState == Finished {
        SaveCalibration();
      }
      UpdateCalibrationTarget();
      CreateScreenQuad();
      outcome := Pass;
    }

    /**
      The first loop of `OnControllerUpdate`: every non-null controller whose
      application button went down clicks, in list order; a failing click
      ends the update.
     */
    method ClickPressed(controllers: seq<ControllerFrame?>) returns (outcome: Outcome)
      modifies this, worldScreenPositions
      ensures worldScreenPositions == old(worldScreenPositions)
      ensures (Snapshot(), outcome) == ClickAll(old(Snapshot()), PressedPositions(controllers))
      ensures PressedPositions(controllers) == [] ==> Display() == old(Display())
      ensures PressedPositions(controllers) != [] && outcome.Pass? ==> Displayed()
    {
      ghost var presses := Presses(controllers);
      ghost var start := Snapshot();
      ghost var clicked: seq<Vec3> := [];
      outcome := Pass;
      for i := 0 to |controllers|
        invariant worldScreenPositions == old(worldScreenPositions)
        invariant clicked == Pressed(presses[..i])
        invariant ClickAll(start, clicked) == (Snapshot(), Pass)
        invariant outcome == Pass
        invariant clicked == [] ==> Display() == old(Display())
        invariant clicked != [] ==> Displayed()
      {
        PressedStep(presses, i);
        assert presses[i] == Press(controllers[i]);
        outcome, clicked := ClickStep(controllers[i], start, clicked, old(Display()));
        if outcome.Fail? {
          ClickAllStopsAt(start, presses, i + 1);
          return;
        }
      }
      assert presses[..|controllers|] == presses;
    }

    /**
      `ClickIfPressed` with the bookkeeping of `ClickPressed`'s loop: the
      positions clicked so far, from `start`, and what was shown before.
     */
    method ClickStep(controller: ControllerFrame?, ghost start: Projection, ghost clicked: seq<Vec3>,
                     ghost shownBefore: (bool, bool, Vec2, Option<Mesh>))
      returns (outcome: Outcome, ghost clickedAfter: seq<Vec3>)
      requires ClickAll(start, clicked) == (Snapshot(), Pass)
      requires clicked == [] ==> Display() == shownBefore
      requires clicked != [] ==> Displayed()
      modifies this, worldScreenPositions
      ensures worldScreenPositions == old(worldScreenPositions)
      ensures clickedAfter == clicked + if old(Press(controller)).Some? then [old(Press(controller)).value] else []
      ensures ClickAll(start, clickedAfter) == (Snapshot(), outcome)
      ensures clickedAfter == [] ==> Display() == shownBefore
      ensures clickedAfter != [] && outcome.Pass? ==> Displayed()
    {
      ghost var press := Press(controller);
      clickedAfter := clicked;
      if press.Some? {
        ClickAllSnoc(start, clicked, press.value);
        clickedAfter := clicked + [press.value];
      }
      outcome := ClickIfPressed(controller);
    }

    /** One iteration of `ClickPressed`: a click at the controller's position when its application button went down. */
    method ClickIfPressed(controller: ControllerFrame?) returns (outcome: Outcome)
      modifies this, worldScreenPositions
      ensures worldScreenPositions == old(worldScreenPositions)
      ensures (Snapshot(), outcome) == match old(Press(controller))
                                       case Some(position) => Click(old(Snapshot()), position)
                                       case None => (old(Snapshot()), Pass)
      ensures old(Press(controller)).None? || outcome.Fail? ==> Display() == old(Display())
      ensures old(Press(controller)).Some? && outcome.Pass? ==> Displayed()
    {
      outcome := Pass;
      if controller != null && controller.buttons.appButton.pressed {
        outcome := UpdateCalibration(controller.position);
      }
    }

    /**
      `OnControllerUpdate`: the clicks of `ClickPressed`, then, when
      finished, the player frames of `PlayerFrames`.
     */
    method OnControllerUpdate(controllers: seq<ControllerFrame?>, screenHit: (Vec3, Quat) -> Option<Vec2>)
      returns (outcome: Outcome, players: Option<seq<PlayerControllerFrame>>)
      modifies this, worldScreenPositions
      ensures worldScreenPositions == old(worldScreenPositions)
      ensures var (after, clicked) := ClickAll(old(Snapshot()), PressedPositions(controllers));
              && Snapshot() == after
              && (clicked.Fail? ==> outcome == clicked && players.None?)
              && (clicked.Pass? && after.state != Finished ==> outcome == Pass && players.None?)
              && (clicked.Pass? && after.state == Finished ==>
                    && (outcome.Fail? <==> null in controllers)
                    && (outcome.Fail? ==> outcome == Fail(NullReference) && players.None?)
                    && (outcome.Pass? ==> players.Some? && PlayerFramesFor(controllers, screenHit, players.value)))
      ensures PressedPositions(controllers) == [] ==> Display() == old(Display())
      ensures PressedPositions(controllers) != [] && ClickAll(old(Snapshot()), PressedPositions(controllers)).1.Pass?
              ==> Displayed()
    {
      outcome := ClickPressed(controllers);
      players := None;
      if outcome.Fail? || calibrationState != Finished {
        return;
      }
      var frames;
      outcome, frames := PlayerFrames(controllers, screenHit);
      if outcome.Pass? {
        players := Some(frames);
      }
    }

    /**
      `OnEnable`: `loaded` is the calibration read from the file, `None`
      when reading or parsing failed. A load installs its positions and
      marks the calibration finished; a failed load keeps both. Target and
      quad are refreshed either way.
     */
    method OnEnable(loaded: Option<seq<Vec3>>)
      modifies this
      ensures loaded.Some? ==> fresh(worldScreenPositions)
                               && Snapshot() == Projection(Finished, loaded.value, old(saves))
      ensures loaded.None? ==> worldScreenPositions == old(worldScreenPositions) && unchanged(worldScreenPositions)
                               && calibrationState == old(calibrationState) && saves == old(saves)
      ensures Displayed()
    {
      if loaded.Some? {
        var stored := loaded.value;
        worldScreenPositions := new Vec3[|stored|](i requires 0 <= i < |stored| => stored[i]);
        calibrationState := Finished;
        assert worldScreenPositions[..] == stored;
      }
      UpdateCalibrationTarget();
      CreateScreenQuad();
    }
  }

  /** `frames` holds, for every controller, the controller and its screen position. */
  ghost predicate PlayerFramesFor(controllers: seq<ControllerFrame?>, screenHit: (Vec3, Quat) -> Option<Vec2>,
                                  frames: seq<PlayerControllerFrame>)
    reads controllers
  {
    && |frames| == |controllers|
    && forall k :: 0 <= k < |controllers| ==>
         controllers[k] != null
         && frames[k] == PlayerControllerFrame(controllers[k], screenHit(controllers[k].position, controllers[k].rotation))
  }

  /**
    The second loop of `OnControllerUpdate`: one player frame per
    controller, in list order; a null controller throws.
   */
  method PlayerFrames(controllers: seq<ControllerFrame?>, screenHit: (Vec3, Quat) -> Option<Vec2>)
    returns (outcome: Outcome, frames: seq<PlayerControllerFrame>)
    ensures outcome.Fail? <==> null in controllers
    ensures outcome.Fail? ==> outcome == Fail(NullReference)
    ensures outcome.Pass? ==> PlayerFramesFor(controllers, screenHit, frames)
  {
    outcome, frames := Pass, [];
    for k := 0 to |controllers|
      invariant |frames| == k
      invariant null !in controllers[..k]
      invariant forall j :: 0 <= j < k ==>
                  controllers[j] != null
                  && frames[j] == PlayerControllerFrame(controllers[j], screenHit(controllers[j].position, controllers[j].rotation))
    {
      var controller := controllers[k];
      if controller == null {
        return Fail(NullReference), frames;
      }
      assert controllers[..k + 1] == controllers[..k] + [controller];
      frames := frames + [PlayerControllerFrame(controller, screenHit(controller.position, controller.rotation))];
    }
    assert controllers[..|controllers|] == controllers;
  }

  /** The pressed positions of one more controller. */
  lemma PressedStep(presses: seq<Option<Vec3>>, i: nat)
    requires i < |presses|
    ensures Pressed(presses[..i + 1]) == Pressed(presses[..i]) + if presses[i].Some? then [presses[i].value] else []
  {
    assert presses[..i + 1][..i] == presses[..i];
  }

  /** Later controllers only add presses: the presses of a prefix are never more than those of the whole list. */
  lemma {:induction false} PressedGrows(done: seq<Option<Vec3>>, rest: seq<Option<Vec3>>)
    ensures |Pressed(done)| <= |Pressed(done + rest)|
    decreases |rest|
  {
    if rest != [] {
      var n := |rest| - 1;
      PressedGrows(done, rest[..n]);
      assert (done + rest)[..|done + rest| - 1] == done + rest[..n];
    }  else {
      assert done + rest == done;
    }
  }

  /** A click that fails at the press of controller `k - 1` decides the outcome of the whole list. */
  lemma ClickAllStopsAt(c: Projection, presses: seq<Option<Vec3>>, k: nat)
    requires k <= |presses| && ClickAll(c, Pressed(presses[..k])).1.Fail?
    ensures ClickAll(c, Pressed(presses)) == ClickAll(c, Pressed(presses[..k]))
    ensures |Pressed(presses[..k])| <= |Pressed(presses)|
  {
    ClickAllStops(c, presses[..k], presses[k..]);
    PressedGrows(presses[..k], presses[k..]);
    assert presses[..k] + presses[k..] == presses;
  }

  /** Once a click fails, later pressed controllers click no more. */
  lemma {:induction false} ClickAllStops(c: Projection, done: seq<Option<Vec3>>, rest: seq<Option<Vec3>>)
    requires ClickAll(c, Pressed(done)).1.Fail?
    ensures ClickAll(c, Pressed(done + rest)) == ClickAll(c, Pressed(done))
    decreases |rest|
  {
    if rest != [] {
      var n := |rest| - 1;
      ClickAllStops(c, done, rest[..n]);
      assert (done + rest)[..|done + rest| - 1] == done + rest[..n];
      ClickAllAppendFailed(c, Pressed(done + rest[..n]), if rest[n].Some? then [rest[n].value] else []);
    } else {
      assert done + rest == done;
    }
  }

  /** Appending clicks after a failed one changes nothing. */
  lemma {:induction false} ClickAllAppendFailed(c: Projection, positions: seq<Vec3>, more: seq<Vec3>)
    requires ClickAll(c, positions).1.Fail?
    ensures ClickAll(c, positions + more) == ClickAll(c, positions)
    decreases |more|
  {
    if more != [] {
      var n := |more| - 1;
      ClickAllAppendFailed(c, positions, more[..n]);
      assert positions + more == (positions + more[..n]) + [more[n]];
      ClickAllSnoc(c, positions + more[..n], more[n]);
    } else {
      assert positions + more == positions;
    }
  }
}
