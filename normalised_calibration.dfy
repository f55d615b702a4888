/**
  The floor-calibration session of Calibration/NormalisedCalibration.cs.

  A pending calibration collects four world positions, one per corner of the
  play area, in the fixed order front-left, front-right, back-right,
  back-left. `NormalisedCalibration` holds the finished calibration, the
  pending one, the hold-to-recalibrate gesture of the application button and
  the "a calibration click just happened" flag, and reacts to the controller
  frames of every update.

  The state `NormalisedCalibration` keeps is also described as a value,
  `Session`, with one pure transition function per operation; the class
  methods are proved to follow those functions and the lemmas state the
  properties of the functions. Saves, `OnCalibrationChanged` events and
  next-scene loads are counted, not performed. The world-to-local mapping
  (a homography in the source) is a parameter.
 */
module Calibration {
  import opened Common
  import opened Openvr

  /** The four corners of the calibrated area. */
  datatype Corner = FrontLeft | FrontRight | BackLeft | BackRight

  /** The order in which clicks fill the corners; `GetEditingIndex` is a position in it. */
  const EditingOrder: seq<Corner> := [FrontLeft, FrontRight, BackRight, BackLeft]

  /** `Local_FrontLeft` and its siblings: the corners of the unit square. */
  function LocalPosition(c: Corner): Vec2
  {
    match c
    case FrontLeft => Vec2(0.0, 0.0)
    case FrontRight => Vec2(1.0, 0.0)
    case BackLeft => Vec2(0.0, 1.0)
    case BackRight => Vec2(1.0, 1.0)
  }

  /** `GetEditingLocalPositions`: the local corners in editing order. */
  function GetEditingLocalPositions(): (r: seq<Vec2>)
    ensures |r| == |EditingOrder|
    ensures forall k :: 0 <= k < |r| ==> r[k] == LocalPosition(EditingOrder[k])
    ensures r == [Vec2(0.0, 0.0), Vec2(1.0, 0.0), Vec2(1.0, 1.0), Vec2(0.0, 1.0)]
  {
    [LocalPosition(FrontLeft), LocalPosition(FrontRight), LocalPosition(BackRight), LocalPosition(BackLeft)]
  }

  /** Every corner is edited exactly once. */
  lemma EditingOrderCoversCorners()
    ensures forall c: Corner :: c in EditingOrder
    ensures forall k, l :: 0 <= k < l < |EditingOrder| ==> EditingOrder[k] != EditingOrder[l]
  {
    forall c: Corner ensures c in EditingOrder {
      match c
      case FrontLeft => assert EditingOrder[0] == c;
      case FrontRight => assert EditingOrder[1] == c;
      case BackRight => assert EditingOrder[2] == c;
      case BackLeft => assert EditingOrder[3] == c;
    }
  }

  /** Two corners of the unit square are joined by a side. */
  predicate SharesSide(c: Corner, d: Corner)
  {
    (LocalPosition(c).x == LocalPosition(d).x) != (LocalPosition(c).y == LocalPosition(d).y)
  }

  /** The editing order walks the square's perimeter: consecutive corners, and the last and the first, share a side. */
  lemma EditingOrderWalksPerimeter()
    ensures SharesSide(EditingOrder[0], EditingOrder[1]) && SharesSide(EditingOrder[1], EditingOrder[2])
    ensures SharesSide(EditingOrder[2], EditingOrder[3]) && SharesSide(EditingOrder[3], EditingOrder[0])
  {
  }

  /** `TFloorCalibration`: a finished calibration, one world position per corner. */
  datatype FloorCalibration = FloorCalibration(frontLeft: Vec3, frontRight: Vec3, backLeft: Vec3, backRight: Vec3)
  {
    function At(c: Corner): Vec3
    {
      match c
      case FrontLeft => frontLeft
      case FrontRight => frontRight
      case BackLeft => backLeft
      case BackRight => backRight
    }
  }

  /** The four nullable slots of a `TPendingFloorCalibration`, as a value. */
  datatype PendingSlots = PendingSlots(frontLeft: Option<Vec3>, frontRight: Option<Vec3>,
                                       backLeft: Option<Vec3>, backRight: Option<Vec3>)
  {
    function At(c: Corner): Option<Vec3>
    {
      match c
      case FrontLeft => frontLeft
      case FrontRight => frontRight
      case BackLeft => backLeft
      case BackRight => backRight
    }

    /** `GetEditingIndex`: the position in `EditingOrder` of the first empty slot, or 4 when none is empty. */
    function GetEditingIndex(): (r: nat)
      ensures r <= |EditingOrder|
      ensures forall k :: 0 <= k < r ==> At(EditingOrder[k]).Some?
      ensures r < |EditingOrder| ==> At(EditingOrder[r]).None?
    {
      if frontLeft.None? then 0
      else if frontRight.None? then 1
      else if backRight.None? then 2
      else if backLeft.None? then 3
      else 4
    }

    /** `IsFinished`: every slot is set. */
    function IsFinished(): (r: bool)
      ensures r <==> forall c: Corner :: At(c).Some?
    {
      EditingOrderCoversCorners();
      GetEditingIndex() == 4
    }

    /** `GetCalibrationParameters`: each set slot to its corner, the zero vector for an empty one. */
    function GetCalibrationParameters(): (p: FloorCalibration)
      ensures forall c: Corner :: p.At(c) == if At(c).Some? then At(c).value else ZeroVec3
    {
      FloorCalibration(if frontLeft.Some? then frontLeft.value else ZeroVec3,
                       if frontRight.Some? then frontRight.value else ZeroVec3,
                       if backLeft.Some? then backLeft.value else ZeroVec3,
                       if backRight.Some? then backRight.value else ZeroVec3)
    }

    /**
      The slots after `SetNextEditingPosition(position)`: the slot named by
      `GetEditingIndex` receives the position and every other slot keeps its
      value; `None` stands for the exception thrown when no slot is empty.
     */
    function SetNext(position: Vec3): (r: Option<PendingSlots>)
      ensures r.None? <==> IsFinished()
      ensures r.Some? ==> GetEditingIndex() < |EditingOrder|
                          && r.value.At(EditingOrder[GetEditingIndex()]) == Some(position)
                          && forall c: Corner :: c != EditingOrder[GetEditingIndex()] ==> r.value.At(c) == At(c)
    {
      if frontLeft.None? then Some(this.(frontLeft := Some(position)))
      else if frontRight.None? then Some(this.(frontRight := Some(position)))
      else if backRight.None? then Some(this.(backRight := Some(position)))
      else if backLeft.None? then Some(this.(backLeft := Some(position)))
      else None
    }

    /** Exactly the first `n` corners of `EditingOrder` are set. */
    ghost predicate FilledUpTo(n: nat)
    {
      forall k :: 0 <= k < |EditingOrder| ==> (At(EditingOrder[k]).Some? <==> k < n)
    }
  }

  /** A freshly constructed `TPendingFloorCalibration`. */
  const EmptySlots := PendingSlots(None, None, None, None)

  /** In-order filling: with the first `n` corners set, the editing index is `n`, and one more click sets corner `n`. */
  lemma {:induction false} SetNextFillsInOrder(p: PendingSlots, n: nat, position: Vec3)
    requires n <= |EditingOrder| && p.FilledUpTo(n)
    ensures p.GetEditingIndex() == n
    ensures p.IsFinished() <==> n == |EditingOrder|
    ensures n < |EditingOrder| ==> p.SetNext(position).Some? && p.SetNext(position).value.FilledUpTo(n + 1)
  {
    EditingOrderCoversCorners();
    assert p.frontLeft.Some? <==> 0 < n by { assert p.At(EditingOrder[0]) == p.frontLeft; }
    assert p.frontRight.Some? <==> 1 < n by { assert p.At(EditingOrder[1]) == p.frontRight; }
    assert p.backRight.Some? <==> 2 < n by { assert p.At(EditingOrder[2]) == p.backRight; }
    assert p.backLeft.Some? <==> 3 < n by { assert p.At(EditingOrder[3]) == p.backLeft; }
    if n < |EditingOrder| {
      var q := p.SetNext(position).value;
      forall k | 0 <= k < |EditingOrder|
        ensures q.At(EditingOrder[k]).Some? <==> k < n + 1
      {
        if k != n {
          assert EditingOrder[k] != EditingOrder[n];
        }
      }
    }
  }

  /** The slots after one `SetNextEditingPosition` per position, or `None` once one of them throws. */
  function FillAll(p: PendingSlots, positions: seq<Vec3>): Option<PendingSlots>
    decreases |positions|
  {
    if positions == [] then Some(p)
    else
      match FillAll(p, positions[..|positions| - 1])
      case None => None
      case Some(q) => q.SetNext(positions[|positions| - 1])
  }

  /**
    From a fresh pending calibration, the `k`-th click fills the `k`-th
    corner of `EditingOrder`; the editing index runs 0, 1, 2, 3, 4 and the
    calibration is finished after the fourth click and not before.
   */
  lemma {:induction false} FillFromEmpty(positions: seq<Vec3>)
    requires |positions| <= |EditingOrder|
    ensures FillAll(EmptySlots, positions).Some?
    ensures var q := FillAll(EmptySlots, positions).value;
            && q.FilledUpTo(|positions|)
            && q.GetEditingIndex() == |positions|
            && (q.IsFinished() <==> |positions| == |EditingOrder|)
            && forall k :: 0 <= k < |positions| ==> q.At(EditingOrder[k]) == Some(positions[k])
    decreases |positions|
  {
    if positions == [] {
      SetNextFillsInOrder(EmptySlots, 0, ZeroVec3);
    } else {
      var n := |positions| - 1;
      var init := positions[..n];
      FillFromEmpty(init);
      var p := FillAll(EmptySlots, init).value;
      SetNextFillsInOrder(p, n, positions[n]);
      var q := p.SetNext(positions[n]).value;
      SetNextFillsInOrder(q, n + 1, positions[n]);
      forall k | 0 <= k < |positions|
        ensures q.At(EditingOrder[k]) == Some(positions[k])
      {
        if k < n {
          assert init[k] == positions[k];
          EditingOrderCoversCorners();
        }
      }
    }
  }

  /** A fifth click after four throws "There is no current editing position". */
  lemma FifthClickFails(positions: seq<Vec3>)
    requires |positions| == |EditingOrder| + 1
    ensures FillAll(EmptySlots, positions).None?
  {
    FillFromEmpty(positions[..|EditingOrder|]);
  }

  /** Four clicks produce the calibration whose front-left, front-right, back-right and back-left are the clicks in order. */
  lemma FourClicksCalibration(positions: seq<Vec3>)
    requires |positions| == |EditingOrder|
    ensures FillAll(EmptySlots, positions).Some?
    ensures FillAll(EmptySlots, positions).value.GetCalibrationParameters()
            == FloorCalibration(positions[0], positions[1], positions[3], positions[2])
  {
    FillFromEmpty(positions);
  }

  /** `TPendingFloorCalibration`: the four slots, filled in place. */
  class PendingFloorCalibration {
    var frontLeft: Option<Vec3>
    var frontRight: Option<Vec3>
    var backLeft: Option<Vec3>
    var backRight: Option<Vec3>

    constructor ()
      ensures Slots() == EmptySlots
    {
      frontLeft, frontRight, backLeft, backRight := None, None, None, None;
    }

    /** The slots as a value. */
    function Slots(): PendingSlots
      reads this
    {
      PendingSlots(frontLeft, frontRight, backLeft, backRight)
    }

    /** `SetNextEditingPosition`: fills the first empty slot in editing order, or fails leaving every slot as it was. */
    method SetNextEditingPosition(position: Vec3) returns (outcome: Outcome)
      modifies this
      ensures match old(Slots()).SetNext(position)
              case None => outcome == Fail(NoEditingPosition) && Slots() == old(Slots())
              case Some(next) => outcome == Pass && Slots() == next
    {
      outcome := Pass;
      if frontLeft.None? {
        frontLeft := Some(position);
      } else if frontRight.None? {
        frontRight := Some(position);
      } else if backRight.None? {
        backRight := Some(position);
      } else if backLeft.None? {
        backLeft := Some(position);
      } else {
        outcome := Fail(NoEditingPosition);
      }
    }
  }

  /** `AppButtonHold`: which controller holds the application button, since when, and whether it has fired. */
  datatype AppButtonHold = AppButtonHold(controllerIndex: int, holdStartTime: int, triggered: bool)

  /** `CalibrationPlane`: the two axes of the local position that make its 2D position. */
  datatype CalibrationPlane = Floor | Wall

  /** The inspector settings of `NormalisedCalibration`, which no operation changes. */
  datatype Settings = Settings(heightScalar: real, holdToRecalibrateDuration: int,
                               nextSceneIfShortAppButtonPress: bool, plane: CalibrationPlane)

  /**
    The state of a `NormalisedCalibration` as a value: the finished and the
    pending calibration, `IsCalibratingJustFinished`, the current hold, and
    how many saves, `OnCalibrationChanged` events and next-scene loads have
    happened.
   */
  datatype Session = Session(calibration: Option<FloorCalibration>, pending: Option<PendingSlots>,
                             justFinished: bool, hold: Option<AppButtonHold>,
                             saves: nat, changes: nat, sceneLoads: nat)

  /** The shape every reachable session keeps: a pending calibration is filled in order and never left finished. */
  ghost predicate SessionValid(s: Session)
  {
    s.pending.Some? ==> s.pending.value.FilledUpTo(s.pending.value.GetEditingIndex()) && !s.pending.value.IsFinished()
  }

  /** `ResetCalibration`: a fresh pending calibration and a changed event. */
  function Reset(s: Session): Session
  {
    s.(pending := Some(EmptySlots), changes := s.changes + 1)
  }

  /** `OnCalibrationClick`, with the exception of a full pending calibration as `Fail`. */
  function Click(s: Session, position: Vec3): (Session, Outcome)
  {
    if s.pending.None? then (s, Pass)
    else
      match s.pending.value.SetNext(position)
      case None => (s, Fail(NoEditingPosition))
      case Some(next) =>
        var placed :=
          if next.IsFinished() then
            s.(calibration := Some(next.GetCalibrationParameters()), pending := None, saves := s.saves + 1)
          else s.(pending := Some(next));
        (placed.(changes := placed.changes + 1, justFinished := true), Pass)
  }

  /** `UpdateCalibrationHold` for controller `index` with the application button `down` at time `now`. */
  function Hold(s: Session, settings: Settings, down: bool, index: int, now: int): Session
  {
    if s.hold.None? && !down then s
    else if s.hold.Some? && s.hold.value.controllerIndex != index then s
    else if !down then
      var doCancel := !s.hold.value.triggered && s.pending.None? && !s.justFinished;
      var loads := if doCancel && settings.nextSceneIfShortAppButtonPress then s.sceneLoads + 1 else s.sceneLoads;
      s.(hold := None, justFinished := false, sceneLoads := loads)
    else
      var h := if s.hold.None? then AppButtonHold(index, now, false) else s.hold.value;
      if h.triggered then s.(hold := Some(h))
      else if now - h.holdStartTime > settings.holdToRecalibrateDuration then Reset(s.(hold := Some(h.(triggered := true))))
      else s.(hold := Some(h))
  }

  /** What `OnControllersUpdate` reads of one frame: `None` for a null, detached or untracked controller. */
  datatype ControllerInput = ControllerInput(appButtonIsDown: bool, appButtonPressed: bool, position: Vec3)

  function InputOf(f: ControllerFrame?): Option<ControllerInput>
    reads f
  {
    if f == null || !f.attached || !f.tracking then None
    else Some(ControllerInput(f.buttons.appButton.isDown, f.buttons.appButton.pressed, f.position))
  }

  function Inputs(controllers: seq<ControllerFrame?>): (r: seq<Option<ControllerInput>>)
    reads controllers
    ensures |r| == |controllers|
    ensures forall k :: 0 <= k < |r| ==> r[k] == InputOf(controllers[k])
    ensures forall k :: 0 <= k < |r| ==>
              (r[k].None? <==> controllers[k] == null || !controllers[k].attached || !controllers[k].tracking)
    ensures forall k :: 0 <= k < |r| && r[k].Some? ==>
              r[k].value == ControllerInput(controllers[k].buttons.appButton.isDown,
                                            controllers[k].buttons.appButton.pressed, controllers[k].position)
  {
    seq(|controllers|, k reads controllers requires 0 <= k < |controllers| => InputOf(controllers[k]))
  }

  /**
    One iteration of `OnControllersUpdate`: a missing controller releases
    its hold; a present one updates the hold and clicks when its application
    button went down. A failing click leaves the session as the hold left it.
   */
  function ControllerStep(s: Session, settings: Settings, index: nat, input: Option<ControllerInput>, now: int): Session
  {
    match input
    case None => Hold(s, settings, false, index, now)
    case Some(c) =>
      var held := Hold(s, settings, c.appButtonIsDown, index, now);
      if c.appButtonPressed then Click(held, c.position).0 else held
  }

  /** `OnControllersUpdate` over the inputs in list order, the list position being the controller index. */
  function ControllersUpdate(s: Session, settings: Settings, inputs: seq<Option<ControllerInput>>, now: int): Session
    decreases |inputs|
  {
    if inputs == [] then s
    else
      var n := |inputs| - 1;
      ControllerStep(ControllersUpdate(s, settings, inputs[..n], now), settings, n, inputs[n], now)
  }

  /** Successive clicks, stopping at the first that fails. */
  function Clicks(s: Session, positions: seq<Vec3>): Session
    decreases |positions|
  {
    if positions == [] then s
    else
      var n := |positions| - 1;
      Click(Clicks(s, positions[..n]), positions[n]).0
  }

  /** Without a pending calibration a click changes nothing, not even `IsCalibratingJustFinished`. */
  lemma ClickWithoutPending(s: Session, position: Vec3)
    requires s.pending.None?
    ensures Click(s, position) == (s, Pass)
  {
  }

  /**
    With a pending calibration a click on a valid session never fails, sets
    `IsCalibratingJustFinished` and raises one changed event; it saves
    exactly when it completes the calibration, which then replaces the
    finished one and clears the pending one.
   */
  lemma {:induction false} ClickWhilePending(s: Session, position: Vec3)
    requires SessionValid(s) && s.pending.Some?
    ensures var (r, outcome) := Click(s, position);
            && outcome == Pass && r.justFinished && r.changes == s.changes + 1
            && r.hold == s.hold && r.sceneLoads == s.sceneLoads
            && SessionValid(r)
            && (r.saves == s.saves + 1 <==> s.pending.value.GetEditingIndex() == |EditingOrder| - 1)
            && (r.saves == s.saves + 1 ==>
                  r.pending.None? && r.calibration == Some(s.pending.value.SetNext(position).value.GetCalibrationParameters()))
            && (r.saves == s.saves ==>
                  && r.calibration == s.calibration
                  && r.pending == s.pending.value.SetNext(position)
                  && r.pending.value.GetEditingIndex() == s.pending.value.GetEditingIndex() + 1)
  {
    var p := s.pending.value;
    var n := p.GetEditingIndex();
    SetNextFillsInOrder(p, n, position);
    SetNextFillsInOrder(p.SetNext(position).value, n + 1, position);
  }

  /** A reset keeps the finished calibration, so a session can be calibrated and calibrating at once. */
  lemma ResetKeepsCalibration(s: Session)
    ensures Reset(s).calibration == s.calibration && Reset(s).pending == Some(EmptySlots)
    ensures s.calibration.Some? ==> Reset(s).calibration.Some? && Reset(s).pending.Some?
    ensures SessionValid(Reset(s))
  {
  }

  /**
    After a reset, four clicks install the calibration made of the clicks
    (front-left, front-right, back-right, back-left), clear the pending one
    and save once.
   */
  lemma {:induction false} RecalibrateWithFourClicks(s: Session, positions: seq<Vec3>)
    requires |positions| == |EditingOrder|
    ensures var r := Clicks(Reset(s), positions);
            && r.calibration == Some(FloorCalibration(positions[0], positions[1], positions[3], positions[2]))
            && r.pending.None? && r.saves == s.saves + 1 && r.justFinished
  {
    ClicksFromReset(s, positions[..3]);
    var before := Clicks(Reset(s), positions[..3]);
    assert positions[..3] == positions[..|positions| - 1];
    FillFromEmpty(positions[..3]);
    FourClicksCalibration(positions);
    assert FillAll(EmptySlots, positions) == before.pending.value.SetNext(positions[3]);
  }

  /** The first clicks after a reset, before the last corner: the pending slots are those filled from empty. */
  lemma {:induction false} ClicksFromReset(s: Session, positions: seq<Vec3>)
    requires |positions| < |EditingOrder|
    ensures var r := Clicks(Reset(s), positions);
            && r.pending == FillAll(EmptySlots, positions) && r.calibration == s.calibration && r.saves == s.saves
    decreases |positions|
  {
    if positions != [] {
      var n := |positions| - 1;
      ClicksFromReset(s, positions[..n]);
      FillFromEmpty(positions[..n]);
      FillFromEmpty(positions);
    }
  }

  /** A hold owned by another controller ignores this controller's events. */
  lemma HoldIgnoresOtherControllers(s: Session, settings: Settings, down: bool, index: int, now: int)
    requires s.hold.Some? && s.hold.value.controllerIndex != index
    ensures Hold(s, settings, down, index, now) == s
  {
  }

  /**
    Releasing the owning controller's button clears the hold and
    `IsCalibratingJustFinished`, and loads the next scene exactly when the
    hold never fired, nothing is calibrating, no calibration click just
    happened and the setting asks for it.
   */
  lemma ReleaseRule(s: Session, settings: Settings, now: int)
    requires s.hold.Some?
    ensures var r := Hold(s, settings, false, s.hold.value.controllerIndex, now);
            && r.hold.None? && !r.justFinished
            && r.calibration == s.calibration && r.pending == s.pending && r.changes == s.changes
            && (r.sceneLoads == s.sceneLoads + 1 <==>
                  !s.hold.value.triggered && s.pending.None? && !s.justFinished && settings.nextSceneIfShortAppButtonPress)
            && (r.sceneLoads == s.sceneLoads + 1 || r.sceneLoads == s.sceneLoads)
  {
  }

  /**
    A held button resets the calibration when its hold has lasted longer
    than `HoldToRecalibrateDuration` and has not fired yet; a hold that has
    fired changes nothing while the button stays down.
   */
  lemma HoldFiresOnce(s: Session, settings: Settings, index: int, now: int)
    requires s.hold.None? || s.hold.value.controllerIndex == index
    ensures var r := Hold(s, settings, true, index, now);
            var h := if s.hold.None? then AppButtonHold(index, now, false) else s.hold.value;
            && r.hold.Some? && r.hold.value.controllerIndex == index
            && (h.triggered ==> r == s.(hold := Some(h)))
            && (r.changes == s.changes + 1 <==> !h.triggered && now - h.holdStartTime > settings.holdToRecalibrateDuration)
            && (r.changes == s.changes + 1 ==> r.hold.value.triggered && r.pending == Some(EmptySlots))
            && (r.changes == s.changes ==> r.pending == s.pending)
  {
  }

  /** The button held down through a series of updates: one `UpdateCalibrationHold(true, ...)` per time. */
  function HeldThrough(s: Session, settings: Settings, index: int, times: seq<int>): Session
    decreases |times|
  {
    if times == [] then s
    else
      var n := |times| - 1;
      Hold(HeldThrough(s, settings, index, times[..n]), settings, true, index, times[n])
  }

  /** However long the button stays down, one hold resets the calibration at most once. */
  lemma {:induction false} HoldResetsAtMostOnce(s: Session, settings: Settings, index: int, times: seq<int>)
    requires s.hold.None? || s.hold.value.controllerIndex == index
    ensures var r := HeldThrough(s, settings, index, times);
            && r.changes <= s.changes + 1
            && (s.hold.Some? && s.hold.value.triggered ==> r.changes == s.changes && r.hold == s.hold)
            && (times != [] ==> r.hold.Some? && r.hold.value.controllerIndex == index)
            && (r.changes == s.changes + 1 ==> r.hold.Some? && r.hold.value.triggered)
    decreases |times|
  {
    if times != [] {
      var n := |times| - 1;
      HoldResetsAtMostOnce(s, settings, index, times[..n]);
      var before := HeldThrough(s, settings, index, times[..n]);
      HoldFiresOnce(before, settings, index, times[n]);
    }
  }

  /** A hold update keeps a valid session valid. */
  lemma HoldKeepsValid(s: Session, settings: Settings, down: bool, index: int, now: int)
    requires SessionValid(s)
    ensures SessionValid(Hold(s, settings, down, index, now))
  {
  }

  /** Every controller update keeps a valid session valid: pending corners stay filled in editing order. */
  lemma {:induction false} ControllersUpdateKeepsValid(s: Session, settings: Settings,
                                                       inputs: seq<Option<ControllerInput>>, now: int)
    requires SessionValid(s)
    ensures SessionValid(ControllersUpdate(s, settings, inputs, now))
    decreases |inputs|
  {
    if inputs != [] {
      var n := |inputs| - 1;
      ControllersUpdateKeepsValid(s, settings, inputs[..n], now);
      var before := ControllersUpdate(s, settings, inputs[..n], now);
      match inputs[n]
      case None =>
        HoldKeepsValid(before, settings, false, n, now);
      case Some(c) =>
        HoldKeepsValid(before, settings, c.appButtonIsDown, n, now);
        var held := Hold(before, settings, c.appButtonIsDown, n, now);
        if c.appButtonPressed && held.pending.Some? {
          ClickWhilePending(held, c.position);
        }
    }
  }

  /** `NormalisedCalibration`: the calibration component of the scene. */
  class NormalisedCalibration {
    var heightScalar: real
    var holdToRecalibrateDuration: int
    var nextSceneIfShortAppButtonPress: bool
    var plane: CalibrationPlane
    var calibrationParams: Option<FloorCalibration>
    var pendingCalibrationParams: PendingFloorCalibration?
    var isCalibratingJustFinished: bool
    var currentHold: Option<AppButtonHold>
    ghost var saves: nat
    ghost var changes: nat
    ghost var sceneLoads: nat

    /** The component as its inspector defaults create it, before `OnEnable`. */
    constructor ()
      ensures Config() == Settings(1.0, 2, true, Floor)
      ensures Snapshot() == Session(None, None, false, None, 0, 0, 0)
      ensures Valid()
    {
      heightScalar, holdToRecalibrateDuration, nextSceneIfShortAppButtonPress, plane := 1.0, 2, true, Floor;
      calibrationParams, pendingCalibrationParams := None, null;
      isCalibratingJustFinished, currentHold := false, None;
      saves, changes, sceneLoads := 0, 0, 0;
    }

    function Config(): Settings
      reads this
    {
      Settings(heightScalar, holdToRecalibrateDuration, nextSceneIfShortAppButtonPress, plane)
    }

    /** The component's state as a value. */
    ghost function Snapshot(): Session
      reads this, pendingCalibrationParams
    {
      Session(calibrationParams,
              if pendingCalibrationParams == null then None else Some(pendingCalibrationParams.Slots()),
              isCalibratingJustFinished, currentHold, saves, changes, sceneLoads)
    }

    /** The component's invariant: a pending calibration is filled in editing order and not yet finished. */
    ghost predicate Valid()
      reads this, pendingCalibrationParams
    {
      SessionValid(Snapshot())
    }

    function IsCalibrated(): bool
      reads this
    {
      calibrationParams.Some?
    }

    function IsCalibrating(): bool
      reads this
    {
      pendingCalibrationParams != null
    }

    /** `GetNormalisedPosition`: the mapped position, or "Calibration not configured" without a calibration. */
    function GetNormalisedPosition(worldPosition: Vec3, toLocal: (FloorCalibration, Vec3, real) -> Vec3): (r: Result<Vec3>)
      reads this
      ensures r.Err? <==> !IsCalibrated()
      ensures r.Err? ==> r.error == CalibrationNotConfigured
      ensures r.Ok? ==> r.value == toLocal(calibrationParams.value, worldPosition, heightScalar)
    {
      if calibrationParams.None? then Err(CalibrationNotConfigured)
      else Ok(toLocal(calibrationParams.value, worldPosition, heightScalar))
    }

    /** `GetFloorPosition`: the x and z of the normalised position. */
    function GetFloorPosition(worldPosition: Vec3, toLocal: (FloorCalibration, Vec3, real) -> Vec3): (r: Result<Vec2>)
      reads this
      ensures r.Err? <==> GetNormalisedPosition(worldPosition, toLocal).Err?
      ensures r.Ok? ==> r.value.x == GetNormalisedPosition(worldPosition, toLocal).value.x
                        && r.value.y == GetNormalisedPosition(worldPosition, toLocal).value.z
    {
      match GetNormalisedPosition(worldPosition, toLocal)
      case Err(e) => Err(e)
      case Ok(p) => Ok(Vec2(p.x, p.z))
    }

    /** `GetWallPosition`: the x and y of the normalised position. */
    function GetWallPosition(worldPosition: Vec3, toLocal: (FloorCalibration, Vec3, real) -> Vec3): (r: Result<Vec2>)
      reads this
      ensures r.Err? <==> GetNormalisedPosition(worldPosition, toLocal).Err?
      ensures r.Ok? ==> r.value.x == GetNormalisedPosition(worldPosition, toLocal).value.x
                        && r.value.y == GetNormalisedPosition(worldPosition, toLocal).value.y
    {
      match GetNormalisedPosition(worldPosition, toLocal)
      case Err(e) => Err(e)
      case Ok(p) => Ok(Vec2(p.x, p.y))
    }

    /** `GetNormalisedPosition2D`: the floor or wall position as the plane says; fails exactly when uncalibrated. */
    function GetNormalisedPosition2D(worldPosition: Vec3, toLocal: (FloorCalibration, Vec3, real) -> Vec3): (r: Result<Vec2>)
      reads this
      ensures r.Err? <==> !IsCalibrated()
      ensures r.Ok? ==> var l := toLocal(calibrationParams.value, worldPosition, heightScalar);
                        r.value == if plane == Floor then Vec2(l.x, l.z) else Vec2(l.x, l.y)
    {
      if plane == Floor then GetFloorPosition(worldPosition, toLocal) else GetWallPosition(worldPosition, toLocal)
    }

    /** `ResetCalibration`. */
    method ResetCalibration()
      modifies this
      ensures Config() == old(Config())
      ensures fresh(pendingCalibrationParams)
      ensures Snapshot() == Reset(old(Snapshot()))
      ensures Valid()
    {
      ResetKeepsCalibration(Snapshot());
      pendingCalibrationParams := new PendingFloorCalibration();
      changes := changes + 1;
    }

    /** `SaveCalibration`: writes the calibration to the player preferences (counted only). */
    method SaveCalibration()
      modifies this
      ensures Config() == old(Config()) && pendingCalibrationParams == old(pendingCalibrationParams)
      ensures Snapshot() == old(Snapshot()).(saves := old(saves) + 1)
      ensures old(Valid()) ==> Valid()
    {
      saves := saves + 1;
    }

    /** `LoadCalibration`: `stored` is what the player preferences hold, `None` when nothing was saved. */
    method LoadCalibration(stored: Option<FloorCalibration>)
      modifies this
      ensures Config() == old(Config()) && pendingCalibrationParams == old(pendingCalibrationParams)
      ensures Snapshot() == old(Snapshot()).(calibration := stored, changes := old(changes) + 1)
      ensures old(Valid()) ==> Valid()
    {
      calibrationParams := stored;
      changes := changes + 1;
    }

    /** `OnCalibrationClick`. */
    method OnCalibrationClick(worldPos: Vec3) returns (outcome: Outcome)
      modifies this, pendingCalibrationParams
      ensures Config() == old(Config())
      ensures pendingCalibrationParams == null || pendingCalibrationParams == old(pendingCalibrationParams)
      ensures (Snapshot(), outcome) == Click(old(Snapshot()), worldPos)
      ensures old(Valid()) ==> Valid()
    {
      if Valid() && pendingCalibrationParams != null {
        ClickWhilePending(Snapshot(), worldPos);
      }
      if pendingCalibrationParams == null {
        return Pass;
      }
      outcome := pendingCalibrationParams.SetNextEditingPosition(worldPos);
      if outcome.Fail? {
        return;
      }
      if pendingCalibrationParams.Slots().IsFinished() {
        calibrationParams := Some(pendingCalibrationParams.Slots().GetCalibrationParameters());
        pendingCalibrationParams := null;
        SaveCalibration();
      }
      changes := changes + 1;
      isCalibratingJustFinished := true;
    }

    /** `UpdateCalibrationHold`; `now` is `Time.time`. */
    method UpdateCalibrationHold(down: bool, controllerIndex: int, now: int)
      modifies this
      ensures Config() == old(Config())
      ensures pendingCalibrationParams == old(pendingCalibrationParams) || fresh(pendingCalibrationParams)
      ensures Snapshot() == Hold(old(Snapshot()), Config(), down, controllerIndex, now)
      ensures old(Valid()) ==> Valid()
    {
      if Valid() {
        HoldKeepsValid(Snapshot(), Config(), down, controllerIndex, now);
      }
      if currentHold.None? && !down {
        return;
      }
      if currentHold.Some? && currentHold.value.controllerIndex != controllerIndex {
        return;
      }
      if !down {
        var doCancel := !currentHold.value.triggered;
        currentHold := None;
        if IsCalibrating() {
          doCancel := false;
        }
        if isCalibratingJustFinished {
          doCancel := false;
        }
        if doCancel && nextSceneIfShortAppButtonPress {
          sceneLoads := sceneLoads + 1;
        }
        isCalibratingJustFinished := false;
        return;
      }
      if currentHold.None? {
        currentHold := Some(AppButtonHold(controllerIndex, now, false));
      }
      if currentHold.value.triggered {
        return;
      }
      if now - currentHold.value.holdStartTime > holdToRecalibrateDuration {
        currentHold := Some(currentHold.value.(triggered := true));
        ResetCalibration();
      }
    }

    /**
      `OnControllersUpdate`: the hold and click rules for every controller
      of the list, in order; a failing click is logged and the loop goes on.
     */
    method OnControllersUpdate(controllers: seq<ControllerFrame?>, now: int)
      modifies this, pendingCalibrationParams
      ensures Config() == old(Config())
      ensures Snapshot() == ControllersUpdate(old(Snapshot()), Config(), Inputs(controllers), now)
      ensures old(Valid()) ==> Valid()
    {
      if Valid() {
        ControllersUpdateKeepsValid(Snapshot(), Config(), Inputs(controllers), now);
      }
      ghost var inputs := Inputs(controllers);
      for i := 0 to |controllers|
        invariant Config() == old(Config())
        invariant pendingCalibrationParams == null || pendingCalibrationParams == old(pendingCalibrationParams)
                  || fresh(pendingCalibrationParams)
        invariant Snapshot() == ControllersUpdate(old(Snapshot()), Config(), inputs[..i], now)
      {
        assert inputs[..i + 1][..i] == inputs[..i];
        var controller := controllers[i];
        if controller == null || !controller.attached || !controller.tracking {
          UpdateCalibrationHold(false, i, now);
          continue;
        }
        UpdateCalibrationHold(controller.buttons.appButton.isDown, i, now);
        if controller.buttons.appButton.pressed {
          var outcome := OnCalibrationClick(controller.position);
        }
      }
      assert inputs[..|controllers|] == inputs;
    }
  }
}
