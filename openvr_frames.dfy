/**
  Per-frame controller state read from OpenVR (OpenvrControllerManager.cs):
  button edge detection, key frames, the button bit test, detached frames,
  the classification of device indices, the matching of previous frames by
  list position, and the re-initialisation back-off.

  The OpenVR calls themselves (Init, GetDeviceToAbsoluteTrackingPose,
  GetControllerStateWithPose, GetTrackedDeviceClass) are not modelled: their
  answers are parameters of `OpenvrControllerManager.Update`.
 */
module Openvr {
  import opened Common

  /** The down state of one button in one frame and its edges against the previous frame. */
  datatype ButtonState = ButtonState(isDown: bool, pressed: bool, released: bool)

  /** The five buttons a controller frame reports. */
  datatype Button = Trigger | Touchpad | TouchpadClick | AppButton | GripButton

  /**
    The `...IsDown`, `...Pressed` and `...Released` fields of a controller
    frame, grouped by button.
   */
  datatype Buttons = Buttons(trigger: ButtonState, touchpad: ButtonState, touchpadClick: ButtonState,
                             appButton: ButtonState, gripButton: ButtonState)
  {
    function Get(b: Button): ButtonState
    {
      match b
      case Trigger => trigger
      case Touchpad => touchpad
      case TouchpadClick => touchpadClick
      case AppButton => appButton
      case GripButton => gripButton
    }

    /** `IsKeyFrame`: some button went down or came up in this frame. */
    function IsKeyFrame(): (r: bool)
      ensures r <==> exists b: Button :: Get(b).pressed || Get(b).released
    {
      assert Get(Trigger) == trigger && Get(Touchpad) == touchpad && Get(TouchpadClick) == touchpadClick;
      assert Get(AppButton) == appButton && Get(GripButton) == gripButton;

      trigger.pressed || trigger.released ||
      touchpad.pressed || touchpad.released ||
      touchpadClick.pressed || touchpadClick.released ||
      appButton.pressed || appButton.released ||
      gripButton.pressed || gripButton.released
    }

    /** These down states with the edges `SetDiff` derives from the previous frame's down states. */
    function WithEdges(previous: Buttons): Buttons
    {
      Buttons(Edge(trigger.isDown, previous.trigger.isDown),
              Edge(touchpad.isDown, previous.touchpad.isDown),
              Edge(touchpadClick.isDown, previous.touchpadClick.isDown),
              Edge(appButton.isDown, previous.appButton.isDown),
              Edge(gripButton.isDown, previous.gripButton.isDown))
    }
  }

  /** The state of a button that is `down` after a frame in which it was `lastDown`. */
  function Edge(down: bool, lastDown: bool): ButtonState
  {
    ButtonState(down, down && !lastDown, !down && lastDown)
  }

  /** Each button of `WithEdges` is that button's down state with its edge against the previous frame. */
  lemma WithEdgesGet(current: Buttons, previous: Buttons, b: Button)
    ensures current.WithEdges(previous).Get(b) == Edge(current.Get(b).isDown, previous.Get(b).isDown)
  {
  }

  const AllUp := ButtonState(false, false, false)
  const AllButtonsUp := Buttons(AllUp, AllUp, AllUp, AllUp, AllUp)

  /** A frame is a key frame exactly when some button's down state differs from the previous frame's. */
  lemma {:induction false} KeyFrameIffChange(current: Buttons, previous: Buttons)
    ensures current.WithEdges(previous).IsKeyFrame() <==> exists b: Button :: current.Get(b).isDown != previous.Get(b).isDown
  {
    var r := current.WithEdges(previous);
    if r.IsKeyFrame() {
      var b: Button :| r.Get(b).pressed || r.Get(b).released;
      assert current.Get(b).isDown != previous.Get(b).isDown;
    }
    if b: Button :| current.Get(b).isDown != previous.Get(b).isDown {
      assert r.Get(b).pressed || r.Get(b).released;
    }
  }

  /** With no previous frame every button counts as up: nothing is released and pressed equals down. */
  lemma FirstFrameEdges(current: Buttons)
    ensures forall b: Button :: !current.WithEdges(AllButtonsUp).Get(b).released
    ensures forall b: Button :: current.WithEdges(AllButtonsUp).Get(b).pressed == current.Get(b).isDown
  {
  }

  /** Pressed and released are never both set. */
  lemma EdgesExclusive(current: Buttons, previous: Buttons)
    ensures forall b: Button :: !(current.WithEdges(previous).Get(b).pressed && current.WithEdges(previous).Get(b).released)
  {
  }

  /** `OpenvrControllerFrame`: one controller's state in one update. */
  class ControllerFrame {
    var attached: bool
    var tracking: bool
    var position: Vec3
    var rotation: Quat
    var buttons: Buttons
    var triggerAxis: real
    var touchpadAxis: Vec2

    /** `new OpenvrControllerFrame()`: every field at its default value. */
    constructor ()
      ensures Value() == DetachedValue
    {
      attached, tracking := false, false;
      position, rotation := ZeroVec3, ZeroQuat;
      triggerAxis, touchpadAxis := 0.0, ZeroVec2;
      buttons := AllButtonsUp;
    }

    /** The frame's contents. */
    function Value(): FrameValue
      reads this
    {
      FrameValue(attached, tracking, position, rotation, buttons, triggerAxis, touchpadAxis)
    }

    /** Edge detection for one button: pressed on the way down, released on the way up, never both. */
    static method SetDiff(down: bool, lastDown: bool) returns (pressed: bool, released: bool)
      ensures pressed <==> down && !lastDown
      ensures released <==> !down && lastDown
      ensures !(pressed && released)
      ensures (pressed || released) <==> down != lastDown
    {
      pressed := down && !lastDown;
      released := !down && lastDown;
    }

    /**
      Sets the edges of all five buttons against `last`; a missing last frame
      counts as every button up.
     */
    method CalculateDiff(last: ControllerFrame?)
      modifies this
      ensures attached == old(attached) && tracking == old(tracking)
      ensures position == old(position) && rotation == old(rotation)
      ensures triggerAxis == old(triggerAxis) && touchpadAxis == old(touchpadAxis)
      ensures buttons == old(buttons).WithEdges(old(PreviousButtons(last)))
    {
      var b := buttons;
      var tp, tr := SetDiff(b.trigger.isDown, last != null && last.buttons.trigger.isDown);
      var pp, pr := SetDiff(b.touchpad.isDown, last != null && last.buttons.touchpad.isDown);
      var cp, cr := SetDiff(b.touchpadClick.isDown, last != null && last.buttons.touchpadClick.isDown);
      var ap, ar := SetDiff(b.appButton.isDown, last != null && last.buttons.appButton.isDown);
      var gp, gr := SetDiff(b.gripButton.isDown, last != null && last.buttons.gripButton.isDown);
      buttons := Buttons(ButtonState(b.trigger.isDown, tp, tr), ButtonState(b.touchpad.isDown, pp, pr),
                         ButtonState(b.touchpadClick.isDown, cp, cr), ButtonState(b.appButton.isDown, ap, ar),
                         ButtonState(b.gripButton.isDown, gp, gr));
    }
  }

  /** The buttons of the previous frame; every button is up when there is none. */
  function PreviousButtons(last: ControllerFrame?): Buttons
    reads last
  {
    if last == null then AllButtonsUp else last.buttons
  }

  /** `EVRButtonId` values of the OpenVR API. */
  const ApplicationMenuButton: nat := 1
  const GripButtonId: nat := 2
  const SteamVRTouchpadButton: nat := 32
  const SteamVRTriggerButton: nat := 33

  /** The shift count C# uses for `(ulong)1 << button`: the low six bits of `button`. */
  function ShiftCount(button: nat): bv6
  {
    (button % 64) as bv6
  }

  /** `SetButton`: whether bit `button` of the 64-bit button mask is set. */
  function SetButton(state: bv64, button: nat): (r: bool)
    ensures state == 0 ==> !r
    ensures state == 0xFFFF_FFFF_FFFF_FFFF ==> r
    ensures state & ButtonMask(button) == ButtonMask(button) ==> r
    ensures state & ButtonMask(button) == 0 ==> !r
  {
    state & (1 << ShiftCount(button)) != 0
  }

  /** The mask in which only the bit of `button` is set. */
  function ButtonMask(button: nat): bv64
  {
    1 << ShiftCount(button)
  }

  /** The button ids `GetFrame` tests. */
  const ButtonIds: seq<nat> := [ApplicationMenuButton, GripButtonId, SteamVRTouchpadButton, SteamVRTriggerButton]

  /** The button ids `GetFrame` tests select distinct bits: a one-button mask reports exactly that button. */
  lemma ButtonBitsDistinct()
    ensures forall i, j :: 0 <= i < |ButtonIds| && 0 <= j < |ButtonIds| ==>
              (SetButton(ButtonMask(ButtonIds[i]), ButtonIds[j]) <==> i == j)
  {
  }

  /** A tracked pose after `RigidTransform` has converted its matrix to a position and rotation. */
  datatype Pose = Pose(poseIsValid: bool, position: Vec3, rotation: Quat)

  /** `VRControllerState_t`: pressed and touched button masks and the first two axes. */
  datatype ControllerState = ControllerState(buttonPressed: bv64, buttonTouched: bv64, axis0: Vec2, axis1: Vec2)

  /**
    The down states `GetFrame` reads from a controller state, with no edges
    yet. The touchpad's down state is the application-menu bit of the
    touched mask, as the code reads it.
   */
  function DownButtons(s: ControllerState): Buttons
  {
    Buttons(ButtonState(SetButton(s.buttonPressed, SteamVRTriggerButton), false, false),
            ButtonState(SetButton(s.buttonTouched, ApplicationMenuButton), false, false),
            ButtonState(SetButton(s.buttonPressed, SteamVRTouchpadButton), false, false),
            ButtonState(SetButton(s.buttonPressed, ApplicationMenuButton), false, false),
            ButtonState(SetButton(s.buttonPressed, GripButtonId), false, false))
  }

  /** The contents of an `OpenvrControllerFrame`. */
  datatype FrameValue = FrameValue(attached: bool, tracking: bool, position: Vec3, rotation: Quat,
                                   buttons: Buttons, triggerAxis: real, touchpadAxis: Vec2)

  /** A frame for a device that is not attached: all defaults, every button up. */
  const DetachedValue := FrameValue(false, false, ZeroVec3, ZeroQuat, AllButtonsUp, 0.0, ZeroVec2)

  /**
    A frame read from an attached device's state and pose: tracking when the
    pose is valid, the touchpad's y axis negated, and the buttons' edges set
    against `previous`.
   */
  function AttachedValue(s: ControllerState, p: Pose, previous: Buttons): FrameValue
  {
    FrameValue(true, p.poseIsValid, p.position, p.rotation, DownButtons(s).WithEdges(previous),
               s.axis1.x, Vec2(s.axis0.x, -s.axis0.y))
  }

  /**
    `GetFrame`: a missing state or pose gives a detached frame with no edges
    computed, so never a key frame; otherwise the frame is read from the
    state and pose and diffed against `last`.
   */
  method GetFrame(state: Option<ControllerState>, pose: Option<Pose>, last: ControllerFrame?)
    returns (frame: ControllerFrame)
    ensures fresh(frame)
    ensures state.None? || pose.None? ==> frame.Value() == DetachedValue && !frame.buttons.IsKeyFrame()
    ensures state.Some? && pose.Some? ==> frame.Value() == AttachedValue(state.value, pose.value, PreviousButtons(last))
  {
    frame := new ControllerFrame();
    if state.None? || pose.None? {
      frame.attached := false;
      return;
    }
    var s, p := state.value, pose.value;
    frame.attached := true;
    frame.tracking := p.poseIsValid;
    frame.position, frame.rotation := p.position, p.rotation;
    var b := frame.buttons;
    b := b.(appButton := b.appButton.(isDown := SetButton(s.buttonPressed, ApplicationMenuButton)));
    b := b.(gripButton := b.gripButton.(isDown := SetButton(s.buttonPressed, GripButtonId)));
    b := b.(touchpadClick := b.touchpadClick.(isDown := SetButton(s.buttonPressed, SteamVRTouchpadButton)));
    b := b.(trigger := b.trigger.(isDown := SetButton(s.buttonPressed, SteamVRTriggerButton)));
    b := b.(touchpad := b.touchpad.(isDown := SetButton(s.buttonTouched, ApplicationMenuButton)));
    frame.buttons := b;
    frame.touchpadAxis := Vec2(s.axis0.x, -s.axis0.y);
    frame.triggerAxis := s.axis1.x;
    frame.CalculateDiff(last);
  }

  /** `OpenvrLighthouseFrame`: a base station's pose in one update. */
  datatype LighthouseFrame = LighthouseFrame(attached: bool, tracking: bool, position: Vec3, rotation: Quat)
  {
    /** A lighthouse has no buttons, so it never reports a key frame. */
    function IsKeyFrame(): (r: bool)
      ensures !r
    {
      false
    }
  }

  /** `GetLighthouseFrame`: attached exactly when a pose is given, tracking when that pose is valid. */
  function GetLighthouseFrame(pose: Option<Pose>): (f: LighthouseFrame)
    ensures f.attached <==> pose.Some?
    ensures f.tracking <==> pose.Some? && pose.value.poseIsValid
    ensures pose.Some? ==> f.position == pose.value.position && f.rotation == pose.value.rotation
  {
    match pose
    case None => LighthouseFrame(false, false, ZeroVec3, ZeroQuat)
    case Some(p) => LighthouseFrame(true, p.poseIsValid, p.position, p.rotation)
  }

  /** `ETrackedDeviceClass`. */
  datatype DeviceClass = Invalid | HMD | Controller | GenericTracker | TrackingReference | DisplayRedirect

  /** The two lists `Update` sorts device indices into. */
  datatype DeviceKind = ControllerKind | LighthouseKind

  /** Controllers and generic trackers are controllers, tracking references are lighthouses, the rest are dropped. */
  function KindOf(c: DeviceClass): Option<DeviceKind>
  {
    match c
    case Controller => Some(ControllerKind)
    case GenericTracker => Some(ControllerKind)
    case TrackingReference => Some(LighthouseKind)
    case _ => None
  }

  /** The number of device indices `Update` scans. */
  const MaxDevices: nat := 16

  /** `indexes` lists, in ascending order, exactly the device indices whose class is of `kind`. */
  ghost predicate ListsExactly(classes: seq<DeviceClass>, indexes: seq<nat>, kind: DeviceKind)
  {
    && (forall k :: 0 <= k < |indexes| ==> indexes[k] < |classes| && KindOf(classes[indexes[k]]) == Some(kind))
    && (forall k, l :: 0 <= k < l < |indexes| ==> indexes[k] < indexes[l])
    && (forall i :: 0 <= i < |classes| && KindOf(classes[i]) == Some(kind) ==> i in indexes)
  }

  /**
    The device scan of `Update`: indices 0..15 in ascending order, each
    appended to the controller list, the lighthouse list or neither.
   */
  method ClassifyDevices(classes: seq<DeviceClass>) returns (controllers: seq<nat>, lighthouses: seq<nat>)
    requires |classes| == MaxDevices
    ensures ListsExactly(classes, controllers, ControllerKind)
    ensures ListsExactly(classes, lighthouses, LighthouseKind)
    ensures forall i :: i in controllers ==> i !in lighthouses
  {
    controllers, lighthouses := [], [];
    var i := 0;
    while i < MaxDevices
      invariant 0 <= i <= MaxDevices
      invariant forall k :: 0 <= k < |controllers| ==> controllers[k] < i && KindOf(classes[controllers[k]]) == Some(ControllerKind)
      invariant forall k, l :: 0 <= k < l < |controllers| ==> controllers[k] < controllers[l]
      invariant forall j :: 0 <= j < i && KindOf(classes[j]) == Some(ControllerKind) ==> j in controllers
      invariant forall k :: 0 <= k < |lighthouses| ==> lighthouses[k] < i && KindOf(classes[lighthouses[k]]) == Some(LighthouseKind)
      invariant forall k, l :: 0 <= k < l < |lighthouses| ==> lighthouses[k] < lighthouses[l]
      invariant forall j :: 0 <= j < i && KindOf(classes[j]) == Some(LighthouseKind) ==> j in lighthouses
    {
      var kind := classes[i];
      if kind == Controller || kind == GenericTracker {
        controllers := controllers + [i];
      } else if kind == TrackingReference {
        lighthouses := lighthouses + [i];
      }
      i := i + 1;
    }
  }

  /**
    The previous frame for the controller at list position `position`: the
    entry at the same position of the previous update's list, or null when
    there was no previous list or it is shorter.
   */
  function PreviousFrame(last: Option<seq<ControllerFrame>>, position: nat): (f: ControllerFrame?)
    ensures f != null <==> last.Some? && position < |last.value|
    ensures f != null ==> f == last.value[position]
  {
    if last.Some? && position < |last.value| then last.value[position] else null
  }

  /** `TimeSinceLastInit`: 999 when there was no attempt yet. */
  function TimeSinceLastInit(lastInitTime: Option<int>, now: int): int
  {
    if lastInitTime.Some? then now - lastInitTime.value else 999
  }

  /** `CanTryReinit`: allowed before the first attempt, then only once more than `delay` has passed. */
  function CanTryReinit(lastInitTime: Option<int>, now: int, delay: int): (r: bool)
    ensures r <==> lastInitTime.None? || now - lastInitTime.value > delay
  {
    if lastInitTime.Some? then TimeSinceLastInit(lastInitTime, now) > delay else true
  }

  /** What `GetControllerStateWithPose` reports for one device index. */
  datatype ControllerQuery = ControllerQuery(attached: bool, state: ControllerState, pose: Pose)

  /** The frame `Update` builds for a device: read from the query when attached, detached otherwise. */
  function ExpectedFrame(q: ControllerQuery, p: Pose, previous: Buttons): FrameValue
  {
    if q.attached then AttachedValue(q.state, p, previous) else DetachedValue
  }

  /** Whether the controller at list position `k` makes `ValidCount` cover its device index. */
  predicate Counted(queries: seq<ControllerQuery>, indexes: seq<nat>, last: Option<seq<ControllerFrame>>, k: int)
  {
    && 0 <= k < |indexes| && indexes[k] < |queries|
    && (queries[indexes[k]].attached || PreviousFrame(last, k) != null)
  }

  /** `ValidCount` after the first `n` controllers: the last counted device index plus one, or 0. */
  function ValidCountAfter(queries: seq<ControllerQuery>, indexes: seq<nat>, last: Option<seq<ControllerFrame>>, n: nat): nat
    requires n <= |indexes|
  {
    if n == 0 then 0
    else if Counted(queries, indexes, last, n - 1) then indexes[n - 1] + 1
    else ValidCountAfter(queries, indexes, last, n - 1)
  }

  /**
    With ascending device indices, `ValidCount` is one more than the highest
    device index that is attached or had a previous frame, and 0 when there
    is none.
   */
  lemma {:induction false} ValidCountIsHighestPlusOne(queries: seq<ControllerQuery>, indexes: seq<nat>,
                                                      last: Option<seq<ControllerFrame>>, n: nat)
    requires n <= |indexes|
    requires forall k, l :: 0 <= k < l < |indexes| ==> indexes[k] < indexes[l]
    ensures forall k :: 0 <= k < n && Counted(queries, indexes, last, k) ==>
              indexes[k] < ValidCountAfter(queries, indexes, last, n)
    ensures ValidCountAfter(queries, indexes, last, n) == 0 <==>
              forall k :: 0 <= k < n ==> !Counted(queries, indexes, last, k)
    ensures ValidCountAfter(queries, indexes, last, n) != 0 ==>
              exists k :: 0 <= k < n && Counted(queries, indexes, last, k)
                          && ValidCountAfter(queries, indexes, last, n) == indexes[k] + 1
  {
    if n > 0 {
      ValidCountIsHighestPlusOne(queries, indexes, last, n - 1);
      if Counted(queries, indexes, last, n - 1) {
        assert ValidCountAfter(queries, indexes, last, n) == indexes[n - 1] + 1;
      }
    }
  }

  /** The pose `Update` uses for device `i`: the predicted one when `UsePredictedPoses`, else the queried one. */
  function ChosenPose(usePredictedPoses: bool, predicted: seq<Pose>, queries: seq<ControllerQuery>, i: nat): Pose
    requires i < |predicted| && i < |queries|
  {
    if usePredictedPoses then predicted[i] else queries[i].pose
  }

  /**
    The controller loop of `Update`: one frame per controller device index,
    each diffed against the previous update's frame at the same list
    position.
   */
  method ReadControllerFrames(indexes: seq<nat>, queries: seq<ControllerQuery>, usePredictedPoses: bool,
                              predicted: seq<Pose>, last: Option<seq<ControllerFrame>>)
    returns (frames: seq<ControllerFrame>, validCount: nat)
    requires forall k :: 0 <= k < |indexes| ==> indexes[k] < |queries| && indexes[k] < |predicted|
    ensures |frames| == |indexes|
    ensures forall k :: 0 <= k < |frames| ==> fresh(frames[k])
    ensures forall k :: 0 <= k < |frames| ==>
              frames[k].Value() == ExpectedFrame(queries[indexes[k]], ChosenPose(usePredictedPoses, predicted, queries, indexes[k]),
                                                 old(PreviousButtons(PreviousFrame(last, k))))
    ensures validCount == ValidCountAfter(queries, indexes, last, |indexes|)
  {
    frames, validCount := [], 0;
    ghost var values: seq<FrameValue> := [];
    for n := 0 to |indexes|
      invariant |frames| == n && |values| == n
      invariant forall k :: 0 <= k < n ==> fresh(frames[k]) && frames[k].Value() == values[k]
      invariant forall k :: 0 <= k < n ==>
                  values[k] == ExpectedFrame(queries[indexes[k]], ChosenPose(usePredictedPoses, predicted, queries, indexes[k]),
                                             old(PreviousButtons(PreviousFrame(last, k))))
      invariant validCount == ValidCountAfter(queries, indexes, last, n)
    {
      var i := indexes[n];
      assert PreviousButtons(PreviousFrame(last, n)) == old(PreviousButtons(PreviousFrame(last, n)));
      var frame, counted := ReadControllerFrame(queries[i], ChosenPose(usePredictedPoses, predicted, queries, i),
                                                PreviousFrame(last, |frames|));
      frames, values := frames + [frame], values + [frame.Value()];
      if counted {
        validCount := i + 1;
      }
    }
  }

  /**
    One iteration of the controller loop of `Update`: the device's frame,
    and whether the device is attached or had a frame in the previous update.
   */
  method ReadControllerFrame(q: ControllerQuery, pose: Pose, previous: ControllerFrame?)
    returns (frame: ControllerFrame, counted: bool)
    ensures fresh(frame) && frame.Value() == ExpectedFrame(q, pose, old(PreviousButtons(previous)))
    ensures counted <==> q.attached || previous != null
  {
    var state, devicePose := if q.attached then Some(q.state) else None, if q.attached then Some(pose) else None;
    frame := GetFrame(state, devicePose, previous);
    counted := q.attached || previous != null;
  }

  /** The lighthouse a device index reports: attached always, since its pose is always present. */
  function LighthousePose(usePredictedPoses: bool, predicted: seq<Pose>, unsetPose: Pose, i: nat): Pose
    requires i < |predicted|
  {
    if usePredictedPoses then predicted[i] else unsetPose
  }

  /**
    The lighthouse loop of `Update`. The pose handed to `GetLighthouseFrame`
    is a value, never missing, so every lighthouse frame is attached.
   */
  method ReadLighthouseFrames(indexes: seq<nat>, usePredictedPoses: bool, predicted: seq<Pose>, unsetPose: Pose)
    returns (frames: seq<LighthouseFrame>)
    requires forall k :: 0 <= k < |indexes| ==> indexes[k] < |predicted|
    ensures |frames| == |indexes|
    ensures forall k :: 0 <= k < |frames| ==>
              frames[k] == GetLighthouseFrame(Some(LighthousePose(usePredictedPoses, predicted, unsetPose, indexes[k])))
    ensures forall k :: 0 <= k < |frames| ==> frames[k].attached
  {
    frames := [];
    for m := 0 to |indexes|
      invariant |frames| == m
      invariant forall k :: 0 <= k < m ==>
                  frames[k] == GetLighthouseFrame(Some(LighthousePose(usePredictedPoses, predicted, unsetPose, indexes[k])))
    {
      var pose := if usePredictedPoses then predicted[indexes[m]] else unsetPose;
      frames := frames + [GetLighthouseFrame(Some(pose))];
    }
  }

  /**
    What one published update hands to `OnUpdateAll` and
    `OnUpdateLighthouses`: the device indices sorted into controllers and
    lighthouses, one frame per controller read from its query and diffed
    against the frame at the same position of `last`, `ValidCount`, and one
    attached frame per lighthouse.
   */
  ghost predicate Publishes(classes: seq<DeviceClass>, predicted: seq<Pose>, queries: seq<ControllerQuery>,
                            unsetPose: Pose, usePredictedPoses: bool, last: Option<seq<ControllerFrame>>,
                            controllerIndexes: seq<nat>, lighthouseIndexes: seq<nat>,
                            controllerFrames: seq<ControllerFrame>, lighthouseFrames: seq<LighthouseFrame>,
                            validCount: nat)
    requires |classes| == MaxDevices && |predicted| == MaxDevices && |queries| == MaxDevices
    reads set k | 0 <= k < |controllerFrames| :: controllerFrames[k]
    reads if last.Some? then set k | 0 <= k < |last.value| :: last.value[k] else {}
  {
    && ListsExactly(classes, controllerIndexes, ControllerKind)
    && ListsExactly(classes, lighthouseIndexes, LighthouseKind)
    && |controllerFrames| == |controllerIndexes|
    && (forall k :: 0 <= k < |controllerFrames| ==>
          controllerFrames[k].Value() ==
            ExpectedFrame(queries[controllerIndexes[k]],
                          ChosenPose(usePredictedPoses, predicted, queries, controllerIndexes[k]),
                          PreviousButtons(PreviousFrame(last, k))))
    && validCount == ValidCountAfter(queries, controllerIndexes, last, |controllerIndexes|)
    && |lighthouseFrames| == |lighthouseIndexes|
    && (forall k :: 0 <= k < |lighthouseFrames| ==>
          lighthouseFrames[k] == GetLighthouseFrame(Some(
            LighthousePose(usePredictedPoses, predicted, unsetPose, lighthouseIndexes[k]))))
  }

  /** The device scan and both frame loops of a published `Update`. */
  method ReadDevices(classes: seq<DeviceClass>, predicted: seq<Pose>, queries: seq<ControllerQuery>,
                     unsetPose: Pose, usePredictedPoses: bool, last: Option<seq<ControllerFrame>>)
    returns (controllerIndexes: seq<nat>, lighthouseIndexes: seq<nat>,
             controllerFrames: seq<ControllerFrame>, lighthouseFrames: seq<LighthouseFrame>, validCount: nat)
    requires |classes| == MaxDevices && |predicted| == MaxDevices && |queries| == MaxDevices
    ensures forall k :: 0 <= k < |controllerFrames| ==> fresh(controllerFrames[k])
    ensures Publishes(classes, predicted, queries, unsetPose, usePredictedPoses, last,
                      controllerIndexes, lighthouseIndexes, controllerFrames, lighthouseFrames, validCount)
  {
    controllerIndexes, lighthouseIndexes := ClassifyDevices(classes);
    controllerFrames, validCount := ReadControllerFrames(controllerIndexes, queries, usePredictedPoses, predicted, last);
    lighthouseFrames := ReadLighthouseFrames(lighthouseIndexes, usePredictedPoses, predicted, unsetPose);
  }

  /** The manager's state between updates. */
  class OpenvrControllerManager {
    var updateInEditor: bool
    var usePredictedPoses: bool
    var reInitialiseDelaySecs: int
    var lastInitTime: Option<int>
    /** Whether `system` holds an initialised OpenVR system. */
    var hasSystem: bool
    var lastControllerFrames: Option<seq<ControllerFrame>>

    constructor (updateInEditor: bool, usePredictedPoses: bool, reInitialiseDelaySecs: int)
      ensures this.updateInEditor == updateInEditor && this.usePredictedPoses == usePredictedPoses
      ensures this.reInitialiseDelaySecs == reInitialiseDelaySecs
      ensures lastInitTime.None? && !hasSystem && lastControllerFrames.None?
    {
      this.updateInEditor := updateInEditor;
      this.usePredictedPoses := usePredictedPoses;
      this.reInitialiseDelaySecs := reInitialiseDelaySecs;
      lastInitTime := None;
      hasSystem := false;
      lastControllerFrames := None;
    }

    /**
      One `Update`. `now` is `Time.time`; `editorNotPlaying` is "in the
      editor and not playing"; `initSucceeds` is whether `OpenVR.Init` would
      return a system; `classes`, `predicted` and `queries` are OpenVR's
      answers for device indices 0..15; `unsetPose` is the converted pose of a
      default `TrackedDevicePose_t`. When `published`, the frames are what
      `OnUpdateAll` and `OnUpdateLighthouses` receive.
     */
    method Update(now: int, editorNotPlaying: bool, initSucceeds: bool, classes: seq<DeviceClass>,
                  predicted: seq<Pose>, queries: seq<ControllerQuery>, unsetPose: Pose)
      returns (published: bool, controllerIndexes: seq<nat>, lighthouseIndexes: seq<nat>,
               controllerFrames: seq<ControllerFrame>, lighthouseFrames: seq<LighthouseFrame>, validCount: nat)
      requires |classes| == MaxDevices && |predicted| == MaxDevices && |queries| == MaxDevices
      requires !unsetPose.poseIsValid
      modifies this
      ensures updateInEditor == old(updateInEditor) && usePredictedPoses == old(usePredictedPoses)
      ensures reInitialiseDelaySecs == old(reInitialiseDelaySecs)
      ensures var skipped := !updateInEditor && editorNotPlaying;
              var attempt := !skipped && !old(hasSystem) && CanTryReinit(old(lastInitTime), now, reInitialiseDelaySecs);
              && (attempt ==> lastInitTime == Some(now) && hasSystem == initSucceeds)
              && (!attempt ==> lastInitTime == old(lastInitTime) && hasSystem == old(hasSystem))
              && (published <==> !skipped && (old(hasSystem) || (attempt && initSucceeds)))
      ensures !published ==> lastControllerFrames == old(lastControllerFrames)
      ensures published ==>
                && lastControllerFrames == Some(controllerFrames)
                && (forall k :: 0 <= k < |controllerFrames| ==> fresh(controllerFrames[k]))
                && Publishes(classes, predicted, queries, unsetPose, usePredictedPoses, old(lastControllerFrames),
                             controllerIndexes, lighthouseIndexes, controllerFrames, lighthouseFrames, validCount)
    {
      published, controllerIndexes, lighthouseIndexes := false, [], [];
      controllerFrames, lighthouseFrames, validCount := [], [], 0;
      if !updateInEditor && editorNotPlaying {
        return;
      }
      if !hasSystem {
        if !CanTryReinit(lastInitTime, now, reInitialiseDelaySecs) {
          return;
        }
        hasSystem := initSucceeds;
        lastInitTime := Some(now);
        if !hasSystem {
          return;
        }
      }
      controllerIndexes, lighthouseIndexes, controllerFrames, lighthouseFrames, validCount :=
        ReadDevices(classes, predicted, queries, unsetPose, usePredictedPoses, lastControllerFrames);
      lastControllerFrames := Some(controllerFrames);
      published := true;
    }
  }
}
