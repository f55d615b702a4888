# OpenVR controller input and calibration, modelled in Dafny

This project models the core of a Unity project that reads HTC Vive / OpenVR
controllers and calibrates a play area against them:

- **OpenVR frames** (`openvr_frames.dfy`, module `Openvr`). Each update, the
  manager scans the 16 OpenVR device indices and sorts them into controllers
  and lighthouses. It reads one frame per controller, which holds the pose,
  the axes and five buttons. Each button's pressed and released edges are
  computed against the frame at the same position of the previous update's
  list. The manager also computes `ValidCount` and, after a failed
  `OpenVR.Init`, waits before trying again.
- **Floor calibration** (`normalised_calibration.dfy`, module `Calibration`).
  A pending calibration collects four corner positions in the fixed order
  front-left, front-right, back-right, back-left. The calibration component
  handles application-button clicks. Holding the button longer than
  `HoldToRecalibrateDuration` starts a new calibration; a short press may load
  the next scene. The component maps world positions through the finished
  calibration.
- **Projection-screen calibration** (`setup_calibration.dfy`, module
  `ProjectionCalibration`). A four-corner state machine that wraps around
  after `Finished`. It keeps the stored screen positions, the on-screen target,
  the screen quad and the player frames it emits once finished.
- **Controller tracker** (`controller_tracker.dfy`, module `Tracking`). A scene
  object that copies one controller's pose, is shown only while that
  controller is tracked, and reports its normalised position.
- **Calibration overlay** (`calibration_shader.dfy`, module
  `CalibrationShader`). It decides the slot type of each corner, the points of
  the tracked objects, and whether the overlay image is shown.
- **Controller debug view** (`controller_debug.dfy`, module
  `ControllerDebugging`). One clone of a template object per controller index,
  padded on demand and moved with its controller. It also leaves a dot
  wherever an application button goes down.

`common.dfy` (module `Common`) holds the vector and quaternion values and the
`Option`, `Result` and `Outcome` types. A thrown exception becomes an `Err` or
`Fail` value naming the error; every `catch` of the source is modelled
explicitly.

Components whose fields change in place are classes. Each has a value-level
twin: `Session` for `NormalisedCalibration` and `Projection` for
`SetupCalibration`, each with pure transition functions. The methods are
proved to follow those functions, and the lemmas state the properties of the
functions.

The code is followed where it is surprising:

- `TouchpadIsDown` reads the application-menu bit of the *touched* mask.
- A reset keeps the finished floor calibration, so the component can be
  calibrated and calibrating at once.
- Lighthouse frames are always attached, because the pose handed to
  `GetLighthouseFrame` is never missing.
- The projection calibration fails with an index error when a loaded
  calibration holds fewer than four positions.
- A controller whose state or pose is missing gets a detached frame with
  every flag clear and no edges. A button held when the device drops
  therefore never reports a release, although the comment at
  OpenvrControllerManager.cs:189 describes an "all-released" diff for that
  case. `GetFrame` follows the code.

## Model

| member | source | states |
|---|---|---|
| Openvr.Buttons.IsKeyFrame | OpenvrControllerManager.cs:43-50 | a frame is a key frame iff some button was pressed or released in it |
| Openvr.WithEdgesGet | OpenvrControllerManager.cs:53-66 | after the diff, each button is its down state with the edge against the previous frame's down state of the same button |
| Openvr.KeyFrameIffChange | OpenvrControllerManager.cs:43-66 | a diffed frame is a key frame iff some button's down state differs from the previous frame's, both directions |
| Openvr.FirstFrameEdges | OpenvrControllerManager.cs:53-59 | with no previous frame nothing is released and every button that is down counts as pressed |
| Openvr.EdgesExclusive | OpenvrControllerManager.cs:62-66 | no button is ever both pressed and released |
| Openvr.ControllerFrame.constructor | OpenvrControllerManager.cs:12-41 | a new frame is detached, untracked, at the origin, with every button up |
| Openvr.ControllerFrame.SetDiff | OpenvrControllerManager.cs:62-66 | pressed iff down now and not before; released iff up now and down before; never both; an edge iff the state changed |
| Openvr.ControllerFrame.CalculateDiff | OpenvrControllerManager.cs:53-60 | the edges of all five buttons are recomputed against the last frame (all up when it is null); pose, axes and down states are unchanged |
| Openvr.SetButton | OpenvrControllerManager.cs:176-181 | the bit test of any button: a mask containing the button's own bit reports it pressed and a mask without it reports it not pressed; so an empty mask reports nothing and a full one everything |
| Openvr.ButtonBitsDistinct | OpenvrControllerManager.cs:176-181 | the four button ids `GetFrame` tests select distinct bits: a one-button mask reports exactly its own button |
| Openvr.GetFrame | OpenvrControllerManager.cs:183-222 | a missing state or pose gives a detached default frame that is no key frame; otherwise the frame is attached, tracking iff the pose is valid, the touchpad y axis negated, buttons read from the masks and diffed against the last frame |
| Openvr.LighthouseFrame.IsKeyFrame | OpenvrControllerManager.cs:81-84 | a lighthouse frame is never a key frame |
| Openvr.GetLighthouseFrame | OpenvrControllerManager.cs:224-243 | attached iff a pose is given, tracking iff that pose is valid, and the pose is copied |
| Openvr.ClassifyDevices | OpenvrControllerManager.cs:286-296 | the controller list holds exactly the controller and generic-tracker indices, the lighthouse list exactly the tracking-reference indices, both ascending, and no index is in both |
| Openvr.PreviousFrame | OpenvrControllerManager.cs:307-312 | the previous frame is the entry at the same list position, and null exactly when there was no previous list or it is too short |
| Openvr.CanTryReinit | OpenvrControllerManager.cs:118-120 | re-initialisation is allowed before the first attempt and afterwards only once more than the delay has passed |
| Openvr.ValidCountIsHighestPlusOne | OpenvrControllerManager.cs:281-324 | `ValidCount` is 0 iff no controller is attached or had a previous frame; otherwise it is one more than the highest such device index and above every such index |
| Openvr.ReadControllerFrames | OpenvrControllerManager.cs:302-324 | one fresh frame per controller index, in order, each read from its device (or detached) with the predicted or queried pose and diffed against the previous frame at the same position; `ValidCount` as above |
| Openvr.ReadControllerFrame | OpenvrControllerManager.cs:304-323 | the frame of one controller, and whether it counts towards `ValidCount` (attached or had a previous frame) |
| Openvr.ReadLighthouseFrames | OpenvrControllerManager.cs:326-338 | one frame per lighthouse index, in order, from the predicted pose or an unset one, always attached |
| Openvr.ReadDevices | OpenvrControllerManager.cs:277-338 | the device scan and both frame loops together produce exactly what `Publishes` describes |
| Openvr.OpenvrControllerManager.constructor | OpenvrControllerManager.cs:99-118 | a new manager has no system, no init time and no previous frames |
| Openvr.OpenvrControllerManager.Update | OpenvrControllerManager.cs:255-344 | skipped in the editor when not playing; without a system, tries `Init` only when the back-off allows and records the attempt time; publishes iff a system is available, and then the published frames become the previous frames |
| Calibration.GetEditingLocalPositions | Calibration/NormalisedCalibration.cs:16-25 | the local corners in editing order: (0,0), (1,0), (1,1), (0,1) |
| Calibration.EditingOrderCoversCorners | Calibration/NormalisedCalibration.cs:74-81 | the editing order names every corner exactly once |
| Calibration.EditingOrderWalksPerimeter | Calibration/NormalisedCalibration.cs:16-25 | a property of the corner table: consecutive corners of the editing order share a side, so clicking them in order walks round the square |
| Calibration.PendingSlots.GetEditingIndex | Calibration/NormalisedCalibration.cs:74-81 | the editing index is the position of the first empty corner in editing order, every earlier corner is set, and 4 means none is empty |
| Calibration.PendingSlots.IsFinished | Calibration/NormalisedCalibration.cs:93-96 | finished iff every corner is set |
| Calibration.PendingSlots.GetCalibrationParameters | Calibration/NormalisedCalibration.cs:98-106 | each set corner is copied and each empty one becomes the zero vector |
| Calibration.PendingSlots.SetNext | Calibration/NormalisedCalibration.cs:83-91 | fails iff every corner is set; otherwise sets exactly the corner at the editing index and keeps the others |
| Calibration.SetNextFillsInOrder | Calibration/NormalisedCalibration.cs:74-96 | with the first n corners set, the editing index is n, finished iff n is 4, and one more position sets exactly the first n+1 |
| Calibration.FillFromEmpty | Calibration/NormalisedCalibration.cs:83-96 | from empty, the k-th position fills the k-th corner of the editing order; the index runs 0 to 4 and finishes only after the fourth |
| Calibration.FifthClickFails | Calibration/NormalisedCalibration.cs:89-90 | a fifth position after four throws "There is no current editing position" |
| Calibration.FourClicksCalibration | Calibration/NormalisedCalibration.cs:98-106 | four positions give the calibration front-left, front-right, back-right, back-left in click order |
| Calibration.PendingFloorCalibration.constructor | Calibration/NormalisedCalibration.cs:66-72 | a new pending calibration has every corner empty |
| Calibration.PendingFloorCalibration.SetNextEditingPosition | Calibration/NormalisedCalibration.cs:83-91 | the slots become those of `SetNext`; when full it fails and leaves every slot as it was |
| Calibration.Inputs | Calibration/NormalisedCalibration.cs:279-292 | per controller, what the update reads of it: nothing exactly when it is null, detached or untracked; otherwise its application button's held and pressed flags and its position |
| Calibration.ClickWithoutPending | Calibration/NormalisedCalibration.cs:209-217 | a click with nothing pending changes nothing |
| Calibration.ClickWhilePending | Calibration/NormalisedCalibration.cs:209-230 | a click on a pending calibration never fails and sets the just-finished flag with one changed event; it saves iff it fills the last corner, which installs the calibration and clears the pending one; any other click keeps the calibration, records the position at the editing corner and moves the editing index on by one; validity is kept |
| Calibration.ResetKeepsCalibration | Calibration/NormalisedCalibration.cs:203-207 | a reset starts an empty pending calibration and keeps the finished one, so calibrated and calibrating can hold at once |
| Calibration.RecalibrateWithFourClicks | Calibration/NormalisedCalibration.cs:203-230 | after a reset, four clicks install the calibration made of them, clear the pending one and save once |
| Calibration.ClicksFromReset | Calibration/NormalisedCalibration.cs:209-226 | fewer than four clicks after a reset fill the pending corners in order without touching the finished calibration or saving |
| Calibration.HoldIgnoresOtherControllers | Calibration/NormalisedCalibration.cs:235-238 | a hold owned by one controller ignores every other controller |
| Calibration.ReleaseRule | Calibration/NormalisedCalibration.cs:240-258 | a release clears the hold and the just-finished flag, and loads the next scene iff the hold never fired, nothing is pending, no click just happened and the setting asks for it |
| Calibration.HoldFiresOnce | Calibration/NormalisedCalibration.cs:260-271 | a held button resets the calibration iff its hold has not fired and has lasted longer than the duration; a hold that fired changes nothing more |
| Calibration.HoldResetsAtMostOnce | Calibration/NormalisedCalibration.cs:260-271 | however many updates the button stays down, one hold resets the calibration at most once |
| Calibration.HoldKeepsValid | Calibration/NormalisedCalibration.cs:232-272 | a hold update keeps the pending corners filled in order |
| Calibration.ControllersUpdateKeepsValid | Calibration/NormalisedCalibration.cs:274-300 | a whole controller update keeps the pending corners filled in order |
| Calibration.NormalisedCalibration.constructor | Calibration/NormalisedCalibration.cs:114-158 | the inspector defaults: height scalar 1, hold 2, next scene on a short press, floor plane, nothing calibrated or pending; the component invariant `Valid` holds |
| Calibration.NormalisedCalibration.GetNormalisedPosition | Calibration/NormalisedCalibration.cs:181-192 | fails with "Calibration not configured" iff uncalibrated; otherwise the world position mapped through the calibration |
| Calibration.NormalisedCalibration.GetFloorPosition | Calibration/NormalisedCalibration.cs:160-163 | the x and z of the normalised position, failing when it fails |
| Calibration.NormalisedCalibration.GetWallPosition | Calibration/NormalisedCalibration.cs:165-168 | the x and y of the normalised position, failing when it fails |
| Calibration.NormalisedCalibration.GetNormalisedPosition2D | Calibration/NormalisedCalibration.cs:170-178 | the floor or wall position according to the plane; fails iff uncalibrated |
| Calibration.NormalisedCalibration.ResetCalibration | Calibration/NormalisedCalibration.cs:203-207 | the state becomes `Reset` of the old state, with a fresh pending calibration; `Valid` holds afterwards |
| Calibration.NormalisedCalibration.SaveCalibration | Calibration/NormalisedCalibration.cs:320-325 | one more save; nothing else changes, so `Valid` is kept |
| Calibration.NormalisedCalibration.LoadCalibration | Calibration/NormalisedCalibration.cs:328-334 | the stored calibration (or none) replaces the current one, with one changed event; `Valid` is kept |
| Calibration.NormalisedCalibration.OnCalibrationClick | Calibration/NormalisedCalibration.cs:209-230 | the state and outcome are `Click` of the old state; `Valid` is kept |
| Calibration.NormalisedCalibration.UpdateCalibrationHold | Calibration/NormalisedCalibration.cs:232-272 | the state becomes `Hold` of the old state; `Valid` is kept |
| Calibration.NormalisedCalibration.OnControllersUpdate | Calibration/NormalisedCalibration.cs:274-300 | the state becomes the hold and click rules applied to every controller in list order; a failing click is caught and the loop goes on; `Valid` is kept |
| ProjectionCalibration.StateIndex | ProjectionCalibration/SetupCalibration.cs:42-49 | the corners are 0 to 3 and only `Finished` is 4 |
| ProjectionCalibration.StateOf | ProjectionCalibration/SetupCalibration.cs:88 | the cast back from an integer is the inverse of `StateIndex` |
| ProjectionCalibration.TargetsFollowEditingOrder | ProjectionCalibration/SetupCalibration.cs:54 | the targets are (0,0), (1,0), (1,1), (0,1), the floor calibration's local corners in editing order, and each uv carries its corner's index |
| ProjectionCalibration.QuadIndexes | ProjectionCalibration/SetupCalibration.cs:178-185 | the quad is two triangles over the four corners that share the diagonal 0-2 |
| ProjectionCalibration.SlotOf | ProjectionCalibration/SetupCalibration.cs:80-84 | the slot a click writes is below 4 |
| ProjectionCalibration.CycleFromTopLeft | ProjectionCalibration/SetupCalibration.cs:78-96 | from the top-left corner the state cycles with period 4 through the corners and `Finished`, and every fourth click saves |
| ProjectionCalibration.FinishedRestartsCycle | ProjectionCalibration/SetupCalibration.cs:80-81 | after any click, a finished calibration behaves as a fresh one |
| ProjectionCalibration.ClickRule | ProjectionCalibration/SetupCalibration.cs:78-96 | with four slots a click writes exactly the current corner's slot (slot 0 when finished), moves to the next state, and saves iff that state is `Finished` |
| ProjectionCalibration.ClickAllFollowsCycle | ProjectionCalibration/SetupCalibration.cs:78-96 | with four slots, any number of clicks follows the state cycle and saves as often as it says |
| ProjectionCalibration.FullRound | ProjectionCalibration/SetupCalibration.cs:78-96 | four clicks from the top-left corner or from `Finished` store exactly the four positions, end `Finished` and save once |
| ProjectionCalibration.Presses | ProjectionCalibration/SetupCalibration.cs:100-106 | one entry per controller: present exactly when the controller is non-null and its application button went down this frame, and then its position |
| ProjectionCalibration.PressedGrows | ProjectionCalibration/SetupCalibration.cs:100-106 | later controllers only add presses: a prefix of the list never has more |
| ProjectionCalibration.ClickAllStopsAt | ProjectionCalibration/SetupCalibration.cs:100-106 | a click that throws at some controller decides the outcome of the whole list, and at least one controller clicked |
| ProjectionCalibration.ClickAllStops | ProjectionCalibration/SetupCalibration.cs:100-106 | once a click throws, later pressed controllers click no more |
| ProjectionCalibration.SetupCalibration.constructor | ProjectionCalibration/SetupCalibration.cs:51-54 | a new component is at the top-left corner with four zero positions |
| ProjectionCalibration.SetupCalibration.SaveCalibration | ProjectionCalibration/SetupCalibration.cs:63-76 | one more save; nothing else changes |
| ProjectionCalibration.SetupCalibration.UpdateCalibrationTarget | ProjectionCalibration/SetupCalibration.cs:149-168 | target and canvas are shown iff a corner is being calibrated, and the target is at that corner's uv |
| ProjectionCalibration.SetupCalibration.CreateScreenQuad | ProjectionCalibration/SetupCalibration.cs:170-196 | the quad is the stored positions with the corner uvs and the two triangles |
| ProjectionCalibration.SetupCalibration.UpdateCalibration | ProjectionCalibration/SetupCalibration.cs:78-96 | the state and outcome are `Click` of the old state; a successful click leaves target and quad showing the new state |
| ProjectionCalibration.SetupCalibration.ClickPressed | ProjectionCalibration/SetupCalibration.cs:100-106 | the pressed controllers click in list order, stopping at the first failure; with no press the target, canvas, uv and quad are untouched, and after clicks that all succeed they show the current corner and the stored positions |
| ProjectionCalibration.SetupCalibration.ClickIfPressed | ProjectionCalibration/SetupCalibration.cs:102-105 | a click at the controller's position iff it is non-null and its application button went down; without a press or after a failing click the target, canvas, uv and quad are untouched, and a successful click refreshes them |
| ProjectionCalibration.SetupCalibration.ClickStep | ProjectionCalibration/SetupCalibration.cs:100-106 | one turn of the click loop: the clicked positions grow by this controller's press, the state and outcome are the clicks so far from the start, and the display is untouched until the first click and refreshed after each successful one |
| ProjectionCalibration.SetupCalibration.OnControllerUpdate | ProjectionCalibration/SetupCalibration.cs:98-146 | the clicks, then, only when finished and no click failed, one player frame per controller; a null controller in that second loop throws; with no press the target, canvas, uv and quad are untouched, and when every click succeeds they show the current corner and the stored positions |
| ProjectionCalibration.SetupCalibration.OnEnable | ProjectionCalibration/SetupCalibration.cs:198-213 | a successful load installs the positions and `Finished`; a failed one keeps both; target and quad are refreshed either way |
| ProjectionCalibration.PlayerFrames | ProjectionCalibration/SetupCalibration.cs:113-142 | fails with a null reference iff some controller is null; otherwise pairs every controller with its screen hit, in order |
| Tracking.SelectedFrame | Calibration/ControllerTracker.cs:94 | the lookup fails iff the index is out of range or the entry is null |
| Tracking.TrackFailure | Calibration/ControllerTracker.cs:107-111 | a failed lookup hides the tracker and releases its grip, keeping its transform, with no event |
| Tracking.TrackCopiesFrame | Calibration/ControllerTracker.cs:94-102 | a frame that is read gives its pose and grip state, and the tracker is active iff the frame is attached and tracking |
| Tracking.TrackEventIffActive | Calibration/ControllerTracker.cs:99-105 | `OnTrackingPosition` fires iff the tracker ends up active, with its new position |
| Tracking.TrackIdempotent | Calibration/ControllerTracker.cs:89-112 | an extra fact about the model rather than a promise of the code: applying the same frame twice leaves the tracker as applying it once |
| Tracking.MoveOf | Calibration/ControllerTracker.cs:76-86 | `OnMove` fires iff there is a calibration component and it is calibrated, with the normalised position |
| Tracking.ControllerTracker.constructor | Calibration/ControllerTracker.cs:20-31 | a new tracker has no grip and keeps its object's active flag and transform |
| Tracking.ControllerTracker.UpdatePosition | Calibration/ControllerTracker.cs:89-112 | the new tracker state and event are `Track` of the selected frame |
| Tracking.ControllerTracker.Update | Calibration/ControllerTracker.cs:64-87 | the position `OnMove` receives is `MoveOf` the calibration and the tracker's position |
| CalibrationShader.TypeCodes | Calibration/UpdateCalibrationShader.cs:40-47 | the type codes are 0 to 3, distinct and below `TYPE_COUNT` |
| CalibrationShader.EditingIndex | Calibration/UpdateCalibrationShader.cs:76-90 | the index is -1 iff nothing is pending or calibrated, 4 iff the pending calibration is finished (or, with nothing pending, a calibration exists), and always between -1 and 4 |
| CalibrationShader.PendingTakesPrecedence | Calibration/UpdateCalibrationShader.cs:78-86 | a pending calibration decides the index whether or not a finished one exists |
| CalibrationShader.OneEditingSlot | Calibration/UpdateCalibrationShader.cs:92-100 | exactly one slot is being edited iff the index is 0 to 3, and no slot is ever `TYPE_NULL` |
| CalibrationShader.NoPendingSlots | Calibration/UpdateCalibrationShader.cs:83-100 | calibrated with nothing pending shows every slot captured; neither shows every slot inactive |
| CalibrationShader.SlotTypesFollowPending | Calibration/UpdateCalibrationShader.cs:78-100 | while calibrating, a slot is shown captured iff its corner is set, and the edited slot is an empty corner |
| CalibrationShader.CalibrationPoints | Calibration/UpdateCalibrationShader.cs:102-106 | four points, slot i at the i-th editing local position with slot i's type |
| CalibrationShader.SlotTypes | Calibration/UpdateCalibrationShader.cs:92-100 | a fresh array of four slot types: captured below the index, editing at it, inactive above |
| CalibrationShader.EmptyTrackersShow | Calibration/UpdateCalibrationShader.cs:110-136 | an empty tracked-object list has no active object, so the overlay is shown |
| CalibrationShader.NoTrackersShow | Calibration/UpdateCalibrationShader.cs:76-90 | without a tracked-object list the overlay is hidden iff a calibration is set and none is pending |
| CalibrationShader.ObjectPoint | Calibration/UpdateCalibrationShader.cs:119-129 | an object's point is skipped iff the calibration cannot map it; its type is active iff the object is active |
| CalibrationShader.UpdateCalibrationShader.constructor | Calibration/UpdateCalibrationShader.cs:7-8 | no tracked-object list before `OnEnable` |
| CalibrationShader.UpdateCalibrationShader.OnEnable | Calibration/UpdateCalibrationShader.cs:35-38 | the tracked-object list becomes the trackers found |
| CalibrationShader.UpdateCalibrationShader.UpdateNormalisedCalibration | Calibration/UpdateCalibrationShader.cs:52-141 | a missing calibration component throws before anything is written, leaving both point lists empty; without an object tracker no object points are written; otherwise the slot points, the object points and the image's enabled flag follow the rules above, the flag being `ShowCalibration` or `AlwaysVisible` |
| CalibrationShader.TrackedObjects | Calibration/UpdateCalibrationShader.cs:110-134 | some grip held and some object active are computed over every object, including those whose mapping throws, and each object gets its point |
| ControllerDebugging.DecimalString | ControllerDebug.cs:24 | a number's decimal string is never empty and has one digit iff the number is below 10 |
| ControllerDebugging.DecimalStringInjective | ControllerDebug.cs:24 | different numbers have different decimal strings |
| ControllerDebugging.CloneNamesDistinct | ControllerDebug.cs:22-24 | padding objects for different indices get different names |
| ControllerDebugging.Padded | ControllerDebug.cs:19-27 | padding keeps the old entries and adds, up to the wanted length, hidden clones at the template position named after their index |
| ControllerDebugging.ObjectsThroughAt | ControllerDebug.cs:47-61 | after n frames entry k is the old entry or a padding clone, updated by frame k when k < n; a null frame changes nothing |
| ControllerDebugging.ShownKeepsName | ControllerDebug.cs:32-36 | an update keeps the object's name and sets its active flag and position from a non-null frame |
| ControllerDebugging.DotsThroughAppends | ControllerDebug.cs:38-61 | handling frames only appends dots: the old ones stay, followed by one per frame whose application button went down, in order |
| ControllerDebugging.DotsForPressed | ControllerDebug.cs:38-44 | one dot for a frame whose application button went down, none otherwise or for a null frame |
| ControllerDebugging.ControllerDebug.constructor | ControllerDebug.cs:7-12 | no object list and no dots yet |
| ControllerDebugging.ControllerDebug.GetControllerObject | ControllerDebug.cs:14-30 | the list is created if null and padded to cover the index; a negative index throws on the lookup |
| ControllerDebugging.ControllerDebug.UpdateController | ControllerDebug.cs:32-45 | the entry is shown iff the frame is attached and moved to the frame's position, and a dot is spawned iff the application button went down; a null frame throws first and changes nothing |
| ControllerDebugging.ControllerDebug.UpdateControllers | ControllerDebug.cs:47-61 | the list and dots become `ObjectsThrough` and `DotsThrough` of the frames; a throw for one frame skips only that frame, and no frames leaves the list untouched |
| ControllerDebugging.ControllerDebug.UpdateAt | ControllerDebug.cs:51-55 | one turn of the loop: the list grown to cover the index, that entry updated by the frame, its dot appended |

## Left out

- Calibration/PopHomography.cs is not part of this model. The homography solve, `GetWorldToLocalTransform`, `GetWorldToLocal`, `GetLocalHeight`, `GetMidHeight` and `GetHeightRange` are float geometry. They are the function parameter `toLocal`, which receives the calibration, the world position and `HeightScalar`.
- `RigidTransform`, `GetRotation`, `GetPosition` and `_copysign` convert OpenVR matrices with float arithmetic. The model's `Pose` is the converted result.
- OpenVR calls (`OpenVR.Init`, `GetDeviceToAbsoluteTrackingPose`, `GetTrackedDeviceClass`, `GetControllerStateWithPose`) and `Marshal.SizeOf` are foreign calls. Their answers are parameters of `Update`. `TrackingOrigin` and `PredictedPosePhotoDelay` only reach those calls.
- Unity events (`OnUpdateAll`, `OnPreUpdateAll`, `OnUpdateLighthouses`, `OnMove`, `OnTrackingPosition`, `OnCalibrationSaved`) are modelled as returned values. A listener that changes the frames it receives, and the listener wiring in `Start`, `OnEnable` and `OnDisable`, are not modelled.
- `PlayerPrefs`, JSON and the calibration file are I/O. Saves are counted in ghost state, and what a load reads is a parameter. Changed events and next-scene loads are counted the same way.
- `NormalisedCalibration.Update` is left out: `QuitOnAnyKey`, `QuitAppKeys` and `Application.Quit` are keyboard input and application control.
- Logging (`Debug.Log`, `DebugState`) is left out.
- Time is an integer: `Time.time`, `HoldToRecalibrateDuration` and `ReInitialiseDelaySecs` are floats in the source.
- The "Unknown plane" exception of `GetNormalisedPosition2D` is not modelled, because the plane enumeration has only the two values modelled.
- `FindNewBounds` has its body commented out, so `LastBounds`, `SetNewBounds`, `SetNoBounds` and `OnEnter` play no part.
- `FindObjectsOfTypeIncludingDisabled` and `FindObjectOfType` search the scene. What they find is a parameter.
- `activeInHierarchy` is modelled as the tracker's own active flag, because parents are not modelled. A destroyed tracker is not modelled.
- `Material.SetVector` and the uniform names are modelled as the returned calibration and object points.
- The raycast against the screen quad, `ControllerPitchTilt`, `TargetIsCanvas` and the viewport mapping are the function parameter `screenHit`. The mesh collider lookup and the mesh name are not modelled.
- ControllerDebugging.ControllerDebug.UpdateController: does not model `localRotation = Frame.Rotation * TemplateInitialRotation`, because quaternion multiplication is float arithmetic. `ControllerDebug.OnEnable` only deactivates the templates and records that rotation, so it is left out too.
- Scene objects of the debug view are values held in the list. Aliasing between the list's objects and objects elsewhere in the scene is not captured, and neither is a missing `DotTemplate` making `Instantiate` throw.
- Openvr.ValidCountIsHighestPlusOne: `ValidCount` is computed by the source but never read after the loop. The model proves what it holds and does not model the 32-bit cast in `(int)i + 1`, which cannot overflow for indices below 16.
