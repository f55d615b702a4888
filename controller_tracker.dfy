/**
  A scene object that follows one controller (Calibration/ControllerTracker.cs):
  it picks its frame by list index, copies the pose, shows itself only while
  the controller is tracked, remembers whether the grip is held, and reports
  its normalised position once the floor calibration is set.

  The bounds search of `FindNewBounds` is commented out in the source, so
  `LastBounds` is never set and plays no part here. Unity events are
  modelled by returning the value they would be invoked with.
 */
module Tracking {
  import opened Common
  import opened Openvr
  import Calibration

  /** The tracker's observable state: grip flag, active flag and transform. */
  datatype TrackerView = TrackerView(gripDown: bool, active: bool, position: Vec3, rotation: Quat)

  /**
    The frame at `index`, as a value, or `None` when the lookup throws:
    an index outside the list, or a null entry.
   */
  function SelectedFrame(controllers: seq<ControllerFrame?>, index: int): (r: Option<FrameValue>)
    reads set k | 0 <= k < |controllers| && controllers[k] != null :: controllers[k]
    ensures r.None? <==> !(0 <= index < |controllers|) || controllers[index] == null
    ensures r.Some? ==> r.value == controllers[index].Value()
  {
    if 0 <= index < |controllers| && controllers[index] != null then Some(controllers[index].Value()) else None
  }

  /**
    `UpdatePosition` on values: the new view and the position
    `OnTrackingPosition` is invoked with, if it is invoked.
   */
  function Track(v: TrackerView, frame: Option<FrameValue>): (TrackerView, Option<Vec3>)
  {
    match frame
    case None => (v.(gripDown := false, active := false), None)
    case Some(f) =>
      var tracking := f.attached && f.tracking;
      (TrackerView(f.buttons.gripButton.isDown, tracking, f.position, f.rotation),
       if tracking then Some(f.position) else None)
  }

  /** A failed lookup hides the tracker and releases its grip, keeping its transform. */
  lemma TrackFailure(v: TrackerView)
    ensures var (w, event) := Track(v, None);
            && !w.gripDown && !w.active && event.None?
            && w.position == v.position && w.rotation == v.rotation
  {
  }

  /**
    A frame that is read is copied whether or not it is tracking: the
    transform is the frame's pose, the grip flag is the grip button's down
    state, and the tracker is active exactly when the frame is attached and
    tracking.
   */
  lemma TrackCopiesFrame(v: TrackerView, f: FrameValue)
    ensures var (w, _) := Track(v, Some(f));
            && w.position == f.position && w.rotation == f.rotation
            && w.gripDown == f.buttons.gripButton.isDown
            && (w.active <==> f.attached && f.tracking)
  {
  }

  /** `OnTrackingPosition` fires exactly when the tracker ends up active, with the tracker's new position. */
  lemma TrackEventIffActive(v: TrackerView, frame: Option<FrameValue>)
    ensures var (w, event) := Track(v, frame);
            && (event.Some? <==> w.active)
            && (event.Some? ==> event.value == w.position)
  {
  }

  /** Applying the same frame twice leaves the tracker as applying it once. */
  lemma TrackIdempotent(v: TrackerView, frame: Option<FrameValue>)
    ensures Track(Track(v, frame).0, frame) == Track(v, frame)
  {
  }

  /** What `Update` invokes `OnMove` with: the normalised position when the calibration can give one, else nothing. */
  function MoveOf(calibration: Calibration.NormalisedCalibration?, position: Vec3,
                  toLocal: (Calibration.FloorCalibration, Vec3, real) -> Vec3): (r: Option<Vec3>)
    reads calibration
    ensures r.Some? <==> calibration != null && calibration.IsCalibrated()
    ensures r.Some? ==> r.value == toLocal(calibration.calibrationParams.value, position, calibration.heightScalar)
  {
    if calibration == null then None
    else match calibration.GetNormalisedPosition(position, toLocal)
      case Ok(p) => Some(p)
      case Err(_) => None
  }

  /** `ControllerTracker`. */
  class ControllerTracker {
    var controllerIndex: int
    var gripDown: bool
    /** `gameObject.activeSelf`. */
    var active: bool
    /** `transform.position`. */
    var position: Vec3
    /** `transform.rotation`. */
    var rotation: Quat

    /** A tracker for `controllerIndex`, with its object's initial active flag and transform. */
    constructor (controllerIndex: int, active: bool, position: Vec3, rotation: Quat)
      ensures this.controllerIndex == controllerIndex
      ensures View() == TrackerView(false, active, position, rotation)
    {
      this.controllerIndex := controllerIndex;
      gripDown := false;
      this.active, this.position, this.rotation := active, position, rotation;
    }

    function View(): TrackerView
      reads this
    {
      TrackerView(gripDown, active, position, rotation)
    }

    /**
      `UpdatePosition`: reads the frame at `controllerIndex`; a lookup that
      throws (index out of range, null frame) is caught and hides the
      tracker. Returns the position `OnTrackingPosition` is invoked with.
     */
    method UpdatePosition(controllers: seq<ControllerFrame?>) returns (trackingPosition: Option<Vec3>)
      modifies this
      ensures controllerIndex == old(controllerIndex)
      ensures (View(), trackingPosition) == Track(old(View()), SelectedFrame(controllers, controllerIndex))
    {
      trackingPosition := None;
      if !(0 <= controllerIndex < |controllers|) || controllers[controllerIndex] == null {
        gripDown := false;
        active := false;
        return;
      }
      var controller := controllers[controllerIndex];
      position := controller.position;
      rotation := controller.rotation;
      var tracking := controller.attached && controller.tracking;
      active := tracking;
      gripDown := controller.buttons.gripButton.isDown;
      if tracking {
        trackingPosition := Some(position);
      }
    }

    /**
      `Update`: the normalised position `OnMove` is invoked with; a missing
      calibration component or a calibration that is not configured throws
      inside the `try`, which swallows it, and nothing is invoked.
     */
    method Update(calibration: Calibration.NormalisedCalibration?,
                  toLocal: (Calibration.FloorCalibration, Vec3, real) -> Vec3) returns (move: Option<Vec3>)
      ensures move == MoveOf(calibration, position, toLocal)
    {
      move := None;
      if calibration == null {
        return;
      }
      var normal := calibration.GetNormalisedPosition(position, toLocal);
      if normal.Ok? {
        move := Some(normal.value);
      }
    }
  }
}
