/**
  The calibration overlay (Calibration/UpdateCalibrationShader.cs): which of
  the four floor corners are shown as captured, being edited or still to
  do, where the tracked objects are drawn, and whether the overlay image is
  shown at all.

  `Material.SetVector` is modelled by returning the points that would be
  written to the `CalibrationPos<i>` and `ObjectPos<i>` uniforms.
 */
module CalibrationShader {
  import opened Common
  import Calibration
  import Tracking

  /** `ShaderObjectType`. */
  datatype ShaderObjectType = TypeNull | TypeActive | TypeInactive | TypeEditing

  /** The number the shader receives for a type. */
  function TypeCode(t: ShaderObjectType): nat
  {
    match t
    case TypeNull => 0
    case TypeActive => 1
    case TypeInactive => 2
    case TypeEditing => 3
  }

  /** `TYPE_COUNT`. */
  const TypeCount: nat := 4

  /** The codes are 0, 1, 2 and 3, one per type, all below `TYPE_COUNT`. */
  lemma TypeCodes()
    ensures TypeCode(TypeNull) == 0 && TypeCode(TypeActive) == 1
    ensures TypeCode(TypeInactive) == 2 && TypeCode(TypeEditing) == 3
    ensures forall s, t :: TypeCode(s) == TypeCode(t) ==> s == t
    ensures forall t :: TypeCode(t) < TypeCount
  {
  }

  /** The number of calibration slots the shader draws. */
  const SlotCount: nat := 4

  /**
    The editing index: the pending calibration's editing index when there is
    one, 4 when only a finished calibration exists, and -1 when there is
    neither.
   */
  function EditingIndex(pending: Option<Calibration.PendingSlots>, calibrated: bool): (e: int)
    ensures -1 <= e <= SlotCount
    ensures e == -1 <==> pending.None? && !calibrated
    ensures e == SlotCount <==> if pending.Some? then pending.value.IsFinished() else calibrated
  {
    if pending.Some? then pending.value.GetEditingIndex()
    else if calibrated then 4
    else -1
  }

  /** A pending calibration decides the index whether or not a finished one exists. */
  lemma PendingTakesPrecedence(p: Calibration.PendingSlots)
    ensures EditingIndex(Some(p), true) == EditingIndex(Some(p), false) == p.GetEditingIndex()
  {
  }

  /** The type of calibration slot `i` for editing index `e`. */
  function SlotType(i: int, e: int): ShaderObjectType
  {
    if i < e then TypeActive
    else if i == e then TypeEditing
    else TypeInactive
  }

  /** Exactly one slot is being edited when `0 <= e <= 3`, and none otherwise; no slot is ever `TypeNull`. */
  lemma OneEditingSlot(e: int)
    ensures 0 <= e < SlotCount ==> forall i :: 0 <= i < SlotCount ==> (SlotType(i, e) == TypeEditing <==> i == e)
    ensures !(0 <= e < SlotCount) ==> forall i :: 0 <= i < SlotCount ==> SlotType(i, e) != TypeEditing
    ensures forall i :: SlotType(i, e) != TypeNull
  {
  }

  /** Calibrated with nothing pending: every slot is captured. Neither: every slot is still to do. */
  lemma NoPendingSlots(i: int)
    requires 0 <= i < SlotCount
    ensures SlotType(i, EditingIndex(None, true)) == TypeActive
    ensures SlotType(i, EditingIndex(None, false)) == TypeInactive
  {
  }

  /**
    While calibrating, a slot is shown captured exactly when its corner is
    set, provided the corners were set in editing order, and the slot being
    edited is always an empty corner.
   */
  lemma SlotTypesFollowPending(p: Calibration.PendingSlots, n: nat, i: nat)
    requires n <= |Calibration.EditingOrder| && p.FilledUpTo(n)
    requires i < SlotCount
    ensures SlotType(i, EditingIndex(Some(p), false)) == TypeActive <==> p.At(Calibration.EditingOrder[i]).Some?
    ensures SlotType(i, EditingIndex(Some(p), false)) == TypeEditing ==> p.At(Calibration.EditingOrder[i]).None?
  {
  }

  /** A point written to a shader uniform: a position in the unit square and its type. */
  datatype ShaderPoint = ShaderPoint(position: Vec2, objectType: ShaderObjectType)

  /** The points of the `CalibrationPos<i>` uniforms: slot `i` at the `i`-th editing local position. */
  function CalibrationPoints(e: int): (r: seq<ShaderPoint>)
    ensures |r| == SlotCount
    ensures forall i :: 0 <= i < SlotCount ==>
              r[i].position == Calibration.LocalPosition(Calibration.EditingOrder[i]) && r[i].objectType == SlotType(i, e)
  {
    var positions := Calibration.GetEditingLocalPositions();
    seq(SlotCount, i requires 0 <= i < SlotCount => ShaderPoint(positions[i], SlotType(i, e)))
  }

  /** The array of slot types the calibration block fills. */
  method SlotTypes(e: int) returns (types: array<ShaderObjectType>)
    ensures fresh(types) && types.Length == SlotCount
    ensures forall i :: 0 <= i < SlotCount ==> types[i] == SlotType(i, e)
  {
    types := new ShaderObjectType[SlotCount];
    for i := 0 to types.Length
      invariant forall k :: 0 <= k < i ==> types[k] == SlotType(k, e)
    {
      if i < e {
        types[i] := TypeActive;
      } else if i == e {
        types[i] := TypeEditing;
      } else {
        types[i] := TypeInactive;
      }
    }
  }

  /** Some tracked object holds its grip. */
  predicate AnyGrip(trackers: seq<Tracking.ControllerTracker>)
    reads set k | 0 <= k < |trackers| :: trackers[k]
  {
    exists k :: 0 <= k < |trackers| && trackers[k].gripDown
  }

  /** Some tracked object is active. */
  predicate AnyActive(trackers: seq<Tracking.ControllerTracker>)
    reads set k | 0 <= k < |trackers| :: trackers[k]
  {
    exists k :: 0 <= k < |trackers| && trackers[k].active
  }

  /**
    The `ShowCalibration` decision: shown while calibrating or uncalibrated;
    with a tracked-object list, also while some object holds its grip or
    none is active.
   */
  function ShowCalibration(calibrating: bool, calibrated: bool, trackers: Option<seq<Tracking.ControllerTracker>>): bool
    reads if trackers.Some? then set k | 0 <= k < |trackers.value| :: trackers.value[k] else {}
  {
    || calibrating || !calibrated
    || (trackers.Some? && (AnyGrip(trackers.value) || !AnyActive(trackers.value)))
  }

  /** An empty tracked-object list has no active object, so it always shows the overlay. */
  lemma EmptyTrackersShow(calibrating: bool, calibrated: bool)
    ensures ShowCalibration(calibrating, calibrated, Some([]))
  {
  }

  /**
    Without a tracked-object list the overlay is hidden exactly when a
    calibration is set and none is pending.
   */
  lemma NoTrackersShow(calibrating: bool, calibrated: bool)
    ensures !ShowCalibration(calibrating, calibrated, None) <==> calibrated && !calibrating
  {
  }

  /** The point of tracked object `t`'s `ObjectPos` uniform, or `None` when its lookup throws. */
  function ObjectPoint(c: Calibration.NormalisedCalibration, t: Tracking.ControllerTracker,
                       toLocal: (Calibration.FloorCalibration, Vec3, real) -> Vec3): (r: Option<ShaderPoint>)
    reads c, t
    ensures r.None? <==> !c.IsCalibrated()
    ensures r.Some? ==> r.value.objectType == (if t.active then TypeActive else TypeInactive)
  {
    match c.GetNormalisedPosition2D(t.position, toLocal)
    case Err(_) => None
    case Ok(p) => Some(ShaderPoint(p, if t.active then TypeActive else TypeInactive))
  }

  /** `UpdateCalibrationShader`: the overlay image and its tracked objects. */
  class UpdateCalibrationShader {
    var alwaysVisible: bool
    /** `TrackObjects`: null until `OnEnable`. */
    var trackObjects: Option<seq<Tracking.ControllerTracker>>
    /** `RawImage.enabled`. */
    var rawImageEnabled: bool

    constructor (alwaysVisible: bool, rawImageEnabled: bool)
      ensures this.alwaysVisible == alwaysVisible && this.rawImageEnabled == rawImageEnabled
      ensures trackObjects.None?
    {
      this.alwaysVisible := alwaysVisible;
      this.rawImageEnabled := rawImageEnabled;
      trackObjects := None;
    }

    /** `OnEnable`: remembers every tracker in the scene, found by the caller. */
    method OnEnable(found: seq<Tracking.ControllerTracker>)
      modifies this
      ensures trackObjects == Some(found)
      ensures alwaysVisible == old(alwaysVisible) && rawImageEnabled == old(rawImageEnabled)
    {
      trackObjects := Some(found);
    }

    /**
      `UpdateNormalisedCalibration`. A missing calibration component throws
      at its first use, before anything is written. Otherwise the slots'
      points are written, then each tracked object's point where the
      calibration can map it, and the overlay is shown or hidden.
     */
    method UpdateNormalisedCalibration(calibration: Calibration.NormalisedCalibration?,
                                       toLocal: (Calibration.FloorCalibration, Vec3, real) -> Vec3)
      returns (outcome: Outcome, calibrationPoints: seq<ShaderPoint>, objectPoints: seq<Option<ShaderPoint>>)
      modifies this
      ensures alwaysVisible == old(alwaysVisible) && trackObjects == old(trackObjects)
      ensures calibration == null ==> outcome == Fail(NullReference) && rawImageEnabled == old(rawImageEnabled)
                                      && calibrationPoints == [] && objectPoints == []
      ensures trackObjects.None? ==> objectPoints == []
      ensures calibration != null ==>
                && outcome == Pass
                && calibrationPoints == CalibrationPoints(EditingIndex(
                     if calibration.pendingCalibrationParams == null then None
                     else Some(calibration.pendingCalibrationParams.Slots()),
                     calibration.IsCalibrated()))
                && (trackObjects.Some? ==>
                      && |objectPoints| == |trackObjects.value|
                      && forall k :: 0 <= k < |objectPoints| ==>
                           objectPoints[k] == ObjectPoint(calibration, trackObjects.value[k], toLocal))
                && rawImageEnabled == (ShowCalibration(calibration.IsCalibrating(), calibration.IsCalibrated(), trackObjects)
                                       || alwaysVisible)
    {
      outcome, calibrationPoints, objectPoints := Pass, [], [];
      if calibration == null {
        outcome := Fail(NullReference);
        return;
      }
      var showCalibration := false;
      var editingIndex: int := -1;
      if calibration.pendingCalibrationParams != null {
        showCalibration := true;
        editingIndex := calibration.pendingCalibrationParams.Slots().GetEditingIndex();
      } else if calibration.calibrationParams.Some? {
        editingIndex := 4;
      } else {
        showCalibration := true;
      }
      var types := SlotTypes(editingIndex);
      var positions := Calibration.GetEditingLocalPositions();
      calibrationPoints := seq(SlotCount, i requires 0 <= i < SlotCount reads types => ShaderPoint(positions[i], types[i]));
      if trackObjects.Some? {
        var anyActive, anyGrip;
        anyActive, anyGrip, objectPoints := TrackedObjects(calibration, trackObjects.value, toLocal);
        showCalibration := showCalibration || anyGrip || !anyActive;
      }
      rawImageEnabled := showCalibration || alwaysVisible;
    }
  }

  /**
    The loop over the tracked objects: every object counts towards "some
    grip held" and "some object active", and each object's point is written
    unless mapping its position throws, which skips that object only.
   */
  method TrackedObjects(calibration: Calibration.NormalisedCalibration, trackers: seq<Tracking.ControllerTracker>,
                        toLocal: (Calibration.FloorCalibration, Vec3, real) -> Vec3)
    returns (anyActive: bool, anyGrip: bool, points: seq<Option<ShaderPoint>>)
    ensures anyActive == AnyActive(trackers) && anyGrip == AnyGrip(trackers)
    ensures |points| == |trackers|
    ensures forall k :: 0 <= k < |points| ==> points[k] == ObjectPoint(calibration, trackers[k], toLocal)
  {
    anyActive, anyGrip, points := false, false, [];
    for i := 0 to |trackers|
      invariant anyActive <==> exists k :: 0 <= k < i && trackers[k].active
      invariant anyGrip <==> exists k :: 0 <= k < i && trackers[k].gripDown
      invariant |points| == i
      invariant forall k :: 0 <= k < i ==> points[k] == ObjectPoint(calibration, trackers[k], toLocal)
    {
      var tracker := trackers[i];
      var active := tracker.active;
      anyGrip := anyGrip || tracker.gripDown;
      anyActive := anyActive || active;
      var floorPos := calibration.GetNormalisedPosition2D(tracker.position, toLocal);
      if floorPos.Ok? {
        points := points + [Some(ShaderPoint(floorPos.value, if active then TypeActive else TypeInactive))];
      } else {
        points := points + [None];
      }
    }
  }
}
