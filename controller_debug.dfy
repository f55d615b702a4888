/**
  The controller debug view (ControllerDebug.cs): one clone of a template
  object per controller index, grown on demand, shown while its controller
  is attached and moved to its position, plus a dot left wherever an
  application button goes down.

  Scene objects are modelled as `DebugObject` values (name, active flag,
  local position) held in the list. `Instantiate` makes a new value whose
  name gets Unity's "(Clone)" suffix and which starts at the template's
  local position.
 */
module ControllerDebugging {
  import opened Common
  import opened Openvr

  /** The decimal digit for `d`. */
  function Digit(d: nat): char
    requires d < 10
  {
    "0123456789"[d]
  }

  /** `int.ToString()` for a non-negative number: its decimal digits, most significant first, no leading zeros. */
  function DecimalString(n: nat): (s: string)
    ensures |s| >= 1
    ensures n < 10 <==> |s| == 1
  {
    if n < 10 then [Digit(n)] else DecimalString(n / 10) + [Digit(n % 10)]
  }

  /** Different numbers have different decimal strings. */
  lemma {:induction false} DecimalStringInjective(m: nat, n: nat)
    requires DecimalString(m) == DecimalString(n)
    ensures m == n
    decreases m
  {
    if m >= 10 {
      var sm, sn := DecimalString(m), DecimalString(n);
      assert n >= 10;
      assert sm[..|sm| - 1] == DecimalString(m / 10);
      assert sn[..|sn| - 1] == DecimalString(n / 10);
      DecimalStringInjective(m / 10, n / 10);
      assert Digit(m % 10) == sm[|sm| - 1] == Digit(n % 10);
    }
  }

  /** The name `GetControllerObject` gives the padding object for index `k`. */
  function CloneName(templateName: string, k: nat): string
  {
    templateName + "(Clone)" + " " + DecimalString(k)
  }

  /** Every padding object is named after its own index: two indices never share a name. */
  lemma {:induction false} CloneNamesDistinct(templateName: string, k: nat, l: nat)
    requires k != l
    ensures CloneName(templateName, k) != CloneName(templateName, l)
  {
    var prefix := templateName + "(Clone)" + " ";
    if CloneName(templateName, k) == CloneName(templateName, l) {
      assert CloneName(templateName, k)[|prefix|..] == DecimalString(k);
      assert CloneName(templateName, l)[|prefix|..] == DecimalString(l);
      DecimalStringInjective(k, l);
    }
  }

  /** A scene object of the debug view: its name, `activeSelf` and local position. */
  datatype DebugObject = DebugObject(name: string, active: bool, localPosition: Vec3)

  /** A dot spawned from `DotTemplate`: its local position and rotation. */
  datatype Dot = Dot(position: Vec3, rotation: Quat)

  /** The frames of a list, as values; `None` for a null entry. */
  function FrameValues(frames: seq<ControllerFrame?>): (r: seq<Option<FrameValue>>)
    reads set k | 0 <= k < |frames| && frames[k] != null :: frames[k]
    ensures |r| == |frames|
    ensures forall k :: 0 <= k < |frames| ==> r[k] == if frames[k] == null then None else Some(frames[k].Value())
  {
    seq(|frames|, k requires 0 <= k < |frames| reads frames => if frames[k] == null then None else Some(frames[k].Value()))
  }

  /** The padding object for index `k`: a hidden clone of the template named after `k`. */
  function PaddingObject(templateName: string, templatePosition: Vec3, k: nat): DebugObject
  {
    DebugObject(CloneName(templateName, k), false, templatePosition)
  }

  /** The list after padding it to at least `n` entries. */
  function Padded(objects: seq<DebugObject>, templateName: string, templatePosition: Vec3, n: int): (r: seq<DebugObject>)
    ensures |r| == if n > |objects| then n else |objects|
    ensures r[..|objects|] == objects
    ensures forall k :: |objects| <= k < |r| ==> r[k] == PaddingObject(templateName, templatePosition, k)
  {
    objects + seq(if n > |objects| then n - |objects| else 0,
                  k requires 0 <= k => PaddingObject(templateName, templatePosition, |objects| + k))
  }

  /** `UpdateController` on values: a null frame throws before anything changes. */
  function Shown(v: DebugObject, frame: Option<FrameValue>): DebugObject
  {
    match frame
    case None => v
    case Some(f) => v.(active := f.attached, localPosition := f.position)
  }

  /** The dot `UpdateController` spawns for a frame: one exactly when its application button went down. */
  function DotsFor(frame: Option<FrameValue>): seq<Dot>
  {
    if frame.Some? && frame.value.buttons.appButton.pressed then [Dot(frame.value.position, frame.value.rotation)] else []
  }

  /**
    The list grown by one padding entry when it is `n - 1` entries long, as
    one more turn of the padding loop for index `n - 1` leaves it.
   */
  function Grown(objects: seq<DebugObject>, templateName: string, templatePosition: Vec3, n: nat): seq<DebugObject>
  {
    if |objects| < n then objects + [PaddingObject(templateName, templatePosition, |objects|)] else objects
  }

  /** Padding a list that is at most one entry short adds at most that one entry. */
  lemma PaddedByOne(objects: seq<DebugObject>, templateName: string, templatePosition: Vec3, n: nat)
    requires |objects| + 1 >= n
    ensures Padded(objects, templateName, templatePosition, n) == Grown(objects, templateName, templatePosition, n)
  {
  }

  /** The list after `UpdateControllers` has handled the first `n` frames. */
  function ObjectsThrough(objects: seq<DebugObject>, templateName: string, templatePosition: Vec3,
                          frames: seq<Option<FrameValue>>, n: nat): (r: seq<DebugObject>)
    requires n <= |frames|
    ensures |r| == if n > |objects| then n else |objects|
  {
    if n == 0 then objects
    else
      var grown := Grown(ObjectsThrough(objects, templateName, templatePosition, frames, n - 1),
                         templateName, templatePosition, n);
      grown[n - 1 := Shown(grown[n - 1], frames[n - 1])]
  }

  /** Entry `k` of the list padded to cover `k`: the old entry, or the padding entry named after `k`. */
  function PaddedAt(objects: seq<DebugObject>, templateName: string, templatePosition: Vec3, k: nat): DebugObject
  {
    if k < |objects| then objects[k] else PaddingObject(templateName, templatePosition, k)
  }

  /**
    After the first `n` frames, entry `k` is the old entry, or a hidden clone
    named after `k` when the list was shorter, updated by frame `k` when
    `k < n`; an update by a null frame changes nothing.
   */
  lemma {:induction false} ObjectsThroughAt(objects: seq<DebugObject>, templateName: string, templatePosition: Vec3,
                                            frames: seq<Option<FrameValue>>, n: nat, k: nat)
    requires n <= |frames| && k < |ObjectsThrough(objects, templateName, templatePosition, frames, n)|
    ensures ObjectsThrough(objects, templateName, templatePosition, frames, n)[k]
            == if k < n then Shown(PaddedAt(objects, templateName, templatePosition, k), frames[k])
               else PaddedAt(objects, templateName, templatePosition, k)
    decreases n
  {
    if n > 0 {
      var before := ObjectsThrough(objects, templateName, templatePosition, frames, n - 1);
      if k < |before| {
        ObjectsThroughAt(objects, templateName, templatePosition, frames, n - 1, k);
      }
    }
  }

  /** A shown entry keeps its name, and a non-null frame sets its active flag and position. */
  lemma ShownKeepsName(v: DebugObject, frame: Option<FrameValue>)
    ensures Shown(v, frame).name == v.name
    ensures frame.Some? ==> Shown(v, frame).active == frame.value.attached
                            && Shown(v, frame).localPosition == frame.value.position
  {
  }

  /** The dots after the first `n` frames have been handled, starting from `dots`. */
  function DotsThrough(dots: seq<Dot>, frames: seq<Option<FrameValue>>, n: nat): seq<Dot>
    requires n <= |frames|
  {
    if n == 0 then dots else DotsThrough(dots, frames, n - 1) + DotsFor(frames[n - 1])
  }

  /** The dots of a list of frames, in order. */
  function AllDots(frames: seq<Option<FrameValue>>): seq<Dot>
  {
    if frames == [] then [] else AllDots(frames[..|frames| - 1]) + DotsFor(frames[|frames| - 1])
  }

  /** Handling frames only appends: the old dots stay, followed by the dots of the frames handled, in order. */
  lemma {:induction false} DotsThroughAppends(dots: seq<Dot>, frames: seq<Option<FrameValue>>, n: nat)
    requires n <= |frames|
    ensures DotsThrough(dots, frames, n) == dots + AllDots(frames[..n])
    decreases n
  {
    if n > 0 {
      DotsThroughAppends(dots, frames, n - 1);
      assert frames[..n][..n - 1] == frames[..n - 1];
      assert dots + AllDots(frames[..n - 1]) + DotsFor(frames[n - 1])
             == dots + (AllDots(frames[..n - 1]) + DotsFor(frames[n - 1]));
    }
  }

  /** One dot for a frame whose application button went down; none for any other frame or a null one. */
  lemma DotsForPressed(frame: Option<FrameValue>)
    ensures |DotsFor(frame)| == if frame.Some? && frame.value.buttons.appButton.pressed then 1 else 0
  {
  }

  /** `ControllerDebug`. */
  class ControllerDebug {
    /** The name of `Template`. */
    var templateName: string
    /** The local position of `Template`, which every clone starts at. */
    var templatePosition: Vec3
    /** `ControllerObjects`: null until first used. */
    var controllerObjects: Option<seq<DebugObject>>
    /** The dots spawned so far. */
    var dots: seq<Dot>

    constructor (templateName: string, templatePosition: Vec3)
      ensures this.templateName == templateName && this.templatePosition == templatePosition
      ensures controllerObjects.None? && dots == []
    {
      this.templateName, this.templatePosition := templateName, templatePosition;
      controllerObjects, dots := None, [];
    }

    /** The current list, empty while it is null. */
    function Objects(): seq<DebugObject>
      reads this
    {
      if controllerObjects.Some? then controllerObjects.value else []
    }

    /**
      `GetControllerObject`: creates the list if it is null, pads it with
      hidden clones until it covers `index`, and returns the position of
      entry `index`; a negative index passes the padding loop and throws on
      the lookup.
     */
    method GetControllerObject(index: int) returns (r: Result<nat>)
      modifies this
      ensures templateName == old(templateName) && templatePosition == old(templatePosition) && dots == old(dots)
      ensures controllerObjects == Some(Padded(old(Objects()), templateName, templatePosition, index + 1))
      ensures index < 0 ==> r == Err(IndexOutOfRange)
      ensures index >= 0 ==> r == Ok(index) && index < |Objects()|
    {
      if controllerObjects.None? {
        controllerObjects := Some([]);
      }
      var objects := controllerObjects.value;
      while |objects| < index + 1
        invariant |objects| >= |old(Objects())| && objects[..|old(Objects())|] == old(Objects())
        invariant |objects| <= |old(Objects())| || |objects| <= index + 1
        invariant forall k :: |old(Objects())| <= k < |objects| ==>
                    objects[k] == PaddingObject(templateName, templatePosition, k)
        invariant templateName == old(templateName) && templatePosition == old(templatePosition) && dots == old(dots)
        decreases index + 1 - |objects|
      {
        var newIndex := |objects|;
        var newObject := DebugObject(templateName + "(Clone)", true, templatePosition);
        newObject := newObject.(name := newObject.name + " " + DecimalString(newIndex));
        newObject := newObject.(active := false);
        objects := objects + [newObject];
      }
      assert objects == Padded(old(Objects()), templateName, templatePosition, index + 1) by {
        var padded := Padded(old(Objects()), templateName, templatePosition, index + 1);
        forall k | 0 <= k < |objects|
          ensures objects[k] == padded[k]
        {
          if k < |old(Objects())| {
            assert objects[k] == objects[..|old(Objects())|][k];
            assert padded[k] == padded[..|old(Objects())|][k];
          }
        }
      }
      controllerObjects := Some(objects);
      if index < 0 {
        r := Err(IndexOutOfRange);
      } else {
        r := Ok(index);
      }
    }

    /**
      `UpdateController` for the entry at `position`: shows it exactly when
      the frame is attached, moves it to the frame's position, and spawns a
      dot when the application button went down; a null frame throws first.
     */
    method UpdateController(position: nat, frame: ControllerFrame?) returns (outcome: Outcome)
      requires position < |Objects()|
      modifies this
      ensures templateName == old(templateName) && templatePosition == old(templatePosition)
      ensures var f := if frame == null then None else Some(frame.Value());
              && controllerObjects == Some(old(Objects())[position := Shown(old(Objects())[position], f)])
              && dots == old(dots) + DotsFor(f)
      ensures outcome.Fail? <==> frame == null
      ensures outcome.Fail? ==> outcome.error == NullReference
    {
      if frame == null {
        assert Objects()[position := Objects()[position]] == Objects();
        return Fail(NullReference);
      }
      var objects := controllerObjects.value;
      var controller := objects[position];
      controller := controller.(active := frame.attached);
      controller := controller.(localPosition := frame.position);
      controllerObjects := Some(objects[position := controller]);
      if frame.buttons.appButton.pressed {
        dots := dots + [Dot(frame.position, frame.rotation)];
      }
      outcome := Pass;
    }

    /**
      `UpdateControllers`: every frame in order, each with the object for
      its index; a throw for one frame (a null frame) skips only that
      frame. The list stays null when there are no frames.
     */
    method UpdateControllers(frames: seq<ControllerFrame?>)
      modifies this
      ensures templateName == old(templateName) && templatePosition == old(templatePosition)
      ensures frames == [] ==> controllerObjects == old(controllerObjects)
      ensures Objects() == ObjectsThrough(old(Objects()), templateName, templatePosition, FrameValues(frames), |frames|)
      ensures dots == DotsThrough(old(dots), FrameValues(frames), |frames|)
    {
      ghost var values := FrameValues(frames);
      for i := 0 to |frames|
        invariant templateName == old(templateName) && templatePosition == old(templatePosition)
        invariant i == 0 ==> controllerObjects == old(controllerObjects)
        invariant Objects() == ObjectsThrough(old(Objects()), templateName, templatePosition, values, i)
        invariant dots == DotsThrough(old(dots), values, i)
      {
        assert values[i] == if frames[i] == null then None else Some(frames[i].Value());
        UpdateAt(i, frames[i]);
      }
    }

    /** One turn of the loop of `UpdateControllers`: the object for index `i`, then its update by `frame`. */
    method UpdateAt(i: nat, frame: ControllerFrame?)
      requires |Objects()| >= i
      modifies this
      ensures templateName == old(templateName) && templatePosition == old(templatePosition)
      ensures var f := if frame == null then None else Some(frame.Value());
              var grown := Grown(old(Objects()), templateName, templatePosition, i + 1);
              && Objects() == grown[i := Shown(grown[i], f)]
              && dots == old(dots) + DotsFor(f)
    {
      PaddedByOne(Objects(), templateName, templatePosition, i + 1);
      var r := GetControllerObject(i);
      var outcome := UpdateController(r.value, frame);
    }
  }
}
