/**
  Values shared by every part of the model.

  Unity's vectors and quaternions are single-precision floats. The discrete
  logic modelled here only copies, compares and negates coordinates, so they
  are represented by reals and no arithmetic on them is modelled.
 */
module Common {

  /** A Unity Vector2. */
  datatype Vec2 = Vec2(x: real, y: real)

  /** A Unity Vector3. */
  datatype Vec3 = Vec3(x: real, y: real, z: real)

  /** A Unity Quaternion; `default(Quaternion)` is all zeros. */
  datatype Quat = Quat(x: real, y: real, z: real, w: real)

  const ZeroVec2 := Vec2(0.0, 0.0)
  const ZeroVec3 := Vec3(0.0, 0.0, 0.0)
  const ZeroQuat := Quat(0.0, 0.0, 0.0, 0.0)

  /** A nullable value type (`Vector3?`, `float?`). */
  datatype Option<+T> = None | Some(value: T)

  /** The exceptions the modelled code throws or catches. */
  datatype Error =
    | NoEditingPosition          // "There is no current editing position"
    | CalibrationNotConfigured   // "Calibration not configured: ..."
    | IndexOutOfRange            // an index past the end of a list or array
    | NullReference              // a member access through a null reference

  /** The result of an operation that returns a value or throws. */
  datatype Result<+T> = Ok(value: T) | Err(error: Error)

  /** The result of a `void` operation that returns or throws. */
  datatype Outcome = Pass | Fail(error: Error)
}
