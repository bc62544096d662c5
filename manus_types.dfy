/**
 * The public value types of the SDK: the hand, vectors, quaternions, the
 * decoded sample GLOVE_DATA and the result codes of the control API. Their C
 * declarations live in Manus.h, which is not part of this model; the shapes
 * here are the ones Glove.cpp, Manus.cpp and Glove.java use.
 */
module ManusTypes {
  /** GLOVE_HAND */
  datatype Hand = Left | Right

  datatype Vector = Vector(x: real, y: real, z: real)

  datatype Quaternion = Quaternion(w: real, x: real, y: real, z: real)

  /** GLOVE_DATA without its Euler angles (see README, "Left out"). */
  datatype GloveData = GloveData(packetNumber: nat, acceleration: Vector, quaternion: Quaternion, fingers: seq<real>)

  /** MANUS_SUCCESS, MANUS_ERROR, MANUS_INVALID_ARGUMENT, MANUS_DISCONNECTED */
  datatype ManusResult = Success | Error | InvalidArgument | Disconnected
}
