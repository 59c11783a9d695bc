/**
 * The sample shapes that the device driver hands to the IMU handlers, and the
 * angular triple that the quaternion-to-Euler conversion produces.
 * Components are modelled as reals; no arithmetic is done on them here.
 */
module Sensor {

  /** A three-component vector: angular rate or linear acceleration. */
  datatype Vec3 = Vec3(x: real, y: real, z: real) {
    function Values(): seq<real> { [x, y, z] }
  }

  /** A rotation sample as a four-component quaternion. */
  datatype Quat = Quat(w: real, x: real, y: real, z: real)

  /** Tait-Bryan angles in the order yaw (azimuth), roll, pitch (elevation). */
  datatype Euler = Euler(yaw: real, roll: real, pitch: real) {
    function Values(): seq<real> { [yaw, roll, pitch] }
  }
}
