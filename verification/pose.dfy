/** Values the engine receives once per tracker per frame, and the points it buffers. */
module Pose {

  datatype Vec3 = Vec3(x: real, y: real, z: real)

  datatype Quaternion = Quaternion(w: real, x: real, y: real, z: real)

  /** A buffered sample: its index within the recognition session and its feature vector. */
  datatype Point = Point(id: int, values: seq<real>)

  /** Length of a feature vector: three position and four orientation components. */
  const FeatureLength: nat := 7

  /** The feature vector of a sample, in the order x, y, z, rotx, roty, rotz, rotw;
      `position` is the already normalised position. */
  function Features(position: Vec3, rotation: Quaternion): (v: seq<real>)
    ensures |v| == FeatureLength
    ensures v[6] == rotation.w && v[3] == rotation.x
  {
    [position.x, position.y, position.z, rotation.x, rotation.y, rotation.z, rotation.w]
  }

  /** The points of a buffer carry strictly increasing indices, all in [0, bound). */
  ghost predicate IndexedBelow(buffer: seq<Point>, bound: int)
  {
    (forall i, j :: 0 <= i < j < |buffer| ==> buffer[i].id < buffer[j].id) &&
    (forall i :: 0 <= i < |buffer| ==> 0 <= buffer[i].id < bound)
  }
}
