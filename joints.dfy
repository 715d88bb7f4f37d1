/** Joint-space values shared by the adapter and its collaborators. */
module Joints {

  /** A joint configuration: one value per joint, in the robot model's units. */
  type JointPose = seq<real>
}
