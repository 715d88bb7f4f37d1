# Jaco3 MoveIt state adapter, modelled in Dafny

This project models `Jaco3MoveitStateAdapter`, the Descartes robot model for the
Jaco3 arm. The adapter sits between the Descartes Cartesian path planner and the
Jaco3 kinematics solver. It answers the planner's queries:

- all-solution IK (`getAllIK`): the solver's branches, filtered by the validity check;
- seeded IK (`getIK`): the valid branch closest to a seed in L1 joint-space distance;
- guarded FK (`getFK`): rejects invalid input before the solver is asked.

It also keeps two cached frames, `tool0_to_tip_` and `world_to_base_`. They reconcile
the solver's own base and tool frames with the planner's world and tool frames. They
are recomputed at initialisation and on every `setState`.

Files:

- `wrappers.dfy`: `Option`.
- `joints.dfy`: the joint-configuration type.
- `geometry.dfy`: rigid transforms as a free term algebra (`Compose` and `Inverse` are
  uninterpreted constructors), and the `Frame` pair of a transform and its inverse.
- `moveit.dfy`: the collaborators as the adapter sees them:
  - the robot state's named frame transforms;
  - the solver's IK/FK answers and tip frame;
  - the collision context the validity check depends on.
- `joint_selection.dfy`: the file-local `distance` and `closestJointPose`. Each is a
  specification function plus a loop method proved equal to it, with lemmas.
- `jaco3_adapter.dfy`: the adapter class, its fields and its operations.

Modelling choices:

- Joint values are `real`.
- The solver is a value of total functions. It is fixed when the adapter is constructed,
  together with the group's number of joints (`dof`). Its contract is the class invariant
  `Valid()`: a successful IK answer holds `dof`-joint configurations, and a successful FK
  answer holds one pose per requested link.
- `isValid` is a fixed `Validator` applied to the adapter's current collision context
  (robot state, allowed-collision matrix, the two link lists, the octomap link). So a
  change of state or of link lists can change validity, and nothing else can.
- A frame lookup of an unknown name yields the identity, as MoveIt's `getFrameTransform`
  does. `computeJaco3Transforms` checks only the solver's two frames, not the user's tool frame.
- The in/out reference parameters of `getIK` and `getFK` are a parameter plus a result.
  The result equals the parameter when the call fails, because the source does not assign on failure.
  `getAllIK` clears its output first, so it returns a fresh sequence.
- `getAllIK` passes the target pose to the solver unchanged
  (descartes_moveit/src/jaco3_moveit_state_adapter.cpp:61-63). The frame transform that
  would mirror `getFK` is commented out in the code, and the model follows the code. The
  model does not apply the cached frames to IK.

## Model

| member | source | states |
|---|---|---|
| `JointSelection.Distance` | descartes_moveit/src/jaco3_moveit_state_adapter.cpp:14-20 | the accumulating loop computes the sum over i < \|a\| of \|b[i]-a[i]\| (`Cost`); the result is non-negative and, for equal lengths, symmetric; needs \|b\| ≥ \|a\| |
| `JointSelection.CostNonNegative` | descartes_moveit/src/jaco3_moveit_state_adapter.cpp:16-18 | the joint distance is never negative |
| `JointSelection.CostSymmetric` | descartes_moveit/src/jaco3_moveit_state_adapter.cpp:16-18 | for configurations of equal length, distance(a,b) = distance(b,a) |
| `JointSelection.CostZeroIff` | descartes_moveit/src/jaco3_moveit_state_adapter.cpp:16-18 | distance(a,b) is 0 exactly when b starts with a (both directions) |
| `JointSelection.CostToSelf` | descartes_moveit/src/jaco3_moveit_state_adapter.cpp:16-18 | distance(a,a) is 0 |
| `JointSelection.FirstClosest` | descartes_moveit/src/jaco3_moveit_state_adapter.cpp:25-37 | 0 for no candidates; otherwise an index within range whose cost is ≤ every candidate's, with every earlier candidate strictly costlier (strict `<` at line 31) |
| `JointSelection.FirstClosestCharacterised` | descartes_moveit/src/jaco3_moveit_state_adapter.cpp:27-36 | the selected index is exactly the earliest least-cost index: it is unique |
| `JointSelection.StrictlyNearestIsChosen` | descartes_moveit/src/jaco3_moveit_state_adapter.cpp:27-36 | a candidate strictly closer to the target than all others is selected, wherever it stands |
| `JointSelection.SeedIsChosenWhenPresent` | descartes_moveit/src/jaco3_moveit_state_adapter.cpp:27-36 | when the target itself is a candidate, the selected candidate equals the target |
| `JointSelection.ClosestJointPose` | descartes_moveit/src/jaco3_moveit_state_adapter.cpp:23-38 | the scan with a "no best yet" start returns `FirstClosest`: 0 when empty, else the earliest minimum-cost index |
| `Jaco3Adapter.FilterMembership` | descartes_moveit/src/jaco3_moveit_state_adapter.cpp:80-84 | a configuration is kept iff it is among the solver's results and passes the validity check |
| `Jaco3Adapter.FilterConcat` | descartes_moveit/src/jaco3_moveit_state_adapter.cpp:80-84 | filtering distributes over concatenation, so survivors keep the solver's order |
| `Jaco3Adapter.FilterKeepsAll` | descartes_moveit/src/jaco3_moveit_state_adapter.cpp:80-84 | when every result is valid the output is the solver's result list itself |
| `Jaco3Adapter.FilterIdempotent` | descartes_moveit/src/jaco3_moveit_state_adapter.cpp:80-84 | filtering an already-filtered list with the same test changes nothing |
| `Jaco3Adapter.Jaco3MoveitStateAdapter.GetAllIK` | descartes_moveit/src/jaco3_moveit_state_adapter.cpp:53-87 | the solver gets the pose unchanged and a seed of `dof` zeros; on solver failure: false and empty output; otherwise the output is exactly the valid results in solver order, and success iff some result is valid; every output configuration is valid |
| `Jaco3Adapter.Jaco3MoveitStateAdapter.GetIK` | descartes_moveit/src/jaco3_moveit_state_adapter.cpp:89-100 | fails iff `getAllIK` does, leaving the output as it was; otherwise returns the `getAllIK` element at `closestJointPose(seed, ·)`: a valid member of that set, no farther from the seed than any other, and the seed itself when the seed is a solution |
| `Jaco3Adapter.Jaco3MoveitStateAdapter.GetFK` | descartes_moveit/src/jaco3_moveit_state_adapter.cpp:102-119 | an invalid configuration fails whatever the solver's FK answer would be; otherwise succeeds iff the solver does, with pose `world_to_base.frame * solverPose * tool0_to_tip.frame_inv`; the output is untouched on failure |
| `Jaco3Adapter.Jaco3MoveitStateAdapter.Initialize` | descartes_moveit/src/jaco3_moveit_state_adapter.cpp:40-51 | false, with nothing changed, when the base initialisation fails; otherwise the result of recomputing the frames on the new base state |
| `Jaco3Adapter.Jaco3MoveitStateAdapter.ComputeJaco3Transforms` | descartes_moveit/src/jaco3_moveit_state_adapter.cpp:127-158 | checks the base frame first, then the tool frame (the ghost `missing` stands for the frame name the error log reports); if either is unknown, returns false and leaves both cached frames unchanged; else sets `tool0_to_tip = inv(T(tool_frame)) * T(jaco3_tool)`, `world_to_base = world_to_root.frame * T(jaco3_base)`, each with its inverse, and returns true |
| `Jaco3Adapter.Jaco3MoveitStateAdapter.SetState` | descartes_moveit/src/jaco3_moveit_state_adapter.cpp:121-125 | stores the new robot state, then recomputes the cached frames from it; the recompute's result is dropped, so the frames stay as they were when the new state lacks a solver frame |
| `Jaco3Adapter.Jaco3MoveitStateAdapter.SetCollisionLinks` | descartes_moveit/include/descartes_moveit/jaco3_moveit_state_adapter.h:50-53 | replaces both collision link lists and nothing else |
| `Jaco3Adapter.Jaco3MoveitStateAdapter.constructor` | descartes_moveit/include/descartes_moveit/jaco3_moveit_state_adapter.h:62-74 | the header's defaults: octomap link `<octomap>`, arm links `half_arm_2_link, forearm_link`, robot links `tower_link, camera_box`; an empty allowed-collision matrix; the given frame-name configuration, solver, joint count and validity check |

The query methods `GetAllIK`, `GetIK` and `GetFK` have no `modifies` clause. So, like the
`const` methods they model (descartes_moveit/include/descartes_moveit/jaco3_moveit_state_adapter.h:26-33),
they change no field. `IsValid` is a function that reads the adapter and changes nothing.
`DefaultFrameConfig` holds the parameter defaults `base_link` and `end_effector_link`
(descartes_moveit/src/jaco3_moveit_state_adapter.cpp:10-11).

## Left out

- `updatePlanningScene`, `sampleRedundantJoint`, `hasNaN`, `isInCollision` and the body of
  `isValid` are not defined in the adapter's source file. Validity is an opaque `Validator`,
  with no NaN, joint-limit or collision semantics. The allowed-collision matrix is never
  changed, because its only writer (`updatePlanningScene`) is not part of this model.
- The `setCollisionLinks` body is not part of this model. `SetCollisionLinks` follows the
  header's doc comment.
- `collision_request_` is not modelled, because no modelled operation reads it.
- The base class `MoveitStateAdapter` is not part of this model:
  - Its `initialize` is the `Option<BaseSetup>` argument of `Initialize`. The model assumes
    that a failed base initialisation changes no field.
  - Its `setState` is the assignment of the robot state.
  - Its loading of the group and solver is the solver and `dof` given at construction.
- The ROS parameter lookup (`nh.param`) runs on every call to `computeJaco3Transforms`. In
  the model the two frame names are a constant configuration fixed at construction.
- Logging, the `geometry_msgs` conversions, the solver's `KinematicsResult` and query options
  are not modelled.
- Eigen arithmetic and floating point are not modelled. Transforms are symbolic, so no
  geometric identity is proved. The FK/IK round trip depends on the solver and is not stated.
- NaN and infinite joint costs are not modelled. The `numeric_limits<double>::max()` start of
  the search is "no candidate yet", which agrees with the source for every finite cost.
- `JointSelection.ClosestJointPose` requires every candidate to have the target's length.
  The source only asserts this (`assert` at line 29, checked in debug builds).
- `Jaco3Adapter.Jaco3MoveitStateAdapter.GetIK` requires a seed of `dof` joints, and the
  solver's answers to have `dof` joints, for the same reason.
- `Jaco3Adapter.Jaco3MoveitStateAdapter.constructor`: its starting cached frames (identity)
  and base-adapter fields (empty state, empty tool frame name, identity world-to-root frame)
  are values this model picks. The source leaves them to the
  default constructors of `descartes_core::Frame` and Eigen and to the base class, none of which
  is part of this model.
