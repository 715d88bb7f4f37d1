/** The MoveIt collaborators the Jaco3 adapter talks to, reduced to what the
    adapter observes of them: the robot state's named frame transforms, the
    group's kinematics solver, and the collision context its validity check
    is evaluated in. */
module Moveit {

  import opened Geometry
  import opened Joints

  /** A robot state: the joint positions and, for every frame the kinematic
      model knows, its transform from the model's root. */
  datatype RobotState = RobotState(positions: JointPose, frames: map<string, Transform>)
  {
    predicate KnowsFrameTransform(name: string) {
      name in frames
    }

    /** MoveIt answers the identity (and logs an error) for an unknown frame. */
    function FrameTransform(name: string): Transform {
      if name in frames then frames[name] else Identity
    }
  }

  /** What the solver's `getPositionIK` reports: its success flag and every
      solution branch it found, in its own order. */
  datatype IkAnswer = IkAnswer(ok: bool, solutions: seq<JointPose>)

  /** What the solver's `getPositionFK` reports: its success flag and one pose
      per requested link. */
  datatype FkAnswer = FkAnswer(ok: bool, poses: seq<Transform>)

  /** The group's kinematics solver, as deterministic answers to the three
      calls the adapter makes: all-branch IK for a list of target poses from a
      seed, FK of a list of links at a joint configuration, and the name of
      its tip frame. */
  datatype Solver = Solver(
    positionIK: (seq<Transform>, JointPose) -> IkAnswer,
    positionFK: (seq<string>, JointPose) -> FkAnswer,
    tipFrame: string)

  predicate IkAnswerHasDof(answer: IkAnswer, dof: nat)
  {
    answer.ok ==> forall i :: 0 <= i < |answer.solutions| ==> |answer.solutions[i]| == dof
  }

  predicate FkAnswerCoversLinks(answer: FkAnswer, links: seq<string>)
  {
    answer.ok ==> |answer.poses| == |links|
  }

  /** The solver's side of the contract: a successful IK answer holds
      configurations of the group's `dof` joints, and a successful FK answer
      holds one pose per requested link. */
  ghost predicate SolverWellFormed(s: Solver, dof: nat)
  {
    (forall targets, seed :: IkAnswerHasDof(s.positionIK(targets, seed), dof))
    && (forall links, q :: FkAnswerCoversLinks(s.positionFK(links, q), links))
  }

  /** The allowed-collision matrix: link pairs exempt from collision checks. */
  datatype AllowedCollisionMatrix = AllowedCollisionMatrix(allowed: set<(string, string)>)

  /** Everything the validity check of a configuration depends on. */
  datatype CollisionContext = CollisionContext(
    state: RobotState,
    acm: AllowedCollisionMatrix,
    armLinks: seq<string>,
    robotLinks: seq<string>,
    octomapLink: string)

  /** The validity check (NaN, joint limits, collisions), whose definition is
      not part of this model: a deterministic verdict per context and
      configuration. */
  type Validator = (CollisionContext, JointPose) -> bool
}
