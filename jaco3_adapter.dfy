/** The Jaco3 robot model: a MoveIt state adapter that answers the path
    planner's IK, FK and validity queries with the Jaco3 kinematics solver,
    and keeps two cached frames that reconcile the solver's own base and tool
    frames with the world and tool frames the planner works in. */
module Jaco3Adapter {

  import opened Wrappers
  import opened Geometry
  import opened Joints
  import opened JointSelection
  import opened Moveit

  /** The names of the solver's base and tool frames (the ROS parameters
      `jaco3_base_frame` and `jaco3_tool_frame`). */
  datatype FrameConfig = FrameConfig(baseFrame: string, toolFrame: string)

  /** The names used when the parameters are not set: the `config` an
      adapter is constructed with when neither parameter is given. */
  const DefaultFrameConfig := FrameConfig("base_link", "end_effector_link")

  /** What a successful initialisation of the MoveIt base adapter leaves in
      the fields this adapter reads: the robot state, the user's tool frame
      name and the world-to-root frame. */
  datatype BaseSetup = BaseSetup(state: RobotState, toolFrame: string, worldToRoot: Frame)

  /** The two cached frames. */
  datatype Jaco3Frames = Jaco3Frames(tool0ToTip: Frame, worldToBase: Frame)

  /** The cached frames as they follow from a robot state: absent when the
      state does not know the solver's base frame or its tool frame. */
  function DerivedFrames(state: RobotState, toolFrame: string, worldToRoot: Frame, config: FrameConfig): Option<Jaco3Frames>
  {
    if !state.KnowsFrameTransform(config.baseFrame) || !state.KnowsFrameTransform(config.toolFrame) then None
    else
      Some(Jaco3Frames(
        FrameOf(Compose(Inverse(state.FrameTransform(toolFrame)), state.FrameTransform(config.toolFrame))),
        FrameOf(Compose(worldToRoot.frame, state.FrameTransform(config.baseFrame)))))
  }

  /** The elements of `s` that `keep` accepts, in their order in `s`. */
  function Filter<T>(keep: T -> bool, s: seq<T>): (r: seq<T>)
    ensures |r| <= |s|
    decreases |s|
  {
    if |s| == 0 then []
    else Filter(keep, s[..|s| - 1]) + (if keep(s[|s| - 1]) then [s[|s| - 1]] else [])
  }

  lemma {:induction false} FilterMembership<T>(keep: T -> bool, s: seq<T>, x: T)
    ensures x in Filter(keep, s) <==> x in s && keep(x)
    decreases |s|
  {
    if |s| > 0 {
      var n := |s| - 1;
      FilterMembership(keep, s[..n], x);
      assert s == s[..n] + [s[n]];
    }
  }

  /** Filtering distributes over concatenation: what survives keeps the
      relative order it had. */
  lemma {:induction false} FilterConcat<T>(keep: T -> bool, s: seq<T>, t: seq<T>)
    ensures Filter(keep, s + t) == Filter(keep, s) + Filter(keep, t)
    decreases |t|
  {
    if |t| == 0 {
      assert s + t == s;
    } else {
      var n := |t| - 1;
      FilterConcat(keep, s, t[..n]);
      assert (s + t)[..|s + t| - 1] == s + t[..n];
    }
  }

  /** A sequence whose every element is kept passes through unchanged. */
  lemma {:induction false} FilterKeepsAll<T>(keep: T -> bool, s: seq<T>)
    requires forall i :: 0 <= i < |s| ==> keep(s[i])
    ensures Filter(keep, s) == s
    decreases |s|
  {
    if |s| > 0 {
      var n := |s| - 1;
      FilterKeepsAll(keep, s[..n]);
      assert s == s[..n] + [s[n]];
    }
  }

  /** Filtering twice with the same test is filtering once. */
  lemma FilterIdempotent<T>(keep: T -> bool, s: seq<T>)
    ensures Filter(keep, Filter(keep, s)) == Filter(keep, s)
  {
    var r := Filter(keep, s);
    forall i | 0 <= i < |r|
      ensures keep(r[i])
    {
      FilterMembership(keep, s, r[i]);
    }
    FilterKeepsAll(keep, r);
  }

  /** The validity check in a fixed context, as a test on configurations. */
  function Accepts(check: Validator, context: CollisionContext): JointPose -> bool
  {
    q => check(context, q)
  }

  /** The seed the adapter hands to the solver: `dof` zeros. */
  function ZeroSeed(dof: nat): JointPose
  {
    seq(dof, _ => 0.0)
  }

  class Jaco3MoveitStateAdapter {

    // Fixed for the adapter's lifetime: the frame-name parameters, the
    // group's solver and number of joints, and the validity check.
    const config: FrameConfig
    const solver: Solver
    const dof: nat
    const validity: Validator

    // Held by the MoveIt base adapter.
    var robotState: RobotState
    var toolFrame: string
    var worldToRoot: Frame

    // The Jaco3 adapter's own fields.
    var tool0ToTip: Frame
    var worldToBase: Frame
    var acm: AllowedCollisionMatrix
    var octomapLink: string
    var collisionArmLinks: seq<string>
    var collisionRobotLinks: seq<string>

    ghost predicate Valid()
    {
      SolverWellFormed(solver, dof)
    }

    /** A freshly constructed adapter, not yet initialised.  `config` holds the
        frame-name parameters, `DefaultFrameConfig` when they are unset.  The
        octomap link and collision link lists take the header's defaults; the
        cached frames and the base adapter's fields start at values chosen by
        this model (identity frames, an empty state), since their defaults are
        left to constructors outside the adapter. */
    constructor (config: FrameConfig, solver: Solver, dof: nat, validity: Validator)
      requires SolverWellFormed(solver, dof)
      ensures Valid()
      ensures this.config == config && this.dof == dof
      ensures this.solver == solver && this.validity == validity
      ensures robotState == RobotState([], map[]) && toolFrame == "" && worldToRoot == IdentityFrame
      ensures tool0ToTip == IdentityFrame && worldToBase == IdentityFrame
      ensures acm == AllowedCollisionMatrix({})
      ensures octomapLink == "<octomap>"
      ensures collisionArmLinks == ["half_arm_2_link", "forearm_link"]
      ensures collisionRobotLinks == ["tower_link", "camera_box"]
    {
      this.config := config;
      this.solver := solver;
      this.dof := dof;
      this.validity := validity;
      robotState := RobotState([], map[]);
      toolFrame := "";
      worldToRoot := IdentityFrame;
      tool0ToTip := IdentityFrame;
      worldToBase := IdentityFrame;
      acm := AllowedCollisionMatrix({});
      octomapLink := "<octomap>";
      collisionArmLinks := ["half_arm_2_link", "forearm_link"];
      collisionRobotLinks := ["tower_link", "camera_box"];
    }

    /** Everything the validity of a configuration depends on. */
    function Context(): CollisionContext
      reads this
    {
      CollisionContext(robotState, acm, collisionArmLinks, collisionRobotLinks, octomapLink)
    }

    /** `isValid`: the validity check in the adapter's current context. */
    predicate IsValid(q: JointPose)
      reads this
    {
      validity(Context(), q)
    }

    /** The solutions `getAllIK` reports for `pose` in the current state. */
    function AllIK(pose: Transform): seq<JointPose>
      reads this
    {
      var answer := solver.positionIK([pose], ZeroSeed(dof));
      if answer.ok then Filter(Accepts(validity, Context()), answer.solutions) else []
    }

    /** The cached frames are the ones the current robot state gives. */
    ghost predicate FramesCurrent()
      reads this
    {
      DerivedFrames(robotState, toolFrame, worldToRoot, config) == Some(Jaco3Frames(tool0ToTip, worldToBase))
    }

    /** Runs the base adapter's initialisation (its outcome is `base`), then
        computes the cached frames. */
    method Initialize(base: Option<BaseSetup>) returns (ok: bool)
      requires Valid()
      modifies this`robotState, this`toolFrame, this`worldToRoot, this`tool0ToTip, this`worldToBase
      ensures Valid()
      ensures base.None? ==> !ok && unchanged(this)
      ensures base.Some? ==>
        robotState == base.value.state && toolFrame == base.value.toolFrame && worldToRoot == base.value.worldToRoot
      ensures base.Some? ==>
        ok == (robotState.KnowsFrameTransform(config.baseFrame) && robotState.KnowsFrameTransform(config.toolFrame))
      ensures ok ==> FramesCurrent()
      ensures !ok ==> tool0ToTip == old(tool0ToTip) && worldToBase == old(worldToBase)
    {
      if base.None? {
        return false;
      }
      robotState, toolFrame, worldToRoot := base.value.state, base.value.toolFrame, base.value.worldToRoot;
      ghost var missing;
      ok, missing := ComputeJaco3Transforms();
    }

    /** Looks the solver's base and tool frames up in the robot state and,
        only when both are known, overwrites both cached frames with the ones
        `DerivedFrames` gives.  `missing` stands for the frame name the error
        log reports as unknown: the base frame is checked first. */
    method ComputeJaco3Transforms() returns (ok: bool, ghost missing: Option<string>)
      modifies this`tool0ToTip, this`worldToBase
      ensures missing ==
        if !robotState.KnowsFrameTransform(config.baseFrame) then Some(config.baseFrame)
        else if !robotState.KnowsFrameTransform(config.toolFrame) then Some(config.toolFrame)
        else None
      ensures ok == missing.None?
      ensures ok ==> FramesCurrent()
      ensures !ok ==> tool0ToTip == old(tool0ToTip) && worldToBase == old(worldToBase)
    {
      var baseFrame, jacoToolFrame := config.baseFrame, config.toolFrame;
      if !robotState.KnowsFrameTransform(baseFrame) {
        return false, Some(baseFrame);
      }
      if !robotState.KnowsFrameTransform(jacoToolFrame) {
        return false, Some(jacoToolFrame);
      }
      tool0ToTip := FrameOf(Compose(Inverse(robotState.FrameTransform(toolFrame)), robotState.FrameTransform(jacoToolFrame)));
      worldToBase := FrameOf(Compose(worldToRoot.frame, robotState.FrameTransform(baseFrame)));
      return true, None;
    }

    /** Replaces the robot state, then recomputes the cached frames from it;
        whether the recomputation succeeded is not reported. */
    method SetState(state: RobotState)
      modifies this`robotState, this`tool0ToTip, this`worldToBase
      ensures robotState == state
      ensures state.KnowsFrameTransform(config.baseFrame) && state.KnowsFrameTransform(config.toolFrame) ==>
        FramesCurrent()
      ensures !(state.KnowsFrameTransform(config.baseFrame) && state.KnowsFrameTransform(config.toolFrame)) ==>
        tool0ToTip == old(tool0ToTip) && worldToBase == old(worldToBase)
    {
      robotState := state;
      var _, _ := ComputeJaco3Transforms();
    }

    /** Replaces both collision link lists. */
    method SetCollisionLinks(armLinks: seq<string>, robotLinks: seq<string>)
      modifies this`collisionArmLinks, this`collisionRobotLinks
      ensures collisionArmLinks == armLinks && collisionRobotLinks == robotLinks
    {
      collisionArmLinks := armLinks;
      collisionRobotLinks := robotLinks;
    }

    /** All IK solutions for `pose` that pass the validity check, in the
        solver's order.  The pose goes to the solver as it is, with a seed of
        `dof` zeros; success means at least one solution survived. */
    method GetAllIK(pose: Transform) returns (ok: bool, jointPoses: seq<JointPose>)
      ensures jointPoses == AllIK(pose)
      ensures var answer := solver.positionIK([pose], ZeroSeed(dof));
        ok == (answer.ok && exists i :: 0 <= i < |answer.solutions| && IsValid(answer.solutions[i]))
      ensures ok == (|jointPoses| > 0)
      ensures !solver.positionIK([pose], ZeroSeed(dof)).ok ==> !ok && jointPoses == []
      ensures forall i :: 0 <= i < |jointPoses| ==> IsValid(jointPoses[i])
      ensures forall q :: q in jointPoses <==>
        solver.positionIK([pose], ZeroSeed(dof)).ok && q in solver.positionIK([pose], ZeroSeed(dof)).solutions && IsValid(q)
    {
      jointPoses := [];
      var tool_pose := pose;
      var dummySeed := ZeroSeed(dof);
      var answer := solver.positionIK([tool_pose], dummySeed);
      if !answer.ok {
        return false, jointPoses;
      }
      var results := answer.solutions;
      var keep := Accepts(validity, Context());
      for i := 0 to |results|
        invariant jointPoses == Filter(keep, results[..i])
      {
        assert results[..i + 1][..i] == results[..i];
        if IsValid(results[i]) {
          jointPoses := jointPoses + [results[i]];
        }
      }
      assert results[..|results|] == results;
      ok := |jointPoses| > 0;
      forall i | 0 <= i < |jointPoses|
        ensures IsValid(jointPoses[i]) && jointPoses[i] in results
      {
        FilterMembership(keep, results, jointPoses[i]);
      }
      forall q
        ensures q in jointPoses <==> q in results && IsValid(q)
      {
        FilterMembership(keep, results, q);
      }
      if ok {
        var j :| 0 <= j < |results| && results[j] == jointPoses[0];
        assert IsValid(results[j]);
      }
      if exists i :: 0 <= i < |results| && IsValid(results[i]) {
        var i :| 0 <= i < |results| && IsValid(results[i]);
        FilterMembership(keep, results, results[i]);
      }
    }

    /** The valid IK solution for `pose` closest to `seedState` (the earliest
        among equally close ones); on failure `jointPose` is left as it was. */
    method GetIK(pose: Transform, seedState: JointPose, jointPose: JointPose) returns (ok: bool, result: JointPose)
      requires Valid()
      requires |seedState| == dof
      ensures ok == (|AllIK(pose)| > 0)
      ensures !ok ==> result == jointPose
      ensures ok ==> SameDof(seedState, AllIK(pose)) && result == AllIK(pose)[FirstClosest(seedState, AllIK(pose))]
      ensures ok ==> result in AllIK(pose) && IsValid(result)
      ensures ok ==> forall q :: q in AllIK(pose) ==> Cost(seedState, result) <= Cost(seedState, q)
      ensures ok && seedState in AllIK(pose) ==> result == seedState
    {
      var jointPoses;
      ok, jointPoses := GetAllIK(pose);
      if !ok {
        return false, jointPose;
      }
      var answer := solver.positionIK([pose], ZeroSeed(dof));
      assert IkAnswerHasDof(answer, dof);
      forall i | 0 <= i < |jointPoses|
        ensures |jointPoses[i]| == dof
      {
        FilterMembership(Accepts(validity, Context()), answer.solutions, jointPoses[i]);
      }
      var k := ClosestJointPose(seedState, jointPoses);
      result := jointPoses[k];
      if seedState in jointPoses {
        SeedIsChosenWhenPresent(seedState, jointPoses);
      }
    }

    /** The world pose of the tool at `jointPose`: rejected when the
        configuration is invalid, whatever the solver would answer; otherwise the solver's tip pose, brought into
        the world and user-tool frames through the cached frames.  On failure
        `pose` is left as it was. */
    method GetFK(jointPose: JointPose, pose: Transform) returns (ok: bool, result: Transform)
      requires Valid()
      ensures var answer := solver.positionFK([solver.tipFrame], jointPose);
        ok == (IsValid(jointPose) && answer.ok)
        && (ok ==> |answer.poses| == 1 && result == Compose(Compose(worldToBase.frame, answer.poses[0]), tool0ToTip.frameInv))
      ensures !ok ==> result == pose
    {
      var tipFrame := [solver.tipFrame];
      if !IsValid(jointPose) {
        return false, pose;
      }
      var output := solver.positionFK(tipFrame, jointPose);
      if !output.ok {
        return false, pose;
      }
      assert FkAnswerCoversLinks(output, tipFrame);
      result := output.poses[0];
      result := Compose(Compose(worldToBase.frame, result), tool0ToTip.frameInv);
      ok := true;
    }
  }
}
