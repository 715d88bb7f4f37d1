/** The two file-local helpers of the Jaco3 adapter: the L1 joint-space cost
    between two joint configurations (`distance`) and the choice of the
    candidate closest to a seed (`closestJointPose`).  Joint values are reals,
    so there is no NaN and no infinity; the `numeric_limits<double>::max()`
    start value of the search is modelled as "no best candidate yet". */
module JointSelection {

  import opened Wrappers
  import opened Joints

  function Abs(x: real): (r: real)
    ensures r >= 0.0 && (r == x || r == -x)
  {
    if x < 0.0 then -x else x
  }

  /** The joint-space cost of moving from `a` to `b`: the sum, over the joints
      of `a`, of |b[i] - a[i]|.  Only the first |a| joints of `b` take part. */
  function Cost(a: JointPose, b: JointPose): real
    requires |a| <= |b|
    decreases |a|
  {
    if |a| == 0 then 0.0
    else Cost(a[..|a| - 1], b) + Abs(b[|a| - 1] - a[|a| - 1])
  }

  lemma {:induction false} CostNonNegative(a: JointPose, b: JointPose)
    requires |a| <= |b|
    ensures Cost(a, b) >= 0.0
    decreases |a|
  {
    if |a| > 0 {
      CostNonNegative(a[..|a| - 1], b);
    }
  }

  /** The cost reads no joint of `b` beyond the length of `a`. */
  lemma {:induction false} CostOfPrefix(a: JointPose, b: JointPose)
    requires |a| <= |b|
    ensures Cost(a, b) == Cost(a, b[..|a|])
    decreases |a|
  {
    if |a| > 0 {
      var n := |a| - 1;
      CostOfPrefix(a[..n], b);
      CostOfPrefix(a[..n], b[..|a|]);
      assert b[..|a|][..n] == b[..n];
    }
  }

  lemma {:induction false} CostSymmetric(a: JointPose, b: JointPose)
    requires |a| == |b|
    ensures Cost(a, b) == Cost(b, a)
    decreases |a|
  {
    if |a| > 0 {
      var n := |a| - 1;
      CostOfPrefix(a[..n], b);
      CostOfPrefix(b[..n], a);
      CostSymmetric(a[..n], b[..n]);
    }
  }

  /** The cost is zero exactly when `b` starts with `a`: both directions. */
  lemma {:induction false} CostZeroIff(a: JointPose, b: JointPose)
    requires |a| <= |b|
    ensures Cost(a, b) == 0.0 <==> a == b[..|a|]
    decreases |a|
  {
    if |a| > 0 {
      var n := |a| - 1;
      CostZeroIff(a[..n], b);
      CostNonNegative(a[..n], b);
      if a == b[..|a|] {
        assert a[..n] == b[..n];
      }
      if Cost(a, b) == 0.0 {
        assert a[..n] == b[..n] && a[n] == b[n];
        assert a == a[..n] + [a[n]];
        assert b[..|a|] == b[..n] + [b[n]];
      }
    }
  }

  lemma CostToSelf(a: JointPose)
    ensures Cost(a, a) == 0.0
  {
    CostZeroIff(a, a);
  }

  /** Computes the joint distance the way `distance` in jaco3_moveit_state_adapter.cpp does: one pass with an
      accumulating cost. */
  method Distance(a: JointPose, b: JointPose) returns (cost: real)
    requires |a| <= |b|
    ensures cost == Cost(a, b)
    ensures cost >= 0.0
    ensures |a| == |b| ==> cost == Cost(b, a)
  {
    cost := 0.0;
    for i := 0 to |a|
      invariant cost == Cost(a[..i], b)
    {
      assert a[..i + 1][..i] == a[..i];
      cost := cost + Abs(b[i] - a[i]);
    }
    assert a[..|a|] == a;
    CostNonNegative(a, b);
    if |a| == |b| {
      CostSymmetric(a, b);
    }
  }

  /** Every candidate has as many joints as the target (`closestJointPose` asserts it). */
  predicate SameDof(target: JointPose, candidates: seq<JointPose>)
  {
    forall i :: 0 <= i < |candidates| ==> |candidates[i]| == |target|
  }

  /** `k` is the earliest index of a candidate of least cost to `target`. */
  ghost predicate IsFirstClosest(target: JointPose, candidates: seq<JointPose>, k: nat)
    requires SameDof(target, candidates)
  {
    k < |candidates|
    && (forall j :: 0 <= j < |candidates| ==> Cost(target, candidates[k]) <= Cost(target, candidates[j]))
    && (forall j :: 0 <= j < k ==> Cost(target, candidates[k]) < Cost(target, candidates[j]))
  }

  /** The index the scan of `closestJointPose` settles on: a later candidate replaces the
      best so far only when it is strictly cheaper; 0 when there is none. */
  function FirstClosest(target: JointPose, candidates: seq<JointPose>): (k: nat)
    requires SameDof(target, candidates)
    ensures |candidates| == 0 ==> k == 0
    ensures |candidates| > 0 ==> IsFirstClosest(target, candidates, k)
    decreases |candidates|
  {
    if |candidates| <= 1 then 0
    else
      var n := |candidates| - 1;
      var k := FirstClosest(target, candidates[..n]);
      if Cost(target, candidates[n]) < Cost(target, candidates[k]) then n else k
  }

  /** The earliest least-cost index is unique, so the scan's answer is
      characterised by it, in both directions. */
  lemma FirstClosestCharacterised(target: JointPose, candidates: seq<JointPose>, k: nat)
    requires SameDof(target, candidates)
    requires |candidates| > 0
    ensures FirstClosest(target, candidates) == k <==> IsFirstClosest(target, candidates, k)
  {
  }

  /** A candidate strictly cheaper than every other one is chosen, whichever
      order the candidates come in. */
  lemma StrictlyNearestIsChosen(target: JointPose, candidates: seq<JointPose>, i: nat)
    requires SameDof(target, candidates)
    requires i < |candidates|
    requires forall j :: 0 <= j < |candidates| && j != i ==> Cost(target, candidates[i]) < Cost(target, candidates[j])
    ensures FirstClosest(target, candidates) == i
  {
  }

  /** When the seed itself is among the candidates, the chosen candidate is
      the seed: the selection never moves away from where the robot is. */
  lemma SeedIsChosenWhenPresent(target: JointPose, candidates: seq<JointPose>)
    requires SameDof(target, candidates)
    requires target in candidates
    ensures candidates[FirstClosest(target, candidates)] == target
  {
    var i :| 0 <= i < |candidates| && candidates[i] == target;
    var f := FirstClosest(target, candidates);
    CostToSelf(target);
    CostNonNegative(target, candidates[f]);
    assert Cost(target, candidates[f]) <= Cost(target, candidates[i]);
    CostZeroIff(target, candidates[f]);
    assert candidates[f][..|target|] == candidates[f];
  }

  /** Scans the candidates once, keeping the index and cost of the cheapest
      seen so far; `None` stands for the "maximum double" start of `closestJointPose`. */
  method ClosestJointPose(target: JointPose, candidates: seq<JointPose>) returns (closest: nat)
    requires SameDof(target, candidates)
    ensures closest == FirstClosest(target, candidates)
    ensures |candidates| == 0 ==> closest == 0
    ensures |candidates| > 0 ==> IsFirstClosest(target, candidates, closest)
  {
    closest := 0;
    var lowestCost: Option<real> := None;
    for i := 0 to |candidates|
      invariant i == 0 ==> closest == 0 && lowestCost == None
      invariant i > 0 ==> closest == FirstClosest(target, candidates[..i])
      invariant i > 0 ==> closest < i && lowestCost == Some(Cost(target, candidates[closest]))
    {
      assert candidates[..i + 1][..i] == candidates[..i];
      var c := Distance(target, candidates[i]);
      if lowestCost.None? || c < lowestCost.value {
        closest := i;
        lowestCost := Some(c);
      }
    }
    assert candidates[..|candidates|] == candidates;
  }
}
