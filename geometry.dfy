/** Rigid transforms and the cached `Frame` pair of descartes_core.  The
    arithmetic of affine transforms is not modelled: a transform is a term
    built from atomic poses with uninterpreted composition and inversion, so
    two transforms are equal only when they are built the same way, and no
    geometric identity (such as `t * t.inverse() == identity`) is available. */
module Geometry {

  datatype Transform =
    | Identity
    | Pose(id: int)                                  // an atomic pose: a link frame, a solver answer, a target
    | Compose(lhs: Transform, rhs: Transform)        // lhs * rhs
    | Inverse(of: Transform)                         // of.inverse()

  /** A transform stored together with its inverse. */
  datatype Frame = Frame(frame: Transform, frameInv: Transform)

  /** A frame built from a transform, as the single-argument `Frame`
      constructor does: the inverse is computed alongside. */
  function FrameOf(t: Transform): Frame
  {
    Frame(t, Inverse(t))
  }

  /** The default-constructed frame: identity both ways. */
  const IdentityFrame := Frame(Identity, Identity)
}
