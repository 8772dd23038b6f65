/**
 * The two joint components involved in converting a ragdoll to an active
 * ragdoll, as records of the settings the conversion reads or writes. A
 * connected body is identified by the node it sits on.
 */
module Joints {
  import opened Wrappers
  import opened Scenes
  import opened Vectors

  /** `ConfigurableJointMotion` */
  datatype JointMotion = Locked | Limited | Free

  datatype SoftJointLimit = SoftJointLimit(limit: real)

  datatype SoftJointLimitSpring = SoftJointLimitSpring(spring: real, damper: real)

  /** A twist/swing `CharacterJoint`, as produced by Unity's ragdoll builder. */
  datatype CharacterJoint = CharacterJoint(
    anchor: Vec3, connectedBody: Option<NodeId>, connectedAnchor: Vec3,
    axis: Vec3, swingAxis: Vec3,
    lowTwistLimit: SoftJointLimit, highTwistLimit: SoftJointLimit,
    swing1Limit: SoftJointLimit, swing2Limit: SoftJointLimit)

  /** The settings of a 6-DOF `ConfigurableJoint` that the conversion writes. */
  datatype ConfigurableJoint = ConfigurableJoint(
    anchor: Vec3, connectedBody: Option<NodeId>, autoConfigureConnectedAnchor: bool,
    connectedAnchor: Vec3, axis: Vec3, secondaryAxis: Vec3,
    angularXLimitSpring: SoftJointLimitSpring, angularYZLimitSpring: SoftJointLimitSpring,
    xMotion: JointMotion, yMotion: JointMotion, zMotion: JointMotion,
    angularXMotion: JointMotion, angularYMotion: JointMotion, angularZMotion: JointMotion,
    lowAngularXLimit: SoftJointLimit, highAngularXLimit: SoftJointLimit,
    angularYLimit: SoftJointLimit, angularZLimit: SoftJointLimit)

  /**
   * A joint behaves like a muscle of the given strength: both angular limit
   * springs have that stiffness and a fifth of it as damping, the joint cannot
   * translate, it can rotate about all three axes within limits, and the limits
   * are a fixed humanoid range of -45..45 degrees about X and 30 about Y and Z.
   */
  predicate MuscleJoint(j: ConfigurableJoint, strength: real) {
    && j.angularXLimitSpring == SoftJointLimitSpring(strength, strength * 0.2)
    && j.angularYZLimitSpring == SoftJointLimitSpring(strength, strength * 0.2)
    && j.xMotion == Locked && j.yMotion == Locked && j.zMotion == Locked
    && j.angularXMotion == Limited && j.angularYMotion == Limited && j.angularZMotion == Limited
    && j.lowAngularXLimit == SoftJointLimit(-45.0) && j.highAngularXLimit == SoftJointLimit(45.0)
    && j.angularYLimit == SoftJointLimit(30.0) && j.angularZLimit == SoftJointLimit(30.0)
  }

  /**
   * A joint takes over the attachment of a character joint: the same anchors,
   * the same connected body, the primary axis, the swing axis as secondary axis,
   * and a connected anchor that Unity will not recompute.
   */
  predicate CopiesSettings(cj: CharacterJoint, j: ConfigurableJoint) {
    && j.anchor == cj.anchor
    && j.connectedBody == cj.connectedBody
    && !j.autoConfigureConnectedAnchor
    && j.connectedAnchor == cj.connectedAnchor
    && j.axis == cj.axis
    && j.secondaryAxis == cj.swingAxis
  }

  /** The joint that replaces `cj` under a muscle strength of `strength`. */
  function ConvertJoint(cj: CharacterJoint, strength: real): (j: ConfigurableJoint)
    ensures MuscleJoint(j, strength) && CopiesSettings(cj, j)
  {
    var spring := SoftJointLimitSpring(strength, strength * 0.2);
    ConfigurableJoint(
      cj.anchor, cj.connectedBody, false, cj.connectedAnchor, cj.axis, cj.swingAxis,
      spring, spring,
      Locked, Locked, Locked, Limited, Limited, Limited,
      SoftJointLimit(-45.0), SoftJointLimit(45.0), SoftJointLimit(30.0), SoftJointLimit(30.0))
  }

  /** The two properties leave no freedom: they single out the converted joint. */
  lemma ConvertJointCharacterized(cj: CharacterJoint, strength: real, j: ConfigurableJoint)
    ensures j == ConvertJoint(cj, strength) <==> MuscleJoint(j, strength) && CopiesSettings(cj, j)
  {
  }

  /** The limits of the character joint play no part in the result. */
  lemma ConvertJointIgnoresLimits(cj: CharacterJoint, strength: real,
                                  low: SoftJointLimit, high: SoftJointLimit,
                                  swing1: SoftJointLimit, swing2: SoftJointLimit)
    ensures ConvertJoint(cj.(lowTwistLimit := low, highTwistLimit := high,
                             swing1Limit := swing1, swing2Limit := swing2), strength)
            == ConvertJoint(cj, strength)
  {
  }
}
