/**
 * The non-GUI part of the active-ragdoll converter window: replacing every
 * `CharacterJoint` under the ragdoll container by a muscle-like
 * `ConfigurableJoint`, behind the guard that a container is assigned.
 */
module Convertor {
  import opened Wrappers
  import opened Scenes
  import opened Vectors
  import opened Joints
  import opened Physics

  /**
   * A `ConfigurableJoint` as `AddComponent` creates it, with Unity's default
   * settings; the conversion overwrites every one of them.
   */
  const AddedJoint := ConfigurableJoint(
    Vec3(0.0, 0.0, 0.0), None, true, Vec3(0.0, 0.0, 0.0),
    Vec3(1.0, 0.0, 0.0), Vec3(0.0, 1.0, 0.0),
    SoftJointLimitSpring(0.0, 0.0), SoftJointLimitSpring(0.0, 0.0),
    Free, Free, Free, Free, Free, Free,
    SoftJointLimit(0.0), SoftJointLimit(0.0), SoftJointLimit(0.0), SoftJointLimit(0.0))

  /**
   * Between the two states, `b` had its character joint replaced by the
   * converted joint of the given strength, or had none and is as it was.
   */
  twostate predicate JointReplaced(b: Rigidbody, strength: real)
    reads b
  {
    match old(b.characterJoint)
    case None =>
      b.characterJoint.None? && b.configurableJoints == old(b.configurableJoints)
    case Some(cj) =>
      b.characterJoint.None? && b.configurableJoints == old(b.configurableJoints) + [ConvertJoint(cj, strength)]
  }

  class ActiveRagdollConvertor {
    /** `_ragdollContainer`, the Transform above the ragdoll's bodies. */
    var ragdollContainer: Option<NodeId>
    /** `_strength`, the muscle strength of the created joints. */
    var strength: real

    constructor ()
      ensures ragdollContainer.None? && strength == 10.0
    {
      ragdollContainer := None;
      strength := 10.0;
    }

    /**
     * Converts the joint of each body in `bodies` (the container's
     * `GetComponentsInChildren<Rigidbody>()`); a body without a character joint
     * is skipped, and a body listed twice is converted once.
     */
    method ConvertToConfigurableJoints(bodies: seq<Rigidbody>)
      modifies set b | b in bodies :: b`characterJoint
      modifies set b | b in bodies :: b`configurableJoints
      ensures forall b :: b in bodies ==> JointReplaced(b, strength)
    {
      var k := strength;
      for i := 0 to |bodies|
        invariant forall b :: b in bodies && b in bodies[..i] ==> JointReplaced(b, k)
        invariant forall b :: b in bodies && b !in bodies[..i] ==>
                    b.characterJoint == old(b.characterJoint) && b.configurableJoints == old(b.configurableJoints)
      {
        assert bodies[..i + 1] == bodies[..i] + [bodies[i]];
        var rb := bodies[i];
        if rb.characterJoint.None? {
          continue;
        }
        var cj := rb.characterJoint.value;
        var connectedBody := cj.connectedBody;
        var joint := AddedJoint;
        joint := joint.(anchor := cj.anchor);
        joint := joint.(connectedBody := connectedBody);
        joint := joint.(autoConfigureConnectedAnchor := false);
        joint := joint.(connectedAnchor := cj.connectedAnchor);
        joint := joint.(axis := cj.axis);
        joint := joint.(secondaryAxis := cj.swingAxis);
        var angularSpring := SoftJointLimitSpring(k, k * 0.2);
        joint := joint.(angularXLimitSpring := angularSpring);
        joint := joint.(angularYZLimitSpring := angularSpring);
        joint := joint.(xMotion := Locked, yMotion := Locked, zMotion := Locked);
        joint := joint.(angularXMotion := Limited, angularYMotion := Limited, angularZMotion := Limited);
        joint := joint.(lowAngularXLimit := SoftJointLimit(-45.0), highAngularXLimit := SoftJointLimit(45.0));
        joint := joint.(angularYLimit := SoftJointLimit(30.0), angularZLimit := SoftJointLimit(30.0));
        assert joint == ConvertJoint(cj, k);
        rb.configurableJoints := rb.configurableJoints + [joint];
        rb.characterJoint := None;
      }
      assert bodies[..|bodies|] == bodies;
    }

    /**
     * Refuses to start without a container; otherwise the bodies' joints are
     * converted (the animated copy, the parent Transform and the renaming that
     * follow are not modelled).
     */
    method ConvertToActiveRagdoll(bodies: seq<Rigidbody>) returns (converted: bool)
      modifies set b | b in bodies :: b`characterJoint
      modifies set b | b in bodies :: b`configurableJoints
      ensures converted <==> ragdollContainer.Some?
      ensures !converted ==> forall b :: b in bodies ==>
                b.characterJoint == old(b.characterJoint) && b.configurableJoints == old(b.configurableJoints)
      ensures converted ==> forall b :: b in bodies ==> JointReplaced(b, strength)
    {
      if ragdollContainer.None? {
        return false;
      }
      ConvertToConfigurableJoints(bodies);
      converted := true;
    }
  }
}
