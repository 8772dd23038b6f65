/**
 * `RigTemplate`: twelve string slots, one sibling-index path per bone role, all
 * written relative to the pelvis stored by `Initialize`. Each `With*` setter
 * writes only its own slots and returns the template, so calls can be chained.
 *
 * The twelve serialized string properties are kept together as one `Paths`
 * record in the field `paths`; a setter replaces the record by a copy in which
 * only its own slots differ.
 */
module Rig {
  import opened Wrappers
  import opened Scenes
  import opened PathCodec

  /** The template's string properties; a null string is `None`. */
  datatype Paths = Paths(
    middleSpine: Option<string>, head: Option<string>,
    leftArm: Option<string>, leftElbow: Option<string>,
    rightArm: Option<string>, rightElbow: Option<string>,
    leftHips: Option<string>, leftKnee: Option<string>, leftFoot: Option<string>,
    rightHips: Option<string>, rightKnee: Option<string>, rightFoot: Option<string>)

  /** A freshly created template: every property is null. */
  const NoPaths := Paths(None, None, None, None, None, None, None, None, None, None, None, None)

  class RigTemplate {
    var paths: Paths

    /** `_rootTransform`, the pelvis every slot is encoded against. */
    var rootTransform: Option<NodeId>

    /** `ScriptableObject.CreateInstance<RigTemplate>()`: every slot and the root are null. */
    constructor ()
      ensures paths == NoPaths && rootTransform.None?
    {
      paths := NoPaths;
      rootTransform := None;
    }

    method Initialize(pelvis: Option<NodeId>) returns (r: RigTemplate)
      modifies this`rootTransform
      ensures r == this && rootTransform == pelvis
    {
      rootTransform := pelvis;
      r := this;
    }

    /** The pelvis argument is not used: both slots are encoded against `rootTransform`. */
    method WithSpineAndHead(s: Scene, pelvisTransform: Option<NodeId>,
                            middleSpineTransform: Option<NodeId>, headTransform: Option<NodeId>)
      returns (r: RigTemplate)
      requires Valid(s) && HasNode(s, middleSpineTransform) && HasNode(s, headTransform)
      modifies this`paths
      ensures r == this
      ensures paths == old(paths).(middleSpine := Some(GetTransformPath(s, middleSpineTransform, rootTransform)),
                                   head := Some(GetTransformPath(s, headTransform, rootTransform)))
    {
      paths := paths.(middleSpine := Some(GetTransformPath(s, middleSpineTransform, rootTransform)),
                      head := Some(GetTransformPath(s, headTransform, rootTransform)));
      r := this;
    }

    method WithLeftArmAndElbow(s: Scene, leftArmTransform: Option<NodeId>, leftElbowTransform: Option<NodeId>)
      returns (r: RigTemplate)
      requires Valid(s) && HasNode(s, leftArmTransform) && HasNode(s, leftElbowTransform)
      modifies this`paths
      ensures r == this
      ensures paths == old(paths).(leftArm := Some(GetTransformPath(s, leftArmTransform, rootTransform)),
                                   leftElbow := Some(GetTransformPath(s, leftElbowTransform, rootTransform)))
    {
      paths := paths.(leftArm := Some(GetTransformPath(s, leftArmTransform, rootTransform)),
                      leftElbow := Some(GetTransformPath(s, leftElbowTransform, rootTransform)));
      r := this;
    }

    method WithLeftLowerLimb(s: Scene, leftHipsTransform: Option<NodeId>, leftKneeTransform: Option<NodeId>,
                             leftFootTransform: Option<NodeId>)
      returns (r: RigTemplate)
      requires Valid(s) && HasNode(s, leftHipsTransform) && HasNode(s, leftKneeTransform)
      requires HasNode(s, leftFootTransform)
      modifies this`paths
      ensures r == this
      ensures paths == old(paths).(leftHips := Some(GetTransformPath(s, leftHipsTransform, rootTransform)),
                                   leftKnee := Some(GetTransformPath(s, leftKneeTransform, rootTransform)),
                                   leftFoot := Some(GetTransformPath(s, leftFootTransform, rootTransform)))
    {
      paths := paths.(leftHips := Some(GetTransformPath(s, leftHipsTransform, rootTransform)),
                      leftKnee := Some(GetTransformPath(s, leftKneeTransform, rootTransform)),
                      leftFoot := Some(GetTransformPath(s, leftFootTransform, rootTransform)));
      r := this;
    }

    method WithRightArmAndElbow(s: Scene, rightArmTransform: Option<NodeId>, rightElbowTransform: Option<NodeId>)
      returns (r: RigTemplate)
      requires Valid(s) && HasNode(s, rightArmTransform) && HasNode(s, rightElbowTransform)
      modifies this`paths
      ensures r == this
      ensures paths == old(paths).(rightArm := Some(GetTransformPath(s, rightArmTransform, rootTransform)),
                                   rightElbow := Some(GetTransformPath(s, rightElbowTransform, rootTransform)))
    {
      paths := paths.(rightArm := Some(GetTransformPath(s, rightArmTransform, rootTransform)),
                      rightElbow := Some(GetTransformPath(s, rightElbowTransform, rootTransform)));
      r := this;
    }

    method WithRightLowerLimb(s: Scene, rightHipsTransform: Option<NodeId>, rightKneeTransform: Option<NodeId>,
                              rightFootTransform: Option<NodeId>)
      returns (r: RigTemplate)
      requires Valid(s) && HasNode(s, rightHipsTransform) && HasNode(s, rightKneeTransform)
      requires HasNode(s, rightFootTransform)
      modifies this`paths
      ensures r == this
      ensures paths == old(paths).(rightHips := Some(GetTransformPath(s, rightHipsTransform, rootTransform)),
                                   rightKnee := Some(GetTransformPath(s, rightKneeTransform, rootTransform)),
                                   rightFoot := Some(GetTransformPath(s, rightFootTransform, rootTransform)))
    {
      paths := paths.(rightHips := Some(GetTransformPath(s, rightHipsTransform, rootTransform)),
                      rightKnee := Some(GetTransformPath(s, rightKneeTransform, rootTransform)),
                      rightFoot := Some(GetTransformPath(s, rightFootTransform, rootTransform)));
      r := this;
    }
  }
}
