/**
 * The bone fields of the editor window `BaseRigContainerWindow` and the non-GUI
 * work its two subclasses do with them: `RagdollCreator.LoadBones` resolves a
 * template's slots against the pelvis, and `RigTemplateCreator`'s Create button
 * builds a template from the bones. Dafny has no class inheritance, so the base
 * window's fields and both subclasses' operations live in one class; the thirteen
 * Transform fields are kept together as one `Bones` record.
 */
module RigWindows {
  import opened Wrappers
  import opened Scenes
  import opened PathCodec
  import opened Rig

  /** The window's bone fields, in declaration order; a null Transform is `None`. */
  datatype Bones = Bones(
    pelvis: Option<NodeId>,
    leftHips: Option<NodeId>, leftKnee: Option<NodeId>, leftFoot: Option<NodeId>,
    rightHips: Option<NodeId>, rightKnee: Option<NodeId>, rightFoot: Option<NodeId>,
    leftArm: Option<NodeId>, leftElbow: Option<NodeId>,
    rightArm: Option<NodeId>, rightElbow: Option<NodeId>,
    middleSpine: Option<NodeId>, head: Option<NodeId>)

  /** Every assigned bone names a node of the scene. */
  predicate InScene(s: Scene, b: Bones) {
    && HasNode(s, b.pelvis) && HasNode(s, b.leftHips) && HasNode(s, b.leftKnee) && HasNode(s, b.leftFoot)
    && HasNode(s, b.rightHips) && HasNode(s, b.rightKnee) && HasNode(s, b.rightFoot) && HasNode(s, b.leftArm)
    && HasNode(s, b.leftElbow) && HasNode(s, b.rightArm) && HasNode(s, b.rightElbow) && HasNode(s, b.middleSpine)
    && HasNode(s, b.head)
  }

  /** `IsUnderRoot(bone)` against the window's `_pelvis`: true exactly when neither is
   *  null and the pelvis is the bone itself or one of its ancestors. */
  function IsUnderRoot(s: Scene, pelvis: Option<NodeId>, bone: Option<NodeId>): (r: bool)
    requires Valid(s) && HasNode(s, bone)
    ensures r <==> pelvis.Some? && bone.Some? && Descends(s, bone.value, pelvis.value)
    decreases if bone.Some? then s[bone.value].depth else 0
  {
    if pelvis.None? || bone.None? then false
    else if pelvis == bone then true
    else
      var b := bone.value;
      assert Ancestors(s, b) == if s[b].parent.None? then [] else [s[b].parent.value] + Ancestors(s, s[b].parent.value);
      match s[b].parent
      case None => false
      case Some(parent) => if Some(parent) == pelvis then true else IsUnderRoot(s, pelvis, Some(parent))
  }

  /** The bone is assigned, lies in the scene, and the pelvis is the bone or one of its ancestors. */
  predicate Under(s: Scene, pelvis: Option<NodeId>, bone: Option<NodeId>)
    requires Valid(s)
  {
    pelvis.Some? && bone.Some? && bone.value in s && Descends(s, bone.value, pelvis.value)
  }

  /** `AreAllBonesValid()`: all thirteen bones are assigned and lie under the pelvis,
   *  so a single null or outside bone makes it false. */
  function AreAllBonesValid(s: Scene, b: Bones): (r: bool)
    requires Valid(s) && InScene(s, b)
    ensures r <==> b.pelvis.Some? && b.pelvis.value in s
                   && Under(s, b.pelvis, b.leftHips) && Under(s, b.pelvis, b.leftKnee) && Under(s, b.pelvis, b.leftFoot)
                   && Under(s, b.pelvis, b.rightHips) && Under(s, b.pelvis, b.rightKnee) && Under(s, b.pelvis, b.rightFoot)
                   && Under(s, b.pelvis, b.leftArm) && Under(s, b.pelvis, b.leftElbow) && Under(s, b.pelvis, b.rightArm)
                   && Under(s, b.pelvis, b.rightElbow) && Under(s, b.pelvis, b.middleSpine) && Under(s, b.pelvis, b.head)
  {
    && IsUnderRoot(s, b.pelvis, b.pelvis)
    && IsUnderRoot(s, b.pelvis, b.middleSpine)
    && IsUnderRoot(s, b.pelvis, b.head)
    && IsUnderRoot(s, b.pelvis, b.leftArm)
    && IsUnderRoot(s, b.pelvis, b.leftElbow)
    && IsUnderRoot(s, b.pelvis, b.rightArm)
    && IsUnderRoot(s, b.pelvis, b.rightElbow)
    && IsUnderRoot(s, b.pelvis, b.leftHips)
    && IsUnderRoot(s, b.pelvis, b.leftKnee)
    && IsUnderRoot(s, b.pelvis, b.leftFoot)
    && IsUnderRoot(s, b.pelvis, b.rightHips)
    && IsUnderRoot(s, b.pelvis, b.rightKnee)
    && IsUnderRoot(s, b.pelvis, b.rightFoot)
  }

  /** The slots a template built from these bones holds: each bone's path from the pelvis. */
  function EncodeBones(s: Scene, b: Bones): Paths
    requires Valid(s) && InScene(s, b)
  {
    Paths(Some(GetTransformPath(s, b.middleSpine, b.pelvis)), Some(GetTransformPath(s, b.head, b.pelvis)),
          Some(GetTransformPath(s, b.leftArm, b.pelvis)), Some(GetTransformPath(s, b.leftElbow, b.pelvis)),
          Some(GetTransformPath(s, b.rightArm, b.pelvis)), Some(GetTransformPath(s, b.rightElbow, b.pelvis)),
          Some(GetTransformPath(s, b.leftHips, b.pelvis)), Some(GetTransformPath(s, b.leftKnee, b.pelvis)),
          Some(GetTransformPath(s, b.leftFoot, b.pelvis)), Some(GetTransformPath(s, b.rightHips, b.pelvis)),
          Some(GetTransformPath(s, b.rightKnee, b.pelvis)), Some(GetTransformPath(s, b.rightFoot, b.pelvis)))
  }

  /** Every slot can be resolved against the pelvis without throwing. */
  predicate PathsDecodable(s: Scene, pelvis: Option<NodeId>, p: Paths)
    requires Valid(s) && HasNode(s, pelvis)
  {
    && Decodable(s, pelvis, p.middleSpine) && Decodable(s, pelvis, p.head) && Decodable(s, pelvis, p.leftArm)
    && Decodable(s, pelvis, p.leftElbow) && Decodable(s, pelvis, p.rightArm) && Decodable(s, pelvis, p.rightElbow)
    && Decodable(s, pelvis, p.leftHips) && Decodable(s, pelvis, p.leftKnee) && Decodable(s, pelvis, p.leftFoot)
    && Decodable(s, pelvis, p.rightHips) && Decodable(s, pelvis, p.rightKnee) && Decodable(s, pelvis, p.rightFoot)
  }

  /** The bones `LoadBones` produces: the pelvis is kept and every other bone is the
   *  decode of its slot; all of them lie in the scene. */
  function DecodePaths(s: Scene, pelvis: Option<NodeId>, p: Paths): (b: Bones)
    requires Valid(s) && HasNode(s, pelvis) && PathsDecodable(s, pelvis, p)
    ensures b.pelvis == pelvis && InScene(s, b)
  {
    Bones(pelvis,
          GetTransformFromPath(s, pelvis, p.leftHips), GetTransformFromPath(s, pelvis, p.leftKnee), GetTransformFromPath(s, pelvis, p.leftFoot),
          GetTransformFromPath(s, pelvis, p.rightHips), GetTransformFromPath(s, pelvis, p.rightKnee), GetTransformFromPath(s, pelvis, p.rightFoot),
          GetTransformFromPath(s, pelvis, p.leftArm), GetTransformFromPath(s, pelvis, p.leftElbow),
          GetTransformFromPath(s, pelvis, p.rightArm), GetTransformFromPath(s, pelvis, p.rightElbow),
          GetTransformFromPath(s, pelvis, p.middleSpine), GetTransformFromPath(s, pelvis, p.head))
  }

  /** Every bone is assigned and addressable from the pelvis with single-digit indices. */
  predicate SingleDigitRig(s: Scene, b: Bones)
    requires Valid(s)
  {
    && b.pelvis.Some?
    && b.leftHips.Some? && Addressable(s, b.leftHips.value, b.pelvis.value)
    && b.leftKnee.Some? && Addressable(s, b.leftKnee.value, b.pelvis.value)
    && b.leftFoot.Some? && Addressable(s, b.leftFoot.value, b.pelvis.value)
    && b.rightHips.Some? && Addressable(s, b.rightHips.value, b.pelvis.value)
    && b.rightKnee.Some? && Addressable(s, b.rightKnee.value, b.pelvis.value)
    && b.rightFoot.Some? && Addressable(s, b.rightFoot.value, b.pelvis.value)
    && b.leftArm.Some? && Addressable(s, b.leftArm.value, b.pelvis.value)
    && b.leftElbow.Some? && Addressable(s, b.leftElbow.value, b.pelvis.value)
    && b.rightArm.Some? && Addressable(s, b.rightArm.value, b.pelvis.value)
    && b.rightElbow.Some? && Addressable(s, b.rightElbow.value, b.pelvis.value)
    && b.middleSpine.Some? && Addressable(s, b.middleSpine.value, b.pelvis.value)
    && b.head.Some? && Addressable(s, b.head.value, b.pelvis.value)
  }

  /** One slot's round trip, stated on the nullable references the window holds. */
  lemma BoneRoundTrip(s: Scene, pelvis: Option<NodeId>, bone: Option<NodeId>)
    requires Valid(s) && pelvis.Some? && bone.Some? && Addressable(s, bone.value, pelvis.value)
    ensures HasNode(s, pelvis) && HasNode(s, bone)
    ensures Decodable(s, pelvis, Some(GetTransformPath(s, bone, pelvis)))
    ensures GetTransformFromPath(s, pelvis, Some(GetTransformPath(s, bone, pelvis))) == bone
  {
    RoundTrip(s, bone.value, pelvis.value);
  }

  /** Building a template from a rig of single-digit bones and loading it back against
   *  the same pelvis gives back every bone. */
  lemma RigRoundTrip(s: Scene, b: Bones)
    requires Valid(s) && SingleDigitRig(s, b)
    ensures InScene(s, b) && b.pelvis.value in s
    ensures PathsDecodable(s, b.pelvis, EncodeBones(s, b))
    ensures DecodePaths(s, b.pelvis, EncodeBones(s, b)) == b
  {
    BoneRoundTrip(s, b.pelvis, b.leftHips);
    BoneRoundTrip(s, b.pelvis, b.leftKnee);
    BoneRoundTrip(s, b.pelvis, b.leftFoot);
    BoneRoundTrip(s, b.pelvis, b.rightHips);
    BoneRoundTrip(s, b.pelvis, b.rightKnee);
    BoneRoundTrip(s, b.pelvis, b.rightFoot);
    BoneRoundTrip(s, b.pelvis, b.leftArm);
    BoneRoundTrip(s, b.pelvis, b.leftElbow);
    BoneRoundTrip(s, b.pelvis, b.rightArm);
    BoneRoundTrip(s, b.pelvis, b.rightElbow);
    BoneRoundTrip(s, b.pelvis, b.middleSpine);
    BoneRoundTrip(s, b.pelvis, b.head);
  }

  /** A bone that passes `IsUnderRoot` and is not the pelvis encodes as digits and
   *  dots with no leading '.'. */
  lemma UnderRootBoneEncodes(s: Scene, pelvis: Option<NodeId>, b: NodeId)
    requires Valid(s) && b in s && IsUnderRoot(s, pelvis, Some(b)) && pelvis != Some(b)
    ensures var path := GetTransformPath(s, Some(b), pelvis);
            |path| > 0 && IsDigit(path[0]) &&
            forall k :: 0 <= k < |path| ==> IsDigit(path[k]) || path[k] == '.'
  {
    EncodeUnder(s, b, pelvis.value);
  }

  class RigWindow {
    var bones: Bones

    /** `RagdollCreator._rigTemplate` */
    var rigTemplate: RigTemplate?

    /** `RagdollCreator.LoadBones()`: each bone becomes the decode of the same-named
     *  slot against the pelvis; the pelvis itself is only read. */
    method LoadBones(s: Scene)
      requires Valid(s) && HasNode(s, bones.pelvis) && rigTemplate != null
      requires PathsDecodable(s, bones.pelvis, rigTemplate.paths)
      modifies this`bones
      ensures bones == DecodePaths(s, old(bones.pelvis), rigTemplate.paths)
    {
      var p, t := bones.pelvis, rigTemplate;
      bones := bones.(middleSpine := GetTransformFromPath(s, p, t.paths.middleSpine));
      bones := bones.(head := GetTransformFromPath(s, p, t.paths.head));
      bones := bones.(leftArm := GetTransformFromPath(s, p, t.paths.leftArm));
      bones := bones.(leftElbow := GetTransformFromPath(s, p, t.paths.leftElbow));
      bones := bones.(rightArm := GetTransformFromPath(s, p, t.paths.rightArm));
      bones := bones.(rightElbow := GetTransformFromPath(s, p, t.paths.rightElbow));
      bones := bones.(leftHips := GetTransformFromPath(s, p, t.paths.leftHips));
      bones := bones.(leftKnee := GetTransformFromPath(s, p, t.paths.leftKnee));
      bones := bones.(leftFoot := GetTransformFromPath(s, p, t.paths.leftFoot));
      bones := bones.(rightHips := GetTransformFromPath(s, p, t.paths.rightHips));
      bones := bones.(rightKnee := GetTransformFromPath(s, p, t.paths.rightKnee));
      bones := bones.(rightFoot := GetTransformFromPath(s, p, t.paths.rightFoot));
    }

    /** The "Load Bones" button of `RagdollCreator.OnGUI`: offered only when both a
     *  template and a pelvis are assigned; otherwise nothing happens. */
    method LoadBonesButton(s: Scene)
      requires Valid(s) && HasNode(s, bones.pelvis)
      requires rigTemplate != null && bones.pelvis.Some? ==> PathsDecodable(s, bones.pelvis, rigTemplate.paths)
      modifies this`bones
      ensures rigTemplate == null || bones.pelvis.None? ==> bones == old(bones)
      ensures rigTemplate != null && old(bones.pelvis).Some? ==>
                bones == DecodePaths(s, old(bones.pelvis), rigTemplate.paths)
    {
      if rigTemplate != null && bones.pelvis.Some? {
        LoadBones(s);
      }
    }

    /** The Create button of `RigTemplateCreator`: a fresh template initialised with the
     *  pelvis and filled by the five chained setters. */
    method CreateTemplate(s: Scene) returns (t: RigTemplate)
      requires Valid(s) && InScene(s, bones)
      ensures fresh(t) && t.rootTransform == bones.pelvis && t.paths == EncodeBones(s, bones)
    {
      var b := bones;
      t := new RigTemplate();
      var r := t.Initialize(b.pelvis);
      r := r.WithSpineAndHead(s, b.pelvis, b.middleSpine, b.head);
      r := r.WithLeftArmAndElbow(s, b.leftArm, b.leftElbow);
      r := r.WithRightArmAndElbow(s, b.rightArm, b.rightElbow);
      r := r.WithLeftLowerLimb(s, b.leftHips, b.leftKnee, b.leftFoot);
      r := r.WithRightLowerLimb(s, b.rightHips, b.rightKnee, b.rightFoot);
    }

    /** Creating a template from the bones and then pressing Load Bones with it leaves
     *  every bone where it was, provided every sibling index on the way is 0-9. */
    method CreateAndReloadTemplate(s: Scene)
      requires Valid(s) && SingleDigitRig(s, bones)
      modifies this`bones, this`rigTemplate
      ensures fresh(rigTemplate) && bones == old(bones)
    {
      RigRoundTrip(s, bones);
      var t := CreateTemplate(s);
      rigTemplate := t;
      LoadBones(s);
    }
  }
}
