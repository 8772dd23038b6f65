/**
 * The limp state machine shared by the ragdoll base class, and the
 * `ActiveRagdoll` component that derives from it: a physical copy of a
 * character whose bodies follow the bones of an animated copy, matched by the
 * names on the way from each root.
 *
 * The base class is abstract and `ActiveRagdoll` is its one concrete subclass,
 * so both are one class here: `BaseSetLimpState` and `BaseFindReferences` are
 * the base implementations, and the calls that dispatch virtually
 * (`EnableLimp`, `DisableLimp`, `Awake`, the force methods) reach the
 * overrides, as they do at run time.
 */
module ActiveRagdolls {
  import opened Wrappers
  import opened Scenes
  import opened Vectors
  import opened Joints
  import opened Physics

  /**
   * The `/`-separated name path from `root` down to `target`. A separator is
   * only written after a non-empty prefix, so the path of the root is "" and
   * every other path ends with the target's own name.
   */
  function GetPath(s: Scene, root: NodeId, target: NodeId): (r: string)
    requires Valid(s) && target in s && Descends(s, target, root)
    ensures target == root ==> r == ""
    ensures target != root ==>
              |s[target].name| <= |r| && r[|r| - |s[target].name|..] == s[target].name
    decreases s[target].depth
  {
    if target == root then ""
    else
      ParentDescends(s, target, root);
      var above := GetPath(s, root, s[target].parent.value);
      above + (if above == "" then "" else "/") + s[target].name
  }

  /** The names of the nodes below `root` on the way to `target`, outermost first. */
  function NamesBelow(s: Scene, root: NodeId, target: NodeId): seq<string>
    requires Valid(s) && target in s && Descends(s, target, root)
    decreases s[target].depth
  {
    if target == root then []
    else
      ParentDescends(s, target, root);
      NamesBelow(s, root, s[target].parent.value) + [s[target].name]
  }

  /** `string.Join("/", names)` */
  function JoinSlash(names: seq<string>): string {
    if |names| == 0 then ""
    else if |names| == 1 then names[0]
    else JoinSlash(names[..|names| - 1]) + "/" + names[|names| - 1]
  }

  /**
   * When no node on the way has an empty name, the path is exactly those
   * names joined with `/`, with no leading or doubled separator.
   */
  lemma {:induction false} GetPathJoinsNames(s: Scene, root: NodeId, target: NodeId)
    requires Valid(s) && target in s && Descends(s, target, root)
    requires forall k :: 0 <= k < |NamesBelow(s, root, target)| ==> NamesBelow(s, root, target)[k] != ""
    ensures GetPath(s, root, target) == JoinSlash(NamesBelow(s, root, target))
    decreases s[target].depth
  {
    if target != root {
      ParentDescends(s, target, root);
      var p := s[target].parent.value;
      var above := NamesBelow(s, root, p);
      assert NamesBelow(s, root, target) == above + [s[target].name];
      assert forall k :: 0 <= k < |above| ==> above[k] == NamesBelow(s, root, target)[k];
      GetPathJoinsNames(s, root, p);
      if |above| > 0 {
        assert above[..|above|] == above;
        assert (above + [s[target].name])[..|above|] == above;
      }
    }
  }

  /** `TryGetComponent<ConfigurableJoint>`: the first such joint, if any. */
  function FirstJoint(js: seq<ConfigurableJoint>): (j: Option<ConfigurableJoint>)
    ensures j.None? <==> |js| == 0
    ensures j.Some? ==> j.value in js && j.value == js[0]
  {
    if |js| == 0 then None else Some(js[0])
  }

  /**
   * The loop of `FindReferences`: entry i of the three bone arrays is filled
   * from body i of `bodies`.
   */
  method MapBones(s: Scene, bodies: array<Rigidbody?>, ragdoll: NodeId, animated: NodeId,
                  find: (NodeId, string) -> Option<NodeId>,
                  ragdollBones: array<Option<NodeId>>, animatedBones: array<Option<NodeId>>,
                  joints: array<Option<ConfigurableJoint>>)
    requires Valid(s) && ragdollBones != animatedBones
    requires ragdollBones.Length == bodies.Length && animatedBones.Length == bodies.Length
    requires joints.Length == bodies.Length && forall i :: 0 <= i < joints.Length ==> joints[i].None?
    requires forall i :: 0 <= i < bodies.Length ==>
               bodies[i] != null && bodies[i].node in s && Descends(s, bodies[i].node, ragdoll)
    modifies ragdollBones, animatedBones, joints
    ensures forall i :: 0 <= i < bodies.Length ==>
              && ragdollBones[i] == Some(bodies[i].node)
              && animatedBones[i] == find(animated, GetPath(s, ragdoll, bodies[i].node))
              && joints[i] == FirstJoint(bodies[i].configurableJoints)
  {
    for i := 0 to bodies.Length
      invariant forall j :: 0 <= j < i ==> ragdollBones[j] == Some(bodies[j].node)
      invariant forall j :: 0 <= j < i ==> animatedBones[j] == find(animated, GetPath(s, ragdoll, bodies[j].node))
      invariant forall j :: 0 <= j < i ==> joints[j] == FirstJoint(bodies[j].configurableJoints)
      invariant forall j :: i <= j < joints.Length ==> joints[j].None?
    {
      MapBone(s, bodies, i, ragdoll, animated, find, ragdollBones, animatedBones, joints);
    }
  }

  /** One pass of that loop: entry i of the three bone arrays is filled from body i. */
  method MapBone(s: Scene, bodies: array<Rigidbody?>, i: nat, ragdoll: NodeId, animated: NodeId,
                 find: (NodeId, string) -> Option<NodeId>,
                 ragdollBones: array<Option<NodeId>>, animatedBones: array<Option<NodeId>>,
                 joints: array<Option<ConfigurableJoint>>)
    requires ragdollBones != animatedBones && i < bodies.Length
    requires ragdollBones.Length == bodies.Length && animatedBones.Length == bodies.Length
    requires joints.Length == bodies.Length && joints[i].None?
    requires bodies[i] != null && Valid(s) && bodies[i].node in s && Descends(s, bodies[i].node, ragdoll)
    modifies ragdollBones, animatedBones, joints
    ensures ragdollBones[i] == Some(bodies[i].node)
    ensures animatedBones[i] == find(animated, GetPath(s, ragdoll, bodies[i].node))
    ensures joints[i] == FirstJoint(bodies[i].configurableJoints)
    ensures forall j :: 0 <= j < bodies.Length && j != i ==>
              ragdollBones[j] == old(ragdollBones[j]) && animatedBones[j] == old(animatedBones[j])
              && joints[j] == old(joints[j])
  {
    var rb := bodies[i];
    ragdollBones[i] := Some(rb.node);
    var path := GetPath(s, ragdoll, rb.node);
    animatedBones[i] := find(animated, path);
    if |rb.configurableJoints| == 0 {
      return;
    }
    joints[i] := Some(rb.configurableJoints[0]);
  }

  /** The body of the `FixedUpdate` loop: both velocities move `step` of the way towards `goal`. */
  method Follow(rb: Rigidbody, goal: (Vec3, Vec3), step: real)
    modifies rb`velocity, rb`angularVelocity
    ensures rb.velocity == Lerp(old(rb.velocity), goal.0, step)
    ensures rb.angularVelocity == Lerp(old(rb.angularVelocity), goal.1, step)
  {
    rb.velocity := Lerp(rb.velocity, goal.0, step);
    rb.angularVelocity := Lerp(rb.angularVelocity, goal.1, step);
  }

  /**
   * The loop of `FixedUpdate`: every body with a bone to follow moves its
   * velocities `step` of the way towards what `aim` asks of it; the others are
   * left alone.
   */
  method FollowBones(bodies: array<Rigidbody?>, targets: array<Option<NodeId>>,
                     aim: (NodeId, NodeId) -> (Vec3, Vec3), step: real)
    requires targets.Length >= bodies.Length
    requires forall i :: 0 <= i < bodies.Length && targets[i].Some? ==> bodies[i] != null
    requires forall i, j :: 0 <= i < j < bodies.Length && bodies[i] != null ==> bodies[i] != bodies[j]
    modifies BodiesIn(bodies)`velocity, BodiesIn(bodies)`angularVelocity
    ensures forall i :: 0 <= i < bodies.Length && targets[i].Some? ==>
              var goal := aim(bodies[i].node, targets[i].value);
              && bodies[i].velocity == Lerp(old(bodies[i].velocity), goal.0, step)
              && bodies[i].angularVelocity == Lerp(old(bodies[i].angularVelocity), goal.1, step)
    ensures forall i :: 0 <= i < bodies.Length && bodies[i] != null && targets[i].None? ==>
              bodies[i].velocity == old(bodies[i].velocity)
              && bodies[i].angularVelocity == old(bodies[i].angularVelocity)
  {
    ghost var bs := bodies[..];
    for i := 0 to bodies.Length
      invariant forall j :: 0 <= j < i && targets[j].Some? ==>
                  var goal := aim(bs[j].node, targets[j].value);
                  bs[j].velocity == Lerp(old(bs[j].velocity), goal.0, step)
                  && bs[j].angularVelocity == Lerp(old(bs[j].angularVelocity), goal.1, step)
      invariant forall j :: 0 <= j < |bs| && bs[j] != null && (i <= j || targets[j].None?) ==>
                  bs[j].velocity == old(bs[j].velocity) && bs[j].angularVelocity == old(bs[j].angularVelocity)
    {
      var rb := bodies[i];
      var target := targets[i];
      if target.None? {
        continue;
      }
      Follow(rb, aim(rb.node, target.value), step);
    }
  }

  class ActiveRagdoll {
    var isLimp: bool
    var initialLimpState: bool
    /** `ChildrenBodies`; null until references are found. */
    var childrenBodies: array?<Rigidbody?>
    /** `ChildrenColliders`; null until references are found. */
    var childrenColliders: array?<Collider?>
    /** `transform.position` of the component. */
    var position: Vec3
    /** `OnLimpEnabled`/`OnLimpDisabled` invocations and submitted forces, in order. */
    var log: seq<Effect>
    var followStrength: real
    var ragdollRoot: Option<NodeId>
    var animatedRoot: Option<NodeId>
    /** `Joints[i]`: the joint of body i; null for a body without one. */
    var joints: array?<Option<ConfigurableJoint>>
    /** `RagdollBones[i]`: the Transform of body i. */
    var ragdollBones: array?<Option<NodeId>>
    /** `AnimatedBones[i]`: the animated bone body i follows; null when none was found. */
    var animatedBones: array?<Option<NodeId>>

    /** A component as added to a GameObject, with its serialized defaults. */
    constructor (position: Vec3)
      ensures !isLimp && !initialLimpState && followStrength == 10.0
      ensures childrenBodies == null && childrenColliders == null
      ensures ragdollRoot.None? && animatedRoot.None?
      ensures joints == null && ragdollBones == null && animatedBones == null
      ensures this.position == position && log == []
    {
      isLimp := false;
      initialLimpState := false;
      childrenBodies := null;
      childrenColliders := null;
      this.position := position;
      log := [];
      followStrength := 10.0;
      ragdollRoot := None;
      animatedRoot := None;
      joints := null;
      ragdollBones := null;
      animatedBones := null;
    }

    /** Every body in the array has the given linear and angular drag. */
    ghost predicate Damped(drag: real, angularDrag: real)
      reads this, childrenBodies, BodiesIn(childrenBodies)
    {
      && childrenBodies != null
      && forall i :: 0 <= i < childrenBodies.Length && childrenBodies[i] != null ==>
           childrenBodies[i].drag == drag && childrenBodies[i].angularDrag == angularDrag
    }

    /** Every body in the array is simulated by the physics engine. */
    ghost predicate Simulated()
      reads this, childrenBodies, BodiesIn(childrenBodies)
    {
      && childrenBodies != null
      && forall i :: 0 <= i < childrenBodies.Length && childrenBodies[i] != null ==>
           !childrenBodies[i].isKinematic
    }

    /**
     * The bone arrays line up with the body array. With both roots assigned,
     * entry i holds body i's Transform, the animated bone found under its name
     * path, and its joint. Otherwise every joint entry is null.
     */
    ghost predicate BonesMapped(s: Scene, find: (NodeId, string) -> Option<NodeId>)
      requires Valid(s)
      reads this, childrenBodies, joints, ragdollBones, animatedBones, BodiesIn(childrenBodies)
    {
      && childrenBodies != null && joints != null && joints.Length == childrenBodies.Length
      && (ragdollRoot.None? || animatedRoot.None? ==>
            forall i :: 0 <= i < joints.Length ==> joints[i].None?)
      && (ragdollRoot.Some? && animatedRoot.Some? ==>
            && ragdollBones != null && animatedBones != null
            && ragdollBones.Length == childrenBodies.Length
            && animatedBones.Length == childrenBodies.Length
            && forall i :: 0 <= i < childrenBodies.Length ==>
                 && childrenBodies[i] != null
                 && childrenBodies[i].node in s
                 && Descends(s, childrenBodies[i].node, ragdollRoot.value)
                 && ragdollBones[i] == Some(childrenBodies[i].node)
                 && animatedBones[i] == find(animatedRoot.value, GetPath(s, ragdollRoot.value, childrenBodies[i].node))
                 && joints[i] == FirstJoint(childrenBodies[i].configurableJoints))
    }

    /** The base `SetLimpState`: records the state and fires exactly the matching event. */
    method BaseSetLimpState(limpState: bool)
      modifies this`isLimp, this`log
      ensures isLimp == limpState
      ensures log == old(log) + [Fired(if limpState then LimpEnabled else LimpDisabled)]
    {
      isLimp := limpState;
      if limpState {
        log := log + [Fired(LimpEnabled)];
      }
      if !limpState {
        log := log + [Fired(LimpDisabled)];
      }
    }

    /** A limp body has little drag; one that follows its animation is damped against shaking. */
    method SetLimpState(limpState: bool)
      requires childrenBodies != null
      modifies this`isLimp, this`log
      modifies BodiesIn(childrenBodies)`drag, BodiesIn(childrenBodies)`angularDrag
      ensures isLimp == limpState
      ensures log == old(log) + [Fired(if limpState then LimpEnabled else LimpDisabled)]
      ensures Damped(if limpState then 1.0 else 20.0, if limpState then 0.0 else 1.0)
    {
      BaseSetLimpState(limpState);
      var bodies := childrenBodies;
      for i := 0 to bodies.Length
        invariant isLimp == limpState
        invariant log == old(log) + [Fired(if limpState then LimpEnabled else LimpDisabled)]
        invariant forall j :: 0 <= j < i && bodies[j] != null ==>
                    bodies[j].drag == (if limpState then 1.0 else 20.0)
                    && bodies[j].angularDrag == (if limpState then 0.0 else 1.0)
      {
        var rb := bodies[i];
        if rb == null {
          continue;
        }
        rb.drag := if limpState then 1.0 else 20.0;
        rb.angularDrag := if limpState then 0.0 else 1.0;
      }
    }

    method EnableLimp()
      requires childrenBodies != null
      modifies this`isLimp, this`log
      modifies BodiesIn(childrenBodies)`drag, BodiesIn(childrenBodies)`angularDrag
      ensures isLimp && log == old(log) + [Fired(LimpEnabled)] && Damped(1.0, 0.0)
    {
      SetLimpState(true);
    }

    method DisableLimp()
      requires childrenBodies != null
      modifies this`isLimp, this`log
      modifies BodiesIn(childrenBodies)`drag, BodiesIn(childrenBodies)`angularDrag
      ensures !isLimp && log == old(log) + [Fired(LimpDisabled)] && Damped(20.0, 1.0)
    {
      SetLimpState(false);
    }

    /** The body arrays are serialized with the component, so they exist when it wakes. */
    method Awake()
      requires childrenBodies != null
      modifies this`isLimp, this`log
      modifies BodiesIn(childrenBodies)`drag, BodiesIn(childrenBodies)`angularDrag
      ensures isLimp == initialLimpState
      ensures log == old(log) + [Fired(if initialLimpState then LimpEnabled else LimpDisabled)]
      ensures Damped(if initialLimpState then 1.0 else 20.0, if initialLimpState then 0.0 else 1.0)
    {
      if initialLimpState {
        EnableLimp();
      } else {
        DisableLimp();
      }
    }

    /** The base `FindReferences`: every body and collider below the component. */
    method BaseFindReferences(bodies: seq<Rigidbody>, colliders: seq<Collider>)
      modifies this`childrenBodies, this`childrenColliders
      ensures fresh(childrenBodies) && childrenBodies[..] == bodies
      ensures fresh(childrenColliders) && childrenColliders[..] == colliders
    {
      childrenBodies := new Rigidbody?[|bodies|](i requires 0 <= i < |bodies| => bodies[i]);
      childrenColliders := new Collider?[|colliders|](i requires 0 <= i < |colliders| => colliders[i]);
    }

    /**
     * Finds the bodies, then pairs each with its animated bone: `find` is
     * `Transform.Find` on the animated root, given body i's name path below
     * the ragdoll root.
     */
    method FindReferences(s: Scene, bodies: seq<Rigidbody>, colliders: seq<Collider>,
                          find: (NodeId, string) -> Option<NodeId>)
      requires Valid(s)
      requires ragdollRoot.Some? && animatedRoot.Some? ==>
                 forall b :: b in bodies ==> b.node in s && Descends(s, b.node, ragdollRoot.value)
      requires forall i, j :: 0 <= i < j < |bodies| ==> bodies[i] != bodies[j]
      modifies this`childrenBodies, this`childrenColliders, this`joints, this`ragdollBones, this`animatedBones
      ensures fresh(childrenBodies) && childrenBodies[..] == bodies
      ensures fresh(childrenColliders) && childrenColliders[..] == colliders
      ensures fresh(joints) && BonesMapped(s, find)
      ensures ragdollRoot.None? || animatedRoot.None? ==>
                ragdollBones == old(ragdollBones) && animatedBones == old(animatedBones)
      ensures ragdollRoot.Some? && animatedRoot.Some? ==> fresh(ragdollBones) && fresh(animatedBones)
      ensures ragdollRoot.Some? && animatedRoot.Some? ==> Tracking()
    {
      BaseFindReferences(bodies, colliders);
      var n := childrenBodies.Length;
      joints := new Option<ConfigurableJoint>[n](_ => None);
      if ragdollRoot.None? || animatedRoot.None? {
        return;
      }
      ragdollBones := new Option<NodeId>[n](_ => None);
      animatedBones := new Option<NodeId>[n](_ => None);
      var cb := childrenBodies;
      assert forall i :: 0 <= i < n ==> cb[i] == bodies[i] && bodies[i] in bodies;
      MapBones(s, cb, ragdollRoot.value, animatedRoot.value, find, ragdollBones, animatedBones, joints);
    }

    /** Puts every body under physics, with the damping of the following state. */
    method InitializeRigidbodies()
      requires childrenBodies != null
      modifies BodiesIn(childrenBodies)`drag, BodiesIn(childrenBodies)`angularDrag,
               BodiesIn(childrenBodies)`isKinematic
      ensures Damped(20.0, 1.0) && Simulated()
    {
      var bodies := childrenBodies;
      for i := 0 to bodies.Length
        invariant forall j :: 0 <= j < i && bodies[j] != null ==>
                    bodies[j].drag == 20.0 && bodies[j].angularDrag == 1.0 && !bodies[j].isKinematic
      {
        var rb := bodies[i];
        if rb == null {
          continue;
        }
        rb.drag := 20.0;
        rb.angularDrag := 1.0;
        rb.isKinematic := false;
      }
    }

    /** `Initialize()`: finds the references, then puts every body under physics. */
    method Initialize(s: Scene, bodies: seq<Rigidbody>, colliders: seq<Collider>,
                      find: (NodeId, string) -> Option<NodeId>)
      requires Valid(s)
      requires ragdollRoot.Some? && animatedRoot.Some? ==>
                 forall b :: b in bodies ==> b.node in s && Descends(s, b.node, ragdollRoot.value)
      requires forall i, j :: 0 <= i < j < |bodies| ==> bodies[i] != bodies[j]
      modifies this`childrenBodies, this`childrenColliders, this`joints, this`ragdollBones, this`animatedBones
      modifies (set b | b in bodies)`drag, (set b | b in bodies)`angularDrag, (set b | b in bodies)`isKinematic
      ensures fresh(childrenBodies) && childrenBodies[..] == bodies
      ensures fresh(childrenColliders) && childrenColliders[..] == colliders
      ensures fresh(joints) && BonesMapped(s, find)
      ensures ragdollRoot.None? || animatedRoot.None? ==>
                ragdollBones == old(ragdollBones) && animatedBones == old(animatedBones)
      ensures ragdollRoot.Some? && animatedRoot.Some? ==> fresh(ragdollBones) && fresh(animatedBones)
      ensures ragdollRoot.Some? && animatedRoot.Some? ==> Tracking()
      ensures Damped(20.0, 1.0) && Simulated()
    {
      FindReferences(s, bodies, colliders, find);
      BodiesInElements(childrenBodies, bodies);
      InitializeRigidbodies();
    }

    /** `Initialize(ragdollContainer, animatedContainer)`: assigns both roots first. */
    method InitializeWithRoots(ragdollContainer: Option<NodeId>, animatedContainer: Option<NodeId>,
                               s: Scene, bodies: seq<Rigidbody>, colliders: seq<Collider>,
                               find: (NodeId, string) -> Option<NodeId>)
      requires Valid(s)
      requires ragdollContainer.Some? && animatedContainer.Some? ==>
                 forall b :: b in bodies ==> b.node in s && Descends(s, b.node, ragdollContainer.value)
      requires forall i, j :: 0 <= i < j < |bodies| ==> bodies[i] != bodies[j]
      modifies this`ragdollRoot, this`animatedRoot
      modifies this`childrenBodies, this`childrenColliders, this`joints, this`ragdollBones, this`animatedBones
      modifies (set b | b in bodies)`drag, (set b | b in bodies)`angularDrag, (set b | b in bodies)`isKinematic
      ensures ragdollRoot == ragdollContainer && animatedRoot == animatedContainer
      ensures fresh(childrenBodies) && childrenBodies[..] == bodies
      ensures fresh(childrenColliders) && childrenColliders[..] == colliders
      ensures fresh(joints) && BonesMapped(s, find)
      ensures ragdollRoot.None? || animatedRoot.None? ==>
                ragdollBones == old(ragdollBones) && animatedBones == old(animatedBones)
      ensures ragdollRoot.Some? && animatedRoot.Some? ==> fresh(ragdollBones) && fresh(animatedBones)
      ensures ragdollRoot.Some? && animatedRoot.Some? ==> Tracking()
      ensures Damped(20.0, 1.0) && Simulated()
    {
      ragdollRoot := ragdollContainer;
      animatedRoot := animatedContainer;
      Initialize(s, bodies, colliders, find);
    }

    /**
     * What `FixedUpdate` needs of the arrays when the ragdoll is not limp: an
     * animated bone entry for every body, a body wherever there is a bone, and
     * no body listed twice.
     */
    ghost predicate Tracking()
      reads this`childrenBodies, this`animatedBones, childrenBodies, animatedBones
    {
      && childrenBodies != null && animatedBones != null
      && animatedBones.Length >= childrenBodies.Length
      && (forall i :: 0 <= i < childrenBodies.Length && animatedBones[i].Some? ==> childrenBodies[i] != null)
      && (forall i, j :: 0 <= i < j < childrenBodies.Length && childrenBodies[i] != null ==>
            childrenBodies[i] != childrenBodies[j])
    }

    /**
     * One physics step of following the animation. `aim(body, bone)` is the
     * velocity and angular velocity that would carry the body onto its bone
     * within the step `dt`; each body that has a bone moves its velocities that
     * far towards those, by the factor `followStrength * dt`.
     */
    method FixedUpdate(aim: (NodeId, NodeId) -> (Vec3, Vec3), dt: real)
      requires !isLimp ==> Tracking()
      modifies BodiesIn(childrenBodies)`velocity, BodiesIn(childrenBodies)`angularVelocity
      ensures isLimp ==> unchanged(BodiesIn(childrenBodies))
      ensures !isLimp ==>
                forall i :: 0 <= i < childrenBodies.Length && animatedBones[i].Some? ==>
                  var goal := aim(childrenBodies[i].node, animatedBones[i].value);
                  && childrenBodies[i].velocity == Lerp(old(childrenBodies[i].velocity), goal.0, followStrength * dt)
                  && childrenBodies[i].angularVelocity
                     == Lerp(old(childrenBodies[i].angularVelocity), goal.1, followStrength * dt)
      ensures !isLimp ==>
                forall i :: 0 <= i < childrenBodies.Length && childrenBodies[i] != null && animatedBones[i].None? ==>
                  && childrenBodies[i].velocity == old(childrenBodies[i].velocity)
                  && childrenBodies[i].angularVelocity == old(childrenBodies[i].angularVelocity)
    {
      if isLimp {
        return;
      }
      FollowBones(childrenBodies, animatedBones, aim, followStrength * dt);
    }

    /**
     * `Initialize(ragdollContainer, animatedContainer)` and then `DisableLimp()`:
     * with both containers assigned, the component leaves limp with every body
     * simulated and damped, and with the arrays `FixedUpdate` needs to follow.
     */
    method StartFollowing(ragdollContainer: NodeId, animatedContainer: NodeId,
                          s: Scene, bodies: seq<Rigidbody>, colliders: seq<Collider>,
                          find: (NodeId, string) -> Option<NodeId>)
      requires Valid(s)
      requires forall b :: b in bodies ==> b.node in s && Descends(s, b.node, ragdollContainer)
      requires forall i, j :: 0 <= i < j < |bodies| ==> bodies[i] != bodies[j]
      modifies this`ragdollRoot, this`animatedRoot, this`isLimp, this`log
      modifies this`childrenBodies, this`childrenColliders, this`joints, this`ragdollBones, this`animatedBones
      modifies (set b | b in bodies)`drag, (set b | b in bodies)`angularDrag, (set b | b in bodies)`isKinematic
      ensures ragdollRoot == Some(ragdollContainer) && animatedRoot == Some(animatedContainer)
      ensures childrenBodies != null && childrenBodies[..] == bodies
      ensures childrenColliders != null && childrenColliders[..] == colliders
      ensures !isLimp && Tracking()
      ensures log == old(log) + [Fired(LimpDisabled)]
      ensures Damped(20.0, 1.0) && Simulated()
    {
      InitializeWithRoots(Some(ragdollContainer), Some(animatedContainer), s, bodies, colliders, find);
      BodiesInElements(childrenBodies, bodies);
      DisableLimp();
    }

    /** Pushes every body away from the component's own position with an impulse. */
    method AddForce(force: real)
      requires childrenBodies != null
      modifies this`isLimp, this`log
      modifies BodiesIn(childrenBodies)`drag, BodiesIn(childrenBodies)`angularDrag
      ensures isLimp && Damped(1.0, 0.0)
      ensures log == old(log) + [Fired(LimpEnabled)]
                     + Submissions(childrenBodies[..], Explosive(force, position), Impulse)
    {
      AddForceAt(force, position, Impulse);
    }

    /** Goes limp, then pushes every non-null body away from `forcePoint`. */
    method AddForceAt(force: real, forcePoint: Vec3, forceMode: ForceMode)
      requires childrenBodies != null
      modifies this`isLimp, this`log
      modifies BodiesIn(childrenBodies)`drag, BodiesIn(childrenBodies)`angularDrag
      ensures isLimp && Damped(1.0, 0.0)
      ensures log == old(log) + [Fired(LimpEnabled)]
                     + Submissions(childrenBodies[..], Explosive(force, forcePoint), forceMode)
    {
      EnableLimp();
      var effects := SubmitForces(childrenBodies, Explosive(force, forcePoint), forceMode);
      log := log + effects;
    }

    /** Goes limp, then submits the one `force` to every non-null body. */
    method AddForceVector(force: Vec3, forceMode: ForceMode)
      requires childrenBodies != null
      modifies this`isLimp, this`log
      modifies BodiesIn(childrenBodies)`drag, BodiesIn(childrenBodies)`angularDrag
      ensures isLimp && Damped(1.0, 0.0)
      ensures log == old(log) + [Fired(LimpEnabled)]
                     + Submissions(childrenBodies[..], Uniform(force), forceMode)
    {
      EnableLimp();
      var effects := SubmitForces(childrenBodies, Uniform(force), forceMode);
      log := log + effects;
    }
  }
}
