/**
 * The `Ragdoll` component: a switch between an animated body (every rigid body
 * kinematic, colliders off) and a physical one (bodies simulated, colliders on),
 * with an event for each direction and forces that first switch the ragdoll on.
 */
module Ragdolls {
  import opened Vectors
  import opened Physics

  class Ragdoll {
    var disableRagdollAtStart: bool
    var controlColliders: bool
    /** `ChildrenBodies`; null until references are found. */
    var childrenBodies: array?<Rigidbody?>
    /** `ChildrenColliders`; null until references are found. */
    var childrenColliders: array?<Collider?>
    /** `transform.position` of the component. */
    var position: Vec3
    /** `OnRagdollEnabled`/`OnRagdollDisabled` invocations and submitted forces, in order. */
    var log: seq<Effect>

    /** A component as added to a GameObject, with its serialized defaults. */
    constructor (position: Vec3)
      ensures disableRagdollAtStart && controlColliders
      ensures childrenBodies == null && childrenColliders == null
      ensures this.position == position && log == []
    {
      disableRagdollAtStart := true;
      controlColliders := true;
      childrenBodies := null;
      childrenColliders := null;
      this.position := position;
      log := [];
    }

    /**
     * Both arrays exist, every body they hold is kinematic exactly when `state`
     * is off, and, when the component controls colliders, every collider is
     * enabled exactly when `state` is on.
     */
    ghost predicate Activated(state: bool)
      reads this, childrenBodies, childrenColliders, BodiesIn(childrenBodies), CollidersIn(childrenColliders)
    {
      && childrenBodies != null && childrenColliders != null
      && (forall i :: 0 <= i < childrenBodies.Length && childrenBodies[i] != null ==>
            childrenBodies[i].isKinematic == !state)
      && (controlColliders ==>
            forall i :: 0 <= i < childrenColliders.Length && childrenColliders[i] != null ==>
              childrenColliders[i].enabled == state)
    }

    /**
     * The reference arrays are those of the earlier state, except that a null
     * one has become a new empty array.
     */
    twostate predicate Kept()
      reads this
    {
      && (old(childrenBodies) == null ==> fresh(childrenBodies) && childrenBodies.Length == 0)
      && (old(childrenBodies) != null ==> childrenBodies == old(childrenBodies))
      && (old(childrenColliders) == null ==> fresh(childrenColliders) && childrenColliders.Length == 0)
      && (old(childrenColliders) != null ==> childrenColliders == old(childrenColliders))
    }

    /** Takes every body and collider below the component, `GetComponentsInChildren`. */
    method FindReferences(bodies: seq<Rigidbody>, colliders: seq<Collider>)
      modifies this`childrenBodies, this`childrenColliders
      ensures fresh(childrenBodies) && childrenBodies[..] == bodies
      ensures fresh(childrenColliders) && childrenColliders[..] == colliders
    {
      childrenBodies := new Rigidbody?[|bodies|](i requires 0 <= i < |bodies| => bodies[i]);
      childrenColliders := new Collider?[|colliders|](i requires 0 <= i < |colliders| => colliders[i]);
    }

    method SetRagdoll(activationState: bool)
      modifies this`childrenBodies, this`childrenColliders
      modifies BodiesIn(childrenBodies)`isKinematic, CollidersIn(childrenColliders)`enabled
      ensures !controlColliders ==> unchanged(old(CollidersIn(childrenColliders)))
      ensures Kept() && Activated(activationState)
    {
      if childrenBodies == null {
        childrenBodies := new Rigidbody?[0];
      }
      if childrenColliders == null {
        childrenColliders := new Collider?[0];
      }
      var bodies, colliders := childrenBodies, childrenColliders;
      for i := 0 to bodies.Length
        invariant childrenBodies == bodies && childrenColliders == colliders
        invariant unchanged(old(CollidersIn(childrenColliders)))
        invariant forall j :: 0 <= j < i && bodies[j] != null ==> bodies[j].isKinematic == !activationState
      {
        var rb := bodies[i];
        if rb == null {
          continue;
        }
        rb.isKinematic := !activationState;
      }
      if !controlColliders {
        return;
      }
      for i := 0 to colliders.Length
        invariant childrenBodies == bodies && childrenColliders == colliders
        invariant forall j :: 0 <= j < i && colliders[j] != null ==> colliders[j].enabled == activationState
        invariant forall j :: 0 <= j < bodies.Length && bodies[j] != null ==> bodies[j].isKinematic == !activationState
      {
        var collider := colliders[i];
        if collider == null {
          continue;
        }
        collider.enabled := activationState;
      }
    }

    method EnableRagdoll()
      modifies this`childrenBodies, this`childrenColliders, this`log
      modifies BodiesIn(childrenBodies)`isKinematic, CollidersIn(childrenColliders)`enabled
      ensures !controlColliders ==> unchanged(old(CollidersIn(childrenColliders)))
      ensures Kept() && Activated(true)
      ensures log == old(log) + [Fired(RagdollEnabled)]
    {
      SetRagdoll(true);
      log := log + [Fired(RagdollEnabled)];
    }

    method DisableRagdoll()
      modifies this`childrenBodies, this`childrenColliders, this`log
      modifies BodiesIn(childrenBodies)`isKinematic, CollidersIn(childrenColliders)`enabled
      ensures !controlColliders ==> unchanged(old(CollidersIn(childrenColliders)))
      ensures Kept() && Activated(false)
      ensures log == old(log) + [Fired(RagdollDisabled)]
    {
      SetRagdoll(false);
      log := log + [Fired(RagdollDisabled)];
    }

    method Awake(bodies: seq<Rigidbody>, colliders: seq<Collider>)
      modifies this`childrenBodies, this`childrenColliders, this`log
      modifies (set b | b in bodies)`isKinematic, (set c | c in colliders)`enabled
      ensures fresh(childrenBodies) && childrenBodies[..] == bodies
      ensures fresh(childrenColliders) && childrenColliders[..] == colliders
      ensures disableRagdollAtStart ==> Activated(false) && log == old(log) + [Fired(RagdollDisabled)]
      ensures !disableRagdollAtStart ==>
                log == old(log) && unchanged(set b | b in bodies) && unchanged(set c | c in colliders)
      ensures !controlColliders ==> unchanged(set c | c in colliders)
    {
      FindReferences(bodies, colliders);
      BodiesInElements(childrenBodies, bodies);
      CollidersInElements(childrenColliders, colliders);
      if disableRagdollAtStart {
        DisableRagdoll();
      }
    }

    /** Pushes every body away from the component's own position with an impulse. */
    method AddForce(force: real)
      modifies this`childrenBodies, this`childrenColliders, this`log
      modifies BodiesIn(childrenBodies)`isKinematic, CollidersIn(childrenColliders)`enabled
      ensures !controlColliders ==> unchanged(old(CollidersIn(childrenColliders)))
      ensures Kept() && Activated(true)
      ensures log == old(log) + [Fired(RagdollEnabled)]
                     + Submissions(childrenBodies[..], Explosive(force, position), Impulse)
    {
      AddForceAt(force, position, Impulse);
    }

    /** Switches the ragdoll on, then pushes every non-null body away from `forcePoint`. */
    method AddForceAt(force: real, forcePoint: Vec3, forceMode: ForceMode)
      modifies this`childrenBodies, this`childrenColliders, this`log
      modifies BodiesIn(childrenBodies)`isKinematic, CollidersIn(childrenColliders)`enabled
      ensures !controlColliders ==> unchanged(old(CollidersIn(childrenColliders)))
      ensures Kept() && Activated(true)
      ensures log == old(log) + [Fired(RagdollEnabled)]
                     + Submissions(childrenBodies[..], Explosive(force, forcePoint), forceMode)
    {
      EnableRagdoll();
      var effects := SubmitForces(childrenBodies, Explosive(force, forcePoint), forceMode);
      log := log + effects;
    }

    /** Switches the ragdoll on, then submits the one `force` to every non-null body. */
    method AddForceVector(force: Vec3, forceMode: ForceMode)
      modifies this`childrenBodies, this`childrenColliders, this`log
      modifies BodiesIn(childrenBodies)`isKinematic, CollidersIn(childrenColliders)`enabled
      ensures !controlColliders ==> unchanged(old(CollidersIn(childrenColliders)))
      ensures Kept() && Activated(true)
      ensures log == old(log) + [Fired(RagdollEnabled)]
                     + Submissions(childrenBodies[..], Uniform(force), forceMode)
    {
      EnableRagdoll();
      var effects := SubmitForces(childrenBodies, Uniform(force), forceMode);
      log := log + effects;
    }
  }
}
