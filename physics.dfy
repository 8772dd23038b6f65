/**
 * The Unity components the ragdoll code drives: rigid bodies and colliders,
 * whose fields the components update in place, plus the ordered record of what
 * a component does to the outside world. Every `UnityEvent` invocation and
 * every `Rigidbody.AddForce` call is one `Effect` appended to a log, so claims
 * about the order of events and forces can be stated.
 */
module Physics {
  import opened Wrappers
  import opened Scenes
  import opened Vectors
  import opened Joints

  /** `UnityEngine.ForceMode` */
  datatype ForceMode = Force | Acceleration | Impulse | VelocityChange

  /**
   * The force handed to one body: an explosion of the given magnitude away from
   * a point (its direction per body is not modelled), or one vector for all.
   */
  datatype Push = Explosive(magnitude: real, point: Vec3) | Uniform(force: Vec3)

  datatype Event = RagdollEnabled | RagdollDisabled | LimpEnabled | LimpDisabled

  class Rigidbody {
    /** The Transform the body is attached to. */
    const node: NodeId
    var isKinematic: bool
    var drag: real
    var angularDrag: real
    var velocity: Vec3
    var angularVelocity: Vec3
    /** The `CharacterJoint` on the same GameObject, if any. */
    var characterJoint: Option<CharacterJoint>
    /** The `ConfigurableJoint` components on the same GameObject, in order. */
    var configurableJoints: seq<ConfigurableJoint>

    constructor (node: NodeId)
      ensures this.node == node
    {
      this.node := node;
    }
  }

  class Collider {
    var enabled: bool

    constructor ()
    {
    }
  }

  datatype Effect = Fired(event: Event) | Submitted(body: Rigidbody, push: Push, mode: ForceMode)

  /** The bodies an array refers to; none when the array itself is null. */
  ghost function BodiesIn(a: array?<Rigidbody?>): set<Rigidbody>
    reads a
  {
    if a == null then {} else set i | 0 <= i < a.Length && a[i] != null :: a[i]
  }

  /** The colliders an array refers to; none when the array itself is null. */
  ghost function CollidersIn(a: array?<Collider?>): set<Collider>
    reads a
  {
    if a == null then {} else set i | 0 <= i < a.Length && a[i] != null :: a[i]
  }

  /** An array filled from a list of bodies refers to exactly the bodies of that list. */
  lemma BodiesInElements(a: array<Rigidbody?>, bs: seq<Rigidbody>)
    requires a[..] == bs
    ensures BodiesIn(a) == set b | b in bs
  {
    forall b | b in bs ensures b in BodiesIn(a) {
      var i :| 0 <= i < |bs| && bs[i] == b;
      assert a[i] == b;
    }
  }

  /** An array filled from a list of colliders refers to exactly the colliders of that list. */
  lemma CollidersInElements(a: array<Collider?>, cs: seq<Collider>)
    requires a[..] == cs
    ensures CollidersIn(a) == set c | c in cs
  {
    forall c | c in cs ensures c in CollidersIn(a) {
      var i :| 0 <= i < |cs| && cs[i] == c;
      assert a[i] == c;
    }
  }

  /** The non-null entries of `bs`, in order. */
  function NonNull(bs: seq<Rigidbody?>): (r: seq<Rigidbody>)
    ensures |r| <= |bs|
    ensures forall k :: 0 <= k < |r| ==> r[k] in bs
    ensures forall k :: 0 <= k < |bs| && bs[k] != null ==> bs[k] in r
  {
    if bs == [] then []
    else NonNull(bs[..|bs| - 1]) + (if bs[|bs| - 1] == null then [] else [bs[|bs| - 1]])
  }

  /** Dropping nulls distributes over concatenation, so the survivors keep their array order. */
  lemma {:induction false} NonNullAppend(a: seq<Rigidbody?>, b: seq<Rigidbody?>)
    ensures NonNull(a + b) == NonNull(a) + NonNull(b)
    decreases |b|
  {
    if b == [] {
      assert a + b == a;
    } else {
      var init := b[..|b| - 1];
      assert (a + b)[..|a + b| - 1] == a + init;
      NonNullAppend(a, init);
    }
  }

  /** What a force loop that skips null bodies submits, in array order. */
  function Submissions(bs: seq<Rigidbody?>, push: Push, mode: ForceMode): seq<Effect> {
    if bs == [] then []
    else Submissions(bs[..|bs| - 1], push, mode)
         + (if bs[|bs| - 1] == null then [] else [Submitted(bs[|bs| - 1], push, mode)])
  }

  /** Exactly one submission per non-null body, in array order, each with the same force and mode. */
  lemma {:induction false} SubmissionsOnePerBody(bs: seq<Rigidbody?>, push: Push, mode: ForceMode)
    ensures |Submissions(bs, push, mode)| == |NonNull(bs)|
    ensures forall k :: 0 <= k < |NonNull(bs)| ==>
              Submissions(bs, push, mode)[k] == Submitted(NonNull(bs)[k], push, mode)
  {
    if bs != [] {
      SubmissionsOnePerBody(bs[..|bs| - 1], push, mode);
    }
  }

  /** Submits `push` with `mode` to every non-null body, in array order. */
  method SubmitForces(bodies: array<Rigidbody?>, push: Push, mode: ForceMode) returns (effects: seq<Effect>)
    ensures effects == Submissions(bodies[..], push, mode)
  {
    effects := [];
    for i := 0 to bodies.Length
      invariant effects == Submissions(bodies[..i], push, mode)
    {
      assert bodies[..i + 1][..i] == bodies[..i];
      var rb := bodies[i];
      if rb == null {
        continue;
      }
      effects := effects + [Submitted(rb, push, mode)];
    }
    assert bodies[..bodies.Length] == bodies[..];
  }
}
