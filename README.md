# EzyRagdoll in Dafny

This is a model of the core of EzyRagdoll, a Unity package for building and driving ragdolls. It has three parts.

- **Rig templates** (`Rig`, `PathCodec`, `RigWindows`). A `RigTemplate` stores each of twelve humanoid bones as a string path from the pelvis. The path is made of dot-separated sibling indices, with "X" for the pelvis itself. The editor windows build a template from assigned bones and load bones back from a template.
- **Ragdoll components** (`Ragdolls`, `ActiveRagdolls`).
  - `Ragdoll` switches its rigid bodies between kinematic and simulated, and switches its colliders off and on.
  - `ActiveRagdoll` pairs every body with a bone of an animated copy, looked up by name path. On every physics step it moves each body's velocities towards its bone. Going limp releases the bodies.
  - Both components fire an event per switch, and both apply forces after switching.
- **Active-ragdoll conversion** (`Joints`, `Convertor`). Every `CharacterJoint` under a ragdoll container is replaced by a muscle-like `ConfigurableJoint`.

## How the model represents Unity

- **Scene graph.** The Unity scene graph is a `map` from node ids to nodes. Each node has a parent, an ordered list of children and a name. `Scenes.Valid` says the parent and child links agree and the tree is acyclic.
- **Null references** are `Option` values.
- **Crashes become preconditions.** Where the source would throw, the model's `requires` clause excludes that input. Examples: a null array, an unparsable path, or a target with no way up to the root.
- **Mutable objects.** Rigid bodies, colliders, templates, windows and components are classes whose fields the methods update in place. Unity's arrays of references are `array`s.
- **One ordered log.** `UnityEvent` invocations and `Rigidbody.AddForce` calls are appended to a log field (`seq<Effect>`). This lets event and force order be stated.
- **Unity lookups become parameters.** These queries into the engine are passed in:
  - `GetComponentsInChildren` is passed as the `bodies` and `colliders` sequences;
  - `Transform.Find` is passed as `find`;
  - the per-body target velocities of `FixedUpdate` are passed as `aim`;
  - `Time.fixedDeltaTime` is passed as `dt`.

## Model

| member | source | states |
|---|---|---|
| Scenes.ChildCountIsChildren | Runtime/RigTemplate.cs:201 | `ChildCount`, standing for `Transform.childCount`, is the number of nodes whose parent is the node |
| Scenes.GetChild | Runtime/RigTemplate.cs:204 | child i of a node is in the scene, has that node as parent, and is one level deeper |
| Scenes.SiblingIndex | Runtime/RigTemplate.cs:176 | the sibling index of a node with a parent is in range, and the parent's child at that index is the node |
| PathCodec.NatToString | Runtime/RigTemplate.cs:180-182 | an index is written as a nonempty string of decimal digits, with no leading zero, whose decimal value is the index; it is one character exactly when the index is below 10 |
| PathCodec.GetTransformPath | Runtime/RigTemplate.cs:170-183 | null encodes as ""; the result is "X" exactly when the node is `relativeTo` itself; every other result holds only digits and dots (the lemmas below give its exact form inside and outside the root) |
| PathCodec.GetTransformFromPath | Runtime/RigTemplate.cs:195-206 | decoding returns null or a node of the scene, and any node it returns is the start node or one of its descendants |
| PathCodec.Sentinels | Runtime/RigTemplate.cs:172-173 | the root encodes as "X" and a null node as ""; decoding a null path or "X" returns the start node, null included |
| PathCodec.DecodeOutOfRange | Runtime/RigTemplate.cs:200-201 | a leading index at or past the child count decodes to null, whatever follows it |
| PathCodec.EncodeUnder | Runtime/RigTemplate.cs:170-183 | below the root, the encoding is the index path from the root joined with '.': it starts with a digit and holds only digits and dots |
| PathCodec.EncodeOutside | Runtime/RigTemplate.cs:179-182 | for a node outside the root, or a null root, the encoding is "" at a top-level node and otherwise starts with '.' |
| PathCodec.DecodeJoin | Runtime/RigTemplate.cs:195-206 | with single-digit indices, decoding a joined index path never throws and equals walking those indices from the start node |
| PathCodec.RoundTrip | Runtime/RigTemplate.cs:170-206 | decoding the encoding of any node addressable from the root gives back that node |
| PathCodec.TwoDigitIndexNotDecodable | Runtime/RigTemplate.cs:200-205 | the eleventh child of a root encodes as "10", and decoding "10" throws instead of returning that child |
| PathCodec.ThreeCharacterPath | Runtime/RigTemplate.cs:200-205 | a three-character path whose first and last characters are digits never throws and is read as those two indices; the middle character, when it takes one UTF-16 code unit, is never read, so "1x0" decodes like "1.0" |
| PathCodec.WideSeparatorNotDecodable | Runtime/RigTemplate.cs:200-205 | "1.0" decodes on a small tree, but with a character outside the Basic Multilingual Plane in place of the '.' the decoder throws, because skipping two code units leaves half of that character to parse |
| PathCodec.ThreeDigitIndexMisread | Runtime/RigTemplate.cs:200-205 | index 100 is written "100", and on a small tree decoding "100" from the root silently returns child 0 of child 1 |
| Rig.RigTemplate.constructor | Runtime/RigTemplate.cs:16-76 | a new template has every slot null and no root |
| Rig.RigTemplate.Initialize | Runtime/RigTemplate.cs:83-87 | stores the pelvis as root and returns the same template |
| Rig.RigTemplate.WithSpineAndHead | Runtime/RigTemplate.cs:96-101 | writes the middle-spine and head slots as paths from the stored root, ignores the pelvis argument, keeps every other slot, and returns the same template |
| Rig.RigTemplate.WithLeftArmAndElbow | Runtime/RigTemplate.cs:109-114 | writes only the left arm and elbow slots, with paths from the stored root |
| Rig.RigTemplate.WithLeftLowerLimb | Runtime/RigTemplate.cs:123-129 | writes only the left hips, knee and foot slots, with paths from the stored root |
| Rig.RigTemplate.WithRightArmAndElbow | Runtime/RigTemplate.cs:137-142 | writes only the right arm and elbow slots, with paths from the stored root |
| Rig.RigTemplate.WithRightLowerLimb | Runtime/RigTemplate.cs:151-157 | writes only the right hips, knee and foot slots, with paths from the stored root |
| RigWindows.IsUnderRoot | Editor/BaseRigContainerWindow.cs:205-216 | true exactly when neither the pelvis nor the bone is null and the pelvis is the bone or one of its ancestors |
| RigWindows.AreAllBonesValid | Editor/BaseRigContainerWindow.cs:182-203 | true exactly when all thirteen bones are assigned and lie under an assigned pelvis |
| RigWindows.DecodePaths | Editor/RagdollCreator.cs:87-106 | loading keeps the pelvis, and every loaded bone is in the scene |
| RigWindows.BoneRoundTrip | Runtime/RigTemplate.cs:170-206 | for one bone slot, the bone's path from the pelvis decodes back to the bone |
| RigWindows.RigRoundTrip | Editor/RigTemplateCreator.cs:42-48 | a template built from a rig whose sibling indices are all single digits loads back, against the same pelvis, to exactly the same thirteen bones |
| RigWindows.UnderRootBoneEncodes | Editor/BaseRigContainerWindow.cs:205-216 | a bone that passes the under-root check and is not the pelvis encodes as digits and dots with no leading '.' |
| RigWindows.RigWindow.LoadBones | Editor/RagdollCreator.cs:87-106 | every bone becomes the decode of its same-named slot against the pelvis, and the pelvis is only read |
| RigWindows.RigWindow.LoadBonesButton | Editor/RagdollCreator.cs:55-56 | loading happens only when both a template and a pelvis are assigned; otherwise the bones are unchanged |
| RigWindows.RigWindow.CreateTemplate | Editor/RigTemplateCreator.cs:42-48 | the chained setters produce a fresh template rooted at the pelvis whose slots are the bones' paths |
| RigWindows.RigWindow.CreateAndReloadTemplate | Editor/RigTemplateCreator.cs:42-48 | creating a template and then loading it leaves every bone as it was, for a single-digit rig |
| Vectors.Clamp01 | Runtime/ActiveRagdoll.cs:159-160 | the factor is clamped into [0, 1]: it is unchanged inside, 0 below and 1 above |
| Vectors.Lerp | Runtime/ActiveRagdoll.cs:159-160 | `Vector3.Lerp`, which computes a + (b - a) * clamp01(t): a factor of 0 or less keeps the old velocity, and a factor of 1 or more lands on the target |
| Vectors.LerpGap | Runtime/ActiveRagdoll.cs:159-160 | after a step, the remaining gap to the target is the old gap scaled by 1 - clamp(t) |
| Joints.ConvertJoint | Editor/ActiveRagdollConvertor.cs:146-176 | the new joint copies the anchors, connected body, axis and swing axis, turns off auto-configured anchors, has springs of the given strength with damping one fifth of it, locked translation, limited rotation and limits -45/45/30/30 |
| Joints.ConvertJointCharacterized | Editor/ActiveRagdollConvertor.cs:146-176 | a joint is the converted one if and only if it has the muscle settings and copies the character joint's attachment |
| Joints.ConvertJointIgnoresLimits | Editor/ActiveRagdollConvertor.cs:146-176 | the character joint's twist and swing limits do not affect the converted joint |
| Convertor.ActiveRagdollConvertor.constructor | Editor/ActiveRagdollConvertor.cs:20-25 | a new converter has no container and strength 10 |
| Convertor.ActiveRagdollConvertor.ConvertToConfigurableJoints | Editor/ActiveRagdollConvertor.cs:133-183 | every body with a character joint loses it and gains the converted configurable joint; a body without one is unchanged |
| Convertor.ActiveRagdollConvertor.ConvertToActiveRagdoll | Editor/ActiveRagdollConvertor.cs:62-94 | converts exactly when a container is assigned; without one no joint changes |
| Physics.NonNull | Runtime/Ragdoll.cs:140-145 | the bodies the force loop does not skip: at most as many as the array has, each from the array, and every non-null entry among them |
| Physics.NonNullAppend | Runtime/Ragdoll.cs:140-145 | dropping nulls distributes over concatenation, so the bodies that are not skipped keep their array order |
| Physics.SubmissionsOnePerBody | Runtime/Ragdoll.cs:140-145 | the force loop submits exactly one force per non-null body, in array order, each with the same push and mode |
| Physics.SubmitForces | Runtime/BaseRagdoll.cs:116-121 | the loop's submissions are those of the reference definition over the whole array |
| Ragdolls.Ragdoll.constructor | Runtime/Ragdoll.cs:20-25 | ragdoll disabled at start and colliders controlled by default; no references yet, empty log |
| Ragdolls.Ragdoll.FindReferences | Runtime/Ragdoll.cs:62-72 | fresh arrays holding exactly the given bodies and colliders |
| Ragdolls.Ragdoll.SetRagdoll | Runtime/Ragdoll.cs:78-100 | a null array becomes empty; every body is kinematic exactly when the state is off; with collider control, every collider is enabled exactly when the state is on; without it, no collider changes |
| Ragdolls.Ragdoll.EnableRagdoll | Runtime/Ragdoll.cs:106-110 | activates the ragdoll, then fires exactly the enabled event |
| Ragdolls.Ragdoll.DisableRagdoll | Runtime/Ragdoll.cs:116-120 | deactivates the ragdoll, then fires exactly the disabled event |
| Ragdolls.Ragdoll.Awake | Runtime/Ragdoll.cs:52-56 | finds references; disables the ragdoll with its event when it is to start disabled, and otherwise changes no body or collider and fires nothing |
| Ragdolls.Ragdoll.AddForce | Runtime/Ragdoll.cs:126-129 | activates the ragdoll, then pushes every body away from the component's own position with an impulse |
| Ragdolls.Ragdoll.AddForceAt | Runtime/Ragdoll.cs:137-146 | activates the ragdoll, fires the enabled event, then submits one explosive force per non-null body in array order |
| Ragdolls.Ragdoll.AddForceVector | Runtime/Ragdoll.cs:153-162 | activates the ragdoll, fires the enabled event, then submits the same force to every non-null body in array order |
| ActiveRagdolls.GetPath | Runtime/ActiveRagdoll.cs:166-170 | the path of the root is "", and the path of any node below it ends with that node's own name |
| ActiveRagdolls.GetPathJoinsNames | Runtime/ActiveRagdoll.cs:166-170 | with no empty name on the way, the path is the names below the root joined by '/', with no leading or doubled separator |
| ActiveRagdolls.FirstJoint | Runtime/ActiveRagdoll.cs:114-115 | no joint exactly when the body has none, and otherwise its first joint |
| ActiveRagdolls.MapBones | Runtime/ActiveRagdoll.cs:105-116 | entry i holds body i's Transform, the animated bone found under body i's name path, and body i's joint |
| ActiveRagdolls.MapBone | Runtime/ActiveRagdoll.cs:107-115 | fills entry i of the three bone arrays and leaves every other entry unchanged |
| ActiveRagdolls.Follow | Runtime/ActiveRagdoll.cs:159-160 | both velocities are interpolated towards their targets by the step factor |
| ActiveRagdolls.FollowBones | Runtime/ActiveRagdoll.cs:141-161 | a body with a bone has both velocities interpolated towards what it is aimed at; a body without one is unchanged |
| ActiveRagdolls.ActiveRagdoll.constructor | Runtime/ActiveRagdoll.cs:18 | not limp, not limp at start, follow strength 10, no roots or references, empty log |
| ActiveRagdolls.ActiveRagdoll.BaseSetLimpState | Runtime/BaseRagdoll.cs:91-96 | records the limp state and fires exactly the one matching event |
| ActiveRagdolls.ActiveRagdoll.SetLimpState | Runtime/ActiveRagdoll.cs:70-83 | also gives every body drag 1 and angular drag 0 when limp, and 20 and 1 otherwise |
| ActiveRagdolls.ActiveRagdoll.EnableLimp | Runtime/BaseRagdoll.cs:79 | goes limp with the limp drag and fires the limp-enabled event |
| ActiveRagdolls.ActiveRagdoll.DisableLimp | Runtime/BaseRagdoll.cs:85 | leaves the limp state with the following drag and fires the limp-disabled event |
| ActiveRagdolls.ActiveRagdoll.Awake | Runtime/BaseRagdoll.cs:53-57 | enters the initial limp state, with its drag and its one event |
| ActiveRagdolls.ActiveRagdoll.BaseFindReferences | Runtime/BaseRagdoll.cs:63-73 | fresh arrays holding exactly the given bodies and colliders |
| ActiveRagdolls.ActiveRagdoll.FindReferences | Runtime/ActiveRagdoll.cs:88-117 | a fresh joint array of the body count; with a root missing every joint is null and the bone arrays are untouched; otherwise fresh bone arrays map every body, and the arrays meet what `FixedUpdate` needs to follow |
| ActiveRagdolls.ActiveRagdoll.InitializeRigidbodies | Runtime/ActiveRagdoll.cs:122-135 | every body gets drag 20 and angular drag 1 and is simulated |
| ActiveRagdolls.ActiveRagdoll.Initialize | Runtime/ActiveRagdoll.cs:64-68 | references found and mapped, then every body damped and simulated; with both roots set, the arrays meet what `FixedUpdate` needs to follow |
| ActiveRagdolls.ActiveRagdoll.InitializeWithRoots | Runtime/ActiveRagdoll.cs:53-58 | assigns both roots, then initializes against them; with both roots set, the arrays meet what `FixedUpdate` needs to follow |
| ActiveRagdolls.ActiveRagdoll.StartFollowing | Runtime/ActiveRagdoll.cs:53-58 | initializing with both containers and then leaving limp gives a damped, simulated, non-limp ragdoll whose arrays meet what `FixedUpdate` needs, with exactly one limp-disabled event logged |
| ActiveRagdolls.ActiveRagdoll.FixedUpdate | Runtime/ActiveRagdoll.cs:137-162 | a limp ragdoll changes no body; otherwise each body with a bone moves its velocities towards the aimed ones by followStrength * dt, and the others are unchanged |
| ActiveRagdolls.ActiveRagdoll.AddForce | Runtime/BaseRagdoll.cs:102-105 | goes limp, then pushes every body away from the component's own position with an impulse |
| ActiveRagdolls.ActiveRagdoll.AddForceAt | Runtime/BaseRagdoll.cs:113-122 | goes limp (limp drag, limp-enabled event), then submits one explosive force per non-null body in array order |
| ActiveRagdolls.ActiveRagdoll.AddForceVector | Runtime/BaseRagdoll.cs:129-138 | goes limp, then submits the same force to every non-null body in array order |

## Left out

- **GUI out of scope:** editor GUI drawing, help boxes, menu items, `AssetDatabase` saving and selection focus are left out; they do not change the modelled state.
- **CreateRagdoll not modelled:** `CreateRagdoll` of `RagdollCreator` builds a ragdoll through reflection into Unity's internal ragdoll builder. That code cannot be seen.
- **What surrounds the conversion is not modelled:** these are scene edits outside the joint logic, and `ConvertToActiveRagdoll` models only the container guard and the joint conversion.
  - Before the conversion: `InitializeAnimatedObject`, which duplicates the ragdoll into the animated copy, and the removal of the ragdoll container's Animator.
  - After it: the new parent object placed at the container's position and rotation; the `AddComponent<ActiveRagdoll>().Initialize(...)` call on that parent; the reparenting of both copies under it; and the renaming to "Ragdoll" and "Animated".
  - The effect of that `Initialize` call is modelled on its own, as `ActiveRagdolls.ActiveRagdoll.InitializeWithRoots`.
- **Samples are not modelled:** the trigger scripts under Samples are context.
- **Reals, not floats:** vectors, drags, strengths and limits are real numbers. Floating-point rounding is not modelled.
- **Force direction not modelled:** the direction of an explosive force, `(rb.transform.position - forcePoint).normalized`, needs body positions and a square root. A force records its magnitude, its point and its mode instead.
- **Target velocities are a parameter:** `FixedUpdate` computes them from positions, quaternions and angle-axis decomposition. The model receives them as the `aim` parameter.
- **Edits the model does not represent:** the interpolation and collision-detection mode writes of `InitializeRigidbodies`, and the destruction of the old `CharacterJoint` component beyond clearing it.
- **Joint defaults:** `AddedJoint` stands for Unity's defaults for a new joint. Every one of them is overwritten, so the values chosen do not matter.
- **FindReferences filter:** `FindReferences` filters with `x.transform != this`. That compares a Transform with the component itself, so it is always true and keeps every body and collider. The model keeps all of them.
- **Unused controlColliders:** `BaseRagdoll.ControlColliders` is never read by the base class or by `ActiveRagdoll`, so it is not a field of the model.
- **Logging:** the `Debug.Log` and `Debug.LogError` messages of `ActiveRagdoll.FindReferences` and of the converter are console output only, so the model leaves them out.
- **One character joint per body:** a body's character joint is an `Option`. The source converts only the joint `TryGetComponent` returns and would leave any second `CharacterJoint` on the same body in place; the model cannot represent that second joint.
- **Null events:** a null `UnityEvent` reference, which `?.Invoke` skips, is still logged as fired.
- **ActiveRagdolls.GetPath:** the source calls `GetPath(root, target.parent)` twice; the model computes it once, which gives the same result. It requires the target to lie at or below the root, because otherwise the source recurses past a null parent and throws.
- **ActiveRagdolls.GetPathJoinsNames:** assumes no name on the way is empty. An empty name makes the source omit the next separator; `GetPath` itself models that case.
- **PathCodec.GetTransformFromPath:** requires `Decodable`, that is, a path on which the source does not throw. The source throws on a non-digit at a position read as an index, on an empty remainder, and on a descent from a null node. A character between two indices, where a '.' belongs, is skipped unread when it takes one UTF-16 code unit. Dafny strings are sequences of Unicode scalar values, so `Decodable` states the code-unit condition on each skipped character explicitly; `WideSeparatorNotDecodable` shows the case it excludes.
- **PathCodec.RoundTrip:** holds only for nodes whose sibling indices are all single digits. With a larger index the decoder reads the digits as separate indices: a two-digit index throws (`TwoDigitIndexNotDecodable`), and a three-digit one can silently return a different node (`ThreeDigitIndexMisread`).
- **Awake and force methods require references:** `ActiveRagdolls.ActiveRagdoll.Awake` and the `EnableLimp`/`DisableLimp`/`SetLimpState`/`AddForce*` methods require the body array to exist. The source dereferences it and would throw on null.
- **ActiveRagdolls.ActiveRagdoll.FixedUpdate:** requires a non-limp ragdoll to have a bone entry for every body, a body wherever there is a bone, and no body listed twice. With both roots assigned, `FindReferences` establishes all three, because `GetComponentsInChildren` lists each body once; `StartFollowing` carries them through `DisableLimp`. With a root missing it leaves the bone array as it was. If that array is null or shorter than the new body array, the source's `FixedUpdate` would throw. If it is at least as long, `FixedUpdate` follows the out-of-date bones; the model covers that case through `Tracking`. A body listed twice would be interpolated twice; this is not modelled.
- **ActiveRagdolls.ActiveRagdoll.FindReferences:** requires every body to lie below the ragdoll root when both roots are set. `GetPath` would otherwise throw. It also requires the given bodies to be distinct, as `GetComponentsInChildren` returns each component once.
- **Grouped fields:** the twelve template strings are one `Paths` record, and the thirteen window bones are one `Bones` record. Each setter replaces the record with a copy that differs only in its own slots.
- **One class per hierarchy:** Dafny classes do not inherit, so `BaseRagdoll` and its one subclass `ActiveRagdoll` are one class. So are `BaseRigContainerWindow` and the two windows. The base implementations are kept as `BaseSetLimpState` and `BaseFindReferences`.

