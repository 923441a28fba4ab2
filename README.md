# Car controller core, modelled in Dafny

The repository is a single React / three.js page (`src/App.tsx`) that loads a
Porsche model, moves its wheel meshes under four pivot groups and drives the
car with `w`, `a`, `s`, `d`. This project models the part of that file that
is logic rather than rendering glue:

- **Wheel-mesh classification** (`Text`, `WheelNames`). A mesh name is
  lower-cased and tested with `includes` against the lower-cased fragments of
  the wheel-name table, trying the wheels in the fixed order front-left,
  front-right, rear-left, rear-right. The first wheel that matches gets the
  mesh. The order matters for the real table: each front hub fragment is the
  rear hub fragment of the same side with a `t` in front, so a front hub mesh
  matches two lists (`WheelNames.FrontLeftHubMatchesRear`,
  `WheelNames.FrontRightHubMatchesRear`).
- **Reparent pass and pivot recentring** (`Rig`, `Controller.CarController.Visit`,
  `Reparent`, `OnModelLoaded`). The traversal is a sequence of visited nodes
  (name, whether it is a mesh, world position). Each matching mesh is attached
  to its wheel group, and its world position overwrites that wheel's entry of
  `wheelPositions`. Each group's origin is then moved to that position, seen in
  the vehicle root's frame, and every child is shifted back by the same vector.
- **Per-frame vehicle update** (`Kinematics`, `Controller.CarController.Step`)
  and the key handlers (`KeyDown`, `KeyUp`). The key table decides the chassis
  yaw, the four wheels' roll, the front wheels' steer angle and the chassis
  displacement. The constants are speed 4, rotation speed 1 and maximum steer
  0.09.

The state the source keeps in closure variables is the class
`Controller.CarController`: the key table, whether the model has loaded, the
chassis yaw and position, and four `Rig.WheelGroup` objects. Its methods are
proved against the pure functions of `Rig` and `Kinematics`, and the lemmas
about those functions state what the code promises.

Where the code and its comments or descriptions disagree, the model follows
the code:

- **Captured position.** The comments at src/App.tsx:127 and :130 speak of the
  "first" component and of capturing "only once". The callback writes the slot
  on every match, so within the visit sequence the model is given, the last
  matching visit supplies the position (`Rig.CapturedAt`). Which visit comes
  last in the running program depends on how three.js `traverse` revisits the
  meshes already moved into the wheel groups; that revisit is not modelled
  (see `Rig.CapturedAt` under "## Left out").
- **Wheel with no match.** Such a wheel is said to end up at the root's local
  origin. The code converts the untouched zero world vector with
  `worldToLocal`, so the group sits at `toLocal(0, 0, 0)`. That is the local
  origin only when the model's transform maps the world origin there.
- **Both `w` and `s` held.** No spin is said to be applied. The code spins the
  wheels forward (`(w ? 1 : -1)` picks 1), while `moveDir.z` ends at -1, so
  the car moves backwards (`Kinematics.BothPedals`).
- **Spin pivots.** Each wheel group is said to own a spin-pivot child.
  `setupWheelRotationPivot` runs on the new, empty groups, so it creates
  nothing (`Rig.WheelGroup.SetupRotationPivot`).

## Model

| member | source | states |
|---|---|---|
| `Text.ToLower` | src/App.tsx:122 | the lower-cased name has the same length and each character is lower-cased on its own |
| `Text.ToLowerIdempotent` | src/App.tsx:122-125 | a lower-cased name has no upper-case letter, and lower-casing it again changes nothing |
| `Text.LowerOfLower` | src/App.tsx:125 | lower-casing a string with no upper-case letter returns it unchanged |
| `Text.IncludesIff` | src/App.tsx:125 | `includes` holds exactly when the fragment occurs at some offset of the name (so the empty fragment is in every name) |
| `Text.IncludesSuffix` | src/App.tsx:125 | a name includes every string it ends with |
| `Text.IncludesTrans` | src/App.tsx:125 | a name that includes a fragment includes every string that fragment includes |
| `Text.ToLowerAppend` | src/App.tsx:122-125 | lower-casing a concatenation lower-cases each part |
| `WheelNames.AnyIncluded` | src/App.tsx:125 | `some(n => name.includes(n.toLowerCase()))` holds exactly when some fragment of the list, lower-cased, occurs in the name |
| `WheelNames.ClassifySome` | src/App.tsx:125-142 | a mesh goes to wheel w exactly when w's list matches and no wheel before w in the order fl, fr, rl, rr matches |
| `WheelNames.ClassifyNone` | src/App.tsx:120-143 | a mesh goes to no wheel exactly when no list matches |
| `WheelNames.ExtendedFragmentMatchesBoth` | src/App.tsx:125-138 | when a fragment of one wheel's list ends with a fragment of another's, a name that includes the longer fragment matches both lists |
| `WheelNames.FrontLeftHubMatchesRear` | src/App.tsx:53-61 | the front-left hub mesh matches both the front-left and the rear-left list, and the check order sends it to the front-left wheel |
| `WheelNames.FrontRightHubMatchesRear` | src/App.tsx:57-65 | the front-right hub mesh matches both the front-right and the rear-right list |
| `WheelNames.ClassifyIgnoresCase` | src/App.tsx:122-125 | a name and its lower-cased form are classified alike |
| `Rig.RouteGoesTo` | src/App.tsx:120-142 | the traverse callback attaches node n to wheel w exactly when n is a mesh, w's list matches and no earlier wheel matches |
| `Rig.RouteStaysPut` | src/App.tsx:120-143 | a node is left in place exactly when it is not a mesh or no list matches its name |
| `Rig.MembersExactly` | src/App.tsx:120-143 | a node is in wheel w's group exactly when it was visited and routed to w |
| `Rig.Partition` | src/App.tsx:120-143 | the four groups plus the unmoved nodes are a permutation of the visited nodes, so each mesh lands in at most one group and a non-matching node is not moved |
| `Rig.CapturedIsLastMember` | src/App.tsx:112-142 | a wheel's captured position is the world position of the last mesh in its group, or the zero vector if the group is empty |
| `Rig.CapturedAt` | src/App.tsx:125-142 | if visited node i is routed to w and no later node in the given visit sequence is, w's captured position is node i's world position |
| `Rig.CapturedNoMatch` | src/App.tsx:112-117 | a wheel that no visited mesh matches keeps the zero vector and gets no children |
| `Rig.WheelGroup.constructor` | src/App.tsx:69-74 | a new group is at the origin, unrotated and empty |
| `Rig.WheelGroup.SetupRotationPivot` | src/App.tsx:76-98 | on an empty group the pivot set-up changes nothing |
| `Rig.WheelGroup.Attach` | src/App.tsx:126 | `attach` appends the mesh as the last child, at its world position seen through the group's world-to-local map, and changes nothing else |
| `Rig.WheelGroup.SetPivot` | src/App.tsx:150-158 | the group's position becomes `worldToLocal(worldPos)`; each child keeps its mesh and its local position drops by that vector; group position plus child position equals the child's old position; the child count and the angles are unchanged |
| `Vectors.Normalize` | src/App.tsx:217 | normalising a z-axis vector gives z = 1 or -1 by its sign, and the zero vector stays zero instead of becoming NaN |
| `Kinematics.KeyEvents` | src/App.tsx:169-171 | keydown makes the lower-cased key held, keyup makes it released, and no other key's state changes |
| `Kinematics.UpperCaseKey` | src/App.tsx:170-171 | `W` and `w` are the same key for both handlers |
| `Kinematics.ThrottleZ` | src/App.tsx:182-187 | `moveDir.z` is zero exactly when neither `w` nor `s` is held |
| `Kinematics.RollRule` | src/App.tsx:189-196 | with `w` or `s` held, all four wheels' `rotation.x` drop by the same `(w ? 1 : -1) * 4 * delta`; otherwise no wheel rolls |
| `Kinematics.YawRule` | src/App.tsx:199-203 | the chassis yaw changes only while `w` or `s` is held; then `a` adds delta and `d` subtracts it, and holding both leaves it unchanged |
| `Kinematics.SteerRule` | src/App.tsx:205-215 | both front steer angles are set to 0.09 with `a`, else -0.09 with `d`, else 0, whatever they were before; the rear steer angles are untouched |
| `Kinematics.DisplacementRule` | src/App.tsx:182-217 | the local displacement is (0, 0, z * 4 * delta), with z = -1 if `s` is held, 1 if only `w` is, 0 otherwise; with neither key it is the zero vector |
| `Kinematics.BothPedals` | src/App.tsx:186-190 | with `w` and `s` both held the wheels roll forward by 4 * delta while the displacement is backward |
| `Kinematics.ForwardHalfSecond` | src/App.tsx:174-219 | holding only `w` for delta = 0.5 moves the car 2 units forward in its own frame, rolls the wheels back 2 radians and keeps the heading |
| `Kinematics.SteerWithoutThrottle` | src/App.tsx:199-217 | holding only `a` steers the front wheels to 0.09 but neither turns nor moves the car |
| `Controller.CarController.constructor` | src/App.tsx:69-98 | the start state has four distinct, fresh wheel groups, no model and an empty key table |
| `Controller.CarController.KeyDown` | src/App.tsx:170 | the key table becomes the old one with the lower-cased key set to true |
| `Controller.CarController.KeyUp` | src/App.tsx:171 | the key table becomes the old one with the lower-cased key set to false |
| `Controller.CarController.Visit` | src/App.tsx:120-143 | one traverse callback appends the node to exactly the group it is routed to, overwrites exactly that wheel's captured position, and leaves every group's pose alone |
| `Controller.CarController.Reparent` | src/App.tsx:112-144 | after the traversal, each group holds its members in visiting order (attached at their world positions) and each captured position is `Captured` (the last match, or zero) |
| `Controller.CarController.OnModelLoaded` | src/App.tsx:101-163 | after the load callback the model is loaded and turned by pi; each group's origin is `worldToLocal` of its captured position; each group holds exactly its members; every mesh is still rendered at its own world position |
| `Controller.CarController.Step` | src/App.tsx:178-228 | before the model loads a frame changes nothing; afterwards the yaw and the wheel angles are `NextPose` of the old ones, and the chassis moves by the local displacement rotated by its new orientation; keys, children and group positions are unchanged |

## Left out

- Rendering: the renderer, scene, background, fog, environment map, grid, camera, orbit controls and resize handling (src/App.tsx:11-36, 229-246). They are library glue with no logic of their own.
- Asset loading: the GLTF, DRACO and HDR loaders and the asynchronous callback mechanism (src/App.tsx:17, 41-48, 101). `OnModelLoaded` is the callback body. The loaded scene reaches it as parameters: the visited nodes, the root's starting position and the root's world-to-local map.
- The order in which three.js `traverse` visits nodes is an input. It reorders under `attach` during the traversal, and it revisits meshes through the wheel groups added to the model before the traversal. The model does not reproduce either effect.
- `attach`, `getWorldPosition`, `worldToLocal` and `applyQuaternion` are matrix and quaternion arithmetic. Positions are tracked, but a mesh's rotation and scale are not. `worldToLocal` is the parameter `toLocal`. `applyQuaternion` is the parameter `rotate(yaw, v)`, so the displacement is stated exactly only in the car's own frame.
- The model's scale of 60 (src/App.tsx:105) is folded into `toLocal`. The turn by `Math.PI` (src/App.tsx:106) is kept as the starting yaw.
- The unused camera offset vector and the copy of the chassis position into the orbit-control target (src/App.tsx:177, 222-227) are camera glue.
- `clock.getDelta()` is an external time source, so `delta` is a parameter of `Step`.
- The JSX, the touch buttons and `pressKey` / `releaseKey` (src/App.tsx:251-324) only dispatch the same key events that `KeyDown` and `KeyUp` model.
- The `if (wheels.fl)` guards in `animate` are omitted: the groups always exist.
- Floating point: angles, positions and `delta` are reals, so rounding is not modelled.
- `Text.ToLower` lower-cases only the ASCII letters A-Z, where JavaScript's `toLowerCase` covers all of Unicode.
- `Vectors.Normalize` is modelled only for vectors on the z axis, because a general length needs a square root. `moveDir` is always such a vector.
- `Rig.CapturedAt`: speaks of the last matching visit in the given sequence, which omits the revisits. Because the wheel groups join the model before the traversal (src/App.tsx:109), `traverse` also reaches the meshes already attached to them. Each revisit moves a mesh to the end of its group again and rewrites the captured slot. On one reading of three.js's index-based child loop, the last write is then the group's first child, as the comment at src/App.tsx:127 intends. The model does not decide which mesh the running program captures.
- `WheelNames.FrontRightHubMatchesRear`: states only that both right-hand lists match. That the mesh then goes to the front-right wheel also needs it not to match the front-left list. The model does not prove that for the long literal fragments.
- `Rig.WheelGroup.SetupRotationPivot`: modelled only on empty groups (it requires no children). Its body on a non-empty group mutates the child list while iterating it, and the source only calls it on new groups.
- `Controller.CarController.Reparent`: requires the four groups to be empty. This is the only state the load callback runs it in.
- `Controller.CarController.OnModelLoaded`: requires that the model has not loaded yet, because the loader calls the callback once.
