/** The wheel pivot builder: which visited meshes end up in which wheel group,
    which world position each wheel captures, and the wheel-group objects with
    their `attach` and pivot-recentring operations (src/App.tsx:69-74,
    112-163). */
module Rig {
  import opened Vectors
  import opened WheelNames

  /** One object visited by `gltf.scene.traverse`: its name, whether it is a
      `THREE.Mesh`, and its world position (which `attach` preserves). */
  datatype SceneNode = SceneNode(name: string, isMesh: bool, world: Vec3)

  /** The wheel group the traverse callback attaches node `n` to, if any:
      only meshes are classified. */
  function Destination(t: NameTable, n: SceneNode): Option<Wheel> {
    if n.isMesh then Classify(t, n.name) else None
  }

  /** A routing of visited nodes to wheel groups; the traverse callback's is
      `Route(WheelNameTable)`. The lemmas below hold for every routing. */
  type Router = SceneNode -> Option<Wheel>

  function Route(t: NameTable): Router {
    n => Destination(t, n)
  }

  /** Node `n` is attached to wheel `w`'s group. */
  predicate GoesTo(route: Router, n: SceneNode, w: Wheel) {
    route(n) == Some(w)
  }

  /** Node `n` is left where it is. */
  predicate StaysPut(route: Router, n: SceneNode) {
    route(n) == None
  }

  /** A node goes to wheel `w` exactly when it is a mesh, its name matches
      `w`'s list and no wheel checked earlier matches. */
  lemma RouteGoesTo(t: NameTable, n: SceneNode, w: Wheel)
    ensures GoesTo(Route(t), n, w) <==>
      n.isMesh && Matches(t, w, n.name) && forall v :: Rank(v) < Rank(w) ==> !Matches(t, v, n.name)
  {
    ClassifySome(t, n.name, w);
  }

  /** A node stays put exactly when it is not a mesh or no wheel matches. */
  lemma RouteStaysPut(t: NameTable, n: SceneNode)
    ensures StaysPut(Route(t), n) <==> !n.isMesh || forall w :: !Matches(t, w, n.name)
  {
    ClassifyNone(t, n.name);
  }

  function Last(nodes: seq<SceneNode>): SceneNode
    requires nodes != []
  {
    nodes[|nodes| - 1]
  }

  function Front(nodes: seq<SceneNode>): seq<SceneNode>
    requires nodes != []
  {
    nodes[..|nodes| - 1]
  }

  /** The nodes attached to wheel `w`'s group, in traversal order. */
  function Members(route: Router, nodes: seq<SceneNode>, w: Wheel): seq<SceneNode>
    decreases |nodes|
  {
    if nodes == [] then []
    else Members(route, Front(nodes), w) + (if GoesTo(route, Last(nodes), w) then [Last(nodes)] else [])
  }

  /** The nodes the traversal does not move, in traversal order. */
  function Unmoved(route: Router, nodes: seq<SceneNode>): seq<SceneNode>
    decreases |nodes|
  {
    if nodes == [] then []
    else Unmoved(route, Front(nodes)) + (if StaysPut(route, Last(nodes)) then [Last(nodes)] else [])
  }

  /** `wheelPositions[w]` after the traversal: every matching mesh overwrites
      it, starting from the zero vector. */
  function Captured(route: Router, nodes: seq<SceneNode>, w: Wheel): Vec3
    decreases |nodes|
  {
    if nodes == [] then Zero
    else if GoesTo(route, Last(nodes), w) then Last(nodes).world
    else Captured(route, Front(nodes), w)
  }

  /** A node is in wheel `w`'s group exactly when it was visited and
      classified as `w`. */
  lemma {:induction false} MembersExactly(route: Router, nodes: seq<SceneNode>, w: Wheel, x: SceneNode)
    ensures x in Members(route, nodes, w) <==> x in nodes && GoesTo(route, x, w)
    decreases |nodes|
  {
    if nodes != [] {
      MembersExactly(route, Front(nodes), w, x);
      assert nodes == Front(nodes) + [Last(nodes)];
    }
  }

  /** Visiting one more node adds it to the bag of its destination's group. */
  lemma Snoc(route: Router, f: seq<SceneNode>, n: SceneNode, w: Wheel)
    ensures multiset(Members(route, f + [n], w)) ==
      multiset(Members(route, f, w)) + if GoesTo(route, n, w) then multiset{n} else multiset{}
  {
    assert Front(f + [n]) == f && Last(f + [n]) == n;
  }

  lemma SnocUnmoved(route: Router, f: seq<SceneNode>, n: SceneNode)
    ensures multiset(Unmoved(route, f + [n])) ==
      multiset(Unmoved(route, f)) + if StaysPut(route, n) then multiset{n} else multiset{}
  {
    assert Front(f + [n]) == f && Last(f + [n]) == n;
  }

  /** What the four groups and the untouched part of the scene hold, as a bag. */
  ghost function Placed(route: Router, nodes: seq<SceneNode>): multiset<SceneNode> {
    multiset(Members(route, nodes, FL)) + multiset(Members(route, nodes, FR)) + multiset(Members(route, nodes, RL))
      + multiset(Members(route, nodes, RR)) + multiset(Unmoved(route, nodes))
  }

  /** Visiting one more node adds exactly that node to what is placed. */
  lemma PlacedSnoc(route: Router, f: seq<SceneNode>, n: SceneNode)
    ensures Placed(route, f + [n]) == Placed(route, f) + multiset{n}
  {
    Snoc(route, f, n, FL);
    Snoc(route, f, n, FR);
    Snoc(route, f, n, RL);
    Snoc(route, f, n, RR);
    SnocUnmoved(route, f, n);
    var g := f + [n];
    OneOfFive(route(n), multiset{n},
      multiset(Members(route, f, FL)), multiset(Members(route, f, FR)), multiset(Members(route, f, RL)),
      multiset(Members(route, f, RR)), multiset(Unmoved(route, f)),
      multiset(Members(route, g, FL)), multiset(Members(route, g, FR)), multiset(Members(route, g, RL)),
      multiset(Members(route, g, RR)), multiset(Unmoved(route, g)));
  }

  /** Bag arithmetic for `PlacedSnoc`: `m` joins exactly the bag `k` selects. */
  lemma OneOfFive(k: Option<Wheel>, m: multiset<SceneNode>,
                  a: multiset<SceneNode>, b: multiset<SceneNode>, c: multiset<SceneNode>,
                  d: multiset<SceneNode>, e: multiset<SceneNode>,
                  a': multiset<SceneNode>, b': multiset<SceneNode>, c': multiset<SceneNode>,
                  d': multiset<SceneNode>, e': multiset<SceneNode>)
    requires a' == a + if k == Some(FL) then m else multiset{}
    requires b' == b + if k == Some(FR) then m else multiset{}
    requires c' == c + if k == Some(RL) then m else multiset{}
    requires d' == d + if k == Some(RR) then m else multiset{}
    requires e' == e + if k == None then m else multiset{}
    ensures a' + b' + c' + d' + e' == a + b + c + d + e + m
  {
    match k
    case Some(FL) => assert a' + b' + c' + d' + e' == (a + m) + b + c + d + e;
    case Some(FR) => assert a' + b' + c' + d' + e' == a + (b + m) + c + d + e;
    case Some(RL) => assert a' + b' + c' + d' + e' == a + b + (c + m) + d + e;
    case Some(RR) => assert a' + b' + c' + d' + e' == a + b + c + (d + m) + e;
    case None => assert a' + b' + c' + d' + e' == a + b + c + d + (e + m);
  }

  /** Every visited node ends up in exactly one place: one of the four wheel
      groups or where it was. */
  lemma {:induction false} Partition(route: Router, nodes: seq<SceneNode>)
    ensures multiset(Members(route, nodes, FL) + Members(route, nodes, FR) + Members(route, nodes, RL)
                     + Members(route, nodes, RR) + Unmoved(route, nodes)) == multiset(nodes)
  {
    PlacedIsAll(route, nodes);
  }

  lemma {:induction false} PlacedIsAll(route: Router, nodes: seq<SceneNode>)
    ensures Placed(route, nodes) == multiset(nodes)
    decreases |nodes|
  {
    if nodes != [] {
      var f, n := Front(nodes), Last(nodes);
      PlacedIsAll(route, f);
      assert nodes == f + [n];
      PlacedSnoc(route, f, n);
    }
  }

  /** The captured position is the world position of the last member, or
      the zero vector when the wheel has no member. */
  lemma {:induction false} CapturedIsLastMember(route: Router, nodes: seq<SceneNode>, w: Wheel)
    ensures var ms := Members(route, nodes, w);
      Captured(route, nodes, w) == if ms == [] then Zero else ms[|ms| - 1].world
    decreases |nodes|
  {
    if nodes != [] {
      CapturedIsLastMember(route, Front(nodes), w);
    }
  }

  /** The captured position is that of the last matching node of the visit
      sequence: later matches overwrite earlier ones. */
  lemma {:induction false} CapturedAt(route: Router, nodes: seq<SceneNode>, w: Wheel, i: nat)
    requires i < |nodes| && GoesTo(route, nodes[i], w)
    requires forall j :: i < j < |nodes| ==> !GoesTo(route, nodes[j], w)
    ensures Captured(route, nodes, w) == nodes[i].world
    decreases |nodes|
  {
    if i < |nodes| - 1 {
      CapturedAt(route, Front(nodes), w, i);
    }
  }

  /** A wheel that no mesh matches keeps the zero vector. */
  lemma {:induction false} CapturedNoMatch(route: Router, nodes: seq<SceneNode>, w: Wheel)
    requires forall j :: 0 <= j < |nodes| ==> !GoesTo(route, nodes[j], w)
    ensures Captured(route, nodes, w) == Zero
    ensures Members(route, nodes, w) == []
    decreases |nodes|
  {
    if nodes != [] {
      CapturedNoMatch(route, Front(nodes), w);
    }
  }

  /** `wheelPositions`: one world position per wheel. */
  datatype WheelPositions = WheelPositions(fl: Vec3, fr: Vec3, rl: Vec3, rr: Vec3)

  /** A child of a wheel group: the mesh and its local position in the group. */
  datatype Part = Part(mesh: SceneNode, local: Vec3)

  /** The children that attaching `ms` in order adds, under a parent whose
      world-to-local map is `toLocal`. */
  function AttachAll(ms: seq<SceneNode>, toLocal: Vec3 -> Vec3): (ps: seq<Part>)
    ensures |ps| == |ms|
    ensures forall i :: 0 <= i < |ms| ==> ps[i] == Part(ms[i], toLocal(ms[i].world))
  {
    seq(|ms|, i requires 0 <= i < |ms| => Part(ms[i], toLocal(ms[i].world)))
  }

  /** Attaching one more mesh adds one child at the end. */
  lemma AttachAllSnoc(ms: seq<SceneNode>, x: SceneNode, toLocal: Vec3 -> Vec3)
    ensures AttachAll(ms + [x], toLocal) == AttachAll(ms, toLocal) + [Part(x, toLocal(x.world))]
  {
  }

  /** The children that visiting `child` adds to wheel `w`'s group. */
  function Added(route: Router, child: SceneNode, w: Wheel, toLocal: Vec3 -> Vec3): seq<Part> {
    if GoesTo(route, child, w) then [Part(child, toLocal(child.world))] else []
  }

  /** Visiting `nodes[i]` adds to wheel `w`'s group what attaching its new
      members adds. */
  lemma GrowOne(route: Router, nodes: seq<SceneNode>, i: nat, w: Wheel, toLocal: Vec3 -> Vec3)
    requires i < |nodes|
    ensures AttachAll(Members(route, nodes[..i + 1], w), toLocal) ==
      AttachAll(Members(route, nodes[..i], w), toLocal) + Added(route, nodes[i], w, toLocal)
    ensures Captured(route, nodes[..i + 1], w) ==
      if GoesTo(route, nodes[i], w) then nodes[i].world else Captured(route, nodes[..i], w)
  {
    VisitStep(route, nodes, i, w);
    AttachAllSnoc(Members(route, nodes[..i], w), nodes[i], toLocal);
  }

  /** Visiting `nodes[i]` after `nodes[..i]`: how the groups and the captured
      positions grow. */
  lemma VisitStep(route: Router, nodes: seq<SceneNode>, i: nat, w: Wheel)
    requires i < |nodes|
    ensures Members(route, nodes[..i + 1], w) ==
      Members(route, nodes[..i], w) + if GoesTo(route, nodes[i], w) then [nodes[i]] else []
    ensures Captured(route, nodes[..i + 1], w) ==
      if GoesTo(route, nodes[i], w) then nodes[i].world else Captured(route, nodes[..i], w)
  {
    assert Front(nodes[..i + 1]) == nodes[..i] && Last(nodes[..i + 1]) == nodes[i];
  }

  /** A `THREE.Group` used as a wheel pivot: its local position, the two
      rotation angles the controller drives, and its children. */
  class WheelGroup {
    var position: Vec3
    /** `rotation.x`: the wheel's roll. */
    var roll: real
    /** `rotation.y`: the wheel's steer angle. */
    var steer: real
    var children: seq<Part>

    /** The group holds exactly the meshes `ms`, its origin is at `pivot` in
        the vehicle root's frame, and every mesh still sits at its own world
        position seen through `toLocal`. */
    ghost predicate Settled(ms: seq<SceneNode>, pivot: Vec3, toLocal: Vec3 -> Vec3)
      reads this
    {
      position == pivot && |children| == |ms| &&
      forall i :: 0 <= i < |children| ==>
        children[i].mesh == ms[i] &&
        children[i].local == Sub(toLocal(ms[i].world), pivot) &&
        Add(position, children[i].local) == toLocal(ms[i].world)
    }

    /** `new THREE.Group()`: at the origin, unrotated, empty. */
    constructor ()
      ensures IsFresh()
    {
      position, roll, steer, children := Zero, 0.0, 0.0, [];
    }

    /** Only the children changed since the enclosing method started. */
    twostate predicate KeptPose()
      reads this
    {
      position == old(position) && roll == old(roll) && steer == old(steer)
    }

    predicate IsFresh()
      reads this
    {
      position == Zero && roll == 0.0 && steer == 0.0 && children == []
    }

    /** `setupWheelRotationPivot(group)` on a group with no children: the
        `forEach` over the children visits nothing. */
    method SetupRotationPivot()
      requires children == []
      ensures unchanged(this)
    {
    }

    /** `group.attach(mesh)`: the mesh becomes the last child and keeps its
        world position; `toLocal` is this group's world-to-local map. */
    method Attach(n: SceneNode, toLocal: Vec3 -> Vec3)
      modifies this
      ensures children == old(children) + [Part(n, toLocal(n.world))]
      ensures position == old(position) && roll == old(roll) && steer == old(steer)
    {
      children := children + [Part(n, toLocal(n.world))];
    }

    /** `setWheelPivot(group, worldPos)`: moves the group's origin to
        `worldPos`, seen in the vehicle root's frame through `toLocal`, and
        shifts every child back by the same vector. */
    method SetPivot(worldPos: Vec3, toLocal: Vec3 -> Vec3)
      modifies this
      ensures position == toLocal(worldPos)
      ensures roll == old(roll) && steer == old(steer)
      ensures |children| == |old(children)|
      ensures forall i :: 0 <= i < |children| ==>
        children[i].mesh == old(children[i].mesh) &&
        children[i].local == Sub(old(children[i].local), position)
      ensures forall i :: 0 <= i < |children| ==>
        Add(position, children[i].local) == old(children[i].local)
      ensures forall ms :: old(children) == AttachAll(ms, toLocal) ==> Settled(ms, toLocal(worldPos), toLocal)
    {
      var p := toLocal(worldPos);
      position := p;
      var i := 0;
      while i < |children|
        invariant 0 <= i <= |children| == |old(children)|
        invariant position == p && roll == old(roll) && steer == old(steer)
        invariant forall k :: 0 <= k < i ==>
          children[k] == Part(old(children[k].mesh), Sub(old(children[k].local), p))
        invariant forall k :: i <= k < |children| ==> children[k] == old(children[k])
      {
        children := children[i := Part(children[i].mesh, Sub(children[i].local, p))];
        i := i + 1;
      }
    }
  }
}
