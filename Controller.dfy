/** The application state that the source keeps in closure variables: the
    key-state table, the loaded model (chassis yaw and position) and the four
    wheel groups, with the load callback (src/App.tsx:101-167), the key
    handlers (src/App.tsx:169-171) and the vehicle part of `animate`
    (src/App.tsx:178-228). */
module Controller {
  import opened Text
  import opened Vectors
  import opened WheelNames
  import opened Rig
  import opened Kinematics

  /** `Math.PI`, the yaw the load callback gives the model. */
  const Pi: real := 3.141592653589793

  /** How the traverse callback routes visited nodes with the fixed table. */
  const Routing: Router := Route(WheelNameTable)

  class CarController {
    const fl: WheelGroup
    const fr: WheelGroup
    const rl: WheelGroup
    const rr: WheelGroup
    var keys: KeyState
    /** `model !== null`: the load callback has run. */
    var loaded: bool
    /** `model.rotation.y` */
    var yaw: real
    /** `model.position`, in world coordinates. */
    var position: Vec3

    predicate Distinct() {
      fl != fr && fl != rl && fl != rr && fr != rl && fr != rr && rl != rr
    }

    /** Until the model is loaded the wheel groups stay as created. */
    ghost predicate Valid()
      reads this, fl, fr, rl, rr
    {
      Distinct() && (!loaded ==> fl.IsFresh() && fr.IsFresh() && rl.IsFresh() && rr.IsFresh())
    }

    /** The angles one frame updates. */
    function CurrentPose(): Pose
      reads this, fl, fr, rl, rr
    {
      Pose(yaw, WheelPose(fl.roll, fl.steer), WheelPose(fr.roll, fr.steer),
                WheelPose(rl.roll, rl.steer), WheelPose(rr.roll, rr.steer))
    }

    /** The effect's set-up: four new groups, each given its (empty-handed)
        rotation pivot, no model yet and no key recorded. */
    constructor ()
      ensures Valid() && !loaded && keys == map[]
      ensures fresh(fl) && fresh(fr) && fresh(rl) && fresh(rr)
    {
      fl := new WheelGroup();
      fr := new WheelGroup();
      rl := new WheelGroup();
      rr := new WheelGroup();
      keys := map[];
      loaded := false;
      // Placeholders: there is no model yet; OnModelLoaded sets both.
      yaw := 0.0;
      position := Zero;
      new;
      fl.SetupRotationPivot();
      fr.SetupRotationPivot();
      rl.SetupRotationPivot();
      rr.SetupRotationPivot();
    }

    /** The keydown listener. */
    method KeyDown(key: string)
      modifies this`keys
      ensures keys == Pressed(old(keys), key)
    {
      keys := keys[ToLower(key) := true];
    }

    /** The keyup listener. */
    method KeyUp(key: string)
      modifies this`keys
      ensures keys == Released(old(keys), key)
    {
      keys := keys[ToLower(key) := false];
    }

    /** The traverse callback on one visited node `child`, classified by the
        table `t`: a matching mesh is attached to its wheel's group and its
        world position overwrites that wheel's entry of `wheelPositions`.
        `toLocal` is the groups' world-to-local map. */
    method Visit(t: NameTable, child: SceneNode, toLocal: Vec3 -> Vec3, wheelPositions: WheelPositions)
      returns (updated: WheelPositions)
      requires Distinct()
      modifies fl, fr, rl, rr
      ensures updated.fl == if GoesTo(Route(t), child, FL) then child.world else wheelPositions.fl
      ensures updated.fr == if GoesTo(Route(t), child, FR) then child.world else wheelPositions.fr
      ensures updated.rl == if GoesTo(Route(t), child, RL) then child.world else wheelPositions.rl
      ensures updated.rr == if GoesTo(Route(t), child, RR) then child.world else wheelPositions.rr
      ensures fl.children == old(fl.children) + Added(Route(t), child, FL, toLocal)
      ensures fr.children == old(fr.children) + Added(Route(t), child, FR, toLocal)
      ensures rl.children == old(rl.children) + Added(Route(t), child, RL, toLocal)
      ensures rr.children == old(rr.children) + Added(Route(t), child, RR, toLocal)
      ensures fl.KeptPose() && fr.KeptPose() && rl.KeptPose() && rr.KeptPose()
    {
      updated := wheelPositions;
      if child.isMesh {
        var name := ToLower(child.name);
        if AnyIncluded(name, t.fl) {
          fl.Attach(child, toLocal);
          updated := updated.(fl := child.world);
        } else if AnyIncluded(name, t.fr) {
          fr.Attach(child, toLocal);
          updated := updated.(fr := child.world);
        } else if AnyIncluded(name, t.rl) {
          rl.Attach(child, toLocal);
          updated := updated.(rl := child.world);
        } else if AnyIncluded(name, t.rr) {
          rr.Attach(child, toLocal);
          updated := updated.(rr := child.world);
        }
      }
    }

    /** `traverse` over the visited `nodes`, starting from all-zero
        `wheelPositions`. */
    method Reparent(t: NameTable, nodes: seq<SceneNode>, toLocal: Vec3 -> Vec3)
      returns (wheelPositions: WheelPositions)
      requires Distinct()
      requires fl.children == fr.children == rl.children == rr.children == []
      modifies fl, fr, rl, rr
      ensures wheelPositions.fl == Captured(Route(t), nodes, FL)
      ensures wheelPositions.fr == Captured(Route(t), nodes, FR)
      ensures wheelPositions.rl == Captured(Route(t), nodes, RL)
      ensures wheelPositions.rr == Captured(Route(t), nodes, RR)
      ensures fl.children == AttachAll(Members(Route(t), nodes, FL), toLocal)
      ensures fr.children == AttachAll(Members(Route(t), nodes, FR), toLocal)
      ensures rl.children == AttachAll(Members(Route(t), nodes, RL), toLocal)
      ensures rr.children == AttachAll(Members(Route(t), nodes, RR), toLocal)
      ensures fl.KeptPose() && fr.KeptPose() && rl.KeptPose() && rr.KeptPose()
    {
      wheelPositions := WheelPositions(Zero, Zero, Zero, Zero);
      var route := Route(t);
      var i := 0;
      assert nodes[..0] == [];
      while i < |nodes|
        invariant 0 <= i <= |nodes|
        invariant wheelPositions.fl == Captured(route, nodes[..i], FL)
        invariant wheelPositions.fr == Captured(route, nodes[..i], FR)
        invariant wheelPositions.rl == Captured(route, nodes[..i], RL)
        invariant wheelPositions.rr == Captured(route, nodes[..i], RR)
        invariant fl.children == AttachAll(Members(route, nodes[..i], FL), toLocal)
        invariant fr.children == AttachAll(Members(route, nodes[..i], FR), toLocal)
        invariant rl.children == AttachAll(Members(route, nodes[..i], RL), toLocal)
        invariant rr.children == AttachAll(Members(route, nodes[..i], RR), toLocal)
        invariant fl.KeptPose() && fr.KeptPose() && rl.KeptPose() && rr.KeptPose()
      {
        var child := nodes[i];
        GrowOne(route, nodes, i, FL, toLocal);
        GrowOne(route, nodes, i, FR, toLocal);
        GrowOne(route, nodes, i, RL, toLocal);
        GrowOne(route, nodes, i, RR, toLocal);
        wheelPositions := Visit(t, child, toLocal, wheelPositions);
        i := i + 1;
      }
      assert nodes[..|nodes|] == nodes;
    }

    /** The load callback, for a model whose traversal visits `nodes`, whose
        root starts at `origin` and whose world-to-local map is `toLocal`:
        turn the model round, reparent the wheel meshes and move each wheel
        group's origin to its captured position without moving any mesh. */
    method OnModelLoaded(nodes: seq<SceneNode>, origin: Vec3, toLocal: Vec3 -> Vec3)
      requires Valid() && !loaded
      modifies this, fl, fr, rl, rr
      ensures Valid() && loaded && keys == old(keys)
      ensures yaw == Pi && position == origin
      ensures fl.roll == fr.roll == rl.roll == rr.roll == 0.0
      ensures fl.steer == fr.steer == rl.steer == rr.steer == 0.0
      ensures fl.Settled(Members(Routing, nodes, FL), toLocal(Captured(Routing, nodes, FL)), toLocal)
      ensures fr.Settled(Members(Routing, nodes, FR), toLocal(Captured(Routing, nodes, FR)), toLocal)
      ensures rl.Settled(Members(Routing, nodes, RL), toLocal(Captured(Routing, nodes, RL)), toLocal)
      ensures rr.Settled(Members(Routing, nodes, RR), toLocal(Captured(Routing, nodes, RR)), toLocal)
    {
      position := origin;
      yaw := Pi;
      loaded := true;
      var wheelPositions := Reparent(WheelNameTable, nodes, toLocal);
      fl.SetPivot(wheelPositions.fl, toLocal);
      fr.SetPivot(wheelPositions.fr, toLocal);
      rl.SetPivot(wheelPositions.rl, toLocal);
      rr.SetPivot(wheelPositions.rr, toLocal);
    }

    /** The vehicle part of one `animate` frame. `rotate(yaw, v)` stands for
        `v.applyQuaternion(model.quaternion)` for a model turned by `yaw`. */
    method Step(delta: real, rotate: (real, Vec3) -> Vec3)
      requires Valid()
      modifies this, fl, fr, rl, rr
      ensures Valid() && keys == old(keys) && loaded == old(loaded)
      ensures fl.children == old(fl.children) && fr.children == old(fr.children)
      ensures rl.children == old(rl.children) && rr.children == old(rr.children)
      ensures fl.position == old(fl.position) && fr.position == old(fr.position)
      ensures rl.position == old(rl.position) && rr.position == old(rr.position)
      ensures !loaded ==> CurrentPose() == old(CurrentPose()) && position == old(position)
      ensures loaded ==> CurrentPose() == NextPose(old(CurrentPose()), keys, delta)
      ensures loaded ==> position == Add(old(position), rotate(yaw, Displacement(keys, delta)))
    {
      if loaded {
        ghost var q := NextPose(CurrentPose(), keys, delta);
        var w, s, a, d := Held(keys, "w"), Held(keys, "s"), Held(keys, "a"), Held(keys, "d");
        var moveDir := Zero;
        if w { moveDir := moveDir.(z := 1.0); }
        if s { moveDir := moveDir.(z := -1.0); }

        if w || s {
          var spin := (if w then 1.0 else -1.0) * Speed * delta;
          fl.roll := fl.roll - spin;
          fr.roll := fr.roll - spin;
          rl.roll := rl.roll - spin;
          rr.roll := rr.roll - spin;
        }

        if AxisLength(moveDir) > 0.0 {
          if a { yaw := yaw + RotationSpeed * delta; }
          if d { yaw := yaw - RotationSpeed * delta; }
        }

        if a {
          fl.steer := MaxSteer;
          fr.steer := MaxSteer;
        } else if d {
          fl.steer := -MaxSteer;
          fr.steer := -MaxSteer;
        } else {
          fl.steer := 0.0;
          fr.steer := 0.0;
        }
        assert yaw == q.yaw;
        assert fl.roll == q.fl.roll && fr.roll == q.fr.roll && rl.roll == q.rl.roll && rr.roll == q.rr.roll;
        assert fl.steer == q.fl.steer && fr.steer == q.fr.steer && rl.steer == q.rl.steer && rr.steer == q.rr.steer;

        moveDir := Scale(Normalize(moveDir), Speed * delta);
        moveDir := rotate(yaw, moveDir);
        position := Add(position, moveDir);
      }
    }
  }
}
