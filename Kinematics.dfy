/** The per-frame vehicle logic of `animate` (src/App.tsx:174-219) and the
    key-state updates of the keyboard handlers (src/App.tsx:169-171), as
    functions of the key state and the frame time. */
module Kinematics {
  import opened Text
  import opened Vectors

  const Speed: real := 4.0
  const RotationSpeed: real := 1.0
  const MaxSteer: real := 0.09

  /** `keys`: the last event recorded for each lower-cased key name. */
  type KeyState = map<string, bool>

  /** `keys[k]` read as a condition: a key with no event yet reads as false. */
  predicate Held(keys: KeyState, k: string) {
    k in keys && keys[k]
  }

  /** The keydown handler's update of the key state. */
  function Pressed(keys: KeyState, key: string): KeyState {
    keys[ToLower(key) := true]
  }

  /** The keyup handler's update of the key state. */
  function Released(keys: KeyState, key: string): KeyState {
    keys[ToLower(key) := false]
  }

  /** A key event affects its own lower-cased name and no other key. */
  lemma KeyEvents(keys: KeyState, key: string, other: string)
    requires other != ToLower(key)
    ensures Held(Pressed(keys, key), ToLower(key)) && !Held(Released(keys, key), ToLower(key))
    ensures Held(Pressed(keys, key), other) == Held(keys, other)
    ensures Held(Released(keys, key), other) == Held(keys, other)
  {
  }

  /** Key names are recorded lower-cased: pressing `W` (shift held) holds `w`. */
  lemma UpperCaseKey(keys: KeyState)
    ensures Held(Pressed(keys, "W"), "w")
    ensures !Held(Released(Pressed(keys, "w"), "W"), "w")
  {
    assert ToLower("W") == "w" by { assert ToLower("W")[0] == LowerChar('W'); }
  }

  /** `moveDir.z` after lines 186-187: `s` is assigned last, so it wins. */
  function ThrottleZ(keys: KeyState): (z: real)
    ensures z == 0.0 <==> !Held(keys, "w") && !Held(keys, "s")
  {
    if Held(keys, "s") then -1.0 else if Held(keys, "w") then 1.0 else 0.0
  }

  /** `moveDir` before normalising. */
  function MoveDir(keys: KeyState): Vec3 {
    Vec3(0.0, 0.0, ThrottleZ(keys))
  }

  /** The angle all four wheels roll back by: `(w ? 1 : -1) * speed * delta`
      while `w` or `s` is held, nothing otherwise. */
  function Spin(keys: KeyState, delta: real): real {
    if Held(keys, "w") || Held(keys, "s") then (if Held(keys, "w") then 1.0 else -1.0) * Speed * delta
    else 0.0
  }

  /** Net yaw rate asked for by `a` (left) and `d` (right). */
  function TurnRate(keys: KeyState): real {
    (if Held(keys, "a") then RotationSpeed else 0.0) - (if Held(keys, "d") then RotationSpeed else 0.0)
  }

  /** The front wheels' steer angle: `a` has priority over `d`. */
  function SteerAngle(keys: KeyState): real {
    if Held(keys, "a") then MaxSteer else if Held(keys, "d") then -MaxSteer else 0.0
  }

  /** The chassis displacement of one frame, in the car's own frame: `moveDir`
      normalised and scaled by `speed * delta`. */
  function Displacement(keys: KeyState, delta: real): Vec3 {
    Scale(Normalize(MoveDir(keys)), Speed * delta)
  }

  /** A wheel group's two driven angles, `rotation.x` and `rotation.y`. */
  datatype WheelPose = WheelPose(roll: real, steer: real)

  /** The chassis yaw (`model.rotation.y`) and the four wheels' angles. */
  datatype Pose = Pose(yaw: real, fl: WheelPose, fr: WheelPose, rl: WheelPose, rr: WheelPose)

  /** One frame's update of the pose, for a loaded model. */
  function NextPose(p: Pose, keys: KeyState, delta: real): Pose {
    var spin := Spin(keys, delta);
    var steer := SteerAngle(keys);
    var yaw := if AxisLength(MoveDir(keys)) > 0.0 then p.yaw + TurnRate(keys) * delta else p.yaw;
    Pose(yaw,
         WheelPose(p.fl.roll - spin, steer),
         WheelPose(p.fr.roll - spin, steer),
         WheelPose(p.rl.roll - spin, p.rl.steer),
         WheelPose(p.rr.roll - spin, p.rr.steer))
  }

  /** Roll: with `w` or `s` held all four wheels roll back by the same
      `(w ? 1 : -1) * 4 * delta`; otherwise no wheel rolls. */
  lemma RollRule(p: Pose, keys: KeyState, delta: real)
    ensures var q, s := NextPose(p, keys, delta), (if Held(keys, "w") then 1.0 else -1.0) * 4.0 * delta;
      if Held(keys, "w") || Held(keys, "s") then
        q.fl.roll == p.fl.roll - s && q.fr.roll == p.fr.roll - s &&
        q.rl.roll == p.rl.roll - s && q.rr.roll == p.rr.roll - s
      else
        q.fl.roll == p.fl.roll && q.fr.roll == p.fr.roll &&
        q.rl.roll == p.rl.roll && q.rr.roll == p.rr.roll
  {
  }

  /** Yaw: the chassis turns only while `w` or `s` is held; then `a` adds
      `delta`, `d` subtracts it, and both together cancel. */
  lemma YawRule(p: Pose, keys: KeyState, delta: real)
    ensures var q := NextPose(p, keys, delta);
      if Held(keys, "w") || Held(keys, "s") then
        q.yaw == p.yaw + (if Held(keys, "a") then delta else 0.0) - (if Held(keys, "d") then delta else 0.0)
      else
        q.yaw == p.yaw
    ensures Held(keys, "a") && Held(keys, "d") ==> NextPose(p, keys, delta).yaw == p.yaw
  {
  }

  /** Steer: the front wheels' angle is set, not accumulated (0.09 with `a`,
      else -0.09 with `d`, else 0); the rear wheels' angle is never touched. */
  lemma SteerRule(p: Pose, p': Pose, keys: KeyState, delta: real, delta': real)
    ensures var q := NextPose(p, keys, delta);
      q.fl.steer == q.fr.steer ==
        (if Held(keys, "a") then 0.09 else if Held(keys, "d") then -0.09 else 0.0) &&
      q.rl.steer == p.rl.steer && q.rr.steer == p.rr.steer
    ensures NextPose(p, keys, delta).fl.steer == NextPose(p', keys, delta').fl.steer
  {
  }

  /** Displacement: `(0, 0, z * 4 * delta)` with z = -1 when `s` is held
      (even with `w`), 1 when only `w` is, and 0 otherwise; the zero case
      comes out as the zero vector, not NaN. */
  lemma DisplacementRule(keys: KeyState, delta: real)
    ensures var z := if Held(keys, "s") then -1.0 else if Held(keys, "w") then 1.0 else 0.0;
      Displacement(keys, delta) == Vec3(0.0, 0.0, z * 4.0 * delta)
    ensures !Held(keys, "w") && !Held(keys, "s") ==> Displacement(keys, delta) == Zero
  {
  }

  /** With both `w` and `s` held the wheels spin forwards while the car moves
      backwards. */
  lemma BothPedals(p: Pose, keys: KeyState, delta: real)
    requires Held(keys, "w") && Held(keys, "s")
    ensures NextPose(p, keys, delta).fl.roll == p.fl.roll - 4.0 * delta
    ensures Displacement(keys, delta) == Vec3(0.0, 0.0, -4.0 * delta)
  {
  }

  /** Holding only `w` for half a second: 2 units forward, every wheel
      rolled back by 2 radians, heading kept. */
  lemma ForwardHalfSecond(p: Pose)
    ensures Displacement(map["w" := true], 0.5) == Vec3(0.0, 0.0, 2.0)
    ensures var q := NextPose(p, map["w" := true], 0.5);
      q.yaw == p.yaw && q.fl.roll == p.fl.roll - 2.0 && q.rr.roll == p.rr.roll - 2.0
  {
  }

  /** Holding only `a`: the heading is kept but the front wheels still steer. */
  lemma SteerWithoutThrottle(p: Pose, delta: real)
    ensures var q := NextPose(p, map["a" := true], delta);
      q.yaw == p.yaw && q.fl.steer == 0.09 && q.fr.steer == 0.09 && q.fl.roll == p.fl.roll
    ensures Displacement(map["a" := true], delta) == Zero
  {
  }
}
