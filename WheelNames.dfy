/** The static wheel-name table and the classifier that decides which wheel
    group a mesh belongs to (src/App.tsx:50-67, 120-143). */
module WheelNames {
  import opened Text

  datatype Option<T> = None | Some(value: T)

  datatype Wheel = FL | FR | RL | RR

  /** The order in which the traverse callback tries the wheels. */
  const CheckOrder: seq<Wheel> := [FL, FR, RL, RR]

  /** Position of a wheel in `CheckOrder`. */
  function Rank(w: Wheel): (k: nat)
    ensures k < |CheckOrder| && CheckOrder[k] == w
  {
    match w
    case FL => 0
    case FR => 1
    case RL => 2
    case RR => 3
  }

  /** A table of mesh-name fragments per wheel, in the shape of `wheelNames`. */
  datatype NameTable = NameTable(fl: seq<string>, fr: seq<string>, rl: seq<string>, rr: seq<string>) {
    function Of(w: Wheel): seq<string> {
      match w
      case FL => fl
      case FR => fr
      case RL => rl
      case RR => rr
    }
  }

  const RearLeftHub: string := "sm_hub_l_0000_001_sm_hub_l_0000_001_mat_hub_tmat_hub1_0"
  const RearRightHub: string := "sm_hub_r_0000_001_sm_hub_r_0000_001_mat_hub_009_tmat_hub1_0"
  /** The source spells these out in full; their text is the rear hub's of
      the same side with a `t` in front, and that is how they are written here. */
  const FrontLeftHub: string := "t" + RearLeftHub
  const FrontRightHub: string := "t" + RearRightHub

  /** `wheelNames`: the fragments of each wheel's two meshes (tyre, then hub). */
  const WheelNameTable: NameTable := NameTable(
    ["ppolysurface7_pporsche_911gt2_1993_wheel1a_3d_3dwheel1a_material1_0", FrontLeftHub],
    ["ppolysurface10_pporsche_911gt2_1993_wheel1a_3d_3dwheel1a_material1_0", FrontRightHub],
    ["ppolysurface13_pporsche_911gt2_1993_wheel1a_3d_3dwheel1a_material1_0", RearLeftHub],
    ["ppolysurface16_pporsche_911gt2_1993_wheel1a_3d_3dwheel1a_material1_0", RearRightHub])

  /** `pats.some(n => name.includes(n.toLowerCase()))` */
  function AnyIncluded(name: string, pats: seq<string>): (r: bool)
    ensures r <==> exists k :: 0 <= k < |pats| && Includes(name, ToLower(pats[k]))
  {
    if pats == [] then false
    else Includes(name, ToLower(pats[0])) || AnyIncluded(name, pats[1..])
  }

  /** The mesh called `name` matches wheel `w`'s list, after lower-casing. */
  predicate Matches(t: NameTable, w: Wheel, name: string) {
    AnyIncluded(ToLower(name), t.Of(w))
  }

  /** The traverse callback's if / else-if chain, tried in `CheckOrder`. */
  function Classify(t: NameTable, name: string): Option<Wheel> {
    if Matches(t, FL, name) then Some(FL)
    else if Matches(t, FR, name) then Some(FR)
    else if Matches(t, RL, name) then Some(RL)
    else if Matches(t, RR, name) then Some(RR)
    else None
  }

  /** A mesh goes to wheel `w` exactly when `w`'s list matches and no wheel
      checked before `w` matches. */
  lemma ClassifySome(t: NameTable, name: string, w: Wheel)
    ensures Classify(t, name) == Some(w) <==>
      Matches(t, w, name) && forall v :: Rank(v) < Rank(w) ==> !Matches(t, v, name)
  {
  }

  /** A mesh is left where it is exactly when no wheel's list matches. */
  lemma ClassifyNone(t: NameTable, name: string)
    ensures Classify(t, name) == None <==> forall w :: !Matches(t, w, name)
  {
  }

  /** Mesh names are compared case-insensitively. */
  lemma ClassifyIgnoresCase(t: NameTable, name: string)
    ensures Classify(t, ToLower(name)) == Classify(t, name)
  {
    ToLowerIdempotent(name);
  }

  /** When a fragment of wheel `v`'s list ends with a fragment of wheel
      `w`'s list, a mesh whose name includes the longer fragment matches
      both lists. */
  lemma ExtendedFragmentMatchesBoth(t: NameTable, v: Wheel, w: Wheel, name: string, k: nat, j: nat, p: string)
    requires k < |t.Of(v)| && j < |t.Of(w)|
    requires t.Of(v)[k] == p + t.Of(w)[j]
    requires Includes(ToLower(name), ToLower(t.Of(v)[k]))
    ensures Matches(t, v, name) && Matches(t, w, name)
  {
    var long, short := t.Of(v)[k], t.Of(w)[j];
    ToLowerAppend(p, short);
    assert ToLower(long)[|p|..] == ToLower(short);
    IncludesSuffix(ToLower(long), |p|);
    IncludesTrans(ToLower(name), ToLower(long), ToLower(short));
  }

  /** The front-left hub fragment is the rear-left one with a `t` in front,
      so a front-left hub mesh matches the rear-left list as well; the check
      order sends it to the front-left wheel. */
  lemma FrontLeftHubMatchesRear(t: NameTable, name: string)
    requires t == WheelNameTable && name == FrontLeftHub
    ensures Matches(t, FL, name) && Matches(t, RL, name) && Classify(t, name) == Some(FL)
  {
    HubOverlap(t, FL, RL, name, RearLeftHub);
  }

  /** Likewise on the right: a front-right hub mesh matches the rear-right
      list too; by `ClassifySome` its front-right match keeps it from the
      rear-right wheel. */
  lemma FrontRightHubMatchesRear(t: NameTable, name: string)
    requires t == WheelNameTable && name == FrontRightHub
    ensures Matches(t, FR, name) && Matches(t, RR, name)
  {
    HubOverlap(t, FR, RR, name, RearRightHub);
  }

  /** `front`, the second fragment of wheel `v`, is `t` followed by `rear`,
      the second fragment of wheel `w`. */
  lemma HubOverlap(t: NameTable, v: Wheel, w: Wheel, front: string, rear: string)
    requires |t.Of(v)| == 2 && |t.Of(w)| == 2
    requires t.Of(v)[1] == front && t.Of(w)[1] == rear && front == "t" + rear
    ensures Matches(t, v, front) && Matches(t, w, front)
  {
    IncludesSelf(ToLower(front));
    ExtendedFragmentMatchesBoth(t, v, w, front, 1, 1, "t");
  }
}
