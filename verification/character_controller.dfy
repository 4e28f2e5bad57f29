/** The character controller's discrete rules: held-key movement axes, the
    crouch/sprint/walk/idle selection with its speeds, angle normalisation,
    the third-person facing skip counter, first-person pitch clamping, the
    view toggle and the keyboard handler. */
module CharacterController {
  import opened Common
  import opened PlayerAnimation

  /** `Math.PI` as a double. */
  const Pi: real := 3.141592653589793
  const TwoPi: real := 2.0 * Pi

  /** Key name (lower-cased) to whether it is held; a key never pressed is
      absent. */
  type InputMap = map<string, bool>

  predicate Held(m: InputMap, k: string) {
    k in m && m[k]
  }

  predicate Either(m: InputMap, k1: string, k2: string) {
    Held(m, k1) || Held(m, k2)
  }

  /** +1 forward (W / up arrow), -1 back (S / down arrow), 0 for neither or
      both. */
  function ForwardAxis(m: InputMap): (f: int)
    ensures -1 <= f <= 1
    ensures f == 0 <==> (Either(m, "w", "arrowup") <==> Either(m, "s", "arrowdown"))
  {
    (if Either(m, "w", "arrowup") then 1 else 0) - (if Either(m, "s", "arrowdown") then 1 else 0)
  }

  /** +1 right (D / right arrow), -1 left (A / left arrow), 0 for neither or
      both. */
  function RightAxis(m: InputMap): (s: int)
    ensures -1 <= s <= 1
    ensures s == 0 <==> (Either(m, "d", "arrowright") <==> Either(m, "a", "arrowleft"))
  {
    (if Either(m, "d", "arrowright") then 1 else 0) - (if Either(m, "a", "arrowleft") then 1 else 0)
  }

  const Zero: Vec3 := Vec3(0.0, 0.0, 0.0)

  /** The summed move vector: forward minus back plus right minus left. */
  function MoveVector(m: InputMap, forward: Vec3, right: Vec3): (v: Vec3)
    ensures ForwardAxis(m) == 0 && RightAxis(m) == 0 ==> v == Zero
    ensures RightAxis(m) == 0 ==> v == forward.Scale(ForwardAxis(m) as real)
    ensures ForwardAxis(m) == 0 ==> v == right.Scale(RightAxis(m) as real)
  {
    forward.Scale(ForwardAxis(m) as real).Add(right.Scale(RightAxis(m) as real))
  }

  function Dot(a: Vec3, b: Vec3): real {
    a.x * b.x + a.y * b.y + a.z * b.z
  }

  /** For a camera basis of orthogonal unit vectors, the move vector is zero
      exactly when both axes cancel, so opposite keys held together give no
      movement and any other held combination does. */
  lemma MoveZeroIffAxesCancel(m: InputMap, forward: Vec3, right: Vec3)
    requires Dot(forward, forward) == 1.0 && Dot(right, right) == 1.0 && Dot(forward, right) == 0.0
    ensures MoveVector(m, forward, right) == Zero <==> ForwardAxis(m) == 0 && RightAxis(m) == 0
  {
    var f, s := ForwardAxis(m) as real, RightAxis(m) as real;
    if MoveVector(m, forward, right) == Zero {
      ZeroCombination(f, s, forward, right);
    }
  }

  /** A combination of two orthogonal unit vectors is zero only with zero
      coefficients. */
  lemma ZeroCombination(f: real, s: real, a: Vec3, b: Vec3)
    requires Dot(a, a) == 1.0 && Dot(b, b) == 1.0 && Dot(a, b) == 0.0
    requires a.Scale(f).Add(b.Scale(s)) == Zero
    ensures f == 0.0 && s == 0.0
  {
    DotLinear(f, s, a, b, a);
    DotLinear(f, s, a, b, b);
    assert Dot(b, a) == Dot(a, b);
  }

  /** `len` is the Euclidean length of `v`: non-negative, squaring to
      `v`'s dot product with itself, and zero only for the zero vector. */
  predicate IsLength(v: Vec3, len: real) {
    len >= 0.0 && len * len == Dot(v, v) && (len == 0.0 <==> v == Zero)
  }

  /** `Vector3.normalize`: the vector divided by its length, which is passed
      in because the square root is computed in floating point; a zero length
      leaves the vector as it is. `NormalizeIsUnit` states what the result is
      when `len` is the true length. */
  function Normalize(v: Vec3, len: real): (u: Vec3)
    ensures len == 0.0 ==> u == v
    ensures v == Zero ==> u == Zero
    ensures v.y == 0.0 ==> u.y == 0.0
  {
    if len == 0.0 then v else v.Scale(1.0 / len)
  }

  /** A normalised non-zero vector has length one and points along the
      original: its component along `v` is `v`'s full length. */
  lemma NormalizeIsUnit(v: Vec3, len: real)
    requires IsLength(v, len) && v != Zero
    ensures Dot(Normalize(v, len), Normalize(v, len)) == 1.0
    ensures Dot(Normalize(v, len), v) == len
  {
    var u := Normalize(v, len);
    DotScale(1.0 / len, v, v);
    DotScale(1.0 / len, v, u);
    assert Dot(v, u) == Dot(u, v);
    assert (1.0 / len) * len == 1.0;
  }

  /** Stepping `s` along a non-zero vector of true length `len` is a step of
      length `s` entirely along the vector. */
  lemma StepAlong(v: Vec3, len: real, s: real)
    requires IsLength(v, len) && v != Zero
    ensures var step := Normalize(v, len).Scale(s);
      Dot(step, step) == s * s && Dot(step, v) == s * len
  {
    NormalizeIsUnit(v, len);
    ScaledUnit(Normalize(v, len), v, len, s);
  }

  /** Stepping along the zero vector goes nowhere. */
  lemma NoStep(p: Vec3, s: real)
    ensures p.Add(Zero.Scale(s)) == p
  {
  }

  /** Scaling the first argument scales the dot product. */
  lemma DotScale(k: real, a: Vec3, b: Vec3)
    ensures Dot(a.Scale(k), b) == k * Dot(a, b)
  {
  }

  /** A unit vector `u` along `v`, scaled by `s`, has length `s` and
      component `s * len` along `v`. */
  lemma ScaledUnit(u: Vec3, v: Vec3, len: real, s: real)
    requires Dot(u, u) == 1.0 && Dot(u, v) == len
    ensures Dot(u.Scale(s), u.Scale(s)) == s * s
    ensures Dot(u.Scale(s), v) == s * len
  {
    DotScale(s, u, u.Scale(s));
    DotScale(s, u, u);
    assert Dot(u, u.Scale(s)) == Dot(u.Scale(s), u);
    DotScale(s, u, v);
  }

  /** The dot product is linear in its first argument. */
  lemma DotLinear(f: real, s: real, a: Vec3, b: Vec3, c: Vec3)
    ensures Dot(a.Scale(f).Add(b.Scale(s)), c) == f * Dot(a, c) + s * Dot(b, c)
  {
  }

  /** The per-frame step length of each label: half of 0.05 crouching, double
      sprinting, 0.05 walking. */
  function StepLength(state: AnimationState): real {
    match state
    case Crouch => 0.05 * 0.5
    case Sprint => 0.05 * 2.0
    case Walk => 0.05
    case _ => 0.0
  }

  /** The label selection: crouch wins, then a moving sprint, then walking,
      then idle. */
  function SelectLabel(crouch: bool, moving: bool, shift: bool): (l: AnimationState)
    ensures l == Crouch <==> crouch
    ensures l == Sprint <==> !crouch && moving && shift
    ensures l == Walk <==> !crouch && moving && !shift
    ensures l == Idle <==> !crouch && !moving
  {
    if crouch then Crouch
    else if moving then (if shift then Sprint else Walk)
    else Idle
  }

  /** The controller state this model tracks. */
  datatype Controller = Controller(
    inputMap: InputMap,
    isFirstPerson: bool,
    yaw: real,
    pitch: real,
    skipTPFacingFrames: nat,
    position: Vec3,
    tpTarget: Vec3,
    anim: Anim)

  /** `updateMovement`. `forward` and `right` are the camera's horizontal
      basis and `len` the length of the summed move vector. When that vector
      is non-zero the character steps along it, normalised and scaled by the
      label's step length, including while crouching; otherwise it stays put.
      The label is then played, and the third-person camera target follows
      the character. */
  function UpdateMovement(c: Controller, forward: Vec3, right: Vec3, len: real): (r: Controller)
    ensures var move := MoveVector(c.inputMap, forward, right);
      var speed := StepLength(r.anim.currentState);
      var step := Normalize(move, len).Scale(speed);
      && r.anim.currentState == SelectLabel(Held(c.inputMap, "c"), move != Zero, Held(c.inputMap, "shift"))
      && (move != Zero ==> r.position == c.position.Add(step))
      && (move == Zero ==> r.position == c.position)
    ensures r.anim == PlayBase(c.anim, r.anim.currentState)
    ensures !c.isFirstPerson ==> r.tpTarget == r.position
    ensures c.isFirstPerson ==> r.tpTarget == c.tpTarget
    ensures r.inputMap == c.inputMap && r.yaw == c.yaw && r.pitch == c.pitch
    ensures r.isFirstPerson == c.isFirstPerson && r.skipTPFacingFrames == c.skipTPFacingFrames
  {
    var moveSpeed := 0.05;
    var move := MoveVector(c.inputMap, forward, right);
    var moving := move != Zero;
    var unit := Normalize(move, len);
    var isCrouching := Held(c.inputMap, "c");
    var state :=
      if isCrouching then Crouch
      else if moving then (if Held(c.inputMap, "shift") then Sprint else Walk)
      else Idle;
    if moving then
      var scale := if isCrouching then moveSpeed * 0.5 else if Held(c.inputMap, "shift") then moveSpeed * 2.0 else moveSpeed;
      assert scale == StepLength(state);
      Finish(c, state, c.position.Add(unit.Scale(scale)))
    else Finish(c, state, c.position)
  }

  /** Given the true length of a non-zero move vector, a move steps exactly
      the label's step length (0.025 crouching, 0.1 sprinting, 0.05 walking),
      and all of it along the summed key vector: the step's component along
      the move vector is its whole length times the vector's. */
  lemma MoveStepLength(c: Controller, forward: Vec3, right: Vec3, len: real)
    requires IsLength(MoveVector(c.inputMap, forward, right), len)
    requires MoveVector(c.inputMap, forward, right) != Zero
    ensures var r := UpdateMovement(c, forward, right, len);
      var move := MoveVector(c.inputMap, forward, right);
      var speed := StepLength(r.anim.currentState);
      var step := Normalize(move, len).Scale(speed);
      && speed == (if Held(c.inputMap, "c") then 0.025 else if Held(c.inputMap, "shift") then 0.1 else 0.05)
      && r.position == c.position.Add(step)
      && Dot(step, step) == speed * speed
      && Dot(step, move) == speed * len
  {
    var r := UpdateMovement(c, forward, right, len);
    var move := MoveVector(c.inputMap, forward, right);
    var speed := StepLength(r.anim.currentState);
    var step := Normalize(move, len).Scale(speed);
    NormalizeIsUnit(move, len);
    ScaledUnit(Normalize(move, len), move, len, speed);
    assert r.position == c.position.Add(step);
  }

  /** The end of `updateMovement`: move, play the label, let the third-person
      target follow. */
  function Finish(c: Controller, state: AnimationState, position: Vec3): (r: Controller)
    ensures r.position == position && r.anim == PlayBase(c.anim, state)
  {
    c.(position := position, anim := PlayBase(c.anim, state),
       tpTarget := if c.isFirstPerson then c.tpTarget else position)
  }

  /** Holding crouch selects Crouch whatever else is held, and moves by at
      most the crouch step. */
  lemma CrouchOverrides(c: Controller, forward: Vec3, right: Vec3, len: real)
    requires Held(c.inputMap, "c")
    ensures UpdateMovement(c, forward, right, len).anim.currentState == Crouch
    ensures var d := UpdateMovement(c, forward, right, len).position;
      d == c.position || d == c.position.Add(Normalize(MoveVector(c.inputMap, forward, right), len).Scale(0.025))
  {
  }

  /** W with S, or A with D, and nothing else held, gives Idle and no motion
      on an orthonormal basis. */
  lemma OppositeKeysCancel(c: Controller, forward: Vec3, right: Vec3, len: real)
    requires Dot(forward, forward) == 1.0 && Dot(right, right) == 1.0 && Dot(forward, right) == 0.0
    requires ForwardAxis(c.inputMap) == 0 && RightAxis(c.inputMap) == 0
    requires !Held(c.inputMap, "c")
    ensures IsLength(MoveVector(c.inputMap, forward, right), 0.0)
    ensures UpdateMovement(c, forward, right, len).anim.currentState == Idle
    ensures UpdateMovement(c, forward, right, len).position == c.position
  {
    MoveZeroIffAxesCancel(c.inputMap, forward, right);
  }

  // ---------------------------------------------------------------------------
  // Angles.

  /** Truncation toward zero. */
  function Trunc(x: real): (t: int)
    ensures x >= 0.0 ==> t as real <= x < t as real + 1.0
    ensures x < 0.0 ==> t as real - 1.0 < x <= t as real
  {
    if x >= 0.0 then x.Floor else -((-x).Floor)
  }

  /** JavaScript's `angle % (2 * Math.PI)`: the remainder after truncating
      the quotient, with the dividend's sign. */
  function RemTwoPi(a: real): (r: real)
    ensures a >= 0.0 ==> 0.0 <= r < TwoPi
    ensures a < 0.0 ==> -TwoPi < r <= 0.0
    ensures a - r == Trunc(a / TwoPi) as real * TwoPi
  {
    a - Trunc(a / TwoPi) as real * TwoPi
  }

  /** A whole number of turns. */
  predicate WholeTurns(x: real) {
    (x / TwoPi).Floor as real == x / TwoPi
  }

  lemma TurnsAreWhole(k: int)
    ensures WholeTurns(k as real * TwoPi)
  {
    assert (k as real * TwoPi) / TwoPi == k as real;
  }

  /** `normalizeAngle`. */
  function NormalizeAngle(angle: real): (r: real)
    ensures -Pi <= r <= Pi
  {
    var a := RemTwoPi(angle);
    var b := if a > Pi then a - TwoPi else a;
    if b < -Pi then b + TwoPi else b
  }

  /** The normalised angle lies in [-pi, pi] and differs from the input by a
      whole number of turns. */
  lemma NormalizeAngleCorrect(angle: real)
    ensures -Pi <= NormalizeAngle(angle) <= Pi
    ensures WholeTurns(angle - NormalizeAngle(angle))
  {
    var a := RemTwoPi(angle);
    var k := Trunc(angle / TwoPi);
    var r := NormalizeAngle(angle);
    var j: int := if a > Pi then 1 else if a < -Pi then -1 else 0;
    assert r == a - j as real * TwoPi;
    assert angle - r == (k + j) as real * TwoPi;
    TurnsAreWhole(k + j);
  }

  /** An angle already in (-pi, pi] is returned as it is. */
  lemma NormalizeAngleFixesSmall(angle: real)
    requires -Pi < angle <= Pi
    ensures NormalizeAngle(angle) == angle
  {
    var k := Trunc(angle / TwoPi);
    assert k == 0;
  }

  // ---------------------------------------------------------------------------
  // Facing, pointer and keys.

  datatype Facing = Facing(c: Controller, desiredYaw: Option<real>)

  /** `updateFacingToCamera`: in first person, or while frames are left to
      skip, the counter drops by one (not below zero) and facing is not
      updated; otherwise the desired yaw is the camera's yaw turned 30 degrees
      left for A and right for D. `cameraYaw` is the yaw (`atan2(x, z)`)
      of the horizontal direction from the camera's target to the camera,
      which is the opposite of the way the camera looks. */
  function UpdateFacing(c: Controller, cameraYaw: real): (r: Facing)
    ensures r.c == c.(skipTPFacingFrames := r.c.skipTPFacingFrames)
    ensures c.isFirstPerson || c.skipTPFacingFrames > 0 ==>
      r.desiredYaw.None? && r.c.skipTPFacingFrames == if c.skipTPFacingFrames > 0 then c.skipTPFacingFrames - 1 else 0
    ensures !c.isFirstPerson && c.skipTPFacingFrames == 0 ==>
      r.desiredYaw.Some? && r.c.skipTPFacingFrames == 0
    ensures r.desiredYaw.Some? ==>
      r.desiredYaw.value == cameraYaw + (RightAxis(c.inputMap) as real) * (Pi / 6.0)
  {
    if c.isFirstPerson || c.skipTPFacingFrames > 0 then
      Facing(c.(skipTPFacingFrames := if c.skipTPFacingFrames > 0 then c.skipTPFacingFrames - 1 else 0), None)
    else
      var desired := cameraYaw;
      var desired := if Either(c.inputMap, "a", "arrowleft") then desired - Pi / 6.0 else desired;
      var desired := if Either(c.inputMap, "d", "arrowright") then desired + Pi / 6.0 else desired;
      Facing(c, Some(desired))
  }

  /** Holding A and D together faces the camera's own yaw. */
  lemma LeftAndRightCancelFacing(c: Controller, cameraYaw: real)
    requires !c.isFirstPerson && c.skipTPFacingFrames == 0
    requires Either(c.inputMap, "a", "arrowleft") && Either(c.inputMap, "d", "arrowright")
    ensures UpdateFacing(c, cameraYaw).desiredYaw == Some(cameraYaw)
  {
  }

  /** `toggleFirstPersonView`. Entering first person takes the yaw of the
      third-person view direction (`viewYaw`) and levels the pitch; leaving it
      normalises the yaw, puts the third-person target back on the character
      and skips one frame of third-person facing. */
  function ToggleView(c: Controller, viewYaw: real): (r: Controller)
    ensures r.isFirstPerson == !c.isFirstPerson
    ensures r.isFirstPerson ==>
      r.yaw == viewYaw && r.pitch == 0.0 && r.skipTPFacingFrames == c.skipTPFacingFrames && r.tpTarget == c.tpTarget
    ensures !r.isFirstPerson ==> r.skipTPFacingFrames == 1 && r.pitch == c.pitch && r.tpTarget == c.position
    ensures r.inputMap == c.inputMap && r.position == c.position && r.anim == c.anim
  {
    if !c.isFirstPerson then c.(isFirstPerson := true, yaw := viewYaw, pitch := 0.0)
    else c.(isFirstPerson := false, yaw := NormalizeAngle(c.yaw), skipTPFacingFrames := 1, tpTarget := c.position)
  }

  /** Moving in first person leaves the third-person target behind, and
      leaving first person catches it up: back in third person the target is
      on the character again. */
  lemma LeavingFirstPersonRetargets(c: Controller, forward: Vec3, right: Vec3, len: real, viewYaw: real)
    requires c.isFirstPerson
    ensures var moved := UpdateMovement(c, forward, right, len);
      && moved.tpTarget == c.tpTarget
      && ToggleView(moved, viewYaw).tpTarget == moved.position
  {
  }

  /** Leaving first person keeps the yaw's direction, brought into [-pi, pi]. */
  lemma LeavingFirstPersonNormalisesYaw(c: Controller, viewYaw: real)
    requires c.isFirstPerson
    ensures -Pi <= ToggleView(c, viewYaw).yaw <= Pi
    ensures WholeTurns(c.yaw - ToggleView(c, viewYaw).yaw)
  {
    NormalizeAngleCorrect(c.yaw);
  }

  /** After leaving first person exactly one frame of facing is skipped. */
  lemma ToggleSkipsOneFacingFrame(c: Controller, viewYaw: real, yaw1: real, yaw2: real)
    requires c.isFirstPerson
    ensures var t := ToggleView(c, viewYaw);
      && UpdateFacing(t, yaw1).desiredYaw.None?
      && UpdateFacing(UpdateFacing(t, yaw1).c, yaw2).desiredYaw.Some?
  {
  }

  const PitchLimit: real := Pi / 2.0 - 0.05

  /** The first-person pointer move: ignored in third person or without
      pointer lock; otherwise turns by 0.002 per pixel and clamps the pitch. */
  function PointerMove(c: Controller, movementX: real, movementY: real, locked: bool): (r: Controller)
    ensures !c.isFirstPerson || !locked ==> r == c
    ensures c.isFirstPerson && locked ==>
      && r.yaw == c.yaw + movementX * 0.002
      && -PitchLimit <= r.pitch <= PitchLimit
      && (-PitchLimit <= c.pitch - movementY * 0.002 <= PitchLimit ==> r.pitch == c.pitch - movementY * 0.002)
    ensures r == c.(yaw := r.yaw, pitch := r.pitch)
  {
    if !c.isFirstPerson || !locked then c
    else c.(yaw := c.yaw + movementX * 0.002,
            pitch := Clamp(c.pitch - movementY * 0.002, -Pi / 2.0 + 0.05, Pi / 2.0 - 0.05))
  }

  /** Once in range, the pitch stays in range under any pointer move and any
      view toggle. */
  lemma PitchStaysClamped(c: Controller, movementX: real, movementY: real, locked: bool, viewYaw: real)
    requires -PitchLimit <= c.pitch <= PitchLimit
    ensures -PitchLimit <= PointerMove(c, movementX, movementY, locked).pitch <= PitchLimit
    ensures -PitchLimit <= ToggleView(c, viewYaw).pitch <= PitchLimit
  {
  }

  datatype KeyKind = KeyDown | KeyUp

  /** The keyboard handler: the lower-cased key is marked held on key-down
      (and "p" toggles the view) and released on key-up. */
  function OnKey(c: Controller, kind: KeyKind, key: string, viewYaw: real): (r: Controller)
    ensures kind == KeyDown ==> Held(r.inputMap, Lower(key))
    ensures kind == KeyUp ==> Lower(key) in r.inputMap && !Held(r.inputMap, Lower(key))
    ensures forall k :: k != Lower(key) ==> (k in r.inputMap <==> k in c.inputMap)
    ensures forall k :: k != Lower(key) && k in c.inputMap ==> r.inputMap[k] == c.inputMap[k]
    ensures r.isFirstPerson != c.isFirstPerson <==> kind == KeyDown && Lower(key) == "p"
  {
    var k := Lower(key);
    match kind
    case KeyDown =>
      var d := c.(inputMap := c.inputMap[k := true]);
      if k == "p" then ToggleView(d, viewYaw) else d
    case KeyUp => c.(inputMap := c.inputMap[k := false])
  }

  /** In third person the orbit camera's target sits on the character. */
  predicate TargetOnCharacter(c: Controller) {
    !c.isFirstPerson ==> c.tpTarget == c.position
  }

  /** Every controller operation keeps the third-person target on the
      character, so it is never stale after a view switch. */
  lemma TargetOnCharacterPreserved(c: Controller, forward: Vec3, right: Vec3, len: real, viewYaw: real,
                                   cameraYaw: real, movementX: real, movementY: real, locked: bool,
                                   kind: KeyKind, key: string)
    requires TargetOnCharacter(c)
    ensures TargetOnCharacter(UpdateMovement(c, forward, right, len))
    ensures TargetOnCharacter(ToggleView(c, viewYaw))
    ensures TargetOnCharacter(UpdateFacing(c, cameraYaw).c)
    ensures TargetOnCharacter(PointerMove(c, movementX, movementY, locked))
    ensures TargetOnCharacter(OnKey(c, kind, key, viewYaw))
  {
  }
}
