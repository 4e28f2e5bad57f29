/** The draft player controller: key flags for shift and crouch, the per-frame
    speed and label selection, camera-target following, the yaw-change
    threshold, and the mouse clamps of both views. */
module PlayerController {
  import opened Common
  import opened PlayerAnimation
  import CharacterController

  const WalkSpeed: real := 0.05
  const SprintSpeed: real := 0.1
  const CrouchSpeed: real := 0.025

  /** Height of the first-person rotation target above the player. */
  const EyeHeight: real := 1.75

  datatype Draft = Draft(
    inputMap: CharacterController.InputMap,
    isShiftPressed: bool,
    isCrouching: bool,
    isFirstPerson: bool,
    speed: real,
    position: Vec3,
    fpTargetPos: Vec3,
    tpTargetPos: Vec3,
    lastYaw: real,
    /** The first-person target's pitch and yaw. */
    pitch: real,
    yaw: real,
    /** The third-person target's yaw and the orbit camera's elevation. */
    tpYaw: real,
    beta: real,
    anim: Anim)

  /** The constructor's initial values. The first-person target starts at eye
      height above the model root; the third-person target is created at the
      origin and first moves onto the player in `Tick`. */
  function NewDraft(position: Vec3, tpYaw: real, beta: real, anim: Anim): (d: Draft)
    ensures d.speed == WalkSpeed && !d.isShiftPressed && !d.isCrouching && !d.isFirstPerson
    ensures d.inputMap == map[] && d.pitch == 0.0 && d.yaw == 0.0 && d.lastYaw == 0.0
    ensures d.position == position && d.fpTargetPos.y == position.y + EyeHeight
    ensures d.fpTargetPos.x == position.x && d.fpTargetPos.z == position.z
    ensures d.tpTargetPos == Vec3(0.0, 0.0, 0.0)
  {
    Draft(map[], false, false, false, WalkSpeed, position, position.Add(Vec3(0.0, EyeHeight, 0.0)), Vec3(0.0, 0.0, 0.0),
          0.0, 0.0, 0.0, tpYaw, beta, anim)
  }

  datatype KeyKind = KeyDown | KeyUp

  /** `registerInput`: the lower-cased key is marked held or released, and the
      shift and crouch flags follow key-down and key-up of "shift" and "c". */
  function OnKey(d: Draft, kind: KeyKind, key: string): (r: Draft)
    ensures r == d.(inputMap := r.inputMap, isShiftPressed := r.isShiftPressed, isCrouching := r.isCrouching)
    ensures Lower(key) in r.inputMap && r.inputMap[Lower(key)] == (kind == KeyDown)
    ensures forall k :: k != Lower(key) ==> (k in r.inputMap <==> k in d.inputMap)
    ensures forall k :: k != Lower(key) && k in d.inputMap ==> r.inputMap[k] == d.inputMap[k]
    ensures r.isShiftPressed == if Lower(key) == "shift" then kind == KeyDown else d.isShiftPressed
    ensures r.isCrouching == if Lower(key) == "c" then kind == KeyDown else d.isCrouching
  {
    var k := Lower(key);
    var down := kind == KeyDown;
    d.(inputMap := d.inputMap[k := down],
       isShiftPressed := if k == "shift" then down else d.isShiftPressed,
       isCrouching := if k == "c" then down else d.isCrouching)
  }

  /** The two flags mirror the input map. */
  predicate FlagsMirrorKeys(d: Draft) {
    && d.isShiftPressed == CharacterController.Held(d.inputMap, "shift")
    && d.isCrouching == CharacterController.Held(d.inputMap, "c")
  }

  lemma NewDraftMirrors(position: Vec3, tpYaw: real, beta: real, anim: Anim)
    ensures FlagsMirrorKeys(NewDraft(position, tpYaw, beta, anim))
  {
  }

  lemma OnKeyPreservesMirror(d: Draft, kind: KeyKind, key: string)
    requires FlagsMirrorKeys(d)
    ensures FlagsMirrorKeys(OnKey(d, kind, key))
  {
  }

  /** The draft's move vector: forward minus back, plus `right` for A and
      minus it for D (its `right` is the cross product the other way round). */
  function MoveDir(m: CharacterController.InputMap, forward: Vec3, right: Vec3): (v: Vec3)
    ensures v == CharacterController.MoveVector(m, forward, right.Scale(-1.0))
  {
    forward.Scale(CharacterController.ForwardAxis(m) as real).Add(right.Scale(-CharacterController.RightAxis(m) as real))
  }

  /** A vector with its y component zeroed. */
  function Horizontal(v: Vec3): (h: Vec3)
    ensures h.y == 0.0 && h.x == v.x && h.z == v.z
  {
    Vec3(v.x, 0.0, v.z)
  }

  /** The speed rule: crouching always gives the crouch speed; otherwise
      sprint needs both movement and shift; anything else walks. */
  function SelectSpeed(crouching: bool, moving: bool, shift: bool): (s: real)
    ensures crouching ==> s == CrouchSpeed
    ensures s == SprintSpeed <==> !crouching && moving && shift
    ensures !crouching && !(moving && shift) ==> s == WalkSpeed
  {
    if crouching then CrouchSpeed else if moving && shift then SprintSpeed else WalkSpeed
  }

  /** One frame of `registerUpdate`. `forward` and `right` are the active
      rotation target's basis and `len` the length of the move vector with
      its y zeroed; when moving, the player steps by that horizontal vector,
      normalised, times the speed. Both rotation targets then follow the
      player, the player is turned only when the active target's yaw moved by
      more than 0.001 since the last turn, and the label is played. */
  function Tick(d: Draft, forward: Vec3, right: Vec3, len: real): (r: Draft)
    ensures var moving := MoveDir(d.inputMap, forward, right) != CharacterController.Zero;
      var unit := CharacterController.Normalize(Horizontal(MoveDir(d.inputMap, forward, right)), len);
      && r.speed == SelectSpeed(d.isCrouching, moving, d.isShiftPressed)
      && (moving ==> r.position == d.position.Add(unit.Scale(r.speed)))
      && (!moving ==> r.position == d.position)
      && r.anim.currentState == CharacterController.SelectLabel(d.isCrouching, moving, d.isShiftPressed)
    ensures r.position.y == d.position.y
    ensures r.fpTargetPos == r.position.Add(Vec3(0.0, EyeHeight, 0.0)) && r.tpTargetPos == r.position
    ensures r.anim == PlayBase(d.anim, r.anim.currentState)
    ensures var yaw := if d.isFirstPerson then d.yaw else d.tpYaw;
      r.lastYaw == if Abs(d.lastYaw - yaw) > 0.001 then yaw else d.lastYaw
    ensures r.inputMap == d.inputMap && r.pitch == d.pitch && r.yaw == d.yaw && r.beta == d.beta
  {
    var moveDir := MoveDir(d.inputMap, forward, right);
    var moving := moveDir != CharacterController.Zero;
    var unit := CharacterController.Normalize(Horizontal(moveDir), len);
    var speed := if d.isCrouching then CrouchSpeed else if moving && d.isShiftPressed then SprintSpeed else WalkSpeed;
    var position := if moving then d.position.Add(unit.Scale(speed)) else d.position;
    var currentYaw := if d.isFirstPerson then d.yaw else d.tpYaw;
    var lastYaw := if Abs(d.lastYaw - currentYaw) > 0.001 then currentYaw else d.lastYaw;
    var state :=
      if d.isCrouching then Crouch
      else if moving && d.isShiftPressed then Sprint
      else if moving then Walk
      else Idle;
    d.(speed := speed, position := position,
       fpTargetPos := position.Add(Vec3(0.0, EyeHeight, 0.0)), tpTargetPos := position,
       lastYaw := lastYaw, anim := PlayBase(d.anim, state))
  }

  /** The draft and the engine controller agree: with flags mirroring the
      keys and the same non-zero-ness of the move vector, both pick the same
      label, and whenever both move they move by the same step. */
  lemma AgreesWithCharacterController(d: Draft, forward: Vec3, right: Vec3, len: real,
                                      c: CharacterController.Controller, cf: Vec3, cr: Vec3, clen: real)
    requires FlagsMirrorKeys(d) && c.inputMap == d.inputMap
    requires (MoveDir(d.inputMap, forward, right) != CharacterController.Zero)
         == (CharacterController.MoveVector(c.inputMap, cf, cr) != CharacterController.Zero)
    ensures Tick(d, forward, right, len).anim.currentState
         == CharacterController.UpdateMovement(c, cf, cr, clen).anim.currentState
    ensures MoveDir(d.inputMap, forward, right) != CharacterController.Zero ==>
      Tick(d, forward, right, len).speed
        == CharacterController.StepLength(CharacterController.UpdateMovement(c, cf, cr, clen).anim.currentState)
  {
  }

  /** Given the true length of the horizontal move vector: when it is
      non-zero, the player steps exactly the speed along it; when the keys
      are held but the vector points straight up or down, the player does
      not move. */
  lemma TickStepLength(d: Draft, forward: Vec3, right: Vec3, len: real)
    requires CharacterController.IsLength(Horizontal(MoveDir(d.inputMap, forward, right)), len)
    requires MoveDir(d.inputMap, forward, right) != CharacterController.Zero
    ensures var r := Tick(d, forward, right, len);
      var h := Horizontal(MoveDir(d.inputMap, forward, right));
      var step := CharacterController.Normalize(h, len).Scale(r.speed);
      && (h == CharacterController.Zero ==> r.position == d.position)
      && (h != CharacterController.Zero ==>
            && r.position == d.position.Add(step)
            && CharacterController.Dot(step, step) == r.speed * r.speed
            && CharacterController.Dot(step, h) == r.speed * len)
  {
    var r := Tick(d, forward, right, len);
    var h := Horizontal(MoveDir(d.inputMap, forward, right));
    if h != CharacterController.Zero {
      CharacterController.StepAlong(h, len, r.speed);
    } else {
      CharacterController.NoStep(d.position, r.speed);
    }
  }

  /** A yaw within 0.001 of the last one leaves `lastYaw` alone; a larger
      change is recorded, so the recorded yaw is never more than 0.001 away
      from the active yaw after a frame. */
  lemma YawThreshold(d: Draft, forward: Vec3, right: Vec3, len: real)
    ensures var yaw := if d.isFirstPerson then d.yaw else d.tpYaw;
      Abs(Tick(d, forward, right, len).lastYaw - yaw) <= 0.001
  {
  }

  const Pi: real := CharacterController.Pi
  const SensitivityPerPixel: real := 0.005

  /** `setupMouseCameraControl`'s pointer move: ignored without pointer lock;
      in first person it turns the first-person target and clamps its pitch to
      [-pi/2 + 0.1, pi/2 - 0.1]; in third person it turns the third-person
      target and clamps the orbit elevation to [0.1, pi/2]. */
  function MouseMove(d: Draft, movementX: real, movementY: real, locked: bool): (r: Draft)
    ensures !locked ==> r == d
    ensures locked && d.isFirstPerson ==>
      && r == d.(yaw := r.yaw, pitch := r.pitch)
      && r.yaw == d.yaw + movementX * SensitivityPerPixel
      && -Pi / 2.0 + 0.1 <= r.pitch <= Pi / 2.0 - 0.1
    ensures locked && !d.isFirstPerson ==>
      && r == d.(tpYaw := r.tpYaw, beta := r.beta)
      && r.tpYaw == d.tpYaw + movementX * SensitivityPerPixel
      && 0.1 <= r.beta <= Pi / 2.0
  {
    if !locked then d
    else if d.isFirstPerson then
      d.(yaw := d.yaw + movementX * SensitivityPerPixel,
         pitch := Clamp(d.pitch - movementY * SensitivityPerPixel, -Pi / 2.0 + 0.1, Pi / 2.0 - 0.1))
    else
      d.(tpYaw := d.tpYaw + movementX * SensitivityPerPixel,
         beta := Clamp(d.beta - movementY * SensitivityPerPixel, 0.1, Pi / 2.0))
  }

  /** A pointer move that keeps the raw pitch or elevation inside its range
      applies it unchanged. */
  lemma MouseMoveExactInRange(d: Draft, movementX: real, movementY: real)
    ensures d.isFirstPerson && -Pi / 2.0 + 0.1 <= d.pitch - movementY * SensitivityPerPixel <= Pi / 2.0 - 0.1 ==>
      MouseMove(d, movementX, movementY, true).pitch == d.pitch - movementY * SensitivityPerPixel
    ensures !d.isFirstPerson && 0.1 <= d.beta - movementY * SensitivityPerPixel <= Pi / 2.0 ==>
      MouseMove(d, movementX, movementY, true).beta == d.beta - movementY * SensitivityPerPixel
  {
  }
}
