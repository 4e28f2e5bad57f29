# bloxd mini game — a Dafny model of its voxel core

This project models the logic at the centre of a small browser voxel sandbox:

- **Chunk storage.** A world is made of 16×16×16 chunks of one-byte block ids.
- **World indexing.** World coordinates are split into chunk and local coordinates.
- **Block catalogue.** Block definitions are kept in a string-keyed catalogue, with a texture normaliser.
- **Block placement.** A right click turns the picking result into a single-cell write.
- **Player movement.** The controllers pick a movement label and speed, and track facing, pitch and view.
- **Animations.** Two state machines switch the base animation groups; layered arm animations play on top.
- **Geometry from grids.**
  - The per-face voxel mesher (named "greedy" in the code, but it emits one quad per face).
  - The cellular cloud layer and its drift.
  - The height-map terrain generator and its exposed-block enumeration.
  - The physics collider grid that follows the player.

Everything is modelled in the code's own terms:

- Functions over immutable datatypes.
- Loops kept as methods wherever the code's loop order is observable: chunk rebuild, face meshing, terrain enumeration, the neighbour count.

Integers are unbounded. The `Uint8Array` store (`id mod 256`), the 32-bit `& 15`, JavaScript's truncating `%` and `Math.floor` are all written out explicitly.

No modelled file implements gravity, jumping, ceilings or landing. The controllers only move the character horizontally, and nothing selects the `Jump` animation state.

## Model

| member | source | states |
|---|---|---|
| BlockTypes.FacesAreSix | src/types/BlockDefination.ts:1 | There are exactly six faces, each listed once. |
| BlockLibrary.FillFaces | src/DraftScript/BlockLibrary.ts:57-60 | The side texture goes only into faces that are missing or empty; an explicit non-empty face is never overwritten, and no other key changes. |
| BlockLibrary.ExpandSide | src/DraftScript/BlockLibrary.ts:55-62 | After expansion the side key is gone, the four side faces are all present, and top and bottom are carried over unchanged. |
| BlockLibrary.NormalizeTextures | src/DraftScript/BlockLibrary.ts:50-68 | Normalisation keeps every non-texture field. A string texture is returned as given. A per-face map is copied unchanged when `side` is absent or empty, and expanded when it is truthy. |
| BlockLibrary.NormalizedIsStored | src/DraftScript/BlockLibrary.ts:50-68 | When the input form is well shaped, normalisation yields the stored form (a string, or a face map without `side`). |
| BlockLibrary.Register | src/DraftScript/BlockLibrary.ts:14-17 | The id maps to the normalised definition; every other id is untouched. |
| BlockLibrary.Get | src/DraftScript/BlockLibrary.ts:19-23 | A lookup succeeds exactly for registered ids and returns the stored definition; otherwise it fails with the "not registered" message. |
| BlockLibrary.GetAfterRegister | src/DraftScript/BlockLibrary.ts:14-23 | `get` after `register` returns the normalised definition, and is unchanged for every other id. |
| BlockLibrary.RegisterOverwrites | src/DraftScript/BlockLibrary.ts:14-17 | Registering the same id twice leaves only the second definition. |
| BlockLibrary.CreateMeshChecksCollisions | src/DraftScript/BlockLibrary.ts:26-48 | Mesh creation fails for unregistered ids; collisions are enabled exactly when the box default is on and the block's collider flag is set. |
| BlockRegistry.RegisterAllBlocks | src/DraftScript/BlockRegistry.ts:4-33 | Registration adds exactly air, base, base2 and stone, and keeps every other entry. |
| BlockRegistry.InitialCatalogueContents | src/DraftScript/BlockRegistry.ts:6-32 | The initial catalogue holds the four definitions unchanged, because string textures are not rewritten. Air is the only block without a collider. |
| BlockRegistry.CommentedNumericIds | src/DraftScript/BlockRegistry.ts:5-13 | The numeric ids implied by registration order are 0 to 3, with air at 0 and base at 1; only id 0 lacks a collider. |
| VoxelChunk.NewChunk | src/engine/VoxelChunk.ts:16-19 | A new chunk has the full 4096-cell store and the given chunk position. |
| VoxelChunk.Index | src/engine/VoxelChunk.ts:21-23 | Every in-bounds cell maps into the 4096-entry store. |
| VoxelChunk.IndexBijective | src/engine/VoxelChunk.ts:9-10 | The linearisation and its inverse undo each other on [0,16)³ and [0,4096). |
| VoxelChunk.IndexInjective | src/engine/VoxelChunk.ts:21-23 | Distinct in-bounds cells get distinct store indices. |
| VoxelChunk.ToUint8 | src/engine/VoxelChunk.ts:10 | The stored byte equals the id modulo 256, and is the id itself when it fits in a byte. |
| VoxelChunk.SetBlock | src/engine/VoxelChunk.ts:25-28 | A write keeps the store valid; an out-of-bounds write changes nothing. |
| VoxelChunk.GetBlock | src/engine/VoxelChunk.ts:30-37 | An out-of-bounds read returns 0 (air). |
| VoxelChunk.NewChunkIsAir | src/engine/VoxelChunk.ts:10-19 | A fresh chunk reads 0 at every coordinate. |
| VoxelChunk.GetAfterSet | src/engine/VoxelChunk.ts:25-33 | After an in-bounds write, the written cell reads `id mod 256` and every other cell reads as before. |
| VoxelChunk.IsBlockSolid | src/engine/VoxelChunk.ts:39-43 | A cell is solid iff its id has a definition whose collider flag is set. Out-of-bounds cells are looked up as id 0. |
| VoxelChunk.AddBlockInstance | src/engine/VoxelChunk.ts:45-53 | No instance is placed for an id without a definition; otherwise the instance sits at local + 16·chunkPosition + 0.5 on each axis. |
| VoxelChunk.RebuildMesh | src/engine/VoxelChunk.ts:100-132 | The rebuild requests an instance exactly for each in-bounds non-air cell, with that cell's id, in loop order; the count equals the number of requests. |
| VoxelChunk.RebuildOncePerCell | src/engine/VoxelChunk.ts:118-129 | An air cell gets no request, a non-air cell gets exactly one, and no two requests share a cell. |
| VoxelWorld.NatToDecimal | src/engine/VoxelWorld.ts:7-9 | The decimal rendering is non-empty and all digits, with one digit exactly for n < 10. |
| VoxelWorld.IntToDecimal | src/engine/VoxelWorld.ts:7-9 | The signed rendering contains no comma and starts with '-' exactly for negatives. |
| VoxelWorld.NatToDecimalInjective | src/engine/VoxelWorld.ts:7-9 | Distinct naturals render to distinct decimal strings. |
| VoxelWorld.IntToDecimalInjective | src/engine/VoxelWorld.ts:7-9 | Distinct integers render to distinct strings. |
| VoxelWorld.ChunkKeyInjective | src/engine/VoxelWorld.ts:7-9 | Equal chunk keys imply equal coordinate triples, so distinct triples never share a key. |
| VoxelWorld.ChunkKeyCommas | src/engine/VoxelWorld.ts:7-9 | A chunk key holds exactly the two commas that separate its three coordinates. |
| VoxelWorld.ChunkCoord | src/engine/VoxelWorld.ts:16-22 | The chunk coordinate is the floor of v/16: 16c ≤ v < 16c + 16. |
| VoxelWorld.AndBits15 | src/engine/VoxelWorld.ts:28-30 | Masking with 15 equals the remainder modulo 16. |
| VoxelWorld.MaskIsRemainder | src/engine/VoxelWorld.ts:28-30 | Masking the 32-bit two's-complement pattern of any coordinate with 15 gives its non-negative remainder modulo 16. |
| VoxelWorld.LocalCoord | src/engine/VoxelWorld.ts:28-30 | The local coordinate is the world coordinate's non-negative remainder modulo 16, negative coordinates included. |
| VoxelWorld.LocalCoordDecomposes | src/engine/VoxelWorld.ts:28-30 | The local coordinate `v & 15` lies in [0,16), and v = 16·floor(v/16) + (v & 15). |
| VoxelWorld.WorldCoordSplits | src/engine/VoxelWorld.ts:16-30 | A world coordinate built from a chunk and a local coordinate splits back into exactly those two. |
| VoxelWorld.LocalOfSplit | src/engine/VoxelWorld.ts:28-30 | Masking 16·c + l with 15 gives back the offset l for every l in [0,16), negative c included. |
| VoxelWorld.ChunkCoordExamples | src/engine/VoxelWorld.ts:16-30 | -1 lies in chunk -1 at local 15; 15 lies in chunk 0; 16 lies in chunk 1. |
| VoxelWorld.EmptyWorld | src/engine/VoxelWorld.ts:4 | A world starts with no chunks. |
| VoxelWorld.AddChunk | src/engine/VoxelWorld.ts:11-14 | The chunk becomes the one under its key, and no other key's chunk changes. |
| VoxelWorld.GetChunkAtWorld | src/engine/VoxelWorld.ts:16-22 | A world coordinate finds the chunk stored under its floored chunk coordinates. |
| VoxelWorld.GetBlock | src/engine/VoxelWorld.ts:25-32 | A coordinate with no chunk reads 0. |
| VoxelWorld.GetBlockDelegates | src/engine/VoxelWorld.ts:25-32 | Inside a stored chunk, the world read equals that chunk's read at the local coordinates. |
| VoxelWorld.IsBlockSolid | src/engine/VoxelWorld.ts:34-39 | Solid means a non-air id that has a definition with a collider, so id 0 is never solid. |
| VoxelWorld.NoChunkNotSolid | src/engine/VoxelWorld.ts:34-39 | A coordinate without a chunk is never solid. |
| VoxelWorld.SolidAgreesWithChunk | src/engine/VoxelWorld.ts:34-39 | Inside a chunk, world solidity matches the chunk's for non-air ids. |
| BlockPlacer.FloorCell | src/engine/BlockPlacer.ts:193-195 | The floored cell contains the point on every axis. |
| BlockPlacer.FloorCentre | src/engine/BlockPlacer.ts:93-95 | A cell centre floors back to its own cell. |
| BlockPlacer.FallbackStep | src/engine/BlockPlacer.ts:111-117 | The fallback steps one cell along exactly one axis and never down. It steps along x when abs(fx) is largest (ties included), up only when abs(fy) strictly dominates, else along z; the sign is + exactly when that forward component is positive. |
| BlockPlacer.PlacementPosition | src/engine/BlockPlacer.ts:61-128 | Any target is a cell centre. A hit with a normal gives floor(hit + normal/2) + 0.5; a hit without a normal gives none; with no hit, the standing block stepped by the fallback is the target. |
| BlockPlacer.HitOnTopFaceTargetsCellAbove | src/engine/BlockPlacer.ts:87-96 | A hit on the top face of a cell targets the cell directly above it. |
| BlockPlacer.NoHitNoStandingNoTarget | src/engine/BlockPlacer.ts:98-127 | With no hit and no standing block there is no target. |
| BlockPlacer.RangeBySquares | src/engine/BlockPlacer.ts:152-160 | Comparing squared distance with 36 rejects exactly the targets farther than 6, so a distance of exactly 6 is accepted. |
| BlockPlacer.AboveHeadStillRejected | src/engine/BlockPlacer.ts:163-184 | A block wholly above the collider's top still counts as a dangerous overlap. |
| BlockPlacer.ClearOfTorsoAccepted | src/engine/BlockPlacer.ts:163-184 | A block whose top is below the torso line is never rejected. |
| BlockPlacer.JsRemCongruent | src/engine/BlockPlacer.ts:208-210 | JavaScript's truncating remainder is congruent to v modulo 16. |
| BlockPlacer.JsLocal | src/engine/BlockPlacer.ts:208-210 | `((v % 16) + 16) % 16` with JavaScript's truncating remainder equals v's non-negative remainder modulo 16. |
| BlockPlacer.JsLocalIsLocalCoord | src/engine/BlockPlacer.ts:208-210 | `((v % 16) + 16) % 16` equals the world's `v & 15`, lies in [0,16), and rebuilds v with floor(v/16). |
| BlockPlacer.StoreChunkOf | src/engine/BlockPlacer.ts:214-219 | Writing the chunk back keeps the world valid. |
| BlockPlacer.HandlePointer | src/engine/BlockPlacer.ts:130-225 | A block is placed iff all hold: a right-button pointer-down, a target, range ≤ 6, no dangerous overlap, a chunk at the target, and a stone id. Otherwise the world is unchanged. On placement the cell is the target's cell and the byte is the stone id. A stone instance appears iff the id is in the numeric-id catalogue, at the cell's local coordinates plus 16 times the chunk position plus 0.5. |
| BlockPlacer.WriteThroughWorld | src/engine/BlockPlacer.ts:199-219 | Writing a chunk at the target's local coordinates changes the world read at the target cell, to the stored byte, and nowhere else. |
| BlockPlacer.PlacementWritesOneCell | src/engine/BlockPlacer.ts:193-224 | After any event, every cell reads as before except the placed one. |
| BlockPlacer.OnlyRightClickPlaces | src/engine/BlockPlacer.ts:132-140 | Any event other than a right-button pointer-down leaves the world unchanged. |
| CharacterController.ForwardAxis | src/engine/CharacterController.ts:332-333 | The forward input is -1, 0 or 1, and is 0 exactly when forward and back are both held or both released. |
| CharacterController.RightAxis | src/engine/CharacterController.ts:334-335 | The strafe input is -1, 0 or 1, and is 0 exactly when left and right cancel. |
| CharacterController.MoveVector | src/engine/CharacterController.ts:330-335 | W/S add and subtract the forward vector and A/D subtract and add the right vector. When both axes cancel the move is zero; when one axis cancels the move is the other axis's vector times its sign. |
| CharacterController.MoveZeroIffAxesCancel | src/engine/CharacterController.ts:331-335 | For an orthonormal horizontal basis the move vector is zero iff both axes cancel, so W+S or A+D give no movement. |
| CharacterController.SelectLabel | src/engine/CharacterController.ts:340-364 | Crouch wins whenever crouch is held; otherwise Sprint when moving with shift, Walk when moving without, Idle when still. |
| CharacterController.UpdateMovement | src/engine/CharacterController.ts:318-371 | The label follows that precedence. A non-zero move steps along the move vector normalised by the given length, scaled by the label's step length; zero input leaves the position alone. The label is played, and the third-person target follows the player. |
| CharacterController.Normalize | src/engine/CharacterController.ts:346-353 | Normalising keeps a zero vector zero, leaves the vector alone for a zero length, and keeps a horizontal vector horizontal. |
| CharacterController.NormalizeIsUnit | src/engine/CharacterController.ts:346-353 | Given the vector's true length, the normalised vector has length 1 and points along the vector. |
| CharacterController.StepAlong | src/engine/CharacterController.ts:346-362 | Scaling the normalised vector by s gives a step of length s in the vector's direction. |
| CharacterController.MoveStepLength | src/engine/CharacterController.ts:341-363 | Given the move vector's true length, a non-zero move steps exactly 0.025 with crouch held, else 0.1 with shift held, else 0.05, in the direction of the move vector. |
| CharacterController.Finish | src/engine/CharacterController.ts:363-370 | The character ends at the computed position with the label's base animation played. |
| CharacterController.CrouchOverrides | src/engine/CharacterController.ts:343-351 | Holding crouch always gives Crouch, and the character either stays put or steps 0.025 along the normalised move vector. |
| CharacterController.OppositeKeysCancel | src/engine/CharacterController.ts:331-352 | With cancelling inputs the move vector has length 0, and without crouch the label is Idle and the position does not change. |
| CharacterController.Trunc | src/engine/CharacterController.ts:271 | Truncation toward zero lies within one of x, on the side of zero. |
| CharacterController.RemTwoPi | src/engine/CharacterController.ts:271 | JavaScript's `%` by 2π keeps the sign of the angle, stays below 2π in magnitude, and removes whole turns. |
| CharacterController.TurnsAreWhole | src/engine/CharacterController.ts:270-275 | Integer multiples of 2π are whole turns. |
| CharacterController.NormalizeAngle | src/engine/CharacterController.ts:270-275 | The normalised angle lies in [-π, π]. |
| CharacterController.NormalizeAngleCorrect | src/engine/CharacterController.ts:270-275 | The normalised angle lies in [-π, π] and differs from the input by whole turns. |
| CharacterController.NormalizeAngleFixesSmall | src/engine/CharacterController.ts:270-275 | An angle already in (-π, π] is returned unchanged. |
| CharacterController.UpdateFacing | src/engine/CharacterController.ts:290-315 | In first person or while frames are left to skip, facing is not updated and the counter drops by one but never below 0. Otherwise the desired yaw is the camera yaw plus 30° times the strafe input. |
| CharacterController.LeftAndRightCancelFacing | src/engine/CharacterController.ts:302-310 | Holding A and D together faces the camera yaw exactly. |
| CharacterController.ToggleView | src/engine/CharacterController.ts:223-268 | The toggle flips the view. Entering first person takes the view yaw and zero pitch. Leaving it sets one frame to skip and puts the third-person camera target on the character's position. Input, position and animation are untouched. |
| CharacterController.LeavingFirstPersonNormalisesYaw | src/engine/CharacterController.ts:262 | Leaving first person brings the yaw into [-π, π] without changing its direction. |
| CharacterController.LeavingFirstPersonRetargets | src/engine/CharacterController.ts:256-259 | While in first person the movement update leaves the third-person target alone; leaving first person afterwards retargets it to where the character now stands. |
| CharacterController.TargetOnCharacterPreserved | src/engine/CharacterController.ts:259-370 | In third person the camera target sits on the character. The movement update, the view toggle, the facing update, pointer moves and key events all keep this true. |
| CharacterController.ToggleSkipsOneFacingFrame | src/engine/CharacterController.ts:266-294 | After leaving first person exactly one facing update is skipped. |
| CharacterController.PointerMove | src/engine/CharacterController.ts:188-200 | The pointer is ignored outside locked first person. Otherwise the yaw turns 0.002 per pixel and the pitch is clamped to [-π/2+0.05, π/2-0.05], left exact when already inside. |
| CharacterController.PitchStaysClamped | src/engine/CharacterController.ts:191-193 | A pitch in range stays in range under any pointer move or view toggle. |
| CharacterController.OnKey | src/engine/CharacterController.ts:142-159 | Key-down marks the lower-cased key held and key-up marks it released, touching no other key; the view toggles exactly on key-down of "p". |
| PlayerController.NewDraft | src/DraftScript/PlayerController.ts:27-85 | The draft starts at walk speed, with no flags, no keys and zero angles. The first-person target is 1.75 above the player and the third-person target is at the origin. |
| PlayerController.OnKey | src/DraftScript/PlayerController.ts:146-160 | The key's entry becomes true on key-down and false on key-up; the shift and crouch flags follow their own key's last event, and nothing else changes. |
| PlayerController.NewDraftMirrors | src/DraftScript/PlayerController.ts:27-36 | Initially the flags agree with the key map. |
| PlayerController.OnKeyPreservesMirror | src/DraftScript/PlayerController.ts:150-158 | Key events keep the shift and crouch flags equal to the held state of their keys. |
| PlayerController.SelectSpeed | src/DraftScript/PlayerController.ts:175 | Crouching always gives 0.025. Sprint speed 0.1 applies exactly when not crouching, moving and holding shift; otherwise 0.05. |
| PlayerController.MoveDir | src/DraftScript/PlayerController.ts:168-172 | The draft's move direction is the engine controller's move vector with the right vector reversed, so D moves along the draft's right vector and A against it. |
| PlayerController.Tick | src/DraftScript/PlayerController.ts:162-200 | The speed and label follow the crouch > sprint > walk > idle precedence. Only a non-zero input moves the player, by the speed along the move vector with its y zeroed and normalised, so the height never changes. The eye target sits 1.75 above the player and the orbit target on the player. The last yaw is updated only on a change above 0.001. |
| PlayerController.Horizontal | src/DraftScript/PlayerController.ts:177 | Zeroing y keeps x and z. |
| PlayerController.TickStepLength | src/DraftScript/PlayerController.ts:174-180 | Given the true length of the horizontal move vector, a moving player steps exactly the speed along it; a purely vertical input leaves the player in place. |
| PlayerController.AgreesWithCharacterController | src/DraftScript/PlayerController.ts:175-199 | The draft and the engine controller pick the same label and, when moving, the same step length. |
| PlayerController.YawThreshold | src/DraftScript/PlayerController.ts:186-194 | After a frame the recorded yaw is within 0.001 of the active yaw. |
| PlayerController.MouseMove | src/DraftScript/PlayerController.ts:203-224 | Without pointer lock nothing changes. In first person the pitch is clamped to [-π/2+0.1, π/2-0.1]; in third person the elevation is clamped to [0.1, π/2]. Each turns its yaw by 0.005 per pixel. |
| PlayerController.MouseMoveExactInRange | src/DraftScript/PlayerController.ts:217-222 | Raw values already inside the clamp ranges are applied unchanged. |
| Animations.IndexByLowerName | src/engine/PlayerAnimator.ts:23-25 | Every group is reachable under its lower-cased name, and every key holds a group whose lower-cased name is that key. |
| Animations.IndexLastWins | src/engine/PlayerAnimator.ts:23-25 | When names collide after lower-casing, the later group wins. |
| Animations.StopKey | src/engine/PlayerAnimator.ts:71 | Stopping the current key stops only that group. |
| Animations.Group.Start | src/engine/PlayerAnimator.ts:75 | Starting a group that is already running, or that has no animations, changes nothing. Otherwise the group runs with the requested looping. Name and animations are kept. |
| Animations.Group.Play | src/engine/PlayerAnimator.ts:86-104 | A running group is restarted with the new looping. A stopped one is stopped and started, so it runs exactly when it has animations. Name and animations are kept. |
| PlayerAnimation.LayeredBones | src/engine/PlayerAnimation.ts:8-13 | The four layered names, and only they, map to exactly one bone each. |
| PlayerAnimation.AnimNameMap | src/engine/PlayerAnimation.ts:69-76 | The four state keys map to capitalised group names that lower-case back to the key. Any other name maps to itself. |
| PlayerAnimation.LowerIs | src/engine/PlayerAnimation.ts:76-78 | Character-wise lower-casing yields the expected key. |
| PlayerAnimation.StateKeyIsLowerName | src/engine/PlayerAnimation.ts:69-78 | For every state, the group key looked up through the name map is the state's lower-cased name. |
| PlayerAnimation.LowerStateName | src/engine/PlayerAnimation.ts:76-78 | Each state's name lower-cases to its group key. |
| PlayerAnimation.StateKeysDistinct | src/engine/PlayerAnimation.ts:4-13 | Distinct states have distinct group keys, none of them a layered key. |
| PlayerAnimation.LayeredNameKeys | src/engine/PlayerAnimation.ts:54 | A layered name's group is stored under one of the four layered keys. |
| PlayerAnimation.LayeredNamesDriveOneArm | src/engine/PlayerAnimation.ts:8-13 | Each layered name drives exactly the right arm or exactly the left arm. |
| PlayerAnimation.Prepare | src/engine/PlayerAnimation.ts:36-53 | A configured group keeps only the animations on its bones, or is left as it was if none match. Every group ends stopped. |
| PlayerAnimation.PreparedLayeredDrivesConfiguredBones | src/engine/PlayerAnimation.ts:36-51 | A prepared layered group either is unchanged or drives only configured bones. |
| PlayerAnimation.PrepareAll | src/engine/PlayerAnimation.ts:29-55 | Every group is prepared in order. |
| PlayerAnimation.Init | src/engine/PlayerAnimation.ts:19-55 | The base state starts as Idle. Every group is stored under its lower-cased name, prepared and stopped. |
| PlayerAnimation.PlayBase | src/engine/PlayerAnimation.ts:66-84 | Requesting the current state does nothing. Otherwise the current group is stopped and the next started looping, each if present, and the state changes even when no group exists. No other group changes. |
| PlayerAnimation.InitSatisfiesInvariant | src/engine/PlayerAnimation.ts:53-54 | After construction no group runs other than the current state's group or a layered one. |
| PlayerAnimation.PlayBasePreservesInvariant | src/engine/PlayerAnimation.ts:66-84 | Switching base state keeps the running-groups invariant. |
| PlayerAnimation.PlayBaseRunsOneBaseGroup | src/engine/PlayerAnimation.ts:80-83 | After a switch, no other state's base group is running. |
| PlayerAnimation.BoneRequests | src/engine/PlayerAnimation.ts:112-139 | Every direct-animation request pairs a bone with a group animation aimed at that bone's name, and every such pair is requested. |
| PlayerAnimation.BoneRequestsOf | src/engine/PlayerAnimation.ts:113-114 | The requests for one bone are exactly the group's animations aimed at that bone's name. |
| PlayerAnimation.PlayLayered | src/engine/PlayerAnimation.ts:87-140 | A missing group or bone mapping does nothing. Otherwise the group is started once, and the requests are exactly the pairs of a mapped skeleton bone with a group animation aimed at it: none other, and none missing. |
| PlayerAnimation.PlayLayeredPreservesInvariant | src/engine/PlayerAnimation.ts:87-103 | Layered playback keeps the running-groups invariant. |
| PlayerAnimator.IsolateAnimationToBone | src/engine/PlayerAnimator.ts:47-62 | The clone carries the new name and is not playing. It keeps exactly, and in order, the animations targeting the given bone. |
| PlayerAnimator.FindBone | src/engine/PlayerAnimator.ts:28-29 | The bone found has the given name; none is found exactly when no bone has it. |
| PlayerAnimator.AttackGroup | src/engine/PlayerAnimator.ts:32-41 | An attack group exists iff both the raw group and the arm bone exist. It holds exactly, in order, the raw group's animations that target that bone, and it is empty exactly when none does. |
| PlayerAnimator.Create | src/engine/PlayerAnimator.ts:19-42 | No group is current and the state is "". Groups are indexed by lower-cased name. Each arm attack exists iff its group and bone do. |
| PlayerAnimator.SetState | src/engine/PlayerAnimator.ts:67-81 | The same key is a no-op. Otherwise the previous group is stopped. A known key is started looping and becomes current; a group that was current is stopped and then started. An unknown key leaves current and state unchanged. No other group is touched. |
| PlayerAnimator.Stop | src/engine/PlayerAnimator.ts:107-111 | The current group is stopped and cleared, and the state becomes "". |
| PlayerAnimator.GetCurrentState | src/engine/PlayerAnimator.ts:117-119 | In a consistent animator the reported state is "" with no current group, and a stored key otherwise. |
| PlayerAnimator.PlayAttack | src/engine/PlayerAnimator.ts:86-104 | Only the requested arm's group is played, once and not looping, and only if it was set up. No other group changes. |
| PlayerAnimator.CreateConsistent | src/engine/PlayerAnimator.ts:19-42 | A new animator over stopped groups is consistent. |
| PlayerAnimator.SetStatePreservesConsistent | src/engine/PlayerAnimator.ts:67-81 | `setState` keeps the animator consistent, so only the current group ever runs. |
| PlayerAnimator.StopPreservesConsistent | src/engine/PlayerAnimator.ts:107-111 | `stop` keeps the animator consistent. |
| PlayerAnimator.PlayAttackPreservesConsistent | src/engine/PlayerAnimator.ts:86-104 | Playing an attack keeps the animator consistent, since attack groups are not among the state groups. |
| PlayerAnimator.PlayAttackRunsOnlyWithAnimations | src/engine/PlayerAnimator.ts:86-104 | The played arm group runs exactly when it was running or has animations. A running one plays once, not looping. An empty clone that was stopped stays as it was. |
| PlayerAnimator.SetStateIdempotent | src/engine/PlayerAnimator.ts:68-69 | Setting the same known state twice equals setting it once. |
| Quads.Flatten | src/engine/GreedyMesher.ts:61 | Four corners flatten to twelve coordinates. |
| Quads.AddQuad | src/engine/GreedyMesher.ts:61-72 | One quad appends 12 position numbers, 12 normal numbers, 8 uv numbers and the 6 indices base + {0,1,2,0,2,3}, keeping earlier entries. |
| Quads.AddQuadWellFormed | src/engine/GreedyMesher.ts:63-71 | Appending a quad at base = vertex count keeps buffers well formed: face k uses indices 4k + {0,1,2,0,2,3}. |
| Quads.IndicesInRange | src/engine/GreedyMesher.ts:63-71 | In well-formed buffers every index is below the vertex count. |
| GreedyMesher.DirectionsInOrder | src/engine/GreedyMesher.ts:32-39 | The six directions are listed once each, in the code's order. |
| GreedyMesher.CreateFace | src/engine/GreedyMesher.ts:90-100 | A face has four corners. |
| GreedyMesher.EmitWellFormed | src/engine/GreedyMesher.ts:55-72 | Emitting faces in order gives well-formed buffers with one quad and 12 position numbers per face. |
| GreedyMesher.Mesh | src/engine/GreedyMesher.ts:21-88 | An empty grid is an error. Otherwise the faces emitted are exactly the pairs of a non-air voxel and a direction whose neighbour is outside the grid or air, in loop order. The buffers are those faces' quads, well formed. |
| GreedyMesher.IsolatedVoxelShowsSixFaces | src/engine/GreedyMesher.ts:41-54 | A non-air voxel with no solid neighbours shows all six faces. |
| GreedyMesher.HiddenVoxelShowsNothing | src/engine/GreedyMesher.ts:41-54 | A voxel enclosed on all six sides shows no face. |
| GreedyMesher.SharedFacesHidden | src/engine/GreedyMesher.ts:50-54 | An emitted face never borders a solid in-grid voxel. |
| GreedyMesher.FacesIgnoreDirection | src/engine/GreedyMesher.ts:90-99 | A face's corners do not depend on its direction: they always form the z + size/2 square. |
| GreedyMesher.CornersIgnoreDir | src/engine/GreedyMesher.ts:90-99 | Re-aiming a face at another direction keeps its corners, because `createFace` never reads the direction. |
| GreedyMesher.ScanOrderDistinct | src/engine/GreedyMesher.ts:41-77 | Faces in scan order are pairwise ordered, hence never repeated. |
| Clouds.SeedGrid | src/engine/Clouds.ts:53-55 | The seed grid is 64×64 and binary, with a live cell exactly where the draw is below 0.45. |
| Clouds.Live | src/engine/Clouds.ts:159-176 | A neighbour contributes 0 or 1. |
| Clouds.RowsCountAll | src/engine/Clouds.ts:159-176 | Summing the three neighbour rows gives the eight-neighbour count. |
| Clouds.CountAliveNeighbors | src/engine/Clouds.ts:159-176 | The count is the number of live in-grid neighbours, excluding the cell itself, so 0 to 8. |
| Clouds.NextCell | src/engine/Clouds.ts:62-67 | A live cell survives iff it has at least 4 neighbours; any other cell becomes live iff it has at least 5. |
| Clouds.Step | src/engine/Clouds.ts:57-72 | A smoothing step keeps the grid 64×64 and binary. |
| Clouds.Smooth | src/engine/Clouds.ts:57-72 | Three steps keep the grid 64×64 and binary. |
| Clouds.StepRow | src/engine/Clouds.ts:59-70 | One row of the loop computes that row of the step and leaves the other rows alone. |
| Clouds.SmoothStep | src/engine/Clouds.ts:58-71 | The nested loop computes exactly one synchronous step from the previous grid. |
| Clouds.Steps | src/engine/Clouds.ts:57-72 | Any number of steps keeps the grid shape. |
| Clouds.SmoothGrid | src/engine/Clouds.ts:57-72 | The three loop passes compute exactly three synchronous steps. |
| Clouds.StepIsLocal | src/engine/Clouds.ts:57-72 | A cell's next value depends only on itself and its eight neighbours. |
| Clouds.EmptyGridStaysEmpty | src/engine/Clouds.ts:62-67 | An empty sky stays empty. |
| Clouds.FullGridErodesCorners | src/engine/Clouds.ts:62-67 | A full grid loses its corners after one step, but keeps the rest of its edge. |
| Clouds.CellSides | src/engine/Clouds.ts:91-134 | A cell that is not 1 emits nothing. A live cell emits top and bottom, plus one side face exactly per absent or out-of-grid neighbour: 2 to 6 faces. |
| Clouds.OpenSides | src/engine/Clouds.ts:110-124 | A side face is added exactly when the neighbour on that side is not cloud, at most four, never top or bottom. |
| Clouds.SideCounts | src/engine/Clouds.ts:98-132 | An isolated cloud cell emits six faces, and a fully surrounded one emits two. |
| Clouds.SideCorners | src/engine/Clouds.ts:110-132 | Every face has four corners. |
| Clouds.SideCornersFaceOutward | src/engine/Clouds.ts:110-132 | Each side face lies on the cell's boundary plane in its normal's direction. |
| Clouds.AddSidesWellFormed | src/engine/Clouds.ts:80-87 | Adding a cell's faces with base = vertex count keeps buffers well formed, one quad per face. |
| Clouds.AddSides | src/engine/Clouds.ts:80-87 | Each face appends 12 position and 12 normal numbers, 8 uv numbers and 6 indices, and keeps what was already in the buffers. |
| Clouds.MeshCellsWellFormed | src/engine/Clouds.ts:91-134 | The cloud mesh is well formed, with as many quads as faces emitted. |
| Clouds.MeshCells | src/engine/Clouds.ts:91-134 | The cloud mesh holds 12 position numbers and 6 indices for every face the cells emit. |
| Clouds.EmptyGridEmptyMesh | src/engine/Clouds.ts:93 | A grid with no live cells yields empty buffers. |
| Clouds.Drift | src/engine/Clouds.ts:148-157 | x advances by the speed, and wraps to -range/2 once it would pass range/2. |
| Clouds.DriftStaysInRange | src/engine/Clouds.ts:151-154 | A position within the range stays within it. |
| Clouds.NewLayer | src/engine/Clouds.ts:38-140 | A new layer has a well-formed mesh starting at x = 0. |
| Clouds.GetInstance | src/engine/Clouds.ts:31-36 | An existing instance is returned unchanged; otherwise a new one is created and stored. |
| Clouds.Frame | src/engine/Clouds.ts:148-157 | A frame moves only the mesh's x, by one drift step. |
| Clouds.Dispose | src/engine/Clouds.ts:178-184 | Dispose clears both the singleton and the mesh. |
| Clouds.SingleInstance | src/engine/Clouds.ts:31-36 | Two `getInstance` calls return the same layer until a dispose; after it a fresh one is made. |
| Clouds.FramesStayInRange | src/engine/Clouds.ts:148-157 | Any number of frames keeps the cloud inside the range. |
| WorldGenerator.HeightInRange | src/engine/WorldGenerator.ts:51-53 | For noise in [-1,1] the height floor(((n+1)/2)·max) lies in [0, max]. |
| WorldGenerator.HeightFromNoise | src/engine/WorldGenerator.ts:51-53 | The column height is the floor of ((n+1)/2)·maxHeight: at most that value and more than it minus one. |
| WorldGenerator.BuildHeightMap | src/engine/WorldGenerator.ts:48-55 | The height map is width × depth, each entry the height from the noise at (x·0.1, z·0.1). |
| WorldGenerator.IsExposed | src/engine/WorldGenerator.ts:79-93 | A block is exposed iff a side neighbour is off the map or no taller than y, or the block is its column's top. |
| WorldGenerator.TopIsExposed | src/engine/WorldGenerator.ts:92 | The top block of every column is exposed. |
| WorldGenerator.EdgeColumnsExposed | src/engine/WorldGenerator.ts:80-88 | Every block of an edge column is exposed. |
| WorldGenerator.BuriedIsHidden | src/engine/WorldGenerator.ts:80-92 | A block below its column top, with all four neighbours taller, is hidden. |
| WorldGenerator.EnumerateExposed | src/engine/WorldGenerator.ts:58-73 | One instance and an identical outline are emitted for each exposed cell below its column height, exactly those, in loop order. Each is at ((x-w/2)·bs, y·bs, (z-d/2)·bs). |
| WorldGenerator.GenerateTerrain | src/engine/WorldGenerator.ts:17-77 | Terrain generation builds the height map from the noise and then enumerates exactly its exposed cells, in the x, z, y order of its loops. |
| UnusedWorldGenerator.IsSolid | src/UnusedScript/WorldGenerator.ts:59-63 | A column outside the map in x, or in z by the first row, is not solid. A solid cell lies below its column height, with no lower bound on y. |
| UnusedWorldGenerator.IsSolidInside | src/UnusedScript/WorldGenerator.ts:62 | Inside a rectangular map, solid means y < height. |
| UnusedWorldGenerator.ExposedIffSideNotSolid | src/UnusedScript/WorldGenerator.ts:65-79 | A block is exposed iff some side neighbour is not solid at its height, or it is the column top. |
| UnusedWorldGenerator.UpdateColliders | src/UnusedScript/WorldGenerator.ts:84-98 | All previous colliders are disposed. The new ones are exactly the block positions within distance 5 of the player. |
| UnusedWorldGenerator.NoBlocksNoColliders | src/UnusedScript/WorldGenerator.ts:18 | With no block positions recorded, no collider is active. |
| PhysicsGrid.NewManager | src/UnusedScript/PhysicsGridManager.ts:16-24 | A new manager holds no colliders and no last cell. |
| PhysicsGrid.KeysIdentifyCells | src/UnusedScript/PhysicsGridManager.ts:43 | Two cells have the same key string iff they are the same cell. |
| PhysicsGrid.ToCellCoord | src/UnusedScript/PhysicsGridManager.ts:81-87 | Each cell coordinate is the floor of p/blockSize: c·bs ≤ p < (c+1)·bs. |
| PhysicsGrid.FloorScaled | src/UnusedScript/PhysicsGridManager.ts:81-87 | The floor of v/b brackets v between consecutive multiples of b. |
| PhysicsGrid.Window | src/UnusedScript/PhysicsGridManager.ts:34-40 | The visited cells lie within the radius in x and z and at absolute heights 0 to height-1. |
| PhysicsGrid.Position | src/UnusedScript/PhysicsGridManager.ts:55-59 | A collider is placed at its cell times the block size, so for a positive block size the cell of that position is the cell itself. |
| PhysicsGrid.Update | src/UnusedScript/PhysicsGridManager.ts:27-79 | An unchanged player cell is a no-op. Otherwise the grid holds exactly the solid window cells; kept cells keep their collider, and new ones get one at (x·bs, y·bs, z·bs). Exactly the cells that left are released. |
| PhysicsGrid.Dispose | src/UnusedScript/PhysicsGridManager.ts:89-95 | Every collider is released and the grid is emptied. |
| PhysicsGrid.NewManagerConsistent | src/UnusedScript/PhysicsGridManager.ts:16-24 | A new manager is consistent. |
| PhysicsGrid.UpdatePreservesConsistent | src/UnusedScript/PhysicsGridManager.ts:45-67 | Updates keep every collider at its own cell's position, and a new collider is never an old one. |
| PhysicsGrid.DisposePreservesConsistent | src/UnusedScript/PhysicsGridManager.ts:89-95 | Dispose keeps the manager consistent. |
| PhysicsGrid.UpdateIdempotent | src/UnusedScript/PhysicsGridManager.ts:28-30 | A second update from the same cell changes nothing. |
| PhysicsGrid.FirstUpdateRebuilds | src/UnusedScript/PhysicsGridManager.ts:17-30 | The first update always runs and records the player's cell. |
| PhysicsGrid.DisposeThenSameCellStaysEmpty | src/UnusedScript/PhysicsGridManager.ts:89-95 | Dispose keeps the last cell, so an update from that cell afterwards leaves the grid empty. |
| Common.DistSq | src/engine/BlockPlacer.ts:152-156 | Squared distance is never negative. |
| Common.JsRem | src/engine/BlockPlacer.ts:208-210 | JavaScript's `%` takes the sign of the dividend and stays below the divisor in magnitude. |
| Common.Clamp | src/engine/CharacterController.ts:193 | The clamp lies within the bounds, returns values already inside unchanged, and returns the nearer bound otherwise. |
| Common.Lower | src/engine/PlayerAnimator.ts:68 | Lower-casing keeps the length and maps each character on its own. |
| Common.Filter | src/engine/PlayerAnimation.ts:38-40 | The result keeps exactly the elements that pass the test, in both directions of membership; the order is stated through `Common.FilterAppend` and `Common.FilterStep`, which build the result element by element from the left. |
| Common.FilterAppend | src/engine/PlayerAnimator.ts:54-59 | Filtering distributes over concatenation. |
| Common.FilterStep | src/engine/PlayerAnimator.ts:54-59 | One more loop step extends the kept sequence by the element exactly when the test keeps it. |

## Left out

- **Rendering.** All Babylon.js rendering is left out: meshes, materials, textures, outline line systems, instancing, skybox, lighting and applying vertex data. The model states which cells and faces are emitted and where, not the draw calls.
- **Picking and camera geometry.** Picking rays, camera directions, quaternion slerp, `atan2` facing, camera orbit trigonometry and the square root inside vector `normalize()` are floating-point geometry. They are inputs instead:
  - the hit point and its normal;
  - the standing block;
  - the camera position and forward vector;
  - the view yaw;
  - the length of the move vector, which `normalize()` divides by.
- **Async loading and event plumbing.** Left out:
  - async model and sword loading;
  - skeleton logging;
  - pointer lock;
  - keyboard and pointer observable registration;
  - the `document` listeners;
  - the left-click listener in the `PlayerAnimation` constructor;
  - the attack dispatch in `CharacterController`'s pointer-down handler (src/engine/CharacterController.ts:174-183).
- **Undefined members become inputs.** `getByNumericId`, `getNumericId`, `getActiveCamera`, `getStandingBlockInfo` and `getColliderMesh` are not defined in any modelled file:
  - the numeric-id catalogue is a `map<int, BlockDefinition>`;
  - the stone id is an `Option<int>`, absent when the lookup throws;
  - the standing block and the collider box are optional inputs.
- **Randomness.** Simplex noise and `Math.random` are inputs: a noise function and a grid of draws.
- **Floating point.** Coordinates and angles are exact reals; rounding is not modelled. π is the decimal constant of `Math.PI`.
- **Non-integer coordinates** passed to chunk and world reads are not modelled: every caller passes integers.
- **Chunk aliasing.** The world map holds chunk values, so one chunk object stored under two keys is not modelled. Placement writes the updated chunk back under its key, which is what the in-place write amounts to.
- **The `if (!world)` guard** in the placement handler is left out: the model always has a world.
- **Other files.** src/engine/Game.ts, src/components/GameCanvas.tsx, src/engine/PlayerController.ts and src/UnusedScript/BlockLibrary.ts are not part of this model. They hold scene setup, the UI, camera float maths and asset loading.
- **Draft view switching.** The draft controller's `toggleFirstPerson` and the engine controller's `updateCameraMode` are left out: they copy rotations and camera positions only.
- **The unused terrain generator's `generateTerrain`** is not modelled separately: it repeats the engine generator's height map and enumeration.
- **Physics keys.** The physics grid keys colliders by cell rather than by the string "x,y,z". `PhysicsGrid.KeysIdentifyCells` shows that the two keyings agree. Collider object identity is modelled as a generation stamp.
- **Console output** is not modelled.
- Common.Lower: lower-cases ASCII letters only, because `toLowerCase` depends on Unicode tables that are not modelled.
- PhysicsGrid.ToCellCoord: requires a positive block size, because a zero or negative size gives NaN or mirrored cells that no caller uses.
- PhysicsGrid.Update: requires a positive block size, for the same reason.
- GreedyMesher.Mesh: requires a cuboid voxel array, because with ragged rows the code reads `undefined` entries, which are not modelled.
- WorldGenerator.BuildHeightMap: takes width and depth as naturals, because a negative size gives an empty loop exactly as zero does.
- CharacterController.UpdateMovement: takes the move vector's length as an argument and does not check it, because the square root is floating point; MoveStepLength states the step under the true length.
- PlayerController.Tick: takes the horizontal move vector's length as an argument for the same reason; TickStepLength states the step under the true length.
- Common.DistSq: states only non-negativity, because the exact square root is avoided; the range test compares squares (`BlockPlacer.RangeBySquares`).
- PlayerAnimation.LayeredBones: the layered table is a plain object, so a lookup also finds inherited `Object.prototype` keys such as "toString"; the model's map holds only the configured names.
- PlayerAnimation.Init: the constructor throws when a group with any animation is named like an inherited key such as "toString", because it then calls `includes` on a function; the model treats such a group as unconfigured.
- PlayerAnimation.PlayLayered: `playLayeredAnimation("toString")` starts the group and then throws in the bone filter; the model leaves the animator unchanged, as for any unmapped name.
- PlayerAnimator.SetState: `setState("constructor")` stops the current group and then throws, because the inherited value is not a group; the model treats the key as unknown.
- Animations.Group.Play: a running group is treated as ready to restart; the per-animatable state Babylon checks is not modelled.
