# Desk ID-check game, modelled in Dafny

The game is a Unity desk minigame. A robot walks in and a machine ejects
its ID card. The player inspects the card and presses a green (accept) or
red (reject) button. A round sequencer scores the decision and plays a
success or failure timeline.

This project models the game's discrete logic as pure functions over
immutable records:

- **The round sequencer** (`GameLoop`).
  - Four phases.
  - Phase guards on the decisions and on the three "timeline stopped" callbacks.
  - The correct/mistake tally.
  - Every collaborator call (audio, timelines, root visibility, score text, card physics) recorded as an `Effect`.
- **Three object-manipulation controllers**, each a step function from state, per-frame input and a raycast oracle to the new state:
  - `DeskInteractor`: Rigidbody snapshot and restore, decision buttons, inspect zoom.
  - `InteractionController`: an explicit Idle/Held/Inspect machine over `Holdable` objects.
  - `InteractorSimple`: no physics, Euler-angle inspect.
- **The small components:**
  - `Holdable`
  - `DeskButtons`: the press animation, with the coroutine split into Press and Release events.
  - `IdCard`: the ID-card generator, with every random draw a parameter.
  - `CursorManager`: texture fallback chains and the singleton guard.
  - `RobotFace`: the face randomiser.
  - `StaticLook` and `StaticLookCamera`: the two look scripts.
  - `HandMouse`: the hand that follows the mouse.
- **`Desk`**, which composes one interactor frame, the clicked button's animation and the sequencer.

Engine queries are inputs:

- raycast hits (`MaskedHit`, `RayHit`);
- the desk-plane intersection;
- the camera pose;
- the engine's Euler reading of a rotation;
- `Random.Range` / `Random.value` results. These are constrained by `RangeDraw` (minimum inclusive, maximum exclusive; the minimum when the range is empty) and `UnitDraw`.

The Unity operations are modelled with their library semantics:

- `Mathf.Clamp` tests the lower bound first, so it also behaves that way when the bounds cross.
- `Vector3.Lerp` clamps its factor to [0, 1].

Where the code dereferences an unassigned reference without a check (the sequencer's audio controller), the call is modelled as aborting at that point. State changes made before the throw are kept.

Two behaviours of the code worth stating plainly:

- **Decision routing.** Reject always plays the failure timeline and Accept always plays the success timeline, whatever the card's validity. Rejecting an invalid card is scored as correct and still plays the failure timeline (`Desk.RejectingAnInvalidCard`).
- **Inspect distance.** The inspect distance is clamped only when inspect mode is entered; there is no scroll-wheel zoom.

## Model

| member | source | states |
|---|---|---|
| GameLoop.Tally | Assets/Scripts/DeskGameLoopController.cs:94-95 | exactly one counter rises by one: correct exactly when the decision matches the card's validity (the truth table `IsCorrect`), otherwise mistakes; phase and validity unchanged |
| GameLoop.Start | Assets/Scripts/DeskGameLoopController.cs:64-69 | the score is shown as 0/0 first; counters start at zero with validity true; the first phase is PlayingEnter exactly when the audio and enter director are assigned, otherwise AwaitingDecision |
| GameLoop.StartRound | Assets/Scripts/DeskGameLoopController.cs:71-86 | counters and validity are untouched; the round reaches PlayingEnter exactly when audio and the enter director exist and the enter timeline is played exactly then; otherwise it stays parked at AwaitingDecision; a missing audio reference aborts |
| GameLoop.StopAllDirectors | Assets/Scripts/DeskGameLoopController.cs:185-190 | delivering every stopped callback while parked at AwaitingDecision changes nothing and calls nothing |
| GameLoop.OnEnterStopped | Assets/Scripts/DeskGameLoopController.cs:133-143 | acts only in PlayingEnter, then moves to AwaitingDecision unless ejecting aborts (phase stays PlayingEnter); never changes the counters |
| GameLoop.OnSuccessStopped | Assets/Scripts/DeskGameLoopController.cs:145-149 | acts only in PlayingSuccess and then restarts the round (PlayingEnter or parked); counters unchanged |
| GameLoop.OnFailStopped | Assets/Scripts/DeskGameLoopController.cs:151-155 | acts only in PlayingFail and then restarts the round; counters unchanged |
| GameLoop.SpawnAndEjectId | Assets/Scripts/DeskGameLoopController.cs:157-182 | without prefab or mouth point nothing changes; otherwise validity becomes the card's stored flag, or true without a result component; the card is ejected exactly when it has a body and audio exists, and a missing audio reference aborts |
| GameLoop.OnDecision | Assets/Scripts/DeskGameLoopController.cs:88-130 | nothing happens outside AwaitingDecision; otherwise the tally is applied and Accept goes to PlayingSuccess when its director exists, Reject to PlayingFail when its director and audio exist, else the phase stays AwaitingDecision; only Reject without audio aborts |
| GameLoop.Handle | Assets/Scripts/DeskGameLoopController.cs:88-155 | for any event, counters never decrease and their sum grows by at most one |
| GameLoop.DecisionTallyTruthTable | Assets/Scripts/DeskGameLoopController.cs:94-95 | the four truth-table cases of Accept/Reject against valid/invalid, and that exactly one counter rises by exactly one (also lines 115-116 and 199-209) |
| GameLoop.SecondDecisionIgnored | Assets/Scripts/DeskGameLoopController.cs:100-107 | once a decision has reached its resolution timeline, a second decision changes nothing (the same holds for Reject at lines 122-129) |
| GameLoop.MissingDirectorAdmitsSecondDecision | Assets/Scripts/DeskGameLoopController.cs:103 | with the resolution director unassigned the phase stays AwaitingDecision and a second decision is scored again (also line 125) |
| GameLoop.RoutingIgnoresValidity | Assets/Scripts/DeskGameLoopController.cs:100-107 | the phase after a decision is the same for a valid and an invalid card (routing by button, also lines 122-129) |
| GameLoop.ResolutionEnteredOnlyByItsButton | Assets/Scripts/DeskGameLoopController.cs:107 | PlayingSuccess is entered only by Accept and PlayingFail only by Reject (also line 129) |
| GameLoop.StopCallbacksIgnoredWhileParked | Assets/Scripts/DeskGameLoopController.cs:74-79 | every timeline callback is a no-op at AwaitingDecision, the phase held during every director stop (also lines 98-101 and 120-123) |
| GameLoop.CallbacksMatchTheirPhase | Assets/Scripts/DeskGameLoopController.cs:133-155 | each callback changes state only in its own phase, and leads to AwaitingDecision (enter) or a fresh PlayingEnter (success/fail) when the references exist |
| GameLoop.CountersNeverDecrease | Assets/Scripts/DeskGameLoopController.cs:199-209 | over any event sequence neither counter decreases and their sum grows by at most the number of events |
| DeskInteractor.Start | Assets/Scripts/DeskInteractor.cs:44-48 | nothing hovered, held or inspected; desk height from the desk-top transform, 0 without one |
| DeskInteractor.DecisionOf | Assets/Scripts/DeskInteractor.cs:239-242 | Green maps to Accept and Red to Reject |
| DeskInteractor.UpdateHover | Assets/Scripts/DeskInteractor.cs:90-104 | hover becomes the masked hit's Interactable (requesting the hover cursor) or nothing on a miss (default cursor); nothing else changes |
| DeskInteractor.Grab | Assets/Scripts/DeskInteractor.cs:107-130 | the item becomes held with hover cleared and its rotation reset to the default; with a body, gravity and constraints are snapshotted and the body is suspended (no gravity, not kinematic, rotation frozen, zero velocities); other bodies are untouched |
| DeskInteractor.Drop | Assets/Scripts/DeskInteractor.cs:132-147 | held, body reference and inspecting are cleared; the body gets the snapshotted gravity and constraints back and is non-kinematic; nothing else changes |
| DeskInteractor.UpdateHoldOnDesk | Assets/Scripts/DeskInteractor.cs:150-165 | the hold target exists exactly on a desk-plane hit and then sits at the hit's x/z and height deskY + floatHeight; a miss keeps the old target point |
| DeskInteractor.EnterInspect | Assets/Scripts/DeskInteractor.cs:168-179 | the zoom bounds are minZoomK and maxZoomK times the size floored at 0.0001, and the distance lies between them whenever minZoomK ≤ maxZoomK; the inspect rotation starts from the item's rotation |
| DeskInteractor.UpdateInspect | Assets/Scripts/DeskInteractor.cs:207-209 | only the item's position changes, and it reaches the point inspectDistance in front of the camera when dt·followSpeed ≥ 1 |
| DeskInteractor.Step | Assets/Scripts/DeskInteractor.cs:50-87 | the frame keeps the interactor's invariant and the item and body sets; a decision is forwarded only together with a pressed button and an assigned loop |
| DeskInteractor.FixedStep | Assets/Scripts/DeskInteractor.cs:213-222 | nothing moves without a body, while inspecting or without a hold target; otherwise only the held body's position (between its old height and the target's) and spin change |
| DeskInteractor.RunTicks | Assets/Scripts/DeskInteractor.cs:50-222 | any sequence of Update and FixedUpdate ticks keeps the invariant and the item and body sets |
| DeskInteractor.ButtonsBeforeGrab | Assets/Scripts/DeskInteractor.cs:58-66 | with nothing held, a click whose ray hits a button grabs nothing and leaves the world alone, even with an item hovered; it presses that button and forwards Green as Accept, Red as Reject (also lines 225-246) |
| DeskInteractor.GrabOnlyWhenHovered | Assets/Scripts/DeskInteractor.cs:64-68 | an idle frame ends holding an item exactly on a click off the buttons with a masked hit on an Interactable; the held item is that one and inspect is off |
| DeskInteractor.GrabSuspends | Assets/Scripts/DeskInteractor.cs:116-127 | right after a grab with a body, the body is suspended and the snapshot holds its pre-grab gravity and constraints |
| DeskInteractor.HeldTick | Assets/Scripts/DeskInteractor.cs:72-86 | a tick of a hold either keeps the suspension and snapshot or drops and restores the body from the snapshot |
| DeskInteractor.HoldSurvivesTicks | Assets/Scripts/DeskInteractor.cs:72-86 | any number of held ticks, inspect toggles included, keep the suspension and snapshot |
| DeskInteractor.GrabHoldDropRestores | Assets/Scripts/DeskInteractor.cs:135-141 | grab, any held ticks, then a drop restore exactly the pre-grab gravity and constraints, and the body ends non-kinematic whatever it was before (snapshot at lines 118-119) |
| DeskInteractor.InspectToggleAndDrop | Assets/Scripts/DeskInteractor.cs:72-86 | while held, R flips inspecting; a left click drops exactly when the frame is not inspecting, and a drop clears held, body and inspecting |
| DeskInteractor.ExitInspectRestoresRotation | Assets/Scripts/DeskInteractor.cs:181-185 | leaving inspect puts the item back at its default rotation |
| DeskInteractor.HoldTargetHeight | Assets/Scripts/DeskInteractor.cs:155-164 | after a held, non-inspecting frame the hold target exists exactly on a desk-plane hit and sits at deskY + floatHeight |
| InteractionController.Start | Assets/Scripts/HandAndCamera/DeskInteractionController.cs:26 | the controller starts Idle with nothing hovered or held |
| InteractionController.Spin | Assets/Scripts/HandAndCamera/DeskInteractionController.cs:123-128 | spin is −1, 0 or 1: −1 exactly for Q alone, +1 exactly for E alone, 0 without a keyboard |
| InteractionController.ChangeHover | Assets/Scripts/HandAndCamera/DeskInteractionController.cs:68-73 | when the hit object differs from the hovered one, the old one gets HoverExit and the new one HoverEnter; all other objects are untouched |
| InteractionController.BeginHold | Assets/Scripts/HandAndCamera/DeskInteractionController.cs:106-117 | the mode becomes Held with yaw and pitch 0, the base rotation is the object's current rotation, the desk position its x/z at desk height, and the object gets BeginHold |
| InteractionController.HeldUpdate | Assets/Scripts/HandAndCamera/DeskInteractionController.cs:120-172 | the Held handler keeps the controller invariant, the object set and the hover |
| InteractionController.InspectUpdate | Assets/Scripts/HandAndCamera/DeskInteractionController.cs:174-223 | the Inspect handler keeps the held object and never reaches Idle |
| InteractionController.Step | Assets/Scripts/HandAndCamera/DeskInteractionController.cs:55-103 | a frame keeps the invariant (an object is held exactly outside Idle and is marked held), the object set and the desk height |
| InteractionController.HoverOnlyInIdle | Assets/Scripts/HandAndCamera/DeskInteractionController.cs:62 | outside Idle, neither the hover nor any object's colour changes |
| InteractionController.BeginHoldNeedsClickOnHoldable | Assets/Scripts/HandAndCamera/DeskInteractionController.cs:75-78 | Idle becomes Held exactly on a left press with a Holdable hit, never Inspect; the hold starts with zero yaw and pitch from the current rotation, and the object is held and kinematic |
| InteractionController.HeldToInspect | Assets/Scripts/HandAndCamera/DeskInteractionController.cs:130-135 | R in Held goes to Inspect seeding the inspect rotation, and returns before yaw or drop are applied |
| InteractionController.InspectToHeld | Assets/Scripts/HandAndCamera/DeskInteractionController.cs:179-186 | R in Inspect goes to Held with yaw 0 and the current rotation as the new base |
| InteractionController.DropOnlyFromHeld | Assets/Scripts/HandAndCamera/DeskInteractionController.cs:147-152 | Idle is reached exactly from Held by the right button without R, dropping the object with physics; Inspect never reaches Idle in one frame |
| InteractionController.HeldFollowsDesk | Assets/Scripts/HandAndCamera/DeskInteractionController.cs:144-166 | a Held frame turns by spin·rate·dt, keeps the desk position when the plane is missed, and moves the object toward height deskY + deskFloatHeight |
| InteractionController.HoverHandOver | Assets/Scripts/HandAndCamera/DeskInteractionController.cs:65-85 | in Idle the hover follows the hit; a newly hovered object is tinted only if not held; losing the hit exits and clears the old hover |
| InteractionController.GravityAndConstraintsUntouched | Assets/Scripts/HandAndCamera/DeskInteractionController.cs:106-152 | no frame changes any body's gravity or constraints |
| InteractorSimple.Rotate | Assets/Scripts/DeskInteractorSimple.cs:123-136 | A lowers and D raises y, W lowers and S raises x, each by rate·dt; z never changes; nothing without a keyboard |
| InteractorSimple.HoverOrGrab | Assets/Scripts/DeskInteractorSimple.cs:66-79 | hover is the item found; the item is held exactly on a left press with an item found |
| InteractorSimple.Step | Assets/Scripts/DeskInteractorSimple.cs:29-140 | a frame keeps the invariant and the item set; a decision is forwarded only on a left press with an assigned loop |
| InteractorSimple.ButtonHitBlocksGrab | Assets/Scripts/DeskInteractorSimple.cs:47-63 | a ray on a button clears hover and ends the frame with nothing grabbed; a left press forwards Green as Accept, otherwise Reject |
| InteractorSimple.GrabNeedsHover | Assets/Scripts/DeskInteractorSimple.cs:70-79 | a grab happens exactly on a left press with an item and no button under the ray; it starts outside inspect at the default rotation |
| InteractorSimple.ToggleAndDrop | Assets/Scripts/DeskInteractorSimple.cs:87-102 | R flips inspecting; entering seeds the angles, leaving resets the default rotation; left click drops only outside inspect and touches nothing but held |
| InteractorSimple.InspectIgnoresPointer | Assets/Scripts/DeskInteractorSimple.cs:119-120 | in inspect mode the frame does not depend on where the pointer's ray lands; the item sits inspectDistance in front of the camera |
| InteractorSimple.HeldFollowsHit | Assets/Scripts/DeskInteractorSimple.cs:110-114 | outside inspect a held item sits floatHeight above the ray hit |
| Holdable.Awake | Assets/Scripts/HandAndCamera/Holdable.cs:20-38 | the body is the existing one or a fresh default one; the layer is cached; a colour is cached exactly when there is a renderer whose material has one; not held |
| Holdable.HoverEnter | Assets/Scripts/HandAndCamera/Holdable.cs:40-47 | only the colour can change, and only for an unheld object with renderer and colour, to the hover colour |
| Holdable.HoverExit | Assets/Scripts/HandAndCamera/Holdable.cs:49-55 | only the colour can change, back to the cached original, and only with renderer and colour |
| Holdable.BeginHold | Assets/Scripts/HandAndCamera/Holdable.cs:57-71 | held, zero velocities, kinematic; gravity, constraints, position and everything else untouched |
| Holdable.DropWithPhysics | Assets/Scripts/HandAndCamera/Holdable.cs:73-84 | not held, body non-kinematic, layer back to the one cached at Awake; nothing else changes |
| Holdable.HoverExitIdempotent | Assets/Scripts/HandAndCamera/Holdable.cs:49-55 | a second HoverExit changes nothing |
| Holdable.HoverRoundTrip | Assets/Scripts/HandAndCamera/Holdable.cs:40-55 | hovering in and out of an untinted object gives the object back |
| Holdable.HoldThenDrop | Assets/Scripts/HandAndCamera/Holdable.cs:57-84 | hold then drop: not held, non-kinematic whatever it was before, gravity and constraints kept, velocities zero, layer restored |
| Holdable.CallsKeepCaches | Assets/Scripts/HandAndCamera/Holdable.cs:30-37 | over any call sequence the cached layer and colour never change and the colour stays original or hover |
| Holdable.AwakeIsTinted | Assets/Scripts/HandAndCamera/Holdable.cs:33-37 | after Awake the shown colour is the cached original |
| DeskButtons.Awake | Assets/Scripts/DeskButtons.cs:18-21 | the rest position is the position at Awake; the type is the serialized one; not pressed |
| DeskButtons.PressVisual | Assets/Scripts/DeskButtons.cs:23-33 | a no-op while pressed; otherwise pressed and at start − up·pressDepth; type, depth and rest position kept |
| DeskButtons.Release | Assets/Scripts/DeskButtons.cs:36-37 | after the wait the button is back exactly at its rest position and not pressed |
| DeskButtons.NoDrift | Assets/Scripts/DeskButtons.cs:20-37 | over any presses and releases the button is always exactly at rest or pressed, and its rest position never moves |
| DeskButtons.PressesDoNotStack | Assets/Scripts/DeskButtons.cs:25 | any burst of presses acts like one press |
| DeskButtons.PressesStayPut | Assets/Scripts/DeskButtons.cs:25 | presses on a pressed button change nothing |
| DeskButtons.AwakeAtRest | Assets/Scripts/DeskButtons.cs:18-21 | a button starts at its rest position |
| IdCard.GenerateSerial | Assets/Scripts/IDCardGenerator.cs:127-136 | the serial is the prefix, a dash, four digits, a dash and two capital letters: length of the prefix + 8 |
| IdCard.SerialRoundTrip | Assets/Scripts/IDCardGenerator.cs:131-135 | reading a serial back gives its prefix, its number (0..9999) and its two letters |
| IdCard.Pad4RoundTrip | Assets/Scripts/IDCardGenerator.cs:135 | the zero-padded four digits spell the drawn number |
| IdCard.FirstDifferent | Assets/Scripts/IDCardGenerator.cs:107-112 | the first drawn prefix that differs from the model's, with every earlier draw equal to it; none exactly when every draw equals it |
| IdCard.PickWrongPrefix | Assets/Scripts/IDCardGenerator.cs:107-112 | the while loop returns a prefix different from the model's, drawn last with all earlier draws equal, or runs out exactly when every draw equals the model's prefix; it agrees with FirstDifferent |
| IdCard.MismatchLoopNeverEnds | Assets/Scripts/IDCardGenerator.cs:109-112 | if every listed prefix equals the model's, no stream of draws ends the loop |
| IdCard.GenerateId | Assets/Scripts/IDCardGenerator.cs:60-125 | an index is out of range exactly for an empty list or fewer prefixes than the model index; a card has isValid = not (expired or mismatch), the drawn name, occupation and model, and each fault exactly when its roll is below 0.15 |
| IdCard.ValidityOnlyFromFaults | Assets/Scripts/IDCardGenerator.cs:117-119 | two cards with the same fault rolls have the same validity; a card is valid exactly when both rolls are at least 0.15 |
| IdCard.SerialMatchesModelUnlessMismatch | Assets/Scripts/IDCardGenerator.cs:75-115 | the serial parses; its prefix is the model's paired prefix exactly when there is no mismatch fault |
| IdCard.DateRanges | Assets/Scripts/IDCardGenerator.cs:82-99 | expired: expiry 1..365 days ago and issued 30..1094 days before it; otherwise issued 1..1824 days ago and valid for 365..1824 days |
| IdCard.ValidCardCanBePastExpiry | Assets/Scripts/IDCardGenerator.cs:82-87 | a card whose expiry date is already past can still be valid |
| IdCard.DefaultListsInBounds | Assets/Scripts/IDCardGenerator.cs:18-40 | with the default lists no index is out of range, and the mismatch loop only runs on while it keeps drawing the model's own index |
| CursorManager.FirstAssigned | Assets/Scripts/HandAndCamera/CursorManager.cs:37-48 | the first assigned texture of a fallback chain, none exactly when none is assigned |
| CursorManager.Apply | Assets/Scripts/HandAndCamera/CursorManager.cs:50-54 | an unassigned texture leaves the cursor as it was; otherwise it shows the texture with the given hotspot |
| CursorManager.Request | Assets/Scripts/HandAndCamera/CursorManager.cs:35-48 | whenever a request changes the cursor, the hotspot is the requested state's own |
| CursorManager.RequestFollowsChain | Assets/Scripts/HandAndCamera/CursorManager.cs:35-48 | every request shows the first assigned texture of its chain (default; hover, default; hold, hover, default; inspect, hold, default); grab equals hold; inspect skips hover |
| CursorManager.NothingAssignedNothingChanges | Assets/Scripts/HandAndCamera/CursorManager.cs:52 | with no texture assigned no request changes the cursor |
| CursorManager.Awake | Assets/Scripts/HandAndCamera/CursorManager.cs:19-33 | a manager destroys itself exactly when the slot holds a different, still-living instance, and then changes nothing; otherwise it registers, frees and shows the cursor and applies the default; a destroyed instance counts as null, as the engine's `!= null` reads it |
| CursorManager.FirstInstanceStays | Assets/Scripts/HandAndCamera/CursorManager.cs:21-26 | while the registered instance lives, no later Awake replaces it |
| CursorManager.ReplacedAfterSceneUnload | Assets/Scripts/HandAndCamera/CursorManager.cs:17-26 | the manager is not kept across scene loads, so once the registered one is destroyed the next Awake takes the slot instead of destroying itself |
| RobotFace.FaceCount | Assets/Scripts/RobotFaceRandomiser.cs:31-34 | 0 exactly for a null or empty face array, otherwise its length |
| RobotFace.SetFaceIndex | Assets/Scripts/RobotFaceRandomiser.cs:36-49 | a no-op without renderer or faces; otherwise both texture slots get the same face: the indexed one in range, the first below and the last above |
| RobotFace.RandomiseFace | Assets/Scripts/RobotFaceRandomiser.cs:13-29 | a no-op without renderer or faces; otherwise both slots show the drawn face |
| RobotFace.RandomIsSetIndex | Assets/Scripts/RobotFaceRandomiser.cs:18-47 | a random pick equals setting that index: the draw never needs the clamp |
| RobotFace.SetFaceIndexIdempotent | Assets/Scripts/RobotFaceRandomiser.cs:36-49 | asking twice for an index is the same as asking once |
| RobotFace.EveryIndexShowsAListedFace | Assets/Scripts/RobotFaceRandomiser.cs:41-47 | any index, however far out of range, shows a face from the list |
| StaticLook.Normalize | Assets/Scripts/StaticLook.cs:52-57 | the result lies in [−180, 180], differs from the input by whole turns, and is the input itself when that is already in range |
| StaticLook.NormalizeAngle | Assets/Scripts/StaticLook.cs:52-57 | the two while loops end in [−180, 180], shift by whole turns, keep in-range angles, and agree with Normalize |
| StaticLook.NormalizeIdempotent | Assets/Scripts/StaticLook.cs:52-57 | normalizing twice is normalizing once |
| StaticLook.Start | Assets/Scripts/StaticLook.cs:19-31 | the start yaw and pitch are the normalized Euler angles (equal to `Normalize`, so in [-180, 180] and a whole number of turns from the reading), the current ones start there, and the cursor is unlocked and visible |
| StaticLook.Update | Assets/Scripts/StaticLook.cs:33-50 | nothing changes without a mouse or the right button; otherwise yaw stays within yawLimit of the start and pitch within [start + minPitch, start + maxPitch] whenever the limits are well formed, and the rotation is (pitch, yaw, 0) |
| StaticLook.UnclampedMove | Assets/Scripts/StaticLook.cs:43-44 | within the limits yaw moves by dx·sensitivity and pitch by −dy·sensitivity |
| StaticLook.StaysInLimits | Assets/Scripts/StaticLook.cs:46-47 | from inside the limits, no input sequence leaves them |
| StaticLook.StartWithinDefaults | Assets/Scripts/StaticLook.cs:9-11 | the default limits contain the starting view |
| StaticLookCamera.NormalizeOnce | Assets/Scripts/StaticLookCamera.cs:52-56 | one turn is subtracted above 180 and nothing else changes; inputs in [0, 360) land in (−180, 180] |
| StaticLookCamera.OnceAgreesOnEulerRange | Assets/Scripts/StaticLookCamera.cs:52-56 | on [0, 360) the single subtraction equals the full two-loop normalization |
| StaticLookCamera.OnceLeavesLowAnglesAlone | Assets/Scripts/StaticLookCamera.cs:54 | an angle below −180 is returned unchanged (−200 stays −200 where the full normalization gives 160) |
| StaticLookCamera.Start | Assets/Scripts/StaticLookCamera.cs:19-29 | the cursor is locked and hidden; the yaw centre and the pitch are the Euler angles folded once |
| StaticLookCamera.Update | Assets/Scripts/StaticLookCamera.cs:31-49 | nothing changes without a mouse or the right button; otherwise pitch lies in the absolute [minPitch, maxPitch] and yaw within yawLimit of the centre, whenever the limits are well formed |
| StaticLookCamera.PitchIgnoresStart | Assets/Scripts/StaticLookCamera.cs:45 | the new pitch does not depend on where the camera started |
| StaticLookCamera.FirstFrameSnapsPitch | Assets/Scripts/StaticLookCamera.cs:45 | a start pitch of 45 is pulled to 30 by the first right-button frame, even without mouse motion |
| StaticLookCamera.UnclampedMove | Assets/Scripts/StaticLookCamera.cs:42-43 | within the limits yaw moves by dx·sensitivity and pitch by −dy·sensitivity |
| StaticLookCamera.StaysInLimits | Assets/Scripts/StaticLookCamera.cs:45-46 | from inside the limits, no input sequence leaves them |
| HandMouse.Start | Assets/Scripts/HandMouseControl.cs:17-20 | the target starts at the hand's position |
| HandMouse.ClampBox | Assets/Scripts/HandMouseControl.cs:37-39 | with a well-formed box the result is inside it, and a point already inside is unchanged |
| HandMouse.Update | Assets/Scripts/HandMouseControl.cs:22-42 | nothing changes without a mouse or while the right button blocks; otherwise the target is in the box, equals the moved target when that is inside, and the hand lands componentwise between its old position and the target |
| HandMouse.DepthIgnoresMouse | Assets/Scripts/HandMouseControl.cs:33-34 | the target's depth is the same for every mouse delta |
| HandMouse.AlphaExtremes | Assets/Scripts/HandMouseControl.cs:41 | a full-strength smoothing factor puts the hand on the target, a zero one leaves it where it was |
| HandMouse.StaysInBox | Assets/Scripts/HandMouseControl.cs:37-41 | a hand that starts in its box keeps target and position in the box over any input sequence |
| Desk.Frame | Assets/Scripts/DeskInteractor.cs:225-246 | one frame of the desk keeps the interactor invariant and the button set, and scores at most one decision |
| Desk.DoubleClickGuardedOnlyByPhase | Assets/Scripts/DeskInteractor.cs:238-244 | two clicks on a button before its animation ends: the second does not re-animate but forwards the decision again; the tally is protected only by the sequencer's phase guard, and without the resolution director the round is scored twice |
| Desk.RejectingAnInvalidCard | Assets/Scripts/DeskGameLoopController.cs:111-130 | with everything assigned, an invalid card rejected scores correct 1, mistakes 0, plays the fail timeline, and the fail callback starts a new entrance |

## Left out

- Raycasts, the pointer-to-ray mapping and ray–plane intersection: these are engine queries, supplied per frame as oracle inputs.
- Quaternion composition and Slerp: `Quaternion.Euler`, `AngleAxis`, the inspect rotation products and every rotation smoothing step are floating-point geometry. Rotations are opaque `Orientation` values, copied but never composed.
- Floating point: every quantity is an exact real. Rounding is not modelled, including the single-precision value of the 0.15 fault threshold.
- Rigidbody simulation: `MovePosition`, `WakeUp` and the ejection impulses and torque are not modelled. Only the flags (gravity, kinematic, constraints), the velocities that are zeroed and the target position are kept; ejection is the `EjectImpulse` effect.
- Timeline playback, root visibility, audio and score text are recorded as effects in call order, not performed.
- Coroutine timing of the button press: the wait is the `ReleaseTimer` event.
- `IDCardGenerator.FormatDate`: culture-dependent date formatting. Dates are day offsets from the in-game today.
- The TMP text assignments in `GenerateID`: an unassigned text field would throw partway through. The model assumes all six are assigned.
- `IDCardGenerator.SetFaceIndex`: it stores an index that nothing reads.
- `IDCardResult` storage: the generator's validity reaches the sequencer through the `SpawnedCard` the enter callback receives.
- `Interactable.GetApproxSize` and `GetBoundsCenter`: they read renderer bounds, so the size is a field of the item. `Interactable.DefaultRotation` is likewise an abstract field of the item.
- The held-item smoothing in `DeskInteractor.UpdateInspect` and `FixedUpdate` and in `DeskInteractionController` is `Vector3.Lerp` with a per-frame factor. It is modelled, but the factor's frame-rate dependence is not.
- HandMouse.Update: the smoothing factor 1 − exp(−smooth·dt) is an abstract input, because the exponential is not modelled. Lerp's clamping keeps any value meaningful.
- DeskInteractionController's `_resumeFollowTime` is stored but never read, and `inspectRotSmooth` only feeds Slerp.
- BasicLookCamera, ScrollTexture, AudioController and PS1RenderSetup: thin wrappers over engine transform, input, rendering and audio.
- Input System devices are a per-frame record of button edges, held keys and the mouse delta.
- `OnEnable`/`OnDisable` subscription: a callback is delivered only for an assigned director, which is what subscribing exactly the assigned directors achieves.
- An unassigned camera in `DeskInteractorSimple` would throw before any state changes. It is modelled as a frame that changes nothing. An unassigned loop there throws after the button's animation starts, so no decision is forwarded.
- IdCard.PickWrongPrefix: a random stream is infinite but the draws here are a finite sequence, so "the loop has not ended yet" stands for the source's possible non-termination.
