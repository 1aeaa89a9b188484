# Expo hall navigation core, modelled in Dafny

This project models the few pieces of real logic in a browser-based 3D
exhibition hall:

- the **elevator** state machine (`idle` / `door_action` / `moving`) over
  the shared record `{y, status, doorOpenness, currentFloor, targetFloor,
  playerInside}` plus the lit `activeButton`, advanced once per frame with
  the frame time clamped to 0.1 s, together with the floor request
  `callFloor` and the floor label of the cabin displays;
- the **hover resolver** that walks the centre-ray hits, nearest first, and
  each hit's chain of parents, to find the booth descriptor of the innermost
  tagged object, the guard that rewrites the hover state only on change, and
  the window click handler that selects the hovered booth;
- the **keyboard flags** (W/A/S/D and arrow keys), the per-axis direction,
  and the pointer-locked frame update (damping, acceleration, eye height
  pinned at 1.7);
- the **session** of the hall page: whether the visitor has entered, which
  booth's popup is open, and when the movement controls are mounted; a
  click runs the clicked element's own handler and then, because the click
  bubbles to the window, the resolver's window handler.

Heights, door fractions and times are Dafny `real`; the state is held in
immutable datatypes and every transition is a pure function.

Modules, one per source file: `ExpoContext` (record, floor table, initial
value), `Elevator` (tick, request, label), `Booth` (descriptor and the
booth group's tag), `InteractionManager`, `PlayerControls`,
`ExpoHallScene`. `ElevatorTrips` holds the multi-frame lemmas about
`Elevator` (runs over many frames, complete trips, the arrival finding);
`Optional` holds the `Option` type that stands for `null`,
and `Versions` the choice between the code as written and its correction
where a finding applies.

What the code does, and therefore what the model does:

- the movement frame time is not clamped (`DampingWithoutClamp`,
  `LagSpikeExceedsTerminal` show what a long frame does), and damping is
  the linear step `v - 10·v·delta`, not an exponential decay;
- the resolver always casts through the screen centre;
- every click reaches the window handler, which selects the hovered booth
  whenever there is one, with no press-duration or drag test; this also
  happens on the popup's close button (see Findings);
- there is no obstacle collision, hall boundary, run key, focus-loss reset,
  field-of-view zoom, or support-height logic, and nothing writes
  `playerInside`;
- a requested trip does not always complete (see Findings).

## Model

| member | source | states |
|---|---|---|
| ExpoContext.FloorHeightsIncreasing | components/expo/ExpoContext.tsx:20 | the floor table has exactly two heights, strictly increasing |
| ExpoContext.InitialElevatorAtGround | components/expo/ExpoContext.tsx:23-30 | the initial record is idle at the ground floor with doors open, current and target floor 0, player outside |
| Elevator.StepTime | components/expo/Elevator.tsx:21 | the step time never exceeds 0.1 and equals the frame time unless that is longer |
| Elevator.Tick | components/expo/Elevator.tsx:19-80 | per frame y moves by at most 0.25 and the door by at most 0.2; the door stays in [0,1]; the invariants (door in [0,1], valid floors, moving ⇒ doors shut, idle ⇒ level with the current floor and doors fully open, door sequences at a landing, cabin within 0.2 of the floor range) are kept; idle with a pending request only switches to door_action; in door_action the doors only close (and the cabin never goes idle) away from the target height, and only open (and the cabin never starts moving) at it; moving is entered only from shut doors and never moves the doors; within 0.05 the cabin snaps to the target and starts the door sequence, otherwise it steps 2.5·dt toward it; the floor is committed and the button cleared only at the target height with doors fully open |
| Elevator.Toward | components/expo/Elevator.tsx:71-78 | a step of the given length goes up when the target is above, down when it is below, and nowhere when level |
| Elevator.IdleStep | components/expo/Elevator.tsx:31-41 | idle with a pending request switches to the door sequence and changes nothing else; with none it stays idle and opens the doors by 2·dt, capped at fully open, never closing them and keeping them in [0,1]; the invariants are kept |
| Elevator.DoorStep | components/expo/Elevator.tsx:43-66 | the height and the request never change; away from the target height the doors never open and the cabin never goes idle, at it the doors never close and the cabin never starts moving; moving starts only with the doors shut and changes only the status; the floor is committed, the status set idle and the button cleared only at the target height with the doors fully open; the doors stay in [0,1]; the invariants are kept |
| Elevator.MoveStep | components/expo/Elevator.tsx:68-80 | the doors, floors and button are untouched and the cabin never goes idle; within 0.05 of the target it snaps there and starts the door sequence, otherwise it moves one step of 2.5·dt toward the target; the invariants are kept |
| Elevator.MoveStepCorrected | components/expo/Elevator.tsx:68-80 | the corrected moving branch keeps the invariants |
| Elevator.TickCorrected | components/expo/Elevator.tsx:68-80 | with the overshoot corrected the tick keeps the invariants and the 0.25 bound; a step that would reach the target lands on it; a travelling cabin gets exactly one step closer |
| Elevator.CorrectedAgreesWithTick | components/expo/Elevator.tsx:68-80 | the corrected tick equals the source's tick except when a step would reach or pass the target from outside the arrival window |
| Elevator.CallFloor | components/expo/Elevator.tsx:93-101 | a request while moving changes nothing; otherwise it replaces only the target floor and lights that button, without range-checking the index |
| Elevator.CallFloorKeepsValid | components/expo/Elevator.tsx:93-100 | a request for a valid floor keeps the invariants |
| Elevator.CallFloorRedirectsDoors | components/expo/Elevator.tsx:95-96 | a request for the departure floor during the closing sequence makes the next frame reopen the doors instead of starting to move |
| Elevator.FloorLabel | components/expo/Elevator.tsx:204-210 | the display reads "1" exactly when y > 3 and "G" otherwise |
| Elevator.FloorLabelMatchesFloor | components/expo/Elevator.tsx:225-231 | the label is "G" at height 0 and "1" at 7.5, so an idle cabin shows its current floor |
| Elevator.InitialCabinIsValidAndAtRest | components/expo/ExpoContext.tsx:23-30 | the initial record satisfies the invariants and its first frame changes nothing, since current equals target |
| ElevatorTrips.Run | components/expo/Elevator.tsx:19-21 | any number of equal frames keeps the invariants, the target floor and `playerInside` |
| ElevatorTrips.Apply | components/expo/Elevator.tsx:19-101 | one frame or one valid button press keeps the invariants and never writes `playerInside` |
| ElevatorTrips.Drive | components/expo/Elevator.tsx:19-101 | any interleaving of frames and valid button presses keeps the invariants and `playerInside` |
| ElevatorTrips.DriveFromInitial | components/expo/ExpoContext.tsx:23-30 | from the initial record, after any frames and presses, the door is in [0,1], an idle cabin is level with its floor, and `playerInside` is still false |
| ElevatorTrips.DoorsClose | components/expo/Elevator.tsx:47-54 | away from the target the doors shut within a bounded number of frames and the cabin then starts moving, nothing else changing |
| ElevatorTrips.DoorsOpen | components/expo/Elevator.tsx:55-64 | at the target the doors open fully within a bounded number of frames, then the floor is committed, the status becomes idle and the button is cleared |
| ElevatorTrips.TravelStep | components/expo/Elevator.tsx:74-79 | a moving tick outside the arrival window (and, corrected, more than one step away) changes only the height, by one step toward the target |
| ElevatorTrips.ArrivalStep | components/expo/Elevator.tsx:74-77 | a moving tick inside the arrival window (or, corrected, within one step) puts the cabin on the target height and starts the door sequence |
| ElevatorTrips.TravelCorrected | components/expo/Elevator.tsx:68-80 | with the corrected moving branch the cabin reaches the target height within a bounded number of frames for every frame time |
| ElevatorTrips.TravelAsWritten | components/expo/Elevator.tsx:68-80 | the source's moving branch still reaches the target when one step is shorter than the 0.1-wide arrival window |
| ElevatorTrips.Depart | components/expo/Elevator.tsx:31-54 | a request for another floor while idle leads to shut doors and the moving state |
| ElevatorTrips.Travel | components/expo/Elevator.tsx:68-80 | from shut doors the cabin arrives at the target height and enters the door sequence |
| ElevatorTrips.Arrive | components/expo/Elevator.tsx:55-64 | at the target height the trip ends idle at the target floor with doors open and no button lit |
| ElevatorTrips.Trip | components/expo/Elevator.tsx:31-80 | a request for another floor while idle completes (close, travel, open, commit) and leaves the cabin idle at the requested floor, doors open, no button lit; for every constant frame time with the corrected branch, for frame times under 40 ms as written |
| ElevatorTrips.StuckOnLagGrid | components/expo/Elevator.tsx:73-78 | at 80 ms frames a cabin on the 0.2 grid bound for level 1 never reaches 7.5 and never commits the floor |
| ElevatorTrips.NeverArrivesAtLagDelta | components/expo/Elevator.tsx:73-78 | pressing level 1 on the initial cabin and running at 80 ms frames never brings the cabin to level 1 |
| ElevatorTrips.CorrectedArrivesAtLagDelta | components/expo/Elevator.tsx:73-78 | the same press at the same frame time completes with the corrected moving branch |
| Booth.BoothTag | components/expo/Booth.tsx:66 | a booth group's tag marks it as a booth and carries exactly the descriptor it was given |
| InteractionManager.FirstIndex | components/expo/InteractionManager.tsx:28-40 | the index returned is the first element meeting the test; none is returned only when no element meets it |
| InteractionManager.Resolve | components/expo/InteractionManager.tsx:27-40 | a descriptor is the one the earliest contributing hit gives, all earlier hits giving none; the result is null exactly when no hit gives one |
| InteractionManager.ResolveHover | components/expo/InteractionManager.tsx:27-40 | the nested hit/parent loop with both breaks computes exactly the resolver's result |
| InteractionManager.HoverChange | components/expo/InteractionManager.tsx:42-45 | the hover state is rewritten exactly when the result differs, and afterwards equals it |
| InteractionManager.HoverFrame | components/expo/InteractionManager.tsx:17-46 | one frame leaves the hover state equal to the resolver's result, rewriting it exactly when it changed |
| InteractionManager.HoverFrameIdempotent | components/expo/InteractionManager.tsx:42-45 | a second frame with the same hits does not rewrite the hover state |
| InteractionManager.Click | components/expo/InteractionManager.tsx:49-55 | a click selects exactly when a booth is hovered, and selects that booth |
| InteractionManager.InnermostTagWins | components/expo/InteractionManager.tsx:32-36 | within one chain the innermost tagged object decides, whatever its ancestors carry |
| InteractionManager.UntaggedDescriptorSkipped | components/expo/InteractionManager.tsx:36-39 | a tagged object without a descriptor does not end the search: the result is that of the remaining hits |
| InteractionManager.NearestResolvingHitWins | components/expo/InteractionManager.tsx:28-40 | hits contributing nothing in front of a contributing hit do not hide it |
| PlayerControls.OnKey | components/expo/PlayerControls.tsx:17-57 | a bound key sets its own flag on keydown and clears it on keyup, leaving every other flag as it was; an unbound key changes nothing |
| PlayerControls.BindingTable | components/expo/PlayerControls.tsx:17-36 | W and ArrowUp are bound to forward, A and ArrowLeft to left, S and ArrowDown to backward, D and ArrowRight to right |
| PlayerControls.KeyPairs | components/expo/PlayerControls.tsx:17-57 | W and ArrowUp drive forward, A and ArrowLeft left, S and ArrowDown backward, D and ArrowRight right, both on press and on release |
| PlayerControls.PressReleaseRestores | components/expo/PlayerControls.tsx:38-57 | a press then release of one key restores every other flag and clears the key's own |
| PlayerControls.Axis | components/expo/PlayerControls.tsx:73-74 | each axis of the raw direction is -1, 0 or 1; 0 exactly when both or neither key is held; 1 exactly when only the positive key is |
| PlayerControls.DirectionBounded | components/expo/PlayerControls.tsx:73-75 | each component of the normalised direction lies in [-1, 1] |
| PlayerControls.DirectionUnit | components/expo/PlayerControls.tsx:73-75 | the normalised direction has squared length at most 1, and its component on an axis none of whose keys is held is 0 |
| PlayerControls.DirectionLength | components/expo/PlayerControls.tsx:73-75 | the normalised direction has squared length exactly 1 when some key is held without its opposite, and 0 otherwise |
| PlayerControls.DiagBelowOne | components/expo/PlayerControls.tsx:75 | the diagonal scale 1/√2 of `normalize` is below 1 |
| PlayerControls.Accelerate | components/expo/PlayerControls.tsx:70-80 | an axis gets only damping unless exactly one of its keys is held |
| PlayerControls.Frame | components/expo/PlayerControls.tsx:68-87 | without pointer lock nothing changes and nothing moves; with it the eye height is 1.7, an axis with both or neither key held is only damped, and the motion passed on is the new velocity times the frame time, negated |
| PlayerControls.AccelerateIsDampAndPush | components/expo/PlayerControls.tsx:70-80 | the new velocity is the old one scaled by 1 - 10·delta minus the normalised direction scaled by 100·delta, on both axes |
| PlayerControls.HeldKeyPushesAxis | components/expo/PlayerControls.tsx:77-80 | a single held key pushes its axis in its own direction beyond damping |
| PlayerControls.SpeedStaysWithinTerminal | components/expo/PlayerControls.tsx:70-80 | with frames of at most 0.1 s a planar speed within the terminal speed 10 (squared speed at most 100) stays within it, whatever keys are held |
| PlayerControls.DiscStep | components/expo/PlayerControls.tsx:70-80 | the disc of radius 10 is closed under scaling by `keep` and subtracting a vector of length at most 1 scaled by `push`, when 10·keep + push = 10 |
| PlayerControls.AxesStayWithinTerminal | components/expo/PlayerControls.tsx:70-80 | with frames of at most 0.1 s each axis that starts within the terminal speed stays within it |
| PlayerControls.AxisWithinTerminal | components/expo/PlayerControls.tsx:70-80 | one axis, damped and pushed by at most one unit of direction, stays within the terminal speed |
| PlayerControls.DampingWithoutClamp | components/expo/PlayerControls.tsx:70-71 | damping never speeds an axis up at 50 ms, reverses it at 200 ms and doubles it reversed at 300 ms |
| PlayerControls.LagSpikeExceedsTerminal | components/expo/PlayerControls.tsx:70-80 | a 150 ms frame with forward held while backing up at terminal speed yields twice the terminal speed |
| ExpoHallScene.BoothIdsDistinct | components/expo/ExpoHallScene.tsx:13-23 | the booth table has six entries with ids 1 to 6 in order, all distinct |
| ExpoHallScene.TargetHandler | components/expo/ExpoHallScene.tsx:51-82 | the enter button sets `hasEntered`, a booth group selects its own record, the close button clears the selection, a click elsewhere changes nothing; the hover state is untouched, controls that stay mounted keep their state, and the controls are mounted exactly while entered with no popup |
| ExpoHallScene.WindowHandler | components/expo/InteractionManager.tsx:48-59 | the window click selects the hovered booth when there is one and otherwise changes nothing; it never touches `hasEntered` or the hover state, and controls that stay mounted keep their state |
| ExpoHallScene.Step | components/expo/ExpoHallScene.tsx:25-82 | controls are mounted exactly while entered and no popup is open; `hasEntered` becomes true only on the enter button and never false; a hovered booth is selected by every click, whatever was clicked; with none hovered a booth click selects that booth, the close button hides the popup, and other clicks keep the selection; a click never changes the hover state and controls that stay mounted through it keep their state; a resolver frame changes only the hover state, to the resolver's result; a key event changes only the mounted controls' flags, and nothing at all while they are unmounted; a remount starts with no key held and at rest |
| ExpoHallScene.StepCorrected | components/expo/BoothPopup.tsx:28-29 | with the close button's click kept from the window, the close button always hides the popup; every other event is handled as written |
| ExpoHallScene.StepWith | components/expo/ExpoHallScene.tsx:58-82 | either version keeps the controls mounted exactly while entered with no popup, and enters only on the enter button |
| ExpoHallScene.Replay | components/expo/ExpoHallScene.tsx:80-82 | after any events, in either version, the visitor has entered exactly when the enter button was clicked or had already been |
| ExpoHallScene.NoControlsBeforeEntering | components/expo/ExpoHallScene.tsx:58 | from the initial page no movement controls exist, and the visitor has not entered, until the enter button is clicked |
| ExpoHallScene.ClosingPopupRemountsControls | components/expo/ExpoHallScene.tsx:76-78 | with no booth under the centre ray, closing a popup after entering remounts the controls with no key held |
| ExpoHallScene.CloseButtonReopensHoveredBooth | components/expo/InteractionManager.tsx:49-57 | with a booth under the centre ray, the close button leaves that booth selected and the controls unmounted |
| ExpoHallScene.CrosshairPopupCannotBeClosed | components/expo/BoothPopup.tsx:28-29 | a popup opened by clicking with the crosshair on a booth stays open when its close button is clicked |
| ExpoHallScene.CorrectedCloseRemountsControls | components/expo/BoothPopup.tsx:28-29 | with the correction the close button hides the popup and remounts the controls fresh, whatever the ray rests on |
| ExpoHallScene.CorrectedCrosshairPopupCloses | components/expo/BoothPopup.tsx:28-29 | with the correction a popup opened with the crosshair closes on its close button and the controls return |
| ExpoHallScene.DirectClickMatchesCrosshair | components/expo/ExpoHallScene.tsx:44-56 | with the centre ray's nearest contributing hit on a booth, clicking that booth and clicking anywhere else give the same session, with that booth's record selected |

## Findings

| source | as written | input that shows it | evidently intended | confidence | as-written member | corrected member |
|---|---|---|---|---|---|---|
| components/expo/Elevator.tsx:73-78 | the cabin arrives only when it lands within 0.05 of the target, yet one step is 2.5·dt, up to 0.25, so a step can jump over the 0.1-wide window and the next step jumps back | press level 1 on the initial cabin and run at a steady 80 ms per frame: each step is 0.2, the cabin reaches 7.4, then alternates between 7.6 and 7.4 forever | the cabin reaches the requested floor for every frame time | not executed | ElevatorTrips.NeverArrivesAtLagDelta | ElevatorTrips.Trip |
| components/expo/BoothPopup.tsx:28-29 | the close button's click is not kept from bubbling to the window listener of InteractionManager.tsx:57, whose handler selects the hovered booth again in the same click | enter, aim the centre ray at booth B and click (popup B opens and the camera freezes, so B stays hovered), then click the close button: popup B stays open and the controls stay unmounted | the close button closes the popup | not executed | ExpoHallScene.CrosshairPopupCannotBeClosed | ExpoHallScene.CorrectedCrosshairPopupCloses |

The corrected moving branch (`Elevator.TickCorrected`) lands on the target
whenever the remaining distance is at most one step; it differs from the
source only there (`Elevator.CorrectedAgreesWithTick`). The multi-frame
lemmas run both versions; the invariants are proved for both ticks.

The corrected hall step (`ExpoHallScene.StepCorrected`) keeps the close
button's click from the window handler and differs from the source only
there; `ExpoHallScene.Replay` runs either version.

## Left out

- Elevator.Tick: requires a valid target floor; `callFloor` accepts any index, and an out-of-range one makes the source compute with an undefined height (NaN), which is not modelled.
- Numbers are Dafny reals, not IEEE-754 doubles; rounding is not modelled.
- Three.js raycasting (`setFromCamera`, `intersectObjects`): the ordered hit list, each hit as its chain of parents' `userData`, is an input.
- InteractionManager.Resolve: `null` and the other falsy results (an undefined `boothData`) are one `None`, so a switch between `null` and `undefined`, which the source also writes to the hover state, is not modelled.
- PlayerControls.Normalize: the diagonal factor 1/√2 of `Vector3.normalize` is a parameter `diag`, pinned by `IsDiagonalScale` (positive, 2·diag² = 1), since Dafny reals have no square root.
- PlayerControls.Frame: `moveRight` and `moveForward` are library calls; the model returns the distances passed to them, not the camera's new x and z.
- React plumbing: context creation and the provider check, state scheduling and re-renders, listener registration and removal, and the 0.2 s refresh throttle of the floor displays (the label is computed directly from `y`).
- Clicks are events naming their target (the enter button, a booth group, the close button, anywhere else); the popup's other content and the modal's backdrop count as anywhere else, and the DOM event propagation is reduced to "target handler, then window handler".
- The movement frame is not part of `ExpoHallScene.Step`; the hall only mounts, unmounts and feeds keys to the controls.
- Booth rotations (quarter turns, ±π/2 about the vertical axis) and every visual: door offsets, meshes, lights, fog, bloom, tooltips, cursor styling, the instructions overlay, modals and popup content.
- `activeButton` is modelled as state; its use as a button highlight is visual.
- Pages, layout, the health API route (database I/O), build configuration, and the behaviour-free type declarations are not part of this model.
