/** The elevator's per-frame state machine, its floor request and its floor
    label (components/expo/Elevator.tsx). */
module Elevator {

  import opened Optional
  import opened ExpoContext

  const SPEED: real := 2.5
  const DOOR_SPEED: real := 2.0
  /** Upper bound on the step time: a longer frame counts as this long. */
  const MAX_DT: real := 0.1
  /** Arrival tolerance of the moving state. */
  const EPS: real := 0.05
  /** Heights above this read as level 1 on the cabin displays. */
  const LABEL_THRESHOLD: real := 3.0

  /** Farthest the cabin can travel past a landing in one tick before the
      arrival test catches it. */
  const OVERSHOOT: real := SPEED * MAX_DT - EPS

  /** The shared record together with the component's `activeButton`. */
  datatype Cabin = Cabin(state: ElevatorState, activeButton: Option<int>)

  function InitialCabin(): Cabin {
    Cabin(InitialElevator(), None)
  }

  function Abs(x: real): real {
    if x < 0.0 then -x else x
  }

  /** `Math.sign` on a real. */
  function Sign(x: real): real {
    if x > 0.0 then 1.0 else if x < 0.0 then -1.0 else 0.0
  }

  /** `y + Math.sign(target - y) * d`: one step of length `d` toward the
      target. */
  function Toward(y: real, target: real, d: real): (r: real)
    ensures target > y ==> r == y + d
    ensures target < y ==> r == y - d
    ensures target == y ==> r == y
  {
    y + Sign(target - y) * d
  }

  /** `Math.min(delta, 0.1)`. */
  function StepTime(delta: real): (dt: real)
    ensures dt <= MAX_DT
    ensures dt == delta || (dt == MAX_DT && delta > MAX_DT)
  {
    if delta < MAX_DT then delta else MAX_DT
  }

  /** `Math.min(door + DOOR_SPEED * dt, 1)`. */
  function OpenDoor(door: real, dt: real): real {
    if door + DOOR_SPEED * dt < 1.0 then door + DOOR_SPEED * dt else 1.0
  }

  /** `Math.max(door - DOOR_SPEED * dt, 0)`. */
  function CloseDoor(door: real, dt: real): real {
    if door - DOOR_SPEED * dt > 0.0 then door - DOOR_SPEED * dt else 0.0
  }

  predicate AtLanding(y: real) {
    y in FLOOR_HEIGHTS
  }

  /** The invariants the state machine keeps: the door fraction is in [0,1],
      both floor indices are valid, the cabin never moves with doors open,
      an idle cabin sits exactly at its current floor with its doors fully
      open, a door sequence happens at a landing, and the cabin stays within
      OVERSHOOT of the floor range. */
  predicate Valid(s: ElevatorState) {
    && 0.0 <= s.doorOpenness <= 1.0
    && ValidFloor(s.currentFloor)
    && ValidFloor(s.targetFloor)
    && (s.status == Moving ==> s.doorOpenness == 0.0)
    && (s.status == Idle ==> s.y == FLOOR_HEIGHTS[s.currentFloor] && s.doorOpenness == 1.0)
    && (s.status == DoorAction ==> AtLanding(s.y))
    && FLOOR_HEIGHTS[0] - OVERSHOOT <= s.y <= FLOOR_HEIGHTS[1] + OVERSHOOT
  }

  /** The `idle` branch: start the door sequence if another floor is
      requested, otherwise keep opening the doors. */
  function IdleStep(c: Cabin, dt: real): (r: Cabin)
    requires c.state.status == Idle
    ensures r.activeButton == c.activeButton
    ensures r.state.y == c.state.y && r.state.currentFloor == c.state.currentFloor
    ensures r.state.targetFloor == c.state.targetFloor && r.state.playerInside == c.state.playerInside
    ensures c.state.targetFloor != c.state.currentFloor ==> r == c.(state := c.state.(status := DoorAction))
    ensures c.state.targetFloor == c.state.currentFloor ==>
              r.state.status == Idle && (0.0 <= dt ==> c.state.doorOpenness <= r.state.doorOpenness)
    // with nothing requested the doors are pushed open
    ensures c.state.targetFloor == c.state.currentFloor ==>
              r.state.doorOpenness ==
              (if c.state.doorOpenness < 1.0 then OpenDoor(c.state.doorOpenness, dt) else c.state.doorOpenness)
    ensures 0.0 <= dt <= MAX_DT ==> Abs(r.state.doorOpenness - c.state.doorOpenness) <= DOOR_SPEED * MAX_DT
    ensures 0.0 <= dt && 0.0 <= c.state.doorOpenness <= 1.0 ==> 0.0 <= r.state.doorOpenness <= 1.0
    ensures 0.0 <= dt && Valid(c.state) ==> Valid(r.state)
  {
    var s := c.state;
    if s.targetFloor != s.currentFloor then
      c.(state := s.(status := DoorAction))
    else if s.doorOpenness < 1.0 then
      c.(state := s.(doorOpenness := OpenDoor(s.doorOpenness, dt)))
    else
      c
  }

  /** The `door_action` branch: away from the target height close the doors
      and then start moving; at the target height open them and then commit
      the floor, go idle and clear the lit button. */
  function DoorStep(c: Cabin, dt: real): (r: Cabin)
    requires c.state.status == DoorAction && ValidFloor(c.state.targetFloor)
    ensures r.state.y == c.state.y && r.state.targetFloor == c.state.targetFloor
    ensures r.state.playerInside == c.state.playerInside
    ensures r.state.status == Moving ==>
              c.state.doorOpenness <= 0.0 && r == c.(state := c.state.(status := Moving))
    ensures r.state.currentFloor != c.state.currentFloor || r.activeButton != c.activeButton ||
            r.state.status == Idle ==>
              c.state.y == FLOOR_HEIGHTS[c.state.targetFloor] && c.state.doorOpenness >= 1.0 &&
              r == Cabin(c.state.(currentFloor := c.state.targetFloor, status := Idle), None)
    // away from the target height the doors only close, at it they only open
    ensures c.state.y != FLOOR_HEIGHTS[c.state.targetFloor] && 0.0 <= dt ==>
              r.state.status != Idle && r.state.doorOpenness <= c.state.doorOpenness
    ensures c.state.y == FLOOR_HEIGHTS[c.state.targetFloor] && 0.0 <= dt ==>
              r.state.status != Moving && r.state.doorOpenness >= c.state.doorOpenness
    ensures 0.0 <= dt <= MAX_DT ==> Abs(r.state.doorOpenness - c.state.doorOpenness) <= DOOR_SPEED * MAX_DT
    ensures 0.0 <= dt && 0.0 <= c.state.doorOpenness <= 1.0 ==> 0.0 <= r.state.doorOpenness <= 1.0
    ensures 0.0 <= dt && Valid(c.state) ==> Valid(r.state)
  {
    var s := c.state;
    if s.y != FLOOR_HEIGHTS[s.targetFloor] then
      if s.doorOpenness > 0.0 then
        c.(state := s.(doorOpenness := CloseDoor(s.doorOpenness, dt)))
      else
        c.(state := s.(status := Moving))
    else if s.doorOpenness < 1.0 then
      c.(state := s.(doorOpenness := OpenDoor(s.doorOpenness, dt)))
    else
      Cabin(s.(currentFloor := s.targetFloor, status := Idle), None)
  }

  /** The `moving` branch as written: snap when within EPS of the target,
      otherwise travel SPEED * dt toward it. */
  function MoveStep(c: Cabin, dt: real): (r: Cabin)
    requires c.state.status == Moving && ValidFloor(c.state.targetFloor)
    ensures r.activeButton == c.activeButton && r.state.status != Idle
    ensures r.state.doorOpenness == c.state.doorOpenness && r.state.currentFloor == c.state.currentFloor
    ensures r.state.targetFloor == c.state.targetFloor && r.state.playerInside == c.state.playerInside
    ensures Abs(FLOOR_HEIGHTS[c.state.targetFloor] - c.state.y) < EPS ==>
              r == c.(state := c.state.(y := FLOOR_HEIGHTS[c.state.targetFloor], status := DoorAction))
    ensures Abs(FLOOR_HEIGHTS[c.state.targetFloor] - c.state.y) >= EPS ==>
              r.state.status == Moving &&
              (FLOOR_HEIGHTS[c.state.targetFloor] > c.state.y ==> r.state.y == c.state.y + SPEED * dt) &&
              (FLOOR_HEIGHTS[c.state.targetFloor] < c.state.y ==> r.state.y == c.state.y - SPEED * dt)
    ensures 0.0 <= dt <= MAX_DT ==> Abs(r.state.y - c.state.y) <= SPEED * MAX_DT
    ensures 0.0 <= dt <= MAX_DT && Valid(c.state) ==> Valid(r.state)
  {
    var s := c.state;
    var targetY := FLOOR_HEIGHTS[s.targetFloor];
    var diff := targetY - s.y;
    if Abs(diff) < EPS then
      c.(state := s.(y := targetY, status := DoorAction))
    else
      c.(state := s.(y := Toward(s.y, targetY, SPEED * dt)))
  }

  /** The `moving` branch with the overshoot corrected: a step that would
      reach or pass the target lands on it instead. */
  function MoveStepCorrected(c: Cabin, dt: real): (r: Cabin)
    requires c.state.status == Moving && ValidFloor(c.state.targetFloor)
    ensures r.activeButton == c.activeButton
    ensures r.state.doorOpenness == c.state.doorOpenness && r.state.currentFloor == c.state.currentFloor
    ensures r.state.targetFloor == c.state.targetFloor && r.state.playerInside == c.state.playerInside
    ensures Abs(FLOOR_HEIGHTS[c.state.targetFloor] - c.state.y) <= SPEED * dt ==>
              r == c.(state := c.state.(y := FLOOR_HEIGHTS[c.state.targetFloor], status := DoorAction))
    ensures r.state.status == Moving ==>
              Abs(FLOOR_HEIGHTS[c.state.targetFloor] - r.state.y) ==
              Abs(FLOOR_HEIGHTS[c.state.targetFloor] - c.state.y) - SPEED * dt
    ensures 0.0 <= dt <= MAX_DT ==> Abs(r.state.y - c.state.y) <= SPEED * MAX_DT
    ensures 0.0 <= dt <= MAX_DT && Valid(c.state) ==> Valid(r.state)
  {
    var s := c.state;
    var targetY := FLOOR_HEIGHTS[s.targetFloor];
    var diff := targetY - s.y;
    if Abs(diff) < EPS || Abs(diff) <= SPEED * dt then
      c.(state := s.(y := targetY, status := DoorAction))
    else
      c.(state := s.(y := Toward(s.y, targetY, SPEED * dt)))
  }

  /** One frame of the elevator logic, driven by the frame time `delta`. */
  function Tick(c: Cabin, delta: real): (r: Cabin)
    requires ValidFloor(c.state.targetFloor)
    // the tick never touches the request or the riding flag
    ensures r.state.targetFloor == c.state.targetFloor
    ensures r.state.playerInside == c.state.playerInside
    // per-tick bounds
    ensures 0.0 <= delta ==> Abs(r.state.y - c.state.y) <= SPEED * MAX_DT
    ensures 0.0 <= delta ==> Abs(r.state.doorOpenness - c.state.doorOpenness) <= DOOR_SPEED * MAX_DT
    ensures 0.0 <= delta && 0.0 <= c.state.doorOpenness <= 1.0 ==> 0.0 <= r.state.doorOpenness <= 1.0
    ensures 0.0 <= delta && Valid(c.state) ==> Valid(r.state)
    // idle with a pending request: only the status changes
    ensures c.state.status == Idle && c.state.targetFloor != c.state.currentFloor ==>
              r == c.(state := c.state.(status := DoorAction))
    // idle with nothing requested: stays idle in place, doors only open
    ensures c.state.status == Idle && c.state.targetFloor == c.state.currentFloor ==>
              r.state.status == Idle && r.state.y == c.state.y &&
              (0.0 <= delta ==> c.state.doorOpenness <= r.state.doorOpenness)
    // `moving` is entered only from closed doors, and never moves the doors
    ensures r.state.status == Moving && c.state.status != Moving ==>
              c.state.status == DoorAction && c.state.doorOpenness <= 0.0 &&
              r == c.(state := c.state.(status := Moving))
    ensures c.state.status == Moving ==> r.state.doorOpenness == c.state.doorOpenness
    // the door sequence closes away from the target height and opens at it
    ensures c.state.status == DoorAction && c.state.y != FLOOR_HEIGHTS[c.state.targetFloor] && 0.0 <= delta ==>
              r.state.status != Idle && r.state.doorOpenness <= c.state.doorOpenness
    ensures c.state.status == DoorAction && c.state.y == FLOOR_HEIGHTS[c.state.targetFloor] && 0.0 <= delta ==>
              r.state.status != Moving && r.state.doorOpenness >= c.state.doorOpenness
    // arrival test of `moving`
    ensures c.state.status == Moving && Abs(FLOOR_HEIGHTS[c.state.targetFloor] - c.state.y) < EPS ==>
              r == c.(state := c.state.(y := FLOOR_HEIGHTS[c.state.targetFloor], status := DoorAction))
    ensures c.state.status == Moving && Abs(FLOOR_HEIGHTS[c.state.targetFloor] - c.state.y) >= EPS ==>
              r.state.status == Moving &&
              (FLOOR_HEIGHTS[c.state.targetFloor] > c.state.y ==> r.state.y == c.state.y + SPEED * StepTime(delta)) &&
              (FLOOR_HEIGHTS[c.state.targetFloor] < c.state.y ==> r.state.y == c.state.y - SPEED * StepTime(delta))
    // the floor is committed, and the button cleared, only with the cabin at
    // the target height and the doors fully open
    ensures r.state.currentFloor != c.state.currentFloor || r.activeButton != c.activeButton ||
            (r.state.status == Idle && c.state.status != Idle) ==>
              c.state.status == DoorAction &&
              c.state.y == FLOOR_HEIGHTS[c.state.targetFloor] && c.state.doorOpenness >= 1.0 &&
              r == Cabin(c.state.(currentFloor := c.state.targetFloor, status := Idle), None)
  {
    var dt := StepTime(delta);
    match c.state.status
    case Idle => IdleStep(c, dt)
    case DoorAction => DoorStep(c, dt)
    case Moving => MoveStep(c, dt)
  }

  /** The tick with the moving branch corrected (see MoveStepCorrected). */
  function TickCorrected(c: Cabin, delta: real): (r: Cabin)
    requires ValidFloor(c.state.targetFloor)
    ensures r.state.targetFloor == c.state.targetFloor
    ensures r.state.playerInside == c.state.playerInside
    ensures 0.0 <= delta ==> Abs(r.state.y - c.state.y) <= SPEED * MAX_DT
    ensures 0.0 <= delta && Valid(c.state) ==> Valid(r.state)
    ensures c.state.status == Moving &&
            Abs(FLOOR_HEIGHTS[c.state.targetFloor] - c.state.y) <= SPEED * StepTime(delta) ==>
              r == c.(state := c.state.(y := FLOOR_HEIGHTS[c.state.targetFloor], status := DoorAction))
    // a travelling cabin gets exactly one step closer, never past the target
    ensures c.state.status == Moving && r.state.status == Moving ==>
              Abs(FLOOR_HEIGHTS[c.state.targetFloor] - r.state.y) ==
              Abs(FLOOR_HEIGHTS[c.state.targetFloor] - c.state.y) - SPEED * StepTime(delta)
  {
    var dt := StepTime(delta);
    match c.state.status
    case Idle => IdleStep(c, dt)
    case DoorAction => DoorStep(c, dt)
    case Moving => MoveStepCorrected(c, dt)
  }

  /** The correction only differs from the source when a step would reach or
      pass the target from outside the arrival window. */
  lemma CorrectedAgreesWithTick(c: Cabin, delta: real)
    requires ValidFloor(c.state.targetFloor)
    requires c.state.status != Moving ||
             Abs(FLOOR_HEIGHTS[c.state.targetFloor] - c.state.y) < EPS ||
             Abs(FLOOR_HEIGHTS[c.state.targetFloor] - c.state.y) > SPEED * StepTime(delta)
    ensures TickCorrected(c, delta) == Tick(c, delta)
  {
  }

  /** `callFloor`: accepted while idle or during a door sequence, where it
      only replaces the request and lights its button; dropped while
      moving. The index is not range-checked. */
  function CallFloor(c: Cabin, floorIndex: int): (r: Cabin)
    ensures c.state.status == Moving ==> r == c
    ensures c.state.status != Moving ==>
              r.state == c.state.(targetFloor := floorIndex) && r.activeButton == Some(floorIndex)
  {
    match c.state.status
    case Moving => c
    case _ => Cabin(c.state.(targetFloor := floorIndex), Some(floorIndex))
  }

  /** A request for a valid floor keeps the invariants. */
  lemma CallFloorKeepsValid(c: Cabin, floorIndex: int)
    requires Valid(c.state) && ValidFloor(floorIndex)
    ensures Valid(CallFloor(c, floorIndex).state)
  {
  }

  /** A request issued while the doors are closing at the departure floor can
      send the cabin back to that floor: the next tick reopens the doors
      instead of closing them further. */
  lemma CallFloorRedirectsDoors(c: Cabin, delta: real)
    requires Valid(c.state) && 0.0 <= delta
    requires c.state.status == DoorAction && c.state.y == FLOOR_HEIGHTS[c.state.currentFloor]
    ensures Tick(CallFloor(c, c.state.currentFloor), delta).state.doorOpenness >= c.state.doorOpenness
    ensures Tick(CallFloor(c, c.state.currentFloor), delta).state.status != Moving
  {
  }

  /** The label of both floor displays. */
  function FloorLabel(y: real): (text: string)
    ensures text == "1" <==> y > LABEL_THRESHOLD
    ensures text == "G" <==> y <= LABEL_THRESHOLD
  {
    if y > LABEL_THRESHOLD then "1" else "G"
  }

  /** The label reads "G" at the ground landing and "1" at level 1, so an
      idle cabin always shows the floor it is committed to. */
  lemma FloorLabelMatchesFloor(s: ElevatorState)
    requires Valid(s) && s.status == Idle
    ensures FloorLabel(FLOOR_HEIGHTS[0]) == "G" && FloorLabel(FLOOR_HEIGHTS[1]) == "1"
    ensures FloorLabel(s.y) == (if s.currentFloor == 0 then "G" else "1")
  {
  }

  /** The initial record satisfies the invariants, and since nothing is
      requested its first tick leaves the cabin exactly as it was. */
  lemma InitialCabinIsValidAndAtRest(delta: real)
    ensures Valid(InitialCabin().state)
    ensures Tick(InitialCabin(), delta) == InitialCabin()
  {
  }
}
