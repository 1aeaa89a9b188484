/** Runs of the elevator state machine over many frames: the invariants over
    any sequence of ticks and floor requests, the complete trip
    close-travel-open-commit, and the frame time at which the moving branch
    as written never arrives. */
module ElevatorTrips {

  import opened Optional
  import opened ExpoContext
  import opened Elevator
  import opened Versions

  /** The tick a run uses: the source's moving branch, or the corrected one. */
  function TickWith(v: Version, c: Cabin, delta: real): (r: Cabin)
    requires ValidFloor(c.state.targetFloor)
    ensures r.state.targetFloor == c.state.targetFloor
    ensures r.state.playerInside == c.state.playerInside
    ensures 0.0 <= delta && Valid(c.state) ==> Valid(r.state)
  {
    match v
    case AsWritten => Tick(c, delta)
    case Corrected => TickCorrected(c, delta)
  }

  /** `n` frames of the same length `delta`. */
  function Run(v: Version, c: Cabin, delta: real, n: nat): (r: Cabin)
    requires ValidFloor(c.state.targetFloor)
    ensures r.state.targetFloor == c.state.targetFloor
    ensures r.state.playerInside == c.state.playerInside
    ensures 0.0 <= delta && Valid(c.state) ==> Valid(r.state)
    decreases n
  {
    if n == 0 then c else Run(v, TickWith(v, c, delta), delta, n - 1)
  }

  lemma {:induction false} RunAdditive(v: Version, c: Cabin, delta: real, a: nat, b: nat)
    requires ValidFloor(c.state.targetFloor)
    ensures Run(v, c, delta, a + b) == Run(v, Run(v, c, delta, a), delta, b)
    decreases a
  {
    if a > 0 {
      RunAdditive(v, TickWith(v, c, delta), delta, a - 1, b);
    }
  }

  /** What the frame loop and the buttons feed the state machine. */
  datatype Input = Frame(delta: real) | Press(floorIndex: int)

  predicate WellFormed(i: Input) {
    match i
    case Frame(delta) => 0.0 <= delta
    case Press(f) => ValidFloor(f)
  }

  /** One input applied to the source's machine. */
  function Apply(c: Cabin, i: Input): (r: Cabin)
    requires ValidFloor(c.state.targetFloor) && WellFormed(i)
    ensures ValidFloor(r.state.targetFloor)
    ensures r.state.playerInside == c.state.playerInside
    ensures Valid(c.state) ==> Valid(r.state)
  {
    match i
    case Frame(delta) => Tick(c, delta)
    case Press(f) => CallFloor(c, f)
  }

  /** The source's machine driven by any interleaving of frames and button
      presses. */
  function Drive(c: Cabin, inputs: seq<Input>): (r: Cabin)
    requires ValidFloor(c.state.targetFloor)
    requires forall k :: 0 <= k < |inputs| ==> WellFormed(inputs[k])
    ensures ValidFloor(r.state.targetFloor)
    ensures r.state.playerInside == c.state.playerInside
    ensures Valid(c.state) ==> Valid(r.state)
    decreases |inputs|
  {
    if |inputs| == 0 then c else Drive(Apply(c, inputs[0]), inputs[1..])
  }

  /** Door openness stays in [0,1] and an idle cabin stays level with its
      floor, whatever sequence of frames and presses arrives; nothing the
      machine does writes `playerInside`, so it keeps its initial false. */
  lemma DriveFromInitial(inputs: seq<Input>)
    requires forall k :: 0 <= k < |inputs| ==> WellFormed(inputs[k])
    ensures 0.0 <= Drive(InitialCabin(), inputs).state.doorOpenness <= 1.0
    ensures Drive(InitialCabin(), inputs).state.status == Idle ==>
              Drive(InitialCabin(), inputs).state.y ==
              FLOOR_HEIGHTS[Drive(InitialCabin(), inputs).state.currentFloor]
    ensures !Drive(InitialCabin(), inputs).state.playerInside
  {
    InitialCabinIsValidAndAtRest(0.0);
  }

  /** The distance `n` steps of size `step` cover. */
  function Reach(n: nat, step: real): (d: real)
    ensures 0.0 <= step ==> 0.0 <= d
    decreases n
  {
    if n == 0 then 0.0 else step + Reach(n - 1, step)
  }

  lemma {:induction false} ReachIsProduct(n: nat, step: real)
    ensures Reach(n, step) == n as real * step
    decreases n
  {
    if n > 0 {
      ReachIsProduct(n - 1, step);
      assert (n - 1) as real * step + step == n as real * step;
    }
  }

  /** Enough steps of size `step` to cover the distance `d`. */
  lemma StepsFor(d: real, step: real) returns (n: nat)
    requires 0.0 <= d && 0.0 < step
    ensures d <= Reach(n, step)
  {
    var q := d / step;
    assert q >= 0.0;
    n := q.Floor + 1;
    assert n as real > q;
    assert q * step == d;
    assert (n as real - q) * step > 0.0;
    assert n as real * step - d == (n as real - q) * step;
    assert d < n as real * step;
    ReachIsProduct(n, step);
  }

  /** Closing phase: from a door sequence away from the target height, the
      doors shut within n + 1 frames and the cabin starts moving. */
  lemma {:induction false} DoorsClose(v: Version, c: Cabin, delta: real, n: nat) returns (k: nat)
    requires 0.0 < delta && Valid(c.state)
    requires c.state.status == DoorAction && c.state.y != FLOOR_HEIGHTS[c.state.targetFloor]
    requires c.state.doorOpenness <= Reach(n, DOOR_SPEED * StepTime(delta))
    ensures k <= n + 1
    ensures Run(v, c, delta, k) == c.(state := c.state.(status := Moving, doorOpenness := 0.0))
    decreases n
  {
    var dt := StepTime(delta);
    var c1 := TickWith(v, c, delta);
    if c.state.doorOpenness > 0.0 {
      assert n >= 1;
      assert c1.state == c.state.(doorOpenness := CloseDoor(c.state.doorOpenness, dt));
      assert Reach(n, DOOR_SPEED * dt) == DOOR_SPEED * dt + Reach(n - 1, DOOR_SPEED * dt);
      var k1 := DoorsClose(v, c1, delta, n - 1);
      k := k1 + 1;
    } else {
      assert c1 == c.(state := c.state.(status := Moving, doorOpenness := 0.0));
      k := 1;
    }
  }

  /** Opening phase: at the target height the doors open fully within n + 1
      frames, then the floor is committed and the button cleared. */
  lemma {:induction false} DoorsOpen(v: Version, c: Cabin, delta: real, n: nat) returns (k: nat)
    requires 0.0 < delta && Valid(c.state)
    requires c.state.status == DoorAction && c.state.y == FLOOR_HEIGHTS[c.state.targetFloor]
    requires 1.0 - c.state.doorOpenness <= Reach(n, DOOR_SPEED * StepTime(delta))
    ensures k <= n + 1
    ensures Run(v, c, delta, k) ==
            Cabin(c.state.(doorOpenness := 1.0, currentFloor := c.state.targetFloor, status := Idle), None)
    decreases n
  {
    var dt := StepTime(delta);
    var c1 := TickWith(v, c, delta);
    if c.state.doorOpenness < 1.0 {
      assert n >= 1;
      assert c1.state == c.state.(doorOpenness := OpenDoor(c.state.doorOpenness, dt));
      assert Reach(n, DOOR_SPEED * dt) == DOOR_SPEED * dt + Reach(n - 1, DOOR_SPEED * dt);
      var k1 := DoorsOpen(v, c1, delta, n - 1);
      k := k1 + 1;
    } else {
      k := 1;
    }
  }

  /** One travelling tick that does not arrive: only the height changes, by
      one step toward the target. */
  lemma TravelStep(v: Version, c: Cabin, delta: real) returns (c1: Cabin)
    requires 0.0 < delta && Valid(c.state) && c.state.status == Moving
    requires Abs(FLOOR_HEIGHTS[c.state.targetFloor] - c.state.y) >= EPS
    requires v == Corrected ==> Abs(FLOOR_HEIGHTS[c.state.targetFloor] - c.state.y) > SPEED * StepTime(delta)
    ensures c1 == TickWith(v, c, delta) && Valid(c1.state)
    ensures c1 == c.(state := c.state.(y := c1.state.y))
    ensures FLOOR_HEIGHTS[c.state.targetFloor] > c.state.y ==> c1.state.y == c.state.y + SPEED * StepTime(delta)
    ensures FLOOR_HEIGHTS[c.state.targetFloor] < c.state.y ==> c1.state.y == c.state.y - SPEED * StepTime(delta)
  {
    c1 := TickWith(v, c, delta);
    if v == Corrected {
      assert c1 == MoveStepCorrected(c, StepTime(delta));
    } else {
      assert c1 == MoveStep(c, StepTime(delta));
    }
  }

  /** The travelling tick that arrives: the cabin is put on the target
      height and the door sequence starts. */
  lemma ArrivalStep(v: Version, c: Cabin, delta: real)
    requires 0.0 < delta && Valid(c.state) && c.state.status == Moving
    requires Abs(FLOOR_HEIGHTS[c.state.targetFloor] - c.state.y) < EPS ||
             (v == Corrected && Abs(FLOOR_HEIGHTS[c.state.targetFloor] - c.state.y) <= SPEED * StepTime(delta))
    ensures TickWith(v, c, delta) ==
            c.(state := c.state.(y := FLOOR_HEIGHTS[c.state.targetFloor], status := DoorAction))
  {
  }

  /** Travel phase with the corrected moving branch: the cabin reaches the
      target height within n + 1 frames, for every frame time. */
  lemma {:induction false} TravelCorrected(c: Cabin, delta: real, n: nat) returns (k: nat)
    requires 0.0 < delta && Valid(c.state) && c.state.status == Moving
    requires Abs(FLOOR_HEIGHTS[c.state.targetFloor] - c.state.y) <= Reach(n, SPEED * StepTime(delta))
    ensures k <= n + 1
    ensures Run(Corrected, c, delta, k) ==
            c.(state := c.state.(y := FLOOR_HEIGHTS[c.state.targetFloor], status := DoorAction))
    decreases n
  {
    var step := SPEED * StepTime(delta);
    var targetY := FLOOR_HEIGHTS[c.state.targetFloor];
    var diff := Abs(targetY - c.state.y);
    if diff < EPS || diff <= step {
      ArrivalStep(Corrected, c, delta);
      k := 1;
    } else {
      assert n >= 1;
      var c1 := TravelStep(Corrected, c, delta);
      assert Abs(targetY - c1.state.y) == diff - step;
      var k1 := TravelCorrected(c1, delta, n - 1);
      k := k1 + 1;
      assert Run(Corrected, c, delta, k) == Run(Corrected, c1, delta, k1);
    }
  }

  /** Travel phase with the moving branch as written: it still arrives when
      one step is shorter than the arrival window, since an overshoot then
      lands inside the window. */
  lemma {:induction false} TravelAsWritten(c: Cabin, delta: real, n: nat) returns (k: nat)
    requires 0.0 < delta && SPEED * StepTime(delta) < 2.0 * EPS
    requires Valid(c.state) && c.state.status == Moving
    requires Abs(FLOOR_HEIGHTS[c.state.targetFloor] - c.state.y) <= Reach(n, SPEED * StepTime(delta))
    ensures k <= n + 2
    ensures Run(AsWritten, c, delta, k) ==
            c.(state := c.state.(y := FLOOR_HEIGHTS[c.state.targetFloor], status := DoorAction))
    decreases n
  {
    var step := SPEED * StepTime(delta);
    var targetY := FLOOR_HEIGHTS[c.state.targetFloor];
    var diff := Abs(targetY - c.state.y);
    if diff < EPS {
      ArrivalStep(AsWritten, c, delta);
      k := 1;
    } else {
      var c1 := TravelStep(AsWritten, c, delta);
      if step <= diff {
        assert n >= 1;
        assert Abs(targetY - c1.state.y) == diff - step;
        var k1 := TravelAsWritten(c1, delta, n - 1);
        k := k1 + 1;
        assert Run(AsWritten, c, delta, k) == Run(AsWritten, c1, delta, k1);
      } else {
        // one step carries the cabin past the target, into the window
        assert Abs(targetY - c1.state.y) < EPS;
        ArrivalStep(AsWritten, c1, delta);
        k := 2;
        assert Run(AsWritten, c, delta, k) == TickWith(AsWritten, c1, delta);
      }
    }
  }

  /** A request for another floor made while idle completes: the doors close,
      the cabin travels, the doors open and the floor is committed, leaving
      the cabin idle at the requested floor with doors open and no button
      lit. This holds for every constant frame time with the corrected
      moving branch, and for frame times under 40 ms as written. */
  lemma Trip(v: Version, c: Cabin, f: int, delta: real) returns (k: nat)
    requires 0.0 < delta && Valid(c.state) && c.state.status == Idle
    requires ValidFloor(f) && f != c.state.currentFloor
    requires v == Corrected || SPEED * StepTime(delta) < 2.0 * EPS
    ensures Run(v, CallFloor(c, f), delta, k) ==
            Cabin(c.state.(y := FLOOR_HEIGHTS[f], doorOpenness := 1.0, currentFloor := f, targetFloor := f), None)
  {
    var s := c.state.(targetFloor := f);
    var c2 := Cabin(s.(status := Moving, doorOpenness := 0.0), Some(f));
    var c3 := Cabin(s.(y := FLOOR_HEIGHTS[f], status := DoorAction, doorOpenness := 0.0), Some(f));
    var final := Cabin(s.(y := FLOOR_HEIGHTS[f], doorOpenness := 1.0, currentFloor := f, status := Idle), None);
    var k1 := Depart(v, c, f, delta);
    var k2 := Travel(v, c2, delta);
    var k3 := Arrive(v, c3, delta);
    RunChain(v, CallFloor(c, f), c2, c3, final, delta, k1, k2, k3);
    k := k1 + k2 + k3;
  }

  /** Three runs back to back are one run. */
  lemma RunChain(v: Version, a: Cabin, b: Cabin, c: Cabin, d: Cabin, delta: real, k1: nat, k2: nat, k3: nat)
    requires ValidFloor(a.state.targetFloor)
    requires Run(v, a, delta, k1) == b && Run(v, b, delta, k2) == c && Run(v, c, delta, k3) == d
    ensures Run(v, a, delta, k1 + k2 + k3) == d
  {
    RunAdditive(v, a, delta, k1, k2);
    RunAdditive(v, a, delta, k1 + k2, k3);
  }

  /** Last part of a trip: the doors open and the floor is committed. */
  lemma Arrive(v: Version, c: Cabin, delta: real) returns (k: nat)
    requires 0.0 < delta && Valid(c.state)
    requires c.state.status == DoorAction && c.state.y == FLOOR_HEIGHTS[c.state.targetFloor]
    ensures Run(v, c, delta, k) ==
            Cabin(c.state.(doorOpenness := 1.0, currentFloor := c.state.targetFloor, status := Idle), None)
  {
    var n := StepsFor(1.0 - c.state.doorOpenness, DOOR_SPEED * StepTime(delta));
    k := DoorsOpen(v, c, delta, n);
  }

  /** Middle part of a trip: from closed doors, the cabin reaches the target
      height and the doors start opening. */
  lemma Travel(v: Version, c: Cabin, delta: real) returns (k: nat)
    requires 0.0 < delta && Valid(c.state) && c.state.status == Moving
    requires v == Corrected || SPEED * StepTime(delta) < 2.0 * EPS
    ensures Run(v, c, delta, k) ==
            c.(state := c.state.(y := FLOOR_HEIGHTS[c.state.targetFloor], status := DoorAction))
  {
    var n := StepsFor(Abs(FLOOR_HEIGHTS[c.state.targetFloor] - c.state.y), SPEED * StepTime(delta));
    if v == Corrected {
      k := TravelCorrected(c, delta, n);
    } else {
      k := TravelAsWritten(c, delta, n);
    }
  }

  /** First part of a trip: the request is taken, the door sequence starts
      and the doors close. */
  lemma Depart(v: Version, c: Cabin, f: int, delta: real) returns (k: nat)
    requires 0.0 < delta && Valid(c.state) && c.state.status == Idle
    requires ValidFloor(f) && f != c.state.currentFloor
    ensures Run(v, CallFloor(c, f), delta, k) ==
            Cabin(c.state.(targetFloor := f, status := Moving, doorOpenness := 0.0), Some(f))
  {
    var c0 := CallFloor(c, f);
    var c1 := TickWith(v, c0, delta);
    assert c1 == c0.(state := c0.state.(status := DoorAction));
    FloorHeightsIncreasing();
    assert c1.state.y != FLOOR_HEIGHTS[f];
    var n1 := StepsFor(c1.state.doorOpenness, DOOR_SPEED * StepTime(delta));
    var k1 := DoorsClose(v, c1, delta, n1);
    k := k1 + 1;
  }

  /** A steady frame time of 80 ms: one moving step is then 0.2. */
  const LAG_DELTA: real := 0.08

  /** A cabin bound for level 1, still committed to the ground floor, at a
      height that is a multiple (k) of the 0.2 step. */
  predicate OnLagGrid(c: Cabin, k: int) {
    && c.state.currentFloor == 0 && c.state.targetFloor == 1
    && 0 <= k <= 38 && c.state.y == k as real * 0.2
  }

  /** On the 0.2 grid the cabin is never within EPS of 7.5: the nearest grid
      heights are 7.4 and 7.6, so it steps back and forth between them and
      never commits the new floor. */
  lemma {:induction false} StuckOnLagGrid(c: Cabin, k: int, n: nat)
    requires OnLagGrid(c, k)
    ensures Run(AsWritten, c, LAG_DELTA, n).state.currentFloor == 0
    ensures Run(AsWritten, c, LAG_DELTA, n).state.y != FLOOR_HEIGHTS[1]
    decreases n
  {
    assert k <= 37 || k == 38;
    if n > 0 {
      var c1 := Tick(c, LAG_DELTA);
      if c.state.status == Moving {
        if k <= 37 {
          assert c1.state.y == (k + 1) as real * 0.2;
          StuckOnLagGrid(c1, k + 1, n - 1);
        } else {
          assert c1.state.y == 37.0 * 0.2;
          StuckOnLagGrid(c1, 37, n - 1);
        }
      } else {
        assert c1.state.y == c.state.y;
        StuckOnLagGrid(c1, k, n - 1);
      }
    }
  }

  /** Pressing the level-1 button on the initial cabin and then running at
      a steady 80 ms per frame never brings the cabin to level 1, however
      many frames pass. */
  lemma NeverArrivesAtLagDelta(n: nat)
    ensures Run(AsWritten, CallFloor(InitialCabin(), 1), LAG_DELTA, n).state.currentFloor == 0
    ensures Run(AsWritten, CallFloor(InitialCabin(), 1), LAG_DELTA, n).state.y != FLOOR_HEIGHTS[1]
  {
    StuckOnLagGrid(CallFloor(InitialCabin(), 1), 0, n);
  }

  /** The same request at the same frame time does complete with the
      corrected moving branch. */
  lemma CorrectedArrivesAtLagDelta() returns (k: nat)
    ensures Run(Corrected, CallFloor(InitialCabin(), 1), LAG_DELTA, k) ==
            Cabin(ElevatorState(FLOOR_HEIGHTS[1], Idle, 1.0, 1, 1, false), None)
  {
    InitialCabinIsValidAndAtRest(0.0);
    k := Trip(Corrected, InitialCabin(), 1, LAG_DELTA);
  }
}
