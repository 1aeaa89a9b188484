/** The shared elevator record, the floor table and the record's initial value
    (components/expo/ExpoContext.tsx). */
module ExpoContext {

  /** The three values of `ElevatorStatus`. */
  datatype ElevatorStatus = Idle | Moving | DoorAction

  /** The record behind `elevatorRef`: cabin height, status, door openness
      (0 closed, 1 open), the floor the cabin is committed to, the requested
      floor, and the flag the player layer would set when riding. */
  datatype ElevatorState = ElevatorState(
    y: real,
    status: ElevatorStatus,
    doorOpenness: real,
    currentFloor: int,
    targetFloor: int,
    playerInside: bool)

  /** Heights of the ground floor and of level 1. */
  const FLOOR_HEIGHTS: seq<real> := [0.0, 7.5]

  predicate ValidFloor(i: int) {
    0 <= i < |FLOOR_HEIGHTS|
  }

  /** The value `ExpoProvider` puts into `elevatorRef`. */
  function InitialElevator(): ElevatorState {
    ElevatorState(0.0, Idle, 1.0, 0, 0, false)
  }

  /** The floor table has two entries and is strictly increasing, so distinct
      valid indices name distinct heights. */
  lemma FloorHeightsIncreasing()
    ensures |FLOOR_HEIGHTS| == 2
    ensures forall i, j :: 0 <= i < j < |FLOOR_HEIGHTS| ==> FLOOR_HEIGHTS[i] < FLOOR_HEIGHTS[j]
  {
  }

  /** The initial record is at rest on the ground floor with doors open and
      the player outside. */
  lemma InitialElevatorAtGround()
    ensures InitialElevator().y == FLOOR_HEIGHTS[InitialElevator().currentFloor]
    ensures InitialElevator().currentFloor == InitialElevator().targetFloor == 0
    ensures InitialElevator().status == Idle && InitialElevator().doorOpenness == 1.0
    ensures !InitialElevator().playerInside
  {
  }
}
