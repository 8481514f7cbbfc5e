/** The drone (Racecar/Drone.cs): a colour camera with the same per-frame
    image cache as the car's camera, and a target position it flies
    towards. The starting position is static in the source, one value shared
    by every drone; here it is one `StartingPosition` object the drones
    share. */
module DroneModule {
  import opened Wire
  import opened ImageBuffers

  datatype Position = Position(x: real, y: real, z: real)

  const Origin: Position := Position(0.0, 0.0, 0.0)

  /** The static startingPosition. */
  class StartingPosition {
    var position: Position

    constructor ()
      ensures position == Origin
    {
      position := Origin;
    }
  }

  class Drone {
    const start: StartingPosition
    const droneImageRaw: array<byte>
    var isDroneImageRawValid: bool
    var mustUpdateDroneImageRaw: bool
    var targetPosition: Position

    predicate Valid()
      reads this
    {
      droneImageRaw.Length == ImageBytes
    }

    /** The field initialisers and Awake: the target starts at the shared
        starting position. */
    constructor (start: StartingPosition)
      ensures Valid() && this.start == start && fresh(droneImageRaw)
      ensures targetPosition == start.position
      ensures !isDroneImageRawValid && !mustUpdateDroneImageRaw
    {
      this.start := start;
      droneImageRaw := new byte[4 * ColorWidth * ColorHeight];
      isDroneImageRawValid := false;
      mustUpdateDroneImageRaw := false;
      targetPosition := start.position;
    }

    /** The TargetHeight setter: only the height of the target moves. */
    method SetTargetHeight(height: real)
      modifies this`targetPosition
      ensures targetPosition.y == height
      ensures targetPosition.x == old(targetPosition.x) && targetPosition.z == old(targetPosition.z)
    {
      targetPosition := Position(targetPosition.x, height, targetPosition.z);
    }

    /** Land: back to the shared starting position. */
    method Land()
      modifies this`targetPosition
      ensures targetPosition == start.position
    {
      targetPosition := start.position;
    }

    /** Start: the drone's local position becomes the starting position of
        every drone, and its own target. */
    method Start(localPosition: Position)
      modifies start, this`targetPosition
      ensures start.position == localPosition && targetPosition == localPosition
    {
      start.position := localPosition;
      targetPosition := start.position;
    }

    method UpdateDroneImageRaw(rendered: seq<byte>)
      requires Valid() && |rendered| >= ImageBytes
      modifies droneImageRaw, this`isDroneImageRawValid
      ensures isDroneImageRawValid && droneImageRaw[..] == ReversedRows(rendered)
    {
      CopyRowsReversed(rendered, droneImageRaw);
      isDroneImageRawValid := true;
    }

    /** DroneImageRaw: recomputed only when the flag is down. */
    method DroneImageRaw(rendered: seq<byte>) returns (image: array<byte>)
      requires Valid() && |rendered| >= ImageBytes
      modifies droneImageRaw, this`isDroneImageRawValid
      ensures isDroneImageRawValid && image == droneImageRaw
      ensures old(isDroneImageRawValid) ==> image[..] == old(image[..])
      ensures !old(isDroneImageRawValid) ==> image[..] == ReversedRows(rendered)
    {
      if !isDroneImageRawValid {
        UpdateDroneImageRaw(rendered);
      }
      return droneImageRaw;
    }

    method GetDroneImageRawAsync() returns (image: array<byte>)
      modifies this`mustUpdateDroneImageRaw
      ensures mustUpdateDroneImageRaw && image == droneImageRaw
    {
      mustUpdateDroneImageRaw := true;
      return droneImageRaw;
    }

    /** Update: a requested refresh, then the request cleared. The motion
        towards the target is not modelled. */
    method Update(rendered: seq<byte>)
      requires Valid() && |rendered| >= ImageBytes
      modifies droneImageRaw, this`isDroneImageRawValid, this`mustUpdateDroneImageRaw
      ensures !mustUpdateDroneImageRaw
      ensures old(mustUpdateDroneImageRaw) ==> isDroneImageRawValid && droneImageRaw[..] == ReversedRows(rendered)
      ensures !old(mustUpdateDroneImageRaw) ==>
                isDroneImageRawValid == old(isDroneImageRawValid) && droneImageRaw[..] == old(droneImageRaw[..])
    {
      if mustUpdateDroneImageRaw {
        UpdateDroneImageRaw(rendered);
        mustUpdateDroneImageRaw := false;
      }
    }

    method LateUpdate()
      modifies this`isDroneImageRawValid
      ensures !isDroneImageRawValid
    {
      isDroneImageRawValid := false;
    }
  }
}
