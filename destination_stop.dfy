/** The park-and-hold task (Autograder/DestinationStop.cs): the car must stay
    below a stop speed inside the region for a second. `startTime` is when
    the current stop began, float.MaxValue while the car is moving, and the
    region's opacity grows from a quarter to full over the stop. The
    physics queries are inputs: whether the collider belongs to a car, its
    speed, and the frame's Time.time. */
module ParkingTask {
  import opened Wire

  const StopDuration: real := 1.0
  const MinAlpha: real := 0.25

  /** The opacity after stopping for max(now - startTime, 0), capped at 1. */
  function Alpha(startTime: real, now: real): (a: real)
    ensures MinAlpha <= a <= 1.0
    ensures now <= startTime ==> a == MinAlpha
    ensures a == 1.0 <==> now - startTime >= StopDuration
  {
    var timeStopped := if now - startTime > 0.0 then now - startTime else 0.0;
    var grown := MinAlpha + (1.0 - MinAlpha) * (timeStopped / StopDuration);
    if grown < 1.0 then grown else 1.0
  }

  /** With the stop still to begin, the region shows the minimum opacity. */
  lemma MovingCarShowsMinAlpha(now: real)
    requires now < FloatMaxValue
    ensures Alpha(FloatMaxValue, now) == MinAlpha
  {
  }

  class DestinationStop {
    const maxStopSpeed: real
    var startTime: real
    /** The alpha of the region's material. */
    var alpha: real

    constructor (maxStopSpeed: real)
      ensures this.maxStopSpeed == maxStopSpeed && startTime == FloatMaxValue
    {
      this.maxStopSpeed := maxStopSpeed;
      startTime := FloatMaxValue;
      alpha := MinAlpha;
    }

    /** OnTriggerStay; `complete` says whether CompleteTask was called. */
    method OnTriggerStay(isCar: bool, speed: real, now: real) returns (complete: bool)
      modifies this`startTime, this`alpha
      ensures !isCar ==> !complete && startTime == old(startTime) && alpha == old(alpha)
      ensures isCar && speed < maxStopSpeed ==> startTime == (if old(startTime) <= now then old(startTime) else now)
      ensures isCar && speed >= maxStopSpeed ==> startTime == FloatMaxValue
      ensures complete <==> isCar && speed < maxStopSpeed && now - startTime >= StopDuration
      ensures isCar ==> alpha == Alpha(startTime, now)
      ensures complete ==> alpha == 1.0
    {
      complete := false;
      if isCar {
        if speed < maxStopSpeed {
          startTime := if startTime <= now then startTime else now;
          if now - startTime >= StopDuration {
            complete := true;
          }
        } else {
          startTime := FloatMaxValue;
        }
        alpha := Alpha(startTime, now);
      }
    }
  }
}
