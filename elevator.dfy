/** The moving platform (LevelManagement/Elevator.cs): it waits at the
    bottom, rises to `height`, waits at the top and comes down again, each
    wait lasting `stopTime` seconds. The light turns to the slow colour
    once the bottom wait is down to its last quarter, red as the platform
    leaves and blue when it is back. Only the vertical velocity is kept;
    `dt` is Time.fixedDeltaTime and `curHeight` the platform's height above
    its start (CurHeight), both read from the engine. */
module Elevators {
  import opened Wire
  import UnityColors

  const DefaultAccelerationHeightFraction: real := 0.25
  /** The fraction of stopTime in which the slow colour shows. */
  const SlowColorTimeFraction: real := 0.25

  const GoColor: UnityColors.Color := UnityColors.Rgb(0.0, 0.5, 1.0)
  const StopColor: UnityColors.Color := UnityColors.Red
  const SlowColor: UnityColors.Color := UnityColors.Rgb(1.0, 0.5, 0.0)

  datatype State = StopBottom | Raise | StopTop | Lower

  /** The state after `state++`, and after the explicit assignments: the
      states in their cycle order. */
  function Next(s: State): State
  {
    match s
    case StopBottom => Raise
    case Raise => StopTop
    case StopTop => Lower
    case Lower => StopBottom
  }

  /** Four steps round the cycle come back to the same state, and no step
      stays put. */
  lemma CycleOfFour(s: State)
    ensures Next(s) != s && Next(Next(s)) != s && Next(Next(Next(s))) != s
    ensures Next(Next(Next(Next(s)))) == s
  {
  }

  /** Mathf.Clamp01. */
  function Clamp01(t: real): (r: real)
    ensures 0.0 <= r <= 1.0
    ensures 0.0 <= t <= 1.0 ==> r == t
    ensures t < 0.0 ==> r == 0.0
    ensures t > 1.0 ==> r == 1.0
  {
    if t < 0.0 then 0.0 else if t > 1.0 then 1.0 else t
  }

  /** Mathf.Lerp: from a to b, with the parameter clamped. */
  function Lerp(a: real, b: real, t: real): real
  {
    a + (b - a) * Clamp01(t)
  }

  lemma ProductNonNegative(x: real, y: real)
    requires x >= 0.0 && y >= 0.0
    ensures x * y >= 0.0
  {
  }

  /** A clamped interpolation stays between its ends. */
  lemma LerpBetween(a: real, b: real, t: real)
    ensures a <= b ==> a <= Lerp(a, b, t) <= b
    ensures b <= a ==> b <= Lerp(a, b, t) <= a
  {
    var u := Clamp01(t);
    var d := b - a;
    assert Lerp(a, b, t) == a + d * u;
    assert d * u == d - d * (1.0 - u);
    if d >= 0.0 {
      ProductNonNegative(d, 1.0 - u);
      ProductNonNegative(d, u);
    } else {
      ProductNonNegative(-d, 1.0 - u);
      ProductNonNegative(-d, u);
      assert (-d) * u == -(d * u) && (-d) * (1.0 - u) == -(d * (1.0 - u));
    }
  }

  function Min(a: real, b: real): real
  {
    if a <= b then a else b
  }

  /** CalculateSpeed: a quarter of the speed at the ends of the travel,
      growing to the full speed a fraction of the height away from them. */
  function CalculateSpeed(speed: real, height: real, fraction: real, curHeight: real): (v: real)
    requires fraction != 0.0 && height != 0.0
    ensures speed >= 0.0 ==> speed / 4.0 <= v <= speed
    ensures speed <= 0.0 ==> speed <= v <= speed / 4.0
    ensures var t := Min(curHeight, height - curHeight) / fraction / height;
            (t <= 0.0 ==> v == speed / 4.0) && (t >= 1.0 ==> v == speed)
  {
    var t := Min(curHeight, height - curHeight) / fraction / height;
    LerpBetween(speed / 4.0, speed, t);
    Lerp(speed / 4.0, speed, t)
  }

  class Elevator {
    const height: real
    const speed: real
    const stopTime: real
    /** Whether a light renderer was given. */
    const hasLight: bool
    var accelerationHeightFraction: real
    var state: State
    var counter: real
    /** The vertical velocity of the platform's rigidbody. */
    var velocity: real
    /** The light's colour, `None` while the elevator has not set it. */
    var light: Option<UnityColors.Color>

    /** SlowTime. */
    function SlowTime(): real
      reads this
    {
      stopTime * SlowColorTimeFraction
    }

    /** The editor's configuration, with the field initialisers. */
    constructor (height: real, speed: real, stopTime: real, accelerationHeightFraction: real, hasLight: bool)
      ensures this.height == height && this.speed == speed && this.stopTime == stopTime && this.hasLight == hasLight
      ensures this.accelerationHeightFraction == accelerationHeightFraction
      ensures state == StopBottom && counter == 0.0 && velocity == 0.0 && light.None?
    {
      this.height := height;
      this.speed := speed;
      this.stopTime := stopTime;
      this.hasLight := hasLight;
      this.accelerationHeightFraction := accelerationHeightFraction;
      state := StopBottom;
      counter := 0.0;
      velocity := 0.0;
      light := None;
    }

    /** Start: the first wait begins, and a fraction outside [0, 0.5] is
        replaced by the default. */
    method Start()
      modifies this`counter, this`accelerationHeightFraction
      ensures counter == stopTime
      ensures 0.0 <= accelerationHeightFraction <= 0.5
      ensures 0.0 <= old(accelerationHeightFraction) <= 0.5 ==>
                accelerationHeightFraction == old(accelerationHeightFraction)
      ensures !(0.0 <= old(accelerationHeightFraction) <= 0.5) ==>
                accelerationHeightFraction == DefaultAccelerationHeightFraction
    {
      counter := stopTime;
      if accelerationHeightFraction < 0.0 || accelerationHeightFraction > 0.5 {
        accelerationHeightFraction := DefaultAccelerationHeightFraction;
      }
    }

    /** SetLightColor: only when there is a light. */
    method SetLightColor(c: UnityColors.Color)
      modifies this`light
      ensures light == if hasLight then Some(c) else old(light)
    {
      if hasLight {
        light := Some(c);
      }
    }

    method FixedUpdate(dt: real, curHeight: real)
      requires (state == Raise || state == Lower) ==> accelerationHeightFraction != 0.0 && height != 0.0
      modifies this`state, this`counter, this`velocity, this`light
      ensures state == old(state) || state == Next(old(state))
      ensures old(state) == StopBottom || old(state) == StopTop ==> velocity == 0.0
      ensures old(state) == Raise ==>
                velocity == CalculateSpeed(speed, height, accelerationHeightFraction, curHeight)
      ensures old(state) == Lower ==>
                velocity == -CalculateSpeed(speed, height, accelerationHeightFraction, curHeight)
      // At the bottom, crossing SlowTime only sets the slow colour; the
      // wait ends once the counter has run out.
      ensures old(state) == StopBottom ==>
                counter == old(counter) - dt &&
                (old(counter) > SlowTime() && counter < SlowTime() ==>
                   state == StopBottom && light == (if hasLight then Some(SlowColor) else old(light))) &&
                (!(old(counter) > SlowTime() && counter < SlowTime()) && counter <= 0.0 ==>
                   state == Raise && light == (if hasLight then Some(StopColor) else old(light))) &&
                (!(old(counter) > SlowTime() && counter < SlowTime()) && counter > 0.0 ==>
                   state == StopBottom && light == old(light))
      ensures old(state) == Raise ==>
                light == old(light) &&
                (curHeight >= height ==> state == StopTop && counter == stopTime) &&
                (curHeight < height ==> state == Raise && counter == old(counter))
      ensures old(state) == StopTop ==>
                light == old(light) && counter == old(counter) - dt &&
                (state == Lower <==> counter <= 0.0)
      ensures old(state) == Lower ==>
                (curHeight <= 0.0 ==>
                   state == StopBottom && counter == stopTime &&
                   light == (if hasLight then Some(GoColor) else old(light))) &&
                (curHeight > 0.0 ==> state == Lower && counter == old(counter) && light == old(light))
    {
      match state
      case StopBottom =>
        velocity := 0.0;
        var prevCounter := counter;
        counter := counter - dt;
        if prevCounter > SlowTime() && counter < SlowTime() {
          SetLightColor(SlowColor);
        } else if counter <= 0.0 {
          SetLightColor(StopColor);
          state := Next(state);
        }
      case Raise =>
        velocity := CalculateSpeed(speed, height, accelerationHeightFraction, curHeight);
        if curHeight >= height {
          counter := stopTime;
          state := StopTop;
        }
      case StopTop =>
        velocity := 0.0;
        counter := counter - dt;
        if counter <= 0.0 {
          state := Next(state);
        }
      case Lower =>
        velocity := -CalculateSpeed(speed, height, accelerationHeightFraction, curHeight);
        if curHeight <= 0.0 {
          counter := stopTime;
          SetLightColor(GoColor);
          state := StopBottom;
        }
    }
  }
}
