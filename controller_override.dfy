/** The autograder's scripted controller (Autograder/ControllerOverride.cs):
    a series of button presses, each consumed by the first WasPressed query
    for that button and released half a second later, one button held for
    the whole level, and fixed trigger and joystick values. `now` is the
    frame's Time.time. */
module ScriptedController {
  import opened Wire

  datatype Button = A | B | X | Y | LB | RB | LJOY | RJOY | START | BACK

  /** The Trigger and Joystick enums, both LEFT and RIGHT. */
  datatype Side = Left | Right

  /** How long a scripted press is held, in seconds. */
  const ButtonPressTime: real := 0.5

  /** The mutable part of the override. */
  datatype PressState = PressState(
    buttonPressIndex: nat,
    pressedButton: Option<Button>,
    pressedButtonTime: real,
    releasedButton: Option<Button>)

  /** WasPressed: the answer and the state after it. */
  function Press(presses: seq<Button>, s: PressState, b: Button, now: real): (r: (PressState, bool))
    ensures r.1 <==> s.buttonPressIndex < |presses| && presses[s.buttonPressIndex] == b
    ensures r.1 ==> r.0 == s.(buttonPressIndex := s.buttonPressIndex + 1, pressedButton := Some(b), pressedButtonTime := now)
    ensures !r.1 ==> r.0 == s
  {
    if s.buttonPressIndex < |presses| && presses[s.buttonPressIndex] == b then
      (s.(pressedButton := Some(b), pressedButtonTime := now, buttonPressIndex := s.buttonPressIndex + 1), true)
    else (s, false)
  }

  /** Update: last frame's release is forgotten, and a press held longer
      than ButtonPressTime becomes this frame's release. */
  function Release(s: PressState, now: real): (t: PressState)
    ensures t.buttonPressIndex == s.buttonPressIndex && t.pressedButtonTime == s.pressedButtonTime
    ensures s.pressedButton.Some? && now - s.pressedButtonTime > ButtonPressTime ==>
              t.releasedButton == s.pressedButton && t.pressedButton.None?
    ensures !(s.pressedButton.Some? && now - s.pressedButtonTime > ButtonPressTime) ==>
              t.releasedButton.None? && t.pressedButton == s.pressedButton
  {
    var cleared := s.(releasedButton := None);
    if cleared.pressedButton.Some? && now - cleared.pressedButtonTime > ButtonPressTime then
      cleared.(releasedButton := cleared.pressedButton, pressedButton := None)
    else cleared
  }

  /** A release is reported for one frame only: the Update after it has no
      release unless a new press was made and has run its time. */
  lemma ReleasedForOneFrame(s: PressState, now: real, later: real)
    requires s.pressedButton.Some? && now - s.pressedButtonTime > ButtonPressTime
    ensures Release(s, now).releasedButton == s.pressedButton
    ensures Release(Release(s, now), later).releasedButton.None?
  {
  }

  /** The answers of a series of WasPressed queries and the state after them. */
  function Queries(presses: seq<Button>, s: PressState, qs: seq<Button>, now: real): (r: (PressState, seq<Button>))
  {
    if qs == [] then (s, [])
    else
      var before := Queries(presses, s, qs[..|qs| - 1], now);
      var step := Press(presses, before.0, qs[|qs| - 1], now);
      (step.0, before.1 + if step.1 then [qs[|qs| - 1]] else [])
  }

  /** Scripted presses are consumed in order, each at most once: whatever
      is asked, the buttons answered true are exactly the next scripted
      presses, and the index never passes the end of the script. */
  lemma {:induction false} PressesInOrder(presses: seq<Button>, s: PressState, qs: seq<Button>, now: real)
    requires s.buttonPressIndex <= |presses|
    ensures var r := Queries(presses, s, qs, now);
            s.buttonPressIndex <= r.0.buttonPressIndex <= |presses| &&
            r.1 == presses[s.buttonPressIndex .. r.0.buttonPressIndex]
  {
    if qs != [] {
      var n := |qs| - 1;
      PressesInOrder(presses, s, qs[..n], now);
      var before := Queries(presses, s, qs[..n], now);
      if Press(presses, before.0, qs[n], now).1 {
        var i := before.0.buttonPressIndex;
        assert presses[s.buttonPressIndex .. i + 1] == presses[s.buttonPressIndex .. i] + [presses[i]];
      }
    }
  }

  class ControllerOverride {
    const buttonPresses: seq<Button>
    /** The held button, START standing for none. */
    const heldButtonUnity: Button
    const triggerValues: (real, real)
    const joystickValues: seq<(real, real)>
    var buttonPressIndex: nat
    var pressedButton: Option<Button>
    var pressedButtonTime: real
    var releasedButton: Option<Button>

    function State(): PressState
      reads this
    {
      PressState(buttonPressIndex, pressedButton, pressedButtonTime, releasedButton)
    }

    predicate Valid()
      reads this
    {
      buttonPressIndex <= |buttonPresses|
    }

    /** The editor's configuration, with the field initialisers. */
    constructor (buttonPresses: seq<Button>, heldButtonUnity: Button, triggerValues: (real, real), joystickValues: seq<(real, real)>)
      ensures Valid() && this.buttonPresses == buttonPresses && this.heldButtonUnity == heldButtonUnity
      ensures this.triggerValues == triggerValues && this.joystickValues == joystickValues
      ensures buttonPressIndex == 0 && pressedButton.None? && releasedButton.None?
    {
      this.buttonPresses := buttonPresses;
      this.heldButtonUnity := heldButtonUnity;
      this.triggerValues := triggerValues;
      this.joystickValues := joystickValues;
      buttonPressIndex := 0;
      pressedButton := None;
      pressedButtonTime := 0.0;
      releasedButton := None;
    }

    /** HeldButton: none exactly when the editor value is START. */
    function HeldButton(): (h: Option<Button>)
      reads this
      ensures h.None? <==> heldButtonUnity == START
      ensures h.Some? ==> h.value == heldButtonUnity
    {
      if heldButtonUnity == START then None else Some(heldButtonUnity)
    }

    /** IsDown: the held button, or the scripted press in progress. START
        is never down by being held. */
    function IsDown(b: Button): (down: bool)
      reads this
      ensures down <==> (b == heldButtonUnity && b != START) || pressedButton == Some(b)
    {
      Some(b) == HeldButton() || Some(b) == pressedButton
    }

    method WasPressed(b: Button, now: real) returns (pressed: bool)
      requires Valid()
      modifies this`buttonPressIndex, this`pressedButton, this`pressedButtonTime
      ensures Valid() && (State(), pressed) == Press(buttonPresses, old(State()), b, now)
    {
      if buttonPressIndex < |buttonPresses| && buttonPresses[buttonPressIndex] == b {
        pressedButton := Some(buttonPresses[buttonPressIndex]);
        pressedButtonTime := now;
        buttonPressIndex := buttonPressIndex + 1;
        return true;
      }
      return false;
    }

    function WasReleased(b: Button): (released: bool)
      reads this
      ensures released <==> releasedButton.Some? && releasedButton.value == b
    {
      Some(b) == releasedButton
    }

    /** GetTrigger: the configured value of the side. */
    function GetTrigger(t: Side): (v: real)
      reads this
      ensures t == Left ==> v == triggerValues.0
      ensures t == Right ==> v == triggerValues.1
    {
      if t == Left then triggerValues.0 else triggerValues.1
    }

    /** GetJoystick: the configured value of the side; `None` where the
        configured table is too short and the lookup throws. */
    function GetJoystick(j: Side): (v: Option<(real, real)>)
      reads this
      ensures v.Some? <==> (if j == Left then 0 else 1) < |joystickValues|
      ensures v.Some? ==> v.value == joystickValues[if j == Left then 0 else 1]
    {
      var i := if j == Left then 0 else 1;
      if i < |joystickValues| then Some(joystickValues[i]) else None
    }

    method Update(now: real)
      modifies this`pressedButton, this`releasedButton
      ensures State() == Release(old(State()), now)
    {
      if releasedButton.Some? {
        releasedButton := None;
      }
      if pressedButton.Some? && now - pressedButtonTime > ButtonPressTime {
        releasedButton := pressedButton;
        pressedButton := None;
      }
    }
  }
}
