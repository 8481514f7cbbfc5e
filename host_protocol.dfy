/** The host's side of the lockstep UDP protocol (PythonInterface.cs): the
    tag table, the version handshake, the table of connected client endpoints
    and the values the per-frame dispatcher computes. Everything here is a
    pure function of its inputs; the class that mutates the endpoint table
    and drives the exchange is in host_interface.dfy. */
module HostProtocol {
  import opened Wire

  /** The host's tag table, in declaration order (tag = position). */
  datatype Header =
    | Error | Connect | UnityStart | UnityUpdate | UnityExit
    | PythonFinished | PythonSendNext | PythonExit
    | RacecarGo | RacecarSetStartUpdate | RacecarGetDeltaTime | RacecarSetUpdateSlowTime
    | CameraGetColorImage | CameraGetDepthImage | CameraGetWidth | CameraGetHeight
    | ControllerIsDown | ControllerWasPressed | ControllerWasReleased
    | ControllerGetTrigger | ControllerGetJoystick
    | DisplayShowImage
    | DriveSetSpeedAngle | DriveStop | DriveSetMaxSpeed
    | LidarGetNumSamples | LidarGetSamples
    | PhysicsGetLinearAcceleration | PhysicsGetAngularVelocity

  /** The number of tags. */
  const HeaderCount: nat := 29

  /** The byte a tag is sent as: its position in the enumeration, which
      the cast reads back as the same tag. */
  function Code(h: Header): (b: byte)
    ensures b < HeaderCount && FromCode(b) == Some(h)
  {
    match h
    case Error => 0
    case Connect => 1
    case UnityStart => 2
    case UnityUpdate => 3
    case UnityExit => 4
    case PythonFinished => 5
    case PythonSendNext => 6
    case PythonExit => 7
    case RacecarGo => 8
    case RacecarSetStartUpdate => 9
    case RacecarGetDeltaTime => 10
    case RacecarSetUpdateSlowTime => 11
    case CameraGetColorImage => 12
    case CameraGetDepthImage => 13
    case CameraGetWidth => 14
    case CameraGetHeight => 15
    case ControllerIsDown => 16
    case ControllerWasPressed => 17
    case ControllerWasReleased => 18
    case ControllerGetTrigger => 19
    case ControllerGetJoystick => 20
    case DisplayShowImage => 21
    case DriveSetSpeedAngle => 22
    case DriveStop => 23
    case DriveSetMaxSpeed => 24
    case LidarGetNumSamples => 25
    case LidarGetSamples => 26
    case PhysicsGetLinearAcceleration => 27
    case PhysicsGetAngularVelocity => 28
  }

  /** The cast `(Header)data[0]`: a byte past the last tag is a value no
      `case` names, so it reaches the `default` branch. */
  function FromCode(b: byte): (h: Option<Header>)
    ensures h.Some? <==> b < HeaderCount
  {
    match b
    case 0 => Some(Error)
    case 1 => Some(Connect)
    case 2 => Some(UnityStart)
    case 3 => Some(UnityUpdate)
    case 4 => Some(UnityExit)
    case 5 => Some(PythonFinished)
    case 6 => Some(PythonSendNext)
    case 7 => Some(PythonExit)
    case 8 => Some(RacecarGo)
    case 9 => Some(RacecarSetStartUpdate)
    case 10 => Some(RacecarGetDeltaTime)
    case 11 => Some(RacecarSetUpdateSlowTime)
    case 12 => Some(CameraGetColorImage)
    case 13 => Some(CameraGetDepthImage)
    case 14 => Some(CameraGetWidth)
    case 15 => Some(CameraGetHeight)
    case 16 => Some(ControllerIsDown)
    case 17 => Some(ControllerWasPressed)
    case 18 => Some(ControllerWasReleased)
    case 19 => Some(ControllerGetTrigger)
    case 20 => Some(ControllerGetJoystick)
    case 21 => Some(DisplayShowImage)
    case 22 => Some(DriveSetSpeedAngle)
    case 23 => Some(DriveStop)
    case 24 => Some(DriveSetMaxSpeed)
    case 25 => Some(LidarGetNumSamples)
    case 26 => Some(LidarGetSamples)
    case 27 => Some(PhysicsGetLinearAcceleration)
    case 28 => Some(PhysicsGetAngularVelocity)
    case _ => None
  }

  /** A byte the cast reads as a tag is that tag's code. */
  lemma FromCodeRoundTrip(b: byte)
    requires FromCode(b).Some?
    ensures Code(FromCode(b).value) == b
  {
  }

  /** The table gives 29 distinct tags. */
  lemma CodesDistinct(h1: Header, h2: Header)
    ensures Code(h1) == Code(h2) <==> h1 == h2
  {
  }

  /** The host's error codes, in declaration order. */
  datatype ErrorCode =
    | Generic | Timeout | PythonException | NoFreeCar
    | PythonOutdated | RacecarsimOutdated | FragmentMismatch

  function ErrorByte(e: ErrorCode): byte
  {
    match e
    case Generic => 0
    case Timeout => 1
    case PythonException => 2
    case NoFreeCar => 3
    case PythonOutdated => 4
    case RacecarsimOutdated => 5
    case FragmentMismatch => 6
  }

  // ---------------------------------------------------------------------
  // Version handshake (the `connect` branch of the async listener)

  /** The protocol version this host speaks. */
  const Version: byte := 1

  /** The version a `connect` datagram announces: its second byte, or 0
      when the datagram is the bare tag. */
  function AnnouncedVersion(data: seq<byte>): (v: byte)
    requires |data| >= 1
    ensures |data| == 1 ==> v == 0
    ensures |data| > 1 ==> v == data[1]
  {
    if |data| > 1 then data[1] else 0
  }

  /** The reply to a `connect` datagram, given the slot that connecting to
      the table produced (only consulted when the versions agree). The slot
      index is narrowed to a byte, as the `(byte)index` cast does. */
  function HandshakeReply(data: seq<byte>, slot: Option<nat>): (reply: seq<byte>)
    requires |data| >= 1
    ensures |reply| == 2
    ensures AnnouncedVersion(data) == Version && slot.Some? ==>
              reply == [Code(Connect), slot.value % 256]
    ensures AnnouncedVersion(data) == Version && slot.None? ==>
              reply == [Code(Error), ErrorByte(NoFreeCar)]
    ensures AnnouncedVersion(data) < Version ==> reply == [Code(Error), ErrorByte(PythonOutdated)]
    ensures AnnouncedVersion(data) > Version ==> reply == [Code(Error), ErrorByte(RacecarsimOutdated)]
  {
    var v := AnnouncedVersion(data);
    if v == Version then
      (if slot.Some? then [Code(Connect), slot.value % 256] else [Code(Error), ErrorByte(NoFreeCar)])
    else if Version > v then [Code(Error), ErrorByte(PythonOutdated)]
    else [Code(Error), ErrorByte(RacecarsimOutdated)]
  }

  /** The whole `connect` branch: a matching version connects the sender's
      port, any other version leaves the table alone. */
  function Handshake(data: seq<byte>, eps: seq<Option<Port>>, port: Port, cap: nat)
    : (r: (seq<byte>, seq<Option<Port>>))
    requires |data| >= 1
    ensures AnnouncedVersion(data) != Version ==> r.1 == eps
    ensures AnnouncedVersion(data) == Version ==> r == (HandshakeReply(data, ConnectClient(eps, port, cap).1), ConnectClient(eps, port, cap).0)
  {
    if AnnouncedVersion(data) == Version then
      var c := ConnectClient(eps, port, cap);
      (HandshakeReply(data, c.1), c.0)
    else (HandshakeReply(data, None), eps)
  }

  /** Only a client announcing version 1 is ever connected; one with a full
      table is told there is no free car. */
  lemma HandshakeOutcomes(data: seq<byte>, eps: seq<Option<Port>>, port: Port, cap: nat)
    requires |data| >= 1
    ensures Handshake(data, eps, port, cap).0[0] == Code(Connect) <==>
              AnnouncedVersion(data) == Version && ConnectClient(eps, port, cap).1.Some?
    ensures Handshake(data, eps, port, cap).0 == [Code(Error), ErrorByte(NoFreeCar)] <==>
              AnnouncedVersion(data) == Version && ConnectClient(eps, port, cap).1.None?
  {
  }

  // ---------------------------------------------------------------------
  // The endpoint table: one slot per car, `None` for a car with no client

  type Port = nat

  /** The lowest-index empty slot, if any. */
  function FirstNull(eps: seq<Option<Port>>): (r: Option<nat>)
    ensures r.Some? ==> r.value < |eps| && eps[r.value].None?
    ensures r.Some? ==> forall j :: 0 <= j < r.value ==> eps[j].Some?
    ensures r.None? ==> forall j :: 0 <= j < |eps| ==> eps[j].Some?
  {
    if eps == [] then None
    else if eps[0].None? then Some(0)
    else
      var r := FirstNull(eps[1..]);
      if r.Some? then Some(r.value + 1) else None
  }

  /** ConnectSyncClient on the table: the new endpoint takes the lowest empty
      slot, or is appended while the table has fewer than `cap` slots, or is
      refused with the table unchanged. */
  function ConnectClient(eps: seq<Option<Port>>, port: Port, cap: nat): (r: (seq<Option<Port>>, Option<nat>))
    ensures r.1.Some? ==> r.1.value < |r.0| && r.0[r.1.value] == Some(port)
    ensures r.1.Some? ==> forall j :: 0 <= j < |r.0| && j != r.1.value ==> j < |eps| && r.0[j] == eps[j]
    ensures r.1.Some? && r.1.value < |eps| ==>
              eps[r.1.value].None? && |r.0| == |eps| &&
              forall j :: 0 <= j < r.1.value ==> eps[j].Some?
    ensures r.1.Some? && r.1.value >= |eps| ==>
              r.1.value == |eps| < cap && |r.0| == |eps| + 1 &&
              forall j :: 0 <= j < |eps| ==> eps[j].Some?
    ensures r.1.None? <==> (forall j :: 0 <= j < |eps| ==> eps[j].Some?) && |eps| >= cap
    ensures r.1.None? ==> r.0 == eps
  {
    match FirstNull(eps)
    case Some(i) => (eps[i := Some(port)], Some(i))
    case None =>
      if |eps| < cap then (eps + [Some(port)], Some(|eps|)) else (eps, None)
  }

  /** The first slot holding `port`, if any. */
  function FirstWithPort(eps: seq<Option<Port>>, port: Port): (r: Option<nat>)
    ensures r.Some? ==> r.value < |eps| && eps[r.value] == Some(port)
    ensures r.Some? ==> forall j :: 0 <= j < r.value ==> eps[j] != Some(port)
    ensures r.None? ==> forall j :: 0 <= j < |eps| ==> eps[j] != Some(port)
  {
    if eps == [] then None
    else if eps[0] == Some(port) then Some(0)
    else
      var r := FirstWithPort(eps[1..], port);
      if r.Some? then Some(r.value + 1) else None
  }

  /** Drops the empty slots at the end of the table. */
  function TrimTrailing(eps: seq<Option<Port>>): (r: seq<Option<Port>>)
    ensures |r| <= |eps| && r == eps[..|r|]
    ensures r == [] || r[|r| - 1].Some?
    ensures forall j :: |r| <= j < |eps| ==> eps[j].None?
  {
    if eps != [] && eps[|eps| - 1].None? then TrimTrailing(eps[..|eps| - 1]) else eps
  }

  /** RemoveSyncClient on the table: the first slot with `port` is emptied
      (the returned index names the car whose drive is stopped), then the
      trailing empty slots are dropped. */
  function RemoveClient(eps: seq<Option<Port>>, port: Port): (r: (seq<Option<Port>>, Option<nat>))
    ensures r.1 == FirstWithPort(eps, port)
    ensures r.0 == [] || r.0[|r.0| - 1].Some?
    ensures OnlyEmptied(eps, r.0)
    ensures r.1.Some? && r.1.value < |r.0| ==> r.0[r.1.value].None?
  {
    var k := FirstWithPort(eps, port);
    TrimNulled(eps, k);
    (TrimTrailing(if k.Some? then eps[k.value := None] else eps), k)
  }

  /** Every other occupied slot keeps its place and its endpoint. */
  lemma RemoveKeepsOthers(eps: seq<Option<Port>>, port: Port)
    ensures var r := RemoveClient(eps, port);
            forall j :: 0 <= j < |eps| && eps[j].Some? && Some(j) != r.1 ==> j < |r.0| && r.0[j] == eps[j]
  {
    TrimNulled(eps, FirstWithPort(eps, port));
  }

  /** Emptying slot k (if any) and trimming keeps every other occupied slot
      in place and leaves slot k empty or dropped. */
  lemma TrimNulled(eps: seq<Option<Port>>, k: Option<nat>)
    requires k.Some? ==> k.value < |eps|
    ensures var t := TrimTrailing(if k.Some? then eps[k.value := None] else eps);
            (forall j :: 0 <= j < |eps| && eps[j].Some? && Some(j) != k ==> j < |t| && t[j] == eps[j]) &&
            (forall j :: 0 <= j < |t| ==> t[j] == eps[j] || Some(j) == k) &&
            (k.Some? && k.value < |t| ==> t[k.value].None?)
  {
    var nulled := if k.Some? then eps[k.value := None] else eps;
    assert forall j :: 0 <= j < |eps| && Some(j) != k ==> nulled[j] == eps[j];
    var t := TrimTrailing(nulled);
    assert forall j :: 0 <= j < |nulled| && nulled[j].Some? ==> j < |t|;
  }

  /** The table only ever loses endpoints while the host serves a frame:
      it gets shorter or empties slots, and never changes an occupied slot. */
  ghost predicate OnlyEmptied(a: seq<Option<Port>>, b: seq<Option<Port>>)
  {
    |b| <= |a| && forall j :: 0 <= j < |b| ==> b[j] == a[j] || b[j].None?
  }

  lemma OnlyEmptiedTransitive(a: seq<Option<Port>>, b: seq<Option<Port>>, c: seq<Option<Port>>)
    requires OnlyEmptied(a, b) && OnlyEmptied(b, c)
    ensures OnlyEmptied(a, c)
  {
  }

  /** The indices of the occupied slots, in increasing order. */
  function Occupied(eps: seq<Option<Port>>): (r: seq<nat>)
    ensures forall k :: 0 <= k < |r| ==> r[k] < |eps| && eps[r[k]].Some?
    ensures forall j :: 0 <= j < |eps| && eps[j].Some? ==> j in r
    ensures forall k, l :: 0 <= k < l < |r| ==> r[k] < r[l]
  {
    if eps == [] then []
    else
      var init := Occupied(eps[..|eps| - 1]);
      if eps[|eps| - 1].Some? then init + [|eps| - 1] else init
  }

  // ---------------------------------------------------------------------
  // What the host sends and what it does to the cars

  /** What a datagram is for. The wire does not carry this; the model keeps
      it so that properties can speak of event headers and chunks. */
  datatype Kind = EventHeader | Reply | Chunk | ErrorNotice | ExitNotice

  datatype Datagram = Datagram(port: Port, data: seq<byte>, kind: Kind)

  /** One datagram to each occupied slot, in slot order. */
  function Notices(eps: seq<Option<Port>>, data: seq<byte>, kind: Kind): (r: seq<Datagram>)
    ensures |r| == |Occupied(eps)|
    ensures forall k :: 0 <= k < |r| ==> r[k] == Datagram(eps[Occupied(eps)[k]].value, data, kind)
  {
    if eps == [] then []
    else
      var init := Notices(eps[..|eps| - 1], data, kind);
      if eps[|eps| - 1].Some? then init + [Datagram(eps[|eps| - 1].value, data, kind)] else init
  }

  /** One more entry of the table adds at most its own notice. */
  lemma NoticesStep(eps: seq<Option<Port>>, i: nat, data: seq<byte>, kind: Kind)
    requires i < |eps|
    ensures Notices(eps[..i + 1], data, kind) ==
              Notices(eps[..i], data, kind) + if eps[i].Some? then [Datagram(eps[i].value, data, kind)] else []
  {
    assert eps[..i + 1][..i] == eps[..i];
  }

  /** Commands the dispatcher gives a car's drive; floats stay as words. */
  datatype DriveCmd =
    | SetSpeed(car: nat, speed: Word)
    | SetAngle(car: nat, angle: Word)
    | Stop(car: nat)
    | SetMaxSpeed(car: nat, maxSpeed: Word)

  /** The sensor state of one car during the frame being served. */
  datatype Vec3 = Vec3(x: Word, y: Word, z: Word)

  type Sweep = s: seq<Word> | |s| == 720 witness seq<Word>(720, i => ZeroWord)

  datatype Car = Car(
    colorImage: seq<byte>,
    depthImage: seq<byte>,
    lidar: Sweep,
    linearAcceleration: Vec3,
    angularVelocity: Vec3)

  /** Everything the dispatcher reads from the engine during one frame:
      frame time, the cars' sensors, the level mode and the controller. */
  datatype World = World(
    deltaTime: Word,
    cars: nat -> Car,
    raceMode: bool,
    cheatMode: bool,
    isDown: byte -> bool,
    wasPressed: byte -> bool,
    wasReleased: byte -> bool,
    trigger: byte -> Word,
    joystick: byte -> (Word, Word))

  /** Whether controller queries get live values: always outside race
      mode, and in race mode only with cheat mode on. */
  function SendsController(w: World): (b: bool)
    ensures !w.raceMode ==> b
    ensures w.cheatMode ==> b
    ensures w.raceMode && !w.cheatMode ==> !b
  {
    !w.raceMode || w.cheatMode
  }

  function BoolBytes(b: bool): (r: seq<byte>)
    ensures |r| == 1 && (r[0] == 1 <==> b) && (r[0] == 0 <==> !b)
  {
    if b then [1] else [0]
  }

  function Vec3Bytes(v: Vec3): (r: seq<byte>)
    ensures |r| == 12 && r[..4] == v.x && r[4..8] == v.y && r[8..] == v.z
  {
    v.x + v.y + v.z
  }

  /** How one request ends the host's turn. */
  datatype Turn = Continue | Finished | Aborted

  /** The effect of a request whose handler has no state of its own: the
      reply datagram (if any), drive commands, and whether serving goes on. */
  datatype Answer = Answer(reply: Option<seq<byte>>, cmds: seq<DriveCmd>, turn: Turn)

  /** The stateless handlers of the dispatch `switch`, for a request of car
      `i` whose first byte decoded to `h`. A handler that reads past the end
      of a short datagram throws (`Aborted`), after any assignment it has
      already made. Tags with no handler end the turn. The `error`,
      `python_finished`, `python_exit` and colour-image tags are served by
      the dispatcher itself and never reach this function. */
  function Respond(h: Option<Header>, data: seq<byte>, i: nat, w: World): (a: Answer)
    requires |data| >= 1
    ensures a.turn == Continue ==> a.reply.Some? || |a.cmds| > 0
    ensures a.reply.Some? ==> a.turn == Continue && a.cmds == []
  {
    var car := w.cars(i);
    var send := SendsController(w);
    match h
    case Some(RacecarGetDeltaTime) => Answer(Some(w.deltaTime), [], Continue)
    case Some(CameraGetDepthImage) => Answer(Some(car.depthImage), [], Continue)
    case Some(CameraGetWidth) => Answer(Option<seq<byte>>.Some(Int32LE(640)), [], Continue)
    case Some(CameraGetHeight) => Answer(Some(Int32LE(480)), [], Continue)
    case Some(ControllerIsDown) =>
      if |data| < 2 then Answer(None, [], Aborted)
      else Answer(Some(BoolBytes(w.isDown(data[1]) && send)), [], Continue)
    case Some(ControllerWasPressed) =>
      if |data| < 2 then Answer(None, [], Aborted)
      else Answer(Some(BoolBytes(w.wasPressed(data[1]) && send)), [], Continue)
    case Some(ControllerWasReleased) =>
      if |data| < 2 then Answer(None, [], Aborted)
      else Answer(Some(BoolBytes(w.wasReleased(data[1]) && send)), [], Continue)
    case Some(ControllerGetTrigger) =>
      if |data| < 2 then Answer(None, [], Aborted)
      else Answer(Some(if send then w.trigger(data[1]) else ZeroWord), [], Continue)
    case Some(ControllerGetJoystick) =>
      if |data| < 2 then Answer(None, [], Aborted)
      else
        var j := if send then w.joystick(data[1]) else (ZeroWord, ZeroWord);
        var first: seq<byte> := j.0;
        var bs := first + j.1;
        Answer(Some(bs), [], Continue)
    case Some(DriveSetSpeedAngle) =>
      if |data| < 8 then Answer(None, [], Aborted)
      else if |data| < 12 then Answer(None, [SetSpeed(i, data[4..8])], Aborted)
      else Answer(None, [SetSpeed(i, data[4..8]), SetAngle(i, data[8..12])], Continue)
    case Some(DriveStop) => Answer(None, [Stop(i)], Continue)
    case Some(DriveSetMaxSpeed) =>
      if |data| < 8 then Answer(None, [], Aborted)
      else Answer(None, [SetMaxSpeed(i, data[4..8])], Continue)
    case Some(LidarGetNumSamples) => Answer(Some(Int32LE(720)), [], Continue)
    case Some(LidarGetSamples) => Answer(Some(Flatten(car.lidar)), [], Continue)
    case Some(PhysicsGetLinearAcceleration) => Answer(Some(Vec3Bytes(car.linearAcceleration)), [], Continue)
    case Some(PhysicsGetAngularVelocity) => Answer(Some(Vec3Bytes(car.angularVelocity)), [], Continue)
    case _ => Answer(None, [], Finished)
  }

  /** The drive handlers never reply: they read their floats at byte
      offsets 4 and 8 and hand them to the car's drive. */
  lemma DriveHandlersDoNotReply(data: seq<byte>, i: nat, w: World)
    requires |data| >= 12
    ensures Respond(Some(DriveSetSpeedAngle), data, i, w)
              == Answer(None, [SetSpeed(i, data[4..8]), SetAngle(i, data[8..12])], Continue)
    ensures Respond(Some(DriveStop), data, i, w) == Answer(None, [Stop(i)], Continue)
    ensures Respond(Some(DriveSetMaxSpeed), data, i, w) == Answer(None, [SetMaxSpeed(i, data[4..8])], Continue)
  {
  }

  /** In race mode without cheats every controller answer is the neutral one:
      false, false, false, 0 and (0, 0); otherwise it is the live value. */
  lemma ControllerAnswers(data: seq<byte>, i: nat, w: World)
    requires |data| >= 2
    ensures !SendsController(w) ==>
              Respond(Some(ControllerIsDown), data, i, w).reply == Some([0]) &&
              Respond(Some(ControllerWasPressed), data, i, w).reply == Some([0]) &&
              Respond(Some(ControllerWasReleased), data, i, w).reply == Some([0]) &&
              Respond(Some(ControllerGetTrigger), data, i, w).reply == Option<seq<byte>>.Some(ZeroWord) &&
              Respond(Some(ControllerGetJoystick), data, i, w).reply == Some(ZeroWord + ZeroWord)
    ensures SendsController(w) ==>
              Respond(Some(ControllerIsDown), data, i, w).reply == Some(BoolBytes(w.isDown(data[1]))) &&
              Respond(Some(ControllerGetTrigger), data, i, w).reply == Option<seq<byte>>.Some(w.trigger(data[1])) &&
              Respond(Some(ControllerGetJoystick), data, i, w).reply ==
                Some(w.joystick(data[1]).0 + w.joystick(data[1]).1)
  {
  }

  /** Replies have the sizes the client's decoders expect: 1-byte booleans,
      4-byte floats, 8-byte joystick pairs; and for the sensors 4-byte
      floats, 12-byte vectors and 2880 bytes of lidar samples. */
  lemma ControllerReplySizes(data: seq<byte>, i: nat, w: World)
    requires |data| >= 2
    ensures |Respond(Some(ControllerIsDown), data, i, w).reply.value| == 1
    ensures |Respond(Some(ControllerGetTrigger), data, i, w).reply.value| == 4
    ensures |Respond(Some(ControllerGetJoystick), data, i, w).reply.value| == 8
  {
  }

  lemma SensorReplySizes(data: seq<byte>, i: nat, w: World)
    requires |data| >= 1
    ensures |Respond(Some(RacecarGetDeltaTime), data, i, w).reply.value| == 4
    ensures |Respond(Some(LidarGetSamples), data, i, w).reply.value| == 2880
    ensures |Respond(Some(PhysicsGetLinearAcceleration), data, i, w).reply.value| == 12
  {
  }

  /** The fixed integers go out as little-endian 32-bit words:
      640 and 480 for the camera, 720 for the lidar. */
  lemma FixedReplies(data: seq<byte>, i: nat, w: World)
    requires |data| >= 1
    ensures Respond(Some(CameraGetWidth), data, i, w).reply == Some([128, 2, 0, 0])
    ensures Respond(Some(CameraGetHeight), data, i, w).reply == Some([224, 1, 0, 0])
    ensures Respond(Some(LidarGetNumSamples), data, i, w).reply == Some([208, 2, 0, 0])
  {
    assert Int32LE(640) == [128, 2, 0, 0];
    assert Int32LE(480) == [224, 1, 0, 0];
    assert Int32LE(720) == [208, 2, 0, 0];
  }

  // ---------------------------------------------------------------------
  // The state the dispatcher works on, and its specification

  /** What one receive returns: a datagram, a timeout, or another socket error. */
  datatype Recv = Packet(data: seq<byte>) | TimedOut | SocketFailure

  /** The dispatcher's state: the endpoint table, the datagrams still to
      arrive (an exhausted inbox is a receive that times out), the datagrams
      sent, the drive commands given and the error codes reported to the level. */
  datatype Link = Link(
    endPoints: seq<Option<Port>>,
    inbox: seq<Recv>,
    sent: seq<Datagram>,
    drive: seq<DriveCmd>,
    reported: seq<byte>)

  /** `udpClient.Send`: one datagram appended to the log; nothing else
      changes. */
  function Send(st: Link, port: Port, data: seq<byte>, kind: Kind): (r: Link)
    ensures r.sent == st.sent + [Datagram(port, data, kind)]
    ensures r.endPoints == st.endPoints && r.inbox == st.inbox && r.drive == st.drive && r.reported == st.reported
  {
    st.(sent := st.sent + [Datagram(port, data, kind)])
  }

  /** HandleError: a datagram of LENGTH 1 (the error tag, without the code)
      to every occupied slot, the code reported, the table emptied. */
  function Errored(st: Link, code: byte): (r: Link)
    ensures r.endPoints == [] && r.inbox == st.inbox && r.drive == st.drive
    ensures r.reported == st.reported + [code]
    ensures r.sent == st.sent + Notices(st.endPoints, [Code(Error)], ErrorNotice)
  {
    st.(sent := st.sent + Notices(st.endPoints, [Code(Error)], ErrorNotice),
        reported := st.reported + [code],
        endPoints := [])
  }

  /** RemoveSyncClient: the table update, and a stop for the removed car. */
  function Removed(st: Link, port: Port): (r: Link)
    ensures r.endPoints == RemoveClient(st.endPoints, port).0
    ensures r.inbox == st.inbox && r.sent == st.sent && r.reported == st.reported
  {
    var rm := RemoveClient(st.endPoints, port);
    st.(endPoints := rm.0, drive := st.drive + if rm.1.Some? then [Stop(rm.1.value)] else [])
  }

  /** Removed, spelled out: the first slot with the port emptied, the
      table trimmed, and a stop for that slot's car. */
  lemma RemovedFirst(st: Link, port: Port, k: Option<nat>)
    requires k == FirstWithPort(st.endPoints, port)
    ensures k.Some? ==> k.value < |st.endPoints|
    ensures Removed(st, port) ==
              st.(endPoints := TrimTrailing(if k.Some? then st.endPoints[k.value := None] else st.endPoints),
                  drive := st.drive + if k.Some? then [Stop(k.value)] else [])
  {
  }

  /** SafeRecieve: the next datagram, or `None` after reporting a timeout
      (also when no datagram is left) or another socket error. */
  function Receive(st: Link): (r: (Link, Option<seq<byte>>))
    ensures r.1.Some? ==> st.inbox != [] && r.0 == st.(inbox := st.inbox[1..])
    ensures |r.0.inbox| <= |st.inbox|
    ensures st.sent <= r.0.sent
    ensures r.1.None? ==> r.0.endPoints == []
    ensures st.inbox == [] ==> r == (Errored(st, ErrorByte(Timeout)), None)
    ensures st.inbox != [] && st.inbox[0].Packet? ==> r.1 == Some(st.inbox[0].data)
    ensures st.inbox != [] && st.inbox[0] == TimedOut ==>
              r == (Errored(st.(inbox := st.inbox[1..]), ErrorByte(Timeout)), None)
    ensures st.inbox != [] && st.inbox[0] == SocketFailure ==>
              r == (Errored(st.(inbox := st.inbox[1..]), ErrorByte(Generic)), None)
  {
    if st.inbox == [] then (Errored(st, ErrorByte(Timeout)), None)
    else
      var rest := st.(inbox := st.inbox[1..]);
      match st.inbox[0]
      case Packet(d) => (rest, Some(d))
      case TimedOut => (Errored(rest, ErrorByte(Timeout)), None)
      case SocketFailure => (Errored(rest, ErrorByte(Generic)), None)
  }

  lemma {:induction false} MulMonotone(a: nat, c: nat, b: nat)
    requires a <= c
    ensures a * b <= c * b
    decreases c - a
  {
    if a < c {
      MulMonotone(a + 1, c, b);
      assert (a + 1) * b == a * b + b;
    }
  }

  lemma ChunkBounds(i: nat, n: nat, len: nat)
    requires i < n
    ensures 0 <= i * (len / n) && i * (len / n) + len / n <= len
  {
    var b := len / n;
    MulMonotone(i + 1, n, b);
    assert (i + 1) * b == i * b + b;
    assert n * b <= len;
  }

  /** Chunk `i` of `n` equal chunks: with b = |bytes| / n, bytes [i*b, i*b + b). */
  function ChunkData(bytes: seq<byte>, n: nat, i: nat): (c: seq<byte>)
    requires 0 < n && i < n
    ensures |c| == |bytes| / n
  {
    ChunkBounds(i, n, |bytes|);
    bytes[i * (|bytes| / n) .. i * (|bytes| / n) + |bytes| / n]
  }

  /** How a fragmented send ends: every chunk acknowledged; the client
      exited or went out of step (the method returns false); or an exception
      (the receive failed and its null result was dereferenced, or the ack
      was empty). */
  datatype Delivery = Delivered | Stopped | Thrown

  /** Chunk `i` of a fragmented send, with b = |bytes| / n: bytes
      [i*b, i*b + b) go out, then one acknowledgement is received. `None`
      means the ack asked for the next chunk; otherwise the send ends. */
  function ChunkStep(st: Link, bytes: seq<byte>, n: nat, i: nat, port: Port): (r: (Link, Option<Delivery>))
    requires 0 < n && i < n
    ensures |r.0.inbox| <= |st.inbox|
    ensures st.sent <= r.0.sent
    ensures OnlyEmptied(st.endPoints, r.0.endPoints)
  {
    var st1 := Send(st, port, ChunkData(bytes, n, i), Chunk);
    var (st2, ack) := Receive(st1);
    if ack.None? || |ack.value| == 0 then (st2, Some(Thrown))
    else if ack.value[0] == Code(PythonSendNext) then (st2, None)
    else if ack.value[0] == Code(PythonExit) then (Removed(st2, port), Some(Stopped))
    else (Errored(st2, ErrorByte(FragmentMismatch)), Some(Stopped))
  }

  /** SendFragmented from chunk `i` on: one ChunkStep per chunk until an
      acknowledgement ends the send or every chunk has been acknowledged. */
  function Fragments(st: Link, bytes: seq<byte>, n: nat, i: nat, port: Port): (r: (Link, Delivery))
    requires 0 < n && i <= n
    ensures |r.0.inbox| <= |st.inbox|
    ensures st.sent <= r.0.sent
    ensures OnlyEmptied(st.endPoints, r.0.endPoints)
    decreases n - i
  {
    if i == n then (st, Delivered)
    else
      var (st1, d) := ChunkStep(st, bytes, n, i, port);
      if d.Some? then (st1, d.value)
      else
        var r := Fragments(st1, bytes, n, i + 1, port);
        OnlyEmptiedTransitive(st.endPoints, st1.endPoints, r.0.endPoints);
        r
  }

  /** The Answer of a stateless handler applied to the state. */
  function Apply(st: Link, port: Port, a: Answer): (r: Link)
  {
    var st1 := st.(drive := st.drive + a.cmds);
    if a.reply.Some? then Send(st1, port, a.reply.value, Reply) else st1
  }

  /** The colour image always goes out in this many chunks. */
  const ColorImagePackets: nat := 32

  /** One request of car `i` (whose client is at `port`), served. */
  function Serve1(st: Link, i: nat, port: Port, data: seq<byte>, w: World): (r: (Link, Turn))
    ensures |r.0.inbox| <= |st.inbox|
    ensures st.sent <= r.0.sent
    ensures OnlyEmptied(st.endPoints, r.0.endPoints)
  {
    if |data| == 0 then (st, Aborted)
    else
      var h := FromCode(data[0]);
      if h == Some(Error) then
        if |data| < 2 then (st, Aborted) else (Errored(st, data[1]), Finished)
      else if h == Some(PythonFinished) then (st, Finished)
      else if h == Some(PythonExit) then (Removed(st, port), Finished)
      else if h == Some(CameraGetColorImage) then
        var f := Fragments(st, w.cars(i).colorImage, ColorImagePackets, 0, port);
        (f.0, if f.1 == Delivered then Continue else if f.1 == Stopped then Finished else Aborted)
      else
        var a := Respond(h, data, i, w);
        (Apply(st, port, a), a.turn)
  }

  /** The tags the dispatch `switch` has no case for, and bytes that name
      no tag: they reach its `default` branch, which ends the turn. */
  predicate Unhandled(h: Option<Header>)
  {
    h.None? ||
    h.value in {Connect, UnityStart, UnityUpdate, UnityExit, PythonSendNext,
                RacecarGo, RacecarSetStartUpdate, RacecarSetUpdateSlowTime, DisplayShowImage}
  }

  /** A request too short for its handler: reading its argument throws. */
  predicate ShortRequest(h: Option<Header>, data: seq<byte>)
  {
    (h.Some? && h.value in {Error, ControllerIsDown, ControllerWasPressed, ControllerWasReleased,
                            ControllerGetTrigger, ControllerGetJoystick} && |data| < 2) ||
    (h == Some(DriveSetSpeedAngle) && |data| < 12) ||
    (h == Some(DriveSetMaxSpeed) && |data| < 8)
  }

  /** How each request ends the turn: `error` reports its code, and
      `python_exit` removes the client. Both, `python_finished` and an
      unhandled tag end the turn; a colour-image send that stopped ends
      it; a short request or an empty datagram throws, as does a colour-image
      send that threw. Every other request is answered and serving goes on. */
  lemma Serve1Outcomes(st: Link, i: nat, port: Port, data: seq<byte>, w: World)
    ensures |data| >= 2 && FromCode(data[0]) == Some(Error) ==>
              Serve1(st, i, port, data, w) == (Errored(st, data[1]), Finished)
    ensures |data| >= 1 && FromCode(data[0]) == Some(PythonFinished) ==>
              Serve1(st, i, port, data, w) == (st, Finished)
    ensures |data| >= 1 && FromCode(data[0]) == Some(PythonExit) ==>
              Serve1(st, i, port, data, w) == (Removed(st, port), Finished)
    ensures |data| >= 1 && Unhandled(FromCode(data[0])) ==>
              Serve1(st, i, port, data, w) == (st, Finished)
    ensures |data| >= 1 && FromCode(data[0]) == Some(CameraGetColorImage) ==>
              Serve1(st, i, port, data, w).0 == Fragments(st, w.cars(i).colorImage, ColorImagePackets, 0, port).0
    ensures Serve1(st, i, port, data, w).1 == Finished <==>
              |data| >= 1 &&
              ((FromCode(data[0]) == Some(Error) && |data| >= 2) ||
               FromCode(data[0]) == Some(PythonFinished) || FromCode(data[0]) == Some(PythonExit) ||
               Unhandled(FromCode(data[0])) ||
               (FromCode(data[0]) == Some(CameraGetColorImage) &&
                Fragments(st, w.cars(i).colorImage, ColorImagePackets, 0, port).1 == Stopped))
    ensures Serve1(st, i, port, data, w).1 == Aborted <==>
              |data| == 0 || ShortRequest(FromCode(data[0]), data) ||
              (FromCode(data[0]) == Some(CameraGetColorImage) &&
               Fragments(st, w.cars(i).colorImage, ColorImagePackets, 0, port).1 == Thrown)
  {
    if |data| >= 1 && Unhandled(FromCode(data[0])) {
      assert st.drive + [] == st.drive;
    }
  }

  /** The request loop for car `i` after its event header went out: receive,
      serve, repeat until a request ends the turn or a receive fails. The
      flag says whether an exception ended it. */
  function Serve(st: Link, i: nat, port: Port, w: World): (r: (Link, bool))
    ensures st.sent <= r.0.sent
    ensures OnlyEmptied(st.endPoints, r.0.endPoints)
    decreases |st.inbox|
  {
    var (st1, data) := Receive(st);
    if data.None? then (st1, false)
    else
      var (st2, t) := Serve1(st1, i, port, data.value, w);
      if t == Continue then
        var r := Serve(st2, i, port, w);
        OnlyEmptiedTransitive(st.endPoints, st2.endPoints, r.0.endPoints);
        r
      else (st2, t == Aborted)
  }

  /** PythonCall from slot `i` on: for each occupied slot, one event header,
      then its request loop. Also returns the slots served, and whether an
      exception escaped (which ends the call). */
  function CallFrom(st: Link, f: Header, i: nat, w: World): (r: (Link, seq<nat>, bool))
    ensures st.sent <= r.0.sent
    ensures OnlyEmptied(st.endPoints, r.0.endPoints)
    decreases |st.endPoints| - i
  {
    if i >= |st.endPoints| then (st, [], false)
    else if st.endPoints[i].None? then CallFrom(st, f, i + 1, w)
    else
      var port := st.endPoints[i].value;
      var st1 := Send(st, port, [Code(f)], EventHeader);
      var (st2, thrown) := Serve(st1, i, port, w);
      if thrown then (st2, [i], true)
      else
        var r := CallFrom(st2, f, i + 1, w);
        OnlyEmptiedTransitive(st.endPoints, st2.endPoints, r.0.endPoints);
        (r.0, [i] + r.1, r.2)
  }
  /** Past the last slot the call is over. */
  lemma CallFromEnd(st: Link, f: Header, i: nat, w: World)
    requires i >= |st.endPoints|
    ensures CallFrom(st, f, i, w) == (st, [], false)
  {
  }

  /** An empty slot is passed over. */
  lemma CallFromSkips(st: Link, f: Header, i: nat, w: World)
    requires i < |st.endPoints| && st.endPoints[i].None?
    ensures CallFrom(st, f, i, w) == CallFrom(st, f, i + 1, w)
  {
  }

  /** An occupied slot gets the header and its turn; unless the turn
      threw, the call goes on from the next slot. */
  lemma CallFromOccupied(st: Link, f: Header, i: nat, w: World)
    requires i < |st.endPoints| && st.endPoints[i].Some?
    ensures var port := st.endPoints[i].value;
            var turn := Serve(Send(st, port, [Code(f)], EventHeader), i, port, w);
            CallFrom(st, f, i, w) ==
              if turn.1 then (turn.0, [i], true)
              else (CallFrom(turn.0, f, i + 1, w).0, [i] + CallFrom(turn.0, f, i + 1, w).1, CallFrom(turn.0, f, i + 1, w).2)
  {
  }

}
