/** The Python client's side of the protocol (Python/unity_*.py): its own tag
    table, the fixed-width frames its modules send, and the decoders for the
    host's replies. The drive, controller and physics modules keep no state,
    so they are functions from the reply datagram to the frames sent and the
    value returned.

    Several client modules name an attribute `FunctionCode` that the Racecar
    class does not define; the tags those modules would send are therefore
    the `FunctionCodes` parameter here, and only the frame layout is fixed. */
module ClientProtocol {
  import opened Wire
  import HostProtocol

  /** The client's tag table (Racecar.Header), in declaration order. */
  datatype ClientHeader =
    | Error | UnityStart | UnityUpdate | UnityExit
    | PythonFinished | PythonSendNext
    | RacecarGo | RacecarSetStartUpdate | RacecarGetDeltaTime | RacecarSetUpdateSlowTime
    | CameraGetImage | CameraGetDepthImage | CameraGetWidth | CameraGetHeight
    | ControllerIsDown | ControllerWasPressed | ControllerWasReleased
    | ControllerGetTrigger | ControllerGetJoystick
    | DisplayShowImage
    | DriveSetSpeedAngle | DriveStop | DriveSetMaxSpeedScaleFactor
    | GpioPinMode | GpioPinWrite
    | LidarGetLength | LidarGetRanges
    | PhysicsGetLinearAcceleration | PhysicsGetAngularVelocity

  const ClientHeaders: seq<ClientHeader> := [
    Error, UnityStart, UnityUpdate, UnityExit,
    PythonFinished, PythonSendNext,
    RacecarGo, RacecarSetStartUpdate, RacecarGetDeltaTime, RacecarSetUpdateSlowTime,
    CameraGetImage, CameraGetDepthImage, CameraGetWidth, CameraGetHeight,
    ControllerIsDown, ControllerWasPressed, ControllerWasReleased,
    ControllerGetTrigger, ControllerGetJoystick,
    DisplayShowImage,
    DriveSetSpeedAngle, DriveStop, DriveSetMaxSpeedScaleFactor,
    GpioPinMode, GpioPinWrite,
    LidarGetLength, LidarGetRanges,
    PhysicsGetLinearAcceleration, PhysicsGetAngularVelocity]

  /** The IntEnum value of a tag: its position in the table, 0..28. */
  function Value(h: ClientHeader): (v: byte)
    ensures v < |ClientHeaders| && ClientHeaders[v] == h
  {
    match h
    case Error => 0
    case UnityStart => 1
    case UnityUpdate => 2
    case UnityExit => 3
    case PythonFinished => 4
    case PythonSendNext => 5
    case RacecarGo => 6
    case RacecarSetStartUpdate => 7
    case RacecarGetDeltaTime => 8
    case RacecarSetUpdateSlowTime => 9
    case CameraGetImage => 10
    case CameraGetDepthImage => 11
    case CameraGetWidth => 12
    case CameraGetHeight => 13
    case ControllerIsDown => 14
    case ControllerWasPressed => 15
    case ControllerWasReleased => 16
    case ControllerGetTrigger => 17
    case ControllerGetJoystick => 18
    case DisplayShowImage => 19
    case DriveSetSpeedAngle => 20
    case DriveStop => 21
    case DriveSetMaxSpeedScaleFactor => 22
    case GpioPinMode => 23
    case GpioPinWrite => 24
    case LidarGetLength => 25
    case LidarGetRanges => 26
    case PhysicsGetLinearAcceleration => 27
    case PhysicsGetAngularVelocity => 28
  }

  /** The table assigns 29 distinct values. */
  lemma {:induction false} ValuesDistinct(h1: ClientHeader, h2: ClientHeader)
    ensures Value(h1) == Value(h2) <==> h1 == h2
  {
    if Value(h1) == Value(h2) {
      assert ClientHeaders[Value(h1)] == h1 && ClientHeaders[Value(h2)] == h2;
    }
  }

  /** __send_header: `struct.pack("B", tag)`, a single unsigned byte. */
  function HeaderFrame(h: ClientHeader): (frame: seq<byte>)
    ensures |frame| == 1 && frame[0] == Value(h)
  {
    [Value(h)]
  }

  /** recvfrom(bufsize) on a datagram socket: a datagram longer than the
      buffer is cut to the buffer's size, the rest being discarded. */
  function Received(datagram: seq<byte>, bufsize: nat): (data: seq<byte>)
    ensures |data| <= bufsize && data <= datagram
    ensures |datagram| <= bufsize ==> data == datagram
  {
    if |datagram| <= bufsize then datagram else datagram[..bufsize]
  }

  /** `struct.unpack("f", data)`: exactly four bytes, else struct.error. */
  function UnpackFloat(data: seq<byte>): (r: Option<Word>)
    ensures r.Some? <==> |data| == 4
    ensures r.Some? ==> r.value == data
  {
    if |data| == 4 then var w: Word := data; Some(w) else None
  }

  /** `struct.unpack("fff", data)`: exactly twelve bytes, x, y and z in wire
      order, else struct.error. */
  function UnpackVec3(data: seq<byte>): (r: Option<(Word, Word, Word)>)
    ensures r.Some? <==> |data| == 12
    ensures r.Some? ==> r.value.0 + r.value.1 + r.value.2 == data
  {
    if |data| == 12 then
      var x: Word := data[..4];
      var y: Word := data[4..8];
      var z: Word := data[8..];
      assert x + y + z == data;
      Some((x, y, z))
    else None
  }

  /** `bool.from_bytes(data)`: true exactly when some byte is non-zero. */
  function BoolFromBytes(data: seq<byte>): (b: bool)
    ensures b <==> exists k :: 0 <= k < |data| && data[k] != 0
  {
    if data == [] then false
    else data[0] != 0 || BoolFromBytes(data[1..])
  }

  // ---------------------------------------------------------------------
  // The tags the modules send

  /** The tags the drive and controller modules would read from the
      undefined `FunctionCode` attribute. */
  datatype FunctionCodes = FunctionCodes(
    controllerIsDown: byte,
    controllerWasPressed: byte,
    controllerWasReleased: byte,
    controllerGetTrigger: byte,
    driveSetSpeedAngle: byte,
    driveStop: byte)

  /** The four controller queries. */
  datatype Query = IsDown | WasPressed | WasReleased | GetTrigger

  /** The tag each controller query sends, as written: was_released and
      get_trigger send the was_pressed tag. */
  function QueryCodeAsWritten(codes: FunctionCodes, q: Query): (code: byte)
    ensures q != IsDown ==> code == codes.controllerWasPressed
  {
    match q
    case IsDown => codes.controllerIsDown
    case WasPressed => codes.controllerWasPressed
    case WasReleased => codes.controllerWasPressed
    case GetTrigger => codes.controllerWasPressed
  }

  /** As written, the host cannot tell was_released or get_trigger from
      was_pressed: the frames are byte for byte the same. */
  lemma QueriesIndistinguishableAsWritten(codes: FunctionCodes, id: byte)
    ensures ControllerFrame(QueryCodeAsWritten(codes, WasReleased), id) == ControllerFrame(QueryCodeAsWritten(codes, WasPressed), id)
    ensures ControllerFrame(QueryCodeAsWritten(codes, GetTrigger), id) == ControllerFrame(QueryCodeAsWritten(codes, WasPressed), id)
  {
  }

  /** Each query sends its own tag: it differs from the code as written only
      for was_released and get_trigger. */
  function QueryCode(codes: FunctionCodes, q: Query): (code: byte)
    ensures q == IsDown || q == WasPressed ==> code == QueryCodeAsWritten(codes, q)
    ensures q == WasReleased ==> code == codes.controllerWasReleased
    ensures q == GetTrigger ==> code == codes.controllerGetTrigger
  {
    match q
    case IsDown => codes.controllerIsDown
    case WasPressed => codes.controllerWasPressed
    case WasReleased => codes.controllerWasReleased
    case GetTrigger => codes.controllerGetTrigger
  }

  /** The four controller tags are pairwise different. */
  predicate DistinctQueryCodes(codes: FunctionCodes)
  {
    codes.controllerIsDown != codes.controllerWasPressed &&
    codes.controllerIsDown != codes.controllerWasReleased &&
    codes.controllerIsDown != codes.controllerGetTrigger &&
    codes.controllerWasPressed != codes.controllerWasReleased &&
    codes.controllerWasPressed != codes.controllerGetTrigger &&
    codes.controllerWasReleased != codes.controllerGetTrigger
  }

  /** With distinct tags, the frame identifies the query and its argument. */
  lemma {:induction false} QueriesDistinguishable(codes: FunctionCodes, q1: Query, id1: byte, q2: Query, id2: byte)
    requires DistinctQueryCodes(codes)
    ensures ControllerFrame(QueryCode(codes, q1), id1) == ControllerFrame(QueryCode(codes, q2), id2) <==> q1 == q2 && id1 == id2
  {
    if ControllerFrame(QueryCode(codes, q1), id1) == ControllerFrame(QueryCode(codes, q2), id2) {
      assert QueryCode(codes, q1) == QueryCode(codes, q2);
      match q1 {
        case IsDown =>
        case WasPressed =>
        case WasReleased =>
        case GetTrigger =>
      }
    }
  }

  /** Controller.Button: the eight buttons, A..RJOY, valued 0..7. */
  datatype Button = A | B | X | Y | LB | RB | LJOY | RJOY

  function ButtonValue(b: Button): (v: byte)
    ensures v < 8
  {
    match b
    case A => 0
    case B => 1
    case X => 2
    case Y => 3
    case LB => 4
    case RB => 5
    case LJOY => 6
    case RJOY => 7
  }

  lemma {:induction false} ButtonValuesDistinct(b1: Button, b2: Button)
    ensures ButtonValue(b1) == ButtonValue(b2) <==> b1 == b2
  {
    match b1 {
      case A => case B => case X => case Y => case LB => case RB => case LJOY => case RJOY =>
    }
  }

  // ---------------------------------------------------------------------
  // Frames and the exchanges of the stateless modules

  /** `struct.pack("BB", tag, id)`. */
  function ControllerFrame(code: byte, id: byte): (frame: seq<byte>)
    ensures |frame| == 2 && frame[0] == code && frame[1] == id
  {
    [code, id]
  }

  /** `struct.pack("Bff", tag, speed, angle)` in native layout: the tag, three
      bytes of padding that align the first float, then the two floats. */
  function SpeedAngleFrame(code: byte, speed: Word, angle: Word): (frame: seq<byte>)
    ensures |frame| == 12 && frame[0] == code
    ensures frame[4..8] == speed && frame[8..12] == angle
  {
    [code, 0, 0, 0] + speed + angle
  }

  /** The host reads the speed and angle of a speed/angle frame at the very
      offsets the client wrote them, whatever tag the frame carries. */
  lemma SpeedAngleLayoutAgrees(code: byte, speed: Word, angle: Word, i: nat, w: HostProtocol.World)
    ensures HostProtocol.Respond(Some(HostProtocol.DriveSetSpeedAngle), SpeedAngleFrame(code, speed, angle), i, w)
              == HostProtocol.Answer(None, [HostProtocol.SetSpeed(i, speed), HostProtocol.SetAngle(i, angle)], HostProtocol.Continue)
  {
    var frame := SpeedAngleFrame(code, speed, angle);
    assert frame[4..8] == speed && frame[8..12] == angle;
  }

  /** What one call of a stateless module does on the socket: the frames it
      sends, the receives it performs, and the value it returns (`None` where
      Python raises). */
  datatype Exchange<T> = Exchange(frames: seq<seq<byte>>, receives: nat, result: Option<T>)

  /** drive.set_speed_angle: one 12-byte frame, no receive. */
  function SetSpeedAngle(codes: FunctionCodes, speed: Word, angle: Word): (e: Exchange<()>)
    ensures |e.frames| == 1 && |e.frames[0]| == 12 && e.receives == 0
    ensures e.frames[0][4..8] == speed && e.frames[0][8..12] == angle
  {
    Exchange([SpeedAngleFrame(codes.driveSetSpeedAngle, speed, angle)], 0, Some(()))
  }

  /** drive.set_max_speed_scale_factor: its body is `pass`. */
  function SetMaxSpeedScaleFactor(scaleFactor: Word): (e: Exchange<()>)
    ensures e.frames == [] && e.receives == 0
  {
    Exchange([], 0, Some(()))
  }

  /** A controller query: one "BB" frame, exactly one receive of at most 4
      bytes. is_down, was_pressed and was_released read a boolean. */
  function ButtonQuery(codes: FunctionCodes, q: Query, b: Button, reply: seq<byte>): (e: Exchange<bool>)
    requires q != GetTrigger
    ensures e.frames == [ControllerFrame(QueryCode(codes, q), ButtonValue(b))] && e.receives == 1
    ensures e.result.Some?
  {
    Exchange([ControllerFrame(QueryCode(codes, q), ButtonValue(b))], 1, Some(BoolFromBytes(Received(reply, 4))))
  }

  /** get_trigger: the same frame shape, one receive decoded as one float. */
  function TriggerQuery(codes: FunctionCodes, trigger: byte, reply: seq<byte>): (e: Exchange<Word>)
    ensures e.frames == [ControllerFrame(QueryCode(codes, GetTrigger), trigger)] && e.receives == 1
    ensures e.result == UnpackFloat(Received(reply, 4))
  {
    Exchange([ControllerFrame(QueryCode(codes, GetTrigger), trigger)], 1, UnpackFloat(Received(reply, 4)))
  }

  /** The host's one-byte boolean replies decode to the value sent. */
  lemma BoolReplyRoundTrip(codes: FunctionCodes, q: Query, b: Button, value: bool)
    requires q != GetTrigger
    ensures ButtonQuery(codes, q, b, HostProtocol.BoolBytes(value)).result == Some(value)
  {
  }

  /** The host's 4-byte float replies decode to the word sent; anything
      longer is cut to 4 bytes by the receive, anything shorter fails. */
  lemma FloatReplyRoundTrip(codes: FunctionCodes, trigger: byte, w: Word, reply: seq<byte>)
    ensures TriggerQuery(codes, trigger, w).result == Some(w)
    ensures |reply| >= 4 ==> TriggerQuery(codes, trigger, reply).result == Option<Word>.Some(reply[..4])
    ensures |reply| < 4 ==> TriggerQuery(codes, trigger, reply).result == None
  {
    if |reply| >= 4 {
      assert Received(reply, 4) == reply[..4];
    }
  }

  // ---------------------------------------------------------------------
  // Physics

  datatype PhysicsQuery = LinearAcceleration | AngularVelocity

  /** The header each physics getter sends, as written: both send
      physics_get_linear_acceleration. */
  function PhysicsHeaderAsWritten(q: PhysicsQuery): (h: ClientHeader)
    ensures h == PhysicsGetLinearAcceleration
  {
    match q
    case LinearAcceleration => PhysicsGetLinearAcceleration
    case AngularVelocity => PhysicsGetLinearAcceleration
  }

  /** As written, asking for the angular velocity sends the request for the
      linear acceleration. */
  lemma AngularVelocityRequestAsWritten()
    ensures HeaderFrame(PhysicsHeaderAsWritten(AngularVelocity)) == [27]
    ensures HeaderFrame(PhysicsHeaderAsWritten(AngularVelocity)) == HeaderFrame(PhysicsHeaderAsWritten(LinearAcceleration))
  {
  }

  /** Each getter sends its own header. */
  function PhysicsHeader(q: PhysicsQuery): (h: ClientHeader)
    ensures q == AngularVelocity <==> h == PhysicsGetAngularVelocity
  {
    match q
    case LinearAcceleration => PhysicsGetLinearAcceleration
    case AngularVelocity => PhysicsGetAngularVelocity
  }

  lemma PhysicsRequestsDistinct()
    ensures HeaderFrame(PhysicsHeader(AngularVelocity)) == [28]
    ensures HeaderFrame(PhysicsHeader(LinearAcceleration)) == [27]
  {
  }

  /** A physics getter: one header byte, one receive of at most 12 bytes,
      decoded as three floats; no caching. */
  function PhysicsGet(q: PhysicsQuery, reply: seq<byte>): (e: Exchange<(Word, Word, Word)>)
    ensures e.frames == [HeaderFrame(PhysicsHeader(q))] && e.receives == 1
    ensures e.result.Some? <==> |Received(reply, 12)| == 12
  {
    Exchange([HeaderFrame(PhysicsHeader(q))], 1, UnpackVec3(Received(reply, 12)))
  }

  /** The host's 12-byte vector replies decode to the vector sent, in
      order x, y, z. */
  lemma Vec3RoundTrip(q: PhysicsQuery, v: HostProtocol.Vec3)
    ensures PhysicsGet(q, HostProtocol.Vec3Bytes(v)).result == Some((v.x, v.y, v.z))
  {
    var bs := HostProtocol.Vec3Bytes(v);
    assert bs[..4] == v.x && bs[4..8] == v.y && bs[8..] == v.z;
  }
}
