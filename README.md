# RacecarSim: the host–client protocol and the host's small state machines

RacecarSim is a Unity simulator of the MIT RACECAR. The Unity host steps its
cars each frame. A Python client per car runs the user's `start` and `update`
callbacks. The two talk over UDP in lockstep: each frame the host sends each
connected client one event-header byte (`unity_start` or `unity_update`), and
then answers the client's one-tag requests until the client sends
`python_finished`. Those requests cover drive, camera, controller, lidar and
physics. The colour image is too large for one datagram. It goes as 32 equal
chunks, and the host waits for a `python_send_next` acknowledgement after each
chunk. A client joins through a version handshake that gives it the first free
car slot.

The project models:

- **The host dispatcher** (`PythonInterface`). It covers:
  - the endpoint slot table and the handshake;
  - the per-frame service loop and its request handlers;
  - the chunked transfer, and the error and exit broadcasts.

  The model is a class that updates the table and the logs in place. Each of
  its methods is proved against specification functions (`HostProtocol`).
  The system-level claims are lemmas about those functions (`HostProperties`).
- **The Python client**:
  - its tag table and its frame encoders and reply decoders (`ClientProtocol`);
  - the lockstep loop `go()` and the per-frame lidar cache (`ClientRacecar`);
  - what the loop promises over a whole run of events (`ClientProperties`).
- **The sensor buffers**:
  - the row-reversing copy of a 640×480 ARGB32 image, in place in an `array`;
  - the row-major flattening of the depth image;
  - the validity and request flags that make each buffer lazy per frame;
  - the sample rule of the depth camera (`ImageBuffers`, `Camera`, `DroneModule`, `ImageCapture`);
  - the 720-slot circular lidar sweep (`HostLidar`).
- **The host's small state machines and rules**:
  - the autograder's scripted controller (`ScriptedController`), its level and task progression (`Autograder`) and the park-and-hold task (`ParkingTask`);
  - the key-point order (`KeyPoints`);
  - the variable-level shuffle (`VariableLevel`);
  - the train spawner (`TrainSpawner`) and the elevator (`Elevators`);
  - the two AR marker scripts (`ArMarkers`, `ArTags`, `ArCycling`);
  - the update/update_slow scheduler (`SlowScheduling`);
  - the settings (`GameSettings`) and the best-time table (`BestTimeRecords`), over Unity's PlayerPrefs store (`Prefs`).

How things are represented:

- **Floats on the wire** are opaque 4-byte words (`Wire.Word`), in the byte
  order of the wire, following the binary32 format of IEEE 754-2008 section
  3.4. Their arithmetic is never modelled.
- **Times, speeds, heights and distances** in the state machines are `real`s.
- **Engine inputs** become parameters: raycasts, the mouse and keys,
  `Time.deltaTime`, `Random` draws and the rendered image.
- **A socket** becomes an inbox of datagrams plus a log of what was sent.

The host and the client each have their own tag table, modelled exactly as
written. The two tables disagree: the host has `connect` at 1, the client has
no `connect`, and from there on the client's tags are one less for the same
name. The model makes no claim that the two sides interoperate on tag values;
it relates only frame layouts and reply encodings.

## Model

| member | source | states |
|---|---|---|
| Wire.Int32RoundTrip | RacecarSim/Assets/Scripts/NonMonoBehavior/PythonInterface.cs:334-343 | the four little-endian bytes `BitConverter.GetBytes` gives a 32-bit int read back as that int |
| Wire.UIntLESingle | Python/unity_racecar.py:85-86 | `int.from_bytes` of an event datagram equals its first byte exactly when every later byte is zero |
| Wire.WordsFlatten | Python/unity_lidar.py:20-21 | splitting the bytes of a sequence of float words into float32 values gives those words back |
| Wire.FlattenWords | Python/unity_lidar.py:20-21 | a split that succeeds, concatenated again, gives the received bytes back |
| HostProtocol.Code | RacecarSim/Assets/Scripts/NonMonoBehavior/PythonInterface.cs:131-162 | a tag's byte is its position in the enum (below 29), and casting that byte back gives the tag |
| HostProtocol.FromCode | RacecarSim/Assets/Scripts/NonMonoBehavior/PythonInterface.cs:297 | the cast `(Header)data[0]` names a tag exactly when the byte is below 29 |
| HostProtocol.FromCodeRoundTrip | RacecarSim/Assets/Scripts/NonMonoBehavior/PythonInterface.cs:297 | a byte the cast reads as a tag is that tag's code |
| HostProtocol.CodesDistinct | RacecarSim/Assets/Scripts/NonMonoBehavior/PythonInterface.cs:131-162 | two tags have the same code exactly when they are the same tag |
| HostProtocol.AnnouncedVersion | RacecarSim/Assets/Scripts/NonMonoBehavior/PythonInterface.cs:546 | the version is the second byte of the datagram, or 0 for a one-byte datagram |
| HostProtocol.HandshakeReply | RacecarSim/Assets/Scripts/NonMonoBehavior/PythonInterface.cs:545-574 | the reply has 2 bytes: `[connect, slot]` for version 1 with a free slot; `[error, no_free_car]` for version 1 with none; `[error, python_outdated]` for an older version; `[error, racecarsim_outdated]` for a newer one |
| HostProtocol.Handshake | RacecarSim/Assets/Scripts/NonMonoBehavior/PythonInterface.cs:545-574 | a wrong version leaves the table unchanged; version 1 connects the sender and replies with the slot connect gave |
| HostProtocol.HandshakeOutcomes | RacecarSim/Assets/Scripts/NonMonoBehavior/PythonInterface.cs:547-559 | the reply starts with `connect` iff the version is 1 and a slot was free; it is `[error, no_free_car]` iff the version is 1 and none was |
| HostProtocol.FirstNull | RacecarSim/Assets/Scripts/NonMonoBehavior/PythonInterface.cs:204-213 | the lowest-index empty slot, every slot before it occupied; none iff every slot is occupied |
| HostProtocol.ConnectClient | RacecarSim/Assets/Scripts/NonMonoBehavior/PythonInterface.cs:199-232 | the new endpoint goes to the lowest empty slot, or is appended while the table is shorter than the player count. The returned index holds the new endpoint and every other slot is unchanged. The result is null, with the table unchanged, iff there is no empty slot and the table is full |
| HostProtocol.FirstWithPort | RacecarSim/Assets/Scripts/NonMonoBehavior/PythonInterface.cs:242-250 | the first slot holding the port, no earlier slot holding it; none iff no slot holds it |
| HostProtocol.TrimTrailing | RacecarSim/Assets/Scripts/NonMonoBehavior/PythonInterface.cs:253-263 | the result is a prefix of the table, does not end in an empty slot, and only empty slots were dropped |
| HostProtocol.RemoveClient | RacecarSim/Assets/Scripts/NonMonoBehavior/PythonInterface.cs:238-266 | only the first slot with the port is emptied; the table never ends in an empty slot afterwards; slots only lose endpoints |
| HostProtocol.RemoveKeepsOthers | RacecarSim/Assets/Scripts/NonMonoBehavior/PythonInterface.cs:240-263 | every other occupied slot keeps its index and its endpoint |
| HostProtocol.TrimNulled | RacecarSim/Assets/Scripts/NonMonoBehavior/PythonInterface.cs:253-263 | emptying one slot and trimming keeps every other occupied slot in place |
| HostProtocol.Occupied | RacecarSim/Assets/Scripts/NonMonoBehavior/PythonInterface.cs:274-279 | the indices of exactly the occupied slots, in increasing order |
| HostProtocol.Notices | RacecarSim/Assets/Scripts/NonMonoBehavior/PythonInterface.cs:498-508 | one datagram per occupied slot, to that slot's endpoint, in slot order; none to an empty slot |
| HostProtocol.Send | RacecarSim/Assets/Scripts/NonMonoBehavior/PythonInterface.cs:322 | `udpClient.Send` appends exactly one datagram to the log and changes nothing else |
| HostProtocol.BoolBytes | RacecarSim/Assets/Scripts/NonMonoBehavior/PythonInterface.cs:347 | `BitConverter.GetBytes(bool)` is one byte, 1 for true and 0 for false |
| HostProtocol.Vec3Bytes | RacecarSim/Assets/Scripts/NonMonoBehavior/PythonInterface.cs:402-407 | twelve bytes: x, y, z in that order |
| HostProtocol.SendsController | RacecarSim/Assets/Scripts/NonMonoBehavior/PythonInterface.cs:299 | controller values are sent outside race mode always, and in race mode only with cheat mode on |
| HostProtocol.Respond | RacecarSim/Assets/Scripts/NonMonoBehavior/PythonInterface.cs:303-420 | the handlers that need no state of their own. A handler that replies sends no drive command and continues the turn. A turn continues only after a reply or a drive command |
| HostProtocol.DriveHandlersDoNotReply | RacecarSim/Assets/Scripts/NonMonoBehavior/PythonInterface.cs:378-389 | `drive_set_speed_angle` sets speed and angle from the floats at bytes 4 and 8; `drive_stop` stops the car; `drive_set_max_speed` reads the float at byte 4; none of them replies |
| HostProtocol.ControllerAnswers | RacecarSim/Assets/Scripts/NonMonoBehavior/PythonInterface.cs:344-376 | in race mode without cheat mode every controller reply is false, false, false, 0 or (0, 0); otherwise it carries the live value |
| HostProtocol.ControllerReplySizes | RacecarSim/Assets/Scripts/NonMonoBehavior/PythonInterface.cs:345-376 | controller replies are 1-byte booleans, a 4-byte trigger float and an 8-byte joystick pair |
| HostProtocol.SensorReplySizes | RacecarSim/Assets/Scripts/NonMonoBehavior/PythonInterface.cs:320-407 | the delta time is 4 bytes, the lidar sweep 2880 bytes and the acceleration vector 12 bytes |
| HostProtocol.FixedReplies | RacecarSim/Assets/Scripts/NonMonoBehavior/PythonInterface.cs:334-394 | width, height and sample count go out as the little-endian words of 640, 480 and 720 |
| HostProtocol.Errored | RacecarSim/Assets/Scripts/NonMonoBehavior/PythonInterface.cs:496-513 | every connected client gets a datagram of length 1 (the error tag, without its code). The code is reported to the level and the table is emptied |
| HostProtocol.Removed | RacecarSim/Assets/Scripts/NonMonoBehavior/PythonInterface.cs:238-266 | the table becomes RemoveClient's, and nothing is sent or read |
| HostProtocol.RemovedFirst | RacecarSim/Assets/Scripts/NonMonoBehavior/PythonInterface.cs:242-263 | removal is: empty the first slot with the port, stop that car, trim the trailing empty slots |
| HostProtocol.Receive | RacecarSim/Assets/Scripts/NonMonoBehavior/PythonInterface.cs:465-489 | a datagram is taken off the head of the inbox and returned. An empty inbox or a timeout gives `Errored` with the Timeout code; any other socket error gives `Errored` with the Generic code. Both return null and leave the table empty |
| HostProtocol.ChunkData | RacecarSim/Assets/Scripts/NonMonoBehavior/PythonInterface.cs:434-438 | chunk i is `bytes[i*b, i*b + b)`, with `b = len / n` by integer division |
| HostProtocol.ChunkStep | RacecarSim/Assets/Scripts/NonMonoBehavior/PythonInterface.cs:438-455 | one chunk: send, then one receive; `python_send_next` goes on, `python_exit` removes the client, anything else is a `fragment_mismatch` error; the table only loses endpoints |
| HostProtocol.Fragments | RacecarSim/Assets/Scripts/NonMonoBehavior/PythonInterface.cs:432-458 | one chunk step per chunk until one stops the send; the sent log only grows and the table only loses endpoints |
| HostProtocol.Serve1 | RacecarSim/Assets/Scripts/NonMonoBehavior/PythonInterface.cs:292-420 | one request served: the sent log only grows, the inbox only shrinks, and the table only loses endpoints |
| HostProtocol.Serve1Outcomes | RacecarSim/Assets/Scripts/NonMonoBehavior/PythonInterface.cs:297-420 | which requests end the turn. `error` reports its code (`Errored`) and `python_exit` removes the client (`Removed`). Both end the turn, as do `python_finished`, a tag the switch has no case for and a colour-image send that stopped. A request too short for its handler, an empty datagram and a colour-image send that threw end it with an exception. Every other request is answered and serving goes on; each direction is stated |
| HostProtocol.Serve | RacecarSim/Assets/Scripts/NonMonoBehavior/PythonInterface.cs:288-421 | a client's request loop only adds to the sent log and only empties table slots |
| HostProtocol.CallFrom | RacecarSim/Assets/Scripts/NonMonoBehavior/PythonInterface.cs:272-423 | PythonCall from a slot on: it only adds to the sent log and only empties slots |
| HostProtocol.CallFromEnd | RacecarSim/Assets/Scripts/NonMonoBehavior/PythonInterface.cs:274 | past the last slot the call is over and changes nothing |
| HostProtocol.CallFromSkips | RacecarSim/Assets/Scripts/NonMonoBehavior/PythonInterface.cs:276-279 | an empty slot is passed over |
| HostProtocol.CallFromOccupied | RacecarSim/Assets/Scripts/NonMonoBehavior/PythonInterface.cs:281-289 | an occupied slot gets the one-byte event header and then its turn; unless the turn threw, the call goes on with the next slot |
| HostProperties.ConnectThenRemove | RacecarSim/Assets/Scripts/NonMonoBehavior/PythonInterface.cs:199-266 | on any table removal can produce, connecting a new port and then removing it gives the table back, and removal frees the slot that connect filled |
| HostProperties.FragmentsDelivered | RacecarSim/Assets/Scripts/NonMonoBehavior/PythonInterface.cs:436-457 | when every chunk is acknowledged with `python_send_next`, the send delivers. It sends exactly the chunks, in order, to the client, consumes one ack per chunk and changes nothing else |
| HostProperties.ChunksShape | RacecarSim/Assets/Scripts/NonMonoBehavior/PythonInterface.cs:434-439 | every chunk holds exactly `len / n` bytes and goes to the requesting client |
| HostProperties.ChunksPayload | RacecarSim/Assets/Scripts/NonMonoBehavior/PythonInterface.cs:434-439 | the chunks carry bytes `[i*b, n*b)` of the buffer, in order |
| HostProperties.RemainderNeverSent | RacecarSim/Assets/Scripts/NonMonoBehavior/PythonInterface.cs:434 | unless n divides the length, the last `len mod n` bytes are never sent |
| HostProperties.ColorImageSplits | RacecarSim/Assets/Scripts/NonMonoBehavior/PythonInterface.cs:326 | the 4·640·480-byte colour image splits into 32 chunks of 38400 bytes with no remainder |
| HostProperties.ColorImageWhole | RacecarSim/Assets/Scripts/NonMonoBehavior/PythonInterface.cs:325-327 | a delivered colour-image send carries the whole image, in order |
| HostProperties.FragmentsSentOnlyTo | RacecarSim/Assets/Scripts/NonMonoBehavior/PythonInterface.cs:432-458 | a fragmented send sends only chunks to its client and error notices |
| HostProperties.ServeSentOnlyTo | RacecarSim/Assets/Scripts/NonMonoBehavior/PythonInterface.cs:288-421 | once its event header is out, a client's turn sends only replies and chunks to that client, plus error notices. It sends no event header and nothing else to another client |
| HostProperties.CallFromServedSlots | RacecarSim/Assets/Scripts/NonMonoBehavior/PythonInterface.cs:274-279 | the slots served were occupied when the call began, lie at or after the start slot, and are served in increasing order |
| HostProperties.CallFromAnnounces | RacecarSim/Assets/Scripts/NonMonoBehavior/PythonInterface.cs:274-285 | PythonCall sends exactly one one-byte event header `[f]` per served slot, to that slot's client, in slot order, and no other event header |
| HostProperties.CallFromServesAll | RacecarSim/Assets/Scripts/NonMonoBehavior/PythonInterface.cs:274-289 | when nothing threw and no client left or failed, exactly the occupied slots from the start slot on were served |
| HostInterface.PythonInterface.constructor | RacecarSim/Assets/Scripts/NonMonoBehavior/PythonInterface.cs:63-79 | an empty table, exit not yet handled, nothing sent |
| HostInterface.PythonInterface.ConnectedPrograms | RacecarSim/Assets/Scripts/NonMonoBehavior/PythonInterface.cs:55-61 | one flag per slot, set exactly when the slot holds an endpoint |
| HostInterface.PythonInterface.ConnectSyncClient | RacecarSim/Assets/Scripts/NonMonoBehavior/PythonInterface.cs:199-232 | the loop over the table gives the table and index ConnectClient specifies |
| HostInterface.PythonInterface.RemoveSyncClient | RacecarSim/Assets/Scripts/NonMonoBehavior/PythonInterface.cs:238-266 | the two loops give the state Removed specifies |
| HostInterface.PythonInterface.FindPort | RacecarSim/Assets/Scripts/NonMonoBehavior/PythonInterface.cs:242-250 | the search loop returns the first slot with the port, or the table length when there is none |
| HostInterface.PythonInterface.ClearPort | RacecarSim/Assets/Scripts/NonMonoBehavior/PythonInterface.cs:244-248 | that slot is emptied and its car's drive stopped |
| HostInterface.PythonInterface.TrimEndPoints | RacecarSim/Assets/Scripts/NonMonoBehavior/PythonInterface.cs:253-263 | the backward loop leaves TrimTrailing of the table |
| HostInterface.PythonInterface.HandleError | RacecarSim/Assets/Scripts/NonMonoBehavior/PythonInterface.cs:496-513 | the state becomes Errored of the old state |
| HostInterface.PythonInterface.HandleExit | RacecarSim/Assets/Scripts/NonMonoBehavior/PythonInterface.cs:84-109 | the first call sends `unity_exit` to every connected client and empties the table; later calls change nothing |
| HostInterface.PythonInterface.Broadcast | RacecarSim/Assets/Scripts/NonMonoBehavior/PythonInterface.cs:88-101 | the loop sends the datagram to every occupied slot, in slot order (Notices) |
| HostInterface.PythonInterface.SafeRecieve | RacecarSim/Assets/Scripts/NonMonoBehavior/PythonInterface.cs:465-489 | the state and result are those of Receive |
| HostInterface.PythonInterface.SendChunk | RacecarSim/Assets/Scripts/NonMonoBehavior/PythonInterface.cs:436-456 | one loop iteration gives the state and outcome of ChunkStep |
| HostInterface.PythonInterface.SendFragmented | RacecarSim/Assets/Scripts/NonMonoBehavior/PythonInterface.cs:432-458 | the chunk loop gives the state and outcome of Fragments |
| HostInterface.PythonInterface.ServeRequest | RacecarSim/Assets/Scripts/NonMonoBehavior/PythonInterface.cs:292-420 | one pass of the switch gives the state and turn of Serve1 |
| HostInterface.PythonInterface.ServeClient | RacecarSim/Assets/Scripts/NonMonoBehavior/PythonInterface.cs:288-421 | the `while (!pythonFinished)` loop gives the state of Serve |
| HostInterface.PythonInterface.PythonCall | RacecarSim/Assets/Scripts/NonMonoBehavior/PythonInterface.cs:272-423 | the slot loop gives the state, the served slots and the thrown flag of CallFrom from slot 0 |
| HostInterface.PythonInterface.CallSlot | RacecarSim/Assets/Scripts/NonMonoBehavior/PythonInterface.cs:276-289 | one pass gives what CallFromOccupied or CallFromSkips describes |
| HostInterface.PythonInterface.HandleStart | RacecarSim/Assets/Scripts/NonMonoBehavior/PythonInterface.cs:114-117 | PythonCall with `unity_start` |
| HostInterface.PythonInterface.HandleUpdate | RacecarSim/Assets/Scripts/NonMonoBehavior/PythonInterface.cs:122-125 | PythonCall with `unity_update` |
| ClientProtocol.Value | Python/unity_racecar.py:21-53 | each client tag's IntEnum value is its position in the table, below 29 |
| ClientProtocol.ValuesDistinct | Python/unity_racecar.py:21-53 | the client table assigns 29 distinct values |
| ClientProtocol.HeaderFrame | Python/unity_racecar.py:55-56 | `struct.pack("B", tag)` is exactly one byte, the tag's value |
| ClientProtocol.Received | Python/unity_racecar.py:63-65 | `recvfrom(bufsize)` returns at most bufsize bytes, a prefix of the datagram, and the whole datagram when it fits |
| ClientProtocol.UnpackFloat | Python/unity_racecar.py:111 | `struct.unpack("f")` succeeds exactly on 4 bytes and yields that word |
| ClientProtocol.UnpackVec3 | Python/unity_physics.py:13 | `struct.unpack("fff")` succeeds exactly on 12 bytes and yields x, y, z in wire order |
| ClientProtocol.BoolFromBytes | Python/unity_controller.py:29 | `bool.from_bytes` is true exactly when some byte is non-zero |
| ClientProtocol.ButtonValue | Python/unity_controller.py:6-18 | A, B, X, Y, LB, RB, LJOY, RJOY are 0..7 |
| ClientProtocol.ButtonValuesDistinct | Python/unity_controller.py:6-18 | two buttons have the same value exactly when they are the same button |
| ClientProtocol.ControllerFrame | Python/unity_controller.py:24-28 | the `"BB"` frame is two bytes, the tag then the id |
| ClientProtocol.SpeedAngleFrame | Python/unity_drive.py:8-16 | the native-layout `"Bff"` frame is 12 bytes: the tag, three pad bytes, then speed at offset 4 and angle at offset 8 |
| ClientProtocol.SpeedAngleLayoutAgrees | RacecarSim/Assets/Scripts/NonMonoBehavior/PythonInterface.cs:378-381 | the host reads the client's speed and angle from exactly where the client packs them, and does not reply |
| ClientProtocol.SetSpeedAngle | Python/unity_drive.py:8-16 | one 12-byte datagram and no receive |
| ClientProtocol.SetMaxSpeedScaleFactor | Python/unity_drive.py:21-22 | nothing is sent or received |
| ClientProtocol.ButtonQuery | Python/unity_controller.py:23-49 | corrected tags: exactly one `"BB"` frame `[QueryCode(q), button]` and exactly one receive, decoded as a boolean |
| ClientProtocol.TriggerQuery | Python/unity_controller.py:51-60 | corrected tag: one `"BB"` frame with the get_trigger tag and one receive, decoded as a single float |
| ClientProtocol.BoolReplyRoundTrip | Python/unity_controller.py:23-49 | the host's one-byte boolean reply decodes to the value the host sent |
| ClientProtocol.FloatReplyRoundTrip | Python/unity_controller.py:51-60 | a 4-byte reply decodes to that word; a longer one is cut to its first 4 bytes; a shorter one fails |
| ClientProtocol.QueryCodeAsWritten | Python/unity_controller.py:41-60 | as written, was_released and get_trigger send the `controller_was_pressed` tag |
| ClientProtocol.QueryCode | Python/unity_controller.py:23-60 | corrected: each query sends its own tag; only was_released and get_trigger differ from the code as written |
| ClientProtocol.QueriesIndistinguishableAsWritten | Python/unity_controller.py:41-60 | as written, the frames of was_released(b) and get_trigger(b) equal that of was_pressed(b) |
| ClientProtocol.QueriesDistinguishable | Python/unity_controller.py:23-60 | with each query sending its own tag, two frames are equal iff the query and the argument are equal |
| ClientProtocol.PhysicsHeaderAsWritten | Python/unity_physics.py:9-21 | as written, both getters send `physics_get_linear_acceleration` |
| ClientProtocol.AngularVelocityRequestAsWritten | Python/unity_physics.py:16-21 | as written, get_angular_velocity sends `[27]`, the same frame as get_linear_acceleration |
| ClientProtocol.PhysicsHeader | Python/unity_physics.py:9-21 | corrected: each getter sends its own header |
| ClientProtocol.PhysicsRequestsDistinct | Python/unity_physics.py:9-21 | corrected, the two getters send `[27]` and `[28]` |
| ClientProtocol.PhysicsGet | Python/unity_physics.py:9-21 | corrected header: one header byte and one receive of at most 12 bytes; it succeeds exactly when 12 bytes arrive, and caches nothing |
| ClientProtocol.Vec3RoundTrip | Python/unity_physics.py:13-14 | the host's 12-byte vector reply decodes to x, y, z as sent |
| ClientRacecar.UpdateModules | Python/unity_racecar.py:117-119 | corrected `__update_modules`: the lidar's cache goes stale and its sweep is kept |
| ClientRacecar.RunStep | Python/unity_racecar.py:84-102 | one turn of `go()`: start runs the start callback and then replies `python_finished`. Update runs the update callback, invalidates the modules and replies `python_finished`. Exit breaks, and any other value replies `error` |
| ClientRacecar.Run | Python/unity_racecar.py:82-102 | `go()`: turns of the loop until it breaks, raises, or runs out of datagrams |
| ClientRacecar.FetchRanges | Python/unity_lidar.py:17-23 | a current cache is returned without traffic. Otherwise one `lidar_get_ranges` header goes out and one receive of at most 2880 bytes is decoded as float32 values |
| ClientRacecar.DeltaTime | Python/unity_racecar.py:109-112 | one `racecar_get_delta_time` header, one receive of at most 4 bytes, decoded as exactly one float |
| ClientRacecar.Racecar.constructor | Python/unity_racecar.py:67-80 | no callbacks, `update_slow_time` 1, and a fresh lidar with a stale cache |
| ClientRacecar.Racecar.SendHeader | Python/unity_racecar.py:55-56 | exactly one datagram, the one-byte tag, is added to the log |
| ClientRacecar.Racecar.Receive | Python/unity_racecar.py:63-65 | the next datagram, cut to the buffer size, is consumed |
| ClientRacecar.Racecar.SetStartUpdate | Python/unity_racecar.py:104-107 | the three callbacks are stored and nothing else changes |
| ClientRacecar.Racecar.SetUpdateSlowTime | Python/unity_racecar.py:114-115 | only the slow interval changes |
| ClientRacecar.Racecar.GetDeltaTime | Python/unity_racecar.py:109-112 | the exchange and result of DeltaTime |
| ClientRacecar.Racecar.GoOnce | Python/unity_racecar.py:84-102 | one turn of the loop, as RunStep specifies, with `__update_modules` as written (an update raises after the user's update) or corrected |
| ClientRacecar.Racecar.Go | Python/unity_racecar.py:82-102 | the whole loop, as Run specifies, for either version of `__update_modules` |
| ClientRacecar.Lidar.constructor | Python/unity_lidar.py:9-12 | no sweep yet, and not current |
| ClientRacecar.Lidar.GetLength | Python/unity_lidar.py:14-15 | always 720, with no exchange |
| ClientRacecar.Lidar.GetRanges | Python/unity_lidar.py:17-23 | the state and result of FetchRanges |
| ClientRacecar.Lidar.Update | Python/unity_lidar.py:25-26 | only the freshness flag is cleared; the cached sweep is untouched |
| ClientProperties.RunUntilExit | Python/unity_racecar.py:82-102 | with `__update_modules` corrected and both callbacks set: `go()` handles every event before the first `unity_exit`, with exactly their effects. It leaves every later datagram unread and breaks |
| ClientProperties.OneReplyPerEvent | Python/unity_racecar.py:82-102 | with `__update_modules` corrected: exactly one reply datagram per event before exit, in event order, and none for exit |
| ClientProperties.ExitStops | Python/unity_racecar.py:96-98 | `unity_exit` ends the loop with nothing sent |
| ClientProperties.RunContinues | Python/unity_racecar.py:84-102 | a turn that does not end the loop hands over to the next turn |
| ClientProperties.OnlyStartAndUpdateRun | Python/unity_racecar.py:82-115 | only the start and update callbacks ever run; `update_slow` and its interval are stored and never used by the loop |
| ClientProperties.CorrectedNeverCrashes | Python/unity_racecar.py:89-95 | with `__update_modules` corrected and both callbacks set, the loop never raises |
| ClientProperties.MissingCallbackCrashes | Python/unity_racecar.py:89-93 | a start or update event with no callback set raises before anything is sent |
| ClientProperties.UnexpectedEventAnswered | Python/unity_racecar.py:88-102 | an unrecognised event runs no callback, is answered with the error tag (0), and the loop goes on |
| ClientProperties.UpdateOrder | Python/unity_racecar.py:92-95 | an update runs the user's update, then invalidates the lidar, then replies `python_finished`, in that order |
| ClientProperties.UpdateCrashesAsWritten | Python/unity_racecar.py:117-119 | as written, the first update event raises after the user's update ran; no reply is sent and the lidar is not invalidated |
| ClientProperties.EventHeaderOfTag | Python/unity_racecar.py:85-86 | a one-byte event datagram is dispatched on its own value, and so is a longer one whose later bytes are zero |
| ClientProperties.StaleFetchExchanges | Python/unity_lidar.py:17-22 | a stale fetch sends exactly one `lidar_get_ranges` header (`[26]`) and consumes at most one datagram |
| ClientProperties.FetchCached | Python/unity_lidar.py:17-23 | a second fetch in the same frame returns the first's sweep with no traffic |
| ClientProperties.SweepRoundTrip | Python/unity_lidar.py:20-21 | the host's 2880-byte reply for a 720-sample sweep decodes to the same 720 samples |
| ClientProperties.LongReplyTruncated | Python/unity_lidar.py:20 | a reply longer than a sweep is cut to its first 720 samples |
| ClientProperties.DeltaTimeRoundTrip | Python/unity_racecar.py:109-112 | the host's 4-byte delta-time reply decodes to the word sent |
| ImageBuffers.ImageConstants | RacecarSim/Assets/Scripts/Racecar/CameraModule.cs:253 | a row holds 4·640 bytes and the image 480 rows of them |
| ImageBuffers.ReversedRows | RacecarSim/Assets/Scripts/Racecar/CameraModule.cs:345-352 | the texture bytes (mip level 0 and any mip levels after it) give a 4·640·480-byte image of level 0 with its rows in reverse order |
| ImageBuffers.RowReversedAt | RacecarSim/Assets/Scripts/Racecar/CameraModule.cs:349-352 | byte k of row r of the copy is byte k of source row 479 − r |
| ImageBuffers.ReversedRowsInvolution | RacecarSim/Assets/Scripts/Racecar/CameraModule.cs:345-352 | reversing the rows twice gives mip level 0 back |
| ImageBuffers.LevelZeroOnly | RacecarSim/Assets/Scripts/Racecar/CameraModule.cs:347-352 | bytes after the first 4·640·480 of the texture data (the mip levels) do not change the copy |
| ImageBuffers.BlockCopy | RacecarSim/Assets/Scripts/Racecar/CameraModule.cs:351 | `Buffer.BlockCopy` copies the counted bytes to the destination offset and changes no other byte |
| ImageBuffers.CopyRowsReversed | RacecarSim/Assets/Scripts/Racecar/CameraModule.cs:347-352 | for texture data of at least 4·640·480 bytes, after the row loop the destination array is ReversedRows of the source |
| ImageBuffers.CopyRow | RacecarSim/Assets/Scripts/Racecar/CameraModule.cs:351 | for texture data of at least 4·640·480 bytes, one BlockCopy extends the reversed prefix by one row |
| ImageBuffers.RangeCode | RacecarSim/Assets/Scripts/Racecar/CameraModule.cs:373-383 | a hit beyond the minimum range gives distance·10; a closer hit and no hit give 0 |
| ImageBuffers.EncodeRow | RacecarSim/Assets/Scripts/Racecar/CameraModule.cs:397-399 | a depth row's bytes are 4 per float |
| ImageBuffers.RowMajorLength | RacecarSim/Assets/Scripts/Racecar/CameraModule.cs:252 | a depth image of H rows of width W flattens to 4·W·H bytes |
| ImageBuffers.RowMajorRow | RacecarSim/Assets/Scripts/Racecar/CameraModule.cs:395-400 | row r occupies bytes `[r*W*4, (r+1)*W*4)` of the flattened image |
| Camera.DepthSample | RacecarSim/Assets/Scripts/Racecar/CameraModule.cs:373-383 | a hit beyond 1.05 gives distance·10; a closer hit gives 0 and no hit gives 0 |
| Camera.DepthImageOf | RacecarSim/Assets/Scripts/Racecar/CameraModule.cs:362-388 | one sample per pixel, each given by the sample rule on that pixel's raycast |
| Camera.DepthRow | RacecarSim/Assets/Scripts/Racecar/CameraModule.cs:366-384 | one row of samples by the sample rule |
| Camera.DepthSizes | RacecarSim/Assets/Scripts/Racecar/CameraModule.cs:65-70 | the factors 32, 16 and 8 give depth images of 20×15, 40×30 and 80×60 |
| Camera.CameraModule.constructor | RacecarSim/Assets/Scripts/Racecar/CameraModule.cs:240-261 | buffers of 4·640·480 and 4·W·H bytes with W and H from the divide factor; every flag false |
| Camera.CameraModule.UpdateColorImageRaw | RacecarSim/Assets/Scripts/Racecar/CameraModule.cs:345-356 | for the texture's raw data, mip levels included, the buffer becomes level 0 with its rows reversed, in place, and the flag is set |
| Camera.CameraModule.ColorImageRaw | RacecarSim/Assets/Scripts/Racecar/CameraModule.cs:87-97 | recomputed from the texture's raw data (mip levels included) only when invalid, else returned unchanged |
| Camera.CameraModule.UpdateDepthImage | RacecarSim/Assets/Scripts/Racecar/CameraModule.cs:362-388 | the double loop leaves DepthImageOf the raycasts and sets the flag |
| Camera.CameraModule.DepthImage | RacecarSim/Assets/Scripts/Racecar/CameraModule.cs:102-113 | recomputed only when invalid |
| Camera.CameraModule.UpdateDepthImageRaw | RacecarSim/Assets/Scripts/Racecar/CameraModule.cs:393-403 | the raw buffer becomes the row-major bytes of the depth image, and the flag is set |
| Camera.CameraModule.FillDepthImageRaw | RacecarSim/Assets/Scripts/Racecar/CameraModule.cs:395-400 | the row loop leaves the row-major bytes in the array |
| Camera.CameraModule.CopyDepthRow | RacecarSim/Assets/Scripts/Racecar/CameraModule.cs:397-399 | one BlockCopy puts row r at bytes `[r*W*4, (r+1)*W*4)` |
| Camera.CameraModule.DepthImageRaw | RacecarSim/Assets/Scripts/Racecar/CameraModule.cs:119-130 | recomputed only when invalid: then the row-major bytes of the depth image, which is DepthImageOf(hits) when it was stale and the cached one otherwise; a valid buffer leaves bytes, depth image and its flag unchanged |
| Camera.CameraModule.GetColorImageRawAsync | RacecarSim/Assets/Scripts/Racecar/CameraModule.cs:169-174 | the request flag is set and the current buffer returned |
| Camera.CameraModule.GetDepthImageRawAsync | RacecarSim/Assets/Scripts/Racecar/CameraModule.cs:181-186 | the request flag is set and the current buffer returned |
| Camera.CameraModule.Update | RacecarSim/Assets/Scripts/Racecar/CameraModule.cs:269-281 | a requested buffer is refreshed and its request cleared, an unrequested one untouched; a depth refresh or a HUD makes the depth image valid, recomputed as DepthImageOf(hits) exactly when it was stale, and otherwise it and its flag are unchanged |
| Camera.CameraModule.LateUpdate | RacecarSim/Assets/Scripts/Racecar/CameraModule.cs:289-294 | the three validity flags are cleared and nothing else changes |
| DroneModule.StartingPosition.constructor | RacecarSim/Assets/Scripts/Racecar/Drone.cs:14 | the shared starting position starts at the origin |
| DroneModule.Drone.constructor | RacecarSim/Assets/Scripts/Racecar/Drone.cs:180-187 | a 4·640·480-byte buffer; both flags false |
| DroneModule.Drone.SetTargetHeight | RacecarSim/Assets/Scripts/Racecar/Drone.cs:115-118 | only the y of the target changes |
| DroneModule.Drone.Land | RacecarSim/Assets/Scripts/Racecar/Drone.cs:125-128 | the target becomes the starting position |
| DroneModule.Drone.Start | RacecarSim/Assets/Scripts/Racecar/Drone.cs:189-194 | the starting position and the target become the local position |
| DroneModule.Drone.UpdateDroneImageRaw | RacecarSim/Assets/Scripts/Racecar/Drone.cs:151-178 | for the mipmapped texture's raw data, the buffer becomes level 0 with its rows reversed, and the flag is set |
| DroneModule.Drone.DroneImageRaw | RacecarSim/Assets/Scripts/Racecar/Drone.cs:70-80 | recomputed only when invalid, else returned unchanged |
| DroneModule.Drone.GetDroneImageRawAsync | RacecarSim/Assets/Scripts/Racecar/Drone.cs:87-92 | the request flag is set and the current buffer returned |
| DroneModule.Drone.Update | RacecarSim/Assets/Scripts/Racecar/Drone.cs:196-202 | a requested refresh happens and the request is cleared |
| DroneModule.Drone.LateUpdate | RacecarSim/Assets/Scripts/Racecar/Drone.cs:206-209 | the image is invalidated |
| ImageCapture.ImageCaptureHelper.constructor | RacecarSim/Assets/Scripts/Racecar/ImageCaptureHelper.cs:54-57 | a 4·640·480-byte buffer; both flags false |
| ImageCapture.ImageCaptureHelper.UpdateRawImage | RacecarSim/Assets/Scripts/Racecar/ImageCaptureHelper.cs:102-129 | for the mipmapped texture's raw data, the buffer becomes level 0 with its rows reversed, and the flag is set |
| ImageCapture.ImageCaptureHelper.RawImage | RacecarSim/Assets/Scripts/Racecar/ImageCaptureHelper.cs:74-84 | recomputed only when invalid; the flag is true afterwards |
| ImageCapture.ImageCaptureHelper.GetRawImageAsync | RacecarSim/Assets/Scripts/Racecar/ImageCaptureHelper.cs:91-96 | the request flag is set and the buffer returned unchanged; no member ever clears either flag |
| HostLidar.TakeSample | RacecarSim/Assets/Scripts/Racecar/Lidar.cs:161-172 | a hit beyond 1.2 gives distance·10; a closer hit and no hit give 0 |
| HostLidar.PlottedHits | RacecarSim/Assets/Scripts/Racecar/Lidar.cs:101 | a sample is drawn exactly when its hit lies beyond the minimum range and within the 50-unit visualisation range |
| HostLidar.Swept | RacecarSim/Assets/Scripts/Racecar/Lidar.cs:141-146 | the sweep keeps 720 samples |
| HostLidar.SweptSlots | RacecarSim/Assets/Scripts/Racecar/Lidar.cs:141-146 | a slot is written exactly when it is one of the `count` slots from the start slot on, modulo 720 |
| HostLidar.WholeTurnsWriteNothing | RacecarSim/Assets/Scripts/Racecar/Lidar.cs:138-141 | when the step count is a multiple of 720, no sample is written |
| HostLidar.Lidar.constructor | RacecarSim/Assets/Scripts/Racecar/Lidar.cs:116-126 | 720 samples, all 0; the cursor at 0 |
| HostLidar.Lidar.FixedUpdate | RacecarSim/Assets/Scripts/Racecar/Lidar.cs:136-147 | the cursor becomes (old + steps) mod 720. The slots old, old+1, … (mod 720) are written with new samples and every other sample is unchanged |
| HostLidar.Lidar.SampleOnce | RacecarSim/Assets/Scripts/Racecar/Lidar.cs:143-145 | one loop iteration writes the cursor's slot and advances the cursor mod 720 |
| GameSettings.DepthDivideFactorOf | RacecarSim/Assets/Scripts/Static/Settings.cs:81-87 | 32, 16 and 8 for Low, Moderate and High; a resolution outside the table throws |
| GameSettings.BoolToInt | RacecarSim/Assets/Scripts/Static/Settings.cs:105-106 | a bool stored as 0/1 converts back to itself |
| GameSettings.Saved | RacecarSim/Assets/Scripts/Static/Settings.cs:103-109 | the store gains exactly the four settings keys |
| GameSettings.LoadAfterSave | RacecarSim/Assets/Scripts/Static/Settings.cs:103-126 | loading after saving gives back the same four values |
| GameSettings.MissingKeysLoadDefaults | RacecarSim/Assets/Scripts/Static/Settings.cs:120-126 | a store without the keys loads as the defaults |
| GameSettings.DefaultFactor | RacecarSim/Assets/Scripts/Static/Settings.cs:9 | the default resolution, High, gives the factor 8 |
| GameSettings.Settings.constructor | RacecarSim/Assets/Scripts/Static/Settings.cs:112-115 | the values are loaded and cheat mode is off |
| GameSettings.Settings.RestoreDefaults | RacecarSim/Assets/Scripts/Static/Settings.cs:92-98 | realism on, cars shown, High, "Default"; cheat mode untouched |
| GameSettings.Settings.SaveSettings | RacecarSim/Assets/Scripts/Static/Settings.cs:103-109 | the store becomes Saved of the current values |
| GameSettings.Settings.LoadSettings | RacecarSim/Assets/Scripts/Static/Settings.cs:120-126 | the values become Loaded of the store |
| GameSettings.Settings.DepthDivideFactor | RacecarSim/Assets/Scripts/Static/Settings.cs:81-87 | the factor is 32, 16 or 8, from the stored resolution; the lookup throws exactly when the resolution is outside the table |
| Prefs.IntOr | RacecarSim/Assets/Scripts/Static/Settings.cs:122-124 | `PlayerPrefs.GetInt(key, default)`: the stored int, else the default |
| Prefs.FloatOr | RacecarSim/Assets/Scripts/Static/BestTimes.cs:111 | `PlayerPrefs.GetFloat(key, default)`: the stored float, else the default |
| Prefs.StringOr | RacecarSim/Assets/Scripts/Static/Settings.cs:125 | `PlayerPrefs.GetString(key, default)`: the stored string, else the default |
| SlowScheduling.Invoke | RacecarSim/Assets/Scripts/Racecar.cs:23 | an unset callback is skipped without error |
| SlowScheduling.Countdown | RacecarSim/Assets/Scripts/Racecar.cs:30-35 | the counter drops by dt; when it reaches 0 or below it is reset to the interval and update_slow fires once |
| SlowScheduling.QuietFrames | RacecarSim/Assets/Scripts/Racecar.cs:30-35 | frames in which update_slow does not fire just consume the countdown |
| SlowScheduling.FirstFrameFires | RacecarSim/Assets/Scripts/Racecar.cs:11 | the counter starts at 0, so the first Update fires update_slow |
| SlowScheduling.Racecar.constructor | RacecarSim/Assets/Scripts/Racecar.cs:6-11 | no callbacks, interval 1, counter 0 |
| SlowScheduling.Racecar.Start | RacecarSim/Assets/Scripts/Racecar.cs:20-24 | the start callback runs once if it is set |
| SlowScheduling.Racecar.Update | RacecarSim/Assets/Scripts/Racecar.cs:26-36 | the update callback runs first, then the countdown step, and update_slow when it fires |
| SlowScheduling.Racecar.SetStartUpdate | RacecarSim/Assets/Scripts/Racecar.cs:38-43 | the three callbacks are stored |
| SlowScheduling.Racecar.SetUpdateSlowTime | RacecarSim/Assets/Scripts/Racecar.cs:50-53 | only the interval changes, not the running counter |
| ScriptedController.Press | RacecarSim/Assets/Scripts/LevelManagement/Autograder/ControllerOverride.cs:57-67 | true iff the next scripted press is this button. It then advances the index by one and records the button and time; otherwise nothing changes |
| ScriptedController.Release | RacecarSim/Assets/Scripts/LevelManagement/Autograder/ControllerOverride.cs:136-148 | last frame's release is forgotten. A press held for more than 0.5 s becomes this frame's release and is no longer pressed |
| ScriptedController.ReleasedForOneFrame | RacecarSim/Assets/Scripts/LevelManagement/Autograder/ControllerOverride.cs:136-148 | a release is reported for one Update cycle only |
| ScriptedController.PressesInOrder | RacecarSim/Assets/Scripts/LevelManagement/Autograder/ControllerOverride.cs:57-67 | whatever is asked, the buttons answered true are exactly the next scripted presses in order, each once; the index never passes the end |
| ScriptedController.ControllerOverride.constructor | RacecarSim/Assets/Scripts/LevelManagement/Autograder/ControllerOverride.cs:99-129 | the configuration is stored; nothing pressed or released; the index at 0 |
| ScriptedController.ControllerOverride.HeldButton | RacecarSim/Assets/Scripts/LevelManagement/Autograder/ControllerOverride.cs:123-129 | none exactly when the editor value is START, else that button |
| ScriptedController.ControllerOverride.IsDown | RacecarSim/Assets/Scripts/LevelManagement/Autograder/ControllerOverride.cs:47-50 | down iff the button is the held one (never START) or the one currently pressed |
| ScriptedController.ControllerOverride.WasPressed | RacecarSim/Assets/Scripts/LevelManagement/Autograder/ControllerOverride.cs:57-67 | the answer and the new state are those of Press |
| ScriptedController.ControllerOverride.WasReleased | RacecarSim/Assets/Scripts/LevelManagement/Autograder/ControllerOverride.cs:74-77 | true iff this button is the one released this frame |
| ScriptedController.ControllerOverride.GetTrigger | RacecarSim/Assets/Scripts/LevelManagement/Autograder/ControllerOverride.cs:84-87 | the configured value of that side |
| ScriptedController.ControllerOverride.GetJoystick | RacecarSim/Assets/Scripts/LevelManagement/Autograder/ControllerOverride.cs:94-97 | the configured value of that side; none where the configured table is too short and the lookup throws |
| ScriptedController.ControllerOverride.Update | RacecarSim/Assets/Scripts/LevelManagement/Autograder/ControllerOverride.cs:136-148 | the new state is Release of the old |
| Autograder.Decide | RacecarSim/Assets/Scripts/LevelManagement/Autograder/AutograderManager.cs:186-195 | the run ends on the last level, or on a required level scored below its maximum; otherwise it moves to the next level, which exists |
| Autograder.AutograderRun.constructor | RacecarSim/Assets/Scripts/LevelManagement/Autograder/AutograderManager.cs:30-34 | level 0 and no scores |
| Autograder.AutograderRun.ResetAutograder | RacecarSim/Assets/Scripts/LevelManagement/Autograder/AutograderManager.cs:30-34 | the level index becomes 0 and the score list empty; the run is valid afterwards exactly when it has a level, so a valid run stays valid |
| Autograder.AutograderManager.constructor | RacecarSim/Assets/Scripts/LevelManagement/Autograder/AutograderManager.cs:145-149 | task 0, score 0, not started, not finished, nothing enabled |
| Autograder.AutograderManager.Start | RacecarSim/Assets/Scripts/LevelManagement/Autograder/AutograderManager.cs:151-154 | the current task is enabled; with no task the lookup throws |
| Autograder.AutograderManager.HandleStart | RacecarSim/Assets/Scripts/LevelManagement/Autograder/AutograderManager.cs:70-77 | the start time is now |
| Autograder.AutograderManager.HandleError | RacecarSim/Assets/Scripts/LevelManagement/Autograder/AutograderManager.cs:82-89 | one score entry is appended, without marking the level finished |
| Autograder.AutograderManager.FinishLevel | RacecarSim/Assets/Scripts/LevelManagement/Autograder/AutograderManager.cs:174-201 | only the first call appends one score entry, and it moves to the next level exactly when Decide says so; later calls change nothing |
| Autograder.AutograderManager.HandleFailure | RacecarSim/Assets/Scripts/LevelManagement/Autograder/AutograderManager.cs:94-97 | as FinishLevel: the first call appends the entry (score, elapsed time), returns Decide's result and moves to the next level exactly then; later calls change nothing |
| Autograder.AutograderManager.CompleteTask | RacecarSim/Assets/Scripts/LevelManagement/Autograder/AutograderManager.cs:40-64 | a task that is not current changes nothing. The current task adds its points, advances the index and is disabled; the next task is enabled if there is one. After the last task the level finishes as FinishLevel does (one entry, Decide's result) exactly when it need not wait for the car to stop; otherwise nothing else changes |
| Autograder.AutograderManager.Update | RacecarSim/Assets/Scripts/LevelManagement/Autograder/AutograderManager.cs:156-169 | the level finishes iff it started and either time ran out, or every task is done, stopping is required and the car is below MaxStopSeed. Finishing is FinishLevel: the first time, one entry and Decide's result; otherwise nothing changes |
| ParkingTask.Alpha | RacecarSim/Assets/Scripts/LevelManagement/Autograder/DestinationStop.cs:41-48 | always within [0.25, 1]; 0.25 before the stop begins; 1 exactly once the car has been stopped for the stop duration |
| ParkingTask.MovingCarShowsMinAlpha | RacecarSim/Assets/Scripts/LevelManagement/Autograder/DestinationStop.cs:31 | with the start time at float.MaxValue the region shows the minimum alpha |
| ParkingTask.DestinationStop.constructor | RacecarSim/Assets/Scripts/LevelManagement/Autograder/DestinationStop.cs:12-31 | the stop speed is stored and the start time is float.MaxValue |
| ParkingTask.DestinationStop.OnTriggerStay | RacecarSim/Assets/Scripts/LevelManagement/Autograder/DestinationStop.cs:61-81 | a non-car changes nothing. A slow car keeps min(startTime, now) and a fast one resets it to MaxValue. The task completes iff the car is slow and has been stopped for 1 s, and then alpha is 1 |
| KeyPoints.TypeValue | RacecarSim/Assets/Scripts/LevelManagement/KeyPoint.cs:27-32 | Start, Checkpoint, Finish are 0, 1, 2 |
| KeyPoints.Wrap32 | RacecarSim/Assets/Scripts/LevelManagement/KeyPoint.cs:46 | C# int subtraction wraps into 32 bits and is exact when no overflow occurs |
| KeyPoints.CompareToAsWritten | RacecarSim/Assets/Scripts/LevelManagement/KeyPoint.cs:39-47 | as written: a 32-bit result; across types it orders by type; within a type, when the difference does not overflow, it orders by index and is 0 only for equal points |
| KeyPoints.WrappedCompareNotAntisymmetric | RacecarSim/Assets/Scripts/LevelManagement/KeyPoint.cs:46 | as written, checkpoint indices 0 and int.MinValue each compare below the other |
| KeyPoints.AsWrittenAgreesInRange | RacecarSim/Assets/Scripts/LevelManagement/KeyPoint.cs:39-47 | without overflow the code as written gives the intended comparison |
| KeyPoints.CompareTo | RacecarSim/Assets/Scripts/LevelManagement/KeyPoint.cs:39-47 | corrected: across types it orders by type and is never 0; within a type it orders by index and is 0 exactly for equal points |
| KeyPoints.CompareSign | RacecarSim/Assets/Scripts/LevelManagement/KeyPoint.cs:39-47 | the sign follows Start < Checkpoint < Finish, then the index order; 0 exactly for equal points |
| KeyPoints.CompareAntisymmetric | RacecarSim/Assets/Scripts/LevelManagement/KeyPoint.cs:39-47 | `CompareTo(a, a) == 0` and `CompareTo(a, b) == -CompareTo(b, a)` |
| KeyPoints.CompareTransitive | RacecarSim/Assets/Scripts/LevelManagement/KeyPoint.cs:39-47 | the order is transitive |
| KeyPoints.OnTriggerEnter | RacecarSim/Assets/Scripts/LevelManagement/KeyPoint.cs:50-66 | Finish calls HandleFinish and Checkpoint calls HandleCheckpoint with the car and index; Start and a non-car do nothing; a collider without a rigidbody throws |
| VariableLevel.ColorIndex | RacecarSim/Assets/Scripts/LevelManagement/VariableManager.cs:42-53 | the enum value of a race colour is below 9 |
| VariableLevel.ColorValuesDistinct | RacecarSim/Assets/Scripts/LevelManagement/VariableManager.cs:90-101 | one colour value per RaceColor, in enum order, all distinct |
| VariableLevel.Turn | RacecarSim/Assets/Scripts/LevelManagement/VariableManager.cs:119 | Left iff the draw is below 0.5, else Right; never None |
| VariableLevel.RemoveAt | RacecarSim/Assets/Scripts/LevelManagement/VariableManager.cs:134 | `options.RemoveAt` drops exactly one entry, that one |
| VariableLevel.DrawOrder | RacecarSim/Assets/Scripts/LevelManagement/VariableManager.cs:127-135 | the drawing loop takes as many draws as there are options |
| VariableLevel.DrawOrderPermutes | RacecarSim/Assets/Scripts/LevelManagement/VariableManager.cs:130-135 | the order drawn is a permutation of the options |
| VariableLevel.ShuffleUsesEachOnce | RacecarSim/Assets/Scripts/LevelManagement/VariableManager.cs:130-135 | the colours written are a permutation of the set's mapped colours; each option is used exactly once |
| VariableLevel.Shuffle | RacecarSim/Assets/Scripts/LevelManagement/VariableManager.cs:127-135 | the inner loop fills a fresh array of the set's length with the mapped colours in draw order |
| VariableLevel.VariableManager.constructor | RacecarSim/Assets/Scripts/LevelManagement/VariableManager.cs:13-35 | the editor's turn count and three colour sets |
| VariableLevel.VariableManager.Awake | RacecarSim/Assets/Scripts/LevelManagement/VariableManager.cs:113-137 | `numVariableTurns` turns from the draws; exactly 3 colour sets, each a permutation of its mapped input |
| VariableLevel.VariableManager.GetVariableTurn | RacecarSim/Assets/Scripts/LevelManagement/VariableManager.cs:70-73 | the stored turn; none, where the index is out of range and the lookup throws |
| VariableLevel.VariableManager.GetVariableColor | RacecarSim/Assets/Scripts/LevelManagement/VariableManager.cs:81-84 | the stored colour; none, where either index is out of range |
| TrainSpawner.FirstFiringSpawnsNothing | RacecarSim/Assets/Scripts/LevelManagement/Train/TrainEntrance.cs:54-65 | from the initial state the first firing spawns nothing and starts spawning with numChunks left |
| TrainSpawner.Fire | RacecarSim/Assets/Scripts/LevelManagement/Train/TrainEntrance.cs:54-65 | a firing spawns exactly in a spawning run. It counts one chunk off; at the end of the run it switches between spawning and gaps and starts a run of numChunks or numEmptyChunks |
| TrainSpawner.TrainPattern | RacecarSim/Assets/Scripts/LevelManagement/Train/TrainEntrance.cs:54-65 | with both counts at least 1, the firings repeat as exactly numChunks spawns and then numEmptyChunks gaps |
| TrainSpawner.TrainEntrance.constructor | RacecarSim/Assets/Scripts/LevelManagement/Train/TrainEntrance.cs:8-47 | counter 0, no chunk left, not spawning |
| TrainSpawner.TrainEntrance.Update | RacecarSim/Assets/Scripts/LevelManagement/Train/TrainEntrance.cs:49-69 | while the decremented counter is positive nothing else changes. Otherwise the counter resets to Train.Length / speed and the cycle takes a Fire step. A chunk spawns only when it was already spawning |
| Elevators.CycleOfFour | RacecarSim/Assets/Scripts/LevelManagement/Elevator.cs:76-82 | the states cycle StopBottom, Raise, StopTop, Lower, back to StopBottom |
| Elevators.Clamp01 | RacecarSim/Assets/Scripts/LevelManagement/Elevator.cs:194 | Lerp's parameter is clamped to [0, 1] |
| Elevators.LerpBetween | RacecarSim/Assets/Scripts/LevelManagement/Elevator.cs:194 | the interpolated value lies between its ends |
| Elevators.CalculateSpeed | RacecarSim/Assets/Scripts/LevelManagement/Elevator.cs:192-196 | the speed lies between speed/4 and speed: speed/4 at the ends of the travel and full speed a fraction of the height away |
| Elevators.Elevator.constructor | RacecarSim/Assets/Scripts/LevelManagement/Elevator.cs:87-97 | StopBottom, counter 0, at rest |
| Elevators.Elevator.Start | RacecarSim/Assets/Scripts/LevelManagement/Elevator.cs:126-137 | counter = stopTime; a fraction outside [0, 0.5] is replaced by 0.25; one inside is kept |
| Elevators.Elevator.SetLightColor | RacecarSim/Assets/Scripts/LevelManagement/Elevator.cs:202-208 | the light takes the colour only when there is one |
| Elevators.Elevator.FixedUpdate | RacecarSim/Assets/Scripts/LevelManagement/Elevator.cs:139-186 | the state stays or takes one step round the cycle, and velocity is 0 in both stop states. At the bottom, crossing SlowTime only sets the slow colour and the wait ends when the counter runs out. Raise ends at CurHeight ≥ height, StopTop when its counter runs out, and Lower at CurHeight ≤ 0; the counter resets to stopTime |
| ArCycling.Succ | RacecarSim/Assets/Scripts/LevelManagement/ArMarkerToggle.cs:153 | `(i + 1) % n` is the next entry, wrapping from the last to the first, in range |
| ArCycling.Pred | RacecarSim/Assets/Scripts/LevelManagement/ArTagToggle.cs:59-64 | `(i + n - 1) % n` is the previous entry, wrapping from the first to the last, in range |
| ArCycling.SuccPredInverse | RacecarSim/Assets/Scripts/LevelManagement/ArTagToggle.cs:59-71 | a step back and a step on undo each other |
| ArCycling.AdvanceWraps | RacecarSim/Assets/Scripts/LevelManagement/ArMarkerToggle.cs:150-159 | k steps on from i is `(i + k) mod n`, for k up to a full turn |
| ArCycling.FullTurn | RacecarSim/Assets/Scripts/LevelManagement/ArMarkerToggle.cs:150-159 | n steps on come back to the same entry |
| ArMarkers.ArMarkerToggle.PaddingColor | RacecarSim/Assets/Scripts/LevelManagement/ArMarkerToggle.cs:113-124 | the padding shows the selected colour exactly when the marker is selected |
| ArMarkers.ArMarkerToggle.constructor | RacecarSim/Assets/Scripts/LevelManagement/ArMarkerToggle.cs:12-76 | the editor's configuration; both indices 0; not selected |
| ArMarkers.ArMarkerToggle.Start | RacecarSim/Assets/Scripts/LevelManagement/ArMarkerToggle.cs:131-136 | the initial pattern and colour, unselected. An index outside its table is stored, then the lookup throws and the rest is skipped |
| ArMarkers.ArMarkerToggle.Update | RacecarSim/Assets/Scripts/LevelManagement/ArMarkerToggle.cs:138-175 | no click changes nothing, and an unselected marker is only selected by a click on it. When selected, a left click steps the pattern and a right click the colour, and a click elsewhere deselects. Indices stay in range |
| ArTags.ArTagToggle.constructor | RacecarSim/Assets/Scripts/LevelManagement/ArTagToggle.cs:11-25 | the editor's tag index; colour counter 0; not selected |
| ArTags.ArTagToggle.Start | RacecarSim/Assets/Scripts/LevelManagement/ArTagToggle.cs:34-37 | the material lookup throws exactly when the index is outside the table |
| ArTags.ArTagToggle.Update | RacecarSim/Assets/Scripts/LevelManagement/ArTagToggle.cs:39-73 | a left click recomputes the selection as "hit this tag"; while unselected only the selection changes. A right click while selected advances the colour, shown modulo 4. Left and right Control step the tag back and on, and together they restore it. The index stays in range |
| BestTimeRecords.Index | RacecarSim/Assets/Scripts/Static/BestTimes.cs:22-29 | the enum value of a level; None is one past the table |
| BestTimeRecords.KeysDistinct | RacecarSim/Assets/Scripts/Static/BestTimes.cs:22-29 | the stored keys (the level names) are distinct |
| BestTimeRecords.Loaded | RacecarSim/Assets/Scripts/Static/BestTimes.cs:106-113 | four times; each the stored float, or float.MaxValue for a missing key |
| BestTimeRecords.LoadAfterClear | RacecarSim/Assets/Scripts/Static/BestTimes.cs:83-90 | after Clear every level's stored key holds float.MaxValue |
| BestTimeRecords.ClearedLoadsEmpty | RacecarSim/Assets/Scripts/Static/BestTimes.cs:83-113 | loading a cleared store gives float.MaxValue for every level |
| BestTimeRecords.Record | RacecarSim/Assets/Scripts/Static/BestTimes.cs:36-40 | corrected: the level's entry and its stored key become min(best, time); Level.None throws |
| BestTimeRecords.RecordAsWritten | RacecarSim/Assets/Scripts/Static/BestTimes.cs:36-40 | as written: the entry becomes min(best, time) but the raw time is stored; Level.None throws |
| BestTimeRecords.RecordPersists | RacecarSim/Assets/Scripts/Static/BestTimes.cs:36-40 | a best time never increases, is at most the new time, and reloading the store gives back what is in memory |
| BestTimeRecords.SlowerRunLosesBestAsWritten | RacecarSim/Assets/Scripts/Static/BestTimes.cs:39 | as written, a best of 10 s followed by a 20 s run reloads as 20 s |
| BestTimeRecords.JoinedNewlines | RacecarSim/Assets/Scripts/Static/BestTimes.cs:46-55 | n lines joined with "\n" contain exactly n − 1 newlines |
| BestTimeRecords.TimeLines | RacecarSim/Assets/Scripts/Static/BestTimes.cs:61-78 | corrected: one line per level, "Not yet complete" for MaxValue, else that level's time in seconds |
| BestTimeRecords.TimeLinesAsWritten | RacecarSim/Assets/Scripts/Static/BestTimes.cs:61-78 | as written: one line per level |
| BestTimeRecords.SecondLineShowsFirstTimeAsWritten | RacecarSim/Assets/Scripts/Static/BestTimes.cs:72 | as written, a completed second level shows the first level's time |
| BestTimeRecords.BestTimes.constructor | RacecarSim/Assets/Scripts/Static/BestTimes.cs:96-101 | the table is Loaded of the store |
| BestTimeRecords.BestTimes.LoadTimes | RacecarSim/Assets/Scripts/Static/BestTimes.cs:106-113 | the loop leaves Loaded of the store in the array |
| BestTimeRecords.BestTimes.Clear | RacecarSim/Assets/Scripts/Static/BestTimes.cs:83-90 | every entry and every stored key become float.MaxValue |
| BestTimeRecords.BestTimes.UpdateBestTime | RacecarSim/Assets/Scripts/Static/BestTimes.cs:36-40 | corrected: the array and store become Record's, so the best time is persisted; Level.None throws and changes nothing |
| BestTimeRecords.BestTimes.GetFormattedNames | RacecarSim/Assets/Scripts/Static/BestTimes.cs:46-55 | the four names joined by "\n" |
| BestTimeRecords.BestTimes.GetFormattedTimes | RacecarSim/Assets/Scripts/Static/BestTimes.cs:61-78 | the corrected lines joined by "\n", with no trailing newline |

## Left out

- UDP sockets, timeouts and the background listener thread are not modelled. A socket is an inbox and a send log; an exhausted inbox counts as a receive timeout.
  - Of the listener (`ProcessAsyncCalls`), only the `connect` handshake branch is kept.
  - Its `python_exit` branch and its async camera replies are left out, and so is `SendFragmentedAsync`: they run on another thread.
- HostInterface.PythonInterface.HandleExit: closing the two UDP clients is not modelled (I/O).
- HostInterface.PythonInterface.HandleError: the exception raised and caught when sending to an empty slot is modelled as "no datagram".
  - The level manager sees the reported code, not the error text.
- HostProtocol.Respond: the camera, controller, physics and clock values are inputs (`World`).
  - A datagram too short for its handler ends the turn with an exception (`Aborted`).
  - `racecar_go`, `display_show_image` and the other tags without a case take the default case, which ends the turn.
- HostProtocol.Send: the cost of a send and socket failures on send are not modelled.
- Unity rendering, raycasts, `Input`, physics and `Time` are parameters. This covers the rendered image, the raycast hits, the mouse and keys, the platform height, the speed and the frame times.
- Floating point is not modelled: times, speeds and distances are `real`s, and wire floats are opaque words.
  - Float rounding, NaN and infinities are not captured.
  - Nor is the realism noise: a hit's distance is given with its noise.
- Camera.CameraModule: depth visualisation, field of view, the culling mask and the `Thread.Sleep` of the async getters are left out. They are presentation, engine calls or timing.
- Camera.CameraModule.UpdateColorImageRaw, DroneModule.Drone.UpdateDroneImageRaw and ImageCapture.ImageCaptureHelper.UpdateRawImage take the texture's raw data with its mip chain: only the first 4·640·480 bytes (mip level 0) are read, the mip levels are not modelled, and raw data shorter than level 0 (where BlockCopy would throw) cannot come from a 640×480 RGBA32 texture and is excluded.
- Camera.CameraModule: the jagged `float[][]` depth image is a sequence of rows. Aliasing between the rows and the raw buffer is not modelled.
- DroneModule.Drone: the Lerp motion towards the target and the camera field of view are left out (floating point, engine).
- HostLidar.Lidar.FixedUpdate: the step count is an input. It stands for `Mathf.RoundToInt(4320 · Time.deltaTime)`, a float rounding.
  - The transform rotation for each sample is not kept.
- HostLidar: `OnTriggerEnter` (reporting a collision to the level manager) and the pixel math of `VisualizeLidar` are left out. Only its sample filter is kept, as `Plotted`.
- GameSettings.Settings: `DefaultFixedDeltaTime` (an engine value) is left out. PlayerPrefs is a map from keys to typed values (`Prefs`).
- SlowScheduling.Racecar: `Awake` and the centre-of-mass change in `Start` are engine calls and are left out.
- ClientProtocol: the drive and controller modules read their tags from `FunctionCode`, which the Python `Racecar` class does not define.
  - The frames are therefore built from a `FunctionCodes` parameter, and on the real code each such call raises AttributeError before sending.
- ClientProtocol.ButtonQuery: sends the corrected tag of each query. As written, `was_released` sends `controller_was_pressed` (Findings); QueriesIndistinguishableAsWritten states that frame.
- ClientProtocol.TriggerQuery: sends the corrected get_trigger tag. As written, it sends `controller_was_pressed` (Findings).
- ClientProtocol.PhysicsGet: sends the corrected header. As written, `get_angular_velocity` sends `[27]`, the linear-acceleration request, and gets the linear acceleration back (Findings); AngularVelocityRequestAsWritten states that frame.
- ClientProtocol.TriggerQuery: the receive of get_trigger goes through `self.__racecar.Racecar`, which does not exist. The model gives the intended single receive, not the AttributeError raised after the send.
- `drive.stop` (Python/unity_drive.py:18-19) calls `_Racecar__send_call`, which the Python `Racecar` class does not define. It raises before sending anything, so there is no frame to model.
- ClientRacecar: the event value is read little-endian (`sys.byteorder` on the usual hosts).
  - `bool.from_bytes` without a byte order needs Python 3.11 or later; the model reads it as a test for a non-zero byte.
  - Printing is left out.
  - The camera and display modules are left out, since they are data-only.
- ClientProperties.RunUntilExit and ClientProperties.OneReplyPerEvent: proved for `go()` with `__update_modules` corrected. As written, the first `unity_update` event raises after the user's update and gets no reply (UpdateCrashesAsWritten, Findings).
- ClientRacecar: the user's start and update callbacks are logged by name, not executed. Their own sends, receives and exceptions are not modelled. RunUntilExit, OneReplyPerEvent and CorrectedNeverCrashes hold for callbacks that do no I/O and never raise.
- The host's and the client's tag tables are modelled separately, and no claim is made that they interoperate on tag values.
- Autograder: AutograderLevelInfo.cs declares no `DoNotProceedUntilStopped`; it is modelled as a per-level boolean.
  - The HUD updates and the level manager calls are left out (UI).
- ParkingTask.DestinationStop: the material colour is kept as the alpha alone.
- TrainSpawner.TrainEntrance.Update: requires `speed != 0`. The source would divide by zero, and a float division by zero is not modelled.
  - Instantiating the chunk is the `spawned` result.
- Elevators.Elevator.FixedUpdate and Elevators.CalculateSpeed: require a non-zero fraction and height while moving, for the same reason.
  - CurHeight is an input, and only the vertical velocity is kept.
- ArTags.ArTagToggle: the colour counter is a `nat`, so the C# int overflow after 2^31 right clicks is not modelled. The scroll-wheel rotation is left out.
- ArTags.ArTagToggle.Update and ArMarkers.ArMarkerToggle.Update: require the indices in range. Frames after a Start that threw are not modelled.
- ArMarkers.ArMarkerToggle: renderer materials are given by the indices and colours they show. The scroll-wheel rotation is left out.
- VariableLevel.VariableManager.Awake: the `Random` draws are inputs (a value per turn, an index per draw).
  - `numVariableTurns` is a `nat`; a negative count would throw.
- KeyPoints.OnTriggerEnter: the level-manager calls are its result.
- BestTimeRecords.BestTimes.UpdateBestTime: persists the new best time, the corrected behaviour. As written, BestTimes.cs:39 stores the raw time (RecordAsWritten, SlowerRunLosesBestAsWritten, Findings).
- BestTimeRecords.BestTimes.GetFormattedTimes: formats each level's own time, the corrected behaviour. As written, BestTimes.cs:72 formats `times[0]` on every line (TimeLinesAsWritten, SecondLineShowsFirstTimeAsWritten, Findings).
- PlayerPrefs' own persistence to disk and `SavedDataManager` are left out (file I/O).

## Findings

| source | as written | input that shows it | evidently intended | confidence | as-written member | corrected member |
|---|---|---|---|---|---|---|
| Python/unity_controller.py:45 | `was_released` and `get_trigger` (line 55) send the `controller_was_pressed` tag | `was_released(B)` sends the same frame as `was_pressed(B)` | each query sends its own tag | high (not executed) | ClientProtocol.QueriesIndistinguishableAsWritten | ClientProtocol.QueriesDistinguishable |
| Python/unity_physics.py:16-21 | `get_angular_velocity` sends `physics_get_linear_acceleration` | `get_angular_velocity()` sends `[27]`, the linear-acceleration request | it sends `physics_get_angular_velocity` (`[28]`) | high (not executed) | ClientProtocol.AngularVelocityRequestAsWritten | ClientProtocol.PhysicsRequestsDistinct |
| Python/unity_racecar.py:117-119 | `__update_modules` calls `self.camera._Camera__update()`, which Python/unity_camera.py does not define | the first `unity_update` event: AttributeError after the user's update, so no `python_finished` is sent | invalidate the modules that cache, then reply | high (not executed) | ClientProperties.UpdateCrashesAsWritten | ClientProperties.UpdateOrder |
| RacecarSim/Assets/Scripts/Static/BestTimes.cs:72 | every completed line formats `times[0]` | times [10, 20, MaxValue, MaxValue]: the second line reads "10.00 seconds" | line i shows `times[i]` | high (not executed) | BestTimeRecords.SecondLineShowsFirstTimeAsWritten | BestTimeRecords.BestTimes.GetFormattedTimes |
| RacecarSim/Assets/Scripts/Static/BestTimes.cs:39 | the raw time is stored, not the best | best 10 s, then a 20 s run: after a reload the best reads 20 s | store the new best time | medium (not executed) | BestTimeRecords.SlowerRunLosesBestAsWritten | BestTimeRecords.RecordPersists |
| RacecarSim/Assets/Scripts/LevelManagement/KeyPoint.cs:46 | the index difference is an int subtraction that can overflow | checkpoints with indices 0 and int.MinValue each compare below the other | the sign of the index difference, without overflow | low: real indices are small (not executed) | KeyPoints.WrappedCompareNotAntisymmetric | KeyPoints.CompareAntisymmetric |
