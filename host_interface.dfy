/** The host's PythonInterface object: the endpoint table it mutates in
    place, and the per-frame service loop that talks to each connected
    client in turn. Each method is proved against the specification
    functions of HostProtocol. Sockets are replaced by an inbox of datagrams
    to be received and a log of datagrams sent. */
module HostInterface {
  import opened Wire
  import opened HostProtocol

  class PythonInterface {
    /** One slot per car; `None` is a car whose client disconnected. */
    var endPoints: seq<Option<Port>>
    /** Datagrams still to arrive on the synchronous socket. */
    var inbox: seq<Recv>
    /** Every datagram sent, oldest first. */
    var sent: seq<Datagram>
    /** Every command given to a car's drive, oldest first. */
    var drive: seq<DriveCmd>
    /** Every error code passed to the level manager, oldest first. */
    var reported: seq<byte>
    var wasExitHandled: bool
    /** LevelManager.NumPlayers: the most cars a level holds. */
    const numPlayers: nat
    /** The engine state the dispatcher reads while it serves a frame. */
    const world: World

    function State(): Link
      reads this
    {
      Link(endPoints, inbox, sent, drive, reported)
    }

    constructor (numPlayers: nat, world: World, inbox: seq<Recv>)
      ensures State() == Link([], inbox, [], [], [])
      ensures !wasExitHandled
      ensures this.numPlayers == numPlayers && this.world == world
    {
      this.numPlayers := numPlayers;
      this.world := world;
      this.inbox := inbox;
      endPoints := [];
      sent := [];
      drive := [];
      reported := [];
      wasExitHandled := false;
    }

    /** One flag per car, set when a client is connected to it. */
    function ConnectedPrograms(): (flags: seq<bool>)
      reads this
      ensures |flags| == |endPoints|
      ensures forall j :: 0 <= j < |endPoints| ==> (flags[j] <==> endPoints[j].Some?)
    {
      var eps := endPoints;
      seq(|eps|, j requires 0 <= j < |eps| => eps[j].Some?)
    }

    method ConnectSyncClient(port: Port) returns (index: Option<nat>)
      modifies this`endPoints
      ensures (endPoints, index) == ConnectClient(old(endPoints), port, numPlayers)
    {
      var i := 0;
      while i < |endPoints|
        invariant 0 <= i <= |endPoints| && endPoints == old(endPoints)
        invariant forall j :: 0 <= j < i ==> endPoints[j].Some?
      {
        if endPoints[i].None? {
          endPoints := endPoints[i := Some(port)];
          return Some(i);
        }
        i := i + 1;
      }
      if |endPoints| < numPlayers {
        index := Some(|endPoints|);
        endPoints := endPoints + [Some(port)];
      } else {
        index := None;
      }
    }

    method RemoveSyncClient(port: Port)
      modifies this`endPoints, this`drive
      ensures State() == Removed(old(State()), port)
    {
      RemovedFirst(State(), port, FirstWithPort(endPoints, port));
      ClearPort(port);
      TrimEndPoints();
    }

    /** The first part of RemoveSyncClient: the port's first slot emptied
        and that car's drive stopped. */
    method ClearPort(port: Port)
      modifies this`endPoints, this`drive
      ensures var k := FirstWithPort(old(endPoints), port);
              endPoints == (if k.Some? then old(endPoints)[k.value := None] else old(endPoints)) &&
              drive == old(drive) + if k.Some? then [Stop(k.value)] else []
    {
      var i := FindPort(port);
      if i < |endPoints| {
        endPoints := endPoints[i := None];
        drive := drive + [Stop(i)];
      }
    }

    /** The search loop of RemoveSyncClient: the first slot holding the
        port, or the table's length when none does. */
    method FindPort(port: Port) returns (i: nat)
      ensures i <= |endPoints|
      ensures FirstWithPort(endPoints, port) == if i < |endPoints| then Some(i) else None
    {
      i := 0;
      while i < |endPoints| && endPoints[i] != Some(port)
        invariant 0 <= i <= |endPoints|
        invariant forall j :: 0 <= j < i ==> endPoints[j] != Some(port)
      {
        i := i + 1;
      }
    }

    /** The loop that drops the empty slots at the end of the table. */
    method TrimEndPoints()
      modifies this`endPoints
      ensures endPoints == TrimTrailing(old(endPoints))
    {
      var j := |endPoints| - 1;
      while j >= 0
        invariant -1 <= j < |endPoints| <= |old(endPoints)| && j == |endPoints| - 1
        invariant TrimTrailing(endPoints) == TrimTrailing(old(endPoints))
      {
        if endPoints[j].None? {
          endPoints := endPoints[..j];
          j := j - 1;
        } else {
          break;
        }
      }
    }

    /** HandleError: the one-byte error notice to every connected client,
        the code reported to the level, the table emptied. */
    method HandleError(code: byte)
      modifies this`sent, this`reported, this`endPoints
      ensures State() == Errored(old(State()), code)
    {
      Broadcast([Code(Error)], ErrorNotice);
      reported := reported + [code];
      endPoints := [];
    }

    /** HandleExit: the first call sends `unity_exit` to every connected
        client and empties the table; later calls do nothing. */
    method HandleExit()
      modifies this`sent, this`endPoints, this`wasExitHandled
      ensures wasExitHandled
      ensures old(wasExitHandled) ==> sent == old(sent) && endPoints == old(endPoints)
      ensures !old(wasExitHandled) ==>
                endPoints == [] &&
                sent == old(sent) + Notices(old(endPoints), [Code(UnityExit)], ExitNotice)
    {
      if !wasExitHandled {
        Broadcast([Code(UnityExit)], ExitNotice);
        endPoints := [];
        wasExitHandled := true;
      }
    }

    /** The loop HandleError and HandleExit share: `data` to every
        occupied slot, in slot order. */
    method Broadcast(data: seq<byte>, kind: Kind)
      modifies this`sent
      ensures sent == old(sent) + Notices(endPoints, data, kind)
    {
      var i := 0;
      while i < |endPoints|
        invariant 0 <= i <= |endPoints|
        invariant sent == old(sent) + Notices(endPoints[..i], data, kind)
      {
        NoticesStep(endPoints, i, data, kind);
        if endPoints[i].Some? {
          sent := sent + [Datagram(endPoints[i].value, data, kind)];
        }
        i := i + 1;
      }
      assert endPoints[..i] == endPoints;
    }

    /** SafeRecieve: the next datagram, or `None` after HandleError. */
    method SafeRecieve() returns (data: Option<seq<byte>>)
      modifies this`inbox, this`sent, this`reported, this`endPoints
      ensures (State(), data) == Receive(old(State()))
    {
      if inbox == [] {
        HandleError(ErrorByte(Timeout));
        return None;
      }
      var next := inbox[0];
      inbox := inbox[1..];
      match next
      case Packet(d) =>
        data := Some(d);
      case TimedOut =>
        HandleError(ErrorByte(Timeout));
        data := None;
      case SocketFailure =>
        HandleError(ErrorByte(Generic));
        data := None;
    }

    /** One iteration of SendFragmented's loop: send chunk `i`, then
        receive its acknowledgement and act on it. */
    method SendChunk(bytes: seq<byte>, numPackets: nat, i: nat, port: Port) returns (done: Option<Delivery>)
      requires 0 < numPackets && i < numPackets
      modifies this`inbox, this`sent, this`reported, this`endPoints, this`drive
      ensures (State(), done) == ChunkStep(old(State()), bytes, numPackets, i, port)
    {
      var blockSize := |bytes| / numPackets;
      ChunkBounds(i, numPackets, |bytes|);
      sent := sent + [Datagram(port, bytes[i * blockSize .. i * blockSize + blockSize], Chunk)];
      var response := SafeRecieve();
      if response.None? || |response.value| == 0 {
        done := Some(Thrown);
      } else if response.value[0] == Code(PythonSendNext) {
        done := None;
      } else if response.value[0] == Code(PythonExit) {
        RemoveSyncClient(port);
        done := Some(Stopped);
      } else {
        HandleError(ErrorByte(FragmentMismatch));
        done := Some(Stopped);
      }
    }

    /** SendFragmented: `numPackets` equal chunks, one acknowledgement
        awaited after each. `ok` is the method's result; `thrown` says that
        it ended in an exception instead (a failed receive, an empty ack). */
    method SendFragmented(bytes: seq<byte>, numPackets: nat, port: Port) returns (ok: bool, thrown: bool)
      requires 0 < numPackets
      modifies this`inbox, this`sent, this`reported, this`endPoints, this`drive
      ensures var f := Fragments(old(State()), bytes, numPackets, 0, port);
              State() == f.0 && ok == (f.1 == Delivered) && thrown == (f.1 == Thrown)
    {
      var i := 0;
      while i < numPackets
        invariant 0 <= i <= numPackets
        invariant Fragments(State(), bytes, numPackets, i, port) == Fragments(old(State()), bytes, numPackets, 0, port)
      {
        var done := SendChunk(bytes, numPackets, i, port);
        if done.Some? {
          return false, done.value == Thrown;
        }
        i := i + 1;
      }
      return true, false;
    }

    /** One pass of the `switch` in PythonCall, for a request from the client
        of car `i` at `port`. */
    method ServeRequest(i: nat, port: Port, data: seq<byte>) returns (turn: Turn)
      modifies this`inbox, this`sent, this`reported, this`endPoints, this`drive
      ensures (State(), turn) == Serve1(old(State()), i, port, data, world)
    {
      if |data| == 0 {
        return Aborted;
      }
      var h := FromCode(data[0]);
      if h == Some(Error) {
        if |data| < 2 {
          return Aborted;
        }
        HandleError(data[1]);
        turn := Finished;
      } else if h == Some(PythonFinished) {
        turn := Finished;
      } else if h == Some(PythonExit) {
        RemoveSyncClient(port);
        turn := Finished;
      } else if h == Some(CameraGetColorImage) {
        var ok, thrown := SendFragmented(world.cars(i).colorImage, 32, port);
        turn := if ok then Continue else if thrown then Aborted else Finished;
      } else {
        var a := Respond(h, data, i, world);
        drive := drive + a.cmds;
        if a.reply.Some? {
          sent := sent + [Datagram(port, a.reply.value, Reply)];
        }
        turn := a.turn;
      }
    }

    /** The request loop of PythonCall for the client of car `i` at `port`,
        after its event header went out. */
    method ServeClient(i: nat, port: Port) returns (thrown: bool)
      modifies this`inbox, this`sent, this`reported, this`endPoints, this`drive
      ensures (State(), thrown) == Serve(old(State()), i, port, world)
    {
      var finished := false;
      thrown := false;
      while !finished
        invariant !finished ==> !thrown && Serve(State(), i, port, world) == Serve(old(State()), i, port, world)
        invariant finished ==> Serve(old(State()), i, port, world) == (State(), thrown)
        decreases |inbox| + (if finished then 0 else 1)
      {
        var data := SafeRecieve();
        if data.None? {
          finished := true;
        } else {
          var turn := ServeRequest(i, port, data.value);
          if turn != Continue {
            finished := true;
            thrown := turn == Aborted;
          }
        }
      }
    }

    /** PythonCall: for each connected client in slot order, send the event
        header and serve its requests until its turn ends. `thrown` says that
        an exception escaped, which ends the call. */
    method PythonCall(call: Header) returns (thrown: bool)
      modifies this`inbox, this`sent, this`reported, this`endPoints, this`drive
      ensures var r := CallFrom(old(State()), call, 0, world);
              State() == r.0 && thrown == r.2
    {
      var i: nat := 0;
      while i < |endPoints|
        invariant CallFrom(State(), call, i, world).0 == CallFrom(old(State()), call, 0, world).0
        invariant CallFrom(State(), call, i, world).2 == CallFrom(old(State()), call, 0, world).2
        decreases |endPoints| - i
      {
        thrown := CallSlot(call, i);
        if thrown {
          return;
        }
        i := i + 1;
      }
      CallFromEnd(State(), call, i, world);
      return false;
    }

    /** One pass of PythonCall's loop: an occupied slot gets the event
        header, then its turn. */
    method CallSlot(call: Header, i: nat) returns (thrown: bool)
      requires i < |endPoints|
      modifies this`inbox, this`sent, this`reported, this`endPoints, this`drive
      ensures |endPoints| <= old(|endPoints|)
      ensures var r := CallFrom(old(State()), call, i, world);
              if thrown then State() == r.0 && r.2
              else CallFrom(State(), call, i + 1, world).0 == r.0 && CallFrom(State(), call, i + 1, world).2 == r.2
    {
      ghost var st := State();
      thrown := false;
      if endPoints[i].Some? {
        var port := endPoints[i].value;
        sent := sent + [Datagram(port, [Code(call)], EventHeader)];
        assert State() == Send(st, port, [Code(call)], EventHeader);
        thrown := ServeClient(i, port);
        CallFromOccupied(st, call, i, world);
      } else {
        CallFromSkips(st, call, i, world);
      }
    }

    method HandleStart() returns (thrown: bool)
      modifies this`inbox, this`sent, this`reported, this`endPoints, this`drive
      ensures var r := CallFrom(old(State()), UnityStart, 0, world);
              State() == r.0 && thrown == r.2
    {
      thrown := PythonCall(UnityStart);
    }

    method HandleUpdate() returns (thrown: bool)
      modifies this`inbox, this`sent, this`reported, this`endPoints, this`drive
      ensures var r := CallFrom(old(State()), UnityUpdate, 0, world);
              State() == r.0 && thrown == r.2
    {
      thrown := PythonCall(UnityUpdate);
    }
  }
}
