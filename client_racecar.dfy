/** The Python client's Racecar object (Python/unity_racecar.py) and its
    Lidar module (Python/unity_lidar.py): the event loop that answers each
    host event with one reply, and the per-frame cache of the lidar sweep.

    The socket is replaced by an inbox of datagrams still to arrive and a
    log of what the process did in order: the datagrams it sent, the user
    callbacks it invoked, the lidar invalidations. The user's start and
    update functions are named, not executed. */
module ClientRacecar {
  import opened Wire
  import opened ClientProtocol

  /** The name of a user function handed to set_start_update. */
  type Callback = string

  datatype Effect = Sent(data: seq<byte>) | Called(callback: Callback) | LidarInvalidated

  /** How go() ends: it breaks on unity_exit, an exception escapes from it,
      or it waits forever on recvfrom because no datagram arrives. */
  datatype Outcome = Exited | Crashed | Blocked

  /** The result of an exchange that receives: the decoded value, a receive
      that never completes, or an exception (struct.error, ValueError). */
  datatype Fetch<T> = Got(value: T) | NoReply | Raised

  /** What go() reads and changes. */
  datatype Client = Client(inbox: seq<seq<byte>>, log: seq<Effect>, lidarCurrent: bool)

  datatype Callbacks = Callbacks(start: Option<Callback>, update: Option<Callback>)

  /** How __update_modules behaves: as written it first calls
      `camera._Camera__update`, which the Camera class does not define; the
      corrected version refreshes the modules that do define an update, the
      lidar. */
  datatype Modules = AsWritten | Corrected

  /** The size of go()'s receive buffer. */
  const EventBufferSize: nat := 256

  /** The value go() dispatches on: the received bytes read in native
      (little-endian) byte order. */
  function EventHeader(datagram: seq<byte>): nat
  {
    UIntLE(Received(datagram, EventBufferSize))
  }

  /** __update_modules corrected: the lidar's cached sweep goes stale. */
  function UpdateModules(c: Client): (r: Client)
    ensures !r.lidarCurrent && r.inbox == c.inbox && r.log == c.log + [LidarInvalidated]
  {
    c.(log := c.log + [LidarInvalidated], lidarCurrent := false)
  }

  /** One turn of go()'s loop on the datagram at the head of the inbox: the
      new state, and how the loop ends if it does. */
  function RunStep(c: Client, cb: Callbacks, m: Modules): (r: (Client, Option<Outcome>))
    requires c.inbox != []
    ensures r.0.inbox == c.inbox[1..]
    ensures c.log <= r.0.log
  {
    var header := EventHeader(c.inbox[0]);
    var c1 := c.(inbox := c.inbox[1..]);
    if header == Value(UnityStart) then
      if cb.start.None? then (c1, Some(Crashed))
      else (c1.(log := c1.log + [Called(cb.start.value), Sent(HeaderFrame(PythonFinished))]), None)
    else if header == Value(UnityUpdate) then
      if cb.update.None? then (c1, Some(Crashed))
      else
        var c2 := c1.(log := c1.log + [Called(cb.update.value)]);
        match m
        case AsWritten =>
          // camera._Camera__update raises AttributeError
          (c2, Some(Crashed))
        case Corrected =>
          var u := UpdateModules(c2);
          (u.(log := u.log + [Sent(HeaderFrame(PythonFinished))]), None)
    else if header == Value(UnityExit) then (c1, Some(Exited))
    else (c1.(log := c1.log + [Sent(HeaderFrame(Error))]), None)
  }

  /** go(): turns of the loop until it breaks, raises, or runs out of
      datagrams. */
  function Run(c: Client, cb: Callbacks, m: Modules): (r: (Client, Outcome))
    ensures c.log <= r.0.log
    ensures |r.0.inbox| <= |c.inbox| && r.0.inbox == c.inbox[|c.inbox| - |r.0.inbox|..]
    decreases |c.inbox|
  {
    if c.inbox == [] then (c, Blocked)
    else
      var s := RunStep(c, cb, m);
      if s.1.Some? then (s.0, s.1.value)
      else Run(s.0, cb, m)
  }

  // ---------------------------------------------------------------------
  // The lidar cache

  /** What Lidar.get_ranges reads and changes: the racecar's socket and log,
      and the lidar's cached sweep and its freshness flag. */
  datatype LidarView = LidarView(inbox: seq<seq<byte>>, log: seq<Effect>, ranges: Option<seq<Word>>, isCurrent: bool)

  /** Lidar.__LENGTH: the samples in one sweep. */
  const LidarLength: nat := 720

  /** A current cache always holds a sweep. */
  predicate CacheValid(v: LidarView)
  {
    v.isCurrent ==> v.ranges.Some?
  }

  /** get_ranges: a current cache is returned as is; otherwise one header
      goes out and one receive of at most 2880 bytes is decoded as float32
      values (ValueError when its length is not a multiple of 4). */
  function FetchRanges(v: LidarView): (r: (LidarView, Fetch<seq<Word>>))
    requires CacheValid(v)
    ensures CacheValid(r.0)
    ensures v.isCurrent ==> r == (v, Got(v.ranges.value))
    ensures r.1.Got? ==> r.0.isCurrent && r.0.ranges == Some(r.1.value)
    ensures !r.1.Got? ==> r.0.ranges == v.ranges && r.0.isCurrent == v.isCurrent
  {
    if v.isCurrent then (v, Got(v.ranges.value))
    else
      var v1 := v.(log := v.log + [Sent(HeaderFrame(LidarGetRanges))]);
      if v1.inbox == [] then (v1, NoReply)
      else
        var raw := Received(v1.inbox[0], LidarLength * 4);
        var v2 := v1.(inbox := v1.inbox[1..]);
        match Words(raw)
        case None => (v2, Raised)
        case Some(ws) => (v2.(ranges := Some(ws), isCurrent := true), Got(ws))
  }

  /** racecar.get_delta_time: one header, one receive of at most 4 bytes,
      exactly one float. */
  function DeltaTime(c: Client): (r: (Client, Fetch<Word>))
    ensures r.0.log == c.log + [Sent(HeaderFrame(RacecarGetDeltaTime))]
    ensures r.0.lidarCurrent == c.lidarCurrent
    ensures c.inbox == [] <==> r.1 == NoReply
  {
    var c1 := c.(log := c.log + [Sent(HeaderFrame(RacecarGetDeltaTime))]);
    if c1.inbox == [] then (c1, NoReply)
    else
      var c2 := c1.(inbox := c1.inbox[1..]);
      match UnpackFloat(Received(c1.inbox[0], 4))
      case None => (c2, Raised)
      case Some(w) => (c2, Got(w))
  }

  // ---------------------------------------------------------------------
  // The objects

  class Racecar {
    /** Datagrams still to arrive on the client socket. */
    var inbox: seq<seq<byte>>
    /** Everything the process did, oldest first. */
    var log: seq<Effect>
    var start: Option<Callback>
    var update: Option<Callback>
    var updateSlow: Option<Callback>
    var updateSlowTime: real
    var lidar: Lidar

    function State(): Client
      reads this, lidar
    {
      Client(inbox, log, lidar.isCurrent)
    }

    function Registered(): Callbacks
      reads this
    {
      Callbacks(start, update)
    }

    constructor (inbox: seq<seq<byte>>)
      ensures this.inbox == inbox && log == []
      ensures start == None && update == None && updateSlow == None && updateSlowTime == 1.0
      ensures fresh(lidar) && lidar.racecar == this && lidar.ranges == None && !lidar.isCurrent
    {
      this.inbox := inbox;
      log := [];
      start := None;
      update := None;
      updateSlow := None;
      updateSlowTime := 1.0;
      lidar := new Lidar();
      new;
      lidar.racecar := this;
    }

    /** __send_header: one one-byte datagram. */
    method SendHeader(h: ClientHeader)
      modifies this`log
      ensures log == old(log) + [Sent(HeaderFrame(h))]
    {
      log := log + [Sent(HeaderFrame(h))];
    }

    /** __receive_data: the next datagram, cut to the buffer size; `None`
        when none arrives. */
    method Receive(bufsize: nat) returns (data: Option<seq<byte>>)
      modifies this`inbox
      ensures old(inbox) == [] ==> data == None && inbox == []
      ensures old(inbox) != [] ==> data == Some(Received(old(inbox)[0], bufsize)) && inbox == old(inbox)[1..]
    {
      if inbox == [] {
        return None;
      }
      data := Some(Received(inbox[0], bufsize));
      inbox := inbox[1..];
    }

    method SetStartUpdate(start: Option<Callback>, update: Option<Callback>, updateSlow: Option<Callback>)
      modifies this`start, this`update, this`updateSlow
      ensures this.start == start && this.update == update && this.updateSlow == updateSlow
    {
      this.start := start;
      this.update := update;
      this.updateSlow := updateSlow;
    }

    method SetUpdateSlowTime(updateSlowTime: real)
      modifies this`updateSlowTime
      ensures this.updateSlowTime == updateSlowTime
    {
      this.updateSlowTime := updateSlowTime;
    }

    method GetDeltaTime() returns (r: Fetch<Word>)
      modifies this`inbox, this`log
      ensures (State(), r) == DeltaTime(old(State()))
    {
      SendHeader(RacecarGetDeltaTime);
      var data := Receive(4);
      if data.None? {
        return NoReply;
      }
      var f := UnpackFloat(data.value);
      r := if f.Some? then Got(f.value) else Raised;
    }

    /** One turn of go()'s loop, with `__update_modules` as written or
        corrected. */
    method GoOnce(m: Modules) returns (outcome: Option<Outcome>)
      requires inbox != []
      modifies this`inbox, this`log, lidar`isCurrent
      ensures (State(), outcome) == RunStep(old(State()), Registered(), m)
    {
      var data := Receive(EventBufferSize);
      var header := UIntLE(data.value);
      var response := Error;
      if header == Value(UnityStart) {
        if start.None? {
          return Some(Crashed);
        }
        log := log + [Called(start.value)];
        SendHeader(PythonFinished);
        assert log == old(log) + [Called(start.value), Sent(HeaderFrame(PythonFinished))];
      } else if header == Value(UnityUpdate) {
        if update.None? {
          return Some(Crashed);
        }
        log := log + [Called(update.value)];
        if m == AsWritten {
          // camera._Camera__update raises AttributeError
          return Some(Crashed);
        }
        lidar.Update();
        log := log + [LidarInvalidated];
        SendHeader(PythonFinished);
      } else if header == Value(UnityExit) {
        return Some(Exited);
      } else {
        SendHeader(Error);
      }
      outcome := None;
    }

    /** go(): answers each event until unity_exit. */
    method Go(m: Modules) returns (outcome: Outcome)
      modifies this`inbox, this`log, lidar`isCurrent
      ensures (State(), outcome) == Run(old(State()), Registered(), m)
    {
      while true
        invariant Run(State(), Registered(), m) == Run(old(State()), Registered(), m)
        decreases |inbox|
      {
        if inbox == [] {
          return Blocked;
        }
        var o := GoOnce(m);
        if o.Some? {
          return o.value;
        }
      }
    }
  }

  class Lidar {
    /** The racecar whose socket the lidar talks through; the two objects
        refer to each other, so the link is made once both exist. */
    var racecar: Racecar?
    /** The sweep last received; `None` before the first get_ranges. */
    var ranges: Option<seq<Word>>
    /** Whether `ranges` was received during the current frame. */
    var isCurrent: bool

    function View(): LidarView
      requires racecar != null
      reads this, racecar
    {
      LidarView(racecar.inbox, racecar.log, ranges, isCurrent)
    }

    constructor ()
      ensures racecar == null && ranges == None && !isCurrent
    {
      racecar := null;
      ranges := None;
      isCurrent := false;
    }

    /** get_length: the sweep size, without any exchange. */
    function GetLength(): (n: nat)
      ensures n == LidarLength
    {
      LidarLength
    }

    method GetRanges() returns (r: Fetch<seq<Word>>)
      requires racecar != null && CacheValid(View())
      modifies this`ranges, this`isCurrent, racecar`inbox, racecar`log
      ensures CacheValid(View())
      ensures (View(), r) == FetchRanges(old(View()))
    {
      if isCurrent {
        return Got(ranges.value);
      }
      racecar.SendHeader(LidarGetRanges);
      var raw := racecar.Receive(LidarLength * 4);
      if raw.None? {
        return NoReply;
      }
      var ws := Words(raw.value);
      if ws.None? {
        return Raised;
      }
      ranges := ws;
      isCurrent := true;
      r := Got(ws.value);
    }

    /** __update: the cached sweep goes stale; the sweep itself is kept. */
    method Update()
      modifies this`isCurrent
      ensures !isCurrent
    {
      isCurrent := false;
    }
  }
}
