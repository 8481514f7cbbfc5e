/** Properties of the client's event loop and lidar cache, stated on the
    specification functions its methods are proved against. */
module ClientProperties {
  import opened Wire
  import opened ClientProtocol
  import opened ClientRacecar
  import HostProtocol

  /** The datagrams in a log, in the order they were sent. */
  function Sends(log: seq<Effect>): (out: seq<seq<byte>>)
    ensures |out| <= |log|
  {
    if log == [] then []
    else (if log[0].Sent? then [log[0].data] else []) + Sends(log[1..])
  }

  /** The user callbacks in a log, in the order they ran. */
  function Calls(log: seq<Effect>): (out: seq<Callback>)
    ensures |out| <= |log|
  {
    if log == [] then []
    else (if log[0].Called? then [log[0].callback] else []) + Calls(log[1..])
  }

  lemma {:induction false} SendsAppend(a: seq<Effect>, b: seq<Effect>)
    ensures Sends(a + b) == Sends(a) + Sends(b)
  {
    if a == [] {
      assert a + b == b;
    } else {
      assert (a + b)[0] == a[0] && (a + b)[1..] == a[1..] + b;
      SendsAppend(a[1..], b);
    }
  }

  lemma {:induction false} CallsAppend(a: seq<Effect>, b: seq<Effect>)
    ensures Calls(a + b) == Calls(a) + Calls(b)
  {
    if a == [] {
      assert a + b == b;
    } else {
      assert (a + b)[0] == a[0] && (a + b)[1..] == a[1..] + b;
      CallsAppend(a[1..], b);
    }
  }

  /** The reply go() owes an event: python_finished for unity_start and
      unity_update, the error tag for anything it does not recognise. */
  function ReplyTo(datagram: seq<byte>): seq<byte>
  {
    var h := EventHeader(datagram);
    if h == Value(UnityStart) || h == Value(UnityUpdate) then [Value(PythonFinished)] else [Value(Error)]
  }

  predicate BothRegistered(cb: Callbacks)
  {
    cb.start.Some? && cb.update.Some?
  }

  /** What go() does for one event other than unity_exit, with both
      callbacks registered. */
  function EventEffects(datagram: seq<byte>, cb: Callbacks): seq<Effect>
    requires BothRegistered(cb)
  {
    var h := EventHeader(datagram);
    if h == Value(UnityStart) then [Called(cb.start.value), Sent([Value(PythonFinished)])]
    else if h == Value(UnityUpdate) then [Called(cb.update.value), LidarInvalidated, Sent([Value(PythonFinished)])]
    else [Sent([Value(Error)])]
  }

  function Effects(events: seq<seq<byte>>, cb: Callbacks): seq<Effect>
    requires BothRegistered(cb)
  {
    if events == [] then [] else EventEffects(events[0], cb) + Effects(events[1..], cb)
  }

  /** The lidar flag after a run of events: cleared by any update. */
  function LidarAfter(events: seq<seq<byte>>, current: bool): bool
  {
    if events == [] then current
    else LidarAfter(events[1..], current && EventHeader(events[0]) != Value(UnityUpdate))
  }

  predicate NoExit(events: seq<seq<byte>>)
  {
    forall k :: 0 <= k < |events| ==> EventHeader(events[k]) != Value(UnityExit)
  }

  /** One non-exit event: its effects, and the loop goes on. */
  lemma EventStep(c: Client, cb: Callbacks)
    requires BothRegistered(cb) && c.inbox != [] && EventHeader(c.inbox[0]) != Value(UnityExit)
    ensures RunStep(c, cb, Corrected) ==
              (Client(c.inbox[1..], c.log + EventEffects(c.inbox[0], cb),
                      c.lidarCurrent && EventHeader(c.inbox[0]) != Value(UnityUpdate)), None)
  {
    if EventHeader(c.inbox[0]) == Value(UnityUpdate) {
      UpdateOrder(c, cb);
    }
  }

  /** The datagrams and callbacks of one event's effects. */
  lemma EventSendsAndCalls(datagram: seq<byte>, cb: Callbacks)
    requires BothRegistered(cb)
    ensures Sends(EventEffects(datagram, cb)) == [ReplyTo(datagram)]
    ensures forall x :: x in Calls(EventEffects(datagram, cb)) ==> x == cb.start.value || x == cb.update.value
  {
    var e := EventEffects(datagram, cb);
    if |e| == 3 {
      assert Sends(e[2..]) == [ReplyTo(datagram)] && Calls(e[2..]) == [];
      assert Sends(e[1..]) == Sends(e[2..]) && Calls(e[1..]) == Calls(e[2..]);
    } else if |e| == 2 {
      assert Sends(e[1..]) == [ReplyTo(datagram)] && Calls(e[1..]) == [];
    }
  }

  /** unity_exit breaks the loop: nothing is sent and nothing more read. */
  lemma ExitStops(c: Client, cb: Callbacks, m: Modules)
    requires c.inbox != [] && EventHeader(c.inbox[0]) == Value(UnityExit)
    ensures Run(c, cb, m) == (c.(inbox := c.inbox[1..]), Exited)
  {
  }

  /** A turn that does not end the loop hands over to the next turn. */
  lemma RunContinues(c: Client, cb: Callbacks, m: Modules)
    requires c.inbox != [] && RunStep(c, cb, m).1 == None
    ensures Run(c, cb, m) == Run(RunStep(c, cb, m).0, cb, m)
  {
  }

  /** With both callbacks registered, go() consumes the events up to the
      first unity_exit, does exactly their effects, leaves every later
      datagram unread, and breaks. */
  lemma {:induction false} RunUntilExit(c: Client, events: seq<seq<byte>>, exit: seq<byte>, rest: seq<seq<byte>>, cb: Callbacks)
    requires BothRegistered(cb) && NoExit(events) && EventHeader(exit) == Value(UnityExit)
    requires c.inbox == events + [exit] + rest
    ensures Run(c, cb, Corrected) == (Client(rest, c.log + Effects(events, cb), LidarAfter(events, c.lidarCurrent)), Exited)
    decreases |events|
  {
    if events == [] {
      NoEventsThenExit(c, exit, rest, cb);
    } else {
      var c1 := FirstEvent(c, events, exit, rest, cb);
      RunUntilExit(c1, events[1..], exit, rest, cb);
      FirstEventEffects(c.log, c.lidarCurrent, events, cb);
    }
  }

  /** The effects and the lidar flag of the first event and then the rest
      are those of the whole run of events. */
  lemma FirstEventEffects(log: seq<Effect>, lidar: bool, events: seq<seq<byte>>, cb: Callbacks)
    requires BothRegistered(cb) && events != []
    ensures log + EventEffects(events[0], cb) + Effects(events[1..], cb) == log + Effects(events, cb)
    ensures LidarAfter(events[1..], lidar && EventHeader(events[0]) != Value(UnityUpdate)) == LidarAfter(events, lidar)
  {
  }

  lemma NoEventsThenExit(c: Client, exit: seq<byte>, rest: seq<seq<byte>>, cb: Callbacks)
    requires BothRegistered(cb) && EventHeader(exit) == Value(UnityExit)
    requires c.inbox == [exit] + rest
    ensures Run(c, cb, Corrected) == (Client(rest, c.log + Effects([], cb), LidarAfter([], c.lidarCurrent)), Exited)
  {
    assert c.inbox[0] == exit && c.inbox[1..] == rest;
    ExitStops(c, cb, Corrected);
    assert c.log + Effects([], cb) == c.log;
  }

  /** The first of several events before unity_exit: the state the loop
      goes on from. */
  lemma FirstEvent(c: Client, events: seq<seq<byte>>, exit: seq<byte>, rest: seq<seq<byte>>, cb: Callbacks) returns (c1: Client)
    requires BothRegistered(cb) && NoExit(events) && events != []
    requires c.inbox == events + [exit] + rest
    ensures c1 == Client(events[1..] + [exit] + rest, c.log + EventEffects(events[0], cb),
                         c.lidarCurrent && EventHeader(events[0]) != Value(UnityUpdate))
    ensures NoExit(events[1..])
    ensures Run(c, cb, Corrected) == Run(c1, cb, Corrected)
  {
    assert c.inbox[0] == events[0] && c.inbox[1..] == events[1..] + [exit] + rest;
    EventStep(c, cb);
    RunContinues(c, cb, Corrected);
    c1 := RunStep(c, cb, Corrected).0;
    assert NoExit(events[1..]) by {
      assert forall k :: 0 <= k < |events[1..]| ==> events[1..][k] == events[k + 1];
    }
  }

  /** Exactly one reply per event, in event order. */
  lemma {:induction false} OneReplyPerEvent(events: seq<seq<byte>>, cb: Callbacks)
    requires BothRegistered(cb)
    ensures Sends(Effects(events, cb)) == seq(|events|, k requires 0 <= k < |events| => ReplyTo(events[k]))
  {
    if events != [] {
      SendsAppend(EventEffects(events[0], cb), Effects(events[1..], cb));
      OneReplyPerEvent(events[1..], cb);
      EventSendsAndCalls(events[0], cb);
    }
  }

  /** Only the start and update callbacks ever run: the slow update and its
      period are stored and never used by the loop. */
  lemma {:induction false} OnlyStartAndUpdateRun(events: seq<seq<byte>>, cb: Callbacks)
    requires BothRegistered(cb)
    ensures forall x :: x in Calls(Effects(events, cb)) ==> x == cb.start.value || x == cb.update.value
  {
    if events != [] {
      CallsAppend(EventEffects(events[0], cb), Effects(events[1..], cb));
      OnlyStartAndUpdateRun(events[1..], cb);
      EventSendsAndCalls(events[0], cb);
    }
  }

  /** With both callbacks registered the corrected loop never raises. */
  lemma {:induction false} CorrectedNeverCrashes(c: Client, cb: Callbacks)
    requires BothRegistered(cb)
    ensures Run(c, cb, Corrected).1 != Crashed
    decreases |c.inbox|
  {
    if c.inbox != [] {
      var s := RunStep(c, cb, Corrected);
      if s.1.None? {
        CorrectedNeverCrashes(s.0, cb);
      }
    }
  }

  /** A start or update event with no callback registered raises (calling
      None) before anything is sent. */
  lemma MissingCallbackCrashes(c: Client, cb: Callbacks, m: Modules)
    requires c.inbox != []
    requires (EventHeader(c.inbox[0]) == Value(UnityStart) && cb.start.None?) ||
             (EventHeader(c.inbox[0]) == Value(UnityUpdate) && cb.update.None?)
    ensures Run(c, cb, m) == (c.(inbox := c.inbox[1..]), Crashed)
  {
  }

  /** An unrecognised event is answered with the error tag and the loop
      goes on. */
  lemma UnexpectedEventAnswered(c: Client, cb: Callbacks, m: Modules)
    requires c.inbox != []
    requires var h := EventHeader(c.inbox[0]); h != Value(UnityStart) && h != Value(UnityUpdate) && h != Value(UnityExit)
    ensures Run(c, cb, m) == Run(c.(inbox := c.inbox[1..], log := c.log + [Sent([0])]), cb, m)
  {
  }

  /** Corrected: an update runs the user's update, then invalidates the
      lidar, then replies python_finished, and the loop goes on. */
  lemma UpdateOrder(c: Client, cb: Callbacks)
    requires c.inbox != [] && EventHeader(c.inbox[0]) == Value(UnityUpdate) && cb.update.Some?
    ensures RunStep(c, cb, Corrected) ==
              (Client(c.inbox[1..], c.log + [Called(cb.update.value), LidarInvalidated, Sent([4])], false), None)
  {
    assert c.log + [Called(cb.update.value)] + [LidarInvalidated] + [Sent([4])]
        == c.log + [Called(cb.update.value), LidarInvalidated, Sent([4])];
  }

  /** As written: the first update event ends the loop in an exception after
      the user's update ran; the host never gets its reply and the lidar is
      never invalidated. */
  lemma {:induction false} UpdateCrashesAsWritten(c: Client, cb: Callbacks)
    requires c.inbox != [] && EventHeader(c.inbox[0]) == Value(UnityUpdate) && cb.update.Some?
    ensures Run(c, cb, AsWritten) == (Client(c.inbox[1..], c.log + [Called(cb.update.value)], c.lidarCurrent), Crashed)
    ensures Sends(Run(c, cb, AsWritten).0.log) == Sends(c.log)
  {
    SendsAppend(c.log, [Called(cb.update.value)]);
  }

  /** A one-byte tag datagram is dispatched on its own value; so is a longer
      one whose later bytes are zero. */
  lemma {:induction false} EventHeaderOfTag(t: byte, zeros: nat)
    requires zeros < EventBufferSize
    ensures EventHeader([t] + seq(zeros, _ => 0)) == t
  {
    var d: seq<byte> := [t] + seq(zeros, _ => 0);
    assert Received(d, EventBufferSize) == d;
    ZerosRead(seq(zeros, _ => 0));
    assert d[1..] == seq(zeros, _ => 0);
  }

  lemma {:induction false} ZerosRead(zs: seq<byte>)
    requires forall k :: 0 <= k < |zs| ==> zs[k] == 0
    ensures UIntLE(zs) == 0
  {
    if zs != [] {
      ZerosRead(zs[1..]);
    }
  }

  // ---------------------------------------------------------------------
  // The lidar cache

  /** A stale fetch sends exactly one lidar_get_ranges header and consumes
      at most one datagram. */
  lemma StaleFetchExchanges(v: LidarView)
    requires CacheValid(v) && !v.isCurrent
    ensures FetchRanges(v).0.log == v.log + [Sent([26])]
    ensures v.inbox != [] ==> FetchRanges(v).0.inbox == v.inbox[1..]
    ensures v.inbox == [] <==> FetchRanges(v).1 == NoReply
  {
  }

  /** Two fetches in one frame exchange once: the second returns the first's
      sweep and touches neither the socket nor the log. */
  lemma FetchCached(v: LidarView)
    requires CacheValid(v)
    requires FetchRanges(v).1.Got?
    ensures FetchRanges(FetchRanges(v).0) == FetchRanges(v)
  {
  }

  /** The host's reply, a whole 720-sample sweep flattened to 2880 bytes,
      comes back as the same 720 samples. */
  lemma {:induction false} SweepRoundTrip(v: LidarView, sweep: HostProtocol.Sweep)
    requires CacheValid(v) && !v.isCurrent && v.inbox != [] && v.inbox[0] == Flatten(sweep)
    ensures FetchRanges(v).1 == Fetch<seq<Word>>.Got(sweep)
    ensures |FetchRanges(v).1.value| == LidarLength
  {
    assert Received(Flatten(sweep), LidarLength * 4) == Flatten(sweep);
    WordsFlatten(sweep);
  }

  /** A reply longer than a sweep is cut to its first 720 samples. */
  lemma {:induction false} LongReplyTruncated(v: LidarView, ws: seq<Word>)
    requires CacheValid(v) && !v.isCurrent && v.inbox != [] && v.inbox[0] == Flatten(ws)
    requires |ws| >= LidarLength
    ensures FetchRanges(v).1 == Got(ws[..LidarLength])
  {
    FlattenPrefix(ws, LidarLength);
    assert Received(Flatten(ws), LidarLength * 4) == Flatten(ws[..LidarLength]);
    WordsFlatten(ws[..LidarLength]);
  }

  lemma {:induction false} FlattenPrefix(ws: seq<Word>, n: nat)
    requires n <= |ws|
    ensures Flatten(ws)[..4 * n] == Flatten(ws[..n])
  {
    if n > 0 {
      FlattenPrefix(ws[1..], n - 1);
      assert ws[..n][1..] == ws[1..][..n - 1];
      assert Flatten(ws) == ws[0] + Flatten(ws[1..]);
      assert Flatten(ws[..n]) == ws[0] + Flatten(ws[1..][..n - 1]);
    }
  }

  /** The host's 4-byte delta-time reply decodes to the word sent. */
  lemma DeltaTimeRoundTrip(c: Client, w: Word)
    requires c.inbox != [] && c.inbox[0] == w
    ensures DeltaTime(c).1 == Got(w)
    ensures DeltaTime(c).0.inbox == c.inbox[1..]
  {
  }
}
