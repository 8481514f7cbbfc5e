/** What the host's protocol promises, proved about the specification
    functions of HostProtocol (and so, through the methods' postconditions,
    about PythonInterface). */
module HostProperties {
  import opened Wire
  import opened HostProtocol

  // ---------------------------------------------------------------------
  // The endpoint table

  /** A table that RemoveClient produced never ends in an empty slot; on such
      a table, a successful connect of a new port followed by its removal
      gives the table back, and removal frees the very slot connect filled. */
  lemma {:induction false} ConnectThenRemove(eps: seq<Option<Port>>, port: Port, cap: nat)
    requires eps == [] || eps[|eps| - 1].Some?
    requires forall j :: 0 <= j < |eps| ==> eps[j] != Some(port)
    requires ConnectClient(eps, port, cap).1.Some?
    ensures RemoveClient(ConnectClient(eps, port, cap).0, port) == (eps, ConnectClient(eps, port, cap).1)
  {
    var (eps1, slot) := ConnectClient(eps, port, cap);
    var k := slot.value;
    FirstWithPortIs(eps1, port, k);
    RemoveFirst(eps1, port, k);
    if k < |eps| {
      RefillGivesBack(eps, k, port);
    } else {
      AppendGivesBack(eps, port);
    }
  }

  /** The first slot holding `port` is slot k. */
  lemma FirstWithPortIs(eps: seq<Option<Port>>, port: Port, k: nat)
    requires k < |eps| && eps[k] == Some(port)
    requires forall j :: 0 <= j < k ==> eps[j] != Some(port)
    ensures FirstWithPort(eps, port) == Some(k)
  {
  }

  lemma RemoveFirst(eps: seq<Option<Port>>, port: Port, k: nat)
    requires FirstWithPort(eps, port) == Some(k)
    ensures RemoveClient(eps, port) == (TrimTrailing(eps[k := None]), Some(k))
  {
  }

  /** Emptying again a filled empty slot gives the table back. */
  lemma RefillGivesBack(eps: seq<Option<Port>>, k: nat, port: Port)
    requires eps == [] || eps[|eps| - 1].Some?
    requires k < |eps| && eps[k].None?
    ensures TrimTrailing(eps[k := Some(port)][k := None]) == eps
  {
    assert eps[k := Some(port)][k := None] == eps;
  }

  /** Emptying a slot appended at the end gives the table back. */
  lemma AppendGivesBack(eps: seq<Option<Port>>, port: Port)
    requires eps == [] || eps[|eps| - 1].Some?
    ensures TrimTrailing((eps + [Some(port)])[|eps| := None]) == eps
  {
    var nulled := (eps + [Some(port)])[|eps| := None];
    assert nulled[..|nulled| - 1] == eps;
    assert TrimTrailing(eps) == eps;
  }

  // ---------------------------------------------------------------------
  // Fragmented sends

  /** The chunk datagrams of a send of `n` chunks, from chunk `i` on. */
  function Chunks(bytes: seq<byte>, n: nat, i: nat, port: Port): (ds: seq<Datagram>)
    requires 0 < n && i <= n
    ensures |ds| == n - i
    decreases n - i
  {
    if i == n then []
    else
      [Datagram(port, ChunkData(bytes, n, i), Chunk)] + Chunks(bytes, n, i + 1, port)
  }

  /** The bytes carried by a sequence of datagrams, concatenated. */
  function Payload(ds: seq<Datagram>): seq<byte>
  {
    if ds == [] then [] else ds[0].data + Payload(ds[1..])
  }

  /** The inbox begins with `k` acknowledgements asking for the next chunk. */
  ghost predicate AcksNext(inbox: seq<Recv>, k: nat)
  {
    k <= |inbox| &&
    forall j :: 0 <= j < k ==> inbox[j].Packet? && |inbox[j].data| > 0 && inbox[j].data[0] == Code(PythonSendNext)
  }

  /** When every remaining chunk is acknowledged with `python_send_next`, the
      send delivers: it sends exactly the remaining chunks, in order, to the
      client, consumes exactly one ack per chunk and changes nothing else. */
  lemma {:induction false} FragmentsDelivered(st: Link, bytes: seq<byte>, n: nat, i: nat, port: Port)
    requires 0 < n && i <= n
    requires AcksNext(st.inbox, n - i)
    ensures Fragments(st, bytes, n, i, port) ==
              (st.(sent := st.sent + Chunks(bytes, n, i, port), inbox := st.inbox[n - i..]), Delivered)
    decreases n - i
  {
    if i == n {
      assert st.sent + [] == st.sent && st.inbox[0..] == st.inbox;
    } else {
      var st1 := AckedChunk(st, bytes, n, i, port);
      FragmentsDelivered(st1, bytes, n, i + 1, port);
      assert st1.inbox[n - i - 1..] == st.inbox[n - i..];
      assert st.sent + Chunks(bytes, n, i, port) == st1.sent + Chunks(bytes, n, i + 1, port);
    }
  }

  /** An acknowledged chunk: the chunk goes out, the ack is consumed and
      the send goes on. */
  lemma AckedChunk(st: Link, bytes: seq<byte>, n: nat, i: nat, port: Port) returns (st1: Link)
    requires 0 < n && i < n
    requires AcksNext(st.inbox, n - i)
    ensures st1 == st.(sent := st.sent + [Datagram(port, ChunkData(bytes, n, i), Chunk)], inbox := st.inbox[1..])
    ensures ChunkStep(st, bytes, n, i, port) == (st1, None)
    ensures AcksNext(st1.inbox, n - i - 1)
  {
    st1 := st.(sent := st.sent + [Datagram(port, ChunkData(bytes, n, i), Chunk)], inbox := st.inbox[1..]);
    assert st.inbox[0].Packet? && st.inbox[0].data[0] == Code(PythonSendNext);
  }

  lemma ChunkRange(len: nat, n: nat, i: nat)
    requires 0 < n && i <= n
    ensures 0 <= i * (len / n) <= n * (len / n) <= len
  {
    MulMonotone(i, n, len / n);
  }

  /** Every chunk holds exactly b = |bytes| / n bytes and goes to the client. */
  lemma {:induction false} ChunksShape(bytes: seq<byte>, n: nat, i: nat, port: Port)
    requires 0 < n && i <= n
    ensures forall d :: d in Chunks(bytes, n, i, port) ==> |d.data| == |bytes| / n && d.port == port && d.kind == Chunk
    decreases n - i
  {
    if i < n {
      ChunksShape(bytes, n, i + 1, port);
    }
  }

  lemma PayloadCons(head: Datagram, rest: seq<Datagram>)
    ensures Payload([head] + rest) == head.data + Payload(rest)
  {
    assert ([head] + rest)[1..] == rest;
  }

  lemma SliceJoin(bytes: seq<byte>, lo: nat, mid: nat, hi: nat)
    requires lo <= mid <= hi <= |bytes|
    ensures bytes[lo .. mid] + bytes[mid .. hi] == bytes[lo .. hi]
  {
  }

  /** Chunk i and the chunks after it. */
  lemma ChunksUnfold(bytes: seq<byte>, n: nat, i: nat, port: Port)
    requires 0 < n && i < n
    ensures 0 <= i * (|bytes| / n) && (i + 1) * (|bytes| / n) <= |bytes|
    ensures (i + 1) * (|bytes| / n) == i * (|bytes| / n) + |bytes| / n
    ensures Chunks(bytes, n, i, port) ==
              [Datagram(port, bytes[i * (|bytes| / n) .. (i + 1) * (|bytes| / n)], Chunk)] + Chunks(bytes, n, i + 1, port)
  {
    ChunkBounds(i, n, |bytes|);
    assert (i + 1) * (|bytes| / n) == i * (|bytes| / n) + |bytes| / n;
  }

  /** The chunks carry bytes [i*b, n*b) of the buffer, in order. */
  lemma {:induction false} ChunksPayload(bytes: seq<byte>, n: nat, i: nat, port: Port)
    requires 0 < n && i <= n
    ensures 0 <= i * (|bytes| / n) <= n * (|bytes| / n) <= |bytes|
    ensures Payload(Chunks(bytes, n, i, port)) == bytes[i * (|bytes| / n) .. n * (|bytes| / n)]
    decreases n - i
  {
    ChunkRange(|bytes|, n, i);
    if i < n {
      ChunkRange(|bytes|, n, i + 1);
      ChunksUnfold(bytes, n, i, port);
      ChunksPayload(bytes, n, i + 1, port);
      var b := |bytes| / n;
      var lo, mid, hi := i * b, (i + 1) * b, n * b;
      PayloadCons(Datagram(port, bytes[lo .. mid], Chunk), Chunks(bytes, n, i + 1, port));
      SliceJoin(bytes, lo, mid, hi);
    }
  }

  /** Integer division drops the remainder: unless n divides the length, a
      delivered send leaves the last |bytes| mod n bytes unsent. */
  lemma RemainderNeverSent(bytes: seq<byte>, n: nat, port: Port)
    requires 0 < n
    ensures |Payload(Chunks(bytes, n, 0, port))| == |bytes| - |bytes| % n
    ensures Payload(Chunks(bytes, n, 0, port)) == bytes[..|bytes| - |bytes| % n]
  {
    var q := |bytes| / n;
    ChunksPayload(bytes, n, 0, port);
    assert 0 * q == 0;
    assert n * q == |bytes| - |bytes| % n;
    assert bytes[0 .. n * q] == bytes[..n * q];
  }

  /** The colour image is 4 * 640 * 480 bytes, which 32 divides: its 32
      chunks of 38400 bytes carry the whole image. */
  lemma ColorImageSplits(len: nat)
    requires len == 4 * 640 * 480
    ensures len % ColorImagePackets == 0 && len / ColorImagePackets == 38400
  {
    assert ColorImagePackets == 32;
  }

  lemma ColorImageWhole(bytes: seq<byte>, port: Port)
    requires |bytes| == 4 * 640 * 480
    ensures |Chunks(bytes, ColorImagePackets, 0, port)| == 32
    ensures Payload(Chunks(bytes, ColorImagePackets, 0, port)) == bytes
    ensures forall d :: d in Chunks(bytes, ColorImagePackets, 0, port) ==> |d.data| == 38400
  {
    ColorImageSplits(|bytes|);
    RemainderNeverSent(bytes, ColorImagePackets, port);
    ChunksShape(bytes, ColorImagePackets, 0, port);
    assert bytes[..|bytes|] == bytes;
  }

  // ---------------------------------------------------------------------
  // Where the datagrams of one client's turn go

  /** Everything sent between two states is a reply or a chunk to `port`,
      or an error notice (which goes to every client). */
  ghost predicate SentOnlyTo(before: Link, after: Link, port: Port)
  {
    before.sent <= after.sent &&
    forall k :: |before.sent| <= k < |after.sent| ==>
      (after.sent[k].kind in {Reply, Chunk} && after.sent[k].port == port) ||
      after.sent[k].kind == ErrorNotice
  }

  lemma SentOnlyToTransitive(a: Link, b: Link, c: Link, port: Port)
    requires SentOnlyTo(a, b, port) && SentOnlyTo(b, c, port)
    ensures SentOnlyTo(a, c, port)
  {
  }

  lemma ErroredSentOnlyTo(st: Link, code: byte, port: Port)
    ensures SentOnlyTo(st, Errored(st, code), port)
  {
    var r := Errored(st, code);
    forall k | |st.sent| <= k < |r.sent|
      ensures r.sent[k].kind == ErrorNotice
    {
      assert r.sent[k] == Notices(st.endPoints, [Code(Error)], ErrorNotice)[k - |st.sent|];
    }
  }

  lemma ReceiveSentOnlyTo(st: Link, port: Port)
    ensures SentOnlyTo(st, Receive(st).0, port)
  {
    if st.inbox == [] {
      ErroredSentOnlyTo(st, ErrorByte(Timeout), port);
    } else {
      var rest := st.(inbox := st.inbox[1..]);
      ErroredSentOnlyTo(rest, ErrorByte(Timeout), port);
      ErroredSentOnlyTo(rest, ErrorByte(Generic), port);
    }
  }

  lemma ChunkStepSentOnlyTo(st: Link, bytes: seq<byte>, n: nat, i: nat, port: Port)
    requires 0 < n && i < n
    ensures SentOnlyTo(st, ChunkStep(st, bytes, n, i, port).0, port)
  {
    var st1 := Send(st, port, ChunkData(bytes, n, i), Chunk);
    var st2 := Receive(st1).0;
    ReceiveSentOnlyTo(st1, port);
    ErroredSentOnlyTo(st2, ErrorByte(FragmentMismatch), port);
    SentOnlyToTransitive(st, st1, st2, port);
    SentOnlyToTransitive(st, st2, Errored(st2, ErrorByte(FragmentMismatch)), port);
  }

  lemma {:induction false} FragmentsSentOnlyTo(st: Link, bytes: seq<byte>, n: nat, i: nat, port: Port)
    requires 0 < n && i <= n
    ensures SentOnlyTo(st, Fragments(st, bytes, n, i, port).0, port)
    decreases n - i
  {
    if i < n {
      var st1 := ChunkStep(st, bytes, n, i, port).0;
      ChunkStepSentOnlyTo(st, bytes, n, i, port);
      FragmentsSentOnlyTo(st1, bytes, n, i + 1, port);
      SentOnlyToTransitive(st, st1, Fragments(st1, bytes, n, i + 1, port).0, port);
    }
  }

  lemma Serve1SentOnlyTo(st: Link, i: nat, port: Port, data: seq<byte>, w: World)
    ensures SentOnlyTo(st, Serve1(st, i, port, data, w).0, port)
  {
    if |data| > 0 {
      var h := FromCode(data[0]);
      if h == Some(Error) && |data| >= 2 {
        ErroredSentOnlyTo(st, data[1], port);
      } else if h == Some(CameraGetColorImage) {
        FragmentsSentOnlyTo(st, w.cars(i).colorImage, ColorImagePackets, 0, port);
      }
    }
  }

  /** Once its event header is out, a client's turn sends nothing but
      replies and chunks to that client, and error notices: no event
      header, and no datagram to another client except an error notice. */
  lemma {:induction false} ServeSentOnlyTo(st: Link, i: nat, port: Port, w: World)
    ensures SentOnlyTo(st, Serve(st, i, port, w).0, port)
    decreases |st.inbox|
  {
    var (st1, data) := Receive(st);
    ReceiveSentOnlyTo(st, port);
    if data.Some? {
      var (st2, t) := Serve1(st1, i, port, data.value, w);
      Serve1SentOnlyTo(st1, i, port, data.value, w);
      SentOnlyToTransitive(st, st1, st2, port);
      if t == Continue {
        ServeSentOnlyTo(st2, i, port, w);
        SentOnlyToTransitive(st, st2, Serve(st2, i, port, w).0, port);
      }
    }
  }

  // ---------------------------------------------------------------------
  // One event header per connected client, in slot order

  /** The event headers among some datagrams, in order. */
  function EventHeaders(ds: seq<Datagram>): (hs: seq<Datagram>)
    ensures forall d :: d in hs ==> d in ds && d.kind == EventHeader
  {
    if ds == [] then []
    else (if ds[0].kind == EventHeader then [ds[0]] else []) + EventHeaders(ds[1..])
  }

  lemma {:induction false} EventHeadersAppend(a: seq<Datagram>, b: seq<Datagram>)
    ensures EventHeaders(a + b) == EventHeaders(a) + EventHeaders(b)
  {
    if a != [] {
      assert (a + b)[1..] == a[1..] + b;
      EventHeadersAppend(a[1..], b);
    } else {
      assert a + b == b;
    }
  }

  lemma {:induction false} NoEventHeaders(ds: seq<Datagram>)
    requires forall k :: 0 <= k < |ds| ==> ds[k].kind != EventHeader
    ensures EventHeaders(ds) == []
  {
    if ds != [] {
      NoEventHeaders(ds[1..]);
    }
  }

  /** The event header each served slot receives, for the call of `f`. */
  function Announcements(eps: seq<Option<Port>>, served: seq<nat>, f: Header): (ds: seq<Datagram>)
    requires forall k :: 0 <= k < |served| ==> served[k] < |eps| && eps[served[k]].Some?
    ensures |ds| == |served|
  {
    if served == [] then []
    else [Datagram(eps[served[0]].value, [Code(f)], EventHeader)] + Announcements(eps, served[1..], f)
  }

  lemma {:induction false} AnnouncementsAgree(a: seq<Option<Port>>, b: seq<Option<Port>>, served: seq<nat>, f: Header)
    requires OnlyEmptied(a, b)
    requires forall k :: 0 <= k < |served| ==> served[k] < |b| && b[served[k]].Some?
    ensures forall k :: 0 <= k < |served| ==> served[k] < |a| && a[served[k]].Some?
    ensures Announcements(a, served, f) == Announcements(b, served, f)
  {
    if served != [] {
      AnnouncementsAgree(a, b, served[1..], f);
    }
  }

  /** The slots PythonCall from slot `i` served (in the order served) were
      occupied when the call began, are at least `i`, and increase. */
  ghost predicate ServedSlots(eps: seq<Option<Port>>, served: seq<nat>, i: nat)
  {
    (forall k :: 0 <= k < |served| ==> i <= served[k] < |eps| && eps[served[k]].Some?) &&
    (forall k, l :: 0 <= k < l < |served| ==> served[k] < served[l])
  }

  /** An occupied slot served before slots served from the next one,
      in a table that has since only lost endpoints. */
  lemma ServedSlotsCons(a: seq<Option<Port>>, b: seq<Option<Port>>, i: nat, rest: seq<nat>)
    requires i < |a| && a[i].Some? && OnlyEmptied(a, b) && ServedSlots(b, rest, i + 1)
    ensures ServedSlots(a, [i] + rest, i)
  {
    var served := [i] + rest;
    forall k | 0 <= k < |served| ensures i <= served[k] < |a| && a[served[k]].Some? {
      if k > 0 {
        assert served[k] == rest[k - 1];
      }
    }
    forall k, l | 0 <= k < l < |served| ensures served[k] < served[l] {
      assert served[l] == rest[l - 1];
      if k > 0 {
        assert served[k] == rest[k - 1];
      }
    }
  }

  /** The occupied-slot case of CallFromServedSlots, given the claim for
      the rest of the call. */
  lemma ServedOccupied(st: Link, f: Header, i: nat, w: World, turn: (Link, bool))
    requires i < |st.endPoints| && st.endPoints[i].Some?
    requires turn == Serve(Send(st, st.endPoints[i].value, [Code(f)], EventHeader), i, st.endPoints[i].value, w)
    requires !turn.1 ==> ServedSlots(turn.0.endPoints, CallFrom(turn.0, f, i + 1, w).1, i + 1)
    ensures ServedSlots(st.endPoints, CallFrom(st, f, i, w).1, i)
  {
    CallFromOccupied(st, f, i, w);
    if !turn.1 {
      ServedSlotsCons(st.endPoints, turn.0.endPoints, i, CallFrom(turn.0, f, i + 1, w).1);
    }
  }

  lemma {:induction false} CallFromServedSlots(st: Link, f: Header, i: nat, w: World)
    ensures ServedSlots(st.endPoints, CallFrom(st, f, i, w).1, i)
    decreases |st.endPoints| - i
  {
    if i >= |st.endPoints| {
      CallFromEnd(st, f, i, w);
    } else if st.endPoints[i].None? {
      CallFromSkips(st, f, i, w);
      CallFromServedSlots(st, f, i + 1, w);
    } else {
      var port := st.endPoints[i].value;
      var turn := Serve(Send(st, port, [Code(f)], EventHeader), i, port, w);
      if !turn.1 {
        CallFromServedSlots(turn.0, f, i + 1, w);
      }
      ServedOccupied(st, f, i, w, turn);
    }
  }

  /** An event header followed by datagrams sent only to one client adds
      exactly that header. */
  lemma HeaderThenOnlyTo(st: Link, st1: Link, st2: Link, header: Datagram, port: Port)
    requires st1.sent == st.sent + [header] && header.kind == EventHeader
    requires SentOnlyTo(st1, st2, port)
    ensures st.sent <= st2.sent && EventHeaders(st2.sent[|st.sent|..]) == [header]
  {
    var mid := st2.sent[|st1.sent|..];
    forall k | 0 <= k < |mid| ensures mid[k].kind != EventHeader {
      assert mid[k] == st2.sent[|st1.sent| + k];
    }
    NoEventHeaders(mid);
    assert st2.sent[|st.sent|..] == [header] + mid;
    EventHeadersAppend([header], mid);
    assert EventHeaders([header]) == [header];
  }

  /** The headers one client's turn adds: its own event header, then
      nothing but replies, chunks and error notices. */
  lemma TurnHeaders(st: Link, f: Header, i: nat, w: World)
    requires i < |st.endPoints| && st.endPoints[i].Some?
    ensures var port := st.endPoints[i].value;
            var st2 := Serve(Send(st, port, [Code(f)], EventHeader), i, port, w).0;
            st.sent <= st2.sent &&
            EventHeaders(st2.sent[|st.sent|..]) == [Datagram(port, [Code(f)], EventHeader)]
  {
    var port := st.endPoints[i].value;
    var st1 := Send(st, port, [Code(f)], EventHeader);
    ServeSentOnlyTo(st1, i, port, w);
    HeaderThenOnlyTo(st, st1, Serve(st1, i, port, w).0, Datagram(port, [Code(f)], EventHeader), port);
  }

  /** The occupied-slot case of CallFromAnnounces, given the claim for the
      rest of the call. */
  lemma AnnounceOccupied(st: Link, f: Header, i: nat, w: World, st2: Link, thrown: bool)
    requires i < |st.endPoints| && st.endPoints[i].Some?
    requires (st2, thrown) == Serve(Send(st, st.endPoints[i].value, [Code(f)], EventHeader), i, st.endPoints[i].value, w)
    requires !thrown ==>
               ServedSlots(st2.endPoints, CallFrom(st2, f, i + 1, w).1, i + 1) &&
               EventHeaders(CallFrom(st2, f, i + 1, w).0.sent[|st2.sent|..]) ==
                 Announcements(st2.endPoints, CallFrom(st2, f, i + 1, w).1, f)
    ensures ServedSlots(st.endPoints, CallFrom(st, f, i, w).1, i)
    ensures EventHeaders(CallFrom(st, f, i, w).0.sent[|st.sent|..]) == Announcements(st.endPoints, CallFrom(st, f, i, w).1, f)
  {
    CallFromServedSlots(st, f, i, w);
    TurnHeaders(st, f, i, w);
    var header := Datagram(st.endPoints[i].value, [Code(f)], EventHeader);
    if !thrown {
      var r2 := CallFrom(st2, f, i + 1, w);
      AnnouncementsAgree(st.endPoints, st2.endPoints, r2.1, f);
      HeadersAcross(st.sent, st2.sent, r2.0.sent, header, Announcements(st.endPoints, r2.1, f));
      assert CallFrom(st, f, i, w) == (r2.0, [i] + r2.1, r2.2);
      assert ([i] + r2.1)[0] == i && ([i] + r2.1)[1..] == r2.1;
    }
  }

  lemma HeadersAcross(a: seq<Datagram>, b: seq<Datagram>, c: seq<Datagram>, h: Datagram, rest: seq<Datagram>)
    requires a <= b <= c
    requires EventHeaders(b[|a|..]) == [h] && EventHeaders(c[|b|..]) == rest
    ensures EventHeaders(c[|a|..]) == [h] + rest
  {
    assert c[|a|..] == b[|a|..] + c[|b|..];
    EventHeadersAppend(b[|a|..], c[|b|..]);
  }

  /** PythonCall from slot `i` sends exactly one one-byte event header `[f]`
      per served slot, to that slot's client, in slot order, and no others. */
  lemma {:induction false} CallFromAnnounces(st: Link, f: Header, i: nat, w: World)
    ensures ServedSlots(st.endPoints, CallFrom(st, f, i, w).1, i)
    ensures EventHeaders(CallFrom(st, f, i, w).0.sent[|st.sent|..]) == Announcements(st.endPoints, CallFrom(st, f, i, w).1, f)
    decreases |st.endPoints| - i
  {
    CallFromServedSlots(st, f, i, w);
    if i >= |st.endPoints| {
      assert CallFrom(st, f, i, w).0.sent[|st.sent|..] == [];
    } else if st.endPoints[i].None? {
      CallFromAnnounces(st, f, i + 1, w);
    } else {
      var port := st.endPoints[i].value;
      var (st2, thrown) := Serve(Send(st, port, [Code(f)], EventHeader), i, port, w);
      if !thrown {
        CallFromAnnounces(st2, f, i + 1, w);
      }
      AnnounceOccupied(st, f, i, w, st2, thrown);
    }
  }

  /** A table that only lost endpoints on the way and ends as it began was
      unchanged throughout. */
  lemma OnlyEmptiedUnchanged(a: seq<Option<Port>>, b: seq<Option<Port>>)
    requires OnlyEmptied(a, b) && OnlyEmptied(b, a)
    ensures a == b
  {
  }

  /** The occupied-slot case of CallFromServesAll: the turn of slot i
      neither threw nor changed the table, and the call goes on from the
      state `st2` after it. */
  lemma ServesAllOccupied(st: Link, f: Header, i: nat, w: World) returns (st2: Link)
    requires i < |st.endPoints| && st.endPoints[i].Some?
    requires !CallFrom(st, f, i, w).2
    requires CallFrom(st, f, i, w).0.endPoints == st.endPoints
    ensures st2.endPoints == st.endPoints
    ensures CallFrom(st, f, i, w).1 == [i] + CallFrom(st2, f, i + 1, w).1
    ensures !CallFrom(st2, f, i + 1, w).2 && CallFrom(st2, f, i + 1, w).0.endPoints == st2.endPoints
  {
    var port := st.endPoints[i].value;
    var turn := Serve(Send(st, port, [Code(f)], EventHeader), i, port, w);
    st2 := turn.0;
    var r2 := CallFrom(st2, f, i + 1, w);
    assert !turn.1 && CallFrom(st, f, i, w) == (r2.0, [i] + r2.1, r2.2);
    OnlyEmptiedUnchanged(st.endPoints, st2.endPoints);
  }

  /** The slots served are exactly the occupied ones from `i` on. */
  ghost predicate AllOccupiedFrom(eps: seq<Option<Port>>, served: seq<nat>, i: nat)
  {
    forall j :: j in served <==> i <= j < |eps| && eps[j].Some?
  }

  /** Slot i empty, then exactly the occupied slots after it. */
  lemma SlotsAfter(eps: seq<Option<Port>>, i: nat, rest: seq<nat>)
    requires i < |eps| && eps[i].None? && AllOccupiedFrom(eps, rest, i + 1)
    ensures AllOccupiedFrom(eps, rest, i)
  {
  }

  /** Slot i served, then exactly the occupied slots after it. */
  lemma SlotsFrom(eps: seq<Option<Port>>, i: nat, rest: seq<nat>)
    requires i < |eps| && eps[i].Some? && AllOccupiedFrom(eps, rest, i + 1)
    ensures AllOccupiedFrom(eps, [i] + rest, i)
  {
  }

  /** When no exception escapes and no client left or failed during the
      call (the table is the same afterwards), PythonCall from slot `i`
      served exactly the occupied slots from `i` on. */
  lemma {:induction false} CallFromServesAll(st: Link, f: Header, i: nat, w: World)
    requires !CallFrom(st, f, i, w).2
    requires CallFrom(st, f, i, w).0.endPoints == st.endPoints
    ensures AllOccupiedFrom(st.endPoints, CallFrom(st, f, i, w).1, i)
    decreases |st.endPoints| - i
  {
    if i >= |st.endPoints| {
      assert CallFrom(st, f, i, w).1 == [];
    } else if st.endPoints[i].None? {
      CallFromSkips(st, f, i, w);
      CallFromServesAll(st, f, i + 1, w);
      SlotsAfter(st.endPoints, i, CallFrom(st, f, i + 1, w).1);
    } else {
      var st2 := ServesAllOccupied(st, f, i, w);
      CallFromServesAll(st2, f, i + 1, w);
      SlotsFrom(st.endPoints, i, CallFrom(st2, f, i + 1, w).1);
    }
  }
}
