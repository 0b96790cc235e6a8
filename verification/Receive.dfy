/** The field test's WebSocket client receiving: a buffer, fragments put together (RFC 6455, section
    5.4), pings answered on the way (section 5.5.2 and 5.5.3). A message is the bytes of its JSON. */
module Receive {
  import opened Options
  import opened Frames

  /** What the socket's next read gives: an empty chunk is the other side closing. */
  datatype Arrival = Chunk(data: Bytes) | Lost | NothingInTime

  datatype Client = Client(connected: bool, buffer: Bytes, inbox: seq<Arrival>, sent: seq<Bytes>)

  datatype Outcome = Message(payload: Bytes) | Closed | TimedOut

  /** The masking keys, by how many frames were sent before. */
  type Random = nat -> Mask

  function Join(parts: seq<Bytes>): Bytes {
    if |parts| == 0 then [] else Join(parts[..|parts| - 1]) + parts[|parts| - 1]
  }

  predicate IsData(f: Frame) {
    f.opcode == OP_TEXT || f.opcode == OP_CONT
  }

  lemma FrameFits(data: Bytes)
    requires DecodeFrame(data).Some?
    ensures 2 <= DecodeFrame(data).value.used <= |data| && |DecodeFrame(data).value.payload| <= MAX_64
  {
    hide DecodeFrame, HeaderOf, FieldSize;
    DecodeByHeader(data);
    HeaderSize(data);
    LongEnough(data);
  }

  /** A whole frame leaves the buffer; a ping is answered, a close ends the connection. */
  function TakeFrame(c: Client, random: Random): Client
    requires DecodeFrame(c.buffer).Some?
  {
    FrameFits(c.buffer);
    var f := DecodeFrame(c.buffer).value;
    c.(buffer := c.buffer[f.used..],
       sent := if f.opcode == OP_PING && c.connected then c.sent + [EncodeFrame(OP_PONG, f.payload, random(|c.sent|))] else c.sent,
       connected := c.connected && f.opcode != OP_CLOSE)
  }

  /** One `_receive`, with the fragments read so far. */
  function Receive(c: Client, parts: seq<Bytes>, random: Random): (r: (Client, Outcome))
    ensures r.1.Message? ==> |r.0.inbox| < |c.inbox| || (|r.0.inbox| == |c.inbox| && |r.0.buffer| < |c.buffer|)
    decreases |c.inbox|, |c.buffer|
  {
    if DecodeFrame(c.buffer).None? then
      if !c.connected then (c, Closed)
      else if c.inbox == [] then (c, TimedOut)
      else
        var c' := c.(inbox := c.inbox[1..]);
        match c.inbox[0]
        case NothingInTime => (c', TimedOut)
        case Lost => (c'.(connected := false), Closed)
        case Chunk(data) =>
          if data == [] then (c'.(connected := false), Closed)
          else Receive(c'.(buffer := c.buffer + data), parts, random)
    else
      FrameFits(c.buffer);
      var f, c' := DecodeFrame(c.buffer).value, TakeFrame(c, random);
      if f.opcode == OP_CLOSE then (c', Closed)
      else if !IsData(f) then Receive(c', parts, random)
      else if f.fin then (c', Message(Join(parts + [f.payload])))
      else Receive(c', parts + [f.payload], random)
  }

  datatype Received = Received(client: Client, messages: seq<Bytes>, last: Outcome)

  /** `_receive` again and again, while it returns messages. */
  function ReceiveAll(c: Client, random: Random): Received
    decreases |c.inbox|, |c.buffer|
  {
    var (c', outcome) := Receive(c, [], random);
    if outcome.Message? then
      var later := ReceiveAll(c', random);
      later.(messages := [outcome.payload] + later.messages)
    else Received(c', [], outcome)
  }

  // ---- the whole stream decoded at once ----

  function FramesOf(stream: Bytes): seq<Frame> {
    if DecodeFrame(stream).None? then []
    else
      FrameFits(stream);
      [DecodeFrame(stream).value] + FramesOf(stream[DecodeFrame(stream).value.used..])
  }

  /** The messages and pings of a list of frames, up to the first close. */
  datatype Reading = Reading(messages: seq<Bytes>, pings: seq<Bytes>, closed: bool)

  function Read(frames: seq<Frame>, parts: seq<Bytes>): Reading {
    if frames == [] then Reading([], [], false)
    else
      var f, later := frames[0], frames[1..];
      if f.opcode == OP_CLOSE then Reading([], [], true)
      else if f.opcode == OP_PING then
        var r := Read(later, parts);
        r.(pings := [f.payload] + r.pings)
      else if !IsData(f) then Read(later, parts)
      else if f.fin then
        var r := Read(later, []);
        r.(messages := [Join(parts + [f.payload])] + r.messages)
      else Read(later, parts + [f.payload])
  }

  ghost predicate AllFit(payloads: seq<Bytes>) {
    forall p | p in payloads :: |p| <= MAX_64
  }

  function Pongs(pings: seq<Bytes>, random: Random, sent: nat): seq<Bytes>
    requires AllFit(pings)
  {
    if pings == [] then [] else [EncodeFrame(OP_PONG, pings[0], random(sent))] + Pongs(pings[1..], random, sent + 1)
  }

  // ---- chunking ----

  /** Connected, and every read gives bytes: no timeout, no loss. */
  ghost predicate Plain(c: Client) {
    c.connected && forall a | a in c.inbox :: a.Chunk? && a.data != []
  }

  function Arriving(inbox: seq<Arrival>): Bytes {
    if inbox == [] then []
    else (if inbox[0].Chunk? then inbox[0].data else []) + Arriving(inbox[1..])
  }

  function Stream(c: Client): Bytes {
    c.buffer + Arriving(c.inbox)
  }

  lemma ChunkArrives(c: Client)
    requires c.inbox != [] && c.inbox[0].Chunk?
    ensures Stream(c.(buffer := c.buffer + c.inbox[0].data, inbox := c.inbox[1..])) == Stream(c)
  {
    assert c.buffer + (c.inbox[0].data + Arriving(c.inbox[1..])) == (c.buffer + c.inbox[0].data) + Arriving(c.inbox[1..]);
  }

  lemma {:induction false} PingsFit(stream: Bytes, parts: seq<Bytes>)
    ensures AllFit(Read(FramesOf(stream), parts).pings)
    decreases |stream|
  {
    hide DecodeFrame;
    if DecodeFrame(stream).Some? {
      FrameFits(stream);
      var f := DecodeFrame(stream).value;
      assert FramesOf(stream)[1..] == FramesOf(stream[f.used..]);
      PingsFit(stream[f.used..], parts);
      PingsFit(stream[f.used..], []);
      PingsFit(stream[f.used..], parts + [f.payload]);
    }
  }

  /** A whole frame in the buffer is the stream's first, whatever arrives later. */
  lemma FirstFrame(c: Client, random: Random)
    requires DecodeFrame(c.buffer).Some?
    ensures FramesOf(Stream(c)) == [DecodeFrame(c.buffer).value] + FramesOf(Stream(TakeFrame(c, random)))
  {
    hide DecodeFrame;
    FrameFits(c.buffer);
    MoreChangesNothing(c.buffer, Arriving(c.inbox));
    var f := DecodeFrame(c.buffer).value;
    assert Stream(c)[f.used..] == c.buffer[f.used..] + Arriving(c.inbox);
  }

  ghost function ReadAll(c: Client, parts: seq<Bytes>): Reading {
    Read(FramesOf(Stream(c)), parts)
  }

  /** The frames sent once the pings still to come are answered. */
  ghost function SentInAll(c: Client, parts: seq<Bytes>, random: Random): seq<Bytes> {
    PingsFit(Stream(c), parts);
    c.sent + Pongs(ReadAll(c, parts).pings, random, |c.sent|)
  }

  /** One call takes the stream's next message from it, or finds there is none. */
  lemma {:induction false} ReceiveReads(c: Client, parts: seq<Bytes>, random: Random)
    requires Plain(c)
    ensures var (c', outcome) := Receive(c, parts, random);
            match outcome
            case Message(payload) =>
              && Plain(c')
              && ReadAll(c, parts).messages == [payload] + ReadAll(c', []).messages
              && ReadAll(c, parts).closed == ReadAll(c', []).closed
              && SentInAll(c, parts, random) == SentInAll(c', [], random)
            case _ =>
              && ReadAll(c, parts).messages == [] && outcome == (if ReadAll(c, parts).closed then Closed else TimedOut)
              && SentInAll(c, parts, random) == c'.sent
    decreases |c.inbox|, |c.buffer|
  {
    hide DecodeFrame, EncodeFrame;
    if DecodeFrame(c.buffer).None? {
      if c.inbox == [] {
        assert Stream(c) == c.buffer;
      } else {
        var c' := c.(buffer := c.buffer + c.inbox[0].data, inbox := c.inbox[1..]);
        ChunkArrives(c);
        ReceiveReads(c', parts, random);
      }
    } else {
      FrameFits(c.buffer);
      FirstFrame(c, random);
      var f, c' := DecodeFrame(c.buffer).value, TakeFrame(c, random);
      var frames := FramesOf(Stream(c));
      assert frames[1..] == FramesOf(Stream(c'));
      if f.opcode == OP_CLOSE {
      } else if f.opcode == OP_PING {
        PongFirst(c, parts, random);
        ReceiveReads(c', parts, random);
      } else if !IsData(f) {
        ReceiveReads(c', parts, random);
      } else if !f.fin {
        ReceiveReads(c', parts + [f.payload], random);
      }
    }
  }

  /** A ping in the buffer is answered before the later ones. */
  lemma PongFirst(c: Client, parts: seq<Bytes>, random: Random)
    requires c.connected && DecodeFrame(c.buffer).Some? && DecodeFrame(c.buffer).value.opcode == OP_PING
    ensures SentInAll(c, parts, random) == SentInAll(TakeFrame(c, random), parts, random)
  {
    hide DecodeFrame, EncodeFrame, FramesOf, Read;
    FrameFits(c.buffer);
    FirstFrame(c, random);
    var f, c' := DecodeFrame(c.buffer).value, TakeFrame(c, random);
    ReadFirst(f, FramesOf(Stream(c')), parts);
    PingsFit(Stream(c), parts);
    PingsFit(Stream(c'), parts);
    var pings := ReadAll(c, parts).pings;
    assert pings[0] == f.payload && pings[1..] == ReadAll(c', parts).pings;
  }

  /** However the stream is cut into chunks, the calls return its messages, and answer its pings, in
      order, as decoding all of it at once finds them, up to a close. */
  lemma {:induction false} ReceivesTheStream(c: Client, random: Random)
    requires Plain(c)
    ensures var r := ReceiveAll(c, random);
            && r.messages == ReadAll(c, []).messages
            && r.client.sent == SentInAll(c, [], random)
            && r.last == if ReadAll(c, []).closed then Closed else TimedOut
    decreases |c.inbox|, |c.buffer|
  {
    hide Receive, ReadAll, SentInAll;
    ReceiveReads(c, [], random);
    var (c', outcome) := Receive(c, [], random);
    if outcome.Message? {
      ReceivesTheStream(c', random);
    }
  }

  lemma ChunkingIndependence(c: Client, d: Client, random: Random)
    requires Plain(c) && Plain(d) && Stream(c) == Stream(d) && c.sent == d.sent
    ensures var r, q := ReceiveAll(c, random), ReceiveAll(d, random);
            r.messages == q.messages && r.client.sent == q.client.sent && r.last == q.last
  {
    hide ReceiveAll;
    ReceivesTheStream(c, random);
    ReceivesTheStream(d, random);
  }

  // ---- fragments ----

  function Wire(frames: seq<Frame>): Bytes
    requires forall f | f in frames :: |f.payload| <= MAX_64
  {
    if frames == [] then [] else ServerFrame(frames[0].fin, frames[0].opcode, frames[0].payload) + Wire(frames[1..])
  }

  /** What a server may send: each frame's own length, opcodes of four bits. */
  ghost predicate WellFormed(frames: seq<Frame>) {
    forall f | f in frames ::
      f.opcode < 16 && |f.payload| <= MAX_64 && f.used == |ServerFrame(f.fin, f.opcode, f.payload)|
  }

  lemma {:induction false} WireDecodes(frames: seq<Frame>)
    requires WellFormed(frames)
    ensures FramesOf(Wire(frames)) == frames
  {
    hide DecodeFrame, ServerFrame;
    if frames == [] {
      NothingDecodes();
    } else {
      var f, later := frames[0], Wire(frames[1..]);
      ServerRoundTrip(f.fin, f.opcode, f.payload, later);
      WireDecodes(frames[1..]);
      var first := ServerFrame(f.fin, f.opcode, f.payload);
      assert (first + later)[f.used..] == later;
    }
  }

  lemma NothingDecodes()
    ensures DecodeFrame([]) == None
  {
  }

  /** One message: data frames of which only the last has FIN, and control frames between them. */
  ghost predicate OneMessage(frames: seq<Frame>) {
    && frames != []
    && frames[|frames| - 1].opcode in {OP_TEXT, OP_CONT} && frames[|frames| - 1].fin
    && (forall f | f in frames :: f.opcode != OP_CLOSE)
    && (forall i | 0 <= i < |frames| - 1 :: frames[i].opcode in {OP_TEXT, OP_CONT} ==> !frames[i].fin)
  }

  function Payloads(frames: seq<Frame>, ping: bool): seq<Bytes> {
    if frames == [] then []
    else (if frames[0].opcode in (if ping then {OP_PING} else {OP_TEXT, OP_CONT}) then [frames[0].payload] else [])
         + Payloads(frames[1..], ping)
  }

  lemma PayloadsFirst(frames: seq<Frame>, ping: bool)
    requires frames != []
    ensures var mine := if ping then frames[0].opcode == OP_PING else IsData(frames[0]);
            Payloads(frames, ping) == (if mine then [frames[0].payload] else []) + Payloads(frames[1..], ping)
  {
  }

  lemma RestIsOneMessage(frames: seq<Frame>)
    requires OneMessage(frames) && |frames| > 1
    ensures OneMessage(frames[1..]) && frames[0].opcode != OP_CLOSE && (IsData(frames[0]) ==> !frames[0].fin)
  {
    forall i | 0 <= i < |frames[1..]| - 1 ensures IsData(frames[1..][i]) ==> !frames[1..][i].fin {
      assert frames[1..][i] == frames[i + 1];
    }
  }

  /** What the first frame of a list does to the rest's reading. */
  lemma ReadFirst(f: Frame, later: seq<Frame>, parts: seq<Bytes>)
    requires f.opcode != OP_CLOSE
    ensures Read([f] + later, parts)
         == if f.opcode == OP_PING then var r := Read(later, parts); r.(pings := [f.payload] + r.pings)
            else if !IsData(f) then Read(later, parts)
            else if f.fin then var r := Read(later, []); r.(messages := [Join(parts + [f.payload])] + r.messages)
            else Read(later, parts + [f.payload])
  {
    hide Join;
    assert ([f] + later)[1..] == later;
  }

  /** The data of its frames, together, is the message; the pings between are pings all the same. */
  lemma {:induction false} OneMessageReads(frames: seq<Frame>, later: seq<Frame>, parts: seq<Bytes>)
    requires OneMessage(frames)
    ensures var r := Read(later, []);
            Read(frames + later, parts) ==
              Reading([Join(parts + Payloads(frames, false))] + r.messages, Payloads(frames, true) + r.pings, r.closed)
  {
    hide Join, Read, Payloads;
    var f, rest := frames[0], frames[1..];
    assert f in frames;
    assert frames + later == [f] + (rest + later);
    ReadFirst(f, rest + later, parts);
    PayloadsFirst(frames, false);
    PayloadsFirst(frames, true);
    if rest == [] {
      assert rest + later == later && |frames| == 1;
      NoPayloads();
      assert Payloads(frames, false) == [f.payload] && Payloads(frames, true) == [];
      assert [] + Read(later, []).pings == Read(later, []).pings;
    } else {
      RestIsOneMessage(frames);
      OneMessageReads(rest, later, if IsData(f) then parts + [f.payload] else parts);
      assert parts + ([f.payload] + Payloads(rest, false)) == parts + [f.payload] + Payloads(rest, false);
      assert parts + ([] + Payloads(rest, false)) == parts + Payloads(rest, false);
    }
  }

  lemma NoPayloads()
    ensures Payloads([], false) == [] && Payloads([], true) == []
  {
  }

  function Flatten<T>(lists: seq<seq<T>>): seq<T> {
    if lists == [] then [] else lists[0] + Flatten(lists[1..])
  }

  lemma {:induction false} MessagesRead(sendings: seq<seq<Frame>>)
    requires forall frames | frames in sendings :: OneMessage(frames)
    ensures Read(Flatten(sendings), []).messages == seq(|sendings|, i requires 0 <= i < |sendings| => Join(Payloads(sendings[i], false)))
    ensures Read(Flatten(sendings), []).pings == Payloads(Flatten(sendings), true)
    ensures !Read(Flatten(sendings), []).closed
  {
    hide OneMessage, Join;
    if sendings != [] {
      var first, later := sendings[0], Flatten(sendings[1..]);
      MessagesRead(sendings[1..]);
      OneMessageReads(first, later, []);
      assert [] + Payloads(first, false) == Payloads(first, false);
      PayloadsJoin(first, later, true);
    }
  }

  lemma {:induction false} PayloadsJoin(frames: seq<Frame>, later: seq<Frame>, ping: bool)
    ensures Payloads(frames + later, ping) == Payloads(frames, ping) + Payloads(later, ping)
  {
    if frames == [] {
      assert frames + later == later;
    } else {
      assert (frames + later)[1..] == frames[1..] + later;
      PayloadsJoin(frames[1..], later, ping);
    }
  }

  /** Messages a server sends, fragmented or not, with pings anywhere in them, arrive as they were,
      each ping answered once, in order, however the bytes are cut into chunks. */
  lemma MessagesArrive(c: Client, random: Random, sendings: seq<seq<Frame>>)
    requires Plain(c) && WellFormed(Flatten(sendings)) && Stream(c) == Wire(Flatten(sendings))
    requires forall frames | frames in sendings :: OneMessage(frames)
    requires AllFit(Payloads(Flatten(sendings), true))
    ensures var r := ReceiveAll(c, random);
            && r.messages == seq(|sendings|, i requires 0 <= i < |sendings| => Join(Payloads(sendings[i], false)))
            && r.client.sent == c.sent + Pongs(Payloads(Flatten(sendings), true), random, |c.sent|)
            && r.last == TimedOut
  {
    hide ReceiveAll, Read, OneMessage, WellFormed, Wire;
    ReceivesTheStream(c, random);
    WireDecodes(Flatten(sendings));
    MessagesRead(sendings);
  }

  // ---- a timeout between fragments ----

  /** The fragments of a message not yet whole. */
  function Fragments(frames: seq<Frame>, parts: seq<Bytes>): seq<Bytes> {
    if frames == [] then parts
    else if frames[0].opcode in {OP_TEXT, OP_CONT} then Fragments(frames[1..], if frames[0].fin then [] else parts + [frames[0].payload])
    else Fragments(frames[1..], parts)
  }

  /** A call that starts with fragments returns them with what it would have returned without. */
  lemma {:induction false} PartsComeFirst(c: Client, parts: seq<Bytes>, more: seq<Bytes>, random: Random)
    ensures var (r, outcome) := Receive(c, more, random);
            Receive(c, parts + more, random) ==
              (r, if outcome.Message? then Message(Join(parts) + outcome.payload) else outcome)
    decreases |c.inbox|, |c.buffer|
  {
    hide DecodeFrame, Join, TakeFrame;
    if DecodeFrame(c.buffer).None? {
      if c.connected && c.inbox != [] && c.inbox[0].Chunk? && c.inbox[0].data != [] {
        PartsComeFirst(c.(buffer := c.buffer + c.inbox[0].data, inbox := c.inbox[1..]), parts, more, random);
      }
    } else {
      FrameFits(c.buffer);
      var f := DecodeFrame(c.buffer).value;
      var c' := TakeFrame(c, random);
      TakeShrinks(c, random);
      JoinAppend(parts, more + [f.payload]);
      assert parts + more + [f.payload] == parts + (more + [f.payload]);
      if f.opcode != OP_CLOSE && !(IsData(f) && f.fin) {
        PartsComeFirst(c', parts, if IsData(f) then more + [f.payload] else more, random);
      }
    }
  }

  lemma TakeShrinks(c: Client, random: Random)
    requires DecodeFrame(c.buffer).Some?
    ensures TakeFrame(c, random).inbox == c.inbox && |TakeFrame(c, random).buffer| < |c.buffer|
  {
    FrameFits(c.buffer);
    hide DecodeFrame;
  }

  lemma {:induction false} JoinAppend(parts: seq<Bytes>, more: seq<Bytes>)
    ensures Join(parts + more) == Join(parts) + Join(more)
  {
    if more == [] {
      assert parts + more == parts;
    } else {
      JoinAppend(parts, more[..|more| - 1]);
      assert (parts + more)[..|parts + more| - 1] == parts + more[..|more| - 1];
    }
  }

  /** A call that ran out of bytes goes on, given more, with the fragments it had. */
  lemma {:induction false} GoesOn(c: Client, parts: seq<Bytes>, later: seq<Arrival>, random: Random)
    requires Plain(c) && Receive(c, parts, random).1.TimedOut?
    ensures Receive(c.(inbox := c.inbox + later), parts, random)
         == Receive(Receive(c, parts, random).0.(inbox := later), Fragments(FramesOf(Stream(c)), parts), random)
    decreases |c.inbox|, |c.buffer|
  {
    hide DecodeFrame, TakeFrame;
    var longer := c.(inbox := c.inbox + later);
    if DecodeFrame(c.buffer).None? {
      if c.inbox == [] {
        assert Stream(c) == c.buffer && c.inbox + later == later;
      } else {
        var c' := c.(buffer := c.buffer + c.inbox[0].data, inbox := c.inbox[1..]);
        ChunkArrives(c);
        assert longer.inbox[0] == c.inbox[0] && longer.inbox[1..] == c.inbox[1..] + later;
        GoesOn(c', parts, later, random);
      }
    } else {
      FrameFits(c.buffer);
      FirstFrame(c, random);
      TakeShrinks(c, random);
      TakeKeeps(c, later, random);
      var f, c' := DecodeFrame(c.buffer).value, TakeFrame(c, random);
      assert FramesOf(Stream(c))[1..] == FramesOf(Stream(c'));
      GoesOn(c', if IsData(f) then parts + [f.payload] else parts, later, random);
    }
  }

  lemma TakeKeeps(c: Client, later: seq<Arrival>, random: Random)
    requires DecodeFrame(c.buffer).Some?
    ensures TakeFrame(c.(inbox := c.inbox + later), random)
         == TakeFrame(c, random).(inbox := TakeFrame(c, random).inbox + later)
    ensures DecodeFrame(c.buffer).value.opcode != OP_CLOSE ==> TakeFrame(c, random).connected == c.connected
  {
    hide DecodeFrame;
  }

  /** A call that returns no message leaves the client connected exactly if it timed out. */
  lemma {:induction false} EndsAs(c: Client, parts: seq<Bytes>, random: Random)
    requires c.connected
    ensures Receive(c, parts, random).0.connected <==> !Receive(c, parts, random).1.Closed?
    ensures Receive(c, parts, random).1.TimedOut? ==> DecodeFrame(Receive(c, parts, random).0.buffer).None?
    decreases |c.inbox|, |c.buffer|
  {
    hide DecodeFrame, TakeFrame, Join;
    if DecodeFrame(c.buffer).None? {
      if c.inbox != [] && c.inbox[0].Chunk? && c.inbox[0].data != [] {
        EndsAs(c.(buffer := c.buffer + c.inbox[0].data, inbox := c.inbox[1..]), parts, random);
      }
    } else {
      FrameFits(c.buffer);
      TakeShrinks(c, random);
      TakeConnected(c, random);
      var f := DecodeFrame(c.buffer).value;
      if f.opcode != OP_CLOSE && !(IsData(f) && f.fin) {
        EndsAs(TakeFrame(c, random), if IsData(f) then parts + [f.payload] else parts, random);
      }
    }
  }

  lemma TakeConnected(c: Client, random: Random)
    requires DecodeFrame(c.buffer).Some?
    ensures TakeFrame(c, random).connected <==> c.connected && DecodeFrame(c.buffer).value.opcode != OP_CLOSE
  {
    hide DecodeFrame;
  }

  /** A read that fails ends the call, once what arrived before holds no whole message: one in which
      nothing came in time as a timeout, the client still connected; a lost connection, or the other
      side closing, as closed. What arrives later stays for the next call. */
  lemma FailedReadEnds(c: Client, parts: seq<Bytes>, failure: Arrival, later: seq<Arrival>, random: Random)
    requires Plain(c) && Receive(c, parts, random).1.TimedOut? && (failure.Chunk? ==> failure.data == [])
    ensures Receive(c.(inbox := c.inbox + [failure] + later), parts, random)
         == (Receive(c, parts, random).0.(inbox := later, connected := failure.NothingInTime?),
             if failure.NothingInTime? then TimedOut else Closed)
  {
    hide FramesOf, Fragments, DecodeFrame;
    var rest := [failure] + later;
    EndsAs(c, parts, random);
    GoesOn(c, parts, rest, random);
    assert c.inbox + [failure] + later == c.inbox + rest;
    assert rest[0] == failure && rest[1..] == later;
  }

  /** A call that times out inside a message drops the fragments it read: the next call's message
      lacks them. So it is the message sent exactly if they carried nothing. */
  lemma TimeoutLosesFragments(c: Client, later: seq<Arrival>, random: Random)
    requires Plain(c) && Receive(c, [], random).1.TimedOut?
    ensures var lost := Join(Fragments(FramesOf(Stream(c)), []));
            var (whole, uninterrupted) := Receive(c.(inbox := c.inbox + later), [], random);
            var (client, next) := Receive(Receive(c, [], random).0.(inbox := later), [], random);
            && whole == client
            && uninterrupted == (if next.Message? then Message(lost + next.payload) else next)
            && (next.Message? ==> (next == uninterrupted <==> lost == []))
  {
    hide Receive, FramesOf, Fragments, Join;
    GoesOn(c, [], later, random);
    var lost := Fragments(FramesOf(Stream(c)), []);
    PartsComeFirst(Receive(c, [], random).0.(inbox := later), lost, [], random);
    assert lost + [] == lost;
  }

  /** A fragment "a", a timeout, then the last fragment "b": the message "ab" is read as "b". */
  lemma TimeoutCutsMessage(random: Random)
    ensures var a, b := ServerFrame(false, OP_TEXT, [0x61]), ServerFrame(true, OP_CONT, [0x62]);
            && ReceiveAll(Client(true, a, [Chunk(b)], []), random).messages == [[0x61] + [0x62]]
            && Receive(Client(true, a, [NothingInTime, Chunk(b)], []), [], random)
               == (Client(true, [], [Chunk(b)], []), TimedOut)
            && ReceiveAll(Client(true, [], [Chunk(b)], []), random).messages == [[0x62]]
  {
    hide ReceiveAll, Receive, ServerFrame;
    OneFragment(random);
    TwoFragments(random);
    LastFragment(random);
  }

  lemma OneFragment(random: Random)
    ensures var a, b := ServerFrame(false, OP_TEXT, [0x61]), ServerFrame(true, OP_CONT, [0x62]);
            Receive(Client(true, a, [NothingInTime, Chunk(b)], []), [], random) == (Client(true, [], [Chunk(b)], []), TimedOut)
  {
    hide DecodeFrame, ServerFrame;
    var a, b := ServerFrame(false, OP_TEXT, [0x61]), ServerFrame(true, OP_CONT, [0x62]);
    ServerRoundTrip(false, OP_TEXT, [0x61], []);
    assert a + [] == a && a[|a|..] == [];
    NothingDecodes();
    assert [NothingInTime, Chunk(b)][1..] == [Chunk(b)];
  }

  lemma TwoFragments(random: Random)
    ensures var a, b := ServerFrame(false, OP_TEXT, [0x61]), ServerFrame(true, OP_CONT, [0x62]);
            ReceiveAll(Client(true, a, [Chunk(b)], []), random).messages == [[0x61] + [0x62]]
  {
    hide ReceiveAll, DecodeFrame, ServerFrame, FramesOf, Read;
    var a, b := ServerFrame(false, OP_TEXT, [0x61]), ServerFrame(true, OP_CONT, [0x62]);
    FrameSome(true, OP_CONT, [0x62]);
    ReceivesTheStream(Client(true, a, [Chunk(b)], []), random);
    Arrives(a, b);
    var first, second := Frame(false, OP_TEXT, [0x61], |a|), Frame(true, OP_CONT, [0x62], |b|);
    WireDecodes([first, second]);
    WireOfTwo(first, second);
    ReadTwo(first, second);
  }

  lemma LastFragment(random: Random)
    ensures ReceiveAll(Client(true, [], [Chunk(ServerFrame(true, OP_CONT, [0x62]))], []), random).messages == [[0x62]]
  {
    hide ReceiveAll, DecodeFrame, ServerFrame, FramesOf, Read;
    var b := ServerFrame(true, OP_CONT, [0x62]);
    FrameSome(true, OP_CONT, [0x62]);
    ReceivesTheStream(Client(true, [], [Chunk(b)], []), random);
    Arrives([], b);
    var only := Frame(true, OP_CONT, [0x62], |b|);
    WireDecodes([only]);
    WireOfTwo(only, only);
    ReadTwo(only.(fin := false), only);
    assert [] + b == b;
  }

  lemma FrameSome(fin: bool, opcode: bv8, payload: Bytes)
    requires |payload| <= MAX_64
    ensures ServerFrame(fin, opcode, payload) != []
  {
  }

  lemma Arrives(buffer: Bytes, data: Bytes)
    ensures Stream(Client(true, buffer, [Chunk(data)], [])) == buffer + data
  {
    assert [Chunk(data)][1..] == [];
    assert Arriving([Chunk(data)]) == data + Arriving([]) == data;
  }

  lemma WireOfTwo(first: Frame, second: Frame)
    requires |first.payload| <= MAX_64 && |second.payload| <= MAX_64
    ensures Wire([second]) == ServerFrame(second.fin, second.opcode, second.payload)
    ensures Wire([first, second])
         == ServerFrame(first.fin, first.opcode, first.payload) + ServerFrame(second.fin, second.opcode, second.payload)
  {
    hide ServerFrame;
    assert [second][1..] == [] && [first, second][1..] == [second];
    assert Wire([second]) == ServerFrame(second.fin, second.opcode, second.payload) + Wire([]);
    assert Wire([first, second]) == ServerFrame(first.fin, first.opcode, first.payload) + Wire([second]);
  }

  lemma ReadTwo(first: Frame, second: Frame)
    requires IsData(first) && !first.fin && IsData(second) && second.fin
    ensures Read([second], []).messages == [second.payload]
    ensures Read([first, second], []).messages == [first.payload + second.payload]
  {
    hide Join;
    assert [second][1..] == [] && [first, second][1..] == [second];
    assert Read([second], []).messages == [Join([] + [second.payload])] + Read([], []).messages;
    assert Read([first, second], []) == Read([second], [] + [first.payload]);
    assert Read([second], [] + [first.payload]).messages == [Join([] + [first.payload] + [second.payload])] + Read([], []).messages;
    JoinOne(first.payload);
    JoinOne(second.payload);
    JoinAppend([first.payload], [second.payload]);
    assert [] + [first.payload] == [first.payload] && [] + [second.payload] == [second.payload];
  }

  lemma JoinOne(part: Bytes)
    ensures Join([part]) == part
  {
    assert [part][..0] == [];
    assert Join([part]) == Join([]) + part;
  }
}
