/** The Host's client and link as the objects they are, tied to the specification in `HostSession`. */
module HostClients {
  import opened Basics
  import opened Messages
  import opened Decode
  import opened Framing
  import opened Decoders
  import opened Encoders
  import opened Delivery
  import opened HostSession

  // ---- the specification, message by message ----

  lemma {:induction false} HandleMessagesAppend(c: Client, ms: seq<Result<Message, Error>>, r: Result<Message, Error>)
    ensures
      var first := HandleMessages(c, ms);
      HandleMessages(c, ms + [r])
      == if r.Err? then first
         else
           var last := HandleMessage(first.client, r.value);
           Handled(last.client, first.sent + last.sent, first.events + last.events)
    decreases |ms|
  {
    hide HandleMessage;
    if ms == [] {
      assert ms + [r] == [r] && [r][1..] == [];
    } else {
      assert (ms + [r])[1..] == ms[1..] + [r];
      HandleMessagesAppend(if ms[0].Err? then c else HandleMessage(c, ms[0].value).client, ms[1..], r);
    }
  }

  lemma HearOneMore(c: Client, frames: seq<seq<Byte>>, frame: seq<Byte>)
    ensures
      var first := HandleMessages(c, DecodeAll(frames));
      var r := DecodeFrame(frame);
      HandleMessages(c, DecodeAll(frames + [frame]))
      == if r.Err? then first
         else
           var last := HandleMessage(first.client, r.value);
           Handled(last.client, first.sent + last.sent, first.events + last.events)
  {
    hide DecodeFrame, HandleMessages, HandleMessage;
    DecodeAllAppend(frames, [frame]);
    assert [frame][1..] == [] && DecodeAll([frame]) == [DecodeFrame(frame)] + DecodeAll([]);
    assert DecodeAll(frames + [frame]) == DecodeAll(frames) + [DecodeFrame(frame)];
    HandleMessagesAppend(c, DecodeAll(frames), DecodeFrame(frame));
  }

  predicate Handshaking(p: Phase) { p == Idle || p == HelloSent || p == PairSent }

  predicate Ends(e: Event) { e.Paired? || e.WasRefused? }

  /** What one message, or many, may do to a client that is shaking hands: leave it there having
      reported no end, or end it; and send its one Pair on leaving HelloSent. */
  predicate Progresses(c: Client, r: Handled) {
    && (Handshaking(r.client.phase) || exists e <- r.events :: Ends(e))
    && (r.sent == [] || (c.phase == HelloSent && r.sent == [PairOf(c)] && r.client.phase != HelloSent
                         && r.client.phase != Idle))
    && (r.sent == [] && Handshaking(r.client.phase) ==> r.client.phase == c.phase)
    && (r.client.phase == Live ==> c.phase == PairSent || r.sent != [])
    && (r.sent == [] && r.client.phase == c.phase ==> r.client == c)
  }

  lemma MessageProgress(c: Client, m: Message)
    requires Handshaking(c.phase)
    ensures Progresses(c, HandleMessage(c, m))
  {
    var r := HandleMessage(c, m);
    if !Handshaking(r.client.phase) { assert Ends(r.events[0]); }
  }

  lemma {:induction false} HandshakeProgress(c: Client, ms: seq<Result<Message, Error>>)
    requires Handshaking(c.phase)
    ensures Progresses(c, HandleMessages(c, ms))
    decreases |ms|
  {
    hide HandleMessage;
    if ms != [] {
      if ms[0].Err? {
        HandshakeProgress(c, ms[1..]);
      } else {
        var first := HandleMessage(c, ms[0].value);
        MessageProgress(c, ms[0].value);
        if Handshaking(first.client.phase) {
          HandshakeProgress(first.client, ms[1..]);
        } else {
          OverIsSilent(first.client, ms[1..]);
        }
        ProgressJoins(c, first, HandleMessages(first.client, ms[1..]));
      }
    }
  }

  lemma ProgressJoins(c: Client, first: Handled, others: Handled)
    requires Handshaking(c.phase) && Progresses(c, first)
    requires if Handshaking(first.client.phase) then Progresses(first.client, others)
             else others.sent == [] && others.client == first.client
    ensures Progresses(c, Handled(others.client, first.sent + others.sent, first.events + others.events))
  {
    assert forall e <- first.events + others.events :: e in first.events || e in others.events;
    if exists e <- first.events :: Ends(e) {
      var e :| e in first.events && Ends(e);
      assert e in first.events + others.events;
    }
    if exists e <- others.events :: Ends(e) {
      var e :| e in others.events && Ends(e);
      assert e in first.events + others.events;
    }
  }

  lemma {:induction false} OverIsSilent(c: Client, ms: seq<Result<Message, Error>>)
    requires !Handshaking(c.phase)
    ensures HandleMessages(c, ms).sent == [] && HandleMessages(c, ms).client == c
    decreases |ms|
  {
    if ms != [] { OverIsSilent(c, ms[1..]); }
  }

  class HostClient {
    const host: Identity
    const knownDevice: Option<Identity>
    const code: U32
    const session: Identity
    const stream: FrameStream
    var phase: Phase
    var sequence: U32
    var nextCommand: U32
    var localOffsetMinutes: Option<I16>

    ghost function Model(): Client
      reads this
    {
      Client(host, knownDevice, code, session, phase, sequence, nextCommand, localOffsetMinutes)
    }

    constructor (host: Identity, knownDevice: Option<Identity>, code: U32, session: Identity)
      ensures fresh(stream) && stream.buffer == [] && Model() == NewClient(host, knownDevice, code, session)
    {
      this.host, this.knownDevice, this.code, this.session := host, knownDevice, code, session;
      stream := new FrameStream();
      phase, sequence, nextCommand, localOffsetMinutes := Idle, 0, 1, None;
    }

    method SetLocalOffsetMinutes(offset: Option<I16>)
      modifies `localOffsetMinutes
      ensures Model() == old(Model()).(localOffsetMinutes := offset)
    {
      localOffsetMinutes := offset;
    }

    /** The opening Hello. */
    method SendHello(utcMs: Option<U64>) returns (r: Result<seq<Byte>, Error>)
      modifies `phase
      ensures Model() == Start(old(Model())) && r == EncodeMessage(HelloOf(Model(), utcMs))
    {
      hide EncodeControl;
      phase := HelloSent;
      r := EncodeControlPush(Envelope(1, 0, HelloType, ZERO_IDENTITY, 1, None, None, localOffsetMinutes),
                             Hello(HelloBody(1, 0, 0, 0, utcMs, None)));
    }

    method NextSequence() returns (n: U32)
      modifies `sequence
      ensures n == sequence == Inc32(old(sequence))
    {
      sequence := Inc32(sequence);
      n := sequence;
    }

    method HandleReceived(m: Message) returns (frames: seq<seq<Byte>>, events: seq<Event>)
      modifies `phase, `sequence
      ensures
        var o := HandleMessage(old(Model()), m);
        Model() == o.client && events == o.events && FramesEncode(o.sent, frames)
    {
      hide EncodeControl, OffsetEncodes, SixDigits;
      frames, events := [], [];
      if m.SnapshotMessage? { return; }
      var e := m.envelope;
      if phase == HelloSent && m.body.HelloReply? {
        events := [Negotiated(m.body.hello.supportedMajor, m.body.hello.supportedMinor)];
        var intended := if knownDevice.Some? then knownDevice.value else ZERO_IDENTITY;
        var pair := Envelope(1, 0, PairType, session, 2, None, None, localOffsetMinutes);
        var frame := EncodeControlPush(pair, Pair(PairBody(host, intended, code)));
        PairEncodes(Model());
        if frame.Ok? {
          frames := [frame.value];
          phase := PairSent;
        }
      } else if phase == PairSent && m.body.Pair? && e.session == session
                && m.body.pair.intendedPeerIdentity == host && m.body.pair.matchingCode == code {
        phase := Live;
        sequence := 0;
        events := [Paired(m.body.pair.pairingIdentity)];
      } else if (phase == HelloSent || phase == PairSent) && m.body.ErrorReport? {
        var refusal := RefusalFrom(m.body.bytes);
        phase := Refused(refusal);
        events := [WasRefused(refusal)];
      } else if phase == Live && m.body.CommandReply? && e.session == session {
        var reply := m.body.reply;
        events := [Replied(reply.commandIdentity, reply.operation, reply.result)];
      }
    }

    /** Bytes from the device, frames interleaved with log text. */
    method Receive(bytes: seq<Byte>) returns (frames: seq<seq<Byte>>, events: seq<Event>)
      modifies `phase, `sequence, stream
      ensures
        var d := Drain(old(stream.buffer) + bytes);
        var o := HandleMessages(old(Model()), DecodeAll(d.frames));
        && stream.buffer == d.rest && Model() == o.client && events == o.events && FramesEncode(o.sent, frames)
    {
      hide DecodeFrame, DecodeAll, HandleMessage, HandleMessages, Drain, Pull, EncodeMessage;
      stream.Push(bytes);
      frames, events := [], [];
      ghost var start, before := stream.buffer, Model();
      ghost var done: seq<seq<Byte>> := [];
      NothingHeard(before);
      while true
        invariant Drain(start).frames == done + Drain(stream.buffer).frames
        invariant Drain(start).rest == Drain(stream.buffer).rest
        invariant
          var o := HandleMessages(before, DecodeAll(done));
          Model() == o.client && events == o.events && FramesEncode(o.sent, frames)
        decreases |stream.buffer|
      {
        DrainByPulls(stream.buffer);
        var frame := stream.NextFrame();
        if frame.None? {
          assert Drain(start).frames == done;
          return;
        }
        HearOneMore(before, done, frame.value);
        done := done + [frame.value];
        var message := DecodeFrameLoop(frame.value);
        if message.Ok? {
          var moreFrames, moreEvents := HandleReceived(message.value);
          frames := frames + moreFrames;
          events := events + moreEvents;
        }
      }
    }

    /** A complete snapshot, once paired. */
    method MakeSnapshot(s: Snapshot, utcMs: Option<U64>) returns (r: Option<seq<Byte>>)
      modifies `sequence
      ensures
        var c := old(Model());
        var encoded := EncodeMessage(SnapshotOf(c, s, utcMs));
        && Model() == (if c.phase == Live then Advance(c) else c)
        && r == if c.phase == Live && encoded.Ok? then Some(encoded.value) else None
    {
      hide EncodeGroups;
      if phase != Live { return None; }
      var n := NextSequence();
      var frame := EncodeGroupsPush(Envelope(1, 0, SnapshotType, session, n, utcMs, None, localOffsetMinutes), s);
      return if frame.Ok? then Some(frame.value) else None;
    }

    /** Sends a command again under the identity it already has. */
    method RetryCommand(identity: U32, operation: CommandOperation) returns (r: Option<seq<Byte>>)
      modifies `sequence
      ensures
        var c := old(Model());
        var encoded := EncodeMessage(CommandOf(c, identity, operation));
        && Model() == (if c.phase == Live then Advance(c) else c)
        && r == if c.phase == Live && encoded.Ok? then Some(encoded.value) else None
    {
      hide EncodeControl;
      if phase != Live { return None; }
      var n := NextSequence();
      var frame := EncodeControlPush(Envelope(1, 0, CommandType, session, n, None, None, localOffsetMinutes),
                                     Command(CommandBody(identity, operation)));
      return if frame.Ok? then Some(frame.value) else None;
    }

    /** A command under a new identity. */
    method NewCommand(operation: CommandOperation) returns (identity: U32, r: Option<seq<Byte>>)
      modifies `sequence, `nextCommand
      ensures
        var c := old(Model()).(nextCommand := Inc32(old(nextCommand)));
        var encoded := EncodeMessage(CommandOf(old(Model()), identity, operation));
        && identity == old(nextCommand)
        && Model() == (if c.phase == Live then Advance(c) else c)
        && r == if c.phase == Live && encoded.Ok? then Some(encoded.value) else None
    {
      hide EncodeMessage;
      identity := nextCommand;
      nextCommand := Inc32(nextCommand);
      r := RetryCommand(identity, operation);
    }
  }

  lemma PairEncodes(c: Client)
    ensures EncodeMessage(PairOf(c)).Ok? <==> OffsetEncodes(c) && SixDigits(c.code)
  {
    hide EncodeControl;
    ControlEncodes(PairOf(c).envelope, PairOf(c).body);
  }

  lemma NothingHeard(c: Client)
    ensures HandleMessages(c, DecodeAll([])) == Handled(c, [], [])
  {
  }
}
