/** From messages to bytes and back: what one end encodes is what the other end decodes. */
module Delivery {
  import opened Basics
  import opened Cbor
  import opened Messages
  import opened Decode
  import opened FrameRoundTrip
  import opened Framing

  function EncodeMessage(m: Message): Result<seq<Byte>, Error> {
    match m
    case SnapshotMessage(e, s) => EncodeGroups(e, s)
    case ControlMessage(e, b) => EncodeControl(e, b)
  }

  /** The frames are the messages' encodings, in order. */
  predicate FramesEncode(ms: seq<Message>, frames: seq<seq<Byte>>) {
    |ms| == |frames| && forall i | 0 <= i < |ms| :: EncodeMessage(ms[i]) == Ok(frames[i])
  }

  /** Accepted by its encoder, under major 1, with the envelope type and CPU share the encoder
      of a snapshot leaves to its caller. */
  predicate Deliverable(m: Message) {
    && EncodeMessage(m).Ok?
    && m.envelope.major == 1
    && (m.SnapshotMessage? ==> m.envelope.kind == SnapshotType && m.snapshot.cpu.utilizationPerMille <= 1000)
  }

  predicate KindMatches(kind: MessageType, b: ControlBody) {
    match b
    case Hello(_) => kind == HelloType
    case HelloReply(_) => kind == HelloReplyType
    case Pair(_) => kind == PairType
    case Command(_) => kind == CommandType
    case CommandReply(_) => kind == CommandReplyType
    case ErrorReport(_) => kind == ErrorType
  }

  lemma HelloLength(h: HelloBody)
    ensures |EncHello(h)| <= 40
  {
    hide EncFields, EncOptional;
    assert Sum([1, 1, 4, 4]) == 10;
    FieldsLength([h.supportedMajor, h.supportedMinor, h.capabilities, h.configurationRevision], 0, [1, 1, 4, 4]);
    OptionalLength(4, h.utcMs, 8);
    OptionalLength(5, Widen(h.utcUncertaintyMs), 4);
  }

  lemma PairLength(p: PairBody)
    ensures |EncPair(p)| <= 64
  {
    hide EncByteEntry, EncUint;
    ByteEntryLength(0, p.pairingIdentity);
    ByteEntryLength(1, p.intendedPeerIdentity);
  }

  /** `encode_control` refuses a message for nothing but a mismatched type, a matching code that is not
      six digits, an error body over 509 bytes or an offset beyond a day: TooLarge is unreachable. */
  lemma ControlEncodes(e: Envelope, b: ControlBody)
    ensures EncodeControl(e, b).Ok? <==>
              && KindMatches(e.kind, b) && OffsetInRange(e)
              && (b.Pair? ==> SixDigits(b.pair.matchingCode))
              && (b.ErrorReport? ==> |b.bytes| <= MAX_CONTROL_BODY - 3)
    ensures EncodeControl(e, b) != Err(TooLarge)
  {
    hide EncContent, EncFields, EncHello, EncPair, EncGroup, EncBytes, OffsetInRange;
    var body := EncControlBody(e.kind, b);
    if body.Some? {
      BodyLength(e.kind, b);
      if OffsetInRange(e) { EnvelopeLength(e, body.value); }
    }
  }

  lemma BodyLength(kind: MessageType, b: ControlBody)
    requires EncControlBody(kind, b).Some?
    ensures |EncControlBody(kind, b).value| <= MAX_CONTROL_BODY
  {
    hide EncFields, EncHello, EncPair, EncGroup;
    match b
    case Hello(h) => HelloLength(h);
    case HelloReply(h) => HelloLength(h);
    case Pair(p) => PairLength(p);
    case Command(c) =>
      assert Sum([4, 0]) == 4;
      GroupLength([c.commandIdentity, OperationCode(c.operation)], [4, 0]);
    case CommandReply(r) =>
      assert Sum([4, 0, 0]) == 4;
      GroupLength([r.commandIdentity, OperationCode(r.operation), ResultCode(r.result)], [4, 0, 0]);
    case ErrorReport(bytes) =>
  }

  lemma MessageRoundTrip(m: Message)
    requires Deliverable(m)
    ensures DecodeFrame(EncodeMessage(m).value) == Ok(m) && FrameError(EncodeMessage(m).value).None?
  {
    hide DecodeFrame, FrameError, EncodeGroups, EncodeControl;
    match m
    case SnapshotMessage(e, s) => SnapshotRoundTrip(e, s); DecodedIsSound(EncodeMessage(m).value);
    case ControlMessage(e, b) => ControlMessageRoundTrip(e, b); DecodedIsSound(EncodeMessage(m).value);
  }

  lemma DecodedIsSound(frame: seq<Byte>)
    requires DecodeFrame(frame).Ok?
    ensures FrameError(frame).None?
  {
    hide FrameError, ParseContent;
  }

  /** What a sender emits: messages, and log text between them. */
  datatype Sent = Log(byte: Byte) | Sent(message: Message)

  predicate Sendable(line: seq<Sent>) {
    forall x <- line :: (x.Log? ==> x.byte > 7) && (x.Sent? ==> Deliverable(x.message))
  }

  function Items(line: seq<Sent>): (items: seq<Item>)
    requires Sendable(line)
  {
    if line == [] then []
    else
      assert line[0] in line;
      [match line[0] case Log(b) => Text(b) case Sent(m) => Framed(EncodeMessage(m).value)] + Items(line[1..])
  }

  function MessagesOf(line: seq<Sent>): seq<Message> {
    if line == [] then []
    else (if line[0].Sent? then [line[0].message] else []) + MessagesOf(line[1..])
  }

  function DecodeAll(frames: seq<seq<Byte>>): seq<Result<Message, Error>> {
    if frames == [] then [] else [DecodeFrame(frames[0])] + DecodeAll(frames[1..])
  }

  lemma {:induction false} DecodeAllAppend(frames: seq<seq<Byte>>, more: seq<seq<Byte>>)
    ensures DecodeAll(frames + more) == DecodeAll(frames) + DecodeAll(more)
    ensures |DecodeAll(frames)| == |frames|
  {
    hide DecodeFrame;
    if frames == [] {
      assert [] + more == more;
    } else {
      assert (frames + more)[1..] == frames[1..] + more;
      DecodeAllAppend(frames[1..], more);
    }
  }

  function AllOk(ms: seq<Message>): seq<Result<Message, Error>> {
    if ms == [] then [] else [Ok(ms[0])] + AllOk(ms[1..])
  }

  lemma {:induction false} FramesDecode(line: seq<Sent>)
    requires Sendable(line)
    ensures OnTheLine(Items(line))
    ensures DecodeAll(FramesOf(Items(line))) == AllOk(MessagesOf(line))
    decreases |line|
  {
    hide DecodeFrame, FrameError, Deliverable, EncodeMessage;
    if line != [] {
      assert line[0] in line;
      FramesDecode(line[1..]);
      assert Items(line)[1..] == Items(line[1..]);
      if line[0].Sent? {
        var m := line[0].message;
        MessageRoundTrip(m);
        assert FramesOf(Items(line))[1..] == FramesOf(Items(line[1..]));
        assert MessagesOf(line)[1..] == MessagesOf(line[1..]);
      } else {
        assert FramesOf(Items(line)) == FramesOf(Items(line[1..]));
        assert MessagesOf(line) == MessagesOf(line[1..]);
      }
    }
  }

  /** Whatever mix of messages and log text is sent, and however its bytes are cut into pushes,
      the receiver decodes exactly the messages, in order, and drops only text. */
  lemma MessagesSurviveTheLink(line: seq<Sent>, chunks: seq<seq<Byte>>)
    requires Sendable(line) && Flatten(chunks) == Render(Items(line))
    ensures DecodeAll(Feed(chunks, []).frames) == AllOk(MessagesOf(line))
    ensures Feed(chunks, []).dropped + |Feed(chunks, []).rest| == TextOf(Items(line))
  {
    hide LookAt, FrameError, DecodeFrame, Deliverable, Drain;
    FramesDecode(line);
    FragmentationIndependent(chunks, []) by { EmptyWaits(); }
    assert [] + Flatten(chunks) == Flatten(chunks);
    FramesSurviveText(Items(line));
  }

  lemma EmptyWaits()
    ensures LookAt([]) == Wait
  {
  }
}
