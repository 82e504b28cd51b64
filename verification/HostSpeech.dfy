/** What the device reads when the Host speaks: each message encodes under a condition the caller can check, and then
    decodes to just what the Host was given to say. */
module HostSpeech {
  import opened Basics
  import opened Messages
  import opened Decode
  import opened FrameRoundTrip
  import opened Delivery
  import opened HostSession

  /** Whatever the Host sends comes out of the device's decoder so. */
  ghost predicate Reads(sent: Message, read: Message) {
    EncodeMessage(sent).Ok? && DecodeFrame(EncodeMessage(sent).value) == Ok(read)
  }

  lemma ControlReads(e: Envelope, b: ControlBody)
    requires e.major == 1 && KindMatches(e.kind, b) && !b.ErrorReport?
    ensures EncodeMessage(ControlMessage(e, b)).Ok? <==> OffsetInRange(e) && (b.Pair? ==> SixDigits(b.pair.matchingCode))
    ensures EncodeMessage(ControlMessage(e, b)).Ok? ==> Reads(ControlMessage(e, b), ControlMessage(e, b))
  {
    hide EncodeControl, DecodeFrame, OffsetInRange;
    ControlEncodes(e, b);
    if EncodeControl(e, b).Ok? { MessageRoundTrip(ControlMessage(e, b)); }
  }

  /** A Hello says the Host speaks protocol 1.0, and its time. */
  lemma HelloReads(c: Client, utcMs: Option<U64>)
    ensures EncodeMessage(HelloOf(c, utcMs)).Ok? <==> OffsetEncodes(c)
    ensures OffsetEncodes(c) ==>
              Reads(HelloOf(c, utcMs),
                    ControlMessage(Envelope(1, 0, HelloType, ZERO_IDENTITY, 1, None, None, c.localOffsetMinutes),
                                   Hello(HelloBody(1, 0, 0, 0, utcMs, None))))
  {
    hide EncodeMessage, Reads;
    ControlReads(HelloOf(c, utcMs).envelope, HelloOf(c, utcMs).body);
  }

  /** A Pair names the Host, the display it expects or none, and the code it shows. */
  lemma PairReads(c: Client)
    ensures EncodeMessage(PairOf(c)).Ok? <==> OffsetEncodes(c) && 100_000 <= c.code <= 999_999
    ensures OffsetEncodes(c) && 100_000 <= c.code <= 999_999 ==>
              Reads(PairOf(c),
                    ControlMessage(Envelope(1, 0, PairType, c.session, 2, None, None, c.localOffsetMinutes),
                                   Pair(PairBody(c.host,
                                                 if c.knownDevice.Some? then c.knownDevice.value else ZERO_IDENTITY,
                                                 c.code))))
  {
    hide EncodeMessage, Reads;
    ControlReads(PairOf(c).envelope, PairOf(c).body);
  }

  /** A command names its identity and its operation, under the next sequence of the session. */
  lemma CommandReads(c: Client, identity: U32, operation: CommandOperation)
    requires c.sequence < U32_MAX
    ensures EncodeMessage(CommandOf(c, identity, operation)).Ok? <==> OffsetEncodes(c)
    ensures OffsetEncodes(c) ==>
              Reads(CommandOf(c, identity, operation),
                    ControlMessage(Envelope(1, 0, CommandType, c.session, c.sequence + 1, None, None, c.localOffsetMinutes),
                                   Command(CommandBody(identity, operation))))
  {
    hide EncodeMessage, Reads;
    ControlReads(CommandOf(c, identity, operation).envelope, CommandOf(c, identity, operation).body);
  }

  /** A snapshot bears its time and the display's offset from it, under the next sequence of the session. */
  lemma SnapshotReads(c: Client, x: Snapshot, utcMs: Option<U64>)
    requires c.sequence < U32_MAX
    ensures Deliverable(SnapshotOf(c, x, utcMs)) <==>
              OffsetEncodes(c) && Encodable(x) && x.cpu.utilizationPerMille <= 1000
    ensures Deliverable(SnapshotOf(c, x, utcMs)) ==>
              Reads(SnapshotOf(c, x, utcMs),
                    SnapshotMessage(Envelope(1, 0, SnapshotType, c.session, c.sequence + 1, utcMs, None,
                                             c.localOffsetMinutes), x))
  {
    var m := SnapshotOf(c, x, utcMs);
    hide EncodeGroups, DecodeFrame, Encodable;
    SnapshotFrameLength(m.envelope, x);
    if Deliverable(m) { MessageRoundTrip(m); }
  }

  /** What the Host makes of a message: it goes live exactly on the Pair for its session, its identity and its code once
      it has sent its own; it is refused exactly by an error during the handshake; it sends its Pair exactly on a reply
      to its Hello; and it reports a result exactly for a reply in its session. */
  lemma HearsExactly(c: Client, m: Message)
    ensures
      var (o, body) := (HandleMessage(c, m), if m.ControlMessage? then m.body else ErrorReport([]));
      && (o.client.phase == Live && c.phase != Live <==>
            && c.phase == PairSent && m.ControlMessage? && body.Pair? && m.envelope.session == c.session
            && body.pair.intendedPeerIdentity == c.host && body.pair.matchingCode == c.code)
      && (o.client.phase.Refused? && !c.phase.Refused? <==>
            (c.phase == HelloSent || c.phase == PairSent) && m.ControlMessage? && body.ErrorReport?)
      && (o.sent != [] <==>
            c.phase == HelloSent && m.ControlMessage? && body.HelloReply? && OffsetEncodes(c) && 100_000 <= c.code <= 999_999)
      && ((exists x <- o.events :: x.Replied?) <==>
            c.phase == Live && m.ControlMessage? && body.CommandReply? && m.envelope.session == c.session)
      && (c.phase.Refused? || c.phase == Idle ==> o == Handled(c, [], []))
  {
    var o := HandleMessage(c, m);
    assert forall x <- o.events :: x == o.events[0];
    if o.events != [] { assert o.events[0] in o.events; }
    hide OffsetEncodes, PairOf, RefusalFrom;
  }
}
