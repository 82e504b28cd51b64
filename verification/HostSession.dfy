/** The Host's end of the link as a function: handshake, the single Pair of a connection, and the
    identities of snapshots and commands. */
module HostSession {
  import opened Basics
  import opened Messages

  datatype Refusal = Incompatible | NotPairedWithYou | Declined | BadRequest | UnknownRefusal(code: Byte)

  function RefusalFrom(body: seq<Byte>): Refusal {
    if body == [] then UnknownRefusal(0)
    else if body[0] == 1 then Incompatible
    else if body[0] == 2 then NotPairedWithYou
    else if body[0] == 3 then Declined
    else if body[0] == 4 then BadRequest
    else UnknownRefusal(body[0])
  }

  datatype Phase = Idle | HelloSent | PairSent | Live | Refused(refusal: Refusal)

  datatype Event =
    | Negotiated(deviceMajor: U8, deviceMinor: U8)
    | Paired(deviceIdentity: Identity)
    | WasRefused(refusal: Refusal)
    | Replied(commandIdentity: U32, operation: CommandOperation, result: CommandResult)

  datatype Client = Client(
    host: Identity, knownDevice: Option<Identity>, code: U32, session: Identity,
    phase: Phase, sequence: U32, nextCommand: U32, localOffsetMinutes: Option<I16>)

  function NewClient(host: Identity, knownDevice: Option<Identity>, code: U32, session: Identity): Client {
    Client(host, knownDevice, code, session, Idle, 0, 1, None)
  }

  function EnvelopeOf(c: Client, kind: MessageType, session: Identity, sequence: U32): Envelope {
    Envelope(1, 0, kind, session, sequence, None, None, c.localOffsetMinutes)
  }

  /** The encoder refuses an offset beyond a day, and a matching code that is not six digits. */
  predicate OffsetEncodes(c: Client) { c.localOffsetMinutes.Some? ==> -1440 <= c.localOffsetMinutes.value <= 1440 }

  function Start(c: Client): Client { c.(phase := HelloSent) }

  function HelloOf(c: Client, utcMs: Option<U64>): Message {
    ControlMessage(EnvelopeOf(c, HelloType, ZERO_IDENTITY, 1), Hello(HelloBody(1, 0, 0, 0, utcMs, None)))
  }

  function Intended(c: Client): Identity { if c.knownDevice.Some? then c.knownDevice.value else ZERO_IDENTITY }

  function PairOf(c: Client): Message {
    ControlMessage(EnvelopeOf(c, PairType, c.session, 2), Pair(PairBody(c.host, Intended(c), c.code)))
  }

  datatype Handled = Handled(client: Client, sent: seq<Message>, events: seq<Event>)

  /** A Pair that answers the one this connection sent. */
  predicate Confirms(c: Client, e: Envelope, p: PairBody) {
    e.session == c.session && p.intendedPeerIdentity == c.host && p.matchingCode == c.code
  }

  /** One decoded message from the device. */
  function HandleMessage(c: Client, m: Message): Handled {
    if m.SnapshotMessage? then Handled(c, [], [])
    else if c.phase == HelloSent && m.body.HelloReply? then
      var heard := [Negotiated(m.body.hello.supportedMajor, m.body.hello.supportedMinor)];
      if OffsetEncodes(c) && SixDigits(c.code) then Handled(c.(phase := PairSent), [PairOf(c)], heard)
      else Handled(c, [], heard)
    else if c.phase == PairSent && m.body.Pair? && Confirms(c, m.envelope, m.body.pair) then
      Handled(c.(phase := Live, sequence := 0), [], [Paired(m.body.pair.pairingIdentity)])
    else if (c.phase == HelloSent || c.phase == PairSent) && m.body.ErrorReport? then
      var r := RefusalFrom(m.body.bytes);
      Handled(c.(phase := Refused(r)), [], [WasRefused(r)])
    else if c.phase == Live && m.body.CommandReply? && m.envelope.session == c.session then
      var r := m.body.reply;
      Handled(c, [], [Replied(r.commandIdentity, r.operation, r.result)])
    else Handled(c, [], [])
  }

  function HandleMessages(c: Client, ms: seq<Result<Message, Error>>): Handled
    decreases |ms|
  {
    if ms == [] then Handled(c, [], [])
    else if ms[0].Err? then HandleMessages(c, ms[1..])
    else
      var first := HandleMessage(c, ms[0].value);
      var others := HandleMessages(first.client, ms[1..]);
      Handled(others.client, first.sent + others.sent, first.events + others.events)
  }

  function Advance(c: Client): Client { c.(sequence := Inc32(c.sequence)) }

  function CommandOf(c: Client, identity: U32, operation: CommandOperation): Message {
    ControlMessage(EnvelopeOf(c, CommandType, c.session, Inc32(c.sequence)), Command(CommandBody(identity, operation)))
  }

  function SnapshotOf(c: Client, s: Snapshot, utcMs: Option<U64>): Message {
    SnapshotMessage(EnvelopeOf(c, SnapshotType, c.session, Inc32(c.sequence)).(utcMs := utcMs), s)
  }
}
