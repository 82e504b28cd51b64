/** The Host's timed loops: the handshake of one connection and the retries of one command. Time enters
    as the chunks of bytes each loop reads before its deadline. */
module HostRetries {
  import opened Basics
  import opened Messages
  import opened Framing
  import opened Delivery
  import opened HostSession
  import opened HostClients

  const COMMAND_ATTEMPTS := 5

  datatype LinkError = Timeout | RefusedBy(refusal: Refusal) | Protocol(error: Error)

  // ---- one command ----

  /** The first reply to command `identity` among the events. */
  function FirstReply(events: seq<Event>, identity: U32): Option<CommandResult> {
    if events == [] then None
    else if events[0].Replied? && events[0].commandIdentity == identity then Some(events[0].result)
    else FirstReply(events[1..], identity)
  }

  datatype Listened = Listened(client: Client, held: seq<Byte>, answer: Option<CommandResult>)

  /** Reads chunk after chunk until the reply comes. */
  function Listen(c: Client, held: seq<Byte>, chunks: seq<seq<Byte>>, identity: U32): Listened
    decreases |chunks|
  {
    if chunks == [] then Listened(c, held, None)
    else
      var d := Drain(held + chunks[0]);
      var o := HandleMessages(c, DecodeAll(d.frames));
      var a := FirstReply(o.events, identity);
      if a.Some? then Listened(o.client, d.rest, a) else Listen(o.client, d.rest, chunks[1..], identity)
  }

  function RetryFrames(c: Client, identity: U32, operation: CommandOperation): seq<Message> {
    var m := CommandOf(c, identity, operation);
    if c.phase == Live && EncodeMessage(m).Ok? then [m] else []
  }

  datatype Attempted = Attempted(answer: Option<CommandResult>, sent: seq<Message>)

  /** Listens once per attempt and sends the same command again after each that heard nothing. */
  function Attempts(c: Client, held: seq<Byte>, tries: seq<seq<seq<Byte>>>, identity: U32,
      operation: CommandOperation): Attempted
    decreases |tries|
  {
    if tries == [] then Attempted(None, [])
    else
      var l := Listen(c, held, tries[0], identity);
      if l.answer.Some? then Attempted(l.answer, [])
      else
        var next := if l.client.phase == Live then Advance(l.client) else l.client;
        var r := Attempts(next, l.held, tries[1..], identity, operation);
        Attempted(r.answer, RetryFrames(l.client, identity, operation) + r.sent)
  }

  predicate IsCopyOf(m: Message, session: Identity, c: CommandBody) {
    m.ControlMessage? && m.body == Command(c) && m.envelope.session == session
  }

  lemma {:induction false} ListenKeepsSession(c: Client, held: seq<Byte>, chunks: seq<seq<Byte>>, identity: U32)
    ensures Listen(c, held, chunks, identity).client.session == c.session
    decreases |chunks|
  {
    hide Drain, DecodeAll, HandleMessages, FirstReply;
    if chunks != [] {
      var d := Drain(held + chunks[0]);
      HandledKeepsSession(c, DecodeAll(d.frames));
      ListenKeepsSession(HandleMessages(c, DecodeAll(d.frames)).client, d.rest, chunks[1..], identity);
    }
  }

  lemma {:induction false} HandledKeepsSession(c: Client, ms: seq<Result<Message, Error>>)
    ensures HandleMessages(c, ms).client.session == c.session
    decreases |ms|
  {
    if ms != [] {
      HandledKeepsSession(if ms[0].Err? then c else HandleMessage(c, ms[0].value).client, ms[1..]);
    }
  }

  /** Every retry repeats the identity and the operation of the command, and there is at most one an attempt. */
  lemma {:induction false} RetriesAreCopies(
    c: Client, held: seq<Byte>, tries: seq<seq<seq<Byte>>>, identity: U32, operation: CommandOperation)
    ensures
      var r := Attempts(c, held, tries, identity, operation);
      |r.sent| <= |tries| && forall m <- r.sent :: IsCopyOf(m, c.session, CommandBody(identity, operation))
    decreases |tries|
  {
    hide Listen, EncodeMessage;
    if tries != [] {
      var l := Listen(c, held, tries[0], identity);
      ListenKeepsSession(c, held, tries[0], identity);
      if l.answer.None? {
        RetriesAreCopies(if l.client.phase == Live then Advance(l.client) else l.client, l.held, tries[1..],
            identity, operation);
      }
    }
  }

  // ---- one handshake ----

  /** One turn of the connect loop: what the clocks say, and what the port reads. */
  datatype Turn = Turn(helloDue: bool, utcMs: U64, localOffset: Option<I16>, bytes: seq<Byte>)

  /** Hellos, and then at most one Pair. */
  predicate HellosThenPair(sent: seq<Message>) {
    forall i | 0 <= i < |sent| :: if i < |sent| - 1 then IsHello(sent[i]) else IsHello(sent[i]) || IsPair(sent[i])
  }

  /** What the first event that ends the handshake says. */
  function VerdictOf(events: seq<Event>): Option<Result<Identity, LinkError>> {
    if events == [] then None
    else match events[0]
         case WasRefused(refusal) => Some(Err(RefusedBy(refusal)))
         case Paired(device) => Some(Ok(device))
         case _ => VerdictOf(events[1..])
  }

  method Verdict(events: seq<Event>) returns (r: Option<Result<Identity, LinkError>>)
    ensures r == VerdictOf(events)
  {
    for i := 0 to |events|
      invariant VerdictOf(events) == VerdictOf(events[i..])
    {
      assert events[i..][0] == events[i] && events[i..][1..] == events[i + 1..];
      match events[i] {
        case WasRefused(refusal) => return Some(Err(RefusedBy(refusal)));
        case Paired(device) => return Some(Ok(device));
        case _ =>
      }
    }
    return None;
  }

  lemma {:induction false} VerdictIsFirst(events: seq<Event>)
    ensures VerdictOf(events).None? <==> forall e <- events :: !Ends(e)
    ensures VerdictOf(events).Some? && VerdictOf(events).value.Ok? ==> Paired(VerdictOf(events).value.value) in events
    decreases |events|
  {
    if events != [] {
      assert events[0] in events && forall e <- events :: e == events[0] || e in events[1..];
      VerdictIsFirst(events[1..]);
    }
  }

  datatype Connected = Connected(result: Result<Identity, LinkError>, sent: seq<Message>)

  /** A Hello is sent at once, and again when it is due and the Pair has not been sent. */
  predicate Greets(c: Client, greeted: bool, t: Turn) { c.phase != PairSent && (!greeted || t.helloDue) }

  function Greeted(c: Client, greeted: bool, t: Turn): Client {
    if Greets(c, greeted, t) then Start(c.(localOffsetMinutes := t.localOffset)) else c
  }

  /** Turn after turn until the handshake ends. Running out of turns is the deadline. */
  function Connecting(c: Client, held: seq<Byte>, greeted: bool, turns: seq<Turn>): Connected
    decreases |turns|
  {
    if turns == [] then Connected(Err(Timeout), [])
    else
      var greets, d := Greets(c, greeted, turns[0]), Greeted(c, greeted, turns[0]);
      var hello := HelloOf(d, Some(turns[0].utcMs));
      if greets && EncodeMessage(hello).Err? then Connected(Err(Protocol(EncodeMessage(hello).error)), [])
      else
        var heard := Drain(held + turns[0].bytes);
        var o := HandleMessages(d, DecodeAll(heard.frames));
        var said := (if greets then [hello] else []) + o.sent;
        match VerdictOf(o.events)
        case Some(v) => Connected(v, said)
        case None =>
          var r := Connecting(o.client, heard.rest, greeted || greets, turns[1..]);
          Connected(r.result, said + r.sent)
  }

  /** Hellos, then at most one Pair; and success only after the Pair. */
  lemma {:induction false} ConnectingSays(c: Client, held: seq<Byte>, greeted: bool, turns: seq<Turn>)
    requires Handshaking(c.phase) && (c.phase == Idle ==> !greeted)
    ensures
      var r := Connecting(c, held, greeted, turns);
      && (if c.phase == PairSent then r.sent == [] else HellosThenPair(r.sent))
      && (r.result.Ok? && c.phase != PairSent ==> r.sent != [] && IsPair(r.sent[|r.sent| - 1]))
    decreases |turns|
  {
    hide EncodeMessage, HandleMessages, DecodeAll, Drain;
    if turns != [] {
      var (greets, d, heard) := (Greets(c, greeted, turns[0]), Greeted(c, greeted, turns[0]), Drain(held + turns[0].bytes));
      var o := HandleMessages(d, DecodeAll(heard.frames));
      HandshakeProgress(d, DecodeAll(heard.frames));
      VerdictIsFirst(o.events);
      if VerdictOf(o.events).None? {
        ConnectingSays(o.client, heard.rest, greeted || greets, turns[1..]);
      } else if VerdictOf(o.events).value.Ok? {
        PairedAfterPair(d, DecodeAll(heard.frames), VerdictOf(o.events).value.value);
      }
      hide VerdictOf, HelloOf, PairOf;
    }
  }

  method FindReply(events: seq<Event>, identity: U32) returns (r: Option<CommandResult>)
    ensures r == FirstReply(events, identity)
  {
    for i := 0 to |events|
      invariant FirstReply(events, identity) == FirstReply(events[i..], identity)
    {
      assert events[i..][0] == events[i] && events[i..][1..] == events[i + 1..];
      match events[i] {
        case Replied(id, _, result) => if id == identity { return Some(result); }
        case _ =>
      }
    }
    return None;
  }

  class Link {
    const client: HostClient
    /** The messages written to the port, oldest first. */
    ghost var written: seq<Message>

    constructor (client: HostClient)
      ensures this.client == client && written == []
    {
      this.client := client;
      written := [];
    }

    /** The handshake. */
    method ConnectWith(turns: seq<Turn>) returns (r: Result<Identity, LinkError>)
      requires client.phase == Idle
      modifies this, client, client.stream
      ensures
        var o := Connecting(old(client.Model()), old(client.stream.buffer), false, turns);
        r == o.result && written == old(written) + o.sent
    {
      hide EncodeMessage, HandleMessages, DecodeAll, Drain;
      var helloSent := false;
      ghost var start, held, before, said := client.Model(), client.stream.buffer, written, [];
      for i := 0 to |turns|
        invariant written == before + said
        invariant
          var all := Connecting(start, held, false, turns);
          var rest := Connecting(client.Model(), client.stream.buffer, helloSent, turns[i..]);
          all.result == rest.result && all.sent == said + rest.sent
      {
        var turn := turns[i];
        assert turns[i..][0] == turn && turns[i..][1..] == turns[i + 1..];
        ghost var c := client.Model();
        ghost var d := Greeted(c, helloSent, turn);
        ghost var now: seq<Message> := [];
        if client.phase != PairSent && (!helloSent || turn.helloDue) {
          client.SetLocalOffsetMinutes(turn.localOffset);
          var hello := client.SendHello(Some(turn.utcMs));
          if hello.Err? {
            assert said + [] == said;
            return Err(Protocol(hello.error));
          }
          now := [HelloOf(client.Model(), Some(turn.utcMs))];
          helloSent := true;
        }
        ghost var o := HandleMessages(d, DecodeAll(Drain(client.stream.buffer + turn.bytes).frames));
        var frames, events := client.Receive(turn.bytes);
        now := now + o.sent;
        written := written + now;
        var verdict := Verdict(events);
        Regrouped(before, said, now);
        if verdict.Some? { return verdict.value; }
        RegroupedAll(said, now);
        said := said + now;
      }
      assert turns[|turns|..] == [] && said + [] == said;
      return Err(Timeout);
    }

    /** Sends a command and waits for its reply. `tries` are the chunks read in each attempt. */
    method SendCommand(operation: CommandOperation, tries: seq<seq<seq<Byte>>>) returns (r: Result<CommandResult, LinkError>)
      requires |tries| == COMMAND_ATTEMPTS
      modifies this, client, client.stream
      ensures
        var c := old(client.Model()).(nextCommand := Inc32(old(client.nextCommand)));
        var id := old(client.nextCommand);
        if c.phase != Live || EncodeMessage(CommandOf(c, id, operation)).Err?
        then r == Err(Timeout) && written == old(written)
        else
          var a := Attempts(Advance(c), old(client.stream.buffer), tries, id, operation);
          && r == (if a.answer.Some? then Ok(a.answer.value) else Err(Timeout))
          && written == old(written) + [CommandOf(c, id, operation)] + a.sent
    {
      hide EncodeMessage, Listen, HandleMessages;
      var identity, frame := client.NewCommand(operation);
      if frame.None? { return Err(Timeout); }
      ghost var c := old(client.Model()).(nextCommand := Inc32(old(client.nextCommand)));
      assert CommandOf(old(client.Model()), identity, operation) == CommandOf(c, identity, operation);
      written := written + [CommandOf(c, identity, operation)];
      ghost var first, held, sent := client.Model(), client.stream.buffer, written;
      ghost var more: seq<Message> := [];
      for attempt := 0 to COMMAND_ATTEMPTS
        invariant written == sent + more
        invariant
          var all := Attempts(first, held, tries, identity, operation);
          var rest := Attempts(client.Model(), client.stream.buffer, tries[attempt..], identity, operation);
          all.answer == rest.answer && all.sent == more + rest.sent
      {
        assert tries[attempt..][0] == tries[attempt] && tries[attempt..][1..] == tries[attempt + 1..];
        ghost var before := client.Model();
        var answer := AwaitReply(identity, tries[attempt]);
        if answer.Some? {
          assert more + [] == more;
          return Ok(answer.value);
        }
        ghost var retry := RetryFrames(client.Model(), identity, operation);
        var again := client.RetryCommand(identity, operation);
        written := written + retry;
        assert forall rest: seq<Message> :: more + (retry + rest) == more + retry + rest;
        more := more + retry;
      }
      assert tries[COMMAND_ATTEMPTS..] == [] && more + [] == more;
      return Err(Timeout);
    }

    method AwaitReply(identity: U32, chunks: seq<seq<Byte>>) returns (r: Option<CommandResult>)
      modifies client, client.stream
      ensures Listened(client.Model(), client.stream.buffer, r)
              == Listen(old(client.Model()), old(client.stream.buffer), chunks, identity)
    {
      hide HandleMessages, DecodeAll, Drain;
      for i := 0 to |chunks|
        invariant Listen(client.Model(), client.stream.buffer, chunks[i..], identity)
                  == Listen(old(client.Model()), old(client.stream.buffer), chunks, identity)
      {
        assert chunks[i..][0] == chunks[i] && chunks[i..][1..] == chunks[i + 1..];
        var frames, events := client.Receive(chunks[i]);
        r := FindReply(events, identity);
        if r.Some? { return; }
      }
      return None;
    }
  }

  lemma Regrouped(a: seq<Message>, b: seq<Message>, c: seq<Message>)
    ensures a + b + c == a + (b + c)
  {
  }

  lemma RegroupedAll(a: seq<Message>, b: seq<Message>)
    ensures forall c: seq<Message> :: a + (b + c) == a + b + c
  {
    forall c: seq<Message> ensures a + (b + c) == a + b + c { Regrouped(a, b, c); }
  }

  /** A Paired event comes only after the Pair was sent. */
  lemma {:induction false} PairedAfterPair(c: Client, ms: seq<Result<Message, Error>>, device: Identity)
    requires Handshaking(c.phase) && Paired(device) in HandleMessages(c, ms).events
    ensures c.phase == PairSent || HandleMessages(c, ms).sent != []
    decreases |ms|
  {
    if ms[0].Err? {
      PairedAfterPair(c, ms[1..], device);
    } else {
      var first := HandleMessage(c, ms[0].value);
      var others := HandleMessages(first.client, ms[1..]);
      if c.phase != PairSent && first.sent == [] {
        if Handshaking(first.client.phase) {
          assert Paired(device) in others.events;
          PairedAfterPair(first.client, ms[1..], device);
        } else {
          RefusedIsQuiet(first.client, ms[1..]);
        }
      }
    }
  }

  lemma {:induction false} RefusedIsQuiet(c: Client, ms: seq<Result<Message, Error>>)
    requires c.phase.Refused?
    ensures HandleMessages(c, ms).events == []
    decreases |ms|
  {
    if ms != [] { RefusedIsQuiet(c, ms[1..]); }
  }
}
