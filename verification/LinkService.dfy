/** That the link serves its purpose: with nothing lost, a handshake ends with both ends in the same
    session, and a command gets its true answer. */
module LinkService {
  import opened Basics
  import opened Messages
  import opened Delivery
  import opened DeviceLink
  import opened H = HostSession
  import opened LinkSystem

  /** The steps can be taken one after the other, from `s` to `t`. */
  predicate Leads(s: System, steps: seq<Action>, t: System)
    decreases |steps|
  {
    if steps == [] then s == t else Legal(s, steps[0]) && Leads(Next(s, steps[0]), steps[1..], t)
  }

  lemma {:induction false} LeadsOn(s: System, first: seq<Action>, t: System, more: seq<Action>, u: System)
    requires Leads(s, first, t) && Leads(t, more, u)
    ensures Leads(s, first + more, u)
    decreases |first|
  {
    hide Legal, Next;
    if first == [] {
      assert first + more == more;
    } else {
      assert (first + more)[1..] == first[1..] + more;
      LeadsOn(Next(s, first[0]), first[1..], t, more, u);
    }
  }

  lemma LeadsByOne(s: System, a: Action)
    requires Legal(s, a)
    ensures Leads(s, [a], Next(s, a))
  {
    hide Legal, Next;
    assert [a][1..] == [];
  }

  const NO_ANSWERS := Answers(0, true, true)

  /** Nothing on the way in either direction. */
  predicate Calm(s: System) { s.up == [] && s.down == [] && s.device.outgoing == [] }

  /** The handshake as it should stand at each point. */
  predicate Greeting(s: System, c: Client) {
    s.client == c && c.phase == HelloSent && s.up == [HelloOf(c, None)] && s.down == [] && s.device.outgoing == []
  }

  lemma Greets(s: System, host: Identity, known: Option<Identity>, code: U32, session: Identity)
    returns (steps: seq<Action>, t: System)
    requires Calm(s) && session !in s.used
    ensures Leads(s, steps, t) && Greeting(t, Start(NewClient(host, known, code, session))) && t.device == s.device
  {
    hide EncodeMessage;
    var a := Connect(host, known, code, session);
    var c := NewClient(host, known, code, session);
    HelloEncodes(c);
    t := Next(Next(s, a), HostHello(None));
    assert t.up == [HelloOf(Start(c), None)];
    LeadsByOne(s, a);
    LeadsByOne(Next(s, a), HostHello(None));
    LeadsOn(s, [a], Next(s, a), [HostHello(None)], t);
    steps := [a] + [HostHello(None)];
  }

  lemma HelloEncodes(c: Client)
    requires c.localOffsetMinutes.None?
    ensures EncodeMessage(HelloOf(c, None)).Ok?
  {
    hide EncodeControl;
    ControlEncodes(HelloOf(c, None).envelope, HelloOf(c, None).body);
  }

  /** The Pair is on its way, and the device has agreed to talk. */
  predicate Offering(s: System, c: Client, d: Device) {
    && s.client == c && c.phase == PairSent && s.up == [PairOf(c)] && s.down == [] && s.device.outgoing == []
    && s.device.phase == DeviceLink.Negotiated && s.device.paired == d.paired && s.device.identity == d.identity
  }

  /** The device has heard the Hello and its reply is queued. */
  predicate Answering(s: System, c: Client, d: Device) {
    && s.client == c && s.up == [] && s.down == [] && |s.device.outgoing| == 1
    && s.device.outgoing[0].ControlMessage? && s.device.outgoing[0].body.HelloReply?
    && s.device.phase == DeviceLink.Negotiated && s.device.paired == d.paired && s.device.identity == d.identity
  }

  lemma HearsHello(s: System, c: Client) returns (t: System)
    requires Greeting(s, c)
    ensures Leads(s, [DeviceReceive(NO_ANSWERS)], t) && Answering(t, c, s.device)
  {
    hide EncodeMessage;
    t := Next(s, DeviceReceive(NO_ANSWERS));
    LeadsByOne(s, DeviceReceive(NO_ANSWERS));
  }

  lemma SendsPair(s: System, c: Client, d: Device) returns (t: System)
    requires Answering(s, c, d) && c.phase == HelloSent && SixDigits(c.code) && c.localOffsetMinutes.None?
    ensures Leads(s, [DeviceSends] + [HostReceive], t) && Offering(t, c.(phase := PairSent), d)
  {
    hide EncodeMessage;
    var s1 := Next(s, DeviceSends);
    assert s1.down == s.device.outgoing;
    t := Next(s1, HostReceive);
    LeadsByOne(s, DeviceSends);
    LeadsByOne(s1, HostReceive);
    hide Legal, Next;
    LeadsOn(s, [DeviceSends], s1, [HostReceive], t);
  }

  lemma Offers(s: System, c: Client) returns (steps: seq<Action>, t: System)
    requires Greeting(s, c) && SixDigits(c.code) && c.localOffsetMinutes.None?
    ensures Leads(s, steps, t) && Offering(t, c.(phase := PairSent), s.device)
  {
    hide Legal, Next;
    var u := HearsHello(s, c);
    t := SendsPair(u, c, s.device);
    LeadsOn(s, [DeviceReceive(NO_ANSWERS)], u, [DeviceSends] + [HostReceive], t);
    steps := [DeviceReceive(NO_ANSWERS)] + ([DeviceSends] + [HostReceive]);
  }

  predicate Accepting(s: System, c: Client) {
    && s.client == c && s.up == [] && s.down == [] && s.device.phase == SessionOpen && s.device.session == c.session
    && s.device.host == c.host && s.device.paired == Some(c.host) && s.device.cachedCommand.None?
    && s.device.feedOpen && s.device.gate == Receiver(Some(c.session), 0) && s.device.appliedInSession == []
    && s.device.outgoing == [Reply(s.device.(txSequence := 0), PairType, c.session, Pair(PairBody(s.device.identity,
        c.host, c.code)))]
  }

  function TickSteps(ticks: seq<U64>): seq<Action> {
    if ticks == [] then [] else [DeviceTick(ticks[0])] + TickSteps(ticks[1..])
  }

  /** Ticks within the minute leave a pending pairing alone. */
  lemma {:induction false} TicksLead(s: System, ticks: seq<U64>)
    requires s.device.phase == AwaitingConfirmation
    requires forall x <- ticks :: s.device.pendingSinceMs <= x < s.device.pendingSinceMs + 60_000
    ensures Leads(s, TickSteps(ticks), s)
    decreases |ticks|
  {
    if ticks != [] {
      assert ticks[0] in ticks && forall x <- ticks[1..] :: x in ticks;
      TickDeclines(s.device, s.device.pendingSinceMs, ticks[0]);
      assert Next(s, DeviceTick(ticks[0])) == s by { hide React; }
      LeadsByOne(s, DeviceTick(ticks[0]));
      TicksLead(s, ticks[1..]);
      hide Next;
      LeadsOn(s, [DeviceTick(ticks[0])], s, TickSteps(ticks[1..]), s);
    }
  }

  /** The device hears the Pair at `at`, and opens the session or asks the operator. */
  lemma HearsPair(s: System, c: Client, d: Device, at: U64) returns (t: System)
    requires Offering(s, c, d) && SixDigits(c.code)
    requires d.paired == Some(c.host) || (d.paired.None? && Intended(c) == ZERO_IDENTITY)
    requires Intended(c) == ZERO_IDENTITY || Intended(c) == d.identity
    ensures Leads(s, [DeviceReceive(Answers(at, true, true))], t) && t.device.identity == d.identity
    ensures d.paired.Some? ==> Accepting(t, c)
    ensures d.paired.None? ==> Asking(t, c, at)
  {
    var a := DeviceReceive(Answers(at, true, true));
    t := Next(s, a);
    LeadsByOne(s, a);
    hide Leads;
  }

  /** The operator has been asked. */
  predicate Asking(s: System, c: Client, at: U64) {
    && s.client == c && s.up == [] && s.down == [] && s.device.outgoing == [] && s.device.phase == AwaitingConfirmation
    && s.device.pendingSession == c.session && s.device.pendingHost == c.host && s.device.pendingCode == c.code
    && s.device.pendingSinceMs == at && s.device.paired.None?
  }

  lemma IsTouched(s: System, c: Client, at: U64) returns (t: System)
    requires Asking(s, c, at) && SixDigits(c.code)
    ensures Leads(s, [DeviceTouch(true, true)], t) && Accepting(t, c) && t.device.identity == s.device.identity
  {
    t := Next(s, DeviceTouch(true, true));
    LeadsByOne(s, DeviceTouch(true, true));
    hide Leads;
  }

  /** If the display holds no host the operator accepts, after some ticks. */
  function AskSteps(d: Device, at: U64, ticks: seq<U64>): seq<Action> {
    [DeviceReceive(Answers(at, true, true))]
    + if d.paired.None? then TickSteps(ticks) + [DeviceTouch(true, true)] else []
  }

  lemma Accepts(s: System, c: Client, d: Device, at: U64, ticks: seq<U64>) returns (t: System)
    requires Offering(s, c, d) && SixDigits(c.code) && forall x <- ticks :: at <= x < at + 60_000
    requires d.paired == Some(c.host) || (d.paired.None? && Intended(c) == ZERO_IDENTITY)
    requires Intended(c) == ZERO_IDENTITY || Intended(c) == d.identity
    ensures Leads(s, AskSteps(d, at, ticks), t) && Accepting(t, c) && t.device.identity == d.identity
  {
    var a := [DeviceReceive(Answers(at, true, true))];
    var u := HearsPair(s, c, d, at);
    t := u;
    if d.paired.None? {
      TicksLead(u, ticks);
      t := IsTouched(u, c, at);
      hide Leads, Accepting;
      LeadsOn(u, TickSteps(ticks), u, [DeviceTouch(true, true)], t);
      LeadsOn(s, a, u, TickSteps(ticks) + [DeviceTouch(true, true)], t);
    } else {
      assert a + [] == a;
    }
  }

  lemma GoesLive(s: System, c: Client) returns (steps: seq<Action>, t: System)
    requires Accepting(s, c) && c.phase == PairSent
    ensures Leads(s, steps, t) && Calm(t) && t.client == c.(phase := Live, sequence := 0)
    ensures t.device == s.device.(outgoing := [])
  {
    var s1 := Next(s, DeviceSends);
    assert s1.down == s.device.outgoing;
    t := Next(s1, HostReceive);
    LeadsByOne(s, DeviceSends);
    LeadsByOne(s1, HostReceive);
    hide Legal, Next;
    LeadsOn(s, [DeviceSends], s1, [HostReceive], t);
    steps := [DeviceSends] + [HostReceive];
  }

  /** With nothing on the way and nothing lost, a fresh connection of a host to a display that holds no host,
      or holds this one, ends with both ends in the same session. The operator, if asked, may take up to a
      minute after the Pair, whatever ticks come meanwhile. */
  lemma UndisturbedHandshake(s: System, host: Identity, known: Option<Identity>, code: U32, session: Identity,
                             at: U64, ticks: seq<U64>)
    returns (greet: seq<Action>, live: seq<Action>, t: System)
    requires Calm(s) && session !in s.used && SixDigits(code) && forall x <- ticks :: at <= x < at + 60_000
    requires known.None? || known.value == ZERO_IDENTITY || known.value == s.device.identity
    requires s.device.paired == Some(host) || (s.device.paired.None? && (known.None? || known.value == ZERO_IDENTITY))
    ensures Leads(s, greet + AskSteps(s.device, at, ticks) + live, t) && Calm(t)
    ensures t.client.phase == Live && t.client.session == session && t.client.host == host && t.client.nextCommand == 1
    ensures t.client.localOffsetMinutes.None? && t.client.sequence == 0
    ensures t.device.phase == SessionOpen && t.device.session == session && t.device.paired == Some(host)
    ensures t.device.cachedCommand.None?
    ensures t.device.feedOpen && t.device.gate == Receiver(Some(session), 0) && t.device.appliedInSession == []
  {
    var c := Start(NewClient(host, known, code, session));
    var a1, s1 := Greets(s, host, known, code, session);
    var a2, s2 := Offers(s1, c);
    var s3 := Accepts(s2, c.(phase := PairSent), s.device, at, ticks);
    live, t := GoesLive(s3, c.(phase := PairSent));
    hide Leads, AskSteps, Offering, Greeting;
    greet := a1 + a2;
    LeadsOn(s, a1, s1, a2, s2);
    LeadsOn(s, greet, s2, AskSteps(s.device, at, ticks), s3);
    LeadsOn(s, greet + AskSteps(s.device, at, ticks), s3, live, t);
  }

  // ---- a refusal ----

  /** The display does not know the Host that asks, or is not the one it asks for. */
  predicate Unknown(d: Device, host: Identity, known: Option<Identity>) {
    var named := known.Some? && known.value != ZERO_IDENTITY;
    || (d.paired.Some? && d.paired != Some(host))
    || (d.paired == Some(host) && named && known.value != d.identity)
    || (d.paired.None? && named)
  }

  /** The device has refused and says why. */
  predicate Refusing(s: System, c: Client, d: Device, code: Byte) {
    && s.client == c && s.up == [] && s.down == [] && |s.device.outgoing| == 1
    && s.device.outgoing[0].ControlMessage? && s.device.outgoing[0].body == ErrorReport([code])
    && s.device.phase == DeviceLink.Negotiated && s.device.paired == d.paired && s.device.identity == d.identity
  }

  lemma RefusesPair(s: System, c: Client, d: Device, at: U64) returns (t: System)
    requires Offering(s, c, d) && SixDigits(c.code) && Unknown(d, c.host, c.knownDevice)
    ensures Leads(s, [DeviceReceive(Answers(at, true, true))], t) && Refusing(t, c, d, 2)
    ensures t.device.fault == NotPairedWithHost && t.openings == s.openings
  {
    var a := DeviceReceive(Answers(at, true, true));
    t := Next(s, a);
    LeadsByOne(s, a);
    hide Leads;
  }

  lemma HearsRefusal(s: System, c: Client, d: Device, code: Byte) returns (t: System)
    requires Refusing(s, c, d, code) && c.phase == PairSent
    ensures Leads(s, [DeviceSends] + [HostReceive], t) && Calm(t) && t.device == s.device.(outgoing := [])
    ensures t.client == c.(phase := Refused(RefusalFrom([code]))) && t.openings == s.openings
  {
    var s1 := Next(s, DeviceSends);
    assert s1.down == s.device.outgoing;
    t := Next(s1, HostReceive);
    LeadsByOne(s, DeviceSends);
    LeadsByOne(s1, HostReceive);
    hide Legal, Next;
    LeadsOn(s, [DeviceSends], s1, [HostReceive], t);
  }

  /** A Host is unknown in every case but those of `UndisturbedHandshake`. */
  lemma UnknownOrWelcome(d: Device, host: Identity, known: Option<Identity>)
    ensures Unknown(d, host, known) <==>
              !(&& (known.None? || known.value == ZERO_IDENTITY || known.value == d.identity)
                && (d.paired == Some(host) || (d.paired.None? && (known.None? || known.value == ZERO_IDENTITY))))
  {
  }

  /** With nothing lost, a Host the display does not know, or that wants another display, is told so, and nothing
      opens. */
  lemma UndisturbedRefusal(s: System, host: Identity, known: Option<Identity>, code: U32, session: Identity, at: U64)
    returns (steps: seq<Action>, t: System)
    requires Calm(s) && session !in s.used && SixDigits(code) && Unknown(s.device, host, known)
    ensures Leads(s, steps, t) && Calm(t) && t.client.phase == Refused(NotPairedWithYou) && t.client.session == session
    ensures t.device.phase == DeviceLink.Negotiated && t.device.fault == NotPairedWithHost
    ensures t.device.paired == s.device.paired
  {
    hide Leads, Offering, Greeting, Legal, Next, RefusalFrom, SixDigits, Unknown;
    RefusalCodes();
    var c := Start(NewClient(host, known, code, session));
    var a1, s1 := Greets(s, host, known, code, session);
    var a2, s2 := Offers(s1, c);
    var a3 := [DeviceReceive(Answers(at, true, true))];
    var s3 := RefusesPair(s2, c.(phase := PairSent), s.device, at);
    t := HearsRefusal(s3, c.(phase := PairSent), s.device, 2);
    LeadsOn(s, a1, s1, a2, s2);
    LeadsOn(s, a1 + a2, s2, a3, s3);
    LeadsOn(s, a1 + a2 + a3, s3, [DeviceSends] + [HostReceive], t);
    steps := a1 + a2 + a3 + ([DeviceSends] + [HostReceive]);
  }

  /** How a pairing that waits is declined: by the operator, by a store that does not keep it, or by the tick that finds
      it a minute old. */
  predicate Declines(a: Action, at: U64) {
    match a
    case DeviceTouch(accepted, saved) => !accepted || !saved
    case DeviceTick(now) => now >= at + 60_000
    case _ => false
  }

  lemma IsDeclined(s: System, c: Client, at: U64, a: Action) returns (t: System)
    requires Asking(s, c, at) && Declines(a, at)
    ensures Leads(s, [a], t) && Refusing(t, c, s.device, 3)
    ensures t.device.fault == DeclinedFault && t.openings == s.openings
  {
    t := Next(s, a);
    LeadsByOne(s, a);
    hide Leads;
  }

  lemma PendsSince(s: System, c: Client, at: U64)
    requires Asking(s, c, at)
    ensures s.device.phase == AwaitingConfirmation && s.device.pendingSinceMs == at
  {
  }

  lemma RefusalCodes()
    ensures RefusalFrom([2]) == NotPairedWithYou && RefusalFrom([3]) == H.Declined
  {
  }

  /** With nothing lost, a first pairing that is declined, after any ticks of the minute, is told so, and nothing is
      stored. */
  lemma UndisturbedDecline(s: System, host: Identity, code: U32, session: Identity, at: U64, ticks: seq<U64>, no: Action)
    returns (steps: seq<Action>, t: System)
    requires Calm(s) && session !in s.used && SixDigits(code) && forall x <- ticks :: at <= x < at + 60_000
    requires s.device.paired.None? && Declines(no, at)
    ensures Leads(s, steps, t) && Calm(t) && t.client.phase == Refused(H.Declined) && t.client.session == session
    ensures t.device.phase == DeviceLink.Negotiated && t.device.fault == DeclinedFault && t.device.paired.None?
  {
    hide Leads, Offering, Greeting, Legal, Next, RefusalFrom, SixDigits, Declines;
    RefusalCodes();
    var c := Start(NewClient(host, None, code, session));
    var a1, s1 := Greets(s, host, None, code, session);
    var a2, s2 := Offers(s1, c);
    var a3 := [DeviceReceive(Answers(at, true, true))];
    var s3 := HearsPair(s2, c.(phase := PairSent), s.device, at);
    PendsSince(s3, c.(phase := PairSent), at);
    TicksLead(s3, ticks);
    var s4 := IsDeclined(s3, c.(phase := PairSent), at, no);
    t := HearsRefusal(s4, c.(phase := PairSent), s3.device, 3);
    hide Asking;
    LeadsOn(s, a1, s1, a2, s2);
    LeadsOn(s, a1 + a2, s2, a3, s3);
    LeadsOn(s, a1 + a2 + a3, s3, TickSteps(ticks), s3);
    LeadsOn(s, a1 + a2 + a3 + TickSteps(ticks), s3, [no], s4);
    LeadsOn(s, a1 + a2 + a3 + TickSteps(ticks) + [no], s4, [DeviceSends] + [HostReceive], t);
    steps := a1 + a2 + a3 + TickSteps(ticks) + [no] + ([DeviceSends] + [HostReceive]);
  }

  // ---- a command ----

  /** Both ends in the same session, the Host waiting for nothing, and its next command new to the device. */
  predicate InSession(s: System) {
    && Calm(s) && s.client.phase == Live && s.device.phase == SessionOpen && s.device.session == s.client.session
    && s.device.paired.Some? && s.outstanding.None? && s.client.nextCommand < U32_MAX
    && s.device.cachedCommand != Some(s.client.nextCommand) && OffsetEncodes(s.client)
  }

  function ExpectedReply(s: System, operation: CommandOperation, a: Answers): CommandReplyBody {
    CommandReplyBody(s.client.nextCommand, operation, Outcome(s.device, CommandBody(s.client.nextCommand, operation),
        a.resetOk))
  }

  /** The reply to the outstanding command is queued at the device. */
  predicate Replying(t: System, s: System, operation: CommandOperation, a: Answers) {
    && t.client.phase == Live && t.client.session == s.client.session && t.up == [] && t.down == []
    && t.outstanding == Some((s.client.nextCommand, operation)) && |t.device.outgoing| == 1
    && t.device.outgoing[0].ControlMessage? && t.device.outgoing[0].envelope.session == s.client.session
    && t.device.outgoing[0].body == CommandReply(ExpectedReply(s, operation, a))
    && t.executed == s.executed[(s.client.session, s.client.nextCommand) :=
                                  Execution(operation, ExpectedReply(s, operation, a).result)]
  }

  lemma CommandEncodes(c: Client, identity: U32, operation: CommandOperation)
    requires OffsetEncodes(c)
    ensures EncodeMessage(CommandOf(c, identity, operation)).Ok?
  {
    hide EncodeControl;
    ControlEncodes(CommandOf(c, identity, operation).envelope, CommandOf(c, identity, operation).body);
  }

  lemma Issues(s: System, operation: CommandOperation) returns (t: System)
    requires InSession(s)
    ensures Legal(s, HostCommand(operation)) && t == Next(s, HostCommand(operation))
    ensures t == IssueCommand(s, operation) && t.up == [CommandOf(s.client, s.client.nextCommand, operation)]
  {
    hide EncodeMessage;
    CommandEncodes(s.client, s.client.nextCommand, operation);
    t := Next(s, HostCommand(operation));
  }

  lemma DeviceExecutes(s: System, t: System, operation: CommandOperation, a: Answers) returns (u: System)
    requires InSession(s) && t == IssueCommand(s, operation)
    requires t.up == [CommandOf(s.client, s.client.nextCommand, operation)]
    ensures Leads(t, [DeviceReceive(a)], u) && Replying(u, s, operation, a)
  {
    hide EncodeMessage, CloseSession;
    u := Next(t, DeviceReceive(a));
    LeadsByOne(t, DeviceReceive(a));
    hide Legal, Leads;
    var c := CommandBody(s.client.nextCommand, operation);
    assert u.device == OnCommand(s.device, s.client.session, c, a.cleared, a.resetOk);
    ClosedKeepsQueue(s.device);
  }

  lemma ClosedKeepsQueue(d: Device)
    ensures forall e: Device :: CloseSession(e).outgoing == e.outgoing
  {
  }

  lemma ReplyArrives(s: System, t: System, operation: CommandOperation, a: Answers) returns (u: System, v: System)
    requires Replying(t, s, operation, a)
    ensures Leads(t, [DeviceSends], u) && u.down != [] && Legal(u, HostReceive) && v == Next(u, HostReceive)
    ensures Answer(u) == Some(ExpectedReply(s, operation, a).result) && v.outstanding.None? && Calm(v)
    ensures v.executed == t.executed
  {
    u := Next(t, DeviceSends);
    assert u.down == t.device.outgoing;
    LeadsByOne(t, DeviceSends);
    hide Leads;
    v := Next(u, HostReceive);
  }

  /** With nothing lost, a command issued in session is executed once and answered with what the device did:
      an unpair is Applied, a calibration reset Applied or Rejected as its handler says. */
  lemma UndisturbedCommand(s: System, operation: CommandOperation, a: Answers)
    returns (steps: seq<Action>, u: System)
    requires InSession(s)
    ensures Leads(s, steps, u) && u.down != [] && Legal(u, HostReceive)
    ensures Answer(u) == Some(if operation == CalibrationReset && !a.resetOk then Rejected else Applied)
    ensures
      var k := (s.client.session, s.client.nextCommand);
      k in u.executed && u.executed[k] == Execution(operation, Answer(u).value)
    ensures Calm(Next(u, HostReceive)) && Next(u, HostReceive).outstanding.None?
  {
    var s1 := Issues(s, operation);
    LeadsByOne(s, HostCommand(operation));
    hide Legal, Next;
    var s2 := DeviceExecutes(s, s1, operation, a);
    var v;
    u, v := ReplyArrives(s, s2, operation, a);
    LeadsOn(s, [HostCommand(operation)], s1, [DeviceReceive(a)], s2);
    LeadsOn(s, [HostCommand(operation)] + [DeviceReceive(a)], s2, [DeviceSends], u);
    steps := [HostCommand(operation)] + [DeviceReceive(a)] + [DeviceSends];
  }
}
