/** What the device says, input by input: its replies are numbered without gaps, the newest eight wait to be taken,
    and its displayed fault fits its phase. */
module DeviceReplies {
  import opened Basics
  import opened Messages
  import opened DeviceLink

  /** What an input makes the device say, whatever already waits. */
  function Said(d: Device, i: Input): seq<Message> { React(d.(outgoing := []), i).outgoing }

  /** The newest eight. */
  function Waiting(queue: seq<Message>): seq<Message> { if |queue| > 8 then queue[|queue| - 8..] else queue }

  /** The input opens a session: the device answers it with a Pair, its first message there. */
  predicate OpensSession(d: Device, i: Input) {
    match i
    case Touch(accepted, saved) => d.phase == AwaitingConfirmation && accepted && saved
    case Frame(Ok(ControlMessage(_, Pair(p))), _) =>
      && d.phase != Idle && d.phase != Incompatible && p.matchingCode <= MAX_MATCHING_CODE
      && d.paired == Some(p.pairingIdentity) && NamesThisDevice(d, p)
    case _ => false
  }

  /** The code of the pairing that the input confirms. */
  function CodeOf(d: Device, i: Input): U32 {
    if i.Frame? && i.result.Ok? && i.result.value.ControlMessage? && i.result.value.body.Pair?
    then i.result.value.body.pair.matchingCode else d.pendingCode
  }

  /** A code of fewer than six digits would open a session, but the Pair that says so cannot be encoded. No such code
      comes out of the decoder. */
  predicate Unspeakable(d: Device, i: Input) { OpensSession(d, i) && !SixDigits(CodeOf(d, i)) }

  /** From `d` to `f` it said this: one thing, which bears the number after the last, or 1 if a session opened, or
      nothing; and what waits are the newest eight. */
  predicate Says(d: Device, said: seq<Message>, f: Device, opens: bool) {
    && |said| <= 1 && f.outgoing == Waiting(d.outgoing + said)
    && (said != [] ==>
          said[0].envelope.sequence == f.txSequence && f.txSequence == if opens then 1 else Inc32(d.txSequence))
    && (said == [] ==> f.txSequence == if opens then 1 else d.txSequence)
  }

  lemma SilenceSays(d: Device, f: Device)
    requires |d.outgoing| <= 8 && f.outgoing == d.outgoing && f.txSequence == d.txSequence
    ensures Says(d, [], f, false)
  {
    assert d.outgoing + [] == d.outgoing;
  }

  lemma SendSays(d: Device, e: Device, kind: MessageType, session: Identity, body: ControlBody)
    requires |d.outgoing| <= 8 && e.outgoing == d.outgoing && e.txSequence == d.txSequence && Encodes(body)
    ensures Says(d, Send(e.(outgoing := []), kind, session, body).outgoing, Send(e, kind, session, body), false)
  {
  }

  lemma OpenSays(d: Device, e: Device, session: Identity, host: Identity, code: U32)
    requires |d.outgoing| <= 8 && e.outgoing == d.outgoing
    ensures
      var said := OpenSession(e.(outgoing := []), session, host, code).outgoing;
      Says(d, said, OpenSession(e, session, host, code), true) && (said == [] <==> !SixDigits(code))
  {
    assert d.outgoing + [] == d.outgoing;
    hide SixDigits;
  }

  lemma HelloSays(d: Device, h: HelloBody)
    requires |d.outgoing| <= 8
    ensures Says(d, OnHello(d.(outgoing := []), h).outgoing, OnHello(d, h), false)
  {
    hide Says, Send;
    var e := CloseSession(d);
    SendSays(d, e.(fault := IncompatibleMajor, phase := Incompatible), ErrorType, ZERO_IDENTITY,
             ErrorReport([ERR_INCOMPATIBLE]));
    SendSays(d, e.(fault := NoFault, phase := Negotiated), HelloReplyType, ZERO_IDENTITY,
             HelloReply(HelloBody(1, 0, 0, 0, None, None)));
  }

  lemma PairSays(d: Device, session: Identity, p: PairBody, nowMs: U64)
    requires |d.outgoing| <= 8
    ensures
      var opens := d.phase != Idle && d.phase != Incompatible && p.matchingCode <= MAX_MATCHING_CODE
                   && d.paired == Some(p.pairingIdentity) && NamesThisDevice(d, p);
      var said := OnPair(d.(outgoing := []), session, p, nowMs).outgoing;
      && Says(d, said, OnPair(d, session, p, nowMs), opens)
      && (opens ==> (said == [] <==> !SixDigits(p.matchingCode)))
  {
    hide Says, Send, OpenSession, SixDigits;
    SendSays(d, d, ErrorType, ZERO_IDENTITY, ErrorReport([ERR_BAD_REQUEST]));
    SendSays(d, d.(fault := NotPairedWithHost), ErrorType, ZERO_IDENTITY, ErrorReport([ERR_NOT_PAIRED]));
    OpenSays(d, d, session, p.pairingIdentity, p.matchingCode);
    if Pends(d, p) { SilenceSays(d, OnPair(d, session, p, nowMs)); }
  }

  lemma ConfirmSays(d: Device, accepted: bool, saved: bool)
    requires |d.outgoing| <= 8
    ensures
      var opens := d.phase == AwaitingConfirmation && accepted && saved;
      var said := ConfirmPairing(d.(outgoing := []), accepted, saved).outgoing;
      && Says(d, said, ConfirmPairing(d, accepted, saved), opens)
      && (opens ==> (said == [] <==> !SixDigits(d.pendingCode)))
  {
    hide Says, Send, OpenSession, SixDigits;
    SendSays(d, d.(fault := DeclinedFault, phase := Negotiated), ErrorType, ZERO_IDENTITY, ErrorReport([ERR_DECLINED]));
    OpenSays(d, d.(paired := Some(d.pendingHost)), d.pendingSession, d.pendingHost, d.pendingCode);
    SilenceSays(d, d);
  }

  lemma CommandSays(d: Device, session: Identity, c: CommandBody, cleared: bool, resetOk: bool)
    requires |d.outgoing| <= 8
    ensures Says(d, OnCommand(d.(outgoing := []), session, c, cleared, resetOk).outgoing,
                 OnCommand(d, session, c, cleared, resetOk), false)
  {
    hide Says, Send;
    var retry := IsRetry(d, c);
    var result := if retry then d.cachedResult else Outcome(d, c, resetOk);
    var e := if retry then d
             else d.(cachedCommand := Some(c.commandIdentity),
                     cachedResult := if result == Applied then AlreadyApplied else result);
    var body := CommandReply(CommandReplyBody(c.commandIdentity, c.operation, result));
    SendSays(d, e, CommandReplyType, d.session, body);
    SilenceSays(d, d);
    var f := Send(e, CommandReplyType, d.session, body);
    var said := Send(e.(outgoing := []), CommandReplyType, d.session, body).outgoing;
    SaysElsewhere(d, said, f, CloseSession(ClearStore(f, cleared)), false);
  }

  lemma SaysElsewhere(d: Device, said: seq<Message>, f: Device, g: Device, opens: bool)
    requires Says(d, said, f, opens) && g.outgoing == f.outgoing && g.txSequence == f.txSequence
    ensures Says(d, said, g, opens)
  {
  }

  lemma FrameSays(d: Device, r: Result<Message, Error>, a: Answers)
    requires |d.outgoing| <= 8
    ensures
      var said := Handle(d.(outgoing := []), r, a).outgoing;
      && Says(d, said, Handle(d, r, a), OpensSession(d, Frame(r, a)))
      && (OpensSession(d, Frame(r, a)) ==> (said == [] <==> Unspeakable(d, Frame(r, a))))
  {
    hide Says, Send, OnHello, OnPair, OnCommand, SixDigits, NamesThisDevice;
    match r
    case Err(e) =>
      SendSays(d, CloseSession(d.(fault := IncompatibleMajor, phase := Incompatible)), ErrorType, ZERO_IDENTITY,
               ErrorReport([ERR_INCOMPATIBLE]));
      SilenceSays(d, d);
    case Ok(SnapshotMessage(e, _)) => SilenceSays(d, OnSnapshot(d, e));
    case Ok(ControlMessage(e, b)) =>
      SilenceSays(d, d);
      match b {
        case Hello(h) => HelloSays(d, h);
        case Pair(p) => PairSays(d, e.session, p, a.nowMs);
        case Command(c) => CommandSays(d, e.session, c, a.cleared, a.resetOk);
        case _ =>
      }
  }

  /** An input makes the device say one thing or nothing; only a Pair whose code has fewer than six digits opens a
      session without a word. */
  lemma SaysOne(d: Device, i: Input)
    requires |d.outgoing| <= 8 && i != TakeOutgoing
    ensures Says(d, Said(d, i), React(d, i), OpensSession(d, i))
    ensures OpensSession(d, i) ==> (Said(d, i) == [] <==> Unspeakable(d, i))
  {
    hide Says, Handle, ConfirmPairing, SixDigits;
    match i
    case Frame(r, a) => FrameSays(d, r, a); hide OpensSession, Unspeakable;
    case Touch(accepted, saved) => ConfirmSays(d, accepted, saved);
    case UnpairKey(cleared) => SilenceSays(d, LocalUnpair(d, cleared));
    case TickAt(now) => ConfirmSays(d, false, false); SilenceSays(d, d);
    case TakeOutgoing =>
  }

  function Play(d: Device, inputs: seq<Input>): Device
    decreases |inputs|
  {
    if inputs == [] then d else Play(React(d, inputs[0]), inputs[1..])
  }

  function SaidAll(d: Device, inputs: seq<Input>): seq<Message>
    decreases |inputs|
  {
    if inputs == [] then [] else Said(d, inputs[0]) + SaidAll(React(d, inputs[0]), inputs[1..])
  }

  lemma WaitingOn(queue: seq<Message>, a: seq<Message>, b: seq<Message>)
    ensures Waiting(Waiting(queue + a) + b) == Waiting(queue + (a + b)) && |Waiting(queue)| <= 8
  {
    var (all, part) := (queue + (a + b), Waiting(queue + a) + b);
    assert queue + a + b == all;
    if |queue + a| > 8 {
      assert part[|part| - 8..] == all[|all| - 8..];
    }
  }

  /** Until they are taken, the newest eight of all it said wait, in order. */
  lemma {:induction false} NewestWait(d: Device, inputs: seq<Input>)
    requires |d.outgoing| <= 8 && TakeOutgoing !in inputs
    ensures Play(d, inputs).outgoing == Waiting(d.outgoing + SaidAll(d, inputs))
    decreases |inputs|
  {
    hide React, Said, Waiting;
    if inputs == [] {
      assert d.outgoing + [] == d.outgoing;
      ShortWaits(d.outgoing);
    } else {
      var (i, e) := (inputs[0], React(d, inputs[0]));
      assert i in inputs && forall x <- inputs[1..] :: x in inputs;
      SaysOne(d, i);
      WaitingOn(d.outgoing + Said(d, i), [], []);
      NewestWait(e, inputs[1..]);
      WaitingOn(d.outgoing, Said(d, i), SaidAll(e, inputs[1..]));
    }
  }

  lemma ShortWaits(queue: seq<Message>)
    requires |queue| <= 8
    ensures Waiting(queue) == queue
  {
  }

  /** While no session opens, what it says is numbered on without gaps, from the number after `last`. */
  predicate NumberedOn(ms: seq<Message>, last: U32)
    decreases |ms|
  {
    ms == [] || (ms[0].envelope.sequence == Inc32(last) && NumberedOn(ms[1..], Inc32(last)))
  }

  predicate NoneOpens(d: Device, inputs: seq<Input>)
    decreases |inputs|
  {
    inputs == [] || (!OpensSession(d, inputs[0]) && NoneOpens(React(d, inputs[0]), inputs[1..]))
  }

  lemma {:induction false} NoGaps(d: Device, inputs: seq<Input>)
    requires DeviceInv(d) && NoneOpens(d, inputs)
    ensures NumberedOn(SaidAll(d, inputs), d.txSequence)
    decreases |inputs|
  {
    hide React, Said, OpensSession, Unspeakable, DeviceInv;
    if inputs != [] {
      var (i, e) := (inputs[0], React(d, inputs[0]));
      ReactKeeps(d, i);
      NoGaps(e, inputs[1..]);
      if i == TakeOutgoing {
        TakingSaysNothing(d);
        assert [] + SaidAll(e, inputs[1..]) == SaidAll(e, inputs[1..]);
      } else {
        ShortQueue(d);
        SaysOne(d, i);
        var said := Said(d, i);
        if said == [] {
          assert said + SaidAll(e, inputs[1..]) == SaidAll(e, inputs[1..]);
        } else {
          assert (said + SaidAll(e, inputs[1..]))[1..] == SaidAll(e, inputs[1..]);
        }
      }
    }
  }

  lemma ShortQueue(d: Device)
    requires DeviceInv(d)
    ensures |d.outgoing| <= 8
  {
  }

  lemma TakingSaysNothing(d: Device)
    ensures Said(d, TakeOutgoing) == [] && React(d, TakeOutgoing).txSequence == d.txSequence
  {
  }

  /** A session starts the count again. */
  lemma OpeningCountsFromOne(d: Device, i: Input, more: seq<Input>)
    requires DeviceInv(d) && OpensSession(d, i) && NoneOpens(React(d, i), more)
    ensures !Unspeakable(d, i) ==> |Said(d, i)| == 1 && Said(d, i)[0].envelope.sequence == 1
    ensures NumberedOn(SaidAll(React(d, i), more), 1)
  {
    ReactKeeps(d, i);
    SaysOne(d, i);
    hide React, OpensSession, Unspeakable;
    NoGaps(React(d, i), more);
  }

  // ---- what ends a session or a pairing ----

  /** No session is open, no pairing waits, and a touch does nothing. */
  predicate Over(d: Device) {
    && !d.feedOpen && d.phase != SessionOpen && d.phase != AwaitingConfirmation
    && forall accepted: bool, saved: bool :: React(d, Touch(accepted, saved)) == d
  }

  /** The unpair key ends whatever there is, and forgets the host if the store does. */
  lemma UnpairKeyEnds(d: Device, cleared: bool)
    requires DeviceInv(d)
    ensures Over(React(d, UnpairKey(cleared)))
    ensures React(d, UnpairKey(cleared)).paired == if cleared then None else d.paired
  {
  }

  /** A Hello ends whatever there is: a compatible one is answered with protocol 1.0, any other with error 1, and then
      only a compatible Hello is of use. */
  lemma HelloStartsOver(d: Device, e: Envelope, h: HelloBody, a: Answers)
    requires DeviceInv(d)
    ensures
      var i := Frame(Ok(ControlMessage(e, Hello(h))), a);
      var (f, said) := (React(d, i), Said(d, i));
      && Over(f) && f.paired == d.paired && |said| == 1 && said[0].ControlMessage?
      && (if h.supportedMajor == 1 then
            f.phase == Negotiated && said[0].body == HelloReply(HelloBody(1, 0, 0, 0, None, None))
          else f.phase == Incompatible && said[0].body == ErrorReport([1]))
  {
  }

  /** So does a frame of another major, whatever it carries. */
  lemma ForeignFrameEnds(d: Device, a: Answers)
    requires DeviceInv(d)
    ensures
      var i := Frame(Err(UnsupportedMajor), a);
      && Over(React(d, i)) && React(d, i).phase == Incompatible && |Said(d, i)| == 1 && Said(d, i)[0].ControlMessage?
      && Said(d, i)[0].body == ErrorReport([1])
  {
  }

  // ---- the displayed fault ----

  predicate FaultFits(d: Device) {
    && (d.phase == Incompatible <==> d.fault == IncompatibleMajor)
    && (d.phase == Idle ==> d.fault == NoFault)
    && (d.phase == SessionOpen ==> d.fault == NoFault || d.fault == NotPairedWithHost)
  }

  /** An incompatible Host shows as such until a compatible one says Hello, and a session that opens clears any
      fault. */
  lemma FaultStaysFit(d: Device, i: Input)
    requires FaultFits(d)
    ensures FaultFits(React(d, i)) && (OpensSession(d, i) ==> React(d, i).fault == NoFault)
  {
    hide Enqueue, Encodes, Reply, NamesThisDevice;
    if i.Frame? && i.result.Ok? && i.result.value.ControlMessage? {
      ControlStaysFit(d, i.result.value.envelope, i.result.value.body, i.answers);
      hide OnControl, FaultFits;
    }
  }

  lemma ControlStaysFit(d: Device, e: Envelope, b: ControlBody, a: Answers)
    requires FaultFits(d)
    ensures
      var f := OnControl(d, e, b, a);
      FaultFits(f) && (OpensSession(d, Frame(Ok(ControlMessage(e, b)), a)) ==> f.fault == NoFault)
  {
    hide Enqueue, Encodes, Reply, NamesThisDevice;
  }
}
