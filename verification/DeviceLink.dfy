/** The device's end of the link: handshake, pairing, session and commands, as a function of what
    the framer and decoder deliver. */
module DeviceLink {
  import opened Basics
  import opened Messages

  datatype Phase = Idle | Negotiated | AwaitingConfirmation | SessionOpen | Incompatible

  datatype Fault = NoFault | IncompatibleMajor | NotPairedWithHost | DeclinedFault

  const MAX_QUEUED_FRAMES := 8
  const MAX_MATCHING_CODE := 999_999
  const PAIRING_CONFIRM_TIMEOUT_MS := 60_000

  const ERR_INCOMPATIBLE: Byte := 1
  const ERR_NOT_PAIRED: Byte := 2
  const ERR_DECLINED: Byte := 3
  const ERR_BAD_REQUEST: Byte := 4

  /** The sequence gate of the current session. */
  datatype Receiver = Receiver(session: Option<Identity>, last: U32)

  function Accept(g: Receiver, e: Envelope): (r: (Receiver, Option<Error>)) {
    var h := if g.session.None? then Receiver(Some(e.session), 0) else g;
    if h.session != Some(e.session) then (h, Some(WrongSession))
    else if e.sequence <= h.last then (h, Some(StaleSequence))
    else (h.(last := e.sequence), None)
  }

  /** The device. `paired` is what the persistent store holds. `appliedInSession`, the sequence numbers
      of the snapshots applied since the session was opened, is kept for the proofs alone. */
  datatype Device = Device(
    identity: Identity, paired: Option<Identity>,
    phase: Phase, fault: Fault, feedOpen: bool, gate: Receiver,
    pendingHost: Identity, pendingSession: Identity, pendingCode: U32, pendingSinceMs: U64,
    session: Identity, host: Identity, cachedCommand: Option<U32>, cachedResult: CommandResult,
    txSequence: U32, outgoing: seq<Message>,
    appliedInSession: seq<U32>)

  /** A device that has just started, with whatever its store holds. */
  function PowerOn(identity: Identity, paired: Option<Identity>): Device {
    Device(identity, paired, Idle, NoFault, false, Receiver(None, 0), ZERO_IDENTITY, ZERO_IDENTITY, 0, 0,
           ZERO_IDENTITY, ZERO_IDENTITY, None, Applied, 0, [], [])
  }

  // ---- sending ----

  function Enqueue(queue: seq<Message>, m: Message): seq<Message> {
    (if |queue| >= MAX_QUEUED_FRAMES then queue[1..] else queue) + [m]
  }

  function Reply(d: Device, kind: MessageType, session: Identity, body: ControlBody): Message {
    ControlMessage(Envelope(1, 0, kind, session, Inc32(d.txSequence), None, None, None), body)
  }

  /** What the encoder accepts among the device's replies: only a matching code can be refused. */
  predicate Encodes(body: ControlBody) { body.Pair? ==> SixDigits(body.pair.matchingCode) }

  function Send(d: Device, kind: MessageType, session: Identity, body: ControlBody): Device {
    d.(txSequence := Inc32(d.txSequence),
       outgoing := if Encodes(body) then Enqueue(d.outgoing, Reply(d, kind, session, body)) else d.outgoing)
  }

  function SendError(d: Device, code: Byte): Device { Send(d, ErrorType, ZERO_IDENTITY, ErrorReport([code])) }

  // ---- session open and close ----

  function CloseSession(d: Device): Device {
    d.(feedOpen := false,
       phase := if d.phase == SessionOpen || d.phase == AwaitingConfirmation then Negotiated else d.phase)
  }

  function Begin(d: Device, session: Identity, host: Identity): Device {
    d.(session := session, host := host, cachedCommand := None, txSequence := 0,
       gate := Receiver(Some(session), 0), feedOpen := true, phase := SessionOpen, fault := NoFault,
       appliedInSession := [])
  }

  function OpenSession(d: Device, session: Identity, host: Identity, code: U32): Device {
    Send(Begin(d, session, host), PairType, session, Pair(PairBody(d.identity, host, code)))
  }

  // ---- handlers ----

  function OnHello(d: Device, h: HelloBody): Device {
    var e := CloseSession(d);
    if h.supportedMajor != 1 then SendError(e.(fault := IncompatibleMajor, phase := Incompatible), ERR_INCOMPATIBLE)
    else Send(e.(fault := NoFault, phase := Negotiated), HelloReplyType, ZERO_IDENTITY,
              HelloReply(HelloBody(1, 0, 0, 0, None, None)))
  }

  predicate NamesThisDevice(d: Device, p: PairBody) {
    p.intendedPeerIdentity == ZERO_IDENTITY || p.intendedPeerIdentity == d.identity
  }

  function OnPair(d: Device, session: Identity, p: PairBody, nowMs: U64): Device {
    if d.phase == Idle || d.phase == Incompatible || p.matchingCode > MAX_MATCHING_CODE then
      SendError(d, ERR_BAD_REQUEST)
    else if d.paired == Some(p.pairingIdentity) && NamesThisDevice(d, p) then
      OpenSession(d, session, p.pairingIdentity, p.matchingCode)
    else if d.paired.Some? || p.intendedPeerIdentity != ZERO_IDENTITY then
      SendError(d.(fault := NotPairedWithHost), ERR_NOT_PAIRED)
    else
      d.(pendingHost := p.pairingIdentity, pendingSession := session, pendingCode := p.matchingCode,
         pendingSinceMs := nowMs, phase := AwaitingConfirmation)
  }

  /** The operator's touch, or the timeout as a refusal. `saved` is the store's answer. */
  function ConfirmPairing(d: Device, accepted: bool, saved: bool): Device {
    if d.phase != AwaitingConfirmation then d
    else if !accepted || !saved then
      SendError(d.(fault := DeclinedFault, phase := Negotiated), ERR_DECLINED)
    else
      OpenSession(d.(paired := Some(d.pendingHost)), d.pendingSession, d.pendingHost, d.pendingCode)
  }

  function ClearStore(d: Device, cleared: bool): Device { if cleared then d.(paired := None) else d }

  function LocalUnpair(d: Device, cleared: bool): Device { CloseSession(ClearStore(d, cleared)) }

  predicate IsRetry(d: Device, c: CommandBody) { d.cachedCommand == Some(c.commandIdentity) }

  /** A command is executed only when it is new and the session is open; a retry is answered from the
      cache even after the command itself closed the session. */
  predicate Executes(d: Device, session: Identity, c: CommandBody) {
    session == d.session && !IsRetry(d, c) && d.phase == SessionOpen
  }

  /** The result of executing a command; `resetOk` is the calibration handler's answer. */
  function Outcome(d: Device, c: CommandBody, resetOk: bool): CommandResult {
    match c.operation
    case Unpair => if d.paired.Some? then Applied else AlreadyApplied
    case CalibrationReset => if resetOk then Applied else Rejected
  }

  function OnCommand(d: Device, session: Identity, c: CommandBody, cleared: bool, resetOk: bool): Device {
    if session != d.session || !(IsRetry(d, c) || d.phase == SessionOpen) then d
    else
      var retry := IsRetry(d, c);
      var result := if retry then d.cachedResult else Outcome(d, c, resetOk);
      var e := if retry then d
               else d.(cachedCommand := Some(c.commandIdentity),
                       cachedResult := if result == Applied then AlreadyApplied else result);
      var f := Send(e, CommandReplyType, d.session,
                    CommandReply(CommandReplyBody(c.commandIdentity, c.operation, result)));
      if !retry && c.operation == Unpair then CloseSession(ClearStore(f, cleared)) else f
  }

  /** The outside world's answers while one message is handled. */
  datatype Answers = Answers(nowMs: U64, cleared: bool, resetOk: bool)

  function OnControl(d: Device, e: Envelope, b: ControlBody, a: Answers): Device {
    match b
    case Hello(h) => OnHello(d, h)
    case Pair(p) => OnPair(d, e.session, p, a.nowMs)
    case Command(c) => OnCommand(d, e.session, c, a.cleared, a.resetOk)
    case _ => d
  }

  /** A snapshot passes the session gate or changes nothing but the gate. */
  function OnSnapshot(d: Device, e: Envelope): Device {
    if !d.feedOpen then d
    else
      var (g, error) := Accept(d.gate, e);
      if error.Some? then d.(gate := g)
      else d.(gate := g, appliedInSession := d.appliedInSession + [e.sequence])
  }

  predicate Applies(d: Device, e: Envelope) { d.feedOpen && Accept(d.gate, e).1.None? }

  /** One decoded frame. */
  function Handle(d: Device, r: Result<Message, Error>, a: Answers): Device {
    match r
    case Err(UnsupportedMajor) =>
      SendError(CloseSession(d.(fault := IncompatibleMajor, phase := Incompatible)), ERR_INCOMPATIBLE)
    case Err(_) => d
    case Ok(SnapshotMessage(e, _)) => OnSnapshot(d, e)
    case Ok(ControlMessage(e, b)) => OnControl(d, e, b, a)
  }

  function HandleAll(d: Device, rs: seq<Result<Message, Error>>, a: seq<Answers>): Device
    requires |a| == |rs|
    decreases |rs|
  {
    if rs == [] then d else HandleAll(Handle(d, rs[0], a[0]), rs[1..], a[1..])
  }

  /** An unconfirmed pairing expires. */
  predicate PairingExpired(d: Device, nowMs: U64) {
    d.phase == AwaitingConfirmation && Elapsed(nowMs, d.pendingSinceMs) >= PAIRING_CONFIRM_TIMEOUT_MS
  }

  // ---- everything that can happen to a device ----

  datatype Input =
    | Frame(result: Result<Message, Error>, answers: Answers)
    | Touch(accepted: bool, saved: bool)
    | UnpairKey(cleared: bool)
    | TickAt(nowMs: U64)
    | TakeOutgoing

  function React(d: Device, i: Input): Device {
    match i
    case Frame(r, a) => Handle(d, r, a)
    case Touch(accepted, saved) => ConfirmPairing(d, accepted, saved)
    case UnpairKey(cleared) => LocalUnpair(d, cleared)
    case TickAt(now) => if PairingExpired(d, now) then ConfirmPairing(d, false, false) else d
    case TakeOutgoing => d.(outgoing := [])
  }

  // ---- invariants, whatever a host sends ----

  predicate Increasing(s: seq<U32>, last: U32) {
    && (forall i, j | 0 <= i < j < |s| :: s[i] < s[j])
    && (if s == [] then last == 0 else s[|s| - 1] == last)
    && forall x <- s :: x > 0
  }

  predicate DeviceInv(d: Device) {
    && (d.feedOpen <==> d.phase == SessionOpen)
    && (d.feedOpen ==> d.paired == Some(d.host) && d.gate.session == Some(d.session)
                       && Increasing(d.appliedInSession, d.gate.last))
    && (d.phase == AwaitingConfirmation ==> d.paired.None?)
    && |d.outgoing| <= MAX_QUEUED_FRAMES
  }

  lemma PowerOnIsGood(identity: Identity, paired: Option<Identity>)
    ensures DeviceInv(PowerOn(identity, paired))
  {
  }

  lemma ReactKeeps(d: Device, i: Input)
    requires DeviceInv(d)
    ensures DeviceInv(React(d, i)) && React(d, i).identity == d.identity
  {
    if i.Frame? && i.result.Ok? {
      MessageKeeps(d, i.result.value, i.answers);
      hide Handle, DeviceInv;
    } else {
      hide Increasing;
    }
  }

  lemma MessageKeeps(d: Device, m: Message, a: Answers)
    requires DeviceInv(d)
    ensures DeviceInv(Handle(d, Ok(m), a)) && Handle(d, Ok(m), a).identity == d.identity
  {
    match m
    case SnapshotMessage(e, _) =>
    case ControlMessage(e, b) => hide Increasing; ControlKeeps(d, e, b, a); hide OnControl, DeviceInv;
  }

  lemma ControlKeeps(d: Device, e: Envelope, b: ControlBody, a: Answers)
    requires DeviceInv(d)
    ensures DeviceInv(OnControl(d, e, b, a)) && OnControl(d, e, b, a).identity == d.identity
  {
    assert Increasing([], 0);
    hide Increasing;
  }

  /** The stored host changes to `h` only by the operator accepting a pending pairing from `h`
      while no host is stored; it is forgotten only by an unpair. */
  lemma PairedHostChanges(d: Device, i: Input)
    requires DeviceInv(d)
    ensures React(d, i).paired.Some? && React(d, i).paired != d.paired ==>
              && i == Touch(true, true) && d.phase == AwaitingConfirmation && d.paired.None?
              && React(d, i).paired == Some(d.pendingHost)
    ensures React(d, i).paired.None? && d.paired.Some? ==>
              || i == UnpairKey(true)
              || (&& i.Frame? && i.result.Ok? && i.result.value.ControlMessage? && i.answers.cleared
                  && i.result.value.body.Command? && i.result.value.body.command.operation == Unpair
                  && Executes(d, i.result.value.envelope.session, i.result.value.body.command))
  {
  }

  /** A session opens only for the stored host naming this device, or by an accepted pairing with the
      very host, session and code that were pending. */
  lemma SessionOpens(d: Device, i: Input)
    requires DeviceInv(d) && React(d, i).phase == SessionOpen
    ensures
      var e := React(d, i);
      || (d.phase == SessionOpen && e.session == d.session && e.host == d.host)
      || (&& i == Touch(true, true) && d.phase == AwaitingConfirmation
          && e.session == d.pendingSession && e.host == d.pendingHost)
      || (&& i.Frame? && i.result.Ok? && i.result.value.ControlMessage? && i.result.value.body.Pair?
          && var p := i.result.value.body.pair;
             && d.paired == Some(p.pairingIdentity) && NamesThisDevice(d, p)
             && e.host == p.pairingIdentity && e.session == i.result.value.envelope.session)
  {
  }

  /** A snapshot is applied exactly when a session is open, the snapshot is for it, and its sequence is
      beyond every one applied since the session opened. */
  lemma SnapshotApplies(d: Device, e: Envelope, s: Snapshot, a: Answers)
    requires DeviceInv(d)
    ensures Applies(d, e) <==>
              d.phase == SessionOpen && e.session == d.session && e.sequence > 0
              && forall x <- d.appliedInSession :: e.sequence > x
    ensures
      var f := React(d, Frame(Ok(SnapshotMessage(e, s)), a));
      f.appliedInSession == if Applies(d, e) then d.appliedInSession + [e.sequence] else d.appliedInSession
  {
    if d.feedOpen && d.appliedInSession != [] {
      var n := |d.appliedInSession| - 1;
      assert d.appliedInSession[n] in d.appliedInSession;
    }
  }

  // ---- how long a pairing waits for the operator ----

  /** A Pair that waits for the operator. */
  predicate Pends(d: Device, p: PairBody) {
    && d.phase != Idle && d.phase != Incompatible && p.matchingCode <= MAX_MATCHING_CODE
    && d.paired.None? && p.intendedPeerIdentity == ZERO_IDENTITY
  }

  function Ticks(d: Device, times: seq<U64>): Device
    decreases |times|
  {
    if times == [] then d else Ticks(React(d, TickAt(times[0])), times[1..])
  }

  /** A pairing that was declined: the device talks on, and one message says so. */
  predicate DeclinedOnce(w: Device, v: Device) {
    && v == w.(phase := Negotiated, fault := DeclinedFault, txSequence := v.txSequence, outgoing := v.outgoing)
    && v.outgoing != []
    && var m := v.outgoing[|v.outgoing| - 1];
       v.outgoing == Enqueue(w.outgoing, m) && m.ControlMessage? && m.body == ErrorReport([3])
  }

  lemma TickDeclines(w: Device, t: U64, now: U64)
    requires w.phase == AwaitingConfirmation && w.pendingSinceMs == t && t <= now
    ensures now - t < 60_000 ==> React(w, TickAt(now)) == w
    ensures now - t >= 60_000 ==> DeclinedOnce(w, React(w, TickAt(now)))
  {
    if now - t >= 60_000 {
      var v := React(w, TickAt(now));
      assert v.outgoing == Enqueue(w.outgoing, v.outgoing[|v.outgoing| - 1]);
    }
  }

  lemma {:induction false} TicksWait(w: Device, t: U64, ticks: seq<U64>)
    requires w.pendingSinceMs == t && forall x <- ticks :: t <= x
    ensures w.phase != AwaitingConfirmation ==> Ticks(w, ticks) == w
    ensures w.phase == AwaitingConfirmation ==>
              if forall x <- ticks :: x - t < 60_000 then Ticks(w, ticks) == w else DeclinedOnce(w, Ticks(w, ticks))
    decreases |ticks|
  {
    if ticks != [] {
      var first, others := ticks[0], ticks[1..];
      assert first in ticks && (forall x <- others :: x in ticks) && forall x <- ticks :: x == first || x in others;
      if w.phase == AwaitingConfirmation { TickDeclines(w, t, first); }
      assert w.phase != AwaitingConfirmation ==> React(w, TickAt(first)) == w;
      hide React;
      TicksWait(React(w, TickAt(ticks[0])), t, ticks[1..]);
    }
  }

  /** A Pair heard at `t` that waits for the operator waits through any ticks of the next 60 seconds, and the
      first tick at or past their end declines it, once. */
  lemma PairingWaitsAMinute(d: Device, session: Identity, p: PairBody, t: U64, ticks: seq<U64>)
    requires Pends(d, p) && forall x <- ticks :: t <= x
    ensures
      var w := OnPair(d, session, p, t);
      var v := Ticks(w, ticks);
      && w.phase == AwaitingConfirmation && w.outgoing == d.outgoing
      && (v.phase == AwaitingConfirmation <==> forall x <- ticks :: x < t + 60_000)
      && (if forall x <- ticks :: x < t + 60_000 then v == w else DeclinedOnce(w, v))
  {
    var w := OnPair(d, session, p, t);
    TicksWait(w, t, ticks);
    assert (forall x <- ticks :: x < t + 60_000) <==> (forall x <- ticks :: x - t < 60_000);
    hide Ticks;
  }
}
