/** What holds over whole runs of the link. */
module LinkRuns {
  import opened Basics
  import opened Messages
  import opened Delivery
  import opened DeviceLink
  import opened H = HostSession
  import opened LinkSystem
  import opened LinkSteps

  ghost predicate IsRun(ss: seq<System>, steps: seq<Action>) {
    && |ss| == |steps| + 1 && Init(ss[0])
    && forall i {:trigger steps[i]} | 0 <= i < |steps| :: Legal(ss[i], steps[i]) && ss[i + 1] == Next(ss[i], steps[i])
  }

  /** The command a step executes on the device. */
  function ExecutedBy(s: System, a: Action): Option<(Key, Execution)>
    requires Legal(s, a)
  {
    var i := InputOf(s, a);
    if i.Some? then Runs(s.device, i.value) else None
  }

  /** The session a step opens on the device. */
  function OpenedBy(s: System, a: Action): Option<(Identity, Opening)>
    requires Legal(s, a)
  {
    var i := InputOf(s, a);
    if i.Some? then Opens(s.device, i.value) else None
  }

  predicate Submap<K, V(==)>(m: map<K, V>, n: map<K, V>) { forall k <- m :: k in n && n[k] == m[k] }

  /** A step executes only a command never executed before, and opens only a session never opened before. */
  lemma StepIsNew(s: System, a: Action)
    requires Inv(s) && Legal(s, a)
    ensures ExecutedBy(s, a).Some? ==> ExecutedBy(s, a).value.0 !in s.executed
    ensures OpenedBy(s, a).Some? ==> OpenedBy(s, a).value.0 !in s.openings
  {
    hide DeviceInv, AllTruthful, HostsTrusted, IssuedGood, ClientGood, OpenedAsOffered, CommandsInOrder, CacheGood;
    if a.DeviceReceive? && IsCommand(s.up[0]) {
      var c := s.up[0].body.command;
      if Executes(s.device, s.up[0].envelope.session, c) { ExecutedIsNew(s, c); }
    }
  }

  lemma NextRecords(s: System, a: Action)
    requires Legal(s, a)
    ensures Next(s, a).executed == match ExecutedBy(s, a) case Some(x) => s.executed[x.0 := x.1] case None => s.executed
    ensures Next(s, a).openings == match OpenedBy(s, a) case Some(o) => s.openings[o.0 := o.1] case None => s.openings
    ensures Next(s, a).device.identity == s.device.identity && Next(s, a).initialHost == s.initialHost
  {
    hide Runs, Opens, HandleMessage, Deliverable, EncodeMessage, React, Answer, HelloOf, SnapshotOf, CommandOf;
    if a.DeviceReceive? || a.DeviceHearsNoise? || a.DeviceTouch? || a.DeviceUnpairs? || a.DeviceTick? {
      ReactKeepsIdentity(s.device, InputOf(s, a).value);
    }
    ReactKeepsIdentity(s.device, TakeOutgoing);
  }

  lemma ReactKeepsIdentity(d: Device, i: Input)
    ensures React(d, i).identity == d.identity
  {
  }

  lemma {:induction false} RunIsGood(ss: seq<System>, steps: seq<Action>, i: nat)
    requires IsRun(ss, steps) && i < |ss|
    ensures Inv(ss[i])
  {
    if i == 0 {
      InitIsGood(ss[0]);
    } else {
      hide Inv, Init, Next, Legal;
      RunIsGood(ss, steps, i - 1);
      StepKeeps(ss[i - 1], steps[i - 1]);
    }
  }

  lemma {:induction false} HistoryGrows(ss: seq<System>, steps: seq<Action>, i: nat, j: nat)
    requires IsRun(ss, steps) && i <= j < |ss|
    ensures Submap(ss[i].executed, ss[j].executed) && Submap(ss[i].openings, ss[j].openings)
    decreases j - i
  {
    hide Inv, Init, Next, Legal, ExecutedBy, OpenedBy;
    if i < j {
      HistoryGrows(ss, steps, i, j - 1);
      RunIsGood(ss, steps, j - 1);
      StepIsNew(ss[j - 1], steps[j - 1]);
      NextRecords(ss[j - 1], steps[j - 1]);
    }
  }

  /** However often the Host retries, and across unpairing, reconnecting, lost frames and restarts, no
      two steps of a run execute the same command and no two open the same session. */
  lemma AtMostOnce(ss: seq<System>, steps: seq<Action>, i: nat, j: nat)
    requires IsRun(ss, steps) && i < j < |steps|
    ensures ExecutedBy(ss[i], steps[i]).Some? && ExecutedBy(ss[j], steps[j]).Some? ==>
              ExecutedBy(ss[i], steps[i]).value.0 != ExecutedBy(ss[j], steps[j]).value.0
    ensures OpenedBy(ss[i], steps[i]).Some? && OpenedBy(ss[j], steps[j]).Some? ==>
              OpenedBy(ss[i], steps[i]).value.0 != OpenedBy(ss[j], steps[j]).value.0
  {
    hide Inv, Init, Next, Legal, ExecutedBy, OpenedBy;
    NextRecords(ss[i], steps[i]);
    HistoryGrows(ss, steps, i + 1, j);
    RunIsGood(ss, steps, j);
    StepIsNew(ss[j], steps[j]);
  }

  /** The step that executed a recorded command. */
  lemma {:induction false} ExecutionStep(ss: seq<System>, steps: seq<Action>, j: nat, k: Key) returns (i: nat)
    requires IsRun(ss, steps) && j < |ss| && k in ss[j].executed
    ensures i < j && ExecutedBy(ss[i], steps[i]) == Some((k, ss[j].executed[k]))
    decreases j
  {
    assert j > 0;
    assert Legal(ss[j - 1], steps[j - 1]) && ss[j] == Next(ss[j - 1], steps[j - 1]);
    hide Inv, Init, Next, Legal, ExecutedBy, OpenedBy, IsRun;
    NextRecords(ss[j - 1], steps[j - 1]);
    if ExecutedBy(ss[j - 1], steps[j - 1]).Some? && ExecutedBy(ss[j - 1], steps[j - 1]).value.0 == k {
      i := j - 1;
    } else {
      i := ExecutionStep(ss, steps, j - 1, k);
    }
  }

  lemma {:induction false} OpeningStep(ss: seq<System>, steps: seq<Action>, j: nat, k: Identity) returns (i: nat)
    requires IsRun(ss, steps) && j < |ss| && k in ss[j].openings
    ensures i < j && OpenedBy(ss[i], steps[i]) == Some((k, ss[j].openings[k]))
    decreases j
  {
    assert j > 0;
    assert Legal(ss[j - 1], steps[j - 1]) && ss[j] == Next(ss[j - 1], steps[j - 1]);
    hide Inv, Init, Next, Legal, ExecutedBy, OpenedBy, IsRun;
    NextRecords(ss[j - 1], steps[j - 1]);
    if OpenedBy(ss[j - 1], steps[j - 1]).Some? && OpenedBy(ss[j - 1], steps[j - 1]).value.0 == k {
      i := j - 1;
    } else {
      i := OpeningStep(ss, steps, j - 1, k);
    }
  }

  lemma AnswerIsTruthful(s: System)
    requires Inv(s) && s.down != [] && Answer(s).Some?
    ensures
      var k := (s.client.session, s.outstanding.value.0);
      && k in s.executed && s.executed[k].operation == s.outstanding.value.1
      && Matches(Answer(s).value, s.executed[k]) && s.executed[k].result != AlreadyApplied
  {
    hide DeviceInv, HostsTrusted, PairsOnce, CommandsInOrder, OpenedAsOffered, ClientGood;
    assert Truthful(s.down[0], s.device.identity, s.openings, s.executed);
    hide AllTruthful;
  }

  /** Whatever result the Host's caller is given, exactly one step executed that command, with the
      operation asked for; it was refused by the device exactly when the result says so. */
  lemma AnswerMeansExecutedOnce(ss: seq<System>, steps: seq<Action>, j: nat) returns (i: nat)
    requires IsRun(ss, steps) && j < |steps| && steps[j] == HostReceive && Answer(ss[j]).Some?
    ensures i < j
    ensures
      var s := ss[j];
      var x := ExecutedBy(ss[i], steps[i]);
      && x.Some? && x.value.0 == (s.client.session, s.outstanding.value.0)
      && x.value.1.operation == s.outstanding.value.1
      && (Answer(s).value == Rejected <==> x.value.1.result == Rejected)
      && (Answer(s).value != Rejected <==> x.value.1.result == Applied)
    ensures forall n | 0 <= n < |steps| && n != i && ExecutedBy(ss[n], steps[n]).Some? ::
              ExecutedBy(ss[n], steps[n]).value.0 != (ss[j].client.session, ss[j].outstanding.value.0)
  {
    RunIsGood(ss, steps, j);
    AnswerIsTruthful(ss[j]);
    hide Inv, Init, Next, Answer, ExecutedBy, IsRun;
    i := ExecutionStep(ss, steps, j, (ss[j].client.session, ss[j].outstanding.value.0));
    forall n | 0 <= n < |steps| && n != i && ExecutedBy(ss[n], steps[n]).Some?
      ensures ExecutedBy(ss[n], steps[n]).value.0 != (ss[j].client.session, ss[j].outstanding.value.0)
    {
      if n < i { AtMostOnce(ss, steps, n, i); } else { AtMostOnce(ss, steps, i, n); }
    }
  }

  // ---- what Live means ----

  lemma LiveIsOpened(s: System)
    requires Inv(s) && s.client.phase == Live
    ensures
      var k := s.client.session;
      && k in s.openings && s.openings[k].host == s.client.host && s.openings[k].code == s.client.code
      && (Intended(s.client) == ZERO_IDENTITY || Intended(s.client) == s.device.identity)
      && Trusted(s.client.host, s.initialHost, s.openings)
  {
    hide DeviceInv, AllTruthful, PairsOnce, CommandsInOrder, CacheGood, IssuedGood, Trusted;
  }

  /** A Host that is Live was let in by exactly one step of the device, which opened its session for it
      with its code. A Host that names a display is only ever Live with that display. */
  lemma LiveMeansOpenedOnce(ss: seq<System>, steps: seq<Action>, j: nat) returns (i: nat)
    requires IsRun(ss, steps) && j < |ss| && ss[j].client.phase == Live
    ensures i < j
    ensures
      var c := ss[j].client;
      var o := OpenedBy(ss[i], steps[i]);
      o.Some? && o.value.0 == c.session && o.value.1.host == c.host && o.value.1.code == c.code
    ensures forall n | 0 <= n < |steps| && n != i && OpenedBy(ss[n], steps[n]).Some? ::
              OpenedBy(ss[n], steps[n]).value.0 != ss[j].client.session
    ensures Intended(ss[j].client) != ZERO_IDENTITY ==> ss[j].device.identity == Intended(ss[j].client)
  {
    RunIsGood(ss, steps, j);
    LiveIsOpened(ss[j]);
    hide Inv, Init, Next, OpenedBy, IsRun;
    i := OpeningStep(ss, steps, j, ss[j].client.session);
    forall n | 0 <= n < |steps| && n != i && OpenedBy(ss[n], steps[n]).Some?
      ensures OpenedBy(ss[n], steps[n]).value.0 != ss[j].client.session
    {
      if n < i { AtMostOnce(ss, steps, n, i); } else { AtMostOnce(ss, steps, i, n); }
    }
  }

  /** The device opens a session only for the host its store holds, or when the operator accepts the very
      code and host that are pending, and the store then takes that host. */
  lemma OpensOnlyForTheTrusted(s: System, a: Action)
    requires Legal(s, a) && OpenedBy(s, a).Some?
    ensures
      var (session, o) := OpenedBy(s, a).value;
      var e := Next(s, a).device;
      && e.phase == SessionOpen && e.session == session && e.paired == Some(o.host)
      && if o.touched
         then a == DeviceTouch(true, true) && s.device.phase == AwaitingConfirmation
              && o.code == s.device.pendingCode && o.host == s.device.pendingHost
         else s.device.paired == Some(o.host)
  {
    hide HandleMessage, Deliverable, EncodeMessage;
  }

  /** The first pairing of a host: unless the store held it when the device was first switched on, the
      operator accepted a code that this host's Pair carried. */
  lemma FirstPairingWasTouched(ss: seq<System>, steps: seq<Action>, j: nat) returns (i: nat)
    requires IsRun(ss, steps) && j < |ss| && ss[j].client.phase == Live
    requires ss[j].initialHost != Some(ss[j].client.host)
    ensures i < j && steps[i] == DeviceTouch(true, true)
    ensures
      var d := ss[i].device;
      && d.phase == AwaitingConfirmation && d.pendingHost == ss[j].client.host
      && d.pendingSession in ss[i].offers
      && ss[i].offers[d.pendingSession] == Offer(ss[j].client.host, d.pendingCode, ZERO_IDENTITY)
  {
    RunIsGood(ss, steps, j);
    LiveIsOpened(ss[j]);
    hide Init, Next, OpenedBy, IsRun, PairsOnce, CommandsInOrder, DeviceInv, AllTruthful, CacheGood;
    var k :| k in ss[j].openings && ss[j].openings[k].touched && ss[j].openings[k].host == ss[j].client.host;
    i := OpeningStep(ss, steps, j, k);
    RunIsGood(ss, steps, i);
    TouchedOpening(ss, steps, i);
  }

  lemma TouchedOpening(ss: seq<System>, steps: seq<Action>, i: nat)
    requires IsRun(ss, steps) && i < |steps| && Inv(ss[i])
    requires Legal(ss[i], steps[i]) ==> OpenedBy(ss[i], steps[i]).Some? && OpenedBy(ss[i], steps[i]).value.1.touched
    ensures steps[i] == DeviceTouch(true, true)
    ensures
      var d := ss[i].device;
      && d.phase == AwaitingConfirmation && d.pendingSession in ss[i].offers
      && ss[i].offers[d.pendingSession] == Offer(d.pendingHost, d.pendingCode, ZERO_IDENTITY)
      && OpenedBy(ss[i], steps[i]) == Some((d.pendingSession, Opening(d.pendingHost, d.pendingCode, true)))
  {
    hide Next, CommandsInOrder, DeviceInv, AllTruthful, CacheGood;
  }

  /** The identity a Paired event tells the Host to keep is the device's own. */
  lemma PairedNamesTheDevice(s: System)
    requires Inv(s) && s.down != []
    ensures forall x <- HandleMessage(s.client, s.down[0]).events | x.Paired? :: x.deviceIdentity == s.device.identity
  {
    hide DeviceInv, HostsTrusted, PairsOnce, CommandsInOrder, OpenedAsOffered, ClientGood, CacheGood, IssuedGood;
    assert Truthful(s.down[0], s.device.identity, s.openings, s.executed);
  }

  // ---- the queues carry what the byte link delivers ----

  predicate OnWire(ms: seq<Message>) { forall m <- ms :: Deliverable(m) }

  lemma ReplyIsDeliverable(d: Device, kind: MessageType, session: Identity, body: ControlBody)
    requires KindMatches(kind, body) && Encodes(body) && (body.ErrorReport? ==> |body.bytes| == 1)
    ensures Deliverable(Reply(d, kind, session, body))
  {
    hide EncodeControl;
    ControlEncodes(Reply(d, kind, session, body).envelope, body);
  }

  lemma SendStaysOnWire(d: Device, kind: MessageType, session: Identity, body: ControlBody)
    requires OnWire(d.outgoing) && KindMatches(kind, body) && (body.ErrorReport? ==> |body.bytes| == 1)
    ensures OnWire(Send(d, kind, session, body).outgoing)
  {
    hide Deliverable;
    if Encodes(body) { ReplyIsDeliverable(d, kind, session, body); }
  }

  lemma ErrorStaysOnWire(d: Device, code: Byte)
    requires OnWire(d.outgoing)
    ensures OnWire(SendError(d, code).outgoing)
  {
    hide OnWire;
    SendStaysOnWire(d, ErrorType, ZERO_IDENTITY, ErrorReport([code]));
  }

  lemma OpenStaysOnWire(d: Device, session: Identity, host: Identity, code: U32)
    requires OnWire(d.outgoing)
    ensures OnWire(OpenSession(d, session, host, code).outgoing)
  {
    hide OnWire, Send;
    SendStaysOnWire(Begin(d, session, host), PairType, session, Pair(PairBody(d.identity, host, code)));
  }

  lemma HelloStaysOnWire(d: Device, h: HelloBody)
    requires OnWire(d.outgoing)
    ensures OnWire(OnHello(d, h).outgoing)
  {
    hide OnWire, Send, SendError;
    var e := CloseSession(d);
    ErrorStaysOnWire(e.(fault := IncompatibleMajor, phase := DeviceLink.Incompatible), ERR_INCOMPATIBLE);
    SendStaysOnWire(e.(fault := NoFault, phase := DeviceLink.Negotiated), HelloReplyType, ZERO_IDENTITY,
                    HelloReply(HelloBody(1, 0, 0, 0, None, None)));
  }

  lemma PairStaysOnWire(d: Device, session: Identity, p: PairBody, nowMs: U64)
    requires OnWire(d.outgoing)
    ensures OnWire(OnPair(d, session, p, nowMs).outgoing)
  {
    hide OnWire, SendError, OpenSession;
    ErrorStaysOnWire(d, ERR_BAD_REQUEST);
    ErrorStaysOnWire(d.(fault := NotPairedWithHost), ERR_NOT_PAIRED);
    OpenStaysOnWire(d, session, p.pairingIdentity, p.matchingCode);
  }

  lemma CommandStaysOnWire(d: Device, session: Identity, c: CommandBody, cleared: bool, resetOk: bool)
    requires OnWire(d.outgoing)
    ensures OnWire(OnCommand(d, session, c, cleared, resetOk).outgoing)
  {
    hide OnWire, Send;
    var retry := IsRetry(d, c);
    var result := if retry then d.cachedResult else Outcome(d, c, resetOk);
    var e := if retry then d
             else d.(cachedCommand := Some(c.commandIdentity),
                     cachedResult := if result == Applied then AlreadyApplied else result);
    SendStaysOnWire(e, CommandReplyType, d.session,
                    CommandReply(CommandReplyBody(c.commandIdentity, c.operation, result)));
  }

  lemma ConfirmStaysOnWire(d: Device, accepted: bool, saved: bool)
    requires OnWire(d.outgoing)
    ensures OnWire(ConfirmPairing(d, accepted, saved).outgoing)
  {
    hide OnWire, SendError, OpenSession;
    ErrorStaysOnWire(d.(fault := DeclinedFault, phase := DeviceLink.Negotiated), ERR_DECLINED);
    OpenStaysOnWire(d.(paired := Some(d.pendingHost)), d.pendingSession, d.pendingHost, d.pendingCode);
  }

  lemma ReactStaysOnWire(d: Device, i: Input)
    requires OnWire(d.outgoing)
    ensures OnWire(React(d, i).outgoing)
  {
    hide OnHello, OnPair, OnCommand, ConfirmPairing, SendError;
    match i
    case Frame(Ok(ControlMessage(e, Hello(h))), a) => HelloStaysOnWire(d, h);
    case Frame(Ok(ControlMessage(e, Pair(p))), a) => PairStaysOnWire(d, e.session, p, a.nowMs);
    case Frame(Ok(ControlMessage(e, Command(c))), a) => CommandStaysOnWire(d, e.session, c, a.cleared, a.resetOk);
    case Frame(Err(UnsupportedMajor), a) =>
      ErrorStaysOnWire(CloseSession(d.(fault := IncompatibleMajor, phase := DeviceLink.Incompatible)), ERR_INCOMPATIBLE);
    case Touch(accepted, saved) => ConfirmStaysOnWire(d, accepted, saved);
    case TickAt(_) => ConfirmStaysOnWire(d, false, false);
    case _ =>
  }

  /** Everything either end ever queues encodes, and decodes at the other end to the same message: by
      `MessagesSurviveTheLink` the queues stand for the two byte streams. */
  lemma EverythingSentIsDeliverable(s: System, a: Action)
    requires OnWire(s.up) && OnWire(s.down) && OnWire(s.device.outgoing) && Legal(s, a)
    ensures OnWire(Next(s, a).up) && OnWire(Next(s, a).down) && OnWire(Next(s, a).device.outgoing)
  {
    hide OnWire, React, Runs, Opens, Answer, HandleMessage, PowerOn, Deliverable, IfEncodes;
    assert OnWire([]) by { EmptyOnWire(); }
    match a
    case HostHello(utcMs) => ControlJoinsWire(s.up, HelloOf(s.client, utcMs));
    case HostReceive => SentOnWire(s.client, s.down[0]); WireJoins(s.up, HandleMessage(s.client, s.down[0]).sent);
    WireTail(s.down);
    case HostSnapshot(x, utcMs) => SnapshotJoinsWire(s.up, SnapshotOf(s.client, x, utcMs));
    case HostCommand(operation) => ControlJoinsWire(s.up, CommandOf(s.client, s.client.nextCommand, operation));
    case HostRetry => ControlJoinsWire(s.up, CommandOf(s.client, s.outstanding.value.0, s.outstanding.value.1));
    case LoseUp => WireTail(s.up);
    case LoseDown => WireTail(s.down);
    case DeviceReceive(answers) => ReactStaysOnWire(s.device, Frame(Ok(s.up[0]), answers)); WireTail(s.up);
    case DeviceHearsNoise(error, answers) => ReactStaysOnWire(s.device, Frame(Err(error), answers));
    case DeviceTouch(accepted, saved) => ReactStaysOnWire(s.device, Touch(accepted, saved));
    case DeviceUnpairs(cleared) => ReactStaysOnWire(s.device, UnpairKey(cleared));
    case DeviceTick(now) => ReactStaysOnWire(s.device, TickAt(now));
    case DeviceSends => ReactStaysOnWire(s.device, TakeOutgoing); WireJoins(s.down, s.device.outgoing);
    case DeviceRestarts => EmptyOnWire(); PoweredOnSilent(s.device.identity, s.device.paired);
    case _ =>
  }

  lemma EmptyOnWire()
    ensures OnWire([])
  {
  }

  lemma PoweredOnSilent(identity: Identity, paired: Option<Identity>)
    ensures PowerOn(identity, paired).outgoing == []
  {
  }

  lemma WireTail(ms: seq<Message>)
    requires ms != [] && OnWire(ms)
    ensures OnWire(ms[1..])
  {
    hide Deliverable;
  }

  lemma WireJoins(ms: seq<Message>, ns: seq<Message>)
    requires OnWire(ms) && OnWire(ns)
    ensures OnWire(ms + ns)
  {
    hide Deliverable;
  }

  lemma ControlJoinsWire(ms: seq<Message>, m: Message)
    requires OnWire(ms) && m.ControlMessage? && m.envelope.major == 1
    ensures OnWire(ms + IfEncodes(m))
  {
    hide EncodeMessage;
    WireJoins(ms, IfEncodes(m));
  }

  lemma SnapshotJoinsWire(ms: seq<Message>, m: Message)
    requires OnWire(ms)
    ensures OnWire(ms + if Deliverable(m) then [m] else [])
  {
    hide Deliverable;
  }

  lemma SentOnWire(c: Client, m: Message)
    ensures OnWire(HandleMessage(c, m).sent)
  {
    hide EncodeControl;
    ControlEncodes(PairOf(c).envelope, PairOf(c).body);
  }

  // ---- the limits of the guarantee ----

  /** The cache has one entry: a host that went back to an earlier command would have it executed again.
      `Link::command` never does, as it finishes or gives up one command before it issues the next. */
  lemma EarlierCommandRunsAgain(d: Device, first: CommandBody, second: CommandBody, a: Answers)
    requires d.phase == SessionOpen && first.commandIdentity != second.commandIdentity
    requires first.operation == CalibrationReset && second.operation == CalibrationReset
    ensures
      var e := OnCommand(OnCommand(d, d.session, first, a.cleared, a.resetOk), d.session, second, a.cleared, a.resetOk);
      Executes(e, d.session, first)
  {
  }

  /** An executed unpair is reported as applied, and closes the session, whether or not the store really
      let go of the host; the host is forgotten exactly when the store did. */
  lemma UnpairForgetsIfTheStoreDoes(s: System, c: CommandBody, a: Answers)
    requires Inv(s) && Executes(s.device, s.device.session, c) && c.operation == Unpair
    ensures
      var e := OnCommand(s.device, s.device.session, c, a.cleared, a.resetOk);
      && Outcome(s.device, c, a.resetOk) == Applied && e.phase == DeviceLink.Negotiated && !e.feedOpen
      && (e.paired.None? <==> a.cleared)
  {
  }
}
