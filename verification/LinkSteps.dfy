/** Every step of the Host, the device or the link between them keeps the invariant. */
module LinkSteps {
  import opened Basics
  import opened Messages
  import opened Delivery
  import opened DeviceLink
  import opened H = HostSession
  import opened LinkSystem

  lemma InitIsGood(s: System)
    requires Init(s)
    ensures Inv(s)
  {
    PowerOnIsGood(s.device.identity, s.initialHost);
  }

  // ---- the Host's steps keep it ----

  lemma ConnectKeeps(s: System, a: Action)
    requires Inv(s) && a.Connect? && Legal(s, a)
    ensures Inv(Next(s, a))
  {
  }

  /** Adding a message that is neither a Pair nor a command. */
  lemma PlainMessageKeeps(up: seq<Message>, m: Message, d: Device, offers: map<Identity, Offer>,
                          openings: map<Identity, Opening>, issued: map<Key, CommandOperation>)
    requires PairsOnce(up, d, offers, openings) && CommandsInOrder(up, d, issued)
    requires !IsPair(m) && !IsCommand(m)
    ensures PairsOnce(up + [m], d, offers, openings) && CommandsInOrder(up + [m], d, issued)
  {
  }

  lemma HelloKeeps(s: System, a: Action)
    requires Inv(s) && (a.HostHello? || a.HostSnapshot? || a.SetOffset? || a.HostGivesUp?) && Legal(s, a)
    ensures Inv(Next(s, a))
  {
    hide PairsOnce, CommandsInOrder, EncodeMessage, Deliverable;
    match a
    case HostHello(utcMs) => PlainMessageKeeps(s.up, HelloOf(s.client, utcMs), s.device, s.offers, s.openings, s.issued);
      assert s.up + [] == s.up;
    case HostSnapshot(snapshot, utcMs) =>
      PlainMessageKeeps(s.up, SnapshotOf(s.client, snapshot, utcMs), s.device, s.offers, s.openings, s.issued);
      assert s.up + [] == s.up;
    case _ =>
  }

  lemma LossKeeps(s: System, a: Action)
    requires Inv(s) && (a.LoseUp? || a.LoseDown?) && Legal(s, a)
    ensures Inv(Next(s, a))
  {
    if a.LoseUp? { TailKeeps(s.up, s.device, s.offers, s.openings, s.issued); }
    hide PairsOnce, CommandsInOrder, Truthful, DeviceInv, OpenedAsOffered, HostsTrusted, CacheGood, IssuedGood, ClientGood;
  }

  lemma TailKeeps(up: seq<Message>, d: Device, offers: map<Identity, Offer>,
                  openings: map<Identity, Opening>, issued: map<Key, CommandOperation>)
    requires up != [] && PairsOnce(up, d, offers, openings) && CommandsInOrder(up, d, issued)
    ensures PairsOnce(up[1..], d, offers, openings) && CommandsInOrder(up[1..], d, issued)
  {
  }

  /** A command numbered no lower than any issued before it in its session joins the queue. */
  lemma CommandJoins(up: seq<Message>, m: Message, d: Device, offers: map<Identity, Offer>,
                     openings: map<Identity, Opening>, issued: map<Key, CommandOperation>,
                     later: map<Key, CommandOperation>, executed: map<Key, Execution>)
    requires PairsOnce(up, d, offers, openings) && CommandsInOrder(up, d, issued)
    requires CacheGood(d, openings, issued, executed)
    requires IsCommand(m) && KeyOf(m) in later && later[KeyOf(m)] == m.body.command.operation
    requires forall k <- issued :: k in later && later[k] == issued[k]
    requires forall k <- issued | k.0 == KeyOf(m).0 :: k.1 <= KeyOf(m).1
    ensures PairsOnce(up + [m], d, offers, openings) && CommandsInOrder(up + [m], d, later)
    ensures CommandsInOrder(up, d, later)
    ensures CacheGood(d, openings, later, executed)
  {
  }

  lemma IssuedGrows(c: Client, d: Client, outstanding: Option<(U32, CommandOperation)>, used: set<Identity>,
                    issued: map<Key, CommandOperation>, operation: CommandOperation)
    requires IssuedGood(c, outstanding, used, issued) && c.session in used && c.phase == Live
    requires d.session == c.session && d.phase == Live && d.nextCommand == c.nextCommand + 1
    ensures IssuedGood(d, Some((c.nextCommand, operation)), used, issued[(c.session, c.nextCommand) := operation])
  {
  }

  /** Numbering a message changes nothing the invariant speaks of. */
  lemma ClientAdvances(c: Client, d: Client, used: set<Identity>, offers: map<Identity, Offer>,
      openings: map<Identity, Opening>)
    requires ClientGood(c, used, offers, openings)
    requires d == c.(sequence := d.sequence, nextCommand := d.nextCommand)
    ensures ClientGood(d, used, offers, openings)
  {
  }

  lemma IssueKeeps(s: System, operation: CommandOperation)
    requires Inv(s) && s.client.phase == Live && s.client.nextCommand < U32_MAX
    ensures Inv(IssueCommand(s, operation))
  {
    var id := s.client.nextCommand;
    CommandJoins(s.up, CommandOf(s.client, id, operation), s.device, s.offers, s.openings, s.issued,
                 s.issued[(s.client.session, id) := operation], s.executed);
    assert s.up + [] == s.up;
    var t := IssueCommand(s, operation);
    IssuedGrows(s.client, t.client, s.outstanding, s.used, s.issued, operation);
    ClientAdvances(s.client, t.client, s.used, s.offers, s.openings);
    hide PairsOnce, CommandsInOrder, CacheGood, EncodeMessage, DeviceInv, OpenedAsOffered, HostsTrusted, AllTruthful,
        IssuedGood, ClientGood;
  }

  lemma RetryKeeps(s: System)
    requires Inv(s) && s.outstanding.Some?
    ensures Inv(RetryCommand(s))
  {
    var (id, operation) := s.outstanding.value;
    CommandJoins(s.up, CommandOf(s.client, id, operation), s.device, s.offers, s.openings, s.issued, s.issued, s.executed);
    assert s.up + [] == s.up;
    hide PairsOnce, CommandsInOrder, CacheGood, EncodeMessage, DeviceInv, OpenedAsOffered, HostsTrusted, AllTruthful;
  }

  /** The one Pair of a connection joins the queue. */
  lemma PairJoins(s: System, m: Message)
    requires Inv(s) && IsPair(m)
    requires m.envelope.session == s.client.session && s.client.session !in s.offers
    ensures
      var later := s.offers[s.client.session := OfferIn(m)];
      && PairsOnce(s.up + [m], s.device, later, s.openings)
      && CommandsInOrder(s.up + [m], s.device, s.issued)
      && OpenedAsOffered(s.device, later, s.openings)
  {
    hide DeviceInv, HostsTrusted, CacheGood, Truthful, IssuedGood, ClientGood;
  }

  lemma ReceiveKeeps(s: System)
    requires Inv(s) && s.down != []
    ensures Inv(Receive(s))
  {
    var t := Receive(s);
    var r := HandleMessage(s.client, s.down[0]);
    hide DeviceInv, HostsTrusted, CacheGood, PairsOnce, CommandsInOrder, OpenedAsOffered, Truthful;
    HandledIsGood(s);
    if r.sent != [] {
      PairJoins(s, PairOf(s.client));
    } else {
      assert t.up == s.up;
    }
    assert AllTruthful(t.down, s.device.identity, s.openings, s.executed);
    hide AllTruthful, HandleMessage, ClientGood, IssuedGood;
  }

  /** What a message does to the Host: at most one Pair per session, and Live only in an opened session. */
  lemma HandledIsGood(s: System)
    requires Inv(s) && s.down != []
    ensures
      var r := HandleMessage(s.client, s.down[0]);
      && (r.sent == [] || (r.sent == [PairOf(s.client)] && s.client.session !in s.offers))
      && ClientGood(r.client, s.used, Receive(s).offers, s.openings)
      && IssuedGood(r.client, Receive(s).outstanding, s.used, s.issued)
  {
    assert Truthful(s.down[0], s.device.identity, s.openings, s.executed);
    hide DeviceInv, HostsTrusted, CacheGood, PairsOnce, CommandsInOrder, OpenedAsOffered, AllTruthful;
  }

  // ---- the device's steps keep it ----

  /** Neither opens a session, nor asks for confirmation, nor touches the command cache. */
  predicate Quiet(d: Device, e: Device) {
    && e.identity == d.identity && (e.paired == d.paired || e.paired.None?)
    && e.session == d.session && e.cachedCommand == d.cachedCommand && e.cachedResult == d.cachedResult
    && (e.phase == SessionOpen ==> d.phase == SessionOpen)
    && (e.phase == AwaitingConfirmation ==>
          && d.phase == AwaitingConfirmation && e.pendingSession == d.pendingSession
          && e.pendingHost == d.pendingHost && e.pendingCode == d.pendingCode)
  }

  lemma QuietKeeps(s: System, rest: seq<Message>, e: Device)
    requires Inv(s) && Quiet(s.device, e) && (rest == s.up || (s.up != [] && rest == s.up[1..]))
    ensures PairsOnce(rest, e, s.offers, s.openings) && CommandsInOrder(rest, e, s.issued)
    ensures OpenedAsOffered(e, s.offers, s.openings) && HostsTrusted(e, s.initialHost, s.openings)
    ensures CacheGood(e, s.openings, s.issued, s.executed)
  {
    if rest != s.up { TailKeeps(s.up, s.device, s.offers, s.openings, s.issued); }
    hide DeviceInv, ClientGood, IssuedGood, Truthful, Trusted;
  }

  /** Sending a true message leaves only true messages queued. */
  lemma SendStaysTruthful(d: Device, kind: MessageType, session: Identity, body: ControlBody,
                          openings: map<Identity, Opening>, executed: map<Key, Execution>)
    requires AllTruthful(d.outgoing, d.identity, openings, executed)
    requires Truthful(Reply(d, kind, session, body), d.identity, openings, executed)
    ensures AllTruthful(Send(d, kind, session, body).outgoing, d.identity, openings, executed)
  {
    hide Truthful;
  }

  /** An input that is no Pair, no command and no acceptance is quiet, and any reply to it says nothing
      about sessions or commands. */
  predicate Plain(i: Input) {
    match i
    case Frame(Ok(m), _) => !IsPair(m) && !IsCommand(m)
    case Touch(accepted, saved) => !accepted || !saved
    case TakeOutgoing => false
    case _ => true
  }

  lemma PlainMessageIsQuiet(d: Device, m: Message, a: Answers,
                            openings: map<Identity, Opening>, executed: map<Key, Execution>)
    requires !IsPair(m) && !IsCommand(m) && AllTruthful(d.outgoing, d.identity, openings, executed)
    ensures Quiet(d, Handle(d, Ok(m), a))
    ensures AllTruthful(Handle(d, Ok(m), a).outgoing, d.identity, openings, executed)
  {
    if m.ControlMessage? && m.body.Hello? { HelloIsQuiet(d, m.body.hello, openings, executed); }
    hide OnHello, AllTruthful, Accept;
  }

  lemma HelloIsQuiet(d: Device, h: HelloBody, openings: map<Identity, Opening>, executed: map<Key, Execution>)
    requires AllTruthful(d.outgoing, d.identity, openings, executed)
    ensures Quiet(d, OnHello(d, h)) && AllTruthful(OnHello(d, h).outgoing, d.identity, openings, executed)
  {
  }

  lemma PlainIsQuiet(d: Device, i: Input, openings: map<Identity, Opening>, executed: map<Key, Execution>)
    requires Plain(i) && AllTruthful(d.outgoing, d.identity, openings, executed)
    ensures Quiet(d, React(d, i)) && Opens(d, i).None? && Runs(d, i).None?
    ensures AllTruthful(React(d, i).outgoing, d.identity, openings, executed)
  {
    if i.Frame? && i.result.Ok? {
      PlainMessageIsQuiet(d, i.result.value, i.answers, openings, executed);
      hide AllTruthful, Handle, Quiet;
    }
  }

  predicate NoPairFor(up: seq<Message>, session: Identity) {
    forall m <- up | IsPair(m) :: m.envelope.session != session
  }

  /** Opening a session that was offered, that was never opened, and whose Pair is nowhere any more. */
  lemma OpenKeeps(s: System, rest: seq<Message>, session: Identity, o: Opening)
    requires Inv(s) && (rest == s.up || (s.up != [] && rest == s.up[1..])) && NoPairFor(rest, session)
    requires session in s.offers && session !in s.openings
    requires s.offers[session] == Offer(o.host, o.code, s.offers[session].intended)
    requires s.offers[session].intended == ZERO_IDENTITY || s.offers[session].intended == s.device.identity
    requires o.touched || s.device.paired == Some(o.host)
    ensures
      var e := OpenSession(s.device.(paired := Some(o.host)), session, o.host, o.code);
      Inv(s.(device := e, up := rest, openings := s.openings[session := o]))
  {
    var e := OpenSession(s.device.(paired := Some(o.host)), session, o.host, o.code);
    var later := s.openings[session := o];
    OpenQueue(s, rest, session, o);
    OpenTrust(s, session, o);
    OpenTruth(s, session, o);
    OpenCache(s, session, o);
    assert DeviceInv(e) && ClientGood(s.client, s.used, s.offers, later);
    hide PairsOnce, CommandsInOrder, AllTruthful, HostsTrusted, CacheGood, DeviceInv, ClientGood, OpenedAsOffered,
        IssuedGood;
  }

  lemma OpenQueue(s: System, rest: seq<Message>, session: Identity, o: Opening)
    requires Inv(s) && (rest == s.up || (s.up != [] && rest == s.up[1..])) && NoPairFor(rest, session)
    requires session in s.offers
    ensures
      var e := OpenSession(s.device.(paired := Some(o.host)), session, o.host, o.code);
      PairsOnce(rest, e, s.offers, s.openings[session := o]) && CommandsInOrder(rest, e, s.issued)
  {
    hide DeviceInv, HostsTrusted, CacheGood, AllTruthful, IssuedGood, ClientGood, OpenedAsOffered;
  }

  lemma OpenTrust(s: System, session: Identity, o: Opening)
    requires Inv(s) && session in s.offers && session !in s.openings
    requires s.offers[session] == Offer(o.host, o.code, s.offers[session].intended)
    requires s.offers[session].intended == ZERO_IDENTITY || s.offers[session].intended == s.device.identity
    requires o.touched || s.device.paired == Some(o.host)
    ensures
      var e := OpenSession(s.device.(paired := Some(o.host)), session, o.host, o.code);
      var later := s.openings[session := o];
      HostsTrusted(e, s.initialHost, later) && OpenedAsOffered(e, s.offers, later)
  {
    hide DeviceInv, CacheGood, AllTruthful, IssuedGood, ClientGood, PairsOnce, CommandsInOrder;
    var later := s.openings[session := o];
    if o.touched { assert later[session].touched; }
    TrustGrows(o.host, s.initialHost, s.openings, session, o);
    forall k | k in s.openings ensures Trusted(s.openings[k].host, s.initialHost, later) {
      TrustGrows(s.openings[k].host, s.initialHost, s.openings, session, o);
    }
    assert Trusted(o.host, s.initialHost, later);
    hide Trusted;
  }

  lemma TrustGrows(host: Identity, initialHost: Option<Identity>, openings: map<Identity, Opening>,
                   session: Identity, o: Opening)
    requires session !in openings
    ensures Trusted(host, initialHost, openings) ==> Trusted(host, initialHost, openings[session := o])
  {
    var later := openings[session := o];
    if WasAccepted(host, openings) {
      var k :| k in openings && openings[k].touched && openings[k].host == host;
      assert k in later && later[k].touched && later[k].host == host;
    }
  }

  lemma OpenTruth(s: System, session: Identity, o: Opening)
    requires Inv(s) && session !in s.openings
    ensures
      var e := OpenSession(s.device.(paired := Some(o.host)), session, o.host, o.code);
      var later := s.openings[session := o];
      AllTruthful(e.outgoing, e.identity, later, s.executed) && AllTruthful(s.down, e.identity, later, s.executed)
  {
    hide DeviceInv, CacheGood, HostsTrusted, IssuedGood, ClientGood, PairsOnce, CommandsInOrder, OpenedAsOffered;
    var d := s.device.(paired := Some(o.host), txSequence := 0);
    var later := s.openings[session := o];
    assert AllTruthful(d.outgoing, d.identity, later, s.executed);
    SendStaysTruthful(d, PairType, session, Pair(PairBody(d.identity, o.host, o.code)), later, s.executed);
  }

  lemma OpenCache(s: System, session: Identity, o: Opening)
    requires Inv(s) && session !in s.openings
    ensures
      var e := OpenSession(s.device.(paired := Some(o.host)), session, o.host, o.code);
      CacheGood(e, s.openings[session := o], s.issued, s.executed)
  {
    hide DeviceInv, AllTruthful, HostsTrusted, IssuedGood, ClientGood, PairsOnce, CommandsInOrder, OpenedAsOffered;
  }

  lemma PlainKeeps(s: System, rest: seq<Message>, i: Input)
    requires Inv(s) && Plain(i) && (rest == s.up || (s.up != [] && rest == s.up[1..]))
    ensures Inv(DeviceStep(s, i).(up := rest))
  {
    var e := React(s.device, i);
    PlainIsQuiet(s.device, i, s.openings, s.executed);
    ReactKeeps(s.device, i);
    hide React;
    QuietKeeps(s, rest, e);
    hide PairsOnce, CommandsInOrder, AllTruthful, HostsTrusted, CacheGood, DeviceInv, ClientGood, OpenedAsOffered,
        IssuedGood;
  }

  lemma TouchKeeps(s: System)
    requires Inv(s)
    ensures Inv(DeviceStep(s, Touch(true, true)))
  {
    var d := s.device;
    if d.phase == AwaitingConfirmation {
      OpenKeeps(s, s.up, d.pendingSession, Opening(d.pendingHost, d.pendingCode, true));
    }
    hide PairsOnce, CommandsInOrder, AllTruthful, HostsTrusted, CacheGood, DeviceInv, ClientGood, OpenedAsOffered,
        IssuedGood;
  }

  lemma PairOpens(s: System, a: Answers)
    requires Inv(s) && s.up != [] && IsPair(s.up[0]) && Opens(s.device, Frame(Ok(s.up[0]), a)).Some?
    ensures Inv(DeviceStep(s, Frame(Ok(s.up[0]), a)).(up := s.up[1..]))
  {
    var d, p, session := s.device, s.up[0].body.pair, s.up[0].envelope.session;
    assert NoPairFor(s.up[1..], session);
    assert d.(paired := Some(p.pairingIdentity)) == d;
    OpenKeeps(s, s.up[1..], session, Opening(p.pairingIdentity, p.matchingCode, false));
    hide PairsOnce, CommandsInOrder, AllTruthful, HostsTrusted, CacheGood, DeviceInv, ClientGood, OpenedAsOffered,
        IssuedGood;
  }

  lemma PairKeeps(s: System, a: Answers)
    requires Inv(s) && s.up != [] && IsPair(s.up[0])
    ensures Inv(DeviceStep(s, Frame(Ok(s.up[0]), a)).(up := s.up[1..]))
  {
    hide PairsOnce, CommandsInOrder, AllTruthful, HostsTrusted, CacheGood, DeviceInv, ClientGood, OpenedAsOffered,
        IssuedGood;
    var d, p, session := s.device, s.up[0].body.pair, s.up[0].envelope.session;
    var e := OnPair(d, session, p, a.nowMs);
    if Opens(d, Frame(Ok(s.up[0]), a)).Some? {
      PairOpens(s, a);
    } else {
      ReactKeeps(d, Frame(Ok(s.up[0]), a));
      if Pends(d, p) {
        PendingKeeps(s, e);
      } else {
        PairRefused(d, session, p, a, s.openings, s.executed);
        QuietKeeps(s, s.up[1..], e);
      }
    }
  }

  lemma PairRefused(d: Device, session: Identity, p: PairBody, a: Answers,
                    openings: map<Identity, Opening>, executed: map<Key, Execution>)
    requires !Pends(d, p) && AllTruthful(d.outgoing, d.identity, openings, executed)
    requires forall e: Envelope | e.session == session :: Opens(d, Frame(Ok(ControlMessage(e, Pair(p))), a)).None?
    ensures Quiet(d, OnPair(d, session, p, a.nowMs))
    ensures AllTruthful(OnPair(d, session, p, a.nowMs).outgoing, d.identity, openings, executed)
  {
    var e := Envelope(1, 0, PairType, session, 0, None, None, None);
    assert Opens(d, Frame(Ok(ControlMessage(e, Pair(p))), a)).None?;
  }

  lemma PendingKeeps(s: System, e: Device)
    requires Inv(s) && s.up != [] && IsPair(s.up[0])
    requires
      var p := s.up[0].body.pair;
      && e == s.device.(phase := AwaitingConfirmation, pendingSession := s.up[0].envelope.session,
                        pendingHost := p.pairingIdentity, pendingCode := p.matchingCode, pendingSinceMs := e.pendingSinceMs)
      && p.intendedPeerIdentity == ZERO_IDENTITY
    ensures PairsOnce(s.up[1..], e, s.offers, s.openings) && CommandsInOrder(s.up[1..], e, s.issued)
    ensures OpenedAsOffered(e, s.offers, s.openings) && HostsTrusted(e, s.initialHost, s.openings)
    ensures CacheGood(e, s.openings, s.issued, s.executed)
  {
    hide DeviceInv, ClientGood, IssuedGood, AllTruthful, Trusted;
  }

  /** A retry is told what the first reply said. */
  lemma CachedReplyIsTruthful(s: System, c: CommandBody)
    requires Inv(s) && IsRetry(s.device, c) && (s.device.session, c.commandIdentity) in s.issued
    requires s.issued[(s.device.session, c.commandIdentity)] == c.operation
    ensures
      var d := s.device;
      var body := CommandReply(CommandReplyBody(c.commandIdentity, c.operation, d.cachedResult));
      Truthful(Reply(d, CommandReplyType, d.session, body), d.identity, s.openings, s.executed)
  {
    hide DeviceInv, AllTruthful, HostsTrusted, IssuedGood, ClientGood, PairsOnce, CommandsInOrder, OpenedAsOffered;
  }

  lemma ExecutionGrowsTruth(ms: seq<Message>, identity: Identity, openings: map<Identity, Opening>,
                            executed: map<Key, Execution>, k: Key, x: Execution)
    requires AllTruthful(ms, identity, openings, executed) && k !in executed
    ensures AllTruthful(ms, identity, openings, executed[k := x])
  {
  }

  /** A new command is beyond every one its session executed. */
  lemma ExecutedIsNew(s: System, c: CommandBody)
    requires Inv(s) && s.up != [] && IsCommand(s.up[0]) && s.up[0].body.command == c
    requires Executes(s.device, s.up[0].envelope.session, c)
    ensures KeyOf(s.up[0]) !in s.executed
  {
    hide DeviceInv, AllTruthful, HostsTrusted, IssuedGood, ClientGood, PairsOnce, OpenedAsOffered;
    var m := s.up[0];
    assert m in s.up;
  }

  predicate HeadIs(up: seq<Message>, session: Identity, c: CommandBody) {
    up != [] && IsCommand(up[0]) && up[0].envelope.session == session && up[0].body.command == c
  }

  lemma ExecutionQueue(s: System, session: Identity, c: CommandBody, a: Answers)
    requires Inv(s) && HeadIs(s.up, session, c) && Executes(s.device, session, c)
    ensures
      var e := OnCommand(s.device, session, c, a.cleared, a.resetOk);
      && PairsOnce(s.up[1..], e, s.offers, s.openings) && CommandsInOrder(s.up[1..], e, s.issued)
      && OpenedAsOffered(e, s.offers, s.openings) && HostsTrusted(e, s.initialHost, s.openings)
  {
    hide DeviceInv, AllTruthful, IssuedGood, ClientGood, CacheGood, Trusted;
  }

  lemma ExecutionCache(s: System, session: Identity, c: CommandBody, a: Answers)
    requires Inv(s) && HeadIs(s.up, session, c) && Executes(s.device, session, c)
    ensures
      var e := OnCommand(s.device, session, c, a.cleared, a.resetOk);
      var x := Execution(c.operation, Outcome(s.device, c, a.resetOk));
      CacheGood(e, s.openings, s.issued, s.executed[(session, c.commandIdentity) := x])
  {
    assert s.up[0] in s.up;
    hide AllTruthful, IssuedGood, ClientGood, HostsTrusted, PairsOnce, OpenedAsOffered;
    ExecutedIsNew(s, c);
  }

  lemma ExecutionTruth(s: System, session: Identity, c: CommandBody, a: Answers)
    requires Inv(s) && HeadIs(s.up, session, c) && Executes(s.device, session, c)
    ensures
      var d := s.device;
      var x := Execution(c.operation, Outcome(d, c, a.resetOk));
      var later := s.executed[(session, c.commandIdentity) := x];
      && AllTruthful(OnCommand(d, session, c, a.cleared, a.resetOk).outgoing, d.identity, s.openings, later)
      && AllTruthful(s.down, d.identity, s.openings, later)
  {
    hide PairsOnce, OpenedAsOffered, CommandsInOrder, IssuedGood, ClientGood, CacheGood, HostsTrusted;
    ExecutedIsNew(s, c);
    var d, result := s.device, Outcome(s.device, c, a.resetOk);
    var x, k := Execution(c.operation, result), (session, c.commandIdentity);
    ExecutionGrowsTruth(s.down, d.identity, s.openings, s.executed, k, x);
    ExecutionGrowsTruth(d.outgoing, d.identity, s.openings, s.executed, k, x);
    var f := d.(cachedCommand := Some(c.commandIdentity),
                cachedResult := if result == Applied then AlreadyApplied else result);
    var body := CommandReply(CommandReplyBody(c.commandIdentity, c.operation, result));
    SendStaysTruthful(f, CommandReplyType, d.session, body, s.openings, s.executed[k := x]);
    hide AllTruthful, DeviceInv;
  }

  lemma ExecutionKeeps(s: System, a: Answers, session: Identity, c: CommandBody)
    requires Inv(s) && HeadIs(s.up, session, c) && Executes(s.device, session, c)
    ensures Inv(DeviceStep(s, Frame(Ok(s.up[0]), a)).(up := s.up[1..]))
  {
    hide PairsOnce, CommandsInOrder, AllTruthful, HostsTrusted, CacheGood, DeviceInv, ClientGood, OpenedAsOffered,
        IssuedGood;
    ExecutionQueue(s, session, c, a);
    ExecutionCache(s, session, c, a);
    ExecutionTruth(s, session, c, a);
    ReactKeeps(s.device, Frame(Ok(s.up[0]), a));
  }

  /** A command that is not executed is answered from the cache or ignored. */
  lemma UnexecutedIsQuiet(s: System, session: Identity, c: CommandBody, a: Answers)
    requires Inv(s) && HeadIs(s.up, session, c) && !Executes(s.device, session, c)
    ensures
      var e := OnCommand(s.device, session, c, a.cleared, a.resetOk);
      Quiet(s.device, e) && AllTruthful(e.outgoing, e.identity, s.openings, s.executed)
  {
    var d := s.device;
    assert s.up[0] in s.up;
    assert session == d.session && IsRetry(d, c) ==>
        (session, c.commandIdentity) in s.issued && s.issued[(session, c.commandIdentity)] == c.operation by {
      hide DeviceInv, AllTruthful, HostsTrusted, IssuedGood, ClientGood, PairsOnce, CacheGood, OpenedAsOffered;
    }
    hide PairsOnce, OpenedAsOffered, CommandsInOrder, IssuedGood, ClientGood, CacheGood, HostsTrusted, DeviceInv,
        AllTruthful, Truthful;
    if session == d.session && IsRetry(d, c) {
      CachedReplyIsTruthful(s, c);
      var body := CommandReply(CommandReplyBody(c.commandIdentity, c.operation, d.cachedResult));
      SendStaysTruthful(d, CommandReplyType, d.session, body, s.openings, s.executed);
    }
  }

  lemma CommandKeeps(s: System, a: Answers)
    requires Inv(s) && s.up != [] && IsCommand(s.up[0])
    ensures Inv(DeviceStep(s, Frame(Ok(s.up[0]), a)).(up := s.up[1..]))
  {
    hide PairsOnce, CommandsInOrder, AllTruthful, HostsTrusted, CacheGood, DeviceInv, ClientGood, OpenedAsOffered,
        IssuedGood;
    var session, c := s.up[0].envelope.session, s.up[0].body.command;
    if Executes(s.device, session, c) {
      ExecutionKeeps(s, a, session, c);
    } else {
      UnexecutedIsQuiet(s, session, c, a);
      QuietKeeps(s, s.up[1..], OnCommand(s.device, session, c, a.cleared, a.resetOk));
      ReactKeeps(s.device, Frame(Ok(s.up[0]), a));
    }
  }

  lemma SendsKeeps(s: System)
    requires Inv(s)
    ensures Inv(Next(s, DeviceSends))
  {
    QuietKeeps(s, s.up, React(s.device, TakeOutgoing));
    hide PairsOnce, CommandsInOrder, Truthful, HostsTrusted, CacheGood, ClientGood, OpenedAsOffered, IssuedGood;
  }

  lemma RestartKeeps(s: System)
    requires Inv(s)
    ensures Inv(Next(s, DeviceRestarts))
  {
    PowerOnIsGood(s.device.identity, s.device.paired);
    hide Truthful, ClientGood, IssuedGood, Trusted;
  }

  /** Every step of either end or of the link keeps the invariant. */
  lemma StepKeeps(s: System, a: Action)
    requires Inv(s) && Legal(s, a)
    ensures Inv(Next(s, a))
  {
    hide Inv;
    match a
    case Connect(_, _, _, _) => ConnectKeeps(s, a);
    case SetOffset(_) => HelloKeeps(s, a);
    case HostHello(_) => HelloKeeps(s, a);
    case HostSnapshot(_, _) => HelloKeeps(s, a);
    case HostGivesUp => HelloKeeps(s, a);
    case HostReceive => ReceiveKeeps(s);
    case HostCommand(operation) => IssueKeeps(s, operation);
    case HostRetry => RetryKeeps(s);
    case LoseUp => LossKeeps(s, a);
    case LoseDown => LossKeeps(s, a);
    case DeviceReceive(answers) =>
      if IsPair(s.up[0]) { PairKeeps(s, answers); }
      else if IsCommand(s.up[0]) { CommandKeeps(s, answers); }
      else { PlainKeeps(s, s.up[1..], Frame(Ok(s.up[0]), answers)); }
    case DeviceHearsNoise(error, answers) => PlainKeeps(s, s.up, Frame(Err(error), answers));
    case DeviceTouch(accepted, saved) =>
      if accepted && saved { TouchKeeps(s); } else { PlainKeeps(s, s.up, Touch(accepted, saved)); }
    case DeviceUnpairs(cleared) => PlainKeeps(s, s.up, UnpairKey(cleared));
    case DeviceTick(now) => PlainKeeps(s, s.up, TickAt(now));
    case DeviceSends => SendsKeeps(s);
    case DeviceRestarts => RestartKeeps(s);
  }
}
