/** The Host and the device joined by two in-order queues that may lose messages but neither forge,
    repeat nor reorder them, over any number of connections and device restarts. */
module LinkSystem {
  import opened Basics
  import opened Messages
  import opened Delivery
  import opened DeviceLink
  import opened H = HostSession

  /** The Pair a connection sent. */
  datatype Offer = Offer(host: Identity, code: U32, intended: Identity)

  /** How the device came to open a session: the stored host came back, or the operator accepted. */
  datatype Opening = Opening(host: Identity, code: U32, touched: bool)

  datatype Execution = Execution(operation: CommandOperation, result: CommandResult)

  /** A command is identified by its session and its number in that session. */
  type Key = (Identity, U32)

  /** `outstanding` is the command `Link::command` is waiting for. The last five fields are histories
      kept for the proofs: the sessions ever used, the Pair each sent, the sessions the device opened, the
      operation of every command issued, and the commands that took effect on the device. */
  datatype System = System(
    device: Device, client: Client, up: seq<Message>, down: seq<Message>,
    outstanding: Option<(U32, CommandOperation)>, initialHost: Option<Identity>,
    used: set<Identity>, offers: map<Identity, Offer>, openings: map<Identity, Opening>,
    issued: map<Key, CommandOperation>, executed: map<Key, Execution>)

  predicate Init(s: System) {
    && s.device == PowerOn(s.device.identity, s.initialHost)
    && s.client.phase == H.Idle && s.client.nextCommand == 1
    && s.up == [] && s.down == [] && s.outstanding.None? && s.used == {s.client.session}
    && s.offers == map[] && s.openings == map[] && s.issued == map[] && s.executed == map[]
  }

  datatype Action =
    | Connect(host: Identity, known: Option<Identity>, code: U32, session: Identity)
    | SetOffset(offset: Option<I16>)
    | HostHello(utcMs: Option<U64>)
    | HostReceive
    | HostSnapshot(snapshot: Snapshot, snapshotUtcMs: Option<U64>)
    | HostCommand(operation: CommandOperation)
    | HostRetry
    | HostGivesUp
    | LoseUp
    | LoseDown
    | DeviceReceive(answers: Answers)
    | DeviceHearsNoise(error: Error, answers: Answers)
    | DeviceTouch(accepted: bool, saved: bool)
    | DeviceUnpairs(cleared: bool)
    | DeviceTick(nowMs: U64)
    | DeviceSends
    | DeviceRestarts

  /** What the Host's retry loops do: Hello only until the Pair is sent, one command at a time and
      retries of that command only. A connection issues fewer than 2^32 commands. */
  predicate Legal(s: System, a: Action) {
    match a
    case Connect(_, _, _, session) => session !in s.used
    case HostHello(_) => s.client.phase == H.Idle || s.client.phase == HelloSent
    case HostReceive => s.down != []
    case HostSnapshot(_, _) => s.client.phase == Live
    case HostCommand(_) => s.client.phase == Live && s.outstanding.None? && s.client.nextCommand < U32_MAX
    case HostRetry => s.client.phase == Live && s.outstanding.Some?
    case LoseUp => s.up != []
    case LoseDown => s.down != []
    case DeviceReceive(_) => s.up != []
    case _ => true
  }

  // ---- steps of the Host ----

  function IfEncodes(m: Message): seq<Message> { if EncodeMessage(m).Ok? then [m] else [] }

  function OfferOf(c: Client): Offer { Offer(c.host, c.code, Intended(c)) }

  function Receive(s: System): System
    requires s.down != []
  {
    var r := HandleMessage(s.client, s.down[0]);
    s.(client := r.client, up := s.up + r.sent, down := s.down[1..],
       offers := if r.sent != [] then s.offers[s.client.session := OfferOf(s.client)] else s.offers,
       outstanding := if Answer(s).Some? then None else s.outstanding)
  }

  /** The result `Link::command` returns when the next message arrives, if it is the awaited reply. */
  function Answer(s: System): Option<CommandResult>
    requires s.down != []
  {
    if s.outstanding.None? then None
    else
      var r := HandleMessage(s.client, s.down[0]);
      if r.events != [] && r.events[0].Replied? && r.events[0].commandIdentity == s.outstanding.value.0
      then Some(r.events[0].result) else None
  }

  function IssueCommand(s: System, operation: CommandOperation): System {
    var c := s.client;
    s.(client := Advance(c).(nextCommand := Inc32(c.nextCommand)),
       up := s.up + IfEncodes(CommandOf(c, c.nextCommand, operation)),
       outstanding := Some((c.nextCommand, operation)),
       issued := s.issued[(c.session, c.nextCommand) := operation])
  }

  function RetryCommand(s: System): System
    requires s.outstanding.Some?
  {
    s.(client := Advance(s.client),
       up := s.up + IfEncodes(CommandOf(s.client, s.outstanding.value.0, s.outstanding.value.1)))
  }

  // ---- steps of the device ----

  /** The session a device input opens, and why. */
  function Opens(d: Device, i: Input): Option<(Identity, Opening)> {
    match i
    case Frame(Ok(ControlMessage(e, Pair(p))), _) =>
      if d.phase != DeviceLink.Idle && d.phase != DeviceLink.Incompatible && p.matchingCode <= MAX_MATCHING_CODE
         && d.paired == Some(p.pairingIdentity) && NamesThisDevice(d, p)
      then Some((e.session, Opening(p.pairingIdentity, p.matchingCode, false))) else None
    case Touch(true, true) =>
      if d.phase == AwaitingConfirmation
      then Some((d.pendingSession, Opening(d.pendingHost, d.pendingCode, true))) else None
    case _ => None
  }

  /** The command a device input executes. */
  function Runs(d: Device, i: Input): Option<(Key, Execution)> {
    match i
    case Frame(Ok(ControlMessage(e, Command(c))), a) =>
      if Executes(d, e.session, c)
      then Some(((e.session, c.commandIdentity), Execution(c.operation, Outcome(d, c, a.resetOk)))) else None
    case _ => None
  }

  function DeviceStep(s: System, i: Input): System {
    var o := Opens(s.device, i);
    var r := Runs(s.device, i);
    s.(device := React(s.device, i),
       openings := if o.Some? then s.openings[o.value.0 := o.value.1] else s.openings,
       executed := if r.Some? then s.executed[r.value.0 := r.value.1] else s.executed)
  }

  function InputOf(s: System, a: Action): Option<Input>
    requires Legal(s, a)
  {
    match a
    case DeviceReceive(answers) => Some(Frame(Ok(s.up[0]), answers))
    case DeviceHearsNoise(error, answers) => Some(Frame(Err(error), answers))
    case DeviceTouch(accepted, saved) => Some(Touch(accepted, saved))
    case DeviceUnpairs(cleared) => Some(UnpairKey(cleared))
    case DeviceTick(now) => Some(TickAt(now))
    case _ => None
  }

  function Next(s: System, a: Action): System
    requires Legal(s, a)
  {
    match a
    case Connect(host, known, code, session) =>
      s.(client := NewClient(host, known, code, session), outstanding := None, used := s.used + {session})
    case SetOffset(offset) => s.(client := s.client.(localOffsetMinutes := offset))
    case HostHello(utcMs) => s.(client := Start(s.client), up := s.up + IfEncodes(HelloOf(s.client, utcMs)))
    case HostReceive => Receive(s)
    case HostSnapshot(snapshot, utcMs) =>
      var m := SnapshotOf(s.client, snapshot, utcMs);
      s.(client := Advance(s.client), up := s.up + if Deliverable(m) then [m] else [])
    case HostCommand(operation) => IssueCommand(s, operation)
    case HostRetry => RetryCommand(s)
    case HostGivesUp => s.(outstanding := None)
    case LoseUp => s.(up := s.up[1..])
    case LoseDown => s.(down := s.down[1..])
    case DeviceReceive(answers) => DeviceStep(s, InputOf(s, a).value).(up := s.up[1..])
    case DeviceHearsNoise(_, _) => DeviceStep(s, InputOf(s, a).value)
    case DeviceTouch(_, _) => DeviceStep(s, InputOf(s, a).value)
    case DeviceUnpairs(_) => DeviceStep(s, InputOf(s, a).value)
    case DeviceTick(_) => DeviceStep(s, InputOf(s, a).value)
    case DeviceSends => s.(device := React(s.device, TakeOutgoing), down := s.down + s.device.outgoing)
    case DeviceRestarts => s.(device := PowerOn(s.device.identity, s.device.paired))
  }

  // ---- the invariant ----

  function KeyOf(m: Message): Key
    requires IsCommand(m)
  {
    (m.envelope.session, m.body.command.commandIdentity)
  }

  function OfferIn(m: Message): Offer
    requires IsPair(m)
  {
    Offer(m.body.pair.pairingIdentity, m.body.pair.matchingCode, m.body.pair.intendedPeerIdentity)
  }

  predicate Awaits(d: Device, session: Identity) { d.phase == AwaitingConfirmation && d.pendingSession == session }

  /** A session's Pair is in at most one place: on its way, pending at the device, or used to open it. */
  predicate PairsOnce(up: seq<Message>, d: Device, offers: map<Identity, Offer>, openings: map<Identity, Opening>) {
    && (forall i | 0 <= i < |up| && IsPair(up[i]) ::
          var k := up[i].envelope.session;
          k in offers && offers[k] == OfferIn(up[i]) && k !in openings && !Awaits(d, k))
    && (forall i, j | 0 <= i < j < |up| && IsPair(up[i]) && IsPair(up[j]) ::
          up[i].envelope.session != up[j].envelope.session)
    && (d.phase == AwaitingConfirmation ==>
          && d.pendingSession in offers && d.pendingSession !in openings
          && offers[d.pendingSession] == Offer(d.pendingHost, d.pendingCode, ZERO_IDENTITY))
  }

  /** What the device opened was offered to it, for a host the operator once accepted. */
  predicate OpenedAsOffered(d: Device, offers: map<Identity, Offer>, openings: map<Identity, Opening>) {
    forall k <- openings ::
      && k in offers && offers[k].host == openings[k].host && offers[k].code == openings[k].code
      && (offers[k].intended == ZERO_IDENTITY || offers[k].intended == d.identity)
  }

  predicate WasAccepted(host: Identity, openings: map<Identity, Opening>) {
    exists k :: k in openings && openings[k].touched && openings[k].host == host
  }

  predicate Trusted(host: Identity, initialHost: Option<Identity>, openings: map<Identity, Opening>) {
    initialHost == Some(host) || WasAccepted(host, openings)
  }

  predicate HostsTrusted(d: Device, initialHost: Option<Identity>, openings: map<Identity, Opening>) {
    && (d.paired.Some? ==> Trusted(d.paired.value, initialHost, openings))
    && forall k <- openings :: Trusted(openings[k].host, initialHost, openings)
  }

  predicate ClientGood(
    c: Client, used: set<Identity>, offers: map<Identity, Offer>, openings: map<Identity, Opening>)
  {
    && c.session in used && (forall k <- offers :: k in used)
    && (c.phase == H.Idle || c.phase == HelloSent ==> c.session !in offers)
    && (c.phase == PairSent || c.phase == Live ==> c.session in offers && offers[c.session] == OfferOf(c))
    && (c.phase == Live ==> c.session in openings)
  }

  /** Commands travel in the order they were issued, and none is behind what the device last cached. */
  predicate CommandsInOrder(up: seq<Message>, d: Device, issued: map<Key, CommandOperation>) {
    && (forall m <- up | IsCommand(m) :: KeyOf(m) in issued && issued[KeyOf(m)] == m.body.command.operation)
    && (forall i, j | 0 <= i < j < |up| && IsCommand(up[i]) && IsCommand(up[j])
                      && KeyOf(up[i]).0 == KeyOf(up[j]).0 :: KeyOf(up[i]).1 <= KeyOf(up[j]).1)
    && (d.phase == SessionOpen && d.cachedCommand.Some? ==>
          forall m <- up | IsCommand(m) && KeyOf(m).0 == d.session :: d.cachedCommand.value <= KeyOf(m).1)
  }

  /** The cache holds the last executed command of the open session, with what a retry is to be told. */
  predicate CacheGood(
    d: Device, openings: map<Identity, Opening>, issued: map<Key, CommandOperation>, executed: map<Key, Execution>)
  {
    && (forall k <- executed :: k in issued && issued[k] == executed[k].operation && k.0 in openings
                                && executed[k].result != AlreadyApplied)
    && (d.phase == SessionOpen ==> d.session in openings)
    && (d.phase == SessionOpen ==>
          forall k <- executed | k.0 == d.session :: d.cachedCommand.Some? && k.1 <= d.cachedCommand.value)
    && (d.cachedCommand.Some? ==>
          var k := (d.session, d.cachedCommand.value);
          k in executed
          && d.cachedResult == if executed[k].result == Applied then AlreadyApplied else executed[k].result)
  }

  predicate IssuedGood(c: Client, outstanding: Option<(U32, CommandOperation)>, used: set<Identity>,
                       issued: map<Key, CommandOperation>)
  {
    && (forall k <- issued :: k.0 in used && (k.0 == c.session ==> k.1 < c.nextCommand))
    && (outstanding.Some? ==>
          && c.phase == Live && outstanding.value.0 == c.nextCommand - 1
          && (c.session, outstanding.value.0) in issued
          && issued[(c.session, outstanding.value.0)] == outstanding.value.1)
  }

  predicate Matches(result: CommandResult, e: Execution) {
    if e.result == Applied then result == Applied || result == AlreadyApplied else result == Rejected
  }

  /** What the device sends is true: its Pair names a session it opened, its reply a command it executed. */
  predicate Truthful(m: Message, identity: Identity, openings: map<Identity, Opening>, executed: map<Key, Execution>) {
    && (IsPair(m) ==>
          var k := m.envelope.session;
          k in openings && m.body.pair == PairBody(identity, openings[k].host, openings[k].code))
    && (m.ControlMessage? && m.body.CommandReply? ==>
          var k := (m.envelope.session, m.body.reply.commandIdentity);
          k in executed && executed[k].operation == m.body.reply.operation && Matches(m.body.reply.result, executed[k]))
  }

  predicate AllTruthful(
    ms: seq<Message>, identity: Identity, openings: map<Identity, Opening>, executed: map<Key, Execution>)
  {
    forall m <- ms :: Truthful(m, identity, openings, executed)
  }

  predicate Inv(s: System) {
    && DeviceInv(s.device)
    && PairsOnce(s.up, s.device, s.offers, s.openings)
    && OpenedAsOffered(s.device, s.offers, s.openings)
    && HostsTrusted(s.device, s.initialHost, s.openings)
    && ClientGood(s.client, s.used, s.offers, s.openings)
    && CommandsInOrder(s.up, s.device, s.issued)
    && CacheGood(s.device, s.openings, s.issued, s.executed)
    && IssuedGood(s.client, s.outstanding, s.used, s.issued)
    && AllTruthful(s.device.outgoing, s.device.identity, s.openings, s.executed)
    && AllTruthful(s.down, s.device.identity, s.openings, s.executed)
  }
}
