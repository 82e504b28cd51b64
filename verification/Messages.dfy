/** The messages of the USB protocol and their wire form: envelope, snapshot
    groups and control bodies. */
module Messages {
  import opened Basics
  import opened Cbor
  import opened Crc

  datatype Error =
    | Truncated | TooLarge | BadCrc | Malformed | UnsupportedMajor | WrongSession | StaleSequence

  datatype MessageType =
    | HelloType | HelloReplyType | PairType | SnapshotType | CommandType | CommandReplyType | ErrorType

  datatype Envelope = Envelope(
    major: U8, minor: U8, kind: MessageType, session: Identity, sequence: U32,
    utcMs: Option<U64>, utcUncertaintyMs: Option<U32>, localOffsetMinutes: Option<I16>)

  // ---- snapshot groups ----

  datatype Availability = Available | Unsupported | Absent | TemporarilyUnavailable | AvailabilityError

  datatype Freshness = Fresh | Stale

  datatype CpuSnapshot = CpuSnapshot(
    availability: Availability, utilizationPerMille: U16, sourceAgeMs: U32, freshness: Freshness,
    configurationRevision: U32)

  datatype RamSnapshot = RamSnapshot(
    availability: Availability, usedBytes: U64, totalBytes: U64, sourceAgeMs: U32, freshness: Freshness)

  datatype StorageSnapshot = StorageSnapshot(
    capacityAvailability: Availability, totalBytes: U64, availableBytes: U64, capacityAgeMs: U32,
    ioAvailability: Availability, readBytesPerS: U64, writeBytesPerS: U64, ioAgeMs: U32)

  datatype BatterySnapshot = BatterySnapshot(
    chargeAvailability: Availability, chargePerMille: U16, state: U8, timeRemainingMin: U16, chargeAgeMs: U32,
    conditionAvailability: Availability, maxCapacityPerMille: U16, condition: U8, cycleCount: U16,
    conditionAgeMs: U32)

  const AGENT_SLOTS := 5

  type AgentStates = s: seq<U8> | |s| == AGENT_SLOTS witness [0, 0, 0, 0, 0]

  datatype AgentsSnapshot = AgentsSnapshot(availability: Availability, sourceAgeMs: U32, state: AgentStates)

  datatype RouteKind = UnknownRoute | Wifi | Ethernet | OtherLink | NoRoute

  datatype AssociationContext =
    | ContextAvailable | PermissionNotRequested | Denied | Restricted | AuthorizedUnavailable
    | ContextUnsupported | ContextError

  datatype WifiCoverage = UnknownCoverage | Observable | OutsideSupported

  type Mac = s: seq<Byte> | |s| == 6 witness [0, 0, 0, 0, 0, 0]

  const MAX_SSID_BYTES := 32
  const MAX_LINKS := 8

  datatype NetworkSnapshot = NetworkSnapshot(
    trafficAvailability: Availability, trafficAgeMs: U32, routeKind: RouteKind, viaTunnel: bool,
    rxBytesPerS: U64, txBytesPerS: U64, contextAvailability: AssociationContext, contextAgeMs: U32,
    coverage: WifiCoverage, channel: U8, station: Option<Mac>, ssid: seq<Byte>, bssid: Option<Mac>,
    links: Option<seq<RouteKind>>)
  {
    /** The rules an encoder refuses to break and a decoder rejects. */
    predicate IsValid() {
      && !(viaTunnel && (routeKind == UnknownRoute || routeKind == NoRoute))
      && (trafficAvailability != Available ==> rxBytesPerS == 0 && txBytesPerS == 0)
      && (coverage == UnknownCoverage ==> channel == 0)
      && |ssid| <= MAX_SSID_BYTES
      && (links.Some? ==>
            |links.value| <= MAX_LINKS
            && forall k <- links.value :: k == Wifi || k == Ethernet || k == OtherLink)
      && ((ssid == [] && bssid.None?) || contextAvailability == ContextAvailable)
    }
  }

  datatype Snapshot = Snapshot(
    cpu: CpuSnapshot, ram: Option<RamSnapshot>, storage: Option<StorageSnapshot>,
    battery: Option<BatterySnapshot>, agents: Option<AgentsSnapshot>, network: Option<NetworkSnapshot>)

  // ---- control bodies ----

  datatype HelloBody = HelloBody(
    supportedMajor: U8, supportedMinor: U8, capabilities: U32, configurationRevision: U32,
    utcMs: Option<U64>, utcUncertaintyMs: Option<U32>)

  datatype PairBody = PairBody(pairingIdentity: Identity, intendedPeerIdentity: Identity, matchingCode: U32)

  datatype CommandOperation = Unpair | CalibrationReset

  datatype CommandBody = CommandBody(commandIdentity: U32, operation: CommandOperation)

  datatype CommandResult = Applied | AlreadyApplied | Rejected

  datatype CommandReplyBody = CommandReplyBody(
    commandIdentity: U32, operation: CommandOperation, result: CommandResult)

  datatype ControlBody =
    | Hello(hello: HelloBody)
    | HelloReply(hello: HelloBody)
    | Pair(pair: PairBody)
    | Command(command: CommandBody)
    | CommandReply(reply: CommandReplyBody)
    | ErrorReport(bytes: seq<Byte>)

  datatype Message =
    | SnapshotMessage(envelope: Envelope, snapshot: Snapshot)
    | ControlMessage(envelope: Envelope, body: ControlBody)

  predicate IsHello(m: Message) { m.ControlMessage? && m.body.Hello? }

  predicate IsPair(m: Message) { m.ControlMessage? && m.body.Pair? }

  predicate IsCommand(m: Message) { m.ControlMessage? && m.body.Command? }

  // ---- wire codes of the enumerations ----

  function TypeCode(k: MessageType): U8 {
    match k
    case HelloType => 1
    case HelloReplyType => 2
    case PairType => 3
    case SnapshotType => 4
    case CommandType => 5
    case CommandReplyType => 6
    case ErrorType => 7
  }

  function TypeFrom(v: U64): Option<MessageType> {
    if v == 1 then Some(HelloType) else if v == 2 then Some(HelloReplyType)
    else if v == 3 then Some(PairType) else if v == 4 then Some(SnapshotType)
    else if v == 5 then Some(CommandType) else if v == 6 then Some(CommandReplyType)
    else if v == 7 then Some(ErrorType) else None
  }

  function AvailabilityCode(a: Availability): U8 {
    match a
    case Available => 0
    case Unsupported => 1
    case Absent => 2
    case TemporarilyUnavailable => 3
    case AvailabilityError => 4
  }

  function AvailabilityFrom(v: U64): Option<Availability> {
    if v == 0 then Some(Available) else if v == 1 then Some(Unsupported) else if v == 2 then Some(Absent)
    else if v == 3 then Some(TemporarilyUnavailable) else if v == 4 then Some(AvailabilityError) else None
  }

  function FreshnessCode(f: Freshness): U8 { if f == Fresh then 0 else 1 }

  function FreshnessFrom(v: U64): Option<Freshness> {
    if v == 0 then Some(Fresh) else if v == 1 then Some(Stale) else None
  }

  function RouteCode(k: RouteKind): U8 {
    match k
    case UnknownRoute => 0
    case Wifi => 1
    case Ethernet => 2
    case OtherLink => 3
    case NoRoute => 4
  }

  function RouteFrom(v: U64): RouteKind {
    if v == 0 then UnknownRoute else if v == 1 then Wifi else if v == 2 then Ethernet
    else if v == 3 then OtherLink else NoRoute
  }

  function ContextCode(c: AssociationContext): U8 {
    match c
    case ContextAvailable => 0
    case PermissionNotRequested => 1
    case Denied => 2
    case Restricted => 3
    case AuthorizedUnavailable => 4
    case ContextUnsupported => 5
    case ContextError => 6
  }

  function ContextFrom(v: U64): AssociationContext {
    if v == 0 then ContextAvailable else if v == 1 then PermissionNotRequested else if v == 2 then Denied
    else if v == 3 then Restricted else if v == 4 then AuthorizedUnavailable
    else if v == 5 then ContextUnsupported else ContextError
  }

  function CoverageCode(c: WifiCoverage): U8 {
    match c
    case UnknownCoverage => 0
    case Observable => 1
    case OutsideSupported => 2
  }

  function CoverageFrom(v: U64): WifiCoverage {
    if v == 0 then UnknownCoverage else if v == 1 then Observable else OutsideSupported
  }

  function OperationCode(o: CommandOperation): U8 { if o == Unpair then 1 else 2 }

  function OperationFrom(v: U64): Option<CommandOperation> {
    if v == 1 then Some(Unpair) else if v == 2 then Some(CalibrationReset) else None
  }

  function ResultCode(r: CommandResult): U8 {
    match r
    case Applied => 0
    case AlreadyApplied => 1
    case Rejected => 2
  }

  function ResultFrom(v: U64): Option<CommandResult> {
    if v == 0 then Some(Applied) else if v == 1 then Some(AlreadyApplied)
    else if v == 2 then Some(Rejected) else None
  }

  // ---- encoding ----

  /** The one-byte head of a map of `n` entries. */
  function MapHead(n: nat): (s: seq<Byte>)
    requires n < 24
    ensures s == EncUint(5, n)
  {
    [0xA0 + n]
  }

  function EncEntry(key: U64, value: U64): seq<Byte> { EncUint(0, key) + EncUint(0, value) }

  /** Consecutive keys from `first` up, each with its unsigned value. */
  function EncFields(values: seq<U64>, first: nat): seq<Byte>
    requires first + |values| <= 24
    decreases |values|
  {
    if values == [] then [] else EncEntry(first, values[0]) + EncFields(values[1..], first + 1)
  }

  function EncOptional(key: U64, value: Option<U64>): seq<Byte> {
    if value.Some? then EncEntry(key, value.value) else []
  }

  function Present<T>(o: Option<T>): nat { if o.Some? then 1 else 0 }

  function CpuFields(c: CpuSnapshot): (v: seq<U64>)
    ensures |v| == 5
  {
    [AvailabilityCode(c.availability), c.utilizationPerMille, c.sourceAgeMs, FreshnessCode(c.freshness),
     c.configurationRevision]
  }

  function RamFields(r: RamSnapshot): (v: seq<U64>)
    ensures |v| == 5
  {
    [AvailabilityCode(r.availability), r.usedBytes, r.totalBytes, r.sourceAgeMs, FreshnessCode(r.freshness)]
  }

  function StorageFields(s: StorageSnapshot): (v: seq<U64>)
    ensures |v| == 8
  {
    [AvailabilityCode(s.capacityAvailability), s.totalBytes, s.availableBytes, s.capacityAgeMs,
     AvailabilityCode(s.ioAvailability), s.readBytesPerS, s.writeBytesPerS, s.ioAgeMs]
  }

  function BatteryFields(b: BatterySnapshot): (v: seq<U64>)
    ensures |v| == 10
  {
    [AvailabilityCode(b.chargeAvailability), b.chargePerMille, b.state, b.timeRemainingMin, b.chargeAgeMs,
     AvailabilityCode(b.conditionAvailability), b.maxCapacityPerMille, b.condition, b.cycleCount,
     b.conditionAgeMs]
  }

  function AgentsFields(a: AgentsSnapshot): (v: seq<U64>)
    ensures |v| == 7
  {
    [AvailabilityCode(a.availability), a.sourceAgeMs, a.state[0], a.state[1], a.state[2], a.state[3], a.state[4]]
  }

  function NetworkFields(n: NetworkSnapshot): (v: seq<U64>)
    ensures |v| == 10
  {
    [AvailabilityCode(n.trafficAvailability), n.trafficAgeMs, RouteCode(n.routeKind), if n.viaTunnel then 1 else 0,
     n.rxBytesPerS, n.txBytesPerS, ContextCode(n.contextAvailability), n.contextAgeMs, CoverageCode(n.coverage),
     n.channel]
  }

  function MacBytes(m: Option<Mac>): (b: seq<Byte>)
    ensures |b| <= 6
  {
    if m.Some? then m.value else []
  }

  function LinkBytes(links: seq<RouteKind>): (b: seq<Byte>)
    ensures |b| == |links|
  {
    seq(|links|, i requires 0 <= i < |links| => RouteCode(links[i]))
  }

  function EncByteEntry(key: U64, b: seq<Byte>): seq<Byte>
    requires |b| <= U64_MAX
  {
    EncUint(0, key) + EncBytes(b)
  }

  /** The network group's byte strings, then the links if it reports any. */
  function EncNetworkStrings(n: NetworkSnapshot): seq<Byte>
    requires n.IsValid()
  {
    EncByteEntry(10, MacBytes(n.station))
    + (EncByteEntry(11, n.ssid)
       + (EncByteEntry(12, MacBytes(n.bssid))
          + (if n.links.Some? then EncByteEntry(13, LinkBytes(n.links.value)) else [])))
  }

  /** A group map of unsigned fields. */
  function EncGroup(values: seq<U64>): seq<Byte>
    requires |values| < 24
  {
    MapHead(|values|) + EncFields(values, 0)
  }

  function EncNetwork(n: NetworkSnapshot): seq<Byte>
    requires n.IsValid()
  {
    MapHead(13 + Present(n.links)) + (EncFields(NetworkFields(n), 0) + EncNetworkStrings(n))
  }

  /** What `encode_groups` refuses to send. CPU utilization is not among its checks. */
  predicate Encodable(s: Snapshot) {
    && (s.ram.Some? ==> s.ram.value.usedBytes <= s.ram.value.totalBytes)
    && (s.storage.Some? ==> s.storage.value.availableBytes <= s.storage.value.totalBytes)
    && (s.battery.Some? ==>
          s.battery.value.chargePerMille <= 1000 && s.battery.value.maxCapacityPerMille <= 1000
          && s.battery.value.state <= 4 && s.battery.value.condition <= 3)
    && (s.agents.Some? ==> forall x <- s.agents.value.state :: x <= 3)
    && (s.network.Some? ==> s.network.value.IsValid())
  }

  function GroupCount(s: Snapshot): nat {
    Present(s.ram) + Present(s.storage) + Present(s.battery) + Present(s.agents) + Present(s.network)
  }

  function EncRamGroup(s: Snapshot): seq<Byte> {
    if s.ram.Some? then EncUint(0, 5) + EncGroup(RamFields(s.ram.value)) else []
  }

  function EncStorageGroup(s: Snapshot): seq<Byte> {
    if s.storage.Some? then EncUint(0, 6) + EncGroup(StorageFields(s.storage.value)) else []
  }

  function EncBatteryGroup(s: Snapshot): seq<Byte> {
    if s.battery.Some? then EncUint(0, 7) + EncGroup(BatteryFields(s.battery.value)) else []
  }

  function EncAgentsGroup(s: Snapshot): seq<Byte> {
    if s.agents.Some? then EncUint(0, 8) + EncGroup(AgentsFields(s.agents.value)) else []
  }

  function EncNetworkGroup(s: Snapshot): seq<Byte>
    requires Encodable(s)
  {
    if s.network.Some? then EncUint(0, 9) + EncNetwork(s.network.value) else []
  }

  function EncSnapshotBody(s: Snapshot): seq<Byte>
    requires Encodable(s)
  {
    MapHead(5 + GroupCount(s))
    + (EncFields(CpuFields(s.cpu), 0)
       + (EncRamGroup(s) + (EncStorageGroup(s) + (EncBatteryGroup(s) + (EncAgentsGroup(s) + EncNetworkGroup(s))))))
  }

  predicate OffsetInRange(e: Envelope) {
    e.localOffsetMinutes.Some? ==> -1440 <= e.localOffsetMinutes.value <= 1440
  }

  function BiasedOffset(e: Envelope): Option<U64>
    requires OffsetInRange(e)
  {
    if e.localOffsetMinutes.Some? then Some(e.localOffsetMinutes.value + 1440) else None
  }

  /** The envelope map around a body: keys 0 to 5, then the optional 6 to 8. */
  function EncContent(e: Envelope, body: seq<Byte>): seq<Byte>
    requires OffsetInRange(e)
  {
    MapHead(6 + Present(e.utcMs) + Present(e.utcUncertaintyMs) + Present(e.localOffsetMinutes))
    + (EncFields([e.major, e.minor, TypeCode(e.kind)], 0)
       + (EncByteEntry(3, e.session) + (EncEntry(4, e.sequence) + (EncUint(0, 5) + (body + EncTimes(e))))))
  }

  /** The optional wall-clock entries, keys 6 to 8. */
  function EncTimes(e: Envelope): seq<Byte>
    requires OffsetInRange(e)
  {
    EncOptional(6, e.utcMs) + (EncOptional(7, Widen(e.utcUncertaintyMs)) + EncOptional(8, BiasedOffset(e)))
  }

  /** Length, content and checksum. */
  function Frame(c: seq<Byte>): seq<Byte> {
    ToBe(|c| + 4, 2) + c + ToBe(Crc32(c), 4)
  }

  function Seal(e: Envelope, body: seq<Byte>): Result<seq<Byte>, Error> {
    if !OffsetInRange(e) then Err(Malformed)
    else if |EncContent(e, body)| + 6 > MAX_FRAME_BYTES then Err(TooLarge)
    else Ok(Frame(EncContent(e, body)))
  }

  function EncodeGroups(e: Envelope, s: Snapshot): Result<seq<Byte>, Error> {
    if !Encodable(s) then Err(Malformed) else Seal(e, EncSnapshotBody(s))
  }

  const MAX_CONTROL_BODY := 512

  predicate SixDigits(code: int) { 100_000 <= code <= 999_999 }

  /** The body bytes of a control message, unless the envelope's type or a value is wrong. */
  function EncControlBody(kind: MessageType, b: ControlBody): Option<seq<Byte>> {
    match b
    case Hello(h) => if kind == HelloType then Some(EncHello(h)) else None
    case HelloReply(h) => if kind == HelloReplyType then Some(EncHello(h)) else None
    case Pair(p) => if kind == PairType && SixDigits(p.matchingCode) then Some(EncPair(p)) else None
    case Command(c) =>
      if kind == CommandType then Some(EncGroup([c.commandIdentity, OperationCode(c.operation)])) else None
    case CommandReply(r) =>
      if kind == CommandReplyType
      then Some(EncGroup([r.commandIdentity, OperationCode(r.operation), ResultCode(r.result)])) else None
    case ErrorReport(bytes) =>
      if kind == ErrorType && |bytes| <= MAX_CONTROL_BODY - 3 then Some(EncBytes(bytes)) else None
  }

  function EncHello(h: HelloBody): seq<Byte> {
    MapHead(4 + Present(h.utcMs) + Present(h.utcUncertaintyMs))
    + (EncFields([h.supportedMajor, h.supportedMinor, h.capabilities, h.configurationRevision], 0)
       + (EncOptional(4, h.utcMs) + EncOptional(5, Widen(h.utcUncertaintyMs))))
  }

  function EncPair(p: PairBody): seq<Byte> {
    MapHead(3)
    + (EncByteEntry(0, p.pairingIdentity) + (EncByteEntry(1, p.intendedPeerIdentity) + EncEntry(2, p.matchingCode)))
  }

  function EncodeControl(e: Envelope, b: ControlBody): Result<seq<Byte>, Error> {
    match EncControlBody(e.kind, b)
    case None => Err(Malformed)
    case Some(body) => if |body| > MAX_CONTROL_BODY then Err(TooLarge) else Seal(e, body)
  }
}
