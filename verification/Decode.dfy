/** The decoders: group maps, snapshot and control bodies, and the envelope. */
module Decode {
  import opened Basics
  import opened Cbor
  import opened Crc
  import opened Messages

  type Slots = seq<Option<U64>>

  // ---- maps of unsigned fields ----

  function Empty(n: nat): Slots { seq(n, _ => None) }

  predicate Complete(slots: Slots) { forall o <- slots :: o.Some? }

  function Values(slots: Slots): (v: seq<U64>)
    requires Complete(slots)
    ensures |v| == |slots|
  {
    seq(|slots|, i requires 0 <= i < |slots| => slots[i].value)
  }

  /** One entry of a field map: a known key once, an unknown key skipped. */
  function FieldEntry(s: seq<Byte>, slots: Slots): (r: Parse<Slots>)
    ensures r.Got? ==> |r.value| == |slots|
  {
    var key := ReadUint(s, 0);
    if key.Fail? then Fail
    else if key.value >= |slots| then
      var after := SkipValue(key.rest, 0);
      if after.None? then Fail else Got(slots, after.value)
    else if slots[key.value].Some? then Fail
    else
      var value := ReadUint(key.rest, 0);
      if value.Fail? then Fail else Got(slots[key.value := Some(value.value)], value.rest)
  }

  function FieldEntries(s: seq<Byte>, count: nat, slots: Slots): (r: Parse<Slots>)
    ensures r.Got? ==> |r.value| == |slots|
    decreases count
  {
    if count == 0 then Got(slots, s)
    else
      var first := FieldEntry(s, slots);
      if first.Fail? then Fail else FieldEntries(first.rest, count - 1, first.value)
  }

  /** A group map in which keys 0 to `n - 1` are all required. */
  function ReadFields(s: seq<Byte>, n: nat): (r: Parse<seq<U64>>)
    ensures r.Got? ==> |r.value| == n
  {
    var count := ReadUint(s, 5);
    if count.Fail? || count.value > MAX_ITEMS then Fail
    else
      var slots := FieldEntries(count.rest, count.value, Empty(n));
      if slots.Fail? || !Complete(slots.value) then Fail else Got(Values(slots.value), slots.rest)
  }

  function RamFrom(v: seq<U64>): Option<RamSnapshot>
    requires |v| == 5
  {
    if v[1] > v[2] || v[3] > U32_MAX || AvailabilityFrom(v[0]).None? || FreshnessFrom(v[4]).None? then None
    else Some(RamSnapshot(AvailabilityFrom(v[0]).value, v[1], v[2], v[3], FreshnessFrom(v[4]).value))
  }

  function StorageFrom(v: seq<U64>): Option<StorageSnapshot>
    requires |v| == 8
  {
    if v[2] > v[1] || v[3] > U32_MAX || v[7] > U32_MAX
       || AvailabilityFrom(v[0]).None? || AvailabilityFrom(v[4]).None? then None
    else Some(StorageSnapshot(AvailabilityFrom(v[0]).value, v[1], v[2], v[3], AvailabilityFrom(v[4]).value,
                              v[5], v[6], v[7]))
  }

  function BatteryFrom(v: seq<U64>): Option<BatterySnapshot>
    requires |v| == 10
  {
    if v[1] > 1000 || v[2] > 4 || v[3] > 0xFFFF || v[4] > U32_MAX || v[6] > 1000 || v[7] > 3 || v[8] > 0xFFFF
       || v[9] > U32_MAX || AvailabilityFrom(v[0]).None? || AvailabilityFrom(v[5]).None? then None
    else Some(BatterySnapshot(AvailabilityFrom(v[0]).value, v[1], v[2], v[3], v[4], AvailabilityFrom(v[5]).value,
                              v[6], v[7], v[8], v[9]))
  }

  function AgentsFrom(v: seq<U64>): Option<AgentsSnapshot>
    requires |v| == 7
  {
    if v[1] > U32_MAX || v[2] > 3 || v[3] > 3 || v[4] > 3 || v[5] > 3 || v[6] > 3 || AvailabilityFrom(v[0]).None?
    then None
    else Some(AgentsSnapshot(AvailabilityFrom(v[0]).value, v[1], [v[2], v[3], v[4], v[5], v[6]]))
  }

  /** A group: its field map and the checks on the values together. */
  function ReadGroup<T>(s: seq<Byte>, n: nat, from: seq<U64> --> Option<T>): Parse<T>
    requires forall v: seq<U64> | |v| == n :: from.requires(v)
  {
    var fields := ReadFields(s, n);
    if fields.Fail? || from(fields.value).None? then Fail else Got(from(fields.value).value, fields.rest)
  }

  // ---- the network group: unsigned fields, then byte strings ----

  datatype NetworkSlots = NetworkSlots(fields: Slots, strings: seq<Option<seq<Byte>>>, links: Option<seq<Byte>>)
  {
    predicate Shaped() { |fields| == 10 && |strings| == 3 }
  }

  function NetworkEntry(s: seq<Byte>, acc: NetworkSlots): (r: Parse<NetworkSlots>)
    requires acc.Shaped()
    ensures r.Got? ==> r.value.Shaped()
  {
    var key := ReadUint(s, 0);
    if key.Fail? then Fail
    else if key.value > 13 then
      var after := SkipValue(key.rest, 0);
      if after.None? then Fail else Got(acc, after.value)
    else if key.value == 13 then
      var b := ReadByteString(key.rest, MAX_FRAME_BYTES);
      if acc.links.Some? || b.Fail? then Fail else Got(acc.(links := Some(b.value)), b.rest)
    else if key.value >= 10 then
      var b := ReadByteString(key.rest, MAX_FRAME_BYTES);
      if acc.strings[key.value - 10].Some? || b.Fail? then Fail
      else Got(acc.(strings := acc.strings[key.value - 10 := Some(b.value)]), b.rest)
    else
      var field := FieldEntry(s, acc.fields);
      if field.Fail? then Fail else Got(acc.(fields := field.value), field.rest)
  }

  function NetworkEntries(s: seq<Byte>, count: nat, acc: NetworkSlots): (r: Parse<NetworkSlots>)
    requires acc.Shaped()
    ensures r.Got? ==> r.value.Shaped()
    decreases count
  {
    if count == 0 then Got(acc, s)
    else
      var first := NetworkEntry(s, acc);
      if first.Fail? then Fail else NetworkEntries(first.rest, count - 1, first.value)
  }

  function MacFrom(b: seq<Byte>): Option<Option<Mac>> {
    if |b| == 0 then Some(None) else if |b| == 6 then Some(Some(b)) else None
  }

  function LinksFrom(b: seq<Byte>): (r: Option<seq<RouteKind>>) {
    if forall k <- b :: 1 <= k <= 3 then Some(seq(|b|, i requires 0 <= i < |b| => RouteFrom(b[i]))) else None
  }

  function NetworkFrom(acc: NetworkSlots): (r: Option<NetworkSnapshot>)
    requires acc.Shaped()
    ensures r.Some? ==> r.value.IsValid()
  {
    if !Complete(acc.fields) || acc.strings[0].None? || acc.strings[1].None? || acc.strings[2].None? then None
    else
      var v := Values(acc.fields);
      var station, bssid := MacFrom(acc.strings[0].value), MacFrom(acc.strings[2].value);
      if v[1] > U32_MAX || v[2] > 4 || v[3] > 1 || v[6] > 6 || v[7] > U32_MAX || v[8] > 2 || v[9] > 0xFF
         || AvailabilityFrom(v[0]).None? || station.None? || bssid.None?
         || (acc.links.Some? && LinksFrom(acc.links.value).None?)
      then None
      else
        var n := NetworkSnapshot(
          AvailabilityFrom(v[0]).value, v[1], RouteFrom(v[2]), v[3] == 1, v[4], v[5], ContextFrom(v[6]), v[7],
          CoverageFrom(v[8]), v[9], station.value, acc.strings[1].value, bssid.value,
          if acc.links.Some? then Some(LinksFrom(acc.links.value).value) else None);
        if n.IsValid() then Some(n) else None
  }

  const NO_NETWORK := NetworkSlots(Empty(10), [None, None, None], None)

  function ReadNetwork(s: seq<Byte>): Parse<NetworkSnapshot> {
    var count := ReadUint(s, 5);
    if count.Fail? || count.value > MAX_ITEMS then Fail
    else
      var acc := NetworkEntries(count.rest, count.value, NO_NETWORK);
      if acc.Fail? || NetworkFrom(acc.value).None? then Fail else Got(NetworkFrom(acc.value).value, acc.rest)
  }

  // ---- the snapshot body ----

  datatype BodySlots = BodySlots(
    cpu: Slots, ram: Option<RamSnapshot>, storage: Option<StorageSnapshot>, battery: Option<BatterySnapshot>,
    agents: Option<AgentsSnapshot>, network: Option<NetworkSnapshot>)

  predicate CpuInRange(key: nat, value: U64) {
    && (key == 0 || key == 3 ==> value <= 0xFF)
    && (key == 1 ==> value <= 1000)
    && (key == 2 || key == 4 ==> value <= U32_MAX)
  }

  function BodyEntry(s: seq<Byte>, acc: BodySlots): (r: Parse<BodySlots>)
    requires |acc.cpu| == 5
    ensures r.Got? ==> |r.value.cpu| == 5
  {
    var key := ReadUint(s, 0);
    if key.Fail? then Fail
    else if key.value == 5 then
      var g := ReadGroup(key.rest, 5, RamFrom);
      if acc.ram.Some? || g.Fail? then Fail else Got(acc.(ram := Some(g.value)), g.rest)
    else if key.value == 6 then
      var g := ReadGroup(key.rest, 8, StorageFrom);
      if acc.storage.Some? || g.Fail? then Fail else Got(acc.(storage := Some(g.value)), g.rest)
    else if key.value == 7 then
      var g := ReadGroup(key.rest, 10, BatteryFrom);
      if acc.battery.Some? || g.Fail? then Fail else Got(acc.(battery := Some(g.value)), g.rest)
    else if key.value == 8 then
      var g := ReadGroup(key.rest, 7, AgentsFrom);
      if acc.agents.Some? || g.Fail? then Fail else Got(acc.(agents := Some(g.value)), g.rest)
    else if key.value == 9 then
      var g := ReadNetwork(key.rest);
      if acc.network.Some? || g.Fail? then Fail else Got(acc.(network := Some(g.value)), g.rest)
    else
      var field := FieldEntry(s, acc.cpu);
      if field.Fail? || (key.value <= 4 && !CpuInRange(key.value, field.value[key.value].value)) then Fail
      else Got(acc.(cpu := field.value), field.rest)
  }

  function BodyEntries(s: seq<Byte>, count: nat, acc: BodySlots): (r: Parse<BodySlots>)
    requires |acc.cpu| == 5
    ensures r.Got? ==> |r.value.cpu| == 5
    decreases count
  {
    if count == 0 then Got(acc, s)
    else
      var first := BodyEntry(s, acc);
      if first.Fail? then Fail else BodyEntries(first.rest, count - 1, first.value)
  }

  function SnapshotFrom(acc: BodySlots): Option<Snapshot>
    requires |acc.cpu| == 5
  {
    if !Complete(acc.cpu) then None
    else
      var v := Values(acc.cpu);
      if AvailabilityFrom(v[0]).None? || v[1] > 1000 || v[2] > U32_MAX || FreshnessFrom(v[3]).None?
         || v[4] > U32_MAX then None
      else
        var cpu := CpuSnapshot(AvailabilityFrom(v[0]).value, v[1], v[2], FreshnessFrom(v[3]).value, v[4]);
        Some(Snapshot(cpu, acc.ram, acc.storage, acc.battery, acc.agents, acc.network))
  }

  const NO_BODY := BodySlots(Empty(5), None, None, None, None, None)

  function DecodeSnapshotBody(body: seq<Byte>): Option<Snapshot> {
    var count := ReadUint(body, 5);
    if count.Fail? || count.value > 10 then None
    else
      var acc := BodyEntries(count.rest, count.value, NO_BODY);
      if acc.Fail? || acc.rest != [] then None else SnapshotFrom(acc.value)
  }

  // ---- control bodies ----

  datatype ControlSlots = ControlSlots(prior: Option<U64>, fields: Slots, identities: seq<Option<Identity>>)
  {
    predicate Shaped() { |fields| == 6 && |identities| == 2 }
  }

  /** The last key a control body of this type knows; higher keys are optional and skipped. */
  function KnownMax(kind: MessageType): nat {
    match kind
    case HelloType => 5
    case HelloReplyType => 5
    case PairType => 2
    case CommandReplyType => 2
    case _ => 1
  }

  function ControlEntry(s: seq<Byte>, kind: MessageType, acc: ControlSlots): (r: Parse<ControlSlots>)
    requires acc.Shaped()
    ensures r.Got? ==> r.value.Shaped()
  {
    var key := ReadUint(s, 0);
    if key.Fail? || (acc.prior.Some? && key.value <= acc.prior.value) then Fail
    else
      var next := acc.(prior := Some(key.value));
      if key.value > KnownMax(kind) then
        var after := SkipValue(key.rest, 0);
        if after.None? then Fail else Got(next, after.value)
      else if kind == PairType && key.value < 2 then
        var id := ReadExact(key.rest, 16);
        if id.Fail? then Fail else Got(next.(identities := acc.identities[key.value := Some(id.value)]), id.rest)
      else
        var field := ReadUint(key.rest, 0);
        if field.Fail? then Fail else Got(next.(fields := acc.fields[key.value := Some(field.value)]), field.rest)
  }

  function ControlEntries(s: seq<Byte>, kind: MessageType, count: nat, acc: ControlSlots): (r: Parse<ControlSlots>)
    requires acc.Shaped()
    ensures r.Got? ==> r.value.Shaped()
    decreases count
  {
    if count == 0 then Got(acc, s)
    else
      var first := ControlEntry(s, kind, acc);
      if first.Fail? then Fail else ControlEntries(first.rest, kind, count - 1, first.value)
  }

  predicate Below(o: Option<U64>, max: nat) { o.Some? && o.value <= max }

  function HelloFrom(f: Slots): Option<HelloBody>
    requires |f| == 6
  {
    if Below(f[0], 0xFF) && Below(f[1], 0xFF) && Below(f[2], U32_MAX) && Below(f[3], U32_MAX)
       && (f[5].Some? ==> f[5].value <= U32_MAX)
    then Some(HelloBody(f[0].value, f[1].value, f[2].value, f[3].value, f[4],
                        if f[5].Some? then Some(f[5].value) else None))
    else None
  }

  function ControlFrom(kind: MessageType, acc: ControlSlots): Option<ControlBody>
    requires acc.Shaped()
  {
    var f := acc.fields;
    match kind
    case HelloType => if HelloFrom(f).Some? then Some(Hello(HelloFrom(f).value)) else None
    case HelloReplyType => if HelloFrom(f).Some? then Some(HelloReply(HelloFrom(f).value)) else None
    case PairType =>
      if Below(f[2], U32_MAX) && SixDigits(f[2].value) && acc.identities[0].Some? && acc.identities[1].Some?
      then Some(Pair(PairBody(acc.identities[0].value, acc.identities[1].value, f[2].value))) else None
    case CommandType =>
      if Below(f[0], U32_MAX) && f[1].Some? && OperationFrom(f[1].value).Some?
      then Some(Command(CommandBody(f[0].value, OperationFrom(f[1].value).value))) else None
    case CommandReplyType =>
      if Below(f[0], U32_MAX) && f[1].Some? && OperationFrom(f[1].value).Some?
         && f[2].Some? && ResultFrom(f[2].value).Some?
      then Some(CommandReply(CommandReplyBody(f[0].value, OperationFrom(f[1].value).value,
                                              ResultFrom(f[2].value).value))) else None
    case _ => None
  }

  const NO_CONTROL := ControlSlots(None, Empty(6), [None, None])

  function DecodeControlBody(kind: MessageType, c: seq<Byte>): Option<ControlBody> {
    if kind == ErrorType then
      var len := ReadUint(c, 2);
      if len.Fail? || len.value != |len.rest| then None else Some(ErrorReport(len.rest))
    else if kind == SnapshotType then None
    else
      var count := ReadUint(c, 5);
      if count.Fail? || count.value > MAX_ITEMS then None
      else
        var acc := ControlEntries(count.rest, kind, count.value, NO_CONTROL);
        if acc.Fail? || acc.rest != [] then None else ControlFrom(kind, acc.value)
  }

  // ---- the envelope ----

  datatype EnvelopeSlots = EnvelopeSlots(
    previous: Option<U64>, major: Option<U8>, minor: Option<U8>, kind: Option<U8>, session: Option<Identity>,
    sequence: Option<U32>, body: Option<seq<Byte>>, utcMs: Option<U64>, uncertainty: Option<U32>,
    offset: Option<I16>)

  datatype Step = Next(acc: EnvelopeSlots, rest: seq<Byte>) | Stop(error: Error)

  /** An unsigned value of at most `max`. */
  function ReadBelow(s: seq<Byte>, max: nat): (r: Parse<U64>)
    ensures r.Got? ==> r.value <= max
  {
    var value := ReadUint(s, 0);
    if value.Fail? || value.value > max then Fail else value
  }

  function EnvelopeBody(s: seq<Byte>, acc: EnvelopeSlots): Step {
    if acc.kind.None? || TypeFrom(acc.kind.value).None? then Stop(Malformed)
    else
      var after := SkipBody(s);
      if after.None? then Stop(Malformed)
      else
        var length := |s| - |after.value|;
        if acc.kind.value != TypeCode(SnapshotType) && length > MAX_CONTROL_BODY then Stop(TooLarge)
        else Next(acc.(body := Some(s[..length])), after.value)
  }

  function EnvelopeEntry(s: seq<Byte>, given: EnvelopeSlots): Step {
    var key := ReadUint(s, 0);
    if key.Fail? || (given.previous.Some? && key.value <= given.previous.value) then Stop(Malformed)
    else
      var acc := given.(previous := Some(key.value));
      if key.value == 0 then
        var v := ReadBelow(key.rest, 0xFF);
        if v.Fail? then Stop(Malformed)
        else if v.value != 1 then Stop(UnsupportedMajor)
        else Next(acc.(major := Some(v.value)), v.rest)
      else if key.value == 1 then
        var v := ReadBelow(key.rest, 0xFF);
        if v.Fail? then Stop(Malformed) else Next(acc.(minor := Some(v.value)), v.rest)
      else if key.value == 2 then
        var v := ReadBelow(key.rest, 0xFF);
        if v.Fail? then Stop(Malformed) else Next(acc.(kind := Some(v.value)), v.rest)
      else if key.value == 3 then
        var v := ReadExact(key.rest, 16);
        if v.Fail? then Stop(Malformed) else Next(acc.(session := Some(v.value)), v.rest)
      else if key.value == 4 then
        var v := ReadBelow(key.rest, U32_MAX);
        if v.Fail? then Stop(Malformed) else Next(acc.(sequence := Some(v.value)), v.rest)
      else if key.value == 5 then EnvelopeBody(key.rest, acc)
      else if key.value == 6 then
        var v := ReadUint(key.rest, 0);
        if v.Fail? then Stop(Malformed) else Next(acc.(utcMs := Some(v.value)), v.rest)
      else if key.value == 7 then
        var v := ReadBelow(key.rest, U32_MAX);
        if v.Fail? then Stop(Malformed) else Next(acc.(uncertainty := Some(v.value)), v.rest)
      else if key.value == 8 then
        var v := ReadBelow(key.rest, 2880);
        if v.Fail? then Stop(Malformed) else Next(acc.(offset := Some(v.value - 1440)), v.rest)
      else
        var after := SkipValue(key.rest, 0);
        if after.None? then Stop(Malformed) else Next(acc, after.value)
  }

  function EnvelopeEntries(s: seq<Byte>, count: nat, acc: EnvelopeSlots): Step
    decreases count
  {
    if count == 0 then Next(acc, s)
    else
      var first := EnvelopeEntry(s, acc);
      if first.Stop? then first else EnvelopeEntries(first.rest, count - 1, first.acc)
  }

  const NO_ENVELOPE := EnvelopeSlots(None, None, None, None, None, None, None, None, None, None)

  function EnvelopeFrom(a: EnvelopeSlots): Option<(Envelope, seq<Byte>)> {
    if a.major.None? || a.minor.None? || a.kind.None? || TypeFrom(a.kind.value).None? || a.session.None?
       || a.sequence.None? || a.body.None? then None
    else Some((Envelope(1, a.minor.value, TypeFrom(a.kind.value).value, a.session.value, a.sequence.value,
                        a.utcMs, a.uncertainty, a.offset),
               a.body.value))
  }

  function ParseContent(c: seq<Byte>): Result<(Envelope, seq<Byte>), Error> {
    var count := ReadUint(c, 5);
    if count.Fail? || count.value > MAX_ITEMS then Err(Malformed)
    else
      var last := EnvelopeEntries(count.rest, count.value, NO_ENVELOPE);
      if last.Stop? then Err(last.error)
      else if last.rest != [] || EnvelopeFrom(last.acc).None? then Err(Malformed)
      else Ok(EnvelopeFrom(last.acc).value)
  }

  /** What is wrong with a frame's length or checksum, if anything. */
  function FrameError(frame: seq<Byte>): Option<Error> {
    var n := |frame|;
    if n < 7 then Some(Truncated)
    else if FromBe(frame[..2]) > MAX_FRAME_BYTES - 2 then Some(TooLarge)
    else if FromBe(frame[..2]) + 2 != n then Some(Truncated)
    else if Crc32(frame[2..n - 4]) != FromBe(frame[n - 4..]) then Some(BadCrc)
    else None
  }

  function ParseEnvelope(frame: seq<Byte>): Result<(Envelope, seq<Byte>), Error> {
    match FrameError(frame)
    case Some(e) => Err(e)
    case None => ParseContent(frame[2..|frame| - 4])
  }

  /** `decode`: the body decoder follows the envelope's type. */
  function DecodeFrame(frame: seq<Byte>): Result<Message, Error> {
    match ParseEnvelope(frame)
    case Err(e) => Err(e)
    case Ok((envelope, body)) =>
      if envelope.kind == SnapshotType then
        match DecodeSnapshotBody(body)
        case None => Err(Malformed)
        case Some(s) => Ok(SnapshotMessage(envelope, s))
      else
        match DecodeControlBody(envelope.kind, body)
        case None => Err(Malformed)
        case Some(b) => Ok(ControlMessage(envelope, b))
  }
}
