/** What the encoder puts on the wire, byte by byte, as the protocol's own document lays it down: heads, frames,
    and the key of every field. The round trips say that the decoder reads it back. */
module WireFormat {
  import opened Basics
  import opened Cbor
  import opened Crc
  import opened Messages

  // ---- numbers, high byte first ----

  lemma OneByte(v: Byte)
    ensures ToBe(v, 1) == [v]
  {
  }

  lemma TwoBytes(v: nat)
    requires v <= 0xFFFF
    ensures ToBe(v, 2) == [v / 0x100, v % 0x100]
  {
    OneByte(v / 0x100);
  }

  lemma FourBytes(v: U32)
    ensures ToBe(v, 4) == [v / 0x100_0000, v / 0x1_0000 % 0x100, v / 0x100 % 0x100, v % 0x100]
  {
    var w := v / 0x100;
    var h := w / 0x100;
    assert h == v / 0x1_0000 && h / 0x100 == v / 0x100_0000;
    TwoBytes(h);
    BeStep(w, 2);
    BeStep(v, 3);
    hide ToBe;
  }

  lemma BeStep(v: nat, n: nat)
    ensures ToBe(v, n + 1) == ToBe(v / 0x100, n) + [v % 0x100]
  {
  }

  /** Eight bytes are two times four. */
  lemma EightBytes(v: U64)
    ensures v / 0x1_0000_0000 <= U32_MAX
    ensures ToBe(v, 8) == ToBe(v / 0x1_0000_0000, 4) + ToBe(v % 0x1_0000_0000, 4)
  {
    BeSplits(v / 0x1_0000_0000, v % 0x1_0000_0000, 4);
    Powers256();
  }

  lemma {:induction false} BeSplits(h: nat, l: nat, n: nat)
    requires l < Pow256(n)
    ensures ToBe(h * Pow256(n) + l, 4 + n) == ToBe(h, 4) + ToBe(l, n)
  {
    if n == 0 {
      assert h * 1 == h;
      assert ToBe(h, 4) + [] == ToBe(h, 4);
    } else {
      var p := h * Pow256(n - 1);
      assert h * Pow256(n) == 0x100 * p;
      BeSplits(h, l / 0x100, n - 1);
      BeStep(0x100 * p + l, 3 + n);
      BeStep(l, n - 1);
      hide ToBe, Pow256;
      assert (0x100 * p + l) / 0x100 == p + l / 0x100 && (0x100 * p + l) % 0x100 == l % 0x100;
    }
  }

  /** Section 3.1 of RFC 8949: the major type in the top three bits, then the number in the shortest of five forms. */
  lemma HeadOnWire(major: Major, v: U64)
    ensures
      EncUint(major, v) ==
      if v < 24 then [0x20 * major + v]
      else if v <= 0xFF then [0x20 * major + 0x18, v]
      else if v <= 0xFFFF then [0x20 * major + 0x19, v / 0x100, v % 0x100]
      else if v <= U32_MAX then [0x20 * major + 0x1A, v / 0x100_0000, v / 0x1_0000 % 0x100, v / 0x100 % 0x100, v % 0x100]
      else [0x20 * major + 0x1B] + ToBe(v / 0x1_0000_0000, 4) + ToBe(v % 0x1_0000_0000, 4)
  {
    if 24 <= v <= 0xFF { OneByte(v); }
    if 0xFF < v <= 0xFFFF { TwoBytes(v); }
    if 0xFFFF < v <= U32_MAX { FourBytes(v); }
    if U32_MAX < v { EightBytes(v); }
    hide ToBe;
  }

  // ---- frames ----

  /** A frame starts with its length, which counts content and checksum, and ends with the checksum of the content,
      both high byte first. */
  lemma FrameOnWire(c: seq<Byte>)
    requires |c| <= MAX_FRAME_BYTES - 6
    ensures
      var (n, k) := (|c| + 4, Crc32(c));
      Frame(c) == [n / 0x100, n % 0x100] + c + [k / 0x100_0000, k / 0x1_0000 % 0x100, k / 0x100 % 0x100, k % 0x100]
  {
    hide Crc32, ToBe;
    TwoBytes(|c| + 4);
    FourBytes(Crc32(c));
  }

  // ---- maps ----

  /** A field is its key and its value. */
  function Field(key: nat, value: U64): seq<Byte>
    requires key < 24
  {
    [key] + EncUint(0, value)
  }

  function Fields(key: nat, values: seq<U64>): seq<Byte>
    requires key + |values| <= 24
    decreases |values|
  {
    if values == [] then [] else Field(key, values[0]) + Fields(key + 1, values[1..])
  }

  lemma EntryOnWire(key: nat, value: U64)
    requires key < 24
    ensures EncEntry(key, value) == Field(key, value)
  {
    HeadOnWire(0, key);
    hide ToBe;
  }

  lemma {:induction false} FieldsOnWire(values: seq<U64>, key: nat)
    requires key + |values| <= 24
    ensures EncFields(values, key) == Fields(key, values)
    decreases |values|
  {
    if values != [] {
      EntryOnWire(key, values[0]);
      hide EncUint;
      FieldsOnWire(values[1..], key + 1);
    }
  }

  /** The value at any place of a group is under that key. */
  lemma {:induction false} FieldAt(values: seq<U64>, key: nat, i: nat)
    requires key + |values| <= 24 && i < |values|
    ensures Fields(key, values)
            == Fields(key, values[..i]) + Field(key + i, values[i]) + Fields(key + i + 1, values[i + 1..])
    decreases i
  {
    hide Field;
    if i == 0 {
      assert values[..0] == [];
    } else {
      FieldAt(values[1..], key + 1, i - 1);
      assert values[1..][..i - 1] == values[1..i] && values[..i][1..] == values[1..i] && values[..i][0] == values[0];
      assert values[1..][i..] == values[i + 1..];
    }
  }

  // ---- the metric groups: key, head of a map, and the fields in the documented order ----

  lemma RamOnWire(s: Snapshot, r: RamSnapshot)
    requires s.ram == Some(r)
    ensures EncRamGroup(s) == [0x05, 0xA5] + Fields(0, [
                AvailabilityCode(r.availability), r.usedBytes, r.totalBytes, r.sourceAgeMs, FreshnessCode(r.freshness)])
  {
    FieldsOnWire(RamFields(r), 0);
    hide EncFields, Fields;
  }

  lemma StorageOnWire(s: Snapshot, t: StorageSnapshot)
    requires s.storage == Some(t)
    ensures EncStorageGroup(s) == [0x06, 0xA8] + Fields(0, [
                AvailabilityCode(t.capacityAvailability), t.totalBytes, t.availableBytes, t.capacityAgeMs,
                AvailabilityCode(t.ioAvailability), t.readBytesPerS, t.writeBytesPerS, t.ioAgeMs])
  {
    FieldsOnWire(StorageFields(t), 0);
    hide EncFields, Fields;
  }

  lemma BatteryOnWire(s: Snapshot, b: BatterySnapshot)
    requires s.battery == Some(b)
    ensures EncBatteryGroup(s) == [0x07, 0xAA] + Fields(0, [
                AvailabilityCode(b.chargeAvailability), b.chargePerMille, b.state, b.timeRemainingMin, b.chargeAgeMs,
                AvailabilityCode(b.conditionAvailability), b.maxCapacityPerMille, b.condition, b.cycleCount,
                b.conditionAgeMs])
  {
    FieldsOnWire(BatteryFields(b), 0);
    hide EncFields, Fields;
  }

  lemma AgentsOnWire(s: Snapshot, a: AgentsSnapshot)
    requires s.agents == Some(a)
    ensures EncAgentsGroup(s) == [0x08, 0xA7] + Fields(0, [
                AvailabilityCode(a.availability), a.sourceAgeMs, a.state[0], a.state[1], a.state[2], a.state[3], a.state[4]])
  {
    FieldsOnWire(AgentsFields(a), 0);
    hide EncFields, Fields;
  }

  /** A byte string under a key. */
  function StringField(key: nat, b: seq<Byte>): seq<Byte>
    requires key < 24 && |b| <= U64_MAX
  {
    [key] + EncUint(2, |b|) + b
  }

  lemma StringOnWire(key: nat, b: seq<Byte>)
    requires key < 24 && |b| <= U64_MAX
    ensures EncByteEntry(key, b) == StringField(key, b)
  {
    HeadOnWire(0, key);
    hide ToBe;
  }

  lemma NetworkOnWire(s: Snapshot, n: NetworkSnapshot)
    requires Encodable(s) && s.network == Some(n)
    ensures EncNetworkGroup(s) == [0x09] + ([if n.links.Some? then 0xAE else 0xAD] + (Fields(0, [
                AvailabilityCode(n.trafficAvailability), n.trafficAgeMs, RouteCode(n.routeKind),
                if n.viaTunnel then 1 else 0, n.rxBytesPerS, n.txBytesPerS,
                ContextCode(n.contextAvailability), n.contextAgeMs, CoverageCode(n.coverage), n.channel])
              + EncNetworkStrings(n)))
  {
    FieldsOnWire(NetworkFields(n), 0);
    HeadOnWire(0, 9);
    assert MapHead(13 + Present(n.links)) == [if n.links.Some? then 0xAE else 0xAD];
    hide EncFields, Fields, EncNetworkStrings, EncUint;
  }

  lemma NetworkStringsOnWire(n: NetworkSnapshot)
    requires n.IsValid()
    ensures EncNetworkStrings(n) == StringField(10, if n.station.Some? then n.station.value else [])
              + (StringField(11, n.ssid)
                 + (StringField(12, if n.bssid.Some? then n.bssid.value else [])
                    + (if n.links.Some? then StringField(13, LinkBytes(n.links.value)) else [])))
  {
    StringOnWire(10, MacBytes(n.station));
    StringOnWire(11, n.ssid);
    StringOnWire(12, MacBytes(n.bssid));
    if n.links.Some? { StringOnWire(13, LinkBytes(n.links.value)); }
    hide EncByteEntry, StringField, LinkBytes;
  }

  /** A snapshot: the CPU's five fields, then each group that is there, in the order of its key. */
  lemma SnapshotOnWire(s: Snapshot)
    requires Encodable(s)
    ensures EncSnapshotBody(s) == [0xA5 + GroupCount(s)] + (Fields(0, [
                AvailabilityCode(s.cpu.availability), s.cpu.utilizationPerMille, s.cpu.sourceAgeMs,
                FreshnessCode(s.cpu.freshness), s.cpu.configurationRevision])
              + (EncRamGroup(s) + (EncStorageGroup(s) + (EncBatteryGroup(s) + (EncAgentsGroup(s) + EncNetworkGroup(s))))))
  {
    FieldsOnWire(CpuFields(s.cpu), 0);
    hide EncFields, Fields, EncRamGroup, EncStorageGroup, EncBatteryGroup, EncAgentsGroup, EncNetworkGroup;
  }

  // ---- the control bodies ----

  function OptionalField(key: nat, value: Option<U64>): seq<Byte>
    requires key < 24
  {
    if value.Some? then Field(key, value.value) else []
  }

  lemma HelloOnWire(h: HelloBody)
    ensures EncHello(h) == [0xA4 + Present(h.utcMs) + Present(h.utcUncertaintyMs)]
              + (Fields(0, [h.supportedMajor, h.supportedMinor, h.capabilities, h.configurationRevision])
                 + (OptionalField(4, h.utcMs) + OptionalField(5, Widen(h.utcUncertaintyMs))))
  {
    FieldsOnWire([h.supportedMajor, h.supportedMinor, h.capabilities, h.configurationRevision], 0);
    if h.utcMs.Some? { EntryOnWire(4, h.utcMs.value); }
    if h.utcUncertaintyMs.Some? { EntryOnWire(5, h.utcUncertaintyMs.value); }
    hide EncFields, Fields, EncEntry, Field;
  }

  lemma PairOnWire(p: PairBody)
    ensures EncPair(p) == [0xA3] + (StringField(0, p.pairingIdentity)
              + (StringField(1, p.intendedPeerIdentity) + Field(2, p.matchingCode)))
  {
    StringOnWire(0, p.pairingIdentity);
    StringOnWire(1, p.intendedPeerIdentity);
    EntryOnWire(2, p.matchingCode);
    hide EncByteEntry, StringField, EncEntry, Field;
  }

  lemma CommandsOnWire(id: U32, operation: CommandOperation, result: CommandResult)
    ensures EncGroup([id, OperationCode(operation)]) == [0xA2] + Fields(0, [id, if operation == Unpair then 1 else 2])
    ensures EncGroup([id, OperationCode(operation), ResultCode(result)])
            == [0xA3] + Fields(0, [id, if operation == Unpair then 1 else 2,
                                   if result == Applied then 0 else if result == AlreadyApplied then 1 else 2])
  {
    FieldsOnWire([id, OperationCode(operation)], 0);
    FieldsOnWire([id, OperationCode(operation), ResultCode(result)], 0);
    hide EncFields, Fields;
  }

  lemma CodesOnWire()
    ensures TypeCode(HelloType) == 1 && TypeCode(HelloReplyType) == 2 && TypeCode(PairType) == 3
    ensures TypeCode(SnapshotType) == 4 && TypeCode(CommandType) == 5 && TypeCode(CommandReplyType) == 6
    ensures TypeCode(ErrorType) == 7
    ensures AvailabilityCode(Available) == 0 && AvailabilityCode(Unsupported) == 1 && AvailabilityCode(Absent) == 2
    ensures AvailabilityCode(TemporarilyUnavailable) == 3 && AvailabilityCode(AvailabilityError) == 4
    ensures FreshnessCode(Fresh) == 0 && FreshnessCode(Stale) == 1
    ensures RouteCode(UnknownRoute) == 0 && RouteCode(Wifi) == 1 && RouteCode(Ethernet) == 2
    ensures RouteCode(OtherLink) == 3 && RouteCode(NoRoute) == 4
    ensures CoverageCode(UnknownCoverage) == 0 && CoverageCode(Observable) == 1 && CoverageCode(OutsideSupported) == 2
    ensures ContextCode(ContextAvailable) == 0 && ContextCode(PermissionNotRequested) == 1 && ContextCode(Denied) == 2
    ensures ContextCode(Restricted) == 3 && ContextCode(AuthorizedUnavailable) == 4
    ensures ContextCode(ContextUnsupported) == 5 && ContextCode(ContextError) == 6
  {
  }

  // ---- the envelope ----

  lemma TimesOnWire(e: Envelope)
    requires OffsetInRange(e)
    ensures EncTimes(e) == OptionalField(6, e.utcMs) + (OptionalField(7, Widen(e.utcUncertaintyMs))
              + (if e.localOffsetMinutes.Some? then Field(8, e.localOffsetMinutes.value + 1440) else []))
  {
    if e.utcMs.Some? { EntryOnWire(6, e.utcMs.value); }
    if e.utcUncertaintyMs.Some? { EntryOnWire(7, e.utcUncertaintyMs.value); }
    if e.localOffsetMinutes.Some? { EntryOnWire(8, e.localOffsetMinutes.value + 1440); }
    hide EncEntry, Field;
  }

  /** Keys 0 to 4, the body under key 5, then the optional times, the offset biased by a day. */
  lemma EnvelopeOnWire(e: Envelope, body: seq<Byte>)
    requires OffsetInRange(e)
    ensures EncContent(e, body) == [0xA6 + Present(e.utcMs) + Present(e.utcUncertaintyMs) + Present(e.localOffsetMinutes)]
              + (Fields(0, [e.major, e.minor, TypeCode(e.kind)])
                 + (StringField(3, e.session) + (Field(4, e.sequence) + ([0x05] + (body + EncTimes(e))))))
  {
    var n := 6 + Present(e.utcMs) + Present(e.utcUncertaintyMs) + Present(e.localOffsetMinutes);
    assert MapHead(n) == [0xA0 + n];
    FieldsOnWire([e.major, e.minor, TypeCode(e.kind)], 0);
    StringOnWire(3, e.session);
    EntryOnWire(4, e.sequence);
    HeadOnWire(0, 5);
    hide EncFields, Fields, EncByteEntry, StringField, EncEntry, Field, EncUint, MapHead, EncTimes, TypeCode;
  }

  // ---- the vector that ships with the protocol ----

  const COUNTING: Identity := [0, 1, 2, 3, 4, 5, 6, 7, 8, 9, 10, 11, 12, 13, 14, 15]

  const GOLDEN := Snapshot(CpuSnapshot(Available, 723, 1000, Fresh, 4), None, None, None, None, None)

  lemma FieldsStep(key: nat, value: U64, rest: seq<U64>)
    requires key + 1 + |rest| <= 24
    ensures Fields(key, [value] + rest) == Field(key, value) + Fields(key + 1, rest)
  {
    assert ([value] + rest)[1..] == rest;
    hide Field;
  }

  lemma GoldenFields()
    ensures Fields(0, [0, 723, 1000, 0, 4]) == [0x00, 0x00] + ([0x01, 0x19, 0x02, 0xD3] + ([0x02, 0x19, 0x03, 0xE8]
                                               + ([0x03, 0x00] + [0x04, 0x04])))
  {
    GoldenNumbers();
    hide EncUint, Fields;
    FieldsStep(4, 4, []);
    FieldsStep(3, 0, [4]);
    FieldsStep(2, 1000, [0, 4]);
    FieldsStep(1, 723, [1000, 0, 4]);
    FieldsStep(0, 0, [723, 1000, 0, 4]);
    NoFields();
    assert [4] + [] == [4] && [0] + [4] == [0, 4] && [1000] + [0, 4] == [1000, 0, 4];
    assert [723] + [1000, 0, 4] == [723, 1000, 0, 4] && [0] + [723, 1000, 0, 4] == [0, 723, 1000, 0, 4];
  }

  lemma NoFields()
    ensures Fields(5, []) == []
  {
  }

  lemma GoldenNumbers()
    ensures Field(0, 0) == [0x00, 0x00] && Field(1, 723) == [0x01, 0x19, 0x02, 0xD3]
    ensures Field(2, 1000) == [0x02, 0x19, 0x03, 0xE8] && Field(3, 0) == [0x03, 0x00] && Field(4, 4) == [0x04, 0x04]
  {
    HeadOnWire(0, 0);
    HeadOnWire(0, 723);
    HeadOnWire(0, 1000);
    HeadOnWire(0, 4);
    hide EncUint, ToBe;
  }

  /** cpu-snapshot-v1.hex: 72.3% of the CPU, measured a second ago and fresh, revision 4. */
  lemma GoldenBody()
    ensures EncSnapshotBody(GOLDEN)
            == [0xA5] + ([0x00, 0x00] + ([0x01, 0x19, 0x02, 0xD3] + ([0x02, 0x19, 0x03, 0xE8]
                         + ([0x03, 0x00] + [0x04, 0x04]))))
  {
    SnapshotOnWire(GOLDEN);
    GoldenFields();
    hide EncSnapshotBody, Fields;
    var f := Fields(0, [0, 723, 1000, 0, 4]);
    assert f + ([] + ([] + ([] + ([] + [])))) == f;
  }
}
