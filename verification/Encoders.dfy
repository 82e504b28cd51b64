/** The encoders as they run: bytes are pushed onto a buffer. Each method writes
    what its specification in `Messages` says. */
module Encoders {
  import opened Basics
  import opened Cbor
  import opened Crc
  import opened Messages

  /** `uint`: the shortest head for a value, by cases on its size. */
  method PushUint(given: seq<Byte>, major: Major, value: U64) returns (out: seq<Byte>)
    ensures out == given + EncUint(major, value)
  {
    out := given;
    if value < 24 {
      out := out + [32 * major + value];
    } else if value <= 0xFF {
      out := out + [32 * major + 24] + ToBe(value, 1);
    } else if value <= 0xFFFF {
      out := out + [32 * major + 25] + ToBe(value, 2);
    } else if value <= U32_MAX {
      out := out + [32 * major + 26] + ToBe(value, 4);
    } else {
      out := out + [32 * major + 27] + ToBe(value, 8);
    }
  }

  /** The loop over `(key, value)` pairs with consecutive keys. */
  method PushFields(given: seq<Byte>, values: seq<U64>) returns (out: seq<Byte>)
    requires |values| <= 24
    ensures out == given + EncFields(values, 0)
  {
    hide EncUint;
    out := given;
    assert values[0..] == values;
    for k := 0 to |values|
      invariant out + EncFields(values[k..], k) == given + EncFields(values, 0)
    {
      ghost var before := out;
      out := PushUint(out, 0, k);
      out := PushUint(out, 0, values[k]);
      assert values[k..][1..] == values[k + 1..];
      assert out + EncFields(values[k + 1..], k + 1)
          == before + (EncEntry(k, values[k]) + EncFields(values[k + 1..], k + 1));
    }
  }

  method PushBytes(given: seq<Byte>, key: U64, bytes: seq<Byte>) returns (out: seq<Byte>)
    requires |bytes| <= U64_MAX
    ensures out == given + EncByteEntry(key, bytes)
  {
    hide EncUint;
    out := PushUint(given, 0, key);
    out := PushUint(out, 2, |bytes|);
    out := out + bytes;
  }

  method PushOptional(given: seq<Byte>, key: U64, value: Option<U64>) returns (out: seq<Byte>)
    ensures out == given + EncOptional(key, value)
  {
    hide EncUint;
    out := given;
    if value.Some? {
      out := PushUint(out, 0, key);
      out := PushUint(out, 0, value.value);
    }
  }

  /** A body key and a group of unsigned fields under it. */
  method PushGroup(given: seq<Byte>, key: U64, values: seq<U64>) returns (out: seq<Byte>)
    requires |values| < 24
    ensures out == given + (EncUint(0, key) + EncGroup(values))
  {
    hide EncUint, EncFields;
    out := PushUint(given, 0, key);
    out := out + [0xA0 + |values|];
    out := PushFields(out, values);
  }

  method PushNetwork(given: seq<Byte>, n: NetworkSnapshot) returns (out: seq<Byte>)
    requires n.IsValid()
    ensures out == given + (EncUint(0, 9) + EncNetwork(n))
  {
    hide EncUint, EncFields, NetworkFields, EncByteEntry;
    out := PushUint(given, 0, 9);
    out := out + [if n.links.Some? then 0xAE else 0xAD];
    out := PushFields(out, NetworkFields(n));
    out := PushBytes(out, 10, MacBytes(n.station));
    out := PushBytes(out, 11, n.ssid);
    out := PushBytes(out, 12, MacBytes(n.bssid));
    if n.links.Some? {
      out := PushBytes(out, 13, LinkBytes(n.links.value));
    }
  }

  /** The envelope around a finished body, its length and its checksum. */
  method SealFrame(e: Envelope, body: seq<Byte>) returns (r: Result<seq<Byte>, Error>)
    ensures r == Seal(e, body)
  {
    hide EncContent, Crc32, ToBe;
    if !OffsetInRange(e) { return Err(Malformed); }
    var c := PushContent(e, body);
    if |c| + 6 > MAX_FRAME_BYTES { return Err(TooLarge); }
    var crc := ComputeCrc32(c);
    r := Ok(ToBe(|c| + 4, 2) + c + ToBe(crc, 4));
  }

  method PushContent(e: Envelope, body: seq<Byte>) returns (c: seq<Byte>)
    requires OffsetInRange(e)
    ensures c == EncContent(e, body)
  {
    hide EncUint, EncFields, EncByteEntry, EncTimes, EncEntry, OffsetInRange;
    c := [0xA0 + 6 + Present(e.utcMs) + Present(e.utcUncertaintyMs) + Present(e.localOffsetMinutes)];
    c := PushFields(c, [e.major, e.minor, TypeCode(e.kind)]);
    c := PushBytes(c, 3, e.session);
    c := PushEntry(c, 4, e.sequence);
    c := PushUint(c, 0, 5);
    c := c + body;
    c := PushTimes(c, e);
    Reassociate([0xA0 + 6 + Present(e.utcMs) + Present(e.utcUncertaintyMs) + Present(e.localOffsetMinutes)],
                EncFields([e.major, e.minor, TypeCode(e.kind)], 0), EncByteEntry(3, e.session), EncEntry(4, e.sequence),
                EncUint(0, 5), body, EncTimes(e));
  }

  method PushEntry(given: seq<Byte>, key: U64, value: U64) returns (out: seq<Byte>)
    ensures out == given + EncEntry(key, value)
  {
    hide EncUint;
    out := PushUint(given, 0, key);
    out := PushUint(out, 0, value);
  }

  method PushTimes(given: seq<Byte>, e: Envelope) returns (out: seq<Byte>)
    requires OffsetInRange(e)
    ensures out == given + EncTimes(e)
  {
    hide EncOptional, OffsetInRange;
    out := PushOptional(given, 6, e.utcMs);
    out := PushOptional(out, 7, Widen(e.utcUncertaintyMs));
    out := PushOptional(out, 8, BiasedOffset(e));
  }

  lemma Reassociate(a: seq<Byte>, b: seq<Byte>, c: seq<Byte>, d: seq<Byte>, e: seq<Byte>, f: seq<Byte>, g: seq<Byte>)
    ensures a + b + c + d + e + f + g == a + (b + (c + (d + (e + (f + g)))))
  {
    assert a + b + c + d + e + f + g == a + b + c + d + e + (f + g);
    assert a + b + c + d + e + (f + g) == a + b + c + d + (e + (f + g));
    assert a + b + c + d + (e + (f + g)) == a + b + c + (d + (e + (f + g)));
    assert a + b + c + (d + (e + (f + g))) == a + b + (c + (d + (e + (f + g))));
  }

  /** The optional groups of unsigned fields, each under its key when present. */
  method PushFieldGroups(given: seq<Byte>, s: Snapshot) returns (out: seq<Byte>)
    ensures out == given + EncRamGroup(s) + EncStorageGroup(s) + EncBatteryGroup(s) + EncAgentsGroup(s)
  {
    hide EncUint, EncGroup, RamFields, StorageFields, BatteryFields, AgentsFields;
    out := given;
    if s.ram.Some? { out := PushGroup(out, 5, RamFields(s.ram.value)); }
    assert out == given + EncRamGroup(s);
    if s.storage.Some? { out := PushGroup(out, 6, StorageFields(s.storage.value)); }
    assert out == given + EncRamGroup(s) + EncStorageGroup(s);
    if s.battery.Some? { out := PushGroup(out, 7, BatteryFields(s.battery.value)); }
    assert out == given + EncRamGroup(s) + EncStorageGroup(s) + EncBatteryGroup(s);
    if s.agents.Some? { out := PushGroup(out, 8, AgentsFields(s.agents.value)); }
  }

  method EncodeGroupsPush(e: Envelope, s: Snapshot) returns (r: Result<seq<Byte>, Error>)
    ensures r == EncodeGroups(e, s)
  {
    if !Encodable(s) { return Err(Malformed); }
    hide EncUint, EncFields, EncNetwork, CpuFields, Seal, Encodable;
    hide EncRamGroup, EncStorageGroup, EncBatteryGroup, EncAgentsGroup;
    var body := [0xA0 + 5 + GroupCount(s)];
    body := PushFields(body, CpuFields(s.cpu));
    body := PushFieldGroups(body, s);
    ghost var groups := body;
    if s.network.Some? { body := PushNetwork(body, s.network.value) by { NetworkIsValid(s); } }
    assert body == groups + EncNetworkGroup(s);
    Reassociate([0xA0 + 5 + GroupCount(s)], EncFields(CpuFields(s.cpu), 0), EncRamGroup(s), EncStorageGroup(s),
                EncBatteryGroup(s), EncAgentsGroup(s), EncNetworkGroup(s));
    r := SealFrame(e, body);
  }

  lemma NetworkIsValid(s: Snapshot)
    requires Encodable(s) && s.network.Some?
    ensures s.network.value.IsValid()
  {
  }

  method PushHello(h: HelloBody) returns (c: seq<Byte>)
    ensures c == EncHello(h)
  {
    hide EncUint, EncFields, EncOptional;
    c := [0xA0 + 4 + Present(h.utcMs) + Present(h.utcUncertaintyMs)];
    c := PushFields(c, [h.supportedMajor, h.supportedMinor, h.capabilities, h.configurationRevision]);
    c := PushOptional(c, 4, h.utcMs);
    c := PushOptional(c, 5, Widen(h.utcUncertaintyMs));
  }

  method PushPair(p: PairBody) returns (c: seq<Byte>)
    ensures c == EncPair(p)
  {
    hide EncUint, EncByteEntry;
    c := PushBytes([0xA3], 0, p.pairingIdentity);
    c := PushBytes(c, 1, p.intendedPeerIdentity);
    c := PushUint(c, 0, 2);
    c := PushUint(c, 0, p.matchingCode);
  }

  /** A body that is one field map. */
  method PushMap(values: seq<U64>) returns (c: seq<Byte>)
    requires |values| < 24
    ensures c == EncGroup(values)
  {
    hide EncFields;
    c := PushFields([0xA0 + |values|], values);
  }

  method EncodeControlPush(e: Envelope, b: ControlBody) returns (r: Result<seq<Byte>, Error>)
    ensures r == EncodeControl(e, b)
  {
    hide EncUint, EncGroup, EncHello, EncPair, Seal;
    var c: seq<Byte> := [];
    match b {
      case Hello(h) =>
        if e.kind != HelloType { return Err(Malformed); }
        c := PushHello(h);
      case HelloReply(h) =>
        if e.kind != HelloReplyType { return Err(Malformed); }
        c := PushHello(h);
      case Pair(p) =>
        if e.kind != PairType || !SixDigits(p.matchingCode) { return Err(Malformed); }
        c := PushPair(p);
      case Command(x) =>
        if e.kind != CommandType { return Err(Malformed); }
        c := PushMap([x.commandIdentity, OperationCode(x.operation)]);
      case CommandReply(x) =>
        if e.kind != CommandReplyType { return Err(Malformed); }
        c := PushMap([x.commandIdentity, OperationCode(x.operation), ResultCode(x.result)]);
      case ErrorReport(bytes) =>
        if e.kind != ErrorType || |bytes| > MAX_CONTROL_BODY - 3 { return Err(Malformed); }
        c := PushUint(c, 2, |bytes|);
        c := c + bytes;
        assert c == EncBytes(bytes);
    }
    if |c| > MAX_CONTROL_BODY { return Err(TooLarge); }
    r := SealFrame(e, c);
  }
}
