/** The decoders as they run: a position advances through the input in loops.
    Each method computes its specification in `Cbor` or `Decode`. */
module Decoders {
  import opened Basics
  import opened Cbor
  import opened Crc
  import opened Messages
  import opened Decode

  /** The position `q` and the value `r` are what the parser `spec` yields. */
  ghost predicate Read<T>(input: seq<Byte>, q: nat, r: Option<T>, spec: Parse<T>) {
    && q <= |input|
    && (r.Some? <==> spec.Got?)
    && (r.Some? ==> r.value == spec.value && input[q..] == spec.rest)
  }

  ghost predicate Skipped(input: seq<Byte>, q: nat, ok: bool, spec: Option<seq<Byte>>) {
    && q <= |input|
    && (ok <==> spec.Some?)
    && (ok ==> input[q..] == spec.value)
  }

  /** The loop over the big-endian tail. */
  method ReadBeAt(input: seq<Byte>, p: nat, n: nat) returns (v: nat, q: nat)
    requires p + n <= |input|
    ensures q == p + n && v == FromBe(input[p..p + n])
  {
    q := p;
    v := 0;
    for k := 0 to n
      invariant q == p + k && v == FromBe(input[p..p + k])
    {
      assert input[p..p + k + 1][..k] == input[p..p + k];
      v := v * 256 + input[q];
      q := q + 1;
    }
  }

  method ReadUintAt(input: seq<Byte>, p: nat, expected: Major) returns (r: Option<U64>, q: nat)
    requires p <= |input|
    ensures Read(input, q, r, ReadUint(input[p..], expected))
  {
    q := p;
    if p == |input| { return None, q; }
    var first := input[p];
    if first / 32 != expected { return None, q; }
    q := p + 1;
    var a := first % 32;
    if a <= 23 { return Some(a), q; }
    var tail := TailLength(a);
    if tail.None? { return None, q; }
    var n := tail.value;
    if q + n > |input| { return None, q; }
    var v;
    v, q := ReadBeAt(input, q, n);
    hide FromBe;
    assert input[p..][1..1 + n] == input[p + 1..p + 1 + n];
    ToFromBe(input[p + 1..p + 1 + n]);
    Powers256();
    if Overlong(a, v) { return None, q; }
    return Some(v), q;
  }

  /** `bytes`: a byte string of exactly `expected` bytes. */
  method ReadExactAt(input: seq<Byte>, p: nat, expected: nat) returns (r: Option<seq<Byte>>, q: nat)
    requires p <= |input|
    ensures Read(input, q, r, ReadExact(input[p..], expected))
  {
    hide ReadUint;
    var len;
    len, q := ReadUintAt(input, p, 2);
    if len.None? || len.value != expected || q + len.value > |input| { return None, q; }
    r := Some(input[q..q + len.value]);
    assert input[q..][..len.value] == r.value;
    q := q + len.value;
  }

  /** `read_byte_string`: a byte string of at most the frame limit. */
  method ReadByteStringAt(input: seq<Byte>, p: nat) returns (r: Option<seq<Byte>>, q: nat)
    requires p <= |input|
    ensures Read(input, q, r, ReadByteString(input[p..], MAX_FRAME_BYTES))
  {
    hide ReadUint;
    var len;
    len, q := ReadUintAt(input, p, 2);
    if len.None? || len.value > MAX_FRAME_BYTES || q + len.value > |input| { return None, q; }
    r := Some(input[q..q + len.value]);
    assert input[q..][..len.value] == r.value;
    q := q + len.value;
  }

  // ---- skipping ----

  method SkipValueAt(input: seq<Byte>, p: nat, depth: nat) returns (ok: bool, q: nat)
    requires p <= |input| && depth <= MAX_DEPTH
    ensures Skipped(input, q, ok, SkipValue(input[p..], depth))
    decreases MAX_DEPTH - depth, 0
  {
    hide ReadUint;
    q := p;
    if depth >= MAX_DEPTH || p == |input| { return false, q; }
    var major := input[p] / 32;
    if major > 5 { return false, q; }
    var head;
    head, q := ReadUintAt(input, p, major);
    if head.None? { return false, q; }
    if major <= 1 { return true, q; }
    if major <= 3 {
      if q + head.value > |input| { return false, q; }
      q := q + head.value;
      return true, q;
    }
    if head.value > MAX_ITEMS { return false, q; }
    var n := head.value * (if major == 5 then 2 else 1);
    ok, q := SkipManyAt(input, q, n, depth + 1);
  }

  /** The loop over the items of an array or a map. */
  method SkipManyAt(input: seq<Byte>, p: nat, n: nat, depth: nat) returns (ok: bool, q: nat)
    requires p <= |input| && depth <= MAX_DEPTH
    ensures Skipped(input, q, ok, SkipMany(input[p..], n, depth))
    decreases MAX_DEPTH - depth, n + 1
  {
    hide SkipValue;
    q := p;
    for k := 0 to n
      invariant q <= |input|
      invariant SkipMany(input[q..], n - k, depth) == SkipMany(input[p..], n, depth)
    {
      ok, q := SkipValueAt(input, q, depth);
      if !ok { return; }
    }
    ok := true;
  }

  method SkipBodyAt(input: seq<Byte>, p: nat) returns (ok: bool, q: nat)
    requires p <= |input|
    ensures Skipped(input, q, ok, SkipBody(input[p..]))
  {
    hide ReadUint, SkipValue, SkipMany;
    if p == |input| || input[p] / 32 != 5 {
      ok, q := SkipValueAt(input, p, 0);
      return;
    }
    var count;
    count, q := ReadUintAt(input, p, 5);
    if count.None? || count.value > MAX_ITEMS { return false, q; }
    for k := 0 to count.value
      invariant q <= |input|
      invariant SkipEntries(input[q..], count.value - k) == SkipBody(input[p..])
    {
      ok, q := SkipValueAt(input, q, 0);
      if !ok { return; }
      if q < |input| && input[q] / 32 == 5 {
        var inner;
        inner, q := ReadUintAt(input, q, 5);
        if inner.None? || inner.value > MAX_ITEMS { return false, q; }
        ok, q := SkipManyAt(input, q, inner.value * 2, 0);
      } else {
        ok, q := SkipValueAt(input, q, 0);
      }
      if !ok { return; }
    }
    ok := true;
  }

  // ---- groups ----

  /** The loop shared by the group decoders: known keys once each, unknown keys skipped. */
  method ReadFieldsAt(input: seq<Byte>, p: nat, n: nat) returns (r: Option<seq<U64>>, q: nat)
    requires p <= |input|
    ensures Read(input, q, r, ReadFields(input[p..], n))
  {
    hide ReadUint, SkipValue;
    var count;
    count, q := ReadUintAt(input, p, 5);
    if count.None? || count.value > MAX_ITEMS { return None, q; }
    var value := Empty(n);
    ghost var whole := FieldEntries(input[q..], count.value, value);
    for k := 0 to count.value
      invariant q <= |input| && |value| == n
      invariant FieldEntries(input[q..], count.value - k, value) == whole
    {
      var key;
      key, q := ReadUintAt(input, q, 0);
      if key.None? { return None, q; }
      if key.value >= n {
        var ok;
        ok, q := SkipValueAt(input, q, 0);
        if !ok { return None, q; }
        continue;
      }
      if value[key.value].Some? { return None, q; }
      var v;
      v, q := ReadUintAt(input, q, 0);
      if v.None? { return None, q; }
      value := value[key.value := v];
    }
    if !Complete(value) { return None, q; }
    r := Some(Values(value));
  }

  method DecodeRamAt(input: seq<Byte>, p: nat) returns (r: Option<RamSnapshot>, q: nat)
    requires p <= |input|
    ensures Read(input, q, r, ReadGroup(input[p..], 5, RamFrom))
  {
    hide ReadFields, RamFrom;
    var v;
    v, q := ReadFieldsAt(input, p, 5);
    r := if v.None? then None else RamFrom(v.value);
  }

  method DecodeStorageAt(input: seq<Byte>, p: nat) returns (r: Option<StorageSnapshot>, q: nat)
    requires p <= |input|
    ensures Read(input, q, r, ReadGroup(input[p..], 8, StorageFrom))
  {
    hide ReadFields, StorageFrom;
    var v;
    v, q := ReadFieldsAt(input, p, 8);
    r := if v.None? then None else StorageFrom(v.value);
  }

  method DecodeBatteryAt(input: seq<Byte>, p: nat) returns (r: Option<BatterySnapshot>, q: nat)
    requires p <= |input|
    ensures Read(input, q, r, ReadGroup(input[p..], 10, BatteryFrom))
  {
    hide ReadFields, BatteryFrom;
    var v;
    v, q := ReadFieldsAt(input, p, 10);
    r := if v.None? then None else BatteryFrom(v.value);
  }

  method DecodeAgentsAt(input: seq<Byte>, p: nat) returns (r: Option<AgentsSnapshot>, q: nat)
    requires p <= |input|
    ensures Read(input, q, r, ReadGroup(input[p..], 7, AgentsFrom))
  {
    hide ReadFields, AgentsFrom;
    var v;
    v, q := ReadFieldsAt(input, p, 7);
    r := if v.None? then None else AgentsFrom(v.value);
  }

  method DecodeNetworkAt(input: seq<Byte>, p: nat) returns (r: Option<NetworkSnapshot>, q: nat)
    requires p <= |input|
    ensures Read(input, q, r, ReadNetwork(input[p..]))
  {
    hide ReadUint, SkipValue, ReadByteString, NetworkFrom;
    var count;
    count, q := ReadUintAt(input, p, 5);
    if count.None? || count.value > MAX_ITEMS { return None, q; }
    var acc := NO_NETWORK;
    ghost var whole := NetworkEntries(input[q..], count.value, acc);
    for k := 0 to count.value
      invariant q <= |input| && acc.Shaped()
      invariant NetworkEntries(input[q..], count.value - k, acc) == whole
    {
      var key;
      key, q := ReadUintAt(input, q, 0);
      if key.None? { return None, q; }
      if key.value > 13 {
        var ok;
        ok, q := SkipValueAt(input, q, 0);
        if !ok { return None, q; }
        continue;
      }
      if key.value == 13 {
        if acc.links.Some? { return None, q; }
        var b;
        b, q := ReadByteStringAt(input, q);
        if b.None? { return None, q; }
        acc := acc.(links := b);
        continue;
      }
      if key.value >= 10 {
        if acc.strings[key.value - 10].Some? { return None, q; }
        var b;
        b, q := ReadByteStringAt(input, q);
        if b.None? { return None, q; }
        acc := acc.(strings := acc.strings[key.value - 10 := b]);
      } else {
        if acc.fields[key.value].Some? { return None, q; }
        var v;
        v, q := ReadUintAt(input, q, 0);
        if v.None? { return None, q; }
        acc := acc.(fields := acc.fields[key.value := v]);
      }
    }
    r := NetworkFrom(acc);
  }

  // ---- bodies ----

  method DecodeSnapshotBodyLoop(body: seq<Byte>) returns (r: Option<Snapshot>)
    ensures r == DecodeSnapshotBody(body)
  {
    hide ReadUint, SkipValue, ReadGroup, ReadNetwork, SnapshotFrom;
    assert body[0..] == body;
    var count, p: nat := ReadUintAt(body, 0, 5);
    if count.None? || count.value > 10 { return None; }
    var acc := NO_BODY;
    ghost var whole := BodyEntries(body[p..], count.value, acc);
    for k := 0 to count.value
      invariant p <= |body| && |acc.cpu| == 5
      invariant BodyEntries(body[p..], count.value - k, acc) == whole
    {
      var key;
      key, p := ReadUintAt(body, p, 0);
      if key.None? { return None; }
      if key.value == 5 {
        if acc.ram.Some? { return None; }
        var g;
        g, p := DecodeRamAt(body, p);
        if g.None? { return None; }
        acc := acc.(ram := g);
      } else if key.value == 6 {
        if acc.storage.Some? { return None; }
        var g;
        g, p := DecodeStorageAt(body, p);
        if g.None? { return None; }
        acc := acc.(storage := g);
      } else if key.value == 7 {
        if acc.battery.Some? { return None; }
        var g;
        g, p := DecodeBatteryAt(body, p);
        if g.None? { return None; }
        acc := acc.(battery := g);
      } else if key.value == 8 {
        if acc.agents.Some? { return None; }
        var g;
        g, p := DecodeAgentsAt(body, p);
        if g.None? { return None; }
        acc := acc.(agents := g);
      } else if key.value == 9 {
        if acc.network.Some? { return None; }
        var g;
        g, p := DecodeNetworkAt(body, p);
        if g.None? { return None; }
        acc := acc.(network := g);
      } else if key.value > 4 {
        var ok;
        ok, p := SkipValueAt(body, p, 0);
        if !ok { return None; }
      } else {
        if acc.cpu[key.value].Some? { return None; }
        var v;
        v, p := ReadUintAt(body, p, 0);
        if v.None? || !CpuInRange(key.value, v.value) { return None; }
        acc := acc.(cpu := acc.cpu[key.value := v]);
      }
    }
    if p != |body| { return None; }
    r := SnapshotFrom(acc);
  }

  method ControlEntryAt(c: seq<Byte>, p: nat, kind: MessageType, given: ControlSlots)
    returns (r: Option<ControlSlots>, q: nat)
    requires p <= |c| && given.Shaped()
    ensures Read(c, q, r, ControlEntry(c[p..], kind, given))
    ensures r.Some? ==> r.value.Shaped()
  {
    hide ReadUint, SkipValue, ReadExact;
    var key;
    key, q := ReadUintAt(c, p, 0);
    if key.None? || (given.prior.Some? && key.value <= given.prior.value) { return None, p; }
    var acc := given.(prior := key);
    if key.value > KnownMax(kind) {
      var ok;
      ok, q := SkipValueAt(c, q, 0);
      if !ok { return None, p; }
    } else if kind == PairType && key.value < 2 {
      var id;
      id, q := ReadExactAt(c, q, 16);
      if id.None? { return None, p; }
      acc := acc.(identities := acc.identities[key.value := Some(id.value)]);
    } else {
      var v;
      v, q := ReadUintAt(c, q, 0);
      if v.None? { return None, p; }
      acc := acc.(fields := acc.fields[key.value := v]);
    }
    r := Some(acc);
  }

  method DecodeControlBodyLoop(kind: MessageType, c: seq<Byte>) returns (r: Option<ControlBody>)
    ensures r == DecodeControlBody(kind, c)
  {
    hide ReadUint, ControlFrom, ControlEntry;
    assert c[0..] == c;
    if kind == ErrorType {
      var len, p := ReadUintAt(c, 0, 2);
      if len.None? || p + len.value != |c| { return None; }
      return Some(ErrorReport(c[p..]));
    }
    if kind == SnapshotType { return None; }
    var count, p: nat := ReadUintAt(c, 0, 5);
    if count.None? || count.value > MAX_ITEMS { return None; }
    var acc := NO_CONTROL;
    ghost var whole := ControlEntries(c[p..], kind, count.value, acc);
    for k := 0 to count.value
      invariant p <= |c| && acc.Shaped()
      invariant ControlEntries(c[p..], kind, count.value - k, acc) == whole
    {
      var next;
      next, p := ControlEntryAt(c, p, kind, acc);
      if next.None? { return None; }
      acc := next.value;
    }
    if p != |c| { return None; }
    r := ControlFrom(kind, acc);
  }

  // ---- the envelope ----

  /** An unsigned value that must fit: `byte`, `word` and the bound of the local offset. */
  method ReadBelowAt(input: seq<Byte>, p: nat, max: nat) returns (r: Option<U64>, q: nat)
    requires p <= |input|
    ensures Read(input, q, r, ReadBelow(input[p..], max))
  {
    hide ReadUint;
    r, q := ReadUintAt(input, p, 0);
    if r.Some? && r.value > max { r := None; }
  }

  /** One envelope entry: the body is only delimited here. */
  method EnvelopeEntryAt(c: seq<Byte>, p: nat, given: EnvelopeSlots) returns (r: Result<EnvelopeSlots, Error>, q: nat)
    requires p <= |c|
    ensures q <= |c|
    ensures match EnvelopeEntry(c[p..], given)
            case Stop(e) => r == Err(e)
            case Next(acc, rest) => r == Ok(acc) && c[q..] == rest
  {
    hide ReadUint, ReadBelow, ReadExact, SkipBody, SkipValue;
    var key;
    key, q := ReadUintAt(c, p, 0);
    // Canonical maps have strictly increasing keys.
    if key.None? || (given.previous.Some? && key.value <= given.previous.value) { return Err(Malformed), q; }
    var acc := given.(previous := key);
    var v: Option<U64>;
    match key.value {
    case 0 =>
      v, q := ReadBelowAt(c, q, 0xFF);
      if v.None? { return Err(Malformed), q; }
      if v.value != 1 { return Err(UnsupportedMajor), q; }
      acc := acc.(major := Some(v.value));
    case 1 =>
      v, q := ReadBelowAt(c, q, 0xFF);
      if v.None? { return Err(Malformed), q; }
      acc := acc.(minor := Some(v.value));
    case 2 =>
      v, q := ReadBelowAt(c, q, 0xFF);
      if v.None? { return Err(Malformed), q; }
      acc := acc.(kind := Some(v.value));
    case 3 =>
      var id;
      id, q := ReadExactAt(c, q, 16);
      if id.None? { return Err(Malformed), q; }
      acc := acc.(session := Some(id.value));
    case 4 =>
      v, q := ReadBelowAt(c, q, U32_MAX);
      if v.None? { return Err(Malformed), q; }
      acc := acc.(sequence := Some(v.value));
    case 5 =>
      if acc.kind.None? || TypeFrom(acc.kind.value).None? { return Err(Malformed), q; }
      var start := q;
      var ok;
      ok, q := SkipBodyAt(c, q);
      if !ok { return Err(Malformed), q; }
      if TypeFrom(acc.kind.value) != Some(SnapshotType) && q - start > MAX_CONTROL_BODY { return Err(TooLarge), q; }
      assert c[start..][..q - start] == c[start..q];
      acc := acc.(body := Some(c[start..q]));
    case 6 =>
      v, q := ReadUintAt(c, q, 0);
      if v.None? { return Err(Malformed), q; }
      acc := acc.(utcMs := v);
    case 7 =>
      v, q := ReadBelowAt(c, q, U32_MAX);
      if v.None? { return Err(Malformed), q; }
      acc := acc.(uncertainty := Some(v.value));
    case 8 =>
      v, q := ReadBelowAt(c, q, 2880);
      if v.None? { return Err(Malformed), q; }
      acc := acc.(offset := Some(v.value - 1440));
    case _ =>
      var ok;
      ok, q := SkipValueAt(c, q, 0);
      if !ok { return Err(Malformed), q; }
    }
    r := Ok(acc);
  }

  method ParseEnvelopeLoop(frame: seq<Byte>) returns (r: Result<(Envelope, seq<Byte>), Error>)
    ensures r == ParseEnvelope(frame)
  {
    hide EnvelopeEntry, ReadUint, Crc32, EnvelopeFrom, FromBe;
    var n := |frame|;
    if n < 7 { return Err(Truncated); }
    var length := FromBe(frame[..2]);
    if length > MAX_FRAME_BYTES - 2 { return Err(TooLarge); }
    if length + 2 != n { return Err(Truncated); }
    var c := frame[2..n - 4];
    var crc := ComputeCrc32(c);
    if crc != FromBe(frame[n - 4..]) { return Err(BadCrc); }
    assert c[0..] == c;
    var count, p: nat := ReadUintAt(c, 0, 5);
    if count.None? || count.value > MAX_ITEMS { return Err(Malformed); }
    var acc := NO_ENVELOPE;
    ghost var whole := EnvelopeEntries(c[p..], count.value, acc);
    for k := 0 to count.value
      invariant p <= |c|
      invariant EnvelopeEntries(c[p..], count.value - k, acc) == whole
    {
      var entry;
      entry, p := EnvelopeEntryAt(c, p, acc);
      if entry.Err? { return Err(entry.error); }
      acc := entry.value;
    }
    if p != |c| || EnvelopeFrom(acc).None? { return Err(Malformed); }
    r := Ok(EnvelopeFrom(acc).value);
  }

  method DecodeFrameLoop(frame: seq<Byte>) returns (r: Result<Message, Error>)
    ensures r == DecodeFrame(frame)
  {
    hide ParseEnvelope, DecodeSnapshotBody, DecodeControlBody;
    var parsed := ParseEnvelopeLoop(frame);
    if parsed.Err? { return Err(parsed.error); }
    var (envelope, body) := parsed.value;
    if envelope.kind == SnapshotType {
      var s := DecodeSnapshotBodyLoop(body);
      r := if s.None? then Err(Malformed) else Ok(SnapshotMessage(envelope, s.value));
    } else {
      var b := DecodeControlBodyLoop(envelope.kind, body);
      r := if b.None? then Err(Malformed) else Ok(ControlMessage(envelope, b.value));
    }
  }
}
