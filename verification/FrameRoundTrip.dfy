/** Whole frames: envelope and body round trips, the largest snapshot frame, and
    damage to a single byte. */
module FrameRoundTrip {
  import opened Basics
  import opened Cbor
  import opened Crc
  import opened Messages
  import opened Decode
  import opened SkipProofs
  import opened RoundTrip
  import opened ControlRoundTrip

  // ---- frame integrity ----

  lemma FrameShape(c: seq<Byte>)
    requires 1 <= |c| <= MAX_FRAME_BYTES - 6
    ensures FrameError(Frame(c)) == None
    ensures |Frame(c)| == |c| + 6 && Frame(c)[2..|Frame(c)| - 4] == c
  {
    hide Crc32;
    var f := Frame(c);
    Powers256();
    FromToBe(|c| + 4, 2);
    FromToBe(Crc32(c), 4);
    assert f[..2] == ToBe(|c| + 4, 2);
    assert f[2..|f| - 4] == c;
    assert f[|f| - 4..] == ToBe(Crc32(c), 4);
  }

  lemma FromBeChanges(s: seq<Byte>, i: nat, b: Byte)
    requires i < |s| && s[i] != b
    ensures FromBe(s) != FromBe(s[i := b])
  {
    var t := s[i := b];
    ToFromBe(s);
    ToFromBe(t);
    assert s != t;
  }

  /** Any change of one byte of a frame whose length and checksum are good is noticed,
      wherever the byte is. */
  lemma SingleByteDamage(frame: seq<Byte>, i: nat, b: Byte)
    requires FrameError(frame).None?
    requires i < |frame| && frame[i] != b
    ensures FrameError(frame[i := b]) in {Some(Truncated), Some(TooLarge), Some(BadCrc)}
  {
    hide Crc32;
    var n := |frame|;
    var g := frame[i := b];
    if i < 2 {
      assert g[..2] == frame[..2][i := b];
      FromBeChanges(frame[..2], i, b);
    } else if i < n - 4 {
      assert g[2..n - 4] == frame[2..n - 4][i - 2 := b];
      assert g[..2] == frame[..2] && g[n - 4..] == frame[n - 4..];
      SingleByteChangesCrc(frame[2..n - 4], i - 2, b);
    } else {
      assert g[2..n - 4] == frame[2..n - 4] && g[..2] == frame[..2];
      assert g[n - 4..] == frame[n - 4..][i - (n - 4) := b];
      FromBeChanges(frame[n - 4..], i - (n - 4), b);
    }
  }

  /** So a frame any decoder accepts never decodes after one byte of it changed. */
  lemma DamagedFrameIsRejected(frame: seq<Byte>, i: nat, b: Byte)
    requires ParseEnvelope(frame).Ok?
    requires i < |frame| && frame[i] != b
    ensures DecodeFrame(frame[i := b]) in {Err(Truncated), Err(TooLarge), Err(BadCrc)}
  {
    hide FrameError, ParseContent;
    SingleByteDamage(frame, i, b);
  }

  // ---- envelope entries ----

  lemma EnvelopeStep(s: seq<Byte>, count: nat, acc: EnvelopeSlots, next: EnvelopeSlots, rest: seq<Byte>)
    requires count > 0 && EnvelopeEntry(s, acc) == Next(next, rest)
    ensures EnvelopeEntries(s, count, acc) == EnvelopeEntries(rest, count - 1, next)
  {
    hide EnvelopeEntry;
  }

  /** The slots after key `key` held `value`. */
  function Stored(key: U64, value: U64, acc: EnvelopeSlots): EnvelopeSlots
    requires key in {0, 1, 2} ==> value <= 0xFF
    requires key in {4, 7} ==> value <= U32_MAX
    requires key == 8 ==> value <= 2880
  {
    var next := acc.(previous := Some(key));
    if key == 0 then next.(major := Some(value))
    else if key == 1 then next.(minor := Some(value))
    else if key == 2 then next.(kind := Some(value))
    else if key == 4 then next.(sequence := Some(value))
    else if key == 6 then next.(utcMs := Some(value))
    else if key == 7 then next.(uncertainty := Some(value))
    else if key == 8 then next.(offset := Some(value - 1440))
    else next
  }

  lemma EnvelopeUintRead(key: U64, value: U64, t: seq<Byte>, acc: EnvelopeSlots)
    requires key in {0, 1, 2, 4, 6, 7, 8} && After(acc.previous, key)
    requires key in {0, 1, 2} ==> value <= 0xFF
    requires key in {4, 7} ==> value <= U32_MAX
    requires key == 8 ==> value <= 2880
    ensures EnvelopeEntry(EncEntry(key, value) + t, acc)
            == if key == 0 && value != 1 then Stop(UnsupportedMajor) else Next(Stored(key, value, acc), t)
  {
    hide ReadUint, EncEntry, ReadExact, EnvelopeBody;
    EntryRead(key, value, t);
  }

  lemma EnvelopeSessionRead(id: Identity, t: seq<Byte>, acc: EnvelopeSlots)
    requires After(acc.previous, 3)
    ensures EnvelopeEntry(EncByteEntry(3, id) + t, acc) == Next(acc.(previous := Some(3), session := Some(id)), t)
  {
    hide ReadUint, EncByteEntry, EncBytes, ReadExact, EnvelopeBody;
    ByteEntryRead(3, id, t);
  }

  lemma EnvelopeBodyRead(body: seq<Byte>, t: seq<Byte>, acc: EnvelopeSlots)
    requires After(acc.previous, 5) && acc.kind.Some? && TypeFrom(acc.kind.value).Some?
    requires SkipBody(body + t) == Some(t)
    requires acc.kind.value == TypeCode(SnapshotType) || |body| <= MAX_CONTROL_BODY
    ensures EnvelopeEntry(EncUint(0, 5) + (body + t), acc) == Next(acc.(previous := Some(5), body := Some(body)), t)
  {
    hide ReadUint, EncUint, ReadExact, SkipBody;
    ReadOfUint(0, 5, body + t);
    assert (body + t)[..|body|] == body;
  }

  lemma EnvelopeOptionalRead(key: U64, value: Option<U64>, t: seq<Byte>, m: nat, acc: EnvelopeSlots)
    requires key in {6, 7, 8} && After(acc.previous, key)
    requires value.Some? && key == 7 ==> value.value <= U32_MAX
    requires value.Some? && key == 8 ==> value.value <= 2880
    ensures EnvelopeEntries(EncOptional(key, value) + t, Present(value) + m, acc)
            == EnvelopeEntries(t, m, if value.Some? then Stored(key, value.value, acc) else acc)
  {
    hide EnvelopeEntry, EnvelopeEntries, EncEntry;
    if value.Some? {
      EnvelopeUintRead(key, value.value, t, acc);
      EnvelopeStep(EncEntry(key, value.value) + t, 1 + m, acc, Stored(key, value.value, acc), t);
    } else {
      assert EncOptional(key, value) + t == t;
    }
  }

  /** Everything but the wall-clock fields. */
  function CoreSlots(e: Envelope, body: seq<Byte>): EnvelopeSlots {
    EnvelopeSlots(Some(5), Some(e.major), Some(e.minor), Some(TypeCode(e.kind)), Some(e.session), Some(e.sequence),
                  Some(body), None, None, None)
  }

  lemma TimesRead(e: Envelope, body: seq<Byte>)
    requires OffsetInRange(e)
    ensures
      var last := EnvelopeEntries(
        EncTimes(e), Present(e.utcMs) + Present(e.utcUncertaintyMs) + Present(e.localOffsetMinutes), CoreSlots(e, body));
      && last.Next? && last.rest == []
      && last.acc.(previous := None)
         == CoreSlots(e, body).(previous := None, utcMs := e.utcMs, uncertainty := e.utcUncertaintyMs,
                                offset := e.localOffsetMinutes)
  {
    hide EnvelopeEntry, EncOptional;
    var a6 := CoreSlots(e, body);
    var u7 := Widen(e.utcUncertaintyMs);
    var u8 := BiasedOffset(e);
    var a7 := if e.utcMs.Some? then Stored(6, e.utcMs.value, a6) else a6;
    var a8 := if u7.Some? then Stored(7, u7.value, a7) else a7;
    var a9 := if u8.Some? then Stored(8, u8.value, a8) else a8;
    EnvelopeOptionalRead(6, e.utcMs, EncOptional(7, u7) + EncOptional(8, u8), Present(u7) + Present(u8), a6);
    EnvelopeOptionalRead(7, u7, EncOptional(8, u8), Present(u8), a7);
    assert EncOptional(8, u8) + [] == EncOptional(8, u8);
    EnvelopeOptionalRead(8, u8, [], 0, a8);
    assert EnvelopeEntries([], 0, a9) == Next(a9, []);
  }

  /** Keys 0 to 2. */
  lemma VersionRead(e: Envelope, t: seq<Byte>, m: nat)
    ensures EnvelopeEntries(EncFields([e.major, e.minor, TypeCode(e.kind)], 0) + t, 3 + m, NO_ENVELOPE)
            == if e.major != 1 then Stop(UnsupportedMajor)
               else EnvelopeEntries(t, m, NO_ENVELOPE.(previous := Some(2), major := Some(1), minor := Some(e.minor),
                                                       kind := Some(TypeCode(e.kind))))
  {
    hide EnvelopeEntry, EncEntry, EncFields;
    var v := [e.major, e.minor, TypeCode(e.kind)];
    var s2 := EncFields(v[2..], 2) + t;
    var s1 := EncFields(v[1..], 1) + t;
    var a1 := Stored(0, e.major, NO_ENVELOPE);
    var a2 := Stored(1, e.minor, a1);
    assert v[0..] == v;
    EncFieldsStep(v, 0, t);
    EncFieldsStep(v, 1, t);
    EncFieldsStep(v, 2, t);
    EncFieldsEnd(v, t);
    EnvelopeUintRead(0, e.major, s1, NO_ENVELOPE);
    if e.major == 1 {
      EnvelopeUintRead(1, e.minor, s2, a1);
      EnvelopeUintRead(2, TypeCode(e.kind), t, a2);
      EnvelopeStep(EncFields(v, 0) + t, 3 + m, NO_ENVELOPE, a1, s1);
      EnvelopeStep(s1, 2 + m, a1, a2, s2);
      EnvelopeStep(s2, 1 + m, a2, Stored(2, TypeCode(e.kind), a2), t);
    }
  }

  /** Keys 3 to 5. */
  lemma PayloadRead(e: Envelope, body: seq<Byte>, t: seq<Byte>, m: nat)
    requires SkipBody(body + t) == Some(t) && e.major == 1
    requires e.kind == SnapshotType || |body| <= MAX_CONTROL_BODY
    ensures EnvelopeEntries(
              EncByteEntry(3, e.session) + (EncEntry(4, e.sequence) + (EncUint(0, 5) + (body + t))), 3 + m,
              NO_ENVELOPE.(previous := Some(2), major := Some(1), minor := Some(e.minor),
                           kind := Some(TypeCode(e.kind))))
            == EnvelopeEntries(t, m, CoreSlots(e, body))
  {
    hide EnvelopeEntry, EnvelopeEntries, EncEntry, EncByteEntry, EncUint, SkipBody;
    var s5 := EncUint(0, 5) + (body + t);
    var s4 := EncEntry(4, e.sequence) + s5;
    var a3 := NO_ENVELOPE.(previous := Some(2), major := Some(1), minor := Some(e.minor),
                           kind := Some(TypeCode(e.kind)));
    var a4 := a3.(previous := Some(3), session := Some(e.session));
    var a5 := Stored(4, e.sequence, a4);
    assert TypeFrom(TypeCode(e.kind)) == Some(e.kind);
    EnvelopeSessionRead(e.session, s4, a3);
    EnvelopeStep(EncByteEntry(3, e.session) + s4, 3 + m, a3, a4, s4);
    EnvelopeUintRead(4, e.sequence, s5, a4);
    EnvelopeStep(s4, 2 + m, a4, a5, s5);
    EnvelopeBodyRead(body, t, a5);
    EnvelopeStep(s5, 1 + m, a5, CoreSlots(e, body), t);
  }

  function ContentTail(e: Envelope, body: seq<Byte>): seq<Byte>
    requires OffsetInRange(e)
  {
    EncByteEntry(3, e.session) + (EncEntry(4, e.sequence) + (EncUint(0, 5) + (body + EncTimes(e))))
  }

  lemma ContentHead(e: Envelope, body: seq<Byte>)
    requires OffsetInRange(e)
    ensures ReadUint(EncContent(e, body), 5)
            == Got(6 + Present(e.utcMs) + Present(e.utcUncertaintyMs) + Present(e.localOffsetMinutes),
                   EncFields([e.major, e.minor, TypeCode(e.kind)], 0) + ContentTail(e, body))
  {
    hide ReadUint, EncUint, EncFields, EncByteEntry, EncEntry, EncTimes, OffsetInRange;
    ReadOfUint(5, 6 + Present(e.utcMs) + Present(e.utcUncertaintyMs) + Present(e.localOffsetMinutes),
               EncFields([e.major, e.minor, TypeCode(e.kind)], 0) + ContentTail(e, body));
  }

  lemma ParseByEntries(c: seq<Byte>)
    requires ReadUint(c, 5).Got? && ReadUint(c, 5).value <= MAX_ITEMS
    ensures
      var last := EnvelopeEntries(ReadUint(c, 5).rest, ReadUint(c, 5).value, NO_ENVELOPE);
      ParseContent(c)
      == if last.Stop? then Err(last.error)
         else if last.rest != [] || EnvelopeFrom(last.acc).None? then Err(Malformed)
         else Ok(EnvelopeFrom(last.acc).value)
  {
    hide ReadUint, EnvelopeEntries, EnvelopeFrom;
  }

  lemma ForeignMajor(e: Envelope, body: seq<Byte>)
    requires OffsetInRange(e) && e.major != 1
    ensures ParseContent(EncContent(e, body)) == Err(UnsupportedMajor)
  {
    hide ReadUint, EnvelopeEntries, EncFields, ContentTail, EncContent, ParseContent;
    ContentHead(e, body);
    ParseByEntries(EncContent(e, body));
    VersionRead(e, ContentTail(e, body),
                3 + Present(e.utcMs) + Present(e.utcUncertaintyMs) + Present(e.localOffsetMinutes));
  }

  /** The envelope and its body read back when the body can be skipped where it stands. */
  lemma EnvelopeRoundTrip(e: Envelope, body: seq<Byte>)
    requires OffsetInRange(e) && e.major == 1
    requires SkipBody(body + EncTimes(e)) == Some(EncTimes(e))
    requires e.kind == SnapshotType || |body| <= MAX_CONTROL_BODY
    ensures ParseContent(EncContent(e, body)) == Ok((e, body))
  {
    hide ReadUint, EnvelopeEntries, EncFields, EncContent, ParseContent, EncByteEntry, EncEntry, EncUint, EncTimes;
    hide SkipBody;
    var n := Present(e.utcMs) + Present(e.utcUncertaintyMs) + Present(e.localOffsetMinutes);
    assert TypeFrom(TypeCode(e.kind)) == Some(e.kind);
    ContentHead(e, body);
    ParseByEntries(EncContent(e, body));
    VersionRead(e, ContentTail(e, body), 3 + n);
    PayloadRead(e, body, EncTimes(e), n);
    TimesRead(e, body);
  }

  // ---- snapshots ----

  lemma {:induction false} FieldsSkipped(v: seq<U64>, k: nat, t: seq<Byte>, m: nat)
    requires k <= |v| <= 24
    ensures SkipEntries(EncFields(v[k..], k) + t, |v| - k + m) == SkipEntries(t, m)
    decreases |v| - k
  {
    hide FieldEntry, EncEntry, EncFields, SkipEntry, Filled;
    if k == |v| {
      EncFieldsEnd(v, t);
    } else {
      var u := EncFields(v[k + 1..], k + 1) + t;
      EncFieldsStep(v, k, t);
      FieldEntryRead(|v|, v, k, u);
      FieldEntrySkips(EncEntry(k, v[k]) + u, Filled(|v|, v, k));
      FieldsSkipped(v, k + 1, t, m);
    }
  }

  /** Whatever its CPU share, an encoded snapshot body is skipped to exactly its end. */
  lemma SnapshotBodySkipped(s: Snapshot, t: seq<Byte>)
    requires Encodable(s)
    ensures SkipBody(EncSnapshotBody(s) + t) == Some(t)
  {
    hide ReadUint, EncFields, GroupBytes, CpuFields, Encodable, BodyEntries, SkipEntries, EncSnapshotBody;
    var v := CpuFields(s.cpu);
    var body := EncSnapshotBody(s);
    assert v[0..] == v;
    SnapshotBodyHead(s);
    FieldsSkipped(v, 0, GroupBytes(s), GroupCount(s));
    GroupsRead(s, NO_BODY);
    BodyEntriesSkip(GroupBytes(s), GroupCount(s), NO_BODY);
    assert SkipEntries(EncFields(v, 0) + GroupBytes(s), 5 + GroupCount(s)) == Some([]);
    UintOfRead(body, 5);
    SkipBodyLocal(body, t);
    assert [] + t == t;
  }

  // ---- sizes ----

  function Sum(b: seq<nat>): nat { if b == [] then 0 else b[0] + Sum(b[1..]) }

  /** Each value's head is one byte and a tail within the given bound; each key is one byte. */
  lemma {:induction false} FieldsLength(v: seq<U64>, first: nat, tails: seq<nat>)
    requires first + |v| <= 24 && |tails| == |v|
    requires forall i | 0 <= i < |v| :: Form(v[i]).1 <= tails[i]
    ensures |EncFields(v, first)| <= 2 * |v| + Sum(tails)
    decreases |v|
  {
    if v != [] {
      FieldsLength(v[1..], first + 1, tails[1..]);
    }
  }

  lemma {:induction false} FieldsLengthSplit(v: seq<U64>, first: nat, i: nat)
    requires i <= |v| && first + |v| <= 24
    ensures |EncFields(v, first)| == |EncFields(v[..i], first)| + |EncFields(v[i..], first + i)|
    decreases i
  {
    hide EncEntry;
    if i > 0 {
      FieldsLengthSplit(v[1..], first + 1, i - 1);
      assert v[..i][1..] == v[1..][..i - 1] && v[1..][i - 1..] == v[i..];
    }
  }

  /** Ten fields, five and five. */
  lemma TenFieldsLength(v: seq<U64>, low: seq<nat>, high: seq<nat>)
    requires |v| == 10 && |low| == 5 && |high| == 5
    requires forall i | 0 <= i < 5 :: Form(v[..5][i]).1 <= low[i] && Form(v[5..][i]).1 <= high[i]
    ensures |EncFields(v, 0)| <= 20 + Sum(low) + Sum(high)
  {
    hide EncFields, Form;
    FieldsLengthSplit(v, 0, 5);
    FieldsLength(v[..5], 0, low);
    FieldsLength(v[5..], 5, high);
  }

  lemma GroupLength(v: seq<U64>, tails: seq<nat>)
    requires |tails| == |v| < 24
    requires forall i | 0 <= i < |v| :: Form(v[i]).1 <= tails[i]
    ensures |EncFields(v, 0)| <= 2 * |v| + Sum(tails)
    ensures |EncGroup(v)| <= 1 + 2 * |v| + Sum(tails)
  {
    hide EncFields;
    FieldsLength(v, 0, tails);
  }

  lemma CpuAndRamLength(s: Snapshot)
    requires Encodable(s)
    ensures |EncFields(CpuFields(s.cpu), 0)| <= 20 && |EncRamGroup(s)| <= 32
  {
    hide EncFields, EncGroup;
    assert Sum([0, 2, 4, 0, 4]) == 10 && Sum([0, 8, 8, 4, 0]) == 20;
    GroupLength(CpuFields(s.cpu), [0, 2, 4, 0, 4]);
    if s.ram.Some? { GroupLength(RamFields(s.ram.value), [0, 8, 8, 4, 0]); }
  }

  lemma StorageLength(s: Snapshot)
    requires Encodable(s)
    ensures |EncStorageGroup(s)| <= 58
  {
    hide EncFields, EncGroup;
    assert Sum([0, 8, 8, 4, 0, 8, 8, 4]) == 40;
    if s.storage.Some? { GroupLength(StorageFields(s.storage.value), [0, 8, 8, 4, 0, 8, 8, 4]); }
  }

  lemma BatteryLength(s: Snapshot)
    requires Encodable(s)
    ensures |EncBatteryGroup(s)| <= 38
  {
    hide EncFields;
    assert Sum([0, 2, 0, 2, 4]) == 8;
    if s.battery.Some? {
      var v := BatteryFields(s.battery.value);
      assert v[..5] == [v[0], v[1], v[2], v[3], v[4]] && v[5..] == [v[5], v[6], v[7], v[8], v[9]];
      TenFieldsLength(v, [0, 2, 0, 2, 4], [0, 2, 0, 2, 4]);
    }
  }

  lemma AgentsLength(s: Snapshot)
    requires Encodable(s)
    ensures |EncAgentsGroup(s)| <= 20
  {
    hide EncFields, EncGroup;
    assert Sum([0, 4, 0, 0, 0, 0, 0]) == 4;
    if s.agents.Some? {
      var x := s.agents.value.state;
      assert x[0] in x && x[1] in x && x[2] in x && x[3] in x && x[4] in x;
      GroupLength(AgentsFields(s.agents.value), [0, 4, 0, 0, 0, 0, 0]);
    }
  }

  lemma ByteEntryLength(key: U64, b: seq<Byte>)
    requires key < 24 && |b| <= 0xFF
    ensures |EncByteEntry(key, b)| == (if |b| < 24 then 2 else 3) + |b|
  {
    hide EncUint;
  }

  lemma OptionalLength(key: U64, value: Option<U64>, tail: nat)
    requires key < 24 && (value.Some? ==> Form(value.value).1 <= tail)
    ensures |EncOptional(key, value)| <= 2 + tail
  {
    hide EncUint;
  }

  lemma NetworkStringsLength(n: NetworkSnapshot)
    requires n.IsValid()
    ensures |EncNetworkStrings(n)| <= 61
  {
    hide EncByteEntry, MacBytes, LinkBytes;
    ByteEntryLength(10, MacBytes(n.station));
    ByteEntryLength(11, n.ssid);
    ByteEntryLength(12, MacBytes(n.bssid));
    if n.links.Some? { ByteEntryLength(13, LinkBytes(n.links.value)); }
  }

  lemma NetworkFieldsLength(n: NetworkSnapshot)
    ensures |EncFields(NetworkFields(n), 0)| <= 45
  {
    hide EncFields;
    assert Sum([0, 4, 0, 0, 8]) == 12 && Sum([8, 0, 4, 0, 1]) == 13;
    var v := NetworkFields(n);
    assert v[..5] == [v[0], v[1], v[2], v[3], v[4]] && v[5..] == [v[5], v[6], v[7], v[8], v[9]];
    TenFieldsLength(v, [0, 4, 0, 0, 8], [8, 0, 4, 0, 1]);
  }

  lemma NetworkLength(s: Snapshot)
    requires Encodable(s)
    ensures |EncNetworkGroup(s)| <= 108
  {
    hide EncFields, EncNetworkStrings, NetworkSnapshot.IsValid, NetworkFields, EncUint;
    if s.network.Some? {
      NetworkFieldsLength(s.network.value);
      NetworkStringsLength(s.network.value);
    }
  }

  lemma TimesLength(e: Envelope)
    requires OffsetInRange(e)
    ensures |EncTimes(e)| <= 20
  {
    hide EncOptional;
    OptionalLength(6, e.utcMs, 8);
    OptionalLength(7, Widen(e.utcUncertaintyMs), 4);
    OptionalLength(8, BiasedOffset(e), 2);
  }

  lemma VersionLength(e: Envelope)
    ensures |EncFields([e.major, e.minor, TypeCode(e.kind)], 0)| <= 8
  {
    hide EncFields;
    assert Sum([1, 1, 0]) == 2;
    FieldsLength([e.major, e.minor, TypeCode(e.kind)], 0, [1, 1, 0]);
  }

  lemma EnvelopeLength(e: Envelope, body: seq<Byte>)
    requires OffsetInRange(e)
    ensures 1 <= |EncContent(e, body)| <= 54 + |body|
  {
    hide EncFields, EncUint, EncTimes, EncByteEntry, OffsetInRange;
    VersionLength(e);
    TimesLength(e);
    ByteEntryLength(3, e.session);
  }

  /** `encode_groups` writes at most 337 bytes: its own size check can never fail. */
  lemma SnapshotFrameLength(e: Envelope, s: Snapshot)
    ensures EncodeGroups(e, s) != Err(TooLarge)
    ensures EncodeGroups(e, s).Ok? ==> |EncodeGroups(e, s).value| <= 337
    ensures EncodeGroups(e, s).Ok? <==> Encodable(s) && OffsetInRange(e)
  {
    if Encodable(s) && OffsetInRange(e) {
      assert |EncSnapshotBody(s)| <= 277 by {
        hide EncRamGroup, EncStorageGroup, EncBatteryGroup, EncAgentsGroup, EncNetworkGroup, EncFields, CpuFields;
        CpuAndRamLength(s);
        StorageLength(s);
        BatteryLength(s);
        AgentsLength(s);
        NetworkLength(s);
      }
      hide EncSnapshotBody, EncContent, Crc32;
      EnvelopeLength(e, EncSnapshotBody(s));
    }
  }

  lemma DecodeSealed(e: Envelope, body: seq<Byte>)
    requires Seal(e, body).Ok?
    ensures OffsetInRange(e)
    ensures FrameError(Seal(e, body).value).None?
    ensures ParseEnvelope(Seal(e, body).value) == ParseContent(EncContent(e, body))
  {
    hide FrameError, ParseContent, Frame, EncContent;
    EnvelopeLength(e, body);
    FrameShape(EncContent(e, body));
  }

  /** What becomes of a snapshot frame at the other end, for every snapshot the encoder accepts. */
  lemma SnapshotRoundTrip(e: Envelope, s: Snapshot)
    requires EncodeGroups(e, s).Ok?
    ensures e.major != 1 ==> DecodeFrame(EncodeGroups(e, s).value) == Err(UnsupportedMajor)
    ensures e.major == 1 && e.kind == SnapshotType ==>
              DecodeFrame(EncodeGroups(e, s).value)
              == if s.cpu.utilizationPerMille <= 1000 then Ok(SnapshotMessage(e, s)) else Err(Malformed)
    ensures DecodeFrame(EncodeGroups(e, s).value) == Ok(SnapshotMessage(e, s))
            <==> e.major == 1 && e.kind == SnapshotType && s.cpu.utilizationPerMille <= 1000
  {
    hide ParseContent, FrameError, Seal, EncContent, EncSnapshotBody, DecodeSnapshotBody, Encodable, SkipBody, EncTimes;
    var body := EncSnapshotBody(s);
    DecodeSealed(e, body);
    if e.major != 1 {
      ForeignMajor(e, body);
    } else if e.kind == SnapshotType {
      SnapshotBodySkipped(s, EncTimes(e));
      EnvelopeRoundTrip(e, body);
      SnapshotBodyRoundTrip(s);
    }
  }

  /** A control message the encoder accepts decodes back to itself exactly under major 1. */
  lemma ControlMessageRoundTrip(e: Envelope, b: ControlBody)
    requires EncodeControl(e, b).Ok?
    ensures DecodeFrame(EncodeControl(e, b).value)
            == if e.major == 1 then Ok(ControlMessage(e, b)) else Err(UnsupportedMajor)
  {
    hide ParseContent, FrameError, Seal, EncContent, DecodeControlBody, SkipBody, EncTimes;
    var body := EncControlBody(e.kind, b).value;
    DecodeSealed(e, body);
    ControlBodyRoundTrip(e.kind, b);
    if e.major != 1 {
      ForeignMajor(e, body);
    } else {
      SkipBodyOfControl(e.kind, body, EncTimes(e));
      EnvelopeRoundTrip(e, body);
    }
  }
}
