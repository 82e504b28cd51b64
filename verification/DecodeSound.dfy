/** What the decoders refuse: whatever they accept is a well-formed map in which no known key comes twice, with
    nothing behind it, and its values are such that the encoder writes them again. */
module DecodeSound {
  import opened Basics
  import opened Cbor
  import Crc
  import opened Messages
  import opened Decode
  import opened SkipProofs
  import opened FrameRoundTrip
  import opened Delivery

  // ---- keys ----

  /** The keys of the first `n` entries of a map, as far as there are any. */
  function Keys(s: seq<Byte>, n: nat): (ks: seq<U64>)
    ensures |ks| <= n
    decreases n
  {
    var key := ReadUint(s, 0);
    if n == 0 || key.Fail? || SkipEntry(s).None? then [] else [key.value] + Keys(SkipEntry(s).value, n - 1)
  }

  predicate Rising(ks: seq<U64>) { forall i, j | 0 <= i < j < |ks| :: ks[i] < ks[j] }

  /** No key below `known` comes twice. */
  predicate Once(ks: seq<U64>, known: nat) { forall i, j | 0 <= i < j < |ks| && ks[i] == ks[j] :: ks[i] >= known }

  lemma KeysStep(s: seq<Byte>, n: nat)
    requires ReadUint(s, 0).Got? && SkipEntry(s).Some?
    ensures Keys(s, n + 1) == [ReadUint(s, 0).value] + Keys(SkipEntry(s).value, n)
  {
    hide SkipEntry;
  }

  lemma NoKeys(s: seq<Byte>)
    ensures Keys(s, 0) == [] && Rising([]) && forall known: nat :: Once([], known)
  {
  }

  lemma OnceMore(k: U64, ks: seq<U64>, known: nat)
    requires Once(ks, known) && (k < known ==> k !in ks)
    ensures Once([k] + ks, known)
  {
  }

  lemma RisesMore(k: U64, ks: seq<U64>)
    requires Rising(ks) && forall x <- ks :: k < x
    ensures Rising([k] + ks)
  {
    assert forall i | 0 <= i < |ks| :: ks[i] in ks;
  }

  // ---- groups ----

  lemma FieldEntryKey(s: seq<Byte>, slots: Slots)
    requires FieldEntry(s, slots).Got?
    ensures
      var k := ReadUint(s, 0);
      var out := FieldEntry(s, slots).value;
      && k.Got? && |out| == |slots|
      && (if k.value < |slots| then slots[k.value].None? && out == slots[k.value := out[k.value]] && out[k.value].Some?
          else out == slots)
  {
    hide SkipValue;
  }

  /** A field loop takes each slot from one entry, and each known key at most once. */
  lemma {:induction false} FieldKeys(s: seq<Byte>, count: nat, slots: Slots)
    requires FieldEntries(s, count, slots).Got?
    ensures
      var (ks, out) := (Keys(s, count), FieldEntries(s, count, slots).value);
      && |ks| == count && Once(ks, |slots|) && |out| == |slots|
      && (forall k <- ks | k < |slots| :: slots[k].None?)
      && (forall k | 0 <= k < |slots| :: out[k].Some? <==> slots[k].Some? || k in ks)
    decreases count
  {
    hide FieldEntry, SkipEntry, SkipMany, ReadUint, Once;
    if count > 0 {
      FieldEntriesSplit(s, count, slots);
      FieldEntrySkips(s, slots);
      FieldEntryKey(s, slots);
      var first, k := FieldEntry(s, slots), ReadUint(s, 0).value;
      hide FieldEntries;
      FieldKeys(first.rest, count - 1, first.value);
      KeysStep(s, count - 1);
      OnceMore(k, Keys(first.rest, count - 1), |slots|);
      hide Keys;
    } else {
      NoKeys(s);
    }
  }

  /** A group that decodes holds each of its keys exactly once, and none of its keys twice. */
  lemma GroupKeysOnce(s: seq<Byte>, n: nat)
    requires ReadFields(s, n).Got?
    ensures
      var count := ReadUint(s, 5);
      && count.Got? && count.value <= MAX_ITEMS
      && var ks := Keys(count.rest, count.value);
         |ks| == count.value && Once(ks, n) && forall k: nat | k < n :: k in ks
  {
    var count := ReadUint(s, 5);
    FieldKeys(count.rest, count.value, Empty(n));
    var out := FieldEntries(count.rest, count.value, Empty(n)).value;
    hide Keys, FieldEntries, Once;
    forall k: nat | k < n ensures k in Keys(count.rest, count.value) { assert out[k] in out; }
  }

  // ---- the network group ----

  predicate NetworkTaken(acc: NetworkSlots, k: nat)
    requires acc.Shaped()
  {
    if k < 10 then acc.fields[k].Some? else if k < 13 then acc.strings[k - 10].Some? else k == 13 && acc.links.Some?
  }

  lemma NetworkEntryKey(s: seq<Byte>, acc: NetworkSlots)
    requires acc.Shaped() && NetworkEntry(s, acc).Got?
    ensures
      var k := ReadUint(s, 0);
      var out := NetworkEntry(s, acc).value;
      && k.Got? && (k.value < 14 ==> !NetworkTaken(acc, k.value))
      && forall j: nat | j < 14 :: NetworkTaken(out, j) <==> NetworkTaken(acc, j) || j == k.value
  {
    var k := ReadUint(s, 0);
    if k.value < 10 { FieldEntryKey(s, acc.fields); }
    hide SkipValue, FieldEntry, ReadByteString;
  }

  lemma NetworkEntryIsEntry(s: seq<Byte>, acc: NetworkSlots)
    requires acc.Shaped() && NetworkEntry(s, acc).Got?
    ensures SkipEntry(s) == Some(NetworkEntry(s, acc).rest)
  {
    NetworkEntrySkips(s, acc);
    var r := NetworkEntry(s, acc).rest;
    hide NetworkEntry, SkipValue, SkipEntryValue;
    var one := SkipValue(s, 0).value;
    assert SkipMany(one, 1, 0) == Some(r);
    assert SkipValue(one, 0).Some? && SkipMany(SkipValue(one, 0).value, 0, 0) == Some(SkipValue(one, 0).value);
    SkipOfUnknown(one);
  }

  lemma {:induction false} NetworkKeys(s: seq<Byte>, count: nat, acc: NetworkSlots)
    requires acc.Shaped() && NetworkEntries(s, count, acc).Got?
    ensures
      var (ks, out) := (Keys(s, count), NetworkEntries(s, count, acc).value);
      && |ks| == count && Once(ks, 14) && (forall k <- ks | k < 14 :: !NetworkTaken(acc, k))
      && (forall k: nat | k < 14 :: NetworkTaken(out, k) <==> NetworkTaken(acc, k) || k in ks)
    decreases count
  {
    hide NetworkEntry, SkipEntry, SkipMany, ReadUint, Once, NetworkTaken;
    if count > 0 {
      NetworkEntriesSplit(s, count, acc);
      NetworkEntryIsEntry(s, acc);
      NetworkEntryKey(s, acc);
      var first, k := NetworkEntry(s, acc), ReadUint(s, 0).value;
      hide NetworkEntries;
      NetworkKeys(first.rest, count - 1, first.value);
      KeysStep(s, count - 1);
      OnceMore(k, Keys(first.rest, count - 1), 14);
      hide Keys;
    } else {
      NoKeys(s);
    }
  }

  lemma NothingTaken()
    ensures forall k: nat | k < 14 :: !NetworkTaken(NO_NETWORK, k)
    ensures forall k: nat | k < 10 :: !BodyTaken(NO_BODY, k)
  {
  }

  lemma AllTaken(out: NetworkSlots)
    requires out.Shaped() && NetworkFrom(out).Some?
    ensures forall k: nat | k < 13 :: NetworkTaken(out, k)
  {
    assert Complete(out.fields) && out.strings[0].Some? && out.strings[1].Some? && out.strings[2].Some?;
    hide NetworkFrom;
    forall k: nat | k < 13 ensures NetworkTaken(out, k) { if k < 10 { assert out.fields[k] in out.fields; } }
  }

  /** A network group that decodes holds keys 0 to 12 exactly once and key 13 at most once. */
  lemma NetworkKeysOnce(s: seq<Byte>)
    requires ReadNetwork(s).Got?
    ensures
      var count := ReadUint(s, 5);
      && count.Got? && count.value <= MAX_ITEMS
      && var ks := Keys(count.rest, count.value);
         |ks| == count.value && Once(ks, 14) && forall k: nat | k < 13 :: k in ks
  {
    var count := ReadUint(s, 5);
    hide Keys, NetworkEntries, Once, NetworkFrom, NetworkTaken;
    NetworkKeys(count.rest, count.value, NO_NETWORK);
    NothingTaken();
    AllTaken(NetworkEntries(count.rest, count.value, NO_NETWORK).value);
  }

  // ---- the snapshot body ----

  predicate BodyTaken(acc: BodySlots, k: nat)
    requires |acc.cpu| == 5
  {
    if k < 5 then acc.cpu[k].Some? else if k == 5 then acc.ram.Some? else if k == 6 then acc.storage.Some?
    else if k == 7 then acc.battery.Some? else if k == 8 then acc.agents.Some? else k == 9 && acc.network.Some?
  }

  lemma BodyEntryKey(s: seq<Byte>, acc: BodySlots)
    requires |acc.cpu| == 5 && BodyEntry(s, acc).Got?
    ensures
      var k := ReadUint(s, 0);
      var out := BodyEntry(s, acc).value;
      && k.Got? && (k.value < 10 ==> !BodyTaken(acc, k.value))
      && forall j: nat | j < 10 :: BodyTaken(out, j) <==> BodyTaken(acc, j) || j == k.value
  {
    var k := ReadUint(s, 0);
    if k.value < 5 || k.value > 9 { FieldEntryKey(s, acc.cpu); }
    hide SkipValue, FieldEntry, ReadFields, ReadNetwork, RamFrom, StorageFrom, BatteryFrom, AgentsFrom;
  }

  lemma {:induction false} BodyKeys(s: seq<Byte>, count: nat, acc: BodySlots)
    requires |acc.cpu| == 5 && BodyEntries(s, count, acc).Got?
    ensures
      var (ks, out) := (Keys(s, count), BodyEntries(s, count, acc).value);
      && |ks| == count && Once(ks, 10) && (forall k <- ks | k < 10 :: !BodyTaken(acc, k))
      && (forall k: nat | k < 10 :: BodyTaken(out, k) <==> BodyTaken(acc, k) || k in ks)
    decreases count
  {
    hide BodyEntry, SkipEntry, SkipMany, ReadUint, Once, BodyTaken;
    if count > 0 {
      BodyEntriesSplit(s, count, acc);
      BodyEntrySkips(s, acc);
      BodyEntryKey(s, acc);
      var first, k := BodyEntry(s, acc), ReadUint(s, 0).value;
      hide BodyEntries;
      BodyKeys(first.rest, count - 1, first.value);
      KeysStep(s, count - 1);
      OnceMore(k, Keys(first.rest, count - 1), 10);
      hide Keys;
    } else {
      NoKeys(s);
    }
  }

  lemma BodyTakes(out: BodySlots)
    requires |out.cpu| == 5 && SnapshotFrom(out).Some?
    ensures forall k: nat | k < 5 :: BodyTaken(out, k)
    ensures
      var x := SnapshotFrom(out).value;
      && (BodyTaken(out, 5) <==> x.ram.Some?) && (BodyTaken(out, 6) <==> x.storage.Some?)
      && (BodyTaken(out, 7) <==> x.battery.Some?) && (BodyTaken(out, 8) <==> x.agents.Some?)
      && (BodyTaken(out, 9) <==> x.network.Some?)
  {
    forall k: nat | k < 5 ensures BodyTaken(out, k) { assert out.cpu[k] in out.cpu; }
  }

  /** A snapshot body that decodes is a map of at most ten entries: the CPU's five once each, each group at most
      once and just those the snapshot has, and nothing behind. */
  lemma BodyKeysOnce(body: seq<Byte>)
    requires DecodeSnapshotBody(body).Some?
    ensures
      var (count, x) := (ReadUint(body, 5), DecodeSnapshotBody(body).value);
      && count.Got? && count.value <= 10 && SkipEntries(count.rest, count.value) == Some([])
      && var ks := Keys(count.rest, count.value);
         && |ks| == count.value && Once(ks, 10) && (forall k: nat | k < 5 :: k in ks)
         && (5 in ks <==> x.ram.Some?) && (6 in ks <==> x.storage.Some?) && (7 in ks <==> x.battery.Some?)
         && (8 in ks <==> x.agents.Some?) && (9 in ks <==> x.network.Some?)
  {
    var count := ReadUint(body, 5);
    hide Keys, BodyEntries, Once, SkipEntries, SnapshotFrom, BodyTaken;
    BodyKeys(count.rest, count.value, NO_BODY);
    BodyEntriesSkip(count.rest, count.value, NO_BODY);
    NothingTaken();
    BodyTakes(BodyEntries(count.rest, count.value, NO_BODY).value);
  }

  // ---- control bodies ----

  lemma ControlEntryKey(s: seq<Byte>, kind: MessageType, acc: ControlSlots)
    requires acc.Shaped() && ControlEntry(s, kind, acc).Got?
    ensures
      var k := ReadUint(s, 0);
      k.Got? && (acc.prior.Some? ==> k.value > acc.prior.value) && ControlEntry(s, kind, acc).value.prior == Some(k.value)
  {
    hide SkipValue, ReadExact;
  }

  lemma {:induction false} ControlKeys(s: seq<Byte>, kind: MessageType, count: nat, acc: ControlSlots)
    requires acc.Shaped() && ControlEntries(s, kind, count, acc).Got?
    ensures
      var ks := Keys(s, count);
      |ks| == count && Rising(ks) && forall k <- ks | acc.prior.Some? :: k > acc.prior.value
    decreases count
  {
    hide ControlEntry, SkipEntry, SkipMany, ReadUint, Rising;
    if count > 0 {
      ControlEntriesSplit(s, kind, count, acc);
      ControlEntrySkips(s, kind, acc);
      ControlEntryKey(s, kind, acc);
      var first, k := ControlEntry(s, kind, acc), ReadUint(s, 0).value;
      hide ControlEntries;
      ControlKeys(first.rest, kind, count - 1, first.value);
      KeysStep(s, count - 1);
      RisesMore(k, Keys(first.rest, count - 1));
      hide Keys;
    } else {
      NoKeys(s);
    }
  }

  /** A control body that decodes is a map of at most sixteen entries with rising keys, and nothing behind. */
  lemma ControlKeysRise(kind: MessageType, c: seq<Byte>)
    requires kind != ErrorType && DecodeControlBody(kind, c).Some?
    ensures
      var count := ReadUint(c, 5);
      && count.Got? && count.value <= MAX_ITEMS && SkipEntries(count.rest, count.value) == Some([])
      && |Keys(count.rest, count.value)| == count.value && Rising(Keys(count.rest, count.value))
  {
    var count := ReadUint(c, 5);
    hide ControlFrom, ControlEntry;
    ControlKeys(count.rest, kind, count.value, NO_CONTROL);
    ControlEntriesSkip(count.rest, kind, count.value, NO_CONTROL);
    hide Keys, ControlEntries, Rising, SkipEntries;
  }

  // ---- the envelope ----

  /** Where an entry of an envelope ends: the body may be nested one level deeper than other values. */
  function EnvelopeEntryEnd(s: seq<Byte>): Option<seq<Byte>> {
    var key := ReadUint(s, 0);
    if key.Fail? then None else if key.value == 5 then SkipBody(key.rest) else SkipValue(key.rest, 0)
  }

  function EnvelopeKeys(s: seq<Byte>, n: nat): (ks: seq<U64>)
    ensures |ks| <= n
    decreases n
  {
    if n == 0 || EnvelopeEntryEnd(s).None? then []
    else [ReadUint(s, 0).value] + EnvelopeKeys(EnvelopeEntryEnd(s).value, n - 1)
  }

  /** The input after `n` entries. */
  function EnvelopeEnd(s: seq<Byte>, n: nat): Option<seq<Byte>>
    decreases n
  {
    if n == 0 then Some(s)
    else if EnvelopeEntryEnd(s).None? then None else EnvelopeEnd(EnvelopeEntryEnd(s).value, n - 1)
  }

  predicate EnvelopeTaken(a: EnvelopeSlots, k: nat) {
    if k == 0 then a.major.Some? else if k == 1 then a.minor.Some? else if k == 2 then a.kind.Some?
    else if k == 3 then a.session.Some? else if k == 4 then a.sequence.Some? else if k == 5 then a.body.Some?
    else if k == 6 then a.utcMs.Some? else if k == 7 then a.uncertainty.Some? else k == 8 && a.offset.Some?
  }

  lemma EnvelopeEntryKey(s: seq<Byte>, acc: EnvelopeSlots)
    requires EnvelopeEntry(s, acc).Next?
    ensures
      var (k, r) := (ReadUint(s, 0), EnvelopeEntry(s, acc));
      && k.Got? && EnvelopeEntryEnd(s) == Some(r.rest) && r.acc.previous == Some(k.value)
      && (acc.previous.Some? ==> k.value > acc.previous.value)
      && forall j: nat | j < 9 :: EnvelopeTaken(r.acc, j) <==> EnvelopeTaken(acc, j) || j == k.value
  {
    var k := ReadUint(s, 0);
    if k.value == 3 {
      ExactIsSkipped(k.rest, 16);
    } else if k.value < 9 && k.value != 5 {
      SkipOfUint(k.rest);
    }
    hide SkipValue, SkipBody, ReadUint, ReadExact;
  }

  lemma ExactIsSkipped(s: seq<Byte>, n: nat)
    requires ReadExact(s, n).Got?
    ensures SkipValue(s, 0) == Some(ReadExact(s, n).rest)
  {
  }

  lemma {:induction false} EnvelopeKeysRise(s: seq<Byte>, count: nat, acc: EnvelopeSlots)
    requires EnvelopeEntries(s, count, acc).Next?
    ensures
      var (ks, last) := (EnvelopeKeys(s, count), EnvelopeEntries(s, count, acc));
      && |ks| == count && Rising(ks) && EnvelopeEnd(s, count) == Some(last.rest)
      && (forall k <- ks | acc.previous.Some? :: k > acc.previous.value)
      && (forall k: nat | k < 9 :: EnvelopeTaken(last.acc, k) <==> EnvelopeTaken(acc, k) || k in ks)
    decreases count
  {
    hide EnvelopeEntry, EnvelopeEntryEnd, ReadUint, Rising, EnvelopeTaken;
    if count > 0 {
      EnvelopeEntryKey(s, acc);
      var first, k := EnvelopeEntry(s, acc), ReadUint(s, 0).value;
      EnvelopeKeysRise(first.rest, count - 1, first.acc);
      RisesMore(k, EnvelopeKeys(first.rest, count - 1));
    } else {
      NoKeys(s);
    }
  }

  lemma EnvelopeHas(a: EnvelopeSlots)
    requires EnvelopeFrom(a).Some?
    ensures forall k: nat | k < 6 :: EnvelopeTaken(a, k)
    ensures
      var e := EnvelopeFrom(a).value.0;
      && (EnvelopeTaken(a, 6) <==> e.utcMs.Some?) && (EnvelopeTaken(a, 7) <==> e.utcUncertaintyMs.Some?)
      && (EnvelopeTaken(a, 8) <==> e.localOffsetMinutes.Some?)
  {
    hide TypeFrom;
  }

  lemma NothingInEnvelope()
    ensures forall k: nat | k < 9 :: !EnvelopeTaken(NO_ENVELOPE, k)
  {
  }

  /** An envelope that parses is a map of at most sixteen entries with rising keys, 0 to 5 among them and each
      optional key just when its field is there, and nothing behind. */
  lemma EnvelopeIsMap(c: seq<Byte>)
    requires ParseContent(c).Ok?
    ensures
      var (count, e) := (ReadUint(c, 5), ParseContent(c).value.0);
      && count.Got? && count.value <= MAX_ITEMS && EnvelopeEnd(count.rest, count.value) == Some([])
      && var ks := EnvelopeKeys(count.rest, count.value);
         && |ks| == count.value && Rising(ks) && (forall k: nat | k < 6 :: k in ks)
         && (6 in ks <==> e.utcMs.Some?) && (7 in ks <==> e.utcUncertaintyMs.Some?)
         && (8 in ks <==> e.localOffsetMinutes.Some?)
  {
    var count := ReadUint(c, 5);
    hide ReadUint, EnvelopeKeys, EnvelopeEntries, EnvelopeEnd, Rising, EnvelopeFrom, EnvelopeTaken;
    EnvelopeKeysRise(count.rest, count.value, NO_ENVELOPE);
    NothingInEnvelope();
    EnvelopeHas(EnvelopeEntries(count.rest, count.value, NO_ENVELOPE).acc);
  }

  // ---- values ----

  /** The groups taken so far are such as the encoder sends. */
  predicate GroupsFit(acc: BodySlots) {
    && (acc.ram.Some? ==> acc.ram.value.usedBytes <= acc.ram.value.totalBytes)
    && (acc.storage.Some? ==> acc.storage.value.availableBytes <= acc.storage.value.totalBytes)
    && (acc.battery.Some? ==>
          acc.battery.value.chargePerMille <= 1000 && acc.battery.value.maxCapacityPerMille <= 1000
          && acc.battery.value.state <= 4 && acc.battery.value.condition <= 3)
    && (acc.agents.Some? ==> forall x <- acc.agents.value.state :: x <= 3)
    && (acc.network.Some? ==> acc.network.value.IsValid())
  }

  lemma BodyEntryFits(s: seq<Byte>, acc: BodySlots)
    requires |acc.cpu| == 5 && GroupsFit(acc) && BodyEntry(s, acc).Got?
    ensures GroupsFit(BodyEntry(s, acc).value)
  {
    hide FieldEntry, ReadGroup, RamFrom, StorageFrom, BatteryFrom, AgentsFrom, ReadNetwork, ReadUint;
    var rest := ReadUint(s, 0).rest;
    RamIsFit(rest);
    StorageIsFit(rest);
    BatteryIsFit(rest);
    AgentsAreFit(rest);
    NetworkIsValid(rest);
  }

  lemma RamIsFit(s: seq<Byte>)
    ensures var g := ReadGroup(s, 5, RamFrom); g.Got? ==> g.value.usedBytes <= g.value.totalBytes
  {
    hide ReadFields;
  }

  lemma StorageIsFit(s: seq<Byte>)
    ensures var g := ReadGroup(s, 8, StorageFrom); g.Got? ==> g.value.availableBytes <= g.value.totalBytes
  {
    hide ReadFields;
  }

  lemma BatteryIsFit(s: seq<Byte>)
    ensures
      var g := ReadGroup(s, 10, BatteryFrom);
      g.Got? ==> g.value.chargePerMille <= 1000 && g.value.maxCapacityPerMille <= 1000
                 && g.value.state <= 4 && g.value.condition <= 3
  {
    hide ReadFields;
  }

  lemma AgentsAreFit(s: seq<Byte>)
    ensures var g := ReadGroup(s, 7, AgentsFrom); g.Got? ==> forall x <- g.value.state :: x <= 3
  {
    hide ReadFields;
  }

  lemma NetworkIsValid(s: seq<Byte>)
    ensures ReadNetwork(s).Got? ==> ReadNetwork(s).value.IsValid()
  {
    hide ReadUint, NetworkEntries;
  }

  lemma {:induction false} BodyFits(s: seq<Byte>, count: nat, acc: BodySlots)
    requires |acc.cpu| == 5 && GroupsFit(acc) && BodyEntries(s, count, acc).Got?
    ensures GroupsFit(BodyEntries(s, count, acc).value)
    decreases count
  {
    hide BodyEntry, GroupsFit;
    if count > 0 {
      BodyEntryFits(s, acc);
      BodyFits(BodyEntry(s, acc).rest, count - 1, BodyEntry(s, acc).value);
    }
  }

  /** A decoded snapshot is one that the encoder accepts. */
  lemma SnapshotIsEncodable(body: seq<Byte>)
    requires DecodeSnapshotBody(body).Some?
    ensures Encodable(DecodeSnapshotBody(body).value)
    ensures DecodeSnapshotBody(body).value.cpu.utilizationPerMille <= 1000
  {
    var count := ReadUint(body, 5);
    hide ReadUint, BodyEntries;
    BodyFits(count.rest, count.value, NO_BODY);
  }

  /** An offset within a day, and a body of at most 512 bytes unless it is a snapshot's. */
  predicate EnvelopeFits(a: EnvelopeSlots) {
    && (a.offset.Some? ==> -1440 <= a.offset.value <= 1440)
    && (a.body.Some? ==>
          && a.previous.Some? && a.previous.value >= 5 && a.kind.Some?
          && (a.kind.value != TypeCode(SnapshotType) ==> |a.body.value| <= MAX_CONTROL_BODY))
  }

  lemma EnvelopeEntryFits(s: seq<Byte>, acc: EnvelopeSlots)
    requires EnvelopeFits(acc) && EnvelopeEntry(s, acc).Next?
    ensures EnvelopeFits(EnvelopeEntry(s, acc).acc)
  {
    hide ReadUint, SkipValue, SkipBody, ReadExact;
  }

  lemma {:induction false} EnvelopeEntriesFit(s: seq<Byte>, count: nat, acc: EnvelopeSlots)
    requires EnvelopeFits(acc) && EnvelopeEntries(s, count, acc).Next?
    ensures EnvelopeFits(EnvelopeEntries(s, count, acc).acc)
    decreases count
  {
    hide EnvelopeEntry, EnvelopeFits;
    if count > 0 {
      EnvelopeEntryFits(s, acc);
      EnvelopeEntriesFit(EnvelopeEntry(s, acc).rest, count - 1, EnvelopeEntry(s, acc).acc);
    }
  }

  lemma ParsedEnvelopeFits(c: seq<Byte>)
    requires ParseContent(c).Ok?
    ensures
      var (e, body) := ParseContent(c).value;
      e.major == 1 && OffsetInRange(e) && (e.kind != SnapshotType ==> |body| <= MAX_CONTROL_BODY)
  {
    var count := ReadUint(c, 5);
    hide ReadUint, EnvelopeEntries;
    EnvelopeEntriesFit(count.rest, count.value, NO_ENVELOPE);
  }

  lemma ErrorBytesFit(c: seq<Byte>)
    requires |c| <= MAX_CONTROL_BODY && DecodeControlBody(ErrorType, c).Some?
    ensures |DecodeControlBody(ErrorType, c).value.bytes| <= MAX_CONTROL_BODY - 3
  {
    UintOfRead(c, 2);
    hide ReadUint;
  }

  /** A decoded control body is one that the encoder accepts under the same type. */
  lemma ControlIsEncodable(kind: MessageType, c: seq<Byte>)
    requires |c| <= MAX_CONTROL_BODY && DecodeControlBody(kind, c).Some?
    ensures EncControlBody(kind, DecodeControlBody(kind, c).value).Some?
  {
    if kind == ErrorType { ErrorBytesFit(c); }
    hide ReadUint, ControlEntries, EncHello, EncPair, EncGroup;
  }

  /** What the decoder read the message from. */
  lemma DecodedParts(frame: seq<Byte>)
    requires DecodeFrame(frame).Ok?
    ensures |frame| >= 7 && ParseContent(frame[2..|frame| - 4]).Ok?
    ensures
      var (m, (e, body)) := (DecodeFrame(frame).value, ParseContent(frame[2..|frame| - 4]).value);
      && m.envelope == e && (m.SnapshotMessage? <==> e.kind == SnapshotType)
      && (m.SnapshotMessage? ==> DecodeSnapshotBody(body) == Some(m.snapshot))
      && (m.ControlMessage? ==> DecodeControlBody(e.kind, body) == Some(m.body))
  {
    hide ParseContent, DecodeSnapshotBody, DecodeControlBody, Crc.Crc32, FromBe;
  }

  lemma ControlBodyKind(kind: MessageType, b: ControlBody)
    requires EncControlBody(kind, b).Some?
    ensures KindMatches(kind, b) && (b.Pair? ==> SixDigits(b.pair.matchingCode))
    ensures b.ErrorReport? ==> |b.bytes| <= MAX_CONTROL_BODY - 3
  {
    hide EncHello, EncPair, EncGroup, EncBytes;
  }

  lemma SnapshotIsDeliverable(e: Envelope, body: seq<Byte>)
    requires e.major == 1 && OffsetInRange(e) && e.kind == SnapshotType && DecodeSnapshotBody(body).Some?
    ensures Deliverable(SnapshotMessage(e, DecodeSnapshotBody(body).value))
  {
    hide DecodeSnapshotBody, Encodable, EncodeGroups, OffsetInRange;
    SnapshotIsEncodable(body);
    SnapshotFrameLength(e, DecodeSnapshotBody(body).value);
  }

  lemma ControlIsDeliverable(e: Envelope, body: seq<Byte>)
    requires e.major == 1 && OffsetInRange(e) && |body| <= MAX_CONTROL_BODY && DecodeControlBody(e.kind, body).Some?
    ensures Deliverable(ControlMessage(e, DecodeControlBody(e.kind, body).value))
  {
    hide DecodeControlBody, EncodeControl, OffsetInRange, EncControlBody, KindMatches, SixDigits;
    ControlIsEncodable(e.kind, body);
    ControlBodyKind(e.kind, DecodeControlBody(e.kind, body).value);
    ControlEncodes(e, DecodeControlBody(e.kind, body).value);
  }

  lemma AcceptedIsEncoded(frame: seq<Byte>)
    requires DecodeFrame(frame).Ok?
    ensures Deliverable(DecodeFrame(frame).value)
  {
    DecodedParts(frame);
    var (m, c) := (DecodeFrame(frame).value, frame[2..|frame| - 4]);
    ParsedEnvelopeFits(c);
    var body := ParseContent(c).value.1;
    hide DecodeFrame, ParseContent, DecodeSnapshotBody, DecodeControlBody, Deliverable, OffsetInRange;
    if m.SnapshotMessage? { SnapshotIsDeliverable(m.envelope, body); } else { ControlIsDeliverable(m.envelope, body); }
  }

  /** Whatever a receiver accepts, its own encoder sends again, and it then arrives the same: the decoder yields
      no message that the protocol cannot carry, and encoding it brings the frame to its normal form. */
  lemma AcceptedIsDeliverable(frame: seq<Byte>)
    requires DecodeFrame(frame).Ok?
    ensures
      var m := DecodeFrame(frame).value;
      Deliverable(m) && DecodeFrame(EncodeMessage(m).value) == Ok(m)
  {
    AcceptedIsEncoded(frame);
    var m := DecodeFrame(frame).value;
    hide DecodeFrame, Deliverable, EncodeMessage;
    MessageRoundTrip(m);
  }
}
