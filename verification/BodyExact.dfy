/** Exactly which snapshot bodies decode, and to what. */
module BodyExact {
  import opened Basics
  import opened Cbor
  import opened Messages
  import opened Decode
  import opened SkipProofs
  import opened RoundTrip
  import opened DecodeSound
  import opened DecodeExact

  predicate BodyReads(k: nat, v: seq<Byte>) {
    if k < 5 then ReadUint(v, 0).Got? && CpuInRange(k, ReadUint(v, 0).value)
    else if k == 5 then ReadGroup(v, 5, RamFrom).Got?
    else if k == 6 then ReadGroup(v, 8, StorageFrom).Got?
    else if k == 7 then ReadGroup(v, 10, BatteryFrom).Got?
    else if k == 8 then ReadGroup(v, 7, AgentsFrom).Got?
    else if k == 9 then ReadNetwork(v).Got?
    else SkipValue(v, 0).Some?
  }

  predicate BodyAllRead(ks: seq<U64>, vs: seq<seq<Byte>>)
    requires |ks| == |vs|
  {
    forall i | 0 <= i < |ks| :: BodyReads(ks[i], vs[i])
  }

  /** The slot of key `k` holds what follows it. */
  predicate BodyHas(k: nat, v: seq<Byte>, out: BodySlots)
    requires |out.cpu| == 5
  {
    if k < 5 then Gives(ReadUint(v, 0), out.cpu[k])
    else if k == 5 then Gives(ReadGroup(v, 5, RamFrom), out.ram)
    else if k == 6 then Gives(ReadGroup(v, 8, StorageFrom), out.storage)
    else if k == 7 then Gives(ReadGroup(v, 10, BatteryFrom), out.battery)
    else if k == 8 then Gives(ReadGroup(v, 7, AgentsFrom), out.agents)
    else k == 9 ==> Gives(ReadNetwork(v), out.network)
  }

  predicate BodyHolds(ks: seq<U64>, vs: seq<seq<Byte>>, out: BodySlots)
    requires |ks| == |vs| && |out.cpu| == 5
  {
    forall i | 0 <= i < |ks| :: BodyHas(ks[i], vs[i], out)
  }

  predicate BodyKept(acc: BodySlots, out: BodySlots)
    requires |acc.cpu| == 5 && |out.cpu| == 5
  {
    && SlotsKept(acc.cpu, out.cpu)
    && (acc.ram.Some? ==> out.ram == acc.ram) && (acc.storage.Some? ==> out.storage == acc.storage)
    && (acc.battery.Some? ==> out.battery == acc.battery) && (acc.agents.Some? ==> out.agents == acc.agents)
    && (acc.network.Some? ==> out.network == acc.network)
  }

  function BodySet(acc: BodySlots): set<nat>
    requires |acc.cpu| == 5
  {
    set k: nat | k < 10 && BodyTaken(acc, k)
  }

  lemma BodyEntryExact(s: seq<Byte>, acc: BodySlots)
    requires |acc.cpu| == 5
    ensures
      var k := ReadUint(s, 0);
      && (BodyEntry(s, acc).Got? <==>
            k.Got? && (k.value < 10 ==> k.value !in BodySet(acc)) && BodyReads(k.value, k.rest))
      && (BodyEntry(s, acc).Got? ==>
            var out := BodyEntry(s, acc).value;
            && BodySet(out) == Taking(BodySet(acc), k.value, 10) && BodyKept(acc, out)
            && BodyHas(k.value, k.rest, out))
  {
    if BodyEntry(s, acc).Got? { BodyEntryKey(s, acc); }
    hide SkipValue, ReadUint, ReadGroup, RamFrom, StorageFrom, BatteryFrom, AgentsFrom, ReadNetwork;
  }

  lemma BodyReadHead(k: U64, v: seq<Byte>, ks: seq<U64>, vs: seq<seq<Byte>>)
    requires |ks| == |vs|
    ensures BodyAllRead([k] + ks, [v] + vs) <==> BodyReads(k, v) && BodyAllRead(ks, vs)
  {
    hide BodyReads;
    var (all, tails) := ([k] + ks, [v] + vs);
    if BodyAllRead(all, tails) {
      forall i | 0 <= i < |ks| ensures BodyReads(ks[i], vs[i]) { assert BodyReads(all[i + 1], tails[i + 1]); }
      assert BodyReads(all[0], tails[0]);
    }
  }

  lemma BodyHoldsHead(k: U64, v: seq<Byte>, ks: seq<U64>, vs: seq<seq<Byte>>, first: BodySlots, out: BodySlots)
    requires |ks| == |vs| && |first.cpu| == 5 && |out.cpu| == 5
    requires BodyHas(k, v, first) && BodyKept(first, out) && BodyHolds(ks, vs, out)
    ensures BodyHolds([k] + ks, [v] + vs, out)
  {
    hide ReadUint, ReadGroup, RamFrom, StorageFrom, BatteryFrom, AgentsFrom, ReadNetwork;
    assert BodyHas(k, v, out);
    hide BodyHas;
  }

  lemma BodyKeptTwice(a: BodySlots, b: BodySlots, c: BodySlots)
    requires |a.cpu| == 5 && |b.cpu| == 5 && |c.cpu| == 5 && BodyKept(a, b) && BodyKept(b, c)
    ensures BodyKept(a, c)
  {
  }

  lemma NoBodyEntries(acc: BodySlots)
    requires |acc.cpu| == 5
    ensures BodyAllRead([], []) && BodyHolds([], [], acc) && BodyKept(acc, acc)
  {
  }

  lemma {:induction false} BodyLoopExact(s: seq<Byte>, count: nat, acc: BodySlots)
    requires |acc.cpu| == 5
    ensures
      var (ks, vs, out) := (Keys(s, count), Tails(s, count), BodyEntries(s, count, acc));
      && (out.Got? <==> |ks| == count && Untaken(ks, 10, BodySet(acc)) && BodyAllRead(ks, vs))
      && (out.Got? ==> BodyHolds(ks, vs, out.value) && BodyKept(acc, out.value))
    decreases count
  {
    hide BodyEntry, SkipEntry, ReadUint, Untaken, BodyReads, BodyAllRead, BodyHas, BodyHolds, BodyKept, BodySet, Taking;
    BodyEntryExact(s, acc);
    if count == 0 || ReadUint(s, 0).Fail? || SkipEntry(s).None? {
      NoEntries(s, count);
      NothingIsUntaken(10, BodySet(acc));
      NoBodyEntries(acc);
      if BodyEntry(s, acc).Got? { BodyEntrySkips(s, acc); }
    } else {
      var (k, v) := (ReadUint(s, 0).value, ReadUint(s, 0).rest);
      var (ks, vs) := (Keys(SkipEntry(s).value, count - 1), Tails(SkipEntry(s).value, count - 1));
      EntriesStep(s, count - 1);
      UntakenHead(k, ks, 10, BodySet(acc));
      BodyReadHead(k, v, ks, vs);
      if BodyEntry(s, acc).Got? {
        BodyEntrySkips(s, acc);
        var first := BodyEntry(s, acc);
        BodyLoopExact(first.rest, count - 1, first.value);
        hide Keys, Tails;
        if BodyEntries(s, count, acc).Got? {
          var out := BodyEntries(s, count, acc).value;
          BodyHoldsHead(k, v, ks, vs, first.value, out);
          BodyKeptTwice(acc, first.value, out);
        }
      }
    }
  }

  /** A map of the values follows, and then anything. */
  ghost predicate GroupAt(v: seq<Byte>, values: seq<U64>) { exists rest :: GroupIs(v, values, rest) }

  ghost predicate NetworkAt(v: seq<Byte>, n: NetworkSnapshot) { exists rest :: NetworkIs(v, n, rest) }

  /** What follows key `k` in a snapshot body's map, if the snapshot is `x`. */
  ghost predicate BodyMeans(k: nat, v: seq<Byte>, x: Snapshot) {
    if k < 5 then ReadUint(v, 0).Got? && ReadUint(v, 0).value == CpuFields(x.cpu)[k]
    else if k == 5 then x.ram.Some? && GroupAt(v, RamFields(x.ram.value))
    else if k == 6 then x.storage.Some? && GroupAt(v, StorageFields(x.storage.value))
    else if k == 7 then x.battery.Some? && GroupAt(v, BatteryFields(x.battery.value))
    else if k == 8 then x.agents.Some? && GroupAt(v, AgentsFields(x.agents.value))
    else if k == 9 then x.network.Some? && NetworkAt(v, x.network.value)
    else SkipValue(v, 0).Some?
  }

  /** The groups of a snapshot, by key. */
  predicate HasGroup(x: Snapshot, k: nat) {
    match k
    case 5 => x.ram.Some?
    case 6 => x.storage.Some?
    case 7 => x.battery.Some?
    case 8 => x.agents.Some?
    case 9 => x.network.Some?
    case _ => false
  }

  /** The bytes are a map of at most ten entries, and no more, that gives `x`: its five CPU fields and its groups
      once each under their keys, in any order and with any unknown entries between; and `x` keeps the rules. */
  ghost predicate IsSnapshotBody(body: seq<Byte>, x: Snapshot) {
    var count := ReadUint(body, 5);
    && Encodable(x) && x.cpu.utilizationPerMille <= 1000
    && count.Got? && count.value <= 10 && SkipEntries(count.rest, count.value) == Some([])
    && var (ks, vs) := (Keys(count.rest, count.value), Tails(count.rest, count.value));
       && |ks| == count.value && Once(ks, 10) && (forall i | 0 <= i < |ks| :: BodyMeans(ks[i], vs[i], x))
       && forall k: nat | k < 10 :: k in ks <==> k < 5 || HasGroup(x, k)
  }

  function SlotsOfBody(x: Snapshot): (out: BodySlots)
    ensures |out.cpu| == 5
  {
    BodySlots(Filled(5, CpuFields(x.cpu), 5), x.ram, x.storage, x.battery, x.agents, x.network)
  }

  lemma SnapshotFromExact(acc: BodySlots, x: Snapshot)
    requires |acc.cpu| == 5
    ensures SnapshotFrom(acc) == Some(x) <==> acc == SlotsOfBody(x) && x.cpu.utilizationPerMille <= 1000
  {
    if SnapshotFrom(acc) == Some(x) {
      FilledOf(acc.cpu);
      assert Values(acc.cpu) == CpuFields(x.cpu);
    }
    if acc == SlotsOfBody(x) && x.cpu.utilizationPerMille <= 1000 {
      assert Complete(acc.cpu) && Values(acc.cpu) == CpuFields(x.cpu);
      hide Filled, Values, Complete;
    }
  }

  lemma BodyMeansSlot(k: nat, v: seq<Byte>, out: BodySlots, x: Snapshot)
    requires |out.cpu| == 5 && k < 10 && Encodable(x) && BodyHas(k, v, out)
    ensures BodyMeans(k, v, x) <==>
              if k < 5 then out.cpu[k] == Some(CpuFields(x.cpu)[k])
              else if k == 5 then x.ram.Some? && out.ram == x.ram
              else if k == 6 then x.storage.Some? && out.storage == x.storage
              else if k == 7 then x.battery.Some? && out.battery == x.battery
              else if k == 8 then x.agents.Some? && out.agents == x.agents
              else x.network.Some? && out.network == x.network
  {
    hide ReadUint, CpuFields, GroupIs, NetworkIs, ReadGroup, RamFrom, StorageFrom, BatteryFrom, AgentsFrom, ReadNetwork;
    hide RamFields, StorageFields, BatteryFields, AgentsFields, NetworkSnapshot.IsValid;
    if k == 5 && x.ram.Some? { RamAt(v, x.ram.value); }
    if k == 6 && x.storage.Some? { StorageAt(v, x.storage.value); }
    if k == 7 && x.battery.Some? { BatteryAt(v, x.battery.value); }
    if k == 8 && x.agents.Some? { AgentsAt(v, x.agents.value); }
    if k == 9 && x.network.Some? { NetworkAtExact(v, x.network.value); }
    hide GroupAt, NetworkAt, Encodable;
  }

  lemma RamAt(v: seq<Byte>, r: RamSnapshot)
    requires ReadGroup(v, 5, RamFrom).Got? && r.usedBytes <= r.totalBytes
    ensures GroupAt(v, RamFields(r)) <==> ReadGroup(v, 5, RamFrom).value == r
  {
    hide ReadGroup, GroupIs, RamFields, RamFrom;
    RamExact(v, r, ReadGroup(v, 5, RamFrom).rest);
    if GroupAt(v, RamFields(r)) {
      var rest :| GroupIs(v, RamFields(r), rest);
      RamExact(v, r, rest);
    }
  }

  lemma StorageAt(v: seq<Byte>, r: StorageSnapshot)
    requires ReadGroup(v, 8, StorageFrom).Got? && r.availableBytes <= r.totalBytes
    ensures GroupAt(v, StorageFields(r)) <==> ReadGroup(v, 8, StorageFrom).value == r
  {
    hide ReadGroup, GroupIs, StorageFields, StorageFrom;
    StorageExact(v, r, ReadGroup(v, 8, StorageFrom).rest);
    if GroupAt(v, StorageFields(r)) {
      var rest :| GroupIs(v, StorageFields(r), rest);
      StorageExact(v, r, rest);
    }
  }

  lemma BatteryAt(v: seq<Byte>, r: BatterySnapshot)
    requires ReadGroup(v, 10, BatteryFrom).Got? && r.chargePerMille <= 1000 && r.maxCapacityPerMille <= 1000
    requires r.state <= 4 && r.condition <= 3
    ensures GroupAt(v, BatteryFields(r)) <==> ReadGroup(v, 10, BatteryFrom).value == r
  {
    hide ReadGroup, GroupIs, BatteryFields, BatteryFrom;
    BatteryExact(v, r, ReadGroup(v, 10, BatteryFrom).rest);
    if GroupAt(v, BatteryFields(r)) {
      var rest :| GroupIs(v, BatteryFields(r), rest);
      BatteryExact(v, r, rest);
    }
  }

  lemma AgentsAt(v: seq<Byte>, r: AgentsSnapshot)
    requires ReadGroup(v, 7, AgentsFrom).Got? && forall x <- r.state :: x <= 3
    ensures GroupAt(v, AgentsFields(r)) <==> ReadGroup(v, 7, AgentsFrom).value == r
  {
    hide ReadGroup, GroupIs, AgentsFields, AgentsFrom;
    AgentsExact(v, r, ReadGroup(v, 7, AgentsFrom).rest);
    if GroupAt(v, AgentsFields(r)) {
      var rest :| GroupIs(v, AgentsFields(r), rest);
      AgentsExact(v, r, rest);
    }
  }

  lemma NetworkAtExact(v: seq<Byte>, n: NetworkSnapshot)
    requires ReadNetwork(v).Got?
    ensures NetworkAt(v, n) <==> ReadNetwork(v).value == n
  {
    hide ReadNetwork, NetworkIs;
    NetworkExact(v, n, ReadNetwork(v).rest);
    if NetworkAt(v, n) {
      var rest :| NetworkIs(v, n, rest);
      NetworkExact(v, n, rest);
    }
  }

  /** What the body's map says about `x` can be read. */
  lemma BodyMeansRead(k: nat, v: seq<Byte>, x: Snapshot)
    requires Encodable(x) && x.cpu.utilizationPerMille <= 1000 && BodyMeans(k, v, x)
    ensures BodyReads(k, v)
  {
    hide ReadUint, SkipValue, GroupIs, NetworkIs, ReadGroup, RamFrom, StorageFrom, BatteryFrom, AgentsFrom, ReadNetwork;
    hide RamFields, StorageFields, BatteryFields, AgentsFields, NetworkSnapshot.IsValid;
    if k == 5 {
      var rest :| GroupIs(v, RamFields(x.ram.value), rest);
      RamExact(v, x.ram.value, rest);
    } else if k == 6 {
      var rest :| GroupIs(v, StorageFields(x.storage.value), rest);
      StorageExact(v, x.storage.value, rest);
    } else if k == 7 {
      var rest :| GroupIs(v, BatteryFields(x.battery.value), rest);
      BatteryExact(v, x.battery.value, rest);
    } else if k == 8 {
      var rest :| GroupIs(v, AgentsFields(x.agents.value), rest);
      AgentsExact(v, x.agents.value, rest);
    } else if k == 9 {
      var rest :| NetworkIs(v, x.network.value, rest);
      NetworkExact(v, x.network.value, rest);
    }
    hide GroupAt, NetworkAt, Encodable;
  }

  lemma BodySlotMeans(ks: seq<U64>, vs: seq<seq<Byte>>, out: BodySlots, x: Snapshot, k: nat)
    requires |ks| == |vs| && |out.cpu| == 5 && BodyHolds(ks, vs, out) && k < 10 && k in ks && Encodable(x)
    requires forall i | 0 <= i < |ks| :: BodyMeans(ks[i], vs[i], x)
    ensures if k < 5 then out.cpu[k] == Some(CpuFields(x.cpu)[k])
            else if k == 5 then out.ram == x.ram else if k == 6 then out.storage == x.storage
            else if k == 7 then out.battery == x.battery else if k == 8 then out.agents == x.agents
            else out.network == x.network
  {
    hide BodyHas, BodyMeans, Encodable, CpuFields;
    var i :| 0 <= i < |ks| && ks[i] == k;
    assert BodyHas(k, vs[i], out) && BodyMeans(k, vs[i], x);
    BodyMeansSlot(k, vs[i], out, x);
  }

  lemma BodySlotsFilled(ks: seq<U64>, vs: seq<seq<Byte>>, out: BodySlots, x: Snapshot)
    requires |ks| == |vs| && |out.cpu| == 5 && BodyHolds(ks, vs, out) && Encodable(x)
    requires forall k: nat | k < 10 :: BodyTaken(out, k) <==> k in ks
    requires forall i | 0 <= i < |ks| :: BodyMeans(ks[i], vs[i], x)
    requires forall k: nat | k < 10 :: k in ks <==> k < 5 || HasGroup(x, k)
    ensures out == SlotsOfBody(x)
  {
    hide BodyHas, BodyMeans, BodyHolds, CpuFields, Encodable;
    forall k: nat | k < 10 && k in ks
      ensures if k < 5 then out.cpu[k] == Some(CpuFields(x.cpu)[k])
              else if k == 5 then out.ram == x.ram else if k == 6 then out.storage == x.storage
              else if k == 7 then out.battery == x.battery else if k == 8 then out.agents == x.agents
              else out.network == x.network
    {
      BodySlotMeans(ks, vs, out, x, k);
    }
    assert out.cpu == Filled(5, CpuFields(x.cpu), 5);
    assert forall k: nat | 5 <= k < 10 :: BodyTaken(out, k) <==> HasGroup(x, k);
    assert out.ram == x.ram by { assert BodyTaken(out, 5) <==> 5 in ks; }
    assert out.storage == x.storage by { assert BodyTaken(out, 6) <==> 6 in ks; }
    assert out.battery == x.battery by { assert BodyTaken(out, 7) <==> 7 in ks; }
    assert out.agents == x.agents by { assert BodyTaken(out, 8) <==> 8 in ks; }
    assert out.network == x.network by { assert BodyTaken(out, 9) <==> 9 in ks; }
  }

  lemma BodySlotsSay(ks: seq<U64>, vs: seq<seq<Byte>>, out: BodySlots, x: Snapshot)
    requires |ks| == |vs| && |out.cpu| == 5 && BodyHolds(ks, vs, out) && BodyAllRead(ks, vs) && Encodable(x)
    requires forall k: nat | k < 10 :: BodyTaken(out, k) <==> k in ks
    requires out == SlotsOfBody(x)
    ensures forall i | 0 <= i < |ks| :: BodyMeans(ks[i], vs[i], x)
    ensures forall k: nat | k < 10 :: k in ks <==> k < 5 || HasGroup(x, k)
  {
    hide CpuFields, BodyTaken;
    forall i | 0 <= i < |ks| ensures BodyMeans(ks[i], vs[i], x) {
      assert BodyHas(ks[i], vs[i], out) && BodyReads(ks[i], vs[i]);
      hide BodyHas, Encodable, ReadUint, SkipValue, ReadGroup, ReadNetwork;
      if ks[i] < 10 {
        BodyMeansSlot(ks[i], vs[i], out, x);
        hide GroupAt, NetworkAt, BodyReads;
        OwnGroup(ks[i], vs[i], out);
      }
    }
    BodyTakenOf(x);
  }

  lemma OwnGroup(k: nat, v: seq<Byte>, out: BodySlots)
    requires |out.cpu| == 5 && (5 <= k < 10 ==> BodyHas(k, v, out))
    ensures k == 5 ==> out.ram.Some?
    ensures k == 6 ==> out.storage.Some?
    ensures k == 7 ==> out.battery.Some?
    ensures k == 8 ==> out.agents.Some?
    ensures k == 9 ==> out.network.Some?
  {
  }

  lemma BodyTakenOf(x: Snapshot)
    ensures forall k: nat | k < 10 :: BodyTaken(SlotsOfBody(x), k) <==> k < 5 || HasGroup(x, k)
  {
  }

  lemma NothingInBody(ks: seq<U64>)
    ensures Untaken(ks, 10, BodySet(NO_BODY)) <==> Once(ks, 10)
  {
    NothingTaken();
    hide Once;
  }

  /** A snapshot body decodes to `x` exactly when it gives `x`: whatever the order of its entries, and whatever
      entries it has that the decoder does not know. */
  lemma SnapshotBodyExact(body: seq<Byte>, x: Snapshot)
    ensures DecodeSnapshotBody(body) == Some(x) <==> IsSnapshotBody(body, x)
  {
    if DecodeSnapshotBody(body) == Some(x) {
      SnapshotIsEncodable(body);
      DecodedSays(body, x);
    }
    hide DecodeSnapshotBody;
    if IsSnapshotBody(body, x) { SaidDecodes(body, x); }
  }

  lemma DecodedSays(body: seq<Byte>, x: Snapshot)
    requires DecodeSnapshotBody(body) == Some(x) && Encodable(x) && x.cpu.utilizationPerMille <= 1000
    ensures IsSnapshotBody(body, x)
  {
    var count := ReadUint(body, 5);
    var (ks, vs) := (Keys(count.rest, count.value), Tails(count.rest, count.value));
    hide BodyEntries, ReadUint, SnapshotFrom, Encodable, Once, BodyMeans, SlotsOfBody, SkipEntries, Keys, Tails;
    hide BodyTaken, BodyAllRead, BodyHolds, BodyKept, Untaken, HasGroup;
    var out := BodyEntries(count.rest, count.value, NO_BODY).value;
    BodyLoopExact(count.rest, count.value, NO_BODY);
    BodyKeys(count.rest, count.value, NO_BODY);
    BodyEntriesSkip(count.rest, count.value, NO_BODY);
    NothingTaken();
    SnapshotFromExact(out, x);
    BodySlotsSay(ks, vs, out, x);
  }

  lemma SaidDecodes(body: seq<Byte>, x: Snapshot)
    requires IsSnapshotBody(body, x)
    ensures DecodeSnapshotBody(body) == Some(x)
  {
    var count := ReadUint(body, 5);
    var (ks, vs) := (Keys(count.rest, count.value), Tails(count.rest, count.value));
    hide BodyEntries, ReadUint, SnapshotFrom, Encodable, Once, BodyMeans, SlotsOfBody, SkipEntries, Keys, Tails;
    hide BodyTaken, BodyReads, BodyHolds, BodyKept, Untaken, HasGroup;
    forall i | 0 <= i < |ks| ensures BodyReads(ks[i], vs[i]) { BodyMeansRead(ks[i], vs[i], x); }
    NothingInBody(ks);
    BodyLoopExact(count.rest, count.value, NO_BODY);
    var out := BodyEntries(count.rest, count.value, NO_BODY).value;
    BodyKeys(count.rest, count.value, NO_BODY);
    BodyEntriesSkip(count.rest, count.value, NO_BODY);
    NothingTaken();
    BodySlotsFilled(ks, vs, out, x);
    SnapshotFromExact(out, x);
  }
}
