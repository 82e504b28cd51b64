/** Every message an encoder accepts, under protocol major 1, decodes back to itself. */
module RoundTrip {
  import opened Basics
  import opened Cbor
  import opened Messages
  import opened Decode

  // ---- maps of unsigned fields ----

  /** `n` slots of which the first `k` hold the values. */
  function Filled(n: nat, v: seq<U64>, k: nat): (slots: Slots)
    requires k <= |v| <= n
    ensures |slots| == n
  {
    seq(n, i requires 0 <= i < n => if i < k then Some(v[i]) else None)
  }

  lemma EncFieldsStep(v: seq<U64>, k: nat, t: seq<Byte>)
    requires k < |v| <= 24
    ensures EncFields(v[k..], k) + t == EncEntry(k, v[k]) + (EncFields(v[k + 1..], k + 1) + t)
  {
    assert v[k..][1..] == v[k + 1..];
    assert v[k..][0] == v[k];
    hide EncEntry;
    assert EncFields(v[k..], k) == EncEntry(k, v[k]) + EncFields(v[k + 1..], k + 1);
  }

  lemma EncFieldsEnd(v: seq<U64>, t: seq<Byte>)
    requires |v| <= 24
    ensures EncFields(v[|v|..], |v|) + t == t
  {
  }

  lemma EntryRead(key: U64, value: U64, t: seq<Byte>)
    ensures ReadUint(EncEntry(key, value) + t, 0) == Got(key, EncUint(0, value) + t)
    ensures ReadUint(EncUint(0, value) + t, 0) == Got(value, t)
  {
    ReadOfUint(0, key, EncUint(0, value) + t);
    ReadOfUint(0, value, t);
    assert EncEntry(key, value) + t == EncUint(0, key) + (EncUint(0, value) + t);
  }

  lemma FieldEntryRead(n: nat, v: seq<U64>, k: nat, t: seq<Byte>)
    requires k < |v| <= n <= 24
    ensures FieldEntry(EncEntry(k, v[k]) + t, Filled(n, v, k)) == Got(Filled(n, v, k + 1), t)
  {
    hide ReadUint, EncEntry, EncUint;
    EntryRead(k, v[k], t);
    assert Filled(n, v, k)[k := Some(v[k])] == Filled(n, v, k + 1);
  }

  lemma {:induction false} FieldEntriesRead(v: seq<U64>, k: nat, t: seq<Byte>)
    requires k <= |v| <= 24
    ensures FieldEntries(EncFields(v[k..], k) + t, |v| - k, Filled(|v|, v, k)) == Got(Filled(|v|, v, |v|), t)
    decreases |v| - k
  {
    if k == |v| {
      assert EncFields(v[k..], k) + t == t;
    } else {
      hide FieldEntry, EncEntry, EncFields, Filled;
      EncFieldsStep(v, k, t);
      FieldEntryRead(|v|, v, k, EncFields(v[k + 1..], k + 1) + t);
      FieldEntriesRead(v, k + 1, t);
    }
  }

  lemma GroupRead(v: seq<U64>, t: seq<Byte>)
    requires |v| <= MAX_ITEMS
    ensures ReadFields(EncGroup(v) + t, |v|) == Got(v, t)
  {
    hide ReadUint, EncFields, EncUint, FieldEntries;
    assert v[0..] == v;
    assert EncGroup(v) + t == EncUint(5, |v|) + (EncFields(v, 0) + t);
    ReadOfUint(5, |v|, EncFields(v, 0) + t);
    FieldEntriesRead(v, 0, t);
    assert Filled(|v|, v, 0) == Empty(|v|);
    assert Values(Filled(|v|, v, |v|)) == v;
  }

  // ---- the network group ----

  lemma NetworkFieldRead(v: seq<U64>, k: nat, t: seq<Byte>, acc: NetworkSlots)
    requires k < |v| == 10 && |acc.strings| == 3 && acc.fields == Filled(10, v, k)
    ensures NetworkEntry(EncEntry(k, v[k]) + t, acc) == Got(acc.(fields := Filled(10, v, k + 1)), t)
  {
    hide FieldEntry, EncEntry, Filled, ReadUint;
    FieldEntryRead(10, v, k, t);
    EntryRead(k, v[k], t);
  }

  lemma NetworkStep(s: seq<Byte>, count: nat, acc: NetworkSlots, next: NetworkSlots, rest: seq<Byte>)
    requires acc.Shaped() && next.Shaped() && count > 0 && NetworkEntry(s, acc) == Got(next, rest)
    ensures NetworkEntries(s, count, acc) == NetworkEntries(rest, count - 1, next)
  {
    hide NetworkEntry;
  }

  lemma {:induction false} NetworkFieldsRead(v: seq<U64>, k: nat, t: seq<Byte>, m: nat, acc: NetworkSlots)
    requires k <= |v| == 10 && |acc.strings| == 3 && acc.fields == Filled(10, v, k)
    ensures NetworkEntries(EncFields(v[k..], k) + t, 10 - k + m, acc)
            == NetworkEntries(t, m, acc.(fields := Filled(10, v, 10)))
    decreases 10 - k
  {
    hide NetworkEntry, NetworkEntries, EncEntry;
    if k == 10 {
      assert EncFields(v[k..], k) + t == t;
    } else {
      hide EncFields;
      var u := EncFields(v[k + 1..], k + 1) + t;
      var next := acc.(fields := Filled(10, v, k + 1));
      EncFieldsStep(v, k, t);
      NetworkFieldRead(v, k, u, acc);
      NetworkStep(EncEntry(k, v[k]) + u, 10 - k + m, acc, next, u);
      NetworkFieldsRead(v, k + 1, t, m, next);
    }
  }

  lemma ByteEntryRead(key: U64, b: seq<Byte>, t: seq<Byte>)
    requires |b| <= MAX_FRAME_BYTES
    ensures ReadUint(EncByteEntry(key, b) + t, 0) == Got(key, EncBytes(b) + t)
    ensures ReadByteString(EncBytes(b) + t, MAX_FRAME_BYTES) == Got(b, t)
    ensures ReadExact(EncBytes(b) + t, |b|) == Got(b, t)
  {
    ReadOfUint(0, key, EncBytes(b) + t);
    ReadOfBytes(b, t);
    assert EncByteEntry(key, b) + t == EncUint(0, key) + (EncBytes(b) + t);
  }

  lemma NetworkStringRead(key: U64, b: seq<Byte>, t: seq<Byte>, acc: NetworkSlots)
    requires acc.Shaped() && 10 <= key <= 12 && |b| <= MAX_FRAME_BYTES && acc.strings[key - 10].None?
    ensures NetworkEntry(EncByteEntry(key, b) + t, acc)
            == Got(acc.(strings := acc.strings[key - 10 := Some(b)]), t)
  {
    hide ReadUint, ReadByteString, EncByteEntry, EncBytes, FieldEntry;
    ByteEntryRead(key, b, t);
  }

  lemma NetworkLinksRead(b: seq<Byte>, t: seq<Byte>, acc: NetworkSlots)
    requires acc.Shaped() && |b| <= MAX_FRAME_BYTES && acc.links.None?
    ensures NetworkEntry(EncByteEntry(13, b) + t, acc) == Got(acc.(links := Some(b)), t)
  {
    hide ReadUint, ReadByteString, EncByteEntry, EncBytes, FieldEntry;
    ByteEntryRead(13, b, t);
  }

  function SlotsOfNetwork(n: NetworkSnapshot): NetworkSlots {
    NetworkSlots(Filled(10, NetworkFields(n), 10),
                 [Some(MacBytes(n.station)), Some(n.ssid), Some(MacBytes(n.bssid))],
                 if n.links.Some? then Some(LinkBytes(n.links.value)) else None)
  }

  lemma NetworkEntriesRead(n: NetworkSnapshot, t: seq<Byte>)
    requires n.IsValid()
    ensures ReadUint(EncNetwork(n) + t, 5).Got?
    ensures ReadUint(EncNetwork(n) + t, 5).value == 13 + Present(n.links)
    ensures NetworkEntries(ReadUint(EncNetwork(n) + t, 5).rest, 13 + Present(n.links), NO_NETWORK)
            == Got(SlotsOfNetwork(n), t)
  {
    hide NetworkSnapshot.IsValid, NetworkEntries, EncNetworkStrings, EncFields, ReadUint, EncUint, NetworkFields;
    var v := NetworkFields(n);
    var count := 13 + Present(n.links);
    var s := EncNetworkStrings(n) + t;
    assert EncNetwork(n) + t == EncUint(5, count) + (EncFields(v, 0) + s);
    ReadOfUint(5, count, EncFields(v, 0) + s);
    assert v[0..] == v && Filled(10, v, 0) == Empty(10);
    NetworkFieldsRead(v, 0, s, count - 10, NO_NETWORK);
    NetworkStringsRead(n, t, NO_NETWORK.(fields := Filled(10, v, 10)));
  }

  lemma NetworkStringsNested(n: NetworkSnapshot, t: seq<Byte>)
    requires n.IsValid()
    ensures EncNetworkStrings(n) + t
            == EncByteEntry(10, MacBytes(n.station))
               + (EncByteEntry(11, n.ssid)
                  + (EncByteEntry(12, MacBytes(n.bssid))
                     + ((if n.links.Some? then EncByteEntry(13, LinkBytes(n.links.value)) else []) + t)))
  {
    hide EncByteEntry, MacBytes, LinkBytes;
  }

  lemma NetworkLastRead(n: NetworkSnapshot, t: seq<Byte>, acc: NetworkSlots)
    requires n.IsValid() && acc.Shaped() && acc.links.None?
    ensures NetworkEntries((if n.links.Some? then EncByteEntry(13, LinkBytes(n.links.value)) else []) + t,
                           Present(n.links), acc)
            == Got(acc.(links := SlotsOfNetwork(n).links), t)
  {
    hide NetworkEntry, EncByteEntry, LinkBytes;
    if n.links.Some? {
      var b := LinkBytes(n.links.value);
      NetworkLinksRead(b, t, acc);
      NetworkStep(EncByteEntry(13, b) + t, 1, acc, acc.(links := Some(b)), t);
    } else {
      assert [] + t == t;
    }
  }

  /** The three byte strings, and the links when there are any. */
  lemma NetworkStringsRead(n: NetworkSnapshot, t: seq<Byte>, acc: NetworkSlots)
    requires n.IsValid() && acc.Shaped() && acc.strings == [None, None, None] && acc.links.None?
    ensures NetworkEntries(EncNetworkStrings(n) + t, 3 + Present(n.links), acc)
            == Got(SlotsOfNetwork(n).(fields := acc.fields), t)
  {
    hide NetworkEntry, NetworkEntries, EncByteEntry, EncNetworkStrings, MacBytes, LinkBytes, SlotsOfNetwork;
    hide NetworkSnapshot.IsValid;
    NetworkBounds(n);
    NetworkStringsNested(n, t);
    var b0, b1, b2 := MacBytes(n.station), n.ssid, MacBytes(n.bssid);
    var s3 := (if n.links.Some? then EncByteEntry(13, LinkBytes(n.links.value)) else []) + t;
    var s2 := EncByteEntry(12, b2) + s3;
    var s1 := EncByteEntry(11, b1) + s2;
    var s0 := EncByteEntry(10, b0) + s1;
    var m := Present(n.links);
    var a1 := acc.(strings := acc.strings[0 := Some(b0)]);
    var a2 := a1.(strings := a1.strings[1 := Some(b1)]);
    var a3 := a2.(strings := a2.strings[2 := Some(b2)]);
    NetworkStringRead(10, b0, s1, acc);
    NetworkStep(s0, 3 + m, acc, a1, s1);
    NetworkStringRead(11, b1, s2, a1);
    NetworkStep(s1, 2 + m, a1, a2, s2);
    NetworkStringRead(12, b2, s3, a2);
    NetworkStep(s2, 1 + m, a2, a3, s3);
    NetworkLastRead(n, t, a3);
    assert a3.strings == [Some(b0), Some(b1), Some(b2)];
    SlotsOfNetworkShape(n);
  }

  lemma NetworkBounds(n: NetworkSnapshot)
    requires n.IsValid()
    ensures |n.ssid| <= MAX_FRAME_BYTES && (n.links.Some? ==> |n.links.value| <= MAX_FRAME_BYTES)
  {
  }

  lemma SlotsOfNetworkShape(n: NetworkSnapshot)
    ensures SlotsOfNetwork(n).strings == [Some(MacBytes(n.station)), Some(n.ssid), Some(MacBytes(n.bssid))]
  {
  }

  lemma LinksRead(links: seq<RouteKind>)
    requires forall k <- links :: k == Wifi || k == Ethernet || k == OtherLink
    ensures LinksFrom(LinkBytes(links)) == Some(links)
  {
    var b := LinkBytes(links);
    forall i | 0 <= i < |b| ensures 1 <= b[i] <= 3 && RouteFrom(b[i]) == links[i] {
      assert links[i] in links;
    }
    assert LinksFrom(b).value == links;
  }

  lemma NetworkFromSlots(n: NetworkSnapshot)
    requires n.IsValid()
    ensures NetworkFrom(SlotsOfNetwork(n)) == Some(n)
  {
    var acc := SlotsOfNetwork(n);
    var v := NetworkFields(n);
    assert Values(acc.fields) == v;
    assert MacFrom(MacBytes(n.station)) == Some(n.station) && MacFrom(MacBytes(n.bssid)) == Some(n.bssid);
    assert acc.links.Some? ==> LinksFrom(acc.links.value) == Some(n.links.value) by {
      if n.links.Some? { LinksRead(n.links.value); }
    }
    assert Complete(acc.fields);
    hide Filled, Values, LinksFrom, LinkBytes, MacFrom, MacBytes, Complete;
    NetworkFromFields(n);
  }

  /** Each coded field of a network group reads back. */
  lemma NetworkFromFields(n: NetworkSnapshot)
    ensures
      var v := NetworkFields(n);
      && AvailabilityFrom(v[0]) == Some(n.trafficAvailability) && RouteFrom(v[2]) == n.routeKind
      && (v[3] == 1 <==> n.viaTunnel) && ContextFrom(v[6]) == n.contextAvailability
      && CoverageFrom(v[8]) == n.coverage && v[2] <= 4 && v[3] <= 1 && v[6] <= 6 && v[8] <= 2
  {
  }

  lemma NetworkRead(n: NetworkSnapshot, t: seq<Byte>)
    requires n.IsValid()
    ensures ReadNetwork(EncNetwork(n) + t) == Got(n, t)
  {
    hide NetworkEntries, EncNetwork, NetworkFrom, ReadUint, SlotsOfNetwork, NetworkSnapshot.IsValid;
    NetworkEntriesRead(n, t);
    NetworkFromSlots(n);
  }

  // ---- the snapshot body ----

  lemma BodyStep(s: seq<Byte>, count: nat, acc: BodySlots, next: BodySlots, rest: seq<Byte>)
    requires |acc.cpu| == 5 && |next.cpu| == 5 && count > 0 && BodyEntry(s, acc) == Got(next, rest)
    ensures BodyEntries(s, count, acc) == BodyEntries(rest, count - 1, next)
  {
    hide BodyEntry;
  }

  lemma BodyFieldRead(v: seq<U64>, k: nat, t: seq<Byte>, acc: BodySlots)
    requires k < |v| == 5 && acc.cpu == Filled(5, v, k)
    ensures BodyEntry(EncEntry(k, v[k]) + t, acc)
            == if CpuInRange(k, v[k]) then Got(acc.(cpu := Filled(5, v, k + 1)), t) else Fail
  {
    hide FieldEntry, EncEntry, ReadUint, ReadNetwork, ReadGroup;
    FieldEntryRead(5, v, k, t);
    EntryRead(k, v[k], t);
  }

  predicate CpuInRangeFrom(v: seq<U64>, k: nat)
    requires k <= |v| == 5
    decreases 5 - k
  {
    k == 5 || (CpuInRange(k, v[k]) && CpuInRangeFrom(v, k + 1))
  }

  lemma CpuInRangeStep(v: seq<U64>, k: nat)
    requires k < |v| == 5
    ensures CpuInRangeFrom(v, k) <==> CpuInRange(k, v[k]) && CpuInRangeFrom(v, k + 1)
    ensures CpuInRangeFrom(v, 5)
  {
  }

  lemma BodyFails(s: seq<Byte>, count: nat, acc: BodySlots)
    requires |acc.cpu| == 5 && count > 0 && BodyEntry(s, acc).Fail?
    ensures BodyEntries(s, count, acc).Fail?
  {
    hide BodyEntry;
  }

  /** The CPU fields, up to the first that is out of range if there is one. */
  lemma {:induction false} BodyFieldsRead(v: seq<U64>, k: nat, t: seq<Byte>, m: nat, acc: BodySlots)
    requires k <= |v| == 5 && acc.cpu == Filled(5, v, k)
    ensures BodyEntries(EncFields(v[k..], k) + t, 5 - k + m, acc)
            == if CpuInRangeFrom(v, k) then BodyEntries(t, m, acc.(cpu := Filled(5, v, 5))) else Fail
    decreases 5 - k
  {
    hide *;
    if k == 5 {
      EncFieldsEnd(v, t);
      CpuInRangeStep(v, 4);
      assert acc == acc.(cpu := Filled(5, v, 5));
    } else {
      var u := EncFields(v[k + 1..], k + 1) + t;
      var s := EncEntry(k, v[k]) + u;
      var next := acc.(cpu := Filled(5, v, k + 1));
      EncFieldsStep(v, k, t);
      BodyFieldRead(v, k, u, acc);
      CpuInRangeStep(v, k);
      if CpuInRange(k, v[k]) {
        BodyStep(s, 5 - k + m, acc, next, u);
        BodyFieldsRead(v, k + 1, t, m, next);
      } else {
        BodyFails(s, 5 - k + m, acc);
      }
    }
  }

  lemma RamRead(s: Snapshot, t: seq<Byte>, m: nat, acc: BodySlots)
    requires Encodable(s) && |acc.cpu| == 5 && acc.ram.None?
    ensures BodyEntries(EncRamGroup(s) + t, Present(s.ram) + m, acc) == BodyEntries(t, m, acc.(ram := s.ram))
  {
    hide ReadFields, ReadNetwork, EncGroup, FieldEntry, ReadUint, EncUint;
    if s.ram.Some? {
      var g := EncGroup(RamFields(s.ram.value));
      assert EncRamGroup(s) + t == EncUint(0, 5) + (g + t);
      ReadOfUint(0, 5, g + t);
      GroupRead(RamFields(s.ram.value), t);
      BodyStep(EncRamGroup(s) + t, 1 + m, acc, acc.(ram := s.ram), t);
    } else {
      assert EncRamGroup(s) + t == t;
    }
  }

  lemma StorageRead(s: Snapshot, t: seq<Byte>, m: nat, acc: BodySlots)
    requires Encodable(s) && |acc.cpu| == 5 && acc.storage.None?
    ensures BodyEntries(EncStorageGroup(s) + t, Present(s.storage) + m, acc)
            == BodyEntries(t, m, acc.(storage := s.storage))
  {
    hide ReadFields, ReadNetwork, EncGroup, FieldEntry, ReadUint, EncUint;
    if s.storage.Some? {
      var g := EncGroup(StorageFields(s.storage.value));
      assert EncStorageGroup(s) + t == EncUint(0, 6) + (g + t);
      ReadOfUint(0, 6, g + t);
      GroupRead(StorageFields(s.storage.value), t);
      BodyStep(EncStorageGroup(s) + t, 1 + m, acc, acc.(storage := s.storage), t);
    } else {
      assert EncStorageGroup(s) + t == t;
    }
  }

  lemma BatteryRead(s: Snapshot, t: seq<Byte>, m: nat, acc: BodySlots)
    requires Encodable(s) && |acc.cpu| == 5 && acc.battery.None?
    ensures BodyEntries(EncBatteryGroup(s) + t, Present(s.battery) + m, acc)
            == BodyEntries(t, m, acc.(battery := s.battery))
  {
    hide ReadFields, ReadNetwork, EncGroup, FieldEntry, ReadUint, EncUint;
    if s.battery.Some? {
      var g := EncGroup(BatteryFields(s.battery.value));
      assert EncBatteryGroup(s) + t == EncUint(0, 7) + (g + t);
      ReadOfUint(0, 7, g + t);
      GroupRead(BatteryFields(s.battery.value), t);
      BodyStep(EncBatteryGroup(s) + t, 1 + m, acc, acc.(battery := s.battery), t);
    } else {
      assert EncBatteryGroup(s) + t == t;
    }
  }

  lemma AgentsFromFields(a: AgentsSnapshot)
    requires forall x <- a.state :: x <= 3
    ensures AgentsFrom(AgentsFields(a)) == Some(a)
  {
    var x := a.state;
    assert x == [x[0], x[1], x[2], x[3], x[4]];
    assert x[0] in x && x[1] in x && x[2] in x && x[3] in x && x[4] in x;
  }

  lemma AgentsRead(s: Snapshot, t: seq<Byte>, m: nat, acc: BodySlots)
    requires Encodable(s) && |acc.cpu| == 5 && acc.agents.None?
    ensures BodyEntries(EncAgentsGroup(s) + t, Present(s.agents) + m, acc)
            == BodyEntries(t, m, acc.(agents := s.agents))
  {
    hide ReadFields, ReadNetwork, EncGroup, FieldEntry, ReadUint, EncUint;
    if s.agents.Some? {
      var g := EncGroup(AgentsFields(s.agents.value));
      assert EncAgentsGroup(s) + t == EncUint(0, 8) + (g + t);
      ReadOfUint(0, 8, g + t);
      GroupRead(AgentsFields(s.agents.value), t);
      AgentsFromFields(s.agents.value);
      hide AgentsFields, AgentsFrom, Encodable;
      BodyStep(EncAgentsGroup(s) + t, 1 + m, acc, acc.(agents := s.agents), t);
    } else {
      assert EncAgentsGroup(s) + t == t;
    }
  }

  lemma NetworkGroupRead(s: Snapshot, t: seq<Byte>, m: nat, acc: BodySlots)
    requires Encodable(s) && |acc.cpu| == 5 && acc.network.None?
    ensures BodyEntries(EncNetworkGroup(s) + t, Present(s.network) + m, acc)
            == BodyEntries(t, m, acc.(network := s.network))
  {
    hide ReadFields, ReadNetwork, EncGroup, FieldEntry, ReadUint, EncUint, EncNetwork;
    if s.network.Some? {
      var g := EncNetwork(s.network.value);
      assert EncNetworkGroup(s) + t == EncUint(0, 9) + (g + t);
      ReadOfUint(0, 9, g + t);
      NetworkRead(s.network.value, t);
      BodyStep(EncNetworkGroup(s) + t, 1 + m, acc, acc.(network := s.network), t);
    } else {
      assert EncNetworkGroup(s) + t == t;
    }
  }

  /** The optional groups, all five. */
  lemma GroupsRead(s: Snapshot, acc: BodySlots)
    requires Encodable(s) && |acc.cpu| == 5
    requires acc == NO_BODY.(cpu := acc.cpu)
    ensures BodyEntries(GroupBytes(s), GroupCount(s), acc)
            == Got(BodySlots(acc.cpu, s.ram, s.storage, s.battery, s.agents, s.network), [])
  {
    hide BodyEntry, EncRamGroup, EncStorageGroup, EncBatteryGroup, EncAgentsGroup, EncNetworkGroup, Encodable;
    var n4 := Present(s.network);
    var n3 := Present(s.agents) + n4;
    var n2 := Present(s.battery) + n3;
    var n1 := Present(s.storage) + n2;
    var t4 := EncNetworkGroup(s);
    var t3 := EncAgentsGroup(s) + t4;
    var t2 := EncBatteryGroup(s) + t3;
    var t1 := EncStorageGroup(s) + t2;
    var a1 := acc.(ram := s.ram);
    var a2 := a1.(storage := s.storage);
    var a3 := a2.(battery := s.battery);
    var a4 := a3.(agents := s.agents);
    RamRead(s, t1, n1, acc);
    StorageRead(s, t2, n2, a1);
    BatteryRead(s, t3, n3, a2);
    AgentsRead(s, t4, n4, a3);
    assert t4 + [] == t4;
    NetworkGroupRead(s, [], 0, a4);
  }

  lemma NothingFilled(n: nat, v: seq<U64>)
    requires |v| <= n
    ensures Filled(n, v, 0) == Empty(n)
  {
  }

  lemma CpuRead(s: Snapshot)
    ensures CpuInRangeFrom(CpuFields(s.cpu), 0) <==> s.cpu.utilizationPerMille <= 1000
    ensures s.cpu.utilizationPerMille <= 1000 ==>
              SnapshotFrom(BodySlots(Filled(5, CpuFields(s.cpu), 5), s.ram, s.storage, s.battery, s.agents, s.network))
              == Some(s)
  {
    var v := CpuFields(s.cpu);
    assert CpuInRangeFrom(v, 2) by {
      assert CpuInRangeFrom(v, 5) && CpuInRangeFrom(v, 4) && CpuInRangeFrom(v, 3);
    }
    assert CpuInRangeFrom(v, 1) <==> s.cpu.utilizationPerMille <= 1000;
    assert Values(Filled(5, v, 5)) == v;
  }

  /** A body the encoder writes reads back exactly when the CPU share is at most 1000 per mille. */
  lemma SnapshotBodyRoundTrip(s: Snapshot)
    requires Encodable(s)
    ensures DecodeSnapshotBody(EncSnapshotBody(s))
            == if s.cpu.utilizationPerMille <= 1000 then Some(s) else None
  {
    hide *;
    var v := CpuFields(s.cpu);
    assert v[0..] == v;
    NothingFilled(5, v);
    SnapshotBodyHead(s);
    DecodeBodyByEntries(EncSnapshotBody(s));
    BodyFieldsRead(v, 0, GroupBytes(s), GroupCount(s), NO_BODY);
    GroupsRead(s, NO_BODY.(cpu := Filled(5, v, 5)));
    CpuRead(s);
  }

  function GroupBytes(s: Snapshot): seq<Byte>
    requires Encodable(s)
  {
    EncRamGroup(s) + (EncStorageGroup(s) + (EncBatteryGroup(s) + (EncAgentsGroup(s) + EncNetworkGroup(s))))
  }

  lemma SnapshotBodyHead(s: Snapshot)
    requires Encodable(s)
    ensures GroupCount(s) <= 5
    ensures ReadUint(EncSnapshotBody(s), 5) == Got(5 + GroupCount(s), EncFields(CpuFields(s.cpu), 0) + GroupBytes(s))
  {
    hide ReadUint, EncUint, EncFields, CpuFields, Encodable;
    hide EncRamGroup, EncStorageGroup, EncBatteryGroup, EncAgentsGroup, EncNetworkGroup;
    ReadOfUint(5, 5 + GroupCount(s), EncFields(CpuFields(s.cpu), 0) + GroupBytes(s));
  }

  lemma DecodeBodyByEntries(body: seq<Byte>)
    requires ReadUint(body, 5).Got? && ReadUint(body, 5).value <= 10
    ensures NO_BODY == BodySlots(Empty(5), None, None, None, None, None)
    ensures
      var acc := BodyEntries(ReadUint(body, 5).rest, ReadUint(body, 5).value, NO_BODY);
      DecodeSnapshotBody(body) == if acc.Got? && acc.rest == [] then SnapshotFrom(acc.value) else None
  {
    hide ReadUint, BodyEntries, SnapshotFrom, Empty;
  }
}
