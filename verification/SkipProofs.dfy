/** `skip_body` is at least as permissive as every typed body decoder, and finds
    the same end. */
module SkipProofs {
  import opened Basics
  import opened Cbor
  import opened Messages
  import opened Decode

  lemma FieldEntrySkips(s: seq<Byte>, slots: Slots)
    requires FieldEntry(s, slots).Got?
    ensures SkipMany(s, 2, 0) == Some(FieldEntry(s, slots).rest)
    ensures SkipEntry(s) == Some(FieldEntry(s, slots).rest)
  {
    var key := ReadUint(s, 0);
    SkipOfUint(s);
    if key.value < |slots| { SkipOfUint(key.rest); }
    SkipOfUnknown(key.rest);
    var r := FieldEntry(s, slots).rest;
    assert SkipValue(key.rest, 0) == Some(r);
    assert SkipMany(key.rest, 1, 0) == Some(r) by { assert SkipMany(r, 0, 0) == Some(r); }
  }

  lemma SkipTwoMore(s: seq<Byte>, n: nat)
    requires SkipMany(s, 2, 0).Some?
    ensures SkipMany(s, n + 2, 0) == SkipMany(SkipMany(s, 2, 0).value, n, 0)
  {
    var one := SkipValue(s, 0).value;
    var two := SkipValue(one, 0).value;
    hide SkipValue;
    assert SkipMany(one, 1, 0) == SkipMany(two, 0, 0);
    assert SkipMany(s, n + 2, 0) == SkipMany(one, n + 1, 0) == SkipMany(two, n, 0);
  }

  lemma FieldEntriesSplit(s: seq<Byte>, count: nat, slots: Slots)
    requires count > 0 && FieldEntries(s, count, slots).Got?
    ensures FieldEntry(s, slots).Got?
    ensures FieldEntries(s, count, slots)
            == FieldEntries(FieldEntry(s, slots).rest, count - 1, FieldEntry(s, slots).value)
  {
    hide FieldEntry;
  }

  lemma NoneToSkip(s: seq<Byte>)
    ensures SkipMany(s, 0, 0) == Some(s) && SkipEntries(s, 0) == Some(s)
  {
  }

  lemma {:induction false} FieldEntriesSkip(s: seq<Byte>, count: nat, slots: Slots)
    requires FieldEntries(s, count, slots).Got?
    ensures SkipMany(s, 2 * count, 0) == Some(FieldEntries(s, count, slots).rest)
    decreases count
  {
    hide FieldEntry, SkipMany, SkipEntry;
    if count == 0 {
      NoneToSkip(s);
    } else {
      FieldEntriesSplit(s, count, slots);
      hide FieldEntries;
      var first := FieldEntry(s, slots);
      FieldEntrySkips(s, slots);
      SkipTwoMore(s, 2 * (count - 1));
      FieldEntriesSkip(first.rest, count - 1, first.value);
    }
  }

  lemma ReadFieldsSkip(s: seq<Byte>, n: nat)
    requires ReadFields(s, n).Got?
    ensures SkipEntryValue(s) == Some(ReadFields(s, n).rest)
  {
    hide FieldEntries, SkipMany;
    var count := ReadUint(s, 5);
    FieldEntriesSkip(count.rest, count.value, Empty(n));
  }

  lemma NetworkEntrySkips(s: seq<Byte>, acc: NetworkSlots)
    requires acc.Shaped() && NetworkEntry(s, acc).Got?
    ensures SkipMany(s, 2, 0) == Some(NetworkEntry(s, acc).rest)
  {
    var key := ReadUint(s, 0);
    if key.value <= 9 {
      FieldEntrySkips(s, acc.fields);
    } else {
      var r := NetworkEntry(s, acc).rest;
      SkipOfUint(s);
      assert SkipValue(key.rest, 0) == Some(r) by {
        if key.value <= 13 { SkipOfBytes(key.rest, MAX_FRAME_BYTES); }
      }
      hide SkipValue;
      assert SkipMany(key.rest, 1, 0) == Some(r) by { assert SkipMany(r, 0, 0) == Some(r); }
    }
  }

  lemma NetworkEntriesSplit(s: seq<Byte>, count: nat, acc: NetworkSlots)
    requires acc.Shaped() && count > 0 && NetworkEntries(s, count, acc).Got?
    ensures NetworkEntry(s, acc).Got?
    ensures NetworkEntries(s, count, acc)
            == NetworkEntries(NetworkEntry(s, acc).rest, count - 1, NetworkEntry(s, acc).value)
  {
    hide NetworkEntry;
  }

  lemma {:induction false} NetworkEntriesSkip(s: seq<Byte>, count: nat, acc: NetworkSlots)
    requires acc.Shaped() && NetworkEntries(s, count, acc).Got?
    ensures SkipMany(s, 2 * count, 0) == Some(NetworkEntries(s, count, acc).rest)
    decreases count
  {
    hide NetworkEntry, SkipMany, SkipEntry;
    if count == 0 {
      NoneToSkip(s);
    } else {
      NetworkEntriesSplit(s, count, acc);
      hide NetworkEntries;
      var first := NetworkEntry(s, acc);
      NetworkEntrySkips(s, acc);
      SkipTwoMore(s, 2 * (count - 1));
      NetworkEntriesSkip(first.rest, count - 1, first.value);
    }
  }

  lemma ReadNetworkSkips(s: seq<Byte>)
    requires ReadNetwork(s).Got?
    ensures SkipEntryValue(s) == Some(ReadNetwork(s).rest)
  {
    hide NetworkEntries, SkipMany, NetworkFrom;
    var count := ReadUint(s, 5);
    NetworkEntriesSkip(count.rest, count.value, NO_NETWORK);
  }

  lemma BodyEntrySkips(s: seq<Byte>, acc: BodySlots)
    requires |acc.cpu| == 5 && BodyEntry(s, acc).Got?
    ensures SkipEntry(s) == Some(BodyEntry(s, acc).rest)
  {
    hide ReadFields, ReadNetwork, SkipMany, SkipEntryValue, FieldEntry, RamFrom, StorageFrom, BatteryFrom, AgentsFrom;
    var key := ReadUint(s, 0);
    SkipOfUint(s);
    if key.value == 5 { ReadFieldsSkip(key.rest, 5); }
    else if key.value == 6 { ReadFieldsSkip(key.rest, 8); }
    else if key.value == 7 { ReadFieldsSkip(key.rest, 10); }
    else if key.value == 8 { ReadFieldsSkip(key.rest, 7); }
    else if key.value == 9 { ReadNetworkSkips(key.rest); }
    else { FieldEntrySkips(s, acc.cpu); }
  }

  lemma SkipOneMore(s: seq<Byte>, n: nat)
    requires SkipEntry(s).Some?
    ensures SkipEntries(s, n + 1) == SkipEntries(SkipEntry(s).value, n)
  {
    hide SkipEntry;
  }

  lemma BodyEntriesSplit(s: seq<Byte>, count: nat, acc: BodySlots)
    requires |acc.cpu| == 5 && count > 0 && BodyEntries(s, count, acc).Got?
    ensures BodyEntry(s, acc).Got?
    ensures BodyEntries(s, count, acc) == BodyEntries(BodyEntry(s, acc).rest, count - 1, BodyEntry(s, acc).value)
  {
    hide BodyEntry;
  }

  lemma {:induction false} BodyEntriesSkip(s: seq<Byte>, count: nat, acc: BodySlots)
    requires |acc.cpu| == 5 && BodyEntries(s, count, acc).Got?
    ensures SkipEntries(s, count) == Some(BodyEntries(s, count, acc).rest)
    decreases count
  {
    hide BodyEntry, SkipEntry, SkipEntries;
    if count == 0 {
      NoneToSkip(s);
    } else {
      BodyEntriesSplit(s, count, acc);
      hide BodyEntries;
      var first := BodyEntry(s, acc);
      BodyEntrySkips(s, acc);
      SkipOneMore(s, count - 1);
      BodyEntriesSkip(first.rest, count - 1, first.value);
    }
  }

  /** A snapshot body the decoder accepts is skipped to exactly its end, whatever follows it. */
  lemma SkipBodyOfSnapshot(body: seq<Byte>, t: seq<Byte>)
    requires DecodeSnapshotBody(body).Some?
    ensures SkipBody(body + t) == Some(t)
  {
    hide BodyEntries, SkipEntries, SnapshotFrom;
    var count := ReadUint(body, 5);
    BodyEntriesSkip(count.rest, count.value, NO_BODY);
    SkipBodyLocal(body, t);
    assert [] + t == t;
  }

  lemma ControlEntrySkips(s: seq<Byte>, kind: MessageType, acc: ControlSlots)
    requires acc.Shaped() && ControlEntry(s, kind, acc).Got?
    ensures SkipEntry(s) == Some(ControlEntry(s, kind, acc).rest)
  {
    hide SkipMany;
    var key := ReadUint(s, 0);
    SkipOfUint(s);
    if key.value <= KnownMax(kind) {
      if kind == PairType && key.value < 2 { SkipOfBytes(key.rest, 16); } else { SkipOfUint(key.rest); }
    }
    SkipOfUnknown(key.rest);
  }

  lemma ControlEntriesSplit(s: seq<Byte>, kind: MessageType, count: nat, acc: ControlSlots)
    requires acc.Shaped() && count > 0 && ControlEntries(s, kind, count, acc).Got?
    ensures ControlEntry(s, kind, acc).Got?
    ensures ControlEntries(s, kind, count, acc)
            == ControlEntries(ControlEntry(s, kind, acc).rest, kind, count - 1, ControlEntry(s, kind, acc).value)
  {
    hide ControlEntry;
  }

  lemma {:induction false} ControlEntriesSkip(s: seq<Byte>, kind: MessageType, count: nat, acc: ControlSlots)
    requires acc.Shaped() && ControlEntries(s, kind, count, acc).Got?
    ensures SkipEntries(s, count) == Some(ControlEntries(s, kind, count, acc).rest)
    decreases count
  {
    hide ControlEntry, SkipEntry, SkipEntries;
    if count == 0 {
      NoneToSkip(s);
    } else {
      ControlEntriesSplit(s, kind, count, acc);
      hide ControlEntries;
      var first := ControlEntry(s, kind, acc);
      ControlEntrySkips(s, kind, acc);
      SkipOneMore(s, count - 1);
      ControlEntriesSkip(first.rest, kind, count - 1, first.value);
    }
  }

  /** So is a control body. */
  lemma SkipBodyOfControl(kind: MessageType, body: seq<Byte>, t: seq<Byte>)
    requires DecodeControlBody(kind, body).Some?
    ensures SkipBody(body + t) == Some(t)
  {
    hide ControlEntries, SkipEntries, ControlFrom;
    if kind != ErrorType {
      var count := ReadUint(body, 5);
      ControlEntriesSkip(count.rest, kind, count.value, NO_CONTROL);
    }
    SkipBodyLocal(body, t);
    assert [] + t == t;
  }
}
