/** What the decoders accept, and as what: a message is read from its maps by looking its keys up. The order of the
    keys, where it is free, and unknown keys with any value make no difference. */
module DecodeExact {
  import opened Basics
  import opened Cbor
  import opened Messages
  import opened Decode
  import opened SkipProofs
  import opened RoundTrip
  import opened DecodeSound

  /** What follows each of the keys. */
  function Tails(s: seq<Byte>, n: nat): (vs: seq<seq<Byte>>)
    ensures |vs| == |Keys(s, n)|
    decreases n
  {
    var key := ReadUint(s, 0);
    if n == 0 || key.Fail? || SkipEntry(s).None? then [] else [key.rest] + Tails(SkipEntry(s).value, n - 1)
  }

  /** `p` gives the value that `o` holds. */
  predicate Gives<T(==)>(p: Parse<T>, o: Option<T>) { p.Got? && o == Some(p.value) }

  /** No known key comes twice or is taken already. */
  predicate Untaken(ks: seq<U64>, known: nat, taken: set<nat>) {
    Once(ks, known) && forall k <- ks | k < known :: k !in taken
  }

  function Taking(taken: set<nat>, k: nat, known: nat): set<nat> { if k < known then taken + {k} else taken }

  lemma UntakenHead(k: U64, ks: seq<U64>, known: nat, taken: set<nat>)
    ensures Untaken([k] + ks, known, taken)
            <==> (k < known ==> k !in taken) && Untaken(ks, known, Taking(taken, k, known))
  {
    var all := [k] + ks;
    if Untaken(all, known, taken) {
      forall i, j | 0 <= i < j < |ks| && ks[i] == ks[j] ensures ks[i] >= known {
        assert all[i + 1] == ks[i] && all[j + 1] == ks[j];
      }
      forall x <- ks | x < known ensures x !in taken && x != k {
        var j :| 0 <= j < |ks| && ks[j] == x;
        assert all[j + 1] == x && all[0] == k;
      }
      assert all[0] == k;
    }
  }

  lemma EntriesStep(s: seq<Byte>, n: nat)
    requires ReadUint(s, 0).Got? && SkipEntry(s).Some?
    ensures Keys(s, n + 1) == [ReadUint(s, 0).value] + Keys(SkipEntry(s).value, n)
    ensures Tails(s, n + 1) == [ReadUint(s, 0).rest] + Tails(SkipEntry(s).value, n)
  {
    hide SkipEntry;
  }

  lemma NoEntries(s: seq<Byte>, n: nat)
    requires n == 0 || ReadUint(s, 0).Fail? || SkipEntry(s).None?
    ensures Keys(s, n) == [] && Tails(s, n) == []
  {
    hide SkipEntry;
  }

  lemma NothingIsUntaken(known: nat, taken: set<nat>)
    ensures Untaken([], known, taken)
  {
  }

  // ---- field maps ----

  /** A known key has an unsigned value, an unknown one any value. */
  predicate FieldReads(k: nat, v: seq<Byte>, known: nat) {
    if k < known then ReadUint(v, 0).Got? else SkipValue(v, 0).Some?
  }

  predicate FieldsRead(ks: seq<U64>, vs: seq<seq<Byte>>, known: nat)
    requires |ks| == |vs|
  {
    forall i | 0 <= i < |ks| :: FieldReads(ks[i], vs[i], known)
  }

  /** Each slot holds the value of its key. */
  predicate FieldsHold(ks: seq<U64>, vs: seq<seq<Byte>>, out: Slots)
    requires |ks| == |vs|
  {
    forall i | 0 <= i < |ks| :: ks[i] < |out| ==>
      ReadUint(vs[i], 0).Got? && out[ks[i]] == Some(ReadUint(vs[i], 0).value)
  }

  predicate SlotsKept(slots: Slots, out: Slots) {
    |slots| == |out| && forall k | 0 <= k < |slots| :: slots[k].Some? ==> out[k] == slots[k]
  }

  function SlotSet(slots: Slots): set<nat> { set k: nat | k < |slots| && slots[k].Some? }

  lemma FieldEntryExact(s: seq<Byte>, slots: Slots)
    ensures
      var k := ReadUint(s, 0);
      && (FieldEntry(s, slots).Got? <==>
            k.Got? && (k.value < |slots| ==> k.value !in SlotSet(slots)) && FieldReads(k.value, k.rest, |slots|))
      && (FieldEntry(s, slots).Got? ==>
            var out := FieldEntry(s, slots).value;
            && SlotSet(out) == Taking(SlotSet(slots), k.value, |slots|) && SlotsKept(slots, out)
            && FieldsHold([k.value], [k.rest], out))
  {
    hide SkipValue, ReadUint;
  }

  lemma FieldsReadHead(k: U64, v: seq<Byte>, ks: seq<U64>, vs: seq<seq<Byte>>, known: nat)
    requires |ks| == |vs|
    ensures FieldsRead([k] + ks, [v] + vs, known) <==> FieldReads(k, v, known) && FieldsRead(ks, vs, known)
  {
    hide FieldReads;
    var (all, tails) := ([k] + ks, [v] + vs);
    assert forall i | 0 <= i < |ks| :: all[i + 1] == ks[i] && tails[i + 1] == vs[i];
    assert all[0] == k && tails[0] == v;
    if FieldsRead(all, tails, known) {
      forall i | 0 <= i < |ks| ensures FieldReads(ks[i], vs[i], known) {
        assert FieldReads(all[i + 1], tails[i + 1], known);
      }
    }
  }

  lemma FieldsHoldHead(k: U64, v: seq<Byte>, ks: seq<U64>, vs: seq<seq<Byte>>, first: Slots, out: Slots)
    requires |ks| == |vs| && FieldsHold([k], [v], first) && SlotsKept(first, out) && FieldsHold(ks, vs, out)
    ensures FieldsHold([k] + ks, [v] + vs, out)
  {
    hide ReadUint;
    assert k < |out| ==> FieldsHold([k], [v], first) && [k][0] == k && [v][0] == v;
  }

  /** A field loop accepts exactly the maps in which no known key comes twice or is taken, each known key has an
      unsigned value and each unknown one a value that can be skipped; it then takes each value at its key. */
  lemma {:induction false} FieldsExact(s: seq<Byte>, count: nat, slots: Slots)
    ensures
      var (ks, vs, out) := (Keys(s, count), Tails(s, count), FieldEntries(s, count, slots));
      && (out.Got? <==> |ks| == count && Untaken(ks, |slots|, SlotSet(slots)) && FieldsRead(ks, vs, |slots|))
      && (out.Got? ==>
            FieldsHold(ks, vs, out.value) && SlotsKept(slots, out.value) && SkipEntries(s, count) == Some(out.rest))
    decreases count
  {
    hide FieldEntry, SkipEntry, ReadUint, Untaken, FieldReads, FieldsRead, FieldsHold, SlotsKept, SlotSet, Taking;
    FieldEntryExact(s, slots);
    if count == 0 || ReadUint(s, 0).Fail? || SkipEntry(s).None? {
      NoEntries(s, count);
      NothingIsUntaken(|slots|, SlotSet(slots));
      NoFields(slots);
      NoneToSkip(s);
      if FieldEntry(s, slots).Got? { FieldEntrySkips(s, slots); }
    } else {
      var (k, v) := (ReadUint(s, 0).value, ReadUint(s, 0).rest);
      var (ks, vs) := (Keys(SkipEntry(s).value, count - 1), Tails(SkipEntry(s).value, count - 1));
      EntriesStep(s, count - 1);
      UntakenHead(k, ks, |slots|, SlotSet(slots));
      FieldsReadHead(k, v, ks, vs, |slots|);
      if FieldEntry(s, slots).Got? {
        FieldEntrySkips(s, slots);
        var first := FieldEntry(s, slots);
        FieldsExact(first.rest, count - 1, first.value);
        hide Keys, Tails;
        SkipOneMore(s, count - 1);
        if FieldEntries(s, count, slots).Got? {
          var out := FieldEntries(s, count, slots).value;
          FieldsHoldHead(k, v, ks, vs, first.value, out);
          KeptTwice(slots, first.value, out);
        }
      }
    }
  }

  lemma NoFields(slots: Slots)
    ensures FieldsRead([], [], |slots|) && FieldsHold([], [], slots) && SlotsKept(slots, slots)
  {
  }

  lemma KeptTwice(a: Slots, b: Slots, c: Slots)
    requires SlotsKept(a, b) && SlotsKept(b, c)
    ensures SlotsKept(a, c)
  {
  }

  // ---- groups ----

  /** The input starts with a map that gives the keys from 0 up these values, once each, and perhaps other keys. */
  predicate GroupIs(s: seq<Byte>, values: seq<U64>, rest: seq<Byte>) {
    var count := ReadUint(s, 5);
    && count.Got? && count.value <= MAX_ITEMS && SkipEntries(count.rest, count.value) == Some(rest)
    && var (ks, vs) := (Keys(count.rest, count.value), Tails(count.rest, count.value));
       && |ks| == count.value && Once(ks, |values|) && FieldsRead(ks, vs, |values|)
       && (forall k: nat | k < |values| :: k in ks)
       && forall i | 0 <= i < |ks| :: ks[i] < |values| ==> ReadUint(vs[i], 0).value == values[ks[i]]
  }

  lemma EmptyTakesNone(n: nat, ks: seq<U64>)
    ensures Untaken(ks, n, SlotSet(Empty(n))) <==> Once(ks, n)
  {
  }

  lemma FieldOf(ks: seq<U64>, vs: seq<seq<Byte>>, out: Slots, k: nat) returns (i: nat)
    requires |ks| == |vs| && FieldsHold(ks, vs, out) && k < |out| && k in ks
    ensures i < |ks| && ks[i] == k && ReadUint(vs[i], 0).Got? && out[k] == Some(ReadUint(vs[i], 0).value)
  {
    hide ReadUint;
    i :| 0 <= i < |ks| && ks[i] == k;
  }

  lemma FieldsAreValues(ks: seq<U64>, vs: seq<seq<Byte>>, out: Slots, values: seq<U64>)
    requires |ks| == |vs| && |out| == |values| && FieldsHold(ks, vs, out) && forall k: nat | k < |values| :: k in ks
    ensures Complete(out)
    ensures Values(out) == values
            <==> forall i | 0 <= i < |ks| :: ks[i] < |values| ==> ReadUint(vs[i], 0).value == values[ks[i]]
  {
    hide ReadUint;
    forall k: nat | k < |out| ensures out[k].Some? { var i := FieldOf(ks, vs, out, k); }
    if forall i | 0 <= i < |ks| :: ks[i] < |values| ==> ReadUint(vs[i], 0).value == values[ks[i]] {
      forall k: nat | k < |out| ensures out[k] == Some(values[k]) { var i := FieldOf(ks, vs, out, k); }
      assert Values(out) == values;
    }
  }

  /** A group of required fields decodes to just the values its map gives their keys. */
  lemma GroupExact(s: seq<Byte>, values: seq<U64>, rest: seq<Byte>)
    ensures ReadFields(s, |values|) == Got(values, rest) <==> GroupIs(s, values, rest)
  {
    var (n, count) := (|values|, ReadUint(s, 5));
    if count.Got? && count.value <= MAX_ITEMS {
      var (ks, vs) := (Keys(count.rest, count.value), Tails(count.rest, count.value));
      FieldsExact(count.rest, count.value, Empty(n));
      EmptyTakesNone(n, ks);
      var slots := FieldEntries(count.rest, count.value, Empty(n));
      if slots.Got? {
        FieldKeys(count.rest, count.value, Empty(n));
        GroupValues(ks, vs, slots.value, values);
      }
      hide ReadUint, FieldEntries, Keys, Tails, Untaken, Once, FieldsRead, FieldsHold, SlotsKept, SkipEntries, Values;
    }
  }

  lemma GroupValues(ks: seq<U64>, vs: seq<seq<Byte>>, out: Slots, values: seq<U64>)
    requires |ks| == |vs| && |out| == |values| && FieldsHold(ks, vs, out)
    requires forall k: nat | k < |out| :: out[k].Some? <==> k in ks
    ensures Complete(out) && Values(out) == values
            <==> && (forall k: nat | k < |values| :: k in ks)
                 && forall i | 0 <= i < |ks| :: ks[i] < |values| ==> ReadUint(vs[i], 0).value == values[ks[i]]
  {
    hide FieldsHold, ReadUint, Values;
    if Complete(out) {
      forall k: nat | k < |out| ensures k in ks { assert out[k] in out; }
    }
    if forall k: nat | k < |values| :: k in ks { FieldsAreValues(ks, vs, out, values); }
  }

  lemma RamExact(s: seq<Byte>, r: RamSnapshot, rest: seq<Byte>)
    ensures ReadGroup(s, 5, RamFrom) == Got(r, rest)
            <==> GroupIs(s, RamFields(r), rest) && r.usedBytes <= r.totalBytes
  {
    hide ReadFields, GroupIs;
    GroupExact(s, RamFields(r), rest);
    var fields := ReadFields(s, 5);
    if ReadGroup(s, 5, RamFrom) == Got(r, rest) { assert fields.value == RamFields(r); }
  }

  lemma StorageExact(s: seq<Byte>, r: StorageSnapshot, rest: seq<Byte>)
    ensures ReadGroup(s, 8, StorageFrom) == Got(r, rest)
            <==> GroupIs(s, StorageFields(r), rest) && r.availableBytes <= r.totalBytes
  {
    hide ReadFields, GroupIs;
    GroupExact(s, StorageFields(r), rest);
    var fields := ReadFields(s, 8);
    if ReadGroup(s, 8, StorageFrom) == Got(r, rest) { assert fields.value == StorageFields(r); }
  }

  lemma BatteryExact(s: seq<Byte>, r: BatterySnapshot, rest: seq<Byte>)
    ensures ReadGroup(s, 10, BatteryFrom) == Got(r, rest)
            <==> && GroupIs(s, BatteryFields(r), rest) && r.chargePerMille <= 1000 && r.maxCapacityPerMille <= 1000
                 && r.state <= 4 && r.condition <= 3
  {
    hide ReadFields, GroupIs;
    GroupExact(s, BatteryFields(r), rest);
    var fields := ReadFields(s, 10);
    if ReadGroup(s, 10, BatteryFrom) == Got(r, rest) { assert fields.value == BatteryFields(r); }
  }

  lemma AgentsExact(s: seq<Byte>, r: AgentsSnapshot, rest: seq<Byte>)
    ensures ReadGroup(s, 7, AgentsFrom) == Got(r, rest)
            <==> GroupIs(s, AgentsFields(r), rest) && forall x <- r.state :: x <= 3
  {
    hide ReadFields, GroupIs;
    GroupExact(s, AgentsFields(r), rest);
    var fields := ReadFields(s, 7);
    if ReadGroup(s, 7, AgentsFrom) == Got(r, rest) { assert fields.value == AgentsFields(r); }
    if GroupIs(s, AgentsFields(r), rest) && forall x <- r.state :: x <= 3 {
      assert forall i | 0 <= i < 5 :: r.state[i] in r.state;
      assert AgentsFrom(AgentsFields(r)).value.state == r.state;
    }
  }

  // ---- the network group ----

  predicate NetworkReads(k: nat, v: seq<Byte>) {
    if k < 10 then ReadUint(v, 0).Got? else if k < 14 then ReadByteString(v, MAX_FRAME_BYTES).Got?
    else SkipValue(v, 0).Some?
  }

  predicate NetworkAllRead(ks: seq<U64>, vs: seq<seq<Byte>>)
    requires |ks| == |vs|
  {
    forall i | 0 <= i < |ks| :: NetworkReads(ks[i], vs[i])
  }

  /** The slot of key `k` holds what follows it. */
  predicate NetworkHas(k: nat, v: seq<Byte>, out: NetworkSlots)
    requires out.Shaped()
  {
    if k < 10 then ReadUint(v, 0).Got? && out.fields[k] == Some(ReadUint(v, 0).value)
    else if k < 14 then
      var b := ReadByteString(v, MAX_FRAME_BYTES);
      b.Got? && (if k == 13 then out.links else out.strings[k - 10]) == Some(b.value)
    else true
  }

  predicate NetworkHolds(ks: seq<U64>, vs: seq<seq<Byte>>, out: NetworkSlots)
    requires |ks| == |vs| && out.Shaped()
  {
    forall i | 0 <= i < |ks| :: NetworkHas(ks[i], vs[i], out)
  }

  predicate NetworkKept(acc: NetworkSlots, out: NetworkSlots)
    requires acc.Shaped() && out.Shaped()
  {
    && SlotsKept(acc.fields, out.fields)
    && (forall k | 0 <= k < 3 :: acc.strings[k].Some? ==> out.strings[k] == acc.strings[k])
    && (acc.links.Some? ==> out.links == acc.links)
  }

  function NetworkSet(acc: NetworkSlots): set<nat>
    requires acc.Shaped()
  {
    set k: nat | k < 14 && NetworkTaken(acc, k)
  }

  lemma NetworkEntryExact(s: seq<Byte>, acc: NetworkSlots)
    requires acc.Shaped()
    ensures
      var k := ReadUint(s, 0);
      && (NetworkEntry(s, acc).Got? <==>
            k.Got? && (k.value < 14 ==> k.value !in NetworkSet(acc)) && NetworkReads(k.value, k.rest))
      && (NetworkEntry(s, acc).Got? ==>
            var out := NetworkEntry(s, acc).value;
            && NetworkSet(out) == Taking(NetworkSet(acc), k.value, 14) && NetworkKept(acc, out)
            && NetworkHas(k.value, k.rest, out))
  {
    if NetworkEntry(s, acc).Got? { NetworkEntryKey(s, acc); }
    hide SkipValue, ReadUint, ReadByteString;
  }

  lemma NetworkReadHead(k: U64, v: seq<Byte>, ks: seq<U64>, vs: seq<seq<Byte>>)
    requires |ks| == |vs|
    ensures NetworkAllRead([k] + ks, [v] + vs) <==> NetworkReads(k, v) && NetworkAllRead(ks, vs)
  {
    hide NetworkReads;
    var (all, tails) := ([k] + ks, [v] + vs);
    if NetworkAllRead(all, tails) {
      forall i | 0 <= i < |ks| ensures NetworkReads(ks[i], vs[i]) { assert NetworkReads(all[i + 1], tails[i + 1]); }
      assert NetworkReads(all[0], tails[0]);
    }
  }

  lemma NetworkHoldsHead(k: U64, v: seq<Byte>, ks: seq<U64>, vs: seq<seq<Byte>>, first: NetworkSlots, out: NetworkSlots)
    requires |ks| == |vs| && first.Shaped() && out.Shaped()
    requires NetworkHas(k, v, first) && NetworkKept(first, out) && NetworkHolds(ks, vs, out)
    ensures NetworkHolds([k] + ks, [v] + vs, out)
  {
    hide ReadUint, ReadByteString;
    assert NetworkHas(k, v, out);
    hide NetworkHas;
  }

  lemma NetworkKeptTwice(a: NetworkSlots, b: NetworkSlots, c: NetworkSlots)
    requires a.Shaped() && b.Shaped() && c.Shaped() && NetworkKept(a, b) && NetworkKept(b, c)
    ensures NetworkKept(a, c)
  {
  }

  lemma NoNetwork(acc: NetworkSlots)
    requires acc.Shaped()
    ensures NetworkAllRead([], []) && NetworkHolds([], [], acc) && NetworkKept(acc, acc)
  {
  }

  lemma {:induction false} NetworkLoopExact(s: seq<Byte>, count: nat, acc: NetworkSlots)
    requires acc.Shaped()
    ensures
      var (ks, vs, out) := (Keys(s, count), Tails(s, count), NetworkEntries(s, count, acc));
      && (out.Got? <==> |ks| == count && Untaken(ks, 14, NetworkSet(acc)) && NetworkAllRead(ks, vs))
      && (out.Got? ==>
            NetworkHolds(ks, vs, out.value) && NetworkKept(acc, out.value) && SkipEntries(s, count) == Some(out.rest))
    decreases count
  {
    hide NetworkEntry, SkipEntry, ReadUint, Untaken, NetworkReads, NetworkAllRead, NetworkHas, NetworkHolds, NetworkKept;
    hide NetworkSet, Taking;
    NetworkEntryExact(s, acc);
    if count == 0 || ReadUint(s, 0).Fail? || SkipEntry(s).None? {
      NoEntries(s, count);
      NothingIsUntaken(14, NetworkSet(acc));
      NoNetwork(acc);
      NoneToSkip(s);
      if NetworkEntry(s, acc).Got? { NetworkEntryIsEntry(s, acc); }
    } else {
      var (k, v) := (ReadUint(s, 0).value, ReadUint(s, 0).rest);
      var (ks, vs) := (Keys(SkipEntry(s).value, count - 1), Tails(SkipEntry(s).value, count - 1));
      EntriesStep(s, count - 1);
      UntakenHead(k, ks, 14, NetworkSet(acc));
      NetworkReadHead(k, v, ks, vs);
      if NetworkEntry(s, acc).Got? {
        NetworkEntryIsEntry(s, acc);
        var first := NetworkEntry(s, acc);
        NetworkLoopExact(first.rest, count - 1, first.value);
        hide Keys, Tails;
        SkipOneMore(s, count - 1);
        if NetworkEntries(s, count, acc).Got? {
          var out := NetworkEntries(s, count, acc).value;
          NetworkHoldsHead(k, v, ks, vs, first.value, out);
          NetworkKeptTwice(acc, first.value, out);
        }
      }
    }
  }

  /** What follows key `k` in a network group's map, if the group is `n`. */
  predicate NetworkMeans(k: nat, v: seq<Byte>, n: NetworkSnapshot) {
    if k < 10 then ReadUint(v, 0).Got? && ReadUint(v, 0).value == NetworkFields(n)[k]
    else if k < 14 then
      var b := ReadByteString(v, MAX_FRAME_BYTES);
      && b.Got? && (k == 10 ==> b.value == MacBytes(n.station)) && (k == 11 ==> b.value == n.ssid)
      && (k == 12 ==> b.value == MacBytes(n.bssid))
      && (k == 13 ==> n.links.Some? && b.value == LinkBytes(n.links.value))
    else SkipValue(v, 0).Some?
  }

  /** The input starts with a map that gives the network group `n`. */
  predicate NetworkIs(s: seq<Byte>, n: NetworkSnapshot, rest: seq<Byte>) {
    var count := ReadUint(s, 5);
    && n.IsValid() && count.Got? && count.value <= MAX_ITEMS && SkipEntries(count.rest, count.value) == Some(rest)
    && var (ks, vs) := (Keys(count.rest, count.value), Tails(count.rest, count.value));
       && |ks| == count.value && Once(ks, 14) && (forall i | 0 <= i < |ks| :: NetworkMeans(ks[i], vs[i], n))
       && (forall k: nat | k < 13 :: k in ks) && (13 in ks <==> n.links.Some?)
  }

  lemma FieldsOfNetwork(v: seq<U64>, n: NetworkSnapshot)
    requires |v| == 10 && v[1] <= U32_MAX && v[2] <= 4 && v[3] <= 1 && v[6] <= 6 && v[7] <= U32_MAX && v[8] <= 2
    requires v[9] <= 0xFF && AvailabilityFrom(v[0]) == Some(n.trafficAvailability) && v[1] == n.trafficAgeMs
    requires RouteFrom(v[2]) == n.routeKind && (v[3] == 1 <==> n.viaTunnel) && v[4] == n.rxBytesPerS
    requires v[5] == n.txBytesPerS && ContextFrom(v[6]) == n.contextAvailability && v[7] == n.contextAgeMs
    requires CoverageFrom(v[8]) == n.coverage && v[9] == n.channel
    ensures v == NetworkFields(n)
  {
  }

  lemma LinksOf(b: seq<Byte>)
    requires LinksFrom(b).Some?
    ensures LinkBytes(LinksFrom(b).value) == b
  {
    forall i | 0 <= i < |b| ensures LinkBytes(LinksFrom(b).value)[i] == b[i] { assert b[i] in b; }
  }

  lemma MacOf(b: seq<Byte>)
    requires MacFrom(b).Some?
    ensures MacBytes(MacFrom(b).value) == b
  {
  }

  lemma FilledOf(slots: Slots)
    requires Complete(slots)
    ensures slots == Filled(|slots|, Values(slots), |slots|)
  {
    assert forall i | 0 <= i < |slots| :: slots[i] in slots;
  }

  lemma NetworkSlotsFrom(acc: NetworkSlots, n: NetworkSnapshot)
    requires acc.Shaped() && NetworkFrom(acc) == Some(n)
    ensures acc == SlotsOfNetwork(n)
  {
    MacOf(acc.strings[0].value);
    MacOf(acc.strings[2].value);
    if acc.links.Some? { LinksOf(acc.links.value); }
    var v := Values(acc.fields);
    hide MacFrom, MacBytes, LinksFrom, LinkBytes, NetworkSnapshot.IsValid;
    NetworkValues(acc, n);
    hide NetworkFrom, NetworkFields;
    FilledOf(acc.fields);
    assert acc.strings == [Some(MacBytes(n.station)), Some(n.ssid), Some(MacBytes(n.bssid))];
  }

  lemma NetworkValues(acc: NetworkSlots, n: NetworkSnapshot)
    requires acc.Shaped() && NetworkFrom(acc) == Some(n)
    ensures Complete(acc.fields) && Values(acc.fields) == NetworkFields(n)
  {
    hide MacFrom, LinksFrom, NetworkSnapshot.IsValid, NetworkFields, RouteFrom, ContextFrom, CoverageFrom, AvailabilityFrom;
    FieldsOfNetwork(Values(acc.fields), n);
  }

  lemma NetworkFromExact(acc: NetworkSlots, n: NetworkSnapshot)
    requires acc.Shaped()
    ensures NetworkFrom(acc) == Some(n) <==> acc == SlotsOfNetwork(n) && n.IsValid()
  {
    hide NetworkFrom, SlotsOfNetwork, NetworkSnapshot.IsValid;
    if NetworkFrom(acc) == Some(n) { NetworkSlotsFrom(acc, n); }
    if acc == SlotsOfNetwork(n) && n.IsValid() { NetworkFromSlots(n); }
  }

  lemma NetworkMeansSlot(k: nat, v: seq<Byte>, out: NetworkSlots, n: NetworkSnapshot)
    requires out.Shaped() && k < 14 && NetworkHas(k, v, out)
    ensures NetworkMeans(k, v, n) <==>
              if k < 10 then out.fields[k] == Some(NetworkFields(n)[k])
              else if k == 10 then out.strings[0] == Some(MacBytes(n.station))
              else if k == 11 then out.strings[1] == Some(n.ssid)
              else if k == 12 then out.strings[2] == Some(MacBytes(n.bssid))
              else n.links.Some? && out.links == Some(LinkBytes(n.links.value))
  {
    hide ReadUint, ReadByteString, NetworkFields, MacBytes, LinkBytes;
  }

  lemma SlotMeans(ks: seq<U64>, vs: seq<seq<Byte>>, out: NetworkSlots, n: NetworkSnapshot, k: nat)
    requires |ks| == |vs| && out.Shaped() && NetworkHolds(ks, vs, out) && k < 14 && k in ks
    requires forall i | 0 <= i < |ks| :: NetworkMeans(ks[i], vs[i], n)
    ensures exists v :: NetworkHas(k, v, out) && NetworkMeans(k, v, n)
  {
    hide NetworkHas, NetworkMeans;
    var i :| 0 <= i < |ks| && ks[i] == k;
    assert NetworkHas(k, vs[i], out) && NetworkMeans(k, vs[i], n);
  }

  lemma NetworkSlotsAre(ks: seq<U64>, vs: seq<seq<Byte>>, out: NetworkSlots, n: NetworkSnapshot)
    requires |ks| == |vs| && out.Shaped() && NetworkHolds(ks, vs, out) && NetworkAllRead(ks, vs)
    requires forall k: nat | k < 14 :: NetworkTaken(out, k) <==> k in ks
    ensures out == SlotsOfNetwork(n)
            <==> && (forall i | 0 <= i < |ks| :: NetworkMeans(ks[i], vs[i], n))
                 && (forall k: nat | k < 13 :: k in ks) && (13 in ks <==> n.links.Some?)
  {
    if out == SlotsOfNetwork(n) {
      forall i | 0 <= i < |ks| ensures NetworkMeans(ks[i], vs[i], n) {
        assert NetworkHas(ks[i], vs[i], out) && NetworkReads(ks[i], vs[i]);
        if ks[i] < 14 { NetworkMeansSlot(ks[i], vs[i], out, n); }
        hide NetworkHas, ReadUint, ReadByteString, SkipValue;
      }
      hide NetworkMeans, NetworkHas, NetworkHolds, NetworkAllRead;
      forall k: nat | k < 14 ensures k in ks <==> k < 13 || n.links.Some? { assert NetworkTaken(out, k) <==> k in ks; }
    }
    if && (forall i | 0 <= i < |ks| :: NetworkMeans(ks[i], vs[i], n))
       && (forall k: nat | k < 13 :: k in ks) && (13 in ks <==> n.links.Some?) {
      NetworkSlotsFilled(ks, vs, out, n);
    }
  }

  lemma NetworkSlotsFilled(ks: seq<U64>, vs: seq<seq<Byte>>, out: NetworkSlots, n: NetworkSnapshot)
    requires |ks| == |vs| && out.Shaped() && NetworkHolds(ks, vs, out)
    requires forall k: nat | k < 14 :: NetworkTaken(out, k) <==> k in ks
    requires forall i | 0 <= i < |ks| :: NetworkMeans(ks[i], vs[i], n)
    requires (forall k: nat | k < 13 :: k in ks) && (13 in ks <==> n.links.Some?)
    ensures out == SlotsOfNetwork(n)
  {
    hide NetworkHas, NetworkMeans, NetworkHolds, NetworkFields, MacBytes, LinkBytes;
    forall k: nat | k < 10 ensures out.fields[k] == Some(NetworkFields(n)[k]) {
      SlotMeans(ks, vs, out, n, k);
      var v :| NetworkHas(k, v, out) && NetworkMeans(k, v, n);
      NetworkMeansSlot(k, v, out, n);
    }
    assert out.fields == Filled(10, NetworkFields(n), 10);
    NetworkStringsFilled(ks, vs, out, n);
    assert out.strings == [Some(MacBytes(n.station)), Some(n.ssid), Some(MacBytes(n.bssid))];
    assert NetworkTaken(out, 13) <==> 13 in ks;
    if n.links.Some? {
      SlotMeans(ks, vs, out, n, 13);
      var v :| NetworkHas(13, v, out) && NetworkMeans(13, v, n);
      NetworkMeansSlot(13, v, out, n);
    }
  }

  lemma NetworkStringsFilled(ks: seq<U64>, vs: seq<seq<Byte>>, out: NetworkSlots, n: NetworkSnapshot)
    requires |ks| == |vs| && out.Shaped() && NetworkHolds(ks, vs, out)
    requires forall i | 0 <= i < |ks| :: NetworkMeans(ks[i], vs[i], n)
    requires forall k: nat | k < 13 :: k in ks
    ensures out.strings[0] == Some(MacBytes(n.station)) && out.strings[1] == Some(n.ssid)
    ensures out.strings[2] == Some(MacBytes(n.bssid))
  {
    hide NetworkHas, NetworkMeans, NetworkHolds, NetworkFields, MacBytes, LinkBytes;
    SlotMeans(ks, vs, out, n, 10);
    var a :| NetworkHas(10, a, out) && NetworkMeans(10, a, n);
    NetworkMeansSlot(10, a, out, n);
    SlotMeans(ks, vs, out, n, 11);
    var b :| NetworkHas(11, b, out) && NetworkMeans(11, b, n);
    NetworkMeansSlot(11, b, out, n);
    SlotMeans(ks, vs, out, n, 12);
    var c :| NetworkHas(12, c, out) && NetworkMeans(12, c, n);
    NetworkMeansSlot(12, c, out, n);
  }

  lemma NothingInNetwork(ks: seq<U64>)
    ensures Untaken(ks, 14, NetworkSet(NO_NETWORK)) <==> Once(ks, 14)
  {
    NothingTaken();
    hide Once;
  }

  lemma NetworkMeansRead(ks: seq<U64>, vs: seq<seq<Byte>>, n: NetworkSnapshot)
    requires |ks| == |vs| && forall i | 0 <= i < |ks| :: NetworkMeans(ks[i], vs[i], n)
    ensures NetworkAllRead(ks, vs)
  {
    hide ReadUint, ReadByteString, SkipValue, NetworkFields, MacBytes, LinkBytes;
    forall i | 0 <= i < |ks| ensures NetworkReads(ks[i], vs[i]) { assert NetworkMeans(ks[i], vs[i], n); }
  }

  /** A network group decodes to `n` exactly when its map gives `n`, and only if `n` keeps the group's rules. */
  lemma NetworkExact(s: seq<Byte>, n: NetworkSnapshot, rest: seq<Byte>)
    ensures ReadNetwork(s) == Got(n, rest) <==> NetworkIs(s, n, rest)
  {
    var count := ReadUint(s, 5);
    if count.Got? && count.value <= MAX_ITEMS {
      var (ks, vs) := (Keys(count.rest, count.value), Tails(count.rest, count.value));
      NetworkLoopExact(count.rest, count.value, NO_NETWORK);
      NothingInNetwork(ks);
      var slots := NetworkEntries(count.rest, count.value, NO_NETWORK);
      hide NetworkMeans, NetworkTaken;
      if slots.Got? {
        NetworkKeys(count.rest, count.value, NO_NETWORK);
        NothingTaken();
        NetworkSlotsAre(ks, vs, slots.value, n);
        NetworkFromExact(slots.value, n);
      }
      hide ReadUint, NetworkEntries, Keys, Tails, Untaken, Once, NetworkAllRead, NetworkHolds, NetworkKept, SkipEntries;
      hide NetworkFrom, SlotsOfNetwork, NetworkSnapshot.IsValid, NetworkSet;
      if NetworkIs(s, n, rest) { NetworkMeansRead(ks, vs, n); }
    }
  }
}
