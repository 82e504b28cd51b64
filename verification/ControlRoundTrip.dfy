/** Every control body the encoder accepts decodes back to itself. */
module ControlRoundTrip {
  import opened Basics
  import opened Cbor
  import opened Messages
  import opened Decode
  import opened RoundTrip

  lemma ControlStep(s: seq<Byte>, kind: MessageType, count: nat, acc: ControlSlots, next: ControlSlots, rest: seq<Byte>)
    requires acc.Shaped() && next.Shaped() && count > 0 && ControlEntry(s, kind, acc) == Got(next, rest)
    ensures ControlEntries(s, kind, count, acc) == ControlEntries(rest, kind, count - 1, next)
  {
    hide ControlEntry;
  }

  predicate After(prior: Option<U64>, key: nat) { prior.Some? ==> prior.value < key }

  lemma ControlUintRead(key: U64, value: U64, kind: MessageType, t: seq<Byte>, acc: ControlSlots)
    requires acc.Shaped() && After(acc.prior, key) && key <= KnownMax(kind) && !(kind == PairType && key < 2)
    ensures ControlEntry(EncEntry(key, value) + t, kind, acc)
            == Got(acc.(prior := Some(key), fields := acc.fields[key := Some(value)]), t)
  {
    hide ReadUint, EncEntry, ReadExact;
    EntryRead(key, value, t);
  }

  lemma ControlIdentityRead(key: U64, id: Identity, t: seq<Byte>, acc: ControlSlots)
    requires acc.Shaped() && After(acc.prior, key) && key < 2
    ensures ControlEntry(EncByteEntry(key, id) + t, PairType, acc)
            == Got(acc.(prior := Some(key), identities := acc.identities[key := Some(id)]), t)
  {
    hide ReadUint, EncByteEntry, EncBytes, ReadExact;
    ByteEntryRead(key, id, t);
  }

  lemma {:induction false} ControlFieldsRead(
    v: seq<U64>, k: nat, kind: MessageType, t: seq<Byte>, m: nat, acc: ControlSlots)
    requires k <= |v| <= KnownMax(kind) + 1 && kind != PairType
    requires acc.Shaped() && acc.fields == Filled(6, v, k) && acc.prior == (if k == 0 then None else Some(k - 1))
    ensures ControlEntries(EncFields(v[k..], k) + t, kind, |v| - k + m, acc)
            == ControlEntries(t, kind, m,
                              acc.(fields := Filled(6, v, |v|), prior := if v == [] then None else Some(|v| - 1)))
    decreases |v| - k
  {
    hide ControlEntry, ControlEntries, EncEntry, EncFields;
    if k == |v| {
      EncFieldsEnd(v, t);
    } else {
      var u := EncFields(v[k + 1..], k + 1) + t;
      var next := acc.(prior := Some(k), fields := acc.fields[k := Some(v[k])]);
      assert next.fields == Filled(6, v, k + 1);
      EncFieldsStep(v, k, t);
      ControlUintRead(k, v[k], kind, u, acc);
      ControlStep(EncEntry(k, v[k]) + u, kind, |v| - k + m, acc, next, u);
      ControlFieldsRead(v, k + 1, kind, t, m, next);
    }
  }

  lemma ControlOptionalRead(key: U64, value: Option<U64>, kind: MessageType, t: seq<Byte>, m: nat, acc: ControlSlots)
    requires acc.Shaped() && After(acc.prior, key) && key <= KnownMax(kind) && kind != PairType
    requires acc.fields[key].None?
    ensures ControlEntries(EncOptional(key, value) + t, kind, Present(value) + m, acc)
            == ControlEntries(t, kind, m, acc.(fields := acc.fields[key := value],
                                               prior := if value.Some? then Some(key) else acc.prior))
  {
    hide ControlEntry, ControlEntries, EncEntry;
    if value.Some? {
      var next := acc.(prior := Some(key), fields := acc.fields[key := value]);
      ControlUintRead(key, value.value, kind, t, acc);
      ControlStep(EncEntry(key, value.value) + t, kind, 1 + m, acc, next, t);
    } else {
      assert EncOptional(key, value) + t == t;
      assert acc.fields[key := value] == acc.fields;
    }
  }

  lemma ControlEnd(kind: MessageType, acc: ControlSlots)
    requires acc.Shaped()
    ensures ControlEntries([], kind, 0, acc) == Got(acc, [])
  {
  }

  lemma DecodeControlByEntries(kind: MessageType, count: nat, rest: seq<Byte>)
    requires kind != ErrorType && kind != SnapshotType && count <= MAX_ITEMS
    ensures
      var acc := ControlEntries(rest, kind, count, NO_CONTROL);
      DecodeControlBody(kind, MapHead(count) + rest)
      == if acc.Got? && acc.rest == [] then ControlFrom(kind, acc.value) else None
  {
    hide ControlEntries, ReadUint, ControlFrom, EncUint;
    ReadOfUint(5, count, rest);
  }

  /** Bodies that are one field map: commands and their replies. */
  lemma GroupBodyRead(kind: MessageType, v: seq<U64>)
    requires |v| == KnownMax(kind) + 1 && (kind == CommandType || kind == CommandReplyType)
    ensures DecodeControlBody(kind, EncGroup(v))
            == ControlFrom(kind, ControlSlots(Some(|v| - 1), Filled(6, v, |v|), [None, None]))
  {
    hide ControlEntries, EncFields, ControlFrom, DecodeControlBody;
    assert v[0..] == v && Filled(6, v, 0) == Empty(6);
    DecodeControlByEntries(kind, |v|, EncFields(v, 0));
    assert EncFields(v, 0) + [] == EncFields(v, 0);
    ControlFieldsRead(v, 0, kind, [], 0, NO_CONTROL);
    ControlEnd(kind, ControlSlots(Some(|v| - 1), Filled(6, v, |v|), [None, None]));
  }

  function HelloFields(h: HelloBody): (v: seq<U64>)
    ensures |v| == 4
  {
    [h.supportedMajor, h.supportedMinor, h.capabilities, h.configurationRevision]
  }

  function HelloSlots(h: HelloBody): (f: Slots)
    ensures |f| == 6
  {
    Filled(6, HelloFields(h), 4)[4 := h.utcMs][5 := Widen(h.utcUncertaintyMs)]
  }

  lemma HelloEntriesRead(kind: MessageType, h: HelloBody)
    requires kind == HelloType || kind == HelloReplyType
    ensures
      var n := 4 + Present(h.utcMs) + Present(h.utcUncertaintyMs);
      var rest := EncFields(HelloFields(h), 0) + (EncOptional(4, h.utcMs) + EncOptional(5, Widen(h.utcUncertaintyMs)));
      var acc := ControlEntries(rest, kind, n, NO_CONTROL);
      acc.Got? && acc.rest == [] && acc.value.fields == HelloSlots(h)
  {
    hide ControlEntries, EncFields, EncOptional, HelloFields;
    var v := HelloFields(h);
    var o5 := EncOptional(5, Widen(h.utcUncertaintyMs));
    assert v[0..] == v && Filled(6, v, 0) == Empty(6);
    assert o5 + [] == o5;
    var m5 := Present(h.utcUncertaintyMs);
    ControlFieldsRead(v, 0, kind, EncOptional(4, h.utcMs) + o5, Present(h.utcMs) + m5, NO_CONTROL);
    var a := NO_CONTROL.(fields := Filled(6, v, 4), prior := Some(3));
    ControlOptionalRead(4, h.utcMs, kind, o5, m5, a);
    var b := a.(fields := a.fields[4 := h.utcMs], prior := if h.utcMs.Some? then Some(4) else a.prior);
    ControlOptionalRead(5, Widen(h.utcUncertaintyMs), kind, [], 0, b);
    ControlEnd(kind, b.(fields := HelloSlots(h), prior := if h.utcUncertaintyMs.Some? then Some(5) else b.prior));
  }

  lemma HelloRead(kind: MessageType, h: HelloBody)
    requires kind == HelloType || kind == HelloReplyType
    ensures DecodeControlBody(kind, EncHello(h)) == Some(if kind == HelloType then Hello(h) else HelloReply(h))
  {
    var f := HelloSlots(h);
    assert HelloFrom(f) == Some(h);
    hide ControlEntries, EncFields, EncOptional, DecodeControlBody, HelloFrom, HelloSlots;
    var rest := EncFields(HelloFields(h), 0) + (EncOptional(4, h.utcMs) + EncOptional(5, Widen(h.utcUncertaintyMs)));
    HelloEntriesRead(kind, h);
    DecodeControlByEntries(kind, 4 + Present(h.utcMs) + Present(h.utcUncertaintyMs), rest);
  }

  lemma PairRead(p: PairBody)
    requires SixDigits(p.matchingCode)
    ensures DecodeControlBody(PairType, EncPair(p)) == Some(Pair(p))
  {
    hide ControlEntry, ControlEntries, EncByteEntry, EncEntry, DecodeControlBody;
    var e2 := EncEntry(2, p.matchingCode);
    var s1 := EncByteEntry(1, p.intendedPeerIdentity) + e2;
    var s0 := EncByteEntry(0, p.pairingIdentity) + s1;
    var a1 := NO_CONTROL.(prior := Some(0), identities := NO_CONTROL.identities[0 := Some(p.pairingIdentity)]);
    var a2 := a1.(prior := Some(1), identities := a1.identities[1 := Some(p.intendedPeerIdentity)]);
    var a3 := a2.(prior := Some(2), fields := a2.fields[2 := Some(p.matchingCode)]);
    assert e2 + [] == e2;
    ControlIdentityRead(0, p.pairingIdentity, s1, NO_CONTROL);
    ControlStep(s0, PairType, 3, NO_CONTROL, a1, s1);
    ControlIdentityRead(1, p.intendedPeerIdentity, e2, a1);
    ControlStep(s1, PairType, 2, a1, a2, e2);
    ControlUintRead(2, p.matchingCode, PairType, [], a2);
    ControlStep(e2, PairType, 1, a2, a3, []);
    ControlEnd(PairType, a3);
    DecodeControlByEntries(PairType, 3, s0);
  }

  lemma CommandRead(c: CommandBody)
    ensures DecodeControlBody(CommandType, EncGroup([c.commandIdentity, OperationCode(c.operation)])) == Some(Command(c))
  {
    hide DecodeControlBody, EncGroup;
    GroupBodyRead(CommandType, [c.commandIdentity, OperationCode(c.operation)]);
  }

  lemma ReplyRead(r: CommandReplyBody)
    ensures DecodeControlBody(CommandReplyType,
                              EncGroup([r.commandIdentity, OperationCode(r.operation), ResultCode(r.result)]))
            == Some(CommandReply(r))
  {
    hide DecodeControlBody, EncGroup;
    GroupBodyRead(CommandReplyType, [r.commandIdentity, OperationCode(r.operation), ResultCode(r.result)]);
  }

  lemma ErrorRead(bytes: seq<Byte>)
    requires |bytes| <= MAX_CONTROL_BODY
    ensures DecodeControlBody(ErrorType, EncBytes(bytes)) == Some(ErrorReport(bytes))
  {
    ReadOfUint(2, |bytes|, bytes);
  }

  /** What `encode_control` writes as a body, the typed decoder reads back. */
  lemma ControlBodyRoundTrip(kind: MessageType, b: ControlBody)
    requires EncControlBody(kind, b).Some?
    ensures DecodeControlBody(kind, EncControlBody(kind, b).value) == Some(b)
  {
    hide DecodeControlBody, EncGroup, EncHello, EncPair, EncBytes;
    match b
    case Hello(h) => HelloRead(kind, h);
    case HelloReply(h) => HelloRead(kind, h);
    case Pair(p) => PairRead(p);
    case Command(c) => CommandRead(c);
    case CommandReply(r) => ReplyRead(r);
    case ErrorReport(bytes) => ErrorRead(bytes);
  }
}
