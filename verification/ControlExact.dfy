/** Exactly which control bodies decode, and to what. */
module ControlExact {
  import opened Basics
  import opened Cbor
  import opened Messages
  import opened Decode
  import opened SkipProofs
  import opened DecodeSound
  import opened DecodeExact
  import Delivery

  /** Whether key `k` of a control body of this type is an identity. */
  predicate IsIdentityKey(kind: MessageType, k: nat) { kind == PairType && k < 2 }

  predicate ControlReads(kind: MessageType, k: nat, v: seq<Byte>) {
    if k > KnownMax(kind) then SkipValue(v, 0).Some?
    else if IsIdentityKey(kind, k) then ReadExact(v, 16).Got? else ReadUint(v, 0).Got?
  }

  predicate ControlAllRead(kind: MessageType, ks: seq<U64>, vs: seq<seq<Byte>>)
    requires |ks| == |vs|
  {
    forall i | 0 <= i < |ks| :: ControlReads(kind, ks[i], vs[i])
  }

  predicate ControlHas(kind: MessageType, k: nat, v: seq<Byte>, out: ControlSlots)
    requires out.Shaped()
  {
    if k > KnownMax(kind) then true
    else if IsIdentityKey(kind, k) then Gives(ReadExact(v, 16), out.identities[k])
    else Gives(ReadUint(v, 0), out.fields[k])
  }

  predicate ControlHolds(kind: MessageType, ks: seq<U64>, vs: seq<seq<Byte>>, out: ControlSlots)
    requires |ks| == |vs| && out.Shaped()
  {
    forall i | 0 <= i < |ks| :: ControlHas(kind, ks[i], vs[i], out)
  }

  /** Only the slots of these keys are new. */
  predicate ControlElsewhere(kind: MessageType, acc: ControlSlots, ks: seq<U64>, out: ControlSlots)
    requires acc.Shaped() && out.Shaped()
  {
    && (forall j: nat | j < 6 && (j > KnownMax(kind) || IsIdentityKey(kind, j) || j !in ks) ::
          out.fields[j] == acc.fields[j])
    && (forall j: nat | j < 2 && !(IsIdentityKey(kind, j) && j in ks) :: out.identities[j] == acc.identities[j])
  }

  predicate Above(ks: seq<U64>, prior: Option<U64>) { Rising(ks) && (prior.Some? ==> forall k <- ks :: k > prior.value) }

  lemma AboveHead(k: U64, ks: seq<U64>, prior: Option<U64>)
    ensures Above([k] + ks, prior) <==> (prior.Some? ==> k > prior.value) && Above(ks, Some(k))
    ensures Above([k] + ks, prior) ==> k !in ks
  {
    var all := [k] + ks;
    assert forall x <- all :: x == k || x in ks;
    if Above(all, prior) {
      assert all[0] == k && k in all;
      forall i, j | 0 <= i < j < |ks| ensures ks[i] < ks[j] { assert all[i + 1] < all[j + 1]; }
      forall x <- ks ensures x > k {
        var j :| 0 <= j < |ks| && ks[j] == x;
        assert all[0] < all[j + 1];
      }
    }
    if (prior.Some? ==> k > prior.value) && Above(ks, Some(k)) {
      RisesMore(k, ks);
      forall x <- all | prior.Some? ensures x > prior.value { assert x == k || x in ks; }
    }
  }

  lemma ControlEntryExact(s: seq<Byte>, kind: MessageType, acc: ControlSlots)
    requires acc.Shaped()
    ensures
      var k := ReadUint(s, 0);
      && (ControlEntry(s, kind, acc).Got? <==>
            k.Got? && (acc.prior.Some? ==> k.value > acc.prior.value) && ControlReads(kind, k.value, k.rest))
      && (ControlEntry(s, kind, acc).Got? ==>
            var out := ControlEntry(s, kind, acc).value;
            && out.prior == Some(k.value) && ControlElsewhere(kind, acc, [k.value], out)
            && ControlHas(kind, k.value, k.rest, out))
  {
    hide SkipValue, ReadUint, ReadExact;
  }

  lemma ControlReadHead(kind: MessageType, k: U64, v: seq<Byte>, ks: seq<U64>, vs: seq<seq<Byte>>)
    requires |ks| == |vs|
    ensures ControlAllRead(kind, [k] + ks, [v] + vs) <==> ControlReads(kind, k, v) && ControlAllRead(kind, ks, vs)
  {
    hide ControlReads;
    var (all, tails) := ([k] + ks, [v] + vs);
    if ControlAllRead(kind, all, tails) {
      forall i | 0 <= i < |ks| ensures ControlReads(kind, ks[i], vs[i]) {
        assert ControlReads(kind, all[i + 1], tails[i + 1]);
      }
      assert ControlReads(kind, all[0], tails[0]);
    }
  }

  lemma ControlHoldsHead(kind: MessageType, k: U64, v: seq<Byte>, ks: seq<U64>, vs: seq<seq<Byte>>,
                         acc: ControlSlots, first: ControlSlots, out: ControlSlots)
    requires |ks| == |vs| && acc.Shaped() && first.Shaped() && out.Shaped() && k !in ks
    requires ControlHas(kind, k, v, first) && ControlElsewhere(kind, acc, [k], first)
    requires ControlHolds(kind, ks, vs, out) && ControlElsewhere(kind, first, ks, out)
    ensures ControlHolds(kind, [k] + ks, [v] + vs, out) && ControlElsewhere(kind, acc, [k] + ks, out)
  {
    hide ReadUint, ReadExact;
    assert ControlHas(kind, k, v, out);
    hide ControlHas;
  }

  lemma NoControl(kind: MessageType, acc: ControlSlots)
    requires acc.Shaped()
    ensures Above([], acc.prior) && ControlAllRead(kind, [], []) && ControlHolds(kind, [], [], acc)
    ensures ControlElsewhere(kind, acc, [], acc)
  {
  }

  lemma {:induction false} ControlLoopExact(s: seq<Byte>, kind: MessageType, count: nat, acc: ControlSlots)
    requires acc.Shaped()
    ensures
      var (ks, vs, out) := (Keys(s, count), Tails(s, count), ControlEntries(s, kind, count, acc));
      && (out.Got? <==> |ks| == count && Above(ks, acc.prior) && ControlAllRead(kind, ks, vs))
      && (out.Got? ==> ControlHolds(kind, ks, vs, out.value) && ControlElsewhere(kind, acc, ks, out.value))
    decreases count
  {
    hide ControlEntry, SkipEntry, ReadUint, Above, ControlReads, ControlAllRead, ControlHas, ControlHolds;
    hide ControlElsewhere;
    ControlEntryExact(s, kind, acc);
    if count == 0 || ReadUint(s, 0).Fail? || SkipEntry(s).None? {
      NoEntries(s, count);
      NoControl(kind, acc);
      if ControlEntry(s, kind, acc).Got? { ControlEntrySkips(s, kind, acc); }
    } else {
      var (k, v) := (ReadUint(s, 0).value, ReadUint(s, 0).rest);
      var (ks, vs) := (Keys(SkipEntry(s).value, count - 1), Tails(SkipEntry(s).value, count - 1));
      EntriesStep(s, count - 1);
      AboveHead(k, ks, acc.prior);
      ControlReadHead(kind, k, v, ks, vs);
      if ControlEntry(s, kind, acc).Got? {
        ControlEntrySkips(s, kind, acc);
        var first := ControlEntry(s, kind, acc);
        ControlLoopExact(first.rest, kind, count - 1, first.value);
        hide Keys, Tails;
        if ControlEntries(s, kind, count, acc).Got? {
          ControlHoldsHead(kind, k, v, ks, vs, acc, first.value, ControlEntries(s, kind, count, acc).value);
        }
      }
    }
  }

  /** The unsigned fields of a control body, by key. */
  function ControlFields(b: ControlBody): (f: Slots)
    ensures |f| == 6
  {
    match b
    case Hello(h) => HelloKeys(h)
    case HelloReply(h) => HelloKeys(h)
    case Pair(p) => [None, None, Some(p.matchingCode), None, None, None]
    case Command(c) => [Some(c.commandIdentity), Some(OperationCode(c.operation)), None, None, None, None]
    case CommandReply(r) =>
      [Some(r.commandIdentity), Some(OperationCode(r.operation)), Some(ResultCode(r.result)), None, None, None]
    case ErrorReport(_) => Empty(6)
  }

  function HelloKeys(h: HelloBody): (f: Slots)
    ensures |f| == 6
  {
    [Some(h.supportedMajor), Some(h.supportedMinor), Some(h.capabilities), Some(h.configurationRevision), h.utcMs,
     Widen(h.utcUncertaintyMs)]
  }

  /** Its identities, by key. */
  function ControlIdentities(b: ControlBody): (ids: seq<Option<Identity>>)
    ensures |ids| == 2
  {
    if b.Pair? then [Some(b.pair.pairingIdentity), Some(b.pair.intendedPeerIdentity)] else [None, None]
  }

  /** What follows key `k` in the map of the control body `b`. */
  predicate ControlMeans(kind: MessageType, k: nat, v: seq<Byte>, b: ControlBody) {
    if k > KnownMax(kind) then SkipValue(v, 0).Some?
    else if IsIdentityKey(kind, k) then Gives(ReadExact(v, 16), ControlIdentities(b)[k])
    else Gives(ReadUint(v, 0), ControlFields(b)[k])
  }

  predicate ControlHasKey(kind: MessageType, b: ControlBody, k: nat)
    requires k < 6
  {
    if IsIdentityKey(kind, k) then ControlIdentities(b)[k].Some? else ControlFields(b)[k].Some?
  }

  /** The bytes are the control body `b`, of this type: an error's byte string, or a map of at most sixteen entries
      with rising keys, and no more, that gives the fields of `b`. */
  predicate IsControlBody(kind: MessageType, c: seq<Byte>, b: ControlBody) {
    && Delivery.KindMatches(kind, b)
    && if b.ErrorReport? then ReadUint(c, 2) == Got(|b.bytes|, b.bytes)
       else
         var count := ReadUint(c, 5);
         && (b.Pair? ==> SixDigits(b.pair.matchingCode))
         && count.Got? && count.value <= MAX_ITEMS && SkipEntries(count.rest, count.value) == Some([])
         && var (ks, vs) := (Keys(count.rest, count.value), Tails(count.rest, count.value));
            && |ks| == count.value && Rising(ks) && (forall i | 0 <= i < |ks| :: ControlMeans(kind, ks[i], vs[i], b))
            && forall k: nat | k <= KnownMax(kind) :: k in ks <==> ControlHasKey(kind, b, k)
  }

  /** Only the slots that messages of this type use are filled. */
  predicate ControlFilled(kind: MessageType, acc: ControlSlots)
    requires acc.Shaped()
  {
    && (forall j: nat | j < 6 && (j > KnownMax(kind) || IsIdentityKey(kind, j)) :: acc.fields[j].None?)
    && (forall j: nat | j < 2 && !IsIdentityKey(kind, j) :: acc.identities[j].None?)
  }

  lemma ControlFromExact(kind: MessageType, acc: ControlSlots, b: ControlBody)
    requires acc.Shaped() && ControlFilled(kind, acc) && !b.ErrorReport?
    ensures ControlFrom(kind, acc) == Some(b)
            <==> && Delivery.KindMatches(kind, b) && (b.Pair? ==> SixDigits(b.pair.matchingCode))
                 && acc.fields == ControlFields(b) && acc.identities == ControlIdentities(b)
  {
  }

  lemma ControlMeansRead(kind: MessageType, ks: seq<U64>, vs: seq<seq<Byte>>, b: ControlBody)
    requires |ks| == |vs| && forall i | 0 <= i < |ks| :: ControlMeans(kind, ks[i], vs[i], b)
    ensures ControlAllRead(kind, ks, vs)
  {
    hide ReadUint, ReadExact, SkipValue, ControlFields, ControlIdentities;
    forall i | 0 <= i < |ks| ensures ControlReads(kind, ks[i], vs[i]) { assert ControlMeans(kind, ks[i], vs[i], b); }
  }

  /** Each key's slot holds what the map gives the key; the other slots are empty. */
  lemma ControlSlotOf(kind: MessageType, ks: seq<U64>, vs: seq<seq<Byte>>, out: ControlSlots, k: nat)
    requires |ks| == |vs| && out.Shaped() && k <= KnownMax(kind)
    requires ControlHolds(kind, ks, vs, out) && ControlElsewhere(kind, NO_CONTROL, ks, out)
    ensures k in ks <==> if IsIdentityKey(kind, k) then out.identities[k].Some? else out.fields[k].Some?
  {
    hide ReadUint, ReadExact;
    if k in ks {
      var i :| 0 <= i < |ks| && ks[i] == k;
      assert ControlHas(kind, ks[i], vs[i], out);
    }
  }

  lemma ControlSlotsFilled(kind: MessageType, ks: seq<U64>, vs: seq<seq<Byte>>, out: ControlSlots)
    requires |ks| == |vs| && out.Shaped() && ControlElsewhere(kind, NO_CONTROL, ks, out)
    ensures ControlFilled(kind, out)
  {
  }

  /** Two slots with the same content under the same key. */
  predicate ControlAgrees(kind: MessageType, out: ControlSlots, b: ControlBody, k: nat)
    requires out.Shaped() && k < 6
  {
    if IsIdentityKey(kind, k) then out.identities[k] == ControlIdentities(b)[k] else out.fields[k] == ControlFields(b)[k]
  }

  lemma ControlAgreesOf(kind: MessageType, ks: seq<U64>, vs: seq<seq<Byte>>, out: ControlSlots, b: ControlBody, k: nat)
    requires |ks| == |vs| && out.Shaped() && k <= KnownMax(kind)
    requires ControlHolds(kind, ks, vs, out) && ControlElsewhere(kind, NO_CONTROL, ks, out)
    requires forall i | 0 <= i < |ks| :: ControlMeans(kind, ks[i], vs[i], b)
    requires k in ks <==> ControlHasKey(kind, b, k)
    ensures ControlAgrees(kind, out, b, k)
  {
    hide ReadUint, ReadExact, SkipValue, ControlFields, ControlIdentities;
    ControlSlotOf(kind, ks, vs, out, k);
    hide ControlElsewhere;
    if k in ks {
      var i :| 0 <= i < |ks| && ks[i] == k;
      assert ControlHas(kind, ks[i], vs[i], out) && ControlMeans(kind, ks[i], vs[i], b);
    }
  }

  lemma ControlAgreeing(kind: MessageType, out: ControlSlots, b: ControlBody)
    requires out.Shaped() && ControlFilled(kind, out) && Delivery.KindMatches(kind, b) && !b.ErrorReport?
    requires forall k: nat | k <= KnownMax(kind) :: ControlAgrees(kind, out, b, k)
    ensures out.fields == ControlFields(b) && out.identities == ControlIdentities(b)
  {
    var f := ControlFields(b);
    forall j: nat | j < 6 ensures out.fields[j] == f[j] {
      if j <= KnownMax(kind) && !IsIdentityKey(kind, j) { assert ControlAgrees(kind, out, b, j); }
    }
    if b.Pair? { assert ControlAgrees(kind, out, b, 0) && ControlAgrees(kind, out, b, 1); }
    assert out.identities == ControlIdentities(b);
  }

  lemma ControlSlotsSay(kind: MessageType, ks: seq<U64>, vs: seq<seq<Byte>>, out: ControlSlots, b: ControlBody)
    requires |ks| == |vs| && out.Shaped()
    requires ControlHolds(kind, ks, vs, out) && ControlElsewhere(kind, NO_CONTROL, ks, out)
    requires ControlAllRead(kind, ks, vs) && out.fields == ControlFields(b) && out.identities == ControlIdentities(b)
    ensures forall i | 0 <= i < |ks| :: ControlMeans(kind, ks[i], vs[i], b)
    ensures forall k: nat | k <= KnownMax(kind) :: k in ks <==> ControlHasKey(kind, b, k)
  {
    hide ReadUint, ReadExact, SkipValue, ControlFields, ControlIdentities;
    forall i | 0 <= i < |ks| ensures ControlMeans(kind, ks[i], vs[i], b) {
      assert ControlHas(kind, ks[i], vs[i], out) && ControlReads(kind, ks[i], vs[i]);
    }
    hide ControlHolds, ControlElsewhere, ControlAllRead, ControlMeans;
    forall k: nat | k <= KnownMax(kind) ensures k in ks <==> ControlHasKey(kind, b, k) {
      ControlSlotOf(kind, ks, vs, out, k);
    }
  }

  lemma ControlParts(kind: MessageType, c: seq<Byte>)
    requires DecodeControlBody(kind, c).Some? && kind != ErrorType
    ensures
      var count := ReadUint(c, 5);
      && count.Got? && count.value <= MAX_ITEMS
      && var out := ControlEntries(count.rest, kind, count.value, NO_CONTROL);
         out.Got? && out.rest == [] && DecodeControlBody(kind, c) == ControlFrom(kind, out.value)
  {
    hide ReadUint, ControlEntries, ControlFrom;
  }

  lemma ControlDecodedSays(kind: MessageType, c: seq<Byte>, b: ControlBody)
    requires DecodeControlBody(kind, c) == Some(b) && kind != ErrorType
    ensures IsControlBody(kind, c, b)
  {
    ControlParts(kind, c);
    hide DecodeControlBody, KnownMax, IsIdentityKey;
    var count := ReadUint(c, 5);
    var (ks, vs) := (Keys(count.rest, count.value), Tails(count.rest, count.value));
    var out := ControlEntries(count.rest, kind, count.value, NO_CONTROL);
    hide ControlEntries, ReadUint, ControlFrom, ControlMeans, SkipEntries, Keys, Tails, ControlHasKey, ControlFields;
    hide ControlIdentities, ControlAllRead, ControlHolds, ControlElsewhere, ControlFilled, Delivery.KindMatches, Rising;
    hide SixDigits;
    ControlLoopExact(count.rest, kind, count.value, NO_CONTROL);
    ControlEntriesSkip(count.rest, kind, count.value, NO_CONTROL);
    ControlSlotsFilled(kind, ks, vs, out.value);
    NoErrorFrom(kind, out.value);
    ControlFromExact(kind, out.value, b);
    ControlSlotsSay(kind, ks, vs, out.value, b);
  }

  lemma NoErrorFrom(kind: MessageType, acc: ControlSlots)
    requires acc.Shaped()
    ensures ControlFrom(kind, acc).Some? ==> !ControlFrom(kind, acc).value.ErrorReport?
  {
  }

  lemma ControlSaidDecodes(kind: MessageType, c: seq<Byte>, b: ControlBody)
    requires IsControlBody(kind, c, b) && !b.ErrorReport?
    ensures DecodeControlBody(kind, c) == Some(b)
  {
    var count := ReadUint(c, 5);
    var (ks, vs) := (Keys(count.rest, count.value), Tails(count.rest, count.value));
    var out := ControlEntries(count.rest, kind, count.value, NO_CONTROL);
    assert kind != ErrorType && kind != SnapshotType;
    hide ControlEntries, ReadUint, ControlFrom, ControlMeans, SkipEntries, Keys, Tails, ControlHasKey, ControlFields;
    hide ControlIdentities, ControlAllRead, ControlHolds, ControlElsewhere, ControlFilled, Delivery.KindMatches, Rising;
    hide ControlAgrees;
    ControlMeansRead(kind, ks, vs, b);
    ControlLoopExact(count.rest, kind, count.value, NO_CONTROL);
    ControlEntriesSkip(count.rest, kind, count.value, NO_CONTROL);
    ControlSlotsFilled(kind, ks, vs, out.value);
    forall k: nat | k <= KnownMax(kind) ensures ControlAgrees(kind, out.value, b, k) {
      ControlAgreesOf(kind, ks, vs, out.value, b, k);
    }
    ControlAgreeing(kind, out.value, b);
    ControlFromExact(kind, out.value, b);
  }

  /** A control body decodes to `b` exactly when it gives `b`. */
  lemma ControlBodyExact(kind: MessageType, c: seq<Byte>, b: ControlBody)
    ensures DecodeControlBody(kind, c) == Some(b) <==> IsControlBody(kind, c, b)
  {
    hide ControlEntries, ReadUint, ControlFrom, SkipEntries, Keys, Tails, ControlMeans, ControlHasKey, Rising;
    if kind == ErrorType {
    } else {
      if DecodeControlBody(kind, c) == Some(b) { ControlDecodedSays(kind, c, b); }
      if IsControlBody(kind, c, b) && !b.ErrorReport? { ControlSaidDecodes(kind, c, b); }
    }
  }
}
