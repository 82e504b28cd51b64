/** Exactly which envelopes and frames decode, and to what. */
module FrameExact {
  import opened Basics
  import opened Cbor
  import opened Messages
  import opened Decode
  import opened FrameRoundTrip
  import opened DecodeSound
  import opened DecodeExact
  import opened BodyExact
  import opened ControlExact
  import Delivery

  /** What follows each of an envelope's keys. */
  function EnvelopeTails(s: seq<Byte>, n: nat): (vs: seq<seq<Byte>>)
    ensures |vs| == |EnvelopeKeys(s, n)|
    decreases n
  {
    if n == 0 || EnvelopeEntryEnd(s).None? then []
    else [ReadUint(s, 0).rest] + EnvelopeTails(EnvelopeEntryEnd(s).value, n - 1)
  }

  /** The body that starts the input, given where it ends. */
  function BodyOf(s: seq<Byte>): (b: seq<Byte>)
    requires SkipBody(s).Some?
  {
    s[..|s| - |SkipBody(s).value|]
  }

  predicate BodyFits(kind: MessageType, body: seq<Byte>) { kind == SnapshotType || |body| <= MAX_CONTROL_BODY }

  /** What follows key `k` in the map of this envelope around this body. */
  predicate EnvelopeMeans(k: nat, v: seq<Byte>, e: Envelope, body: seq<Byte>) {
    match k
    case 0 => Gives(ReadUint(v, 0), Some(e.major))
    case 1 => Gives(ReadUint(v, 0), Some(e.minor))
    case 2 => Gives(ReadUint(v, 0), Some(TypeCode(e.kind)))
    case 3 => Gives(ReadExact(v, 16), Some(e.session))
    case 4 => Gives(ReadUint(v, 0), Some(e.sequence))
    case 5 => SkipBody(v).Some? && body == BodyOf(v) && BodyFits(e.kind, body)
    case 6 => Gives(ReadUint(v, 0), e.utcMs)
    case 7 => Gives(ReadUint(v, 0), Widen(e.utcUncertaintyMs))
    case 8 => OffsetInRange(e) && Gives(ReadUint(v, 0), BiasedOffset(e))
    case _ => SkipValue(v, 0).Some?
  }

  predicate EnvelopeHasKey(e: Envelope, k: nat) {
    match k
    case 6 => e.utcMs.Some?
    case 7 => e.utcUncertaintyMs.Some?
    case 8 => e.localOffsetMinutes.Some?
    case _ => k < 6
  }

  /** The bytes are a map of at most sixteen entries with rising keys, and no more, that gives the envelope and
      the body, under protocol major 1. */
  predicate IsContent(c: seq<Byte>, e: Envelope, body: seq<Byte>) {
    var count := ReadUint(c, 5);
    && e.major == 1 && OffsetInRange(e)
    && count.Got? && count.value <= MAX_ITEMS && EnvelopeEnd(count.rest, count.value) == Some([])
    && var (ks, vs) := (EnvelopeKeys(count.rest, count.value), EnvelopeTails(count.rest, count.value));
       && |ks| == count.value && Rising(ks) && (forall i | 0 <= i < |ks| :: EnvelopeMeans(ks[i], vs[i], e, body))
       && forall k: nat | k < 9 :: k in ks <==> EnvelopeHasKey(e, k)
  }

  /** The slot of key `k` holds what follows it. */
  predicate EnvelopeHolds(k: nat, v: seq<Byte>, out: EnvelopeSlots) {
    match k
    case 0 => Gives(ReadUint(v, 0), out.major) && out.major == Some(1)
    case 1 => Gives(ReadUint(v, 0), out.minor)
    case 2 => Gives(ReadUint(v, 0), out.kind)
    case 3 => Gives(ReadExact(v, 16), out.session)
    case 4 => Gives(ReadUint(v, 0), out.sequence)
    case 5 =>
      && SkipBody(v).Some? && out.body == Some(BodyOf(v)) && out.kind.Some? && TypeFrom(out.kind.value).Some?
      && BodyFits(TypeFrom(out.kind.value).value, BodyOf(v))
    case 6 => Gives(ReadUint(v, 0), out.utcMs)
    case 7 => Gives(ReadUint(v, 0), out.uncertainty)
    case 8 => ReadUint(v, 0).Got? && ReadUint(v, 0).value <= 2880 && out.offset == Some(ReadUint(v, 0).value - 1440)
    case _ => SkipValue(v, 0).Some?
  }

  predicate EnvelopeAllHold(ks: seq<U64>, vs: seq<seq<Byte>>, out: EnvelopeSlots)
    requires |ks| == |vs|
  {
    forall i | 0 <= i < |ks| :: EnvelopeHolds(ks[i], vs[i], out)
  }

  /** The slots of all keys up to `k` are as they were. */
  predicate EnvelopeKept(acc: EnvelopeSlots, k: U64, out: EnvelopeSlots) {
    && (k >= 0 ==> out.major == acc.major) && (k >= 1 ==> out.minor == acc.minor)
    && (k >= 2 ==> out.kind == acc.kind) && (k >= 3 ==> out.session == acc.session)
    && (k >= 4 ==> out.sequence == acc.sequence) && (k >= 5 ==> out.body == acc.body)
    && (k >= 6 ==> out.utcMs == acc.utcMs) && (k >= 7 ==> out.uncertainty == acc.uncertainty)
    && (k >= 8 ==> out.offset == acc.offset)
  }

  lemma EnvelopeEntryExact(s: seq<Byte>, acc: EnvelopeSlots)
    requires EnvelopeEntry(s, acc).Next?
    ensures
      var (k, out) := (ReadUint(s, 0), EnvelopeEntry(s, acc).acc);
      && k.Got? && EnvelopeHolds(k.value, k.rest, out)
      && (k.value > 0 ==> EnvelopeKept(acc, k.value - 1, out))
  {
    hide SkipValue, ReadUint, ReadExact, SkipBody;
  }

  lemma EnvelopeHoldsStill(k: U64, v: seq<Byte>, first: EnvelopeSlots, out: EnvelopeSlots)
    requires EnvelopeHolds(k, v, first) && EnvelopeKept(first, k, out)
    ensures EnvelopeHolds(k, v, out)
  {
    hide SkipValue, ReadUint, ReadExact, SkipBody;
  }

  lemma EnvelopeStepTails(s: seq<Byte>, n: nat)
    requires EnvelopeEntryEnd(s).Some?
    ensures EnvelopeKeys(s, n + 1) == [ReadUint(s, 0).value] + EnvelopeKeys(EnvelopeEntryEnd(s).value, n)
    ensures EnvelopeTails(s, n + 1) == [ReadUint(s, 0).rest] + EnvelopeTails(EnvelopeEntryEnd(s).value, n)
  {
    hide EnvelopeEntryEnd;
  }

  lemma EnvelopeHoldsHead(k: U64, v: seq<Byte>, ks: seq<U64>, vs: seq<seq<Byte>>, out: EnvelopeSlots)
    requires |ks| == |vs| && EnvelopeHolds(k, v, out) && EnvelopeAllHold(ks, vs, out)
    ensures EnvelopeAllHold([k] + ks, [v] + vs, out)
  {
    hide EnvelopeHolds;
  }

  /** After the loop each slot holds what follows its key, and the keys before the first are as they were. */
  lemma {:induction false} EnvelopeLoopHolds(s: seq<Byte>, count: nat, acc: EnvelopeSlots)
    requires EnvelopeEntries(s, count, acc).Next?
    ensures
      var (ks, vs, out) := (EnvelopeKeys(s, count), EnvelopeTails(s, count), EnvelopeEntries(s, count, acc).acc);
      && EnvelopeAllHold(ks, vs, out)
      && (forall k: U64 | acc.previous.Some? && k <= acc.previous.value :: EnvelopeKept(acc, k, out))
    decreases count
  {
    hide EnvelopeEntry, EnvelopeEntryEnd, ReadUint, EnvelopeHolds;
    if count > 0 {
      EnvelopeEntryKey(s, acc);
      EnvelopeEntryExact(s, acc);
      var (first, k, v) := (EnvelopeEntry(s, acc), ReadUint(s, 0).value, ReadUint(s, 0).rest);
      EnvelopeLoopHolds(first.rest, count - 1, first.acc);
      EnvelopeStepTails(s, count - 1);
      var out := EnvelopeEntries(s, count, acc).acc;
      var (ks, vs) := (EnvelopeKeys(first.rest, count - 1), EnvelopeTails(first.rest, count - 1));
      assert EnvelopeKept(first.acc, k, out);
      EnvelopeHoldsStill(k, v, first.acc, out);
      EnvelopeHoldsHead(k, v, ks, vs, out);
    }
  }

  /** An entry of an envelope's map that gives `e` and `body` is taken. */
  lemma EnvelopeEntrySaid(s: seq<Byte>, acc: EnvelopeSlots, e: Envelope, body: seq<Byte>)
    requires ReadUint(s, 0).Got? && e.major == 1 && EnvelopeMeans(ReadUint(s, 0).value, ReadUint(s, 0).rest, e, body)
    requires acc.previous.Some? ==> ReadUint(s, 0).value > acc.previous.value
    requires ReadUint(s, 0).value == 5 ==> acc.kind == Some(TypeCode(e.kind))
    ensures EnvelopeEntry(s, acc).Next?
    ensures EnvelopeEntry(s, acc).acc.kind == if ReadUint(s, 0).value == 2 then Some(TypeCode(e.kind)) else acc.kind
  {
    hide SkipValue, ReadUint, ReadExact, SkipBody;
  }

  lemma {:induction false} EnvelopeSaid(s: seq<Byte>, count: nat, acc: EnvelopeSlots, e: Envelope, body: seq<Byte>)
    requires
      var (ks, vs) := (EnvelopeKeys(s, count), EnvelopeTails(s, count));
      && |ks| == count && Above(ks, acc.previous) && e.major == 1
      && (forall i | 0 <= i < |ks| :: EnvelopeMeans(ks[i], vs[i], e, body))
      && (2 in ks || acc.kind == Some(TypeCode(e.kind)))
    ensures EnvelopeEntries(s, count, acc).Next?
    decreases count
  {
    hide EnvelopeEntry, EnvelopeEntryEnd, ReadUint, EnvelopeMeans, Above;
    if count > 0 {
      var (all, tails) := (EnvelopeKeys(s, count), EnvelopeTails(s, count));
      assert EnvelopeEntryEnd(s).Some?;
      EndHasKey(s);
      EnvelopeStepTails(s, count - 1);
      var (k, v, rest) := (ReadUint(s, 0).value, ReadUint(s, 0).rest, EnvelopeEntryEnd(s).value);
      var (ks, vs) := (EnvelopeKeys(rest, count - 1), EnvelopeTails(rest, count - 1));
      AboveHead(k, ks, acc.previous);
      assert all[0] == k && tails[0] == v && EnvelopeMeans(all[0], tails[0], e, body);
      forall i | 0 <= i < |ks| ensures EnvelopeMeans(ks[i], vs[i], e, body) {
        assert all[i + 1] == ks[i] && tails[i + 1] == vs[i];
        assert EnvelopeMeans(all[i + 1], tails[i + 1], e, body);
      }
      if k == 5 { AboveFive(k, ks); }
      EnvelopeEntrySaid(s, acc, e, body);
      EnvelopeEntryKey(s, acc);
      var first := EnvelopeEntry(s, acc);
      EnvelopeSaid(rest, count - 1, first.acc, e, body);
    }
  }

  lemma EndHasKey(s: seq<Byte>)
    requires EnvelopeEntryEnd(s).Some?
    ensures ReadUint(s, 0).Got?
  {
  }

  lemma AboveFive(k: U64, ks: seq<U64>)
    requires Above(ks, Some(k)) && k >= 2
    ensures 2 !in ks
  {
  }

  // ---- the slots and the envelope ----

  /** The slot of key `k` is the field of this envelope, or the body. */
  predicate EnvelopeAgrees(out: EnvelopeSlots, e: Envelope, body: seq<Byte>, k: nat) {
    match k
    case 0 => out.major == Some(1)
    case 1 => out.minor == Some(e.minor)
    case 2 => out.kind == Some(TypeCode(e.kind))
    case 3 => out.session == Some(e.session)
    case 4 => out.sequence == Some(e.sequence)
    case 5 => out.body == Some(body)
    case 6 => out.utcMs == e.utcMs
    case 7 => out.uncertainty == e.utcUncertaintyMs
    case 8 => out.offset == e.localOffsetMinutes
    case _ => true
  }

  lemma EnvelopeFromExact(out: EnvelopeSlots, e: Envelope, body: seq<Byte>)
    requires out.major.Some? ==> out.major == Some(1)
    ensures EnvelopeFrom(out) == Some((e, body))
            <==> e.major == 1 && forall k: nat | k < 9 :: EnvelopeAgrees(out, e, body, k)
  {
    if EnvelopeFrom(out) == Some((e, body)) { assert forall k: nat | k < 9 :: EnvelopeAgrees(out, e, body, k); }
    if forall k: nat | k < 9 :: EnvelopeAgrees(out, e, body, k) {
      assert EnvelopeAgrees(out, e, body, 0) && EnvelopeAgrees(out, e, body, 1) && EnvelopeAgrees(out, e, body, 2);
      assert EnvelopeAgrees(out, e, body, 3) && EnvelopeAgrees(out, e, body, 4) && EnvelopeAgrees(out, e, body, 5);
      assert EnvelopeAgrees(out, e, body, 6) && EnvelopeAgrees(out, e, body, 7) && EnvelopeAgrees(out, e, body, 8);
    }
  }

  lemma EnvelopeMeansSlot(k: nat, v: seq<Byte>, out: EnvelopeSlots, e: Envelope, body: seq<Byte>)
    requires EnvelopeHolds(k, v, out) && e.major == 1 && OffsetInRange(e)
    ensures EnvelopeMeans(k, v, e, body) ==> EnvelopeAgrees(out, e, body, k)
    ensures EnvelopeAgrees(out, e, body, k) && out.kind == Some(TypeCode(e.kind)) ==> EnvelopeMeans(k, v, e, body)
  {
    hide ReadUint, ReadExact, SkipValue, SkipBody;
  }

  lemma ContentParts(c: seq<Byte>)
    requires ParseContent(c).Ok?
    ensures
      var count := ReadUint(c, 5);
      && count.Got? && count.value <= MAX_ITEMS
      && var last := EnvelopeEntries(count.rest, count.value, NO_ENVELOPE);
         last.Next? && EnvelopeFrom(last.acc) == Some(ParseContent(c).value)
  {
    hide ReadUint, EnvelopeEntries, EnvelopeFrom;
  }

  lemma SlotsSay(ks: seq<U64>, vs: seq<seq<Byte>>, out: EnvelopeSlots, e: Envelope, body: seq<Byte>)
    requires |ks| == |vs| && EnvelopeAllHold(ks, vs, out) && e.major == 1 && OffsetInRange(e)
    requires forall k: nat | k < 9 :: EnvelopeAgrees(out, e, body, k)
    ensures forall i | 0 <= i < |ks| :: EnvelopeMeans(ks[i], vs[i], e, body)
  {
    assert EnvelopeAgrees(out, e, body, 2);
    KindAgrees(out, e, body);
    hide EnvelopeMeans, EnvelopeHolds, EnvelopeAgrees, OffsetInRange;
    forall i | 0 <= i < |ks| ensures EnvelopeMeans(ks[i], vs[i], e, body) {
      assert EnvelopeHolds(ks[i], vs[i], out);
      AgreesBeyond(out, e, body, ks[i]);
      EnvelopeMeansSlot(ks[i], vs[i], out, e, body);
    }
  }

  lemma ContentSays(c: seq<Byte>, e: Envelope, body: seq<Byte>)
    requires ParseContent(c) == Ok((e, body))
    ensures IsContent(c, e, body)
  {
    var count := ReadUint(c, 5);
    hide ParseContent, ReadUint, EnvelopeEntries, EnvelopeKeys, EnvelopeTails, EnvelopeEnd, Rising, EnvelopeFrom;
    hide EnvelopeMeans, EnvelopeHolds, EnvelopeAllHold, EnvelopeKept, OffsetInRange, EnvelopeAgrees;
    EnvelopeIsMap(c);
    ParsedEnvelopeFits(c);
    ContentParts(c);
    var out := EnvelopeEntries(count.rest, count.value, NO_ENVELOPE).acc;
    EnvelopeLoopHolds(count.rest, count.value, NO_ENVELOPE);
    MajorIsOne(count.rest, count.value, NO_ENVELOPE);
    EnvelopeFromExact(out, e, body);
    SlotsSay(EnvelopeKeys(count.rest, count.value), EnvelopeTails(count.rest, count.value), out, e, body);
    KeysAreFields(EnvelopeKeys(count.rest, count.value), e);
  }

  lemma KeysAreFields(ks: seq<U64>, e: Envelope)
    requires (forall k: nat | k < 6 :: k in ks) && (6 in ks <==> e.utcMs.Some?)
    requires (7 in ks <==> e.utcUncertaintyMs.Some?) && (8 in ks <==> e.localOffsetMinutes.Some?)
    ensures forall k: nat | k < 9 :: k in ks <==> EnvelopeHasKey(e, k)
  {
  }

  lemma KindAgrees(out: EnvelopeSlots, e: Envelope, body: seq<Byte>)
    requires EnvelopeAgrees(out, e, body, 2)
    ensures out.kind == Some(TypeCode(e.kind))
  {
  }

  lemma AgreesBeyond(out: EnvelopeSlots, e: Envelope, body: seq<Byte>, k: nat)
    ensures k >= 9 ==> EnvelopeAgrees(out, e, body, k)
  {
  }

  lemma {:induction false} MajorIsOne(s: seq<Byte>, count: nat, acc: EnvelopeSlots)
    requires EnvelopeEntries(s, count, acc).Next? && (acc.major.Some? ==> acc.major == Some(1))
    ensures
      var out := EnvelopeEntries(s, count, acc).acc;
      out.major.Some? ==> out.major == Some(1)
    decreases count
  {
    hide ReadUint, ReadExact, SkipValue, SkipBody;
    if count > 0 { MajorIsOne(EnvelopeEntry(s, acc).rest, count - 1, EnvelopeEntry(s, acc).acc); }
  }

  lemma AbsentAgrees(out: EnvelopeSlots, e: Envelope, body: seq<Byte>, k: nat)
    requires k < 9 && !EnvelopeTaken(out, k) && !EnvelopeHasKey(e, k)
    ensures EnvelopeAgrees(out, e, body, k)
  {
  }

  lemma SlotsAgree(ks: seq<U64>, vs: seq<seq<Byte>>, out: EnvelopeSlots, e: Envelope, body: seq<Byte>, k: nat)
    requires |ks| == |vs| && EnvelopeAllHold(ks, vs, out) && e.major == 1 && OffsetInRange(e) && k < 9
    requires forall i | 0 <= i < |ks| :: EnvelopeMeans(ks[i], vs[i], e, body)
    requires (EnvelopeTaken(out, k) <==> k in ks) && (k in ks <==> EnvelopeHasKey(e, k))
    ensures EnvelopeAgrees(out, e, body, k)
  {
    hide EnvelopeHolds, EnvelopeMeans, EnvelopeTaken, EnvelopeHasKey, EnvelopeAgrees, OffsetInRange;
    if k in ks {
      var i :| 0 <= i < |ks| && ks[i] == k;
      assert EnvelopeHolds(ks[i], vs[i], out) && EnvelopeMeans(ks[i], vs[i], e, body);
      EnvelopeMeansSlot(k, vs[i], out, e, body);
    } else {
      AbsentAgrees(out, e, body, k);
    }
  }

  lemma RisingIsAbove(ks: seq<U64>)
    ensures Above(ks, None) <==> Rising(ks)
  {
  }

  lemma TwoIsThere(e: Envelope, ks: seq<U64>)
    requires forall k: nat | k < 9 :: k in ks <==> EnvelopeHasKey(e, k)
    ensures 2 in ks
  {
    assert EnvelopeHasKey(e, 2);
  }

  lemma ContentSaid(c: seq<Byte>, e: Envelope, body: seq<Byte>)
    requires IsContent(c, e, body)
    ensures ParseContent(c) == Ok((e, body))
  {
    var count := ReadUint(c, 5);
    var (ks, vs) := (EnvelopeKeys(count.rest, count.value), EnvelopeTails(count.rest, count.value));
    var last := EnvelopeEntries(count.rest, count.value, NO_ENVELOPE);
    hide ReadUint, EnvelopeEntries, EnvelopeKeys, EnvelopeTails, EnvelopeEnd, Rising, Above, EnvelopeFrom, EnvelopeMeans;
    hide EnvelopeHolds, EnvelopeKept, OffsetInRange, EnvelopeAgrees, EnvelopeHasKey, EnvelopeTaken, EnvelopeAllHold;
    RisingIsAbove(ks);
    TwoIsThere(e, ks);
    EnvelopeSaid(count.rest, count.value, NO_ENVELOPE, e, body);
    EnvelopeKeysRise(count.rest, count.value, NO_ENVELOPE);
    NothingInEnvelope();
    EnvelopeLoopHolds(count.rest, count.value, NO_ENVELOPE);
    MajorIsOne(count.rest, count.value, NO_ENVELOPE);
    forall k: nat | k < 9 ensures EnvelopeAgrees(last.acc, e, body, k) { SlotsAgree(ks, vs, last.acc, e, body, k); }
    EnvelopeFromExact(last.acc, e, body);
  }

  /** A frame's content parses to an envelope and a body exactly when it gives them. */
  lemma ContentExact(c: seq<Byte>, e: Envelope, body: seq<Byte>)
    ensures ParseContent(c) == Ok((e, body)) <==> IsContent(c, e, body)
  {
    hide ParseContent, IsContent;
    if ParseContent(c) == Ok((e, body)) { ContentSays(c, e, body); }
    if IsContent(c, e, body) { ContentSaid(c, e, body); }
  }

  // ---- which error ----

  /** The entry at hand declares another protocol major. */
  predicate DeclaresForeign(s: seq<Byte>) {
    var key := ReadUint(s, 0);
    && key.Got? && key.value == 0
    && var major := ReadUint(key.rest, 0);
       major.Got? && major.value <= 0xFF && major.value != 1
  }

  lemma ForeignEntry(s: seq<Byte>, acc: EnvelopeSlots)
    ensures EnvelopeEntry(s, acc) == Stop(UnsupportedMajor) <==> acc.previous.None? && DeclaresForeign(s)
    ensures EnvelopeEntry(s, acc).Next? ==> EnvelopeEntry(s, acc).acc.previous.Some?
  {
    hide ReadUint, ReadExact, SkipValue, SkipBody;
  }

  lemma {:induction false} ForeignComesFirst(s: seq<Byte>, count: nat, acc: EnvelopeSlots)
    ensures EnvelopeEntries(s, count, acc) == Stop(UnsupportedMajor)
            <==> count > 0 && acc.previous.None? && DeclaresForeign(s)
    decreases count
  {
    hide EnvelopeEntry, DeclaresForeign;
    if count > 0 {
      ForeignEntry(s, acc);
      if EnvelopeEntry(s, acc).Next? { ForeignComesFirst(EnvelopeEntry(s, acc).rest, count - 1, EnvelopeEntry(s, acc).acc); }
    }
  }

  /** A content is refused for its major exactly when it is a map whose first entry declares another one, whatever
      follows. */
  lemma UnsupportedExactly(c: seq<Byte>)
    ensures ParseContent(c) == Err(UnsupportedMajor)
            <==> && ReadUint(c, 5).Got? && 1 <= ReadUint(c, 5).value <= MAX_ITEMS
                 && DeclaresForeign(ReadUint(c, 5).rest)
  {
    var count := ReadUint(c, 5);
    hide ReadUint, EnvelopeEntries, EnvelopeFrom, DeclaresForeign;
    if count.Got? { ForeignComesFirst(count.rest, count.value, NO_ENVELOPE); }
  }

  /** The entry at hand is a body of more than 512 bytes under a known type other than a snapshot's. */
  predicate BodyTooLong(s: seq<Byte>, acc: EnvelopeSlots) {
    var key := ReadUint(s, 0);
    && key.Got? && key.value == 5 && (acc.previous.Some? ==> acc.previous.value < 5)
    && acc.kind.Some? && TypeFrom(acc.kind.value).Some? && acc.kind.value != TypeCode(SnapshotType)
    && SkipBody(key.rest).Some? && |BodyOf(key.rest)| > MAX_CONTROL_BODY
  }

  lemma LongEntry(s: seq<Byte>, acc: EnvelopeSlots)
    ensures EnvelopeEntry(s, acc) == Stop(TooLarge) <==> BodyTooLong(s, acc)
  {
    hide ReadUint, ReadExact, SkipValue, SkipBody;
  }

  lemma {:induction false} LongBodyStops(s: seq<Byte>, count: nat, acc: EnvelopeSlots)
    ensures EnvelopeEntries(s, count, acc) == Stop(TooLarge)
            <==> exists n: nat :: n < count && LongAfter(s, n, acc)
    decreases count
  {
    hide EnvelopeEntry, BodyTooLong;
    if count > 0 {
      LongEntry(s, acc);
      var first := EnvelopeEntry(s, acc);
      if first.Next? {
        LongBodyStops(first.rest, count - 1, first.acc);
        forall n: nat | n + 1 < count ensures LongAfter(s, n + 1, acc) <==> LongAfter(first.rest, n, first.acc) {}
        if n: nat :| n < count && LongAfter(s, n, acc) { assert n > 0 && LongAfter(first.rest, n - 1, first.acc); }
        if n: nat :| n < count - 1 && LongAfter(first.rest, n, first.acc) { assert LongAfter(s, n + 1, acc); }
      } else {
        assert EnvelopeEntries(s, 0, acc) == Next(acc, s);
        if BodyTooLong(s, acc) { assert LongAfter(s, 0, acc); }
        forall n: nat | 0 < n < count ensures !LongAfter(s, n, acc) {}
      }
    }
  }

  /** Behind `n` good entries stands a body that is too long. */
  predicate LongAfter(s: seq<Byte>, n: nat, acc: EnvelopeSlots) {
    var good := EnvelopeEntries(s, n, acc);
    good.Next? && BodyTooLong(good.rest, good.acc)
  }

  /** A content is refused as too large exactly when, behind good entries, stands a control body of more than 512
      bytes. */
  lemma TooLargeExactly(c: seq<Byte>)
    ensures ParseContent(c) == Err(TooLarge)
            <==> && ReadUint(c, 5).Got? && ReadUint(c, 5).value <= MAX_ITEMS
                 && exists n: nat :: n < ReadUint(c, 5).value && LongAfter(ReadUint(c, 5).rest, n, NO_ENVELOPE)
  {
    var count := ReadUint(c, 5);
    hide ReadUint, EnvelopeEntries, EnvelopeFrom, LongAfter;
    if count.Got? { LongBodyStops(count.rest, count.value, NO_ENVELOPE); }
  }

  // ---- frames ----

  /** The content is an envelope around the body, and the body is the message's. */
  ghost predicate Tells(c: seq<Byte>, m: Message, body: seq<Byte>) {
    && IsContent(c, m.envelope, body)
    && match m
       case SnapshotMessage(e, x) => e.kind == SnapshotType && IsSnapshotBody(body, x)
       case ControlMessage(e, b) => e.kind != SnapshotType && IsControlBody(e.kind, body, b)
  }

  /** The frame is a content of at most 2042 bytes between its length and its checksum, and tells the message. */
  ghost predicate Carries(frame: seq<Byte>, m: Message) {
    exists c, body :: 1 <= |c| <= MAX_FRAME_BYTES - 6 && frame == Frame(c) && Tells(c, m, body)
  }

  /** A frame passes the length and checksum tests exactly when it is some content between the two. */
  lemma FrameIsSealed(frame: seq<Byte>)
    requires FrameError(frame).None?
    ensures 7 <= |frame| <= MAX_FRAME_BYTES && frame == Frame(frame[2..|frame| - 4])
  {
    var (n, c) := (|frame|, frame[2..|frame| - 4]);
    ToFromBe(frame[..2]);
    ToFromBe(frame[n - 4..]);
    assert |c| + 4 == FromBe(frame[..2]);
    assert frame == frame[..2] + c + frame[n - 4..];
  }

  lemma ToldDecodes(c: seq<Byte>, m: Message, body: seq<Byte>)
    requires 1 <= |c| <= MAX_FRAME_BYTES - 6 && Tells(c, m, body)
    ensures DecodeFrame(Frame(c)) == Ok(m)
  {
    FrameShape(c);
    hide IsContent, IsSnapshotBody, IsControlBody, ParseContent, DecodeSnapshotBody, DecodeControlBody, FrameError, Frame;
    ContentExact(c, m.envelope, body);
    match m
    case SnapshotMessage(e, x) => SnapshotBodyExact(body, x);
    case ControlMessage(e, b) => ControlBodyExact(e.kind, body, b);
  }

  lemma DecodedIsTold(frame: seq<Byte>, m: Message)
    requires DecodeFrame(frame) == Ok(m)
    ensures Carries(frame, m)
  {
    DecodedParts(frame);
    Delivery.DecodedIsSound(frame);
    FrameIsSealed(frame);
    var (c, body) := (frame[2..|frame| - 4], ParseContent(frame[2..|frame| - 4]).value.1);
    hide IsContent, IsSnapshotBody, IsControlBody, ParseContent, DecodeSnapshotBody, DecodeControlBody, FrameError, Frame;
    hide DecodeFrame;
    ContentExact(c, m.envelope, body);
    match m
    case SnapshotMessage(e, x) => SnapshotBodyExact(body, x); assert Tells(c, m, body);
    case ControlMessage(e, b) => ControlBodyExact(e.kind, body, b); assert Tells(c, m, body);
  }

  /** A frame decodes to a message exactly when it carries it. */
  lemma DecodeExactly(frame: seq<Byte>, m: Message)
    ensures DecodeFrame(frame) == Ok(m) <==> Carries(frame, m)
  {
    hide DecodeFrame, Tells, Frame;
    if DecodeFrame(frame) == Ok(m) { DecodedIsTold(frame, m); }
    if Carries(frame, m) {
      var c, body :| 1 <= |c| <= MAX_FRAME_BYTES - 6 && frame == Frame(c) && Tells(c, m, body);
      ToldDecodes(c, m, body);
    }
  }
}
