/** The bounded, shortest-form CBOR subset of RFC 8949: unsigned heads, byte
    strings, and the skipper for values a decoder does not know.

    A parser maps the bytes still to read to `Got(value, rest)` or `Fail`. */
module Cbor {
  import opened Basics

  const MAX_FRAME_BYTES := 2048
  const MAX_ITEMS := 16
  const MAX_DEPTH := 4

  datatype Parse<+T> = Fail | Got(value: T, rest: seq<Byte>)

  // ---- big-endian integers ----

  function Pow256(n: nat): nat { if n == 0 then 1 else 256 * Pow256(n - 1) }

  function ToBe(v: nat, n: nat): (s: seq<Byte>)
    ensures |s| == n
  {
    if n == 0 then [] else ToBe(v / 256, n - 1) + [v % 256]
  }

  function FromBe(s: seq<Byte>): nat {
    if s == [] then 0 else 256 * FromBe(s[..|s| - 1]) + s[|s| - 1]
  }

  lemma {:induction false} FromToBe(v: nat, n: nat)
    requires v < Pow256(n)
    ensures FromBe(ToBe(v, n)) == v
  {
    if n > 0 {
      FromToBe(v / 256, n - 1);
      assert ToBe(v, n)[..n - 1] == ToBe(v / 256, n - 1);
    }
  }

  lemma {:induction false} ToFromBe(s: seq<Byte>)
    ensures FromBe(s) < Pow256(|s|)
    ensures ToBe(FromBe(s), |s|) == s
  {
    if s != [] {
      ToFromBe(s[..|s| - 1]);
      assert s == s[..|s| - 1] + [s[|s| - 1]];
    }
  }

  lemma Powers256()
    ensures Pow256(1) == 0x100 && Pow256(2) == 0x1_0000
    ensures Pow256(4) == 0x1_0000_0000 && Pow256(8) == 0x1_0000_0000_0000_0000
  {
    assert Pow256(1) == 0x100 && Pow256(2) == 0x1_0000;
    assert Pow256(3) == 0x100_0000 && Pow256(4) == 0x1_0000_0000;
    assert Pow256(6) == 0x1_0000 * Pow256(4);
  }

  // ---- heads ----

  type Major = m: int | 0 <= m < 8

  /** The additional information and the tail length of the shortest head for `v`. */
  function Form(v: U64): (f: (Byte, nat)) {
    if v < 24 then (v, 0)
    else if v <= 0xFF then (24, 1)
    else if v <= 0xFFFF then (25, 2)
    else if v <= U32_MAX then (26, 4)
    else (27, 8)
  }

  /** The shortest head of major type `major` that carries `v`. */
  function EncUint(major: Major, v: U64): (s: seq<Byte>)
    ensures |s| == 1 + Form(v).1 && s[0] / 32 == major
  {
    var (a, n) := Form(v);
    [32 * major + a] + (if n == 0 then [] else ToBe(v, n))
  }

  /** How many bytes follow a head with additional information `a`, for the forms that have any. */
  function TailLength(a: nat): Option<nat> {
    if a == 24 then Some(1) else if a == 25 then Some(2)
    else if a == 26 then Some(4) else if a == 27 then Some(8) else None
  }

  /** A longer form than the value needs. */
  predicate Overlong(a: nat, v: nat) {
    (a == 24 && v < 24) || (a == 25 && v <= 0xFF) || (a == 26 && v <= 0xFFFF) || (a == 27 && v <= U32_MAX)
  }

  function ReadUint(s: seq<Byte>, expected: Major): (r: Parse<U64>) {
    if s == [] || s[0] / 32 != expected then Fail
    else
      var a := s[0] % 32;
      if a <= 23 then Got(a, s[1..])
      else match TailLength(a)
        case None => Fail
        case Some(n) =>
          if |s| < 1 + n then Fail
          else
            var v := FromBe(s[1..1 + n]);
            ToFromBe(s[1..1 + n]);
            Powers256();
            if Overlong(a, v) then Fail else Got(v, s[1 + n..])
  }

  /** `read_uint` accepts exactly the bytes `uint` writes. */
  lemma ReadUintExact(s: seq<Byte>, major: Major, v: U64, rest: seq<Byte>)
    ensures ReadUint(s, major) == Got(v, rest) <==> s == EncUint(major, v) + rest
  {
    if s == EncUint(major, v) + rest { ReadOfUint(major, v, rest); }
    if ReadUint(s, major) == Got(v, rest) { UintOfRead(s, major); }
  }

  lemma ReadOfUint(major: Major, v: U64, rest: seq<Byte>)
    ensures ReadUint(EncUint(major, v) + rest, major) == Got(v, rest)
  {
    var s := EncUint(major, v) + rest;
    var (a, n) := Form(v);
    assert s[0] == 32 * major + a && s[0] % 32 == a;
    assert s[1 + n..] == rest;
    if n > 0 {
      assert v < Pow256(n) by { Powers256(); }
      FromToBe(v, n);
      assert s[1..1 + n] == ToBe(v, n);
    }
  }

  lemma UintOfRead(s: seq<Byte>, major: Major)
    requires ReadUint(s, major).Got?
    ensures s == EncUint(major, ReadUint(s, major).value) + ReadUint(s, major).rest
  {
    var a := s[0] % 32;
    if a <= 23 {
      assert s == [s[0]] + s[1..];
    } else {
      var n := TailLength(a).value;
      var v := ReadUint(s, major).value;
      ToFromBe(s[1..1 + n]);
      assert Form(v) == (a, n) by { Powers256(); }
      assert s == [s[0]] + s[1..1 + n] + s[1 + n..];
    }
  }

  /** More input after the head does not change what is read. */
  lemma ReadUintLocal(s: seq<Byte>, major: Major, t: seq<Byte>)
    requires ReadUint(s, major).Got?
    ensures ReadUint(s + t, major) == Got(ReadUint(s, major).value, ReadUint(s, major).rest + t)
  {
    var v, rest := ReadUint(s, major).value, ReadUint(s, major).rest;
    UintOfRead(s, major);
    assert s + t == EncUint(major, v) + (rest + t);
    ReadOfUint(major, v, rest + t);
  }

  // ---- byte strings ----

  /** `len` raw bytes; fails when fewer remain. */
  function Take(s: seq<Byte>, len: nat): Parse<seq<Byte>> {
    if len > |s| then Fail else Got(s[..len], s[len..])
  }

  /** A definite-length byte string of at most `max` bytes. */
  function ReadByteString(s: seq<Byte>, max: nat): Parse<seq<Byte>> {
    var head := ReadUint(s, 2);
    if head.Fail? || head.value > max then Fail else Take(head.rest, head.value)
  }

  /** A byte string of exactly `len` bytes. */
  function ReadExact(s: seq<Byte>, len: nat): (r: Parse<seq<Byte>>)
    ensures r.Got? ==> |r.value| == len
  {
    var head := ReadUint(s, 2);
    if head.Fail? || head.value != len then Fail else Take(head.rest, len)
  }

  function EncBytes(b: seq<Byte>): seq<Byte>
    requires |b| <= U64_MAX
  {
    EncUint(2, |b|) + b
  }

  lemma ReadOfBytes(b: seq<Byte>, rest: seq<Byte>)
    requires |b| <= U64_MAX
    ensures ReadExact(EncBytes(b) + rest, |b|) == Got(b, rest)
    ensures forall max: nat | |b| <= max :: ReadByteString(EncBytes(b) + rest, max) == Got(b, rest)
  {
    assert EncBytes(b) + rest == EncUint(2, |b|) + (b + rest);
    ReadOfUint(2, |b|, b + rest);
    assert (b + rest)[..|b|] == b && (b + rest)[|b|..] == rest;
  }

  // ---- skipping ----

  /** The input after one value, at most `MAX_DEPTH` levels deep below `depth`. */
  function SkipValue(s: seq<Byte>, depth: nat): (r: Option<seq<Byte>>)
    requires depth <= MAX_DEPTH
    ensures r.Some? ==> |r.value| < |s|
    decreases MAX_DEPTH - depth, 0
  {
    if depth >= MAX_DEPTH || s == [] then None
    else
      var major := s[0] / 32;
      var head := ReadUint(s, major);
      if head.Fail? then None
      else (
        UintOfRead(s, major);
        if major <= 1 then Some(head.rest)
        else if major <= 3 then
          if head.value > |head.rest| then None else Some(head.rest[head.value..])
        else if major <= 5 then
          if head.value > MAX_ITEMS then None
          else SkipMany(head.rest, head.value * (if major == 5 then 2 else 1), depth + 1)
        else None
      )
  }

  /** The input after `n` values at `depth`. */
  function SkipMany(s: seq<Byte>, n: nat, depth: nat): (r: Option<seq<Byte>>)
    requires depth <= MAX_DEPTH
    ensures r.Some? ==> |r.value| <= |s|
    decreases MAX_DEPTH - depth, n
  {
    if n == 0 then Some(s)
    else
      var first := SkipValue(s, depth);
      if first.None? then None else SkipMany(first.value, n - 1, depth)
  }

  /** The value half of a body entry: a group map is entered without counting a level. */
  function SkipEntryValue(s: seq<Byte>): (r: Option<seq<Byte>>)
    ensures r.Some? ==> |r.value| < |s|
  {
    if s != [] && s[0] / 32 == 5 then
      var inner := ReadUint(s, 5);
      if inner.Fail? || inner.value > MAX_ITEMS then None
      else (UintOfRead(s, 5); SkipMany(inner.rest, inner.value * 2, 0))
    else SkipValue(s, 0)
  }

  /** One key and its value. */
  function SkipEntry(s: seq<Byte>): (r: Option<seq<Byte>>)
    ensures r.Some? ==> |r.value| < |s|
  {
    var key := SkipValue(s, 0);
    if key.None? then None else SkipEntryValue(key.value)
  }

  function SkipEntries(s: seq<Byte>, n: nat): (r: Option<seq<Byte>>)
    ensures r.Some? ==> |r.value| <= |s|
    decreases n
  {
    if n == 0 then Some(s)
    else
      var first := SkipEntry(s);
      if first.None? then None else SkipEntries(first.value, n - 1)
  }

  /** The input after a message body. */
  function SkipBody(s: seq<Byte>): (r: Option<seq<Byte>>)
    ensures r.Some? ==> |r.value| < |s|
  {
    if s != [] && s[0] / 32 == 5 then
      var count := ReadUint(s, 5);
      if count.Fail? || count.value > MAX_ITEMS then None
      else (UintOfRead(s, 5); SkipEntries(count.rest, count.value))
    else SkipValue(s, 0)
  }

  // ---- depth monotonicity and locality ----

  /** What is skipped at some depth is skipped the same way at any lesser depth. */
  lemma {:induction false} SkipValueShallower(s: seq<Byte>, depth: nat, lesser: nat)
    requires lesser <= depth <= MAX_DEPTH
    requires SkipValue(s, depth).Some?
    ensures SkipValue(s, lesser) == SkipValue(s, depth)
    decreases MAX_DEPTH - depth, 0
  {
    hide SkipValue, SkipMany, ReadUint;
    SkipsSomething(s, depth);
    if 4 <= s[0] / 32 <= 5 {
      SkipNested(s, depth);
      SkipNested(s, lesser);
      var head := ReadUint(s, s[0] / 32);
      SkipManyShallower(head.rest, head.value * (if s[0] / 32 == 5 then 2 else 1), depth + 1, lesser + 1);
    } else {
      SkipFlat(s, depth, lesser);
    }
  }

  lemma SkipsSomething(s: seq<Byte>, depth: nat)
    requires depth <= MAX_DEPTH && SkipValue(s, depth).Some?
    ensures depth < MAX_DEPTH && s != []
  {
  }

  /** An array or map is its head and then its items, one level deeper. */
  lemma SkipNested(s: seq<Byte>, depth: nat)
    requires depth < MAX_DEPTH && s != [] && 4 <= s[0] / 32 <= 5
    ensures
      var head := ReadUint(s, s[0] / 32);
      SkipValue(s, depth) ==
      if head.Fail? || head.value > MAX_ITEMS then None
      else SkipMany(head.rest, head.value * (if s[0] / 32 == 5 then 2 else 1), depth + 1)
  {
    hide SkipMany, ReadUint;
  }

  lemma SkipFlat(s: seq<Byte>, depth: nat, lesser: nat)
    requires lesser <= depth < MAX_DEPTH && s != [] && !(4 <= s[0] / 32 <= 5)
    ensures SkipValue(s, lesser) == SkipValue(s, depth)
  {
    hide SkipMany, ReadUint;
  }

  lemma {:induction false} SkipManyShallower(s: seq<Byte>, n: nat, depth: nat, lesser: nat)
    requires lesser <= depth <= MAX_DEPTH
    requires SkipMany(s, n, depth).Some?
    ensures SkipMany(s, n, lesser) == SkipMany(s, n, depth)
    decreases MAX_DEPTH - depth, n
  {
    if n > 0 {
      SkipValueShallower(s, depth, lesser);
      SkipManyShallower(SkipValue(s, depth).value, n - 1, depth, lesser);
    }
  }

  /** Skipping looks only at the value skipped: input appended behind it stays behind it. */
  lemma {:induction false} SkipValueLocal(s: seq<Byte>, depth: nat, t: seq<Byte>)
    requires depth <= MAX_DEPTH && SkipValue(s, depth).Some?
    ensures SkipValue(s + t, depth) == Some(SkipValue(s, depth).value + t)
    decreases MAX_DEPTH - depth, 0
  {
    hide SkipValue, SkipMany, ReadUint;
    SkipsSomething(s, depth);
    var major := s[0] / 32;
    assert (s + t)[0] == s[0];
    if 4 <= major <= 5 {
      SkipNested(s, depth);
      SkipNested(s + t, depth);
      ReadUintLocal(s, major, t);
      var head := ReadUint(s, major);
      SkipManyLocal(head.rest, head.value * (if major == 5 then 2 else 1), depth + 1, t);
    } else {
      SkipFlatLocal(s, depth, t);
    }
  }

  lemma SkipFlatLocal(s: seq<Byte>, depth: nat, t: seq<Byte>)
    requires depth < MAX_DEPTH && s != [] && !(4 <= s[0] / 32 <= 5) && SkipValue(s, depth).Some?
    ensures SkipValue(s + t, depth) == Some(SkipValue(s, depth).value + t)
  {
    var major := s[0] / 32;
    var head := ReadUint(s, major);
    ReadUintLocal(s, major, t);
    assert (s + t)[0] == s[0];
    hide SkipMany, ReadUint;
    if 2 <= major <= 3 { assert (head.rest + t)[head.value..] == head.rest[head.value..] + t; }
  }

  lemma {:induction false} SkipManyLocal(s: seq<Byte>, n: nat, depth: nat, t: seq<Byte>)
    requires depth <= MAX_DEPTH && SkipMany(s, n, depth).Some?
    ensures SkipMany(s + t, n, depth) == Some(SkipMany(s, n, depth).value + t)
    decreases MAX_DEPTH - depth, n
  {
    if n > 0 {
      SkipValueLocal(s, depth, t);
      SkipManyLocal(SkipValue(s, depth).value, n - 1, depth, t);
    }
  }

  lemma SkipEntryValueLocal(s: seq<Byte>, t: seq<Byte>)
    requires SkipEntryValue(s).Some?
    ensures SkipEntryValue(s + t) == Some(SkipEntryValue(s).value + t)
  {
    if s != [] && s[0] / 32 == 5 {
      var inner := ReadUint(s, 5);
      ReadUintLocal(s, 5, t);
      SkipManyLocal(inner.rest, inner.value * 2, 0, t);
    } else {
      SkipValueLocal(s, 0, t);
    }
  }

  lemma SkipEntryLocal(s: seq<Byte>, t: seq<Byte>)
    requires SkipEntry(s).Some?
    ensures SkipEntry(s + t) == Some(SkipEntry(s).value + t)
  {
    SkipValueLocal(s, 0, t);
    SkipEntryValueLocal(SkipValue(s, 0).value, t);
  }

  lemma {:induction false} SkipEntriesLocal(s: seq<Byte>, n: nat, t: seq<Byte>)
    requires SkipEntries(s, n).Some?
    ensures SkipEntries(s + t, n) == Some(SkipEntries(s, n).value + t)
    decreases n
  {
    hide SkipEntry;
    if n > 0 {
      var first := SkipEntry(s).value;
      assert SkipEntry(s + t) == Some(first + t) by { SkipEntryLocal(s, t); }
      SkipEntriesLocal(first, n - 1, t);
      assert SkipEntries(s + t, n) == SkipEntries(first + t, n - 1);
    }
  }

  lemma SkipBodyLocal(s: seq<Byte>, t: seq<Byte>)
    requires SkipBody(s).Some?
    ensures SkipBody(s + t) == Some(SkipBody(s).value + t)
  {
    if s != [] && s[0] / 32 == 5 {
      var count := ReadUint(s, 5);
      ReadUintLocal(s, 5, t);
      SkipEntriesLocal(count.rest, count.value, t);
    } else {
      SkipValueLocal(s, 0, t);
    }
  }

  /** A head read by a decoder is a value the skipper accepts. */
  lemma SkipOfUint(s: seq<Byte>)
    requires ReadUint(s, 0).Got?
    ensures SkipValue(s, 0) == Some(ReadUint(s, 0).rest)
  {
  }

  /** So is a byte string. */
  lemma SkipOfBytes(s: seq<Byte>, max: nat)
    requires ReadByteString(s, max).Got?
    ensures SkipValue(s, 0) == Some(ReadByteString(s, max).rest)
  {
  }

  /** An unknown value a decoder skips is one the body skipper skips, map or not. */
  lemma SkipOfUnknown(s: seq<Byte>)
    requires SkipValue(s, 0).Some?
    ensures SkipEntryValue(s) == SkipValue(s, 0)
  {
    if s[0] / 32 == 5 {
      var head := ReadUint(s, 5);
      SkipManyShallower(head.rest, head.value * 2, 1, 0);
    }
  }
}
