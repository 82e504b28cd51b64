/** What may stand under a key the decoder does not know: every definite-length value of RFC 8949 section 3 without
    tags, floats and simple values, in its shortest form, at most four levels deep and sixteen entries wide, and
    nothing else. */
module SkipExact {
  import opened Basics
  import opened Cbor

  /** A value. A map is its keys and values in turn. */
  datatype Item =
    | Number(negative: bool, n: U64)
    | Chars(text: bool, content: seq<Byte>)
    | List(items: seq<Item>)
    | Dict(parts: seq<Item>)

  /** The bounds of the skipper, for a value at some depth. */
  predicate Bounded(i: Item, depth: nat) {
    && depth < 4
    && match i
       case Number(_, _) => true
       case Chars(_, content) => |content| <= U64_MAX
       case List(items) => |items| <= 16 && forall x <- items :: Bounded(x, depth + 1)
       case Dict(parts) => |parts| <= 32 && |parts| % 2 == 0 && forall x <- parts :: Bounded(x, depth + 1)
  }

  predicate AllBounded(items: seq<Item>, depth: nat) { forall x <- items :: Bounded(x, depth) }

  function Write(i: Item, depth: nat): seq<Byte>
    requires Bounded(i, depth)
    decreases i
  {
    match i
    case Number(negative, n) => EncUint(if negative then 1 else 0, n)
    case Chars(text, content) => EncUint(if text then 3 else 2, |content|) + content
    case List(items) => EncUint(4, |items|) + WriteAll(items, depth + 1)
    case Dict(parts) => EncUint(5, |parts| / 2) + WriteAll(parts, depth + 1)
  }

  function WriteAll(items: seq<Item>, depth: nat): seq<Byte>
    requires AllBounded(items, depth)
    decreases items
  {
    if items == [] then []
    else
      assert items[0] in items && forall x <- items[1..] :: x in items;
      Write(items[0], depth) + WriteAll(items[1..], depth)
  }

  lemma HeadMajor(major: Major, v: U64, t: seq<Byte>)
    ensures var s := EncUint(major, v) + t; s != [] && s[0] / 32 == major && ReadUint(s, major) == Got(v, t)
  {
    ReadOfUint(major, v, t);
  }

  /** A bounded value is skipped to its end. */
  lemma {:induction false} WrittenIsSkipped(i: Item, depth: nat, t: seq<Byte>)
    requires Bounded(i, depth)
    ensures SkipValue(Write(i, depth) + t, depth) == Some(t)
    decreases i
  {
    hide ReadUint, SkipMany, EncUint;
    match i
    case Number(negative, n) => HeadMajor(if negative then 1 else 0, n, t);
    case Chars(text, content) =>
      var head := EncUint(if text then 3 else 2, |content|);
      assert head + content + t == head + (content + t);
      HeadMajor(if text then 3 else 2, |content|, content + t);
      assert (content + t)[|content|..] == t;
    case List(items) =>
      var (head, all) := (EncUint(4, |items|), WriteAll(items, depth + 1));
      assert head + all + t == head + (all + t);
      HeadMajor(4, |items|, all + t);
      AllSkipped(items, depth + 1, t);
    case Dict(parts) =>
      var (head, all) := (EncUint(5, |parts| / 2), WriteAll(parts, depth + 1));
      assert head + all + t == head + (all + t);
      HeadMajor(5, |parts| / 2, all + t);
      AllSkipped(parts, depth + 1, t);
  }

  lemma {:induction false} AllSkipped(items: seq<Item>, depth: nat, t: seq<Byte>)
    requires AllBounded(items, depth) && depth <= 4
    ensures SkipMany(WriteAll(items, depth) + t, |items|, depth) == Some(t)
    decreases items
  {
    hide SkipValue, Write;
    if items == [] {
      assert [] + t == t;
    } else {
      assert items[0] in items && forall x <- items[1..] :: x in items;
      var (first, others) := (Write(items[0], depth), WriteAll(items[1..], depth));
      assert first + others + t == first + (others + t);
      WrittenIsSkipped(items[0], depth, others + t);
      AllSkipped(items[1..], depth, t);
    }
  }

  /** What is skipped is a bounded value. */
  lemma {:induction false} SkippedIsWritten(s: seq<Byte>, depth: nat) returns (i: Item)
    requires depth <= MAX_DEPTH && SkipValue(s, depth).Some?
    ensures Bounded(i, depth) && s == Write(i, depth) + SkipValue(s, depth).value
    decreases MAX_DEPTH - depth, 0
  {
    hide ReadUint, SkipMany, EncUint;
    SkipsSomething(s, depth);
    var major := s[0] / 32;
    var head := ReadUint(s, major);
    UintOfRead(s, major);
    if major <= 1 {
      i := Number(major == 1, head.value);
    } else if major <= 3 {
      i := Chars(major == 3, head.rest[..head.value]);
      assert head.rest == head.rest[..head.value] + head.rest[head.value..];
      assert s == EncUint(major, head.value) + head.rest[..head.value] + head.rest[head.value..];
    } else {
      SkipNested(s, depth);
      var n := head.value * if major == 5 then 2 else 1;
      var items := SkippedAreWritten(head.rest, n, depth + 1);
      i := if major == 4 then List(items) else Dict(items);
      assert s == EncUint(major, head.value) + (WriteAll(items, depth + 1) + SkipValue(s, depth).value);
      assert s == EncUint(major, head.value) + WriteAll(items, depth + 1) + SkipValue(s, depth).value;
    }
  }

  lemma {:induction false} SkippedAreWritten(s: seq<Byte>, n: nat, depth: nat) returns (items: seq<Item>)
    requires depth <= MAX_DEPTH && SkipMany(s, n, depth).Some?
    ensures |items| == n && AllBounded(items, depth) && s == WriteAll(items, depth) + SkipMany(s, n, depth).value
    decreases MAX_DEPTH - depth, n + 1
  {
    hide SkipValue, Write;
    if n == 0 {
      items := [];
      assert [] + s == s;
    } else {
      var i := SkippedIsWritten(s, depth);
      var others := SkippedAreWritten(SkipValue(s, depth).value, n - 1, depth);
      items := [i] + others;
      assert items[1..] == others && forall x <- items :: x == i || x in others;
      assert s == Write(i, depth) + (WriteAll(others, depth) + SkipMany(s, n, depth).value);
      assert s == Write(i, depth) + WriteAll(others, depth) + SkipMany(s, n, depth).value;
    }
  }

  ghost predicate StartsWith(s: seq<Byte>, i: Item, rest: seq<Byte>) {
    Bounded(i, 0) && s == Write(i, 0) + rest
  }

  /** The skipper takes exactly the bounded values. */
  lemma SkipExactly(s: seq<Byte>, rest: seq<Byte>)
    ensures SkipValue(s, 0) == Some(rest) <==> exists i :: StartsWith(s, i, rest)
  {
    hide SkipValue, Write, Bounded;
    if SkipValue(s, 0) == Some(rest) {
      var i := SkippedIsWritten(s, 0);
      assert StartsWith(s, i, rest);
    }
    if i :| StartsWith(s, i, rest) { WrittenIsSkipped(i, 0, rest); }
  }
}
