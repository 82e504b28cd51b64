/** The resynchronising byte-stream framer. */
module Framing {
  import opened Basics
  import opened Cbor
  import opened Crc
  import opened Messages
  import opened Decode

  // ---- what one look at the buffer decides ----

  datatype Look = Wait | Drop | Take(length: nat)

  function LookAt(b: seq<Byte>): (l: Look)
    ensures l.Take? ==> 7 <= l.length <= |b| && l.length <= MAX_FRAME_BYTES
    ensures l.Drop? ==> |b| >= 2
  {
    if |b| < 2 then Wait
    else
      var n := FromBe(b[..2]);
      if n < 5 || n > MAX_FRAME_BYTES - 2 then Drop
      else if |b| < n + 2 then Wait
      else if Crc32(b[2..n - 2]) != FromBe(b[n - 2..n + 2]) then Drop
      else Take(n + 2)
  }

  datatype Pulled = Pulled(frame: Option<seq<Byte>>, dropped: nat, rest: seq<Byte>)

  /** One call of `next_frame`: drop bytes until a frame is complete or more input is needed. */
  function Pull(b: seq<Byte>): (r: Pulled)
    ensures |r.rest| <= |b| && (r.frame.Some? ==> |r.rest| < |b|)
    decreases |b|
  {
    match LookAt(b)
    case Wait => Pulled(None, 0, b)
    case Take(n) => Pulled(Some(b[..n]), 0, b[n..])
    case Drop =>
      var r := Pull(b[1..]);
      Pulled(r.frame, r.dropped + 1, r.rest)
  }

  datatype Drained = Drained(frames: seq<seq<Byte>>, dropped: nat, rest: seq<Byte>)

  /** `next_frame` until it returns nothing. */
  function Drain(b: seq<Byte>): Drained
    decreases |b|
  {
    match LookAt(b)
    case Wait => Drained([], 0, b)
    case Take(n) =>
      var r := Drain(b[n..]);
      Drained([b[..n]] + r.frames, r.dropped, r.rest)
    case Drop =>
      var r := Drain(b[1..]);
      Drained(r.frames, r.dropped + 1, r.rest)
  }

  /** Draining is pulling again and again. */
  lemma {:induction false} DrainByPulls(b: seq<Byte>)
    ensures
      var r := Pull(b);
      Drain(b) == match r.frame
                  case None => Drained([], r.dropped, r.rest)
                  case Some(f) =>
                    var d := Drain(r.rest);
                    Drained([f] + d.frames, r.dropped + d.dropped, d.rest)
    decreases |b|
  {
    hide LookAt;
    if LookAt(b).Drop? { DrainByPulls(b[1..]); }
  }

  /** What is left waits for more input, and is shorter than the largest frame. */
  lemma {:induction false} RestWaits(b: seq<Byte>)
    ensures LookAt(Drain(b).rest) == Wait && |Drain(b).rest| <= MAX_FRAME_BYTES - 1
    ensures Pull(b).frame.None? ==> LookAt(Pull(b).rest) == Wait
    decreases |b|
  {
    match LookAt(b)
    case Wait =>
    case Take(n) => hide LookAt; RestWaits(b[n..]);
    case Drop => hide LookAt; RestWaits(b[1..]);
  }

  // ---- fragmentation ----

  /** A decision, once made, does not change when more bytes arrive. */
  lemma LookIsStable(b: seq<Byte>, t: seq<Byte>)
    requires LookAt(b) != Wait
    ensures LookAt(b + t) == LookAt(b)
  {
    hide Crc32;
    var n := FromBe(b[..2]);
    assert (b + t)[..2] == b[..2];
    if 5 <= n <= MAX_FRAME_BYTES - 2 {
      assert (b + t)[2..n - 2] == b[2..n - 2];
      assert (b + t)[n - 2..n + 2] == b[n - 2..n + 2];
    }
  }

  /** Draining early changes nothing: not the frames, not the drops, not what is left. */
  lemma {:induction false} DrainAppend(b: seq<Byte>, t: seq<Byte>)
    ensures
      var first := Drain(b);
      var second := Drain(first.rest + t);
      Drain(b + t) == Drained(first.frames + second.frames, first.dropped + second.dropped, second.rest)
    decreases |b|
  {
    hide LookAt;
    if LookAt(b) != Wait {
      LookIsStable(b, t);
      var k := if LookAt(b).Drop? then 1 else LookAt(b).length;
      assert (b + t)[k..] == b[k..] + t;
      DrainAppend(b[k..], t);
      if LookAt(b).Take? { assert (b + t)[..k] == b[..k]; }
    }
  }

  function Flatten(chunks: seq<seq<Byte>>): seq<Byte> {
    if chunks == [] then [] else chunks[0] + Flatten(chunks[1..])
  }

  /** Push each chunk in turn and drain after each. */
  function Feed(chunks: seq<seq<Byte>>, held: seq<Byte>): Drained {
    if chunks == [] then Drained([], 0, held)
    else
      var first := Drain(held + chunks[0]);
      var others := Feed(chunks[1..], first.rest);
      Drained(first.frames + others.frames, first.dropped + others.dropped, others.rest)
  }

  lemma FeedStep(chunks: seq<seq<Byte>>, held: seq<Byte>)
    requires chunks != []
    ensures
      var first := Drain(held + chunks[0]);
      var others := Feed(chunks[1..], first.rest);
      Feed(chunks, held) == Drained(first.frames + others.frames, first.dropped + others.dropped, others.rest)
    ensures held + Flatten(chunks) == held + chunks[0] + Flatten(chunks[1..])
  {
    hide Drain;
  }

  /** However the bytes are cut into pushes, the outcome is that of one push. */
  lemma {:induction false} FragmentationIndependent(chunks: seq<seq<Byte>>, held: seq<Byte>)
    requires LookAt(held) == Wait
    ensures Feed(chunks, held) == Drain(held + Flatten(chunks))
    decreases |chunks|
  {
    if chunks == [] {
      assert held + Flatten(chunks) == held;
    } else {
      hide LookAt, Drain, Feed, Flatten;
      FeedStep(chunks, held);
      RestWaits(held + chunks[0]);
      FragmentationIndependent(chunks[1..], Drain(held + chunks[0]).rest);
      DrainAppend(held + chunks[0], Flatten(chunks[1..]));
    }
  }

  // ---- what comes out ----

  /** Every byte pushed is in a returned frame, dropped or still buffered. */
  lemma {:induction false} BytesConserved(b: seq<Byte>)
    ensures |b| == |Flatten(Drain(b).frames)| + Drain(b).dropped + |Drain(b).rest|
    decreases |b|
  {
    match LookAt(b)
    case Wait =>
    case Take(n) =>
      hide LookAt;
      BytesConserved(b[n..]);
      var f := Drain(b).frames;
      assert f[1..] == Drain(b[n..]).frames;
    case Drop => hide LookAt; BytesConserved(b[1..]);
  }

  lemma TakenIsSound(b: seq<Byte>)
    requires LookAt(b).Take?
    ensures FrameError(b[..LookAt(b).length]).None?
  {
    hide Crc32;
    var n := LookAt(b).length;
    var f := b[..n];
    assert f[..2] == b[..2] && f[2..n - 4] == b[2..n - 4] && f[n - 4..] == b[n - 4..n];
  }

  /** Every frame handed out has a good length and checksum: no decoder finds it cut short or damaged. */
  lemma {:induction false} FramesAreSound(b: seq<Byte>)
    ensures forall f <- Drain(b).frames :: FrameError(f).None?
    decreases |b|
  {
    match LookAt(b)
    case Wait =>
    case Take(n) => TakenIsSound(b); hide LookAt, FrameError; FramesAreSound(b[n..]);
    case Drop => hide LookAt, FrameError; FramesAreSound(b[1..]);
  }

  /** A frame is sound exactly when the framer takes all of it at the head of any input. */
  lemma SoundIsTaken(f: seq<Byte>, t: seq<Byte>)
    ensures FrameError(f).None? <==> |f| >= 2 && LookAt(f + t) == Take(|f|)
  {
    hide Crc32;
    var n := |f|;
    if n >= 7 {
      assert (f + t)[..2] == f[..2];
      assert (f + t)[2..n - 4] == f[2..n - 4] && (f + t)[n - 4..n] == f[n - 4..];
    }
  }

  // ---- an idle line ----

  /** What giving up a stalled partial frame yields: a byte at a time, rescanning after each. */
  function Resync(b: seq<Byte>): (frames: seq<seq<Byte>>)
    decreases |b|
  {
    if b == [] then []
    else
      var d := Drain(b[1..]);
      DrainShrinks(b[1..]);
      d.frames + Resync(d.rest)
  }

  lemma {:induction false} DrainShrinks(b: seq<Byte>)
    ensures |Drain(b).rest| <= |b|
    decreases |b|
  {
    BytesConserved(b);
  }

  /** No frame can be taken before the last `|f|` bytes of `q + f`. */
  predicate NothingBefore(q: seq<Byte>, f: seq<Byte>) {
    forall i | 0 <= i < |q| :: !LookAt((q + f)[i..]).Take?
  }

  lemma NothingBeforeTail(q: seq<Byte>, f: seq<Byte>)
    requires q != [] && NothingBefore(q, f)
    ensures (q + f)[1..] == q[1..] + f && NothingBefore(q[1..], f)
  {
    hide LookAt;
    forall i | 0 <= i < |q[1..]| ensures !LookAt((q[1..] + f)[i..]).Take? {
      assert (q[1..] + f)[i..] == (q + f)[i + 1..];
    }
  }

  /** Draining either reaches the frame or stalls before it. */
  lemma {:induction false} DrainReachesOrStalls(q: seq<Byte>, f: seq<Byte>) returns (k: nat)
    requires FrameError(f).None? && NothingBefore(q, f)
    ensures k <= |q|
    ensures Drain(q + f) == if k == |q| then Drained([f], Drain(q + f).dropped, [])
                            else Drained([], Drain(q + f).dropped, q[k..] + f)
    decreases |q|
  {
    hide LookAt, FrameError;
    if q == [] {
      SoundIsTaken(f, []);
      assert q + f == f && f + [] == f && f[|f|..] == [] && f[..|f|] == f;
      assert Drain([]) == Drained([], 0, []) by { NothingToDrain(); }
      k := 0;
    } else {
      NothingBeforeTail(q, f);
      assert (q + f)[0..] == q + f;
      if LookAt(q + f).Drop? {
        k := DrainReachesOrStalls(q[1..], f);
        k := k + 1;
        assert k <= |q[1..]| ==> q[1..][k - 1..] == q[k..];
      } else {
        k := 0;
        assert q[0..] == q;
      }
    }
  }

  /** A frame stuck behind a false length is not lost: once the line is idle, it is recovered. */
  lemma {:induction false} ResyncRecovers(q: seq<Byte>, f: seq<Byte>)
    requires q != [] && FrameError(f).None? && NothingBefore(q, f)
    ensures Resync(q + f) == [f]
    decreases |q|
  {
    hide LookAt, FrameError, Drain;
    NothingBeforeTail(q, f);
    var k := DrainReachesOrStalls(q[1..], f);
    var d := Drain(q[1..] + f);
    assert Resync(q + f) == d.frames + Resync(d.rest);
    if k < |q[1..]| {
      NothingBeforeDrop(q[1..], f, k);
      ResyncRecovers(q[1..][k..], f);
    }
  }

  lemma NothingBeforeDrop(q: seq<Byte>, f: seq<Byte>, k: nat)
    requires k <= |q| && NothingBefore(q, f)
    ensures NothingBefore(q[k..], f)
  {
    hide LookAt;
    forall i | 0 <= i < |q[k..]| ensures !LookAt((q[k..] + f)[i..]).Take? {
      assert (q[k..] + f)[i..] == (q + f)[i + k..];
    }
  }

  lemma NothingToDrain()
    ensures Drain([]) == Drained([], 0, [])
  {
  }

  // ---- frames among log text ----

  /** What a sender puts on the line: frames, and bytes of log text between them. */
  datatype Item = Text(byte: Byte) | Framed(frame: seq<Byte>)

  function Render(items: seq<Item>): seq<Byte> {
    if items == [] then []
    else (match items[0] case Text(b) => [b] case Framed(f) => f) + Render(items[1..])
  }

  function FramesOf(items: seq<Item>): seq<seq<Byte>> {
    if items == [] then []
    else (if items[0].Framed? then [items[0].frame] else []) + FramesOf(items[1..])
  }

  function TextOf(items: seq<Item>): nat {
    if items == [] then 0 else (if items[0].Text? then 1 else 0) + TextOf(items[1..])
  }

  /** Text bytes are above 7, the highest first byte of a length. */
  predicate OnTheLine(items: seq<Item>) {
    forall i <- items :: (i.Text? ==> i.byte > 7) && (i.Framed? ==> FrameError(i.frame).None?)
  }

  lemma TextIsDropped(b: Byte, t: seq<Byte>)
    requires b > 7
    ensures LookAt([b] + t) == if t == [] then Wait else Drop
  {
    if t != [] {
      var h := ([b] + t)[..2];
      assert h[..1] == [b] && h[..1][..0] == [];
      assert FromBe(h) == 256 * FromBe(h[..1]) + h[1];
    }
  }

  /** The framer returns exactly the frames that were sent, in order. It drops nothing but text,
      and keeps at most one byte of it. */
  lemma {:induction false} FramesSurviveText(items: seq<Item>)
    requires OnTheLine(items)
    ensures
      var d := Drain(Render(items));
      && d.frames == FramesOf(items) && d.dropped + |d.rest| == TextOf(items) && |d.rest| <= 1
    decreases |items|
  {
    if items != [] {
      var t := Render(items[1..]);
      FramesSurviveText(items[1..]);
      match items[0]
      case Text(b) =>
        TextIsDropped(b, t);
        hide LookAt, FrameError;
        assert ([b] + t)[1..] == t;
      case Framed(f) =>
        SoundIsTaken(f, t);
        hide LookAt, FrameError;
        assert (f + t)[|f|..] == t && (f + t)[..|f|] == f;
    }
  }

  // ---- the class ----

  class FrameStream {
    var buffer: seq<Byte>
    var dropped: nat

    constructor ()
      ensures buffer == [] && dropped == 0
    {
      buffer := [];
      dropped := 0;
    }

    method Push(bytes: seq<Byte>)
      modifies this
      ensures buffer == old(buffer) + bytes && dropped == old(dropped)
    {
      buffer := buffer + bytes;
    }

    method DropLeadingByte()
      modifies this
      ensures buffer == if old(buffer) == [] then [] else old(buffer)[1..]
      ensures |buffer| + dropped == |old(buffer)| + old(dropped)
    {
      if buffer != [] {
        buffer := buffer[1..];
        dropped := dropped + 1;
      }
    }

    /** Drops bytes that cannot start a frame, then returns the frame at the head if it is complete. */
    method NextFrame() returns (frame: Option<seq<Byte>>)
      modifies this
      ensures dropped >= old(dropped)
      ensures Pulled(frame, dropped - old(dropped), buffer) == Pull(old(buffer))
    {
      while |buffer| >= 2
        invariant dropped >= old(dropped)
        invariant var r := Pull(buffer);
                  Pulled(r.frame, r.dropped + (dropped - old(dropped)), r.rest) == Pull(old(buffer))
        decreases |buffer|
      {
        var n := FromBe(buffer[..2]);
        if n < 5 || n > MAX_FRAME_BYTES - 2 {
          buffer := buffer[1..];
          dropped := dropped + 1;
          continue;
        }
        if |buffer| < n + 2 { return None; }
        var end := n + 2;
        var crc := ComputeCrc32(buffer[2..end - 4]);
        if crc != FromBe(buffer[end - 4..end]) {
          buffer := buffer[1..];
          dropped := dropped + 1;
          continue;
        }
        frame := Some(buffer[..end]);
        buffer := buffer[end..];
        return;
      }
      return None;
    }

    /** Everything complete in the buffer. */
    method TakeFrames() returns (frames: seq<seq<Byte>>)
      modifies this
      ensures dropped >= old(dropped)
      ensures Drained(frames, dropped - old(dropped), buffer) == Drain(old(buffer))
      ensures |buffer| < MAX_FRAME_BYTES
    {
      frames := [];
      ghost var start := buffer;
      RestWaits(buffer);
      while true
        invariant dropped >= old(dropped)
        invariant var r := Drain(buffer);
                  Drained(frames + r.frames, r.dropped + (dropped - old(dropped)), r.rest) == Drain(start)
        decreases |buffer|
      {
        DrainByPulls(buffer);
        var frame := NextFrame();
        if frame.None? {
          return;
        }
        frames := frames + [frame.value];
      }
    }
  }
}
