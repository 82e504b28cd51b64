/** The device's link and feed as the objects they are: bytes in, frames out, and the fields the
    handlers update. Each method is tied to the specification in `DeviceLink`. */
module HostLinks {
  import opened Basics
  import opened Cbor
  import opened Messages
  import opened Decode
  import opened Framing
  import opened Decoders
  import opened Encoders
  import opened Delivery
  import opened DeviceLink

  const PARTIAL_FRAME_IDLE_MS := 250

  // ---- the specification, one result at a time ----

  lemma {:induction false} HandleAllAppend(
    d: Device, rs: seq<Result<Message, Error>>, a: seq<Answers>, r: Result<Message, Error>, last: Answers)
    requires |a| == |rs|
    ensures HandleAll(d, rs + [r], a + [last]) == Handle(HandleAll(d, rs, a), r, last)
    decreases |rs|
  {
    hide Handle;
    if rs == [] {
      assert HandleAll(d, [r], [last]) == HandleAll(Handle(d, r, last), [], []);
      assert rs + [r] == [r] && a + [last] == [last];
    } else {
      assert (rs + [r])[1..] == rs[1..] + [r] && (a + [last])[1..] == a[1..] + [last];
      HandleAllAppend(Handle(d, rs[0], a[0]), rs[1..], a[1..], r, last);
    }
  }

  lemma HearOneMore(d: Device, frames: seq<seq<Byte>>, answers: seq<Answers>, frame: seq<Byte>, a: Answers)
    requires |answers| == |DecodeAll(frames)|
    ensures |answers + [a]| == |DecodeAll(frames + [frame])|
    ensures HandleAll(d, DecodeAll(frames + [frame]), answers + [a])
            == Handle(HandleAll(d, DecodeAll(frames), answers), DecodeFrame(frame), a)
  {
    hide Handle, DecodeFrame, HandleAll;
    DecodeAllAppend(frames, [frame]);
    assert [frame][1..] == [] && DecodeAll([frame]) == [DecodeFrame(frame)] + DecodeAll([]);
    assert DecodeAll(frames + [frame]) == DecodeAll(frames) + [DecodeFrame(frame)];
    HandleAllAppend(d, DecodeAll(frames), answers, DecodeFrame(frame), a);
  }

  lemma {:induction false} HandleAllSplit(
    d: Device, rs: seq<Result<Message, Error>>, a: seq<Answers>, more: seq<Result<Message, Error>>, b: seq<Answers>)
    requires |a| == |rs| && |b| == |more|
    ensures HandleAll(d, rs + more, a + b) == HandleAll(HandleAll(d, rs, a), more, b)
    decreases |rs|
  {
    hide Handle;
    if rs == [] {
      assert rs + more == more && a + b == b;
    } else {
      assert (rs + more)[1..] == rs[1..] + more && (a + b)[1..] == a[1..] + b;
      HandleAllSplit(Handle(d, rs[0], a[0]), rs[1..], a[1..], more, b);
    }
  }

  lemma HearMany(d: Device, frames: seq<seq<Byte>>, answers: seq<Answers>, more: seq<seq<Byte>>, b: seq<Answers>)
    requires |answers| == |DecodeAll(frames)| && |b| == |DecodeAll(more)|
    ensures |answers + b| == |DecodeAll(frames + more)|
    ensures HandleAll(d, DecodeAll(frames + more), answers + b)
            == HandleAll(HandleAll(d, DecodeAll(frames), answers), DecodeAll(more), b)
  {
    hide HandleAll, DecodeAll;
    DecodeAllAppend(frames, more);
    HandleAllSplit(d, DecodeAll(frames), answers, DecodeAll(more), b);
  }

  lemma NothingHeard(d: Device)
    ensures DecodeAll([]) == [] && HandleAll(d, [], []) == d
  {
  }

  lemma EnqueueEncodes(ms: seq<Message>, frames: seq<seq<Byte>>, m: Message, frame: seq<Byte>)
    requires FramesEncode(ms, frames) && EncodeMessage(m) == Ok(frame)
    ensures FramesEncode(Enqueue(ms, m), (if |frames| >= MAX_QUEUED_FRAMES then frames[1..] else frames) + [frame])
  {
    hide EncodeMessage;
  }

  lemma ReplyEncodes(e: Envelope, body: ControlBody)
    requires KindMatches(e.kind, body) && (body.ErrorReport? ==> |body.bytes| == 1)
    requires e.localOffsetMinutes.None?
    ensures EncodeControl(e, body).Ok? <==> Encodes(body)
  {
    hide EncodeControl;
    ControlEncodes(e, body);
  }

  /** The pairing store. It may fail to save and to forget. */
  class PairingStore {
    var paired: Option<Identity>

    constructor (paired: Option<Identity>)
      ensures this.paired == paired
    {
      this.paired := paired;
    }

    method SavePairedHost(host: Identity) returns (saved: bool)
      modifies this
      ensures paired == if saved then Some(host) else old(paired)
    {
      saved := *;
      if saved { paired := Some(host); }
    }

    method ClearPairedHost() returns (cleared: bool)
      modifies this
      ensures paired == if cleared then None else old(paired)
    {
      cleared := *;
      if cleared { paired := None; }
    }
  }

  /** The feed's session gate. `applied` is kept for the proofs. */
  class HostFeed {
    var gate: Receiver
    var sessionOpen: bool
    ghost var applied: seq<U32>

    constructor ()
      ensures gate == Receiver(None, 0) && !sessionOpen && applied == []
    {
      gate, sessionOpen, applied := Receiver(None, 0), false, [];
    }

    method StartSession(session: Identity)
      modifies this
      ensures gate == Receiver(Some(session), 0) && sessionOpen && applied == []
    {
      gate := Receiver(Some(session), 0);
      sessionOpen := true;
      applied := [];
    }

    method EndSession()
      modifies `sessionOpen
      ensures !sessionOpen
    {
      sessionOpen := false;
    }

    method AcceptEnvelope(e: Envelope) returns (error: Option<Error>)
      modifies `gate
      ensures (gate, error) == Accept(old(gate), e)
    {
      if gate.session.None? { gate := Receiver(Some(e.session), 0); }
      if gate.session.value != e.session { return Some(WrongSession); }
      if e.sequence <= gate.last { return Some(StaleSequence); }
      gate := gate.(last := e.sequence);
      return None;
    }

    method HearSnapshot(e: Envelope)
      modifies `gate, `applied
      ensures !sessionOpen ==> gate == old(gate) && applied == old(applied)
      ensures sessionOpen ==>
                && gate == Accept(old(gate), e).0
                && applied == old(applied) + if Accept(old(gate), e).1.None? then [e.sequence] else []
    {
      if !sessionOpen { return; }
      var error := AcceptEnvelope(e);
      if error.Some? { return; }
      applied := applied + [e.sequence];
    }
  }

  /** Runs a command that is not a retry. The calibration handler may answer anything. */
  method Execute(operation: CommandOperation, paired: Option<Identity>) returns (result: CommandResult, ghost resetOk: bool)
    ensures operation == Unpair ==> result == if paired.Some? then Applied else AlreadyApplied
    ensures operation == CalibrationReset ==> result == if resetOk then Applied else Rejected
  {
    resetOk := false;
    if operation == Unpair { return if paired.Some? then Applied else AlreadyApplied, false; }
    var done := *;
    return if done then Applied else Rejected, done;
  }

  class HostLink {
    const identity: Identity
    const store: PairingStore
    const feed: HostFeed
    const stream: FrameStream
    var lastPushMs: U64
    var phase: Phase
    var fault: Fault
    var outgoing: seq<seq<Byte>>
    var txSequence: U32
    var pendingHost: Identity
    var pendingSession: Identity
    var pendingCode: U32
    var pendingSinceMs: U64
    var session: Identity
    var host: Identity
    var cachedCommand: Option<U32>
    var cachedResult: CommandResult
    /** The messages the queued frames encode. */
    ghost var queued: seq<Message>

    ghost predicate Valid()
      reads this
    {
      FramesEncode(queued, outgoing)
    }

    ghost function Model(): Device
      reads this, store, feed
    {
      Device(identity, store.paired, phase, fault, feed.sessionOpen, feed.gate, pendingHost, pendingSession,
             pendingCode, pendingSinceMs, session, host, cachedCommand, cachedResult, txSequence, queued, feed.applied)
    }

    constructor (identity: Identity, paired: Option<Identity>)
      ensures Valid() && fresh(store) && fresh(feed) && fresh(stream)
      ensures stream.buffer == [] && Model() == PowerOn(identity, paired)
    {
      this.identity := identity;
      store := new PairingStore(paired);
      feed := new HostFeed();
      stream := new FrameStream();
      lastPushMs, phase, fault, outgoing, txSequence := 0, Idle, NoFault, [], 0;
      pendingHost, pendingSession, pendingCode, pendingSinceMs := ZERO_IDENTITY, ZERO_IDENTITY, 0, 0;
      session, host, cachedCommand, cachedResult := ZERO_IDENTITY, ZERO_IDENTITY, None, Applied;
      queued := [];
    }

    /** The oldest frame makes room for a new one. */
    method Queue(frame: seq<Byte>, ghost m: Message)
      requires Valid() && EncodeMessage(m) == Ok(frame)
      modifies `outgoing, `queued
      ensures Valid() && queued == Enqueue(old(queued), m)
    {
      EnqueueEncodes(queued, outgoing, m, frame);
      hide FramesEncode;
      if |outgoing| >= MAX_QUEUED_FRAMES { outgoing := outgoing[1..]; }
      outgoing := outgoing + [frame];
      queued := Enqueue(queued, m);
    }

    method SendMessage(kind: MessageType, to: Identity, body: ControlBody)
      requires Valid() && KindMatches(kind, body) && (body.ErrorReport? ==> |body.bytes| == 1)
      modifies `txSequence, `outgoing, `queued
      ensures Valid() && Model() == Send(old(Model()), kind, to, body)
    {
      hide FramesEncode, EncodeControl, KindMatches, Enqueue;
      txSequence := Inc32(txSequence);
      var envelope := Envelope(1, 0, kind, to, txSequence, None, None, None);
      var frame := EncodeControlPush(envelope, body);
      ReplyEncodes(envelope, body);
      if frame.Err? { return; }
      Queue(frame.value, ControlMessage(envelope, body));
    }

    method SendErrorCode(code: Byte)
      requires Valid()
      modifies `txSequence, `outgoing, `queued
      ensures Valid() && Model() == SendError(old(Model()), code)
    {
      hide Send;
      SendMessage(ErrorType, ZERO_IDENTITY, ErrorReport([code]));
    }

    method Close()
      requires Valid()
      modifies `phase, feed`sessionOpen
      ensures Valid() && Model() == CloseSession(old(Model()))
    {
      feed.EndSession();
      if phase == SessionOpen || phase == AwaitingConfirmation { phase := Negotiated; }
    }

    method BeginSession(newSession: Identity, newHost: Identity)
      requires Valid()
      modifies `session, `host, `cachedCommand, `txSequence, `phase, `fault, feed
      ensures Valid() && session == newSession && host == newHost && cachedCommand == None && txSequence == 0
      ensures phase == SessionOpen && fault == NoFault
      ensures feed.gate == Receiver(Some(newSession), 0) && feed.sessionOpen && feed.applied == []
    {
      hide FramesEncode;
      session := newSession;
      host := newHost;
      cachedCommand := None;
      txSequence := 0;
      feed.StartSession(newSession);
      phase := SessionOpen;
      fault := NoFault;
    }

    method Open(newSession: Identity, newHost: Identity, code: U32)
      requires Valid()
      modifies `session, `host, `cachedCommand, `txSequence, `phase, `fault, `outgoing, `queued, feed
      ensures Valid() && Model() == OpenSession(old(Model()), newSession, newHost, code)
    {
      hide Send, FramesEncode;
      BeginSession(newSession, newHost);
      assert Model() == Begin(old(Model()), newSession, newHost);
      hide Begin;
      SendMessage(PairType, newSession, Pair(PairBody(identity, newHost, code)));
    }

    method HearHello(h: HelloBody)
      requires Valid()
      modifies `phase, `fault, `txSequence, `outgoing, `queued, feed`sessionOpen
      ensures Valid() && Model() == OnHello(old(Model()), h)
    {
      hide Send, SendError, FramesEncode, CloseSession;
      Close();
      if h.supportedMajor != 1 {
        fault := IncompatibleMajor;
        phase := Incompatible;
        SendErrorCode(ERR_INCOMPATIBLE);
        return;
      }
      fault := NoFault;
      phase := Negotiated;
      SendMessage(HelloReplyType, ZERO_IDENTITY, HelloReply(HelloBody(1, 0, 0, 0, None, None)));
    }

    method HearPair(to: Identity, p: PairBody, nowMs: U64)
      requires Valid()
      modifies `session, `host, `cachedCommand, `txSequence, `phase, `fault, `outgoing, `queued, feed
      modifies `pendingHost, `pendingSession, `pendingCode, `pendingSinceMs
      ensures Valid() && Model() == OnPair(old(Model()), to, p, nowMs)
    {
      hide SendError, OpenSession, FramesEncode;
      if phase == Idle || phase == Incompatible || p.matchingCode > MAX_MATCHING_CODE {
        SendErrorCode(ERR_BAD_REQUEST);
        return;
      }
      var pairedHost := store.paired;
      var namesThisDevice := p.intendedPeerIdentity == ZERO_IDENTITY || p.intendedPeerIdentity == identity;
      if pairedHost.Some? && pairedHost.value == p.pairingIdentity && namesThisDevice {
        Open(to, p.pairingIdentity, p.matchingCode);
        return;
      }
      if pairedHost.Some? || p.intendedPeerIdentity != ZERO_IDENTITY {
        fault := NotPairedWithHost;
        SendErrorCode(ERR_NOT_PAIRED);
        return;
      }
      AwaitOperator(to, p, nowMs);
    }

    method AwaitOperator(to: Identity, p: PairBody, nowMs: U64)
      modifies `phase, `pendingHost, `pendingSession, `pendingCode, `pendingSinceMs
      ensures phase == AwaitingConfirmation && pendingHost == p.pairingIdentity && pendingSession == to
      ensures pendingCode == p.matchingCode && pendingSinceMs == nowMs
    {
      pendingHost := p.pairingIdentity;
      pendingSession := to;
      pendingCode := p.matchingCode;
      pendingSinceMs := nowMs;
      phase := AwaitingConfirmation;
    }

    method Confirm(accepted: bool) returns (ghost saved: bool)
      requires Valid()
      modifies `session, `host, `cachedCommand, `txSequence, `phase, `fault, `outgoing, `queued, feed, store
      ensures Valid() && Model() == ConfirmPairing(old(Model()), accepted, saved)
    {
      hide SendError, OpenSession, FramesEncode;
      saved := false;
      if phase != AwaitingConfirmation { return; }
      var stores := false;
      if accepted { stores := store.SavePairedHost(pendingHost); }
      saved := stores;
      if !stores {
        fault := DeclinedFault;
        phase := Negotiated;
        SendErrorCode(ERR_DECLINED);
        return;
      }
      Open(pendingSession, pendingHost, pendingCode);
    }

    /** What the store answers is not looked at. */
    method UnpairLocally() returns (ghost cleared: bool)
      requires Valid()
      modifies `phase, feed`sessionOpen, store
      ensures Valid() && Model() == LocalUnpair(old(Model()), cleared)
    {
      hide FramesEncode;
      var gone := store.ClearPairedHost();
      cleared := gone;
      Close();
    }

    method HearCommand(to: Identity, c: CommandBody) returns (ghost cleared: bool, ghost resetOk: bool)
      requires Valid()
      modifies `phase, `cachedCommand, `cachedResult, `txSequence, `outgoing, `queued, feed`sessionOpen, store
      ensures Valid() && Model() == OnCommand(old(Model()), to, c, cleared, resetOk)
    {
      hide Send, FramesEncode, CloseSession, ClearStore;
      cleared, resetOk := false, false;
      if to != session { return; }
      var retry := cachedCommand.Some? && cachedCommand.value == c.commandIdentity;
      if !retry && phase != SessionOpen { return; }
      var result := cachedResult;
      if !retry {
        result, resetOk := Execute(c.operation, store.paired);
        Remember(c.commandIdentity, result);
      }
      SendMessage(CommandReplyType, session, CommandReply(CommandReplyBody(c.commandIdentity, c.operation, result)));
      if !retry && c.operation == Unpair {
        cleared := UnpairLocally();
      }
    }

    method Remember(commandIdentity: U32, result: CommandResult)
      modifies `cachedCommand, `cachedResult
      ensures cachedCommand == Some(commandIdentity)
      ensures cachedResult == if result == Applied then AlreadyApplied else result
    {
      cachedCommand := Some(commandIdentity);
      cachedResult := if result == Applied then AlreadyApplied else result;
    }

    method OnResult(r: Result<Message, Error>, nowMs: U64) returns (ghost answers: Answers)
      requires Valid() && !(r.Ok? && r.value.SnapshotMessage?)
      modifies this, feed, store
      ensures Valid() && Model() == Handle(old(Model()), r, answers) && answers.nowMs == nowMs
      ensures lastPushMs == old(lastPushMs)
    {
      hide SendError, OnHello, OnPair, OnCommand, CloseSession, FramesEncode;
      answers := Answers(nowMs, false, false);
      match r {
        case Err(UnsupportedMajor) =>
          fault := IncompatibleMajor;
          phase := Incompatible;
          Close();
          SendErrorCode(ERR_INCOMPATIBLE);
        case Ok(ControlMessage(e, Hello(h))) => HearHello(h);
        case Ok(ControlMessage(e, Pair(p))) => HearPair(e.session, p, nowMs);
        case Ok(ControlMessage(e, Command(c))) =>
          ghost var cleared, resetOk := HearCommand(e.session, c);
          answers := Answers(nowMs, cleared, resetOk);
        case _ =>
      }
    }

    method HearFrame(frame: seq<Byte>, nowMs: U64) returns (ghost answers: Answers)
      requires Valid()
      modifies this, feed, store
      ensures Valid() && Model() == Handle(old(Model()), DecodeFrame(frame), answers) && answers.nowMs == nowMs
      ensures lastPushMs == old(lastPushMs)
    {
      hide FramesEncode, DecodeFrame, OnControl, SendError, CloseSession, Accept;
      var r := DecodeFrameLoop(frame);
      if r.Ok? && r.value.SnapshotMessage? {
        answers := Answers(nowMs, false, false);
        feed.HearSnapshot(r.value.envelope);
      } else {
        answers := OnResult(r, nowMs);
      }
    }

    /** Every complete frame in the stream, in order. */
    method DrainStream(nowMs: U64) returns (ghost answers: seq<Answers>)
      requires Valid()
      modifies this, feed, store, stream
      ensures Valid() && lastPushMs == old(lastPushMs)
      ensures
        var d := Drain(old(stream.buffer));
        && stream.buffer == d.rest && |answers| == |DecodeAll(d.frames)|
        && Model() == HandleAll(old(Model()), DecodeAll(d.frames), answers)
      ensures forall a <- answers :: a.nowMs == nowMs
    {
      hide FramesEncode, DecodeFrame, DecodeAll, Handle, HandleAll, Drain, Pull;
      answers := [];
      ghost var start, before := stream.buffer, Model();
      ghost var frames: seq<seq<Byte>> := [];
      NothingHeard(before);
      while true
        invariant Valid() && lastPushMs == old(lastPushMs)
        invariant Drain(start).frames == frames + Drain(stream.buffer).frames
        invariant Drain(start).rest == Drain(stream.buffer).rest
        invariant |answers| == |DecodeAll(frames)| && Model() == HandleAll(before, DecodeAll(frames), answers)
        invariant forall a <- answers :: a.nowMs == nowMs
        decreases |stream.buffer|
      {
        DrainByPulls(stream.buffer);
        var frame := stream.NextFrame();
        if frame.None? {
          assert Drain(start).frames == frames;
          return;
        }
        ghost var a := HearFrame(frame.value, nowMs);
        HearOneMore(before, frames, answers, frame.value, a);
        frames := frames + [frame.value];
        answers := answers + [a];
      }
    }

    method Push(bytes: seq<Byte>, nowMs: U64) returns (ghost answers: seq<Answers>)
      requires Valid()
      modifies this, feed, store, stream
      ensures Valid() && lastPushMs == nowMs
      ensures
        var d := Drain(old(stream.buffer) + bytes);
        && stream.buffer == d.rest && |answers| == |DecodeAll(d.frames)|
        && Model() == HandleAll(old(Model()), DecodeAll(d.frames), answers)
      ensures forall a <- answers :: a.nowMs == nowMs
    {
      hide FramesEncode, Drain, HandleAll, DecodeAll;
      stream.Push(bytes);
      lastPushMs := nowMs;
      answers := DrainStream(nowMs);
    }

    /** Gives up a stalled partial frame a byte at a time, then lets an unconfirmed pairing expire. */
    method Tick(nowMs: U64) returns (ghost answers: seq<Answers>)
      requires Valid()
      modifies this, feed, store, stream
      ensures Valid() && lastPushMs == old(lastPushMs)
      ensures
        var idle := Elapsed(nowMs, old(lastPushMs)) >= PARTIAL_FRAME_IDLE_MS;
        var frames := if idle then Resync(old(stream.buffer)) else [];
        && stream.buffer == (if idle then [] else old(stream.buffer)) && |answers| == |DecodeAll(frames)|
        && Model() == React(HandleAll(old(Model()), DecodeAll(frames), answers), TickAt(nowMs))
      ensures forall a <- answers :: a.nowMs == nowMs
    {
      hide FramesEncode, DecodeAll, HandleAll, SendError, OpenSession;
      answers := ResyncStream(nowMs);
      if phase == AwaitingConfirmation && Elapsed(nowMs, pendingSinceMs) >= PAIRING_CONFIRM_TIMEOUT_MS {
        ghost var _ := Confirm(false);
      }
    }

    method ResyncStream(nowMs: U64) returns (ghost answers: seq<Answers>)
      requires Valid()
      modifies this, feed, store, stream
      ensures Valid() && lastPushMs == old(lastPushMs)
      ensures
        var idle := Elapsed(nowMs, old(lastPushMs)) >= PARTIAL_FRAME_IDLE_MS;
        var frames := if idle then Resync(old(stream.buffer)) else [];
        && stream.buffer == (if idle then [] else old(stream.buffer)) && |answers| == |DecodeAll(frames)|
        && Model() == HandleAll(old(Model()), DecodeAll(frames), answers)
      ensures forall a <- answers :: a.nowMs == nowMs
    {
      hide FramesEncode, DecodeFrame, DecodeAll, Handle, HandleAll, Drain;
      answers := [];
      ghost var start, before := stream.buffer, Model();
      ghost var frames: seq<seq<Byte>> := [];
      NothingHeard(before);
      while |stream.buffer| > 0 && Elapsed(nowMs, lastPushMs) >= PARTIAL_FRAME_IDLE_MS
        invariant Valid() && lastPushMs == old(lastPushMs)
        invariant Elapsed(nowMs, lastPushMs) < PARTIAL_FRAME_IDLE_MS ==> stream.buffer == start && frames == []
        invariant Elapsed(nowMs, lastPushMs) >= PARTIAL_FRAME_IDLE_MS ==> Resync(start) == frames + Resync(stream.buffer)
        invariant |answers| == |DecodeAll(frames)| && Model() == HandleAll(before, DecodeAll(frames), answers)
        invariant forall a <- answers :: a.nowMs == nowMs
        decreases |stream.buffer|
      {
        ghost var b := stream.buffer;
        stream.DropLeadingByte();
        DrainShrinks(stream.buffer);
        ghost var d := Drain(stream.buffer);
        ghost var more := DrainStream(nowMs);
        HearMany(before, frames, answers, d.frames, more);
        frames := frames + d.frames;
        answers := answers + more;
      }
      if Elapsed(nowMs, lastPushMs) >= PARTIAL_FRAME_IDLE_MS {
        assert stream.buffer == [] && Resync([]) == [];
        assert frames + [] == frames;
      }
    }

    /** The frames to write to the Host, oldest first. */
    method TakeOutgoing() returns (frames: seq<seq<Byte>>)
      requires Valid()
      modifies `outgoing, `queued
      ensures Valid() && FramesEncode(old(queued), frames) && Model() == React(old(Model()), Input.TakeOutgoing)
    {
      hide EncodeMessage;
      frames := outgoing;
      outgoing := [];
      queued := [];
    }
  }
}
