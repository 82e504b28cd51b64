/** That the Host's timed loops serve their purpose: a display that answers within the turns is connected to, or its
    refusal told; a reply within the attempts is returned, and silence is a timeout. */
module HostService {
  import opened Basics
  import opened Messages
  import opened Decode
  import opened Framing
  import opened Delivery
  import opened HostSession
  import opened HostClients
  import opened HostRetries
  import HostSpeech

  /** The bytes of one message. */
  ghost predicate Carry(bytes: seq<Byte>, m: Message) { Deliverable(m) && bytes == EncodeMessage(m).value }

  lemma SilenceDrains()
    ensures Drain([]) == Drained([], 0, []) && DecodeAll([]) == []
  {
  }

  /** Read from an empty buffer, one message is heard and nothing is left. */
  lemma OneDrains(m: Message, bytes: seq<Byte>)
    requires Carry(bytes, m)
    ensures var d := Drain([] + bytes); DecodeAll(d.frames) == [Ok(m)] && d.rest == []
  {
    hide Deliverable, EncodeMessage, DecodeFrame, Drain, FrameError;
    assert [] + bytes == bytes;
    MessageRoundTrip(m);
    SoundAlone(bytes);
    OneDecodes(bytes);
  }

  lemma OneDecodes(frame: seq<Byte>)
    ensures DecodeAll([frame]) == [DecodeFrame(frame)]
  {
    hide DecodeFrame;
    assert DecodeAll([frame]) == [DecodeFrame(frame)] + DecodeAll([]);
  }

  lemma SoundAlone(frame: seq<Byte>)
    requires FrameError(frame).None?
    ensures Drain(frame) == Drained([frame], 0, [])
  {
    SoundIsTaken(frame, []);
    assert frame + [] == frame;
    hide LookAt, FrameError;
    assert frame[..|frame|] == frame && frame[|frame|..] == [];
    NothingWaits();
  }

  lemma NothingWaits()
    ensures LookAt([]) == Wait
  {
  }

  // ---- one handshake ----

  predicate Silent(turns: seq<Turn>) { forall t <- turns :: t.bytes == [] }

  predicate OffsetsFit(turns: seq<Turn>) {
    forall t <- turns :: t.localOffset.Some? ==> -1440 <= t.localOffset.value <= 1440
  }

  /** How many Hellos these turns send: one at once, then one each time it is due. */
  function Hellos(greeted: bool, turns: seq<Turn>): nat
    decreases |turns|
  {
    if turns == [] then 0 else (if !greeted || turns[0].helloDue then 1 else 0) + Hellos(true, turns[1..])
  }

  /** The Hello of this turn, if one is sent. */
  function Greeting(c: Client, greeted: bool, t: Turn): seq<Message> {
    if Greets(c, greeted, t) then [HelloOf(Greeted(c, greeted, t), Some(t.utcMs))] else []
  }

  lemma GreetingEncodes(c: Client, greeted: bool, t: Turn)
    requires OffsetsFit([t]) && OffsetEncodes(c)
    ensures OffsetEncodes(Greeted(c, greeted, t))
    ensures EncodeMessage(HelloOf(Greeted(c, greeted, t), Some(t.utcMs))).Ok?
  {
    hide EncodeMessage;
    assert t in [t];
    HostSpeech.HelloReads(Greeted(c, greeted, t), Some(t.utcMs));
  }

  /** A turn that reads nothing changes nothing but the greeting. */
  lemma QuietTurn(c: Client, greeted: bool, turns: seq<Turn>)
    requires turns != [] && turns[0].bytes == [] && OffsetsFit([turns[0]]) && OffsetEncodes(c)
    ensures
      var t := turns[0];
      var r := Connecting(Greeted(c, greeted, t), [], greeted || Greets(c, greeted, t), turns[1..]);
      Connecting(c, [], greeted, turns) == Connected(r.result, Greeting(c, greeted, t) + r.sent)
  {
    hide EncodeMessage, Drain, DecodeAll;
    GreetingEncodes(c, greeted, turns[0]);
    SilenceDrains();
    assert [] + turns[0].bytes == [];
    assert Greeting(c, greeted, turns[0]) + [] == Greeting(c, greeted, turns[0]);
  }

  /** A turn that reads one message handles it. */
  lemma HearingTurn(c: Client, greeted: bool, turns: seq<Turn>, m: Message)
    requires turns != [] && Carry(turns[0].bytes, m) && OffsetsFit([turns[0]]) && OffsetEncodes(c)
    ensures
      var t := turns[0];
      var o := HandleMessage(Greeted(c, greeted, t), m);
      var r := Connecting(o.client, [], greeted || Greets(c, greeted, t), turns[1..]);
      Connecting(c, [], greeted, turns)
      == if VerdictOf(o.events).Some? then Connected(VerdictOf(o.events).value, Greeting(c, greeted, t) + o.sent)
         else Connected(r.result, Greeting(c, greeted, t) + o.sent + r.sent)
  {
    var t := turns[0];
    GreetingEncodes(c, greeted, t);
    OneDrains(m, t.bytes);
    var d := Greeted(c, greeted, t);
    OneHandled(d, m);
    hide EncodeMessage, Drain, DecodeAll, Carry, HandleMessage, HandleMessages, VerdictOf;
  }

  lemma OneHandled(c: Client, m: Message)
    ensures HandleMessages(c, [Ok(m)]) == HandleMessage(c, m)
  {
    hide HandleMessage;
    var first := HandleMessage(c, m);
    var ms: seq<Result<Message, Error>> := [Ok(m)];
    assert ms[1..] == [];
    assert first.sent + [] == first.sent && first.events + [] == first.events;
  }

  /** Only the phase and the clock's offset may change while Hellos go out. */
  predicate SameConnection(c: Client, d: Client) {
    d == c.(phase := d.phase, localOffsetMinutes := d.localOffsetMinutes)
  }

  predicate Opening(c: Client, greeted: bool) { c.phase == if greeted then HelloSent else Idle }

  lemma {:induction false} HelloQuiet(c: Client, greeted: bool, turns: seq<Turn>, n: nat)
    returns (d: Client, said: seq<Message>)
    requires n <= |turns| && Silent(turns[..n]) && OffsetsFit(turns) && OffsetEncodes(c) && Opening(c, greeted)
    ensures SameConnection(c, d) && OffsetEncodes(d) && Opening(d, greeted || n > 0)
    ensures |said| == Hellos(greeted, turns[..n]) && forall m <- said :: IsHello(m)
    ensures
      var r := Connecting(d, [], greeted || n > 0, turns[n..]);
      Connecting(c, [], greeted, turns) == Connected(r.result, said + r.sent)
    decreases n
  {
    hide EncodeMessage, HelloOf;
    if n == 0 {
      d, said := c, [];
      assert turns[0..] == turns && turns[..0] == [];
      var r := Connecting(c, [], greeted, turns);
      assert [] + r.sent == r.sent;
    } else {
      var t := turns[0];
      assert turns[..n][0] == t && t in turns[..n] && t in turns && turns[..n][1..] == turns[1..][..n - 1];
      FitTail(turns, n);
      QuietTurn(c, greeted, turns);
      GreetingEncodes(c, greeted, t);
      var e := Greeted(c, greeted, t);
      var more;
      d, more := HelloQuiet(e, true, turns[1..], n - 1);
      assert turns[1..][n - 1..] == turns[n..];
      said := Greeting(c, greeted, t) + more;
      hide Connecting, Hellos, Silent, OffsetsFit;
      assert Greeting(c, greeted, t) + (more + Connecting(d, [], true, turns[n..]).sent)
             == said + Connecting(d, [], true, turns[n..]).sent;
      CountHellos(c, greeted, turns[..n]);
    }
  }

  lemma CountHellos(c: Client, greeted: bool, turns: seq<Turn>)
    requires turns != [] && Opening(c, greeted)
    ensures Hellos(greeted, turns) == |Greeting(c, greeted, turns[0])| + Hellos(true, turns[1..])
    ensures forall m <- Greeting(c, greeted, turns[0]) :: IsHello(m)
  {
  }

  lemma FitTail(turns: seq<Turn>, n: nat)
    requires 0 < n <= |turns| && Silent(turns[..n]) && OffsetsFit(turns)
    ensures Silent(turns[1..][..n - 1]) && OffsetsFit(turns[1..]) && OffsetsFit([turns[0]])
  {
    assert forall t <- turns[1..] :: t in turns;
    assert forall t <- turns[1..][..n - 1] :: t in turns[..n];
    assert turns[0] in turns;
  }

  lemma {:induction false} PairQuiet(c: Client, turns: seq<Turn>, n: nat)
    requires n <= |turns| && Silent(turns[..n]) && OffsetsFit(turns) && OffsetEncodes(c) && c.phase == PairSent
    ensures Connecting(c, [], true, turns) == Connecting(c, [], true, turns[n..])
    decreases n
  {
    if n == 0 {
      assert turns[0..] == turns;
    } else {
      assert turns[..n][0] == turns[0] && turns[0] in turns[..n];
      FitTail(turns, n);
      QuietTurn(c, true, turns);
      PairQuiet(c, turns[1..], n - 1);
      assert turns[1..][n - 1..] == turns[n..];
      assert [] + Connecting(c, [], true, turns[1..]).sent == Connecting(c, [], true, turns[1..]).sent;
      hide Connecting;
    }
  }

  /** The display agrees to talk. */
  predicate Agrees(m: Message) { m.ControlMessage? && m.body.HelloReply? }

  /** The display's answer to the Pair: its own Pair, or an error. */
  predicate Answers(c: Client, m: Message) {
    && m.ControlMessage?
    && ((m.body.Pair? && m.envelope.session == c.session && m.body.pair.intendedPeerIdentity == c.host
         && m.body.pair.matchingCode == c.code)
        || m.body.ErrorReport?)
  }

  lemma AgreementHandled(c: Client, m: Message)
    requires Agrees(m) && c.phase == HelloSent && OffsetEncodes(c) && SixDigits(c.code)
    ensures
      var o := HandleMessage(c, m);
      o.client == c.(phase := PairSent) && o.sent == [PairOf(c)] && VerdictOf(o.events).None?
  {
    hide PairOf, SixDigits;
  }

  lemma AnswerHandled(c: Client, m: Message)
    requires Answers(c, m) && c.phase == PairSent
    ensures
      var o := HandleMessage(c, m);
      && o.sent == []
      && VerdictOf(o.events) == Some(if m.body.Pair? then Ok(m.body.pair.pairingIdentity)
                                     else Err(RefusedBy(RefusalFrom(m.body.bytes))))
  {
  }

  lemma AgreementHeard(c: Client, greeted: bool, turns: seq<Turn>, m: Message) returns (d: Client)
    requires turns != [] && Carry(turns[0].bytes, m) && Agrees(m) && OffsetsFit(turns) && OffsetEncodes(c)
    requires Opening(c, greeted) && SixDigits(c.code)
    ensures SameConnection(c, d) && d.phase == PairSent && OffsetEncodes(d)
    ensures
      var r := Connecting(d, [], true, turns[1..]);
      Connecting(c, [], greeted, turns)
      == Connected(r.result, Greeting(c, greeted, turns[0]) + [PairOf(Greeted(c, greeted, turns[0]))] + r.sent)
  {
    hide Connecting, Carry, SixDigits, EncodeMessage, HelloOf, PairOf;
    assert turns[0] in turns;
    HearingTurn(c, greeted, turns, m);
    GreetingEncodes(c, greeted, turns[0]);
    AgreementHandled(Greeted(c, greeted, turns[0]), m);
    d := Greeted(c, greeted, turns[0]).(phase := PairSent);
    hide HandleMessage;
  }

  lemma AnswerHeard(c: Client, turns: seq<Turn>, m: Message)
    requires turns != [] && Carry(turns[0].bytes, m) && Answers(c, m) && OffsetsFit(turns) && OffsetEncodes(c)
    requires c.phase == PairSent
    ensures Connecting(c, [], true, turns)
            == Connected(if m.body.Pair? then Ok(m.body.pair.pairingIdentity) else Err(RefusedBy(RefusalFrom(m.body.bytes))),
                         [])
  {
    hide Connecting, Carry, EncodeMessage, HelloOf;
    assert turns[0] in turns;
    HearingTurn(c, true, turns, m);
    AnswerHandled(c, m);
    hide HandleMessage, VerdictOf;
  }

  /** A display that agrees in turn `i` and answers the Pair in turn `j`, silent until then, is connected to, or its
      refusal is what the caller is told, whatever comes later; the Host has sent a Hello at once and whenever one was
      due until turn `i`, and then one Pair. */
  lemma ConnectsInTime(c: Client, turns: seq<Turn>, i: nat, j: nat, agreed: Message, answer: Message)
    requires c.phase == Idle && SixDigits(c.code) && OffsetEncodes(c) && OffsetsFit(turns) && i < j < |turns|
    requires Silent(turns[..i]) && Silent(turns[i + 1..j])
    requires Carry(turns[i].bytes, agreed) && Agrees(agreed) && Carry(turns[j].bytes, answer) && Answers(c, answer)
    ensures
      var r := Connecting(c, [], false, turns);
      && r.result == (if answer.body.Pair? then Ok(answer.body.pair.pairingIdentity)
                      else Err(RefusedBy(RefusalFrom(answer.body.bytes))))
      && |r.sent| == Hellos(false, turns[..i + 1]) + 1
      && (forall k | 0 <= k < |r.sent| - 1 :: IsHello(r.sent[k])) && IsPair(r.sent[|r.sent| - 1])
  {
    hide Connecting, Carry, Silent, OffsetsFit, Hellos, PairOf, HelloOf, SixDigits, OffsetEncodes, RefusalFrom;
    FitFrom(turns, i);
    var d, said := HelloQuiet(c, false, turns, i);
    assert turns[i..][0] == turns[i] && turns[i..][1..] == turns[i + 1..];
    var e := AgreementHeard(d, i > 0, turns[i..], agreed);
    FitFrom(turns, i + 1);
    assert turns[i + 1..][..j - i - 1] == turns[i + 1..j] && turns[i + 1..][j - i - 1..] == turns[j..];
    PairQuiet(e, turns[i + 1..], j - i - 1);
    FitFrom(turns, j);
    assert turns[j..][0] == turns[j];
    AnswerHeard(e, turns[j..], answer);
    var g := Greeting(d, i > 0, turns[i]);
    var last := PairOf(Greeted(d, i > 0, turns[i]));
    var sent := Connecting(c, [], false, turns).sent;
    assert sent == said + (g + [last] + []);
    assert |sent| == |said| + |g| + 1 && sent[|sent| - 1] == last && sent[..|sent| - 1] == said + g;
    HellosJoin(d, turns, i);
    IsPairOf(Greeted(d, i > 0, turns[i]));
    forall k | 0 <= k < |sent| - 1 ensures IsHello(sent[k]) { assert sent[k] == (said + g)[k]; }
  }

  lemma IsPairOf(c: Client)
    ensures IsPair(PairOf(c))
  {
  }

  lemma FitFrom(turns: seq<Turn>, i: nat)
    requires OffsetsFit(turns) && i <= |turns|
    ensures OffsetsFit(turns[i..])
  {
    assert forall t <- turns[i..] :: t in turns;
  }

  lemma HellosJoin(d: Client, turns: seq<Turn>, i: nat)
    requires i < |turns| && Opening(d, i > 0)
    ensures Hellos(false, turns[..i + 1]) == Hellos(false, turns[..i]) + |Greeting(d, i > 0, turns[i])|
    ensures forall m <- Greeting(d, i > 0, turns[i]) :: IsHello(m)
  {
    HellosOneMore(false, turns, i);
  }

  lemma {:induction false} HellosOneMore(greeted: bool, turns: seq<Turn>, i: nat)
    requires i < |turns|
    ensures Hellos(greeted, turns[..i + 1])
            == Hellos(greeted, turns[..i]) + if !(greeted || i > 0) || turns[i].helloDue then 1 else 0
    decreases i
  {
    if i == 0 {
      assert turns[..1][1..] == [] && turns[..1][0] == turns[0] && turns[..0] == [];
    } else {
      HellosOneMore(true, turns[1..], i - 1);
      assert turns[..i + 1][1..] == turns[1..][..i] && turns[..i][1..] == turns[1..][..i - 1];
      assert turns[..i + 1][0] == turns[0] == turns[..i][0] && turns[1..][i - 1] == turns[i];
    }
  }

  /** A display that never answers is a timeout, and has been sent nothing but Hellos. */
  lemma SilenceTimesOut(c: Client, turns: seq<Turn>)
    requires c.phase == Idle && OffsetEncodes(c) && OffsetsFit(turns) && Silent(turns)
    ensures
      var r := Connecting(c, [], false, turns);
      && r.result == Err(Timeout) && |r.sent| == Hellos(false, turns) && forall m <- r.sent :: IsHello(m)
  {
    hide Hellos, Silent, OffsetsFit;
    assert turns[..|turns|] == turns && turns[|turns|..] == [];
    var d, said := HelloQuiet(c, false, turns, |turns|);
    assert said + [] == said;
  }

  // ---- one command ----

  predicate Quiet(chunks: seq<seq<Byte>>) { forall chunk <- chunks :: chunk == [] }

  predicate AllQuiet(tries: seq<seq<seq<Byte>>>) { forall chunks <- tries :: Quiet(chunks) }

  /** The display's reply to this command, in the Host's session. */
  predicate RepliesTo(c: Client, identity: U32, m: Message) {
    && m.ControlMessage? && m.body.CommandReply? && m.envelope.session == c.session
    && m.body.reply.commandIdentity == identity
  }

  lemma {:induction false} ListensQuietly(c: Client, chunks: seq<seq<Byte>>, n: nat, identity: U32)
    requires n <= |chunks| && Quiet(chunks[..n])
    ensures Listen(c, [], chunks, identity) == Listen(c, [], chunks[n..], identity)
    decreases n
  {
    if n == 0 {
      assert chunks[0..] == chunks;
    } else {
      assert chunks[..n][0] == chunks[0] && chunks[0] in chunks[..n];
      var (head, tail) := (chunks[..n], chunks[1..][..n - 1]);
      forall j | 0 <= j < |tail| ensures tail[j] == [] { assert head[j + 1] == tail[j] && head[j + 1] in head; }
      SilenceDrains();
      assert [] + chunks[0] == [];
      hide Drain, DecodeAll;
      ListensQuietly(c, chunks[1..], n - 1, identity);
      assert chunks[1..][n - 1..] == chunks[n..];
    }
  }

  lemma ReplyIsHeard(c: Client, chunks: seq<seq<Byte>>, m: Message, identity: U32)
    requires chunks != [] && Carry(chunks[0], m) && RepliesTo(c, identity, m) && c.phase == Live
    ensures Listen(c, [], chunks, identity).answer == Some(m.body.reply.result)
  {
    hide Carry, Drain, DecodeAll, HandleMessages;
    OneDrains(m, chunks[0]);
    OneHandled(c, m);
  }

  lemma QuietAttempt(c: Client, tries: seq<seq<seq<Byte>>>, identity: U32, operation: CommandOperation)
    requires tries != [] && Quiet(tries[0]) && c.phase == Live && OffsetEncodes(c)
    ensures
      var r := Attempts(Advance(c), [], tries[1..], identity, operation);
      Attempts(c, [], tries, identity, operation) == Attempted(r.answer, [CommandOf(c, identity, operation)] + r.sent)
  {
    hide EncodeMessage, Quiet, CommandOf;
    var n := |tries[0]|;
    assert tries[0][..n] == tries[0] && tries[0][n..] == [];
    ListensQuietly(c, tries[0], n, identity);
    CommandEncodes(c, identity, operation);
  }

  lemma CommandEncodes(c: Client, identity: U32, operation: CommandOperation)
    requires OffsetEncodes(c)
    ensures EncodeMessage(CommandOf(c, identity, operation)).Ok?
  {
    hide EncodeControl;
    ControlEncodes(CommandOf(c, identity, operation).envelope, CommandOf(c, identity, operation).body);
  }

  lemma {:induction false} QuietAttempts(c: Client, tries: seq<seq<seq<Byte>>>, k: nat, identity: U32,
                                         operation: CommandOperation) returns (d: Client, said: seq<Message>)
    requires k <= |tries| && AllQuiet(tries[..k]) && c.phase == Live && OffsetEncodes(c)
    ensures d == c.(sequence := d.sequence) && |said| == k
    ensures
      var r := Attempts(d, [], tries[k..], identity, operation);
      Attempts(c, [], tries, identity, operation) == Attempted(r.answer, said + r.sent)
    decreases k
  {
    hide Attempts, Quiet, CommandOf;
    if k == 0 {
      d, said := c, [];
      assert tries[0..] == tries;
      assert [] + Attempts(c, [], tries, identity, operation).sent == Attempts(c, [], tries, identity, operation).sent;
    } else {
      assert tries[..k][0] == tries[0] && tries[0] in tries[..k];
      assert forall chunks <- tries[1..][..k - 1] :: chunks in tries[..k];
      QuietAttempt(c, tries, identity, operation);
      var more;
      d, more := QuietAttempts(Advance(c), tries[1..], k - 1, identity, operation);
      assert tries[1..][k - 1..] == tries[k..];
      said := [CommandOf(c, identity, operation)] + more;
      var r := Attempts(d, [], tries[k..], identity, operation);
      assert said + r.sent == [CommandOf(c, identity, operation)] + (more + r.sent);
    }
  }

  /** A reply that comes in attempt `k`, after silence, is what the caller is given; the command has been sent again
      once for each attempt before, and not again. */
  lemma AnsweredInTime(c: Client, tries: seq<seq<seq<Byte>>>, k: nat, n: nat, m: Message, identity: U32,
                       operation: CommandOperation)
    requires c.phase == Live && OffsetEncodes(c) && k < |tries| && AllQuiet(tries[..k])
    requires n < |tries[k]| && Quiet(tries[k][..n]) && Carry(tries[k][n], m) && RepliesTo(c, identity, m)
    ensures
      var r := Attempts(c, [], tries, identity, operation);
      && r.answer == Some(m.body.reply.result) && |r.sent| == k
      && forall x <- r.sent :: IsCopyOf(x, c.session, CommandBody(identity, operation))
  {
    RetriesAreCopies(c, [], tries, identity, operation);
    hide Carry, Quiet, AllQuiet, IsCopyOf, EncodeMessage;
    var d, said := QuietAttempts(c, tries, k, identity, operation);
    assert tries[k..][0] == tries[k] && tries[k][n..][0] == tries[k][n];
    ListensQuietly(d, tries[k], n, identity);
    ReplyIsHeard(d, tries[k][n..], m, identity);
    assert Attempts(d, [], tries[k..], identity, operation).sent == [];
    assert said + [] == said;
  }

  /** Silence in every attempt is a timeout, after as many retries as attempts. */
  lemma SilenceIsTimeout(c: Client, tries: seq<seq<seq<Byte>>>, identity: U32, operation: CommandOperation)
    requires c.phase == Live && OffsetEncodes(c) && AllQuiet(tries)
    ensures
      var r := Attempts(c, [], tries, identity, operation);
      r.answer.None? && |r.sent| == |tries|
  {
    hide AllQuiet;
    assert tries[..|tries|] == tries && tries[|tries|..] == [];
    var d, said := QuietAttempts(c, tries, |tries|, identity, operation);
    assert said + [] == said;
  }
}
