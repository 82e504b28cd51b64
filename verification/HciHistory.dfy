/** What a bystander who sees every call and every event can tell of the tracker: the credit it has, the
    answer it gives, and the life of a command from its issue to its outcome. */
module HciHistory {
  import opened Basics
  import opened HciEvents
  import opened HciTracker
  import opened HciBoot

  /** Any call of the tracker, in any order. */
  datatype Input =
    | Asked(opcode: U16, now: U64, timeout: U64)
    | Begun(now: U64)
    | Marked(sendUs: U64)
    | Polled(now: U64)
    | Heard(event: Event, now: U64, arrival: U64)
    | WasReset

  function React(t: State, i: Input): (r: State)
    requires t.Shaped()
    ensures r.Shaped()
  {
    match i
    case Asked(opcode, now, timeout) => Issue(t, opcode, now, timeout).0
    case Begun(now) => TryBeginSend(t, now)
    case Marked(sendUs) => MarkSent(t, sendUs)
    case Polled(now) => Poll(t, now).0
    case Heard(e, now, arrival) => OnEvent(t, e, now, arrival).0
    case WasReset => ResetController(t)
  }

  function Reach(t: State, run: seq<Input>): (r: State)
    requires t.Shaped()
    ensures r.Shaped()
    decreases |run|
  {
    if run == [] then t else Reach(React(t, run[0]), run[1..])
  }

  // ---- credit: section 4.4 of Core v5.x Vol 4 Part E ----

  /** A grant replaces what was left of the one before it. It is shared with a command already out, if
      the event that brings it leaves that command without its outcome. */
  datatype Note = Granted(count: Byte, shared: bool) | Departed | Restored

  /** An answer to the pending command's opcode from before the command left. */
  predicate Stale(t: State, e: Event, arrival: U64) {
    && t.pending && (t.sent || t.reserved) && e.opcode == t.opcode && e.opcode != 0
    && (e.kind == Complete || (e.kind == Status && e.status != 0)) && arrival < t.floorUs
  }

  function NotesOf(t: State, i: Input): seq<Note>
    requires t.Shaped()
  {
    match i
    case Begun(now) => if CanBegin(t, now) then [Departed] else []
    case Heard(e, now, arrival) =>
      var u := Poll(t, now).0;
      if (e.kind != Complete && e.kind != Status) || Stale(u, e, arrival) then []
      else [Granted(e.credit, u.Engaged() && React(t, i).Engaged())]
    case WasReset => [Restored]
    case _ => []
  }

  function Notes(t: State, run: seq<Input>): seq<Note>
    requires t.Shaped()
    decreases |run|
  {
    if run == [] then [] else NotesOf(t, run[0]) + Notes(React(t, run[0]), run[1..])
  }

  /** What the last grant leaves for new commands; a controller just reset takes one. */
  function LastGrant(ns: seq<Note>): nat {
    if ns == [] then 1
    else match ns[|ns| - 1]
      case Granted(count, shared) => if shared && count > 0 then count - 1 else count
      case Restored => 1
      case Departed => LastGrant(ns[..|ns| - 1])
  }

  /** The commands that left since. */
  function SentSince(ns: seq<Note>): nat {
    if ns != [] && ns[|ns| - 1].Departed? then 1 + SentSince(ns[..|ns| - 1]) else 0
  }

  /** A pending opcode is under no quarantine. */
  predicate Clear(t: State)
    requires t.Shaped()
  {
    t.pending ==> !t.quarantined[Index(t.opcode).value]
  }

  lemma StaysClear(t: State, i: Input)
    requires t.Shaped() && Clear(t)
    ensures Clear(React(t, i))
  {
    if i.Heard? {
      PollClears(t, i.now);
      hide Poll;
      if i.event.kind == Complete || i.event.kind == Status { EventStaysClear(Poll(t, i.now).0, i.event, i.now, i.arrival); }
      hide OnCommandEvent;
    } else if i.Polled? {
      PollClears(t, i.now);
    }
  }

  lemma PollClears(t: State, now: U64)
    requires t.Shaped() && Clear(t)
    ensures Clear(Poll(t, now).0) && Poll(t, now).0.credit == t.credit
  {
  }

  lemma EventStaysClear(t: State, e: Event, now: U64, arrival: U64)
    requires t.Shaped() && Clear(t) && (e.kind == Complete || e.kind == Status)
    ensures Clear(OnCommandEvent(t, e, now, arrival).0)
  {
  }

  /** An event the tracker does not discard brings the credit it names, less one for a command that stays out. */
  lemma EventCredit(t: State, e: Event, now: U64, arrival: U64)
    requires t.Shaped() && Clear(t) && (e.kind == Complete || e.kind == Status)
    ensures
      var v := OnCommandEvent(t, e, now, arrival).0;
      if Stale(t, e, arrival) then v == t.(stale := v.stale)
      else v.credit == if t.Engaged() && v.Engaged() && e.credit > 0 then e.credit - 1 else e.credit
  {
    hide Index;
  }

  lemma StepCredit(t: State, i: Input, ns: seq<Note>)
    requires t.Shaped() && Clear(t) && t.credit == LastGrant(ns) - SentSince(ns)
    ensures React(t, i).credit == LastGrant(ns + NotesOf(t, i)) - SentSince(ns + NotesOf(t, i))
    ensures NotesOf(t, i) == [Departed] ==> SentSince(ns) < LastGrant(ns)
    ensures |NotesOf(t, i)| <= 1
  {
    if i.Heard? {
      PollClears(t, i.now);
      if i.event.kind == Complete || i.event.kind == Status { EventCredit(Poll(t, i.now).0, i.event, i.now, i.arrival); }
      hide OnCommandEvent, Poll;
    }
    var more := NotesOf(t, i);
    if more == [] {
      assert ns + more == ns;
    } else {
      assert (ns + more)[..|ns|] == ns && (ns + more)[|ns|] == more[0];
    }
  }

  /** No command leaves without a grant. */
  predicate Lawful(ns: seq<Note>) {
    forall k | 0 <= k < |ns| && ns[k] == Departed :: SentSince(ns[..k]) < LastGrant(ns[..k])
  }

  lemma LawfulGrows(ns: seq<Note>, more: seq<Note>)
    requires Lawful(ns) && |more| <= 1 && (more == [Departed] ==> SentSince(ns) < LastGrant(ns))
    ensures Lawful(ns + more)
  {
    forall k | 0 <= k < |ns + more| && (ns + more)[k] == Departed
      ensures SentSince((ns + more)[..k]) < LastGrant((ns + more)[..k])
    {
      if k < |ns| { assert (ns + more)[..k] == ns[..k] && ns[k] == Departed; } else { assert (ns + more)[..k] == ns; }
    }
    hide SentSince, LastGrant;
  }

  lemma Rejoined(a: seq<Note>, b: seq<Note>, c: seq<Note>)
    ensures a + b + c == a + (b + c)
  {
  }

  lemma {:induction false} RunCredit(t: State, run: seq<Input>, ns: seq<Note>)
    requires t.Shaped() && Clear(t) && Lawful(ns) && t.credit == LastGrant(ns) - SentSince(ns)
    ensures
      var all := ns + Notes(t, run);
      Clear(Reach(t, run)) && Reach(t, run).credit == LastGrant(all) - SentSince(all) && Lawful(all)
    decreases |run|
  {
    if run == [] {
      assert ns + Notes(t, run) == ns;
    } else {
      var i := run[0];
      hide React, NotesOf, LastGrant, SentSince, Clear, Lawful;
      StepCredit(t, i, ns);
      StaysClear(t, i);
      LawfulGrows(ns, NotesOf(t, i));
      RunCredit(React(t, i), run[1..], ns + NotesOf(t, i));
      Rejoined(ns, NotesOf(t, i), Notes(React(t, i), run[1..]));
    }
  }

  /** From power-on, over any calls at any times: the credit is what the last grant left less the commands sent
      since, and no command leaves without a grant. */
  lemma CreditIsGranted(run: seq<Input>)
    ensures
      var ns := Notes(FRESH, run);
      && SentSince(ns) <= LastGrant(ns) && Reach(FRESH, run).credit == LastGrant(ns) - SentSince(ns)
      && forall k | 0 <= k < |ns| && ns[k] == Departed :: SentSince(ns[..k]) < LastGrant(ns[..k])
  {
    RunCredit(FRESH, run, []);
    assert [] + Notes(FRESH, run) == Notes(FRESH, run);
    hide Reach, Notes, SentSince, LastGrant;
  }

  /** Another command's answer to `opcode` may still be on its way. */
  predicate Held(t: State, opcode: U16, now: U64)
    requires t.Shaped()
  {
    Index(opcode).Some? && t.quarantined[Index(opcode).value] && now < t.quarantineUntil[Index(opcode).value]
  }

  /** What the tracker answers, at any point of any run: a command it knows, with a timeout the clock can hold,
      is issued exactly when none is pending, its opcode is not held and a grant is left. */
  lemma IssueIsGranted(run: seq<Input>, opcode: U16, now: U64, timeout: U64)
    requires Index(opcode).Some? && timeout > 0 && now + timeout <= U64_MAX
    ensures
      var (t, ns) := (Reach(FRESH, run), Notes(FRESH, run));
      var answer := Issue(t, opcode, now, timeout).1;
      && (answer == Busy <==> t.pending)
      && (answer == Quarantined <==> !t.pending && Held(t, opcode, now))
      && (answer == Issued <==> !t.pending && !Held(t, opcode, now) && SentSince(ns) < LastGrant(ns))
      && (answer == NeedsControllerReset ==> forall o: U16 :: !Held(t, o, now))
      && (answer == NoCredit ==> exists j | 0 <= j < SLOTS :: t.quarantined[j] && now < t.quarantineUntil[j])
      && answer != Invalid
  {
    CreditIsGranted(run);
    hide Notes, LastGrant, SentSince, Reach;
  }

  // ---- every answer is accounted for ----

  /** An event that answers some command. */
  predicate IsAnswer(i: Input) {
    i.Heard? && i.event.opcode != 0 && (i.event.kind == Complete || (i.event.kind == Status && i.event.status != 0))
  }

  predicate EndsCommand(t: State, i: Input)
    requires t.Shaped()
  {
    i.Heard? && OnEvent(t, i.event, i.now, i.arrival).1.outcome in {HciTracker.Completed, RejectedBy}
  }

  function Answered(run: seq<Input>): nat {
    if run == [] then 0 else (if IsAnswer(run[0]) then 1 else 0) + Answered(run[1..])
  }

  function Ended(t: State, run: seq<Input>): nat
    requires t.Shaped()
    decreases |run|
  {
    if run == [] then 0 else (if EndsCommand(t, run[0]) then 1 else 0) + Ended(React(t, run[0]), run[1..])
  }

  function Counted(t: State): nat { t.stale + t.late + t.unexpected }

  lemma PollCounts(t: State, now: U64)
    requires t.Shaped()
    ensures Counted(Poll(t, now).0) == Counted(t) && Poll(t, now).1.outcome in {NoOutcome, TimedOut}
  {
    hide Index;
  }

  lemma EventCounts(t: State, e: Event, now: U64, arrival: U64)
    requires t.Shaped() && Counted(t) < U64_MAX && (e.kind == Complete || e.kind == Status)
    ensures
      var (v, r) := OnCommandEvent(t, e, now, arrival);
      && r.outcome in {NoOutcome, HciTracker.Completed, RejectedBy}
      && Counted(v) + (if r.outcome == NoOutcome then 0 else 1)
         == Counted(t) + if e.opcode != 0 && (e.kind == Complete || e.status != 0) then 1 else 0
  {
    hide Index;
  }

  lemma StepCounts(t: State, i: Input)
    requires t.Shaped() && Counted(t) < U64_MAX
    ensures Counted(React(t, i)) + (if EndsCommand(t, i) then 1 else 0) == Counted(t) + if IsAnswer(i) then 1 else 0
  {
    if i.Heard? {
      PollCounts(t, i.now);
      var u := Poll(t, i.now).0;
      if i.event.kind == Complete || i.event.kind == Status { EventCounts(u, i.event, i.now, i.arrival); }
      hide Poll, OnCommandEvent, Counted;
    } else {
      if i.Polled? { PollCounts(t, i.now); }
      hide Index, Poll, Expire;
    }
  }

  /** Every answer heard ends a command or is counted, once, as stale, late or unexpected. */
  lemma {:induction false} AnswersAccountedFor(t: State, run: seq<Input>)
    requires t.Shaped() && Counted(t) + |run| <= U64_MAX
    ensures Counted(Reach(t, run)) + Ended(t, run) == Counted(t) + Answered(run)
    decreases |run|
  {
    if run != [] {
      StepCounts(t, run[0]);
      hide React, IsAnswer, EndsCommand, Counted;
      assert Counted(React(t, run[0])) <= Counted(t) + 1;
      AnswersAccountedFor(React(t, run[0]), run[1..]);
    }
  }

  // ---- the life of a command ----

  /** Times for one command: asked for, given to the transport, out, and answered. */
  datatype Life = Life(opcode: U16, timeout: U64, askedUs: U64, begunUs: U64, sentUs: U64)
  {
    function Deadline(): int { askedUs + timeout }

    /** When the packet can have been out at the earliest. */
    function LeftUs(): U64 { Max(begunUs, sentUs) }

    function Calls(): seq<Input> { [Asked(opcode, askedUs, timeout), Begun(begunUs), Marked(sentUs)] }
  }

  /** The tracker can take the command. */
  predicate Takes(t: State, l: Life) {
    && t.Shaped() && !t.pending && Index(l.opcode).Some? && l.timeout > 0 && l.Deadline() <= U64_MAX
    && t.credit > 0 && !Held(t, l.opcode, l.askedUs) && l.askedUs <= l.begunUs <= l.Deadline()
  }

  /** The command is out. */
  predicate Out(t: State, u: State, l: Life)
    requires t.Shaped()
  {
    && u.Shaped() && Clear(u) && u.Engaged() && u.opcode == l.opcode && u.deadline == l.Deadline() && u.timeout == l.timeout
    && u.floorUs == l.LeftUs() && u.credit == t.credit - 1 && u.quarantined == Expire(t, l.askedUs)
    && u.quarantineUntil == t.quarantineUntil && u.stale == t.stale && u.late == t.late && u.unexpected == t.unexpected
  }

  lemma CommandLeaves(t: State, l: Life)
    requires Takes(t, l)
    ensures Out(t, Reach(t, l.Calls()), l)
  {
    var calls := l.Calls();
    var u := React(t, calls[0]);
    var v := React(u, calls[1]);
    assert calls[1..][1..] == [calls[2]] && calls[1..][0] == calls[1] && [calls[2]][1..] == [];
    assert CanBegin(u, l.begunUs);
    assert Reach(t, calls) == React(v, calls[2]) by {
      hide React;
      assert Reach(v, [calls[2]]) == React(v, calls[2]) by { assert Reach(React(v, calls[2]), []) == React(v, calls[2]); }
      assert Reach(u, calls[1..]) == Reach(v, [calls[2]]);
    }
  }

  /** An answer to the command. */
  predicate Answers(e: Event, l: Life) {
    && e.opcode == l.opcode && e.opcode != 0 && (e.kind == Complete || (e.kind == Status && e.status != 0))
  }

  /** What becomes of a command that is out when an answer to its opcode is heard: after its deadline it times
      out; before, an answer that came before it left is counted and otherwise ignored, and any other ends it with
      the status it bears, a failure as a rejection, and brings its credit. */
  lemma AnswerEndsCommand(t: State, u: State, l: Life, e: Event, now: U64, arrival: U64)
    requires t.Shaped() && Out(t, u, l) && Answers(e, l)
    ensures
      var (v, r) := OnEvent(u, e, now, arrival);
      if now > l.Deadline() then r == HciTracker.Result(TimedOut, 0) && !v.pending
      else if arrival < l.LeftUs() then r == NO_RESULT && v == u.(stale := Inc64(u.stale))
      else
        && r == HciTracker.Result(if e.status == 0 then HciTracker.Completed else RejectedBy, e.status)
        && !v.pending && v.credit == e.credit
        && (forall o: U16, at: U64 :: Held(v, o, at) ==> Held(u, o, at))
  {
    hide Index;
  }

  /** A command that is out and not answered times out at the first look at the clock past its deadline, and not
      before. Its opcode is then held for exactly twice its timeout, as far as the clock reaches. */
  lemma SilenceHoldsOpcode(t: State, u: State, l: Life, now: U64)
    requires t.Shaped() && Out(t, u, l)
    ensures
      var (v, r) := Poll(u, now);
      if now <= l.Deadline() then v == u && r == NO_RESULT
      else
        && r == HciTracker.Result(TimedOut, 0) && !v.pending && v.credit == u.credit
        && (forall at: U64 :: Held(v, l.opcode, at) <==> at < now + 2 * l.timeout && at < U64_MAX)
        && (forall o: U16, at: U64 | o != l.opcode :: Held(v, o, at) <==> Held(u, o, at))
  {
    OthersUntouched(l.opcode);
    assert Index(l.opcode).Some?;
    hide Index;
  }

  lemma OthersUntouched(opcode: U16)
    ensures forall o: U16 | o != opcode && Index(o).Some? :: Index(o) != Index(opcode)
  {
  }

  // ---- the boot ----

  /** One command answered in time and with success by a controller that then takes another. */
  datatype Exchange = Exchange(life: Life, reply: Event, heardUs: U64, arrivalUs: U64)
  {
    predicate Succeeds() {
      && Answers(reply, life) && reply.kind == Complete && reply.status == 0 && reply.credit > 0
      && heardUs <= life.Deadline() && life.LeftUs() <= arrivalUs
    }
  }

  const BOOT_COMMANDS: seq<U16> := [0x0C03, 0x0C01, 0x2001, 0x200B]

  predicate BootsWith(xs: seq<Exchange>) {
    && |xs| == STEPS
    && forall k | 0 <= k < STEPS ::
         && xs[k].life.opcode == BOOT_COMMANDS[k] && xs[k].Succeeds() && xs[k].life.timeout > 0
         && xs[k].life.askedUs <= xs[k].life.begunUs <= xs[k].life.Deadline() <= U64_MAX
  }

  function AfterExchange(t: State, b: Boot, x: Exchange): (r: (State, Boot))
    requires t.Shaped()
    ensures r.0.Shaped()
  {
    var u := Reach(t, x.life.Calls());
    var (v, result) := OnEvent(u, x.reply, x.heardUs, x.arrivalUs);
    (v, OnResult(b, result))
  }

  function AfterExchanges(t: State, b: Boot, xs: seq<Exchange>): (r: (State, Boot))
    requires t.Shaped()
    decreases |xs|
  {
    if xs == [] then (t, b)
    else
      var (u, c) := AfterExchange(t, b, xs[0]);
      AfterExchanges(u, c, xs[1..])
  }

  /** Nothing pending, nothing held, and credit. */
  predicate Free(t: State) {
    t.Shaped() && !t.pending && t.credit > 0 && forall j | 0 <= j < SLOTS :: !t.quarantined[j]
  }

  lemma ExchangeAdvances(t: State, b: Boot, x: Exchange)
    requires Free(t) && Current(b) && x.Succeeds() && Index(x.life.opcode).Some? && x.life.timeout > 0
    requires x.life.askedUs <= x.life.begunUs <= x.life.Deadline() <= U64_MAX
    ensures
      var (u, c) := AfterExchange(t, b, x);
      Free(u) && c == b.(index := b.index + 1)
  {
    CommandLeaves(t, x.life);
    var u := Reach(t, x.life.Calls());
    AnswerEndsCommand(t, u, x.life, x.reply, x.heardUs, x.arrivalUs);
    hide Reach, Index;
  }

  lemma {:induction false} ExchangesAdvance(t: State, b: Boot, xs: seq<Exchange>)
    requires Free(t) && b.failure.None? && b.index + |xs| == STEPS
    requires forall x <- xs :: x.Succeeds() && Index(x.life.opcode).Some? && x.life.timeout > 0
                               && x.life.askedUs <= x.life.begunUs <= x.life.Deadline() <= U64_MAX
    ensures
      var (u, c) := AfterExchanges(t, b, xs);
      Free(u) && c == Boot(STEPS, None)
    decreases |xs|
  {
    if xs != [] {
      ExchangeAdvances(t, b, xs[0]);
      hide AfterExchange, Exchange.Succeeds, Index;
      var (u, c) := AfterExchange(t, b, xs[0]);
      ExchangesAdvance(u, c, xs[1..]);
    }
  }

  /** From power-on, four commands each completed in time with credit for another boot the controller. */
  lemma BootsFromPowerOn(interval: U16, window: U16, xs: seq<Exchange>)
    requires 4 <= window <= interval <= 0x4000 && BootsWith(xs)
    ensures
      var (t, b) := AfterExchanges(FRESH, NewBoot(interval, window), xs);
      b == Boot(STEPS, None) && !t.pending && t.credit > 0
  {
    hide Exchange.Succeeds;
    assert Free(FRESH);
    ExchangesAdvance(FRESH, NewBoot(interval, window), xs);
    hide AfterExchanges;
  }
}
