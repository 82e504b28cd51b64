/** What follows when a late reply ends another command's quarantine, and how a caller keeps that
    from happening. */
module HciCrossing {
  import opened Basics
  import opened HciEvents
  import opened HciTracker
  import opened HciProtocol

  /** Some legal continuation ends in a completion by another command's reply. */
  ghost predicate GoesWrong(w: World)
    requires w.tracker.Shaped()
  {
    exists run: seq<Action> {:trigger LegalRun(w, run)} :: LegalRun(w, run) && !AllRight(w, run)
  }

  /** One does so without a further crossing. */
  ghost predicate MayGoWrong(w: World)
    requires w.tracker.Shaped()
  {
    exists run: seq<Action> {:trigger LegalRun(w, run)} :: LegalRun(w, run) && NeverCrosses(w, run) && !AllRight(w, run)
  }

  lemma Before(w: World, a: Action, run: seq<Action>)
    requires w.tracker.Shaped() && Legal(w, a) && !Crosses(w, a)
    requires LegalRun(Next(w, a), run) && NeverCrosses(Next(w, a), run) && !AllRight(Next(w, a), run)
    ensures LegalRun(w, [a] + run) && NeverCrosses(w, [a] + run) && !AllRight(w, [a] + run)
  {
    hide Legal, Wrong, Next, Crosses;
    assert ([a] + run)[1..] == run;
  }

  lemma MayGoWrongBefore(w: World, a: Action)
    requires w.tracker.Shaped() && Legal(w, a) && !Crosses(w, a) && MayGoWrong(Next(w, a))
    ensures MayGoWrong(w)
  {
    hide Legal, Wrong, Next, Crosses, LegalRun, NeverCrosses, AllRight;
    var run :| LegalRun(Next(w, a), run) && NeverCrosses(Next(w, a), run) && !AllRight(Next(w, a), run);
    Before(w, a, run);
  }

  // ---- an exposed reply, with nothing pending ----

  const CREDIT := Event(Complete, 0x0E, 0, 1, 0)

  /** An old reply can still come, and its opcode is under no quarantine and not pending. */
  predicate Loose(w: World, o: Id, opcode: U16) {
    && w.tracker.Shaped() && |w.owner| == SLOTS && Index(opcode).Some?
    && !w.tracker.quarantined[Index(opcode).value]
    && (w.tracker.pending <==> w.current.Some?)
    && (w.tracker.pending ==> w.tracker.opcode != opcode)
    && o < w.nextId && w.current != Some(o) && o in w.flights && w.flights[o].opcode == opcode
    && w.flights[o].until.Some? && w.flights[o].until.value > w.clock
  }

  /** The controller completes the next command of that opcode with the old reply. */
  function WrongRun(now: U64, o: Id, opcode: U16): seq<Action>
    requires now < U64_MAX
  {
    [DoDeliver(CREDIT, now, now, None), DoIssue(opcode, now, 1), DoBegin(now),
     DoDeliver(Event(Complete, 0x0E, 0, 1, opcode), now, now, Some(o))]
  }

  lemma CreditArrives(w: World, o: Id, opcode: U16)
    requires Loose(w, o, opcode) && (w.tracker.pending ==> w.clock <= w.tracker.deadline)
    ensures
      var a := DoDeliver(CREDIT, w.clock, w.clock, None);
      var v := Next(w, a);
      && Legal(w, a) && !Crosses(w, a)
      && Loose(v, o, opcode) && v == w.(tracker := v.tracker)
      && v.tracker == w.tracker.(credit := v.tracker.credit) && (!w.tracker.Engaged() ==> v.tracker.credit == 1)
  {
  }

  lemma SameOpcodeIssued(w: World, o: Id, opcode: U16)
    requires Loose(w, o, opcode) && !w.tracker.pending && w.tracker.credit > 0
    ensures
      var a := DoIssue(opcode, w.clock, 1);
      var v := Next(w, a);
      && Legal(w, a) && !Crosses(w, a)
      && v.tracker.pending && !v.tracker.sent && !v.tracker.reserved && v.tracker.opcode == opcode
      && v.tracker.deadline == w.clock + 1 && v.tracker.credit > 0 && v.current == Some(w.nextId)
      && v.flights == w.flights && v.clock == w.clock && |v.owner| == SLOTS
      && !v.tracker.quarantined[Index(opcode).value]
  {
  }

  lemma SameOpcodeBegun(w: World)
    requires w.tracker.Shaped() && CanBegin(w.tracker, w.clock) && w.current.Some?
    ensures
      var a := DoBegin(w.clock);
      var v := Next(w, a);
      && Legal(w, a) && !Crosses(w, a) && v.tracker.Engaged() && v.tracker.floorUs == w.clock
      && v.tracker == w.tracker.(reserved := true, floorUs := w.clock, credit := w.tracker.credit - 1)
      && v == w.(tracker := v.tracker, flights := w.flights[w.current.value := Flight(w.tracker.opcode, None)])
  {
  }

  lemma OldReplyCompletes(w: World, o: Id, opcode: U16)
    requires w.tracker.Shaped() && Index(opcode).Some? && !w.tracker.quarantined[Index(opcode).value]
    requires w.tracker.Engaged() && w.tracker.opcode == opcode && w.clock <= w.tracker.deadline
    requires w.tracker.floorUs <= w.clock && w.current.Some? && w.current.value != o
    requires o in w.flights && w.flights[o].opcode == opcode
    requires w.flights[o].until.Some? && w.flights[o].until.value > w.clock
    ensures
      var a := DoDeliver(Event(Complete, 0x0E, 0, 1, opcode), w.clock, w.clock, Some(o));
      Legal(w, a) && Wrong(w, a) && !Crosses(w, a)
  {
  }

  lemma WrongAtOnce(w: World, a: Action)
    requires w.tracker.Shaped() && Legal(w, a) && Wrong(w, a) && !Crosses(w, a)
    ensures LegalRun(w, [a]) && NeverCrosses(w, [a]) && !AllRight(w, [a])
  {
    hide Next, Legal, Wrong, Crosses;
    var run := [a];
    assert run[1..] == [];
    assert LegalRun(Next(w, a), run[1..]) && NeverCrosses(Next(w, a), run[1..]);
  }

  lemma ReadyGoesWrong(w: World, o: Id, opcode: U16)
    requires w.tracker.Shaped() && Index(opcode).Some? && !w.tracker.quarantined[Index(opcode).value]
    requires CanBegin(w.tracker, w.clock) && w.tracker.opcode == opcode && w.current.Some? && w.current.value != o
    requires o in w.flights && w.flights[o].opcode == opcode
    requires w.flights[o].until.Some? && w.flights[o].until.value > w.clock
    ensures
      var run := WrongRun(w.clock, o, opcode)[2..];
      LegalRun(w, run) && NeverCrosses(w, run) && !AllRight(w, run)
  {
    var run := WrongRun(w.clock, o, opcode)[2..];
    var a3, a4 := run[0], run[1];
    var w3 := Next(w, a3);
    SameOpcodeBegun(w);
    hide Next, Legal, Wrong, Crosses, LegalRun, AllRight, NeverCrosses;
    OldReplyCompletes(w3, o, opcode);
    WrongAtOnce(w3, a4);
    Before(w, a3, [a4]);
    assert run == [a3] + [a4];
  }

  lemma CreditedGoesWrong(w: World, o: Id, opcode: U16)
    requires Loose(w, o, opcode) && !w.tracker.pending && w.tracker.credit > 0
    ensures
      var run := WrongRun(w.clock, o, opcode)[1..];
      LegalRun(w, run) && NeverCrosses(w, run) && !AllRight(w, run)
  {
    var run := WrongRun(w.clock, o, opcode)[1..];
    SameOpcodeIssued(w, o, opcode);
    hide Next, Legal, Wrong, Crosses, LegalRun, AllRight, NeverCrosses;
    ReadyGoesWrong(Next(w, run[0]), o, opcode);
    Before(w, run[0], run[1..]);
    assert run == [run[0]] + run[1..];
  }

  /** The controller can complete the next command of that opcode with the old reply. */
  lemma ExposedGoesWrong(w: World, o: Id, opcode: U16)
    requires Loose(w, o, opcode) && !w.tracker.pending
    ensures
      var run := WrongRun(w.clock, o, opcode);
      LegalRun(w, run) && NeverCrosses(w, run) && !AllRight(w, run)
  {
    var run := WrongRun(w.clock, o, opcode);
    CreditArrives(w, o, opcode);
    hide Next, Legal, Wrong, Crosses, LegalRun, AllRight, NeverCrosses, Loose;
    CreditedGoesWrong(Next(w, run[0]), o, opcode);
    Before(w, run[0], run[1..]);
    assert run == [run[0]] + run[1..];
  }

  // ---- an exposed reply, with another command pending ----

  /** The pending command, if any, can be over before `end`: it is not yet out, it times out, or its own
      reply can still come in time. */
  predicate CanEndBefore(w: World, end: U64) {
    || !w.tracker.Engaged()
    || (w.clock < end && w.tracker.deadline + 1 < end)
    || (w.current.Some? && w.current.value in w.flights
        && Max(w.clock, w.tracker.floorUs) <= w.tracker.deadline && Max(w.clock, w.tracker.floorUs) < end)
  }

  /** The pending command's opcode is free and its own reply is recorded as such. */
  predicate OwnReplyKnown(w: World)
    requires w.tracker.Shaped()
  {
    w.tracker.pending ==>
      && !w.tracker.quarantined[Index(w.tracker.opcode).value]
      && w.current.Some?
      && (w.current.value in w.flights ==> w.flights[w.current.value] == Flight(w.tracker.opcode, None))
  }

  lemma TimesOutFirst(w: World, o: Id, opcode: U16, now: U64)
    requires Loose(w, o, opcode) && w.tracker.pending
    requires w.clock <= now && w.tracker.deadline < now < w.flights[o].until.value
    ensures Legal(w, DoPoll(now)) && !Crosses(w, DoPoll(now))
    ensures Loose(Next(w, DoPoll(now)), o, opcode) && !Next(w, DoPoll(now)).tracker.pending
  {
    if Index(w.tracker.opcode) == Index(opcode) { IndexNamesOne(w.tracker.opcode, opcode); }
    hide Index;
  }

  function Rejection(w: World, now: U64): Action
    requires w.current.Some?
  {
    DoDeliver(Event(Complete, 0x0E, 1, 1, w.tracker.opcode), now, now, w.current)
  }

  lemma AnsweredFirst(w: World, o: Id, opcode: U16, now: U64)
    requires Loose(w, o, opcode) && OwnReplyKnown(w) && w.tracker.Engaged() && w.current.value in w.flights
    requires w.clock <= now && w.tracker.floorUs <= now <= w.tracker.deadline && now < w.flights[o].until.value
    ensures
      var a := Rejection(w, now);
      && Legal(w, a) && !Crosses(w, a)
      && Loose(Next(w, a), o, opcode) && !Next(w, a).tracker.pending
  {
  }

  lemma AnsweredThenWrong(w: World, o: Id, opcode: U16, now: U64)
    requires Loose(w, o, opcode) && OwnReplyKnown(w) && w.tracker.Engaged() && w.current.value in w.flights
    requires w.clock <= now && w.tracker.floorUs <= now <= w.tracker.deadline && now < w.flights[o].until.value
    ensures MayGoWrong(w)
  {
    AnsweredFirst(w, o, opcode, now);
    hide Legal, Next, Crosses, Loose, LegalRun, AllRight, NeverCrosses;
    ExposedGoesWrong(Next(w, Rejection(w, now)), o, opcode);
    MayGoWrongBefore(w, Rejection(w, now));
  }

  lemma TimedOutThenWrong(w: World, o: Id, opcode: U16, now: U64)
    requires Loose(w, o, opcode) && w.tracker.pending
    requires w.clock <= now && w.tracker.deadline < now < w.flights[o].until.value
    ensures MayGoWrong(w)
  {
    TimesOutFirst(w, o, opcode, now);
    hide Legal, Next, Crosses, Loose, LegalRun, AllRight, NeverCrosses;
    ExposedGoesWrong(Next(w, DoPoll(now)), o, opcode);
    MayGoWrongBefore(w, DoPoll(now));
  }

  lemma StillExposed(w: World, o: Id, opcode: U16)
    requires Loose(w, o, opcode) && OwnReplyKnown(w) && w.tracker.pending && !w.tracker.Engaged()
    requires w.clock <= w.tracker.deadline && w.tracker.credit > 0
    ensures Loose(Next(w, DoBegin(w.clock)), o, opcode) && OwnReplyKnown(Next(w, DoBegin(w.clock)))
  {
  }

  /** A command that is not yet out is sent and rejected at once. */
  lemma SentThenWrong(w: World, o: Id, opcode: U16)
    requires Loose(w, o, opcode) && OwnReplyKnown(w) && w.tracker.pending && !w.tracker.Engaged()
    requires w.clock <= w.tracker.deadline
    ensures MayGoWrong(w)
  {
    var a1, a2 := DoDeliver(CREDIT, w.clock, w.clock, None), DoBegin(w.clock);
    var w1 := Next(w, a1);
    CreditArrives(w, o, opcode);
    var w2 := Next(w1, a2);
    SameOpcodeBegun(w1);
    StillExposed(w1, o, opcode);
    hide Legal, Next, Crosses, Loose, MayGoWrong;
    AnsweredThenWrong(w2, o, opcode, w.clock);
    MayGoWrongBefore(w1, a2);
    MayGoWrongBefore(w, a1);
  }

  lemma EndsThenWrong(w: World, o: Id, opcode: U16)
    requires Loose(w, o, opcode) && OwnReplyKnown(w) && CanEndBefore(w, w.flights[o].until.value)
    ensures MayGoWrong(w)
  {
    hide Index;
    if !w.tracker.pending {
      ExposedGoesWrong(w, o, opcode);
    } else if w.tracker.deadline < w.clock {
      TimedOutThenWrong(w, o, opcode, w.clock);
    } else if !w.tracker.Engaged() {
      SentThenWrong(w, o, opcode);
    } else if w.tracker.deadline + 1 < w.flights[o].until.value {
      TimedOutThenWrong(w, o, opcode, w.tracker.deadline + 1);
    } else {
      AnsweredThenWrong(w, o, opcode, Max(w.clock, w.tracker.floorUs));
    }
    hide MayGoWrong;
  }

  // ---- an exposed reply that a pending command contains ----

  /** The world in which the exposed reply is already gone. */
  function Minus(w: World, o: Id): World { w.(flights := w.flights - {o}) }

  /** The action neither sends that command nor delivers its reply. */
  predicate Elsewhere(w: World, a: Action, o: Id) {
    && w.current != Some(o)
    && (a.DoDeliver? ==> a.answers != Some(o))
  }

  lemma DroppedCommutes(e: Event, answers: Option<Id>, flights: map<Id, Flight>, o: Id)
    requires answers != Some(o)
    ensures Dropped(e, answers, flights - {o}) == Dropped(e, answers, flights) - {o}
  {
  }

  lemma PollCommutes(w: World, now: U64, o: Id)
    requires w.tracker.Shaped() && w.current != Some(o)
    ensures AfterPoll(Minus(w, o), now) == Minus(AfterPoll(w, now), o)
    ensures AfterPoll(w, now).current != Some(o)
  {
    hide Poll, Index;
  }

  lemma DeliverCommutes(w: World, a: Action, o: Id)
    requires w.tracker.Shaped() && a.DoDeliver? && Elsewhere(w, a, o)
    ensures Deliver(Minus(w, o), a.event, a.now, a.arrival, a.answers)
            == Minus(Deliver(w, a.event, a.now, a.arrival, a.answers), o)
  {
    PollCommutes(w, a.now, o);
    var u := AfterPoll(w, a.now);
    DroppedCommutes(a.event, a.answers, u.flights, o);
    hide AfterPoll, Dropped, OnCommandEvent;
  }

  /** Such an action does the same whether or not the reply is still to come. */
  lemma NextCommutes(w: World, a: Action, o: Id)
    requires w.tracker.Shaped() && Elsewhere(w, a, o)
    ensures Next(Minus(w, o), a) == Minus(Next(w, a), o)
  {
    hide Issue, TryBeginSend, MarkSent, AfterPoll, Deliver;
    match a
    case DoPoll(now) => PollCommutes(w, now, o);
    case DoDeliver(_, _, _, _) => DeliverCommutes(w, a, o);
    case _ =>
  }

  lemma CrossesLess(w: World, a: Action, o: Id)
    requires w.tracker.Shaped() && Elsewhere(w, a, o) && Crosses(Minus(w, o), a)
    ensures Crosses(w, a)
  {
    PollCommutes(w, a.now, o);
    DroppedCommutes(a.event, a.answers, AfterPoll(w, a.now).flights, o);
    hide AfterPoll, Dropped, IsReply;
  }

  lemma ElsewhereIsTheSame(w: World, a: Action, o: Id)
    requires w.tracker.Shaped() && Elsewhere(w, a, o)
    ensures Next(Minus(w, o), a) == Minus(Next(w, a), o)
    ensures Wrong(Minus(w, o), a) <==> Wrong(w, a)
    ensures Legal(w, a) ==> Legal(Minus(w, o), a)
    ensures Crosses(Minus(w, o), a) ==> Crosses(w, a)
  {
    NextCommutes(w, a, o);
    if Crosses(Minus(w, o), a) { CrossesLess(w, a, o); }
    hide Next, Crosses, OnEvent, IsReply;
  }

  /** The reply stays shut out: the pending command outlives it. */
  predicate Contained(w: World, o: Id, opcode: U16) {
    && Loose(w, o, opcode) && Inv(Minus(w, o)) && w.tracker.pending
    && !CanEndBefore(w, w.flights[o].until.value)
  }

  /** Once its quarantine is over the reply does no harm. */
  lemma OverIsHarmless(w: World, o: Id)
    requires Inv(Minus(w, o)) && o in w.flights && o < w.nextId && w.current != Some(o)
    requires Index(w.flights[o].opcode).Some? && !w.tracker.quarantined[Index(w.flights[o].opcode).value]
    requires w.tracker.pending ==> w.tracker.opcode != w.flights[o].opcode
    requires w.flights[o].until.Some? && w.flights[o].until.value <= w.clock
    ensures Inv(w)
  {
    var m := Minus(w, o);
    assert Kept(w) && OneOutcomeEach(w) by { hide FlightsKnown; }
    hide OneOutcomeEach;
    assert Settled(w, o, w.flights[o]);
    forall id <- w.flights | w.current != Some(id) ensures Settled(w, id, w.flights[id]) {
      if id != o { assert id in m.flights && Settled(m, id, m.flights[id]); }
    }
    assert forall id <- w.flights | id != o :: id in m.flights && m.flights[id] == w.flights[id];
    hide Settled, Kept;
  }

  /** What a step does to an engaged command, beside a reply of another opcode. */
  predicate Steps(w: World, v: World, o: Id, opcode: U16)
    requires w.tracker.Shaped()
  {
    && w.clock <= v.clock && w.nextId <= v.nextId && v.tracker.Shaped() && |v.owner| == SLOTS
    && Index(opcode).Some? && !v.tracker.quarantined[Index(opcode).value]
    && (v.tracker.pending <==> v.current.Some?)
    && (o in v.flights ==> o in w.flights && v.flights[o] == w.flights[o])
    && if v.tracker.pending then
         && v.current == w.current && v.tracker.Engaged() && v.tracker.opcode == w.tracker.opcode
         && v.tracker.deadline == w.tracker.deadline && w.tracker.floorUs <= v.tracker.floorUs
         && (v.current.value in v.flights ==> v.current.value in w.flights)
       else
         || o !in v.flights
         || w.tracker.deadline < v.clock
         || (w.current.Some? && w.current.value in w.flights && w.tracker.floorUs <= v.clock <= w.tracker.deadline)
  }

  lemma ContainedOrOver(w: World, v: World, o: Id, opcode: U16)
    requires Contained(w, o, opcode) && Steps(w, v, o, opcode) && Inv(Minus(v, o))
    ensures Inv(v) || Contained(v, o, opcode)
  {
    hide Inv, Index;
    if o !in v.flights {
      assert Minus(v, o) == v;
    } else if v.flights[o].until.value <= v.clock {
      assert Minus(v, o).tracker.Shaped();
      OverIsHarmless(v, o);
    } else {
      assert v.tracker.pending;
    }
  }

  lemma PollSteps(w: World, now: U64, o: Id, opcode: U16)
    requires Contained(w, o, opcode) && w.clock <= now
    ensures Steps(w, AfterPoll(w, now).(clock := now), o, opcode)
  {
    if Index(w.tracker.opcode) == Index(opcode) { IndexNamesOne(w.tracker.opcode, opcode); }
    assert Minus(w, o).tracker.Shaped() && |w.floors| == SLOTS;
    PollShape(w, now);
    hide AfterPoll, Poll, Inv, Index;
  }

  lemma QuietSteps(w: World, a: Action, o: Id, opcode: U16)
    requires Contained(w, o, opcode) && Legal(w, a) && !a.DoDeliver?
    ensures Steps(w, Next(w, a), o, opcode)
  {
    if a.DoPoll? {
      PollSteps(w, a.now, o, opcode);
      hide Steps, Inv, AfterPoll;
    } else if a.DoReset? {
      hide Inv, Index;
    } else {
      EngagedStays(w, a);
      hide Inv, Index, Next, Legal;
      assert w.clock <= Next(w, a).clock by { LegalTime(w, a); }
    }
  }

  /** While a command is engaged nothing else is issued or sent. */
  lemma EngagedStays(w: World, a: Action)
    requires w.tracker.Shaped() && w.tracker.Engaged() && !a.DoDeliver? && !a.DoPoll? && !a.DoReset?
    ensures
      var v := Next(w, a);
      && v == w.(tracker := v.tracker, clock := Time(w, a)) && w.tracker.floorUs <= v.tracker.floorUs
      && v.tracker == w.tracker.(sent := v.tracker.sent, floorUs := v.tracker.floorUs) && v.tracker.Engaged()
  {
    hide Expire, Index;
  }

  /** An event ends no command but an engaged one of its opcode, and starts no quarantine. */
  lemma EventShape(t: State, e: Event, now: U64, arrival: U64)
    requires t.Shaped() && (e.kind == Complete || e.kind == Status)
    ensures
      var (v, r) := OnCommandEvent(t, e, now, arrival);
      && (forall j | 0 <= j < SLOTS :: v.quarantined[j] ==> t.quarantined[j])
      && (r.outcome == NoOutcome ==>
            v == t.(credit := v.credit, quarantined := v.quarantined, stale := v.stale, late := v.late,
                    unexpected := v.unexpected))
      && (r.outcome != NoOutcome ==>
            IsReply(e) && t.Engaged() && t.opcode == e.opcode && t.floorUs <= arrival && !v.pending)
  {
  }

  /** What the pending command is answered with is its own reply. */
  lemma AnswersCurrent(u: World, e: Event, now: U64, arrival: U64, answers: Id, o: Id)
    requires Inv(Minus(u, o)) && u.clock == now && IsReply(e) && u.tracker.Engaged() && u.tracker.opcode == e.opcode
    requires answers != o && answers in u.flights && u.flights[answers].opcode == e.opcode
    requires u.flights[answers].until.Some? ==> arrival < u.flights[answers].until.value
    requires OnCommandEvent(u.tracker, e, now, arrival).1.outcome != NoOutcome
    ensures u.current == Some(answers)
  {
    EngagedReplyKeeps(Minus(u, o), e, now, arrival, answers);
  }

  lemma DeliverySteps(w: World, a: Action, o: Id, opcode: U16)
    requires Contained(w, o, opcode) && Legal(w, a) && a.DoDeliver?
    ensures Steps(w, Next(w, a), o, opcode)
  {
    var e := a.event;
    var u := AfterPoll(w, a.now).(clock := a.now);
    PollSteps(w, a.now, o, opcode);
    DeliverByParts(w, a);
    if e.kind == Complete || e.kind == Status {
      EventShape(u.tracker, e, a.now, a.arrival);
      var r := OnCommandEvent(u.tracker, e, a.now, a.arrival).1;
      hide OnCommandEvent, Next, Wrong;
      assert PartOf(Dropped(e, a.answers, u.flights), u.flights);
      if r.outcome != NoOutcome {
        PollShape(w, a.now);
        assert u == w.(clock := a.now);
        PollKeeps(Minus(w, o), a.now);
        PollCommutes(w, a.now, o);
        AnswersCurrent(u, e, a.now, a.arrival, a.answers.value, o);
      }
      hide AfterPoll, Dropped, Index, Inv;
    }
  }

  lemma NobodyWaits(t: State, e: Event, now: U64, arrival: U64)
    requires t.Shaped() && IsReply(e) && !t.quarantined[Index(e.opcode).value]
    requires !(t.Engaged() && t.opcode == e.opcode)
    ensures
      var (v, r) := OnCommandEvent(t, e, now, arrival);
      r.outcome == NoOutcome && v == t.(credit := v.credit, unexpected := v.unexpected)
  {
  }

  /** The exposed reply comes while the other command is still pending, or after it timed out: it ends
      nothing, and is gone. */
  lemma ExposedReplyKeeps(w: World, a: Action, o: Id, opcode: U16)
    requires Contained(w, o, opcode) && Legal(w, a) && a.DoDeliver? && a.answers == Some(o)
    ensures Inv(Next(w, a)) && !Wrong(w, a)
  {
    var e := a.event;
    var u := AfterPoll(w, a.now).(clock := a.now);
    PollKeeps(Minus(w, o), a.now);
    PollCommutes(w, a.now, o);
    PollSteps(w, a.now, o, opcode);
    DeliverByParts(w, a);
    NobodyWaits(u.tracker, e, a.now, a.arrival);
    DroppedLeaves(e, o, u.flights);
    var t := OnCommandEvent(u.tracker, e, a.now, a.arrival).0;
    hide AfterPoll, OnCommandEvent, Dropped, Next, Wrong, Inv, Index;
    FewerRepliesKeep(Minus(u, o), t, Dropped(e, Some(o), u.flights));
  }

  lemma ContainedStep(w: World, a: Action, o: Id, opcode: U16)
    requires Contained(w, o, opcode) && Legal(w, a) && !Crosses(w, a)
    ensures !Wrong(w, a) && (Inv(Next(w, a)) || Contained(Next(w, a), o, opcode))
  {
    hide Legal, Next, Wrong, Crosses, Steps, Inv, Loose;
    if a.DoDeliver? && a.answers == Some(o) {
      ExposedReplyKeeps(w, a, o, opcode);
    } else {
      ContainedIsOld(w, o, opcode);
      ElsewhereIsTheSame(w, a, o);
      StepKeeps(Minus(w, o), a);
      if a.DoDeliver? { DeliverySteps(w, a, o, opcode); } else { QuietSteps(w, a, o, opcode); }
      ContainedOrOver(w, Next(w, a), o, opcode);
    }
  }

  lemma ContainedIsOld(w: World, o: Id, opcode: U16)
    requires Contained(w, o, opcode)
    ensures w.tracker.Shaped() && w.current != Some(o)
  {
  }

  lemma {:induction false} ContainedRun(w: World, run: seq<Action>, o: Id, opcode: U16)
    requires Contained(w, o, opcode) && LegalRun(w, run) && NeverCrosses(w, run)
    ensures AllRight(w, run)
    decreases |run|
  {
    if run != [] {
      ContainedStep(w, run[0], o, opcode);
      var v := Next(w, run[0]);
      hide Inv, Legal, Crosses, Next, Wrong, Contained;
      if Inv(v) { RunKeeps(v, run[1..]); } else { ContainedRun(v, run[1..], o, opcode); }
    }
  }

  // ---- the exact condition ----

  /** Whose quarantine a crossing ends. */
  function Victim(w: World, a: Action): Id
    requires w.tracker.Shaped() && Crosses(w, a)
  {
    AfterPoll(w, a.now).owner[Index(a.event.opcode).value]
  }

  lemma VictimIsLoose(u: World, e: Event, now: U64, arrival: U64, answers: Id)
    requires Inv(u) && u.clock == now && IsReply(e) && EndsForeignQuarantine(u, e, now, answers)
    ensures
      var v := u.(tracker := OnCommandEvent(u.tracker, e, now, arrival).0, flights := Dropped(e, Some(answers), u.flights));
      OnCommandEvent(u.tracker, e, now, arrival).1.outcome == NoOutcome
      && Loose(v, u.owner[Index(e.opcode).value], e.opcode)
  {
    DroppedLeaves(e, answers, u.flights);
    hide Dropped;
  }

  /** But for the victim's reply the invariant survives. */
  lemma WithoutTheVictim(u: World, e: Event, now: U64, arrival: U64, answers: Id)
    requires Inv(u) && u.clock == now && IsReply(e) && EndsForeignQuarantine(u, e, now, answers)
    requires answers in u.flights && u.flights[answers].opcode == e.opcode
    requires !(u.tracker.Engaged() && u.tracker.opcode == e.opcode)
    ensures
      var v := u.(tracker := OnCommandEvent(u.tracker, e, now, arrival).0, flights := Dropped(e, Some(answers), u.flights));
      var o := u.owner[Index(e.opcode).value];
      Inv(Minus(v, o)) && OwnReplyKnown(v)
  {
    var o := u.owner[Index(e.opcode).value];
    var m := Minus(u, o);
    FewerRepliesKeep(u, u.tracker, m.flights);
    LateReplyKeeps(m, e, now, arrival, answers);
    DroppedCommutes(e, Some(answers), u.flights, o);
    hide OnCommandEvent, Dropped;
  }

  /** Until when the reply of the command that lost its quarantine can come. */
  function ExposedUntil(w: World, a: Action): U64
    requires w.tracker.Shaped() && Crosses(w, a)
  {
    AfterPoll(w, a.now).flights[Victim(w, a)].until.value
  }

  lemma CrossingExposes(w: World, a: Action)
    requires Inv(w) && Legal(w, a) && Crosses(w, a)
    ensures
      var (v, o) := (Next(w, a), Victim(w, a));
      && Loose(v, o, a.event.opcode) && Inv(Minus(v, o)) && OwnReplyKnown(v)
      && v.flights[o].until.value == ExposedUntil(w, a)
  {
    var e, o := a.event, Victim(w, a);
    var u := AfterPoll(w, a.now).(clock := a.now);
    PollKeeps(w, a.now);
    DeliverByParts(w, a);
    PollKeepsCurrent(w, a.now);
    assert EndsForeignQuarantine(u, e, a.now, a.answers.value);
    assert !(u.tracker.Engaged() && u.tracker.opcode == e.opcode);
    assert IsReply(e);
    DroppedLeaves(e, a.answers.value, u.flights);
    hide AfterPoll, Dropped, Next, Wrong, Poll;
    VictimIsLoose(u, e, a.now, a.arrival, a.answers.value);
    WithoutTheVictim(u, e, a.now, a.arrival, a.answers.value);
  }

  lemma ContainedStaysRight(v: World, o: Id, opcode: U16)
    requires Contained(v, o, opcode)
    ensures !MayGoWrong(v)
  {
    ContainedIsOld(v, o, opcode);
    hide Contained, Loose;
    forall run | LegalRun(v, run) && NeverCrosses(v, run) ensures AllRight(v, run) {
      ContainedRun(v, run, o, opcode);
    }
    hide LegalRun, NeverCrosses, AllRight;
  }

  lemma GoodStaysRight(v: World)
    requires Inv(v)
    ensures !MayGoWrong(v)
  {
    forall run | LegalRun(v, run) && NeverCrosses(v, run) ensures AllRight(v, run) {
      RunKeeps(v, run);
    }
    hide LegalRun, NeverCrosses, AllRight;
  }

  /** The condition is exact: further crossings aside, some continuation of a legal action goes wrong
      just when the action crossed and the command then pending, if any, can be over before the exposed
      reply's time is. */
  lemma CrossingIsExact(w: World, a: Action)
    requires Inv(w) && Legal(w, a)
    ensures MayGoWrong(Next(w, a)) <==> Crosses(w, a) && CanEndBefore(Next(w, a), ExposedUntil(w, a))
  {
    assert w.tracker.Shaped() && (Crosses(w, a) ==> a.DoDeliver?);
    hide Inv, Legal, Next, Crosses, MayGoWrong, ExposedUntil, Victim, Loose, CanEndBefore, OwnReplyKnown;
    var v := Next(w, a);
    if !Crosses(w, a) {
      StepKeeps(w, a);
      GoodStaysRight(v);
    } else {
      var o, opcode := Victim(w, a), a.event.opcode;
      CrossingExposes(w, a);
      if CanEndBefore(v, ExposedUntil(w, a)) {
        EndsThenWrong(v, o, opcode);
      } else {
        assert v.tracker.pending by { NothingPendingEnds(v, ExposedUntil(w, a)); }
        ContainedStaysRight(v, o, opcode);
      }
    }
  }

  lemma NothingPendingEnds(w: World, end: U64)
    ensures !w.tracker.pending ==> CanEndBefore(w, end)
  {
  }

  // ---- what a caller can do ----

  /** A late reply is handed over before its own command's quarantine ends. */
  predicate Prompt(w: World, a: Action)
    requires w.tracker.Shaped()
  {
    a.DoDeliver? && IsReply(a.event) && a.answers.Some? && a.answers.value in w.flights ==>
      var until := w.flights[a.answers.value].until;
      until.Some? ==> a.now < until.value
  }

  /** An event is handed over as it arrives. */
  predicate AtOnce(a: Action) { a.DoDeliver? ==> a.arrival == a.now }

  /** From what a caller has at hand: the reply's opcode is under a quarantine, and the reply arrived
      before the command under quarantine was sent. */
  predicate LooksForeign(w: World, a: Action)
    requires w.tracker.Shaped()
  {
    && a.DoDeliver? && IsReply(a.event)
    && var u := AfterPoll(w, a.now);
       var i := Index(a.event.opcode).value;
       && u.tracker.Shaped() && |u.floors| == SLOTS
       && u.tracker.quarantined[i] && a.now < u.tracker.quarantineUntil[i] && a.arrival < u.floors[i]
  }

  /** A reply that answers another command than the one its opcode's quarantine is for. */
  lemma ForeignFacts(w: World, a: Action)
    requires Inv(w) && Legal(w, a) && Crosses(w, a)
    ensures
      var id, u, i := a.answers.value, AfterPoll(w, a.now), Index(a.event.opcode).value;
      && id in w.flights && w.flights[id].until.Some? && a.arrival < w.flights[id].until.value
      && u.tracker.quarantined[i] && a.now < u.tracker.quarantineUntil[i]
      && w.flights[id].until.value <= u.floors[i] <= a.now
  {
  }

  lemma StepDoesNotCross(w: World, a: Action)
    requires Inv(w) && Legal(w, a) && (Prompt(w, a) || AtOnce(a) || !LooksForeign(w, a))
    ensures !Crosses(w, a)
  {
    if Crosses(w, a) { ForeignFacts(w, a); }
  }

  /** Along the run each late reply is prompt, or at least looks like the quarantined command's own. */
  predicate Careful(w: World, run: seq<Action>)
    requires w.tracker.Shaped()
    decreases |run|
  {
    run == [] || ((Prompt(w, run[0]) || !LooksForeign(w, run[0])) && Careful(Next(w, run[0]), run[1..]))
  }

  lemma {:induction false} CarefulRunNeverCrosses(w: World, run: seq<Action>)
    requires Inv(w) && LegalRun(w, run) && Careful(w, run)
    ensures NeverCrosses(w, run)
    decreases |run|
  {
    if run != [] {
      StepDoesNotCross(w, run[0]);
      StepKeeps(w, run[0]);
      hide Inv, Legal, Crosses, Next, Wrong, Prompt, LooksForeign;
      CarefulRunNeverCrosses(Next(w, run[0]), run[1..]);
    }
  }

  lemma CarefulRunsAnswerRightly(run: seq<Action>)
    requires LegalRun(START, run) && Careful(START, run)
    ensures AnsweredRightly(run)
  {
    StartIsGood();
    CarefulRunNeverCrosses(START, run);
    RunsAnswerRightly(run);
  }

  lemma {:induction false} AtOnceNeverCrosses(w: World, run: seq<Action>)
    requires Inv(w) && LegalRun(w, run) && forall a <- run :: AtOnce(a)
    ensures NeverCrosses(w, run)
    decreases |run|
  {
    if run != [] {
      StepDoesNotCross(w, run[0]);
      StepKeeps(w, run[0]);
      hide Inv, Legal, Crosses, Next, Wrong, AtOnce;
      AtOnceNeverCrosses(Next(w, run[0]), run[1..]);
    }
  }

  /** A firmware that hands over each event as it arrives is answered rightly. */
  lemma AtOnceRunsAnswerRightly(run: seq<Action>)
    requires LegalRun(START, run) && forall a <- run :: AtOnce(a)
    ensures AnsweredRightly(run)
  {
    StartIsGood();
    AtOnceNeverCrosses(START, run);
    RunsAnswerRightly(run);
  }

  /** The same tracker and clock, and the quarantined commands sent at the same times. */
  predicate SameView(w: World, x: World) { x.tracker == w.tracker && x.clock == w.clock && x.floors == w.floors }

  /** A world that looks like `w` in which the reply is the first command's and the quarantine the second's. */
  function Suspect(w: World, opcode: U16, arrival: U64): World
    requires w.tracker.Shaped() && Index(opcode).Some? && arrival < U64_MAX
  {
    var i := Index(opcode).value;
    var first := Flight(opcode, Some(arrival + 1));
    if w.tracker.quarantined[i] then
      World(w.tracker, w.clock, 3, if w.tracker.pending then Some(2) else None,
            map[0 := first, 1 := Flight(opcode, Some(w.tracker.quarantineUntil[i]))], [1, 1, 1, 1, 1], w.floors, [])
    else
      World(w.tracker, w.clock, 2, if w.tracker.pending then Some(1) else None,
            map[0 := first, 1 := Flight(opcode, None)], [1, 1, 1, 1, 1], w.floors, [])
  }

  lemma SuspectIsGood(w: World, opcode: U16, arrival: U64)
    requires Inv(w) && Index(opcode).Some? && arrival < w.clock
    requires var i := Index(opcode).value;
             if w.tracker.quarantined[i] then arrival < w.floors[i]
             else w.tracker.Engaged() && w.tracker.opcode == opcode && arrival < w.tracker.floorUs
    ensures Inv(Suspect(w, opcode, arrival))
  {
    hide FlightsKnown;
    assert OneOutcomeEach(Suspect(w, opcode, arrival));
    hide OneOutcomeEach;
    assert Kept(Suspect(w, opcode, arrival));
    SuspectRepliesKnown(w, opcode, arrival);
  }

  lemma SuspectRepliesKnown(w: World, opcode: U16, arrival: U64)
    requires Kept(w) && Index(opcode).Some? && arrival < w.clock && Kept(Suspect(w, opcode, arrival))
    requires var i := Index(opcode).value;
             if w.tracker.quarantined[i] then arrival < w.floors[i]
             else w.tracker.Engaged() && w.tracker.opcode == opcode && arrival < w.tracker.floorUs
    ensures FlightsKnown(Suspect(w, opcode, arrival))
  {
  }

  /** What the guard says of the state before the poll. */
  lemma ForeignLook(w: World, a: Action)
    requires Inv(w) && LooksForeign(w, a) && w.clock <= a.now
    ensures
      var i := Index(a.event.opcode).value;
      && a.arrival < w.clock
      && if w.tracker.quarantined[i] then a.arrival < w.floors[i]
         else w.tracker.Engaged() && w.tracker.opcode == a.event.opcode && a.arrival < w.tracker.floorUs
  {
    PollShape(w, a.now);
    if Index(w.tracker.opcode) == Index(a.event.opcode) { IndexNamesOne(a.event.opcode, w.tracker.opcode); }
    hide AfterPoll, FlightsKnown, OneOutcomeEach, Index;
  }

  lemma PollLooksTheSame(w: World, x: World, now: U64)
    requires w.tracker.Shaped() && SameView(w, x)
    ensures AfterPoll(x, now).tracker == AfterPoll(w, now).tracker
  {
    hide Poll, Index;
  }

  /** After the poll the second command holds the quarantine and its reply can still come. */
  lemma SuspectPolled(w: World, a: Action)
    requires Inv(w) && LooksForeign(w, a) && w.clock <= a.now && Inv(Suspect(w, a.event.opcode, a.arrival))
    ensures
      var i, u := Index(a.event.opcode).value, AfterPoll(Suspect(w, a.event.opcode, a.arrival), a.now);
      && u.tracker.Shaped() && |u.owner| == SLOTS && u.owner[i] == 1
      && u.tracker.quarantined[i] && a.now < u.tracker.quarantineUntil[i]
      && 1 in u.flights && u.flights[1] == Flight(a.event.opcode, Some(u.tracker.quarantineUntil[i]))
  {
    ForeignLook(w, a);
    var x := Suspect(w, a.event.opcode, a.arrival);
    if Index(w.tracker.opcode) == Index(a.event.opcode) { IndexNamesOne(a.event.opcode, w.tracker.opcode); }
    PollLooksTheSame(w, x, a.now);
    PollShape(x, a.now);
    hide AfterPoll, FlightsKnown, OneOutcomeEach, Index;
  }

  lemma SecondLosesItsQuarantine(u: World, e: Event, now: U64)
    requires u.tracker.Shaped() && |u.owner| == SLOTS && IsReply(e)
    requires var i := Index(e.opcode).value;
             && u.owner[i] == 1 && u.tracker.quarantined[i] && now < u.tracker.quarantineUntil[i]
             && 1 in u.flights && u.flights[1] == Flight(e.opcode, Some(u.tracker.quarantineUntil[i]))
    ensures EndsForeignQuarantine(u, e, now, 0)
  {
    hide Index;
  }

  lemma SuspectCrosses(w: World, a: Action)
    requires Inv(w) && LooksForeign(w, a) && w.clock <= a.now && a.answers == Some(0)
    ensures
      var x := Suspect(w, a.event.opcode, a.arrival);
      SameView(w, x) && Inv(x) && Legal(x, a) && Crosses(x, a)
  {
    ForeignLook(w, a);
    SuspectIsGood(w, a.event.opcode, a.arrival);
    SuspectPolled(w, a);
    SecondLosesItsQuarantine(AfterPoll(Suspect(w, a.event.opcode, a.arrival), a.now), a.event, a.now);
    hide AfterPoll, Inv, Index, IsReply, EndsForeignQuarantine;
  }

  /** No guard on what the caller has at hand is finer: it holds just when the delivery crosses in some
      world that looks the same. */
  lemma GuardIsExact(w: World, e: Event, now: U64, arrival: U64)
    requires Inv(w) && w.clock <= now
    ensures LooksForeign(w, DoDeliver(e, now, arrival, None)) <==>
            exists x: World, id: Id ::
              && SameView(w, x) && Inv(x) && Legal(x, DoDeliver(e, now, arrival, Some(id)))
              && Crosses(x, DoDeliver(e, now, arrival, Some(id)))
  {
    if LooksForeign(w, DoDeliver(e, now, arrival, None)) {
      SuspectCrosses(w, DoDeliver(e, now, arrival, Some(0)));
    }
    forall x: World, id: Id | SameView(w, x) && Inv(x) && Legal(x, DoDeliver(e, now, arrival, Some(id)))
                              && Crosses(x, DoDeliver(e, now, arrival, Some(id)))
      ensures LooksForeign(w, DoDeliver(e, now, arrival, None))
    {
      ForeignFacts(x, DoDeliver(e, now, arrival, Some(id)));
    }
  }

  // ---- from power-on ----

  lemma {:induction false} RunsCompose(w: World, a: seq<Action>, b: seq<Action>)
    requires w.tracker.Shaped() && LegalRun(w, a) && LegalRun(Reach(w, a), b)
    ensures LegalRun(w, a + b) && Reach(w, a + b) == Reach(Reach(w, a), b)
    ensures !AllRight(Reach(w, a), b) ==> !AllRight(w, a + b)
    decreases |a|
  {
    hide Legal, Next, Wrong;
    if a == [] {
      assert a + b == b;
    } else {
      RunsCompose(Next(w, a[0]), a[1..], b);
      assert (a + b)[1..] == a[1..] + b && (a + b)[0] == a[0];
    }
  }

  lemma OneStep(w: World, a: Action)
    requires w.tracker.Shaped() && Legal(w, a)
    ensures LegalRun(w, [a]) && Reach(w, [a]) == Next(w, a)
  {
    hide Legal, Next;
    assert [a][1..] == [];
  }

  const SCAN_ENABLE: U16 := 0x200C

  /** One command sent at `now` and timed out. */
  function TimeoutRun(now: U64): seq<Action>
    requires now <= U64_MAX - 100
  {
    [DoIssue(SCAN_ENABLE, now, 10)] + ([DoBegin(now)] + [DoPoll(now + 11)])
  }

  lemma ScanIssued(w: World, now: U64)
    requires Inv(w) && !w.tracker.pending && w.tracker.credit > 0 && w.clock <= now <= U64_MAX - 100
    requires Expire(w.tracker, now) == NONE_QUARANTINED
    ensures
      var a := DoIssue(SCAN_ENABLE, now, 10);
      var v := Next(w, a);
      && Legal(w, a) && Inv(v) && v.clock == now && v.current == Some(w.nextId) && v.nextId == w.nextId + 1
      && CanBegin(v.tracker, now) && v.tracker.opcode == SCAN_ENABLE && v.tracker.deadline == now + 10
      && v.tracker.timeout == 10 && v.tracker.quarantined == NONE_QUARANTINED && v.flights == w.flights
  {
    IssueKeeps(w, SCAN_ENABLE, now, 10);
    hide Inv;
  }

  lemma ScanBegun(w: World, now: U64)
    requires Inv(w) && w.clock == now && CanBegin(w.tracker, now) && w.current.Some?
    ensures
      var v := Next(w, DoBegin(now));
      && Legal(w, DoBegin(now)) && Inv(v) && v.clock == now && v.current == w.current && v.nextId == w.nextId
      && v.tracker == w.tracker.(reserved := true, floorUs := now, credit := w.tracker.credit - 1)
      && v.flights == w.flights[w.current.value := Flight(w.tracker.opcode, None)]
  {
    BeginKeeps(w, now);
    hide Inv;
  }

  lemma ScanTimedOut(w: World, now: U64)
    requires Inv(w) && w.clock <= now <= U64_MAX - 50 && w.tracker.Engaged() && w.tracker.opcode == SCAN_ENABLE
    requires now > w.tracker.deadline && w.tracker.timeout == 10 && w.tracker.quarantined == NONE_QUARANTINED
    requires w.current.Some? && w.current.value in w.flights
    ensures
      var v := Next(w, DoPoll(now));
      && Legal(w, DoPoll(now)) && Inv(v) && v.clock == now && !v.tracker.pending && v.nextId == w.nextId
      && v.tracker.quarantined == NONE_QUARANTINED[4 := true] && v.tracker.quarantineUntil[4] == now + 20
      && v.owner[4] == w.current.value
      && v.flights == w.flights[w.current.value := w.flights[w.current.value].(until := Some(now + 20))]
  {
    PollKeeps(w, now);
    assert |w.owner| == SLOTS;
    hide Inv;
  }

  /** What one timeout leaves: a reply to come, and its opcode under quarantine. */
  predicate HasTimedOut(w: World, v: World, now: U64)
    requires now <= U64_MAX - 100
  {
    && Inv(v) && !v.tracker.pending && v.clock == now + 11 && v.nextId == w.nextId + 1
    && v.flights == w.flights[w.nextId := Flight(SCAN_ENABLE, Some(now + 31))]
    && v.tracker.quarantined == NONE_QUARANTINED[4 := true] && v.tracker.quarantineUntil[4] == now + 31
    && v.owner[4] == w.nextId
  }

  /** What sending it leaves. */
  predicate HasBegun(w: World, v: World, now: U64)
    requires now <= U64_MAX - 100
  {
    && Inv(v) && v.tracker.Engaged() && v.clock == now && v.current == Some(w.nextId) && v.nextId == w.nextId + 1
    && v.tracker.opcode == SCAN_ENABLE && v.tracker.deadline == now + 10 && v.tracker.timeout == 10
    && v.tracker.quarantined == NONE_QUARANTINED && v.flights == w.flights[w.nextId := Flight(SCAN_ENABLE, None)]
  }

  lemma IsSent(w: World, now: U64)
    requires Inv(w) && !w.tracker.pending && w.tracker.credit > 0 && w.clock <= now <= U64_MAX - 100
    requires Expire(w.tracker, now) == NONE_QUARANTINED
    ensures
      var v := Next(w, DoIssue(SCAN_ENABLE, now, 10));
      Legal(w, DoIssue(SCAN_ENABLE, now, 10)) && Legal(v, DoBegin(now)) && HasBegun(w, Next(v, DoBegin(now)), now)
  {
    ScanIssued(w, now);
    var v := Next(w, DoIssue(SCAN_ENABLE, now, 10));
    assert v.tracker.Shaped();
    hide Next, Expire, Legal, Inv;
    ScanBegun(v, now);
  }

  lemma IsTimedOut(w: World, v: World, now: U64)
    requires now <= U64_MAX - 100 && HasBegun(w, v, now)
    ensures Legal(v, DoPoll(now + 11)) && HasTimedOut(w, Next(v, DoPoll(now + 11)), now)
  {
    hide FlightsKnown, OneOutcomeEach;
    assert v.tracker.Shaped();
    hide Next, Legal, Inv;
    ScanTimedOut(v, now + 11);
  }

  lemma TimesOut(w: World, now: U64)
    requires Inv(w) && !w.tracker.pending && w.tracker.credit > 0 && w.clock <= now <= U64_MAX - 100
    requires Expire(w.tracker, now) == NONE_QUARANTINED
    ensures LegalRun(w, TimeoutRun(now)) && HasTimedOut(w, Reach(w, TimeoutRun(now)), now)
  {
    var a1, a2, a3 := DoIssue(SCAN_ENABLE, now, 10), DoBegin(now), DoPoll(now + 11);
    var w1 := Next(w, a1);
    var w2 := Next(w1, a2);
    hide Inv, Legal, Next, Expire, LegalRun, Reach, HasBegun, HasTimedOut;
    IsSent(w, now);
    IsTimedOut(w, w2, now);
    OneStep(w2, a3);
    OneStep(w1, a2);
    OneStep(w, a1);
    RunsCompose(w1, [a2], [a3]);
    RunsCompose(w, [a1], [a2] + [a3]);
  }

  /** Two commands of one opcode time out; credit comes in between. */
  const CROSSING_RUN := TimeoutRun(0) + ([DoDeliver(CREDIT, 40, 40, None)] + TimeoutRun(41))

  /** Then the first one's reply, which arrived at 12, is handed over at 53. */
  const CROSSING := DoDeliver(Event(Complete, 0x0E, 0, 0, SCAN_ENABLE), 53, 12, Some(0))

  lemma StartIsQuiet()
    ensures Expire(FRESH, 0) == NONE_QUARANTINED && START.tracker == FRESH && START.nextId == 0
    ensures FRESH.credit == 1 && !FRESH.pending && START.flights == map[] && START.clock == 0
  {
  }

  lemma FirstTimesOut()
    ensures LegalRun(START, TimeoutRun(0)) && HasTimedOut(START, Reach(START, TimeoutRun(0)), 0)
  {
    StartIsGood();
    StartIsQuiet();
    hide START, FRESH, LegalRun, Reach, Inv, HasTimedOut, TimeoutRun, Expire;
    TimesOut(START, 0);
  }

  lemma CreditDelivered(w: World)
    requires Inv(w) && w.clock <= 40 && !w.tracker.pending
    ensures
      var a := DoDeliver(CREDIT, 40, 40, None);
      var v := Next(w, a);
      && Legal(w, a) && Inv(v) && v.tracker == w.tracker.(credit := 1) && v.clock == 40
      && v.flights == w.flights && v.nextId == w.nextId
  {
    DeliverKeeps(w, DoDeliver(CREDIT, 40, 40, None));
    hide Inv;
  }

  lemma CrossesHere(w: World)
    requires Inv(w) && w.clock == 52 && !w.tracker.pending
    requires w.flights == map[0 := Flight(SCAN_ENABLE, Some(31)), 1 := Flight(SCAN_ENABLE, Some(72))]
    requires w.tracker.quarantined == NONE_QUARANTINED[4 := true] && w.tracker.quarantineUntil[4] == 72
    requires w.owner[4] == 1
    ensures
      && Legal(w, CROSSING) && Crosses(w, CROSSING)
      && var v := Next(w, CROSSING);
         Loose(v, 1, SCAN_ENABLE) && !v.tracker.pending && v.clock == 53
  {
    hide Settled;
  }

  lemma SecondTimesOut(w: World)
    requires Inv(w) && w.clock == 40 && !w.tracker.pending && w.nextId == 1 && w.tracker.credit == 1
    requires w.flights == map[0 := Flight(SCAN_ENABLE, Some(31))] && w.tracker.quarantineUntil[4] == 31
    requires w.tracker.quarantined == NONE_QUARANTINED[4 := true]
    ensures
      var v := Reach(w, TimeoutRun(41));
      && LegalRun(w, TimeoutRun(41)) && Inv(v) && Legal(v, CROSSING) && Crosses(v, CROSSING)
      && Loose(Next(v, CROSSING), 1, SCAN_ENABLE) && !Next(v, CROSSING).tracker.pending
      && Next(v, CROSSING).clock == 53
  {
    assert Expire(w.tracker, 41) == NONE_QUARANTINED;
    hide Reach, LegalRun, Legal, Crosses, Inv, Next, Loose, TimeoutRun;
    TimesOut(w, 41);
    var v := Reach(w, TimeoutRun(41));
    assert v.flights == map[0 := Flight(SCAN_ENABLE, Some(31)), 1 := Flight(SCAN_ENABLE, Some(72))];
    CrossesHere(v);
  }

  /** A crossing does happen: a reply that arrived in time is processed only after a later command of
      its opcode has timed out as well. */
  lemma CrossingIsReachable()
    ensures LegalRun(START, CROSSING_RUN)
    ensures
      var w := Reach(START, CROSSING_RUN);
      && Inv(w) && Legal(w, CROSSING) && Crosses(w, CROSSING)
      && Loose(Next(w, CROSSING), 1, SCAN_ENABLE) && !Next(w, CROSSING).tracker.pending && Next(w, CROSSING).clock == 53
  {
    StartIsQuiet();
    hide Reach, LegalRun, Legal, Crosses, Inv, Next, Loose, TimeoutRun, START;
    var w1 := Reach(START, TimeoutRun(0));
    var credit := DoDeliver(CREDIT, 40, 40, None);
    FirstTimesOut();
    CreditDelivered(w1);
    SecondTimesOut(Next(w1, credit));
    OneStep(w1, credit);
    RunsCompose(w1, [credit], TimeoutRun(41));
    RunsCompose(START, TimeoutRun(0), [credit] + TimeoutRun(41));
  }

  /** From power-on to the wrong completion: the crossing, credit, and a third command of the opcode that
      the second one's reply completes. */
  const WRONG_RUN := CROSSING_RUN + ([CROSSING] + WrongRun(53, 1, SCAN_ENABLE))

  lemma PowerOnGoesWrong()
    ensures LegalRun(START, WRONG_RUN) && !AllRight(START, WRONG_RUN)
    ensures GoesWrong(START)
  {
    var w := Reach(START, CROSSING_RUN);
    var run := WrongRun(53, 1, SCAN_ENABLE);
    CrossingIsReachable();
    hide Reach, LegalRun, AllRight, Legal, Inv, Next, Loose, START, CROSSING_RUN, WrongRun;
    ExposedGoesWrong(Next(w, CROSSING), 1, SCAN_ENABLE);
    OneStep(w, CROSSING);
    RunsCompose(w, [CROSSING], run);
    RunsCompose(START, CROSSING_RUN, [CROSSING] + run);
  }
}
