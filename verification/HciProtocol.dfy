/** The tracker against a controller that may answer late: whose reply ends which command.

    Every issued command has a number. The controller answers a command that left at most once,
    and a reply carries, for the proof only, the number of the command it answers. */
module HciProtocol {
  import opened Basics
  import opened HciEvents
  import opened HciTracker

  type Id = nat

  /** A command that left and whose reply is still to come. `until` is the end of the quarantine
      its timeout began; there is none while the command is pending. */
  datatype Flight = Flight(opcode: U16, until: Option<U64>)

  datatype World = World(
    tracker: State, clock: U64, nextId: Id, current: Option<Id>, flights: map<Id, Flight>,
    owner: seq<Id>,                     // whose timeout began each slot's latest quarantine
    floors: seq<U64>,                   // and when that command was sent, if the clock had got so far
    outcomes: seq<(Id, Outcome)>)       // every outcome reported, with the command it ended

  datatype Action =
    | DoIssue(opcode: U16, now: U64, timeout: U64)
    | DoBegin(now: U64)
    | DoMark(sendUs: U64)
    | DoPoll(now: U64)
    | DoDeliver(event: Event, now: U64, arrival: U64, answers: Option<Id>)
    | DoReset

  const START := World(FRESH, 0, 0, None, map[], [0, 0, 0, 0, 0], [0, 0, 0, 0, 0], [])

  // ---- what the environment may do ----

  function Time(w: World, a: Action): U64 {
    match a
    case DoIssue(_, now, _) => now
    case DoBegin(now) => now
    case DoPoll(now) => now
    case DoDeliver(_, now, _, _) => now
    case DoMark(_) => w.clock
    case DoReset => w.clock
  }

  /** A reply to a command whose opcode the tracker sends. */
  predicate IsReply(e: Event) { Terminating(e) && Index(e.opcode).Some? }

  /** The clock never goes back. A reply answers a command that left, for the first time, under its
      opcode; one that is late arrived before its command's quarantine ended. */
  predicate Legal(w: World, a: Action) {
    && w.clock <= Time(w, a)
    && (a.DoDeliver? && IsReply(a.event) ==>
          && a.answers.Some? && a.answers.value in w.flights
          && a.arrival <= a.now
          && var f := w.flights[a.answers.value];
             f.opcode == a.event.opcode && (f.until.Some? ==> a.arrival < f.until.value))
    && (a.DoDeliver? && !IsReply(a.event) ==> a.answers.None?)
  }

  // ---- the ghost bookkeeping beside the tracker ----

  /** Beside a poll: a command that times out keeps its flight, which now has a quarantine. */
  function AfterPoll(w: World, now: U64): World
    requires w.tracker.Shaped()
  {
    var (t, r) := Poll(w.tracker, now);
    if r.outcome == NoOutcome || w.current.None? then w.(tracker := t)
    else
      var id := w.current.value;
      var i := Index(w.tracker.opcode).value;
      var late := w.tracker.Engaged();
      w.(tracker := t, current := None, outcomes := w.outcomes + [(id, TimedOut)],
         owner := if late && |w.owner| == SLOTS then w.owner[i := id] else w.owner,
         floors := if late && |w.floors| == SLOTS then w.floors[i := Min(w.tracker.floorUs, w.clock)] else w.floors,
         flights := if late && id in w.flights
                    then w.flights[id := w.flights[id].(until := Some(t.quarantineUntil[i]))] else w.flights)
  }

  /** A completed reset makes the controller forget every command sent before it. */
  function Dropped(e: Event, answers: Option<Id>, flights: map<Id, Flight>): map<Id, Flight> {
    var left := if answers.Some? then flights - {answers.value} else flights;
    if answers.Some? && e.kind == Complete && e.status == 0 && e.opcode == RESET
    then map id | id in left && id >= answers.value :: left[id] else left
  }

  function Deliver(w: World, e: Event, now: U64, arrival: U64, answers: Option<Id>): World
    requires w.tracker.Shaped()
  {
    var u := AfterPoll(w, now);
    if (e.kind != Complete && e.kind != Status) || !u.tracker.Shaped() then u
    else
      var (t, r) := OnCommandEvent(u.tracker, e, now, arrival);
      var v := u.(tracker := t, flights := Dropped(e, answers, u.flights));
      if r.outcome == NoOutcome || u.current.None? then v
      else v.(current := None, outcomes := u.outcomes + [(u.current.value, r.outcome)])
  }

  function Next(w: World, a: Action): (v: World)
    requires w.tracker.Shaped()
    ensures v.tracker.Shaped()
  {
    match a
    case DoIssue(opcode, now, timeout) =>
      var (t, r) := Issue(w.tracker, opcode, now, timeout);
      var v := w.(tracker := t, clock := now);
      if r == Issued then v.(current := Some(w.nextId), nextId := w.nextId + 1) else v
    case DoBegin(now) =>
      var v := w.(tracker := TryBeginSend(w.tracker, now), clock := now);
      if CanBegin(w.tracker, now) && w.current.Some?
      then v.(flights := w.flights[w.current.value := Flight(w.tracker.opcode, None)]) else v
    case DoMark(sendUs) => w.(tracker := MarkSent(w.tracker, sendUs))
    case DoPoll(now) => AfterPoll(w, now).(clock := now)
    case DoDeliver(e, now, arrival, answers) => Deliver(w, e, now, arrival, answers).(clock := now)
    case DoReset => w.(tracker := ResetController(w.tracker), current := None, flights := map[])
  }

  /** The bookkeeping only watches: the tracker does what it does alone, and the outcome recorded, if any,
      is the one it reports for the command that was pending. */
  lemma BookkeepingIsSilent(w: World, e: Event, now: U64, arrival: U64, answers: Option<Id>)
    requires w.tracker.Shaped() && (w.tracker.pending <==> w.current.Some?)
    ensures
      var v := Deliver(w, e, now, arrival, answers);
      var (t, r) := OnEvent(w.tracker, e, now, arrival);
      && v.tracker == t
      && v.outcomes == w.outcomes + (if r.outcome == NoOutcome then [] else [(w.current.value, r.outcome)])
  {
    hide Dropped;
  }

  // ---- the invariant ----

  /** A command other than the pending one that still owes a reply has timed out. Its quarantine is
      over, and was before the command that now holds its opcode's quarantine was sent; or it is itself
      that command. */
  predicate Settled(w: World, id: Id, f: Flight)
    requires |w.owner| == SLOTS && |w.floors| == SLOTS && w.tracker.Shaped()
  {
    && Index(f.opcode).Some?
    && f.until.Some?
    && var i := Index(f.opcode).value;
       if w.tracker.quarantined[i] && w.owner[i] == id
       then f.until.value <= Max(w.clock, w.tracker.quarantineUntil[i])
       else f.until.value <= w.clock && (w.tracker.quarantined[i] ==> f.until.value <= w.floors[i])
  }

  predicate Kept(w: World) {
    && w.tracker.Shaped() && |w.owner| == SLOTS && |w.floors| == SLOTS
    && (forall i | 0 <= i < SLOTS :: w.floors[i] <= w.clock)
    && (w.tracker.pending <==> w.current.Some?)
    && (w.current.Some? ==> w.current.value + 1 == w.nextId)
    && (w.tracker.pending ==> !w.tracker.quarantined[Index(w.tracker.opcode).value])
  }

  predicate FlightsKnown(w: World)
    requires Kept(w)
  {
    && (forall id <- w.flights :: id < w.nextId)
    && (forall id <- w.flights | w.current != Some(id) :: Settled(w, id, w.flights[id]))
    // The pending command may be answered only once it is engaged, and under its own opcode.
    && (w.current.Some? && w.current.value in w.flights ==>
          w.tracker.Engaged() && w.flights[w.current.value] == Flight(w.tracker.opcode, None))
    // Older replies of the pending opcode are older than its send.
    && (w.tracker.Engaged() ==>
          forall id <- w.flights | w.current != Some(id) && w.flights[id].opcode == w.tracker.opcode ::
            w.flights[id].until.value <= w.tracker.floorUs)
  }

  /** No command has two outcomes, and the pending one has none. */
  predicate OneOutcomeEach(w: World) {
    && (forall i | 0 <= i < |w.outcomes| :: w.outcomes[i].0 < w.nextId && w.current != Some(w.outcomes[i].0))
    && (forall i, j | 0 <= i < j < |w.outcomes| :: w.outcomes[i].0 != w.outcomes[j].0)
  }

  predicate Inv(w: World) { Kept(w) && FlightsKnown(w) && OneOutcomeEach(w) }

  lemma StartIsGood()
    ensures Inv(START)
  {
  }

  lemma IssueKeeps(w: World, opcode: U16, now: U64, timeout: U64)
    requires Inv(w) && w.clock <= now
    ensures Inv(Next(w, DoIssue(opcode, now, timeout)))
  {
    var v := Next(w, DoIssue(opcode, now, timeout));
    hide Index;
    assert Kept(v) && OneOutcomeEach(v) && v.flights == w.flights by { hide FlightsKnown; }
    hide OneOutcomeEach;
    assert v.tracker.quarantined == w.tracker.quarantined || v.tracker.quarantined == Expire(w.tracker, now);
    assert v.tracker.quarantineUntil == w.tracker.quarantineUntil && v.owner == w.owner && v.floors == w.floors;
    assert v.tracker.Engaged() ==> v.tracker == w.tracker && v.current == w.current;
    assert v.current == w.current || v.current == Some(w.nextId);
    hide Issue;
    forall id <- v.flights | v.current != Some(id) ensures Settled(v, id, v.flights[id]) {
      assert Settled(w, id, w.flights[id]);
    }
    hide Settled, Kept;
  }

  lemma BeginKeeps(w: World, now: U64)
    requires Inv(w) && w.clock <= now
    ensures Inv(Next(w, DoBegin(now)))
  {
  }

  lemma MarkKeeps(w: World, sendUs: U64)
    requires Inv(w)
    ensures Inv(Next(w, DoMark(sendUs)))
  {
  }

  lemma PollKeeps(w: World, now: U64)
    requires Inv(w) && w.clock <= now
    ensures Inv(AfterPoll(w, now).(clock := now))
    ensures AfterPoll(w, now).flights.Keys == w.flights.Keys
  {
    hide AfterPoll, Poll, Index, Settled;
    assert |w.owner| == SLOTS && |w.floors| == SLOTS;
    var v := AfterPoll(w, now).(clock := now);
    PollShape(w, now);
    assert v.flights.Keys == w.flights.Keys by { hide OneOutcomeEach, FlightsKnown; }
    assert OneOutcomeEach(v) by { hide FlightsKnown; }
    hide OneOutcomeEach;
    assert Kept(v) by { hide FlightsKnown; }
    forall id <- v.flights | v.current != Some(id) ensures Settled(v, id, v.flights[id]) {
      PollSettles(w, v, id, now);
    }
    hide Kept;
  }

  lemma PollSettles(w: World, v: World, id: Id, now: U64)
    requires Kept(w) && FlightsKnown(w) && w.clock <= now && v == AfterPoll(w, now).(clock := now) && Kept(v)
    requires id in w.flights && id in v.flights && v.current != Some(id)
    ensures Settled(v, id, v.flights[id])
  {
    hide AfterPoll, Poll, Index;
    PollShape(w, now);
    if w.current != Some(id) { assert Settled(w, id, w.flights[id]); }
    var (mine, theirs) := (w.tracker.opcode, w.flights[id].opcode);
    if w.tracker.pending && Index(mine) == Index(theirs) { IndexNamesOne(mine, theirs); }
  }

  /** What a poll changes. */
  lemma PollShape(w: World, now: U64)
    requires w.tracker.Shaped() && |w.owner| == SLOTS && |w.floors| == SLOTS
    requires w.tracker.pending <==> w.current.Some?
    ensures
      var v := AfterPoll(w, now);
      if !w.tracker.pending || now <= w.tracker.deadline then v == w
      else
        var i := Index(w.tracker.opcode).value;
        var id := w.current.value;
        && v == w.(tracker := v.tracker, current := None, outcomes := w.outcomes + [(id, TimedOut)],
                   owner := v.owner, floors := v.floors, flights := v.flights)
        && !v.tracker.pending && v.tracker.Shaped()
        && (if !w.tracker.Engaged()
            then && v.tracker == w.tracker.(pending := false) && v.owner == w.owner && v.floors == w.floors
                 && v.flights == w.flights
            else && v.tracker.quarantined == w.tracker.quarantined[i := true]
                 && v.tracker.quarantineUntil[i] >= now
                 && v.tracker.quarantineUntil == w.tracker.quarantineUntil[i := v.tracker.quarantineUntil[i]]
                 && v.owner == w.owner[i := id] && v.floors == w.floors[i := Min(w.tracker.floorUs, w.clock)]
                 && v.flights == if id in w.flights
                                 then w.flights[id := w.flights[id].(until := Some(v.tracker.quarantineUntil[i]))]
                                 else w.flights)
  {
  }

  // ---- delivery ----

  /** Late, while its opcode is under the quarantine of another command whose own reply can still
      come. `OnEvent` ends that quarantine all the same. */
  predicate EndsForeignQuarantine(u: World, e: Event, now: U64, answers: Id)
    requires u.tracker.Shaped() && |u.owner| == SLOTS && IsReply(e)
  {
    var i := Index(e.opcode).value;
    var o := u.owner[i];
    && u.tracker.quarantined[i] && now < u.tracker.quarantineUntil[i] && answers != o
    && o in Dropped(e, Some(answers), u.flights)
    && u.flights[o].opcode == e.opcode && u.flights[o].until.Some? && u.flights[o].until.value > now
  }

  predicate Crosses(w: World, a: Action)
    requires w.tracker.Shaped()
  {
    && a.DoDeliver? && IsReply(a.event) && a.answers.Some?
    && AfterPoll(w, a.now).tracker.Shaped() && |AfterPoll(w, a.now).owner| == SLOTS
    && EndsForeignQuarantine(AfterPoll(w, a.now), a.event, a.now, a.answers.value)
  }

  /** A completion or rejection that comes from some other command's reply. */
  predicate Wrong(w: World, a: Action)
    requires w.tracker.Shaped()
  {
    && a.DoDeliver?
    && OnEvent(w.tracker, a.event, a.now, a.arrival).1.outcome in {Completed, RejectedBy}
    && (a.answers.None? || a.answers != w.current)
  }

  predicate OtherEvent(e: Event) { (e.kind == Complete || e.kind == Status) && !IsReply(e) }

  /** Events that answer nothing: the credit moves, and a count. */
  lemma OtherEventKeeps(u: World, e: Event, now: U64, arrival: U64)
    requires Inv(u) && u.clock == now && OtherEvent(e)
    ensures
      var (t, r) := OnCommandEvent(u.tracker, e, now, arrival);
      r.outcome == NoOutcome && Inv(u.(tracker := t))
  {
  }

  /** The pending command is answered: by its own reply, or not at all. */
  lemma EngagedReplyKeeps(u: World, e: Event, now: U64, arrival: U64, answers: Id)
    requires Inv(u) && u.clock == now && IsReply(e) && u.tracker.Engaged() && u.tracker.opcode == e.opcode
    requires answers in u.flights && u.flights[answers].opcode == e.opcode
    requires u.flights[answers].until.Some? ==> arrival < u.flights[answers].until.value
    ensures
      var (t, r) := OnCommandEvent(u.tracker, e, now, arrival);
      var v := u.(tracker := t, flights := Dropped(e, Some(answers), u.flights));
      if r.outcome == NoOutcome then Inv(v)
      else u.current == Some(answers)
           && Inv(v.(current := None, outcomes := u.outcomes + [(answers, r.outcome)]))
  {
    var (t, r) := OnCommandEvent(u.tracker, e, now, arrival);
    var left := Dropped(e, Some(answers), u.flights);
    DroppedLeaves(e, answers, u.flights);
    EngagedEvent(u.tracker, e, now, arrival);
    hide OnCommandEvent, Dropped, Settled, Index;
    if r.outcome == NoOutcome {
      FewerRepliesKeep(u, t, left);
    } else {
      assert u.current == Some(answers) && forall id <- u.flights :: id <= answers;
      if e.kind == Complete && e.status == 0 && e.opcode == RESET { ResetDropsOlder(e, answers, u.flights); }
      AnsweredKeeps(u, t, left, r.outcome);
    }
    hide Inv;
  }

  /** An engaged command's event is stale, or ends it. */
  lemma EngagedEvent(t: State, e: Event, now: U64, arrival: U64)
    requires t.Shaped() && IsReply(e) && t.Engaged() && t.opcode == e.opcode
    requires !t.quarantined[Index(e.opcode).value]
    ensures
      var (v, r) := OnCommandEvent(t, e, now, arrival);
      if arrival < t.floorUs then r.outcome == NoOutcome && v == t.(stale := v.stale)
      else
        && r.outcome != NoOutcome && v == t.(pending := false, credit := v.credit, quarantined := v.quarantined)
        && v.quarantined == if e.kind == Complete && e.status == 0 && e.opcode == RESET then NONE_QUARANTINED
                            else t.quarantined
  {
  }

  lemma ResetDropsOlder(e: Event, answers: Id, flights: map<Id, Flight>)
    requires e.kind == Complete && e.status == 0 && e.opcode == RESET && forall id <- flights :: id <= answers
    ensures Dropped(e, Some(answers), flights) == map[]
  {
  }

  predicate PartOf(left: map<Id, Flight>, flights: map<Id, Flight>) {
    forall id <- left :: id in flights && left[id] == flights[id]
  }

  /** The counts and the credit are no part of the invariant, and a reply that is gone owes nothing. */
  lemma FewerRepliesKeep(u: World, t: State, left: map<Id, Flight>)
    requires Inv(u) && PartOf(left, u.flights)
    requires t == u.tracker.(credit := t.credit, stale := t.stale, late := t.late, unexpected := t.unexpected)
    ensures Inv(u.(tracker := t, flights := left))
  {
    var v := u.(tracker := t, flights := left);
    forall id <- v.flights | v.current != Some(id) ensures Settled(v, id, v.flights[id]) {
      assert Settled(u, id, u.flights[id]);
    }
    hide Settled;
  }

  lemma AnsweredKeeps(u: World, t: State, left: map<Id, Flight>, outcome: Outcome)
    requires Inv(u) && u.current.Some? && u.current.value !in left && PartOf(left, u.flights)
    requires t == u.tracker.(pending := false, credit := t.credit, quarantined := t.quarantined)
    requires t.quarantined == u.tracker.quarantined || (t.quarantined == NONE_QUARANTINED && left == map[])
    ensures Inv(u.(tracker := t, flights := left, current := None, outcomes := u.outcomes + [(u.current.value, outcome)]))
  {
    var v := u.(tracker := t, flights := left, current := None, outcomes := u.outcomes + [(u.current.value, outcome)]);
    assert OneOutcomeEach(v) by { hide FlightsKnown; }
    hide OneOutcomeEach;
    assert Kept(v) by { hide FlightsKnown; }
    forall id <- v.flights ensures Settled(v, id, v.flights[id]) {
      assert Settled(u, id, u.flights[id]);
    }
    hide Settled;
  }

  lemma DroppedLeaves(e: Event, answers: Id, flights: map<Id, Flight>)
    ensures
      var left := Dropped(e, Some(answers), flights);
      left.Keys <= flights.Keys - {answers} && PartOf(left, flights)
  {
  }

  /** A late reply, or one nobody waits for. */
  lemma LateReplyKeeps(u: World, e: Event, now: U64, arrival: U64, answers: Id)
    requires Inv(u) && u.clock == now && IsReply(e) && !(u.tracker.Engaged() && u.tracker.opcode == e.opcode)
    requires answers in u.flights && u.flights[answers].opcode == e.opcode
    ensures
      var (t, r) := OnCommandEvent(u.tracker, e, now, arrival);
      var v := u.(tracker := t, flights := Dropped(e, Some(answers), u.flights));
      r.outcome == NoOutcome && (Inv(v) <==> !EndsForeignQuarantine(u, e, now, answers))
  {
    var i := Index(e.opcode).value;
    var (t, r) := OnCommandEvent(u.tracker, e, now, arrival);
    assert t.quarantined == u.tracker.quarantined[i := false];
    assert t == u.tracker.(credit := t.credit, quarantined := t.quarantined, late := t.late, unexpected := t.unexpected);
    assert r.outcome == NoOutcome;
    hide OnCommandEvent;
    LateStateKeeps(u, e, t, answers);
  }

  predicate AfterLate(u: World, e: Event, answers: Id, v: World)
    requires u.tracker.Shaped() && IsReply(e)
  {
    var t := v.tracker;
    && t.quarantined == u.tracker.quarantined[Index(e.opcode).value := false]
    && t == u.tracker.(credit := t.credit, quarantined := t.quarantined, late := t.late, unexpected := t.unexpected)
    && v == u.(tracker := t, flights := Dropped(e, Some(answers), u.flights))
  }

  lemma LateStateKeeps(u: World, e: Event, t: State, answers: Id)
    requires Inv(u) && IsReply(e) && !(u.tracker.Engaged() && u.tracker.opcode == e.opcode)
    requires answers in u.flights && u.flights[answers].opcode == e.opcode
    requires AfterLate(u, e, answers, u.(tracker := t, flights := Dropped(e, Some(answers), u.flights)))
    ensures Inv(u.(tracker := t, flights := Dropped(e, Some(answers), u.flights)))
            <==> !EndsForeignQuarantine(u, e, u.clock, answers)
  {
    var v := u.(tracker := t, flights := Dropped(e, Some(answers), u.flights));
    DroppedLeaves(e, answers, u.flights);
    hide Dropped, Index;
    if EndsForeignQuarantine(u, e, u.clock, answers) {
      var o := u.owner[Index(e.opcode).value];
      assert !Settled(v, o, v.flights[o]);
      hide Settled;
    } else {
      assert Kept(v) && OneOutcomeEach(v) by { hide FlightsKnown, Settled, EndsForeignQuarantine; }
      hide OneOutcomeEach;
      forall id <- v.flights | v.current != Some(id) ensures Settled(v, id, v.flights[id]) {
        assert Settled(u, id, u.flights[id]);
        LateSettles(u, e, v, answers, id);
      }
      hide Settled, EndsForeignQuarantine, Kept;
    }
  }

  lemma LateSettles(u: World, e: Event, v: World, answers: Id, id: Id)
    requires u.tracker.Shaped() && |u.owner| == SLOTS && |u.floors| == SLOTS && IsReply(e) && AfterLate(u, e, answers, v)
    requires v.tracker.Shaped() && !EndsForeignQuarantine(u, e, u.clock, answers)
    requires id in v.flights && id in u.flights && v.flights[id] == u.flights[id] && id != answers
    requires Settled(u, id, u.flights[id])
    ensures Settled(v, id, v.flights[id])
  {
    if Index(e.opcode) == Index(u.flights[id].opcode) { IndexNamesOne(e.opcode, u.flights[id].opcode); }
    hide Dropped, Index;
  }

  lemma IndexNamesOne(a: U16, b: U16)
    requires Index(a).Some? && Index(a) == Index(b)
    ensures a == b
  {
  }

  /** A delivery is a poll and then the event. */
  lemma DeliverByParts(w: World, a: Action)
    requires w.tracker.Shaped() && a.DoDeliver? && AfterPoll(w, a.now).tracker.Shaped()
    ensures AfterPoll(w, a.now).tracker == Poll(w.tracker, a.now).0
    ensures
      var e := a.event;
      var u := AfterPoll(w, a.now).(clock := a.now);
      if e.kind != Complete && e.kind != Status then Next(w, a) == u && !Wrong(w, a)
      else
        var (t, r) := OnCommandEvent(u.tracker, e, a.now, a.arrival);
        var v := u.(tracker := t, flights := Dropped(e, a.answers, u.flights));
        && Next(w, a) == (if r.outcome == NoOutcome || u.current.None? then v
                          else v.(current := None, outcomes := u.outcomes + [(u.current.value, r.outcome)]))
        && (Wrong(w, a) ==> r.outcome != NoOutcome && (a.answers.None? || a.answers != w.current))
  {
    hide OnCommandEvent, Dropped;
  }

  /** A poll that leaves a command pending leaves everything else as well. */
  lemma PollKeepsCurrent(w: World, now: U64)
    requires Inv(w)
    ensures AfterPoll(w, now).current.Some? ==> AfterPoll(w, now) == w
    ensures forall id <- w.flights :: id in AfterPoll(w, now).flights
                                      && AfterPoll(w, now).flights[id].opcode == w.flights[id].opcode
  {
    hide Settled;
  }

  /** A legal delivery keeps the invariant exactly when it ends no foreign quarantine, and then any
      completion is the pending command's own. */
  lemma DeliverKeeps(w: World, a: Action)
    requires Inv(w) && Legal(w, a) && a.DoDeliver?
    ensures Inv(Next(w, a)) <==> !Crosses(w, a)
    ensures !Wrong(w, a)
  {
    var e, now, arrival := a.event, a.now, a.arrival;
    PollKeeps(w, now);
    PollKeepsCurrent(w, now);
    var u := AfterPoll(w, now).(clock := now);
    assert u.tracker.Shaped() && u.tracker.Engaged() ==> u.current.Some?;
    DeliverByParts(w, a);
    hide AfterPoll, OnCommandEvent, Dropped, Settled, Next, Wrong, Poll, EndsForeignQuarantine, IsReply;
    if (e.kind == Complete || e.kind == Status) && !IsReply(e) {
      OtherEventKeeps(u, e, now, arrival);
      NothingDropped(e, u.flights);
    } else if e.kind == Complete || e.kind == Status {
      var id := a.answers.value;
      assert id in w.flights && id in u.flights && u.flights[id].opcode == e.opcode;
      ReplyNamesItsIndex(e);
      if u.tracker.Engaged() && u.tracker.opcode == e.opcode {
        EngagedReplyKeeps(u, e, now, arrival, id);
        NoForeignQuarantine(u, e, now, id);
      } else {
        LateReplyKeeps(u, e, now, arrival, id);
      }
    } else {
      ReplyKind(e);
    }
  }

  lemma NothingDropped(e: Event, flights: map<Id, Flight>)
    ensures Dropped(e, None, flights) == flights
  {
  }

  lemma ReplyKind(e: Event)
    ensures IsReply(e) ==> e.kind == Complete || e.kind == Status
  {
  }

  lemma ReplyNamesItsIndex(e: Event)
    requires IsReply(e)
    ensures Index(e.opcode).Some?
  {
  }

  lemma NoForeignQuarantine(u: World, e: Event, now: U64, answers: Id)
    requires Inv(u) && IsReply(e) && u.tracker.pending && u.tracker.opcode == e.opcode
    ensures !EndsForeignQuarantine(u, e, now, answers)
  {
  }

  lemma StepKeeps(w: World, a: Action)
    requires Inv(w) && Legal(w, a) && !Crosses(w, a)
    ensures Inv(Next(w, a)) && !Wrong(w, a)
  {
    hide Inv, Legal, AfterPoll, Deliver, Crosses;
    match a
    case DoIssue(opcode, now, timeout) => LegalTime(w, a); IssueKeeps(w, opcode, now, timeout);
    case DoBegin(now) => LegalTime(w, a); BeginKeeps(w, now);
    case DoMark(sendUs) => MarkKeeps(w, sendUs);
    case DoPoll(now) => LegalTime(w, a); PollKeeps(w, now);
    case DoDeliver(_, _, _, _) => DeliverKeeps(w, a);
    case DoReset => ResetKeeps(w);
  }

  lemma LegalTime(w: World, a: Action)
    requires Legal(w, a)
    ensures w.clock <= Time(w, a)
  {
  }

  lemma ResetKeeps(w: World)
    requires Inv(w)
    ensures Inv(Next(w, DoReset))
  {
  }

  // ---- runs ----

  predicate LegalRun(w: World, run: seq<Action>)
    requires w.tracker.Shaped()
    decreases |run|
  {
    run == [] || (Legal(w, run[0]) && LegalRun(Next(w, run[0]), run[1..]))
  }

  function Reach(w: World, run: seq<Action>): (r: World)
    requires w.tracker.Shaped()
    ensures r.tracker.Shaped()
    decreases |run|
  {
    if run == [] then w else Reach(Next(w, run[0]), run[1..])
  }

  /** No late reply along the run ends a foreign quarantine. */
  predicate NeverCrosses(w: World, run: seq<Action>)
    requires w.tracker.Shaped()
    decreases |run|
  {
    run == [] || (!Crosses(w, run[0]) && NeverCrosses(Next(w, run[0]), run[1..]))
  }

  /** Every completion and rejection along the run comes from the pending command's own reply. */
  predicate AllRight(w: World, run: seq<Action>)
    requires w.tracker.Shaped()
    decreases |run|
  {
    run == [] || (!Wrong(w, run[0]) && AllRight(Next(w, run[0]), run[1..]))
  }

  lemma {:induction false} RunKeeps(w: World, run: seq<Action>)
    requires Inv(w) && LegalRun(w, run) && NeverCrosses(w, run)
    ensures AllRight(w, run) && Inv(Reach(w, run))
    decreases |run|
  {
    if run != [] {
      StepKeeps(w, run[0]);
      hide Inv, Legal, Crosses, Next, Wrong;
      RunKeeps(Next(w, run[0]), run[1..]);
    }
  }

  /** Results come from the right reply, no command gets two outcomes, none that is still pending has
      one, and a pending opcode is never under quarantine. */
  predicate AnsweredRightly(run: seq<Action>) {
    var w := Reach(START, run);
    && AllRight(START, run)
    && (forall i, j | 0 <= i < j < |w.outcomes| :: w.outcomes[i].0 != w.outcomes[j].0)
    && (forall i | 0 <= i < |w.outcomes| :: w.outcomes[i].0 < w.nextId && w.current != Some(w.outcomes[i].0))
    && (w.tracker.pending ==> !w.tracker.quarantined[Index(w.tracker.opcode).value])
  }

  /** From power-on. */
  lemma RunsAnswerRightly(run: seq<Action>)
    requires LegalRun(START, run) && NeverCrosses(START, run)
    ensures AnsweredRightly(run)
  {
    StartIsGood();
    RunKeeps(START, run);
    hide AllRight, Reach, FlightsKnown;
  }
}
