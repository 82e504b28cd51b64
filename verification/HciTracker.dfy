/** The HCI command tracker: one command at a time under the controller's credit
    (section 4.4 of Core v5.x Vol 4 Part E), with timeouts and a quarantine for
    each opcode whose reply is late. */
module HciTracker {
  import opened Basics
  import opened HciEvents

  const RESET: U16 := 0x0C03
  const SLOTS := 5

  /** The commands the tracker knows. */
  function Index(opcode: U16): (r: Option<nat>)
    ensures r.Some? ==> r.value < SLOTS
  {
    if opcode == RESET then Some(0)
    else if opcode == 0x0C01 then Some(1)
    else if opcode == 0x2001 then Some(2)
    else if opcode == 0x200B then Some(3)
    else if opcode == 0x200C then Some(4)
    else None
  }

  datatype Outcome = NoOutcome | Completed | RejectedBy | TimedOut | InvalidBoot

  datatype Result = Result(outcome: Outcome, status: Byte)

  const NO_RESULT := Result(NoOutcome, 0)

  datatype IssueResult = Issued | Busy | NoCredit | NeedsControllerReset | Quarantined | Invalid

  datatype State = State(
    pending: bool, sent: bool, reserved: bool, floorUs: U64, stale: U64, opcode: U16, deadline: U64, timeout: U64,
    credit: Byte, quarantineUntil: seq<U64>, quarantined: seq<bool>, unexpected: U64, late: U64)
  {
    predicate Shaped() {
      && |quarantineUntil| == SLOTS && |quarantined| == SLOTS
      && (pending ==> Index(opcode).Some?)
    }

    /** The packet is, or is about to be, out. */
    predicate Engaged() { pending && (sent || reserved) }
  }

  const FRESH := State(false, false, false, 0, 0, 0, 0, 0, 1, [0, 0, 0, 0, 0], [false, false, false, false, false], 0, 0)

  const NONE_QUARANTINED := [false, false, false, false, false]

  /** The quarantines still active at `now`. */
  function Expire(t: State, now: U64): (q: seq<bool>)
    requires t.Shaped()
    ensures |q| == SLOTS && forall j | 0 <= j < SLOTS :: q[j] == (t.quarantined[j] && now < t.quarantineUntil[j])
  {
    seq(SLOTS, j requires 0 <= j < SLOTS => t.quarantined[j] && now < t.quarantineUntil[j])
  }

  function Issue(t: State, opcode: U16, now: U64, timeout: U64): (r: (State, IssueResult))
    requires t.Shaped()
    ensures r.0.Shaped()
  {
    var i := Index(opcode);
    if i.None? || timeout == 0 || U64_MAX - now < timeout then (t, Invalid)
    else if t.pending then (t, Busy)
    else
      var u := t.(quarantined := Expire(t, now));
      if u.quarantined[i.value] then (u, Quarantined)
      else if u.credit == 0 then (u, if true in u.quarantined then NoCredit else NeedsControllerReset)
      else
        (u.(pending := true, sent := false, reserved := false, opcode := opcode, deadline := now + timeout,
            timeout := timeout),
         Issued)
  }

  predicate CanBegin(t: State, now: U64) {
    t.pending && !t.sent && !t.reserved && now <= t.deadline && t.credit > 0
  }

  function TryBeginSend(t: State, now: U64): State {
    if CanBegin(t, now) then t.(reserved := true, floorUs := now, credit := t.credit - 1) else t
  }

  function MarkSent(t: State, sendUs: U64): State {
    if t.pending && t.reserved && !t.sent then t.(sent := true, floorUs := Max(sendUs, t.floorUs)) else t
  }

  /** Twice the timeout after `now`, as far as the clock reaches. */
  function QuarantineEnd(now: U64, timeout: U64): U64 {
    if timeout > (U64_MAX - now) / 2 then U64_MAX else now + 2 * timeout
  }

  function Poll(t: State, now: U64): (r: (State, Result))
    requires t.Shaped()
    ensures r.0.Shaped()
  {
    if !t.pending || now <= t.deadline then (t, NO_RESULT)
    else
      var i := Index(t.opcode).value;
      var u := if t.sent || t.reserved
               then t.(quarantined := t.quarantined[i := true],
                       quarantineUntil := t.quarantineUntil[i := QuarantineEnd(now, t.timeout)])
               else t;
      (u.(pending := false), Result(TimedOut, 0))
  }

  function ResetController(t: State): State {
    t.(pending := false, sent := false, reserved := false, credit := 1, quarantined := NONE_QUARANTINED)
  }

  /** A Complete, or a Status that reports a failure, for `opcode`. */
  predicate Terminating(e: Event) { e.opcode != 0 && (e.kind == Complete || (e.kind == Status && e.status != 0)) }

  predicate Terminates(t: State, e: Event) { Terminating(e) && t.Engaged() && t.opcode == e.opcode }

  /** An event that gets as far as the pending command always terminates it. */
  lemma EngagedMeansTerminates(t: State, e: Event)
    requires (e.kind == Complete || e.kind == Status) && !(e.kind == Status && e.status == 0) && e.opcode != 0
    requires t.Engaged() && t.opcode == e.opcode
    ensures Terminates(t, e)
  {
  }

  /** Which command an event that names an opcode is taken to answer: a quarantined one, none, or
      the pending one. */
  function Attribute(t: State, e: Event, now: U64): (r: (State, Result))
    requires t.Shaped() && Terminating(e)
    ensures r.0.Shaped()
  {
    var i := Index(e.opcode);
    if i.Some? && t.quarantined[i.value] && now < t.quarantineUntil[i.value] then
      (t.(quarantined := t.quarantined[i.value := false], late := Inc64(t.late)), NO_RESULT)
    else
      var u := if i.Some? && t.quarantined[i.value] then t.(quarantined := t.quarantined[i.value := false]) else t;
      if !u.Engaged() || u.opcode != e.opcode then (u.(unexpected := Inc64(u.unexpected)), NO_RESULT)
      else
        var v := u.(pending := false);
        (if e.kind == Complete && e.status == 0 && e.opcode == RESET then v.(quarantined := NONE_QUARANTINED) else v,
         Result(if e.status != 0 then RejectedBy else Completed, e.status))
  }

  /** The event half of `OnEvent`, after its poll has let the pending command time out. */
  function OnCommandEvent(t: State, e: Event, now: U64, arrival: U64): (r: (State, Result))
    requires t.Shaped() && (e.kind == Complete || e.kind == Status)
    ensures r.0.Shaped()
  {
    if Terminates(t, e) && arrival < t.floorUs then (t.(stale := Inc64(t.stale)), NO_RESULT)
    else
      var u := t.(credit := if t.Engaged() && !Terminates(t, e) && e.credit > 0 then e.credit - 1 else e.credit);
      if Terminating(e) then Attribute(u, e, now) else (u, NO_RESULT)
  }

  function OnEvent(t: State, e: Event, now: U64, arrival: U64): (r: (State, Result))
    requires t.Shaped()
    ensures r.0.Shaped()
  {
    var (u, timedOut) := Poll(t, now);
    if e.kind != Complete && e.kind != Status then (u, timedOut)
    else
      var (v, result) := OnCommandEvent(u, e, now, arrival);
      (v, if result.outcome == NoOutcome then timedOut else result)
  }

  method AnyOf(flags: seq<bool>) returns (any: bool)
    ensures any <==> true in flags
  {
    for j := 0 to |flags|
      invariant true !in flags[..j]
    {
      if flags[j] { return true; }
    }
    assert flags[..|flags|] == flags;
    return false;
  }

  /** The tracker as the firmware runs it. */
  class Tracker {
    var pending: bool
    var sent: bool
    var reserved: bool
    var floorUs: U64
    var stale: U64
    var opcode: U16
    var deadline: U64
    var timeout: U64
    var credit: Byte
    var quarantineUntil: seq<U64>
    var quarantined: seq<bool>
    var unexpected: U64
    var late: U64

    function Model(): State
      reads this
    {
      State(pending, sent, reserved, floorUs, stale, opcode, deadline, timeout, credit, quarantineUntil, quarantined,
            unexpected, late)
    }

    constructor ()
      ensures Model() == FRESH && Model().Shaped()
    {
      pending, sent, reserved := false, false, false;
      floorUs, stale, opcode, deadline, timeout, credit := 0, 0, 0, 0, 0, 1;
      quarantineUntil, quarantined := [0, 0, 0, 0, 0], [false, false, false, false, false];
      unexpected, late := 0, 0;
    }

    method ExpireQuarantines(now: U64)
      requires Model().Shaped()
      modifies this`quarantined
      ensures quarantined == Expire(old(Model()), now)
    {
      for j := 0 to SLOTS
        invariant |quarantined| == SLOTS
        invariant forall k | 0 <= k < SLOTS ::
                    quarantined[k] == (old(quarantined[k]) && !(k < j && now >= quarantineUntil[k]))
      {
        if quarantined[j] && now >= quarantineUntil[j] { quarantined := quarantined[j := false]; }
      }
    }

    method IssueCommand(command: U16, now: U64, timeoutUs: U64) returns (r: IssueResult)
      requires Model().Shaped()
      modifies this
      ensures (Model(), r) == Issue(old(Model()), command, now, timeoutUs)
    {
      var i := Index(command);
      if i.None? || timeoutUs == 0 || U64_MAX - now < timeoutUs { return Invalid; }
      if pending { return Busy; }
      ExpireQuarantines(now);
      if quarantined[i.value] { return Quarantined; }
      if credit == 0 {
        var any := AnyOf(quarantined);
        return if any then NoCredit else NeedsControllerReset;
      }
      pending, sent, reserved := true, false, false;
      opcode := command;
      deadline := now + timeoutUs;
      timeout := timeoutUs;
      return Issued;
    }

    method BeginSend(now: U64) returns (ok: bool)
      modifies this
      ensures ok <==> CanBegin(old(Model()), now)
      ensures Model() == TryBeginSend(old(Model()), now)
    {
      if !pending || sent || reserved || now > deadline || credit == 0 { return false; }
      reserved := true;
      floorUs := now;
      credit := credit - 1;
      return true;
    }

    method Mark(sendUs: U64)
      modifies this
      ensures Model() == MarkSent(old(Model()), sendUs)
    {
      if !pending || !reserved || sent { return; }
      sent := true;
      if sendUs > floorUs { floorUs := sendUs; }
    }

    method PollDeadline(now: U64) returns (r: Result)
      requires Model().Shaped()
      modifies this
      ensures (Model(), r) == Poll(old(Model()), now)
    {
      if !pending || now <= deadline { return NO_RESULT; }
      if sent || reserved {
        var i := Index(opcode).value;
        quarantined := quarantined[i := true];
        var remaining := U64_MAX - now;
        quarantineUntil := quarantineUntil[i := if timeout > remaining / 2 then U64_MAX else now + 2 * timeout];
      }
      pending := false;
      return Result(TimedOut, 0);
    }

    method Reset()
      modifies this
      ensures Model() == ResetController(old(Model()))
    {
      pending, sent, reserved := false, false, false;
      credit := 1;
      quarantined := [false, false, false, false, false];
    }

    method HandleEvent(e: Event, now: U64, arrival: U64) returns (r: Result)
      requires Model().Shaped()
      modifies this
      ensures (Model(), r) == OnEvent(old(Model()), e, now, arrival)
    {
      hide Poll, OnCommandEvent;
      var timedOut := PollDeadline(now);
      if e.kind != Complete && e.kind != Status { return timedOut; }
      r := HandleCommandEvent(e, now, arrival);
      if r.outcome == NoOutcome { r := timedOut; }
    }

    method HandleCommandEvent(e: Event, now: U64, arrival: U64) returns (r: Result)
      requires Model().Shaped() && (e.kind == Complete || e.kind == Status)
      modifies this
      ensures (Model(), r) == OnCommandEvent(old(Model()), e, now, arrival)
    {
      var engaged := pending && (sent || reserved);
      var terminates := e.opcode != 0 && engaged && opcode == e.opcode && (e.kind == Complete || e.status != 0);
      ghost var t := Model();
      assert engaged == t.Engaged() && terminates == Terminates(t, e);
      hide Terminates, Index, Inc64, Attribute;
      if terminates && arrival < floorUs {
        stale := Inc64(stale);
        return NO_RESULT;
      }
      credit := if engaged && !terminates && e.credit > 0 then e.credit - 1 else e.credit;
      if e.kind == Status && e.status == 0 { return NO_RESULT; }
      if e.opcode == 0 { return NO_RESULT; }
      r := AttributeEvent(e, now);
    }

    method AttributeEvent(e: Event, now: U64) returns (r: Result)
      requires Model().Shaped() && Terminating(e)
      modifies this
      ensures (Model(), r) == Attribute(old(Model()), e, now)
    {
      hide Index, Inc64;
      var engaged := pending && (sent || reserved);
      var i := Index(e.opcode);
      if i.Some? && quarantined[i.value] {
        if now < quarantineUntil[i.value] {
          quarantined := quarantined[i.value := false];
          late := Inc64(late);
          return NO_RESULT;
        }
        quarantined := quarantined[i.value := false];
      }
      if !engaged || opcode != e.opcode {
        unexpected := Inc64(unexpected);
        return NO_RESULT;
      }
      pending := false;
      if e.kind == Complete && e.status == 0 && e.opcode == RESET { quarantined := NONE_QUARANTINED; }
      return Result(if e.status != 0 then RejectedBy else Completed, e.status);
    }
  }
}
