/** When things happen: what is measured never overlaps or exceeds the plan, windows keep their distance,
    and a stuck receiver is not hammered. */
module RadioTime {
  import opened Basics
  import opened Coverage
  import opened RadioMessages
  import opened RadioModel

  /** `latest` is the end of the newest receive interval and `receivedUs` the length of all of them;
      `unreportedUs` is what was received since the last report and `observedMs` what all reports claim.
      Of the window last opened, `planned` is its plan, `begun` the clock once its receiver had started and
      `ended` the clock before it was stopped; `taken` is the clock of the newest take. `due` is when the next
      window is to start, unless a change of configuration or a failed stop has cancelled it; `retryAt` is
      when a receiver that would not stop may be tried again. */
  datatype Times = Times(
    latest: U64, receivedUs: nat, unreportedUs: nat, observedMs: nat, planned: Option<(U64, U64)>,
    begun: Option<U64>, ended: Option<U64>, taken: U64, due: Option<U64>, retryAt: Option<U64>)
  {
    /** Receiving for a window, and not yet stopped. */
    predicate Receiving() { begun.Some? && ended.None? && planned.Some? }

    /** What there was to receive: from the later of planned and actual start to the earlier of deadline
        and stop. */
    function Span(stopUs: U64): nat
      requires begun.Some? && planned.Some?
    {
      var begin, end := Max(planned.value.0, begun.value), Min(planned.value.1, stopUs);
      if begin < end then end - begin else 0
    }

    function Measured(): nat { if begun.Some? && planned.Some? && ended.Some? then Span(ended.value) else 0 }
  }

  const NO_TIMES := Times(0, 0, 0, 0, None, None, None, 0, None, None)

  function Timed(t: Times, e: Event): Times {
    match e
    case Opened(_, _, start, deadline, _) =>
      t.(planned := Some((start, deadline)), begun := None, ended := None, due := None)
    case StartCalled(_, _, Worked, at) => t.(begun := Some(at))
    case Received(b, e) => t.(latest := e, receivedUs := t.receivedUs + if b < e then e - b else 0,
                              unreportedUs := t.unreportedUs + if b < e then e - b else 0)
    case StopCalled(_, at, stop, found) =>
      var u := if t.Receiving() then t.(ended := Some(at)) else t;
      if stop.Worked? then u.(retryAt := None)
      else u.(due := None, retryAt := Some(SaturatingAdd64(found, STOP_RETRY_BACKOFF_US)))
    case Took(_, at) => t.(taken := at)
    case Sent(WindowReported(r)) =>
      t.(observedMs := t.observedMs + r.observedMs, unreportedUs := 0, begun := None, ended := None,
         due := if t.retryAt.Some? || t.planned.None? then None else Some(Max(t.planned.value.1, t.taken)))
    case Sent(ConfigApplied(_)) => t.(due := None)
    case _ => t
  }

  function TimesOf(h: History): Times {
    match h
    case Nothing => NO_TIMES
    case Then(b, e) => Timed(TimesOf(b), e)
  }

  /** What each event may be, given what came before it. */
  predicate Timely(t: Times, e: Event) {
    match e
    case Opened(_, w, start, deadline, plannedUs) =>
      // When the window before it was over and reported, or at once.
      && start == (if t.due.Some? then t.due.value else plannedUs) && w.startMs == start / US_PER_MS
      && w.plannedMs <= MAX_WINDOW_MS && deadline == SaturatingAdd64(start, w.plannedMs * US_PER_MS)
    case Received(b, e) =>
      // After every earlier interval, and within the window's plan.
      && t.latest <= b < e && t.planned.Some? && t.planned.value.0 <= b && e <= t.planned.value.1
      && t.Receiving() && b == Max(t.planned.value.0, t.begun.value)
    case StopCalled(_, at, stop, found) =>
      // Once the backoff is over; all there was to receive by then has been.
      && (t.retryAt.Some? ==> t.retryAt.value <= at) && (stop.Failed? ==> at <= found)
      && (t.Receiving() ==> t.unreportedUs == t.Span(at)
                            && (t.unreportedUs > 0 ==> t.latest == Min(at, t.planned.value.1)))
    case Sent(WindowStarted(_, _, _, _, rxStartMs, _)) => t.begun.Some? && rxStartMs == t.begun.value / US_PER_MS
    case Sent(WindowReported(r)) =>
      // What was received, in whole milliseconds; complete only if it was received for up to its deadline.
      && t.unreportedUs == t.Measured() && r.observedMs == t.Measured() / US_PER_MS
      && r.observedMs <= r.window.plannedMs && t.planned.Some? && r.completedMs == t.taken / US_PER_MS
      && (r.end == Completed ==> t.begun.Some? && t.ended.Some? && t.planned.value.1 <= t.ended.value
                                 && t.planned.value.1 / US_PER_MS <= r.completedMs)
    case _ => true
  }

  predicate InTime(h: History) {
    h.Then? ==> InTime(h.before) && Timely(TimesOf(h.before), h.last)
  }

  predicate At(s: Runner, t: Times) { TimesOf(s.history) == t && InTime(s.history) }

  predicate WellPlanned(o: OpenWindow, clock: U64, origin: U64) {
    && o.window.plannedMs <= MAX_WINDOW_MS && o.deadlineUs == DeadlineOf(o.startUs, o.window)
    && (o.started ==> origin <= o.rxStartUs <= clock) && o.started == !o.faulted
  }

  /** All that was received fits between the first clock reading and the end of the last interval. */
  predicate Bounded(t: Times, origin: U64, clock: U64) {
    && origin <= clock && t.latest <= clock && t.receivedUs + origin <= Max(t.latest, origin)
    && t.observedMs * US_PER_MS + t.unreportedUs <= t.receivedUs
  }

  predicate Spaced(s: Runner, t: Times) {
    && (s.sched.Idle() ==> t.due.None?)
    && (t.due.Some? ==> s.stuck.None?)
    && t.retryAt == (if s.stuck.Some? then Some(s.stopRetryAt) else None)
    && if s.open.Some? then t.due.None? && !s.sched.Idle() else t.due == s.nextStart
  }

  predicate TimeInv(s: Runner, origin: U64) {
    var t := TimesOf(s.history);
    && s.sched.Valid() && At(s, t) && Bounded(t, origin, s.clock) && Spaced(s, t) && t.unreportedUs == 0 && t.ended.None?
    && (s.open.Some? ==>
          var o := s.open.value;
          && WellPlanned(o, s.clock, origin) && t.planned == Some((o.startUs, o.deadlineUs))
          && t.begun == (if o.started then Some(o.rxStartUs) else None)
          && (o.started ==> s.stuck.None? && t.latest <= o.rxStartUs))
    && (s.open.None? ==> t.begun.None?)
  }

  // ---- the small steps ----

  predicate Timeless(e: Event) {
    (e.StartCalled? && e.start.Failed?) || (e.Sent? && !e.message.WindowReported? && !e.message.ConfigApplied?)
  }

  lemma NoteKeepsTimes(s: Runner, e: Event, t: Times)
    requires At(s, t) && Timely(t, e)
    ensures At(Note(s, e), Timed(t, e)) && (Timeless(e) ==> Timed(t, e) == t)
  {
  }

  lemma FaultsKeepTimes(s: Runner, radio: Radio, fault: Fault, t: Times)
    requires At(s, t)
    ensures At(NoteFault(s, radio, fault), t) && At(ClearFault(s, radio), t)
  {
    NoteKeepsTimes(s, Sent(FaultRaised(radio, fault)), t);
    NoteKeepsTimes(s, Sent(FaultCleared(radio)), t);
    hide TimesOf, InTime;
  }

  lemma StopKeepsTimes(s: Runner, radio: Radio, result: DriverResult, nowUs: U64, t: Times)
    requires At(s, t) && t.retryAt.None? && s.stuck.None? && s.clock <= nowUs
    requires t.Receiving() ==> t.unreportedUs == t.Span(s.clock)
                               && (t.unreportedUs > 0 ==> t.latest == Min(s.clock, t.planned.value.1))
    ensures
      var u := StopOrStick(s, radio, result, nowUs);
      var v := if t.Receiving() then t.(ended := Some(s.clock)) else t;
      && u.open == s.open && u.sched == s.sched
      && if result.Worked? then At(u, v) && u.stuck.None? && u.clock == s.clock
         else u.stuck.Some? && u.clock == nowUs && At(u, v.(due := None, retryAt := Some(u.stopRetryAt)))
  {
    hide TimesOf, InTime;
    match result
    case Worked => NoteKeepsTimes(s, StopCalled(radio, s.clock, Worked, 0), t);
    case Failed(fault) =>
      var at := SaturatingAdd64(nowUs, STOP_RETRY_BACKOFF_US);
      var e := StopCalled(radio, s.clock, result, nowUs);
      NoteKeepsTimes(s, e, t);
      var u := Note(s, e);
      FaultsKeepTimes(u.(stuck := Some(radio), stopRetryAt := at, nextStart := None, clock := nowUs), radio, fault,
                      Timed(t, e));
  }

  // ---- the actions ----

  lemma ClearKeepsTimes(s: Runner, radio: Radio, enabled: bool, t: Times)
    requires At(s, t)
    ensures
      var u := ClearIfDisabled(s, radio, enabled);
      && At(u, t) && u.sched == s.sched && u.open == s.open && u.stuck == s.stuck && u.stopRetryAt == s.stopRetryAt
      && u.nextStart == s.nextStart && u.clock == s.clock
  {
    hide TimesOf, InTime;
    FaultsKeepTimes(s, radio, Fault(StopOp, 0), t);
  }

  lemma ApplyKeepsTimes(s: Runner, r: ControlRequest, origin: U64)
    requires TimeInv(s, origin) && s.open.None?
    ensures TimeInv(ApplyControl(s, r), origin)
  {
    hide TimesOf, InTime, Configure, CleanAfter, Merged, Normalize, ClearIfDisabled;
    if Changes(s, r) {
      var t := TimesOf(s.history);
      var u := Reconfigured(s, Merged(s.sched.config, r));
      NoteKeepsTimes(u, Sent(ConfigApplied(ToConfigApplied(u.generation, u.sched.config))), t);
      var v, w := EmitConfig(u), t.(due := None);
      ClearKeepsTimes(v, WifiRadio, v.sched.config.wifiEnabled, w);
      ClearKeepsTimes(ClearIfDisabled(v, WifiRadio, v.sched.config.wifiEnabled), BleRadio, v.sched.config.bleEnabled, w);
    }
  }

  /** A window is open, and its receiver has not started. */
  predicate Ready(s: Runner, o: OpenWindow, t: Times, origin: U64) {
    && s.sched.Valid() && At(s, t) && Bounded(t, origin, s.clock) && t.unreportedUs == 0
    && t.due.None? && t.retryAt.None? && t.planned == Some((o.startUs, o.deadlineUs)) && t.begun.None? && t.ended.None?
    && s.stuck.None? && !s.sched.Idle() && !o.started && !o.faulted && WellPlanned(o.(faulted := true), s.clock, origin)
  }

  lemma StartKeepsTimes(s: Runner, o: OpenWindow, a: OpenAnswers, origin: U64)
    requires Ready(s, o, TimesOf(s.history), origin) && s.clock <= a.rxStartUs <= a.selfUs
    ensures TimeInv(StartReceiver(s, o, a), origin)
  {
    hide TimesOf, InTime, DeadlineOf;
    var w, t := o.window, TimesOf(s.history);
    match a.start
    case Worked =>
      var e := StartCalled(w.radio, w.channel, Worked, a.rxStartUs);
      NoteKeepsTimes(s, e, t);
      var u := Note(s.(running := s.running.Set(w.radio, true), clock := a.rxStartUs), e);
      NoteKeepsTimes(u.(open := Some(o.(started := true, rxStartUs := a.rxStartUs))),
                     Sent(WindowStarted(o.windowId, o.generation, w.radio, w.channel, a.rxStartUs / US_PER_MS,
                         w.plannedMs)), Timed(t, e));
    case Failed(fault) =>
      var e := StartCalled(w.radio, w.channel, a.start, s.clock);
      NoteKeepsTimes(s, e, t);
      var u := Note(s.(running := s.running.Set(w.radio, true)), e);
      FaultsKeepTimes(u, w.radio, fault, t);
      StopKeepsTimes(NoteFault(u, w.radio, fault), w.radio, a.stopSelf, a.selfUs, t);
  }

  lemma PlanKeepsTimes(s: Runner, a: OpenAnswers, origin: U64)
    requires TimeInv(s, origin) && MayOpen(s, a)
    ensures
      var (u, o) := Plan(s, a);
      Ready(u, o, TimesOf(u.history), origin) && u.clock == a.readyUs && u.open.None?
  {
    var (u, o) := Plan(s, a);
    hide TimesOf, InTime;
    NoteKeepsTimes(s, Opened(o.windowId, o.window, o.startUs, o.deadlineUs, a.plannedAt), TimesOf(s.history));
  }

  lemma RunKeepsTimes(s: Runner, a: OpenAnswers, origin: U64)
    requires TimeInv(s, origin) && MayOpen(s, a)
    ensures TimeInv(RunWindow(s, a), origin)
  {
    PlanKeepsTimes(s, a, origin);
    var (t, o) := Plan(s, a);
    hide TimesOf, InTime, DeadlineOf, StartReceiver, Plan;
    if t.running.Get(Other(o.window.radio)) {
      StopKeepsTimes(t, Other(o.window.radio), a.stopOther, a.otherUs, TimesOf(t.history));
    }
    hide StopOrStick;
    var u := StopOtherFirst(t, o.window.radio, a);
    if u.stuck.None? { StartKeepsTimes(u, o, a, origin); }
  }

  lemma CountKeepsTimes(s: Runner, r: WindowReport, t: Times)
    requires At(s, t)
    ensures
      var u := CountClean(s, r);
      At(u, t) && u.sched == s.sched && u.stuck == s.stuck && u.stopRetryAt == s.stopRetryAt && u.clock == s.clock
  {
    hide TimesOf, InTime;
    FaultsKeepTimes(s.(clean := s.clean.Set(r.window.radio, Inc32(s.clean.Get(r.window.radio)))),
                    r.window.radio, Fault(StopOp, 0), t);
  }

  /** The interval measured for a window, as an event and as milliseconds. */
  lemma MeasuredWithinPlan(o: OpenWindow, a: CloseAnswers)
    requires o.window.plannedMs <= MAX_WINDOW_MS && o.deadlineUs == DeadlineOf(o.startUs, o.window)
    ensures Observed(o, a) <= o.window.plannedMs
    ensures
      var measured := if o.started && MeasuredEnd(o, a) > MeasuredBegin(o) then MeasuredEnd(o, a) - MeasuredBegin(o) else 0;
      Observed(o, a) == measured / US_PER_MS && Observed(o, a) * US_PER_MS <= measured
  {
    if o.started && MeasuredEnd(o, a) > MeasuredBegin(o) {
      var us := MeasuredEnd(o, a) - MeasuredBegin(o);
      assert us <= o.window.plannedMs * US_PER_MS;
      var ms := us / US_PER_MS;
      assert ms <= o.window.plannedMs && ms * US_PER_MS <= us;
      assert Low32(ms) == ms;
    }
  }

  lemma EndKeepsTimes(s: Runner, a: CloseAnswers, origin: U64)
    requires TimeInv(s, origin) && s.open.Some? && s.clock <= a.rxEndUs <= a.stopUs <= a.doneUs
    ensures
      var o := s.open.value;
      var u := StopAtEnd(s, o, a);
      var t := TimesOf(u.history);
      && At(u, t) && u.sched == s.sched && Bounded(t, origin, a.doneUs) && !s.sched.Idle()
      && t.unreportedUs == t.Measured() && Observed(o, a) == t.Measured() / US_PER_MS
      && t.planned == Some((o.startUs, o.deadlineUs))
      && (o.started ==> t.begun.Some? && t.ended == Some(a.rxEndUs))
      && t.retryAt == (if u.stuck.Some? then Some(u.stopRetryAt) else None)
  {
    hide TimesOf, InTime, DeadlineOf;
    var o, t := s.open.value, TimesOf(s.history);
    MeasuredWithinPlan(o, a);
    if o.started {
      var begin, end := MeasuredBegin(o), MeasuredEnd(o, a);
      var v := s.(clock := a.rxEndUs);
      if end > begin {
        NoteKeepsTimes(v, Received(begin, end), t);
        StopKeepsTimes(Note(v, Received(begin, end)), o.window.radio, a.stop, a.stopUs, Timed(t, Received(begin, end)));
      } else {
        StopKeepsTimes(v, o.window.radio, a.stop, a.stopUs, t);
      }
    }
    hide Observed, StopOrStick;
  }

  lemma TakeKeepsTimes(s: Runner, o: OpenWindow, a: CloseAnswers, t: Times)
    requires At(s, t)
    ensures
      var u := TakeDrops(s, o, a);
      && At(u, t.(taken := a.doneUs)) && u.sched == s.sched && u.stuck == s.stuck && u.stopRetryAt == s.stopRetryAt
      && u.clock == a.doneUs
  {
    hide TimesOf, InTime;
    var u := s.(carried := 0, clock := a.doneUs);
    NoteKeepsTimes(u, Took(a.drops, a.doneUs), t);
    NoteKeepsTimes(Note(u, Took(a.drops, a.doneUs)), Took(a.unattributed, a.doneUs), t.(taken := a.doneUs));
  }

  lemma DivMonotone(a: nat, b: nat)
    requires a <= b
    ensures a / US_PER_MS <= b / US_PER_MS
  {
  }

  lemma FinishKeepsTimes(s: Runner, pending: Option<ControlRequest>, a: CloseAnswers, origin: U64)
    requires TimeInv(s, origin) && MayClose(s, pending, a)
    ensures TimeInv(FinishWindow(s, pending, a), origin)
  {
    var o := s.open.value;
    var report := ReportOf(s, o, pending, a);
    MeasuredWithinPlan(o, a);
    EndKeepsTimes(s, a, origin);
    var u := StopAtEnd(s, o, a);
    var t := TimesOf(u.history);
    assert report.observedMs == Observed(o, a) && report.window == o.window && report.completedMs == a.doneUs / US_PER_MS;
    assert report.end == Completed ==> o.started && o.deadlineUs <= a.rxEndUs <= a.doneUs;
    DivMonotone(o.deadlineUs, Max(o.deadlineUs, a.doneUs));
    hide TimesOf, InTime, StopAtEnd, Observed, ReportOf, DeadlineOf, Times.Measured;
    TakeKeepsTimes(u, o, a, t);
    var t2 := t.(taken := a.doneUs);
    assert t2.Measured() == t.Measured() by { TakenIsNoMeasure(t, a.doneUs); }
    CountKeepsTimes(TakeDrops(u, o, a), report, t2);
    var v := CountClean(TakeDrops(u, o, a), report);
    NoteKeepsTimes(v, Sent(WindowReported(report)), t2);
    hide CountClean, TakeDrops;
    var w := Scheduled(Emit(v, WindowReported(report)), o, a).(open := None);
    var x := Timed(t2, Sent(WindowReported(report)));
    assert At(w, x) && Bounded(x, origin, w.clock) && Spaced(w, x);
    if pending.Some? { ApplyKeepsTimes(w, pending.value, origin); }
    hide ApplyControl;
  }

  lemma TakenIsNoMeasure(t: Times, at: U64)
    ensures t.(taken := at).Measured() == t.Measured()
  {
  }

  lemma RetryKeepsTimes(s: Runner, a: RetryAnswers, origin: U64)
    requires TimeInv(s, origin) && MayRetry(s, a)
    ensures TimeInv(RetryStop(s, a), origin)
  {
    hide TimesOf, InTime;
    var radio, t := s.stuck.value, TimesOf(s.history);
    match a.stop
    case Failed(_) => NoteKeepsTimes(s, StopCalled(radio, a.readyUs, a.stop, a.stopUs), t);
    case Worked =>
      var u := s.(running := s.running.Set(radio, false), stuck := None, clock := a.readyUs);
      NoteKeepsTimes(u, StopCalled(radio, a.readyUs, Worked, 0), t);
      var v := Note(u, StopCalled(radio, a.readyUs, Worked, 0));
      var w := v.(carried := SaturatingAdd32(s.carried, a.unattributed), nextStart := None);
      var e := Took(a.unattributed, a.readyUs);
      NoteKeepsTimes(w, e, t.(retryAt := None));
      FaultsKeepTimes(Note(w, e), radio, Fault(StopOp, 0), t.(retryAt := None, taken := a.readyUs));
  }

  lemma TimesHold(s: Runner, a: Action, origin: U64)
    requires TimeInv(s, origin) && Legal(s, a)
    requires s.announced || (s.open.None? && s.history == Nothing)
    ensures TimeInv(Next(s, a), origin)
  {
    match a
    case Announces =>
      var t := s.(announced := true, generation := Inc32(s.generation));
      NoteKeepsTimes(t, Sent(ConfigApplied(ToConfigApplied(t.generation, t.sched.config))), TimesOf(s.history));
      hide TimesOf, InTime;
    case Applies(request) => hide TimesOf, InTime, ApplyControl; ApplyKeepsTimes(s, request, origin);
    case Rests => hide TimesOf, InTime;
    case Opens(o) => hide TimesOf, InTime, RunWindow; RunKeepsTimes(s, o, origin);
    case Closes(pending, c) => hide TimesOf, InTime, FinishWindow; FinishKeepsTimes(s, pending, c, origin);
    case Retries(r) => hide TimesOf, InTime, RetryStop; RetryKeepsTimes(s, r, origin);
  }
}
