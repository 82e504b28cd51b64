/** Which faults the app loop hears of: each failed call of the driver, as the driver put it, and nothing else; and a
    radio that is off has none. */
module RadioFaults {
  import opened Basics
  import opened Coverage
  import opened RadioMessages
  import opened RadioModel
  import opened RadioReceivers
  import opened RadioReplay

  /** The receiver whose stop failed and has not worked since. */
  function StuckOf(h: History): Option<Radio> {
    match h
    case Nothing => None
    case Then(b, StopCalled(r, _, Failed(_), _)) => Some(r)
    case Then(b, StopCalled(r, _, Worked, _)) => None
    case Then(b, _) => StuckOf(b)
  }

  /** What a failed start, or a failed stop of a receiver not yet stuck, has to say. */
  function FailureOf(b: History, e: Event): Option<(Radio, Fault)> {
    match e
    case StartCalled(r, _, Failed(f), _) => Some((r, f))
    case StopCalled(r, _, Failed(f), _) => if StuckOf(b) == Some(r) then None else Some((r, f))
    case _ => None
  }

  /** The failure of the last event, if it has one. */
  function Failure(h: History): Option<(Radio, Fault)> { if h.Then? then FailureOf(h.before, h.last) else None }

  /** The app loop has heard of the fault. */
  predicate Heard(h: History, failure: (Radio, Fault)) {
    Replay(h).ledger.faults.Get(failure.0) == Some(failure.1)
  }

  /** A fault is raised directly after the call that failed, for its radio and with its fault; and a failure the app
      loop has not heard of yet is raised at once. */
  predicate FaultsFollow(h: History) {
    h.Then? ==>
      && FaultsFollow(h.before)
      && (h.last.Sent? && h.last.message.FaultRaised? ==>
            Failure(h.before) == Some((h.last.message.radio, h.last.message.fault)))
      && (Failure(h.before).Some? && !Heard(h.before, Failure(h.before).value) ==>
            h.last == Sent(FaultRaised(Failure(h.before).value.0, Failure(h.before).value.1)))
  }

  /** So far, and with the last failure heard of. */
  predicate Settled(h: History) { FaultsFollow(h) && (Failure(h).Some? ==> Heard(h, Failure(h).value)) }

  predicate Known(s: Runner) {
    Settled(s.history) && Replay(s.history).ledger.faults == s.fault && StuckOf(s.history) == s.stuck
  }

  predicate Enabled(c: ObservationConfig, r: Radio) { if r == WifiRadio then c.wifiEnabled else c.bleEnabled }

  /** A radio that is off, and whose receiver is, has no fault. */
  predicate OffIsFaultless(s: Runner) {
    forall r: Radio :: !Enabled(s.sched.config, r) && s.stuck != Some(r) ==> s.fault.Get(r).None?
  }

  predicate FaultInv(s: Runner) {
    && Known(s) && OffIsFaultless(s)
    && (s.stuck.Some? ==> s.fault.Get(s.stuck.value).Some?)
    && (s.open.Some? ==> Enabled(s.sched.config, s.open.value.window.radio) && Dated(s.open.value))
  }

  /** A window ends no later than planned. */
  predicate Dated(o: OpenWindow) {
    o.window.plannedMs <= MAX_WINDOW_MS && o.deadlineUs <= o.startUs + o.window.plannedMs * US_PER_MS
  }

  // ---- the small steps ----

  lemma QuietSettles(h: History, e: Event)
    requires Settled(h) && FailureOf(h, e).None? && !(e.Sent? && e.message.FaultRaised?)
    ensures Settled(Then(h, e))
  {
  }

  lemma FailureSettles(h: History, e: Event, radio: Radio, fault: Fault)
    requires Settled(h) && FailureOf(h, e) == Some((radio, fault))
    ensures Heard(Then(h, e), (radio, fault)) ==> Settled(Then(h, e))
    ensures !Heard(Then(h, e), (radio, fault)) ==> Settled(Then(Then(h, e), Sent(FaultRaised(radio, fault))))
  {
    hide Record, ToObservationConfig;
    var g := Then(h, e);
    assert FaultsFollow(g) && Failure(g) == Some((radio, fault));
    if !Heard(g, (radio, fault)) { assert Failure(Then(g, Sent(FaultRaised(radio, fault)))).None?; }
  }

  /** A failed call and the fault that follows it. */
  lemma FailureKnown(s: Runner, e: Event, radio: Radio, fault: Fault, t: Runner)
    requires Known(s) && FailureOf(s.history, e) == Some((radio, fault)) && !e.Sent?
    requires t.history == Then(s.history, e) && t.fault == s.fault && t.stuck == StuckOf(t.history)
    ensures Known(NoteFault(t, radio, fault)) && NoteFault(t, radio, fault).fault.Get(radio) == Some(fault)
    ensures NoteFault(t, radio, fault) == t.(clean := NoteFault(t, radio, fault).clean,
                                             fault := s.fault.Set(radio, Some(fault)),
                                             history := NoteFault(t, radio, fault).history)
  {
    hide Record, ToObservationConfig;
    FailureSettles(s.history, e, radio, fault);
    assert Replay(t.history) == Replay(s.history);
  }

  lemma QuietKnown(s: Runner, e: Event)
    requires Known(s) && FailureOf(s.history, e).None?
    requires e.Sent? ==> !e.message.FaultRaised? && !e.message.FaultCleared?
    requires e.StopCalled? ==> e.stop.Failed? && s.stuck == Some(e.stopped)
    ensures Known(Note(s, e))
  {
    hide AddTotals, Newest, ToObservationConfig;
    QuietSettles(s.history, e);
  }

  lemma ClearKnown(s: Runner, radio: Radio)
    requires Known(s)
    ensures Known(ClearFault(s, radio)) && ClearFault(s, radio).fault == s.fault.Set(radio, None)
    ensures ClearFault(s, radio)
            == s.(clean := ClearFault(s, radio).clean, fault := ClearFault(s, radio).fault,
                  history := ClearFault(s, radio).history)
  {
    hide Record, ToObservationConfig;
    QuietSettles(s.history, Sent(FaultCleared(radio)));
  }

  /** What a stop leaves. */
  lemma StopKnown(s: Runner, radio: Radio, result: DriverResult, nowUs: U64)
    requires Known(s) && s.stuck.None?
    ensures
      var t := StopOrStick(s, radio, result, nowUs);
      && Known(t) && t.open == s.open && t.sched == s.sched
      && (result.Worked? ==> t.stuck.None? && t.fault == s.fault)
      && (result.Failed? ==> t.stuck == Some(radio) && t.fault == s.fault.Set(radio, Some(result.fault)))
  {
    match result
    case Worked => QuietSettles(s.history, StopCalled(radio, s.clock, Worked, 0));
    case Failed(fault) =>
      var e := StopCalled(radio, s.clock, result, nowUs);
      var t := Note(s, e).(stuck := Some(radio), stopRetryAt := SaturatingAdd64(nowUs, STOP_RETRY_BACKOFF_US),
                           nextStart := None, clock := nowUs);
      FailureKnown(s, e, radio, fault, t);
  }

  // ---- the actions ----

  lemma OpenKnown(s: Runner, a: OpenAnswers)
    requires FaultInv(s) && MayOpen(s, a) && ReceiverInv(s)
    ensures FaultInv(RunWindow(s, a))
  {
    var (t, o) := Plan(s, a);
    var radio := o.window.radio;
    QuietKnown(s, Opened(o.windowId, o.window, o.startUs, o.deadlineUs, a.plannedAt));
    assert Enabled(t.sched.config, radio);
    hide Known;
    assert s.running == NEITHER;
    assert StopOtherFirst(t, radio, a) == t;
    StartKnown(t, o, a);
  }

  lemma StartKnown(s: Runner, o: OpenWindow, a: OpenAnswers)
    requires Known(s) && OffIsFaultless(s) && s.stuck.None? && Enabled(s.sched.config, o.window.radio) && Dated(o)
    ensures FaultInv(StartReceiver(s, o, a))
  {
    var w := o.window;
    var on := s.(running := s.running.Set(w.radio, true));
    match a.start
    case Worked =>
      QuietKnown(on.(clock := a.rxStartUs), StartCalled(w.radio, w.channel, Worked, a.rxStartUs));
      var t := Note(on.(clock := a.rxStartUs), StartCalled(w.radio, w.channel, Worked, a.rxStartUs));
      QuietKnown(t.(open := Some(o.(started := true, rxStartUs := a.rxStartUs))),
                 StartedMessage(o, a));
      hide Known;
    case Failed(fault) =>
      var e := StartCalled(w.radio, w.channel, a.start, s.clock);
      FailureKnown(on, e, w.radio, fault, Note(on, e));
      var t := NoteFault(Note(on, e), w.radio, fault);
      hide Known, NoteFault;
      StopKnown(t, w.radio, a.stopSelf, a.selfUs);
      KnownOf(StopOrStick(t, w.radio, a.stopSelf, a.selfUs), Some(o.(faulted := true)));
  }

  function StartedMessage(o: OpenWindow, a: OpenAnswers): Event {
    Sent(WindowStarted(o.windowId, o.generation, o.window.radio, o.window.channel, a.rxStartUs / US_PER_MS,
                       o.window.plannedMs))
  }

  lemma KnownOf(s: Runner, open: Option<OpenWindow>)
    requires Known(s)
    ensures Known(s.(open := open))
  {
  }

  lemma ClearsIfOff(s: Runner, radio: Radio, enabled: bool)
    requires Known(s)
    ensures
      var t := ClearIfDisabled(s, radio, enabled);
      && Known(t) && t.stuck == s.stuck && t.sched == s.sched && t.open == s.open
      && t.fault == (if !enabled && s.stuck != Some(radio) then s.fault.Set(radio, None) else s.fault)
  {
    if !enabled && s.stuck != Some(radio) { ClearKnown(s, radio); }
    hide Known, ClearFault;
  }

  lemma ApplyKnown(s: Runner, r: ControlRequest)
    requires Known(s) && OffIsFaultless(s) && s.sched.Valid() && s.open.None?
    requires s.stuck.Some? ==> s.fault.Get(s.stuck.value).Some?
    ensures FaultInv(ApplyControl(s, r))
  {
    hide Configure, CleanAfter, Merged;
    if Changes(s, r) {
      var t := Reconfigured(s, Merged(s.sched.config, r));
      QuietKnown(t, Sent(ConfigApplied(ToConfigApplied(t.generation, t.sched.config))));
      var u := EmitConfig(t);
      ClearsIfOff(u, WifiRadio, u.sched.config.wifiEnabled);
      var v := ClearIfDisabled(u, WifiRadio, u.sched.config.wifiEnabled);
      ClearsIfOff(v, BleRadio, v.sched.config.bleEnabled);
      hide Known, EmitConfig, ClearIfDisabled;
    }
  }

  lemma RetryKnown(s: Runner, a: RetryAnswers)
    requires FaultInv(s) && MayRetry(s, a)
    ensures FaultInv(RetryStop(s, a))
  {
    var radio := s.stuck.value;
    match a.stop
    case Failed(_) =>
      QuietKnown(s, StopCalled(radio, a.readyUs, a.stop, a.stopUs));
      hide Known;
    case Worked =>
      QuietSettles(s.history, StopCalled(radio, a.readyUs, Worked, 0));
      var t := Note(s.(running := s.running.Set(radio, false), stuck := None, clock := a.readyUs),
                    StopCalled(radio, a.readyUs, Worked, 0));
      var v := t.(carried := SaturatingAdd32(s.carried, a.unattributed), nextStart := None);
      QuietKnown(v, Took(a.unattributed, a.readyUs));
      ClearKnown(Note(v, Took(a.unattributed, a.readyUs)), radio);
      hide Known, ClearFault;
  }

  lemma EndKnown(s: Runner, o: OpenWindow, a: CloseAnswers)
    requires Known(s) && (o.started ==> s.stuck.None?)
    ensures
      var t := TakeDrops(StopAtEnd(s, o, a), o, a);
      && Known(t) && t.sched == s.sched && t.open == s.open
      && (if o.started && a.stop.Failed?
          then t.stuck == Some(o.window.radio) && t.fault == s.fault.Set(o.window.radio, Some(a.stop.fault))
          else t.stuck == s.stuck && t.fault == s.fault)
  {
    var t := s.(clock := a.rxEndUs);
    QuietKnown(t, Received(MeasuredBegin(o), MeasuredEnd(o, a)));
    var u := if MeasuredEnd(o, a) > MeasuredBegin(o) then Note(t, Received(MeasuredBegin(o), MeasuredEnd(o, a))) else t;
    if o.started { StopKnown(u, o.window.radio, a.stop, a.stopUs); }
    var v := StopAtEnd(s, o, a);
    hide StopOrStick, StopAtEnd;
    QuietKnown(v.(carried := 0, clock := a.doneUs), Took(a.drops, a.doneUs));
    QuietKnown(Note(v.(carried := 0, clock := a.doneUs), Took(a.drops, a.doneUs)), Took(a.unattributed, a.doneUs));
    hide Known;
  }

  /** A window's report clears its own radio's fault or none, and none after a failure in it. */
  lemma CountKnown(s: Runner, r: WindowReport)
    requires Known(s)
    ensures
      var t := CountClean(s, r);
      && Known(t) && t.sched == s.sched && t.open == s.open && t.stuck == s.stuck
      && (t.fault == s.fault || (r.end == Completed && t.fault == s.fault.Set(r.window.radio, None)))
  {
    var radio := r.window.radio;
    ClearKnown(s.(clean := s.clean.Set(radio, Inc32(s.clean.Get(radio)))), radio);
    hide ClearFault;
  }

  lemma FinishKnown(s: Runner, pending: Option<ControlRequest>, a: CloseAnswers)
    requires FaultInv(s) && ReceiverInv(s) && MayClose(s, pending, a)
    ensures FaultInv(FinishWindow(s, pending, a))
  {
    var o := s.open.value;
    var report := ReportOf(s, o, pending, a);
    EndKnown(s, o, a);
    var t := TakeDrops(StopAtEnd(s, o, a), o, a);
    CountKnown(t, report);
    var u := CountClean(t, report);
    assert u.stuck.Some? ==> report.end == DriverFault;
    hide TakeDrops, StopAtEnd, CountClean, ReportOf;
    QuietKnown(u, Sent(WindowReported(report)));
    hide Known;
    var v := Scheduled(Emit(u, WindowReported(report)), o, a).(open := None);
    KnownElsewhere(Emit(u, WindowReported(report)), v);
    if pending.Some? { ApplyKnown(v, pending.value); }
    hide ApplyControl;
  }

  lemma KnownElsewhere(s: Runner, t: Runner)
    requires Known(s) && t.history == s.history && t.fault == s.fault && t.stuck == s.stuck
    ensures Known(t)
  {
  }

  /** Every action keeps all this. */
  lemma FaultsHold(s: Runner, a: Action)
    requires FaultInv(s) && ReceiverInv(s) && Legal(s, a)
    ensures FaultInv(Next(s, a))
  {
    match a
    case Announces =>
      var t := s.(announced := true, generation := Inc32(s.generation));
      QuietKnown(t, Sent(ConfigApplied(ToConfigApplied(t.generation, t.sched.config))));
      hide Known, ToConfigApplied;
    case Applies(request) => hide Known, ApplyControl; ApplyKnown(s, request);
    case Rests =>
    case Opens(o) => hide Known, RunWindow; OpenKnown(s, o);
    case Closes(pending, c) => hide Known, FinishWindow; FinishKnown(s, pending, c);
    case Retries(r) => hide Known, RetryStop; RetryKnown(s, r);
  }

  lemma NewRunnerHasNone(given: ObservationConfig, clock: U64)
    ensures FaultInv(NewRunner(given, clock))
  {
    hide Normalize;
  }

  // ---- how a Bluetooth fault clears ----

  /** While Bluetooth has a fault no clean window of its counts. */
  predicate BleUncounted(s: Runner) { s.fault.ble.Some? ==> s.clean.ble == 0 }

  lemma FaultsUncount(s: Runner, radio: Radio, fault: Fault)
    requires BleUncounted(s)
    ensures BleUncounted(NoteFault(s, radio, fault))
    ensures BleUncounted(ClearFault(s, radio))
  {
  }

  lemma StopUncounts(s: Runner, radio: Radio, result: DriverResult, nowUs: U64)
    requires BleUncounted(s)
    ensures BleUncounted(StopOrStick(s, radio, result, nowUs))
    ensures result.Worked? ==> StopOrStick(s, radio, result, nowUs).fault == s.fault
    ensures result.Worked? ==> StopOrStick(s, radio, result, nowUs).clean == s.clean
  {
    if result.Failed? {
      FaultsUncount(Note(s, StopCalled(radio, s.clock, result, nowUs)).(
          stuck := Some(radio), stopRetryAt := SaturatingAdd64(nowUs, STOP_RETRY_BACKOFF_US), nextStart := None,
          clock := nowUs), radio, result.fault);
      hide NoteFault;
    }
  }

  lemma ApplyUncounts(s: Runner, r: ControlRequest)
    requires BleUncounted(s) && s.sched.Valid()
    ensures BleUncounted(ApplyControl(s, r))
  {
    hide Configure, Merged, ToConfigApplied;
  }

  lemma OpenUncounts(s: Runner, a: OpenAnswers)
    requires BleUncounted(s) && MayOpen(s, a)
    ensures BleUncounted(RunWindow(s, a))
  {
    var (t, o) := Plan(s, a);
    var radio := o.window.radio;
    StopUncounts(t, Other(radio), a.stopOther, a.otherUs);
    var u := StopOtherFirst(t, radio, a);
    if u.stuck.None? && a.start.Failed? {
      var v := Note(u.(running := u.running.Set(radio, true)), StartCalled(radio, o.window.channel, a.start, u.clock));
      FaultsUncount(v, radio, a.start.fault);
      StopUncounts(NoteFault(v, radio, a.start.fault), radio, a.stopSelf, a.selfUs);
    }
    hide NoteFault, StopOrStick, Plan;
  }

  lemma CountUncounts(s: Runner, r: WindowReport)
    requires BleUncounted(s)
    ensures BleUncounted(CountClean(s, r))
    ensures r.window.radio == BleRadio && s.fault.ble.Some? ==>
              (CountClean(s, r).fault.ble.None? <==> r.end == Completed && r.observedMs > 0)
  {
  }

  lemma ReportUncounts(s: Runner, o: OpenWindow, pending: Option<ControlRequest>, a: CloseAnswers)
    requires BleUncounted(s)
    ensures BleUncounted(ReportWindow(s, o, pending, a))
    ensures o.window.radio == BleRadio && s.fault.ble.Some? && (o.started ==> a.stop.Worked?) ==>
              (ReportWindow(s, o, pending, a).fault.ble.None?
               <==> ReportOf(s, o, pending, a).end == Completed && Observed(o, a) > 0)
  {
    var t := s.(clock := a.rxEndUs);
    var u := if MeasuredEnd(o, a) > MeasuredBegin(o) then Note(t, Received(MeasuredBegin(o), MeasuredEnd(o, a))) else t;
    StopUncounts(u, o.window.radio, a.stop, a.stopUs);
    var v := TakeDrops(StopAtEnd(s, o, a), o, a);
    CountUncounts(v, ReportOf(s, o, pending, a));
    hide StopOrStick, CountClean, Observed;
  }

  lemma UncountedStays(s: Runner, a: Action)
    requires BleUncounted(s) && Legal(s, a)
    ensures BleUncounted(Next(s, a))
  {
    match a
    case Announces => hide ToConfigApplied;
    case Applies(request) => hide ApplyControl; ApplyUncounts(s, request);
    case Rests =>
    case Opens(o) => hide RunWindow; OpenUncounts(s, o);
    case Closes(pending, c) =>
      var o := s.open.value;
      ReportUncounts(s, o, pending, c);
      hide ReportWindow, ApplyControl;
      if pending.Some? { ApplyUncounts(Scheduled(ReportWindow(s, o, pending, c), o, c).(open := None), pending.value); }
    case Retries(r) =>
      if r.stop.Worked? {
        var radio := s.stuck.value;
        var t := Note(s.(running := s.running.Set(radio, false), stuck := None, clock := r.readyUs),
                      StopCalled(radio, r.readyUs, Worked, 0));
        FaultsUncount(Note(t.(carried := SaturatingAdd32(s.carried, r.unattributed), nextStart := None),
                           Took(r.unattributed, r.readyUs)), radio, Fault(StopOp, 0));
        hide ClearFault, NoteFault;
      }
  }

  /** A Bluetooth fault clears at the end of the first window that started, was received for a millisecond or more and
      stopped when asked to, and at the end of no other. */
  lemma BleClearsAtOnce(s: Runner, a: CloseAnswers)
    requires FaultInv(s) && BleUncounted(s) && ReceiverInv(s) && MayClose(s, None, a)
    requires s.open.value.window.radio == BleRadio && s.fault.ble.Some?
    ensures
      var o := s.open.value;
      FinishWindow(s, None, a).fault.ble.None?
      <==> o.started && a.stop.Worked? && Min(a.rxEndUs, o.deadlineUs) - Max(o.rxStartUs, o.startUs) >= 1000
  {
    var o := s.open.value;
    hide Known;
    ReportUncounts(s, o, None, a);
    ObservedSomething(o, a);
    if o.started && a.stop.Failed? { FailedStaysFaulty(s, o, a); }
    hide ReportWindow, Observed;
  }

  lemma ObservedSomething(o: OpenWindow, a: CloseAnswers)
    requires Dated(o)
    ensures Observed(o, a) > 0 <==> o.started && Min(a.rxEndUs, o.deadlineUs) - Max(o.rxStartUs, o.startUs) >= 1000
  {
  }

  lemma FailedStaysFaulty(s: Runner, o: OpenWindow, a: CloseAnswers)
    requires o.started && a.stop.Failed? && o.window.radio == BleRadio && s.fault.ble.Some?
    ensures ReportWindow(s, o, None, a).fault.ble.Some?
  {
  }
}
