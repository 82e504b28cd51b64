/** At most one receiver can be on, whatever fails, and no window opens while one is stuck. */
module RadioReceivers {
  import opened Basics
  import opened Coverage
  import opened RadioMessages
  import opened RadioModel

  /** Which receivers may be on: a start may turn one on even if it fails, and only a stop that worked
      turns it off. */
  function On(h: History): PerRadio<bool> {
    match h
    case Nothing => PerRadio(false, false)
    case Then(b, StartCalled(r, _, _, _)) => On(b).Set(r, true)
    case Then(b, StopCalled(r, _, Worked, _)) => On(b).Set(r, false)
    case Then(b, _) => On(b)
  }

  const NEITHER := PerRadio(false, false)

  /** At every moment at most one receiver may be on, and every start finds both off. */
  predicate Exclusive(h: History) {
    h.Then? ==>
      && Exclusive(h.before) && !(On(h).wifi && On(h).ble)
      && (h.last.StartCalled? ==> On(h.before) == NEITHER)
  }

  /** The flags say what the calls imply. */
  predicate FlagsTrue(s: Runner) { On(s.history) == s.running && Exclusive(s.history) }

  function Flags(s: Runner): PerRadio<bool> {
    var r := if s.stuck.Some? then NEITHER.Set(s.stuck.value, true) else NEITHER;
    if s.open.Some? && s.open.value.started then r.Set(s.open.value.window.radio, true) else r
  }

  /** With no window open a receiver is flagged running exactly when it is the stuck one; with a window
      open, when it is the stuck one or the one the window started, and never both. */
  predicate ReceiverInv(s: Runner) {
    && FlagsTrue(s) && s.running == Flags(s)
    && (s.open.Some? ==> s.open.value.started == !s.open.value.faulted)
    && (s.open.Some? && s.open.value.started ==> s.stuck.None?)
  }

  lemma EmitKeepsFlags(s: Runner, m: RadioMessage)
    requires FlagsTrue(s)
    ensures FlagsTrue(Emit(s, m))
  {
  }

  lemma FaultsKeepFlags(s: Runner, radio: Radio, fault: Fault)
    requires FlagsTrue(s)
    ensures FlagsTrue(NoteFault(s, radio, fault)) && FlagsTrue(ClearFault(s, radio))
  {
    var t := s.(clean := s.clean.Set(radio, 0));
    EmitKeepsFlags(t.(fault := s.fault.Set(radio, Some(fault))), FaultRaised(radio, fault));
    EmitKeepsFlags(t.(fault := s.fault.Set(radio, None)), FaultCleared(radio));
    hide Exclusive, On;
  }

  lemma StopKeepsFlags(s: Runner, radio: Radio, result: DriverResult, nowUs: U64)
    requires FlagsTrue(s)
    ensures
      var t := StopOrStick(s, radio, result, nowUs);
      && FlagsTrue(t) && t.open == s.open
      && t.running == (if result.Worked? then s.running.Set(radio, false) else s.running)
      && t.stuck == if result.Worked? then s.stuck else Some(radio)
  {
    if result.Failed? {
      var at := SaturatingAdd64(nowUs, STOP_RETRY_BACKOFF_US);
      var t := Note(s, StopCalled(radio, s.clock, result, nowUs));
      assert FlagsTrue(t);
      FaultsKeepFlags(t.(stuck := Some(radio), stopRetryAt := at, nextStart := None, clock := nowUs), radio, result.fault);
      hide Exclusive, On;
    }
  }

  lemma ApplyKeepsReceivers(s: Runner, r: ControlRequest)
    requires ReceiverInv(s) && s.sched.Valid() && s.open.None?
    ensures ReceiverInv(ApplyControl(s, r))
  {
    hide Merged, Configure, CleanAfter;
    if Changes(s, r) {
      var u := Reconfigured(s, Merged(s.sched.config, r));
      EmitKeepsFlags(u, ConfigApplied(ToConfigApplied(u.generation, u.sched.config)));
      hide On, Exclusive;
      var t := EmitConfig(u);
      FaultsKeepFlags(t, WifiRadio, Fault(StopOp, 0));
      FaultsKeepFlags(ClearIfDisabled(t, WifiRadio, t.sched.config.wifiEnabled), BleRadio, Fault(StopOp, 0));
    }
  }

  /** The other receiver is always off already when a window is planned: it is never stopped here. */
  lemma OtherIsOff(s: Runner, a: OpenAnswers)
    requires ReceiverInv(s) && MayOpen(s, a)
    ensures
      var (t, o) := Plan(s, a);
      t.running == NEITHER && StopOtherFirst(t, o.window.radio, a) == t
  {
    hide NextWindow, DeadlineOf, On, Exclusive;
  }

  lemma RunKeepsReceivers(s: Runner, a: OpenAnswers)
    requires ReceiverInv(s) && MayOpen(s, a)
    ensures ReceiverInv(RunWindow(s, a))
  {
    hide NextWindow, DeadlineOf;
    var (t, o) := Plan(s, a);
    assert FlagsTrue(t);
    OtherIsOff(s, a);
    StartKeepsReceivers(t, o, a);
    hide On, Exclusive, StartReceiver;
  }

  lemma StartKeepsReceivers(s: Runner, o: OpenWindow, a: OpenAnswers)
    requires FlagsTrue(s) && s.running == NEITHER && s.stuck.None? && !o.started && !o.faulted
    ensures ReceiverInv(StartReceiver(s, o, a))
  {
    match a.start
    case Worked =>
      var t := Note(s.(running := s.running.Set(o.window.radio, true), clock := a.rxStartUs),
          StartCalled(o.window.radio, o.window.channel, Worked, a.rxStartUs));
      assert FlagsTrue(t);
      var u := t.(open := Some(o.(started := true, rxStartUs := a.rxStartUs)));
      EmitKeepsFlags(u, WindowStarted(o.windowId, o.generation, o.window.radio, o.window.channel,
                                      a.rxStartUs / US_PER_MS, o.window.plannedMs));
    case Failed(fault) =>
      var t := Note(s.(running := s.running.Set(o.window.radio, true)), StartCalled(o.window.radio, o.window.channel,
          a.start, s.clock));
      assert FlagsTrue(t);
      hide On, Exclusive;
      FaultsKeepFlags(t, o.window.radio, fault);
      StopKeepsFlags(NoteFault(t, o.window.radio, fault), o.window.radio, a.stopSelf, a.selfUs);
  }

  lemma StopAtEndKeepsReceivers(s: Runner, a: CloseAnswers)
    requires ReceiverInv(s) && s.open.Some?
    ensures
      var t := StopAtEnd(s, s.open.value, a);
      FlagsTrue(t) && t.running == Flags(t.(open := None)) && t.open == s.open && t.sched == s.sched
  {
    var o := s.open.value;
    if o.started {
      var t := s.(clock := a.rxEndUs);
      var u := if MeasuredEnd(o, a) > MeasuredBegin(o) then Note(t, Received(MeasuredBegin(o), MeasuredEnd(o, a))) else t;
      assert FlagsTrue(u);
      hide On, Exclusive;
      StopKeepsFlags(u, o.window.radio, a.stop, a.stopUs);
    }
  }

  lemma FinishKeepsReceivers(s: Runner, pending: Option<ControlRequest>, a: CloseAnswers)
    requires ReceiverInv(s) && MayClose(s, pending, a)
    ensures ReceiverInv(FinishWindow(s, pending, a))
  {
    var o := s.open.value;
    var report := ReportOf(s, o, pending, a);
    StopAtEndKeepsReceivers(s, a);
    var t := StopAtEnd(s, o, a);
    TakeKeepsFlags(t, o, a);
    CountKeepsFlags(TakeDrops(t, o, a), report);
    var u := CountClean(TakeDrops(t, o, a), report);
    EmitKeepsFlags(u, WindowReported(report));
    hide On, Exclusive, StopAtEnd, CountClean, ReportOf;
    var v := Scheduled(Emit(u, WindowReported(report)), o, a).(open := None);
    if pending.Some? { ApplyKeepsReceivers(v, pending.value); }
  }

  lemma TakeKeepsFlags(s: Runner, o: OpenWindow, a: CloseAnswers)
    requires FlagsTrue(s)
    ensures FlagsTrue(TakeDrops(s, o, a))
  {
    assert FlagsTrue(Note(s.(carried := 0, clock := a.doneUs), Took(a.drops, a.doneUs)));
  }

  lemma CountKeepsFlags(s: Runner, r: WindowReport)
    requires FlagsTrue(s)
    ensures
      var t := CountClean(s, r);
      FlagsTrue(t) && t.running == s.running && t.stuck == s.stuck && t.open == s.open && t.sched == s.sched
  {
    FaultsKeepFlags(s.(clean := s.clean.Set(r.window.radio, Inc32(s.clean.Get(r.window.radio)))), r.window.radio,
        Fault(StopOp, 0));
    hide On, Exclusive;
  }

  lemma RetryKeepsReceivers(s: Runner, a: RetryAnswers)
    requires ReceiverInv(s) && MayRetry(s, a)
    ensures ReceiverInv(RetryStop(s, a))
  {
    if a.stop.Worked? {
      var radio := s.stuck.value;
      var t := Note(s.(running := s.running.Set(radio, false), stuck := None, clock := a.readyUs),
                    StopCalled(radio, a.readyUs, Worked, 0));
      assert FlagsTrue(t);
      var u := Note(t.(carried := SaturatingAdd32(s.carried, a.unattributed), nextStart := None),
                    Took(a.unattributed, a.readyUs));
      assert FlagsTrue(u);
      hide On, Exclusive;
      FaultsKeepFlags(u, radio, Fault(StopOp, 0));
    }
  }

  lemma ReceiversSafe(s: Runner, a: Action)
    requires ReceiverInv(s) && Legal(s, a)
    ensures ReceiverInv(Next(s, a))
  {
    match a
    case Announces => EmitKeepsFlags(s.(announced := true, generation := Inc32(s.generation)),
                                     ConfigApplied(ToConfigApplied(Inc32(s.generation), s.sched.config)));
                      hide On, Exclusive;
    case Applies(request) => hide On, Exclusive, ApplyControl; ApplyKeepsReceivers(s, request);
    case Rests =>
    case Opens(o) => hide On, Exclusive, RunWindow; RunKeepsReceivers(s, o);
    case Closes(pending, c) => hide On, Exclusive, FinishWindow; FinishKeepsReceivers(s, pending, c);
    case Retries(r) => hide On, Exclusive, RetryStop; RetryKeepsReceivers(s, r);
  }
}
