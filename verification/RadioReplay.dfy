/** The app loop's copy, rebuilt from the messages alone, agrees with the radio task after every action. */
module RadioReplay {
  import opened Basics
  import opened Coverage
  import opened RadioMessages
  import opened RadioModel

  /** The messages to the app loop, in order. */
  function Messages(h: History): seq<RadioMessage> {
    match h
    case Nothing => []
    case Then(b, Sent(m)) => Messages(b) + [m]
    case Then(b, _) => Messages(b)
  }

  /** The app loop's copy after taking them all. */
  function Replay(h: History): Replica {
    match h
    case Nothing => NEW_REPLICA
    case Then(b, Sent(m)) => Pump(Replay(b), m)
    case Then(b, _) => Replay(b)
  }

  lemma {:induction false} ReplayIsPumping(h: History)
    ensures Replay(h) == PumpAll(NEW_REPLICA, Messages(h))
  {
    hide Pump, PumpAll;
    match h
    case Nothing => assert PumpAll(NEW_REPLICA, []) == NEW_REPLICA by { PumpNothing(); }
    case Then(b, Sent(m)) => ReplayIsPumping(b); PumpOneMore(NEW_REPLICA, Messages(b), m);
    case Then(b, _) => ReplayIsPumping(b);
  }

  lemma PumpNothing()
    ensures PumpAll(NEW_REPLICA, []) == NEW_REPLICA
  {
  }

  /** No configuration message falls between a window's start and its report, and both bear the generation the app
      loop holds. Each configuration bears the next generation and, after the first, changes something; each fault
      message changes the fault. */
  predicate InGeneration(r: Replica, m: RadioMessage) {
    match m
    case ConfigApplied(c) =>
      && r.active.None? && c.generation == Inc32(r.generation)
      && (r == NEW_REPLICA || ToObservationConfig(c) != r.config)
    case FaultRaised(radio, fault) => r.ledger.faults.Get(radio) != Some(fault)
    case FaultCleared(radio) => r.ledger.faults.Get(radio).Some?
    case WindowStarted(_, generation, _, _, _, _) => generation == r.generation
    case WindowReported(report) => report.generation == r.generation
  }

  predicate ConfigBetween(h: History) {
    h.Then? ==> ConfigBetween(h.before) && (h.last.Sent? ==> InGeneration(Replay(h.before), h.last.message))
  }

  /** The window whose receiver is on and whose report is still to come. */
  function ActiveOf(s: Runner): Option<ActiveWindow> {
    if s.open.Some? && s.open.value.started
    then
      var o := s.open.value;
      Some(ActiveWindow(o.window.radio, o.window.channel, o.windowId, o.rxStartUs / US_PER_MS, o.window.plannedMs))
    else None
  }

  predicate Mirrored(s: Runner, active: Option<ActiveWindow>) {
    var r := Replay(s.history);
    && r.config == s.sched.config && r.generation == s.generation && r.active == active && r.ledger.faults == s.fault
    && ConfigBetween(s.history)
  }

  predicate Unannounced(s: Runner) {
    && s.history == Nothing && s.generation == 0 && s.windowId == 0 && s.fault == PerRadio(None, None)
    && s.open.None? && s.stuck.None? && s.nextStart.None? && s.carried == 0
  }

  predicate ReplayInv(s: Runner) {
    && s.sched.Valid() && (if s.announced then Mirrored(s, ActiveOf(s)) else Unannounced(s))
    && (s.open.Some? ==> s.open.value.generation == s.generation)
  }

  // ---- the small steps ----

  lemma NoteKeepsMirror(s: Runner, e: Event, active: Option<ActiveWindow>)
    requires Mirrored(s, active) && !e.Sent?
    ensures Mirrored(Note(s, e), active)
  {
  }

  lemma FaultsKeepMirror(s: Runner, radio: Radio, fault: Fault, active: Option<ActiveWindow>)
    requires Mirrored(s, active)
    ensures Mirrored(NoteFault(s, radio, fault), active) && Mirrored(ClearFault(s, radio), active)
  {
    hide Record, ToObservationConfig;
  }

  lemma StopKeepsMirror(s: Runner, radio: Radio, result: DriverResult, nowUs: U64, active: Option<ActiveWindow>)
    requires Mirrored(s, active)
    ensures Mirrored(StopOrStick(s, radio, result, nowUs), active)
    ensures StopOrStick(s, radio, result, nowUs).announced == s.announced
    ensures StopOrStick(s, radio, result, nowUs).sched == s.sched
    ensures StopOrStick(s, radio, result, nowUs).generation == s.generation
  {
    match result
    case Worked => NoteKeepsMirror(s, StopCalled(radio, s.clock, Worked, 0), active);
    case Failed(fault) =>
      var at := SaturatingAdd64(nowUs, STOP_RETRY_BACKOFF_US);
      NoteKeepsMirror(s, StopCalled(radio, s.clock, result, nowUs), active);
      var t := Note(s, StopCalled(radio, s.clock, result, nowUs));
      hide Replay, ConfigBetween;
      FaultsKeepMirror(t.(stuck := Some(radio), stopRetryAt := at, nextStart := None, clock := nowUs), radio, fault, active);
  }

  lemma ConfigMirrors(s: Runner)
    requires s.sched.Valid() && ConfigBetween(s.history)
    requires Replay(s.history).active.None? && Replay(s.history).ledger.faults == s.fault
    requires s.generation == Inc32(Replay(s.history).generation)
    requires Replay(s.history) == NEW_REPLICA || s.sched.config != Replay(s.history).config
    ensures Mirrored(EmitConfig(s), None)
  {
    hide Record;
    ConfigRoundTrip(s.generation, s.sched.config);
    NormalizeIsNormal(s.sched.config);
    hide ToObservationConfig, ToConfigApplied, Normalize;
  }

  lemma MergedIsNormal(c: ObservationConfig, r: ControlRequest)
    ensures Normal(Merged(c, r)) && Normalize(Merged(c, r)) == Merged(c, r)
  {
    hide Normalize, Normal;
    var given := ObservationConfig(
      if r.wifiEnabled.Some? then r.wifiEnabled.value else c.wifiEnabled,
      if r.bleEnabled.Some? then r.bleEnabled.value else c.bleEnabled,
      if r.hasChannels then r.channels[..Min(r.channelCount, MAX_PLAN_CHANNELS)] else c.channels,
      if r.wifiDwellMs.Some? then r.wifiDwellMs.value else c.wifiDwellMs,
      if r.bleWindowMs.Some? then r.bleWindowMs.value else c.bleWindowMs);
    NormalizeIsNormal(given);
    NormalizeIsNormal(Normalize(given));
  }

  /** A control request changes just the members it names, each to what it names, put into force. */
  lemma MergedSays(c: ObservationConfig, r: ControlRequest)
    requires Normal(c)
    ensures
      var m := Merged(c, r);
      && m.wifiEnabled == (if r.wifiEnabled.Some? then r.wifiEnabled.value else c.wifiEnabled)
      && m.bleEnabled == (if r.bleEnabled.Some? then r.bleEnabled.value else c.bleEnabled)
      && (if r.wifiDwellMs.Some? then WindowSays(r.wifiDwellMs.value, m.wifiDwellMs) else m.wifiDwellMs == c.wifiDwellMs)
      && (if r.bleWindowMs.Some? then WindowSays(r.bleWindowMs.value, m.bleWindowMs) else m.bleWindowMs == c.bleWindowMs)
      && (!r.hasChannels ==> m.channels == c.channels)
      && (r.hasChannels ==>
            m.channels == Normalize(c.(channels := r.channels[..Min(r.channelCount, 14)])).channels)
  {
    var given := ObservationConfig(
      if r.wifiEnabled.Some? then r.wifiEnabled.value else c.wifiEnabled,
      if r.bleEnabled.Some? then r.bleEnabled.value else c.bleEnabled,
      if r.hasChannels then r.channels[..Min(r.channelCount, MAX_PLAN_CHANNELS)] else c.channels,
      if r.wifiDwellMs.Some? then r.wifiDwellMs.value else c.wifiDwellMs,
      if r.bleWindowMs.Some? then r.bleWindowMs.value else c.bleWindowMs);
    assert Merged(c, r) == Normalize(given);
    NormalizeSays(given);
    NormalizeIsNormal(c);
    SameChannels(given, if r.hasChannels then c.(channels := given.channels) else c);
    hide Merged, Normalize, InOrderOf, ValidPlan;
  }

  lemma SameChannels(a: ObservationConfig, b: ObservationConfig)
    requires a.channels == b.channels
    ensures Normalize(a).channels == Normalize(b).channels
  {
    hide Kept;
  }

  // ---- the actions ----

  lemma ApplyKeepsMirror(s: Runner, r: ControlRequest)
    requires Mirrored(s, None) && s.sched.Valid()
    ensures Mirrored(ApplyControl(s, r), None)
    ensures ApplyControl(s, r).announced == s.announced && ApplyControl(s, r).sched.Valid()
    ensures ApplyControl(s, r).open == s.open
  {
    hide Configure, CleanAfter, Merged;
    if Changes(s, r) {
      var t := Reconfigured(s, Merged(s.sched.config, r));
      MergedIsNormal(s.sched.config, r);
      hide Normalize, Normal;
      ConfigMirrors(t);
      hide Replay, ConfigBetween;
      var u := EmitConfig(t);
      FaultsKeepMirror(u, WifiRadio, Fault(StopOp, 0), None);
      FaultsKeepMirror(ClearIfDisabled(u, WifiRadio, u.sched.config.wifiEnabled), BleRadio, Fault(StopOp, 0), None);
    }
  }

  lemma StartKeepsMirror(s: Runner, o: OpenWindow, a: OpenAnswers)
    requires Mirrored(s, None) && s.announced && s.sched.Valid() && !o.started && !o.faulted
    requires o.generation == s.generation
    ensures ReplayInv(StartReceiver(s, o, a))
  {
    var w := o.window;
    match a.start
    case Worked =>
      NoteKeepsMirror(s.(running := s.running.Set(w.radio, true), clock := a.rxStartUs), StartCalled(w.radio,
          w.channel, Worked, a.rxStartUs), None);
      hide Record, ToObservationConfig;
    case Failed(fault) =>
      NoteKeepsMirror(s.(running := s.running.Set(w.radio, true)), StartCalled(w.radio, w.channel, a.start, s.clock), None);
      hide Replay, ConfigBetween;
      var t := Note(s.(running := s.running.Set(w.radio, true)), StartCalled(w.radio, w.channel, a.start, s.clock));
      FaultsKeepMirror(t, w.radio, fault, None);
      StopKeepsMirror(NoteFault(t, w.radio, fault), w.radio, a.stopSelf, a.selfUs, None);
  }

  lemma RunKeepsMirror(s: Runner, a: OpenAnswers)
    requires ReplayInv(s) && MayOpen(s, a)
    ensures ReplayInv(RunWindow(s, a))
  {
    hide NextWindow, DeadlineOf, StartReceiver;
    var (t, o) := Plan(s, a);
    assert Mirrored(t, None);
    hide Replay, ConfigBetween;
    StopKeepsMirror(t, Other(o.window.radio), a.stopOther, a.otherUs, None);
    var u := StopOtherFirst(t, o.window.radio, a);
    assert Mirrored(u, None);
    if u.stuck.None? { StartKeepsMirror(u, o, a); }
  }

  lemma ReportMirrors(s: Runner, r: WindowReport, active: Option<ActiveWindow>)
    requires Mirrored(s, active) && (active.Some? ==> active.value.windowId == r.windowId)
    requires r.generation == s.generation
    ensures Mirrored(Emit(s, WindowReported(r)), None)
  {
    hide ToObservationConfig, AddTotals;
  }

  lemma FinishKeepsMirror(s: Runner, pending: Option<ControlRequest>, a: CloseAnswers)
    requires ReplayInv(s) && MayClose(s, pending, a) && s.announced
    ensures ReplayInv(FinishWindow(s, pending, a))
  {
    var o, active := s.open.value, ActiveOf(s);
    var report := ReportOf(s, o, pending, a);
    EndKeepsMirror(s, o, a, active);
    var t := TakeDrops(StopAtEnd(s, o, a), o, a);
    hide Replay, ConfigBetween, StopAtEnd, TakeDrops;
    CountKeepsMirror(t, report, active);
    var u := CountClean(t, report);
    ReportMirrors(u, report, active);
    hide CountClean, ReportOf;
    var v := Scheduled(Emit(u, WindowReported(report)), o, a).(open := None);
    assert Mirrored(v, None);
    if pending.Some? { ApplyKeepsMirror(v, pending.value); }
    hide ApplyControl;
  }

  lemma EndKeepsMirror(s: Runner, o: OpenWindow, a: CloseAnswers, active: Option<ActiveWindow>)
    requires Mirrored(s, active)
    ensures
      var t := TakeDrops(StopAtEnd(s, o, a), o, a);
      Mirrored(t, active) && t.announced == s.announced && t.sched == s.sched && t.generation == s.generation
  {
    var t := s.(clock := a.rxEndUs);
    NoteKeepsMirror(t, Received(MeasuredBegin(o), MeasuredEnd(o, a)), active);
    var u := if MeasuredEnd(o, a) > MeasuredBegin(o) then Note(t, Received(MeasuredBegin(o), MeasuredEnd(o, a))) else t;
    hide Replay, ConfigBetween;
    StopKeepsMirror(u, o.window.radio, a.stop, a.stopUs, active);
    var v := StopAtEnd(s, o, a);
    NoteKeepsMirror(v.(carried := 0, clock := a.doneUs), Took(a.drops, a.doneUs), active);
    NoteKeepsMirror(Note(v.(carried := 0, clock := a.doneUs), Took(a.drops, a.doneUs)), Took(a.unattributed, a.doneUs),
                    active);
  }

  lemma CountKeepsMirror(s: Runner, r: WindowReport, active: Option<ActiveWindow>)
    requires Mirrored(s, active)
    ensures Mirrored(CountClean(s, r), active)
    ensures CountClean(s, r).announced == s.announced && CountClean(s, r).sched == s.sched
    ensures CountClean(s, r).generation == s.generation
  {
    hide Replay, ConfigBetween;
    var t := s.(clean := s.clean.Set(r.window.radio, Inc32(s.clean.Get(r.window.radio))));
    FaultsKeepMirror(t, r.window.radio, Fault(StopOp, 0), active);
  }

  lemma RetryKeepsMirror(s: Runner, a: RetryAnswers)
    requires ReplayInv(s) && MayRetry(s, a) && s.announced
    ensures ReplayInv(RetryStop(s, a))
  {
    var radio := s.stuck.value;
    match a.stop
    case Failed(_) => assert Mirrored(RetryStop(s, a), None);
    case Worked =>
      var t := Note(s.(running := s.running.Set(radio, false), stuck := None, clock := a.readyUs),
                    StopCalled(radio, a.readyUs, Worked, 0));
      NoteKeepsMirror(s.(running := s.running.Set(radio, false), stuck := None, clock := a.readyUs),
                      StopCalled(radio, a.readyUs, Worked, 0), None);
      NoteKeepsMirror(t.(carried := SaturatingAdd32(s.carried, a.unattributed), nextStart := None),
          Took(a.unattributed, a.readyUs), None);
      hide Replay, ConfigBetween;
      FaultsKeepMirror(Note(t.(carried := SaturatingAdd32(s.carried, a.unattributed), nextStart := None),
          Took(a.unattributed, a.readyUs)),
                       radio, Fault(StopOp, 0), None);
  }

  /** After every action the messages sent so far rebuild, at the app loop, the scheduler's exact
      configuration and generation, the window in progress and each radio's active fault. */
  lemma CopyAgrees(s: Runner, a: Action)
    requires ReplayInv(s) && Legal(s, a)
    ensures ReplayInv(Next(s, a))
  {
    match a
    case Announces =>
      hide ToConfigApplied;
      var t := s.(announced := true, generation := Inc32(s.generation));
      ConfigMirrors(t);
      EmitConfigFrame(t);
      hide Replay, ConfigBetween, EmitConfig;
    case Applies(request) => hide Replay, ConfigBetween, ApplyControl; ApplyKeepsMirror(s, request);
    case Rests =>
    case Opens(o) => hide Replay, ConfigBetween, RunWindow; RunKeepsMirror(s, o);
    case Closes(pending, c) => hide Replay, ConfigBetween, FinishWindow; FinishKeepsMirror(s, pending, c);
    case Retries(r) => hide Replay, ConfigBetween, RetryStop; RetryKeepsMirror(s, r);
  }

  lemma EmitConfigFrame(s: Runner)
    ensures var t := EmitConfig(s); t == s.(history := t.history)
  {
  }
}
