/** The radio task's scheduling loop: its state, and what each part of a step does to it. */
module RadioModel {
  import opened Basics
  import opened Coverage
  import opened RadioMessages

  const US_PER_MS: U64 := 1000
  const STOP_RETRY_BACKOFF_US: U64 := 1_000_000

  /** What the driver answers to a start or a stop. */
  datatype DriverResult = Worked | Failed(fault: Fault)

  datatype ControlRequest = ControlRequest(
    wifiEnabled: Option<bool>, bleEnabled: Option<bool>, hasChannels: bool, channelCount: U8, channels: PlanArray,
    wifiDwellMs: Option<U32>, bleWindowMs: Option<U32>)

  /** Everything the runner does that others can see, newest last: messages to the app loop, calls to the
      driver with their answers, and for the proofs the plan of each window and what it measured. Times are
      clock readings: a window's when it is planned, a start's taken right after it, a stop's the latest
      before it and, if it failed, the one taken then, and a take's the one that goes with it. */
  datatype Event =
    | Sent(message: RadioMessage)
    | Opened(windowId: U32, window: Window, startUs: U64, deadlineUs: U64, plannedUs: U64)
    | StartCalled(radio: Radio, channel: U8, start: DriverResult, startedUs: U64)
    | StopCalled(stopped: Radio, atUs: U64, stop: DriverResult, foundUs: U64)
    | Received(beginUs: U64, endUs: U64)
    | Took(count: U32, takenUs: U64)

  datatype History = Nothing | Then(before: History, last: Event)

  datatype OpenWindow = OpenWindow(
    window: Window, windowId: U32, generation: U32, startUs: U64, deadlineUs: U64, rxStartUs: U64,
    started: bool, faulted: bool)

  /** `clock` is the latest reading; the clock never runs backwards. */
  datatype Runner = Runner(
    sched: Scheduler, announced: bool, generation: U32, windowId: U32, nextStart: Option<U64>,
    running: PerRadio<bool>, fault: PerRadio<Option<Fault>>, clean: PerRadio<U32>, carried: U32,
    open: Option<OpenWindow>, stuck: Option<Radio>, stopRetryAt: U64, clock: U64, history: History)

  function NewRunner(given: ObservationConfig, clock: U64): Runner {
    Runner(NewScheduler(given), false, 0, 0, None, PerRadio(false, false), PerRadio(None, None), PerRadio(0, 0), 0,
           None, None, 0, clock, Nothing)
  }

  // ---- small steps ----

  function Note(s: Runner, e: Event): Runner { s.(history := Then(s.history, e)) }

  function Emit(s: Runner, m: RadioMessage): Runner { Note(s, Sent(m)) }

  function EmitConfig(s: Runner): Runner { Emit(s, ConfigApplied(ToConfigApplied(s.generation, s.sched.config))) }

  function NoteFault(s: Runner, radio: Radio, fault: Fault): Runner {
    var t := s.(clean := s.clean.Set(radio, 0));
    if s.fault.Get(radio) == Some(fault) then t
    else Emit(t.(fault := s.fault.Set(radio, Some(fault))), FaultRaised(radio, fault))
  }

  function ClearFault(s: Runner, radio: Radio): Runner {
    var t := s.(clean := s.clean.Set(radio, 0));
    if s.fault.Get(radio).None? then t
    else Emit(t.(fault := s.fault.Set(radio, None)), FaultCleared(radio))
  }

  /** A receiver that would not stop. `nowUs` is the clock read when that was found. */
  function NoteStopFailure(s: Runner, radio: Radio, fault: Fault, nowUs: U64): Runner {
    NoteFault(s.(stuck := Some(radio), stopRetryAt := SaturatingAdd64(nowUs, STOP_RETRY_BACKOFF_US), nextStart := None,
                 clock := nowUs),
              radio, fault)
  }

  /** A stop, and if it fails, what follows: the receiver is stuck. */
  function StopOrStick(s: Runner, radio: Radio, result: DriverResult, nowUs: U64): Runner {
    match result
    case Worked => Note(s.(running := s.running.Set(radio, false)), StopCalled(radio, s.clock, Worked, 0))
    case Failed(fault) =>
      NoteStopFailure(Note(s, StopCalled(radio, s.clock, result, nowUs)), radio, fault, nowUs)
  }

  // ---- the operator's changes ----

  function Merged(c: ObservationConfig, r: ControlRequest): ObservationConfig {
    Normalize(ObservationConfig(
      if r.wifiEnabled.Some? then r.wifiEnabled.value else c.wifiEnabled,
      if r.bleEnabled.Some? then r.bleEnabled.value else c.bleEnabled,
      if r.hasChannels then r.channels[..Min(r.channelCount, MAX_PLAN_CHANNELS)] else c.channels,
      if r.wifiDwellMs.Some? then r.wifiDwellMs.value else c.wifiDwellMs,
      if r.bleWindowMs.Some? then r.bleWindowMs.value else c.bleWindowMs))
  }

  predicate Changes(s: Runner, r: ControlRequest) { Merged(s.sched.config, r) != s.sched.config }

  /** A new plan or an enable change restarts a radio's clean pass. */
  function CleanAfter(s: Runner, next: ObservationConfig): PerRadio<U32> {
    var before := s.sched.config;
    PerRadio(if next.wifiEnabled != before.wifiEnabled || next.channels != before.channels then 0 else s.clean.wifi,
             if next.bleEnabled != before.bleEnabled then 0 else s.clean.ble)
  }

  function Reconfigured(s: Runner, next: ObservationConfig): Runner
    requires s.sched.Valid()
  {
    s.(sched := Configure(s.sched, next), clean := CleanAfter(s, next), generation := Inc32(s.generation), nextStart := None)
  }

  /** A disabled radio's fault clears, unless its receiver is still stuck on. */
  function ClearIfDisabled(s: Runner, radio: Radio, enabled: bool): Runner {
    if !enabled && s.stuck != Some(radio) then ClearFault(s, radio) else s
  }

  function ApplyControl(s: Runner, r: ControlRequest): Runner
    requires s.sched.Valid()
  {
    if !Changes(s, r) then s
    else
      var t := EmitConfig(Reconfigured(s, Merged(s.sched.config, r)));
      var u := ClearIfDisabled(t, WifiRadio, t.sched.config.wifiEnabled);
      ClearIfDisabled(u, BleRadio, u.sched.config.bleEnabled)
  }

  function Announce(s: Runner): Runner { EmitConfig(s.(announced := true, generation := Inc32(s.generation))) }

  // ---- windows ----

  /** What the driver answers while a window is opened. `plannedAt` is the clock when it is planned, `readyUs`
      when its start has been reached; `otherUs` and `selfUs` are read after a failed stop. */
  datatype OpenAnswers = OpenAnswers(
    plannedAt: U64, readyUs: U64, stopOther: DriverResult, otherUs: U64, start: DriverResult, rxStartUs: U64,
    stopSelf: DriverResult, selfUs: U64)

  function StartOf(s: Runner, a: OpenAnswers): U64 { if s.nextStart.Some? then s.nextStart.value else a.plannedAt }

  predicate MayOpen(s: Runner, a: OpenAnswers) {
    && s.sched.Valid() && s.announced && s.open.None? && s.stuck.None? && !s.sched.Idle()
    && s.clock <= a.plannedAt <= a.readyUs && StartOf(s, a) <= a.readyUs
    && a.readyUs <= a.otherUs <= a.rxStartUs <= a.selfUs
  }

  function DeadlineOf(startUs: U64, w: Window): U64
    requires w.plannedMs <= MAX_WINDOW_MS
  {
    SaturatingAdd64(startUs, w.plannedMs * US_PER_MS)
  }

  /** The window is taken from the schedule. */
  function Plan(s: Runner, a: OpenAnswers): (Runner, OpenWindow)
    requires MayOpen(s, a)
  {
    var start := StartOf(s, a);
    var (w, sched) := NextWindow(s.sched, start / US_PER_MS);
    var id := Inc32(s.windowId);
    (Note(s.(sched := sched, windowId := id, clock := a.readyUs), Opened(id, w, start, DeadlineOf(start, w), a.plannedAt)),
     OpenWindow(w, id, s.generation, start, DeadlineOf(start, w), 0, false, false))
  }

  /** The other receiver must be off first. */
  function StopOtherFirst(s: Runner, radio: Radio, a: OpenAnswers): Runner {
    if s.running.Get(Other(radio)) then StopOrStick(s, Other(radio), a.stopOther, a.otherUs) else s
  }

  function StartReceiver(s: Runner, o: OpenWindow, a: OpenAnswers): Runner {
    var w := o.window;
    match a.start
    case Worked =>
      var t := Note(s.(running := s.running.Set(w.radio, true), clock := a.rxStartUs), StartCalled(w.radio,
          w.channel, Worked, a.rxStartUs));
      Emit(t.(open := Some(o.(started := true, rxStartUs := a.rxStartUs))),
           WindowStarted(o.windowId, o.generation, w.radio, w.channel, a.rxStartUs / US_PER_MS, w.plannedMs))
    case Failed(fault) =>
      // A failed start may still have enabled receive: make sure it is off.
      var t := Note(s.(running := s.running.Set(w.radio, true)), StartCalled(w.radio, w.channel, a.start, s.clock));
      StopOrStick(NoteFault(t, w.radio, fault), w.radio, a.stopSelf, a.selfUs).(open := Some(o.(faulted := true)))
  }

  function RunWindow(s: Runner, a: OpenAnswers): Runner
    requires MayOpen(s, a)
  {
    var (t, o) := Plan(s, a);
    var u := StopOtherFirst(t, o.window.radio, a);
    if u.stuck.Some? then u.(open := Some(o.(faulted := true))) else StartReceiver(u, o, a)
  }

  /** What the driver answers while a window is finished. `rxEndUs` closes the measured interval, `stopUs` is
      read after a failed stop, `doneUs` when everything is drained. */
  datatype CloseAnswers = CloseAnswers(
    rxEndUs: U64, stop: DriverResult, stopUs: U64, drops: U32, unattributed: U32, doneUs: U64)

  /** A window ends at its deadline, or earlier by a change, or at once when a receiver is stuck. */
  predicate MayClose(s: Runner, pending: Option<ControlRequest>, a: CloseAnswers) {
    && s.sched.Valid() && s.open.Some? && s.clock <= a.rxEndUs <= a.stopUs <= a.doneUs
    && (if s.stuck.Some? then pending.None?
        else if pending.Some? then Changes(s, pending.value)
        else s.open.value.deadlineUs <= a.rxEndUs)
  }

  function MeasuredBegin(o: OpenWindow): U64 { Max(o.rxStartUs, o.startUs) }

  function MeasuredEnd(o: OpenWindow, a: CloseAnswers): U64 { Min(a.rxEndUs, o.deadlineUs) }

  /** The measured interval clipped to the plan, in whole milliseconds. */
  function Observed(o: OpenWindow, a: CloseAnswers): U32 {
    if o.started && MeasuredEnd(o, a) > MeasuredBegin(o)
    then Low32((MeasuredEnd(o, a) - MeasuredBegin(o)) / US_PER_MS) else 0
  }

  function StopAtEnd(s: Runner, o: OpenWindow, a: CloseAnswers): Runner {
    if !o.started then s.(clock := a.rxEndUs)
    else
      var t := s.(clock := a.rxEndUs);
      var u := if MeasuredEnd(o, a) > MeasuredBegin(o) then Note(t, Received(MeasuredBegin(o), MeasuredEnd(o, a))) else t;
      StopOrStick(u, o.window.radio, a.stop, a.stopUs)
  }

  function TakeDrops(s: Runner, o: OpenWindow, a: CloseAnswers): Runner {
    Note(Note(s.(carried := 0, clock := a.doneUs), Took(a.drops, a.doneUs)), Took(a.unattributed, a.doneUs))
  }

  function ReportOf(s: Runner, o: OpenWindow, pending: Option<ControlRequest>, a: CloseAnswers): WindowReport {
    WindowReport(
      o.window, Observed(o, a), SaturatingAdd32(SaturatingAdd32(a.drops, a.unattributed), s.carried), o.windowId,
      o.generation, a.doneUs / US_PER_MS,
      if Faulted(o, a) then DriverFault else if pending.Some? then ConfigurationChanged else Completed)
  }

  predicate Faulted(o: OpenWindow, a: CloseAnswers) { o.faulted || (o.started && a.stop.Failed?) }

  predicate IsClean(r: WindowReport) { r.end == Completed && r.observedMs > 0 }

  function CleanNeeded(s: Runner, radio: Radio): nat { if radio == WifiRadio then |s.sched.config.channels| else 1 }

  /** A clean window counts towards clearing a fault; a faulted one starts the count again. */
  function CountClean(s: Runner, r: WindowReport): Runner {
    var radio := r.window.radio;
    if r.end == DriverFault then s.(clean := s.clean.Set(radio, 0))
    else if IsClean(r) then
      var t := s.(clean := s.clean.Set(radio, Inc32(s.clean.Get(radio))));
      if t.fault.Get(radio).Some? && t.clean.Get(radio) >= CleanNeeded(t, radio) then ClearFault(t, radio) else t
    else s
  }

  function ReportWindow(s: Runner, o: OpenWindow, pending: Option<ControlRequest>, a: CloseAnswers): Runner {
    var report := ReportOf(s, o, pending, a);
    Emit(CountClean(TakeDrops(StopAtEnd(s, o, a), o, a), report), WindowReported(report))
  }

  function Scheduled(s: Runner, o: OpenWindow, a: CloseAnswers): Runner {
    s.(nextStart := if s.stuck.Some? then None else Some(Max(o.deadlineUs, a.doneUs)))
  }

  function FinishWindow(s: Runner, pending: Option<ControlRequest>, a: CloseAnswers): Runner
    requires MayClose(s, pending, a)
  {
    var o := s.open.value;
    var u := Scheduled(ReportWindow(s, o, pending, a), o, a).(open := None);
    if pending.Some? then ApplyControl(u, pending.value) else u
  }

  // ---- a stuck receiver ----

  datatype RetryAnswers = RetryAnswers(readyUs: U64, stop: DriverResult, stopUs: U64, unattributed: U32)

  predicate MayRetry(s: Runner, a: RetryAnswers) {
    s.sched.Valid() && s.open.None? && s.stuck.Some? && s.clock <= a.readyUs <= a.stopUs && s.stopRetryAt <= a.readyUs
  }

  function RetryStop(s: Runner, a: RetryAnswers): Runner
    requires MayRetry(s, a)
  {
    var radio := s.stuck.value;
    match a.stop
    case Failed(_) =>
      var at := SaturatingAdd64(a.stopUs, STOP_RETRY_BACKOFF_US);
      Note(s.(stopRetryAt := at, clock := a.stopUs), StopCalled(radio, a.readyUs, a.stop, a.stopUs))
    case Worked =>
      var t := Note(s.(running := s.running.Set(radio, false), stuck := None, clock := a.readyUs),
                    StopCalled(radio, a.readyUs, Worked, 0));
      var u := Note(t.(carried := SaturatingAdd32(s.carried, a.unattributed), nextStart := None),
                    Took(a.unattributed, a.readyUs));
      ClearFault(u, radio)
  }

  // ---- what a step is made of ----

  /** The parts a step may consist of. All else that a step does is wait. */
  datatype Action =
    | Announces
    | Applies(request: ControlRequest)
    | Rests
    | Opens(open: OpenAnswers)
    | Closes(pending: Option<ControlRequest>, close: CloseAnswers)
    | Retries(retry: RetryAnswers)

  predicate Legal(s: Runner, a: Action) {
    && s.sched.Valid()
    && match a
       case Announces => !s.announced
       case Applies(_) => s.announced && s.open.None?
       case Rests => s.announced && s.open.None? && s.stuck.None? && s.sched.Idle()
       case Opens(o) => MayOpen(s, o)
       case Closes(pending, c) => MayClose(s, pending, c)
       case Retries(r) => MayRetry(s, r)
  }

  function Next(s: Runner, a: Action): Runner
    requires Legal(s, a)
  {
    match a
    case Announces => Announce(s)
    case Applies(request) => ApplyControl(s, request)
    case Rests => s.(nextStart := None)
    case Opens(o) => RunWindow(s, o)
    case Closes(pending, c) => FinishWindow(s, pending, c)
    case Retries(r) => RetryStop(s, r)
  }

  /** The actions can be taken one after the other, from `s` to `t`. */
  predicate Reaches(s: Runner, actions: seq<Action>, t: Runner)
    decreases |actions|
  {
    if actions == [] then s == t else Legal(s, actions[0]) && Reaches(Next(s, actions[0]), actions[1..], t)
  }

  lemma {:induction false} ReachesTwice(s: Runner, first: seq<Action>, t: Runner, then_: seq<Action>, u: Runner)
    requires Reaches(s, first, t) && Reaches(t, then_, u)
    ensures Reaches(s, first + then_, u)
    decreases |first|
  {
    hide Legal, Next;
    if first == [] {
      assert first + then_ == then_;
    } else {
      assert (first + then_)[1..] == first[1..] + then_;
      ReachesTwice(Next(s, first[0]), first[1..], t, then_, u);
    }
  }

  lemma ReachesOne(s: Runner, a: Action)
    requires Legal(s, a)
    ensures Reaches(s, [a], Next(s, a))
  {
    assert [a][1..] == [];
    hide Legal, Next;
  }

  lemma AnnouncingReaches(s: Runner)
    requires s.sched.Valid() && !s.announced
    ensures Reaches(s, [Announces], Announce(s))
  {
    ReachesOne(s, Announces);
  }
}
