/** The radio task as the object it is, over a driver, a control source and a sink whose answers are
    arbitrary within their contracts. Every step is shown to be a sequence of the model's actions. */
module RadioRunners {
  import opened Basics
  import opened Coverage
  import opened RadioMessages
  import opened RadioModel
  import opened RadioReplay
  import opened RadioRuns

  const MAX_CONTROLS_PER_STEP := 16
  const MAX_STALLED_WAKES := 64

  datatype WakeReason = Deadline | Control

  /** The hardware. Its clock never runs backwards; a start that fails may have turned the receiver on; a stop
      that works has turned it off. `on` is the truth about the receivers, which the runner cannot see. */
  class RadioDriver {
    var now: U64
    ghost var on: PerRadio<bool>

    constructor ()
      ensures on == PerRadio(false, false)
    {
      now := *;
      on := PerRadio(false, false);
    }

    method NowUs() returns (t: U64)
      modifies `now
      ensures t == now && old(now) <= now
    {
      var later: U64 :| now <= later;
      now := later;
      t := later;
    }

    method WaitUntilUs(deadlineUs: U64) returns (reason: WakeReason)
      modifies `now
      ensures old(now) <= now
    {
      reason := *;
      var later: U64 :| now <= later;
      now := later;
    }

    method Start(radio: Radio, channel: U8) returns (r: DriverResult)
      modifies `on
      ensures on == old(on).Set(radio, true) || (r.Failed? && on == old(on))
    {
      var works: bool, fault: Fault := *, *;
      r := if works then Worked else Failed(fault);
      if works { on := on.Set(radio, true); } else if * { on := on.Set(radio, true); }
    }

    method Stop(radio: Radio) returns (r: DriverResult)
      modifies `on
      ensures on == old(on).Set(radio, false) || (r.Failed? && on == old(on))
    {
      var works: bool, fault: Fault := *, *;
      r := if works then Worked else Failed(fault);
      if works { on := on.Set(radio, false); } else if * { on := on.Set(radio, false); }
    }

    /** A number of drops the driver hands over. */
    method TakeCount() returns (n: U32) {
      n := *;
    }
  }

  class ControlSource {
    constructor () {
    }

    /** The next request, if there is one. It may never run dry. */
    method Poll() returns (r: Option<ControlRequest>) {
      r := *;
    }
  }

  class RadioSink {
    var received: seq<RadioMessage>

    constructor ()
      ensures received == []
    {
      received := [];
    }

    method Accept(m: RadioMessage)
      modifies this
      ensures received == old(received) + [m]
    {
      received := received + [m];
    }
  }

  lemma NoMessage(h: History, e: Event)
    requires !e.Sent?
    ensures Messages(Then(h, e)) == Messages(h)
  {
  }

  /** What the driver hands over afterwards does not change how the reception ended. */
  lemma EndIgnoresDrops(s: Runner, o: OpenWindow, a: CloseAnswers, b: CloseAnswers)
    requires b == a.(drops := b.drops, unattributed := b.unattributed, doneUs := b.doneUs)
    ensures StopAtEnd(s, o, a) == StopAtEnd(s, o, b) && Observed(o, a) == Observed(o, b) && Faulted(o, a) == Faulted(o, b)
  {
  }

  lemma CarriedIsOld(s: Runner, o: OpenWindow, a: CloseAnswers)
    ensures StopAtEnd(s, o, a).carried == s.carried
  {
  }

  method Merge(c: ObservationConfig, r: ControlRequest) returns (merged: ObservationConfig)
    ensures merged == Merged(c, r) && Normal(merged)
  {
    var config := c;
    if r.wifiEnabled.Some? { config := config.(wifiEnabled := r.wifiEnabled.value); }
    if r.bleEnabled.Some? { config := config.(bleEnabled := r.bleEnabled.value); }
    if r.hasChannels { config := config.(channels := r.channels[..Min(r.channelCount, MAX_PLAN_CHANNELS)]); }
    if r.wifiDwellMs.Some? { config := config.(wifiDwellMs := r.wifiDwellMs.value); }
    if r.bleWindowMs.Some? { config := config.(bleWindowMs := r.bleWindowMs.value); }
    NormalizeIsNormal(config);
    hide Normalize;
    merged := NormalizeConfig(config);
  }

  /** The receive interval clipped to the plan, in milliseconds. */
  method ObservedOf(o: OpenWindow, rxEndUs: U64) returns (observedMs: U32)
    ensures forall a: CloseAnswers | a.rxEndUs == rxEndUs :: observedMs == Observed(o, a)
  {
    observedMs := 0;
    if o.started {
      var begin, end := Max(o.rxStartUs, o.startUs), Min(rxEndUs, o.deadlineUs);
      if end > begin { observedMs := Low32((end - begin) / US_PER_MS); }
    }
  }

  class RadioRunner {
    const driver: RadioDriver
    const control: ControlSource
    const sink: RadioSink
    const scheduler: ObservationScheduler
    var announced: bool
    var generation: U32
    var windowId: U32
    var nextStartUs: Option<U64>
    var running: PerRadio<bool>
    var fault: PerRadio<Option<Fault>>
    var cleanWindows: PerRadio<U32>
    var carriedDrops: U32
    var open: Option<OpenWindow>
    var stuck: Option<Radio>
    var stopRetryAtUs: U64
    ghost var clock: U64
    ghost var history: History

    ghost function Model(): Runner
      reads this, scheduler
    {
      Runner(scheduler.Model(), announced, generation, windowId, nextStartUs, running, fault, cleanWindows, carriedDrops,
             open, stuck, stopRetryAtUs, clock, history)
    }

    /** The recorded clock is in the past, a receiver that is on is flagged, and the sink has every message. */
    ghost predicate Valid()
      reads this, scheduler, driver, sink
    {
      && scheduler.Model().Valid() && clock <= driver.now && sink.received == Messages(history)
      && (driver.on.wifi ==> running.wifi) && (driver.on.ble ==> running.ble)
    }

    constructor (driver: RadioDriver, control: ControlSource, sink: RadioSink, given: ObservationConfig)
      requires driver.on == PerRadio(false, false) && sink.received == []
      ensures Valid() && fresh(scheduler) && Model() == NewRunner(given, driver.now)
      ensures this.driver == driver && this.control == control && this.sink == sink
    {
      this.driver, this.control, this.sink := driver, control, sink;
      scheduler := new ObservationScheduler(given);
      announced, generation, windowId, nextStartUs := false, 0, 0, None;
      running, fault, cleanWindows, carriedDrops := PerRadio(false, false), PerRadio(None, None), PerRadio(0, 0), 0;
      open, stuck, stopRetryAtUs := None, None, 0;
      clock, history := driver.now, Nothing;
    }

    method EmitMessage(m: RadioMessage)
      requires Valid()
      modifies `history, sink
      ensures Valid() && Model() == Emit(old(Model()), m)
    {
      sink.Accept(m);
      history := Then(history, Sent(m));
    }

    method EmitCurrentConfig()
      requires Valid()
      modifies `history, sink
      ensures Valid() && Model() == EmitConfig(old(Model()))
    {
      hide ToConfigApplied, Emit;
      EmitMessage(ConfigApplied(ToConfigApplied(generation, scheduler.config)));
    }

    method RaiseFault(radio: Radio, result: Fault)
      requires Valid()
      modifies `cleanWindows, `fault, `history, sink
      ensures Valid() && Model() == NoteFault(old(Model()), radio, result)
    {
      hide Messages;
      cleanWindows := cleanWindows.Set(radio, 0);
      if fault.Get(radio) == Some(result) { return; }
      fault := fault.Set(radio, Some(result));
      EmitMessage(FaultRaised(radio, result));
    }

    method DropFault(radio: Radio)
      requires Valid()
      modifies `cleanWindows, `fault, `history, sink
      ensures Valid() && Model() == ClearFault(old(Model()), radio)
    {
      hide Messages;
      cleanWindows := cleanWindows.Set(radio, 0);
      if fault.Get(radio).None? { return; }
      fault := fault.Set(radio, None);
      EmitMessage(FaultCleared(radio));
    }

    /** The new plan takes effect. */
    method Adopt(next: ObservationConfig)
      requires Valid() && Normal(next)
      modifies `cleanWindows, `generation, `nextStartUs, scheduler
      ensures Valid() && Model() == Reconfigured(old(Model()), next)
    {
      hide Messages, Normalize;
      if next.wifiEnabled != scheduler.config.wifiEnabled || next.channels != scheduler.config.channels {
        cleanWindows := cleanWindows.Set(WifiRadio, 0);
      }
      if next.bleEnabled != scheduler.config.bleEnabled { cleanWindows := cleanWindows.Set(BleRadio, 0); }
      NormalizeIsNormal(next);
      scheduler.Reconfigure(next);
      generation := Inc32(generation);
      nextStartUs := None;
    }

    method Apply(request: ControlRequest) returns (changed: bool)
      requires Valid()
      modifies `cleanWindows, `generation, `nextStartUs, `fault, `history, scheduler, sink
      ensures Valid() && Model() == ApplyControl(old(Model()), request)
    {
      hide Messages, Merged, Reconfigured, ClearFault, EmitConfig;
      var merged := Merge(scheduler.config, request);
      if merged == scheduler.config { return false; }
      Adopt(merged);
      EmitCurrentConfig();
      DropIfDisabled(WifiRadio, scheduler.config.wifiEnabled);
      DropIfDisabled(BleRadio, scheduler.config.bleEnabled);
      return true;
    }

    method DropIfDisabled(radio: Radio, enabled: bool)
      requires Valid()
      modifies `cleanWindows, `fault, `history, sink
      ensures Valid() && Model() == ClearIfDisabled(old(Model()), radio, enabled)
    {
      hide Messages, ClearFault;
      if !enabled && stuck != Some(radio) { DropFault(radio); }
    }

    /** Waits for the deadline, or for a request that would change the configuration. It ends for every
        driver and every control source: the clock moves on, or the wait gives up. */
    method WaitUntil(deadlineUs: U64) returns (request: Option<ControlRequest>)
      requires Valid()
      modifies driver`now
      ensures Valid() && Model() == old(Model()) && old(driver.now) <= driver.now
      ensures request.Some? ==> Changes(Model(), request.value)
    {
      hide Messages, Merged, Normalize;
      var lastNowUs := driver.NowUs();
      var stalledWakes := 0;
      while lastNowUs < deadlineUs
        invariant Valid() && old(driver.now) <= driver.now && lastNowUs <= driver.now
        invariant 0 <= stalledWakes <= MAX_STALLED_WAKES
        decreases deadlineUs - lastNowUs, MAX_STALLED_WAKES - stalledWakes
      {
        var reason := driver.WaitUntilUs(deadlineUs);
        if reason == Control {
          var r := control.Poll();
          if r.Some? {
            var merged := Merge(scheduler.config, r.value);
            if merged != scheduler.config { return r; }
          }
        }
        var nowUs := driver.NowUs();
        if nowUs > lastNowUs {
          lastNowUs := nowUs;
          stalledWakes := 0;
        } else {
          stalledWakes := stalledWakes + 1;
          if stalledWakes > MAX_STALLED_WAKES { return None; }
        }
      }
      return None;
    }

    /** A stop that works is written down here; one that does not, where its consequence is. */
    method StopReceiver(radio: Radio) returns (r: DriverResult)
      requires Valid()
      modifies `running, `history, driver`on
      ensures Valid() && Model() == if r.Worked? then StopOrStick(old(Model()), radio, r, 0) else old(Model())
      ensures driver.on == old(driver.on).Set(radio, false) || (r.Failed? && driver.on == old(driver.on))
    {
      hide NoteStopFailure;
      r := driver.Stop(radio);
      if r.Worked? {
        running := running.Set(radio, false);
        history := Then(history, StopCalled(radio, clock, Worked, 0));
      }
    }

    method StickReceiver(radio: Radio, result: Fault) returns (ghost nowUs: U64)
      requires Valid()
      modifies `stuck, `stopRetryAtUs, `nextStartUs, `clock, `history, `cleanWindows, `fault, sink, driver`now
      ensures Valid() && old(driver.now) <= nowUs <= driver.now
      ensures Model() == StopOrStick(old(Model()), radio, Failed(result), nowUs)
    {
      hide Messages, NoteFault;
      nowUs := HoldStuck(radio, result);
      RaiseFault(radio, result);
    }

    method HoldStuck(radio: Radio, result: Fault) returns (ghost nowUs: U64)
      requires Valid()
      modifies `stuck, `stopRetryAtUs, `nextStartUs, `clock, `history, driver`now
      ensures Valid() && old(driver.now) <= nowUs <= driver.now
      ensures stuck == Some(radio) && nextStartUs.None? && clock == nowUs
      ensures stopRetryAtUs == SaturatingAdd64(nowUs, STOP_RETRY_BACKOFF_US)
      ensures history == Then(old(history), StopCalled(radio, old(clock), Failed(result), nowUs))
    {
      var t := driver.NowUs();
      nowUs := t;
      stuck := Some(radio);
      stopRetryAtUs := SaturatingAdd64(t, STOP_RETRY_BACKOFF_US);
      nextStartUs := None;
      NoMessage(history, StopCalled(radio, clock, Failed(result), t));
      history := Then(history, StopCalled(radio, clock, Failed(result), t));
      clock := t;
    }

    // ---- a window ----

    /** The window is taken from the schedule. */
    method TakeWindow(startUs: U64, ghost a: OpenAnswers) returns (o: OpenWindow)
      requires Valid() && MayOpen(Model(), a) && startUs == StartOf(Model(), a) && a.readyUs <= driver.now
      modifies `windowId, `clock, `history, scheduler
      ensures Valid() && (Model(), o) == Plan(old(Model()), a)
    {
      hide Normal, DeadlineOf, NextWindow;
      var w := scheduler.Next(startUs / US_PER_MS);
      windowId := Inc32(windowId);
      o := OpenWindow(w.value, windowId, generation, startUs, DeadlineOf(startUs, w.value), 0, false, false);
      clock := a.readyUs;
      history := Then(history, Opened(windowId, w.value, startUs, o.deadlineUs, a.plannedAt));
    }

    /** Starts the window's receiver; if that fails, makes sure it is off. */
    method StartTheReceiver(o: OpenWindow, ghost given: OpenAnswers) returns (ghost a: OpenAnswers)
      requires Valid() && !o.started && !o.faulted && o.generation == generation
      modifies `running, `stuck, `stopRetryAtUs, `nextStartUs, `clock, `history, `cleanWindows, `fault, `open, sink,
        driver`now, driver`on
      ensures Valid() && old(driver.now) <= a.rxStartUs <= a.selfUs <= driver.now
      ensures a == given.(start := a.start, rxStartUs := a.rxStartUs, stopSelf := a.stopSelf, selfUs := a.selfUs)
      ensures open.Some? && Model() == StartReceiver(old(Model()), o, a)
    {
      hide Messages, NoteFault, StopOrStick;
      var radio := o.window.radio;
      var result := driver.Start(radio, o.window.channel);
      running := running.Set(radio, true);
      if result.Worked? {
        ghost var t := Began(o);
        a := given.(start := Worked, rxStartUs := t, stopSelf := Worked, selfUs := t);
      } else {
        ghost var t := driver.now;
        NoMessage(history, StartCalled(radio, o.window.channel, result, clock));
        history := Then(history, StartCalled(radio, o.window.channel, result, clock));
        ghost var stop, nowUs := MakeSureOff(o, result.fault);
        a := given.(start := result, rxStartUs := t, stopSelf := stop, selfUs := nowUs);
      }
    }

    /** A failed start may still have enabled receive. */
    method MakeSureOff(o: OpenWindow, result: Fault) returns (ghost stop: DriverResult, ghost nowUs: U64)
      requires Valid()
      modifies `running, `stuck, `stopRetryAtUs, `nextStartUs, `clock, `history, `cleanWindows, `fault, `open, sink,
        driver`now, driver`on
      ensures Valid() && old(driver.now) <= nowUs <= driver.now && open == Some(o.(faulted := true))
      ensures var radio := o.window.radio;
              Model() == StopOrStick(NoteFault(old(Model()), radio, result), radio, stop,
                  nowUs).(open := Some(o.(faulted := true)))
    {
      hide Messages, NoteFault, StopOrStick;
      RaiseFault(o.window.radio, result);
      var failed;
      failed, stop, nowUs := StopOrElse(o.window.radio);
      open := Some(o.(faulted := true));
    }

    method Began(o: OpenWindow) returns (ghost t: U64)
      requires Valid() && o.generation == generation
      modifies `clock, `history, `open, sink, driver`now
      ensures Valid() && old(driver.now) <= t <= driver.now
      ensures clock == t && open == Some(o.(started := true, rxStartUs := t))
      ensures history == Then(Then(old(history), StartCalled(o.window.radio, o.window.channel, Worked, t)),
                              Sent(WindowStarted(o.windowId, o.generation, o.window.radio, o.window.channel,
                                                 t / US_PER_MS, o.window.plannedMs)))
    {
      hide Messages;
      var now := driver.NowUs();
      t := now;
      clock := now;
      open := Some(o.(started := true, rxStartUs := now));
      NoMessage(history, StartCalled(o.window.radio, o.window.channel, Worked, now));
      history := Then(history, StartCalled(o.window.radio, o.window.channel, Worked, now));
      EmitMessage(WindowStarted(o.windowId, generation, o.window.radio, o.window.channel, now / US_PER_MS,
          o.window.plannedMs));
    }

    /** Stops a receiver, and if it will not stop, holds it stuck. */
    method StopOrElse(radio: Radio) returns (failed: bool, ghost result: DriverResult, ghost nowUs: U64)
      requires Valid()
      modifies `running, `stuck, `stopRetryAtUs, `nextStartUs, `clock, `history, `cleanWindows, `fault, sink,
        driver`now, driver`on
      ensures Valid() && old(driver.now) <= nowUs <= driver.now
      ensures failed == result.Failed? && Model() == StopOrStick(old(Model()), radio, result, nowUs)
    {
      hide Messages, NoteFault;
      nowUs := driver.now;
      var r := StopReceiver(radio);
      failed := r.Failed?;
      result := r;
      if r.Failed? { nowUs := StickReceiver(radio, r.fault); }
    }

    /** Closes the measured interval, then stops the receiver the window started. */
    method EndReception(o: OpenWindow, ghost given: CloseAnswers)
      returns (rxEndUs: U64, faulted: bool, ghost a: CloseAnswers)
      requires Valid() && clock <= given.rxEndUs <= driver.now
      modifies `running, `stuck, `stopRetryAtUs, `nextStartUs, `clock, `history, `cleanWindows, `fault, sink,
        driver`now, driver`on
      ensures Valid() && old(driver.now) <= rxEndUs == a.rxEndUs <= a.stopUs <= driver.now
      ensures a == given.(rxEndUs := a.rxEndUs, stop := a.stop, stopUs := a.stopUs)
      ensures Model() == StopAtEnd(old(Model()), o, a) && faulted == Faulted(o, a)
    {
      hide Messages, StopOrStick;
      rxEndUs := driver.NowUs();
      a := given.(rxEndUs := rxEndUs, stop := Worked, stopUs := rxEndUs);
      clock := rxEndUs;
      faulted := o.faulted;
      if o.started {
        ghost var e := Received(MeasuredBegin(o), MeasuredEnd(o, a));
        NoMessage(history, e);
        history := if MeasuredEnd(o, a) > MeasuredBegin(o) then Then(history, e) else history;
        var failed;
        ghost var stop, nowUs;
        failed, stop, nowUs := StopOrElse(o.window.radio);
        a := a.(stop := stop, stopUs := nowUs);
        if failed { faulted := true; }
      }
    }

    /** Everything lost in the window, and what an earlier stop retry carried forward. */
    method TakeAllDrops(o: OpenWindow, ghost given: CloseAnswers) returns (dropped: U32, doneUs: U64, ghost a: CloseAnswers)
      requires Valid()
      modifies `carriedDrops, `history, `clock, driver`now
      ensures Valid() && old(driver.now) <= doneUs == a.doneUs <= driver.now
      ensures a == given.(drops := a.drops, unattributed := a.unattributed, doneUs := a.doneUs)
      ensures dropped == SaturatingAdd32(SaturatingAdd32(a.drops, a.unattributed), old(carriedDrops))
      ensures Model() == TakeDrops(old(Model()), o, a)
    {
      hide Messages;
      var drops := driver.TakeCount();
      var unattributed := driver.TakeCount();
      dropped := SaturatingAdd32(SaturatingAdd32(drops, unattributed), carriedDrops);
      carriedDrops := 0;
      doneUs := driver.NowUs();
      a := given.(drops := drops, unattributed := unattributed, doneUs := doneUs);
      clock := doneUs;
      NoMessage(history, Took(drops, doneUs));
      NoMessage(Then(history, Took(drops, doneUs)), Took(unattributed, doneUs));
      history := Then(Then(history, Took(drops, doneUs)), Took(unattributed, doneUs));
    }

    /** A clean window counts toward clearing a fault. */
    method CountCleanWindow(r: WindowReport)
      requires Valid()
      modifies `cleanWindows, `fault, `history, sink
      ensures Valid() && Model() == CountClean(old(Model()), r)
    {
      hide Messages, ClearFault;
      var radio := r.window.radio;
      if r.end == DriverFault {
        cleanWindows := cleanWindows.Set(radio, 0);
      } else if r.end == Completed && r.observedMs > 0 {
        cleanWindows := cleanWindows.Set(radio, Inc32(cleanWindows.Get(radio)));
        var needed := if radio == WifiRadio then |scheduler.config.channels| else 1;
        if fault.Get(radio).Some? && cleanWindows.Get(radio) >= needed { DropFault(radio); }
      }
    }

    method Report(o: OpenWindow, pending: Option<ControlRequest>) returns (doneUs: U64, ghost a: CloseAnswers)
      requires Valid()
      modifies `running, `stuck, `stopRetryAtUs, `nextStartUs, `clock, `history, `cleanWindows, `fault, `carriedDrops,
        sink, driver`now, driver`on
      ensures Valid() && old(driver.now) <= a.rxEndUs <= a.stopUs <= a.doneUs == doneUs <= driver.now
      ensures Model() == ReportWindow(old(Model()), o, pending, a)
    {
      hide Messages, StopAtEnd, TakeDrops, CountClean, Observed;
      ghost var s := Model();
      var rxEndUs, faulted, dropped;
      ghost var first := CloseAnswers(driver.now, Worked, driver.now, 0, 0, driver.now);
      rxEndUs, faulted, first := EndReception(o, first);
      dropped, doneUs, a := TakeAllDrops(o, first);
      EndIgnoresDrops(s, o, first, a);
      CarriedIsOld(s, o, a);
      var observedMs := ObservedOf(o, rxEndUs);
      var report := WindowReport(o.window, observedMs, dropped, o.windowId, o.generation, doneUs / US_PER_MS,
                                 if faulted then DriverFault else if pending.Some? then ConfigurationChanged else Completed);
      assert report == ReportOf(s, o, pending, a);
      hide ReportOf;
      CountCleanWindow(report);
      EmitMessage(WindowReported(report));
    }

    method Finish(pending: Option<ControlRequest>) returns (ghost a: CloseAnswers)
      requires Valid() && open.Some?
      requires if stuck.Some? then pending.None?
               else if pending.Some? then Changes(Model(), pending.value)
               else open.value.deadlineUs <= driver.now
      modifies this, scheduler, sink, driver`now, driver`on
      ensures Valid() && announced == old(announced) && MayClose(old(Model()), pending, a)
      ensures Model() == FinishWindow(old(Model()), pending, a)
    {
      hide Messages, ReportWindow, ApplyControl, Merged;
      var o := open.value;
      var doneUs;
      doneUs, a := Report(o, pending);
      nextStartUs := if stuck.Some? then None else Some(Max(o.deadlineUs, doneUs));
      open := None;
      if pending.Some? { var _ := Apply(pending.value); }
    }

    /** Waits the open window out, and reports it once its deadline has been reached, a change ends it or a
        receiver is stuck; a wait that gave up leaves it open. */
    method ResumeWindow() returns (ghost actions: seq<Action>)
      requires Valid() && open.Some?
      modifies this, scheduler, sink, driver`now, driver`on
      ensures Valid() && announced == old(announced) && Reaches(old(Model()), actions, Model())
    {
      hide Messages, FinishWindow, Legal;
      actions := [];
      ghost var s := Model();
      var pending := None;
      if stuck.None? {
        pending := WaitUntil(open.value.deadlineUs);
        if pending.None? {
          var now := driver.NowUs();
          if now < open.value.deadlineUs { return; }
        }
      }
      ghost var a := Finish(pending);
      ClosingReaches(s, pending, a);
      actions := [Closes(pending, a)];
    }

    /** Opens the next window in the schedule, unless a change comes first or the wait gives up. */
    method OpenNext() returns (ghost actions: seq<Action>)
      requires Valid() && announced && open.None? && stuck.None? && !Model().sched.Idle()
      modifies this, scheduler, sink, driver`now, driver`on
      ensures Valid() && announced && Reaches(old(Model()), actions, Model())
    {
      hide Messages, ApplyControl, Legal, Plan, StopOrStick, StartReceiver;
      actions := [];
      ghost var s := Model();
      var planned := driver.NowUs();
      var start := if nextStartUs.Some? then nextStartUs.value else planned;
      var request := WaitUntil(start);
      if request.Some? {
        var _ := Apply(request.value);
        ApplyingReaches(s, request.value);
        actions := [Applies(request.value)];
        return;
      }
      var ready := driver.NowUs();
      if ready < start { return; }
      ghost var a := OpenAnswers(planned, ready, Worked, ready, Worked, ready, Worked, ready);
      a := RunWindow(start, a);
      OpeningReaches(s, a);
      ghost var t := Model();
      ghost var more := ResumeWindow();
      ReachesTwice(s, [Opens(a)], t, more, Model());
      actions := [Opens(a)] + more;
    }

    method RunWindow(start: U64, ghost given: OpenAnswers) returns (ghost a: OpenAnswers)
      requires Valid() && MayOpen(Model(), given) && start == StartOf(Model(), given) && given.readyUs <= driver.now
      requires given.otherUs == given.readyUs
      modifies this, scheduler, sink, driver`now, driver`on
      ensures Valid() && open.Some? && announced == old(announced) && MayOpen(old(Model()), a)
      ensures Model() == RadioModel.RunWindow(old(Model()), a)
    {
      hide Messages, StopOrStick, StartReceiver, NextWindow, DeadlineOf, Normal;
      ghost var s := Model();
      a := given;
      var o := TakeWindow(start, given);
      if running.Get(Other(o.window.radio)) {
        var failed;
        ghost var stop, nowUs;
        failed, stop, nowUs := StopOrElse(Other(o.window.radio));
        a := a.(stopOther := stop, otherUs := nowUs, rxStartUs := nowUs, selfUs := nowUs);
      }
      PlanIgnoresLater(s, given, a);
      if stuck.Some? {
        open := Some(o.(faulted := true));
      } else {
        ghost var b := a;
        a := StartTheReceiver(o, a);
        PlanIgnoresLater(s, b, a);
      }
    }

    /** A stuck receiver: try again to stop it once the backoff has passed. */
    method RetryTheStop() returns (ghost actions: seq<Action>)
      requires Valid() && announced && open.None? && stuck.Some?
      modifies this, scheduler, sink, driver`now, driver`on
      ensures Valid() && announced && Reaches(old(Model()), actions, Model())
    {
      hide Messages, ApplyControl, Legal;
      actions := [];
      ghost var s := Model();
      var radio := stuck.value;
      var request := WaitUntil(stopRetryAtUs);
      if request.Some? {
        var _ := Apply(request.value);
        ApplyingReaches(s, request.value);
        actions := [Applies(request.value)];
        return;
      }
      var now := driver.NowUs();
      if now < stopRetryAtUs { return; }
      ghost var a := Retry(radio, now);
      RetryingReaches(s, a);
      actions := [Retries(a)];
    }

    method Retry(radio: Radio, now: U64) returns (ghost a: RetryAnswers)
      requires Valid() && open.None? && stuck == Some(radio) && stopRetryAtUs <= now == driver.now
      modifies this, sink, driver`now, driver`on
      ensures Valid() && MayRetry(old(Model()), a) && Model() == RetryStop(old(Model()), a)
    {
      hide Messages, ClearFault;
      var r := driver.Stop(radio);
      a := RetryAnswers(now, r, now, 0);
      if r.Failed? {
        ghost var t := StillStuck(radio, now, r);
        a := a.(stopUs := t);
        return;
      }
      var lost := driver.TakeCount();
      a := a.(unattributed := lost);
      Released(radio, now, lost);
      DropFault(radio);
    }

    method StillStuck(radio: Radio, now: U64, result: DriverResult) returns (ghost nowUs: U64)
      requires sink.received == Messages(history)
      modifies `stopRetryAtUs, `clock, `history, driver`now
      ensures sink.received == Messages(history) && old(driver.now) <= nowUs == driver.now == clock
      ensures stopRetryAtUs == SaturatingAdd64(nowUs, STOP_RETRY_BACKOFF_US)
      ensures history == Then(old(history), StopCalled(radio, now, result, nowUs))
    {
      var t := driver.NowUs();
      nowUs := t;
      stopRetryAtUs := SaturatingAdd64(t, STOP_RETRY_BACKOFF_US);
      clock := t;
      NoMessage(history, StopCalled(radio, now, result, nowUs));
      history := Then(history, StopCalled(radio, now, result, nowUs));
    }

    /** The receiver is off at last. Anything lost since its window was reported is carried forward. */
    method Released(radio: Radio, now: U64, lost: U32)
      requires sink.received == Messages(history)
      modifies `running, `stuck, `clock, `history, `carriedDrops, `nextStartUs
      ensures sink.received == Messages(history)
      ensures running == old(running).Set(radio, false) && stuck.None? && clock == now && nextStartUs.None?
      ensures carriedDrops == SaturatingAdd32(old(carriedDrops), lost)
      ensures history == Then(Then(old(history), StopCalled(radio, now, Worked, 0)), Took(lost, now))
    {
      running := running.Set(radio, false);
      stuck := None;
      clock := now;
      NoMessage(history, StopCalled(radio, now, Worked, 0));
      NoMessage(Then(history, StopCalled(radio, now, Worked, 0)), Took(lost, now));
      history := Then(Then(history, StopCalled(radio, now, Worked, 0)), Took(lost, now));
      carriedDrops := SaturatingAdd32(carriedDrops, lost);
      nextStartUs := None;
    }

    /** The first step announces the configuration. */
    method AnnounceOnce() returns (ghost actions: seq<Action>)
      requires Valid() && (!announced ==> open.None?)
      modifies `announced, `generation, `history, sink
      ensures Valid() && announced && Reaches(old(Model()), actions, Model())
      ensures open == old(open) && stuck == old(stuck)
    {
      hide Messages, EmitConfig;
      actions := [];
      if announced { return; }
      ghost var s := Model();
      announced := true;
      generation := Inc32(generation);
      EmitCurrentConfig();
      AnnouncingReaches(s);
      actions := [Announces];
    }

    /** At most sixteen waiting requests, so that a flooding source cannot hold a step for ever. */
    method PollControls() returns (ghost actions: seq<Action>)
      requires Valid() && announced && open.None?
      modifies `cleanWindows, `generation, `nextStartUs, `fault, `history, scheduler, sink
      ensures Valid() && announced && open.None? && Reaches(old(Model()), actions, Model())
    {
      hide Messages, ApplyControl, Legal;
      actions := [];
      ghost var s := Model();
      for i := 0 to MAX_CONTROLS_PER_STEP
        invariant Valid() && announced && open.None? && Reaches(s, actions, Model())
      {
        var request := control.Poll();
        if request.None? { break; }
        ghost var t := Model();
        var _ := Apply(request.value);
        ApplyingReaches(t, request.value);
        ReachesTwice(s, actions, t, [Applies(request.value)], Model());
        actions := actions + [Applies(request.value)];
      }
    }

    /** Both radios are off: sleep until the operator changes something. */
    method Rest() returns (ghost actions: seq<Action>)
      requires Valid() && announced && open.None? && stuck.None? && Model().sched.Idle()
      modifies this, scheduler, sink, driver`now
      ensures Valid() && announced && Reaches(old(Model()), actions, Model())
    {
      hide Messages, ApplyControl, Legal;
      ghost var s := Model();
      nextStartUs := None;
      RestingReaches(s);
      actions := [Rests];
      ghost var t := Model();
      var request := WaitUntil(U64_MAX);
      if request.Some? {
        var _ := Apply(request.value);
        ApplyingReaches(t, request.value);
        ReachesTwice(s, actions, t, [Applies(request.value)], Model());
        actions := actions + [Applies(request.value)];
      }
    }

    /** One scheduling step, whatever the driver and the control source do: a sequence of the model's
        actions, after which every promise of the model still holds and at most one receiver is on. */
    method Step(ghost origin: U64) returns (ghost actions: seq<Action>)
      requires Valid() && RunnerInv(Model(), origin)
      modifies this, scheduler, sink, driver`now, driver`on
      ensures Valid() && RunnerInv(Model(), origin) && announced && Reaches(old(Model()), actions, Model())
      ensures !(driver.on.wifi && driver.on.ble)
    {
      hide Messages, RunnerInv, Legal, Next;
      ghost var s := Model();
      UnannouncedIsClosed(s, origin);
      actions := AnnounceOnce();
      ghost var t := Model();
      ghost var more := StepAnnounced();
      ReachesTwice(s, actions, t, more, Model());
      actions := actions + more;
      RunKeeps(s, actions, Model(), origin);
      AtMostOne(Model(), origin);
    }

    method StepAnnounced() returns (ghost actions: seq<Action>)
      requires Valid() && announced
      modifies this, scheduler, sink, driver`now, driver`on
      ensures Valid() && announced && Reaches(old(Model()), actions, Model())
    {
      hide Messages, Legal, Next;
      if open.Some? {
        actions := ResumeWindow();
        return;
      }
      ghost var s := Model();
      actions := PollControls();
      ghost var t := Model();
      ghost var more;
      if stuck.Some? {
        more := RetryTheStop();
      } else if !scheduler.config.wifiEnabled && !scheduler.config.bleEnabled {
        more := Rest();
      } else {
        more := OpenNext();
      }
      ReachesTwice(s, actions, t, more, Model());
      actions := actions + more;
    }
  }

  lemma UnannouncedIsClosed(s: Runner, origin: U64)
    requires RunnerInv(s, origin)
    ensures !s.announced ==> s.open.None?
  {
  }

  lemma AtMostOne(s: Runner, origin: U64)
    requires RunnerInv(s, origin)
    ensures !(s.running.wifi && s.running.ble)
  {
  }

  lemma RestingReaches(s: Runner)
    requires s.sched.Valid() && s.announced && s.open.None? && s.stuck.None? && s.sched.Idle()
    ensures Reaches(s, [Rests], s.(nextStart := None))
  {
    ReachesOne(s, Rests);
  }

  lemma PlanIgnoresLater(s: Runner, a: OpenAnswers, b: OpenAnswers)
    requires MayOpen(s, a) && MayOpen(s, b) && a.plannedAt == b.plannedAt && a.readyUs == b.readyUs
    ensures Plan(s, a) == Plan(s, b)
  {
  }

  lemma ClosingReaches(s: Runner, pending: Option<ControlRequest>, a: CloseAnswers)
    requires MayClose(s, pending, a)
    ensures Reaches(s, [Closes(pending, a)], FinishWindow(s, pending, a))
  {
    ReachesOne(s, Closes(pending, a));
  }

  lemma OpeningReaches(s: Runner, a: OpenAnswers)
    requires MayOpen(s, a)
    ensures Reaches(s, [Opens(a)], RunWindow(s, a))
  {
    ReachesOne(s, Opens(a));
  }

  lemma ApplyingReaches(s: Runner, r: ControlRequest)
    requires s.sched.Valid() && s.announced && s.open.None?
    ensures Reaches(s, [Applies(r)], ApplyControl(s, r))
  {
    ReachesOne(s, Applies(r));
  }

  lemma RetryingReaches(s: Runner, a: RetryAnswers)
    requires MayRetry(s, a)
    ensures Reaches(s, [Retries(a)], RetryStop(s, a))
  {
    ReachesOne(s, Retries(a));
  }
}
