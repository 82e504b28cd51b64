/** Why the number of clean windows alone proves nothing: a run in which a WiFi fault clears although the
    channel that failed never had one, and a run cut short as well in which the whole plan was heard. */
module RadioLimits {
  import opened Basics
  import opened Coverage
  import opened RadioMessages
  import opened RadioModel
  import opened RadioClean
  import opened RadioReceivers

  const PLAN: seq<U8> := [1, 6]

  /** The sweep after a clean window, and after one cut short. */
  function OneMore(w: Sweep, c: U8): Sweep {
    w.(clean := w.clean + {c}, windows := w.windows + 1, offsets := w.offsets + [w.windows])
  }

  function OneCut(w: Sweep, c: ObservationConfig): Sweep { w.(config := Some(c), windows := w.windows + 1) }

  function ConfigWith(dwellMs: U32): ObservationConfig { ObservationConfig(true, false, PLAN, dwellMs, 205) }

  lemma ConfigIsNormal(dwellMs: U32)
    requires 1 <= dwellMs <= 1000
    ensures Normal(ConfigWith(dwellMs)) && Normalize(ConfigWith(dwellMs)) == ConfigWith(dwellMs)
  {
    NormalizeIsNormal(ConfigWith(dwellMs));
  }

  /** Between windows, WiFi alone on the two-channel plan, everything off, time far from its end. */
  predicate Between(s: Runner, dwellMs: U32, place: nat) {
    && s.announced && s.open.None? && s.stuck.None? && s.running == NEITHER && place < 2 && 1 <= dwellMs <= 1000
    && s.sched == Scheduler(ConfigWith(dwellMs), place, WifiRadio) && s.sched.Valid()
    && (s.nextStart.Some? ==> s.nextStart.value == s.clock) && s.clock <= 0x1_0000_0000
  }

  function Punctual(s: Runner, start: DriverResult): OpenAnswers {
    OpenAnswers(s.clock, s.clock, Worked, s.clock, start, s.clock, Worked, s.clock)
  }

  /** The window opened at `place`, its receiver on. */
  predicate During(s: Runner, t: Runner, dwellMs: U32, place: nat) {
    && Between(s, dwellMs, place)
    && t.open.Some? && t.open.value.started && !t.open.value.faulted
    && t.open.value.window.radio == WifiRadio && t.open.value.window.channel == PLAN[place]
    && t.open.value.window.plannedMs == dwellMs && t.open.value.rxStartUs == s.clock
    && t.open.value.startUs == s.clock && t.open.value.deadlineUs == s.clock + dwellMs * US_PER_MS
    && t.announced && t.stuck.None? && t.clock == s.clock && t.running == NEITHER.Set(WifiRadio, true)
    && t.sched == Scheduler(ConfigWith(dwellMs), 1 - place, WifiRadio)
    && t.fault == s.fault && t.clean == s.clean && t.carried == s.carried
    && SweepOf(t.history) == SweepOf(s.history)
  }

  lemma WindowOpens(s: Runner, dwellMs: U32, place: nat)
    requires Between(s, dwellMs, place)
    ensures MayOpen(s, Punctual(s, Worked)) && During(s, RunWindow(s, Punctual(s, Worked)), dwellMs, place)
  {
    var a := Punctual(s, Worked);
    var (t, o) := Plan(s, a);
    assert SweepOf(t.history) == SweepOf(s.history);
    var u := Note(t.(running := t.running.Set(WifiRadio, true), clock := a.rxStartUs), StartCalled(WifiRadio,
        o.window.channel, Worked, a.rxStartUs));
    assert SweepOf(u.history) == SweepOf(s.history);
    hide SweepOf, Normal;
    assert StopOtherFirst(t, WifiRadio, a) == t;
    SweepIgnores(u.history, WindowStarted(o.windowId, o.generation, WifiRadio, o.window.channel,
        a.rxStartUs / US_PER_MS, o.window.plannedMs));
  }

  lemma SweepIgnores(h: History, m: RadioMessage)
    requires !m.ConfigApplied? && !m.WindowReported?
    ensures SweepOf(Then(h, Sent(m))) == SweepOf(h)
  {
  }

  /** The driver when the window runs for `us` and all goes well. */
  function After(t: Runner, us: U32): CloseAnswers
    requires t.clock <= 0x1_0000_0000
  {
    CloseAnswers(t.clock + us, Worked, t.clock + us, 0, 0, t.clock + us)
  }

  function CleanReport(t: Runner, a: CloseAnswers): WindowReport
    requires t.open.Some?
  {
    ReportOf(t, t.open.value, None, a)
  }

  /** A window that runs out is clean: its channel joins the sweep, and at the second the fault clears. */
  lemma WindowCompletes(s: Runner, t: Runner, dwellMs: U32, place: nat)
    requires During(s, t, dwellMs, place) && t.clean.wifi <= 1 && t.fault.wifi.Some? && s.clock <= 0x1000_0000
    ensures
      var a := After(t, dwellMs * US_PER_MS);
      MayClose(t, None, a) &&
      var u := FinishWindow(t, None, a);
      && Between(u, dwellMs, 1 - place) && u.clock == s.clock + dwellMs * US_PER_MS
      && SweepOf(u.history) == OneMore(SweepOf(s.history), PLAN[place])
      && (if t.clean.wifi == 1 then u.fault.wifi.None? else u.fault.wifi.Some? && u.clean.wifi == 1)
      && u.fault.ble == s.fault.ble
  {
    var a, o := After(t, dwellMs * US_PER_MS), t.open.value;
    var r := CleanReport(t, a);
    assert r.end == Completed && r.observedMs == dwellMs && r.window == o.window by { FullTime(dwellMs); }
    hide ReportOf;
    var v := StopAtEnd(t, o, a);
    EndsQuietly(t, o, a);
    var w := TakeDrops(v, o, a);
    assert SweepOf(w.history) == SweepOf(t.history) by {
      assert SweepOf(Then(v.history, Took(a.drops, a.doneUs))) == SweepOf(v.history);
    }
    CountSilent(w, r);
    hide StopAtEnd, TakeDrops;
    var x := CountClean(w, r);
    assert SweepOf(Emit(x, WindowReported(r)).history) == Swept(SweepOf(x.history), Sent(WindowReported(r)));
    assert x == x.(sched := t.sched);
    assert x.clean.wifi == (if t.clean.wifi == 1 then 0 else 1);
    assert if t.clean.wifi == 1 then x.fault.wifi.None? else x.fault.wifi.Some?;
    assert x.fault.ble == s.fault.ble;
    hide SweepOf, CountClean;
  }

  lemma FullTime(dwellMs: U32)
    requires 1 <= dwellMs <= 1000
    ensures dwellMs * US_PER_MS / US_PER_MS == dwellMs && Low32(dwellMs) == dwellMs
  {
  }

  lemma EndsQuietly(t: Runner, o: OpenWindow, a: CloseAnswers)
    requires t.running == NEITHER.Set(WifiRadio, true) && o.window.radio == WifiRadio && o.started && a.stop == Worked
    ensures
      var v := StopAtEnd(t, o, a);
      && v == t.(clock := a.rxEndUs, running := NEITHER, history := v.history)
      && SweepOf(v.history) == SweepOf(t.history)
  {
    var u := Note(t.(clock := a.rxEndUs), Received(MeasuredBegin(o), MeasuredEnd(o, a)));
    assert SweepOf(u.history) == SweepOf(t.history);
    assert SweepOf(Then(u.history, StopCalled(WifiRadio, a.rxEndUs, Worked, 0))) == SweepOf(u.history);
    assert SweepOf(Then(t.history, StopCalled(WifiRadio, a.rxEndUs, Worked, 0))) == SweepOf(t.history);
    hide SweepOf;
  }

  const NO_CHANNELS: PlanArray := [0, 0, 0, 0, 0, 0, 0, 0, 0, 0, 0, 0, 0, 0]

  function NewDwell(dwellMs: U32): ControlRequest {
    ControlRequest(None, None, false, 0, NO_CHANNELS, Some(dwellMs), None)
  }

  lemma DwellChanges(s: Runner, dwellMs: U32, newMs: U32)
    requires 1 <= newMs <= 1000 && s.sched.config == ConfigWith(dwellMs) && newMs != dwellMs
    ensures Merged(s.sched.config, NewDwell(newMs)) == ConfigWith(newMs) && Changes(s, NewDwell(newMs))
  {
    ConfigIsNormal(newMs);
  }

  /** A change of dwell time keeps the place, the count and the fault; the sweep knows of it. */
  lemma ChangeKeepsPlace(s: Runner, dwellMs: U32, newMs: U32, place: nat)
    requires s.sched == Scheduler(ConfigWith(dwellMs), place, WifiRadio) && s.sched.Valid() && newMs != dwellMs
    requires 1 <= newMs <= 1000 && SweepOf(s.history).config == Some(ConfigWith(dwellMs))
    ensures
      var u := ApplyControl(s, NewDwell(newMs));
      && u.sched == Scheduler(ConfigWith(newMs), place, WifiRadio) && u.sched.Valid()
      && SweepOf(u.history) == SweepOf(s.history).(config := Some(ConfigWith(newMs)))
      && (s.fault.ble.None? ==> u.clean.wifi == s.clean.wifi && u.fault == s.fault)
      && u == s.(sched := u.sched, clean := u.clean, generation := u.generation, nextStart := None, fault := u.fault,
                 history := u.history)
  {
    DwellChanges(s, dwellMs, newMs);
    ConfigIsNormal(newMs);
    var t := Reconfigured(s, ConfigWith(newMs));
    ConfigRoundTrip(t.generation, ConfigWith(newMs));
    hide ToConfigApplied, ToObservationConfig, Merged, Normalize;
    assert t.sched == Scheduler(ConfigWith(newMs), place, WifiRadio);
    assert SweepOf(EmitConfig(t).history)
        == Swept(SweepOf(s.history), Sent(ConfigApplied(ToConfigApplied(t.generation, ConfigWith(newMs)))));
    SweepIgnores(EmitConfig(t).history, FaultCleared(BleRadio));
    hide SweepOf;
  }

  /** A window cut short by a change is neither counted nor held against the count. */
  lemma WindowInterrupted(s: Runner, t: Runner, dwellMs: U32, newMs: U32, place: nat)
    requires During(s, t, dwellMs, place) && t.fault.wifi.Some? && t.fault.ble.None? && s.clock <= 0x1000_0000
    requires 1 <= newMs <= 1000 && newMs != dwellMs && SweepOf(s.history).config == Some(ConfigWith(dwellMs))
    ensures
      var a := After(t, 1);
      MayClose(t, Some(NewDwell(newMs)), a) &&
      var u := FinishWindow(t, Some(NewDwell(newMs)), a);
      && Between(u, newMs, 1 - place) && u.clock == s.clock + 1 && u.fault == t.fault && u.clean.wifi == t.clean.wifi
      && SweepOf(u.history) == OneCut(SweepOf(s.history), ConfigWith(newMs))
  {
    var a, o, pending := After(t, 1), t.open.value, Some(NewDwell(newMs));
    DwellChanges(t, dwellMs, newMs);
    var r := ReportOf(t, o, pending, a);
    assert r.end == ConfigurationChanged && r.window == o.window;
    hide ReportOf, Merged;
    var v := StopAtEnd(t, o, a);
    EndsQuietly(t, o, a);
    var w := TakeDrops(v, o, a);
    assert SweepOf(w.history) == SweepOf(t.history) by {
      assert SweepOf(Then(v.history, Took(a.drops, a.doneUs))) == SweepOf(v.history);
    }
    hide StopAtEnd, TakeDrops;
    assert CountClean(w, r) == w;
    var x := Emit(w, WindowReported(r));
    assert SweepOf(x.history) == SweepOf(s.history).(windows := SweepOf(s.history).windows + 1);
    hide SweepOf, CountClean;
    var y := Scheduled(x, o, a).(open := None);
    ChangeKeepsPlace(y, dwellMs, newMs, 1 - place);
    hide ApplyControl;
  }

  const BROKEN_RECEIVER := Fault(SetChannelOp, 1)

  /** The first window of a new runner fails to start. */
  lemma FirstWindowFails() returns (actions: seq<Action>, u: Runner)
    ensures Reaches(NewRunner(ConfigWith(1000), 0), actions, u)
    ensures Between(u, 1000, 1) && u.clock <= 0x100_0000 && u.fault == PerRadio(Some(BROKEN_RECEIVER), None)
    ensures u.clean.wifi == 0 && SweepOf(u.history) == Sweep(Some(ConfigWith(1000)), {}, 0, [])
  {
    ConfigIsNormal(1000);
    var r0 := NewRunner(ConfigWith(1000), 0);
    var r1 := Announce(r0);
    AnnouncedSweep(r0);
    var a := Punctual(r1, Failed(BROKEN_RECEIVER));
    StartFails(r1);
    var r2 := RunWindow(r1, a);
    FailedWindowEnds(r2);
    var c := After(r2, 1_000_000);
    u := FinishWindow(r2, None, c);
    AnnouncingReaches(r0);
    hide Announce, RunWindow, FinishWindow, SweepOf, NewRunner, Reaches;
    OpensThenCloses(r1, a, r2, None, c, u);
    ReachesTwice(r0, [Announces], r1, [Opens(a), Closes(None, c)], u);
    actions := [Announces] + [Opens(a), Closes(None, c)];
  }

  lemma AnnouncedSweep(r0: Runner)
    requires r0 == NewRunner(ConfigWith(1000), 0)
    ensures Between(Announce(r0), 1000, 0) && Announce(r0).fault == PerRadio(None, None)
    ensures Announce(r0) == r0.(announced := true, generation := 1, history := Announce(r0).history)
    ensures SweepOf(Announce(r0).history) == Sweep(Some(ConfigWith(1000)), {}, 0, [])
  {
    ConfigIsNormal(1000);
    ConfigRoundTrip(1, ConfigWith(1000));
    hide ToConfigApplied, ToObservationConfig, Normalize;
  }

  predicate FailedWindow(t: Runner) {
    && t.announced && t.stuck.None? && t.running == NEITHER && t.clock == 0 && t.clean.wifi == 0
    && t.fault == PerRadio(Some(BROKEN_RECEIVER), None)
    && t.sched == Scheduler(ConfigWith(1000), 1, WifiRadio) && t.sched.Valid()
    && t.open.Some? && !t.open.value.started && t.open.value.faulted && t.open.value.deadlineUs == 1_000_000
    && t.open.value.window.radio == WifiRadio
    && SweepOf(t.history) == Sweep(Some(ConfigWith(1000)), {}, 0, [])
  }

  lemma StartFails(s: Runner)
    requires Between(s, 1000, 0) && s.clock == 0 && s.fault == PerRadio(None, None)
    requires SweepOf(s.history) == Sweep(Some(ConfigWith(1000)), {}, 0, [])
    ensures MayOpen(s, Punctual(s, Failed(BROKEN_RECEIVER)))
    ensures FailedWindow(RunWindow(s, Punctual(s, Failed(BROKEN_RECEIVER))))
  {
    var a, w := Punctual(s, Failed(BROKEN_RECEIVER)), SweepOf(s.history);
    var (t, o) := Plan(s, a);
    assert SweepOf(t.history) == w;
    assert StopOtherFirst(t, WifiRadio, a) == t;
    var u := Note(t.(running := t.running.Set(WifiRadio, true)), StartCalled(WifiRadio, o.window.channel, a.start, t.clock));
    assert SweepOf(u.history) == Restarted(w) == w;
    var v := NoteFault(u, WifiRadio, BROKEN_RECEIVER);
    SweepIgnores(u.history, FaultRaised(WifiRadio, BROKEN_RECEIVER));
    assert SweepOf(Then(v.history, StopCalled(WifiRadio, 0, Worked, 0))) == SweepOf(v.history);
    hide SweepOf, Normal;
  }

  lemma FailedWindowEnds(t: Runner)
    requires FailedWindow(t)
    ensures
      var a := After(t, 1_000_000);
      MayClose(t, None, a) &&
      var u := FinishWindow(t, None, a);
      && Between(u, 1000, 1) && u.clock == 1_000_000 && u.fault == t.fault && u.clean.wifi == 0
      && SweepOf(u.history) == SweepOf(t.history)
  {
    var a, o := After(t, 1_000_000), t.open.value;
    var r := ReportOf(t, o, None, a);
    var v := TakeDrops(StopAtEnd(t, o, a), o, a);
    assert SweepOf(v.history) == SweepOf(t.history) by {
      assert SweepOf(Then(t.history, Took(a.drops, a.doneUs))) == SweepOf(t.history);
    }
    var x := CountClean(v, r);
    assert x == v.(clean := v.clean.Set(WifiRadio, 0));
    assert SweepOf(Emit(x, WindowReported(r)).history) == SweepOf(v.history);
    hide SweepOf, CountClean, ReportOf;
  }

  lemma OpensThenCloses(s: Runner, a: OpenAnswers, t: Runner, pending: Option<ControlRequest>, c: CloseAnswers, u: Runner)
    requires MayOpen(s, a) && t == RunWindow(s, a) && MayClose(t, pending, c) && u == FinishWindow(t, pending, c)
    ensures Reaches(s, [Opens(a), Closes(pending, c)], u)
  {
    hide RunWindow, FinishWindow;
    ReachesOne(s, Opens(a));
    ReachesOne(t, Closes(pending, c));
    hide MayOpen, MayClose;
    ReachesTwice(s, [Opens(a)], t, [Closes(pending, c)], u);
    assert [Opens(a)] + [Closes(pending, c)] == [Opens(a), Closes(pending, c)];
  }

  /** From between windows to between windows, one whole window. */
  lemma CleanWindow(s: Runner, dwellMs: U32, place: nat) returns (actions: seq<Action>, u: Runner)
    requires Between(s, dwellMs, place) && s.clean.wifi <= 1 && s.fault.wifi.Some? && s.clock <= 0x1000_0000
    ensures Reaches(s, actions, u) && Between(u, dwellMs, 1 - place) && u.clock == s.clock + dwellMs * US_PER_MS
    ensures SweepOf(u.history) == OneMore(SweepOf(s.history), PLAN[place])
    ensures if s.clean.wifi == 1 then u.fault.wifi.None? else u.fault.wifi.Some? && u.clean.wifi == 1
    ensures u.fault.ble == s.fault.ble
  {
    WindowOpens(s, dwellMs, place);
    var t := RunWindow(s, Punctual(s, Worked));
    WindowCompletes(s, t, dwellMs, place);
    var a := After(t, dwellMs * US_PER_MS);
    u := FinishWindow(t, None, a);
    hide RunWindow, FinishWindow, SweepOf, Reaches;
    OpensThenCloses(s, Punctual(s, Worked), t, None, a, u);
    actions := [Opens(Punctual(s, Worked)), Closes(None, a)];
  }

  lemma BrokenWindow(s: Runner, dwellMs: U32, newMs: U32, place: nat) returns (actions: seq<Action>, u: Runner)
    requires Between(s, dwellMs, place) && s.fault.wifi.Some? && s.fault.ble.None? && s.clock <= 0x1000_0000
    requires 1 <= newMs <= 1000 && newMs != dwellMs && SweepOf(s.history).config == Some(ConfigWith(dwellMs))
    ensures Reaches(s, actions, u) && Between(u, newMs, 1 - place) && u.clock == s.clock + 1
    ensures u.fault == s.fault && u.clean.wifi == s.clean.wifi
    ensures SweepOf(u.history) == OneCut(SweepOf(s.history), ConfigWith(newMs))
  {
    WindowOpens(s, dwellMs, place);
    var t := RunWindow(s, Punctual(s, Worked));
    WindowInterrupted(s, t, dwellMs, newMs, place);
    var a, pending := After(t, 1), Some(NewDwell(newMs));
    u := FinishWindow(t, pending, a);
    hide RunWindow, FinishWindow, SweepOf, Reaches;
    OpensThenCloses(s, Punctual(s, Worked), t, pending, a, u);
    actions := [Opens(Punctual(s, Worked)), Closes(pending, a)];
  }

  /** Clean windows that are not spread need not cover the plan. Channel 1 fails; channel 6 is heard clean; a
      change of dwell time cuts channel 1 short; channel 6 is heard clean again, and the fault clears though
      channel 1, the one that failed, was never heard. */
  lemma FaultMayClearUnheard() returns (actions: seq<Action>, u: Runner)
    ensures Reaches(NewRunner(ConfigWith(1000), 0), actions, u)
    ensures u.fault.wifi.None? && SweepOf(u.history).clean == {6} && 1 in u.sched.config.channels
    ensures SweepOf(u.history).offsets == [0, 2]
  {
    var s0, a1, s1, a2, s2, a3, s3, a4;
    s0 := NewRunner(ConfigWith(1000), 0);
    hide SweepOf, NewRunner, Reaches;
    a1, s1 := FirstWindowFails();
    a2, s2 := CleanWindow(s1, 1000, 1);
    a3, s3 := BrokenWindow(s2, 1000, 500, 0);
    a4, u := CleanWindow(s3, 500, 1);
    actions := FourReach(s0, a1, s1, a2, s2, a3, s3, a4, u);
  }

  lemma FourReach(s0: Runner, a1: seq<Action>, s1: Runner, a2: seq<Action>, s2: Runner, a3: seq<Action>, s3: Runner,
                  a4: seq<Action>, u: Runner) returns (actions: seq<Action>)
    requires Reaches(s0, a1, s1) && Reaches(s1, a2, s2) && Reaches(s2, a3, s3) && Reaches(s3, a4, u)
    ensures Reaches(s0, actions, u)
  {
    hide Reaches;
    ReachesTwice(s0, a1, s1, a2, s2);
    ReachesTwice(s0, a1 + a2, s2, a3, s3);
    ReachesTwice(s0, a1 + a2 + a3, s3, a4, u);
    actions := a1 + a2 + a3 + a4;
  }

  /** Nor is an uncut sweep needed. Channel 1 fails; a change of dwell time cuts channel 6 short; channels 1
      and 6 are heard clean, one window apart, and the fault clears with the whole plan heard. */
  lemma CutSweepMayBeWhole() returns (actions: seq<Action>, u: Runner)
    ensures Reaches(NewRunner(ConfigWith(1000), 0), actions, u)
    ensures u.fault.wifi.None? && SweepOf(u.history).clean == {1, 6} && u.sched.config.channels == [1, 6]
    ensures SweepOf(u.history).Broken() && SweepOf(u.history).offsets == [1, 2]
  {
    var s0, a1, s1, a2, s2, a3, s3, a4;
    s0 := NewRunner(ConfigWith(1000), 0);
    hide SweepOf, NewRunner, Reaches;
    a1, s1 := FirstWindowFails();
    a2, s2 := BrokenWindow(s1, 1000, 500, 1);
    a3, s3 := CleanWindow(s2, 500, 0);
    a4, u := CleanWindow(s3, 500, 1);
    actions := FourReach(s0, a1, s1, a2, s2, a3, s3, a4, u);
  }
}
