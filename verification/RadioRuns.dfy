/** What holds over every run of the radio task, for every driver, every control source and every clock
    that does not run backwards. */
module RadioRuns {
  import opened Basics
  import opened Coverage
  import opened RadioMessages
  import opened RadioModel
  import opened RadioReceivers
  import opened RadioReplay
  import opened RadioReports
  import opened RadioTime
  import opened RadioClean
  import opened RadioFaults

  predicate RunnerInv(s: Runner, origin: U64) {
    && ReceiverInv(s) && ReplayInv(s) && ReportInv(s) && TimeInv(s, origin) && CleanInv(s)
    && FaultInv(s) && BleUncounted(s)
  }

  lemma NewRunnerIsGood(given: ObservationConfig, clock: U64)
    ensures RunnerInv(NewRunner(given, clock), clock)
  {
    var s := NewRunner(given, clock);
    hide Normalize;
  }

  /** Every part of every step keeps the whole invariant. */
  lemma ActionKeeps(s: Runner, a: Action, origin: U64)
    requires RunnerInv(s, origin) && Legal(s, a)
    ensures RunnerInv(Next(s, a), origin)
  {
    assert s.announced || (s.open.None? && s.stuck.None? && s.history == Nothing);
    hide ReceiverInv, ReplayInv, ReportInv, TimeInv, CleanInv, FaultInv, BleUncounted, Next;
    FaultsHold(s, a);
    UncountedStays(s, a);
    ReceiversSafe(s, a);
    CopyAgrees(s, a);
    BooksBalance(s, a);
    TimesHold(s, a, origin);
    SweepHolds(s, a);
  }

  lemma {:induction false} RunKeeps(s: Runner, actions: seq<Action>, t: Runner, origin: U64)
    requires RunnerInv(s, origin) && Reaches(s, actions, t)
    ensures RunnerInv(t, origin)
    decreases |actions|
  {
    hide RunnerInv, Legal, Next;
    if actions != [] {
      ActionKeeps(s, actions[0], origin);
      RunKeeps(Next(s, actions[0]), actions[1..], t, origin);
    }
  }

  predicate IsRun(given: ObservationConfig, origin: U64, actions: seq<Action>, s: Runner) {
    Reaches(NewRunner(given, origin), actions, s)
  }

  lemma RunIsGood(given: ObservationConfig, origin: U64, actions: seq<Action>, s: Runner)
    requires IsRun(given, origin, actions, s)
    ensures RunnerInv(s, origin)
  {
    NewRunnerIsGood(given, origin);
    RunKeeps(NewRunner(given, origin), actions, s, origin);
  }

  // ---- the promises, one by one ----

  /** Whatever fails, at most one receiver can be on at any time, every start finds both off, and with no
      window open the one flagged running is the stuck one. */
  lemma OneReceiverAtATime(given: ObservationConfig, origin: U64, actions: seq<Action>, s: Runner)
    requires IsRun(given, origin, actions, s)
    ensures Exclusive(s.history) && On(s.history) == s.running
    ensures s.open.None? ==> forall r: Radio :: s.running.Get(r) <==> s.stuck == Some(r)
  {
    RunIsGood(given, origin, actions, s);
    hide On, Exclusive, ReplayInv, ReportInv, TimeInv, CleanInv, IsRun;
  }

  /** Pumping all the messages sent gives the app loop the exact configuration, generation, window in
      progress and faults; a configuration never changes between a window's start and its report, and both
      bear the generation the app loop then holds. */
  lemma CopyIsExact(given: ObservationConfig, origin: U64, actions: seq<Action>, s: Runner)
    requires IsRun(given, origin, actions, s) && s.announced
    ensures
      var r := PumpAll(NEW_REPLICA, Messages(s.history));
      && r.config == s.sched.config && r.generation == s.generation
      && r.active == ActiveOf(s) && r.ledger.faults == s.fault
    ensures ConfigBetween(s.history)
  {
    RunIsGood(given, origin, actions, s);
    hide ReceiverInv, ReportInv, TimeInv, CleanInv, IsRun, PumpAll;
    ReplayIsPumping(s.history);
  }

  /** The faults the app loop holds are the driver's own words: it hears of a fault directly after the call that
      failed and only then, and of every failed start, and failed stop of a receiver not yet stuck, unless it holds that
      very fault already. A stuck receiver has a fault, and a radio that is off, and its receiver too, has none. */
  lemma FaultsAreHeard(given: ObservationConfig, origin: U64, actions: seq<Action>, s: Runner)
    requires IsRun(given, origin, actions, s)
    ensures
      var faults := PumpAll(NEW_REPLICA, Messages(s.history)).ledger.faults;
      && Settled(s.history) && StuckOf(s.history) == s.stuck
      && (s.stuck.Some? ==> faults.Get(s.stuck.value).Some?)
      && forall r: Radio :: !Enabled(s.sched.config, r) && s.stuck != Some(r) ==> faults.Get(r).None?
  {
    RunIsGood(given, origin, actions, s);
    hide ReceiverInv, ReplayInv, ReportInv, TimeInv, CleanInv, IsRun, PumpAll, Settled;
    ReplayIsPumping(s.history);
  }

  /** In any run: a Bluetooth fault clears at the end of a window exactly if its receiver started, was received for a
      millisecond or more and stopped when asked to. */
  lemma BleFaultClears(given: ObservationConfig, origin: U64, actions: seq<Action>, s: Runner, a: CloseAnswers)
    requires IsRun(given, origin, actions, s) && MayClose(s, None, a)
    requires s.open.value.window.radio == BleRadio && s.fault.ble.Some?
    ensures
      var o := s.open.value;
      FinishWindow(s, None, a).fault.ble.None?
      <==> o.started && a.stop.Worked? && Min(a.rxEndUs, o.deadlineUs) - Max(o.rxStartUs, o.startUs) >= 1000
  {
    RunIsGood(given, origin, actions, s);
    hide ReceiverInv, ReplayInv, ReportInv, TimeInv, CleanInv, FaultInv, BleUncounted, IsRun, FinishWindow;
    BleClearsAtOnce(s, a);
  }

  /** Nothing that was lost goes unreported, and nothing is reported twice, until a 32-bit count is full;
      and window k, counting from one, bears id k modulo 2^32 and is reported exactly once, in order, as a
      driver fault exactly when a start or stop failed in it. */
  lemma EveryDropIsReported(given: ObservationConfig, origin: U64, actions: seq<Action>, s: Runner)
    requires IsRun(given, origin, actions, s)
    ensures
      var b := BooksOf(s.history);
      && b.reported + s.carried <= b.taken
      && (!b.saturated && s.carried < U32_MAX ==> b.reported + s.carried == b.taken)
      && s.windowId == b.openedCount % 0x1_0000_0000
      && b.closedCount == b.openedCount - (if s.open.Some? then 1 else 0)
    ensures InOrder(s.history)
  {
    RunIsGood(given, origin, actions, s);
    hide BooksOf, InOrder, ReceiverInv, ReplayInv, TimeInv, CleanInv, IsRun;
    IdsCount(s.history);
  }

  /** The reports, in order. */
  function Reports(h: History): seq<WindowReport> {
    match h
    case Nothing => []
    case Then(b, Sent(WindowReported(r))) => Reports(b) + [r]
    case Then(b, _) => Reports(b)
  }

  /** The history up to and with some event. */
  predicate UpTo(p: History, h: History)
    decreases h
  {
    p == h || (h.Then? && UpTo(p, h.before))
  }

  lemma {:induction false} InTimeUpTo(p: History, h: History)
    requires UpTo(p, h) && InTime(h)
    ensures InTime(p)
    decreases h
  {
    hide Timely;
    if p != h { InTimeUpTo(p, h.before); }
  }

  /** Every report of every run says what was received for its window: from the later of the window's planned
      start and the clock once its receiver had started to the earlier of its deadline and the clock before its
      stop, in whole milliseconds. A window reported complete was received for up to its deadline. */
  lemma ReportsAreExact(given: ObservationConfig, origin: U64, actions: seq<Action>, s: Runner, h: History,
                        r: WindowReport)
    requires IsRun(given, origin, actions, s) && UpTo(Then(h, Sent(WindowReported(r))), s.history)
    ensures
      var t := TimesOf(h);
      && t.planned.Some? && r.completedMs == t.taken / US_PER_MS
      && (t.begun.None? || t.ended.None? ==> r.observedMs == 0 && t.unreportedUs == 0)
      && (t.begun.Some? && t.ended.Some? ==>
            var received := Min(t.planned.value.1, t.ended.value) - Max(t.planned.value.0, t.begun.value);
            t.unreportedUs == Max(received, 0) && r.observedMs == Max(received, 0) / US_PER_MS)
      && (r.end == Completed ==> t.begun.Some? && t.ended.Some? && t.planned.value.1 <= t.ended.value)
  {
    RunIsGood(given, origin, actions, s);
    hide IsRun, ReceiverInv, ReplayInv, ReportInv, CleanInv, TimesOf, Timely;
    InTimeUpTo(Then(h, Sent(WindowReported(r))), s.history);
    ReportIsExact(TimesOf(h), r);
  }

  lemma ReportIsExact(t: Times, r: WindowReport)
    requires Timely(t, Sent(WindowReported(r)))
    ensures t.planned.Some? && r.completedMs == t.taken / US_PER_MS
    ensures t.begun.None? || t.ended.None? ==> r.observedMs == 0 && t.unreportedUs == 0
    ensures t.begun.Some? && t.ended.Some? ==>
              var received := Min(t.planned.value.1, t.ended.value) - Max(t.planned.value.0, t.begun.value);
              t.unreportedUs == Max(received, 0) && r.observedMs == Max(received, 0) / US_PER_MS
    ensures r.end == Completed ==> t.begun.Some? && t.ended.Some? && t.planned.value.1 <= t.ended.value
  {
  }

  /** A window starts when the one before it was over and reported, or as soon as it is planned if there was
      none, its configuration changed or a receiver was stuck; it is planned for the time the schedule says. */
  lemma WindowsFollow(given: ObservationConfig, origin: U64, actions: seq<Action>, s: Runner, h: History,
                      id: U32, w: Window, startUs: U64, deadlineUs: U64, plannedUs: U64)
    requires IsRun(given, origin, actions, s) && UpTo(Then(h, Opened(id, w, startUs, deadlineUs, plannedUs)), s.history)
    ensures startUs == (if TimesOf(h).due.Some? then TimesOf(h).due.value else plannedUs)
    ensures w.startMs == startUs / US_PER_MS && deadlineUs == SaturatingAdd64(startUs, w.plannedMs * US_PER_MS)
  {
    RunIsGood(given, origin, actions, s);
    hide IsRun, ReceiverInv, ReplayInv, ReportInv, CleanInv, TimesOf;
    InTimeUpTo(Then(h, Opened(id, w, startUs, deadlineUs, plannedUs)), s.history);
  }

  /** The receive intervals are disjoint and in order and each lies within its window's plan; so what all
      reports claim to have observed never exceeds the time that has passed, and falls short of what was
      received by less than a millisecond a report. */
  lemma ObservedWithinElapsed(given: ObservationConfig, origin: U64, actions: seq<Action>, s: Runner)
    requires IsRun(given, origin, actions, s)
    ensures
      var t := TimesOf(s.history);
      && InTime(s.history) && t.observedMs * US_PER_MS <= t.receivedUs <= s.clock - origin
      && t.receivedUs <= t.observedMs * US_PER_MS + (US_PER_MS - 1) * |Reports(s.history)|
  {
    RunIsGood(given, origin, actions, s);
    hide IsRun, ReceiverInv, ReplayInv, ReportInv, CleanInv, TimesOf, InTime;
    ReceivedIsReported(s.history);
  }

  lemma {:induction false} ReceivedIsReported(h: History)
    requires InTime(h)
    ensures
      var t := TimesOf(h);
      t.receivedUs <= t.observedMs * US_PER_MS + t.unreportedUs + (US_PER_MS - 1) * |Reports(h)|
  {
    if h.Then? {
      ReceivedIsReported(h.before);
      if h.last.Sent? && h.last.message.WindowReported? {
        var t, r := TimesOf(h.before), h.last.message.report;
        ReportIsExact(t, r);
        assert t.unreportedUs == t.Measured() && r.observedMs == t.Measured() / US_PER_MS;
        hide TimesOf, InTime, Timely, Times.Measured;
        assert t.Measured() <= (t.Measured() / US_PER_MS) * US_PER_MS + (US_PER_MS - 1);
      }
    }
  }

  lemma {:induction false} RecordOneMore(l: Ledger, rs: seq<WindowReport>, r: WindowReport)
    ensures RecordAll(l, rs + [r]) == Record(RecordAll(l, rs), r)
    decreases |rs|
  {
    hide Record;
    if rs == [] {
      assert rs + [r] == [r] && [r][1..] == [];
    } else {
      assert (rs + [r])[1..] == rs[1..] + [r];
      RecordOneMore(Record(l, rs[0]), rs[1..], r);
    }
  }

  /** The app loop's ledger is that of the reports, and it keeps the last of them. */
  lemma {:induction false} LedgerOfReports(h: History)
    ensures Replay(h).ledger.totals == RecordAll(NEW_LEDGER, Reports(h)).totals
    ensures Replay(h).ledger.gaps == RecordAll(NEW_LEDGER, Reports(h)).gaps
    ensures Replay(h).last == if Reports(h) == [] then None else Some(Reports(h)[|Reports(h)| - 1])
  {
    hide RecordAll, AddTotals, ToObservationConfig;
    match h
    case Nothing => assert RecordAll(NEW_LEDGER, []) == NEW_LEDGER by { RecordNothing(); }
    case Then(b, Sent(WindowReported(r))) => LedgerOfReports(b); RecordOneMore(NEW_LEDGER, Reports(b), r);
    case Then(b, _) => LedgerOfReports(b);
  }

  lemma RecordNothing()
    ensures RecordAll(NEW_LEDGER, []) == NEW_LEDGER
  {
  }

  lemma {:induction false} SumsOneMore(rs: seq<WindowReport>, r: WindowReport, radio: Radio)
    ensures ObservedMs(rs + [r], radio) == ObservedMs(rs, radio) + if r.window.radio == radio then Seen(r) else 0
    ensures PlannedMs(rs + [r], radio) == PlannedMs(rs, radio) + if r.window.radio == radio then r.window.plannedMs else 0
    decreases |rs|
  {
    if rs == [] {
      assert rs + [r] == [r] && [r][1..] == [];
    } else {
      assert (rs + [r])[1..] == rs[1..] + [r];
      SumsOneMore(rs[1..], r, radio);
    }
  }

  lemma {:induction false} SumsOfReports(h: History)
    requires InTime(h) && InOrder(h)
    ensures ObservedMs(Reports(h), WifiRadio) + ObservedMs(Reports(h), BleRadio) == TimesOf(h).observedMs
    ensures |Reports(h)| == BooksOf(h).closedCount
    ensures forall r: Radio :: PlannedMs(Reports(h), r) <= MAX_WINDOW_MS * |Reports(h)|
    ensures BooksOf(h).outstanding.Some? ==> BooksOf(h).outstanding.value.1.plannedMs <= MAX_WINDOW_MS
  {
    if h.Then? {
      SumsOfReports(h.before);
      if h.last.Sent? && h.last.message.WindowReported? {
        var r, rs := h.last.message.report, Reports(h.before);
        SumsOneMore(rs, r, WifiRadio);
        SumsOneMore(rs, r, BleRadio);
        hide ObservedMs, PlannedMs;
        assert Seen(r) == r.observedMs;
        assert MAX_WINDOW_MS * |rs + [r]| == MAX_WINDOW_MS * |rs| + MAX_WINDOW_MS;
      }
    }
  }

  /** The app loop's ledger says of each radio what its reports say, and shows the newest sixteen of the windows
      of which less than half was received; beside it stands the last report. */
  lemma LedgerSaysReports(h: History, radio: Radio)
    ensures
      var (r, rs) := (PumpAll(NEW_REPLICA, Messages(h)), Reports(h));
      && Totalled(NO_TOTALS, rs, radio, r.ledger.totals.Get(radio)) && r.ledger.gaps == Newest(AllGaps(rs))
      && r.last == if rs == [] then None else Some(rs[|rs| - 1])
  {
    hide PumpAll, Reports, RecordAll, Totalled, Newest;
    ReplayIsPumping(h);
    LedgerOfReports(h);
    TotalsAreSums(NEW_LEDGER, Reports(h), radio);
    GapsAreNewest(NEW_LEDGER, Reports(h));
    assert [] + AllGaps(Reports(h)) == AllGaps(Reports(h));
  }

  const ENOUGH_WINDOWS: nat := 0x40_0000_0000

  /** Over any run of fewer than 2^38 windows, at one a millisecond some nine years, the app loop's ledger
      holds true sums: over both radios it has observed no more than has passed, and each radio's share of
      its planned time is at most 1000 per mille. */
  lemma LedgerIsHonest(given: ObservationConfig, origin: U64, actions: seq<Action>, s: Runner)
    requires IsRun(given, origin, actions, s) && BooksOf(s.history).closedCount < ENOUGH_WINDOWS
    ensures
      var l := PumpAll(NEW_REPLICA, Messages(s.history)).ledger;
      && (l.totals.wifi.observedMs + l.totals.ble.observedMs) * US_PER_MS <= s.clock - origin
      && Permille(l.totals.wifi) <= 1000 && Permille(l.totals.ble) <= 1000
  {
    var rs := Reports(s.history);
    assert InTime(s.history) && InOrder(s.history) && TimesOf(s.history).observedMs * US_PER_MS <= s.clock - origin by {
      EveryDropIsReported(given, origin, actions, s);
      ObservedWithinElapsed(given, origin, actions, s);
    }
    hide IsRun, PumpAll, TimesOf, InTime, InOrder, BooksOf, RecordAll, Permille;
    ReplayIsPumping(s.history);
    LedgerOfReports(s.history);
    SumsOfReports(s.history);
    assert MAX_WINDOW_MS * |rs| <= MAX_WINDOW_MS * ENOUGH_WINDOWS;
    forall r: Radio
      ensures Permille(RecordAll(NEW_LEDGER, rs).totals.Get(r)) <= 1000
      ensures RecordAll(NEW_LEDGER, rs).totals.Get(r).observedMs == ObservedMs(rs, r)
    {
      PermilleIsShare(rs, r);
      SumsFit(rs, r);
    }
    assert RecordAll(NEW_LEDGER, rs).totals.Get(WifiRadio) == RecordAll(NEW_LEDGER, rs).totals.wifi;
    assert RecordAll(NEW_LEDGER, rs).totals.Get(BleRadio) == RecordAll(NEW_LEDGER, rs).totals.ble;
  }

  /** In any run: when the count of clean windows clears a WiFi fault, every channel of the plan has been
      heard clean just when no two of the windows counted lie a multiple of the plan's length apart, so in
      particular when no WiFi window of the sweep was cut short or measured nothing. */
  lemma FaultClearsAfterSweep(given: ObservationConfig, origin: U64, actions: seq<Action>, s: Runner, a: CloseAnswers)
    requires IsRun(given, origin, actions, s) && MayClose(s, None, a) && WifiOpen(s)
    requires s.fault.wifi.Some? && FinishWindow(s, None, a).fault.wifi.None?
    ensures
      var (w, plan) := (SweepOf(FinishWindow(s, None, a).history), s.sched.config.channels);
      && |w.offsets| == |plan| > 0
      && ((forall c <- plan :: c in w.clean) <==> w.Spread(|plan|))
      && (!w.Broken() ==> forall c <- plan :: c in w.clean)
  {
    RunIsGood(given, origin, actions, s);
    hide IsRun, ReplayInv, ReportInv, TimeInv, CleanInv, FinishWindow, SweepOf, On, Exclusive;
    ClearedExactly(s, a);
  }
}
