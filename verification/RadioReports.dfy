/** Every window gets exactly one report, in order, and no lost event goes uncounted. */
module RadioReports {
  import opened Basics
  import opened Coverage
  import opened RadioMessages
  import opened RadioModel

  /** What has been taken from the driver and what has been reported, the window still to be reported, the
      newest id, how many windows were opened and reported, whether a start or stop has failed since the
      newest was opened, and whether a change that cut a window short is still to be announced. */
  datatype Books = Books(
    taken: nat, reported: nat, saturated: bool, outstanding: Option<(U32, Window)>, lastId: U32, openedCount: nat,
    closedCount: nat, failed: bool, owing: bool)

  const NO_BOOKS := Books(0, 0, false, None, 0, 0, 0, false, false)

  function Entered(b: Books, e: Event): Books {
    match e
    case Took(count, _) => b.(taken := b.taken + count)
    case Opened(id, w, _, _, _) => b.(outstanding := Some((id, w)), lastId := id, openedCount := b.openedCount + 1,
                                   failed := false)
    case StartCalled(_, _, start, _) => b.(failed := b.failed || start.Failed?)
    case StopCalled(_, _, stop, _) => b.(failed := b.failed || stop.Failed?)
    case Sent(ConfigApplied(_)) => b.(owing := false)
    case Sent(WindowReported(r)) =>
      b.(reported := b.reported + r.droppedEvents, saturated := b.saturated || r.droppedEvents == U32_MAX,
         outstanding := None, closedCount := b.closedCount + 1, owing := r.end == ConfigurationChanged)
    case _ => b
  }

  function BooksOf(h: History): Books {
    match h
    case Nothing => NO_BOOKS
    case Then(b, e) => Entered(BooksOf(b), e)
  }

  /** Windows are opened one at a time under the next id. A receiver is started, and announced, for the
      window just opened and on its channel, and the next report is that window's. The report says
      DriverFault exactly when a start or a stop has failed since, and if it says ConfigurationChanged the very
      next thing is the new configuration. */
  predicate Fits(b: Books, e: Event) {
    && (b.owing ==> e.Sent? && e.message.ConfigApplied?)
    && match e
       case Opened(id, _, _, _, _) => b.outstanding.None? && id == Inc32(b.lastId)
       case StartCalled(radio, channel, _, _) =>
         b.outstanding.Some? && b.outstanding.value.1.radio == radio && b.outstanding.value.1.channel == channel
       case Sent(WindowStarted(id, _, radio, channel, _, planned)) =>
         && b.outstanding.Some? && b.outstanding.value.0 == id
         && var w := b.outstanding.value.1; w.radio == radio && w.channel == channel && w.plannedMs == planned
       case Sent(WindowReported(r)) =>
         b.outstanding == Some((r.windowId, r.window)) && (r.end == DriverFault <==> b.failed)
       case _ => true
  }

  predicate InOrder(h: History) {
    h.Then? ==> InOrder(h.before) && Fits(BooksOf(h.before), h.last)
  }

  predicate Kept(s: Runner, b: Books) { BooksOf(s.history) == b && InOrder(s.history) }

  /** Taken and not yet reported is carried, unless some count had reached its 32-bit limit. */
  predicate DropsConserved(b: Books, carried: U32) {
    && b.reported + carried <= b.taken
    && (!b.saturated && carried < U32_MAX ==> b.reported + carried == b.taken)
  }

  predicate ReportInv(s: Runner) {
    var b := BooksOf(s.history);
    && Kept(s, b) && DropsConserved(b, s.carried) && b.lastId == s.windowId
    && b.outstanding == (if s.open.Some? then Some((s.open.value.windowId, s.open.value.window)) else None)
    && !b.owing && (s.open.Some? ==> b.failed == s.open.value.faulted)
  }

  // ---- the small steps ----

  predicate Silent(e: Event) {
    && !e.Took? && !e.Opened? && !(e.Sent? && e.message.WindowReported?)
    && (e.StartCalled? ==> e.start.Worked?) && (e.StopCalled? ==> e.stop.Worked?)
  }

  lemma NoteKeepsBooks(s: Runner, e: Event, b: Books)
    requires Kept(s, b) && Fits(b, e)
    ensures Kept(Note(s, e), Entered(b, e)) && (Silent(e) && !b.owing ==> Entered(b, e) == b)
  {
  }

  lemma FaultsKeepBooks(s: Runner, radio: Radio, fault: Fault, b: Books)
    requires Kept(s, b) && !b.owing
    ensures Kept(NoteFault(s, radio, fault), b) && Kept(ClearFault(s, radio), b)
  {
    NoteKeepsBooks(s, Sent(FaultRaised(radio, fault)), b);
    NoteKeepsBooks(s, Sent(FaultCleared(radio)), b);
    hide BooksOf, InOrder;
  }

  lemma StopKeepsBooks(s: Runner, radio: Radio, result: DriverResult, nowUs: U64, b: Books)
    requires Kept(s, b) && !b.owing
    ensures
      var t := StopOrStick(s, radio, result, nowUs);
      && Kept(t, b.(failed := b.failed || result.Failed?)) && t.carried == s.carried && t.windowId == s.windowId
      && t.open == s.open && t.sched == s.sched && (t.stuck.Some? <==> s.stuck.Some? || result.Failed?)
  {
    hide BooksOf, InOrder;
    match result
    case Worked => NoteKeepsBooks(s, StopCalled(radio, s.clock, Worked, 0), b);
    case Failed(fault) =>
      var at := SaturatingAdd64(nowUs, STOP_RETRY_BACKOFF_US);
      NoteKeepsBooks(s, StopCalled(radio, s.clock, result, nowUs), b);
      var t := Note(s, StopCalled(radio, s.clock, result, nowUs));
      FaultsKeepBooks(t.(stuck := Some(radio), stopRetryAt := at, nextStart := None, clock := nowUs), radio, fault,
                      b.(failed := true));
  }

  // ---- the actions ----

  lemma ApplyKeepsBooks(s: Runner, r: ControlRequest, b: Books)
    requires Kept(s, b) && s.sched.Valid() && (b.owing ==> Changes(s, r))
    ensures
      var t := ApplyControl(s, r);
      Kept(t, b.(owing := false)) && t.carried == s.carried && t.windowId == s.windowId && t.open == s.open
  {
    hide BooksOf, InOrder, Configure, CleanAfter, Merged;
    if Changes(s, r) {
      var t := Reconfigured(s, Merged(s.sched.config, r));
      NoteKeepsBooks(t, Sent(ConfigApplied(ToConfigApplied(t.generation, t.sched.config))), b);
      var u, c := EmitConfig(t), b.(owing := false);
      FaultsKeepBooks(u, WifiRadio, Fault(StopOp, 0), c);
      FaultsKeepBooks(ClearIfDisabled(u, WifiRadio, u.sched.config.wifiEnabled), BleRadio, Fault(StopOp, 0), c);
    }
  }

  lemma StartKeepsBooks(s: Runner, o: OpenWindow, a: OpenAnswers, b: Books)
    requires Kept(s, b) && b.outstanding == Some((o.windowId, o.window)) && !b.owing && !b.failed && !o.faulted
    ensures
      var t := StartReceiver(s, o, a);
      && Kept(t, b.(failed := a.start.Failed?)) && t.carried == s.carried && t.windowId == s.windowId
      && t.open.Some? && t.open.value.windowId == o.windowId && t.open.value.window == o.window
      && t.open.value.faulted == a.start.Failed?
  {
    hide BooksOf, InOrder;
    var w := o.window;
    match a.start
    case Worked =>
      NoteKeepsBooks(s, StartCalled(w.radio, w.channel, Worked, a.rxStartUs), b);
      var e := StartCalled(w.radio, w.channel, Worked, a.rxStartUs);
      var t := Note(s.(running := s.running.Set(w.radio, true), clock := a.rxStartUs), e);
      var m := WindowStarted(o.windowId, o.generation, w.radio, w.channel, a.rxStartUs / US_PER_MS, w.plannedMs);
      NoteKeepsBooks(t.(open := Some(o.(started := true, rxStartUs := a.rxStartUs))), Sent(m), b);
    case Failed(fault) =>
      NoteKeepsBooks(s, StartCalled(w.radio, w.channel, a.start, s.clock), b);
      var t := Note(s.(running := s.running.Set(w.radio, true)), StartCalled(w.radio, w.channel, a.start, s.clock));
      var c := b.(failed := true);
      FaultsKeepBooks(t, w.radio, fault, c);
      StopKeepsBooks(NoteFault(t, w.radio, fault), w.radio, a.stopSelf, a.selfUs, c);
  }

  lemma RunKeepsBooks(s: Runner, a: OpenAnswers)
    requires ReportInv(s) && MayOpen(s, a)
    ensures ReportInv(RunWindow(s, a))
  {
    hide NextWindow, DeadlineOf, StartReceiver, StopOrStick;
    var (t, o) := Plan(s, a);
    var b := BooksOf(t.history);
    assert Kept(t, b) && DropsConserved(b, t.carried) && !b.failed && !b.owing;
    hide BooksOf, InOrder;
    StopKeepsBooks(t, Other(o.window.radio), a.stopOther, a.otherUs, b);
    var u := StopOtherFirst(t, o.window.radio, a);
    if u.stuck.None? { StartKeepsBooks(u, o, a, b); }
  }

  lemma CountKeepsBooks(s: Runner, r: WindowReport, b: Books)
    requires Kept(s, b) && !b.owing
    ensures
      var t := CountClean(s, r);
      Kept(t, b) && t.carried == s.carried && t.windowId == s.windowId && t.sched == s.sched
  {
    hide BooksOf, InOrder;
    FaultsKeepBooks(s.(clean := s.clean.Set(r.window.radio, Inc32(s.clean.Get(r.window.radio)))),
                    r.window.radio, Fault(StopOp, 0), b);
  }

  lemma EndKeepsBooks(s: Runner, o: OpenWindow, a: CloseAnswers, b: Books)
    requires Kept(s, b) && !b.owing && b.failed == o.faulted
    ensures
      var t := TakeDrops(StopAtEnd(s, o, a), o, a);
      && Kept(t, b.(taken := b.taken + a.drops + a.unattributed, failed := Faulted(o, a))) && t.carried == 0
      && t.windowId == s.windowId && t.sched == s.sched
  {
    var t := s.(clock := a.rxEndUs);
    NoteKeepsBooks(t, Received(MeasuredBegin(o), MeasuredEnd(o, a)), b);
    var u := if MeasuredEnd(o, a) > MeasuredBegin(o) then Note(t, Received(MeasuredBegin(o), MeasuredEnd(o, a))) else t;
    StopKeepsBooks(u, o.window.radio, a.stop, a.stopUs, b);
    hide BooksOf, InOrder;
    var v, c := StopAtEnd(s, o, a), b.(failed := Faulted(o, a));
    assert Kept(v, c);
    hide StopAtEnd, StopOrStick;
    TakeKeepsBooks(v, o, a, c);
  }

  lemma TakeKeepsBooks(s: Runner, o: OpenWindow, a: CloseAnswers, b: Books)
    requires Kept(s, b) && !b.owing
    ensures Kept(TakeDrops(s, o, a), b.(taken := b.taken + a.drops + a.unattributed))
  {
    hide BooksOf, InOrder;
    var t := s.(carried := 0, clock := a.doneUs);
    NoteKeepsBooks(t, Took(a.drops, a.doneUs), b);
    NoteKeepsBooks(Note(t, Took(a.drops, a.doneUs)), Took(a.unattributed, a.doneUs), b.(taken := b.taken + a.drops));
  }

  /** What the report carries is what was taken for it and what was carried, up to the 32-bit limit. */
  lemma ReportBalances(b: Books, carried: U32, drops: U32, unattributed: U32, r: WindowReport)
    requires DropsConserved(b, carried)
    requires r.droppedEvents == SaturatingAdd32(SaturatingAdd32(drops, unattributed), carried)
    ensures DropsConserved(Entered(b.(taken := b.taken + drops + unattributed), Sent(WindowReported(r))), 0)
  {
  }

  lemma ReportKeepsBooks(s: Runner, pending: Option<ControlRequest>, a: CloseAnswers)
    requires ReportInv(s) && s.open.Some?
    ensures
      var o := s.open.value;
      var t := ReportWindow(s, o, pending, a);
      var d := BooksOf(t.history);
      && Kept(t, d) && DropsConserved(d, 0) && d.outstanding.None? && d.lastId == s.windowId
      && (d.owing ==> pending.Some? && !o.faulted) && t.carried == 0 && t.windowId == s.windowId && t.sched == s.sched
  {
    var o, b := s.open.value, BooksOf(s.history);
    var report := ReportOf(s, o, pending, a);
    var c := b.(taken := b.taken + a.drops + a.unattributed, failed := Faulted(o, a));
    EndKeepsBooks(s, o, a, b);
    var t := TakeDrops(StopAtEnd(s, o, a), o, a);
    hide StopAtEnd, TakeDrops, CountClean;
    CountKeepsBooks(t, report, c);
    ReportBalances(b, s.carried, a.drops, a.unattributed, report);
    NoteKeepsBooks(CountClean(t, report), Sent(WindowReported(report)), c);
    hide BooksOf, InOrder;
  }

  lemma FinishKeepsBooks(s: Runner, pending: Option<ControlRequest>, a: CloseAnswers)
    requires ReportInv(s) && MayClose(s, pending, a)
    ensures ReportInv(FinishWindow(s, pending, a))
  {
    hide BooksOf, InOrder, ReportWindow, ApplyControl;
    var o := s.open.value;
    ReportKeepsBooks(s, pending, a);
    var t := ReportWindow(s, o, pending, a);
    var d := BooksOf(t.history);
    var v := Scheduled(t, o, a).(open := None);
    assert Kept(v, d);
    if pending.Some? { ApplyKeepsBooks(v, pending.value, d); }
  }

  lemma RetryKeepsBooks(s: Runner, a: RetryAnswers)
    requires ReportInv(s) && MayRetry(s, a)
    ensures ReportInv(RetryStop(s, a))
  {
    match a.stop
    case Failed(_) => FailedRetryKeepsBooks(s, a);
    case Worked => StoppedKeepsBooks(s, a);
  }

  lemma FailedRetryKeepsBooks(s: Runner, a: RetryAnswers)
    requires ReportInv(s) && MayRetry(s, a) && a.stop.Failed?
    ensures ReportInv(RetryStop(s, a))
  {
    var e := StopCalled(s.stuck.value, a.readyUs, a.stop, a.stopUs);
    NoteKeepsBooks(s, e, BooksOf(s.history));
    hide BooksOf, InOrder;
  }

  lemma StoppedKeepsBooks(s: Runner, a: RetryAnswers)
    requires ReportInv(s) && MayRetry(s, a) && a.stop.Worked?
    ensures ReportInv(RetryStop(s, a))
  {
    var radio, b := s.stuck.value, BooksOf(s.history);
    NoteKeepsBooks(s, StopCalled(radio, a.readyUs, Worked, 0), b);
    var t := Note(s.(running := s.running.Set(radio, false), stuck := None, clock := a.readyUs),
                  StopCalled(radio, a.readyUs, Worked, 0));
    var u := Note(t.(carried := SaturatingAdd32(s.carried, a.unattributed), nextStart := None),
                  Took(a.unattributed, a.readyUs));
    var c := b.(taken := b.taken + a.unattributed);
    assert Kept(u, c) && DropsConserved(c, u.carried);
    hide BooksOf, InOrder;
    FaultsKeepBooks(u, radio, Fault(StopOp, 0), c);
  }

  lemma BooksBalance(s: Runner, a: Action)
    requires ReportInv(s) && Legal(s, a)
    ensures ReportInv(Next(s, a))
  {
    var b := BooksOf(s.history);
    match a
    case Announces =>
      NoteKeepsBooks(s, Sent(ConfigApplied(ToConfigApplied(Inc32(s.generation), s.sched.config))), b);
      hide BooksOf, InOrder;
    case Applies(request) => hide BooksOf, InOrder, ApplyControl; ApplyKeepsBooks(s, request, b);
    case Rests =>
    case Opens(o) => hide BooksOf, InOrder, RunWindow; RunKeepsBooks(s, o);
    case Closes(pending, c) => hide BooksOf, InOrder, FinishWindow; FinishKeepsBooks(s, pending, c);
    case Retries(r) => hide BooksOf, InOrder, RetryStop; RetryKeepsBooks(s, r);
  }

  // ---- what the order means for the ids ----

  /** Window `k` has id `k` (modulo 2^32), and all but the open one have been reported. */
  lemma {:induction false} IdsCount(h: History)
    requires InOrder(h)
    ensures
      var b := BooksOf(h);
      b.lastId == b.openedCount % 0x1_0000_0000 && b.closedCount == b.openedCount - if b.outstanding.Some? then 1 else 0
  {
    if h.Then? {
      IdsCount(h.before);
      if h.last.Opened? { NextId(BooksOf(h.before).openedCount); }
    }
  }

  lemma NextId(n: nat)
    ensures (n + 1) % 0x1_0000_0000 == Inc32(n % 0x1_0000_0000)
  {
  }
}
