/** What the radio task tells the app loop, and the app loop's copy of it. */
module RadioMessages {
  import opened Basics
  import opened Coverage

  datatype FaultOp =
    | InitOp | StartOp | StopOp | SetChannelOp | HciTimeoutOp | HciRejectedOp | ReportQueueOverflowOp | HardwareErrorOp

  /** The operation that failed and its code; what a fault's text is made from. */
  datatype Fault = Fault(op: FaultOp, code: I32)

  datatype WindowEnd = Completed | ConfigurationChanged | DriverFault

  datatype WindowReport = WindowReport(
    window: Window, observedMs: U32, droppedEvents: U32, windowId: U32, generation: U32,
    completedMs: U64, end: WindowEnd)

  type PlanArray = a: seq<U8> | |a| == MAX_PLAN_CHANNELS witness [0, 0, 0, 0, 0, 0, 0, 0, 0, 0, 0, 0, 0, 0]

  datatype ConfigMessage = ConfigMessage(
    generation: U32, wifiEnabled: bool, bleEnabled: bool, channelCount: U8, channels: PlanArray,
    wifiDwellMs: U32, bleWindowMs: U32)

  datatype RadioMessage =
    | WindowStarted(windowId: U32, generation: U32, radio: Radio, channel: U8, rxStartMs: U64, plannedMs: U32)
    | WindowReported(report: WindowReport)
    | FaultRaised(radio: Radio, fault: Fault)
    | FaultCleared(radio: Radio)
    | ConfigApplied(config: ConfigMessage)

  // ---- the configuration as plain data ----

  function ToConfigApplied(generation: U32, c: ObservationConfig): (m: ConfigMessage) {
    var e := Normalize(c);
    var count := Min(|e.channels|, MAX_PLAN_CHANNELS);
    ConfigMessage(generation, e.wifiEnabled, e.bleEnabled, count,
                  e.channels[..count] + seq(MAX_PLAN_CHANNELS - count, _ => 0), e.wifiDwellMs, e.bleWindowMs)
  }

  function ToObservationConfig(m: ConfigMessage): ObservationConfig {
    Normalize(ObservationConfig(m.wifiEnabled, m.bleEnabled, m.channels[..Min(m.channelCount, MAX_PLAN_CHANNELS)],
                                m.wifiDwellMs, m.bleWindowMs))
  }

  /** A configuration crosses the message queue whole, whatever it was before normalising. */
  lemma ConfigRoundTrip(generation: U32, c: ObservationConfig)
    ensures ToObservationConfig(ToConfigApplied(generation, c)) == Normalize(c)
    ensures ToConfigApplied(generation, c).generation == generation
  {
    NormalizeIsNormal(c);
    var e := Normalize(c);
    PlanFits(e.channels);
    var m := ToConfigApplied(generation, c);
    assert m.channels[..m.channelCount] == e.channels;
    NormalizeIsNormal(e);
  }

  // ---- the coverage ledger ----

  datatype Totals = Totals(
    plannedMs: U64, observedMs: U64, droppedEvents: U64, windows: U32, lastChannel: U8,
    lastReportMs: Option<U64>, lastPlannedMs: U32, lastObservedMs: U32)

  const NO_TOTALS := Totals(0, 0, 0, 0, 0, None, 0, 0)

  datatype Gap = Gap(radio: Radio, startMs: U64, durationMs: U32)

  const MAX_GAPS := 16

  datatype PerRadio<T> = PerRadio(wifi: T, ble: T)
  {
    function Get(r: Radio): T { if r == WifiRadio then wifi else ble }

    function Set(r: Radio, value: T): PerRadio<T> {
      if r == WifiRadio then this.(wifi := value) else this.(ble := value)
    }
  }

  datatype Ledger = Ledger(totals: PerRadio<Totals>, faults: PerRadio<Option<Fault>>, gaps: seq<Gap>)

  const NEW_LEDGER := Ledger(PerRadio(NO_TOTALS, NO_TOTALS), PerRadio(None, None), [])

  function Add64(a: U64, b: U64): U64 {
    if a + b <= U64_MAX then a + b else a + b - 0x1_0000_0000_0000_0000
  }

  /** Less than half the planned time was observed; exactly half is no gap. */
  predicate IsGap(observedMs: U32, plannedMs: U32) { observedMs * 2 < plannedMs }

  function Clipped(r: WindowReport): U32 { Min(r.observedMs, r.window.plannedMs) }

  function GapOf(r: WindowReport): seq<Gap> {
    if IsGap(Clipped(r), r.window.plannedMs)
    then [Gap(r.window.radio, r.window.startMs, r.window.plannedMs - Clipped(r))] else []
  }

  function Newest(gaps: seq<Gap>): seq<Gap> { if |gaps| > MAX_GAPS then gaps[|gaps| - MAX_GAPS..] else gaps }

  function AddTotals(t: Totals, r: WindowReport): Totals {
    Totals(Add64(t.plannedMs, r.window.plannedMs), Add64(t.observedMs, Clipped(r)), Add64(t.droppedEvents, r.droppedEvents),
           Inc32(t.windows), r.window.channel, Some(r.completedMs), r.window.plannedMs, Clipped(r))
  }

  function Record(l: Ledger, r: WindowReport): Ledger {
    l.(totals := l.totals.Set(r.window.radio, AddTotals(l.totals.Get(r.window.radio), r)),
       gaps := Newest(l.gaps + GapOf(r)))
  }

  function RecordAll(l: Ledger, rs: seq<WindowReport>): Ledger
    decreases |rs|
  {
    if rs == [] then l else RecordAll(Record(l, rs[0]), rs[1..])
  }

  /** What a report says was received, but no more than was planned. */
  function Seen(r: WindowReport): nat { Min(r.observedMs, r.window.plannedMs) }

  function PlannedMs(rs: seq<WindowReport>, radio: Radio): nat {
    if rs == [] then 0 else (if rs[0].window.radio == radio then rs[0].window.plannedMs else 0) + PlannedMs(rs[1..], radio)
  }

  function ObservedMs(rs: seq<WindowReport>, radio: Radio): nat {
    if rs == [] then 0 else (if rs[0].window.radio == radio then Seen(rs[0]) else 0) + ObservedMs(rs[1..], radio)
  }

  function Dropped(rs: seq<WindowReport>, radio: Radio): nat {
    if rs == [] then 0 else (if rs[0].window.radio == radio then rs[0].droppedEvents else 0) + Dropped(rs[1..], radio)
  }

  function WindowsOf(rs: seq<WindowReport>, radio: Radio): nat {
    if rs == [] then 0 else (if rs[0].window.radio == radio then 1 else 0) + WindowsOf(rs[1..], radio)
  }

  /** The last report of a radio. */
  function LastOf(rs: seq<WindowReport>, radio: Radio): Option<WindowReport> {
    if rs == [] then None
    else if LastOf(rs[1..], radio).Some? then LastOf(rs[1..], radio)
    else if rs[0].window.radio == radio then Some(rs[0]) else None
  }

  /** A Coverage Gap for each report of less than half the planned time, as long as the time that was missed. */
  function AllGaps(rs: seq<WindowReport>): seq<Gap> {
    if rs == [] then []
    else
      var w := rs[0].window;
      (if 2 * Seen(rs[0]) < w.plannedMs then [Gap(w.radio, w.startMs, w.plannedMs - Seen(rs[0]))] else [])
      + AllGaps(rs[1..])
  }

  /** The share of the planned time that was observed, as the view computes it. */
  function Permille(t: Totals): U32 {
    if t.plannedMs > 0 then Low32(Low64(t.observedMs * 1000) / t.plannedMs) else 0
  }

  /** What 64 bits, or 32, keep of a number. */
  function Low64(n: nat): U64 { n % 0x1_0000_0000_0000_0000 }

  function Low32(n: nat): U32 { n % 0x1_0000_0000 }

  /** From totals `t` these reports lead to totals `u`: sums as far as 64 bits hold them, and the number of windows as
      far as 32 bits do; beside them stands the radio's last report. */
  predicate Totalled(t: Totals, rs: seq<WindowReport>, radio: Radio, u: Totals) {
    var last := LastOf(rs, radio);
    && u.plannedMs == Low64(t.plannedMs + PlannedMs(rs, radio))
    && u.observedMs == Low64(t.observedMs + ObservedMs(rs, radio))
    && u.droppedEvents == Low64(t.droppedEvents + Dropped(rs, radio))
    && u.windows == Low32(t.windows + WindowsOf(rs, radio))
    && if last.None? then
         && u.lastChannel == t.lastChannel && u.lastReportMs == t.lastReportMs && u.lastPlannedMs == t.lastPlannedMs
         && u.lastObservedMs == t.lastObservedMs
       else
         && u.lastChannel == last.value.window.channel && u.lastReportMs == Some(last.value.completedMs)
         && u.lastPlannedMs == last.value.window.plannedMs && u.lastObservedMs == Seen(last.value)
  }

  lemma NothingTotalled(t: Totals, radio: Radio)
    ensures Totalled(t, [], radio, t)
  {
    LowOfSmall(t.plannedMs, t.windows);
    LowOfSmall(t.observedMs, t.windows);
    LowOfSmall(t.droppedEvents, t.windows);
    hide Low64, Low32;
  }

  lemma LowOfSmall(n: U64, k: U32)
    ensures Low64(n) == n && Low32(k) == k
  {
  }

  lemma OneTotalled(t: Totals, rs: seq<WindowReport>, radio: Radio, u: Totals)
    requires rs != [] && rs[0].window.radio == radio && Totalled(AddTotals(t, rs[0]), rs[1..], radio, u)
    ensures Totalled(t, rs, radio, u)
  {
    var (r, more) := (rs[0], rs[1..]);
    hide Low64, Low32, Add64, Inc32;
    WrapsOn(t.plannedMs, r.window.plannedMs, PlannedMs(more, radio));
    WrapsOn(t.observedMs, Clipped(r), ObservedMs(more, radio));
    WrapsOn(t.droppedEvents, r.droppedEvents, Dropped(more, radio));
    CountsOn(t.windows, WindowsOf(more, radio));
    assert PlannedMs(rs, radio) == r.window.plannedMs + PlannedMs(more, radio);
    assert ObservedMs(rs, radio) == Seen(r) + ObservedMs(more, radio);
    assert Dropped(rs, radio) == r.droppedEvents + Dropped(more, radio);
    assert WindowsOf(rs, radio) == 1 + WindowsOf(more, radio);
    hide PlannedMs, ObservedMs, Dropped, WindowsOf;
  }

  lemma OtherTotalled(t: Totals, rs: seq<WindowReport>, radio: Radio, u: Totals)
    requires rs != [] && rs[0].window.radio != radio && Totalled(t, rs[1..], radio, u)
    ensures Totalled(t, rs, radio, u)
  {
    hide Low64, Low32;
  }

  lemma RecordedTotals(l: Ledger, r: WindowReport, radio: Radio)
    ensures Record(l, r).totals.Get(radio)
            == if r.window.radio == radio then AddTotals(l.totals.Get(radio), r) else l.totals.Get(radio)
  {
    hide AddTotals, Newest;
  }

  /** The ledger's totals of a radio are those of its reports. */
  lemma {:induction false} TotalsAreSums(l: Ledger, rs: seq<WindowReport>, radio: Radio)
    ensures Totalled(l.totals.Get(radio), rs, radio, RecordAll(l, rs).totals.Get(radio))
    decreases |rs|
  {
    hide Totalled, Record;
    if rs == [] {
      NothingTotalled(l.totals.Get(radio), radio);
    } else {
      var (t, k) := (l.totals.Get(radio), Record(l, rs[0]));
      TotalsAreSums(k, rs[1..], radio);
      RecordedTotals(l, rs[0], radio);
      var u := RecordAll(k, rs[1..]).totals.Get(radio);
      if rs[0].window.radio == radio { OneTotalled(t, rs, radio, u); } else { OtherTotalled(t, rs, radio, u); }
    }
  }

  lemma WrapsOn(t: U64, x: U64, rest: nat)
    ensures Low64(Add64(t, x) + rest) == Low64(t + (x + rest)) && Low64(t) == t
  {
    var n := t + x + rest;
    if t + x > U64_MAX { assert Add64(t, x) + rest == n - 0x1_0000_0000_0000_0000; LowerByOne(n); }
  }

  lemma LowerByOne(n: nat)
    requires n >= 0x1_0000_0000_0000_0000
    ensures Low64(n - 0x1_0000_0000_0000_0000) == Low64(n)
  {
  }

  lemma CountsOn(t: U32, rest: nat)
    ensures Low32(Inc32(t) + rest) == Low32(t + (1 + rest)) && Low32(t) == t
  {
    if t == U32_MAX { assert (rest + 0x1_0000_0000) % 0x1_0000_0000 == rest % 0x1_0000_0000; }
  }

  lemma {:induction false} ObservedAtMostPlanned(rs: seq<WindowReport>, radio: Radio)
    ensures ObservedMs(rs, radio) <= PlannedMs(rs, radio)
    decreases |rs|
  {
    if rs != [] { ObservedAtMostPlanned(rs[1..], radio); }
  }

  /** While a thousand times the time planned fits 64 bits, the sums are exact. */
  lemma SumsFit(rs: seq<WindowReport>, radio: Radio)
    requires PlannedMs(rs, radio) * 1000 <= U64_MAX
    ensures
      var t := RecordAll(NEW_LEDGER, rs).totals.Get(radio);
      t.plannedMs == PlannedMs(rs, radio) && t.observedMs == ObservedMs(rs, radio) && t.observedMs <= t.plannedMs
  {
    hide RecordAll, PlannedMs, ObservedMs, Dropped, WindowsOf, LastOf, Low64, Low32;
    TotalsAreSums(NEW_LEDGER, rs, radio);
    ObservedAtMostPlanned(rs, radio);
    LowOfSmall(PlannedMs(rs, radio), 0);
    LowOfSmall(ObservedMs(rs, radio), 0);
    assert NEW_LEDGER.totals.Get(radio) == NO_TOTALS;
  }

  /** Whatever is reported, the observed share never reads above 1000 per mille, and it is the true share
      rounded down. */
  lemma PermilleIsShare(rs: seq<WindowReport>, radio: Radio)
    requires PlannedMs(rs, radio) * 1000 <= U64_MAX
    ensures
      var p := Permille(RecordAll(NEW_LEDGER, rs).totals.Get(radio));
      p <= 1000 && (PlannedMs(rs, radio) > 0 ==> IsShare(p, ObservedMs(rs, radio), PlannedMs(rs, radio)))
  {
    hide RecordAll, PlannedMs, ObservedMs, Permille, IsShare;
    SumsFit(rs, radio);
    PermilleValue(RecordAll(NEW_LEDGER, rs).totals.Get(radio));
  }

  /** `p` thousandths of `planned` is `observed`, rounded down. */
  predicate IsShare(p: nat, observed: nat, planned: nat) {
    p * planned <= 1000 * observed < (p + 1) * planned
  }

  lemma PermilleValue(t: Totals)
    requires t.observedMs <= t.plannedMs && t.plannedMs * 1000 <= U64_MAX
    ensures Permille(t) <= 1000 && (t.plannedMs > 0 ==> IsShare(Permille(t), t.observedMs, t.plannedMs))
  {
    if t.plannedMs > 0 {
      var n, d := t.observedMs * 1000, t.plannedMs;
      var q := n / d;
      ShareBounds(n, d);
      assert Low64(n) == n && Low32(q) == q;
      hide Low64, Low32;
      assert Permille(t) == q;
    }
  }

  lemma ShareBounds(n: nat, d: nat)
    requires d > 0 && n <= 1000 * d
    ensures n / d <= 1000 && (n / d) * d <= n < (n / d + 1) * d
  {
    var q := n / d;
    assert n == q * d + n % d;
    assert (1001 - q) * d > 0;
    PositiveFactor(1001 - q, d);
  }

  lemma PositiveFactor(x: int, d: nat)
    requires x * d > 0
    ensures x > 0
  {
  }

  /** The ledger shows the newest sixteen of all the gaps there were, oldest first. */
  lemma {:induction false} GapsAreNewest(l: Ledger, rs: seq<WindowReport>)
    requires |l.gaps| <= MAX_GAPS
    ensures RecordAll(l, rs).gaps == Newest(l.gaps + AllGaps(rs))
    decreases |rs|
  {
    hide AddTotals, Newest;
    if rs == [] {
      assert l.gaps + AllGaps(rs) == l.gaps;
      NewestIsShort(l.gaps);
    } else {
      var k := Record(l, rs[0]);
      NewestIsShort(l.gaps + GapOf(rs[0]));
      GapsAreNewest(k, rs[1..]);
      NewestJoins(l.gaps, GapOf(rs[0]), AllGaps(rs[1..]));
    }
  }

  lemma Joined(a: seq<Gap>, b: seq<Gap>, c: seq<Gap>)
    ensures a + (b + c) == a + b + c
  {
  }

  lemma NewestJoins(a: seq<Gap>, b: seq<Gap>, c: seq<Gap>)
    ensures Newest(Newest(a + b) + c) == Newest(a + (b + c))
  {
    Joined(a, b, c);
    NewestTwice(a + b, c);
    hide Newest;
  }

  lemma NewestIsShort(a: seq<Gap>)
    ensures |Newest(a)| <= MAX_GAPS && (|a| <= MAX_GAPS ==> Newest(a) == a)
  {
  }

  lemma NewestTwice(a: seq<Gap>, b: seq<Gap>)
    ensures Newest(Newest(a) + b) == Newest(a + b)
  {
    if |a| > MAX_GAPS {
      assert (Newest(a) + b)[|Newest(a) + b| - MAX_GAPS..] == (a + b)[|a + b| - MAX_GAPS..];
    }
  }

  class CoverageLedger {
    var totals: array<Totals>
    var faults: array<Option<Fault>>
    var gaps: seq<Gap>

    ghost predicate Valid()
      reads this
    {
      totals.Length == 2 && faults.Length == 2
    }

    ghost function Model(): Ledger
      reads this, totals, faults
      requires Valid()
    {
      Ledger(PerRadio(totals[0], totals[1]), PerRadio(faults[0], faults[1]), gaps)
    }

    constructor ()
      ensures Valid() && fresh(totals) && fresh(faults) && Model() == NEW_LEDGER
    {
      totals := new Totals[2](_ => NO_TOTALS);
      faults := new Option<Fault>[2](_ => None);
      gaps := [];
    }

    static function Index(r: Radio): nat { if r == WifiRadio then 0 else 1 }

    method RecordReport(r: WindowReport)
      requires Valid() && |gaps| <= MAX_GAPS
      modifies `gaps, totals
      ensures Valid() && |gaps| <= MAX_GAPS && Model() == Record(old(Model()), r)
    {
      var i := Index(r.window.radio);
      var t := totals[i];
      var observed := Min(r.observedMs, r.window.plannedMs);
      totals[i] := t.(plannedMs := Add64(t.plannedMs, r.window.plannedMs), observedMs := Add64(t.observedMs, observed),
                      droppedEvents := Add64(t.droppedEvents, r.droppedEvents), windows := Inc32(t.windows),
                      lastChannel := r.window.channel, lastReportMs := Some(r.completedMs),
                      lastPlannedMs := r.window.plannedMs, lastObservedMs := observed);
      assert gaps + [] == gaps;
      if IsGap(observed, r.window.plannedMs) {
        gaps := gaps + [Gap(r.window.radio, r.window.startMs, r.window.plannedMs - observed)];
        if |gaps| > MAX_GAPS { gaps := gaps[1..]; }
      }
    }

    method SetFault(r: Radio, fault: Option<Fault>)
      requires Valid()
      modifies faults
      ensures Valid() && Model() == old(Model()).(faults := old(Model()).faults.Set(r, fault))
    {
      faults[Index(r)] := fault;
    }
  }

  // ---- the app loop's copy ----

  datatype ActiveWindow = ActiveWindow(radio: Radio, channel: U8, windowId: U32, rxStartMs: U64, plannedMs: U32)

  datatype Replica = Replica(
    config: ObservationConfig, generation: U32, active: Option<ActiveWindow>, ledger: Ledger, last: Option<WindowReport>)

  const NEW_REPLICA := Replica(DEFAULT_CONFIG, 0, None, NEW_LEDGER, None)

  function Pump(r: Replica, m: RadioMessage): Replica {
    match m
    case ConfigApplied(c) => r.(config := ToObservationConfig(c), generation := c.generation)
    case WindowStarted(id, _, radio, channel, rxStartMs, plannedMs) =>
      r.(active := Some(ActiveWindow(radio, channel, id, rxStartMs, plannedMs)))
    case WindowReported(report) =>
      r.(ledger := Record(r.ledger, report), last := Some(report),
         active := if r.active.Some? && r.active.value.windowId == report.windowId then None else r.active)
    case FaultRaised(radio, fault) => r.(ledger := r.ledger.(faults := r.ledger.faults.Set(radio, Some(fault))))
    case FaultCleared(radio) => r.(ledger := r.ledger.(faults := r.ledger.faults.Set(radio, None)))
  }

  function PumpAll(r: Replica, ms: seq<RadioMessage>): Replica
    decreases |ms|
  {
    if ms == [] then r else PumpAll(Pump(r, ms[0]), ms[1..])
  }

  const MAX_MESSAGES_PER_PUMP := 32

  /** The app loop's radio state and the queue it reads. */
  class RadioMonitor {
    var queue: seq<RadioMessage>
    var config: ObservationConfig
    var generation: U32
    var active: Option<ActiveWindow>
    var last: Option<WindowReport>
    const ledger: CoverageLedger

    ghost predicate Valid()
      reads this, ledger
    {
      ledger.Valid() && |ledger.gaps| <= MAX_GAPS
    }

    ghost function Model(): Replica
      reads this, ledger, ledger.totals, ledger.faults
      requires Valid()
    {
      Replica(config, generation, active, ledger.Model(), last)
    }

    constructor ()
      ensures Valid() && Model() == NEW_REPLICA && queue == []
    {
      queue, config, generation, active, last := [], DEFAULT_CONFIG, 0, None, None;
      ledger := new CoverageLedger();
    }

    method Take(m: RadioMessage)
      requires Valid()
      modifies `config, `generation, `active, `last, ledger`gaps, ledger.totals, ledger.faults
      ensures Valid() && Model() == Pump(old(Model()), m)
    {
      hide Record, ToObservationConfig;
      match m {
        case ConfigApplied(c) =>
          config := ToObservationConfig(c);
          generation := c.generation;
        case WindowStarted(id, _, radio, channel, rxStartMs, plannedMs) =>
          active := Some(ActiveWindow(radio, channel, id, rxStartMs, plannedMs));
        case WindowReported(report) =>
          ledger.RecordReport(report);
          last := Some(report);
          if active.Some? && active.value.windowId == report.windowId { active := None; }
        case FaultRaised(radio, fault) => ledger.SetFault(radio, Some(fault));
        case FaultCleared(radio) => ledger.SetFault(radio, None);
      }
    }

    /** Takes at most 32 messages, oldest first. */
    method PumpRadio() returns (ghost taken: seq<RadioMessage>)
      requires Valid()
      modifies this, ledger`gaps, ledger.totals, ledger.faults
      ensures Valid() && old(queue) == taken + queue && |taken| == Min(|old(queue)|, MAX_MESSAGES_PER_PUMP)
      ensures Model() == PumpAll(old(Model()), taken)
    {
      hide Pump, PumpAll, CoverageLedger.Model;
      taken := [];
      ghost var start, whole := Model(), queue;
      PumpNone(start);
      var i := 0;
      while i < MAX_MESSAGES_PER_PUMP && queue != []
        invariant 0 <= i <= MAX_MESSAGES_PER_PUMP && |taken| == i
        invariant Valid() && whole == taken + queue
        invariant Model() == PumpAll(start, taken)
      {
        var m := queue[0];
        HeadMoves(taken, queue);
        queue := queue[1..];
        Take(m);
        PumpOneMore(start, taken, m);
        taken := taken + [m];
        i := i + 1;
      }
    }
  }

  lemma HeadMoves(taken: seq<RadioMessage>, queue: seq<RadioMessage>)
    requires queue != []
    ensures taken + queue == taken + [queue[0]] + queue[1..]
  {
  }

  lemma PumpNone(r: Replica)
    ensures PumpAll(r, []) == r
  {
  }

  lemma {:induction false} PumpOneMore(r: Replica, ms: seq<RadioMessage>, m: RadioMessage)
    ensures PumpAll(r, ms + [m]) == Pump(PumpAll(r, ms), m)
    decreases |ms|
  {
    hide Pump;
    if ms == [] {
      assert ms + [m] == [m] && [m][1..] == [];
    } else {
      assert (ms + [m])[1..] == ms[1..] + [m];
      PumpOneMore(Pump(r, ms[0]), ms[1..], m);
    }
  }
}
