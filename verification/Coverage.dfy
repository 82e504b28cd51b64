/** The observation schedule and the accounting of what was observed. */
module Coverage {
  import opened Basics

  datatype Radio = WifiRadio | BleRadio

  function Other(r: Radio): Radio { if r == WifiRadio then BleRadio else WifiRadio }

  const DEFAULT_WIFI_DWELL_MS: U32 := 205
  const DEFAULT_BLE_WINDOW_MS: U32 := 205
  const DEFAULT_CHANNELS: seq<U8> := [1, 2, 3, 4, 5, 6, 7, 8, 9, 10, 11]
  const MAX_WIFI_CHANNEL := 14
  const MAX_PLAN_CHANNELS := 14
  const MAX_WINDOW_MS: U32 := 60_000

  datatype ObservationConfig = ObservationConfig(
    wifiEnabled: bool, bleEnabled: bool, channels: seq<U8>, wifiDwellMs: U32, bleWindowMs: U32)

  // ---- the configuration in force ----

  predicate ValidChannel(c: U8) { 1 <= c <= MAX_WIFI_CHANNEL }

  /** The valid channels, first occurrences only, in order. */
  function Kept(cs: seq<U8>, acc: seq<U8>): seq<U8>
    decreases |cs|
  {
    if cs == [] then acc
    else Kept(cs[1..], if ValidChannel(cs[0]) && cs[0] !in acc then acc + [cs[0]] else acc)
  }

  function NormalWindow(windowMs: U32, fallback: U32): U32 {
    if windowMs == 0 then fallback else Min(windowMs, MAX_WINDOW_MS)
  }

  function Normalize(c: ObservationConfig): ObservationConfig {
    var kept := Kept(c.channels, []);
    ObservationConfig(c.wifiEnabled, c.bleEnabled, if kept == [] then DEFAULT_CHANNELS else kept,
                      NormalWindow(c.wifiDwellMs, DEFAULT_WIFI_DWELL_MS), NormalWindow(c.bleWindowMs, DEFAULT_BLE_WINDOW_MS))
  }

  predicate Distinct(cs: seq<U8>) { forall i, j | 0 <= i < j < |cs| :: cs[i] != cs[j] }

  predicate ValidPlan(cs: seq<U8>) { cs != [] && Distinct(cs) && forall c <- cs :: ValidChannel(c) }

  /** A configuration the scheduler can run. */
  predicate Normal(c: ObservationConfig) {
    ValidPlan(c.channels) && 1 <= c.wifiDwellMs <= MAX_WINDOW_MS && 1 <= c.bleWindowMs <= MAX_WINDOW_MS
  }

  /** Exactly the valid channels are kept, each once, and nothing that was already kept moves. */
  lemma {:induction false} KeptIsExact(cs: seq<U8>, acc: seq<U8>)
    requires Distinct(acc)
    ensures Distinct(Kept(cs, acc)) && acc <= Kept(cs, acc)
    ensures forall c :: c in Kept(cs, acc) <==> c in acc || (c in cs && ValidChannel(c))
    decreases |cs|
  {
    if cs != [] {
      KeptIsExact(cs[1..], if ValidChannel(cs[0]) && cs[0] !in acc then acc + [cs[0]] else acc);
    }
  }

  /** Distinct valid channels are all kept. */
  lemma {:induction false} KeptAll(cs: seq<U8>, acc: seq<U8>)
    requires Distinct(acc + cs) && forall c <- cs :: ValidChannel(c)
    ensures Kept(cs, acc) == acc + cs
    decreases |cs|
  {
    if cs == [] {
      assert acc + cs == acc;
    } else {
      assert (acc + cs)[|acc|] == cs[0];
      assert forall i | 0 <= i < |acc| :: (acc + cs)[i] == acc[i];
      assert acc + [cs[0]] + cs[1..] == acc + cs;
      KeptAll(cs[1..], acc + [cs[0]]);
    }
  }

  /** Where a channel is first named. */
  function FirstAt(cs: seq<U8>, c: U8): (k: nat)
    requires c in cs
    ensures k < |cs| && cs[k] == c
  {
    if cs[0] == c then 0 else 1 + FirstAt(cs[1..], c)
  }

  predicate InOrderOf(cs: seq<U8>, kept: seq<U8>, from: nat) {
    forall i, j | from <= i < j < |kept| :: kept[i] in cs && kept[j] in cs && FirstAt(cs, kept[i]) < FirstAt(cs, kept[j])
  }

  /** The channels that are kept stay in the order in which they were first named. */
  lemma {:induction false} KeptInOrder(cs: seq<U8>, acc: seq<U8>)
    requires Distinct(acc)
    ensures InOrderOf(cs, Kept(cs, acc), |acc|)
    ensures forall i | |acc| <= i < |Kept(cs, acc)| :: Kept(cs, acc)[i] in cs
    decreases |cs|
  {
    KeptIsExact(cs, acc);
    var kept := Kept(cs, acc);
    if cs != [] {
      var next := if ValidChannel(cs[0]) && cs[0] !in acc then acc + [cs[0]] else acc;
      KeptIsExact(cs[1..], next);
      KeptInOrder(cs[1..], next);
      hide Kept, InOrderOf;
      forall i | |next| <= i < |kept| ensures kept[i] in cs[1..] && kept[i] != cs[0] {
        assert kept[..|next|] == next;
        assert kept[i] in kept;
        if kept[i] == cs[0] { Repeated(kept, next, i); }
      }
      NextInOrder(cs, kept, |acc|, |next|);
    }
  }

  lemma Repeated(kept: seq<U8>, next: seq<U8>, i: nat)
    requires Distinct(kept) && next <= kept && |next| <= i < |kept|
    ensures kept[i] !in next
  {
    assert forall j | 0 <= j < |next| :: next[j] == kept[j];
  }

  lemma NextInOrder(cs: seq<U8>, kept: seq<U8>, from: nat, next: nat)
    requires cs != [] && from <= next <= from + 1 && InOrderOf(cs[1..], kept, next)
    requires next == from + 1 ==> from < |kept| && kept[from] == cs[0]
    requires forall i | next <= i < |kept| :: kept[i] in cs[1..] && kept[i] != cs[0]
    ensures InOrderOf(cs, kept, from)
  {
    forall i, j | from <= i < j < |kept|
      ensures kept[i] in cs && kept[j] in cs && FirstAt(cs, kept[i]) < FirstAt(cs, kept[j])
    {
      assert FirstAt(cs, kept[j]) == 1 + FirstAt(cs[1..], kept[j]);
      if i >= next {
        assert FirstAt(cs, kept[i]) == 1 + FirstAt(cs[1..], kept[i]);
      } else {
        assert kept[i] == cs[0];
      }
    }
  }

  /** A window of no length becomes 205 ms, a window of over a minute one of a minute. */
  predicate WindowSays(givenMs: U32, ms: U32) {
    if givenMs == 0 then ms == 205 else if givenMs > 60_000 then ms == 60_000 else ms == givenMs
  }

  /** Normalising keeps what is switched on and, in the order given, the channels 1 to 14; without any, WiFi has
      channels 1 to 11. */
  lemma NormalizeSays(c: ObservationConfig)
    ensures
      var n := Normalize(c);
      && n.wifiEnabled == c.wifiEnabled && n.bleEnabled == c.bleEnabled
      && WindowSays(c.wifiDwellMs, n.wifiDwellMs) && WindowSays(c.bleWindowMs, n.bleWindowMs)
      && if exists x <- c.channels :: 1 <= x <= 14
         then InOrderOf(c.channels, n.channels, 0) && forall x :: x in n.channels <==> x in c.channels && 1 <= x <= 14
         else n.channels == [1, 2, 3, 4, 5, 6, 7, 8, 9, 10, 11]
  {
    NothingDistinct();
    KeptIsExact(c.channels, []);
    KeptInOrder(c.channels, []);
    hide InOrderOf;
    var kept := Kept(c.channels, []);
    if x :| x in c.channels && 1 <= x <= 14 { assert x in kept; }
    if kept != [] { assert kept[0] in kept; }
    hide Kept;
  }

  /** Normalising gives a runnable configuration, changes no runnable one, and so is idempotent. */
  lemma NormalizeIsNormal(c: ObservationConfig)
    ensures Normal(Normalize(c)) && (Normal(c) <==> Normalize(c) == c)
  {
    hide Kept, Distinct;
    KeptIsExact(c.channels, []) by { NothingDistinct(); }
    DefaultIsValid();
    if Normal(c) {
      assert [] + c.channels == c.channels;
      KeptAll(c.channels, []);
    }
  }

  lemma NothingDistinct()
    ensures Distinct([])
  {
  }

  lemma DefaultIsValid()
    ensures ValidPlan(DEFAULT_CHANNELS)
  {
    assert forall i | 0 <= i < |DEFAULT_CHANNELS| :: DEFAULT_CHANNELS[i] == i + 1;
  }

  function ChannelSet(cs: seq<U8>): set<U8> { set c <- cs }

  lemma {:induction false} DistinctCount(cs: seq<U8>)
    requires Distinct(cs)
    ensures |ChannelSet(cs)| == |cs|
    decreases |cs|
  {
    if cs != [] {
      DistinctCount(cs[1..]);
      assert ChannelSet(cs) == {cs[0]} + ChannelSet(cs[1..]);
      assert cs[0] !in ChannelSet(cs[1..]);
    }
  }

  lemma {:induction false} SmallSet(s: set<U8>, n: nat)
    requires forall c <- s :: 1 <= c <= n
    ensures |s| <= n
    decreases n
  {
    if n == 0 {
      assert s == {};
    } else {
      SmallSet(s - {n}, n - 1);
      assert s <= (s - {n}) + {n};
      if n in s { assert s == (s - {n}) + {n}; } else { assert s == s - {n}; }
    }
  }

  /** A plan fits the fixed-size control and configuration messages. */
  lemma PlanFits(cs: seq<U8>)
    requires ValidPlan(cs)
    ensures 1 <= |cs| <= MAX_PLAN_CHANNELS
  {
    DistinctCount(cs);
    SmallSet(ChannelSet(cs), MAX_WIFI_CHANNEL);
  }

  method NormalizeConfig(c: ObservationConfig) returns (r: ObservationConfig)
    ensures r == Normalize(c)
  {
    var channels: seq<U8> := [];
    for i := 0 to |c.channels|
      invariant Kept(c.channels[i..], channels) == Kept(c.channels, [])
    {
      assert c.channels[i..][0] == c.channels[i] && c.channels[i..][1..] == c.channels[i + 1..];
      if c.channels[i] < 1 || c.channels[i] > MAX_WIFI_CHANNEL { continue; }
      if c.channels[i] !in channels { channels := channels + [c.channels[i]]; }
    }
    r := c.(channels := if channels == [] then DEFAULT_CHANNELS else channels,
            wifiDwellMs := NormalWindow(c.wifiDwellMs, DEFAULT_WIFI_DWELL_MS),
            bleWindowMs := NormalWindow(c.bleWindowMs, DEFAULT_BLE_WINDOW_MS));
  }

  // ---- the scheduler ----

  datatype Window = Window(radio: Radio, channel: U8, startMs: U64, plannedMs: U32)

  datatype Scheduler = Scheduler(config: ObservationConfig, nextChannel: nat, nextRadio: Radio)
  {
    predicate Valid() { Normal(config) && nextChannel < |config.channels| && Enabled(nextRadio) }

    /** The next radio may be disabled only when both are. */
    predicate Enabled(r: Radio) {
      if r == WifiRadio then config.wifiEnabled else config.bleEnabled || !config.wifiEnabled
    }

    predicate Idle() { !config.wifiEnabled && !config.bleEnabled }
  }

  predicate KeepsPlace(s: Scheduler, next: ObservationConfig) {
    s.config.wifiEnabled && next.wifiEnabled && s.config.channels == next.channels
  }

  function Configure(s: Scheduler, given: ObservationConfig): (t: Scheduler)
    requires s.config.channels == [] || s.nextChannel < |s.config.channels|
    ensures t.Valid() && t.config == Normalize(given)
  {
    var next := Normalize(given);
    NormalizeIsNormal(given);
    Scheduler(next, if KeepsPlace(s, next) then s.nextChannel else 0, if next.wifiEnabled then WifiRadio else BleRadio)
  }

  /** A change puts WiFi first; it starts its plan over, unless WiFi was on and stays on with the same plan. */
  lemma ChangeStartsOver(s: Scheduler, given: ObservationConfig, startMs: U64)
    requires s.Valid()
    ensures
      var t := Configure(s, given);
      && (t.config.wifiEnabled ==> !t.Idle() && NextWindow(t, startMs).0.radio == WifiRadio)
      && (t.config.wifiEnabled ==>
            NextWindow(t, startMs).0.channel
            == if s.config.wifiEnabled && s.config.channels == t.config.channels then s.config.channels[s.nextChannel]
               else t.config.channels[0])
      && (!t.config.wifiEnabled && t.config.bleEnabled ==>
            !t.Idle() && NextWindow(t, startMs).0.radio == BleRadio && t.nextChannel == 0)
  {
    hide Normalize;
  }

  const DEFAULT_CONFIG := ObservationConfig(true, true, [], DEFAULT_WIFI_DWELL_MS, DEFAULT_BLE_WINDOW_MS)

  /** A scheduler made for a configuration. The members' defaults hold an empty plan, so no place is kept. */
  function NewScheduler(given: ObservationConfig): (t: Scheduler)
    ensures t.Valid() && t.config == Normalize(given) && t.nextChannel == 0
  {
    NormalizeIsNormal(given);
    Scheduler(Normalize(given), 0, if given.wifiEnabled then WifiRadio else BleRadio)
  }

  /** The next place in a plan of `n` channels. */
  function Succ(p: nat, n: nat): nat { if p + 1 == n then 0 else p + 1 }

  lemma SuccIsModulo(p: nat, n: nat)
    requires p < n
    ensures (p + 1) % n == Succ(p, n)
  {
    if p + 1 == n { assert n % n == 0; }
  }

  function NextWindow(s: Scheduler, startMs: U64): (r: (Window, Scheduler))
    requires s.Valid() && !s.Idle()
    ensures r.1.Valid() && r.1.config == s.config && r.0.radio == s.nextRadio && r.0.startMs == startMs
    ensures 1 <= r.0.plannedMs <= MAX_WINDOW_MS
  {
    if s.nextRadio == WifiRadio then
      (Window(WifiRadio, s.config.channels[s.nextChannel], startMs, s.config.wifiDwellMs),
       s.(nextChannel := Succ(s.nextChannel, |s.config.channels|),
          nextRadio := if s.config.bleEnabled then BleRadio else WifiRadio))
    else
      (Window(BleRadio, 0, startMs, s.config.bleWindowMs),
       s.(nextRadio := if s.config.wifiEnabled then WifiRadio else BleRadio))
  }

  function WifiRevisitMs(c: ObservationConfig): U32 {
    if !c.wifiEnabled then 0
    else Min((c.wifiDwellMs + if c.bleEnabled then c.bleWindowMs else 0)
             * (if c.channels == [] then |DEFAULT_CHANNELS| else |c.channels|), U32_MAX)
  }

  class ObservationScheduler {
    var config: ObservationConfig
    var nextChannel: nat
    var nextRadio: Radio

    ghost function Model(): Scheduler
      reads this
    {
      Scheduler(config, nextChannel, nextRadio)
    }

    constructor (given: ObservationConfig)
      ensures Model() == NewScheduler(given)
    {
      config, nextChannel, nextRadio := DEFAULT_CONFIG, 0, WifiRadio;
      new;
      NormalizeIsNormal(given);
      Reconfigure(given);
    }

    method Reconfigure(given: ObservationConfig)
      requires config.channels == [] || nextChannel < |config.channels|
      modifies this
      ensures Model() == Configure(old(Model()), given)
    {
      hide Normalize;
      var next := NormalizeConfig(given);
      var keepPlace := config.wifiEnabled && next.wifiEnabled && config.channels == next.channels;
      config := next;
      if !keepPlace { nextChannel := 0; }
      nextRadio := if config.wifiEnabled then WifiRadio else BleRadio;
    }

    method Next(startMs: U64) returns (w: Option<Window>)
      requires Model().Valid()
      modifies this
      ensures w.None? <==> old(Model()).Idle()
      ensures w.None? ==> Model() == old(Model())
      ensures w.Some? ==> (w.value, Model()) == NextWindow(old(Model()), startMs)
    {
      if !config.wifiEnabled && !config.bleEnabled { return None; }
      if nextRadio == WifiRadio {
        w := Some(Window(WifiRadio, config.channels[nextChannel], startMs, config.wifiDwellMs));
        SuccIsModulo(nextChannel, |config.channels|);
        nextChannel := (nextChannel + 1) % |config.channels|;
        if config.bleEnabled { nextRadio := BleRadio; }
      } else {
        w := Some(Window(BleRadio, 0, startMs, config.bleWindowMs));
        if config.wifiEnabled { nextRadio := WifiRadio; }
      }
    }
  }

  // ---- whole walks of the scheduler ----

  /** The windows of `n` calls, and the scheduler after them. */
  function Walk(s: Scheduler, starts: seq<U64>): (r: (seq<Window>, Scheduler))
    requires s.Valid() && !s.Idle()
    ensures r.1.Valid() && r.1.config == s.config && |r.0| == |starts|
    decreases |starts|
  {
    if starts == [] then ([], s)
    else
      var (w, t) := NextWindow(s, starts[0]);
      var (ws, u) := Walk(t, starts[1..]);
      ([w] + ws, u)
  }

  /** The place `k` channels after `p` in a plan of `n`. */
  function Place(p: nat, k: nat, n: nat): nat
    decreases k
  {
    if k == 0 then p else Place(Succ(p, n), k - 1, n)
  }

  lemma {:induction false} PlaceWithinCycle(p: nat, k: nat, n: nat)
    requires p < n && k <= n
    ensures Place(p, k, n) == if p + k < n then p + k else p + k - n
    decreases k
  {
    if k > 0 { PlaceWithinCycle(Succ(p, n), k - 1, n); }
  }

  /** With both radios on, window `i` of any walk is on the next radio in turn, and a WiFi window is on the
      next channel in turn. */
  lemma {:induction false} WalkAlternates(s: Scheduler, starts: seq<U64>, i: nat)
    requires s.Valid() && s.config.wifiEnabled && s.config.bleEnabled && i < |starts|
    ensures
      var w := Walk(s, starts).0[i];
      && w.startMs == starts[i]
      && w.radio == (if i % 2 == 0 then s.nextRadio else Other(s.nextRadio))
      && (w.radio == WifiRadio ==> w.plannedMs == s.config.wifiDwellMs
                                   && WifiChannelAt(s, i / 2) == Some(w.channel))
      && (w.radio == BleRadio ==> w.channel == 0 && w.plannedMs == s.config.bleWindowMs)
    decreases |starts|
  {
    if i > 0 {
      var t := NextWindow(s, starts[0]).1;
      WalkAlternates(t, starts[1..], i - 1);
      assert i % 2 == 0 ==> (i - 1) / 2 == i / 2 - 1;
      assert i % 2 == 1 ==> (i - 1) / 2 == i / 2;
    }
  }

  function WifiChannelAt(s: Scheduler, k: nat): Option<U8> {
    var p := Place(s.nextChannel, k, |s.config.channels|);
    if p < |s.config.channels| then Some(s.config.channels[p]) else None
  }

  function TotalPlanned(ws: seq<Window>): nat {
    if ws == [] then 0 else ws[0].plannedMs + TotalPlanned(ws[1..])
  }

  lemma {:induction false} WalkTotal(s: Scheduler, starts: seq<U64>, k: nat)
    requires s.Valid() && s.config.wifiEnabled && s.config.bleEnabled && |starts| == 2 * k
    ensures TotalPlanned(Walk(s, starts).0) == k * (s.config.wifiDwellMs + s.config.bleWindowMs)
    ensures Walk(s, starts).1 == s.(nextChannel := Place(s.nextChannel, k, |s.config.channels|))
    decreases k
  {
    if k > 0 {
      var (v, t) := NextWindow(s, starts[0]);
      var (w, u) := NextWindow(t, starts[1]);
      assert starts[1..][0] == starts[1] && starts[1..][1..] == starts[2..];
      var rest := Walk(u, starts[2..]);
      assert Walk(t, starts[1..]).0 == [w] + rest.0 && Walk(s, starts).0 == [v] + ([w] + rest.0);
      assert ([w] + rest.0)[1..] == rest.0 && ([v] + ([w] + rest.0))[1..] == [w] + rest.0;
      WalkTotal(u, starts[2..], k - 1);
      assert u == s.(nextChannel := Succ(s.nextChannel, |s.config.channels|));
      assert k * (s.config.wifiDwellMs + s.config.bleWindowMs)
          == (s.config.wifiDwellMs + s.config.bleWindowMs) + (k - 1) * (s.config.wifiDwellMs + s.config.bleWindowMs);
    }
  }

  predicate Alternates(ws: seq<Window>) { forall i | 0 <= i < |ws| - 1 :: ws[i + 1].radio == Other(ws[i].radio) }

  predicate Visits(ws: seq<Window>, c: U8) { exists i | 0 <= i < |ws| :: ws[i].radio == WifiRadio && ws[i].channel == c }

  predicate NoneVisitedTwice(ws: seq<Window>) {
    forall i, j | 0 <= i < j < |ws| && ws[i].radio == WifiRadio && ws[j].radio == WifiRadio :: ws[i].channel != ws[j].channel
  }

  /** One full cycle of a plan of `n` channels, 2n windows: the radios alternate, every channel has its
      window exactly once, the scheduler is back where it was, and the time planned is the revisit time. */
  lemma FullCycle(s: Scheduler, starts: seq<U64>)
    requires s.Valid() && s.config.wifiEnabled && s.config.bleEnabled && |starts| == 2 * |s.config.channels|
    ensures Walk(s, starts).1 == s
    ensures TotalPlanned(Walk(s, starts).0) == WifiRevisitMs(s.config) < U32_MAX
    ensures var ws := Walk(s, starts).0;
            Alternates(ws) && NoneVisitedTwice(ws) && forall c <- s.config.channels :: Visits(ws, c)
  {
    hide Walk, TotalPlanned;
    CycleReturns(s, starts);
    var ws := Walk(s, starts).0;
    forall i | 0 <= i < |starts| - 1 ensures ws[i + 1].radio == Other(ws[i].radio) {
      WalkAlternates(s, starts, i);
      WalkAlternates(s, starts, i + 1);
    }
    forall c | c in s.config.channels ensures Visits(ws, c) {
      var i := VisitOf(s, starts, c);
    }
    forall i, j | 0 <= i < j < |starts| && ws[i].radio == WifiRadio && ws[j].radio == WifiRadio
      ensures ws[i].channel != ws[j].channel
    {
      VisitsDiffer(s, starts, i, j);
    }
  }

  lemma CycleReturns(s: Scheduler, starts: seq<U64>)
    requires s.Valid() && s.config.wifiEnabled && s.config.bleEnabled && |starts| == 2 * |s.config.channels|
    ensures Walk(s, starts).1 == s
    ensures TotalPlanned(Walk(s, starts).0) == WifiRevisitMs(s.config) < U32_MAX
  {
    hide Walk, TotalPlanned;
    var n, m := |s.config.channels|, s.config.wifiDwellMs + s.config.bleWindowMs;
    PlanFits(s.config.channels);
    WalkTotal(s, starts, n);
    PlaceWithinCycle(s.nextChannel, n, n);
    ProductBound(n, m);
    assert n * m == m * n;
  }

  lemma ProductBound(n: nat, m: nat)
    requires n <= 14 && m <= 120_000
    ensures n * m <= 14 * 120_000
  {
    assert n * m <= 14 * m;
  }

  lemma VisitOf(s: Scheduler, starts: seq<U64>, c: U8) returns (i: nat)
    requires s.Valid() && s.config.wifiEnabled && s.config.bleEnabled && |starts| == 2 * |s.config.channels|
    requires c in s.config.channels
    ensures i < |starts| && Walk(s, starts).0[i].radio == WifiRadio && Walk(s, starts).0[i].channel == c
  {
    var n := |s.config.channels|;
    var p: nat :| p < n && s.config.channels[p] == c;
    var k := if p >= s.nextChannel then p - s.nextChannel else p + n - s.nextChannel;
    PlaceWithinCycle(s.nextChannel, k, n);
    i := if s.nextRadio == WifiRadio then 2 * k else 2 * k + 1;
    WalkAlternates(s, starts, i);
  }

  lemma VisitsDiffer(s: Scheduler, starts: seq<U64>, i: nat, j: nat)
    requires s.Valid() && s.config.wifiEnabled && s.config.bleEnabled && |starts| == 2 * |s.config.channels|
    requires i < j < |starts| && Walk(s, starts).0[i].radio == WifiRadio == Walk(s, starts).0[j].radio
    ensures Walk(s, starts).0[i].channel != Walk(s, starts).0[j].channel
  {
    hide Walk;
    WalkAlternates(s, starts, i);
    WalkAlternates(s, starts, j);
    var n, a, b := |s.config.channels|, i / 2, j / 2;
    assert a < b < n;
    PlaceWithinCycle(s.nextChannel, a, n);
    PlaceWithinCycle(s.nextChannel, b, n);
  }

  // ---- reconfiguring in mid-walk ----

  /** What a scheduler is asked for: a window, or a new configuration. */
  datatype Request = Ask(startMs: U64) | Change(given: ObservationConfig)

  /** Changes that leave WiFi on with the plan it has, and some radio on to ask for. */
  predicate PlanStays(c: ObservationConfig, requests: seq<Request>) {
    c.wifiEnabled && forall r <- requests | r.Change? :: r.given.wifiEnabled && Normalize(r.given).channels == c.channels
  }

  /** The channels of the WiFi windows the requests yield, in order. */
  function WifiChannels(s: Scheduler, requests: seq<Request>): seq<U8>
    requires s.Valid() && PlanStays(s.config, requests)
    decreases |requests|
  {
    if requests == [] then []
    else
      var r := requests[0];
      assert r in requests;
      if r.Change? then WifiChannels(Configure(s, r.given), requests[1..])
      else
        var (w, t) := NextWindow(s, r.startMs);
        (if w.radio == WifiRadio then [w.channel] else []) + WifiChannels(t, requests[1..])
  }

  /** However often dwell times change and BLE is switched, the WiFi windows walk the plan in cyclic order:
      none is skipped and none repeated. */
  lemma {:induction false} PlaceSurvivesChanges(s: Scheduler, requests: seq<Request>, k: nat)
    requires s.Valid() && PlanStays(s.config, requests) && k < |WifiChannels(s, requests)|
    ensures Some(WifiChannels(s, requests)[k]) == WifiChannelAt(s, k)
    decreases |requests|
  {
    var r := requests[0];
    assert r in requests;
    if r.Change? {
      PlaceSurvivesChanges(Configure(s, r.given), requests[1..], k);
    } else {
      var (w, t) := NextWindow(s, r.startMs);
      if w.radio == BleRadio {
        PlaceSurvivesChanges(t, requests[1..], k);
      } else if k > 0 {
        PlaceSurvivesChanges(t, requests[1..], k - 1);
      }
    }
  }
}
