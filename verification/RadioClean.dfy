/** What it takes for a WiFi fault to clear, and when that is a clean window on every channel of the plan. */
module RadioClean {
  import opened Basics
  import opened Coverage
  import opened RadioMessages
  import opened RadioModel

  /** The WiFi windows since the count of clean ones last started again: how many there were, which of
      them were clean, counted from nought, and the channels of those. */
  datatype Sweep = Sweep(config: Option<ObservationConfig>, clean: set<U8>, windows: nat, offsets: seq<nat>)
  {
    /** Some window was cut short by a change or measured nothing. */
    predicate Broken() { |offsets| < windows }

    /** The two clean windows lie no multiple of `n` windows apart. */
    predicate Apart(x: nat, y: nat, n: nat)
      requires n > 0 && x < y < |offsets|
    {
      (offsets[y] - offsets[x]) % n != 0
    }

    /** No two of the clean windows share a place in a plan of `n` channels. */
    predicate Spread(n: nat)
      requires n > 0
    {
      forall x, y | 0 <= x < y < |offsets| :: Apart(x, y, n)
    }

    /** The clean windows are told apart, and are in order. */
    predicate Ordered() {
      && (forall x, y | 0 <= x < y < |offsets| :: offsets[x] < offsets[y])
      && (forall x | 0 <= x < |offsets| :: offsets[x] < windows)
    }
  }

  function Restarted(w: Sweep): Sweep { w.(clean := {}, windows := 0, offsets := []) }

  function SamePlan(w: Sweep, c: ObservationConfig): bool {
    w.config.Some? && w.config.value.wifiEnabled == c.wifiEnabled && w.config.value.channels == c.channels
  }

  /** WiFi failing, a faulted WiFi window and another plan start the count again. */
  function Swept(w: Sweep, e: Event): Sweep {
    match e
    case StartCalled(WifiRadio, _, Failed(_), _) => Restarted(w)
    case StopCalled(WifiRadio, _, Failed(_), _) => Restarted(w)
    case Sent(ConfigApplied(m)) =>
      var c := ToObservationConfig(m);
      if SamePlan(w, c) then w.(config := Some(c)) else Sweep(Some(c), {}, 0, [])
    case Sent(WindowReported(r)) =>
      if r.window.radio == BleRadio then w
      else if r.end == DriverFault then Restarted(w)
      else if IsClean(r) then
        w.(clean := w.clean + {r.window.channel}, windows := w.windows + 1, offsets := w.offsets + [w.windows])
      else w.(windows := w.windows + 1)
    case _ => w
  }

  function SweepOf(h: History): Sweep {
    match h
    case Nothing => Sweep(None, {}, 0, [])
    case Then(b, e) => Swept(SweepOf(b), e)
  }

  // ---- the places behind a place in the plan ----

  function Pred(p: nat, n: nat): (q: nat)
    requires p < n
    ensures q < n && Succ(q, n) == p
  {
    if p == 0 then n - 1 else p - 1
  }

  /** The place `k` windows before `p`, going round. */
  function Back(p: nat, k: nat, n: nat): (q: nat)
    requires p < n
    ensures q < n
    decreases k
  {
    if k == 0 then p else Back(Pred(p, n), k - 1, n)
  }

  lemma BackFromNext(p: nat, k: nat, n: nat)
    requires p < n
    ensures Succ(p, n) < n && Back(Succ(p, n), k + 1, n) == Back(p, k, n)
  {
    assert Pred(Succ(p, n), n) == p;
  }

  lemma {:induction false} BackTwice(p: nat, a: nat, b: nat, n: nat)
    requires p < n
    ensures Back(p, a + b, n) == Back(Back(p, a, n), b, n)
    decreases a
  {
    if a > 0 { BackTwice(Pred(p, n), a - 1, b, n); }
  }

  lemma {:induction false} BackWithin(p: nat, k: nat, n: nat)
    requires p < n && k <= n
    ensures Back(p, k, n) == if k <= p then p - k else p + n - k
    decreases k
  {
    if k > 0 { BackWithin(Pred(p, n), k - 1, n); }
  }

  /** Going back comes round to the same place just after each multiple of the plan's length. */
  lemma {:induction false} BackComesRound(p: nat, k: nat, n: nat)
    requires p < n
    ensures Back(p, k, n) == p <==> k % n == 0
    decreases k
  {
    hide Back;
    if k < n {
      BackWithin(p, k, n);
      Remainder(k, 0, k, n);
    } else {
      BackTwice(p, n, k - n, n);
      BackWithin(p, n, n);
      OneRoundLess(k, n);
      BackComesRound(p, k - n, n);
    }
  }

  lemma OneRoundLess(k: nat, n: nat)
    requires 0 < n <= k
    ensures k % n == (k - n) % n
  {
    Remainder(k - n, k / n - 1, k % n, n);
  }

  lemma Remainder(x: nat, q: int, r: nat, n: nat)
    requires r < n && x == q * n + r
    ensures x % n == r
  {
    AtLeastOnce(x / n - q, n);
    assert (x / n - q) * n == r - x % n;
  }

  lemma AtLeastOnce(d: int, n: nat)
    ensures (d > 0 ==> d * n >= n) && (d < 0 ==> d * n + n <= 0)
  {
  }

  // ---- what the sweep has heard ----

  /** The place of the `x`-th clean window, when `p` is the place of the WiFi window to come. */
  function PlaceOf(w: Sweep, x: nat, p: nat, n: nat): (q: nat)
    requires p < n && x < |w.offsets| && w.Ordered()
    ensures q < n
  {
    Back(p, w.windows - w.offsets[x], n)
  }

  /** The channels heard clean are those at the clean windows' places. */
  predicate Heard(w: Sweep, plan: seq<U8>, p: nat)
    requires p < |plan| && w.Ordered()
  {
    && (forall x | 0 <= x < |w.offsets| :: plan[PlaceOf(w, x, p, |plan|)] in w.clean)
    && (forall c <- w.clean :: exists x | 0 <= x < |w.offsets| :: plan[PlaceOf(w, x, p, |plan|)] == c)
  }

  lemma WindowHeard(w: Sweep, r: WindowReport, plan: seq<U8>, p: nat)
    requires p < |plan| && w.Ordered() && Heard(w, plan, p)
    requires r.window.radio == WifiRadio && r.window.channel == plan[p]
    ensures
      var v := Swept(w, Sent(WindowReported(r)));
      Succ(p, |plan|) < |plan| && v.Ordered() && Heard(v, plan, Succ(p, |plan|))
  {
    var v, q := Swept(w, Sent(WindowReported(r))), Succ(p, |plan|);
    BackFromNext(p, 0, |plan|);
    if r.end != DriverFault {
      forall x | 0 <= x < |w.offsets| ensures PlaceOf(v, x, q, |plan|) == PlaceOf(w, x, p, |plan|) {
        BackFromNext(p, w.windows - w.offsets[x], |plan|);
      }
      if IsClean(r) { assert PlaceOf(v, |w.offsets|, q, |plan|) == p; }
      hide Back;
    }
  }

  /** Two clean windows share a place just when they lie a multiple of the plan's length apart. */
  lemma SamePlace(w: Sweep, x: nat, y: nat, p: nat, n: nat)
    requires p < n && w.Ordered() && x < y < |w.offsets|
    ensures PlaceOf(w, x, p, n) != PlaceOf(w, y, p, n) <==> w.Apart(x, y, n)
  {
    var late := w.windows - w.offsets[y];
    BackTwice(p, late, w.offsets[y] - w.offsets[x], n);
    BackComesRound(Back(p, late, n), w.offsets[y] - w.offsets[x], n);
  }

  // ---- as many clean windows as the plan has channels ----

  function Upto(n: nat): (r: set<nat>)
    ensures |r| == n && forall i: nat :: i in r <==> i < n
  {
    if n == 0 then {} else Upto(n - 1) + {n - 1}
  }

  function Values(s: seq<nat>): set<nat> { set i | i in s }

  lemma {:induction false} ValuesSize(s: seq<nat>)
    ensures |Values(s)| <= |s|
    ensures (forall x, y | 0 <= x < y < |s| :: s[x] != s[y]) ==> |Values(s)| == |s|
    decreases |s|
  {
    if s == [] {
      assert Values(s) == {};
    } else {
      var last, rest := |s| - 1, s[..|s| - 1];
      ValuesSize(rest);
      assert Values(s) == Values(rest) + {s[last]};
    }
  }

  lemma SameSize(a: set<nat>, b: set<nat>)
    requires a <= b && |b| <= |a|
    ensures a == b
  {
    assert |b - a| == |b| - |a|;
    assert b == a + (b - a);
  }

  lemma AllTakeRoom(s: seq<nat>, n: nat)
    requires forall i: nat | i < n :: i in s
    ensures n <= |s|
  {
    ValuesSize(s);
    assert Upto(n) <= Values(s);
    assert |Values(s) - Upto(n)| == |Values(s)| - n;
  }

  /** Without one of two equal numbers the rest still has all values. */
  lemma OneLess(s: seq<nat>, x: nat, y: nat) returns (rest: seq<nat>)
    requires x < y < |s| && s[x] == s[y]
    ensures |rest| == |s| - 1 && forall i <- s :: i in rest
  {
    rest := s[..y] + s[y + 1..];
    forall i <- s ensures i in rest {
      var z :| 0 <= z < |s| && s[z] == i;
      assert rest[if z < y then z else if z == y then x else z - 1] == i;
    }
  }

  /** `n` numbers below `n` are all of them just when no two are the same. */
  lemma AllOrTwice(s: seq<nat>, n: nat)
    requires |s| == n && forall i <- s :: i < n
    ensures (forall i: nat | i < n :: i in s) <==> (forall x, y | 0 <= x < y < n :: s[x] != s[y])
  {
    if forall x, y | 0 <= x < y < n :: s[x] != s[y] {
      ValuesSize(s);
      SameSize(Values(s), Upto(n));
      forall i: nat | i < n ensures i in s { assert i in Upto(n); }
    } else {
      var x, y :| 0 <= x < y < n && s[x] == s[y];
      var rest := OneLess(s, x, y);
      if forall i: nat | i < n :: i in s { AllTakeRoom(rest, n); }
    }
  }

  /** With as many clean windows as the plan has channels, they are on all of its channels just when no
      two lie a multiple of the plan's length apart. */
  lemma SpreadIsAll(w: Sweep, plan: seq<U8>, p: nat)
    requires p < |plan| && Distinct(plan) && w.Ordered() && Heard(w, plan, p) && |w.offsets| == |plan|
    ensures (forall c <- plan :: c in w.clean) <==> w.Spread(|plan|)
  {
    var n := |plan|;
    var places := seq(n, x requires 0 <= x < n => PlaceOf(w, x, p, n));
    AllOrTwice(places, n);
    forall x, y | 0 <= x < y < n ensures places[x] != places[y] <==> w.Apart(x, y, n) {
      SamePlace(w, x, y, p, n);
    }
    hide PlaceOf, Sweep.Apart, Heard, Sweep.Ordered;
    PlacesAreChannels(w, plan, p, places);
  }

  lemma PlacesAreChannels(w: Sweep, plan: seq<U8>, p: nat, places: seq<nat>)
    requires p < |plan| && Distinct(plan) && w.Ordered() && Heard(w, plan, p) && |w.offsets| == |plan|
    requires |places| == |plan| && forall x | 0 <= x < |plan| :: places[x] == PlaceOf(w, x, p, |plan|)
    ensures (forall c <- plan :: c in w.clean) <==> (forall i: nat | i < |plan| :: i in places)
  {
    hide PlaceOf;
    forall i: nat | i < |plan| ensures plan[i] in w.clean <==> i in places {
      if i in places {
        var x :| 0 <= x < |places| && places[x] == i;
        assert plan[PlaceOf(w, x, p, |plan|)] in w.clean;
      }
      if plan[i] in w.clean {
        var x :| 0 <= x < |w.offsets| && plan[PlaceOf(w, x, p, |plan|)] == plan[i];
        assert places[x] == i;
      }
    }
  }

  lemma UnbrokenIsSpread(w: Sweep, n: nat)
    requires n > 0 && w.Ordered() && |w.offsets| == n && !w.Broken()
    ensures w.Spread(n)
  {
    forall x, y | 0 <= x < y < n ensures w.Apart(x, y, n) {
      var d := w.offsets[y] - w.offsets[x];
      assert 0 < d < n;
      Remainder(d, 0, d, n);
    }
  }

  // ---- the invariant ----

  predicate WifiOpen(s: Runner) { s.open.Some? && s.open.value.window.radio == WifiRadio }

  /** The place of the WiFi window that is open, or else of the next one. */
  function PlaceNow(s: Runner): nat
    requires s.sched.Valid()
  {
    if WifiOpen(s) then Pred(s.sched.nextChannel, |s.sched.config.channels|) else s.sched.nextChannel
  }

  predicate Counts(s: Runner, w: Sweep, place: nat) {
    && s.sched.Valid() && place < |s.sched.config.channels|
    && (!s.sched.config.wifiEnabled || s.stuck == Some(WifiRadio) ==> s.clean.wifi == 0)
    && (s.announced ==> w.config == Some(s.sched.config))
    && (!s.announced ==> s.clean.wifi == 0 && s.open.None? && s.history == Nothing)
    && (!s.sched.config.wifiEnabled ==> w.windows == 0)
    && w.Ordered() && Heard(w, s.sched.config.channels, place)
  }

  /** While WiFi has a fault, what is counted is the clean windows of the sweep, and they are too few. */
  predicate Counted(s: Runner, w: Sweep) {
    s.fault.wifi.Some? ==> s.clean.wifi == |w.offsets| < |s.sched.config.channels|
  }

  predicate CleanInv(s: Runner) {
    && s.sched.Valid() && Counts(s, SweepOf(s.history), PlaceNow(s)) && Counted(s, SweepOf(s.history))
    && (s.open.Some? ==> s.announced && (s.stuck.Some? ==> s.open.value.faulted))
    && (WifiOpen(s) ==> s.sched.config.wifiEnabled && s.open.value.window.channel == s.sched.config.channels[PlaceNow(s)])
  }

  // ---- the small steps ----

  lemma NoteCounts(s: Runner, e: Event, w: Sweep, place: nat)
    requires SweepOf(s.history) == w && Counts(s, w, place) && s.announced
    requires !(e.Sent? && (e.message.ConfigApplied? || e.message.WindowReported?))
    ensures Counts(Note(s, e), Swept(w, e), place) && SweepOf(Note(s, e).history) == Swept(w, e)
    ensures Swept(w, e) == w || Swept(w, e).offsets == []
    ensures e.Sent? || e.Took? || e.Opened? || e.Received? ==> Swept(w, e) == w
  {
    assert Heard(Restarted(w), s.sched.config.channels, place);
    hide Heard;
  }

  lemma FaultsCount(s: Runner, radio: Radio, fault: Fault, w: Sweep, place: nat)
    requires SweepOf(s.history) == w && Counts(s, w, place) && s.announced
    ensures
      var t := NoteFault(s, radio, fault);
      SweepOf(t.history) == w && Counts(t, w, place) && t.announced && t.sched == s.sched && t.open == s.open
      && (radio == WifiRadio ==> t.clean.wifi == 0)
      && ((if radio == WifiRadio then w.offsets == [] else Counted(s, w)) ==> Counted(t, w))
    ensures
      var t := ClearFault(s, radio);
      SweepOf(t.history) == w && Counts(t, w, place) && t.announced && t.sched == s.sched && t.open == s.open
      && (radio == WifiRadio || Counted(s, w) ==> Counted(t, w))
  {
    var t := s.(clean := s.clean.Set(radio, 0));
    assert Counts(t, w, place);
    NoteCounts(t.(fault := s.fault.Set(radio, Some(fault))), Sent(FaultRaised(radio, fault)), w, place);
    NoteCounts(t.(fault := s.fault.Set(radio, None)), Sent(FaultCleared(radio)), w, place);
    hide SweepOf, Counts, Swept;
  }

  /** A stop keeps the count, or starts it again if WiFi would not stop. */
  lemma StopCounts(s: Runner, radio: Radio, result: DriverResult, nowUs: U64, place: nat)
    requires Counts(s, SweepOf(s.history), place) && Counted(s, SweepOf(s.history)) && s.announced
    ensures
      var t := StopOrStick(s, radio, result, nowUs);
      && Counts(t, SweepOf(t.history), place) && Counted(t, SweepOf(t.history))
      && t.announced && t.sched == s.sched && t.open == s.open
      && (result.Worked? || radio == BleRadio ==> SweepOf(t.history) == SweepOf(s.history))
      && (result.Failed? && radio == WifiRadio ==> t.clean.wifi == 0)
      && t.stuck == (if result.Worked? then s.stuck else Some(radio))
  {
    var w := SweepOf(s.history);
    match result
    case Worked => NoteCounts(s, StopCalled(radio, s.clock, Worked, 0), w, place);
    case Failed(fault) =>
      var at := SaturatingAdd64(nowUs, STOP_RETRY_BACKOFF_US);
      var e := StopCalled(radio, s.clock, result, nowUs);
      // The failure restarts the count in the same breath, whichever is written down first.
      var t := s.(stuck := Some(radio), stopRetryAt := at, nextStart := None, clock := nowUs,
                  clean := s.clean.Set(radio, 0));
      assert Counts(t, w, place);
      NoteCounts(t, e, w, place);
      hide Counts, Swept, SweepOf;
      FaultsCount(Note(t, e), radio, fault, Swept(w, e), place);
      NoteFaultForgets(Note(t, e), Note(s, e).(stuck := Some(radio), stopRetryAt := at, nextStart := None,
          clock := nowUs), radio, fault);
  }

  /** Noting a fault does not depend on the radio's count before it. */
  lemma NoteFaultForgets(s: Runner, t: Runner, radio: Radio, fault: Fault)
    requires s == t.(clean := t.clean.Set(radio, 0))
    ensures NoteFault(s, radio, fault) == NoteFault(t, radio, fault)
  {
  }

  // ---- the actions ----

  lemma ConfigCounts(s: Runner, next: ObservationConfig)
    requires CleanInv(s) && s.open.None? && s.announced && Normal(next)
    ensures CleanInv(EmitConfig(Reconfigured(s, next)))
  {
    NormalizeIsNormal(next);
    var t := Reconfigured(s, next);
    ConfigRoundTrip(t.generation, t.sched.config);
    hide ToConfigApplied, ToObservationConfig, Kept;
    assert t.sched.config == next;
    var w := SweepOf(s.history);
    var v := Swept(w, Sent(ConfigApplied(ToConfigApplied(t.generation, next))));
    assert SweepOf(EmitConfig(t).history) == v;
    assert Heard(v, next.channels, t.sched.nextChannel) && v.Ordered() by { ConfigHeard(s, next, w, v); }
    hide Heard;
  }

  lemma NothingHeard(v: Sweep, plan: seq<U8>, p: nat)
    requires p < |plan| && v.offsets == [] && v.clean == {}
    ensures v.Ordered() && Heard(v, plan, p)
  {
  }

  lemma HeardElsewhere(w: Sweep, v: Sweep, plan: seq<U8>, p: nat, q: nat)
    requires p < |plan| && q < |plan| && v == w.(config := v.config) && (p == q || w.offsets == [])
    requires w.Ordered() && Heard(w, plan, p)
    ensures v.Ordered() && Heard(v, plan, q)
  {
    if w.offsets == [] {
      assert w.clean == {};
    } else {
      assert forall x | 0 <= x < |w.offsets| :: PlaceOf(v, x, q, |plan|) == PlaceOf(w, x, p, |plan|);
    }
  }

  /** The place is kept while windows are counted from it. */
  lemma ConfigHeard(s: Runner, next: ObservationConfig, w: Sweep, v: Sweep)
    requires s.sched.Valid() && Normal(next) && w.config == Some(s.sched.config)
    requires w.Ordered() && Heard(w, s.sched.config.channels, s.sched.nextChannel)
    requires !s.sched.config.wifiEnabled ==> w.windows == 0
    requires v == if SamePlan(w, next) then w.(config := Some(next)) else Sweep(Some(next), {}, 0, [])
    ensures
      var t := Configure(s.sched, next);
      t.config == next && v.Ordered() && Heard(v, next.channels, t.nextChannel)
  {
    NormalizeIsNormal(next);
    assert w.windows == 0 ==> w.offsets == [] by { assert |w.offsets| > 0 ==> w.offsets[0] < w.windows; }
    hide Normalize, Normal, Heard;
    if SamePlan(w, next) {
      HeardElsewhere(w, v, next.channels, s.sched.nextChannel, Configure(s.sched, next).nextChannel);
    } else {
      assert Heard(v, next.channels, 0) by { NothingHeard(v, next.channels, 0); }
    }
  }

  lemma ClearCounts(s: Runner, radio: Radio)
    requires CleanInv(s) && s.announced
    ensures CleanInv(ClearFault(s, radio)) && ClearFault(s, radio).announced && ClearFault(s, radio).open == s.open
    ensures ClearFault(s, radio).sched == s.sched && ClearFault(s, radio).stuck == s.stuck
  {
    FaultsCount(s, radio, Fault(StopOp, 0), SweepOf(s.history), PlaceNow(s));
    hide SweepOf, Counts;
  }

  lemma ApplyCounts(s: Runner, r: ControlRequest)
    requires CleanInv(s) && s.open.None? && s.announced
    ensures CleanInv(ApplyControl(s, r))
  {
    assert s.sched.Valid();
    hide CleanInv, Configure, CleanAfter;
    if Changes(s, r) {
      var next := Merged(s.sched.config, r);
      MergedIsNormal(s.sched.config, r);
      ConfigCounts(s, next);
      var t := EmitConfig(Reconfigured(s, next));
      ClearCounts(t, WifiRadio);
      ClearCounts(ClearIfDisabled(t, WifiRadio, t.sched.config.wifiEnabled), BleRadio);
    }
  }

  lemma MergedIsNormal(c: ObservationConfig, r: ControlRequest)
    ensures Normal(Merged(c, r))
  {
    NormalizeIsNormal(ObservationConfig(
      if r.wifiEnabled.Some? then r.wifiEnabled.value else c.wifiEnabled,
      if r.bleEnabled.Some? then r.bleEnabled.value else c.bleEnabled,
      if r.hasChannels then r.channels[..Min(r.channelCount, MAX_PLAN_CHANNELS)] else c.channels,
      if r.wifiDwellMs.Some? then r.wifiDwellMs.value else c.wifiDwellMs,
      if r.bleWindowMs.Some? then r.bleWindowMs.value else c.bleWindowMs));
  }

  /** Planning a WiFi window moves the scheduler on, and the window takes the place it left. */
  lemma PlanCounts(s: Runner, a: OpenAnswers)
    requires CleanInv(s) && MayOpen(s, a)
    ensures
      var (t, o) := Plan(s, a);
      var place := if o.window.radio == WifiRadio then Pred(t.sched.nextChannel, |t.sched.config.channels|)
                   else t.sched.nextChannel;
      && t.sched.Valid() && t.announced && SweepOf(t.history) == SweepOf(s.history)
      && Counts(t, SweepOf(t.history), place) && Counted(t, SweepOf(t.history))
      && (o.window.radio == WifiRadio ==> t.sched.config.wifiEnabled && o.window.channel == t.sched.config.channels[place])
  {
    hide DeadlineOf, Heard;
  }

  lemma RunCounts(s: Runner, a: OpenAnswers)
    requires CleanInv(s) && MayOpen(s, a)
    ensures CleanInv(RunWindow(s, a))
  {
    PlanCounts(s, a);
    var (t, o) := Plan(s, a);
    var place := if o.window.radio == WifiRadio then Pred(t.sched.nextChannel,
        |t.sched.config.channels|) else t.sched.nextChannel;
    hide Plan, Counts, Counted, SweepOf, StartReceiver;
    StopCounts(t, Other(o.window.radio), a.stopOther, a.otherUs, place);
    var u := StopOtherFirst(t, o.window.radio, a);
    assert u.sched == t.sched && u.announced && Counts(u, SweepOf(u.history), place) && Counted(u, SweepOf(u.history));
    if u.stuck.None? {
      StartCounts(u, o, a, place);
    } else {
      OpenCounts(u, o.(faulted := true), place);
    }
    hide StopOtherFirst;
  }

  lemma OpenCounts(s: Runner, o: OpenWindow, place: nat)
    requires s.sched.Valid() && Counts(s, SweepOf(s.history), place) && Counted(s, SweepOf(s.history)) && s.announced
    requires place == if o.window.radio == WifiRadio then Pred(s.sched.nextChannel, |s.sched.config.channels|)
                      else s.sched.nextChannel
    requires o.window.radio == WifiRadio ==> s.sched.config.wifiEnabled && o.window.channel == s.sched.config.channels[place]
    requires s.stuck.Some? ==> o.faulted
    ensures CleanInv(s.(open := Some(o)))
  {
    hide SweepOf, Heard;
  }

  lemma StartCounts(s: Runner, o: OpenWindow, a: OpenAnswers, place: nat)
    requires s.sched.Valid() && Counts(s, SweepOf(s.history), place) && Counted(s, SweepOf(s.history)) && s.announced
    requires s.stuck.None?
    requires place == if o.window.radio == WifiRadio then Pred(s.sched.nextChannel, |s.sched.config.channels|)
                      else s.sched.nextChannel
    requires o.window.radio == WifiRadio ==> s.sched.config.wifiEnabled && o.window.channel == s.sched.config.channels[place]
    ensures CleanInv(StartReceiver(s, o, a))
  {
    var radio, w := o.window.radio, SweepOf(s.history);
    match a.start
    case Worked =>
      var t := s.(running := s.running.Set(radio, true), clock := a.rxStartUs);
      NoteCounts(t, StartCalled(radio, o.window.channel, Worked, a.rxStartUs), w, place);
      var m := WindowStarted(o.windowId, o.generation, radio, o.window.channel, a.rxStartUs / US_PER_MS, o.window.plannedMs);
      var u := Note(t, StartCalled(radio, o.window.channel, Worked, a.rxStartUs));
      NoteCounts(u, Sent(m), w, place);
      hide SweepOf, Counts, Swept;
      OpenCounts(Emit(u, m), o.(started := true, rxStartUs := a.rxStartUs), place);
    case Failed(fault) =>
      var t := s.(running := s.running.Set(radio, true));
      var t0 := t.(clean := t.clean.Set(radio, 0));
      assert Counts(t0, w, place);
      var e := StartCalled(radio, o.window.channel, a.start, s.clock);
      NoteCounts(t0, e, w, place);
      hide SweepOf, Counts, Swept;
      FaultsCount(Note(t0, e), radio, fault, Swept(w, e), place);
      NoteFaultForgets(Note(t0, e), Note(t, e), radio, fault);
      var u := NoteFault(Note(t, e), radio, fault);
      StopCounts(u, radio, a.stopSelf, a.selfUs, place);
      OpenCounts(StopOrStick(u, radio, a.stopSelf, a.selfUs), o.(faulted := true), place);
  }

  lemma EndCounts(s: Runner, a: CloseAnswers)
    requires CleanInv(s) && s.open.Some?
    ensures
      var o := s.open.value;
      var t := TakeDrops(StopAtEnd(s, o, a), o, a);
      && Counts(t, SweepOf(t.history), PlaceNow(s)) && Counted(t, SweepOf(t.history))
      && t.announced && t.sched == s.sched && t.open == s.open
      && (!Faulted(o, a) ==> SweepOf(t.history) == SweepOf(s.history) && t.stuck.None?)
  {
    var o, w, place := s.open.value, SweepOf(s.history), PlaceNow(s);
    var t := s.(clock := a.rxEndUs);
    var e := Received(MeasuredBegin(o), MeasuredEnd(o, a));
    assert Counts(t, w, place);
    NoteCounts(t, e, w, place);
    hide SweepOf, Counts, Swept, CleanInv, PlaceNow;
    var u := if MeasuredEnd(o, a) > MeasuredBegin(o) then Note(t, e) else t;
    StopCounts(u, o.window.radio, a.stop, a.stopUs, place);
    var v := StopAtEnd(s, o, a);
    hide StopOrStick;
    TakeCounts(v, o, a, place);
  }

  lemma TakeCounts(s: Runner, o: OpenWindow, a: CloseAnswers, place: nat)
    requires Counts(s, SweepOf(s.history), place) && Counted(s, SweepOf(s.history)) && s.announced
    ensures
      var t := TakeDrops(s, o, a);
      && Counts(t, SweepOf(t.history), place) && Counted(t, SweepOf(t.history))
      && t.announced && t.sched == s.sched && t.open == s.open
      && SweepOf(t.history) == SweepOf(s.history) && t.stuck == s.stuck
  {
    var w, t := SweepOf(s.history), s.(carried := 0, clock := a.doneUs);
    assert Counts(t, w, place);
    NoteCounts(t, Took(a.drops, a.doneUs), w, place);
    NoteCounts(Note(t, Took(a.drops, a.doneUs)), Took(a.unattributed, a.doneUs), w, place);
    hide SweepOf, Counts, Swept;
  }

  /** The report moves the place on and, if the window was clean, adds its channel. */
  lemma ReportCounts(s: Runner, r: WindowReport)
    requires s.sched.Valid() && s.announced && WifiOpen(s) && s.sched.config.wifiEnabled
    requires r.window == s.open.value.window && r.window.channel == s.sched.config.channels[PlaceNow(s)]
    requires Counts(s, SweepOf(s.history), PlaceNow(s)) && Counted(s, SweepOf(s.history))
    requires s.stuck.Some? ==> r.end == DriverFault
    ensures CleanInv(Emit(CountClean(s, r), WindowReported(r)).(open := None))
  {
    var w, plan := SweepOf(s.history), s.sched.config.channels;
    WindowHeard(w, r, plan, PlaceNow(s));
    var t := CountClean(s, r);
    assert t.sched == s.sched && t.announced && SweepOf(t.history) == w by { CountSilent(s, r); }
    assert t.clean.wifi == 0 || (IsClean(r) && t.clean.wifi == Inc32(s.clean.wifi)) || (!IsClean(r) &&
        r.end != DriverFault && t.clean == s.clean);
    PlanFits(plan);
    assert Counted(t, Swept(w, Sent(WindowReported(r))));
    hide CountClean, Heard, Counted;
  }

  lemma CountSilent(s: Runner, r: WindowReport)
    ensures
      var t := CountClean(s, r);
      && t.sched == s.sched && t.announced == s.announced && t.open == s.open && t.stuck == s.stuck
      && SweepOf(t.history) == SweepOf(s.history)
  {
  }

  lemma BleReportCounts(s: Runner, r: WindowReport)
    requires s.sched.Valid() && s.announced && s.open.Some? && !WifiOpen(s) && r.window == s.open.value.window
    requires Counts(s, SweepOf(s.history), PlaceNow(s)) && Counted(s, SweepOf(s.history))
    requires s.stuck.Some? ==> r.end == DriverFault
    ensures CleanInv(Emit(CountClean(s, r), WindowReported(r)).(open := None))
  {
    CountSilent(s, r);
    assert CountClean(s, r).clean.wifi == s.clean.wifi;
    assert Counted(CountClean(s, r), SweepOf(s.history));
    hide CountClean, Heard, Counted;
  }

  lemma FinishCounts(s: Runner, pending: Option<ControlRequest>, a: CloseAnswers)
    requires CleanInv(s) && MayClose(s, pending, a)
    ensures CleanInv(FinishWindow(s, pending, a))
  {
    var o := s.open.value;
    var report := ReportOf(s, o, pending, a);
    EndCounts(s, a);
    var t := TakeDrops(StopAtEnd(s, o, a), o, a);
    assert WifiOpen(t) == WifiOpen(s) && PlaceNow(t) == PlaceNow(s);
    hide Counts, SweepOf, StopAtEnd, TakeDrops, CountClean, PlaceNow;
    if WifiOpen(s) { ReportCounts(t, report); } else { BleReportCounts(t, report); }
    var u := Emit(CountClean(t, report), WindowReported(report)).(open := None);
    assert u.announced by { CountSilent(t, report); }
    var v := Scheduled(Emit(CountClean(t, report), WindowReported(report)), o, a).(open := None);
    ScheduledCounts(u, v);
    hide CleanInv;
    if pending.Some? { ApplyCounts(v, pending.value); }
    hide ApplyControl, ReportOf;
  }

  /** When the next window starts is of no account here. */
  lemma ScheduledCounts(s: Runner, t: Runner)
    requires CleanInv(s) && t == s.(nextStart := t.nextStart, clock := t.clock)
    ensures CleanInv(t)
  {
    hide SweepOf, Heard;
  }

  lemma RetryCounts(s: Runner, a: RetryAnswers)
    requires CleanInv(s) && MayRetry(s, a) && s.announced
    ensures CleanInv(RetryStop(s, a))
  {
    var radio := s.stuck.value;
    match a.stop
    case Failed(_) => RetryFailsCounts(s, radio, a);
    case Worked =>
      var t := s.(running := s.running.Set(radio, false), stuck := None, clock := a.readyUs);
      NoteCounts(t, StopCalled(radio, a.readyUs, Worked, 0), SweepOf(s.history), PlaceNow(s));
      var u := Note(t, StopCalled(radio, a.readyUs, Worked, 0)).(carried := SaturatingAdd32(s.carried, a.unattributed),
          nextStart := None);
      NoteCounts(u, Took(a.unattributed, a.readyUs), SweepOf(s.history), PlaceNow(s));
      hide Counts, SweepOf;
      ClearCounts(Note(u, Took(a.unattributed, a.readyUs)), radio);
  }

  /** A retry that fails restarts the sweep; the count of a stuck radio is already nought, or starts again. */
  lemma RetryFailsCounts(s: Runner, radio: Radio, a: RetryAnswers)
    requires CleanInv(s) && MayRetry(s, a) && s.announced && s.stuck == Some(radio) && a.stop.Failed?
    requires radio == WifiRadio ==> s.clean.wifi == 0
    ensures CleanInv(RetryStop(s, a))
  {
    var at := SaturatingAdd64(a.stopUs, STOP_RETRY_BACKOFF_US);
    NoteCounts(s.(stopRetryAt := at, clock := a.stopUs), StopCalled(radio, a.readyUs, a.stop, a.stopUs), SweepOf(s.history),
        PlaceNow(s));
    hide Heard, Swept;
  }

  lemma SweepHolds(s: Runner, a: Action)
    requires CleanInv(s) && Legal(s, a)
    requires s.announced || (s.open.None? && s.stuck.None?)
    ensures CleanInv(Next(s, a))
  {
    hide Counts, SweepOf;
    match a
    case Announces => AnnounceCounts(s);
    case Applies(request) => hide CleanInv, ApplyControl; ApplyCounts(s, request);
    case Rests => ScheduledCounts(s, Next(s, a));
    case Opens(o) => hide CleanInv, RunWindow; RunCounts(s, o);
    case Closes(pending, c) => hide CleanInv, FinishWindow; FinishCounts(s, pending, c);
    case Retries(r) => hide CleanInv, RetryStop; RetryCounts(s, r);
  }

  lemma AnnounceCounts(s: Runner)
    requires CleanInv(s) && !s.announced
    ensures CleanInv(Announce(s))
  {
    hide ToConfigApplied, ToObservationConfig;
    ConfigRoundTrip(Inc32(s.generation), s.sched.config);
    NormalizeIsNormal(s.sched.config);
    hide Normalize;
  }

  // ---- when the fault clears ----

  /** A WiFi window that runs out clears the fault exactly when it was clean and the count has reached the
      length of the plan. */
  lemma ClearsExactly(s: Runner, a: CloseAnswers)
    requires MayClose(s, None, a) && WifiOpen(s) && s.fault.wifi.Some? && (s.open.value.started ==> s.stuck.None?)
    ensures
      var r := ReportOf(s, s.open.value, None, a);
      FinishWindow(s, None, a).fault.wifi.None? <==> IsClean(r) && Inc32(s.clean.wifi) >= |s.sched.config.channels|
  {
    var o := s.open.value;
    var t := TakeDrops(StopAtEnd(s, o, a), o, a);
    assert t.fault.wifi.Some? && t.sched == s.sched;
    assert !Faulted(o, a) ==> t.clean == s.clean;
  }

  /** What the sweep is when the count clears a WiFi fault: as many clean windows as the plan is long. */
  lemma ClearedSweep(s: Runner, a: CloseAnswers) returns (w: Sweep)
    requires CleanInv(s) && MayClose(s, None, a) && WifiOpen(s) && s.fault.wifi.Some?
    requires s.open.value.started ==> s.stuck.None?
    requires FinishWindow(s, None, a).fault.wifi.None?
    ensures w == SweepOf(FinishWindow(s, None, a).history) && w.Ordered() && |w.offsets| == |s.sched.config.channels|
    ensures s.sched.Valid() && Heard(w, s.sched.config.channels, s.sched.nextChannel)
  {
    ClearsExactly(s, a);
    var o, plan := s.open.value, s.sched.config.channels;
    var r := ReportOf(s, o, None, a);
    EndCounts(s, a);
    var t := TakeDrops(StopAtEnd(s, o, a), o, a);
    CountSilent(t, r);
    w := Swept(SweepOf(s.history), Sent(WindowReported(r)));
    assert SweepOf(FinishWindow(s, None, a).history) == w by {
      assert SweepOf(Emit(CountClean(t, r), WindowReported(r)).history) == w;
    }
    hide FinishWindow, StopAtEnd, TakeDrops, CountClean, SweepOf;
    WindowHeard(SweepOf(s.history), r, plan, PlaceNow(s));
  }

  /** When the count clears a WiFi fault, every channel of the plan has had a clean window since WiFi last
      failed or was given its plan just when no two of the clean windows counted lie a multiple of the
      plan's length apart. */
  lemma ClearedExactly(s: Runner, a: CloseAnswers)
    requires CleanInv(s) && MayClose(s, None, a) && WifiOpen(s) && s.fault.wifi.Some?
    requires s.open.value.started ==> s.stuck.None?
    requires FinishWindow(s, None, a).fault.wifi.None?
    ensures
      var (w, plan) := (SweepOf(FinishWindow(s, None, a).history), s.sched.config.channels);
      && |w.offsets| == |plan| > 0
      && ((forall c <- plan :: c in w.clean) <==> w.Spread(|plan|))
      && (!w.Broken() ==> forall c <- plan :: c in w.clean)
  {
    var w := ClearedSweep(s, a);
    hide FinishWindow, SweepOf, CleanInv, Heard;
    SpreadIsAll(w, s.sched.config.channels, s.sched.nextChannel);
    if !w.Broken() { UnbrokenIsSpread(w, |s.sched.config.channels|); }
  }
}
