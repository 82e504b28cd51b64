/** The numbers the Host gives its messages: they grow within a session, so the display applies every
    snapshot that reaches it. */
module LinkSequences {
  import opened Basics
  import opened Messages
  import opened FrameRoundTrip
  import opened Delivery
  import opened DeviceLink
  import opened H = HostSession
  import opened LinkSystem
  import opened LinkRuns
  import opened LinkService

  /** The messages a Live client numbers. */
  predicate IsData(m: Message) { m.SnapshotMessage? || IsCommand(m) }

  /** The message a step of the Host numbers, whether or not it encodes. */
  function DataOf(s: System, a: Action): Option<Message>
    requires Legal(s, a)
  {
    match a
    case HostSnapshot(snapshot, utcMs) => Some(SnapshotOf(s.client, snapshot, utcMs))
    case HostCommand(operation) => Some(CommandOf(s.client, s.client.nextCommand, operation))
    case HostRetry => Some(CommandOf(s.client, s.outstanding.value.0, s.outstanding.value.1))
    case _ => None
  }

  /** The step numbers a message, and the 32-bit number is used up. */
  predicate Wraps(s: System, a: Action) {
    (a.HostSnapshot? || a.HostCommand? || a.HostRetry?) && s.client.sequence == U32_MAX
  }

  /** The highest number used in the client's session. */
  function Used(c: Client): U32 { if c.phase == Live then c.sequence else 0 }

  predicate QueueNumbered(up: seq<Message>, c: Client, used: set<Identity>) {
    && (forall m <- up | IsData(m) ::
          && m.envelope.session in used && m.envelope.sequence > 0
          && (m.envelope.session == c.session ==> c.phase == Live && m.envelope.sequence <= c.sequence))
    && (forall i, j | 0 <= i < j < |up| && IsData(up[i]) && IsData(up[j])
                      && up[i].envelope.session == up[j].envelope.session ::
          up[i].envelope.sequence < up[j].envelope.sequence)
  }

  /** What is on its way to the open session is beyond what its gate has seen. */
  predicate GateBehind(up: seq<Message>, c: Client, d: Device) {
    d.feedOpen ==>
      && (forall m <- up | IsData(m) && m.envelope.session == d.session :: d.gate.last < m.envelope.sequence)
      && (d.session == c.session ==> d.gate.last <= Used(c))
  }

  predicate Numbered(s: System) { QueueNumbered(s.up, s.client, s.used) && GateBehind(s.up, s.client, s.device) }

  // ---- the Host ----

  lemma OpenIsUsed(s: System)
    requires Inv(s)
    ensures s.device.feedOpen ==> s.device.session in s.used
    ensures s.client.session in s.used
  {
    hide AllTruthful, PairsOnce, CommandsInOrder, IssuedGood, HostsTrusted;
  }

  /** Joining data is numbered next. */
  lemma DataJoins(s: System, m: Message, more: seq<Message>)
    requires Numbered(s) && s.client.session in s.used && s.client.phase == Live && s.client.sequence < U32_MAX
    requires IsData(m) && m.envelope.session == s.client.session && m.envelope.sequence == s.client.sequence + 1
    requires more == [] || more == [m]
    ensures
      var c := s.client.(sequence := s.client.sequence + 1);
      QueueNumbered(s.up + more, c, s.used) && GateBehind(s.up + more, c, s.device)
  {
  }

  lemma ClientKeepsNumbers(up: seq<Message>, c: Client, e: Client, d: Device, used: set<Identity>)
    requires QueueNumbered(up, c, used) && GateBehind(up, c, d)
    requires e.session == c.session && e.phase == c.phase && e.sequence == c.sequence
    ensures QueueNumbered(up, e, used) && GateBehind(up, e, d)
  {
  }

  lemma PlainJoins(up: seq<Message>, m: Message, c: Client, d: Device, used: set<Identity>)
    requires QueueNumbered(up, c, used) && GateBehind(up, c, d) && !IsData(m)
    ensures QueueNumbered(up + [m], c, used) && GateBehind(up + [m], c, d)
  {
  }

  lemma TailNumbered(up: seq<Message>, c: Client, d: Device, used: set<Identity>)
    requires up != [] && QueueNumbered(up, c, used) && GateBehind(up, c, d)
    ensures QueueNumbered(up[1..], c, used) && GateBehind(up[1..], c, d)
  {
  }

  lemma ReceiveNumbers(s: System)
    requires Numbered(s) && s.down != []
    ensures Numbered(Receive(s))
  {
    var r := HandleMessage(s.client, s.down[0]);
    var c := r.client;
    assert r.sent == [] || r.sent == [PairOf(s.client)];
    assert c.session == s.client.session;
    assert (c.phase == Live && c.sequence == Used(s.client)) || (c.phase != Live && s.client.phase != Live);
    hide HandleMessage;
    assert QueueNumbered(s.up, c, s.used) && GateBehind(s.up, c, s.device);
    if r.sent != [] { PlainJoins(s.up, PairOf(s.client), c, s.device, s.used); } else { assert s.up + [] == s.up; }
    hide QueueNumbered, GateBehind, Answer;
  }

  lemma ConnectNumbers(s: System, a: Action)
    requires Inv(s) && Numbered(s) && a.Connect? && Legal(s, a)
    ensures Numbered(Next(s, a))
  {
    OpenIsUsed(s);
    hide Inv;
  }

  // ---- the device ----

  /** A step leaves the gate of an open session alone, or opens another with a fresh gate. */
  predicate GateKept(d: Device, e: Device) {
    e.feedOpen ==>
      || (d.feedOpen && e.gate == d.gate && e.session == d.session && e.appliedInSession == d.appliedInSession)
      || (e.gate.last == 0 && e.appliedInSession == [])
  }

  lemma ReactKeepsGate(d: Device, i: Input)
    requires !(i.Frame? && i.result.Ok? && i.result.value.SnapshotMessage?)
    ensures GateKept(d, React(d, i))
  {
    if i.Frame? && i.result.Ok? {
      ControlKeepsGate(d, i.result.value.envelope, i.result.value.body, i.answers);
      hide OnControl, GateKept;
    } else {
      hide SendError, Send;
    }
  }

  lemma ControlKeepsGate(d: Device, e: Envelope, b: ControlBody, a: Answers)
    ensures GateKept(d, OnControl(d, e, b, a))
  {
  }

  lemma KeptGateBehind(up: seq<Message>, c: Client, used: set<Identity>, d: Device, e: Device)
    requires QueueNumbered(up, c, used) && GateBehind(up, c, d) && GateKept(d, e)
    ensures GateBehind(up, c, e)
  {
  }

  /** A snapshot that reaches the device in its session passes the gate, and is the newest applied. */
  lemma HeadApplies(s: System, e: Envelope, x: Snapshot, a: Answers)
    requires DeviceInv(s.device) && Numbered(s) && s.up != [] && s.up[0] == SnapshotMessage(e, x)
    ensures
      var d := s.device;
      var f := React(d, Frame(Ok(s.up[0]), a));
      if d.feedOpen && e.session == d.session
      then f == d.(gate := Receiver(Some(d.session), e.sequence), appliedInSession := d.appliedInSession + [e.sequence])
      else f.appliedInSession == d.appliedInSession && f.feedOpen == d.feedOpen && f.session == d.session
           && (d.feedOpen ==> f.gate == d.gate)
  {
    hide Increasing;
  }

  lemma SnapshotNumbers(s: System, a: Answers)
    requires DeviceInv(s.device) && Numbered(s) && s.up != [] && s.up[0].SnapshotMessage?
    ensures Numbered(s.(device := React(s.device, Frame(Ok(s.up[0]), a)), up := s.up[1..]))
  {
    HeadApplies(s, s.up[0].envelope, s.up[0].snapshot, a);
    TailNumbered(s.up, s.client, s.device, s.used);
    var m := s.up[0];
    assert forall n <- s.up[1..] | IsData(n) && n.envelope.session == m.envelope.session ::
        m.envelope.sequence < n.envelope.sequence;
    hide React, DeviceInv;
  }

  lemma DeviceNumbers(s: System, i: Input, rest: seq<Message>)
    requires DeviceInv(s.device) && Numbered(s) && (rest == s.up || (s.up != [] && rest == s.up[1..]))
    requires !(i.Frame? && i.result.Ok? && i.result.value.SnapshotMessage?)
    ensures Numbered(DeviceStep(s, i).(up := rest))
  {
    ReactKeepsGate(s.device, i);
    if rest != s.up { TailNumbered(s.up, s.client, s.device, s.used); }
    hide React, DeviceInv, GateKept, QueueNumbered, GateBehind, Opens, Runs;
    KeptGateBehind(rest, s.client, s.used, s.device, React(s.device, i));
  }

  lemma StepNumbers(s: System, a: Action)
    requires Inv(s) && Numbered(s) && Legal(s, a) && !Wraps(s, a)
    ensures Numbered(Next(s, a))
  {
    OpenIsUsed(s);
    assert DeviceInv(s.device);
    hide Inv, DeviceInv, Numbered, React, Deliverable, IfEncodes, Opens, Runs, HandleMessage;
    match a
    case Connect(_, _, _, _) => ConnectNumbers(s, a);
    case HostReceive => ReceiveNumbers(s);
    case DeviceReceive(answers) =>
      if s.up[0].SnapshotMessage? { SnapshotReceived(s, answers); }
      else { DeviceNumbers(s, InputOf(s, a).value, s.up[1..]); }
    case DeviceHearsNoise(_, _) => DeviceNumbers(s, InputOf(s, a).value, s.up);
    case DeviceTouch(_, _) => DeviceNumbers(s, InputOf(s, a).value, s.up);
    case DeviceUnpairs(_) => DeviceNumbers(s, InputOf(s, a).value, s.up);
    case DeviceTick(_) => DeviceNumbers(s, InputOf(s, a).value, s.up);
    case DeviceSends => SendsNumbers(s);
    case DeviceRestarts => RestartNumbers(s);
    case LoseUp => LossNumbers(s);
    case _ => HostNumbers(s, a);
  }

  lemma SnapshotReceived(s: System, answers: Answers)
    requires DeviceInv(s.device) && Numbered(s) && s.up != [] && s.up[0].SnapshotMessage?
    ensures Numbered(Next(s, DeviceReceive(answers)))
  {
    SnapshotNumbers(s, answers);
    var i := Frame(Ok(s.up[0]), answers);
    assert Opens(s.device, i).None? && Runs(s.device, i).None?;
    hide React, Numbered, DeviceInv;
  }

  lemma SendsNumbers(s: System)
    requires Numbered(s)
    ensures Numbered(Next(s, DeviceSends))
  {
  }

  lemma RestartNumbers(s: System)
    requires Numbered(s)
    ensures Numbered(Next(s, DeviceRestarts))
  {
  }

  lemma LossNumbers(s: System)
    requires Numbered(s) && s.up != []
    ensures Numbered(Next(s, LoseUp))
  {
    TailNumbered(s.up, s.client, s.device, s.used);
  }

  lemma HostNumbers(s: System, a: Action)
    requires Numbered(s) && Legal(s, a) && !Wraps(s, a) && s.client.session in s.used
    requires a.SetOffset? || a.HostHello? || a.HostSnapshot? || a.HostCommand? || a.HostRetry? || a.HostGivesUp?
             || a.LoseDown?
    ensures Numbered(Next(s, a))
  {
    hide Deliverable, EncodeMessage, QueueNumbered, GateBehind;
    match a
    case HostSnapshot(snapshot, utcMs) =>
      var m := SnapshotOf(s.client, snapshot, utcMs);
      DataJoins(s, m, if Deliverable(m) then [m] else []);
    case HostCommand(operation) =>
      var m := CommandOf(s.client, s.client.nextCommand, operation);
      DataJoins(s, m, IfEncodes(m));
      ClientKeepsNumbers(Next(s, a).up, s.client.(sequence := s.client.sequence + 1), Next(s, a).client, s.device, s.used);
    case HostRetry =>
      var m := CommandOf(s.client, s.outstanding.value.0, s.outstanding.value.1);
      DataJoins(s, m, IfEncodes(m));
    case HostHello(utcMs) =>
      var m := HelloOf(s.client, utcMs);
      HelloNumbers(s);
      if IfEncodes(m) == [m] { PlainJoins(s.up, m, Start(s.client), s.device, s.used); } else { assert s.up + [] == s.up; }
    case SetOffset(offset) =>
      ClientKeepsNumbers(s.up, s.client, s.client.(localOffsetMinutes := offset), s.device, s.used);
    case _ =>
  }

  lemma HelloNumbers(s: System)
    requires Numbered(s) && s.client.phase != Live
    ensures QueueNumbered(s.up, Start(s.client), s.used) && GateBehind(s.up, Start(s.client), s.device)
  {
  }

  // ---- whole runs ----

  ghost predicate NeverWraps(ss: seq<System>, steps: seq<Action>) {
    |ss| == |steps| + 1 && forall i {:trigger steps[i]} | 0 <= i < |steps| :: !Wraps(ss[i], steps[i])
  }

  lemma InitIsNumbered(s: System)
    requires Init(s)
    ensures Numbered(s)
  {
  }

  lemma {:induction false} RunIsNumbered(ss: seq<System>, steps: seq<Action>, i: nat)
    requires IsRun(ss, steps) && NeverWraps(ss, steps) && i < |ss|
    ensures Inv(ss[i]) && Numbered(ss[i])
  {
    hide Inv, Init, Next, Legal, Numbered, Wraps;
    RunIsGood(ss, steps, i);
    if i == 0 {
      InitIsNumbered(ss[0]);
    } else {
      RunIsNumbered(ss, steps, i - 1);
      assert !Wraps(ss[i - 1], steps[i - 1]);
      StepNumbers(ss[i - 1], steps[i - 1]);
    }
  }

  /** While one session lasts its numbers only grow, and each message takes the next one. */
  lemma StepUses(s: System, a: Action)
    requires Legal(s, a) && !Wraps(s, a) && Next(s, a).client.session == s.client.session && !a.Connect?
    ensures Used(s.client) <= Used(Next(s, a).client)
    ensures DataOf(s, a).Some? ==>
              var m := DataOf(s, a).value;
              && IsData(m) && m.envelope.session == s.client.session && s.client.phase == Live
              && m.envelope.sequence == Used(s.client) + 1 == Used(Next(s, a).client)
  {
    hide Deliverable, EncodeMessage, React, Opens, Runs, Answer;
  }

  /** A session is connected once. */
  lemma StepSession(s: System, a: Action)
    requires Legal(s, a)
    ensures s.used <= Next(s, a).used
    ensures Next(s, a).client.session != s.client.session ==> a.Connect? && Next(s, a).client.session !in s.used
    ensures Inv(s) && a.Connect? ==> Next(s, a).client.session != s.client.session && s.client.session in s.used
  {
    hide Deliverable, EncodeMessage, React, Opens, Runs, Answer;
    if Inv(s) { OpenIsUsed(s); }
  }

  /** A later point of a run, as far as numbers go. */
  predicate Lasts(s: System, t: System) {
    && s.used <= t.used && t.client.session in t.used
    && if s.client.session == t.client.session then Used(s.client) <= Used(t.client) else t.client.session !in s.used
  }

  lemma StepLasts(s: System, a: Action)
    requires Inv(s) && Legal(s, a) && !Wraps(s, a) && s.client.session in s.used
    ensures Lasts(s, Next(s, a))
  {
    StepSession(s, a);
    hide Inv, Wraps;
    if Next(s, a).client.session == s.client.session { StepUses(s, a); }
    hide Next, Used;
  }

  lemma LastsOn(s: System, t: System, u: System)
    requires Lasts(s, t) && Lasts(t, u) && s.client.session in s.used
    ensures Lasts(s, u)
  {
  }

  /** In the same session: the numbers between two points of a run never fall. */
  lemma {:induction false} SessionLasts(ss: seq<System>, steps: seq<Action>, i: nat, j: nat)
    requires IsRun(ss, steps) && NeverWraps(ss, steps) && i <= j < |ss|
    ensures Lasts(ss[i], ss[j])
    decreases j - i
  {
    RunIsGood(ss, steps, i);
    OpenIsUsed(ss[i]);
    if i < j {
      RunIsGood(ss, steps, j - 1);
      OpenIsUsed(ss[j - 1]);
      hide Inv, Init, Next, Legal, Wraps, Used, Lasts;
      SessionLasts(ss, steps, i, j - 1);
      var s, a := ss[j - 1], steps[j - 1];
      assert Legal(s, a) && ss[j] == Next(s, a) && !Wraps(s, a);
      StepLasts(s, a);
      LastsOn(ss[i], s, ss[j]);
    } else {
      hide Inv, Init, Next;
    }
  }

  /** The messages a Live client numbers in one session, snapshots, commands and retries alike, bear strictly
      increasing numbers below 2^32, from 1 on. */
  lemma NumbersIncrease(ss: seq<System>, steps: seq<Action>, i: nat, j: nat)
    requires IsRun(ss, steps) && NeverWraps(ss, steps) && i < j < |steps|
    requires ss[i].client.session == ss[j].client.session
    requires Legal(ss[i], steps[i]) && Legal(ss[j], steps[j])
    requires DataOf(ss[i], steps[i]).Some? && DataOf(ss[j], steps[j]).Some?
    ensures
      var (m, n) := (DataOf(ss[i], steps[i]).value, DataOf(ss[j], steps[j]).value);
      && m.envelope.session == n.envelope.session == ss[i].client.session
      && 0 < m.envelope.sequence < n.envelope.sequence
  {
    RunIsGood(ss, steps, i);
    StepSession(ss[i], steps[i]);
    NotConnecting(ss[i], steps[i]);
    NotConnecting(ss[j], steps[j]);
    StepUses(ss[i], steps[i]);
    StepUses(ss[j], steps[j]);
    hide Inv, Next, Legal, Wraps, Used, DataOf;
    assert ss[i + 1] == Next(ss[i], steps[i]);
    SessionLasts(ss, steps, i + 1, j);
  }

  lemma NotConnecting(s: System, a: Action)
    requires Legal(s, a) && DataOf(s, a).Some?
    ensures !a.Connect? && Next(s, a).client.session == s.client.session
  {
    hide Deliverable, EncodeMessage;
  }

  /** Whatever is lost, delayed, retried or reconnected: a snapshot that reaches the display while its session is
      open is applied. */
  lemma ArrivedIsApplied(ss: seq<System>, steps: seq<Action>, j: nat)
    requires IsRun(ss, steps) && NeverWraps(ss, steps) && j < |steps| && steps[j].DeviceReceive?
    requires ss[j].up != [] && ss[j].up[0].SnapshotMessage?
    requires ss[j].device.phase == SessionOpen && ss[j].up[0].envelope.session == ss[j].device.session
    ensures ss[j + 1].device.appliedInSession == ss[j].device.appliedInSession + [ss[j].up[0].envelope.sequence]
    ensures forall x <- ss[j].device.appliedInSession :: x < ss[j].up[0].envelope.sequence
  {
    RunIsNumbered(ss, steps, j);
    var s := ss[j];
    assert Legal(s, steps[j]) && ss[j + 1] == Next(s, steps[j]);
    assert DeviceInv(s.device);
    hide Inv, IsRun, Numbered;
    HeadApplies(s, s.up[0].envelope, s.up[0].snapshot, steps[j].answers);
    SnapshotApplies(s.device, s.up[0].envelope, s.up[0].snapshot, steps[j].answers);
    hide React;
  }

  /** Once its 32-bit number is used up a client's next message bears 0, which no display applies. */
  lemma WrappedIsStale(c: Client, d: Device, x: Snapshot, utcMs: Option<U64>)
    requires c.sequence == U32_MAX && DeviceInv(d)
    ensures !Applies(d, SnapshotOf(c, x, utcMs).envelope)
  {
    SnapshotApplies(d, SnapshotOf(c, x, utcMs).envelope, x, NO_ANSWERS);
  }

  // ---- with nothing lost ----

  predicate InStep(s: System) {
    && Calm(s) && s.client.phase == Live && s.device.phase == SessionOpen && s.device.session == s.client.session
    && s.device.feedOpen && s.device.gate.session == Some(s.device.session) && s.device.gate.last <= s.client.sequence
    && Increasing(s.device.appliedInSession, s.device.gate.last)
  }

  function FeedSteps(xs: seq<Snapshot>, utcMs: Option<U64>): seq<Action> {
    if xs == [] then [] else [HostSnapshot(xs[0], utcMs)] + [DeviceReceive(NO_ANSWERS)] + FeedSteps(xs[1..], utcMs)
  }

  function CountFrom(first: nat, n: nat): seq<nat> { seq(n, i => first + i) }

  /** A snapshot on its way to a display in step with its Host. */
  predicate Feeding(s: System, u: System, m: Message) {
    u == s.(client := Advance(s.client), up := [m])
  }

  lemma SendsSnapshot(s: System, x: Snapshot, utcMs: Option<U64>) returns (u: System)
    requires InStep(s) && s.client.sequence < U32_MAX && Deliverable(SnapshotOf(s.client, x, utcMs))
    ensures Leads(s, [HostSnapshot(x, utcMs)], u) && Feeding(s, u, SnapshotOf(s.client, x, utcMs))
  {
    hide Deliverable, Increasing;
    u := Next(s, HostSnapshot(x, utcMs));
    LeadsByOne(s, HostSnapshot(x, utcMs));
    hide Leads;
  }

  lemma AppliesSnapshot(s: System, u: System, x: Snapshot, utcMs: Option<U64>) returns (t: System)
    requires InStep(s) && s.client.sequence < U32_MAX && Feeding(s, u, SnapshotOf(s.client, x, utcMs))
    ensures Leads(u, [DeviceReceive(NO_ANSWERS)], t) && InStep(t)
    ensures t.client == Advance(s.client) && t.device.session == s.device.session
    ensures t.device.appliedInSession == s.device.appliedInSession + [s.client.sequence + 1]
  {
    t := Next(u, DeviceReceive(NO_ANSWERS));
    LeadsByOne(u, DeviceReceive(NO_ANSWERS));
    hide Leads;
  }

  lemma OneSnapshot(s: System, x: Snapshot, utcMs: Option<U64>) returns (t: System)
    requires InStep(s) && s.client.sequence < U32_MAX && Deliverable(SnapshotOf(s.client, x, utcMs))
    ensures Leads(s, [HostSnapshot(x, utcMs)] + [DeviceReceive(NO_ANSWERS)], t)
    ensures InStep(t) && t.client == Advance(s.client) && t.device.session == s.device.session
    ensures t.device.appliedInSession == s.device.appliedInSession + [s.client.sequence + 1]
  {
    hide Deliverable, InStep, Feeding, Leads;
    var u := SendsSnapshot(s, x, utcMs);
    t := AppliesSnapshot(s, u, x, utcMs);
    LeadsOn(s, [HostSnapshot(x, utcMs)], u, [DeviceReceive(NO_ANSWERS)], t);
  }

  predicate Good(x: Snapshot) { Encodable(x) && x.cpu.utilizationPerMille <= 1000 }

  lemma GoodIsDeliverable(c: Client, x: Snapshot, utcMs: Option<U64>)
    requires Good(x) && OffsetEncodes(c)
    ensures Deliverable(SnapshotOf(c, x, utcMs))
  {
    hide EncodeGroups, Encodable;
    SnapshotFrameLength(SnapshotOf(c, x, utcMs).envelope, x);
  }

  /** With nothing lost, n snapshots of a session leave exactly n numbers with the display, all different. */
  lemma {:induction false} UndisturbedSnapshots(s: System, xs: seq<Snapshot>, utcMs: Option<U64>) returns (t: System)
    requires InStep(s) && OffsetEncodes(s.client) && (forall x <- xs :: Good(x))
    requires s.client.sequence + |xs| <= U32_MAX
    ensures Leads(s, FeedSteps(xs, utcMs), t) && InStep(t) && t.client.sequence == s.client.sequence + |xs|
    ensures t.device.session == s.device.session
    ensures t.device.appliedInSession == s.device.appliedInSession + CountFrom(s.client.sequence + 1, |xs|)
    ensures forall i, j | 0 <= i < j < |t.device.appliedInSession| ::
              t.device.appliedInSession[i] < t.device.appliedInSession[j]
    decreases |xs|
  {
    hide Leads, Good, Deliverable, FeedSteps;
    if xs == [] {
      t := s;
      FedNothing(s, utcMs);
      assert s.device.appliedInSession + CountFrom(s.client.sequence + 1, 0) == s.device.appliedInSession;
    } else {
      GoodIsDeliverable(s.client, xs[0], utcMs);
      var u := OneSnapshot(s, xs[0], utcMs);
      t := UndisturbedSnapshots(u, xs[1..], utcMs);
      FedOneMore(s, xs, utcMs, u, t);
      CountsOn(s.device.appliedInSession, s.client.sequence + 1, |xs|);
    }
    assert Increasing(t.device.appliedInSession, t.device.gate.last);
  }

  lemma FedNothing(s: System, utcMs: Option<U64>)
    ensures Leads(s, FeedSteps([], utcMs), s)
  {
  }

  lemma FedOneMore(s: System, xs: seq<Snapshot>, utcMs: Option<U64>, u: System, t: System)
    requires xs != [] && Leads(s, [HostSnapshot(xs[0], utcMs)] + [DeviceReceive(NO_ANSWERS)], u)
    requires Leads(u, FeedSteps(xs[1..], utcMs), t)
    ensures Leads(s, FeedSteps(xs, utcMs), t)
  {
    LeadsOn(s, [HostSnapshot(xs[0], utcMs)] + [DeviceReceive(NO_ANSWERS)], u, FeedSteps(xs[1..], utcMs), t);
    hide Leads;
  }

  lemma CountsOn(before: seq<U32>, first: nat, n: nat)
    requires n > 0 && first + n <= U32_MAX + 1
    ensures before + [first] + CountFrom(first + 1, n - 1) == before + CountFrom(first, n)
  {
  }

  /** A fresh connection with nothing lost: after the handshake the display applies exactly the snapshots
      numbered 1 to n. */
  lemma UndisturbedFeed(s: System, host: Identity, code: U32, session: Identity, at: U64, ticks: seq<U64>,
                        xs: seq<Snapshot>, utcMs: Option<U64>)
    returns (steps: seq<Action>, t: System)
    requires Calm(s) && session !in s.used && SixDigits(code) && forall x <- ticks :: at <= x < at + 60_000
    requires s.device.paired.None? || s.device.paired == Some(host)
    requires |xs| <= U32_MAX && forall x <- xs :: Good(x)
    ensures Leads(s, steps + FeedSteps(xs, utcMs), t)
    ensures t.device.session == session && t.device.appliedInSession == CountFrom(1, |xs|)
  {
    var greet, live, u := UndisturbedHandshake(s, host, None, code, session, at, ticks);
    assert Increasing([], 0);
    hide Leads, AskSteps, FeedSteps, Increasing, Good;
    t := UndisturbedSnapshots(u, xs, utcMs);
    steps := greet + AskSteps(s.device, at, ticks) + live;
    LeadsOn(s, steps, u, FeedSteps(xs, utcMs), t);
    assert [] + CountFrom(1, |xs|) == CountFrom(1, |xs|);
  }
}
