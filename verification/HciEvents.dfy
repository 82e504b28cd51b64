/** HCI event packets (Core v5.x Vol 4 Part E, sections 7.7.14, 7.7.15, 7.7.16 and 7.7.65.2). */
module HciEvents {
  import opened Basics

  datatype Kind = Malformed | Ignored | Complete | Status | Advertising | HardwareError

  datatype Event = Event(kind: Kind, code: Byte, status: Byte, credit: Byte, opcode: U16)

  type Address = s: seq<Byte> | |s| == 6 witness [0, 0, 0, 0, 0, 0]

  datatype Report = Report(eventType: Byte, addressType: Byte, address: Address, data: seq<Byte>, rssi: int)

  // ---- the wire form of advertising reports ----

  function Signed(b: Byte): int { if b < 0x80 then b else b - 0x100 }

  predicate WellFormed(r: Report) { |r.data| <= 31 && -0x80 <= r.rssi < 0x80 }

  function Serialize(r: Report): seq<Byte>
    requires WellFormed(r)
  {
    [r.eventType, r.addressType] + r.address + [|r.data|] + r.data + [if r.rssi < 0 then r.rssi + 0x100 else r.rssi]
  }

  function SerializeAll(rs: seq<Report>): seq<Byte>
    requires forall r <- rs :: WellFormed(r)
  {
    if rs == [] then [] else Serialize(rs[0]) + SerializeAll(rs[1..])
  }

  /** The packets that carry exactly these advertising reports, tiled to the last byte. */
  predicate Carries(p: seq<Byte>, rs: seq<Report>) {
    && 1 <= |rs| <= 0x19
    && (forall r <- rs :: WellFormed(r))
    && |SerializeAll(rs)| + 2 <= 0xFF
    && p == [0x04, 0x3E, |SerializeAll(rs)| + 2, 0x02, |rs|] + SerializeAll(rs)
  }

  // ---- reading reports ----

  datatype ReadOne = Short | One(report: Report, rest: seq<Byte>)

  function ReadReport(s: seq<Byte>): ReadOne {
    if |s| < 10 || s[8] > 31 || |s| < 10 + s[8] then Short
    else One(Report(s[0], s[1], s[2..8], s[9..9 + s[8]], Signed(s[9 + s[8]])), s[10 + s[8]..])
  }

  datatype ReadAll = Cut | All(reports: seq<Report>, rest: seq<Byte>)

  function ReadReports(s: seq<Byte>, n: nat): ReadAll {
    if n == 0 then All([], s)
    else match ReadReport(s)
      case Short => Cut
      case One(r, rest) =>
        match ReadReports(rest, n - 1)
        case Cut => Cut
        case All(rs, end) => All([r] + rs, end)
  }

  lemma ReadReportExact(s: seq<Byte>, r: Report, rest: seq<Byte>)
    ensures ReadReport(s) == One(r, rest) <==> WellFormed(r) && s == Serialize(r) + rest
  {
    if ReadReport(s) == One(r, rest) {
      var n := s[8];
      assert s == [s[0], s[1]] + s[2..8] + [n] + s[9..9 + n] + [s[9 + n]] + s[10 + n..];
    }
    if WellFormed(r) && s == Serialize(r) + rest {
      var n := |r.data|;
      assert s[2..8] == r.address && s[8] == n && s[9..9 + n] == r.data;
      assert s[10 + n..] == rest;
    }
  }

  /** Reading `n` reports succeeds on exactly the serialisations of `n` well-formed reports. */
  lemma {:induction false} ReadReportsExact(s: seq<Byte>, n: nat, rs: seq<Report>, rest: seq<Byte>)
    ensures ReadReports(s, n) == All(rs, rest)
            <==> |rs| == n && (forall r <- rs :: WellFormed(r)) && s == SerializeAll(rs) + rest
    decreases n
  {
    hide Serialize, WellFormed, ReadReport;
    if n > 0 {
      if ReadReports(s, n) == All(rs, rest) {
        var first := ReadReport(s);
        ReadReportExact(s, first.report, first.rest);
        ReadReportsExact(first.rest, n - 1, rs[1..], rest);
        assert rs == [first.report] + rs[1..];
        assert s == SerializeAll(rs) + rest;
      }
      if |rs| == n && (forall r <- rs :: WellFormed(r)) && s == SerializeAll(rs) + rest {
        assert s == Serialize(rs[0]) + (SerializeAll(rs[1..]) + rest);
        ReadReportExact(s, rs[0], SerializeAll(rs[1..]) + rest);
        ReadReportsExact(SerializeAll(rs[1..]) + rest, n - 1, rs[1..], rest);
        assert rs == [rs[0]] + rs[1..];
      }
    } else {
      assert rs == [] ==> SerializeAll(rs) + rest == rest;
    }
  }

  /** A packet carries at most one list of reports. */
  lemma CarriesIsUnique(p: seq<Byte>, a: seq<Report>, b: seq<Report>)
    requires Carries(p, a) && Carries(p, b)
    ensures a == b
  {
    assert p[4] == |a| == |b|;
    assert p[5..] == SerializeAll(a) == SerializeAll(b);
    assert SerializeAll(a) + [] == SerializeAll(b) + [] == p[5..];
    ReadReportsExact(p[5..], |a|, a, []);
    ReadReportsExact(p[5..], |b|, b, []);
  }

  /** The packet is an advertising event with a report count the parser looks at. */
  predicate IsAdvertising(p: seq<Byte>) {
    |p| >= 5 && p[0] == 0x04 && |p| - 3 == p[2] && p[1] == 0x3E && p[3] == 0x02 && 1 <= p[4] <= 0x19
  }

  lemma CarriesByReading(p: seq<Byte>, rs: seq<Report>)
    ensures Carries(p, rs) <==> IsAdvertising(p) && ReadReports(p[5..], p[4]) == All(rs, [])
  {
    hide SerializeAll, ReadReports, WellFormed;
    if IsAdvertising(p) && ReadReports(p[5..], p[4]) == All(rs, []) {
      ReadReportsExact(p[5..], p[4], rs, []);
      assert SerializeAll(rs) + [] == SerializeAll(rs);
      assert p == [p[0], p[1], p[2], p[3], p[4]] + p[5..];
    }
    if Carries(p, rs) {
      assert p[5..] == SerializeAll(rs) + [];
      ReadReportsExact(p[5..], p[4], rs, []);
    }
  }

  // ---- the other events ----

  function LittleEndian(low: int, high: int): int { low + 0x100 * high }

  const NOTHING := Event(Malformed, 0, 0, 0, 0)

  /** The events the parser knows beside advertising reports, by the fields of their wire form. */
  datatype Wire =
    | CommandComplete(credit: Byte, opcode: U16, returned: seq<Byte>)
    | CommandStatus(status: Byte, credit: Byte, opcode: U16)
    | HardwareFailure(hardwareCode: Byte)
    | Foreign(code: Byte, parameters: seq<Byte>)

  /** A Command Complete without return parameters, not even a status, names no command. */
  predicate Proper(w: Wire) {
    match w
    case CommandComplete(_, opcode, returned) => |returned| <= 0xFC && (returned == [] ==> opcode == 0)
    case Foreign(code, parameters) =>
      && |parameters| <= 0xFF && code != 0x0E && code != 0x0F && code != 0x10
      && (code == 0x3E ==> parameters != [] && parameters[0] != 0x02)
    case _ => true
  }

  function Packet(code: Byte, parameters: seq<Byte>): seq<Byte>
    requires |parameters| <= 0xFF
  {
    [0x04, code, |parameters|] + parameters
  }

  /** The opcode goes low byte first. */
  function OpcodeBytes(opcode: U16): seq<Byte> { [opcode % 0x100, opcode / 0x100] }

  /** Sections 7.7.14 to 7.7.16: the parameters in the order they are sent. */
  function Bytes(w: Wire): seq<Byte>
    requires Proper(w)
  {
    match w
    case CommandComplete(credit, opcode, returned) => Packet(0x0E, [credit] + OpcodeBytes(opcode) + returned)
    case CommandStatus(status, credit, opcode) => Packet(0x0F, [status, credit] + OpcodeBytes(opcode))
    case HardwareFailure(hardwareCode) => Packet(0x10, [hardwareCode])
    case Foreign(code, parameters) => Packet(code, parameters)
  }

  /** A completed command's status is its first return parameter. */
  function Meaning(w: Wire): Event {
    match w
    case CommandComplete(credit, opcode, returned) =>
      Event(Complete, 0x0E, if returned == [] then 0 else returned[0], credit, opcode)
    case CommandStatus(status, credit, opcode) => Event(Status, 0x0F, status, credit, opcode)
    case HardwareFailure(hardwareCode) => Event(HardwareError, 0x10, hardwareCode, 0, 0)
    case Foreign(code, _) => Event(Ignored, code, 0, 0, 0)
  }

  /** What a packet that is no advertising report says. */
  function Classify(p: seq<Byte>): Event {
    var n := |p|;
    if n < 3 || p[0] != 4 || n - 3 != p[2] then NOTHING
    else
      var e := NOTHING.(code := p[1]);
      if p[1] == 0x0E then
        if n < 6 || (n < 7 && (p[4] != 0 || p[5] != 0)) then e
        else Event(Complete, p[1], if n >= 7 then p[6] else 0, p[3], LittleEndian(p[4], p[5]))
      else if p[1] == 0x0F then
        if n != 7 then e else Event(Status, p[1], p[3], p[4], LittleEndian(p[5], p[6]))
      else if p[1] == 0x10 then
        if n != 4 then e else e.(kind := HardwareError, status := p[3])
      else if p[1] == 0x3E && (n < 4 || p[3] == 2) then e
      else e.(kind := Ignored)
  }

  lemma OpcodeRead(low: Byte, high: Byte)
    ensures OpcodeBytes(LittleEndian(low, high)) == [low, high]
  {
  }

  lemma OpcodeParts(opcode: U16) returns (low: Byte, high: Byte)
    ensures OpcodeBytes(opcode) == [low, high] && LittleEndian(low, high) == opcode
  {
    low, high := opcode % 0x100, opcode / 0x100;
  }

  /** A packet with such a wire form is classified by it. */
  lemma WireIsRead(w: Wire)
    requires Proper(w)
    ensures Classify(Bytes(w)) == Meaning(w)
  {
    match w
    case CommandComplete(_, _, _) => CompleteIsRead(w);
    case CommandStatus(_, _, opcode) =>
      var low, high := OpcodeParts(opcode);
      hide OpcodeBytes, LittleEndian;
      assert Bytes(w) == [0x04, 0x0F, 4, w.status, w.credit, low, high];
    case _ =>
  }

  /** A Command Complete byte by byte. */
  lemma CompleteBytes(w: Wire) returns (low: Byte, high: Byte)
    requires Proper(w) && w.CommandComplete?
    ensures LittleEndian(low, high) == w.opcode && (w.opcode == 0 ==> low == 0 && high == 0)
    ensures Bytes(w) == [0x04, 0x0E, 3 + |w.returned|, w.credit, low, high] + w.returned
  {
    low, high := OpcodeParts(w.opcode);
    assert w.opcode == 0 ==> low == 0 && high == 0;
    hide OpcodeBytes, LittleEndian;
    assert [w.credit] + [low, high] + w.returned == [w.credit, low, high] + w.returned;
  }

  lemma CompleteIsRead(w: Wire)
    requires Proper(w) && w.CommandComplete?
    ensures Classify(Bytes(w)) == Meaning(w)
  {
    var low, high := CompleteBytes(w);
    hide Bytes, LittleEndian;
  }

  /** The wire form a classified packet has. */
  function WireOf(p: seq<Byte>): Wire
    requires Classify(p).kind != Malformed
  {
    if p[1] == 0x0E then CommandComplete(p[3], LittleEndian(p[4], p[5]), p[6..])
    else if p[1] == 0x0F then CommandStatus(p[3], p[4], LittleEndian(p[5], p[6]))
    else if p[1] == 0x10 then HardwareFailure(p[3])
    else Foreign(p[1], p[3..])
  }

  lemma ReadIsWire(p: seq<Byte>)
    requires Classify(p).kind != Malformed
    ensures Proper(WireOf(p)) && Bytes(WireOf(p)) == p
  {
    var w := WireOf(p);
    if p[1] == 0x0E {
      OpcodeRead(p[4], p[5]);
      assert p[3..] == [p[3]] + [p[4], p[5]] + p[6..];
    } else if p[1] == 0x0F {
      OpcodeRead(p[5], p[6]);
      assert p[3..] == [p[3], p[4]] + [p[5], p[6]];
    }
    assert p == [p[0], p[1], p[2]] + p[3..];
  }

  /** A packet has at most one wire form. */
  lemma WireIsUnique(v: Wire, w: Wire)
    requires Proper(v) && Proper(w) && Bytes(v) == Bytes(w)
    ensures v == w
  {
    FormKept(v);
    FormKept(w);
    hide Bytes, Classify;
  }

  lemma FormKept(w: Wire)
    requires Proper(w)
    ensures Classify(Bytes(w)).kind != Malformed && WireOf(Bytes(w)) == w
  {
    WireIsRead(w);
    var p := Bytes(w);
    match w
    case CommandComplete(_, _, returned) =>
      var low, high := CompleteBytes(w);
      hide Bytes, LittleEndian, Classify;
      assert p[6..] == returned;
    case CommandStatus(_, _, opcode) =>
      var low, high := OpcodeParts(opcode);
      hide OpcodeBytes, LittleEndian, Classify;
      assert p == [0x04, 0x0F, 4, w.status, w.credit, low, high];
    case HardwareFailure(_) =>
    case Foreign(_, parameters) => assert p[3..] == parameters;
  }

  /** What a packet that is no advertising report is taken for: what its wire form says, and nothing else is
      well formed. */
  lemma ClassifyExact(p: seq<Byte>)
    ensures forall w | Proper(w) && Bytes(w) == p :: Classify(p) == Meaning(w)
    ensures Classify(p).kind == Malformed <==> forall w | Proper(w) :: Bytes(w) != p
    ensures forall e: Event | e.kind != Malformed ::
              Classify(p) == e <==> exists w :: Proper(w) && Bytes(w) == p && Meaning(w) == e
  {
    forall w | Proper(w) && Bytes(w) == p ensures Classify(p) == Meaning(w) { WireIsRead(w); }
    if Classify(p).kind != Malformed { ReadIsWire(p); }
    hide Classify, Bytes, Proper;
  }

  lemma CarriedHead(p: seq<Byte>, rs: seq<Report>)
    requires Carries(p, rs)
    ensures |p| >= 4 && p[1] == 0x3E && p[3] == 0x02
  {
    hide SerializeAll, WellFormed;
  }

  lemma WireHead(w: Wire)
    requires Proper(w)
    ensures
      var p := Bytes(w);
      |p| >= 4 && p[1] == 0x3E ==> p[3] != 0x02
  {
    hide OpcodeBytes;
    if w.Foreign? && w.parameters != [] { assert Bytes(w)[3] == w.parameters[0]; }
  }

  lemma NoWireCarries(w: Wire, rs: seq<Report>)
    requires Proper(w)
    ensures !Carries(Bytes(w), rs)
  {
    hide Carries, Bytes;
    if Carries(Bytes(w), rs) { CarriedHead(Bytes(w), rs); }
    WireHead(w);
  }

  /** Two passes: the reports are handed out only once all of them are known to fit. */
  method Parse(p: seq<Byte>) returns (e: Event, reports: seq<Report>)
    ensures e.kind == Advertising <==> exists rs :: Carries(p, rs)
    ensures e.kind == Advertising ==> Carries(p, reports) && e == NOTHING.(kind := Advertising, code := 0x3E)
    ensures e.kind != Advertising ==> reports == [] && e == Classify(p)
    ensures forall w | Proper(w) && Bytes(w) == p :: e == Meaning(w)
    ensures e.kind != Malformed && e.kind != Advertising ==> exists w :: Proper(w) && Bytes(w) == p && e == Meaning(w)
    ensures e.kind == Malformed <==> (forall w | Proper(w) :: Bytes(w) != p) && forall rs :: !Carries(p, rs)
  {
    ClassifyExact(p);
    assert forall w | Proper(w) && Bytes(w) == p :: forall rs :: !Carries(p, rs) by {
      forall w, rs | Proper(w) && Bytes(w) == p ensures !Carries(p, rs) { NoWireCarries(w, rs); }
    }
    hide Proper, Bytes, Meaning;
    e, reports := NOTHING, [];
    var n := |p|;
    if n < 3 || p[0] != 4 || n - 3 != p[2] { return; }
    e := e.(code := p[1]);
    if p[1] == 0x0E {
      if n < 6 || (n < 7 && (p[4] != 0 || p[5] != 0)) { return; }
      e := e.(kind := Complete, credit := p[3], opcode := LittleEndian(p[4], p[5]));
      if n >= 7 { e := e.(status := p[6]); }
    } else if p[1] == 0x0F {
      if n != 7 { return; }
      e := e.(kind := Status, status := p[3], credit := p[4], opcode := LittleEndian(p[5], p[6]));
    } else if p[1] == 0x10 {
      if n != 4 { return; }
      e := e.(kind := HardwareError, status := p[3]);
    } else if p[1] == 0x3E && n >= 4 && p[3] == 2 {
      if n < 5 || p[4] == 0 || p[4] > 0x19 { return; }
      reports := AdvertisingReports(p);
      if reports != [] {
        e := e.(kind := Advertising);
      }
    } else {
      if p[1] == 0x3E && n < 4 { return; }
      e := e.(kind := Ignored);
    }
  }

  lemma ReadReportAt(p: seq<Byte>, pos: nat)
    requires pos <= |p|
    ensures ReadReport(p[pos..])
            == if |p| - pos < 10 || p[pos + 8] > 31 || |p| - pos < 10 + p[pos + 8] then Short
               else One(ReportAt(p, pos), p[pos + 10 + p[pos + 8]..])
  {
    var s := p[pos..];
    if |s| >= 10 && s[8] <= 31 && |s| >= 10 + s[8] {
      var n := s[8];
      assert s[2..8] == p[pos + 2..pos + 8] && s[9..9 + n] == p[pos + 9..pos + 9 + n];
      assert s[10 + n..] == p[pos + 10 + n..];
    }
  }

  function ReportAt(p: seq<Byte>, pos: nat): Report
    requires pos + 10 <= |p| && pos + 10 + p[pos + 8] <= |p|
  {
    var len := p[pos + 8];
    Report(p[pos], p[pos + 1], p[pos + 2..pos + 8], p[pos + 9..pos + 9 + len], Signed(p[pos + 9 + len]))
  }

  /** The first pass: whether `count` reports from position 5 end exactly at the packet's end. */
  method Tiles(p: seq<Byte>) returns (ok: bool)
    requires IsAdvertising(p)
    ensures ok <==> ReadReports(p[5..], p[4]).All? && ReadReports(p[5..], p[4]).rest == []
  {
    hide ReadReport;
    var n := |p|;
    var pos := 5;
    for i := 0 to p[4]
      invariant 5 <= pos <= n
      invariant ReadReports(p[pos..], p[4] - i).Cut? <==> ReadReports(p[5..], p[4]).Cut?
      invariant ReadReports(p[5..], p[4]).All? ==>
                  ReadReports(p[pos..], p[4] - i).rest == ReadReports(p[5..], p[4]).rest
    {
      ReadReportAt(p, pos);
      if n - pos < 10 || p[pos + 8] > 31 || n - pos < 10 + p[pos + 8] { return false; }
      pos := pos + 10 + p[pos + 8];
    }
    ok := pos == n;
  }

  /** The second pass. */
  method Collect(p: seq<Byte>) returns (reports: seq<Report>)
    requires IsAdvertising(p) && ReadReports(p[5..], p[4]).All?
    ensures reports == ReadReports(p[5..], p[4]).reports
  {
    hide ReadReport;
    reports := [];
    var pos := 5;
    for i := 0 to p[4]
      invariant 5 <= pos <= |p| && ReadReports(p[pos..], p[4] - i).All?
      invariant reports + ReadReports(p[pos..], p[4] - i).reports == ReadReports(p[5..], p[4]).reports
    {
      ReadReportAt(p, pos);
      reports := reports + [ReportAt(p, pos)];
      pos := pos + 10 + p[pos + 8];
    }
  }

  /** The reports of an advertising event; none if they do not tile the packet. */
  method AdvertisingReports(p: seq<Byte>) returns (reports: seq<Report>)
    requires IsAdvertising(p)
    ensures reports == [] <==> forall rs :: !Carries(p, rs)
    ensures reports != [] ==> Carries(p, reports)
  {
    forall rs ensures Carries(p, rs) <==> ReadReports(p[5..], p[4]) == All(rs, []) { CarriesByReading(p, rs); }
    hide ReadReports;
    var tiles := Tiles(p);
    if !tiles { return []; }
    reports := Collect(p);
    assert Carries(p, reports);
    assert |reports| >= 1;
  }
}
