/** The boot sequence: four commands, each sent again until it completes, none after one has failed. */
module HciBoot {
  import opened Basics
  import opened HciTracker

  const STEPS: nat := 4

  datatype Boot = Boot(index: nat, failure: Option<HciTracker.Result>)

  predicate BadTiming(interval: U16, window: U16) {
    interval < 4 || interval > 0x4000 || window < 4 || window > 0x4000 || window > interval
  }

  function NewBoot(interval: U16, window: U16): Boot {
    if BadTiming(interval, window) then Boot(3, Some(HciTracker.Result(InvalidBoot, 0))) else Boot(0, None)
  }

  predicate Current(b: Boot) { b.index != STEPS && b.failure.None? }

  function OnResult(b: Boot, r: HciTracker.Result): Boot {
    if !Current(b) then b
    else if r.outcome == HciTracker.Completed then b.(index := b.index + 1)
    else if r.outcome == RejectedBy || r.outcome == TimedOut then b.(failure := Some(r))
    else b
  }

  function OnResults(b: Boot, rs: seq<HciTracker.Result>): Boot
    decreases |rs|
  {
    if rs == [] then b else OnResults(OnResult(b, rs[0]), rs[1..])
  }

  predicate Ends(r: HciTracker.Result) { r.outcome == RejectedBy || r.outcome == TimedOut }

  /** The completions before the first rejection or timeout. */
  function Completions(rs: seq<HciTracker.Result>): nat {
    if rs == [] || Ends(rs[0]) then 0
    else (if rs[0].outcome == HciTracker.Completed then 1 else 0) + Completions(rs[1..])
  }

  /** The boot completes exactly when four commands complete before any is rejected or times out; otherwise
      it stands at the command after the last completion, and has failed exactly if a failure came. */
  lemma {:induction false} BootsInOrder(b: Boot, rs: seq<HciTracker.Result>)
    requires b.failure.None? && b.index <= STEPS
    ensures
      var c := OnResults(b, rs);
      && c.index == Min(b.index + Completions(rs), STEPS)
      && (c.failure.Some? <==> c.index < STEPS && exists r <- rs :: Ends(r))
      && (c.failure.Some? ==> c.failure.value in rs && Ends(c.failure.value))
    decreases |rs|
  {
    if rs != [] {
      if b.index < STEPS && Ends(rs[0]) {
        OverIsOver(OnResult(b, rs[0]), rs[1..]);
      } else if b.index == STEPS {
        OverIsOver(b, rs);
      } else {
        BootsInOrder(OnResult(b, rs[0]), rs[1..]);
      }
    }
  }

  lemma {:induction false} OverIsOver(b: Boot, rs: seq<HciTracker.Result>)
    requires !Current(b)
    ensures OnResults(b, rs) == b
    decreases |rs|
  {
    if rs != [] { OverIsOver(b, rs[1..]); }
  }

  /** A boot is refused from the start, and then for good, exactly if its scan timing is outside section 7.8.10: a
      window of 4 to 0x4000 slots, and an interval no shorter and no longer than that. */
  lemma TimingExact(interval: U16, window: U16, rs: seq<HciTracker.Result>)
    ensures
      var b := OnResults(NewBoot(interval, window), rs);
      && (b.failure == Some(HciTracker.Result(InvalidBoot, 0)) <==> !(4 <= window <= interval <= 0x4000))
      && (!(4 <= window <= interval <= 0x4000) ==> b == NewBoot(interval, window))
  {
    var b := NewBoot(interval, window);
    if 4 <= window <= interval <= 0x4000 { BootsInOrder(b, rs); } else { OverIsOver(b, rs); }
  }

  class BootSequencer {
    var index: nat
    var failure: Option<HciTracker.Result>

    ghost function Model(): Boot
      reads this
    {
      Boot(index, failure)
    }

    constructor (interval: U16, window: U16)
      ensures Model() == NewBoot(interval, window)
    {
      index, failure := 0, None;
      if interval < 4 || interval > 0x4000 || window < 4 || window > 0x4000 || window > interval {
        index := 3;
        failure := Some(HciTracker.Result(InvalidBoot, 0));
      }
    }

    method Hear(r: HciTracker.Result)
      modifies this
      ensures Model() == OnResult(old(Model()), r)
    {
      if index == STEPS || failure.Some? { return; }
      if r.outcome == HciTracker.Completed {
        index := index + 1;
      } else if r.outcome == RejectedBy || r.outcome == TimedOut {
        failure := Some(r);
      }
    }
  }
}
