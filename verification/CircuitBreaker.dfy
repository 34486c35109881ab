/** The LiveKit circuit breaker: its sequential behaviour over call histories, and all interleavings of its atomic steps. */
module CircuitBreakers {
  import opened Wrappers

  const SUCCESS_THRESHOLD := 2
  const COUNTER_RANGE := 0x1_0000_0000_0000_0000

  datatype State = Closed | Open | HalfOpen

  datatype Config = Config(threshold: nat, openFor: nat)

  datatype Breaker = Breaker(state: State, failures: nat, successes: nat, last: Option<nat>)

  const Fresh := Breaker(Closed, 0, 0, None)

  /** An atomic counter increment wraps at 64 bits. */
  function Bump(n: nat): nat {
    (n + 1) % COUNTER_RANGE
  }

  function Elapsed(since: nat, now: nat): nat {
    if now >= since then now - since else 0
  }

  predicate Due(c: Config, b: Breaker, now: nat) {
    b.last.Some? && Elapsed(b.last.value, now) >= c.openFor
  }

  // ---- one call at a time ----

  function Checked(c: Config, b: Breaker, now: nat): Breaker {
    if b.state.Open? && Due(c, b, now) then b.(state := HalfOpen) else b
  }

  predicate Passes(c: Config, b: Breaker, now: nat) {
    !Checked(c, b, now).state.Open?
  }

  function Succeeded(b: Breaker): Breaker {
    if !b.state.HalfOpen? then b.(failures := 0)
    else if Bump(b.successes) >= SUCCESS_THRESHOLD then b.(state := Closed, failures := 0, successes := 0)
    else b.(successes := Bump(b.successes))
  }

  function Failed(c: Config, b: Breaker, now: nat): Breaker {
    var failures := Bump(b.failures);
    if failures >= c.threshold || b.state.HalfOpen? then Breaker(Open, failures, 0, Some(now))
    else b.(failures := failures, last := Some(now))
  }

  class CircuitBreaker {
    var state: State
    var failureCount: nat
    var successCount: nat
    var lastFailureAt: Option<nat>
    const failureThreshold: nat
    const openDuration: nat

    constructor (failureThreshold: nat, openDuration: nat)
      ensures this.failureThreshold == failureThreshold && this.openDuration == openDuration
      ensures Abstract() == Fresh
    {
      this.failureThreshold, this.openDuration := failureThreshold, openDuration;
      state, failureCount, successCount, lastFailureAt := Closed, 0, 0, None;
    }

    function Abstract(): Breaker
      reads this
    {
      Breaker(state, failureCount, successCount, lastFailureAt)
    }

    function Settings(): Config {
      Config(failureThreshold, openDuration)
    }

    /** Before a request; `ok` is false when the breaker fails fast. */
    method Check(now: nat) returns (ok: bool)
      modifies this
      ensures Abstract() == Checked(Settings(), old(Abstract()), now)
      ensures ok == Passes(Settings(), old(Abstract()), now)
    {
      match state {
        case Open =>
          if lastFailureAt.Some? && Elapsed(lastFailureAt.value, now) >= openDuration {
            state := HalfOpen;
            return true;
          }
          return false;
        case _ => return true;
      }
    }

    method OnSuccess()
      modifies this
      ensures Abstract() == Succeeded(old(Abstract()))
    {
      match state {
        case HalfOpen =>
          successCount := Bump(successCount);
          if successCount >= SUCCESS_THRESHOLD {
            state := Closed;
            failureCount := 0;
            successCount := 0;
          }
        case _ => failureCount := 0;
      }
    }

    method OnFailure(now: nat)
      modifies this
      ensures Abstract() == Failed(Settings(), old(Abstract()), now)
    {
      failureCount := Bump(failureCount);
      lastFailureAt := Some(now);
      if failureCount >= failureThreshold || state == HalfOpen {
        state := Open;
        successCount := 0;
      }
    }
  }

  datatype Event = Check(now: nat) | Success | Failure(now: nat)

  function Next(c: Config, b: Breaker, e: Event): Breaker {
    match e
    case Check(now) => Checked(c, b, now)
    case Success => Succeeded(b)
    case Failure(now) => Failed(c, b, now)
  }

  function Run(c: Config, b: Breaker, events: seq<Event>): Breaker {
    if events == [] then b else Next(c, Run(c, b, events[..|events| - 1]), events[|events| - 1])
  }

  /** The failures after the last success. */
  function FailuresInARow(events: seq<Event>): nat {
    if events == [] then 0
    else
      var before := FailuresInARow(events[..|events| - 1]);
      match events[|events| - 1]
      case Check(_) => before
      case Success => 0
      case Failure(_) => before + 1
  }

  /** The successes after the last failure. */
  function SuccessesInARow(events: seq<Event>): nat {
    if events == [] then 0
    else
      var before := SuccessesInARow(events[..|events| - 1]);
      match events[|events| - 1]
      case Check(_) => before
      case Success => before + 1
      case Failure(_) => 0
  }

  function LastFailure(events: seq<Event>): Option<nat> {
    if events == [] then None
    else match events[|events| - 1]
      case Failure(now) => Some(now)
      case _ => LastFailure(events[..|events| - 1])
  }

  predicate Usable(c: Config) {
    1 <= c.threshold < COUNTER_RANGE
  }

  /** What the breaker knows about the calls so far, state by state. */
  lemma {:induction false} StateReflectsHistory(c: Config, events: seq<Event>)
    requires Usable(c)
    ensures var b := Run(c, Fresh, events);
            && b.last == LastFailure(events)
            && (b.state.Closed? ==> b.successes == 0 && b.failures == FailuresInARow(events) < c.threshold)
            && (b.state.Open? ==> b.successes == 0 && b.last.Some?)
            && (b.state.HalfOpen? ==> b.last.Some? && b.successes < SUCCESS_THRESHOLD && b.successes <= SuccessesInARow(events))
  {
    if events != [] {
      StateReflectsHistory(c, events[..|events| - 1]);
    }
  }

  /** A closed breaker opens exactly on the failure that completes `threshold` failures in a row. */
  lemma TripsExactlyOnThreshold(c: Config, events: seq<Event>, e: Event)
    requires Usable(c) && Run(c, Fresh, events).state.Closed?
    ensures !Run(c, Fresh, events + [e]).state.Closed? <==> e.Failure? && FailuresInARow(events + [e]) == c.threshold
    ensures !Run(c, Fresh, events + [e]).state.HalfOpen?
  {
    StateReflectsHistory(c, events);
    assert (events + [e])[..|events|] == events;
  }

  /** It closes again only while probing, on a success that is at least the second since the last failure. */
  lemma RecloseNeedsTwoSuccesses(c: Config, events: seq<Event>, e: Event)
    requires Usable(c) && !Run(c, Fresh, events).state.Closed? && Run(c, Fresh, events + [e]).state.Closed?
    ensures Run(c, Fresh, events).state.HalfOpen? && e.Success? && SuccessesInARow(events + [e]) >= 2
  {
    StateReflectsHistory(c, events);
    assert (events + [e])[..|events|] == events;
  }

  /** An open breaker turns calls away exactly until `openFor` after the last failure, and probes from then on. */
  lemma {:induction false} FailsFastForOpenDuration(c: Config, events: seq<Event>, now: nat)
    requires Usable(c) && Run(c, Fresh, events).state.Open?
    ensures LastFailure(events).Some?
    ensures var b := Run(c, Fresh, events);
            Passes(c, b, now) <==> now >= LastFailure(events).value + c.openFor || c.openFor == 0
    ensures var b := Run(c, Fresh, events);
            Passes(c, b, now) <==> Run(c, Fresh, events + [Check(now)]).state.HalfOpen?
  {
    StateReflectsHistory(c, events);
    assert (events + [Check(now)])[..|events|] == events;
  }

  /** A breaker that is not open lets every call through and stays as it is. */
  lemma OnlyOpenTurnsAway(c: Config, b: Breaker, now: nat)
    ensures !b.state.Open? ==> Passes(c, b, now) && Checked(c, b, now) == b
    ensures b.state.Open? ==> Checked(c, b, now).(state := Open) == b && (Passes(c, b, now) <==> Checked(c, b, now).state.HalfOpen?)
  {
  }

  /** From the moment it probes: two successes close it, a failure before that opens it, whatever else is checked. */
  lemma {:induction false} ProbingEndsEitherWay(c: Config, b: Breaker, events: seq<Event>, now: nat)
    requires b.state.HalfOpen? && b.successes == 0
    requires forall e | e in events :: !e.Failure?
    ensures var n := SuccessesInARow(events);
            && (n < 2 ==> Run(c, b, events) == b.(successes := n))
            && (n < 2 ==> Run(c, b, events + [Failure(now)]).state.Open?)
            && (n >= 2 ==> Run(c, b, events).state.Closed?)
  {
    assert (events + [Failure(now)])[..|events|] == events;
    if events != [] {
      ProbingEndsEitherWay(c, b, events[..|events| - 1], now);
    }
  }

  // ---- all interleavings ----

  /** Where a caller stands inside `check`, `on_success` or `on_failure`; each constructor names the next atomic step. */
  datatype Pc =
    | Idle
    | Answered(ok: bool)
    | ReadLast
    | StoreHalfOpen
    | AddSuccess
    | StoreClosed
    | ClearFailures
    | ClearSuccesses
    | ForgetFailures
    | ReadClock(failures: nat)
    | StoreLast(failures: nat, at: nat)
    | Decide(failures: nat)
    | StoreOpen
    | ClearProbe

  /** `begun` counts the increments of the failure counter so far, `succeeding` the calls of `on_success`. */
  datatype World = World(b: Breaker, pcs: map<nat, Pc>, begun: nat, succeeding: nat)

  datatype Step = StartCheck(caller: nat) | StartSuccess(caller: nat) | StartFailure(caller: nat) | Advance(caller: nat, now: nat)

  function At(w: World, caller: nat): Pc {
    if caller in w.pcs then w.pcs[caller] else Idle
  }

  predicate Ready(pc: Pc) {
    pc.Idle? || pc.Answered?
  }

  /** A check that found the breaker open and has not answered yet. */
  predicate InCheck(pc: Pc) {
    pc.ReadLast? || pc.StoreHalfOpen?
  }

  function Moved(w: World, caller: nat, b: Breaker, pc: Pc): World {
    w.(b := b, pcs := w.pcs[caller := pc])
  }

  /** The next atomic step of a caller that is inside a call. */
  function Advanced(c: Config, w: World, caller: nat, now: nat): World {
    var b := w.b;
    match At(w, caller)
    case Idle => w
    case Answered(_) => w
    case ReadLast => Moved(w, caller, b, if Due(c, b, now) then StoreHalfOpen else Answered(false))
    case StoreHalfOpen => Moved(w, caller, b.(state := HalfOpen), Answered(true))
    case AddSuccess =>
      Moved(w, caller, b.(successes := Bump(b.successes)), if Bump(b.successes) >= SUCCESS_THRESHOLD then StoreClosed else Idle)
    case StoreClosed => Moved(w, caller, b.(state := Closed), ClearFailures)
    case ClearFailures => Moved(w, caller, b.(failures := 0), ClearSuccesses)
    case ClearSuccesses => Moved(w, caller, b.(successes := 0), Idle)
    case ForgetFailures => Moved(w, caller, b.(failures := 0), Idle)
    case ReadClock(failures) => Moved(w, caller, b, StoreLast(failures, now))
    case StoreLast(failures, at) => Moved(w, caller, b.(last := Some(at)), Decide(failures))
    case Decide(failures) => Moved(w, caller, b, if failures >= c.threshold || b.state.HalfOpen? then StoreOpen else Idle)
    case StoreOpen => Moved(w, caller, b.(state := Open), ClearProbe)
    case ClearProbe => Moved(w, caller, b.(successes := 0), Idle)
  }

  /** One atomic step of the system; a caller starts a call only when it is not in one. */
  function Apply(c: Config, w: World, step: Step): World {
    var b := w.b;
    match step
    case StartCheck(i) =>
      if Ready(At(w, i)) then Moved(w, i, b, if b.state.Open? then ReadLast else Answered(true)) else w
    case StartSuccess(i) =>
      if Ready(At(w, i))
      then Moved(w, i, b, if b.state.HalfOpen? then AddSuccess else ForgetFailures).(succeeding := w.succeeding + 1) else w
    case StartFailure(i) =>
      if Ready(At(w, i))
      then Moved(w, i, b.(failures := Bump(b.failures)), ReadClock(Bump(b.failures))).(begun := w.begun + 1) else w
    case Advance(i, now) => Advanced(c, w, i, now)
  }

  const Start := World(Fresh, map[], 0, 0)

  function Interleaving(c: Config, steps: seq<Step>): World {
    if steps == [] then Start else Apply(c, Interleaving(c, steps[..|steps| - 1]), steps[|steps| - 1])
  }

  /** A failure time is stored before any store of `Open` that it can cause, and so before any check that finds it open. */
  ghost predicate OpenIsDated(w: World) {
    && (w.b.state.Open? ==> w.b.last.Some?)
    && (forall i | i in w.pcs :: w.pcs[i].Decide? || w.pcs[i].StoreOpen? || InCheck(w.pcs[i]) ==> w.b.last.Some?)
  }

  lemma {:induction false} OpenIsAlwaysDated(c: Config, steps: seq<Step>)
    ensures OpenIsDated(Interleaving(c, steps))
  {
    if steps != [] {
      OpenIsAlwaysDated(c, steps[..|steps| - 1]);
      StepKeepsDated(c, Interleaving(c, steps[..|steps| - 1]), steps[|steps| - 1]);
    }
  }

  lemma StepKeepsDated(c: Config, w: World, step: Step)
    requires OpenIsDated(w)
    ensures OpenIsDated(Apply(c, w, step))
  {
  }

  /** A caller's remaining steps with nobody in between; no call takes more than five. */
  function Finished(c: Config, w: World, caller: nat, now: nat, fuel: nat): World
    decreases fuel
  {
    if fuel == 0 || Ready(At(w, caller)) then w else Finished(c, Advanced(c, w, caller, now), caller, now, fuel - 1)
  }

  /** One call from its first step to its last, uninterrupted. */
  function Alone(c: Config, w: World, start: Step, now: nat): World {
    Finished(c, Apply(c, w, start), start.caller, now, 5)
  }

  lemma {:induction false} FinishedLeavesOthers(c: Config, w: World, caller: nat, now: nat, fuel: nat, other: nat)
    requires caller != other
    ensures At(Finished(c, w, caller, now, fuel), other) == At(w, other)
    decreases fuel
  {
    if fuel > 0 && !Ready(At(w, caller)) {
      FinishedLeavesOthers(c, Advanced(c, w, caller, now), caller, now, fuel - 1, other);
    }
  }

  /** One more step of an uninterrupted call. */
  lemma Onward(c: Config, w: World, caller: nat, now: nat, fuel: nat) returns (w': World)
    requires fuel > 0
    ensures w' == if Ready(At(w, caller)) then w else Advanced(c, w, caller, now)
    ensures Finished(c, w, caller, now, fuel) == Finished(c, w', caller, now, fuel - 1)
  {
    w' := if Ready(At(w, caller)) then w else Advanced(c, w, caller, now);
  }

  lemma FiveSteps(c: Config, w: World, caller: nat, now: nat) returns (a: World, b: World, d: World, e: World, f: World)
    ensures a == if Ready(At(w, caller)) then w else Advanced(c, w, caller, now)
    ensures b == if Ready(At(a, caller)) then a else Advanced(c, a, caller, now)
    ensures d == if Ready(At(b, caller)) then b else Advanced(c, b, caller, now)
    ensures e == if Ready(At(d, caller)) then d else Advanced(c, d, caller, now)
    ensures f == if Ready(At(e, caller)) then e else Advanced(c, e, caller, now)
    ensures Finished(c, w, caller, now, 5) == f
  {
    hide Ready, At, Advanced, Finished;
    a := Onward(c, w, caller, now, 5);
    b := Onward(c, a, caller, now, 4);
    d := Onward(c, b, caller, now, 3);
    e := Onward(c, d, caller, now, 2);
    f := Onward(c, e, caller, now, 1);
    NothingLeft(c, f, caller, now);
  }

  lemma NothingLeft(c: Config, w: World, caller: nat, now: nat)
    ensures Finished(c, w, caller, now, 0) == w
  {
  }

  /** Uninterrupted, the atomic steps of each call add up to the sequential operation. */
  lemma CheckAlone(c: Config, w: World, caller: nat, now: nat)
    requires Ready(At(w, caller))
    ensures var w' := Alone(c, w, StartCheck(caller), now);
            w'.b == Checked(c, w.b, now) && At(w', caller) == Answered(Passes(c, w.b, now))
  {
  }

  lemma SuccessAlone(c: Config, w: World, caller: nat, now: nat)
    requires Ready(At(w, caller))
    ensures var w' := Alone(c, w, StartSuccess(caller), now);
            w'.b == Succeeded(w.b) && Ready(At(w', caller))
  {
    hide Finished;
    var _, _, _, _, _ := FiveSteps(c, Apply(c, w, StartSuccess(caller)), caller, now);
  }

  lemma FailureAlone(c: Config, w: World, caller: nat, now: nat)
    requires Ready(At(w, caller))
    ensures var w' := Alone(c, w, StartFailure(caller), now);
            w'.b == Failed(c, w.b, now) && Ready(At(w', caller))
  {
    hide Finished;
    var _, _, _, _, _ := FiveSteps(c, Apply(c, w, StartFailure(caller)), caller, now);
  }

  lemma OneMoreStep(c: Config, steps: seq<Step>, step: Step)
    ensures Interleaving(c, steps + [step]) == Apply(c, Interleaving(c, steps), step)
  {
    hide Apply;
    assert (steps + [step])[..|steps|] == steps;
  }

  /** Finishing a call uninterrupted is itself an interleaving. */
  lemma {:induction false} FinishedIsRun(c: Config, steps: seq<Step>, caller: nat, now: nat, fuel: nat) returns (more: seq<Step>)
    ensures Interleaving(c, steps + more) == Finished(c, Interleaving(c, steps), caller, now, fuel)
    decreases fuel
  {
    hide Interleaving, Advanced, Ready;
    if fuel == 0 || Ready(At(Interleaving(c, steps), caller)) {
      more := [];
      assert steps + more == steps;
    } else {
      var step := Advance(caller, now);
      OneMoreStep(c, steps, step);
      var rest := FinishedIsRun(c, steps + [step], caller, now, fuel - 1);
      more := [step] + rest;
      assert steps + more == (steps + [step]) + rest;
    }
  }

  lemma AloneIsRun(c: Config, steps: seq<Step>, start: Step, now: nat) returns (more: seq<Step>)
    ensures Interleaving(c, steps + more) == Alone(c, Interleaving(c, steps), start, now)
  {
    hide Interleaving, Apply, Finished;
    OneMoreStep(c, steps, start);
    var rest := FinishedIsRun(c, steps + [start], start.caller, now, 5);
    more := [start] + rest;
    assert steps + more == (steps + [start]) + rest;
  }

  /** No interleaving leaves the breaker stuck: open with a failure `openFor` ago, the run can go on so that it probes. */
  lemma OpenCanAlwaysProbe(c: Config, steps: seq<Step>, caller: nat, now: nat) returns (more: seq<Step>)
    requires var w := Interleaving(c, steps); w.b.state.Open? && Ready(At(w, caller))
    requires var w := Interleaving(c, steps); w.b.last.Some? ==> now >= w.b.last.value + c.openFor
    ensures Interleaving(c, steps + more) == Alone(c, Interleaving(c, steps), StartCheck(caller), now)
    ensures var w := Interleaving(c, steps + more); w.b.state.HalfOpen? && At(w, caller) == Answered(true)
  {
    OpenIsAlwaysDated(c, steps);
    CheckAlone(c, Interleaving(c, steps), caller, now);
    more := AloneIsRun(c, steps, StartCheck(caller), now);
  }

  // ---- checks that answer late ----

  /** A closed breaker is left only by a late check, to half-open, and by a failure that trips it. */
  lemma ClosedLeavesExactly(c: Config, w: World, step: Step)
    requires w.b.state.Closed?
    ensures Apply(c, w, step).b.state.HalfOpen? <==> step.Advance? && At(w, step.caller).StoreHalfOpen?
    ensures Apply(c, w, step).b.state.Open? <==> step.Advance? && At(w, step.caller).StoreOpen?
  {
  }

  /** Can some caller, by just finishing its call at some time, put the closed breaker back to half-open? */
  ghost predicate CanBeUndone(c: Config, w: World) {
    w.b.state.Closed? && exists i, now :: Finished(c, w, i, now, 5).b.state.HalfOpen?
  }

  lemma {:induction false} OutsideChecksNeverProbe(c: Config, w: World, caller: nat, now: nat, fuel: nat)
    requires !w.b.state.HalfOpen? && !InCheck(At(w, caller))
    ensures !Finished(c, w, caller, now, fuel).b.state.HalfOpen?
    decreases fuel
  {
    if fuel > 0 && !Ready(At(w, caller)) {
      OutsideChecksNeverProbe(c, Advanced(c, w, caller, now), caller, now, fuel - 1);
    }
  }

  lemma ChecksStillProbe(c: Config, w: World, caller: nat, now: nat)
    requires InCheck(At(w, caller)) && Due(c, w.b, now)
    ensures Finished(c, w, caller, now, 5).b.state.HalfOpen?
  {
    hide Finished;
    var w' := Onward(c, w, caller, now, 5);
    var w'' := Onward(c, w', caller, now, 4);
    AnsweredStays(c, w'', caller, now, 3);
    AnsweredStays(c, w', caller, now, 4);
  }

  lemma AnsweredStays(c: Config, w: World, caller: nat, now: nat, fuel: nat)
    ensures Ready(At(w, caller)) ==> Finished(c, w, caller, now, fuel) == w
  {
  }

  lemma FinishingProbesExactly(c: Config, w: World, caller: nat)
    requires w.b.state.Closed? && OpenIsDated(w)
    ensures (exists now :: Finished(c, w, caller, now, 5).b.state.HalfOpen?) <==> InCheck(At(w, caller))
  {
    hide Finished;
    if now: nat :| Finished(c, w, caller, now, 5).b.state.HalfOpen? {
      if !InCheck(At(w, caller)) {
        OutsideChecksNeverProbe(c, w, caller, now, 5);
      }
    }
    if InCheck(At(w, caller)) {
      ChecksStillProbe(c, w, caller, w.b.last.value + c.openFor);
    }
  }

  /** Step `n` of the run closes the breaker while a check that found it open has not answered. */
  ghost predicate ClosesOverCheck(c: Config, steps: seq<Step>, n: nat) {
    n < |steps| && steps[n].Advance?
    && var w := Interleaving(c, steps[..n]);
       At(w, steps[n].caller).StoreClosed? && exists i :: InCheck(At(w, i))
  }

  lemma EntersLate(c: Config, w: World, step: Step, i: nat)
    requires var w' := Apply(c, w, step); w'.b.state.Closed? && InCheck(At(w', i))
    ensures InCheck(At(w, i))
    ensures !w.b.state.Closed? ==> step.Advance? && At(w, step.caller).StoreClosed?
  {
  }

  lemma {:induction false} CheckAtLarge(c: Config, steps: seq<Step>, i: nat) returns (n: nat)
    requires var w := Interleaving(c, steps); w.b.state.Closed? && InCheck(At(w, i))
    ensures ClosesOverCheck(c, steps, n)
  {
    if steps != [] {
      var front, last := steps[..|steps| - 1], steps[|steps| - 1];
      assert Interleaving(c, steps) == Apply(c, Interleaving(c, front), last);
      hide Apply, Interleaving;
      EntersLate(c, Interleaving(c, front), last, i);
      if Interleaving(c, front).b.state.Closed? {
        n := CheckAtLarge(c, front, i);
        assert front[..n] == steps[..n] && front[n] == steps[n];
      } else {
        n := |steps| - 1;
      }
    }
  }

  lemma OverlapInPrefix(c: Config, steps: seq<Step>, n: nat, i: nat) returns (k: nat)
    requires n <= |steps|
    requires var w := Interleaving(c, steps[..n]); w.b.state.Closed? && InCheck(At(w, i))
    ensures ClosesOverCheck(c, steps, k)
  {
    hide Interleaving;
    k := CheckAtLarge(c, steps[..n], i);
    assert steps[..n][..k] == steps[..k] && steps[..n][k] == steps[k];
  }

  lemma UndoneMeansOverlap(c: Config, steps: seq<Step>, n: nat) returns (k: nat)
    requires n <= |steps| && CanBeUndone(c, Interleaving(c, steps[..n]))
    ensures ClosesOverCheck(c, steps, k)
  {
    hide Finished, Interleaving;
    var w := Interleaving(c, steps[..n]);
    var i: nat, now: nat :| Finished(c, w, i, now, 5).b.state.HalfOpen?;
    if !InCheck(At(w, i)) {
      OutsideChecksNeverProbe(c, w, i, now, 5);
    }
    k := OverlapInPrefix(c, steps, n, i);
  }

  /** A run has a moment at which a late check can undo a close exactly when one of its closes happened over a check in progress. */
  lemma LateChecksUndoExactly(c: Config, steps: seq<Step>)
    ensures (exists n :: 0 <= n <= |steps| && CanBeUndone(c, Interleaving(c, steps[..n])))
       <==> (exists n :: 0 <= n < |steps| && ClosesOverCheck(c, steps, n))
  {
    hide CanBeUndone, Interleaving;
    if n :| 0 <= n <= |steps| && CanBeUndone(c, Interleaving(c, steps[..n])) {
      var k := UndoneMeansOverlap(c, steps, n);
    }
    if n :| 0 <= n < |steps| && ClosesOverCheck(c, steps, n) {
      CloseOverCheckCanBeUndone(c, steps, n);
    }
  }

  lemma CloseOverCheckCanBeUndone(c: Config, steps: seq<Step>, n: nat)
    requires ClosesOverCheck(c, steps, n)
    ensures CanBeUndone(c, Interleaving(c, steps[..n + 1]))
  {
    hide Finished, Interleaving;
    var w := Interleaving(c, steps[..n]);
    var i :| InCheck(At(w, i));
    OneMoreStep(c, steps[..n], steps[n]);
    assert steps[..n] + [steps[n]] == steps[..n + 1];
    OpenIsAlwaysDated(c, steps[..n + 1]);
    FinishingProbesExactly(c, Interleaving(c, steps[..n + 1]), i);
    var now :| Finished(c, Interleaving(c, steps[..n + 1]), i, now, 5).b.state.HalfOpen?;
  }

  /** A closed breaker goes to half-open only in a run with such a close. */
  lemma LateStoreMeansOverlap(c: Config, steps: seq<Step>, n: nat) returns (k: nat)
    requires n < |steps|
    requires Interleaving(c, steps[..n]).b.state.Closed? && Interleaving(c, steps[..n + 1]).b.state.HalfOpen?
    ensures ClosesOverCheck(c, steps, k)
  {
    hide Interleaving, Apply;
    OneMoreStep(c, steps[..n], steps[n]);
    assert steps[..n] + [steps[n]] == steps[..n + 1];
    ClosedLeavesExactly(c, Interleaving(c, steps[..n]), steps[n]);
    k := OverlapInPrefix(c, steps, n, steps[n].caller);
  }

  lemma AloneLeavesOthers(c: Config, w: World, start: Step, now: nat, other: nat)
    requires other != start.caller
    ensures At(Alone(c, w, start, now), other) == At(w, other)
  {
    hide Finished;
    FinishedLeavesOthers(c, Apply(c, w, start), start.caller, now, 5, other);
  }

  function AfterFailures(c: Config, k: nat): Breaker {
    Breaker(if k == c.threshold then Open else Closed, k, 0, if k == 0 then None else Some(0))
  }

  lemma OneMoreFailure(c: Config, k: nat)
    requires Usable(c) && k < c.threshold
    ensures Failed(c, AfterFailures(c, k), 0) == AfterFailures(c, k + 1)
  {
  }

  lemma StartIsIdle(c: Config, caller: nat)
    requires Usable(c)
    ensures Interleaving(c, []).b == AfterFailures(c, 0) && Ready(At(Interleaving(c, []), caller))
  {
  }

  /** After `k` failures of one caller, at time 0, with nobody else about. */
  lemma {:induction false} FailuresInARun(c: Config, k: nat) returns (steps: seq<Step>)
    requires Usable(c) && k <= c.threshold
    ensures var w := Interleaving(c, steps); w.b == AfterFailures(c, k) && Ready(At(w, 0)) && Ready(At(w, 1))
  {
    hide Interleaving, Alone, At, AfterFailures, Failed, Ready, Usable;
    if k == 0 {
      steps := [];
      StartIsIdle(c, 0);
      StartIsIdle(c, 1);
    } else {
      var before := FailuresInARun(c, k - 1);
      OneMoreFailure(c, k - 1);
      var w := Interleaving(c, before);
      FailureAlone(c, w, 0, 0);
      AloneLeavesOthers(c, w, StartFailure(0), 0, 1);
      var more := AloneIsRun(c, before, StartFailure(0), 0);
      steps := before + more;
    }
  }

  /** From an open breaker: `late` reads the clock, `other` probes and closes, and then `late` stores its answer. */
  lemma LateCheckUndoesClose(c: Config, w: World, late: nat, other: nat, now: nat)
    requires w.b.state.Open? && Due(c, w.b, now) && w.b.successes == 0
    requires late != other && Ready(At(w, late)) && Ready(At(w, other))
    ensures var seen := Advanced(c, Apply(c, w, StartCheck(late)), late, now);
            var probing := Alone(c, seen, StartCheck(other), now);
            var closed := Alone(c, Alone(c, probing, StartSuccess(other), now), StartSuccess(other), now);
            closed.b.state.Closed? && Advanced(c, closed, late, now).b.state.HalfOpen?
  {
    hide Finished;
    var seen := Advanced(c, Apply(c, w, StartCheck(late)), late, now);
    CheckAlone(c, seen, other, now);
    FinishedLeavesOthers(c, Apply(c, seen, StartCheck(other)), other, now, 5, late);
    var probing := Alone(c, seen, StartCheck(other), now);
    SuccessAlone(c, probing, other, now);
    FinishedLeavesOthers(c, Apply(c, probing, StartSuccess(other)), other, now, 5, late);
    var once := Alone(c, probing, StartSuccess(other), now);
    SuccessAlone(c, once, other, now);
    FinishedLeavesOthers(c, Apply(c, once, StartSuccess(other)), other, now, 5, late);
  }

  lemma AdvanceStep(c: Config, w: World, caller: nat, now: nat)
    ensures Apply(c, w, Advance(caller, now)) == Advanced(c, w, caller, now)
  {
  }

  /** For every configuration a run from the start opens, closes, and is then put back to half-open by a late check. */
  lemma LateCheckHappens(c: Config) returns (steps: seq<Step>, late: Step, tripped: nat)
    requires Usable(c)
    ensures tripped <= |steps| && Interleaving(c, steps[..tripped]).b.state.Open?
    ensures Interleaving(c, steps).b.state.Closed? && Interleaving(c, steps + [late]).b.state.HalfOpen?
  {
    var open := FailuresInARun(c, c.threshold);
    hide Interleaving, Apply, Advanced, Alone, Ready;
    var w, now := Interleaving(c, open), c.openFor;
    LateCheckUndoesClose(c, w, 0, 1, now);
    OneMoreStep(c, open, StartCheck(0));
    late := Advance(0, now);
    AdvanceStep(c, Interleaving(c, open + [StartCheck(0)]), 0, now);
    OneMoreStep(c, open + [StartCheck(0)], late);
    var seen := open + [StartCheck(0)] + [late];
    var a := AloneIsRun(c, seen, StartCheck(1), now);
    var b := AloneIsRun(c, seen + a, StartSuccess(1), now);
    var d := AloneIsRun(c, seen + a + b, StartSuccess(1), now);
    steps, tripped := seen + a + b + d, |open|;
    assert steps[..tripped] == open;
    AdvanceStep(c, Interleaving(c, steps), 0, now);
    OneMoreStep(c, steps, late);
  }

  /** With fewer than `threshold` failures in all, no interleaving opens the breaker or turns a check away. */
  lemma FewFailuresNeverTrip(c: Config, steps: seq<Step>)
    requires c.threshold < COUNTER_RANGE && Interleaving(c, steps).begun < c.threshold
    ensures var w := Interleaving(c, steps);
            w.b.state.Closed? && forall i | i in w.pcs :: w.pcs[i] != Answered(false) && !w.pcs[i].StoreOpen?
  {
    NeverNearThreshold(c, steps);
  }

  lemma {:induction false} NeverNearThreshold(c: Config, steps: seq<Step>)
    requires c.threshold < COUNTER_RANGE && Interleaving(c, steps).begun < c.threshold
    ensures Calm(Interleaving(c, steps))
  {
    if steps != [] {
      var w, step := Interleaving(c, steps[..|steps| - 1]), steps[|steps| - 1];
      assert Interleaving(c, steps) == Apply(c, w, step);
      BegunGrows(c, w, step);
      NeverNearThreshold(c, steps[..|steps| - 1]);
      StepKeepsCalm(c, w, step);
    }
  }

  lemma BegunGrows(c: Config, w: World, step: Step)
    ensures w.begun <= Apply(c, w, step).begun
  {
  }

  lemma StepKeepsCalm(c: Config, w: World, step: Step)
    requires Calm(w) && c.threshold < COUNTER_RANGE && Apply(c, w, step).begun < c.threshold
    ensures Calm(Apply(c, w, step))
  {
  }

  ghost predicate Calm(w: World) {
    w.b.state.Closed? && w.b.failures <= w.begun && forall i | i in w.pcs :: Harmless(w.begun, w.pcs[i])
  }

  predicate Harmless(begun: nat, pc: Pc) {
    match pc
    case Idle => true
    case Answered(ok) => ok
    case ForgetFailures => true
    case ReadClock(failures) => failures <= begun
    case StoreLast(failures, _) => failures <= begun
    case Decide(failures) => failures <= begun
    case _ => false
  }

  predicate WillTrip(c: Config, pc: Pc) {
    match pc
    case ReadClock(failures) => failures >= c.threshold
    case StoreLast(failures, _) => failures >= c.threshold
    case Decide(failures) => failures >= c.threshold
    case StoreOpen => true
    case _ => false
  }

  /** With no success, `threshold` failures do open the breaker, however their steps interleave. */
  lemma {:induction false} EnoughFailuresTrip(c: Config, steps: seq<Step>)
    requires Usable(c) && Interleaving(c, steps).succeeding == 0
    ensures var w := Interleaving(c, steps);
            && (w.begun < c.threshold ==> w.b.failures == w.begun)
            && (w.begun >= c.threshold ==> !w.b.state.Closed? || exists i :: i in w.pcs && WillTrip(c, w.pcs[i]))
            && (w.begun >= c.threshold && (forall i | i in w.pcs :: Ready(w.pcs[i])) ==> !w.b.state.Closed?)
            && forall i | i in w.pcs :: !Succeeding(w.pcs[i])
  {
    if steps != [] {
      var w, step := Interleaving(c, steps[..|steps| - 1]), steps[|steps| - 1];
      EnoughFailuresTrip(c, steps[..|steps| - 1]);
      assert Interleaving(c, steps) == Apply(c, w, step);
      hide Interleaving;
      TripIsPending(c, w, step);
    }
  }

  predicate Succeeding(pc: Pc) {
    pc.AddSuccess? || pc.StoreClosed? || pc.ClearFailures? || pc.ClearSuccesses? || pc.ForgetFailures?
  }

  ghost predicate TripPending(c: Config, w: World) {
    !w.b.state.Closed? || exists i :: i in w.pcs && WillTrip(c, w.pcs[i])
  }

  lemma TripIsPending(c: Config, w: World, step: Step)
    requires Usable(c) && (forall i | i in w.pcs :: !Succeeding(w.pcs[i])) && Apply(c, w, step).succeeding == w.succeeding
    requires w.begun < c.threshold ==> w.b.failures == w.begun
    requires w.begun >= c.threshold ==> TripPending(c, w)
    ensures var w' := Apply(c, w, step);
            && (w'.begun < c.threshold ==> w'.b.failures == w'.begun)
            && (w'.begun >= c.threshold ==> TripPending(c, w'))
            && forall i | i in w'.pcs :: !Succeeding(w'.pcs[i])
  {
    var w' := Apply(c, w, step);
    var caller := step.caller;
    if w'.begun >= c.threshold && w'.b.state.Closed? {
      if w.begun < c.threshold {
        assert caller in w'.pcs && WillTrip(c, w'.pcs[caller]);
      } else {
        var i :| i in w.pcs && WillTrip(c, w.pcs[i]);
        assert i in w'.pcs && WillTrip(c, w'.pcs[i]);
      }
    }
  }
}
