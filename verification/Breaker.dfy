// The circuit breaker, and calls that are admitted in one of its states and
// report in another. Models src/llm_router/resilience.py.
module Breaker {
  import opened Wrappers

  datatype CircuitState = Closed | Open | HalfOpen

  // failure_threshold is at least 1 in every deployed configuration.
  datatype Config = Config(threshold: int, cooldown: real)

  datatype Circuit = Circuit(failures: nat, openedAt: Option<real>, trialInFlight: bool, halfOpen: bool)

  const FRESH := Circuit(0, None, false, false)

  function StateOf(cfg: Config, b: Circuit, now: real): CircuitState {
    if b.openedAt.None? then Closed
    else if b.halfOpen || now - b.openedAt.value >= cfg.cooldown then HalfOpen
    else Open
  }

  function RetryAfter(cfg: Config, b: Circuit, now: real): real {
    if b.openedAt.None? then 0.0
    else
      var left := cfg.cooldown - (now - b.openedAt.value);
      if left > 0.0 then left else 0.0
  }

  predicate Allows(cfg: Config, b: Circuit, now: real) {
    match StateOf(cfg, b, now)
    case Closed => true
    case Open => false
    case HalfOpen => !b.trialInFlight
  }

  function Admitted(cfg: Config, b: Circuit, now: real): Circuit {
    if Allows(cfg, b, now) && StateOf(cfg, b, now) == HalfOpen then b.(trialInFlight := true) else b
  }

  function Failed(cfg: Config, b: Circuit, now: real): Circuit {
    var counted := b.(failures := b.failures + 1, trialInFlight := false);
    if b.trialInFlight || counted.failures >= cfg.threshold
    then counted.(openedAt := Some(now), halfOpen := false)
    else counted
  }

  function Abandoned(b: Circuit): Circuit {
    b.(trialInFlight := false)
  }

  function Probed(b: Circuit): Circuit {
    if b.openedAt.Some? then b.(halfOpen := true) else b
  }

  class CircuitBreaker {
    const cfg: Config
    var failures: nat
    var openedAt: Option<real>
    var trialInFlight: bool
    var halfOpen: bool

    function Value(): Circuit
      reads this
    {
      Circuit(failures, openedAt, trialInFlight, halfOpen)
    }

    constructor (cfg: Config)
      ensures this.cfg == cfg && Value() == FRESH
    {
      this.cfg := cfg;
      failures, openedAt, trialInFlight, halfOpen := 0, None, false, false;
    }

    method Allow(now: real) returns (admitted: bool)
      modifies this
      ensures admitted <==> Allows(cfg, old(Value()), now)
      ensures Value() == Admitted(cfg, old(Value()), now)
    {
      var state := StateOf(cfg, Value(), now);
      if state == Closed {
        return true;
      }
      if state == Open || trialInFlight {
        return false;
      }
      trialInFlight := true;
      admitted := true;
    }

    method RecordSuccess()
      modifies this
      ensures Value() == FRESH
    {
      failures := 0;
      openedAt := None;
      halfOpen := false;
      trialInFlight := false;
    }

    method RecordFailure(now: real)
      modifies this
      ensures Value() == Failed(cfg, old(Value()), now)
    {
      failures := failures + 1;
      var failedTrial := trialInFlight;
      trialInFlight := false;
      if failedTrial || failures >= cfg.threshold {
        openedAt := Some(now);
        halfOpen := false;
      }
    }

    method AbandonTrial()
      modifies this
      ensures Value() == Abandoned(old(Value()))
    {
      trialInFlight := false;
    }

    method ProbeSucceeded()
      modifies this
      ensures Value() == Probed(old(Value()))
    {
      if openedAt.Some? {
        halfOpen := true;
      }
    }

    // Readiness: the engine must answer, and the circuit must not be open.
    method Healthy(engineAnswers: bool, now: real) returns (ready: bool)
      modifies this
      ensures ready == engineAnswers
      ensures Value() == if engineAnswers then Probed(old(Value())) else old(Value())
    {
      if !engineAnswers {
        return false;
      }
      ProbeSucceeded();
      ready := StateOf(cfg, Value(), now) != Open;
    }
  }

  // ------------------------------------------------------- interleaved calls

  type CallId = nat

  // How a call through the wrapped engine ends: it returns, the engine is
  // unavailable, or anything else interrupts it (cancellation included).
  datatype Outcome = Returned | Unavailable | Interrupted

  datatype Event =
    | Begin(id: CallId, now: real)
    | Finish(id: CallId, outcome: Outcome, now: real)
    | Probe

  // The circuit, the admitted calls that have not reported, and history:
  // which call set the trial flag, and how many verdicts came in while the
  // circuit was not closed from calls admitted while it was.
  datatype System = System(
    circuit: Circuit, normal: set<CallId>, trials: set<CallId>, holder: CallId, late: nat)

  const INITIAL := System(FRESH, {}, {}, 0, 0)

  function Verdict(cfg: Config, b: Circuit, outcome: Outcome, now: real): Circuit {
    match outcome
    case Returned => FRESH
    case Unavailable => Failed(cfg, b, now)
    case Interrupted => Abandoned(b)
  }

  predicate Enabled(s: System, e: Event) {
    match e
    case Begin(id, _) => id !in s.normal && id !in s.trials
    case Finish(id, _, _) => id in s.normal || id in s.trials
    case Probe => true
  }

  function Step(cfg: Config, s: System, e: Event): System
    requires Enabled(s, e)
  {
    match e
    case Begin(id, now) =>
      if !Allows(cfg, s.circuit, now) then s
      else if s.circuit.openedAt.None? then s.(normal := s.normal + {id})
      else s.(circuit := Admitted(cfg, s.circuit, now), trials := s.trials + {id}, holder := id)
    case Finish(id, outcome, now) =>
      s.(circuit := Verdict(cfg, s.circuit, outcome, now),
         normal := s.normal - {id}, trials := s.trials - {id},
         late := s.late + (if id in s.normal && s.circuit.openedAt.Some? then 1 else 0))
    case Probe => s.(circuit := Probed(s.circuit))
  }

  // The system after a trace, or None when an event of the trace cannot happen.
  function Run(cfg: Config, trace: seq<Event>): Option<System> {
    if trace == [] then Some(INITIAL)
    else
      var before := Run(cfg, trace[..|trace| - 1]);
      var last := trace[|trace| - 1];
      if before.Some? && Enabled(before.value, last) then Some(Step(cfg, before.value, last)) else None
  }

  // Failed calls since the last successful one, read off the trace alone.
  function FailuresSinceSuccess(trace: seq<Event>): nat {
    if trace == [] then 0
    else
      var last := trace[|trace| - 1];
      if last.Finish? && last.outcome == Returned then 0
      else FailuresSinceSuccess(trace[..|trace| - 1])
           + (if last.Finish? && last.outcome == Unavailable then 1 else 0)
  }

  function Flag(b: Circuit): nat {
    if b.trialInFlight then 1 else 0
  }

  predicate Consistent(cfg: Config, s: System) {
    && (s.circuit.openedAt.Some? <==> s.circuit.failures >= cfg.threshold)
    && (s.circuit.halfOpen ==> s.circuit.openedAt.Some?)
    && (s.circuit.trialInFlight ==> s.circuit.openedAt.Some? && s.holder in s.trials)
    && s.normal !! s.trials
    && |s.trials| <= Flag(s.circuit) + s.late
  }

  lemma StepConsistent(cfg: Config, s: System, e: Event)
    requires cfg.threshold >= 1 && Consistent(cfg, s) && Enabled(s, e)
    ensures Consistent(cfg, Step(cfg, s, e))
  {
    match e
    case Begin(id, now) =>
      assert |s.trials + {id}| == |s.trials| + 1;
    case Finish(id, outcome, now) =>
      FinishConsistent(cfg, s, id, outcome, now);
    case Probe =>
  }

  lemma FinishConsistent(cfg: Config, s: System, id: CallId, outcome: Outcome, now: real)
    requires cfg.threshold >= 1 && Consistent(cfg, s) && Enabled(s, Finish(id, outcome, now))
    ensures Consistent(cfg, Step(cfg, s, Finish(id, outcome, now)))
  {
    if id in s.trials {
      assert |s.trials - {id}| == |s.trials| - 1;
    } else {
      assert s.trials - {id} == s.trials;
    }
    match outcome {
      case Returned =>
      case Unavailable =>
      case Interrupted =>
    }
  }

  lemma {:induction false} RunConsistent(cfg: Config, trace: seq<Event>)
    requires cfg.threshold >= 1 && Run(cfg, trace).Some?
    ensures Consistent(cfg, Run(cfg, trace).value)
    ensures Run(cfg, trace).value.circuit.failures == FailuresSinceSuccess(trace)
  {
    if trace != [] {
      RunConsistent(cfg, trace[..|trace| - 1]);
      StepConsistent(cfg, Run(cfg, trace[..|trace| - 1]).value, trace[|trace| - 1]);
    }
  }

  /** The circuit is not closed exactly when the failures since the last success reach the threshold. */
  lemma OpenIffThresholdReached(cfg: Config, trace: seq<Event>, now: real)
    requires cfg.threshold >= 1 && Run(cfg, trace).Some?
    ensures StateOf(cfg, Run(cfg, trace).value.circuit, now) != Closed
       <==> FailuresSinceSuccess(trace) >= cfg.threshold
  {
    RunConsistent(cfg, trace);
  }

  /** Outstanding trials never exceed one plus the late verdicts of calls admitted while closed. */
  lemma TrialBound(cfg: Config, trace: seq<Event>)
    requires cfg.threshold >= 1 && Run(cfg, trace).Some?
    ensures |Run(cfg, trace).value.trials| <= 1 + Run(cfg, trace).value.late
  {
    RunConsistent(cfg, trace);
  }

  /** Without such a verdict there is at most one trial, outstanding exactly while its flag is set. */
  lemma SingleTrial(cfg: Config, trace: seq<Event>)
    requires cfg.threshold >= 1 && Run(cfg, trace).Some? && Run(cfg, trace).value.late == 0
    ensures var s := Run(cfg, trace).value;
      s.trials == if s.circuit.trialInFlight then {s.holder} else {}
  {
    RunConsistent(cfg, trace);
    var s := Run(cfg, trace).value;
    if s.circuit.trialInFlight {
      assert |s.trials - {s.holder}| == |s.trials| - 1;
      assert s.trials - {s.holder} == {};
    }
  }

  lemma RunPrefix(cfg: Config, trace: seq<Event>, front: seq<Event>, e: Event)
    requires Run(cfg, trace + (front + [e])).Some?
    ensures var before := Run(cfg, trace + front);
      before.Some? && Enabled(before.value, e) && Run(cfg, trace + (front + [e])) == Some(Step(cfg, before.value, e))
  {
    var all := trace + (front + [e]);
    assert all[..|all| - 1] == trace + front;
  }

  /** Closing is always a success; it is an outstanding trial's exactly when it adds no late
      verdict, and over a run without one it is the single trial's. */
  lemma OnlyATrialCloses(cfg: Config, trace: seq<Event>, e: Event)
    requires cfg.threshold >= 1 && Run(cfg, trace + [e]).Some?
    requires Run(cfg, trace).Some? && Run(cfg, trace).value.circuit.openedAt.Some?
    requires Run(cfg, trace + [e]).value.circuit.openedAt.None?
    ensures e.Finish? && e.outcome == Returned
    ensures var s := Run(cfg, trace).value;
      e.id in s.trials <==> Run(cfg, trace + [e]).value.late == s.late
    ensures Run(cfg, trace + [e]).value.late == 0 ==>
      var s := Run(cfg, trace).value;
      s.trials == {e.id} && s.circuit.trialInFlight && s.holder == e.id
  {
    hide Run;
    assert trace + ([] + [e]) == trace + [e] && trace + [] == trace;
    RunPrefix(cfg, trace, [], e);
    RunConsistent(cfg, trace);
    var s := Run(cfg, trace).value;
    assert e.Finish?;
    if s.late == 0 {
      SingleTrial(cfg, trace);
    }
  }

  /** A set trial flag always has its call outstanding, so a half-open circuit with no
      outstanding trial admits the next request: the circuit cannot wedge. */
  lemma NeverWedged(cfg: Config, trace: seq<Event>, now: real)
    requires cfg.threshold >= 1 && Run(cfg, trace).Some?
    ensures var s := Run(cfg, trace).value;
      && (s.circuit.trialInFlight ==> s.holder in s.trials)
      && (StateOf(cfg, s.circuit, now) == HalfOpen && s.trials == {} ==> Allows(cfg, s.circuit, now))
  {
    RunConsistent(cfg, trace);
  }

  /** Who is let through: after any trace a new call is admitted exactly when the circuit is
      closed, or its cooldown is over or was ended by a probe and no trial holds the slot;
      otherwise nothing changes. */
  lemma AdmittedExactlyWhen(cfg: Config, trace: seq<Event>, id: CallId, now: real)
    requires Run(cfg, trace).Some? && Run(cfg, trace + [Begin(id, now)]).Some?
    ensures var s, next := Run(cfg, trace).value, Run(cfg, trace + [Begin(id, now)]).value;
      var since := s.circuit.openedAt;
      var admitted := since.None?
        || ((s.circuit.halfOpen || now - since.value >= cfg.cooldown) && !s.circuit.trialInFlight);
      && (id in next.normal <==> admitted && since.None?)
      && (id in next.trials <==> admitted && since.Some?)
      && (next.circuit.trialInFlight <==> s.circuit.trialInFlight || id in next.trials)
      && (!admitted ==> next == s)
  {
    assert (trace + [Begin(id, now)])[..|trace|] == trace;
  }

  /** A probe is always possible: it makes an open circuit half-open whatever its cooldown, and
      changes nothing about a closed one or about the calls. */
  lemma ProbeEndsTheCooldown(cfg: Config, trace: seq<Event>, now: real)
    requires Run(cfg, trace).Some?
    ensures Run(cfg, trace + [Probe]).Some?
    ensures var s, next := Run(cfg, trace).value, Run(cfg, trace + [Probe]).value;
      && StateOf(cfg, next.circuit, now) == (if s.circuit.openedAt.None? then Closed else HalfOpen)
      && next == s.(circuit := s.circuit.(halfOpen := next.circuit.halfOpen))
      && (s.circuit.openedAt.None? ==> next == s)
  {
    assert (trace + [Probe])[..|trace|] == trace;
  }

  /** There is nothing to wait for exactly when the circuit is closed or its cooldown is over. */
  lemma NothingToWaitFor(cfg: Config, b: Circuit, now: real)
    ensures RetryAfter(cfg, b, now) >= 0.0
    ensures RetryAfter(cfg, b, now) == 0.0 <==> b.openedAt.None? || now - b.openedAt.value >= cfg.cooldown
  {
  }

  /** Any failure reported while the circuit is not closed restarts the whole cooldown. */
  lemma FailureRestartsCooldown(cfg: Config, trace: seq<Event>, id: CallId, now: real)
    requires cfg.threshold >= 1 && cfg.cooldown > 0.0
    requires Run(cfg, trace + [Finish(id, Unavailable, now)]).Some? && Run(cfg, trace).Some?
    requires Run(cfg, trace).value.circuit.openedAt.Some?
    ensures var b := Run(cfg, trace + [Finish(id, Unavailable, now)]).value.circuit;
      StateOf(cfg, b, now) == Open && RetryAfter(cfg, b, now) == cfg.cooldown
  {
    var e := Finish(id, Unavailable, now);
    assert (trace + [e])[..|trace + [e]| - 1] == trace;
    RunConsistent(cfg, trace);
  }

  /** An open circuit left alone turns half-open after exactly the advertised wait. */
  lemma RetryAfterIsExact(cfg: Config, b: Circuit, now: real, wait: real)
    requires StateOf(cfg, b, now) == Open && wait >= 0.0
    ensures RetryAfter(cfg, b, now) > 0.0
    ensures StateOf(cfg, b, now + wait) == HalfOpen <==> wait >= RetryAfter(cfg, b, now)
  {
  }

  lemma RunExtends(cfg: Config, trace: seq<Event>, s: System, e: Event, next: System)
    requires Run(cfg, trace) == Some(s) && Enabled(s, e) && Step(cfg, s, e) == next
    ensures Run(cfg, trace + [e]) == Some(next)
  {
    assert (trace + [e])[..|trace + [e]| - 1] == trace;
  }

  // ----------------------------------- calls that outlive the opening

  // Events in which no call succeeds.
  ghost predicate NoSuccess(more: seq<Event>) {
    forall e :: e in more ==> !(e.Finish? && e.outcome == Returned)
  }

  lemma NoSuccessSplit(a: seq<Event>, b: seq<Event>)
    ensures NoSuccess(a + b) <==> NoSuccess(a) && NoSuccess(b)
  {
    if NoSuccess(a + b) {
      forall e | e in a ensures e in a + b {}
      forall e | e in b ensures e in a + b {}
    }
  }

  // While no call succeeds an open circuit stays open, and no further call joins
  // those that were admitted while it was closed.
  lemma {:induction false} StaysOpen(cfg: Config, trace: seq<Event>, more: seq<Event>)
    requires Run(cfg, trace).Some? && Run(cfg, trace).value.circuit.openedAt.Some?
    requires NoSuccess(more) && Run(cfg, trace + more).Some?
    ensures var s, t := Run(cfg, trace).value, Run(cfg, trace + more).value;
      && t.circuit.openedAt.Some? && t.normal <= s.normal
      && (s.normal == {} ==> t.late == s.late)
  {
    hide Run;
    if more == [] {
      assert trace + more == trace;
    } else {
      var front, e := more[..|more| - 1], more[|more| - 1];
      assert more == front + [e];
      RunPrefix(cfg, trace, front, e);
      NoSuccessSplit(front, [e]);
      StaysOpen(cfg, trace, front);
      assert e in more;
    }
  }

  lemma {:induction false} FreshId(used: set<CallId>) returns (id: CallId)
    ensures forall u :: u in used ==> u < id
  {
    id := 0;
    if used != {} {
      var u :| u in used;
      var rest := FreshId(used - {u});
      id := if u < rest then rest else u + 1;
      assert forall v :: v in used ==> v == u || v in used - {u};
    }
  }

  // With the slot free, a new call becomes a trial once the cooldown is over.
  lemma TrialBegins(cfg: Config, trace: seq<Event>) returns (e: Event)
    requires Run(cfg, trace).Some?
    requires Run(cfg, trace).value.circuit.openedAt.Some? && !Run(cfg, trace).value.circuit.trialInFlight
    ensures NoSuccess([e]) && Run(cfg, trace + [e]).Some?
    ensures var s, t := Run(cfg, trace).value, Run(cfg, trace + [e]).value;
      && t.circuit == s.circuit.(trialInFlight := true) && t.normal == s.normal && t.late == s.late
      && |t.trials| == |s.trials| + 1
  {
    var s := Run(cfg, trace).value;
    var id := FreshId(s.normal + s.trials);
    assert id !in s.normal + s.trials;
    var now := s.circuit.openedAt.value + (if cfg.cooldown > 0.0 then cfg.cooldown else 0.0);
    assert now - s.circuit.openedAt.value >= cfg.cooldown;
    e := Begin(id, now);
    RunExtends(cfg, trace, s, e, Step(cfg, s, e));
    assert |s.trials + {id}| == |s.trials| + 1;
  }

  // A call admitted while closed is cancelled: the slot is free, though no trial ended.
  lemma SlotIsFreed(cfg: Config, trace: seq<Event>, id: CallId) returns (e: Event)
    requires Run(cfg, trace).Some? && id in Run(cfg, trace).value.normal && id !in Run(cfg, trace).value.trials
    requires Run(cfg, trace).value.circuit.openedAt.Some?
    ensures NoSuccess([e]) && Run(cfg, trace + [e]).Some?
    ensures var s, t := Run(cfg, trace).value, Run(cfg, trace + [e]).value;
      && t.circuit == s.circuit.(trialInFlight := false)
      && t.normal == s.normal - {id} && t.trials == s.trials && t.late == s.late + 1
  {
    var s := Run(cfg, trace).value;
    e := Finish(id, Interrupted, 0.0);
    RunExtends(cfg, trace, s, e, Step(cfg, s, e));
    assert s.trials - {id} == s.trials;
  }

  // Each call that outlived the opening can be turned into one more outstanding trial.
  lemma {:induction false} TrialsPileUp(cfg: Config, trace: seq<Event>, n: nat) returns (more: seq<Event>)
    requires cfg.threshold >= 1 && Run(cfg, trace).Some? && Run(cfg, trace).value.circuit.openedAt.Some?
    requires !Run(cfg, trace).value.circuit.trialInFlight && n <= |Run(cfg, trace).value.normal|
    ensures NoSuccess(more) && Run(cfg, trace + more).Some?
    ensures var s, t := Run(cfg, trace).value, Run(cfg, trace + more).value;
      t.late == s.late + n && |t.trials| == |s.trials| + n + 1 && t.circuit.openedAt.Some?
    decreases n
  {
    hide Run, Step, Enabled;
    var e := TrialBegins(cfg, trace);
    if n == 0 {
      more := [e];
    } else {
      var s := Run(cfg, trace).value;
      var id :| id in s.normal;
      RunConsistent(cfg, trace + [e]);
      var f := SlotIsFreed(cfg, trace + [e], id);
      assert |s.normal - {id}| == |s.normal| - 1;
      var rest := TrialsPileUp(cfg, trace + [e] + [f], n - 1);
      more := [e] + [f] + rest;
      NoSuccessSplit([e] + [f], rest);
      NoSuccessSplit([e], [f]);
      assert trace + [e] + [f] + rest == trace + more;
    }
  }

  /** When a second trial can arise: while no late verdict has come in, an open circuit can
      reach two outstanding trials without a success in between if and only if a call
      admitted while it was closed is still outstanding. */
  lemma SecondTrialIff(cfg: Config, trace: seq<Event>)
    requires cfg.threshold >= 1 && Run(cfg, trace).Some?
    requires Run(cfg, trace).value.circuit.openedAt.Some? && Run(cfg, trace).value.late == 0
    ensures (exists more ::
              NoSuccess(more) && Run(cfg, trace + more).Some? && |Run(cfg, trace + more).value.trials| >= 2)
       <==> Run(cfg, trace).value.normal != {}
  {
    hide Run, Step, Enabled;
    var s := Run(cfg, trace).value;
    if s.normal == {} {
      forall more | NoSuccess(more) && Run(cfg, trace + more).Some? ensures |Run(cfg, trace + more).value.trials| <= 1 {
        StaysOpen(cfg, trace, more);
        TrialBound(cfg, trace + more);
      }
    } else {
      var id :| id in s.normal;
      assert |s.normal| >= 1 by { assert s.normal != {}; }
      if s.circuit.trialInFlight {
        RunConsistent(cfg, trace);
        SingleTrial(cfg, trace);
        var e := SlotIsFreed(cfg, trace, id);
        var more := TrialsPileUp(cfg, trace + [e], 0);
        NoSuccessSplit([e], more);
        assert trace + [e] + more == trace + ([e] + more);
      } else {
        var more := TrialsPileUp(cfg, trace, 1);
      }
    }
  }

  // After these events the circuit is still open, and the success of a call that is
  // not an outstanding trial closes it.
  ghost predicate ClosedByAnother(cfg: Config, trace: seq<Event>, more: seq<Event>, e: Event) {
    && NoSuccess(more) && Run(cfg, trace + more).Some?
    && var s := Run(cfg, trace + more).value;
    && s.circuit.openedAt.Some? && Enabled(s, e) && Step(cfg, s, e).circuit.openedAt.None?
    && (e.Finish? ==> e.id !in s.trials)
  }

  /** When something other than a trial can close it: under the same condition, on every
      reachable state of an open circuit. */
  lemma AnotherClosesIff(cfg: Config, trace: seq<Event>)
    requires Run(cfg, trace).Some? && Run(cfg, trace).value.circuit.openedAt.Some?
    requires cfg.threshold >= 1
    ensures (exists more, e :: ClosedByAnother(cfg, trace, more, e)) <==> Run(cfg, trace).value.normal != {}
  {
    hide Run;
    var s := Run(cfg, trace).value;
    if id :| id in s.normal {
      RunConsistent(cfg, trace);
      assert trace + [] == trace;
      assert ClosedByAnother(cfg, trace, [], Finish(id, Returned, 0.0));
    }
    forall more, e | ClosedByAnother(cfg, trace, more, e) ensures s.normal != {} {
      StaysOpen(cfg, trace, more);
      assert e.Finish? && e.id in Run(cfg, trace + more).value.normal;
    }
  }

  // ------------------------------------------------ both happen, for every threshold

  function Beginnings(n: nat): seq<Event> {
    if n == 0 then [] else Beginnings(n - 1) + [Begin(n - 1, 0.0)]
  }

  // After n calls began, one more that begins and fails, again and again.
  function Failing(n: nat, k: nat): seq<Event> {
    if k == 0 then Beginnings(n) else Failing(n, k - 1) + [Begin(n, 0.0)] + [Finish(n, Unavailable, 0.0)]
  }

  // The first n calls are outstanding, and k failures have been counted.
  predicate FailedTimes(cfg: Config, s: System, n: nat, k: nat) {
    && s.circuit == Circuit(k, if k < cfg.threshold then None else Some(0.0), false, false)
    && |s.normal| == n && (forall id :: id in s.normal ==> id < n)
    && s.trials == {} && s.late == 0
  }

  lemma AnotherBegins(cfg: Config, s: System, id: CallId)
    requires cfg.threshold >= 1 && FailedTimes(cfg, s, id, 0)
    ensures Enabled(s, Begin(id, 0.0)) && FailedTimes(cfg, Step(cfg, s, Begin(id, 0.0)), id + 1, 0)
  {
    assert |s.normal + {id}| == |s.normal| + 1;
  }

  lemma {:induction false} BeginningsRun(cfg: Config, n: nat)
    requires cfg.threshold >= 1
    ensures Run(cfg, Beginnings(n)).Some? && FailedTimes(cfg, Run(cfg, Beginnings(n)).value, n, 0)
  {
    if n > 0 {
      var before, id := Beginnings(n - 1), n - 1;
      BeginningsRun(cfg, id);
      var s := Run(cfg, before).value;
      AnotherBegins(cfg, s, id);
      hide Run, FailedTimes, Step, Enabled;
      RunExtends(cfg, before, s, Begin(id, 0.0), Step(cfg, s, Begin(id, 0.0)));
    }
  }

  lemma {:induction false} FailingRun(cfg: Config, n: nat, k: nat)
    requires cfg.threshold >= 1 && cfg.threshold >= k
    ensures Run(cfg, Failing(n, k)).Some? && FailedTimes(cfg, Run(cfg, Failing(n, k)).value, n, k)
  {
    hide Run;
    if k == 0 {
      BeginningsRun(cfg, n);
    } else {
      FailingRun(cfg, n, k - 1);
      var s := Run(cfg, Failing(n, k - 1)).value;
      var begun := s.(normal := s.normal + {n});
      var failed := s.(circuit := Failed(cfg, s.circuit, 0.0));
      assert begun.normal - {n} == s.normal && begun.trials - {n} == s.trials;
      RunExtends(cfg, Failing(n, k - 1), s, Begin(n, 0.0), begun);
      RunExtends(cfg, Failing(n, k - 1) + [Begin(n, 0.0)], begun, Finish(n, Unavailable, 0.0), failed);
    }
  }

  /** The bound is reached: for every threshold and every n there is a trace with n late
      verdicts and n + 1 trials outstanding at once. */
  lemma TrialBoundIsReached(cfg: Config, n: nat) returns (trace: seq<Event>)
    requires cfg.threshold >= 1
    ensures Run(cfg, trace).Some? && Run(cfg, trace).value.late == n && |Run(cfg, trace).value.trials| == n + 1
  {
    hide Run, Step, Failing;
    trace := Failing(n, cfg.threshold);
    FailingRun(cfg, n, cfg.threshold);
    var more := TrialsPileUp(cfg, trace, n);
    trace := trace + more;
  }

  /** The qualification of a single trial is needed at every threshold: one late verdict
      can leave two trials outstanding. */
  lemma TwoTrialsArePossible(cfg: Config) returns (trace: seq<Event>)
    requires cfg.threshold >= 1
    ensures Run(cfg, trace).Some? && Run(cfg, trace).value.late == 1 && |Run(cfg, trace).value.trials| == 2
  {
    trace := TrialBoundIsReached(cfg, 1);
  }

  /** And for every threshold a call that outlived the opening can close the circuit though
      no trial was ever made. */
  lemma LateSuccessCloses(cfg: Config) returns (trace: seq<Event>, e: Event)
    requires cfg.threshold >= 1
    ensures Run(cfg, trace).Some? && Run(cfg, trace + [e]).Some?
    ensures Run(cfg, trace).value.circuit.openedAt.Some? && Run(cfg, trace).value.trials == {}
    ensures NoSuccess(trace) && Run(cfg, trace + [e]).value.circuit.openedAt.None?
  {
    trace := Failing(1, cfg.threshold);
    FailingRun(cfg, 1, cfg.threshold);
    FailingIsNoSuccess(1, cfg.threshold);
    var s := Run(cfg, trace).value;
    hide Run, Failing;
    assert s.normal != {};
    var id :| id in s.normal;
    e := Finish(id, Returned, 0.0);
    RunExtends(cfg, trace, s, e, Step(cfg, s, e));
  }

  lemma {:induction false} FailingIsNoSuccess(n: nat, k: nat)
    ensures NoSuccess(Failing(n, k))
  {
    if k > 0 {
      FailingIsNoSuccess(n, k - 1);
      NoSuccessSplit(Failing(n, k - 1), [Begin(n, 0.0)]);
      NoSuccessSplit(Failing(n, k - 1) + [Begin(n, 0.0)], [Finish(n, Unavailable, 0.0)]);
    } else if n > 0 {
      FailingIsNoSuccess(n - 1, 0);
      NoSuccessSplit(Beginnings(n - 1), [Begin(n - 1, 0.0)]);
    }
  }
}
