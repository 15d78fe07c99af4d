// The canary rule and the per-replica monitor that suspends a failing adapter.
// Models src/llm_router/canary.py; the hash that assigns a request to an arm
// is a parameter.
module Canary {
  import opened Wrappers
  import Percentile

  const LATENCY_WINDOW := 1000

  datatype Criteria = Criteria(
    maxErrorRate: real, maxP95Latency: real, minQuality: real, minRequests: nat, minSample: nat)

  datatype Observation = Observation(
    ready: bool, requests: nat, errors: nat, p95Latency: Option<real>, quality: Option<real>)
  {
    function ErrorRate(): real {
      if requests == 0 then 0.0 else errors as real / requests as real
    }
  }

  datatype Verdict = Promote | Hold | Rollback

  datatype Reason = NotReady | ErrorRateAbove | LatencyAbove | QualityBelow | RequestsMissing

  datatype Decision = Decision(action: Verdict, reasons: seq<Reason>)

  // The stable arm counts as a control once it has a sample of its own.
  function Control(criteria: Criteria, baseline: Option<Observation>): Option<Observation> {
    if baseline.Some? && baseline.value.requests >= criteria.minSample then baseline else None
  }

  predicate ErrorsFail(criteria: Criteria, observed: Observation, control: Option<Observation>) {
    && observed.ErrorRate() > criteria.maxErrorRate
    && (control.None? || observed.ErrorRate() > control.value.ErrorRate())
  }

  predicate LatencyFails(criteria: Criteria, observed: Observation, control: Option<Observation>) {
    && observed.p95Latency.Some?
    && observed.p95Latency.value > criteria.maxP95Latency
    && (control.None? || control.value.p95Latency.None?
        || observed.p95Latency.value > control.value.p95Latency.value)
  }

  predicate QualityFails(criteria: Criteria, observed: Observation) {
    observed.quality.Some? && observed.quality.value < criteria.minQuality
  }

  function Evaluate(criteria: Criteria, observed: Observation, baseline: Option<Observation>): Decision {
    if !observed.ready then Decision(Rollback, [NotReady])
    else
      var control := Control(criteria, baseline);
      var reasons :=
        if observed.requests >= criteria.minSample then
          (if ErrorsFail(criteria, observed, control) then [ErrorRateAbove] else [])
          + (if LatencyFails(criteria, observed, control) then [LatencyAbove] else [])
          + (if QualityFails(criteria, observed) then [QualityBelow] else [])
        else [];
      if reasons != [] then Decision(Rollback, reasons)
      else if observed.requests < criteria.minRequests then Decision(Hold, [RequestsMissing])
      else Decision(Promote, [])
  }

  /** An outage that a trusted control shares is never blamed on the canary. */
  lemma SharedOutageIsNotBlamed(criteria: Criteria, observed: Observation, control: Observation)
    requires observed.ready && !QualityFails(criteria, observed)
    requires control.requests >= criteria.minSample
    requires observed.ErrorRate() <= control.ErrorRate()
    requires observed.p95Latency.Some? ==>
      control.p95Latency.Some? && observed.p95Latency.value <= control.p95Latency.value
    ensures Evaluate(criteria, observed, Some(control)).action != Rollback
  {
  }

  // What promotion should mean: enough requests, the quality floor, and no excess of
  // errors or latency that a control with a sample of its own does not share.
  predicate Met(criteria: Criteria, observed: Observation, baseline: Option<Observation>) {
    var trusted := baseline.Some? && baseline.value.requests >= criteria.minSample;
    && observed.ready && observed.requests >= criteria.minRequests
    && (observed.quality.Some? ==> observed.quality.value >= criteria.minQuality)
    && (observed.ErrorRate() > criteria.maxErrorRate ==>
      trusted && baseline.value.ErrorRate() >= observed.ErrorRate())
    && (observed.p95Latency.Some? && observed.p95Latency.value > criteria.maxP95Latency ==>
      && trusted && baseline.value.p95Latency.Some?
      && baseline.value.p95Latency.value >= observed.p95Latency.value)
  }

  /** With min_requests at least min_sample, a canary is ready to promote only on a full
      sample, and every criterion it misses is one its trusted control misses at least as badly. */
  lemma PromoteMeansMet(criteria: Criteria, observed: Observation, baseline: Option<Observation>)
    requires criteria.minRequests >= criteria.minSample
    requires Evaluate(criteria, observed, baseline).action == Promote
    ensures Met(criteria, observed, baseline)
  {
  }

  /** Below it a canary can be promoted with every request failed. */
  lemma PromoteWithoutASample(criteria: Criteria, baseline: Option<Observation>)
    requires criteria.minRequests < criteria.minSample
    ensures var failing := Observation(true, criteria.minRequests, criteria.minRequests, None, Some(0.0));
      Evaluate(criteria, failing, baseline).action == Promote
  {
  }

  /** The condition is exact: promotion always means that the criteria are met if and only
      if min_requests is at least min_sample, whatever the other settings. */
  lemma PromoteMeansMetIff(criteria: Criteria)
    ensures (forall o, b :: Evaluate(criteria, o, b).action == Promote ==> Met(criteria, o, b))
       <==> criteria.minRequests >= criteria.minSample
  {
    if criteria.minRequests >= criteria.minSample {
      forall o, b | Evaluate(criteria, o, b).action == Promote ensures Met(criteria, o, b) {
        PromoteMeansMet(criteria, o, b);
      }
    } else {
      var slow := Observation(true, criteria.minRequests, 0, Some(criteria.maxP95Latency + 1.0), None);
      assert Evaluate(criteria, slow, None).action == Promote && !Met(criteria, slow, None);
    }
  }

  // --------------------------------------------------------------------- arms

  datatype Outcome = Outcome(subject: string, canary: bool, ok: bool, latency: real, quality: Option<real>)

  datatype Tally = Tally(
    requests: nat, errors: nat, latencies: seq<real>, qualityTotal: real, qualitySamples: nat)

  // A deque that keeps only its last thousand entries.
  function Pushed(latencies: seq<real>, latency: real): seq<real> {
    var grown := latencies + [latency];
    if |grown| > LATENCY_WINDOW then grown[1..] else grown
  }

  function Recorded(t: Tally, o: Outcome): Tally {
    Tally(
      t.requests + 1,
      t.errors + (if o.ok then 0 else 1),
      Pushed(t.latencies, o.latency),
      t.qualityTotal + (if o.quality.Some? then o.quality.value else 0.0),
      t.qualitySamples + (if o.quality.Some? then 1 else 0))
  }

  function Observed(t: Tally): Observation {
    Observation(
      true, t.requests, t.errors,
      if t.latencies == [] then None else Some(Percentile.P95(t.latencies)),
      if t.qualitySamples == 0 then None else Some(t.qualityTotal / t.qualitySamples as real))
  }

  // ------------------------------------- the whole history, summed up directly

  function Failures(history: seq<Outcome>): nat {
    if history == [] then 0
    else Failures(history[..|history| - 1]) + (if history[|history| - 1].ok then 0 else 1)
  }

  function QualitySum(history: seq<Outcome>): real {
    if history == [] then 0.0
    else
      var last := history[|history| - 1];
      QualitySum(history[..|history| - 1]) + (if last.quality.Some? then last.quality.value else 0.0)
  }

  function QualityCount(history: seq<Outcome>): nat {
    if history == [] then 0
    else QualityCount(history[..|history| - 1]) + (if history[|history| - 1].quality.Some? then 1 else 0)
  }

  function Latencies(history: seq<Outcome>): (r: seq<real>)
    ensures |r| == |history|
  {
    seq(|history|, i requires 0 <= i < |history| => history[i].latency)
  }

  function LastOf(s: seq<real>, n: nat): seq<real> {
    if |s| <= n then s else s[|s| - n..]
  }

  function Summary(history: seq<Outcome>): Tally {
    Tally(|history|, Failures(history), LastOf(Latencies(history), LATENCY_WINDOW),
          QualitySum(history), QualityCount(history))
  }

  /** Recording outcomes one by one keeps the summary of all of them: every count, and
      exactly the latencies of the last thousand. */
  lemma RecordKeepsSummary(history: seq<Outcome>, o: Outcome)
    ensures Summary(history + [o]) == Recorded(Summary(history), o)
  {
    var grown := history + [o];
    assert grown[..|grown| - 1] == history;
    assert Latencies(grown) == Latencies(history) + [o.latency];
  }

  // ------------------------------------------------------------------ monitor

  datatype Plan = Plan(criteria: Criteria, trafficPercent: nat)

  // The part of a trace that one arm of one subject recorded.
  function ArmOf(trace: seq<Outcome>, subject: string, canary: bool): seq<Outcome> {
    if trace == [] then []
    else
      var last := trace[|trace| - 1];
      ArmOf(trace[..|trace| - 1], subject, canary)
      + (if last.subject == subject && last.canary == canary then [last] else [])
  }

  function Judged(criteria: Criteria, trace: seq<Outcome>, subject: string): Decision {
    Evaluate(criteria, Observed(Summary(ArmOf(trace, subject, true))),
             Some(Observed(Summary(ArmOf(trace, subject, false)))))
  }

  // The first n records of a trace end in a canary record on which the whole
  // history so far calls for a rollback.
  predicate FailsAt(criteria: Criteria, trace: seq<Outcome>, subject: string, n: int) {
    && 0 < n <= |trace|
    && trace[n - 1].subject == subject && trace[n - 1].canary
    && Judged(criteria, trace[..n], subject).action == Rollback
  }

  ghost predicate FailedBy(criteria: Criteria, trace: seq<Outcome>, subject: string) {
    exists n :: FailsAt(criteria, trace, subject, n)
  }

  lemma ArmOfAppend(trace: seq<Outcome>, o: Outcome, subject: string, canary: bool)
    ensures ArmOf(trace + [o], subject, canary)
         == if o.subject == subject && o.canary == canary then ArmOf(trace, subject, canary) + [o]
            else ArmOf(trace, subject, canary)
  {
    assert (trace + [o])[..|trace + [o]| - 1] == trace;
  }

  lemma FailedByAppend(criteria: Criteria, trace: seq<Outcome>, o: Outcome, subject: string)
    ensures FailedBy(criteria, trace + [o], subject) <==>
      || FailedBy(criteria, trace, subject)
      || (o.subject == subject && o.canary && Judged(criteria, trace + [o], subject).action == Rollback)
  {
    hide Judged;
    var grown := trace + [o];
    forall n | 0 < n <= |trace| ensures grown[..n] == trace[..n] && grown[n - 1] == trace[n - 1] {
    }
    assert grown[..|grown|] == grown;
    if n :| FailsAt(criteria, trace, subject, n) { assert FailsAt(criteria, grown, subject, n); }
    if n :| FailsAt(criteria, grown, subject, n) {
      if n <= |trace| { assert FailsAt(criteria, trace, subject, n); }
    }
    assert o.subject == subject && o.canary && Judged(criteria, grown, subject).action == Rollback ==>
      FailsAt(criteria, grown, subject, |grown|);
  }

  class Arm {
    var requests: nat
    var errors: nat
    var latencies: seq<real>
    var qualityTotal: real
    var qualitySamples: nat

    function Value(): Tally
      reads this
    {
      Tally(requests, errors, latencies, qualityTotal, qualitySamples)
    }

    constructor ()
      ensures Value() == Summary([])
    {
      requests, errors, latencies, qualityTotal, qualitySamples := 0, 0, [], 0.0, 0;
    }

    method Record(ok: bool, latency: real, quality: Option<real>)
      modifies this
      ensures forall subject, canary ::
        Value() == Recorded(old(Value()), Outcome(subject, canary, ok, latency, quality))
    {
      requests := requests + 1;
      errors := errors + (if ok then 0 else 1);
      latencies := latencies + [latency];
      if |latencies| > LATENCY_WINDOW {
        latencies := latencies[1..];
      }
      if quality.Some? {
        qualityTotal := qualityTotal + quality.value;
        qualitySamples := qualitySamples + 1;
      }
    }
  }

  // The n-th record is the first on which the subject's history fails, for these reasons.
  ghost predicate FirstFailsAt(criteria: Criteria, trace: seq<Outcome>, subject: string, n: int, reasons: seq<Reason>) {
    && FailsAt(criteria, trace, subject, n)
    && !FailedBy(criteria, trace[..n - 1], subject)
    && reasons == Judged(criteria, trace[..n], subject).reasons
  }

  // The rolled-back subjects are exactly those whose history has failed, each held
  // with the reasons of its first failure.
  ghost predicate SuspendsFailed(plans: map<string, Plan>, rolledBack: map<string, seq<Reason>>, trace: seq<Outcome>) {
    && rolledBack.Keys <= plans.Keys
    && (forall s :: s in plans ==> (s in rolledBack <==> FailedBy(plans[s].criteria, trace, s)))
    && (forall s :: s in rolledBack ==> exists n :: FirstFailsAt(plans[s].criteria, trace, s, n, rolledBack[s]))
  }

  // Whether the monitor judges this record: a canary's, not yet rolled back.
  predicate Judges(plans: map<string, Plan>, rolledBack: map<string, seq<Reason>>, o: Outcome) {
    o.subject in plans && o.canary && o.subject !in rolledBack
  }

  lemma FirstFailureStays(
      criteria: Criteria, trace: seq<Outcome>, o: Outcome, subject: string, n: int, reasons: seq<Reason>)
    requires FirstFailsAt(criteria, trace, subject, n, reasons)
    ensures FirstFailsAt(criteria, trace + [o], subject, n, reasons)
  {
    hide Judged, FailedBy;
    assert (trace + [o])[..n] == trace[..n] && (trace + [o])[..n - 1] == trace[..n - 1];
  }

  lemma FirstFailureHere(criteria: Criteria, trace: seq<Outcome>, o: Outcome)
    requires o.canary && Judged(criteria, trace + [o], o.subject).action == Rollback
    requires !FailedBy(criteria, trace, o.subject)
    ensures var reasons := Judged(criteria, trace + [o], o.subject).reasons;
      FirstFailsAt(criteria, trace + [o], o.subject, |trace| + 1, reasons)
  {
    hide Judged, FailedBy;
    assert (trace + [o])[..|trace| + 1] == trace + [o] && (trace + [o])[..|trace|] == trace;
  }

  lemma SuspendsAfterRecord(
      plans: map<string, Plan>, rolledBack: map<string, seq<Reason>>, trace: seq<Outcome>, o: Outcome)
    requires SuspendsFailed(plans, rolledBack, trace)
    ensures Judges(plans, rolledBack, o) ==>
      var verdict := Judged(plans[o.subject].criteria, trace + [o], o.subject);
      if verdict.action == Rollback
      then SuspendsFailed(plans, rolledBack[o.subject := verdict.reasons], trace + [o])
      else SuspendsFailed(plans, rolledBack, trace + [o])
    ensures !Judges(plans, rolledBack, o) ==> SuspendsFailed(plans, rolledBack, trace + [o])
  {
    hide Judged, FailedBy, FirstFailsAt;
    forall s | s in plans ensures FailedBy(plans[s].criteria, trace + [o], s) <==>
      || FailedBy(plans[s].criteria, trace, s)
      || (o.subject == s && o.canary && Judged(plans[s].criteria, trace + [o], s).action == Rollback)
    {
      FailedByAppend(plans[s].criteria, trace, o, s);
    }
    forall s | s in rolledBack ensures exists n :: FirstFailsAt(plans[s].criteria, trace + [o], s, n, rolledBack[s]) {
      var n :| FirstFailsAt(plans[s].criteria, trace, s, n, rolledBack[s]);
      FirstFailureStays(plans[s].criteria, trace, o, s, n, rolledBack[s]);
    }
    if Judges(plans, rolledBack, o) && Judged(plans[o.subject].criteria, trace + [o], o.subject).action == Rollback {
      FirstFailureHere(plans[o.subject].criteria, trace, o);
    }
  }

  lemma SuspendedIff(
      plans: map<string, Plan>, rolledBack: map<string, seq<Reason>>, trace: seq<Outcome>, subject: string)
    requires SuspendsFailed(plans, rolledBack, trace) && subject in plans
    ensures subject in rolledBack <==> FailedBy(plans[subject].criteria, trace, subject)
  {
  }

  // One empty arm for each subject.
  method NewArms(subjects: set<string>) returns (arms: map<string, Arm>)
    ensures arms.Keys == subjects && forall s :: s in arms ==> fresh(arms[s])
    ensures forall s, t :: s in arms && t in arms && s != t ==> arms[s] != arms[t]
    ensures forall s :: s in arms ==> arms[s].Value() == Summary([])
  {
    hide Summary;
    arms := map[];
    var pending := subjects;
    while pending != {}
      invariant pending <= subjects && arms.Keys == subjects - pending
      invariant forall s :: s in arms ==> fresh(arms[s])
      invariant forall s, t :: s in arms && t in arms && s != t ==> arms[s] != arms[t]
      invariant forall s :: s in arms ==> arms[s].Value() == Summary([])
      decreases pending
    {
      var subject :| subject in pending;
      var arm := new Arm();
      arms := arms[subject := arm];
      pending := pending - {subject};
    }
  }

  class CanaryMonitor {
    const plans: map<string, Plan>
    var canaryArms: map<string, Arm>
    var stableArms: map<string, Arm>
    var rolledBack: map<string, seq<Reason>>
    ghost var trace: seq<Outcome>  // every call of Record so far

    ghost predicate Distinct()
      reads `canaryArms, `stableArms
    {
      && (forall s, t :: s in canaryArms && t in stableArms ==> canaryArms[s] != stableArms[t])
      && (forall s, t :: s in canaryArms && t in canaryArms && s != t ==> canaryArms[s] != canaryArms[t])
      && (forall s, t :: s in stableArms && t in stableArms && s != t ==> stableArms[s] != stableArms[t])
    }

    ghost predicate ArmSummarizes(subject: string)
      requires subject in canaryArms && subject in stableArms
      reads `canaryArms, `stableArms, `trace, canaryArms[subject], stableArms[subject]
    {
      && canaryArms[subject].Value() == Summary(ArmOf(trace, subject, true))
      && stableArms[subject].Value() == Summary(ArmOf(trace, subject, false))
    }

    ghost predicate Summarizes()
      reads `canaryArms, `stableArms, `trace, canaryArms.Values, stableArms.Values
    {
      && canaryArms.Keys == plans.Keys && stableArms.Keys == plans.Keys
      && Distinct()
      && forall s :: s in plans ==> ArmSummarizes(s)
    }

    // The arms summarize the trace, and exactly the subjects that failed it are rolled back.
    ghost predicate Valid()
      reads this, canaryArms.Values, stableArms.Values
    {
      && Summarizes()
      && SuspendsFailed(plans, rolledBack, trace)
    }

    constructor (plans: map<string, Plan>)
      ensures this.plans == plans && Valid() && trace == [] && rolledBack == map[]
      ensures fresh(canaryArms.Values) && fresh(stableArms.Values)
    {
      hide Summary, Judged;
      var canaries := NewArms(plans.Keys);
      var stables := NewArms(plans.Keys);
      this.plans := plans;
      canaryArms, stableArms, rolledBack, trace := canaries, stables, map[], [];
      new;
      assert Distinct();
      forall s | s in plans ensures ArmSummarizes(s) {
        assert ArmOf([], s, true) == [] && ArmOf([], s, false) == [];
      }
      assert SuspendsFailed(plans, rolledBack, trace);
    }

    // Whether this request is served by the canary; bucket stands for the digest modulo 100.
    method Takes(subject: string, bucket: nat) returns (taken: bool)
      requires Valid()
      ensures taken <==> (
        && subject in plans && bucket < plans[subject].trafficPercent
        && !FailedBy(plans[subject].criteria, trace, subject))
    {
      if subject !in plans || subject in rolledBack {
        return false;
      }
      taken := bucket < plans[subject].trafficPercent;
    }

    method RecordArm(o: Outcome)
      requires Summarizes() && o.subject in plans
      modifies this`trace, canaryArms.Values, stableArms.Values
      ensures Summarizes() && trace == old(trace) + [o]
    {
      hide Summary, ArmOf, Recorded;
      ghost var before := trace;
      RecordKeepsSummary(ArmOf(trace, o.subject, o.canary), o);
      if o.canary {
        canaryArms[o.subject].Record(o.ok, o.latency, o.quality);
      } else {
        stableArms[o.subject].Record(o.ok, o.latency, o.quality);
      }
      trace := trace + [o];
      forall s | s in plans ensures ArmSummarizes(s) {
        ArmOfAppend(before, o, s, true);
        ArmOfAppend(before, o, s, false);
        assert old(ArmSummarizes(s));
      }
    }

    /** The first-failing-prefix rule: after every call, a subject is rolled back exactly when some
        prefix ending in a canary record fails the whole history so far, and the call that
        completes the first such prefix is the one that returns the rollback. */
    method Record(o: Outcome) returns (decision: Option<Decision>)
      requires Valid()
      modifies this`rolledBack, this`trace, canaryArms.Values, stableArms.Values
      ensures Valid() && trace == old(trace) + [o]
      ensures decision.Some? <==> (
        && o.subject in plans && o.canary
        && !FailedBy(plans[o.subject].criteria, old(trace), o.subject))
      ensures decision.Some? ==> decision.value == Judged(plans[o.subject].criteria, trace, o.subject)
    {
      hide FailedBy, Judged, SuspendsFailed, Summarizes;
      ghost var before := trace;
      if o.subject !in plans {
        SuspendsAfterRecord(plans, rolledBack, before, o);
        RecordElsewhere(o);
        return None;
      }
      SuspendedIff(plans, rolledBack, before, o.subject);
      RecordArm(o);
      if !o.canary || o.subject in rolledBack {
        SuspendsAfterRecord(plans, rolledBack, before, o);
        return None;
      }
      var verdict := JudgeSubject(o.subject);
      SuspendsAfterRecord(plans, rolledBack, before, o);
      if verdict.action == Rollback {
        rolledBack := rolledBack[o.subject := verdict.reasons];
      }
      decision := Some(verdict);
    }

    // A record for a subject without a plan is dropped; only the history notes it.
    ghost method RecordElsewhere(o: Outcome)
      requires Summarizes() && o.subject !in plans
      modifies this`trace
      ensures Summarizes() && trace == old(trace) + [o]
    {
      hide Summary, ArmOf;
      ghost var before := trace;
      trace := trace + [o];
      forall s | s in plans ensures ArmSummarizes(s) {
        ArmOfAppend(before, o, s, true);
        ArmOfAppend(before, o, s, false);
        assert old(ArmSummarizes(s));
      }
    }

    method JudgeSubject(subject: string) returns (verdict: Decision)
      requires Summarizes() && subject in plans
      ensures verdict == Judged(plans[subject].criteria, trace, subject)
    {
      hide Summary, ArmOf, Evaluate, Observed;
      assert ArmSummarizes(subject);
      verdict := Evaluate(plans[subject].criteria, Observed(canaryArms[subject].Value()),
                          Some(Observed(stableArms[subject].Value())));
    }
  }

  // ------------------------------------------------------------- over a trace

  // The monitor returns a rollback for the n-th record of a trace.
  ghost predicate ReturnsRollback(plans: map<string, Plan>, trace: seq<Outcome>, subject: string, n: int) {
    && subject in plans && FailsAt(plans[subject].criteria, trace, subject, n)
    && !FailedBy(plans[subject].criteria, trace[..n - 1], subject)
  }

  /** A rollback is absorbing. */
  lemma RollbackIsAbsorbing(criteria: Criteria, trace: seq<Outcome>, later: seq<Outcome>, subject: string)
    requires FailedBy(criteria, trace, subject)
    ensures FailedBy(criteria, trace + later, subject)
  {
    hide Judged;
    var n :| FailsAt(criteria, trace, subject, n);
    assert (trace + later)[..n] == trace[..n];
    assert FailsAt(criteria, trace + later, subject, n);
  }

  /** It is returned at most once for a subject over any trace. */
  lemma RollbackReturnedOnce(plans: map<string, Plan>, trace: seq<Outcome>, subject: string, m: int, n: int)
    requires ReturnsRollback(plans, trace, subject, m) && ReturnsRollback(plans, trace, subject, n)
    ensures m == n
  {
    hide Judged;
    var criteria := plans[subject].criteria;
    FailsInPrefix(criteria, trace, subject, m, n - 1);
    FailsInPrefix(criteria, trace, subject, n, m - 1);
  }

  lemma FailsInPrefix(criteria: Criteria, trace: seq<Outcome>, subject: string, m: int, n: int)
    requires FailsAt(criteria, trace, subject, m) && 0 <= n <= |trace|
    ensures m <= n ==> FailedBy(criteria, trace[..n], subject)
  {
    hide Judged;
    if m <= n {
      assert trace[..n][..m] == trace[..m];
      assert FailsAt(criteria, trace[..n], subject, m);
    }
  }

  /** And it is returned for every subject that ends up rolled back. */
  lemma {:induction false} RollbackReturned(plans: map<string, Plan>, trace: seq<Outcome>, subject: string)
    returns (n: int)
    requires subject in plans && FailedBy(plans[subject].criteria, trace, subject)
    ensures ReturnsRollback(plans, trace, subject, n)
    decreases |trace|
  {
    hide Judged;
    var criteria := plans[subject].criteria;
    n :| FailsAt(criteria, trace, subject, n);
    if FailedBy(criteria, trace[..n - 1], subject) {
      var m := n - 1;
      n := RollbackReturned(plans, trace[..m], subject);
      assert trace[..m][..n] == trace[..n] && trace[..m][..n - 1] == trace[..n - 1];
    }
  }

  // ---------------------------------------------------- what the rule decides

  function Rate(errors: nat, requests: nat): real {
    if requests == 0 then 0.0 else errors as real / requests as real
  }

  // An error rate above the maximum that no control with a sample of its own matches.
  predicate TooManyErrors(c: Criteria, o: Observation, b: Option<Observation>) {
    && Rate(o.errors, o.requests) > c.maxErrorRate
    && !(b.Some? && b.value.requests >= c.minSample
         && Rate(b.value.errors, b.value.requests) >= Rate(o.errors, o.requests))
  }

  // A 95th percentile above the maximum that no such control matches.
  predicate TooSlow(c: Criteria, o: Observation, b: Option<Observation>) {
    && o.p95Latency.Some? && o.p95Latency.value > c.maxP95Latency
    && !(b.Some? && b.value.requests >= c.minSample && b.value.p95Latency.Some?
         && b.value.p95Latency.value >= o.p95Latency.value)
  }

  predicate TooPoor(c: Criteria, o: Observation) {
    o.quality.Some? && o.quality.value < c.minQuality
  }

  predicate MustRollBack(c: Criteria, o: Observation, b: Option<Observation>) {
    || !o.ready
    || (o.requests >= c.minSample && (TooManyErrors(c, o, b) || TooSlow(c, o, b) || TooPoor(c, o)))
  }

  /** The rule: rollback exactly when the canary is not ready, or has a sample that fails a
      criterion no trusted control excuses; otherwise hold exactly while requests are missing. */
  lemma EvaluateExactly(c: Criteria, o: Observation, b: Option<Observation>)
    ensures Evaluate(c, o, b).action == Rollback <==> MustRollBack(c, o, b)
    ensures Evaluate(c, o, b).action == Hold <==> !MustRollBack(c, o, b) && o.requests < c.minRequests
    ensures Evaluate(c, o, b).action == Promote <==> !MustRollBack(c, o, b) && o.requests >= c.minRequests
  {
  }

  /** The reasons name exactly the criteria that fail, or what is missing. */
  lemma ReasonsExactly(c: Criteria, o: Observation, b: Option<Observation>)
    ensures var reasons := Evaluate(c, o, b).reasons; var sampled := o.ready && o.requests >= c.minSample;
      && (NotReady in reasons <==> !o.ready)
      && (ErrorRateAbove in reasons <==> sampled && TooManyErrors(c, o, b))
      && (LatencyAbove in reasons <==> sampled && TooSlow(c, o, b))
      && (QualityBelow in reasons <==> sampled && TooPoor(c, o))
      && (RequestsMissing in reasons <==> !MustRollBack(c, o, b) && o.requests < c.minRequests)
  {
  }

  // The latencies of an arm's last thousand records.
  function Window(arm: seq<Outcome>): seq<real> {
    if |arm| <= 1000 then Latencies(arm) else Latencies(arm)[|arm| - 1000..]
  }

  // The three ways in which the records of two arms can fail the canary.
  predicate ArmFails(c: Criteria, arm: seq<Outcome>, stable: seq<Outcome>) {
    var trusted := |stable| >= c.minSample;
    var rate, stableRate := Rate(Failures(arm), |arm|), Rate(Failures(stable), |stable|);
    && arm != [] && |arm| >= c.minSample
    && ((rate > c.maxErrorRate && !(trusted && stableRate >= rate))
        || (Percentile.P95(Window(arm)) > c.maxP95Latency
            && !(trusted && stable != [] && Percentile.P95(Window(stable)) >= Percentile.P95(Window(arm))))
        || (QualityCount(arm) > 0 && QualitySum(arm) / QualityCount(arm) as real < c.minQuality))
  }

  lemma LastIsInArm(trace: seq<Outcome>)
    requires trace != []
    ensures var last := trace[|trace| - 1]; ArmOf(trace, last.subject, last.canary) != []
  {
  }

  lemma ObservedExactly(arm: seq<Outcome>)
    ensures var o := Observed(Summary(arm));
      && o.ready && o.requests == |arm| && o.errors == Failures(arm)
      && o.p95Latency == (if arm == [] then None else Some(Percentile.P95(Window(arm))))
      && o.quality == (if QualityCount(arm) == 0 then None else Some(QualitySum(arm) / QualityCount(arm) as real))
  {
    assert arm != [] ==> Window(arm) != [];
  }

  lemma ArmsMustRollBack(c: Criteria, arm: seq<Outcome>, stable: seq<Outcome>)
    requires arm != []
    ensures MustRollBack(c, Observed(Summary(arm)), Some(Observed(Summary(stable)))) <==> ArmFails(c, arm, stable)
  {
    hide Observed, Summary, Window, Rate, Percentile.P95, Failures, QualityCount, QualitySum;
    ObservedExactly(arm);
    ObservedExactly(stable);
  }

  /** The monitor's rule on traces: a prefix fails a subject exactly when it ends in a canary
      record of it and the records of its two arms so far fail the canary. */
  lemma FailsExactlyWhen(c: Criteria, trace: seq<Outcome>, subject: string, n: int)
    ensures FailsAt(c, trace, subject, n) <==>
      && 0 < n <= |trace| && trace[n - 1].subject == subject && trace[n - 1].canary
      && ArmFails(c, ArmOf(trace[..n], subject, true), ArmOf(trace[..n], subject, false))
  {
    hide Evaluate, Observed, Summary, MustRollBack, ArmFails;
    if 0 < n <= |trace| && trace[n - 1].subject == subject && trace[n - 1].canary {
      var arm, stable := ArmOf(trace[..n], subject, true), ArmOf(trace[..n], subject, false);
      LastIsInArm(trace[..n]);
      hide ArmOf;
      ArmsMustRollBack(c, arm, stable);
      EvaluateExactly(c, Observed(Summary(arm)), Some(Observed(Summary(stable))));
    }
  }

  /** So a canary whose error rate is too high on a full sample is rolled back, whatever else
      its records say, as long as the stable arm has no sample to excuse it. */
  lemma FailingCanaryIsRolledBack(c: Criteria, trace: seq<Outcome>, subject: string, n: int)
    requires 0 < n <= |trace| && trace[n - 1].subject == subject && trace[n - 1].canary
    requires var arm := ArmOf(trace[..n], subject, true);
      arm != [] && |arm| >= c.minSample && Failures(arm) as real / |arm| as real > c.maxErrorRate
    requires |ArmOf(trace[..n], subject, false)| < c.minSample
    ensures FailsAt(c, trace, subject, n) && FailedBy(c, trace, subject)
  {
    FailsExactlyWhen(c, trace, subject, n);
  }
}
