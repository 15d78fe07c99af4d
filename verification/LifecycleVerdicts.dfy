// What the canary monitor hears of a request: at most one verdict for each
// dispatch, and a good one only for an answer that was completed.
module LifecycleVerdicts {
  import opened Lifecycle
  import opened Models
  import opened Wrappers
  import LifecycleContents

  // A second dispatch follows a first one that was reported as failed.
  function FirstFailed(r: Request): seq<Verdict> {
    if |r.dispatches| == 2 then [Verdict(1, false)] else []
  }

  ghost predicate HeardOk(r: Request) {
    match r.phase
    case Queued(_) => r.dispatches == [] && r.heard == []
    case Calling(_, retried) => |r.dispatches| == (if retried then 2 else 1) && r.heard == FirstFailed(r)
    case Replied(_, _) => 1 <= |r.dispatches| <= 2 && r.heard == FirstFailed(r)
    case Streaming(s) =>
      && 1 <= |r.dispatches| <= 2
      && (r.heard == FirstFailed(r)
          || (!s.live && s.position == AfterDone && r.heard == FirstFailed(r) + [Verdict(|r.dispatches|, true)])
          || (!s.live && s.position == AfterContent && r.heard == FirstFailed(r) + [Verdict(|r.dispatches|, false)]))
      && (s.live ==> r.heard == FirstFailed(r))
    case Finished(Served(_)) => 1 <= |r.dispatches| <= 2 && r.heard == FirstFailed(r) + [Verdict(|r.dispatches|, true)]
    case Finished(Lost(_)) => 1 <= |r.dispatches| <= 2 && r.heard == FirstFailed(r) + [Verdict(|r.dispatches|, true)]
    case Finished(Failed) => 1 <= |r.dispatches| <= 2 && (r.heard == FirstFailed(r) || r.heard == [Verdict(1, false)])
    case Finished(_) => r.dispatches == [] && r.heard == []
  }

  lemma PullKeepsHeard(cfg: Config, r: Request, drawn: Drawn, kept: nat)
    requires HeardOk(r) && r.phase.Streaming? && r.phase.stream.live
    ensures HeardOk(AfterPull(cfg, r, drawn, kept).request)
  {
    hide CacheWrites, Joined, Kept;
  }

  lemma AnswerKeepsHeard(cfg: Config, r: Request, e: Event)
    requires HeardOk(r) && r.phase.Calling? && e.Answer?
    ensures HeardOk(AfterCall(cfg, r, e.outcome, e.reading, e.canary).request)
  {
    hide Fallback, TargetOf;
  }

  lemma LocalKeepsHeard(cfg: Config, r: Request, e: Event, free: bool)
    requires HeardOk(r)
    ensures HeardOk(Counted(Local(cfg, r, e, free)))
  {
    hide AfterPull, AfterCall, CacheWrites, Kept, TargetOf;
    if e.Pull? && r.phase.Streaming? && r.phase.stream.live {
      PullKeepsHeard(cfg, r, e.drawn, e.kept);
    } else if e.Answer? && r.phase.Calling? {
      AnswerKeepsHeard(cfg, r, e);
    }
  }

  ghost predicate AllHeardOk(g: Gateway) {
    forall id :: id in g.requests ==> HeardOk(g.requests[id])
  }

  lemma StepKeepsHeard(cfg: Config, g: Gateway, e: Event)
    requires AllHeardOk(g)
    ensures AllHeardOk(Step(cfg, g, e))
  {
    hide HeardOk, Local, Arrived, Counted;
    if e.Arrive? {
      ArrivalIsHeard(cfg, e.arrival);
    } else if e.id in g.requests {
      LocalKeepsHeard(cfg, g.requests[e.id], e, g.slots.free > 0);
    }
  }

  lemma ArrivalIsHeard(cfg: Config, a: Arrival)
    ensures HeardOk(Arrived(cfg, a))
  {
    hide Effective, TermsOf;
  }

  lemma {:induction false} RunKeepsHeard(cfg: Config, maxConcurrency: nat, events: seq<Event>)
    ensures AllHeardOk(Run(cfg, maxConcurrency, events))
  {
    hide HeardOk, Step;
    if events != [] {
      RunKeepsHeard(cfg, maxConcurrency, events[..|events| - 1]);
      StepKeepsHeard(cfg, Run(cfg, maxConcurrency, events[..|events| - 1]), events[|events| - 1]);
    }
  }

  /** The monitor hears of each dispatch of a request at most once, and of a first dispatch
      that was followed by a second only as failed; it hears well of a dispatch only when
      it is the last one and its answer was completed. */
  lemma VerdictsAreSingle(cfg: Config, maxConcurrency: nat, events: seq<Event>, id: nat)
    requires id in Run(cfg, maxConcurrency, events).requests
    ensures var r := Run(cfg, maxConcurrency, events).requests[id];
      && (forall i :: 0 <= i < |r.heard| ==> 1 <= r.heard[i].attempt <= |r.dispatches|)
      && (forall i, j :: 0 <= i < j < |r.heard| ==> r.heard[i].attempt != r.heard[j].attempt)
      && (|r.dispatches| == 2 ==> Verdict(1, false) in r.heard)
      && (forall v :: v in r.heard && v.ok ==> v.attempt == |r.dispatches| && LifecycleContents.CompletedAnswer(r))
  {
    hide Run;
    RunKeepsHeard(cfg, maxConcurrency, events);
    var r := Run(cfg, maxConcurrency, events).requests[id];
    assert HeardOk(r);
    if r.phase.Streaming? && r.phase.stream.position == AfterDone {
      DoneIsMarked(cfg, maxConcurrency, events, id);
    }
  }

  lemma DoneIsMarked(cfg: Config, maxConcurrency: nat, events: seq<Event>, id: nat)
    requires id in Run(cfg, maxConcurrency, events).requests
    requires var p := Run(cfg, maxConcurrency, events).requests[id].phase;
      p.Streaming? && p.stream.position == AfterDone
    ensures DoneMark in Run(cfg, maxConcurrency, events).requests[id].phase.stream.sent
  {
    hide Run;
    LifecycleContents.StreamsHaveOneShape(cfg, maxConcurrency, events, id);
    var sent := Run(cfg, maxConcurrency, events).requests[id].phase.stream.sent;
    assert sent[|sent| - 1] == DoneMark;
  }

  /** Every buffered answer that reached delivery, served or lost to a failing cache, was
      reported well exactly once; a request that never reached a backend was never reported. */
  lemma DeliveredIsHeard(cfg: Config, maxConcurrency: nat, events: seq<Event>, id: nat)
    requires id in Run(cfg, maxConcurrency, events).requests
    requires Run(cfg, maxConcurrency, events).requests[id].phase.Finished?
    ensures var r := Run(cfg, maxConcurrency, events).requests[id];
      && ((exists v :: v in r.heard && v.ok) <==> r.phase.ending.Served? || r.phase.ending.Lost?)
      && (r.dispatches == [] ==> r.heard == [])
  {
    hide Run;
    RunKeepsHeard(cfg, maxConcurrency, events);
    var r := Run(cfg, maxConcurrency, events).requests[id];
    assert HeardOk(r);
    if r.phase.ending.Served? || r.phase.ending.Lost? {
      assert r.heard[|r.heard| - 1].ok;
    }
  }

  /** What resuming a stream tells the caches and the monitor, in every run: past the done mark
      a success and the answer to each cache that may hold it, where the backend becomes
      unavailable a failure, and otherwise nothing. */
  lemma PullTellsExactly(cfg: Config, maxConcurrency: nat, events: seq<Event>, id: nat, drawn: Drawn, kept: nat)
    requires id in Run(cfg, maxConcurrency, events).requests
    requires var p := Run(cfg, maxConcurrency, events).requests[id].phase;
      p.Streaming? && p.stream.live && !p.stream.ended
    ensures var g := Run(cfg, maxConcurrency, events);
      var r, next := g.requests[id], Step(cfg, g, Pull(id, drawn, kept)).requests[id];
      var s := r.phase.stream;
      && next.heard == r.heard
           + (if s.position == AfterDone then [Verdict(|r.dispatches|, true)]
              else if s.position == AfterContent && drawn == Raises(true) then [Verdict(|r.dispatches|, false)]
              else [])
      && (s.position != AfterDone ==> next.writes == r.writes)
      && (s.position == AfterDone && kept >= 2 ==>
        && ((exists w :: w in next.writes && w.store == Exact) <==>
          && cfg.cacheEnabled && !s.route.canary
          && r.payload.temperature == 0.0 && r.payload.routing.privacy != Restricted)
        && ((exists w :: w in next.writes && w.store == Semantic) <==>
          && cfg.cacheEnabled && cfg.semanticEnabled && !s.route.canary
          && r.payload.temperature == 0.0 && r.payload.routing.privacy == Public
          && s.route.decision.task in {Classification, Extraction, Summarization}))
  {
    hide Run, AfterPull, Joined, CacheWrites;
    var r := Run(cfg, maxConcurrency, events).requests[id];
    var s := r.phase.stream;
    LifecycleContents.LiveStreamsHaveWrittenNothing(cfg, maxConcurrency, events, id);
    PullTells(cfg, r, drawn, kept);
    LifecycleContents.WritesExactly(cfg, r.payload, s.route, Joined(s.collected));
  }

  lemma PullTells(cfg: Config, r: Request, drawn: Drawn, kept: nat)
    requires r.phase.Streaming? && r.phase.stream.live && r.writes == []
    ensures var s, next := r.phase.stream, AfterPull(cfg, r, drawn, kept).request;
      && next.heard == r.heard
           + (if s.position == AfterDone then [Verdict(|r.dispatches|, true)]
              else if s.position == AfterContent && drawn == Raises(true) then [Verdict(|r.dispatches|, false)]
              else [])
      && (s.position != AfterDone ==> next.writes == [])
      && (s.position == AfterDone ==>
        next.writes == Kept(CacheWrites(cfg, r.payload, s.route, Joined(s.collected)), kept))
  {
    hide Resumed, Kept, CacheWrites, Joined;
    assert r.heard + [] == r.heard;
  }
}
