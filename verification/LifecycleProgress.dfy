// That every event of the gateway has its effect: what each one makes of the
// request it is for, in every reachable state, and that it touches no other.
module LifecycleProgress {
  import opened Lifecycle
  import opened Models
  import opened Wrappers
  import Admission
  import LifecycleContents
  import LifecycleSafety
  import Registry
  import Routing

  // -------------------------------------------------------------- arrivals

  // A tenant that has not ruled external models out.
  predicate OpenToExternal(tenant: Option<Registry.Tenant>) {
    match tenant
    case None => true
    case Some(t) => t.allowExternalFallback.None? || t.allowExternalFallback.value
  }

  // The terms on which a request of this tenant is routed at first.
  function FirstTerms(cfg: Config, tenant: Option<Registry.Tenant>, remembered: Option<TaskClass>): Routing.Terms {
    var permitted := if cfg.catalog.Some? then Registry.PermittedModelsFor(cfg.catalog.value, tenant) else None;
    var floor := if tenant.Some? then tenant.value.qualityFloor else 0.0;
    Routing.Terms(remembered, permitted, floor, OpenToExternal(tenant), None)
  }

  // The request with its class raised to the tenant's floor and nothing else changed.
  predicate RaisedTo(payload: ChatRequest, declared: ChatRequest, tenant: Option<Registry.Tenant>) {
    && payload == declared.(routing := declared.routing.(privacy := payload.routing.privacy))
    && (payload.routing.privacy == declared.routing.privacy
        || (tenant.Some? && payload.routing.privacy == tenant.value.minimumPrivacy))
    && Registry.Rank(declared.routing.privacy) <= Registry.Rank(payload.routing.privacy)
    && (tenant.Some? ==> Registry.Rank(tenant.value.minimumPrivacy) <= Registry.Rank(payload.routing.privacy))
  }

  lemma FirstTermsAre(cfg: Config, tenant: Option<Registry.Tenant>, remembered: Option<TaskClass>)
    ensures FirstTerms(cfg, tenant, remembered) == TermsOf(cfg, tenant, remembered, None)
  {
  }

  lemma EffectiveIsRaised(payload: ChatRequest, tenant: Option<Registry.Tenant>)
    ensures RaisedTo(Effective(payload, tenant), payload, tenant)
  {
  }

  /** A new request is known from its arrival, under its raised class. It waits for a slot on
      the route chosen for it exactly when it was charged, no cache answered and some profile
      can serve it; otherwise it ends there, from the cache or rejected. */
  lemma ArrivalTakesEffect(cfg: Config, maxConcurrency: nat, events: seq<Event>, id: nat, a: Arrival)
    requires id !in Run(cfg, maxConcurrency, events).requests
    ensures var g := Run(cfg, maxConcurrency, events);
      var next := Step(cfg, g, Arrive(id, a));
      && next.slots == g.slots && id in next.requests && next.requests - {id} == g.requests
      && var r := next.requests[id];
      && RaisedTo(r.payload, a.payload, a.tenant) && r.tenant == a.tenant && r.declared == a.payload.routing.privacy
      && r.dispatches == [] && r.heard == [] && r.writes == []
      && var chosen := Routing.Select(cfg.router, r.payload, FirstTerms(cfg, a.tenant, a.cachedTask), a.reading);
      && (a.charged && a.hit ==> r.phase == Finished(FromCache))
      && (a.charged && !a.hit && chosen.Some? ==> r.phase == Queued(Route(chosen.value, a.canary)))
      && (!a.charged || (!a.hit && chosen.None?) ==> r.phase == Finished(Rejected))
  {
    hide Run, Routing.Select, Effective, TermsOf, FirstTerms, RaisedTo;
    FirstTermsAre(cfg, a.tenant, a.cachedTask);
    EffectiveIsRaised(a.payload, a.tenant);
  }

  // -------------------------------------------------- events of known requests

  /** An event changes at most the request it is for. */
  lemma OthersAreUntouched(cfg: Config, maxConcurrency: nat, events: seq<Event>, e: Event, other: nat)
    requires other != e.id
    ensures var g := Run(cfg, maxConcurrency, events);
      var next := Step(cfg, g, e);
      && (other in next.requests <==> other in g.requests)
      && (other in g.requests ==> next.requests[other] == g.requests[other])
  {
    hide Run, Local, Arrived, Counted;
  }

  /** A waiting request is admitted and dispatched as soon as a permit is free, keeps waiting
      while none is, and gives up when its wait runs out. */
  lemma WaitEnds(cfg: Config, maxConcurrency: nat, events: seq<Event>, id: nat)
    requires id in Run(cfg, maxConcurrency, events).requests
    requires Run(cfg, maxConcurrency, events).requests[id].phase.Queued?
    ensures var g := Run(cfg, maxConcurrency, events); var r := g.requests[id];
      var admitted, refused := Step(cfg, g, Admit(id)), Step(cfg, g, GiveUp(id));
      && (g.slots.free > 0 ==>
        && admitted.slots.free == g.slots.free - 1
        && admitted.requests[id].phase == Calling(r.phase.route, false)
        && |admitted.requests[id].dispatches| == 1 && admitted.requests[id].dispatches[0].route == r.phase.route)
      && (g.slots.free == 0 ==> admitted == g)
      && refused.slots == g.slots && refused.requests[id].phase == Finished(Rejected)
  {
    hide Run, TargetOf;
    LifecycleSafety.RunKeepsDispatches(cfg, maxConcurrency, events);
    assert LifecycleSafety.DispatchesOk(cfg, Run(cfg, maxConcurrency, events).requests[id]);
    var g := Run(cfg, maxConcurrency, events);
    assert g.slots.free == 0 ==> g.requests[id := g.requests[id]] == g.requests;
  }

  // What an answer makes of a request whose call was not refused at the boundary.
  predicate Answered(cfg: Config, r: Request, outcome: Outcome, m: Move)
    requires r.phase.Calling?
  {
    var phase, route := m.request.phase, r.phase.route;
    var reached := route.decision.profile.local || cfg.externalConfigured;
    && (!reached || outcome == Broken ==> phase == Finished(Failed))
    && (reached && outcome.Produced? && r.payload.stream ==>
      phase == Streaming(Stream(route, outcome.delta, NotStarted, true, [], [], false, false)) && m.effect == Keep)
    && (reached && outcome.Produced? && !r.payload.stream && outcome.delta.Some? ==>
      phase == Replied(route, outcome.delta.value))
    && (phase.Finished? || phase.Replied? ==> m.effect == Give)
  }

  lemma CallIsAnswered(cfg: Config, r: Request, outcome: Outcome, reading: Routing.Reading, canary: bool)
    requires r.phase.Calling? && TargetOf(cfg, r, r.phase.route.decision) != Routing.Refused
    ensures Answered(cfg, r, outcome, AfterCall(cfg, r, outcome, reading, canary))
  {
    NoFallbackFromOutside(cfg, r, reading);
    hide Fallback;
  }

  /** A call that comes back with an answer begins the stream or gives the slot back for the
      buffered reply; one that breaks off fails; and an external model without a provider
      fails whatever the event says. */
  lemma AnswerTakesEffect(cfg: Config, maxConcurrency: nat, events: seq<Event>, id: nat, outcome: Outcome,
                          reading: Routing.Reading, canary: bool)
    requires id in Run(cfg, maxConcurrency, events).requests
    requires Run(cfg, maxConcurrency, events).requests[id].phase.Calling?
    ensures var g := Run(cfg, maxConcurrency, events); var r := g.requests[id];
      var next := Step(cfg, g, Answer(id, outcome, reading, canary));
      var phase, route := next.requests[id].phase, r.phase.route;
      var reached := route.decision.profile.local || cfg.externalConfigured;
      && (!reached || outcome == Broken ==> phase == Finished(Failed))
      && (reached && outcome.Produced? && r.payload.stream ==>
        && phase == Streaming(Stream(route, outcome.delta, NotStarted, true, [], [], false, false))
        && next.slots == g.slots)
      && (reached && outcome.Produced? && !r.payload.stream && outcome.delta.Some? ==>
        phase == Replied(route, outcome.delta.value))
      && (phase.Finished? || phase.Replied? ==>
        next.slots.free == g.slots.free + 1 && next.slots.inFlight == g.slots.inFlight - 1)
  {
    hide Run, AfterCall;
    CurrentCallIsNotRefused(cfg, maxConcurrency, events, id);
    CallIsAnswered(cfg, Run(cfg, maxConcurrency, events).requests[id], outcome, reading, canary);
  }

  lemma CurrentCallIsNotRefused(cfg: Config, maxConcurrency: nat, events: seq<Event>, id: nat)
    requires id in Run(cfg, maxConcurrency, events).requests
    requires Run(cfg, maxConcurrency, events).requests[id].phase.Calling?
    ensures var r := Run(cfg, maxConcurrency, events).requests[id];
      TargetOf(cfg, r, r.phase.route.decision) != Routing.Refused
  {
    hide Run, TargetOf;
    var r := Run(cfg, maxConcurrency, events).requests[id];
    LifecycleSafety.RunKeepsDispatches(cfg, maxConcurrency, events);
    assert LifecycleSafety.DispatchesOk(cfg, r);
    var last := r.dispatches[|r.dispatches| - 1];
    assert LifecycleSafety.Vetted(cfg, r, last);
    LifecycleSafety.CallsAreNotRefused(cfg, r, last);
  }

  lemma NoFallbackFromOutside(cfg: Config, r: Request, reading: Routing.Reading)
    requires r.phase.Calling?
    ensures !r.phase.route.decision.profile.local ==> Fallback(cfg, r, r.phase.route.decision, reading).None?
  {
  }

  // How many of the stores in order an answer has reached, before one fails.
  predicate StoredUpTo(writes: seq<Write>, kept: nat, exact: bool, semantic: bool) {
    && ((exists w :: w in writes && w.store == Exact) <==> exact && kept >= 1)
    && ((exists w :: w in writes && w.store == Semantic) <==> semantic && kept >= (if exact then 2 else 1))
  }

  predicate MayKeepExact(cfg: Config, payload: ChatRequest, route: Route) {
    && cfg.cacheEnabled && !route.canary
    && payload.temperature == 0.0 && payload.routing.privacy != Restricted
  }

  predicate MayKeepSemantic(cfg: Config, payload: ChatRequest, route: Route) {
    && cfg.cacheEnabled && cfg.semanticEnabled && !route.canary
    && payload.temperature == 0.0 && payload.routing.privacy == Public
    && route.decision.task in {Classification, Extraction, Summarization}
  }

  lemma StoresInOrder(cfg: Config, payload: ChatRequest, route: Route, text: string, kept: nat)
    ensures var exact, semantic := MayKeepExact(cfg, payload, route), MayKeepSemantic(cfg, payload, route);
      var all := CacheWrites(cfg, payload, route, text);
      && StoredUpTo(Kept(all, kept), kept, exact, semantic)
      && (kept < |all| <==> kept < (if exact then 1 else 0) + (if semantic then 1 else 0))
  {
    var p, all := route.decision.profile, CacheWrites(cfg, payload, route, text);
    var exact, semantic := Write(Exact, text, p.id, p.revision), Write(Semantic, text, p.id, p.revision);
    assert all == (if MayKeepExact(cfg, payload, route) then [exact] else [])
               + (if MayKeepSemantic(cfg, payload, route) then [semantic] else []);
    var some := Kept(all, kept);
    assert |some| > 0 ==> some[0] == all[0];
    assert |some| > 1 ==> some[1] == all[1];
  }

  /** A buffered reply is delivered: it reaches the caches it may enter one after the other,
      is served if all took it and lost to the first that failed. */
  lemma DeliveryTakesEffect(cfg: Config, maxConcurrency: nat, events: seq<Event>, id: nat, kept: nat)
    requires id in Run(cfg, maxConcurrency, events).requests
    requires Run(cfg, maxConcurrency, events).requests[id].phase.Replied?
    ensures var g := Run(cfg, maxConcurrency, events); var r := g.requests[id];
      var next, text := Step(cfg, g, Deliver(id, kept)), r.phase.text;
      var exact := MayKeepExact(cfg, r.payload, r.phase.route);
      var semantic := MayKeepSemantic(cfg, r.payload, r.phase.route);
      && next.slots == g.slots
      && next.requests[id].phase == Finished(
           if kept < (if exact then 1 else 0) + (if semantic then 1 else 0) then Lost(text) else Served(text))
      && StoredUpTo(next.requests[id].writes, kept, exact, semantic)
      && next.requests[id].heard == r.heard + [Verdict(|r.dispatches|, true)]
  {
    hide Run, CacheWrites, Kept, StoredUpTo, MayKeepExact, MayKeepSemantic;
    var r := Run(cfg, maxConcurrency, events).requests[id];
    StoresInOrder(cfg, r.payload, r.phase.route, r.phase.text, kept);
  }

  /** The end of a stream is stored in the same order, whatever store fails. */
  lemma StreamIsStored(cfg: Config, maxConcurrency: nat, events: seq<Event>, id: nat, drawn: Drawn, kept: nat)
    requires id in Run(cfg, maxConcurrency, events).requests
    requires var p := Run(cfg, maxConcurrency, events).requests[id].phase;
      p.Streaming? && p.stream.live && !p.stream.ended && p.stream.position == AfterDone
    ensures var g := Run(cfg, maxConcurrency, events); var r := g.requests[id];
      var next, route := Step(cfg, g, Pull(id, drawn, kept)).requests[id], r.phase.stream.route;
      && StoredUpTo(next.writes, kept, MayKeepExact(cfg, r.payload, route), MayKeepSemantic(cfg, r.payload, route))
      && next.phase.Streaming? && !next.phase.stream.live && next.phase.stream.closed
  {
    hide Run, CacheWrites, Kept, StoredUpTo, MayKeepExact, MayKeepSemantic, Joined;
    var r := Run(cfg, maxConcurrency, events).requests[id];
    LifecycleContents.LiveStreamsHaveWrittenNothing(cfg, maxConcurrency, events, id);
    var s := r.phase.stream;
    assert [] + Kept(CacheWrites(cfg, r.payload, s.route, Joined(s.collected)), kept)
        == Kept(CacheWrites(cfg, r.payload, s.route, Joined(s.collected)), kept);
    StoresInOrder(cfg, r.payload, s.route, Joined(s.collected), kept);
  }

  /** Whoever closes a stream ends its part: a closed generator is never resumed, an ended
      response holds no slot, and the slot comes back from a generator that had started. */
  lemma ClosersTakeEffect(cfg: Config, maxConcurrency: nat, events: seq<Event>, id: nat)
    requires id in Run(cfg, maxConcurrency, events).requests
    requires Run(cfg, maxConcurrency, events).requests[id].phase.Streaming?
    ensures var g := Run(cfg, maxConcurrency, events); var s := g.requests[id].phase.stream;
      var closed, ended := Step(cfg, g, CloseGenerator(id)), Step(cfg, g, EndResponse(id));
      && closed.requests[id].phase.Streaming? && ended.requests[id].phase.Streaming?
      && !closed.requests[id].phase.stream.live && closed.requests[id].phase.stream.ended == s.ended
      && (closed.requests[id].phase.stream.closed <==> s.closed || (s.live && s.position != NotStarted))
      && ended.requests[id].phase.stream.ended && ended.requests[id].phase.stream.closed
      && ended.requests[id].phase.stream.live == s.live
      && ended.slots.free == g.slots.free + (if s.closed then 0 else 1)
  {
    hide Run;
  }
}
