// What every run of the gateway keeps: slots are conserved and come back, no
// request leaves the private environment without agreement, and caches hold
// only what was served.
module LifecycleSafety {
  import opened Admission
  import opened Lifecycle
  import opened Models
  import opened Wrappers
  import Registry
  import Routing

  // -------------------------------------------------------------------- slots

  predicate Holding(p: Phase) {
    p.Calling? || (p.Streaming? && !p.stream.closed)
  }

  // A phase from which nothing more is owed to the caller.
  predicate Settled(p: Phase) {
    p.Finished? || (p.Streaming? && p.stream.ended)
  }

  ghost predicate LedgerOk(r: Request) {
    && r.taken == r.given + (if Holding(r.phase) then 1 else 0)
    && r.taken == (if r.dispatches == [] then 0 else 1)
    && (r.phase.Queued? ==> r.dispatches == [])
    && (r.phase.Calling? || r.phase.Replied? || r.phase.Streaming? ==> r.dispatches != [])
    && (r.phase.Streaming? && r.phase.stream.ended ==> r.phase.stream.closed)
    && (r.phase.Streaming? && !r.phase.stream.live && r.phase.stream.position != NotStarted ==> r.phase.stream.closed)
  }

  // A slot is taken when holding begins and given back when it ends, and at no other step.
  lemma EffectIsExact(cfg: Config, r: Request, e: Event, free: bool)
    requires LedgerOk(r)
    ensures var m := Local(cfg, r, e, free);
      && LedgerOk(Counted(m))
      && (m.effect == Take <==> !Holding(r.phase) && Holding(m.request.phase))
      && (m.effect == Give <==> Holding(r.phase) && !Holding(m.request.phase))
      && (m.effect == Take ==> free)
  {
    hide Routing.Select, Routing.TargetOf, CacheWrites, Kept, Joined;
  }

  function Holders(requests: map<nat, Request>): set<nat> {
    set id | id in requests && Holding(requests[id].phase)
  }

  ghost predicate SlotsOk(g: Gateway, maxConcurrency: nat) {
    && Conserved(g.slots, maxConcurrency)
    && g.slots.inFlight == |Holders(g.requests)|
    && forall id :: id in g.requests ==> LedgerOk(g.requests[id])
  }

  lemma HoldersAfter(requests: map<nat, Request>, id: nat, r: Request)
    requires id in requests
    ensures Holders(requests[id := r]) ==
      if Holding(r.phase) then Holders(requests) + {id} else Holders(requests) - {id}
  {
  }

  lemma SizeAfter(s: set<nat>, id: nat)
    ensures id in s ==> |s - {id}| == |s| - 1 && s + {id} == s
    ensures id !in s ==> |s + {id}| == |s| + 1 && s - {id} == s
  {
  }

  lemma ArrivalHoldsNothing(cfg: Config, a: Arrival)
    ensures LedgerOk(Arrived(cfg, a)) && !Holding(Arrived(cfg, a).phase)
  {
    hide Routing.Select, Effective;
  }

  lemma MoveKeepsSlots(g: Gateway, id: nat, next: Request, effect: Effect, maxConcurrency: nat)
    requires SlotsOk(g, maxConcurrency) && id in g.requests && LedgerOk(next)
    requires effect == Take <==> !Holding(g.requests[id].phase) && Holding(next.phase)
    requires effect == Give <==> Holding(g.requests[id].phase) && !Holding(next.phase)
    requires effect == Take ==> g.slots.free > 0
    ensures SlotsOk(Gateway(Applied(g.slots, effect), g.requests[id := next]), maxConcurrency)
  {
    hide LedgerOk, Holding;
    HoldersAfter(g.requests, id, next);
    SizeAfter(Holders(g.requests), id);
  }

  lemma ArrivalKeepsSlots(g: Gateway, id: nat, r: Request, maxConcurrency: nat)
    requires SlotsOk(g, maxConcurrency) && id !in g.requests && LedgerOk(r) && !Holding(r.phase)
    ensures SlotsOk(g.(requests := g.requests[id := r]), maxConcurrency)
  {
    hide LedgerOk, Holding;
    assert Holders(g.requests[id := r]) == Holders(g.requests);
  }

  lemma StepKeepsSlots(cfg: Config, g: Gateway, e: Event, maxConcurrency: nat)
    requires SlotsOk(g, maxConcurrency)
    ensures SlotsOk(Step(cfg, g, e), maxConcurrency)
  {
    hide LedgerOk, Local, Arrived, Holding, Applied, Conserved;
    if e.Arrive? {
      ArrivalHoldsNothing(cfg, e.arrival);
      if e.id !in g.requests {
        ArrivalKeepsSlots(g, e.id, Arrived(cfg, e.arrival), maxConcurrency);
      }
    } else if e.id in g.requests {
      var m := Local(cfg, g.requests[e.id], e, g.slots.free > 0);
      EffectIsExact(cfg, g.requests[e.id], e, g.slots.free > 0);
      assert Counted(m).phase == m.request.phase;
      MoveKeepsSlots(g, e.id, Counted(m), m.effect, maxConcurrency);
    }
  }

  lemma {:induction false} RunKeepsSlots(cfg: Config, maxConcurrency: nat, events: seq<Event>)
    ensures SlotsOk(Run(cfg, maxConcurrency, events), maxConcurrency)
  {
    hide SlotsOk, Step;
    if events == [] {
      assert Holders(Booted(maxConcurrency).requests) == {};
      BootedIsOk(maxConcurrency);
    } else {
      RunKeepsSlots(cfg, maxConcurrency, events[..|events| - 1]);
      StepKeepsSlots(cfg, Run(cfg, maxConcurrency, events[..|events| - 1]), events[|events| - 1], maxConcurrency);
    }
  }

  lemma BootedIsOk(maxConcurrency: nat)
    ensures SlotsOk(Booted(maxConcurrency), maxConcurrency)
  {
    assert Holders(Booted(maxConcurrency).requests) == {};
  }

  /** In every interleaving the free permits and the holders add up to the capacity, the
      in-flight count is the number of holders, and idle means there is none. */
  lemma SlotsAreConserved(cfg: Config, maxConcurrency: nat, events: seq<Event>)
    ensures var g := Run(cfg, maxConcurrency, events);
      && g.slots.free + |Holders(g.requests)| == maxConcurrency
      && g.slots.inFlight == |Holders(g.requests)|
      && (g.slots.idle <==> Holders(g.requests) == {})
  {
    hide Run;
    RunKeepsSlots(cfg, maxConcurrency, events);
  }

  /** Every admitted request gives its one slot back at most once, has given it back
      exactly when it no longer holds it, and never settles with it. */
  lemma EverySlotComesBack(cfg: Config, maxConcurrency: nat, events: seq<Event>, id: nat)
    requires id in Run(cfg, maxConcurrency, events).requests
    ensures var r := Run(cfg, maxConcurrency, events).requests[id];
      && r.given <= r.taken <= 1
      && (r.taken == 1 <==> r.dispatches != [])
      && (Holding(r.phase) <==> r.given < r.taken)
      && (Settled(r.phase) ==> r.given == r.taken)
  {
    hide Run;
    RunKeepsSlots(cfg, maxConcurrency, events);
  }

  // The event that ends a holder: its call breaks off or its response returns.
  function Release(g: Gateway, id: nat, reading: Routing.Reading): Event
    requires id in g.requests
  {
    if g.requests[id].phase.Calling? then Answer(id, Broken, reading, false) else EndResponse(id)
  }

  lemma ReleaseReleases(cfg: Config, g: Gateway, id: nat, reading: Routing.Reading)
    requires id in Holders(g.requests)
    ensures Holders(Step(cfg, g, Release(g, id, reading)).requests) == Holders(g.requests) - {id}
  {
    hide Routing.Select, Joined, CacheWrites;
    var e := Release(g, id, reading);
    var m := Local(cfg, g.requests[id], e, g.slots.free > 0);
    assert !Holding(Counted(m).phase);
    HoldersAfter(g.requests, id, Counted(m));
  }

  /** No run is stuck: from every reachable state, ending what is in flight brings the
      gateway to idle with every permit free. */
  lemma {:induction false} CanAlwaysDrain(
      cfg: Config, maxConcurrency: nat, events: seq<Event>, reading: Routing.Reading)
    returns (more: seq<Event>)
    ensures |more| == |Holders(Run(cfg, maxConcurrency, events).requests)|
    ensures forall e :: e in more ==> e.EndResponse? || (e.Answer? && e.outcome == Broken)
    ensures var last := Run(cfg, maxConcurrency, events + more).slots; last.idle && last.free == maxConcurrency
    decreases |Holders(Run(cfg, maxConcurrency, events).requests)|
  {
    hide Step, Holders;
    var g := Run(cfg, maxConcurrency, events);
    var holders := Holders(g.requests);
    SlotsAreConserved(cfg, maxConcurrency, events);
    if holders == {} {
      more := [];
      assert events + more == events;
    } else {
      var id :| id in holders;
      HolderIsKnown(g.requests, id);
      var e := Release(g, id, reading);
      ReleaseReleases(cfg, g, id, reading);
      assert (events + [e])[..|events|] == events;
      assert Run(cfg, maxConcurrency, events + [e]) == Step(cfg, g, e);
      var rest := CanAlwaysDrain(cfg, maxConcurrency, events + [e], reading);
      more := [e] + rest;
      assert events + more == events + [e] + rest;
    }
  }

  lemma HolderIsKnown(requests: map<nat, Request>, id: nat)
    requires id in Holders(requests)
    ensures id in requests
  {
  }

  // --------------------------------------------------------------- dispatches

  function CurrentRoute(p: Phase): Option<Route> {
    match p
    case Queued(route) => Some(route)
    case Calling(route, _) => Some(route)
    case Replied(route, _) => Some(route)
    case Streaming(s) => Some(s.route)
    case Finished(_) => None
  }

  // The decision passes the router's filter for this request and its tenant.
  predicate Allowed(cfg: Config, r: Request, d: Routing.Decision) {
    && d.profile in cfg.router.profiles
    && Routing.Eligible(cfg.router, d.profile, r.payload, TermsOf(cfg, r.tenant, None, None), d.task)
    && (r.payload.routing.task.Some? ==> d.task == r.payload.routing.task.value)
  }

  predicate Vetted(cfg: Config, r: Request, d: Dispatch) {
    Allowed(cfg, r, d.route.decision) && d.target == TargetOf(cfg, r, d.route.decision)
  }

  function Floor(tenant: Option<Registry.Tenant>): Privacy {
    if tenant.None? then Public else tenant.value.minimumPrivacy
  }

  ghost predicate DispatchesOk(cfg: Config, r: Request) {
    && r.payload.routing.privacy == Registry.StrictestPrivacy(r.declared, Floor(r.tenant))
    && (forall d :: d in r.dispatches ==> Vetted(cfg, r, d))
    && |r.dispatches| <= 2
    && (|r.dispatches| == 2 ==>
      && r.dispatches[0].route.decision.profile.local && !r.dispatches[1].route.decision.profile.local
      && r.dispatches[0].route.decision.task == r.dispatches[1].route.decision.task)
    && (r.phase.Calling? ==> |r.dispatches| == if r.phase.retried then 2 else 1)
    && (r.phase.Queued? ==> r.dispatches == [] && Allowed(cfg, r, r.phase.route.decision))
    && (r.phase.Finished? && r.phase.ending in {Rejected, FromCache} ==> r.dispatches == [])
    && (CurrentRoute(r.phase).Some? && !r.phase.Queued? ==>
      r.dispatches != [] && r.dispatches[|r.dispatches| - 1].route == CurrentRoute(r.phase).value)
  }

  lemma SelectedIsAllowed(
      cfg: Config, r: Request, task: Option<TaskClass>, from: Option<string>, reading: Routing.Reading)
    ensures var chosen := Routing.Select(cfg.router, r.payload, TermsOf(cfg, r.tenant, task, from), reading);
      chosen.Some? ==>
      && Allowed(cfg, r, chosen.value)
      && (from.Some? ==> !chosen.value.profile.local)
      && (task.Some? && r.payload.routing.task.None? ==> chosen.value.task == task.value)
  {
    hide Routing.Select, Routing.Score;
    Routing.SelectExact(cfg.router, r.payload, TermsOf(cfg, r.tenant, task, from), reading);
  }

  // What vetting a decision looks at does not change while a request runs.
  lemma AllowedIsStable(cfg: Config, r: Request, next: Request)
    requires next.payload == r.payload && next.tenant == r.tenant
    ensures forall d :: Allowed(cfg, r, d) == Allowed(cfg, next, d)
    ensures forall d :: Vetted(cfg, r, d) == Vetted(cfg, next, d)
  {
    hide Routing.Eligible, TermsOf, Routing.TargetOf;
  }

  lemma CallKeepsDispatches(cfg: Config, r: Request, route: Route, retried: bool)
    requires DispatchesOk(cfg, r) && Allowed(cfg, r, route.decision)
    requires !retried ==> r.dispatches == []
    requires retried ==>
      && |r.dispatches| == 1 && r.dispatches[0].route.decision.profile.local && !route.decision.profile.local
      && r.dispatches[0].route.decision.task == route.decision.task
    ensures DispatchesOk(cfg, Called(cfg, r, route, retried))
  {
    hide Allowed, Routing.TargetOf;
    var next := Called(cfg, r, route, retried);
    AllowedIsStable(cfg, r, next);
    forall d | d in next.dispatches ensures Vetted(cfg, next, d) {
      assert d in r.dispatches || d == Dispatch(route, TargetOf(cfg, r, route.decision));
    }
  }

  // Any step that calls no backend, as far as routes are concerned.
  predicate SameCalls(r: Request, next: Request) {
    && next.payload == r.payload && next.declared == r.declared && next.tenant == r.tenant
    && next.dispatches == r.dispatches
    && (next.phase == r.phase
        || (next.phase.Finished? && (next.phase.ending.Rejected? || next.phase.ending.FromCache? ==> r.phase.Queued?))
        || ((r.phase.Calling? || r.phase.Streaming?) && (next.phase.Replied? || next.phase.Streaming?)
            && CurrentRoute(next.phase) == CurrentRoute(r.phase)))
  }

  lemma SameCallsKeepDispatches(cfg: Config, r: Request, next: Request)
    requires DispatchesOk(cfg, r) && SameCalls(r, next)
    ensures DispatchesOk(cfg, next)
  {
    hide Allowed, Vetted, Registry.StrictestPrivacy;
    AllowedIsStable(cfg, r, next);
  }

  lemma QuietSteps(cfg: Config, r: Request, e: Event, free: bool)
    ensures !(e.Admit? && r.phase.Queued? && free) && !(e.Answer? && r.phase.Calling?) ==>
      SameCalls(r, Local(cfg, r, e, free).request)
  {
    hide AfterCall, Called, CacheWrites, Kept, Joined;
  }

  lemma LocalKeepsDispatches(cfg: Config, r: Request, e: Event, free: bool)
    requires DispatchesOk(cfg, r)
    ensures DispatchesOk(cfg, Counted(Local(cfg, r, e, free)))
  {
    hide DispatchesOk, Allowed, AfterCall, AfterDelivery, AfterPull, Streamed, GeneratorOver, ResponseOver;
    var m := Local(cfg, r, e, free);
    if e.Admit? && r.phase.Queued? && free {
      QueuedIsAllowed(cfg, r);
      CallKeepsDispatches(cfg, r, r.phase.route, false);
    } else if e.Answer? && r.phase.Calling? {
      AnswerKeepsDispatches(cfg, r, e);
    } else {
      QuietSteps(cfg, r, e, free);
      SameCallsKeepDispatches(cfg, r, m.request);
    }
    SameCallsKeepDispatches(cfg, m.request, Counted(m));
  }

  lemma QueuedIsAllowed(cfg: Config, r: Request)
    requires DispatchesOk(cfg, r) && r.phase.Queued?
    ensures Allowed(cfg, r, r.phase.route.decision) && r.dispatches == []
  {
    hide Allowed;
  }

  lemma AnswerKeepsDispatches(cfg: Config, r: Request, e: Event)
    requires DispatchesOk(cfg, r) && r.phase.Calling? && e.Answer?
    ensures DispatchesOk(cfg, AfterCall(cfg, r, e.outcome, e.reading, e.canary).request)
  {
    hide Allowed, Vetted, Called, TermsOf, Routing.Select, Routing.TargetOf, Registry.StrictestPrivacy;
    var next := AfterCall(cfg, r, e.outcome, e.reading, e.canary).request;
    var failed := r.phase.route.decision;
    var fallback := if r.phase.retried then None else Fallback(cfg, r, failed, e.reading);
    if OutcomeAt(TargetOf(cfg, r, failed), e.outcome) == Unavailable && fallback.Some? {
      SelectedIsAllowed(cfg, r, Some(failed.task), Some(failed.profile.id), e.reading);
      assert Vetted(cfg, r, r.dispatches[0]);
      TaskIsKept(cfg, r, failed, fallback.value);
      var told := Told(r, false);
      AllowedIsStable(cfg, r, told);
      SameCallsKeepDispatches(cfg, r, told);
      CallKeepsDispatches(cfg, told, Route(fallback.value, e.canary), true);
    } else {
      AllowedIsStable(cfg, r, next);
    }
  }

  lemma TaskIsKept(cfg: Config, r: Request, failed: Routing.Decision, fallback: Routing.Decision)
    requires r.dispatches != [] && Vetted(cfg, r, r.dispatches[0]) && r.dispatches[0].route.decision == failed
    requires Allowed(cfg, r, fallback)
    requires r.payload.routing.task.None? ==> fallback.task == failed.task
    ensures fallback.task == failed.task
  {
  }

  lemma ArrivalDispatchesNothing(cfg: Config, a: Arrival)
    ensures DispatchesOk(cfg, Arrived(cfg, a))
  {
    hide Allowed, Routing.Select;
    var r := Arrived(cfg, a);
    SelectedIsAllowed(cfg, r, a.cachedTask, None, a.reading);
  }

  ghost predicate AllDispatchesOk(cfg: Config, g: Gateway) {
    forall id :: id in g.requests ==> DispatchesOk(cfg, g.requests[id])
  }

  lemma StepKeepsDispatches(cfg: Config, g: Gateway, e: Event)
    requires AllDispatchesOk(cfg, g)
    ensures AllDispatchesOk(cfg, Step(cfg, g, e))
  {
    hide DispatchesOk, Local, Arrived, Counted;
    if e.Arrive? {
      ArrivalDispatchesNothing(cfg, e.arrival);
    } else if e.id in g.requests {
      LocalKeepsDispatches(cfg, g.requests[e.id], e, g.slots.free > 0);
    }
  }

  lemma {:induction false} RunKeepsDispatches(cfg: Config, maxConcurrency: nat, events: seq<Event>)
    ensures AllDispatchesOk(cfg, Run(cfg, maxConcurrency, events))
  {
    hide DispatchesOk, Step;
    if events != [] {
      RunKeepsDispatches(cfg, maxConcurrency, events[..|events| - 1]);
      StepKeepsDispatches(cfg, Run(cfg, maxConcurrency, events[..|events| - 1]), events[|events| - 1]);
    }
  }

  /** What leaves the private environment is public as declared and under the tenant's
      floor, with operator, tenant and caller agreeing; the boundary never has to refuse. */
  lemma ExternalDispatchIsAgreed(cfg: Config, maxConcurrency: nat, events: seq<Event>, id: nat, d: Dispatch)
    requires id in Run(cfg, maxConcurrency, events).requests
    requires d in Run(cfg, maxConcurrency, events).requests[id].dispatches
    ensures d.target != Routing.Refused
    ensures !d.route.decision.profile.local ==>
      var r := Run(cfg, maxConcurrency, events).requests[id];
      && r.declared == Public && Floor(r.tenant) == Public
      && cfg.router.externalEnabled && r.payload.routing.allowExternalFallback
      && (r.tenant.Some? ==> r.tenant.value.allowExternalFallback != Some(false))
  {
    hide Run;
    RunKeepsDispatches(cfg, maxConcurrency, events);
    assert Vetted(cfg, Run(cfg, maxConcurrency, events).requests[id], d);
  }

  /** A request is dispatched at most twice, the second time only to an external model
      after a local one and for the same task; every dispatch passes the router's filter. */
  lemma DispatchesAreBounded(cfg: Config, maxConcurrency: nat, events: seq<Event>, id: nat)
    requires id in Run(cfg, maxConcurrency, events).requests
    ensures var r := Run(cfg, maxConcurrency, events).requests[id];
      && |r.dispatches| <= 2
      && (|r.dispatches| == 2 ==>
        var first, second := r.dispatches[0].route.decision, r.dispatches[1].route.decision;
        first.profile.local && !second.profile.local && first.task == second.task)
      && (forall d :: d in r.dispatches ==> Allowed(cfg, r, d.route.decision))
  {
    hide Run, Allowed;
    RunKeepsDispatches(cfg, maxConcurrency, events);
    var r := Run(cfg, maxConcurrency, events).requests[id];
    assert forall d :: d in r.dispatches ==> Vetted(cfg, r, d);
  }

  /** With a catalog behind the router, every model a tenant's request is sent to is a
      servable one that each of the tenant's lists admits. */
  lemma DispatchHonoursEntitlement(cfg: Config, maxConcurrency: nat, events: seq<Event>, id: nat, d: Dispatch)
    requires cfg.catalog.Some? && Registry.WellFormed(cfg.catalog.value)
    requires cfg.router.profiles == Registry.Profiles(cfg.catalog.value)
    requires id in Run(cfg, maxConcurrency, events).requests
    requires d in Run(cfg, maxConcurrency, events).requests[id].dispatches
    ensures var r, catalog := Run(cfg, maxConcurrency, events).requests[id], cfg.catalog.value;
      exists card :: card in catalog.models && Registry.Servable(catalog, card)
        && (r.tenant.Some? ==> Registry.Entitled(r.tenant.value, card)) && card.profile == d.route.decision.profile
  {
    hide Run;
    var r, catalog := Run(cfg, maxConcurrency, events).requests[id], cfg.catalog.value;
    RunKeepsDispatches(cfg, maxConcurrency, events);
    assert Vetted(cfg, r, d);
    Registry.ProfilesExact(catalog, d.route.decision.profile);
    var card :| card in catalog.models && Registry.Servable(catalog, card) && card.profile == d.route.decision.profile;
    if r.tenant.Some? {
      Registry.PermittedExact(catalog, r.tenant.value, card);
    }
  }

  /** A request waits for a slot exactly when its quota was charged, no cache answered, and
      some profile passes the filter under its effective class and its tenant's terms. */
  lemma QueuedExactlyWhen(cfg: Config, a: Arrival)
    ensures var payload := Effective(a.payload, a.tenant);
      var terms := TermsOf(cfg, a.tenant, a.cachedTask, None);
      Arrived(cfg, a).phase.Queued? <==>
      && a.charged && !a.hit
      && var task := Routing.TaskOf(payload, terms, a.reading);
        exists p :: p in cfg.router.profiles && Routing.Eligible(cfg.router, p, payload, terms, task)
  {
    hide Routing.Select, Routing.Eligible, Routing.Score, TermsOf, Effective;
    var terms := TermsOf(cfg, a.tenant, a.cachedTask, None);
    Routing.SelectExact(cfg.router, Effective(a.payload, a.tenant), terms, a.reading);
  }

  // A fallback's filter is the first attempt's, narrowed to models served elsewhere.
  lemma FallbackFilter(cfg: Config, r: Request, p: ModelProfile, failed: Routing.Decision)
    ensures var terms := TermsOf(cfg, r.tenant, Some(failed.task), Some(failed.profile.id));
      Routing.Eligible(cfg.router, p, r.payload, terms, failed.task)
      <==> !p.local && Routing.Eligible(cfg.router, p, r.payload, TermsOf(cfg, r.tenant, None, None), failed.task)
  {
  }

  // An external model that this request could have been routed to in the first place.
  ghost predicate HasExternal(cfg: Config, r: Request, task: TaskClass) {
    exists p :: p in cfg.router.profiles && !p.local
      && Routing.Eligible(cfg.router, p, r.payload, TermsOf(cfg, r.tenant, None, None), task)
  }

  lemma FallbackExists(cfg: Config, r: Request, failed: Routing.Decision, reading: Routing.Reading)
    requires Allowed(cfg, r, failed)
    ensures Fallback(cfg, r, failed, reading).Some? <==> failed.profile.local && HasExternal(cfg, r, failed.task)
  {
    hide Routing.Select, Routing.Eligible, Routing.Score, TermsOf;
    var terms := TermsOf(cfg, r.tenant, Some(failed.task), Some(failed.profile.id));
    Routing.SelectExact(cfg.router, r.payload, terms, reading);
    FallbackTask(cfg, r, failed, reading);
    forall p ensures Routing.Eligible(cfg.router, p, r.payload, terms, failed.task)
      <==> !p.local && Routing.Eligible(cfg.router, p, r.payload, TermsOf(cfg, r.tenant, None, None), failed.task)
    {
      FallbackFilter(cfg, r, p, failed);
    }
  }

  lemma FallbackTask(cfg: Config, r: Request, failed: Routing.Decision, reading: Routing.Reading)
    requires Allowed(cfg, r, failed)
    ensures var terms := TermsOf(cfg, r.tenant, Some(failed.task), Some(failed.profile.id));
      Routing.TaskOf(r.payload, terms, reading) == failed.task
  {
  }

  /** An unavailable engine is answered by a second dispatch exactly when the first one was
      local and an external model passes the same filter; otherwise the request fails. */
  lemma FallsBackExactlyWhen(cfg: Config, maxConcurrency: nat, events: seq<Event>, id: nat,
                             reading: Routing.Reading, canary: bool)
    requires id in Run(cfg, maxConcurrency, events).requests
    requires Run(cfg, maxConcurrency, events).requests[id].phase.Calling?
    ensures var g := Run(cfg, maxConcurrency, events); var r := g.requests[id];
      var next := Step(cfg, g, Answer(id, Unavailable, reading, canary)).requests[id];
      var failed := r.phase.route.decision;
      if |r.dispatches| == 1 && failed.profile.local && HasExternal(cfg, r, failed.task)
      then next.phase.Calling? && |next.dispatches| == 2 && !next.phase.route.decision.profile.local
      else next.phase == Finished(Failed) && next.dispatches == r.dispatches
  {
    hide Run, HasExternal, Fallback;
    var g := Run(cfg, maxConcurrency, events);
    var r := g.requests[id];
    RunKeepsDispatches(cfg, maxConcurrency, events);
    assert DispatchesOk(cfg, r);
    var last := r.dispatches[|r.dispatches| - 1];
    assert Vetted(cfg, r, last);
    CallsAreNotRefused(cfg, r, last);
    FallbackExists(cfg, r, last.route.decision, reading);
    FallbackIsExternal(cfg, r, last.route.decision, reading);
  }

  lemma CallsAreNotRefused(cfg: Config, r: Request, d: Dispatch)
    requires Vetted(cfg, r, d)
    ensures TargetOf(cfg, r, d.route.decision) != Routing.Refused
  {
  }

  lemma FallbackIsExternal(cfg: Config, r: Request, failed: Routing.Decision, reading: Routing.Reading)
    ensures var fallback := Fallback(cfg, r, failed, reading); fallback.Some? ==> !fallback.value.profile.local
  {
    SelectedIsAllowed(cfg, r, Some(failed.task), Some(failed.profile.id), reading);
  }
}
