// One chat completion from arrival to its last byte, for any number of requests
// interleaved over one admission controller. Models _complete, _fallback_route,
// _stream_completion, _StreamLease, _LeasedStreamingResponse and _store_cache in
// src/llm_router/app.py. Code between two awaits is one step; what a backend,
// a cache, the quota or the classifier answers is part of the event.
module Lifecycle {
  import opened Admission
  import opened Models
  import opened Wrappers
  import Registry
  import Routing

  datatype Config = Config(
    router: Routing.Router,
    catalog: Option<Registry.Catalog>,
    externalConfigured: bool,
    cacheEnabled: bool,
    semanticEnabled: bool)

  // A decision and whether it is the canary arm of a staged adapter.
  datatype Route = Route(decision: Routing.Decision, canary: bool)

  // ------------------------------------------------------------------ routing

  function Effective(payload: ChatRequest, tenant: Option<Registry.Tenant>): ChatRequest {
    if tenant.None? then payload
    else
      payload.(routing := payload.routing.(
        privacy := Registry.StrictestPrivacy(payload.routing.privacy, tenant.value.minimumPrivacy)))
  }

  predicate TenantAllowsExternal(tenant: Option<Registry.Tenant>) {
    tenant.None? || tenant.value.allowExternalFallback != Some(false)
  }

  function TermsOf(cfg: Config, tenant: Option<Registry.Tenant>, task: Option<TaskClass>,
                   fallbackFrom: Option<string>): Routing.Terms {
    Routing.Terms(
      task,
      if cfg.catalog.Some? then Registry.PermittedModelsFor(cfg.catalog.value, tenant) else None,
      if tenant.Some? then tenant.value.qualityFloor else 0.0,
      TenantAllowsExternal(tenant),
      fallbackFrom)
  }

  function Fallback(cfg: Config, r: Request, failed: Routing.Decision, reading: Routing.Reading)
    : Option<Routing.Decision>
  {
    if !failed.profile.local then None
    else
      Routing.Select(cfg.router, r.payload, TermsOf(cfg, r.tenant, Some(failed.task), Some(failed.profile.id)), reading)
  }

  // -------------------------------------------------------------------- caches

  const SEMANTIC_TASKS: set<TaskClass> := {Classification, Extraction, Summarization}

  predicate ExactEligible(payload: ChatRequest) {
    payload.temperature == 0.0 && payload.routing.privacy != Restricted
  }

  predicate SemanticEligible(payload: ChatRequest, task: TaskClass) {
    payload.temperature == 0.0 && payload.routing.privacy == Public && task in SEMANTIC_TASKS
  }

  datatype Store = Exact | Semantic

  datatype Write = Write(store: Store, text: string, modelId: string, modelRevision: string)

  function CacheWrites(cfg: Config, payload: ChatRequest, route: Route, text: string): seq<Write> {
    var p := route.decision.profile;
    if !cfg.cacheEnabled || route.canary then []
    else
      (if ExactEligible(payload) then [Write(Exact, text, p.id, p.revision)] else [])
      + (if cfg.semanticEnabled && SemanticEligible(payload, route.decision.task)
         then [Write(Semantic, text, p.id, p.revision)] else [])
  }

  // A store that fails leaves the writes that came before it.
  function Kept(writes: seq<Write>, kept: nat): seq<Write> {
    if kept < |writes| then writes[..kept] else writes
  }

  // ------------------------------------------------------------------- streams

  datatype Body = Role | Content(text: string) | Stop

  datatype Sent = Chunk(model: string, body: Body) | DoneMark

  // How far the body generator has come: what it yielded last.
  datatype Position = NotStarted | AfterRole | AfterContent | AfterStop | AfterDone

  // live: the generator can still be resumed; closed: the lease gave its slot
  // back; ended: the response has returned.
  datatype Stream = Stream(
    route: Route,
    first: Option<string>,
    position: Position,
    live: bool,
    collected: seq<string>,
    sent: seq<Sent>,
    closed: bool,
    ended: bool)

  function Opening(route: Route, first: Option<string>): Stream {
    Stream(route, first, NotStarted, true, [], [], false, false)
  }

  // What the backend's stream does when the generator asks it for a delta.
  datatype Drawn = Delta(text: string) | Exhausted | Raises(unavailable: bool)

  function Yielding(s: Stream, position: Position, body: Body): Stream {
    s.(position := position, sent := s.sent + [Chunk(s.route.decision.profile.id, body)])
  }

  // The generator's own cleanup: it runs once started, and closes the lease.
  function GeneratorOver(s: Stream): Stream {
    if s.position == NotStarted then s.(live := false) else s.(live := false, closed := true)
  }

  // One resumption of a live generator.
  function Resumed(s: Stream, drawn: Drawn): Stream
    requires s.live
  {
    match s.position
    case NotStarted => Yielding(s, AfterRole, Role)
    case AfterRole =>
      if s.first.None? then Yielding(s, AfterStop, Stop)
      else Yielding(s.(collected := [s.first.value]), AfterContent, Content(s.first.value))
    case AfterContent =>
      (match drawn
       case Delta(text) => Yielding(s.(collected := s.collected + [text]), AfterContent, Content(text))
       case Exhausted => Yielding(s, AfterStop, Stop)
       case Raises(_) => GeneratorOver(s))
    case AfterStop => s.(position := AfterDone, sent := s.sent + [DoneMark])
    case AfterDone => GeneratorOver(s)
  }

  function ResponseOver(s: Stream): Stream {
    s.(ended := true, closed := true)
  }

  function Joined(parts: seq<string>): string {
    if parts == [] then "" else Joined(parts[..|parts| - 1]) + parts[|parts| - 1]
  }

  // ------------------------------------------------------------------ requests

  // What a backend call comes to: buffered text or the first delta, if any; the
  // engine unavailable; or anything else, cancellation included.
  datatype Outcome = Produced(delta: Option<string>) | Unavailable | Broken

  datatype Ending = Rejected | FromCache | Failed | Served(text: string) | Lost(text: string)

  datatype Phase =
    | Queued(route: Route)
    | Calling(route: Route, retried: bool)
    | Replied(route: Route, text: string)
    | Streaming(stream: Stream)
    | Finished(ending: Ending)

  datatype Dispatch = Dispatch(route: Route, target: Routing.Target)

  // What the canary monitor is told about a request's first or second dispatch. It
  // disregards a route without a staged adapter.
  datatype Verdict = Verdict(attempt: nat, ok: bool)

  // payload carries the effective privacy class; dispatches, heard, writes, taken and
  // given record what the request did to its surroundings.
  datatype Request = Request(
    payload: ChatRequest,
    declared: Privacy,
    tenant: Option<Registry.Tenant>,
    phase: Phase,
    dispatches: seq<Dispatch>,
    heard: seq<Verdict>,
    writes: seq<Write>,
    taken: nat,
    given: nat)

  datatype Effect = Keep | Take | Give

  datatype Move = Move(request: Request, effect: Effect)

  datatype Arrival = Arrival(
    payload: ChatRequest,
    tenant: Option<Registry.Tenant>,
    charged: bool,
    hit: bool,
    cachedTask: Option<TaskClass>,
    reading: Routing.Reading,
    canary: bool)

  datatype Event =
    | Arrive(id: nat, arrival: Arrival)
    | Admit(id: nat)
    | GiveUp(id: nat)
    | Answer(id: nat, outcome: Outcome, reading: Routing.Reading, canary: bool)
    | Deliver(id: nat, kept: nat)
    | Pull(id: nat, drawn: Drawn, kept: nat)
    | CloseGenerator(id: nat)
    | EndResponse(id: nat)

  // Up to the wait for a slot: floor, quota, cache lookup, route.
  function Arrived(cfg: Config, a: Arrival): Request {
    var payload := Effective(a.payload, a.tenant);
    var r := Request(payload, a.payload.routing.privacy, a.tenant, Finished(Rejected), [], [], [], 0, 0);
    if !a.charged then r
    else if a.hit then r.(phase := Finished(FromCache))
    else
      var decision := Routing.Select(cfg.router, payload, TermsOf(cfg, a.tenant, a.cachedTask, None), a.reading);
      if decision.None? then r else r.(phase := Queued(Route(decision.value, a.canary)))
  }

  function TargetOf(cfg: Config, r: Request, d: Routing.Decision): Routing.Target {
    Routing.TargetOf(r.payload, d.profile, cfg.externalConfigured)
  }

  function Called(cfg: Config, r: Request, route: Route, retried: bool): Request {
    r.(phase := Calling(route, retried),
       dispatches := r.dispatches + [Dispatch(route, TargetOf(cfg, r, route.decision))])
  }

  function Told(r: Request, ok: bool): Request {
    r.(heard := r.heard + [Verdict(|r.dispatches|, ok)])
  }

  // The boundary answers for the two targets it never calls.
  function OutcomeAt(target: Routing.Target, outcome: Outcome): Outcome {
    match target
    case Refused => Broken
    case NoProvider => Unavailable
    case _ => outcome
  }

  function AfterCall(cfg: Config, r: Request, outcome: Outcome, reading: Routing.Reading, canary: bool): Move
    requires r.phase.Calling?
  {
    var route := r.phase.route;
    match OutcomeAt(TargetOf(cfg, r, route.decision), outcome)
    case Produced(delta) =>
      if r.payload.stream then Move(r.(phase := Streaming(Opening(route, delta))), Keep)
      else if delta.Some? then Move(r.(phase := Replied(route, delta.value)), Give)
      else Move(r, Keep)
    case Unavailable =>
      if r.phase.retried then Move(r.(phase := Finished(Failed)), Give)
      else
        var told := Told(r, false);
        var fallback := Fallback(cfg, r, route.decision, reading);
        if fallback.Some? then Move(Called(cfg, told, Route(fallback.value, canary), true), Keep)
        else Move(told.(phase := Finished(Failed)), Give)
    case Broken => Move(r.(phase := Finished(Failed)), Give)
  }

  function AfterDelivery(cfg: Config, r: Request, kept: nat): Request
    requires r.phase.Replied?
  {
    var text, all := r.phase.text, CacheWrites(cfg, r.payload, r.phase.route, r.phase.text);
    Told(r, true).(writes := Kept(all, kept), phase := Finished(if kept < |all| then Lost(text) else Served(text)))
  }

  // A stream moved on: the slot goes back when its lease first closes.
  function Streamed(r: Request, s: Stream): Move
    requires r.phase.Streaming?
  {
    Move(r.(phase := Streaming(s)), if s.closed && !r.phase.stream.closed then Give else Keep)
  }

  function AfterPull(cfg: Config, r: Request, drawn: Drawn, kept: nat): Move
    requires r.phase.Streaming? && r.phase.stream.live
  {
    var s := r.phase.stream;
    var storing :=
      if s.position == AfterDone then Kept(CacheWrites(cfg, r.payload, s.route, Joined(s.collected)), kept)
      else [];
    var told :=
      if s.position == AfterDone then Told(r, true)
      else if s.position == AfterContent && drawn == Raises(true) then Told(r, false)
      else r;
    Streamed(told.(writes := r.writes + storing), Resumed(s, drawn))
  }

  // What one event does to one request; an event that does not apply changes nothing.
  function Local(cfg: Config, r: Request, e: Event, free: bool): Move {
    match e
    case Admit(_) =>
      if r.phase.Queued? && free then Move(Called(cfg, r, r.phase.route, false), Take) else Move(r, Keep)
    case GiveUp(_) =>
      if r.phase.Queued? then Move(r.(phase := Finished(Rejected)), Keep) else Move(r, Keep)
    case Answer(_, outcome, reading, canary) =>
      if r.phase.Calling? then AfterCall(cfg, r, outcome, reading, canary) else Move(r, Keep)
    case Deliver(_, kept) =>
      if r.phase.Replied? then Move(AfterDelivery(cfg, r, kept), Keep) else Move(r, Keep)
    case Pull(_, drawn, kept) =>
      if r.phase.Streaming? && r.phase.stream.live && !r.phase.stream.ended
      then AfterPull(cfg, r, drawn, kept) else Move(r, Keep)
    case CloseGenerator(_) =>
      if r.phase.Streaming? && r.phase.stream.live then Streamed(r, GeneratorOver(r.phase.stream)) else Move(r, Keep)
    case EndResponse(_) =>
      if r.phase.Streaming? then Streamed(r, ResponseOver(r.phase.stream)) else Move(r, Keep)
    case Arrive(_, _) => Move(r, Keep)
  }

  // ------------------------------------------------------------------- gateway

  datatype Gateway = Gateway(slots: Slots, requests: map<nat, Request>)

  function Booted(maxConcurrency: nat): Gateway {
    Gateway(Admission.Opened(maxConcurrency), map[])
  }

  function Applied(slots: Slots, effect: Effect): Slots {
    match effect
    case Keep => slots
    case Take => if slots.free > 0 then Acquired(slots) else slots
    case Give => Released(slots)
  }

  function Counted(m: Move): Request {
    match m.effect
    case Keep => m.request
    case Take => m.request.(taken := m.request.taken + 1)
    case Give => m.request.(given := m.request.given + 1)
  }

  function Step(cfg: Config, g: Gateway, e: Event): Gateway {
    if e.Arrive? then
      if e.id in g.requests then g else g.(requests := g.requests[e.id := Arrived(cfg, e.arrival)])
    else if e.id !in g.requests then g
    else
      var m := Local(cfg, g.requests[e.id], e, g.slots.free > 0);
      Gateway(Applied(g.slots, m.effect), g.requests[e.id := Counted(m)])
  }

  function Run(cfg: Config, maxConcurrency: nat, events: seq<Event>): Gateway {
    if events == [] then Booted(maxConcurrency)
    else Step(cfg, Run(cfg, maxConcurrency, events[..|events| - 1]), events[|events| - 1])
  }
}
