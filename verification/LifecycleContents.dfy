// What a caller receives and what the caches keep: streams have one shape and
// name one model, and a cached answer is one that was served in full.
module LifecycleContents {
  import opened Lifecycle
  import opened Models
  import opened Wrappers

  // ------------------------------------------------------------ stream shape

  function Deltas(model: string, collected: seq<string>): seq<Sent> {
    if collected == [] then []
    else Deltas(model, collected[..|collected| - 1]) + [Chunk(model, Content(collected[|collected| - 1]))]
  }

  // Everything a stream has sent when its generator stands at this position.
  function Transcript(model: string, position: Position, collected: seq<string>): seq<Sent> {
    if position.NotStarted? then []
    else
      [Chunk(model, Role)] + Deltas(model, collected)
      + (if position.AfterStop? || position.AfterDone? then [Chunk(model, Stop)] else [])
      + (if position.AfterDone? then [DoneMark] else [])
  }

  ghost predicate StreamOk(s: Stream) {
    && s.sent == Transcript(s.route.decision.profile.id, s.position, s.collected)
    && (s.position.NotStarted? || s.position.AfterRole? ==> s.collected == [])
    && (s.position.AfterContent? ==> s.collected != [])
    && (s.collected != [] ==> s.first == Some(s.collected[0]))
    && ((s.position.AfterStop? || s.position.AfterDone?) && s.first.Some? ==> s.collected != [])
  }

  // What the caller reads out of a stream.
  function ContentSent(sent: seq<Sent>): string {
    if sent == [] then ""
    else
      var last := sent[|sent| - 1];
      ContentSent(sent[..|sent| - 1]) + (if last.Chunk? && last.body.Content? then last.body.text else "")
  }

  lemma ContentAppended(front: seq<Sent>, last: Sent)
    ensures ContentSent(front + [last]) ==
      ContentSent(front) + (if last.Chunk? && last.body.Content? then last.body.text else "")
    ensures ContentSent([]) == ""
  {
    assert (front + [last])[..|front|] == front;
  }

  lemma {:induction false} ContentOfDeltas(model: string, collected: seq<string>)
    ensures ContentSent([Chunk(model, Role)] + Deltas(model, collected)) == Joined(collected)
  {
    hide ContentSent;
    if collected == [] {
      ContentAppended([], Chunk(model, Role));
      assert [Chunk(model, Role)] + Deltas(model, collected) == [] + [Chunk(model, Role)];
    } else {
      var front, last := collected[..|collected| - 1], Chunk(model, Content(collected[|collected| - 1]));
      ContentOfDeltas(model, front);
      ContentAppended([Chunk(model, Role)] + Deltas(model, front), last);
      assert [Chunk(model, Role)] + Deltas(model, collected) == [Chunk(model, Role)] + Deltas(model, front) + [last];
    }
  }

  lemma ContentOfTranscript(model: string, position: Position, collected: seq<string>)
    requires position.NotStarted? ==> collected == []
    ensures ContentSent(Transcript(model, position, collected)) == Joined(collected)
  {
    hide ContentSent, Joined, Deltas;
    var open := [Chunk(model, Role)] + Deltas(model, collected);
    ContentOfDeltas(model, collected);
    ContentAppended(open, Chunk(model, Stop));
    ContentAppended(open + [Chunk(model, Stop)], DoneMark);
    match position {
      case NotStarted => EmptyJoin();
      case AfterRole => assert Transcript(model, position, collected) == open;
      case AfterContent => assert Transcript(model, position, collected) == open;
      case AfterStop => assert Transcript(model, position, collected) == open + [Chunk(model, Stop)];
      case AfterDone => assert Transcript(model, position, collected) == open + [Chunk(model, Stop)] + [DoneMark];
    }
  }

  lemma EmptyJoin()
    ensures Joined([]) == ""
  {
  }

  lemma {:induction false} DeltasNameOneModel(model: string, collected: seq<string>)
    ensures forall c :: c in Deltas(model, collected) ==> c.Chunk? && c.model == model && c.body.Content?
  {
    if collected != [] {
      DeltasNameOneModel(model, collected[..|collected| - 1]);
    }
  }

  lemma DeltasGrow(model: string, collected: seq<string>, text: string)
    ensures Deltas(model, []) == []
    ensures Deltas(model, collected + [text]) == Deltas(model, collected) + [Chunk(model, Content(text))]
  {
    assert (collected + [text])[..|collected|] == collected;
  }

  lemma TranscriptGrows(model: string, collected: seq<string>, text: string)
    ensures Transcript(model, AfterRole, []) == [Chunk(model, Role)]
    ensures Transcript(model, AfterContent, collected) == Transcript(model, AfterRole, collected)
    ensures Transcript(model, AfterContent, collected + [text])
         == Transcript(model, AfterContent, collected) + [Chunk(model, Content(text))]
    ensures Transcript(model, AfterStop, collected) == Transcript(model, AfterContent, collected) + [Chunk(model, Stop)]
    ensures Transcript(model, AfterDone, collected) == Transcript(model, AfterStop, collected) + [DoneMark]
  {
    DeltasGrow(model, collected, text);
    hide Deltas;
  }

  lemma FirstContentIsOk(s: Stream, text: string)
    requires s.position.AfterRole? && s.first == Some(text) && StreamOk(s)
    ensures StreamOk(Yielding(s.(collected := [text]), AfterContent, Content(text)))
  {
    TranscriptGrows(s.route.decision.profile.id, [], text);
    hide Transcript;
    assert [] + [text] == [text];
  }

  lemma ContentIsOk(s: Stream, text: string)
    requires s.position.AfterContent? && StreamOk(s)
    ensures StreamOk(Yielding(s.(collected := s.collected + [text]), AfterContent, Content(text)))
  {
    TranscriptGrows(s.route.decision.profile.id, s.collected, text);
    hide Transcript;
  }

  lemma StopIsOk(s: Stream)
    requires s.position.AfterContent? || (s.position.AfterRole? && s.first.None?)
    requires StreamOk(s)
    ensures StreamOk(Yielding(s, AfterStop, Stop))
  {
    TranscriptGrows(s.route.decision.profile.id, s.collected, "");
    hide Transcript;
  }

  lemma DoneIsOk(s: Stream)
    requires s.position.AfterStop? && StreamOk(s)
    ensures StreamOk(s.(position := AfterDone, sent := s.sent + [DoneMark]))
  {
    TranscriptGrows(s.route.decision.profile.id, s.collected, "");
    hide Transcript;
  }

  lemma RoleIsOk(s: Stream)
    requires s.position.NotStarted? && StreamOk(s)
    ensures StreamOk(Yielding(s, AfterRole, Role))
  {
    TranscriptGrows(s.route.decision.profile.id, [], "");
  }

  lemma ClosingIsOk(s: Stream)
    requires StreamOk(s)
    ensures StreamOk(GeneratorOver(s))
  {
    hide Transcript;
  }

  lemma ResumedIsOk(s: Stream, drawn: Drawn)
    requires s.live && StreamOk(s)
    ensures StreamOk(Resumed(s, drawn))
  {
    hide StreamOk, Yielding, GeneratorOver;
    ClosingIsOk(s);
    match s.position {
      case NotStarted => RoleIsOk(s);
      case AfterRole =>
        if s.first.Some? {
          FirstContentIsOk(s, s.first.value);
        } else {
          StopIsOk(s);
        }
      case AfterContent =>
        StopIsOk(s);
        if drawn.Delta? {
          ContentIsOk(s, drawn.text);
        }
      case AfterStop => DoneIsOk(s);
      case AfterDone =>
    }
  }

  // ----------------------------------------------------------- cache contents

  ghost predicate WritesOk(cfg: Config, r: Request) {
    match r.phase
    case Streaming(s) =>
      && StreamOk(s)
      && (r.writes == []
          || (s.position.AfterDone? && !s.live
              && r.writes <= CacheWrites(cfg, r.payload, s.route, Joined(s.collected))))
    case Finished(Served(text)) =>
      r.dispatches != [] && r.writes == CacheWrites(cfg, r.payload, r.dispatches[|r.dispatches| - 1].route, text)
    case Finished(Lost(text)) =>
      r.dispatches != [] && r.writes <= CacheWrites(cfg, r.payload, r.dispatches[|r.dispatches| - 1].route, text)
    case _ => r.writes == []
  }

  ghost predicate RouteOk(r: Request) {
    match r.phase
    case Calling(route, _) => r.dispatches != [] && r.dispatches[|r.dispatches| - 1].route == route
    case Replied(route, _) => r.dispatches != [] && r.dispatches[|r.dispatches| - 1].route == route
    case Streaming(s) => r.dispatches != [] && r.dispatches[|r.dispatches| - 1].route == s.route
    case _ => true
  }

  lemma PullKeepsContents(cfg: Config, r: Request, drawn: Drawn, kept: nat)
    requires r.phase.Streaming? && r.phase.stream.live && WritesOk(cfg, r)
    ensures WritesOk(cfg, AfterPull(cfg, r, drawn, kept).request)
  {
    hide StreamOk, Transcript, CacheWrites, Joined;
    ResumedIsOk(r.phase.stream, drawn);
  }

  lemma LocalKeepsContents(cfg: Config, r: Request, e: Event, free: bool)
    requires WritesOk(cfg, r) && RouteOk(r)
    ensures var next := Counted(Local(cfg, r, e, free)); WritesOk(cfg, next) && RouteOk(next)
  {
    hide CacheWrites, Joined, AfterPull, AfterCall, Transcript, TargetOf;
    if e.Pull? && r.phase.Streaming? && r.phase.stream.live && !r.phase.stream.ended {
      PullKeepsContents(cfg, r, e.drawn, e.kept);
      PullKeepsRoute(cfg, r, e.drawn, e.kept);
    } else if e.Answer? && r.phase.Calling? {
      AnswerKeepsContents(cfg, r, e);
    }
  }

  lemma PullKeepsRoute(cfg: Config, r: Request, drawn: Drawn, kept: nat)
    requires r.phase.Streaming? && r.phase.stream.live && RouteOk(r)
    ensures RouteOk(AfterPull(cfg, r, drawn, kept).request)
  {
    hide CacheWrites, Joined;
  }

  lemma AnswerKeepsContents(cfg: Config, r: Request, e: Event)
    requires WritesOk(cfg, r) && RouteOk(r) && r.phase.Calling? && e.Answer?
    ensures var next := AfterCall(cfg, r, e.outcome, e.reading, e.canary).request; WritesOk(cfg, next) && RouteOk(next)
  {
    hide CacheWrites, Joined, Fallback, TargetOf;
  }

  ghost predicate AllContentsOk(cfg: Config, g: Gateway) {
    forall id :: id in g.requests ==> WritesOk(cfg, g.requests[id]) && RouteOk(g.requests[id])
  }

  lemma ArrivalIsOk(cfg: Config, a: Arrival)
    ensures WritesOk(cfg, Arrived(cfg, a)) && RouteOk(Arrived(cfg, a))
  {
    hide Effective, TermsOf;
  }

  lemma StepKeepsContents(cfg: Config, g: Gateway, e: Event)
    requires AllContentsOk(cfg, g)
    ensures AllContentsOk(cfg, Step(cfg, g, e))
  {
    hide WritesOk, RouteOk, Local, Arrived, Counted;
    if e.Arrive? {
      ArrivalIsOk(cfg, e.arrival);
    } else if e.id in g.requests {
      LocalKeepsContents(cfg, g.requests[e.id], e, g.slots.free > 0);
    }
  }

  lemma {:induction false} RunKeepsContents(cfg: Config, maxConcurrency: nat, events: seq<Event>)
    ensures AllContentsOk(cfg, Run(cfg, maxConcurrency, events))
  {
    hide WritesOk, RouteOk, Step;
    if events != [] {
      RunKeepsContents(cfg, maxConcurrency, events[..|events| - 1]);
      StepKeepsContents(cfg, Run(cfg, maxConcurrency, events[..|events| - 1]), events[|events| - 1]);
    }
  }

  // ------------------------------------------------------------ what it means

  // The last route a request was dispatched along.
  function LastRoute(r: Request): Route
    requires r.dispatches != []
  {
    r.dispatches[|r.dispatches| - 1].route
  }

  /** Every chunk of a stream names the model of its last dispatch; the stream opens with
      the role, may then carry content that starts with the delta drawn before the
      response, and is marked done only after it was stopped. */
  lemma StreamsHaveOneShape(cfg: Config, maxConcurrency: nat, events: seq<Event>, id: nat)
    requires id in Run(cfg, maxConcurrency, events).requests
    requires Run(cfg, maxConcurrency, events).requests[id].phase.Streaming?
    ensures var r := Run(cfg, maxConcurrency, events).requests[id]; var s := r.phase.stream;
      && r.dispatches != []
      && (forall c :: c in s.sent && c.Chunk? ==> c.model == LastRoute(r).decision.profile.id)
      && s.sent == Transcript(LastRoute(r).decision.profile.id, s.position, s.collected)
      && (s.collected != [] ==> s.first == Some(s.collected[0]))
      && (DoneMark in s.sent ==> s.first.Some? ==> s.collected != [])
  {
    hide Run;
    RunKeepsContents(cfg, maxConcurrency, events);
    var r := Run(cfg, maxConcurrency, events).requests[id];
    assert WritesOk(cfg, r) && RouteOk(r);
    DeltasNameOneModel(LastRoute(r).decision.profile.id, r.phase.stream.collected);
  }

  // The text of an answer: what a stream's chunks spell, or a buffered body.
  function TextServed(r: Request): string
    requires r.phase.Streaming? || (r.phase.Finished? && (r.phase.ending.Served? || r.phase.ending.Lost?))
  {
    match r.phase
    case Streaming(s) => ContentSent(s.sent)
    case Finished(ending) => ending.text
  }

  ghost predicate CompletedAnswer(r: Request) {
    || (r.phase.Streaming? && DoneMark in r.phase.stream.sent)
    || (r.phase.Finished? && (r.phase.ending.Served? || r.phase.ending.Lost?))
  }

  /** A cache entry is the whole text of a completed answer under the model that produced
      it; nothing from a canary, a restricted request or a sampled generation is kept, and
      only public requests for approved tasks reach the semantic cache. */
  lemma CachedIsWhatWasServed(cfg: Config, maxConcurrency: nat, events: seq<Event>, id: nat, w: Write)
    requires id in Run(cfg, maxConcurrency, events).requests
    requires w in Run(cfg, maxConcurrency, events).requests[id].writes
    ensures var r := Run(cfg, maxConcurrency, events).requests[id];
      && r.dispatches != [] && CompletedAnswer(r)
      && w.text == TextServed(r)
      && w.modelId == LastRoute(r).decision.profile.id && w.modelRevision == LastRoute(r).decision.profile.revision
      && cfg.cacheEnabled && !LastRoute(r).canary
      && r.payload.temperature == 0.0 && r.payload.routing.privacy != Restricted
      && (w.store.Semantic? ==>
        cfg.semanticEnabled && r.payload.routing.privacy == Public && LastRoute(r).decision.task in SEMANTIC_TASKS)
  {
    hide Run, Joined, Deltas, ContentSent;
    RunKeepsContents(cfg, maxConcurrency, events);
    var r := Run(cfg, maxConcurrency, events).requests[id];
    assert WritesOk(cfg, r) && RouteOk(r);
    if r.phase.Streaming? {
      var s := r.phase.stream;
      ContentOfTranscript(s.route.decision.profile.id, s.position, s.collected);
      assert s.sent[|s.sent| - 1] == DoneMark;
    }
  }

  /** A buffered answer that was served in full has been offered to every cache it may enter. */
  lemma ServedIsCachedIff(cfg: Config, maxConcurrency: nat, events: seq<Event>, id: nat)
    requires id in Run(cfg, maxConcurrency, events).requests
    requires var p := Run(cfg, maxConcurrency, events).requests[id].phase; p.Finished? && p.ending.Served?
    ensures var r := Run(cfg, maxConcurrency, events).requests[id];
      && r.dispatches != []
      && ((exists w :: w in r.writes && w.store == Exact) <==>
        cfg.cacheEnabled && !LastRoute(r).canary && ExactEligible(r.payload))
      && ((exists w :: w in r.writes && w.store == Semantic) <==>
        cfg.cacheEnabled && cfg.semanticEnabled && !LastRoute(r).canary
        && SemanticEligible(r.payload, LastRoute(r).decision.task))
  {
    hide Run, ExactEligible, SemanticEligible;
    RunKeepsContents(cfg, maxConcurrency, events);
    var r := Run(cfg, maxConcurrency, events).requests[id];
    assert WritesOk(cfg, r);
    var text, p := r.phase.ending.text, LastRoute(r).decision.profile;
    assert Write(Exact, text, p.id, p.revision) in r.writes <==>
      cfg.cacheEnabled && !LastRoute(r).canary && ExactEligible(r.payload);
    assert Write(Semantic, text, p.id, p.revision) in r.writes <==>
      cfg.cacheEnabled && cfg.semanticEnabled && !LastRoute(r).canary
      && SemanticEligible(r.payload, LastRoute(r).decision.task);
  }

  // The stores that a text is written to.
  lemma WritesExactly(cfg: Config, payload: ChatRequest, route: Route, text: string)
    ensures var all := CacheWrites(cfg, payload, route, text);
      && |all| <= 2
      && ((exists w :: w in all && w.store == Exact) <==>
        && cfg.cacheEnabled && !route.canary && payload.temperature == 0.0 && payload.routing.privacy != Restricted)
      && ((exists w :: w in all && w.store == Semantic) <==>
        && cfg.cacheEnabled && cfg.semanticEnabled && !route.canary
        && payload.temperature == 0.0 && payload.routing.privacy == Public
        && route.decision.task in {Classification, Extraction, Summarization})
  {
    var all, p := CacheWrites(cfg, payload, route, text), route.decision.profile;
    assert cfg.cacheEnabled && !route.canary && ExactEligible(payload) ==> Write(Exact, text, p.id, p.revision) in all;
    var open := cfg.cacheEnabled && cfg.semanticEnabled && !route.canary;
    assert open && SemanticEligible(payload, route.decision.task) ==> Write(Semantic, text, p.id, p.revision) in all;
  }

  lemma LiveStreamsHaveWrittenNothing(cfg: Config, maxConcurrency: nat, events: seq<Event>, id: nat)
    requires id in Run(cfg, maxConcurrency, events).requests
    requires var p := Run(cfg, maxConcurrency, events).requests[id].phase; p.Streaming? && p.stream.live
    ensures Run(cfg, maxConcurrency, events).requests[id].writes == []
  {
    hide Run;
    RunKeepsContents(cfg, maxConcurrency, events);
    assert WritesOk(cfg, Run(cfg, maxConcurrency, events).requests[id]);
  }

  lemma StreamingStaysPut(cfg: Config, r: Request, e: Event, free: bool)
    requires r.phase.Streaming?
    ensures var next := Counted(Local(cfg, r, e, free));
      && next.phase.Streaming? && next.dispatches == r.dispatches
      && r.phase.stream.sent <= next.phase.stream.sent
  {
    hide Joined, CacheWrites, AfterCall, Kept;
  }

  /** Once the response has begun no backend is called again for the request, and what
      was sent is never taken back, whatever happens afterwards. */
  lemma {:induction false} NoFallbackOnceStreaming(
      cfg: Config, maxConcurrency: nat, events: seq<Event>, more: seq<Event>, id: nat)
    requires id in Run(cfg, maxConcurrency, events).requests
    requires Run(cfg, maxConcurrency, events).requests[id].phase.Streaming?
    ensures var g, later := Run(cfg, maxConcurrency, events), Run(cfg, maxConcurrency, events + more);
      && id in later.requests && later.requests[id].phase.Streaming?
      && later.requests[id].dispatches == g.requests[id].dispatches
      && g.requests[id].phase.stream.sent <= later.requests[id].phase.stream.sent
  {
    hide Local, Counted, Arrived;
    if more == [] {
      assert events + more == events;
    } else {
      var front := more[..|more| - 1];
      assert (events + more)[..|events + more| - 1] == events + front;
      NoFallbackOnceStreaming(cfg, maxConcurrency, events, front, id);
      var g := Run(cfg, maxConcurrency, events + front);
      StreamingStaysPut(cfg, g.requests[id], more[|more| - 1], g.slots.free > 0);
    }
  }

  // ------------------------------------------------------ relaying a backend

  // The call this request is waiting for comes back with an answer.
  predicate Answers(cfg: Config, g: Gateway, e: Event, id: nat) {
    && e.Answer? && e.id == id && e.outcome.Produced?
    && id in g.requests && g.requests[id].phase.Calling?
    && OutcomeAt(TargetOf(cfg, g.requests[id], g.requests[id].phase.route.decision), e.outcome) == e.outcome
    && (g.requests[id].payload.stream || e.outcome.delta.Some?)
  }

  // What the latest answer to a request was, read off the trace.
  function LastAnswer(cfg: Config, maxConcurrency: nat, events: seq<Event>, id: nat): Option<Option<string>> {
    if events == [] then None
    else
      var front, e := events[..|events| - 1], events[|events| - 1];
      if Answers(cfg, Run(cfg, maxConcurrency, front), e, id) then Some(e.outcome.delta)
      else LastAnswer(cfg, maxConcurrency, front, id)
  }

  // The body generator of this request is resumed for a further delta and gets one.
  predicate Draws(g: Gateway, e: Event, id: nat) {
    && e.Pull? && e.id == id && e.drawn.Delta?
    && id in g.requests && g.requests[id].phase.Streaming?
    && var s := g.requests[id].phase.stream; s.live && !s.ended && s.position == AfterContent
  }

  // The deltas drawn for a request while its response ran, in the order of the trace.
  function DrawnDeltas(cfg: Config, maxConcurrency: nat, events: seq<Event>, id: nat): seq<string> {
    if events == [] then []
    else
      var front, e := events[..|events| - 1], events[|events| - 1];
      DrawnDeltas(cfg, maxConcurrency, front, id)
      + (if Draws(Run(cfg, maxConcurrency, front), e, id) then [e.drawn.text] else [])
  }

  // The delta drawn before the response began, once the generator has passed it on.
  function Opened(s: Stream): seq<string> {
    if s.first.None? || s.position == NotStarted || s.position == AfterRole then [] else [s.first.value]
  }

  predicate RelayOk(r: Request, answer: Option<Option<string>>, drawn: seq<string>) {
    match r.phase
    case Streaming(s) =>
      && answer == Some(s.first) && s.collected == Opened(s) + drawn
      && (s.position == NotStarted || s.position == AfterRole ==> drawn == [])
      && (s.position == AfterContent ==> s.first.Some?)
    case Replied(_, text) => answer == Some(Some(text)) && drawn == []
    case Finished(Served(text)) => answer == Some(Some(text)) && drawn == []
    case Finished(Lost(text)) => answer == Some(Some(text)) && drawn == []
    case _ => answer == None && drawn == []
  }

  lemma ResumptionRelays(s: Stream, d: Drawn, drawn: seq<string>)
    requires s.live && s.collected == Opened(s) + drawn
    requires s.position == NotStarted || s.position == AfterRole ==> drawn == []
    requires s.position == AfterContent ==> s.first.Some?
    ensures var next := Resumed(s, d);
      var more := drawn + (if s.position == AfterContent && d.Delta? then [d.text] else []);
      && next.first == s.first && next.collected == Opened(next) + more
      && (next.position == NotStarted || next.position == AfterRole ==> more == [])
      && (next.position == AfterContent ==> next.first.Some?)
  {
  }

  lemma LocalRelays(cfg: Config, g: Gateway, e: Event, id: nat, answer: Option<Option<string>>, drawn: seq<string>)
    requires id in g.requests && RelayOk(g.requests[id], answer, drawn)
    requires e.id == id && !e.Arrive?
    ensures RelayOk(Counted(Local(cfg, g.requests[id], e, g.slots.free > 0)),
                    if Answers(cfg, g, e, id) then Some(e.outcome.delta) else answer,
                    drawn + (if Draws(g, e, id) then [e.drawn.text] else []))
  {
    hide CacheWrites, Joined, Kept, Fallback, TargetOf, Resumed;
    var r := g.requests[id];
    assert drawn + [] == drawn;
    if e.Pull? && r.phase.Streaming? && r.phase.stream.live && !r.phase.stream.ended {
      ResumptionRelays(r.phase.stream, e.drawn, drawn);
    }
  }

  lemma {:induction false} RunRelays(cfg: Config, maxConcurrency: nat, events: seq<Event>, id: nat)
    ensures var g := Run(cfg, maxConcurrency, events);
      var answer, drawn := LastAnswer(cfg, maxConcurrency, events, id), DrawnDeltas(cfg, maxConcurrency, events, id);
      if id in g.requests then RelayOk(g.requests[id], answer, drawn) else answer == None && drawn == []
  {
    hide RelayOk, Local, Counted, Arrived;
    if events != [] {
      var front, e := events[..|events| - 1], events[|events| - 1];
      var g := Run(cfg, maxConcurrency, front);
      RunRelays(cfg, maxConcurrency, front, id);
      assert DrawnDeltas(cfg, maxConcurrency, front, id) + [] == DrawnDeltas(cfg, maxConcurrency, front, id);
      if e.Arrive? {
        ArrivalRelays(cfg, e.arrival);
      } else if id in g.requests && e.id == id {
        LocalRelays(
          cfg, g, e, id, LastAnswer(cfg, maxConcurrency, front, id), DrawnDeltas(cfg, maxConcurrency, front, id));
      }
    }
  }

  lemma ArrivalRelays(cfg: Config, a: Arrival)
    ensures RelayOk(Arrived(cfg, a), None, [])
  {
    hide Effective, TermsOf;
  }

  /** In every run a stream carries exactly what its backend gave it: the delta of the answer
      that began it, then the deltas drawn since, in order and nothing else. */
  lemma StreamRelaysTheBackend(cfg: Config, maxConcurrency: nat, events: seq<Event>, id: nat)
    requires id in Run(cfg, maxConcurrency, events).requests
    requires Run(cfg, maxConcurrency, events).requests[id].phase.Streaming?
    ensures var s := Run(cfg, maxConcurrency, events).requests[id].phase.stream;
      && LastAnswer(cfg, maxConcurrency, events, id) == Some(s.first)
      && s.collected == Opened(s) + DrawnDeltas(cfg, maxConcurrency, events, id)
      && ContentSent(s.sent) == Joined(s.collected)
  {
    hide Run, LastAnswer, DrawnDeltas, Joined, ContentSent, Transcript;
    RunRelays(cfg, maxConcurrency, events, id);
    RunKeepsContents(cfg, maxConcurrency, events);
    var r := Run(cfg, maxConcurrency, events).requests[id];
    assert WritesOk(cfg, r);
    var s := r.phase.stream;
    ContentOfTranscript(s.route.decision.profile.id, s.position, s.collected);
  }

  /** In every run a buffered answer is served, or lost to a failing cache, as the backend's
      latest answer to that request gave it. */
  lemma BufferedAnswerIsServed(cfg: Config, maxConcurrency: nat, events: seq<Event>, id: nat)
    requires id in Run(cfg, maxConcurrency, events).requests
    ensures var p := Run(cfg, maxConcurrency, events).requests[id].phase;
      && (p.Replied? ==> LastAnswer(cfg, maxConcurrency, events, id) == Some(Some(p.text)))
      && (p.Finished? && (p.ending.Served? || p.ending.Lost?) ==>
        LastAnswer(cfg, maxConcurrency, events, id) == Some(Some(p.ending.text)))
  {
    hide Run, LastAnswer, DrawnDeltas;
    RunRelays(cfg, maxConcurrency, events, id);
  }
}
