// Route selection: a hard filter, a score, and the first highest-scoring
// candidate. Models Router.select in src/llm_router/routing.py, and the
// dispatch boundary behind it in src/llm_router/backends.py. The classifier,
// the keyword rule and the load readings are inputs.
module Routing {
  import opened Models
  import opened Wrappers
  import Registry

  datatype Complexity = Low | Medium | High

  datatype Prediction = Prediction(task: TaskClass, complexity: Complexity)

  datatype Router = Router(profiles: seq<ModelProfile>, externalEnabled: bool)

  // The keyword arguments of one selection.
  datatype Terms = Terms(
    task: Option<TaskClass>,
    permittedModels: Option<set<string>>,
    qualityFloor: real,
    tenantAllowsExternal: bool,
    fallbackFrom: Option<string>)

  // What the router observes: the classifier or the keyword rule, and the load.
  datatype Reading = Reading(
    prediction: Option<Prediction>, keyword: TaskClass, queueMs: map<string, real>, saturation: real)

  datatype Decision = Decision(profile: ModelProfile, task: TaskClass, candidateCount: nat)

  // A declared task is a fact; then what the caller remembers, then what is predicted.
  function TaskOf(request: ChatRequest, terms: Terms, reading: Reading): TaskClass {
    if request.routing.task.Some? then request.routing.task.value
    else if terms.task.Some? then terms.task.value
    else if reading.prediction.Some? then reading.prediction.value.task
    else reading.keyword
  }

  function ComplexityOf(reading: Reading): Option<Complexity> {
    if reading.prediction.Some? then Some(reading.prediction.value.complexity) else None
  }

  function Larger(a: real, b: real): real {
    if b > a then b else a
  }

  function EstimatedTokens(request: ChatRequest): int {
    (if |request.prompt| / 4 > 1 then |request.prompt| / 4 else 1) + request.maxTokens
  }

  predicate PrivacyAllows(p: ModelProfile, privacy: Privacy) {
    p.local || privacy == Public
  }

  predicate ExternalAllows(router: Router, p: ModelProfile, request: ChatRequest, terms: Terms) {
    p.local || (router.externalEnabled && terms.tenantAllowsExternal && request.routing.allowExternalFallback)
  }

  predicate Eligible(router: Router, p: ModelProfile, request: ChatRequest, terms: Terms, task: TaskClass) {
    && p.healthy
    && task in p.supportedTasks
    && EstimatedTokens(request) <= p.contextLimit
    && p.QualityFor(task) >= Larger(request.routing.qualityFloor, terms.qualityFloor)
    && (request.routing.structured ==> p.structuredOutput)
    && request.routing.modalities <= p.modalities
    && PrivacyAllows(p, request.routing.privacy)
    && ExternalAllows(router, p, request, terms)
    && (terms.permittedModels.None? || p.id in terms.permittedModels.value)
    && (terms.fallbackFrom.None? || !p.local)
    && (request.model == "auto" || p.id == request.model)
  }

  function CandidatesAmong(router: Router, profiles: seq<ModelProfile>, request: ChatRequest, terms: Terms,
                           task: TaskClass): seq<ModelProfile> {
    if profiles == [] then []
    else
      (if Eligible(router, profiles[0], request, terms, task) then [profiles[0]] else [])
      + CandidatesAmong(router, profiles[1..], request, terms, task)
  }

  // ------------------------------------------------------------------- score

  // What one score depends on besides the profile and the engine's saturation.
  datatype Case = Case(task: TaskClass, complexity: Option<Complexity>, tier: LatencyTier, queueMs: map<string, real>)

  function CaseOf(request: ChatRequest, terms: Terms, reading: Reading): Case {
    Case(TaskOf(request, terms, reading), ComplexityOf(reading), request.routing.latencyTier, reading.queueMs)
  }

  function QualityWeight(c: Complexity): real {
    match c
    case Low => 0.0
    case Medium => 0.25
    case High => 1.5
  }

  function QueueMs(p: ModelProfile, c: Case): real {
    if p.id in c.queueMs then c.queueMs[p.id] else p.estimatedQueueMs as real
  }

  function LatencyPenalty(p: ModelProfile, c: Case): real {
    var penalty := QueueMs(p, c) / 100.0;
    match c.tier
    case Interactive => penalty * 2.0
    case Standard => penalty
    case Batch => penalty * 0.5
  }

  function SpecializationBonus(p: ModelProfile): real {
    if |p.supportedTasks| <= 2 then 10.0 else 0.0
  }

  function ComplexityBonus(p: ModelProfile, c: Case): real {
    match c.complexity
    case None => 0.0
    case Some(complexity) => (p.QualityFor(c.task) - 0.8) * 100.0 * QualityWeight(complexity)
  }

  // The score of a model while its engine is idle.
  function IdleScore(p: ModelProfile, c: Case): real {
    p.QualityFor(c.task) * 100.0 + SpecializationBonus(p) + ComplexityBonus(p, c)
    - LatencyPenalty(p, c) - p.costWeight * 10.0
  }

  function CapacityPenalty(p: ModelProfile, saturation: real): real {
    if p.local then saturation * 20.0 else 0.0
  }

  function Score(p: ModelProfile, c: Case, saturation: real): real {
    IdleScore(p, c) - CapacityPenalty(p, saturation)
  }

  function Scores(candidates: seq<ModelProfile>, c: Case, saturation: real): (r: seq<real>)
    ensures |r| == |candidates|
  {
    seq(|candidates|, i requires 0 <= i < |candidates| => Score(candidates[i], c, saturation))
  }

  // The scan of Python's max(): a later element wins only by being larger.
  function BestIndex(scores: seq<real>): (best: nat)
    requires scores != []
    ensures best < |scores|
  {
    var last := |scores| - 1;
    if last == 0 then 0
    else
      var best := BestIndex(scores[..last]);
      if scores[last] > scores[best] then last else best
  }

  // None where the source raises NoEligibleModelError.
  function Select(router: Router, request: ChatRequest, terms: Terms, reading: Reading): Option<Decision> {
    var c := CaseOf(request, terms, reading);
    var candidates := CandidatesAmong(router, router.profiles, request, terms, c.task);
    if candidates == [] then None
    else
      var best := BestIndex(Scores(candidates, c, reading.saturation));
      Some(Decision(candidates[best], c.task, |candidates|))
  }

  // ------------------------------------------------------- what selection is

  lemma {:induction false} CandidatesExact(router: Router, profiles: seq<ModelProfile>, request: ChatRequest,
                                           terms: Terms, task: TaskClass, p: ModelProfile)
    ensures p in CandidatesAmong(router, profiles, request, terms, task)
      <==> p in profiles && Eligible(router, p, request, terms, task)
  {
    hide Eligible;
    if profiles != [] {
      assert profiles == [profiles[0]] + profiles[1..];
      CandidatesExact(router, profiles[1..], request, terms, task, p);
    }
  }

  // Filtering keeps the order: what stands before a candidate is among the earlier candidates.
  lemma {:induction false} CandidatePlace(router: Router, profiles: seq<ModelProfile>, request: ChatRequest,
                                          terms: Terms, task: TaskClass, k: nat) returns (i: nat)
    requires k < |CandidatesAmong(router, profiles, request, terms, task)|
    ensures i < |profiles| && profiles[i] == CandidatesAmong(router, profiles, request, terms, task)[k]
    ensures forall j :: 0 <= j < i && Eligible(router, profiles[j], request, terms, task) ==>
      profiles[j] in CandidatesAmong(router, profiles, request, terms, task)[..k]
  {
    hide Eligible;
    var all, rest := CandidatesAmong(router, profiles, request, terms, task),
                     CandidatesAmong(router, profiles[1..], request, terms, task);
    var taken := if Eligible(router, profiles[0], request, terms, task) then 1 else 0;
    if k < taken {
      return 0;
    }
    var n := CandidatePlace(router, profiles[1..], request, terms, task, k - taken);
    i := n + 1;
    assert all[..k] == all[..taken] + rest[..k - taken];
    forall j | 0 <= j < i && Eligible(router, profiles[j], request, terms, task) ensures profiles[j] in all[..k] {
      if j == 0 {
        assert all[..k][0] == profiles[0];
      } else {
        assert profiles[j] == profiles[1..][j - 1];
      }
    }
  }

  ghost predicate IsFirstMax(scores: seq<real>, i: nat) {
    && i < |scores|
    && (forall j :: 0 <= j < |scores| ==> scores[j] <= scores[i])
    && (forall j :: 0 <= j < i ==> scores[j] < scores[i])
  }

  /** The scan finds the first maximum, and nothing else is one. */
  lemma {:induction false} BestIndexExact(scores: seq<real>, i: nat)
    requires scores != []
    ensures IsFirstMax(scores, i) <==> i == BestIndex(scores)
  {
    var last := |scores| - 1;
    var best := BestIndex(scores);
    if last > 0 {
      var front := scores[..last];
      BestIndexExact(front, BestIndex(front));
      assert forall j :: 0 <= j < last ==> scores[j] == front[j];
    }
    assert IsFirstMax(scores, best);
    if IsFirstMax(scores, i) {
      assert scores[i] == scores[best];
    }
  }

  // Where an eligible profile stands among the candidates.
  lemma CandidateIndex(candidates: seq<ModelProfile>, p: ModelProfile) returns (i: nat)
    requires p in candidates
    ensures i < |candidates| && candidates[i] == p
  {
    i :| 0 <= i < |candidates| && candidates[i] == p;
  }

  /** Of two equally good profiles the one listed first is chosen. */
  lemma TiesGoToTheFirst(router: Router, request: ChatRequest, terms: Terms, reading: Reading) returns (i: nat)
    requires Select(router, request, terms, reading).Some?
    ensures i < |router.profiles| && router.profiles[i] == Select(router, request, terms, reading).value.profile
    ensures var c := CaseOf(request, terms, reading);
      forall j :: 0 <= j < i && Eligible(router, router.profiles[j], request, terms, c.task) ==>
        Score(router.profiles[j], c, reading.saturation) < Score(router.profiles[i], c, reading.saturation)
  {
    hide Eligible, Score, BestIndex;
    var c := CaseOf(request, terms, reading);
    var candidates := CandidatesAmong(router, router.profiles, request, terms, c.task);
    var scores := Scores(candidates, c, reading.saturation);
    var best := BestIndex(scores);
    BestIndexExact(scores, best);
    i := CandidatePlace(router, router.profiles, request, terms, c.task, best);
    forall j | 0 <= j < i && Eligible(router, router.profiles[j], request, terms, c.task)
      ensures Score(router.profiles[j], c, reading.saturation) < Score(router.profiles[i], c, reading.saturation)
    {
      var k := CandidateIndex(candidates[..best], router.profiles[j]);
      assert scores[k] < scores[best];
    }
  }

  /** A request is refused exactly when policy removes every profile; otherwise the
      choice is eligible and no eligible profile outscores it. */
  lemma SelectExact(router: Router, request: ChatRequest, terms: Terms, reading: Reading)
    ensures var c := CaseOf(request, terms, reading); var chosen := Select(router, request, terms, reading);
      && (chosen.None? <==> forall p :: p in router.profiles ==> !Eligible(router, p, request, terms, c.task))
      && (chosen.Some? ==>
        && chosen.value.task == c.task
        && chosen.value.profile in router.profiles
        && Eligible(router, chosen.value.profile, request, terms, c.task)
        && forall p :: p in router.profiles && Eligible(router, p, request, terms, c.task) ==>
          Score(p, c, reading.saturation) <= Score(chosen.value.profile, c, reading.saturation))
  {
    hide Eligible, Score, BestIndex;
    var c := CaseOf(request, terms, reading);
    var candidates := CandidatesAmong(router, router.profiles, request, terms, c.task);
    forall p ensures p in candidates <==> p in router.profiles && Eligible(router, p, request, terms, c.task) {
      CandidatesExact(router, router.profiles, request, terms, c.task, p);
    }
    if candidates != [] {
      var scores := Scores(candidates, c, reading.saturation);
      var best := BestIndex(scores);
      BestIndexExact(scores, best);
      assert candidates[0] in router.profiles;
      forall p | p in candidates
        ensures Score(p, c, reading.saturation) <= Score(candidates[best], c, reading.saturation)
      {
        var i := CandidateIndex(candidates, p);
        assert scores[i] <= scores[best];
      }
    }
  }

  // A profile that can serve the request, condition by condition.
  predicate Serves(router: Router, p: ModelProfile, request: ChatRequest, terms: Terms, task: TaskClass) {
    var asked := request.routing;
    var quality := if task in p.qualityByTask then p.qualityByTask[task] else p.quality;
    && (request.model != "auto" ==> p.id == request.model)
    && p.healthy
    && task in p.supportedTasks
    && 1 + request.maxTokens <= p.contextLimit && |request.prompt| / 4 + request.maxTokens <= p.contextLimit
    && quality >= asked.qualityFloor && quality >= terms.qualityFloor
    && (asked.structured ==> p.structuredOutput)
    && (forall m :: m in asked.modalities ==> m in p.modalities)
    && (!p.local ==>
      asked.privacy == Public && router.externalEnabled && terms.tenantAllowsExternal && asked.allowExternalFallback)
    && (terms.permittedModels.Some? ==> p.id in terms.permittedModels.value)
    && (terms.fallbackFrom.Some? ==> !p.local)
  }

  lemma ServesIff(router: Router, p: ModelProfile, request: ChatRequest, terms: Terms, task: TaskClass)
    ensures Serves(router, p, request, terms, task) <==> Eligible(router, p, request, terms, task)
  {
  }

  /** What a caller gets: the chosen profile is one of the router's and can serve the request,
      by name if it names a model, and the request is refused only if none can. The task
      is the declared one, else the remembered, else the predicted, else the keyword's. */
  lemma SelectServesTheRequest(router: Router, request: ChatRequest, terms: Terms, reading: Reading)
    ensures var task := match request.routing.task
        case Some(declared) => declared
        case None =>
          (match terms.task
           case Some(remembered) => remembered
           case None => if reading.prediction.Some? then reading.prediction.value.task else reading.keyword);
      var chosen := Select(router, request, terms, reading);
      && (chosen.Some? ==>
        && chosen.value.task == task
        && chosen.value.profile in router.profiles && Serves(router, chosen.value.profile, request, terms, task))
      && (chosen.None? <==> forall p :: p in router.profiles ==> !Serves(router, p, request, terms, task))
  {
    hide Select, Eligible, Serves, Score;
    SelectExact(router, request, terms, reading);
    forall p ensures var task := TaskOf(request, terms, reading);
      Serves(router, p, request, terms, task) <==> Eligible(router, p, request, terms, task)
    {
      ServesIff(router, p, request, terms, TaskOf(request, terms, reading));
    }
  }

  // The points a profile earns, read off the request and the readings: quality counts a
  // hundredfold, once more by the complexity above a baseline of eighty points.
  function Points(p: ModelProfile, request: ChatRequest, reading: Reading, task: TaskClass): real {
    var quality := 100.0 * if task in p.qualityByTask then p.qualityByTask[task] else p.quality;
    var weight :=
      if reading.prediction.None? || reading.prediction.value.complexity == Low then 0.0
      else if reading.prediction.value.complexity == Medium then 0.25 else 1.5;
    var queue := if p.id in reading.queueMs then reading.queueMs[p.id] else p.estimatedQueueMs as real;
    var delay :=
      if request.routing.latencyTier == Interactive then queue / 50.0
      else if request.routing.latencyTier == Batch then queue / 200.0 else queue / 100.0;
    quality * (1.0 + weight) - 80.0 * weight + (if |p.supportedTasks| < 3 then 10.0 else 0.0)
    - delay - 10.0 * p.costWeight - (if p.local then 20.0 * reading.saturation else 0.0)
  }

  lemma PointsAreTheScore(p: ModelProfile, request: ChatRequest, terms: Terms, reading: Reading)
    ensures Points(p, request, reading, TaskOf(request, terms, reading))
         == Score(p, CaseOf(request, terms, reading), reading.saturation)
  {
  }

  /** And it earns the most points of all that can serve the request, more than any of those
      listed before it. */
  lemma SelectEarnsTheMostPoints(router: Router, request: ChatRequest, terms: Terms, reading: Reading) returns (i: nat)
    requires Select(router, request, terms, reading).Some?
    ensures i < |router.profiles| && router.profiles[i] == Select(router, request, terms, reading).value.profile
    ensures var task := Select(router, request, terms, reading).value.task;
      forall j :: 0 <= j < |router.profiles| && Serves(router, router.profiles[j], request, terms, task) ==>
        && Points(router.profiles[j], request, reading, task) <= Points(router.profiles[i], request, reading, task)
        && (j < i ==>
          Points(router.profiles[j], request, reading, task) < Points(router.profiles[i], request, reading, task))
  {
    hide Select, Eligible, Serves, Score, Points, TaskOf;
    SelectExact(router, request, terms, reading);
    i := TiesGoToTheFirst(router, request, terms, reading);
    var task := TaskOf(request, terms, reading);
    PointsAreTheScore(router.profiles[i], request, terms, reading);
    forall j | 0 <= j < |router.profiles| && Serves(router, router.profiles[j], request, terms, task)
      ensures Eligible(router, router.profiles[j], request, terms, task)
      ensures Points(router.profiles[j], request, reading, task)
           == Score(router.profiles[j], CaseOf(request, terms, reading), reading.saturation)
    {
      ServesIff(router, router.profiles[j], request, terms, task);
      PointsAreTheScore(router.profiles[j], request, terms, reading);
    }
  }

  // ------------------------------------------------- what the score rewards

  // Nothing about a speaks against it when it stands beside b.
  predicate NoWorse(a: ModelProfile, b: ModelProfile, c: Case, saturation: real) {
    && a.QualityFor(c.task) >= b.QualityFor(c.task)
    && (|b.supportedTasks| <= 2 ==> |a.supportedTasks| <= 2)
    && QueueMs(a, c) <= QueueMs(b, c)
    && a.costWeight <= b.costWeight
    && (a.local && saturation > 0.0 ==> b.local)
    && (b.local && saturation < 0.0 ==> a.local)
  }

  predicate BetterSomewhere(a: ModelProfile, b: ModelProfile, c: Case) {
    || a.QualityFor(c.task) > b.QualityFor(c.task)
    || QueueMs(a, c) < QueueMs(b, c)
    || a.costWeight < b.costWeight
  }

  /** For every task class, complexity and latency tier, a model that is no worse than
      another on every axis is never outscored by it, and wins if better on one. */
  lemma DominanceIsRespected(a: ModelProfile, b: ModelProfile, c: Case, saturation: real)
    requires NoWorse(a, b, c, saturation)
    ensures Score(a, c, saturation) >= Score(b, c, saturation)
    ensures BetterSomewhere(a, b, c) ==> Score(a, c, saturation) > Score(b, c, saturation)
  {
    assert CapacityPenalty(a, saturation) <= CapacityPenalty(b, saturation);
    assert LatencyPenalty(a, c) <= LatencyPenalty(b, c);
    assert QueueMs(a, c) < QueueMs(b, c) ==> LatencyPenalty(a, c) < LatencyPenalty(b, c);
    assert ComplexityBonus(a, c) >= ComplexityBonus(b, c);
  }

  /** No eligible model beats the chosen one on every axis at once. */
  lemma ChosenIsUndominated(router: Router, request: ChatRequest, terms: Terms, reading: Reading, p: ModelProfile)
    requires Select(router, request, terms, reading).Some?
    requires p in router.profiles && Eligible(router, p, request, terms, TaskOf(request, terms, reading))
    ensures var c := CaseOf(request, terms, reading);
      var chosen := Select(router, request, terms, reading).value.profile;
      NoWorse(p, chosen, c, reading.saturation) ==> !BetterSomewhere(p, chosen, c)
  {
    hide Score, Eligible, NoWorse, BetterSomewhere, Select;
    var c := CaseOf(request, terms, reading);
    var chosen := Select(router, request, terms, reading).value.profile;
    SelectExact(router, request, terms, reading);
    if NoWorse(p, chosen, c, reading.saturation) {
      DominanceIsRespected(p, chosen, c, reading.saturation);
    }
  }

  function WeightOf(c: Case): real {
    if c.complexity.Some? then QualityWeight(c.complexity.value) else 0.0
  }

  /** How far complexity pulls: of two models on one side of the boundary, the generalist
      beats the specialist exactly when its lead in quality, weighted by the complexity,
      exceeds the ten points of specialization and what it costs more in money and delay. */
  lemma SpecialistYieldsIff(general: ModelProfile, special: ModelProfile, c: Case, saturation: real)
    requires |general.supportedTasks| > 2 && |special.supportedTasks| <= 2 && general.local == special.local
    ensures var gap := (general.QualityFor(c.task) - special.QualityFor(c.task)) * 100.0;
      Score(general, c, saturation) > Score(special, c, saturation) <==>
      gap * (1.0 + WeightOf(c)) >
        10.0 + 10.0 * (general.costWeight - special.costWeight)
        + (LatencyPenalty(general, c) - LatencyPenalty(special, c))
  {
    hide LatencyPenalty;
  }

  /** High complexity need not outweigh specialization and cost: for every task class, tier
      and saturation, a generalist fourteen points better loses when it costs 2.6 more. */
  lemma CostOutweighsComplexity(task: TaskClass, tier: LatencyTier, saturation: real)
    returns (general: ModelProfile, special: ModelProfile, c: Case)
    ensures |general.supportedTasks| > 2 && |special.supportedTasks| <= 2 && general.local == special.local
    ensures c.task == task && c.tier == tier && c.complexity == Some(High) && QueueMs(general, c) == QueueMs(special, c)
    ensures general.QualityFor(task) == special.QualityFor(task) + 0.14
    ensures Score(general, c, saturation) < Score(special, c, saturation)
  {
    special := ModelProfile("special", "r", true, true, 8192, {task}, 0.82, 12, 0.1, map[], true, {Text});
    var every := {Extraction, Classification, Rag, Summarization, Reasoning, Critique, General};
    general := special.(id := "general", supportedTasks := every, quality := 0.96, costWeight := 2.7);
    c := Case(task, Some(High), tier, map[]);
    assert {Extraction, Classification, Rag} <= every;
    FewerThan({Extraction, Classification, Rag}, every);
  }

  lemma FewerThan(a: set<TaskClass>, b: set<TaskClass>)
    requires a <= b
    ensures |a| <= |b|
  {
    assert b == a + (b - a);
  }

  // ------------------------------------------------------ engine saturation

  // The first maximum among the candidates on one side of the boundary.
  ghost predicate IsBestOf(candidates: seq<ModelProfile>, scores: seq<real>, local: bool, i: nat)
    requires |scores| == |candidates|
  {
    && i < |candidates| && candidates[i].local == local
    && (forall j :: 0 <= j < |candidates| && candidates[j].local == local ==> scores[j] <= scores[i])
    && (forall j :: 0 <= j < i && candidates[j].local == local ==> scores[j] < scores[i])
  }

  /** Saturation never changes which local model, or which external one, is the best. */
  lemma SaturationKeepsEachSide(candidates: seq<ModelProfile>, c: Case, low: real, high: real, local: bool, i: nat)
    ensures IsBestOf(candidates, Scores(candidates, c, low), local, i)
      <==> IsBestOf(candidates, Scores(candidates, c, high), local, i)
  {
    hide IdleScore;
    if IsBestOf(candidates, Scores(candidates, c, low), local, i) {
      SaturationShifts(candidates, c, low, high, local, i);
    }
    if IsBestOf(candidates, Scores(candidates, c, high), local, i) {
      SaturationShifts(candidates, c, high, low, local, i);
    }
  }

  lemma SaturationShifts(candidates: seq<ModelProfile>, c: Case, s: real, t: real, local: bool, i: nat)
    requires IsBestOf(candidates, Scores(candidates, c, s), local, i)
    ensures IsBestOf(candidates, Scores(candidates, c, t), local, i)
  {
    hide IdleScore;
    var before, after := Scores(candidates, c, s), Scores(candidates, c, t);
    forall j | 0 <= j < |candidates| && candidates[j].local == local
      ensures after[j] - after[i] == before[j] - before[i]
    {
    }
  }

  // With a best model on each side, the local one is kept exactly while its lead covers the penalty.
  predicate LocalKept(candidates: seq<ModelProfile>, c: Case, l: nat, e: nat, saturation: real)
    requires l < |candidates| && e < |candidates|
  {
    var lead := IdleScore(candidates[l], c) - IdleScore(candidates[e], c);
    lead > saturation * 20.0 || (lead == saturation * 20.0 && l < e)
  }

  /** The choice is the best local model while its idle lead over the best external one
      exceeds twenty points per unit of saturation, or equals it and it stands first. */
  lemma ChoiceByThreshold(candidates: seq<ModelProfile>, c: Case, idle: real, saturation: real, l: nat, e: nat)
    requires IsBestOf(candidates, Scores(candidates, c, idle), true, l)
    requires IsBestOf(candidates, Scores(candidates, c, idle), false, e)
    ensures BestIndex(Scores(candidates, c, saturation)) ==
      if LocalKept(candidates, c, l, e, saturation) then l else e
  {
    hide IdleScore, BestIndex;
    SaturationKeepsEachSide(candidates, c, idle, saturation, true, l);
    SaturationKeepsEachSide(candidates, c, idle, saturation, false, e);
    var scores := Scores(candidates, c, saturation);
    var best := if LocalKept(candidates, c, l, e, saturation) then l else e;
    assert scores[l] == IdleScore(candidates[l], c) - saturation * 20.0 && scores[e] == IdleScore(candidates[e], c);
    forall j | 0 <= j < |scores| ensures scores[j] <= scores[best] && (j < best ==> scores[j] < scores[best]) {
      assert scores[j] <= if candidates[j].local then scores[l] else scores[e];
    }
    BestIndexExact(scores, best);
  }

  // The best of one side, when that side has a candidate at all.
  lemma {:induction false} BestOfExists(candidates: seq<ModelProfile>, scores: seq<real>, local: bool) returns (i: nat)
    requires |scores| == |candidates|
    requires exists j :: 0 <= j < |candidates| && candidates[j].local == local
    ensures IsBestOf(candidates, scores, local, i)
  {
    var last := |candidates| - 1;
    if j :| 0 <= j < last && candidates[j].local == local {
      assert candidates[..last][j].local == local;
      i := BestOfExists(candidates[..last], scores[..last], local);
      assert forall k :: 0 <= k < last ==> candidates[..last][k] == candidates[k] && scores[..last][k] == scores[k];
      if candidates[last].local == local && scores[last] > scores[i] {
        i := last;
      }
    } else {
      i := last;
    }
  }

  /** Raising the saturation never moves a choice from external back to local, and never
      from one local or external model to another of its kind. */
  lemma SaturationIsMonotone(candidates: seq<ModelProfile>, c: Case, low: real, high: real)
    requires candidates != [] && low <= high
    ensures var before, after := BestIndex(Scores(candidates, c, low)), BestIndex(Scores(candidates, c, high));
      after == before || (candidates[before].local && !candidates[after].local)
  {
    hide IdleScore, BestIndex, Scores;
    var scores := Scores(candidates, c, low);
    var local := candidates[0].local;
    if forall j :: 0 <= j < |candidates| ==> candidates[j].local == local {
      var i := BestOfExists(candidates, scores, local);
      SaturationKeepsEachSide(candidates, c, low, high, local, i);
      BestIndexExact(scores, i);
      BestIndexExact(Scores(candidates, c, high), i);
    } else {
      var other :| 0 <= other < |candidates| && candidates[other].local != local;
      assert candidates[if local then 0 else other].local && !candidates[if local then other else 0].local;
      var l := BestOfExists(candidates, scores, true);
      var e := BestOfExists(candidates, scores, false);
      ChoiceByThreshold(candidates, c, low, low, l, e);
      ChoiceByThreshold(candidates, c, low, high, l, e);
    }
  }

  /** Over readings that only rise, the choice stays or moves once, from local to external. */
  lemma RisingSaturationMovesOnce(candidates: seq<ModelProfile>, c: Case, readings: seq<real>) returns (k: nat)
    requires candidates != []
    requires forall i, j :: 0 <= i <= j < |readings| ==> readings[i] <= readings[j]
    ensures k <= |readings|
    ensures forall i, j :: 0 <= i <= j < |readings| && (j < k || k <= i) ==>
      BestIndex(Scores(candidates, c, readings[i])) == BestIndex(Scores(candidates, c, readings[j]))
    ensures 0 < k < |readings| ==>
      && candidates[BestIndex(Scores(candidates, c, readings[0]))].local
      && !candidates[BestIndex(Scores(candidates, c, readings[k]))].local
  {
    hide BestIndex, Scores;
    k := 0;
    while k < |readings|
      && BestIndex(Scores(candidates, c, readings[k])) == BestIndex(Scores(candidates, c, readings[0]))
      invariant k <= |readings|
      invariant forall i :: 0 <= i < k ==>
        BestIndex(Scores(candidates, c, readings[i])) == BestIndex(Scores(candidates, c, readings[0]))
    {
      k := k + 1;
    }
    if 0 < k < |readings| {
      SaturationIsMonotone(candidates, c, readings[0], readings[k]);
      forall j | k <= j < |readings|
        ensures BestIndex(Scores(candidates, c, readings[j])) == BestIndex(Scores(candidates, c, readings[k]))
      {
        SaturationIsMonotone(candidates, c, readings[k], readings[j]);
      }
    }
  }

  /** The same for whole selections: a fuller engine changes whether a local or an external
      model is chosen, at most, and only away from the engine. */
  lemma SelectLeavesTheEngineOnce(router: Router, request: ChatRequest, terms: Terms, reading: Reading, high: real)
    requires reading.saturation <= high
    ensures var before, after := Select(router, request, terms, reading),
                                 Select(router, request, terms, reading.(saturation := high));
      && (before.None? <==> after.None?)
      && (before.Some? ==> after == before || (before.value.profile.local && !after.value.profile.local))
  {
    hide BestIndex, Scores, Eligible;
    var c := CaseOf(request, terms, reading);
    var candidates := CandidatesAmong(router, router.profiles, request, terms, c.task);
    assert CaseOf(request, terms, reading.(saturation := high)) == c;
    if candidates != [] {
      SaturationIsMonotone(candidates, c, reading.saturation, high);
    }
  }

  // ------------------------------------------------------------ entitlement

  /** With the catalog behind the router and the tenant's entitlement in force, the chosen
      model is a servable one that every list the tenant carries admits. */
  lemma ChoiceHonoursEntitlement(catalog: Registry.Catalog, tenant: Registry.Tenant, router: Router,
                                 request: ChatRequest, terms: Terms, reading: Reading)
    requires Registry.WellFormed(catalog) && router.profiles == Registry.Profiles(catalog)
    requires terms.permittedModels == Registry.PermittedModelsFor(catalog, Some(tenant))
    requires Select(router, request, terms, reading).Some?
    ensures var p := Select(router, request, terms, reading).value.profile;
      exists card ::
        && card in catalog.models && card.profile == p
        && Registry.Servable(catalog, card) && Registry.Entitled(tenant, card)
  {
    hide Select, Score;
    var p := Select(router, request, terms, reading).value.profile;
    SelectExact(router, request, terms, reading);
    Registry.ProfilesExact(catalog, p);
    var card :| card in catalog.models && Registry.Servable(catalog, card) && card.profile == p;
    Registry.PermittedExact(catalog, tenant, card);
  }

  // --------------------------------------------------------------- dispatch

  datatype Target = ToLocal | ToExternal | Refused | NoProvider

  // Refused and NoProvider are the two exceptions the boundary can raise.
  function TargetOf(request: ChatRequest, profile: ModelProfile, externalConfigured: bool): Target {
    if profile.local then ToLocal
    else if request.routing.privacy != Public then Refused
    else if !externalConfigured then NoProvider
    else ToExternal
  }

  /** Leaving the private environment takes a public request and the agreement of operator,
      tenant and caller; the boundary's own refusal is never reached by a routed request. */
  lemma ExternalNeedsAgreement(router: Router, request: ChatRequest, terms: Terms, reading: Reading, configured: bool)
    requires Select(router, request, terms, reading).Some?
    ensures var target := TargetOf(request, Select(router, request, terms, reading).value.profile, configured);
      && target != Refused
      && (target != ToLocal ==>
        && request.routing.privacy == Public
        && router.externalEnabled && terms.tenantAllowsExternal && request.routing.allowExternalFallback)
      && (terms.fallbackFrom.Some? ==> target != ToLocal)
  {
    hide Select, Score;
    SelectExact(router, request, terms, reading);
  }
}
