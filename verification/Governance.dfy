// The governance records and the two halves of a sync: the plan that compares
// the catalog with a store, and the fold that carries a plan out.
// Models src/llm_router/governance.py.
module Governance {
  import opened Wrappers

  datatype Stage = Development | Staging | Production | Deprecated

  datatype Key = Key(name: string, revision: string)

  const MANAGED_TAG := "catalog.managed"
  const REVISION_TAG := "catalog.revision"
  const STAGE_TAG := "catalog.stage"
  const CHECKSUM_TAG := "catalog.checksum"

  // The tags rendered from a card never use the keys that a store adds itself.
  type CardText = t: map<string, string> | STAGE_TAG !in t && CHECKSUM_TAG !in t

  // Python truth of an optional string.
  predicate Given(text: Option<string>) {
    text.Some? && text.value != ""
  }

  // ---------------------------------------------------------------- catalog

  datatype Card = Card(id: string, revision: string, stage: Stage, text: CardText)

  datatype Deployment = Deployment(
    stage: Stage, modelChecksums: map<string, string>, adapterChecksums: map<string, string>)

  datatype BenchmarkRun = BenchmarkRun(id: string, evidence: string)

  datatype Catalog = Catalog(
    models: seq<Card>, adapters: seq<Card>, deployments: seq<Deployment>,
    benchmarks: seq<BenchmarkRun>, policyVersion: string)

  datatype GovernedVersion = GovernedVersion(
    key: Key, stage: Stage, checksum: Option<string>, text: CardText)

  function ModelChecksums(deployments: seq<Deployment>): map<string, string> {
    if deployments == [] then map[]
    else
      var rest := ModelChecksums(deployments[..|deployments| - 1]);
      var last := deployments[|deployments| - 1];
      if last.stage == Production then rest + last.modelChecksums else rest
  }

  function AdapterChecksums(deployments: seq<Deployment>): map<string, string> {
    if deployments == [] then map[]
    else
      var rest := AdapterChecksums(deployments[..|deployments| - 1]);
      var last := deployments[|deployments| - 1];
      if last.stage == Production then rest + last.adapterChecksums else rest
  }

  function GovernedCards(cards: seq<Card>, checksums: map<string, string>): (r: seq<GovernedVersion>)
    ensures |r| == |cards|
    ensures forall i :: 0 <= i < |cards| ==>
      && r[i].key == Key(cards[i].id, cards[i].revision)
      && r[i].stage == cards[i].stage && r[i].text == cards[i].text
      && r[i].checksum == (if cards[i].id in checksums then Some(checksums[cards[i].id]) else None)
  {
    seq(|cards|, i requires 0 <= i < |cards| =>
      GovernedVersion(
        Key(cards[i].id, cards[i].revision), cards[i].stage,
        if cards[i].id in checksums then Some(checksums[cards[i].id]) else None,
        cards[i].text))
  }

  predicate DistinctNames(subjects: seq<GovernedVersion>) {
    forall i, j :: 0 <= i < j < |subjects| ==> subjects[i].key.name != subjects[j].key.name
  }

  datatype PlanError = DuplicateNames | ImmutableRevision(key: Key)

  // Every model and adapter revision; models and adapters share one namespace.
  function GovernedVersions(catalog: Catalog): (r: Result<seq<GovernedVersion>, PlanError>)
    ensures r.Ok? ==> DistinctNames(r.value)
  {
    var versions :=
      GovernedCards(catalog.models, ModelChecksums(catalog.deployments))
      + GovernedCards(catalog.adapters, AdapterChecksums(catalog.deployments));
    if DistinctNames(versions) then Ok(versions) else Err(DuplicateNames)
  }

  // ------------------------------------------------------------------ store

  datatype Record = Record(stage: Option<Stage>, checksum: Option<string>, tags: map<string, string>)

  datatype Promotion = Promotion(
    key: Key, fromStage: Option<Stage>, toStage: Stage, commit: string, policyVersion: string,
    reason: string)

  // What a governance store holds. Promotions are appended, never rewritten.
  datatype StoreState = StoreState(
    recs: map<Key, Record>, benchmarks: map<string, BenchmarkRun>, log: seq<Promotion>)

  const EMPTY_STORE := StoreState(map[], map[], [])

  function RecordedTags(subject: GovernedVersion): map<string, string> {
    var tags := subject.text[MANAGED_TAG := "true"][REVISION_TAG := subject.key.revision];
    if Given(subject.checksum) then tags[CHECKSUM_TAG := subject.checksum.value] else tags
  }

  // The catalog-owned tags that describe the card, leaving the stage aside.
  function CardTags(tags: map<string, string>): map<string, string> {
    map key | key in tags && "catalog." <= key && key != STAGE_TAG :: tags[key]
  }

  function NewRecord(subject: GovernedVersion): Record {
    Record(None, subject.checksum, RecordedTags(subject))
  }

  function Annotated(rec: Record, subject: GovernedVersion): Record {
    rec.(tags := RecordedTags(subject), checksum := subject.checksum)
  }

  // A store lists its versions in some order; the plan follows that order.
  ghost predicate Enumerates(order: seq<Key>, recs: map<Key, Record>) {
    && (forall k :: k in order <==> k in recs)
    && (forall i, j :: 0 <= i < j < |order| ==> order[i] != order[j])
  }

  // ------------------------------------------------------------------- plan

  datatype ActionKind = Register | Transition | Annotate | Benchmark

  datatype Action = Action(
    kind: ActionKind, key: Key, fromStage: Option<Stage>, toStage: Option<Stage>, reason: string)

  const NEW_REVISION := "new revision in the catalog"
  const STAGE_DIFFERS := "stage differs from the catalog"
  const CARD_CHANGED := "card metadata changed in the catalog"
  const SUPERSEDED := "superseded in the catalog"
  const REMOVED := "removed from the catalog"
  const NO_EVIDENCE := "evidence not yet recorded"

  // A recorded revision that now claims a different artifact.
  predicate Conflicts(recs: map<Key, Record>, subject: GovernedVersion) {
    && subject.key in recs
    && Given(recs[subject.key].checksum) && Given(subject.checksum)
    && recs[subject.key].checksum != subject.checksum
  }

  // The actions about the catalog's own revision of one subject.
  function OwnActions(recs: map<Key, Record>, subject: GovernedVersion): seq<Action> {
    if subject.key !in recs then
      [Action(Register, subject.key, None, Some(subject.stage), NEW_REVISION)]
    else
      var current := recs[subject.key];
      (if current.stage != Some(subject.stage)
       then [Action(Transition, subject.key, current.stage, Some(subject.stage), STAGE_DIFFERS)]
       else [])
      + (if CardTags(current.tags) != CardTags(RecordedTags(subject))
         then [Action(Annotate, subject.key, None, None, CARD_CHANGED)]
         else [])
  }

  function Retirement(recs: map<Key, Record>, k: Key, reason: string): Action
    requires k in recs
  {
    Action(Transition, k, recs[k].stage, Some(Deprecated), reason)
  }

  // Retire, in listing order, every chosen version that is not yet deprecated.
  function Retirements(order: seq<Key>, recs: map<Key, Record>, chosen: set<Key>, reason: string): seq<Action>
  {
    if order == [] then []
    else
      var k := order[|order| - 1];
      Retirements(order[..|order| - 1], recs, chosen, reason)
      + (if k in recs && k in chosen && recs[k].stage != Some(Deprecated)
         then [Retirement(recs, k, reason)]
         else [])
  }

  function Superseded(recs: map<Key, Record>, subject: GovernedVersion): set<Key> {
    set k | k in recs && k.name == subject.key.name && k.revision != subject.key.revision
  }

  function RemovedKeys(recs: map<Key, Record>, subjects: seq<GovernedVersion>): set<Key> {
    set k | k in recs && forall s :: s in subjects ==> s.key.name != k.name
  }

  function SubjectActions(recs: map<Key, Record>, order: seq<Key>, subject: GovernedVersion): seq<Action> {
    OwnActions(recs, subject) + Retirements(order, recs, Superseded(recs, subject), SUPERSEDED)
  }

  function PlanSubjects(recs: map<Key, Record>, order: seq<Key>, subjects: seq<GovernedVersion>)
    : Result<seq<Action>, PlanError>
  {
    if subjects == [] then Ok([])
    else
      var last := subjects[|subjects| - 1];
      var rest := PlanSubjects(recs, order, subjects[..|subjects| - 1]);
      if rest.Err? then rest
      else if Conflicts(recs, last) then Err(ImmutableRevision(last.key))
      else Ok(rest.value + SubjectActions(recs, order, last))
  }

  function PlanBenchmarks(recorded: map<string, BenchmarkRun>, runs: seq<BenchmarkRun>): seq<Action> {
    if runs == [] then []
    else
      var last := runs[|runs| - 1];
      PlanBenchmarks(recorded, runs[..|runs| - 1])
      + (if last.id in recorded then []
         else [Action(Benchmark, Key(last.id, ""), None, None, NO_EVIDENCE)])
  }

  function Plan(catalog: Catalog, st: StoreState, order: seq<Key>): Result<seq<Action>, PlanError> {
    var wanted := GovernedVersions(catalog);
    if wanted.Err? then Err(wanted.error)
    else
      var planned := PlanSubjects(st.recs, order, wanted.value);
      if planned.Err? then planned
      else Ok(planned.value
              + Retirements(order, st.recs, RemovedKeys(st.recs, wanted.value), REMOVED)
              + PlanBenchmarks(st.benchmarks, catalog.benchmarks))
  }

  // ------------------------------------------------------------------ apply

  datatype ApplyError = UnknownSubject(key: Key) | UnknownVersion(key: Key) | UnknownBenchmark(id: string)

  // What apply looks up while it carries out a plan.
  datatype Env = Env(
    subjects: map<Key, GovernedVersion>, runs: map<string, BenchmarkRun>, commit: string,
    policyVersion: string)

  function SubjectMap(subjects: seq<GovernedVersion>): map<Key, GovernedVersion> {
    if subjects == [] then map[]
    else
      var last := subjects[|subjects| - 1];
      SubjectMap(subjects[..|subjects| - 1])[last.key := last]
  }

  function RunMap(runs: seq<BenchmarkRun>): map<string, BenchmarkRun> {
    if runs == [] then map[]
    else
      var last := runs[|runs| - 1];
      RunMap(runs[..|runs| - 1])[last.id := last]
  }

  function EnvOf(catalog: Catalog, commit: string): Env
    requires GovernedVersions(catalog).Ok?
  {
    Env(SubjectMap(GovernedVersions(catalog).value), RunMap(catalog.benchmarks), commit,
        catalog.policyVersion)
  }

  function TargetStage(a: Action): Stage {
    if a.toStage.Some? then a.toStage.value else Development
  }

  function PromotionFor(env: Env, a: Action): Promotion {
    Promotion(a.key, a.fromStage, TargetStage(a), env.commit, env.policyVersion, a.reason)
  }

  function SetStage(st: StoreState, k: Key, stage: Stage): StoreState
    requires k in st.recs
  {
    st.(recs := st.recs[k := st.recs[k].(stage := Some(stage))])
  }

  function ApplyAction(env: Env, a: Action, st: StoreState): Result<StoreState, ApplyError> {
    match a.kind
    case Benchmark =>
      if a.key.name !in env.runs then Err(UnknownBenchmark(a.key.name))
      else
        var run := env.runs[a.key.name];
        Ok(st.(benchmarks := st.benchmarks[run.id := run]))
    case Annotate =>
      if a.key !in env.subjects then Err(UnknownSubject(a.key))
      else if a.key !in st.recs then Err(UnknownVersion(a.key))
      else Ok(st.(recs := st.recs[a.key := Annotated(st.recs[a.key], env.subjects[a.key])]))
    case Register =>
      if a.key !in env.subjects then Err(UnknownSubject(a.key))
      else
        var registered := st.(recs := st.recs[a.key := NewRecord(env.subjects[a.key])]);
        Ok(SetStage(registered, a.key, TargetStage(a)).(log := st.log + [PromotionFor(env, a)]))
    case Transition =>
      if a.key !in st.recs then Err(UnknownVersion(a.key))
      else Ok(SetStage(st, a.key, TargetStage(a)).(log := st.log + [PromotionFor(env, a)]))
  }

  function Apply(env: Env, actions: seq<Action>, st: StoreState): Result<StoreState, ApplyError> {
    if actions == [] then Ok(st)
    else
      var before := Apply(env, actions[..|actions| - 1], st);
      if before.Err? then before
      else ApplyAction(env, actions[|actions| - 1], before.value)
  }
}
