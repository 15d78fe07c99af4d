// Governance records kept in MLflow: versions carry tags, and the staging and
// production stages are also aliases of a registered model. The client is its
// tag and alias maps; each governance call is one atomic step.
module Mlflow {
  import opened Wrappers
  import opened Governance
  import opened Reconciliation
  import opened History

  type Tags = map<string, string>

  datatype VersionId = VersionId(name: string, number: nat)

  datatype AliasKey = AliasKey(name: string, text: string)

  datatype Client = Client(
    versions: map<VersionId, Tags>, aliases: map<AliasKey, nat>, next: nat,
    benchmarks: map<string, BenchmarkRun>, log: seq<Promotion>)

  const EMPTY_CLIENT := Client(map[], map[], 1, map[], [])

  function StageText(stage: Stage): string {
    match stage
    case Development => "development"
    case Staging => "staging"
    case Production => "production"
    case Deprecated => "deprecated"
  }

  // A stage typed in by hand that is not one of ours counts as unstaged.
  function ParseStage(text: Option<string>): Option<Stage> {
    if text == Some("development") then Some(Development)
    else if text == Some("staging") then Some(Staging)
    else if text == Some("production") then Some(Production)
    else if text == Some("deprecated") then Some(Deprecated)
    else None
  }

  lemma StageTextParses(stage: Stage)
    ensures ParseStage(Some(StageText(stage))) == Some(stage)
  {
  }

  predicate Aliased(stage: Stage) {
    stage == Staging || stage == Production
  }

  function TagOf(tags: Tags, key: string): Option<string> {
    if key in tags then Some(tags[key]) else None
  }

  function StageOf(tags: Tags): Option<Stage> {
    ParseStage(TagOf(tags, STAGE_TAG))
  }

  // A model version as the governance code reads it.
  function ViewOf(tags: Tags): Record {
    Record(StageOf(tags), TagOf(tags, CHECKSUM_TAG), tags)
  }

  predicate Records(c: Client, k: Key, n: nat) {
    && VersionId(k.name, n) in c.versions
    && TagOf(c.versions[VersionId(k.name, n)], REVISION_TAG) == Some(k.revision)
  }

  // No two versions of a name carry the same revision tag.
  ghost predicate UniqueRevisions(c: Client) {
    && (forall k, m, n :: Records(c, k, m) && Records(c, k, n) ==> m == n)
    && (forall id :: id in c.versions ==> id.number < c.next)
  }

  ghost predicate Recorded(c: Client, k: Key) {
    exists n :: Records(c, k, n)
  }

  ghost function Find(c: Client, k: Key): (n: nat)
    requires Recorded(c, k)
    ensures Records(c, k, n)
  {
    var n :| Records(c, k, n); n
  }

  function Keys(c: Client): set<Key> {
    set id | id in c.versions && REVISION_TAG in c.versions[id] :: Key(id.name, c.versions[id][REVISION_TAG])
  }

  lemma KeysAreRecorded(c: Client, k: Key)
    ensures k in Keys(c) <==> Recorded(c, k)
  {
    if n :| Records(c, k, n) {
      assert VersionId(k.name, n) in c.versions;
    }
    if k in Keys(c) {
      var id :| id in c.versions && REVISION_TAG in c.versions[id] && k == Key(id.name, c.versions[id][REVISION_TAG]);
      assert Records(c, k, id.number);
    }
  }

  // What the governance code sees of the client.
  ghost function ViewStore(c: Client): StoreState {
    StoreState(
      map k | k in Keys(c) && Recorded(c, k) :: ViewOf(c.versions[VersionId(k.name, Find(c, k))]),
      c.benchmarks, c.log)
  }

  // -------------------------------------------------------------- operations

  function RegisterVersion(c: Client, subject: GovernedVersion): Client {
    c.(versions := c.versions[VersionId(subject.key.name, c.next) := RecordedTags(subject)], next := c.next + 1)
  }

  // Set every wanted tag, and delete the card tags that are no longer wanted.
  function AnnotatedTags(tags: Tags, wanted: Tags): Tags {
    (tags + wanted) - (CardTags(tags).Keys - wanted.Keys)
  }

  function AnnotateVersion(c: Client, subject: GovernedVersion, n: nat): Client
    requires VersionId(subject.key.name, n) in c.versions
  {
    var id := VersionId(subject.key.name, n);
    c.(versions := c.versions[id := AnnotatedTags(c.versions[id], RecordedTags(subject))])
  }

  function SetAlias(aliases: map<AliasKey, nat>, name: string, stage: Stage, n: nat): map<AliasKey, nat> {
    if Aliased(stage) then aliases[AliasKey(name, StageText(stage)) := n] else aliases
  }

  // Drop the previous stage's alias, but only while it still points at this version.
  function DropAlias(aliases: map<AliasKey, nat>, name: string, previous: Option<Stage>, stage: Stage, n: nat)
    : map<AliasKey, nat>
  {
    if previous.Some? && Aliased(previous.value) && previous.value != stage then
      var key := AliasKey(name, StageText(previous.value));
      if key in aliases && aliases[key] == n then aliases - {key} else aliases
    else aliases
  }

  function StageVersion(c: Client, name: string, n: nat, stage: Stage): Client
    requires VersionId(name, n) in c.versions
  {
    var id := VersionId(name, n);
    var previous := StageOf(c.versions[id]);
    c.(versions := c.versions[id := c.versions[id][STAGE_TAG := StageText(stage)]],
       aliases := DropAlias(SetAlias(c.aliases, name, stage, n), name, previous, stage, n))
  }

  ghost function ApplyMlAction(env: Env, a: Action, c: Client): Result<Client, ApplyError> {
    match a.kind
    case Benchmark =>
      if a.key.name !in env.runs then Err(UnknownBenchmark(a.key.name))
      else
        var run := env.runs[a.key.name];
        Ok(c.(benchmarks := c.benchmarks[run.id := run]))
    case Annotate =>
      if a.key !in env.subjects then Err(UnknownSubject(a.key))
      else if !Recorded(c, env.subjects[a.key].key) then Err(UnknownVersion(a.key))
      else Ok(AnnotateVersion(c, env.subjects[a.key], Find(c, env.subjects[a.key].key)))
    case Register =>
      if a.key !in env.subjects then Err(UnknownSubject(a.key))
      else StageAndLog(env, a, RegisterVersion(c, env.subjects[a.key]))
    case Transition => StageAndLog(env, a, c)
  }

  ghost function StageAndLog(env: Env, a: Action, c: Client): Result<Client, ApplyError> {
    if !Recorded(c, a.key) then Err(UnknownVersion(a.key))
    else Ok(StageVersion(c, a.key.name, Find(c, a.key), TargetStage(a)).(log := c.log + [PromotionFor(env, a)]))
  }

  ghost function ApplyMl(env: Env, actions: seq<Action>, c: Client): Result<Client, ApplyError> {
    if actions == [] then Ok(c)
    else
      var before := ApplyMl(env, actions[..|actions| - 1], c);
      if before.Err? then before
      else ApplyMlAction(env, actions[|actions| - 1], before.value)
  }

  ghost function MlSync(call: SyncCall, c: Client): Client {
    var planned := Plan(call.catalog, ViewStore(c), call.order);
    if planned.Err? then c
    else
      var applied := ApplyMl(EnvOf(call.catalog, call.commit), planned.value, c);
      if applied.Ok? then applied.value else c
  }

  // ------------------------------------------- agreement with the plain store

  // Two records a plan cannot tell apart.
  predicate SameRecord(a: Record, b: Record) {
    && a.stage == b.stage
    && Given(a.checksum) == Given(b.checksum)
    && (Given(a.checksum) ==> a.checksum == b.checksum)
    && CardTags(a.tags) == CardTags(b.tags)
  }

  ghost predicate SameStore(a: StoreState, b: StoreState) {
    && a.recs.Keys == b.recs.Keys
    && (forall k :: k in a.recs ==> SameRecord(a.recs[k], b.recs[k]))
    && a.benchmarks == b.benchmarks && a.log == b.log
  }

  ghost predicate Agree(c: Client, st: StoreState) {
    && UniqueRevisions(c)
    && (forall k :: Recorded(c, k) <==> k in st.recs)
    && (forall k, n :: Records(c, k, n) && k in st.recs ==>
          SameRecord(ViewOf(c.versions[VersionId(k.name, n)]), st.recs[k]))
    && c.benchmarks == st.benchmarks && c.log == st.log
  }

  lemma ViewAgrees(c: Client)
    requires UniqueRevisions(c)
    ensures Agree(c, ViewStore(c))
  {
    forall k ensures Recorded(c, k) <==> k in ViewStore(c).recs {
      KeysAreRecorded(c, k);
    }
  }

  lemma AgreeingViewIsSame(c: Client, st: StoreState)
    requires Agree(c, st)
    ensures SameStore(ViewStore(c), st)
  {
    forall k ensures k in ViewStore(c).recs <==> k in st.recs {
      KeysAreRecorded(c, k);
    }
  }

  lemma {:induction false} SameRetirements(
      order: seq<Key>, a: map<Key, Record>, b: map<Key, Record>, chosen: set<Key>, reason: string)
    requires a.Keys == b.Keys && forall k :: k in a ==> SameRecord(a[k], b[k])
    ensures Retirements(order, a, chosen, reason) == Retirements(order, b, chosen, reason)
  {
    if order != [] {
      SameRetirements(order[..|order| - 1], a, b, chosen, reason);
    }
  }

  lemma {:induction false} SamePlanSubjects(
      order: seq<Key>, a: map<Key, Record>, b: map<Key, Record>, subjects: seq<GovernedVersion>)
    requires a.Keys == b.Keys && forall k :: k in a ==> SameRecord(a[k], b[k])
    ensures PlanSubjects(a, order, subjects) == PlanSubjects(b, order, subjects)
  {
    if subjects != [] {
      var last := subjects[|subjects| - 1];
      SamePlanSubjects(order, a, b, subjects[..|subjects| - 1]);
      assert Superseded(a, last) == Superseded(b, last);
      SameRetirements(order, a, b, Superseded(a, last), SUPERSEDED);
      assert last.key in a ==> SameRecord(a[last.key], b[last.key]);
      assert OwnActions(a, last) == OwnActions(b, last);
    }
  }

  /** A plan depends only on stages, given checksums and card tags. */
  lemma SamePlan(catalog: Catalog, a: StoreState, b: StoreState, order: seq<Key>)
    requires SameStore(a, b)
    ensures Plan(catalog, a, order) == Plan(catalog, b, order)
  {
    if GovernedVersions(catalog).Ok? {
      var subjects := GovernedVersions(catalog).value;
      SamePlanSubjects(order, a.recs, b.recs, subjects);
      assert RemovedKeys(a.recs, subjects) == RemovedKeys(b.recs, subjects);
      SameRetirements(order, a.recs, b.recs, RemovedKeys(a.recs, subjects), REMOVED);
    }
  }

  // ------------------------------------------------ each step keeps agreement

  lemma StagingKeepsView(tags: Tags, stage: Stage)
    ensures var staged := ViewOf(tags[STAGE_TAG := StageText(stage)]);
      && staged.stage == Some(stage) && staged.checksum == ViewOf(tags).checksum
      && CardTags(staged.tags) == CardTags(tags)
      && TagOf(staged.tags, REVISION_TAG) == TagOf(tags, REVISION_TAG)
  {
    StageTextParses(stage);
  }

  lemma AnnotatingKeepsView(tags: Tags, subject: GovernedVersion)
    ensures var annotated := AnnotatedTags(tags, RecordedTags(subject));
      && StageOf(annotated) == StageOf(tags)
      && CardTags(annotated) == CardTags(RecordedTags(subject))
      && TagOf(annotated, REVISION_TAG) == Some(subject.key.revision)
      && TagOf(annotated, CHECKSUM_TAG) == (if Given(subject.checksum) then subject.checksum else None)
  {
    var wanted := RecordedTags(subject);
    var annotated := AnnotatedTags(tags, wanted);
    assert STAGE_TAG !in wanted;
    assert CHECKSUM_TAG in CardTags(tags) <==> CHECKSUM_TAG in tags;
    forall key ensures key in CardTags(annotated) <==> key in CardTags(wanted) {
      assert key in CardTags(tags) <==> key in tags && "catalog." <= key && key != STAGE_TAG;
    }
    assert CardTags(annotated) == CardTags(wanted);
  }

  lemma NewVersionView(subject: GovernedVersion)
    ensures SameRecord(ViewOf(RecordedTags(subject)), NewRecord(subject))
    ensures TagOf(RecordedTags(subject), REVISION_TAG) == Some(subject.key.revision)
    ensures StageOf(RecordedTags(subject)) == None
  {
  }

  // Rewriting one version's tags, and not its revision, changes one record.
  lemma RetagAgrees(c: Client, st: StoreState, k: Key, n: nat, tags: Tags, rec: Record, next: Client)
    requires Agree(c, st) && Records(c, k, n)
    requires TagOf(tags, REVISION_TAG) == Some(k.revision) && SameRecord(ViewOf(tags), rec)
    requires next.versions == c.versions[VersionId(k.name, n) := tags] && next.next == c.next
    requires next.benchmarks == c.benchmarks && next.log == c.log
    ensures Agree(next, st.(recs := st.recs[k := rec]))
  {
    forall l, m ensures Records(next, l, m) <==> Records(c, l, m) {
    }
    forall l ensures Recorded(next, l) <==> Recorded(c, l) {
      if m :| Records(c, l, m) { assert Records(next, l, m); }
      if m :| Records(next, l, m) { assert Records(c, l, m); }
    }
    assert Recorded(c, k);
  }

  lemma StagingAgrees(c: Client, st: StoreState, k: Key, stage: Stage)
    requires Agree(c, st) && Recorded(c, k)
    ensures k in st.recs && Agree(StageVersion(c, k.name, Find(c, k), stage), SetStage(st, k, stage))
  {
    var n := Find(c, k);
    var tags := c.versions[VersionId(k.name, n)];
    StagingKeepsView(tags, stage);
    RetagAgrees(c, st, k, n, tags[STAGE_TAG := StageText(stage)], st.recs[k].(stage := Some(stage)),
      StageVersion(c, k.name, n, stage));
  }

  lemma AnnotatingAgrees(c: Client, st: StoreState, subject: GovernedVersion)
    requires Agree(c, st) && Recorded(c, subject.key)
    ensures subject.key in st.recs
    ensures Agree(AnnotateVersion(c, subject, Find(c, subject.key)),
                  st.(recs := st.recs[subject.key := Annotated(st.recs[subject.key], subject)]))
  {
    var k := subject.key;
    var n := Find(c, k);
    var tags := c.versions[VersionId(k.name, n)];
    AnnotatingKeepsView(tags, subject);
    RetagAgrees(c, st, k, n, AnnotatedTags(tags, RecordedTags(subject)), Annotated(st.recs[k], subject),
      AnnotateVersion(c, subject, n));
  }

  lemma RegisteringAgrees(c: Client, st: StoreState, subject: GovernedVersion)
    requires Agree(c, st) && !Recorded(c, subject.key)
    ensures Agree(RegisterVersion(c, subject), st.(recs := st.recs[subject.key := NewRecord(subject)]))
    ensures Recorded(RegisterVersion(c, subject), subject.key)
  {
    var next := RegisterVersion(c, subject);
    NewVersionView(subject);
    var id := VersionId(subject.key.name, c.next);
    assert id !in c.versions;
    forall l, m ensures Records(next, l, m) <==> Records(c, l, m) || (l == subject.key && m == c.next) {
    }
    forall l ensures Recorded(next, l) <==> Recorded(c, l) || l == subject.key {
      if m :| Records(c, l, m) { assert Records(next, l, m); }
      if l == subject.key { assert Records(next, l, c.next); }
      if m :| Records(next, l, m) { assert Records(c, l, m) || l == subject.key; }
    }
  }
}
