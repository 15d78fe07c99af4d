// Runs of syncs against MLflow: they agree with runs against the plain store,
// converge as those do, and keep every alias exact.
module MlflowRuns {
  import opened Wrappers
  import opened Governance
  import opened Reconciliation
  import opened History
  import opened Mlflow

  ghost predicate KeyedSubjects(env: Env) {
    forall k :: k in env.subjects ==> env.subjects[k].key == k
  }

  lemma AgreesOnKeys(c: Client, st: StoreState, k: Key)
    requires Agree(c, st)
    ensures Recorded(c, k) <==> k in st.recs
  {
  }

  lemma LoggingAgrees(c: Client, st: StoreState, benchmarks: map<string, BenchmarkRun>, log: seq<Promotion>)
    requires Agree(c, st)
    ensures Agree(c.(benchmarks := benchmarks, log := log), st.(benchmarks := benchmarks, log := log))
    ensures c.benchmarks == st.benchmarks && c.log == st.log
  {
    var next := c.(benchmarks := benchmarks, log := log);
    assert forall k, n :: Records(next, k, n) <==> Records(c, k, n);
    forall k ensures Recorded(next, k) <==> k in st.recs {
      if n :| Records(c, k, n) { assert Records(next, k, n); }
      if n :| Records(next, k, n) { assert Records(c, k, n); }
      AgreesOnKeys(c, st, k);
    }
  }

  lemma StageAndLogAgrees(env: Env, a: Action, c: Client, st: StoreState)
    requires Agree(c, st) && a.key in st.recs
    ensures StageAndLog(env, a, c).Ok?
    ensures Agree(StageAndLog(env, a, c).value,
                  SetStage(st, a.key, TargetStage(a)).(log := st.log + [PromotionFor(env, a)]))
  {
    hide Agree;
    AgreesOnKeys(c, st, a.key);
    StagingAgrees(c, st, a.key, TargetStage(a));
    var log := st.log + [PromotionFor(env, a)];
    LoggingAgrees(c, st, st.benchmarks, st.log);
    LoggingAgrees(StageVersion(c, a.key.name, Find(c, a.key), TargetStage(a)), SetStage(st, a.key, TargetStage(a)),
      st.benchmarks, log);
  }

  lemma ActionAgrees(env: Env, a: Action, c: Client, st: StoreState)
    requires Agree(c, st) && KeyedSubjects(env)
    requires a.kind == Register ==> a.key !in st.recs
    ensures ApplyMlAction(env, a, c).Ok? <==> ApplyAction(env, a, st).Ok?
    ensures ApplyAction(env, a, st).Ok? ==>
      Agree(ApplyMlAction(env, a, c).value, ApplyAction(env, a, st).value)
  {
    hide Agree, StageVersion, RegisterVersion, AnnotateVersion;
    AgreesOnKeys(c, st, a.key);
    LoggingAgrees(c, st, st.benchmarks, st.log);
    if a.kind == Benchmark && a.key.name in env.runs {
      var run := env.runs[a.key.name];
      LoggingAgrees(c, st, st.benchmarks[run.id := run], st.log);
    } else if a.kind == Transition && a.key in st.recs {
      StageAndLogAgrees(env, a, c, st);
    } else if a.kind == Annotate && a.key in env.subjects && a.key in st.recs {
      AnnotatingAgrees(c, st, env.subjects[a.key]);
    } else if a.kind == Register && a.key in env.subjects {
      var subject := env.subjects[a.key];
      RegisteringAgrees(c, st, subject);
      StageAndLogAgrees(env, a, RegisterVersion(c, subject), st.(recs := st.recs[a.key := NewRecord(subject)]));
    }
  }

  // Whenever a plan registers a revision, the store it has reached does not hold it yet.
  ghost predicate RegistersFresh(env: Env, actions: seq<Action>, st: StoreState) {
    forall i :: 0 <= i < |actions| && actions[i].kind == Register && Apply(env, actions[..i], st).Ok? ==>
      actions[i].key !in Apply(env, actions[..i], st).value.recs
  }

  /** Carrying out a plan in MLflow and in the plain store keeps the two in agreement. */
  lemma {:induction false} ApplyAgrees(env: Env, actions: seq<Action>, c: Client, st: StoreState)
    requires Agree(c, st) && KeyedSubjects(env) && RegistersFresh(env, actions, st)
    ensures ApplyMl(env, actions, c).Ok? <==> Apply(env, actions, st).Ok?
    ensures Apply(env, actions, st).Ok? ==> Agree(ApplyMl(env, actions, c).value, Apply(env, actions, st).value)
  {
    hide Agree, ApplyAction, ApplyMlAction;
    if actions != [] {
      var prefix, last := actions[..|actions| - 1], actions[|actions| - 1];
      forall i | 0 <= i < |prefix| ensures prefix[i] == actions[i] && prefix[..i] == actions[..i] {
      }
      ApplyAgrees(env, prefix, c, st);
      if Apply(env, prefix, st).Ok? {
        ActionAgrees(env, last, ApplyMl(env, prefix, c).value, Apply(env, prefix, st).value);
      }
    }
  }

  lemma {:induction false} TouchingEarlier(actions: seq<Action>, i: nat, k: Key)
    requires i < |actions| && Touches(actions[i], k) && |Touching(actions, k)| <= 1
    ensures Touching(actions[..i], k) == []
  {
    TouchingConcat(actions[..i], actions[i..], k);
    assert actions == actions[..i] + actions[i..];
    TouchingKeeps(actions[i..], actions[i]);
  }

  lemma {:induction false} ApplyPrefix(env: Env, actions: seq<Action>, st: StoreState, i: nat)
    requires i <= |actions| && Apply(env, actions, st).Ok?
    ensures Apply(env, actions[..i], st).Ok?
  {
    if i < |actions| {
      var prefix := actions[..|actions| - 1];
      assert prefix[..i] == actions[..i];
      ApplyPrefix(env, prefix, st, i);
    } else {
      assert actions[..i] == actions;
    }
  }

  lemma PlanRegistersFresh(catalog: Catalog, env: Env, st: StoreState, order: seq<Key>)
    requires Enumerates(order, st.recs) && Plan(catalog, st, order).Ok?
    ensures RegistersFresh(env, Plan(catalog, st, order).value, st)
  {
    hide Plan, Apply, LogOf, Enumerates, GovernedVersions;
    var actions := Plan(catalog, st, order).value;
    forall i | 0 <= i < |actions| && actions[i].kind == Register && Apply(env, actions[..i], st).Ok?
      ensures actions[i].key !in Apply(env, actions[..i], st).value.recs
    {
      var k := actions[i].key;
      TouchingKeeps(actions, actions[i]);
      PlanTouching(catalog, st, order, k);
      TouchingEarlier(actions, i, k);
      ApplyProjects(env, actions[..i], st, k);
      assert RecordAt(st, k) == None;
    }
  }

  lemma SubjectsKeyed(catalog: Catalog, commit: string)
    requires GovernedVersions(catalog).Ok?
    ensures KeyedSubjects(EnvOf(catalog, commit))
  {
    forall k | k in EnvOf(catalog, commit).subjects ensures EnvOf(catalog, commit).subjects[k].key == k {
      SubjectMapKeys(GovernedVersions(catalog).value, k);
    }
  }

  lemma MlPlanAgrees(call: SyncCall, c: Client, st: StoreState)
    requires Agree(c, st)
    ensures Plan(call.catalog, ViewStore(c), call.order) == Plan(call.catalog, st, call.order)
  {
    AgreeingViewIsSame(c, st);
    SamePlan(call.catalog, ViewStore(c), st, call.order);
  }

  /** One sync of MLflow and of an agreeing plain store leaves the two in agreement. */
  lemma MlSyncAgrees(call: SyncCall, c: Client, st: StoreState)
    requires Agree(c, st) && Enumerates(call.order, st.recs)
    ensures Agree(MlSync(call, c), Sync(call, st))
    ensures Plan(call.catalog, st, call.order).Ok? ==>
      ApplyMl(EnvOf(call.catalog, call.commit), Plan(call.catalog, st, call.order).value, c) == Ok(MlSync(call, c))
  {
    hide Agree;
    MlPlanAgrees(call, c, st);
    var planned := Plan(call.catalog, st, call.order);
    if planned.Ok? {
      var env := EnvOf(call.catalog, call.commit);
      SubjectsKeyed(call.catalog, call.commit);
      PlanRegistersFresh(call.catalog, env, st, call.order);
      ApplyAgrees(env, planned.value, c, st);
      SyncLeavesNoConflict(call.catalog, call.commit, st, call.order);
    }
  }

  /** Convergence in MLflow: any client whose revision tags are unique, hand-edited or not. */
  lemma MlSyncConverges(call: SyncCall, c: Client, next: seq<Key>)
    requires UniqueRevisions(c) && Enumerates(call.order, ViewStore(c).recs)
    requires Plan(call.catalog, ViewStore(c), call.order).Ok?
    ensures UniqueRevisions(MlSync(call, c))
    ensures var actions := Plan(call.catalog, ViewStore(c), call.order).value;
      ApplyMl(EnvOf(call.catalog, call.commit), actions, c) == Ok(MlSync(call, c))
    ensures Enumerates(next, ViewStore(MlSync(call, c)).recs) ==>
      Plan(call.catalog, ViewStore(MlSync(call, c)), next) == Ok([])
  {
    var st := ViewStore(c);
    ViewAgrees(c);
    MlSyncAgrees(call, c, st);
    SyncConverges(call.catalog, call.commit, st, call.order, next);
    AgreeingViewIsSame(MlSync(call, c), Sync(call, st));
    SamePlan(call.catalog, ViewStore(MlSync(call, c)), Sync(call, st), next);
  }

  // -------------------------------------------------------------------- runs

  ghost predicate MlSyncStep(call: SyncCall, before: Client, after: Client) {
    Enumerates(call.order, ViewStore(before).recs) && after == MlSync(call, before)
  }

  // A run of syncs from an empty MLflow, with every intermediate client.
  ghost predicate MlRun(calls: seq<SyncCall>, clients: seq<Client>) {
    && |clients| == |calls| + 1
    && clients[0] == EMPTY_CLIENT
    && forall i :: 0 <= i < |calls| ==> MlSyncStep(calls[i], clients[i], clients[i + 1])
  }

  lemma MlStepAgrees(call: SyncCall, c: Client, next: Client, st: StoreState)
    requires Agree(c, st) && MlSyncStep(call, c, next)
    ensures SyncStep(call, st, Sync(call, st)) && Agree(next, Sync(call, st))
  {
    hide Plan, Apply, ApplyMl, EnvOf, ApplyMlAction;
    AgreeingViewIsSame(c, st);
    forall k ensures k in call.order <==> k in st.recs {
      assert k in call.order <==> k in ViewStore(c).recs;
    }
    MlSyncAgrees(call, c, st);
  }

  /** Every run against MLflow is matched, state by state, by a run against the plain store. */
  lemma {:induction false} MlRunsAgree(calls: seq<SyncCall>, clients: seq<Client>) returns (states: seq<StoreState>)
    requires MlRun(calls, clients)
    ensures SyncRun(calls, states)
    ensures forall i :: 0 <= i < |clients| ==> Agree(clients[i], states[i])
  {
    hide MlSync, Sync, Agree;
    if calls == [] {
      states := [EMPTY_STORE];
      EmptyAgrees();
    } else {
      var n := |calls| - 1;
      var earlier := MlRunsAgree(calls[..n], clients[..n + 1]);
      assert MlSyncStep(calls[n], clients[n], clients[n + 1]);
      assert clients[..n + 1][n] == clients[n];
      MlStepAgrees(calls[n], clients[n], clients[n + 1], earlier[n]);
      states := earlier + [Sync(calls[n], earlier[n])];
      forall i | 0 <= i < |calls| ensures SyncStep(calls[i], states[i], states[i + 1]) {
        if i < n { assert SyncStep(calls[..n][i], earlier[i], earlier[i + 1]); }
      }
      forall i | 0 <= i < |clients| ensures Agree(clients[i], states[i]) {
        if i <= n { assert Agree(clients[..n + 1][i], earlier[i]); }
      }
    }
  }

  lemma EmptyAgrees()
    ensures Agree(EMPTY_CLIENT, EMPTY_STORE)
  {
  }

  // ----------------------------------------------------------------- aliases

  predicate PointsAt(c: Client, name: string, stage: Stage, n: nat) {
    var key := AliasKey(name, StageText(stage));
    key in c.aliases && c.aliases[key] == n
  }

  predicate StagedAt(c: Client, name: string, stage: Stage, n: nat) {
    VersionId(name, n) in c.versions && StageOf(c.versions[VersionId(name, n)]) == Some(stage)
  }

  // An alias never points at a version in another stage.
  ghost predicate AliasSafe(c: Client) {
    && (forall name, stage, n :: Aliased(stage) && PointsAt(c, name, stage, n) ==> StagedAt(c, name, stage, n))
    && (forall id :: id in c.versions ==> id.number < c.next)
  }

  // The staging and production aliases point at exactly the versions in those stages.
  ghost predicate AliasExact(c: Client) {
    forall name, stage, n :: Aliased(stage) ==> (PointsAt(c, name, stage, n) <==> StagedAt(c, name, stage, n))
  }

  lemma StagingIsSafe(c: Client, name: string, n: nat, stage: Stage)
    requires AliasSafe(c) && VersionId(name, n) in c.versions
    ensures AliasSafe(StageVersion(c, name, n, stage))
  {
    var next := StageVersion(c, name, n, stage);
    StageTextParses(stage);
    forall other, s, m | Aliased(s) && PointsAt(next, other, s, m) ensures StagedAt(next, other, s, m) {
      if other == name && m == n {
        if s != stage { assert PointsAt(c, other, s, m); }
      } else {
        assert PointsAt(c, other, s, m);
      }
    }
  }

  /** Every action keeps the aliases safe, from any safe client and whatever the plan. */
  lemma ActionIsSafe(env: Env, a: Action, c: Client)
    requires AliasSafe(c) && KeyedSubjects(env) && ApplyMlAction(env, a, c).Ok?
    ensures AliasSafe(ApplyMlAction(env, a, c).value)
  {
    var next := ApplyMlAction(env, a, c).value;
    if a.kind == Annotate {
      var subject := env.subjects[a.key];
      AnnotatingKeepsView(c.versions[VersionId(subject.key.name, Find(c, subject.key))], subject);
      forall name, stage, n | Aliased(stage) && PointsAt(next, name, stage, n) ensures StagedAt(next, name, stage, n) {
        assert PointsAt(c, name, stage, n);
      }
    } else if a.kind == Register {
      var registered := RegisterVersion(c, env.subjects[a.key]);
      forall name, stage, n | Aliased(stage) && PointsAt(registered, name, stage, n)
        ensures StagedAt(registered, name, stage, n)
      {
        assert PointsAt(c, name, stage, n);
        assert VersionId(name, n) in c.versions;
      }
      assert AliasSafe(registered);
      StagingIsSafe(registered, a.key.name, Find(registered, a.key), TargetStage(a));
      SameVersionsSafe(StageVersion(registered, a.key.name, Find(registered, a.key), TargetStage(a)), next);
    } else if a.kind == Transition {
      StagingIsSafe(c, a.key.name, Find(c, a.key), TargetStage(a));
      SameVersionsSafe(StageVersion(c, a.key.name, Find(c, a.key), TargetStage(a)), next);
    } else {
      SameVersionsSafe(c, next);
    }
  }

  lemma SameVersionsSafe(c: Client, next: Client)
    requires AliasSafe(c) && next.versions == c.versions && next.aliases == c.aliases && next.next == c.next
    ensures AliasSafe(next)
  {
    forall name, stage, n | Aliased(stage) && PointsAt(next, name, stage, n) ensures StagedAt(next, name, stage, n) {
      assert PointsAt(c, name, stage, n);
    }
  }

  /** At every point while any plan is carried out, no alias points at a version in another stage. */
  lemma {:induction false} AliasesSafeThroughout(env: Env, actions: seq<Action>, c: Client)
    requires AliasSafe(c) && KeyedSubjects(env) && ApplyMl(env, actions, c).Ok?
    ensures AliasSafe(ApplyMl(env, actions, c).value)
    ensures forall i :: 0 <= i <= |actions| ==>
      ApplyMl(env, actions[..i], c).Ok? && AliasSafe(ApplyMl(env, actions[..i], c).value)
  {
    hide AliasSafe, ApplyMlAction;
    if actions != [] {
      var prefix, last := actions[..|actions| - 1], actions[|actions| - 1];
      AliasesSafeThroughout(env, prefix, c);
      ActionIsSafe(env, last, ApplyMl(env, prefix, c).value);
    }
    forall i | 0 <= i <= |actions|
      ensures ApplyMl(env, actions[..i], c).Ok? && AliasSafe(ApplyMl(env, actions[..i], c).value)
    {
      if i < |actions| {
        assert actions[..|actions| - 1][..i] == actions[..i];
      } else {
        assert actions[..i] == actions;
      }
    }
  }

  // The version recorded for k, if it is staged or in production, holds its alias.
  ghost predicate HoldsAlias(c: Client, k: Key) {
    forall stage, n :: Aliased(stage) && Records(c, k, n) && StagedAt(c, k.name, stage, n) ==>
      PointsAt(c, k.name, stage, n)
  }

  // Every other version of the name is only ever retired.
  predicate RetiresOnly(a: Action, k: Key) {
    (a.kind == Register || a.kind == Transition) && a.key.name == k.name && a.key != k ==>
      a.kind == Transition && a.toStage == Some(Deprecated)
  }

  lemma StagingHoldsAlias(c: Client, k: Key, l: Key, stage: Stage)
    requires UniqueRevisions(c) && HoldsAlias(c, k) && Recorded(c, l)
    requires l.name == k.name && l != k ==> stage == Deprecated
    ensures HoldsAlias(StageVersion(c, l.name, Find(c, l), stage), k)
  {
    var m := Find(c, l);
    var next := StageVersion(c, l.name, m, stage);
    StageTextParses(stage);
    forall s, n | Aliased(s) && Records(next, k, n) && StagedAt(next, k.name, s, n)
      ensures PointsAt(next, k.name, s, n)
    {
      assert Records(c, k, n);
      if l != k {
        assert StagedAt(c, k.name, s, n);
        assert PointsAt(c, k.name, s, n);
        assert l.name == k.name ==> m != n;
      } else {
        assert m == n && s == stage;
      }
    }
  }

  lemma ActionHoldsAlias(env: Env, a: Action, c: Client, k: Key)
    requires UniqueRevisions(c) && HoldsAlias(c, k) && RetiresOnly(a, k) && KeyedSubjects(env)
    requires a.kind == Register ==> !Recorded(c, a.key)
    requires ApplyMlAction(env, a, c).Ok?
    ensures HoldsAlias(ApplyMlAction(env, a, c).value, k)
  {
    var next := ApplyMlAction(env, a, c).value;
    if a.kind == Transition {
      StagingHoldsAlias(c, k, a.key, TargetStage(a));
      SameVersionsHold(StageVersion(c, a.key.name, Find(c, a.key), TargetStage(a)), next, k);
    } else if a.kind == Register {
      var registered := RegisterVersion(c, env.subjects[a.key]);
      RegisteringHolds(c, env.subjects[a.key], k);
      StagingHoldsAlias(registered, k, a.key, TargetStage(a));
      SameVersionsHold(StageVersion(registered, a.key.name, Find(registered, a.key), TargetStage(a)), next, k);
    } else if a.kind == Annotate {
      var subject := env.subjects[a.key];
      AnnotatingKeepsView(c.versions[VersionId(subject.key.name, Find(c, subject.key))], subject);
      forall s, n | Aliased(s) && Records(next, k, n) && StagedAt(next, k.name, s, n)
        ensures PointsAt(next, k.name, s, n)
      {
        assert Records(c, k, n) && StagedAt(c, k.name, s, n);
        assert PointsAt(c, k.name, s, n);
      }
    } else {
      SameVersionsHold(c, next, k);
    }
  }

  lemma RegisteringHolds(c: Client, subject: GovernedVersion, k: Key)
    requires UniqueRevisions(c) && HoldsAlias(c, k) && !Recorded(c, subject.key)
    ensures UniqueRevisions(RegisterVersion(c, subject)) && HoldsAlias(RegisterVersion(c, subject), k)
  {
    var next := RegisterVersion(c, subject);
    NewVersionView(subject);
    forall l, m ensures Records(next, l, m) <==> Records(c, l, m) || (l == subject.key && m == c.next) {
      assert VersionId(subject.key.name, c.next) !in c.versions;
    }
    forall s, n | Aliased(s) && Records(next, k, n) && StagedAt(next, k.name, s, n)
      ensures PointsAt(next, k.name, s, n)
    {
      assert Records(c, k, n) && StagedAt(c, k.name, s, n);
      assert PointsAt(c, k.name, s, n);
    }
  }

  lemma SameVersionsHold(c: Client, next: Client, k: Key)
    requires HoldsAlias(c, k) && next.versions == c.versions && next.aliases == c.aliases
    ensures HoldsAlias(next, k)
  {
    forall s, n | Aliased(s) && Records(next, k, n) && StagedAt(next, k.name, s, n)
      ensures PointsAt(next, k.name, s, n)
    {
      assert Records(c, k, n) && StagedAt(c, k.name, s, n);
      assert PointsAt(c, k.name, s, n);
    }
  }

  // Every version of a governed client carries its revision tag.
  ghost predicate AllTagged(c: Client) {
    forall id :: id in c.versions ==> REVISION_TAG in c.versions[id]
  }

  lemma {:induction false} TaggedThroughout(env: Env, actions: seq<Action>, c: Client)
    requires AllTagged(c) && KeyedSubjects(env) && ApplyMl(env, actions, c).Ok?
    ensures AllTagged(ApplyMl(env, actions, c).value)
  {
    if actions != [] {
      var prefix, last := actions[..|actions| - 1], actions[|actions| - 1];
      TaggedThroughout(env, prefix, c);
      TaggedByAction(env, last, ApplyMl(env, prefix, c).value);
    }
  }

  lemma TaggedByAction(env: Env, a: Action, c: Client)
    requires AllTagged(c) && KeyedSubjects(env) && ApplyMlAction(env, a, c).Ok?
    ensures AllTagged(ApplyMlAction(env, a, c).value)
  {
    if a.kind == Annotate {
      var subject := env.subjects[a.key];
      AnnotatingKeepsView(c.versions[VersionId(subject.key.name, Find(c, subject.key))], subject);
    } else if a.kind == Register {
      NewVersionView(env.subjects[a.key]);
    }
  }

  lemma {:induction false} AliasHeldThroughout(
      env: Env, actions: seq<Action>, c: Client, st: StoreState, k: Key)
    requires Agree(c, st) && HoldsAlias(c, k) && KeyedSubjects(env) && RegistersFresh(env, actions, st)
    requires forall a :: a in actions ==> RetiresOnly(a, k)
    requires Apply(env, actions, st).Ok? && ApplyMl(env, actions, c).Ok?
    ensures HoldsAlias(ApplyMl(env, actions, c).value, k)
  {
    hide Agree, HoldsAlias, ApplyAction, ApplyMlAction;
    if actions != [] {
      var prefix, last := actions[..|actions| - 1], actions[|actions| - 1];
      forall i | 0 <= i < |prefix| ensures prefix[i] == actions[i] && prefix[..i] == actions[..i] {
      }
      AliasHeldThroughout(env, prefix, c, st, k);
      ApplyAgrees(env, prefix, c, st);
      var mid := ApplyMl(env, prefix, c).value;
      AgreesOnKeys(mid, Apply(env, prefix, st).value, last.key);
      AgreeingIsUnique(mid, Apply(env, prefix, st).value);
      ActionHoldsAlias(env, last, mid, k);
    }
  }

  lemma AgreeingIsUnique(c: Client, st: StoreState)
    requires Agree(c, st)
    ensures UniqueRevisions(c)
  {
  }

  // A plan retires every other version of a name that the catalog lists.
  lemma PlanRetiresOthers(catalog: Catalog, st: StoreState, order: seq<Key>, s: GovernedVersion)
    requires Enumerates(order, st.recs) && Plan(catalog, st, order).Ok?
    requires s in GovernedVersions(catalog).value
    ensures forall a :: a in Plan(catalog, st, order).value ==> RetiresOnly(a, s.key)
  {
    var actions := Plan(catalog, st, order).value;
    var subjects := GovernedVersions(catalog).value;
    forall a | a in actions && a.kind != Benchmark && a.key.name == s.key.name && a.key != s.key
      ensures a.kind == Transition && a.toStage == Some(Deprecated)
    {
      TouchingKeeps(actions, a);
      PlanTouching(catalog, st, order, a.key);
      SubjectNamedUnique(subjects, s);
    }
  }

  lemma ExactIsSafe(c: Client)
    requires AliasExact(c) && UniqueRevisions(c)
    ensures AliasSafe(c)
  {
  }

  lemma ExactHoldsAlias(c: Client, k: Key)
    requires AliasExact(c)
    ensures HoldsAlias(c, k)
  {
  }

  // A live version after a sync is the catalog's own, and so holds its alias.
  lemma SyncedVersionHoldsAlias(call: SyncCall, c: Client, st: StoreState, k: Key)
    requires Agree(c, st) && AliasExact(c) && Enumerates(call.order, st.recs)
    requires Plan(call.catalog, st, call.order).Ok? && Live(Sync(call, st), k)
    ensures HoldsAlias(MlSync(call, c), k)
  {
    hide Agree, AliasExact, HoldsAlias, RegistersFresh;
    var env := EnvOf(call.catalog, call.commit);
    var actions := Plan(call.catalog, st, call.order).value;
    SyncLeavesNoConflict(call.catalog, call.commit, st, call.order);
    var s :| s in GovernedVersions(call.catalog).value && s.key == k;
    PlanRetiresOthers(call.catalog, st, call.order, s);
    PlanRegistersFresh(call.catalog, env, st, call.order);
    SubjectsKeyed(call.catalog, call.commit);
    MlSyncAgrees(call, c, st);
    ExactHoldsAlias(c, k);
    AliasHeldThroughout(env, actions, c, st, k);
  }

  lemma StagedIsLive(c: Client, st: StoreState, name: string, stage: Stage, n: nat)
    requires Agree(c, st) && AllTagged(c) && Aliased(stage) && StagedAt(c, name, stage, n)
    ensures exists k: Key :: k.name == name && Records(c, k, n) && Live(st, k)
  {
    var k := Key(name, c.versions[VersionId(name, n)][REVISION_TAG]);
    assert Records(c, k, n);
    assert Recorded(c, k);
  }

  /** A sync keeps the staging and production aliases exact. */
  lemma SyncKeepsAliasesExact(call: SyncCall, c: Client, st: StoreState)
    requires Agree(c, st) && AliasExact(c) && AllTagged(c) && Enumerates(call.order, st.recs)
    ensures AliasExact(MlSync(call, c)) && AllTagged(MlSync(call, c))
  {
    hide Agree, AliasExact, HoldsAlias, Sync, MlSync;
    MlSyncAgrees(call, c, st);
    if Plan(call.catalog, st, call.order).Ok? {
      var env := EnvOf(call.catalog, call.commit);
      var actions := Plan(call.catalog, st, call.order).value;
      SubjectsKeyed(call.catalog, call.commit);
      AgreeingIsUnique(c, st);
      ExactIsSafe(c);
      AliasesSafeThroughout(env, actions, c);
      TaggedThroughout(env, actions, c);
      var after := MlSync(call, c);
      forall name, stage, n | Aliased(stage) && StagedAt(after, name, stage, n)
        ensures PointsAt(after, name, stage, n)
      {
        StagedIsLive(after, Sync(call, st), name, stage, n);
        var k: Key :| k.name == name && Records(after, k, n) && Live(Sync(call, st), k);
        SyncedVersionHoldsAlias(call, c, st, k);
        HeldAlias(after, k, stage, n);
      }
      SafeAndHeldIsExact(after);
    } else {
      RefusedSyncIsNothing(call, c, st);
    }
  }

  lemma RefusedSyncIsNothing(call: SyncCall, c: Client, st: StoreState)
    requires Agree(c, st) && Plan(call.catalog, st, call.order).Err?
    ensures MlSync(call, c) == c
  {
    MlPlanAgrees(call, c, st);
  }

  lemma HeldAlias(c: Client, k: Key, stage: Stage, n: nat)
    requires HoldsAlias(c, k) && Aliased(stage) && Records(c, k, n) && StagedAt(c, k.name, stage, n)
    ensures PointsAt(c, k.name, stage, n)
  {
  }

  lemma SafeAndHeldIsExact(c: Client)
    requires AliasSafe(c)
    requires forall name, stage, n :: Aliased(stage) && StagedAt(c, name, stage, n) ==> PointsAt(c, name, stage, n)
    ensures AliasExact(c)
  {
  }

  /** Exact aliases over every run from an empty MLflow: after each sync each name has at
      most one live revision, and staging and production point at exactly the versions in them. */
  lemma {:induction false} RunsKeepAliasesExact(calls: seq<SyncCall>, clients: seq<Client>, i: nat)
    requires MlRun(calls, clients) && i < |clients|
    ensures AliasExact(clients[i]) && AllTagged(clients[i])
    ensures exists st :: Agree(clients[i], st) && OneLiveRevision(st)
  {
    hide MlSync, Sync, Agree, AliasExact, AllTagged, OneLiveRevision;
    var states := MlRunsAgree(calls, clients);
    RunsHaveOneLiveRevision(calls, states, i);
    if i == 0 {
      EmptyAliasesExact();
    } else {
      RunsKeepAliasesExact(calls, clients, i - 1);
      assert SyncStep(calls[i - 1], states[i - 1], states[i]);
      assert MlSyncStep(calls[i - 1], clients[i - 1], clients[i]);
      SyncKeepsAliasesExact(calls[i - 1], clients[i - 1], states[i - 1]);
    }
  }

  lemma EmptyAliasesExact()
    ensures AliasExact(EMPTY_CLIENT) && AllTagged(EMPTY_CLIENT)
  {
  }

  /** Two versions of one name are never both in a live stage after a sync. */
  lemma AliasTargetsAreUnique(
      calls: seq<SyncCall>, clients: seq<Client>, i: nat, name: string, s: Stage, t: Stage, m: nat, n: nat)
    requires MlRun(calls, clients) && i < |clients|
    requires Aliased(s) && PointsAt(clients[i], name, s, m)
    requires StagedAt(clients[i], name, t, n) && t != Deprecated
    ensures m == n && s == t
  {
    RunsKeepAliasesExact(calls, clients, i);
    var c := clients[i];
    var st :| Agree(c, st) && OneLiveRevision(st);
    var k := Key(name, c.versions[VersionId(name, m)][REVISION_TAG]);
    var l := Key(name, c.versions[VersionId(name, n)][REVISION_TAG]);
    assert Records(c, k, m) && Records(c, l, n);
    assert Recorded(c, k) && Recorded(c, l);
    assert Live(st, k) && Live(st, l);
  }
}
