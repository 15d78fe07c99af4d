// What a consumer can resolve: the aliases of every name, read as text straight
// from the client after each sync of a run.
module MlflowAliases {
  import opened Wrappers
  import opened Governance
  import opened Reconciliation
  import opened History
  import opened CatalogSync
  import opened Mlflow
  import opened MlflowRuns

  // What models:/<name>@<text> resolves to.
  predicate Resolves(c: Client, name: string, text: string, n: nat) {
    AliasKey(name, text) in c.aliases && c.aliases[AliasKey(name, text)] == n
  }

  // A version whose stage tag reads so.
  predicate TaggedAs(c: Client, name: string, text: string, n: nat) {
    && VersionId(name, n) in c.versions
    && "catalog.stage" in c.versions[VersionId(name, n)]
    && c.versions[VersionId(name, n)]["catalog.stage"] == text
  }

  ghost predicate OnlyStageTexts(c: Client) {
    forall key :: key in c.aliases ==> key.text == "staging" || key.text == "production"
  }

  lemma ActionKeepsTexts(env: Env, a: Action, c: Client)
    requires OnlyStageTexts(c) && ApplyMlAction(env, a, c).Ok?
    ensures OnlyStageTexts(ApplyMlAction(env, a, c).value)
  {
    hide Recorded, Find;
  }

  lemma {:induction false} ApplyKeepsTexts(env: Env, actions: seq<Action>, c: Client)
    requires OnlyStageTexts(c) && ApplyMl(env, actions, c).Ok?
    ensures OnlyStageTexts(ApplyMl(env, actions, c).value)
  {
    hide OnlyStageTexts, ApplyMlAction;
    if actions != [] {
      var front := actions[..|actions| - 1];
      ApplyKeepsTexts(env, front, c);
      ActionKeepsTexts(env, actions[|actions| - 1], ApplyMl(env, front, c).value);
    }
  }

  lemma SyncKeepsTexts(call: SyncCall, c: Client)
    requires OnlyStageTexts(c)
    ensures OnlyStageTexts(MlSync(call, c))
  {
    hide OnlyStageTexts, ApplyMl, Plan;
    var planned := Plan(call.catalog, ViewStore(c), call.order);
    PlanRefusesIff(call.catalog, ViewStore(c), call.order);
    if planned.Ok? {
      var env := EnvOf(call.catalog, call.commit);
      if ApplyMl(env, planned.value, c).Ok? {
        ApplyKeepsTexts(env, planned.value, c);
      }
    }
  }

  lemma {:induction false} RunsKeepTexts(calls: seq<SyncCall>, clients: seq<Client>, i: nat)
    requires MlRun(calls, clients) && i < |clients|
    ensures OnlyStageTexts(clients[i])
  {
    hide MlSync;
    if i > 0 {
      RunsKeepTexts(calls, clients, i - 1);
      assert MlSyncStep(calls[i - 1], clients[i - 1], clients[i]);
      SyncKeepsTexts(calls[i - 1], clients[i - 1]);
    }
  }

  lemma TextsOfStages(c: Client, name: string, n: nat)
    ensures StagedAt(c, name, Production, n) <==> TaggedAs(c, name, "production", n)
    ensures StagedAt(c, name, Staging, n) <==> TaggedAs(c, name, "staging", n)
    ensures PointsAt(c, name, Production, n) <==> Resolves(c, name, "production", n)
    ensures PointsAt(c, name, Staging, n) <==> Resolves(c, name, "staging", n)
  {
  }

  /** Exact aliases, letter by letter: after every sync of every run the alias production of
      a name leads to version n exactly when that version is tagged production, likewise
      staging, and there is no other alias. */
  lemma AliasesReadExactly(calls: seq<SyncCall>, clients: seq<Client>, i: nat, name: string, n: nat)
    requires MlRun(calls, clients) && i < |clients|
    ensures var c := clients[i];
      && (AliasKey(name, "production") in c.aliases && c.aliases[AliasKey(name, "production")] == n
          <==> TaggedAs(c, name, "production", n))
      && (AliasKey(name, "staging") in c.aliases && c.aliases[AliasKey(name, "staging")] == n
          <==> TaggedAs(c, name, "staging", n))
      && (forall key :: key in c.aliases ==> key.text == "staging" || key.text == "production")
  {
    hide MlRun, TaggedAs, StagedAt, PointsAt;
    RunsKeepAliasesExact(calls, clients, i);
    RunsKeepTexts(calls, clients, i);
    TextsOfStages(clients[i], name, n);
    assert Aliased(Production) && Aliased(Staging);
  }

  // The text a consumer puts behind the at sign.
  function AliasText(stage: Stage): string
    requires stage == Staging || stage == Production
  {
    if stage == Staging then "staging" else "production"
  }

  lemma StagedVersionIsRecorded(c: Client, st: StoreState, k: Key, n: nat, stage: Stage)
    requires Agree(c, st) && Records(c, k, n)
    ensures k in st.recs && (st.recs[k].stage == Some(stage) <==> StagedAt(c, k.name, stage, n))
  {
  }

  lemma RevisionOf(c: Client, name: string, n: nat) returns (k: Key)
    requires AllTagged(c) && VersionId(name, n) in c.versions
    ensures k.name == name && Records(c, k, n)
    ensures Some(k.revision) == Tag(c.versions[VersionId(name, n)], "catalog.revision")
  {
    k := Key(name, c.versions[VersionId(name, n)][REVISION_TAG]);
  }

  lemma FoundVersion(c: Client, st: StoreState, k: Key) returns (n: nat)
    requires Agree(c, st) && k in st.recs
    ensures Records(c, k, n) && Tag(c.versions[VersionId(k.name, n)], "catalog.revision") == Some(k.revision)
  {
    AgreesOnKeys(c, st, k);
    n := Find(c, k);
  }

  /** What the aliases are for: after an accepted sync of any run, a name's alias leads to the
      revision that the catalog has in that stage, and there is none without such a card. */
  lemma AliasesLeadToTheCatalog(calls: seq<SyncCall>, clients: seq<Client>, i: nat, name: string, stage: Stage)
    requires MlRun(calls, clients) && i < |calls| && (stage == Staging || stage == Production)
    requires Plan(calls[i].catalog, ViewStore(clients[i]), calls[i].order).Ok?
    ensures var c, key := clients[i + 1], AliasKey(name, AliasText(stage));
      && (forall card :: card in Cards(calls[i].catalog) && card.id == name && card.stage == stage ==>
        && key in c.aliases && VersionId(name, c.aliases[key]) in c.versions
        && Tag(c.versions[VersionId(name, c.aliases[key])], "catalog.revision") == Some(card.revision))
      && (key in c.aliases ==> exists card :: card in Cards(calls[i].catalog) && card.id == name && card.stage == stage)
  {
    assert |clients| == |calls| + 1;
    hide MlSync, Sync, Plan, Agree, MlRun, StagedAt, PointsAt, SyncRun, Enumerates, OneLiveRevision, Records, AllTagged;
    var call, c, key := calls[i], clients[i + 1], AliasKey(name, AliasText(stage));
    var st, after := MatchedStep(calls, clients, i);
    RunsKeepAliasesExact(calls, clients, i + 1);
    assert Aliased(stage);
    forall card | card in Cards(call.catalog) && card.id == name && card.stage == stage
      ensures key in c.aliases && VersionId(name, c.aliases[key]) in c.versions
        && Tag(c.versions[VersionId(name, c.aliases[key])], "catalog.revision") == Some(card.revision)
    {
      var k := CardKey(card);
      SyncRecordsTheCatalog(call, st, k);
      assert IsCardKey(call.catalog, k);
      var n := FoundVersion(c, after, k);
      StagedVersionIsRecorded(c, after, k, n, stage);
      Pointed(c, name, stage, n);
    }
    if key in c.aliases {
      var n := c.aliases[key];
      Pointed(c, name, stage, n);
      var k := RevisionOf(c, name, n);
      StagedVersionIsRecorded(c, after, k, n, stage);
      SyncRecordsTheCatalog(call, st, k);
      assert IsCardKey(call.catalog, k);
    }
  }

  lemma Pointed(c: Client, name: string, stage: Stage, n: nat)
    requires AliasExact(c) && Aliased(stage)
    ensures stage == Staging || stage == Production
    ensures StagedAt(c, name, stage, n) <==>
      AliasKey(name, AliasText(stage)) in c.aliases && c.aliases[AliasKey(name, AliasText(stage))] == n
    ensures StagedAt(c, name, stage, n) ==> VersionId(name, n) in c.versions
  {
    assert StagedAt(c, name, stage, n) <==> PointsAt(c, name, stage, n);
  }

  // The plain store's step that matches one step of a run.
  lemma MatchedStep(calls: seq<SyncCall>, clients: seq<Client>, i: nat) returns (st: StoreState, after: StoreState)
    requires MlRun(calls, clients) && i < |calls|
    requires Plan(calls[i].catalog, ViewStore(clients[i]), calls[i].order).Ok?
    ensures Enumerates(calls[i].order, st.recs) && Plan(calls[i].catalog, st, calls[i].order).Ok?
    ensures after == Sync(calls[i], st) && Agree(clients[i + 1], after)
  {
    hide MlSync, Sync, Plan, Agree;
    var states := MlRunsAgree(calls, clients);
    st, after := states[i], states[i + 1];
    assert SyncStep(calls[i], st, after);
    MlPlanAgrees(calls[i], clients[i], st);
  }
}
