// Properties of whole runs of syncs: the promotion log replays to the recorded
// stages, no revision disappears, at most one revision of a name is live, and
// when a recorded checksum can change.
module History {
  import opened Wrappers
  import opened Governance
  import opened Reconciliation

  datatype SyncCall = SyncCall(catalog: Catalog, order: seq<Key>, commit: string)

  // A sync: plan, then carry the plan out. A refused plan touches nothing.
  function Sync(call: SyncCall, st: StoreState): StoreState {
    var planned := Plan(call.catalog, st, call.order);
    if planned.Err? then st
    else
      var applied := Apply(EnvOf(call.catalog, call.commit), planned.value, st);
      if applied.Ok? then applied.value else st
  }

  // One sync, listing the store in any order.
  ghost predicate SyncStep(call: SyncCall, before: StoreState, after: StoreState) {
    Enumerates(call.order, before.recs) && after == Sync(call, before)
  }

  // A run of syncs from an empty store, with every intermediate state.
  ghost predicate SyncRun(calls: seq<SyncCall>, states: seq<StoreState>) {
    && |states| == |calls| + 1
    && states[0] == EMPTY_STORE
    && forall i :: 0 <= i < |calls| ==> SyncStep(calls[i], states[i], states[i + 1])
  }

  // ------------------------------------------------------------- log replay

  // The promotions chain, each starting where the one before ended, from no stage to this one.
  predicate ReplaysTo(log: seq<Promotion>, stage: Option<Stage>) {
    if log == [] then stage == None
    else
      var last := log[|log| - 1];
      stage == Some(last.toStage) && ReplaysTo(log[..|log| - 1], last.fromStage)
  }

  ghost predicate HistoryHolds(st: StoreState) {
    forall k :: ReplaysTo(LogOf(st.log, k), StageAt(RecordAt(st, k)))
             && (k in st.recs ==> st.recs[k].stage.Some?)
  }

  lemma ReplayExtends(log: seq<Promotion>, added: seq<Promotion>, env: Env, k: Key,
                      before: Option<Record>, after: Option<Record>)
    requires ReplaysTo(log, StageAt(before)) && LogsMove(env, k, before, after, added)
    ensures ReplaysTo(log + added, StageAt(after))
  {
    if added == [] {
      assert log + added == log;
    } else {
      assert (log + added)[..|log + added| - 1] == log;
    }
  }

  lemma SyncKeepsHistory(call: SyncCall, st: StoreState)
    requires Enumerates(call.order, st.recs) && HistoryHolds(st)
    ensures HistoryHolds(Sync(call, st))
    ensures st.recs.Keys <= Sync(call, st).recs.Keys
  {
    if Plan(call.catalog, st, call.order).Ok? {
      SyncAt(call.catalog, call.commit, st, call.order);
      var after := Sync(call, st);
      var env := EnvOf(call.catalog, call.commit);
      forall k ensures ReplaysTo(LogOf(after.log, k), StageAt(RecordAt(after, k)))
        && (k in after.recs ==> after.recs[k].stage.Some?) && (k in st.recs ==> k in after.recs)
      {
        var was, now := LogOf(st.log, k), LogOf(after.log, k);
        assert RecordAt(after, k) == SyncedRecord(st.recs, GovernedVersions(call.catalog).value, k);
        ReplayExtends(was, now[|was|..], env, k, RecordAt(st, k), RecordAt(after, k));
        assert was + now[|was|..] == now;
      }
    }
  }

  lemma {:induction false} ApplyAppends(env: Env, actions: seq<Action>, st: StoreState)
    requires Apply(env, actions, st).Ok?
    ensures st.log <= Apply(env, actions, st).value.log
  {
    if actions != [] {
      ApplyAppends(env, actions[..|actions| - 1], st);
    }
  }

  lemma SyncAppends(call: SyncCall, st: StoreState)
    ensures st.log <= Sync(call, st).log
  {
    var planned := Plan(call.catalog, st, call.order);
    if planned.Ok? && Apply(EnvOf(call.catalog, call.commit), planned.value, st).Ok? {
      ApplyAppends(EnvOf(call.catalog, call.commit), planned.value, st);
    }
  }

  /** Replay: over every run of syncs the promotions of each revision chain up to its recorded stage. */
  lemma {:induction false} RunsReplay(calls: seq<SyncCall>, states: seq<StoreState>, i: nat)
    requires SyncRun(calls, states) && i < |states|
    ensures HistoryHolds(states[i])
  {
    if i > 0 {
      RunsReplay(calls, states, i - 1);
      assert SyncStep(calls[i - 1], states[i - 1], states[i]);
      SyncKeepsHistory(calls[i - 1], states[i - 1]);
    } else {
      assert HistoryHolds(EMPTY_STORE);
    }
  }

  /** Nothing is forgotten: later states hold every earlier revision and extend every earlier log. */
  lemma {:induction false} RunsOnlyGrow(calls: seq<SyncCall>, states: seq<StoreState>, i: nat, j: nat)
    requires SyncRun(calls, states) && i <= j < |states|
    ensures states[i].recs.Keys <= states[j].recs.Keys
    ensures states[i].log <= states[j].log
  {
    if i < j {
      RunsOnlyGrow(calls, states, i, j - 1);
      RunsReplay(calls, states, j - 1);
      assert SyncStep(calls[j - 1], states[j - 1], states[j]);
      SyncKeepsHistory(calls[j - 1], states[j - 1]);
      SyncAppends(calls[j - 1], states[j - 1]);
    }
  }

  // --------------------------------------------------------- one live revision

  predicate Live(st: StoreState, k: Key) {
    k in st.recs && st.recs[k].stage != Some(Deprecated)
  }

  ghost predicate OneLiveRevision(st: StoreState) {
    forall k, l :: Live(st, k) && Live(st, l) && k.name == l.name ==> k == l
  }

  lemma InStepHasOneLiveRevision(catalog: Catalog, st: StoreState)
    requires GovernedVersions(catalog).Ok? && InStep(catalog, st)
    ensures OneLiveRevision(st)
  {
    var subjects := GovernedVersions(catalog).value;
    forall k, l | Live(st, k) && Live(st, l) && k.name == l.name ensures k == l {
      var s :| s in subjects && s.key == k;
      var t :| t in subjects && t.key == l;
      SubjectNamedUnique(subjects, s);
      SubjectNamedUnique(subjects, t);
    }
  }

  lemma SyncKeepsOneLiveRevision(call: SyncCall, st: StoreState, after: StoreState)
    requires SyncStep(call, st, after) && OneLiveRevision(st)
    ensures OneLiveRevision(after)
  {
    if Plan(call.catalog, st, call.order).Ok? {
      SyncLeavesNoConflict(call.catalog, call.commit, st, call.order);
      InStepHasOneLiveRevision(call.catalog, after);
    }
  }

  /** After every sync of a run, each name has at most one revision that is not deprecated. */
  lemma {:induction false} RunsHaveOneLiveRevision(calls: seq<SyncCall>, states: seq<StoreState>, i: nat)
    requires SyncRun(calls, states) && i < |states|
    ensures OneLiveRevision(states[i])
  {
    hide Sync;
    if i > 0 {
      RunsHaveOneLiveRevision(calls, states, i - 1);
      assert SyncStep(calls[i - 1], states[i - 1], states[i]);
      SyncKeepsOneLiveRevision(calls[i - 1], states[i - 1], states[i]);
    }
  }

  // ---------------------------------------------------------------- checksums

  function ChecksumAt(st: StoreState, k: Key): Option<string> {
    if k in st.recs then st.recs[k].checksum else None
  }

  /** No single sync replaces a recorded checksum with a different one. */
  lemma SyncKeepsChecksum(call: SyncCall, st: StoreState, k: Key)
    requires Enumerates(call.order, st.recs)
    requires Given(ChecksumAt(st, k)) && Given(ChecksumAt(Sync(call, st), k))
    ensures ChecksumAt(Sync(call, st), k) == ChecksumAt(st, k)
  {
    if Plan(call.catalog, st, call.order).Ok? {
      SyncAt(call.catalog, call.commit, st, call.order);
      PlanRefusesIff(call.catalog, st, call.order);
      var subjects := GovernedVersions(call.catalog).value;
      SubjectNamedSound(subjects, k.name);
      assert RecordAt(Sync(call, st), k) == SyncedRecord(st.recs, subjects, k);
    }
  }

  // The checksum tag repeats the checksum, as register and annotate write it.
  predicate ChecksumTagged(rec: Record) {
    if Given(rec.checksum)
    then CHECKSUM_TAG in rec.tags && rec.tags[CHECKSUM_TAG] == rec.checksum.value
    else CHECKSUM_TAG !in rec.tags
  }

  ghost predicate ChecksumsTagged(st: StoreState) {
    forall k :: k in st.recs ==> ChecksumTagged(st.recs[k])
  }

  lemma CardTagsKeepChecksum(rec: Record, s: GovernedVersion)
    requires ChecksumTagged(rec) && CardTags(rec.tags) == CardTags(RecordedTags(s))
    ensures Given(rec.checksum) == Given(s.checksum)
    ensures Given(rec.checksum) ==> rec.checksum == s.checksum
  {
    assert CHECKSUM_TAG in CardTags(rec.tags) <==> CHECKSUM_TAG in rec.tags;
    assert CHECKSUM_TAG in CardTags(RecordedTags(s)) <==> CHECKSUM_TAG in RecordedTags(s);
  }

  // The catalog lists this revision and gives it no checksum.
  ghost predicate OmitsChecksum(catalog: Catalog, k: Key) {
    && GovernedVersions(catalog).Ok?
    && exists s :: s in GovernedVersions(catalog).value && s.key == k && !Given(s.checksum)
  }

  lemma SyncRecordAt(call: SyncCall, st: StoreState, k: Key)
    requires Enumerates(call.order, st.recs) && Plan(call.catalog, st, call.order).Ok?
    ensures RecordAt(Sync(call, st), k) == SyncedRecord(st.recs, GovernedVersions(call.catalog).value, k)
  {
    SyncAt(call.catalog, call.commit, st, call.order);
  }

  lemma SubjectRecordChecksum(recs: map<Key, Record>, s: GovernedVersion)
    requires s.key in recs ==> ChecksumTagged(recs[s.key])
    ensures Given(SubjectRecord(recs, s).checksum) == Given(s.checksum)
    ensures Given(s.checksum) ==> SubjectRecord(recs, s).checksum == s.checksum
  {
    if s.key in recs {
      var rec := recs[s.key].(stage := Some(s.stage));
      if CardTags(rec.tags) == CardTags(RecordedTags(s)) {
        CardTagsKeepChecksum(rec, s);
      }
    }
  }

  lemma OmitsChecksumAt(catalog: Catalog, k: Key)
    requires GovernedVersions(catalog).Ok?
    ensures var s := SubjectNamed(GovernedVersions(catalog).value, k.name);
      OmitsChecksum(catalog, k) <==> s.Some? && s.value.key == k && !Given(s.value.checksum)
  {
    var subjects := GovernedVersions(catalog).value;
    SubjectNamedSound(subjects, k.name);
    if s :| s in subjects && s.key == k && !Given(s.checksum) {
      SubjectNamedUnique(subjects, s);
    }
  }

  /** A sync that is not refused forgets a recorded checksum exactly when the catalog
      lists that revision without one. */
  lemma SyncForgetsChecksumIff(call: SyncCall, st: StoreState, k: Key)
    requires Enumerates(call.order, st.recs) && Plan(call.catalog, st, call.order).Ok?
    requires ChecksumsTagged(st) && Given(ChecksumAt(st, k))
    ensures !Given(ChecksumAt(Sync(call, st), k)) <==> OmitsChecksum(call.catalog, k)
  {
    SyncRecordAt(call, st, k);
    OmitsChecksumAt(call.catalog, k);
    var s := SubjectNamed(GovernedVersions(call.catalog).value, k.name);
    if s.Some? && s.value.key == k {
      SubjectRecordChecksum(st.recs, s.value);
    }
  }

  lemma SubjectRecordTagged(recs: map<Key, Record>, s: GovernedVersion)
    requires s.key in recs ==> ChecksumTagged(recs[s.key])
    ensures ChecksumTagged(SubjectRecord(recs, s))
  {
  }

  lemma SyncKeepsChecksumsTagged(call: SyncCall, st: StoreState)
    requires Enumerates(call.order, st.recs) && ChecksumsTagged(st)
    ensures ChecksumsTagged(Sync(call, st))
  {
    if Plan(call.catalog, st, call.order).Ok? {
      var after := Sync(call, st);
      forall k | k in after.recs ensures ChecksumTagged(after.recs[k]) {
        SyncRecordAt(call, st, k);
        var s := SubjectNamed(GovernedVersions(call.catalog).value, k.name);
        if s.Some? && s.value.key == k { SubjectRecordTagged(st.recs, s.value); }
      }
    }
  }

  lemma {:induction false} RunsTagChecksums(calls: seq<SyncCall>, states: seq<StoreState>, i: nat)
    requires SyncRun(calls, states) && i < |states|
    ensures ChecksumsTagged(states[i])
  {
    if i == 0 {
      assert states[0].recs == map[];
    } else {
      RunsTagChecksums(calls, states, i - 1);
      assert SyncStep(calls[i - 1], states[i - 1], states[i]);
      SyncKeepsChecksumsTagged(calls[i - 1], states[i - 1]);
    }
  }

  // A sync that is carried out although its catalog gives the revision no checksum.
  ghost predicate DropsChecksum(call: SyncCall, st: StoreState, k: Key) {
    Plan(call.catalog, st, call.order).Ok? && OmitsChecksum(call.catalog, k)
  }

  lemma SyncHoldsChecksumIff(call: SyncCall, st: StoreState, after: StoreState, k: Key)
    requires SyncStep(call, st, after) && ChecksumsTagged(st) && Given(ChecksumAt(st, k))
    ensures ChecksumAt(after, k) == ChecksumAt(st, k) <==> !DropsChecksum(call, st, k)
  {
    hide OmitsChecksum;
    if Plan(call.catalog, st, call.order).Ok? {
      SyncForgetsChecksumIff(call, st, k);
      if !OmitsChecksum(call.catalog, k) {
        SyncKeepsChecksum(call, st, k);
      }
    }
  }

  /** Over any stretch of any run a recorded checksum stays the same if and only if no
      sync of the stretch is carried out with a catalog that gives the revision none. */
  lemma {:induction false} ChecksumImmutableIff(
      calls: seq<SyncCall>, states: seq<StoreState>, i: nat, j: nat, k: Key)
    requires SyncRun(calls, states) && i <= j < |states|
    requires Given(ChecksumAt(states[i], k))
    ensures (forall m :: i <= m <= j ==> ChecksumAt(states[m], k) == ChecksumAt(states[i], k))
       <==> (forall m :: i <= m < j ==> !DropsChecksum(calls[m], states[m], k))
  {
    hide DropsChecksum, ChecksumAt, SyncStep, ChecksumsTagged;
    if i < j {
      ChecksumImmutableIff(calls, states, i, j - 1, k);
      if ChecksumAt(states[j - 1], k) == ChecksumAt(states[i], k) {
        RunsTagChecksums(calls, states, j - 1);
        assert SyncStep(calls[j - 1], states[j - 1], states[j]);
        SyncHoldsChecksumIff(calls[j - 1], states[j - 1], states[j], k);
      }
    }
  }

  function OneModelCatalog(checksums: map<string, string>): Catalog {
    Catalog([Card("m", "r", Production, map[])], [], [Deployment(Production, checksums, map[])], [], "v1")
  }

  lemma OneModelVersions(checksums: map<string, string>)
    ensures var checksum := if "m" in checksums then Some(checksums["m"]) else None;
      GovernedVersions(OneModelCatalog(checksums))
        == Ok([GovernedVersion(Key("m", "r"), Production, checksum, map[])])
  {
    var catalog := OneModelCatalog(checksums);
    var deployments := catalog.deployments;
    assert deployments[..|deployments| - 1] == [];
    assert map[] + checksums == checksums;
    assert ModelChecksums(deployments) == checksums;
    var models := GovernedCards(catalog.models, checksums);
    assert models + GovernedCards(catalog.adapters, AdapterChecksums(deployments)) == models;
    var checksum := if "m" in checksums then Some(checksums["m"]) else None;
    assert models == [GovernedVersion(Key("m", "r"), Production, checksum, map[])];
  }

  lemma OneModelSync(checksums: map<string, string>, st: StoreState, order: seq<Key>)
    requires Enumerates(order, st.recs)
    requires st.recs.Keys <= {Key("m", "r")} && ChecksumsTagged(st)
    requires Given(ChecksumAt(st, Key("m", "r"))) ==> "m" !in checksums
    requires "m" in checksums ==> checksums["m"] != ""
    ensures var after := Sync(SyncCall(OneModelCatalog(checksums), order, "c"), st);
      && after.recs.Keys == {Key("m", "r")} && ChecksumsTagged(after)
      && Given(ChecksumAt(after, Key("m", "r"))) == ("m" in checksums)
      && ("m" in checksums ==> ChecksumAt(after, Key("m", "r")) == Some(checksums["m"]))
  {
    var call, k := SyncCall(OneModelCatalog(checksums), order, "c"), Key("m", "r");
    OneModelVersions(checksums);
    var subjects := GovernedVersions(call.catalog).value;
    PlanRefusesIff(call.catalog, st, order);
    SyncKeepsChecksumsTagged(call, st);
    var after := Sync(call, st);
    forall l ensures l in after.recs <==> l == k {
      SyncRecordAt(call, st, l);
      SubjectNamedSound(subjects, l.name);
    }
    SyncRecordAt(call, st, k);
    SubjectNamedUnique(subjects, subjects[0]);
    SubjectRecordChecksum(st.recs, subjects[0]);
  }

  // One sync of the one-model catalog, with what the next step needs to know of it.
  lemma OneModelStep(checksums: map<string, string>, st: StoreState, order: seq<Key>)
    returns (call: SyncCall, after: StoreState)
    requires Enumerates(order, st.recs)
    requires st.recs.Keys <= {Key("m", "r")} && ChecksumsTagged(st)
    requires Given(ChecksumAt(st, Key("m", "r"))) ==> "m" !in checksums
    requires "m" in checksums ==> checksums["m"] != ""
    ensures SyncStep(call, st, after)
    ensures after.recs.Keys == {Key("m", "r")} && ChecksumsTagged(after)
    ensures Enumerates([Key("m", "r")], after.recs)
    ensures Given(ChecksumAt(after, Key("m", "r"))) == ("m" in checksums)
    ensures "m" in checksums ==> ChecksumAt(after, Key("m", "r")) == Some(checksums["m"])
  {
    call := SyncCall(OneModelCatalog(checksums), order, "c");
    after := Sync(call, st);
    OneModelSync(checksums, st, order);
  }

  lemma ThreeSyncs(calls: seq<SyncCall>, states: seq<StoreState>)
    requires |calls| == 3 && |states| == 4 && states[0] == EMPTY_STORE
    requires SyncStep(calls[0], states[0], states[1])
    requires SyncStep(calls[1], states[1], states[2])
    requires SyncStep(calls[2], states[2], states[3])
    ensures SyncRun(calls, states)
  {
  }

  /** Across several syncs immutability does fail: a catalog that drops the checksum in
      between lets the next one record a different artifact under the same revision. */
  lemma ChecksumCanBeReplaced() returns (calls: seq<SyncCall>, states: seq<StoreState>)
    ensures SyncRun(calls, states) && |calls| == 3
    ensures ChecksumAt(states[1], Key("m", "r")) == Some("a")
    ensures ChecksumAt(states[3], Key("m", "r")) == Some("b")
  {
    hide Sync;
    var k := Key("m", "r");
    var c1, s1 := OneModelStep(map["m" := "a"], EMPTY_STORE, []);
    var c2, s2 := OneModelStep(map[], s1, [k]);
    var c3, s3 := OneModelStep(map["m" := "b"], s2, [k]);
    calls, states := [c1, c2, c3], [EMPTY_STORE, s1, s2, s3];
    ThreeSyncs(calls, states);
  }
}
