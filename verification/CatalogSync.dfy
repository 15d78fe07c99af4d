// What a sync means in terms of the catalog itself: its two lists of cards and
// its deployments, read directly rather than through the governed versions.
module CatalogSync {
  import opened Wrappers
  import opened Governance
  import opened Reconciliation
  import opened History

  function Cards(catalog: Catalog): seq<Card> {
    catalog.models + catalog.adapters
  }

  function CardKey(card: Card): Key {
    Key(card.id, card.revision)
  }

  ghost predicate ShareAnId(cards: seq<Card>) {
    exists i, j :: 0 <= i < j < |cards| && cards[i].id == cards[j].id
  }

  // What a deployment says of models, or of adapters.
  function Named(d: Deployment, adapter: bool): map<string, string> {
    if adapter then d.adapterChecksums else d.modelChecksums
  }

  // The checksum that the last production deployment to name this id gives it.
  ghost predicate LastProduction(
      deployments: seq<Deployment>, adapter: bool, id: string, checksum: Option<string>)
  {
    match checksum
    case Some(sum) =>
      exists i :: 0 <= i < |deployments| && deployments[i].stage == Production
        && id in Named(deployments[i], adapter) && Named(deployments[i], adapter)[id] == sum
        && forall j :: i < j < |deployments| && deployments[j].stage == Production ==>
          id !in Named(deployments[j], adapter)
    case None =>
      forall i :: 0 <= i < |deployments| && deployments[i].stage == Production ==> id !in Named(deployments[i], adapter)
  }

  ghost predicate ModelChecksumIs(catalog: Catalog, card: Card, checksum: Option<string>) {
    card in catalog.models && LastProduction(catalog.deployments, false, card.id, checksum)
  }

  ghost predicate AdapterChecksumIs(catalog: Catalog, card: Card, checksum: Option<string>) {
    card in catalog.adapters && LastProduction(catalog.deployments, true, card.id, checksum)
  }

  ghost predicate ChecksumIs(catalog: Catalog, card: Card, checksum: Option<string>) {
    ModelChecksumIs(catalog, card, checksum) || AdapterChecksumIs(catalog, card, checksum)
  }

  function Found(checksums: map<string, string>, id: string): Option<string> {
    if id in checksums then Some(checksums[id]) else None
  }

  lemma LastProductionAppend(deployments: seq<Deployment>, last: Deployment, adapter: bool,
                             id: string, checksum: Option<string>)
    requires LastProduction(deployments, adapter, id, checksum)
    ensures var all := deployments + [last];
      if last.stage == Production && id in Named(last, adapter)
      then LastProduction(all, adapter, id, Some(Named(last, adapter)[id]))
      else LastProduction(all, adapter, id, checksum)
  {
    var all := deployments + [last];
    if last.stage == Production && id in Named(last, adapter) {
      assert all[|deployments|] == last;
    } else if checksum.Some? {
      var i :| 0 <= i < |deployments| && deployments[i].stage == Production
        && id in Named(deployments[i], adapter) && Named(deployments[i], adapter)[id] == checksum.value
        && forall j :: i < j < |deployments| && deployments[j].stage == Production ==>
          id !in Named(deployments[j], adapter);
      assert all[i] == deployments[i];
    }
  }

  lemma {:induction false} ModelChecksumsExact(deployments: seq<Deployment>, id: string)
    ensures LastProduction(deployments, false, id, Found(ModelChecksums(deployments), id))
  {
    if deployments != [] {
      var front, last := deployments[..|deployments| - 1], deployments[|deployments| - 1];
      ModelChecksumsExact(front, id);
      LastProductionAppend(front, last, false, id, Found(ModelChecksums(front), id));
      assert deployments == front + [last];
    }
  }

  lemma {:induction false} AdapterChecksumsExact(deployments: seq<Deployment>, id: string)
    ensures LastProduction(deployments, true, id, Found(AdapterChecksums(deployments), id))
  {
    if deployments != [] {
      var front, last := deployments[..|deployments| - 1], deployments[|deployments| - 1];
      AdapterChecksumsExact(front, id);
      LastProductionAppend(front, last, true, id, Found(AdapterChecksums(front), id));
      assert deployments == front + [last];
    }
  }

  lemma LastProductionUnique(deployments: seq<Deployment>, adapter: bool,
                             id: string, a: Option<string>, b: Option<string>)
    requires LastProduction(deployments, adapter, id, a) && LastProduction(deployments, adapter, id, b)
    ensures a == b
  {
  }

  // ------------------------------------------------- cards and their subjects

  // The record that a card asks for.
  predicate Stands(s: GovernedVersion, card: Card) {
    s.key == CardKey(card) && s.stage == card.stage && s.text == card.text
  }

  lemma SubjectsExact(catalog: Catalog)
    ensures GovernedVersions(catalog).Ok? <==> !ShareAnId(Cards(catalog))
    ensures GovernedVersions(catalog).Ok? ==>
      var subjects, cards := GovernedVersions(catalog).value, Cards(catalog);
      && |subjects| == |cards|
      && (forall i :: 0 <= i < |cards| ==>
        Stands(subjects[i], cards[i]) && ChecksumIs(catalog, cards[i], subjects[i].checksum))
  {
    var cards := Cards(catalog);
    var models, adapters := GovernedCards(catalog.models, ModelChecksums(catalog.deployments)),
                            GovernedCards(catalog.adapters, AdapterChecksums(catalog.deployments));
    var versions := models + adapters;
    assert forall i :: 0 <= i < |cards| ==> Stands(versions[i], cards[i]);
    assert DistinctNames(versions) <==> !ShareAnId(cards) by {
      assert forall i :: 0 <= i < |cards| ==> versions[i].key.name == cards[i].id;
    }
    forall i | 0 <= i < |cards| ensures ChecksumIs(catalog, cards[i], versions[i].checksum) {
      if i < |catalog.models| {
        assert cards[i] == catalog.models[i] && versions[i] == models[i];
        ModelChecksumsExact(catalog.deployments, cards[i].id);
      } else {
        assert cards[i] == catalog.adapters[i - |catalog.models|] && versions[i] == adapters[i - |catalog.models|];
        AdapterChecksumsExact(catalog.deployments, cards[i].id);
      }
    }
  }

  lemma CardSubject(catalog: Catalog, card: Card) returns (s: GovernedVersion)
    requires GovernedVersions(catalog).Ok? && card in Cards(catalog)
    ensures s in GovernedVersions(catalog).value && Stands(s, card) && ChecksumIs(catalog, card, s.checksum)
  {
    SubjectsExact(catalog);
    var i :| 0 <= i < |Cards(catalog)| && Cards(catalog)[i] == card;
    s := GovernedVersions(catalog).value[i];
  }

  lemma SubjectCard(catalog: Catalog, s: GovernedVersion) returns (card: Card)
    requires GovernedVersions(catalog).Ok? && s in GovernedVersions(catalog).value
    ensures card in Cards(catalog) && Stands(s, card) && ChecksumIs(catalog, card, s.checksum)
  {
    SubjectsExact(catalog);
    var i :| 0 <= i < |GovernedVersions(catalog).value| && GovernedVersions(catalog).value[i] == s;
    card := Cards(catalog)[i];
  }

  // No card stands in both lists, unless an id is used twice.
  lemma OneList(catalog: Catalog, card: Card)
    requires !ShareAnId(Cards(catalog))
    ensures card in catalog.models ==> card !in catalog.adapters
  {
    forall i, j | 0 <= i < |catalog.models| && 0 <= j < |catalog.adapters|
      ensures catalog.models[i].id != catalog.adapters[j].id
    {
      assert Cards(catalog)[i] == catalog.models[i] && Cards(catalog)[|catalog.models| + j] == catalog.adapters[j];
    }
  }

  // Then the deployments decide the checksum of a card.
  lemma ChecksumUnique(catalog: Catalog, card: Card, a: Option<string>, b: Option<string>)
    requires !ShareAnId(Cards(catalog)) && ChecksumIs(catalog, card, a) && ChecksumIs(catalog, card, b)
    ensures a == b
  {
    hide LastProduction;
    OneList(catalog, card);
    LastProductionUniqueIn(catalog, card, card in catalog.adapters, a, b);
  }

  lemma LastProductionUniqueIn(catalog: Catalog, card: Card, adapter: bool, a: Option<string>, b: Option<string>)
    requires LastProduction(catalog.deployments, adapter, card.id, a)
    requires LastProduction(catalog.deployments, adapter, card.id, b)
    ensures a == b
  {
    LastProductionUnique(catalog.deployments, adapter, card.id, a, b);
  }

  // ------------------------------------------------------------- what a plan refuses

  // A recorded revision carries another checksum than the one the catalog gives.
  predicate Differs(recs: map<Key, Record>, k: Key, checksum: Option<string>) {
    && k in recs && recs[k].checksum.Some? && checksum.Some?
    && recs[k].checksum.value != "" && checksum.value != "" && recs[k].checksum.value != checksum.value
  }

  /** A plan is refused for names exactly when two cards share an id, be they models or
      adapters, and otherwise exactly when the checksum that the deployments give a card
      differs from the one its revision is recorded with. */
  lemma PlanRefusedExactlyWhen(catalog: Catalog, st: StoreState, order: seq<Key>)
    ensures Plan(catalog, st, order) == Err(DuplicateNames) <==> ShareAnId(Cards(catalog))
    ensures !ShareAnId(Cards(catalog)) ==>
      (Plan(catalog, st, order).Err? <==>
        exists card, sum ::
          card in Cards(catalog) && ChecksumIs(catalog, card, sum) && Differs(st.recs, CardKey(card), sum))
  {
    hide LastProduction, GovernedVersions, Plan, ChecksumIs, ShareAnId;
    SubjectsExact(catalog);
    PlanRefusesIff(catalog, st, order);
    DuplicatesOnly(catalog, st, order);
    if GovernedVersions(catalog).Ok? {
      var subjects := GovernedVersions(catalog).value;
      if s :| s in subjects && Conflicts(st.recs, s) {
        var card := SubjectCard(catalog, s);
        assert Differs(st.recs, CardKey(card), s.checksum);
      }
      if card, sum :| card in Cards(catalog) && ChecksumIs(catalog, card, sum) && Differs(st.recs, CardKey(card), sum) {
        var s := CardSubject(catalog, card);
        ChecksumUnique(catalog, card, sum, s.checksum);
        assert Conflicts(st.recs, s);
      }
    }
  }

  lemma DuplicatesOnly(catalog: Catalog, st: StoreState, order: seq<Key>)
    ensures GovernedVersions(catalog).Err? <==> Plan(catalog, st, order) == Err(DuplicateNames)
  {
    if GovernedVersions(catalog).Ok? {
      NoDuplicatesHere(st.recs, order, GovernedVersions(catalog).value);
    }
  }

  lemma {:induction false} NoDuplicatesHere(recs: map<Key, Record>, order: seq<Key>, subjects: seq<GovernedVersion>)
    ensures PlanSubjects(recs, order, subjects) != Err(DuplicateNames)
  {
    if subjects != [] {
      NoDuplicatesHere(recs, order, subjects[..|subjects| - 1]);
    }
  }

  // --------------------------------------------------------- what a sync leaves

  ghost predicate IsCardKey(catalog: Catalog, k: Key) {
    exists card :: card in Cards(catalog) && k == CardKey(card)
  }

  lemma NamedSubject(catalog: Catalog, k: Key)
    requires GovernedVersions(catalog).Ok?
    ensures var s := SubjectNamed(GovernedVersions(catalog).value, k.name);
      IsCardKey(catalog, k) <==> s.Some? && s.value.key == k
  {
    hide GovernedVersions, SubjectNamed, ChecksumIs;
    var subjects := GovernedVersions(catalog).value;
    SubjectNamedSound(subjects, k.name);
    if card :| card in Cards(catalog) && k == CardKey(card) {
      var s := CardSubject(catalog, card);
      SubjectsAreDistinct(catalog);
      SubjectNamedUnique(subjects, s);
    }
    var s := SubjectNamed(subjects, k.name);
    if s.Some? && s.value.key == k {
      var card := SubjectCard(catalog, s.value);
    }
  }

  lemma SubjectsAreDistinct(catalog: Catalog)
    requires GovernedVersions(catalog).Ok?
    ensures DistinctNames(GovernedVersions(catalog).value)
  {
  }

  lemma CardIsNamed(catalog: Catalog, card: Card, sum: Option<string>) returns (s: GovernedVersion)
    requires GovernedVersions(catalog).Ok? && card in Cards(catalog) && ChecksumIs(catalog, card, sum)
    ensures SubjectNamed(GovernedVersions(catalog).value, card.id) == Some(s)
    ensures Stands(s, card) && s.checksum == sum
  {
    hide SubjectNamed, ChecksumIs;
    s := CardSubject(catalog, card);
    SubjectsAreDistinct(catalog);
    SubjectNamedUnique(GovernedVersions(catalog).value, s);
    SubjectsExact(catalog);
    ChecksumUnique(catalog, card, s.checksum, sum);
  }

  /** After an accepted sync of any store, every model and every adapter of the catalog is
      recorded in its own stage, whatever else was recorded is kept but deprecated, and
      nothing else is there. */
  lemma SyncRecordsTheCatalog(call: SyncCall, st: StoreState, k: Key)
    requires Enumerates(call.order, st.recs) && Plan(call.catalog, st, call.order).Ok?
    ensures var after := Sync(call, st);
      && (k in after.recs <==> k in st.recs || IsCardKey(call.catalog, k))
      && (forall card :: card in Cards(call.catalog) && k == CardKey(card) ==> after.recs[k].stage == Some(card.stage))
      && (k in st.recs && !IsCardKey(call.catalog, k) ==> after.recs[k] == st.recs[k].(stage := Some(Deprecated)))
  {
    hide Plan, Sync, GovernedVersions, SubjectNamed, ChecksumIs, Enumerates;
    PlanRefusesIff(call.catalog, st, call.order);
    SyncRecordAt(call, st, k);
    NamedSubject(call.catalog, k);
    forall card | card in Cards(call.catalog) && k == CardKey(card)
      ensures k in Sync(call, st).recs && Sync(call, st).recs[k].stage == Some(card.stage)
    {
      var s := CardSubject(call.catalog, card);
      SubjectsAreDistinct(call.catalog);
      SubjectNamedUnique(GovernedVersions(call.catalog).value, s);
    }
  }

  function Tag(tags: map<string, string>, t: string): Option<string> {
    if t in tags then Some(tags[t]) else None
  }

  // A tag that the catalog owns, other than the stage.
  predicate CatalogTag(t: string) {
    "catalog." <= t && t != "catalog.stage"
  }

  // What a card's record says under each of those tags.
  function CardTag(card: Card, checksum: Option<string>, t: string): Option<string> {
    if t == "catalog.checksum" then (if checksum == Some("") then None else checksum)
    else if t == "catalog.revision" then Some(card.revision)
    else if t == "catalog.managed" then Some("true")
    else Tag(card.text, t)
  }

  ghost predicate Described(rec: Record, card: Card, checksum: Option<string>) {
    forall t :: CatalogTag(t) ==> Tag(rec.tags, t) == CardTag(card, checksum, t)
  }

  lemma TagsOfACard(s: GovernedVersion, card: Card, tags: map<string, string>)
    requires Stands(s, card)
    ensures CardTags(tags) == CardTags(RecordedTags(s)) <==>
      forall t :: CatalogTag(t) ==> Tag(tags, t) == CardTag(card, s.checksum, t)
  {
    var recorded := RecordedTags(s);
    forall t | CatalogTag(t) ensures Tag(recorded, t) == CardTag(card, s.checksum, t) {
    }
    assert forall t :: t in CardTags(tags) <==> CatalogTag(t) && t in tags;
    assert forall t :: t in CardTags(recorded) <==> CatalogTag(t) && t in recorded;
    if CardTags(tags) == CardTags(recorded) {
      forall t | CatalogTag(t) ensures Tag(tags, t) == Tag(recorded, t) {
        assert t in CardTags(tags) <==> t in CardTags(recorded);
        assert t in tags ==> CardTags(tags)[t] == tags[t];
      }
    }
    if forall t :: CatalogTag(t) ==> Tag(tags, t) == CardTag(card, s.checksum, t) {
      forall t | CatalogTag(t) ensures Tag(tags, t) == Tag(recorded, t) {
        assert Tag(recorded, t) == CardTag(card, s.checksum, t);
      }
      assert CardTags(tags) == CardTags(recorded);
    }
  }

  /** And every card's record describes it tag by tag, under the checksum of the last
      production deployment; a record that did so already keeps its own checksum, while a
      new or rewritten one takes that. */
  lemma SyncDescribesACard(call: SyncCall, st: StoreState, card: Card, checksum: Option<string>)
    requires Enumerates(call.order, st.recs) && Plan(call.catalog, st, call.order).Ok?
    requires card in Cards(call.catalog) && ChecksumIs(call.catalog, card, checksum)
    ensures var k, after := CardKey(card), Sync(call, st);
      && k in after.recs && Described(after.recs[k], card, checksum)
      && (if k in st.recs && Described(st.recs[k], card, checksum)
          then after.recs[k] == st.recs[k].(stage := Some(card.stage))
          else after.recs[k].checksum == checksum)
  {
    hide Plan, Sync, GovernedVersions, SubjectNamed, ChecksumIs, Enumerates, CardTags, RecordedTags, CardTag;
    var k := CardKey(card);
    PlanRefusesIff(call.catalog, st, call.order);
    SyncRecordAt(call, st, k);
    var s := CardIsNamed(call.catalog, card, checksum);
    TagsOfACard(s, card, RecordedTags(s));
    if k in st.recs {
      TagsOfACard(s, card, st.recs[k].tags);
    }
  }

  // Why a revision changes stage.
  ghost function ReasonFor(catalog: Catalog, recs: map<Key, Record>, k: Key): string {
    if k !in recs then "new revision in the catalog"
    else if IsCardKey(catalog, k) then "stage differs from the catalog"
    else if exists card :: card in Cards(catalog) && card.id == k.name then "superseded in the catalog"
    else "removed from the catalog"
  }

  lemma NamedById(catalog: Catalog, name: string)
    requires GovernedVersions(catalog).Ok?
    ensures SubjectNamed(GovernedVersions(catalog).value, name).Some? <==>
      exists card :: card in Cards(catalog) && card.id == name
  {
    hide GovernedVersions, SubjectNamed, ChecksumIs;
    var subjects := GovernedVersions(catalog).value;
    SubjectNamedSound(subjects, name);
    if card :| card in Cards(catalog) && card.id == name {
      var s := CardSubject(catalog, card);
    }
    if SubjectNamed(subjects, name).Some? {
      var card := SubjectCard(catalog, SubjectNamed(subjects, name).value);
    }
  }

  /** The log an accepted sync leaves for a revision is its old one and, exactly when its stage
      moved, one promotion that says from where to where, by which commit, and why. */
  lemma SyncLogsThePromotion(call: SyncCall, st: StoreState, k: Key)
    requires Enumerates(call.order, st.recs) && Plan(call.catalog, st, call.order).Ok?
    ensures var after := Sync(call, st);
      var from, to := StageAt(RecordAt(st, k)), StageAt(RecordAt(after, k));
      LogOf(after.log, k) == LogOf(st.log, k)
        + (if from == to || to.None? then []
           else [Promotion(k, from, to.value, call.commit, call.catalog.policyVersion,
                           ReasonFor(call.catalog, st.recs, k))])
  {
    hide GovernedVersions, SubjectNamed, ChecksumIs, Enumerates, CardTags, RecordedTags, Apply;
    PlanRefusesIff(call.catalog, st, call.order);
    SyncRecordAt(call, st, k);
    SyncLogsAt(call.catalog, call.commit, st, call.order, k);
    NamedSubject(call.catalog, k);
    NamedById(call.catalog, k.name);
    hide Plan;
    SubjectNamedSound(GovernedVersions(call.catalog).value, k.name);
  }

  predicate SaysWhy(a: Action) {
    && (a.kind == Annotate ==> a.reason == "card metadata changed in the catalog")
    && (a.kind == Benchmark ==> a.reason == "evidence not yet recorded")
  }

  lemma {:induction false} SubjectsSayWhy(recs: map<Key, Record>, order: seq<Key>, subjects: seq<GovernedVersion>)
    requires PlanSubjects(recs, order, subjects).Ok?
    ensures forall a :: a in PlanSubjects(recs, order, subjects).value ==> SaysWhy(a)
  {
    if subjects != [] {
      var last := subjects[|subjects| - 1];
      SubjectsSayWhy(recs, order, subjects[..|subjects| - 1]);
      RetirementsAreTransitions(order, recs, Superseded(recs, last), SUPERSEDED);
    }
  }

  lemma {:induction false} BenchmarksSayWhy(recorded: map<string, BenchmarkRun>, runs: seq<BenchmarkRun>)
    ensures forall a :: a in PlanBenchmarks(recorded, runs) ==> SaysWhy(a)
  {
    if runs != [] {
      BenchmarksSayWhy(recorded, runs[..|runs| - 1]);
    }
  }

  /** The actions of a plan that move no stage say why they are there. */
  lemma PlansSayWhy(catalog: Catalog, st: StoreState, order: seq<Key>)
    requires Plan(catalog, st, order).Ok?
    ensures forall a :: a in Plan(catalog, st, order).value ==>
      && (a.kind == Annotate ==> a.reason == "card metadata changed in the catalog")
      && (a.kind == Benchmark ==> a.reason == "evidence not yet recorded")
  {
    var subjects := GovernedVersions(catalog).value;
    SubjectsSayWhy(st.recs, order, subjects);
    RetirementsAreTransitions(order, st.recs, RemovedKeys(st.recs, subjects), REMOVED);
    BenchmarksSayWhy(st.benchmarks, catalog.benchmarks);
    assert forall a :: a in Plan(catalog, st, order).value ==> SaysWhy(a);
  }
}
