// The in-memory governance store, and plan, apply and sync as they run over it.
module GovernanceStore {
  import opened Wrappers
  import opened Governance
  import opened Reconciliation
  import opened History

  class InMemoryStore {
    var versions: map<Key, Record>
    var order: seq<Key>  // the dictionary's insertion order, in which versions are listed
    var benchmarks: map<string, BenchmarkRun>
    var promotions: seq<Promotion>

    ghost predicate Valid()
      reads this
    {
      Enumerates(order, versions)
    }

    ghost function State(): StoreState
      reads this
    {
      StoreState(versions, benchmarks, promotions)
    }

    constructor ()
      ensures Valid() && State() == EMPTY_STORE
    {
      versions, order, benchmarks, promotions := map[], [], map[], [];
    }

    method RegisterVersion(subject: GovernedVersion)
      requires Valid()
      modifies this
      ensures Valid()
      ensures State() == old(State()).(recs := old(versions)[subject.key := NewRecord(subject)])
    {
      if subject.key !in versions {
        order := order + [subject.key];
      }
      versions := versions[subject.key := Record(None, subject.checksum, RecordedTags(subject))];
    }

    // False where the source raises KeyError.
    method AnnotateVersion(subject: GovernedVersion) returns (found: bool)
      requires Valid()
      modifies this
      ensures Valid() && order == old(order)
      ensures found <==> subject.key in old(versions)
      ensures found ==>
        var annotated := Annotated(old(versions)[subject.key], subject);
        State() == old(State()).(recs := old(versions)[subject.key := annotated])
      ensures !found ==> State() == old(State())
    {
      found := subject.key in versions;
      if found {
        var recorded := versions[subject.key].(tags := RecordedTags(subject));
        versions := versions[subject.key := recorded.(checksum := subject.checksum)];
      }
    }

    method SetVersionStage(k: Key, stage: Stage) returns (found: bool)
      requires Valid()
      modifies this
      ensures Valid() && order == old(order)
      ensures found <==> k in old(versions)
      ensures State() == if found then SetStage(old(State()), k, stage) else old(State())
    {
      found := k in versions;
      if found {
        versions := versions[k := versions[k].(stage := Some(stage))];
      }
    }

    method LogBenchmark(run: BenchmarkRun)
      requires Valid()
      modifies this
      ensures Valid() && order == old(order)
      ensures State() == old(State()).(benchmarks := old(benchmarks)[run.id := run])
    {
      benchmarks := benchmarks[run.id := run];
    }

    method LogPromotion(promotion: Promotion)
      requires Valid()
      modifies this
      ensures Valid() && order == old(order)
      ensures State() == old(State()).(log := old(promotions) + [promotion])
    {
      promotions := promotions + [promotion];
    }
  }

  method PlanOwn(recs: map<Key, Record>, subject: GovernedVersion) returns (own: seq<Action>)
    ensures own == OwnActions(recs, subject)
  {
    if subject.key !in recs {
      own := [Action(Register, subject.key, None, Some(subject.stage), NEW_REVISION)];
    } else {
      own := [];
      var current := recs[subject.key];
      if current.stage != Some(subject.stage) {
        own := own + [Action(Transition, subject.key, current.stage, Some(subject.stage), STAGE_DIFFERS)];
      }
      if CardTags(current.tags) != CardTags(RecordedTags(subject)) {
        own := own + [Action(Annotate, subject.key, None, None, CARD_CHANGED)];
      }
    }
  }

  method PlanGoverned(wanted: seq<GovernedVersion>, recs: map<Key, Record>, order: seq<Key>)
    returns (planned: Result<seq<Action>, PlanError>)
    ensures planned == PlanSubjects(recs, order, wanted)
  {
    hide Retirements, OwnActions, Superseded, Conflicts, Retirement;
    var actions: seq<Action> := [];
    for i := 0 to |wanted|
      invariant PlanSubjects(recs, order, wanted[..i]) == Ok(actions)
    {
      var subject := wanted[i];
      assert wanted[..i + 1][..i] == wanted[..i];
      if Conflicts(recs, subject) {
        FirstRefusal(recs, order, wanted, i);
        return Err(ImmutableRevision(subject.key));
      }
      var own := PlanOwn(recs, subject);
      var retired := Retirements(order, recs, Superseded(recs, subject), SUPERSEDED);
      assert (actions + own) + retired == actions + SubjectActions(recs, order, subject);
      actions := actions + own;
      actions := actions + retired;
    }
    assert wanted[..|wanted|] == wanted;
    planned := Ok(actions);
  }

  method PlanChanges(catalog: Catalog, store: InMemoryStore) returns (planned: Result<seq<Action>, PlanError>)
    requires store.Valid()
    ensures planned == Plan(catalog, store.State(), store.order)
  {
    var governed := GovernedVersions(catalog);
    if governed.Err? {
      return Err(governed.error);
    }
    var wanted := governed.value;
    planned := PlanGoverned(wanted, store.versions, store.order);
    if planned.Ok? {
      var actions := planned.value;
      actions := actions + Retirements(store.order, store.versions, RemovedKeys(store.versions, wanted), REMOVED);
      actions := actions + PlanBenchmarks(store.benchmarks, catalog.benchmarks);
      planned := Ok(actions);
    }
  }

  // The refusal a plan reports is the first subject, in catalog order, that conflicts.
  lemma {:induction false} FirstRefusal(
      recs: map<Key, Record>, order: seq<Key>, wanted: seq<GovernedVersion>, i: nat)
    requires i < |wanted| && Conflicts(recs, wanted[i])
    requires PlanSubjects(recs, order, wanted[..i]).Ok?
    ensures PlanSubjects(recs, order, wanted) == Err(ImmutableRevision(wanted[i].key))
  {
    var prefix := wanted[..|wanted| - 1];
    if i == |wanted| - 1 {
      assert wanted[..i] == prefix;
    } else {
      assert prefix[..i] == wanted[..i];
      FirstRefusal(recs, order, prefix, i);
    }
  }

  datatype SyncError = Refused(plan: PlanError) | Failed(apply: ApplyError)

  // Applying the plan fails with e at action n, leaving what the actions before it did.
  predicate StopsAt(env: Env, actions: seq<Action>, st: StoreState, n: int, reached: StoreState, e: ApplyError) {
    && 0 <= n < |actions|
    && Apply(env, actions[..n], st) == Ok(reached)
    && ApplyAction(env, actions[n], reached) == Err(e)
  }

  method ApplyPlan(actions: seq<Action>, catalog: Catalog, store: InMemoryStore, commit: string)
    returns (failure: Option<ApplyError>)
    requires store.Valid() && GovernedVersions(catalog).Ok?
    modifies store
    ensures store.Valid()
    ensures match failure
      case None => Apply(EnvOf(catalog, commit), actions, old(store.State())) == Ok(store.State())
      case Some(e) => exists n :: StopsAt(EnvOf(catalog, commit), actions, old(store.State()), n, store.State(), e)
  {
    var env := EnvOf(catalog, commit);
    ghost var start := store.State();
    for i := 0 to |actions|
      invariant store.Valid()
      invariant Apply(env, actions[..i], old(store.State())) == Ok(store.State())
    {
      var a := actions[i];
      assert actions[..i + 1][..i] == actions[..i];
      if a.kind == Benchmark {
        if a.key.name !in env.runs {
          assert StopsAt(env, actions, start, i, store.State(), UnknownBenchmark(a.key.name));
          return Some(UnknownBenchmark(a.key.name));
        }
        store.LogBenchmark(env.runs[a.key.name]);
      } else if a.kind == Annotate {
        if a.key !in env.subjects {
          assert StopsAt(env, actions, start, i, store.State(), UnknownSubject(a.key));
          return Some(UnknownSubject(a.key));
        }
        SubjectMapKeys(GovernedVersions(catalog).value, a.key);
        var found := store.AnnotateVersion(env.subjects[a.key]);
        if !found {
          assert StopsAt(env, actions, start, i, store.State(), UnknownVersion(a.key));
          return Some(UnknownVersion(a.key));
        }
      } else {
        if a.kind == Register {
          if a.key !in env.subjects {
            assert StopsAt(env, actions, start, i, store.State(), UnknownSubject(a.key));
            return Some(UnknownSubject(a.key));
          }
          SubjectMapKeys(GovernedVersions(catalog).value, a.key);
          store.RegisterVersion(env.subjects[a.key]);
        }
        var found := store.SetVersionStage(a.key, TargetStage(a));
        if !found {
          assert StopsAt(env, actions, start, i, store.State(), UnknownVersion(a.key));
          return Some(UnknownVersion(a.key));
        }
        store.LogPromotion(PromotionFor(env, a));
      }
    }
    assert actions[..|actions|] == actions;
    failure := None;
  }

  /** A sync does what the catalog calls for or, when it is refused, nothing at all. */
  method SyncStore(catalog: Catalog, store: InMemoryStore, commit: string)
    returns (done: Result<seq<Action>, SyncError>)
    requires store.Valid()
    modifies store
    ensures store.Valid()
    ensures store.State() == Sync(SyncCall(catalog, old(store.order), commit), old(store.State()))
    ensures done.Ok? ==> Plan(catalog, old(store.State()), old(store.order)) == Ok(done.value)
    ensures done.Ok? ==> InStep(catalog, store.State())
    ensures done.Err? ==> done.error.Refused? && store.State() == old(store.State())
  {
    var planned := PlanChanges(catalog, store);
    if planned.Err? {
      return Err(Refused(planned.error));
    }
    SyncLeavesNoConflict(catalog, commit, store.State(), store.order);
    ghost var before := store.State();
    var failure := ApplyPlan(planned.value, catalog, store, commit);
    if failure.Some? {
      ghost var n :| StopsAt(EnvOf(catalog, commit), planned.value, before, n, store.State(), failure.value);
      ApplyStopsAtFailure(EnvOf(catalog, commit), planned.value, before, n);
      assert false;
    }
    done := Ok(planned.value);
  }

  lemma {:induction false} ApplyStopsAtFailure(env: Env, actions: seq<Action>, st: StoreState, n: nat)
    requires n < |actions|
    requires Apply(env, actions[..n], st).Ok?
    requires ApplyAction(env, actions[n], Apply(env, actions[..n], st).value).Err?
    ensures Apply(env, actions, st).Err?
  {
    var prefix := actions[..|actions| - 1];
    if n == |actions| - 1 {
      assert actions[..n] == prefix;
    } else {
      assert prefix[..n] == actions[..n];
      ApplyStopsAtFailure(env, prefix, st, n);
    }
  }
}
