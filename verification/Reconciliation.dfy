// What a sync achieves: the actions of one plan act independently on each
// recorded revision, so applying a plan brings every revision where the
// catalog wants it, a second plan is empty, and the promotion log replays to
// the recorded stages.
module Reconciliation {
  import opened Wrappers
  import opened Governance

  // --------------------------------------- the part of a store at one revision

  // One revision's record together with its own promotion history.
  datatype Cell = Cell(rec: Option<Record>, log: seq<Promotion>)

  function LogOf(log: seq<Promotion>, k: Key): seq<Promotion> {
    if log == [] then []
    else
      var last := log[|log| - 1];
      LogOf(log[..|log| - 1], k) + (if last.key == k then [last] else [])
  }

  function RecordAt(st: StoreState, k: Key): Option<Record> {
    if k in st.recs then Some(st.recs[k]) else None
  }

  function CellOf(st: StoreState, k: Key): Cell {
    Cell(RecordAt(st, k), LogOf(st.log, k))
  }

  predicate Touches(a: Action, k: Key) {
    a.kind != Benchmark && a.key == k
  }

  function Touching(actions: seq<Action>, k: Key): seq<Action> {
    if actions == [] then []
    else
      var last := actions[|actions| - 1];
      Touching(actions[..|actions| - 1], k) + (if Touches(last, k) then [last] else [])
  }

  function Promoted(env: Env, a: Action, rec: Record, log: seq<Promotion>): Cell {
    Cell(Some(rec.(stage := Some(TargetStage(a)))), log + [PromotionFor(env, a)])
  }

  function StepCell(env: Env, a: Action, c: Cell): Result<Cell, ApplyError> {
    match a.kind
    case Benchmark => Ok(c)
    case Annotate =>
      if a.key !in env.subjects then Err(UnknownSubject(a.key))
      else if c.rec.None? then Err(UnknownVersion(a.key))
      else Ok(c.(rec := Some(Annotated(c.rec.value, env.subjects[a.key]))))
    case Register =>
      if a.key !in env.subjects then Err(UnknownSubject(a.key))
      else Ok(Promoted(env, a, NewRecord(env.subjects[a.key]), c.log))
    case Transition =>
      if c.rec.None? then Err(UnknownVersion(a.key))
      else Ok(Promoted(env, a, c.rec.value, c.log))
  }

  function RunCell(env: Env, actions: seq<Action>, c: Cell): Result<Cell, ApplyError> {
    if actions == [] then Ok(c)
    else
      var before := RunCell(env, actions[..|actions| - 1], c);
      if before.Err? then before
      else StepCell(env, actions[|actions| - 1], before.value)
  }

  lemma RunCellAppend(env: Env, actions: seq<Action>, a: Action, c: Cell)
    ensures RunCell(env, actions + [a], c)
         == if RunCell(env, actions, c).Err? then RunCell(env, actions, c)
            else StepCell(env, a, RunCell(env, actions, c).value)
  {
    var all := actions + [a];
    assert all[..|all| - 1] == actions;
  }

  lemma TouchingLast(actions: seq<Action>, k: Key)
    requires actions != []
    ensures Touching(actions, k)
         == if Touches(actions[|actions| - 1], k)
            then Touching(actions[..|actions| - 1], k) + [actions[|actions| - 1]]
            else Touching(actions[..|actions| - 1], k)
  {
  }

  lemma ApplyActionAtCell(env: Env, a: Action, st: StoreState, k: Key)
    ensures Touches(a, k) ==>
      && (ApplyAction(env, a, st).Ok? <==> StepCell(env, a, CellOf(st, k)).Ok?)
      && (ApplyAction(env, a, st).Ok? ==>
            StepCell(env, a, CellOf(st, k)) == Ok(CellOf(ApplyAction(env, a, st).value, k)))
    ensures !Touches(a, k) && ApplyAction(env, a, st).Ok? ==>
      CellOf(ApplyAction(env, a, st).value, k) == CellOf(st, k)
  {
    if a.kind == Register || a.kind == Transition {
      var log := st.log + [PromotionFor(env, a)];
      assert log[..|log| - 1] == st.log;
    }
  }

  /** Applying a whole plan acts on each revision as the plan's actions about that revision alone. */
  lemma {:induction false} ApplyProjects(env: Env, actions: seq<Action>, st: StoreState, k: Key)
    requires Apply(env, actions, st).Ok?
    ensures RunCell(env, Touching(actions, k), CellOf(st, k))
         == Ok(CellOf(Apply(env, actions, st).value, k))
  {
    if actions != [] {
      var prefix, last := actions[..|actions| - 1], actions[|actions| - 1];
      ApplyProjects(env, prefix, st, k);
      var mid := Apply(env, prefix, st).value;
      ApplyActionAtCell(env, last, mid, k);
      TouchingLast(actions, k);
      RunCellAppend(env, Touching(prefix, k), last, CellOf(st, k));
    }
  }

  /** Conversely, a plan whose actions succeed revision by revision succeeds as a whole. */
  lemma {:induction false} ApplySucceeds(env: Env, actions: seq<Action>, st: StoreState)
    requires forall k :: RunCell(env, Touching(actions, k), CellOf(st, k)).Ok?
    requires forall a :: a in actions && a.kind == Benchmark ==> a.key.name in env.runs
    ensures Apply(env, actions, st).Ok?
  {
    if actions != [] {
      var prefix, last := actions[..|actions| - 1], actions[|actions| - 1];
      forall k ensures RunCell(env, Touching(prefix, k), CellOf(st, k)).Ok? {
        assert RunCell(env, Touching(actions, k), CellOf(st, k)).Ok?;
        TouchingLast(actions, k);
        RunCellAppend(env, Touching(prefix, k), last, CellOf(st, k));
      }
      ApplySucceeds(env, prefix, st);
      if last.kind != Benchmark {
        var k := last.key;
        ApplyProjects(env, prefix, st, k);
        TouchingLast(actions, k);
        RunCellAppend(env, Touching(prefix, k), last, CellOf(st, k));
        assert RunCell(env, Touching(actions, k), CellOf(st, k)).Ok?;
        ApplyActionAtCell(env, last, Apply(env, prefix, st).value, k);
      }
    }
  }

  // ------------------------------------------ what a plan says about one revision

  lemma {:induction false} TouchingConcat(a: seq<Action>, b: seq<Action>, k: Key)
    ensures Touching(a + b, k) == Touching(a, k) + Touching(b, k)
  {
    if b == [] {
      assert a + b == a;
    } else {
      assert (a + b)[..|a + b| - 1] == a + b[..|b| - 1];
      TouchingConcat(a, b[..|b| - 1], k);
    }
  }

  predicate Retires(recs: map<Key, Record>, chosen: set<Key>, k: Key) {
    k in recs && k in chosen && recs[k].stage != Some(Deprecated)
  }

  lemma TouchingOne(recs: map<Key, Record>, chosen: set<Key>, last: Key, reason: string, k: Key)
    ensures Retires(recs, chosen, last) ==>
      Touching([Retirement(recs, last, reason)], k) == if last == k then [Retirement(recs, last, reason)] else []
    ensures Touching([], k) == []
  {
  }

  // The retirement of the last listed key, if there is one, comes after those of the others.
  lemma RetirementsLast(
      order: seq<Key>, recs: map<Key, Record>, chosen: set<Key>, reason: string, k: Key)
    requires order != []
    ensures var prefix, last := order[..|order| - 1], order[|order| - 1];
      Touching(Retirements(order, recs, chosen, reason), k)
        == Touching(Retirements(prefix, recs, chosen, reason), k)
           + (if last == k && Retires(recs, chosen, k) then [Retirement(recs, k, reason)] else [])
  {
    hide Retirement, Touching;
    var prefix, last := order[..|order| - 1], order[|order| - 1];
    var tail := if Retires(recs, chosen, last) then [Retirement(recs, last, reason)] else [];
    TouchingOne(recs, chosen, last, reason, k);
    TouchingConcat(Retirements(prefix, recs, chosen, reason), tail, k);
  }

  lemma {:induction false} RetirementsTouching(
      order: seq<Key>, recs: map<Key, Record>, chosen: set<Key>, reason: string, k: Key)
    requires forall i, j :: 0 <= i < j < |order| ==> order[i] != order[j]
    ensures Touching(Retirements(order, recs, chosen, reason), k)
         == if k in order && Retires(recs, chosen, k) then [Retirement(recs, k, reason)] else []
  {
    hide Retirement, Retires, Touching;
    if order == [] {
      TouchingOne(recs, chosen, k, reason, k);
    } else {
      var prefix, last := order[..|order| - 1], order[|order| - 1];
      RetirementsLast(order, recs, chosen, reason, k);
      RetirementsTouching(prefix, recs, chosen, reason, k);
      hide Retirements;
      assert k in order <==> k in prefix || k == last;
      assert last !in prefix;
    }
  }

  lemma {:induction false} BenchmarksTouchNothing(recorded: map<string, BenchmarkRun>, runs: seq<BenchmarkRun>, k: Key)
    ensures Touching(PlanBenchmarks(recorded, runs), k) == []
  {
    if runs != [] {
      var prefix, last := runs[..|runs| - 1], runs[|runs| - 1];
      BenchmarksTouchNothing(recorded, prefix, k);
      var tail := if last.id in recorded then []
                  else [Action(Benchmark, Key(last.id, ""), None, None, NO_EVIDENCE)];
      TouchingConcat(PlanBenchmarks(recorded, prefix), tail, k);
    }
  }

  function SubjectNamed(subjects: seq<GovernedVersion>, name: string): Option<GovernedVersion> {
    if subjects == [] then None
    else
      var last := subjects[|subjects| - 1];
      if last.key.name == name then Some(last) else SubjectNamed(subjects[..|subjects| - 1], name)
  }

  lemma {:induction false} SubjectNamedSound(subjects: seq<GovernedVersion>, name: string)
    ensures match SubjectNamed(subjects, name)
            case None => forall s :: s in subjects ==> s.key.name != name
            case Some(s) => s in subjects && s.key.name == name
  {
    if subjects != [] {
      SubjectNamedSound(subjects[..|subjects| - 1], name);
      assert subjects == subjects[..|subjects| - 1] + [subjects[|subjects| - 1]];
    }
  }

  lemma SubjectNamedUnique(subjects: seq<GovernedVersion>, s: GovernedVersion)
    requires DistinctNames(subjects) && s in subjects
    ensures SubjectNamed(subjects, s.key.name) == Some(s)
  {
    SubjectNamedSound(subjects, s.key.name);
  }

  predicate Stale(recs: map<Key, Record>, k: Key) {
    k in recs && recs[k].stage != Some(Deprecated)
  }

  // The actions the catalog calls for at one revision, in the order they are carried out.
  function Wanted(recs: map<Key, Record>, subjects: seq<GovernedVersion>, k: Key): seq<Action> {
    WantedFor(recs, SubjectNamed(subjects, k.name), k)
  }

  function WantedFor(recs: map<Key, Record>, subject: Option<GovernedVersion>, k: Key): seq<Action> {
    if subject.Some? && subject.value.key == k then OwnActions(recs, subject.value)
    else if Stale(recs, k) then [Retirement(recs, k, if subject.Some? then SUPERSEDED else REMOVED)]
    else []
  }

  lemma OwnActionsTouching(recs: map<Key, Record>, s: GovernedVersion, k: Key)
    ensures Touching(OwnActions(recs, s), k) == if s.key == k then OwnActions(recs, s) else []
  {
    var own := OwnActions(recs, s);
    if |own| == 2 {
      assert own == [own[0]] + [own[1]];
      TouchingConcat([own[0]], [own[1]], k);
    }
  }

  lemma SubjectActionsTouching(recs: map<Key, Record>, order: seq<Key>, s: GovernedVersion, k: Key)
    requires Enumerates(order, recs)
    ensures Touching(SubjectActions(recs, order, s), k)
         == if s.key.name == k.name then WantedFor(recs, Some(s), k) else []
  {
    hide OwnActions, Retirements, Retirement, Touching;
    TouchingConcat(OwnActions(recs, s), Retirements(order, recs, Superseded(recs, s), SUPERSEDED), k);
    OwnActionsTouching(recs, s, k);
    RetirementsTouching(order, recs, Superseded(recs, s), SUPERSEDED, k);
    assert Retires(recs, Superseded(recs, s), k) <==> k.name == s.key.name && k != s.key && Stale(recs, k);
  }

  lemma {:induction false} PlanSubjectsTouching(
      recs: map<Key, Record>, order: seq<Key>, subjects: seq<GovernedVersion>, k: Key)
    requires Enumerates(order, recs) && DistinctNames(subjects)
    requires PlanSubjects(recs, order, subjects).Ok?
    ensures Touching(PlanSubjects(recs, order, subjects).value, k)
         == if SubjectNamed(subjects, k.name).Some? then Wanted(recs, subjects, k) else []
  {
    if subjects != [] {
      var prefix, last := subjects[..|subjects| - 1], subjects[|subjects| - 1];
      PlanSubjectsTouching(recs, order, prefix, k);
      SubjectActionsTouching(recs, order, last, k);
      SubjectNamedSound(prefix, k.name);
      hide SubjectActions, WantedFor, Enumerates;
      TouchingConcat(PlanSubjects(recs, order, prefix).value, SubjectActions(recs, order, last), k);
      if last.key.name == k.name {
        assert SubjectNamed(prefix, k.name).None?;
      }
    }
  }

  /** No two subjects of a plan meet at one revision: each revision gets exactly what it needs. */
  lemma PlanTouching(catalog: Catalog, st: StoreState, order: seq<Key>, k: Key)
    requires Enumerates(order, st.recs)
    requires Plan(catalog, st, order).Ok?
    ensures Touching(Plan(catalog, st, order).value, k)
         == Wanted(st.recs, GovernedVersions(catalog).value, k)
  {
    hide Touching, Retirements, Retirement, OwnActions, PlanBenchmarks, PlanSubjects, SubjectNamed;
    var subjects := GovernedVersions(catalog).value;
    var own := PlanSubjects(st.recs, order, subjects).value;
    var removed := Retirements(order, st.recs, RemovedKeys(st.recs, subjects), REMOVED);
    var runs := PlanBenchmarks(st.benchmarks, catalog.benchmarks);
    TouchingConcat(own + removed, runs, k);
    TouchingConcat(own, removed, k);
    PlanSubjectsTouching(st.recs, order, subjects, k);
    RetirementsTouching(order, st.recs, RemovedKeys(st.recs, subjects), REMOVED, k);
    BenchmarksTouchNothing(st.benchmarks, catalog.benchmarks, k);
    SubjectNamedSound(subjects, k.name);
  }

  // --------------------------------------------------- when a plan is refused

  lemma {:induction false} PlanSubjectsRefusesIff(
      recs: map<Key, Record>, order: seq<Key>, subjects: seq<GovernedVersion>)
    ensures PlanSubjects(recs, order, subjects).Ok?
       <==> forall s :: s in subjects ==> !Conflicts(recs, s)
  {
    if subjects != [] {
      var prefix, last := subjects[..|subjects| - 1], subjects[|subjects| - 1];
      PlanSubjectsRefusesIff(recs, order, prefix);
      assert subjects == prefix + [last];
    }
  }

  /** A plan is refused for a shared name or a changed artifact, and for nothing else. */
  lemma PlanRefusesIff(catalog: Catalog, st: StoreState, order: seq<Key>)
    ensures Plan(catalog, st, order).Ok?
       <==> && GovernedVersions(catalog).Ok?
            && forall s :: s in GovernedVersions(catalog).value ==> !Conflicts(st.recs, s)
  {
    if GovernedVersions(catalog).Ok? {
      PlanSubjectsRefusesIff(st.recs, order, GovernedVersions(catalog).value);
    }
  }

  // ------------------------------------------- benchmarks planned and applied

  lemma {:induction false} RetirementsAreTransitions(
      order: seq<Key>, recs: map<Key, Record>, chosen: set<Key>, reason: string)
    ensures forall a :: a in Retirements(order, recs, chosen, reason) ==> a.kind == Transition
  {
    if order != [] {
      RetirementsAreTransitions(order[..|order| - 1], recs, chosen, reason);
    }
  }

  lemma {:induction false} SubjectsPlanNoBenchmark(
      recs: map<Key, Record>, order: seq<Key>, subjects: seq<GovernedVersion>)
    requires PlanSubjects(recs, order, subjects).Ok?
    ensures forall a :: a in PlanSubjects(recs, order, subjects).value ==> a.kind != Benchmark
  {
    if subjects != [] {
      var last := subjects[|subjects| - 1];
      SubjectsPlanNoBenchmark(recs, order, subjects[..|subjects| - 1]);
      RetirementsAreTransitions(order, recs, Superseded(recs, last), SUPERSEDED);
    }
  }

  predicate Logs(actions: seq<Action>, id: string) {
    exists a :: a in actions && a.kind == Benchmark && a.key.name == id
  }

  lemma {:induction false} PlannedBenchmarks(recorded: map<string, BenchmarkRun>, runs: seq<BenchmarkRun>, id: string)
    ensures (exists a :: a in PlanBenchmarks(recorded, runs) && a.key.name == id)
       <==> (id !in recorded && exists run :: run in runs && run.id == id)
    ensures forall a :: a in PlanBenchmarks(recorded, runs) ==> a.kind == Benchmark
  {
    if runs != [] {
      var prefix, last := runs[..|runs| - 1], runs[|runs| - 1];
      PlannedBenchmarks(recorded, prefix, id);
      assert runs == prefix + [last];
      var planned := PlanBenchmarks(recorded, runs);
      if last.id == id && id !in recorded {
        assert planned[|planned| - 1].key.name == id;
      }
    }
  }

  lemma PlannedBenchmark(catalog: Catalog, st: StoreState, order: seq<Key>, id: string)
    requires Plan(catalog, st, order).Ok?
    ensures Logs(Plan(catalog, st, order).value, id)
       <==> (id !in st.benchmarks && exists run :: run in catalog.benchmarks && run.id == id)
  {
    var subjects := GovernedVersions(catalog).value;
    SubjectsPlanNoBenchmark(st.recs, order, subjects);
    RetirementsAreTransitions(order, st.recs, RemovedKeys(st.recs, subjects), REMOVED);
    PlannedBenchmarks(st.benchmarks, catalog.benchmarks, id);
    if a :| a in PlanBenchmarks(st.benchmarks, catalog.benchmarks) && a.key.name == id {
      assert a in Plan(catalog, st, order).value;
    }
  }

  lemma {:induction false} RunMapHolds(runs: seq<BenchmarkRun>)
    ensures forall run :: run in runs ==> run.id in RunMap(runs)
    ensures forall id :: id in RunMap(runs) ==> RunMap(runs)[id].id == id
  {
    if runs != [] {
      RunMapHolds(runs[..|runs| - 1]);
      assert runs == runs[..|runs| - 1] + [runs[|runs| - 1]];
    }
  }

  lemma {:induction false} SubjectMapKeys(subjects: seq<GovernedVersion>, k: Key)
    ensures k in SubjectMap(subjects) ==> SubjectMap(subjects)[k].key == k
  {
    if subjects != [] {
      SubjectMapKeys(subjects[..|subjects| - 1], k);
    }
  }

  lemma {:induction false} SubjectMapHolds(subjects: seq<GovernedVersion>, s: GovernedVersion)
    requires DistinctNames(subjects) && s in subjects
    ensures s.key in SubjectMap(subjects) && SubjectMap(subjects)[s.key] == s
  {
    var prefix, last := subjects[..|subjects| - 1], subjects[|subjects| - 1];
    assert subjects == prefix + [last];
    if s != last {
      SubjectMapHolds(prefix, s);
    }
  }

  lemma LogsLast(actions: seq<Action>, id: string)
    requires actions != []
    ensures var last := actions[|actions| - 1];
      Logs(actions, id) <==> Logs(actions[..|actions| - 1], id) || (last.kind == Benchmark && last.key.name == id)
  {
    var prefix, last := actions[..|actions| - 1], actions[|actions| - 1];
    assert actions == prefix + [last];
  }

  lemma {:induction false} AppliedBenchmark(env: Env, actions: seq<Action>, st: StoreState, id: string)
    requires Apply(env, actions, st).Ok?
    requires forall id :: id in env.runs ==> env.runs[id].id == id
    ensures id in Apply(env, actions, st).value.benchmarks <==> id in st.benchmarks || Logs(actions, id)
  {
    hide Logs, PromotionFor, TargetStage, Annotated, NewRecord;
    if actions == [] {
      NothingLogs(id);
    } else {
      AppliedBenchmark(env, actions[..|actions| - 1], st, id);
      LogsLast(actions, id);
    }
  }

  lemma NothingLogs(id: string)
    ensures !Logs([], id)
  {
  }

  // ----------------------------------------------------------- what sync does

  // A subject's record once the catalog's stage and card have been written to it.
  function SubjectRecord(recs: map<Key, Record>, s: GovernedVersion): Record {
    if s.key !in recs then NewRecord(s).(stage := Some(s.stage))
    else
      var staged := recs[s.key].(stage := Some(s.stage));
      if CardTags(staged.tags) == CardTags(RecordedTags(s)) then staged else Annotated(staged, s)
  }

  // The record a sync leaves at one revision: the catalog's own revision is brought
  // in step, and any other recorded revision keeps everything but its live stage.
  function SyncedRecord(recs: map<Key, Record>, subjects: seq<GovernedVersion>, k: Key): Option<Record> {
    var s := SubjectNamed(subjects, k.name);
    if s.Some? && s.value.key == k then Some(SubjectRecord(recs, s.value))
    else if k in recs then Some(recs[k].(stage := Some(Deprecated)))
    else None
  }

  function StageAt(rec: Option<Record>): Option<Stage> {
    if rec.Some? then rec.value.stage else None
  }

  // The promotions a sync adds for one revision: one, exactly when its stage moved.
  predicate LogsMove(env: Env, k: Key, before: Option<Record>, after: Option<Record>, added: seq<Promotion>) {
    if StageAt(before) == StageAt(after) then added == []
    else
      && |added| == 1 && after.Some? && after.value.stage.Some?
      && added[0].key == k
      && added[0].fromStage == StageAt(before)
      && Some(added[0].toStage) == StageAt(after)
      && added[0].commit == env.commit && added[0].policyVersion == env.policyVersion
  }

  lemma RunCellOne(env: Env, a: Action, c: Cell)
    ensures RunCell(env, [a], c) == StepCell(env, a, c)
  {
    RunCellAppend(env, [], a, c);
    assert [] + [a] == [a];
  }

  lemma RetirementRuns(env: Env, recs: map<Key, Record>, k: Key, reason: string, log: seq<Promotion>)
    requires k in recs
    ensures StepCell(env, Retirement(recs, k, reason), Cell(Some(recs[k]), log))
         == Ok(Cell(Some(recs[k].(stage := Some(Deprecated))),
                    log + [PromotionFor(env, Retirement(recs, k, reason))]))
  {
  }

  // The cell of a subject's own revision after the actions planned for it.
  lemma OwnActionsRun(env: Env, recs: map<Key, Record>, s: GovernedVersion, c: Cell)
    requires s.key in env.subjects && env.subjects[s.key] == s
    requires c.rec == if s.key in recs then Some(recs[s.key]) else None
    ensures var run := RunCell(env, OwnActions(recs, s), c);
      && run.Ok? && run.value.rec == Some(SubjectRecord(recs, s))
      && run.value.log == (if StageAt(c.rec) == Some(s.stage) then c.log
                           else c.log + [PromotionFor(env, OwnActions(recs, s)[0])])
  {
    var own := OwnActions(recs, s);
    if |own| == 1 {
      assert own == [own[0]];
      RunCellOne(env, own[0], c);
    } else if |own| == 2 {
      assert own == [own[0]] + [own[1]];
      RunCellOne(env, own[0], c);
      RunCellAppend(env, [own[0]], own[1], c);
    }
  }

  lemma WantedRuns(env: Env, recs: map<Key, Record>, subjects: seq<GovernedVersion>, k: Key, log: seq<Promotion>)
    requires forall s :: s in subjects ==> s.key in env.subjects && env.subjects[s.key] == s
    ensures var c := Cell(if k in recs then Some(recs[k]) else None, log);
      var run := RunCell(env, Wanted(recs, subjects, k), c);
      && run.Ok?
      && run.value.rec == SyncedRecord(recs, subjects, k)
      && log <= run.value.log
      && LogsMove(env, k, c.rec, run.value.rec, run.value.log[|log|..])
  {
    SubjectNamedSound(subjects, k.name);
    var c := Cell(if k in recs then Some(recs[k]) else None, log);
    var s := SubjectNamed(subjects, k.name);
    if s.Some? && s.value.key == k {
      OwnActionsRun(env, recs, s.value, c);
    } else if Stale(recs, k) {
      var reason := if s.Some? then SUPERSEDED else REMOVED;
      RunCellOne(env, Retirement(recs, k, reason), c);
      RetirementRuns(env, recs, k, reason, log);
    }
  }

  // The promotion that the actions wanted at one revision log, if any.
  function LoggedFor(env: Env, recs: map<Key, Record>, subjects: seq<GovernedVersion>, k: Key): seq<Promotion> {
    var wanted := Wanted(recs, subjects, k);
    if wanted == [] || wanted[0].kind == Annotate then [] else [PromotionFor(env, wanted[0])]
  }

  lemma WantedLogs(env: Env, recs: map<Key, Record>, subjects: seq<GovernedVersion>, k: Key, log: seq<Promotion>)
    requires forall s :: s in subjects ==> s.key in env.subjects && env.subjects[s.key] == s
    ensures var run := RunCell(env, Wanted(recs, subjects, k), Cell(if k in recs then Some(recs[k]) else None, log));
      run.Ok? && run.value.log == log + LoggedFor(env, recs, subjects, k)
  {
    SubjectNamedSound(subjects, k.name);
    var c := Cell(if k in recs then Some(recs[k]) else None, log);
    var s := SubjectNamed(subjects, k.name);
    hide RunCell, SubjectNamed;
    if s.Some? && s.value.key == k {
      OwnActionsRun(env, recs, s.value, c);
    } else if Stale(recs, k) {
      var reason := if s.Some? then SUPERSEDED else REMOVED;
      RunCellOne(env, Retirement(recs, k, reason), c);
      RetirementRuns(env, recs, k, reason, log);
    } else {
      RunCellNone(env, c);
    }
  }

  lemma RunCellNone(env: Env, c: Cell)
    ensures RunCell(env, [], c) == Ok(c)
  {
  }

  // What a sync adds to the log of one revision.
  lemma SyncLogsAt(catalog: Catalog, commit: string, st: StoreState, order: seq<Key>, k: Key)
    requires Enumerates(order, st.recs) && Plan(catalog, st, order).Ok?
    ensures var env := EnvOf(catalog, commit);
      var after := Apply(env, Plan(catalog, st, order).value, st);
      && after.Ok?
      && LogOf(after.value.log, k) == LogOf(st.log, k) + LoggedFor(env, st.recs, GovernedVersions(catalog).value, k)
  {
    var subjects, env := GovernedVersions(catalog).value, EnvOf(catalog, commit);
    var actions := Plan(catalog, st, order).value;
    SyncAt(catalog, commit, st, order);
    forall s | s in subjects ensures s.key in env.subjects && env.subjects[s.key] == s {
      SubjectMapHolds(subjects, s);
    }
    PlanTouching(catalog, st, order, k);
    hide Plan, LoggedFor, RunCell, GovernedVersions, EnvOf;
    WantedLogs(env, st.recs, subjects, k, LogOf(st.log, k));
    ApplyProjects(env, actions, st, k);
  }

  /** A plan that was not refused can be carried out, and at each revision it does this. */
  lemma SyncAt(catalog: Catalog, commit: string, st: StoreState, order: seq<Key>)
    requires Enumerates(order, st.recs) && Plan(catalog, st, order).Ok?
    ensures var subjects := GovernedVersions(catalog).value;
      var env := EnvOf(catalog, commit);
      var after := Apply(env, Plan(catalog, st, order).value, st);
      && after.Ok?
      && (forall k {:trigger RecordAt(after.value, k)} {:trigger LogOf(after.value.log, k)} ::
            && RecordAt(after.value, k) == SyncedRecord(st.recs, subjects, k)
            && LogOf(st.log, k) <= LogOf(after.value.log, k)
            && LogsMove(env, k, RecordAt(st, k), RecordAt(after.value, k),
                        LogOf(after.value.log, k)[|LogOf(st.log, k)|..]))
      && (forall id :: id in after.value.benchmarks <==>
            id in st.benchmarks || exists run :: run in catalog.benchmarks && run.id == id)
  {
    var subjects := GovernedVersions(catalog).value;
    var env := EnvOf(catalog, commit);
    var actions := Plan(catalog, st, order).value;
    forall s | s in subjects ensures s.key in env.subjects && env.subjects[s.key] == s {
      SubjectMapHolds(subjects, s);
    }
    RunMapHolds(catalog.benchmarks);
    forall k ensures RunCell(env, Touching(actions, k), CellOf(st, k)).Ok? {
      PlanTouching(catalog, st, order, k);
      WantedRuns(env, st.recs, subjects, k, LogOf(st.log, k));
    }
    forall a | a in actions && a.kind == Benchmark ensures a.key.name in env.runs {
      PlannedBenchmark(catalog, st, order, a.key.name);
    }
    ApplySucceeds(env, actions, st);
    var after := Apply(env, actions, st).value;
    forall k ensures
      && RecordAt(after, k) == SyncedRecord(st.recs, subjects, k)
      && LogOf(st.log, k) <= LogOf(after.log, k)
      && LogsMove(env, k, RecordAt(st, k), RecordAt(after, k), LogOf(after.log, k)[|LogOf(st.log, k)|..])
    {
      PlanTouching(catalog, st, order, k);
      WantedRuns(env, st.recs, subjects, k, LogOf(st.log, k));
      ApplyProjects(env, actions, st, k);
    }
    forall id ensures id in after.benchmarks <==>
      id in st.benchmarks || exists run :: run in catalog.benchmarks && run.id == id
    {
      AppliedBenchmark(env, actions, st, id);
      PlannedBenchmark(catalog, st, order, id);
    }
  }

  // -------------------------------------------------------------- convergence

  predicate CarriesCard(rec: Record, s: GovernedVersion) {
    rec.stage == Some(s.stage) && CardTags(rec.tags) == CardTags(RecordedTags(s))
  }

  // The store matches the catalog, said without reference to any plan.
  ghost predicate InStep(catalog: Catalog, st: StoreState)
    requires GovernedVersions(catalog).Ok?
  {
    var subjects := GovernedVersions(catalog).value;
    && (forall s :: s in subjects ==> s.key in st.recs && CarriesCard(st.recs[s.key], s))
    && (forall k :: k in st.recs && st.recs[k].stage != Some(Deprecated) ==>
          exists s :: s in subjects && s.key == k)
    && (forall run :: run in catalog.benchmarks ==> run.id in st.benchmarks)
  }

  lemma {:induction false} TouchingKeeps(actions: seq<Action>, a: Action)
    requires a in actions && a.kind != Benchmark
    ensures a in Touching(actions, a.key)
  {
    var prefix, last := actions[..|actions| - 1], actions[|actions| - 1];
    assert actions == prefix + [last];
    if a in prefix {
      TouchingKeeps(prefix, a);
    }
  }

  lemma PlanEmptyWhenNothingWanted(catalog: Catalog, st: StoreState, order: seq<Key>)
    requires Enumerates(order, st.recs) && Plan(catalog, st, order).Ok?
    requires forall k :: Wanted(st.recs, GovernedVersions(catalog).value, k) == []
    requires forall run :: run in catalog.benchmarks ==> run.id in st.benchmarks
    ensures Plan(catalog, st, order).value == []
  {
    var actions := Plan(catalog, st, order).value;
    if actions != [] {
      var a := actions[0];
      if a.kind == Benchmark {
        PlannedBenchmark(catalog, st, order, a.key.name);
      } else {
        TouchingKeeps(actions, a);
        PlanTouching(catalog, st, order, a.key);
      }
    }
  }

  lemma NothingWantedIff(catalog: Catalog, st: StoreState)
    requires GovernedVersions(catalog).Ok?
    ensures InStep(catalog, st) <==>
      && (forall k :: Wanted(st.recs, GovernedVersions(catalog).value, k) == [])
      && (forall run :: run in catalog.benchmarks ==> run.id in st.benchmarks)
  {
    var subjects := GovernedVersions(catalog).value;
    if InStep(catalog, st) {
      forall k ensures Wanted(st.recs, subjects, k) == [] {
        SubjectNamedSound(subjects, k.name);
        if Stale(st.recs, k) {
          var s :| s in subjects && s.key == k;
          SubjectNamedUnique(subjects, s);
        }
      }
    } else if forall k :: Wanted(st.recs, subjects, k) == [] {
      assert forall s :: s in subjects ==> s.key in st.recs && CarriesCard(st.recs[s.key], s) by {
        forall s | s in subjects ensures s.key in st.recs && CarriesCard(st.recs[s.key], s) {
          SubjectNamedUnique(subjects, s);
          assert Wanted(st.recs, subjects, s.key) == [];
        }
      }
      forall k | k in st.recs && st.recs[k].stage != Some(Deprecated)
        ensures exists s :: s in subjects && s.key == k
      {
        assert Wanted(st.recs, subjects, k) == [];
        SubjectNamedSound(subjects, k.name);
      }
    }
  }

  /** An empty plan means that the store is in step with the catalog, and nothing else does. */
  lemma PlanEmptyIff(catalog: Catalog, st: StoreState, order: seq<Key>)
    requires Enumerates(order, st.recs) && Plan(catalog, st, order).Ok?
    ensures Plan(catalog, st, order).value == [] <==> InStep(catalog, st)
  {
    NothingWantedIff(catalog, st);
    if Plan(catalog, st, order).value == [] {
      forall k ensures Wanted(st.recs, GovernedVersions(catalog).value, k) == [] {
        PlanTouching(catalog, st, order, k);
      }
      forall run | run in catalog.benchmarks ensures run.id in st.benchmarks {
        PlannedBenchmark(catalog, st, order, run.id);
      }
    } else if InStep(catalog, st) {
      PlanEmptyWhenNothingWanted(catalog, st, order);
    }
  }

  lemma SyncLeavesNoConflict(catalog: Catalog, commit: string, st: StoreState, order: seq<Key>)
    requires Enumerates(order, st.recs) && Plan(catalog, st, order).Ok?
    ensures var after := Apply(EnvOf(catalog, commit), Plan(catalog, st, order).value, st);
      && after.Ok? && InStep(catalog, after.value)
      && forall s :: s in GovernedVersions(catalog).value ==> !Conflicts(after.value.recs, s)
  {
    hide Plan, Apply, EnvOf, LogOf, LogsMove, SubjectNamed, CarriesCard, SyncedRecord, GovernedVersions, Enumerates;
    SyncAt(catalog, commit, st, order);
    PlanRefusesIff(catalog, st, order);
    var subjects := GovernedVersions(catalog).value;
    var after := Apply(EnvOf(catalog, commit), Plan(catalog, st, order).value, st).value;
    DistinctGoverned(catalog);
    forall s | s in subjects
      ensures s.key in after.recs && CarriesCard(after.recs[s.key], s) && !Conflicts(after.recs, s)
    {
      assert RecordAt(after, s.key) == SyncedRecord(st.recs, subjects, s.key);
      SubjectAfterSync(st, after, subjects, s);
    }
    forall k | k in after.recs && after.recs[k].stage != Some(Deprecated)
      ensures exists s :: s in subjects && s.key == k
    {
      assert RecordAt(after, k) == SyncedRecord(st.recs, subjects, k);
      LiveAfterSync(st, after, subjects, k);
    }
  }

  lemma DistinctGoverned(catalog: Catalog)
    requires GovernedVersions(catalog).Ok?
    ensures DistinctNames(GovernedVersions(catalog).value)
  {
  }

  lemma SubjectAfterSync(st: StoreState, after: StoreState, subjects: seq<GovernedVersion>, s: GovernedVersion)
    requires DistinctNames(subjects) && s in subjects && !Conflicts(st.recs, s)
    requires RecordAt(after, s.key) == SyncedRecord(st.recs, subjects, s.key)
    ensures s.key in after.recs && CarriesCard(after.recs[s.key], s) && !Conflicts(after.recs, s)
  {
    SubjectNamedUnique(subjects, s);
    assert RecordAt(after, s.key) == Some(SubjectRecord(st.recs, s));
  }

  lemma LiveAfterSync(st: StoreState, after: StoreState, subjects: seq<GovernedVersion>, k: Key)
    requires k in after.recs && after.recs[k].stage != Some(Deprecated)
    requires RecordAt(after, k) == SyncedRecord(st.recs, subjects, k)
    ensures exists s :: s in subjects && s.key == k
  {
    SubjectNamedSound(subjects, k.name);
  }

  /** Convergence: unless the plan is refused, one sync of any store succeeds, brings it
      in step, and leaves a following plan, in whatever order it lists the store, empty. */
  lemma SyncConverges(catalog: Catalog, commit: string, st: StoreState, order: seq<Key>, next: seq<Key>)
    requires Enumerates(order, st.recs) && Plan(catalog, st, order).Ok?
    ensures var after := Apply(EnvOf(catalog, commit), Plan(catalog, st, order).value, st);
      && after.Ok?
      && InStep(catalog, after.value)
      && (Enumerates(next, after.value.recs) ==> Plan(catalog, after.value, next) == Ok([]))
  {
    SyncLeavesNoConflict(catalog, commit, st, order);
    var after := Apply(EnvOf(catalog, commit), Plan(catalog, st, order).value, st).value;
    if Enumerates(next, after.recs) {
      PlanRefusesIff(catalog, after, next);
      PlanEmptyIff(catalog, after, next);
    }
  }
}
