// The MLflow store's writing methods, over a client held as tag and alias maps.
module MlflowStore {
  import opened Wrappers
  import opened Governance
  import opened Mlflow

  class MlflowStore {
    var versions: map<VersionId, Tags>
    var aliases: map<AliasKey, nat>
    var next: nat
    var benchmarks: map<string, BenchmarkRun>
    var log: seq<Promotion>

    ghost function State(): Client
      reads this
    {
      Client(versions, aliases, next, benchmarks, log)
    }

    constructor ()
      ensures State() == EMPTY_CLIENT
    {
      versions, aliases, next, benchmarks, log := map[], map[], 1, map[], [];
    }

    method FindVersion(k: Key) returns (found: Option<VersionId>)
      requires UniqueRevisions(State())
      ensures found.Some? <==> Recorded(State(), k)
      ensures found.Some? ==> found.value in versions && found.value == VersionId(k.name, Find(State(), k))
    {
      if id :| id in versions && id.name == k.name && TagOf(versions[id], REVISION_TAG) == Some(k.revision) {
        assert Records(State(), k, id.number);
        found := Some(id);
      } else {
        found := None;
      }
    }

    method RegisterSubject(subject: GovernedVersion)
      modifies this
      ensures State() == RegisterVersion(old(State()), subject)
    {
      versions := versions[VersionId(subject.key.name, next) := RecordedTags(subject)];
      next := next + 1;
    }

    // Set the given tags on one version, one client call at a time.
    method SetTags(id: VersionId, wanted: Tags)
      requires id in versions
      modifies this`versions
      ensures versions == old(versions)[id := old(versions)[id] + wanted]
    {
      ghost var before := versions;
      var pending, done: Tags := wanted.Keys, map[];
      assert before[id] + done == before[id];
      while pending != {}
        invariant pending <= wanted.Keys && done == wanted - pending
        invariant versions == before[id := before[id] + done]
        decreases pending
      {
        var key :| key in pending;
        versions := versions[id := versions[id][key := wanted[key]]];
        assert (before[id] + done)[key := wanted[key]] == before[id] + done[key := wanted[key]];
        pending, done := pending - {key}, done[key := wanted[key]];
      }
      assert done == wanted;
    }

    method DeleteTags(id: VersionId, surplus: set<string>)
      requires id in versions
      modifies this`versions
      ensures versions == old(versions)[id := old(versions)[id] - surplus]
    {
      ghost var before := versions;
      var pending := surplus;
      assert before[id] - (surplus - pending) == before[id];
      while pending != {}
        invariant pending <= surplus
        invariant versions == before[id := before[id] - (surplus - pending)]
        decreases pending
      {
        var key :| key in pending;
        versions := versions[id := versions[id] - {key}];
        assert (before[id] - (surplus - pending)) - {key} == before[id] - (surplus - (pending - {key}));
        pending := pending - {key};
      }
      assert surplus - {} == surplus;
    }

    // False where the source raises GovernanceError.
    method Annotate(subject: GovernedVersion) returns (found: bool)
      requires UniqueRevisions(State())
      modifies this
      ensures found <==> Recorded(old(State()), subject.key)
      ensures State() == if found then AnnotateVersion(old(State()), subject, Find(old(State()), subject.key))
                         else old(State())
    {
      hide UniqueRevisions, Records, CardTags, RecordedTags;
      ghost var before := versions;
      var version := FindVersion(subject.key);
      if version.None? {
        return false;
      }
      assert version.value in before;
      var snapshot, wanted := versions[version.value], RecordedTags(subject);
      SetTags(version.value, wanted);
      DeleteTags(version.value, CardTags(snapshot).Keys - wanted.Keys);
      assert versions == before[version.value := AnnotatedTags(snapshot, wanted)];
      found := true;
    }

    // False where the source raises GovernanceError.
    method SetVersionStage(k: Key, stage: Stage) returns (found: bool)
      requires UniqueRevisions(State())
      modifies this
      ensures found <==> Recorded(old(State()), k)
      ensures State() == if found then StageVersion(old(State()), k.name, Find(old(State()), k), stage)
                         else old(State())
    {
      var version := FindVersion(k);
      if version.None? {
        return false;
      }
      var id := version.value;
      var previous := ParseStage(TagOf(versions[id], STAGE_TAG));
      versions := versions[id := versions[id][STAGE_TAG := StageText(stage)]];
      if Aliased(stage) {
        aliases := aliases[AliasKey(k.name, StageText(stage)) := id.number];
      }
      if previous.Some? && Aliased(previous.value) && previous.value != stage {
        var key := AliasKey(k.name, StageText(previous.value));
        if key in aliases && aliases[key] == id.number {
          aliases := aliases - {key};
        }
      }
      found := true;
    }
  }
}
