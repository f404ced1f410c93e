/** The label synchroniser in the form of internal/pkg/storageos/volume_labels.go. */
module VolumeLabelsClient {
  import opened Common
  import opened Strconv
  import opened Labels
  import opened VolumeLabels

  datatype ClientError = NamespaceNotFound | VolumeNotFound | StageFailed(error: StageError)

  /** The volume found afterwards, the error and the request sent, if any. */
  function StepOn(found: Search, stage: Stage, d: Desired, refused: set<Stage>): (Search, Option<ClientError>, Option<Request>) {
    match found
    case NoNamespace => (found, Some(NamespaceNotFound), None)
    case NoVolume => (found, Some(VolumeNotFound), None)
    case Found(vol) =>
      var r := StageOn(vol, stage, d, refused);
      (Found(r.vol), if r.error.Some? then Some(StageFailed(r.error.value)) else None, r.sent)
  }

  /** The volumes after a search for one of them has found, or made, the given one. */
  function StoredAt(volumes: map<ObjectKey, Volume>, key: ObjectKey, found: Search): map<ObjectKey, Volume> {
    if found.Found? then volumes[key := found.vol] else volumes
  }

  class Client {
    /** What the control plane holds. */
    var namespaces: set<string>
    var volumes: map<ObjectKey, Volume>

    function Find(key: ObjectKey): Search
      reads this
    {
      if key.namespace !in namespaces then NoNamespace
      else if key !in volumes then NoVolume
      else Found(volumes[key])
    }

    /** The control plane's side of a write. */
    method Put(key: ObjectKey, request: Request, version: nat, refuse: bool) returns (err: Option<ClientError>)
      requires key in volumes
      modifies this`volumes
      ensures volumes.Keys == old(volumes.Keys) && volumes - {key} == old(volumes) - {key}
      ensures var after := Write(old(volumes[key]), version, request);
              if after.None? then err == Some(StageFailed(Stale)) && volumes[key] == old(volumes[key])
              else if refuse then err == Some(StageFailed(Refused)) && volumes[key] == old(volumes[key])
              else err == None && volumes[key] == after.value
    {
      var after := Write(volumes[key], version, request);
      if after.None? {
        return Some(StageFailed(Stale));
      }
      if refuse {
        return Some(StageFailed(Refused));
      }
      volumes := volumes[key := after.value];
      return None;
    }

    method EnsureReplicas(key: ObjectKey, d: Desired, refused: set<Stage>) returns (err: Option<ClientError>, sent: Option<Request>)
      modifies this`volumes
      ensures (Find(key), err, sent) == StepOn(old(Find(key)), ReplicasStage, d, refused)
      ensures old(Find(key)).Found? && d.replicas <= MAX_UINT64 ==>
                && Find(key).Found? && (err.None? <==> ReplicasSettable(old(Find(key)).vol.labels, d, refused))
                && (err.None? ==> StoredReplicas(Find(key).vol.labels) == Parsed(d.replicas))
      ensures volumes - {key} == old(volumes) - {key}
      ensures !old(Find(key)).Found? ==> volumes == old(volumes)
    {
      var found := Find(key);
      if found.NoNamespace? { return Some(NamespaceNotFound), None; }
      if found.NoVolume? { return Some(VolumeNotFound), None; }
      var vol := found.vol;
      if d.replicas <= MAX_UINT64 {
        ReplicasStep(vol, d, refused);
      }
      hide ParseUint, Apply, Unreserved, ReplicasSettable;
      var current: nat := 0;
      if REPLICAS in vol.labels {
        var parsed := ParseUint(vol.labels[REPLICAS]);
        if !parsed.Parsed? { return Some(StageFailed(BadStoredReplicas)), None; }
        current := parsed.value;
      }
      if current == d.replicas { return None, None; }
      sent := Some(SetReplicas(d.replicas));
      err := Put(key, sent.value, vol.version, ReplicasStage in refused);
    }

    method EnsureFailureMode(key: ObjectKey, d: Desired, refused: set<Stage>) returns (err: Option<ClientError>, sent: Option<Request>)
      modifies this`volumes
      ensures (Find(key), err, sent) == StepOn(old(Find(key)), FailureModeStage, d, refused)
      ensures old(Find(key)).Found? ==>
                && Find(key).Found? && (err.None? <==> FailureModeSettable(old(Find(key)).vol.labels, d, refused))
                && (err.None? ==> FailureModeMatches(Lookup(Find(key).vol.labels, FAILURE_MODE), d.failureMode))
      ensures volumes - {key} == old(volumes) - {key}
      ensures !old(Find(key)).Found? ==> volumes == old(volumes)
    {
      var found := Find(key);
      if found.NoNamespace? { return Some(NamespaceNotFound), None; }
      if found.NoVolume? { return Some(VolumeNotFound), None; }
      var vol := found.vol;
      FailureModeStep(vol, d, refused);
      hide ParseFailureMode, Apply, Lookup, Unreserved, StoredReplicas, FailureModeSettable, FailureModeMatches;
      if Lookup(vol.labels, FAILURE_MODE) == d.failureMode { return None, None; }
      var parsed := ParseFailureMode(d.failureMode);
      if parsed.None? { return Some(StageFailed(BadFailureMode)), None; }
      sent := Some(SetFailureMode(parsed.value.0, parsed.value.1));
      err := Put(key, sent.value, vol.version, FailureModeStage in refused);
    }

    method EnsureUnreservedVolumeLabels(key: ObjectKey, d: Desired, refused: set<Stage>) returns (err: Option<ClientError>, sent: Option<Request>)
      modifies this`volumes
      ensures (Find(key), err, sent) == StepOn(old(Find(key)), LabelsStage, d, refused)
      ensures old(Find(key)).Found? ==>
                && Find(key).Found? && (err.None? <==> LabelsSettable(old(Find(key)).vol.labels, d, refused))
                && (err.None? ==> Unreserved(Find(key).vol.labels) == Unreserved(d.unreserved))
                && Reserved(Find(key).vol.labels) == Reserved(old(Find(key)).vol.labels)
      ensures volumes - {key} == old(volumes) - {key}
      ensures !old(Find(key)).Found? ==> volumes == old(volumes)
    {
      var found := Find(key);
      if found.NoNamespace? { return Some(NamespaceNotFound), None; }
      if found.NoVolume? { return Some(VolumeNotFound), None; }
      var vol := found.vol;
      LabelsStep(vol, d, refused);
      hide Merge, Unreserved, Reserved, Apply, Lookup, StoredReplicas, LabelsSettable;
      var apply := MergeLabels(d.unreserved, vol.labels);
      if apply.None? { return None, None; }
      sent := Some(UpdateVolume(apply.value));
      err := Put(key, sent.value, vol.version, LabelsStage in refused);
    }

    /** Runs all three steps, whatever fails; a volume that is not found is no error. */
    method EnsureVolumeLabels(key: ObjectKey, labels: LabelMap, refused: set<Stage>) returns (o: Outcome)
      modifies this`volumes
      ensures o == VolumeLabels.EnsureVolumeLabels(old(Find(key)), labels, refused)
      ensures Find(key) == o.found && volumes - {key} == old(volumes) - {key}
      ensures volumes == StoredAt(old(volumes), key, o.found)
      ensures Stale !in o.stageErrors
      ensures old(Find(key)).Found? ==>
                var d, before, after := DesiredOf(labels), old(Find(key)).vol.labels, o.found;
                && after.Found?
                && (o.Nil() <==> d.errors == multiset{} && ReplicasSettable(before, d, refused)
                                 && FailureModeSettable(before, d, refused) && LabelsSettable(before, d, refused))
                && (LabelsSettable(before, d, refused) ==> Unreserved(after.vol.labels) == d.unreserved)
      ensures o.Nil() && old(Find(key)).Found? ==>
                InRequestedState(old(volumes[key]).labels, volumes[key].labels, DesiredOf(labels))
    {
      hide DesiredOf, StepOn, InRequestedState, VolumeLabels.EnsureVolumeLabels, Collect, StoredAt;
      hide ReplicasSettable, FailureModeSettable, LabelsSettable, Unreserved, FailureModeMatches, StoredReplicas;
      ghost var start, before := Find(key), volumes;
      var d := Classify(labels);
      StepsArePass(start, labels, refused);
      PassFacts(start, labels, refused);
      var err1, sent1 := EnsureReplicas(key, d, refused);
      var err2, sent2 := EnsureFailureMode(key, d, refused);
      var err3, sent3 := EnsureUnreservedVolumeLabels(key, d, refused);
      o := Collect(Find(key), d, err1, sent1, err2, sent2, err3, sent3);
      CollectFound(Find(key), d, err1, sent1, err2, sent2, err3, sent3);
      StoredAlone(before, volumes, key, o.found);
    }
  }

  lemma CollectFound(found: Search, d: Desired, err1: Option<ClientError>, sent1: Option<Request>,
                     err2: Option<ClientError>, sent2: Option<Request>, err3: Option<ClientError>, sent3: Option<Request>)
    ensures Collect(found, d, err1, sent1, err2, sent2, err3, sent3).found == found
  {
  }

  lemma StoredAlone(before: map<ObjectKey, Volume>, after: map<ObjectKey, Volume>, key: ObjectKey, found: Search)
    requires after - {key} == before - {key}
    requires if found.Found? then key in after && after[key] == found.vol else after == before
    ensures after == StoredAt(before, key, found)
  {
    if found.Found? {
      OnlyPut(before, after, key);
    }
  }

  /** A pass is never told that its write is stale, and what nil means. */
  lemma PassFacts(before: Search, labels: LabelMap, refused: set<Stage>)
    ensures var o := EnsureVolumeLabels(before, labels, refused);
            && (o.found.Found? <==> before.Found?) && (!before.Found? ==> o.found == before)
            && Stale !in o.stageErrors
            && (before.Found? ==>
                  var d, labels, after := DesiredOf(labels), before.vol.labels, o.found.vol.labels;
                  && (o.Nil() <==> d.errors == multiset{} && ReplicasSettable(labels, d, refused)
                                   && FailureModeSettable(labels, d, refused) && LabelsSettable(labels, d, refused))
                  && (LabelsSettable(labels, d, refused) ==> Unreserved(after) == d.unreserved))
            && (o.Nil() && before.Found? ==> InRequestedState(before.vol.labels, o.found.vol.labels, DesiredOf(labels)))
  {
    OutcomeFound(before, labels, refused);
    if before.Found? {
      NeverStale(before.vol, DesiredOf(labels), refused);
      NilIff(before.vol, labels, refused);
      DesiredFacts(labels);
      StepsIndependent(before.vol, DesiredOf(labels), refused);
    }
    if EnsureVolumeLabels(before, labels, refused).Nil() {
      NilMeansApplied(before, labels, refused);
    }
    hide DesiredOf, RunStages, InRequestedState, ReplicasSettable, FailureModeSettable, LabelsSettable, Unreserved;
  }

  lemma OutcomeFound(before: Search, labels: LabelMap, refused: set<Stage>)
    ensures var found := EnsureVolumeLabels(before, labels, refused).found;
            (found.Found? <==> before.Found?) && (!before.Found? ==> found == before)
  {
    hide DesiredOf, RunStages;
  }

  /** The errors and requests of the three steps; only "volume not found" is dropped. */
  function Collect(found: Search, d: Desired, err1: Option<ClientError>, sent1: Option<Request>,
                   err2: Option<ClientError>, sent2: Option<Request>, err3: Option<ClientError>, sent3: Option<Request>): Outcome
  {
    Outcome(found, d.errors, Missing(err1) + Missing(err2) + Missing(err3),
            multiset{} + Errors(err1) + Errors(err2) + Errors(err3), [] + Sent(sent1) + Sent(sent2) + Sent(sent3))
  }

  lemma StepsArePass(found: Search, labels: LabelMap, refused: set<Stage>)
    ensures var d := DesiredOf(labels);
            var (f1, err1, sent1) := StepOn(found, ReplicasStage, d, refused);
            var (f2, err2, sent2) := StepOn(f1, FailureModeStage, d, refused);
            var (f3, err3, sent3) := StepOn(f2, LabelsStage, d, refused);
            Collect(f3, d, err1, sent1, err2, sent2, err3, sent3) == VolumeLabels.EnsureVolumeLabels(found, labels, refused)
  {
    hide DesiredOf, RunStage, StageOn;
    if found.Found? {
      FoundStepsArePass(found.vol, DesiredOf(labels), refused);
    }
  }

  lemma FoundStepsArePass(vol: Volume, d: Desired, refused: set<Stage>)
    ensures var (f1, err1, sent1) := StepOn(Found(vol), ReplicasStage, d, refused);
            var (f2, err2, sent2) := StepOn(f1, FailureModeStage, d, refused);
            var (f3, err3, sent3) := StepOn(f2, LabelsStage, d, refused);
            var p := RunStages(vol, d, refused);
            Collect(f3, d, err1, sent1, err2, sent2, err3, sent3) == Outcome(Found(p.vol), d.errors, 0, p.errors, p.sent)
  {
    hide RunStage, StepOn, Errors, Sent, Missing;
    var p0 := Progress(vol, multiset{}, []);
    StepIsStage(p0, ReplicasStage, d, refused);
    var p1 := RunStage(p0, ReplicasStage, d, refused);
    StepIsStage(p1, FailureModeStage, d, refused);
    var p2 := RunStage(p1, FailureModeStage, d, refused);
    StepIsStage(p2, LabelsStage, d, refused);
  }

  lemma StepIsStage(p: Progress, stage: Stage, d: Desired, refused: set<Stage>)
    ensures var (found, err, sent) := StepOn(Found(p.vol), stage, d, refused);
            && found.Found? && Missing(err) == 0
            && RunStage(p, stage, d, refused) == Progress(found.vol, p.errors + Errors(err), p.sent + Sent(sent))
  {
    hide StageOn;
  }

  function Missing(err: Option<ClientError>): nat {
    if err == Some(NamespaceNotFound) then 1 else 0
  }

  function Errors(err: Option<ClientError>): multiset<StageError> {
    if err.Some? && err.value.StageFailed? then multiset{err.value.error} else multiset{}
  }

  function Sent(request: Option<Request>): seq<Request> {
    if request.Some? then [request.value] else []
  }
}
