/**
  The label synchroniser of internal/pkg/storageos/volume_labels.go over a
  control plane that accepts a write only for the version it holds.
 */
module VolumeLabels {
  import opened Common
  import opened Strconv
  import opened Labels

  /** Versions are opaque to the client; each accepted write makes a new, larger one. */
  datatype Volume = Volume(labels: LabelMap, version: nat)

  datatype Request =
    | SetReplicas(replicas: nat)
    | SetFailureMode(mode: string, threshold: nat)
    | UpdateVolume(labels: LabelMap)

  const SOFT := "soft"
  const HARD := "hard"
  const ALWAYS_ON := "alwayson"

  predicate NamedMode(s: string) {
    s == SOFT || s == HARD || s == ALWAYS_ON
  }

  /** The failure-mode intent and the threshold; only one of them is set. */
  function ParseFailureMode(s: string): Option<(string, nat)> {
    if NamedMode(s) then Some((s, 0))
    else if s == "" then Some((HARD, 0))
    else
      match ParseUint(s)
      case Parsed(n) => Some(("", n))
      case _ => None
  }

  /** How the control plane records a failure mode. */
  function FailureModeLabel(mode: string, threshold: nat): string {
    if mode != "" then mode else Decimal(threshold)
  }

  /**
    Accepts the named modes, the empty string, which stands for "hard", and
    thresholds; the label comes back exactly for named modes and canonical
    decimals, and only one of intent and threshold is set.
   */
  lemma ParseFailureModeExact(s: string)
    ensures var r := ParseFailureMode(s);
            && (r.Some? <==> s in {"", "soft", "hard", "alwayson"} || ParseUint(s).Parsed?)
            && (s == "" ==> r == ParseFailureMode("hard"))
            && (r.Some? ==> (r.value.0 == "") != (r.value.0 in {"soft", "hard", "alwayson"} && r.value.1 == 0))
            && (r.Some? ==> (FailureModeLabel(r.value.0, r.value.1) == s <==> NamedMode(s) || CanonicalDecimal(s)))
  {
    hide ParseUint, Decimal;
  }

  function Apply(labels: LabelMap, request: Request): LabelMap {
    match request
    case SetReplicas(n) => labels[REPLICAS := Decimal(n)]
    case SetFailureMode(mode, threshold) => labels[FAILURE_MODE := FailureModeLabel(mode, threshold)]
    case UpdateVolume(sent) => sent
  }

  /** Compare-and-set: a request computed from an older version is rejected. */
  function Write(vol: Volume, version: nat, request: Request): Option<Volume> {
    if vol.version == version then Some(Volume(Apply(vol.labels, request), version + 1)) else None
  }

  /******* The three steps *******/

  datatype Stage = ReplicasStage | FailureModeStage | LabelsStage

  datatype StageError = BadStoredReplicas | BadFailureMode | Refused | Stale

  datatype Plan = Skip | Send(request: Request) | Fail(error: StageError)

  function StoredReplicas(labels: LabelMap): UintResult {
    if REPLICAS in labels then ParseUint(labels[REPLICAS]) else Parsed(0)
  }

  /** What a step does about the volume it has read. */
  function PlanFor(stage: Stage, labels: LabelMap, d: Desired): Plan {
    match stage
    case ReplicasStage =>
      var current := StoredReplicas(labels);
      if !current.Parsed? then Fail(BadStoredReplicas)
      else if current.value == d.replicas then Skip
      else Send(SetReplicas(d.replicas))
    case FailureModeStage =>
      if Lookup(labels, FAILURE_MODE) == d.failureMode then Skip
      else
        var parsed := ParseFailureMode(d.failureMode);
        if parsed.None? then Fail(BadFailureMode)
        else Send(SetFailureMode(parsed.value.0, parsed.value.1))
    case LabelsStage =>
      if Merge(d.unreserved, labels) == labels then Skip
      else Send(UpdateVolume(Merge(d.unreserved, labels)))
  }

  /******* One pass without other writers *******/

  datatype StageResult = StageResult(vol: Volume, error: Option<StageError>, sent: Option<Request>)

  /** The step reads the volume afresh, so that its own write is never stale; it may still be refused. */
  function StageOn(vol: Volume, stage: Stage, d: Desired, refused: set<Stage>): StageResult {
    match PlanFor(stage, vol.labels, d)
    case Skip => StageResult(vol, None, None)
    case Fail(e) => StageResult(vol, Some(e), None)
    case Send(request) =>
      var after := Write(vol, vol.version, request);
      if after.None? then StageResult(vol, Some(Stale), Some(request))
      else if stage in refused then StageResult(vol, Some(Refused), Some(request))
      else StageResult(after.value, None, Some(request))
  }

  datatype Progress = Progress(vol: Volume, errors: multiset<StageError>, sent: seq<Request>)

  function RunStage(p: Progress, stage: Stage, d: Desired, refused: set<Stage>): Progress {
    var r := StageOn(p.vol, stage, d, refused);
    Progress(r.vol,
             p.errors + if r.error.Some? then multiset{r.error.value} else multiset{},
             p.sent + if r.sent.Some? then [r.sent.value] else [])
  }

  function RunStages(vol: Volume, d: Desired, refused: set<Stage>): Progress {
    var p1 := RunStage(Progress(vol, multiset{}, []), ReplicasStage, d, refused);
    var p2 := RunStage(p1, FailureModeStage, d, refused);
    RunStage(p2, LabelsStage, d, refused)
  }

  datatype Search = NoNamespace | NoVolume | Found(vol: Volume)

  /** The result is nil exactly when both kinds of errors are empty. */
  datatype Outcome = Outcome(found: Search, labelErrors: multiset<LabelError>, namespaceErrors: nat, stageErrors: multiset<StageError>, sent: seq<Request>)
  {
    predicate Nil() {
      labelErrors == multiset{} && namespaceErrors == 0 && stageErrors == multiset{}
    }
  }

  /** A missing volume is no error; a missing namespace is one error per step. */
  function EnsureVolumeLabels(found: Search, labels: LabelMap, refused: set<Stage>): Outcome {
    var d := DesiredOf(labels);
    match found
    case NoNamespace => Outcome(found, d.errors, 3, multiset{}, [])
    case NoVolume => Outcome(found, d.errors, 0, multiset{}, [])
    case Found(vol) =>
      var p := RunStages(vol, d, refused);
      Outcome(Found(p.vol), d.errors, 0, p.errors, p.sent)
  }

  /******* What a pass achieves *******/

  predicate CanonicalDecimal(s: string) {
    ParseUint(s).Parsed? && s == Decimal(ParseUint(s).value)
  }

  /** The stored failure mode is the requested one, as given or as the control plane writes it. */
  predicate FailureModeMatches(stored: string, desired: string) {
    || stored == desired
    || (var parsed := ParseFailureMode(desired); parsed.Some? && stored == FailureModeLabel(parsed.value.0, parsed.value.1))
  }

  /** Labels that agree but for the two settings. */
  ghost predicate SameOtherReserved(labels: LabelMap, labels': LabelMap) {
    Reserved(labels) - {REPLICAS, FAILURE_MODE} == Reserved(labels') - {REPLICAS, FAILURE_MODE}
  }

  lemma ReservedUpdate(labels: LabelMap, k: string, v: string)
    requires IsReservedLabel(k)
    ensures Reserved(labels[k := v]) == Reserved(labels)[k := v]
    ensures Unreserved(labels[k := v]) == Unreserved(labels)
  {
    hide IsReservedLabel;
  }

  lemma ReservedLookup(labels: LabelMap, k: string)
    requires IsReservedLabel(k)
    ensures k in Reserved(labels) <==> k in labels
    ensures k in labels ==> Reserved(labels)[k] == labels[k]
  {
    hide IsReservedLabel;
  }

  lemma ReplicasDone(vol: Volume, d: Desired, refused: set<Stage>)
    requires d.replicas <= MAX_UINT64
    ensures var p := RunStage(Progress(vol, multiset{}, []), ReplicasStage, d, refused); var labels := p.vol.labels;
            p.errors == multiset{} ==>
              && StoredReplicas(labels) == Parsed(d.replicas)
              && Lookup(labels, FAILURE_MODE) == Lookup(vol.labels, FAILURE_MODE)
              && SameOtherReserved(vol.labels, labels)
  {
    ReservedNames();
    ParseUintOfDecimal(d.replicas);
    ReservedUpdate(vol.labels, REPLICAS, Decimal(d.replicas));
    hide IsReservedLabel, Reserved, Unreserved, ParseUint, Decimal;
  }

  lemma FailureModeDone(p0: Progress, d: Desired, refused: set<Stage>)
    ensures var p := RunStage(p0, FailureModeStage, d, refused); var labels := p.vol.labels;
            p.errors == p0.errors ==>
              && StoredReplicas(labels) == StoredReplicas(p0.vol.labels)
              && (var stored := Lookup(labels, FAILURE_MODE);
                  && FailureModeMatches(stored, d.failureMode)
                  && (stored == d.failureMode <==>
                        || Lookup(p0.vol.labels, FAILURE_MODE) == d.failureMode
                        || NamedMode(d.failureMode) || CanonicalDecimal(d.failureMode)))
              && SameOtherReserved(p0.vol.labels, labels)
  {
    ReservedNames();
    var parsed := ParseFailureMode(d.failureMode);
    if parsed.Some? {
      ReservedUpdate(p0.vol.labels, FAILURE_MODE, FailureModeLabel(parsed.value.0, parsed.value.1));
    }
    hide IsReservedLabel, Reserved, Unreserved, ParseUint, Decimal, SameOtherReserved;
    assert (p0.errors + multiset{Refused})[Refused] == p0.errors[Refused] + 1;
    assert (p0.errors + multiset{BadFailureMode})[BadFailureMode] == p0.errors[BadFailureMode] + 1;
  }

  lemma LabelsDone(p0: Progress, d: Desired, refused: set<Stage>)
    requires Unreserved(d.unreserved) == d.unreserved
    ensures var p := RunStage(p0, LabelsStage, d, refused); var labels := p.vol.labels;
            p.errors == p0.errors ==>
              && StoredReplicas(labels) == StoredReplicas(p0.vol.labels)
              && Lookup(labels, FAILURE_MODE) == Lookup(p0.vol.labels, FAILURE_MODE)
              && Reserved(labels) == Reserved(p0.vol.labels)
              && Unreserved(labels) == d.unreserved
  {
    ReservedNames();
    MergeExact(d.unreserved, p0.vol.labels);
    ReservedLookup(p0.vol.labels, REPLICAS);
    ReservedLookup(p0.vol.labels, FAILURE_MODE);
    ReservedLookup(Merge(d.unreserved, p0.vol.labels), REPLICAS);
    ReservedLookup(Merge(d.unreserved, p0.vol.labels), FAILURE_MODE);
    hide IsReservedLabel, Reserved, Unreserved, ParseUint, Merge;
    assert (p0.errors + multiset{Refused})[Refused] == p0.errors[Refused] + 1;
  }

  lemma DesiredFacts(labels: LabelMap)
    ensures DesiredOf(labels).replicas <= MAX_UINT64
    ensures var u := DesiredOf(labels).unreserved; Unreserved(u) == u
  {
    if REPLICAS in labels {
      ParseUintBound(labels[REPLICAS]);
    }
    hide IsReservedLabel;
  }

  /** Errors pile up: none at the end means none on the way. */
  lemma StageErrorsGrow(p: Progress, stage: Stage, d: Desired, refused: set<Stage>)
    ensures p.errors <= RunStage(p, stage, d, refused).errors
    ensures RunStage(p, stage, d, refused).errors[Stale] == p.errors[Stale]
  {
    hide ParseFailureMode, StoredReplicas, Apply, Merge, Lookup;
  }

  /** Without other writers no step of a pass is rejected as stale. */
  lemma NeverStale(vol: Volume, d: Desired, refused: set<Stage>)
    ensures Stale !in RunStages(vol, d, refused).errors
  {
    var p0 := Progress(vol, multiset{}, []);
    var p1 := RunStage(p0, ReplicasStage, d, refused);
    var p2 := RunStage(p1, FailureModeStage, d, refused);
    StageErrorsGrow(p0, ReplicasStage, d, refused);
    StageErrorsGrow(p1, FailureModeStage, d, refused);
    StageErrorsGrow(p2, LabelsStage, d, refused);
    hide RunStage;
  }

  ghost predicate InRequestedState(before: LabelMap, after: LabelMap, d: Desired) {
    && StoredReplicas(after) == Parsed(d.replicas)
    && FailureModeMatches(Lookup(after, FAILURE_MODE), d.failureMode)
    && Unreserved(after) == d.unreserved
    && SameOtherReserved(before, after)
  }

  /** The failure mode will be read back as it was requested. */
  predicate StableFailureMode(before: LabelMap, d: Desired) {
    Lookup(before, FAILURE_MODE) == d.failureMode || NamedMode(d.failureMode) || CanonicalDecimal(d.failureMode)
  }

  lemma PassDone(vol: Volume, d: Desired, refused: set<Stage>)
    requires d.replicas <= MAX_UINT64 && Unreserved(d.unreserved) == d.unreserved
    requires RunStages(vol, d, refused).errors == multiset{}
    ensures var after := RunStages(vol, d, refused).vol.labels;
            && InRequestedState(vol.labels, after, d)
            && (Lookup(after, FAILURE_MODE) == d.failureMode <==> StableFailureMode(vol.labels, d))
  {
    var p0 := Progress(vol, multiset{}, []);
    var p1 := RunStage(p0, ReplicasStage, d, refused);
    var p2 := RunStage(p1, FailureModeStage, d, refused);
    var p3 := RunStage(p2, LabelsStage, d, refused);
    StageErrorsGrow(p1, FailureModeStage, d, refused);
    StageErrorsGrow(p2, LabelsStage, d, refused);
    ReplicasDone(vol, d, refused);
    FailureModeDone(p1, d, refused);
    LabelsDone(p2, d, refused);
    hide RunStage, Reserved, Unreserved, StoredReplicas, FailureModeMatches, CanonicalDecimal, NamedMode, Lookup;
    assert p1.errors == multiset{} && p2.errors == multiset{};
  }

  /**
    A nil result with no other writer means that the volume was absent, or that
    its replicas, failure mode and unreserved labels are the requested ones and
    its other reserved labels are as before.
   */
  lemma NilMeansApplied(found: Search, labels: LabelMap, refused: set<Stage>)
    requires EnsureVolumeLabels(found, labels, refused).Nil()
    ensures var o := EnsureVolumeLabels(found, labels, refused);
            && !found.NoNamespace?
            && (found.NoVolume? ==> o.found == found)
            && (found.Found? ==>
                  o.found.Found? && InRequestedState(found.vol.labels, o.found.vol.labels, DesiredOf(labels)))
  {
    if found.Found? {
      DesiredFacts(labels);
      hide RunStages, DesiredOf, InRequestedState;
      PassDone(found.vol, DesiredOf(labels), refused);
    }
  }

  /**
    After a nil result a second identical pass sends nothing if and only if the
    failure mode is a named mode or a canonical decimal, or was stored as
    requested already. Otherwise it sends the failure mode again, on every pass.
   */
  lemma SecondPassQuietIff(vol: Volume, labels: LabelMap, refused: set<Stage>)
    requires EnsureVolumeLabels(Found(vol), labels, refused).Nil()
    ensures var o := EnsureVolumeLabels(Found(vol), labels, refused);
            EnsureVolumeLabels(o.found, labels, refused).sent == [] <==> StableFailureMode(vol.labels, DesiredOf(labels))
  {
    var d := DesiredOf(labels);
    DesiredFacts(labels);
    PassDone(vol, d, refused);
    var after := RunStages(vol, d, refused).vol;
    MergeExact(d.unreserved, after.labels);
    assert PlanFor(ReplicasStage, after.labels, d) == Skip;
    assert PlanFor(LabelsStage, after.labels, d) == Skip;
    hide Reserved, Unreserved, StoredReplicas, Merge, DesiredOf, StableFailureMode;
    if Lookup(after.labels, FAILURE_MODE) == d.failureMode {
      QuietStages(after, d, refused);
    } else {
      assert ParseFailureMode(d.failureMode).Some?;
      LoudFailureMode(after, d, refused);
    }
  }

  /******* When a pass succeeds *******/

  /** The count is right already, or can be read and its update is not refused. */
  predicate ReplicasSettable(labels: LabelMap, d: Desired, refused: set<Stage>) {
    StoredReplicas(labels).Parsed? && (StoredReplicas(labels).value == d.replicas || ReplicasStage !in refused)
  }

  /** The failure mode is right already, or parses and its update is not refused. */
  predicate FailureModeSettable(labels: LabelMap, d: Desired, refused: set<Stage>) {
    || Lookup(labels, FAILURE_MODE) == d.failureMode
    || (ParseFailureMode(d.failureMode).Some? && FailureModeStage !in refused)
  }

  predicate LabelsSettable(labels: LabelMap, d: Desired, refused: set<Stage>) {
    Unreserved(labels) == Unreserved(d.unreserved) || LabelsStage !in refused
  }

  lemma StageErrorIff(p: Progress, stage: Stage, d: Desired, refused: set<Stage>)
    ensures RunStage(p, stage, d, refused).errors == p.errors <==> StageOn(p.vol, stage, d, refused).error.None?
  {
    hide StageOn;
    var error := StageOn(p.vol, stage, d, refused).error;
    if error.Some? {
      assert (p.errors + multiset{error.value})[error.value] == p.errors[error.value] + 1;
    }
  }

  lemma ReplicasStep(vol: Volume, d: Desired, refused: set<Stage>)
    requires d.replicas <= MAX_UINT64
    ensures var r := StageOn(vol, ReplicasStage, d, refused); var before, after := vol.labels, r.vol.labels;
            && Unreserved(after) == Unreserved(before) && Lookup(after, FAILURE_MODE) == Lookup(before, FAILURE_MODE)
            && (r.error.None? <==> ReplicasSettable(before, d, refused))
            && (r.error.None? ==> StoredReplicas(after) == Parsed(d.replicas))
  {
    ReservedNames();
    ParseUintOfDecimal(d.replicas);
    ReservedUpdate(vol.labels, REPLICAS, Decimal(d.replicas));
    hide IsReservedLabel, Unreserved, ParseUint, Decimal;
  }

  lemma FailureModeStep(vol: Volume, d: Desired, refused: set<Stage>)
    ensures var r := StageOn(vol, FailureModeStage, d, refused); var before, after := vol.labels, r.vol.labels;
            && Unreserved(after) == Unreserved(before) && StoredReplicas(after) == StoredReplicas(before)
            && (r.error.None? <==> FailureModeSettable(before, d, refused))
            && (r.error.None? ==> FailureModeMatches(Lookup(after, FAILURE_MODE), d.failureMode))
  {
    ReservedNames();
    var parsed := ParseFailureMode(d.failureMode);
    if parsed.Some? {
      ReservedUpdate(vol.labels, FAILURE_MODE, FailureModeLabel(parsed.value.0, parsed.value.1));
    }
    hide IsReservedLabel, Unreserved, ParseUint, Decimal, ParseFailureMode, FailureModeLabel;
  }

  lemma LabelsStep(vol: Volume, d: Desired, refused: set<Stage>)
    ensures var r := StageOn(vol, LabelsStage, d, refused); var before, after := vol.labels, r.vol.labels;
            && StoredReplicas(after) == StoredReplicas(before) && Lookup(after, FAILURE_MODE) == Lookup(before, FAILURE_MODE)
            && (r.error.None? <==> LabelsSettable(before, d, refused))
            && (r.error.None? ==> Unreserved(after) == Unreserved(d.unreserved))
            && Reserved(after) == Reserved(before)
  {
    ReservedNames();
    MergeExact(d.unreserved, vol.labels);
    ReservedLookup(vol.labels, REPLICAS);
    ReservedLookup(vol.labels, FAILURE_MODE);
    ReservedLookup(Merge(d.unreserved, vol.labels), REPLICAS);
    ReservedLookup(Merge(d.unreserved, vol.labels), FAILURE_MODE);
    hide IsReservedLabel, Reserved, Unreserved, ParseUint, Merge;
  }

  /**
    Each step does its work whatever the other two come to: a setting that can be
    set is set at the end of the pass, and only one that cannot is an error.
   */
  lemma StepsIndependent(vol: Volume, d: Desired, refused: set<Stage>)
    requires d.replicas <= MAX_UINT64 && Unreserved(d.unreserved) == d.unreserved
    ensures var p := RunStages(vol, d, refused); var before, after := vol.labels, p.vol.labels;
            && (p.errors == multiset{} <==>
                  && ReplicasSettable(before, d, refused) && FailureModeSettable(before, d, refused)
                  && LabelsSettable(before, d, refused))
            && (ReplicasSettable(before, d, refused) ==> StoredReplicas(after) == Parsed(d.replicas))
            && (FailureModeSettable(before, d, refused) ==>
                  FailureModeMatches(Lookup(after, FAILURE_MODE), d.failureMode))
            && (LabelsSettable(before, d, refused) ==> Unreserved(after) == d.unreserved)
  {
    var p0 := Progress(vol, multiset{}, []);
    var p1 := RunStage(p0, ReplicasStage, d, refused);
    var p2 := RunStage(p1, FailureModeStage, d, refused);
    StageErrorIff(p0, ReplicasStage, d, refused);
    StageErrorIff(p1, FailureModeStage, d, refused);
    StageErrorIff(p2, LabelsStage, d, refused);
    ReplicasStep(vol, d, refused);
    FailureModeStep(p1.vol, d, refused);
    LabelsStep(p2.vol, d, refused);
    StageErrorsGrow(p0, ReplicasStage, d, refused);
    StageErrorsGrow(p1, FailureModeStage, d, refused);
    StageErrorsGrow(p2, LabelsStage, d, refused);
    hide StageOn, Unreserved, StoredReplicas, Lookup, FailureModeMatches, ParseFailureMode;
  }

  /**
    A pass over a volume that is found returns nil if and only if every label is
    accepted and each of the three settings is right already or can be set. With a
    control plane that refuses nothing this only needs the stored count and the
    requested failure mode to parse.
   */
  lemma NilIff(vol: Volume, labels: LabelMap, refused: set<Stage>)
    ensures var d := DesiredOf(labels);
            && (EnsureVolumeLabels(Found(vol), labels, refused).Nil() <==>
                  && d.errors == multiset{}
                  && ReplicasSettable(vol.labels, d, refused) && FailureModeSettable(vol.labels, d, refused)
                  && LabelsSettable(vol.labels, d, refused))
            && (EnsureVolumeLabels(Found(vol), labels, {}).Nil() <==>
                  && d.errors == multiset{} && StoredReplicas(vol.labels).Parsed?
                  && (Lookup(vol.labels, FAILURE_MODE) == d.failureMode || ParseFailureMode(d.failureMode).Some?))
  {
    DesiredFacts(labels);
    hide DesiredOf, RunStages, Unreserved, StoredReplicas, Lookup, ParseFailureMode, FailureModeMatches;
    StepsIndependent(vol, DesiredOf(labels), refused);
    StepsIndependent(vol, DesiredOf(labels), {});
  }

  /**
    A replica label that does not parse makes the pass report an error and still set
    a count, if the stored one differs: zero for bad syntax, but the largest number
    for every decimal beyond it.
   */
  lemma BadReplicasSent(vol: Volume, labels: LabelMap, n: nat)
    requires REPLICAS in labels && !ParseUint(labels[REPLICAS]).Parsed? && StoredReplicas(vol.labels) == Parsed(n)
    ensures var o := EnsureVolumeLabels(Found(vol), labels, {});
            var sent: nat := if ParseUint(labels[REPLICAS]).SyntaxError? then 0 else MAX_UINT64;
            && !o.Nil()
            && LabelError(if sent == 0 then BadSyntax else OutOfRange, REPLICAS) in o.labelErrors
            && (n != sent <==> o.sent != [] && o.sent[0] == SetReplicas(sent))
    ensures forall m: nat | m > MAX_UINT64 :: ParseUint(Decimal(m)).RangeError?
  {
    forall m: nat | m > MAX_UINT64 ensures ParseUint(Decimal(m)).RangeError? { ScanDecimal(m); }
    BadReplicasReported(labels);
    var d := DesiredOf(labels);
    FirstSent(vol, d);
    hide IsReservedLabel, ParseUint, Unreserved, Lookup, ErrorsOf, RunStages, StoredReplicas, Decimal, VolumeLabelError;
  }

  lemma BadReplicasReported(labels: LabelMap)
    requires REPLICAS in labels && !ParseUint(labels[REPLICAS]).Parsed?
    ensures LabelError(if ParseUint(labels[REPLICAS]).SyntaxError? then BadSyntax else OutOfRange, REPLICAS)
            in DesiredOf(labels).errors
  {
    ReservedNames();
    assert VolumeLabelError(REPLICAS, labels[REPLICAS]).Some?;
    hide IsReservedLabel, ParseUint, Unreserved;
  }

  lemma FirstSent(vol: Volume, d: Desired)
    requires StoredReplicas(vol.labels).Parsed?
    ensures var p := RunStages(vol, d, {});
            StoredReplicas(vol.labels).value != d.replicas <==> p.sent != [] && p.sent[0] == SetReplicas(d.replicas)
  {
    hide StoredReplicas, Merge, Lookup, ParseFailureMode, Apply;
  }

  lemma QuietStages(vol: Volume, d: Desired, refused: set<Stage>)
    requires forall stage :: PlanFor(stage, vol.labels, d) == Skip
    ensures RunStages(vol, d, refused) == Progress(vol, multiset{}, [])
  {
    hide PlanFor;
  }

  lemma LoudFailureMode(vol: Volume, d: Desired, refused: set<Stage>)
    requires PlanFor(ReplicasStage, vol.labels, d) == Skip && PlanFor(FailureModeStage, vol.labels, d).Send?
    ensures RunStages(vol, d, refused).sent != []
  {
    hide PlanFor;
  }
}
