/**
  Any number of label synchronisers and any other writers of one volume,
  interleaved at every read and every write.
 */
module LabelProtocol {
  import opened Common
  import opened Strconv
  import opened Labels
  import opened VolumeLabels

  /** One running EnsureVolumeLabels: the steps still to do and the volume its current step has read. */
  datatype Sync = Sync(desired: Desired, todo: seq<Stage>, read: Option<Volume>)

  const ALL_STAGES := [ReplicasStage, FailureModeStage, LabelsStage]

  datatype Event =
    | Accepted(stage: Stage, desired: Desired, read: Volume, before: Volume, after: Volume)
    | Rejected(stage: Stage, read: Volume, current: Volume)

  datatype Machine = Machine(vol: Volume, syncs: seq<Sync>, log: seq<Event>)

  datatype Action = ReadBy(i: nat) | WriteBy(i: nat) | Outside(labels: LabelMap)

  function Step(m: Machine, a: Action): Machine {
    match a
    case Outside(labels) => m.(vol := Volume(labels, m.vol.version + 1))
    case ReadBy(i) =>
      if i >= |m.syncs| || m.syncs[i].todo == [] then m
      else m.(syncs := m.syncs[i := m.syncs[i].(read := Some(m.vol))])
    case WriteBy(i) =>
      if i >= |m.syncs| || m.syncs[i].todo == [] || m.syncs[i].read.None? then m
      else
        var sync := m.syncs[i];
        var read := sync.read.value;
        var m1 := m.(syncs := m.syncs[i := Sync(sync.desired, sync.todo[1..], None)]);
        match PlanFor(sync.todo[0], read.labels, sync.desired)
        case Send(request) =>
          (match Write(m.vol, read.version, request)
           case Some(after) =>
             m1.(vol := after, log := m.log + [Accepted(sync.todo[0], sync.desired, read, m.vol, after)])
           case None => m1.(log := m.log + [Rejected(sync.todo[0], read, m.vol)]))
        case _ => m1
  }

  function Execute(m: Machine, actions: seq<Action>): Machine
    decreases |actions|
  {
    if actions == [] then m else Execute(Step(m, actions[0]), actions[1..])
  }

  /** An accepted write was computed from the current volume and changes only what its step is for. */
  ghost predicate SoundEvent(e: Event) {
    e.Accepted? ==>
      && e.read == e.before
      && e.after.version == e.before.version + 1
      && match e.stage
         case LabelsStage =>
           Reserved(e.after.labels) == Reserved(e.before.labels) && Unreserved(e.after.labels) == e.desired.unreserved
         case ReplicasStage =>
           e.after.labels - {REPLICAS} == e.before.labels - {REPLICAS} && StoredReplicas(e.after.labels) == Parsed(e.desired.replicas)
         case FailureModeStage =>
           e.after.labels - {FAILURE_MODE} == e.before.labels - {FAILURE_MODE} &&
           FailureModeMatches(Lookup(e.after.labels, FAILURE_MODE), e.desired.failureMode)
  }

  /** What was read is older than the volume, or is the volume. */
  ghost predicate ReadsHistory(m: Machine) {
    forall i | 0 <= i < |m.syncs| && m.syncs[i].read.Some? ::
      var read := m.syncs[i].read.value;
      read.version < m.vol.version || read == m.vol
  }

  ghost predicate ProperRequests(m: Machine) {
    forall i | 0 <= i < |m.syncs| ::
      var d := m.syncs[i].desired; d.replicas <= MAX_UINT64 && Unreserved(d.unreserved) == d.unreserved
  }

  lemma AcceptedSound(stage: Stage, d: Desired, read: Volume, vol: Volume)
    requires read.version < vol.version || read == vol
    requires d.replicas <= MAX_UINT64 && Unreserved(d.unreserved) == d.unreserved
    requires PlanFor(stage, read.labels, d).Send?
    ensures var after := Write(vol, read.version, PlanFor(stage, read.labels, d).request);
            after.Some? ==> SoundEvent(Accepted(stage, d, read, vol, after.value))
  {
    ParseUintOfDecimal(d.replicas);
    MergeExact(d.unreserved, read.labels);
    hide Reserved, Unreserved, Merge, ParseUint, Decimal;
  }

  /**
    In every interleaving with other synchronisers and other writers, an
    accepted write was computed from the version it replaces, so that a label
    update never changes or drops a reserved label and a settings update changes
    nothing else.
   */
  lemma {:induction false} AcceptedWritesSound(m: Machine, actions: seq<Action>)
    requires ReadsHistory(m) && ProperRequests(m) && forall i | 0 <= i < |m.log| :: SoundEvent(m.log[i])
    ensures var m' := Execute(m, actions); forall i | 0 <= i < |m'.log| :: SoundEvent(m'.log[i])
    decreases |actions|
  {
    if actions != [] {
      if actions[0].WriteBy? && actions[0].i < |m.syncs| {
        var sync := m.syncs[actions[0].i];
        if sync.todo != [] && sync.read.Some? && PlanFor(sync.todo[0], sync.read.value.labels, sync.desired).Send? {
          AcceptedSound(sync.todo[0], sync.desired, sync.read.value, m.vol);
        }
      }
      hide PlanFor, SoundEvent, Apply, Unreserved;
      var m1 := Step(m, actions[0]);
      AcceptedWritesSound(m1, actions[1..]);
      assert Execute(m, actions) == Execute(m1, actions[1..]);
    }
  }

  /** A synchroniser without other writers is never told that its write is stale, since each step reads again. */
  lemma {:induction false} AloneNeverRejected(m: Machine, actions: seq<Action>)
    requires |m.syncs| == 1 && (m.syncs[0].read.Some? ==> m.syncs[0].read.value == m.vol)
    requires forall i | 0 <= i < |actions| :: !actions[i].Outside?
    requires forall i | 0 <= i < |m.log| :: m.log[i].Accepted?
    ensures var m' := Execute(m, actions); forall i | 0 <= i < |m'.log| :: m'.log[i].Accepted?
    decreases |actions|
  {
    if actions != [] {
      hide PlanFor, Apply;
      assert !actions[0].Outside?;
      var m1 := Step(m, actions[0]);
      AloneNeverRejected(m1, actions[1..]);
      assert Execute(m, actions) == Execute(m1, actions[1..]);
    }
  }

  /**
    The undisturbed run of one synchroniser through its six actions is the
    sequential pass: the same volume, and one accepted write per request sent.
   */
  lemma UndisturbedRunIsPass(vol: Volume, d: Desired)
    ensures var m := Execute(Machine(vol, [Sync(d, ALL_STAGES, None)], []), PAIR + (PAIR + (PAIR + [])));
            var p := RunStages(vol, d, {});
            m.vol == p.vol && |m.log| == |p.sent| && m.syncs == [Sync(d, [], None)]
  {
    var p0 := Progress(vol, multiset{}, []);
    var p1 := RunStage(p0, ReplicasStage, d, {});
    var p2 := RunStage(p1, FailureModeStage, d, {});
    var p3 := RunStage(p2, LabelsStage, d, {});
    assert p3 == RunStages(vol, d, {});
    hide RunStage, RunStages, Step;
    var m0 := Machine(vol, [Sync(d, ALL_STAGES, None)], []);
    StepPair(m0, p0, d, ALL_STAGES, PAIR + (PAIR + []));
    var m1 := Step(Step(m0, ReadBy(0)), WriteBy(0));
    assert ALL_STAGES[1..] == [FailureModeStage, LabelsStage];
    StepPair(m1, p1, d, [FailureModeStage, LabelsStage], PAIR + []);
    var m2 := Step(Step(m1, ReadBy(0)), WriteBy(0));
    assert [FailureModeStage, LabelsStage][1..] == [LabelsStage];
    StepPair(m2, p2, d, [LabelsStage], []);
    assert [LabelsStage][1..] == [];
  }

  const PAIR := [ReadBy(0), WriteBy(0)]

  /** One read and one write do what one step of the pass does. */
  lemma StepPair(m: Machine, p: Progress, d: Desired, todo: seq<Stage>, rest: seq<Action>)
    requires todo != [] && m.syncs == [Sync(d, todo, None)] && m.vol == p.vol && |m.log| == |p.sent|
    ensures var m' := Step(Step(m, ReadBy(0)), WriteBy(0)); var p' := RunStage(p, todo[0], d, {});
            && m'.syncs == [Sync(d, todo[1..], None)] && m'.vol == p'.vol && |m'.log| == |p'.sent|
            && Execute(m, PAIR + rest) == Execute(m', rest)
  {
    hide PlanFor, Apply;
    var actions := PAIR + rest;
    assert actions[1..] == [WriteBy(0)] + rest && actions[1..][1..] == rest;
    assert Execute(m, actions) == Execute(Step(m, ReadBy(0)), actions[1..]);
    assert Execute(Step(m, ReadBy(0)), actions[1..]) == Execute(Step(Step(m, ReadBy(0)), WriteBy(0)), rest);
  }
}
