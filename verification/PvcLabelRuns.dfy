/** What every run of class changes, label changes and reconciles of PVCs keeps. */
module PvcLabelRuns {
  import opened Common
  import opened Provisioner
  import opened VolumeLabels
  import opened VolumeLabelsClient
  import opened PvcLabel

  datatype Event =
    | SetClasses(classes: seq<StorageClass>)
    | Relabel(key: ObjectKey, labels: map<string, string>)
    | Handle(key: ObjectKey, faults: Faults)
    | Restart

  /** Classes come and go, labels change, and PVCs are handled as they are stored, unless the process is down. */
  function Step(c: Cluster, e: Event): Cluster {
    match e
    case SetClasses(classes) => c.(classes := classes)
    case Relabel(key, labels) =>
      if key in c.pvcs then c.(pvcs := c.pvcs[key := c.pvcs[key].(labels := labels)]) else c
    case Handle(key, faults) => if key in c.pvcs && !c.crashed then Ensured(c, c.pvcs[key], faults).0 else c
    case Restart => c.(crashed := false)
  }

  function Run(c: Cluster, events: seq<Event>): Cluster
    decreases |events|
  {
    if events == [] then c else Run(Step(c, events[0]), events[1..])
  }

  ghost predicate NamedUIDs(classes: seq<StorageClass>) {
    forall i | 0 <= i < |classes| :: classes[i].uid != ""
  }

  /** Every class has a UID. */
  ghost predicate Admissible(events: seq<Event>) {
    forall i | 0 <= i < |events| && events[i].SetClasses? :: NamedUIDs(events[i].classes)
  }

  ghost predicate WellFormed(c: Cluster) {
    && (forall k | k in c.pvcs :: c.pvcs[k].Key() == k)
    && NamedUIDs(c.classes)
  }

  /******* Pins *******/

  /** The PVC stays, and a pin that is set is never changed. */
  predicate PinKept(pvcs: PVCs, pvcs': PVCs, k: ObjectKey) {
    k in pvcs ==> k in pvcs' && pvcs'[k].Key() == pvcs[k].Key() && (Pin(pvcs[k]) != "" ==> Pin(pvcs'[k]) == Pin(pvcs[k]))
  }

  /** The sync used the class that its PVC is pinned to, and left what that class and the PVC asked for. */
  ghost predicate SoundSync(pvcs: PVCs, s: SyncRecord) {
    && s.storageClass.uid != "" && s.pvc.Key() in pvcs && Pin(pvcs[s.pvc.Key()]) == s.storageClass.uid
    && NilInForce(s)
  }

  /** The pin step keeps a pin that is set; a class it accepts for a stored PVC is the pinned one. */
  lemma ValidateKeepsPin(pvcs: PVCs, sc: StorageClass, pvc: PVC, updateFails: bool, k: ObjectKey)
    requires pvc.Key() in pvcs && pvcs[pvc.Key()] == pvc
    ensures var (pvcs', r) := ValidateOrSet(pvcs, sc, pvc, updateFails);
            && pvcs'.Keys == pvcs.Keys && PinKept(pvcs, pvcs', k)
            && (r.Valid? ==> Pin(pvcs'[pvc.Key()]) == sc.uid)
  {
  }

  lemma ReconcilePins(c: Cluster, key: ObjectKey, f: Faults, k: ObjectKey)
    requires WellFormed(c) && key in c.pvcs
    ensures var c' := Ensured(c, c.pvcs[key], f).0;
            && c'.classes == c.classes && c'.pvcs.Keys == c.pvcs.Keys
            && PinKept(c.pvcs, c'.pvcs, k)
            && (c'.syncs != c.syncs ==> Pin(c'.pvcs[key]) == ClassFor(c.classes, SpecClassName(c.pvcs[key])).value.uid)
  {
    var pvc := c.pvcs[key];
    assert pvc.Key() == key;
    EnsuredPVCs(c, pvc, f);
    hide Ensured, ClassFor, WellFormed, ValidateOrSet, PinKept, Pin;
    PinKeptSelf(c.pvcs, k);
    var found := ClassFor(c.classes, SpecClassName(pvc));
    if found.Some? {
      ValidateKeepsPin(c.pvcs, found.value, pvc, f.updateFails, k);
    }
  }

  /** Only the pin step of a reconcile writes PVCs, and a sync follows only if it accepts the class. */
  lemma EnsuredPVCs(c: Cluster, pvc: PVC, f: Faults)
    ensures var c' := Ensured(c, pvc, f).0; var sc := ClassFor(c.classes, SpecClassName(pvc));
            && c'.classes == c.classes
            && c'.pvcs == (if sc.Some? then ValidateOrSet(c.pvcs, sc.value, pvc, f.updateFails).0 else c.pvcs)
            && (c'.syncs != c.syncs ==> sc.Some? && ValidateOrSet(c.pvcs, sc.value, pvc, f.updateFails).1.Valid?)
  {
    hide ClassFor, ValidateOrSet, EnsureVolumeLabels, Overlay, StoredAt;
  }

  lemma PinKeptSelf(pvcs: PVCs, k: ObjectKey)
    ensures PinKept(pvcs, pvcs, k)
  {
  }

  lemma NewSyncSound(c: Cluster, key: ObjectKey, f: Faults)
    requires WellFormed(c) && key in c.pvcs
    ensures var c' := Ensured(c, c.pvcs[key], f).0;
            c'.syncs != c.syncs ==>
              |c'.syncs| == |c.syncs| + 1 && c'.syncs[..|c.syncs|] == c.syncs && SoundSync(c'.pvcs, c'.syncs[|c.syncs|])
  {
    var pvc := c.pvcs[key];
    assert pvc.Key() == key;
    ReconcilePins(c, key, f, key);
    SyncedIff(c, pvc, f);
    ClassForFirst(c.classes, SpecClassName(pvc));
    hide Ensured, ClassFor, NilInForce, ClassAccepted, Matches;
  }

  ghost predicate SyncsSound(c: Cluster, from: nat) {
    forall i | from <= i < |c.syncs| :: SoundSync(c.pvcs, c.syncs[i])
  }

  lemma KeptSoundSync(pvcs: PVCs, pvcs': PVCs, s: SyncRecord)
    requires SoundSync(pvcs, s) && PinKept(pvcs, pvcs', s.pvc.Key())
    ensures SoundSync(pvcs', s)
  {
    hide NilInForce;
  }

  lemma StepPins(c: Cluster, e: Event, k: ObjectKey)
    requires WellFormed(c)
    ensures PinKept(c.pvcs, Step(c, e).pvcs, k) && Step(c, e).pvcs.Keys == c.pvcs.Keys
  {
    if e.Handle? && e.key in c.pvcs {
      ReconcilePins(c, e.key, e.faults, k);
    }
    PinKeptSelf(c.pvcs, k);
    hide Ensured;
  }

  lemma StepWellFormed(c: Cluster, e: Event)
    requires WellFormed(c) && (e.SetClasses? ==> NamedUIDs(e.classes))
    ensures WellFormed(Step(c, e))
  {
    var c' := Step(c, e);
    if e.Handle? && e.key in c.pvcs {
      ReconcilePins(c, e.key, e.faults, e.key);
    }
    forall k | k in c'.pvcs ensures c'.pvcs[k].Key() == k {
      StepPins(c, e, k);
    }
    hide Ensured, NamedUIDs, PinKept;
  }

  /** A step adds at most one sync, which is sound, and forgets none. */
  lemma StepAddsSync(c: Cluster, e: Event)
    requires WellFormed(c)
    ensures var c' := Step(c, e);
            c'.syncs == c.syncs ||
            (|c'.syncs| == |c.syncs| + 1 && c'.syncs[..|c.syncs|] == c.syncs && SoundSync(c'.pvcs, c'.syncs[|c.syncs|]))
  {
    if e.Handle? && e.key in c.pvcs {
      NewSyncSound(c, e.key, e.faults);
    }
    hide Ensured, SoundSync, WellFormed;
  }

  lemma StepKeepsPins(c: Cluster, e: Event, from: nat)
    requires WellFormed(c) && from <= |c.syncs| && SyncsSound(c, from)
    requires e.SetClasses? ==> NamedUIDs(e.classes)
    ensures var c' := Step(c, e);
            && WellFormed(c') && (forall k :: PinKept(c.pvcs, c'.pvcs, k))
            && from <= |c'.syncs| && SyncsSound(c', from)
  {
    hide Step, SoundSync, WellFormed, NamedUIDs, PinKept;
    var c' := Step(c, e);
    StepWellFormed(c, e);
    StepAddsSync(c, e);
    forall k ensures PinKept(c.pvcs, c'.pvcs, k) { StepPins(c, e, k); }
    forall i | from <= i < |c'.syncs| ensures SoundSync(c'.pvcs, c'.syncs[i]) {
      if i < |c.syncs| {
        assert c'.syncs[i] == c.syncs[i];
        KeptSoundSync(c.pvcs, c'.pvcs, c.syncs[i]);
      }
    }
  }

  /**
    Over every run of StorageClass deletions and re-creations, label changes,
    reconciles of PVCs as stored, panics and restarts, a pin that is set is never
    changed, labels were synced only from the class with the pinned UID, and each
    sync without error left the volume it found with the labels in force.
   */
  lemma {:induction false} RunKeepsPins(c: Cluster, events: seq<Event>, from: nat)
    requires WellFormed(c) && from <= |c.syncs| && SyncsSound(c, from)
    requires Admissible(events)
    ensures var c' := Run(c, events);
            (forall k :: PinKept(c.pvcs, c'.pvcs, k)) && from <= |c'.syncs| && SyncsSound(c', from)
    decreases |events|
  {
    if events != [] {
      StepKeepsPins(c, events[0], from);
      var c1 := Step(c, events[0]);
      hide Step, SyncsSound, WellFormed;
      RunKeepsPins(c1, events[1..], from);
      var c' := Run(c1, events[1..]);
      forall k ensures PinKept(c.pvcs, c'.pvcs, k) {
        assert PinKept(c.pvcs, c1.pvcs, k) && PinKept(c1.pvcs, c'.pvcs, k);
      }
    }
  }

  /******* Volumes at the end of a run *******/

  function LastSync(syncs: seq<SyncRecord>, volume: ObjectKey): Option<SyncRecord>
    decreases |syncs|
  {
    if syncs == [] then None
    else
      var last := syncs[|syncs| - 1];
      if last.volume == volume then Some(last) else LastSync(syncs[..|syncs| - 1], volume)
  }

  lemma {:induction false} LastSyncListed(syncs: seq<SyncRecord>, volume: ObjectKey)
    ensures LastSync(syncs, volume).Some? ==> LastSync(syncs, volume).value in syncs
    decreases |syncs|
  {
    if syncs != [] {
      LastSyncListed(syncs[..|syncs| - 1], volume);
    }
  }

  /** The volume is as its last sync left it. */
  ghost predicate AsSynced(c: Cluster, volume: ObjectKey) {
    LastSync(c.syncs, volume).Some? ==> c.Find(volume) == LastSync(c.syncs, volume).value.outcome.found
  }

  lemma StepAsSynced(c: Cluster, e: Event, volume: ObjectKey)
    requires WellFormed(c) && AsSynced(c, volume)
    ensures AsSynced(Step(c, e), volume)
  {
    if e.Handle? && e.key in c.pvcs && !c.crashed {
      assert c.pvcs[e.key].Key() == e.key;
      hide WellFormed;
      ReconcileAsSynced(c, c.pvcs[e.key], e.faults, volume);
    }
    hide Ensured;
  }

  lemma ReconcileAsSynced(c: Cluster, pvc: PVC, f: Faults, volume: ObjectKey)
    requires AsSynced(c, volume) && pvc.Key() in c.pvcs
    ensures AsSynced(Ensured(c, pvc, f).0, volume)
  {
    ReconcileSyncs(c, pvc, f);
    hide Ensured, LastSync;
    var c' := Ensured(c, pvc, f).0;
    if c'.syncs != c.syncs {
      var s := c'.syncs[|c.syncs|];
      assert c'.syncs == c.syncs + [s];
      LastSyncSnoc(c.syncs, s, volume);
      if s.volume != volume {
        SameElsewhere(c.volumes, c'.volumes, s.volume, volume);
      }
    }
  }

  lemma LastSyncSnoc(syncs: seq<SyncRecord>, s: SyncRecord, volume: ObjectKey)
    ensures LastSync(syncs + [s], volume) == if s.volume == volume then Some(s) else LastSync(syncs, volume)
  {
    assert (syncs + [s])[..|syncs|] == syncs;
  }

  /** A reconcile that adds a sync changes only the volume of that sync, to what the sync left; any other changes none. */
  lemma ReconcileSyncs(c: Cluster, pvc: PVC, f: Faults)
    requires pvc.Key() in c.pvcs
    ensures var c' := Ensured(c, pvc, f).0;
            && c'.namespaces == c.namespaces
            && (c'.syncs == c.syncs ==> c'.volumes == c.volumes)
            && (c'.syncs != c.syncs ==>
                  && |c'.syncs| == |c.syncs| + 1 && c'.syncs[..|c.syncs|] == c.syncs
                  && var s := c'.syncs[|c.syncs|];
                  s.outcome.found == c'.Find(s.volume) && c'.volumes - {s.volume} == c.volumes - {s.volume})
  {
    hide Ensured, ClassInSpec, ShownPin, Overlay, EnsureVolumeLabels, NilInForce, ClassAccepted;
    SyncedIff(c, pvc, f);
    SameNamespaces(c, pvc, f);
  }

  lemma SameNamespaces(c: Cluster, pvc: PVC, f: Faults)
    ensures Ensured(c, pvc, f).0.namespaces == c.namespaces
  {
    hide ClassFor, Overlay, EnsureVolumeLabels, ValidateOrSet;
  }

  lemma {:induction false} RunAsSynced(c: Cluster, events: seq<Event>, volume: ObjectKey)
    requires WellFormed(c) && AsSynced(c, volume)
    requires Admissible(events)
    ensures AsSynced(Run(c, events), volume)
    decreases |events|
  {
    if events != [] {
      StepWellFormed(c, events[0]);
      StepAsSynced(c, events[0], volume);
      hide Step, AsSynced, WellFormed;
      RunAsSynced(Step(c, events[0]), events[1..], volume);
    }
  }

  /**
    At the end of every run without other writers of volumes, each volume whose
    last sync found it and reported no error has exactly the labels that the PVC,
    as then handled, and the class with the pinned UID ask for.
   */
  lemma RunLeavesInForce(c: Cluster, events: seq<Event>, volume: ObjectKey)
    requires WellFormed(c) && c.syncs == []
    requires Admissible(events)
    ensures var c' := Run(c, events); var last := LastSync(c'.syncs, volume);
            last.Some? && last.value.outcome.Nil() && last.value.before.Found? ==>
              && c'.Find(volume).Found? && InForce(c'.Find(volume).vol.labels, last.value.storageClass, last.value.pvc)
              && last.value.pvc.Key() in c'.pvcs && Pin(c'.pvcs[last.value.pvc.Key()]) == last.value.storageClass.uid
  {
    RunKeepsPins(c, events, 0);
    RunAsSynced(c, events, volume);
    var c' := Run(c, events);
    LastSyncListed(c'.syncs, volume);
    hide Run, InForce, LastSync;
    if LastSync(c'.syncs, volume).Some? {
      var i :| 0 <= i < |c'.syncs| && c'.syncs[i] == LastSync(c'.syncs, volume).value;
      assert SoundSync(c'.pvcs, c'.syncs[i]);
    }
  }

  /******* Panics *******/

  ghost predicate AllAnnotated(c: Cluster) {
    forall k | k in c.pvcs :: c.pvcs[k].annotations.Some?
  }

  lemma StepStaysUp(c: Cluster, e: Event)
    requires WellFormed(c) && AllAnnotated(c) && !c.crashed && (e.SetClasses? ==> NamedUIDs(e.classes))
    ensures var c' := Step(c, e); WellFormed(c') && AllAnnotated(c') && !c'.crashed
  {
    StepWellFormed(c, e);
    if e.Handle? && e.key in c.pvcs {
      assert c.pvcs[e.key].Key() == e.key;
      PanicsIff(c, c.pvcs[e.key], e.faults);
      ReconcileAnnotates(c, c.pvcs[e.key], e.faults);
      hide Ensured, WellFormed;
    }
  }

  /** A reconcile never takes annotations away. */
  lemma ReconcileAnnotates(c: Cluster, pvc: PVC, f: Faults)
    requires AllAnnotated(c)
    ensures AllAnnotated(Ensured(c, pvc, f).0)
  {
    hide ClassFor, Overlay, EnsureVolumeLabels;
  }

  lemma {:induction false} RunStaysUp(c: Cluster, events: seq<Event>)
    requires WellFormed(c) && AllAnnotated(c) && !c.crashed
    requires Admissible(events)
    ensures !Run(c, events).crashed
    decreases |events|
  {
    if events != [] {
      StepStaysUp(c, events[0]);
      hide Step, WellFormed, AllAnnotated;
      RunStaysUp(Step(c, events[0]), events[1..]);
    }
  }

  /** No run panics if and only if every stored PVC has annotations. */
  lemma CrashFreeIff(c: Cluster)
    requires WellFormed(c) && !c.crashed
    ensures (forall events | Admissible(events) :: !Run(c, events).crashed) <==> AllAnnotated(c)
  {
    if AllAnnotated(c) {
      forall events | Admissible(events) ensures !Run(c, events).crashed {
        RunStaysUp(c, events);
      }
    } else {
      var k :| k in c.pvcs && c.pvcs[k].annotations.None?;
      var events := OldClassThenHandle(c.pvcs[k]);
      BareRunCrashes(c, k);
      assert Admissible(events);
    }
  }

  /** The class that the PVC names, or a default class, as old as the PVC, and a reconcile. */
  function OldClassThenHandle(pvc: PVC): seq<Event> {
    var name := SpecClassName(pvc);
    var sc := StorageClass(name, "uid", pvc.created, DRIVER_NAME, map[DEFAULT_CLASS_ANNOTATION := "true"], map[]);
    [SetClasses([sc]), Handle(pvc.Key(), Faults(false, {}))]
  }

  lemma BareRunCrashes(c: Cluster, k: ObjectKey)
    requires WellFormed(c) && !c.crashed && k in c.pvcs && c.pvcs[k].annotations.None?
    ensures Run(c, OldClassThenHandle(c.pvcs[k])).crashed
  {
    var pvc, events := c.pvcs[k], OldClassThenHandle(c.pvcs[k]);
    assert pvc.Key() == k;
    var c1 := Step(c, events[0]);
    assert ClassFor(c1.classes, SpecClassName(pvc)) == Some(c1.classes[0]);
    PanicsIff(c1, pvc, Faults(false, {}));
    hide Ensured, ClassFor;
    var c2 := Step(c1, events[1]);
    assert events[1..][1..] == [] && Run(c2, []) == c2;
    assert Run(c1, events[1..]) == c2;
  }
}
