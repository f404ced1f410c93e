/**
  PVC label sync (controllers/pvc-label/controller.go): the pin check, the
  overlay of PVC labels on StorageClass defaults, and what a reconcile makes of
  the volume.
 */
module PvcLabel {
  import opened Common
  import opened Strconv
  import opened Provisioner
  import opened Labels
  import opened VolumeLabels
  import opened VolumeLabelsClient

  /******* The overlay *******/

  /** PVC labels on top of the reserved parameters of the class. */
  function Overlay(sc: StorageClass, pvc: PVC): map<string, string> {
    ReservedParams(sc) + pvc.labels
  }

  /** The value in force for a label: the PVC's, else the class's if reserved, else none. */
  function Setting(sc: StorageClass, pvc: PVC, k: string): Option<string> {
    if k in pvc.labels then Some(pvc.labels[k])
    else if k in sc.parameters && "storageos.com/" <= k then Some(sc.parameters[k])
    else None
  }

  /** The replica count in force, if it parses; the default is none. */
  function ReplicasInForce(sc: StorageClass, pvc: PVC): UintResult {
    match Setting(sc, pvc, REPLICAS)
    case Some(v) => ParseUint(v)
    case None => Parsed(0)
  }

  function FailureModeInForce(sc: StorageClass, pvc: PVC): string {
    match Setting(sc, pvc, FAILURE_MODE)
    case Some(v) => v
    case None => ""
  }

  /** Every label sent to the volume is the PVC's, else a reserved parameter of the class. */
  lemma OverlaySettings(sc: StorageClass, pvc: PVC)
    ensures var labels := Overlay(sc, pvc); var d := DesiredOf(labels);
            && (forall k :: k in labels <==> Setting(sc, pvc, k).Some?)
            && (forall k | k in labels :: labels[k] == Setting(sc, pvc, k).value)
            && d.unreserved == Unreserved(pvc.labels)
            && d.replicas == ReplicasInForce(sc, pvc).Number()
            && d.failureMode == FailureModeInForce(sc, pvc)
            && (d.errors == multiset{} ==> ReplicasInForce(sc, pvc).Parsed?)
  {
    var labels := Overlay(sc, pvc);
    assert Unreserved(labels) == Unreserved(pvc.labels) by {
      assert forall k | HasPrefix(k, RESERVED_PREFIX) :: IsReservedLabel(k);
      hide IsReservedLabel, HasPrefix;
    }
    if REPLICAS in labels && !ParseUint(labels[REPLICAS]).Parsed? {
      BadReplicasReported(labels);
    }
    hide HasPrefix, ParseUint, VolumeLabelError, ErrorsOf, IsReservedLabel, Unreserved;
  }

  /** The labels of the volume are what the PVC and its class ask for. */
  ghost predicate InForce(labels: LabelMap, sc: StorageClass, pvc: PVC) {
    && Unreserved(labels) == Unreserved(pvc.labels)
    && ReplicasInForce(sc, pvc).Parsed? && StoredReplicas(labels) == ReplicasInForce(sc, pvc)
    && FailureModeMatches(Lookup(labels, FAILURE_MODE), FailureModeInForce(sc, pvc))
  }

  /**
    After a sync that reports no error, the unreserved labels of the volume are
    exactly the PVC's, and its replica count and failure mode are the PVC's, else
    the class's, else the default; its other reserved labels are as before, so
    that no unreserved parameter of the class reaches it.
   */
  lemma OverlayReachesVolume(sc: StorageClass, pvc: PVC, vol: Volume, refused: set<Stage>)
    requires EnsureVolumeLabels(Found(vol), Overlay(sc, pvc), refused).Nil()
    ensures var found := EnsureVolumeLabels(Found(vol), Overlay(sc, pvc), refused).found;
            found.Found? && InForce(found.vol.labels, sc, pvc) && SameOtherReserved(vol.labels, found.vol.labels)
  {
    NilMeansApplied(Found(vol), Overlay(sc, pvc), refused);
    OverlaySettings(sc, pvc);
    hide Overlay, DesiredOf, Unreserved, StoredReplicas, FailureModeMatches, ReplicasInForce, FailureModeInForce, RunStages, SameOtherReserved;
  }

  /** The base with the labels of the keys seen so far on top. */
  function Overlaid(base: map<string, string>, labels: map<string, string>, seen: set<string>): map<string, string> {
    base + map k | k in seen && k in labels :: labels[k]
  }

  lemma OverlaidSnoc(base: map<string, string>, labels: map<string, string>, seen: set<string>, k: string)
    requires k in labels
    ensures Overlaid(base, labels, seen + {k}) == Overlaid(base, labels, seen)[k := labels[k]]
  {
  }

  lemma OverlaidEnds(base: map<string, string>, labels: map<string, string>)
    ensures Overlaid(base, labels, {}) == base && Overlaid(base, labels, labels.Keys) == base + labels
  {
    assert labels == map k | k in labels.Keys && k in labels :: labels[k];
  }

  method OverlayLabels(sc: StorageClass, pvc: PVC) returns (labels: map<string, string>)
    ensures labels == Overlay(sc, pvc)
  {
    hide ReservedParams;
    labels := StorageClassReservedParams(sc);
    labels := CopyOnto(labels, pvc.labels);
  }

  method CopyOnto(base: map<string, string>, labels: map<string, string>) returns (all: map<string, string>)
    ensures all == base + labels
  {
    all := base;
    var seen: set<string> := {};
    OverlaidEnds(base, labels);
    hide Overlaid;
    while seen != labels.Keys
      invariant seen <= labels.Keys
      invariant all == Overlaid(base, labels, seen)
      decreases |labels.Keys - seen|
    {
      var k :| k in labels.Keys - seen;
      ShrinkOne(labels.Keys, seen, k);
      OverlaidSnoc(base, labels, seen, k);
      seen := seen + {k};
      all := all[k := labels[k]];
    }
  }

  /******* One reconcile *******/

  /** A call that labelled a volume: the PVC as handled, its class, and the volume before and after. */
  datatype SyncRecord = SyncRecord(pvc: PVC, storageClass: StorageClass, volume: ObjectKey, before: Search, outcome: Outcome)

  /** `crashed` is set by a panic until the process is restarted. */
  datatype Cluster = Cluster(
    classes: seq<StorageClass>, pvcs: PVCs,
    namespaces: set<string>, volumes: map<ObjectKey, Volume>,
    syncs: seq<SyncRecord>, crashed: bool)
  {
    function Find(key: ObjectKey): Search {
      if key.namespace !in namespaces then NoNamespace
      else if key !in volumes then NoVolume
      else Found(volumes[key])
    }
  }

  datatype EnsureResult = Synced | Skipped | EnsureError | EnsurePanic

  /** Which writes fail: the update of the PVC, and steps of the volume labelling. */
  datatype Faults = Faults(updateFails: bool, refused: set<Stage>)

  function SpecClassName(pvc: PVC): string {
    if pvc.storageClassName.Some? then pvc.storageClassName.value else ""
  }

  /** One reconcile of the given PVC object. */
  function Ensured(c: Cluster, pvc: PVC, f: Faults): (Cluster, EnsureResult) {
    match ClassFor(c.classes, SpecClassName(pvc))
    case None => (c, EnsureError)
    case Some(sc) =>
      var (pvcs, pin) := ValidateOrSet(c.pvcs, sc, pvc, f.updateFails);
      var c1 := c.(pvcs := pvcs);
      match pin
      case PinError => (c1, EnsureError)
      case Panic => (c1.(crashed := true), EnsurePanic)
      case Invalid => (c1, Skipped)
      case Valid => if pvc.volumeName.None? then (c1, EnsureError) else Sync(c1, sc, pvc, pvc.volumeName.value, f)
  }

  function Sync(c: Cluster, sc: StorageClass, pvc: PVC, pv: string, f: Faults): (Cluster, EnsureResult) {
    var key := ObjectKey(pvc.namespace, pv);
    var outcome := EnsureVolumeLabels(c.Find(key), Overlay(sc, pvc), f.refused);
    (c.(volumes := StoredAt(c.volumes, key, outcome.found),
        syncs := c.syncs + [SyncRecord(pvc, sc, key, c.Find(key), outcome)]),
     if outcome.Nil() then Synced else EnsureError)
  }

  class Controller {
    const api: Client
    var classes: seq<StorageClass>
    var pvcs: PVCs
    var syncs: seq<SyncRecord>
    var crashed: bool

    constructor (api: Client, classes: seq<StorageClass>, pvcs: PVCs)
      ensures this.api == api
      ensures View() == Cluster(classes, pvcs, api.namespaces, api.volumes, [], false)
    {
      this.api, this.classes, this.pvcs, syncs, crashed := api, classes, pvcs, [], false;
    }

    ghost function View(): Cluster
      reads this, api
    {
      Cluster(classes, pvcs, api.namespaces, api.volumes, syncs, crashed)
    }

    /** A pin that is shown changes nothing; a class that is accepted for a current PVC is the pinned one afterwards. */
    method ValidateOrSetStorageClassUID(sc: StorageClass, pvc: PVC, updateFails: bool) returns (r: PinResult)
      modifies this`pvcs
      ensures (pvcs, r) == ValidateOrSet(old(pvcs), sc, pvc, updateFails)
      ensures Pin(pvc) != "" || !r.Valid? ==> pvcs == old(pvcs)
      ensures pvcs.Keys == old(pvcs.Keys) && pvcs - {pvc.Key()} == old(pvcs) - {pvc.Key()}
      ensures r.Valid? && pvc.Key() in old(pvcs) && old(pvcs[pvc.Key()]) == pvc ==> Pin(pvcs[pvc.Key()]) == sc.uid
      ensures r.Panic? ==> pvc.Key() in pvcs && pvcs[pvc.Key()].annotations.None?
    {
      if Pin(pvc) != "" {
        return if sc.uid == Pin(pvc) then Valid else Invalid;
      }
      if sc.created > pvc.created {
        return Invalid;
      }
      if pvc.Key() !in pvcs {
        return PinError;
      }
      var stored := pvcs[pvc.Key()];
      if stored.annotations.None? {
        return Panic;
      }
      if updateFails {
        return PinError;
      }
      stored := stored.(annotations := Some(stored.annotations.value[CLASS_UID_ANNOTATION := sc.uid]));
      pvcs := pvcs[pvc.Key() := stored];
      return Valid;
    }

    method Ensure(pvc: PVC, f: Faults) returns (r: EnsureResult)
      modifies this, api`volumes
      ensures (View(), r) == Ensured(old(View()), pvc, f)
    {
      hide ValidateOrSet, Overlay, VolumeLabels.EnsureVolumeLabels;
      var found := ClassFor(classes, SpecClassName(pvc));
      if found.None? {
        return EnsureError;
      }
      var sc := found.value;
      var pin := ValidateOrSetStorageClassUID(sc, pvc, f.updateFails);
      if pin.PinError? {
        return EnsureError;
      }
      if pin.Panic? {
        crashed := true;
        return EnsurePanic;
      }
      if pin.Invalid? {
        return Skipped;
      }
      var labels := OverlayLabels(sc, pvc);
      if pvc.volumeName.None? {
        return EnsureError;
      }
      r := SyncVolume(sc, pvc, pvc.volumeName.value, labels, f);
    }

    method SyncVolume(sc: StorageClass, pvc: PVC, pv: string, labels: map<string, string>, f: Faults) returns (r: EnsureResult)
      requires labels == Overlay(sc, pvc)
      modifies this`syncs, api`volumes
      ensures (View(), r) == Sync(old(View()), sc, pvc, pv, f)
      ensures var key := ObjectKey(pvc.namespace, pv);
              && api.volumes - {key} == old(api.volumes) - {key}
              && (r.Synced? && old(api.Find(key)).Found? ==>
                    api.Find(key).Found? && InForce(api.Find(key).vol.labels, sc, pvc))
    {
      SyncFacts(View(), sc, pvc, pv, f);
      hide Overlay, VolumeLabels.EnsureVolumeLabels, StoredAt, InRequestedState, DesiredOf, InForce;
      var key := ObjectKey(pvc.namespace, pv);
      var before := api.Find(key);
      var outcome := api.EnsureVolumeLabels(key, labels, f.refused);
      syncs := syncs + [SyncRecord(pvc, sc, key, before, outcome)];
      return if outcome.Nil() then Synced else EnsureError;
    }
  }

  /** The class of a PVC: the one that its spec names, else the default one. */
  function ClassInSpec(c: Cluster, pvc: PVC): Option<StorageClass> {
    ClassFor(c.classes, if pvc.storageClassName == None then "" else pvc.storageClassName.value)
  }

  function ShownPin(pvc: PVC): string {
    if pvc.annotations.Some? then Lookup(pvc.annotations.value, "storageos.com/storageclass") else ""
  }

  /** The class may be used for the PVC object: it is the pinned one, or can be pinned now. */
  predicate ClassAccepted(c: Cluster, sc: StorageClass, pvc: PVC, f: Faults)
    requires pvc.Key() in c.pvcs
  {
    if ShownPin(pvc) != "" then ShownPin(pvc) == sc.uid
    else sc.created <= pvc.created && c.pvcs[pvc.Key()].annotations.Some? && !f.updateFails
  }

  /**
    A reconcile labels a volume exactly when a class matches, it is accepted and
    the PVC is bound. The volume is the one named after the PV, in the PVC's
    namespace; the labels sent are the overlay, and if the sync reports no error and
    finds the volume, they are in force. No other volume changes. A reconcile is
    skipped exactly when the class is not the pinned one, or is younger than a PVC
    that shows no pin.
   */
  lemma SyncedIff(c: Cluster, pvc: PVC, f: Faults)
    requires pvc.Key() in c.pvcs
    ensures var (c', r) := Ensured(c, pvc, f); var sc := ClassInSpec(c, pvc);
            && (r.Skipped? <==>
                  sc.Some? && if ShownPin(pvc) != "" then ShownPin(pvc) != sc.value.uid else sc.value.created > pvc.created)
            && (c'.syncs != c.syncs <==> sc.Some? && ClassAccepted(c, sc.value, pvc, f) && pvc.volumeName.Some?)
            && (c'.syncs == c.syncs ==> c'.volumes == c.volumes && !r.Synced?)
            && (c'.syncs != c.syncs ==>
                  && |c'.syncs| == |c.syncs| + 1 && c'.syncs[..|c.syncs|] == c.syncs
                  && var s := c'.syncs[|c.syncs|];
                  && s.pvc == pvc && s.storageClass == sc.value && s.volume == ObjectKey(pvc.namespace, pvc.volumeName.value)
                  && s.before == c.Find(s.volume) && s.outcome.found == c'.Find(s.volume)
                  && s.outcome == EnsureVolumeLabels(s.before, Overlay(sc.value, pvc), f.refused)
                  && c'.volumes - {s.volume} == c.volumes - {s.volume}
                  && (r.Synced? <==> s.outcome.Nil()) && NilInForce(s))
  {
    hide ClassFor, Overlay, EnsureVolumeLabels, InForce;
    var sc := ClassFor(c.classes, SpecClassName(pvc));
    assert sc == ClassInSpec(c, pvc);
    if sc.Some? {
      PinResultIff(c, sc.value, pvc, f);
    }
    hide ValidateOrSet, ShownPin, ClassAccepted, ClassInSpec, Sync, NilInForce;
    if sc.Some? && pvc.volumeName.Some? {
      SyncFacts(c.(pvcs := ValidateOrSet(c.pvcs, sc.value, pvc, f.updateFails).0), sc.value, pvc, pvc.volumeName.value, f);
    }
  }

  /** What the pin step answers. */
  lemma PinResultIff(c: Cluster, sc: StorageClass, pvc: PVC, f: Faults)
    requires pvc.Key() in c.pvcs
    ensures var r := ValidateOrSet(c.pvcs, sc, pvc, f.updateFails).1;
            && (r.Valid? <==> ClassAccepted(c, sc, pvc, f))
            && (r.Invalid? <==> if ShownPin(pvc) != "" then ShownPin(pvc) != sc.uid else sc.created > pvc.created)
  {
  }

  /** A sync that reports no error leaves a volume that it finds with the labels in force. */
  ghost predicate NilInForce(s: SyncRecord) {
    s.outcome.Nil() && s.before.Found? ==>
      s.outcome.found.Found? && InForce(s.outcome.found.vol.labels, s.storageClass, s.pvc)
  }

  lemma SyncFacts(c: Cluster, sc: StorageClass, pvc: PVC, pv: string, f: Faults)
    ensures var (c', r) := Sync(c, sc, pvc, pv, f); var key := ObjectKey(pvc.namespace, pv);
            && c' == c.(volumes := c'.volumes, syncs := c'.syncs)
            && |c'.syncs| == |c.syncs| + 1 && c'.syncs[..|c.syncs|] == c.syncs
            && c'.volumes - {key} == c.volumes - {key}
            && var s := c'.syncs[|c.syncs|];
            && s == SyncRecord(pvc, sc, key, c.Find(key), s.outcome)
            && s.outcome.found == c'.Find(key)
            && s.outcome == EnsureVolumeLabels(c.Find(key), Overlay(sc, pvc), f.refused)
            && (r.Synced? <==> s.outcome.Nil()) && (r.Synced? || r.EnsureError?)
            && NilInForce(s)
  {
    var key := ObjectKey(pvc.namespace, pv);
    var before := c.Find(key);
    var outcome := EnsureVolumeLabels(before, Overlay(sc, pvc), f.refused);
    OutcomeFound(before, Overlay(sc, pvc), f.refused);
    hide EnsureVolumeLabels, Overlay, InForce;
    if outcome.found.Found? {
      PutElsewhere(c.volumes, key, outcome.found.vol);
    }
    if outcome.Nil() && before.Found? {
      OverlayReachesVolume(sc, pvc, before.vol, f.refused);
    }
  }

  /******* Panics *******/

  /**
    A reconcile panics exactly when a class matches that is not younger than the
    PVC, the object shows no pin, and the stored PVC has no annotations at all.
   */
  lemma PanicsIff(c: Cluster, pvc: PVC, f: Faults)
    requires pvc.Key() in c.pvcs
    ensures var (c', r) := Ensured(c, pvc, f); var sc := ClassInSpec(c, pvc);
            && (r.EnsurePanic? <==>
                  && sc.Some? && ShownPin(pvc) == "" && sc.value.created <= pvc.created
                  && c.pvcs[pvc.Key()].annotations.None?)
            && (c'.crashed <==> c.crashed || r.EnsurePanic?)
            && (r.EnsurePanic? ==> c' == c.(crashed := true))
  {
    hide ClassFor, Overlay, EnsureVolumeLabels;
  }

  /** For instance a PVC that was made without annotations, with any older class. */
  lemma BarePVCPanics() returns (c: Cluster, pvc: PVC)
    ensures c.pvcs == map[pvc.Key() := pvc] && pvc.annotations.None?
    ensures Ensured(c, pvc, Faults(false, {})) == (c.(crashed := true), EnsurePanic)
  {
    pvc := PVC("ns", "pvc", 1, Some("class"), Some("pv"), None, map[]);
    c := Cluster([StorageClass("class", "uid", 0, DRIVER_NAME, map[], map[])], map[pvc.Key() := pvc], {}, map[], [], false);
  }

  /******* Stale objects *******/

  /**
    Handling an object that is not current changes the pin of the stored PVC
    exactly when the object shows no pin, is not older than the class, and the
    update goes through with another UID.
   */
  lemma StalePinOverwrittenIff(pvcs: PVCs, sc: StorageClass, pvc: PVC, updateFails: bool)
    requires pvc.Key() in pvcs
    ensures var stored := pvcs[pvc.Key()];
            ShownPin(ValidateOrSet(pvcs, sc, pvc, updateFails).0[pvc.Key()]) != ShownPin(stored) <==>
              && ShownPin(pvc) == "" && sc.created <= pvc.created
              && stored.annotations.Some? && !updateFails
              && sc.uid != ShownPin(stored)
  {
  }

  /** So a stale object can replace a pin. */
  lemma StaleObjectReplacesPin() returns (pvcs: PVCs, sc: StorageClass, pvc: PVC)
    ensures pvc.Key() in pvcs && Pin(pvcs[pvc.Key()]) == "old" && sc.uid == "new"
    ensures var (pvcs', r) := ValidateOrSet(pvcs, sc, pvc, false); r == Valid && Pin(pvcs'[pvc.Key()]) == "new"
  {
    pvc := PVC("ns", "pvc", 1, Some("class"), None, Some(map[]), map[]);
    sc := StorageClass("class", "new", 0, DRIVER_NAME, map[], map[]);
    pvcs := map[pvc.Key() := pvc.(annotations := Some(map[CLASS_UID_ANNOTATION := "old"]))];
  }
}
