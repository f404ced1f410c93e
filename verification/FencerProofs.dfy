/** Safety of fencing over every run, and the exact result of a pass over a calm cluster. */
module FencerProofs {
  import opened Common
  import opened Fencer

  /******* Which claims are found *******/

  predicate IsStorageosPVC(env: Env, pvc: PVC) {
    var key := "volume.beta.kubernetes.io/storage-provisioner";
    if key in pvc.annotations then pvc.annotations[key] == "csi.storageos.com"
    else pvc.volumeName in env.drivers && env.drivers[pvc.volumeName] == Some("csi.storageos.com")
  }

  predicate NamesClaim(claim: Option<string>) {
    claim.Some? && claim.value != ""
  }

  /** The stored claims that the volumes of a pod name, in order. */
  function StoredClaims(env: Env, namespace: string, claims: seq<Option<string>>): seq<PVC> {
    if claims == [] then []
    else
      var rest := StoredClaims(env, namespace, claims[1..]);
      if NamesClaim(claims[0]) && ObjectKey(namespace, claims[0].value) in env.pvcs
      then [env.pvcs[ObjectKey(namespace, claims[0].value)]] + rest
      else rest
  }

  /** The claims of the pod that StorageOS provisions. */
  function StorageosClaims(env: Env, pod: Pod): seq<PVC> {
    Filter(StoredClaims(env, pod.namespace, pod.claims), (pvc: PVC) => IsStorageosPVC(env, pvc))
  }

  predicate ClaimsStored(env: Env, pod: Pod) {
    forall c | c in pod.claims && NamesClaim(c) :: ObjectKey(pod.namespace, c.value) in env.pvcs
  }

  /** No read of a PV with the StorageOS driver fails between the given tick and the end of the call. */
  predicate DriverReadsAnswer(env: Env, namespace: string, claims: seq<Option<string>>, tick: nat)
    decreases |claims|
  {
    if claims == [] then true
    else if !NamesClaim(claims[0]) then DriverReadsAnswer(env, namespace, claims[1..], tick)
    else
      var key := ObjectKey(namespace, claims[0].value);
      if env.fails(tick) || key !in env.pvcs || PROVISIONER_ANNOTATION in env.pvcs[key].annotations
      then DriverReadsAnswer(env, namespace, claims[1..], tick + 1)
      else
        && (UsesDriver(env, env.pvcs[key].volumeName) ==> !env.pvReadFails(tick + 1))
        && DriverReadsAnswer(env, namespace, claims[1..], tick + 2)
  }

  /**
    Unless a PVC read fails, the claims found are exactly the StorageOS claims
    of the pod, in order, if and only if no read of a PV with the StorageOS
    driver fails; otherwise claims are missing.
   */
  lemma {:induction false} PodPVCsExactIff(env: Env, namespace: string, claims: seq<Option<string>>, tick: nat)
    ensures var found := PodPVCs(env, namespace, claims, tick);
            var all := Filter(StoredClaims(env, namespace, claims), (pvc: PVC) => IsStorageosPVC(env, pvc));
            && tick <= found.tick
            && |found.pvcs| <= |all|
            && (forall pvc | pvc in found.pvcs :: pvc in all)
            && (!found.failed ==> (found.pvcs == all <==> DriverReadsAnswer(env, namespace, claims, tick)))
            && (!found.failed ==> |found.pvcs| < |all| || found.pvcs == all)
    decreases |claims|
  {
    if claims != [] {
      var rest := claims[1..];
      if !NamesClaim(claims[0]) {
        PodPVCsExactIff(env, namespace, rest, tick);
      } else {
        var key := ObjectKey(namespace, claims[0].value);
        if env.fails(tick) || key !in env.pvcs || PROVISIONER_ANNOTATION in env.pvcs[key].annotations {
          PodPVCsExactIff(env, namespace, rest, tick + 1);
        } else {
          PodPVCsExactIff(env, namespace, rest, tick + 2);
        }
      }
    }
  }

  predicate NamesVolume(pvc: PVC, key: ObjectKey) {
    pvc.volumeName != "" && key == ObjectKey(pvc.namespace, pvc.volumeName)
  }

  /**
    Some claim that names the volume has the driver annotation, or has none and a
    PV with the driver whose read, at its own tick, answers.
   */
  predicate Answered(env: Env, namespace: string, claims: seq<Option<string>>, tick: nat, key: ObjectKey)
    decreases |claims|
  {
    if claims == [] then false
    else if !NamesClaim(claims[0]) then Answered(env, namespace, claims[1..], tick, key)
    else
      var name := ObjectKey(namespace, claims[0].value);
      if env.fails(tick) || name !in env.pvcs then Answered(env, namespace, claims[1..], tick + 1, key)
      else if PROVISIONER_ANNOTATION in env.pvcs[name].annotations then
        || (env.pvcs[name].annotations[PROVISIONER_ANNOTATION] == DRIVER_NAME && NamesVolume(env.pvcs[name], key))
        || Answered(env, namespace, claims[1..], tick + 1, key)
      else
        || (UsesDriver(env, env.pvcs[name].volumeName) && !env.pvReadFails(tick + 1) && NamesVolume(env.pvcs[name], key))
        || Answered(env, namespace, claims[1..], tick + 2, key)
  }

  /** The volumes found are exactly those answered for. */
  lemma {:induction false} AnsweredIff(env: Env, namespace: string, claims: seq<Option<string>>, tick: nat, key: ObjectKey)
    ensures key in BoundKeys(PodPVCs(env, namespace, claims, tick).pvcs) <==> Answered(env, namespace, claims, tick, key)
    decreases |claims|
  {
    if claims != [] {
      AnsweredIff(env, namespace, claims[1..], tick, key);
      AnsweredIff(env, namespace, claims[1..], tick + 1, key);
      AnsweredIff(env, namespace, claims[1..], tick + 2, key);
    }
  }

  /** Without failing reads, selection fails exactly when a claim is not stored. */
  lemma {:induction false} PodPVCsFailsIff(env: Env, pod: Pod, claims: seq<Option<string>>, tick: nat)
    requires forall t :: !env.fails(t)
    ensures PodPVCs(env, pod.namespace, claims, tick).failed <==>
            exists c | c in claims :: NamesClaim(c) && ObjectKey(pod.namespace, c.value) !in env.pvcs
    decreases |claims|
  {
    if claims != [] {
      forall t: nat { PodPVCsFailsIff(env, pod, claims[1..], t); }
      assert claims == [claims[0]] + claims[1..];
    }
  }

  /******* Trace safety *******/

  /** The labels ask for fencing: the fencing label is there and says so. */
  predicate OptedIn(labels: map<string, string>) {
    && "storageos.com/fenced" in labels
    && labels["storageos.com/fenced"] in {"1", "t", "T", "TRUE", "true", "True"}
  }

  /** A label that does not parse, or parses as false, does not count. */
  lemma FencingLabelIff(pod: Pod)
    ensures HasFencingLabel(pod) <==> OptedIn(pod.labels)
  {
  }

  /** The pod runs on the node, opted in and has a bound StorageOS claim. */
  predicate IsTarget(env: Env, node: string, pod: Pod) {
    && pod.nodeName == node && OptedIn(pod.labels)
    && exists pvc | pvc in StorageosClaims(env, pod) :: pvc.volumeName != ""
  }

  lemma BoundClaimIff(pvcs: seq<PVC>)
    ensures BoundKeys(pvcs) != [] <==> exists pvc | pvc in pvcs :: pvc.volumeName != ""
  {
    if BoundKeys(pvcs) != [] {
      BoundKeysMember(pvcs, BoundKeys(pvcs)[0]);
    }
    if pvc :| pvc in pvcs && pvc.volumeName != "" {
      BoundKeysMember(pvcs, ObjectKey(pvc.namespace, pvc.volumeName));
    }
  }

  /** The volumes of the claims that the call beginning at the given tick found. */
  function FoundKeys(env: Env, pod: Pod, call: nat): seq<ObjectKey> {
    BoundKeys(PodPVCs(env, pod.namespace, pod.claims, call).pvcs)
  }

  /** What must precede an event: the given events have happened before it. */
  ghost predicate SafeEvent(env: Env, node: string, before: seq<Event>, event: Event) {
    match event
    case VolumeRead(_, _, _) => true
    case PodDeleted(call, pod) =>
      && IsTarget(env, node, pod)
      && !PodPVCs(env, pod.namespace, pod.claims, call).failed
      && (forall key | key in FoundKeys(env, pod, call) :: VolumeRead(call, key, Healthy) in before)
      && (forall e | e in before && e.VolumeRead? && e.call == call :: e.key in FoundKeys(env, pod, call))
    case AttachmentDeleted(call, a) =>
      && a.nodeName == node && a.attacher == "csi.storageos.com"
      && exists pod :: PodDeleted(call, pod) in before && ClaimsPV(env, pod, a.pvName)
  }

  predicate ClaimsPV(env: Env, pod: Pod, pv: string) {
    exists pvc | pvc in StorageosClaims(env, pod) :: pvc.volumeName == pv
  }

  ghost predicate SafeTrace(env: Env, node: string, trace: seq<Event>) {
    forall i | 0 <= i < |trace| :: SafeEvent(env, node, trace[..i], trace[i])
  }

  /** Calls lie in the past, so that each has a tick of its own. */
  ghost predicate SafeWorld(env: Env, node: string, w: World) {
    SafeTrace(env, node, w.trace) && forall e | e in w.trace :: e.call < w.tick
  }

  /** All StorageOS volumes of the pod were read healthy in the call. */
  ghost predicate AllChecked(env: Env, before: seq<Event>, call: nat, pod: Pod) {
    forall key | key in BoundKeys(StorageosClaims(env, pod)) :: VolumeRead(call, key, Healthy) in before
  }

  /**
    A deletion comes after healthy reads of all StorageOS volumes of the pod if
    and only if each of them is named by a claim with the driver annotation or by
    one whose PV read answered, as is the case when all reads of PVs with the
    StorageOS driver answered.
   */
  lemma DeletionCheckedIff(env: Env, node: string, before: seq<Event>, call: nat, pod: Pod)
    requires SafeEvent(env, node, before, PodDeleted(call, pod))
    ensures AllChecked(env, before, call, pod) <==>
            forall key | key in BoundKeys(StorageosClaims(env, pod)) ::
              Answered(env, pod.namespace, pod.claims, call, key)
    ensures DriverReadsAnswer(env, pod.namespace, pod.claims, call) ==> AllChecked(env, before, call, pod)
  {
    PodPVCsExactIff(env, pod.namespace, pod.claims, call);
    forall key
      ensures key in FoundKeys(env, pod, call) <==> Answered(env, pod.namespace, pod.claims, call, key)
    {
      AnsweredIff(env, pod.namespace, pod.claims, call, key);
    }
    hide PodPVCs, StoredClaims, IsStorageosPVC, Answered;
    if AllChecked(env, before, call, pod) {
      forall key | key in BoundKeys(StorageosClaims(env, pod)) ensures key in FoundKeys(env, pod, call) {
        assert VolumeRead(call, key, Healthy).call == call;
      }
    }
  }

  lemma SafeSnoc(env: Env, node: string, w: World, event: Event, w': World)
    requires SafeWorld(env, node, w) && SafeEvent(env, node, w.trace, event)
    requires event.call < w'.tick && w.tick <= w'.tick && w'.trace == w.trace + [event]
    ensures SafeWorld(env, node, w')
  {
    var trace := w.trace;
    hide SafeEvent;
    forall i | 0 <= i < |w'.trace| ensures SafeEvent(env, node, w'.trace[..i], w'.trace[i]) {
      assert w'.trace[..i] == trace[..i];
      if i == |trace| {
        assert trace[..i] == trace;
      }
    }
  }

  lemma SafeLater(env: Env, node: string, w: World, tick: nat)
    requires SafeWorld(env, node, w) && w.tick <= tick
    ensures SafeWorld(env, node, w.(tick := tick))
  {
  }

  lemma {:induction false} StosVolumesSafe(env: Env, node: string, w: World, keys: seq<ObjectKey>, call: nat)
    requires SafeWorld(env, node, w) && call <= w.tick
    ensures var v := StosVolumes(env, w, keys, call);
            w.tick <= v.w.tick && v.w.pods == w.pods && SafeWorld(env, node, v.w)
    decreases |keys|
  {
    if keys != [] {
      var (w1, state) := ReadVolume(env, w, keys[0], call);
      SafeSnoc(env, node, w, VolumeRead(call, keys[0], state), w1);
      hide SafeWorld;
      StosVolumesSafe(env, node, w1, keys[1..], call);
    }
  }

  /** Only the given volumes are read, and no event is forgotten. */
  lemma {:induction false} StosVolumesReads(env: Env, w: World, keys: seq<ObjectKey>, call: nat, e: Event)
    ensures var v := StosVolumes(env, w, keys, call);
            && (e in w.trace ==> e in v.w.trace)
            && (e in v.w.trace ==> e in w.trace || (e.VolumeRead? && e.key in keys))
    decreases |keys|
  {
    if keys != [] {
      var (w1, state) := ReadVolume(env, w, keys[0], call);
      StosVolumesReads(env, w1, keys[1..], call, e);
    }
  }

  lemma {:induction false} StosVolumesHealthy(env: Env, w: World, keys: seq<ObjectKey>, call: nat, key: ObjectKey)
    requires CanFailover(StosVolumes(env, w, keys, call)) && key in keys
    ensures VolumeRead(call, key, Healthy) in StosVolumes(env, w, keys, call).w.trace
    decreases |keys|
  {
    var (w1, state) := ReadVolume(env, w, keys[0], call);
    var v, rest := StosVolumes(env, w, keys, call), StosVolumes(env, w1, keys[1..], call);
    assert v.states == [state] + rest.states;
    assert state in v.states && forall s | s in rest.states :: s in v.states;
    if key == keys[0] {
      StosVolumesReads(env, w1, keys[1..], call, VolumeRead(call, key, Healthy));
    } else {
      StosVolumesHealthy(env, w1, keys[1..], call, key);
    }
  }

  lemma {:induction false} PvcAttachmentFound(pvc: PVC, listed: seq<Attachment>)
    ensures var a := PvcAttachment(pvc, listed);
            a.Some? ==> a.value in listed && a.value.pvName == pvc.volumeName
    ensures PvcAttachment(pvc, listed).None? ==> forall a | a in listed :: a.pvName != pvc.volumeName
  {
    if listed != [] {
      PvcAttachmentFound(pvc, listed[1..]);
      assert listed == [listed[0]] + listed[1..];
    }
  }

  lemma {:induction false} DeleteAttachmentsSafe(
    env: Env, node: string, w: World, pvcs: seq<PVC>, listed: seq<Attachment>, call: nat, pod: Pod)
    requires SafeWorld(env, node, w) && PodDeleted(call, pod) in w.trace && call < w.tick
    requires forall pvc | pvc in pvcs :: pvc in StorageosClaims(env, pod)
    requires forall a | a in listed :: a.nodeName == node
    ensures var w' := DeleteAttachments(env, w, pvcs, listed, call);
            w'.pods == w.pods && w.tick <= w'.tick && SafeWorld(env, node, w')
    decreases |pvcs|
  {
    if pvcs != [] {
      PvcAttachmentFound(pvcs[0], listed);
      var found := PvcAttachment(pvcs[0], listed);
      var w1 := w;
      if found.Some? && found.value.attacher == DRIVER_NAME {
        w1 := DeleteAttachment(env, w, found.value, call);
        assert pvcs[0] in StorageosClaims(env, pod);
        assert ClaimsPV(env, pod, found.value.pvName);
        SafeLater(env, node, w, w.tick + 1);
        if w1.trace != w.trace {
          SafeSnoc(env, node, w, AttachmentDeleted(call, found.value), w1);
        }
      }
      hide SafeWorld, StorageosClaims;
      DeleteAttachmentsSafe(env, node, w1, pvcs[1..], listed, call, pod);
    }
  }

  /** A pod is deleted only after its volumes have been checked. */
  lemma DeletionSafe(env: Env, node: string, w: World, pod: Pod)
    requires SafeWorld(env, node, w) && IsTarget(env, node, pod)
    requires var claims := PodPVCs(env, pod.namespace, pod.claims, w.tick);
             var volumes := StosVolumes(env, w.(tick := claims.tick), BoundKeys(claims.pvcs), w.tick);
             !claims.failed && CanFailover(volumes)
    ensures var claims := PodPVCs(env, pod.namespace, pod.claims, w.tick);
            var volumes := StosVolumes(env, w.(tick := claims.tick), BoundKeys(claims.pvcs), w.tick);
            SafeEvent(env, node, volumes.w.trace, PodDeleted(w.tick, pod))
  {
    var claims := PodPVCs(env, pod.namespace, pod.claims, w.tick);
    var keys, w0 := BoundKeys(claims.pvcs), w.(tick := claims.tick);
    forall key | key in keys { StosVolumesHealthy(env, w0, keys, w.tick, key); }
    forall e { StosVolumesReads(env, w0, keys, w.tick, e); }
    hide SafeTrace, IsTarget, PodPVCs, StosVolumes, BoundKeys;
  }

  lemma DeletePodSafe(env: Env, node: string, w: World, pod: Pod, call: nat)
    requires SafeWorld(env, node, w) && call <= w.tick && SafeEvent(env, node, w.trace, PodDeleted(call, pod))
    ensures var (w', deleted) := DeletePod(env, w, pod, call);
            && SafeWorld(env, node, w') && call < w'.tick
            && (deleted ==> PodDeleted(call, pod) in w'.trace)
  {
    var (w', deleted) := DeletePod(env, w, pod, call);
    hide SafeWorld, SafeEvent, RemovePod, Present;
    if deleted {
      SafeSnoc(env, node, w, PodDeleted(call, pod), w');
    } else {
      SafeLater(env, node, w, w.tick + 1);
    }
  }

  lemma FencePodSafe(env: Env, node: string, w: World, pod: Pod, listed: seq<Attachment>)
    requires SafeWorld(env, node, w) && IsTarget(env, node, pod)
    requires forall a | a in listed :: a.nodeName == node
    ensures SafeWorld(env, node, FencePod(env, w, pod, listed))
  {
    var claims := PodPVCs(env, pod.namespace, pod.claims, w.tick);
    PodPVCsExactIff(env, pod.namespace, pod.claims, w.tick);
    assert forall pvc | pvc in claims.pvcs :: pvc in StorageosClaims(env, pod);
    hide SafeWorld, StorageosClaims, IsTarget, PodPVCs, SafeEvent, BoundKeys, StosVolumes, DeleteAttachments, DeletePod, CanFailover;
    SafeLater(env, node, w, claims.tick);
    if !claims.failed {
      var keys := BoundKeys(claims.pvcs);
      StosVolumesSafe(env, node, w.(tick := claims.tick), keys, w.tick);
      var volumes := StosVolumes(env, w.(tick := claims.tick), keys, w.tick);
      var w1 := volumes.w;
      if CanFailover(volumes) {
        DeletionSafe(env, node, w, pod);
        DeletePodSafe(env, node, w1, pod, w.tick);
        var (w2, deleted) := DeletePod(env, w1, pod, w.tick);
        if deleted {
          DeleteAttachmentsSafe(env, node, w2, claims.pvcs, listed, w.tick, pod);
        }
      }
    }
  }

  lemma {:induction false} AnsweringReads(env: Env, namespace: string, claims: seq<Option<string>>, tick: nat)
    requires forall t :: !env.pvReadFails(t)
    ensures DriverReadsAnswer(env, namespace, claims, tick)
    decreases |claims|
  {
    if claims != [] {
      forall t: nat { AnsweringReads(env, namespace, claims[1..], t); }
    }
  }

  /** Selection picks targets only, whatever fails. */
  lemma {:induction false} SelectedAreTargets(env: Env, node: string, listed: seq<Pod>, tick: nat)
    requires forall p | p in listed :: p.nodeName == node
    ensures forall p | p in SelectPods(env, listed, tick).pods :: p in listed && IsTarget(env, node, p)
    ensures tick <= SelectPods(env, listed, tick).tick
    decreases |listed|
  {
    if listed != [] {
      var pod := listed[0];
      var claims := PodPVCs(env, pod.namespace, pod.claims, tick);
      PodPVCsExactIff(env, pod.namespace, pod.claims, tick);
      FencingLabelIff(pod);
      BoundClaimIff(claims.pvcs);
      hide PodPVCs, StorageosClaims, BoundKeys, OptedIn, HasFencingLabel;
      SelectedAreTargets(env, node, listed[1..], tick);
      SelectedAreTargets(env, node, listed[1..], claims.tick);
    }
  }

  lemma {:induction false} BoundKeysMember(pvcs: seq<PVC>, key: ObjectKey)
    ensures key in BoundKeys(pvcs) <==>
            exists pvc | pvc in pvcs :: pvc.volumeName != "" && key == ObjectKey(pvc.namespace, pvc.volumeName)
  {
    if pvcs != [] {
      BoundKeysMember(pvcs[1..], key);
      assert pvcs == [pvcs[0]] + pvcs[1..];
    }
  }

  lemma {:induction false} FencePodsSafe(env: Env, node: string, w: World, targets: seq<Pod>, listed: seq<Attachment>)
    requires SafeWorld(env, node, w)
    requires forall p | p in targets :: IsTarget(env, node, p)
    requires forall a | a in listed :: a.nodeName == node
    ensures SafeWorld(env, node, FencePods(env, w, targets, listed))
    decreases |targets|
  {
    if targets != [] {
      FencePodSafe(env, node, w, targets[0], listed);
      hide FencePod, SafeWorld, IsTarget;
      FencePodsSafe(env, node, FencePod(env, w, targets[0], listed), targets[1..], listed);
    }
  }

  lemma SelectionTargets(env: Env, node: string, w: World)
    ensures var targets := GetTargetPods(env, w, node);
            && w.tick <= targets.tick
            && forall p | p in targets.pods :: p in w.pods && IsTarget(env, node, p)
  {
    forall p ensures p in PodsOn(w.pods, node) <==> p in w.pods && p.nodeName == node {
      FilterMember(w.pods, (p: Pod) => p.nodeName == node, p);
    }
    SelectedAreTargets(env, node, PodsOn(w.pods, node), w.tick + 1);
    hide IsTarget, SelectPods, PodsOn;
  }

  lemma SelectionSafe(env: Env, node: string, w: World)
    requires SafeWorld(env, node, w)
    ensures var targets := GetTargetPods(env, w, node);
            && SafeWorld(env, node, w.(tick := targets.tick))
            && forall p | p in targets.pods :: IsTarget(env, node, p)
  {
    SelectionTargets(env, node, w);
    hide SafeTrace, IsTarget, GetTargetPods;
  }

  lemma FenceNodeSafe(env: Env, node: string, w: World)
    requires SafeWorld(env, node, w)
    ensures SafeWorld(env, node, FenceNode(env, w, node))
  {
    var listed := AttachmentsOn(w.attachments, node);
    forall a | a in listed ensures a.nodeName == node {
      FilterMember(w.attachments, (a: Attachment) => a.nodeName == node, a);
    }
    hide SafeWorld, IsTarget, GetTargetPods, AttachmentsOn;
    SafeLater(env, node, w, w.tick + 1);
    var w1 := w.(tick := w.tick + 1);
    SelectionSafe(env, node, w1);
    var targets := GetTargetPods(env, w1, node);
    FencePodsSafe(env, node, w.(tick := targets.tick), targets.pods, listed);
  }

  lemma CheckSafe(env: Env, node: string, w: World, cached: Option<Node>)
    requires SafeWorld(env, node, w)
    ensures SafeWorld(env, node, Check(env, w, node, cached).w)
  {
    SelectionSafe(env, node, w);
  }

  lemma {:induction false} RetrySafe(env: Env, node: string, w: World, readings: seq<Option<Node>>)
    requires SafeWorld(env, node, w)
    ensures SafeWorld(env, node, Retry(env, w, node, readings))
    decreases |readings|
  {
    if readings != [] {
      hide SafeWorld, FenceNode, Check;
      CheckSafe(env, node, w, readings[0]);
      var check := Check(env, w, node, readings[0]);
      FenceNodeSafe(env, node, check.w);
      RetrySafe(env, node, check.w, readings[1..]);
      RetrySafe(env, node, FenceNode(env, check.w, node), readings[1..]);
    }
  }

  /**
    Trace safety: in every run of first pass, checks and repeated passes, in
    which any call may fail and volumes may change health at any time, every
    deleted pod was a target, and the volumes read in its call were exactly
    those of the claims found there, all healthy; every deleted attachment was a
    StorageOS attachment on the fenced node of a PV claimed by the pod that the
    same call had deleted before.
   */
  lemma RunActionSafe(env: Env, node: string, w: World, readings: seq<Option<Node>>)
    requires w.trace == []
    ensures SafeTrace(env, node, RunAction(env, w, node, readings).trace)
  {
    FenceNodeSafe(env, node, w);
    RetrySafe(env, node, FenceNode(env, w, node), readings);
  }

  /** If reads of PVs answer, every pod deleted in the run had all its StorageOS volumes read healthy in the same call. */
  lemma AnsweringRunChecked(env: Env, node: string, w: World, readings: seq<Option<Node>>)
    requires w.trace == [] && forall t :: !env.pvReadFails(t)
    ensures var trace := RunAction(env, w, node, readings).trace;
            forall i | 0 <= i < |trace| && trace[i].PodDeleted? ::
              IsTarget(env, node, trace[i].pod) && AllChecked(env, trace[..i], trace[i].call, trace[i].pod)
  {
    RunActionSafe(env, node, w, readings);
    var trace := RunAction(env, w, node, readings).trace;
    hide RunAction, IsTarget, AllChecked;
    forall i | 0 <= i < |trace| && trace[i].PodDeleted?
      ensures IsTarget(env, node, trace[i].pod) && AllChecked(env, trace[..i], trace[i].call, trace[i].pod)
    {
      assert SafeEvent(env, node, trace[..i], trace[i]);
      AnsweringReads(env, trace[i].pod.namespace, trace[i].pod.claims, trace[i].call);
      DeletionCheckedIff(env, node, trace[..i], trace[i].call, trace[i].pod);
    }
  }
}
