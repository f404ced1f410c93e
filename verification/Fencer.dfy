/**
  The pod fencer of controllers/fencer/fencer.go as functions on values.

  PVCs and PVs do not change during a run. Every call to the Kubernetes API or
  to the control plane takes one tick; which calls fail, and in which state a
  volume is found at which tick, are inputs.
 */
module Fencer {
  import opened Common
  import opened Strconv

  const FENCING_LABEL := "storageos.com/fenced"
  const PROVISIONER_ANNOTATION := "volume.beta.kubernetes.io/storage-provisioner"

  /** `claims` has one element per volume of the pod: the claim it names, if it is a claim. */
  datatype Pod = Pod(namespace: string, name: string, nodeName: string, labels: map<string, string>, claims: seq<Option<string>>)
  {
    function Key(): ObjectKey { ObjectKey(namespace, name) }
  }

  datatype PVC = PVC(namespace: string, name: string, annotations: map<string, string>, volumeName: string)

  datatype Attachment = Attachment(name: string, nodeName: string, attacher: string, pvName: string)

  datatype VolumeState = Missing | Unhealthy | Healthy

  datatype NodeHealth = Online | Offline | Unknown

  datatype Node = Node(name: string, health: NodeHealth)

  /** `drivers` holds, for each PV, its CSI driver, if it has one. */
  datatype Env = Env(
    pvcs: map<ObjectKey, PVC>,
    drivers: map<string, Option<string>>,
    fails: nat -> bool,
    pvReadFails: nat -> bool,
    volume: (nat, ObjectKey) -> VolumeState)

  /** The events of one `fencePod` call carry the tick at which it began. */
  datatype Event =
    | VolumeRead(call: nat, key: ObjectKey, state: VolumeState)
    | PodDeleted(call: nat, pod: Pod)
    | AttachmentDeleted(call: nat, attachment: Attachment)

  datatype World = World(tick: nat, pods: seq<Pod>, attachments: seq<Attachment>, trace: seq<Event>)

  /******* Selection *******/

  predicate HasFencingLabel(pod: Pod) {
    FENCING_LABEL in pod.labels && ParseBool(pod.labels[FENCING_LABEL]) == Some(true)
  }

  datatype Claims = Claims(pvcs: seq<PVC>, failed: bool, tick: nat)

  /**
    The StorageOS claims among the volumes of a pod. A failed PVC read is an
    error; a failed PV read drops the claim.
   */
  function PodPVCs(env: Env, namespace: string, claims: seq<Option<string>>, tick: nat): Claims
    decreases |claims|
  {
    if claims == [] then Claims([], false, tick)
    else if claims[0] == None || claims[0] == Some("") then PodPVCs(env, namespace, claims[1..], tick)
    else
      var key := ObjectKey(namespace, claims[0].value);
      if env.fails(tick) || key !in env.pvcs then
        PodPVCs(env, namespace, claims[1..], tick + 1).(failed := true)
      else
        var pvc := env.pvcs[key];
        if PROVISIONER_ANNOTATION in pvc.annotations then
          var rest := PodPVCs(env, namespace, claims[1..], tick + 1);
          if pvc.annotations[PROVISIONER_ANNOTATION] == DRIVER_NAME then rest.(pvcs := [pvc] + rest.pvcs) else rest
        else
          var rest := PodPVCs(env, namespace, claims[1..], tick + 2);
          if !env.pvReadFails(tick + 1) && UsesDriver(env, pvc.volumeName) then rest.(pvcs := [pvc] + rest.pvcs) else rest
  }

  predicate UsesDriver(env: Env, pv: string) {
    pv in env.drivers && env.drivers[pv] == Some(DRIVER_NAME)
  }

  function BoundKeys(pvcs: seq<PVC>): seq<ObjectKey> {
    if pvcs == [] then []
    else if pvcs[0].volumeName == "" then BoundKeys(pvcs[1..])
    else [ObjectKey(pvcs[0].namespace, pvcs[0].volumeName)] + BoundKeys(pvcs[1..])
  }

  datatype Targets = Targets(pods: seq<Pod>, ok: bool, tick: nat)

  function SelectPods(env: Env, listed: seq<Pod>, tick: nat): Targets
    decreases |listed|
  {
    if listed == [] then Targets([], true, tick)
    else if !HasFencingLabel(listed[0]) then SelectPods(env, listed[1..], tick)
    else
      var claims := PodPVCs(env, listed[0].namespace, listed[0].claims, tick);
      if claims.failed then Targets([], false, claims.tick)
      else
        var rest := SelectPods(env, listed[1..], claims.tick);
        if rest.ok && BoundKeys(claims.pvcs) != [] then rest.(pods := [listed[0]] + rest.pods) else rest
  }

  function PodsOn(pods: seq<Pod>, node: string): seq<Pod> {
    Filter(pods, (p: Pod) => p.nodeName == node)
  }

  function GetTargetPods(env: Env, w: World, node: string): Targets {
    if env.fails(w.tick) then Targets([], false, w.tick + 1)
    else SelectPods(env, PodsOn(w.pods, node), w.tick + 1)
  }

  /******* Fencing *******/

  datatype Volumes = Volumes(w: World, states: seq<VolumeState>, ok: bool)

  function ReadVolume(env: Env, w: World, key: ObjectKey, call: nat): (World, VolumeState) {
    var state := if env.fails(w.tick) then Missing else env.volume(w.tick, key);
    (w.(tick := w.tick + 1, trace := w.trace + [VolumeRead(call, key, state)]), state)
  }

  /** Reads the volumes one by one and gives up at the first that is not found. */
  function StosVolumes(env: Env, w: World, keys: seq<ObjectKey>, call: nat): Volumes
    decreases |keys|
  {
    if keys == [] then Volumes(w, [], true)
    else
      var (w1, state) := ReadVolume(env, w, keys[0], call);
      if state.Missing? then Volumes(w1, [], false)
      else
        var rest := StosVolumes(env, w1, keys[1..], call);
        rest.(states := [state] + rest.states)
  }

  /** All masters are needed for a failover. */
  predicate CanFailover(v: Volumes) {
    v.ok && forall s | s in v.states :: s.Healthy?
  }

  function PvcAttachment(pvc: PVC, listed: seq<Attachment>): Option<Attachment> {
    if listed == [] then None
    else if listed[0].pvName == pvc.volumeName then Some(listed[0])
    else PvcAttachment(pvc, listed[1..])
  }

  function DeleteAttachments(env: Env, w: World, pvcs: seq<PVC>, listed: seq<Attachment>, call: nat): World
    decreases |pvcs|
  {
    if pvcs == [] then w
    else
      var found := PvcAttachment(pvcs[0], listed);
      if found.None? || found.value.attacher != DRIVER_NAME then DeleteAttachments(env, w, pvcs[1..], listed, call)
      else DeleteAttachments(env, DeleteAttachment(env, w, found.value, call), pvcs[1..], listed, call)
  }

  function DeleteAttachment(env: Env, w: World, a: Attachment, call: nat): World {
    if env.fails(w.tick) || a !in w.attachments then w.(tick := w.tick + 1)
    else World(w.tick + 1, w.pods, Filter(w.attachments, (b: Attachment) => b != a), w.trace + [AttachmentDeleted(call, a)])
  }

  function RemovePod(pods: seq<Pod>, key: ObjectKey): seq<Pod> {
    Filter(pods, (p: Pod) => p.Key() != key)
  }

  function FencePod(env: Env, w: World, pod: Pod, listed: seq<Attachment>): World {
    var claims := PodPVCs(env, pod.namespace, pod.claims, w.tick);
    if claims.failed then w.(tick := claims.tick)
    else
      var volumes := StosVolumes(env, w.(tick := claims.tick), BoundKeys(claims.pvcs), w.tick);
      var w1 := volumes.w;
      if !CanFailover(volumes) then w1
      else
        var (w2, deleted) := DeletePod(env, w1, pod, w.tick);
        if deleted then DeleteAttachments(env, w2, claims.pvcs, listed, w.tick) else w2
  }

  function DeletePod(env: Env, w: World, pod: Pod, call: nat): (World, bool) {
    if env.fails(w.tick) || !Present(w.pods, pod.Key()) then (w.(tick := w.tick + 1), false)
    else (World(w.tick + 1, RemovePod(w.pods, pod.Key()), w.attachments, w.trace + [PodDeleted(call, pod)]), true)
  }

  predicate Present(pods: seq<Pod>, key: ObjectKey) {
    exists p | p in pods :: p.Key() == key
  }

  function FencePods(env: Env, w: World, targets: seq<Pod>, listed: seq<Attachment>): World
    decreases |targets|
  {
    if targets == [] then w else FencePods(env, FencePod(env, w, targets[0], listed), targets[1..], listed)
  }

  function AttachmentsOn(attachments: seq<Attachment>, node: string): seq<Attachment> {
    Filter(attachments, (a: Attachment) => a.nodeName == node)
  }

  function FenceNode(env: Env, w: World, node: string): World {
    if env.fails(w.tick) then w.(tick := w.tick + 1)
    else
      var listed := AttachmentsOn(w.attachments, node);
      var w1 := w.(tick := w.tick + 1);
      var targets := GetTargetPods(env, w1, node);
      var w2 := w1.(tick := targets.tick);
      if !targets.ok then w2 else FencePods(env, w2, targets.pods, listed)
  }

  /******* Run and Check *******/

  datatype CheckResult = CheckResult(rerun: bool, error: bool, w: World)

  function Check(env: Env, w: World, node: string, cached: Option<Node>): CheckResult {
    if cached.None? then CheckResult(true, true, w)
    else if !cached.value.health.Offline? then CheckResult(false, false, w)
    else
      var targets := GetTargetPods(env, w, node);
      var w1 := w.(tick := targets.tick);
      if !targets.ok then CheckResult(true, true, w1) else CheckResult(targets.pods != [], false, w1)
  }

  /** The retry rounds that follow the first run: one cache reading each, until done or timed out. */
  function Retry(env: Env, w: World, node: string, readings: seq<Option<Node>>): World
    decreases |readings|
  {
    if readings == [] then w
    else
      var check := Check(env, w, node, readings[0]);
      if check.error then Retry(env, check.w, node, readings[1..])
      else if check.rerun then Retry(env, FenceNode(env, check.w, node), node, readings[1..])
      else check.w
  }

  function RunAction(env: Env, w: World, node: string, readings: seq<Option<Node>>): World {
    Retry(env, FenceNode(env, w, node), node, readings)
  }
}
