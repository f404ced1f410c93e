/** What checks and reruns achieve once calls answer and health is steady, whatever has failed before. */
module FencerEventually {
  import opened Common
  import opened Fencer
  import opened FencerProofs
  import opened FencerPass

  /******* Runs depend on the environment from their own tick on *******/

  ghost predicate Agree(env: Env, env': Env, from: nat) {
    && env'.pvcs == env.pvcs && env'.drivers == env.drivers
    && (forall t | from <= t :: env'.fails(t) == env.fails(t))
    && (forall t | from <= t :: env'.pvReadFails(t) == env.pvReadFails(t))
    && (forall t, k | from <= t :: env'.volume(t, k) == env.volume(t, k))
  }

  lemma {:induction false} ClaimsAgree(env: Env, env': Env, from: nat, namespace: string, claims: seq<Option<string>>, tick: nat)
    requires Agree(env, env', from) && from <= tick
    ensures PodPVCs(env', namespace, claims, tick) == PodPVCs(env, namespace, claims, tick)
    ensures tick <= PodPVCs(env, namespace, claims, tick).tick
    decreases |claims|
  {
    if claims != [] {
      ClaimsAgree(env, env', from, namespace, claims[1..], tick);
      ClaimsAgree(env, env', from, namespace, claims[1..], tick + 1);
      ClaimsAgree(env, env', from, namespace, claims[1..], tick + 2);
    }
  }

  lemma {:induction false} SelectionAgrees(env: Env, env': Env, from: nat, listed: seq<Pod>, tick: nat)
    requires Agree(env, env', from) && from <= tick
    ensures SelectPods(env', listed, tick) == SelectPods(env, listed, tick)
    ensures tick <= SelectPods(env, listed, tick).tick
    decreases |listed|
  {
    if listed != [] {
      ClaimsAgree(env, env', from, listed[0].namespace, listed[0].claims, tick);
      hide PodPVCs, Agree, BoundKeys, HasFencingLabel;
      SelectionAgrees(env, env', from, listed[1..], tick);
      SelectionAgrees(env, env', from, listed[1..], PodPVCs(env, listed[0].namespace, listed[0].claims, tick).tick);
    }
  }

  lemma TargetsAgree(env: Env, env': Env, from: nat, w: World, node: string)
    requires Agree(env, env', from) && from <= w.tick
    ensures GetTargetPods(env', w, node) == GetTargetPods(env, w, node)
    ensures w.tick <= GetTargetPods(env, w, node).tick
  {
    SelectionAgrees(env, env', from, PodsOn(w.pods, node), w.tick + 1);
    hide SelectPods, PodsOn;
  }

  lemma {:induction false} VolumesAgree(env: Env, env': Env, from: nat, w: World, keys: seq<ObjectKey>, call: nat)
    requires Agree(env, env', from) && from <= w.tick
    ensures StosVolumes(env', w, keys, call) == StosVolumes(env, w, keys, call)
    ensures w.tick <= StosVolumes(env, w, keys, call).w.tick
    decreases |keys|
  {
    if keys != [] {
      assert ReadVolume(env', w, keys[0], call) == ReadVolume(env, w, keys[0], call);
      hide Agree;
      VolumesAgree(env, env', from, ReadVolume(env, w, keys[0], call).0, keys[1..], call);
    }
  }

  lemma {:induction false} DetachingAgrees(
    env: Env, env': Env, from: nat, w: World, pvcs: seq<PVC>, listed: seq<Attachment>, call: nat)
    requires Agree(env, env', from) && from <= w.tick
    ensures DeleteAttachments(env', w, pvcs, listed, call) == DeleteAttachments(env, w, pvcs, listed, call)
    ensures w.tick <= DeleteAttachments(env, w, pvcs, listed, call).tick
    decreases |pvcs|
  {
    if pvcs != [] {
      var found := PvcAttachment(pvcs[0], listed);
      var w1 := if found.Some? && found.value.attacher == DRIVER_NAME then DeleteAttachment(env, w, found.value, call) else w;
      DetachingAgrees(env, env', from, w1, pvcs[1..], listed, call);
    }
  }

  lemma FencePodAgrees(env: Env, env': Env, from: nat, w: World, pod: Pod, listed: seq<Attachment>)
    requires Agree(env, env', from) && from <= w.tick
    ensures FencePod(env', w, pod, listed) == FencePod(env, w, pod, listed)
    ensures w.tick <= FencePod(env, w, pod, listed).tick
  {
    ClaimsAgree(env, env', from, pod.namespace, pod.claims, w.tick);
    hide PodPVCs, StosVolumes, DeleteAttachments, BoundKeys, CanFailover, RemovePod, Present;
    var claims := PodPVCs(env, pod.namespace, pod.claims, w.tick);
    var w0, keys := w.(tick := claims.tick), BoundKeys(claims.pvcs);
    VolumesAgree(env, env', from, w0, keys, w.tick);
    var w1 := StosVolumes(env, w0, keys, w.tick).w;
    assert DeletePod(env', w1, pod, w.tick) == DeletePod(env, w1, pod, w.tick);
    DetachingAgrees(env, env', from, DeletePod(env, w1, pod, w.tick).0, claims.pvcs, listed, w.tick);
  }

  lemma {:induction false} FencePodsAgree(env: Env, env': Env, from: nat, w: World, targets: seq<Pod>, listed: seq<Attachment>)
    requires Agree(env, env', from) && from <= w.tick
    ensures FencePods(env', w, targets, listed) == FencePods(env, w, targets, listed)
    ensures w.tick <= FencePods(env, w, targets, listed).tick
    decreases |targets|
  {
    if targets != [] {
      hide FencePod, Agree;
      FencePodAgrees(env, env', from, w, targets[0], listed);
      FencePodsAgree(env, env', from, FencePod(env, w, targets[0], listed), targets[1..], listed);
    }
  }

  lemma PassAgrees(env: Env, env': Env, from: nat, w: World, node: string)
    requires Agree(env, env', from) && from <= w.tick
    ensures FenceNode(env', w, node) == FenceNode(env, w, node) && w.tick <= FenceNode(env, w, node).tick
  {
    assert env'.fails(w.tick) == env.fails(w.tick);
    hide Agree, GetTargetPods, FencePods, AttachmentsOn;
    var w1 := w.(tick := w.tick + 1);
    TargetsAgree(env, env', from, w1, node);
    var targets := GetTargetPods(env, w1, node);
    FencePodsAgree(env, env', from, w1.(tick := targets.tick), targets.pods, AttachmentsOn(w.attachments, node));
  }

  lemma {:induction false} RetryAgrees(env: Env, env': Env, from: nat, w: World, node: string, readings: seq<Option<Node>>)
    requires Agree(env, env', from) && from <= w.tick
    ensures Retry(env', w, node, readings) == Retry(env, w, node, readings)
    decreases |readings|
  {
    if readings != [] {
      hide Agree, FenceNode, GetTargetPods;
      TargetsAgree(env, env', from, w, node);
      var check := Check(env, w, node, readings[0]);
      PassAgrees(env, env', from, check.w, node);
      RetryAgrees(env, env', from, check.w, node, readings[1..]);
      RetryAgrees(env, env', from, FenceNode(env, check.w, node), node, readings[1..]);
    }
  }

  /******* Calm runs *******/

  /** The first reading that finds the node in the cache. */
  function FirstCached(readings: seq<Option<Node>>): Option<Node> {
    if readings == [] then None else if readings[0].Some? then readings[0] else FirstCached(readings[1..])
  }

  predicate Offline(node: Option<Node>) {
    node.Some? && node.value.health.Offline?
  }

  lemma KeptAgain(env: Env, node: string, pods: seq<Pod>)
    ensures var kept := Filter(pods, (p: Pod) => KeptByPass(env, node, p));
            Filter(kept, (p: Pod) => KeptByPass(env, node, p)) == kept
  {
    var keep := (p: Pod) => KeptByPass(env, node, p);
    hide KeptByPass;
    forall p ensures p in Filter(pods, keep) <==> p in pods && keep(p) { FilterMember(pods, keep, p); }
    FilterAll(Filter(pods, keep), keep);
  }

  /** A pass over a calm cluster, with what the next round needs. */
  lemma CalmRound(env: Env, w: World, node: string)
    requires Calm(env) && Distinct(w.pods) && Selectable(env, node, w.pods)
    ensures var w' := FenceNode(env, w, node);
            && w'.pods == Filter(w.pods, (p: Pod) => KeptByPass(env, node, p))
            && Distinct(w'.pods) && Selectable(env, node, w'.pods)
  {
    CalmPass(env, w, node);
    forall p { PassMember(env, w, node, p); }
    hide FenceNode, KeptByPass, Distinct, ClaimsStored;
  }

  /**
    Checks and reruns over a calm cluster remove exactly the healthy targets if the
    first cached reading shows the node offline, and nothing otherwise.
   */
  lemma {:induction false} CalmRetry(env: Env, w: World, node: string, readings: seq<Option<Node>>)
    requires Calm(env) && Distinct(w.pods) && Selectable(env, node, w.pods)
    ensures Retry(env, w, node, readings).pods ==
            if Offline(FirstCached(readings)) then Filter(w.pods, (p: Pod) => KeptByPass(env, node, p)) else w.pods
    decreases |readings|
  {
    if readings != [] {
      CalmCheck(env, w, node, readings[0]);
      var check := Check(env, w, node, readings[0]);
      hide Calm, Check, FenceNode, Distinct, Selectable;
      if check.error {
        CalmRetry(env, check.w, node, readings[1..]);
      } else if check.rerun {
        CalmRound(env, check.w, node);
        KeptAgain(env, node, w.pods);
        CalmRetry(env, FenceNode(env, check.w, node), node, readings[1..]);
      } else if readings[0].value.health.Offline? {
        FilterAll(w.pods, (p: Pod) => KeptByPass(env, node, p));
      }
    }
  }

  /******* Runs that become steady *******/

  /** From the given tick on every call answers, and volumes are in the given states. */
  ghost predicate Steady(env: Env, from: nat, health: ObjectKey -> VolumeState) {
    && (forall t | from <= t :: !env.fails(t) && !env.pvReadFails(t))
    && (forall t, k | from <= t :: env.volume(t, k) == health(k))
  }

  function Steadied(env: Env, health: ObjectKey -> VolumeState): Env {
    Env(env.pvcs, env.drivers, _ => false, _ => false, (_, k) => health(k))
  }

  /** A target all of whose StorageOS volumes are healthy. */
  predicate HealthyTarget(env: Env, node: string, health: ObjectKey -> VolumeState, pod: Pod) {
    IsTarget(env, node, pod) && forall key | key in BoundKeys(StorageosClaims(env, pod)) :: health(key).Healthy?
  }

  lemma {:induction false} SameStored(env: Env, health: ObjectKey -> VolumeState, namespace: string, claims: seq<Option<string>>)
    ensures StoredClaims(Steadied(env, health), namespace, claims) == StoredClaims(env, namespace, claims)
  {
    if claims != [] {
      SameStored(env, health, namespace, claims[1..]);
    }
  }

  lemma SameTarget(env: Env, node: string, health: ObjectKey -> VolumeState, pod: Pod)
    ensures var steady := Steadied(env, health);
            && StorageosClaims(steady, pod) == StorageosClaims(env, pod)
            && (ClaimsStored(steady, pod) <==> ClaimsStored(env, pod))
            && (KeptByPass(steady, node, pod) <==> !HealthyTarget(env, node, health, pod))
  {
    var steady := Steadied(env, health);
    SameStored(env, health, pod.namespace, pod.claims);
    FilterCongruent(StoredClaims(env, pod.namespace, pod.claims),
                    (pvc: PVC) => IsStorageosPVC(steady, pvc), (pvc: PVC) => IsStorageosPVC(env, pvc));
    assert StorageosClaims(steady, pod) == StorageosClaims(env, pod);
    hide StorageosClaims, OptedIn;
  }

  /**
    Whatever has happened before, once calls answer and health is steady, the rest
    of a run removes exactly the targets whose volumes are all healthy if the first
    reading that finds the node cached shows it offline, and nothing otherwise.
   */
  lemma SteadyRetry(env: Env, w: World, node: string, readings: seq<Option<Node>>, health: ObjectKey -> VolumeState)
    requires Steady(env, w.tick, health) && Distinct(w.pods) && Selectable(env, node, w.pods)
    ensures Retry(env, w, node, readings).pods ==
            if Offline(FirstCached(readings)) then Filter(w.pods, (p: Pod) => !HealthyTarget(env, node, health, p)) else w.pods
  {
    var steady := Steadied(env, health);
    RetryAgrees(env, steady, w.tick, w, node, readings);
    forall p { SameTarget(env, node, health, p); }
    hide Retry, HealthyTarget, ClaimsStored, KeptByPass, Distinct, OptedIn;
    assert Selectable(steady, node, w.pods);
    CalmRetry(steady, w, node, readings);
    FilterCongruent(w.pods, (p: Pod) => KeptByPass(steady, node, p), (p: Pod) => !HealthyTarget(env, node, health, p));
  }

  lemma FencePodDistinct(env: Env, w: World, pod: Pod, listed: seq<Attachment>)
    requires Distinct(w.pods)
    ensures Distinct(FencePod(env, w, pod, listed).pods)
  {
    var claims := PodPVCs(env, pod.namespace, pod.claims, w.tick);
    var w0, keys := w.(tick := claims.tick), BoundKeys(claims.pvcs);
    VolumesKeepPods(env, w0, keys, w.tick);
    var w2 := DeletePod(env, StosVolumes(env, w0, keys, w.tick).w, pod, w.tick).0;
    DeleteAttachmentsPods(env, w2, claims.pvcs, listed, w.tick);
    FilterDistinct(w.pods, (q: Pod) => q.Key() != pod.Key());
    hide PodPVCs, StosVolumes, DeleteAttachments, CanFailover, BoundKeys, Distinct;
  }

  lemma {:induction false} FencePodsDistinct(env: Env, w: World, targets: seq<Pod>, listed: seq<Attachment>)
    requires Distinct(w.pods)
    ensures Distinct(FencePods(env, w, targets, listed).pods)
    decreases |targets|
  {
    if targets != [] {
      hide FencePod, Distinct;
      FencePodDistinct(env, w, targets[0], listed);
      FencePodsDistinct(env, FencePod(env, w, targets[0], listed), targets[1..], listed);
    }
  }

  /**
    Whatever fails in the first pass, if calls answer and health is steady after it
    and the node is found offline, no target with healthy volumes is left when the
    run ends, and nothing but such targets has gone since.
   */
  lemma EventuallyFenced(env: Env, w: World, node: string, readings: seq<Option<Node>>, health: ObjectKey -> VolumeState)
    requires Distinct(w.pods) && Selectable(env, node, w.pods)
    requires Steady(env, FenceNode(env, w, node).tick, health) && Offline(FirstCached(readings))
    ensures forall p :: p in RunAction(env, w, node, readings).pods <==>
              p in FenceNode(env, w, node).pods && !HealthyTarget(env, node, health, p)
  {
    var w1 := FenceNode(env, w, node);
    forall p ensures p in w1.pods ==> p in w.pods { FenceNodeShrinks(env, w, node, p); }
    PassDistinct(env, w, node);
    hide FenceNode, Steady, HealthyTarget, Distinct, ClaimsStored, OptedIn;
    SteadyRetry(env, w1, node, readings, health);
    forall p { FilterMember(w1.pods, (p: Pod) => !HealthyTarget(env, node, health, p), p); }
  }

  lemma PassDistinct(env: Env, w: World, node: string)
    requires Distinct(w.pods)
    ensures Distinct(FenceNode(env, w, node).pods)
  {
    var targets := GetTargetPods(env, w.(tick := w.tick + 1), node);
    FencePodsDistinct(env, w.(tick := targets.tick), targets.pods, AttachmentsOn(w.attachments, node));
    hide GetTargetPods, FencePods, AttachmentsOn, Distinct;
  }
}
