/** A failure in one call does not keep later pods from being fenced. */
module FencerProgress {
  import opened Common
  import opened Fencer
  import opened FencerProofs
  import opened FencerPass

  /** The ticks that a call for the pod can take: two for each claim, one for each volume, one for the delete. */
  function CallTicks(pod: Pod): nat {
    3 * |pod.claims| + 1
  }

  /** From the given tick on, the reads and the delete of one call answer and find every volume healthy. */
  ghost predicate CallAnswers(env: Env, pod: Pod, tick: nat) {
    && ClaimsStored(env, pod)
    && Answering(env, tick, CallTicks(pod))
    && HealthyDuring(env, BoundKeys(StorageosClaims(env, pod)), tick, CallTicks(pod))
  }

  ghost predicate Answering(env: Env, tick: nat, n: nat) {
    forall t | tick <= t < tick + n :: !env.fails(t)
  }

  ghost predicate HealthyDuring(env: Env, keys: seq<ObjectKey>, tick: nat, n: nat) {
    forall t, key | tick <= t < tick + n && key in keys :: env.volume(t, key).Healthy?
  }

  lemma {:induction false} ClaimsAnswer(env: Env, namespace: string, claims: seq<Option<string>>, tick: nat)
    requires forall c | c in claims && NamesClaim(c) :: ObjectKey(namespace, c.value) in env.pvcs
    requires Answering(env, tick, 2 * |claims|)
    ensures var found := PodPVCs(env, namespace, claims, tick);
            !found.failed && tick <= found.tick <= tick + 2 * |claims| && |BoundKeys(found.pvcs)| <= |claims|
    decreases |claims|
  {
    if claims != [] {
      assert claims[0] in claims && forall c | c in claims[1..] :: c in claims;
      if !NamesClaim(claims[0]) {
        ClaimsAnswer(env, namespace, claims[1..], tick);
      } else {
        assert !env.fails(tick);
        var annotated := PROVISIONER_ANNOTATION in env.pvcs[ObjectKey(namespace, claims[0].value)].annotations;
        ClaimsAnswer(env, namespace, claims[1..], if annotated then tick + 1 else tick + 2);
      }
    }
  }

  lemma {:induction false} VolumesAnswer(env: Env, w: World, keys: seq<ObjectKey>, call: nat)
    requires Answering(env, w.tick, |keys|) && HealthyDuring(env, keys, w.tick, |keys|)
    ensures var v := StosVolumes(env, w, keys, call);
            CanFailover(v) && v.w.tick == w.tick + |keys| && v.w.pods == w.pods
    decreases |keys|
  {
    if keys != [] {
      var (w1, state) := ReadVolume(env, w, keys[0], call);
      assert keys[0] in keys && forall key | key in keys[1..] :: key in keys;
      assert !env.fails(w.tick) && env.volume(w.tick, keys[0]).Healthy?;
      VolumesAnswer(env, w1, keys[1..], call);
      var rest := StosVolumes(env, w1, keys[1..], call);
      assert forall s | s in [state] + rest.states :: s == state || s in rest.states;
    }
  }

  lemma FoundAmongClaims(env: Env, pod: Pod, call: nat)
    ensures forall key | key in FoundKeys(env, pod, call) :: key in BoundKeys(StorageosClaims(env, pod))
  {
    PodPVCsExactIff(env, pod.namespace, pod.claims, call);
    var found := PodPVCs(env, pod.namespace, pod.claims, call).pvcs;
    forall key | key in FoundKeys(env, pod, call) ensures key in BoundKeys(StorageosClaims(env, pod)) {
      BoundKeysMember(found, key);
      BoundKeysMember(StorageosClaims(env, pod), key);
    }
  }

  /** A call that is answered deletes its pod. */
  lemma AnsweredCallDeletes(env: Env, w: World, pod: Pod, listed: seq<Attachment>)
    requires CallAnswers(env, pod, w.tick) && Present(w.pods, pod.Key())
    ensures PodDeleted(w.tick, pod) in FencePod(env, w, pod, listed).trace
  {
    ClaimsAnswer(env, pod.namespace, pod.claims, w.tick);
    FoundAmongClaims(env, pod, w.tick);
    var claims := PodPVCs(env, pod.namespace, pod.claims, w.tick);
    var keys, w0 := BoundKeys(claims.pvcs), w.(tick := claims.tick);
    assert Answering(env, w0.tick, |keys|) && HealthyDuring(env, keys, w0.tick, |keys|);
    VolumesAnswer(env, w0, keys, w.tick);
    var (w2, deleted) := DeletePod(env, StosVolumes(env, w0, keys, w.tick).w, pod, w.tick);
    assert deleted;
    AttachmentsTraceGrows(env, w2, claims.pvcs, listed, w.tick, PodDeleted(w.tick, pod));
    hide PodPVCs, StosVolumes, DeleteAttachments, CanFailover, BoundKeys;
  }

  lemma {:induction false} AttachmentsTraceGrows(
    env: Env, w: World, pvcs: seq<PVC>, listed: seq<Attachment>, call: nat, e: Event)
    requires e in w.trace
    ensures e in DeleteAttachments(env, w, pvcs, listed, call).trace
    decreases |pvcs|
  {
    if pvcs != [] {
      var found := PvcAttachment(pvcs[0], listed);
      var w1 := if found.Some? && found.value.attacher == DRIVER_NAME then DeleteAttachment(env, w, found.value, call) else w;
      AttachmentsTraceGrows(env, w1, pvcs[1..], listed, call, e);
    }
  }

  lemma TraceGrows(env: Env, w: World, pod: Pod, listed: seq<Attachment>, e: Event)
    requires e in w.trace
    ensures e in FencePod(env, w, pod, listed).trace
  {
    var claims := PodPVCs(env, pod.namespace, pod.claims, w.tick);
    var w0, keys := w.(tick := claims.tick), BoundKeys(claims.pvcs);
    StosVolumesReads(env, w0, keys, w.tick, e);
    var (w2, deleted) := DeletePod(env, StosVolumes(env, w0, keys, w.tick).w, pod, w.tick);
    AttachmentsTraceGrows(env, w2, claims.pvcs, listed, w.tick, e);
    hide PodPVCs, StosVolumes, DeleteAttachments, CanFailover, BoundKeys;
  }

  lemma {:induction false} FencePodsTraceGrows(env: Env, w: World, targets: seq<Pod>, listed: seq<Attachment>, e: Event)
    requires e in w.trace
    ensures e in FencePods(env, w, targets, listed).trace
    decreases |targets|
  {
    if targets != [] {
      hide FencePod;
      TraceGrows(env, w, targets[0], listed, e);
      FencePodsTraceGrows(env, FencePod(env, w, targets[0], listed), targets[1..], listed, e);
    }
  }

  /** A call removes no pod but its own. */
  lemma OthersStay(env: Env, w: World, pod: Pod, listed: seq<Attachment>, key: ObjectKey)
    requires Present(w.pods, key) && pod.Key() != key
    ensures Present(FencePod(env, w, pod, listed).pods, key)
  {
    var claims := PodPVCs(env, pod.namespace, pod.claims, w.tick);
    var w0, keys := w.(tick := claims.tick), BoundKeys(claims.pvcs);
    VolumesKeepPods(env, w0, keys, w.tick);
    var (w2, deleted) := DeletePod(env, StosVolumes(env, w0, keys, w.tick).w, pod, w.tick);
    DeleteAttachmentsPods(env, w2, claims.pvcs, listed, w.tick);
    var p :| p in w.pods && p.Key() == key;
    FilterMember(w.pods, (q: Pod) => q.Key() != pod.Key(), p);
    hide PodPVCs, StosVolumes, DeleteAttachments, CanFailover, BoundKeys;
  }

  /**
    Whatever fails for the pods before it and after it, a pod that is present and
    whose own call is answered is deleted.
   */
  lemma {:induction false} FailureDoesNotStopOthers(
    env: Env, w: World, before: seq<Pod>, pod: Pod, after: seq<Pod>, listed: seq<Attachment>)
    requires Present(w.pods, pod.Key()) && forall p | p in before :: p.Key() != pod.Key()
    requires CallAnswers(env, pod, FencePods(env, w, before, listed).tick)
    ensures var call := FencePods(env, w, before, listed).tick;
            PodDeleted(call, pod) in FencePods(env, w, before + [pod] + after, listed).trace
    decreases |before|
  {
    var targets := before + [pod] + after;
    hide FencePod, CallAnswers, Present;
    if before == [] {
      assert targets[0] == pod && targets[1..] == after;
      AnsweredCallDeletes(env, w, pod, listed);
      FencePodsTraceGrows(env, FencePod(env, w, pod, listed), after, listed, PodDeleted(w.tick, pod));
    } else {
      assert targets[0] == before[0] && targets[1..] == before[1..] + [pod] + after;
      OthersStay(env, w, before[0], listed, pod.Key());
      FailureDoesNotStopOthers(env, FencePod(env, w, before[0], listed), before[1..], pod, after, listed);
    }
  }
}
