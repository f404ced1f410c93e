/** Which attachments a pass over a calm cluster deletes. */
module FencerAttachments {
  import opened Common
  import opened Fencer
  import opened FencerProofs
  import opened FencerPass
  import opened FencerProgress

  /** The attachment is the first listed one of some claim, and is StorageOS's. */
  predicate Detached(pvcs: seq<PVC>, listed: seq<Attachment>, a: Attachment) {
    a.attacher == "csi.storageos.com" && exists pvc | pvc in pvcs :: PvcAttachment(pvc, listed) == Some(a)
  }

  lemma DetachedCons(pvcs: seq<PVC>, listed: seq<Attachment>, a: Attachment)
    requires pvcs != []
    ensures Detached(pvcs, listed, a) <==>
            (a.attacher == DRIVER_NAME && PvcAttachment(pvcs[0], listed) == Some(a)) || Detached(pvcs[1..], listed, a)
  {
    assert pvcs == [pvcs[0]] + pvcs[1..];
  }

  lemma {:induction false} DeleteAttachmentsExact(
    env: Env, w: World, pvcs: seq<PVC>, listed: seq<Attachment>, call: nat, a: Attachment)
    requires Calm(env)
    ensures a in DeleteAttachments(env, w, pvcs, listed, call).attachments <==>
            a in w.attachments && !Detached(pvcs, listed, a)
    decreases |pvcs|
  {
    if pvcs != [] {
      DetachedCons(pvcs, listed, a);
      var found := PvcAttachment(pvcs[0], listed);
      var w1 := w;
      if found.Some? && found.value.attacher == DRIVER_NAME {
        w1 := DeleteAttachment(env, w, found.value, call);
        FilterMember(w.attachments, (b: Attachment) => b != found.value, a);
      }
      hide Detached, Calm;
      DeleteAttachmentsExact(env, w1, pvcs[1..], listed, call, a);
    }
  }

  lemma {:induction false} VolumesKeepAttachments(env: Env, w: World, keys: seq<ObjectKey>, call: nat)
    ensures StosVolumes(env, w, keys, call).w.attachments == w.attachments
    decreases |keys|
  {
    if keys != [] {
      VolumesKeepAttachments(env, ReadVolume(env, w, keys[0], call).0, keys[1..], call);
    }
  }

  /** The call deletes the pod and the attachments of its StorageOS claims, or nothing. */
  lemma FencePodDetaches(env: Env, w: World, pod: Pod, listed: seq<Attachment>, a: Attachment)
    requires Calm(env) && ClaimsStored(env, pod) && Present(w.pods, pod.Key())
    ensures a in FencePod(env, w, pod, listed).attachments <==>
            a in w.attachments && !(AllHealthy(env, pod) && Detached(StorageosClaims(env, pod), listed, a))
  {
    CalmClaims(env, pod, w.tick);
    var claims := PodPVCs(env, pod.namespace, pod.claims, w.tick);
    var w0, keys := w.(tick := claims.tick), BoundKeys(claims.pvcs);
    CalmVolumes(env, w0, keys, w.tick);
    VolumesKeepAttachments(env, w0, keys, w.tick);
    var w1 := StosVolumes(env, w0, keys, w.tick).w;
    var w2 := World(w1.tick + 1, RemovePod(w1.pods, pod.Key()), w1.attachments, w1.trace + [PodDeleted(w.tick, pod)]);
    DeleteAttachmentsExact(env, w2, claims.pvcs, listed, w.tick, a);
    hide Detached, PodPVCs, StosVolumes, DeleteAttachments, StorageosClaims, BoundKeys, RemovePod, CanFailover;
  }

  /** A healthy pod of the list has claimed the attachment. */
  predicate DetachedBy(env: Env, targets: seq<Pod>, listed: seq<Attachment>, a: Attachment) {
    exists p | p in targets :: AllHealthy(env, p) && Detached(StorageosClaims(env, p), listed, a)
  }

  lemma DetachedByCons(env: Env, targets: seq<Pod>, listed: seq<Attachment>, a: Attachment)
    requires targets != []
    ensures DetachedBy(env, targets, listed, a) <==>
            || (AllHealthy(env, targets[0]) && Detached(StorageosClaims(env, targets[0]), listed, a))
            || DetachedBy(env, targets[1..], listed, a)
  {
    assert targets == [targets[0]] + targets[1..];
  }

  lemma {:induction false} FencePodsDetach(env: Env, w: World, targets: seq<Pod>, listed: seq<Attachment>, a: Attachment)
    requires Calm(env) && Distinct(targets)
    requires forall p | p in targets :: ClaimsStored(env, p) && Present(w.pods, p.Key())
    ensures a in FencePods(env, w, targets, listed).attachments <==>
            a in w.attachments && !DetachedBy(env, targets, listed, a)
    decreases |targets|
  {
    if targets != [] {
      var w1 := FencePod(env, w, targets[0], listed);
      FencePodDetaches(env, w, targets[0], listed, a);
      DetachedByCons(env, targets, listed, a);
      forall p | p in targets[1..] ensures Present(w1.pods, p.Key()) {
        var i :| 0 <= i < |targets[1..]| && targets[1..][i] == p;
        assert targets[i + 1] == p;
        OthersStay(env, w, targets[0], listed, p.Key());
      }
      hide FencePod, Detached, DetachedBy, AllHealthy, Calm, ClaimsStored, Present;
      FencePodsDetach(env, w1, targets[1..], listed, a);
    }
  }

  /**
    One pass over a calm cluster deletes exactly the first listed attachments,
    if StorageOS's, of the StorageOS claims of the pods it removes.
   */
  lemma CalmDetaches(env: Env, w: World, node: string, a: Attachment)
    requires Calm(env) && Distinct(w.pods)
    ensures a in FenceNode(env, w, node).attachments <==>
            && a in w.attachments
            && !(Selectable(env, node, w.pods) &&
                 exists p | p in w.pods :: !KeptByPass(env, node, p) &&
                   Detached(StorageosClaims(env, p), AttachmentsOn(w.attachments, node), a))
  {
    hide IsTarget, AllHealthy, GetTargetPods, ClaimsStored, Distinct, Detached, AttachmentsOn, StorageosClaims, Selectable;
    var w1 := w.(tick := w.tick + 1);
    CalmTargets(env, w1, node);
    var targets := GetTargetPods(env, w1, node);
    if targets.ok {
      FencePodsDetach(env, w1.(tick := targets.tick), targets.pods, AttachmentsOn(w.attachments, node), a);
    }
  }
}
