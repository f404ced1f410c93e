/** The exact result of fencing passes over a calm cluster: no call fails and health does not change. */
module FencerPass {
  import opened Common
  import opened Fencer
  import opened FencerProofs

  ghost predicate Calm(env: Env) {
    && (forall t :: !env.fails(t) && !env.pvReadFails(t))
    && (forall t, k :: env.volume(t, k) == env.volume(0, k))
  }

  /** Every labelled pod on the node names stored claims only. */
  ghost predicate Selectable(env: Env, node: string, pods: seq<Pod>) {
    forall p | p in pods && p.nodeName == node && OptedIn(p.labels) :: ClaimsStored(env, p)
  }

  predicate AllHealthy(env: Env, pod: Pod) {
    forall key | key in BoundKeys(StorageosClaims(env, pod)) :: env.volume(0, key).Healthy?
  }

  /** Pods have distinct keys. */
  ghost predicate Distinct(pods: seq<Pod>) {
    forall i, j | 0 <= i < j < |pods| :: pods[i].Key() != pods[j].Key()
  }

  lemma CalmClaims(env: Env, pod: Pod, tick: nat)
    requires Calm(env)
    ensures var found := PodPVCs(env, pod.namespace, pod.claims, tick);
            && (found.failed <==> !ClaimsStored(env, pod))
            && (!found.failed ==> found.pvcs == StorageosClaims(env, pod))
  {
    PodPVCsExactIff(env, pod.namespace, pod.claims, tick);
    AnsweringReads(env, pod.namespace, pod.claims, tick);
    PodPVCsFailsIff(env, pod, pod.claims, tick);
  }

  /** Selection fails exactly when a labelled pod names a claim that is not stored; else it finds the targets. */
  lemma {:induction false} CalmSelection(env: Env, node: string, listed: seq<Pod>, tick: nat)
    requires Calm(env) && forall p | p in listed :: p.nodeName == node
    ensures var t := SelectPods(env, listed, tick);
            && (t.ok <==> Selectable(env, node, listed))
            && (t.ok ==> t.pods == Filter(listed, (p: Pod) => IsTarget(env, node, p)))
    decreases |listed|
  {
    if listed != [] {
      var pod := listed[0];
      assert listed == [pod] + listed[1..];
      FencingLabelIff(pod);
      hide OptedIn, HasFencingLabel;
      if HasFencingLabel(pod) {
        CalmClaims(env, pod, tick);
        BoundClaimIff(StorageosClaims(env, pod));
        hide ClaimsStored, StorageosClaims, BoundKeys, PodPVCs, Calm;
        CalmSelection(env, node, listed[1..], PodPVCs(env, pod.namespace, pod.claims, tick).tick);
      } else {
        CalmSelection(env, node, listed[1..], tick);
      }
    }
  }

  lemma {:induction false} CalmVolumes(env: Env, w: World, keys: seq<ObjectKey>, call: nat)
    requires Calm(env)
    ensures var v := StosVolumes(env, w, keys, call);
            && v.w.pods == w.pods
            && (CanFailover(v) <==> forall key | key in keys :: env.volume(0, key).Healthy?)
    decreases |keys|
  {
    if keys != [] {
      var state := env.volume(w.tick, keys[0]);
      assert state == env.volume(0, keys[0]);
      var w1 := w.(tick := w.tick + 1, trace := w.trace + [VolumeRead(call, keys[0], state)]);
      CalmVolumes(env, w1, keys[1..], call);
      assert keys == [keys[0]] + keys[1..];
      var v := StosVolumes(env, w, keys, call);
      if !state.Missing? {
        var rest := StosVolumes(env, w1, keys[1..], call);
        assert v.states == [state] + rest.states;
        assert state in v.states && forall s | s in rest.states :: s in v.states;
      }
    }
  }

  lemma {:induction false} DeleteAttachmentsPods(env: Env, w: World, pvcs: seq<PVC>, listed: seq<Attachment>, call: nat)
    ensures DeleteAttachments(env, w, pvcs, listed, call).pods == w.pods
    decreases |pvcs|
  {
    if pvcs != [] {
      var found := PvcAttachment(pvcs[0], listed);
      DeleteAttachmentsPods(env, w, pvcs[1..], listed, call);
      if found.Some? {
        DeleteAttachmentsPods(env, DeleteAttachment(env, w, found.value, call), pvcs[1..], listed, call);
      }
    }
  }

  lemma CalmFencePod(env: Env, w: World, pod: Pod, listed: seq<Attachment>)
    requires Calm(env) && ClaimsStored(env, pod)
    ensures FencePod(env, w, pod, listed).pods ==
            if AllHealthy(env, pod) then RemovePod(w.pods, pod.Key()) else w.pods
  {
    CalmClaims(env, pod, w.tick);
    var claims := PodPVCs(env, pod.namespace, pod.claims, w.tick);
    CalmVolumes(env, w.(tick := claims.tick), BoundKeys(claims.pvcs), w.tick);
    var volumes := StosVolumes(env, w.(tick := claims.tick), BoundKeys(claims.pvcs), w.tick);
    var w1 := volumes.w;
    if AllHealthy(env, pod) {
      var w2 := World(w1.tick + 1, RemovePod(w1.pods, pod.Key()), w1.attachments, w1.trace + [PodDeleted(w.tick, pod)]);
      DeleteAttachmentsPods(env, w2, claims.pvcs, listed, w.tick);
      if !Present(w1.pods, pod.Key()) {
        FilterAll(w.pods, (p: Pod) => p.Key() != pod.Key());
      }
    }
  }

  lemma {:induction false} FilterCongruent<T>(s: seq<T>, f: T -> bool, g: T -> bool)
    requires forall x | x in s :: f(x) == g(x)
    ensures Filter(s, f) == Filter(s, g)
  {
    if s != [] {
      FilterCongruent(s[1..], f, g);
    }
  }

  lemma {:induction false} FilterFilter<T>(s: seq<T>, f: T -> bool, g: T -> bool, both: T -> bool)
    requires forall x | x in s :: both(x) == (f(x) && g(x))
    ensures Filter(Filter(s, f), g) == Filter(s, both)
  {
    if s != [] {
      FilterFilter(s[1..], f, g, both);
      if f(s[0]) {
        assert Filter(s, f)[1..] == Filter(s[1..], f);
      }
    }
  }

  /** A healthy pod of the list has the given key. */
  predicate Fenced(env: Env, targets: seq<Pod>, key: ObjectKey) {
    exists p | p in targets :: p.Key() == key && AllHealthy(env, p)
  }

  lemma FencedCons(env: Env, targets: seq<Pod>, key: ObjectKey)
    requires targets != []
    ensures Fenced(env, targets, key) <==>
            (targets[0].Key() == key && AllHealthy(env, targets[0])) || Fenced(env, targets[1..], key)
  {
    assert targets == [targets[0]] + targets[1..];
  }

  function Unfenced(env: Env, pods: seq<Pod>, targets: seq<Pod>): seq<Pod> {
    Filter(pods, (p: Pod) => !Fenced(env, targets, p.Key()))
  }

  lemma UnfencedCons(env: Env, pods: seq<Pod>, targets: seq<Pod>)
    requires targets != []
    ensures Unfenced(env, pods, targets) ==
            Unfenced(env, if AllHealthy(env, targets[0]) then RemovePod(pods, targets[0].Key()) else pods, targets[1..])
  {
    var key, rest := targets[0].Key(), targets[1..];
    forall p | p in pods { FencedCons(env, targets, p.Key()); }
    hide AllHealthy, Fenced;
    var keepRest := (p: Pod) => !Fenced(env, rest, p.Key());
    var keep := (p: Pod) => !Fenced(env, targets, p.Key());
    if AllHealthy(env, targets[0]) {
      var keepPod := (p: Pod) => p.Key() != key;
      FilterFilter(pods, keepPod, keepRest, keep);
    } else {
      FilterCongruent(pods, keepRest, keep);
    }
  }

  lemma {:induction false} CalmFencePods(env: Env, w: World, targets: seq<Pod>, listed: seq<Attachment>)
    requires Calm(env) && forall p | p in targets :: ClaimsStored(env, p)
    ensures FencePods(env, w, targets, listed).pods == Unfenced(env, w.pods, targets)
    decreases |targets|
  {
    if targets == [] {
      FilterAll(w.pods, (p: Pod) => !Fenced(env, targets, p.Key()));
    } else {
      CalmFencePod(env, w, targets[0], listed);
      UnfencedCons(env, w.pods, targets);
      hide FencePod, AllHealthy, Calm, ClaimsStored, Unfenced, RemovePod;
      CalmFencePods(env, FencePod(env, w, targets[0], listed), targets[1..], listed);
    }
  }

  predicate KeptByPass(env: Env, node: string, pod: Pod) {
    !(IsTarget(env, node, pod) && AllHealthy(env, pod))
  }

  lemma DistinctMember(pods: seq<Pod>, p: Pod, q: Pod)
    requires Distinct(pods) && p in pods && q in pods && p.Key() == q.Key()
    ensures p == q
  {
    var i :| 0 <= i < |pods| && pods[i] == p;
    var j :| 0 <= j < |pods| && pods[j] == q;
  }

  lemma {:induction false} FilterDistinct(pods: seq<Pod>, keep: Pod -> bool)
    requires Distinct(pods)
    ensures Distinct(Filter(pods, keep))
  {
    if pods != [] {
      var rest := Filter(pods[1..], keep);
      FilterDistinct(pods[1..], keep);
      forall q | q in rest ensures q.Key() != pods[0].Key() {
        FilterMember(pods[1..], keep, q);
        var j :| 0 <= j < |pods[1..]| && pods[1..][j] == q;
        assert pods[j + 1] == q;
      }
      var all := Filter(pods, keep);
      forall i, j | 0 <= i < j < |all| ensures all[i].Key() != all[j].Key() {
        if keep(pods[0]) {
          assert all[j] == rest[j - 1] && (i > 0 ==> all[i] == rest[i - 1]);
        }
      }
    }
  }

  /** Selection fails exactly when a labelled pod on the node names a claim that is not stored; else it finds the targets. */
  lemma CalmTargets(env: Env, w: World, node: string)
    requires Calm(env)
    ensures var targets := GetTargetPods(env, w, node);
            && (targets.ok <==> Selectable(env, node, w.pods))
            && (targets.ok ==> forall p :: p in targets.pods <==> p in w.pods && IsTarget(env, node, p))
            && (targets.ok ==> forall p | p in targets.pods :: ClaimsStored(env, p))
            && (targets.ok && Distinct(w.pods) ==> Distinct(targets.pods))
  {
    var here := PodsOn(w.pods, node);
    forall p ensures p in here <==> p in w.pods && p.nodeName == node {
      FilterMember(w.pods, (p: Pod) => p.nodeName == node, p);
    }
    CalmSelection(env, node, here, w.tick + 1);
    forall p ensures p in Filter(here, (p: Pod) => IsTarget(env, node, p)) <==> p in here && IsTarget(env, node, p) {
      FilterMember(here, (p: Pod) => IsTarget(env, node, p), p);
    }
    if Distinct(w.pods) {
      FilterDistinct(w.pods, (p: Pod) => p.nodeName == node);
      FilterDistinct(here, (p: Pod) => IsTarget(env, node, p));
    }
    TargetFacts(env, node, w.pods);
    hide IsTarget, SelectPods, PodsOn, ClaimsStored, Distinct, OptedIn;
    assert Selectable(env, node, here) <==> Selectable(env, node, w.pods);
  }

  lemma FencedMeans(env: Env, node: string, pods: seq<Pod>, targets: seq<Pod>, p: Pod)
    requires Distinct(pods) && p in pods && forall q :: q in targets <==> q in pods && IsTarget(env, node, q)
    ensures Fenced(env, targets, p.Key()) <==> !KeptByPass(env, node, p)
  {
    hide IsTarget, AllHealthy, Distinct;
    if Fenced(env, targets, p.Key()) {
      var q :| q in targets && q.Key() == p.Key() && AllHealthy(env, q);
      DistinctMember(pods, p, q);
    }
  }

  /**
    One pass over a calm cluster removes exactly the targets whose StorageOS
    volumes are all found and healthy, in whatever order the pods are listed;
    if a labelled pod names a missing claim it removes nothing.
   */
  lemma CalmPass(env: Env, w: World, node: string)
    requires Calm(env) && Distinct(w.pods)
    ensures FenceNode(env, w, node).pods ==
            if Selectable(env, node, w.pods) then Filter(w.pods, (p: Pod) => KeptByPass(env, node, p)) else w.pods
  {
    hide IsTarget, AllHealthy, GetTargetPods, ClaimsStored, Selectable;
    var w1 := w.(tick := w.tick + 1);
    CalmTargets(env, w1, node);
    var targets := GetTargetPods(env, w1, node);
    if targets.ok {
      CalmFencePods(env, w1.(tick := targets.tick), targets.pods, AttachmentsOn(w.attachments, node));
      forall p | p in w.pods ensures !Fenced(env, targets.pods, p.Key()) == KeptByPass(env, node, p) {
        FencedMeans(env, node, w.pods, targets.pods, p);
      }
      hide Fenced, KeptByPass;
      FilterCongruent(w.pods, (p: Pod) => !Fenced(env, targets.pods, p.Key()), (p: Pod) => KeptByPass(env, node, p));
    }
  }

  lemma TargetFacts(env: Env, node: string, pods: seq<Pod>)
    ensures forall p | p in pods && IsTarget(env, node, p) :: p.nodeName == node && OptedIn(p.labels)
  {
  }

  /******* Run and Check *******/

  /** A check fails for want of a cached node or a stored claim, and asks for a rerun exactly while an offline node has a target. */
  lemma CalmCheck(env: Env, w: World, node: string, cached: Option<Node>)
    requires Calm(env)
    ensures var r := Check(env, w, node, cached);
            && r.w.pods == w.pods
            && (r.error <==> cached.None? || (cached.value.health.Offline? && !Selectable(env, node, w.pods)))
            && (!r.error ==>
                  (r.rerun <==> cached.value.health.Offline? && exists p | p in w.pods :: IsTarget(env, node, p)))
  {
    CalmTargets(env, w, node);
    hide GetTargetPods, IsTarget, Selectable;
    var targets := GetTargetPods(env, w, node);
    if targets.pods != [] {
      assert targets.pods[0] in targets.pods;
    }
  }

  lemma PassMember(env: Env, w: World, node: string, p: Pod)
    requires Calm(env) && Distinct(w.pods) && Selectable(env, node, w.pods)
    ensures p in FenceNode(env, w, node).pods <==> p in w.pods && KeptByPass(env, node, p)
    ensures Distinct(FenceNode(env, w, node).pods)
  {
    CalmPass(env, w, node);
    FilterMember(w.pods, (p: Pod) => KeptByPass(env, node, p), p);
    FilterDistinct(w.pods, (p: Pod) => KeptByPass(env, node, p));
  }

  /**
    After a pass over a calm cluster, a check asks for a rerun exactly if the
    node is still cached offline and a target with an unhealthy or missing
    volume is left, and a further pass removes nothing.
   */
  lemma CalmFixpoint(env: Env, w: World, node: string, cached: Node)
    requires Calm(env) && Distinct(w.pods) && Selectable(env, node, w.pods)
    ensures var w' := FenceNode(env, w, node);
            && var r := Check(env, w', node, Some(cached));
            && !r.error
            && (r.rerun <==> cached.health.Offline? &&
                             exists p | p in w.pods :: IsTarget(env, node, p) && !AllHealthy(env, p))
            && FenceNode(env, r.w, node).pods == w'.pods
  {
    var w' := FenceNode(env, w, node);
    forall p { PassMember(env, w, node, p); }
    CalmCheck(env, w', node, Some(cached));
    var r := Check(env, w', node, Some(cached));
    CalmPass(env, r.w, node);
    hide FenceNode, Check, IsTarget, AllHealthy, Calm, ClaimsStored;
    FilterAll(w'.pods, (p: Pod) => KeptByPass(env, node, p));
  }

  /******* Pods only go away *******/

  lemma FencePodShrinks(env: Env, w: World, pod: Pod, listed: seq<Attachment>, p: Pod)
    ensures p in FencePod(env, w, pod, listed).pods ==> p in w.pods
  {
    var claims := PodPVCs(env, pod.namespace, pod.claims, w.tick);
    var keys := BoundKeys(claims.pvcs);
    VolumesKeepPods(env, w.(tick := claims.tick), keys, w.tick);
    var w1 := StosVolumes(env, w.(tick := claims.tick), keys, w.tick).w;
    var w2 := World(w1.tick + 1, RemovePod(w1.pods, pod.Key()), w1.attachments, w1.trace + [PodDeleted(w.tick, pod)]);
    DeleteAttachmentsPods(env, w2, claims.pvcs, listed, w.tick);
    FilterMember(w.pods, (q: Pod) => q.Key() != pod.Key(), p);
  }

  lemma {:induction false} VolumesKeepPods(env: Env, w: World, keys: seq<ObjectKey>, call: nat)
    ensures StosVolumes(env, w, keys, call).w.pods == w.pods
    decreases |keys|
  {
    if keys != [] {
      var state := if env.fails(w.tick) then Missing else env.volume(w.tick, keys[0]);
      VolumesKeepPods(env, w.(tick := w.tick + 1, trace := w.trace + [VolumeRead(call, keys[0], state)]), keys[1..], call);
    }
  }

  lemma {:induction false} FencePodsShrink(env: Env, w: World, targets: seq<Pod>, listed: seq<Attachment>, p: Pod)
    ensures p in FencePods(env, w, targets, listed).pods ==> p in w.pods
    decreases |targets|
  {
    if targets != [] {
      FencePodShrinks(env, w, targets[0], listed, p);
      hide FencePod;
      FencePodsShrink(env, FencePod(env, w, targets[0], listed), targets[1..], listed, p);
    }
  }

  lemma FenceNodeShrinks(env: Env, w: World, node: string, p: Pod)
    ensures p in FenceNode(env, w, node).pods ==> p in w.pods
    ensures !GetTargetPods(env, w.(tick := w.tick + 1), node).ok ==>
              FenceNode(env, w, node) == w.(tick := FenceNode(env, w, node).tick)
  {
    var targets := GetTargetPods(env, w.(tick := w.tick + 1), node);
    FencePodsShrink(env, w.(tick := targets.tick), targets.pods, AttachmentsOn(w.attachments, node), p);
  }

  lemma {:induction false} RetryShrinks(env: Env, w: World, node: string, readings: seq<Option<Node>>, p: Pod)
    requires p in Retry(env, w, node, readings).pods
    ensures p in w.pods
    decreases |readings|
  {
    if readings != [] {
      var check := Check(env, w, node, readings[0]);
      assert check.w.pods == w.pods;
      FenceNodeShrinks(env, check.w, node, p);
      hide FenceNode, Check;
      if check.error {
        RetryShrinks(env, check.w, node, readings[1..], p);
      } else if check.rerun {
        RetryShrinks(env, FenceNode(env, check.w, node), node, readings[1..], p);
      }
    }
  }

  /**
    Whatever fails and however health changes, every pod that is selected at any
    later point of a run of passes and checks was there at the start, and is a
    target.
   */
  lemma TargetsNeverGrow(env: Env, w: World, node: string, readings: seq<Option<Node>>, tick: nat)
    ensures var later := RunAction(env, w, node, readings).(tick := tick);
            forall p | p in GetTargetPods(env, later, node).pods :: p in w.pods && IsTarget(env, node, p)
  {
    var later := RunAction(env, w, node, readings).(tick := tick);
    var here := PodsOn(later.pods, node);
    forall p ensures p in here <==> p in later.pods && p.nodeName == node {
      FilterMember(later.pods, (p: Pod) => p.nodeName == node, p);
    }
    SelectedAreTargets(env, node, here, tick + 1);
    hide FenceNode, IsTarget, SelectPods, PodsOn;
    forall p | p in later.pods ensures p in w.pods {
      RetryShrinks(env, FenceNode(env, w, node), node, readings, p);
      FenceNodeShrinks(env, w, node, p);
    }
  }

  /******* A failing PV read *******/

  lemma FilterOne<T>(x: T, keep: T -> bool)
    ensures Filter([x], keep) == if keep(x) then [x] else []
  {
    assert Filter([x][1..], keep) == [];
  }

  /**
    The checks need PV reads to answer: when the read fails only in the call
    that fences, a pod whose single volume is unhealthy is deleted, and no
    volume has been read.
   */
  lemma FailingPVReadDeletesUnchecked() returns (env: Env, w: World)
    ensures (forall t :: !env.fails(t)) && (forall t, k :: env.volume(t, k).Unhealthy?)
    ensures |w.pods| == 1 && IsTarget(env, "node", w.pods[0]) && !AllHealthy(env, w.pods[0])
    ensures FenceNode(env, w, "node").pods == []
    ensures FenceNode(env, w, "node").trace == [PodDeleted(4, w.pods[0])]
  {
    var pvc := PVC("ns", "claim", map[], "pv");
    var pod := Pod("ns", "pod", "node", map[FENCING_LABEL := "true"], [Some("claim")]);
    env := Env(map[ObjectKey("ns", "claim") := pvc], map["pv" := Some(DRIVER_NAME)], _ => false, t => t == 5, (_, _) => Unhealthy);
    w := World(0, [pod], [], []);
    assert forall t :: PodPVCs(env, "ns", [Some("claim")][1..], t) == Claims([], false, t);
    assert PodPVCs(env, "ns", [Some("claim")], 2) == Claims([pvc], false, 4);
    assert PodPVCs(env, "ns", [Some("claim")], 4) == Claims([], false, 6);
    assert BoundKeys([pvc]) == [ObjectKey("ns", "pv")];
    assert StoredClaims(env, "ns", [Some("claim")]) == [pvc];
    FilterOne(pvc, (pvc: PVC) => IsStorageosPVC(env, pvc));
    assert StorageosClaims(env, pod) == [pvc];
    assert ObjectKey("ns", "pv") in BoundKeys(StorageosClaims(env, pod));
    FilterOne(pod, (p: Pod) => p.nodeName == "node");
    assert PodsOn([pod], "node") == [pod];
    assert SelectPods(env, [pod][1..], 4) == Targets([], true, 4);
    assert SelectPods(env, [pod], 2) == Targets([pod], true, 4);
    assert AttachmentsOn([], "node") == [];
    var w1 := World(6, [pod], [], []);
    assert StosVolumes(env, w1, [], 4) == Volumes(w1, [], true);
    var w2 := World(4, [pod], [], []);
    FilterOne(pod, (p: Pod) => p.Key() != pod.Key());
    assert RemovePod([pod], pod.Key()) == [];
    var w3 := World(7, [], [], [PodDeleted(4, pod)]);
    assert FencePod(env, w2, pod, []) == w3;
    assert FencePods(env, w2, [pod], []) == FencePods(env, w3, [pod][1..], []) == w3;
  }
}
