/** The fence action manager in the form of controllers/fencer/fencer.go. */
module FencerController {
  import opened Common
  import opened Fencer
  import opened FencerProofs

  /** The StorageOS claims of a pod, whether a claim could not be read, and the next tick. */
  method PodClaims(env: Env, pod: Pod, start: nat) returns (pvcs: seq<PVC>, failed: bool, tick: nat)
    ensures Claims(pvcs, failed, tick) == PodPVCs(env, pod.namespace, pod.claims, start)
    ensures forall pvc | pvc in pvcs :: pvc in StorageosClaims(env, pod)
    ensures !failed ==>
              (pvcs == StorageosClaims(env, pod) <==> DriverReadsAnswer(env, pod.namespace, pod.claims, start))
  {
    pvcs, failed, tick := [], false, start;
    ghost var all := PodPVCs(env, pod.namespace, pod.claims, start);
    for i := 0 to |pod.claims|
      invariant var rest := PodPVCs(env, pod.namespace, pod.claims[i..], tick);
                all == Claims(pvcs + rest.pvcs, failed || rest.failed, rest.tick)
    {
      assert pod.claims[i..][1..] == pod.claims[i + 1..];
      assert forall pvc: PVC, rest :: pvcs + ([pvc] + rest) == pvcs + [pvc] + rest;
      var claim := pod.claims[i];
      if claim == None || claim == Some("") {
        continue;
      }
      var key := ObjectKey(pod.namespace, claim.value);
      tick := tick + 1;
      if env.fails(tick - 1) || key !in env.pvcs {
        failed := true;
        continue;
      }
      var pvc := env.pvcs[key];
      if PROVISIONER_ANNOTATION in pvc.annotations {
        if pvc.annotations[PROVISIONER_ANNOTATION] == DRIVER_NAME {
          pvcs := pvcs + [pvc];
        }
        continue;
      }
      tick := tick + 1;
      if !env.pvReadFails(tick - 1) && UsesDriver(env, pvc.volumeName) {
        pvcs := pvcs + [pvc];
      }
    }
    PodPVCsExactIff(env, pod.namespace, pod.claims, start);
  }

  method VolumeKeys(pvcs: seq<PVC>) returns (keys: seq<ObjectKey>)
    ensures keys == BoundKeys(pvcs)
    ensures forall key :: key in keys <==>
              exists pvc | pvc in pvcs :: pvc.volumeName != "" && key == ObjectKey(pvc.namespace, pvc.volumeName)
  {
    keys := [];
    for i := 0 to |pvcs|
      invariant keys + BoundKeys(pvcs[i..]) == BoundKeys(pvcs)
    {
      assert pvcs[i..][1..] == pvcs[i + 1..];
      if pvcs[i].volumeName != "" {
        keys := keys + [ObjectKey(pvcs[i].namespace, pvcs[i].volumeName)];
      }
    }
    forall key { BoundKeysMember(pvcs, key); }
  }

  /** The first listed attachment of the claim's volume. */
  method PvcVA(pvc: PVC, listed: seq<Attachment>) returns (found: Option<Attachment>)
    ensures found == PvcAttachment(pvc, listed)
    ensures found.Some? ==>
              exists k | 0 <= k < |listed| ::
                && found.value == listed[k] && listed[k].pvName == pvc.volumeName
                && forall j | 0 <= j < k :: listed[j].pvName != pvc.volumeName
    ensures found.None? <==> forall a | a in listed :: a.pvName != pvc.volumeName
  {
    for i := 0 to |listed|
      invariant PvcAttachment(pvc, listed[i..]) == PvcAttachment(pvc, listed)
      invariant forall j | 0 <= j < i :: listed[j].pvName != pvc.volumeName
    {
      assert listed[i..][1..] == listed[i + 1..];
      if listed[i].pvName == pvc.volumeName {
        return Some(listed[i]);
      }
    }
    return None;
  }

  class FenceActionManager {
    const env: Env
    var world: World
    var node: Node

    constructor (env: Env, world: World, node: Node)
      ensures this.env == env && this.world == world && this.node == node
    {
      this.env, this.world, this.node := env, world, node;
    }

    method TargetPods() returns (pods: seq<Pod>, ok: bool)
      modifies this`world
      ensures var t := GetTargetPods(env, old(world), node.name);
              ok == t.ok && pods == t.pods && world == old(world).(tick := t.tick)
      ensures forall p | p in pods :: p in old(world).pods && IsTarget(env, node.name, p)
    {
      SelectionTargets(env, node.name, world);
      world := world.(tick := world.tick + 1);
      if env.fails(world.tick - 1) {
        return [], false;
      }
      hide IsTarget;
      var listed := PodsOn(world.pods, node.name);
      ghost var all := SelectPods(env, listed, world.tick);
      FailedSelectsNothing(env, listed, world.tick);
      pods := [];
      for i := 0 to |listed|
        invariant world == old(world).(tick := world.tick)
        invariant var rest := SelectPods(env, listed[i..], world.tick);
                  all == Targets(if rest.ok then pods + rest.pods else [], rest.ok, rest.tick)
      {
        hide PodPVCs, BoundKeys, PodsOn;
        FailedSelectsNothing(env, listed[i..], world.tick);
        assert listed[i..][1..] == listed[i + 1..];
        var pod := listed[i];
        if !HasFencingLabel(pod) {
          continue;
        }
        var pvcs, failed, tick := PodClaims(env, pod, world.tick);
        world := world.(tick := tick);
        if failed {
          return [], false;
        }
        FailedSelectsNothing(env, listed[i + 1..], world.tick);
        var keys := VolumeKeys(pvcs);
        if keys == [] {
          continue;
        }
        pods := pods + [pod];
      }
      ok := true;
    }

    /** Reads the volumes; all of them are needed, so the first failure is returned. */
    method ReadVolumes(keys: seq<ObjectKey>, call: nat) returns (states: seq<VolumeState>, ok: bool)
      modifies this`world
      ensures Volumes(world, states, ok) == StosVolumes(env, old(world), keys, call)
    {
      states := [];
      ghost var all := StosVolumes(env, world, keys, call);
      for i := 0 to |keys|
        invariant var rest := StosVolumes(env, world, keys[i..], call);
                  all == Volumes(rest.w, states + rest.states, rest.ok)
      {
        hide ReadVolume;
        assert keys[i..][1..] == keys[i + 1..];
        var (w, state) := ReadVolume(env, world, keys[i], call);
        world := w;
        if state.Missing? {
          assert states + [] == states;
          return states, false;
        }
        ghost var rest := StosVolumes(env, world, keys[i + 1..], call);
        assert states + ([state] + rest.states) == states + [state] + rest.states;
        states := states + [state];
      }
      ok := true;
    }

    method RemoveAttachments(pvcs: seq<PVC>, listed: seq<Attachment>, call: nat)
      modifies this`world
      ensures world == DeleteAttachments(env, old(world), pvcs, listed, call)
    {
      for i := 0 to |pvcs|
        invariant DeleteAttachments(env, world, pvcs[i..], listed, call) == DeleteAttachments(env, old(world), pvcs, listed, call)
      {
        assert pvcs[i..][1..] == pvcs[i + 1..];
        var va := PvcVA(pvcs[i], listed);
        if va.None? {
          continue;
        }
        if va.value.attacher != DRIVER_NAME {
          continue;
        }
        world := DeleteAttachment(env, world, va.value, call);
      }
    }

    method FenceOnePod(pod: Pod, listed: seq<Attachment>)
      modifies this`world
      ensures world == FencePod(env, old(world), pod, listed)
    {
      hide PodPVCs, StosVolumes, DeleteAttachments, BoundKeys, RemovePod;
      var call := world.tick;
      var pvcs, failed, tick := PodClaims(env, pod, world.tick);
      world := world.(tick := tick);
      if failed {
        return;
      }
      var keys := VolumeKeys(pvcs);
      var states, ok := ReadVolumes(keys, call);
      if !ok {
        return;
      }
      var canFailover := true;
      for i := 0 to |states|
        invariant canFailover
        invariant forall s | s in states[..i] :: s.Healthy?
      {
        if !states[i].Healthy? {
          canFailover := false;
          break;
        }
      }
      if !canFailover {
        return;
      }
      assert states[..|states|] == states;
      if env.fails(world.tick) || !Present(world.pods, pod.Key()) {
        world := world.(tick := world.tick + 1);
        return;
      }
      world := World(world.tick + 1, RemovePod(world.pods, pod.Key()), world.attachments,
                     world.trace + [PodDeleted(call, pod)]);
      RemoveAttachments(pvcs, listed, call);
    }

    /** One pass. The trace stays safe, whatever fails. */
    method Run()
      modifies this`world
      ensures world == FenceNode(env, old(world), node.name)
      ensures SafeWorld(env, node.name, old(world)) ==> SafeWorld(env, node.name, world)
    {
      if SafeWorld(env, node.name, world) {
        FenceNodeSafe(env, node.name, world);
      }
      hide SafeWorld, FencePod, GetTargetPods, AttachmentsOn;
      world := world.(tick := world.tick + 1);
      if env.fails(world.tick - 1) {
        return;
      }
      var listed := AttachmentsOn(world.attachments, node.name);
      var pods, ok := TargetPods();
      if !ok {
        return;
      }
      ghost var start := world;
      for i := 0 to |pods|
        invariant FencePods(env, world, pods[i..], listed) == FencePods(env, start, pods, listed)
      {
        assert pods[i..][1..] == pods[i + 1..];
        FenceOnePod(pods[i], listed);
      }
    }

    /** Takes over the cached state of the node; asks for a rerun while it is offline and has targets. */
    method CheckDone(cached: Option<Node>) returns (rerun: bool, error: bool)
      requires cached.Some? ==> cached.value.name == node.name
      modifies this
      ensures CheckResult(rerun, error, world) == Check(env, old(world), node.name, cached)
      ensures node == if cached.Some? then cached.value else old(node)
    {
      hide GetTargetPods;
      if cached.None? {
        return true, true;
      }
      node := cached.value;
      if !node.health.Offline? {
        return false, false;
      }
      var pods, ok := TargetPods();
      if !ok {
        return true, true;
      }
      return pods != [], false;
    }

    /** The first pass and the retries, one cache reading each, until done or timed out. */
    method RunAction(readings: seq<Option<Node>>)
      requires forall r | r in readings && r.Some? :: r.value.name == node.name
      modifies this
      ensures world == Fencer.RunAction(env, old(world), old(node.name), readings)
      ensures old(world.trace) == [] ==> SafeTrace(env, old(node.name), world.trace)
    {
      ghost var name := node.name;
      if world.trace == [] {
        RunActionSafe(env, name, world, readings);
      }
      hide FenceNode, Check, SafeTrace, SafeWorld;
      Run();
      ghost var start := world;
      for i := 0 to |readings|
        invariant node.name == name
        invariant Retry(env, world, name, readings[i..]) == Retry(env, start, name, readings)
      {
        assert readings[i..][1..] == readings[i + 1..];
        var rerun, error := CheckDone(readings[i]);
        if error {
          continue;
        }
        if !rerun {
          return;
        }
        Run();
      }
    }
  }

  lemma {:induction false} FailedSelectsNothing(env: Env, listed: seq<Pod>, tick: nat)
    ensures !SelectPods(env, listed, tick).ok ==> SelectPods(env, listed, tick).pods == []
    decreases |listed|
  {
    if listed != [] {
      FailedSelectsNothing(env, listed[1..], tick);
      FailedSelectsNothing(env, listed[1..], PodPVCs(env, listed[0].namespace, listed[0].claims, tick).tick);
    }
  }
}
