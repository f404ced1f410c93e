/** The shared-volume reconciler in the form of internal/controllers/sharedvolume/controller.go. */
module SharedVolumeController {
  import opened Common
  import opened SharedVolumeTypes
  import opened SharedVolumeLoop
  import Proofs = SharedVolumeProofs

  /** Polls until the service is seen with an address, a read fails or the time is up. */
  method WaitForClusterIP(svc: Service, polls: seq<Reply>) returns (ok: bool)
    ensures ok == SeesClusterIP(svc, polls)
    ensures ok <==> svc.clusterIP != "" &&
                    exists k | 0 <= k < |polls| :: polls[k].Answers? && forall j | 0 <= j < k :: !polls[j].Fails?
  {
    var i := 0;
    while i < |polls|
      invariant 0 <= i <= |polls|
      invariant SeesClusterIP(svc, polls[i..]) == SeesClusterIP(svc, polls)
      invariant forall j | 0 <= j < i :: !polls[j].Fails? && (polls[j].Answers? ==> svc.clusterIP == "")
    {
      assert polls[i..][1..] == polls[i + 1..];
      if polls[i].Fails? {
        return false;
      }
      if polls[i].Answers? && svc.clusterIP != "" {
        return true;
      }
      i := i + 1;
    }
    return false;
  }

  class Reconciler {
    /** What the API server and the control plane hold. */
    var cluster: Cluster
    var volumes: map<string, Entry>
    const cacheExpiryInterval: int

    constructor (cluster: Cluster, interval: int)
      ensures this.cluster == cluster && volumes == map[] && cacheExpiryInterval == interval
      ensures Proofs.WellFormed(cluster) ==> Proofs.Coherent(State(this.cluster, volumes))
    {
      this.cluster, volumes, cacheExpiryInterval := cluster, map[], interval;
    }

    method UpdateServiceObject(sv: SharedVolume, svc: Service, e: Env) returns (r: Option<Service>)
      modifies this`cluster
      ensures (cluster, r) == UpdateService(old(cluster), sv, svc, e)
      ensures r.None? ==> cluster == old(cluster)
      ensures r.Some? && Proofs.At(old(cluster).services, sv.Key()) == Some(svc) && svc.Key() == sv.Key() ==>
                Proofs.At(cluster.services, sv.Key()) == r && Proofs.ServiceDone(sv, Some(svc), r.value)
      ensures cluster.endpoints == old(cluster).endpoints && cluster.publications == old(cluster).publications
    {
      if Proofs.At(cluster.services, sv.Key()) == Some(svc) && svc.Key() == sv.Key() {
        Proofs.UpdateServicePost(cluster, sv, svc, e);
      }
      hide Proofs.ServiceDone;
      if sv.ServiceIsEqual(svc) {
        return Some(svc);
      }
      if e.updateServiceFails || svc.name == "" || svc.Key() !in cluster.services {
        return None;
      }
      var updated := sv.ServiceUpdate(svc);
      cluster := cluster.(services := cluster.services[updated.Key() := updated]);
      return Some(updated);
    }

    method UpdateEndpointsObject(sv: SharedVolume, ep: Endpoints, e: Env) returns (ok: bool)
      modifies this`cluster
      ensures (cluster, ok) == UpdateEndpoints(old(cluster), sv, ep, e)
      ensures !ok ==> cluster == old(cluster)
      ensures ok && Proofs.At(old(cluster).endpoints, sv.Key()) == Some(ep) && ep.Key() == sv.Key() ==>
                sv.Key() in cluster.endpoints && Proofs.EndpointsDone(sv, Some(ep), cluster.endpoints[sv.Key()])
      ensures cluster.services == old(cluster).services && cluster.publications == old(cluster).publications
    {
      if Proofs.At(cluster.endpoints, sv.Key()) == Some(ep) && ep.Key() == sv.Key() {
        Proofs.UpdateEndpointsPost(cluster, sv, ep, e);
      }
      hide Proofs.EndpointsDone;
      if sv.EndpointsIsEqual(ep) {
        return true;
      }
      if e.updateEndpointsFails || ep.name == "" || ep.Key() !in cluster.endpoints {
        return false;
      }
      var updated := sv.EndpointsUpdate(ep);
      cluster := cluster.(endpoints := cluster.endpoints[updated.Key() := updated]);
      return true;
    }

    method EnsureService(sv: SharedVolume, owner: OwnerReference, e: Env) returns (r: Option<string>)
      modifies this`cluster
      ensures (cluster, r) == SharedVolumeLoop.EnsureService(old(cluster), sv, owner, e)
      ensures Proofs.WellFormed(old(cluster)) && sv.serviceName != "" && r.Some? ==>
                var k := sv.Key();
                && k in cluster.services && k in cluster.endpoints && r.value == Frontend(cluster.services[k])
                && Proofs.ServiceDone(sv, Proofs.At(old(cluster).services, k), cluster.services[k])
                && Proofs.EndpointsDone(sv, Proofs.At(old(cluster).endpoints, k), cluster.endpoints[k])
    {
      if Proofs.WellFormed(cluster) && sv.serviceName != "" {
        Proofs.EnsureServicePost(cluster, sv, owner, e);
      }
      hide Proofs.ServiceDone, Proofs.EndpointsDone, Proofs.WellFormed, Proofs.OnlyAt, Proofs.At;
      hide Frontend, UpdateService, UpdateEndpoints;
      var nn := sv.Key();
      var svc: Service;
      if e.getService.Fails? {
        return None;
      } else if e.getService.Answers? && nn in cluster.services {
        svc := cluster.services[nn];
      } else {
        if e.createServiceFails || nn in cluster.services {
          return None;
        }
        svc := sv.NewService(owner).(clusterIP := e.allocatedIP);
        cluster := cluster.(services := cluster.services[nn := svc]);
        var seen := WaitForClusterIP(svc, e.servicePolls);
        if !seen {
          return None;
        }
      }
      var current := UpdateServiceObject(sv, svc, e);
      if current.None? {
        return None;
      }
      var ok := EnsureEndpoints(sv, e);
      return if ok then Some(Frontend(current.value)) else None;
    }

    method EnsureEndpoints(sv: SharedVolume, e: Env) returns (ok: bool)
      modifies this`cluster
      ensures (cluster, ok) == EnsureEndpointsObject(old(cluster), sv, e)
    {
      hide UpdateEndpoints;
      var nn := sv.Key();
      var ep: Endpoints;
      if e.getEndpoints.Fails? {
        return false;
      } else if e.getEndpoints.Answers? && nn in cluster.endpoints {
        ep := cluster.endpoints[nn];
      } else {
        if e.createEndpointsFails || nn in cluster.endpoints {
          return false;
        }
        ep := sv.NewEndpoints();
        cluster := cluster.(endpoints := cluster.endpoints[nn := ep]);
        if e.endpointsPoll.Fails? {
          return false;
        }
        if e.endpointsPoll.Lags? {
          ep := NO_ENDPOINTS;
        }
      }
      ok := UpdateEndpointsObject(sv, ep, e);
    }

    /** The body of the loop over the polled volumes. */
    method ReconcileVolume(step: Step)
      modifies this
      ensures State(cluster, volumes) == Reconcile(old(State(cluster, volumes)), step, cacheExpiryInterval)
    {
      hide SharedVolumeLoop.EnsureService;
      var vol := step.vol;
      volumes := volumes - step.evicted;
      if Hit(volumes, vol, step.now) {
        return;
      }
      if step.pvcUID.None? {
        return;
      }
      var externalEndpoint := EnsureService(vol, Owner(vol, step.pvcUID.value), step.env);
      if externalEndpoint.None? {
        return;
      }
      if externalEndpoint.value != vol.externalEndpoint {
        if step.env.publishFails {
          return;
        }
        cluster := cluster.(publications :=
          cluster.publications + [Publication(vol.id, vol.Key(), externalEndpoint.value)]);
        vol := vol.(externalEndpoint := externalEndpoint.value);
      }
      volumes := volumes[vol.id := NewEntry(vol, step.now, cacheExpiryInterval)];
    }

    /** The reconcile loop, until it is cancelled after the given polls. */
    method Start(polls: seq<seq<Step>>)
      modifies this
      ensures State(cluster, volumes) == Run(old(State(cluster, volumes)), polls, cacheExpiryInterval)
    {
      hide Reconcile;
      ghost var start := State(cluster, volumes);
      for i := 0 to |polls|
        invariant Run(State(cluster, volumes), polls[i..], cacheExpiryInterval) == Run(start, polls, cacheExpiryInterval)
      {
        var steps := polls[i];
        ghost var before := State(cluster, volumes);
        for j := 0 to |steps|
          invariant Poll(State(cluster, volumes), steps[j..], cacheExpiryInterval) == Poll(before, steps, cacheExpiryInterval)
        {
          assert steps[j..][1..] == steps[j + 1..];
          ReconcileVolume(steps[j]);
        }
        assert polls[i..][1..] == polls[i + 1..];
      }
    }
  }
}
