/** What the shared-volume loop creates and publishes, and how its cache expiry repairs outside changes. */
module SharedVolumeDrift {
  import opened Common
  import opened Strconv
  import opened Endpoint
  import opened SharedVolumeTypes
  import opened SharedVolumeLoop
  import opened SharedVolumeProofs

  /******* Creations and publications *******/

  /** A service made for the volume belongs to its PVC and carries its ID; endpoints carry the ID. */
  lemma CreatedObjects(c: Cluster, step: Step)
    requires WellFormed(c) && step.vol.serviceName != ""
    ensures var c' := Visit(c, step).0; var v := step.vol;
            && (forall k | k in c'.services && k !in c.services ::
                  && step.pvcUID.Some? && k == v.Key()
                  && var svc := c'.services[k];
                  && svc.owners == [OwnerReference("v1", "PersistentVolumeClaim", v.pvcName, step.pvcUID.value)]
                  && svc.labels == map["storageos.com/volume-id" := v.id]
                  && svc.serviceType == "ClusterIP" && svc.clusterIP == step.env.allocatedIP
                  && v.ServiceIsEqual(svc))
            && (forall k | k in c'.endpoints && k !in c.endpoints ::
                  && step.pvcUID.Some? && k == v.Key()
                  && c'.endpoints[k].labels == map["storageos.com/volume-id" := v.id]
                  && v.EndpointsIsEqual(c'.endpoints[k]))
  {
    hide Visit, EnsureServiceObject, EnsureEndpointsObject, InSync, WellFormed, ServiceDone;
    VisitPost(c, step);
    VisitServices(c, step);
    VisitEndpoints(c, step);
    if step.pvcUID.Some? {
      var owner := Owner(step.vol, step.pvcUID.value);
      EnsureServiceObjectPost(c, step.vol, owner, step.env);
      CreatedService(c, step.vol, owner, step.env);
      var c1 := EnsureServiceObject(c, step.vol, owner, step.env).0;
      CreatedEndpoints(c1, step.vol, step.env);
    }
    hide SharedVolume.ServiceIsEqual, SharedVolume.EndpointsIsEqual, SharedVolume.NfsPort, SharedVolume.NfsSubset;
  }

  /**
    For a volume as the control plane lists it: a visit of an accepted volume makes
    no objects but those named after its PV, in the namespace of its PVC; the
    service is owned by its PVC, and the endpoints lead to the advertised address
    and port.
   */
  lemma ListedVolumeObjects(c: Cluster, vol: ApiVolume, step: Step)
    requires WellFormed(c) && Acceptable(vol) && ToSharedVolume(vol) == Ok(step.vol)
    ensures var c' := Visit(c, step).0; var advertised := SplitAddressPort(vol.serviceEndpoint.value).value;
            var key := ObjectKey(vol.labels["csi.storage.k8s.io/pvc/namespace"], vol.labels["csi.storage.k8s.io/pv/name"]);
            && (forall k | k in c'.services && k !in c.services ::
                  && step.pvcUID.Some? && k == key
                  && c'.services[k].owners ==
                       [OwnerReference("v1", "PersistentVolumeClaim", vol.labels["csi.storage.k8s.io/pvc/name"], step.pvcUID.value)]
                  && c'.services[k].labels == map["storageos.com/volume-id" := vol.id]
                  && |c'.services[k].ports| == 1
                  && c'.services[k].ports[0].port == 2049
                  && c'.services[k].ports[0].target.IntVal() == Int32(advertised.port))
            && (forall k | k in c'.endpoints && k !in c.endpoints ::
                  && k == key && |c'.endpoints[k].subsets| == 1
                  && var subset := c'.endpoints[k].subsets[0];
                  && |subset.addresses| > 0 && subset.addresses[0] == advertised.address
                  && |subset.ports| > 0 && subset.ports[0] == EndpointPort("nfs", Int32(advertised.port), "TCP"))
  {
    AcceptedVolumeParses(vol);
    CreatedObjects(c, step);
    var c' := Visit(c, step).0;
    forall k | k in c'.services && k !in c.services ensures ServiceDesired(step.vol, c'.services[k]) {
      DesiredIff(step.vol, c'.services[k], NO_ENDPOINTS);
    }
    forall k | k in c'.endpoints && k !in c.endpoints ensures EndpointsDesired(step.vol, c'.endpoints[k]) {
      DesiredIff(step.vol, step.vol.NewService(Owner(step.vol, "")), c'.endpoints[k]);
    }
    hide Visit, ToSharedVolume, SplitAddressPort, Acceptable, WellFormed, SharedVolume.InternalAddress, SharedVolume.InternalPort;
  }

  lemma CreatedService(c: Cluster, v: SharedVolume, owner: OwnerReference, e: Env)
    ensures var c' := EnsureServiceObject(c, v, owner, e).0;
            v.Key() !in c.services && v.Key() in c'.services ==>
              var svc := c'.services[v.Key()]; v.ServiceIsEqual(svc) && svc == v.NewService(owner).(clusterIP := e.allocatedIP)
  {
    assert v.ServiceIsEqual(v.NewService(owner).(clusterIP := e.allocatedIP));
  }

  lemma CreatedEndpoints(c: Cluster, v: SharedVolume, e: Env)
    ensures var c' := EnsureEndpointsObject(c, v, e).0;
            v.Key() !in c.endpoints && v.Key() in c'.endpoints ==>
              var ep := c'.endpoints[v.Key()]; v.EndpointsIsEqual(ep) && ep == v.NewEndpoints()
  {
    assert v.EndpointsIsEqual(v.NewEndpoints());
  }

  /** The endpoints are the work of the endpoints phase, which runs if the service phase succeeds. */
  lemma VisitEndpoints(c: Cluster, step: Step)
    ensures var c' := Visit(c, step).0; var v := step.vol;
            if step.pvcUID.None? then c'.endpoints == c.endpoints
            else
              var (c1, svc) := EnsureServiceObject(c, v, Owner(v, step.pvcUID.value), step.env);
              && c1.endpoints == c.endpoints
              && c'.endpoints == if svc.None? then c.endpoints else EnsureEndpointsObject(c1, v, step.env).0.endpoints
  {
    if step.pvcUID.Some? {
      var c1 := EnsureServiceObject(c, step.vol, Owner(step.vol, step.pvcUID.value), step.env).0;
      assert c1.endpoints == c.endpoints;
      hide EnsureServiceObject, EnsureEndpointsObject, Frontend;
    }
  }

  /** A visit publishes at most once: exactly when it succeeds with another endpoint than the polled one. */
  lemma PublishesOnChange(c: Cluster, step: Step)
    requires WellFormed(c) && step.vol.serviceName != ""
    ensures var (c', done) := Visit(c, step); var v := step.vol;
            && (done.None? ==> c'.publications == c.publications)
            && (done.Some? ==>
                  && v.Key() in c'.services
                  && done.value == v.(externalEndpoint := Frontend(c'.services[v.Key()]))
                  && c'.publications == c.publications +
                       if done.value == v then [] else [Publication(v.id, v.Key(), done.value.externalEndpoint)])
  {
    hide EnsureService, Frontend, WellFormed, OnlyAt, ServiceDone, EndpointsDone;
    if step.pvcUID.Some? {
      EnsureServicePost(c, step.vol, Owner(step.vol, step.pvcUID.value), step.env);
      var (c1, r) := EnsureService(c, step.vol, Owner(step.vol, step.pvcUID.value), step.env);
      if r.Some? {
        assert step.vol.Key() in c1.services && r.value == Frontend(c1.services[step.vol.Key()]);
      }
      assert Visit(c, step).0.services == c1.services;
      assert step.vol.(externalEndpoint := step.vol.externalEndpoint) == step.vol;
    }
  }

  /******* Expiry *******/

  function Lifetime(interval: int): int {
    if interval == 0 then DEFAULT_EXPIRY else interval
  }

  /** No entry outlives the given time. */
  ghost predicate ExpiresBy(cache: map<string, Entry>, time: int) {
    forall id | id in cache :: cache[id].expires.Some? && cache[id].expires.value <= time
  }

  lemma {:induction false} PollExpires(s: State, steps: seq<Step>, interval: int, now: int)
    requires interval >= 0 && ExpiresBy(s.cache, now + Lifetime(interval))
    requires forall i | 0 <= i < |steps| :: steps[i].now <= now
    ensures ExpiresBy(Poll(s, steps, interval).cache, now + Lifetime(interval))
    decreases |steps|
  {
    if steps != [] {
      hide Visit, Hit;
      assert steps[0].now <= now;
      PollExpires(Reconcile(s, steps[0], interval), steps[1..], interval, now);
    }
  }

  lemma {:induction false} RunExpires(s: State, polls: seq<seq<Step>>, interval: int, now: int)
    requires interval >= 0 && ExpiresBy(s.cache, now + Lifetime(interval))
    requires forall i, j | 0 <= i < |polls| && 0 <= j < |polls[i]| :: polls[i][j].now <= now
    ensures ExpiresBy(Run(s, polls, interval).cache, now + Lifetime(interval))
    decreases |polls|
  {
    if polls != [] {
      PollExpires(s, polls[0], interval, now);
      RunExpires(Poll(s, polls[0], interval), polls[1..], interval, now);
    }
  }

  /**
    What a successful visit has cached is skipped for exactly the cache lifetime: a
    minute if the interval is zero, for good if it is negative. A poll that shows
    the volume as cached then changes nothing, whatever has become of its objects.
   */
  lemma SkippedUntilExpiry(s: State, step: Step, interval: int, drifted: Cluster, again: Step)
    requires !Hit(s.cache - step.evicted, step.vol, step.now) && Visit(s.cluster, step).1 == Some(again.vol)
    requires again.vol.id == step.vol.id && again.vol.id !in again.evicted
    ensures var s' := State(drifted, Reconcile(s, step, interval).cache);
            var expires := step.now + if interval == 0 then 60_000_000_000 else interval;
            && (Hit(s'.cache - again.evicted, again.vol, again.now) <==> interval < 0 || again.now <= expires)
            && (interval < 0 || again.now <= expires ==> Reconcile(s', again, interval).cluster == drifted)
            && (interval >= 0 && again.now > expires ==>
                  Reconcile(s', again, interval).cluster == Visit(drifted, again).0)
  {
    IsEqualIff(again.vol, again.vol);
    hide Visit, SharedVolume.IsEqual;
    assert Reconcile(s, step, interval).cache[step.vol.id] == NewEntry(again.vol, step.now, interval);
  }

  /** Nothing fails or lags, and created objects are seen at once. */
  predicate Prompt(step: Step) {
    var e := step.env;
    && Smooth(step)
    && e.allocatedIP != "" && e.servicePolls != [] && e.servicePolls[0].Answers? && e.endpointsPoll.Answers?
  }

  lemma PromptService(c: Cluster, v: SharedVolume, owner: OwnerReference, step: Step)
    requires WellFormed(c) && Prompt(step)
    ensures EnsureServiceObject(c, v, owner, step.env).1.Some?
  {
    if v.Key() in c.services {
      assert c.services[v.Key()].Key() == v.Key();
    }
  }

  lemma PromptEndpoints(c: Cluster, v: SharedVolume, step: Step)
    requires WellFormed(c) && Prompt(step)
    ensures EnsureEndpointsObject(c, v, step.env).1
  {
    if v.Key() in c.endpoints {
      assert c.endpoints[v.Key()].Key() == v.Key();
    } else {
      assert v.EndpointsIsEqual(v.NewEndpoints());
    }
  }

  lemma PromptSucceeds(c: Cluster, step: Step)
    requires WellFormed(c) && step.vol.serviceName != "" && Prompt(step)
    ensures Visit(c, step).1.Some?
  {
    var v, owner := step.vol, Owner(step.vol, step.pvcUID.value);
    PromptService(c, v, owner, step);
    EnsureServiceObjectPost(c, v, owner, step.env);
    var c1 := EnsureServiceObject(c, v, owner, step.env).0;
    hide EnsureServiceObject, EnsureEndpointsObject, Frontend, WellFormed, OnlyAt, ServiceDone;
    StaysWellFormed(c, c1, v.Key());
    PromptEndpoints(c1, v, step);
  }

  /**
    Whatever others do to the Services and Endpoints after any run of the loop,
    deletes included, the first prompt visit later than the cache lifetime brings
    the volume back in sync and caches it; the cache cannot hide the drift longer.
   */
  lemma DriftRepaired(s: State, polls: seq<seq<Step>>, interval: int, now: int, drifted: Cluster, step: Step)
    requires interval >= 0 && s.cache == map[]
    requires forall i, j | 0 <= i < |polls| && 0 <= j < |polls[i]| :: polls[i][j].now <= now
    requires WellFormed(drifted) && Prompt(step) && step.vol.serviceName != ""
    requires step.now > now + Lifetime(interval)
    ensures var s' := Reconcile(State(drifted, Run(s, polls, interval).cache), step, interval); var id := step.vol.id;
            id in s'.cache && InSync(s'.cluster, s'.cache[id].vol) && s'.cache[id].vol.Key() == step.vol.Key()
  {
    RunExpires(s, polls, interval, now);
    var cache := Run(s, polls, interval).cache;
    hide Run, Visit, InSync, WellFormed, OnlyAt, Prompt;
    assert !Hit(cache - step.evicted, step.vol, step.now);
    PromptSucceeds(drifted, step);
    VisitPost(drifted, step);
  }
}
