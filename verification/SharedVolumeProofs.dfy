/** What the shared-volume loop guarantees over every run. */
module SharedVolumeProofs {
  import opened Common
  import opened Strconv
  import opened Endpoint
  import opened SharedVolumeTypes
  import opened SharedVolumeLoop

  /** Objects are stored under their own name. */
  ghost predicate WellFormed(c: Cluster) {
    && (forall k | k in c.services :: c.services[k].Key() == k && k.name != "")
    && (forall k | k in c.endpoints :: c.endpoints[k].Key() == k && k.name != "")
  }

  /******* Success of ensureService *******/

  /** A service that the update can bring to the desired state. */
  predicate RepairableService(svc: Service) {
    && svc.serviceType == "ClusterIP"
    && (|svc.ports| == 1 ==> svc.ports[0].name == "nfs" && svc.ports[0].port == 2049 && svc.ports[0].protocol == "TCP")
  }

  predicate RepairableEndpoints(ep: Endpoints) {
    |ep.subsets| == 1 && |ep.subsets[0].addresses| == 1 && |ep.subsets[0].ports| == 1 ==>
      ep.subsets[0].ports[0].name == "nfs" && ep.subsets[0].ports[0].protocol == "TCP"
  }

  /** The desired state of the service: one NFS port that targets the internal port. */
  predicate ServiceDesired(v: SharedVolume, svc: Service) {
    && svc.name == v.serviceName && svc.namespace == v.namespace && svc.serviceType == "ClusterIP"
    && |svc.ports| == 1
    && svc.ports[0].name == "nfs" && svc.ports[0].port == 2049 && svc.ports[0].protocol == "TCP"
    && svc.ports[0].target.IntVal() == Int32(v.InternalPort())
  }

  /** The desired state of the endpoints: the first address and port are the internal ones. */
  predicate EndpointsDesired(v: SharedVolume, ep: Endpoints) {
    && ep.name == v.serviceName && ep.namespace == v.namespace
    && |ep.subsets| == 1 && |ep.subsets[0].addresses| > 0 && |ep.subsets[0].ports| > 0
    && ep.subsets[0].addresses[0] == v.InternalAddress()
    && ep.subsets[0].ports[0] == EndpointPort("nfs", Int32(v.InternalPort()), "TCP")
  }

  lemma DesiredIff(v: SharedVolume, svc: Service, ep: Endpoints)
    ensures v.ServiceIsEqual(svc) <==> ServiceDesired(v, svc)
    ensures v.EndpointsIsEqual(ep) <==> EndpointsDesired(v, ep)
  {
    hide SharedVolume.InternalPort, SharedVolume.InternalAddress, Int32;
  }

  /** What a successful pass makes of the service that was there before, if any. */
  ghost predicate ServiceDone(v: SharedVolume, before: Option<Service>, svc: Service) {
    && svc.Key() == v.Key()
    && |svc.ports| == 1
    && svc.ports[0].target.IntVal() == Int32(v.InternalPort())
    && (v.ServiceIsEqual(svc) || v.ServiceUpdate(svc) == svc)
    && (ServiceDesired(v, svc) <==> before.Some? ==> RepairableService(before.value))
    && (before.Some? && |before.value.ports| == 1 ==>
          svc.ports[0].(target := before.value.ports[0].target) == before.value.ports[0])
  }

  ghost predicate EndpointsDone(v: SharedVolume, before: Option<Endpoints>, ep: Endpoints) {
    && ep.Key() == v.Key()
    && |ep.subsets| == 1 && |ep.subsets[0].addresses| > 0 && |ep.subsets[0].ports| > 0
    && ep.subsets[0].addresses[0] == v.InternalAddress()
    && ep.subsets[0].ports[0].port == Int32(v.InternalPort())
    && (v.EndpointsIsEqual(ep) || v.EndpointsUpdate(ep) == ep)
    && (EndpointsDesired(v, ep) <==> before.Some? ==> RepairableEndpoints(before.value))
  }

  function At<T>(m: map<ObjectKey, T>, k: ObjectKey): Option<T> {
    if k in m then Some(m[k]) else None
  }

  /** The new map is the old one, but for what it holds at one key. */
  ghost predicate OnlyAt<T>(m: map<ObjectKey, T>, m': map<ObjectKey, T>, k: ObjectKey) {
    && m.Keys <= m'.Keys <= m.Keys + {k}
    && forall j | j in m && j != k :: m'[j] == m[j]
  }

  lemma UpdateServicePost(c: Cluster, v: SharedVolume, svc: Service, e: Env)
    requires At(c.services, v.Key()) == Some(svc) && svc.Key() == v.Key()
    ensures var (c', r) := UpdateService(c, v, svc, e);
            && c' == c.(services := c'.services)
            && OnlyAt(c.services, c'.services, v.Key())
            && (r.None? ==> c' == c)
            && (r.Some? ==> At(c'.services, v.Key()) == r && ServiceDone(v, Some(svc), r.value))
  {
  }

  lemma UpdateEndpointsPost(c: Cluster, v: SharedVolume, ep: Endpoints, e: Env)
    requires At(c.endpoints, v.Key()) == Some(ep) && ep.Key() == v.Key()
    ensures var (c', ok) := UpdateEndpoints(c, v, ep, e);
            && c' == c.(endpoints := c'.endpoints)
            && OnlyAt(c.endpoints, c'.endpoints, v.Key())
            && (!ok ==> c' == c)
            && (ok ==> v.Key() in c'.endpoints && EndpointsDone(v, Some(ep), c'.endpoints[v.Key()]))
  {
  }

  lemma EnsureServiceObjectPost(c: Cluster, v: SharedVolume, owner: OwnerReference, e: Env)
    requires WellFormed(c)
    ensures var (c', r) := EnsureServiceObject(c, v, owner, e);
            && c' == c.(services := c'.services)
            && OnlyAt(c.services, c'.services, v.Key())
            && (v.Key() in c'.services ==> c'.services[v.Key()].Key() == v.Key())
            && (r.Some? ==> At(c'.services, v.Key()) == r && ServiceDone(v, At(c.services, v.Key()), r.value))
            && (r.None? && v.Key() in c.services ==> c' == c)
  {
    var k := v.Key();
    if k in c.services {
      UpdateServicePost(c, v, c.services[k], e);
    } else {
      var svc := v.NewService(owner).(clusterIP := e.allocatedIP);
      assert v.ServiceIsEqual(svc);
    }
  }

  lemma EnsureEndpointsObjectPost(c: Cluster, v: SharedVolume, e: Env)
    requires WellFormed(c)
    ensures var (c', ok) := EnsureEndpointsObject(c, v, e);
            && c' == c.(endpoints := c'.endpoints)
            && OnlyAt(c.endpoints, c'.endpoints, v.Key())
            && (v.Key() in c'.endpoints ==> c'.endpoints[v.Key()].Key() == v.Key())
            && (ok ==> v.Key() in c'.endpoints && EndpointsDone(v, At(c.endpoints, v.Key()), c'.endpoints[v.Key()]))
            && (!ok && v.Key() in c.endpoints ==> c' == c)
  {
    var k := v.Key();
    if k in c.endpoints {
      UpdateEndpointsPost(c, v, c.endpoints[k], e);
    } else {
      assert v.EndpointsIsEqual(v.NewEndpoints());
    }
  }

  /**
    A pass touches only the objects of its volume. Success means that both
    objects exist and point at the internal endpoint; they match the desired
    state in full exactly when they were missing or of a repairable shape, since
    a single foreign port is left as it is.
   */
  lemma EnsureServicePost(c: Cluster, v: SharedVolume, owner: OwnerReference, e: Env)
    requires WellFormed(c) && v.serviceName != ""
    ensures var (c', r) := EnsureService(c, v, owner, e); var k := v.Key();
            && WellFormed(c')
            && c'.publications == c.publications
            && OnlyAt(c.services, c'.services, k)
            && OnlyAt(c.endpoints, c'.endpoints, k)
            && (r.Some? ==>
                  && k in c'.services && k in c'.endpoints
                  && r.value == Frontend(c'.services[k])
                  && ServiceDone(v, At(c.services, k), c'.services[k])
                  && EndpointsDone(v, At(c.endpoints, k), c'.endpoints[k]))
  {
    hide EnsureServiceObject, EnsureEndpointsObject, Frontend, ServiceDone, EndpointsDone, WellFormed, OnlyAt;
    EnsureServiceObjectPost(c, v, owner, e);
    var (c1, svc) := EnsureServiceObject(c, v, owner, e);
    StaysWellFormed(c, c1, v.Key());
    if svc.Some? {
      EnsureEndpointsObjectPost(c1, v, e);
      StaysWellFormed(c1, EnsureEndpointsObject(c1, v, e).0, v.Key());
    }
  }

  lemma StaysWellFormed(c: Cluster, c': Cluster, k: ObjectKey)
    requires WellFormed(c) && k.name != ""
    requires c'.services == c.services || (OnlyAt(c.services, c'.services, k) && (k in c'.services ==> c'.services[k].Key() == k))
    requires c'.endpoints == c.endpoints || (OnlyAt(c.endpoints, c'.endpoints, k) && (k in c'.endpoints ==> c'.endpoints[k].Key() == k))
    ensures WellFormed(c') && OnlyAt(c.services, c'.services, k) && OnlyAt(c.endpoints, c'.endpoints, k)
  {
  }

  /******* Cache coherence *******/

  /** A visit of the volume has nothing left to do. */
  ghost predicate InSync(c: Cluster, v: SharedVolume) {
    var k := v.Key();
    && k in c.services && k in c.endpoints
    && (v.ServiceIsEqual(c.services[k]) || v.ServiceUpdate(c.services[k]) == c.services[k])
    && (v.EndpointsIsEqual(c.endpoints[k]) || v.EndpointsUpdate(c.endpoints[k]) == c.endpoints[k])
    && Frontend(c.services[k]) == v.externalEndpoint
  }

  /** Visiting a volume that is in sync changes nothing, whatever the API server does. */
  lemma VisitInSync(c: Cluster, step: Step)
    requires WellFormed(c) && InSync(c, step.vol)
    ensures Visit(c, step).0 == c
  {
    var v, k, e := step.vol, step.vol.Key(), step.env;
    if step.pvcUID.Some? {
      var owner := Owner(v, step.pvcUID.value);
      hide EnsureServiceObject, EnsureEndpointsObject, Frontend, WellFormed;
      ServiceInSync(c, v, owner, e);
      EndpointsInSync(c, v, e);
    }
  }

  lemma ServiceInSync(c: Cluster, v: SharedVolume, owner: OwnerReference, e: Env)
    requires WellFormed(c) && v.Key() in c.services
    requires var svc := c.services[v.Key()]; v.ServiceIsEqual(svc) || v.ServiceUpdate(svc) == svc
    ensures var (c', r) := EnsureServiceObject(c, v, owner, e);
            c' == c && (r.Some? ==> r.value == c.services[v.Key()])
  {
    assert c.services[v.Key() := c.services[v.Key()]] == c.services;
  }

  lemma EndpointsInSync(c: Cluster, v: SharedVolume, e: Env)
    requires WellFormed(c) && v.Key() in c.endpoints
    requires var ep := c.endpoints[v.Key()]; v.EndpointsIsEqual(ep) || v.EndpointsUpdate(ep) == ep
    ensures EnsureEndpointsObject(c, v, e).0 == c
  {
    assert c.endpoints[v.Key() := c.endpoints[v.Key()]] == c.endpoints;
  }

  /** Nothing fails or lags during the visit. */
  predicate Smooth(step: Step) {
    var e := step.env;
    && step.pvcUID.Some?
    && e.getService.Answers? && !e.updateServiceFails && !e.createServiceFails
    && e.getEndpoints.Answers? && !e.updateEndpointsFails && !e.createEndpointsFails
    && !e.publishFails
  }

  lemma UpdateServiceSmooth(c: Cluster, v: SharedVolume, svc: Service, e: Env)
    requires At(c.services, v.Key()) == Some(svc) && svc.Key() == v.Key() && svc.name != "" && !e.updateServiceFails
    ensures var (c', r) := UpdateService(c, v, svc, e);
            r.Some? && (r.value == svc <==> v.ServiceIsEqual(svc) || v.ServiceUpdate(svc) == svc)
  {
  }

  lemma UpdateEndpointsSmooth(c: Cluster, v: SharedVolume, ep: Endpoints, e: Env)
    requires At(c.endpoints, v.Key()) == Some(ep) && ep.Key() == v.Key() && ep.name != "" && !e.updateEndpointsFails
    ensures var (c', ok) := UpdateEndpoints(c, v, ep, e);
            && ok && v.Key() in c'.endpoints
            && (c'.endpoints[v.Key()] == ep <==> v.EndpointsIsEqual(ep) || v.EndpointsUpdate(ep) == ep)
  {
  }

  /** Where both objects exist, a smooth pass updates the service, then the endpoints. */
  lemma SmoothPass(c: Cluster, step: Step)
    requires WellFormed(c) && Smooth(step) && step.vol.Key() in c.services
    ensures var v, e := step.vol, step.env; var k := v.Key();
            var (c1, svc) := UpdateService(c, v, c.services[k], e);
            && svc.Some? && At(c1.services, k) == svc && c1.endpoints == c.endpoints
            && var (c', r) := EnsureService(c, v, Owner(v, step.pvcUID.value), e);
            && At(c'.services, k) == svc && k in c'.endpoints
            && (k in c.endpoints ==>
                  && c' == UpdateEndpoints(c1, v, c.endpoints[k], e).0
                  && r == Some(Frontend(svc.value)))
  {
    var v, e, k := step.vol, step.env, step.vol.Key();
    UpdateServiceSmooth(c, v, c.services[k], e);
    UpdateServicePost(c, v, c.services[k], e);
    hide UpdateService, Frontend, ServiceDone;
    var (c1, svc) := UpdateService(c, v, c.services[k], e);
    if k in c.endpoints {
      UpdateEndpointsSmooth(c1, v, c.endpoints[k], e);
    }
  }

  /** Skipping agrees with a smooth visit exactly when the volume is in sync. */
  lemma SkipSoundIff(c: Cluster, step: Step)
    requires WellFormed(c) && Smooth(step) && step.vol.serviceName != ""
    ensures Visit(c, step).0 == c <==> InSync(c, step.vol)
  {
    if InSync(c, step.vol) {
      VisitInSync(c, step);
    } else if step.vol.Key() !in c.services {
      SmoothVisitCreates(c, step);
    } else {
      SmoothVisitRepairs(c, step);
    }
  }

  lemma SmoothVisitCreates(c: Cluster, step: Step)
    requires Smooth(step) && step.vol.Key() !in c.services
    ensures Visit(c, step).0 != c
  {
    var v := step.vol;
    assert v.Key() in EnsureServiceObject(c, v, Owner(v, step.pvcUID.value), step.env).0.services;
    VisitServices(c, step);
    hide EnsureServiceObject, Visit;
  }

  lemma SmoothVisitRepairs(c: Cluster, step: Step)
    requires WellFormed(c) && Smooth(step) && step.vol.Key() in c.services && !InSync(c, step.vol)
    ensures Visit(c, step).0 != c
  {
    var v, k, e := step.vol, step.vol.Key(), step.env;
    SmoothPass(c, step);
    var svc := c.services[k];
    UpdateServiceSmooth(c, v, svc, e);
    hide UpdateService, UpdateEndpoints, EnsureService, Frontend;
    if k in c.endpoints {
      UpdateEndpointsSmooth(UpdateService(c, v, svc, e).0, v, c.endpoints[k], e);
    }
  }

  lemma DoneInSync(c: Cluster, v: SharedVolume, svc: Option<Service>, ep: Option<Endpoints>)
    requires v.Key() in c.services && v.Key() in c.endpoints
    requires ServiceDone(v, svc, c.services[v.Key()]) && EndpointsDone(v, ep, c.endpoints[v.Key()])
    ensures InSync(c, v.(externalEndpoint := Frontend(c.services[v.Key()])))
  {
    var v' := v.(externalEndpoint := Frontend(c.services[v.Key()]));
    assert v'.InternalAddress() == v.InternalAddress() && v'.InternalPort() == v.InternalPort();
  }

  /** A visit keeps names and touches only its own objects; if it succeeds, what it caches is in sync. */
  lemma VisitPost(c: Cluster, step: Step)
    requires WellFormed(c) && step.vol.serviceName != ""
    ensures var (c', done) := Visit(c, step); var k := step.vol.Key();
            && WellFormed(c')
            && OnlyAt(c.services, c'.services, k)
            && OnlyAt(c.endpoints, c'.endpoints, k)
            && (done.Some? ==> done.value.id == step.vol.id && done.value.Key() == k && InSync(c', done.value))
  {
    var v := step.vol;
    OnlyAtSelf(c.services, v.Key());
    OnlyAtSelf(c.endpoints, v.Key());
    hide EnsureService, Frontend, ServiceDone, EndpointsDone, WellFormed, OnlyAt, InSync;
    if step.pvcUID.Some? {
      EnsureServicePost(c, v, Owner(v, step.pvcUID.value), step.env);
      var (c1, r) := EnsureService(c, v, Owner(v, step.pvcUID.value), step.env);
      if r.Some? {
        DoneInSync(c1, v, At(c.services, v.Key()), At(c.endpoints, v.Key()));
        assert v.(externalEndpoint := v.externalEndpoint) == v;
        var publications := c1.publications + [Publication(v.id, v.Key(), r.value)];
        PublishKeeps(c1, publications, v.(externalEndpoint := r.value));
      }
    }
  }

  lemma OnlyAtSelf<T>(m: map<ObjectKey, T>, k: ObjectKey)
    ensures OnlyAt(m, m, k)
  {
  }

  /** Publishing touches no object. */
  lemma PublishKeeps(c: Cluster, publications: seq<Publication>, v: SharedVolume)
    requires WellFormed(c)
    ensures WellFormed(c.(publications := publications))
    ensures InSync(c, v) ==> InSync(c.(publications := publications), v)
  {
  }

  /******* The cached loop *******/

  /** Every cached volume is in sync. */
  ghost predicate Coherent(s: State) {
    && WellFormed(s.cluster)
    && forall id | id in s.cache :: s.cache[id].vol.id == id && InSync(s.cluster, s.cache[id].vol)
  }

  /** No two volume IDs share a namespace and a service name. */
  ghost predicate Owned(owner: ObjectKey -> string, v: SharedVolume) {
    owner(v.Key()) == v.id && v.serviceName != ""
  }

  ghost predicate CacheOwned(owner: ObjectKey -> string, s: State) {
    forall id | id in s.cache :: Owned(owner, s.cache[id].vol)
  }

  function RepairedService(v: SharedVolume, svc: Service): Service {
    if v.ServiceIsEqual(svc) then svc else v.ServiceUpdate(svc)
  }

  function RepairedEndpoints(v: SharedVolume, ep: Endpoints): Endpoints {
    if v.EndpointsIsEqual(ep) then ep else v.EndpointsUpdate(ep)
  }

  predicate ServiceWritable(v: SharedVolume, svc: Service, e: Env) {
    e.getService.Answers? && (e.updateServiceFails ==> v.ServiceIsEqual(svc))
  }

  predicate EndpointsWritable(v: SharedVolume, ep: Endpoints, e: Env) {
    e.getEndpoints.Answers? && (e.updateEndpointsFails ==> v.EndpointsIsEqual(ep))
  }

  /**
    The guards of a torn write: an object of the volume is changed and a later
    call of the same visit fails, so that an older cache entry stays behind.
   */
  predicate TornWrite(c: Cluster, step: Step) {
    var v, k, e := step.vol, step.vol.Key(), step.env;
    && step.pvcUID.Some? && k in c.services && k in c.endpoints
    && var svc, ep := c.services[k], c.endpoints[k];
    var svc', ep' := RepairedService(v, svc), RepairedEndpoints(v, ep);
    && ServiceWritable(v, svc, e)
    && if EndpointsWritable(v, ep, e)
       then (svc' != svc || ep' != ep) && e.publishFails && Frontend(svc') != v.externalEndpoint
       else svc' != svc
  }

  /** A torn write over a volume that stays cached. */
  predicate TornOver(s: State, step: Step) {
    var cache := s.cache - step.evicted;
    && !Hit(cache, step.vol, step.now)
    && step.vol.id in cache && cache[step.vol.id].vol.Key() == step.vol.Key()
    && TornWrite(s.cluster, step)
  }

  lemma ExistingService(c: Cluster, v: SharedVolume, owner: OwnerReference, e: Env)
    requires WellFormed(c) && v.Key() in c.services
    ensures var svc := c.services[v.Key()]; var svc' := RepairedService(v, svc);
            && svc'.Key() == v.Key()
            && EnsureServiceObject(c, v, owner, e) ==
                 if ServiceWritable(v, svc, e) then (c.(services := c.services[v.Key() := svc']), Some(svc'))
                 else (c, None)
  {
    assert c.services[v.Key() := c.services[v.Key()]] == c.services;
  }

  lemma ExistingEndpoints(c: Cluster, v: SharedVolume, e: Env)
    requires WellFormed(c) && v.Key() in c.endpoints
    ensures var ep := c.endpoints[v.Key()]; var ep' := RepairedEndpoints(v, ep);
            && ep'.Key() == v.Key()
            && EnsureEndpointsObject(c, v, e) ==
                 if EndpointsWritable(v, ep, e) then (c.(endpoints := c.endpoints[v.Key() := ep']), true)
                 else (c, false)
  {
    assert c.endpoints[v.Key() := c.endpoints[v.Key()]] == c.endpoints;
  }

  /** A visit of a volume whose objects exist fails after a change exactly under the guards. */
  lemma TornWriteIff(c: Cluster, step: Step)
    requires WellFormed(c) && step.vol.Key() in c.services && step.vol.Key() in c.endpoints
    ensures TornWrite(c, step) <==> Visit(c, step).1.None? && Visit(c, step).0 != c
  {
    var v, k := step.vol, step.vol.Key();
    if step.pvcUID.Some? {
      ExistingPass(c, v, Owner(v, step.pvcUID.value), step.env);
      PutBack(c, k, RepairedService(v, c.services[k]), RepairedEndpoints(v, c.endpoints[k]));
    }
    hide EnsureService, RepairedService, RepairedEndpoints, ServiceWritable, EndpointsWritable, Frontend, WellFormed;
  }

  function WithService(c: Cluster, k: ObjectKey, svc: Service): Cluster {
    c.(services := c.services[k := svc])
  }

  function WithEndpoints(c: Cluster, k: ObjectKey, ep: Endpoints): Cluster {
    c.(endpoints := c.endpoints[k := ep])
  }

  /** A pass over existing objects repairs the service, then the endpoints, as far as the calls succeed. */
  lemma ExistingPass(c: Cluster, v: SharedVolume, owner: OwnerReference, e: Env)
    requires WellFormed(c) && v.Key() in c.services && v.Key() in c.endpoints
    ensures var k := v.Key(); var svc, ep := c.services[k], c.endpoints[k];
            var c1 := WithService(c, k, RepairedService(v, svc));
            EnsureService(c, v, owner, e) ==
              if !ServiceWritable(v, svc, e) then (c, None)
              else if !EndpointsWritable(v, ep, e) then (c1, None)
              else (WithEndpoints(c1, k, RepairedEndpoints(v, ep)), Some(Frontend(RepairedService(v, svc))))
  {
    var k := v.Key();
    ExistingService(c, v, owner, e);
    var c1 := WithService(c, k, RepairedService(v, c.services[k]));
    hide EnsureServiceObject, EnsureEndpointsObject, RepairedService, RepairedEndpoints,
         ServiceWritable, EndpointsWritable, Frontend;
    ExistingEndpoints(c1, v, e);
  }

  /** Storing objects changes the cluster exactly when one of them differs from what was stored. */
  lemma PutBack(c: Cluster, k: ObjectKey, svc: Service, ep: Endpoints)
    requires k in c.services && k in c.endpoints
    ensures WithService(c, k, svc) == c <==> svc == c.services[k]
    ensures WithEndpoints(WithService(c, k, svc), k, ep) == c <==> svc == c.services[k] && ep == c.endpoints[k]
  {
    assert c.services[k := svc][k] == svc && c.endpoints[k := ep][k] == ep;
    assert svc == c.services[k] ==> c.services[k := svc] == c.services;
    assert ep == c.endpoints[k] ==> c.endpoints[k := ep] == c.endpoints;
  }

  /** A volume's changed objects no longer suit an entry that was in sync with the old ones. */
  lemma ChangeBreaksSync(c: Cluster, step: Step, w: SharedVolume)
    requires WellFormed(c) && InSync(c, w) && w.Key() == step.vol.Key() && TornWrite(c, step)
    ensures !InSync(Visit(c, step).0, w)
  {
    var v, k := step.vol, step.vol.Key();
    var svc, ep := c.services[k], c.endpoints[k];
    assert svc.Key() == k && ep.Key() == k;
    ExistingPass(c, v, Owner(v, step.pvcUID.value), step.env);
    hide EnsureService, Frontend, WellFormed, RepairedService, RepairedEndpoints, ServiceWritable, EndpointsWritable;
    hide SharedVolume.ServiceIsEqual, SharedVolume.ServiceUpdate, SharedVolume.EndpointsIsEqual, SharedVolume.EndpointsUpdate;
    if RepairedService(v, svc) != svc {
      RepairBreaksService(v, w, svc);
      assert Visit(c, step).0.services[k] == RepairedService(v, svc);
    } else {
      RepairBreaksEndpoints(v, w, ep);
      assert Visit(c, step).0.endpoints[k] == RepairedEndpoints(v, ep);
    }
  }

  lemma RepairBreaksService(v: SharedVolume, w: SharedVolume, svc: Service)
    requires w.Key() == v.Key() == svc.Key() && RepairedService(v, svc) != svc
    requires w.ServiceIsEqual(svc) || w.ServiceUpdate(svc) == svc
    ensures var svc' := RepairedService(v, svc); !w.ServiceIsEqual(svc') && w.ServiceUpdate(svc') != svc'
  {
    hide SharedVolume.InternalPort, Int32;
  }

  lemma RepairBreaksEndpoints(v: SharedVolume, w: SharedVolume, ep: Endpoints)
    requires w.Key() == v.Key() == ep.Key() && RepairedEndpoints(v, ep) != ep
    requires w.EndpointsIsEqual(ep) || w.EndpointsUpdate(ep) == ep
    ensures var ep' := RepairedEndpoints(v, ep); !w.EndpointsIsEqual(ep') && w.EndpointsUpdate(ep') != ep'
  {
    hide SharedVolume.InternalPort, SharedVolume.InternalAddress, Int32;
  }

  /**
    One step keeps the cache coherent exactly when it is not a torn write over
    a volume that stays cached.
   */
  lemma StepCoherentIff(s: State, step: Step, interval: int, owner: ObjectKey -> string)
    requires Coherent(s) && CacheOwned(owner, s) && Owned(owner, step.vol)
    ensures Coherent(Reconcile(s, step, interval)) <==> !TornOver(s, step)
    ensures CacheOwned(owner, Reconcile(s, step, interval))
  {
    hide Visit, TornWrite, WellFormed, OnlyAt, InSync;
    var cache := s.cache - step.evicted;
    if !Hit(cache, step.vol, step.now) {
      hide Hit;
      var id := step.vol.id;
      VisitPost(s.cluster, step);
      forall j | j in s.cache && j != id ensures InSync(Visit(s.cluster, step).0, s.cache[j].vol) {
        OtherEntry(s, step, owner, j);
      }
      if id in cache {
        if cache[id].vol.Key() == step.vol.Key() {
          OwnEntry(s, step);
        } else {
          OtherEntry(s, step, owner, id);
        }
      }
    }
  }

  /** Entries of other objects stay in sync. */
  lemma OtherEntry(s: State, step: Step, owner: ObjectKey -> string, j: string)
    requires Coherent(s) && CacheOwned(owner, s) && Owned(owner, step.vol)
    requires j in s.cache && (j != step.vol.id || s.cache[j].vol.Key() != step.vol.Key())
    ensures InSync(Visit(s.cluster, step).0, s.cache[j].vol)
  {
    hide Visit, WellFormed, OnlyAt, InSync;
    VisitPost(s.cluster, step);
    assert s.cache[j].vol.Key() != step.vol.Key();
    OthersStayInSync(s.cluster, Visit(s.cluster, step).0, step.vol.Key(), s.cache[j].vol);
  }

  /** A visit that fails leaves the volume's own entry in sync exactly if it is not a torn write. */
  lemma OwnEntry(s: State, step: Step)
    requires Coherent(s) && step.vol.id in s.cache && s.cache[step.vol.id].vol.Key() == step.vol.Key()
    ensures TornWrite(s.cluster, step) <==>
            Visit(s.cluster, step).1.None? && !InSync(Visit(s.cluster, step).0, s.cache[step.vol.id].vol)
  {
    var w := s.cache[step.vol.id].vol;
    assert InSync(s.cluster, w);
    assert w.Key() in s.cluster.services && w.Key() in s.cluster.endpoints;
    hide Visit, TornWrite, WellFormed, InSync, Coherent;
    TornWriteIff(s.cluster, step);
    if TornWrite(s.cluster, step) {
      ChangeBreaksSync(s.cluster, step, w);
    }
  }

  lemma OthersStayInSync(c: Cluster, c': Cluster, k: ObjectKey, w: SharedVolume)
    requires OnlyAt(c.services, c'.services, k) && OnlyAt(c.endpoints, c'.endpoints, k)
    requires InSync(c, w) && w.Key() != k
    ensures InSync(c', w)
  {
  }

  /** No step of the poll is a torn write over a volume that stays cached. */
  ghost predicate PollUntorn(s: State, steps: seq<Step>, interval: int)
    decreases |steps|
  {
    steps == [] || (!TornOver(s, steps[0]) && PollUntorn(Reconcile(s, steps[0], interval), steps[1..], interval))
  }

  ghost predicate RunUntorn(s: State, polls: seq<seq<Step>>, interval: int)
    decreases |polls|
  {
    polls == [] || (PollUntorn(s, polls[0], interval) && RunUntorn(Poll(s, polls[0], interval), polls[1..], interval))
  }

  ghost predicate StepsOwned(owner: ObjectKey -> string, steps: seq<Step>) {
    forall i | 0 <= i < |steps| :: Owned(owner, steps[i].vol)
  }

  lemma {:induction false} CachedPollRefines(s: State, steps: seq<Step>, interval: int, owner: ObjectKey -> string)
    requires Coherent(s) && CacheOwned(owner, s) && StepsOwned(owner, steps)
    requires PollUntorn(s, steps, interval)
    ensures var s' := Poll(s, steps, interval);
            s'.cluster == PollAll(s.cluster, steps) && Coherent(s') && CacheOwned(owner, s')
    decreases |steps|
  {
    if steps != [] {
      var step := steps[0];
      StepCoherentIff(s, step, interval, owner);
      var cache := s.cache - step.evicted;
      if Hit(cache, step.vol, step.now) {
        assert InSync(s.cluster, cache[step.vol.id].vol);
        assert cache[step.vol.id].vol == step.vol;
        VisitInSync(s.cluster, step);
      }
      assert Reconcile(s, step, interval).cluster == Visit(s.cluster, step).0;
      CachedPollRefines(Reconcile(s, step, interval), steps[1..], interval, owner);
    }
  }

  /**
    The cached loop refines the uncached one: for every sequence of polls,
    clock readings, evictions, PVC lookups and faults without a torn write over
    a cached volume, skipping leaves the same services, endpoints and
    publications as visiting every volume every time.
   */
  lemma {:induction false} CachedLoopRefines(s: State, polls: seq<seq<Step>>, interval: int, owner: ObjectKey -> string)
    requires Coherent(s) && CacheOwned(owner, s)
    requires forall i | 0 <= i < |polls| :: StepsOwned(owner, polls[i])
    requires RunUntorn(s, polls, interval)
    ensures Run(s, polls, interval).cluster == RunAll(s.cluster, polls)
    ensures Coherent(Run(s, polls, interval))
    decreases |polls|
  {
    if polls != [] {
      CachedPollRefines(s, polls[0], interval, owner);
      CachedLoopRefines(Poll(s, polls[0], interval), polls[1..], interval, owner);
    }
  }

  /**
    The condition is needed: after any torn write over a cached volume, polling
    the cached volume again before its entry expires (the volume failed back)
    makes the two loops differ.
   */
  lemma TornWriteDiverges(s: State, step: Step, again: Step, interval: int, owner: ObjectKey -> string)
    requires Coherent(s) && CacheOwned(owner, s) && Owned(owner, step.vol)
    requires TornOver(s, step)
    requires Smooth(again) && again.evicted == {} && again.vol == s.cache[step.vol.id].vol
    requires Hit(s.cache, again.vol, again.now)
    ensures Run(s, [[step], [again]], interval).cluster != RunAll(s.cluster, [[step], [again]])
  {
    TornStep(s, step, interval);
    var s1 := Reconcile(s, step, interval);
    hide Visit, InSync, TornWrite, WellFormed, Run, RunAll, Coherent, Smooth;
    assert s1.cache - again.evicted == s1.cache;
    assert Reconcile(s1, again, interval).cluster == s1.cluster;
    hide Reconcile;
    SkipSoundIff(s1.cluster, again);
    TwoPolls(s, step, again, interval);
  }

  /** A torn write keeps the entry, which no longer suits the cluster. */
  lemma TornStep(s: State, step: Step, interval: int)
    requires Coherent(s) && step.vol.serviceName != "" && TornOver(s, step)
    ensures var s' := Reconcile(s, step, interval);
            && s' == State(Visit(s.cluster, step).0, s.cache - step.evicted)
            && WellFormed(s'.cluster) && !InSync(s'.cluster, s.cache[step.vol.id].vol)
  {
    hide Visit, InSync, TornWrite, WellFormed, OnlyAt;
    VisitPost(s.cluster, step);
    OwnEntry(s, step);
  }

  lemma TwoPolls(s: State, a: Step, b: Step, interval: int)
    ensures Run(s, [[a], [b]], interval) == Reconcile(Reconcile(s, a, interval), b, interval)
    ensures RunAll(s.cluster, [[a], [b]]) == Visit(Visit(s.cluster, a).0, b).0
  {
    hide Reconcile, Visit;
    var s1, c1 := Reconcile(s, a, interval), Visit(s.cluster, a).0;
    assert Poll(s, [a], interval) == s1 && PollAll(s.cluster, [a]) == c1;
    assert [[a], [b]][1..] == [[b]];
    var s2, c2 := Reconcile(s1, b, interval), Visit(c1, b).0;
    assert Poll(s1, [b], interval) == s2 && PollAll(c1, [b]) == c2;
    assert Run(s1, [[b]], interval) == s2 && RunAll(c1, [[b]]) == c2;
  }

  const SMOOTH_ENV := Env(Answers, false, "10.0.0.1", [Answers], false, Answers, false, Answers, false, false)

  /** A volume that has just been published, alone in the cluster and cached for good. */
  function Settled(v: SharedVolume, svc: Service): State {
    State(Cluster(map[v.Key() := svc], map[v.Key() := v.NewEndpoints()], []), map[v.id := Entry(v, None)])
  }

  lemma SettledCoherent(v: SharedVolume, svc: Service)
    requires v.serviceName != "" && v.ServiceIsEqual(svc) && Frontend(svc) == v.externalEndpoint
    ensures Coherent(Settled(v, svc))
  {
    hide Frontend, SplitAddressPort, Int32;
    var c := Settled(v, svc).cluster;
    assert v.EndpointsIsEqual(v.NewEndpoints());
    assert InSync(c, v);
    assert WellFormed(c) by { hide SharedVolume.InternalPort, SharedVolume.InternalAddress, InSync; }
    hide InSync, WellFormed, SharedVolume.NewEndpoints, SharedVolume.ServiceIsEqual, SharedVolume.EndpointsIsEqual;
  }

  /**
    A failover to another port whose endpoints lookup fails, followed by a failback:
    the cached loop leaves the service on the port of the failed failover.
   */
  lemma FailedFailoverDiverges(v: SharedVolume, svc: Service, moved: string)
    requires v.serviceName != "" && v.ServiceIsEqual(svc) && Frontend(svc) == v.externalEndpoint
    requires Int32(v.(internalEndpoint := moved).InternalPort()) != Int32(v.InternalPort())
    ensures var away, back := Away(v, moved), Step(v, 0, {}, Some("uid"), SMOOTH_ENV); var s := Settled(v, svc);
            Coherent(s) && Run(s, [[away], [back]], 0).cluster != RunAll(s.cluster, [[away], [back]])
  {
    var away, back := Away(v, moved), Step(v, 0, {}, Some("uid"), SMOOTH_ENV);
    var s := Settled(v, svc);
    SettledCoherent(v, svc);
    AwayTorn(v, svc, moved);
    hide Coherent, Frontend, Run, RunAll, TornOver, SharedVolume.InternalPort, SharedVolume.ServiceIsEqual, SharedVolume.NewEndpoints, SharedVolume.Key, Int32;
    var owner := (_: ObjectKey) => v.id;
    assert CacheOwned(owner, s) && Owned(owner, away.vol) && Smooth(back) && Hit(s.cache, v, 0);
    assert s.cache[v.id].vol == v;
    hide CacheOwned, Owned, Smooth, Hit, Settled;
    TornWriteDiverges(s, away, back, 0, owner);
  }

  /** The volume has moved, and the lookup of its endpoints fails. */
  function Away(v: SharedVolume, moved: string): Step {
    Step(v.(internalEndpoint := moved), 0, {}, Some("uid"), SMOOTH_ENV.(getEndpoints := Fails))
  }

  lemma AwayTorn(v: SharedVolume, svc: Service, moved: string)
    requires v.ServiceIsEqual(svc)
    requires Int32(v.(internalEndpoint := moved).InternalPort()) != Int32(v.InternalPort())
    ensures TornOver(Settled(v, svc), Away(v, moved))
  {
    var s, away := Settled(v, svc), Away(v, moved);
    assert s.cache - {} == s.cache;
    assert RepairedService(away.vol, svc) != svc;
    hide RepairedService, SharedVolume.InternalPort, Int32, Frontend, RepairedEndpoints;
  }

  /** For instance a volume that moves from port 1 to port 2 and back. */
  lemma TornWriteExample() returns (v: SharedVolume, svc: Service, moved: string)
    ensures v.serviceName != "" && v.ServiceIsEqual(svc) && Frontend(svc) == v.externalEndpoint
    ensures Int32(v.(internalEndpoint := moved).InternalPort()) != Int32(v.InternalPort())
  {
    PrintThenSplit("a", 1);
    PrintThenSplit("a", 2);
    hide SplitAddressPort, Print;
    v, moved := SharedVolume("id", "pv", "pvc", "ns", Print("a", 1), ""), Print("a", 2);
    svc := v.NewService(Owner(v, "uid")).(clusterIP := "10.0.0.1");
    v := v.(externalEndpoint := Frontend(svc));
  }

  /** Calls after the first write do not fail or lag. */
  predicate WritesComplete(step: Step) {
    var e := step.env;
    e.getEndpoints.Answers? && !e.updateEndpointsFails && !e.publishFails
  }

  lemma {:induction false} CompleteWritesUntorn(s: State, steps: seq<Step>, interval: int)
    requires forall i | 0 <= i < |steps| :: WritesComplete(steps[i])
    ensures PollUntorn(s, steps, interval)
    decreases |steps|
  {
    if steps != [] {
      assert WritesComplete(steps[0]);
      assert forall i | 0 <= i < |steps[1..]| :: steps[1..][i] == steps[i + 1];
      CompleteWritesUntorn(Reconcile(s, steps[0], interval), steps[1..], interval);
    }
  }

  /** In particular no run in which the calls after the first write succeed is torn. */
  lemma {:induction false} CompleteRunUntorn(s: State, polls: seq<seq<Step>>, interval: int)
    requires forall i, j | 0 <= i < |polls| && 0 <= j < |polls[i]| :: WritesComplete(polls[i][j])
    ensures RunUntorn(s, polls, interval)
    decreases |polls|
  {
    if polls != [] {
      CompleteWritesUntorn(s, polls[0], interval);
      CompleteRunUntorn(Poll(s, polls[0], interval), polls[1..], interval);
    }
  }

  /******* Failovers *******/

  /** Services stay, with the same name, type, labels, owner and ClusterIP. */
  ghost predicate Frozen(c: Cluster, c': Cluster) {
    && c.services.Keys <= c'.services.Keys
    && c.endpoints.Keys <= c'.endpoints.Keys
    && forall k | k in c.services :: c'.services[k].(ports := []) == c.services[k].(ports := [])
  }

  /** Every service with a single port serves the NFS port, as those made here do. */
  ghost predicate Shaped(c: Cluster) {
    forall k | k in c.services :: ShapedService(c.services[k])
  }

  /** From the given position on, a publication names the ClusterIP of its service. */
  ghost predicate PublishesClusterIP(c: Cluster, from: nat) {
    forall i | from <= i < |c.publications| ::
      var p := c.publications[i];
      p.key in c.services && p.endpoint == c.services[p.key].clusterIP + ":2049"
  }

  predicate ShapedService(svc: Service) {
    |svc.ports| == 1 ==> svc.ports[0].port == 2049
  }

  lemma EnsureServiceObjectFreezes(c: Cluster, v: SharedVolume, owner: OwnerReference, e: Env)
    requires WellFormed(c)
    ensures var c', k := EnsureServiceObject(c, v, owner, e).0, v.Key();
            && (k in c.services ==>
                  && k in c'.services
                  && c'.services[k].(ports := []) == c.services[k].(ports := [])
                  && (ShapedService(c.services[k]) ==> ShapedService(c'.services[k])))
            && (k !in c.services && k in c'.services ==> ShapedService(c'.services[k]))
  {
    if v.Key() in c.services {
      ExistingService(c, v, owner, e);
    } else {
      assert v.ServiceIsEqual(v.NewService(owner).(clusterIP := e.allocatedIP));
    }
  }

  /** The endpoints phase and the publication leave the services alone. */
  lemma VisitServices(c: Cluster, step: Step)
    ensures Visit(c, step).0.services ==
              if step.pvcUID.None? then c.services
              else EnsureServiceObject(c, step.vol, Owner(step.vol, step.pvcUID.value), step.env).0.services
  {
    if step.pvcUID.Some? {
      var c1 := EnsureServiceObject(c, step.vol, Owner(step.vol, step.pvcUID.value), step.env).0;
      assert EnsureEndpointsObject(c1, step.vol, step.env).0.services == c1.services;
      hide EnsureServiceObject, EnsureEndpointsObject, Frontend;
    }
  }

  lemma VisitFreezes(c: Cluster, step: Step)
    requires WellFormed(c) && step.vol.serviceName != ""
    ensures Frozen(c, Visit(c, step).0)
    ensures Shaped(c) ==> Shaped(Visit(c, step).0)
  {
    hide Visit, EnsureServiceObject, InSync, ShapedService;
    VisitPost(c, step);
    VisitServices(c, step);
    if step.pvcUID.Some? {
      EnsureServiceObjectFreezes(c, step.vol, Owner(step.vol, step.pvcUID.value), step.env);
    }
  }

  lemma DoneFrontend(v: SharedVolume, before: Option<Service>, svc: Service)
    requires ServiceDone(v, before, svc) && ShapedService(svc)
    ensures Frontend(svc) == svc.clusterIP + ":2049"
  {
    PrintNfs(svc.clusterIP);
    hide Print;
  }

  /** A pass over shaped services gives the ClusterIP of its service, with the NFS port. */
  lemma GivesClusterIP(c: Cluster, v: SharedVolume, owner: OwnerReference, e: Env)
    requires WellFormed(c) && v.serviceName != "" && Shaped(c)
    ensures var (c', r) := EnsureService(c, v, owner, e);
            && c'.publications == c.publications
            && (r.Some? ==> v.Key() in c'.services && r.value == c'.services[v.Key()].clusterIP + ":2049")
  {
    hide EnsureServiceObject, EnsureEndpointsObject, Print, WellFormed, EndpointsDone, OnlyAt, ServiceDone, Frontend, ShapedService;
    EnsureServiceObjectFreezes(c, v, owner, e);
    EnsureServiceObjectPost(c, v, owner, e);
    var (c1, svc) := EnsureServiceObject(c, v, owner, e);
    StaysWellFormed(c, c1, v.Key());
    if svc.Some? {
      EnsureEndpointsObjectPost(c1, v, e);
      DoneFrontend(v, At(c.services, v.Key()), svc.value);
    }
  }

  lemma VisitPublishes(c: Cluster, step: Step, from: nat)
    requires WellFormed(c) && step.vol.serviceName != "" && Shaped(c)
    requires from <= |c.publications| && PublishesClusterIP(c, from)
    ensures var c' := Visit(c, step).0; from <= |c'.publications| && PublishesClusterIP(c', from)
  {
    hide EnsureService, Print, WellFormed, Shaped;
    VisitFreezes(c, step);
    var v, c' := step.vol, Visit(c, step).0;
    if step.pvcUID.Some? {
      GivesClusterIP(c, v, Owner(v, step.pvcUID.value), step.env);
      var (c1, r) := EnsureService(c, v, Owner(v, step.pvcUID.value), step.env);
      var last := Publication(v.id, v.Key(), if r.Some? then r.value else "");
      assert c'.services == c1.services;
      assert c'.publications == c.publications || (r.Some? && c'.publications == c.publications + [last]);
      hide Visit;
      forall i | from <= i < |c'.publications|
        ensures var p := c'.publications[i];
                p.key in c'.services && p.endpoint == c'.services[p.key].clusterIP + ":2049"
      {
        if i < |c.publications| {
          var p := c.publications[i];
          assert c'.publications[i] == p;
          assert c'.services[p.key].(ports := []) == c.services[p.key].(ports := []);
        } else {
          assert c'.publications[i] == last;
        }
      }
    }
  }

  lemma FrozenTrans(a: Cluster, b: Cluster, c: Cluster)
    requires Frozen(a, b) && Frozen(b, c)
    ensures Frozen(a, c)
  {
    forall k | k in a.services ensures c.services[k].(ports := []) == a.services[k].(ports := []) {
      assert b.services[k].(ports := []) == a.services[k].(ports := []);
    }
  }

  lemma {:induction false} PollKeepsEndpoints(s: State, steps: seq<Step>, interval: int, from: nat)
    requires WellFormed(s.cluster) && Shaped(s.cluster)
    requires from <= |s.cluster.publications| && PublishesClusterIP(s.cluster, from)
    requires forall i | 0 <= i < |steps| :: steps[i].vol.serviceName != ""
    ensures var c' := Poll(s, steps, interval).cluster;
            && WellFormed(c') && Shaped(c') && Frozen(s.cluster, c')
            && from <= |c'.publications| && PublishesClusterIP(c', from)
    decreases |steps|
  {
    if steps == [] {
      hide WellFormed, Shaped, PublishesClusterIP;
    } else {
      hide Visit, WellFormed, Shaped, PublishesClusterIP, OnlyAt, InSync, Hit;
      VisitPost(s.cluster, steps[0]);
      VisitFreezes(s.cluster, steps[0]);
      VisitPublishes(s.cluster, steps[0], from);
      assert Frozen(s.cluster, s.cluster);
      hide Frozen;
      var s1 := Reconcile(s, steps[0], interval);
      assert s1.cluster == s.cluster || s1.cluster == Visit(s.cluster, steps[0]).0;
      hide Reconcile;
      PollKeepsEndpoints(s1, steps[1..], interval, from);
      FrozenTrans(s.cluster, s1.cluster, Poll(s1, steps[1..], interval).cluster);
    }
  }

  /**
    Over every run of failovers, torn writes and faults included, no service
    loses its ClusterIP or identity, none is deleted, and everything published
    on the way is the ClusterIP its service has at the end, with port 2049. So
    one service is never published under two endpoints.
   */
  lemma {:induction false} FailoversKeepEndpoints(s: State, polls: seq<seq<Step>>, interval: int, from: nat)
    requires WellFormed(s.cluster) && Shaped(s.cluster)
    requires from <= |s.cluster.publications| && PublishesClusterIP(s.cluster, from)
    requires forall i, j | 0 <= i < |polls| && 0 <= j < |polls[i]| :: polls[i][j].vol.serviceName != ""
    ensures var c' := Run(s, polls, interval).cluster;
            Frozen(s.cluster, c') && from <= |c'.publications| && PublishesClusterIP(c', from)
    decreases |polls|
  {
    if polls != [] {
      PollKeepsEndpoints(s, polls[0], interval, from);
      FailoversKeepEndpoints(Poll(s, polls[0], interval), polls[1..], interval, from);
    }
  }
}
