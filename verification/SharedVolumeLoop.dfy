/**
  The reconcile loop of internal/controllers/sharedvolume/controller.go as
  functions on values: what one visit of a volume does to the cluster, what the
  cache remembers, and how the cached loop relates to the uncached one.

  The API server is a map of objects. Everything it may answer is an input: a
  read may be answered, lag behind (the object is not visible yet) or fail, and
  every write may fail.
 */
module SharedVolumeLoop {
  import opened Common
  import opened SharedVolumeTypes

  datatype Reply = Answers | Lags | Fails

  /** The behaviour of the API server and the control plane during one visit. */
  datatype Env = Env(
    getService: Reply,
    createServiceFails: bool,
    allocatedIP: string,
    servicePolls: seq<Reply>,
    updateServiceFails: bool,
    getEndpoints: Reply,
    createEndpointsFails: bool,
    endpointsPoll: Reply,
    updateEndpointsFails: bool,
    publishFails: bool)

  datatype Publication = Publication(volumeID: string, key: ObjectKey, endpoint: string)

  datatype Cluster = Cluster(
    services: map<ObjectKey, Service>,
    endpoints: map<ObjectKey, Endpoints>,
    publications: seq<Publication>)

  /******* ensureService *******/

  /** The service is seen with an address before a read fails or the polls run out. */
  function SeesClusterIP(svc: Service, polls: seq<Reply>): bool {
    if polls == [] || polls[0].Fails? then false
    else if polls[0].Answers? && svc.clusterIP != "" then true
    else SeesClusterIP(svc, polls[1..])
  }

  function UpdateService(c: Cluster, v: SharedVolume, svc: Service, e: Env): (Cluster, Option<Service>) {
    if v.ServiceIsEqual(svc) then (c, Some(svc))
    else if e.updateServiceFails || svc.name == "" || svc.Key() !in c.services then (c, None)
    else
      var updated := v.ServiceUpdate(svc);
      (c.(services := c.services[updated.Key() := updated]), Some(updated))
  }

  function EnsureServiceObject(c: Cluster, v: SharedVolume, owner: OwnerReference, e: Env): (Cluster, Option<Service>) {
    if e.getService.Fails? then (c, None)
    else if e.getService.Answers? && v.Key() in c.services then
      UpdateService(c, v, c.services[v.Key()], e)
    else if e.createServiceFails || v.Key() in c.services then (c, None)
    else
      var svc := v.NewService(owner).(clusterIP := e.allocatedIP);
      var c1 := c.(services := c.services[v.Key() := svc]);
      if SeesClusterIP(svc, e.servicePolls) then UpdateService(c1, v, svc, e) else (c1, None)
  }

  function UpdateEndpoints(c: Cluster, v: SharedVolume, ep: Endpoints, e: Env): (Cluster, bool) {
    if v.EndpointsIsEqual(ep) then (c, true)
    else if e.updateEndpointsFails || ep.name == "" || ep.Key() !in c.endpoints then (c, false)
    else
      var updated := v.EndpointsUpdate(ep);
      (c.(endpoints := c.endpoints[updated.Key() := updated]), true)
  }

  function EnsureEndpointsObject(c: Cluster, v: SharedVolume, e: Env): (Cluster, bool) {
    if e.getEndpoints.Fails? then (c, false)
    else if e.getEndpoints.Answers? && v.Key() in c.endpoints then
      UpdateEndpoints(c, v, c.endpoints[v.Key()], e)
    else if e.createEndpointsFails || v.Key() in c.endpoints then (c, false)
    else
      var ep := v.NewEndpoints();
      var c1 := c.(endpoints := c.endpoints[v.Key() := ep]);
      if e.endpointsPoll.Fails? then (c1, false)
      else UpdateEndpoints(c1, v, if e.endpointsPoll.Lags? then NO_ENDPOINTS else ep, e)
  }

  /** The new cluster and, unless an error is returned, the public endpoint. */
  function EnsureService(c: Cluster, v: SharedVolume, owner: OwnerReference, e: Env): (Cluster, Option<string>) {
    var (c1, svc) := EnsureServiceObject(c, v, owner, e);
    if svc.None? then (c1, None)
    else
      var (c2, ok) := EnsureEndpointsObject(c1, v, e);
      (c2, if ok then Some(Frontend(svc.value)) else None)
  }

  /******* The loop *******/

  /** One volume of one poll, with the clock, the janitor's evictions and the PVC as then found. */
  datatype Step = Step(vol: SharedVolume, now: int, evicted: set<string>, pvcUID: Option<string>, env: Env)

  function Owner(v: SharedVolume, uid: string): OwnerReference {
    OwnerReference("v1", "PersistentVolumeClaim", v.pvcName, uid)
  }

  /** Everything after the cache lookup. Gives the volume to cache, if the visit succeeds. */
  function Visit(c: Cluster, step: Step): (Cluster, Option<SharedVolume>) {
    var v := step.vol;
    if step.pvcUID.None? then (c, None)
    else
      var (c1, r) := EnsureService(c, v, Owner(v, step.pvcUID.value), step.env);
      if r.None? then (c1, None)
      else if r.value == v.externalEndpoint then (c1, Some(v))
      else if step.env.publishFails then (c1, None)
      else
        var c2 := c1.(publications := c1.publications + [Publication(v.id, v.Key(), r.value)]);
        (c2, Some(v.(externalEndpoint := r.value)))
  }

  const DEFAULT_EXPIRY: int := 60_000_000_000

  datatype Entry = Entry(vol: SharedVolume, expires: Option<int>)

  datatype State = State(cluster: Cluster, cache: map<string, Entry>)

  /** A zero interval means the default one and a negative interval means no expiry. */
  function NewEntry(v: SharedVolume, now: int, interval: int): Entry {
    var d := if interval == 0 then DEFAULT_EXPIRY else interval;
    Entry(v, if d > 0 then Some(now + d) else None)
  }

  predicate Hit(cache: map<string, Entry>, v: SharedVolume, now: int) {
    && v.id in cache
    && (cache[v.id].expires.Some? ==> now <= cache[v.id].expires.value)
    && cache[v.id].vol.IsEqual(v)
  }

  function Reconcile(s: State, step: Step, interval: int): State {
    var cache := s.cache - step.evicted;
    if Hit(cache, step.vol, step.now) then s.(cache := cache)
    else
      var (c, done) := Visit(s.cluster, step);
      State(c, if done.Some? then cache[step.vol.id := NewEntry(done.value, step.now, interval)] else cache)
  }

  function Poll(s: State, steps: seq<Step>, interval: int): State
    decreases |steps|
  {
    if steps == [] then s else Poll(Reconcile(s, steps[0], interval), steps[1..], interval)
  }

  function Run(s: State, polls: seq<seq<Step>>, interval: int): State
    decreases |polls|
  {
    if polls == [] then s else Run(Poll(s, polls[0], interval), polls[1..], interval)
  }

  /** The loop that never skips a volume. */
  function PollAll(c: Cluster, steps: seq<Step>): Cluster
    decreases |steps|
  {
    if steps == [] then c else PollAll(Visit(c, steps[0]).0, steps[1..])
  }

  function RunAll(c: Cluster, polls: seq<seq<Step>>): Cluster
    decreases |polls|
  {
    if polls == [] then c else RunAll(PollAll(c, polls[0]), polls[1..])
  }
}
