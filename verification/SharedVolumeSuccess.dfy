/** Exactly when a visit of a shared volume succeeds. */
module SharedVolumeSuccess {
  import opened Common
  import opened Strconv
  import opened Endpoint
  import opened SharedVolumeTypes
  import opened SharedVolumeLoop
  import opened SharedVolumeProofs

  /** Some poll answers before one fails. */
  predicate SomePollAnswers(polls: seq<Reply>) {
    exists k | 0 <= k < |polls| :: polls[k].Answers? && forall j | 0 <= j < k :: !polls[j].Fails?
  }

  lemma {:induction false} SeesIff(svc: Service, polls: seq<Reply>)
    ensures SeesClusterIP(svc, polls) <==> svc.clusterIP != "" && SomePollAnswers(polls)
  {
    if polls != [] && !polls[0].Fails? {
      var rest := polls[1..];
      SeesIff(svc, rest);
      if SomePollAnswers(rest) {
        var k :| 0 <= k < |rest| && rest[k].Answers? && forall j | 0 <= j < k :: !rest[j].Fails?;
        assert polls[k + 1].Answers? && forall j | 0 < j < k + 1 :: polls[j] == rest[j - 1];
        assert forall j | 0 <= j < k + 1 :: !polls[j].Fails?;
      }
      if SomePollAnswers(polls) && !polls[0].Answers? {
        var k :| 0 <= k < |polls| && polls[k].Answers? && forall j | 0 <= j < k :: !polls[j].Fails?;
        assert rest[k - 1].Answers? && forall j | 0 <= j < k - 1 :: rest[j] == polls[j + 1];
      }
    }
  }

  /** A service that is seen is right or can be updated; any other can be made and is then seen with an address. */
  predicate ServiceReady(c: Cluster, v: SharedVolume, e: Env) {
    var k := v.Key();
    && !e.getService.Fails?
    && if e.getService.Answers? && k in c.services
       then ServiceDesired(v, c.services[k]) || !e.updateServiceFails
       else k !in c.services && !e.createServiceFails && e.allocatedIP != "" && SomePollAnswers(e.servicePolls)
  }

  /** Endpoints that are seen are right or can be updated; any others can be made and are then seen. */
  predicate EndpointsReady(c: Cluster, v: SharedVolume, e: Env) {
    var k := v.Key();
    && !e.getEndpoints.Fails?
    && if e.getEndpoints.Answers? && k in c.endpoints
       then EndpointsDesired(v, c.endpoints[k]) || !e.updateEndpointsFails
       else k !in c.endpoints && !e.createEndpointsFails && e.endpointsPoll.Answers?
  }

  /** The ClusterIP with the port that the service has or gets. */
  function PublicEndpoint(c: Cluster, v: SharedVolume, e: Env): string {
    var k := v.Key();
    if k !in c.services then e.allocatedIP + ":2049"
    else
      var svc := c.services[k];
      svc.clusterIP + ":" + if |svc.ports| == 1 then Itoa(svc.ports[0].port) else "2049"
  }

  lemma ServiceSucceedsIff(c: Cluster, v: SharedVolume, owner: OwnerReference, e: Env)
    requires WellFormed(c) && v.serviceName != ""
    ensures var r := EnsureServiceObject(c, v, owner, e).1;
            && (r.Some? <==> ServiceReady(c, v, e))
            && (r.Some? ==> Frontend(r.value) == PublicEndpoint(c, v, e))
  {
    var k := v.Key();
    var made := v.NewService(owner).(clusterIP := e.allocatedIP);
    if k in c.services {
      DesiredIff(v, c.services[k], NO_ENDPOINTS);
      ExistingService(c, v, owner, e);
      FrontendKept(v, c.services[k]);
    } else {
      assert v.ServiceIsEqual(made);
      SeesIff(made, e.servicePolls);
      PrintNfs(e.allocatedIP);
    }
    hide SharedVolume.InternalPort, Int32, ServiceDesired, SeesClusterIP, SomePollAnswers, Print, RepairedService;
    if k !in c.services {
      MadeFrontend(v, owner, e.allocatedIP);
    }
  }

  lemma MadeFrontend(v: SharedVolume, owner: OwnerReference, ip: string)
    ensures Frontend(v.NewService(owner).(clusterIP := ip)) == ip + ":2049"
  {
    PrintNfs(ip);
    hide Print;
  }

  /** A repair keeps the port of a single-port service and gives any other the NFS port. */
  lemma FrontendKept(v: SharedVolume, svc: Service)
    ensures Frontend(RepairedService(v, svc)) ==
            svc.clusterIP + ":" + if |svc.ports| == 1 then Itoa(svc.ports[0].port) else "2049"
  {
    PrintNfs(svc.clusterIP);
    assert ":2049" == ":" + "2049";
    assert svc.clusterIP + ":2049" == svc.clusterIP + ":" + "2049";
    hide SharedVolume.InternalPort, Int32, Itoa;
  }

  lemma EndpointsSucceedIff(c: Cluster, v: SharedVolume, e: Env)
    requires WellFormed(c) && v.serviceName != ""
    ensures EnsureEndpointsObject(c, v, e).1 <==> EndpointsReady(c, v, e)
  {
    var k := v.Key();
    assert v.EndpointsIsEqual(v.NewEndpoints());
    if k in c.endpoints {
      DesiredIff(v, v.NewService(OwnerReference("", "", "", "")), c.endpoints[k]);
      ExistingEndpoints(c, v, e);
    }
    hide SharedVolume.InternalPort, SharedVolume.InternalAddress, Int32, EndpointsDesired, RepairedEndpoints;
  }

  /**
    A visit succeeds if and only if the PVC is found, both objects are right or can
    be made so, and the public endpoint is the polled one or can be published.
   */
  lemma VisitSucceedsIff(c: Cluster, step: Step)
    requires WellFormed(c) && step.vol.serviceName != ""
    ensures var v, e := step.vol, step.env; var done := Visit(c, step).1;
            && (done.Some? <==>
                  && step.pvcUID.Some? && ServiceReady(c, v, e) && EndpointsReady(c, v, e)
                  && (PublicEndpoint(c, v, e) == v.externalEndpoint || !e.publishFails))
            && (done.Some? ==> done.value == v.(externalEndpoint := PublicEndpoint(c, v, e)))
  {
    var v, e := step.vol, step.env;
    hide EnsureServiceObject, EnsureEndpointsObject, Frontend, WellFormed, ServiceReady, EndpointsReady, PublicEndpoint, OnlyAt, ServiceDone;
    if step.pvcUID.Some? {
      var owner := Owner(v, step.pvcUID.value);
      ServiceSucceedsIff(c, v, owner, e);
      EnsureServiceObjectPost(c, v, owner, e);
      var c1 := EnsureServiceObject(c, v, owner, e).0;
      StaysWellFormed(c, c1, v.Key());
      EndpointsSucceedIff(c1, v, e);
      SameReady(c, c1, v, e);
      assert v.(externalEndpoint := v.externalEndpoint) == v;
    }
  }

  lemma SameReady(c: Cluster, c1: Cluster, v: SharedVolume, e: Env)
    requires c1.endpoints == c.endpoints
    ensures EndpointsReady(c1, v, e) == EndpointsReady(c, v, e)
  {
  }
}
