/**
  Shared volumes and the Kubernetes objects each of them needs
  (internal/pkg/storageos/shared_volume_types.go and shared_volume.go).
 */
module SharedVolumeTypes {
  import opened Common
  import opened Strconv
  import opened Endpoint

  const NFS_PORT := 2049
  const NFS_PORT_NAME := "nfs"
  const NFS_PROTOCOL := "TCP"
  const CLUSTER_IP_TYPE := "ClusterIP"
  const VOLUME_ID_LABEL := "storageos.com/volume-id"
  const MOUNT_ENDPOINT_LABEL := "storageos.com/nfs/mount-endpoint"

  /** A target port is a number or the name of a container port. */
  datatype TargetPort = NumberPort(number: int) | NamedPort(name: string) {
    function IntVal(): int {
      if NumberPort? then number else 0
    }
  }

  datatype ServicePort = ServicePort(name: string, port: int, protocol: string, target: TargetPort)

  datatype OwnerReference = OwnerReference(apiVersion: string, kind: string, name: string, uid: string)

  datatype Service = Service(
    name: string, namespace: string, labels: map<string, string>, owners: seq<OwnerReference>,
    serviceType: string, clusterIP: string, ports: seq<ServicePort>)
  {
    function Key(): ObjectKey { ObjectKey(namespace, name) }
  }

  datatype EndpointPort = EndpointPort(name: string, port: int, protocol: string)

  datatype Subset = Subset(addresses: seq<string>, ports: seq<EndpointPort>)

  datatype Endpoints = Endpoints(name: string, namespace: string, labels: map<string, string>, subsets: seq<Subset>)
  {
    function Key(): ObjectKey { ObjectKey(namespace, name) }
  }

  /** What a Get that found nothing leaves behind. */
  const NO_ENDPOINTS := Endpoints("", "", map[], [])

  datatype SharedVolume = SharedVolume(
    id: string, serviceName: string, pvcName: string, namespace: string,
    internalEndpoint: string, externalEndpoint: string)
  {
    function Key(): ObjectKey { ObjectKey(namespace, serviceName) }

    /** Equality of everything but the ID. */
    predicate IsEqual(other: SharedVolume) {
      this.(id := other.id) == other
    }

    function InternalAddress(): string {
      match SplitAddressPort(internalEndpoint)
      case Ok(ap) => ap.address
      case Err(_) => ""
    }

    function InternalPort(): int {
      match SplitAddressPort(internalEndpoint)
      case Ok(ap) => ap.port
      case Err(_) => 0
    }

    function NfsPort(): ServicePort {
      ServicePort(NFS_PORT_NAME, NFS_PORT, NFS_PROTOCOL, NumberPort(Int32(InternalPort())))
    }

    function NewService(owner: OwnerReference): Service {
      Service(serviceName, namespace, map[VOLUME_ID_LABEL := id], [owner], CLUSTER_IP_TYPE, "", [NfsPort()])
    }

    predicate ServiceIsEqual(svc: Service) {
      && svc.Key() == Key()
      && svc.serviceType == CLUSTER_IP_TYPE
      && |svc.ports| == 1
      && IsNfsPort(svc.ports[0])
      && svc.ports[0].target.IntVal() == Int32(InternalPort())
    }

    /** A wrong number of ports is replaced; a single port only has its target set. */
    function ServiceUpdate(svc: Service): Service {
      if |svc.ports| != 1 then svc.(ports := [NfsPort()])
      else svc.(ports := [svc.ports[0].(target := NumberPort(Int32(InternalPort())))])
    }

    function NfsSubset(): Subset {
      Subset([InternalAddress()], [EndpointPort(NFS_PORT_NAME, Int32(InternalPort()), NFS_PROTOCOL)])
    }

    function NewEndpoints(): Endpoints {
      Endpoints(serviceName, namespace, map[VOLUME_ID_LABEL := id], [NfsSubset()])
    }

    predicate EndpointsIsEqual(ep: Endpoints) {
      && ep.Key() == Key()
      && |ep.subsets| == 1
      && |ep.subsets[0].addresses| > 0
      && ep.subsets[0].addresses[0] == InternalAddress()
      && |ep.subsets[0].ports| > 0
      && ep.subsets[0].ports[0] == EndpointPort(NFS_PORT_NAME, Int32(InternalPort()), NFS_PROTOCOL)
    }

    /** Anything but one subset of one address and one port is replaced. */
    function EndpointsUpdate(ep: Endpoints): Endpoints {
      if !Single(ep) then ep.(subsets := [NfsSubset()])
      else
        var port := ep.subsets[0].ports[0].(port := Int32(InternalPort()));
        ep.(subsets := [Subset([InternalAddress()], [port])])
    }
  }

  predicate IsNfsPort(p: ServicePort) {
    p.name == NFS_PORT_NAME && p.port == NFS_PORT && p.protocol == NFS_PROTOCOL
  }

  predicate Single(ep: Endpoints) {
    |ep.subsets| == 1 && |ep.subsets[0].addresses| == 1 && |ep.subsets[0].ports| == 1
  }

  /** The public endpoint of a service. */
  function Frontend(svc: Service): string {
    if |svc.ports| != 1 then "" else Print(svc.clusterIP, svc.ports[0].port)
  }

  /******* Volumes of the control plane *******/

  datatype ApiVolume = ApiVolume(id: string, labels: map<string, string>, serviceEndpoint: Option<string>)

  datatype VolumeError = NotKubernetes | NotShared | BadEndpoint(e: EndpointError)

  function ToSharedVolume(vol: ApiVolume): Result<SharedVolume, VolumeError> {
    var pv := Lookup(vol.labels, PV_NAME_LABEL);
    var pvc := Lookup(vol.labels, PVC_NAME_LABEL);
    var namespace := Lookup(vol.labels, PVC_NAMESPACE_LABEL);
    if pv == "" || pvc == "" || namespace == "" then Err(NotKubernetes)
    else if vol.serviceEndpoint.None? then Err(NotShared)
    else
      match SplitAddressPort(vol.serviceEndpoint.value)
      case Err(e) => Err(BadEndpoint(e))
      case Ok(_) =>
        Ok(SharedVolume(vol.id, pv, pvc, namespace, vol.serviceEndpoint.value, Lookup(vol.labels, MOUNT_ENDPOINT_LABEL)))
  }

  /** The three Kubernetes labels are set, and the volume has an endpoint that splits. */
  predicate Acceptable(vol: ApiVolume) {
    && Lookup(vol.labels, "csi.storage.k8s.io/pv/name") != ""
    && Lookup(vol.labels, "csi.storage.k8s.io/pvc/name") != ""
    && Lookup(vol.labels, "csi.storage.k8s.io/pvc/namespace") != ""
    && vol.serviceEndpoint.Some? && SplitAddressPort(vol.serviceEndpoint.value).Ok?
  }

  /**
    A volume is accepted if and only if its three Kubernetes labels are set and its
    endpoint splits. Its objects are then named after the PV, in the namespace of
    the PVC, and owned by the PVC; the address and port put into them are the
    advertised ones and never the empty fallback, and printing them back gives the
    endpoint up to the spelling of the number and the brackets.
   */
  lemma AcceptedVolumeParses(vol: ApiVolume)
    ensures ToSharedVolume(vol).Ok? <==> Acceptable(vol)
    ensures Acceptable(vol) ==>
              var v := ToSharedVolume(vol).value;
              && v.id == vol.id
              && v.Key() == ObjectKey(vol.labels["csi.storage.k8s.io/pvc/namespace"], vol.labels["csi.storage.k8s.io/pv/name"])
              && v.pvcName == vol.labels["csi.storage.k8s.io/pvc/name"]
              && v.internalEndpoint == vol.serviceEndpoint.value
              && v.externalEndpoint == Lookup(vol.labels, "storageos.com/nfs/mount-endpoint")
              && v.Key().name != "" && v.Key().namespace != "" && v.pvcName != ""
              && SplitAddressPort(vol.serviceEndpoint.value) == Ok(AddressPort(v.InternalAddress(), v.InternalPort()))
              && (PlainHost(v.InternalAddress()) ==>
                    SplitAddressPort(Print(v.InternalAddress(), v.InternalPort()))
                    == SplitAddressPort(vol.serviceEndpoint.value))
  {
    if Acceptable(vol) {
      var v := ToSharedVolume(vol).value;
      var port := SplitHostPort(vol.serviceEndpoint.value).value.1;
      assert Atoi(port) == Some(v.InternalPort());
      PrintThenSplit(v.InternalAddress(), v.InternalPort());
    }
  }

  /** Two polls of a volume are taken to be equal if everything but the ID is. */
  lemma IsEqualIff(v: SharedVolume, w: SharedVolume)
    ensures v.IsEqual(w) <==>
            && v.serviceName == w.serviceName && v.pvcName == w.pvcName && v.namespace == w.namespace
            && v.internalEndpoint == w.internalEndpoint && v.externalEndpoint == w.externalEndpoint
  {
  }
}
