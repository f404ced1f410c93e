# Verified model of the StorageOS API manager

The API manager reconciles Kubernetes with the StorageOS control plane. This
Dafny project models its hard parts and proves what they guarantee over every
input, every run or every interleaving:

- the **shared-volume reconciler**: a polling loop with an expiring cache that
  keeps one Service and one Endpoints object per shared volume and publishes
  `ClusterIP:port` (`SharedVolume*.dfy`, `Endpoint.dfy`);
- the **pod fencer**: a destructive state machine over nodes, pods, PVCs, PVs,
  VolumeAttachments and volume health (`Fencer*.dfy`), and the expiring **node
  cache** that feeds it (`NodeCache.dfy`);
- the **label synchroniser**: optimistic-concurrency updates of volume and node
  labels (`Labels.dfy`, `VolumeLabels*.dfy`, `LabelProtocol.dfy`,
  `NodeLabels.dfy`);
- the **key manager**: a get-or-create protocol over secrets, with CBC wrapping of
  volume keys (`Crypto.dfy`, `KeyManager*.dfy`, `Keygen.dfy`);
- **StorageClass pinning and the label overlay** (`Provisioner.dfy`,
  `PvcLabel.dfy`, `PvcLabelRuns.dfy`).

`dafny verify dfyconfig.toml` checks the whole project.

## How the model is built

Code that changes state is a class or a method in the form of the source; its
`ensures` ties the new state to a function on values, and the theorems are
lemmas about that function. The Kubernetes API server and the control plane are
maps: `Create` fails if the object is present, `Update` fails if it is absent, and
a control-plane write is accepted only for the version that is stored. Everything
outside the program is an input: which calls fail or lag, the clock, random bytes
and generated names, cache evictions, the polled lists, other writers. Go's random
map order is modelled by picking any remaining key.

## Where the code does less than it says

Each of these is stated as the exact condition under which the promise holds.

- A visit of a shared volume that changes an object and then fails leaves an older
  cache entry behind. If the volume then moves back before the entry expires, the
  cached loop skips it and the Service keeps the wrong port: `StepCoherentIff`,
  `TornWriteDiverges`, `FailedFailoverDiverges`, `TornWriteExample`. Without such torn writes the
  cached loop equals the uncached one (`CachedLoopRefines`).
- A Service or Endpoints object whose single port has a foreign name, protocol or
  number is accepted without being repaired: `EnsureServicePost`.
- A failed read of a PV drops the claim silently, so a pod can be deleted without
  a check of its volume: `PodPVCsExactIff`, `DeletionCheckedIff`,
  `FailingPVReadDeletesUnchecked`.
- The node path computes the merge with the reserved labels and then sends the raw labels
  (node_labels.go line 115): `SendsMergeIff`, `NodePassReachesIff`. A lenient control plane
  loses every reserved label and needs a second pass; one that validates reserved
  labels refuses the update forever: `ValidatedPassIff`, `StuckForever`.
- A failure mode that is unset, or a decimal with leading zeros, is sent again on every
  pass: `SecondPassQuietIff`.
- An unparsable replica count becomes 0, but one above 2^64-1 becomes 2^64-1 and is
  sent, despite the comment about defaults (volume_labels.go lines 64-66):
  `BadReplicasSent`.
- Handling a stale PVC object overwrites the StorageClass pin: `StalePinOverwrittenIff`,
  `StaleObjectReplacesPin`.
- A stored PVC without any annotations makes the pin step write to a nil map and panic
  (storageclass.go line 126): `PanicsIff`, `BarePVCPanics`. No run panics if and only
  if every stored PVC has annotations: `CrashFreeIff`.
- The published endpoint of an IPv6 ClusterIP does not parse back: `PrintThenSplit`,
  `ColonHostRejected`.

## Model

| member | source | states |
|---|---|---|
| Endpoint.PrintThenSplit | internal/controllers/sharedvolume/controller.go:328-333 | printing `host:port` and splitting it again is the identity if and only if the host has no colon and no bracket, for every port |
| Endpoint.ColonHostRejected | internal/pkg/endpoint/endpoint.go:13-23 | every unbracketed host with a colon is rejected, so an IPv6 ClusterIP as published does not parse |
| Endpoint.SplitsIff | internal/pkg/endpoint/endpoint.go:13-17 | an endpoint splits into a host and a port if and only if it is a plain host, a colon and the port, or a host in brackets, which may have colons, a colon and the port |
| Endpoint.BracketedSplits | internal/pkg/endpoint/endpoint.go:13-23 | the bracketed form of every host without brackets splits to the host, for every port |
| SharedVolumeTypes.AcceptedVolumeParses | internal/pkg/storageos/shared_volume.go:81-112 | a volume is accepted if and only if its three Kubernetes labels are set and its endpoint splits; its objects are then named after the PV in the namespace of the PVC, each field comes from its own label, and the fallbacks of the address and port accessors are never used |
| SharedVolumeTypes.IsEqualIff | internal/pkg/storageos/shared_volume_types.go:65-75 | two polls are taken to be equal if and only if everything but the ID is |
| SharedVolumeController.WaitForClusterIP | internal/controllers/sharedvolume/controller.go:301-312 | the wait succeeds exactly if the service has an address and some poll answers before one fails |
| SharedVolumeController.Reconciler.UpdateServiceObject | internal/controllers/sharedvolume/controller.go:259-265 | failure leaves the cluster unchanged; success on the stored service leaves it with one port on the internal port, and equal to the desired state if and only if it was repairable; nothing else changes |
| SharedVolumeController.Reconciler.UpdateEndpointsObject | internal/controllers/sharedvolume/controller.go:283-290 | failure leaves the cluster unchanged; success on the stored endpoints leaves them on the internal address and port, and equal to the desired state if and only if they were repairable; nothing else changes |
| SharedVolumeController.Reconciler.EnsureService | internal/controllers/sharedvolume/controller.go:223-297 | the imperative pass refines the value-level pass; success gives the endpoint of the service and leaves both objects done |
| SharedVolumeController.Reconciler.EnsureEndpoints | internal/controllers/sharedvolume/controller.go:267-290 | get, create, wait and update of the endpoints, with every failure, refine the value-level phase |
| SharedVolumeController.Reconciler.ReconcileVolume | internal/controllers/sharedvolume/controller.go:131-204 | one iteration: skip on an unexpired equal entry, else visit, publish a changed endpoint and cache on success |
| SharedVolumeController.Reconciler.Start | internal/controllers/sharedvolume/controller.go:115-219 | the loop over every sequence of polls is the run that the theorems are about |
| SharedVolumeProofs.EnsureServicePost | internal/controllers/sharedvolume/controller.go:242-296 | success means both objects exist and target the internal endpoint although the wait accepts not-found; they equal the desired state if and only if they were missing or repairable; no other object is touched |
| SharedVolumeProofs.DesiredIff | internal/pkg/storageos/shared_volume_types.go:124-237 | the equality tests accept exactly one "nfs" port 2049/TCP that targets the internal port, and endpoints whose first address and port are the internal ones |
| SharedVolumeSuccess.VisitSucceedsIff | internal/controllers/sharedvolume/controller.go:163-200 | a visit succeeds if and only if the PVC is found, each object is right, can be updated, or can be made and is then seen, and the public endpoint is the polled one or can be published; it caches that endpoint |
| SharedVolumeProofs.VisitInSync | internal/controllers/sharedvolume/controller.go:163-200 | a visit of a volume in sync changes nothing, whatever the API server does (content idempotence) |
| SharedVolumeProofs.SkipSoundIff | internal/controllers/sharedvolume/controller.go:147-161 | skipping agrees with a smooth visit if and only if the volume is in sync |
| SharedVolumeProofs.VisitPost | internal/controllers/sharedvolume/controller.go:187-200 | what a successful visit caches is in sync with the objects, and only the objects of the volume change |
| SharedVolumeProofs.TornWriteIff | internal/controllers/sharedvolume/controller.go:180-192 | a visit fails after changing an object exactly under the guards of its calls |
| SharedVolumeProofs.StepCoherentIff | internal/controllers/sharedvolume/controller.go:144-200 | a step keeps every cache entry in sync if and only if it is not a torn write over a volume that stays cached |
| SharedVolumeProofs.CachedPollRefines | internal/controllers/sharedvolume/controller.go:131-204 | within one poll the cached loop leaves the same cluster as visiting every volume |
| SharedVolumeProofs.CachedLoopRefines | internal/controllers/sharedvolume/controller.go:115-219 | for every run of polls, clock readings, evictions and faults without a torn write over a cached volume, the cached loop leaves the same services, endpoints and publications as the uncached loop |
| SharedVolumeProofs.CompleteRunUntorn | internal/controllers/sharedvolume/controller.go:267-296 | runs in which the calls after the first write succeed have no torn write |
| SharedVolumeProofs.TornWriteDiverges | internal/controllers/sharedvolume/controller.go:144-200 | after any torn write over a cached volume, polling the cached value again makes the two loops differ |
| SharedVolumeProofs.FailedFailoverDiverges | internal/controllers/sharedvolume/controller.go:259-281 | a failover to another port whose endpoints lookup fails, then a failback, makes the two loops differ, for every settled volume |
| SharedVolumeProofs.TornWriteExample | internal/controllers/sharedvolume/controller.go:259-281 | a concrete volume, service and moved endpoint for which this happens |
| SharedVolumeProofs.VisitFreezes | internal/pkg/storageos/shared_volume_types.go:143-157 | a visit never deletes a service or changes its ClusterIP, name, type, labels or owner |
| SharedVolumeProofs.VisitPublishes | internal/controllers/sharedvolume/controller.go:187-196 | every endpoint a visit publishes is the ClusterIP of its service with port 2049 |
| SharedVolumeProofs.FailoversKeepEndpoints | internal/controllers/sharedvolume/controller.go:115-219 | over every run of failovers, faults included, services keep identity and ClusterIP and everything published is the ClusterIP the service has at the end, with port 2049 |
| SharedVolumeDrift.CreatedObjects | internal/pkg/storageos/shared_volume_types.go:98-185 | a service made by a visit is owned by the PVC of the volume, carries its ID and equals the desired state; endpoints likewise; no other object is made |
| SharedVolumeDrift.ListedVolumeObjects | internal/pkg/storageos/shared_volume.go:81-112 | for a volume as listed, a visit makes no objects but those named after its PV in the namespace of its PVC; the service is owned by its PVC and both lead to the advertised address and port |
| SharedVolumeDrift.PublishesOnChange | internal/controllers/sharedvolume/controller.go:187-200 | a visit publishes at most once, exactly when it succeeds with another endpoint than the polled one, and caches the published endpoint |
| SharedVolumeDrift.RunExpires | internal/controllers/sharedvolume/controller.go:198-200 | after every run up to some time no entry outlives that time by more than the cache lifetime |
| SharedVolumeDrift.SkippedUntilExpiry | internal/controllers/sharedvolume/controller.go:147-161 | what a successful visit cached is skipped for exactly the cache lifetime, whatever becomes of its objects, and visited after it |
| SharedVolumeDrift.DriftRepaired | internal/controllers/sharedvolume/controller.go:144-204 | whatever others did to the objects after any run, the first prompt visit later than the cache lifetime brings the volume back in sync |
| FencerController.PodClaims | controllers/fencer/fencer.go:407-470 | finds only StorageOS claims of the pod and, unless it fails, all of them in order if and only if the PV reads of driver PVs answer |
| FencerController.VolumeKeys | controllers/fencer/fencer.go:251-256 | the keys are those of exactly the bound claims |
| FencerController.PvcVA | controllers/fencer/fencer.go:493-509 | finds the first listed attachment of the claim's PV, and none if and only if none is listed |
| FencerController.FenceActionManager.TargetPods | controllers/fencer/fencer.go:214-267 | the loop refines the selection; every pod returned is on the node, has a fencing label that parses true and a bound StorageOS claim; a failed claim read aborts it with no pods |
| FencerController.FenceActionManager.ReadVolumes | controllers/fencer/fencer.go:474-490 | reads one volume after the other and stops at the first error |
| FencerController.FenceActionManager.RemoveAttachments | controllers/fencer/fencer.go:369-399 | deletes the StorageOS attachments of the claims and goes on after failures |
| FencerController.FenceActionManager.FenceOnePod | controllers/fencer/fencer.go:304-402 | claims, volumes, health check, pod delete and attachment deletes refine the value-level call |
| FencerController.FenceActionManager.Run | controllers/fencer/fencer.go:272-300 | one pass refines the value-level pass and keeps the trace safe, whatever fails |
| FencerController.FenceActionManager.CheckDone | controllers/fencer/fencer.go:181-210 | takes over the cached node and asks for a rerun or reports an error as the value-level check does |
| FencerController.FenceActionManager.RunAction | vendor/github.com/darkowlzz/operator-toolkit/controller/stateless-action/v1/reconcile.go:178-247 | first run, then checks and reruns until done or timed out; the whole trace is safe |
| FencerProofs.PodPVCsExactIff | controllers/fencer/fencer.go:417-469 | the claims found are exactly, in order, those with the driver annotation, or without annotation and with a driver PV, if and only if no read of a driver PV fails |
| FencerProofs.PodPVCsFailsIff | controllers/fencer/fencer.go:431-436 | without failing reads it fails exactly when a named claim is not stored |
| FencerProofs.FencingLabelIff | controllers/fencer/fencer.go:229-240 | a pod asks for fencing if and only if its fencing label has one of the six true spellings |
| FencerProofs.SelectedAreTargets | controllers/fencer/fencer.go:223-264 | only pods on the node whose fencing label has a true spelling and that have a bound StorageOS claim are selected, whatever fails |
| FencerProofs.RunActionSafe | controllers/fencer/fencer.go:284-399 | in every run each deleted pod was a target whose volume reads in that call were exactly those of the claims found there, all healthy, and each deleted attachment is a StorageOS attachment on the node, of a PV claimed by a pod deleted before in the same call |
| FencerProofs.DeletionCheckedIff | controllers/fencer/fencer.go:313-345 | a delete comes after healthy reads of all the pod's StorageOS volumes if and only if each is named by a claim with the driver annotation or by one whose PV read answered at its own tick |
| FencerProofs.AnsweredIff | controllers/fencer/fencer.go:417-469 | a volume is found if and only if some claim naming it has the driver annotation, or has none and a driver PV whose read answers |
| FencerProofs.AnsweringRunChecked | controllers/fencer/fencer.go:313-353 | in every run in which PV reads answer, each deleted pod was a target with all StorageOS volumes read healthy in the same call |
| FencerPass.FailingPVReadDeletesUnchecked | controllers/fencer/fencer.go:453-461 | a concrete pass that deletes a pod with an unhealthy volume without reading any volume |
| FencerPass.CalmPass | controllers/fencer/fencer.go:272-300 | on a fixed snapshot without API errors one pass removes exactly the targets whose StorageOS volumes are all found and healthy, for every order of the pods, and nothing if a labelled pod names a missing claim |
| FencerAttachments.CalmDetaches | controllers/fencer/fencer.go:357-399 | such a pass deletes exactly the first listed attachments, if StorageOS's, of the StorageOS claims of the pods it removes |
| FencerPass.CalmTargets | controllers/fencer/fencer.go:214-267 | selection fails exactly when a labelled pod on the node names a missing claim; otherwise it finds exactly the targets |
| FencerPass.CalmCheck | controllers/fencer/fencer.go:181-210 | a check asks for a rerun exactly while the node is cached offline and a target is left, and its errors are exactly a missing cache entry or claim |
| FencerPass.CalmFixpoint | controllers/fencer/fencer.go:181-300 | after a pass the check asks for a rerun if and only if the node is offline and a target with an unhealthy or missing volume is left, and a further pass removes nothing |
| FencerPass.FenceNodeShrinks | controllers/fencer/fencer.go:284-287 | a pass adds no pod, and a failed selection leaves pods, attachments and trace as they are |
| FencerPass.TargetsNeverGrow | controllers/fencer/fencer.go:181-300 | every pod selected at any later point of a run of passes and checks was there at the start and is a target, whatever fails |
| FencerProgress.FailureDoesNotStopOthers | controllers/fencer/fencer.go:289-297 | whatever fails for the pods before and after it, a pod that is present and whose own call is answered is deleted |
| FencerEventually.CalmRetry | vendor/github.com/darkowlzz/operator-toolkit/controller/stateless-action/v1/reconcile.go:219-246 | checks and reruns over a calm cluster remove exactly the healthy targets if the first cached reading shows the node offline, and nothing otherwise |
| FencerEventually.SteadyRetry | controllers/fencer/fencer.go:181-300 | whatever happened before, once calls answer and health is steady the rest of a run removes exactly the healthy targets of an offline node |
| FencerEventually.EventuallyFenced | vendor/github.com/darkowlzz/operator-toolkit/controller/stateless-action/v1/reconcile.go:212-246 | whatever fails in the first pass, if calls answer after it and the node is found offline, no target with healthy volumes is left at the end and nothing else has gone since |
| NodeCache.ObjectCache.CacheMiss | internal/pkg/cache/cache.go:26-36 | reports a miss exactly if no equal unexpired entry exists; afterwards the object is the cached value |
| NodeCache.CachedIsLastPolled | controllers/fencer/reconciler.go:154-180 | in every run of polls and evictions a cached node is the last one polled under its name, field by field, and its health is online or offline exactly as reported |
| NodeCache.ActionMeansLastOffline | controllers/fencer/fencer.go:70-121 | an action is required if and only if the entry is unexpired, the control plane last reported offline and the Kubernetes node exists |
| NodeCache.MissesAreSpaced | internal/pkg/cache/cache.go:29-35 | with polls at most p apart, successive misses of a steady node are at most expiry + p apart, and a poll misses exactly after expiry or eviction |
| NodeCache.NeverExpires | internal/pkg/cache/cache.go:29-35 | without an expiry interval a steady node is news again exactly after an eviction |
| Labels.MergeExact | internal/pkg/storageos/volume_labels.go:106-131 | the merge has exactly the desired unreserved and the current reserved labels, and equals the current labels if and only if the unreserved ones are right |
| Labels.MergeByName | internal/pkg/storageos/labels.go:72-84 | by name: a label of the merge with the reserved prefix or one of the three CSI names is the current one, any other is the desired one |
| Labels.CopyLabels | internal/pkg/storageos/volume_labels.go:106-121 | the copying loop picks exactly the labels of one kind, in every iteration order |
| Labels.MergeLabels | internal/pkg/storageos/volume_labels.go:104-131 | nothing is sent if and only if nothing would change; otherwise the merge is |
| Labels.ClassesPartition | internal/pkg/storageos/volume_labels.go:42-62 | each key lands in exactly one class: copied, one of the two settings, or rejected; no key is reported twice, and a setting only if it is a replica count that does not parse |
| Labels.ReportedByName | internal/pkg/storageos/volume_labels.go:46-61 | by name: which label is reported as invalid, fixed, unknown, badly written or out of range |
| Labels.Classify | internal/pkg/storageos/volume_labels.go:35-62 | unreserved map, replica count, failure mode and multiset of errors are the same for every iteration order |
| VolumeLabels.ParseFailureModeExact | internal/pkg/storageos/volume_labels.go:227-247 | accepts the named modes, the empty string as "hard" and thresholds, sets only one of intent and threshold, and gives the label back exactly for named modes and canonical decimals |
| VolumeLabels.PassDone | internal/pkg/storageos/volume_labels.go:64-76 | after a pass without step errors replicas, failure mode and unreserved labels are the requested ones: later steps do not undo earlier ones |
| VolumeLabels.StepsIndependent | internal/pkg/storageos/volume_labels.go:64-76 | each step does its work whatever the other two come to, and a pass has no step error if and only if each setting is right already or can be set |
| VolumeLabels.NilIff | internal/pkg/storageos/volume_labels.go:35-79 | a pass over a volume that is found returns nil if and only if every label is accepted and each setting is right or can be set; if nothing is refused, if and only if the stored count and the requested failure mode parse |
| VolumeLabels.NilMeansApplied | internal/pkg/storageos/volume_labels.go:35-79 | a nil result means the volume was absent or is in the requested state with its other reserved labels unchanged |
| VolumeLabels.SecondPassQuietIff | internal/pkg/storageos/volume_labels.go:204-247 | after a nil result a second pass sends nothing if and only if the failure mode is a named mode, a canonical decimal or was stored as requested |
| VolumeLabels.BadReplicasSent | internal/pkg/storageos/volume_labels.go:57-68 | a replica label that does not parse is reported and a count is still set unless stored already: 0 for bad syntax, 2^64-1 for every decimal beyond it |
| VolumeLabelsClient.Client.EnsureReplicas | internal/pkg/storageos/volume_labels.go:141-182 | fails exactly if the stored count does not parse or a needed update is refused, and otherwise leaves the requested count |
| VolumeLabelsClient.Client.EnsureFailureMode | internal/pkg/storageos/volume_labels.go:186-223 | fails exactly if a needed update does not parse or is refused, and otherwise leaves a matching failure mode |
| VolumeLabelsClient.Client.EnsureUnreservedVolumeLabels | internal/pkg/storageos/volume_labels.go:84-137 | fails exactly if a needed update is refused, otherwise leaves the requested unreserved labels, and never changes a reserved one |
| VolumeLabelsClient.Client.EnsureVolumeLabels | internal/pkg/storageos/volume_labels.go:35-79 | the three steps on the store are the value-level pass and touch only this volume; no write is rejected as stale, nil is returned exactly when every label is accepted and each setting is right or can be set, and leaves the requested state |
| LabelProtocol.AcceptedWritesSound | internal/pkg/storageos/volume_labels.go:101-133 | in every interleaving of synchronisers and other writers an accepted write was computed from the version it replaces; a label update keeps every reserved label, a settings update changes nothing else |
| LabelProtocol.AloneNeverRejected | internal/pkg/storageos/volume_labels.go:154-178 | a synchroniser without other writers never sees a stale rejection, in every order of its reads and writes |
| LabelProtocol.UndisturbedRunIsPass | internal/pkg/storageos/volume_labels.go:66-76 | the undisturbed protocol run is the sequential pass |
| NodeLabels.ClassifyNode | internal/pkg/storageos/node_labels.go:24-48 | unreserved map, compute-only flag and errors are the same for every iteration order |
| NodeLabels.NodeReportedByName | internal/pkg/storageos/node_labels.go:30-47 | by name: which label is reported as invalid, unknown or no boolean, and when compute-only is requested |
| NodeLabels.NodeClient.EnsureComputeOnly | internal/pkg/storageos/node_labels.go:123-165 | re-reads the node, compares and sets the flag with the version read |
| NodeLabels.NodeClient.EnsureUnreservedNodeLabels | internal/pkg/storageos/node_labels.go:66-119 | tests the merge but sends the labels as given |
| NodeLabels.NodeClient.EnsureNodeLabels | internal/pkg/storageos/node_labels.go:24-61 | the two steps on the store are the value-level pass; a missing node is no error |
| NodeLabels.SendsMergeIff | internal/pkg/storageos/node_labels.go:88-115 | what is sent is the merge if and only if the given labels have the node's reserved labels |
| NodeLabels.NodePassReachesIff | internal/pkg/storageos/node_labels.go:49-58 | a pass without errors keeps the reserved labels other than compute-only if and only if there are none or no unreserved label changes, else drops all; it reaches the requested state if and only if compute-only is not requested or no unreserved label changes |
| NodeLabels.NodePassCleanIff | internal/pkg/storageos/node_labels.go:49-60 | a pass has no errors if and only if the stored compute-only value parses and the needed updates are accepted; the second step runs whatever the first comes to |
| NodeLabels.TwoNodePassesReach | internal/pkg/storageos/node_labels.go:24-61 | two passes without errors always reach the requested state and a third sends nothing |
| NodeLabels.ValidatedPassIff | internal/pkg/storageos/node_labels.go:96-116 | a control plane that validates reserved labels refuses the update if and only if the node has or gets a reserved label and an unreserved one must change |
| NodeLabels.StuckForever | internal/pkg/storageos/node_labels.go:96-116 | such a node keeps its unreserved labels through any number of passes |
| Crypto.EncryptThenDecrypt | internal/pkg/crypto/crypto.go:61-108 | encryption accepts exactly whole blocks under a key of 16, 24 or 32 bytes; its result is the IV followed by the chain of blocks from it, and decryption gives the plaintext back |
| Crypto.EncryptChains | internal/pkg/crypto/crypto.go:71-78 | the ciphertext starts with the IV, and each block after it encrypts the exclusive or of a plaintext block with the ciphertext block before (section 6.2 of NIST SP 800-38A) |
| Crypto.DecryptThenEncrypt | internal/pkg/crypto/crypto.go:85-108 | decryption accepts exactly whole blocks with an IV under a good key, and what it accepts is the chain from that IV over its result |
| Crypto.EncryptBuffer | internal/pkg/crypto/crypto.go:61-81 | the buffer filled block by block is the chain from the IV and decrypts to the plaintext |
| Crypto.CryptBlocks | internal/pkg/crypto/crypto.go:77-78 | the in-place loop keeps the IV and appends the CBC chain of section 6.2 of NIST SP 800-38A |
| Crypto.DecryptBuffer | internal/pkg/crypto/crypto.go:85-108 | the ciphertext is the chain from the IV it carries over the buffer that is returned, with the same errors |
| KeyManager.VolumeSecretUnwraps | controllers/pvc-mutator/encryption/keys/manager.go:87-131 | a secret made under the key read from a namespace secret unwraps under the key derived from that key and the stored IV, and its tag is the HMAC of the key under the IV |
| KeyManager.StepKeepsInvariant | controllers/pvc-mutator/encryption/keys/manager.go:36-131 | every Get or Create of any call, and any other client's create, keeps all made secrets sound and all stored secrets unchanged |
| KeyManager.EveryInterleavingUnwraps | controllers/pvc-mutator/encryption/keys/manager.go:36-159 | in every interleaving of any number of calls over any store each volume secret made unwraps under the key stored in the namespace secret of its own namespace, the one its call used; nothing is overwritten and no namespace slot gets a volume key |
| KeyManagerClient.Manager.EnsureNamespaceKey | controllers/pvc-mutator/encryption/keys/manager.go:56-81 | succeeds if and only if a usable key is stored or the missing secret can be made; the key returned is the one stored afterwards, and no stored secret changes |
| KeyManagerClient.Manager.CreateVolumeKey | controllers/pvc-mutator/encryption/keys/manager.go:87-131 | stores the wrapped key, and succeeds only if the slot was free; no stored secret changes |
| KeyManagerClient.Manager.Ensure | controllers/pvc-mutator/encryption/keys/manager.go:36-54 | succeeds if and only if the volume secret is there, or the namespace key can be had and the secret can be made; success leaves both slots filled, a new secret unwraps, and no stored secret changes |
| KeyManagerClient.EnsureIsSoloRun | controllers/pvc-mutator/encryption/keys/manager.go:36-54 | one undisturbed call is a run of the protocol |
| KeyManagerClient.SucceedsIff | controllers/pvc-mutator/encryption/keys/manager.go:36-131 | the same condition on values, in literal terms; a new namespace secret holds the generated key and a new volume secret the generated key and IVs |
| KeyManagerClient.SoloRunSucceedsIff | controllers/pvc-mutator/encryption/keys/manager.go:36-131 | an undisturbed run of the protocol ends in success exactly under that condition, with both slots filled |
| KeyManagerClient.NewSecretSound | controllers/pvc-mutator/encryption/keys/manager.go:36-131 | a call that makes a volume secret makes one that unwraps under the stored namespace key |
| KeyManagerClient.EnsuredAdds | controllers/pvc-mutator/encryption/keys/manager.go:67-81 | a call adds at most its two secrets, each with its own labels, and a new namespace key has 32 bytes |
| Keygen.Mutate | controllers/pvc-mutator/encryption/keygen.go:100-164 | an annotated PVC refers to a stored secret of its namespace, sound if new; any other result returns the PVC as given; a PVC that is not to be encrypted makes no secret; no stored secret changes |
| Keygen.ResultIff | controllers/pvc-mutator/encryption/keygen.go:100-233 | exactly when each result is returned: the class by spec, beta annotation or default, the setting by PVC label, else class parameter, the namespace check, and whether the keys are stored or can be made; which secret is annotated |
| Keygen.OthersUntouched | controllers/pvc-mutator/encryption/keygen.go:104-136 | only an encrypted StorageOS PVC that stays in its namespace is changed or makes a secret, and no stored secret is changed |
| Keygen.AnnotatedSecretExists | controllers/pvc-mutator/encryption/keygen.go:138-180 | after success the annotated secret exists in the PVC's namespace; a new one unwraps and has the configured labels with the PVC's name |
| Keygen.MutateTwice | controllers/pvc-mutator/encryption/keygen.go:100-210 | a second run on its own output changes no annotation and no secret, whatever is generated and whatever fails |
| Provisioner.StorageClassReservedParams | internal/pkg/provisioner/storageclass.go:91-99 | the loop picks exactly the reserved parameters, in every iteration order |
| Provisioner.ClassForFirst | internal/pkg/provisioner/storageclass.go:47-73 | the lookup finds the first class with the name, or the first default one, and fails exactly if there is none |
| Provisioner.FindDefaultStorageClass | internal/pkg/provisioner/storageclass.go:62-73 | the search loop finds the first default class, or none exactly if there is none |
| PvcLabel.OverlayLabels | controllers/pvc-label/controller.go:94-99 | PVC labels override the reserved parameters of the class |
| PvcLabel.OverlayReachesVolume | controllers/pvc-label/controller.go:94-114 | after a sync without error the volume's unreserved labels are exactly the PVC's, its replica count and failure mode are the PVC's, else the class's, else the default, and its other reserved labels are as before |
| PvcLabel.OverlaySettings | controllers/pvc-label/controller.go:94-99 | every label sent is the PVC's, else a reserved parameter of the class; no unreserved class parameter is sent |
| PvcLabel.Controller.ValidateOrSetStorageClassUID | internal/pkg/provisioner/storageclass.go:107-132 | a pin that is shown changes nothing, other PVCs never change, and a class accepted for a current PVC is the pinned one afterwards |
| PvcLabel.Controller.Ensure | controllers/pvc-label/controller.go:49-120 | class lookup, pin, overlay, volume key and labelling of the volume in the order of the source refine the value-level reconcile |
| PvcLabel.Controller.SyncVolume | controllers/pvc-label/controller.go:112-119 | after a sync without error a volume that is found has the labels in force; no other volume changes |
| PvcLabel.SyncedIff | controllers/pvc-label/controller.go:68-114 | a reconcile labels a volume exactly when the class of the spec, or the default, matches, it is the pinned one or may be pinned now, and the PVC is bound; it is the volume of the PV in the PVC's namespace, sent the overlay and left with the labels in force if no error is reported; it is skipped exactly for another or a younger class |
| PvcLabel.PanicsIff | internal/pkg/provisioner/storageclass.go:107-132 | a reconcile panics if and only if a class matches that is not younger than the PVC, the object shows no pin and the stored PVC has no annotations |
| PvcLabel.BarePVCPanics | internal/pkg/provisioner/storageclass.go:125-126 | a concrete PVC without annotations whose reconcile panics |
| PvcLabelRuns.StepKeepsPins | internal/pkg/provisioner/storageclass.go:107-132 | a class change, a relabelling, a restart or a reconcile of a current object changes no pin, and a sync uses the pinned class |
| PvcLabelRuns.RunKeepsPins | controllers/pvc-label/controller.go:68-114 | over every run of class deletions and re-creations, label changes, reconciles, panics and restarts a pin never changes, labels come only from the class with the pinned UID, and each sync without error left its volume with the labels in force |
| PvcLabelRuns.RunLeavesInForce | controllers/pvc-label/controller.go:94-114 | at the end of every run each volume whose last sync found it and reported no error has exactly what the PVC as handled and the pinned class ask for |
| PvcLabelRuns.CrashFreeIff | internal/pkg/provisioner/storageclass.go:119-127 | no run panics if and only if every stored PVC has annotations |
| PvcLabel.StalePinOverwrittenIff | internal/pkg/provisioner/storageclass.go:108-129 | handling a stale object changes the stored pin exactly when the object shows no pin, is not older than the class, and the update goes through with another UID |
| PvcLabel.StaleObjectReplacesPin | internal/pkg/provisioner/storageclass.go:125-131 | a concrete stale object that replaces a pin |

## Left out

- HTTP, login, tokens, tracing, metrics, logging, Kubernetes events and flags: plumbing.
- The insides of AES, HKDF (section 2 of RFC 5869), HMAC (section 2 of RFC 2104) and the random source: functions with lengths, the cipher invertible under every key of a good length. Nothing is claimed about secrecy.
- The retry, queue and garbage-collection engines of the operator toolkit, beyond first run, check and rerun; timeouts are finite sequences of readings or polls.
- Allocation of a ClusterIP after a service was created without one: the address is fixed at creation, and may be empty.
- Deletes and edits of Services and Endpoints by others between the polls of one run; changes after a run are in `DriftRepaired`.
- Stale reads by the shared-volume reconciler: it uses the manager's cached client (main.go line 301), so a read after its own update may return the older object. The model knows a read that does not see a new object yet, but not one that sees an old version.
- Copying semantics: objects read from the API server are values; in-place updates of a Service, an Endpoints object or PVC annotations act on the copy that is then stored.
- ListSharedVolumes, the searches of getVolume and getNodeByKey through listed namespaces and their list errors: lookups in a map.
- SetExternalEndpoint: a publication that is accepted or fails; its own re-read and version check are not modelled.
- How the control plane records a failure mode: taken to be the mode's name, else the decimal threshold.
- Node fields other than name, UID, version, labels and health, and the polling ticker with its interval clamp.
- PVs and PVCs that change while a node is fenced, and VolumeAttachments without a PV name.
- List errors of the default StorageClass lookup, and other writers of volumes during runs of PVC reconciles.
- Deletes or updates of encryption secrets by other clients.
- The Diff functions of the label controllers, the node-delete and namespace-delete controllers, the scheduler and StorageClass annotation mutators and the predicates: each is settled by one branch, or no completeness claim holds.
- Keygen.Mutate: returns the annotated PVC as a value instead of writing its annotation map in place.
