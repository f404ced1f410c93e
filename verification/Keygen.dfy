/** The encryption key mutator of PVCs (controllers/pvc-mutator/encryption/keygen.go). */
module Keygen {
  import opened Common
  import opened Strconv
  import opened Provisioner
  import opened Crypto
  import opened KeyManager
  import opened KeyManagerClient

  const ENCRYPTION_LABEL := "storageos.com/encryption"
  const SECRET_NAME_ANNOTATION := "storageos.com/encryption-secret-name"
  const SECRET_NAMESPACE_ANNOTATION := "storageos.com/encryption-secret-namespace"
  const VOLUME_SECRET_PREFIX := "storageos-volume-key"
  const SECRET_PVC_LABEL := "storageos.com/pvc"

  /** The label on the PVC wins over the parameter of the class; None when the value does not parse. */
  function IsEnabled(labels: map<string, string>, params: map<string, string>): Option<bool> {
    if ENCRYPTION_LABEL in labels then ParseBool(labels[ENCRYPTION_LABEL])
    else if ENCRYPTION_LABEL in params then ParseBool(params[ENCRYPTION_LABEL])
    else Some(false)
  }

  function NamespaceSecretKeyRef(namespace: string): ObjectKey {
    ObjectKey(namespace, NAMESPACE_SECRET)
  }

  /** The annotated reference, completed by a generated name and the PVC's namespace. */
  function VolumeSecretKeyRef(pvc: PVC, namespace: string, uuid: string): ObjectKey {
    var name := Lookup(pvc.Annotations(), SECRET_NAME_ANNOTATION);
    var ns := Lookup(pvc.Annotations(), SECRET_NAMESPACE_ANNOTATION);
    ObjectKey(if ns == "" then namespace else ns, if name == "" then VOLUME_SECRET_PREFIX + "-" + uuid else name)
  }

  function VolumeSecretLabels(labels: map<string, string>, pvcName: string): map<string, string> {
    if pvcName == "" then labels else labels[SECRET_PVC_LABEL := pvcName]
  }

  /** Everything outside the PVC and the secrets that one mutation meets. */
  datatype Env = Env(
    classes: seq<StorageClass>, labels: map<string, string>, uuid: string, random: Randomness, faults: Faults)

  datatype MutateResult = Skipped | Annotated | NoClass | BadFlag | CrossNamespace | KeysFailed

  datatype Mutated = Mutated(pvc: PVC, store: Store, result: MutateResult)

  function KeyRequest(e: Env, pvc: PVC, namespace: string): Request {
    Request(NamespaceSecretKeyRef(namespace), VolumeSecretKeyRef(pvc, namespace, e.uuid),
            e.labels, VolumeSecretLabels(e.labels, pvc.name))
  }

  function Annotate(pvc: PVC, ref: ObjectKey): PVC {
    pvc.(annotations := Some(pvc.Annotations()[SECRET_NAME_ANNOTATION := ref.name][SECRET_NAMESPACE_ANNOTATION := ref.namespace]))
  }

  predicate CrossesNamespace(pvc: PVC, namespace: string) {
    var a := pvc.Annotations();
    SECRET_NAMESPACE_ANNOTATION in a && a[SECRET_NAMESPACE_ANNOTATION] != namespace
  }

  function MutatePVC(prims: Primitives, e: Env, pvc: PVC, store: Store, namespace: string): Mutated
    requires prims.Sound()
  {
    match StorageClassForPVC(e.classes, pvc)
    case None => Mutated(pvc, store, NoClass)
    case Some(sc) =>
      if sc.provisioner != DRIVER_NAME then Mutated(pvc, store, Skipped)
      else
        match IsEnabled(pvc.labels, sc.parameters)
        case None => Mutated(pvc, store, BadFlag)
        case Some(false) => Mutated(pvc, store, Skipped)
        case Some(true) =>
          if CrossesNamespace(pvc, namespace) then Mutated(pvc, store, CrossNamespace)
          else
            var q := KeyRequest(e, pvc, namespace);
            var (store', ok) := Ensured(prims, store, q, e.random, e.faults);
            if ok then Mutated(Annotate(pvc, q.vol), store', Annotated) else Mutated(pvc, store', KeysFailed)
  }

  /** The mutation as it is written; the annotations are set only after the keys are ensured. */
  method Mutate(m: Manager, e: Env, pvc: PVC, namespace: string) returns (mutated: PVC, result: MutateResult)
    requires m.prims.Sound()
    modifies m`secrets
    ensures Mutated(mutated, m.secrets, result) == MutatePVC(m.prims, e, pvc, old(m.secrets), namespace)
    ensures result == Annotated ==> RefersToSecret(m.prims, e, pvc, mutated, old(m.secrets), m.secrets, namespace)
    ensures result != Annotated ==> mutated == pvc
    ensures !Encryptable(e, pvc, namespace) ==> result != Annotated && m.secrets == old(m.secrets)
    ensures Kept(old(m.secrets), m.secrets)
  {
    OthersUntouched(m.prims, e, pvc, m.secrets, namespace);
    if MutatePVC(m.prims, e, pvc, m.secrets, namespace).result == Annotated {
      AnnotatedSecretExists(m.prims, e, pvc, m.secrets, namespace);
    }
    hide RefersToSecret, StorageClassForPVC, IsEnabled, KeyRequest, Ensured;
    mutated := pvc;
    var sc := StorageClassForPVC(e.classes, pvc);
    if sc.None? {
      result := NoClass;
      return;
    }
    if sc.value.provisioner != DRIVER_NAME {
      result := Skipped;
      return;
    }
    var enabled := IsEnabled(pvc.labels, sc.value.parameters);
    if enabled.None? {
      result := BadFlag;
      return;
    }
    if !enabled.value {
      result := Skipped;
      return;
    }
    if CrossesNamespace(pvc, namespace) {
      result := CrossNamespace;
      return;
    }
    var q := KeyRequest(e, pvc, namespace);
    var ok := m.Ensure(q, e.random, e.faults);
    if !ok {
      result := KeysFailed;
      return;
    }
    mutated := Annotate(pvc, q.vol);
    result := Annotated;
  }

  /******* Guarantees *******/

  /** The class that the spec names, else the beta annotation, else the default one. */
  function ClassOf(e: Env, pvc: PVC): Option<StorageClass> {
    ClassFor(e.classes,
             if pvc.storageClassName.Some? && pvc.storageClassName.value != "" then pvc.storageClassName.value
             else Lookup(pvc.Annotations(), "volume.beta.kubernetes.io/storage-class"))
  }

  /** The encryption setting of the PVC, else of its class. */
  function Flag(pvc: PVC, sc: StorageClass): Option<string> {
    if "storageos.com/encryption" in pvc.labels then Some(pvc.labels["storageos.com/encryption"])
    else if "storageos.com/encryption" in sc.parameters then Some(sc.parameters["storageos.com/encryption"])
    else None
  }

  predicate Says(flag: Option<string>, values: set<string>) {
    flag.Some? && flag.value in values
  }

  const YES := {"1", "t", "T", "TRUE", "true", "True"}
  const NO := {"0", "f", "F", "FALSE", "false", "False"}

  /** The PVC is to be encrypted: its class is StorageOS's and the setting says so. */
  predicate Wanted(e: Env, pvc: PVC) {
    && ClassOf(e, pvc).Some? && ClassOf(e, pvc).value.provisioner == "csi.storageos.com"
    && Says(Flag(pvc, ClassOf(e, pvc).value), YES)
  }

  predicate RefersElsewhere(pvc: PVC, namespace: string) {
    var a := pvc.Annotations();
    "storageos.com/encryption-secret-namespace" in a && a["storageos.com/encryption-secret-namespace"] != namespace
  }

  /** The secret that is asked for: the annotated one, else a new name, in the namespace of the PVC. */
  function SecretFor(e: Env, pvc: PVC, namespace: string): ObjectKey {
    var name := Lookup(pvc.Annotations(), "storageos.com/encryption-secret-name");
    ObjectKey(namespace, if name != "" then name else "storageos-volume-key-" + e.uuid)
  }

  /** The secret is stored, or can be made. */
  predicate KeysAvailable(e: Env, store: Store, ref: ObjectKey) {
    var ns := ObjectKey(ref.namespace, "storageos-namespace-key");
    && e.faults.getVolume == NoFault
    && (ref in store ||
        (&& ref != ns && e.faults.getNamespace == NoFault && e.faults.createVolume == NoFault
         && if ns in store then "key" in store[ns].data && |store[ns].data["key"]| > 0
            else e.faults.createNamespace == NoFault))
  }

  /**
    Exactly when each result is returned. In particular a class parameter turns
    encryption on unless the PVC says otherwise, a setting that does not parse
    blocks the PVC, and a wanted PVC that stays in its namespace is annotated with
    its secret if and only if the keys are stored or can be made.
   */
  lemma ResultIff(prims: Primitives, e: Env, pvc: PVC, store: Store, namespace: string)
    requires prims.Sound()
    ensures var m := MutatePVC(prims, e, pvc, store, namespace); var sc := ClassOf(e, pvc);
            var ref := SecretFor(e, pvc, namespace);
            && (m.result == NoClass <==> sc.None?)
            && (m.result == Skipped <==>
                  sc.Some? && (sc.value.provisioner != "csi.storageos.com" || Flag(pvc, sc.value).None? || Says(Flag(pvc, sc.value), NO)))
            && (m.result == CrossNamespace <==> Wanted(e, pvc) && RefersElsewhere(pvc, namespace))
            && (m.result == Annotated <==> Wanted(e, pvc) && !RefersElsewhere(pvc, namespace) && KeysAvailable(e, store, ref))
            && (m.result == KeysFailed <==> Wanted(e, pvc) && !RefersElsewhere(pvc, namespace) && !KeysAvailable(e, store, ref))
            && (m.result == Annotated ==>
                  && ref in m.store
                  && Lookup(m.pvc.Annotations(), "storageos.com/encryption-secret-name") == ref.name
                  && Lookup(m.pvc.Annotations(), "storageos.com/encryption-secret-namespace") == namespace)
  {
    ClassOfPVC(e, pvc);
    FlagParses(pvc, ClassOf(e, pvc));
    hide ClassOf, Flag, Says, IsEnabled, StorageClassForPVC, RefersElsewhere, CrossesNamespace;
    SameCrossing(pvc, namespace);
    if Encryptable(e, pvc, namespace) {
      hide KeyRequest, Ensured, SecretFor, KeysAvailable, Annotate, Lookup;
      MutateEnabled(prims, e, pvc, store, namespace);
      KeysIff(prims, e, pvc, store, namespace);
      var q := KeyRequest(e, pvc, namespace);
      EnsuredFacts(prims, store, q, e.random, e.faults);
      AnnotatedLookup(pvc, q.vol);
    }
  }

  lemma ClassOfPVC(e: Env, pvc: PVC)
    ensures StorageClassForPVC(e.classes, pvc) == ClassOf(e, pvc)
  {
    hide ClassFor;
  }

  lemma FlagParses(pvc: PVC, sc: Option<StorageClass>)
    ensures sc.Some? ==>
              var enabled, flag := IsEnabled(pvc.labels, sc.value.parameters), Flag(pvc, sc.value);
              && (enabled == Some(true) <==> Says(flag, YES))
              && (enabled == Some(false) <==> flag.None? || Says(flag, NO))
  {
  }

  lemma SameCrossing(pvc: PVC, namespace: string)
    ensures CrossesNamespace(pvc, namespace) == RefersElsewhere(pvc, namespace)
  {
  }

  lemma KeysIff(prims: Primitives, e: Env, pvc: PVC, store: Store, namespace: string)
    requires prims.Sound() && !CrossesNamespace(pvc, namespace)
    ensures var q := KeyRequest(e, pvc, namespace);
            && q.vol == SecretFor(e, pvc, namespace)
            && (Ensured(prims, store, q, e.random, e.faults).1 <==> KeysAvailable(e, store, q.vol))
  {
    var q := KeyRequest(e, pvc, namespace);
    RequestIs(e, pvc, namespace);
    SucceedsIff(prims, store, q, e.random, e.faults);
    hide Ensured, SecretFor, KeyRequest;
  }

  lemma RequestIs(e: Env, pvc: PVC, namespace: string)
    requires !CrossesNamespace(pvc, namespace)
    ensures var q := KeyRequest(e, pvc, namespace);
            q.vol == SecretFor(e, pvc, namespace) && q.ns == ObjectKey(q.vol.namespace, "storageos-namespace-key")
  {
    assert VOLUME_SECRET_PREFIX + "-" + e.uuid == "storageos-volume-key-" + e.uuid;
  }

  lemma AnnotatedLookup(pvc: PVC, ref: ObjectKey)
    ensures var a := Annotate(pvc, ref).Annotations();
            && Lookup(a, "storageos.com/encryption-secret-name") == ref.name
            && Lookup(a, "storageos.com/encryption-secret-namespace") == ref.namespace
  {
    AnnotationNames();
  }

  /** Only an encrypted StorageOS PVC is changed, and only such a PVC can make a secret. */
  lemma OthersUntouched(prims: Primitives, e: Env, pvc: PVC, store: Store, namespace: string)
    requires prims.Sound()
    ensures var m := MutatePVC(prims, e, pvc, store, namespace); var sc := StorageClassForPVC(e.classes, pvc);
            && (m.pvc != pvc || m.store != store ==>
                  && sc.Some? && sc.value.provisioner == DRIVER_NAME
                  && ParseBool(if ENCRYPTION_LABEL in pvc.labels then pvc.labels[ENCRYPTION_LABEL]
                               else Lookup(sc.value.parameters, ENCRYPTION_LABEL)) == Some(true)
                  && !CrossesNamespace(pvc, namespace))
            && (m.pvc != pvc ==> m.result == Annotated)
            && Kept(store, m.store)
  {
    EnsuredFacts(prims, store, KeyRequest(e, pvc, namespace), e.random, e.faults);
    hide StorageClassForPVC, ParseBool, KeyRequest, Ensured, CrossesNamespace;
  }

  /** The annotations of the mutated PVC name a stored secret; one that is new is sound and carries the name of the PVC. */
  ghost predicate RefersToSecret(prims: Primitives, e: Env, pvc: PVC, mutated: PVC, store: Store, store': Store, namespace: string)
    requires prims.Sound()
  {
    var a := mutated.Annotations();
    && SECRET_NAME_ANNOTATION in a && a[SECRET_NAME_ANNOTATION] != ""
    && SECRET_NAMESPACE_ANNOTATION in a && a[SECRET_NAMESPACE_ANNOTATION] == namespace
    && var ref := ObjectKey(namespace, a[SECRET_NAME_ANNOTATION]);
    && ref in store'
    && (ref !in store ==>
          && SoundSecret(prims, store', ref)
          && store'[ref].labels == if pvc.name == "" then e.labels else e.labels["storageos.com/pvc" := pvc.name])
  }

  /**
    After a successful mutation of an encrypted PVC the annotated secret exists
    in the PVC's namespace; if it is new, it unwraps under the namespace secret.
   */
  lemma AnnotatedSecretExists(prims: Primitives, e: Env, pvc: PVC, store: Store, namespace: string)
    requires prims.Sound() && MutatePVC(prims, e, pvc, store, namespace).result == Annotated
    ensures var m := MutatePVC(prims, e, pvc, store, namespace);
            RefersToSecret(prims, e, pvc, m.pvc, store, m.store, namespace)
  {
    AnnotatedMeans(prims, e, pvc, store, namespace);
    MutateEnabled(prims, e, pvc, store, namespace);
    var q := KeyRequest(e, pvc, namespace);
    RequestFacts(e, pvc, namespace);
    AnnotatedRef(pvc, q.vol);
    hide MutatePVC, Encryptable, KeyRequest, Ensured, SoundSecret, Annotate, PVC.Annotations, Lookup;
    EnsuredFacts(prims, store, q, e.random, e.faults);
    if q.vol !in store {
      NewSecretSound(prims, store, q, e.random, e.faults);
      EnsuredAdds(prims, store, q, e.random, e.faults);
    }
  }

  /** A PVC that stays in its namespace asks for a named secret there, labelled with its own name. */
  lemma RequestFacts(e: Env, pvc: PVC, namespace: string)
    requires !CrossesNamespace(pvc, namespace)
    ensures var q := KeyRequest(e, pvc, namespace);
            && q.vol.namespace == namespace && q.vol.name != "" && q.ns == NamespaceSlot(q.vol)
            && q.nsLabels == e.labels
            && q.volLabels == (if pvc.name == "" then e.labels else e.labels["storageos.com/pvc" := pvc.name])
  {
  }

  lemma AnnotatedRef(pvc: PVC, ref: ObjectKey)
    ensures var a := Annotate(pvc, ref).Annotations();
            && SECRET_NAME_ANNOTATION in a && a[SECRET_NAME_ANNOTATION] == ref.name
            && SECRET_NAMESPACE_ANNOTATION in a && a[SECRET_NAMESPACE_ANNOTATION] == ref.namespace
  {
    AnnotationNames();
  }

  lemma AnnotationNames()
    ensures SECRET_NAME_ANNOTATION != SECRET_NAMESPACE_ANNOTATION
    ensures CLASS_NAME_ANNOTATION != SECRET_NAME_ANNOTATION && CLASS_NAME_ANNOTATION != SECRET_NAMESPACE_ANNOTATION
  {
    assert |SECRET_NAME_ANNOTATION| != |SECRET_NAMESPACE_ANNOTATION|;
    assert CLASS_NAME_ANNOTATION[0] != SECRET_NAME_ANNOTATION[0];
    assert CLASS_NAME_ANNOTATION[0] != SECRET_NAMESPACE_ANNOTATION[0];
  }

  /**
    Mutation is idempotent: a second run on its own output, whatever names and
    bytes are generated and whatever fails, changes no annotation and no secret.
   */
  lemma MutateTwice(prims: Primitives, e: Env, pvc: PVC, store: Store, namespace: string, e2: Env)
    requires prims.Sound() && e2.classes == e.classes
    requires MutatePVC(prims, e, pvc, store, namespace).result == Annotated
    ensures var m := MutatePVC(prims, e, pvc, store, namespace);
            var m2 := MutatePVC(prims, e2, m.pvc, m.store, namespace);
            && m2.pvc == m.pvc && m2.store == m.store
            && m2.result == if e2.faults.getVolume.NoFault? then Annotated else KeysFailed
  {
    var m := MutatePVC(prims, e, pvc, store, namespace);
    AnnotatedSecretExists(prims, e, pvc, store, namespace);
    AnnotatedMeans(prims, e, pvc, store, namespace);
    AnnotatedKeeps(pvc, KeyRequest(e, pvc, namespace).vol);
    hide MutatePVC, ClassFor, IsEnabled, KeyRequest, Ensured, SoundSecret, Annotate, PVCStorageClassName, CrossesNamespace, PVC.Annotations;
    var ref := ObjectKey(namespace, m.pvc.Annotations()[SECRET_NAME_ANNOTATION]);
    AnnotatedAgain(m.pvc, ref, namespace, e2);
    EnsuredFacts(prims, m.store, KeyRequest(e2, m.pvc, namespace), e2.random, e2.faults);
    MutateEnabled(prims, e2, m.pvc, m.store, namespace);
  }

  /** The PVC is to be encrypted and stays in its namespace. */
  predicate Encryptable(e: Env, pvc: PVC, namespace: string) {
    var sc := StorageClassForPVC(e.classes, pvc);
    && sc.Some? && sc.value.provisioner == DRIVER_NAME
    && IsEnabled(pvc.labels, sc.value.parameters) == Some(true)
    && !CrossesNamespace(pvc, namespace)
  }

  lemma AnnotatedMeans(prims: Primitives, e: Env, pvc: PVC, store: Store, namespace: string)
    requires prims.Sound() && MutatePVC(prims, e, pvc, store, namespace).result == Annotated
    ensures Encryptable(e, pvc, namespace)
    ensures MutatePVC(prims, e, pvc, store, namespace).pvc == Annotate(pvc, KeyRequest(e, pvc, namespace).vol)
  {
    hide StorageClassForPVC, IsEnabled, KeyRequest, Ensured, CrossesNamespace;
  }

  lemma MutateEnabled(prims: Primitives, e: Env, pvc: PVC, store: Store, namespace: string)
    requires prims.Sound() && Encryptable(e, pvc, namespace)
    ensures var q := KeyRequest(e, pvc, namespace); var (store', ok) := Ensured(prims, store, q, e.random, e.faults);
            MutatePVC(prims, e, pvc, store, namespace) ==
            if ok then Mutated(Annotate(pvc, q.vol), store', Annotated) else Mutated(pvc, store', KeysFailed)
  {
    hide StorageClassForPVC, IsEnabled, KeyRequest, Ensured, CrossesNamespace;
  }

  /** Annotating a PVC leaves its class and its labels alone. */
  lemma AnnotatedKeeps(pvc: PVC, ref: ObjectKey)
    ensures PVCStorageClassName(Annotate(pvc, ref)) == PVCStorageClassName(pvc)
    ensures Annotate(pvc, ref).labels == pvc.labels
  {
    AnnotationNames();
  }

  /** A PVC annotated with a reference refers to it, whatever name is generated, and is not changed by it. */
  lemma AnnotatedAgain(pvc: PVC, ref: ObjectKey, namespace: string, e: Env)
    requires pvc.annotations.Some? && ref.name != "" && ref.namespace == namespace
    requires var a := pvc.Annotations();
             && SECRET_NAME_ANNOTATION in a && a[SECRET_NAME_ANNOTATION] == ref.name
             && SECRET_NAMESPACE_ANNOTATION in a && a[SECRET_NAMESPACE_ANNOTATION] == ref.namespace
    ensures KeyRequest(e, pvc, namespace).vol == ref && !CrossesNamespace(pvc, namespace) && Annotate(pvc, ref) == pvc
  {
    var a := pvc.Annotations();
    assert a[SECRET_NAME_ANNOTATION := ref.name][SECRET_NAMESPACE_ANNOTATION := ref.namespace] == a;
  }
}
