/** StorageClasses, PVCs and the StorageClass pin (internal/pkg/provisioner/storageclass.go). */
module Provisioner {
  import opened Common

  const CLASS_NAME_ANNOTATION := "volume.beta.kubernetes.io/storage-class"
  const DEFAULT_CLASS_ANNOTATION := "storageclass.kubernetes.io/is-default-class"
  const CLASS_UID_ANNOTATION := "storageos.com/storageclass"

  datatype StorageClass = StorageClass(
    name: string, uid: string, created: int, provisioner: string,
    annotations: map<string, string>, parameters: map<string, string>)

  /** Missing annotations are a nil map, which can be read but not written. */
  datatype PVC = PVC(
    namespace: string, name: string, created: int, storageClassName: Option<string>, volumeName: Option<string>,
    annotations: Option<map<string, string>>, labels: map<string, string>)
  {
    function Key(): ObjectKey { ObjectKey(namespace, name) }

    function Annotations(): map<string, string> {
      if annotations.Some? then annotations.value else map[]
    }
  }

  function NamedClass(classes: seq<StorageClass>, name: string): Option<StorageClass> {
    if classes == [] then None
    else if classes[0].name == name then Some(classes[0])
    else NamedClass(classes[1..], name)
  }

  predicate IsDefault(sc: StorageClass) {
    Lookup(sc.annotations, DEFAULT_CLASS_ANNOTATION) == "true"
  }

  function DefaultStorageClass(classes: seq<StorageClass>): Option<StorageClass> {
    if classes == [] then None
    else if IsDefault(classes[0]) then Some(classes[0])
    else DefaultStorageClass(classes[1..])
  }

  function ClassFor(classes: seq<StorageClass>, name: string): Option<StorageClass> {
    if name == "" then DefaultStorageClass(classes) else NamedClass(classes, name)
  }

  /** The name in the spec wins over the beta annotation. */
  function PVCStorageClassName(pvc: PVC): string {
    if pvc.storageClassName.Some? && pvc.storageClassName.value != "" then pvc.storageClassName.value
    else Lookup(pvc.Annotations(), CLASS_NAME_ANNOTATION)
  }

  function StorageClassForPVC(classes: seq<StorageClass>, pvc: PVC): Option<StorageClass> {
    ClassFor(classes, PVCStorageClassName(pvc))
  }

  /** The class has the name, or is marked as the default if there is no name. */
  predicate Matches(sc: StorageClass, name: string) {
    if name == "" then Lookup(sc.annotations, "storageclass.kubernetes.io/is-default-class") == "true" else sc.name == name
  }

  /** The lookup finds the first class that matches, and fails exactly if none does. */
  lemma {:induction false} ClassForFirst(classes: seq<StorageClass>, name: string)
    ensures ClassFor(classes, name).None? <==> forall sc | sc in classes :: !Matches(sc, name)
    ensures ClassFor(classes, name).Some? ==>
              exists k | 0 <= k < |classes| ::
                && ClassFor(classes, name) == Some(classes[k]) && Matches(classes[k], name)
                && forall j | 0 <= j < k :: !Matches(classes[j], name)
  {
    if classes != [] {
      var rest := classes[1..];
      ClassForFirst(rest, name);
      assert classes == [classes[0]] + rest;
      assert ClassFor(classes, name) == if Matches(classes[0], name) then Some(classes[0]) else ClassFor(rest, name);
      hide ClassFor, Matches;
      if !Matches(classes[0], name) && ClassFor(rest, name).Some? {
        var k :| 0 <= k < |rest| && ClassFor(rest, name) == Some(rest[k]) && Matches(rest[k], name)
                 && forall j | 0 <= j < k :: !Matches(rest[j], name);
        assert classes[k + 1] == rest[k];
        assert forall j | 0 < j < k + 1 :: classes[j] == rest[j - 1];
      }
    }
  }

  /** The search of the listed classes for the default. */
  method FindDefaultStorageClass(classes: seq<StorageClass>) returns (found: Option<StorageClass>)
    ensures found == DefaultStorageClass(classes)
    ensures found.None? <==> forall sc | sc in classes :: !Matches(sc, "")
  {
    for i := 0 to |classes|
      invariant DefaultStorageClass(classes[i..]) == DefaultStorageClass(classes)
      invariant forall sc | sc in classes[..i] :: !Matches(sc, "")
    {
      assert Matches(classes[i], "") == IsDefault(classes[i]);
      assert classes[i..][1..] == classes[i + 1..];
      if IsDefault(classes[i]) {
        return Some(classes[i]);
      }
    }
    return None;
  }

  /** The parameters with the reserved prefix. */
  function ReservedParams(sc: StorageClass): map<string, string> {
    map k | k in sc.parameters && HasPrefix(k, RESERVED_PREFIX) :: sc.parameters[k]
  }

  method StorageClassReservedParams(sc: StorageClass) returns (reserved: map<string, string>)
    ensures reserved == ReservedParams(sc)
  {
    reserved := map[];
    var seen := {};
    while seen != sc.parameters.Keys
      invariant seen <= sc.parameters.Keys
      invariant reserved == map k | k in seen && k in sc.parameters && HasPrefix(k, RESERVED_PREFIX) :: sc.parameters[k]
      decreases |sc.parameters.Keys - seen|
    {
      hide HasPrefix;
      var k :| k in sc.parameters.Keys - seen;
      assert sc.parameters.Keys - (seen + {k}) == (sc.parameters.Keys - seen) - {k};
      seen := seen + {k};
      if HasPrefix(k, RESERVED_PREFIX) {
        reserved := reserved[k := sc.parameters[k]];
      }
    }
  }

  /******* The pin *******/

  function Pin(pvc: PVC): string {
    Lookup(pvc.Annotations(), CLASS_UID_ANNOTATION)
  }

  type PVCs = map<ObjectKey, PVC>

  datatype PinResult = Valid | Invalid | PinError | Panic

  /** Reads, then writes: `pvc` is the object being handled, which may be older than the stored one. */
  function ValidateOrSet(pvcs: PVCs, sc: StorageClass, pvc: PVC, updateFails: bool): (PVCs, PinResult) {
    if Pin(pvc) != "" then (pvcs, if sc.uid == Pin(pvc) then Valid else Invalid)
    else if sc.created > pvc.created then (pvcs, Invalid)
    else if pvc.Key() !in pvcs then (pvcs, PinError)
    else
      var stored := pvcs[pvc.Key()];
      if stored.annotations.None? then (pvcs, Panic)
      else if updateFails then (pvcs, PinError)
      else
        var updated := stored.(annotations := Some(stored.annotations.value[CLASS_UID_ANNOTATION := sc.uid]));
        (pvcs[pvc.Key() := updated], Valid)
  }
}
