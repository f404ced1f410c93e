/** The key manager in the form of controllers/pvc-mutator/encryption/keys/manager.go, for one undisturbed call. */
module KeyManagerClient {
  import opened Common
  import opened Strconv
  import opened Crypto
  import opened KeyManager

  datatype Faults = Faults(getVolume: Fault, getNamespace: Fault, createNamespace: Fault, createVolume: Fault)

  datatype Request = Request(ns: ObjectKey, vol: ObjectKey, nsLabels: map<string, string>, volLabels: map<string, string>)

  function EnsuredNamespaceKey(store: Store, q: Request, r: Randomness, f: Faults): (Store, Option<string>) {
    if !f.getNamespace.NoFault? then (store, None)
    else if q.ns in store then (store, KeyFromSecret(store[q.ns]))
    else
      var c := Create(store, q.ns, Secret(map["key" := r.userKey], q.nsLabels), f.createNamespace);
      (c.store, if c.error then None else Some(HexEncode(r.userKey)))
  }

  function CreatedVolumeKey(prims: Primitives, store: Store, q: Request, nsKey: string, r: Randomness, f: Faults): (Store, bool)
    requires prims.Sound()
  {
    match VolumeSecretData(prims, nsKey, r)
    case None => (store, false)
    case Some(data) =>
      var c := Create(store, q.vol, Secret(data, q.volLabels), f.createVolume);
      (c.store, !c.error)
  }

  /** The store afterwards, and whether the call succeeds. */
  function Ensured(prims: Primitives, store: Store, q: Request, r: Randomness, f: Faults): (Store, bool)
    requires prims.Sound()
  {
    if !f.getVolume.NoFault? then (store, false)
    else if q.vol in store then (store, true)
    else
      var (store1, nsKey) := EnsuredNamespaceKey(store, q, r, f);
      if nsKey.None? then (store1, false) else CreatedVolumeKey(prims, store1, q, nsKey.value, r, f)
  }

  /** The key that is used is the one stored, and nothing stored before changes. */
  lemma NamespaceKeyFacts(store: Store, q: Request, r: Randomness, f: Faults)
    ensures var (store', key) := EnsuredNamespaceKey(store, q, r, f);
            && Kept(store, store') && store'.Keys <= store.Keys + {q.ns}
            && (key.Some? ==> q.ns in store' && KeyFromSecret(store'[q.ns]) == key)
            && (q.ns !in store && q.ns in store' ==>
                  store'[q.ns].labels == q.nsLabels && StoredKey(store'[q.ns]) == Some(r.userKey))
  {
    hide HexEncode;
  }

  lemma VolumeKeyFacts(prims: Primitives, store: Store, q: Request, nsKey: string, r: Randomness, f: Faults)
    requires prims.Sound()
    ensures var (store', ok) := CreatedVolumeKey(prims, store, q, nsKey, r, f);
            && Kept(store, store') && store'.Keys <= store.Keys + {q.vol}
            && (ok ==> q.vol in store' && q.vol !in store)
            && (q.vol !in store && q.vol in store' ==> store'[q.vol].labels == q.volLabels)
  {
    hide VolumeSecretData;
  }

  lemma EnsuredFacts(prims: Primitives, store: Store, q: Request, r: Randomness, f: Faults)
    requires prims.Sound()
    ensures var (store', ok) := Ensured(prims, store, q, r, f);
            && Kept(store, store')
            && (ok ==> q.vol in store')
            && (q.vol in store ==> store' == store && (ok <==> f.getVolume.NoFault?))
  {
    NamespaceKeyFacts(store, q, r, f);
    var (store1, nsKey) := EnsuredNamespaceKey(store, q, r, f);
    if nsKey.Some? {
      VolumeKeyFacts(prims, store1, q, nsKey.value, r, f);
    }
    hide EnsuredNamespaceKey, CreatedVolumeKey, KeyFromSecret, StoredKey;
  }

  /** A call adds at most its two secrets, each with its own labels; a new namespace key has 32 bytes. */
  lemma EnsuredAdds(prims: Primitives, store: Store, q: Request, r: Randomness, f: Faults)
    requires prims.Sound()
    ensures var (store', ok) := Ensured(prims, store, q, r, f);
            && store'.Keys <= store.Keys + {q.ns, q.vol}
            && (q.ns !in store && q.ns in store' ==>
                  && store'[q.ns].labels == q.nsLabels
                  && StoredKey(store'[q.ns]).Some? && |StoredKey(store'[q.ns]).value| == 32)
            && (q.vol !in store && q.vol in store' && q.vol != q.ns ==> store'[q.vol].labels == q.volLabels)
  {
    NamespaceKeyFacts(store, q, r, f);
    var (store1, nsKey) := EnsuredNamespaceKey(store, q, r, f);
    if nsKey.Some? {
      VolumeKeyFacts(prims, store1, q, nsKey.value, r, f);
    }
    hide EnsuredNamespaceKey, CreatedVolumeKey, KeyFromSecret, StoredKey;
  }

  /** The namespace key can be had: it is stored, or can be made; the literal form of a usable secret. */
  predicate NamespaceKeyAvailable(store: Store, q: Request, f: Faults) {
    && f.getNamespace == NoFault
    && if q.ns in store then "key" in store[q.ns].data && |store[q.ns].data["key"]| > 0 else f.createNamespace == NoFault
  }

  /**
    A call succeeds if and only if the volume secret is there already, or the
    namespace key can be had and the volume secret can be made. Without faults, a
    volume secret that is missing and is not asked for in the namespace slot can be
    made unless the namespace secret has no key. Success leaves both slots filled.
   */
  lemma SucceedsIff(prims: Primitives, store: Store, q: Request, r: Randomness, f: Faults)
    requires prims.Sound()
    ensures var (store', ok) := Ensured(prims, store, q, r, f);
            && (ok <==>
                  && f.getVolume == NoFault
                  && (q.vol in store ||
                      (q.vol != q.ns && NamespaceKeyAvailable(store, q, f) && f.createVolume == NoFault)))
            && (ok && q.vol !in store ==>
                  && q.ns in store' && q.vol in store'
                  && (q.ns !in store ==> store'[q.ns].data == map["key" := r.userKey])
                  && HoldsRandom(store'[q.vol].data, r))
  {
    NamespaceKeyIff(store, q, r, f);
    var (store1, nsKey) := EnsuredNamespaceKey(store, q, r, f);
    if nsKey.Some? {
      NamespaceKeyFacts(store, q, r, f);
      VolumeKeyIff(prims, store1, q, nsKey.value, r, f);
    }
    hide EnsuredNamespaceKey, CreatedVolumeKey, NamespaceKeyAvailable, KeyFromSecret, StoredKey, HoldsRandom;
  }

  lemma NamespaceKeyIff(store: Store, q: Request, r: Randomness, f: Faults)
    ensures var (store', key) := EnsuredNamespaceKey(store, q, r, f);
            && (key.Some? <==> NamespaceKeyAvailable(store, q, f))
            && (key.Some? ==> q.ns in store' && (q.vol in store' <==> q.vol in store || q.vol == q.ns))
            && (key.Some? && q.ns !in store ==> store'[q.ns].data == map["key" := r.userKey])
  {
    hide HexEncode;
  }

  lemma VolumeKeyIff(prims: Primitives, store: Store, q: Request, nsKey: string, r: Randomness, f: Faults)
    requires prims.Sound() && q.ns in store && KeyFromSecret(store[q.ns]) == Some(nsKey)
    ensures var (store', ok) := CreatedVolumeKey(prims, store, q, nsKey, r, f);
            && (ok <==> q.vol !in store && f.createVolume == NoFault)
            && q.ns in store' && store'[q.ns] == store[q.ns]
            && (ok ==> q.vol in store' && HoldsRandom(store'[q.vol].data, r))
  {
    VolumeSecretUnwraps(prims, store[q.ns], r);
    SecretHoldsKey(prims, nsKey, r);
    hide VolumeSecretData, Unwraps, KeyFromSecret, StoredKey, HoldsRandom;
  }

  lemma SecretHoldsKey(prims: Primitives, nsKey: string, r: Randomness)
    requires prims.Sound()
    ensures var data := VolumeSecretData(prims, nsKey, r);
            data.Some? ==> HoldsRandom(data.value, r)
  {
    var bytes := HexDecode(nsKey);
    if bytes.Some? {
      EncryptChains(prims, r.vmk, CreateIK(prims, bytes.value, r.iv), r.cbcIV);
    }
    hide HexDecode, Encrypt;
  }

  /** The volume key, the IV of its derivation and the IV of its wrapping are the random bytes of the call. */
  predicate HoldsRandom(data: map<string, Bytes>, r: Randomness) {
    && data.Keys == {"key", "iv", "vuk", "hmac"}
    && data["key"] == r.vmk && data["iv"] == r.iv && r.cbcIV <= data["vuk"]
  }

  /** One undisturbed call of the protocol ends in success exactly under the same condition. */
  lemma SoloRunSucceedsIff(prims: Primitives, store: Store, q: Request, r: Randomness, f: Faults)
    requires prims.Sound()
    ensures var m := Execute(prims, Solo(store, q, GetVolume), SoloActions(store, q, r, f));
            && |m.calls| == 1
            && (m.calls[0].pc == Done <==>
                  && f.getVolume == NoFault
                  && (q.vol in store ||
                      (q.vol != q.ns && NamespaceKeyAvailable(store, q, f) && f.createVolume == NoFault)))
            && (m.calls[0].pc == Done && q.vol !in store ==> q.ns in m.store && q.vol in m.store)
  {
    hide Ensured, Execute, SoloActions, NamespaceKeyAvailable;
    EnsureIsSoloRun(prims, store, q, r, f);
    SucceedsIff(prims, store, q, r, f);
  }

  class Manager {
    const prims: Primitives
    var secrets: Store

    constructor (prims: Primitives, secrets: Store)
      ensures this.prims == prims && this.secrets == secrets
    {
      this.prims, this.secrets := prims, secrets;
    }

    method CreateSecret(key: ObjectKey, data: map<string, Bytes>, labels: map<string, string>, fault: Fault) returns (error: bool)
      modifies this`secrets
      ensures secrets == Create(old(secrets), key, Secret(data, labels), fault).store
      ensures error == Create(old(secrets), key, Secret(data, labels), fault).error
    {
      if fault.FailsBefore? || key in secrets {
        return true;
      }
      secrets := secrets[key := Secret(data, labels)];
      return fault.FailsAfter?;
    }

    method EnsureNamespaceKey(q: Request, r: Randomness, f: Faults) returns (key: Option<string>)
      modifies this`secrets
      ensures (secrets, key) == EnsuredNamespaceKey(old(secrets), q, r, f)
      ensures key.Some? <==> NamespaceKeyAvailable(old(secrets), q, f)
      ensures key.Some? ==> q.ns in secrets && KeyFromSecret(secrets[q.ns]) == key
      ensures Kept(old(secrets), secrets)
    {
      NamespaceKeyFacts(secrets, q, r, f);
      NamespaceKeyIff(secrets, q, r, f);
      hide HexEncode, StoredKey, NamespaceKeyAvailable;
      if !f.getNamespace.NoFault? {
        return None;
      }
      if q.ns in secrets {
        return KeyFromSecret(secrets[q.ns]);
      }
      var error := CreateSecret(q.ns, map["key" := r.userKey], q.nsLabels, f.createNamespace);
      return if error then None else Some(HexEncode(r.userKey));
    }

    method CreateVolumeKey(q: Request, nsKey: string, r: Randomness, f: Faults) returns (ok: bool)
      requires prims.Sound()
      modifies this`secrets
      ensures (secrets, ok) == CreatedVolumeKey(prims, old(secrets), q, nsKey, r, f)
      ensures ok ==> q.vol !in old(secrets) && q.vol in secrets
      ensures Kept(old(secrets), secrets)
    {
      VolumeKeyFacts(prims, secrets, q, nsKey, r, f);
      hide HexDecode, Encrypt, Primitives.Sound;
      var nsKeyBytes := HexDecode(nsKey);
      if nsKeyBytes.None? {
        return false;
      }
      var ik := CreateIK(prims, nsKeyBytes.value, r.iv);
      var vuk := EncryptBuffer(prims, r.vmk, ik, r.cbcIV);
      if vuk.Err? {
        return false;
      }
      var hmac := CreateHMAC(prims, r.vmk, r.iv);
      var data := map["key" := r.vmk, "iv" := r.iv, "vuk" := vuk.value, "hmac" := hmac];
      assert VolumeSecretData(prims, nsKey, r) == Some(data);
      var error := CreateSecret(q.vol, data, q.volLabels, f.createVolume);
      return !error;
    }

    /** Success leaves a secret at the volume reference; a new one unwraps under the namespace secret. */
    method Ensure(q: Request, r: Randomness, f: Faults) returns (ok: bool)
      requires prims.Sound()
      modifies this`secrets
      ensures (secrets, ok) == Ensured(prims, old(secrets), q, r, f)
      ensures ok <==> f.getVolume == NoFault &&
                      (q.vol in old(secrets) ||
                       (q.vol != q.ns && NamespaceKeyAvailable(old(secrets), q, f) && f.createVolume == NoFault))
      ensures ok ==> q.vol in secrets && (q.vol in old(secrets) || q.ns in secrets)
      ensures ok && q.vol !in old(secrets) && q.ns == NamespaceSlot(q.vol) ==> SoundSecret(prims, secrets, q.vol)
      ensures Kept(old(secrets), secrets)
    {
      EnsuredFacts(prims, secrets, q, r, f);
      SucceedsIff(prims, secrets, q, r, f);
      if q.vol !in secrets && q.ns == NamespaceSlot(q.vol) && Ensured(prims, secrets, q, r, f).1 {
        NewSecretSound(prims, secrets, q, r, f);
      }
      hide VolumeSecretData, EnsuredNamespaceKey, CreatedVolumeKey, SoundSecret, KeyFromSecret, NamespaceKeyAvailable;
      if !f.getVolume.NoFault? {
        return false;
      }
      if q.vol in secrets {
        return true;
      }
      var nsKey := EnsureNamespaceKey(q, r, f);
      if nsKey.None? {
        return false;
      }
      ok := CreateVolumeKey(q, nsKey.value, r, f);
    }
  }

  /** The positions an undisturbed call goes through, with the fault met at each. */
  function SoloActions(store: Store, q: Request, r: Randomness, f: Faults): seq<Action> {
    var create := Advance(0, r, f.createVolume);
    [Advance(0, r, f.getVolume), Advance(0, r, f.getNamespace)] +
    if q.ns in store then [create] else [Advance(0, r, f.createNamespace), create]
  }

  function Solo(store: Store, q: Request, pc: Pc): Machine {
    Machine(store, [Call(q.ns, q.vol, q.nsLabels, q.volLabels, pc)], map[])
  }

  lemma SoloGetVolume(prims: Primitives, store: Store, q: Request, r: Randomness, f: Faults)
    requires prims.Sound()
    ensures AdvanceCall(prims, Solo(store, q, GetVolume), 0, r, f.getVolume) ==
            Solo(store, q, if !f.getVolume.NoFault? then Failed else if q.vol in store then Done else GetNamespace)
  {
  }

  lemma SoloNamespace(prims: Primitives, store: Store, q: Request, r: Randomness, f: Faults)
    requires prims.Sound()
    ensures var (store', key) := EnsuredNamespaceKey(store, q, r, f);
            var after := Solo(store', q, if key.Some? then CreateVolume(key.value) else Failed);
            var m := AdvanceCall(prims, Solo(store, q, GetNamespace), 0, r, f.getNamespace);
            if q.ns in store || !f.getNamespace.NoFault? then m == after && (!f.getNamespace.NoFault? ==> key.None?)
            else m == Solo(store, q, CreateNamespace) && AdvanceCall(prims, m, 0, r, f.createNamespace) == after
  {
    hide HexEncode, StoredKey;
  }

  lemma SoloCreate(prims: Primitives, store: Store, q: Request, nsKey: string, r: Randomness, f: Faults)
    requires prims.Sound()
    ensures var (store', ok) := CreatedVolumeKey(prims, store, q, nsKey, r, f);
            var m := AdvanceCall(prims, Solo(store, q, CreateVolume(nsKey)), 0, r, f.createVolume);
            && m == Solo(store', q, if ok then Done else Failed).(made := m.made)
            && (ok ==> m.made == map[q.vol := q.ns])
  {
    hide VolumeSecretData;
  }

  lemma SoloStopped(prims: Primitives, m: Machine, r: Randomness, fault: Fault)
    requires prims.Sound() && |m.calls| == 1 && (m.calls[0].pc == Done || m.calls[0].pc == Failed)
    ensures AdvanceCall(prims, m, 0, r, fault) == m
  {
  }

  /** One call alone is a run of the protocol, so what holds for every interleaving holds for it. */
  lemma EnsureIsSoloRun(prims: Primitives, store: Store, q: Request, r: Randomness, f: Faults)
    requires prims.Sound()
    ensures var m := Execute(prims, Solo(store, q, GetVolume), SoloActions(store, q, r, f));
            var (store', ok) := Ensured(prims, store, q, r, f);
            && m == Solo(store', q, if ok then Done else Failed).(made := m.made)
            && (ok && q.vol !in store ==> m.made == map[q.vol := q.ns])
  {
    hide AdvanceCall, EnsuredNamespaceKey, CreatedVolumeKey, Execute, SoloActions;
    SoloExecute(prims, store, q, r, f);
    SoloGetVolume(prims, store, q, r, f);
    forall m: Machine, fault | |m.calls| == 1 && (m.calls[0].pc == Done || m.calls[0].pc == Failed)
      ensures AdvanceCall(prims, m, 0, r, fault) == m
    {
      SoloStopped(prims, m, r, fault);
    }
    if f.getVolume.NoFault? && q.vol !in store {
      SoloNamespace(prims, store, q, r, f);
      var (store1, key) := EnsuredNamespaceKey(store, q, r, f);
      if key.Some? {
        SoloCreate(prims, store1, q, key.value, r, f);
      }
    }
  }

  lemma SoloExecute(prims: Primitives, store: Store, q: Request, r: Randomness, f: Faults)
    requires prims.Sound()
    ensures var m1 := AdvanceCall(prims, Solo(store, q, GetVolume), 0, r, f.getVolume);
            var m2 := AdvanceCall(prims, m1, 0, r, f.getNamespace);
            var m3 := if q.ns in store then m2 else AdvanceCall(prims, m2, 0, r, f.createNamespace);
            Execute(prims, Solo(store, q, GetVolume), SoloActions(store, q, r, f)) ==
            AdvanceCall(prims, m3, 0, r, f.createVolume)
  {
    var m0, actions := Solo(store, q, GetVolume), SoloActions(store, q, r, f);
    var m1 := AdvanceCall(prims, m0, 0, r, f.getVolume);
    var m2 := AdvanceCall(prims, m1, 0, r, f.getNamespace);
    var m3 := if q.ns in store then m2 else AdvanceCall(prims, m2, 0, r, f.createNamespace);
    assert |m1.calls| == 1 && |m2.calls| == 1 && |m3.calls| == 1;
    hide AdvanceCall;
    ExecuteCons(prims, m0, actions);
    ExecuteCons(prims, m1, actions[1..]);
    if q.ns in store {
      assert actions[1..][1..] == [Advance(0, r, f.createVolume)];
    } else {
      assert actions[1..][1..] == [Advance(0, r, f.createNamespace), Advance(0, r, f.createVolume)];
      ExecuteCons(prims, m2, actions[1..][1..]);
      assert actions[1..][1..][1..] == [Advance(0, r, f.createVolume)];
    }
    ExecuteCons(prims, m3, [Advance(0, r, f.createVolume)]);
  }

  lemma ExecuteCons(prims: Primitives, m: Machine, actions: seq<Action>)
    requires prims.Sound() && actions != []
    ensures Execute(prims, m, actions) == Execute(prims, Step(prims, m, actions[0]), actions[1..])
  {
  }

  /** A call that makes a volume secret makes one that unwraps under the stored namespace key. */
  lemma NewSecretSound(prims: Primitives, store: Store, q: Request, r: Randomness, f: Faults)
    requires prims.Sound() && q.ns == NamespaceSlot(q.vol)
    requires q.vol !in store && Ensured(prims, store, q, r, f).1
    ensures SoundSecret(prims, Ensured(prims, store, q, r, f).0, q.vol)
  {
    var m := Solo(store, q, GetVolume);
    EnsureIsSoloRun(prims, store, q, r, f);
    EveryInterleavingUnwraps(prims, store, m.calls, SoloActions(store, q, r, f));
    hide Ensured, SoundSecret, Execute, SoloActions;
    var m' := Execute(prims, m, SoloActions(store, q, r, f));
    assert q.vol in m'.made;
  }
}
