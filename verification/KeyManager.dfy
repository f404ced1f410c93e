/**
  The key manager of controllers/pvc-mutator/encryption/keys/manager.go: any
  number of Ensure calls and of other clients that create secrets, interleaved
  at every Get and every Create. Secrets are not deleted or updated.
 */
module KeyManager {
  import opened Common
  import opened Strconv
  import opened Crypto

  const NAMESPACE_SECRET := "storageos-namespace-key"

  datatype Secret = Secret(data: map<string, Bytes>, labels: map<string, string>)

  type Store = map<ObjectKey, Secret>

  /** The bytes the random source yields for one call. */
  datatype Random = Random(userKey: Bytes, iv: Bytes, vmk: Bytes, cbcIV: Bytes) {
    predicate Sized() {
      |userKey| == 32 && |iv| == 32 && |vmk| == 64 && |cbcIV| == BLOCK
    }
  }

  type Randomness = r: Random | r.Sized()
    witness Random(seq(32, _ => 0), seq(32, _ => 0), seq(64, _ => 0), seq(BLOCK, _ => 0))

  function StoredKey(secret: Secret): Option<Bytes> {
    if "key" in secret.data && |secret.data["key"]| > 0 then Some(secret.data["key"]) else None
  }

  function KeyFromSecret(secret: Secret): Option<string> {
    match StoredKey(secret)
    case Some(key) => Some(HexEncode(key))
    case None => None
  }

  /** A request may fail before it has an effect, or succeed and still report an error. */
  datatype Fault = NoFault | FailsBefore | FailsAfter

  datatype Created = Created(store: Store, stored: bool, error: bool)

  function Create(store: Store, key: ObjectKey, secret: Secret, fault: Fault): Created {
    if fault.FailsBefore? || key in store then Created(store, false, true)
    else Created(store[key := secret], true, fault.FailsAfter?)
  }

  /** The contents of a volume secret, made under the namespace key given in hex. */
  function VolumeSecretData(prims: Primitives, nsKey: string, r: Randomness): Option<map<string, Bytes>>
    requires prims.Sound()
  {
    match HexDecode(nsKey)
    case None => None
    case Some(nsKeyBytes) =>
      match Encrypt(prims, r.vmk, CreateIK(prims, nsKeyBytes, r.iv), r.cbcIV)
      case Err(_) => None
      case Ok(vuk) =>
        Some(map["key" := r.vmk, "iv" := r.iv, "vuk" := vuk, "hmac" := CreateHMAC(prims, r.vmk, r.iv)])
  }

  /** The volume key can be unwrapped with the namespace key and its tag checks. */
  ghost predicate Unwraps(prims: Primitives, data: map<string, Bytes>, nsKey: Bytes)
    requires prims.Sound()
  {
    && data.Keys == {"key", "iv", "vuk", "hmac"}
    && |data["key"]| == 64 && |data["iv"]| == 32
    && Decrypt(prims, data["vuk"], prims.hkdf(nsKey, data["iv"])) == Ok(data["key"])
    && CreateIK(prims, nsKey, data["iv"]) == prims.hkdf(nsKey, data["iv"])
    && data["hmac"] == prims.hmac(data["iv"], data["key"])
    && CheckHMAC(prims, data["key"], data["hmac"], data["iv"])
  }

  /** A secret made under the key read from a namespace secret unwraps under that secret. */
  lemma VolumeSecretUnwraps(prims: Primitives, nsSecret: Secret, r: Randomness)
    requires prims.Sound() && StoredKey(nsSecret).Some?
    ensures var data := VolumeSecretData(prims, KeyFromSecret(nsSecret).value, r);
            data.Some? && Unwraps(prims, data.value, StoredKey(nsSecret).value)
  {
    var key := StoredKey(nsSecret).value;
    HexRoundTrip(key);
    EncryptThenDecrypt(prims, r.vmk, CreateIK(prims, key, r.iv), r.cbcIV);
    hide Encrypt, Decrypt, HexDecode, HexEncode;
  }

  /******* The protocol *******/

  datatype Pc =
    | GetVolume
    | GetNamespace
    | CreateNamespace
    | CreateVolume(nsKey: string)
    | Done
    | Failed

  datatype Call = Call(ns: ObjectKey, vol: ObjectKey, nsLabels: map<string, string>, volLabels: map<string, string>, pc: Pc)

  /** `made` maps each volume secret that a call has created to the namespace secret the call used. */
  datatype Machine = Machine(store: Store, calls: seq<Call>, made: map<ObjectKey, ObjectKey>)

  datatype Action =
    | Advance(i: nat, random: Randomness, fault: Fault)
    | OutsideCreate(key: ObjectKey, secret: Secret)

  function AdvanceCall(prims: Primitives, m: Machine, i: nat, r: Randomness, fault: Fault): Machine
    requires prims.Sound() && i < |m.calls|
  {
    var call := m.calls[i];
    match call.pc
    case GetVolume =>
      At(m, i, if !fault.NoFault? then Failed else if call.vol in m.store then Done else GetNamespace)
    case GetNamespace =>
      if !fault.NoFault? then At(m, i, Failed)
      else if call.ns !in m.store then At(m, i, CreateNamespace)
      else
        (match KeyFromSecret(m.store[call.ns])
         case Some(key) => At(m, i, CreateVolume(key))
         case None => At(m, i, Failed))
    case CreateNamespace => StoreNamespaceSecret(m, i, r, fault)
    case CreateVolume(nsKey) => StoreVolumeSecret(prims, m, i, nsKey, r, fault)
    case _ => m
  }

  function StoreNamespaceSecret(m: Machine, i: nat, r: Randomness, fault: Fault): Machine
    requires i < |m.calls|
  {
    var call := m.calls[i];
    var c := Create(m.store, call.ns, Secret(map["key" := r.userKey], call.nsLabels), fault);
    At(m.(store := c.store), i, if c.error then Failed else CreateVolume(HexEncode(r.userKey)))
  }

  function StoreVolumeSecret(prims: Primitives, m: Machine, i: nat, nsKey: string, r: Randomness, fault: Fault): Machine
    requires prims.Sound() && i < |m.calls|
  {
    var call := m.calls[i];
    match VolumeSecretData(prims, nsKey, r)
    case None => At(m, i, Failed)
    case Some(data) =>
      var c := Create(m.store, call.vol, Secret(data, call.volLabels), fault);
      At(m.(store := c.store, made := if c.stored then m.made[call.vol := call.ns] else m.made), i,
         if c.error then Failed else Done)
  }

  function At(m: Machine, i: nat, pc: Pc): Machine
    requires i < |m.calls|
  {
    m.(calls := m.calls[i := m.calls[i].(pc := pc)])
  }

  function Step(prims: Primitives, m: Machine, a: Action): Machine
    requires prims.Sound()
  {
    match a
    case OutsideCreate(key, secret) => m.(store := Create(m.store, key, secret, NoFault).store)
    case Advance(i, r, fault) => if i < |m.calls| then AdvanceCall(prims, m, i, r, fault) else m
  }

  function Execute(prims: Primitives, m: Machine, actions: seq<Action>): Machine
    requires prims.Sound()
    decreases |actions|
  {
    if actions == [] then m else Execute(prims, Step(prims, m, actions[0]), actions[1..])
  }

  /******* What every interleaving keeps *******/

  /** The references are the ones the mutator passes: one namespace, and its fixed secret name. */
  predicate ProperCall(call: Call) {
    call.ns == NamespaceSlot(call.vol)
  }

  /** Where the key of the namespace of a volume secret is stored. */
  function NamespaceSlot(vol: ObjectKey): ObjectKey {
    ObjectKey(vol.namespace, NAMESPACE_SECRET)
  }

  /** The secret at `vol` unwraps under the key stored for its namespace, and is no namespace secret. */
  ghost predicate SoundSecret(prims: Primitives, store: Store, vol: ObjectKey)
    requires prims.Sound()
  {
    var ns := NamespaceSlot(vol);
    && vol in store && ns in store && vol.name != NAMESPACE_SECRET
    && StoredKey(store[ns]).Some?
    && Unwraps(prims, store[vol].data, StoredKey(store[ns]).value)
  }

  ghost predicate Invariant(prims: Primitives, m: Machine)
    requires prims.Sound()
  {
    && (forall i | 0 <= i < |m.calls| :: ProperCall(m.calls[i]))
    && (forall i | 0 <= i < |m.calls| && m.calls[i].pc.CreateVolume? ::
          m.calls[i].ns in m.store && KeyFromSecret(m.store[m.calls[i].ns]) == Some(m.calls[i].pc.nsKey))
    && (forall vol | vol in m.made :: SoundSecret(prims, m.store, vol) && m.made[vol] == NamespaceSlot(vol))
  }

  /** Nothing stored changes. */
  ghost predicate Kept(store: Store, store': Store) {
    store.Keys <= store'.Keys && forall k | k in store :: store'[k] == store[k]
  }

  lemma KeptSound(prims: Primitives, store: Store, store': Store, vol: ObjectKey)
    requires prims.Sound() && Kept(store, store') && SoundSecret(prims, store, vol)
    ensures SoundSecret(prims, store', vol)
  {
    hide Unwraps;
  }

  /** What one step of one call changes: its own position, and at most one new secret. */
  ghost predicate StepEffect(prims: Primitives, m: Machine, m': Machine, i: nat)
    requires prims.Sound() && i < |m.calls|
  {
    var call := m.calls[i];
    && Kept(m.store, m'.store)
    && |m'.calls| == |m.calls|
    && m'.calls == m.calls[i := call.(pc := m'.calls[i].pc)]
    && (m'.calls[i].pc.CreateVolume? ==>
          call.ns in m'.store && KeyFromSecret(m'.store[call.ns]) == Some(m'.calls[i].pc.nsKey))
    && (m'.made == m.made || (m'.made == m.made[call.vol := call.ns] && SoundSecret(prims, m'.store, call.vol)))
  }

  lemma CreateVolumeEffect(prims: Primitives, m: Machine, i: nat, r: Randomness, fault: Fault)
    requires prims.Sound() && i < |m.calls| && Invariant(prims, m) && m.calls[i].pc.CreateVolume?
    ensures StepEffect(prims, m, AdvanceCall(prims, m, i, r, fault), i)
  {
    var call := m.calls[i];
    assert ProperCall(call) && call.ns in m.store && KeyFromSecret(m.store[call.ns]) == Some(call.pc.nsKey);
    hide Invariant, Primitives.Sound;
    StoredSound(prims, m.store, call, call.pc.nsKey, r);
    assert AdvanceCall(prims, m, i, r, fault) == StoreVolumeSecret(prims, m, i, call.pc.nsKey, r, fault);
    hide AdvanceCall, VolumeSecretData, SoundSecret, KeyFromSecret;
  }

  /** A slot that is free and gets a secret made under the stored namespace key gets a sound one. */
  lemma StoredSound(prims: Primitives, store: Store, call: Call, nsKey: string, r: Randomness)
    requires prims.Sound() && ProperCall(call)
    requires call.ns in store && KeyFromSecret(store[call.ns]) == Some(nsKey)
    ensures var data := VolumeSecretData(prims, nsKey, r);
            && data.Some?
            && (call.vol !in store ==> SoundSecret(prims, store[call.vol := Secret(data.value, call.volLabels)], call.vol))
  {
    VolumeSecretUnwraps(prims, store[call.ns], r);
    hide Unwraps, VolumeSecretData, HexEncode;
  }

  lemma OtherEffect(prims: Primitives, m: Machine, i: nat, r: Randomness, fault: Fault)
    requires prims.Sound() && i < |m.calls| && !m.calls[i].pc.CreateVolume?
    ensures StepEffect(prims, m, AdvanceCall(prims, m, i, r, fault), i)
  {
    hide SoundSecret, HexEncode, StoreNamespaceSecret, StoreVolumeSecret, StepEffect, At;
    var call := m.calls[i];
    if call.pc.CreateNamespace? {
      StoreNamespaceEffect(prims, m, i, r, fault);
    } else {
      forall pc: Pc | pc.CreateVolume? ==> call.ns in m.store && KeyFromSecret(m.store[call.ns]) == Some(pc.nsKey)
        ensures StepEffect(prims, m, At(m, i, pc), i)
      {
        MoveEffect(prims, m, i, pc);
      }
      AtOwn(m, i);
    }
  }

  lemma AtOwn(m: Machine, i: nat)
    requires i < |m.calls|
    ensures At(m, i, m.calls[i].pc) == m
  {
  }

  lemma MoveEffect(prims: Primitives, m: Machine, i: nat, pc: Pc)
    requires prims.Sound() && i < |m.calls|
    requires pc.CreateVolume? ==> m.calls[i].ns in m.store && KeyFromSecret(m.store[m.calls[i].ns]) == Some(pc.nsKey)
    ensures StepEffect(prims, m, At(m, i, pc), i)
  {
    hide SoundSecret, KeyFromSecret;
  }

  lemma StoreNamespaceEffect(prims: Primitives, m: Machine, i: nat, r: Randomness, fault: Fault)
    requires prims.Sound() && i < |m.calls|
    ensures StepEffect(prims, m, StoreNamespaceSecret(m, i, r, fault), i)
  {
    hide SoundSecret, HexEncode, Primitives.Sound;
  }

  lemma EffectKeepsInvariant(prims: Primitives, m: Machine, m': Machine, i: nat)
    requires prims.Sound() && Invariant(prims, m) && i < |m.calls| && StepEffect(prims, m, m', i)
    ensures Invariant(prims, m')
  {
    hide KeyFromSecret, SoundSecret;
    forall vol | vol in m.made ensures SoundSecret(prims, m'.store, vol) {
      KeptSound(prims, m.store, m'.store, vol);
    }
  }

  lemma StepKeepsInvariant(prims: Primitives, m: Machine, a: Action)
    requires prims.Sound() && Invariant(prims, m)
    ensures var m' := Step(prims, m, a); Invariant(prims, m') && Kept(m.store, m'.store)
  {
    var m' := Step(prims, m, a);
    if a.OutsideCreate? {
      hide KeyFromSecret, SoundSecret;
      forall vol | vol in m.made ensures SoundSecret(prims, m'.store, vol) {
        KeptSound(prims, m.store, m'.store, vol);
      }
    } else if a.i < |m.calls| {
      if m.calls[a.i].pc.CreateVolume? {
        CreateVolumeEffect(prims, m, a.i, a.random, a.fault);
      } else {
        OtherEffect(prims, m, a.i, a.random, a.fault);
      }
      EffectKeepsInvariant(prims, m, m', a.i);
    }
  }

  lemma {:induction false} ExecuteKeepsInvariant(prims: Primitives, m: Machine, actions: seq<Action>)
    requires prims.Sound() && Invariant(prims, m)
    ensures var m' := Execute(prims, m, actions); Invariant(prims, m') && Kept(m.store, m'.store)
    decreases |actions|
  {
    if actions != [] {
      hide Invariant;
      var m1 := Step(prims, m, actions[0]);
      StepKeepsInvariant(prims, m, actions[0]);
      ExecuteKeepsInvariant(prims, m1, actions[1..]);
      assert Execute(prims, m, actions) == Execute(prims, m1, actions[1..]);
    }
  }

  predicate FreshCalls(calls: seq<Call>) {
    forall i | 0 <= i < |calls| :: ProperCall(calls[i]) && calls[i].pc == GetVolume
  }

  /**
    In every interleaving of any number of calls over any store, every volume
    secret that the manager has created unwraps under the key stored for its
    namespace, which is the one its call used; no stored secret is overwritten,
    and no namespace slot is filled with a volume key.
   */
  lemma EveryInterleavingUnwraps(prims: Primitives, store: Store, calls: seq<Call>, actions: seq<Action>)
    requires prims.Sound() && FreshCalls(calls)
    ensures var m := Execute(prims, Machine(store, calls, map[]), actions);
            && Kept(store, m.store)
            && forall vol | vol in m.made ::
                 SoundSecret(prims, m.store, vol) && m.made[vol] == ObjectKey(vol.namespace, NAMESPACE_SECRET)
  {
    ExecuteKeepsInvariant(prims, Machine(store, calls, map[]), actions);
    hide SoundSecret, Execute;
  }
}
