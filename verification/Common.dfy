/** Types shared by every component. */
module Common {
  const DRIVER_NAME := "csi.storageos.com"
  const RESERVED_PREFIX := "storageos.com/"
  const PVC_NAMESPACE_LABEL := "csi.storage.k8s.io/pvc/namespace"
  const PVC_NAME_LABEL := "csi.storage.k8s.io/pvc/name"
  const PV_NAME_LABEL := "csi.storage.k8s.io/pv/name"

  datatype Option<+T> = None | Some(value: T)

  datatype Result<+T, +E> = Ok(value: T) | Err(error: E)

  /** A Kubernetes object key. Cluster-scoped objects have an empty namespace. */
  datatype ObjectKey = ObjectKey(namespace: string, name: string)

  /** String-to-string maps as Go reads them: a missing key gives the empty string. */
  function Lookup(m: map<string, string>, k: string): string {
    if k in m then m[k] else ""
  }

  predicate HasPrefix(s: string, prefix: string) {
    prefix <= s
  }

  function Filter<T>(s: seq<T>, keep: T -> bool): seq<T> {
    if s == [] then []
    else if keep(s[0]) then [s[0]] + Filter(s[1..], keep)
    else Filter(s[1..], keep)
  }

  lemma {:induction false} FilterMember<T>(s: seq<T>, keep: T -> bool, x: T)
    ensures x in Filter(s, keep) <==> x in s && keep(x)
  {
    if s != [] {
      FilterMember(s[1..], keep, x);
      assert s == [s[0]] + s[1..];
    }
  }

  lemma {:induction false} FilterAll<T>(s: seq<T>, keep: T -> bool)
    requires forall x | x in s :: keep(x)
    ensures Filter(s, keep) == s
  {
    if s != [] {
      assert s == [s[0]] + s[1..];
      FilterAll(s[1..], keep);
    }
  }

  /** Visiting a key leaves fewer to visit. */
  lemma ShrinkOne<T>(all: set<T>, seen: set<T>, k: T)
    requires k in all - seen
    ensures |all - (seen + {k})| < |all - seen|
  {
    assert all - (seen + {k}) == (all - seen) - {k};
  }

  lemma PutElsewhere<K, V>(m: map<K, V>, k: K, v: V)
    ensures m[k := v] - {k} == m - {k}
  {
  }

  /** Maps that agree but for one key. */
  lemma SameElsewhere<K, V>(m: map<K, V>, m': map<K, V>, k: K, j: K)
    requires m' - {k} == m - {k} && j != k
    ensures (j in m' <==> j in m) && (j in m ==> m'[j] == m[j])
  {
    assert j in m' <==> j in m' - {k};
    assert j in m <==> j in m - {k};
    if j in m {
      assert (m' - {k})[j] == (m - {k})[j];
    }
  }

  lemma OnlyPut<K, V>(m: map<K, V>, m': map<K, V>, k: K)
    requires m' - {k} == m - {k} && k in m'
    ensures m' == m[k := m'[k]]
  {
    forall j | j != k ensures (j in m' <==> j in m) && (j in m ==> m'[j] == m[j]) {
      SameElsewhere(m, m', k, j);
    }
  }
}
