/**
  Label names, their classification and the reserved-label merge
  (internal/pkg/storageos/labels.go and the loops of volume_labels.go and
  node_labels.go). Go maps are iterated in no fixed order: the loops below pick
  any remaining key, and what they compute does not depend on the choice.
 */
module Labels {
  import opened Common
  import opened Strconv

  const COMPUTE_ONLY := "storageos.com/computeonly"
  const REPLICAS := "storageos.com/replicas"
  const NO_CACHE := "storageos.com/nocache"
  const NO_COMPRESS := "storageos.com/nocompress"
  const FAILURE_MODE := "storageos.com/failure-mode"

  type LabelMap = map<string, string>

  predicate IsReservedLabel(key: string) {
    HasPrefix(key, RESERVED_PREFIX) || key == PVC_NAMESPACE_LABEL || key == PVC_NAME_LABEL || key == PV_NAME_LABEL
  }

  lemma ReservedNames()
    ensures IsReservedLabel(COMPUTE_ONLY) && IsReservedLabel(REPLICAS) && IsReservedLabel(FAILURE_MODE)
    ensures IsReservedLabel(NO_CACHE) && IsReservedLabel(NO_COMPRESS)
    ensures REPLICAS != FAILURE_MODE && COMPUTE_ONLY !in {REPLICAS, FAILURE_MODE}
    ensures NO_CACHE !in {REPLICAS, FAILURE_MODE} && NO_COMPRESS !in {REPLICAS, FAILURE_MODE}
  {
    assert COMPUTE_ONLY[..14] == RESERVED_PREFIX && REPLICAS[..14] == RESERVED_PREFIX;
    assert FAILURE_MODE[..14] == RESERVED_PREFIX && NO_CACHE[..14] == RESERVED_PREFIX;
    assert NO_COMPRESS[..14] == RESERVED_PREFIX;
    assert REPLICAS[14] != FAILURE_MODE[14] && COMPUTE_ONLY[14] !in {REPLICAS[14], FAILURE_MODE[14]};
    assert NO_CACHE[14] == NO_COMPRESS[14] && NO_CACHE[14] !in {REPLICAS[14], FAILURE_MODE[14]};
  }

  function Unreserved(labels: LabelMap): LabelMap {
    map k | k in labels && !IsReservedLabel(k) :: labels[k]
  }

  function Reserved(labels: LabelMap): LabelMap {
    map k | k in labels && IsReservedLabel(k) :: labels[k]
  }

  /** The desired unreserved labels with the current reserved ones. */
  function Merge(desired: LabelMap, current: LabelMap): LabelMap {
    Unreserved(desired) + Reserved(current)
  }

  /** The merge has exactly the wanted parts, and changes nothing exactly when the unreserved part is right already. */
  lemma MergeExact(desired: LabelMap, current: LabelMap)
    ensures Unreserved(Merge(desired, current)) == Unreserved(desired)
    ensures Reserved(Merge(desired, current)) == Reserved(current)
    ensures Merge(desired, current) == current <==> Unreserved(current) == Unreserved(desired)
  {
    if Unreserved(current) == Unreserved(desired) {
      assert current == Unreserved(current) + Reserved(current);
    }
  }

  /** The names that are reserved: a prefix, and the three that the CSI provisioner sets. */
  predicate ReservedName(k: string) {
    || (|k| >= 14 && k[..14] == "storageos.com/")
    || k in {"csi.storage.k8s.io/pvc/namespace", "csi.storage.k8s.io/pvc/name", "csi.storage.k8s.io/pv/name"}
  }

  lemma ReservedNameIff(k: string)
    ensures IsReservedLabel(k) <==> ReservedName(k)
  {
    assert |RESERVED_PREFIX| == 14;
  }

  /** By name: a reserved label of the merge is the current one, any other is the desired one. */
  lemma MergeByName(desired: LabelMap, current: LabelMap, k: string)
    ensures var source := if ReservedName(k) then current else desired;
            (k in Merge(desired, current) <==> k in source) && (k in source ==> Merge(desired, current)[k] == source[k])
  {
    ReservedNameIff(k);
    hide IsReservedLabel, ReservedName;
  }

  /** The labels of one kind among the keys seen so far. */
  function Picked(labels: LabelMap, reserved: bool, seen: set<string>): LabelMap {
    map k | k in seen && k in labels && IsReservedLabel(k) == reserved :: labels[k]
  }

  lemma PickedSnoc(labels: LabelMap, reserved: bool, seen: set<string>, k: string)
    requires k in labels
    ensures Picked(labels, reserved, seen + {k}) ==
            if IsReservedLabel(k) == reserved then Picked(labels, reserved, seen)[k := labels[k]]
            else Picked(labels, reserved, seen)
  {
    hide IsReservedLabel;
  }

  lemma PickedAll(labels: LabelMap)
    ensures Picked(labels, true, labels.Keys) == Reserved(labels)
    ensures Picked(labels, false, labels.Keys) == Unreserved(labels)
  {
    hide IsReservedLabel;
  }

  method CopyLabels(labels: LabelMap, reserved: bool) returns (copied: LabelMap)
    ensures copied == if reserved then Reserved(labels) else Unreserved(labels)
  {
    copied := map[];
    var seen: set<string> := {};
    assert Picked(labels, reserved, {}) == map[];
    PickedAll(labels);
    hide IsReservedLabel, Picked, Reserved, Unreserved;
    while seen != labels.Keys
      invariant seen <= labels.Keys
      invariant copied == Picked(labels, reserved, seen)
      decreases |labels.Keys - seen|
    {
      var k :| k in labels.Keys - seen;
      PickedSnoc(labels, reserved, seen, k);
      ShrinkOne(labels.Keys, seen, k);
      seen := seen + {k};
      if IsReservedLabel(k) == reserved {
        copied := copied[k := labels[k]];
      }
    }
  }

  /** The two copying loops and the two skip tests; None means that no update is sent. */
  method MergeLabels(desired: LabelMap, current: LabelMap) returns (send: Option<LabelMap>)
    ensures send == if Merge(desired, current) == current then None else Some(Merge(desired, current))
    ensures send.None? <==> Unreserved(current) == Unreserved(desired)
  {
    MergeExact(desired, current);
    hide IsReservedLabel, Unreserved, Reserved;
    var wanted := CopyLabels(desired, false);
    var kept := CopyLabels(current, true);
    var apply := wanted + kept;
    if |current| == 0 && |apply| == 0 {
      assert current == map[] == apply;
      return None;
    }
    if current == apply {
      return None;
    }
    return Some(apply);
  }

  /******* Classification of volume labels *******/

  datatype LabelErrorKind = InvalidForObject | FixedAfterCreation | UnknownLabel | BadSyntax | OutOfRange | BadBool

  datatype LabelError = LabelError(kind: LabelErrorKind, key: string)

  /** What is wrong with one label of a volume, if anything. */
  function VolumeLabelError(k: string, v: string): Option<LabelErrorKind> {
    if !IsReservedLabel(k) then None
    else if k == COMPUTE_ONLY then Some(InvalidForObject)
    else if k == NO_CACHE || k == NO_COMPRESS then Some(FixedAfterCreation)
    else if k == FAILURE_MODE then None
    else if k == REPLICAS then
      match ParseUint(v)
      case Parsed(_) => None
      case SyntaxError => Some(BadSyntax)
      case RangeError => Some(OutOfRange)
    else Some(UnknownLabel)
  }

  datatype Desired = Desired(unreserved: LabelMap, replicas: nat, failureMode: string, errors: multiset<LabelError>)

  /** The errors of the labels seen so far, for the given rule of what is wrong with a label. */
  function ErrorsOf(labels: LabelMap, seen: set<string>, wrong: (string, string) -> Option<LabelErrorKind>): set<LabelError> {
    set k | k in seen && k in labels && wrong(k, labels[k]).Some? :: LabelError(wrong(k, labels[k]).value, k)
  }

  /** An unparsable count stands for zero and one that is too large for the largest count; both are also errors. */
  function DesiredOf(labels: LabelMap): Desired {
    Desired(
      Unreserved(labels),
      if REPLICAS in labels then ParseUint(labels[REPLICAS]).Number() else 0,
      Lookup(labels, FAILURE_MODE),
      multiset(ErrorsOf(labels, labels.Keys, VolumeLabelError)))
  }

  lemma ErrorsOfSnoc(labels: LabelMap, seen: set<string>, k: string, wrong: (string, string) -> Option<LabelErrorKind>)
    requires k in labels && k !in seen
    ensures var e := wrong(k, labels[k]);
            multiset(ErrorsOf(labels, seen + {k}, wrong)) ==
            if e.None? then multiset(ErrorsOf(labels, seen, wrong))
            else multiset(ErrorsOf(labels, seen, wrong)) + multiset{LabelError(e.value, k)}
  {
    var e := wrong(k, labels[k]);
    if e.None? {
      assert ErrorsOf(labels, seen + {k}, wrong) == ErrorsOf(labels, seen, wrong);
    } else {
      assert LabelError(e.value, k) !in ErrorsOf(labels, seen, wrong);
      assert ErrorsOf(labels, seen + {k}, wrong) == ErrorsOf(labels, seen, wrong) + {LabelError(e.value, k)};
    }
  }

  /** What the labels seen so far ask for. */
  function DesiredAmong(labels: LabelMap, seen: set<string>): Desired {
    Desired(
      Picked(labels, false, seen),
      if REPLICAS in seen && REPLICAS in labels then ParseUint(labels[REPLICAS]).Number() else 0,
      if FAILURE_MODE in seen then Lookup(labels, FAILURE_MODE) else "",
      multiset(ErrorsOf(labels, seen, VolumeLabelError)))
  }

  lemma DesiredAmongEnds(labels: LabelMap)
    ensures DesiredAmong(labels, {}) == Desired(map[], 0, "", multiset{})
    ensures DesiredAmong(labels, labels.Keys) == DesiredOf(labels)
  {
    PickedAll(labels);
    assert Picked(labels, false, {}) == map[] && ErrorsOf(labels, {}, VolumeLabelError) == {};
    hide IsReservedLabel, VolumeLabelError;
  }

  lemma DesiredAmongSnoc(labels: LabelMap, seen: set<string>, k: string)
    requires k in labels && k !in seen
    ensures var d, d' := DesiredAmong(labels, seen), DesiredAmong(labels, seen + {k}); var v := labels[k];
            && d'.unreserved == (if IsReservedLabel(k) then d.unreserved else d.unreserved[k := v])
            && d'.replicas == (if k == REPLICAS then ParseUint(v).Number() else d.replicas)
            && d'.failureMode == (if k == FAILURE_MODE then v else d.failureMode)
            && d'.errors == WithError(d.errors, k, VolumeLabelError(k, v))
  {
    ErrorsOfSnoc(labels, seen, k, VolumeLabelError);
    PickedSnoc(labels, false, seen, k);
    hide IsReservedLabel, ParseUint, ErrorsOf, Picked, VolumeLabelError;
  }

  function WithError(errors: multiset<LabelError>, k: string, wrong: Option<LabelErrorKind>): multiset<LabelError> {
    if wrong.None? then errors else errors + multiset{LabelError(wrong.value, k)}
  }

  /** The label is turned down for its key alone. */
  predicate Rejected(d: Desired, k: string) {
    exists kind | kind in {InvalidForObject, FixedAfterCreation, UnknownLabel} :: LabelError(kind, k) in d.errors
  }

  function One(b: bool): nat {
    if b then 1 else 0
  }

  /**
    Each key of the labels lands in exactly one class: it is copied as an unreserved
    label, is one of the two settings, or is rejected. No other key is copied or
    reported, no key is reported twice, and a setting is reported only if it is a
    replica count that does not parse.
   */
  lemma ClassesPartition(labels: LabelMap, k: string)
    ensures var d := DesiredOf(labels);
            && One(k in d.unreserved) + One(k in labels && k == REPLICAS) + One(k in labels && k == FAILURE_MODE) + One(Rejected(d, k))
               == One(k in labels)
            && (k in d.unreserved ==> d.unreserved[k] == labels[k])
            && (forall kind :: d.errors[LabelError(kind, k)] <= 1)
            && (forall kind, other | LabelError(kind, k) in d.errors && LabelError(other, k) in d.errors :: kind == other)
            && (forall kind | LabelError(kind, k) in d.errors ::
                  Rejected(d, k) || (k == REPLICAS && k in labels && !ParseUint(labels[k]).Parsed?))
  {
    ReservedNames();
    ReportedIff(labels, k);
    hide IsReservedLabel, ParseUint, ErrorsOf;
  }

  /** By name: what each kind of report means. */
  lemma ReportedByName(labels: LabelMap, k: string)
    requires k in labels
    ensures var errors := DesiredOf(labels).errors;
            && (LabelError(InvalidForObject, k) in errors <==> k == "storageos.com/computeonly")
            && (LabelError(FixedAfterCreation, k) in errors <==> k in {"storageos.com/nocache", "storageos.com/nocompress"})
            && (LabelError(UnknownLabel, k) in errors <==>
                  && ReservedName(k)
                  && k !in {"storageos.com/computeonly", "storageos.com/nocache", "storageos.com/nocompress",
                            "storageos.com/failure-mode", "storageos.com/replicas"})
            && (LabelError(BadSyntax, k) in errors <==> k == "storageos.com/replicas" && ParseUint(labels[k]).SyntaxError?)
            && (LabelError(OutOfRange, k) in errors <==> k == "storageos.com/replicas" && ParseUint(labels[k]).RangeError?)
            && LabelError(BadBool, k) !in errors
  {
    ReservedNames();
    ReservedNameIff(k);
    ReportedIff(labels, k);
    hide IsReservedLabel, ReservedName, ParseUint, DesiredOf;
  }

  /** A key is reported exactly for what is wrong with its label. */
  lemma ReportedIff(labels: LabelMap, k: string)
    ensures forall kind ::
              DesiredOf(labels).errors[LabelError(kind, k)] ==
              One(k in labels && VolumeLabelError(k, labels[k]) == Some(kind))
  {
    hide VolumeLabelError, IsReservedLabel, ParseUint;
  }

  /** The loop of EnsureVolumeLabels gives the same result in every iteration order. */
  method Classify(labels: LabelMap) returns (d: Desired)
    ensures d == DesiredOf(labels)
  {
    DesiredAmongEnds(labels);
    d := Desired(map[], 0, "", multiset{});
    var seen := {};
    hide IsReservedLabel, ParseUint, DesiredOf, DesiredAmong;
    while seen != labels.Keys
      invariant seen <= labels.Keys
      invariant d == DesiredAmong(labels, seen)
      decreases |labels.Keys - seen|
    {
      var k :| k in labels.Keys - seen;
      var v := labels[k];
      DesiredAmongSnoc(labels, seen, k);
      ReservedNames();
      ShrinkOne(labels.Keys, seen, k);
      seen := seen + {k};
      if !IsReservedLabel(k) {
        d := d.(unreserved := d.unreserved[k := v]);
      } else if k == COMPUTE_ONLY {
        d := d.(errors := d.errors + multiset{LabelError(InvalidForObject, k)});
      } else if k == NO_CACHE || k == NO_COMPRESS {
        d := d.(errors := d.errors + multiset{LabelError(FixedAfterCreation, k)});
      } else if k == FAILURE_MODE {
        d := d.(failureMode := v);
      } else if k == REPLICAS {
        var parsed := ParseUint(v);
        var wrong := if parsed.Parsed? then None else Some(if parsed.SyntaxError? then BadSyntax else OutOfRange);
        d := d.(replicas := parsed.Number(), errors := WithError(d.errors, k, wrong));
      } else {
        d := d.(errors := d.errors + multiset{LabelError(UnknownLabel, k)});
      }
    }
  }
}
