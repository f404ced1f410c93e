/**
  The node side of the label synchroniser (internal/pkg/storageos/node_labels.go).
  It computes the reserved-label merge but sends the labels it was given.
 */
module NodeLabels {
  import opened Common
  import opened Strconv
  import opened Labels

  function NodeLabelError(k: string, v: string): Option<LabelErrorKind> {
    if !IsReservedLabel(k) then None
    else if k == NO_CACHE || k == NO_COMPRESS || k == FAILURE_MODE || k == REPLICAS then Some(InvalidForObject)
    else if k == COMPUTE_ONLY then if ParseBool(v).None? then Some(BadBool) else None
    else Some(UnknownLabel)
  }

  datatype NodeDesired = NodeDesired(unreserved: LabelMap, computeOnly: bool, errors: multiset<LabelError>)

  function IsTrue(labels: LabelMap, k: string): bool {
    k in labels && ParseBool(labels[k]) == Some(true)
  }

  function NodeDesiredOf(labels: LabelMap): NodeDesired {
    NodeDesired(Unreserved(labels), IsTrue(labels, COMPUTE_ONLY), multiset(ErrorsOf(labels, labels.Keys, NodeLabelError)))
  }

  /** By name: what each kind of report means, and when compute-only is requested. */
  lemma NodeReportedByName(labels: LabelMap, k: string)
    requires k in labels
    ensures var errors := NodeDesiredOf(labels).errors;
            && (LabelError(InvalidForObject, k) in errors <==>
                  k in {"storageos.com/nocache", "storageos.com/nocompress", "storageos.com/failure-mode", "storageos.com/replicas"})
            && (LabelError(BadBool, k) in errors <==>
                  && k == "storageos.com/computeonly"
                  && labels[k] !in {"1", "t", "T", "TRUE", "true", "True", "0", "f", "F", "FALSE", "false", "False"})
            && (LabelError(UnknownLabel, k) in errors <==>
                  && ReservedName(k)
                  && k !in {"storageos.com/computeonly", "storageos.com/nocache", "storageos.com/nocompress",
                            "storageos.com/failure-mode", "storageos.com/replicas"})
            && (k == "storageos.com/computeonly" ==>
                  (NodeDesiredOf(labels).computeOnly <==> labels[k] in {"1", "t", "T", "TRUE", "true", "True"}))
  {
    ReservedNames();
    ReservedNameIff(k);
    NodeReportedIff(labels, k);
    hide IsReservedLabel, ReservedName, ErrorsOf, Unreserved;
  }

  lemma NodeReportedIff(labels: LabelMap, k: string)
    ensures forall kind ::
              LabelError(kind, k) in NodeDesiredOf(labels).errors <==>
              k in labels && NodeLabelError(k, labels[k]) == Some(kind)
  {
    hide NodeLabelError, IsReservedLabel;
  }

  /** The loop of EnsureNodeLabels gives the same result in every iteration order. */
  method ClassifyNode(labels: LabelMap) returns (d: NodeDesired)
    ensures d == NodeDesiredOf(labels)
  {
    ReservedNames();
    var unreserved: LabelMap := map[];
    var computeOnly, errors := false, multiset{};
    var seen := {};
    assert Picked(labels, false, {}) == map[] && ErrorsOf(labels, {}, NodeLabelError) == {};
    PickedAll(labels);
    hide IsReservedLabel, ParseBool, ErrorsOf, Picked, Unreserved;
    while seen != labels.Keys
      invariant seen <= labels.Keys
      invariant unreserved == Picked(labels, false, seen)
      invariant computeOnly == (COMPUTE_ONLY in seen && IsTrue(labels, COMPUTE_ONLY))
      invariant errors == multiset(ErrorsOf(labels, seen, NodeLabelError))
      decreases |labels.Keys - seen|
    {
      var k :| k in labels.Keys - seen;
      var v := labels[k];
      ErrorsOfSnoc(labels, seen, k, NodeLabelError);
      PickedSnoc(labels, false, seen, k);
      ShrinkOne(labels.Keys, seen, k);
      seen := seen + {k};
      if !IsReservedLabel(k) {
        unreserved := unreserved[k := v];
      } else if k == NO_CACHE || k == NO_COMPRESS || k == FAILURE_MODE || k == REPLICAS {
        errors := errors + multiset{LabelError(InvalidForObject, k)};
      } else if k == COMPUTE_ONLY {
        var parsed := ParseBool(v);
        computeOnly := parsed == Some(true);
        if parsed.None? {
          errors := errors + multiset{LabelError(BadBool, k)};
        }
      } else {
        errors := errors + multiset{LabelError(UnknownLabel, k)};
      }
    }
    d := NodeDesired(unreserved, computeOnly, errors);
  }

  /******* The two steps *******/

  datatype Node = Node(labels: LabelMap, version: nat)

  datatype NodeRequest = SetComputeOnly(enabled: bool) | UpdateNode(labels: LabelMap)

  datatype NodeError = NodeNotFound | BadStoredComputeOnly | StaleNode | RefusedNode

  /** Which requests the control plane accepts for a node with the given labels. */
  type Policy = (LabelMap, NodeRequest) -> bool

  function BoolText(b: bool): string {
    if b then "true" else "false"
  }

  function ApplyToNode(labels: LabelMap, request: NodeRequest): LabelMap {
    match request
    case SetComputeOnly(enabled) => labels[COMPUTE_ONLY := BoolText(enabled)]
    case UpdateNode(sent) => sent
  }

  function WriteNode(node: Node, version: nat, request: NodeRequest, accepts: Policy): Result<Node, NodeError> {
    if node.version != version then Err(StaleNode)
    else if !accepts(node.labels, request) then Err(RefusedNode)
    else Ok(Node(ApplyToNode(node.labels, request), version + 1))
  }

  datatype StepResult = StepResult(found: Option<Node>, error: Option<NodeError>, sent: Option<NodeRequest>)

  function SendTo(node: Node, request: NodeRequest, accepts: Policy): StepResult {
    match WriteNode(node, node.version, request, accepts)
    case Ok(after) => StepResult(Some(after), None, Some(request))
    case Err(e) => StepResult(Some(node), Some(e), Some(request))
  }

  function ComputeOnlyStep(found: Option<Node>, enabled: bool, accepts: Policy): StepResult {
    if found.None? then StepResult(None, Some(NodeNotFound), None)
    else
      var labels := found.value.labels;
      if COMPUTE_ONLY in labels && ParseBool(labels[COMPUTE_ONLY]).None? then StepResult(found, Some(BadStoredComputeOnly), None)
      else if IsTrue(labels, COMPUTE_ONLY) == enabled then StepResult(found, None, None)
      else SendTo(found.value, SetComputeOnly(enabled), accepts)
  }

  /** The test is on the merge; what is sent are the labels as given. */
  function LabelsStep(found: Option<Node>, labels: LabelMap, accepts: Policy): StepResult {
    if found.None? then StepResult(None, Some(NodeNotFound), None)
    else if Merge(labels, found.value.labels) == found.value.labels then StepResult(found, None, None)
    else SendTo(found.value, UpdateNode(labels), accepts)
  }

  /** The result is nil exactly when both kinds of errors are empty. */
  datatype NodeOutcome = NodeOutcome(found: Option<Node>, labelErrors: multiset<LabelError>, errors: seq<NodeError>, sent: seq<NodeRequest>)

  /** A node that is not found is no error. */
  function Kept(error: Option<NodeError>): seq<NodeError> {
    if error.None? || error.value.NodeNotFound? then [] else [error.value]
  }

  function Listed(sent: Option<NodeRequest>): seq<NodeRequest> {
    if sent.None? then [] else [sent.value]
  }

  function NodePass(found: Option<Node>, labels: LabelMap, accepts: Policy): NodeOutcome {
    var d := NodeDesiredOf(labels);
    var first := ComputeOnlyStep(found, d.computeOnly, accepts);
    var second := LabelsStep(first.found, d.unreserved, accepts);
    NodeOutcome(second.found, d.errors, Kept(first.error) + Kept(second.error), Listed(first.sent) + Listed(second.sent))
  }

  class NodeClient {
    /** What the control plane holds. */
    var nodes: map<string, Node>

    function Find(name: string): Option<Node>
      reads this
    {
      if name in nodes then Some(nodes[name]) else None
    }

    method Put(name: string, request: NodeRequest, version: nat, accepts: Policy) returns (err: Option<NodeError>)
      requires name in nodes
      modifies this
      ensures nodes.Keys == old(nodes.Keys) && nodes - {name} == old(nodes) - {name}
      ensures match WriteNode(old(nodes[name]), version, request, accepts)
              case Ok(after) => err == None && nodes[name] == after
              case Err(e) => err == Some(e) && nodes == old(nodes)
    {
      var after := WriteNode(nodes[name], version, request, accepts);
      if after.Err? { return Some(after.error); }
      nodes := nodes[name := after.value];
      return None;
    }

    method EnsureComputeOnly(name: string, enabled: bool, accepts: Policy) returns (err: Option<NodeError>, sent: Option<NodeRequest>)
      modifies this
      ensures StepResult(Find(name), err, sent) == ComputeOnlyStep(old(Find(name)), enabled, accepts)
      ensures nodes - {name} == old(nodes) - {name}
    {
      hide ParseBool, ApplyToNode;
      if name !in nodes { return Some(NodeNotFound), None; }
      var node := nodes[name];
      var current := false;
      if COMPUTE_ONLY in node.labels {
        var parsed := ParseBool(node.labels[COMPUTE_ONLY]);
        if parsed.None? { return Some(BadStoredComputeOnly), None; }
        current := parsed.value;
      }
      if current == enabled { return None, None; }
      sent := Some(SetComputeOnly(enabled));
      err := Put(name, sent.value, node.version, accepts);
    }

    method EnsureUnreservedNodeLabels(name: string, labels: LabelMap, accepts: Policy) returns (err: Option<NodeError>, sent: Option<NodeRequest>)
      modifies this
      ensures StepResult(Find(name), err, sent) == LabelsStep(old(Find(name)), labels, accepts)
      ensures nodes - {name} == old(nodes) - {name}
    {
      hide Merge, Unreserved, ApplyToNode;
      if name !in nodes { return Some(NodeNotFound), None; }
      var node := nodes[name];
      var apply := MergeLabels(labels, node.labels);
      if apply.None? { return None, None; }
      sent := Some(UpdateNode(labels));
      err := Put(name, sent.value, node.version, accepts);
    }

    /** Both steps run, whatever the first one returns. */
    method EnsureNodeLabels(name: string, labels: LabelMap, accepts: Policy) returns (o: NodeOutcome)
      modifies this
      ensures o == NodePass(old(Find(name)), labels, accepts)
      ensures Find(name) == o.found && nodes - {name} == old(nodes) - {name}
    {
      var d := ClassifyNode(labels);
      hide NodeDesiredOf, ComputeOnlyStep, LabelsStep;
      var err1, sent1 := EnsureComputeOnly(name, d.computeOnly, accepts);
      var err2, sent2 := EnsureUnreservedNodeLabels(name, d.unreserved, accepts);
      o := NodeOutcome(Find(name), d.errors, Kept(err1) + Kept(err2), Listed(sent1) + Listed(sent2));
    }
  }

  /******* What a pass achieves *******/

  /** The update sends the merge exactly when the given labels have the node's reserved labels. */
  lemma SendsMergeIff(labels: LabelMap, current: LabelMap)
    ensures labels == Merge(labels, current) <==> Reserved(labels) == Reserved(current)
  {
    MergeExact(labels, current);
    hide IsReservedLabel;
    assert labels == Unreserved(labels) + Reserved(labels);
  }

  lemma UnreservedTwice(labels: LabelMap)
    ensures Unreserved(Unreserved(labels)) == Unreserved(labels)
    ensures Reserved(Unreserved(labels)) == map[]
  {
    hide IsReservedLabel;
  }

  /** The first step sets compute-only and leaves the other labels. */
  lemma ComputeOnlyDone(node: Node, enabled: bool, accepts: Policy)
    requires ComputeOnlyStep(Some(node), enabled, accepts).error.None?
    ensures var r := ComputeOnlyStep(Some(node), enabled, accepts);
            && r.found.Some?
            && var after := r.found.value.labels;
            && IsTrue(after, COMPUTE_ONLY) == enabled
            && ReadableComputeOnly(after)
            && Unreserved(after) == Unreserved(node.labels)
            && Reserved(after) - {COMPUTE_ONLY} == Reserved(node.labels) - {COMPUTE_ONLY}
            && (r.sent.None? <==> IsTrue(node.labels, COMPUTE_ONLY) == enabled)
            && (r.sent.None? ==> r.found.value == node)
  {
    ReservedNames();
    hide IsReservedLabel;
  }

  /** The second step fixes the unreserved labels and, if it has to, drops every reserved one. */
  lemma LabelsStepDone(node: Node, labels: LabelMap, accepts: Policy)
    requires Unreserved(labels) == labels && Reserved(labels) == map[]
    requires LabelsStep(Some(node), labels, accepts).error.None?
    ensures var r := LabelsStep(Some(node), labels, accepts);
            && r.found.Some?
            && var after := r.found.value.labels;
            && Unreserved(after) == labels
            && (r.sent.None? <==> Unreserved(node.labels) == labels)
            && (r.sent.None? ==> r.found.value == node)
            && (r.sent.Some? ==> after == labels)
  {
    MergeExact(labels, node.labels);
    hide IsReservedLabel, Unreserved, Reserved, Merge;
  }

  lemma ComputeOnlyReserved(labels: LabelMap)
    ensures COMPUTE_ONLY in labels <==> COMPUTE_ONLY in Reserved(labels)
  {
    ReservedNames();
    hide IsReservedLabel;
  }

  ghost predicate InRequestedState(labels: LabelMap, d: NodeDesired) {
    Unreserved(labels) == d.unreserved && IsTrue(labels, COMPUTE_ONLY) == d.computeOnly
  }

  predicate ReadableComputeOnly(labels: LabelMap) {
    COMPUTE_ONLY in labels ==> ParseBool(labels[COMPUTE_ONLY]).Some?
  }

  /**
    A pass without errors fixes the unreserved labels. If one of them had to change,
    every reserved label is dropped, compute-only included; otherwise all but
    compute-only stay as they were. So it reaches the requested state exactly when
    compute-only is not requested or no unreserved label had to change.
   */
  lemma NodePassReachesIff(node: Node, labels: LabelMap, accepts: Policy)
    requires NodePass(Some(node), labels, accepts).errors == []
    ensures var d := NodeDesiredOf(labels); var o := NodePass(Some(node), labels, accepts);
            && o.found.Some?
            && var after, others := o.found.value.labels, Reserved(node.labels) - {COMPUTE_ONLY};
            && Unreserved(after) == d.unreserved
            && (Reserved(after) - {COMPUTE_ONLY} == others <==> others == map[] || Unreserved(node.labels) == d.unreserved)
            && (Unreserved(node.labels) != d.unreserved ==> Reserved(after) == map[])
            && (InRequestedState(after, d) <==> !d.computeOnly || Unreserved(node.labels) == d.unreserved)
            && (o.sent == [] <==> InRequestedState(node.labels, d))
            && ReadableComputeOnly(after)
  {
    var d := NodeDesiredOf(labels);
    UnreservedTwice(labels);
    CleanSteps(node, labels, accepts);
    hide Unreserved, Reserved, ComputeOnlyStep, LabelsStep, ParseBool;
    var r := ComputeOnlyStep(Some(node), d.computeOnly, accepts);
    ComputeOnlyDone(node, d.computeOnly, accepts);
    var first := r.found.value;
    LabelsStepDone(first, d.unreserved, accepts);
    ComputeOnlyReserved(first.labels);
    ComputeOnlyReserved(d.unreserved);
    hide NodeDesiredOf;
  }

  /** A pass without errors has two steps without errors. */
  lemma CleanSteps(node: Node, labels: LabelMap, accepts: Policy)
    requires NodePass(Some(node), labels, accepts).errors == []
    ensures var d := NodeDesiredOf(labels); var r := ComputeOnlyStep(Some(node), d.computeOnly, accepts);
            && r.error.None? && r.found.Some?
            && LabelsStep(r.found, d.unreserved, accepts).error.None?
  {
    var d := NodeDesiredOf(labels);
    hide NodeDesiredOf, ParseBool, Merge, IsTrue;
  }

  /** The labels after a first step that succeeds. */
  function WithComputeOnly(labels: LabelMap, enabled: bool): LabelMap {
    if IsTrue(labels, COMPUTE_ONLY) == enabled then labels
    else labels["storageos.com/computeonly" := if enabled then "true" else "false"]
  }

  /**
    A pass has no errors if and only if the stored compute-only value parses and the
    updates that are needed are accepted. The second step runs whatever the first
    comes to: where every request is accepted, the unreserved labels are always set.
   */
  lemma NodePassCleanIff(node: Node, labels: LabelMap, accepts: Policy)
    ensures var d := NodeDesiredOf(labels); var o := NodePass(Some(node), labels, accepts);
            var mid := WithComputeOnly(node.labels, d.computeOnly);
            && o.found.Some?
            && (o.errors == [] <==>
                  && ReadableComputeOnly(node.labels)
                  && (mid == node.labels || accepts(node.labels, SetComputeOnly(d.computeOnly)))
                  && (Unreserved(node.labels) == d.unreserved || accepts(mid, UpdateNode(d.unreserved))))
            && ((forall l, q :: accepts(l, q)) ==> Unreserved(o.found.value.labels) == d.unreserved)
  {
    var d := NodeDesiredOf(labels);
    UnreservedTwice(labels);
    assert Unreserved(d.unreserved) == d.unreserved && Reserved(d.unreserved) == map[];
    hide NodeDesiredOf, ComputeOnlyStep, LabelsStep, Unreserved, Reserved, WithComputeOnly, ReadableComputeOnly;
    FirstStepIff(node, d.computeOnly, accepts);
    var first := ComputeOnlyStep(Some(node), d.computeOnly, accepts).found.value;
    SecondStepIff(first, d.unreserved, accepts);
  }

  lemma FirstStepIff(node: Node, enabled: bool, accepts: Policy)
    ensures var r := ComputeOnlyStep(Some(node), enabled, accepts); var mid := WithComputeOnly(node.labels, enabled);
            && r.found.Some? && Unreserved(r.found.value.labels) == Unreserved(node.labels) && r.error != Some(NodeNotFound)
            && (r.error.None? <==>
                  ReadableComputeOnly(node.labels) && (mid == node.labels || accepts(node.labels, SetComputeOnly(enabled))))
            && (r.error.None? ==> r.found.value.labels == mid)
  {
    ReservedNames();
    assert COMPUTE_ONLY == "storageos.com/computeonly";
    assert Unreserved(node.labels[COMPUTE_ONLY := BoolText(enabled)]) == Unreserved(node.labels) by { hide IsReservedLabel; }
    TextIsBool(node.labels, enabled);
    hide IsReservedLabel, Unreserved, ParseBool;
  }

  /** Setting the flag changes the labels, and makes them say so. */
  lemma TextIsBool(labels: LabelMap, enabled: bool)
    ensures IsTrue(labels[COMPUTE_ONLY := BoolText(enabled)], COMPUTE_ONLY) == enabled
  {
  }

  lemma SecondStepIff(node: Node, labels: LabelMap, accepts: Policy)
    requires Unreserved(labels) == labels && Reserved(labels) == map[]
    ensures var r := LabelsStep(Some(node), labels, accepts);
            && r.found.Some? && r.error != Some(NodeNotFound)
            && (r.error.None? <==> Unreserved(node.labels) == labels || accepts(node.labels, UpdateNode(labels)))
            && (r.error.None? ==> Unreserved(r.found.value.labels) == labels)
  {
    MergeExact(labels, node.labels);
    hide Unreserved, Reserved, Merge;
  }

  lemma QuietNodePass(node: Node, labels: LabelMap, accepts: Policy)
    requires InRequestedState(node.labels, NodeDesiredOf(labels)) && ReadableComputeOnly(node.labels)
    ensures NodePass(Some(node), labels, accepts) == NodeOutcome(Some(node), NodeDesiredOf(labels).errors, [], [])
  {
    UnreservedTwice(labels);
    MergeExact(NodeDesiredOf(labels).unreserved, node.labels);
    hide Unreserved, Reserved, Merge, ParseBool;
  }

  /** Two passes without errors always reach the requested state, and a third one sends nothing. */
  lemma TwoNodePassesReach(node: Node, labels: LabelMap, accepts: Policy)
    requires NodePass(Some(node), labels, accepts).errors == []
    requires NodePass(NodePass(Some(node), labels, accepts).found, labels, accepts).errors == []
    ensures var once := NodePass(Some(node), labels, accepts).found;
            var twice := NodePass(once, labels, accepts).found;
            && twice.Some? && InRequestedState(twice.value.labels, NodeDesiredOf(labels))
            && NodePass(twice, labels, accepts) == NodeOutcome(twice, NodeDesiredOf(labels).errors, [], [])
  {
    var d := NodeDesiredOf(labels);
    NodePassReachesIff(node, labels, accepts);
    var once := NodePass(Some(node), labels, accepts).found;
    NodePassReachesIff(once.value, labels, accepts);
    var twice := NodePass(once, labels, accepts).found;
    hide NodePass, NodeDesiredOf, Unreserved, Reserved, IsTrue, ReadableComputeOnly;
    QuietNodePass(twice.value, labels, accepts);
  }

  /******* A control plane that validates *******/

  /** Refuses an update whose reserved labels are not those of the node. */
  function Validates(labels: LabelMap, request: NodeRequest): bool {
    request.UpdateNode? ==> Reserved(request.labels) == Reserved(labels)
  }

  /** There is or will be a reserved label, and an unreserved one has to change. */
  predicate Stuck(labels: LabelMap, d: NodeDesired) {
    (Reserved(labels) != map[] || d.computeOnly) && Unreserved(labels) != d.unreserved
  }

  lemma FirstStepReserved(node: Node, enabled: bool)
    ensures var r := ComputeOnlyStep(Some(node), enabled, Validates);
            && r.found.Some?
            && Unreserved(r.found.value.labels) == Unreserved(node.labels)
            && (Reserved(r.found.value.labels) != map[] <==> Reserved(node.labels) != map[] || enabled)
            && r.error != Some(RefusedNode)
  {
    ReservedNames();
    ComputeOnlyReserved(node.labels);
    var after := node.labels[COMPUTE_ONLY := BoolText(enabled)];
    ComputeOnlyReserved(after);
    assert Unreserved(after) == Unreserved(node.labels) by { hide IsReservedLabel; }
    hide IsReservedLabel, Unreserved, Reserved, ParseBool;
  }

  /**
    Such a control plane lets a pass fix the unreserved labels exactly when the node is
    not stuck. A stuck node stays as it is and stuck, and each pass reports the refusal.
   */
  lemma ValidatedPassIff(node: Node, labels: LabelMap)
    ensures var d := NodeDesiredOf(labels); var o := NodePass(Some(node), labels, Validates);
            && o.found.Some?
            && (Unreserved(o.found.value.labels) == d.unreserved <==> !Stuck(node.labels, d))
            && (RefusedNode in o.errors <==> Stuck(node.labels, d))
            && (Stuck(node.labels, d) ==>
                  Stuck(o.found.value.labels, d) && Unreserved(o.found.value.labels) == Unreserved(node.labels))
  {
    var d := NodeDesiredOf(labels);
    UnreservedTwice(labels);
    assert Unreserved(d.unreserved) == d.unreserved && Reserved(d.unreserved) == map[];
    hide NodeDesiredOf, ComputeOnlyStep, LabelsStep, Unreserved, Reserved;
    FirstStepReserved(node, d.computeOnly);
    var r := ComputeOnlyStep(Some(node), d.computeOnly, Validates);
    ValidatedLabelsStep(r.found.value, d.unreserved);
  }

  /** The second step is refused exactly if the node has reserved labels and an unreserved one has to change. */
  lemma ValidatedLabelsStep(node: Node, labels: LabelMap)
    requires Unreserved(labels) == labels && Reserved(labels) == map[]
    ensures var r := LabelsStep(Some(node), labels, Validates);
            var refused := Reserved(node.labels) != map[] && Unreserved(node.labels) != labels;
            && r.found.Some?
            && (r.error == if refused then Some(RefusedNode) else None)
            && (refused ==> r.found == Some(node))
            && (!refused ==> Unreserved(r.found.value.labels) == labels)
  {
    MergeExact(labels, node.labels);
    hide Unreserved, Reserved, Merge;
  }

  function NodePasses(node: Node, labels: LabelMap, accepts: Policy, n: nat): Option<Node> {
    if n == 0 then Some(node)
    else
      var before := NodePasses(node, labels, accepts, n - 1);
      NodePass(before, labels, accepts).found
  }

  /** However often it is tried, the unreserved labels of a stuck node never change. */
  lemma {:induction false} StuckForever(node: Node, labels: LabelMap, n: nat)
    requires Stuck(node.labels, NodeDesiredOf(labels))
    ensures var after := NodePasses(node, labels, Validates, n);
            && after.Some? && Stuck(after.value.labels, NodeDesiredOf(labels))
            && Unreserved(after.value.labels) == Unreserved(node.labels)
  {
    if n > 0 {
      hide NodePass, NodeDesiredOf, Stuck, Unreserved;
      StuckForever(node, labels, n - 1);
      ValidatedPassIff(NodePasses(node, labels, Validates, n - 1).value, labels);
    }
  }
}
