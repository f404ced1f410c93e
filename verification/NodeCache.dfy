/**
  The expiring node cache that feeds the fencer (internal/pkg/cache/cache.go,
  the polls of controllers/fencer/reconciler.go and the reads of fencer.go).
 */
module NodeCache {
  import opened Common
  import F = Fencer

  /** A node as the control plane lists it. */
  datatype ApiNode = ApiNode(name: string, id: string, version: string, health: string, labels: map<string, string>)

  datatype NodeObject = NodeObject(name: string, uid: string, version: string, labels: map<string, string>, health: F.NodeHealth)

  function NodeToCR(n: ApiNode): NodeObject {
    NodeObject(n.name, n.id, n.version, n.labels,
               if n.health == "online" then F.Online else if n.health == "offline" then F.Offline else F.Unknown)
  }

  datatype Item = Item(obj: NodeObject, expires: Option<int>)

  type Items = map<string, Item>

  /** An item is found until its expiry has passed, even if it has not been evicted. */
  function Get(items: Items, key: string, now: int): Option<NodeObject> {
    if key in items && (items[key].expires.Some? ==> now <= items[key].expires.value) then Some(items[key].obj) else None
  }

  /** A positive interval bounds the life of an item; otherwise it never expires. */
  function NewItem(obj: NodeObject, now: int, expiry: int): Item {
    Item(obj, if expiry > 0 then Some(now + expiry) else None)
  }

  class ObjectCache {
    var items: Items
    const expiry: int

    constructor (expiry: int)
      ensures items == map[] && this.expiry == expiry
    {
      items, this.expiry := map[], expiry;
    }

    /** Tells whether the object is news, and remembers it if so. Afterwards it is the cached value. */
    method CacheMiss(obj: NodeObject, now: int) returns (miss: bool)
      modifies this`items
      ensures miss <==> Get(old(items), obj.name, now) != Some(obj)
      ensures items == AfterPoll(old(items), obj, now, expiry)
      ensures Get(items, obj.name, now) == Some(obj)
    {
      var cached := Get(items, obj.name, now);
      if cached.Some? && cached.value == obj {
        return false;
      }
      items := items[obj.name := NewItem(obj, now, expiry)];
      return true;
    }
  }

  function AfterPoll(items: Items, obj: NodeObject, now: int, expiry: int): Items {
    if Get(items, obj.name, now) == Some(obj) then items
    else items[obj.name := NewItem(obj, now, expiry)]
  }

  /******* Every run of polls *******/

  datatype Event = Polled(node: ApiNode, now: int) | Evicted(keys: set<string>)

  function Run(items: Items, events: seq<Event>, expiry: int): Items
    decreases |events|
  {
    if events == [] then items
    else
      var last := events[|events| - 1];
      var before := Run(items, events[..|events| - 1], expiry);
      match last
      case Polled(node, now) => AfterPoll(before, NodeToCR(node), now, expiry)
      case Evicted(keys) => before - keys
  }

  function LastPolled(events: seq<Event>, name: string): Option<ApiNode>
    decreases |events|
  {
    if events == [] then None
    else
      var last := events[|events| - 1];
      if last.Polled? && last.node.name == name then Some(last.node) else LastPolled(events[..|events| - 1], name)
  }

  /** Whatever the clock reads, a cached node is the last one polled under its name. */
  lemma {:induction false} CachedIsLastPolled(events: seq<Event>, expiry: int, name: string)
    ensures var items := Run(map[], events, expiry);
            name in items ==>
              && LastPolled(events, name).Some?
              && var last, obj := LastPolled(events, name).value, items[name].obj;
              && obj == NodeToCR(last)
              && obj.name == name == last.name && obj.uid == last.id && obj.version == last.version && obj.labels == last.labels
              && (obj.health.Online? <==> last.health == "online") && (obj.health.Offline? <==> last.health == "offline")
    decreases |events|
  {
    if events != [] {
      CachedIsLastPolled(events[..|events| - 1], expiry, name);
    }
  }

  datatype NodeLookup = Exists | NotFound | LookupFails

  datatype Decision = NotCached | Error | Action(required: bool)

  /** GetObject followed by RequireAction. */
  function Decide(items: Items, name: string, now: int, lookup: NodeLookup): Decision {
    match Get(items, name, now)
    case None => NotCached
    case Some(node) =>
      match lookup
      case NotFound => Action(false)
      case LookupFails => Error
      case Exists => Action(node.health.Offline?)
  }

  /** An action is required only if the control plane last reported the node offline and Kubernetes has the node. */
  lemma ActionMeansLastOffline(events: seq<Event>, expiry: int, name: string, now: int, lookup: NodeLookup)
    ensures Decide(Run(map[], events, expiry), name, now, lookup) == Action(true) <==>
            && Get(Run(map[], events, expiry), name, now).Some?
            && LastPolled(events, name).Some? && LastPolled(events, name).value.health == "offline"
            && lookup.Exists?
  {
    CachedIsLastPolled(events, expiry, name);
  }

  /******* How often a steady node is news *******/

  /** The polls of one node that is always reported alike; the janitor may run before each. */
  datatype PollAt = PollAt(now: int, evicted: bool)

  function ItemsBefore(node: NodeObject, polls: seq<PollAt>, k: nat, expiry: int): Items
    requires k < |polls|
    decreases k, 0
  {
    var items := if k == 0 then map[] else ItemsAfter(node, polls, k - 1, expiry);
    if polls[k].evicted then items - {node.name} else items
  }

  function ItemsAfter(node: NodeObject, polls: seq<PollAt>, k: nat, expiry: int): Items
    requires k < |polls|
    decreases k, 1
  {
    AfterPoll(ItemsBefore(node, polls, k, expiry), node, polls[k].now, expiry)
  }

  predicate Miss(node: NodeObject, polls: seq<PollAt>, k: nat, expiry: int)
    requires k < |polls|
  {
    Get(ItemsBefore(node, polls, k, expiry), node.name, polls[k].now) != Some(node)
  }

  /** No misses from `i + 1` to `k`: the entry of the miss at `i` is still there. */
  lemma {:induction false} EntryLasts(node: NodeObject, polls: seq<PollAt>, i: nat, k: nat, expiry: int)
    requires i <= k < |polls| && Miss(node, polls, i, expiry)
    requires forall j | i < j <= k :: !Miss(node, polls, j, expiry)
    ensures var items := ItemsAfter(node, polls, k, expiry);
            node.name in items && items[node.name] == NewItem(node, polls[i].now, expiry)
    decreases k
  {
    if i < k {
      EntryLasts(node, polls, i, k - 1, expiry);
      assert !Miss(node, polls, k, expiry);
    }
  }

  /** Without an expiry interval a steady node is news again only after its entry was evicted. */
  lemma NeverExpires(node: NodeObject, polls: seq<PollAt>, i: nat, j: nat, expiry: int)
    requires expiry <= 0 && i < j < |polls|
    requires Miss(node, polls, i, expiry) && forall k | i < k < j :: !Miss(node, polls, k, expiry)
    ensures Miss(node, polls, j, expiry) <==> polls[j].evicted
  {
    EntryLasts(node, polls, i, j - 1, expiry);
  }

  /**
    With polls at most `p` apart, two successive misses of a node that is always
    reported alike are at most the expiry interval plus `p` apart, and more than
    the expiry interval apart unless the entry was evicted in between.
   */
  lemma MissesAreSpaced(node: NodeObject, polls: seq<PollAt>, i: nat, j: nat, expiry: int, p: int)
    requires expiry > 0 && i < j < |polls|
    requires forall k | 0 < k < |polls| :: polls[k - 1].now <= polls[k].now <= polls[k - 1].now + p
    requires Miss(node, polls, i, expiry) && forall k | i < k < j :: !Miss(node, polls, k, expiry)
    ensures polls[j].now <= polls[i].now + expiry + p
    ensures Miss(node, polls, j, expiry) <==> polls[j].now > polls[i].now + expiry || polls[j].evicted
  {
    EntryLasts(node, polls, i, j - 1, expiry);
    if i < j - 1 {
      EntryLasts(node, polls, i, j - 2, expiry);
      assert !Miss(node, polls, j - 1, expiry);
    }
  }
}
