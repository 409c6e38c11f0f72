/**
 Grouping nodes by subscription without changing any order.
 */
module SubscriptionFeed {
  import opened Options
  import opened Lists

  /** A node of the feed; `None` stands for a value that is not a string. */
  datatype Node = Node(subscriptionId: Option<string>, displayName: Option<string>, payload: string)

  datatype Feed = Feed(id: string, name: string, nodes: seq<Node>)

  function IdOf(n: Node): string {
    if n.subscriptionId.Some? && n.subscriptionId.value != "" then n.subscriptionId.value else "unknown"
  }

  function NameOf(n: Node): string {
    if n.displayName.Some? && n.displayName.value != "" then n.displayName.value else IdOf(n)
  }

  // ----- What the grouping should be

  /** The nodes of one subscription, in feed order. */
  function Members(nodes: seq<Node>, id: string): seq<Node> { Filter(nodes, OfFeed(id)) }

  function OfFeed(id: string): Node -> bool { (n: Node) => IdOf(n) == id }

  /** The subscriptions, in order of first occurrence. */
  function Order(nodes: seq<Node>): seq<string> {
    if nodes == [] then []
    else
      var before, id := Order(nodes[..|nodes| - 1]), IdOf(nodes[|nodes| - 1]);
      if id in before then before else before + [id]
  }

  /** The group of a subscription is named after its first node. */
  function GroupOf(nodes: seq<Node>, id: string): Feed {
    var members := Members(nodes, id);
    Feed(id, if members == [] then "" else NameOf(members[0]), members)
  }

  function Groups(nodes: seq<Node>): (groups: seq<Feed>)
    ensures |groups| == |Order(nodes)|
    ensures forall i :: 0 <= i < |groups| ==> groups[i] == GroupOf(nodes, Order(nodes)[i])
  {
    seq(|Order(nodes)|, i requires 0 <= i < |Order(nodes)| => GroupOf(nodes, Order(nodes)[i]))
  }

  // ----- The loop

  /** What one more node does to the groups. */
  lemma OneMoreNode(nodes: seq<Node>, node: Node)
    ensures Order(nodes + [node]) == Order(nodes) + if IdOf(node) in Order(nodes) then [] else [IdOf(node)]
    ensures forall k :: k in Order(nodes) ==>
              GroupOf(nodes + [node], k) ==
              if k == IdOf(node) then GroupOf(nodes, k).(nodes := GroupOf(nodes, k).nodes + [node]) else GroupOf(nodes, k)
    ensures IdOf(node) !in Order(nodes) ==>
              GroupOf(nodes + [node], IdOf(node)) == Feed(IdOf(node), NameOf(node), [node])
  {
    var all := nodes + [node];
    assert all[..|all| - 1] == nodes;
    OrderIsMembers(nodes, IdOf(node));
    forall k
      ensures Members(all, k) == Members(nodes, k) + if IdOf(node) == k then [node] else []
      ensures k in Order(nodes) ==> Members(nodes, k) != []
    {
      OneMoreMember(nodes, node, k);
      OrderIsMembers(nodes, k);
    }
  }

  /** The map holds one group for each subscription of these nodes. */
  ghost predicate Filled(feeds: map<string, Feed>, nodes: seq<Node>) {
    && (forall k :: k in feeds <==> k in Order(nodes))
    && (forall k :: k in feeds ==> feeds[k] == GroupOf(nodes, k))
  }

  function Added(feeds: map<string, Feed>, node: Node): map<string, Feed> {
    var id := IdOf(node);
    feeds[id := if id in feeds then feeds[id].(nodes := feeds[id].nodes + [node]) else Feed(id, NameOf(node), [node])]
  }

  lemma StaysFilled(feeds: map<string, Feed>, nodes: seq<Node>, node: Node)
    requires Filled(feeds, nodes)
    ensures Filled(Added(feeds, node), nodes + [node])
    ensures Order(nodes + [node]) == Order(nodes) + if IdOf(node) in feeds then [] else [IdOf(node)]
  {
    OneMoreNode(nodes, node);
  }

  /** The values of an insertion-ordered map. */
  function Values(keys: seq<string>, feeds: map<string, Feed>): (values: seq<Feed>)
    requires forall k :: k in keys ==> k in feeds
    ensures |values| == |keys| && forall i :: 0 <= i < |keys| ==> values[i] == feeds[keys[i]]
  {
    seq(|keys|, i requires 0 <= i < |keys| => feeds[keys[i]])
  }

  /** The keys and groups of these nodes. */
  ghost predicate Built(keys: seq<string>, feeds: map<string, Feed>, nodes: seq<Node>) {
    keys == Order(nodes) && Filled(feeds, nodes)
  }

  lemma BuiltStep(keys: seq<string>, feeds: map<string, Feed>, nodes: seq<Node>, node: Node)
    requires Built(keys, feeds, nodes)
    ensures Built(keys + if IdOf(node) in feeds then [] else [IdOf(node)], Added(feeds, node), nodes + [node])
  {
    StaysFilled(feeds, nodes, node);
  }

  lemma ValuesAreGroups(keys: seq<string>, feeds: map<string, Feed>, nodes: seq<Node>)
    requires Built(keys, feeds, nodes)
    ensures (forall k :: k in keys ==> k in feeds) && Values(keys, feeds) == Groups(nodes)
  {
  }

  /** Adds a node to its group, or opens a new one behind the others. */
  method AddNode(keys: seq<string>, feeds: map<string, Feed>, node: Node)
    returns (newKeys: seq<string>, newFeeds: map<string, Feed>)
    ensures newKeys == keys + if IdOf(node) in feeds then [] else [IdOf(node)]
    ensures newFeeds == Added(feeds, node)
  {
    var id, name := IdOf(node), NameOf(node);
    newKeys, newFeeds := keys, feeds;
    if id in feeds {
      newFeeds := feeds[id := feeds[id].(nodes := feeds[id].nodes + [node])];
    } else {
      newKeys, newFeeds := keys + [id], feeds[id := Feed(id, name, [node])];
    }
  }

  /** Fills an insertion-ordered map node by node and returns its values. */
  method SubscriptionFeedGroups(nodes: seq<Node>) returns (groups: seq<Feed>)
    ensures groups == Groups(nodes)
  {
    var keys: seq<string>, feeds: map<string, Feed> := [], map[];
    for i := 0 to |nodes|
      invariant Built(keys, feeds, nodes[..i])
    {
      assert nodes[..i + 1] == nodes[..i] + [nodes[i]];
      BuiltStep(keys, feeds, nodes[..i], nodes[i]);
      keys, feeds := AddNode(keys, feeds, nodes[i]);
    }
    assert nodes[..|nodes|] == nodes;
    ValuesAreGroups(keys, feeds, nodes);
    groups := Values(keys, feeds);
  }

  /** A subscription is listed exactly when it has nodes. */
  lemma {:induction false} OrderIsMembers(nodes: seq<Node>, id: string)
    ensures id in Order(nodes) <==> Members(nodes, id) != []
  {
    if nodes != [] {
      var n := |nodes| - 1;
      OrderIsMembers(nodes[..n], id);
      OneMoreMember(nodes[..n], nodes[n], id);
      assert nodes == nodes[..n] + [nodes[n]];
    }
  }

  lemma OneMoreMember(nodes: seq<Node>, node: Node, id: string)
    ensures Members(nodes + [node], id) == Members(nodes, id) + if IdOf(node) == id then [node] else []
  {
    FilterConcat(nodes, [node], OfFeed(id));
    FilterOne(node, OfFeed(id));
  }

  // ----- What the grouping guarantees

  ghost predicate Distinct(ids: seq<string>) { forall i, j :: 0 <= i < j < |ids| ==> ids[i] != ids[j] }

  /** Every subscription has one group. */
  lemma {:induction false} OrderDistinct(nodes: seq<Node>)
    ensures Distinct(Order(nodes))
  {
    if nodes != [] { OrderDistinct(nodes[..|nodes| - 1]); }
  }

  /** `i` is where the subscription first occurs. */
  ghost predicate FirstAt(nodes: seq<Node>, id: string, i: nat) {
    i < |nodes| && IdOf(nodes[i]) == id && forall k: nat :: k < i ==> IdOf(nodes[k]) != id
  }

  /** Groups follow the order in which their subscriptions first occur. */
  lemma {:induction false} OrderByFirstOccurrence(nodes: seq<Node>, x: nat, y: nat, i: nat, j: nat)
    requires x < y < |Order(nodes)| && FirstAt(nodes, Order(nodes)[x], i) && FirstAt(nodes, Order(nodes)[y], j)
    ensures i < j
  {
    var n := |nodes| - 1;
    var pre, order := nodes[..n], Order(nodes);
    OrderDistinct(nodes);
    if y < |Order(pre)| {
      OrderMember(pre, order[x]);
      OrderMember(pre, order[y]);
      assert FirstAt(pre, order[x], i) && FirstAt(pre, order[y], j);
      OrderByFirstOccurrence(pre, x, y, i, j);
    } else {
      assert order[y] == IdOf(nodes[n]) && order[y] !in Order(pre);
      OrderMember(pre, order[x]);
      if j < n {
        assert IdOf(pre[j]) == order[y];
        OrderMember(pre, order[y]);
      }
    }
  }

  lemma {:induction false} OrderMember(nodes: seq<Node>, id: string)
    ensures id in Order(nodes) <==> exists i: nat :: i < |nodes| && IdOf(nodes[i]) == id
  {
    if nodes != [] {
      var n := |nodes| - 1;
      var pre := nodes[..n];
      OrderMember(pre, id);
      if exists i: nat :: i < |pre| && IdOf(pre[i]) == id {
        var i: nat :| i < |pre| && IdOf(pre[i]) == id;
        assert IdOf(nodes[i]) == id;
      }
      if exists i: nat :: i < |nodes| && IdOf(nodes[i]) == id {
        var i: nat :| i < |nodes| && IdOf(nodes[i]) == id;
        if i < n { assert IdOf(pre[i]) == id; }
      }
    }
  }

  /** All nodes of a list of groups, one group after the other. */
  function Flatten(nodes: seq<Node>, ids: seq<string>): seq<Node> {
    if ids == [] then [] else Flatten(nodes, ids[..|ids| - 1]) + Members(nodes, ids[|ids| - 1])
  }

  lemma {:induction false} FlattenCount(nodes: seq<Node>, ids: seq<string>, x: Node)
    requires Distinct(ids)
    ensures multiset(Flatten(nodes, ids))[x] == if IdOf(x) in ids then multiset(nodes)[x] else 0
  {
    if ids != [] {
      var n := |ids| - 1;
      FlattenCount(nodes, ids[..n], x);
      FilterCount(nodes, OfFeed(ids[n]), x);
      assert ids == ids[..n] + [ids[n]];
      if IdOf(x) in ids[..n] {
        var k :| 0 <= k < n && ids[..n][k] == IdOf(x);
        assert ids[k] != ids[n];
      }
    }
  }

  /** The groups together hold every node exactly as often as the feed does. */
  lemma NodesConserved(nodes: seq<Node>)
    ensures multiset(Flatten(nodes, Order(nodes))) == multiset(nodes)
  {
    OrderDistinct(nodes);
    forall x ensures multiset(Flatten(nodes, Order(nodes)))[x] == multiset(nodes)[x] {
      FlattenCount(nodes, Order(nodes), x);
      OrderMember(nodes, IdOf(x));
      if x in multiset(nodes) {
        var i :| 0 <= i < |nodes| && nodes[i] == x;
        assert IdOf(nodes[i]) == IdOf(x);
      }
    }
  }

  /** The subscription that a node belongs to: its id, or "unknown" without one. */
  predicate BelongsTo(n: Node, id: string) {
    if n.subscriptionId == None || n.subscriptionId == Some("") then id == "unknown" else n.subscriptionId == Some(id)
  }

  /** A group is called after the display name of its first node, or after the subscription without one;
      it holds exactly the nodes that belong to it, in feed order. */
  lemma GroupExactly(nodes: seq<Node>, g: nat)
    requires g < |Groups(nodes)|
    ensures var group := Groups(nodes)[g];
            && group.nodes != [] && (forall n :: n in group.nodes <==> n in nodes && BelongsTo(n, group.id))
            && group.nodes == Filter(nodes, OfFeed(group.id))
            && var shown := group.nodes[0].displayName;
               group.name == if shown == None || shown == Some("") then group.id else shown.value
  {
    var id := Order(nodes)[g];
    OrderIsMembers(nodes, id);
    forall n ensures n in Members(nodes, id) <==> n in nodes && BelongsTo(n, id) { FilterMember(nodes, OfFeed(id), n); }
    assert Members(nodes, id)[0] in Members(nodes, id);
    FilterMember(nodes, OfFeed(id), Members(nodes, id)[0]);
  }
}
