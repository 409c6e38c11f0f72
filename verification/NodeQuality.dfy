/**
 The node quality table: which policy it shows, how its rows are ordered, and what the cut hides.
 */
module NodeQuality {
  import opened Options
  import opened Lists
  import opened Sorting

  /** A row of measurements; a missing or non-finite median is `None`. */
  datatype Node = Node(id: string, selected: bool, available: bool, unstable: bool, quality: bool,
                       availability: Option<real>, loss: Option<real>, median: Option<real>, name: string)

  datatype Mode = Best | Priority

  datatype Policy = Policy(key: string, mode: Mode, priorityOrder: seq<string>, nodes: seq<Node>)

  datatype Ranked = Ranked(node: Node, rank: nat)

  datatype Sheet = Sheet(policy: Option<Policy>, total: nat, rows: seq<Ranked>)

  /** A collation: the place of a label among all labels. */
  type Collation = string -> real

  const MAX_DELAY: real := 9007199254740991.0

  // ----- The comparator

  function Delay(n: Node): real { OrElse(n.median, MAX_DELAY) }

  function Sign(first: bool): real { if first then -1.0 else 1.0 }

  function BestCompare(collate: Collation, l: Node, r: Node): real {
    if l.selected != r.selected then Sign(l.selected)
    else if Delay(l) - Delay(r) != 0.0 then Delay(l) - Delay(r)
    else if l.available != r.available then Sign(l.available)
    else if l.unstable != r.unstable then Sign(!l.unstable)
    else if l.quality != r.quality then Sign(l.quality)
    else
      var a, b := OrElse(r.availability, -1.0) - OrElse(l.availability, -1.0), OrElse(l.loss, 101.0) - OrElse(r.loss, 101.0);
      if a != 0.0 then a else if b != 0.0 then b else collate(l.name) - collate(r.name)
  }

  /** The last position of every id. */
  function Positions(ids: seq<string>): map<string, nat> {
    if ids == [] then map[] else Positions(ids[..|ids| - 1])[ids[|ids| - 1] := |ids| - 1]
  }

  function PriorityCompare(configured: map<string, nat>, source: map<string, nat>, l: string, r: string): real {
    if l in configured && r !in configured then -1.0
    else if l !in configured && r in configured then 1.0
    else if l in configured && configured[l] != configured[r] then configured[l] as real - configured[r] as real
    else (if l in source then source[l] else 0) as real - (if r in source then source[r] else 0) as real
  }

  function Ids(nodes: seq<Node>): seq<string> { if nodes == [] then [] else [nodes[0].id] + Ids(nodes[1..]) }

  function IdOrder(configured: map<string, nat>, source: map<string, nat>): (string, string) -> bool {
    (l, r) => PriorityCompare(configured, source, l, r) <= 0.0
  }

  function RowOrder(collate: Collation, p: Policy): (Node, Node) -> bool {
    var configured, source := Positions(p.priorityOrder), Positions(Ids(p.nodes));
    if p.mode == Priority then (l: Node, r: Node) => PriorityCompare(configured, source, l.id, r.id) <= 0.0
    else (l: Node, r: Node) => BestCompare(collate, l, r) <= 0.0
  }

  // ----- The sheet

  function SortedRows(collate: Collation, p: Policy): seq<Node> { Sort(p.nodes, RowOrder(collate, p)) }

  function RankOf(p: Policy, id: string, index: nat): nat {
    var configured := Positions(p.priorityOrder);
    if p.mode == Priority && id in configured then configured[id] + 1 else index + 1
  }

  function RankRows(p: Policy, rows: seq<Node>): seq<Ranked> {
    seq(|rows|, i requires 0 <= i < |rows| => Ranked(rows[i], RankOf(p, rows[i].id, i)))
  }

  function FindPolicy(policies: seq<Policy>, key: string): Option<Policy> {
    if policies == [] then None
    else if policies[0].key == key then Some(policies[0])
    else FindPolicy(policies[1..], key)
  }

  function QualitySheet(collate: Collation, policies: seq<Policy>, selectedKey: string): Sheet {
    var found := FindPolicy(policies, selectedKey);
    var policy := if found.Some? then found else if policies != [] then Some(policies[0]) else None;
    match policy
    case None => Sheet(None, 0, [])
    case Some(p) =>
      var rows := RankRows(p, SortedRows(collate, p));
      Sheet(policy, |rows|, if |rows| > 10 then rows[..10] else rows)
  }

  // ----- Both comparators order by a list of numbers

  predicate LexLeq(a: seq<real>, b: seq<real>)
    requires |a| == |b|
  {
    a == [] || (if a[0] != b[0] then a[0] < b[0] else LexLeq(a[1..], b[1..]))
  }

  lemma {:induction false} LexTotal(a: seq<real>, b: seq<real>)
    requires |a| == |b|
    ensures LexLeq(a, b) || LexLeq(b, a)
  {
    if a != [] { LexTotal(a[1..], b[1..]); }
  }

  lemma {:induction false} LexTransitive(a: seq<real>, b: seq<real>, c: seq<real>)
    requires |a| == |b| == |c| && LexLeq(a, b) && LexLeq(b, c)
    ensures LexLeq(a, c)
  {
    if a != [] && a[0] == b[0] == c[0] { LexTransitive(a[1..], b[1..], c[1..]); }
  }

  function Flag(b: bool): real { if b then 0.0 else 1.0 }

  function BestKey(collate: Collation, n: Node): (k: seq<real>)
    ensures |k| == 8
  {
    [Flag(n.selected), Delay(n), Flag(n.available), Flag(!n.unstable), Flag(n.quality),
     -OrElse(n.availability, -1.0), OrElse(n.loss, 101.0), collate(n.name)]
  }

  lemma LexFrom(a: seq<real>, b: seq<real>, k: nat)
    requires k < |a| == |b|
    ensures LexLeq(a[k..], b[k..]) == if a[k] != b[k] then a[k] < b[k] else LexLeq(a[k + 1..], b[k + 1..])
  {
  }

  /** Eight numbers decide as their nested comparisons do. */
  lemma LexEight(a: seq<real>, b: seq<real>)
    requires |a| == |b| == 8
    ensures LexLeq(a, b) ==
            if a[0] != b[0] then a[0] < b[0] else if a[1] != b[1] then a[1] < b[1]
            else if a[2] != b[2] then a[2] < b[2] else if a[3] != b[3] then a[3] < b[3]
            else if a[4] != b[4] then a[4] < b[4] else if a[5] != b[5] then a[5] < b[5]
            else if a[6] != b[6] then a[6] < b[6] else a[7] <= b[7]
  {
    LexFrom(a, b, 0);
    LexFrom(a, b, 1);
    LexFrom(a, b, 2);
    LexFrom(a, b, 3);
    LexFrom(a, b, 4);
    LexFrom(a, b, 5);
    LexFrom(a, b, 6);
    LexFrom(a, b, 7);
    assert a[0..] == a && b[0..] == b && a[8..] == [] && b[8..] == [];
  }

  /** A row comes first exactly when its key does. */
  lemma BestByKey(collate: Collation, l: Node, r: Node)
    ensures BestCompare(collate, l, r) <= 0.0 <==> LexLeq(BestKey(collate, l), BestKey(collate, r))
  {
    LexEight(BestKey(collate, l), BestKey(collate, r));
  }

  function PriorityKey(configured: map<string, nat>, source: map<string, nat>, id: string): (k: seq<real>)
    ensures |k| == 3
  {
    [Flag(id in configured), if id in configured then configured[id] as real else 0.0,
     (if id in source then source[id] else 0) as real]
  }

  lemma PriorityByKey(configured: map<string, nat>, source: map<string, nat>, l: string, r: string)
    ensures PriorityCompare(configured, source, l, r) <= 0.0 <==>
              LexLeq(PriorityKey(configured, source, l), PriorityKey(configured, source, r))
  {
    var a, b := PriorityKey(configured, source, l), PriorityKey(configured, source, r);
    LexFrom(a, b, 0);
    LexFrom(a, b, 1);
    LexFrom(a, b, 2);
    assert a[0..] == a && b[0..] == b && a[3..] == [] && b[3..] == [];
  }

  /** In both modes the comparator is a total preorder, so that sorting by it is well defined. */
  lemma RowOrderIsTotal(collate: Collation, p: Policy)
    ensures TotalPreorder(RowOrder(collate, p))
  {
    var leq := RowOrder(collate, p);
    forall a, b ensures leq(a, b) <==> LexLeq(RowKey(collate, p, a), RowKey(collate, p, b)) { ByKey(collate, p, a, b); }
    forall a, b ensures leq(a, b) || leq(b, a) { LexTotal(RowKey(collate, p, a), RowKey(collate, p, b)); }
    forall a, b, c | leq(a, b) && leq(b, c) ensures leq(a, c) {
      LexTransitive(RowKey(collate, p, a), RowKey(collate, p, b), RowKey(collate, p, c));
    }
  }

  function RowKey(collate: Collation, p: Policy, n: Node): (k: seq<real>)
    ensures |k| == if p.mode == Priority then 3 else 8
  {
    if p.mode == Priority then PriorityKey(Positions(p.priorityOrder), Positions(Ids(p.nodes)), n.id)
    else BestKey(collate, n)
  }

  lemma ByKey(collate: Collation, p: Policy, a: Node, b: Node)
    ensures RowOrder(collate, p)(a, b) <==> LexLeq(RowKey(collate, p, a), RowKey(collate, p, b))
  {
    if p.mode == Priority {
      PriorityByKey(Positions(p.priorityOrder), Positions(Ids(p.nodes)), a.id, b.id);
    } else {
      BestByKey(collate, a, b);
    }
  }

  // ----- What the table shows

  /** The shown rows are the ten first of all rows in order: no hidden row comes before a shown one,
      and no row is lost from the total. */
  lemma NothingBetterIsHidden(collate: Collation, policies: seq<Policy>, selectedKey: string)
    ensures var sheet := QualitySheet(collate, policies, selectedKey);
            match sheet.policy
            case None => policies == [] && sheet.rows == []
            case Some(p) =>
              var sorted := SortedRows(collate, p);
              && p in policies && multiset(sorted) == multiset(p.nodes) && sheet.total == |p.nodes|
              && |sheet.rows| == (if |p.nodes| > 10 then 10 else |p.nodes|)
              && (forall i :: 0 <= i < |sheet.rows| ==> sheet.rows[i].node == sorted[i])
              && (forall i, j :: 0 <= i < j < |sorted| ==> RowOrder(collate, p)(sorted[i], sorted[j]))
  {
    FindsListed(policies, selectedKey);
    var sheet := QualitySheet(collate, policies, selectedKey);
    if sheet.policy.Some? {
      var p := sheet.policy.value;
      SortPermutes(p.nodes, RowOrder(collate, p));
      RowOrderIsTotal(collate, p);
      SortSorted(p.nodes, RowOrder(collate, p));
    }
  }

  /** The chosen sheet is the one with the key, wherever it stands in the list. */
  lemma {:induction false} FindsListed(policies: seq<Policy>, key: string)
    ensures FindPolicy(policies, key).Some? <==> exists p :: p in policies && p.key == key
    ensures FindPolicy(policies, key).Some? ==>
              FindPolicy(policies, key).value in policies && FindPolicy(policies, key).value.key == key
  {
    if policies != [] {
      FindsListed(policies[1..], key);
      assert forall p :: p in policies <==> p == policies[0] || p in policies[1..];
    }
  }

  // ----- Priority mode

  lemma {:induction false} InsertIds(x: Node, s: seq<Node>, byNode: (Node, Node) -> bool, byId: (string, string) -> bool)
    requires forall a: Node, b: Node :: byNode(a, b) == byId(a.id, b.id)
    ensures Ids(Insert(x, s, byNode)) == Insert(x.id, Ids(s), byId)
  {
    if s != [] {
      InsertIds(x, s[1..], byNode, byId);
      assert Ids(s)[1..] == Ids(s[1..]);
      if byNode(x, s[0]) {
        assert ([x] + s)[1..] == s;
      } else {
        assert ([s[0]] + Insert(x, s[1..], byNode))[1..] == Insert(x, s[1..], byNode);
      }
    } else {
      assert [x][1..] == [];
    }
  }

  lemma {:induction false} SortIds(s: seq<Node>, byNode: (Node, Node) -> bool, byId: (string, string) -> bool)
    requires forall a: Node, b: Node :: byNode(a, b) == byId(a.id, b.id)
    ensures Ids(Sort(s, byNode)) == Sort(Ids(s), byId)
  {
    if s != [] {
      SortIds(s[1..], byNode, byId);
      assert Ids(s)[1..] == Ids(s[1..]);
      InsertIds(s[0], Sort(s[1..], byNode), byNode, byId);
    }
  }

  /** In priority mode the order of the rows is a function of the ids and the configured order alone:
      no measurement can change it. */
  lemma PriorityIgnoresMeasurements(collate: Collation, p: Policy)
    requires p.mode == Priority
    ensures Ids(SortedRows(collate, p)) == Sort(Ids(p.nodes), IdOrder(Positions(p.priorityOrder), Positions(Ids(p.nodes))))
  {
    SortIds(p.nodes, RowOrder(collate, p), IdOrder(Positions(p.priorityOrder), Positions(Ids(p.nodes))));
  }

  lemma {:induction false} PositionsAt(ids: seq<string>, id: string)
    ensures id in Positions(ids) <==> id in ids
    ensures id in ids ==> Positions(ids)[id] < |ids| && ids[Positions(ids)[id]] == id
    ensures id in ids ==> forall k :: Positions(ids)[id] < k < |ids| ==> ids[k] != id
  {
    if ids != [] {
      PositionsAt(ids[..|ids| - 1], id);
      assert ids == ids[..|ids| - 1] + [ids[|ids| - 1]];
    }
  }

  /** That order: configured rows first, in configured order; then the others, in source order. */
  lemma PriorityOrderOf(collate: Collation, p: Policy, i: nat, j: nat)
    requires p.mode == Priority && i < j < |SortedRows(collate, p)|
    ensures var sorted, configured, source := SortedRows(collate, p), Positions(p.priorityOrder), Positions(Ids(p.nodes));
            var l, r := sorted[i].id, sorted[j].id;
            && l in source && r in source && (l in configured <==> l in p.priorityOrder)
            && (r in configured ==> l in configured && configured[l] <= configured[r])
            && (l !in configured ==> r !in configured && source[l] <= source[r])
  {
    var sorted, configured, source := SortedRows(collate, p), Positions(p.priorityOrder), Positions(Ids(p.nodes));
    RowOrderIsTotal(collate, p);
    SortSorted(p.nodes, RowOrder(collate, p));
    assert RowOrder(collate, p)(sorted[i], sorted[j]);
    PositionsAt(p.priorityOrder, sorted[i].id);
    RowHasPosition(collate, p, sorted[i]);
    RowHasPosition(collate, p, sorted[j]);
    assert PriorityCompare(configured, source, sorted[i].id, sorted[j].id) <= 0.0;
  }

  lemma {:induction false} IdsMember(nodes: seq<Node>, n: Node)
    requires n in nodes
    ensures n.id in Ids(nodes)
  {
    if n != nodes[0] { IdsMember(nodes[1..], n); }
  }

  lemma RowHasPosition(collate: Collation, p: Policy, n: Node)
    requires n in SortedRows(collate, p)
    ensures n.id in Positions(Ids(p.nodes))
  {
    SortMember(p.nodes, RowOrder(collate, p), n);
    IdsMember(p.nodes, n);
    PositionsAt(Ids(p.nodes), n.id);
  }

  /** A configured row of a priority sheet is numbered by its last place in the configured order, every
      other row by its place in the sheet. */
  lemma RanksName(collate: Collation, policies: seq<Policy>, selectedKey: string, i: nat)
    requires i < |QualitySheet(collate, policies, selectedKey).rows|
    ensures var sheet := QualitySheet(collate, policies, selectedKey);
            var row, order := sheet.rows[i], sheet.policy.value.priorityOrder;
            if sheet.policy.value.mode == Priority && row.node.id in order
            then 1 <= row.rank <= |order| && order[row.rank - 1] == row.node.id && row.node.id !in order[row.rank..]
            else row.rank == i + 1
  {
    var sheet := QualitySheet(collate, policies, selectedKey);
    PositionsAt(sheet.policy.value.priorityOrder, sheet.rows[i].node.id);
  }

  // ----- Which sheet, and which rows first

  lemma {:induction false} FindsFirst(policies: seq<Policy>, key: string, i: nat)
    requires i < |policies| && policies[i].key == key && forall j :: 0 <= j < i ==> policies[j].key != key
    ensures FindPolicy(policies, key) == Some(policies[i])
  {
    if i > 0 {
      assert forall j :: 0 <= j < i - 1 ==> policies[1..][j] == policies[j + 1];
      FindsFirst(policies[1..], key, i - 1);
    }
  }

  /** The sheet is that of the first policy with the selected key, and of the first policy if none has it. */
  lemma SheetIsSelected(collate: Collation, policies: seq<Policy>, selectedKey: string, i: nat)
    requires i < |policies|
    requires (forall j :: 0 <= j < |policies| ==> policies[j].key != selectedKey)
             || (policies[i].key == selectedKey && forall j :: 0 <= j < i ==> policies[j].key != selectedKey)
    ensures QualitySheet(collate, policies, selectedKey).policy ==
            Some(if policies[i].key == selectedKey then policies[i] else policies[0])
  {
    if policies[i].key == selectedKey {
      FindsFirst(policies, selectedKey, i);
    } else {
      FindsListed(policies, selectedKey);
      assert forall p :: p in policies ==> exists j :: 0 <= j < |policies| && policies[j] == p;
    }
  }

  /** The selected row comes first; then rows by median, and rows without one behind all others. */
  lemma BestFirst(collate: Collation, l: Node, r: Node)
    ensures l.selected && !r.selected ==> BestCompare(collate, l, r) < 0.0
    ensures l.selected == r.selected && l.median.Some? && r.median.Some? && l.median.value < r.median.value ==>
              BestCompare(collate, l, r) < 0.0
    ensures l.selected == r.selected && l.median.Some? && r.median.None? && l.median.value < 9007199254740991.0 ==>
              BestCompare(collate, l, r) < 0.0 && BestCompare(collate, r, l) > 0.0
  {
  }

  /** Rows that tie keep the order of the source. */
  lemma TiesKeepOrder(collate: Collation, p: Policy, n: Node)
    ensures var ties := Ties(RowOrder(collate, p), n); Filter(SortedRows(collate, p), ties) == Filter(p.nodes, ties)
  {
    RowOrderIsTotal(collate, p);
    SortStable(p.nodes, RowOrder(collate, p), n);
  }
}
