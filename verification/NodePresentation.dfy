/**
 Display labels of nodes: equal provider labels are told apart by protocol, then by subscription,
 then by a number.
 */
module NodePresentation {
  import opened Options
  import opened Texts
  import opened Lists
  import opened Sorting
  import Hostnames

  /** A node as far as its label looks at it; `None` stands for a value that is not a string. The
      protocol and the transport are in lower case. */
  datatype Node = Node(id: Option<string>, name: Option<string>, protocol: Option<string>,
                       transport: Option<string>, subscription: Option<string>)

  /** The order in which ids are sorted. */
  type IdOrder = (string, string) -> bool

  const DOT := '\U{B7}'

  // ----- Suffix and source

  function TransportName(transport: string): Option<string> {
    if transport == "ws" then Some("WS")
    else if transport == "grpc" then Some("gRPC")
    else if transport == "xhttp" || transport == "splithttp" then Some("XHTTP")
    else if transport == "httpupgrade" then Some("HU")
    else if transport == "tcp" then Some("TCP")
    else None
  }

  function ProtocolName(protocol: string): string {
    if protocol == "vless" then "VLESS"
    else if protocol == "trojan" then "Trojan"
    else if protocol == "vmess" then "VMess"
    else if protocol == "shadowsocks" then "SS"
    else ""
  }

  function Suffix(n: Node): string {
    var protocol, transport := OrElse(n.protocol, ""), OrElse(n.transport, "");
    if protocol == "hysteria2" || protocol == "hy2" then "H2"
    else if protocol == "wireguard" || protocol == "routeros-wireguard" then "WG"
    else if protocol == "xray-reverse" then "REV"
    else if protocol == "reality" then
      if transport != "" && transport != "tcp" then OrElse(TransportName(transport), transport) + "+R" else "R"
    else OrElse(TransportName(transport), ProtocolName(protocol))
  }

  function SourceLabel(n: Node): string { if n.subscription.Some? then Hostnames.Trim(n.subscription.value) else "" }

  // ----- The label

  function Named(name: string): Node -> bool { (n: Node) => n.name == Some(name) }

  function WithSuffix(suffix: string): Node -> bool { (n: Node) => Suffix(n) == suffix }

  function FromSource(source: string): Node -> bool { (n: Node) => SourceLabel(n) == source }

  function IdText(n: Node): string { OrElse(n.id, "") }

  /** The non-empty ids, in order. */
  function IdsOf(nodes: seq<Node>): seq<string> {
    if nodes == [] then [] else (if IdText(nodes[0]) != "" then [IdText(nodes[0])] else []) + IdsOf(nodes[1..])
  }

  function IndexOf(ids: seq<string>, id: string): int {
    if ids == [] then -1
    else if ids[0] == id then 0
    else
      var k := IndexOf(ids[1..], id);
      if k < 0 then -1 else k + 1
  }

  function SourceNeeded(n: Node, alike: seq<Node>): bool { |alike| > 1 && SourceLabel(n) != "" }

  /** Those that are still alike after the source was looked at. */
  function StillAlike(n: Node, alike: seq<Node>): seq<Node> {
    if SourceNeeded(n, alike) then Filter(alike, FromSource(SourceLabel(n))) else alike
  }

  function Occurrence(order: IdOrder, n: Node, still: seq<Node>): int {
    if |still| > 1 && IdText(n) != "" then IndexOf(Sort(IdsOf(still), order), IdText(n)) else -1
  }

  function Qualifiers(order: IdOrder, n: Node, alike: seq<Node>): seq<string> {
    var k := Occurrence(order, n, StillAlike(n, alike));
    [Suffix(n)] + (if SourceNeeded(n, alike) then [SourceLabel(n)] else [])
    + if k >= 0 then ["#" + Decimal(k + 1)] else []
  }

  /** The non-empty parts with a middle dot between them. */
  function JoinParts(parts: seq<string>): string {
    if parts == [] then ""
    else if |parts| == 1 then parts[0]
    else parts[0] + [' ', DOT, ' '] + JoinParts(parts[1..])
  }

  function IsShown(): string -> bool { (part: string) => part != "" }

  function NonEmpty(parts: seq<string>): seq<string> { Filter(parts, IsShown()) }

  function WithDetail(name: string, detail: string): string {
    if detail != "" then name + " (" + detail + ")" else name
  }

  function DisplayLabel(order: IdOrder, name: string, node: Option<Node>, peers: seq<Node>): string {
    if node.None? then name
    else
      var collisions := Filter(peers, Named(name));
      if |collisions| < 2 then name
      else
        var alike := Filter(collisions, WithSuffix(Suffix(node.value)));
        WithDetail(name, JoinParts(NonEmpty(Qualifiers(order, node.value, alike))))
  }

  /** Builds the qualifier list step by step, narrowing the peers that are still alike. */
  method NodeDisplayLabel(order: IdOrder, name: string, node: Option<Node>, peers: seq<Node>) returns (text: string)
    ensures text == DisplayLabel(order, name, node, peers)
  {
    if node.None? { return name; }
    var collisions := Filter(peers, Named(name));
    if |collisions| < 2 { return name; }
    var suffix, source := Suffix(node.value), SourceLabel(node.value);
    var equivalent := Filter(collisions, WithSuffix(suffix));
    ghost var alike := equivalent;
    var qualifier := [suffix];
    if |equivalent| > 1 && source != "" {
      qualifier := qualifier + [source];
      equivalent := Filter(equivalent, FromSource(source));
    }
    if |equivalent| > 1 && IdText(node.value) != "" {
      var index := IndexOf(Sort(IdsOf(equivalent), order), IdText(node.value));
      if index >= 0 { qualifier := qualifier + ["#" + Decimal(index + 1)]; }
    }
    assert equivalent == StillAlike(node.value, alike);
    assert qualifier == Qualifiers(order, node.value, alike);
    text := WithDetail(name, JoinParts(NonEmpty(qualifier)));
  }

  // ----- Positions

  lemma {:induction false} IdsMember(nodes: seq<Node>, n: Node)
    requires n in nodes && IdText(n) != ""
    ensures IdText(n) in IdsOf(nodes)
  {
    if n != nodes[0] { IdsMember(nodes[1..], n); }
  }

  lemma {:induction false} IndexFound(ids: seq<string>, id: string)
    ensures IndexOf(ids, id) >= 0 <==> id in ids
    ensures IndexOf(ids, id) >= 0 ==> IndexOf(ids, id) < |ids| && ids[IndexOf(ids, id)] == id
  {
    if ids != [] { IndexFound(ids[1..], id); }
  }

  /** Among two or more that are still alike, a node with an id gets a number of its own. */
  lemma Numbered(order: IdOrder, n: Node, still: seq<Node>)
    requires n in still && IdText(n) != "" && |still| > 1
    ensures var k, ids := Occurrence(order, n, still), Sort(IdsOf(still), order); 0 <= k < |ids| && ids[k] == IdText(n)
  {
    IdsMember(still, n);
    SortMember(IdsOf(still), order, IdText(n));
    IndexFound(Sort(IdsOf(still), order), IdText(n));
  }

  // ----- Joining is injective

  ghost predicate Plain(part: string) { part != "" && DOT !in part }

  lemma {:induction false} JoinInjective(a: seq<string>, b: seq<string>)
    requires a != [] && b != [] && (forall p :: p in a ==> Plain(p)) && (forall p :: p in b ==> Plain(p))
    requires JoinParts(a) == JoinParts(b)
    ensures a == b
  {
    assert a[0] in a && b[0] in b;
    if |a| == 1 || |b| == 1 {
      OneOrMore(a);
      OneOrMore(b);
      assert a == [a[0]] && b == [b[0]];
    } else {
      var ra, rb := JoinParts(a[1..]), JoinParts(b[1..]);
      assert JoinParts(a) == (a[0] + " ") + [DOT] + ([' '] + ra);
      assert JoinParts(b) == (b[0] + " ") + [DOT] + ([' '] + rb);
      CutUnique(a[0] + " ", [' '] + ra, b[0] + " ", [' '] + rb, DOT);
      assert (a[0] + " ")[..|a[0]|] == a[0] && (b[0] + " ")[..|b[0]|] == b[0];
      DropPrefix([' '], ra, rb);
      JoinInjective(a[1..], b[1..]);
      assert a == [a[0]] + a[1..] && b == [b[0]] + b[1..];
    }
  }

  /** The separator occurs exactly when there are two parts or more. */
  lemma OneOrMore(a: seq<string>)
    requires a != [] && forall p :: p in a ==> Plain(p)
    ensures DOT in JoinParts(a) <==> |a| > 1
  {
    assert a[0] in a;
    if |a| > 1 {
      assert JoinParts(a)[|a[0]| + 1] == DOT;
    }
  }

  lemma DetailInjective(name: string, d: string, e: string)
    requires d != "" && e != "" && WithDetail(name, d) == WithDetail(name, e)
    ensures d == e
  {
    var s, t := WithDetail(name, d), WithDetail(name, e);
    assert s == (name + " (") + (d + ")") && t == (name + " (") + (e + ")");
    DropPrefix(name + " (", d + ")", e + ")");
    assert (d + ")")[..|d|] == d && (e + ")")[..|e|] == e;
  }

  // ----- Different nodes, different labels

  ghost predicate IsNumber(s: string) { exists k: nat :: s == "#" + Decimal(k) }

  /** Neither the suffix nor the source name of the node uses the separator. */
  predicate NoSeparators(n: Node) { DOT !in Suffix(n) && DOT !in SourceLabel(n) }

  function ShownSource(n: Node, alike: seq<Node>): string { if SourceNeeded(n, alike) then SourceLabel(n) else "" }

  function ShownNumber(order: IdOrder, n: Node, alike: seq<Node>): string {
    var k := Occurrence(order, n, StillAlike(n, alike));
    if k >= 0 then "#" + Decimal(k + 1) else ""
  }

  function One(part: string): seq<string> { if part != "" then [part] else [] }

  lemma ShownThree(first: string, x: seq<string>, y: seq<string>)
    ensures NonEmpty([first] + x + y) == One(first) + NonEmpty(x) + NonEmpty(y)
  {
    FilterConcat([first] + x, y, IsShown());
    FilterConcat([first], x, IsShown());
    FilterOne(first, IsShown());
  }

  lemma ShownIf(shown: bool, part: string)
    ensures NonEmpty(if shown then [part] else []) == if shown then One(part) else []
  {
    FilterOne(part, IsShown());
  }

  lemma ShownParts(order: IdOrder, n: Node, alike: seq<Node>)
    ensures NonEmpty(Qualifiers(order, n, alike))
            == One(Suffix(n)) + One(ShownSource(n, alike)) + One(ShownNumber(order, n, alike))
  {
    var k := Occurrence(order, n, StillAlike(n, alike));
    var number := if k >= 0 then "#" + Decimal(k + 1) else "";
    ShownThree(Suffix(n), if SourceNeeded(n, alike) then [SourceLabel(n)] else [], if k >= 0 then [number] else []);
    ShownIf(SourceNeeded(n, alike), SourceLabel(n));
    ShownIf(k >= 0, number);
  }

  /** `lone` has no source, `tagged` has one that is the number of `lone`, and no number of its own. */
  predicate Impersonates(order: IdOrder, tagged: Node, lone: Node, alike: seq<Node>) {
    && SourceLabel(lone) == "" && SourceLabel(tagged) != "" && SourceLabel(tagged) == ShownNumber(order, lone, alike)
    && (IdText(tagged) == "" || |Filter(alike, FromSource(SourceLabel(tagged)))| == 1)
  }

  /** `bare` has no suffix and shows a source called like the suffix of `full`; what each shows besides
      is the same. */
  predicate Borrows(order: IdOrder, bare: Node, bareAlike: seq<Node>, full: Node, fullAlike: seq<Node>) {
    && Suffix(bare) == "" && Suffix(full) != "" && ShownSource(bare, bareAlike) == Suffix(full)
    && One(ShownNumber(order, bare, bareAlike))
       == One(ShownSource(full, fullAlike)) + One(ShownNumber(order, full, fullAlike))
  }

  /** No suffix looks like a number. */
  lemma SuffixIsNoNumber(n: Node)
    ensures !IsNumber(Suffix(n))
  {
    forall k: nat ensures Suffix(n) != "#" + Decimal(k) {
      var d := "#" + Decimal(k);
      assert d[0] == '#' && IsDigit(d[|d| - 1]) by { assert d[|d| - 1] == Decimal(k)[|Decimal(k)| - 1]; }
      SuffixShape(n);
    }
  }

  lemma SuffixShape(n: Node)
    ensures var s := Suffix(n); s == "" || s[0] != '#' || s[|s| - 1] == 'R'
  {
  }

  lemma NumberShown(order: IdOrder, n: Node, alike: seq<Node>)
    ensures ShownNumber(order, n, alike) != "" ==> IsNumber(ShownNumber(order, n, alike))
    ensures DOT !in ShownNumber(order, n, alike)
  {
  }

  /** Parts that differ in their suffix agree only by borrowing. */
  lemma SuffixesDiffer(s: string, u: string, v: string, s': string, u': string, v': string)
    requires s != s' && (v == "" || IsNumber(v)) && (v' == "" || IsNumber(v')) && !IsNumber(s) && !IsNumber(s')
    ensures One(s) + One(u) + One(v) == One(s') + One(u') + One(v') <==>
              || (s == "" && s' != "" && u == s' && One(v) == One(u') + One(v'))
              || (s' == "" && s != "" && u' == s && One(v') == One(u) + One(v))
  {
    var x, y := One(s) + One(u) + One(v), One(s') + One(u') + One(v');
    if s != "" && s' != "" {
      assert x[0] == s && y[0] == s';
    } else if s == "" {
      assert y[0] == s' && y[1..] == One(u') + One(v');
      assert u != "" ==> x[0] == u && x[1..] == One(v);
      assert u == "" ==> x == One(v);
    } else {
      assert x[0] == s && x[1..] == One(u) + One(v);
      assert u' != "" ==> y[0] == u' && y[1..] == One(v');
      assert u' == "" ==> y == One(v');
    }
  }

  lemma SuffixesEqual(s: string, u: string, v: string, u': string, v': string)
    ensures One(s) + One(u) + One(v) == One(s) + One(u') + One(v') <==>
              || (u == u' && v == v')
              || (u == "" && u' != "" && v == u' && v' == "") || (u' == "" && u != "" && v' == u && v == "")
  {
    var x, y := One(u) + One(v), One(u') + One(v');
    assert One(s) + One(u) + One(v) == One(s) + x && One(s) + One(u') + One(v') == One(s) + y;
    if One(s) + x == One(s) + y { assert (One(s) + x)[|One(s)|..] == x && (One(s) + y)[|One(s)|..] == y; }
    assert u != "" ==> x[0] == u && x[1..] == One(v);
    assert u' != "" ==> y[0] == u' && y[1..] == One(v');
    assert u == "" ==> x == One(v);
    assert u' == "" ==> y == One(v');
  }

  lemma StayAlike(a: Node, b: Node, alike: seq<Node>)
    requires a in alike && b in alike && a != b && SourceLabel(a) == SourceLabel(b)
    ensures StillAlike(a, alike) == StillAlike(b, alike) && |StillAlike(a, alike)| > 1
    ensures a in StillAlike(a, alike) && b in StillAlike(a, alike)
  {
    FilterMember(alike, FromSource(SourceLabel(a)), a);
    FilterMember(alike, FromSource(SourceLabel(a)), b);
    TwoMembers(StillAlike(a, alike), a, b);
  }

  lemma OccurrencesByIds(order: IdOrder, a: Node, b: Node, still: seq<Node>)
    requires a in still && b in still && |still| > 1
    ensures Occurrence(order, a, still) == Occurrence(order, b, still) <==> IdText(a) == IdText(b)
    ensures Occurrence(order, a, still) >= -1 && Occurrence(order, b, still) >= -1
  {
    if IdText(a) != "" { Numbered(order, a, still); }
    if IdText(b) != "" { Numbered(order, b, still); }
  }

  lemma NumeralsDiffer(x: int, y: int)
    requires x >= 0 && y >= 0 && "#" + Decimal(x + 1) == "#" + Decimal(y + 1)
    ensures x == y
  {
    DropPrefix("#", Decimal(x + 1), Decimal(y + 1));
    DecimalInjective(x + 1, y + 1);
  }

  /** Nodes that stay alike to the end get different numbers exactly when their ids differ. */
  lemma NumbersByIds(order: IdOrder, a: Node, b: Node, alike: seq<Node>)
    requires a in alike && b in alike && a != b && SourceLabel(a) == SourceLabel(b)
    ensures ShownNumber(order, a, alike) == ShownNumber(order, b, alike) <==> IdText(a) == IdText(b)
  {
    StayAlike(a, b, alike);
    var still := StillAlike(a, alike);
    OccurrencesByIds(order, a, b, still);
    var x, y := Occurrence(order, a, still), Occurrence(order, b, still);
    if x >= 0 && y >= 0 && ShownNumber(order, a, alike) == ShownNumber(order, b, alike) { NumeralsDiffer(x, y); }
  }

  /** A node with a source shows no number exactly when it has no id or is alone with its source. */
  lemma NumberMissing(order: IdOrder, n: Node, alike: seq<Node>)
    requires n in alike && |alike| > 1 && SourceLabel(n) != ""
    ensures ShownNumber(order, n, alike) == "" <==>
              IdText(n) == "" || |Filter(alike, FromSource(SourceLabel(n)))| == 1
  {
    var still := Filter(alike, FromSource(SourceLabel(n)));
    FilterMember(alike, FromSource(SourceLabel(n)), n);
    if |still| > 1 && IdText(n) != "" { Numbered(order, n, still); }
  }

  /** Two different nodes with one suffix show the same parts exactly when they share source and id, or
      one impersonates the other. */
  lemma QualifiersSameExactly(order: IdOrder, a: Node, b: Node, alike: seq<Node>)
    requires a in alike && b in alike && a != b && Suffix(a) == Suffix(b)
    ensures NonEmpty(Qualifiers(order, a, alike)) == NonEmpty(Qualifiers(order, b, alike)) <==>
              || (SourceLabel(a) == SourceLabel(b) && IdText(a) == IdText(b))
              || Impersonates(order, a, b, alike) || Impersonates(order, b, a, alike)
  {
    TwoMembers(alike, a, b);
    ShownParts(order, a, alike);
    ShownParts(order, b, alike);
    SuffixesEqual(Suffix(a), SourceLabel(a), ShownNumber(order, a, alike), SourceLabel(b), ShownNumber(order, b, alike));
    if SourceLabel(a) == SourceLabel(b) { NumbersByIds(order, a, b, alike); }
    if SourceLabel(a) != "" { NumberMissing(order, a, alike); }
    if SourceLabel(b) != "" { NumberMissing(order, b, alike); }
  }

  /** The nodes that share both the provider label and the suffix. */
  function Alike(name: string, suffix: string, peers: seq<Node>): seq<Node> {
    Filter(Filter(peers, Named(name)), WithSuffix(suffix))
  }

  lemma AlikeMember(name: string, peers: seq<Node>, n: Node)
    requires n in peers && n.name == Some(name)
    ensures n in Alike(name, Suffix(n), peers) && n in Filter(peers, Named(name))
  {
    FilterMember(peers, Named(name), n);
    FilterMember(Filter(peers, Named(name)), WithSuffix(Suffix(n)), n);
  }

  lemma PartsPlain(order: IdOrder, n: Node, alike: seq<Node>)
    requires NoSeparators(n)
    ensures forall p :: p in NonEmpty(Qualifiers(order, n, alike)) ==> Plain(p)
  {
    ShownParts(order, n, alike);
    NumberShown(order, n, alike);
  }

  lemma DetailSame(name: string, x: seq<string>, y: seq<string>)
    requires (forall p :: p in x ==> Plain(p)) && (forall p :: p in y ==> Plain(p))
    ensures WithDetail(name, JoinParts(x)) == WithDetail(name, JoinParts(y)) <==> x == y
  {
    if x != [] { JoinNonEmpty(x); }
    if y != [] { JoinNonEmpty(y); }
    if WithDetail(name, JoinParts(x)) == WithDetail(name, JoinParts(y)) {
      if x == [] || y == [] {
        assert |WithDetail(name, JoinParts(x))| == |WithDetail(name, JoinParts(y))|;
      } else {
        DetailInjective(name, JoinParts(x), JoinParts(y));
        JoinInjective(x, y);
      }
    }
  }

  /** Two labels are equal exactly when the shown parts are. */
  lemma LabelIsParts(order: IdOrder, name: string, a: Node, b: Node, peers: seq<Node>)
    requires NoSeparators(a) && NoSeparators(b)
    requires a in peers && b in peers && a != b && a.name == Some(name) && b.name == Some(name)
    ensures DisplayLabel(order, name, Some(a), peers) == DisplayLabel(order, name, Some(b), peers) <==>
              NonEmpty(Qualifiers(order, a, Alike(name, Suffix(a), peers)))
              == NonEmpty(Qualifiers(order, b, Alike(name, Suffix(b), peers)))
  {
    AlikeMember(name, peers, a);
    AlikeMember(name, peers, b);
    TwoMembers(Filter(peers, Named(name)), a, b);
    PartsPlain(order, a, Alike(name, Suffix(a), peers));
    PartsPlain(order, b, Alike(name, Suffix(b), peers));
    DetailSame(name, NonEmpty(Qualifiers(order, a, Alike(name, Suffix(a), peers))),
               NonEmpty(Qualifiers(order, b, Alike(name, Suffix(b), peers))));
  }

  lemma BorrowedExactly(order: IdOrder, a: Node, likeA: seq<Node>, b: Node, likeB: seq<Node>)
    requires Suffix(a) != Suffix(b)
    ensures NonEmpty(Qualifiers(order, a, likeA)) == NonEmpty(Qualifiers(order, b, likeB)) <==>
              Borrows(order, a, likeA, b, likeB) || Borrows(order, b, likeB, a, likeA)
  {
    ShownParts(order, a, likeA);
    ShownParts(order, b, likeB);
    NumberShown(order, a, likeA);
    NumberShown(order, b, likeB);
    SuffixIsNoNumber(a);
    SuffixIsNoNumber(b);
    SuffixesDiffer(Suffix(a), ShownSource(a, likeA), ShownNumber(order, a, likeA),
                   Suffix(b), ShownSource(b, likeB), ShownNumber(order, b, likeB));
  }

  /** Two nodes that share a provider label get the same display label exactly when they share suffix,
      source and id, or share the suffix and one has a source called like the other's number, or one
      has no suffix and a source called like the other's suffix. */
  lemma LabelsSameExactly(order: IdOrder, name: string, a: Node, b: Node, peers: seq<Node>)
    requires NoSeparators(a) && NoSeparators(b)
    requires a in peers && b in peers && a != b && a.name == Some(name) && b.name == Some(name)
    ensures var likeA, likeB := Alike(name, Suffix(a), peers), Alike(name, Suffix(b), peers);
            DisplayLabel(order, name, Some(a), peers) == DisplayLabel(order, name, Some(b), peers) <==>
            if Suffix(a) == Suffix(b)
            then || (SourceLabel(a) == SourceLabel(b) && IdText(a) == IdText(b))
                 || Impersonates(order, a, b, likeA) || Impersonates(order, b, a, likeA)
            else Borrows(order, a, likeA, b, likeB) || Borrows(order, b, likeB, a, likeA)
  {
    LabelIsParts(order, name, a, b, peers);
    AlikeMember(name, peers, a);
    AlikeMember(name, peers, b);
    if Suffix(a) == Suffix(b) {
      QualifiersSameExactly(order, a, b, Alike(name, Suffix(a), peers));
    } else {
      BorrowedExactly(order, a, Alike(name, Suffix(a), peers), b, Alike(name, Suffix(b), peers));
    }
  }

  /** In particular labels always differ for different ids when neither source is called like a number
      or like the other node's suffix. */
  lemma LabelsDiffer(order: IdOrder, name: string, a: Node, b: Node, peers: seq<Node>)
    requires NoSeparators(a) && NoSeparators(b) && IdText(a) != IdText(b)
    requires !IsNumber(SourceLabel(a)) && !IsNumber(SourceLabel(b))
    requires Suffix(a) == "" ==> SourceLabel(a) != Suffix(b)
    requires Suffix(b) == "" ==> SourceLabel(b) != Suffix(a)
    requires a in peers && b in peers && a.name == Some(name) && b.name == Some(name)
    ensures DisplayLabel(order, name, Some(a), peers) != DisplayLabel(order, name, Some(b), peers)
  {
    LabelsSameExactly(order, name, a, b, peers);
    NumberShown(order, a, Alike(name, Suffix(a), peers));
    NumberShown(order, b, Alike(name, Suffix(b), peers));
  }

  lemma JoinNonEmpty(parts: seq<string>)
    requires parts != [] && forall p :: p in parts ==> Plain(p)
    ensures JoinParts(parts) != ""
  {
    assert parts[0] in parts;
  }

  // ----- The order of the peers does not matter

  lemma {:induction false} IdsConcat(a: seq<Node>, b: seq<Node>)
    ensures IdsOf(a + b) == IdsOf(a) + IdsOf(b)
  {
    if a == [] {
      assert a + b == b;
    } else {
      assert (a + b)[1..] == a[1..] + b;
      IdsConcat(a[1..], b);
    }
  }

  lemma IdsPermuted(a: seq<Node>, b: seq<Node>)
    requires multiset(a) == multiset(b)
    ensures multiset(IdsOf(a)) == multiset(IdsOf(b))
  {
    var f := (ns: seq<Node>) => multiset(IdsOf(ns));
    forall x: seq<Node>, y: seq<Node> ensures f(x + y) == f(x) + f(y) { IdsConcat(x, y); }
    SumForgetsOrder(f, a, b);
  }

  lemma QualifiersPermuted(order: IdOrder, n: Node, a: seq<Node>, b: seq<Node>)
    requires TotalPreorder(order) && Antisymmetric(order) && multiset(a) == multiset(b) && |a| == |b|
    ensures Qualifiers(order, n, a) == Qualifiers(order, n, b)
  {
    FilterPermuted(a, b, FromSource(SourceLabel(n)));
    var sa, sb := StillAlike(n, a), StillAlike(n, b);
    assert multiset(sa) == multiset(sb) && |sa| == |sb|;
    IdsPermuted(sa, sb);
    SortForgetsOrder(IdsOf(sa), IdsOf(sb), order);
  }

  /** Refreshing the list in another order keeps every label, the numbers included. */
  lemma LabelForgetsOrder(order: IdOrder, name: string, node: Option<Node>, a: seq<Node>, b: seq<Node>)
    requires TotalPreorder(order) && Antisymmetric(order) && multiset(a) == multiset(b)
    ensures DisplayLabel(order, name, node, a) == DisplayLabel(order, name, node, b)
  {
    FilterPermuted(a, b, Named(name));
    if node.Some? {
      var s := Suffix(node.value);
      FilterPermuted(Filter(a, Named(name)), Filter(b, Named(name)), WithSuffix(s));
      QualifiersPermuted(order, node.value, Filter(Filter(a, Named(name)), WithSuffix(s)),
                         Filter(Filter(b, Named(name)), WithSuffix(s)));
    }
  }

  // ----- What a label looks like

  /** A label that fewer than two peers have is shown as it is, and so is one without a node. */
  lemma LabelUnchanged(order: IdOrder, name: string, node: Option<Node>, peers: seq<Node>)
    requires node == None || |Filter(peers, Named(name))| < 2
    ensures DisplayLabel(order, name, node, peers) == name
  {
  }

  /** Otherwise the suffix tells it apart if no other such peer has it; */
  lemma LabelBySuffix(order: IdOrder, name: string, n: Node, peers: seq<Node>)
    requires |Filter(peers, Named(name))| >= 2 && |Alike(name, Suffix(n), peers)| == 1
    ensures DisplayLabel(order, name, Some(n), peers) == if Suffix(n) == "" then name else name + " (" + Suffix(n) + ")"
  {
    ShownParts(order, n, Alike(name, Suffix(n), peers));
    assert One(Suffix(n)) + [] + [] == One(Suffix(n));
  }

  lemma JoinTwo(a: string, b: string)
    requires a != "" && b != ""
    ensures JoinParts([a, b]) == a + " \U{B7} " + b && JoinParts([a, b]) != ""
  {
    assert [a, b][1..] == [b] && [' ', DOT, ' '] == " \U{B7} ";
  }

  /** then the source, if no other peer shares both; */
  lemma LabelBySource(order: IdOrder, name: string, n: Node, peers: seq<Node>)
    requires |Filter(peers, Named(name))| >= 2 && |Alike(name, Suffix(n), peers)| > 1
    requires Suffix(n) != "" && SourceLabel(n) != ""
    requires |Filter(Alike(name, Suffix(n), peers), FromSource(SourceLabel(n)))| == 1
    ensures DisplayLabel(order, name, Some(n), peers) == name + " (" + (Suffix(n) + " \U{B7} " + SourceLabel(n)) + ")"
  {
    ShownParts(order, n, Alike(name, Suffix(n), peers));
    var parts := [Suffix(n), SourceLabel(n)];
    assert One(Suffix(n)) + One(SourceLabel(n)) + [] == parts;
    JoinTwo(Suffix(n), SourceLabel(n));
  }

  /** and else a number: one more than the place of the node's id among the ids that are left. */
  lemma LabelByNumber(order: IdOrder, name: string, n: Node, peers: seq<Node>, k: nat)
    requires |Filter(peers, Named(name))| >= 2 && Suffix(n) != "" && SourceLabel(n) == "" && IdText(n) != ""
    requires var alike := Alike(name, Suffix(n), peers);
             var ids := Sort(IdsOf(alike), order);
             |alike| > 1 && k < |ids| && ids[k] == IdText(n) && forall i :: 0 <= i < k ==> ids[i] != IdText(n)
    ensures DisplayLabel(order, name, Some(n), peers) == name + " (" + (Suffix(n) + " \U{B7} " + ("#" + Decimal(k + 1))) + ")"
  {
    var alike := Alike(name, Suffix(n), peers);
    FirstAt(Sort(IdsOf(alike), order), IdText(n), k);
    ShownParts(order, n, alike);
    var parts := [Suffix(n), "#" + Decimal(k + 1)];
    assert One(Suffix(n)) + [] + ["#" + Decimal(k + 1)] == parts;
    JoinTwo(Suffix(n), "#" + Decimal(k + 1));
  }

  lemma {:induction false} FirstAt(ids: seq<string>, id: string, k: nat)
    requires k < |ids| && ids[k] == id && forall i :: 0 <= i < k ==> ids[i] != id
    ensures IndexOf(ids, id) == k
  {
    if k > 0 {
      assert forall i :: 0 <= i < k - 1 ==> ids[1..][i] == ids[i + 1];
      FirstAt(ids[1..], id, k - 1);
    }
  }

  /** The ids that are numbered: all that are there, in order. */
  lemma IdsExactly(nodes: seq<Node>, n: Node)
    ensures IdsOf(nodes + [n]) == IdsOf(nodes) + if n.id == None || n.id == Some("") then [] else [n.id.value]
  {
    IdsConcat(nodes, [n]);
    assert [n][1..] == [];
  }

  /** The source is the display name of the subscription without the blanks around it. */
  lemma SourceExactly(n: Node, pad: string, text: string, pad': string)
    requires Hostnames.Blank(pad) && Hostnames.Blank(pad') && text != []
    requires '!' <= text[0] <= '~' && '!' <= text[|text| - 1] <= '~'
    ensures n.subscription == Some(pad + text + pad') ==> SourceLabel(n) == text
    ensures n.subscription == None ==> SourceLabel(n) == ""
  {
    Hostnames.TrimExactly(pad, text, pad');
  }

  /** The suffixes, from what nodes say to what is shown. */
  lemma SuffixTable(n: Node)
    ensures n.protocol in {Some("hysteria2"), Some("hy2")} ==> Suffix(n) == "H2"
    ensures n.protocol in {Some("wireguard"), Some("routeros-wireguard")} ==> Suffix(n) == "WG"
    ensures n.protocol == Some("xray-reverse") ==> Suffix(n) == "REV"
    ensures n.protocol == Some("reality") && n.transport in {None, Some(""), Some("tcp")} ==> Suffix(n) == "R"
    ensures n.protocol == Some("reality") && n.transport == Some("ws") ==> Suffix(n) == "WS+R"
    ensures n.protocol == Some("reality") && n.transport == Some("quic") ==> Suffix(n) == "quic+R"
    ensures n.protocol in {None, Some("vless")} && n.transport == Some("ws") ==> Suffix(n) == "WS"
    ensures n.protocol in {None, Some("vless")} && n.transport == Some("grpc") ==> Suffix(n) == "gRPC"
    ensures n.protocol in {None, Some("vless")} && n.transport in {Some("xhttp"), Some("splithttp")} ==> Suffix(n) == "XHTTP"
    ensures n.protocol in {None, Some("vless")} && n.transport == Some("httpupgrade") ==> Suffix(n) == "HU"
    ensures n.protocol in {None, Some("vless")} && n.transport == Some("tcp") ==> Suffix(n) == "TCP"
    ensures n.transport == None && n.protocol == Some("vless") ==> Suffix(n) == "VLESS"
    ensures n.transport == None && n.protocol == Some("trojan") ==> Suffix(n) == "Trojan"
    ensures n.transport == None && n.protocol == Some("vmess") ==> Suffix(n) == "VMess"
    ensures n.transport == None && n.protocol == Some("shadowsocks") ==> Suffix(n) == "SS"
    ensures n.transport == None && n.protocol == None ==> Suffix(n) == ""
  {
  }

  // ----- Source names that collide

  const LONE := Node(Some("a"), Some("Oslo"), Some("hy2"), None, None)
  const TAGGED := Node(Some("b"), Some("Oslo"), Some("hy2"), None, Some("#1"))

  lemma FilterTwo(a: Node, b: Node, keep: Node -> bool)
    ensures Filter([a, b], keep) == (if keep(a) then [a] else []) + if keep(b) then [b] else []
  {
    assert [a, b] == [a] + [b];
    FilterConcat([a], [b], keep);
    FilterOne(a, keep);
    FilterOne(b, keep);
  }

  lemma SortTwo(a: string, b: string, order: IdOrder)
    requires order(a, b)
    ensures Sort([a] + [b], order) == [a] + [b]
  {
    assert ([a] + [b])[1..] == [b] && [b][1..] == [];
    assert Sort([b], order) == [b];
  }

  lemma FirstNumber(order: IdOrder, lone: Node, tagged: Node)
    requires SourceLabel(lone) == "" && IdText(lone) == "a" && IdText(tagged) == "b" && order("a", "b")
    ensures ShownNumber(order, lone, [lone, tagged]) == "#1"
  {
    var peers := [lone, tagged];
    assert peers == [lone] + [tagged];
    IdsConcat([lone], [tagged]);
    assert [lone][1..] == [] && [tagged][1..] == [];
    assert IdsOf([lone]) == ["a"] && IdsOf([tagged]) == ["b"];
    SortTwo("a", "b", order);
    assert Decimal(1) == "1" && "#" + Decimal(1) == "#1";
  }

  /** A subscription called "#1" collides with the first of its unnamed twins. */
  lemma NumberLikeSourceCollides(order: IdOrder)
    requires order("a", "b")
    ensures DisplayLabel(order, "Oslo", Some(LONE), [LONE, TAGGED]) == DisplayLabel(order, "Oslo", Some(TAGGED), [LONE, TAGGED])
  {
    TwinFacts(LONE, TAGGED);
    TwinsCollide(order, "Oslo", LONE, TAGGED);
  }

  lemma TwinFacts(lone: Node, tagged: Node)
    requires lone == LONE && tagged == TAGGED
    ensures Suffix(lone) == "H2" && Suffix(tagged) == "H2" && SourceLabel(lone) == "" && SourceLabel(tagged) == "#1"
  {
  }

  lemma TwinsCollide(order: IdOrder, name: string, lone: Node, tagged: Node)
    requires Suffix(lone) == "H2" && Suffix(tagged) == "H2" && SourceLabel(lone) == "" && SourceLabel(tagged) == "#1"
    requires IdText(lone) == "a" && IdText(tagged) == "b" && order("a", "b")
    requires lone.name == Some(name) && tagged.name == Some(name)
    ensures DisplayLabel(order, name, Some(lone), [lone, tagged]) == DisplayLabel(order, name, Some(tagged), [lone, tagged])
  {
    var peers := [lone, tagged];
    FilterTwo(lone, tagged, Named(name));
    FilterTwo(lone, tagged, WithSuffix("H2"));
    FilterTwo(lone, tagged, FromSource("#1"));
    assert [lone] + [tagged] == peers && Alike(name, "H2", peers) == peers;
    FirstNumber(order, lone, tagged);
    assert Impersonates(order, tagged, lone, peers);
    LabelsSameExactly(order, name, lone, tagged, peers);
  }

  const BARE := Node(Some("a"), Some("Oslo"), None, None, Some("WS"))
  const SECOND := Node(Some("b"), Some("Oslo"), None, None, Some("Nord"))
  const FULL := Node(Some("c"), Some("Oslo"), None, Some("ws"), None)

  /** A node of unknown protocol from a subscription called "WS" collides with a WebSocket node. */
  lemma SuffixLikeSourceCollides(order: IdOrder)
    ensures var peers := [BARE, SECOND, FULL];
            DisplayLabel(order, "Oslo", Some(BARE), peers) == DisplayLabel(order, "Oslo", Some(FULL), peers)
  {
    BorrowFacts(BARE, SECOND, FULL);
    BorrowCollides(order, "Oslo", BARE, SECOND, FULL);
  }

  lemma BorrowFacts(bare: Node, second: Node, full: Node)
    requires bare == BARE && second == SECOND && full == FULL
    ensures Suffix(bare) == "" && Suffix(second) == "" && Suffix(full) == "WS"
    ensures SourceLabel(bare) == "WS" && SourceLabel(second) == "Nord" && SourceLabel(full) == ""
  {
  }

  lemma FilterThree(a: Node, b: Node, c: Node, keep: Node -> bool)
    ensures Filter([a, b, c], keep) ==
            (if keep(a) then [a] else []) + (if keep(b) then [b] else []) + if keep(c) then [c] else []
  {
    assert [a, b, c] == [a, b] + [c];
    FilterConcat([a, b], [c], keep);
    FilterTwo(a, b, keep);
    FilterOne(c, keep);
  }

  lemma BorrowLists(name: string, bare: Node, second: Node, full: Node)
    requires Suffix(bare) == "" && Suffix(second) == "" && Suffix(full) == "WS"
    requires bare.name == Some(name) && second.name == Some(name) && full.name == Some(name)
    ensures Alike(name, "", [bare, second, full]) == [bare, second] && Alike(name, "WS", [bare, second, full]) == [full]
  {
    assert |""| != |"WS"|;
    FilterThree(bare, second, full, Named(name));
    assert [bare] + [second] + [full] == [bare, second, full];
    FilterThree(bare, second, full, WithSuffix(""));
    FilterThree(bare, second, full, WithSuffix("WS"));
  }

  lemma BorrowCollides(order: IdOrder, name: string, bare: Node, second: Node, full: Node)
    requires Suffix(bare) == "" && Suffix(second) == "" && Suffix(full) == "WS"
    requires SourceLabel(bare) == "WS" && SourceLabel(second) == "Nord" && SourceLabel(full) == ""
    requires bare.name == Some(name) && second.name == Some(name) && full.name == Some(name)
    ensures var peers := [bare, second, full];
            DisplayLabel(order, name, Some(bare), peers) == DisplayLabel(order, name, Some(full), peers)
  {
    BorrowLists(name, bare, second, full);
    assert |"WS"| != |"Nord"|;
    FilterTwo(bare, second, FromSource("WS"));
    assert StillAlike(bare, [bare, second]) == [bare];
    assert Borrows(order, bare, [bare, second], full, [full]);
    LabelsSameExactly(order, name, bare, full, [bare, second, full]);
  }
}
