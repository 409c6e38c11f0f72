/**
 The generated rules meet what the reconciliation needs: owned comments, pairwise different in
 each table, and the rules of a table grouped by chain.
 */
module PolicyLayout {
  import opened Options
  import opened Texts
  import opened FirewallTable
  import opened PolicyScript
  import opened Reconciliation
  import opened Settling
  import opened ScriptTheorems
  import opened ProtocolPolicy

  // ----- Telling comments apart

  /** The place of a kind of rule in a family, read off its first and third character. */
  function Rank(word: string): nat {
    if |word| < 3 then 9
    else if word[0] == 't' then 0
    else if word[0] == 'r' then 2
    else if word[0] == 'm' then 3
    else if word[0] == 'b' then 4
    else if word[0] == 'i' then 5
    else if word[0] == 'e' then 7
    else if word[2] == 'p' then 1
    else if word[2] == 'm' then 6
    else 8
  }

  /** Every rule's comment is the prefix and a word with a rank in the range. */
  ghost predicate Ranked(rules: seq<Rule>, prefix: string, lo: nat, hi: nat) {
    forall r :: r in rules ==> prefix <= r.comment && lo <= Rank(r.comment[|prefix|..]) < hi
  }

  lemma RankApart(a: seq<Rule>, b: seq<Rule>, prefix: string, lo: nat, mid: nat, hi: nat)
    requires DistinctComments(a) && DistinctComments(b) && Ranked(a, prefix, lo, mid) && Ranked(b, prefix, mid, hi)
    requires lo <= mid <= hi
    ensures DistinctComments(a + b) && Ranked(a + b, prefix, lo, hi)
  {
  }

  lemma OneRanked(r: Rule, prefix: string, word: string)
    requires r.comment == prefix + word
    ensures DistinctComments([r]) && Ranked([r], prefix, Rank(word), Rank(word) + 1)
  {
  }

  // ----- The rules of a family

  function Prefix(f: Family): string { OWNED + (f.proto + " ") }

  lemma WordOf(f: Family, word: string, action: Action, m: Matchers)
    ensures FamilyRule(f, word, action, m).comment == Prefix(f) + word
  {
  }

  lemma RelatedWordInjective(s: nat, k: nat, s': nat, k': nat)
    requires RelatedWord(s, k) == RelatedWord(s', k')
    ensures s == s' && k == k'
  {
    DropPrefix("related ", Decimal(s) + " " + Decimal(k), Decimal(s') + " " + Decimal(k'));
    CutUnique(Decimal(s), Decimal(k), Decimal(s'), Decimal(k'), ' ');
    DecimalInjective(s, s');
    DecimalInjective(k, k');
  }

  ghost predicate DistinctNumbers(ns: seq<nat>) {
    forall i, j :: 0 <= i < j < |ns| ==> ns[i] != ns[j]
  }

  lemma {:induction false} RelatedKindsAt(f: Family, scope: nat, m: Matchers, kinds: seq<nat>)
    ensures |RelatedKinds(f, scope, m, kinds)| == |kinds|
    ensures forall i :: 0 <= i < |kinds| ==> RelatedKinds(f, scope, m, kinds)[i] == RelatedRule(f, scope, m, kinds[i])
  {
    if kinds != [] { RelatedKindsAt(f, scope, m, kinds[1..]); }
  }

  /** A related rule carries its scope and its kind in its comment. */
  lemma {:induction false} RelatedMember(f: Family, scopes: seq<Matchers>, i: nat, r: Rule) returns (s: nat, k: nat)
    requires i <= |scopes| && r in RelatedFrom(f, scopes, i)
    ensures i <= s < |scopes| && k in f.errors && r == RelatedRule(f, s, scopes[s], k)
    decreases |scopes| - i
  {
    if r in RelatedKinds(f, i, scopes[i], f.errors) {
      RelatedKindsAt(f, i, scopes[i], f.errors);
      var j :| 0 <= j < |f.errors| && RelatedKinds(f, i, scopes[i], f.errors)[j] == r;
      s, k := i, f.errors[j];
    } else {
      s, k := RelatedMember(f, scopes, i + 1, r);
    }
  }

  lemma RelatedDiffer(f: Family, s: nat, m: Matchers, k: nat, s': nat, m': Matchers, k': nat)
    requires s != s' || k != k'
    ensures RelatedRule(f, s, m, k).comment != RelatedRule(f, s', m', k').comment
  {
    if RelatedRule(f, s, m, k).comment == RelatedRule(f, s', m', k').comment {
      WordOf(f, RelatedWord(s, k), Accept, m);
      WordOf(f, RelatedWord(s', k'), Accept, m');
      DropPrefix(Prefix(f), RelatedWord(s, k), RelatedWord(s', k'));
      RelatedWordInjective(s, k, s', k');
    }
  }

  lemma {:induction false} RelatedDistinct(f: Family, scopes: seq<Matchers>, i: nat)
    requires i <= |scopes| && DistinctNumbers(f.errors)
    ensures DistinctComments(RelatedFrom(f, scopes, i))
    decreases |scopes| - i
  {
    if i < |scopes| {
      var a, b := RelatedKinds(f, i, scopes[i], f.errors), RelatedFrom(f, scopes, i + 1);
      RelatedDistinct(f, scopes, i + 1);
      RelatedKindsAt(f, i, scopes[i], f.errors);
      var c := a + b;
      forall x, y | 0 <= x < y < |c| ensures c[x].comment != c[y].comment {
        if y < |a| {
          RelatedDiffer(f, i, scopes[i], f.errors[x], i, scopes[i], f.errors[y]);
        } else if x >= |a| {
          assert c[x] == b[x - |a|] && c[y] == b[y - |a|];
        } else {
          var s, k := RelatedMember(f, scopes, i + 1, c[y]);
          RelatedDiffer(f, i, scopes[i], f.errors[x], s, scopes[s], k);
        }
      }
    }
  }

  lemma RelatedRanked(f: Family, scopes: seq<Matchers>)
    ensures Ranked(RelatedFrom(f, scopes, 0), Prefix(f), 2, 3)
  {
    forall r | r in RelatedFrom(f, scopes, 0)
      ensures Prefix(f) <= r.comment && Rank(r.comment[|Prefix(f)|..]) == 2
    {
      var s, k := RelatedMember(f, scopes, 0, r);
      WordOf(f, RelatedWord(s, k), Accept, scopes[s]);
      OneRanked(r, Prefix(f), RelatedWord(s, k));
      assert r in [r];
    }
  }

  lemma {:induction false} EchoAt(f: Family, allowPing: bool, kinds: seq<nat>)
    ensures |EchoRules(f, allowPing, kinds)| == |kinds|
    ensures forall i :: 0 <= i < |kinds| ==> EchoRules(f, allowPing, kinds)[i] == EchoRule(f, allowPing, kinds[i])
  {
    if kinds != [] { EchoAt(f, allowPing, kinds[1..]); }
  }

  lemma EchoWord(f: Family, allowPing: bool, kind: nat)
    ensures EchoRule(f, allowPing, kind).comment == Prefix(f) + ("echo " + Decimal(kind))
    ensures Ranked([EchoRule(f, allowPing, kind)], Prefix(f), 7, 8)
  {
  }

  lemma EchoDiffer(f: Family, allowPing: bool, x: nat, y: nat)
    requires x != y
    ensures EchoRule(f, allowPing, x).comment != EchoRule(f, allowPing, y).comment
  {
    EchoWord(f, allowPing, x);
    EchoWord(f, allowPing, y);
    NumbersDiffer("echo ", x, y);
    if EchoRule(f, allowPing, x).comment == EchoRule(f, allowPing, y).comment {
      DropPrefix(Prefix(f), "echo " + Decimal(x), "echo " + Decimal(y));
    }
  }

  lemma EchoDistinct(f: Family, allowPing: bool)
    requires DistinctNumbers(f.echo)
    ensures DistinctComments(EchoRules(f, allowPing, f.echo))
    ensures Ranked(EchoRules(f, allowPing, f.echo), Prefix(f), 7, 8)
  {
    var rules := EchoRules(f, allowPing, f.echo);
    EchoAt(f, allowPing, f.echo);
    forall i, j | 0 <= i < j < |rules| ensures rules[i].comment != rules[j].comment {
      EchoDiffer(f, allowPing, f.echo[i], f.echo[j]);
    }
    forall r | r in rules ensures Ranked([r], Prefix(f), 7, 8) {
      var i :| 0 <= i < |rules| && rules[i] == r;
      EchoWord(f, allowPing, f.echo[i]);
    }
    assert forall r :: r in rules ==> r in [r];
  }

  lemma TransportDistinct(f: Family)
    ensures DistinctComments(TransportRules(f)) && Ranked(TransportRules(f), Prefix(f), 0, 2)
  {
    var p := Prefix(f);
    WordOf(f, "tcp", Return, ANY.(protocol := Some("tcp")));
    WordOf(f, "udp", Return, ANY.(protocol := Some("udp")));
    OneRanked(TransportRule(f, "tcp"), p, "tcp");
    OneRanked(TransportRule(f, "udp"), p, "udp");
    RankApart([TransportRule(f, "tcp")], [TransportRule(f, "udp")], p, 0, 1, 2);
  }

  lemma BroadcastDistinct(f: Family)
    ensures DistinctComments(BroadcastRules(f)) && Ranked(BroadcastRules(f), Prefix(f), 4, 5)
  {
  }

  lemma DestinationsDistinct(f: Family)
    ensures DistinctComments(DestinationRules(f)) && Ranked(DestinationRules(f), Prefix(f), 3, 7)
  {
    var p, m, i, u := Prefix(f), MulticastRule(f), InternalRule(f), UnmanagedRule(f);
    WordOf(f, "multicast", m.action, m.matchers);
    WordOf(f, "internal", i.action, i.matchers);
    WordOf(f, "unmanaged", u.action, u.matchers);
    OneRanked(m, p, "multicast");
    OneRanked(i, p, "internal");
    OneRanked(u, p, "unmanaged");
    BroadcastDistinct(f);
    RankApart([m], BroadcastRules(f), p, 3, 4, 5);
    RankApart([i], [u], p, 5, 6, 7);
    RankApart([m] + BroadcastRules(f), [i] + [u], p, 3, 5, 7);
    assert [i] + [u] == [i, u];
  }

  lemma UnsupportedDistinct(f: Family)
    ensures DistinctComments([UnsupportedRule(f)]) && Ranked([UnsupportedRule(f)], Prefix(f), 8, 9)
  {
  }

  lemma FamilyDistinct(f: Family, containerIP: string, allowPing: bool)
    requires DistinctNumbers(f.errors) && DistinctNumbers(f.echo)
    ensures DistinctComments(FamilyRules(f, containerIP, allowPing))
    ensures Ranked(FamilyRules(f, containerIP, allowPing), Prefix(f), 0, 9)
  {
    var p, a, b, c, d := Prefix(f), TransportRules(f), RelatedFrom(f, Scopes(f, containerIP), 0),
                         DestinationRules(f), EchoRules(f, allowPing, f.echo);
    TransportDistinct(f);
    RelatedDistinct(f, Scopes(f, containerIP), 0);
    RelatedRanked(f, Scopes(f, containerIP));
    RankApart(a, b, p, 0, 2, 3);
    DestinationsDistinct(f);
    RankApart(a + b, c, p, 0, 3, 7);
    EchoDistinct(f, allowPing);
    RankApart(a + b + c, d, p, 0, 7, 8);
    UnsupportedDistinct(f);
    RankApart(a + b + c + d, [UnsupportedRule(f)], p, 0, 8, 9);
  }

  /** A family's rules all belong to its table and its chain. */
  lemma FamilyPlace(f: Family, containerIP: string, allowPing: bool, r: Rule)
    requires r in FamilyRules(f, containerIP, allowPing)
    ensures r.table == f.table && r.chain == f.chain
  {
    if r in RelatedFrom(f, Scopes(f, containerIP), 0) {
      var s, k := RelatedMember(f, Scopes(f, containerIP), 0, r);
    } else if r in EchoRules(f, allowPing, f.echo) {
      EchoAt(f, allowPing, f.echo);
    } else {
      assert r in TransportRules(f) || r in DestinationRules(f) || r == UnsupportedRule(f);
    }
  }

  // ----- The diversion rules

  lemma DivertWordsDiffer(a: Rule, b: Rule, v: string, w: string)
    requires a.comment == OWNED + ("divert " + v) && b.comment == OWNED + ("divert " + w) && v != w
    ensures a.comment != b.comment
  {
    if a.comment == b.comment {
      DropPrefix(OWNED, "divert " + v, "divert " + w);
      DropPrefix("divert ", v, w);
    }
  }

  lemma NumbersDiffer(word: string, x: nat, y: nat)
    requires x != y
    ensures word + Decimal(x) != word + Decimal(y)
  {
    if word + Decimal(x) == word + Decimal(y) {
      DropPrefix(word, Decimal(x), Decimal(y));
      DecimalInjective(x, y);
    }
  }

  function DivertWords(): seq<string> {
    ["related " + Decimal(3), "related " + Decimal(11), "related " + Decimal(12),
     "echo " + Decimal(8), "echo " + Decimal(0), "multicast", "broadcast"]
  }

  lemma DivertWordsDistinct(i: nat, j: nat)
    requires i < j < |DivertWords()|
    ensures DivertWords()[i] != DivertWords()[j]
  {
    NumbersDiffer("related ", 3, 11);
    NumbersDiffer("related ", 3, 12);
    NumbersDiffer("related ", 11, 12);
    NumbersDiffer("echo ", 8, 0);
    var ws := DivertWords();
    assert ws[0][0] == ws[1][0] == ws[2][0] == 'r';
    assert ws[3][0] == ws[4][0] == 'e';
    assert ws[5][0] == 'm' && ws[6][0] == 'b';
  }

  lemma DivertDistinct(allowPing: bool)
    ensures DistinctComments(DivertRules(allowPing))
  {
    var rules := DivertRules(allowPing);
    forall i, j | 0 <= i < j < |rules| ensures rules[i].comment != rules[j].comment {
      DivertWordsDistinct(i, j);
      DivertWordsDiffer(rules[i], rules[j], DivertWords()[i], DivertWords()[j]);
    }
  }

  // ----- Table by table

  lemma {:induction false} AllAt(rules: seq<Rule>, n: TableName)
    requires forall r :: r in rules ==> r.table == n
    ensures RulesAt(rules, n) == rules
  {
    if rules != [] {
      assert rules[0] in rules;
      AllAt(rules[1..], n);
    }
  }

  lemma {:induction false} NoneAt(rules: seq<Rule>, n: TableName)
    requires forall r :: r in rules ==> r.table != n
    ensures RulesAt(rules, n) == []
  {
    if rules != [] {
      assert rules[0] in rules;
      NoneAt(rules[1..], n);
    }
  }

  lemma FamilyAt(f: Family, containerIP: string, allowPing: bool, n: TableName)
    ensures RulesAt(FamilyRules(f, containerIP, allowPing), n)
            == if n == f.table then FamilyRules(f, containerIP, allowPing) else []
  {
    forall r | r in FamilyRules(f, containerIP, allowPing) ensures r.table == f.table {
      FamilyPlace(f, containerIP, allowPing, r);
    }
    if n == f.table {
      AllAt(FamilyRules(f, containerIP, allowPing), n);
    } else {
      NoneAt(FamilyRules(f, containerIP, allowPing), n);
    }
  }

  /** What the policy owns in each table. */
  function TableRules(containerIP: string, allowPing: bool, n: TableName): seq<Rule> {
    match n
    case Filter4 => FamilyRules(V4, containerIP, allowPing) + [JUMP4]
    case Filter6 => FamilyRules(V6, containerIP, allowPing) + [JUMP6]
    case Mangle4 => DivertRules(allowPing)
  }

  lemma PairAt(x: Rule, y: Rule, n: TableName)
    ensures RulesAt([x, y], n) == (if x.table == n then [x] else []) + (if y.table == n then [y] else [])
  {
    RulesAtCons([x, y], n);
    RulesAtCons([y], n);
    assert [x, y][1..] == [y] && [y][1..] == [];
  }

  lemma FourAt(a: seq<Rule>, b: seq<Rule>, c: seq<Rule>, d: seq<Rule>, n: TableName)
    ensures RulesAt(a + b + c + d, n) == RulesAt(a, n) + RulesAt(b, n) + RulesAt(c, n) + RulesAt(d, n)
  {
    RulesAtConcat(a + b + c, d, n);
    RulesAtConcat(a + b, c, n);
    RulesAtConcat(a, b, n);
  }

  lemma PartsAt(a: seq<Rule>, b: seq<Rule>, c: seq<Rule>, x: Rule, y: Rule, n: TableName)
    requires RulesAt(a, n) == if n == Filter4 then a else []
    requires RulesAt(b, n) == if n == Filter6 then b else []
    requires RulesAt(c, n) == if n == Mangle4 then c else []
    requires x.table == Filter4 && y.table == Filter6
    ensures RulesAt(a + b + c + [x, y], n) ==
            match n case Filter4 => a + [x] case Filter6 => b + [y] case Mangle4 => c
  {
    FourAt(a, b, c, [x, y], n);
    PairAt(x, y, n);
  }

  lemma DivertPlace(allowPing: bool, r: Rule)
    requires r in DivertRules(allowPing)
    ensures r.table == Mangle4 && r.chain == DIVERT
  {
  }

  lemma DivertAt(allowPing: bool, n: TableName)
    ensures RulesAt(DivertRules(allowPing), n) == if n == Mangle4 then DivertRules(allowPing) else []
  {
    forall r | r in DivertRules(allowPing) ensures r.table == Mangle4 { DivertPlace(allowPing, r); }
    if n == Mangle4 { AllAt(DivertRules(allowPing), n); } else { NoneAt(DivertRules(allowPing), n); }
  }

  lemma PolicyAt(containerIP: string, allowPing: bool, n: TableName)
    ensures RulesAt(PolicyRules(containerIP, allowPing), n) == TableRules(containerIP, allowPing, n)
  {
    FamilyAt(V4, containerIP, allowPing, n);
    FamilyAt(V6, containerIP, allowPing, n);
    DivertAt(allowPing, n);
    PartsAt(FamilyRules(V4, containerIP, allowPing), FamilyRules(V6, containerIP, allowPing),
            DivertRules(allowPing), JUMP4, JUMP6, n);
  }

  lemma LastApart(rules: seq<Rule>, last: Rule)
    requires DistinctComments(rules) && forall r :: r in rules ==> r.comment != last.comment
    ensures DistinctComments(rules + [last])
  {
  }

  /** A jump's comment and a family's comments differ in the first letter after the mark. */
  lemma JumpApart(f: Family, containerIP: string, allowPing: bool, jump: Rule, word: string)
    requires DistinctNumbers(f.errors) && DistinctNumbers(f.echo)
    requires |f.proto| > 0 && f.proto[0] == 'i' && |word| > 0 && word[0] == 'f' && jump.comment == OWNED + word
    ensures DistinctComments(FamilyRules(f, containerIP, allowPing) + [jump])
  {
    FamilyDistinct(f, containerIP, allowPing);
    var rules, k := FamilyRules(f, containerIP, allowPing), |OWNED|;
    forall r | r in rules ensures r.comment != jump.comment {
      assert Prefix(f) <= r.comment;
      assert r.comment[k] == Prefix(f)[k] == f.proto[0];
      assert jump.comment[k] == word[0];
    }
    LastApart(rules, jump);
  }

  lemma V4Distinct(containerIP: string, allowPing: bool)
    ensures DistinctComments(FamilyRules(V4, containerIP, allowPing) + [JUMP4])
  {
    JumpApart(V4, containerIP, allowPing, JUMP4, "forward v4 jump");
  }

  lemma V6Distinct(containerIP: string, allowPing: bool)
    ensures DistinctComments(FamilyRules(V6, containerIP, allowPing) + [JUMP6])
  {
    JumpApart(V6, containerIP, allowPing, JUMP6, "forward v6 jump");
  }

  lemma TableDistinct(containerIP: string, allowPing: bool, n: TableName)
    ensures DistinctComments(TableRules(containerIP, allowPing, n))
  {
    match n
    case Filter4 => V4Distinct(containerIP, allowPing);
    case Filter6 => V6Distinct(containerIP, allowPing);
    case Mangle4 => DivertDistinct(allowPing);
  }

  /** No comment occurs twice in a table. */
  lemma PolicyDistinct(containerIP: string, allowPing: bool)
    ensures DistinctPerTable(PolicyRules(containerIP, allowPing))
  {
    forall n: TableName ensures DistinctComments(RulesAt(PolicyRules(containerIP, allowPing), n)) {
      PolicyAt(containerIP, allowPing, n);
      TableDistinct(containerIP, allowPing, n);
    }
  }

  lemma TableGrouped(containerIP: string, allowPing: bool, n: TableName)
    ensures Grouped(TableRules(containerIP, allowPing, n))
  {
    match n
    case Filter4 => V4Grouped(containerIP, allowPing);
    case Filter6 => V6Grouped(containerIP, allowPing);
    case Mangle4 => DivertGrouped(allowPing);
  }

  lemma V4Grouped(containerIP: string, allowPing: bool)
    ensures Grouped(FamilyRules(V4, containerIP, allowPing) + [JUMP4])
  {
    ChainsDiffer();
    FamilyGrouped(V4, containerIP, allowPing, JUMP4);
  }

  lemma V6Grouped(containerIP: string, allowPing: bool)
    ensures Grouped(FamilyRules(V6, containerIP, allowPing) + [JUMP6])
  {
    ChainsDiffer();
    FamilyGrouped(V6, containerIP, allowPing, JUMP6);
  }

  lemma DivertGrouped(allowPing: bool)
    ensures Grouped(DivertRules(allowPing))
  {
    forall r | r in DivertRules(allowPing) ensures r.chain == DIVERT { DivertPlace(allowPing, r); }
    OneGroup(DivertRules(allowPing), DIVERT);
  }

  /** Each table holds one protocol block and one jump, or the diversion block alone. */
  lemma PolicyGrouped(containerIP: string, allowPing: bool)
    ensures GroupedTables(PolicyRules(containerIP, allowPing))
  {
    forall n: TableName ensures Grouped(RulesAt(PolicyRules(containerIP, allowPing), n)) {
      PolicyAt(containerIP, allowPing, n);
      TableGrouped(containerIP, allowPing, n);
    }
  }

  lemma ChainsDiffer()
    ensures V4.chain != FORWARD4 && V6.chain != FORWARD6
  {
  }

  lemma OneGroup(rules: seq<Rule>, chain: string)
    requires forall r :: r in rules ==> r.chain == chain
    ensures Grouped(rules)
  {
    var n, other := |rules|, chain + "x";
    assert rules[..n] == rules && rules[n..] == [] && other != chain by { assert |other| != |chain|; }
    assert OneChain(rules[..n], chain) && OneChain(rules[n..], other);
  }

  lemma FamilyGrouped(f: Family, containerIP: string, allowPing: bool, jump: Rule)
    requires f.chain != jump.chain
    ensures Grouped(FamilyRules(f, containerIP, allowPing) + [jump])
  {
    var block := FamilyRules(f, containerIP, allowPing);
    var rules := block + [jump];
    assert rules[..|block|] == block && rules[|block|..] == [jump];
    forall r | r in block ensures r.chain == f.chain { FamilyPlace(f, containerIP, allowPing, r); }
    assert OneChain(rules[..|block|], f.chain) && OneChain(rules[|block|..], jump.chain);
  }

  lemma MarkedIsOwned(comment: string)
    requires OWNED <= comment
    ensures Owned(comment)
  {
  }

  /** Every comment carries the owner's mark. */
  ghost predicate AllMarked(rules: seq<Rule>) { forall r :: r in rules ==> Owned(r.comment) }

  lemma MarkedConcat(a: seq<Rule>, b: seq<Rule>, c: seq<Rule>, d: seq<Rule>)
    requires AllMarked(a) && AllMarked(b) && AllMarked(c) && AllMarked(d)
    ensures AllMarked(a + b + c + d)
  {
  }

  lemma FamilyOwned(f: Family, containerIP: string, allowPing: bool)
    requires DistinctNumbers(f.errors) && DistinctNumbers(f.echo)
    ensures AllMarked(FamilyRules(f, containerIP, allowPing))
  {
    FamilyDistinct(f, containerIP, allowPing);
    forall r | r in FamilyRules(f, containerIP, allowPing) ensures Owned(r.comment) {
      MarkedPrefix(f, r.comment);
      MarkedIsOwned(r.comment);
    }
  }

  lemma DivertOwned(allowPing: bool)
    ensures AllMarked(DivertRules(allowPing))
  {
    forall r | r in DivertRules(allowPing) ensures Owned(r.comment) { MarkedIsOwned(r.comment); }
  }

  lemma JumpsOwned()
    ensures AllMarked([JUMP4, JUMP6])
  {
  }

  lemma PartsOwned(rules: seq<Rule>, f: Family, g: Family, containerIP: string, allowPing: bool, jumps: seq<Rule>)
    requires rules == FamilyRules(f, containerIP, allowPing) + FamilyRules(g, containerIP, allowPing)
                      + DivertRules(allowPing) + jumps
    requires DistinctNumbers(f.errors) && DistinctNumbers(f.echo) && DistinctNumbers(g.errors) && DistinctNumbers(g.echo)
    requires AllMarked(jumps)
    ensures AllMarked(rules)
  {
    FamilyOwned(f, containerIP, allowPing);
    FamilyOwned(g, containerIP, allowPing);
    DivertOwned(allowPing);
    MarkedConcat(FamilyRules(f, containerIP, allowPing), FamilyRules(g, containerIP, allowPing), DivertRules(allowPing), jumps);
  }

  lemma NumbersDistinct()
    ensures DistinctNumbers(V4.errors) && DistinctNumbers(V4.echo) && DistinctNumbers(V6.errors) && DistinctNumbers(V6.echo)
  {
  }

  /** Every generated comment carries the owner's mark. */
  lemma PolicyOwned(containerIP: string, allowPing: bool)
    ensures AllMarked(PolicyRules(containerIP, allowPing))
  {
    JumpsOwned();
    NumbersDistinct();
    PartsOwned(PolicyRules(containerIP, allowPing), V4, V6, containerIP, allowPing, [JUMP4, JUMP6]);
  }

  lemma MarkedPrefix(f: Family, comment: string)
    requires Prefix(f) <= comment
    ensures OWNED <= comment
  {
  }
}
