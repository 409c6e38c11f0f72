/**
 The ping switch: what turning it over changes in the verdicts of the protocol chains, from any start.
 */
module PolicySwitch {
  import opened FirewallTable
  import opened PolicyScript
  import opened Reconciliation
  import opened Ordering
  import opened Reconfiguration
  import opened ProtocolPolicy
  import opened PolicyLayout
  import opened PacketFilter
  import opened PolicyDecision
  import opened PolicyCarryover
  import opened PolicyTheorems
  import opened PolicyHistory

  /** The same rules, up to their actions. */
  ghost predicate OnlyActions(a: seq<Rule>, b: seq<Rule>) {
    |a| == |b| && forall i :: 0 <= i < |a| ==> b[i] == a[i].(action := b[i].action)
  }

  predicate IsEchoRule(f: Family, r: Rule) { exists k :: k in f.echo && r == EchoRule(f, true, k) }

  lemma UnchangedRules(f: Family, containerIP: string, r: Rule)
    requires r in TransportRules(f) + RelatedFrom(f, Scopes(f, containerIP), 0) + DestinationRules(f) || r == UnsupportedRule(f)
    requires DistinctNumbers(f.errors) && DistinctNumbers(f.echo)
    ensures !IsEchoRule(f, r)
  {
    TransportDistinct(f);
    RelatedRanked(f, Scopes(f, containerIP));
    DestinationsDistinct(f);
    UnsupportedDistinct(f);
    forall k | k in f.echo ensures r != EchoRule(f, true, k) { EchoWord(f, true, k); }
  }

  lemma EchoSwitch(f: Family, i: nat)
    requires i < |f.echo|
    ensures |EchoRules(f, true, f.echo)| == |EchoRules(f, false, f.echo)| == |f.echo|
    ensures var on, off := EchoRules(f, true, f.echo)[i], EchoRules(f, false, f.echo)[i];
            off == on.(action := off.action) && on.action != off.action && IsEchoRule(f, on)
  {
    EchoAt(f, true, f.echo);
    EchoAt(f, false, f.echo);
  }

  lemma Around(pre: seq<Rule>, a: seq<Rule>, b: seq<Rule>, last: Rule, i: nat)
    requires |a| == |b| && i < |pre| + |a| + 1
    ensures var x, y := pre + a + [last], pre + b + [last];
            if i < |pre| then x[i] == pre[i] && y[i] == pre[i]
            else if i < |pre| + |a| then x[i] == a[i - |pre|] && y[i] == b[i - |pre|]
            else x[i] == last && y[i] == last
  {
  }

  /** The switch changes the actions of the echo rules and nothing else. */
  lemma SwitchedRules(f: Family, containerIP: string)
    requires DistinctNumbers(f.errors) && DistinctNumbers(f.echo)
    ensures var on, off := FamilyRules(f, containerIP, true), FamilyRules(f, containerIP, false);
            && OnlyActions(on, off)
            && forall i :: 0 <= i < |on| ==> (on[i].action != off[i].action <==> IsEchoRule(f, on[i]))
  {
    var pre := TransportRules(f) + RelatedFrom(f, Scopes(f, containerIP), 0) + DestinationRules(f);
    var a, b, last := EchoRules(f, true, f.echo), EchoRules(f, false, f.echo), UnsupportedRule(f);
    EchoAt(f, true, f.echo);
    EchoAt(f, false, f.echo);
    forall i: nat | i < |pre| + |a| + 1
      ensures var x, y := (pre + a + [last])[i], (pre + b + [last])[i];
              y == x.(action := y.action) && (x.action != y.action <==> IsEchoRule(f, x))
    {
      Around(pre, a, b, last, i);
      if |pre| <= i < |pre| + |a| {
        EchoSwitch(f, i - |pre|);
      } else {
        UnchangedRules(f, containerIP, (pre + a + [last])[i]);
      }
    }
  }

  lemma SameFirst(on: seq<Rule>, off: seq<Rule>, before: seq<Row>, p: Packet)
    requires OnlyActions(on, off)
    ensures FirstIndex(CarriedAll(on, before), p) == FirstIndex(CarriedAll(off, before), p)
    ensures Comments(on) == Comments(off)
  {
    var a, b := CarriedAll(on, before), CarriedAll(off, before);
    forall i | 0 <= i < |on| ensures Applies(a[i], p) == Applies(b[i], p) && on[i].comment == off[i].comment {
      assert off[i] == on[i].(action := off[i].action);
    }
    SameComments(on, off);
  }

  lemma SameComments(a: seq<Rule>, b: seq<Rule>)
    requires |a| == |b| && forall i :: 0 <= i < |a| ==> a[i].comment == b[i].comment
    ensures Comments(a) == Comments(b)
  {
    forall c | c in Comments(a) ensures c in Comments(b) {
      var i :| 0 <= i < |a| && a[i].comment == c;
      assert b[i] in b;
    }
    forall c | c in Comments(b) ensures c in Comments(a) {
      var i :| 0 <= i < |b| && b[i].comment == c;
      assert a[i] in a;
    }
  }

  /** One successful setting makes both succeed, and one clean setting makes both clean. */
  lemma BothSettings(containerIP: string, ping: bool, ts: Tables)
    requires ts.Valid() && Run(Source(containerIP, ping), ts).Completed?
    ensures Run(Source(containerIP, true), ts).Completed? && Run(Source(containerIP, false), ts).Completed?
  {
    OneReconfiguration(Config(containerIP, ping), Config(containerIP, true), ts);
    OneReconfiguration(Config(containerIP, ping), Config(containerIP, false), ts);
  }

  lemma AlikeNoStray(a: seq<Rule>, b: seq<Rule>, before: seq<Row>)
    requires AllAlike(a, b) && NoStray(a, before)
    ensures NoStray(b, before)
  {
    forall r, row | r in b && row in before && row.comment == r.comment ensures NoStrayMatcher(row.matchers, r.matchers) {
      var i :| 0 <= i < |b| && b[i] == r;
      assert Alike(a[i], b[i]) && a[i] in a;
    }
  }

  lemma BothClean(containerIP: string, ping: bool, other: bool, ts: Tables)
    requires Clean(containerIP, ping, ts)
    ensures Clean(containerIP, other, ts)
  {
    forall n: TableName ensures NoStray(TableRules(containerIP, other, n), ts.At(n).rows) {
      TableAlike(containerIP, ping, containerIP, other, n);
      AlikeNoStray(TableRules(containerIP, ping, n), TableRules(containerIP, other, n), ts.At(n).rows);
    }
  }

  /** Outside the protocol chain both settings compose the same rows. */
  lemma SameElsewhere(f: Family, containerIP: string, before: seq<Row>, c: string)
    requires (f == V4 || f == V6) && c != f.chain
    ensures var on, off := TableRules(containerIP, true, f.table), TableRules(containerIP, false, f.table);
            Foreign(on, before) == Foreign(off, before)
            && Keep(Composed(on, before), InChain(c)) == Keep(Composed(off, before), InChain(c))
  {
    var on, off := TableRules(containerIP, true, f.table), TableRules(containerIP, false, f.table);
    TableAlike(containerIP, true, containerIP, false, f.table);
    SameComments(on, off);
    ComposedChain(on, before, c);
    ComposedChain(off, before, c);
    RulesElsewhere(f, containerIP, true, c);
    RulesElsewhere(f, containerIP, false, c);
  }

  lemma RulesElsewhere(f: Family, containerIP: string, allowPing: bool, c: string)
    requires (f == V4 || f == V6) && c != f.chain
    ensures RulesOf(TableRules(containerIP, allowPing, f.table), c) == if c == JumpOf(f).chain then [JumpOf(f)] else []
  {
    FamilyChains(f, containerIP, allowPing);
    if c != JumpOf(f).chain {
      forall r | r in TableRules(containerIP, allowPing, f.table) ensures r.chain != c {
        if r in FamilyRules(f, containerIP, allowPing) { FamilyPlace(f, containerIP, allowPing, r); }
      }
      NoRulesOf(TableRules(containerIP, allowPing, f.table), c);
    }
  }

  /** What follows the rules in the protocol chain decides alike under both settings. */
  lemma SameRest(f: Family, containerIP: string, before: seq<Row>, p: Packet)
    requires f == V4 || f == V6
    ensures var on, off := TableRules(containerIP, true, f.table), TableRules(containerIP, false, f.table);
            var rest := Keep(Foreign(on, before), InChain(f.chain));
            && rest == Keep(Foreign(off, before), InChain(f.chain))
            && (forall row :: row in rest ==> row in Composed(on, before) && row in Composed(off, before))
            && Walk(Composed(on, before), rest, p, {f.chain}) == Walk(Composed(off, before), rest, p, {f.chain})
  {
    var on, off := TableRules(containerIP, true, f.table), TableRules(containerIP, false, f.table);
    FamilyChains(f, containerIP, true);
    SameElsewhere(f, containerIP, before, JumpOf(f).chain);
    RestIsPart(on, before, f.chain);
    RestIsPart(off, before, f.chain);
    forall c | c != f.chain ensures Keep(Composed(on, before), InChain(c)) == Keep(Composed(off, before), InChain(c)) {
      SameElsewhere(f, containerIP, before, c);
    }
    var rest := Keep(Foreign(on, before), InChain(f.chain));
    WalkByCourse(Composed(on, before), Composed(off, before), rest, rest, p, {f.chain});
  }

  lemma VerdictAtRule(f: Family, containerIP: string, allowPing: bool, ts: Tables, p: Packet, j: nat)
    requires f == V4 || f == V6
    requires ts.Valid() && Run(Source(containerIP, allowPing), ts).Completed?
    requires var own := FamilyRules(f, containerIP, allowPing);
             j < |own| && j == FirstIndex(CarriedAll(own, ts.At(f.table).rows), p)
    ensures var action := FamilyRules(f, containerIP, allowPing)[j].action;
            Final(action)
            && Evaluate(Run(Source(containerIP, allowPing), ts).tables.At(f.table).rows, f.chain, p) == VerdictOf(action)
  {
    PolicyVerdictExactly(f, containerIP, allowPing, ts, p);
  }

  lemma SwitchedPolicy(f: Family, containerIP: string)
    requires f == V4 || f == V6
    ensures var on, off := FamilyRules(f, containerIP, true), FamilyRules(f, containerIP, false);
            && OnlyActions(on, off)
            && forall i :: 0 <= i < |on| ==> (on[i].action != off[i].action <==> IsEchoRule(f, on[i]))
  {
    NumbersDistinct();
    SwitchedRules(f, containerIP);
  }

  /** A packet meets the same rule under both settings. */
  lemma SwitchedFirst(f: Family, containerIP: string, before: seq<Row>, p: Packet)
    requires f == V4 || f == V6
    ensures var on, off := FamilyRules(f, containerIP, true), FamilyRules(f, containerIP, false);
            var j := FirstIndex(CarriedAll(on, before), p);
            && |on| == |off| && j == FirstIndex(CarriedAll(off, before), p)
            && (j < |on| ==> (on[j].action != off[j].action <==> IsEchoRule(f, on[j])))
  {
    SwitchedPolicy(f, containerIP);
    SameFirst(FamilyRules(f, containerIP, true), FamilyRules(f, containerIP, false), before, p);
  }

  lemma SwitchAtRule(f: Family, containerIP: string, ts: Tables, p: Packet, j: nat)
    requires f == V4 || f == V6
    requires ts.Valid() && Run(Source(containerIP, true), ts).Completed? && Run(Source(containerIP, false), ts).Completed?
    requires var on, off := FamilyRules(f, containerIP, true), FamilyRules(f, containerIP, false);
             && j < |on| == |off| && j == FirstIndex(CarriedAll(on, ts.At(f.table).rows), p)
             && j == FirstIndex(CarriedAll(off, ts.At(f.table).rows), p)
    ensures Evaluate(Run(Source(containerIP, true), ts).tables.At(f.table).rows, f.chain, p)
            != Evaluate(Run(Source(containerIP, false), ts).tables.At(f.table).rows, f.chain, p) <==>
            FamilyRules(f, containerIP, true)[j].action != FamilyRules(f, containerIP, false)[j].action
  {
    VerdictAtRule(f, containerIP, true, ts, p, j);
    VerdictAtRule(f, containerIP, false, ts, p, j);
  }

  lemma VerdictAtRest(f: Family, containerIP: string, ts: Tables, p: Packet)
    requires f == V4 || f == V6
    requires ts.Valid() && Run(Source(containerIP, true), ts).Completed? && Run(Source(containerIP, false), ts).Completed?
    requires var on, off := FamilyRules(f, containerIP, true), FamilyRules(f, containerIP, false);
             && FirstIndex(CarriedAll(on, ts.At(f.table).rows), p) == |on|
             && FirstIndex(CarriedAll(off, ts.At(f.table).rows), p) == |off|
    ensures Evaluate(Run(Source(containerIP, true), ts).tables.At(f.table).rows, f.chain, p)
            == Evaluate(Run(Source(containerIP, false), ts).tables.At(f.table).rows, f.chain, p)
  {
    PolicyVerdictExactly(f, containerIP, true, ts, p);
    PolicyVerdictExactly(f, containerIP, false, ts, p);
    SameRest(f, containerIP, ts.At(f.table).rows, p);
  }

  /** From any accepted start, both settings succeed, and a packet meets the same rule under both; its
      verdict differs exactly when that is an echo rule. */
  lemma PolicySwitchExactly(f: Family, containerIP: string, ping: bool, ts: Tables, p: Packet)
    requires f == V4 || f == V6
    requires ts.Valid() && Run(Source(containerIP, ping), ts).Completed?
    ensures Run(Source(containerIP, true), ts).Completed? && Run(Source(containerIP, false), ts).Completed?
    ensures var on, off := Run(Source(containerIP, true), ts).tables, Run(Source(containerIP, false), ts).tables;
            var own, before := FamilyRules(f, containerIP, true), ts.At(f.table).rows;
            var j := FirstIndex(CarriedAll(own, before), p);
            && j == FirstIndex(CarriedAll(FamilyRules(f, containerIP, false), before), p)
            && (Evaluate(on.At(f.table).rows, f.chain, p) != Evaluate(off.At(f.table).rows, f.chain, p) <==>
                  j < |own| && IsEchoRule(f, own[j]))
  {
    var own, before := FamilyRules(f, containerIP, true), ts.At(f.table).rows;
    BothSettings(containerIP, ping, ts);
    SwitchedFirst(f, containerIP, before, p);
    var j := FirstIndex(CarriedAll(own, before), p);
    if j < |own| {
      SwitchAtRule(f, containerIP, ts, p, j);
    } else {
      VerdictAtRest(f, containerIP, ts, p);
    }
  }

  /** From a clean start, turning the switch over changes a protocol chain's verdict exactly for outbound
      echo packets of managed clients, and never for related errors. */
  lemma PolicySwitch(f: Family, containerIP: string, ping: bool, ts: Tables, p: Packet)
    requires f == V4 || f == V6
    requires ts.Valid() && Run(Source(containerIP, ping), ts).Completed? && Clean(containerIP, ping, ts)
    ensures Run(Source(containerIP, true), ts).Completed? && Run(Source(containerIP, false), ts).Completed?
    ensures var on, off := Run(Source(containerIP, true), ts).tables, Run(Source(containerIP, false), ts).tables;
            Evaluate(on.At(f.table).rows, f.chain, p) != Evaluate(off.At(f.table).rows, f.chain, p) <==>
            && IsEcho(f, p) && !IsTransport(p) && !IsRelatedError(f, p) && FromManaged(f, p)
            && !ToInternal(f, p) && !ToMulticast(f, p) && !ManagedBroadcast(f, p)
  {
    BothSettings(containerIP, ping, ts);
    BothClean(containerIP, ping, true, ts);
    BothClean(containerIP, ping, false, ts);
    PolicyDecidesPackets(f, containerIP, true, ts, p);
    PolicyDecidesPackets(f, containerIP, false, ts, p);
    PingSwitch(f, containerIP, p);
  }
}
