/**
 The policy as a whole: from the emitted script, through the tables it leaves behind, to the
 verdict every packet gets.
 */
module PolicyTheorems {
  import opened Options
  import opened FirewallTable
  import opened PolicyScript
  import opened Reconciliation
  import opened Ordering
  import opened Settling
  import opened ScriptTheorems
  import opened ProtocolPolicy
  import opened PolicyLayout
  import opened PacketFilter
  import opened PolicyDecision
  import opened PolicyCarryover

  /** The emitted script, as the generator method is proved to produce it. */
  function Source(containerIP: string, allowPing: bool): seq<Command> {
    Script(GUARDED, PolicyRules(containerIP, allowPing))
  }

  lemma PolicyRuns(containerIP: string, allowPing: bool, ts: Tables)
    requires ts.Valid()
    ensures Run(Source(containerIP, allowPing), ts).Completed? <==>
              GuardsPass(GUARDED, ts) && UnambiguousTables(PolicyRules(containerIP, allowPing), ts)
    ensures Run(Source(containerIP, allowPing), ts).Completed? ==>
              forall n: TableName :: TableReconciled(TableRules(containerIP, allowPing, n), ts.At(n),
                                                     Run(Source(containerIP, allowPing), ts).tables.At(n))
  {
    PolicyDistinct(containerIP, allowPing);
    ScriptReconciles(GUARDED, PolicyRules(containerIP, allowPing), ts);
    forall n: TableName ensures RulesAt(PolicyRules(containerIP, allowPing), n) == TableRules(containerIP, allowPing, n) {
      PolicyAt(containerIP, allowPing, n);
    }
  }

  ghost predicate ProtocolChainsMarked(ts: Tables) {
    Marked(ts.filter4.rows, "sb-gateway-protocol-v4") && Marked(ts.filter6.rows, "sb-gateway-protocol-v6")
  }

  /** No two rows carry the label of the same rule. */
  ghost predicate AtMostOnce(rules: seq<Rule>, rows: seq<Row>) {
    forall r, i, j :: r in rules && 0 <= i < j < |rows| && rows[i].comment == r.comment ==> rows[j].comment != r.comment
  }

  lemma GuardsMarked(ts: Tables)
    ensures GuardsPass(GUARDED, ts) <==> ProtocolChainsMarked(ts)
  {
    OwnedChain(ts.filter4.rows, "sb-gateway-protocol-v4");
    OwnedChain(ts.filter6.rows, "sb-gateway-protocol-v6");
    assert GUARDED[0] in GUARDED && GUARDED[1] in GUARDED;
  }

  lemma {:induction false} LabelledOnce(rows: seq<Row>, comment: string)
    ensures |Keep(rows, Labelled({comment}))| <= 1 <==>
              forall i, j :: 0 <= i < j < |rows| && rows[i].comment == comment ==> rows[j].comment != comment
  {
    if rows != [] {
      var rest := rows[1..];
      LabelledOnce(rest, comment);
      if rows[0].comment == comment {
        forall row ensures row in Keep(rest, Labelled({comment})) <==> row in rest && row.comment == comment {
          KeepMember(rest, Labelled({comment}), row);
        }
        if Keep(rest, Labelled({comment})) != [] {
          var row := Keep(rest, Labelled({comment}))[0];
          assert row in Keep(rest, Labelled({comment}));
          var j :| 0 <= j < |rest| && rest[j] == row;
          assert rows[j + 1].comment == comment;
        }
      }
      assert forall i :: 0 <= i < |rest| ==> rest[i] == rows[i + 1];
    }
  }

  lemma UnambiguousExactly(rules: seq<Rule>, rows: seq<Row>)
    ensures Unambiguous(rules, rows) <==> AtMostOnce(rules, rows)
  {
    forall r | r in rules
      ensures |LabelledRows(rows, r)| <= 1 <==>
                forall i, j :: 0 <= i < j < |rows| && rows[i].comment == r.comment ==> rows[j].comment != r.comment
    {
      LabelledOnce(rows, r.comment);
    }
  }

  /** From every start whose protocol chains hold marked rules only and where no label occurs twice in a
      table, and from no other, the script succeeds; every chain of every table then starts with its
      generated rules in generation order. */
  lemma PolicyReconciles(containerIP: string, allowPing: bool, ts: Tables)
    requires ts.Valid()
    ensures Run(Source(containerIP, allowPing), ts).Completed? <==>
              && ProtocolChainsMarked(ts)
              && forall n: TableName :: AtMostOnce(TableRules(containerIP, allowPing, n), ts.At(n).rows)
    ensures Run(Source(containerIP, allowPing), ts).Completed? ==>
              forall n: TableName :: TableReconciled(TableRules(containerIP, allowPing, n), ts.At(n),
                                                     Run(Source(containerIP, allowPing), ts).tables.At(n))
  {
    PolicyRuns(containerIP, allowPing, ts);
    GuardsMarked(ts);
    forall n: TableName
      ensures Unambiguous(RulesAt(PolicyRules(containerIP, allowPing), n), ts.At(n).rows) <==>
                AtMostOnce(TableRules(containerIP, allowPing, n), ts.At(n).rows)
    {
      PolicyAt(containerIP, allowPing, n);
      UnambiguousExactly(TableRules(containerIP, allowPing, n), ts.At(n).rows);
    }
  }

  /** An unmarked rule in a protocol chain stops the script with every table untouched; any other
      failure is an ambiguous comment, found before the first move. In no run do foreign rows
      change or swap places. */
  lemma PolicyFailsSafely(containerIP: string, allowPing: bool, ts: Tables)
    requires ts.Valid()
    ensures !ProtocolChainsMarked(ts) ==>
              Run(Source(containerIP, allowPing), ts) == Aborted(ts, "SB-GATEWAY protocol chain contains an unowned rule")
    ensures Run(Source(containerIP, allowPing), ts).Aborted? && ProtocolChainsMarked(ts) ==>
              && Run(Source(containerIP, allowPing), ts).error == "SB-GATEWAY protocol rule is ambiguous"
              && Run(Source(containerIP, allowPing), ts) == Run(Upserts(PolicyRules(containerIP, allowPing)), ts)
    ensures ForeignKept(Comments(PolicyRules(containerIP, allowPing)), ts, Run(Source(containerIP, allowPing), ts).tables)
  {
    PolicyDistinct(containerIP, allowPing);
    GuardsMarked(ts);
    AbortsBeforeMoves(GUARDED, PolicyRules(containerIP, allowPing), ts);
    ForeignRowsSurvive(GUARDED, PolicyRules(containerIP, allowPing), ts);
  }

  /** Running the script on its own result leaves every table equal, row by row. */
  lemma PolicyIdempotent(containerIP: string, allowPing: bool, ts: Tables)
    requires ts.Valid() && Run(Source(containerIP, allowPing), ts).Completed?
    ensures var after := Run(Source(containerIP, allowPing), ts).tables;
            Run(Source(containerIP, allowPing), after) == Completed(after)
  {
    PolicyDistinct(containerIP, allowPing);
    PolicyGrouped(containerIP, allowPing);
    PolicyOwned(containerIP, allowPing);
    SecondRunChangesNothing(GUARDED, PolicyRules(containerIP, allowPing), ts);
  }

  // ----- Verdicts of the protocol chains

  lemma {:induction false} RulesOfBlock(block: seq<Rule>, last: Rule, chain: string)
    requires OneChain(block, chain) && last.chain != chain
    ensures RulesOf(block + [last], chain) == block
    ensures RulesOf(block + [last], last.chain) == [last]
  {
    if block == [] {
      assert block + [last] == [last];
      assert [last][1..] == [];
    } else {
      assert block[0] in block;
      assert (block + [last])[1..] == block[1..] + [last];
      RulesOfBlock(block[1..], last, chain);
    }
  }

  function JumpOf(f: Family): Rule { if f.table == Filter4 then JUMP4 else JUMP6 }

  lemma FamilyChains(f: Family, containerIP: string, allowPing: bool)
    requires f == V4 || f == V6
    ensures TableRules(containerIP, allowPing, f.table) == FamilyRules(f, containerIP, allowPing) + [JumpOf(f)]
    ensures f.chain != JumpOf(f).chain && JumpOf(f).action == Jump(f.chain) && JumpOf(f).matchers == ANY
    ensures JumpOf(f).disabled == None
    ensures RulesOf(TableRules(containerIP, allowPing, f.table), f.chain) == FamilyRules(f, containerIP, allowPing)
    ensures RulesOf(TableRules(containerIP, allowPing, f.table), JumpOf(f).chain) == [JumpOf(f)]
  {
    ChainsDiffer();
    forall r | r in FamilyRules(f, containerIP, allowPing) ensures r.chain == f.chain {
      FamilyPlace(f, containerIP, allowPing, r);
    }
    RulesOfBlock(FamilyRules(f, containerIP, allowPing), JumpOf(f), f.chain);
  }

  lemma FamilyIsFinal(f: Family, containerIP: string, allowPing: bool, r: Rule)
    requires r in FamilyRules(f, containerIP, allowPing)
    ensures Final(r.action)
  {
    if r in RelatedFrom(f, Scopes(f, containerIP), 0) {
      var s, k := RelatedMember(f, Scopes(f, containerIP), 0, r);
    } else if r in EchoRules(f, allowPing, f.echo) {
      EchoAt(f, allowPing, f.echo);
    } else {
      assert r in TransportRules(f) || r in DestinationRules(f) || r == UnsupportedRule(f);
    }
  }

  lemma FamilyIsListed(f: Family, containerIP: string, allowPing: bool, r: Rule)
    requires (f == V4 || f == V6) && r in FamilyRules(f, containerIP, allowPing)
    ensures r in TableRules(containerIP, allowPing, f.table)
  {
  }

  /** A protocol chain, whatever it holds besides and from wherever it is entered: the first rule whose
      row still matches decides. That is the rule of the decision exactly when the packet satisfies what
      that rule's row carried over. */
  lemma ProtocolVerdict(f: Family, containerIP: string, allowPing: bool, before: seq<Row>, p: Packet, stack: set<string>)
    requires f == V4 || f == V6
    ensures var own, rules := FamilyRules(f, containerIP, allowPing), TableRules(containerIP, allowPing, f.table);
            var i, j := FirstIndex(own, p), FirstIndex(CarriedAll(own, before), p);
            var rest := Keep(Foreign(rules, before), InChain(f.chain));
            && i < |own| && Final(own[i].action) && Decide(f, containerIP, allowPing, p) == VerdictOf(own[i].action)
            && i <= j && (j == i <==> Applies(Carried(own[i], before), p)) && (j < |own| ==> Final(own[j].action))
            && (forall row :: row in rest ==> row in Composed(rules, before))
            && WalkChain(Composed(rules, before), f.chain, p, stack) ==
               if j < |own| then VerdictOf(own[j].action) else Walk(Composed(rules, before), rest, p, stack)
  {
    var own, rules := FamilyRules(f, containerIP, allowPing), TableRules(containerIP, allowPing, f.table);
    FamilyChains(f, containerIP, allowPing);
    forall r | r in own ensures Final(r.action) { FamilyIsFinal(f, containerIP, allowPing, r); }
    ChainVerdict(own, rules, f.chain, before, p, stack);
    FamilyDecides(f, containerIP, allowPing, p);
    FirstMatchAt(own, p);
    SameRuleExactly(own, before, p);
  }

  // ----- Verdicts of the chains the policy hooks into

  /** Chains other than the family's two take their foreign course. */
  lemma FamilyElsewhere(f: Family, containerIP: string, allowPing: bool, before: seq<Row>, c: string, p: Packet)
    requires (f == V4 || f == V6) && c != f.chain && c != JumpOf(f).chain
    ensures var rules := TableRules(containerIP, allowPing, f.table);
            Course(Keep(Composed(rules, before), InChain(c)), p) == Course(Keep(Foreign(rules, before), InChain(c)), p)
  {
    var rules := TableRules(containerIP, allowPing, f.table);
    FamilyChains(f, containerIP, allowPing);
    forall r | r in rules ensures r.chain != c {
      if r in FamilyRules(f, containerIP, allowPing) { FamilyPlace(f, containerIP, allowPing, r); }
    }
    OtherCourse(rules, before, c, p);
  }

  /** The foreign rows behind the jump decide as they would alone if no own row matches the packet or no
      foreign row jumps to the protocol chain. */
  lemma BehindJumpAlone(f: Family, containerIP: string, allowPing: bool, before: seq<Row>, p: Packet)
    requires f == V4 || f == V6
    requires var own, rules := FamilyRules(f, containerIP, allowPing), TableRules(containerIP, allowPing, f.table);
             FirstIndex(CarriedAll(own, before), p) == |own| || f.chain !in Targets(Foreign(rules, before))
    ensures var rules, entry := TableRules(containerIP, allowPing, f.table), JumpOf(f).chain;
            var rest := Keep(Foreign(rules, before), InChain(entry));
            && (forall row :: row in rest ==> row in Composed(rules, before))
            && Walk(Composed(rules, before), rest, p, {entry}) == Evaluate(Foreign(rules, before), entry, p)
  {
    var own, rules, entry := FamilyRules(f, containerIP, allowPing), TableRules(containerIP, allowPing, f.table), JumpOf(f).chain;
    FamilyChains(f, containerIP, allowPing);
    ChainCourse(own, rules, f.chain, before, p);
    forall c | c in Targets(Foreign(rules, before)) && c != entry
      ensures Course(Keep(Foreign(rules, before), InChain(c)), p) == Course(Keep(Composed(rules, before), InChain(c)), p)
    {
      if c != f.chain { FamilyElsewhere(f, containerIP, allowPing, before, c, p); }
    }
    ForeignWalk(rules, before, Foreign(rules, before), entry, p);
  }

  /** They decide as they would without the protocol chain if the own rows return the packet. */
  lemma BehindJumpReturned(f: Family, containerIP: string, allowPing: bool, before: seq<Row>, p: Packet)
    requires f == V4 || f == V6
    requires var own := FamilyRules(f, containerIP, allowPing);
             var j := FirstIndex(CarriedAll(own, before), p);
             j < |own| && own[j].action == Return
    ensures var rules, entry := TableRules(containerIP, allowPing, f.table), JumpOf(f).chain;
            var rest := Keep(Foreign(rules, before), InChain(entry));
            && (forall row :: row in rest ==> row in Composed(rules, before))
            && Walk(Composed(rules, before), rest, p, {entry}) == Evaluate(Without(Foreign(rules, before), f.chain), entry, p)
  {
    var own, rules, entry := FamilyRules(f, containerIP, allowPing), TableRules(containerIP, allowPing, f.table), JumpOf(f).chain;
    var table := Without(Foreign(rules, before), f.chain);
    FamilyChains(f, containerIP, allowPing);
    ChainCourse(own, rules, f.chain, before, p);
    forall c | c in Targets(table) && c != entry
      ensures Course(Keep(table, InChain(c)), p) == Course(Keep(Composed(rules, before), InChain(c)), p)
    {
      WithoutChain(Foreign(rules, before), f.chain, c);
      if c != f.chain { FamilyElsewhere(f, containerIP, allowPing, before, c, p); }
    }
    WithoutChain(Foreign(rules, before), f.chain, entry);
    ForeignWalk(rules, before, table, entry, p);
  }

  /** The chain the jump was installed into, from any start. */
  lemma ForwardVerdict(f: Family, containerIP: string, allowPing: bool, before: seq<Row>, p: Packet)
    requires f == V4 || f == V6
    ensures var rules, jump := TableRules(containerIP, allowPing, f.table), JumpOf(f);
            var rest, inner := Keep(Foreign(rules, before), InChain(jump.chain)),
                               WalkChain(Composed(rules, before), f.chain, p, {jump.chain, f.chain});
            && (forall row :: row in rest ==> row in Composed(rules, before))
            && Evaluate(Composed(rules, before), jump.chain, p) ==
               if Applies(Carried(jump, before), p) && inner != Returned then inner
               else Walk(Composed(rules, before), rest, p, {jump.chain})
  {
    FamilyChains(f, containerIP, allowPing);
    JumpVerdict(TableRules(containerIP, allowPing, f.table), JumpOf(f), before, p);
  }

  /** The diversion chain, from any start: packets that a diversion row still matches return, all
      others meet the foreign rows as they would alone. */
  lemma DivertVerdict(allowPing: bool, rules: seq<Rule>, before: seq<Row>, p: Packet)
    requires rules == DivertRules(allowPing)
    ensures Evaluate(Composed(rules, before), DIVERT, p) ==
            if FirstIndex(CarriedAll(rules, before), p) < |rules| then Returned
            else Evaluate(Foreign(rules, before), DIVERT, p)
  {
    forall r | r in rules ensures r.chain == DIVERT && r.action == Return { DivertPlace(allowPing, r); }
    AllOf(rules, DIVERT);
    ChainVerdict(rules, rules, DIVERT, before, p, {DIVERT});
    forall c | c != DIVERT
      ensures Course(Keep(Composed(rules, before), InChain(c)), p) == Course(Keep(Foreign(rules, before), InChain(c)), p)
    {
      OtherCourse(rules, before, c, p);
    }
    ForeignWalk(rules, before, Foreign(rules, before), DIVERT, p);
  }

  lemma {:induction false} AllOf(rules: seq<Rule>, chain: string)
    requires forall r :: r in rules ==> r.chain == chain
    ensures RulesOf(rules, chain) == rules
  {
    if rules != [] {
      assert rules[0] in rules;
      AllOf(rules[1..], chain);
    }
  }

  // ----- From the script to the verdict

  /** No row that the script will set carries a matcher of its own. */
  ghost predicate Clean(containerIP: string, allowPing: bool, ts: Tables) {
    forall n: TableName :: NoStray(TableRules(containerIP, allowPing, n), ts.At(n).rows)
  }

  lemma AfterRun(containerIP: string, allowPing: bool, ts: Tables, n: TableName)
    requires ts.Valid() && Run(Source(containerIP, allowPing), ts).Completed?
    ensures var rules := TableRules(containerIP, allowPing, n);
            && TableReconciled(rules, ts.At(n), Run(Source(containerIP, allowPing), ts).tables.At(n))
            && Unambiguous(rules, ts.At(n).rows)
  {
    PolicyRuns(containerIP, allowPing, ts);
    PolicyAt(containerIP, allowPing, n);
    assert Unambiguous(RulesAt(PolicyRules(containerIP, allowPing), n), ts.At(n).rows);
  }

  /** After a run from any accepted start, every chain of every table gives every packet the verdict it
      would get with the policy's rules, and what their rows carried over, in front of the foreign rows. */
  lemma RunComposes(containerIP: string, allowPing: bool, ts: Tables, n: TableName, chain: string, p: Packet)
    requires ts.Valid() && Run(Source(containerIP, allowPing), ts).Completed?
    ensures Evaluate(Run(Source(containerIP, allowPing), ts).tables.At(n).rows, chain, p)
            == Evaluate(Composed(TableRules(containerIP, allowPing, n), ts.At(n).rows), chain, p)
  {
    AfterRun(containerIP, allowPing, ts, n);
    ComposedVerdict(TableRules(containerIP, allowPing, n), ts.At(n),
                    Run(Source(containerIP, allowPing), ts).tables.At(n), chain, p, {chain});
  }

  /** The protocol chains after a run from any accepted start: the decision for every packet whose own
      rule still matches it; any other packet goes to the first later rule whose row matches it, or to
      the foreign rows. */
  lemma PolicyVerdictExactly(f: Family, containerIP: string, allowPing: bool, ts: Tables, p: Packet)
    requires f == V4 || f == V6
    requires ts.Valid() && Run(Source(containerIP, allowPing), ts).Completed?
    ensures var own, before := FamilyRules(f, containerIP, allowPing), ts.At(f.table).rows;
            var i, j := FirstIndex(own, p), FirstIndex(CarriedAll(own, before), p);
            var rules := TableRules(containerIP, allowPing, f.table);
            var rest := Keep(Foreign(rules, before), InChain(f.chain));
            && i < |own| && Final(own[i].action) && Decide(f, containerIP, allowPing, p) == VerdictOf(own[i].action)
            && i <= j && (j == i <==> Applies(Carried(own[i], before), p)) && (j < |own| ==> Final(own[j].action))
            && (forall row :: row in rest ==> row in Composed(rules, before))
            && Evaluate(Run(Source(containerIP, allowPing), ts).tables.At(f.table).rows, f.chain, p) ==
               if j < |own| then VerdictOf(own[j].action) else Walk(Composed(rules, before), rest, p, {f.chain})
  {
    RunComposes(containerIP, allowPing, ts, f.table, f.chain, p);
    ProtocolVerdict(f, containerIP, allowPing, ts.At(f.table).rows, p, {f.chain});
  }

  /** The forward chains after a run from any accepted start: the protocol chain decides if the jump's
      row still matches the packet and that chain does not return; the foreign rows decide otherwise. */
  lemma PolicyForwardsExactly(f: Family, containerIP: string, allowPing: bool, ts: Tables, p: Packet)
    requires f == V4 || f == V6
    requires ts.Valid() && Run(Source(containerIP, allowPing), ts).Completed?
    ensures var rules, before, jump := TableRules(containerIP, allowPing, f.table), ts.At(f.table).rows, JumpOf(f);
            var rest, inner := Keep(Foreign(rules, before), InChain(jump.chain)),
                               WalkChain(Composed(rules, before), f.chain, p, {jump.chain, f.chain});
            && (forall row :: row in rest ==> row in Composed(rules, before))
            && Evaluate(Run(Source(containerIP, allowPing), ts).tables.At(f.table).rows, jump.chain, p) ==
               if Applies(Carried(jump, before), p) && inner != Returned then inner
               else Walk(Composed(rules, before), rest, p, {jump.chain})
  {
    RunComposes(containerIP, allowPing, ts, f.table, JumpOf(f).chain, p);
    ForwardVerdict(f, containerIP, allowPing, ts.At(f.table).rows, p);
  }

  lemma DivertAfterRun(containerIP: string, allowPing: bool, n: TableName, rules: seq<Rule>, ts: Tables, p: Packet)
    requires rules == TableRules(containerIP, allowPing, n) && rules == DivertRules(allowPing)
    requires ts.Valid() && Run(Source(containerIP, allowPing), ts).Completed?
    ensures Evaluate(Run(Source(containerIP, allowPing), ts).tables.At(n).rows, DIVERT, p) ==
            if FirstIndex(CarriedAll(rules, ts.At(n).rows), p) < |rules| then Returned
            else Evaluate(Foreign(rules, ts.At(n).rows), DIVERT, p)
  {
    RunComposes(containerIP, allowPing, ts, n, DIVERT, p);
    DivertVerdict(allowPing, rules, ts.At(n).rows, p);
  }

  /** The diversion chain after a run from any accepted start. */
  lemma PolicyDivertsExactly(containerIP: string, allowPing: bool, ts: Tables, p: Packet)
    requires ts.Valid() && Run(Source(containerIP, allowPing), ts).Completed?
    ensures var rules, before := DivertRules(allowPing), ts.At(Mangle4).rows;
            Evaluate(Run(Source(containerIP, allowPing), ts).tables.At(Mangle4).rows, DIVERT, p) ==
            if FirstIndex(CarriedAll(rules, before), p) < |rules| then Returned
            else Evaluate(Foreign(rules, before), DIVERT, p)
  {
    DivertAfterRun(containerIP, allowPing, Mangle4, DivertRules(allowPing), ts, p);
  }

  // ----- Starts without leftover matchers

  lemma CleanFamily(f: Family, containerIP: string, allowPing: bool, before: seq<Row>)
    requires f == V4 || f == V6
    requires var rules := TableRules(containerIP, allowPing, f.table); Unambiguous(rules, before) && NoStray(rules, before)
    ensures CarriedAll(FamilyRules(f, containerIP, allowPing), before) == FamilyRules(f, containerIP, allowPing)
    ensures Carried(JumpOf(f), before) == JumpOf(f)
  {
    FamilyChains(f, containerIP, allowPing);
    forall r | r in FamilyRules(f, containerIP, allowPing) ensures r in TableRules(containerIP, allowPing, f.table) {
      FamilyIsListed(f, containerIP, allowPing, r);
    }
    CleanExactly(FamilyRules(f, containerIP, allowPing), before);
    CarriedExactly(JumpOf(f), before);
  }

  /** After a run from a clean start, both protocol chains decide every packet as the policy says,
      whatever stale rules follow. */
  lemma PolicyDecidesPackets(f: Family, containerIP: string, allowPing: bool, ts: Tables, p: Packet)
    requires f == V4 || f == V6
    requires ts.Valid() && Run(Source(containerIP, allowPing), ts).Completed? && Clean(containerIP, allowPing, ts)
    ensures Evaluate(Run(Source(containerIP, allowPing), ts).tables.At(f.table).rows, f.chain, p)
            == Decide(f, containerIP, allowPing, p)
  {
    AfterRun(containerIP, allowPing, ts, f.table);
    assert NoStray(TableRules(containerIP, allowPing, f.table), ts.At(f.table).rows);
    CleanFamily(f, containerIP, allowPing, ts.At(f.table).rows);
    PolicyVerdictExactly(f, containerIP, allowPing, ts, p);
  }

  lemma CleanForward(f: Family, containerIP: string, allowPing: bool, before: seq<Row>, p: Packet)
    requires f == V4 || f == V6
    requires var rules := TableRules(containerIP, allowPing, f.table); Unambiguous(rules, before) && NoStray(rules, before)
    ensures var rules := TableRules(containerIP, allowPing, f.table);
            Evaluate(Composed(rules, before), JumpOf(f).chain, p) ==
            if Decide(f, containerIP, allowPing, p) == Returned
            then Evaluate(Without(Foreign(rules, before), f.chain), JumpOf(f).chain, p)
            else Decide(f, containerIP, allowPing, p)
  {
    FamilyChains(f, containerIP, allowPing);
    CleanFamily(f, containerIP, allowPing, before);
    ProtocolVerdict(f, containerIP, allowPing, before, p, {JumpOf(f).chain, f.chain});
    ForwardVerdict(f, containerIP, allowPing, before, p);
    assert Applies(JumpOf(f), p);
    if Decide(f, containerIP, allowPing, p) == Returned { BehindJumpReturned(f, containerIP, allowPing, before, p); }
  }

  /** The forward chains after a run from a clean start, for any existing chain contents: the decision,
      or, where it is "return", what the start without the policy's rules and without the protocol
      chain says. */
  lemma PolicyForwards(f: Family, containerIP: string, allowPing: bool, ts: Tables, p: Packet)
    requires f == V4 || f == V6
    requires ts.Valid() && Run(Source(containerIP, allowPing), ts).Completed? && Clean(containerIP, allowPing, ts)
    ensures var after, alone := Run(Source(containerIP, allowPing), ts).tables,
                                Foreign(TableRules(containerIP, allowPing, f.table), ts.At(f.table).rows);
            Evaluate(after.At(f.table).rows, JumpOf(f).chain, p) ==
            if Decide(f, containerIP, allowPing, p) == Returned then Evaluate(Without(alone, f.chain), JumpOf(f).chain, p)
            else Decide(f, containerIP, allowPing, p)
  {
    AfterRun(containerIP, allowPing, ts, f.table);
    assert NoStray(TableRules(containerIP, allowPing, f.table), ts.At(f.table).rows);
    RunComposes(containerIP, allowPing, ts, f.table, JumpOf(f).chain, p);
    CleanForward(f, containerIP, allowPing, ts.At(f.table).rows, p);
  }

  /** The old verdict survives under "return" when no foreign row jumps to the protocol chain, or when
      what is left in that chain lets the packet pass. */
  lemma PolicyForwardsAsBefore(f: Family, containerIP: string, allowPing: bool, ts: Tables, p: Packet)
    requires f == V4 || f == V6
    requires ts.Valid() && Run(Source(containerIP, allowPing), ts).Completed? && Clean(containerIP, allowPing, ts)
    requires var alone := Foreign(TableRules(containerIP, allowPing, f.table), ts.At(f.table).rows);
             f.chain !in Targets(alone) || Course(Keep(alone, InChain(f.chain)), p) == []
    ensures var after, alone := Run(Source(containerIP, allowPing), ts).tables,
                                Foreign(TableRules(containerIP, allowPing, f.table), ts.At(f.table).rows);
            Evaluate(after.At(f.table).rows, JumpOf(f).chain, p) ==
            if Decide(f, containerIP, allowPing, p) == Returned then Evaluate(alone, JumpOf(f).chain, p)
            else Decide(f, containerIP, allowPing, p)
  {
    PolicyForwards(f, containerIP, allowPing, ts, p);
    FamilyChains(f, containerIP, allowPing);
    UnseenChain(Foreign(TableRules(containerIP, allowPing, f.table), ts.At(f.table).rows), f.chain, JumpOf(f).chain, p);
  }

  lemma CleanDivert(containerIP: string, allowPing: bool, n: TableName, rules: seq<Rule>, ts: Tables)
    requires rules == TableRules(containerIP, allowPing, n)
    requires ts.Valid() && Run(Source(containerIP, allowPing), ts).Completed? && Clean(containerIP, allowPing, ts)
    ensures CarriedAll(rules, ts.At(n).rows) == rules
  {
    AfterRun(containerIP, allowPing, ts, n);
    assert NoStray(TableRules(containerIP, allowPing, n), ts.At(n).rows);
    CleanExactly(rules, ts.At(n).rows);
  }

  /** The diversion chain after a run from a clean start: exempt packets return, all others meet the
      old rules. */
  lemma PolicyDiverts(containerIP: string, allowPing: bool, ts: Tables, p: Packet)
    requires ts.Valid() && Run(Source(containerIP, allowPing), ts).Completed? && Clean(containerIP, allowPing, ts)
    ensures Evaluate(Run(Source(containerIP, allowPing), ts).tables.At(Mangle4).rows, DIVERT, p) ==
            if NotDiverted(allowPing, p) then Returned
            else Evaluate(Foreign(DivertRules(allowPing), ts.At(Mangle4).rows), DIVERT, p)
  {
    var rules := DivertRules(allowPing);
    PolicyDivertsExactly(containerIP, allowPing, ts, p);
    CleanDivert(containerIP, allowPing, Mangle4, rules, ts);
    DivertDecides(allowPing, p);
    FirstMatchAt(rules, p);
  }

  // ----- A matcher that survives

  const STRAY := ANY.(protocol := Some("tcp"), other := map["src-port" := "80"])

  /** One earlier TCP rule that someone narrowed to a source port. */
  function NarrowedTable(): Table {
    Table([Row(0, V4.chain, TransportRule(V4, "tcp").comment, Return, STRAY, false)], 1)
  }

  function NarrowedStart(): Tables { Tables(NarrowedTable(), Table([], 0), Table([], 0)) }

  /** A TCP packet of a managed client from another port. */
  function OtherPort(): Packet { Packet("tcp", 0, "new", {V4.managed}, {}, {}, {}, "unicast", {}) }

  lemma DropFirst(t: Rule, u: Rule, b: seq<Rule>, c: seq<Rule>, d: seq<Rule>, e: seq<Rule>)
    ensures ([t, u] + b + c + d + e)[1..] == [u] + b + c + d + e
  {
  }

  /** Past the TCP rule, a managed client's TCP packet to a plain outside address falls to the last rule. */
  lemma PastTransport(f: Family, containerIP: string, allowPing: bool, p: Packet)
    requires p.protocol == "tcp" && f.proto != "tcp"
    requires FromManaged(f, p) && !ToInternal(f, p) && !ToMulticast(f, p) && !ManagedBroadcast(f, p)
    ensures FirstMatch(FamilyRules(f, containerIP, allowPing)[1..], p) == Some(Drop)
  {
    var u, b, c, d, e := [TransportRule(f, "udp")], RelatedFrom(f, Scopes(f, containerIP), 0), DestinationRules(f),
                         EchoRules(f, allowPing, f.echo), [UnsupportedRule(f)];
    DropFirst(TransportRule(f, "tcp"), u[0], b, c, d, e);
    assert FamilyRules(f, containerIP, allowPing)[1..] == u + b + c + d + e;
    FirstMatchConcat(u + b + c + d, e, p);
    FirstMatchConcat(u + b + c, d, p);
    FirstMatchConcat(u + b, c, p);
    FirstMatchConcat(u, b, p);
    OneRule(u[0], p);
    ScopesConcern(f, containerIP, p);
    RelatedFirst(f, Scopes(f, containerIP), 0, p);
    DestinationsFirst(f, p);
    EchoFirst(f, allowPing, f.echo, p);
    OneRule(e[0], p);
  }

  lemma NarrowedIsSmall(n: TableName)
    ensures NarrowedStart().Valid() && |NarrowedStart().At(n).rows| <= 1
    ensures forall row :: row in NarrowedStart().At(n).rows ==> Owned(row.comment)
  {
  }

  /** Tables with at most one row each, and those owned, pass every guard and mislead no rule. */
  lemma SmallTables(guards: seq<(TableName, string)>, rules: seq<Rule>, ts: Tables)
    requires forall n: TableName :: |ts.At(n).rows| <= 1 && forall row :: row in ts.At(n).rows ==> Owned(row.comment)
    ensures GuardsPass(guards, ts) && UnambiguousTables(rules, ts)
  {
    forall g | g in guards ensures AllOwned(Keep(ts.At(g.0).rows, InChain(g.1))) { KeptIsPart(ts.At(g.0).rows, g.1); }
    forall n: TableName, r: Rule ensures |LabelledRows(ts.At(n).rows, r)| <= 1 {
      KeepShorter(ts.At(n).rows, Labelled({r.comment}));
    }
  }

  /** The narrowed start is one the script accepts. */
  lemma NarrowedRuns(containerIP: string, allowPing: bool)
    ensures NarrowedStart().Valid() && Run(Source(containerIP, allowPing), NarrowedStart()).Completed?
  {
    forall n: TableName
      ensures NarrowedStart().Valid() && |NarrowedStart().At(n).rows| <= 1
      ensures forall row :: row in NarrowedStart().At(n).rows ==> Owned(row.comment)
    {
      NarrowedIsSmall(n);
    }
    NarrowedIsSmall(Filter4);
    SmallTables(GUARDED, PolicyRules(containerIP, allowPing), NarrowedStart());
    PolicyRuns(containerIP, allowPing, NarrowedStart());
  }

  /** A router without any rules: everything that the theorems above ask of a start holds of it. */
  lemma EmptyRouterIsCleanStart(containerIP: string, allowPing: bool, ts: Tables)
    requires ts.Valid() && forall n: TableName :: ts.At(n).rows == []
    ensures Run(Source(containerIP, allowPing), ts).Completed? && Clean(containerIP, allowPing, ts)
    ensures forall n: TableName :: Targets(Foreign(TableRules(containerIP, allowPing, n), ts.At(n).rows)) == {}
  {
    SmallTables(GUARDED, PolicyRules(containerIP, allowPing), ts);
    PolicyRuns(containerIP, allowPing, ts);
    forall n: TableName ensures NoStray(TableRules(containerIP, allowPing, n), ts.At(n).rows) {
      NothingStrays(TableRules(containerIP, allowPing, n));
    }
  }

  lemma NothingStrays(rules: seq<Rule>)
    ensures NoStray(rules, [])
  {
  }

  lemma {:induction false} KeepShorter(rows: seq<Row>, sel: Selector)
    ensures |Keep(rows, sel)| <= |rows|
  {
    if rows != [] { KeepShorter(rows[1..], sel); }
  }

  /** The verdict fails when a set row keeps a matcher of its own: the run succeeds, the policy says
      "return" for every TCP packet, yet this one is dropped. */
  lemma StrayMatcherBreaksVerdict(containerIP: string, allowPing: bool)
    ensures NarrowedStart().Valid() && Run(Source(containerIP, allowPing), NarrowedStart()).Completed?
    ensures Decide(V4, containerIP, allowPing, OtherPort()) == Returned
    ensures Evaluate(Run(Source(containerIP, allowPing), NarrowedStart()).tables.At(Filter4).rows, V4.chain, OtherPort())
            == Dropped
  {
    NarrowedRuns(containerIP, allowPing);
    NarrowedRow(containerIP, allowPing);
    PastTransport(V4, containerIP, allowPing, OtherPort());
    OthersDrop(V4, containerIP, allowPing, NarrowedStart(), OtherPort());
  }

  lemma OthersDrop(f: Family, containerIP: string, allowPing: bool, ts: Tables, p: Packet)
    requires f == V4 || f == V6
    requires ts.Valid() && Run(Source(containerIP, allowPing), ts).Completed?
    requires var own, before := FamilyRules(f, containerIP, allowPing), ts.At(f.table).rows;
             && own != [] && NoStray(own[1..], before) && Unambiguous(own[1..], before)
             && !Applies(Carried(own[0], before), p) && FirstMatch(own[1..], p) == Some(Drop)
    ensures Evaluate(Run(Source(containerIP, allowPing), ts).tables.At(f.table).rows, f.chain, p) == Dropped
  {
    SkipsFirst(FamilyRules(f, containerIP, allowPing), ts.At(f.table).rows, p);
    FirstCarriedDecides(f, containerIP, allowPing, ts, p);
  }

  lemma FirstCarriedDecides(f: Family, containerIP: string, allowPing: bool, ts: Tables, p: Packet)
    requires f == V4 || f == V6
    requires ts.Valid() && Run(Source(containerIP, allowPing), ts).Completed?
    requires FirstMatch(CarriedAll(FamilyRules(f, containerIP, allowPing), ts.At(f.table).rows), p).Some?
    ensures var first := FirstMatch(CarriedAll(FamilyRules(f, containerIP, allowPing), ts.At(f.table).rows), p).value;
            Final(first)
            && Evaluate(Run(Source(containerIP, allowPing), ts).tables.At(f.table).rows, f.chain, p) == VerdictOf(first)
  {
    FirstMatchAt(CarriedAll(FamilyRules(f, containerIP, allowPing), ts.At(f.table).rows), p);
    PolicyVerdictExactly(f, containerIP, allowPing, ts, p);
  }

  /** A packet that the first row misses is up to the others. */
  lemma SkipsFirst(own: seq<Rule>, before: seq<Row>, p: Packet)
    requires own != [] && !Applies(Carried(own[0], before), p)
    requires NoStray(own[1..], before) && Unambiguous(own[1..], before)
    ensures FirstMatch(CarriedAll(own, before), p) == FirstMatch(own[1..], p)
  {
    CleanExactly(own[1..], before);
    assert CarriedAll(own, before)[1..] == CarriedAll(own[1..], before);
  }

  lemma NarrowedRow(containerIP: string, allowPing: bool)
    ensures var own, before := FamilyRules(V4, containerIP, allowPing), NarrowedTable().rows;
            && own != [] && NoStray(own[1..], before) && Unambiguous(own[1..], before)
            && !Applies(Carried(own[0], before), OtherPort())
  {
    var own, row := FamilyRules(V4, containerIP, allowPing), NarrowedTable().rows[0];
    FamilyDistinct(V4, containerIP, allowPing);
    assert own[0] == TransportRule(V4, "tcp");
    KeptAlone(row, own[0]);
    StrayStays(own[0], row);
    OthersClean(own, row);
    forall r | r in own[1..] ensures |LabelledRows([row], r)| <= 1 { KeepShorter([row], Labelled({r.comment})); }
  }

  lemma KeptAlone(row: Row, r: Rule)
    requires row.comment == r.comment
    ensures LabelledRows([row], r) == [row]
  {
    OneKept(row, Labelled({r.comment}));
  }

  /** A set row keeps a foreign matcher and misses packets that do not satisfy it. */
  lemma StrayStays(r: Rule, row: Row)
    requires LabelledRows([row], r) == [row] && "src-port" in row.matchers.other && r.matchers.other == map[]
    ensures !Applies(Carried(r, [row]), OtherPort())
  {
    assert "src-port" in Carried(r, [row]).matchers.other;
  }

  lemma OthersClean(own: seq<Rule>, row: Row)
    requires DistinctComments(own) && own != [] && row.comment == own[0].comment
    ensures NoStray(own[1..], [row])
  {
  }

  // ----- A jump that survives

  /** An older release's drop-everything rule in the protocol chain, and its jump to that chain under
      another label. */
  function StaleTable(f: Family): Table {
    Table([Row(0, f.chain, OWNED, Drop, ANY, false), Row(1, JumpOf(f).chain, "older jump", Jump(f.chain), ANY, false)], 2)
  }

  function StaleStart(f: Family): Tables {
    Tables(Table([], 0), Table([], 0), Table([], 0)).With(f.table, StaleTable(f))
  }

  /** No row of the table carries a generated comment. */
  ghost predicate NoneGenerated(rules: seq<Rule>, rows: seq<Row>) { forall row :: row in rows ==> row.comment !in Comments(rules) }

  lemma NoneGeneratedIsForeign(rules: seq<Rule>, rows: seq<Row>)
    requires NoneGenerated(rules, rows)
    ensures Unambiguous(rules, rows) && NoStray(rules, rows) && Foreign(rules, rows) == rows
  {
    forall r | r in rules ensures LabelledRows(rows, r) == [] {
      assert r.comment in Comments(rules);
      KeepNone(rows, Labelled({r.comment}));
    }
    forall r, row | r in rules && row in rows ensures row.comment != r.comment { assert r.comment in Comments(rules); }
    KeepAll(rows, Unlabelled(Comments(rules)));
  }

  /** The tables alone: the old jump leads into the old drop; without the protocol chain it returns. */
  lemma StaleWalk(stale: Row, jump: Row, p: Packet)
    requires stale.chain != jump.chain && stale.action == Drop && jump.action == Jump(stale.chain)
    requires stale.matchers == ANY && jump.matchers == ANY && !stale.disabled && !jump.disabled
    ensures Evaluate([stale, jump], jump.chain, p) == Dropped
    ensures Evaluate(Without([stale, jump], stale.chain), jump.chain, p) == Returned
  {
    var rows := [stale, jump];
    assert rows[1..] == [jump] && [jump][1..] == [];
    OneKept(jump, InChain(jump.chain));
    OneKept(jump, InChain(stale.chain));
    OneKept(jump, OutsideChain(stale.chain));
    assert Keep(rows, InChain(jump.chain)) == [jump] && Keep(rows, InChain(stale.chain)) == [stale];
    assert Without(rows, stale.chain) == [jump];
    assert Hits(stale, p) && Hits(jump, p);
    WalkJump(rows, jump, [], p, {jump.chain});
    WalkJump([jump], jump, [], p, {jump.chain});
    assert [jump] + [] == [jump];
  }

  lemma LongComment(f: Family, containerIP: string, allowPing: bool, r: Rule)
    requires (f == V4 || f == V6) && r in FamilyRules(f, containerIP, allowPing)
    ensures |r.comment| > 20
  {
    FamilyDistinct(f, containerIP, allowPing);
  }

  lemma JumpIsLong(f: Family)
    requires f == V4 || f == V6
    ensures |JumpOf(f).comment| > 20
  {
  }

  lemma ShortIsForeign(rules: seq<Rule>, rows: seq<Row>)
    requires forall r :: r in rules ==> |r.comment| > 20
    requires forall row :: row in rows ==> |row.comment| <= 20
    ensures NoneGenerated(rules, rows)
  {
  }

  lemma ShortStart(f: Family, containerIP: string, allowPing: bool, rows: seq<Row>)
    requires (f == V4 || f == V6) && forall row :: row in rows ==> |row.comment| <= 20
    ensures NoneGenerated(TableRules(containerIP, allowPing, f.table), rows)
  {
    FamilyChains(f, containerIP, allowPing);
    forall r | r in FamilyRules(f, containerIP, allowPing) + [JumpOf(f)] ensures |r.comment| > 20 {
      if r in FamilyRules(f, containerIP, allowPing) { LongComment(f, containerIP, allowPing, r); } else { JumpIsLong(f); }
    }
    ShortIsForeign(TableRules(containerIP, allowPing, f.table), rows);
  }

  ghost predicate AllForeign(containerIP: string, allowPing: bool, ts: Tables) {
    forall n: TableName :: NoneGenerated(TableRules(containerIP, allowPing, n), ts.At(n).rows)
  }

  /** A start without generated comments whose guards pass is accepted and clean, and all foreign. */
  lemma ForeignStart(containerIP: string, allowPing: bool, ts: Tables)
    requires ts.Valid() && GuardsPass(GUARDED, ts) && AllForeign(containerIP, allowPing, ts)
    ensures Run(Source(containerIP, allowPing), ts).Completed? && Clean(containerIP, allowPing, ts)
    ensures forall n: TableName :: Foreign(TableRules(containerIP, allowPing, n), ts.At(n).rows) == ts.At(n).rows
  {
    forall n: TableName
      ensures Unambiguous(RulesAt(PolicyRules(containerIP, allowPing), n), ts.At(n).rows)
      ensures NoStray(TableRules(containerIP, allowPing, n), ts.At(n).rows)
      ensures Foreign(TableRules(containerIP, allowPing, n), ts.At(n).rows) == ts.At(n).rows
    {
      PolicyAt(containerIP, allowPing, n);
      NoneGeneratedIsForeign(TableRules(containerIP, allowPing, n), ts.At(n).rows);
    }
    PolicyRuns(containerIP, allowPing, ts);
  }

  lemma StaleTables(f: Family, n: TableName)
    ensures StaleStart(f).Valid() && StaleStart(f).At(n).rows == if n == f.table then StaleTable(f).rows else []
    ensures forall row :: row in StaleTable(f).rows ==> |row.comment| <= 20
  {
  }

  lemma StaleIsForeign(f: Family, containerIP: string, allowPing: bool, ts: Tables)
    requires f == V4 || f == V6
    requires forall n: TableName :: n != f.table ==> ts.At(n).rows == []
    requires forall row :: row in ts.At(f.table).rows ==> |row.comment| <= 20
    ensures AllForeign(containerIP, allowPing, ts)
  {
    ShortStart(f, containerIP, allowPing, ts.At(f.table).rows);
    forall n: TableName ensures NoneGenerated(TableRules(containerIP, allowPing, n), ts.At(n).rows) {
      if n != f.table { assert ts.At(n).rows == []; }
    }
  }

  lemma StaleGuards(f: Family, ts: Tables)
    requires (f == V4 || f == V6) && ts == StaleStart(f)
    ensures GuardsPass(GUARDED, ts)
  {
    forall g | g in GUARDED ensures AllOwned(Keep(ts.At(g.0).rows, InChain(g.1))) {
      if g.0 == f.table { StaleOwned(f); } else { assert ts.At(g.0).rows == []; }
    }
  }

  lemma StaleOwned(f: Family)
    requires f == V4 || f == V6
    ensures AllOwned(Keep(StaleTable(f).rows, InChain(f.chain)))
  {
    ChainsDiffer();
    forall row | row in Keep(StaleTable(f).rows, InChain(f.chain)) ensures Owned(row.comment) {
      KeepMember(StaleTable(f).rows, InChain(f.chain), row);
    }
  }

  /** Wherever an older jump leads into an older drop-everything rule, the run turns the drop of a packet
      that the policy returns into a return. */
  lemma OlderJumpReturns(f: Family, containerIP: string, allowPing: bool, ts: Tables, stale: Row, jump: Row, p: Packet)
    requires (f == V4 || f == V6) && ts.Valid() && GuardsPass(GUARDED, ts) && AllForeign(containerIP, allowPing, ts)
    requires ts.At(f.table).rows == [stale, jump] && stale.chain == f.chain && jump.chain == JumpOf(f).chain
    requires stale.action == Drop && jump.action == Jump(stale.chain)
    requires stale.matchers == ANY && jump.matchers == ANY && !stale.disabled && !jump.disabled
    requires Decide(f, containerIP, allowPing, p) == Returned
    ensures Run(Source(containerIP, allowPing), ts).Completed? && Clean(containerIP, allowPing, ts)
    ensures Evaluate(ts.At(f.table).rows, JumpOf(f).chain, p) == Dropped
    ensures Evaluate(Run(Source(containerIP, allowPing), ts).tables.At(f.table).rows, JumpOf(f).chain, p) == Returned
  {
    ForeignStart(containerIP, allowPing, ts);
    FamilyChains(f, containerIP, allowPing);
    StaleWalk(stale, jump, p);
    PolicyForwards(f, containerIP, allowPing, ts, p);
  }

  /** So the old verdict need not survive under "return" where a foreign row jumps to the protocol chain:
      this start is accepted and clean and drops everything that is forwarded; after the run every TCP
      packet returns. */
  lemma StaleJumpChangesVerdict(f: Family, containerIP: string, allowPing: bool, p: Packet)
    requires (f == V4 || f == V6) && p.protocol == "tcp"
    ensures var ts, entry := StaleStart(f), JumpOf(f).chain;
            && ts.Valid() && Run(Source(containerIP, allowPing), ts).Completed? && Clean(containerIP, allowPing, ts)
            && Decide(f, containerIP, allowPing, p) == Returned
            && Evaluate(ts.At(f.table).rows, entry, p) == Dropped
            && Evaluate(Run(Source(containerIP, allowPing), ts).tables.At(f.table).rows, entry, p) == Returned
  {
    var rows := StaleTable(f).rows;
    forall n: TableName ensures StaleStart(f).At(n).rows == if n == f.table then rows else [] { StaleTables(f, n); }
    StaleTables(f, f.table);
    StaleIsForeign(f, containerIP, allowPing, StaleStart(f));
    StaleGuards(f, StaleStart(f));
    OlderJumpReturns(f, containerIP, allowPing, StaleStart(f), rows[0], rows[1], p);
  }
}
