/**
 Reconciled tables and packets: from any start, every chain decides as if the rules, with whatever
 their old rows carried over, stood in front of the start's foreign rows.
 */
module PolicyCarryover {
  import opened Options
  import opened FirewallTable
  import opened Reconciliation
  import opened Ordering
  import opened ScriptTheorems
  import opened PacketFilter

  // ----- Matchers that survive a `set`

  predicate Names<T>(was: Option<T>, named: Option<T>) { was.Some? ==> named.Some? }

  /** The old row has no matcher that the rule does not write itself. */
  predicate NoStrayMatcher(was: Matchers, named: Matchers) {
    && Names(was.protocol, named.protocol) && Names(was.icmpType, named.icmpType) && Names(was.state, named.state)
    && Names(was.srcList, named.srcList) && Names(was.dstList, named.dstList)
    && Names(was.srcAddress, named.srcAddress) && Names(was.dstAddress, named.dstAddress)
    && Names(was.dstType, named.dstType) && was.other.Keys <= named.other.Keys
  }

  lemma OverlayExact(was: Matchers, named: Matchers)
    ensures Overlay(was, named) == named <==> NoStrayMatcher(was, named)
  {
  }

  ghost predicate NoStray(rules: seq<Rule>, before: seq<Row>) {
    forall r, row :: r in rules && row in before && row.comment == r.comment ==> NoStrayMatcher(row.matchers, r.matchers)
  }

  /** The rule as its row ends up: with the matchers that the old row had and the rule does not name. */
  function Carried(r: Rule, before: seq<Row>): Rule {
    var was := LabelledRows(before, r);
    if was == [] then r else r.(matchers := Overlay(was[0].matchers, r.matchers))
  }

  function CarriedAll(rules: seq<Rule>, before: seq<Row>): (carried: seq<Rule>)
    ensures |carried| == |rules|
    ensures forall i :: 0 <= i < |rules| ==> carried[i] == Carried(rules[i], before)
  {
    seq(|rules|, i requires 0 <= i < |rules| => Carried(rules[i], before))
  }

  lemma CarriedExactly(r: Rule, before: seq<Row>)
    requires |LabelledRows(before, r)| <= 1
    ensures Carried(r, before) == r <==> NoStray([r], before)
  {
    var was := LabelledRows(before, r);
    if was == [] {
      forall x | x in before ensures x.comment != r.comment { KeepMember(before, Labelled({r.comment}), x); }
    } else {
      OverlayExact(was[0].matchers, r.matchers);
      KeepMember(before, Labelled({r.comment}), was[0]);
      assert r in [r];
      forall x | x in before && x.comment == r.comment ensures x == was[0] { OnlyRow(before, r, x); }
    }
  }

  lemma NoStrayEach(rules: seq<Rule>, before: seq<Row>)
    ensures NoStray(rules, before) <==> forall i :: 0 <= i < |rules| ==> NoStray([rules[i]], before)
  {
    forall i | 0 <= i < |rules| && NoStray(rules, before) ensures NoStray([rules[i]], before) {
      assert rules[i] in rules;
    }
    if forall i :: 0 <= i < |rules| ==> NoStray([rules[i]], before) {
      forall r, row | r in rules && row in before && row.comment == r.comment
        ensures NoStrayMatcher(row.matchers, r.matchers)
      {
        var i :| 0 <= i < |rules| && rules[i] == r;
        assert r in [rules[i]];
      }
    }
  }

  /** Nothing is carried over exactly when no row to be set has a matcher of its own. */
  lemma CleanExactly(rules: seq<Rule>, before: seq<Row>)
    requires Unambiguous(rules, before)
    ensures CarriedAll(rules, before) == rules <==> NoStray(rules, before)
  {
    NoStrayEach(rules, before);
    forall i | 0 <= i < |rules| ensures Carried(rules[i], before) == rules[i] <==> NoStray([rules[i]], before) {
      assert rules[i] in rules;
      CarriedExactly(rules[i], before);
    }
  }

  /** What is carried over can only narrow a rule. */
  lemma CarriedNarrows(r: Rule, before: seq<Row>, p: Packet)
    requires Applies(Carried(r, before), p)
    ensures Applies(r, p)
  {
  }

  /** Carried-over matchers can only hand a packet on to a later rule; the packet stays with its rule
      exactly when it satisfies what that one row carries over. */
  lemma SameRuleExactly(rules: seq<Rule>, before: seq<Row>, p: Packet)
    ensures var i, j := FirstIndex(rules, p), FirstIndex(CarriedAll(rules, before), p);
            i <= j && (i < |rules| ==> (j == i <==> Applies(Carried(rules[i], before), p)))
  {
    var carried := CarriedAll(rules, before);
    var j := FirstIndex(carried, p);
    if j < |rules| { CarriedNarrows(rules[j], before, p); }
  }

  // ----- The rows of a reconciled table

  /** Whatever the start, the installed rows are the rules with what their old rows carried over. */
  lemma InstalledCarried(some: seq<Rule>, rules: seq<Rule>, before: Table, after: Table)
    requires TableReconciled(rules, before, after) && Unambiguous(rules, before.rows)
    requires forall r :: r in some ==> r in rules
    ensures Mirrors(Block(some, after.rows), CarriedAll(some, before.rows))
  {
    LandedStands(rules, before.rows, after.rows);
    BlockIndex(some, after.rows);
    var block, carried := Block(some, after.rows), CarriedAll(some, before.rows);
    forall i | 0 <= i < |some|
      ensures block[i].action == carried[i].action && block[i].disabled == OrElse(carried[i].disabled, false)
      ensures block[i].matchers == carried[i].matchers
    {
      assert some[i] in some;
      RowCarries(some[i], before.rows, block[i]);
    }
  }

  lemma RowCarries(r: Rule, before: seq<Row>, row: Row)
    requires Conforms(before, r, row)
    ensures row.action == r.action && row.disabled == OrElse(r.disabled, false)
    ensures row.matchers == Carried(r, before).matchers
  {
  }

  /** The installed rows say exactly what the rules say if and only if no row that was set carried
      a matcher its rule does not name. */
  lemma InstalledExactly(rules: seq<Rule>, before: Table, after: Table)
    requires TableReconciled(rules, before, after) && Unambiguous(rules, before.rows)
    ensures Mirrors(Block(rules, after.rows), rules) <==> NoStray(rules, before.rows)
  {
    InstalledCarried(rules, rules, before, after);
    CleanExactly(rules, before.rows);
    var block, carried := Block(rules, after.rows), CarriedAll(rules, before.rows);
    if Mirrors(block, rules) {
      forall i | 0 <= i < |rules| ensures carried[i] == rules[i] { assert carried[i].matchers == block[i].matchers; }
    }
  }

  /** A table without the policy's rules. */
  function Foreign(rules: seq<Rule>, rows: seq<Row>): seq<Row> { Keep(rows, Unlabelled(Comments(rules))) }

  /** The rules as rows, with what is carried over. */
  function CarriedRows(rules: seq<Rule>, before: seq<Row>): seq<Row> {
    if rules == [] then [] else [NewRow(Carried(rules[0], before), 0)] + CarriedRows(rules[1..], before)
  }

  lemma {:induction false} CarriedRowsMirror(rules: seq<Rule>, before: seq<Row>)
    ensures Mirrors(CarriedRows(rules, before), CarriedAll(rules, before))
  {
    if rules != [] { CarriedRowsMirror(rules[1..], before); }
  }

  /** What the run amounts to: the rules in front, the start's foreign rows behind them. */
  function Composed(rules: seq<Rule>, before: seq<Row>): seq<Row> { CarriedRows(rules, before) + Foreign(rules, before) }

  lemma {:induction false} CarriedChain(rules: seq<Rule>, before: seq<Row>, chain: string)
    ensures Keep(CarriedRows(rules, before), InChain(chain)) == CarriedRows(RulesOf(rules, chain), before)
  {
    if rules != [] {
      CarriedChain(rules[1..], before, chain);
      var rows := CarriedRows(rules, before);
      assert rows[0].chain == rules[0].chain && rows[1..] == CarriedRows(rules[1..], before);
      if rules[0].chain == chain {
        var own := RulesOf(rules, chain);
        assert own[0] == rules[0] && own[1..] == RulesOf(rules[1..], chain);
      } else {
        assert RulesOf(rules, chain) == RulesOf(rules[1..], chain);
        assert Keep(rows, InChain(chain)) == [] + Keep(rows[1..], InChain(chain));
      }
    }
  }

  lemma ComposedChain(rules: seq<Rule>, before: seq<Row>, chain: string)
    ensures Keep(Composed(rules, before), InChain(chain)) ==
            CarriedRows(RulesOf(rules, chain), before) + Keep(Foreign(rules, before), InChain(chain))
  {
    KeepConcat(CarriedRows(rules, before), Foreign(rules, before), InChain(chain));
    CarriedChain(rules, before, chain);
  }

  lemma ComposedCourse(rules: seq<Rule>, before: Table, after: Table, chain: string, p: Packet)
    requires TableReconciled(rules, before, after) && Unambiguous(rules, before.rows)
    ensures Course(Keep(after.rows, InChain(chain)), p) == Course(Keep(Composed(rules, before.rows), InChain(chain)), p)
  {
    var own, rest := RulesOf(rules, chain), Keep(Foreign(rules, before.rows), InChain(chain));
    forall r | r in own ensures r in rules { RulesOfMember(rules, chain, r); }
    InstalledCarried(own, rules, before, after);
    CarriedRowsMirror(own, before.rows);
    ComposedChain(rules, before.rows, chain);
    CourseSame(Block(own, after.rows), CarriedRows(own, before.rows), rest, p);
  }

  /** In a reconciled table every chain gives every packet, from wherever it is entered, the verdict it
      would get with the rules in front of the foreign rows. */
  lemma ComposedVerdict(rules: seq<Rule>, before: Table, after: Table, chain: string, p: Packet, stack: set<string>)
    requires TableReconciled(rules, before, after) && Unambiguous(rules, before.rows)
    ensures WalkChain(after.rows, chain, p, stack) == WalkChain(Composed(rules, before.rows), chain, p, stack)
  {
    var composed := Composed(rules, before.rows);
    forall c ensures Course(Keep(after.rows, InChain(c)), p) == Course(Keep(composed, InChain(c)), p) {
      ComposedCourse(rules, before, after, c, p);
    }
    KeptIsPart(after.rows, chain);
    KeptIsPart(composed, chain);
    WalkByCourse(after.rows, composed, Keep(after.rows, InChain(chain)), Keep(composed, InChain(chain)), p, stack);
  }

  // ----- The three shapes of chain

  /** The foreign rows of a chain are rows of the composed table. */
  lemma RestIsPart(rules: seq<Rule>, before: seq<Row>, chain: string)
    ensures forall row :: row in Keep(Foreign(rules, before), InChain(chain)) ==> row in Composed(rules, before)
  {
    KeptIsPart(Foreign(rules, before), chain);
  }

  /** A chain of final rules: the first rule whose row still matches decides, and the foreign rows
      behind them if none does. */
  lemma ChainVerdict(own: seq<Rule>, rules: seq<Rule>, chain: string, before: seq<Row>, p: Packet, stack: set<string>)
    requires RulesOf(rules, chain) == own && forall r :: r in own ==> Final(r.action)
    ensures var j, rest := FirstIndex(CarriedAll(own, before), p), Keep(Foreign(rules, before), InChain(chain));
            && (forall row :: row in rest ==> row in Composed(rules, before))
            && (j < |own| ==> Final(own[j].action))
            && WalkChain(Composed(rules, before), chain, p, stack) ==
               if j < |own| then VerdictOf(own[j].action) else Walk(Composed(rules, before), rest, p, stack)
  {
    var carried, rest := CarriedAll(own, before), Keep(Foreign(rules, before), InChain(chain));
    forall r | r in carried ensures Final(r.action) {
      var i :| 0 <= i < |own| && carried[i] == r;
      assert own[i] in own;
    }
    RestIsPart(rules, before, chain);
    ComposedChain(rules, before, chain);
    CarriedRowsMirror(own, before);
    KeptIsPart(Composed(rules, before), chain);
    WalkBlock(Composed(rules, before), CarriedRows(own, before), rest, carried, p, stack);
    FirstMatchAt(carried, p);
    assert forall i :: 0 <= i < |own| ==> own[i] in own;
  }

  /** For a packet that no row of the chain's own rules matches, and for a chain without own rules, the
      course is that of the foreign rows; where the first match returns, there is none. */
  lemma ChainCourse(own: seq<Rule>, rules: seq<Rule>, chain: string, before: seq<Row>, p: Packet)
    requires RulesOf(rules, chain) == own
    ensures var j := FirstIndex(CarriedAll(own, before), p);
            && (j == |own| ==> Course(Keep(Composed(rules, before), InChain(chain)), p)
                               == Course(Keep(Foreign(rules, before), InChain(chain)), p))
            && (j < |own| && own[j].action == Return ==> Course(Keep(Composed(rules, before), InChain(chain)), p) == [])
  {
    ComposedChain(rules, before, chain);
    CarriedCourse(own, before, Keep(Foreign(rules, before), InChain(chain)), p);
  }

  lemma FirstCarried(own: seq<Rule>, before: seq<Row>, p: Packet)
    requires own != []
    ensures FirstIndex(CarriedAll(own, before), p) ==
            if Applies(Carried(own[0], before), p) then 0 else 1 + FirstIndex(CarriedAll(own[1..], before), p)
  {
    assert CarriedAll(own, before)[1..] == CarriedAll(own[1..], before);
  }

  lemma CourseStep(row: Row, rest: seq<Row>, p: Packet)
    ensures !Hits(row, p) ==> Course([row] + rest, p) == Course(rest, p)
    ensures Hits(row, p) && row.action == Return ==> Course([row] + rest, p) == []
  {
    assert ([row] + rest)[1..] == rest;
  }

  lemma {:induction false} CarriedCourse(own: seq<Rule>, before: seq<Row>, rest: seq<Row>, p: Packet)
    ensures var j := FirstIndex(CarriedAll(own, before), p);
            && (j == |own| ==> Course(CarriedRows(own, before) + rest, p) == Course(rest, p))
            && (j < |own| && own[j].action == Return ==> Course(CarriedRows(own, before) + rest, p) == [])
  {
    if own == [] {
      assert CarriedRows(own, before) + rest == rest;
    } else {
      var row, tail := NewRow(Carried(own[0], before), 0), CarriedRows(own[1..], before) + rest;
      assert CarriedRows(own, before) + rest == [row] + tail;
      assert Hits(row, p) <==> Applies(Carried(own[0], before), p);
      FirstCarried(own, before, p);
      CourseStep(row, tail, p);
      CarriedCourse(own[1..], before, rest, p);
    }
  }

  /** A chain whose only own rule is a jump: the target decides if the jump's row still matches the
      packet and the target does not return; otherwise the foreign rows behind the jump decide. */
  lemma JumpVerdict(rules: seq<Rule>, jump: Rule, before: seq<Row>, p: Packet)
    requires RulesOf(rules, jump.chain) == [jump] && jump.action.Jump? && jump.action.target != jump.chain
    ensures var composed, rest := Composed(rules, before), Keep(Foreign(rules, before), InChain(jump.chain));
            var inner := WalkChain(composed, jump.action.target, p, {jump.chain, jump.action.target});
            && (forall row :: row in rest ==> row in composed)
            && Evaluate(composed, jump.chain, p) ==
               if Applies(Carried(jump, before), p) && inner != Returned then inner
               else Walk(composed, rest, p, {jump.chain})
  {
    var composed, rest := Composed(rules, before), Keep(Foreign(rules, before), InChain(jump.chain));
    RestIsPart(rules, before, jump.chain);
    ComposedChain(rules, before, jump.chain);
    var row := NewRow(Carried(jump, before), 0);
    assert [jump][1..] == [] && CarriedRows([jump], before) == [row];
    KeptIsPart(composed, jump.chain);
    assert Hits(row, p) <==> Applies(Carried(jump, before), p);
    assert Keep(composed, InChain(jump.chain)) == [row] + rest;
    WalkJump(composed, row, rest, p, {jump.chain});
    assert {jump.chain} + {jump.action.target} == {jump.chain, jump.action.target};
  }

  /** The foreign rows of a chain decide as in any table that holds them and whose other chains, as far
      as it jumps to them, take the same course. */
  lemma ForeignWalk(rules: seq<Rule>, before: seq<Row>, table: seq<Row>, chain: string, p: Packet)
    requires Keep(table, InChain(chain)) == Keep(Foreign(rules, before), InChain(chain))
    requires forall c :: c in Targets(table) && c != chain ==>
               Course(Keep(table, InChain(c)), p) == Course(Keep(Composed(rules, before), InChain(c)), p)
    ensures var rest := Keep(Foreign(rules, before), InChain(chain));
            && (forall row :: row in rest ==> row in Composed(rules, before))
            && Walk(Composed(rules, before), rest, p, {chain}) == Evaluate(table, chain, p)
  {
    var rest := Keep(Foreign(rules, before), InChain(chain));
    RestIsPart(rules, before, chain);
    KeptIsPart(table, chain);
    WalkByCourse(table, Composed(rules, before), rest, rest, p, {chain});
  }

  lemma {:induction false} NoRulesOf(rules: seq<Rule>, chain: string)
    requires forall r :: r in rules ==> r.chain != chain
    ensures RulesOf(rules, chain) == []
  {
    if rules != [] {
      assert rules[0] in rules;
      NoRulesOf(rules[1..], chain);
    }
  }

  /** A chain without own rules takes the foreign rows' course. */
  lemma OtherCourse(rules: seq<Rule>, before: seq<Row>, chain: string, p: Packet)
    requires forall r :: r in rules ==> r.chain != chain
    ensures Course(Keep(Composed(rules, before), InChain(chain)), p) == Course(Keep(Foreign(rules, before), InChain(chain)), p)
  {
    NoRulesOf(rules, chain);
    ChainCourse([], rules, chain, before, p);
  }
}
