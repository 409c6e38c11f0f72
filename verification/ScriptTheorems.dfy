/**
 Whole runs of the reconciliation script, over all three tables: when it succeeds, what every
 table then holds, what an aborted run leaves behind, and that a second run changes nothing.
 */
module ScriptTheorems {
  import opened Options
  import opened FirewallTable
  import opened PolicyScript
  import opened Reconciliation
  import opened Ordering
  import opened Settling

  /** The rules of one table, in order. */
  function RulesAt(rules: seq<Rule>, n: TableName): seq<Rule> {
    if rules == [] then []
    else (if rules[0].table == n then [rules[0]] else []) + RulesAt(rules[1..], n)
  }

  ghost predicate DistinctPerTable(rules: seq<Rule>) {
    forall n: TableName :: DistinctComments(RulesAt(rules, n))
  }

  lemma {:induction false} RulesAtMember(rules: seq<Rule>, n: TableName, r: Rule)
    ensures r in RulesAt(rules, n) <==> r in rules && r.table == n
  {
    if rules != [] { RulesAtMember(rules[1..], n, r); }
  }

  lemma {:induction false} RulesAtConcat(a: seq<Rule>, b: seq<Rule>, n: TableName)
    ensures RulesAt(a + b, n) == RulesAt(a, n) + RulesAt(b, n)
  {
    if a == [] {
      assert a + b == b;
    } else {
      var x := if a[0].table == n then [a[0]] else [];
      assert (a + b)[0] == a[0] && (a + b)[1..] == a[1..] + b;
      RulesAtConcat(a[1..], b, n);
      assert x + (RulesAt(a[1..], n) + RulesAt(b, n)) == (x + RulesAt(a[1..], n)) + RulesAt(b, n);
    }
  }

  // ----- The three phases

  predicate GuardsPass(chains: seq<(TableName, string)>, ts: Tables) {
    forall c :: c in chains ==> AllOwned(Keep(ts.At(c.0).rows, InChain(c.1)))
  }

  lemma {:induction false} GuardsRun(chains: seq<(TableName, string)>, ts: Tables)
    ensures Run(Guards(chains), ts) == if GuardsPass(chains, ts) then Completed(ts) else Aborted(ts, UNOWNED_ERROR)
  {
    if chains != [] {
      assert chains[0] in chains;
      assert Guards(chains)[1..] == Guards(chains[1..]);
      GuardsRun(chains[1..], ts);
      assert forall c :: c in chains <==> c == chains[0] || c in chains[1..];
    }
  }

  /** The add-or-set lines act on each table as that table's rules alone would. */
  lemma {:induction false} UpsertsRun(rules: seq<Rule>, ts: Tables)
    requires ts.Valid()
    ensures Run(Upserts(rules), ts).Completed? <==> forall n: TableName :: UpsertAll(RulesAt(rules, n), ts.At(n)).Some?
    ensures Run(Upserts(rules), ts).Completed? ==>
              forall n: TableName :: Run(Upserts(rules), ts).tables.At(n) == UpsertAll(RulesAt(rules, n), ts.At(n)).value
    ensures Run(Upserts(rules), ts).Aborted? ==> Run(Upserts(rules), ts).error == AMBIGUOUS_ERROR
  {
    if rules != [] {
      var r := rules[0];
      assert Upserts(rules)[1..] == Upserts(rules[1..]);
      UpsertEffect(ts.At(r.table), r);
      var here := RulesAt(rules, r.table);
      assert here[0] == r && here[1..] == RulesAt(rules[1..], r.table);
      if Upserted(ts.At(r.table), r).Some? {
        var next := ts.With(r.table, Upserted(ts.At(r.table), r).value);
        UpsertsRun(rules[1..], next);
        forall n: TableName ensures UpsertAll(RulesAt(rules, n), ts.At(n)) == UpsertAll(RulesAt(rules[1..], n), next.At(n)) {
          if n != r.table { assert RulesAt(rules, n) == RulesAt(rules[1..], n); }
        }
      } else {
        assert UpsertAll(here, ts.At(r.table)).None?;
      }
    }
  }

  ghost predicate AllStanding(rules: seq<Rule>, ts: Tables) {
    forall n: TableName :: Standing(RulesAt(rules, n), ts.At(n).rows)
  }

  /** A table with its rules moved to the heads of their chains. */
  function Moved(rules: seq<Rule>, t: Table): Table { Table(RaiseAll(rules, t.rows), t.nextId) }

  lemma RulesAtCons(rules: seq<Rule>, n: TableName)
    requires rules != []
    ensures RulesAt(rules, n) ==
            if rules[0].table == n then [rules[0]] + RulesAt(rules[1..], n) else RulesAt(rules[1..], n)
  {
  }

  lemma AtWith(ts: Tables, n: TableName, t: Table, m: TableName)
    ensures ts.With(n, t).At(m) == if m == n then t else ts.At(m)
  {
  }

  lemma WithValid(ts: Tables, n: TableName, t: Table)
    requires ts.Valid() && WellFormed(t)
    ensures ts.With(n, t).Valid()
  {
  }

  /** The moves never fail once every rule is there, and raise each table's rules. */
  lemma {:induction false} PromotesRun(rules: seq<Rule>, ts: Tables)
    requires ts.Valid() && AllStanding(rules, ts)
    ensures Run(Promotes(rules), ts).Completed?
    ensures forall n: TableName :: Run(Promotes(rules), ts).tables.At(n) == Moved(RulesAt(rules, n), ts.At(n))
    ensures Run(Promotes(rules), ts).tables.Valid()
  {
    if rules != [] {
      var r := rules[0];
      forall n: TableName ensures Standing(RulesAt(rules[1..], n), ts.At(n).rows) {
        assert Standing(RulesAt(rules, n), ts.At(n).rows);
        RulesAtCons(rules, n);
        forall x | x in RulesAt(rules[1..], n) ensures x in RulesAt(rules, n) {}
      }
      PromotesRun(rules[1..], ts);
      var mid := Run(Promotes(rules[1..]), ts).tables;
      RunConcat(Promotes(rules[1..]), [Promote(r)], ts);
      RunOne(Promote(r), mid);
      PromoteLast(rules, ts, mid);
    }
  }

  lemma PromoteFirst(rules: seq<Rule>, before: Table)
    requires rules != [] && Standing(rules, before.rows) && WellFormed(Moved(rules[1..], before))
    ensures Promoted(Moved(rules[1..], before), rules[0]) == Some(Moved(rules, before))
    ensures WellFormed(Moved(rules, before))
  {
    var mid := Moved(rules[1..], before);
    assert rules[0] in rules && forall r :: r in rules[1..] ==> r in rules;
    RaiseAllKeeps(rules[1..], before.rows);
    PromoteRaises(mid, rules[0]);
    forall row ensures row in Raised(mid.rows, rules[0]) <==> row in mid.rows { RaisedMembers(mid.rows, rules[0], row); }
  }

  lemma PromoteLast(rules: seq<Rule>, ts: Tables, mid: Tables)
    requires rules != [] && AllStanding(rules, ts) && mid.Valid()
    requires forall n: TableName :: mid.At(n) == Moved(RulesAt(rules[1..], n), ts.At(n))
    ensures var out := Step(Promote(rules[0]), mid);
            && out.Completed? && out.tables.Valid()
            && forall n: TableName :: out.tables.At(n) == Moved(RulesAt(rules, n), ts.At(n))
  {
    var r, n0 := rules[0], rules[0].table;
    var here, t := RulesAt(rules, n0), Moved(RulesAt(rules, n0), ts.At(n0));
    RulesAtCons(rules, n0);
    assert here[0] == r && here[1..] == RulesAt(rules[1..], n0);
    assert Standing(here, ts.At(n0).rows) && WellFormed(mid.At(n0));
    PromoteFirst(here, ts.At(n0));
    assert Step(Promote(r), mid) == Completed(mid.With(n0, t));
    WithValid(mid, n0, t);
    forall n: TableName ensures mid.With(n0, t).At(n) == Moved(RulesAt(rules, n), ts.At(n)) {
      AtWith(mid, n0, t, n);
      if n != n0 { RulesAtCons(rules, n); }
    }
  }

  lemma RunOne(cmd: Command, ts: Tables)
    ensures Run([cmd], ts) == Step(cmd, ts)
  {
  }

  // ----- What a run leaves in one table

  /** Foreign rows keep contents and order; every chain is its own rules in generation order, then
      its foreign rows; each rule's row is the old one with the rule's properties, or a new one. */
  ghost predicate TableReconciled(rules: seq<Rule>, before: Table, after: Table) {
    && WellFormed(after)
    && Landed(rules, before.rows, after.rows)
    && Keep(after.rows, Unlabelled(Comments(rules))) == Keep(before.rows, Unlabelled(Comments(rules)))
    && forall chain: string ::
         Keep(after.rows, InChain(chain)) ==
         Block(RulesOf(rules, chain), after.rows)
         + Keep(Keep(before.rows, Unlabelled(Comments(rules))), InChain(chain))
  }

  lemma LandedStands(rules: seq<Rule>, before: seq<Row>, rows: seq<Row>)
    requires Landed(rules, before, rows)
    ensures Standing(rules, rows)
  {
  }

  /** In a chain, the rows with any of the rules' comments are those of the chain's own rules. */
  lemma ChainLabels(rules: seq<Rule>, rows: seq<Row>, chain: string)
    requires Standing(rules, rows)
    ensures Keep(Keep(rows, InChain(chain)), Unlabelled(Comments(RulesOf(rules, chain))))
            == Keep(Keep(rows, Unlabelled(Comments(rules))), InChain(chain))
  {
    var own := Keep(rows, InChain(chain));
    forall x | x in own ensures x.comment in Comments(RulesOf(rules, chain)) <==> x.comment in Comments(rules) {
      KeepMember(rows, InChain(chain), x);
      if x.comment in Comments(rules) {
        var r :| r in rules && r.comment == x.comment;
        OnlyRow(rows, r, x);
        RulesOfMember(rules, chain, r);
      }
      if x.comment in Comments(RulesOf(rules, chain)) {
        var r :| r in RulesOf(rules, chain) && r.comment == x.comment;
        RulesOfMember(rules, chain, r);
      }
    }
    KeepSame(own, Unlabelled(Comments(RulesOf(rules, chain))), Unlabelled(Comments(rules)));
    KeepCommutes(rows, InChain(chain), Unlabelled(Comments(rules)));
  }

  lemma TableIsReconciled(rules: seq<Rule>, before: Table)
    requires DistinctComments(rules) && WellFormed(before) && UpsertAll(rules, before).Some?
    ensures var mid := UpsertAll(rules, before).value;
            && WellFormed(mid) && Standing(rules, mid.rows)
            && TableReconciled(rules, before, Moved(rules, mid))
  {
    var mid, labels := UpsertAll(rules, before).value, Comments(rules);
    UpsertAllLands(rules, before);
    LandedStands(rules, before.rows, mid.rows);
    forall r | r in rules ensures r.comment in labels {}
    UpsertAllKeeps(rules, before, Unlabelled(labels));
    RaiseAllKeeps(rules, mid.rows);
    RaiseAllKeepsForeign(rules, mid.rows, labels);
    var after := RaiseAll(rules, mid.rows);
    forall chain: string
      ensures Keep(after, InChain(chain)) ==
              Block(RulesOf(rules, chain), after) + Keep(Keep(before.rows, Unlabelled(labels)), InChain(chain))
    {
      ChainAfterRaiseAll(rules, mid.rows, chain);
      ChainLabels(rules, mid.rows, chain);
      BlockSame(RulesOf(rules, chain), after, mid.rows);
    }
  }

  // ----- Whole runs

  ghost predicate Reconciled(rules: seq<Rule>, before: Tables, after: Tables) {
    forall n: TableName :: TableReconciled(RulesAt(rules, n), before.At(n), after.At(n))
  }

  ghost predicate UnambiguousTables(rules: seq<Rule>, ts: Tables) {
    forall n: TableName :: Unambiguous(RulesAt(rules, n), ts.At(n).rows)
  }

  /** After a successful add-or-set phase the moves run through and every table is reconciled. */
  lemma MovesFinish(rules: seq<Rule>, ts: Tables)
    requires ts.Valid() && DistinctPerTable(rules) && Run(Upserts(rules), ts).Completed?
    ensures var mid := Run(Upserts(rules), ts).tables;
            && mid.Valid() && AllStanding(rules, mid)
            && Run(Promotes(rules), mid).Completed? && Reconciled(rules, ts, Run(Promotes(rules), mid).tables)
  {
    UpsertsRun(rules, ts);
    var mid := Run(Upserts(rules), ts).tables;
    forall n: TableName
      ensures WellFormed(mid.At(n)) && Standing(RulesAt(rules, n), mid.At(n).rows)
      ensures TableReconciled(RulesAt(rules, n), ts.At(n), Moved(RulesAt(rules, n), mid.At(n)))
    {
      assert DistinctComments(RulesAt(rules, n));
      assert WellFormed(ts.At(n));
      TableIsReconciled(RulesAt(rules, n), ts.At(n));
    }
    assert mid.Valid() by {
      assert WellFormed(mid.At(Filter4)) && WellFormed(mid.At(Filter6)) && WellFormed(mid.At(Mangle4));
    }
    PromotesRun(rules, mid);
  }

  lemma UpsertsSucceed(rules: seq<Rule>, ts: Tables)
    requires ts.Valid() && DistinctPerTable(rules)
    ensures Run(Upserts(rules), ts).Completed? <==> UnambiguousTables(rules, ts)
  {
    UpsertsRun(rules, ts);
    forall n: TableName
      ensures UpsertAll(RulesAt(rules, n), ts.At(n)).Some? <==> Unambiguous(RulesAt(rules, n), ts.At(n).rows)
    {
      assert DistinctComments(RulesAt(rules, n));
      assert WellFormed(ts.At(n));
      UpsertAllSucceeds(RulesAt(rules, n), ts.At(n));
    }
  }

  /** The script succeeds exactly when the guarded chains are owned and no comment is ambiguous,
      and then every table is reconciled. */
  lemma ScriptReconciles(chains: seq<(TableName, string)>, rules: seq<Rule>, ts: Tables)
    requires ts.Valid() && DistinctPerTable(rules)
    ensures Run(Script(chains, rules), ts).Completed? <==> GuardsPass(chains, ts) && UnambiguousTables(rules, ts)
    ensures Run(Script(chains, rules), ts).Completed? ==> Reconciled(rules, ts, Run(Script(chains, rules), ts).tables)
  {
    RunConcat(Guards(chains) + Upserts(rules), Promotes(rules), ts);
    RunConcat(Guards(chains), Upserts(rules), ts);
    GuardsRun(chains, ts);
    UpsertsSucceed(rules, ts);
    if GuardsPass(chains, ts) && UnambiguousTables(rules, ts) { MovesFinish(rules, ts); }
  }

  /** A foreign rule in a guarded chain stops the script before any table changes; the only other
      error is an ambiguous comment, raised before the first move. */
  lemma AbortsBeforeMoves(chains: seq<(TableName, string)>, rules: seq<Rule>, ts: Tables)
    requires ts.Valid() && DistinctPerTable(rules)
    ensures !GuardsPass(chains, ts) ==> Run(Script(chains, rules), ts) == Aborted(ts, UNOWNED_ERROR)
    ensures GuardsPass(chains, ts) && Run(Script(chains, rules), ts).Aborted? ==>
              && Run(Script(chains, rules), ts).error == AMBIGUOUS_ERROR
              && Run(Script(chains, rules), ts) == Run(Upserts(rules), ts)
  {
    RunConcat(Guards(chains) + Upserts(rules), Promotes(rules), ts);
    RunConcat(Guards(chains), Upserts(rules), ts);
    GuardsRun(chains, ts);
    UpsertsRun(rules, ts);
    if GuardsPass(chains, ts) && Run(Upserts(rules), ts).Completed? { MovesFinish(rules, ts); }
  }

  // ----- Foreign rows, in completed and aborted runs alike

  ghost predicate ForeignKept(labels: set<string>, before: Tables, after: Tables) {
    forall n: TableName :: Keep(after.At(n).rows, Unlabelled(labels)) == Keep(before.At(n).rows, Unlabelled(labels))
  }

  lemma {:induction false} UpsertsKeepForeign(rules: seq<Rule>, ts: Tables, labels: set<string>)
    requires ts.Valid() && Comments(rules) <= labels
    ensures ForeignKept(labels, ts, Run(Upserts(rules), ts).tables)
  {
    if rules != [] {
      var r := rules[0];
      assert r in rules && r.comment in Comments(rules);
      assert Upserts(rules)[1..] == Upserts(rules[1..]);
      if Upserted(ts.At(r.table), r).Some? {
        var t := Upserted(ts.At(r.table), r).value;
        var next := ts.With(r.table, t);
        assert WellFormed(ts.At(r.table));
        UpsertEffect(ts.At(r.table), r);
        UpsertKeepsOthers(ts.At(r.table), r, Unlabelled(labels));
        WithValid(ts, r.table, t);
        forall x | x in rules[1..] ensures x.comment in labels { assert x in rules; }
        UpsertsKeepForeign(rules[1..], next, labels);
        forall n: TableName ensures Keep(next.At(n).rows, Unlabelled(labels)) == Keep(ts.At(n).rows, Unlabelled(labels)) {
          AtWith(ts, r.table, t, n);
        }
        assert Run(Upserts(rules), ts) == Run(Upserts(rules[1..]), next);
      }
    }
  }

  lemma UnlabelledMore(rows: seq<Row>, a: set<string>, b: set<string>, other: seq<Row>)
    requires a <= b && Keep(rows, Unlabelled(a)) == Keep(other, Unlabelled(a))
    ensures Keep(rows, Unlabelled(b)) == Keep(other, Unlabelled(b))
  {
    KeepImplied(rows, Unlabelled(a), Unlabelled(b));
    KeepImplied(other, Unlabelled(a), Unlabelled(b));
  }

  /** In every run, rows without a generated comment keep their contents and their order. */
  lemma ForeignRowsSurvive(chains: seq<(TableName, string)>, rules: seq<Rule>, ts: Tables)
    requires ts.Valid() && DistinctPerTable(rules)
    ensures ForeignKept(Comments(rules), ts, Run(Script(chains, rules), ts).tables)
  {
    var out := Run(Script(chains, rules), ts);
    if out.Completed? {
      ScriptReconciles(chains, rules, ts);
      forall n: TableName
        ensures Keep(out.tables.At(n).rows, Unlabelled(Comments(rules))) == Keep(ts.At(n).rows, Unlabelled(Comments(rules)))
      {
        assert TableReconciled(RulesAt(rules, n), ts.At(n), out.tables.At(n));
        forall r | r in RulesAt(rules, n) ensures r.comment in Comments(rules) { RulesAtMember(rules, n, r); }
        UnlabelledMore(out.tables.At(n).rows, Comments(RulesAt(rules, n)), Comments(rules), ts.At(n).rows);
      }
    } else {
      AbortsBeforeMoves(chains, rules, ts);
      UpsertsKeepForeign(rules, ts, Comments(rules));
    }
  }

  // ----- The second run

  /** The rules are those of one chain followed by those of another. */
  ghost predicate Grouped(rules: seq<Rule>) {
    exists k: nat, a: string, b: string ::
      k <= |rules| && OneChain(rules[..k], a) && OneChain(rules[k..], b) && a != b
  }

  lemma SplitRules(rules: seq<Rule>, k: nat, rows: seq<Row>)
    requires DistinctComments(rules) && Standing(rules, rows) && k <= |rules|
    ensures DistinctComments(rules[..k]) && DistinctComments(rules[k..]) && Apart(rules[..k], rules[k..])
    ensures Standing(rules[..k], rows) && Standing(rules[k..], rows)
  {
  }

  /** Moving the rules a second time leaves the whole table as it is. */
  lemma RaiseTwice(rules: seq<Rule>, rows: seq<Row>)
    requires DistinctComments(rules) && Standing(rules, rows) && Grouped(rules)
    ensures RaiseAll(rules, RaiseAll(rules, rows)) == RaiseAll(rules, rows)
  {
    var k: nat, chainA, chainB :| k <= |rules| && OneChain(rules[..k], chainA) && OneChain(rules[k..], chainB)
                                   && chainA != chainB;
    var a, b := rules[..k], rules[k..];
    assert rules == a + b;
    RaiseAllConcat(a, b, rows);
    RaiseAllConcat(a, b, RaiseAll(rules, rows));
    SplitRules(rules, k, rows);
    TwoChainsSettle(a, chainA, b, chainB, rows);
  }

  ghost predicate GroupedTables(rules: seq<Rule>) {
    forall n: TableName :: Grouped(RulesAt(rules, n))
  }

  /** The guarded chains stay owned: they hold generated rules and rows that passed before. */
  lemma GuardsStillPass(chains: seq<(TableName, string)>, rules: seq<Rule>, before: Tables, after: Tables)
    requires GuardsPass(chains, before) && Reconciled(rules, before, after)
    requires forall r :: r in rules ==> Owned(r.comment)
    ensures GuardsPass(chains, after)
  {
    forall c | c in chains ensures AllOwned(Keep(after.At(c.0).rows, InChain(c.1))) {
      forall row | row in Keep(after.At(c.0).rows, InChain(c.1)) ensures Owned(row.comment) {
        RowStaysOwned(RulesAt(rules, c.0), before.At(c.0), after.At(c.0), c.1, row, rules, c.0);
      }
    }
  }

  lemma RowStaysOwned(here: seq<Rule>, before: Table, after: Table, chain: string, row: Row,
                      rules: seq<Rule>, n: TableName)
    requires here == RulesAt(rules, n) && TableReconciled(here, before, after)
    requires forall r :: r in rules ==> Owned(r.comment)
    requires AllOwned(Keep(before.rows, InChain(chain)))
    requires row in Keep(after.rows, InChain(chain))
    ensures Owned(row.comment)
  {
    var labels := Comments(here);
    if row in Block(RulesOf(here, chain), after.rows) {
      BlockMember(RulesOf(here, chain), after.rows, row);
      var r :| r in RulesOf(here, chain) && row.comment == r.comment;
      RulesOfMember(here, chain, r);
      RulesAtMember(rules, n, r);
    } else {
      KeepMember(Keep(before.rows, Unlabelled(labels)), InChain(chain), row);
      KeepMember(before.rows, Unlabelled(labels), row);
      KeepMember(before.rows, InChain(chain), row);
    }
  }

  /** Rules that have landed are left alone by the add-or-set lines. */
  lemma UpsertsIdle(rules: seq<Rule>, before: Tables, after: Tables)
    requires after.Valid() && Reconciled(rules, before, after)
    ensures Run(Upserts(rules), after) == Completed(after)
  {
    forall n: TableName ensures UpsertAll(RulesAt(rules, n), after.At(n)) == Some(after.At(n)) {
      var here, rows := RulesAt(rules, n), after.At(n).rows;
      assert TableReconciled(here, before.At(n), after.At(n));
      forall r | r in here
        ensures |LabelledRows(rows, r)| == 1 && Apply(r, LabelledRows(rows, r)[0]) == LabelledRows(rows, r)[0]
      {
        ConformingIsFixed(before.At(n).rows, r, LabelledRows(rows, r)[0]);
      }
      UpsertAllIdle(here, after.At(n));
    }
    UpsertsRun(rules, after);
    SameTables(Run(Upserts(rules), after).tables, after);
  }

  lemma SameTables(a: Tables, b: Tables)
    requires forall n: TableName :: a.At(n) == b.At(n)
    ensures a == b
  {
    assert a.At(Filter4) == b.At(Filter4) && a.At(Filter6) == b.At(Filter6) && a.At(Mangle4) == b.At(Mangle4);
  }

  lemma PromotesIdle(rules: seq<Rule>, mid: Tables)
    requires DistinctPerTable(rules) && GroupedTables(rules) && mid.Valid() && AllStanding(rules, mid)
    ensures Run(Promotes(rules), mid).Completed?
    ensures var after := Run(Promotes(rules), mid).tables; Run(Promotes(rules), after) == Completed(after)
  {
    PromotesRun(rules, mid);
    var after := Run(Promotes(rules), mid).tables;
    forall n: TableName
      ensures Standing(RulesAt(rules, n), after.At(n).rows)
      ensures RaiseAll(RulesAt(rules, n), after.At(n).rows) == after.At(n).rows
    {
      assert DistinctComments(RulesAt(rules, n)) && Grouped(RulesAt(rules, n));
      assert Standing(RulesAt(rules, n), mid.At(n).rows);
      RaiseAllKeeps(RulesAt(rules, n), mid.At(n).rows);
      RaiseTwice(RulesAt(rules, n), mid.At(n).rows);
    }
    PromotesRun(rules, after);
    SameTables(Run(Promotes(rules), after).tables, after);
  }

  /** Running the same script on its own result succeeds and leaves every table equal, row by row. */
  lemma SecondRunChangesNothing(chains: seq<(TableName, string)>, rules: seq<Rule>, ts: Tables)
    requires ts.Valid() && DistinctPerTable(rules) && GroupedTables(rules)
    requires forall r :: r in rules ==> Owned(r.comment)
    requires Run(Script(chains, rules), ts).Completed?
    ensures var after := Run(Script(chains, rules), ts).tables;
            Run(Script(chains, rules), after) == Completed(after)
  {
    RunConcat(Guards(chains) + Upserts(rules), Promotes(rules), ts);
    RunConcat(Guards(chains), Upserts(rules), ts);
    GuardsRun(chains, ts);
    MovesFinish(rules, ts);
    var mid := Run(Upserts(rules), ts).tables;
    PromotesIdle(rules, mid);
    PromotesRun(rules, mid);
    var after := Run(Promotes(rules), mid).tables;
    GuardsStillPass(chains, rules, ts, after);
    UpsertsIdle(rules, ts, after);
    RunConcat(Guards(chains) + Upserts(rules), Promotes(rules), after);
    RunConcat(Guards(chains), Upserts(rules), after);
    GuardsRun(chains, after);
  }
}
