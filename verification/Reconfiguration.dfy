/**
 Running the script with other arguments after an earlier run gives exactly what running it with
 those arguments at once would have given: the tables do not remember earlier configurations.
 */
module Reconfiguration {
  import opened Options
  import opened FirewallTable
  import opened PolicyScript
  import opened Reconciliation
  import opened Ordering
  import opened ScriptTheorems

  // ----- Rules that differ in values only

  predicate SameNames(a: Matchers, b: Matchers) {
    && (a.protocol.Some? <==> b.protocol.Some?) && (a.icmpType.Some? <==> b.icmpType.Some?)
    && (a.state.Some? <==> b.state.Some?) && (a.srcList.Some? <==> b.srcList.Some?)
    && (a.dstList.Some? <==> b.dstList.Some?) && (a.srcAddress.Some? <==> b.srcAddress.Some?)
    && (a.dstAddress.Some? <==> b.dstAddress.Some?) && (a.dstType.Some? <==> b.dstType.Some?)
    && a.other == map[] && b.other == map[]
  }

  /** The same rule with other values: same place, same comment, same properties named. */
  predicate Alike(a: Rule, b: Rule) {
    a.table == b.table && a.chain == b.chain && a.comment == b.comment && SameNames(a.matchers, b.matchers)
  }

  ghost predicate AllAlike(a: seq<Rule>, b: seq<Rule>) {
    |a| == |b| && forall i :: 0 <= i < |a| ==> Alike(a[i], b[i])
  }

  /** The later setting overwrites everything the earlier one wrote. */
  lemma LaterWins(a: Rule, b: Rule, row: Row, id: nat)
    requires Alike(a, b)
    ensures Apply(b, Apply(a, row)) == Apply(b, row) && Apply(b, NewRow(a, id)) == NewRow(b, id)
  {
  }

  // ----- Setting every row with a comment

  function SetBy(r: Rule, rows: seq<Row>): seq<Row> {
    if rows == [] then []
    else [if rows[0].comment == r.comment then Apply(r, rows[0]) else rows[0]] + SetBy(r, rows[1..])
  }

  lemma {:induction false} SetByAt(r: Rule, rows: seq<Row>)
    ensures |SetBy(r, rows)| == |rows|
    ensures forall i :: 0 <= i < |rows| ==>
              SetBy(r, rows)[i] == if rows[i].comment == r.comment then Apply(r, rows[i]) else rows[i]
  {
    if rows != [] { SetByAt(r, rows[1..]); }
  }

  lemma SetByConcat(r: Rule, a: seq<Row>, b: seq<Row>)
    ensures SetBy(r, a + b) == SetBy(r, a) + SetBy(r, b)
  {
    SetByAt(r, a);
    SetByAt(r, b);
    SetByAt(r, a + b);
  }

  lemma SetBySwap(r: Rule, q: Rule, rows: seq<Row>)
    requires r.comment != q.comment
    ensures SetBy(r, SetBy(q, rows)) == SetBy(q, SetBy(r, rows))
  {
  }

  lemma SetByTwice(a: Rule, b: Rule, rows: seq<Row>)
    requires Alike(a, b)
    ensures SetBy(b, SetBy(a, rows)) == SetBy(b, rows)
  {
    SetByAt(a, rows);
    SetByAt(b, rows);
    SetByAt(b, SetBy(a, rows));
    forall i | 0 <= i < |rows| ensures SetBy(b, SetBy(a, rows))[i] == SetBy(b, rows)[i] { LaterWins(a, b, rows[i], 0); }
  }

  lemma {:induction false} SetBySelect(r: Rule, rows: seq<Row>, sel: Selector)
    requires ByComment(sel)
    ensures Keep(SetBy(r, rows), sel) == SetBy(r, Keep(rows, sel))
  {
    if rows != [] {
      SetBySelect(r, rows[1..], sel);
      assert SetBy(r, rows)[1..] == SetBy(r, rows[1..]);
      if Selects(sel, rows[0]) {
        assert Keep(rows, sel)[1..] == Keep(rows[1..], sel);
      } else {
        assert Keep(rows, sel) == Keep(rows[1..], sel);
      }
    }
  }

  lemma SetByNone(r: Rule, rows: seq<Row>)
    requires forall row :: row in rows ==> row.comment != r.comment
    ensures SetBy(r, rows) == rows
  {
  }

  lemma SetByOthers(r: Rule, q: Rule, rows: seq<Row>)
    requires r.comment != q.comment
    ensures LabelledRows(SetBy(r, rows), q) == LabelledRows(rows, q)
  {
  }

  lemma SetByWellFormed(r: Rule, t: Table)
    requires WellFormed(t)
    ensures WellFormed(Table(SetBy(r, t.rows), t.nextId))
  {
    SetByAt(r, t.rows);
  }

  // ----- Add-or-set

  lemma {:induction false} SetRowsBy(rows: seq<Row>, ids: seq<nat>, r: Rule)
    requires forall row :: row in rows ==> (row.id in ids <==> row.comment == r.comment)
    ensures SetRows(rows, ids, r) == SetBy(r, rows)
  {
    if rows != [] {
      assert rows[0] in rows && forall row :: row in rows[1..] ==> row in rows;
      SetRowsBy(rows[1..], ids, r);
    }
  }

  lemma UpsertIsSet(t: Table, r: Rule)
    requires WellFormed(t) && |LabelledRows(t.rows, r)| == 1
    ensures Upserted(t, r) == Some(Table(SetBy(r, t.rows), t.nextId))
  {
    IdsOf(LabelledRows(t.rows, r));
    forall row | row in t.rows ensures row.id in FindComment(t.rows, r.comment) <==> row.comment == r.comment {
      FoundIsLabelled(t, r, row);
    }
    SetRowsBy(t.rows, FindComment(t.rows, r.comment), r);
  }

  /** Setting a row commutes with adding or setting another rule. */
  lemma UpsertSwap(t: Table, b: Rule, q: Rule)
    requires WellFormed(t) && b.comment != q.comment && |LabelledRows(t.rows, q)| <= 1
    ensures Upserted(t, q).Some?
    ensures Upserted(Table(SetBy(b, t.rows), t.nextId), q)
            == Some(Table(SetBy(b, Upserted(t, q).value.rows), Upserted(t, q).value.nextId))
  {
    var t' := Table(SetBy(b, t.rows), t.nextId);
    SetByOthers(b, q, t.rows);
    SetByWellFormed(b, t);
    IdsOf(LabelledRows(t.rows, q));
    if |LabelledRows(t.rows, q)| == 1 {
      UpsertIsSet(t, q);
      UpsertIsSet(t', q);
      SetBySwap(b, q, t.rows);
    } else {
      SetByConcat(b, t.rows, [NewRow(q, t.nextId)]);
      SetByNone(b, [NewRow(q, t.nextId)]);
    }
  }

  lemma {:induction false} UpsertAllSwap(t: Table, b: Rule, rules: seq<Rule>)
    requires WellFormed(t) && DistinctComments(rules) && Unambiguous(rules, t.rows)
    requires forall q :: q in rules ==> q.comment != b.comment
    ensures UpsertAll(rules, t).Some?
    ensures UpsertAll(rules, Table(SetBy(b, t.rows), t.nextId))
            == Some(Table(SetBy(b, UpsertAll(rules, t).value.rows), UpsertAll(rules, t).value.nextId))
    decreases |rules|
  {
    if rules != [] {
      assert rules[0] in rules && forall q :: q in rules[1..] ==> q in rules;
      UpsertSwap(t, b, rules[0]);
      UpsertEffect(t, rules[0]);
      var next := Upserted(t, rules[0]).value;
      forall q | q in rules[1..] ensures |LabelledRows(next.rows, q)| <= 1 { LaterRulesUntouched(rules, t, q); }
      UpsertAllSwap(next, b, rules[1..]);
    }
  }

  // ----- Repainting a table

  /** Sets every row that carries the comment of one of the rules. */
  function Paint(rules: seq<Rule>, rows: seq<Row>): seq<Row> {
    if rules == [] then rows else Paint(rules[1..], SetBy(rules[0], rows))
  }

  lemma UpsertAlike(t: Table, a: Rule, b: Rule)
    requires WellFormed(t) && Alike(a, b) && |LabelledRows(t.rows, a)| <= 1
    ensures Upserted(t, a).Some?
    ensures Upserted(t, b) == Some(Table(SetBy(b, Upserted(t, a).value.rows), Upserted(t, a).value.nextId))
  {
    IdsOf(LabelledRows(t.rows, a));
    if |LabelledRows(t.rows, a)| == 1 {
      UpsertIsSet(t, a);
      UpsertIsSet(t, b);
      SetByTwice(a, b, t.rows);
    } else {
      forall row | row in t.rows ensures row.comment != b.comment { KeepMember(t.rows, Labelled({a.comment}), row); }
      SetByConcat(b, t.rows, [NewRow(a, t.nextId)]);
      SetByNone(b, t.rows);
      SetByAt(b, [NewRow(a, t.nextId)]);
      LaterWins(a, b, NewRow(a, t.nextId), t.nextId);
      assert SetBy(b, [NewRow(a, t.nextId)]) == [NewRow(b, t.nextId)];
      assert LabelledRows(t.rows, b) == LabelledRows(t.rows, a);
      assert Upserted(t, a).value.rows == t.rows + [NewRow(a, t.nextId)];
    }
  }

  /** The add-or-set phase with other values is the same phase, repainted. */
  lemma {:induction false} UpsertAllAlike(t: Table, a: seq<Rule>, b: seq<Rule>)
    requires WellFormed(t) && AllAlike(a, b) && DistinctComments(a) && Unambiguous(a, t.rows)
    ensures UpsertAll(a, t).Some?
    ensures UpsertAll(b, t) == Some(Table(Paint(b, UpsertAll(a, t).value.rows), UpsertAll(a, t).value.nextId))
    decreases |a|
  {
    if a != [] {
      assert a[0] in a && forall q :: q in a[1..] ==> q in a;
      UpsertAlike(t, a[0], b[0]);
      UpsertEffect(t, a[0]);
      var next := Upserted(t, a[0]).value;
      forall q | q in a[1..] ensures |LabelledRows(next.rows, q)| <= 1 { LaterRulesUntouched(a, t, q); }
      forall q | q in a[1..] ensures q.comment != b[0].comment { LaterDiffers(a, q); }
      UpsertAllSwap(next, b[0], a[1..]);
      var painted := Table(SetBy(b[0], next.rows), next.nextId);
      SetByWellFormed(b[0], next);
      forall q | q in a[1..] ensures |LabelledRows(painted.rows, q)| <= 1 { SetByOthers(b[0], q, next.rows); }
      UpsertAllAlike(painted, a[1..], b[1..]);
      assert UpsertAll(b, t) == UpsertAll(b[1..], painted);
    }
  }

  lemma LaterDiffers(rules: seq<Rule>, q: Rule)
    requires DistinctComments(rules) && rules != [] && q in rules[1..]
    ensures q.comment != rules[0].comment
  {
  }

  /** When every rule is there already, add-or-set repaints. */
  lemma {:induction false} UpsertAllPaints(t: Table, rules: seq<Rule>)
    requires WellFormed(t) && DistinctComments(rules) && forall r :: r in rules ==> |LabelledRows(t.rows, r)| == 1
    ensures UpsertAll(rules, t) == Some(Table(Paint(rules, t.rows), t.nextId))
    decreases |rules|
  {
    if rules != [] {
      assert rules[0] in rules;
      UpsertIsSet(t, rules[0]);
      var next := Table(SetBy(rules[0], t.rows), t.nextId);
      SetByWellFormed(rules[0], t);
      forall q | q in rules[1..] ensures |LabelledRows(next.rows, q)| == 1 {
        LaterDiffers(rules, q);
        assert q in rules;
        SetByOthers(rules[0], q, t.rows);
      }
      UpsertAllPaints(next, rules[1..]);
    }
  }

  // ----- Moves and repainting commute

  /** Every row with the rule's comment is in the rule's chain. */
  ghost predicate InPlace(b: Rule, rows: seq<Row>) {
    forall row :: row in rows && row.comment == b.comment ==> row.chain == b.chain
  }

  lemma SetByHead(b: Rule, rows: seq<Row>, chain: string)
    requires InPlace(b, rows)
    ensures Head(SetBy(b, rows), chain) == Head(rows, chain)
  {
  }

  lemma SetBySplit(b: Rule, rows: seq<Row>, h: nat)
    requires h <= |rows|
    ensures |SetBy(b, rows)| == |rows|
    ensures SetBy(b, rows)[..h] == SetBy(b, rows[..h]) && SetBy(b, rows)[h..] == SetBy(b, rows[h..])
  {
    SetByAt(b, rows);
    SetByAt(b, rows[..h]);
    SetByAt(b, rows[h..]);
  }

  lemma RaisedPainted(b: Rule, rows: seq<Row>, r: Rule)
    requires InPlace(b, rows)
    ensures Raised(SetBy(b, rows), r) == SetBy(b, Raised(rows, r))
  {
    var h := Head(rows, r.chain);
    var pre, own, post := rows[..h], LabelledRows(rows, r), Keep(rows[h..], Unlabelled({r.comment}));
    SetByHead(b, rows, r.chain);
    SetBySplit(b, rows, h);
    SetBySelect(b, rows, Labelled({r.comment}));
    SetBySelect(b, rows[h..], Unlabelled({r.comment}));
    SetByConcat(b, pre + own, post);
    SetByConcat(b, pre, own);
  }

  lemma {:induction false} RaiseAllPainted(b: Rule, rules: seq<Rule>, rows: seq<Row>)
    requires InPlace(b, rows) && Standing(rules, rows)
    ensures RaiseAll(rules, SetBy(b, rows)) == SetBy(b, RaiseAll(rules, rows))
  {
    if rules != [] {
      assert forall r :: r in rules[1..] ==> r in rules;
      RaiseAllPainted(b, rules[1..], rows);
      RaiseAllKeeps(rules[1..], rows);
      RaisedPainted(b, RaiseAll(rules[1..], rows), rules[0]);
    }
  }

  lemma SetByStands(b: Rule, rows: seq<Row>, r: Rule)
    requires InPlace(b, rows) && Stands(r, rows)
    ensures Stands(r, SetBy(b, rows))
  {
    SetBySelect(b, rows, Labelled({r.comment}));
    SetByAt(b, LabelledRows(rows, r));
    KeepMember(rows, Labelled({r.comment}), LabelledRows(rows, r)[0]);
  }

  lemma SetByInPlace(b: Rule, rows: seq<Row>, r: Rule)
    requires InPlace(b, rows) && InPlace(r, rows)
    ensures InPlace(r, SetBy(b, rows))
  {
  }

  lemma {:induction false} RaiseAllPaint(paint: seq<Rule>, rules: seq<Rule>, rows: seq<Row>)
    requires (forall b :: b in paint ==> InPlace(b, rows)) && Standing(rules, rows)
    ensures RaiseAll(rules, Paint(paint, rows)) == Paint(paint, RaiseAll(rules, rows))
  {
    if paint != [] {
      var b := paint[0];
      assert b in paint && forall x :: x in paint[1..] ==> x in paint;
      forall r | r in rules ensures Stands(r, SetBy(b, rows)) { SetByStands(b, rows, r); }
      forall r | r in paint[1..] ensures InPlace(r, SetBy(b, rows)) { SetByInPlace(b, rows, r); }
      RaiseAllPaint(paint[1..], rules, SetBy(b, rows));
      RaiseAllPainted(b, rules, rows);
    }
  }

  /** Moves look at comments and chains only. */
  lemma {:induction false} RaiseAllAlike(a: seq<Rule>, b: seq<Rule>, rows: seq<Row>)
    requires AllAlike(a, b)
    ensures RaiseAll(a, rows) == RaiseAll(b, rows)
  {
    if a != [] {
      RaiseAllAlike(a[1..], b[1..], rows);
      var mid := RaiseAll(a[1..], rows);
      assert LabelledRows(mid, a[0]) == LabelledRows(mid, b[0]);
    }
  }

  // ----- One table

  lemma StandingIsInPlace(rules: seq<Rule>, rows: seq<Row>, r: Rule)
    requires Standing(rules, rows) && r in rules
    ensures InPlace(r, rows)
  {
    forall row | row in rows && row.comment == r.comment ensures row.chain == r.chain { OnlyRow(rows, r, row); }
  }

  lemma AlikeStands(a: seq<Rule>, b: seq<Rule>, rows: seq<Row>)
    requires AllAlike(a, b) && Standing(a, rows)
    ensures Standing(b, rows) && forall r :: r in b ==> InPlace(r, rows)
  {
    forall r | r in b ensures Stands(r, rows) {
      var i :| 0 <= i < |b| && b[i] == r;
      assert a[i] in a && LabelledRows(rows, a[i]) == LabelledRows(rows, r);
    }
    forall r | r in b ensures InPlace(r, rows) { StandingIsInPlace(b, rows, r); }
  }

  /** The table after an add-or-set phase and the moves. */
  function Installed(rules: seq<Rule>, t: Table): Table
    requires UpsertAll(rules, t).Some?
  {
    Moved(rules, UpsertAll(rules, t).value)
  }

  /** After an earlier run, installing other values gives what installing them at once gives. */
  lemma InstallForgets(a: seq<Rule>, b: seq<Rule>, t: Table)
    requires WellFormed(t) && AllAlike(a, b) && DistinctComments(a) && DistinctComments(b) && Unambiguous(a, t.rows)
    requires Grouped(a)
    ensures UpsertAll(a, t).Some? && UpsertAll(b, t).Some? && UpsertAll(b, Installed(a, t)).Some?
    ensures Installed(b, Installed(a, t)) == Installed(b, t)
  {
    UpsertAllAlike(t, a, b);
    TableIsReconciled(a, t);
    var mid, after := UpsertAll(a, t).value, Installed(a, t);
    AlikeStands(a, b, mid.rows);
    LandedStands(a, t.rows, after.rows);
    AlikeStands(a, b, after.rows);
    UpsertAllPaints(after, b);
    calc {
      RaiseAll(b, Paint(b, after.rows));
      { RaiseAllPaint(b, b, after.rows); RaiseAllAlike(a, b, after.rows); }
      Paint(b, RaiseAll(a, after.rows));
      { RaiseTwice(a, mid.rows); }
      Paint(b, RaiseAll(a, mid.rows));
      { RaiseAllPaint(b, b, mid.rows); RaiseAllAlike(a, b, mid.rows); }
      RaiseAll(b, Paint(b, mid.rows));
    }
  }

  // ----- Whole runs

  /** What a completed run leaves in each table. */
  lemma CompletedRun(chains: seq<(TableName, string)>, rules: seq<Rule>, ts: Tables)
    requires ts.Valid() && DistinctPerTable(rules) && Run(Script(chains, rules), ts).Completed?
    ensures var out := Run(Script(chains, rules), ts).tables;
            && out.Valid()
            && forall n: TableName :: UpsertAll(RulesAt(rules, n), ts.At(n)).Some?
                                     && out.At(n) == Installed(RulesAt(rules, n), ts.At(n))
  {
    RunConcat(Guards(chains) + Upserts(rules), Promotes(rules), ts);
    RunConcat(Guards(chains), Upserts(rules), ts);
    GuardsRun(chains, ts);
    UpsertsRun(rules, ts);
    MovesFinish(rules, ts);
    PromotesRun(rules, Run(Upserts(rules), ts).tables);
  }

  ghost predicate AlikePerTable(a: seq<Rule>, b: seq<Rule>) {
    forall n: TableName :: AllAlike(RulesAt(a, n), RulesAt(b, n))
  }

  lemma AlikeUnambiguous(a: seq<Rule>, b: seq<Rule>, rows: seq<Row>)
    requires AllAlike(a, b) && Unambiguous(a, rows)
    ensures Unambiguous(b, rows)
  {
    forall r | r in b ensures |LabelledRows(rows, r)| <= 1 {
      var i :| 0 <= i < |b| && b[i] == r;
      assert a[i] in a && LabelledRows(rows, a[i]) == LabelledRows(rows, r);
    }
  }

  /** A second run with other values succeeds and gives what it would have given on the first start. */
  lemma LastRunWins(chains: seq<(TableName, string)>, a: seq<Rule>, b: seq<Rule>, ts: Tables)
    requires ts.Valid() && DistinctPerTable(a) && DistinctPerTable(b) && AlikePerTable(a, b) && GroupedTables(a)
    requires (forall r :: r in a ==> Owned(r.comment)) && Run(Script(chains, a), ts).Completed?
    ensures Run(Script(chains, b), ts).Completed?
    ensures Run(Script(chains, b), Run(Script(chains, a), ts).tables) == Run(Script(chains, b), ts)
  {
    var mid := Run(Script(chains, a), ts).tables;
    ScriptReconciles(chains, a, ts);
    CompletedRun(chains, a, ts);
    GuardsStillPass(chains, a, ts, mid);
    forall n: TableName
      ensures Unambiguous(RulesAt(b, n), ts.At(n).rows) && Unambiguous(RulesAt(b, n), mid.At(n).rows)
      ensures UpsertAll(RulesAt(b, n), ts.At(n)).Some? && UpsertAll(RulesAt(b, n), mid.At(n)).Some?
      ensures Installed(RulesAt(b, n), mid.At(n)) == Installed(RulesAt(b, n), ts.At(n))
    {
      OneTable(RulesAt(a, n), RulesAt(b, n), ts.At(n), mid.At(n), a, b, n, ts);
    }
    ScriptReconciles(chains, b, ts);
    ScriptReconciles(chains, b, mid);
    CompletedRun(chains, b, ts);
    CompletedRun(chains, b, mid);
    SameTables(Run(Script(chains, b), mid).tables, Run(Script(chains, b), ts).tables);
  }

  lemma OneTable(here: seq<Rule>, there: seq<Rule>, before: Table, after: Table,
                 a: seq<Rule>, b: seq<Rule>, n: TableName, ts: Tables)
    requires here == RulesAt(a, n) && there == RulesAt(b, n) && before == ts.At(n) && ts.Valid()
    requires DistinctPerTable(a) && DistinctPerTable(b) && AlikePerTable(a, b) && GroupedTables(a) && UnambiguousTables(a, ts)
    requires UpsertAll(here, before).Some? && after == Installed(here, before) && TableReconciled(here, before, after)
    ensures Unambiguous(there, before.rows) && Unambiguous(there, after.rows)
    ensures UpsertAll(there, before).Some? && UpsertAll(there, after).Some?
    ensures Installed(there, after) == Installed(there, before)
  {
    assert DistinctComments(here) && DistinctComments(there) && AllAlike(here, there) && Grouped(here);
    assert Unambiguous(here, before.rows) && WellFormed(before);
    AlikeUnambiguous(here, there, before.rows);
    LandedStands(here, before.rows, after.rows);
    AlikeUnambiguous(here, there, after.rows);
    InstallForgets(here, there, before);
  }
}
