/**
 What adding, setting and moving rules does to one table, for any list of rules whose comments
 are pairwise different.
 */
module Reconciliation {
  import opened Options
  import opened FirewallTable
  import opened PolicyScript

  ghost predicate DistinctComments(rules: seq<Rule>) {
    forall i, j :: 0 <= i < j < |rules| ==> rules[i].comment != rules[j].comment
  }

  function Comments(rules: seq<Rule>): set<string> { set r | r in rules :: r.comment }

  function LabelledRows(rows: seq<Row>, r: Rule): seq<Row> { Keep(rows, Labelled({r.comment})) }

  predicate ByComment(sel: Selector) { sel.Labelled? || sel.Unlabelled? }

  // ----- Adding or setting one rule

  lemma {:induction false} SetAt(rows: seq<Row>, ids: seq<nat>, r: Rule)
    ensures |SetRows(rows, ids, r)| == |rows|
    ensures forall i :: 0 <= i < |rows| ==>
              SetRows(rows, ids, r)[i] == if rows[i].id in ids then Apply(r, rows[i]) else rows[i]
  {
    if rows != [] { SetAt(rows[1..], ids, r); }
  }

  /** Setting keeps comments, so it commutes with a selection by comment. */
  lemma {:induction false} SetCommutes(rows: seq<Row>, ids: seq<nat>, r: Rule, sel: Selector)
    requires ByComment(sel)
    ensures Keep(SetRows(rows, ids, r), sel) == SetRows(Keep(rows, sel), ids, r)
  {
    if rows != [] {
      SetCommutes(rows[1..], ids, r, sel);
      assert SetRows(rows, ids, r)[1..] == SetRows(rows[1..], ids, r);
      if Selects(sel, rows[0]) {
        assert Keep(rows, sel)[1..] == Keep(rows[1..], sel);
      } else {
        assert Keep(rows, sel) == Keep(rows[1..], sel);
      }
    }
  }

  lemma {:induction false} SetNothing(rows: seq<Row>, ids: seq<nat>, r: Rule)
    requires forall row :: row in rows && row.id in ids ==> Apply(r, row) == row
    ensures SetRows(rows, ids, r) == rows
  {
    if rows != [] {
      assert rows[0] in rows;
      SetNothing(rows[1..], ids, r);
    }
  }

  /** The row a rule ends up as: the old row with the rule's properties set, or a new row. */
  ghost predicate Conforms(before: seq<Row>, r: Rule, row: Row) {
    var was := LabelledRows(before, r);
    row.comment == r.comment && row == if was == [] then NewRow(r, row.id) else Apply(r, was[0])
  }

  lemma FoundIsLabelled(t: Table, r: Rule, row: Row)
    requires WellFormed(t) && row in t.rows
    ensures row.id in FindComment(t.rows, r.comment) <==> row.comment == r.comment
  {
    IdInKept(t.rows, Labelled({r.comment}), row);
  }

  /** Add-or-set succeeds exactly when the comment is not ambiguous; it touches that row only. */
  lemma UpsertEffect(t: Table, r: Rule)
    requires WellFormed(t)
    ensures Upserted(t, r).Some? <==> |LabelledRows(t.rows, r)| <= 1
    ensures Upserted(t, r).Some? ==>
              var t' := Upserted(t, r).value;
              && WellFormed(t')
              && |LabelledRows(t'.rows, r)| == 1
              && Conforms(t.rows, r, LabelledRows(t'.rows, r)[0])
  {
    IdsOf(LabelledRows(t.rows, r));
    var was := LabelledRows(t.rows, r);
    if |was| == 0 {
      KeepConcat(t.rows, [NewRow(r, t.nextId)], Labelled({r.comment}));
    } else if |was| == 1 {
      UpsertSets(t, r);
    }
  }

  lemma UpsertSets(t: Table, r: Rule)
    requires WellFormed(t) && |LabelledRows(t.rows, r)| == 1
    ensures Upserted(t, r).Some? && WellFormed(Upserted(t, r).value)
    ensures LabelledRows(Upserted(t, r).value.rows, r) == [Apply(r, LabelledRows(t.rows, r)[0])]
    ensures LabelledRows(t.rows, r)[0].comment == r.comment
  {
    var was, ids := LabelledRows(t.rows, r), FindComment(t.rows, r.comment);
    IdsOf(was);
    assert ids == [was[0].id];
    SetWellFormed(t, ids, r);
    SetCommutes(t.rows, ids, r, Labelled({r.comment}));
    assert was == [was[0]] && was[1..] == [];
    assert SetRows(was, ids, r) == [Apply(r, was[0])];
    KeepMember(t.rows, Labelled({r.comment}), was[0]);
  }

  lemma SetWellFormed(t: Table, ids: seq<nat>, r: Rule)
    requires WellFormed(t)
    ensures WellFormed(Table(SetRows(t.rows, ids, r), t.nextId))
  {
    SetAt(t.rows, ids, r);
  }

  /** The whole table after add-or-set: a new row at the end, or the one labelled row changed in place. */
  lemma UpsertWhole(t: Table, r: Rule)
    requires WellFormed(t) && Upserted(t, r).Some?
    ensures var t', off := Upserted(t, r).value, r.disabled == Some(true);
            if LabelledRows(t.rows, r) == []
            then t' == Table(t.rows + [Row(t.nextId, r.chain, r.comment, r.action, r.matchers, off)], t.nextId + 1)
            else && |t'.rows| == |t.rows| && t'.nextId == t.nextId
                 && forall i :: 0 <= i < |t.rows| ==>
                      if t.rows[i].comment != r.comment then t'.rows[i] == t.rows[i]
                      else t'.rows[i] == Row(t.rows[i].id, r.chain, r.comment, r.action,
                                             Overlay(t.rows[i].matchers, r.matchers), off)
  {
    var found := FindComment(t.rows, r.comment);
    IdsOf(LabelledRows(t.rows, r));
    SetAt(t.rows, found, r);
    forall row | row in t.rows ensures row.id in found <==> row.comment == r.comment { FoundIsLabelled(t, r, row); }
  }

  lemma UpsertKeepsOthers(t: Table, r: Rule, sel: Selector)
    requires WellFormed(t) && Upserted(t, r).Some?
    requires ByComment(sel) && (sel.Labelled? <==> r.comment !in sel.labels)
    ensures Keep(Upserted(t, r).value.rows, sel) == Keep(t.rows, sel)
  {
    var ids := FindComment(t.rows, r.comment);
    if |ids| == 0 {
      KeepConcat(t.rows, [NewRow(r, t.nextId)], sel);
    } else {
      SetCommutes(t.rows, ids, r, sel);
      forall row | row in Keep(t.rows, sel) && row.id in ids ensures false {
        KeepMember(t.rows, sel, row);
        FoundIsLabelled(t, r, row);
      }
      SetNothing(Keep(t.rows, sel), ids, r);
    }
  }

  // ----- Adding or setting a list of rules

  function UpsertAll(rules: seq<Rule>, t: Table): Option<Table> {
    if rules == [] then Some(t)
    else
      match Upserted(t, rules[0])
      case Some(next) => UpsertAll(rules[1..], next)
      case None => None
  }

  ghost predicate Unambiguous(rules: seq<Rule>, rows: seq<Row>) {
    forall r :: r in rules ==> |LabelledRows(rows, r)| <= 1
  }

  /** Every rule is there once, in its chain, as add-or-set leaves it. */
  ghost predicate Landed(rules: seq<Rule>, before: seq<Row>, rows: seq<Row>) {
    forall r :: r in rules ==> |LabelledRows(rows, r)| == 1 && Conforms(before, r, LabelledRows(rows, r)[0])
  }

  lemma LaterRulesUntouched(rules: seq<Rule>, t: Table, r: Rule)
    requires DistinctComments(rules) && rules != [] && r in rules[1..]
    requires WellFormed(t) && Upserted(t, rules[0]).Some?
    ensures LabelledRows(Upserted(t, rules[0]).value.rows, r) == LabelledRows(t.rows, r)
  {
    var i :| 0 <= i < |rules[1..]| && rules[1..][i] == r;
    assert rules[i + 1] == r;
    UpsertKeepsOthers(t, rules[0], Labelled({r.comment}));
  }

  /** The whole list goes in exactly when no comment is ambiguous at the start. */
  lemma {:induction false} UpsertAllSucceeds(rules: seq<Rule>, t: Table)
    requires DistinctComments(rules) && WellFormed(t)
    ensures UpsertAll(rules, t).Some? <==> Unambiguous(rules, t.rows)
  {
    if rules != [] {
      UpsertEffect(t, rules[0]);
      assert rules[0] in rules;
      if Upserted(t, rules[0]).Some? {
        var next := Upserted(t, rules[0]).value;
        forall r | r in rules[1..] ensures LabelledRows(next.rows, r) == LabelledRows(t.rows, r) {
          LaterRulesUntouched(rules, t, r);
        }
        UpsertAllSucceeds(rules[1..], next);
      }
    }
  }

  lemma {:induction false} UpsertAllKeeps(rules: seq<Rule>, t: Table, sel: Selector)
    requires WellFormed(t) && UpsertAll(rules, t).Some?
    requires ByComment(sel)
    requires forall r :: r in rules ==> (sel.Labelled? <==> r.comment !in sel.labels)
    ensures WellFormed(UpsertAll(rules, t).value)
    ensures Keep(UpsertAll(rules, t).value.rows, sel) == Keep(t.rows, sel)
  {
    if rules != [] {
      assert rules[0] in rules;
      UpsertEffect(t, rules[0]);
      UpsertKeepsOthers(t, rules[0], sel);
      UpsertAllKeeps(rules[1..], Upserted(t, rules[0]).value, sel);
    }
  }

  lemma {:induction false} UpsertAllLands(rules: seq<Rule>, t: Table)
    requires DistinctComments(rules) && WellFormed(t) && UpsertAll(rules, t).Some?
    ensures Landed(rules, t.rows, UpsertAll(rules, t).value.rows)
  {
    if rules != [] {
      var next := Upserted(t, rules[0]).value;
      UpsertEffect(t, rules[0]);
      UpsertAllLands(rules[1..], next);
      UpsertAllKeeps(rules[1..], next, Labelled({rules[0].comment}));
      forall r | r in rules[1..] ensures LabelledRows(next.rows, r) == LabelledRows(t.rows, r) {
        LaterRulesUntouched(rules, t, r);
      }
    }
  }

  /** Rules that already stand as they should are left alone. */
  lemma {:induction false} UpsertAllIdle(rules: seq<Rule>, t: Table)
    requires WellFormed(t)
    requires forall r :: r in rules ==> |LabelledRows(t.rows, r)| == 1
                                        && Apply(r, LabelledRows(t.rows, r)[0]) == LabelledRows(t.rows, r)[0]
    ensures UpsertAll(rules, t) == Some(t)
  {
    if rules != [] {
      var r := rules[0];
      assert r in rules;
      IdsOf(LabelledRows(t.rows, r));
      forall row | row in t.rows && row.id in FindComment(t.rows, r.comment) ensures Apply(r, row) == row {
        FoundIsLabelled(t, r, row);
        KeepMember(t.rows, Labelled({r.comment}), row);
      }
      SetNothing(t.rows, FindComment(t.rows, r.comment), r);
      UpsertAllIdle(rules[1..], t);
    }
  }

  /** Setting a rule twice is setting it once. */
  lemma ConformingIsFixed(before: seq<Row>, r: Rule, row: Row)
    requires Conforms(before, r, row)
    ensures Apply(r, row) == row && row.chain == r.chain
  {
  }
}
