/**
 Moving rules to the head of their chains, last rule first: where every row of a table ends up.
 */
module Ordering {
  import opened Options
  import opened FirewallTable
  import opened PolicyScript
  import opened Reconciliation

  /** The position of the first row of a chain. */
  function Head(rows: seq<Row>, chain: string): (h: nat)
    ensures h <= |rows|
    ensures forall i :: 0 <= i < h ==> rows[i].chain != chain
    ensures h < |rows| ==> rows[h].chain == chain
  {
    if rows == [] || rows[0].chain == chain then 0 else 1 + Head(rows[1..], chain)
  }

  /** The rule's row directly before the first row of its chain, everything else in place. */
  function Raised(rows: seq<Row>, r: Rule): seq<Row> {
    var h := Head(rows, r.chain);
    rows[..h] + LabelledRows(rows, r) + Keep(rows[h..], Unlabelled({r.comment}))
  }

  /** Raises the last rule first. */
  function RaiseAll(rules: seq<Rule>, rows: seq<Row>): seq<Row> {
    if rules == [] then rows else Raised(RaiseAll(rules[1..], rows), rules[0])
  }

  ghost predicate Stands(r: Rule, rows: seq<Row>) {
    |LabelledRows(rows, r)| == 1 && LabelledRows(rows, r)[0].chain == r.chain
  }

  ghost predicate Standing(rules: seq<Rule>, rows: seq<Row>) {
    forall r :: r in rules ==> Stands(r, rows)
  }

  // ----- One move

  lemma KeepTail(rows: seq<Row>, h: nat, sel: Selector)
    requires h <= |rows| && Keep(rows[..h], sel) == []
    ensures Keep(rows[h..], sel) == Keep(rows, sel)
  {
    assert rows == rows[..h] + rows[h..];
    KeepConcat(rows[..h], rows[h..], sel);
  }

  lemma OnlyRow(rows: seq<Row>, r: Rule, row: Row)
    requires |LabelledRows(rows, r)| == 1 && row in rows && row.comment == r.comment
    ensures row == LabelledRows(rows, r)[0]
  {
    KeepMember(rows, Labelled({r.comment}), row);
  }

  /** Nothing before the head of its chain carries the rule's comment. */
  lemma NotBeforeHead(rows: seq<Row>, r: Rule, row: Row)
    requires Stands(r, rows) && row in rows[..Head(rows, r.chain)]
    ensures row.comment != r.comment
  {
  }

  lemma HeadExists(rows: seq<Row>, r: Rule)
    requires Stands(r, rows)
    ensures Head(rows, r.chain) < |rows|
  {
  }

  lemma HeadFound(rows: seq<Row>, r: Rule)
    requires Stands(r, rows)
    ensures Head(rows, r.chain) < |rows|
    ensures Keep(rows[..Head(rows, r.chain)], Labelled({r.comment})) == []
    ensures LabelledRows(rows[Head(rows, r.chain)..], r) == LabelledRows(rows, r)
  {
    var pre := rows[..Head(rows, r.chain)];
    HeadExists(rows, r);
    forall x | x in pre ensures x.comment != r.comment { NotBeforeHead(rows, r, x); }
    KeepNone(pre, Labelled({r.comment}));
    KeepTail(rows, Head(rows, r.chain), Labelled({r.comment}));
  }

  lemma {:induction false} InsertAfterPrefix(pre: seq<Row>, post: seq<Row>, block: seq<Row>, dest: nat)
    requires forall x :: x in pre ==> x.id != dest
    requires post != [] && post[0].id == dest
    ensures InsertBefore(pre + post, block, dest) == pre + block + post
  {
    if pre == [] {
      assert pre + post == post;
      assert pre + block + post == block + post;
    } else {
      assert pre[0] in pre;
      assert (pre + post)[1..] == pre[1..] + post;
      InsertAfterPrefix(pre[1..], post, block, dest);
      assert pre + block + post == [pre[0]] + (pre[1..] + block + post);
    }
  }

  lemma FirstOfChain(rows: seq<Row>, chain: string)
    requires Head(rows, chain) < |rows|
    ensures |FindChain(rows, chain)| > 0 && FindChain(rows, chain)[0] == rows[Head(rows, chain)].id
  {
  }

  /** Unless the rule is first already, moving it takes it out and puts it before the first row. */
  lemma MoveRaises(t: Table, r: Rule)
    requires WellFormed(t) && Stands(r, t.rows) && Head(t.rows, r.chain) < |t.rows|
    requires t.rows[Head(t.rows, r.chain)].comment != r.comment
    ensures MoveRows(t.rows, FindComment(t.rows, r.comment), t.rows[Head(t.rows, r.chain)].id) == Raised(t.rows, r)
  {
    var rows, h, ids := t.rows, Head(t.rows, r.chain), FindComment(t.rows, r.comment);
    forall x | x in rows ensures x.id in ids <==> x.comment == r.comment { FoundIsLabelled(t, r, x); }
    KeepSame(rows, WithIds(ids), Labelled({r.comment}));
    KeepSame(rows, WithoutIds(ids), Unlabelled({r.comment}));
    var pre, post := rows[..h], Keep(rows[h..], Unlabelled({r.comment}));
    HeadFound(rows, r);
    assert rows == pre + rows[h..];
    KeepConcat(pre, rows[h..], Unlabelled({r.comment}));
    forall x | x in pre ensures x.comment != r.comment { NotBeforeHead(rows, r, x); }
    KeepAll(pre, Unlabelled({r.comment}));
    forall x | x in pre ensures x.id != rows[h].id {
      assert x in rows && rows[h] in rows;
    }
    InsertAfterPrefix(pre, post, LabelledRows(rows, r), rows[h].id);
  }

  lemma HeadAfterPrefix(pre: seq<Row>, post: seq<Row>, chain: string)
    requires forall x :: x in pre ==> x.chain != chain
    requires post != [] && post[0].chain == chain
    ensures Head(pre + post, chain) == |pre|
  {
    var rows := pre + post;
    assert rows[|pre|] == post[0];
    forall i | 0 <= i < |pre| ensures rows[i].chain != chain { assert rows[i] == pre[i] && pre[i] in pre; }
  }

  /** Raising a rule when the rows before its chain are known. */
  lemma RaisedSplice(pre: seq<Row>, post: seq<Row>, r: Rule)
    requires forall x :: x in pre ==> x.chain != r.chain
    requires post != [] && post[0].chain == r.chain
    ensures Raised(pre + post, r) == pre + LabelledRows(pre + post, r) + Keep(post, Unlabelled({r.comment}))
  {
    HeadAfterPrefix(pre, post, r.chain);
    assert (pre + post)[..|pre|] == pre && (pre + post)[|pre|..] == post;
  }

  lemma FirstIsRaised(rows: seq<Row>, r: Rule)
    requires Stands(r, rows) && Head(rows, r.chain) < |rows|
    requires rows[Head(rows, r.chain)].comment == r.comment
    ensures Raised(rows, r) == rows
  {
    var h := Head(rows, r.chain);
    HeadFound(rows, r);
    OnlyRow(rows, r, rows[h]);
    SplitAt(rows, h);
    LeadingIsRaised(rows[..h], rows[h], rows[h + 1..], r, rows);
  }

  lemma SplitAt(rows: seq<Row>, h: nat)
    requires h < |rows|
    ensures rows[h..] == [rows[h]] + rows[h + 1..] && rows == rows[..h] + ([rows[h]] + rows[h + 1..])
  {
  }

  lemma LeadingIsRaised(pre: seq<Row>, first: Row, rest: seq<Row>, r: Rule, rows: seq<Row>)
    requires rows == pre + ([first] + rest) && first.chain == r.chain
    requires forall x :: x in pre ==> x.chain != r.chain
    requires |LabelledRows(rows, r)| == 1 && first == LabelledRows(rows, r)[0]
    requires LabelledRows([first] + rest, r) == LabelledRows(rows, r)
    ensures Raised(rows, r) == rows
  {
    var own := LabelledRows(rows, r);
    assert own == [first];
    TailUnlabelled(first, rest, r);
    calc {
      Raised(rows, r);
      { RaisedSplice(pre, [first] + rest, r); }
      pre + own + rest;
      pre + ([first] + rest);
    }
  }

  lemma TailUnlabelled(first: Row, rest: seq<Row>, r: Rule)
    requires LabelledRows([first] + rest, r) == [first]
    ensures Keep([first] + rest, Unlabelled({r.comment})) == rest
  {
    KeepMember([first] + rest, Labelled({r.comment}), first);
    KeepConcat([first], rest, Labelled({r.comment}));
    OneKept(first, Labelled({r.comment}));
    OneKept(first, Unlabelled({r.comment}));
    assert LabelledRows(rest, r) == [];
    forall x | x in rest ensures x.comment != r.comment { KeepMember(rest, Labelled({r.comment}), x); }
    KeepAll(rest, Unlabelled({r.comment}));
    KeepConcat([first], rest, Unlabelled({r.comment}));
  }

  lemma OneKept(row: Row, sel: Selector)
    ensures Keep([row], sel) == if Selects(sel, row) then [row] else []
  {
  }

  /** Moving a rule that is there once never fails, and raises it. */
  lemma PromoteRaises(t: Table, r: Rule)
    requires WellFormed(t) && Stands(r, t.rows)
    ensures Promoted(t, r) == Some(Table(Raised(t.rows, r), t.nextId))
  {
    var rows, h := t.rows, Head(t.rows, r.chain);
    HeadFound(rows, r);
    FirstOfChain(rows, r.chain);
    IdsOf(LabelledRows(rows, r));
    var found, first := FindComment(rows, r.comment), FindChain(rows, r.chain);
    assert rows[h] in rows;
    FoundIsLabelled(t, r, rows[h]);
    assert first[..1] == [rows[h].id];
    assert |found| == 1;
    if rows[h].comment == r.comment {
      assert first[..1] == found;
      FirstIsRaised(rows, r);
    } else {
      assert first[..1] != found;
      MoveRaises(t, r);
    }
  }

  // ----- What a move keeps

  lemma RaisedMembers(rows: seq<Row>, r: Rule, row: Row)
    requires Stands(r, rows)
    ensures row in Raised(rows, r) <==> row in rows
  {
    var h := Head(rows, r.chain);
    KeepMember(rows, Labelled({r.comment}), row);
    KeepMember(rows[h..], Unlabelled({r.comment}), row);
    assert rows == rows[..h] + rows[h..];
    if row in rows[..h] && row.comment == r.comment {
      HeadFound(rows, r);
    }
  }

  lemma KeepRaised(rows: seq<Row>, r: Rule, sel: Selector)
    requires Stands(r, rows)
    ensures Keep(Raised(rows, r), sel) ==
            Keep(rows[..Head(rows, r.chain)], sel) + Keep(LabelledRows(rows, r), sel)
            + Keep(Keep(rows[Head(rows, r.chain)..], Unlabelled({r.comment})), sel)
  {
    var h := Head(rows, r.chain);
    KeepConcat(rows[..h] + LabelledRows(rows, r), Keep(rows[h..], Unlabelled({r.comment})), sel);
    KeepConcat(rows[..h], LabelledRows(rows, r), sel);
  }

  /** A selection without the moved row sees no change. */
  lemma RaisedKeeps(rows: seq<Row>, r: Rule, sel: Selector)
    requires Stands(r, rows)
    requires forall row :: row in rows && row.comment == r.comment ==> !Selects(sel, row)
    ensures Keep(Raised(rows, r), sel) == Keep(rows, sel)
  {
    var h := Head(rows, r.chain);
    KeepRaised(rows, r, sel);
    forall x | x in LabelledRows(rows, r) ensures !Selects(sel, x) {
      KeepMember(rows, Labelled({r.comment}), x);
    }
    KeepNone(LabelledRows(rows, r), sel);
    KeepImplied(rows[h..], Unlabelled({r.comment}), sel);
    KeepConcat(rows[..h], rows[h..], sel);
    assert rows == rows[..h] + rows[h..];
  }

  lemma RaisedKeepsItself(rows: seq<Row>, r: Rule)
    requires Stands(r, rows)
    ensures LabelledRows(Raised(rows, r), r) == LabelledRows(rows, r)
  {
    var sel, h := Labelled({r.comment}), Head(rows, r.chain);
    HeadFound(rows, r);
    KeepRaised(rows, r, sel);
    KeepImplied(rows, sel, sel);
    forall x | x in Keep(rows[h..], Unlabelled({r.comment})) ensures x.comment != r.comment {
      KeepMember(rows[h..], Unlabelled({r.comment}), x);
    }
    KeepNone(Keep(rows[h..], Unlabelled({r.comment})), sel);
  }

  lemma KeepMiddle(pre: seq<Row>, mid: seq<Row>, post: seq<Row>, sel: Selector)
    requires Keep(pre, sel) == [] && Keep(mid, sel) == mid
    ensures Keep(pre + mid + post, sel) == mid + Keep(post, sel)
  {
    KeepConcat(pre + mid, post, sel);
    KeepConcat(pre, mid, sel);
  }

  /** In its own chain the rule is now first, and the others follow as they were. */
  lemma RaisedLeadsChain(rows: seq<Row>, r: Rule)
    requires Stands(r, rows)
    ensures Keep(Raised(rows, r), InChain(r.chain)) ==
            LabelledRows(rows, r) + Keep(Keep(rows, InChain(r.chain)), Unlabelled({r.comment}))
  {
    var sel, h, own := InChain(r.chain), Head(rows, r.chain), LabelledRows(rows, r);
    KeepNone(rows[..h], sel);
    KeepAll(own, sel);
    calc {
      Keep(Raised(rows, r), sel);
      { KeepMiddle(rows[..h], own, Keep(rows[h..], Unlabelled({r.comment})), sel); }
      own + Keep(Keep(rows[h..], Unlabelled({r.comment})), sel);
      { KeepCommutes(rows[h..], Unlabelled({r.comment}), sel); }
      own + Keep(Keep(rows[h..], sel), Unlabelled({r.comment}));
      { KeepTail(rows, h, sel); }
      own + Keep(Keep(rows, sel), Unlabelled({r.comment}));
    }
  }

  // ----- All the moves

  lemma SameLabelledRows(rows: seq<Row>, r: Rule, other: Rule)
    requires Stands(r, rows)
    ensures LabelledRows(Raised(rows, r), other) == LabelledRows(rows, other)
  {
    if other.comment == r.comment {
      RaisedKeepsItself(rows, r);
    } else {
      RaisedKeeps(rows, r, Labelled({other.comment}));
    }
  }

  /** No move loses, duplicates or relabels a row. */
  lemma {:induction false} RaiseAllKeeps(rules: seq<Rule>, rows: seq<Row>)
    requires Standing(rules, rows)
    ensures forall row :: row in RaiseAll(rules, rows) <==> row in rows
    ensures forall other: Rule :: LabelledRows(RaiseAll(rules, rows), other) == LabelledRows(rows, other)
  {
    if rules != [] {
      RaiseAllKeeps(rules[1..], rows);
      var mid := RaiseAll(rules[1..], rows);
      assert rules[0] in rules;
      forall row ensures row in Raised(mid, rules[0]) <==> row in mid { RaisedMembers(mid, rules[0], row); }
      forall other: Rule ensures LabelledRows(Raised(mid, rules[0]), other) == LabelledRows(mid, other) {
        SameLabelledRows(mid, rules[0], other);
      }
    }
  }

  lemma {:induction false} RaiseAllKeepsForeign(rules: seq<Rule>, rows: seq<Row>, labels: set<string>)
    requires Standing(rules, rows) && Comments(rules) <= labels
    ensures Keep(RaiseAll(rules, rows), Unlabelled(labels)) == Keep(rows, Unlabelled(labels))
  {
    if rules != [] {
      RaiseAllKeeps(rules[1..], rows);
      assert rules[0] in rules && rules[0].comment in Comments(rules);
      assert forall r :: r in rules[1..] ==> r in rules;
      RaiseAllKeepsForeign(rules[1..], rows, labels);
      RaisedKeeps(RaiseAll(rules[1..], rows), rules[0], Unlabelled(labels));
    }
  }

  /** The rules of one chain, in order. */
  function RulesOf(rules: seq<Rule>, chain: string): seq<Rule> {
    if rules == [] then []
    else (if rules[0].chain == chain then [rules[0]] else []) + RulesOf(rules[1..], chain)
  }

  /** The rows of a list of rules, in the order of the rules. */
  function Block(rules: seq<Rule>, rows: seq<Row>): seq<Row> {
    if rules == [] then [] else LabelledRows(rows, rules[0]) + Block(rules[1..], rows)
  }

  lemma {:induction false} RulesOfMember(rules: seq<Rule>, chain: string, r: Rule)
    ensures r in RulesOf(rules, chain) <==> r in rules && r.chain == chain
  {
    if rules != [] { RulesOfMember(rules[1..], chain, r); }
  }

  lemma {:induction false} BlockSame(rules: seq<Rule>, a: seq<Row>, b: seq<Row>)
    requires forall r :: r in rules ==> LabelledRows(a, r) == LabelledRows(b, r)
    ensures Block(rules, a) == Block(rules, b)
  {
    if rules != [] {
      assert rules[0] in rules;
      BlockSame(rules[1..], a, b);
    }
  }

  lemma {:induction false} BlockMember(rules: seq<Rule>, rows: seq<Row>, row: Row)
    ensures row in Block(rules, rows) <==> row in rows && exists r :: r in rules && row.comment == r.comment
  {
    if rules != [] {
      BlockMember(rules[1..], rows, row);
      KeepMember(rows, Labelled({rules[0].comment}), row);
      assert forall r :: r in rules <==> r == rules[0] || r in rules[1..];
    }
  }

  lemma {:induction false} BlockIndex(rules: seq<Rule>, rows: seq<Row>)
    requires Standing(rules, rows)
    ensures |Block(rules, rows)| == |rules|
    ensures forall i :: 0 <= i < |rules| ==> LabelledRows(rows, rules[i]) == [Block(rules, rows)[i]]
  {
    if rules != [] {
      assert rules[0] in rules;
      assert forall r :: r in rules[1..] ==> r in rules;
      BlockIndex(rules[1..], rows);
    }
  }

  /** A chain as it ends up: its own rules in order, then whatever else it held, in its old order. */
  function ChainAfter(rules: seq<Rule>, rows: seq<Row>, chain: string): seq<Row> {
    Block(RulesOf(rules, chain), rows)
    + Keep(Keep(rows, InChain(chain)), Unlabelled(Comments(RulesOf(rules, chain))))
  }

  lemma {:induction false} ChainAfterRaiseAll(rules: seq<Rule>, rows: seq<Row>, chain: string)
    requires DistinctComments(rules) && Standing(rules, rows)
    ensures Keep(RaiseAll(rules, rows), InChain(chain)) == ChainAfter(rules, rows, chain)
  {
    if rules == [] {
      KeepAll(Keep(rows, InChain(chain)), Unlabelled({}));
      assert Comments([]) == {};
    } else {
      var r, mid := rules[0], RaiseAll(rules[1..], rows);
      assert r in rules;
      assert forall x :: x in rules[1..] ==> x in rules;
      ChainAfterRaiseAll(rules[1..], rows, chain);
      RaiseAllKeeps(rules[1..], rows);
      assert Stands(r, mid);
      if r.chain != chain {
        forall row | row in mid && row.comment == r.comment ensures row.chain != chain { OnlyRow(mid, r, row); }
        RaisedKeeps(mid, r, InChain(chain));
        assert RulesOf(rules, chain) == RulesOf(rules[1..], chain);
      } else {
        calc {
          Keep(Raised(mid, r), InChain(chain));
          { RaisedLeadsChain(mid, r); }
          LabelledRows(mid, r) + Keep(Keep(mid, InChain(chain)), Unlabelled({r.comment}));
          LabelledRows(rows, r) + Keep(ChainAfter(rules[1..], rows, chain), Unlabelled({r.comment}));
          { ChainStep(rules, rows, chain); }
          ChainAfter(rules, rows, chain);
        }
      }
    }
  }

  /** No row of later rules carries the first rule's comment. */
  lemma LaterRowDiffers(rules: seq<Rule>, tail: seq<Rule>, rows: seq<Row>, row: Row)
    requires DistinctComments(rules) && rules != []
    requires forall x :: x in tail ==> x in rules[1..]
    requires row in Block(tail, rows)
    ensures row.comment != rules[0].comment
  {
    BlockMember(tail, rows, row);
    var x :| x in tail && row.comment == x.comment;
    var i :| 0 <= i < |rules[1..]| && rules[1..][i] == x;
    assert rules[i + 1] == x;
  }

  /** Taking the first rule out of a block of later rules and what follows it spares the block. */
  lemma StripFirst(rules: seq<Rule>, tail: seq<Rule>, rows: seq<Row>, rest: seq<Row>)
    requires DistinctComments(rules) && rules != []
    requires forall x :: x in tail ==> x in rules[1..]
    ensures Keep(Block(tail, rows) + Keep(rest, Unlabelled(Comments(tail))), Unlabelled({rules[0].comment}))
            == Block(tail, rows) + Keep(rest, Unlabelled({rules[0].comment} + Comments(tail)))
  {
    var sel := Unlabelled({rules[0].comment});
    KeepConcat(Block(tail, rows), Keep(rest, Unlabelled(Comments(tail))), sel);
    forall row | row in Block(tail, rows) ensures row.comment != rules[0].comment {
      LaterRowDiffers(rules, tail, rows, row);
    }
    KeepAll(Block(tail, rows), sel);
    KeepTwice(rest, {rules[0].comment}, Comments(tail));
  }

  lemma ChainStep(rules: seq<Rule>, rows: seq<Row>, chain: string)
    requires DistinctComments(rules) && rules != [] && rules[0].chain == chain
    ensures LabelledRows(rows, rules[0]) + Keep(ChainAfter(rules[1..], rows, chain), Unlabelled({rules[0].comment}))
            == ChainAfter(rules, rows, chain)
  {
    var r, tail, own := rules[0], RulesOf(rules[1..], chain), Keep(rows, InChain(chain));
    forall x | x in tail ensures x in rules[1..] { RulesOfMember(rules[1..], chain, x); }
    assert RulesOf(rules, chain) == [r] + tail;
    BlockCons(r, tail, rows);
    CommentsCons(r, tail);
    var rest := Keep(own, Unlabelled({r.comment} + Comments(tail)));
    calc {
      LabelledRows(rows, r) + Keep(ChainAfter(rules[1..], rows, chain), Unlabelled({r.comment}));
      { StripFirst(rules, tail, rows, own); }
      LabelledRows(rows, r) + (Block(tail, rows) + rest);
      (LabelledRows(rows, r) + Block(tail, rows)) + rest;
      ChainAfter(rules, rows, chain);
    }
  }

  lemma BlockCons(r: Rule, tail: seq<Rule>, rows: seq<Row>)
    ensures Block([r] + tail, rows) == LabelledRows(rows, r) + Block(tail, rows)
  {
  }

  lemma CommentsCons(r: Rule, tail: seq<Rule>)
    ensures Comments([r] + tail) == {r.comment} + Comments(tail)
  {
  }

  lemma {:induction false} KeepTwice(rows: seq<Row>, a: set<string>, b: set<string>)
    ensures Keep(Keep(rows, Unlabelled(b)), Unlabelled(a)) == Keep(rows, Unlabelled(a + b))
  {
    if rows != [] {
      KeepTwice(rows[1..], a, b);
      KeepConcat(if rows[0].comment !in b then [rows[0]] else [], Keep(rows[1..], Unlabelled(b)), Unlabelled(a));
    }
  }
}
