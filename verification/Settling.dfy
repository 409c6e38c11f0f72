/**
 Why moving the rules again changes nothing: each chain's block ends up in one piece at the head
 of its chain, rotating it through the head restores it, and other chains' moves never cut it.
 */
module Settling {
  import opened FirewallTable
  import opened Reconciliation
  import opened Ordering

  ghost predicate OneChain(rules: seq<Rule>, chain: string) {
    forall r :: r in rules ==> r.chain == chain
  }

  /** The rules' rows are consecutive, in order, at the first position of their chain. */
  ghost predicate Settled(rules: seq<Rule>, rows: seq<Row>, chain: string) {
    var h := Head(rows, chain);
    h + |rules| <= |rows| && rows[h..h + |rules|] == Block(rules, rows)
  }

  lemma BlockHead(rules: seq<Rule>, rows: seq<Row>, chain: string)
    requires Standing(rules, rows) && OneChain(rules, chain) && rules != []
    ensures Block(rules, rows) != [] && Block(rules, rows)[0].chain == chain
  {
    assert rules[0] in rules;
  }

  /** What moving the rules of one chain amounts to, as one splice. */
  lemma {:induction false} GroupRaise(rules: seq<Rule>, rows: seq<Row>, chain: string)
    requires DistinctComments(rules) && Standing(rules, rows) && OneChain(rules, chain) && rules != []
    ensures RaiseAll(rules, rows) == Spliced(rules, rows, Head(rows, chain))
  {
    var h, r, rest := Head(rows, chain), rules[0], rules[1..];
    assert r in rules;
    if rest == [] {
      assert rules == [r];
      assert Comments([r]) == {r.comment};
      assert Block([r], rows) == LabelledRows(rows, r);
      assert RaiseAll(rest, rows) == rows;
      assert Raised(rows, r) == Spliced(rules, rows, h);
    } else {
      assert forall x :: x in rest ==> x in rules;
      GroupRaise(rest, rows, chain);
      RaiseAllKeeps(rest, rows);
      GroupStep(rules, rows, chain, RaiseAll(rest, rows));
    }
  }

  /** The table after the moves of one chain: the block spliced in at the head of the chain. */
  function Spliced(rules: seq<Rule>, rows: seq<Row>, h: nat): seq<Row>
    requires h <= |rows|
  {
    rows[..h] + (Block(rules, rows) + Keep(rows[h..], Unlabelled(Comments(rules))))
  }

  lemma GroupStep(rules: seq<Rule>, rows: seq<Row>, chain: string, mid: seq<Row>)
    requires DistinctComments(rules) && Standing(rules, rows) && OneChain(rules, chain) && |rules| > 1
    requires LabelledRows(mid, rules[0]) == LabelledRows(rows, rules[0])
    requires mid == Spliced(rules[1..], rows, Head(rows, chain))
    ensures Raised(mid, rules[0]) == Spliced(rules, rows, Head(rows, chain))
  {
    var h, r, rest := Head(rows, chain), rules[0], rules[1..];
    var block, post := Block(rest, rows), Keep(rows[h..], Unlabelled(Comments(rest)));
    assert r in rules && forall x :: x in rest ==> x in rules;
    BlockHead(rest, rows, chain);
    assert rules == [r] + rest;
    CommentsCons(r, rest);
    BlockCons(r, rest, rows);
    var own, post' := LabelledRows(rows, r), Keep(rows[h..], Unlabelled({r.comment} + Comments(rest)));
    RaisedSplice(rows[..h], block + post, r);
    StripFirst(rules, rest, rows, rows[h..]);
    assert Raised(mid, r) == rows[..h] + own + (block + post');
    Regroup(rows[..h], own, block, post');
  }

  lemma Regroup(a: seq<Row>, b: seq<Row>, c: seq<Row>, d: seq<Row>)
    ensures a + b + (c + d) == a + ((b + c) + d)
  {
  }

  /** Behind a settled block no row carries a comment of the block. */
  lemma RestIsForeign(rules: seq<Rule>, rows: seq<Row>, pre: seq<Row>, post: seq<Row>, x: Row)
    requires Standing(rules, rows) && rows == pre + Block(rules, rows) + post
    requires x in post
    ensures x.comment !in Comments(rules)
  {
    if x.comment in Comments(rules) {
      var r :| r in rules && r.comment == x.comment;
      var sel := Labelled({r.comment});
      KeepConcat(pre + Block(rules, rows), post, sel);
      KeepConcat(pre, Block(rules, rows), sel);
      KeepMember(post, sel, x);
      OnlyRow(rows, r, x);
      BlockMember(rules, rows, x);
      KeepMember(Block(rules, rows), sel, x);
      assert false;
    }
  }

  lemma BlockStripped(rules: seq<Rule>, rows: seq<Row>, pre: seq<Row>, post: seq<Row>)
    requires Standing(rules, rows) && rows == pre + Block(rules, rows) + post
    ensures Keep(Block(rules, rows) + post, Unlabelled(Comments(rules))) == post
  {
    var block, sel := Block(rules, rows), Unlabelled(Comments(rules));
    forall x | x in block ensures x.comment in Comments(rules) { BlockMember(rules, rows, x); }
    forall x | x in post ensures x.comment !in Comments(rules) { RestIsForeign(rules, rows, pre, post, x); }
    KeepConcat(block, post, sel);
    KeepNone(block, sel);
    KeepAll(post, sel);
  }

  lemma SplitBlock(rows: seq<Row>, h: nat, n: nat)
    requires h + n <= |rows|
    ensures rows[h..] == rows[h..h + n] + rows[h + n..]
    ensures rows == rows[..h] + rows[h..h + n] + rows[h + n..] && rows == rows[..h] + (rows[h..h + n] + rows[h + n..])
  {
  }

  /** A settled block comes through its own moves unchanged, and so does the whole table. */
  lemma SettledStays(rules: seq<Rule>, rows: seq<Row>, chain: string)
    requires DistinctComments(rules) && Standing(rules, rows) && OneChain(rules, chain) && rules != []
    requires Settled(rules, rows, chain)
    ensures RaiseAll(rules, rows) == rows
  {
    var h, n := Head(rows, chain), |rules|;
    SplitBlock(rows, h, n);
    BlockStripped(rules, rows, rows[..h], rows[h + n..]);
    GroupRaise(rules, rows, chain);
  }

  // ----- Two chains in one table

  ghost predicate Apart(a: seq<Rule>, b: seq<Rule>) { Comments(a) !! Comments(b) }

  lemma BlockIsApart(a: seq<Rule>, b: seq<Rule>, rows: seq<Row>, x: Row)
    requires Apart(a, b) && x in Block(b, rows)
    ensures x.comment !in Comments(a)
  {
    BlockMember(b, rows, x);
    assert x.comment in Comments(b);
  }

  lemma BlockInChain(rules: seq<Rule>, rows: seq<Row>, chain: string, x: Row)
    requires Standing(rules, rows) && OneChain(rules, chain) && x in Block(rules, rows)
    ensures x.chain == chain
  {
    BlockMember(rules, rows, x);
    var r :| r in rules && x.comment == r.comment;
    OnlyRow(rows, r, x);
  }

  lemma SettledFromParts(rules: seq<Rule>, rows: seq<Row>, pre: seq<Row>, post: seq<Row>, chain: string)
    requires Standing(rules, rows) && OneChain(rules, chain) && rules != []
    requires rows == pre + Block(rules, rows) + post
    requires forall x :: x in pre ==> x.chain != chain
    ensures Settled(rules, rows, chain)
  {
    BlockIndex(rules, rows);
    BlockHead(rules, rows, chain);
    assert rows == pre + (Block(rules, rows) + post);
    HeadAfterPrefix(pre, Block(rules, rows) + post, chain);
  }

  /** After its moves a chain's block is settled. */
  lemma GroupSettles(rules: seq<Rule>, rows: seq<Row>, chain: string)
    requires DistinctComments(rules) && Standing(rules, rows) && OneChain(rules, chain) && rules != []
    ensures Settled(rules, RaiseAll(rules, rows), chain)
  {
    var h, after := Head(rows, chain), RaiseAll(rules, rows);
    var block, post := Block(rules, rows), Keep(rows[h..], Unlabelled(Comments(rules)));
    GroupRaise(rules, rows, chain);
    RaiseAllKeeps(rules, rows);
    BlockSame(rules, after, rows);
    assert rows[..h] + (block + post) == rows[..h] + block + post;
    SettledFromParts(rules, after, rows[..h], post, chain);
  }

  lemma InRange(rows: seq<Row>, h: nat, n: nat, k: nat)
    requires h <= k < h + n <= |rows|
    ensures rows[k] in rows[h..h + n]
  {
  }

  lemma SettledChain(b: seq<Rule>, rows: seq<Row>, chain: string, k: nat)
    requires Standing(b, rows) && OneChain(b, chain) && Settled(b, rows, chain)
    requires Head(rows, chain) <= k < Head(rows, chain) + |b|
    ensures k < |rows| && rows[k].chain == chain
  {
    InRange(rows, Head(rows, chain), |b|, k);
    BlockInChain(b, rows, chain, rows[k]);
  }

  /** The splice point of another chain is never inside a settled block. */
  lemma HeadOutsideBlock(chainA: string, b: seq<Rule>, chainB: string, rows: seq<Row>)
    requires Standing(b, rows) && OneChain(b, chainB) && chainA != chainB && Settled(b, rows, chainB)
    requires Head(rows, chainA) < |rows|
    ensures Head(rows, chainA) < Head(rows, chainB) || Head(rows, chainA) >= Head(rows, chainB) + |b|
  {
    var k := Head(rows, chainA);
    assert rows[k].chain == chainA;
    if Head(rows, chainB) <= k < Head(rows, chainB) + |b| { SettledChain(b, rows, chainB, k); }
  }

  /** A splice in front of a piece that holds none of the moved rules moves the piece back whole. */
  lemma SpliceBefore(labels: set<string>, rows: seq<Row>, hA: nat, hB: nat, n: nat, moved: seq<Row>)
    requires hA <= hB <= hB + n <= |rows|
    requires forall x :: x in rows[hB..hB + n] ==> x.comment !in labels
    ensures rows[..hA] + (moved + Keep(rows[hA..], Unlabelled(labels)))
            == (rows[..hA] + moved + Keep(rows[hA..hB], Unlabelled(labels)))
               + rows[hB..hB + n] + Keep(rows[hB + n..], Unlabelled(labels))
  {
    var sel, pre, block, post := Unlabelled(labels), rows[hA..hB], rows[hB..hB + n], rows[hB + n..];
    assert rows[hA..] == pre + block + post;
    KeepConcat(pre + block, post, sel);
    KeepConcat(pre, block, sel);
    KeepAll(block, sel);
  }

  lemma SpliceBehind(rows: seq<Row>, hA: nat, hB: nat, n: nat, rest: seq<Row>)
    requires hB + n <= hA <= |rows|
    ensures rows[..hA] + rest == rows[..hB] + rows[hB..hB + n] + (rows[hB + n..hA] + rest)
  {
  }

  /** Where a settled block lies after another chain's splice. */
  lemma BlockAfterSplice(a: seq<Rule>, chainA: string, b: seq<Rule>, chainB: string, rows: seq<Row>)
      returns (pre: seq<Row>, post: seq<Row>)
    requires Standing(a, rows) && OneChain(a, chainA) && chainA != chainB && Apart(a, b)
    requires Settled(b, rows, chainB)
    requires Head(rows, chainA) < Head(rows, chainB) || Head(rows, chainA) >= Head(rows, chainB) + |b|
    ensures Spliced(a, rows, Head(rows, chainA)) == pre + Block(b, rows) + post
    ensures forall x :: x in pre ==> x.chain != chainB
  {
    var hA, hB, n := Head(rows, chainA), Head(rows, chainB), |b|;
    var moved, sel := Block(a, rows), Unlabelled(Comments(a));
    if hA < hB {
      forall x | x in Block(b, rows) ensures x.comment !in Comments(a) { BlockIsApart(a, b, rows, x); }
      SpliceBefore(Comments(a), rows, hA, hB, n, moved);
      pre, post := rows[..hA] + moved + Keep(rows[hA..hB], sel), Keep(rows[hB + n..], sel);
      forall x | x in pre ensures x.chain != chainB {
        if x in moved { BlockInChain(a, rows, chainA, x); }
        KeepMember(rows[hA..hB], sel, x);
      }
    } else {
      SpliceBehind(rows, hA, hB, n, moved + Keep(rows[hA..], sel));
      pre, post := rows[..hB], rows[hB + n..hA] + (moved + Keep(rows[hA..], sel));
    }
  }

  /** Moving the rules of one chain leaves another chain's settled block settled. */
  lemma OthersStaySettled(a: seq<Rule>, chainA: string, b: seq<Rule>, chainB: string, rows: seq<Row>)
    requires DistinctComments(a) && Standing(a, rows) && OneChain(a, chainA) && a != []
    requires Standing(b, rows) && OneChain(b, chainB) && b != []
    requires chainA != chainB && Apart(a, b) && Settled(b, rows, chainB)
    ensures Settled(b, RaiseAll(a, rows), chainB)
  {
    GroupRaise(a, rows, chainA);
    RaiseAllKeeps(a, rows);
    BlockSame(b, RaiseAll(a, rows), rows);
    assert a[0] in a;
    HeadFound(rows, a[0]);
    HeadOutsideBlock(chainA, b, chainB, rows);
    var pre, post := BlockAfterSplice(a, chainA, b, chainB, rows);
    SettledFromParts(b, RaiseAll(a, rows), pre, post, chainB);
  }

  lemma {:induction false} RaiseAllConcat(a: seq<Rule>, b: seq<Rule>, rows: seq<Row>)
    ensures RaiseAll(a + b, rows) == RaiseAll(a, RaiseAll(b, rows))
  {
    if a == [] {
      assert a + b == b;
    } else {
      assert (a + b)[1..] == a[1..] + b;
      RaiseAllConcat(a[1..], b, rows);
    }
  }

  /** After the moves of two chains, both blocks are settled, so the same moves change nothing. */
  lemma TwoChainsSettle(a: seq<Rule>, chainA: string, b: seq<Rule>, chainB: string, rows: seq<Row>)
    requires DistinctComments(a) && Standing(a, rows) && OneChain(a, chainA)
    requires DistinctComments(b) && Standing(b, rows) && OneChain(b, chainB)
    requires chainA != chainB && Apart(a, b)
    ensures var after := RaiseAll(a, RaiseAll(b, rows)); RaiseAll(a, RaiseAll(b, after)) == after
  {
    var mid := RaiseAll(b, rows);
    var after := RaiseAll(a, mid);
    RaiseAllKeeps(b, rows);
    RaiseAllKeeps(a, mid);
    if b != [] {
      GroupSettles(b, rows, chainB);
      if a != [] { OthersStaySettled(a, chainA, b, chainB, mid); }
      SettledStays(b, after, chainB);
    }
    if a != [] {
      GroupSettles(a, mid, chainA);
      SettledStays(a, after, chainA);
    }
  }
}
