/**
 The reconciliation script: its three kinds of line, what each does to the router's tables, and
 a router that carries a script out one line at a time.
 */
module PolicyScript {
  import opened Options
  import opened FirewallTable

  const OWNED := "SB-GATEWAY protocol "

  const UNOWNED_ERROR := "SB-GATEWAY protocol chain contains an unowned rule"
  const AMBIGUOUS_ERROR := "SB-GATEWAY protocol rule is ambiguous"
  const MOVE_ERROR := "move needs exactly one rule"

  /** The three tables the policy owns rules in. */
  datatype Tables = Tables(filter4: Table, filter6: Table, mangle4: Table) {
    function At(n: TableName): Table {
      match n case Filter4 => filter4 case Filter6 => filter6 case Mangle4 => mangle4
    }

    function With(n: TableName, t: Table): Tables {
      match n
      case Filter4 => this.(filter4 := t)
      case Filter6 => this.(filter6 := t)
      case Mangle4 => this.(mangle4 := t)
    }

    ghost predicate Valid() { WellFormed(filter4) && WellFormed(filter6) && WellFormed(mangle4) }
  }

  /** A line checks that a chain holds owned rules only, adds or sets a rule by its comment, or
      moves a rule to the head of its chain. */
  datatype Command = RequireOwned(table: TableName, chain: string) | Upsert(rule: Rule) | Promote(rule: Rule)

  /** An error ends the script where it stands; what earlier lines did stays done. */
  datatype Outcome = Completed(tables: Tables) | Aborted(tables: Tables, error: string)

  /** The comment starts with the twenty characters of the owner's mark. */
  predicate Owned(comment: string) { (if |comment| < 20 then comment else comment[..20]) == OWNED }

  /** That is: the mark is a prefix of the comment. */
  lemma OwnedExactly(comment: string)
    ensures Owned(comment) <==> "SB-GATEWAY protocol " <= comment
  {
    var mark := "SB-GATEWAY protocol ";
    assert |mark| == 20 && OWNED == mark;
    if |comment| >= 20 && comment[..20] == mark { assert mark <= comment; }
    if mark <= comment { assert comment[..20] == mark; }
  }

  predicate AllOwned(rows: seq<Row>) { forall row :: row in rows ==> Owned(row.comment) }

  function Upserted(t: Table, r: Rule): Option<Table> {
    var found := FindComment(t.rows, r.comment);
    if |found| > 1 then None
    else if |found| == 0 then Some(AddRow(t, r))
    else Some(Table(SetRows(t.rows, found, r), t.nextId))
  }

  /** Moving needs one rule to move; a script that found none or several would stop here. */
  function Promoted(t: Table, r: Rule): Option<Table> {
    var found, first := FindComment(t.rows, r.comment), FindChain(t.rows, r.chain);
    if |first| > 0 && first[..1] != found then
      if |found| == 1 then Some(Table(MoveRows(t.rows, found, first[0]), t.nextId)) else None
    else Some(t)
  }

  function Step(cmd: Command, ts: Tables): Outcome {
    match cmd
    case RequireOwned(n, chain) =>
      if AllOwned(Keep(ts.At(n).rows, InChain(chain))) then Completed(ts) else Aborted(ts, UNOWNED_ERROR)
    case Upsert(r) =>
      (match Upserted(ts.At(r.table), r)
       case Some(t) => Completed(ts.With(r.table, t))
       case None => Aborted(ts, AMBIGUOUS_ERROR))
    case Promote(r) =>
      (match Promoted(ts.At(r.table), r)
       case Some(t) => Completed(ts.With(r.table, t))
       case None => Aborted(ts, MOVE_ERROR))
  }

  function Run(script: seq<Command>, ts: Tables): Outcome {
    if script == [] then Completed(ts)
    else
      match Step(script[0], ts)
      case Completed(next) => Run(script[1..], next)
      case Aborted(_, _) => Step(script[0], ts)
  }

  // ----- The lines the generator emits for a list of rules

  function Upserts(rules: seq<Rule>): seq<Command> {
    if rules == [] then [] else [Upsert(rules[0])] + Upserts(rules[1..])
  }

  /** Last rule first, so that the first rule ends at the head. */
  function Promotes(rules: seq<Rule>): seq<Command> {
    if rules == [] then [] else Promotes(rules[1..]) + [Promote(rules[0])]
  }

  function Guards(chains: seq<(TableName, string)>): seq<Command> {
    if chains == [] then [] else [RequireOwned(chains[0].0, chains[0].1)] + Guards(chains[1..])
  }

  function Script(chains: seq<(TableName, string)>, rules: seq<Rule>): seq<Command> {
    Guards(chains) + Upserts(rules) + Promotes(rules)
  }

  lemma {:induction false} RunConcat(a: seq<Command>, b: seq<Command>, ts: Tables)
    ensures Run(a + b, ts) == match Run(a, ts)
                              case Completed(mid) => Run(b, mid)
                              case Aborted(_, _) => Run(a, ts)
  {
    if a == [] {
      assert a + b == b;
    } else {
      assert (a + b)[1..] == a[1..] + b;
      if Step(a[0], ts).Completed? { RunConcat(a[1..], b, Step(a[0], ts).tables); }
    }
  }

  /** Every rule of the chain carries the mark. */
  ghost predicate Marked(rows: seq<Row>, chain: string) {
    forall row :: row in rows && row.chain == chain ==> "SB-GATEWAY protocol " <= row.comment
  }

  lemma OwnedChain(rows: seq<Row>, chain: string)
    ensures AllOwned(Keep(rows, InChain(chain))) <==> Marked(rows, chain)
  {
    forall row ensures row in Keep(rows, InChain(chain)) <==> row in rows && row.chain == chain {
      KeepMember(rows, InChain(chain), row);
    }
    forall row | row in rows ensures Owned(row.comment) <==> "SB-GATEWAY protocol " <= row.comment {
      OwnedExactly(row.comment);
    }
  }

  // ----- A router that carries scripts out

  class Router {
    var tables: Tables

    constructor (initial: Tables)
      ensures tables == initial
    {
      tables := initial;
    }

    /** Walks the rules of a chain until one is not owned. */
    method CheckOwned(n: TableName, chain: string) returns (error: Option<string>)
      ensures error == if AllOwned(Keep(tables.At(n).rows, InChain(chain))) then None else Some(UNOWNED_ERROR)
      ensures error == None <==> Marked(tables.At(n).rows, chain)
      ensures error.Some? ==> error.value == "SB-GATEWAY protocol chain contains an unowned rule"
    {
      var rows := Keep(tables.At(n).rows, InChain(chain));
      for i := 0 to |rows|
        invariant forall k :: 0 <= k < i ==> Owned(rows[k].comment)
      {
        if !Owned(rows[i].comment) {
          assert rows[i] in rows;
          OwnedChain(tables.At(n).rows, chain);
          return Some(UNOWNED_ERROR);
        }
      }
      OwnedChain(tables.At(n).rows, chain);
      error := None;
    }

    /** Adds the rule, or sets the one row that carries its comment. */
    method UpsertRule(r: Rule) returns (error: Option<string>)
      modifies this
      ensures tables == Step(Upsert(r), old(tables)).tables
      ensures error == if Step(Upsert(r), old(tables)).Completed? then None else Some(AMBIGUOUS_ERROR)
    {
      var t := tables.At(r.table);
      var found := FindComment(t.rows, r.comment);
      if |found| > 1 { return Some(AMBIGUOUS_ERROR); }
      tables := tables.With(r.table, if |found| == 0 then AddRow(t, r)
                                     else Table(SetRows(t.rows, found, r), t.nextId));
      error := None;
    }

    /** Moves the rule to the head of its chain unless it is there already. */
    method PromoteRule(r: Rule) returns (error: Option<string>)
      modifies this
      ensures tables == Step(Promote(r), old(tables)).tables
      ensures error == if Step(Promote(r), old(tables)).Completed? then None else Some(MOVE_ERROR)
    {
      var t := tables.At(r.table);
      var found, first := FindComment(t.rows, r.comment), FindChain(t.rows, r.chain);
      if |first| > 0 && first[..1] != found {
        if |found| != 1 { return Some(MOVE_ERROR); }
        tables := tables.With(r.table, Table(MoveRows(t.rows, found, first[0]), t.nextId));
      }
      error := None;
    }

    /** Carries out one line; `error` is set when the line stops the script. */
    method Perform(cmd: Command) returns (error: Option<string>)
      modifies this
      ensures tables == Step(cmd, old(tables)).tables
      ensures error == if Step(cmd, old(tables)).Completed? then None else Some(Step(cmd, old(tables)).error)
    {
      match cmd
      case RequireOwned(n, chain) => error := CheckOwned(n, chain);
      case Upsert(r) => error := UpsertRule(r);
      case Promote(r) => error := PromoteRule(r);
    }

    /** Carries out a whole script, stopping at the first error. */
    method Execute(script: seq<Command>) returns (error: Option<string>)
      modifies this
      ensures tables == Run(script, old(tables)).tables
      ensures error == if Run(script, old(tables)).Completed? then None
                       else Some(Run(script, old(tables)).error)
    {
      error := None;
      var i := 0;
      while i < |script| && error == None
        invariant 0 <= i <= |script|
        invariant error == None ==> Run(script, old(tables)) == Run(script[i..], tables)
        invariant error != None ==> Run(script, old(tables)) == Aborted(tables, error.value)
        decreases |script| - i
      {
        error := Perform(script[i]);
        assert script[i..][1..] == script[i + 1..];
        i := i + 1;
      }
      assert script[|script|..] == [];
    }
  }
}
