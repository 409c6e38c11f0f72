/**
 RouterOS firewall tables as the policy script sees them: ordered rows with an internal id,
 and the four table commands the script uses (find, add, set, move).
 */
module FirewallTable {
  import opened Options

  /** What a matching row does. `Pass` stands for every action that lets evaluation go on (log,
      passthrough, mark), `Terminate` for every other final one (reject, tarpit, ...). */
  datatype Action = Accept | Drop | Return | Jump(target: string) | Pass(name: string) | Terminate(name: string)

  datatype ListMatch = InList(name: string) | NotInList(name: string)

  /** The conditions of a row; `other` holds the matchers the policy never writes. */
  datatype Matchers = Matchers(
    protocol: Option<string>, icmpType: Option<nat>, state: Option<string>,
    srcList: Option<ListMatch>, dstList: Option<ListMatch>,
    srcAddress: Option<string>, dstAddress: Option<string>, dstType: Option<string>,
    other: map<string, string>)

  const ANY := Matchers(None, None, None, None, None, None, None, None, map[])

  datatype Row = Row(id: nat, chain: string, comment: string, action: Action, matchers: Matchers, disabled: bool)

  datatype Table = Table(rows: seq<Row>, nextId: nat)

  datatype TableName = Filter4 | Filter6 | Mangle4

  /** One generated rule; a rule that does not say `disabled` is enabled. */
  datatype Rule = Rule(table: TableName, chain: string, comment: string,
                       action: Action, matchers: Matchers, disabled: Option<bool>)

  // ----- Selecting rows

  datatype Selector = InChain(chain: string) | OutsideChain(chain: string)
                    | Labelled(labels: set<string>) | Unlabelled(labels: set<string>)
                    | WithIds(ids: seq<nat>) | WithoutIds(ids: seq<nat>)

  predicate Selects(sel: Selector, row: Row) {
    match sel
    case InChain(c) => row.chain == c
    case OutsideChain(c) => row.chain != c
    case Labelled(ls) => row.comment in ls
    case Unlabelled(ls) => row.comment !in ls
    case WithIds(ids) => row.id in ids
    case WithoutIds(ids) => row.id !in ids
  }

  /** The selected rows, in table order. */
  function Keep(rows: seq<Row>, sel: Selector): seq<Row> {
    if rows == [] then []
    else (if Selects(sel, rows[0]) then [rows[0]] else []) + Keep(rows[1..], sel)
  }

  function Ids(rows: seq<Row>): seq<nat> {
    if rows == [] then [] else [rows[0].id] + Ids(rows[1..])
  }

  /** An id belongs to one row. */
  ghost predicate UniqueIds(rows: seq<Row>) {
    forall a, b :: a in rows && b in rows && a.id == b.id ==> a == b
  }

  /** Ids identify rows, and the next id is new. */
  ghost predicate WellFormed(t: Table) {
    UniqueIds(t.rows) && forall row :: row in t.rows ==> row.id < t.nextId
  }

  // ----- The table commands

  function FindComment(rows: seq<Row>, comment: string): seq<nat> { Ids(Keep(rows, Labelled({comment}))) }

  function FindChain(rows: seq<Row>, chain: string): seq<nat> { Ids(Keep(rows, InChain(chain))) }

  function Over<T>(was: Option<T>, named: Option<T>): Option<T> { if named.Some? then named else was }

  /** `set` overwrites the properties it names and leaves every other one in place. */
  function Overlay(was: Matchers, named: Matchers): Matchers {
    Matchers(Over(was.protocol, named.protocol), Over(was.icmpType, named.icmpType), Over(was.state, named.state),
             Over(was.srcList, named.srcList), Over(was.dstList, named.dstList),
             Over(was.srcAddress, named.srcAddress), Over(was.dstAddress, named.dstAddress),
             Over(was.dstType, named.dstType), was.other + named.other)
  }

  function Apply(r: Rule, row: Row): Row {
    row.(chain := r.chain, action := r.action, matchers := Overlay(row.matchers, r.matchers),
         disabled := OrElse(r.disabled, false))
  }

  function NewRow(r: Rule, id: nat): Row {
    Row(id, r.chain, r.comment, r.action, r.matchers, OrElse(r.disabled, false))
  }

  function AddRow(t: Table, r: Rule): Table { Table(t.rows + [NewRow(r, t.nextId)], t.nextId + 1) }

  function SetRows(rows: seq<Row>, ids: seq<nat>, r: Rule): seq<Row> {
    if rows == [] then []
    else [if rows[0].id in ids then Apply(r, rows[0]) else rows[0]] + SetRows(rows[1..], ids, r)
  }

  /** Puts `block` immediately before the row with id `dest`, or at the end if there is none. */
  function InsertBefore(rows: seq<Row>, block: seq<Row>, dest: nat): seq<Row> {
    if rows == [] then block
    else if rows[0].id == dest then block + rows
    else [rows[0]] + InsertBefore(rows[1..], block, dest)
  }

  function MoveRows(rows: seq<Row>, ids: seq<nat>, dest: nat): seq<Row> {
    InsertBefore(Keep(rows, WithoutIds(ids)), Keep(rows, WithIds(ids)), dest)
  }

  // ----- Facts about selecting

  lemma {:induction false} KeepConcat(a: seq<Row>, b: seq<Row>, sel: Selector)
    ensures Keep(a + b, sel) == Keep(a, sel) + Keep(b, sel)
  {
    if a == [] {
      assert a + b == b;
    } else {
      var x := if Selects(sel, a[0]) then [a[0]] else [];
      assert (a + b)[0] == a[0] && (a + b)[1..] == a[1..] + b;
      KeepConcat(a[1..], b, sel);
      calc {
        Keep(a + b, sel);
        x + Keep(a[1..] + b, sel);
        x + (Keep(a[1..], sel) + Keep(b, sel));
        (x + Keep(a[1..], sel)) + Keep(b, sel);
      }
    }
  }

  lemma {:induction false} KeepMember(rows: seq<Row>, sel: Selector, row: Row)
    ensures row in Keep(rows, sel) <==> row in rows && Selects(sel, row)
  {
    if rows != [] {
      KeepMember(rows[1..], sel, row);
    }
  }

  lemma {:induction false} KeepAll(rows: seq<Row>, sel: Selector)
    requires forall row :: row in rows ==> Selects(sel, row)
    ensures Keep(rows, sel) == rows
  {
    if rows != [] {
      assert rows[0] in rows;
      KeepAll(rows[1..], sel);
    }
  }

  lemma {:induction false} KeepNone(rows: seq<Row>, sel: Selector)
    requires forall row :: row in rows ==> !Selects(sel, row)
    ensures Keep(rows, sel) == []
  {
    if rows != [] {
      assert rows[0] in rows;
      KeepNone(rows[1..], sel);
    }
  }

  /** Two selectors that agree on the rows at hand keep the same rows. */
  lemma {:induction false} KeepSame(rows: seq<Row>, a: Selector, b: Selector)
    requires forall row :: row in rows ==> Selects(a, row) == Selects(b, row)
    ensures Keep(rows, a) == Keep(rows, b)
  {
    if rows != [] {
      assert rows[0] in rows;
      KeepSame(rows[1..], a, b);
    }
  }

  lemma {:induction false} KeepCommutes(rows: seq<Row>, a: Selector, b: Selector)
    ensures Keep(Keep(rows, a), b) == Keep(Keep(rows, b), a)
  {
    if rows != [] {
      var x := [rows[0]];
      KeepCommutes(rows[1..], a, b);
      KeepConcat(if Selects(a, rows[0]) then x else [], Keep(rows[1..], a), b);
      KeepConcat(if Selects(b, rows[0]) then x else [], Keep(rows[1..], b), a);
    }
  }

  /** A coarser selection first changes nothing. */
  lemma {:induction false} KeepImplied(rows: seq<Row>, a: Selector, b: Selector)
    requires forall row :: row in rows && Selects(b, row) ==> Selects(a, row)
    ensures Keep(Keep(rows, a), b) == Keep(rows, b)
  {
    if rows != [] {
      assert rows[0] in rows;
      KeepImplied(rows[1..], a, b);
      KeepConcat(if Selects(a, rows[0]) then [rows[0]] else [], Keep(rows[1..], a), b);
    }
  }

  lemma {:induction false} IdsOf(rows: seq<Row>)
    ensures |Ids(rows)| == |rows|
    ensures forall i :: 0 <= i < |rows| ==> Ids(rows)[i] == rows[i].id
  {
    if rows != [] { IdsOf(rows[1..]); }
  }

  /** A row is found by its id exactly when it was among the rows searched for. */
  lemma IdInKept(rows: seq<Row>, sel: Selector, row: Row)
    requires UniqueIds(rows) && row in rows
    ensures row.id in Ids(Keep(rows, sel)) <==> Selects(sel, row)
  {
    IdsOf(Keep(rows, sel));
    KeepMember(rows, sel, row);
    if row.id in Ids(Keep(rows, sel)) {
      var i :| 0 <= i < |Keep(rows, sel)| && Ids(Keep(rows, sel))[i] == row.id;
      var other := Keep(rows, sel)[i];
      KeepMember(rows, sel, other);
    }
  }
}
