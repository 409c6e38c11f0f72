/**
 What a firewall table does to a packet: rows of a chain are tried in order, a matching jump
 evaluates another chain and goes on behind the jump if that chain returns.
 */
module PacketFilter {
  import opened Options
  import opened FirewallTable

  /** A packet, through the questions rules ask about it. `srcNets` and `dstNets` are the address
      expressions that contain its addresses, `other` the remaining matchers it satisfies. */
  datatype Packet = Packet(protocol: string, icmpType: nat, state: string,
                           srcLists: set<string>, dstLists: set<string>,
                           srcNets: set<string>, dstNets: set<string>,
                           dstType: string, other: set<(string, string)>)

  predicate Is<T(==)>(wanted: Option<T>, value: T) { wanted.None? || wanted.value == value }

  predicate Within(wanted: Option<string>, nets: set<string>) { wanted.None? || wanted.value in nets }

  predicate Listed(wanted: Option<ListMatch>, lists: set<string>) {
    match wanted
    case None => true
    case Some(InList(l)) => l in lists
    case Some(NotInList(l)) => l !in lists
  }

  predicate Matches(m: Matchers, p: Packet) {
    && Is(m.protocol, p.protocol) && Is(m.icmpType, p.icmpType) && Is(m.state, p.state)
    && Listed(m.srcList, p.srcLists) && Listed(m.dstList, p.dstLists)
    && Within(m.srcAddress, p.srcNets) && Within(m.dstAddress, p.dstNets) && Is(m.dstType, p.dstType)
    && forall k :: k in m.other ==> (k, m.other[k]) in p.other
  }

  predicate Hits(row: Row, p: Packet) { !row.disabled && Matches(row.matchers, p) }

  /** `Returned` is also the end of a chain; `Looped` marks a jump back into a chain being evaluated. */
  datatype Verdict = Accepted | Dropped | Ended(name: string) | Returned | Looped

  function Targets(rows: seq<Row>): set<string> { set row | row in rows && row.action.Jump? :: row.action.target }

  /** Evaluates `pending`, the rest of the innermost of the chains in `stack`. */
  function Walk(rows: seq<Row>, pending: seq<Row>, p: Packet, stack: set<string>): Verdict
    requires forall row :: row in pending ==> row in rows
    decreases Targets(rows) - stack, |pending|
  {
    if pending == [] then Returned
    else
      var row, rest := pending[0], pending[1..];
      if !Hits(row, p) then Walk(rows, rest, p, stack)
      else
        match row.action
        case Accept => Accepted
        case Drop => Dropped
        case Return => Returned
        case Terminate(name) => Ended(name)
        case Pass(_) => Walk(rows, rest, p, stack)
        case Jump(chain) =>
          if chain in stack then Looped
          else
            assert row in rows && chain in Targets(rows) - stack && chain !in Targets(rows) - (stack + {chain});
            var inner := WalkChain(rows, chain, p, stack + {chain});
            if inner == Returned then Walk(rows, rest, p, stack) else inner
  }

  function WalkChain(rows: seq<Row>, chain: string, p: Packet, stack: set<string>): Verdict
    decreases Targets(rows) - stack, |rows| + 1
  {
    KeptIsPart(rows, chain);
    Walk(rows, Keep(rows, InChain(chain)), p, stack)
  }

  lemma {:induction false} KeptIsPart(rows: seq<Row>, chain: string)
    ensures |Keep(rows, InChain(chain))| <= |rows|
    ensures forall row :: row in Keep(rows, InChain(chain)) ==> row in rows
  {
    if rows != [] { KeptIsPart(rows[1..], chain); }
  }

  /** The verdict of a chain for a packet. */
  function Evaluate(rows: seq<Row>, chain: string, p: Packet): Verdict { WalkChain(rows, chain, p, {chain}) }

  // ----- Lists of rules

  predicate Final(a: Action) { a.Accept? || a.Drop? || a.Return? }

  function VerdictOf(a: Action): Verdict
    requires Final(a)
  {
    match a case Accept => Accepted case Drop => Dropped case Return => Returned
  }

  predicate Applies(r: Rule, p: Packet) { !OrElse(r.disabled, false) && Matches(r.matchers, p) }

  /** The action of the first rule that applies. */
  function FirstMatch(rules: seq<Rule>, p: Packet): Option<Action> {
    if rules == [] then None
    else if Applies(rules[0], p) then Some(rules[0].action)
    else FirstMatch(rules[1..], p)
  }

  lemma {:induction false} FirstMatchConcat(a: seq<Rule>, b: seq<Rule>, p: Packet)
    ensures FirstMatch(a + b, p) == if FirstMatch(a, p).Some? then FirstMatch(a, p) else FirstMatch(b, p)
  {
    if a == [] {
      assert a + b == b;
    } else {
      assert (a + b)[1..] == a[1..] + b;
      FirstMatchConcat(a[1..], b, p);
    }
  }

  /** The position of the first rule that applies. */
  function FirstIndex(rules: seq<Rule>, p: Packet): (i: nat)
    ensures i <= |rules|
    ensures i < |rules| ==> Applies(rules[i], p)
    ensures forall k :: 0 <= k < i ==> !Applies(rules[k], p)
  {
    if rules == [] then 0 else if Applies(rules[0], p) then 0 else 1 + FirstIndex(rules[1..], p)
  }

  lemma {:induction false} FirstMatchAt(rules: seq<Rule>, p: Packet)
    ensures FirstMatch(rules, p) ==
            if FirstIndex(rules, p) < |rules| then Some(rules[FirstIndex(rules, p)].action) else None
  {
    if rules != [] { FirstMatchAt(rules[1..], p); }
  }

  /** Row by row, the rows say what the rules say. */
  ghost predicate Mirrors(rows: seq<Row>, rules: seq<Rule>) {
    |rows| == |rules| && forall i :: 0 <= i < |rows| ==>
      && rows[i].action == rules[i].action && rows[i].matchers == rules[i].matchers
      && rows[i].disabled == OrElse(rules[i].disabled, false)
  }

  /** A block of final rules decides by its first match, and hands over to what follows otherwise. */
  lemma {:induction false} WalkBlock(rows: seq<Row>, block: seq<Row>, rest: seq<Row>, rules: seq<Rule>,
                                     p: Packet, stack: set<string>)
    requires forall row :: row in block + rest ==> row in rows
    requires Mirrors(block, rules) && forall r :: r in rules ==> Final(r.action)
    ensures forall row :: row in rest ==> row in rows
    ensures FirstMatch(rules, p).Some? ==> Final(FirstMatch(rules, p).value)
    ensures Walk(rows, block + rest, p, stack) ==
            if FirstMatch(rules, p).Some? then VerdictOf(FirstMatch(rules, p).value) else Walk(rows, rest, p, stack)
  {
    if block == [] {
      assert block + rest == rest;
    } else {
      assert (block + rest)[1..] == block[1..] + rest;
      assert rules[0] in rules;
      WalkBlock(rows, block[1..], rest, rules[1..], p, stack);
    }
  }

  /** A jump at the head gives the target's verdict if it hits and the target does not return. */
  lemma WalkJump(rows: seq<Row>, jump: Row, rest: seq<Row>, p: Packet, stack: set<string>)
    requires forall row :: row in [jump] + rest ==> row in rows
    requires jump.action.Jump? && jump.action.target !in stack
    ensures forall row :: row in rest ==> row in rows
    ensures var inner := WalkChain(rows, jump.action.target, p, stack + {jump.action.target});
            Walk(rows, [jump] + rest, p, stack) ==
            if Hits(jump, p) && inner != Returned then inner else Walk(rows, rest, p, stack)
  {
    var pending := [jump] + rest;
    assert pending[0] == jump && pending[1..] == rest;
    forall row | row in rest ensures row in rows { assert row in pending; }
  }

  // ----- What a chain amounts to for one packet

  /** What the rows do to the packet: their jumps in order, and the action that ends the chain unless
      it is a return. */
  function Course(pending: seq<Row>, p: Packet): seq<Action> {
    if pending == [] then []
    else if Idle(pending[0], p) then Course(pending[1..], p)
    else
      match pending[0].action
      case Jump(_) => [pending[0].action] + Course(pending[1..], p)
      case Return => []
      case _ => [pending[0].action]
  }

  /** The row lets the packet go on to the next row. */
  predicate Idle(row: Row, p: Packet) { !Hits(row, p) || row.action.Pass? }

  /** The verdict depends on nothing but the courses of the chains that can be entered. */
  lemma {:induction false} WalkByCourse(a: seq<Row>, b: seq<Row>, pa: seq<Row>, pb: seq<Row>, p: Packet, stack: set<string>)
    requires forall row :: row in pa ==> row in a
    requires forall row :: row in pb ==> row in b
    requires Course(pa, p) == Course(pb, p)
    requires forall c :: c in Targets(a) && c !in stack ==> Course(Keep(a, InChain(c)), p) == Course(Keep(b, InChain(c)), p)
    ensures Walk(a, pa, p, stack) == Walk(b, pb, p, stack)
    decreases Targets(a) - stack, |pa| + |pb|
  {
    if pa != [] && Idle(pa[0], p) {
      WalkByCourse(a, b, pa[1..], pb, p, stack);
    } else if pb != [] && Idle(pb[0], p) {
      WalkByCourse(a, b, pa, pb[1..], p, stack);
    } else if pa != [] && pb != [] && pa[0].action.Jump? {
      SameJump(pa, pb, p);
      assert pa[0] in a;
      WalkByCourse(a, b, pa[1..], pb[1..], p, stack);
      var c := pa[0].action.target;
      if c !in stack {
        assert c in Targets(a) - stack && c !in Targets(a) - (stack + {c});
        KeptIsPart(a, c);
        KeptIsPart(b, c);
        WalkByCourse(a, b, Keep(a, InChain(c)), Keep(b, InChain(c)), p, stack + {c});
      }
    } else {
      CourseEnds(a, pa, p, stack);
      CourseEnds(b, pb, p, stack);
    }
  }

  /** The verdict of a course without jumps. */
  function EndOf(course: seq<Action>): Verdict {
    if course == [] then Returned
    else match course[0] case Accept => Accepted case Drop => Dropped case Terminate(name) => Ended(name) case _ => Looped
  }

  lemma CourseEnds(rows: seq<Row>, pending: seq<Row>, p: Packet, stack: set<string>)
    requires forall row :: row in pending ==> row in rows
    requires pending == [] || (!Idle(pending[0], p) && !pending[0].action.Jump?)
    ensures Walk(rows, pending, p, stack) == EndOf(Course(pending, p))
    ensures Course(pending, p) != [] ==> !Course(pending, p)[0].Jump?
  {
  }

  lemma SameJump(pa: seq<Row>, pb: seq<Row>, p: Packet)
    requires pa != [] && pb != [] && !Idle(pa[0], p) && !Idle(pb[0], p) && pa[0].action.Jump?
    requires Course(pa, p) == Course(pb, p)
    ensures pa[0].action == pb[0].action && Course(pa[1..], p) == Course(pb[1..], p)
  {
    var u, v := Course(pa[1..], p), Course(pb[1..], p);
    assert Course(pa, p)[0] == pa[0].action && Course(pa, p)[1..] == u;
    assert pb[0].action.Jump? ==> Course(pb, p)[1..] == v;
  }

  /** Rows that say the same do the same. */
  predicate SaysSame(x: Row, y: Row) {
    x.action == y.action && x.matchers == y.matchers && x.disabled == y.disabled
  }

  lemma {:induction false} CourseSame(x: seq<Row>, y: seq<Row>, rest: seq<Row>, p: Packet)
    requires |x| == |y| && forall i :: 0 <= i < |x| ==> SaysSame(x[i], y[i])
    ensures Course(x + rest, p) == Course(y + rest, p)
  {
    if x == [] {
      assert x + rest == y + rest;
    } else {
      assert (x + rest)[1..] == x[1..] + rest && (y + rest)[1..] == y[1..] + rest;
      CourseSame(x[1..], y[1..], rest, p);
    }
  }

  /** A table without one of its chains. */
  function Without(rows: seq<Row>, chain: string): seq<Row> { Keep(rows, OutsideChain(chain)) }

  lemma WithoutChain(rows: seq<Row>, chain: string, c: string)
    ensures Keep(Without(rows, chain), InChain(c)) == if c == chain then [] else Keep(rows, InChain(c))
  {
    if c == chain {
      forall row | row in Without(rows, chain) ensures row.chain != c { KeepMember(rows, OutsideChain(chain), row); }
      KeepNone(Without(rows, chain), InChain(c));
    } else {
      KeepImplied(rows, OutsideChain(chain), InChain(c));
    }
  }

  /** A chain that nothing jumps to, or that lets the packet pass, can be left out. */
  lemma UnseenChain(rows: seq<Row>, chain: string, entry: string, p: Packet)
    requires entry != chain
    requires chain !in Targets(rows) || Course(Keep(rows, InChain(chain)), p) == []
    ensures Evaluate(rows, entry, p) == Evaluate(Without(rows, chain), entry, p)
  {
    var rest := Without(rows, chain);
    forall c | c in Targets(rows) ensures Course(Keep(rows, InChain(c)), p) == Course(Keep(rest, InChain(c)), p) {
      WithoutChain(rows, chain, c);
    }
    WithoutChain(rows, chain, entry);
    KeptIsPart(rows, entry);
    KeptIsPart(rest, entry);
    WalkByCourse(rows, rest, Keep(rows, InChain(entry)), Keep(rest, InChain(entry)), p, {entry});
  }
}
