/**
 The policy under reconfiguration: whatever configurations were applied before, the tables are
 those of the last one.
 */
module PolicyHistory {
  import opened FirewallTable
  import opened PolicyScript
  import opened ScriptTheorems
  import opened Reconfiguration
  import opened ProtocolPolicy
  import opened PolicyLayout
  import opened PolicyTheorems

  lemma AlikeConcat(a: seq<Rule>, b: seq<Rule>, c: seq<Rule>, d: seq<Rule>)
    requires AllAlike(a, b) && AllAlike(c, d)
    ensures AllAlike(a + c, b + d)
  {
  }

  lemma SameIsAlike(a: seq<Rule>)
    requires forall r :: r in a ==> r.matchers.other == map[]
    ensures AllAlike(a, a)
  {
  }

  lemma RelatedKindsAlike(f: Family, scope: nat, m: Matchers, m': Matchers, kinds: seq<nat>)
    requires SameNames(m, m')
    ensures AllAlike(RelatedKinds(f, scope, m, kinds), RelatedKinds(f, scope, m', kinds))
  {
    RelatedKindsAt(f, scope, m, kinds);
    RelatedKindsAt(f, scope, m', kinds);
  }

  lemma {:induction false} RelatedAlike(f: Family, a: seq<Matchers>, b: seq<Matchers>, i: nat)
    requires i <= |a| == |b| && forall k :: 0 <= k < |a| ==> SameNames(a[k], b[k])
    ensures AllAlike(RelatedFrom(f, a, i), RelatedFrom(f, b, i))
    decreases |a| - i
  {
    if i < |a| {
      RelatedAlike(f, a, b, i + 1);
      RelatedKindsAlike(f, i, a[i], b[i], f.errors);
      AlikeConcat(RelatedKinds(f, i, a[i], f.errors), RelatedKinds(f, i, b[i], f.errors),
                  RelatedFrom(f, a, i + 1), RelatedFrom(f, b, i + 1));
    }
  }

  lemma EchoAlike(f: Family, p: bool, q: bool)
    ensures AllAlike(EchoRules(f, p, f.echo), EchoRules(f, q, f.echo))
  {
    EchoAt(f, p, f.echo);
    EchoAt(f, q, f.echo);
  }

  /** The address and the switch change values only. */
  lemma FamilyAlike(f: Family, ip: string, p: bool, ip': string, q: bool)
    ensures AllAlike(FamilyRules(f, ip, p), FamilyRules(f, ip', q))
  {
    var a, c, e := TransportRules(f), DestinationRules(f), [UnsupportedRule(f)];
    var b, b' := RelatedFrom(f, Scopes(f, ip), 0), RelatedFrom(f, Scopes(f, ip'), 0);
    var d, d' := EchoRules(f, p, f.echo), EchoRules(f, q, f.echo);
    SameIsAlike(a);
    SameIsAlike(c);
    SameIsAlike(e);
    RelatedAlike(f, Scopes(f, ip), Scopes(f, ip'), 0);
    EchoAlike(f, p, q);
    AlikeConcat(a, a, b, b');
    AlikeConcat(a + b, a + b', c, c);
    AlikeConcat(a + b + c, a + b' + c, d, d');
    AlikeConcat(a + b + c + d, a + b' + c + d', e, e);
  }

  lemma DivertAlike(p: bool, q: bool)
    ensures AllAlike(DivertRules(p), DivertRules(q))
  {
  }

  lemma JumpedAlike(f: Family, jump: Rule, ip: string, p: bool, ip': string, q: bool)
    requires jump.matchers == ANY
    ensures AllAlike(FamilyRules(f, ip, p) + [jump], FamilyRules(f, ip', q) + [jump])
  {
    FamilyAlike(f, ip, p, ip', q);
    SameIsAlike([jump]);
    AlikeConcat(FamilyRules(f, ip, p), FamilyRules(f, ip', q), [jump], [jump]);
  }

  lemma TableAlike(ip: string, p: bool, ip': string, q: bool, n: TableName)
    ensures AllAlike(TableRules(ip, p, n), TableRules(ip', q, n))
  {
    match n
    case Filter4 => JumpedAlike(V4, JUMP4, ip, p, ip', q);
    case Filter6 => JumpedAlike(V6, JUMP6, ip, p, ip', q);
    case Mangle4 => DivertAlike(p, q);
  }

  lemma PolicyAlike(ip: string, p: bool, ip': string, q: bool)
    ensures AlikePerTable(PolicyRules(ip, p), PolicyRules(ip', q))
  {
    forall n: TableName ensures AllAlike(RulesAt(PolicyRules(ip, p), n), RulesAt(PolicyRules(ip', q), n)) {
      PolicyAt(ip, p, n);
      PolicyAt(ip', q, n);
      TableAlike(ip, p, ip', q, n);
    }
  }

  // ----- Sequences of configurations

  datatype Config = Config(containerIP: string, allowPing: bool)

  /** One run of the script for a configuration. */
  function Configured(c: Config, ts: Tables): Outcome { Run(Source(c.containerIP, c.allowPing), ts) }

  /** Applies configurations one after the other, stopping at the first error. */
  function Configure(apply: (Config, Tables) -> Outcome, configs: seq<Config>, ts: Tables): Outcome
    decreases |configs|
  {
    if configs == [] then Completed(ts)
    else
      match apply(configs[0], ts)
      case Completed(next) => Configure(apply, configs[1..], next)
      case Aborted(t, e) => Aborted(t, e)
  }

  ghost predicate Forgets(apply: (Config, Tables) -> Outcome, c: Config, d: Config, ts: Tables) {
    ts.Valid() && apply(c, ts).Completed? ==>
      apply(c, ts).tables.Valid() && apply(d, ts).Completed? && apply(d, apply(c, ts).tables) == apply(d, ts)
  }

  /** What one application leaves behind does not show in the next. */
  ghost predicate Forgetful(apply: (Config, Tables) -> Outcome) {
    forall c: Config, d: Config, ts: Tables :: Forgets(apply, c, d, ts)
  }

  lemma OneReconfiguration(first: Config, second: Config, ts: Tables)
    requires ts.Valid() && Configured(first, ts).Completed?
    ensures Configured(first, ts).tables.Valid() && Configured(second, ts).Completed?
    ensures Configured(second, Configured(first, ts).tables) == Configured(second, ts)
  {
    var a, b := PolicyRules(first.containerIP, first.allowPing), PolicyRules(second.containerIP, second.allowPing);
    PolicyDistinct(first.containerIP, first.allowPing);
    PolicyDistinct(second.containerIP, second.allowPing);
    PolicyGrouped(first.containerIP, first.allowPing);
    PolicyAlike(first.containerIP, first.allowPing, second.containerIP, second.allowPing);
    PolicyOwned(first.containerIP, first.allowPing);
    CompletedRun(GUARDED, a, ts);
    LastRunWins(GUARDED, a, b, ts);
  }

  lemma {:induction false} LastOneWins(apply: (Config, Tables) -> Outcome, configs: seq<Config>, ts: Tables)
    requires Forgetful(apply) && ts.Valid() && configs != [] && apply(configs[0], ts).Completed?
    ensures Configure(apply, configs, ts).Completed?
    ensures Configure(apply, configs, ts) == apply(configs[|configs| - 1], ts)
    decreases |configs|
  {
    var mid, last := apply(configs[0], ts).tables, configs[|configs| - 1];
    if |configs| == 1 {
      assert configs[1..] == [];
    } else {
      assert Forgets(apply, configs[0], configs[1], ts) && Forgets(apply, configs[0], last, ts);
      LastOneWins(apply, configs[1..], mid);
    }
  }

  /** Once one configuration could be applied, every sequence of configurations can, and it leaves
      exactly the tables that its last configuration leaves on its own. */
  lemma LastConfigurationWins(configs: seq<Config>, ts: Tables)
    requires ts.Valid() && configs != [] && Configured(configs[0], ts).Completed?
    ensures Configure(Configured, configs, ts).Completed?
    ensures Configure(Configured, configs, ts) == Configured(configs[|configs| - 1], ts)
  {
    forall c: Config, d: Config, t: Tables ensures Forgets(Configured, c, d, t) {
      if t.Valid() && Configured(c, t).Completed? { OneReconfiguration(c, d, t); }
    }
    LastOneWins(Configured, configs, ts);
  }
}
