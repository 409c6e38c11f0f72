/**
 The protocol policy generator: which firewall rules it owns, in which order, and the script it
 emits for them.
 */
module ProtocolPolicy {
  import opened Options
  import opened FirewallTable
  import opened PolicyScript

  import opened Texts

  /** What differs between the two address families. */
  datatype Family = Family(table: TableName, chain: string, proto: string, managed: string, internal: string,
                           multicast: string, errors: seq<nat>, echo: seq<nat>)

  const V4 := Family(Filter4, "sb-gateway-protocol-v4", "icmp", "SB_MANAGED_CLIENTS", "SB_INTERNAL_NETWORKS",
                     "224.0.0.0/4", [3, 11, 12], [8, 0])
  const V6 := Family(Filter6, "sb-gateway-protocol-v6", "icmpv6", "SB_MANAGED_CLIENTS_V6", "SB_INTERNAL_NETWORKS_V6",
                     "ff00::/8", [1, 2, 3, 4], [128, 129])

  const DIVERT := "sb-gateway-divert"
  const FORWARD4 := "sb-gateway-forward"
  const FORWARD6 := "forward"

  const GUARDED := [(Filter4, V4.chain), (Filter6, V6.chain)]

  // ----- The rules, family by family

  function FamilyRule(f: Family, word: string, action: Action, m: Matchers): Rule {
    Rule(f.table, f.chain, OWNED + (f.proto + " " + word), action, m, None)
  }

  function TransportRule(f: Family, protocol: string): Rule {
    FamilyRule(f, protocol, Return, ANY.(protocol := Some(protocol)))
  }

  /** Who a related error may concern; only IPv4 has the container as an endpoint. */
  function Scopes(f: Family, containerIP: string): seq<Matchers> {
    [ANY.(srcList := Some(InList(f.managed))), ANY.(dstList := Some(InList(f.managed)))]
    + if f.proto == "icmp" then [ANY.(srcAddress := Some(containerIP)), ANY.(dstAddress := Some(containerIP))] else []
  }

  function RelatedWord(scope: nat, kind: nat): string { "related " + (Decimal(scope) + " " + Decimal(kind)) }

  function RelatedRule(f: Family, scope: nat, m: Matchers, kind: nat): Rule {
    FamilyRule(f, RelatedWord(scope, kind), Accept,
               m.(protocol := Some(f.proto), icmpType := Some(kind), state := Some("related")))
  }

  function RelatedKinds(f: Family, scope: nat, m: Matchers, kinds: seq<nat>): seq<Rule> {
    if kinds == [] then [] else [RelatedRule(f, scope, m, kinds[0])] + RelatedKinds(f, scope, m, kinds[1..])
  }

  function RelatedFrom(f: Family, scopes: seq<Matchers>, i: nat): seq<Rule>
    requires i <= |scopes|
    decreases |scopes| - i
  {
    if i == |scopes| then [] else RelatedKinds(f, i, scopes[i], f.errors) + RelatedFrom(f, scopes, i + 1)
  }

  function MulticastRule(f: Family): Rule {
    FamilyRule(f, "multicast", Return, ANY.(dstAddress := Some(f.multicast)))
  }

  function BroadcastRules(f: Family): seq<Rule> {
    if f.proto == "icmp" then
      [FamilyRule(f, "broadcast", Accept,
                  ANY.(srcList := Some(InList("SB_MANAGED_CLIENTS")), dstType := Some("broadcast")))]
    else []
  }

  function InternalRule(f: Family): Rule {
    FamilyRule(f, "internal", Return, ANY.(dstList := Some(InList(f.internal))))
  }

  function UnmanagedRule(f: Family): Rule {
    FamilyRule(f, "unmanaged", Return, ANY.(srcList := Some(NotInList(f.managed))))
  }

  function EchoRule(f: Family, allowPing: bool, kind: nat): Rule {
    FamilyRule(f, "echo " + Decimal(kind), if allowPing then Accept else Drop,
               ANY.(protocol := Some(f.proto), icmpType := Some(kind)))
  }

  function EchoRules(f: Family, allowPing: bool, kinds: seq<nat>): seq<Rule> {
    if kinds == [] then [] else [EchoRule(f, allowPing, kinds[0])] + EchoRules(f, allowPing, kinds[1..])
  }

  function UnsupportedRule(f: Family): Rule { FamilyRule(f, "unsupported", Drop, ANY) }

  function TransportRules(f: Family): seq<Rule> { [TransportRule(f, "tcp"), TransportRule(f, "udp")] }

  function DestinationRules(f: Family): seq<Rule> {
    [MulticastRule(f)] + BroadcastRules(f) + [InternalRule(f), UnmanagedRule(f)]
  }

  function FamilyRules(f: Family, containerIP: string, allowPing: bool): seq<Rule> {
    TransportRules(f) + RelatedFrom(f, Scopes(f, containerIP), 0) + DestinationRules(f)
    + EchoRules(f, allowPing, f.echo) + [UnsupportedRule(f)]
  }

  // ----- The diversion and jump rules

  function DivertRule(word: string, m: Matchers, disabled: Option<bool>): Rule {
    Rule(Mangle4, DIVERT, OWNED + ("divert " + word), Return, m, disabled)
  }

  function DivertRelated(kind: nat): Rule {
    DivertRule("related " + Decimal(kind),
               ANY.(protocol := Some("icmp"), icmpType := Some(kind), state := Some("related")), None)
  }

  function DivertEcho(allowPing: bool, kind: nat): Rule {
    DivertRule("echo " + Decimal(kind), ANY.(protocol := Some("icmp"), icmpType := Some(kind)), Some(!allowPing))
  }

  function DivertRules(allowPing: bool): seq<Rule> {
    [DivertRelated(3), DivertRelated(11), DivertRelated(12), DivertEcho(allowPing, 8), DivertEcho(allowPing, 0),
     DivertRule("multicast", ANY.(dstAddress := Some("224.0.0.0/4")), None),
     DivertRule("broadcast", ANY.(dstType := Some("broadcast")), None)]
  }

  const JUMP4 := Rule(Filter4, FORWARD4, OWNED + "forward v4 jump", Jump(V4.chain), ANY, None)
  const JUMP6 := Rule(Filter6, FORWARD6, OWNED + "forward v6 jump", Jump(V6.chain), ANY, None)

  function PolicyRules(containerIP: string, allowPing: bool): seq<Rule> {
    FamilyRules(V4, containerIP, allowPing) + FamilyRules(V6, containerIP, allowPing)
    + DivertRules(allowPing) + [JUMP4, JUMP6]
  }

  // ----- The generator

  method AppendRelated(f: Family, scope: nat, m: Matchers, before: seq<Rule>) returns (rules: seq<Rule>)
    ensures rules == before + RelatedKinds(f, scope, m, f.errors)
  {
    rules := before;
    for k := 0 to |f.errors|
      invariant rules + RelatedKinds(f, scope, m, f.errors[k..]) == before + RelatedKinds(f, scope, m, f.errors)
    {
      rules := rules + [RelatedRule(f, scope, m, f.errors[k])];
    }
  }

  method AppendScopes(f: Family, scopes: seq<Matchers>, before: seq<Rule>) returns (rules: seq<Rule>)
    ensures rules == before + RelatedFrom(f, scopes, 0)
  {
    rules := before;
    for i := 0 to |scopes|
      invariant rules + RelatedFrom(f, scopes, i) == before + RelatedFrom(f, scopes, 0)
    {
      ghost var done := rules;
      rules := AppendRelated(f, i, scopes[i], rules);
      assert rules + RelatedFrom(f, scopes, i + 1) == done + RelatedFrom(f, scopes, i);
    }
  }

  method AppendEcho(f: Family, allowPing: bool, before: seq<Rule>) returns (rules: seq<Rule>)
    ensures rules == before + EchoRules(f, allowPing, f.echo)
  {
    rules := before;
    for k := 0 to |f.echo|
      invariant rules + EchoRules(f, allowPing, f.echo[k..]) == before + EchoRules(f, allowPing, f.echo)
    {
      rules := rules + [EchoRule(f, allowPing, f.echo[k])];
    }
  }

  method AppendTransport(f: Family, before: seq<Rule>) returns (rules: seq<Rule>)
    ensures rules == before + TransportRules(f)
  {
    rules := before;
    var protocols := ["tcp", "udp"];
    for p := 0 to |protocols|
      invariant rules == before + TransportRules(f)[..p]
    {
      rules := rules + [TransportRule(f, protocols[p])];
    }
  }

  method AppendDestinations(f: Family, before: seq<Rule>) returns (rules: seq<Rule>)
    ensures rules == before + DestinationRules(f)
  {
    rules := before + [MulticastRule(f)];
    if f.proto == "icmp" {
      rules := rules + [FamilyRule(f, "broadcast", Accept,
                                   ANY.(srcList := Some(InList("SB_MANAGED_CLIENTS")), dstType := Some("broadcast")))];
    }
    rules := rules + [InternalRule(f)];
    rules := rules + [UnmanagedRule(f)];
  }

  method AppendFamily(f: Family, containerIP: string, allowPing: bool, before: seq<Rule>) returns (rules: seq<Rule>)
    ensures rules == before + FamilyRules(f, containerIP, allowPing)
  {
    rules := AppendTransport(f, before);
    var scopes := [ANY.(srcList := Some(InList(f.managed))), ANY.(dstList := Some(InList(f.managed)))];
    if f.proto == "icmp" {
      scopes := scopes + [ANY.(srcAddress := Some(containerIP)), ANY.(dstAddress := Some(containerIP))];
    }
    assert scopes == Scopes(f, containerIP);
    rules := AppendScopes(f, scopes, rules);
    rules := AppendDestinations(f, rules);
    rules := AppendEcho(f, allowPing, rules);
    rules := rules + [UnsupportedRule(f)];
  }

  method AppendDivert(allowPing: bool, before: seq<Rule>) returns (rules: seq<Rule>)
    ensures rules == before + DivertRules(allowPing)
  {
    rules := before;
    var errors, echo := [3, 11, 12], [8, 0];
    for k := 0 to |errors|
      invariant rules == before + DivertRules(allowPing)[..k]
    {
      rules := rules + [DivertRelated(errors[k])];
    }
    var disabled := !allowPing;
    for k := 0 to |echo|
      invariant rules == before + DivertRules(allowPing)[..3 + k]
    {
      rules := rules + [DivertRule("echo " + Decimal(echo[k]),
                                   ANY.(protocol := Some("icmp"), icmpType := Some(echo[k])), Some(disabled))];
    }
    rules := rules + [DivertRule("multicast", ANY.(dstAddress := Some("224.0.0.0/4")), None)];
    rules := rules + [DivertRule("broadcast", ANY.(dstType := Some("broadcast")), None)];
  }

  lemma GuardsPair(a: (TableName, string), b: (TableName, string))
    ensures Guards([a, b]) == [RequireOwned(a.0, a.1), RequireOwned(b.0, b.1)]
  {
    calc {
      Guards([a, b]);
      { assert [a, b][1..] == [b]; }
      [RequireOwned(a.0, a.1)] + Guards([b]);
      { assert [b][1..] == []; }
      [RequireOwned(a.0, a.1)] + ([RequireOwned(b.0, b.1)] + Guards([]));
    }
  }

  /** The loop over both families: a guard line and the rules of each. */
  method EmitFamilies(containerIP: string, allowPing: bool) returns (lines: seq<Command>, rules: seq<Rule>)
    ensures lines == Guards(GUARDED)
    ensures rules == FamilyRules(V4, containerIP, allowPing) + FamilyRules(V6, containerIP, allowPing)
  {
    lines, rules := [], [];
    var families := [V4, V6];
    GuardsPair(GUARDED[0], GUARDED[1]);
    for i := 0 to |families|
      invariant i == 0 ==> rules == [] && lines == []
      invariant i == 1 ==> rules == FamilyRules(V4, containerIP, allowPing) && lines == [RequireOwned(V4.table, V4.chain)]
      invariant i == 2 ==> rules == FamilyRules(V4, containerIP, allowPing) + FamilyRules(V6, containerIP, allowPing)
                           && lines == Guards(GUARDED)
    {
      var family := families[i];
      lines := lines + [RequireOwned(family.table, family.chain)];
      rules := AppendFamily(family, containerIP, allowPing, rules);
    }
  }

  /** The emitted script is: both guards, then every rule added or set in order, then every rule
      moved in reverse order. */
  method ProtocolPolicySource(containerIP: string, allowPing: bool) returns (lines: seq<Command>)
    ensures lines == Script(GUARDED, PolicyRules(containerIP, allowPing))
  {
    var rules: seq<Rule>;
    lines, rules := EmitFamilies(containerIP, allowPing);
    rules := AppendDivert(allowPing, rules);
    rules := rules + [JUMP4, JUMP6];
    lines := EmitLines(lines, rules);
  }

  method EmitLines(guards: seq<Command>, rules: seq<Rule>) returns (lines: seq<Command>)
    ensures lines == guards + Upserts(rules) + Promotes(rules)
  {
    lines := guards;
    for i := 0 to |rules|
      invariant lines + Upserts(rules[i..]) == guards + Upserts(rules)
    {
      lines := lines + [Upsert(rules[i])];
    }
    for i := |rules| downto 0
      invariant lines == guards + Upserts(rules) + Promotes(rules[i..])
    {
      assert rules[i..] == [rules[i]] + rules[i + 1..];
      lines := lines + [Promote(rules[i])];
    }
    assert rules[0..] == rules;
  }
}
