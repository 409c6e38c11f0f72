/**
 What the policy promises, in the router's own words: with the chain names, list names, networks and
 ICMP types of RFC 792 and of sections 3.1 to 3.4, 4.1 and 4.2 of RFC 4443 written out.
 */
module PolicyStatement {
  import opened Options
  import opened Texts
  import opened FirewallTable
  import opened PolicyScript
  import opened ProtocolPolicy
  import opened PolicyLayout
  import opened PacketFilter
  import opened PolicyDecision
  import opened PolicyCarryover
  import opened PolicyTheorems

  /** IPv4: TCP and UDP go on; destination unreachable, time exceeded and parameter problem of a related
      connection pass for managed clients and the container; ping of managed clients passes on demand. */
  function DecideV4(containerIP: string, allowPing: bool, p: Packet): Verdict {
    var managed := "SB_MANAGED_CLIENTS" in p.srcLists;
    if p.protocol == "tcp" || p.protocol == "udp" then Returned
    else if p.protocol == "icmp" && (p.icmpType == 3 || p.icmpType == 11 || p.icmpType == 12) && p.state == "related"
            && (managed || "SB_MANAGED_CLIENTS" in p.dstLists || containerIP in p.srcNets || containerIP in p.dstNets)
    then Accepted
    else if "224.0.0.0/4" in p.dstNets then Returned
    else if managed && p.dstType == "broadcast" then Accepted
    else if "SB_INTERNAL_NETWORKS" in p.dstLists || !managed then Returned
    else if allowPing && p.protocol == "icmp" && (p.icmpType == 8 || p.icmpType == 0) then Accepted
    else Dropped
  }

  /** IPv6: the same with destination unreachable, packet too big, time exceeded and parameter problem,
      without broadcast and without the container. */
  function DecideV6(allowPing: bool, p: Packet): Verdict {
    var managed := "SB_MANAGED_CLIENTS_V6" in p.srcLists;
    if p.protocol == "tcp" || p.protocol == "udp" then Returned
    else if p.protocol == "icmpv6" && 1 <= p.icmpType <= 4 && p.state == "related"
            && (managed || "SB_MANAGED_CLIENTS_V6" in p.dstLists)
    then Accepted
    else if "ff00::/8" in p.dstNets then Returned
    else if "SB_INTERNAL_NETWORKS_V6" in p.dstLists || !managed then Returned
    else if allowPing && p.protocol == "icmpv6" && (p.icmpType == 128 || p.icmpType == 129) then Accepted
    else Dropped
  }

  lemma TypesV4(p: Packet)
    ensures p.icmpType in V4.errors <==> p.icmpType == 3 || p.icmpType == 11 || p.icmpType == 12
    ensures p.icmpType in V4.echo <==> p.icmpType == 8 || p.icmpType == 0
  {
  }

  lemma TypesV6(p: Packet)
    ensures p.icmpType in V6.errors <==> 1 <= p.icmpType <= 4
    ensures p.icmpType in V6.echo <==> p.icmpType == 128 || p.icmpType == 129
  {
  }

  lemma DecisionV4(containerIP: string, allowPing: bool, p: Packet)
    ensures Decide(V4, containerIP, allowPing, p) == DecideV4(containerIP, allowPing, p)
  {
    TypesV4(p);
  }

  lemma DecisionV6(containerIP: string, allowPing: bool, p: Packet)
    ensures Decide(V6, containerIP, allowPing, p) == DecideV6(allowPing, p)
  {
    TypesV6(p);
    assert V6.proto[4] == 'v';
  }

  /** After a run from a clean start the IPv4 protocol chain decides every packet like this. */
  lemma PolicyDecidesV4(containerIP: string, allowPing: bool, ts: Tables, p: Packet)
    requires ts.Valid() && Run(Source(containerIP, allowPing), ts).Completed? && Clean(containerIP, allowPing, ts)
    ensures Evaluate(Run(Source(containerIP, allowPing), ts).tables.filter4.rows, "sb-gateway-protocol-v4", p)
            == DecideV4(containerIP, allowPing, p)
  {
    PolicyDecidesPackets(V4, containerIP, allowPing, ts, p);
    DecisionV4(containerIP, allowPing, p);
  }

  /** And the IPv6 one like this. */
  lemma PolicyDecidesV6(containerIP: string, allowPing: bool, ts: Tables, p: Packet)
    requires ts.Valid() && Run(Source(containerIP, allowPing), ts).Completed? && Clean(containerIP, allowPing, ts)
    ensures Evaluate(Run(Source(containerIP, allowPing), ts).tables.filter6.rows, "sb-gateway-protocol-v6", p)
            == DecideV6(allowPing, p)
  {
    PolicyDecidesPackets(V6, containerIP, allowPing, ts, p);
    DecisionV6(containerIP, allowPing, p);
  }

  /** The IPv4 forward chain: the decision, or what the start without the policy's rules and without the
      protocol chain says. */
  lemma PolicyForwardsV4(containerIP: string, allowPing: bool, ts: Tables, p: Packet)
    requires ts.Valid() && Run(Source(containerIP, allowPing), ts).Completed? && Clean(containerIP, allowPing, ts)
    ensures var alone := Foreign(TableRules(containerIP, allowPing, Filter4), ts.filter4.rows);
            Evaluate(Run(Source(containerIP, allowPing), ts).tables.filter4.rows, "sb-gateway-forward", p) ==
            if DecideV4(containerIP, allowPing, p) == Returned
            then Evaluate(Without(alone, "sb-gateway-protocol-v4"), "sb-gateway-forward", p)
            else DecideV4(containerIP, allowPing, p)
  {
    PolicyForwards(V4, containerIP, allowPing, ts, p);
    DecisionV4(containerIP, allowPing, p);
  }

  lemma PolicyForwardsV6(containerIP: string, allowPing: bool, ts: Tables, p: Packet)
    requires ts.Valid() && Run(Source(containerIP, allowPing), ts).Completed? && Clean(containerIP, allowPing, ts)
    ensures var alone := Foreign(TableRules(containerIP, allowPing, Filter6), ts.filter6.rows);
            Evaluate(Run(Source(containerIP, allowPing), ts).tables.filter6.rows, "forward", p) ==
            if DecideV6(allowPing, p) == Returned then Evaluate(Without(alone, "sb-gateway-protocol-v6"), "forward", p)
            else DecideV6(allowPing, p)
  {
    PolicyForwards(V6, containerIP, allowPing, ts, p);
    DecisionV6(containerIP, allowPing, p);
  }

  /** The diversion chain lets related errors, permitted ping, multicast and broadcast go and leaves every
      other packet to the rules that were there. */
  lemma PolicyDivertsV4(containerIP: string, allowPing: bool, ts: Tables, p: Packet)
    requires ts.Valid() && Run(Source(containerIP, allowPing), ts).Completed? && Clean(containerIP, allowPing, ts)
    ensures Evaluate(Run(Source(containerIP, allowPing), ts).tables.mangle4.rows, "sb-gateway-divert", p) ==
            if || (p.protocol == "icmp" && p.state == "related"
                   && (p.icmpType == 3 || p.icmpType == 11 || p.icmpType == 12))
               || (allowPing && p.protocol == "icmp" && (p.icmpType == 8 || p.icmpType == 0))
               || "224.0.0.0/4" in p.dstNets || p.dstType == "broadcast"
            then Returned else Evaluate(Foreign(DivertRules(allowPing), ts.mangle4.rows), "sb-gateway-divert", p)
  {
    PolicyDiverts(containerIP, allowPing, ts, p);
    ExemptExactly(allowPing, p);
  }

  // ----- Labels

  function Label(f: Family, word: string): string { "SB-GATEWAY protocol " + f.proto + " " + word }

  lemma FamilyLabel(f: Family, word: string, action: Action, m: Matchers)
    ensures FamilyRule(f, word, action, m).comment == Label(f, word)
  {
    assert OWNED + (f.proto + " " + word) == OWNED + f.proto + " " + word;
  }

  lemma RelatedText(scope: nat, kind: nat)
    ensures RelatedWord(scope, kind) == "related " + Decimal(scope) + " " + Decimal(kind)
  {
  }

  /** The labels under which later releases find the rules again. */
  lemma Labels(f: Family, m: Matchers, scope: nat, kind: nat, allowPing: bool)
    ensures TransportRule(f, "tcp").comment == Label(f, "tcp") && TransportRule(f, "udp").comment == Label(f, "udp")
    ensures RelatedRule(f, scope, m, kind).comment == Label(f, "related " + Decimal(scope) + " " + Decimal(kind))
    ensures MulticastRule(f).comment == Label(f, "multicast") && InternalRule(f).comment == Label(f, "internal")
    ensures forall r :: r in BroadcastRules(f) ==> r.comment == Label(f, "broadcast")
    ensures UnmanagedRule(f).comment == Label(f, "unmanaged") && UnsupportedRule(f).comment == Label(f, "unsupported")
    ensures EchoRule(f, allowPing, kind).comment == Label(f, "echo " + Decimal(kind))
  {
    RelatedText(scope, kind);
    FamilyLabel(f, "tcp", Return, TransportRule(f, "tcp").matchers);
    FamilyLabel(f, "udp", Return, TransportRule(f, "udp").matchers);
    FamilyLabel(f, RelatedWord(scope, kind), Accept, RelatedRule(f, scope, m, kind).matchers);
    FamilyLabel(f, "multicast", Return, MulticastRule(f).matchers);
    FamilyLabel(f, "internal", Return, InternalRule(f).matchers);
    FamilyLabel(f, "unmanaged", Return, UnmanagedRule(f).matchers);
    FamilyLabel(f, "unsupported", Drop, ANY);
    FamilyLabel(f, "echo " + Decimal(kind), EchoRule(f, allowPing, kind).action, EchoRule(f, allowPing, kind).matchers);
    forall r | r in BroadcastRules(f) ensures r.comment == Label(f, "broadcast") {
      FamilyLabel(f, "broadcast", Accept, r.matchers);
    }
  }

  lemma DivertLabel(word: string, m: Matchers, d: Option<bool>)
    ensures DivertRule(word, m, d).comment == "SB-GATEWAY protocol divert " + word
  {
    assert OWNED + ("divert " + word) == (OWNED + "divert ") + word;
  }

  lemma DivertLabels(allowPing: bool)
    ensures forall i :: 0 <= i < 7 ==>
              DivertRules(allowPing)[i].comment == "SB-GATEWAY protocol divert " +
              ["related " + Decimal(3), "related " + Decimal(11), "related " + Decimal(12), "echo " + Decimal(8),
               "echo " + Decimal(0), "multicast", "broadcast"][i]
  {
    forall word: string, m: Matchers, d: Option<bool>
      ensures DivertRule(word, m, d).comment == "SB-GATEWAY protocol divert " + word
    {
      DivertLabel(word, m, d);
    }
  }

  lemma JumpLabels()
    ensures JUMP4.comment == "SB-GATEWAY protocol forward v4 jump"
    ensures JUMP6.comment == "SB-GATEWAY protocol forward v6 jump"
  {
  }
}
