/**
 What the policy decides, as one short function of the packet, and that the generated rule lists
 decide exactly that.
 */
module PolicyDecision {
  import opened Options
  import opened FirewallTable
  import opened PacketFilter
  import opened ProtocolPolicy

  // ----- The decision

  predicate IsTransport(p: Packet) { p.protocol == "tcp" || p.protocol == "udp" }

  /** A related error: unreachable, too big, time exceeded or parameter problem of the family. */
  predicate IsRelatedError(f: Family, p: Packet) {
    p.protocol == f.proto && p.icmpType in f.errors && p.state == "related"
  }

  predicate IsEcho(f: Family, p: Packet) { p.protocol == f.proto && p.icmpType in f.echo }

  predicate FromManaged(f: Family, p: Packet) { f.managed in p.srcLists }

  /** The packet goes from or to a managed client or, in IPv4, the container. */
  predicate Concerned(f: Family, containerIP: string, p: Packet) {
    || FromManaged(f, p) || f.managed in p.dstLists
    || (f.proto == "icmp" && (containerIP in p.srcNets || containerIP in p.dstNets))
  }

  predicate ToMulticast(f: Family, p: Packet) { f.multicast in p.dstNets }

  predicate ToInternal(f: Family, p: Packet) { f.internal in p.dstLists }

  /** Only IPv4 has broadcast. */
  predicate ManagedBroadcast(f: Family, p: Packet) {
    f.proto == "icmp" && "SB_MANAGED_CLIENTS" in p.srcLists && p.dstType == "broadcast"
  }

  function Decide(f: Family, containerIP: string, allowPing: bool, p: Packet): Verdict {
    if IsTransport(p) then Returned
    else if IsRelatedError(f, p) && Concerned(f, containerIP, p) then Accepted
    else if ToMulticast(f, p) then Returned
    else if ManagedBroadcast(f, p) then Accepted
    else if ToInternal(f, p) || !FromManaged(f, p) then Returned
    else if allowPing && IsEcho(f, p) then Accepted
    else Dropped
  }

  // ----- The rules decide that

  /** A scope restricts addresses only. */
  predicate AddressOnly(m: Matchers) { m.protocol.None? && m.icmpType.None? && m.state.None? }

  lemma {:induction false} RelatedKindsFirst(f: Family, scope: nat, m: Matchers, kinds: seq<nat>, p: Packet)
    requires AddressOnly(m)
    ensures FirstMatch(RelatedKinds(f, scope, m, kinds), p) ==
            if p.protocol == f.proto && p.icmpType in kinds && p.state == "related" && Matches(m, p) then Some(Accept) else None
  {
    if kinds != [] {
      RelatedKindsFirst(f, scope, m, kinds[1..], p);
      var r := RelatedRule(f, scope, m, kinds[0]);
      assert RelatedKinds(f, scope, m, kinds)[1..] == RelatedKinds(f, scope, m, kinds[1..]);
      assert Applies(r, p) <==> p.protocol == f.proto && p.icmpType == kinds[0] && p.state == "related" && Matches(m, p);
    }
  }

  lemma {:induction false} RelatedFirst(f: Family, scopes: seq<Matchers>, i: nat, p: Packet)
    requires i <= |scopes| && forall m :: m in scopes ==> AddressOnly(m)
    ensures FirstMatch(RelatedFrom(f, scopes, i), p) ==
            if IsRelatedError(f, p) && exists s :: i <= s < |scopes| && Matches(scopes[s], p) then Some(Accept) else None
    decreases |scopes| - i
  {
    if i < |scopes| {
      RelatedFirst(f, scopes, i + 1, p);
      RelatedKindsFirst(f, i, scopes[i], f.errors, p);
      FirstMatchConcat(RelatedKinds(f, i, scopes[i], f.errors), RelatedFrom(f, scopes, i + 1), p);
    }
  }

  /** Some scope holds exactly when the packet concerns a managed client or the container. */
  lemma ScopesConcern(f: Family, containerIP: string, p: Packet)
    ensures var scopes := Scopes(f, containerIP);
            && (forall m :: m in scopes ==> AddressOnly(m))
            && ((exists s :: 0 <= s < |scopes| && Matches(scopes[s], p)) <==> Concerned(f, containerIP, p))
  {
    var scopes := Scopes(f, containerIP);
    assert Matches(scopes[0], p) <==> f.managed in p.srcLists;
    assert Matches(scopes[1], p) <==> f.managed in p.dstLists;
    if f.proto == "icmp" {
      assert |scopes| == 4;
      assert Matches(scopes[2], p) <==> containerIP in p.srcNets;
      assert Matches(scopes[3], p) <==> containerIP in p.dstNets;
    }
  }

  lemma {:induction false} EchoFirst(f: Family, allowPing: bool, kinds: seq<nat>, p: Packet)
    ensures FirstMatch(EchoRules(f, allowPing, kinds), p) ==
            if p.protocol == f.proto && p.icmpType in kinds then Some(if allowPing then Accept else Drop) else None
  {
    if kinds != [] {
      EchoFirst(f, allowPing, kinds[1..], p);
      assert EchoRules(f, allowPing, kinds)[1..] == EchoRules(f, allowPing, kinds[1..]);
    }
  }

  lemma OneRule(r: Rule, p: Packet)
    ensures FirstMatch([r], p) == if Applies(r, p) then Some(r.action) else None
  {
  }

  lemma TransportFirst(f: Family, p: Packet)
    ensures FirstMatch(TransportRules(f), p) == if IsTransport(p) then Some(Return) else None
  {
    FirstMatchConcat([TransportRule(f, "tcp")], [TransportRule(f, "udp")], p);
    OneRule(TransportRule(f, "tcp"), p);
    OneRule(TransportRule(f, "udp"), p);
    assert TransportRules(f) == [TransportRule(f, "tcp")] + [TransportRule(f, "udp")];
  }

  lemma BroadcastFirst(f: Family, p: Packet)
    ensures FirstMatch(BroadcastRules(f), p) == if ManagedBroadcast(f, p) then Some(Accept) else None
  {
  }

  lemma DestinationsFirst(f: Family, p: Packet)
    ensures FirstMatch(DestinationRules(f), p) ==
            if ToMulticast(f, p) then Some(Return)
            else if ManagedBroadcast(f, p) then Some(Accept)
            else if ToInternal(f, p) || !FromManaged(f, p) then Some(Return) else None
  {
    FirstMatchConcat([MulticastRule(f)] + BroadcastRules(f), [InternalRule(f), UnmanagedRule(f)], p);
    FirstMatchConcat([MulticastRule(f)], BroadcastRules(f), p);
    FirstMatchConcat([InternalRule(f)], [UnmanagedRule(f)], p);
    assert [InternalRule(f)] + [UnmanagedRule(f)] == [InternalRule(f), UnmanagedRule(f)];
    OneRule(MulticastRule(f), p);
    OneRule(InternalRule(f), p);
    OneRule(UnmanagedRule(f), p);
    BroadcastFirst(f, p);
  }

  /** The first match of a family's rules is the decision, for every packet. */
  lemma FamilyDecides(f: Family, containerIP: string, allowPing: bool, p: Packet)
    ensures var first := FirstMatch(FamilyRules(f, containerIP, allowPing), p);
            first.Some? && Final(first.value) && VerdictOf(first.value) == Decide(f, containerIP, allowPing, p)
  {
    var a, b, c, d, e := TransportRules(f), RelatedFrom(f, Scopes(f, containerIP), 0), DestinationRules(f),
                         EchoRules(f, allowPing, f.echo), [UnsupportedRule(f)];
    FirstMatchConcat(a + b + c + d, e, p);
    FirstMatchConcat(a + b + c, d, p);
    FirstMatchConcat(a + b, c, p);
    FirstMatchConcat(a, b, p);
    TransportFirst(f, p);
    ScopesConcern(f, containerIP, p);
    RelatedFirst(f, Scopes(f, containerIP), 0, p);
    DestinationsFirst(f, p);
    EchoFirst(f, allowPing, f.echo, p);
    OneRule(UnsupportedRule(f), p);
  }

  // ----- What the decision means

  /** A packet is dropped exactly when a managed client sends something other than TCP, UDP or a
      related error beyond the internal networks, and it is not a permitted echo. */
  lemma DroppedExactly(f: Family, containerIP: string, allowPing: bool, p: Packet)
    ensures Decide(f, containerIP, allowPing, p) == Dropped <==>
              && FromManaged(f, p) && !ToInternal(f, p) && !ToMulticast(f, p) && !ManagedBroadcast(f, p)
              && !IsTransport(p) && !IsRelatedError(f, p) && !(allowPing && IsEcho(f, p))
  {
  }

  /** The switch changes the verdict exactly for echo packets of managed clients that leave the
      internal networks, and turns their drop into an accept. */
  lemma PingSwitch(f: Family, containerIP: string, p: Packet)
    ensures Decide(f, containerIP, true, p) != Decide(f, containerIP, false, p) <==>
              && IsEcho(f, p) && !IsTransport(p) && !IsRelatedError(f, p) && FromManaged(f, p)
              && !ToInternal(f, p) && !ToMulticast(f, p) && !ManagedBroadcast(f, p)
    ensures Decide(f, containerIP, true, p) != Decide(f, containerIP, false, p) ==>
              Decide(f, containerIP, true, p) == Accepted && Decide(f, containerIP, false, p) == Dropped
  {
  }

  // ----- The diversion rules

  /** Packets the diversion leaves alone. */
  predicate NotDiverted(allowPing: bool, p: Packet) {
    || IsRelatedError(V4, p) || (allowPing && IsEcho(V4, p))
    || ToMulticast(V4, p) || p.dstType == "broadcast"
  }

  lemma {:induction false} FirstOfMany(rules: seq<Rule>, p: Packet)
    requires forall r :: r in rules ==> r.action == Return
    ensures FirstMatch(rules, p) == if exists r :: r in rules && Applies(r, p) then Some(Return) else None
  {
    if rules != [] {
      assert rules[0] in rules;
      FirstOfMany(rules[1..], p);
      assert forall r :: r in rules <==> r == rules[0] || r in rules[1..];
    }
  }

  lemma DivertApplies(allowPing: bool, p: Packet, kind: nat)
    ensures Applies(DivertRelated(kind), p) <==> p.protocol == "icmp" && p.icmpType == kind && p.state == "related"
    ensures Applies(DivertEcho(allowPing, kind), p) <==> allowPing && p.protocol == "icmp" && p.icmpType == kind
  {
  }

  lemma DivertPlacesApply(p: Packet)
    ensures Applies(DivertRule("multicast", ANY.(dstAddress := Some("224.0.0.0/4")), None), p) <==> "224.0.0.0/4" in p.dstNets
    ensures Applies(DivertRule("broadcast", ANY.(dstType := Some("broadcast")), None), p) <==> p.dstType == "broadcast"
  {
  }

  /** What the diversion rules ask, in place of their matchers. */
  predicate Exempt(allowPing: bool, p: Packet) {
    || (p.protocol == "icmp" && p.state == "related" && (p.icmpType == 3 || p.icmpType == 11 || p.icmpType == 12))
    || (allowPing && p.protocol == "icmp" && (p.icmpType == 8 || p.icmpType == 0))
    || "224.0.0.0/4" in p.dstNets || p.dstType == "broadcast"
  }

  lemma ExemptExactly(allowPing: bool, p: Packet)
    ensures NotDiverted(allowPing, p) <==> Exempt(allowPing, p)
  {
  }

  lemma DivertApply(allowPing: bool, p: Packet)
    ensures Exempt(allowPing, p) <==>
              || Applies(DivertRelated(3), p) || Applies(DivertRelated(11), p) || Applies(DivertRelated(12), p)
              || Applies(DivertEcho(allowPing, 8), p) || Applies(DivertEcho(allowPing, 0), p)
              || Applies(DivertRule("multicast", ANY.(dstAddress := Some("224.0.0.0/4")), None), p)
              || Applies(DivertRule("broadcast", ANY.(dstType := Some("broadcast")), None), p)
  {
    DivertApplies(allowPing, p, 3);
    DivertApplies(allowPing, p, 11);
    DivertApplies(allowPing, p, 12);
    DivertApplies(allowPing, p, 8);
    DivertApplies(allowPing, p, 0);
    DivertPlacesApply(p);
  }

  lemma SomeOfSeven(rules: seq<Rule>, p: Packet)
    requires |rules| == 7
    ensures (exists r :: r in rules && Applies(r, p)) <==>
              || Applies(rules[0], p) || Applies(rules[1], p) || Applies(rules[2], p) || Applies(rules[3], p)
              || Applies(rules[4], p) || Applies(rules[5], p) || Applies(rules[6], p)
  {
  }

  /** The diversion chain's own rules return exactly those packets and pass every other on. */
  lemma DivertDecides(allowPing: bool, p: Packet)
    ensures FirstMatch(DivertRules(allowPing), p) == if NotDiverted(allowPing, p) then Some(Return) else None
  {
    FirstOfMany(DivertRules(allowPing), p);
    SomeOfSeven(DivertRules(allowPing), p);
    DivertApply(allowPing, p);
    ExemptExactly(allowPing, p);
  }
}
