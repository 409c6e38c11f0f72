/**
 Choosing a TLS profile for a host name and a host name for a TLS profile.
 */
module TlsProfiles {
  import opened Options
  import opened Lists
  import opened Hostnames

  /** A profile as far as the choice looks at it; `None` stands for a value that is not a string, and
      `enabled` is false only for a profile that says so. */
  datatype Profile = Profile(id: Option<string>, enabled: bool, dnsNames: seq<Option<string>>, localCA: Option<string>)

  function ProfileId(p: Profile): string { if p.id.Some? then Trim(p.id.value) else "" }

  /** Canonical certificate names, in order, without the invalid ones. */
  function NamesOf(dnsNames: seq<Option<string>>): seq<string> {
    if dnsNames == [] then []
    else
      var n := CanonicalName(dnsNames[0]);
      (if n != "" then [n] else []) + NamesOf(dnsNames[1..])
  }

  function CertificateNames(p: Profile): seq<string> { NamesOf(p.dnsNames) }

  /** The names without a wildcard, each once, in order of first occurrence. */
  function Concrete(names: seq<string>): seq<string> {
    if names == [] then []
    else
      var front, last := Concrete(names[..|names| - 1]), names[|names| - 1];
      if IsWild(last) || last in front then front else front + [last]
  }

  function ConcreteNames(p: Profile): seq<string> { Concrete(CertificateNames(p)) }

  predicate Covers(p: Profile, value: Option<string>) {
    var host := CanonicalHost(value);
    host != "" && exists n :: n in CertificateNames(p) && CoversText(n, host)
  }

  // ----- The names

  lemma {:induction false} NamesAreCanonical(dnsNames: seq<Option<string>>, n: string)
    requires n in NamesOf(dnsNames)
    ensures exists v :: v in dnsNames && n == CanonicalName(v) && n != ""
  {
    if CanonicalName(dnsNames[0]) == n && n != "" {
      assert dnsNames[0] in dnsNames;
    } else {
      NamesAreCanonical(dnsNames[1..], n);
    }
  }

  lemma {:induction false} ConcreteExactly(names: seq<string>, n: string)
    ensures n in Concrete(names) <==> n in names && !IsWild(n)
  {
    if names != [] {
      ConcreteExactly(names[..|names| - 1], n);
      assert names == names[..|names| - 1] + [names[|names| - 1]];
    }
  }

  lemma {:induction false} ConcreteDistinct(names: seq<string>)
    ensures forall i, j :: 0 <= i < j < |Concrete(names)| ==> Concrete(names)[i] != Concrete(names)[j]
  {
    if names != [] { ConcreteDistinct(names[..|names| - 1]); }
  }

  /** A certificate covers a host exactly when some name has the same labels, or has them behind one
      extra label in place of its wildcard. */
  lemma CoversByLabels(p: Profile, value: Option<string>)
    ensures Covers(p, value) <==>
              CanonicalHost(value) != "" && exists n :: n in CertificateNames(p) && CoversLabels(n, CanonicalHost(value))
  {
    if CanonicalHost(value) != "" {
      CanonicalHostValid(value);
      forall n | n in CertificateNames(p)
        ensures CoversText(n, CanonicalHost(value)) <==> CoversLabels(n, CanonicalHost(value))
      {
        CoversExactly(n, CanonicalHost(value));
      }
    }
  }

  lemma ConcreteNameIsCanonical(p: Profile, n: string)
    requires n in ConcreteNames(p)
    ensures n != "" && n in CertificateNames(p) && CanonicalHost(Some(n)) == n
  {
    ConcreteExactly(CertificateNames(p), n);
    NamesAreCanonical(p.dnsNames, n);
    var v :| v in p.dnsNames && n == CanonicalName(v) && n != "";
    CanonicalNameShape(v);
    NormalFixed(n);
  }

  // ----- Choosing a profile

  datatype Tier = ExactName | LocalAuthority | Covering

  predicate Eligible(p: Profile) { p.enabled && ProfileId(p) != "" }

  predicate InTier(p: Profile, tier: Tier, host: string) {
    Eligible(p) && match tier
                   case ExactName => host in ConcreteNames(p)
                   case LocalAuthority => CanonicalHost(p.localCA) == host
                   case Covering => Covers(p, Some(host))
  }

  function ByTier(tier: Tier, host: string): Profile -> bool { (p: Profile) => InTier(p, tier, host) }

  function Matching(profiles: seq<Profile>, tier: Tier, host: string): seq<Profile> { Filter(profiles, ByTier(tier, host)) }

  /** One match decides; several keep the current choice; none leaves it to the next tier. */
  function Choice(matches: seq<Profile>, current: string): Option<string> {
    if |matches| == 1 then Some(ProfileId(matches[0]))
    else if exists p :: p in matches && ProfileId(p) == current then Some(current)
    else if |matches| > 0 then Some(current) else None
  }

  function ProfileForHost(profiles: Option<seq<Profile>>, value: Option<string>, currentId: Option<string>): string {
    var current, host := OrElse(currentId, ""), CanonicalHost(value);
    if host == "" || profiles.None? then current
    else
      var exact := Choice(Matching(profiles.value, ExactName, host), current);
      if exact.Some? then exact.value
      else
        var local := Choice(Matching(profiles.value, LocalAuthority, host), current);
        if local.Some? then local.value
        else OrElse(Choice(Matching(profiles.value, Covering, host), current), current)
  }

  // ----- What the choice is

  /** The strongest tier with a match. */
  function Strongest(profiles: seq<Profile>, host: string): Option<Tier> {
    if Matching(profiles, ExactName, host) != [] then Some(ExactName)
    else if Matching(profiles, LocalAuthority, host) != [] then Some(LocalAuthority)
    else if Matching(profiles, Covering, host) != [] then Some(Covering)
    else None
  }

  lemma ResultByTier(profiles: seq<Profile>, value: Option<string>, currentId: Option<string>)
    requires CanonicalHost(value) != ""
    ensures var host := CanonicalHost(value);
            var tier := Strongest(profiles, host);
            ProfileForHost(Some(profiles), value, currentId) ==
            if tier.Some? && |Matching(profiles, tier.value, host)| == 1
            then ProfileId(Matching(profiles, tier.value, host)[0]) else OrElse(currentId, "")
  {
  }

  /** `p` is the one profile of the tier that matches. */
  ghost predicate OnlyMatch(profiles: seq<Profile>, tier: Tier, host: string, p: Profile) {
    p in profiles && InTier(p, tier, host) && forall q :: q in profiles && InTier(q, tier, host) ==> q == p
  }

  lemma SingleIsOnly(profiles: seq<Profile>, tier: Tier, host: string)
    requires |Matching(profiles, tier, host)| == 1
    ensures OnlyMatch(profiles, tier, host, Matching(profiles, tier, host)[0])
  {
    var m := Matching(profiles, tier, host);
    FilterMember(profiles, ByTier(tier, host), m[0]);
    forall q | q in profiles && InTier(q, tier, host) ensures q == m[0] {
      FilterMember(profiles, ByTier(tier, host), q);
      assert m == [m[0]];
    }
  }

  /** The result is the current choice, or the only profile of the strongest tier that matches at all. */
  lemma ChoosesProvably(profiles: seq<Profile>, value: Option<string>, currentId: Option<string>)
    ensures var host, result := CanonicalHost(value), ProfileForHost(Some(profiles), value, currentId);
            var tier := Strongest(profiles, host);
            if host != "" && tier.Some? && |Matching(profiles, tier.value, host)| == 1
            then exists p :: OnlyMatch(profiles, tier.value, host, p) && result == ProfileId(p)
            else result == OrElse(currentId, "")
  {
    var host := CanonicalHost(value);
    if host != "" {
      var tier := Strongest(profiles, host);
      ResultByTier(profiles, value, currentId);
      if tier.Some? && |Matching(profiles, tier.value, host)| == 1 { SingleIsOnly(profiles, tier.value, host); }
    }
  }

  lemma PermutedSingle<T>(a: seq<T>, b: seq<T>)
    requires multiset(a) == multiset(b)
    ensures |a| == |b| && (|a| == 1 ==> a == b)
  {
    assert |a| == |multiset(a)| && |b| == |multiset(b)|;
    if |a| == 1 { assert a[0] in multiset(b); }
  }

  lemma ChoicePermuted(a: seq<Profile>, b: seq<Profile>, tier: Tier, host: string, current: string)
    requires multiset(a) == multiset(b)
    ensures Choice(Matching(a, tier, host), current) == Choice(Matching(b, tier, host), current)
  {
    FilterPermuted(a, b, ByTier(tier, host));
    PermutedSingle(Matching(a, tier, host), Matching(b, tier, host));
  }

  /** The order of the profiles does not matter. */
  lemma OrderDoesNotMatter(a: seq<Profile>, b: seq<Profile>, value: Option<string>, currentId: Option<string>)
    requires multiset(a) == multiset(b)
    ensures ProfileForHost(Some(a), value, currentId) == ProfileForHost(Some(b), value, currentId)
  {
    var host := CanonicalHost(value);
    ChoicePermuted(a, b, ExactName, host, OrElse(currentId, ""));
    ChoicePermuted(a, b, LocalAuthority, host, OrElse(currentId, ""));
    ChoicePermuted(a, b, Covering, host, OrElse(currentId, ""));
  }

  /** Choosing again from the result changes nothing. */
  lemma ChoiceIsStable(profiles: Option<seq<Profile>>, value: Option<string>, currentId: Option<string>)
    ensures ProfileForHost(profiles, value, Some(ProfileForHost(profiles, value, currentId)))
            == ProfileForHost(profiles, value, currentId)
  {
  }

  // ----- The host name after a profile change

  function HostAfterChange(p: Profile, current: Option<string>): string {
    if |ConcreteNames(p)| == 1 then ConcreteNames(p)[0]
    else if CertificateNames(p) == [] then OrElse(current, "")
    else if Covers(p, current) then CanonicalHost(current) else ""
  }

  /** With a certificate that has names, the result is empty or a host the certificate covers. */
  lemma HostIsCovered(p: Profile, current: Option<string>)
    requires CertificateNames(p) != []
    ensures var h := HostAfterChange(p, current); h == "" || (Covers(p, Some(h)) && CanonicalHost(Some(h)) == h)
  {
    var h := HostAfterChange(p, current);
    if |ConcreteNames(p)| == 1 {
      assert h in ConcreteNames(p);
      ConcreteNameIsCanonical(p, h);
      assert CoversText(h, h);
    } else if Covers(p, current) {
      CanonicalHostIdempotent(current);
    }
  }

  lemma HostAfterChangeIdempotent(p: Profile, current: Option<string>)
    ensures HostAfterChange(p, Some(HostAfterChange(p, current))) == HostAfterChange(p, current)
  {
    if CertificateNames(p) != [] {
      HostIsCovered(p, current);
      assert CanonicalHost(Some("")) == "" by { assert Normal("") == ""; }
    } else {
      assert ConcreteNames(p) == [];
    }
  }

  /** A profile whose change led to one of its own names stays chosen for that name. */
  lemma RoundTripKeepsProfile(profiles: seq<Profile>, p: Profile, current: Option<string>)
    requires p in profiles && Eligible(p) && HostAfterChange(p, current) in ConcreteNames(p)
    ensures ProfileForHost(Some(profiles), Some(HostAfterChange(p, current)), Some(ProfileId(p))) == ProfileId(p)
  {
    var h := HostAfterChange(p, current);
    ConcreteNameIsCanonical(p, h);
    FilterMember(profiles, ByTier(ExactName, h), p);
    var m := Matching(profiles, ExactName, h);
    if |m| == 1 { assert m[0] == p; }
  }

  // ----- The choice in terms of the profiles themselves

  /** Enabled, with an id that is not blank. */
  predicate Usable(p: Profile) { p.enabled && p.id.Some? && Trim(p.id.value) != "" }

  /** Some name of the certificate is the host. */
  predicate NamesHost(p: Profile, host: string) { exists v :: v in p.dnsNames && CanonicalName(v) == host }

  /** Some name of the certificate covers the host, label by label. */
  predicate CoversHost(p: Profile, host: string) {
    exists v :: v in p.dnsNames && CanonicalName(v) != "" && CoversLabels(CanonicalName(v), host)
  }

  function Naming(host: string): Profile -> bool { (p: Profile) => Usable(p) && NamesHost(p, host) }

  function Targeting(host: string): Profile -> bool { (p: Profile) => Usable(p) && CanonicalHost(p.localCA) == host }

  function CoveringHost(host: string): Profile -> bool { (p: Profile) => Usable(p) && CoversHost(p, host) }

  lemma {:induction false} NameListed(dnsNames: seq<Option<string>>, n: string)
    requires n != ""
    ensures n in NamesOf(dnsNames) <==> exists v :: v in dnsNames && CanonicalName(v) == n
  {
    if dnsNames != [] {
      NameListed(dnsNames[1..], n);
      assert forall v :: v in dnsNames <==> v == dnsNames[0] || v in dnsNames[1..];
    }
  }

  lemma CoversByNames(p: Profile, host: string)
    requires CanonicalHost(Some(host)) == host && host != ""
    ensures Covers(p, Some(host)) <==> CoversHost(p, host)
  {
    CoversByLabels(p, Some(host));
    if Covers(p, Some(host)) {
      var n :| n in CertificateNames(p) && CoversLabels(n, host);
      NamesAreCanonical(p.dnsNames, n);
    }
    if CoversHost(p, host) {
      var v :| v in p.dnsNames && CanonicalName(v) != "" && CoversLabels(CanonicalName(v), host);
      NameListed(p.dnsNames, CanonicalName(v));
    }
  }

  /** What the three tiers ask of a profile. */
  lemma TiersAsk(p: Profile, host: string)
    requires CanonicalHost(Some(host)) == host && host != ""
    ensures InTier(p, ExactName, host) <==> Naming(host)(p)
    ensures InTier(p, LocalAuthority, host) <==> Targeting(host)(p)
    ensures InTier(p, Covering, host) <==> CoveringHost(host)(p)
  {
    ConcreteExactly(CertificateNames(p), host);
    CanonicalHostValid(Some(host));
    NameListed(p.dnsNames, host);
    CoversByNames(p, host);
  }

  /** The test that each tier makes. */
  function TierTest(tier: Tier, host: string): Profile -> bool {
    match tier case ExactName => Naming(host) case LocalAuthority => Targeting(host) case Covering => CoveringHost(host)
  }

  lemma {:induction false} SameMatches(profiles: seq<Profile>, tier: Tier, host: string)
    requires CanonicalHost(Some(host)) == host && host != ""
    ensures Matching(profiles, tier, host) == Filter(profiles, TierTest(tier, host))
  {
    if profiles != [] {
      TiersAsk(profiles[0], host);
      SameMatches(profiles[1..], tier, host);
    }
  }

  /** No profile passes the test. */
  ghost predicate Nobody(profiles: seq<Profile>, test: Profile -> bool) {
    forall i :: 0 <= i < |profiles| ==> !test(profiles[i])
  }

  lemma TierCounts(profiles: seq<Profile>, tier: Tier, host: string)
    requires CanonicalHost(Some(host)) == host && host != ""
    ensures Matching(profiles, tier, host) == [] <==> Nobody(profiles, TierTest(tier, host))
    ensures forall i: nat :: Sole(profiles, TierTest(tier, host), i) ==> Matching(profiles, tier, host) == [profiles[i]]
    ensures |Matching(profiles, tier, host)| == 1 ==> exists i: nat :: Sole(profiles, TierTest(tier, host), i)
  {
    SameMatches(profiles, tier, host);
    FilterNone(profiles, TierTest(tier, host));
    forall i: nat | Sole(profiles, TierTest(tier, host), i) ensures Matching(profiles, tier, host) == [profiles[i]] {
      FilterSole(profiles, TierTest(tier, host), i);
    }
    if |Matching(profiles, tier, host)| == 1 { var i := SoleFiltered(profiles, TierTest(tier, host)); }
  }

  /** Profile `i` is the only usable one that names the host; or none names it and `i` is the only one
      whose local authority would issue it; or neither and `i` is the only one to cover it. */
  ghost predicate Provable(profiles: seq<Profile>, host: string, i: nat) {
    || Sole(profiles, Naming(host), i)
    || (Nobody(profiles, Naming(host)) && Sole(profiles, Targeting(host), i))
    || (Nobody(profiles, Naming(host)) && Nobody(profiles, Targeting(host)) && Sole(profiles, CoveringHost(host), i))
  }

  lemma ProvableIsStrongest(profiles: seq<Profile>, host: string, i: nat)
    requires CanonicalHost(Some(host)) == host && host != "" && Provable(profiles, host, i)
    ensures var tier := Strongest(profiles, host);
            tier.Some? && Matching(profiles, tier.value, host) == [profiles[i]] && Usable(profiles[i])
  {
    TierCounts(profiles, ExactName, host);
    if !Sole(profiles, Naming(host), i) {
      TierCounts(profiles, LocalAuthority, host);
      if Nobody(profiles, Targeting(host)) { TierCounts(profiles, Covering, host); }
    }
  }

  lemma StrongestIsProvable(profiles: seq<Profile>, host: string) returns (i: nat)
    requires CanonicalHost(Some(host)) == host && host != "" && Strongest(profiles, host).Some?
    requires |Matching(profiles, Strongest(profiles, host).value, host)| == 1
    ensures Provable(profiles, host, i)
  {
    var tier := Strongest(profiles, host).value;
    TierCounts(profiles, ExactName, host);
    TierCounts(profiles, LocalAuthority, host);
    SameMatches(profiles, tier, host);
    i := SoleFiltered(profiles, TierTest(tier, host));
  }

  /** A typed host name selects the provable profile if there is one, and keeps the current id in every
      other case; a disabled profile is never selected. */
  lemma ChoiceExactly(profiles: seq<Profile>, value: Option<string>, currentId: Option<string>)
    ensures var host, result := CanonicalHost(value), ProfileForHost(Some(profiles), value, currentId);
            && (host != "" ==> forall i: nat :: Provable(profiles, host, i) ==>
                  profiles[i].enabled && profiles[i].id.Some? && result == Trim(profiles[i].id.value) != "")
            && (host == "" || (forall i: nat :: !Provable(profiles, host, i)) ==> result == OrElse(currentId, ""))
  {
    var host := CanonicalHost(value);
    if host != "" {
      CanonicalHostIdempotent(value);
      ResultByTier(profiles, value, currentId);
      forall i: nat | Provable(profiles, host, i)
        ensures Usable(profiles[i]) && ProfileForHost(Some(profiles), value, currentId) == Trim(profiles[i].id.value)
      {
        ProvableIsStrongest(profiles, host, i);
      }
      var tier := Strongest(profiles, host);
      if tier.Some? && |Matching(profiles, tier.value, host)| == 1 { var i := StrongestIsProvable(profiles, host); }
    }
  }

  /** Without a list of profiles, or without a host name, the current id stays. */
  lemma NothingToChoose(profiles: Option<seq<Profile>>, value: Option<string>, currentId: Option<string>)
    requires profiles == None || CanonicalHost(value) == ""
    ensures ProfileForHost(profiles, value, currentId) == if currentId == None then "" else currentId.value
  {
  }

  /** `n` is the only name of the certificate without a wildcard. */
  ghost predicate OnlyConcrete(p: Profile, n: string) {
    n != "" && !IsWild(n) && NamesHost(p, n)
    && forall v :: v in p.dnsNames ==> CanonicalName(v) == "" || CanonicalName(v) == n || IsWild(CanonicalName(v))
  }

  lemma OnlyConcreteListed(p: Profile, n: string)
    requires OnlyConcrete(p, n)
    ensures ConcreteNames(p) == [n]
  {
    var names := ConcreteNames(p);
    NameListed(p.dnsNames, n);
    ConcreteExactly(CertificateNames(p), n);
    ConcreteDistinct(CertificateNames(p));
    forall m | m in names ensures m == n {
      ConcreteExactly(CertificateNames(p), m);
      NamesAreCanonical(p.dnsNames, m);
    }
    assert forall i :: 0 <= i < |names| ==> names[i] in names;
    AllTheSame(names, n);
  }

  lemma AllTheSame<T>(s: seq<T>, x: T)
    requires x in s && (forall i :: 0 <= i < |s| ==> s[i] == x) && forall i, j :: 0 <= i < j < |s| ==> s[i] != s[j]
    ensures s == [x]
  {
    assert s[0] == s[|s| - 1];
  }

  /** A certificate's only concrete name becomes the host; without any name the typed host stays as it is;
      otherwise a covered host stays in canonical form, and any other is cleared. */
  lemma HostAfterChangeExactly(p: Profile, current: Option<string>)
    ensures var h := HostAfterChange(p, current);
            && (forall n :: OnlyConcrete(p, n) ==> h == n)
            && ((forall v :: v in p.dnsNames ==> CanonicalName(v) == "") ==> h == OrElse(current, ""))
            && ((exists v :: v in p.dnsNames && CanonicalName(v) != "") && (forall n :: !OnlyConcrete(p, n)) ==>
                  h == if CanonicalHost(current) != "" && CoversHost(p, CanonicalHost(current))
                       then CanonicalHost(current) else "")
  {
    forall n | OnlyConcrete(p, n) ensures ConcreteNames(p) == [n] { OnlyConcreteListed(p, n); }
    forall v | v in p.dnsNames && CanonicalName(v) != "" ensures CanonicalName(v) in CertificateNames(p) {
      NameListed(p.dnsNames, CanonicalName(v));
    }
    if forall v :: v in p.dnsNames ==> CanonicalName(v) == "" { NoNames(p); }
    if |ConcreteNames(p)| == 1 { OneConcrete(p); }
    if CanonicalHost(current) != "" {
      CanonicalHostIdempotent(current);
      CoversByNames(p, CanonicalHost(current));
    }
  }

  lemma NoNames(p: Profile)
    requires forall v :: v in p.dnsNames ==> CanonicalName(v) == ""
    ensures CertificateNames(p) == [] && ConcreteNames(p) == []
  {
    if CertificateNames(p) != [] { NamesAreCanonical(p.dnsNames, CertificateNames(p)[0]); }
  }

  lemma OneConcrete(p: Profile)
    requires |ConcreteNames(p)| == 1
    ensures OnlyConcrete(p, ConcreteNames(p)[0])
  {
    var n := ConcreteNames(p)[0];
    assert n in ConcreteNames(p);
    ConcreteNameIsCanonical(p, n);
    ConcreteExactly(CertificateNames(p), n);
    NameListed(p.dnsNames, n);
    forall v | v in p.dnsNames && CanonicalName(v) != "" && !IsWild(CanonicalName(v)) ensures CanonicalName(v) == n {
      NameListed(p.dnsNames, CanonicalName(v));
      ConcreteExactly(CertificateNames(p), CanonicalName(v));
    }
  }
}
