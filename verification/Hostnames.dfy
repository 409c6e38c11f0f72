/**
 Host names as strings and as lists of labels: canonical form, certificate names, and when a
 certificate name covers a host.
 */
module Hostnames {
  import opened Options
  import opened Texts

  // ----- String operations

  /** The white space and line ends that trimming removes. */
  predicate IsSpace(c: char) {
    || '\t' <= c <= '\r' || c == ' ' || c == '\U{A0}' || c == '\U{1680}' || '\U{2000}' <= c <= '\U{200A}'
    || c == '\U{2028}' || c == '\U{2029}' || c == '\U{202F}' || c == '\U{205F}' || c == '\U{3000}' || c == '\U{FEFF}'
  }

  function TrimStart(s: string): string { if s != [] && IsSpace(s[0]) then TrimStart(s[1..]) else s }

  function TrimEnd(s: string): string { if s != [] && IsSpace(s[|s| - 1]) then TrimEnd(s[..|s| - 1]) else s }

  function Trim(s: string): string { TrimEnd(TrimStart(s)) }

  function StripDots(s: string): string { if s != [] && s[|s| - 1] == '.' then StripDots(s[..|s| - 1]) else s }

  /** Lower case where it can end in ASCII: the letters A to Z and the Kelvin sign. */
  function LowerChar(c: char): char {
    if 'A' <= c <= 'Z' then (c as int + 32) as char else if c == '\U{212A}' then 'k' else c
  }

  function Lower(s: string): string { if s == [] then [] else [LowerChar(s[0])] + Lower(s[1..]) }

  /** The labels between the dots. */
  function Split(s: string): (labels: seq<string>)
    ensures labels != []
  {
    if s == [] then [[]]
    else if s[0] == '.' then [[]] + Split(s[1..])
    else
      var rest := Split(s[1..]);
      [[s[0]] + rest[0]] + rest[1..]
  }

  function Join(labels: seq<string>): string
    requires labels != []
  {
    if |labels| == 1 then labels[0] else labels[0] + "." + Join(labels[1..])
  }

  lemma JoinCons(label': string, rest: seq<string>)
    requires rest != []
    ensures Join([label'] + rest) == label' + "." + Join(rest)
  {
    assert ([label'] + rest)[1..] == rest;
  }

  lemma JoinHead(c: char, labels: seq<string>)
    requires labels != []
    ensures Join([[c] + labels[0]] + labels[1..]) == [c] + Join(labels)
  {
    var l, rest := labels[0], labels[1..];
    if rest == [] {
      assert [[c] + l] + rest == [[c] + l] && labels == [l];
    } else {
      var j := Join(rest);
      calc {
        Join([[c] + l] + rest);
        { JoinCons([c] + l, rest); }
        [c] + l + "." + j;
        [c] + (l + "." + j);
        [c] + Join(labels);
      }
    }
  }

  lemma {:induction false} JoinSplit(s: string)
    ensures Join(Split(s)) == s
  {
    if s != [] {
      JoinSplit(s[1..]);
      var rest := Split(s[1..]);
      assert s == [s[0]] + s[1..];
      if s[0] == '.' { JoinCons([], rest); } else { JoinHead(s[0], rest); }
    }
  }

  /** A text before the first dot is the first label. */
  lemma {:induction false} SplitAtDot(label': string, rest: string)
    requires '.' !in label'
    ensures Split(label' + "." + rest) == [label'] + Split(rest)
  {
    var s := label' + "." + rest;
    if label' == [] {
      assert s[0] == '.' && s[1..] == rest;
    } else {
      assert s[0] == label'[0] && s[1..] == label'[1..] + "." + rest;
      SplitAtDot(label'[1..], rest);
      assert label' == [label'[0]] + label'[1..];
    }
  }

  lemma {:induction false} LabelsHaveNoDots(s: string)
    ensures forall i :: 0 <= i < |Split(s)| ==> '.' !in Split(s)[i]
  {
    if s != [] { LabelsHaveNoDots(s[1..]); }
  }

  // ----- Canonical host names

  predicate IsAlnum(c: char) { 'a' <= c <= 'z' || IsDigit(c) }

  predicate IsHostChar(c: char) { IsAlnum(c) || c == '-' || c == '.' }

  predicate ValidLabel(l: string) {
    && 1 <= |l| <= 63 && IsAlnum(l[0]) && IsAlnum(l[|l| - 1])
    && forall c :: c in l ==> IsAlnum(c) || c == '-'
  }

  /** Two labels or more, every one valid, at most 253 characters in all. */
  predicate IsHostname(h: string) {
    1 <= |h| <= 253 && |Split(h)| >= 2 && forall l :: l in Split(h) ==> ValidLabel(l)
  }

  predicate IsOctet(l: string) { l != [] && (forall c :: c in l ==> IsDigit(c)) && NumberOf(l) <= 255 }

  predicate IsAddress(h: string) { |Split(h)| == 4 && forall l :: l in Split(h) ==> IsOctet(l) }

  function Normal(s: string): string { Lower(StripDots(Trim(s))) }

  /** The canonical form of a host name; the empty string for everything that is none. */
  function CanonicalHost(value: Option<string>): string {
    if value.None? then ""
    else
      var h := Normal(value.value);
      if IsAddress(h) || !IsHostname(h) then "" else h
  }

  predicate IsWild(name: string) { "*." <= name }

  /** The canonical form of a certificate name, which may start with a wildcard label. */
  function CanonicalName(value: Option<string>): string {
    if value.None? then ""
    else
      var name := Normal(value.value);
      if IsWild(name) then
        var suffix := CanonicalHost(Some(name[2..]));
        if suffix != "" then "*." + suffix else ""
      else CanonicalHost(Some(name))
  }

  // ----- Canonical forms are fixed points

  /** A text a normal form leaves alone. */
  predicate HostText(s: string) {
    s != [] && IsAlnum(s[0]) && IsAlnum(s[|s| - 1]) && forall c :: c in s ==> IsHostChar(c)
  }

  lemma SplitEnds(s: string)
    requires forall l :: l in Split(s) ==> ValidLabel(l)
    ensures HostText(s)
  {
    JoinSplit(s);
    JoinEnds(Split(s));
  }

  lemma LabelThenText(l: string, s: string)
    requires ValidLabel(l) && HostText(s)
    ensures HostText(l + "." + s)
  {
  }

  lemma {:induction false} JoinEnds(labels: seq<string>)
    requires labels != [] && forall l :: l in labels ==> ValidLabel(l)
    ensures HostText(Join(labels))
  {
    assert labels[0] in labels;
    if |labels| > 1 {
      assert forall l :: l in labels[1..] ==> l in labels;
      JoinEnds(labels[1..]);
      LabelThenText(labels[0], Join(labels[1..]));
    }
  }

  lemma {:induction false} LowerFixed(s: string)
    requires forall c :: c in s ==> IsHostChar(c)
    ensures Lower(s) == s
  {
    if s != [] {
      assert s[0] in s;
      LowerFixed(s[1..]);
    }
  }

  lemma NormalFixed(h: string)
    requires IsHostname(h)
    ensures Normal(h) == h
  {
    SplitEnds(h);
    LowerFixed(h);
  }

  /** Canonicalising twice is canonicalising once. */
  lemma CanonicalHostIdempotent(value: Option<string>)
    ensures CanonicalHost(Some(CanonicalHost(value))) == CanonicalHost(value)
  {
    var h := CanonicalHost(value);
    if h != "" { NormalFixed(h); } else { assert Normal("") == ""; }
  }

  /** A canonical host name is a valid name that no certificate could read as a wildcard. */
  lemma CanonicalHostValid(value: Option<string>)
    requires CanonicalHost(value) != ""
    ensures IsHostname(CanonicalHost(value)) && !IsAddress(CanonicalHost(value)) && !IsWild(CanonicalHost(value))
  {
    SplitEnds(CanonicalHost(value));
  }

  /** The suffix of a wildcard name is canonical itself; other names are canonical hosts. */
  lemma CanonicalNameShape(value: Option<string>)
    requires CanonicalName(value) != ""
    ensures var n := CanonicalName(value);
            if IsWild(n) then IsHostname(n[2..]) && !IsAddress(n[2..]) else IsHostname(n) && !IsAddress(n)
  {
    var name := Normal(value.value);
    if IsWild(name) {
      CanonicalHostValid(Some(name[2..]));
    } else {
      CanonicalHostValid(Some(name));
    }
  }

  lemma CanonicalNameIdempotent(value: Option<string>)
    ensures CanonicalName(Some(CanonicalName(value))) == CanonicalName(value)
  {
    var n := CanonicalName(value);
    if n == "" {
      assert Normal("") == "";
    } else {
      CanonicalNameShape(value);
      if IsWild(n) {
        var suffix := n[2..];
        NormalFixed(suffix);
        WildNormal(suffix);
        assert n == "*." + suffix;
      } else {
        NormalFixed(n);
      }
    }
  }

  lemma WildNormal(suffix: string)
    requires IsHostname(suffix)
    ensures Normal("*." + suffix) == "*." + suffix
  {
    var n := "*." + suffix;
    SplitEnds(suffix);
    assert n[|n| - 1] == suffix[|suffix| - 1];
    assert Trim(n) == n && StripDots(n) == n;
    LowerFixed(suffix);
    assert n[1..] == "." + suffix && n[1..][1..] == suffix;
    assert Lower(n) == ['*'] + (['.'] + Lower(suffix));
  }

  // ----- Coverage

  predicate EndsWith(s: string, tail: string) { |tail| <= |s| && s[|s| - |tail|..] == tail }

  /** The comparison the source makes on strings. */
  predicate CoversText(name: string, host: string) {
    || name == host
    || (IsWild(name) && EndsWith(host, "." + name[2..])
        && var prefix := host[..|host| - (|name| - 2) - 1]; prefix != "" && '.' !in prefix)
  }

  /** What the standards ask (section 6.4.3 of RFC 6125, section 6.3 of RFC 9525): equal labels, or
      one label in place of the wildcard. */
  predicate CoversLabels(name: string, host: string) {
    if IsWild(name) then Split(host)[1..] == Split(name[2..]) && |Split(host)| == |Split(name[2..])| + 1
    else Split(host) == Split(name)
  }

  lemma SplitInjective(a: string, b: string)
    requires Split(a) == Split(b)
    ensures a == b
  {
    JoinSplit(a);
    JoinSplit(b);
  }

  /** For a canonical host, matching strings by suffix is matching labels. */
  lemma CoversExactly(name: string, host: string)
    requires IsHostname(host)
    ensures CoversText(name, host) <==> CoversLabels(name, host)
  {
    SplitEnds(host);
    if IsWild(name) {
      var suffix := name[2..];
      if CoversText(name, host) {
        var prefix := host[..|host| - |suffix| - 1];
        assert host == prefix + "." + suffix;
        SplitAtDot(prefix, suffix);
      }
      if CoversLabels(name, host) {
        var first := Split(host)[0];
        assert Split(host) == [first] + Split(suffix);
        assert first in Split(host);
        LabelsHaveNoDots(host);
        SplitAtDot(first, suffix);
        SplitInjective(host, first + "." + suffix);
        assert host[|host| - (|suffix| + 1)..] == "." + suffix;
        assert host[..|host| - |suffix| - 1] == first;
      }
    } else if Split(host) == Split(name) {
      SplitInjective(host, name);
    }
  }

  // ----- Host names character by character

  predicate IsLetterOrDigit(c: char) { 'a' <= c <= 'z' || '0' <= c <= '9' }

  /** Letters, digits, dashes and dots; letters or digits at both ends and around every dot; never more
      than 63 characters without a dot. */
  ghost predicate WellSpelled(s: string) {
    && s != [] && IsLetterOrDigit(s[0]) && IsLetterOrDigit(s[|s| - 1])
    && (forall i :: 0 <= i < |s| ==> IsLetterOrDigit(s[i]) || s[i] == '-' || s[i] == '.')
    && (forall i :: 0 < i < |s| - 1 && s[i] == '.' ==> IsLetterOrDigit(s[i - 1]) && IsLetterOrDigit(s[i + 1]))
    && forall i: nat :: DotWithin(s, i)
  }

  /** The 64 characters from `i` on, if there are as many, include a dot. */
  predicate DotWithin(s: string, i: nat) { i + 64 <= |s| ==> '.' in s[i..i + 64] }

  lemma {:induction false} SplitPlain(s: string)
    requires '.' !in s
    ensures Split(s) == [s]
  {
    if s != [] {
      SplitPlain(s[1..]);
      assert s == [s[0]] + s[1..];
    }
  }

  lemma PlainSpelled(s: string)
    requires '.' !in s
    ensures WellSpelled(s) <==> ValidLabel(s)
  {
    assert forall i :: 0 <= i < |s| ==> s[i] in s;
    if |s| >= 64 {
      assert forall c :: c in s[0..64] ==> c in s;
      assert !DotWithin(s, 0);
    } else {
      assert forall i: nat :: DotWithin(s, i);
      assert WellSpelled(s) ==> forall c :: c in s ==> IsAlnum(c) || c == '-';
    }
  }

  lemma ShortLabel(l: string, rest: string)
    requires '.' !in l && DotWithin(l + "." + rest, 0)
    ensures |l| < 64
  {
    var s := l + "." + rest;
    assert forall i :: 0 <= i < |l| ==> s[i] == l[i] && l[i] in l;
  }

  lemma SpelledLabel(l: string, rest: string)
    requires '.' !in l && WellSpelled(l + "." + rest)
    ensures ValidLabel(l)
  {
    var s, k := l + "." + rest, |l|;
    assert s[k] == '.' && k != 0 && k != |s| - 1;
    assert forall i :: 0 <= i < k ==> l[i] == s[i] && l[i] in l;
    assert forall c :: c in l ==> IsAlnum(c) || c == '-';
    assert DotWithin(s, 0);
    ShortLabel(l, rest);
  }

  lemma SpelledRest(l: string, rest: string)
    requires '.' !in l && WellSpelled(l + "." + rest)
    ensures WellSpelled(rest)
  {
    var s, k := l + "." + rest, |l|;
    assert s[k] == '.' && k != 0 && k != |s| - 1;
    assert forall i :: 0 <= i < |rest| ==> rest[i] == s[k + 1 + i];
    forall i: nat ensures DotWithin(rest, i) {
      assert DotWithin(s, k + 1 + i);
      if i + 64 <= |rest| { assert s[k + 1 + i..k + 1 + i + 64] == rest[i..i + 64]; }
    }
    forall i | 0 < i < |rest| - 1 && rest[i] == '.' ensures IsLetterOrDigit(rest[i - 1]) && IsLetterOrDigit(rest[i + 1]) {
      assert s[k + 1 + i] == '.' && s[k + i] == rest[i - 1] && s[k + 2 + i] == rest[i + 1];
    }
  }

  lemma PartsSpelled(l: string, rest: string)
    requires '.' !in l && ValidLabel(l) && WellSpelled(rest)
    ensures WellSpelled(l + "." + rest)
  {
    var s, k := l + "." + rest, |l|;
    forall i | 0 <= i < |s| ensures s[i] == if i < k then l[i] else if i == k then '.' else rest[i - k - 1] {}
    forall i: nat ensures DotWithin(s, i) {
      if i + 64 <= |s| {
        if i <= k {
          assert s[i..i + 64][k - i] == '.';
        } else {
          assert DotWithin(rest, i - k - 1) && s[i..i + 64] == rest[i - k - 1..i - k - 1 + 64];
        }
      }
    }
    forall i | 0 <= i < k ensures l[i] in l {}
  }

  lemma SpelledDotted(l: string, rest: string)
    requires '.' !in l
    ensures WellSpelled(l + "." + rest) <==> ValidLabel(l) && WellSpelled(rest)
  {
    if WellSpelled(l + "." + rest) {
      SpelledLabel(l, rest);
      SpelledRest(l, rest);
    }
    if ValidLabel(l) && WellSpelled(rest) { PartsSpelled(l, rest); }
  }

  ghost predicate AllValid(labels: seq<string>) { forall l :: l in labels ==> ValidLabel(l) }

  lemma ValidCons(l: string, labels: seq<string>)
    ensures AllValid([l] + labels) <==> ValidLabel(l) && AllValid(labels)
  {
    assert l in [l] + labels && forall x :: x in labels ==> x in [l] + labels;
  }

  lemma {:induction false} SpelledExactly(s: string)
    ensures WellSpelled(s) <==> AllValid(Split(s))
    decreases |s|
  {
    if '.' !in s {
      SplitPlain(s);
      PlainSpelled(s);
    } else {
      var k := FirstDot(s);
      var l, rest := s[..k], s[k + 1..];
      assert s == l + "." + rest;
      SplitAtDot(l, rest);
      SpelledExactly(rest);
      SpelledDotted(l, rest);
      ValidCons(l, Split(rest));
    }
  }

  function FirstDot(s: string): (k: nat)
    requires '.' in s
    ensures k < |s| && s[k] == '.' && '.' !in s[..k]
  {
    if s[0] == '.' then 0
    else
      assert s == [s[0]] + s[1..];
      var k := FirstDot(s[1..]);
      assert s[..k + 1] == [s[0]] + s[1..][..k];
      k + 1
  }

  lemma {:induction false} SplitCount(s: string)
    ensures |Split(s)| >= 2 <==> '.' in s
  {
    if '.' !in s {
      SplitPlain(s);
    } else {
      var k := FirstDot(s);
      assert s == s[..k] + "." + s[k + 1..];
      SplitAtDot(s[..k], s[k + 1..]);
    }
  }

  /** A host name is a well spelled text with a dot and no more than 253 characters. */
  lemma HostnameExactly(h: string)
    ensures IsHostname(h) <==> WellSpelled(h) && '.' in h && |h| <= 253
  {
    SpelledExactly(h);
    SplitCount(h);
  }

  // ----- Addresses

  function Quad(a: string, b: string, c: string, d: string): string { a + "." + (b + "." + (c + "." + d)) }

  lemma QuadSplit(a: string, b: string, c: string, d: string)
    requires '.' !in a && '.' !in b && '.' !in c && '.' !in d
    ensures Split(Quad(a, b, c, d)) == [a, b, c, d]
  {
    SplitAtDot(a, b + "." + (c + "." + d));
    SplitAtDot(b, c + "." + d);
    SplitAtDot(c, d);
    SplitPlain(d);
  }

  lemma OctetExactly(n: nat)
    ensures IsOctet(Decimal(n)) <==> n <= 255
    ensures '.' !in Decimal(n)
  {
    DecimalReads(n);
  }

  /** Four numbers with dots are an address exactly when each is at most 255. */
  lemma AddressExactly(a: nat, b: nat, c: nat, d: nat)
    ensures IsAddress(Quad(Decimal(a), Decimal(b), Decimal(c), Decimal(d))) <==> a <= 255 && b <= 255 && c <= 255 && d <= 255
  {
    OctetExactly(a);
    OctetExactly(b);
    OctetExactly(c);
    OctetExactly(d);
    FourLabels(Decimal(a), Decimal(b), Decimal(c), Decimal(d));
  }

  lemma FourLabels(a: string, b: string, c: string, d: string)
    requires '.' !in a && '.' !in b && '.' !in c && '.' !in d
    ensures IsAddress(Quad(a, b, c, d)) <==> IsOctet(a) && IsOctet(b) && IsOctet(c) && IsOctet(d)
  {
    QuadSplit(a, b, c, d);
    var labels := [a, b, c, d];
    assert labels[0] in labels && labels[1] in labels && labels[2] in labels && labels[3] in labels;
  }

  // ----- What does not matter

  /** Blanks around the name: spaces, tabs, line ends, no-break and wide spaces, byte order marks. */
  predicate Blank(s: string) {
    forall c :: c in s ==> c in {' ', '\t', '\r', '\n', '\U{B}', '\U{C}', '\U{A0}', '\U{2009}', '\U{2028}', '\U{3000}', '\U{FEFF}'}
  }

  predicate Dots(s: string) { forall c :: c in s ==> c == '.' }

  /** Letters of either case, digits, dashes and dots, not ending in a dot. */
  predicate Typed(t: string) {
    t != [] && t[|t| - 1] != '.'
    && forall c :: c in t ==> 'a' <= c <= 'z' || 'A' <= c <= 'Z' || '0' <= c <= '9' || c == '-' || c == '.'
  }

  /** The same text in lower case. */
  predicate LowerCaseOf(t: string, h: string) {
    |h| == |t| && forall i :: 0 <= i < |t| ==> h[i] as int == t[i] as int + if 'A' <= t[i] <= 'Z' then 32 else 0
  }

  lemma {:induction false} TrimStartBlank(pad: string, x: string)
    requires Blank(pad) && x != [] && !IsSpace(x[0])
    ensures TrimStart(pad + x) == x
  {
    if pad == [] {
      assert pad + x == x;
    } else {
      assert pad[0] in pad && (pad + x)[0] == pad[0] && (pad + x)[1..] == pad[1..] + x;
      assert forall c :: c in pad[1..] ==> c in pad;
      TrimStartBlank(pad[1..], x);
    }
  }

  lemma {:induction false} TrimEndBlank(x: string, pad: string)
    requires Blank(pad) && x != [] && !IsSpace(x[|x| - 1])
    ensures TrimEnd(x + pad) == x
  {
    var n := |pad| - 1;
    if pad == [] {
      assert x + pad == x;
    } else {
      var s := x + pad;
      assert pad[n] in pad && s[|s| - 1] == pad[n] && s[..|s| - 1] == x + pad[..n];
      assert forall c :: c in pad[..n] ==> c in pad;
      TrimEndBlank(x, pad[..n]);
    }
  }

  lemma {:induction false} StripTrailing(t: string, dots: string)
    requires Dots(dots) && t != [] && t[|t| - 1] != '.'
    ensures StripDots(t + dots) == t
  {
    var n := |dots| - 1;
    if dots == [] {
      assert t + dots == t;
    } else {
      var s := t + dots;
      assert dots[n] in dots && s[|s| - 1] == dots[n] && s[..|s| - 1] == t + dots[..n];
      assert forall c :: c in dots[..n] ==> c in dots;
      StripTrailing(t, dots[..n]);
    }
  }

  lemma {:induction false} LowerCased(t: string, h: string)
    requires LowerCaseOf(t, h) && forall c :: c in t ==> c < '\U{212A}'
    ensures Lower(t) == h
  {
    if t != [] {
      assert t[0] in t && h == [h[0]] + h[1..];
      assert forall c :: c in t[1..] ==> c in t;
      LowerCased(t[1..], h[1..]);
    }
  }

  /** Blanks around a name, trailing dots and case do not matter: what is left is the canonical form if it
      is a host name and no address, and there is none otherwise. */
  lemma CanonicalExactly(pad: string, t: string, dots: string, pad': string, h: string)
    requires Blank(pad) && Typed(t) && Dots(dots) && Blank(pad') && LowerCaseOf(t, h)
    ensures CanonicalHost(Some(pad + (t + dots) + pad')) == if IsHostname(h) && !IsAddress(h) then h else ""
  {
    TypedEnds(t);
    NormalOf(pad, t, dots, pad', h);
  }

  lemma NormalOf(pad: string, t: string, dots: string, pad': string, h: string)
    requires Blank(pad) && t != [] && !IsSpace(t[0]) && !IsSpace(t[|t| - 1]) && t[|t| - 1] != '.'
    requires Dots(dots) && Blank(pad') && LowerCaseOf(t, h) && forall c :: c in t ==> c < '\U{212A}'
    ensures Normal(pad + (t + dots) + pad') == h
  {
    var x := t + dots;
    assert x[0] == t[0] && (x[|x| - 1] in dots || x[|x| - 1] == t[|t| - 1]);
    assert pad + x + pad' == pad + (x + pad') && (x + pad')[0] == x[0];
    TrimStartBlank(pad, x + pad');
    TrimEndBlank(x, pad');
    StripTrailing(t, dots);
    LowerCased(t, h);
  }

  lemma CanonicalSelf(t: string, h: string)
    requires Typed(t) && LowerCaseOf(t, h)
    ensures CanonicalHost(Some(h)) == if IsHostname(h) && !IsAddress(h) then h else ""
  {
    LowTyped(t, h);
    CanonicalExactly("", h, "", "", h);
    assert "" + (h + "") + "" == h;
  }

  /** The same holds for certificate names without a wildcard, */
  lemma CanonicalNameExactly(pad: string, t: string, dots: string, pad': string, h: string)
    requires Blank(pad) && Typed(t) && Dots(dots) && Blank(pad') && LowerCaseOf(t, h)
    ensures CanonicalName(Some(pad + (t + dots) + pad')) == if IsHostname(h) && !IsAddress(h) then h else ""
  {
    TypedEnds(t);
    NormalOf(pad, t, dots, pad', h);
    NotWild(t, h);
    CanonicalSelf(t, h);
  }

  lemma StarLower(t: string, h: string)
    requires Typed(t) && LowerCaseOf(t, h)
    ensures LowerCaseOf("*." + t, "*." + h)
    ensures forall c :: c in "*." + t ==> c < '\U{212A}'
  {
    TypedEnds(t);
    var x, y := "*." + t, "*." + h;
    forall i | 0 <= i < |x| ensures y[i] as int == x[i] as int + if 'A' <= x[i] <= 'Z' then 32 else 0 {
      assert i >= 2 ==> x[i] == t[i - 2] && y[i] == h[i - 2];
    }
  }

  /** and with one. */
  lemma WildcardExactly(pad: string, t: string, dots: string, pad': string, h: string)
    requires Blank(pad) && Typed(t) && Dots(dots) && Blank(pad') && LowerCaseOf(t, h)
    ensures CanonicalName(Some(pad + (("*." + t) + dots) + pad')) == if IsHostname(h) && !IsAddress(h) then "*." + h else ""
  {
    var x := "*." + t;
    TypedEnds(t);
    StarLower(t, h);
    assert x[0] == '*' && x[|x| - 1] == t[|t| - 1];
    NormalOf(pad, x, dots, pad', "*." + h);
    CanonicalSelf(t, h);
    assert ("*." + h)[2..] == h && "*." <= "*." + h;
  }

  lemma TypedEnds(t: string)
    requires Typed(t)
    ensures !IsSpace(t[0]) && !IsSpace(t[|t| - 1]) && forall c :: c in t ==> c < '\U{212A}'
  {
    assert t[0] in t && t[|t| - 1] in t;
  }

  lemma LowTyped(t: string, h: string)
    requires Typed(t) && LowerCaseOf(t, h)
    ensures Typed(h) && LowerCaseOf(h, h)
  {
    forall i | 0 <= i < |h|
      ensures 'a' <= h[i] <= 'z' || '0' <= h[i] <= '9' || h[i] == '-' || h[i] == '.'
      ensures h[i] == '.' ==> t[i] == '.'
    {
      assert t[i] in t;
    }
  }

  lemma NotWild(t: string, h: string)
    requires Typed(t) && LowerCaseOf(t, h)
    ensures !IsWild(h)
  {
    assert t[0] in t && h[0] as int == t[0] as int + if 'A' <= t[0] <= 'Z' then 32 else 0;
  }

  /** Trimming takes the blanks around a text away and nothing else. */
  lemma TrimExactly(pad: string, t: string, pad': string)
    requires Blank(pad) && Blank(pad') && t != [] && '!' <= t[0] <= '~' && '!' <= t[|t| - 1] <= '~'
    ensures Trim(pad + t + pad') == t
  {
    assert pad + t + pad' == pad + (t + pad') && (t + pad')[0] == t[0];
    TrimStartBlank(pad, t + pad');
    TrimEndBlank(t, pad');
  }
}
