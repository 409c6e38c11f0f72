/**
 Cloning a CDN deployment: the search for an unused id and the insert behind the original.
 */
module DeploymentClone {
  import opened Options
  import opened Texts

  /** A deployment; `id` is its text form, empty when there is none. */
  datatype Deployment = Deployment(id: string, displayName: Option<string>, hostname: string, tlsServerName: string,
                                   enabled: bool, secretRef: Option<string>, headerValue: Option<string>,
                                   protection: string, other: map<string, string>)

  const EMPTY := Deployment("", None, "", "", false, None, None, "", map[])

  function Candidate(k: nat): string { "cdn-" + Decimal(k) }

  function UsedIds(current: seq<Deployment>): set<string> { set d | d in current :: d.id }

  ghost predicate DistinctIds(ds: seq<Deployment>) {
    forall i, j :: 0 <= i < j < |ds| ==> ds[i].id != ds[j].id
  }

  /** Where an array is cut by an index that may be negative or too large. */
  function CutAt(k: int, n: nat): (c: nat)
    ensures c <= n
  {
    if k < 0 then (if n + k < 0 then 0 else n + k) else if k > n then n else k
  }

  function Original(current: seq<Deployment>, index: int): Deployment {
    if 0 <= index < |current| then current[index] else if current != [] then current[0] else EMPTY
  }

  /** The copy: a new id, no host names, switched off, and a secret of its own if one is needed. */
  function CloneOf(source: Deployment, sequence: nat, duplicate: bool, copyName: string -> string, secret: string): Deployment {
    source.(id := Candidate(sequence),
            displayName := Some(if duplicate then copyName(OrElse(source.displayName, "CDN")) else "CDN " + Decimal(sequence)),
            hostname := "", tlsServerName := "", enabled := false, secretRef := None,
            headerValue := if source.protection == "secret-header" then Some(secret) else None)
  }

  /** The copy has a new id and name, no host names, no reference to the old secret and its own secret
      only for protection by header; it is switched off and otherwise like the original. */
  ghost predicate IsCopy(source: Deployment, copy: Deployment, sequence: nat, duplicate: bool, copyName: string -> string, secret: string) {
    && copy.id == "cdn-" + Decimal(sequence) && !copy.enabled && copy.hostname == "" && copy.tlsServerName == ""
    && copy.secretRef == None && copy.headerValue == (if source.protection == "secret-header" then Some(secret) else None)
    && copy.displayName == Some(if !duplicate then "CDN " + Decimal(sequence)
                                else copyName(if source.displayName.Some? then source.displayName.value else "CDN"))
    && copy.protection == source.protection && copy.other == source.other
  }

  // ----- The pigeonhole argument

  lemma CandidateInjective(a: nat, b: nat)
    requires Candidate(a) == Candidate(b)
    ensures a == b
  {
    DropPrefix("cdn-", Decimal(a), Decimal(b));
    DecimalInjective(a, b);
  }

  function Candidates(lo: nat, hi: nat): set<string> { set k: nat | lo <= k < hi :: Candidate(k) }

  /** So many numbers give so many ids. */
  lemma {:induction false} CandidatesCount(lo: nat, hi: nat)
    requires lo <= hi
    ensures |Candidates(lo, hi)| == hi - lo
    decreases hi - lo
  {
    if lo == hi {
      assert Candidates(lo, hi) == {};
    } else {
      var last := Candidate(hi - 1);
      CandidatesCount(lo, hi - 1);
      if last in Candidates(lo, hi - 1) {
        var k: nat :| lo <= k < hi - 1 && Candidate(k) == last;
        CandidateInjective(k, hi - 1);
      }
      assert Candidates(lo, hi) == Candidates(lo, hi - 1) + {last};
    }
  }

  lemma {:induction false} UsedCount(current: seq<Deployment>)
    ensures |UsedIds(current)| <= |current|
  {
    if current == [] {
      assert UsedIds(current) == {};
    } else {
      var rest := current[1..];
      UsedCount(rest);
      assert UsedIds(current) == UsedIds(rest) + {current[0].id} by {
        assert forall d :: d in current <==> d == current[0] || d in rest;
      }
    }
  }

  lemma SubsetCount<T>(a: set<T>, b: set<T>)
    requires a <= b
    ensures |a| <= |b|
  {
    assert b == a + (b - a);
    assert |b| == |a| + |b - a|;
  }

  /** If all candidates of a range are taken, the range is no longer than the list. */
  lemma TakenRangeIsShort(current: seq<Deployment>, lo: nat, hi: nat)
    requires lo <= hi && forall k: nat :: lo <= k < hi ==> Candidate(k) in UsedIds(current)
    ensures hi - lo <= |current|
  {
    CandidatesCount(lo, hi);
    SubsetCount(Candidates(lo, hi), UsedIds(current));
    UsedCount(current);
  }

  // ----- The clone

  /** Finds the first free number from the length plus one on, after at most as many probes as there
      are deployments plus one, and inserts the copy; nothing else changes. */
  method CloneCdnDeployment(current: seq<Deployment>, index: int, duplicate: bool, copyName: string -> string, secret: string)
    returns (result: seq<Deployment>, sequence: nat)
    ensures var n := |current|;
            && n + 1 <= sequence <= 2 * n + 1
            && Candidate(sequence) !in UsedIds(current)
            && (forall k: nat :: n + 1 <= k < sequence ==> Candidate(k) in UsedIds(current))
    ensures var c := CutAt(index + 1, |current|);
            result == current[..c] + [CloneOf(Original(current, index), sequence, duplicate, copyName, secret)] + current[c..]
    ensures DistinctIds(current) ==> DistinctIds(result)
    ensures 0 <= index < |current| ==> result[..index + 1] == current[..index + 1] && result[index + 2..] == current[index + 1..]
    ensures 0 <= index < |current| ==> IsCopy(current[index], result[index + 1], sequence, duplicate, copyName, secret)
    ensures index >= |current| ==>
              && |result| == |current| + 1 && result[..|current|] == current
              && IsCopy(if current == [] then EMPTY else current[0], result[|current|], sequence, duplicate, copyName, secret)
    ensures index == -1 ==>
              && |result| == |current| + 1 && result[1..] == current
              && IsCopy(if current == [] then EMPTY else current[0], result[0], sequence, duplicate, copyName, secret)
  {
    var source := Original(current, index);
    var used := UsedIds(current);
    sequence := |current| + 1;
    var id := Candidate(sequence);
    TakenRangeIsShort(current, sequence, sequence);
    while id in used
      invariant |current| + 1 <= sequence <= 2 * |current| + 1 && id == Candidate(sequence)
      invariant forall k: nat :: |current| + 1 <= k < sequence ==> Candidate(k) in used
      decreases 2 * |current| + 1 - sequence
    {
      TakenRangeIsShort(current, |current| + 1, sequence + 1);
      sequence := sequence + 1;
      id := Candidate(sequence);
    }
    var clone := CloneOf(source, sequence, duplicate, copyName, secret);
    var c := CutAt(index + 1, |current|);
    result := current[..c] + [clone] + current[c..];
    if DistinctIds(current) { InsertKeepsDistinct(current, clone, c); }
    if 0 <= index < |current| { InsertedAfter(current, clone, index); }
  }

  lemma InsertKeepsDistinct(current: seq<Deployment>, clone: Deployment, c: nat)
    requires DistinctIds(current) && c <= |current| && clone.id !in UsedIds(current)
    ensures DistinctIds(current[..c] + [clone] + current[c..])
  {
  }

  lemma InsertedAfter(current: seq<Deployment>, clone: Deployment, index: nat)
    requires index < |current|
    ensures var c := CutAt(index + 1, |current|);
            var result := current[..c] + [clone] + current[c..];
            && result[..index + 1] == current[..index + 1] && result[index + 1] == clone
            && result[index + 2..] == current[index + 1..]
  {
  }
}
