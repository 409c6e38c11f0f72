/**
 Merging subscription metadata responses: per subscription the record with the latest refresh time
 stays, and only listed subscriptions are kept.
 */
module SubscriptionMetadata {
  import opened Options
  import opened JsonValues

  type Metadata = map<string, Record>

  const REFRESHED := "refreshed_at"

  function Find(m: Metadata, id: string): Option<Record> { if id in m then Some(m[id]) else None }

  function TimeOf(clock: Clock, r: Option<Record>): Option<int> {
    if r.Some? then TimeIn(clock, r.value, REFRESHED) else None
  }

  function Choose(clock: Clock, old': Option<Record>, next: Option<Record>): Option<Record> {
    if next.None? then old'
    else if Later(TimeOf(clock, old'), TimeOf(clock, next)) then old'
    else next
  }

  function Merge(clock: Clock, previous: Metadata, incoming: Metadata, ids: seq<string>): Metadata {
    map id | id in ids && Choose(clock, Find(previous, id), Find(incoming, id)).Some?
      :: Choose(clock, Find(previous, id), Find(incoming, id)).value
  }

  lemma MergeFind(clock: Clock, a: Metadata, b: Metadata, ids: seq<string>, id: string)
    ensures Find(Merge(clock, a, b, ids), id) == if id in ids then Choose(clock, Find(a, id), Find(b, id)) else None
  {
  }

  lemma ChooseAssociative(clock: Clock, a: Option<Record>, b: Option<Record>, c: Option<Record>)
    ensures Choose(clock, Choose(clock, a, b), c) == Choose(clock, a, Choose(clock, b, c))
  {
  }

  lemma SameMetadata(a: Metadata, b: Metadata)
    requires forall id :: Find(a, id) == Find(b, id)
    ensures a == b
  {
    forall id ensures id in a <==> id in b { assert Find(a, id) == Find(b, id); }
    forall id | id in a ensures a[id] == b[id] { assert Find(a, id) == Find(b, id); }
  }

  /** Responses may be merged among themselves first: the grouping does not matter. */
  lemma MergeAssociative(clock: Clock, a: Metadata, b: Metadata, c: Metadata, ids: seq<string>)
    ensures Merge(clock, Merge(clock, a, b, ids), c, ids) == Merge(clock, a, Merge(clock, b, c, ids), ids)
  {
    var l, r := Merge(clock, Merge(clock, a, b, ids), c, ids), Merge(clock, a, Merge(clock, b, c, ids), ids);
    forall id ensures Find(l, id) == Find(r, id) {
      MergeFind(clock, Merge(clock, a, b, ids), c, ids, id);
      MergeFind(clock, a, b, ids, id);
      MergeFind(clock, a, Merge(clock, b, c, ids), ids, id);
      MergeFind(clock, b, c, ids, id);
      ChooseAssociative(clock, Find(a, id), Find(b, id), Find(c, id));
    }
    SameMetadata(l, r);
  }

  function Listed(m: Metadata, ids: seq<string>): Metadata { map id | id in m && id in ids :: m[id] }

  /** Merging a response twice, or a state with itself, only drops unlisted subscriptions. */
  lemma MergeIdempotent(clock: Clock, a: Metadata, b: Metadata, ids: seq<string>)
    ensures Merge(clock, a, a, ids) == Listed(a, ids)
    ensures Merge(clock, Merge(clock, a, b, ids), b, ids) == Merge(clock, a, b, ids)
    ensures Merge(clock, a, b, ids).Keys == (a.Keys + b.Keys) * (set id | id in ids)
  {
  }

  // ----- Any sequence of responses

  function Folded(clock: Clock, responses: seq<Metadata>, ids: seq<string>): Metadata {
    if responses == [] then map[]
    else Merge(clock, Folded(clock, responses[..|responses| - 1], ids), responses[|responses| - 1], ids)
  }

  /** Response `w` has the record of latest time, and is the last to have one of that time. */
  ghost predicate Winner(clock: Clock, responses: seq<Metadata>, id: string, w: nat) {
    && w < |responses| && id in responses[w]
    && (forall i: nat :: i < w && id in responses[i] ==>
          !Later(TimeOf(clock, Find(responses[i], id)), TimeOf(clock, Find(responses[w], id))))
    && (forall i: nat :: w < i < |responses| && id in responses[i] ==>
          Later(TimeOf(clock, Find(responses[w], id)), TimeOf(clock, Find(responses[i], id))))
  }

  /** Every response sequence leaves each listed subscription that was ever reported with the whole
      record of the latest time, the last to arrive among equals, and nothing else. */
  lemma {:induction false} FoldedIsWinner(clock: Clock, responses: seq<Metadata>, ids: seq<string>, id: string)
    returns (w: nat)
    requires id in ids
    ensures id in Folded(clock, responses, ids) <==> exists r :: r in responses && id in r
    ensures id in Folded(clock, responses, ids) ==>
              Winner(clock, responses, id, w) && Folded(clock, responses, ids)[id] == responses[w][id]
  {
    w := 0;
    if responses != [] {
      var n := |responses| - 1;
      var pre, last := responses[..n], responses[n];
      w := FoldedIsWinner(clock, pre, ids, id);
      MergeFind(clock, Folded(clock, pre, ids), last, ids, id);
      assert responses == pre + [last];
      if id in last && !(id in Folded(clock, pre, ids)
                         && Later(TimeOf(clock, Find(pre[w], id)), TimeOf(clock, Find(last, id)))) {
        LastWins(clock, responses, ids, id, w);
        w := n;
      }
    }
  }

  lemma LastWins(clock: Clock, responses: seq<Metadata>, ids: seq<string>, id: string, w: nat)
    requires responses != [] && id in responses[|responses| - 1]
    requires var pre, last := responses[..|responses| - 1], responses[|responses| - 1];
             || (forall r :: r in pre ==> id !in r)
             || (Winner(clock, pre, id, w) && !Later(TimeOf(clock, Find(pre[w], id)), TimeOf(clock, Find(last, id))))
    ensures Winner(clock, responses, id, |responses| - 1)
  {
  }

  /** Nothing outside the list survives. */
  lemma FoldedIsListed(clock: Clock, responses: seq<Metadata>, ids: seq<string>, id: string)
    requires id in Folded(clock, responses, ids)
    ensures id in ids
  {
  }

  // ----- The same on the field itself

  /** The subscription was refreshed at time `t`. */
  predicate RefreshedAt(clock: Clock, m: Metadata, id: string, t: int) {
    id in m && "refreshed_at" in m[id] && m[id]["refreshed_at"] != Null && clock(m[id]["refreshed_at"]) == Some(t)
  }

  lemma RefreshedIsTime(clock: Clock, m: Metadata, id: string, t: int)
    ensures RefreshedAt(clock, m, id, t) <==> TimeOf(clock, Find(m, id)) == Some(t)
  {
  }

  /** Response `w` has the latest refresh, the last to arrive among equals. */
  ghost predicate Newest(clock: Clock, responses: seq<Metadata>, id: string, w: nat, t: int) {
    && w < |responses| && RefreshedAt(clock, responses[w], id, t)
    && forall i: nat, u: int :: i < |responses| && RefreshedAt(clock, responses[i], id, u) ==> u < t || (u == t && i <= w)
  }

  /** A refresh once seen is never rolled back: the folded record is a whole record of the latest refresh,
      at least as late as any that arrived. */
  lemma FoldedKeepsNewest(clock: Clock, responses: seq<Metadata>, ids: seq<string>, id: string, i: nat, t: int)
    returns (w: nat, u: int)
    requires id in ids && i < |responses| && RefreshedAt(clock, responses[i], id, t)
    ensures u >= t && Newest(clock, responses, id, w, u)
    ensures RefreshedAt(clock, Folded(clock, responses, ids), id, u)
    ensures Folded(clock, responses, ids)[id] == responses[w][id]
  {
    w := FoldedIsWinner(clock, responses, ids, id);
    assert responses[i] in responses && id in Folded(clock, responses, ids);
    RefreshedIsTime(clock, responses[i], id, t);
    assert TimeOf(clock, Find(responses[w], id)).Some?;
    u := TimeOf(clock, Find(responses[w], id)).value;
    RefreshedIsTime(clock, responses[w], id, u);
    forall k: nat, v: int | k < |responses| && RefreshedAt(clock, responses[k], id, v) ensures v < u || (v == u && k <= w) {
      RefreshedIsTime(clock, responses[k], id, v);
    }
  }

  /** A record without a refresh time stays only where no timed one ever arrived; then the last to arrive
      stays. */
  lemma FoldedUntimed(clock: Clock, responses: seq<Metadata>, ids: seq<string>, id: string, w: nat)
    requires id in ids && w < |responses| && id in responses[w]
    requires forall i: nat, t: int :: i < |responses| ==> !RefreshedAt(clock, responses[i], id, t)
    requires forall i: nat :: w < i < |responses| ==> id !in responses[i]
    ensures id in Folded(clock, responses, ids) && Folded(clock, responses, ids)[id] == responses[w][id]
  {
    var x := FoldedIsWinner(clock, responses, ids, id);
    assert responses[w] in responses;
    if x != w {
      var time := TimeOf(clock, Find(responses[x], id));
      assert x < w ==> Later(time, TimeOf(clock, Find(responses[w], id)));
      if time.Some? { RefreshedIsTime(clock, responses[x], id, time.value); }
    }
  }
}
