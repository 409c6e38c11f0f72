/**
 Merging runtime status responses that may arrive out of order, and what any sequence of responses
 leaves behind for each selector.
 */
module RuntimeStatus {
  import opened Options
  import opened JsonValues

  const HEALTH := "selector_health"
  const OBSERVED := "runtime_observed_at"

  const PROTECTED := ["runtime_selected", "runtime_confirmed", OBSERVED, "runtime_error", "candidate_labels",
                      "candidate_count", "availability_ok", "shortlist", "latency_comparisons", "last_latency_comparisons"]

  function TimeOf(clock: Clock, r: Record): Option<int> { TimeIn(clock, r, OBSERVED) }

  /** The old readback is newer than the incoming one. */
  predicate Stale(clock: Clock, old': Record, next: Record) { Later(TimeOf(clock, old'), TimeOf(clock, next)) }

  function Only(r: Record, fields: seq<string>): Record { map f | f in r && f in fields :: r[f] }

  function MergeSelector(clock: Clock, old': Record, next: Record): Record {
    if Stale(clock, old', next) then old' + next + Only(old', PROTECTED) else old' + next
  }

  lemma OneMore(start: Record, old': Record, fields: seq<string>, f: string)
    ensures start + Only(old', fields + [f]) ==
            if f in old' then (start + Only(old', fields))[f := old'[f]] else start + Only(old', fields)
  {
  }

  /** Overwrites the given fields with their old values, one by one. */
  method RestoreFields(start: Record, old': Record, fields: seq<string>) returns (merged: Record)
    ensures merged == start + Only(old', fields)
  {
    merged := start;
    for i := 0 to |fields|
      invariant merged == start + Only(old', fields[..i])
    {
      var f := fields[i];
      assert fields[..i + 1] == fields[..i] + [f];
      OneMore(start, old', fields[..i], f);
      if f in old' { merged := merged[f := old'[f]]; }
    }
    assert fields[..|fields|] == fields;
  }

  method MergeSelectorFields(clock: Clock, old': Record, next: Record) returns (merged: Record)
    ensures merged == MergeSelector(clock, old', next)
  {
    merged := old' + next;
    if Stale(clock, old', next) { merged := RestoreFields(merged, old', PROTECTED); }
  }

  function MergeHealth(clock: Clock, was: Record, incoming: Record): Record {
    map key | key in was.Keys + incoming.Keys ::
      Object(MergeSelector(clock, AsRecord(Get(was, key)), AsRecord(Get(incoming, key))))
  }

  function MergeStatus(clock: Clock, previous: Option<Json>, incoming: Json): Json {
    var was, now := AsRecord(previous), AsRecord(Some(incoming));
    Object((was + now)[HEALTH := Object(MergeHealth(clock, AsRecord(Get(was, HEALTH)), AsRecord(Get(now, HEALTH))))])
  }

  // ----- One selector of a status

  function HealthOf(status: Option<Json>): Record { AsRecord(Get(AsRecord(status), HEALTH)) }

  function Selector(status: Option<Json>, key: string): Record { AsRecord(Get(HealthOf(status), key)) }

  lemma MergesHealth(clock: Clock, previous: Option<Json>, incoming: Json)
    ensures HealthOf(Some(MergeStatus(clock, previous, incoming)))
            == MergeHealth(clock, HealthOf(previous), HealthOf(Some(incoming)))
  {
  }

  /** Merging statuses merges every selector on its own and drops none. */
  lemma MergesEachSelector(clock: Clock, previous: Option<Json>, incoming: Json, key: string)
    ensures Selector(Some(MergeStatus(clock, previous, incoming)), key)
            == MergeSelector(clock, Selector(previous, key), Selector(Some(incoming), key))
    ensures HealthOf(Some(MergeStatus(clock, previous, incoming))).Keys
            == HealthOf(previous).Keys + HealthOf(Some(incoming)).Keys
  {
    MergesHealth(clock, previous, incoming);
    NothingMerged(clock);
  }

  lemma NothingMerged(clock: Clock)
    ensures MergeSelector(clock, map[], map[]) == map[]
  {
  }

  /** The status after a sequence of responses, starting from nothing. */
  function Status(clock: Clock, responses: seq<Json>): Option<Json> {
    if responses == [] then None
    else Some(MergeStatus(clock, Status(clock, responses[..|responses| - 1]), responses[|responses| - 1]))
  }

  function Merged(clock: Clock, rs: seq<Record>): Record {
    if rs == [] then map[] else MergeSelector(clock, Merged(clock, rs[..|rs| - 1]), rs[|rs| - 1])
  }

  /** What each response says about one selector. */
  function Reports(responses: seq<Json>, key: string): (rs: seq<Record>)
    ensures |rs| == |responses|
  {
    seq(|responses|, i requires 0 <= i < |responses| => Selector(Some(responses[i]), key))
  }

  /** After any sequence of responses, a selector is the merge of its own reports. */
  lemma {:induction false} StatusIsMerged(clock: Clock, responses: seq<Json>, key: string)
    ensures Selector(Status(clock, responses), key) == Merged(clock, Reports(responses, key))
  {
    if responses != [] {
      var n := |responses| - 1;
      StatusIsMerged(clock, responses[..n], key);
      MergesEachSelector(clock, Status(clock, responses[..n]), responses[n], key);
      assert Reports(responses, key)[..n] == Reports(responses[..n], key);
    }
  }

  predicate Mentions(response: Json, key: string) { key in HealthOf(Some(response)) }

  ghost predicate Reported(responses: seq<Json>, key: string) { exists r :: r in responses && Mentions(r, key) }

  lemma ReportedStep(responses: seq<Json>, last: Json, key: string)
    ensures Reported(responses + [last], key) <==> Reported(responses, key) || Mentions(last, key)
  {
  }

  lemma MergeMentions(clock: Clock, previous: Option<Json>, incoming: Json, key: string)
    ensures key in HealthOf(Some(MergeStatus(clock, previous, incoming))) <==>
              key in HealthOf(previous) || Mentions(incoming, key)
  {
  }

  /** A selector is there exactly when some response reported it: none is ever dropped. */
  lemma {:induction false} NoSelectorDropped(clock: Clock, responses: seq<Json>, key: string)
    ensures key in HealthOf(Status(clock, responses)) <==> Reported(responses, key)
  {
    if responses != [] {
      var n := |responses| - 1;
      NoSelectorDropped(clock, responses[..n], key);
      MergeMentions(clock, Status(clock, responses[..n]), responses[n], key);
      ReportedStep(responses[..n], responses[n], key);
      assert responses == responses[..n] + [responses[n]];
    }
  }

  // ----- Times

  /** The latest time among the reports. */
  function MaxTime(clock: Clock, rs: seq<Record>): Option<int> {
    if rs == [] then None
    else
      var before, last := MaxTime(clock, rs[..|rs| - 1]), TimeOf(clock, rs[|rs| - 1]);
      if last.None? then before
      else if before.Some? && before.value > last.value then before
      else last
  }

  /** It is the greatest time there is. */
  lemma {:induction false} MaxTimeIsMax(clock: Clock, rs: seq<Record>)
    ensures forall i :: 0 <= i < |rs| && TimeOf(clock, rs[i]).Some? ==>
              MaxTime(clock, rs).Some? && TimeOf(clock, rs[i]).value <= MaxTime(clock, rs).value
    ensures MaxTime(clock, rs).Some? ==> exists i :: 0 <= i < |rs| && TimeOf(clock, rs[i]) == MaxTime(clock, rs)
  {
    if rs != [] {
      var n := |rs| - 1;
      MaxTimeIsMax(clock, rs[..n]);
      forall i | 0 <= i < |rs| && TimeOf(clock, rs[i]).Some?
        ensures MaxTime(clock, rs).Some? && TimeOf(clock, rs[i]).value <= MaxTime(clock, rs).value
      {
        if i < n { assert rs[..n][i] == rs[i]; }
      }
      if MaxTime(clock, rs).Some? {
        if TimeOf(clock, rs[n]) == MaxTime(clock, rs) {
        } else {
          var i :| 0 <= i < n && TimeOf(clock, rs[..n][i]) == MaxTime(clock, rs[..n]);
          assert TimeOf(clock, rs[i]) == MaxTime(clock, rs);
        }
      }
    }
  }

  lemma OneMergeTime(clock: Clock, old': Record, next: Record)
    ensures TimeOf(clock, MergeSelector(clock, old', next)) ==
            if Stale(clock, old', next) then TimeOf(clock, old') else TimeOf(clock, next)
  {
  }

  /** The merged time is the latest time seen, so it never goes back. */
  lemma {:induction false} MergedTime(clock: Clock, rs: seq<Record>)
    ensures TimeOf(clock, Merged(clock, rs)) == MaxTime(clock, rs)
  {
    if rs != [] {
      MergedTime(clock, rs[..|rs| - 1]);
      OneMergeTime(clock, Merged(clock, rs[..|rs| - 1]), rs[|rs| - 1]);
    }
  }

  // ----- Fields

  /** Report `i` is not older than what came before it. */
  predicate Current(clock: Clock, rs: seq<Record>, i: nat)
    requires i < |rs|
  {
    var before, now := MaxTime(clock, rs[..i]), TimeOf(clock, rs[i]);
    before.None? || (now.Some? && now.value >= before.value)
  }

  lemma CurrentPrefix(clock: Clock, rs: seq<Record>, n: nat, i: nat)
    requires i < n <= |rs|
    ensures Current(clock, rs[..n], i) <==> Current(clock, rs, i)
  {
    assert rs[..n][..i] == rs[..i];
  }

  /** The last current report with the field. */
  ghost predicate LastCurrentWith(clock: Clock, rs: seq<Record>, f: string, j: nat) {
    && j < |rs| && f in rs[j] && Current(clock, rs, j)
    && forall i: nat :: j < i < |rs| && f in rs[i] ==> !Current(clock, rs, i)
  }

  /** No current report has the field, and `j` is the first that has it at all. */
  ghost predicate FirstStaleWith(clock: Clock, rs: seq<Record>, f: string, j: nat) {
    && j < |rs| && f in rs[j]
    && (forall i: nat :: i < |rs| && f in rs[i] ==> !Current(clock, rs, i))
    && (forall i: nat :: i < j ==> f !in rs[i])
  }

  ghost predicate Somewhere(rs: seq<Record>, f: string) { exists i: nat :: i < |rs| && f in rs[i] }

  lemma MergedKeys(clock: Clock, old': Record, next: Record)
    ensures MergeSelector(clock, old', next).Keys == old'.Keys + next.Keys
  {
  }

  /** A protected field after one merge. */
  lemma ProtectedMerge(clock: Clock, old': Record, next: Record, f: string)
    requires f in PROTECTED
    ensures Get(MergeSelector(clock, old', next), f) ==
            if f in old' && (f !in next || Stale(clock, old', next)) then Get(old', f) else Get(next, f)
  {
  }

  lemma StaleExactly(clock: Clock, rs: seq<Record>)
    requires rs != []
    ensures Stale(clock, Merged(clock, rs[..|rs| - 1]), rs[|rs| - 1]) <==> !Current(clock, rs, |rs| - 1)
  {
    MergedTime(clock, rs[..|rs| - 1]);
  }

  lemma SomewhereStep(rs: seq<Record>, f: string)
    requires rs != []
    ensures Somewhere(rs, f) <==> Somewhere(rs[..|rs| - 1], f) || f in rs[|rs| - 1]
  {
  }

  /** A field is there exactly when any report has it. */
  lemma {:induction false} FieldPresent(clock: Clock, rs: seq<Record>, f: string)
    ensures f in Merged(clock, rs) <==> Somewhere(rs, f)
  {
    if rs != [] {
      var n := |rs| - 1;
      FieldPresent(clock, rs[..n], f);
      SomewhereStep(rs, f);
      MergedKeys(clock, Merged(clock, rs[..n]), rs[n]);
    }
  }

  /** Where the value of a protected field comes from, for every sequence of reports: from the last
      current report that has it; if none does, from the first report that has it. */
  lemma {:induction false} ProtectedField(clock: Clock, rs: seq<Record>, f: string, j: nat)
    requires f in PROTECTED && (LastCurrentWith(clock, rs, f, j) || FirstStaleWith(clock, rs, f, j))
    ensures Get(Merged(clock, rs), f) == Some(rs[j][f])
  {
    var n := |rs| - 1;
    var pre := rs[..n];
    ProtectedMerge(clock, Merged(clock, pre), rs[n], f);
    StaleExactly(clock, rs);
    if j < n {
      SourceOfPrefix(clock, rs, f, j);
      ProtectedField(clock, pre, f, j);
      assert f in Merged(clock, pre) && (f in rs[n] ==> !Current(clock, rs, n));
    } else if !Current(clock, rs, n) {
      FieldPresent(clock, pre, f);
      assert forall i: nat :: i < n ==> pre[i] == rs[i];
      assert !Somewhere(pre, f);
    }
  }

  /** The source of a field is its source in every prefix that reaches it. */
  lemma SourceOfPrefix(clock: Clock, rs: seq<Record>, f: string, j: nat)
    requires LastCurrentWith(clock, rs, f, j) || FirstStaleWith(clock, rs, f, j)
    requires j < |rs| - 1
    ensures var pre := rs[..|rs| - 1]; LastCurrentWith(clock, pre, f, j) || FirstStaleWith(clock, pre, f, j)
  {
    var n := |rs| - 1;
    forall i: nat | i < n ensures Current(clock, rs[..n], i) <==> Current(clock, rs, i) { CurrentPrefix(clock, rs, n, i); }
  }

  lemma OtherMerge(clock: Clock, old': Record, next: Record, f: string)
    requires f !in PROTECTED
    ensures Get(MergeSelector(clock, old', next), f) == if f in next then Get(next, f) else Get(old', f)
  {
  }

  /** Every other field simply comes from the last report that has it. */
  lemma {:induction false} OtherField(clock: Clock, rs: seq<Record>, f: string, j: nat)
    requires f !in PROTECTED && j < |rs| && f in rs[j]
    requires forall i: nat :: j < i < |rs| ==> f !in rs[i]
    ensures Get(Merged(clock, rs), f) == Some(rs[j][f])
  {
    var n := |rs| - 1;
    OtherMerge(clock, Merged(clock, rs[..n]), rs[n], f);
    if j < n {
      assert rs[..n][j] == rs[j];
      OtherField(clock, rs[..n], f, j);
    }
  }

  // ----- The newest report wins as a whole

  /** The last report with the latest time. */
  ghost predicate Winner(clock: Clock, rs: seq<Record>, w: nat) {
    && w < |rs| && TimeOf(clock, rs[w]).Some? && TimeOf(clock, rs[w]) == MaxTime(clock, rs)
    && forall i: nat :: w < i < |rs| ==> TimeOf(clock, rs[i]) != MaxTime(clock, rs)
  }

  lemma MaxTimeGrows(clock: Clock, rs: seq<Record>, i: nat)
    requires i <= |rs| && MaxTime(clock, rs[..i]).Some?
    ensures MaxTime(clock, rs).Some? && MaxTime(clock, rs[..i]).value <= MaxTime(clock, rs).value
  {
    MaxTimeIsMax(clock, rs[..i]);
    MaxTimeIsMax(clock, rs);
    var k :| 0 <= k < i && TimeOf(clock, rs[..i][k]) == MaxTime(clock, rs[..i]);
    assert TimeOf(clock, rs[k]).Some?;
  }

  lemma LoserIsStale(clock: Clock, rs: seq<Record>, w: nat, i: nat)
    requires Winner(clock, rs, w) && w < i < |rs|
    ensures !Current(clock, rs, i)
  {
    MaxTimeIsMax(clock, rs);
    MaxTimeIsMax(clock, rs[..i]);
    assert rs[..i][w] == rs[w];
    MaxTimeGrows(clock, rs, i);
    assert TimeOf(clock, rs[i]).Some? ==> TimeOf(clock, rs[i]).value <= MaxTime(clock, rs).value;
  }

  /** Nothing after the winner is current, and the winner itself is. */
  lemma WinnerIsLastCurrent(clock: Clock, rs: seq<Record>, w: nat)
    requires Winner(clock, rs, w)
    ensures Current(clock, rs, w)
    ensures forall i: nat :: w < i < |rs| ==> !Current(clock, rs, i)
  {
    if MaxTime(clock, rs[..w]).Some? { MaxTimeGrows(clock, rs, w); }
    forall i: nat | w < i < |rs| ensures !Current(clock, rs, i) { LoserIsStale(clock, rs, w, i); }
  }

  /** The protected fields of one record are those of another. */
  ghost predicate SameProtected(a: Record, b: Record) {
    forall f :: f in PROTECTED ==> Get(a, f) == Get(b, f)
  }

  /** A protected field that the winner carries is the winner's. */
  lemma WinnerField(clock: Clock, rs: seq<Record>, w: nat, f: string)
    requires Winner(clock, rs, w) && f in PROTECTED && f in rs[w]
    ensures Get(Merged(clock, rs), f) == Some(rs[w][f])
  {
    WinnerIsLastCurrent(clock, rs, w);
    ProtectedField(clock, rs, f, w);
  }

  /** All protected fields come from the newest report exactly when it carries every protected field
      that any report ever carried. */
  lemma NewestWinsExactly(clock: Clock, rs: seq<Record>, w: nat)
    requires Winner(clock, rs, w)
    ensures SameProtected(Merged(clock, rs), rs[w]) <==>
              forall f :: f in PROTECTED && Somewhere(rs, f) ==> f in rs[w]
  {
    forall f | f in PROTECTED
      ensures Get(Merged(clock, rs), f) == Get(rs[w], f) <==> (Somewhere(rs, f) ==> f in rs[w])
    {
      FieldPresent(clock, rs, f);
      if f in rs[w] { WinnerField(clock, rs, w, f); }
    }
  }

  /** In particular when every timed report carries all ten. */
  lemma NewestWins(clock: Clock, rs: seq<Record>, w: nat)
    requires Winner(clock, rs, w)
    requires forall i, f :: 0 <= i < |rs| && TimeOf(clock, rs[i]).Some? && f in PROTECTED ==> f in rs[i]
    ensures SameProtected(Merged(clock, rs), rs[w])
  {
    NewestWinsExactly(clock, rs, w);
  }

  // ----- The same for whole statuses

  /** Over any response sequence a selector's time is the latest it was reported with. */
  lemma StatusTime(clock: Clock, responses: seq<Json>, key: string)
    ensures TimeOf(clock, Selector(Status(clock, responses), key)) == MaxTime(clock, Reports(responses, key))
  {
    StatusIsMerged(clock, responses, key);
    MergedTime(clock, Reports(responses, key));
  }

  lemma ReportsPrefix(responses: seq<Json>, key: string, i: nat)
    requires i <= |responses|
    ensures Reports(responses[..i], key) == Reports(responses, key)[..i]
  {
  }

  /** No later response takes it back. */
  lemma StatusTimeGrows(clock: Clock, responses: seq<Json>, key: string, i: nat)
    requires i <= |responses| && TimeOf(clock, Selector(Status(clock, responses[..i]), key)).Some?
    ensures TimeOf(clock, Selector(Status(clock, responses), key)).Some?
    ensures TimeOf(clock, Selector(Status(clock, responses[..i]), key)).value
            <= TimeOf(clock, Selector(Status(clock, responses), key)).value
  {
    StatusTime(clock, responses, key);
    StatusTime(clock, responses[..i], key);
    ReportsPrefix(responses, key, i);
    MaxTimeGrows(clock, Reports(responses, key), i);
  }

  /** Over any response sequence all ten protected fields of a selector come from its newest report,
      the last to arrive among equals, exactly when that report has every one that any report had. */
  lemma StatusNewestWins(clock: Clock, responses: seq<Json>, key: string, w: nat)
    requires Winner(clock, Reports(responses, key), w)
    ensures var rs := Reports(responses, key);
            SameProtected(Selector(Status(clock, responses), key), rs[w]) <==>
            forall f :: f in PROTECTED && Somewhere(rs, f) ==> f in rs[w]
  {
    StatusIsMerged(clock, responses, key);
    NewestWinsExactly(clock, Reports(responses, key), w);
  }

  /** An old report can still contribute a protected field that the newer one lacks. */
  lemma StaleFieldLeaksIn(clock: Clock, newer: Json, older: Json)
    requires newer != Null && older != Null
    requires clock(newer).Some? && clock(older).Some? && clock(older).value < clock(newer).value
    ensures var rs := [map[OBSERVED := newer], map[OBSERVED := older, "shortlist" := Null]];
            && Winner(clock, rs, 0) && Get(Merged(clock, rs), "shortlist") == Some(Null)
            && !SameProtected(Merged(clock, rs), rs[0])
  {
    var rs := [map[OBSERVED := newer], map[OBSERVED := older, "shortlist" := Null]];
    assert rs[..1] == [rs[0]] && rs[..1][..0] == [];
    assert MaxTime(clock, rs[..1]) == clock(newer);
    assert "shortlist" == PROTECTED[7] && "shortlist" in PROTECTED && "shortlist" in rs[1];
    assert |"shortlist"| != |OBSERVED|;
    NewestWinsExactly(clock, rs, 0);
    assert Somewhere(rs, "shortlist") && !Current(clock, rs, 1);
    ProtectedField(clock, rs, "shortlist", 1);
  }

  // ----- The same on the JSON itself

  predicate HasField(v: Json, field: string) { v.Object? && field in v.fields }

  /** One merge takes a top-level field from the incoming status if it is there. */
  lemma MergedField(clock: Clock, previous: Option<Json>, incoming: Json, field: string)
    requires field != "selector_health"
    ensures var v := MergeStatus(clock, previous, incoming);
            if HasField(incoming, field) then HasField(v, field) && v.fields[field] == incoming.fields[field]
            else if previous.Some? && HasField(previous.value, field)
            then HasField(v, field) && v.fields[field] == previous.value.fields[field]
            else !HasField(v, field)
  {
    var was, now := AsRecord(previous), AsRecord(Some(incoming));
    assert field in was + now <==> field in was || field in now;
  }

  ghost predicate Told(responses: seq<Json>, field: string) { exists i: nat :: i < |responses| && HasField(responses[i], field) }

  lemma ToldStep(responses: seq<Json>, field: string)
    requires responses != []
    ensures Told(responses, field) <==> Told(responses[..|responses| - 1], field) || HasField(responses[|responses| - 1], field)
  {
    var n := |responses| - 1;
    var pre := responses[..n];
    if Told(responses, field) {
      var i: nat :| i < |responses| && HasField(responses[i], field);
      if i < n { assert HasField(pre[i], field); }
    }
    if Told(pre, field) {
      var i: nat :| i < |pre| && HasField(pre[i], field);
      assert HasField(responses[i], field);
    }
  }

  /** A top-level field other than the selector table is there exactly when some response has it. */
  lemma {:induction false} StatusFieldPresent(clock: Clock, responses: seq<Json>, field: string)
    requires field != "selector_health"
    ensures Status(clock, responses).Some? && HasField(Status(clock, responses).value, field) <==> Told(responses, field)
  {
    if responses != [] {
      var n := |responses| - 1;
      StatusFieldPresent(clock, responses[..n], field);
      ToldStep(responses, field);
      MergedField(clock, Status(clock, responses[..n]), responses[n], field);
    }
  }

  /** And its value is that of the last response that has it. */
  lemma {:induction false} StatusField(clock: Clock, responses: seq<Json>, field: string, j: nat)
    requires field != "selector_health" && j < |responses| && HasField(responses[j], field)
    requires forall i: nat :: j < i < |responses| ==> !HasField(responses[i], field)
    ensures Status(clock, responses).Some? && HasField(Status(clock, responses).value, field)
    ensures Status(clock, responses).value.fields[field] == responses[j].fields[field]
  {
    var n := |responses| - 1;
    MergedField(clock, Status(clock, responses[..n]), responses[n], field);
    if j < n {
      assert responses[..n][j] == responses[j];
      StatusField(clock, responses[..n], field, j);
    }
  }

  /** What a status says about one selector. */
  function Readback(v: Json, key: string): Option<Record> {
    if HasField(v, "selector_health") && HasField(v.fields["selector_health"], key)
       && v.fields["selector_health"].fields[key].Object?
    then Some(v.fields["selector_health"].fields[key].fields) else None
  }

  /** The selector was read back at time `t`. */
  predicate ReadAt(clock: Clock, v: Json, key: string, t: int) {
    var r := Readback(v, key);
    r.Some? && "runtime_observed_at" in r.value && r.value["runtime_observed_at"] != Null
    && clock(r.value["runtime_observed_at"]) == Some(t)
  }

  lemma ReadbackIsSelector(clock: Clock, v: Json, key: string)
    ensures Selector(Some(v), key) == OrElse(Readback(v, key), map[])
    ensures forall t :: ReadAt(clock, v, key, t) <==> TimeOf(clock, Selector(Some(v), key)) == Some(t)
  {
  }

  /** Response `w` has the latest readback of the selector, the last to arrive among equals. */
  ghost predicate Newest(clock: Clock, responses: seq<Json>, key: string, w: nat, t: int) {
    && w < |responses| && ReadAt(clock, responses[w], key, t)
    && forall i: nat, u: int :: i < |responses| && ReadAt(clock, responses[i], key, u) ==> u < t || (u == t && i <= w)
  }

  lemma NewestIsWinner(clock: Clock, responses: seq<Json>, key: string, w: nat, t: int)
    requires Newest(clock, responses, key, w, t)
    ensures Winner(clock, Reports(responses, key), w) && MaxTime(clock, Reports(responses, key)) == Some(t)
  {
    var rs := Reports(responses, key);
    forall i: nat | i < |rs|
      ensures TimeOf(clock, rs[i]).Some? ==> TimeOf(clock, rs[i]).value < t || (TimeOf(clock, rs[i]).value == t && i <= w)
      ensures i == w ==> TimeOf(clock, rs[i]) == Some(t)
    {
      ReadbackIsSelector(clock, responses[i], key);
      if TimeOf(clock, rs[i]).Some? { assert ReadAt(clock, responses[i], key, TimeOf(clock, rs[i]).value); }
    }
    MaxTimeIsMax(clock, rs);
  }

  /** The ten fields of a readback that an older one must not touch. */
  function RuntimeFields(): seq<string> {
    ["runtime_selected", "runtime_confirmed", "runtime_observed_at", "runtime_error", "candidate_labels",
     "candidate_count", "availability_ok", "shortlist", "latency_comparisons", "last_latency_comparisons"]
  }

  /** No response takes a newer readback back: the status keeps the latest time, and every one of the ten
      runtime fields that the latest readback has. */
  lemma StatusKeepsNewest(clock: Clock, responses: seq<Json>, key: string, w: nat, t: int, field: string)
    requires Newest(clock, responses, key, w, t)
    requires field in RuntimeFields()
    ensures Status(clock, responses).Some? && ReadAt(clock, Status(clock, responses).value, key, t)
    ensures var was, now := Readback(responses[w], key).value, Readback(Status(clock, responses).value, key).value;
            field in was ==> field in now && now[field] == was[field]
  {
    var rs := Reports(responses, key);
    NewestIsWinner(clock, responses, key, w, t);
    StatusTime(clock, responses, key);
    ReadbackIsSelector(clock, responses[w], key);
    ReadbackIsSelector(clock, Status(clock, responses).value, key);
    assert field in PROTECTED;
    if field in rs[w] {
      WinnerField(clock, rs, w, field);
      StatusIsMerged(clock, responses, key);
    }
  }

  lemma FieldsAreProtected(field: string)
    ensures field in PROTECTED <==> field in RuntimeFields()
  {
    assert PROTECTED == RuntimeFields();
  }

  /** Every other field of a selector comes from the last response that has it. */
  lemma StatusOtherField(clock: Clock, responses: seq<Json>, key: string, field: string, j: nat)
    requires field !in RuntimeFields() && j < |responses|
    requires Readback(responses[j], key).Some? && field in Readback(responses[j], key).value
    requires forall i: nat :: j < i < |responses| && Readback(responses[i], key).Some? ==> field !in Readback(responses[i], key).value
    ensures Status(clock, responses).Some? && Readback(Status(clock, responses).value, key).Some?
    ensures Get(Readback(Status(clock, responses).value, key).value, field) == Some(Readback(responses[j], key).value[field])
  {
    var rs := Reports(responses, key);
    FieldsAreProtected(field);
    forall i: nat | i < |responses| ensures rs[i] == OrElse(Readback(responses[i], key), map[]) {
      ReadbackIsSelector(clock, responses[i], key);
    }
    OtherField(clock, rs, field, j);
    StatusIsMerged(clock, responses, key);
    ReadbackIsSelector(clock, Status(clock, responses).value, key);
  }
}
