/**
 The draft autosave protocol: a class whose fields are the source's, driven by the events that can
 happen between two awaits, and what holds in every state that any interleaving of them reaches.
 */
module Autosave {
  import opened Options

  /** One started flush: its callback waits to run, or awaits the save it issued for `version`. */
  datatype Task = Queued | Saving(version: nat, startedAt: nat)

  /** How a finished flush will settle, and the version it saw last. */
  datatype Result = Fulfilled(version: nat) | Rejected

  datatype SaveCall = SaveCall(version: nat, startedAt: nat, ok: bool)

  datatype DiscardCall = DiscardCall(version: nat, at: nat)

  /** Why nothing is under way although edits are pending. */
  datatype Halt = Running | FailedSave | Disposed

  /** The event loop around the object, and the history that the claims speak of. */
  datatype Loop = Loop(
    armed: set<nat>,            // timers that will fire
    tasks: map<nat, Task>,      // started flushes that have not finished
    settling: map<nat, Result>, // finished flushes whose promise has not settled yet
    nextId: nat,
    shownPending: bool, shownSaving: bool, // last values given to the callbacks
    halted: Halt,
    clock: nat,                 // events so far
    edits: seq<nat>,            // when each version was made
    discards: seq<DiscardCall>, // discards that took effect
    saves: seq<SaveCall>,       // saves that have come back
    errors: nat)                // calls of the error callback

  datatype State = State(version: nat, savedVersion: nat, timer: Option<nat>, inFlight: Option<nat>, loop: Loop) {
    predicate Pending() { version != savedVersion }
  }

  const INITIAL := State(0, 0, None, None, Loop({}, map[], map[], 0, false, false, Running, 0, [], [], [], 0))

  datatype Event = Update | TimerFires(timerId: nat) | Flush | Start(id: nat)
                 | SaveSucceeds(id: nat) | SaveFails(id: nat) | Settle(id: nat) | Discard | Dispose

  predicate Enabled(s: State, e: Event) {
    match e
    case Update => true
    case TimerFires(t) => t in s.loop.armed
    case Flush => true
    case Start(id) => id in s.loop.tasks && s.loop.tasks[id].Queued?
    case SaveSucceeds(id) => id in s.loop.tasks && s.loop.tasks[id].Saving?
    case SaveFails(id) => id in s.loop.tasks && s.loop.tasks[id].Saving?
    case Settle(id) => id in s.loop.settling
    case Discard => true
    case Dispose => true
  }

  // ----- Steps

  function Tick(s: State): State { s.(loop := s.loop.(clock := s.loop.clock + 1)) }

  function TimerCleared(s: State): State {
    match s.timer
    case Some(t) => s.(timer := None, loop := s.loop.(armed := s.loop.armed - {t}))
    case None => s
  }

  function DoUpdate(s: State): State {
    var t := TimerCleared(s.(version := s.version + 1,
                           loop := s.loop.(shownPending := true, halted := Running, edits := s.loop.edits + [s.loop.clock])));
    t.(timer := Some(t.loop.nextId),
       loop := t.loop.(armed := t.loop.armed + {t.loop.nextId}, nextId := t.loop.nextId + 1))
  }

  function DoFlush(s: State): State {
    var t := TimerCleared(s.(loop := s.loop.(halted := Running)));
    if t.inFlight.Some? || !t.Pending() then t
    else t.(inFlight := Some(t.loop.nextId),
            loop := t.loop.(tasks := t.loop.tasks[t.loop.nextId := Queued], nextId := t.loop.nextId + 1))
  }

  /** The `finally` block; the promise settles later. */
  function Finish(s: State, id: nat, result: Result): State {
    var t := TimerCleared(s);
    t.(inFlight := None,
       loop := t.loop.(shownSaving := false, tasks := t.loop.tasks - {id}, settling := t.loop.settling[id := result]))
  }

  /** The head of the save loop: another save, or the end. */
  function LoopHead(s: State, id: nat): State {
    if s.Pending() then s.(loop := s.loop.(tasks := s.loop.tasks[id := Saving(s.version, s.loop.clock)]))
    else Finish(s, id, Fulfilled(s.version))
  }

  function DoStart(s: State, id: nat): State { LoopHead(s.(loop := s.loop.(shownSaving := true)), id) }

  function Recorded(s: State, call: SaveCall): State { s.(loop := s.loop.(saves := s.loop.saves + [call])) }

  function DoSucceed(s: State, id: nat): State
    requires id in s.loop.tasks && s.loop.tasks[id].Saving?
  {
    var v := s.loop.tasks[id].version;
    var t := Recorded(s, SaveCall(v, s.loop.tasks[id].startedAt, true)).(savedVersion := v);
    LoopHead(t.(loop := t.loop.(shownPending := t.Pending())), id)
  }

  function DoFail(s: State, id: nat): State
    requires id in s.loop.tasks && s.loop.tasks[id].Saving?
  {
    var t := Recorded(s, SaveCall(s.loop.tasks[id].version, s.loop.tasks[id].startedAt, false));
    Finish(t.(loop := t.loop.(halted := FailedSave, errors := t.loop.errors + 1)), id, Rejected)
  }

  /** Throws, and changes nothing, while a flush is in flight. */
  function DoDiscard(s: State): State {
    if s.inFlight.Some? then s
    else
      var t := TimerCleared(s);
      t.(savedVersion := t.version,
         loop := t.loop.(shownPending := false, discards := t.loop.discards + [DiscardCall(t.version, t.loop.clock)]))
  }

  function DoDispose(s: State): State { TimerCleared(s.(loop := s.loop.(halted := Disposed))) }

  function Step(s: State, e: Event): State
    requires Enabled(s, e)
  {
    Tick(match e
         case Update => DoUpdate(s)
         case TimerFires(t) => DoFlush(s.(loop := s.loop.(armed := s.loop.armed - {t})))
         case Flush => DoFlush(s)
         case Start(id) => DoStart(s, id)
         case SaveSucceeds(id) => DoSucceed(s, id)
         case SaveFails(id) => DoFail(s, id)
         case Settle(id) => s.(loop := s.loop.(settling := s.loop.settling - {id}))
         case Discard => DoDiscard(s)
         case Dispose => DoDispose(s))
  }

  /** Every event of the run can happen when it does. */
  ghost predicate Legal(s: State, run: seq<Event>)
    decreases |run|
  {
    run == [] || (Enabled(s, run[0]) && Legal(Step(s, run[0]), run[1..]))
  }

  function After(s: State, run: seq<Event>): State
    requires Legal(s, run)
    decreases |run|
  {
    if run == [] then s else After(Step(s, run[0]), run[1..])
  }

  // ----- What edits are covered by

  /** A save that started after the edit came back successfully. */
  ghost predicate Persisted(l: Loop, k: nat)
    requires k < |l.edits|
  {
    exists i :: 0 <= i < |l.saves| && l.saves[i].ok && l.edits[k] < l.saves[i].startedAt
  }

  /** The draft was discarded after the edit. */
  ghost predicate Discarded(l: Loop, k: nat)
    requires k < |l.edits|
  {
    exists i :: 0 <= i < |l.discards| && l.edits[k] < l.discards[i].at
  }

  ghost predicate Covered(l: Loop, k: nat)
    requires k < |l.edits|
  {
    Persisted(l, k) || Discarded(l, k)
  }

  // ----- The invariant

  /** At most one flush is under way, and the object knows it. */
  ghost predicate SingleFlight(s: State) {
    s.loop.tasks.Keys == (match s.inFlight case Some(id) => {id} case None => {})
  }

  /** At most one timer is armed, and the object knows it. */
  ghost predicate SingleTimer(s: State) {
    s.loop.armed == (match s.timer case Some(t) => {t} case None => {})
  }

  ghost predicate IdsFresh(s: State) {
    && (forall t :: t in s.loop.armed ==> t < s.loop.nextId)
    && (forall id :: id in s.loop.tasks ==> id < s.loop.nextId)
    && (forall id :: id in s.loop.settling ==> id < s.loop.nextId && id !in s.loop.tasks)
  }

  ghost predicate Timeline(s: State) {
    && |s.loop.edits| == s.version
    && (forall k :: 0 <= k < |s.loop.edits| ==> s.loop.edits[k] < s.loop.clock)
    && (forall i, j :: 0 <= i < j < |s.loop.edits| ==> s.loop.edits[i] < s.loop.edits[j])
  }

  /** `v` versions existed at time `t`. */
  ghost predicate VersionAt(l: Loop, v: nat, t: nat) {
    && v <= |l.edits| && t < l.clock
    && (forall k :: 0 <= k < v ==> l.edits[k] < t)
    && (forall k :: v <= k < |l.edits| ==> t < l.edits[k])
  }

  /** A flush in flight has something to save, and what it saves is newer than what is saved. */
  ghost predicate Useful(s: State) {
    && (s.inFlight.Some? ==> s.savedVersion < s.version)
    && (forall id :: id in s.loop.tasks && s.loop.tasks[id].Saving? ==>
          && s.savedVersion < s.loop.tasks[id].version
          && VersionAt(s.loop, s.loop.tasks[id].version, s.loop.tasks[id].startedAt))
  }

  /** What came back and what was discarded stays within the saved version. */
  ghost predicate Accounted(s: State) {
    && s.savedVersion <= s.version
    && (forall i :: 0 <= i < |s.loop.saves| && s.loop.saves[i].ok ==>
          s.loop.saves[i].version <= s.savedVersion && VersionAt(s.loop, s.loop.saves[i].version, s.loop.saves[i].startedAt))
    && (forall i :: 0 <= i < |s.loop.discards| ==>
          s.loop.discards[i].version <= s.savedVersion && VersionAt(s.loop, s.loop.discards[i].version, s.loop.discards[i].at))
    && (forall i, j :: 0 <= i < j < |s.loop.saves| && s.loop.saves[i].ok && s.loop.saves[j].ok ==>
          s.loop.saves[i].version < s.loop.saves[j].version)
    && (forall id :: id in s.loop.settling && s.loop.settling[id].Fulfilled? ==> s.loop.settling[id].version <= s.savedVersion)
  }

  /** Every edit up to the saved version was persisted by a later save or discarded. */
  ghost predicate AllCovered(s: State) {
    s.savedVersion <= |s.loop.edits| && forall k: nat :: k < s.savedVersion ==> Covered(s.loop, k)
  }

  function Failed(saves: seq<SaveCall>): nat {
    if saves == [] then 0 else Failed(saves[..|saves| - 1]) + if saves[|saves| - 1].ok then 0 else 1
  }

  lemma FailedStep(saves: seq<SaveCall>, call: SaveCall)
    ensures Failed(saves + [call]) == Failed(saves) + if call.ok then 0 else 1
  {
    assert (saves + [call])[..|saves|] == saves;
  }

  /** The callbacks were told the truth. */
  ghost predicate Truthful(s: State) {
    && s.loop.shownPending == s.Pending()
    && (s.loop.shownSaving <==> exists id :: id in s.loop.tasks && s.loop.tasks[id].Saving?)
  }

  /** The error callback was called for every failed save. */
  ghost predicate ErrorsShown(s: State) { s.loop.errors == Failed(s.loop.saves) }

  /** Pending edits are under way, or were stopped by a failure or a dispose; a timer is armed only for
      pending edits. */
  ghost predicate Live(s: State) {
    && (s.Pending() ==> s.timer.Some? || s.inFlight.Some? || s.loop.halted != Running)
    && (s.timer.Some? ==> s.Pending())
  }

  ghost predicate Inv(s: State) {
    && SingleFlight(s) && SingleTimer(s) && IdsFresh(s) && Timeline(s)
    && Useful(s) && Accounted(s) && AllCovered(s) && Truthful(s) && ErrorsShown(s) && Live(s)
  }

  // ----- Every step keeps it

  /** What is covered stays covered as the history grows. */
  lemma CoveredGrows(a: Loop, b: Loop, k: nat)
    requires k < |a.edits| && a.edits <= b.edits && a.saves <= b.saves && a.discards <= b.discards
    requires Covered(a, k)
    ensures Covered(b, k)
  {
  }

  lemma CoverageKept(s: State, t: State)
    requires AllCovered(s) && t.savedVersion == s.savedVersion
    requires s.loop.edits <= t.loop.edits && s.loop.saves <= t.loop.saves && s.loop.discards <= t.loop.discards
    ensures AllCovered(t)
  {
    forall k: nat | k < t.savedVersion ensures Covered(t.loop, k) { CoveredGrows(s.loop, t.loop, k); }
  }

  /** The step edits, saves and discards nothing. */
  ghost predicate SameHistory(s: State, t: State) {
    && t.version == s.version && t.savedVersion == s.savedVersion
    && t.loop.edits == s.loop.edits && t.loop.discards == s.loop.discards && s.loop.clock <= t.loop.clock
    && (t.loop.saves == s.loop.saves
        || (s.loop.saves < t.loop.saves && |t.loop.saves| == |s.loop.saves| + 1 && !t.loop.saves[|s.loop.saves|].ok))
    && (forall id :: id in t.loop.settling && id !in s.loop.settling && t.loop.settling[id].Fulfilled? ==>
          t.loop.settling[id].version <= s.savedVersion)
    && (forall id :: id in t.loop.settling && id in s.loop.settling ==> t.loop.settling[id] == s.loop.settling[id])
  }

  lemma HistoryKept(s: State, t: State)
    requires Timeline(s) && Accounted(s) && AllCovered(s) && SameHistory(s, t)
    ensures Timeline(t) && Accounted(t) && AllCovered(t)
  {
    CoverageKept(s, t);
    forall v, at | VersionAt(s.loop, v, at) ensures VersionAt(t.loop, v, at) { }
  }

  /** The bookkeeping of timers, flushes and callbacks. */
  ghost predicate Orderly(s: State) {
    SingleFlight(s) && SingleTimer(s) && IdsFresh(s) && Useful(s) && Truthful(s) && Live(s)
  }

  lemma InitInv()
    ensures Inv(INITIAL)
  {
  }

  /** A new edit comes after everything recorded. */
  lemma EditIsLast(s: State, v: nat, t: nat)
    requires Inv(s) && VersionAt(s.loop, v, t)
    ensures VersionAt(Step(s, Update).loop, v, t)
  {
  }

  lemma UpdateHistory(s: State)
    requires Inv(s)
    ensures Timeline(Step(s, Update)) && Useful(Step(s, Update)) && Accounted(Step(s, Update))
  {
    var u := Step(s, Update);
    forall v, t | VersionAt(s.loop, v, t) ensures VersionAt(u.loop, v, t) { EditIsLast(s, v, t); }
    assert u.loop.saves == s.loop.saves && u.loop.discards == s.loop.discards && u.loop.tasks == s.loop.tasks;
    assert u.loop.edits == s.loop.edits + [s.loop.clock];
  }

  lemma UpdateKeeps(s: State)
    requires Inv(s)
    ensures Inv(Step(s, Update))
  {
    UpdateHistory(s);
    CoverageKept(s, Step(s, Update));
  }

  lemma FlushOrderly(s: State)
    requires Inv(s)
    ensures Orderly(Step(s, Flush))
  {
  }

  lemma FlushKeeps(s: State)
    requires Inv(s)
    ensures Inv(Step(s, Flush))
  {
    HistoryKept(s, Step(s, Flush));
    FlushOrderly(s);
  }

  lemma TimerOrderly(s: State, t: nat)
    requires Inv(s) && Enabled(s, TimerFires(t))
    ensures Orderly(Step(s, TimerFires(t)))
  {
  }

  lemma TimerKeeps(s: State, t: nat)
    requires Inv(s) && Enabled(s, TimerFires(t))
    ensures Inv(Step(s, TimerFires(t)))
  {
    HistoryKept(s, Step(s, TimerFires(t)));
    TimerOrderly(s, t);
  }

  lemma StartOrderly(s: State, id: nat)
    requires Inv(s) && Enabled(s, Start(id))
    ensures Orderly(Step(s, Start(id)))
  {
  }

  lemma StartKeeps(s: State, id: nat)
    requires Inv(s) && Enabled(s, Start(id))
    ensures Inv(Step(s, Start(id)))
  {
    HistoryKept(s, Step(s, Start(id)));
    StartOrderly(s, id);
  }

  /** A successful save covers every edit made before it started. */
  lemma SucceedCovers(s: State, id: nat)
    requires Inv(s) && Enabled(s, SaveSucceeds(id))
    ensures AllCovered(Step(s, SaveSucceeds(id)))
  {
    var t, call := Step(s, SaveSucceeds(id)), s.loop.tasks[id];
    assert t.loop.saves == s.loop.saves + [SaveCall(call.version, call.startedAt, true)];
    forall k: nat | k < t.savedVersion ensures Covered(t.loop, k) {
      assert t.loop.saves[|s.loop.saves|].ok && t.loop.edits[k] < t.loop.saves[|s.loop.saves|].startedAt;
    }
  }

  lemma SaveRecorded(s: State, t: State, call: SaveCall)
    requires Timeline(s) && Accounted(s) && call.ok && s.savedVersion < call.version
    requires VersionAt(s.loop, call.version, call.startedAt)
    requires t.version == s.version && t.savedVersion == call.version && t.loop.saves == s.loop.saves + [call]
    requires t.loop.edits == s.loop.edits && t.loop.discards == s.loop.discards && s.loop.clock <= t.loop.clock
    requires forall id :: id in t.loop.settling && t.loop.settling[id].Fulfilled? ==>
               t.loop.settling[id].version <= call.version
    ensures Timeline(t) && Accounted(t)
  {
    forall v, at | VersionAt(s.loop, v, at) ensures VersionAt(t.loop, v, at) { }
  }

  lemma SucceedHistory(s: State, id: nat)
    requires Inv(s) && Enabled(s, SaveSucceeds(id))
    ensures var t := Step(s, SaveSucceeds(id)); Timeline(t) && Accounted(t)
  {
    var t, call := Step(s, SaveSucceeds(id)), s.loop.tasks[id];
    SaveRecorded(s, t, SaveCall(call.version, call.startedAt, true));
  }

  lemma BackErrors(s: State, id: nat, e: Event)
    requires Inv(s) && Enabled(s, e) && (e == SaveSucceeds(id) || e == SaveFails(id))
    ensures ErrorsShown(Step(s, e))
  {
    FailedStep(s.loop.saves, SaveCall(s.loop.tasks[id].version, s.loop.tasks[id].startedAt, e.SaveSucceeds?));
  }

  lemma SucceedOrderly(s: State, id: nat)
    requires Inv(s) && Enabled(s, SaveSucceeds(id))
    ensures Orderly(Step(s, SaveSucceeds(id)))
  {
    assert s.inFlight == Some(id);
  }

  lemma SucceedKeeps(s: State, id: nat)
    requires Inv(s) && Enabled(s, SaveSucceeds(id))
    ensures Inv(Step(s, SaveSucceeds(id)))
  {
    SucceedCovers(s, id);
    SucceedHistory(s, id);
    SucceedOrderly(s, id);
    BackErrors(s, id, SaveSucceeds(id));
  }

  lemma FailOrderly(s: State, id: nat)
    requires Inv(s) && Enabled(s, SaveFails(id))
    ensures Orderly(Step(s, SaveFails(id)))
  {
  }

  lemma FailKeeps(s: State, id: nat)
    requires Inv(s) && Enabled(s, SaveFails(id))
    ensures Inv(Step(s, SaveFails(id)))
  {
    HistoryKept(s, Step(s, SaveFails(id)));
    FailOrderly(s, id);
    BackErrors(s, id, SaveFails(id));
  }

  lemma SettleKeeps(s: State, id: nat)
    requires Inv(s) && Enabled(s, Settle(id))
    ensures Inv(Step(s, Settle(id)))
  {
    HistoryKept(s, Step(s, Settle(id)));
  }

  lemma DiscardCovers(s: State)
    requires Inv(s)
    ensures AllCovered(Step(s, Discard))
  {
    var t := Step(s, Discard);
    if s.inFlight.Some? {
      CoverageKept(s, t);
    } else {
      forall k: nat | k < t.savedVersion ensures Covered(t.loop, k) {
        assert t.loop.edits[k] < t.loop.discards[|s.loop.discards|].at;
      }
    }
  }

  lemma DiscardRecorded(s: State, t: State)
    requires Timeline(s) && Accounted(s) && t.version == s.version && t.savedVersion == s.version
    requires t.loop.edits == s.loop.edits && t.loop.saves == s.loop.saves && t.loop.settling == s.loop.settling
    requires t.loop.discards == s.loop.discards + [DiscardCall(s.version, s.loop.clock)] && s.loop.clock < t.loop.clock
    ensures Timeline(t) && Accounted(t)
  {
  }

  lemma DiscardOrderly(s: State)
    requires Inv(s)
    ensures Orderly(Step(s, Discard))
  {
  }

  lemma DiscardKeeps(s: State)
    requires Inv(s)
    ensures Inv(Step(s, Discard))
  {
    if s.inFlight.Some? { HistoryKept(s, Step(s, Discard)); } else { DiscardRecorded(s, Step(s, Discard)); }
    DiscardCovers(s);
    DiscardOrderly(s);
  }

  lemma DisposeOrderly(s: State)
    requires Inv(s)
    ensures Orderly(Step(s, Dispose))
  {
  }

  lemma DisposeKeeps(s: State)
    requires Inv(s)
    ensures Inv(Step(s, Dispose))
  {
    HistoryKept(s, Step(s, Dispose));
    DisposeOrderly(s);
  }

  lemma StepKeeps(s: State, e: Event)
    requires Inv(s) && Enabled(s, e)
    ensures Inv(Step(s, e))
  {
    match e
    case Update => UpdateKeeps(s);
    case TimerFires(t) => TimerKeeps(s, t);
    case Flush => FlushKeeps(s);
    case Start(id) => StartKeeps(s, id);
    case SaveSucceeds(id) => SucceedKeeps(s, id);
    case SaveFails(id) => FailKeeps(s, id);
    case Settle(id) => SettleKeeps(s, id);
    case Discard => DiscardKeeps(s);
    case Dispose => DisposeKeeps(s);
  }

  lemma {:induction false} RunKeeps(s: State, run: seq<Event>)
    requires Inv(s) && Legal(s, run)
    ensures Inv(After(s, run))
    decreases |run|
  {
    if run != [] {
      StepKeeps(s, run[0]);
      RunKeeps(Step(s, run[0]), run[1..]);
    }
  }

  // ----- What follows in every reachable state

  ghost predicate Reachable(s: State) {
    exists run :: Legal(INITIAL, run) && s == After(INITIAL, run)
  }

  lemma ReachableInv(s: State)
    requires Reachable(s)
    ensures Inv(s)
  {
    InitInv();
    var run :| Legal(INITIAL, run) && s == After(INITIAL, run);
    RunKeeps(INITIAL, run);
  }

  /** At most one save is outstanding and at most one timer is armed; the saved version never runs
      ahead; the callbacks' last values are true; saves are never repeated for the same draft. */
  lemma AlwaysSafe(s: State)
    requires Reachable(s)
    ensures |s.loop.tasks| <= 1 && |s.loop.armed| <= 1 && s.savedVersion <= s.version
    ensures s.loop.shownPending == s.Pending()
    ensures s.loop.shownSaving <==> exists id :: id in s.loop.tasks && s.loop.tasks[id].Saving?
    ensures s.loop.errors == Failed(s.loop.saves) && (s.loop.armed != {} ==> s.Pending())
    ensures forall i, j :: 0 <= i < j < |s.loop.saves| && s.loop.saves[i].ok && s.loop.saves[j].ok ==>
              s.loop.saves[i].version < s.loop.saves[j].version
  {
    ReachableInv(s);
    assert |s.loop.tasks| == |s.loop.tasks.Keys|;
  }

  /** Pending edits have an armed timer or a flush in flight, unless the last save failed or the
      object was disposed and neither an update nor a flush came since. */
  lemma AlwaysLive(s: State)
    requires Reachable(s) && s.Pending()
    ensures s.timer.Some? || s.inFlight.Some? || s.loop.halted == FailedSave || s.loop.halted == Disposed
    ensures s.timer.Some? ==> s.timer.value in s.loop.armed
    ensures s.inFlight.Some? ==> s.inFlight.value in s.loop.tasks
  {
    ReachableInv(s);
  }

  /** An edit counts as saved exactly when a save that started after it succeeded, or it was discarded. */
  lemma CoveredExactly(s: State, k: nat)
    requires Inv(s) && k < s.version
    ensures Covered(s.loop, k) <==> k < s.savedVersion
  {
  }

  ghost predicate EverythingCovered(s: State)
    requires |s.loop.edits| == s.version
  {
    forall k: nat :: k < s.version ==> Covered(s.loop, k)
  }

  lemma CoveredWhenSaved(s: State)
    requires Inv(s)
    ensures EverythingCovered(s) <==> !s.Pending()
  {
    forall k: nat | k < s.version ensures Covered(s.loop, k) <==> k < s.savedVersion { CoveredExactly(s, k); }
    if s.Pending() { assert !Covered(s.loop, s.savedVersion); }
  }

  /** The draft is not pending exactly when every edit was persisted by a later save or discarded. */
  lemma PendingExactly(s: State)
    requires Reachable(s)
    ensures |s.loop.edits| == s.version
    ensures !s.Pending() <==> EverythingCovered(s)
  {
    ReachableInv(s);
    CoveredWhenSaved(s);
  }

  // ----- Flush promises

  lemma SavedGrows(s: State, e: Event)
    requires Inv(s) && Enabled(s, e)
    ensures s.savedVersion <= Step(s, e).savedVersion
    ensures !e.SaveSucceeds? && !e.Discard? ==> s.savedVersion == Step(s, e).savedVersion
    ensures Step(s, e).version == s.version + if e.Update? then 1 else 0
  {
    if e.SaveSucceeds? { assert s.loop.tasks[e.id].Saving?; }
  }

  lemma {:induction false} RunGrows(s: State, run: seq<Event>)
    requires Inv(s) && Legal(s, run)
    ensures s.savedVersion <= After(s, run).savedVersion
    decreases |run|
  {
    if run != [] {
      SavedGrows(s, run[0]);
      StepKeeps(s, run[0]);
      RunGrows(Step(s, run[0]), run[1..]);
    }
  }

  /** The flush `id` finishes successfully in this step; its promise is about to settle. */
  ghost predicate Finishes(s: State, e: Event, id: nat)
    requires Enabled(s, e)
  {
    id in s.loop.tasks && id in Step(s, e).loop.settling && Step(s, e).loop.settling[id].Fulfilled?
  }

  /** A flush finishes only when nothing is left to save, edits made during its saves included. */
  lemma FinishSeesEverything(s: State, e: Event, id: nat)
    requires Inv(s) && Enabled(s, e) && Finishes(s, e, id)
    ensures !Step(s, e).Pending() && Step(s, e).loop.settling[id] == Fulfilled(Step(s, e).version)
    ensures e.SaveSucceeds?
  {
  }

  /** When a flush promise is fulfilled, every edit made before the flush finished is covered by a
      save that started after the edit, or was discarded. */
  lemma FlushCovers(s: State, e: Event, id: nat, gap: seq<Event>)
    requires Reachable(s) && Enabled(s, e) && Finishes(s, e, id) && Legal(Step(s, e), gap)
    ensures var done, now := Step(s, e), After(Step(s, e), gap);
            done.version <= |now.loop.edits| && forall k: nat :: k < done.version ==> Covered(now.loop, k)
  {
    ReachableInv(s);
    FinishSeesEverything(s, e, id);
    StepKeeps(s, e);
    RunKeeps(Step(s, e), gap);
    RunGrows(Step(s, e), gap);
  }

  /** No save comes back and nothing is discarded. */
  predicate Quiet(run: seq<Event>) { forall e :: e in run ==> !e.SaveSucceeds? && !e.Discard? }

  lemma {:induction false} QuietRun(s: State, run: seq<Event>)
    requires Inv(s) && Legal(s, run) && Quiet(run)
    ensures After(s, run).savedVersion == s.savedVersion && After(s, run).version >= s.version
    ensures After(s, run).version == s.version <==> Update !in run
    decreases |run|
  {
    if run != [] {
      assert run[0] in run && forall e :: e in run[1..] ==> e in run;
      SavedGrows(s, run[0]);
      StepKeeps(s, run[0]);
      QuietRun(Step(s, run[0]), run[1..]);
      assert run == [run[0]] + run[1..];
    }
  }

  /** Between the end of a flush and the moment its promise is seen to be fulfilled there is a gap. In
      it, too, every edit made so far is covered exactly when the draft is not pending: certainly if no
      edit fell into the gap, and only then if no save came back and nothing was discarded in it. */
  lemma GapExactly(s: State, e: Event, id: nat, gap: seq<Event>)
    requires Reachable(s) && Enabled(s, e) && Finishes(s, e, id) && Legal(Step(s, e), gap)
    ensures var now := After(Step(s, e), gap);
            && |now.loop.edits| == now.version && (EverythingCovered(now) <==> !now.Pending())
            && (Update !in gap ==> EverythingCovered(now))
            && (Quiet(gap) && EverythingCovered(now) ==> Update !in gap)
  {
    ReachableInv(s);
    FinishSeesEverything(s, e, id);
    StepKeeps(s, e);
    RunKeeps(Step(s, e), gap);
    CoveredWhenSaved(After(Step(s, e), gap));
    GapVersions(Step(s, e), gap);
  }

  lemma GapVersions(s: State, gap: seq<Event>)
    requires Inv(s) && Legal(s, gap) && !s.Pending()
    ensures Update !in gap ==> !After(s, gap).Pending()
    ensures Quiet(gap) && Update in gap ==> After(s, gap).Pending()
  {
    if Quiet(gap) { QuietRun(s, gap); }
    if Update !in gap {
      NoEditRun(s, gap);
      RunGrows(s, gap);
      RunKeeps(s, gap);
    }
  }

  lemma {:induction false} NoEditRun(s: State, run: seq<Event>)
    requires Inv(s) && Legal(s, run) && Update !in run
    ensures After(s, run).version == s.version
    decreases |run|
  {
    if run != [] {
      assert run[0] in run && forall e :: e in run[1..] ==> e in run;
      SavedGrows(s, run[0]);
      StepKeeps(s, run[0]);
      NoEditRun(Step(s, run[0]), run[1..]);
    }
  }

  function GapRun(): seq<Event> { [Update, Flush, Start(1), SaveSucceeds(1), Update] }

  /** A run that ends with a fulfilled promise about to settle while the last edit is not saved. */
  lemma GapExists()
    ensures Legal(INITIAL, GapRun())
    ensures var s := After(INITIAL, GapRun());
            Enabled(s, Settle(1)) && s.loop.settling[1] == Fulfilled(1) && s.version == 2
            && !Persisted(s.loop, 1) && !Discarded(s.loop, 1)
  {
    var r := GapRun();
    var s1 := Step(INITIAL, r[0]);
    var s2 := Step(s1, r[1]);
    assert s2.loop.tasks[1] == Queued;
    var s3 := Step(s2, r[2]);
    assert s3.loop.tasks[1] == Saving(1, 2);
    var s4 := Step(s3, r[3]);
    assert s4.loop.settling[1] == Fulfilled(1);
    var s5 := Step(s4, r[4]);
    assert r[1..][1..] == r[2..] && r[2..][1..] == r[3..] && r[3..][1..] == r[4..] && r[4..][1..] == [];
    assert Legal(s4, r[4..]) && Legal(s3, r[3..]) && Legal(s2, r[2..]) && Legal(s1, r[1..]);
    assert After(s4, r[4..]) == s5 && After(s3, r[3..]) == s5 && After(s2, r[2..]) == s5 && After(s1, r[1..]) == s5;
  }

  // ----- What is under way gets there

  /** Events that need no user and no failure: a timer fires, a flush starts, a save succeeds. */
  predicate Automatic(e: Event) { e.TimerFires? || e.Start? || e.SaveSucceeds? }

  predicate AutomaticRun(run: seq<Event>) { forall e :: e in run ==> Automatic(e) }

  /** How many automatic events the flush in flight is away from its end. */
  function FlushWork(s: State): nat {
    match s.inFlight
    case None => 0
    case Some(id) =>
      if id !in s.loop.tasks || s.loop.tasks[id].Queued? then 3
      else if s.loop.tasks[id].version != s.version then 2 else 1
  }

  /** How many automatic events can follow at most. */
  function Work(s: State): nat {
    if s.timer.None? then FlushWork(s) else if s.inFlight.None? && s.Pending() then 4 else FlushWork(s) + 1
  }

  lemma AutomaticShrinks(s: State, e: Event)
    requires Inv(s) && Enabled(s, e) && Automatic(e)
    ensures Work(Step(s, e)) < Work(s) && Step(s, e).loop.halted == if e.TimerFires? then Running else s.loop.halted
  {
    match e {
      case TimerFires(t) => assert s.timer == Some(t);
      case Start(id) => assert s.inFlight == Some(id);
      case SaveSucceeds(id) => assert s.inFlight == Some(id);
    }
  }

  lemma {:induction false} AutomaticRunShrinks(s: State, run: seq<Event>)
    requires Inv(s) && Legal(s, run) && AutomaticRun(run)
    ensures |run| + Work(After(s, run)) <= Work(s)
    ensures s.loop.halted == Running ==> After(s, run).loop.halted == Running
    decreases |run|
  {
    if run != [] {
      assert run[0] in run && forall e :: e in run[1..] ==> e in run;
      AutomaticShrinks(s, run[0]);
      StepKeeps(s, run[0]);
      AutomaticRunShrinks(Step(s, run[0]), run[1..]);
    }
  }

  /** The automatic event that is due, if edits are under way. */
  function Due(s: State): Event {
    match s.inFlight
    case None => TimerFires(OrElse(s.timer, 0))
    case Some(id) => if id in s.loop.tasks && s.loop.tasks[id].Saving? then SaveSucceeds(id) else Start(id)
  }

  /** From every reachable state whose edits are under way: no more than four automatic events can
      follow, in any order, and as long as an edit is not saved one of them can. */
  lemma EditsGetSaved(s: State, run: seq<Event>)
    requires Reachable(s) && s.loop.halted == Running && Legal(s, run) && AutomaticRun(run)
    ensures |run| <= 4
    ensures var t := After(s, run); t.Pending() ==> Automatic(Due(t)) && Enabled(t, Due(t))
  {
    ReachableInv(s);
    RunKeeps(s, run);
    AutomaticRunShrinks(s, run);
    if After(s, run).Pending() { UnderWay(After(s, run)); }
  }

  lemma UnderWay(s: State)
    requires Inv(s) && s.Pending() && s.loop.halted == Running
    ensures Automatic(Due(s)) && Enabled(s, Due(s))
  {
    if s.inFlight.Some? { assert s.inFlight.value in s.loop.tasks; }
  }

  // ----- Single events

  predicate Still(s: State) { s.timer == None && s.loop.armed == {} }

  /** An edit makes the draft pending, cancels the old timer and arms a new one, and says so. */
  lemma UpdateArms(s: State)
    requires Reachable(s)
    ensures var t := Step(s, Update);
            && t.version == s.version + 1 && t.savedVersion == s.savedVersion && t.Pending() && t.loop.shownPending
            && t.timer.Some? && t.loop.armed == {t.timer.value} && t.timer != s.timer
            && t.inFlight == s.inFlight && t.loop.tasks == s.loop.tasks && t.loop.saves == s.loop.saves
  {
    ReachableInv(s);
  }

  /** A flush, asked for or timed, leaves no timer; it starts a save loop exactly when there is something
      to save and none is under way. */
  lemma FlushStarts(s: State, e: Event)
    requires Reachable(s) && Enabled(s, e) && (e.Flush? || e.TimerFires?)
    ensures var t := Step(s, e);
            && Still(t) && t.version == s.version && t.savedVersion == s.savedVersion
            && (if s.inFlight.None? && s.Pending()
                then t.inFlight.Some? && t.loop.tasks == map[t.inFlight.value := Queued]
                else t.inFlight == s.inFlight && t.loop.tasks == s.loop.tasks)
  {
    ReachableInv(s);
    var t := Step(s, e);
    assert s.inFlight.None? ==> s.loop.tasks == map[] by {
      if s.inFlight.None? { assert s.loop.tasks.Keys == {}; }
    }
  }

  /** A successful save counts for the version it started from. If that is not the current one the next
      save starts at once; otherwise the flush ends and leaves no timer. */
  lemma SuccessGoesOn(s: State, id: nat)
    requires Reachable(s) && Enabled(s, SaveSucceeds(id))
    ensures var t, v := Step(s, SaveSucceeds(id)), s.loop.tasks[id].version;
            && t.savedVersion == v && t.version == s.version && t.loop.shownPending == (v != s.version)
            && (if v != s.version then t.inFlight == Some(id) && t.loop.tasks == map[id := Saving(s.version, s.loop.clock)]
                else Still(t) && t.inFlight == None && t.loop.tasks == map[] && !t.loop.shownSaving
                     && id in t.loop.settling && t.loop.settling[id] == Fulfilled(v))
  {
    ReachableInv(s);
    assert s.inFlight == Some(id);
    assert s.loop.tasks.Keys == {id};
  }

  /** A started flush says so and issues its first save for the current version. */
  lemma StartSaves(s: State, id: nat)
    requires Reachable(s) && Enabled(s, Start(id))
    ensures var t := Step(s, Start(id));
            t.loop.shownSaving && t.loop.tasks == map[id := Saving(s.version, s.loop.clock)] && t.timer == s.timer
  {
    ReachableInv(s);
    assert s.inFlight == Some(id) && s.loop.tasks.Keys == {id};
  }

  /** While a save is outstanding, a discard changes nothing but the time. */
  lemma NoDiscardDuringSave(s: State)
    requires Reachable(s) && s.loop.tasks != map[]
    ensures Step(s, Discard) == Tick(s)
  {
    ReachableInv(s);
    assert s.inFlight.None? ==> s.loop.tasks.Keys == {};
  }

  /** Otherwise it takes effect: nothing is pending, no timer is left, no save is issued. */
  lemma DiscardTakesEffect(s: State)
    requires Reachable(s) && s.loop.tasks == map[]
    ensures var t := Step(s, Discard);
            && Still(t) && !t.Pending() && !t.loop.shownPending && t.version == s.version
            && t.loop.tasks == map[] && t.loop.saves == s.loop.saves && t.loop.discards == s.loop.discards + [DiscardCall(s.version, s.loop.clock)]
  {
    ReachableInv(s);
    assert s.inFlight.None?;
  }

  /** A failed save keeps its edits pending, ends the flush, reports the error and rejects its promise;
      edits made meanwhile lose their timer too. */
  lemma FailureKeepsEdits(s: State, id: nat)
    requires Reachable(s) && Enabled(s, SaveFails(id))
    ensures var t := Step(s, SaveFails(id));
            && t.Pending() && t.inFlight == None && t.loop.tasks == map[] && t.loop.settling[id] == Rejected
            && t.version == s.version && t.savedVersion == s.savedVersion
            && Still(t) && !t.loop.shownSaving && t.loop.errors == s.loop.errors + 1
  {
    ReachableInv(s);
    var t := Step(s, SaveFails(id));
    assert t.loop.tasks.Keys == {};
  }

  // ----- After a dispose

  /** Disposing leaves no timer and touches nothing else. */
  lemma DisposeStops(s: State)
    requires Reachable(s)
    ensures var t := Step(s, Dispose);
            && Still(t) && t.version == s.version && t.savedVersion == s.savedVersion && t.inFlight == s.inFlight
            && t.loop.tasks == s.loop.tasks && t.loop.saves == s.loop.saves && t.loop.discards == s.loop.discards
  {
    ReachableInv(s);
  }

  predicate Idle(s: State) { Still(s) && s.inFlight == None && s.loop.tasks == map[] }

  /** Without an edit and without a call of flush an idle object stays idle. */
  lemma {:induction false} IdleStays(s: State, run: seq<Event>)
    requires Idle(s) && Legal(s, run) && Update !in run && Flush !in run
    ensures Idle(After(s, run)) && After(s, run).loop.saves == s.loop.saves && After(s, run).version == s.version
    decreases |run|
  {
    if run != [] {
      assert run[0] in run && forall e :: e in run[1..] ==> e in run;
      assert run[0].Settle? || run[0].Discard? || run[0].Dispose?;
      IdleStays(Step(s, run[0]), run[1..]);
    }
  }

  /** A disposed object with no flush in flight issues no save any more, whatever happens, until someone
      edits or flushes again. */
  lemma DisposedIsQuiet(s: State, run: seq<Event>)
    requires Reachable(s) && s.inFlight == None && Legal(Step(s, Dispose), run) && Update !in run && Flush !in run
    ensures var t := After(Step(s, Dispose), run);
            t.loop.tasks == map[] && t.loop.armed == {} && t.loop.saves == s.loop.saves && t.version == s.version
  {
    ReachableInv(s);
    DisposeStops(s);
    assert s.loop.tasks.Keys == {};
    IdleStays(Step(s, Dispose), run);
  }

  // ----- The class

  /** The object of the source, with the event loop it lives in. The asynchronous save loop is cut at
      its awaits into `Begin`, `OnSaved` and `OnSaveError`. */
  class DraftAutosave {
    var version: nat
    var savedVersion: nat
    var timer: Option<nat>
    var inFlight: Option<nat>
    var loop: Loop

    function View(): State
      reads this
    {
      State(version, savedVersion, timer, inFlight, loop)
    }

    constructor ()
      ensures View() == INITIAL
    {
      version, savedVersion, timer, inFlight, loop := 0, 0, None, None, INITIAL.loop;
    }

    method ClearTimer()
      modifies this
      ensures View() == TimerCleared(old(View()))
    {
      if timer != None { loop := loop.(armed := loop.armed - {timer.value}); }
      timer := None;
    }

    method Update()
      modifies this
      ensures View() == DoUpdate(old(View()))
    {
      version := version + 1;
      loop := loop.(shownPending := true, halted := Running, edits := loop.edits + [loop.clock]);
      ClearTimer();
      timer := Some(loop.nextId);
      loop := loop.(armed := loop.armed + {loop.nextId}, nextId := loop.nextId + 1);
    }

    /** Gives the promise of the flush in flight, or none when there is nothing to save. */
    method Flush() returns (promise: Option<nat>)
      modifies this
      ensures View() == DoFlush(old(View()))
      ensures promise == inFlight
      ensures old(inFlight).Some? ==> promise == old(inFlight)
      ensures promise == None <==> old(inFlight) == None && !old(View()).Pending()
    {
      loop := loop.(halted := Running);
      ClearTimer();
      if inFlight != None { return inFlight; }
      if version == savedVersion { return None; }
      inFlight := Some(loop.nextId);
      loop := loop.(tasks := loop.tasks[loop.nextId := Queued], nextId := loop.nextId + 1);
      promise := inFlight;
    }

    method FinishFlush(id: nat, result: Result)
      modifies this
      ensures View() == Finish(old(View()), id, result)
    {
      ClearTimer();
      inFlight := None;
      loop := loop.(shownSaving := false, tasks := loop.tasks - {id}, settling := loop.settling[id := result]);
    }

    /** The `while (pending)` test and, if it holds, the next call of `save`. */
    method NextSave(id: nat)
      modifies this
      ensures View() == LoopHead(old(View()), id)
    {
      if version != savedVersion {
        loop := loop.(tasks := loop.tasks[id := Saving(version, loop.clock)]);
      } else {
        FinishFlush(id, Fulfilled(version));
      }
    }

    method Begin(id: nat)
      modifies this
      ensures View() == DoStart(old(View()), id)
    {
      loop := loop.(shownSaving := true);
      NextSave(id);
    }

    method OnSaved(id: nat)
      requires id in loop.tasks && loop.tasks[id].Saving?
      modifies this
      ensures View() == DoSucceed(old(View()), id)
    {
      var call := loop.tasks[id];
      loop := loop.(saves := loop.saves + [SaveCall(call.version, call.startedAt, true)]);
      savedVersion := call.version;
      loop := loop.(shownPending := version != savedVersion);
      NextSave(id);
    }

    method OnSaveError(id: nat)
      requires id in loop.tasks && loop.tasks[id].Saving?
      modifies this
      ensures View() == DoFail(old(View()), id)
    {
      var call := loop.tasks[id];
      loop := loop.(saves := loop.saves + [SaveCall(call.version, call.startedAt, false)]);
      loop := loop.(halted := FailedSave, errors := loop.errors + 1);
      FinishFlush(id, Rejected);
    }

    /** Refuses, and changes nothing, while a flush is in flight. */
    method Discard() returns (thrown: bool)
      modifies this
      ensures View() == DoDiscard(old(View()))
      ensures thrown <==> old(inFlight).Some?
    {
      if inFlight != None { return true; }
      ClearTimer();
      savedVersion := version;
      loop := loop.(shownPending := false, discards := loop.discards + [DiscardCall(version, loop.clock)]);
      thrown := false;
    }

    method Dispose()
      modifies this
      ensures View() == DoDispose(old(View()))
    {
      loop := loop.(halted := Disposed);
      ClearTimer();
    }

    /** Whatever event comes next, the object takes the step of the model and keeps its invariant. */
    method Handle(e: Event)
      requires Inv(View()) && Enabled(View(), e)
      modifies this
      ensures View() == Step(old(View()), e) && Inv(View())
    {
      StepKeeps(View(), e);
      match e {
      case Update => Update();
      case TimerFires(t) =>
        loop := loop.(armed := loop.armed - {t});
        var _ := Flush();
      case Flush => var _ := Flush();
      case Start(id) => Begin(id);
      case SaveSucceeds(id) => OnSaved(id);
      case SaveFails(id) => OnSaveError(id);
      case Settle(id) => loop := loop.(settling := loop.settling - {id});
      case Discard => var _ := Discard();
      case Dispose => Dispose();
      }
      loop := loop.(clock := loop.clock + 1);
    }
  }
}
