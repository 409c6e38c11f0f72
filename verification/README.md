# Verified models of the sb-gateway core

This project models the parts of sb-gateway whose correctness is hardest to see from the code, and
proves what they promise. `dafny verify dfyconfig.toml` checks the whole project.

**The protocol policy** (`routeros/protocol_policy.go`). The generator turns a container address and a
ping switch into an ordered list of firewall rules and a reconciliation script.

- `ProtocolPolicy` is the generator, with the loops of the source. The script is a list of commands, one
  for each guard, each add-or-set and each move.
- `FirewallTable` and `PolicyScript` are the router: tables of rows with `find`, `add`, `set` and `move`,
  and a `Router` object that carries a script out line by line and stops at the first error.
- `Reconciliation`, `Ordering`, `Settling` and `ScriptTheorems` prove what a whole run does to any
  starting tables. `PolicyLayout` proves of the generated rules what these theorems ask for.
- `PacketFilter` evaluates a chain for a packet, with jumps and returns. `PolicyDecision` holds a closed
  decision function and `PolicyTheorems` proves that the tables after a run decide every packet by it.
- `PolicyStatement` says it once more with every number, name and address written out.
- `PolicyCarryover` holds what these proofs need about any start: `set` overwrites the properties it names
  and keeps all others, so a row that someone narrowed stays narrowed.
- `PolicySwitch` says what turning the ping switch over changes, from any start.
- `Reconfiguration` and `PolicyHistory` prove that a sequence of runs with changing settings leaves what
  its last run alone would leave.

**The draft autosave** (`app/draft-autosave.ts`). `Autosave` holds a class with the fields of the source and
a step relation over the events that can happen between two awaits. Its invariant holds in every state
that any interleaving reaches.

**Merges of late responses** (`app/runtime-status.ts`, `app/subscription-metadata.ts`). `RuntimeStatus` and
`SubscriptionMetadata` say where every field of the merged state comes from, for every sequence of
responses in every order.

**Certificates and host names** (`app/tls-hostnames.ts`). `Hostnames` and `TlsProfiles`.

**Lists and statistics.** `QualityWindow`, `NodeQuality`, `NodePresentation`, `SubscriptionFeed` and
`DeploymentClone`, with `Lists`, `Sorting` and `Texts` below them.

Where the code falls short of a natural reading, a lemma gives an input that shows it and another lemma
says exactly when it happens, or what holds instead:

- A row that was narrowed by hand stays narrowed after `set` (`StrayMatcherBreaksVerdict`, with
  `InstalledExactly` for rows and `PolicyVerdictExactly` for packets).
- A jump that an older release left behind can lead into a stale protocol chain; the old verdict then does
  not survive (`StaleJumpChangesVerdict`, with `PolicyForwards` for what does).
- A flush promise settles after its `finally` block, so an edit can fall into the gap between the two
  (`GapExists`, `GapExactly`).
- A late status response can still contribute a protected field that newer responses lack
  (`StaleFieldLeaksIn`, `NewestWinsExactly`).
- A subscription called like an occurrence number or like a suffix gives two nodes one label
  (`NumberLikeSourceCollides`, `SuffixLikeSourceCollides`, `LabelsSameExactly`).
- Loss and availability can add up to 100.1% (`PercentagesAddUp`).

## Model

| member | source | states |
|---|---|---|
| ProtocolPolicy.AppendTransport | routeros/protocol_policy.go:25-27 | the loop over transports appends the TCP and the UDP return rule, in this order, behind what was there |
| ProtocolPolicy.AppendRelated | routeros/protocol_policy.go:33-35 | for one scope, one accept rule for each error kind of the family, in order |
| ProtocolPolicy.AppendScopes | routeros/protocol_policy.go:32-36 | the nested loop appends the related-error rules of all scopes, scope by scope, numbered from 0 |
| ProtocolPolicy.AppendDestinations | routeros/protocol_policy.go:37-42 | multicast, broadcast (IPv4 only), internal and unmanaged rules in this order |
| ProtocolPolicy.AppendEcho | routeros/protocol_policy.go:43-49 | one rule for each echo kind, accepting or dropping by the switch |
| ProtocolPolicy.AppendFamily | routeros/protocol_policy.go:25-50 | the loop body appends a whole family; only IPv4 has the container as an error endpoint |
| ProtocolPolicy.EmitFamilies | routeros/protocol_policy.go:17-51 | both families in order, and one guard line each before everything else |
| ProtocolPolicy.AppendDivert | routeros/protocol_policy.go:52-63 | the seven diversion rules; the echo ones are disabled when ping is off |
| ProtocolPolicy.EmitLines | routeros/protocol_policy.go:66-80 | after the guards every rule is added or set in order, then every rule is moved in reverse order |
| ProtocolPolicy.ProtocolPolicySource | routeros/protocol_policy.go:10-82 | the emitted script is guards, add-or-set of the whole policy, reverse moves |
| PolicyScript.OwnedExactly | routeros/protocol_policy.go:24 | a comment is owned exactly when "SB-GATEWAY protocol " is a prefix of it |
| PolicyScript.Router.CheckOwned | routeros/protocol_policy.go:24 | no error exactly when every row of the chain has that prefix; otherwise the error is the guard's text |
| PolicyScript.Router.UpsertRule | routeros/protocol_policy.go:71-75 | the tables after one add-or-set line; several rows with the comment are an error and change nothing |
| PolicyScript.Router.PromoteRule | routeros/protocol_policy.go:79 | the tables after one move line: untouched if the rule is first in its chain, moved before the first row otherwise |
| PolicyScript.Router.Perform | routeros/protocol_policy.go:24-79 | each kind of line changes the tables as its step says and reports its own error |
| PolicyScript.Router.Execute | routeros/protocol_policy.go:66-81 | carrying out a script line by line gives the tables and the error of the whole run, stopping at the first error |
| PolicyScript.RunConcat | routeros/protocol_policy.go:81 | a script in two parts runs the second part on what the first leaves, unless the first stops |
| Reconciliation.UpsertEffect | routeros/protocol_policy.go:71-75 | add-or-set succeeds exactly when at most one row has the comment; afterwards exactly one has, with the rule's properties over the old row's |
| Reconciliation.UpsertWhole | routeros/protocol_policy.go:71-75 | the whole table after add-or-set: a new row with the rule's properties at the end, or the labelled row changed in place and every other row as it was |
| Reconciliation.UpsertKeepsOthers | routeros/protocol_policy.go:72-74 | rows with other comments keep contents and order |
| Reconciliation.UpsertAllSucceeds | routeros/protocol_policy.go:66-76 | the whole list goes in exactly when no comment is ambiguous at the start |
| Reconciliation.UpsertAllLands | routeros/protocol_policy.go:66-76 | every rule then stands once, in its chain, as add-or-set leaves it |
| Reconciliation.UpsertAllIdle | routeros/protocol_policy.go:66-76 | rules that stand as they should are left alone, the table stays equal |
| Ordering.PromoteRaises | routeros/protocol_policy.go:79 | moving a rule that stands once never fails; its row goes directly before the first row of its chain and nothing else moves |
| Ordering.RaisedLeadsChain | routeros/protocol_policy.go:79 | the moved rule leads its chain and the others follow as they were |
| Ordering.RaiseAllKeeps | routeros/protocol_policy.go:77-80 | the moves lose, duplicate and relabel no row |
| Ordering.RaiseAllKeepsForeign | routeros/protocol_policy.go:77-80 | rows the moves are not about keep contents and order |
| Ordering.ChainAfterRaiseAll | routeros/protocol_policy.go:77-80 | after the reverse moves each chain is its own rules in generation order, then its other rows in their old order |
| Settling.GroupRaise | routeros/protocol_policy.go:77-80 | the moves of one chain amount to one splice of its block at the head of the chain, as a statement about the whole table |
| Settling.SettledStays | routeros/protocol_policy.go:77-80 | a block that lies together at the head of its chain rotates back to itself: the whole table is unchanged |
| Settling.OthersStaySettled | routeros/protocol_policy.go:77-80 | moving one chain's rules never splits another chain's settled block |
| Settling.TwoChainsSettle | routeros/protocol_policy.go:77-80 | for two chains in one table, doing all moves twice is doing them once |
| ScriptTheorems.GuardsRun | routeros/protocol_policy.go:24 | the guard lines pass without effect or stop the script with the tables untouched |
| ScriptTheorems.UpsertsRun | routeros/protocol_policy.go:66-76 | the interleaved lines of three tables act on each table as its own rules alone would |
| ScriptTheorems.PromotesRun | routeros/protocol_policy.go:77-80 | once every rule stands no move fails, and each table gets its own rules' moves |
| ScriptTheorems.TableIsReconciled | routeros/protocol_policy.go:66-80 | after both phases foreign rows keep contents and order and every chain is generated rules, then foreign rows |
| ScriptTheorems.ScriptReconciles | routeros/protocol_policy.go:66-80 | a script with comments distinct per table succeeds exactly when guards pass and no comment is ambiguous, and then reconciles every table |
| ScriptTheorems.AbortsBeforeMoves | routeros/protocol_policy.go:24-79 | a failing guard leaves all tables untouched; the only other error is an ambiguous comment, before the first move |
| ScriptTheorems.ForeignRowsSurvive | routeros/protocol_policy.go:66-80 | in every run, failed ones included, rows without a generated comment keep contents and order |
| ScriptTheorems.RaiseTwice | routeros/protocol_policy.go:77-80 | moving the rules a second time leaves the whole table as it is |
| ScriptTheorems.SecondRunChangesNothing | routeros/protocol_policy.go:66-80 | the script run on its own result succeeds and leaves every table equal as a whole sequence |
| PolicyLayout.RelatedWordInjective | routeros/protocol_policy.go:34 | a related rule's label determines its scope and its kind |
| PolicyLayout.FamilyDistinct | routeros/protocol_policy.go:25-50 | no label occurs twice in a family |
| PolicyLayout.PolicyAt | routeros/protocol_policy.go:17-65 | what the generated list holds for each of the three tables, in order |
| PolicyLayout.PolicyDistinct | routeros/protocol_policy.go:14-65 | labels are distinct within every table, for every address and switch |
| PolicyLayout.PolicyGrouped | routeros/protocol_policy.go:17-65 | each table's rules are those of one chain followed by those of another |
| PolicyLayout.PolicyOwned | routeros/protocol_policy.go:15 | every generated comment passes the ownership guard |
| PolicyDecision.FamilyDecides | routeros/protocol_policy.go:17-51 | the first generated rule that applies to a packet gives the verdict of a closed decision function, for every packet |
| PolicyDecision.DroppedExactly | routeros/protocol_policy.go:37-50 | a packet is dropped exactly when it is neither transport nor a related error of ours, comes from a managed client, leaves the internal, multicast and broadcast destinations, and is not an allowed echo |
| PolicyDecision.PingSwitch | routeros/protocol_policy.go:43-49 | the switch changes the decision exactly for outbound echo packets of managed clients and never for related errors |
| PolicyDecision.DivertDecides | routeros/protocol_policy.go:52-63 | the diversion rules return exactly related errors, allowed echo, multicast and broadcast |
| PolicyCarryover.OverlayExact | routeros/protocol_policy.go:74 | setting a row gives exactly the rule's matchers if and only if the row had no matcher the rule does not name |
| PolicyCarryover.CleanExactly | routeros/protocol_policy.go:66-76 | nothing is carried over exactly when no row to be set has such a matcher |
| PolicyCarryover.SameRuleExactly | routeros/protocol_policy.go:74 | leftover matchers only hand a packet on to later rules; it stays with its rule exactly when it satisfies what that one row kept |
| PolicyCarryover.InstalledCarried | routeros/protocol_policy.go:66-76 | from any start the installed rows are the rules plus what their old rows kept |
| PolicyCarryover.InstalledExactly | routeros/protocol_policy.go:66-76 | the installed rows say exactly what the rules say if and only if no row that was set carried a matcher of its own |
| PolicyCarryover.ComposedVerdict | routeros/protocol_policy.go:66-80 | a reconciled table gives every packet in every chain, from wherever it is entered, the verdict of the rules in front of the foreign rows |
| PolicyCarryover.ChainVerdict | routeros/protocol_policy.go:66-80 | a chain of final rules: the first rule whose row still matches decides, then the foreign rows |
| PolicyCarryover.JumpVerdict | routeros/protocol_policy.go:64-65 | a chain headed by a jump gives the target's verdict if the jump's row still matches and the target does not return, and otherwise what the rows behind it say |
| PolicyCarryover.ForeignWalk | routeros/protocol_policy.go:64-65 | foreign rows decide as in any table that holds them and whose other chains take the same course for the packet |
| PolicyTheorems.PolicyReconciles | routeros/protocol_policy.go:66-80 | for every start: the emitted script succeeds exactly when every row of both protocol chains carries the mark and no generated label occurs twice in a table, and every chain then begins with its generated rules in order |
| PolicyTheorems.PolicyFailsSafely | routeros/protocol_policy.go:24-79 | an unmarked rule in a protocol chain stops the script with its error and all tables untouched; any other failure is an ambiguous label before the first move; foreign rows survive every run |
| PolicyTheorems.PolicyIdempotent | routeros/protocol_policy.go:66-80 | a second run with the same arguments leaves every table equal |
| PolicyTheorems.ProtocolVerdict | routeros/protocol_policy.go:17-51 | a reconciled protocol chain, from any start and from wherever it is entered: the first rule whose row still matches decides, and it is the rule of the decision exactly when the packet satisfies what that row carried over |
| PolicyTheorems.BehindJumpAlone | routeros/protocol_policy.go:64-65 | the rows behind the jump decide as they would alone if no own row of the protocol chain matches the packet or no foreign row jumps to that chain |
| PolicyTheorems.BehindJumpReturned | routeros/protocol_policy.go:64-65 | they decide as they would without the protocol chain if its own rows return the packet |
| PolicyTheorems.ForwardVerdict | routeros/protocol_policy.go:64-65 | the forward chain from any start: the protocol chain decides if the jump's row still matches and that chain does not return, the foreign rows decide otherwise |
| PolicyTheorems.DivertVerdict | routeros/protocol_policy.go:52-63 | the diversion chain from any start returns exactly the packets that a diversion row still matches and leaves all others to the foreign rows |
| PolicyTheorems.RunComposes | routeros/protocol_policy.go:10-82 | after a run from any accepted start every chain of every table gives every packet the verdict it would get with the policy's rules, and what their rows carried over, in front of the foreign rows |
| PolicyTheorems.PolicyVerdictExactly | routeros/protocol_policy.go:10-82 | for every accepted start and every packet: the verdict of the protocol chains, and exactly when the decision's own rule gives it |
| PolicyTheorems.PolicyForwardsExactly | routeros/protocol_policy.go:64-65 | for every accepted start and every packet: the verdict of the forward chains |
| PolicyTheorems.PolicyDivertsExactly | routeros/protocol_policy.go:52-63 | for every accepted start and every packet: the verdict of the diversion chain |
| PolicyTheorems.PolicyDecidesPackets | routeros/protocol_policy.go:10-82 | from the emitted script to the packet: after a successful run from a start without leftover matchers both protocol chains give the decision |
| PolicyTheorems.PolicyForwards | routeros/protocol_policy.go:64-65 | from a start without leftover matchers and for any existing chain contents: the decision where it is not "return", and elsewhere the verdict of the start without the policy's rules and without the protocol chain |
| PolicyTheorems.PolicyForwardsAsBefore | routeros/protocol_policy.go:64-65 | elsewhere the old chain's own verdict, if no foreign row jumps to the protocol chain or what is left in it lets the packet pass |
| PolicyTheorems.StaleJumpChangesVerdict | routeros/protocol_policy.go:64-65 | an accepted start with an older jump into an older drop-everything rule: it drops every packet, and after the run every TCP packet returns |
| PolicyTheorems.PolicyDiverts | routeros/protocol_policy.go:52-63 | from a start without leftover matchers the diversion chain returns exactly the exempt packets and treats all others as before |
| PolicyTheorems.EmptyRouterIsCleanStart | routeros/protocol_policy.go:66-80 | a router without rules meets every condition that these theorems put on a start |
| PolicyTheorems.StrayMatcherBreaksVerdict | routeros/protocol_policy.go:74 | a start with a hand-narrowed TCP row: the run succeeds, yet a TCP packet that the policy returns is dropped |
| PolicyStatement.PolicyDecidesV4 | routeros/protocol_policy.go:17-51 | which packets the IPv4 protocol chain returns, accepts and drops after a run, with ICMP types 3, 11, 12 and 8, 0 and all list names and networks written out |
| PolicyStatement.PolicyDecidesV6 | routeros/protocol_policy.go:17-51 | the same for IPv6 with types 1 to 4 and 128, 129 |
| PolicyStatement.PolicyForwardsV4 | routeros/protocol_policy.go:64 | the chain `sb-gateway-forward` after a run |
| PolicyStatement.PolicyForwardsV6 | routeros/protocol_policy.go:65 | the chain `forward` after a run |
| PolicyStatement.PolicyDivertsV4 | routeros/protocol_policy.go:52-63 | the chain `sb-gateway-divert` after a run, written out |
| PolicyStatement.Labels | routeros/protocol_policy.go:15-50 | the labels of every kind of protocol rule |
| PolicyStatement.DivertLabels | routeros/protocol_policy.go:52-63 | the labels of the seven diversion rules, in order |
| PolicyStatement.JumpLabels | routeros/protocol_policy.go:64-65 | the labels of the two jumps |
| Reconfiguration.LaterWins | routeros/protocol_policy.go:74 | setting a rule overwrites everything that setting the same rule with other values wrote |
| Reconfiguration.UpsertAllAlike | routeros/protocol_policy.go:66-76 | adding or setting with other values gives the same rows, repainted |
| Reconfiguration.InstallForgets | routeros/protocol_policy.go:66-80 | after an earlier installation, installing other values gives what installing them at once gives, row ids included |
| Reconfiguration.LastRunWins | routeros/protocol_policy.go:66-80 | a second run with other values succeeds and gives what it would have given on the first start |
| PolicyHistory.PolicyAlike | routeros/protocol_policy.go:17-65 | address and switch change values only, never labels, places or the properties named |
| PolicyHistory.LastConfigurationWins | routeros/protocol_policy.go:10-82 | any sequence of configurations succeeds once its first does, and leaves exactly what its last one leaves alone |
| PolicySwitch.SwitchedRules | routeros/protocol_policy.go:43-49 | the switch changes the actions of the echo rules and nothing else in a family |
| PolicySwitch.PolicySwitchExactly | routeros/protocol_policy.go:43-49 | from any accepted start both settings succeed, a packet meets the same rule under both, and the verdicts differ exactly when that is an echo rule |
| PolicySwitch.PolicySwitch | routeros/protocol_policy.go:43-49 | from a start without leftover matchers the verdicts differ exactly for outbound echo packets of managed clients |
| Autosave.StepKeeps | app/draft-autosave.ts:26-74 | every event keeps the invariant: single flight, single timer, fresh ids, ordered history, coverage, truthful callbacks, liveness |
| Autosave.RunKeeps | app/draft-autosave.ts:26-74 | so does every run |
| Autosave.AlwaysSafe | app/draft-autosave.ts:26-58 | in every reachable state at most one save is outstanding and one timer armed, the saved version does not run ahead, the callbacks' last values are true, successful saves have growing versions |
| Autosave.AlwaysLive | app/draft-autosave.ts:22-74 | pending edits have an armed timer or a flush in flight, unless a save failed or the object was disposed with no update or flush since |
| Autosave.AutomaticRunShrinks | app/draft-autosave.ts:30-55 | every timer, flush start or successful save uses up work, so that without new edits only so many can follow |
| Autosave.EditsGetSaved | app/draft-autosave.ts:26-58 | from every reachable state whose edits are under way at most four such events can follow, in any order, and one can as long as an edit is not saved |
| Autosave.CoveredExactly | app/draft-autosave.ts:42-47 | an edit counts as saved exactly when a save that started after it succeeded, or it was discarded |
| Autosave.PendingExactly | app/draft-autosave.ts:22-24 | in every reachable state the draft is not pending exactly when every edit is covered in this sense |
| Autosave.FinishSeesEverything | app/draft-autosave.ts:42-55 | a flush finishes only with a successful save and nothing left to save, edits made during its saves included |
| Autosave.FlushCovers | app/draft-autosave.ts:35-58 | when a flush promise is fulfilled every edit made before the flush finished is covered |
| Autosave.GapExactly | app/draft-autosave.ts:51-58 | between `finally` and the fulfilled promise, whatever happens there: every edit so far is covered exactly when the draft is not pending, always if no edit fell into the gap, and only then if no save came back and nothing was discarded in it |
| Autosave.GapExists | app/draft-autosave.ts:51-58 | a run whose promise is fulfilled while the last edit is neither saved nor discarded |
| Autosave.NoDiscardDuringSave | app/draft-autosave.ts:60-65 | while a save is outstanding a discard changes nothing |
| Autosave.UpdateArms | app/draft-autosave.ts:26-33 | an edit makes the draft pending, says so, cancels the old timer and arms one new one, and touches no flush |
| Autosave.FlushStarts | app/draft-autosave.ts:35-41 | a flush, asked for or timed, leaves no timer and starts a save loop exactly when something is pending and none is under way |
| Autosave.StartSaves | app/draft-autosave.ts:39-44 | a started flush says so and issues a save for the current version |
| Autosave.SuccessGoesOn | app/draft-autosave.ts:42-55 | a successful save counts for the version it started from; the next one starts at once if there are newer edits, and otherwise the flush ends without a timer |
| Autosave.FailureKeepsEdits | app/draft-autosave.ts:48-55 | a failed save keeps its edits pending, reports the error, ends the flush without a timer and rejects its promise |
| Autosave.DiscardTakesEffect | app/draft-autosave.ts:60-65 | without a flush in flight a discard leaves nothing pending and no timer, and issues no save |
| Autosave.DisposeStops | app/draft-autosave.ts:67-69 | disposing leaves no timer and touches nothing else |
| Autosave.DisposedIsQuiet | app/draft-autosave.ts:67-74 | a disposed object without a flush in flight issues no save in any run without an edit or a flush call |
| Autosave.DraftAutosave.ClearTimer | app/draft-autosave.ts:71-74 | the state after clearing the timer |
| Autosave.DraftAutosave.Update | app/draft-autosave.ts:26-33 | the state after an edit: one more version, the old timer cancelled, a new one armed |
| Autosave.DraftAutosave.Flush | app/draft-autosave.ts:35-41 | the state after a flush call; it returns the flush in flight if there is one, and none exactly when nothing is pending |
| Autosave.DraftAutosave.FinishFlush | app/draft-autosave.ts:51-55 | the state after the `finally` block |
| Autosave.DraftAutosave.NextSave | app/draft-autosave.ts:42-44 | the head of the save loop: the next save for the current version, or the end of the flush |
| Autosave.DraftAutosave.Begin | app/draft-autosave.ts:39-44 | the first part of the asynchronous body, up to its first await |
| Autosave.DraftAutosave.OnSaved | app/draft-autosave.ts:45-47 | what a successful save resumes: the version read before the save becomes the saved one |
| Autosave.DraftAutosave.OnSaveError | app/draft-autosave.ts:48-55 | what a failed save resumes |
| Autosave.DraftAutosave.Discard | app/draft-autosave.ts:60-65 | refuses exactly while a flush is in flight and changes nothing then |
| Autosave.DraftAutosave.Dispose | app/draft-autosave.ts:67-69 | the state after disposing |
| Autosave.DraftAutosave.Handle | app/draft-autosave.ts:10-75 | whatever event comes next, the object takes the step of the model and keeps the invariant |
| RuntimeStatus.RestoreFields | app/runtime-status.ts:46-48 | the loop overwrites exactly the listed fields that the old record has |
| RuntimeStatus.MergeSelectorFields | app/runtime-status.ts:39-50 | the merge of one selector, with the protected fields restored when the incoming readback is older or untimed |
| RuntimeStatus.MergesEachSelector | app/runtime-status.ts:29-57 | merging statuses merges every selector on its own and keeps all keys |
| RuntimeStatus.StatusIsMerged | app/runtime-status.ts:25-58 | after any response sequence a selector is the merge of its own reports |
| RuntimeStatus.NoSelectorDropped | app/runtime-status.ts:33-52 | a selector is there exactly when some response reported it |
| RuntimeStatus.MaxTimeIsMax | app/runtime-status.ts:42-45 | the reference time is the greatest among all reports and one of them |
| RuntimeStatus.MergedTime | app/runtime-status.ts:42-48 | the merged time is the latest time seen, so it never goes back |
| RuntimeStatus.FieldPresent | app/runtime-status.ts:41-49 | a field is there exactly when some report has it |
| RuntimeStatus.ProtectedField | app/runtime-status.ts:44-49 | for any sequence, a protected field comes from the last current report that has it, or from the first report at all if no current one has it |
| RuntimeStatus.OtherField | app/runtime-status.ts:41 | every other field comes from the last report that has it |
| RuntimeStatus.WinnerIsLastCurrent | app/runtime-status.ts:45 | the last report of the latest time is current and nothing after it is |
| RuntimeStatus.NewestWinsExactly | app/runtime-status.ts:44-49 | all ten protected fields come from the newest report exactly when it has every one that any report had |
| RuntimeStatus.NewestWins | app/runtime-status.ts:44-49 | in particular when every timed report carries all ten |
| RuntimeStatus.StatusTime | app/runtime-status.ts:25-58 | after any response sequence a selector's time is the latest it was reported with |
| RuntimeStatus.StatusTimeGrows | app/runtime-status.ts:42-48 | no later response takes it back |
| RuntimeStatus.StatusNewestWins | app/runtime-status.ts:25-58 | over any response sequence the ten protected fields of a selector come from its newest report exactly when that report has every one that any report had |
| RuntimeStatus.StaleFieldLeaksIn | app/runtime-status.ts:46-48 | two reports where the older one contributes a protected field after the newer |
| RuntimeStatus.StatusFieldPresent | app/runtime-status.ts:53-57 | a top-level field other than `selector_health` is there exactly when some response has it |
| RuntimeStatus.StatusField | app/runtime-status.ts:53-57 | and has the value of the last response that has it |
| RuntimeStatus.StatusKeepsNewest | app/runtime-status.ts:42-49 | over any response sequence the status keeps the latest `runtime_observed_at` of a selector and each of the ten named fields that the readback of that time has |
| RuntimeStatus.StatusOtherField | app/runtime-status.ts:41 | every field of a selector other than the ten comes from the last response that has it |
| SubscriptionMetadata.MergeFind | app/subscription-metadata.ts:8-16 | the merge looks at each listed id on its own and at no other |
| SubscriptionMetadata.ChooseAssociative | app/subscription-metadata.ts:11-15 | the choice between records is associative, with missing and untimed ones |
| SubscriptionMetadata.MergeAssociative | app/subscription-metadata.ts:3-17 | so is the merge of whole maps |
| SubscriptionMetadata.MergeIdempotent | app/subscription-metadata.ts:3-17 | merging again changes nothing, and the result has exactly the known listed ids |
| SubscriptionMetadata.FoldedIsWinner | app/subscription-metadata.ts:3-17 | after any response sequence each listed id ever reported has a whole record of latest time, the last to arrive among equals |
| SubscriptionMetadata.FoldedKeepsNewest | app/subscription-metadata.ts:8-16 | once a record with some `refreshed_at` arrived, the folded record is a whole record of the latest one, the last to arrive among equals |
| SubscriptionMetadata.FoldedUntimed | app/subscription-metadata.ts:11-15 | a record without a time stays only where no timed one arrived, and then the last one |
| SubscriptionMetadata.FoldedIsListed | app/subscription-metadata.ts:8 | no id outside the list survives |
| Hostnames.JoinSplit | app/tls-hostnames.ts:27 | joining the labels of a name gives the name back |
| Hostnames.CanonicalHostIdempotent | app/tls-hostnames.ts:24-33 | canonicalising a host name twice is canonicalising it once |
| Hostnames.CanonicalHostValid | app/tls-hostnames.ts:24-33 | a non-empty canonical name is a host name, no address and no wildcard |
| Hostnames.HostnameExactly | app/tls-hostnames.ts:3 | the host name pattern, character by character: letters, digits and dashes, letters or digits around every dot and at both ends, at most 63 characters without a dot, at least one dot, at most 253 characters |
| Hostnames.AddressExactly | app/tls-hostnames.ts:27-31 | four numbers with dots are an address exactly when each is at most 255 |
| Hostnames.CanonicalExactly | app/tls-hostnames.ts:24-33 | blanks around a name, trailing dots and case do not matter; what is left is the canonical form if it is a host name and no address |
| Hostnames.CanonicalNameShape | app/tls-hostnames.ts:35-43 | a canonical certificate name is a host name, or a wildcard before one |
| Hostnames.CanonicalNameIdempotent | app/tls-hostnames.ts:35-43 | canonicalising a certificate name twice is canonicalising it once |
| Hostnames.CanonicalNameExactly | app/tls-hostnames.ts:35-43 | blanks, trailing dots and case do not matter to a certificate name without a wildcard |
| Hostnames.WildcardExactly | app/tls-hostnames.ts:38-41 | nor to one with a wildcard, which it keeps in front of the canonical suffix |
| Hostnames.CoversExactly | app/tls-hostnames.ts:57-64 | the string suffix test is the label test of section 6.4.3 of RFC 6125: equal labels, or one label in place of the wildcard |
| TlsProfiles.ConcreteExactly | app/tls-hostnames.ts:50-52 | the concrete names are exactly the names without a wildcard |
| TlsProfiles.ConcreteDistinct | app/tls-hostnames.ts:50-52 | each once |
| TlsProfiles.CoversByLabels | app/tls-hostnames.ts:54-65 | a certificate covers a value exactly when it has a canonical form and some certificate name matches it label by label |
| TlsProfiles.ConcreteNameIsCanonical | app/tls-hostnames.ts:45-52 | a concrete name is its own canonical form |
| TlsProfiles.ResultByTier | app/tls-hostnames.ts:87-102 | the three stages amount to: the only match of the strongest tier that has any, or the current id |
| TlsProfiles.ChoosesProvably | app/tls-hostnames.ts:67-103 | a changed choice is the one and only profile of the strongest non-empty tier; ambiguity keeps the current id |
| TlsProfiles.TiersAsk | app/tls-hostnames.ts:78-101 | what each tier asks: an enabled profile with an id that is not blank and a name equal to the host, a local authority target equal to it, or a name that covers it |
| TlsProfiles.ChoiceExactly | app/tls-hostnames.ts:67-103 | the choice is the one profile that is provable in this sense if there is one, and the current id in every other case; a disabled profile is never chosen |
| TlsProfiles.NothingToChoose | app/tls-hostnames.ts:75-77 | without a list of profiles or without a host name the current id stays |
| TlsProfiles.OrderDoesNotMatter | app/tls-hostnames.ts:70-103 | reordering the profiles never changes the choice |
| TlsProfiles.ChoiceIsStable | app/tls-hostnames.ts:70-103 | choosing again from the result changes nothing |
| TlsProfiles.HostIsCovered | app/tls-hostnames.ts:107-116 | with a certificate that has names the new host is empty or canonical and covered |
| TlsProfiles.HostAfterChangeExactly | app/tls-hostnames.ts:107-116 | the only concrete name becomes the host; without names the typed host stays; otherwise a covered host stays in canonical form and any other is cleared |
| TlsProfiles.HostAfterChangeIdempotent | app/tls-hostnames.ts:107-116 | changing to the same profile again keeps the host |
| TlsProfiles.RoundTripKeepsProfile | app/tls-hostnames.ts:70-116 | a profile whose change led to one of its own names stays chosen for that name |
| QualityWindow.SummarizeSamples | app/quality-window.ts:15-54 | the one-pass loop and the sort compute the declarative summary |
| QualityWindow.SamplesConserved | app/quality-window.ts:25-35 | samples are successes plus failures |
| QualityWindow.QuantilesOrdered | app/quality-window.ts:34-52 | least delay, median, 95th percentile and greatest delay come in this order, with indices in range |
| QualityWindow.MedianExactly | app/quality-window.ts:36-41 | the median by its rank among the delays: the middle one, or half the sum of the two middle ones toward zero |
| QualityWindow.P95Exactly | app/quality-window.ts:42-52 | the 95th percentile is the delay at 95% of the last place, rounded up |
| QualityWindow.WindowExactly | app/quality-window.ts:16-22 | a sample counts exactly when its time is not before the window |
| QualityWindow.OneMoreSample | app/quality-window.ts:25-33 | a sample is a success exactly when it says so and has a delay, which is taken without its fraction |
| QualityWindow.StatsExactly | app/quality-window.ts:45-53 | every count and percentage, and when there are none |
| QualityWindow.TenthsOf | app/quality-window.ts:11-13 | rounding to one decimal, half up |
| QualityWindow.PercentagesAddUp | app/quality-window.ts:49-50 | loss and availability add up to 100.0%, or to 100.1% exactly when both are rounded up from half a tenth |
| QualityWindow.SummaryForgetsOrder | app/quality-window.ts:15-54 | shuffling the stored samples changes no statistic |
| NodeQuality.BestByKey | app/node-quality.ts:58-68 | the nested comparison is the lexicographic order of eight numbers |
| NodeQuality.PriorityByKey | app/node-quality.ts:48-57 | the priority comparison is the lexicographic order of three numbers |
| NodeQuality.RowOrderIsTotal | app/node-quality.ts:47-69 | in both modes the comparator is a total preorder |
| NodeQuality.NothingBetterIsHidden | app/node-quality.ts:43-75 | the shown rows are the first ten of all rows in order, no hidden row comes before a shown one, none is lost from the total |
| NodeQuality.FindsListed | app/node-quality.ts:42-43 | the chosen sheet is one with the key, wherever it stands |
| NodeQuality.SheetIsSelected | app/node-quality.ts:42-43 | the sheet is that of the first policy with the selected key, and of the first policy if none has it |
| NodeQuality.BestFirst | app/node-quality.ts:26-62 | the selected row first, then smaller medians, rows without a median last |
| NodeQuality.TiesKeepOrder | app/node-quality.ts:47-69 | rows that tie keep the order of the source |
| NodeQuality.PriorityIgnoresMeasurements | app/node-quality.ts:48-57 | in priority mode the order of rows is a function of ids and configured order alone |
| NodeQuality.PriorityOrderOf | app/node-quality.ts:49-56 | configured rows come first in configured order, then the others in source order |
| NodeQuality.RanksName | app/node-quality.ts:69-75 | a configured row of a priority sheet is numbered by its place in the configured order, every other row by its place in the sheet |
| Sorting.SortPermutes | app/quality-window.ts:34 | sorting loses nothing and adds nothing |
| Sorting.SortSorted | app/quality-window.ts:34 | the result is in order for every total preorder |
| Sorting.SortForgetsOrder | app/quality-window.ts:34 | with an antisymmetric comparison the result does not depend on the order at the start |
| Sorting.SortStable | app/node-quality.ts:47 | elements that tie keep their order |
| NodePresentation.NodeDisplayLabel | app/node-presentation.ts:40-71 | narrowing the peers step by step computes the declarative label |
| NodePresentation.LabelUnchanged | app/node-presentation.ts:41-43 | a label that fewer than two peers share is shown as it is |
| NodePresentation.LabelBySuffix | app/node-presentation.ts:45-48 | otherwise the suffix in parentheses if no such peer shares it |
| NodePresentation.LabelBySource | app/node-presentation.ts:50-56 | then suffix and source if no peer shares both |
| NodePresentation.LabelByNumber | app/node-presentation.ts:58-67 | and otherwise the place of the id among the sorted ids that are left, from 1 |
| NodePresentation.IdsExactly | app/node-presentation.ts:61-64 | the ids that are numbered are all that are there |
| NodePresentation.SourceExactly | app/node-presentation.ts:34-38 | the source is the display name of the subscription without the blanks around it |
| NodePresentation.SuffixTable | app/node-presentation.ts:23-32 | which protocols and transports give which suffix |
| NodePresentation.JoinInjective | app/node-presentation.ts:69 | joined non-empty parts without the separator determine the parts |
| NodePresentation.QualifiersSameExactly | app/node-presentation.ts:45-67 | two nodes with one label and suffix show the same parts exactly when they share source and id, or one's source is called like the other's number |
| NodePresentation.SuffixIsNoNumber | app/node-presentation.ts:23-32 | no suffix looks like an occurrence number |
| NodePresentation.LabelsSameExactly | app/node-presentation.ts:40-71 | exactly when two nodes that share a provider label get the same display label, with or without ids and suffixes |
| NodePresentation.LabelsDiffer | app/node-presentation.ts:50-67 | different ids always give different labels when no source is called like a number or like the other node's suffix |
| NodePresentation.NumberLikeSourceCollides | app/node-presentation.ts:53-67 | two nodes with the same label because a subscription is called "#1" |
| NodePresentation.SuffixLikeSourceCollides | app/node-presentation.ts:45-56 | two nodes with the same label because one has no suffix and its subscription is called "WS" |
| NodePresentation.LabelForgetsOrder | app/node-presentation.ts:58-67 | refreshing the peers in another order keeps every label, the numbers included |
| DeploymentClone.CandidateInjective | app/console/connection-dialog.tsx:392 | different numbers give different ids |
| Texts.DecimalReads | app/console/connection-dialog.tsx:392 | the numeral of a number reads back as that number and has no leading zero |
| DeploymentClone.TakenRangeIsShort | app/console/connection-dialog.tsx:393-396 | a range whose ids are all taken is no longer than the list |
| DeploymentClone.CloneCdnDeployment | app/console/connection-dialog.tsx:387-414 | the search ends at the first free number after at most as many probes as deployments plus one; the copy goes behind its original, is switched off, has no host names and no old secret, and nothing else changes; distinct ids stay distinct |
| SubscriptionFeed.AddNode | app/subscription-feed.ts:17-25 | one step of the loop: the node joins its group, or opens a new one behind the others |
| SubscriptionFeed.SubscriptionFeedGroups | app/subscription-feed.ts:14-28 | the map-building loop computes one group for each subscription: its nodes in feed order, named after the first |
| SubscriptionFeed.OrderDistinct | app/subscription-feed.ts:15-26 | every subscription has one group |
| SubscriptionFeed.OrderByFirstOccurrence | app/subscription-feed.ts:12-27 | groups follow the first occurrences of their subscriptions |
| SubscriptionFeed.NodesConserved | app/subscription-feed.ts:14-28 | the groups together hold every node exactly as often as the feed |
| SubscriptionFeed.GroupExactly | app/subscription-feed.ts:17-25 | a group holds exactly the nodes of its subscription in feed order and is called after the display name of its first node, or after the subscription |

## Left out

- PolicyTheorems.PolicyDecidesPackets: the condition on the start goes one way, because a leftover matcher
  can be harmless for every packet (a TCP row narrowed to managed clients gives the same verdicts). The
  exact statements are `InstalledExactly` for rows and `PolicyVerdictExactly` for each packet.
- PolicyTheorems.PolicyForwardsAsBefore: the condition goes one way, because a foreign jump into a stale
  protocol chain need not be reached. The exact statement is `PolicyForwards`.
- NodePresentation.LabelsSameExactly: assumes that neither suffix nor subscription name of the two nodes
  contains the separator; joined parts are ambiguous otherwise.
- NodePresentation.NodeDisplayLabel: does not model `toLowerCase`; nodes carry their protocol and transport
  in lower case, in any alphabet.
- Hostnames.CanonicalHostIdempotent: models `toLowerCase` for the letters whose lower case is ASCII (A to Z and
  the Kelvin sign); a name with any other letter is invalid before and after.
- RouterOS text syntax and quoting: the script is a list of operations. A container address that contains
  the text `disabled=` would suppress the trailing `disabled=no`; that is not modelled.
- RouterOS dynamic and invalid rows, rows of other owners that change while the script is carried out, and
  the exact text of RouterOS error messages. A move of no rule or of several is modelled as an error and
  proved not to happen.
- Jump cycles made of foreign rules: the evaluator marks them `Looped` instead of modelling the router's limit.
- Callbacks of the autosave that throw or call back into the object, and the length of the debounce delay.
- `Date.parse`, `localeCompare` and the sort order of ids: a clock, a collation and an order are parameters.
- Floating point: statistics are over integers and rationals, negative zero is not modelled.
- JavaScript objects with inherited keys such as `constructor`: records are plain maps.
- `qualityStatsSince`, `activeQualityMetrics`, `readLatencyComparison` and `reverseAvailability`: lookups and
  single conditions.
- `nodePresentation`, `nodeLocationDetail`, candidate-id lists and the deployment and initialisation helpers
  of `app/tls-hostnames.ts`: easy members.
- The user interface, the API client, `cmd`, `worker` and the `internal` packages.
