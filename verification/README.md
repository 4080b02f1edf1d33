# GOAP change engine: a verified model

The change engine of GOAP is event-sourced: what a person or an agent does to a change is an entry of an append-only log,
and every state shown is a fold, a merge, a diff or a view of that log. This project models the code that computes these
states (`contracts/domain`, `contracts/decision`, `contracts/journal`, `contracts/codetext`, and the adoption of a branch in
`graph/graph`) and proves what it promises,
over every log, every draft, every value.

Each component is one file that holds the state, a specification function of it, and methods with the loops and the
in-place updates of the code, proved equal to the specification; the files beside it hold the laws of the
specification, which say what it computes from the entries of the log by their positions. `dafny verify dfyconfig.toml` checks the whole.

| files | component |
|---|---|
| `prelude.dfy`, `domain.dfy` | optional values, JSON trees, the order of strings; references, reviews, impacts, drafts, events |
| `impactfold.dfy`, `impactlaws.dfy`, `reviewlaws.dfy`, `adoption.dfy`, `sightlaws.dfy` | the fold of the impact events, what it says and keeps, and what a branch sees and becomes |
| `draft.dfy`, `diffapply.dfy`, `draftfold.dfy`, `draftlaws.dfy` | drafts: diff, patch, and their two folds |
| `install.dfy` | what the adoption of a branch installs on main |
| `draftmerge.dfy`, `mergefields.dfy`, `mergelaws.dfy` | the three-way merge |
| `codec.dfy`, `hoist.dfy`, `storedlog.dfy`, `payloadlaws.dfy` | how events are stored, alone, in batches and in commits |
| `runlog.dfy`, `historylaws.dfy`, `history.dfy` | the runs and writes of a log, and which step successes still stand |
| `decision.dfy`, `decisionlaws.dfy`, `pointlaws.dfy`, `policyvalues.dfy` | decision points, their boards and their replay, the values of their policy |
| `flow.dfy`, `branchlaws.dfy`, `flowlaws.dfy`, `viewlaws.dfy`, `competition.dfy`, `staleclosure.dfy` | flow branches, the status of an item on main and on a branch, which branches compete, what a relaunch invalidates |
| `codetext.dfy`, `codelaws.dfy`, `codeparselaws.dfy` | code attributes, printed and parsed |
| `reviewdata.dfy`, `reviewdatalaws.dfy`, `reviewshapes.dfy`, `reviewfold.dfy`, `reviewentrylaws.dfy` | review deltas and the reviews they fold into |
| `impacts.dfy` | the block list of impacts and its lookup |
| `transition.dfy`, `dependency.dfy` | the transitions that stand, the order of merges |

## What the proofs found

These are properties the code or its comments suggest that do not hold of every input. Each is kept as the code has it and
stated with the exact condition under which it holds.

- **Adoption** makes main show what the branch saw exactly when none of the branch's own impacts and reviews comes from a
  stale run (`Adoption.AdoptionMakesMainWhatTheBranchSaw`); `Adoption.StaleWorkOfTheBranchSurfaces` is a log in which main
  ends up showing an impact the branch did not see.
- **The installs of an adoption** give main the post the branch saw exactly when the branch saw one just when it holds a
  draft or main's own is left one (`Installs.InstalledPostIsTheBranchs`), as where the replaced runs are kept apart
  (`Installs.WorkedApartAgrees`); and the draft it saw exactly when main's own had not gone while the runs that stand had
  left it (`Installs.InstalledDraftIsTheBranchs`). A creation that was planned, whose draft a replaced run took, is lost
  (`Installs.PlannedCreationIsLost`).
- **Diff then apply** gives the target exactly when no link the patch adds is then updated or removed under its id
  (`DiffApply.DiffThenApply`); an owner cleared by the target stays. A merge keeps our link id under their target version,
  so the diff of a merge removes what it adds (`MergeLaws.MergedLinkIsLostUnderItsId`); the rebase renumbers its links first.
- **Link merging** is three-way by key exactly when no link that theirs dropped is twice in ours
  (`MergeLaws.LinksMergeByKey`); `MergeLaws.SecondLinkStays` is a merge that keeps the second one.
- **The items of a branch's view** are said to be plain (`contracts/domain/flow.go:300-307`), but those inherited from a
  branch that was adopted keep their flow, which the view does not know: they read as rejected there. An inherited item
  has its status of main exactly when it is replaced, or is of no branch and none weighs on it, or main rejects it
  (`ViewLaws.InheritedAsOnMain`, `ViewLaws.AdoptedItemIsRejectedOnABranch`).
- **A decision made on a branch** that is discarded leaves the board of the main flow with it, but not the status read off
  the whole log instead of a view: that one is restored exactly when the branch neither replaced the item nor judged it
  otherwise (`FlowLaws.DiscardRestoresExactly`, `FlowLaws.BranchDecisionLeavesTheBoard`).
- **Freezes in force** are those of the moves that stand exactly when no standing transition froze at an earlier taking and
  nothing at its last (`Transitions.InForceExactly`, `Transitions.FreezeOutlivesItsMove`).
- **A discard** of a flow rejects its candidate without a word in its main history (`ReviewLaws.DiscardLeavesTheMainHistory`).
- **A board** given as a typed list reads back from the log as it was exactly when none of its roles is nameless; otherwise
  the point has no board there (`PolicyValues.StoredReadsAlike`, `PolicyValues.NamelessSeatIsLost`).

## Model

| member | source | states |
|---|---|---|
| ImpactFold.ReviewSeenOn | contracts/domain/impactevent.go:313-322 | the review a flow sees is the last one on it that no adoption superseded, the stored review when there is none |
| ImpactFold.AdoptImpact | contracts/domain/impactevent.go:339-365 | what an adoption makes of an impact: its flow's work moves to main, work of stale runs is superseded, the review is recomputed from the history unless superseded |
| ImpactFold.ApplyImpactEventAt | contracts/domain/impactevent.go:212-289 | an event at a known position changes the list as the specification of each operation says, for every operation |
| ImpactFold.FoldImpacts | contracts/domain/impactevent.go:196-202 | the list after a log is the fold of its events, each applied at the position of its impact |
| ImpactLaws.ImpactIsItsEvents | contracts/domain/impactevent.go:205-365 | over any log, every field of an impact since its declaration: the committed version and the effect of the last commits that gave them, pre, recheck and post of the last events that set them, its flow until adopted, superseded when an adoption replaced its run; the rest as declared |
| ImpactLaws.ThereSinceDeclared | contracts/domain/impactevent.go:205-289 | an impact is in the list if and only if it was declared and, since, neither withdrawn nor cancelled as a creation without a post |
| ImpactLaws.ImpactsInOrder | contracts/domain/impactevent.go:205-235 | the impacts stand in the order they entered the list |
| ImpactLaws.HistoryIsItsEvents | contracts/domain/impactevent.go:205-365 | the reviews of an impact are, entry by entry, the reviews, reopenings and discards of the log since its declaration, each with what adoptions made of it |
| ImpactLaws.FlowSeesLast | contracts/domain/impactevent.go:313-322 | a flow sees the status of its last review not superseded, the stored one when it has none |
| ReviewLaws.StepIsPointwise | contracts/domain/impactevent.go:212-289 | an event acts on each impact as if it were alone in the list, and ids stay unique |
| ReviewLaws.FoldHasUniqueIds | contracts/domain/impactevent.go:196-202 | over any log no two impacts share an id |
| ReviewLaws.EditReopens | contracts/domain/impactevent.go:275-309 | after an edit on a flow, or a cancelled checkout of a modification or of a committed impact, that flow sees the impact proposed; one of a branch leaves main's review and every other flow's |
| ReviewLaws.NoAcceptanceSurvivesAnEdit | contracts/domain/impactevent.go:238-309 | over any log with no adoption since an edit of main, or a cancelled checkout there that reopens, an impact shown accepted was accepted after it |
| ReviewLaws.StoredReviewIsTheLast | contracts/domain/impactevent.go:238-365 | over any log, adoptions included, the stored review of an impact not superseded and never discarded is the last main entry of its history |
| ReviewLaws.DiscardLeavesTheMainHistory | contracts/domain/impactevent.go:212-289 | the exception: after a discard the stored review is rejected, and agrees with the main history only if that is rejected too |
| Adoption.SeenBy | contracts/domain/impactevent.go:382-406 | the view of a chain of flows: hidden impacts dropped, review and post as the chain sees them |
| Adoption.FlowPost | contracts/domain/impactevent.go:408-432 | the post of an impact along a chain is the one of the innermost flow that moved it, stale runs aside |
| SightLaws.SeenIsWhatTheChainSays | contracts/domain/impactevent.go:382-432 | a flow sees, in order, the impacts of its chain not replaced whose run stands, each with its last review of the chain and the post of the innermost flow whose last event says one |
| Adoption.AdoptionMakesMainWhatTheBranchSaw | contracts/domain/impactevent.go:339-406 | main shows after an adoption what the branch saw before it, same impacts, same order, same counted reviews, if and only if the branch's own work is of no stale run; it never shows less |
| Adoption.AdoptedLog | contracts/domain/impactevent.go:212-406 | the same between the folds of the log before and after the adopted event |
| Installs.AdoptNodes | graph/graph/flownodes.go:136-190 | what an adoption installs, from the drafts of the branch and of main and the log without the replaced runs; it goes through if and only if, for each impact with a draft of the flow, the last review of the flow on its node, by impact and position, accepts, and no event of main that stands changed it after the flow first took it up |
| Installs.InstallSays | graph/graph/flownodes.go:150-186 | when something is installed for an impact and what: the flow's draft, or else what main's is without the replaced runs when that differs or is gone, every field of the event |
| Installs.DeadReceivesNothing | graph/graph/flownodes.go:218-236 | no install reaches an impact that is gone or replaced |
| Installs.AdoptChangeImpacts | graph/graph/flownodes.go:218-236 | the log after the adopted event and the installs, those of impacts gone or replaced left out |
| Installs.AdoptionOfOne | graph/graph/flownodes.go:136-236 | over any log, an impact the flow saw ends as the adopted event leaves it and then its own install, whatever the others are |
| Installs.WorkStaysInStep | contracts/domain/impactevent.go:212-289 | over any log of such work, an impact posts a draft exactly when its own flow holds one, and of its node |
| Installs.InstalledPostIsTheBranchs | graph/graph/flownodes.go:136-236 | after an adoption main has the post the branch saw of an impact if and only if the branch saw one exactly when a draft of its own or one left of main's stands; it loses the impact if and only if it is a creation whose draft was all of replaced runs; what else changes of it |
| Installs.OwnDraftIsInstalled | graph/graph/flownodes.go:150-175 | where the branch holds a draft, main has the post the branch saw, with no further condition |
| Installs.WorkedApartAgrees | graph/graph/flownodes.go:136-236 | over any log in which replaced runs cancel no draft of main and hand none over, main has the post the branch saw of every impact it keeps |
| Installs.InstalledDraftIsTheBranchs | graph/graph/flownodes.go:136-236 | after an adoption main's draft holds what the draft the branch saw holds, if and only if main's had not gone while the runs that stand had left it |
| Installs.PlannedCreationIsLost | graph/graph/flownodes.go:176-182 | a concrete log: a planned creation the branch sees, lost on main by the cancelled install |
| Adoption.StaleWorkOfTheBranchSurfaces | contracts/domain/impactevent.go:339-406 | a concrete log: an impact of a stale run, hidden from the branch, is shown on main by the adoption |
| Adoption.BranchWorkIsInvisibleToMain | contracts/domain/impactevent.go:212-322 | whatever a run does on a branch, main sees of every impact the review, the references and the history it saw before; a withdrawal, a commit or a rebase goes through whatever its flow, so these are taken of impacts main does not see |
| Drafts.DraftDiff | contracts/domain/draft.go:181-255 | the patch between two drafts, links matched greedily first with their properties and then without, nil when nothing differs |
| Drafts.MatchLoosely | contracts/domain/draft.go:221-236 | the second pass: left links matched to unused ones are updated under their own id, the others removed |
| Drafts.ApplyDraft | contracts/domain/draft.go:274-345 | the draft after an event: installed, patched (links added, updated, then removed by id) or ended |
| DiffApply.MeantIsTheTarget | contracts/domain/draft.go:211-246 | the links the patch means to leave (kept, reworked, added) hold exactly what the target's links hold, as a multiset |
| DiffApply.DiffIsNilWhenNothingDiffers | contracts/domain/draft.go:181-255 | the diff is nil if and only if properties, owner, state, deletion and the multiset of link contents are the same |
| DiffApply.DiffThenApply | contracts/domain/draft.go:181-340 | applying the diff gives the target's properties, state and deletion; the owner unless the target cleared it, and the links, matched ones under their ids, exactly when no added link is caught by the update or removal of an id |
| DiffApply.FreshAddsStand | contracts/domain/draft.go:323-339 | added links with fresh ids and one target each meet that condition |
| DraftFold.ApplyDraftEvent | contracts/domain/draft.go:349-379 | the rows of drafts after an event: the row of its impact and flow edited, ended rows dropped, rows of dead impacts dropped |
| DraftFold.FoldDrafts | contracts/domain/draft.go:382-390 | the rows after a log are the fold of its events against the impacts at each point |
| DraftFold.DraftSeenBy | contracts/domain/draft.go:395-417 | the draft a chain of flows sees, replayed from the log, innermost flow first |
| DraftLaws.EventSays | contracts/domain/draft.go:274-345 | what any event makes of the draft of its impact and flow, operation by operation; an edit changes it key by key as its patch says: nothing for an unset key, the patch's value for a set one, the old one otherwise, and likewise state, deletion, owner and links |
| DraftLaws.RowAfter | contracts/domain/draft.go:349-390 | over any log, what any event makes of any row |
| DraftLaws.SeenAfter | contracts/domain/draft.go:395-417 | what any event makes of the draft a chain sees of a flow |
| DraftLaws.DiffEventTakesTheRow | contracts/domain/draft.go:181-390 | over any log, an updated event that carries the diff of two drafts takes the row of its impact and flow from the first to the second, links under the exact condition |
| DraftLaws.PatchSaysTheDifference | contracts/domain/draft.go:181-255 | a patch sets exactly the properties that differ, unsets those gone, says owner, state and deletion only when they change, and removes no link that one added replaces |
| DraftFold.DraftStepIsPointwise | contracts/domain/draft.go:349-379 | an event acts on each row as if it were alone, rows stay unique by impact and flow |
| DraftFold.SeenDraftIsTheInnermostRow | contracts/domain/draft.go:349-417 | for an impact that stayed live in a log that adopts no flow of the chain, the draft seen by the chain is the innermost of the rows the whole fold keeps |
| DraftFold.PostSaysWhetherDrafted | contracts/domain/impactevent.go:212-289 | a main impact has a main draft row if and only if its post is a draft reference, over any log whose events post their drafts |
| DraftMerge.MergeValue | contracts/domain/draftmerge.go:80-88 | one field: the side that moved, ours when both did, a conflict exactly when both moved apart |
| DraftMerge.MergeProps | contracts/domain/draftmerge.go:39-63 | the properties are merged key by key, the conflicts are exactly the keys moved apart |
| DraftMerge.MergeLinks | contracts/domain/draftmerge.go:117-174 | links decided by key: ours in order with what theirs made of them, then theirs' new ones sorted by key without an id |
| DraftMerge.MergeDrafts | contracts/domain/draftmerge.go:36-78 | the merge and its conflict names, sorted, each once, exactly those of the fields moved apart |
| MergeFields.MergeSays | contracts/domain/draftmerge.go:36-174 | every field and every property is that of the side that moved, ours when both did; each of our links, by position, stays, takes the worth of theirs or goes; theirs' new ones follow by name; the conflicts are exactly what both moved apart |
| MergeLaws.LinksMergeByKey | contracts/domain/draftmerge.go:117-174 | the value under a link key is the three-way merge of the values under it, if and only if not dropped by theirs while twice in ours |
| MergeLaws.SecondLinkStays | contracts/domain/draftmerge.go:117-161 | a concrete merge: a key theirs dropped and ours holds twice keeps its second link, where the three-way merge of the values is none |
| MergeLaws.MergeWithUnmovedTheirs | contracts/domain/draftmerge.go:36-78 | merging with a side that did not move gives the other side's content and no conflict |
| MergeLaws.MergeWithUnmovedOurs | contracts/domain/draftmerge.go:36-78 | when ours did not move the merge has theirs' content and no conflict |
| MergeLaws.MergeIsSymmetric | contracts/domain/draftmerge.go:36-78 | swapping the sides keeps the conflict names, and with none the content |
| MergeLaws.MergedKeysAreUnique | contracts/domain/draftmerge.go:117-174 | when ours names each target once, so does the merge |
| MergeLaws.MergedLinkIsLostUnderItsId | contracts/domain/draftmerge.go:148-161 | a concrete merge whose diff, applied, loses the link it moved |
| RunLog.LogKeepsItsIndex | contracts/journal/history.go:107-216 | over any log the index names the run ended under each execution though runs are dropped and renumbered, and a running step is the last of its path |
| RunHistory.History.Fold | contracts/journal/history.go:107-193 | the runs of a log by their starts and endings; its steps by the records that opened them and stay, numbered among those of their path; a success is current if and only if it is in the greatest set of runs no write of the log moved, closed under what they rely on, so none is that such a write moved |
| RunHistory.MovedIsStale | contracts/journal/history.go:255-272 | a success followed by a write on what was there before it, made by no run that is it or relies on it, is not current |
| HistoryLaws.WritesAreTheEntries | contracts/journal/history.go:98-184 | the writes of a log are exactly its updates, transitions, cancellations, withdrawals and rebases of impacts, and its keyed facts on subjects seen before, in order; each subject is born at its first entry |
| HistoryLaws.RunsAreTheStarts | contracts/journal/history.go:113-129 | the runs are the starts of the log in order, each with the status of the last record that ended it |
| HistoryLaws.RunsAt | contracts/journal/history.go:130-216 | the steps are the runs whose record opened one and that no later run of a waiting step dropped; a run succeeded when its step ended, failed by the last failing action of its execution, or as its action says |
| HistoryLaws.LinesAreTheRecords | contracts/journal/history.go:117-160 | a process has the last parent a record named, an execution the process of its last record |
| HistoryLaws.MakerIsFound | contracts/journal/history.go:224-244 | the run a write belongs to is the last that started the first process of its line that one started, else the first run of its execution |
| HistoryLaws.StandingIsGreatest | contracts/journal/history.go:246-297 | the standing successes are the greatest set of runs that may stand together, read off the log alone |
| RunHistory.History.JudgeAll | contracts/journal/history.go:220-297 | the steps left current are the greatest set of successes nothing moved, closed under relying on a latest run of the set no later than itself; every other success says why |
| Codec.EventRoundTrips | contracts/domain/impactpayload.go:142-198 | an event reads back from its entry as it was written, up to what is never stored |
| PayloadLaws.PayloadSays | contracts/domain/impactpayload.go:74-198 | what a payload leaves out: the post and the fields of an impact that its entry and its draft imply, and no other |
| PayloadLaws.AnyEventReadsBack | contracts/domain/impactpayload.go:142-485 | any event reads back, the impact it carries with the id and author it lacked |
| PayloadLaws.TopHoldsTheCommon | contracts/domain/impactpayload.go:287-329 | the top of a batch holds at a path of any depth exactly the values all parts hold there |
| PayloadLaws.PartKeepsTheRest | contracts/domain/impactpayload.go:287-329 | a part keeps exactly the values that not all hold |
| PayloadLaws.PutBackFails | contracts/domain/impactpayload.go:332-356 | putting back fails if and only if at some path top and part hold what cannot both stay |
| PayloadLaws.PutBackHolds | contracts/domain/impactpayload.go:332-356 | what is put back holds what the part holds, and what the top holds where the part has nothing |
| PayloadLaws.CommitNodesReadBack | contracts/domain/impactpayload.go:540-613 | every field of the event each node of a commit reads back as, recorded ones without version and impact |
| PayloadLaws.PartIdsDiffer | contracts/domain/impactpayload.go:234-235 | the events of an entry have distinct ids, their positions in decimal |
| Codec.PartsEntry | contracts/domain/impactpayload.go:248-283 | an entry in parts, what they share taken out of them, refused exactly when an event may not go with the first |
| Codec.BatchRoundTrips | contracts/domain/impactpayload.go:239-415 | each event of a batch reads back but for its part id, its position and the shared time |
| Hoist.HoistParts | contracts/domain/impactpayload.go:287-329 | in place, recursively: what every part holds alike is taken out, each part keeps the rest |
| Hoist.Unhoist | contracts/domain/impactpayload.go:332-356 | a part with the top put back, or a failure when an object is not there to receive its share |
| Hoist.HoistThenUnhoist | contracts/domain/impactpayload.go:287-356 | unhoisting the top into what a part kept never fails and gives the part, at every depth |
| StoredLog.CommitEntry | contracts/domain/impactpayload.go:540-563 | one entry for the commits of a change, refused unless they share branch and commit |
| StoredLog.ImpactBatchEntry | contracts/domain/impactpayload.go:239-283 | an entry for several events: of one commit when the first is a commit, in parts otherwise, refused exactly when they do not go together |
| StoredLog.ImpactEventsOf | contracts/domain/impactpayload.go:360-415 | the events an entry carries: one, the parts of a batch, or one for each node of a commit |
| StoredLog.AlikeLogsFoldAlike | contracts/domain/impactevent.go:196-289 | logs that differ only in ids, times, positions and the posts of edits fold to the same impacts and the same drafts |
| StoredLog.FoldingTheStoredLog | contracts/domain/impactpayload.go:142-485 | for validated events, both folds give on the decoded stored log what they give on the events |
| Decisions.BoardRuling | contracts/decision/decision.go:219-261 | the votes and the option after a ruling on a board, for each rule, the chair included |
| Decisions.MajorityIsUnique | contracts/decision/decision.go:236-241 | at most one option has more than half of the seats, so map order does not matter |
| Decisions.DecisionPointsAt | contracts/domain/decision.go:231-316 | the points of a log, each the replay of the events of the main flow about it, with its status at the moment, under the policy of the platform or the default one |
| DecisionLaws.PointsAreRight | contracts/domain/decision.go:231-292 | over any log every point with distinct seats is settled as its board says, or holds only votes cast in its seats that settle nothing |
| DecisionLaws.BoardsSettleByTheirRule | contracts/decision/decision.go:207-261 | over any log a board settles by its rule on votes its seats cast in that log, or by the chair of a full split majority; no repeat, outsider or ratification settles it |
| DecisionLaws.ChairNeverDecidesAlone | contracts/decision/decision.go:219-261 | off the majority rule go takes a ruling of every seat and anything else a seat that ruled it |
| PointLaws.LonePointsAreRight | contracts/decision/decision.go:286-305 | under the platform's policy, over any log, a point with no board is decided if and only if since its opening a person or a sure enough agent ruled it, or a pending ruling was accepted, by the first of them: option, writer, time and ruling |
| PointLaws.BoardsAreRight | contracts/decision/decision.go:207-305 | a board is decided if and only if the votes its seats cast since its opening settle it or its chair rules a full split one, by the first such ruling; the votes are those cast |
| PointLaws.RuleSays | contracts/decision/decision.go:219-261 | the votes settle under each rule exactly as it counts seats |
| PointLaws.RoundsAreCounted | contracts/decision/decision.go:286-305 | the rounds of an open point are those it opened with and the failed ones since |
| PointLaws.QuestionsAreTheLogs | contracts/domain/decision.go:226-292 | the questions of a point are those its undecidable rulings asked, answered by the first answer to each |
| PointLaws.StatusSays | contracts/decision/decision.go:309-325 | exactly when a point is decided, ratifying, blocked, escalated or open at a moment, and for whom |
| DecisionLaws.LonePointsAreBacked | contracts/decision/decision.go:286-305 | over any log a point with no board is decided on an option ruled by a person or a sure enough agent, or ruled and later ratified |
| DecisionLaws.DecidedForGood | contracts/domain/decision.go:231-316 | under either policy a decided point is unchanged in every extension of the log and reads the same at every later moment |
| DecisionLaws.DefaultPointsAreRight | contracts/domain/decision.go:202-292 | under the default policy, over any log of unique ids, a point is decided if and only if a decided ruling follows its opening, by the first one: its option, writer and time; none ever waits for a ratification |
| PolicyValues.Open | contracts/decision/decision.go:88-167 | exactly which given values are refused; those taken read as the policy meant, and read so back from the log if and only if no seat is nameless |
| PolicyValues.StoredReadsAlike | contracts/decision/decision.go:170-283 | for any values, what the policy reads of them in process it reads of their stored form, if and only if no role of a typed board is nameless |
| PolicyValues.FoldValues | contracts/decision/decision.go:207-357 | what an event writes into the untyped values reads as what the specification makes of the policy: votes and failed rounds, nothing else |
| PolicyValues.NamelessSeatIsLost | contracts/decision/decision.go:173-283 | a concrete board of one nameless seat, lost once it was stored |
| Flows.EffectiveOf | contracts/domain/flow.go:170-186 | the state of a flow under its ancestors, within 64 hops |
| Flows.Change.Flows | contracts/domain/flow.go:189-270 | the flows of the log with those each open one competes with and the active option marked, whether kept or replayed |
| BranchLaws.BranchesAreTheirEvents | contracts/domain/flow.go:189-239 | over any log the branches are those its events open, in order, every field as opened, decided by the first decision since and evaluated by the last evaluation before it |
| BranchLaws.ActiveIsTheLast | contracts/domain/flow.go:213-234 | an option is active if and only if the last activation of an open option was of it and none put it aside or decided it since |
| BranchLaws.ListedSays | contracts/domain/flow.go:240-270 | the listed branches, each decided one without rivals, marked active exactly then |
| BranchLaws.CompetesSays | contracts/domain/flow.go:246-262 | what makes two branches compete, item by item |
| BranchLaws.StatusIsTheLine | contracts/domain/flow.go:170-186 | a branch is discarded when it or one of the 64 above is discarded or unknown, else open when one is, else adopted |
| Competition.CompetesExactly | contracts/domain/flow.go:236-264 | a flow is listed as competing with another if and only if it is open, the other was adopted since its opening, and they replace an item or a run in common or an item of it builds on what the other replaced |
| Competition.CompetitionLasts | contracts/domain/flow.go:236-264 | a flow that competes with another does so in every extension of the log until it is decided |
| Competition.NothingIsReplacedTwice | contracts/domain/flow.go:126-130 | over any log whose adoptions the graph allows, two flows open together and both adopted replace no item and no run in common |
| Competition.AdoptedIsInEffect | contracts/domain/flow.go:167-186 | over any such log an adopted flow is in effect, its whole chain of parents being adopted |
| Competition.OneActiveOption | contracts/domain/flow.go:213-234 | over any log at most one flow is active, an option still open |
| Flows.Change.Append | contracts/domain/flow.go:189-193 | appending keeps the replay that was kept right for the length it was made at |
| Flows.Change.View | contracts/domain/flow.go:308-339 | the items a flow sees: its parent's view without what it invalidated, and its own |
| BranchLaws.ViewIsItsItems | contracts/domain/flow.go:308-339 | main sees the items written on it or on a branch in effect; a branch the items of the view above it that are no flow event and not invalidated, then its own as plain ones; by position, nothing else |
| ViewLaws.BranchViewStatus | contracts/domain/flow.go:308-339 | on any branch's view an item is superseded, rejected when it still names a flow, or else judged by what the view holds |
| ViewLaws.InheritedAsOnItsBranch | contracts/domain/flow.go:300-339 | an item a branch of a branch inherits, with what concerns it, has its status of that branch's view |
| ViewLaws.InheritedAsOnMain | contracts/domain/flow.go:300-339 | an item inherited from main, with what concerns it, has its status of main if and only if it is replaced, or is of no branch and none weighs on it, or is of one and main rejects it |
| ViewLaws.AdoptedItemIsRejectedOnABranch | contracts/domain/flow.go:322-338 | a concrete log: an item of an adopted branch, proposed on main and rejected on the view of a branch opened since |
| Flows.Change.EffectiveStatus | contracts/domain/change.go:394-439 | the status of an item under the decisions, replacements and branches of the log |
| BranchLaws.StatusIsTheLogs | contracts/domain/change.go:394-439 | the status of any item: superseded by an item, candidate or rejected as the branch it was last written on, else superseded by an adopted branch, stale by an open one unless rejected, or as the last decision on it |
| FlowLaws.CountsExactly | contracts/domain/change.go:394-449 | an item counts if and only if nothing replaced it, its flow and its ancestors are adopted, the last word on it does not reject it, and no adopted branch invalidated it |
| FlowLaws.DiscardRestoresTheBoard | contracts/domain/flow.go:189-339 | after opening, working on and discarding a branch, the main view holds the non-flow items it held, in order, each with the status it had there |
| FlowLaws.DiscardRestoresTheStatuses | contracts/domain/change.go:394-439 | the same of the statuses alone, for any work aside a flow discarded by the end of the log |
| FlowLaws.DiscardLeavesVerdicts | contracts/domain/change.go:394-439 | read off the whole log, the exact status of any item after a discard: that of before, under what the branch replaced and decided |
| FlowLaws.DiscardRestoresExactly | contracts/domain/change.go:394-439 | read off the whole log, a standing item has its status back if and only if the branch did not replace it nor judge it otherwise |
| FlowLaws.BranchDecisionLeavesTheBoard | contracts/domain/change.go:407-415 | a concrete log: rejected on a discarded branch, a requirement is proposed again on the board of the main flow, and rejected still in the whole log |
| FlowLaws.FlowsAsBefore | contracts/domain/flow.go:170-270 | once a branch is discarded every flow has the effective state it had before, the branch and its own being discarded |
| StaleClosures.StaleClosure | contracts/domain/flow.go:344-371 | terminates with the ids of the items of the least closed set, in the order of the items |
| StaleClosures.ClosureIsReachability | contracts/domain/flow.go:344-371 | a set is that closure if and only if it holds exactly what a walk of derivations and decisions reaches from a seed |
| StaleClosures.OrderDoesNotMatter | contracts/domain/flow.go:344-371 | the order of the items does not change it |
| StaleClosures.FlowEventsAreNotReached | contracts/domain/flow.go:344-371 | no flow event is reached |
| CodeText.Format | contracts/codetext/codetext.go:42-96 | the printed lines: the language first, the valid keys sorted, the block in a fence longer than any run of backticks |
| CodeText.LongestRunOf | contracts/codetext/codetext.go:102-113 | the longest run of backticks, counted in one pass |
| CodeText.Parse | contracts/codetext/codetext.go:118-194 | the value of a text or the error of the line that has it |
| CodeParseLaws.ParseIsItsLines | contracts/codetext/codetext.go:118-243 | what any text reads as, line by line: each key by its last pair, the first line that does not read and its number, the code between the fences, text after them refused |
| CodeParseLaws.PrintIsSaid | contracts/codetext/codetext.go:42-86 | every line of a print, in order |
| CodeParseLaws.PlainValues | contracts/codetext/codetext.go:88-100 | exactly which values are quoted |
| CodeParseLaws.FenceIsShortest | contracts/codetext/codetext.go:65-68 | the fence is the shortest of three backticks or more that the code does not hold |
| CodeTextLaws.NoLineCloses | contracts/codetext/codetext.go:65-78 | no line of a code closes the fence it is printed in |
| CodeTextLaws.PairReadsBack | contracts/codetext/codetext.go:88-100 | a printed key and value parse back, quoted or not |
| CodeTextLaws.FormatThenParse | contracts/codetext/codetext.go:42-194 | for every value, parsing its print gives it back with the invalid keys left out, one final newline dropped and line ends as newlines |
| CodeTextLaws.RoundTrip | contracts/codetext/codetext.go:42-194 | it gives the value itself if and only if its keys are valid and not the language and its code has no return at a line end and no final newline |
| CodeTextLaws.PlainTextIsCode | contracts/codetext/codetext.go:115-117 | a text with neither front matter nor fence is its own code |
| ReviewData.EntryDefaults | contracts/domain/reviewrecord.go:161-191 | in place: the value most entries hold of each field, two at least, is taken out of them |
| ReviewData.Data | contracts/domain/reviewrecord.go:104-151 | the data of a delta, only what it sets |
| ReviewData.ReviewDeltaOf | contracts/domain/reviewrecord.go:194-232 | the delta of any data, whatever its shape |
| ReviewDataLaws.MostIsHeldMost | contracts/domain/reviewrecord.go:166-177 | the default taken of a field is held by the most entries |
| ReviewShapes.DefaultsAreShared | contracts/domain/reviewrecord.go:161-191 | a field has a default if and only if two entries hold a value, the one held most and first so often; entries that hold it leave it out, those without a value say null, all else stays |
| ReviewShapes.DeltaIsItsData | contracts/domain/reviewrecord.go:194-261 | what data of any shape reads as, field by field and element by element |
| ReviewDataLaws.DeltaReadsBack | contracts/domain/reviewrecord.go:104-261 | every delta reads back from its data, each string trimmed |
| ReviewDataLaws.DeltaRoundTrip | contracts/domain/reviewrecord.go:104-261 | it reads back as it was if and only if none of its strings has space around it |
| ReviewFolds.ReviewFold.Apply | contracts/domain/reviewrecord.go:357-422 | the reviews after an item, the review it is about and whether it submitted it |
| ReviewFolds.ReviewFold.Clone | contracts/domain/reviewrecord.go:323-332 | a fresh fold of the same reviews, which later items change alone |
| ReviewEntryLaws.ReviewIsItsGestures | contracts/domain/reviewrecord.go:357-422 | over any log a review is there once opened and is what the gestures on it until it was final say: its parts, and the comment, outcome and writer of each entry, are the last given since the entry was last removed |
| ReviewFolds.ReviewsAreWellKept | contracts/domain/reviewrecord.go:357-422 | over any log each review has its own key, a known status, and at most one entry an impact |
| ReviewFolds.FinalReviewsStay | contracts/domain/reviewrecord.go:357-422 | a submitted or discarded review never changes in any extension of the log |
| ReviewFolds.SubmittedOnce | contracts/domain/reviewrecord.go:357-422 | no log submits a review twice |
| ReviewFolds.SubmissionIsSeen | contracts/domain/reviewrecord.go:357-422 | an item reports a submission if and only if the review is submitted after it and was not before |
| ImpactLists.Append | contracts/domain/impacts.go:207-219 | the list with an impact more, in fresh blocks where written and shared ones elsewhere; no array that was there changes |
| ImpactLists.Set | contracts/domain/impacts.go:222-228 | the list with an impact replaced, its block copied, the others shared |
| ImpactLists.Pointed | contracts/domain/impacts.go:191-204 | a slice cut in blocks holds the same list |
| ImpactLists.Index | contracts/domain/impacts.go:94-112 | with any lookup right on the first positions, the first position of an id, as a walk of the whole list finds |
| ImpactLists.OfNode | contracts/domain/impacts.go:116-145 | a caller that checks each impact finds what a walk of the whole list finds |
| ImpactLists.OfKey | contracts/domain/impacts.go:124-145 | the same for a key |
| ImpactLists.Plain | contracts/domain/impacts.go:148-161 | true if and only if no impact is superseded or of a flow |
| ImpactLists.AppendedIsLookedUp | contracts/domain/impacts.go:207-219 | a lookup right for a list is right for the list with an impact more |
| Transitions.Passed | contracts/domain/transition.go:69-81 | the transitions that stand, filtered in place at each move |
| Transitions.PassedIsStanding | contracts/domain/transition.go:69-103 | a transition is passed if and only if it was taken and no later move entered the state its last taking left |
| Transitions.PassedByLastTaking | contracts/domain/transition.go:69-81 | the list is ordered by last taking and has no duplicates |
| Transitions.InForceFreezes | contracts/domain/transition.go:106-123 | the freezes in force, in the order of the moves |
| Transitions.InForceExactly | contracts/domain/transition.go:105-123 | they are the freezes of the standing moves if and only if no standing transition last froze nothing after freezing before |
| Transitions.FreezeOutlivesItsMove | contracts/domain/transition.go:106-123 | a concrete log, each move leaving the state the last one entered: a freeze stays in force though the move that stands of its transition froze nothing |
| Dependencies.DependencyOrder | contracts/domain/dependency.go:31-62 | terminates with the greedy order of the list sorted by creation then id |
| Dependencies.OrderIsPermutation | contracts/domain/dependency.go:31-62 | every change of the list merges once, cycles or not |
| Dependencies.DependenciesMergeFirst | contracts/domain/dependency.go:31-62 | on a list without cycle each change comes after every change of the list it depends on |
| Dependencies.OrderTakesTheOldest | contracts/domain/dependency.go:31-62 | each change is the least, by creation then id, of those that could merge in its place |

## Left out

- Storage, RPC, messaging, contexts and locks (`engine/engine`, `contracts/graphapi`): they orchestrate interfaces whose bodies are elsewhere.
- Conditions in CEL, Casbin policies, form widgets, lifecycle and change-stack checks: external libraries, rule tables, plain searches.
- JSON text, regular expressions, time formatting, percent-encoding of URLs: JSON is a tree, its text a pair of functions that undo each other, times are integers, a URL's text joins its parts as they are.
- A nil map or slice and an empty one are one value; a pointer is an optional value; strings are sequences of characters, so invalid UTF-8 is not modelled.
- Hydration of base copies (`contracts/domain/impactpayload.go:36-71`) and the nodes a version store writes into a commit: identifiers are opaque and fresh.
- Hoist.HoistParts: compares JSON trees where the code compares bytes, and the keys of a part are written in one canonical order.
- StoredLog.FoldingTheStoredLog: leaves out checkouts copied from a base version and commits already recorded, which the version store fills in, and drafts whose editor the log never names.
- DraftFold.SeenDraftIsTheInnermostRow: for impacts that stay live in the log and chains no event adopts, with no stale run; an ended impact has no row to compare.
- Installs.InstalledPostIsTheBranchs: for an impact that stays live, whose drafts are of one node, worked on by main and the branch as the graph writes it (`Installs.Works`) and committed by none of its events, with no run of the branch among those it replaces; ids and times the emission fills in are left as given.
- ViewLaws.InheritedAsOnMain: for items that nothing the branch invalidated or did itself concerns; flow events are written on main and supersede nothing.
- DraftFold.PostSaysWhetherDrafted: for logs whose events post the drafts they start, as the graph writes them, and with no branch for the impact.
- ReviewLaws.StoredReviewIsTheLast: leaves out impacts some event discarded, for which the next row gives the exact exception.
- MergeLaws.LinksMergeByKey: link types hold no colon, as the names of link types do.
- RunHistory.History.JudgeAll: the parent relation of processes has no cycle, which the code needs to end its walk up the parents.
- DecisionLaws.BoardsSettleByTheirRule: rulings that are neither decided nor undecidable are set aside (the graph refuses them, `graph/graph/decision.go:139-149`); items are dated and points open with no vote.
- PolicyValues.Open: numbers are reals, so not-a-number and rounding are not modelled; the texts of times and durations are functions, of which parsing undoes formatting; a refusal has no message.
- PolicyValues.FoldValues: the points of a replay hold their policy as a record; this is why it may stand for the untyped values.
- Flows.Change.View: parents are opened before their children, as opening a branch checks; the code would not end on a cycle.
- FlowLaws.DiscardRestoresTheBoard: branches of the discarded branch are nested less than 64 deep, the number of hops the code walks; flow events are written on the main flow and supersede nothing, as the graph writes them (`graph/graph/flow.go:11-16`).
- Adoption.BranchWorkIsInvisibleToMain: withdrawals, commits and rebases only of impacts main does not see, as the code makes them on the impact itself whatever their flow.
- Competition.NothingIsReplacedTwice: a log whose adoptions the graph allows is one where each adoption meets the two checks of `graph/graph/flow.go:120-126`.
- CodeTextLaws.FormatThenParse: quoting and unquoting are any two functions of which the second undoes the first, with the shape Go gives them.
- ReviewFolds.ReviewFold.Apply: the verdicts derived from a submitted review (`contracts/domain/reviewrecord.go:427-457`) and the check of its data are not modelled.
- ImpactLists.OfNode: an iterator is the sequence it yields to a caller that never stops it; blocks hold the impacts their pointers would name.
- Dependencies.DependencyOrder: the stable sort of the library is an insertion sort; changes of one id and one time may come in another order.
- Conflicts pending after a rebase and whether a draft modifies its base (`contracts/domain/draftmerge.go:202-330`), facts and their items (`contracts/domain/changelog.go:119-199`): per-field tables, which would only add easy members.
