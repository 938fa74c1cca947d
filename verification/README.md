# Committed proof state: a verified model

The repository keeps the state of mathematical proofs in a graph that changes only through a commit
gate, an append-only journal with leases, rules that propagate closure and taint, and translations
into and out of the operation language they share. This project models those four machines in Dafny
and proves what they are for: facts about every state any run can reach, and agreement between the
places where the repository implements one thing twice.

**The commit gate.** `Vocabulary`, `Ops` and `Transitions` hold the closed vocabularies, the four
kinds of op and the status tables. `GraphState.MemoryView` is the in-process view with its two edge
indexes and `Apply.ApplyToView` the loop that applies ops to it. `Rules` says per op what each of the
fourteen validators objects to; `Validate` runs the validators as loops over dictionaries and proves
that they report exactly that. `Reasons` and `Report` say the same a second time, from the ops and the graph
alone, and prove that the report blames exactly the ops that are to blame, for exactly the reasons that
apply; `Schema` does so for the tables. `Gate` is the transition system: a proposal is accepted against the
committed graph and applied to it. The validators look at one proposal and one graph, so everything
in `Conservation`, `Typing`, `StatusHistory`, `Evidence` and `Records` is an induction over runs from the empty
graph. The gate leaves some discipline to proposers. Each rule of it is a named predicate in `Gate`
(`UpsertsOnce`, `LabelsKept`, `TacticsFresh`, `EdgeIdsFresh`, `EvidenceLocal`, `SetsFollowUpserts`),
`Evidence` (`KeepsEvidence`) or `Records` (`KeepsObstructions`), and `Necessity` holds an accepted proposal
that breaks the invariant when the rule is dropped. `Reaching` shows that the graphs these proposals start
from are reached by proposals that keep the rules, each made at the head, and that such a run and one
more commit are a run of the whole system, journal and leases included. A commit journals first and applies
afterwards, and applying may raise: a run is any sequence of commits, and a theorem about every graph of a
run says `IsSmoothRun` where it needs every proposal to set only what exists by then. For conservation,
independent replays, evidence, stagnation and immutable fields the exact condition on one step is proved as
well, and the first three run theorems follow from theirs.

**The journal and the leases.** `Ledger` gives each write transaction as a relation between the
tables before and after; rows that SQL leaves unordered are listed by an arbitrary enumeration. A
history is any interleaving of such transactions with rolled-back ones, by any number of clients. Clock
readings are parameters of the transactions; the one theorem that needs a clock that does not run
backwards, `LeaseRuns.ExpiredForever`, says so. `Store.JournalStore` is the store whose methods are those
transactions, `Commit.CommitGate` validates and appends. `LeaseRuns`, `JournalRuns` and `Chain` prove what
every history keeps, `LeaseLife` what each transaction does to every row and exactly how long a grant lasts,
and `Commit.ViewIsReplayedJournal` ties the journal to the gate: whatever interleaves, the journal is a run
of the gate and the view is its last graph, so the run invariants hold of the view. `Scheduler` and
`Leasing` put the best-first scheduler on top; `Eligible` and `Scores` say which moves it offers and what
their scores are made of.

**The graph rules.** `Closure` is the bounded AND/OR loop and its least fixpoint, `ClosureCap` where its bound
is reached, `Dependencies` the guarded insertion of DEPENDS_ON edges, `Taint` the taint cascade, `Mork` the
second, recursive implementation of reachability in MeTTa. A Cypher statement is one simultaneous update of
everything it matches.

**The translations.** `Dispatch` compiles a search result into ops; `Emission` and `EmissionOrder` say which ops
those are and in what order,
`Compilation`, `References` and `Resubmission` prove what they do, and `Submission` what the gate can object to.
`Projector` is the two-pass projection of the journal, compared with replay; `Readback` reads the emitted atoms
back as the replayed graph and as the space of the MeTTa rules.

`Obligations`, `Reach`, `Sorting` and `Ids` are the supporting theory: positions sorting to 0..n-1,
reachability over finite edge sets, stable sorting, and identities built from serial numbers. Every
induction is written out; no lemma leaves one to Dafny.

## Where the code and its documentation differ

- `move_is_complete` counts a reopened subgoal as open; the loop does not (neo4j_adapter/rules.py:238-249), so
  it closes states over subgoals that stay reopened (`Closure.ClosesOverReopened`). A move the loop closes is
  complete in the documented sense exactly when none of its subgoals was reopened
  (`Closure.ClosedMoveIsCompleteIff`).
- A move without a REQUIRES edge closes in the first round, with nothing proved. Where nothing is closed yet,
  `Closure.FirstRoundClosesIff` says when a state closes that way, and that otherwise none ever closes.
- `close_state` promises to propagate to a fixpoint; the loop stops after 64 rounds. It then has closed exactly
  the states with a derivation of height at most 64 (`Closure.ClosedIffDerivable`): all that follow while
  fewer than 64 states are open (`Closure.CapNeverTruncates`), and not all of a longer chain
  (`ClosureCap.CapCanTruncate`).
- The Cypher guard searches for a path of at least one edge and so lets a claim depend on itself;
  `would-cycle?` is reflexive and does not. `Dependencies.ClaimGraph.AddClaimDependency` and
  `Mork.WouldCycleIsExact` state each exactly.
- `formal_result_to_ops` promises that a committed result may be replayed without effect. That fails for
  results with a checkpoint or a certificate, which mint a fresh id each time, and for results that report
  contradicting statuses for one id; `Resubmission.ResubmissionIsSilentIff` and, for any proof id,
  `Resubmission.SecondPassIsSilentIff` give the exact condition.
- `_next_serial` counts only ids with one slash, so for a proof id that contains a slash it never counts
  what it has minted (`Ids.MintsAgainIff`).
- `check_references` accepts a SetField that precedes the upsert of its node; `apply_ops` then raises
  (`Necessity.SetBeforeUpsertRaises`, exact condition in `Gate.AppliesIffSetsFollowUpserts`).
- `acquire_lease` and `issue_lease` log rows superseded long ago again, so the audit trail does not have one
  entry per transition (`LeaseRuns.SupersededTwice`; exact conditions in `LeaseRuns.AcquireLogsChangesIff` and
  `LeaseRuns.IssueLogsChangesIff`). The last entry of a lease still gives its state
  (`LeaseRuns.LeasesAlwaysConsistent`).
- `propagate_taint` promises that a refuted claim is never left with closed states relying on it. Only states
  that use a strict dependent reopen, so a state that uses the refuted claim alone stays closed
  (`Taint.ClosedStateKeepsRelying`, exact condition in `Taint.NoneReliesIff`).
- The gate validates outside the lock and compares the base only when it appends. A base ahead of the head at
  validation may be the head by then, and what was never valid against it is committed
  (`Necessity.BaseAheadSlipsThrough`); a base at or behind the head is safe (`Commit.LateAppendStillAccepted`).

## Model

| member | source | states |
|---|---|---|
| GraphState.MemoryView.AddEdge | src/commit_gate/state.py:80-90 | both indexes still agree with a scan after the call if and only if the edge id was free; the view itself does not check |
| GraphState.MemoryView.RemoveEdge | src/commit_gate/state.py:92-97 | removal finds the edge in both lists (never ValueError) and keeps both indexes right; an unknown id is a no-op |
| GraphState.MemoryView.EdgesFrom | src/commit_gate/state.py:105-106 | the answer is exactly the edges of that type leaving the node, once each, and every listed id resolves |
| GraphState.MemoryView.EdgesTo | src/commit_gate/state.py:108-109 | the same for edges entering the node |
| GraphState.TakenIdBreaksIndex | src/commit_gate/state.py:80-90 | adding under a taken id always leaves a stale or doubled index entry |
| Apply.ApplyToView | src/commit_gate/apply.py:16-44 | the loop keeps both indexes right, reaches the specified graph, and fails exactly where a set meets an unknown node |
| Apply.NodeAfter | src/commit_gate/apply.py:23-37 | after any batch a node is the committed one or the first upserted, keeps that label, and each field has the last value written or its original one |
| Apply.EdgeAfter | src/commit_gate/apply.py:38-44 | what becomes of one edge id depends only on the additions and removals of that id |
| Apply.ReplayIsIdempotent | src/commit_gate/apply.py:16-44 | a batch that succeeds changes nothing when applied a second time |
| Apply.ReplayOverPrefix | src/commit_gate/apply.py:16-44 | replaying a journal from the start over any applied prefix gives the graph of the whole journal |
| Validate.CheckSubgoalConservation | src/commit_gate/validate.py:236-302 | the dictionary loops report exactly the specified findings of every tactic, whatever order dictionaries iterate in |
| Validate.CheckExecutorResult | src/commit_gate/validate.py:305-381 | the loops report exactly the specified findings on results and closures |
| Validate.CheckAnnotationSeparation | src/commit_gate/validate.py:384-428 | the one-pass bookkeeping reports exactly the writes without a prior value and the hand closures carrying scores |
| Validate.CheckReferences | src/commit_gate/validate.py:437-546 | the two passes report exactly the unknown, relabelled, conflicting, ill-typed and doubly removed references |
| Validate.ValidateProposal | src/commit_gate/validate.py:117-140 | all fourteen validators together, with and without a view |
| Validate.NoFindingsIffAccepted | src/commit_gate/validate.py:117-140 | the finding list is empty if and only if the proposal satisfies every rule |
| Report.ReportIsExact | src/commit_gate/validate.py:117-140 | the report holds a reason for op i if and only if op i is to blame for it, each reason being said of the ops and the graph alone (which op, which field, which edge, first or last); the one reason without an op appears if and only if no base is named |
| Report.AcceptedIffBlameless | src/commit_gate/validate.py:117-140 | a proposal is accepted if and only if it names a base and no op is to blame for anything |
| Report.ReportedForIff | src/commit_gate/validate.py:117-140 | a reason is reported for some op if and only if some op is to blame for it |
| Report.LeaseAskedIff | src/commit_gate/validate.py:143-174 | a lease is asked for if and only if lease or token is missing and some op sets a status, a verdict, or a field whose name ends like one |
| Reasons.HasReplayIff | src/commit_gate/validate.py:767-783 | a replay is found if and only if proposed or committed edges lead from the claim to a certificate and on to a replay that is read as verified, sorry-free and run by a known actor other than the known author |
| Reasons.HasAlignmentIff | src/commit_gate/validate.py:786-797 | an alignment is found if and only if an edge, proposed or committed, comes from a node read as reviewed and aligned |
| Schema.MayFollowIff | src/commit_gate/transitions.py:13-136 | a value may follow another if and only if tables keyed by the value entered say so |
| Schema.TabledIff | src/commit_gate/transitions.py:13-136 | a field has a transition table if and only if some transition of it is legal |
| Schema.LegalIff | src/commit_gate/validate.py:58-72 | where a field has a transition table, its vocabulary is exactly what occurs in the table; elsewhere exactly the listed words; research states and moves have none |
| Schema.EndsIff | src/commit_gate/validate.py:83-107 | the ends an edge type asks for are the one label that it may leave and the one it may arrive at |
| Schema.FrozenIff | src/commit_gate/transitions.py:139-165 | a field is immutable on a label if and only if the label is listed for the field |
| Obligations.SortsToRangeIffInOrder | src/commit_gate/validate.py:284-302 | comparing the sorted positions with 0..n-1 means that the children can be listed by position with none missing, repeated or null |
| Obligations.ArityCheckMeans | src/commit_gate/validate.py:255-302 | the arity checks pass if and only if the declared count is right, targets are distinct and positions enumerate the children |
| Gate.AppliesIffSetsFollowUpserts | src/commit_gate/apply.py:27-37 | ops apply without an error if and only if each set names a committed or earlier upserted node |
| Gate.StepIffSetsFollow | src/commit_gate/apply.py:27-37 | an accepted commit completes without raising if and only if its sets follow their upserts |
| Gate.LabelIsLabelAfter | src/commit_gate/validate.py:444-448 | under the node discipline the label the validators assume for any id is its label after the commit |
| Gate.ImmutableKept | src/commit_gate/validate.py:595-605 | a commit whose upserts keep labels keeps every committed node, its label and its immutable fields, also where applying raises |
| Gate.ImmutableIffNotRewritten | src/commit_gate/validate.py:595-605 | with no rule on the proposal: one step keeps an immutable field of a committed node if and only if the last value the proposal writes to it, if any, is the one it has; and any such write comes with an upsert of the node under another label |
| Gate.EdgesOfTypeAfter | src/commit_gate/validate.py:516-546 | when nothing of a type is removed by name, edges of that type are exactly the committed ones and the added ones: a removal cannot hit an edge of another type |
| Conservation.ConservationOverRuns | src/commit_gate/validate.py:236-302 | in every graph a disciplined run reaches, every tactic has exactly subgoal_count required children, at distinct targets, indexed 0..n-1, and no child edge is orphaned |
| Conservation.ConservationIffEdgesLand | src/commit_gate/apply.py:38-44 | under the node rules and with fresh tactics, one accepted step keeps conservation if and only if each required-child edge takes effect as written and none is lost |
| Conservation.ConservationIffCountsAgree | src/commit_gate/validate.py:236-302 | with no rule on nodes: where the child edges land, one accepted step keeps conservation if and only if each tactic ends with the count of its committed and added children together, one of the two sets holds the other, and every added child hangs off a tactic |
| Conservation.FreshIdsLand | src/commit_gate/apply.py:38-44 | fresh, distinct edge ids are enough for that |
| Conservation.EntriesAreTheEdges | src/commit_gate/validate.py:244-263 | the collected children of a tactic are its added edges, each once, in op order |
| Typing.TypingOverRuns | src/commit_gate/validate.py:83-107 | in every reachable graph each edge of a listed type joins existing, correctly labelled nodes (a content-addressed target may be missing), and every closing edge leaves a Lean-accepted tactic with zero subgoals |
| Typing.ClosureComesWithTactic | src/commit_gate/validate.py:355-381 | an accepted closing edge comes with a Lean-accepted, zero-goal tactic in the same proposal |
| Typing.IndependenceOverRuns | src/commit_gate/validate.py:665-695 | in every graph a run with local evidence edges reaches, both ends of a replay edge exist and are not by the same known actor |
| Typing.IndependentIffNoneCompleted | src/commit_gate/validate.py:665-695 | one step keeps replays independent if and only if it does not create, under the actor of the certificate, the replay a committed edge that it keeps already links to |
| Typing.IndependentRunsIff | src/commit_gate/validate.py:665-695 | over a run, no certificate is ever replayed by its own known actor if and only if no proposal does that |
| StatusHistory.StatusStep | src/commit_gate/validate.py:568-592 | one commit whose upserts keep labels moves a tabled status by at most one step of its table, however often it writes it and even where applying raises |
| StatusHistory.RunsAreLawful | src/commit_gate/validate.py:568-592 | in any run, raising commits included, whose upserts keep labels every tabled status moves by table steps only, and nodes keep their labels |
| StatusHistory.StatusReachable | src/commit_gate/transitions.py:13-136 | a status at a later revision is reachable in its table from any earlier non-null one |
| StatusHistory.TerminalForever | src/commit_gate/transitions.py:13-136 | a terminal status never changes again, and a FormalState that left open never returns to it |
| StatusHistory.ClaimChangesAtMostEightTimes | src/commit_gate/transitions.py:27-46 | a claim with a status changes it at most eight times over any run |
| StatusHistory.ImmutableForever | src/commit_gate/transitions.py:139-165 | over any run, raising commits included, whose upserts keep labels, nodes are never lost or relabelled and immutable fields never change |
| Transitions.TerminalIsAbsorbing | src/commit_gate/transitions.py:13-136 | nothing but itself is reachable from a status with no successor |
| Transitions.NothingReturnsToOpen | src/commit_gate/transitions.py:14-26 | open is unreachable from every other FormalState status |
| Transitions.ClaimRankFalls | src/commit_gate/transitions.py:27-46 | each legal claim transition lowers a rank that starts at eight at most |
| Evidence.VerifiedClaimsKeepEvidence | src/commit_gate/validate.py:640-662 | in every later state of a run that keeps evidence edges and creates no claim as verified, each lean-verified claim has a certificate with a verified, sorry-free replay by a different known actor |
| Evidence.VerifiedClaimsAreProved | src/commit_gate/validate.py:640-662 | in every later state of such a run each lean-verified claim has a PROVED_BY edge to a certificate and a REPLAYED_BY edge from it to a replay whose status is verified, whose sorry_detected is false, and whose actor is known and not the known actor of the certificate |
| Evidence.EvidenceIffChainsLand | src/commit_gate/validate.py:640-662 | one step, whatever it does to edges, ends with evidence for every lean-verified claim if and only if for each claim it leaves lean-verified two edges end in place whose ends the gate knows as certificate and replay and whose fields it would accept as evidence |
| Evidence.EvidenceRunsIff | src/commit_gate/validate.py:640-662 | over a run, every lean-verified claim always has its evidence if and only if every proposal meets that condition |
| Evidence.VerifiedClaimsWereAligned | src/commit_gate/validate.py:698-719 | in any run under the node rules that creates no claim as verified, whatever it does to edges, each lean-verified claim was promoted by an earlier proposal, and a reviewed, aligned alignment was found then |
| Evidence.EvidenceFound | src/commit_gate/validate.py:767-783 | the evidence the validator finds among proposed and committed edges is there, with the same fields, after the commit |
| Records.NamespaceOverRuns | src/commit_gate/validate.py:202-233 | over every run of one proof's proposals each node but an artifact, each edge and both its ends stay in the proof's namespace or are content-addressed |
| Records.LiteralsOverRuns | src/commit_gate/validate.py:177-199 | over every run under the node rules, raising commits included, each committed field with a closed vocabulary holds one of its words |
| Records.ResultsOverRuns | src/commit_gate/validate.py:320-353 | over every run under the node rules, raising commits included, each tactic has a result, an executor failure never carries a diagnostic and a Lean rejection always does |
| Records.StagnationOverRuns | src/commit_gate/validate.py:608-636 | over every run that keeps obstruction edges and creates no run as stagnated, a stagnated run has raised an obstruction |
| Records.ExplainedIffObstructionsLand | src/commit_gate/validate.py:608-636 | one step ends with every stagnated run explained if and only if an obstruction edge ends in place for each run it leaves stagnated |
| Records.AcceptedWriteNamesItsPrior | src/commit_gate/validate.py:549-565 | an accepted write to a committed node, unless it is a score, names exactly the value it replaces |
| Records.LostUpdateIsRefused | src/commit_gate/validate.py:549-565 | of two proposals accepted against one graph the second is refused once the first has changed a field it writes |
| Records.ScoresCloseNothing | src/commit_gate/validate.py:384-428 | a state closed by hand in a proposal that also scores it is afterwards the target of a closing edge from a Lean-accepted, zero-goal tactic |
| Necessity.SecondUpsertHidesTheFirst | src/commit_gate/validate.py:244-249 | an accepted double upsert of a tactic breaks conservation: the second is checked, the first is kept |
| Necessity.RelabellingUnlocksFields | src/commit_gate/validate.py:494-514 | an accepted upsert under another label lets an immutable count be rewritten and breaks conservation |
| Necessity.ConfirmedTacticGainsAChild | src/commit_gate/validate.py:494-514 | an accepted re-upsert of a committed tactic lets it gain a child and breaks conservation |
| Necessity.RepeatedChildIsHarmless | src/commit_gate/apply.py:38-42 | restating a committed tactic together with the very child edge it has keeps conservation, so committed and added children may overlap |
| Necessity.TakenIdDropsTheChild | src/commit_gate/apply.py:38-42 | an accepted child edge under a taken id is skipped and breaks conservation |
| Necessity.CreatedAsVerified | src/commit_gate/validate.py:640-662 | a claim may be created as lean-verified, without evidence |
| Necessity.RemovedProof | src/commit_gate/validate.py:516-546 | the edge from a verified claim to its certificate may be removed, also where every earlier proposal kept all the rules |
| Necessity.CreatedAsStagnated | src/commit_gate/validate.py:608-636 | a run may be created as stagnated, without an obstruction |
| Necessity.RemovedObstruction | src/commit_gate/validate.py:516-546 | the obstruction edge of a stagnated run may be removed, also where every earlier proposal kept all the rules |
| Necessity.LateReplayBySameActor | src/commit_gate/validate.py:470-480 | a replay linked by its hash before it exists may later be created by the certificate's own actor |
| Necessity.SetBeforeUpsertRaises | src/commit_gate/apply.py:27-37 | an accepted, otherwise disciplined proposal whose application raises |
| Necessity.BaseAheadSlipsThrough | src/commit_gate/gate.py:59-96 | with validation and append apart, a proposal whose base is ahead of the head it was validated at is committed though the gate would refuse it by then |
| Reaching.CommitInTheSystem | src/commit_gate/gate.py:59-96 | a run of proposals each made at the head under the write lock, with one more commit of any kind, is a run of the whole system whose journal ends in that commit |
| LeaseRuns.LeasesAlwaysConsistent | src/commit_gate/store.py:621-651 | in every reachable store folding the lease events rebuilds the status, token and move of every lease row; the k-th token issued is k; no move has two active leases |
| LeaseRuns.IssuedIsHeldOrDead | src/commit_gate/store.py:731-762 | an issued (lease, token) pair is either exactly what the row holds, marked active, or dead on record |
| LeaseRuns.IssuedIsLiveOrOver | src/commit_gate/store.py:65-67 | at any time an issued pair is either what a live row holds or over: dead on record, or past its expiry whether or not any transaction has marked it |
| LeaseRuns.DeadForever | src/commit_gate/store.py:731-762 | a pair dead on record stays dead through any later history, whatever the clock reads and even if its lease id is active again, and no append naming it succeeds |
| LeaseRuns.ExpiredForever | src/commit_gate/store.py:596-618 | a pair past its expiry at some time is over in every later ledger, even if the lapse was never run or was rolled back, and while appends read the clock no earlier than that time none naming it succeeds |
| LeaseRuns.AcquireIsExclusive | src/commit_gate/store.py:267-322 | right after an acquire the acquired lease is the only active one, and its holder can append |
| LeaseLife.AcquireMeans | src/commit_gate/store.py:267-322 | every row after an acquire, field by field: the lock as asked for, due rows expired, all other active rows superseded, the rest as they were |
| LeaseLife.IssueMeans | src/commit_gate/store.py:324-430 | the same for issuing: due rows expired, active rows on the same move superseded, the granted row as asked for, the serial moved on only for a minted id |
| LeaseLife.DispatchMeans | src/commit_gate/store.py:432-517 | the same for dispatching: due rows expired, nobody superseded, a new row on the first ranked move that no live row covers |
| LeaseLife.ReleaseMeans | src/commit_gate/store.py:519-531 | releasing ends one active row and changes nothing else |
| LeaseLife.AppendMeans | src/commit_gate/store.py:668-729 | an append adds one row to the journal, at the next revision and chained to the head, and expires due rows only if it has a lease to check |
| LeaseLife.GrantIsLiveIff | src/commit_gate/store.py:65-67 | a lease issued or dispatched at a time is live at exactly the times before that time plus its ttl; the write lock likewise, but at any time if its ttl is not above zero |
| LeaseLife.GrantLastsIff | src/commit_gate/store.py:596-618 | a grant is still there later if and only if no transaction in between released or re-issued it, took the write lock, issued its move to another, or lapsed rows at a reading at or after its end |
| LeaseLife.AppendsIff | src/commit_gate/store.py:668-762 | an append can go through if and only if the base it names is the head and the lease it names is live under the token it names |
| LeaseLife.HolderMayAppendIff | src/commit_gate/store.py:731-762 | with the head as base and a reading before the end of its grant, the holder may append if and only if nothing in between ended the grant |
| LeaseLife.DispatchedMayAppendIff | src/commit_gate/store.py:432-517 | that for the holder of a dispatched lease and readings before dispatch time plus ttl |
| LeaseLife.IssuedMayAppendIff | src/commit_gate/store.py:324-430 | that for an issued lease |
| LeaseLife.LockedMayAppendIff | src/commit_gate/store.py:267-322 | that for the write lock, with no end if its ttl is not above zero |
| LeaseLife.MintedIdsDiffer | src/commit_gate/store.py:580-594 | minted lease ids differ if and only if their serials do, and lie under the proof |
| LeaseLife.SerialsMoveOn | src/commit_gate/store.py:580-594 | over a history serials never go back, and every minting moves them on, so no id is minted twice |
| LeaseRuns.AcquireLogsChangesIff | src/commit_gate/store.py:267-322 | every entry an acquire logs changes the recorded status of its lease if and only if no row was superseded before |
| LeaseRuns.IssueLogsChangesIff | src/commit_gate/store.py:324-430 | the same for issuing, with the other rows on the move in place of all rows |
| LeaseRuns.SupersededTwice | src/commit_gate/store.py:267-322 | three acquires in a row log the first lease as superseded twice, the second time without a change |
| Chain.VerifyChain | src/commit_gate/store.py:847-876 | succeeds with the row count if and only if revisions are 1..n and every row links and hashes; otherwise names the first bad row |
| Chain.HeadFixesHistory | src/commit_gate/canon.py:50-52 | if the head hash of one verifying journal occurs in another, the first journal is a prefix of the second |
| Chain.HashesAreDistinct | src/commit_gate/store.py:702-720 | equal hashes in verifying journals mean the same revision, the same proof and the same history up to it |
| JournalRuns.JournalAlwaysSound | src/commit_gate/store.py:702-720 | in every reachable store the journal verifies, revisions are 1..n and hold this proof's events only |
| JournalRuns.NextHashIsNew | src/commit_gate/store.py:702-720 | the hash of the next row is on record nowhere, so the UNIQUE constraint never fires |
| JournalRuns.JournalIsAppendOnly | src/commit_gate/store.py:668-729 | an earlier journal is a prefix of every later one, and equal to it unless someone appended |
| JournalRuns.StaleMeansSomeoneCommitted | src/commit_gate/store.py:685-701 | a base read from the head is stale later if and only if some append came in between |
| JournalRuns.CommittedUnderLiveLease | src/commit_gate/store.py:731-762 | every journalled row was written by one append of the history, under a lease and token live at that moment if it names one, and every row that sets a status, a verdict, or a field named like one names one |
| JournalRuns.StatusNeedsLease | src/commit_gate/validate.py:143-174 | an accepted proposal that sets a status, a verdict, or a field whose name ends in status or verdict names a lease and a token |
| Store.JournalStore.AcquireLease | src/commit_gate/store.py:267-322 | lapses due leases, supersedes the other active ones, logs old and new superseded rows, grants the write lock; all or nothing |
| Store.JournalStore.IssueLease | src/commit_gate/store.py:324-430 | the same for one move: only rivals on the move are superseded; the serial moves on only when the id is minted; a ttl not above zero is refused |
| Store.JournalStore.DispatchLease | src/commit_gate/store.py:432-517 | grants the first ranked move no active lease covers, or reports that all are covered; a minted id already taken by someone's acquire rolls back |
| Store.JournalStore.ReleaseLease | src/commit_gate/store.py:519-531 | releases exactly an active lease and reports whether it did |
| Store.JournalStore.ActiveLeases | src/commit_gate/store.py:533-541 | lapses due leases and answers exactly the live rows |
| Store.LapseDue | src/commit_gate/store.py:596-618 | expires and logs exactly the due active leases, once each |
| Store.NextToken | src/commit_gate/store.py:571-577 | one past the largest token on record |
| Store.JournalStore.Append | src/commit_gate/store.py:668-729 | the answer is exact: busy, or stale if and only if the base is not the head, else lease not held if and only if the named lease is not live, else token superseded if and only if the token is not its own, else one chained row at the next revision; every refusal leaves all journals alone; the integrity errors never occur on a sound store |
| Commit.CommitGate.Validate | src/commit_gate/gate.py:55-57 | empty findings if and only if the proposal is accepted |
| Commit.CommitGate.CommitProposal | src/commit_gate/gate.py:59-96 | an unaccepted proposal touches no table but the rejection log; an accepted one gets revision base+1 or exactly the refusal the store gives; every refusal leaves all journals alone; soundness of the store is kept |
| Commit.ViewIsReplayedJournal | src/commit_gate/gate.py:59-96 | through any interleaving, with commits whose application raises, the journal is a run of the gate and the view is its last graph; replaying the journal from the empty graph succeeds if and only if every journalled proposal set only what existed by then, and then rebuilds the view |
| Commit.ViewAlwaysConserved | src/commit_gate/gate.py:59-96 | through any interleaving of clients, expiries and rollbacks, disciplined commits whose sets follow their upserts keep subgoal conservation in the view |
| Commit.LateAppendStillAccepted | src/commit_gate/gate.py:59-96 | validation runs outside the lock: what was accepted against a head not behind the base it names is still accepted when the append compares that base and goes through |
| Commit.LooseRunIsSystemRun | src/commit_gate/gate.py:59-96 | so a system that validates early and appends late, with no base ahead of the head at validation, only has runs of the one that does both at once |
| Commit.RunIsASystemRun | src/commit_gate/gate.py:59-96 | conversely every run of the gate whose proposals are each made at the head under one lock is the journal of some run of the whole system, with the view at its last graph |
| Closure.SearchGraph.PropagateClosures | neo4j_adapter/rules.py:231-262 | the loop with its early exit computes exactly the rounds asked for |
| Closure.SearchGraph.CloseState | neo4j_adapter/rules.py:90-123 | the named state ends closed and whatever changes becomes closed; with fewer than 64 states open, a state ends closed if and only if that follows from closing it, by moves that were closed, that it proposes, or whose subgoals are closed or reopened, and a move if and only if it is such a move |
| Closure.RoundIsRound | neo4j_adapter/rules.py:238-260 | one round closes exactly the moves whose subgoals are closed or reopened, then exactly the unreopened states with a closed move; reopened states are never closed and nothing is unclosed |
| Closure.QuiescenceIsLeastFixpoint | neo4j_adapter/rules.py:231-262 | at quiescence the closed sets are the least pair containing what was closed and closed under the two rules |
| Closure.FirstRoundClosesIff | neo4j_adapter/rules.py:238-260 | with nothing closed at the start, the first round, and any later one, has closed a state if and only if some proposed move of an unreopened state needs nothing proved: it has no known subgoals, or all are reopened |
| Closure.ClosedMoveIsCompleteIff | neo4j_adapter/rules.py:75-88 | where the loop has closed a move, all its subgoals are closed if and only if none was reopened at the start |
| Closure.ClosesOverReopened | neo4j_adapter/rules.py:238-249 | a state that closes in one round over a subgoal that stays reopened |
| Closure.ClosedIffDerivable | neo4j_adapter/rules.py:231-262 | after n rounds a state is closed if and only if it has a finite derivation of height at most n, cycles or not |
| Closure.EnoughRounds | neo4j_adapter/rules.py:231-262 | with k states neither closed nor reopened, k+1 rounds reach quiescence |
| Closure.CapNeverTruncates | neo4j_adapter/rules.py:125-133 | a cap above the number of such states (64 for up to 63) loses nothing: exactly the derivable states end closed |
| ClosureCap.CapCanTruncate | neo4j_adapter/rules.py:90-133 | the cap is reached: closing the first of a chain closes the next 64 states and no other, though all of them follow |
| Dependencies.ClaimGraph.CycleExists | neo4j_adapter/adapter.py:859-872 | true exactly when a path of one edge or more leads from the dependency to the dependent, both claims being known |
| Dependencies.ClaimGraph.AddClaimDependency | neo4j_adapter/adapter.py:251-285 | raises exactly on such a path with a proof id; with a proof id an acyclic graph stays acyclic if and only if no known claim is made to depend on itself |
| Dependencies.EmptyProofIdIsUnguarded | neo4j_adapter/adapter.py:266-285 | without a proof id two calls make a cycle |
| Mork.ReachesAtomIsReachability | mork/rules/dependency-taint.metta:23-38 | on an acyclic graph the recursion terminates and is the reflexive-transitive closure of DEPENDS_ON |
| Mork.WouldCycleIsExact | mork/rules/dependency-taint.metta:79-80 | fires if and only if the new edge would close a cycle, the self-edge included; for distinct claims it is the Cypher path check |
| Taint.KnowledgeGraph.PropagateTaint | neo4j_adapter/rules.py:142-190 | the root ends refuted unless it depends on itself; exactly its strict transitive dependents end tainted, exactly the closed states using one of them are reopened, nothing else changes; both sets are reported |
| Taint.KnowledgeGraph.ReadCone | neo4j_adapter/rules.py:192-201 | the claims with a path of one edge or more to the root |
| Taint.TaintIsIdempotent | neo4j_adapter/rules.py:153-188 | a second call changes no status, on cyclic graphs too |
| Taint.NoneReliesIff | neo4j_adapter/rules.py:142-188 | afterwards no closed state uses the root or one of its dependents if and only if each closed state that used the root also used one of its strict dependents |
| Taint.ClosedStateKeepsRelying | neo4j_adapter/rules.py:145-150 | a state that uses only the refuted claim stays closed |
| Taint.TaintMatchesMork | mork/rules/dependency-taint.metta:83-120 | once the root is refuted, taint-cone is exactly what propagate_taint taints, and affected-states exactly what it reopens if and only if no state using a tainted claim, itself not closed, shares its id with a formally closed claim |
| Projector.ProjectorState.ProcessJournal | mork/projector/core.py:85-110 | the two passes emit exactly the atoms of the collected nodes, of the edges never removed, and the inferred state references |
| Projector.AgreesIffPlain | mork/projector/core.py:112-145 | the projection of every prefix of a journal agrees with its replay if and only if upserts restate nodes in full, sets follow upserts, and no edge id returns with other contents or after a removal |
| Projector.OrderlyIsPlain | mork/projector/core.py:112-145 | one upsert per node before its sets and one addition per edge id before its removals is enough for that |
| Projector.ProjectionIsReplay | mork/projector/core.py:171-243 | the atoms of such a journal are exactly those of the replayed view, and the inferred state references |
| Projector.JournalInOrder | mork/projector/core.py:88-97 | events given in the order of their revisions, equal ones included, are read one after the other |
| Readback.AtomsReadBack | mork/projector/core.py:171-243 | for the journal of one proof that replay and projector read alike, an atom is emitted if and only if it is true of the replayed graph (label, field, source and target as written), or gives a node the state that the last edge about it names |
| Readback.MirrorImages | mork/projector/core.py:204-243 | for any journal, an edge is emitted forwards if and only if it is emitted backwards with its ends exchanged |
| Readback.SpaceIsTheGraph | mork/rules/dependency-taint.metta:12-120 | what the MeTTa rules match of those atoms is the replayed graph: its claims, its states, its DEPENDS_ON and USES_CLAIM edges in their direction, and its statuses |
| Readback.ReachesReadBack | mork/rules/dependency-taint.metta:23-60 | reaches? on the emitted atoms holds if and only if DEPENDS_ON edges of the replayed graph lead from the one node to the other, or they are the same |
| Projector.InputOrderIsIrrelevant | mork/projector/core.py:88-97 | the order of the events given does not matter when revisions are distinct |
| Projector.SplitIsFaithfulIff | mork/projector/core.py:54-65 | two ids get the same proof and local part only if equal, or if one is x without a slash and the other x/x |
| Necessity.PartialConfirmationDropsFields | mork/projector/core.py:116-123 | an accepted, disciplined confirmation that leaves fields out makes the projector drop fields the view keeps |
| Necessity.ReAddedEdgeIsNotProjected | mork/projector/core.py:132-143 | an edge added again after its removal, by accepted and disciplined proposals, is in the view and not in the projection |
| Dispatch.FormalResultToOps | src/mathproof/dispatch.py:94-282 | the loops emit the compiled ops of the result, with serials that are next for the view |
| Emission.CompiledIff | src/mathproof/dispatch.py:94-282 | a compiled result holds an op if and only if the op records something reported, said kind by kind: which label, id and fields, which edge between which ends under which id, which status against which prior value |
| EmissionOrder.EdgesFollowNodes | src/mathproof/dispatch.py:94-282 | in a compiled result whose references resolve each edge joins nodes that are committed or created by an earlier op |
| Submission.CompiledPriors | src/mathproof/dispatch.py:335-341 | every write names a committed node and the value committed there, and changes it |
| Submission.OnlyTheseFault | src/commit_gate/validate.py:117-140 | a sound result whose references resolve can only be refused for its words, its namespace, an outcome reported for a tactic, a status that may not follow, an unexplained stagnation, or a missing lease |
| Submission.CompiledAcceptedIff | src/commit_gate/validate.py:117-140 | so it is accepted if and only if it names a base and none of these applies |
| Ids.NextSerial | src/mathproof/dispatch.py:343-353 | one past the highest serial among the ids of that form |
| Ids.MintedIsNew | src/mathproof/dispatch.py:343-353 | an id minted with that serial for a proof id without a slash is not in the view |
| Ids.MintsAgainIff | src/mathproof/dispatch.py:343-353 | the allocator gives the serial it has just given again if and only if the proof id is empty or contains a slash |
| Compilation.CompiledConservesSubgoals | src/mathproof/dispatch.py:139-175 | the ops of a sound result, whatever serials it is given, pass subgoal conservation |
| Compilation.CompiledClosesSoundly | src/mathproof/dispatch.py:176-186 | they pass the closure half of the executor check |
| Compilation.SoundCount | src/mathproof/soundness.py:129-206 | a result without tactic-edge violations compiles to the right subgoal count, with distinct children |
| Compilation.NoDefectIff | src/mathproof/soundness.py:129-206 | a reported tactic has no violation if and only if its integer count is the number of listed goals, none is listed twice or without a state, and it is not a fallback that claims acceptance by Lean |
| Compilation.CompiledApplies | src/mathproof/dispatch.py:94-282 | compiled ops never make apply raise |
| Compilation.ChildrenReadBack | src/mathproof/dispatch.py:162-175 | after applying, the k-th child of a tactic is its k-th produced goal if and only if the id of that child edge was free or already held that very edge |
| Compilation.NoOtherChildren | src/mathproof/dispatch.py:162-175 | and it has no other child if and only if no required-child edge under another id left that node before |
| Compilation.NewTacticHasItsChildren | src/mathproof/dispatch.py:162-175 | over a graph that keeps subgoal conservation it has only the children reported |
| References.CompiledPassesReferences | src/mathproof/dispatch.py:94-282 | for any proof id: compiled ops of a result whose references resolve and whose ids each name one kind of node pass the reference check if and only if no minted id is taken by a node with other fields |
| References.NextSerialsPass | src/mathproof/dispatch.py:343-353 | which never happens with the next serials of a proof id without a slash |
| References.KnownLabel | src/commit_gate/validate.py:440-448 | the label the gate sees for each id of the result is the one it is reported or committed under |
| Resubmission.ResubmissionIsSilentIff | src/mathproof/dispatch.py:94-102 | for a proof id without a slash, compiling and applying a committed result again leaves the view unchanged if and only if its status reports do not contradict each other and it has neither a checkpoint with a frontier nor a certificate |
| Resubmission.SecondPassIsSilentIff | src/mathproof/dispatch.py:94-282 | for any result and any proof id, with states reported repeatedly or not: the second pass changes nothing if and only if the status reports do not contradict each other and all ids it mints are taken |
| Resubmission.DistinctReportsAgree | src/mathproof/dispatch.py:106-131 | reports on distinct states, none of them the run, never contradict each other |
| Resubmission.SameSerialsAreTaken | src/mathproof/dispatch.py:188-243 | with the serials of the first pass, everything the second pass mints is taken |
| Scheduler.BuildFrontier | src/mathproof/scheduler.py:284-381 | the frontier holds exactly the eligible candidates |
| Eligible.OfferedIff | src/mathproof/scheduler.py:284-381 | a move is on the frontier if and only if it is a waiting research move that a live research state of the proof proposes, an aligned or searching declaration, a searching run with an open or expanded checkpoint state, or a provisional claim no critic favours |
| Scores.ScoreIs | src/mathproof/scheduler.py:168-172 | a score is the weighted sum of eight features, a missing one counting as 0.5 and a missing cost as 1, the failure rate of the category, and 1 or 0.3 for a worker of the right or another class |
| Scores.OneFeature | src/mathproof/scheduler.py:168-172 | scores of candidates that differ in one feature differ by its weight times the difference |
| Scores.RiskCounts | src/mathproof/scheduler.py:385-404 | a change in the failure rate counts by its weight |
| Scores.WorkersCount | src/mathproof/scheduler.py:385-404 | a worker of the right class counts 0.7 of the weight of availability more than another |
| Scores.NoWeightNoScore | src/mathproof/scheduler.py:168-172 | without weights every score is zero |
| Scores.WeightDecides | src/mathproof/scheduler.py:246-265 | of two free candidates that differ in one feature, the one offered first has the larger value if the weight is positive, the smaller if it is negative |
| Scores.TiesKeepOrder | src/mathproof/scheduler.py:246-265 | where no candidate outscores an earlier one the moves are offered in the order of the frontier, so ties keep their order |
| Scores.RunScores | src/mathproof/scheduler.py:153-166 | with the default weights and no history an open run scores 3.4 for a formal prover |
| Scores.DeclarationScores | src/mathproof/scheduler.py:153-166 | an aligned or searching declaration 3.06 |
| Scores.ResearchScores | src/mathproof/scheduler.py:153-166 | a waiting research move 2.49 |
| Scores.CriticScores | src/mathproof/scheduler.py:153-166 | a claim to review, for a critic, 3 and 0.2 more for each dependency up to three |
| Scheduler.FindFavorable | src/mathproof/scheduler.py:424-435 | true exactly when a critic's attempt reviewing the claim is supported or critic-accepted |
| Scheduler.FindOpenCheckpoint | src/mathproof/scheduler.py:437-455 | true exactly when some checkpoint of the run has an open or expanded frontier state |
| Scheduler.MoveDeterminesCandidate | src/mathproof/scheduler.py:294-381 | a move listed several times is listed with the same category and features, hence the same score |
| Leasing.GlobalScheduler.LeaseNext | src/mathproof/scheduler.py:229-276 | an answered call ranks the frontier without the actively leased moves and dispatches on a re-checked ledger; a refused one has at most lapsed due leases |
| Leasing.FirstRankedIsBest | src/mathproof/scheduler.py:246-265 | no free candidate outscores the move offered first |
| Leasing.QuietCallLeasesBest | src/mathproof/scheduler.py:246-276 | without expiry in between, a call leases a free move no free move outscores, and answers None if and only if none is free |
| Leasing.FrontierIsHandedOut | src/mathproof/scheduler.py:229-276 | with nobody else writing, a frontier of k unleased moves is handed out over exactly the first k calls; later calls answer None |
| Leasing.HandedOutOnceBestFirst | src/mathproof/scheduler.py:229-276 | each move is handed out once, and scores never rise from one call to the next |

## Left out

- SQLite and Neo4j plumbing: sessions, retries, WAL, timeouts and error translation; a transaction is atomic and may roll back.
- JSON canonicalisation and SHA-256: the chain hash is any injective function that never yields the genesis hash, and stored payloads read back equal.
- The text and number of findings: a finding is a reason with an op index, so two findings of one reason on one op are one.
- Python's cross-type equality (`True == 1`) and the TypeError from sorting positions of mixed types: values of different JSON types are different, and positions that are no integers do not sort to a range.
- The regular expression of `_next_serial` also accepts a trailing newline; the model does not.
- The journal's and rejection log's descriptive columns, score snapshots and lease details other than those listed in `Ledger.Lease`.
- The adapter's other reads and writes, `replay.py`, statuses that are null in Neo4j, and DEPENDS_ON paths that leave the proof; the taint model keeps to one proof's claims.
- A formal search result with a checkpoint but no run id writes an edge from JSON null, with a certificate but no run id raises KeyError; the model writes the empty id in both cases.
- The critic and research compilers, `result_to_proposal`, the other soundness checks, `cycle.py`, `routing.py`, `context_compiler.py` and the provers.
- `SchedulerStatistics` counters: the failure rate of a category is a parameter, fixed during a run of calls; candidate detail texts and the policy name.
- Floating point: scores and clock readings are reals.
- The order in which Python and SQL list unordered rows is arbitrary, and with it the order of the frontier, which decides among equal scores.
- Atom text, escaping and files; atoms are tuples.
- Serialisation of ops, `vocab.py` membership helpers and the JSON schemas.
- Leasing.FrontierIsHandedOut: calls that find the store busy, and a dispatch whose minted lease id someone else acquired, are not part of a quiet run.
- LeaseRuns.AcquireIsExclusive: claimed right after the acquire only, because a later dispatch may coexist with the write lock.
