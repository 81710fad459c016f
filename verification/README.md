# Verified model of the memory-mission core

This project models, in Dafny, the parts of memory-mission that decide what an organisation's agents believe, and
proves what those parts promise. Everything is stated for all inputs or for all runs.

- **The temporal knowledge graph** (`TripleStore`, `Confidence`, `MergeLaws`, `TimeTravel`, `Beliefs`, `GraphRuns`): a table of triples
  with validity windows, scopes, confidences and counters, an append-only table of provenance rows, entities and a merge
  log. The class `KnowledgeGraph` keeps the four tables; its methods are proved against functions on the value `Graph`. One
  method call is one committed transaction.
- **Promotion** (`Extraction`, `Proposals`, `Promotion`, `Retry`, `StrictMode`, `Lifecycle`, `Governance`,
  `Traceability`, `Requests`, `HandOver`, `PartialWrites`, `Approvals`, `Outside`, `Interleaving`, `Recovery`): proposals, their state machine, the
  two read-only scans before a promote, and the pass of individually committed writes. A pass is a flat list of operations,
  so a crash is a prefix of that list. `Governance.After` runs the whole system from an empty graph, dying promotes
  included.
- **Identity** (`Identity`, `Canonicalize`): the resolver's binding table and the rewriting of a report's names.
- **Pages** (`Pages`, `EntryLines`, `TextLines`, `PageRoundTrip`, `PageWarnings`): the parser and printer of the on-disk page format.
- **Tasks** (`Tasks`): the status intervals that the individual server's task tools write.
- **Search** (`RankFusion`, `SearchEngine`, `PageEngine`, `ReadRights`): keyword and hybrid search of the in-memory engine.
- **Durable runs** (`Durable`): checkpointed steps, and a machine in which the process may die at any point.

`Common` holds shared vocabulary. Verify everything with `dafny verify dfyconfig.toml`.

## Where the code and its own text part

The model follows the code.

- `_apply_facts` says "all-or-nothing on success" (src/memory_mission/promotion/pipeline.py:400) and `promote` "atomic on
  success"; each write of the second pass is a transaction of its own, and a crash leaves a prefix of the writes.
  `PartialWrites.AllOrNothingExact` says exactly when that prefix is all or nothing, `Approvals.CrashesLeaveNoTraceExact`
  exactly when the crashes of a run leave no trace, and `Retry.CrashAndRetryConverge` and
  `Interleaving.InterleavedRetryConverges` what the retry guard makes of them.
- The facts land first so that no approval is marked on a failed write (src/memory_mission/promotion/pipeline.py:211); but a
  proposal whose promote died can be rejected instead of tried again, and then its writes stay: triples it added
  (`Recovery.RejectionLeavesWrites`), but also ends of what others had established (`Recovery.RejectionLeavesEnds`: "ada
  prefers tea" is approved, an update to "coffee" dies after it ended "tea", and is rejected).
  `Approvals.DeathThenRejectionUndoneExact` gives the exact condition for the whole graph after one death and one rejection,
  `Approvals.AllChangesApprovedExact` for every change promotes made in a run. `Approvals.DeathThenRejectionExact` and
  `Approvals.AllApprovedExact` count provenance rows only, and ask for whose proposal each was written. That is sufficient
  and not necessary for each triple to be vouched for by some approved proposal (`Approvals.AllApprovedVouches`): the report
  of a rejected proposal may be cited by another one that states the same fact and is approved without writing anything.
- In constitutional mode the retry can be refused, because the proposal's own partial writes contradict it
  (`StrictMode.StrictRetryCanFail`); `StrictMode.StrictRetryAtExact` gives the exact condition for one crash,
  `StrictMode.StrictRetryExact` for all, and `Recovery.StrictRetryConverges` what the accepted retry leaves.
- `corroborate` says that a new source strengthens belief (src/memory_mission/memory/knowledge_graph.py:616); it lowers every
  confidence above 0.99 to 0.99, and no other (`Confidence.CorroborationMonotone`).
- `_ensure_entity_exists` says subjects and objects are registered (src/memory_mission/memory/knowledge_graph.py:365);
  `add_triple` registers the subject only (`TripleStore.BothEndsRegisteredExact`, `TripleStore.ObjectNotRegistered`).
- `search` says nothing is filtered when the viewer or the policy is missing (src/memory_mission/memory/engine.py:343);
  with a viewer and no policy the code shows public firm pages and the viewer's own pages only. Nothing is filtered exactly when
  there is no viewer (`SearchEngine.NothingFilteredExact`, `SearchEngine.MissingPolicyHides`).
- Before it links two names the pass says "ensure both endpoints exist" (src/memory_mission/promotion/pipeline.py:472); the
  upsert it uses also resets an entity that exists to an unknown one without properties (`HandOver.EntityAfterPromote` says
  exactly what becomes of an entity).
- A parsed page can lose its compiled truth when it is rendered and parsed again (`PageRoundTrip.ReparseCanLoseTruth`);
  `PageRoundTrip.ReparseExact` says when.
- A task update without a date leaves two statuses valid in the past (`Tasks.UndatedUpdateOverlaps`); `Tasks.TilingExact`
  says exactly which histories have one status at every date.

## Model

| member | source | states |
|---|---|---|
| Confidence.AggregateNoisyOr | src/memory_mission/federated/detector.py:203-215 | the loop returns one minus the product of all doubts, capped at 0.99, for every list including the empty one; it fails exactly when some value is outside [0, 1], and names such a value |
| Confidence.StepwiseIsBatch | src/memory_mission/memory/knowledge_graph.py:654-659 | corroborating report by report gives what aggregating all confidences at once gives, for every starting confidence in [0, 1] (above the cap too) and every non-empty list |
| Confidence.DoubtPermutation | src/memory_mission/federated/detector.py:203-215 | the combined doubt depends on the multiset of confidences only |
| Confidence.StepwiseOrderIndependent | src/memory_mission/memory/knowledge_graph.py:654-659 | the final confidence does not depend on the order of the evidence, nor on which report was the first |
| Confidence.CorroborationMonotone | src/memory_mission/memory/knowledge_graph.py:654-659 | a corroboration stays within [0, 0.99]; it lowers a confidence if and only if that confidence was above 0.99, and then to exactly 0.99 |
| Confidence.StepwiseRange | src/memory_mission/memory/knowledge_graph.py:654-659 | any number of corroborations keeps the confidence in [0, 1], at or below 0.99 after the first, and never below a start at or below 0.99 |
| TripleStore.Newest | src/memory_mission/memory/knowledge_graph.py:570-592 | the currently-true row with the greatest id at a key, if there is one; none exactly when no row is open there |
| TripleStore.KnowledgeGraph.AddEntity | src/memory_mission/memory/knowledge_graph.py:386-415 | upserts one entity and changes nothing else |
| TripleStore.KnowledgeGraph.AddTriple | src/memory_mission/memory/knowledge_graph.py:432-527 | appends the triple with its seeding provenance row and registers a non-blank subject that is missing; refused exactly for a confidence outside [0, 1], without a write |
| TripleStore.BothEndsRegisteredExact | src/memory_mission/memory/knowledge_graph.py:362-384 | after an add both ends are entities if and only if the subject is not blank or already one, and the object is the subject or already one |
| TripleStore.ObjectNotRegistered | src/memory_mission/memory/knowledge_graph.py:479-494 | an add to the empty graph after which its object is no entity |
| TripleStore.KnowledgeGraph.HasTripleSource | src/memory_mission/memory/knowledge_graph.py:529-568 | true exactly when some currently-true row at the key has a provenance row with this source file |
| TripleStore.KnowledgeGraph.FindCurrentTriple | src/memory_mission/memory/knowledge_graph.py:570-592 | finds the newest open row at the key, searching from the end |
| TripleStore.KnowledgeGraph.Corroborate | src/memory_mission/memory/knowledge_graph.py:594-682 | bumps exactly the newest open row and records the evidence; refused exactly for a bad confidence or a different scope, and a no-op without an open row, both without a write |
| TripleStore.KnowledgeGraph.CheckCoherence | src/memory_mission/memory/knowledge_graph.py:684-731 | one warning for each open row with the same subject and predicate and another object, in id order, each with both objects and their own tiers |
| TripleStore.KnowledgeGraph.Invalidate | src/memory_mission/memory/knowledge_graph.py:906-933 | ends every open row at the key on the given day, or today; touches nothing else and returns how many it ended |
| TripleStore.KnowledgeGraph.QueryEntityRows | src/memory_mission/memory/knowledge_graph.py:935-973 | in the columns: a row is in the answer if and only if its subject, its object or one of them is the name, as the direction says, its start is not after the date, its end is after it, and its scope is among those asked; in id order |
| TimeTravel.InvalidationSplitsTime | src/memory_mission/memory/knowledge_graph.py:906-973 | after an invalidation on day d every query at a date before d answers what it did, with the end date written in, and every query at d or later what it did without the ended rows |
| TimeTravel.InvalidationKeepsHistory | src/memory_mission/memory/knowledge_graph.py:906-973 | a query without a date still shows every row |
| TripleStore.KnowledgeGraph.ScopesByKey | src/memory_mission/memory/knowledge_graph.py:1207-1224 | the simulated rewrite collects, for every key, exactly the scopes that would meet there |
| TripleStore.KnowledgeGraph.MergeScopeConflicts | src/memory_mission/memory/knowledge_graph.py:1199-1231 | lists every key where more than one scope would meet, each with exactly those scopes, and nothing else |
| TripleStore.TwoUpdatesRename | src/memory_mission/memory/knowledge_graph.py:1164-1185 | the subject UPDATE followed by the object UPDATE is one simultaneous substitution, and their row counts add up to the number of occurrences replaced |
| TripleStore.KnowledgeGraph.MergeEntities | src/memory_mission/memory/knowledge_graph.py:1107-1197 | merges exactly when there is a rationale, two different names and no scope conflict; then every row has the name replaced in both columns and is otherwise as it was, exactly the source entity is gone, provenance is unchanged, and the log grows by the returned record, whose count is the number of occurrences; otherwise nothing changes |
| MergeLaws.ScanDecidesMerge | src/memory_mission/memory/knowledge_graph.py:1199-1231 | the scan reads open rows that mention one of the two names, and is empty if and only if the whole rewritten graph has one scope at every currently-true key that mentions the target |
| MergeLaws.MergeKeepsOneScope | src/memory_mission/memory/knowledge_graph.py:1152-1162 | a merge the scan lets through keeps "all open rows of a key carry one scope" |
| MergeLaws.MergeMovesOccurrences | src/memory_mission/memory/knowledge_graph.py:1164-1185 | afterwards no row mentions the source, the target has the occurrences of both, every other name has as many as before |
| MergeLaws.MergeCommutesWithTimeTravel | src/memory_mission/memory/knowledge_graph.py:935-973 | querying the merged graph about the target, at any date, direction and viewer, is the substituted union of what was known about both names; the source answers nothing; every other entity answers the substituted old answer |
| Beliefs.HasSourceIsRecorded | src/memory_mission/memory/knowledge_graph.py:529-568 | the join behind the retry guard asks exactly whether the currently-true view of the key records the file |
| Beliefs.NewestIsLast | src/memory_mission/memory/knowledge_graph.py:570-592 | the row the code picks is the last belief of the currently-true view |
| Beliefs.AddedBeliefs | src/memory_mission/memory/knowledge_graph.py:432-527 | an add appends one belief with one source at its own key and shows nowhere else |
| Beliefs.BumpedBeliefs | src/memory_mission/memory/knowledge_graph.py:594-682 | a corroboration reinforces the last belief of its own key and shows nowhere else |
| Beliefs.EndedBeliefs | src/memory_mission/memory/knowledge_graph.py:906-933 | an invalidation empties the view of its own key and shows nowhere else |
| Beliefs.MergeKeepsAudit | src/memory_mission/memory/knowledge_graph.py:1164-1175 | a merge keeps "corroboration count plus one provenance rows, the last of which recorded the row's confidence" |
| Promotion.AddOrCorroborate | src/memory_mission/promotion/pipeline.py:639-695 | skips, corroborates or adds as the guard says, and leaves the graph alone when it fails |
| Promotion.ScopeScan | src/memory_mission/promotion/pipeline.py:534-586 | the conflicts of all facts, in fact order, without touching the graph |
| Promotion.CoherenceScan | src/memory_mission/promotion/pipeline.py:589-636 | the warnings of all facts, without those about the very object an update supersedes |
| Promotion.ScanEmptyMeans | src/memory_mission/promotion/pipeline.py:534-586 | the scope scan is empty if and only if the newest open row at every key the pass may write or end has the proposal's scope |
| Promotion.ScopeConflictsNamed | src/memory_mission/promotion/pipeline.py:534-586 | the scope scan names exactly the triples that a fact states or supersedes and whose newest open row has another scope, with that scope |
| Promotion.AllWarningsNamed | src/memory_mission/promotion/pipeline.py:589-636 | the coherence scan names exactly the open rows that a fact contradicts and does not supersede, with both objects and tiers |
| Promotion.RunKeepsAgreement | src/memory_mission/promotion/pipeline.py:463-531 | any list of writes whose keys agree in scope at the start runs to its end without a scope error, although the writes add, end and re-add those keys |
| Promotion.ScanSound | src/memory_mission/promotion/pipeline.py:441-531 | an empty scan of the starting graph means that the pass, cut at any write, has met no scope error, and that the scan would be empty again there |
| Promotion.ApplyFact | src/memory_mission/promotion/pipeline.py:464-531 | the writes of one fact, in their order; `HandOver` says in the fact's fields what they leave |
| Promotion.ApplyFacts | src/memory_mission/promotion/pipeline.py:394-531 | refused by a scan: no write at all; otherwise every write of every fact |
| HandOver.UpdateHandsOver | src/memory_mission/promotion/pipeline.py:509-531 | a promoted update, among any other facts that leave its two triples alone: the open rows of the superseded object end on the effective date, or today, and the new object gets one row that begins on the effective date, has no end, and carries the fact's confidence and the proposal's report and scope |
| HandOver.HandsOverOnTheDay | src/memory_mission/promotion/pipeline.py:509-531 | with effective date D and a new object that was not currently true: the old object is true at a date if and only if an ended row makes it so, or an open row did and the date is before D; the new one if and only if it already was or the date is D or later |
| HandOver.CleanHandOver | src/memory_mission/promotion/pipeline.py:509-531 | so over an object with no ended rows, and for a new one without rows, the old one is true at a date if and only if it was and the date is before D, and the new one if and only if the date is D or later |
| HandOver.FactLands | src/memory_mission/promotion/pipeline.py:470-531 | a relationship, preference, event or plain update about a triple that was not currently true adds one row from the day the fact names; about one that was, it moves no date |
| HandOver.EntityAfterPromote | src/memory_mission/promotion/pipeline.py:463-510 | the last fact that names an entity decides it: an identity fact gives type and properties, any other resets it to unknown |
| HandOver.UnnamedEntityStays | src/memory_mission/promotion/pipeline.py:463-531 | an entity no fact names stays as it was |
| Retry.RunIsKeyRun | src/memory_mission/promotion/pipeline.py:463-531 | what a key ends up with depends on that key's own writes only: a pass decomposes into one small automaton per (subject, predicate, object) |
| Retry.KeyConverges | src/memory_mission/promotion/pipeline.py:671-695 | at one key, a pass cut at any write and then run from the start is one whole pass |
| Retry.EntitiesConverge | src/memory_mission/promotion/pipeline.py:463-531 | and so is the entity table |
| Retry.CrashAndRetryConverge | src/memory_mission/promotion/pipeline.py:463-531 | for every fact list and every crash point, the retried promote passes its scan again and leaves the entity table, the merge log and, at every key, the currently-true rows with confidences, counts, windows, scopes and source files of one uninterrupted pass; the attempts may run on different days |
| Retry.ManyCrashesConverge | src/memory_mission/promotion/pipeline.py:671-678 | the same after any number of crashed attempts |
| StrictMode.ScanCoherent | src/memory_mission/promotion/pipeline.py:589-636 | the coherence scan is empty if and only if every fact tolerates every open object at its subject and predicate: it asserts it or supersedes it |
| StrictMode.StrictPromoteAgrees | src/memory_mission/promotion/pipeline.py:445-461 | after a strict promote, whatever is currently true at a subject and predicate the proposal speaks about is asserted by one of its facts |
| StrictMode.StrictPromoteKeepsOneObject | src/memory_mission/promotion/pipeline.py:445-461 | a strict promote of an internally consistent proposal keeps "one current object per subject and predicate" over the whole graph |
| StrictMode.StrictRetryExact | src/memory_mission/promotion/pipeline.py:445-531 | a strict promote that passed once can be retried after a crash at every point if and only if its facts are mutually tolerant, which the caller can read off the proposal |
| StrictMode.StrictRetryAtExact | src/memory_mission/promotion/pipeline.py:445-531 | one that died after k writes is accepted again if and only if every fact tolerates the triples that these k writes asserted and did not end again |
| StrictMode.StrictRetryCanFail | src/memory_mission/promotion/pipeline.py:445-531 | a concrete proposal that passes, crashes before the approval is saved, and is refused on retry |
| Proposals.ProposalStore.Insert | src/memory_mission/promotion/proposals.py:212-246 | stores a proposal under a free id with a valid plane; refused otherwise, changing nothing |
| Proposals.ProposalStore.Save | src/memory_mission/promotion/proposals.py:248-284 | replaces the stored proposal; refused exactly for an invalid plane |
| Proposals.CreateProposal | src/memory_mission/promotion/pipeline.py:124-181 | under a free digest the stored proposal carries, field by field, what was asked (scope, agent, proposer, entity, plane, employee, report, facts) and is pending with no decision; otherwise the stored one is returned unchanged; errors change nothing |
| Proposals.SafeEmployeeIdExact | src/memory_mission/path_safety.py:17-19 | which strings are employee ids: 1 to 128 letters, digits, dots, underscores and dashes, not led by a dot, with or without a line feed behind them |
| Proposals.SameBindingExact | src/memory_mission/promotion/proposals.py:84-135 | which fields decide that two requests are the same proposal: plane, employee with none and empty alike, entity, report and facts, and no others |
| Proposals.ContextMeans | src/memory_mission/promotion/pipeline.py:434-436 | a proposal's writes carry its scope and report, and the closet of its plane |
| Proposals.RequirePending | src/memory_mission/promotion/pipeline.py:361-386 | not found, then wrong status, then tampered, else the stored proposal; `Lifecycle.NeverTampered` says what that means on sound proposals: the history decides alone |
| Proposals.Promote | src/memory_mission/promotion/pipeline.py:184-244 | graph and queue change together or, on any error, not at all; the facts land before the approval |
| Proposals.RejectProposal | src/memory_mission/promotion/pipeline.py:247-290 | a rejection of a pending proposal, or an error and no change |
| Proposals.ReopenProposal | src/memory_mission/promotion/pipeline.py:293-351 | a rejected proposal is pending again with its decision fields cleared and its history kept, or an error and no change |
| Lifecycle.HistoryExtends | src/memory_mission/promotion/pipeline.py:361-391 | a legal history (reject reopen)* (nothing, a rejection or an approval) can be extended only by what its status expects, and stays legal |
| Lifecycle.DecisionKeepsSound | src/memory_mission/promotion/pipeline.py:208-232 | a decision keeps identity, digest, plane, legal history, status, rejection count and reasons in step, and changes nothing else |
| Lifecycle.NeverTampered | src/memory_mission/promotion/pipeline.py:373-386 | with sound proposals the integrity check never fires, and an operation is admitted exactly when the history expects it and there is a rationale |
| Lifecycle.ApprovedIsFinal | src/memory_mission/promotion/pipeline.py:361-370 | whoever was approved once is refused every further decision |
| Governance.LifecycleHolds | src/memory_mission/promotion/pipeline.py:124-351 | on every run every stored proposal stays stored, keeps its identity fields and past decisions, and its history decides status and rejection count |
| Governance.Perform | src/memory_mission/promotion/pipeline.py:124-351 | every action but a death, made through the methods of pipeline and graph, leaves store and graph as `Next` says, so that runs of `Next` are runs of the methods |
| Governance.RecreationIsNoop | src/memory_mission/promotion/pipeline.py:142-160 | creating the same proposal again returns the stored one and changes nothing, whatever was decided meanwhile |
| Governance.GraphInvariantsHold | src/memory_mission/memory/knowledge_graph.py:661-679 | on every run of create, promote, reject, reopen, invalidate and merge, crashed promotes included, each row has its corroboration count plus one provenance rows, its confidence is the last one's, and the open rows of a key share one scope |
| GraphRuns.AuditOnEveryRun | src/memory_mission/memory/knowledge_graph.py:477-679 | on every run of the graph's own interface, raw adds and ends included, each row has its corroboration count plus one provenance rows and the confidence of the last, which is in [0, 1] |
| GraphRuns.MergedAwayStaysAway | src/memory_mission/memory/knowledge_graph.py:1107-1185 | on every run a name that was merged away is an entity again only if a later call registered it |
| Traceability.StepKeepsTraced | src/memory_mission/promotion/pipeline.py:463-531 | each write of a promote keeps every provenance row traced to a proposal that was let in |
| Traceability.MergeKeepsTraced | src/memory_mission/memory/knowledge_graph.py:1164-1188 | a merge keeps it too: the renaming it adds is part of the trace |
| Traceability.EverythingTraced | src/memory_mission/promotion/pipeline.py:184-244 | on every run from an empty graph, crashed promotes included, every provenance row cites the report of a proposal that is approved or whose promote died half-way, and which states a fact that the merges since have turned into the row's triple; no report counts twice on a row |
| Traceability.EveryTripleHasAnApproval | src/memory_mission/promotion/pipeline.py:184-244 | read off for one triple: the proposal, the fact and the merges that account for its key, scope and source file |
| Requests.StoredIffAsked | src/memory_mission/promotion/pipeline.py:124-181 | on every run a proposal is stored if and only if some create call with facts and a valid plane asked for its id |
| Requests.StoredAsRequested | src/memory_mission/promotion/pipeline.py:157-167 | and it carries, field by field, what the first of these calls asked, whatever was asked or decided later |
| Requests.TripleAsRequested | src/memory_mission/promotion/pipeline.py:157-167 | on every run each triple has the scope and first report that the first create call for the proposal vouching for it asked for |
| Traceability.ConfidenceIsNoisyOrOfReports | src/memory_mission/memory/knowledge_graph.py:654-679 | on every run, retries included, a corroborated triple holds the capped Noisy-OR of one confidence per report, its source files being pairwise distinct |
| PartialWrites.RecordsNothingExact | src/memory_mission/promotion/pipeline.py:671-695 | a list of writes leaves the provenance table as it was if and only if every assertion in it finds its report recorded at its key in the starting graph and comes before any end of that key |
| PartialWrites.TriplesKeptExact | src/memory_mission/promotion/pipeline.py:463-531 | a list of writes leaves triples and provenance as they were if and only if it records nothing and each of its ends finds no currently-true row in the starting graph |
| PartialWrites.GraphKeptExact | src/memory_mission/promotion/pipeline.py:463-531 | it leaves the whole graph as it was if and only if, besides, its last upsert of each name finds the entity as it leaves it |
| PartialWrites.AllOrNothingExact | src/memory_mission/promotion/pipeline.py:394-531 | a promote that dies leaves the graph it found or the graph of the whole pass if and only if what it wrote was nothing or what it had still to write was nothing; both are read off the starting graph and the facts |
| Approvals.TagsGrowExact | src/memory_mission/promotion/pipeline.py:671-695 | a pass, cut anywhere, writes provenance for its proposal if and only if it does not record nothing in that sense |
| Approvals.DeathThenRejectionExact | src/memory_mission/promotion/pipeline.py:207-290 | from a graph all of whose provenance rows were written for approved proposals, a promote that dies and is then rejected leaves that so if and only if the writes it got through recorded nothing new; ends and upserts are not counted here |
| Approvals.DeathThenRejectionUndoneExact | src/memory_mission/promotion/pipeline.py:207-290 | with ends and upserts counted: death and rejection leave the whole graph as it was if and only if the writes were nothing; triples and provenance, if and only if they recorded nothing and ended nothing |
| Approvals.AllApprovedExact | src/memory_mission/promotion/pipeline.py:207-351 | on every run each provenance row was written for an approved proposal if and only if every proposal a promote of which ever died after recording something new is approved in the end |
| Approvals.AllChangesApprovedExact | src/memory_mission/promotion/pipeline.py:207-351 | on every run each change a promote ever made, be it a triple, evidence, an end or an upsert, was made for a proposal that is approved in the end if and only if each proposal a promote of which ever died after changing something is |
| Approvals.CrashesLeaveNoTraceExact | src/memory_mission/promotion/pipeline.py:207-244 | on every run the graph is at each point that of the run without its crashed promotes if and only if each of these died before it had changed anything |
| Approvals.AllApprovedVouches | src/memory_mission/promotion/pipeline.py:207-244 | then each triple renders a fact of an approved proposal that cites its source file and has its scope |
| Approvals.CrashFreeIsApproved | src/memory_mission/promotion/pipeline.py:207-244 | so it is on every run without crashes |
| Outside.StepIsOthersStep | src/memory_mission/promotion/pipeline.py:463-531 | what a write does to the rows that are about none of some keys depends on those rows only, ended ones included, with their provenance and order |
| Outside.SameMerge | src/memory_mission/memory/knowledge_graph.py:1107-1197 | a merge of names that the keys do not mention is let through by both or neither of two graphs that agree outside the keys, logs the same count and leaves them agreeing |
| Interleaving.InterleavedRetryConverges | src/memory_mission/promotion/pipeline.py:207-244 | with other writers at work: a proposal's promote may die any number of times, in either mode, while others create, decide, promote, die, invalidate and merge; if these stay off its triples (strict promotes off their subjects and predicates too), promoting it in the end is accepted exactly if it would have been without the crashes, and then gives the same queue, entity table, merge log and currently-true view |
| Recovery.RetryMakesGood | src/memory_mission/promotion/pipeline.py:207-244 | in the whole system: however often and wherever a promote died, promoting again in advisory mode succeeds, gives the queue of the promote that never died, and its entity table, merge log and currently-true view |
| Recovery.StrictRetryConverges | src/memory_mission/promotion/pipeline.py:445-531 | a strict promote that died after k writes is accepted again if and only if its facts tolerate what these left standing, and then leaves the entity table and the currently-true view of the uninterrupted strict promote |
| Recovery.RejectedEndStays | src/memory_mission/promotion/pipeline.py:509-531 | an update that dies between the end of the old value and the new one and is then rejected: all provenance is still an approved proposal's, and the old value is no longer believed |
| Recovery.RejectionLeavesEnds | src/memory_mission/promotion/pipeline.py:247-290 | a run of five calls (two proposals, one approval, a promote that dies, a rejection) after which nothing is believed of a triple that was approved, although all provenance is an approved proposal's |
| Recovery.RejectionLeavesWrites | src/memory_mission/promotion/pipeline.py:247-290 | a concrete run (create, a promote that dies, reject) after which every proposal is rejected and the graph still holds a currently-true triple |
| Identity.WellFormedExact | src/memory_mission/identity/base.py:119-137 | an identifier is well formed exactly when it has a colon, of which the first has something other than blanks on both sides |
| Identity.LocalIdentityResolver.Resolve | src/memory_mission/identity/local.py:101-133 | returns the one bound identity of the identifiers, or creates one; binds what was free; refused for no, malformed or conflicting identifiers without any change |
| Identity.LocalIdentityResolver.ExistingIds | src/memory_mission/identity/local.py:114-117 | the identities that some of the identifiers are bound to |
| Identity.LocalIdentityResolver.BindAll | src/memory_mission/identity/local.py:207-217 | binds the free identifiers and rebinds none |
| Identity.LookupReturnsAnswer | src/memory_mission/identity/local.py:135-141 | whatever calls come later, looking up an identifier of a successful call returns what that call returned |
| Identity.LookupMissExact | src/memory_mission/identity/local.py:135-141 | a lookup comes back empty if and only if the identifier is well formed and no successful call has mentioned it |
| Identity.BindingsAreComponents | src/memory_mission/identity/local.py:143-148 | after any run, the bindings of an identity are exactly what chains of successful calls link to any one of them |
| Identity.SameIdMeansConnected | src/memory_mission/identity/local.py:101-133 | after any run of calls, two bound identifiers share an identity if and only if a chain of overlapping successful calls links them |
| Identity.BindingsAreForever | src/memory_mission/identity/local.py:207-217 | no later run of calls changes a binding; a refused call changes nothing at all |
| Identity.OrderDoesNotMatter | src/memory_mission/identity/local.py:101-133 | two runs over the same identifier sets that fully succeed group the identifiers alike, whatever their order and the random ids |
| Canonicalize.CanonicalizeReport | src/memory_mission/extraction/ingest.py:244-273 | the naming loop and the rewriting, or the resolver's error with the bindings made so far |
| Canonicalize.NamingBinds | src/memory_mission/extraction/ingest.py:253-268 | after the loop the name map has exactly the names of facts with identifiers, and the identifiers of the first fact of a name are all bound to its identity |
| Canonicalize.ResolverKindMeans | src/memory_mission/extraction/ingest.py:302-311 | an organization is what the report calls organization, company, firm or org in any case, and everything else a person |
| Canonicalize.NewIdentity | src/memory_mission/extraction/ingest.py:254-268 | identifiers nobody has bound create one identity of that kind, under the canonical name property if it is there and not empty, else under the fact's name |
| Canonicalize.CanonicalNamesAreIdentities | src/memory_mission/extraction/ingest.py:276-299 | each mention of an identified entity is now the identity its identifiers are bound to, every other mention and everything else in the fact is as it was |
| Canonicalize.CanonicalizationIsIdempotent | src/memory_mission/extraction/ingest.py:244-273 | canonicalizing the result again, with this resolver or any later state of it, changes neither report nor resolver, also when names share an identity or equal an issued id |
| Tasks.CreateTask | src/memory_mission/mcp/individual_server.py:373-442 | appends exactly the rows of status open, title, owner (the user if none is given), due date and thread, the last two if given; refused without a write when a source is blank |
| Tasks.EndPriorStatus | src/memory_mission/mcp/individual_server.py:461-464 | ends the first open status the employee's own scope sees, on the given day or today |
| Tasks.UpdateTaskStatus | src/memory_mission/mcp/individual_server.py:445-476 | refused exactly for a status outside the eight listed ones or a missing source, without a write; otherwise one transition, whose new row is the status under the given date, source and scope |
| Tasks.CompleteTask | src/memory_mission/mcp/individual_server.py:479-536 | a transition to completed plus its notes |
| Tasks.StatusesAlwaysTiled | src/memory_mission/mcp/individual_server.py:388-511 | in every reachable state, whatever happens to other tasks, a task has one status row per change, each ended where the next begins, and exactly the last one open |
| Tasks.ValidStatuses | src/memory_mission/memory/knowledge_graph.py:121-131 | the number of statuses valid at a date is one plus the number of changes that overlap there, dated or not |
| Tasks.TilingExact | src/memory_mission/mcp/individual_server.py:459-511 | in every reachable state some status is valid at every date, and exactly one is at every date if and only if every change named its date and the dates never decreased, several changes on one day included |
| Tasks.UndatedUpdateOverlaps | src/memory_mission/mcp/individual_server.py:459-475 | an update without a date, the default call: two statuses are valid at every date before the day of the call |
| Durable.CheckpointStore.CreateThread | src/memory_mission/durable/store.py:110-140 | a new running thread, or a refusal that changes nothing |
| Durable.CheckpointStore.WriteCheckpoint | src/memory_mission/durable/store.py:184-212 | one checkpoint set, refused without a thread |
| Durable.DurableRun.Start | src/memory_mission/durable/run.py:118-156 | a fresh run with no steps, or a resumed one whose steps are exactly those checkpointed under its own thread; no checkpoint changes; another firm's thread is refused untouched; only a completed thread keeps its status |
| Durable.DurableRun.MarkDone | src/memory_mission/durable/run.py:185-189 | checkpoint first, then memory; keeps memory equal to the store and touches no other thread |
| Durable.DurableRun.RunStep | src/memory_mission/durable/run.py:191-201 | skips a done step, otherwise runs the body; the step is done afterwards if and only if the body did not raise; refused before start |
| Durable.DurableRun.Pass | src/memory_mission/durable/run.py:191-201 | a step list runs each undone step once, in the order of first mention, up to its end or to the first body that raises, which leaves no checkpoint; no other thread is touched |
| Durable.DurableRun.Finish | src/memory_mission/durable/run.py:158-176 | complete, fail and pause store the state and overwrite the status, whatever it was |
| Durable.OtherThreadsDoNotMatter | src/memory_mission/durable/store.py:230-236 | two stores that agree on a thread's own checkpoints give its run the same memory, and its pass the same log and end, whatever they hold of other threads |
| Durable.LikeStoresLikeRuns | src/memory_mission/durable/run.py:118-201 | the same of the methods: start and pass on either store |
| Durable.BodiesAccountedFor | src/memory_mission/durable/run.py:180-201 | for any step lists and any crashes a body is begun once for its checkpoint plus once for each process that died between that body and its checkpoint |
| Durable.NoBodyAfterCheckpoint | src/memory_mission/durable/run.py:180-201 | no body is begun again once its checkpoint is written, across all restarts |
| Durable.MemoryIsStore | src/memory_mission/durable/run.py:118-156 | whenever a process starts or has marked a step its memory is the stored set, and a process at the end of its list has every step checkpointed |
| Durable.PassIsMachine | src/memory_mission/durable/run.py:180-201 | what the class does in one pass, raised or not, is what the crash machine does when it is given the steps and time enough |
| Pages.IsoRoundTrip | src/memory_mission/memory/pages.py:74-75 | a rendered date has the entry pattern's shape and reads back as itself |
| Pages.Render | src/memory_mission/memory/pages.py:188-238 | the joined parts, callout included, are the rendered page |
| Pages.ParseTimeline | src/memory_mission/memory/pages.py:270-289 | the entries of all lines, or the error of an impossible date |
| EntryLines.ParseLineExact | src/memory_mission/memory/pages.py:60-63 | whoever wrote it, a line is an entry (or refused for its date) if and only if, stripped, it is in the pattern and no comment |
| EntryLines.ParseLineReads | src/memory_mission/memory/pages.py:277-288 | and its date, source and text are those at the places of the pattern |
| PageRoundTrip.EntryRoundTrip | src/memory_mission/memory/pages.py:60-75 | a canonical entry survives rendering and parsing |
| PageRoundTrip.ParsedPageShape | src/memory_mission/memory/pages.py:165-185 | whatever was parsed has a stripped truth and canonical entries |
| PageRoundTrip.RoundTripExact | src/memory_mission/memory/pages.py:165-289 | parsing a rendered page gives the page back if and only if its truth is stripped and has no bare fence line and every entry is one line with a non-empty bracket-free source and a stripped text |
| PageRoundTrip.ReparseExact | src/memory_mission/memory/pages.py:165-289 | a parsed page survives rendering and parsing again if and only if its truth has no bare fence line |
| PageRoundTrip.ReparseCanLoseTruth | src/memory_mission/memory/pages.py:258-267 | a concrete page, with an indented row of dashes on top, that does not survive |
| PageWarnings.WarningsBecomeTruth | src/memory_mission/memory/pages.py:188-238 | a page rendered with coherence warnings comes back with the callout in its truth if and only if that page is canonical |
| TextLines.LinesOfGlued | src/memory_mission/memory/pages.py:274-274 | however a text is made of lines and ends (the ten break characters, or carriage return and line feed together, or nothing behind a last line), splitting it gives those lines back |
| TextLines.EveryTextIsGlued | src/memory_mission/memory/pages.py:274-274 | and every text is made so |
| TextLines.SeparatorExact | src/memory_mission/memory/pages.py:55-55 | a separator is a line that begins with three dashes with only blanks after them, which may run over further blank lines; the longest such stretch is taken |
| TextLines.RefusalsExact | src/memory_mission/memory/pages.py:241-249 | a page is refused for its frontmatter exactly when it does not begin with three dashes, and for its closing fence exactly when no separator stands in what follows its first line |
| TextLines.CalendarMeans | src/memory_mission/memory/pages.py:284-284 | the days that are dates: lengths of months, and the leap years of the Gregorian calendar |
| TextLines.CalloutMeans | src/memory_mission/memory/pages.py:326-342 | the callout is its head line and one line per warning, in order, which names both triples, each with its own tier |
| PageWarnings.NoWarnings | src/memory_mission/memory/pages.py:226-229 | without warnings the rendering is the plain one |
| RankFusion.RrfFuse | src/memory_mission/memory/search.py:102-115 | for every k the accumulating loop holds exactly the mentioned items, in order of first mention, each with its sum of 1 / (k + rank); it fails exactly when some list reaches the rank that a negative k cancels |
| RankFusion.FusionIgnoresListOrder | src/memory_mission/memory/search.py:102-115 | permuting the ranked lists changes no score |
| RankFusion.AheadEverywhereWins | src/memory_mission/memory/search.py:102-115 | for a k of at least zero, an item ahead of another in every list that has the other, all duplicate-free, scores strictly higher |
| RankFusion.BeingAheadExact | src/memory_mission/memory/search.py:102-115 | that holds of every fusion that succeeds if and only if k is at least -2 |
| RankFusion.FusedScoreRenamed | src/memory_mission/memory/engine.py:442-447 | fusing under injective names gives every item its own score |
| RankFusion.FirstMentionsMapped | src/memory_mission/memory/engine.py:442-447 | and keeps the order of first mention |
| SearchEngine.SortDescMeans | src/memory_mission/memory/engine.py:370-370 | the sort is a descending rearrangement that keeps the order of equals |
| SearchEngine.SearchSeesOnlyVisible | src/memory_mission/memory/engine.py:347-479 | both searches answer as if pages outside plane, tier floor and viewer rights, and their embeddings, did not exist |
| SearchEngine.NothingFilteredExact | src/memory_mission/memory/engine.py:686-725 | every page passes the viewer filter if and only if there is no viewer, whether or not there is a policy |
| SearchEngine.MissingPolicyHides | src/memory_mission/memory/engine.py:716-724 | a firm page that a viewer without a policy does not see |
| SearchEngine.VisibleExact | src/memory_mission/memory/engine.py:669-725 | the filters let a page through if and only if plane, employee and tier floor match and the viewer is entitled to it: own personal pages, public firm pages, and firm pages whose declared scope is among the viewer's own |
| SearchEngine.FindTextFirst | src/memory_mission/memory/engine.py:748-756 | a search in text finds the first occurrence, and nothing only if there is none |
| SearchEngine.CountByFinding | src/memory_mission/memory/engine.py:743-745 | occurrences are counted without overlap, each behind the one before |
| SearchEngine.SnippetMeans | src/memory_mission/memory/engine.py:748-756 | the window is 80 characters, from 40 before the first occurrence on |
| PageEngine.KeyTokenInjective | src/memory_mission/memory/engine.py:728-731 | tokens of valid keys differ as the keys do, whatever the slug holds |
| PageEngine.Fuse | src/memory_mission/memory/engine.py:442-447 | fusing on tokens and mapping back is fusing the keys |
| PageEngine.Boost | src/memory_mission/memory/engine.py:450-453 | doubles exactly the pages whose truth contains the query |
| PageEngine.Blend | src/memory_mission/memory/engine.py:456-459 | mixes in 0.3 of the cosine when there is a vector ranking |
| PageEngine.Engine.PutPage | src/memory_mission/memory/engine.py:264-277 | refused exactly for an invalid plane and employee or a domain outside the eight core ones; otherwise the key holds the page and the embedding of its title, line feed and truth, in an existing key's place, and every other key what it held |
| PageEngine.Engine.DeletePage | src/memory_mission/memory/engine.py:279-289 | the page and its embedding are gone; everything else stays |
| PageEngine.Engine.Search | src/memory_mission/memory/engine.py:317-372 | the loop refines the specified answer |
| PageEngine.Engine.Query | src/memory_mission/memory/engine.py:374-479 | fusion on tokens, boost, blend and cut refine the specified answer |
| PageEngine.EngineSeesOnlyVisible | src/memory_mission/memory/engine.py:411-479 | the engine answers as the engine that holds only the asker's visible pages, through ranking, embeddings, fusion, boost, blend and truncation |
| PageEngine.HiddenPutIsInvisible | src/memory_mission/memory/engine.py:264-277 | writing a page the asker cannot see changes none of the asker's answers |
| PageEngine.HiddenDeleteIsInvisible | src/memory_mission/memory/engine.py:279-289 | nor does deleting one |
| PageEngine.QueryFindsOnly | src/memory_mission/memory/engine.py:374-479 | the hits descend by score and are visible pages that match (with an embedder, every page does) |
| PageEngine.QueryFindsAll | src/memory_mission/memory/engine.py:374-479 | with room for all pages no visible match is left out |
| ReadRights.SearchFindsOnly | src/memory_mission/memory/engine.py:347-372 | each keyword hit is a page asked for, which the viewer is entitled to, and scores one per occurrence in the title and two per occurrence in the truth |
| ReadRights.SearchFindsAll | src/memory_mission/memory/engine.py:347-372 | with room for all pages each such page with an occurrence is found |
| ReadRights.QueryFindsRightful | src/memory_mission/memory/engine.py:411-479 | each hybrid hit is a page asked for, which the viewer is entitled to |
| ReadRights.QueryFindsAllRightful | src/memory_mission/memory/engine.py:411-479 | with room for all pages each such page that matches, and with an embedder each such page, is found |
| ReadRights.OthersRightsDoNotMatter | src/memory_mission/permissions/policy.py:104-129 | changing the scopes or the list of other employees changes none of the viewer's answers |
| ReadRights.RefusedExact | src/memory_mission/memory/engine.py:662-666 | both searches are refused exactly when an employee is given without a plane, a personal plane without a safe employee id, or a firm plane with an employee |
| ReadRights.VectorScoresAre | src/memory_mission/memory/engine.py:430-442 | with an embedder the vector ranking holds exactly the shown pages, each under the cosine of the question and of its title, line feed and truth; without one nothing |
| ReadRights.QueryHitScore | src/memory_mission/memory/engine.py:420-479 | a hybrid hit scores 1 / (60 + place) for each of the two rankings that lists it, doubled if the truth contains the query, and 0.7 of that plus 0.3 of the cosine if there are vectors |

## Left out

- SQLite: connections, migrations, locking and `sql_query`. Each transaction is one atomic step; a JSON or SQL round trip of
  a stored record is the record.
- Floating point: confidences and search scores are reals.
- Clocks, random ids and `created_at`, `added_at`, `merged_at` columns: inputs where they decide something, omitted where
  they do not.
- SHA-256 is an arbitrary function of the fields it hashes; the YAML library is a pair of functions assumed to read back what
  it wrote, without a bare fence line; lower-casing, embedding and cosine are arbitrary functions.
- Validation by pydantic of fields that no branch here reads, and tiers of promoted triples other than the default.
- Observability logging and its required scope.
- Retry.CrashAndRetryConverge: says nothing about ended rows and about the order of open rows of different keys, because a
  retry can leave additional ended rows and a different interleaving.
- Retry.CrashAndRetryConverge: for advisory mode only; constitutional mode is `StrictMode.StrictRetryExact` and
  `Recovery.StrictRetryConverges`.
- Crashes inside one transaction: SQLite rolls those back. A crash between the last write and the saving of the approval is
  a promote that died after its last write.
- The SELECT behind `query_entity` has no ORDER BY (src/memory_mission/memory/knowledge_graph.py:966):
  `TripleStore.KnowledgeGraph.QueryEntityRows`, `MergeLaws.MergeCommutesWithTimeTravel` and `Tasks.EndPriorStatus` take the
  rows in id order, SQLite's table order. Which open status `Tasks.EndPriorStatus` finds first does not matter on the runs
  of `Tasks.StatusesAlwaysTiled`, where one is open.
- Interleaving.InterleavedRetryConverges: for a retry in advisory mode, and for other actions that stay off the proposal's
  own triples (and, for strict promotes, off their subjects and predicates).
- Tasks.TilingExact: for tasks that only these tools touch, under one scope, as a personal graph writes them.
- `thread` status, preference, commitment and fact tools of the individual server: they repeat the task pattern, and
  `record_facts` is mostly input validation.
- `FileSystemEngine`, links, listings and page statistics; mention tracking; `ExtractionWriter` files; federated candidate
  detection apart from its aggregation; policy and manifest parsing; connectors, command line and server wiring.
- `save_state`, listing and lookup of durable threads and checkpoints: no branch.
