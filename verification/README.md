# Verification of the platform's hard cores

Dafny models of the components whose behaviour over whole runs matters most, and proofs of it. `dafny verify
dfyconfig.toml` checks everything.

| component | modules |
|---|---|
| Scope board of concurrent agents | `ScopeBoard` (protocol), `ScopeExclusion` (safety over runs), `CommitGraph`, `RepositoryStatus`, `Board` (the commands over mutable entries), `Ordering` |
| Freshness of a task base | `Freshness` |
| Explorer: Markdown blocks and sections | `MarkdownText`, `MarkdownGrammar` (line shapes), `MarkdownChunks`, `MarkdownBlocks` (specification), `MarkdownParser` (the loops), `BlockOrder`, `BlockLocality`, `Sections`, `Documents` |
| Explorer: Markdown inline | `MarkdownInline` (specification), `InlineParser` (the loops), `InlineErrors`, `InlineEscapes` |
| Explorer: site and schema | `SiteTree`, `SiteBuild`, `SchemaLayout` |
| ADD, intents, handoff | `DependencyCycle`, `IntentSets`, `Handoffs`, `TablePrinting`, `PrintedTables` |
| Friction roots and checkpoints | `RootMerge`, `Checkpoints` |
| Guarded rollout | `RecopyModel`, `RecopySafety`, `RecopyText`, `RecopyRun` |
| Failure streaks | `StreakRecord`, `StreakJson`, `StreakMentions`, `FailureStreak` |
| Agent sessions | `SessionHooks`, `SessionStates` |

What the source computes with expressions and recursion is a function here. What it computes by changing things is a
method over mutable state or with the source's loops, proved equal to a function; the theorems are about that function.
The theorems about Markdown blocks hold for any classification of lines that is `Sound`; `MarkdownGrammar` proves the
parser's regular expressions sound, `MarkdownGrammar.MarkdownIsReal` gives the grammar built of them, and `Documents`
states the results for it. A digest is taken to be injective.
Git is a finite commit graph. An external tool or process may write anything; a world may change arbitrarily between
the steps of a run.

Five promises hold only under a condition, and the theorems say which:

- Mutual exclusion on the scope board fails when an update heartbeat revives a stale entry
  (`RepositoryStatus.RevivalBreaksExclusion`); `ScopeExclusion.MutualExclusionIff` gives the exact condition.
- `doctor --fix` drops entries by id and `start` does not check that an id is new, so an active entry goes exactly when it
  shares its id with a removable one (`RepositoryStatus.DoctorRemovesActiveIff`; `RepositoryStatus.SameIdRemovesActive` is
  such a run).
- The read-only freshness observer takes the first line of `ls-remote --heads remote main`
  (template/scripts/_platform_common.py:549-557), which also lists branches such as `a/main` and lists them first
  (`Freshness.OtherBranchReadsFresh`); `Freshness.SameCommitIff` gives the exact condition.
- The guarded recopy sorts conflicts by the ownership keys that the failed update left behind
  (scripts/rollout_project.py:1126), so an update that lists a path as project-owned that nothing watched exposes it
  (`RecopyRun.EditLost`); `RecopySafety.NothingLostIff` gives the exact condition.
- The failure tracker finds an issue by a text search of its body, so a reason that quotes another project's marker has
  its issue taken over by that project (`FailureStreak.QuoteForgets`), and it looks at a hundred issues only;
  `FailureStreak.RunTellsIff` gives the exact condition and `FailureStreak.CleanRunTells` one on the inputs alone.

More observations about the code, kept as it is: a level-1 heading that is not first is refused as a second title even
when it is the only one; a permission wait ends when the agent asks the user a question meanwhile, or when a second tool
asks for permission and completes (`SessionStates.OtherToolEndsWait`); removing the session hooks also removes a foreign
command that shares an entry with one of them (`SessionHooks.CommandSurvivesIff`); an unreadable issue body counts as a
full streak (`FailureStreak.NextStreak`); and a table row of no cells would read back as one empty cell
(`TablePrinting.RoundTripIff`).

## Model

| member | source | states |
|---|---|---|
| `ScopeExclusion.MutualExclusionIff` | template/scripts/agent_board.py:545-733 | For every run of start, update, admit, acknowledge, finish and doctor --fix, in a world that changes between steps, any chosen group of entries never shares a claimed file (unless generated, or acknowledged for exactly that pair) at any point of the run if and only if no granted admission of the run overlaps a stored claim of an entry that is not provably active. |
| `ScopeExclusion.ActiveEntriesExclude` | template/scripts/agent_board.py:371-380 | If no entry regains eligibility, any two active entries at the end of any run hold a common file only where it is generated or acknowledged. |
| `ScopeExclusion.GrantKeepsExclusiveIff` | template/scripts/agent_board.py:371-380 | A granted admission keeps exclusion exactly when it asks for no file claimed by an entry that is not provably active. |
| `ScopeExclusion.GrantSparesActive` | template/scripts/agent_board.py:326-369 | A granted admission never takes a file that a provably active entry claims, generated and acknowledged files aside. |
| `ScopeExclusion.OthersKeepExclusive` | template/scripts/agent_board.py:545-733 | Every step that is not a granted admission keeps exclusion. |
| `ScopeExclusion.ConflictsEmptyIff` | template/scripts/agent_board.py:326-369 | The cut-off at five diagnostics never hides a conflict: the list is empty exactly when no active rival owns an unacknowledged, ungenerated path that is asked for. |
| `ScopeExclusion.GateStopsBoth` | template/scripts/agent_board.py:857-869 | Two active tasks that both really changed the same unacknowledged file each fail the scope gate. |
| `ScopeExclusion.ClaimsWereGranted` | template/scripts/agent_board.py:545-733 | Over every run each file that an entry holds was asked for by an admission granted to its worktree and branch: waiting, acknowledging, heartbeats and repairs give nobody a file. |
| `RepositoryStatus.RevivalBreaksExclusion` | template/scripts/agent_board.py:579-605 | A concrete run in which an update heartbeat revives a stale entry and two active entries hold the same file. |
| `RepositoryStatus.TerminalIff` | template/scripts/agent_board.py:484-524 | An entry with its worktree in place is terminal exactly when its exact pull request is proven merged or the commit graph shows a merged branch. |
| `RepositoryStatus.ActiveIsNotRemovable` | template/scripts/agent_board.py:695-704 | Under any staleness limit an active entry is never safe to remove for its own sake. |
| `RepositoryStatus.DoctorRemovesActiveIff` | template/scripts/agent_board.py:707-733 | doctor --fix removes an active entry exactly when an entry that is safe to remove carries the same id. |
| `RepositoryStatus.SameIdRemovesActive` | template/scripts/agent_board.py:545-576 | A concrete run that registers two tasks under one id: the first worktree is deleted, and doctor --fix drops the second, active entry with the first. |
| `RepositoryStatus.DoctorExactWithDistinctIds` | template/scripts/agent_board.py:707-733 | With distinct ids doctor --fix removes the entries safe to remove and nothing else. |
| `CommitGraph.MergedBranchIff` | template/scripts/agent_board.py:457-481 | On every commit DAG the verdict is merged-branch exactly for a branch that moved on from its registration base and whose tip is off main's first-parent line. |
| `CommitGraph.RangeIsLineMinusBase` | template/scripts/agent_board.py:470-478 | The first-parent range lists exactly the commits of main's first-parent line that the base does not contain. |
| `CommitGraph.EnteredAsMergeParent` | template/scripts/agent_board.py:457-481 | A contained tip off the first-parent line entered main through a second or later parent of a merge on that line. |
| `CommitGraph.MergedBranchIsStable` | template/scripts/agent_board.py:457-481 | As main advances along its first-parent line the merged-branch verdict on a contained branch never changes. |
| `Board.AdmissionConflicts` | template/scripts/agent_board.py:326-369 | The scan over the mutable entries reports exactly the conflicts of the protocol's specification, or the unreadable diff that stops it. |
| `Board.AdmitEntry` | template/scripts/agent_board.py:371-380 | The admission writes WAIT with the conflicts, or RUN with the sorted claims, into this entry and no other. |
| `Board.BoardFile.Register` | template/scripts/agent_board.py:545-576 | cmd_start on the board file is the protocol's registration step; on any error the file stays as it was. |
| `Board.BoardFile.Heartbeat` | template/scripts/agent_board.py:579-604 | cmd_update on the board file is the protocol's update step. |
| `Board.BoardFile.TryAdmit` | template/scripts/agent_board.py:607-626 | cmd_admit on the board file is the protocol's admission step, refreshed scope and heartbeat included. |
| `Board.BoardFile.AcknowledgeOverlap` | template/scripts/agent_board.py:629-680 | cmd_acknowledge on the board file is the protocol's acknowledgment step, with each of its refusals. |
| `Board.BoardFile.Remove` | template/scripts/agent_board.py:682-692 | cmd_finish on the board file drops exactly the entries of the id. |
| `Board.BoardFile.Repair` | template/scripts/agent_board.py:707-733 | cmd_doctor --fix on the board file drops the entries whose ids were found removable. |
| `Freshness.ReadOnlyRefinesFetch` | template/scripts/_platform_common.py:505-583 | When the first line that the remote lists for the branch is its own, the read-only observer and the fetching one fail alike, name the same commit and agree on fresh or not, the shortcut for an absent commit included; the one difference is a missing task ref that the shortcut does not notice. |
| `Freshness.SameCommitIff` | template/scripts/_platform_common.py:535-583 | Where both observers answer they name the same commit exactly if the first line listed is the branch's own, as it is when no other branch ends in a slash and its name. |
| `Freshness.OtherBranchReadsFresh` | template/scripts/_platform_common.py:535-583 | With a branch a/main besides main, a task that is behind main reads as equal to it. |
| `Freshness.RelationSwaps` | template/scripts/_platform_common.py:485-502 | The relation of two refs is total, and swapping them swaps behind and ahead and nothing else. |
| `Freshness.FreshIffContains` | template/scripts/_platform_common.py:485-502 | Fresh means exactly that the task contains the integration head. |
| `Freshness.FetchKeepsClone` | template/scripts/_platform_common.py:505-532 | A fetch keeps the object store closed under parents with every ref inside it. |
| `MarkdownParser.ParseBlocks` | scripts/build_explorer.py:270-352 | The parser loop, with its mutual recursion into quotes and list items, terminates on every line sequence and builds exactly the blocks of the specification. |
| `MarkdownParser.ParseOne` | scripts/build_explorer.py:274-351 | One turn of the loop takes the construct that stands at the line, in the parser's order of questions, and consumes exactly its lines. |
| `MarkdownParser.ParseFence` | scripts/build_explorer.py:286-301 | A fence closes at the first line of at least as many of its characters, or is reported as unterminated to the end. |
| `MarkdownParser.ParseParagraph` | scripts/build_explorer.py:331-351 | A paragraph goes on up to a blank or interrupting line, or is refused with a setext underline. |
| `MarkdownParser.ParseQuote` | scripts/build_explorer.py:355-385 | A quote takes the marked lines without their markers, parses them anew, and reports a lazy line after it. |
| `MarkdownParser.MarkAlert` | scripts/build_explorer.py:367-380 | The alert marker of a quote is taken off, or reported when it is unknown. |
| `MarkdownParser.GatherItem` | scripts/build_explorer.py:408-446 | An item takes indented lines, blank lines before more of it, and lazy lines, each with the text the parser gives it. |
| `MarkdownParser.ParseList` | scripts/build_explorer.py:395-465 | A list takes items of one kind over blank lines and ends with its last item. |
| `MarkdownParser.ParseTable` | scripts/build_explorer.py:468-495 | A table takes its rows up to a line that is none, and reports the first row of a wrong width instead. |
| `MarkdownChunks.ChunksWeigh` | scripts/build_explorer.py:355-465 | The nested lines of all quotes and items of a text are together fewer characters than the text, which is why parsing them again terminates. |
| `MarkdownChunks.StepAt` | scripts/build_explorer.py:270-352 | Every construct consumes a non-empty range of lines. |
| `BlockOrder.ParsePlaced` | scripts/build_explorer.py:270-495 | At every nesting level blocks own disjoint line ranges in order, within their parent's; a paragraph or code block has room for all its lines, a table's rows stand on consecutive lines; alert rewrites, lazy lines and bad rows included. |
| `BlockOrder.LinesIncrease` | scripts/build_explorer.py:270-352 | Block line numbers strictly increase and lie within the text. |
| `BlockOrder.EmptyIffBlank` | scripts/build_explorer.py:270-352 | A text parses to no block exactly when all its lines are blank. |
| `BlockOrder.AlertPlaced` | scripts/build_explorer.py:367-380 | Taking the alert marker off leaves the quote's content in its lines, in order. |
| `MarkdownGrammar.LookSound` | scripts/build_explorer.py:208-258 | The real line shapes meet what the theorems about blocks assume: markers shorten a line, stripping never lengthens one, and a heading line is no other construct and interrupts whatever comes before it. |
| `MarkdownGrammar.HeadingStands` | scripts/build_explorer.py:208-233 | A heading line is no list item, quote, underline or delimiter row, and interrupts a paragraph. |
| `MarkdownGrammar.ExpandedBlank` | scripts/build_explorer.py:512-515 | Expanding leading tabs turns no blank line into another and no other into a blank one. |
| `BlockLocality.StepCut` | scripts/build_explorer.py:270-352 | A construct that ends before a heading line parses the same way when the text is cut there, whatever follows. |
| `BlockLocality.ListCut` | scripts/build_explorer.py:395-465 | A list that ends before a heading line has the same items when the text is cut there. |
| `Sections.SectionsAgree` | scripts/build_explorer.py:1058-1111 | The excerpt of a section and its digested lines are found or refused alike, for the same reason, and the excerpt is exactly what those lines parse to on their own. |
| `Sections.SectionByLine` | scripts/build_explorer.py:1071-1108 | The blocks by position under a heading are exactly the blocks whose line lies in the section's line range. |
| `Sections.SectionParsed` | scripts/build_explorer.py:1071-1108 | The blocks from a heading to the next one of its level are the lines between them parsed alone. |
| `Sections.HeadingAt` | scripts/build_explorer.py:302-306 | Every heading block stands at a line where a construct begins, and parts the blocks there. |
| `Sections.WholeRefusedIff` | scripts/build_explorer.py:1061-1070 | A whole document is refused for a second title exactly when a level-1 heading stands anywhere but first. |
| `Sections.Excerpt` | scripts/build_explorer.py:1058-1087 | The excerpt loop returns the section's blocks, or the reason there is none. |
| `Sections.RawSection` | scripts/build_explorer.py:1089-1111 | The loop by line numbers returns the section's lines, or the reason there is none. |
| `Documents.ShownIsDigested` | scripts/build_explorer.py:1058-1111 | For the real grammar and the raw lines of a file: the blocks shown for a section are what its digested lines parse to, and both are refused alike. |
| `Documents.DocumentPlaced` | scripts/build_explorer.py:512-516 | For the real grammar: every block of a file, at every nesting level, stands in its own lines of the file, in order. |
| `TablePrinting.RowRoundTrip` | template/scripts/add_intents.py:690-691 | Splitting a printed row gives the cell values back, white space normalised, with backslashes and pipes anywhere. |
| `TablePrinting.RoundTripIff` | template/scripts/add_intents.py:676-691 | The row round trip holds for every list of values if and only if there is a cell. |
| `TablePrinting.NormalKeepsWords` | template/scripts/add_intents.py:583-584 | Normalising a cell keeps exactly its words and is idempotent. |
| `TablePrinting.ReadsEscaped` | scripts/build_explorer.py:245-251 | The row splitter reads an escaped text back whatever backslashes and pipes it holds. |
| `MarkdownText.SplitRowCells` | scripts/build_explorer.py:236-258 | The splitting loop returns the cells of the specification. |
| `PrintedTables.TableRoundTrip` | template/scripts/add_intents.py:676-691 | A whole printed table is read as one table block with every cell as it was, and no row is ever flagged. |
| `InlineErrors.ParsePoints` | scripts/build_explorer.py:643-783 | Whatever the nesting, an error's offset is a position of the outermost text and the rejected construct stands there, in full, from its first character. |
| `InlineErrors.CodeSpanEnds` | scripts/build_explorer.py:550-566 | A code span ends with the first later backtick run of exactly equal length, and is none if there is no such run (section 6.1 of CommonMark 0.31.2). |
| `InlineEscapes.EscapedIsText` | scripts/build_explorer.py:655-667 | Text without a newline, with every escapable character escaped, parses back to exactly that text (section 2.4 of CommonMark 0.31.2). |
| `InlineParser.ParseInline` | scripts/build_explorer.py:643-783 | The inline loop terminates on every text, recursing only on shorter text, and returns what the specification says. |
| `InlineParser.SkipSpan` | scripts/build_explorer.py:550-566 | The code span scanner's loops find the end of the specification. |
| `InlineParser.FindBracket` | scripts/build_explorer.py:569-589 | The bracket matcher passes over escapes and code spans as specified. |
| `InlineParser.FindParen` | scripts/build_explorer.py:592-607 | The parenthesis matcher passes over escapes as specified. |
| `InlineParser.FindEmphasisCloser` | scripts/build_explorer.py:610-640 | The search for a closing delimiter run finds the one of the specification. |
| `MarkdownInline.UrlKeepsFirst` | scripts/build_explorer.py:772-778 | Trimming a bare URL never empties it, so the loop always advances. |
| `SiteTree.AcceptedIff` | scripts/build_explorer.py:2036-2048 | The climb from every node succeeds exactly when no node is its own ancestor, and then every node is under a root. |
| `SiteTree.EachNodeOnce` | scripts/build_explorer.py:2053-2060 | The depth-first order from the roots holds every node exactly once. |
| `SiteTree.ParentsFirst` | scripts/build_explorer.py:2057-2060 | Every node comes after its parent. |
| `SiteTree.SiblingsInOrder` | scripts/build_explorer.py:2040-2041 | Siblings, and roots, come in the order of (order, id). |
| `SiteTree.ListingInOrder` | scripts/build_explorer.py:2040-2041 | Sorting by (order, id) is strict. |
| `SiteBuild.Site.LinkTree` | scripts/build_explorer.py:2036-2055 | The builder fills every node's children in order and the roots, or names a node that meets no root exactly when a cycle exists, or an element with neither sources nor children. |
| `SiteBuild.Site.Visit` | scripts/build_explorer.py:2057-2060 | The recursive walk appends the depth-first order below the given ids. |
| `SiteBuild.Site.Build` | scripts/build_explorer.py:1911-1913 | Linking and walking give the page order, or the error; a cycle is reported exactly when there is one. |
| `SiteBuild.Site.Climb` | scripts/build_explorer.py:2042-2048 | The climbing loop tells whether a node meets a root. |
| `SchemaLayout.LinkStages` | scripts/build_explorer.py:1597-1647 | Stages are accepted exactly when their orders run from one without gaps, they are those of the map, every transition stops the lifecycle or goes back if and only if it is a return, and every child is another node that is a mechanism or a part. |
| `SchemaLayout.ForwardEnds` | scripts/build_explorer.py:1633-1645 | Every walk of transitions that are no returns strictly increases the stage order, so it has at most as many stages as there are. |
| `SchemaLayout.RoutableIff` | scripts/build_explorer.py:1784-1809 | For any number of stages a transition can be drawn exactly if it stays in its row, or leads down at the turn column, or returns up at either end. |
| `SchemaLayout.NeighboursRoutable` | scripts/build_explorer.py:1784-1809 | The line from each stage to the next, and a return to the stage before, can always be drawn, at the turn too. |
| `SchemaLayout.RoutesInside` | scripts/build_explorer.py:1784-1816 | Every point of a drawn route, and its mark, lies on the canvas. |
| `SchemaLayout.BoxesApart` | scripts/build_explorer.py:1775-1781 | No two stage boxes overlap. |
| `SchemaLayout.BoxesInside` | scripts/build_explorer.py:1775-1781 | Every stage box lies on the canvas. |
| `SchemaLayout.Place` | scripts/build_explorer.py:1775-1781 | The loop places every stage and nothing else, as the layout says. |
| `DependencyCycle.FindCycle` | template/scripts/add_intents.py:752-778 | The coloured depth-first search is exact: an answer is a closed walk of dependency edges among known intents that repeats nothing, and no answer means the graph is acyclic. |
| `DependencyCycle.OrderErrors` | template/scripts/add_intents.py:981-990 | The order check reports every fault of a declared order and nothing else. |
| `DependencyCycle.AcceptedCyclesAreSelfLoops` | template/scripts/add_intents.py:970-990 | The only cycle an accepted order leaves is a self-loop. |
| `DependencyCycle.AcceptedAndAcyclicIff` | template/scripts/add_intents.py:752-990 | Accepted and cycle-free means exactly that the order is a permutation, everything in it ready, and a strict linear extension of the dependencies. |
| `IntentSets.Check` | template/scripts/add_intents.py:831-934 | The loops accept an intent set exactly when ids are distinct, references known, dependencies acyclic, overlaps explained, every new or changed element covered or disposed of, the delivery order valid and no ready intent blocked. |
| `IntentSets.Index` | template/scripts/add_intents.py:831-869 | The index keeps the first intent of each id and who covers which element, once for each time. |
| `IntentSets.CheckOverlaps` | template/scripts/add_intents.py:887-895 | An element covered more than once needs a reason from each of its owners. |
| `IntentSets.CheckCoverage` | template/scripts/add_intents.py:917-923 | Every element that needs coverage has it or a recorded disposition. |
| `Handoffs.ApprovedIff` | template/scripts/add_intents.py:495-571 | Over every run of commands and edits (of content, flag, intents and handoffs, but not of the receipt or its digest), a design marked approved validates if and only if its content is that of the last approval given, and then it has no open choice or contradiction. |
| `Handoffs.FreshIff` | template/scripts/add_intents.py:1002-1172 | Over every such run a handoff checks fresh if and only if it is the last one prepared, unedited, design and intents are what they were then, and both still pass in today's repository; so one just prepared does. |
| `Handoffs.FreshIsWorkable` | template/scripts/add_intents.py:1142-1165 | Under a fresh handoff the selected intents are ready and unblocked, dependencies acyclic and no new or changed element forgotten. |
| `Handoffs.RunKeeps` | template/scripts/add_intents.py:534-571 | Over every run the receipt is that of the last approval, and nobody approved their own design. |
| `RootMerge.CrashesConverge` | template/scripts/agent_friction.py:1846-1898 | Whatever crashes came before, and wherever they hit, a run to the end reaches the state of an undisturbed run and a further run does nothing. |
| `RootMerge.ResumePlan` | template/scripts/agent_friction.py:1846-1898 | Stopping after any number of remote writes leaves exactly the remaining writes as the plan of the next run. |
| `RootMerge.HistoryKeepsPromises` | template/scripts/agent_friction.py:1121-1176 | Through any history of merges, crashes and routed events no marker comment is posted twice on an issue, and a fingerprint that had an open root keeps one. |
| `RootMerge.GitHub.MergeRoots` | template/scripts/agent_friction.py:1846-1898 | The command on a mutable tracker, stopped after any number of writes, does exactly the specified run. |
| `RootMerge.GitHub.UpdateTarget` | template/scripts/agent_friction.py:1773-1797 | Missing markers and unlisted duplicates are written to the target, before any duplicate closes. |
| `Checkpoints.AcceptedIff` | template/scripts/agent_friction.py:1580-1632 | Whatever is logged later and whatever tasks events are attributed to then, a recorded checkpoint is accepted exactly if every signal mandatory then was explained in it, every event it disposed of is still a mandatory signal and no recurrence, and sources, head and content are as they must be. |
| `Checkpoints.AcceptedLaterIff` | template/scripts/agent_friction.py:1491-1632 | A recorded checkpoint is accepted later exactly if no mandatory signal of the task was logged since, sources are readable or accepted as gaps, and the content is proven the same or, without a recorded proof, the head is. |
| `Checkpoints.RecordedIsAccepted` | template/scripts/agent_friction.py:1491-1632 | What was just recorded for the current head is accepted at once. |
| `Checkpoints.StoredStillRead` | template/scripts/agent_friction.py:1379-1421 | Dispositions survive their stored form, whatever was logged after. |
| `Checkpoints.ParseDispositions` | template/scripts/agent_friction.py:1379-1401 | The disposition loop accepts what the specification accepts and stops at its first fault. |
| `Checkpoints.KnownGrows` | template/scripts/agent_friction.py:1248-1294 | New events with new ids change nothing of what is known of the old mandatory signals. |
| `RecopySafety.NothingLostIff` | scripts/rollout_project.py:1061-1252 | For every rollout that ends in a recopy: whatever the bootstrap writes, no committed edit of a conflicting path is lost, if and only if every conflicting path that the failed update made project-owned was watched anyway: owned before, or below an owned folder or a conflicting reclaimed one. |
| `RecopySafety.OwnedSurvives` | scripts/rollout_project.py:674-701 | Every project-owned path that was there, and every file below an owned folder, is untouched by a finished rollout, but for AGENTS.md in its canonical form, and the configuration says what it said. |
| `RecopySafety.ConflictPreserved` | scripts/rollout_project.py:1126-1252 | A conflicting path ends as committed, or was the recorded old render up to normalisation and ends as the target render. |
| `RecopySafety.LossPossible` | scripts/rollout_project.py:1126 | When the failed update made an unwatched conflicting path project-owned, a bootstrap that differs in that file alone passes every check and loses the edit. |
| `RecopyRun.EditLost` | scripts/rollout_project.py:1126 | A concrete rollout of a project harness, with the real always-owned paths, that ends in a recopy and loses a committed edit of docs/design.md. |
| `RecopyRun.Checkout.Update` | scripts/rollout_project.py:1061-1252 | The rollout, stepping through one working tree, is the specified one, with each of its refusals. |
| `RecopyRun.Checkout.Settle` | scripts/rollout_project.py:1113-1124 | The checks around reconciling and bootstrapping are the specified ones. |
| `RecopyRun.Checkout.Reconcile` | scripts/rollout_project.py:747-772 | AGENTS.md gets its canonical text, and nothing else changes. |
| `RecopyText.CanonicalKeeps` | scripts/rollout_project.py:704-729 | The canonical text keeps the guidance, up to newlines at its end, and is its own canonical text. |
| `RecopyText.NormalKeepsTelling` | scripts/rollout_project.py:397-412 | Normalising a file changes none of its lines that say something. |
| `RecopyText.ProvenMeans` | scripts/rollout_project.py:559-592 | A file proven equal to its old render has its lines, and outside the one normalised workflow its bytes. |
| `RecopyText.SqueezeKeeps` | scripts/rollout_project.py:403-411 | Dropping repeated blank lines keeps the other lines and is idempotent. |
| `RecopyText.Squeeze` | scripts/rollout_project.py:405-411 | The loop drops exactly the blank lines that follow a blank one. |
| `StreakRecord.RecordRoundTrip` | scripts/rollout_failure_streak.py:20-74 | The body as it is really rendered, empty lines and all, parses back to the streak, whatever single-line text its fields hold. |
| `StreakJson.DumpsDetermines` | scripts/rollout_failure_streak.py:71 | The JSON line, escapes and all, determines the streak. |
| `StreakJson.ReaderExists` | scripts/rollout_failure_streak.py:44-51 | So a reader that undoes the writer exists. |
| `StreakMentions.MentionsIff` | scripts/rollout_failure_streak.py:137-141 | A rendered body is found by the search for a project exactly if it is that project's record or a field of it spells out that project's marker. |
| `FailureStreak.StepTellsIff` | scripts/rollout_failure_streak.py:232-299 | From exact records an event leads to exact records if and only if its lookup meets the issue titled after its project, or meets none and there is none. |
| `FailureStreak.RunTellsIff` | scripts/rollout_failure_streak.py:117-299 | Over every run of failures and successes of any number of projects, each record holds at every point exactly its project's failures since the last success, if and only if every lookup meets the issue titled after the project or there is none. |
| `FailureStreak.CleanRunTells` | scripts/rollout_failure_streak.py:117-299 | So it is, alerts included, in every run of up to a hundred projects in which no failure's text spells out the marker of another of them. |
| `FailureStreak.AlertsFromThreshold` | scripts/rollout_failure_streak.py:77-114 | In a run whose lookups meet the right issues a failure raises the alert exactly from the threshold on. |
| `FailureStreak.QuoteForgets` | scripts/rollout_failure_streak.py:136-143 | When the reason of a failure quotes another project's marker, that project's failure writes over the issue, gets none of its own, and the next failure counts one instead of two. |
| `FailureStreak.QuotingReason` | scripts/rollout_failure_streak.py:341-345 | A concrete pair of failures for which that happens. |
| `SessionHooks.RemoveUndoesInstall` | template/scripts/agent_sessions.py:280-313 | Removing after installing restores the settings, up to events that hold nothing. |
| `SessionHooks.Idempotent` | template/scripts/agent_sessions.py:280-313 | Installing or removing again changes nothing. |
| `SessionHooks.OthersKept` | template/scripts/agent_sessions.py:290-307 | Neither edit drops or reorders an entry without a command of ours, under any event. |
| `SessionHooks.CommandSurvivesIff` | template/scripts/agent_sessions.py:275-296 | An entry survives a removal exactly if none of its commands is ours; one command of ours takes the commands of others in the same entry with it. |
| `SessionHooks.SucceedsIff` | template/scripts/agent_sessions.py:291-302 | An edit succeeds exactly if every event it is for holds a list, and, to install, no different session hooks. |
| `SessionHooks.EditSettings` | template/scripts/agent_sessions.py:280-313 | The loop over the events edits as specified, or refuses and writes nothing. |
| `SessionStates.WaitGoesOnIff` | template/scripts/agent_sessions.py:55-88 | Whatever the run before, a permission wait for a known tool stands after each of any further events, with its time, if and only if each of them is one of a stated set, which holds every other tool's completion. |
| `SessionStates.SinceIsLastChange` | template/scripts/agent_sessions.py:214-229 | Over every run the recorded time is the time of the last change of state. |
| `SessionStates.OtherToolEndsWait` | template/scripts/agent_sessions.py:64-74 | A wait ends though its tool neither ran nor was refused when the agent asks the user and is answered, or when a second tool asks for permission and completes. |
| `SessionStates.SessionFile.Ingest` | template/scripts/agent_sessions.py:202-229 | One event makes of the record what the rules say. |

## Left out

- Path handling of the board: claims are sets of concrete paths; splitting declared scopes, path resolution, home and absolute-path checks, and the soft overlap warnings (which can only stop `start`, as `diagnosticsFail`) are not modelled.
- Git and GitHub plumbing: errors are single outcomes; network retries, re-reading after a write and rate limits are not part of this model.
- File locks and atomic file writes: every command is one atomic step; an error leaves the file as it was.
- Wording of messages and of generated pages: only what is decided is modelled.
- Unicode digits in list markers: `\d` is the ASCII digits.
- Tabs after the start of a line: only leading tabs are expanded, as in the source; columns count characters.
- Heading slugs, link resolution, plain-text rendering and the review and drift record of the Explorer.
- `str.isalnum` in emphasis and bare URLs: a parameter of which nothing is assumed.
- InlineEscapes.EscapedIsText: text with newlines is left out, because a newline ends a text node.
- SchemaLayout.LinkStages: the stages come sorted; the parents that children give to nodes of other kinds are left out.
- SchemaLayout.RoutesInside: routes are their end and control points; drawing order and label text are left out.
- PrintedTables.TableRoundTrip: column titles are printed through the same cell rule, which leaves the fixed titles alone.
- Handoffs.FreshIff: JSON shapes of documents are one flag, `shaped`; evidence and reused constraints, which a handoff copies from the design, are part of the design's `rest`; the receipt of an approval is edited by nobody.
- IntentSets.Check: a malformed JSON value of an intent is not modelled; the `shaped` flag of the document stands for it.
- Checkpoints.AcceptedLaterIff: events keep their tasks here, as they need not in `Checkpoints.AcceptedIff`; the move of a checkpoint over the finalize commit is left out.
- RecopySafety.NothingLostIff: the configuration file itself is covered by `RecopySafety.OwnedSurvives`, which keeps what it says but not its bytes; paths are compared as written; a link counts as a file of its own, never as the file or folder it leads to; rendering the template twice gives the same result.
- RecopyText.NormalKeepsTelling: the test for YAML block scalars is a parameter.
- FailureStreak.RunTellsIff: issues come from the tracker alone; the reconcile command, which closes an issue after reading the project's branch, is left out.
- StreakRecord.RecordRoundTrip: reading JSON is a parameter that undoes the modelled `json.dumps` of a streak; values of other types in a foreign block are left out.
- Freshness.ReadOnlyRefinesFetch: the branch name is taken literally, not as a glob pattern.
- SessionStates.SinceIsLastChange: liveness, silence and git context are left out, and so are Codex notifications, which only ever report the end of a turn.
- SessionHooks.RemoveUndoesInstall: the order of keys in a settings object is not modelled.
- Publication of friction events, candidate resolution, closing by fixes, and secret patterns.
- Runner migration, rollout adoption and version selection outside the guarded update.
