# Verified model of the editor-to-chat bridge

The bridge connects a code editor to a chat that runs in a browser tab. This project
models its parts that are more than plumbing, and proves what they promise over all inputs
and all runs. `dafny verify dfyconfig.toml` checks everything.

- **Files are sent once** (`LineDiff`, `DiffHunks`, `DiffContext`, `DiffText`,
  `ContextLedger`, `LedgerChoices`). The line diff is minimal, its hunks replay and show
  what is near a change, and its printed form can be read back and applied. The ledger
  that avoids resending files is checked against the chat itself: a chat that stores the
  files it is given and applies the diffs it is told about. What the ledger believes the
  chat has is what the chat has.
- **Tool calls travel in prose** (`Json`, `JsonGrammar`, `JsonLines`, `JsonPrefix`,
  `ChatBlocks`, `ChatPattern`, `ChatVerdicts`, `ChatRoundTrip`, `ChatSurvivors`,
  `ChatProse`, `Quiescence`, `QuiescencePattern`). Blocks are printed as fenced JSON,
  found again by a pattern in whatever a chat writes, and a reply that is still streaming
  must not be taken for finished in the middle of one. Everything rests on the shape of
  the lines of printed JSON.
- **The service worker** (`Worker`, `WorkerLanes`, `WorkerOthers`, `WorkerTurns`,
  `WorkerReplies`, `WorkerAnswers`, `WorkerCeilings`, `WorkerStrays`, `WorkerBatches`,
  `WorkerMessages`, `SurfaceOpen`). A state machine over atomic steps: a request arrives,
  a tab becomes free, a message has been typed, a reply has been observed, a tool result
  arrives, a batch deadline or an operation ceiling fires, a progress frame arrives.
  Timers may fire at any time, so nothing depends on their lengths.
- **The relay hub** (`Hub`, `HubRuns`, `HubProtocol`, `HubDeliveries`). A router over
  connections, requests in flight, HTTP callers, tool callers and two views that every
  adapter keeps a copy of.
- **Two small languages** (`RegExpPattern`, `Glob`, `CommandScan`, `CommandReading`).
  Globs are compiled to regular expressions, whose meaning is that of section 22.2.2 of
  ECMA-262; command lines are split into arguments.
- **The tree and the conversation** (`ProjectTree`, `TreeContents`, `Coach`, `CoachRuns`).
  A capped breadth-first listing, and the editor's half of request and response
  correlation.

The source's loops and its objects with changing fields are methods and classes, each
proved equal to a specification function; the theorems are lemmas about those functions,
by induction over inputs or over runs (`Run` takes any list of events). `ReplyStreams`,
`Sequences`, `Text` and `Options` hold what several modules share.

Six points where the code decides against what its comments suggest, and the model follows
the code. Each has its exact condition and an input that shows it.

- A block whose strings spell an opening fence makes a finished reply look unfinished
  (`Quiescence.ClosedIsOutside`, `Quiescence.QuotedTagLooksUnfinished`).
- A block whose strings spell three backticks, blanks and U+2028 or U+2029 is cut off
  there and lost: the pattern ends lines at those characters and JSON does not escape
  them. And reading a result block drops its error (`ChatSurvivors.BlocksRoundTrip`,
  `ChatSurvivors.QuotedFenceBreaks`).
- `**` does not cross a line terminator in a path (`Glob.AgreesExactlyOnOneLine`).
- Without context the headers of a diff are not those of POSIX
  (`DiffText.PosixExactlyWithContext`, `DiffText.AddedLineWithoutContext`).
- An operation that its ceiling has given up is not stopped. What is still under way in
  its tab may answer a second time (`WorkerCeilings.OrderlyExactlyUntilGivenUp`) ...
- ... and may type into another request's conversation
  (`WorkerStrays.ApartExactlyUntilGivenUp`). Ceilings of other requests, or on other tabs,
  cost nothing.

## Model

| member | source | states |
|---|---|---|
| `LineDiff.FillTable` | packages/extension/src/context/diff.ts:38-58 | every cell of the table is the length of a longest common subsequence of the two suffixes that start there |
| `LineDiff.FillRow` | packages/extension/src/context/diff.ts:47-54 | one row of the table, right to left, from the row below it |
| `LineDiff.LcsIsLongest` | packages/extension/src/context/diff.ts:47-58 | the number the recurrence computes is exactly the length of a longest common subsequence: some common subsequence has it and none is longer |
| `LineDiff.ScriptReplays` | packages/extension/src/context/diff.ts:60-85 | the script without its additions is the old text, without its removals the new text |
| `LineDiff.ScriptIsMinimal` | packages/extension/src/context/diff.ts:60-85 | the script has n + m - 2*LCS changes, and no script turning the old lines into the new ones has fewer |
| `LineDiff.Operations` | packages/extension/src/context/diff.ts:38-85 | the loops over the table produce that script: valid and minimal |
| `DiffHunks.GroupChanges` | packages/extension/src/context/diff.ts:107-122 | the loop over the changed indexes builds exactly the specified groups |
| `DiffHunks.GroupsAreSeparated` | packages/extension/src/context/diff.ts:114-122 | groups run forward and neighbouring ones are more than twice the context apart |
| `DiffHunks.GroupEdges` | packages/extension/src/context/diff.ts:114-122 | every group begins and ends on a changed line |
| `DiffHunks.GroupsCover` | packages/extension/src/context/diff.ts:114-122 | every changed line lies in a group |
| `DiffHunks.GroupsSplit` | packages/extension/src/context/diff.ts:114-122 | two neighbouring changes further apart than twice the context begin different groups |
| `DiffHunks.CountBefore` | packages/extension/src/context/diff.ts:130-138 | the replayed counters are the one-based line numbers of the hunk on either side |
| `DiffHunks.PrintRange` | packages/extension/src/context/diff.ts:140-156 | a range of the script is printed with its marks, and the counters count the lines of either side |
| `DiffHunks.CutHunk` | packages/extension/src/context/diff.ts:127-165 | a hunk shows its range of the script, with starts and counts computed from the lines before and inside it |
| `DiffHunks.CutHunks` | packages/extension/src/context/diff.ts:124-166 | one hunk for each group, in order |
| `DiffHunks.DiffLines` | packages/extension/src/context/diff.ts:90-169 | the whole comparison equals its specification, including the refusal of long inputs and the empty result |
| `DiffHunks.EachChangeShownOnce` | packages/extension/src/context/diff.ts:107-165 | each changed line is shown by one hunk, and no line by two: hunks are disjoint and cover every change |
| `DiffHunks.HunksReplayScript` | packages/extension/src/context/diff.ts:124-169 | applying the hunks to the old lines gives the new lines, for every script and every context width |
| `DiffHunks.EmptyExactlyWhenEqual` | packages/extension/src/context/diff.ts:102-105 | a diff is empty exactly when the two texts are equal |
| `DiffContext.ScriptRemovesFirst` | packages/extension/src/context/diff.ts:60-85 | between two kept lines of the script the removed lines stand before the added ones |
| `DiffContext.ScriptShowsNear` | packages/extension/src/context/diff.ts:107-166 | for any script and width: the hunks are pieces of it, in order and apart; a line is shown if and only if a change is within the width of it; two neighbouring changes share a hunk if and only if they are at most twice the width apart |
| `DiffContext.DiffShowsNear` | packages/extension/src/context/diff.ts:90-169 | the same for any two texts, with the rest of what their diff promises: refused exactly above 4000 lines, otherwise cut from a minimal script, removals first, whose changes are counted |
| `DiffText.ReadDiffRender` | packages/extension/src/context/diff.ts:172-181 | a reader driven only by the counts in the @@ headers gets back the path and the hunks, if and only if the path fits on one line |
| `DiffText.DiffRoundTrip` | packages/extension/src/context/diff.ts:90-181 | print the diff of two texts, read the text back, apply it to the first: the second, byte for byte |
| `DiffText.HeadersArePosix` | packages/extension/src/context/diff.ts:130-181 | with any context at all every header of every diff is the one POSIX.1-2017 prescribes, given how many lines of each file the script has before the hunk |
| `DiffText.PosixExactlyWithContext` | packages/extension/src/context/diff.ts:107-138 | for any two texts and any width, all headers are POSIX ones if and only if there is context or the texts are equal; without context none is |
| `DiffText.AddedLineWithoutContext` | packages/extension/src/context/diff.ts:130-138 | two texts that show it: a line added after the first, without context, is announced as -2,0 where POSIX has -1,0 |
| `ContextLedger.LedgerObject.Start` | packages/extension/src/context/ledger.ts:101-107 | a different session forgets every file, the same session forgets none |
| `ContextLedger.LedgerObject.PlanOneFile` | packages/extension/src/context/ledger.ts:119-193 | one file: which of the five branches is taken, what is sent and what is remembered |
| `ContextLedger.LedgerObject.TryEdit` | packages/extension/src/context/ledger.ts:160-166 | an edit is worth sending when its diff exists, is not empty and is short enough for the content |
| `ContextLedger.LedgerObject.RememberFile` | packages/extension/src/context/ledger.ts:198-206 | what is remembered of a file that has just been described or sent |
| `ContextLedger.LedgerObject.Plan` | packages/extension/src/context/ledger.ts:109-196 | a plan handles its items in order, each seeing what the earlier ones left |
| `ContextLedger.PlanFileIsTrue` | packages/extension/src/context/ledger.ts:119-193 | one note: "unchanged, use that copy" names a copy equal to the content, a diff note applied to the copy held gives the content, and afterwards belief and fact still agree |
| `ContextLedger.PlanIsTrue` | packages/extension/src/context/ledger.ts:109-196 | the same for a whole plan, note by note as each arrives |
| `ContextLedger.LedgerAgreesWithChat` | packages/extension/src/context/ledger.ts:86-211 | over any sequence of session starts and plans, every path marked full is held by the chat byte for byte |
| `ContextLedger.EveryNoteIsTrue` | packages/extension/src/context/ledger.ts:109-196 | after any such sequence, whatever is planned next is true of the chat it goes to |
| `LedgerChoices.EachNoteIsChosen` | packages/extension/src/context/ledger.ts:119-193 | after any run, each file of a plan is sent in the one form that fits what the chat has: a pointer to an equal copy, an edit of its copy when that is short enough, a reminder of an equal description, and otherwise whole up to the threshold and described by its first forty lines above it |
| `LedgerChoices.ShortFilesAreHeld` | packages/extension/src/context/ledger.ts:119-196 | after any run and a plan, the chat holds every file of the plan that is no longer than the threshold, byte for byte |
| `LedgerChoices.PreviewsAreLong` | packages/extension/src/context/ledger.ts:180-190 | after any run a path on record as described was described to the chat and is longer than the threshold |
| `ContextLedger.CoverageIsTrue` | packages/extension/src/context/ledger.ts:119-211 | the coverage reported for a path after any such sequence: full means the chat holds a copy and is pointed to it when nothing has changed, preview that it was told about one, and none that nothing is claimed to be known |
| `ContextLedger.ChatEndsInformed` | packages/extension/src/context/ledger.ts:109-196 | after a plan the chat holds each file or has been told about that exact version |
| `ContextLedger.NothingCrossesSessions` | packages/extension/src/context/ledger.ts:101-107 | a session that begins claims nothing about what an earlier one was sent |
| `LedgerChoices.SameSessionIsKept` | packages/extension/src/context/ledger.ts:101-107 | starting the session that is already going on forgets nothing |
| `Glob.Translate` | packages/extension/src/workspace/search.ts:80-109 | one turn of the compiler loop: the text emitted, the next index and the brace depth |
| `Glob.GlobToRegExp` | packages/extension/src/workspace/search.ts:73-112 | the loop emits the specified pattern |
| `Glob.CompileIsCorrect` | packages/extension/src/workspace/search.ts:63-112 | for every glob: the pattern is well formed exactly when the braces balance, and then it tests true exactly for the paths the glob means by its own recursive semantics |
| `Glob.CompileMatchesAsRead` | packages/extension/src/workspace/search.ts:73-112 | on paths without line terminators `**` really is any text |
| `Glob.StarsStopAtLineEnds` | packages/extension/src/workspace/search.ts:85-95 | with a line terminator anywhere in the path it is not: the glob `**` reads as matching and its pattern rejects |
| `Glob.AgreesExactlyOnOneLine` | packages/extension/src/workspace/search.ts:63-112 | for every path: all balanced globs are decided as they read if and only if the path has no line terminator |
| `Glob.MatchesGlobAsRead` | packages/extension/src/workspace/search.ts:119-129 | a path matches when the glob means it, or means its last part and has no separator; an open brace is an error |
| `Glob.BasenameIsLastPart` | packages/extension/src/workspace/search.ts:125-126 | the basename is what follows the last separator |
| `Glob.MatchesAnyGlobIsExists` | packages/extension/src/workspace/search.ts:132-137 | no globs match everything, otherwise one of them has to match |
| `Json.ParsePrint` | packages/protocol/src/chat.ts:171-173 | the reader is a left inverse of the two-space printer, for every JSON value |
| `JsonLines.PrintedJsonIsSafe` | packages/protocol/src/chat.ts:171-173 | no line of printed JSON begins with a fence or ends with one and blanks, whatever its strings hold |
| `JsonPrefix.CutObjectIsNotJson` | packages/protocol/src/chat.ts:104-109 | a printed object cut off anywhere before its end is refused by the reader |
| `JsonGrammar.ParseReadsGrammar` | packages/protocol/src/chat.ts:107-113 | the reader accepts exactly the texts of the grammar of RFC 8259, sections 2 to 7, each as the value it spells |
| `ChatPattern.MatchAtMeans` | packages/protocol/src/chat.ts:77-77 | at the start of a line the pattern matches exactly the block that is spelled there: an opening line, the shortest body that a fence of the same length closes at the end of a line, and no other |
| `ChatPattern.MatchesInOrder` | packages/protocol/src/chat.ts:77-96 | the matches of any text are the first block that starts a line, and then those of what comes after it |
| `ChatVerdicts.EveryMatchIsJudged` | packages/protocol/src/chat.ts:90-173 | for every message: each match is read as the block it spells, when it is one of the first eight, no longer than 65536 characters, and an object whose last values are those the block is written with; otherwise it is refused under its own number for a reason that holds; and whatever is within the limits is taken out of the prose |
| `ChatVerdicts.PropertyIsLast` | packages/protocol/src/chat.ts:130-170 | of several fields with one key the last one counts |
| `ChatBlocks.ExtractChatBlocks` | packages/protocol/src/chat.ts:90-128 | the loop over the matches equals its specification: limits, problems, accepted blocks and what becomes of the prose |
| `ChatBlocks.TakeMatch` | packages/protocol/src/chat.ts:97-124 | one match: too many, too large, unreadable, invalid or accepted |
| `ChatRoundTrip.ValidateRendered` | packages/protocol/src/chat.ts:130-173 | a rendered block is valid and is read as itself, except that a result loses its error |
| `ChatRoundTrip.MatchAllMessage` | packages/protocol/src/chat.ts:77-96 | the pattern finds the blocks that were rendered, in order, and nothing else, as long as none spells three backticks, blanks and U+2028 or U+2029 |
| `ChatRoundTrip.ExtractMessage` | packages/protocol/src/chat.ts:77-173 | render at most eight such blocks, join them with fence-free prose, extract: the same blocks in order, as they are read, no problems, and the tidied prose |
| `ChatSurvivors.IntactBlocksComeBack` | packages/protocol/src/chat.ts:77-173 | for any blocks within the limits: exactly those come back, in order, that do not spell three backticks, blanks and U+2028 or U+2029 in their text; the others are cut off there, refused, and disturb nothing around them |
| `ChatSurvivors.BlocksRoundTrip` | packages/protocol/src/chat.ts:77-173 | the very same blocks come back if and only if none spells that and no result among them carries an error |
| `ChatSurvivors.QuotedFenceBreaks` | packages/protocol/src/chat.ts:77-96 | calls that show the first case: an argument of three backticks and U+2028, under any id and tool |
| `ChatProse.OnlyTheProseIsLeft` | packages/protocol/src/chat.ts:109-128 | what is left is exactly the paragraphs of prose, one blank line apart, however many blocks stood around them |
| `ChatProse.TidyKeepsInk` | packages/protocol/src/chat.ts:127-127 | tidying any prose at all leaves no white space at its ends and no three newlines in a row, and keeps every other character in its place |
| `Quiescence.EndsInsideBlock` | packages/browser-adapter/src/surfaces/quiescence.ts:101-120 | the counting loop terminates and equals its specification |
| `Quiescence.MidBlockIsInside` | packages/browser-adapter/src/surfaces/quiescence.ts:82-120 | every prefix of a reply that ends after an opener and before its closer, however many blocks are complete before it, ends inside a block |
| `Quiescence.NoMidBlockEnding` | packages/browser-adapter/src/surfaces/quiescence.ts:71-166 | so nothing but the hard deadline can end the wait there, and it is given as the reason |
| `Quiescence.ClosedIsOutside` | packages/browser-adapter/src/surfaces/quiescence.ts:86-120 | with every block closed the text counts as inside a block exactly when some block spells an opener in its own strings |
| `Quiescence.JustClosedIsOutside` | packages/browser-adapter/src/surfaces/quiescence.ts:86-120 | the same at the moment the last fence closes |
| `Quiescence.ClosedReplyIsAccepted` | packages/browser-adapter/src/surfaces/quiescence.ts:130-166 | a reply with complete blocks is accepted, if they spell no opener, after 0.6 quiet seconds, after 2.2 when the page has stopped generating, or at the two-minute deadline; and if one does, at the deadline only |
| `Quiescence.PlainReplyIsAccepted` | packages/browser-adapter/src/surfaces/quiescence.ts:130-166 | a reply without backticks is accepted exactly after 2.2 quiet seconds, once the page has stopped generating and there is something in it, or at the deadline |
| `Quiescence.QuotedTagLooksUnfinished` | packages/browser-adapter/src/surfaces/quiescence.ts:86-166 | blocks that show the second case: a call whose id starts with an opener, complete and legal, still ends inside a block |
| `QuiescencePattern.TagAtMeans` | packages/browser-adapter/src/surfaces/quiescence.ts:91-91 | an opener is read exactly as it is spelled, with any number of backticks from three on |
| `QuiescencePattern.ClosedAtMeans` | packages/browser-adapter/src/surfaces/quiescence.ts:82-84 | a complete block is recognised exactly as it is spelled: its opening line, and the first fence of its length on a later line |
| `QuiescencePattern.FirstComplete` | packages/browser-adapter/src/surfaces/quiescence.ts:101-120 | each turn of the count finds the first complete block there is, wherever it begins |
| `CommandScan.ScanCommand` | packages/extension/src/shell/CommandRunner.ts:78-134 | the index loop equals the specified scan |
| `CommandScan.ShellSyntaxIsFirstOutside` | packages/extension/src/shell/CommandRunner.ts:65-134 | a scan succeeds exactly when every quote closes, and then reports the first metacharacter outside quotes, or nothing exactly when there is none |
| `CommandReading.ScanReadsWords` | packages/extension/src/shell/CommandRunner.ts:78-134 | for every command: it scans to these words if and only if it can be taken apart into blanks, characters and quoted stretches between which those are the words |
| `CommandReading.SyntaxReported` | packages/extension/src/shell/CommandRunner.ts:65-134 | a scan reports a piece of shell syntax exactly when it is the first of the ten spellings to stand outside quotes |
| `CommandReading.OpenQuoteReported` | packages/extension/src/shell/CommandRunner.ts:126-128 | the quote that a failing scan names opens outside quotes, and nothing after it is outside again |
| `CommandScan.LexingUndoesQuoting` | packages/extension/src/shell/CommandRunner.ts:78-134 | any argument list, quoted with any legal mixture and separated by blanks, scans back to exactly that list and no shell syntax |
| `CommandScan.AnyArgumentsCanBeWritten` | packages/extension/src/shell/CommandRunner.ts:78-134 | every list of arguments, empty ones too, has such a line: in double quotes it scans back to itself |
| `ProjectTree.SortedKeepsNodes` | packages/extension/src/workspace/NodeWorkspaceAdapter.ts:275-280 | sorting a directory loses nothing |
| `ProjectTree.SortedDirectoriesFirst` | packages/extension/src/workspace/NodeWorkspaceAdapter.ts:275-280 | and puts directories first |
| `ProjectTree.SortedIsOrdered` | packages/extension/src/workspace/NodeWorkspaceAdapter.ts:275-280 | no node precedes one that stands before it, whatever order of names the locale has |
| `ProjectTree.FoundInOrder` | packages/extension/src/workspace/NodeWorkspaceAdapter.ts:275-297 | what one directory contributes to the listing is in that order too |
| `ProjectTree.ListDirectory` | packages/extension/src/workspace/NodeWorkspaceAdapter.ts:282-309 | one directory: what is listed is a prefix of what could be, cut at the cap, and listed and omitted add up |
| `ProjectTree.WalkIsLevelOrder` | packages/extension/src/workspace/NodeWorkspaceAdapter.ts:252-313 | the queue-driven walk is the breadth-first listing, defined level by level |
| `ProjectTree.ProjectTree` | packages/extension/src/workspace/NodeWorkspaceAdapter.ts:252-313 | for every tree and cap: exactly the first entries of the uncapped listing, truncated exactly when there are more, every directory entry seen either listed or counted, and termination |
| `ProjectTree.DepthNeverDecreases` | packages/extension/src/workspace/NodeWorkspaceAdapter.ts:252-313 | entries get deeper, never shallower |
| `TreeContents.TreeHoldsExactly` | packages/extension/src/workspace/NodeWorkspaceAdapter.ts:252-313 | the full listing holds exactly what is in the root or in a directory it holds, is not blocked, and is a file or a directory that is not skipped, under its own path |
| `TreeContents.EntriesShowItems` | packages/extension/src/workspace/NodeWorkspaceAdapter.ts:297-302 | each entry shows its item as what it is, a directory or a file |
| `Hub.RelayHub.Broadcast` | packages/relay/src/hub.ts:753-765 | the true snapshot goes to every authenticated connection that is open |
| `Hub.RelayHub.SendAll` | packages/relay/src/hub.ts:582-593 | the same for a frame that the editor is left out of |
| `Hub.RelayHub.AcceptSocket` | packages/relay/src/hub.ts:218-241 | a socket is listed under a new id, unauthenticated |
| `Hub.RelayHub.Send` | packages/relay/src/hub.ts:629-634 | a frame is written only to a socket that is open |
| `Hub.RelayHub.DropConnection` | packages/relay/src/hub.ts:655-667 | a connection is forgotten once, and a known kind going away is announced |
| `Hub.RelayHub.RejectHello` | packages/relay/src/hub.ts:636-653 | a refused hello is told so and dropped |
| `Hub.RelayHub.AcceptHello` | packages/relay/src/hub.ts:306-347 | an accepted hello takes its kind over, is welcomed, is given the stored tools and is announced |
| `Hub.RelayHub.OnRequest` | packages/relay/src/hub.ts:363-387 | only the editor may ask; without a chat the missing hop is named |
| `Hub.RelayHub.OnResponse` | packages/relay/src/hub.ts:389-440 | a response settles an HTTP caller, is forwarded to the editor or is dropped |
| `Hub.RelayHub.OnToolCall` | packages/relay/src/hub.ts:442-465 | the caller is remembered and the editor asked |
| `Hub.RelayHub.OnToolResult` | packages/relay/src/hub.ts:467-479 | a result goes to the remembered caller, or to the answering connection |
| `Hub.RelayHub.OnTools` | packages/relay/src/hub.ts:582-593 | the editor's list is stored and replayed to everyone else |
| `Hub.RelayHub.OnError` | packages/relay/src/hub.ts:595-606 | an error settles an HTTP caller or goes to the editor |
| `Hub.RelayHub.AskChat` | packages/relay/src/hub.ts:129-178 | a question from an HTTP caller is put to the chat, or refused |
| `HubRuns.RunIsConsistent` | packages/relay/src/hub.ts:306-347 | after any run every authenticated adapter that can be written to was last sent the true registry and, unless it is the editor, the stored tool list, late joiners and replacements included |
| `HubRuns.ExclusiveKinds` | packages/relay/src/hub.ts:303-317 | after any run there is at most one editor, one provider and one browser |
| `HubDeliveries.WhoIsListed` | packages/relay/src/hub.ts:218-347 | exactly who is listed after any event: everyone it does not end, as it leaves them, and a socket that has just connected |
| `HubDeliveries.RegistryIsTrue` | packages/relay/src/hub.ts:753-765 | the registry last sent to anyone says which kinds are listed |
| `HubDeliveries.HelloTells` | packages/relay/src/hub.ts:303-347 | a newcomer is welcomed, told the tools unless it is the editor, and everyone is told the registry: each once, and nobody anything else |
| `HubDeliveries.LossTells` | packages/relay/src/hub.ts:655-667 | when an adapter goes every other one is told the registry once; the loss of a socket that never said hello is not announced |
| `HubDeliveries.RefusalTells` | packages/relay/src/hub.ts:636-653 | a refused hello is answered with the refusal, and nobody else hears of it |
| `HubDeliveries.ToolsReachEveryone` | packages/relay/src/hub.ts:582-593 | a list the editor publishes is stored and sent once to every other adapter |
| `HubProtocol.EachRequestIsAnsweredOnce` | packages/relay/src/hub.ts:363-440 | over any run a request put in flight once is answered by some partials, then at most one terminal response and nothing more; an HTTP caller settles at most once and none of its responses reaches the editor |
| `HubDeliveries.RequestReachesChat` | packages/relay/src/hub.ts:363-387 | after any run the editor's request is written, unchanged, to the listed browser, or to the provider when there is no browser, and to nobody else |
| `HubDeliveries.RequestNeedsChat` | packages/relay/src/hub.ts:363-377 | without either the editor alone is told so, and nothing is put in flight |
| `HubDeliveries.AskReachesChat` | packages/relay/src/hub.ts:129-178 | an HTTP caller's question goes the same way, and the caller waits |
| `HubDeliveries.AskNeedsChat` | packages/relay/src/hub.ts:129-133 | without a chat the caller is refused at once |
| `HubDeliveries.AskMayFail` | packages/relay/src/hub.ts:138-150 | a caller still waiting is settled once by an error or by its timeout |
| `HubDeliveries.CallReachesEditor` | packages/relay/src/hub.ts:442-465 | a tool call is written, unchanged, to the listed editor, whoever makes it |
| `HubDeliveries.CallNeedsEditor` | packages/relay/src/hub.ts:442-454 | without an editor the caller alone is answered, and is not remembered |
| `HubDeliveries.StrayResultGoesToChat` | packages/relay/src/hub.ts:467-479 | a result whose caller is not on record goes to the chat |
| `HubDeliveries.ReportReachesEditor` | packages/relay/src/hub.ts:595-625 | an adapter's status or error is written to the editor, unless the error answers a waiting HTTP caller |
| `HubDeliveries.OthersAreIgnored` | packages/relay/src/hub.ts:363-367 | nobody but the editor may ask or publish tools, and nothing counts before a hello |
| `HubProtocol.EditorHearsItsReply` | packages/relay/src/hub.ts:411-439 | until its terminal response, everything that answers the editor's request is written to whichever editor is connected then |
| `HubProtocol.AskHearsItsAnswer` | packages/relay/src/hub.ts:404-419 | a waiting HTTP caller ignores partials, is settled by the first terminal response with its text, and nobody else hears of it |
| `HubProtocol.LateResponsesAreDropped` | packages/relay/src/hub.ts:421-430 | a response to a request never begun, already answered or already settled changes nothing |
| `HubProtocol.ResultGoesHome` | packages/relay/src/hub.ts:442-479 | across any joins, replacements and drops, the first result after a call is written to the connection that made it, or to nobody when that is gone |
| `Worker.ServiceWorker.HandleRequest` | packages/browser-adapter/src/background.ts:590-634 | a request without a chat is refused; any other joins its tab's queue under a fresh observation |
| `Worker.ServiceWorker.RunNext` | packages/browser-adapter/src/background.ts:106-112 | the work at the front of a queue runs when nothing before it is left, and types the question |
| `Worker.ServiceWorker.OnMessageDelivered` | packages/browser-adapter/src/background.ts:667-684 | a message that could not be typed ends the turn with an error |
| `Worker.ServiceWorker.OnReplyObserved` | packages/browser-adapter/src/background.ts:686-702 | a reply is delivered, or its absence reported, and the turn ends or waits for its batch |
| `Worker.ServiceWorker.DeliverTo` | packages/browser-adapter/src/background.ts:752-809 | a reply opens a batch of at most six calls or is the answer |
| `Worker.ServiceWorker.SendCalls` | packages/browser-adapter/src/background.ts:767-790 | the loop registers and sends each accepted call under a fresh id |
| `Worker.ServiceWorker.CollectResult` | packages/browser-adapter/src/background.ts:821-837 | a result is recorded with the operation that expects it, and the last one finishes the batch |
| `Worker.ServiceWorker.FinishBatchOf` | packages/browser-adapter/src/background.ts:847-902 | a finished batch is typed as one message under a fresh observation |
| `Worker.ServiceWorker.TurnEnded` | packages/browser-adapter/src/background.ts:656-664 | the turn settles unless a batch is outstanding |
| `Worker.ServiceWorker.SettleOperation` | packages/browser-adapter/src/background.ts:655-663 | settling lets the operation go, unless its first message is still under way |
| `Worker.ServiceWorker.Finally` | packages/browser-adapter/src/background.ts:659-663 | the record is deleted and the tab moves on to the next piece of work |
| `Worker.ServiceWorker.SendToChat` | packages/browser-adapter/src/background.ts:667-668 | a message is typed into the operation's own tab |
| `Worker.ServiceWorker.OnBatchDeadline` | packages/browser-adapter/src/background.ts:773-773 | a deadline finishes the batch that is open, if one is |
| `Worker.ServiceWorker.OnOperationCeiling` | packages/browser-adapter/src/background.ts:638-642 | the ceiling reports an error and gives the operation up |
| `Worker.ServiceWorker.OnReplyProgress` | packages/browser-adapter/src/background.ts:1476-1495 | progress is forwarded only from the right tab and under the current observation |
| `WorkerLanes.OneHolderPerTab` | packages/browser-adapter/src/background.ts:106-117 | in every reachable state, ceilings included, at most one registered operation targets a tab |
| `WorkerLanes.StartsInOrder` | packages/browser-adapter/src/background.ts:106-112 | in every reachable state the questions typed into a tab, followed by those waiting, are the requests for that tab in the order they came |
| `WorkerAnswers.NextInLineIsTyped` | packages/browser-adapter/src/background.ts:106-112 | a free tab with somebody waiting types the question of the earliest request not yet typed, in its own words; otherwise nothing happens |
| `WorkerAnswers.QuestionsAreTheirs` | packages/browser-adapter/src/background.ts:590-640 | every question that is typed is one that came for that tab, under its request's name and in its own words |
| `WorkerTurns.NoInterleaving` | packages/browser-adapter/src/background.ts:636-664 | as long as no ceiling has given up an operation on the tab, the messages typed into it, follow-ups included, form one uninterrupted run per request, in arrival order, the last run being that of the registered operation |
| `WorkerStrays.CeilingMayInterleave` | packages/browser-adapter/src/background.ts:636-664 | whichever ceiling fires, there is a continuation without ceilings in which the operation it gave up types into the conversation of a later request |
| `WorkerStrays.ApartExactlyUntilGivenUp` | packages/browser-adapter/src/background.ts:636-664 | so the next event costs a tab its guarantee for some continuation if and only if it is a ceiling that gives up an operation on that tab; ceilings on other tabs never do |
| `WorkerTurns.RunSteady` | packages/browser-adapter/src/background.ts:636-664 | as long as no ceiling has given it up, a registered operation either has a message under way or waits for a batch, never both, and an operation that has left has nothing outstanding, whatever happens to others |
| `WorkerReplies.EachRequestEndsOnce` | packages/browser-adapter/src/background.ts:590-702 | as long as no ceiling has given it up, a request is answered by partials and then, exactly when it was refused or its turn is over, one terminal reply and nothing more |
| `WorkerAnswers.MessageIsTheAnswer` | packages/browser-adapter/src/background.ts:752-809 | after any run, a reply without calls adds exactly one frame, the final answer: the paragraphs of the reply around its blocks, or the reply as it stands when there are none |
| `WorkerAnswers.PlainReplyIsTheAnswer` | packages/browser-adapter/src/background.ts:798-809 | a reply without fences is answered with its own text: trimmed, no three newlines in a row, every other character in its place |
| `WorkerCeilings.CeilingMayAnswerTwice` | packages/browser-adapter/src/background.ts:638-642 | whichever ceiling fires, there is a continuation in which its request gets a second terminal reply |
| `WorkerCeilings.OrderlyExactlyUntilGivenUp` | packages/browser-adapter/src/background.ts:590-702 | the bound is exact: a request keeps at most one terminal reply in every continuation without further ceilings of its own if and only if no ceiling has given it up |
| `WorkerAnswers.PartialsExactlyWhenCurrent` | packages/browser-adapter/src/background.ts:1476-1495 | a step sends a partial if and only if it is a progress frame with something in it, from the tab of a registered request and under its current observation |
| `WorkerReplies.StaleProgressIsIgnored` | packages/browser-adapter/src/background.ts:889-894 | progress under a superseded observation is ignored for good |
| `WorkerBatches.EachCallIsSentOnce` | packages/browser-adapter/src/background.ts:767-790 | every accepted call is sent once, in the reply's order, under the id its batch waits for |
| `WorkerBatches.CallIdsAreNew` | packages/browser-adapter/src/background.ts:767-790 | those ids are all different and nobody was waiting for any of them |
| `WorkerBatches.EachBatchIsAnsweredOnce` | packages/browser-adapter/src/background.ts:767-902 | nothing is typed while a result is missing; at the deadline, or as soon as the ids received equal the ids expected and no sooner, one message goes to the asker's own tab with one result for each of the first six calls, in order, under the chat's ids, recorded result or timeout error; afterwards nobody expects those calls |
| `WorkerBatches.LateResultsAreDropped` | packages/browser-adapter/src/background.ts:821-829 | a call id that no batch expects any more is dead for good: a result for it changes nothing, whatever happens in between |
| `WorkerMessages.FollowUpReadsBack` | packages/browser-adapter/src/background.ts:856-896 | the text of a follow-up is read by the chat as exactly the intact result blocks among its own, with no problems when all are |
| `WorkerMessages.ChatReadsItsAnswers` | packages/browser-adapter/src/background.ts:767-896 | from the reply that asks to the text that answers: when a batch ends, what is typed into the asker's tab is read by the chat as one result for each of its first six calls, in its order and under its ids, as long as no result breaks its own fence |
| `SurfaceOpen.SurfaceOpener.Acknowledge` | packages/browser-adapter/src/background.ts:1025-1038 | a delivery is answered from the cache, joins the opening under way or starts one |
| `SurfaceOpen.SurfaceOpener.JobDone` | packages/browser-adapter/src/background.ts:1041-1063 | an opening that ends answers everyone who awaited it and is cached, the oldest entries leaving |
| `SurfaceOpen.OpensOncePerRetention` | packages/browser-adapter/src/background.ts:1025-1053 | over any run an id is opened once for each eviction and once more while it is retained, and the cache holds at most 64 ids |
| `SurfaceOpen.EachDeliveryIsAnsweredOnce` | packages/browser-adapter/src/background.ts:1038-1063 | every delivery is acknowledged exactly once or is waiting for its own id; when nothing is being opened all have their one answer |
| `SurfaceOpen.RepliesAgree` | packages/browser-adapter/src/background.ts:1030-1063 | between two evictions of an id all its deliveries are told the same status and detail |
| `SurfaceOpen.CacheHoldsNewest` | packages/browser-adapter/src/background.ts:1041-1063 | the cache holds exactly the outcomes of the last 64 openings that ended, in order |
| `SurfaceOpen.AnswersAreOutcomes` | packages/browser-adapter/src/background.ts:1030-1063 | every acknowledgement carries the outcome of an opening of its own id that has ended |
| `SurfaceOpen.DeliveriesAreNoted` | packages/browser-adapter/src/background.ts:1025-1031 | every delivery goes by the id it names, and by one of its own when it names none |
| `Coach.SessionStore.ReplaceStreamingMessage` | packages/extension/src/session/SessionStore.ts:90-112 | the first reply to the request is rewritten in place, or one is added |
| `Coach.CoachController.SendMessage` | packages/extension/src/coach/CoachController.ts:210-268 | a message is refused while a request is in flight, otherwise noted and put in flight |
| `Coach.CoachController.HandleResponse` | packages/extension/src/coach/CoachController.ts:415-497 | a response that does not correlate is dropped; a partial is shown, a final one replaces it and ends the request |
| `Coach.CoachController.HandleError` | packages/extension/src/coach/CoachController.ts:318-325 | a provider error ends the request it names, or whatever is in flight when it names none |
| `Coach.CoachController.OnTimeout` | packages/extension/src/coach/CoachController.ts:499-512 | a timeout ends only the request it was set for |
| `Coach.CoachController.CancelRequest` | packages/extension/src/coach/CoachController.ts:142-155 | cancelling forgets the request first |
| `Coach.CoachController.AfterCancel` | packages/extension/src/coach/CoachController.ts:165-168 | the rest of a cancel, which may come later, clears whatever is in flight |
| `Coach.CoachController.OnConnectFailed` | packages/extension/src/coach/CoachController.ts:117-124 | a transport that does not connect is reported |
| `Coach.CoachController.OnSendFailed` | packages/extension/src/coach/CoachController.ts:274-281 | a send that fails, possibly late, ends whatever is in flight |
| `Coach.CoachController.OnToolCall` | packages/extension/src/coach/CoachController.ts:335-354 | a tool call is shown only while a request is in flight |
| `Coach.CoachController.OnResultNotDelivered` | packages/extension/src/coach/CoachController.ts:406-412 | a result that cannot be returned ends whatever is in flight |
| `Coach.CoachController.ResetSession` | packages/extension/src/coach/CoachController.ts:200-208 | a new session forgets the request and every message |
| `Coach.ShowsWhatWasAccepted` | packages/extension/src/coach/CoachController.ts:415-497 | over any interleaving of sends, responses, cancels, timeouts, resets and swaps the session holds at most one reply to a request, and it shows exactly what was last accepted for it |
| `Coach.ClosedReplyIsFinal` | packages/extension/src/coach/CoachController.ts:415-423 | once a request is no longer in flight its reply never changes; only a new session removes it |
| `Coach.CompletedReplyIsKept` | packages/extension/src/coach/CoachController.ts:487-497 | a completed request shows its final content and nothing else for the rest of the session |
| `CoachRuns.InFlightExactly` | packages/extension/src/coach/CoachController.ts:210-530 | after any run a request is in flight if and only if it was sent when nothing else was and nothing has ended it since, neither another request's response, error or timeout nor anything sent in between |
| `CoachRuns.ShowsWhatWasSaid` | packages/extension/src/coach/CoachController.ts:210-268 | the session shows every message that was taken, in order and in its own words, and none that was refused |
| `CoachRuns.ShowsWhatWasAnnounced` | packages/extension/src/coach/CoachController.ts:117-530 | apart from its replies a session is what its events announced since it began, in order: each failure once, a tool call only while a request is in flight, a timeout only of that request |
| `CoachRuns.HistoryIsKept` | packages/extension/src/session/SessionStore.ts:90-143 | nothing but a new session takes a message away, and only the reply to the request in flight is ever rewritten |

## Left out

- Characters are UTF-16 code units without surrogates, so surrogate pairs and lone surrogates in JSON escapes are not modelled.
- ChatRoundTrip.ExtractMessage: what becomes of the prose is stated for messages of intact blocks only; which blocks come back is stated for all, in `ChatSurvivors.IntactBlocksComeBack`.
- The truncated SHA-256 of the ledger is taken to be injective; a collision is not modelled.
- The wording of ledger notes and the `savedCharacters` estimate, which presentation alone depends on.
- A plan counts as delivered; a send that fails after planning is outside the ledger theorem. Paths are taken to fit on one line.
- JSON numbers are kept as the text they are written with; a block whose version is spelled `1.0` is refused here and accepted by the source.
- Sockets, HTTP, `chrome.*`, `vscode.*`, DOM driving and process spawning: only the steps they trigger are modelled. A frame handed to a closed socket is lost in the source and counted as sent here, except in the hub, where a closing socket is modelled.
- Timers as wall clocks: each may fire at any moment at which it is armed. That a ceiling of 150 seconds comes before a batch deadline of 200 seconds is not used.
- The hub's media, pairing and `surface.*` messages, which touch none of the tables modelled, and its envelopes, tokens and grants. A closed or replaced socket is taken to deliver nothing more.
- HubProtocol.AskHearsItsAnswer: the text of a response is one piece here; that the source joins its text parts and trims them for an HTTP caller is not modelled.
- HubProtocol.ResultGoesHome: speaks of the first result after a call; a second one goes to whichever chat is answering.
- WorkerTurns.NoInterleaving: holds until a ceiling gives up an operation on the tab, because the source does not stop what is under way then; `WorkerStrays.ApartExactlyUntilGivenUp` shows that this is exact.
- WorkerReplies.EachRequestEndsOnce: holds until a ceiling gives the request up, for the same reason; `WorkerCeilings.OrderlyExactlyUntilGivenUp` shows that this is exact.
- How long a request waits for a chat that is opening, and which chat a request goes to: the worker model receives the outcome of that choice. The chosen model is recomputed from storage, so no claim is made that it survives.
- Operations of the worker are values in a map rather than shared objects; a step reads and writes one of them at a time.
- An opening that rejects instead of resolving, which leaves its deliveries unanswered.
- The displayed lifecycle label of a request, which is set after awaits and may follow a final state.
- The full text of the coach's notices, receipts, attachments, tool entries that change after they are shown, and what persists between windows beyond the restored messages.
- Agreement between the built-in and the external file search, secret filtering and path inspection, of which only the verdicts enter `ProjectTree` as a policy.
