# Verified model of the agent core

A Dafny model of the agent core's hardest logic, with proofs over every input, every run or
every reachable state. `dafny verify dfyconfig.toml` checks all of it.

**The context window** (`crates/agent-core/src/context.rs`). A session is turns, jobs and two
forward-only ratchets, the floor and the prune line. `Spans` says how a quoted span goes out
(in full, cited, superseded), `Jobs` and `Window` price turns and folds, `Walks` relates the
two cost walks, `PruneStep` the prune line to the window it leaves, `Render` the messages to
the buckets, `SharedSpans` who shows a span and which bytes of it, `Reports` what a render
says it left out, `Entries` what each entry of those reports holds, `Shapes` what goes out
word for word, `SystemBlock` the first message to its buckets, `Selection` the decision
against a budget and `Decision` what that decision means, `PrefixCache` two calls in
succession, `Lifecycle` the alternation of jobs, `OwnTurns` which turns a close is about, and
`Counting` why stored counts can be trusted. `ContextManager.Context` is the object itself:
its loops and assignments, proved against those functions.

Text is a sequence of characters and a counter is any total function on it. The bounds hold
for every counter; the exact equalities ask for an additive one, whose separators may be free.

**The reply grammar** (`crates/agent-core/src/grammar.rs`). `Gbnf` gives the abstract syntax a
language; `Avoidance` proves the automaton that avoids a trigger until it is forced into a
tail, for self-overlapping triggers too; `ObjectText`, `Json` and `Values` the head/tail
construction and the values, against RFC 8259, and `ValueTexts` how much of it; `Grammar` is
the compiler that appends the rules in place, and `Reply` the language of the whole.

**The agent loop** (`crates/agent-core/src/agent.rs`). `Agent` runs the loop against any
model, sandbox, person and cancel, and judges what it announces with a monitor that knows
nothing of the loop. `PromptReuse` joins it to the window: what a turn sent is what the next
prompt begins with.

**The event fold and the resume** (`crates/agent-core/src/api.rs`). `SessionView` folds the
messages in place, and `StepFold` the calls of one turn among them; `Resume` proves that after
any run the fold mirrors the live session, so that a resume from it is faithful, and
`Provenance` where each job of the fold came from and what older streams meant. The order of
announcements is that of `crates/luu/src/serve.rs`.

**The ranking** (`crates/agent-core/src/rank.rs`). `References` accumulates the graph and
`EdgeAmounts` says what an edge is worth; `PageRank` proves the iteration a contraction on
distributions, over reals, `Stationary` that there is one score it settles on; `Rank` runs it
over arrays and sorts, and `Depended` says what a place in the ranking means.

**The reply scanner** (`web/helpers/segments.js`). `Searching`, `Thinking`, `Braces`,
`Segments` and `Runs` read a finished reply, and `Openings` says which block is read first and
what each is read as; `ReadBack` says what they make of a reply the grammar compelled, and
`CutReplies` names two of those that they cut.

**The signed form** (`crates/agent-core/src/approval.rs`). `Approval` writes it and proves
what two grants with the same bytes have in common.

## What turned out false, and when it holds

- Pruning is not monotone under rule A. `PruneStep.OncePruneMonotoneExactlyWhen` says when it
  is: if and only if each turn the line would pass pays for itself, its citations and its
  exchange under the results policy costing no more than the spans that only it shows and its
  exchange in full. `PruneStep.PruningGrowsASharedSession` is an input on which it is not.
- A render under rule A can contradict itself when the question carries two bodies of one
  path: `SharedSpans.DivergesExactlyWhen` says exactly when it does not, and
  `SharedSpans.TwoBodiesDiverge` is an input on which it does.
- The folds' objectives are sent and charged to no bucket: `Render.HistoryMessagesTokens`
  and `Selection.PromptIsExact` are exact with that term.
- The page does not always draw a compelled call whole: an argument may hold a fence or the tag
  of a thought, and the call is cut there. `ReadBack.CompelledReplyIsDrawn` says exactly when
  it is whole, `ReadBack.CompelledAnswerIsDrawn` the same of a reply with thoughts before it,
  and `CutReplies.AFenceIsCut` and `CutReplies.AThinkTagIsCut` are two that are not.
- Two different grants can share their signed bytes: `Approval.SameBytesSameGrant` says
  exactly which, and `Approval.AbsentAndEmptyEgressCollide` names a pair.

## Model

| member | source | states |
|---|---|---|
| `Spans.SupersededMeansStale` | crates/agent-core/src/context.rs:2387-2416 | The list `Current::of` builds supersedes a span exactly when the newest read of its path, over everything carried, got other bytes |
| `Spans.StaleUntilReadAgain` | crates/agent-core/src/context.rs:2387-2416 | A span that went stale stays stale whatever is carried later, unless those very bytes are carried again |
| `Spans.PrunedNeverDearer` | crates/agent-core/src/context.rs:2308-2318 | A pruned turn's spans never cost more than their bytes, under any counter: the citation guard |
| `Spans.ResultsNeverDearer` | crates/agent-core/src/context.rs:2194-2216 | Results under any policy never cost more than in full, under any counter |
| `Spans.ReplayTokens` | crates/agent-core/src/context.rs:2140-2203 | The step counts the buckets subtract and add are the exact count of the exchanges replayed, text once per reply, under every results policy |
| `Spans.KeptResultsAreVerbatim` | crates/agent-core/src/context.rs:1884-1889 | A live turn replays its steps verbatim, with no counter having a say |
| `Window.ItemsSuffix` | crates/agent-core/src/context.rs:1472-1493 | Cutting at an item's first turn leaves exactly the items from there on: a fold is kept or dropped whole |
| `Window.Window.ShallowestFit` | crates/agent-core/src/context.rs:2090-2121 | The first line that fits the target, with every line before it not fitting; none exactly when none fits |
| `Window.Window.Smallest` | crates/agent-core/src/context.rs:2090-2121 | The shallowest of the lines leaving the smallest window, though cost is not monotone |
| `Walks.CopiesExchange` | crates/agent-core/src/context.rs:1989-2067 | Charging shared spans to the older or to the younger of two groups takes off the same amount: why two walks that charge different turns can agree |
| `Walks.CostPrepend` | crates/agent-core/src/context.rs:1989-2032 | The increment the backward walk charges is the increment of the window priced from its own oldest item |
| `Walks.FitsFromFits` | crates/agent-core/src/context.rs:1989-2067 | For any counter, the window from `fits_from` costs at most what was available by the forward walk, and starts on an item boundary at or past the floor |
| `Walks.FitsFromIsLongest` | crates/agent-core/src/context.rs:1989-2032 | Under an additive counter a suffix of whole items fits if and only if it starts at or past the one the early stop chose |
| `Walks.EvictionNeverGrows` | crates/agent-core/src/context.rs:1750-1772 | Under an additive counter the cut never leaves the window dearer, so the saving reported for an eviction never saturates |
| `Walks.FitsFromAntitone` | crates/agent-core/src/context.rs:1716-1748 | A smaller target never cuts less deep |
| `Walks.OneFlagApart` | crates/agent-core/src/context.rs:1989-2032 | With nothing stale, rule A never makes the backward walk cut deeper, whatever the counter |
| `Walks.AlwaysPruneMonotone` | crates/agent-core/src/context.rs:2205-2216 | Without rule A, under an additive counter over honest stored counts, moving the prune line forward never makes the window dearer |
| `PruneStep.OncePruneCanGrow` | crates/agent-core/src/context.rs:2079-2087 | Two turns that share a span: pruning the owner makes the window dearer by exactly the citation |
| `PruneStep.PruneStepExact` | crates/agent-core/src/context.rs:2073-2121 | Under rule A, one more pruned turn trades the spans only it showed and its exchange for its citations and its exchange under the results policy, exactly |
| `PruneStep.PruneStepPaysExactlyWhen` | crates/agent-core/src/context.rs:2073-2121 | So the step never makes the window dearer if and only if that trade pays, which can be read off before the line moves |
| `PruneStep.OncePruneMonotoneExactlyWhen` | crates/agent-core/src/context.rs:2079-2087 | Under rule A pruning is monotone from a line on if and only if every live turn it would pass pays for itself |
| `PruneStep.PruningGrowsASharedSession` | crates/agent-core/src/context.rs:2079-2087 | A session and a counter for which moving the line makes the window strictly dearer |
| `Walks.CorrectedExact` | crates/agent-core/src/context.rs:1510-1576 | Correcting a stored count for superseded spans never saturates and gives the exact count of what is sent |
| `Walks.LiveTokensExact` | crates/agent-core/src/context.rs:1510-1576 | A live item costs exactly its spans as shown plus its exchange |
| `Walks.PrunedTokensExact` | crates/agent-core/src/context.rs:1510-1576 | A pruned item costs exactly its citations plus its exchange under the results policy, no subtraction saturating |
| `Walks.LineBelowFloor` | crates/agent-core/src/context.rs:1685-1703 | A prune line behind the floor prices the window as a line at the floor does: catching up changes nothing |
| `Render.ItemHistoryExact` | crates/agent-core/src/context.rs:1811-1891 | Item by item, what the history bucket adds is the count of the messages rendered and the charge of the forward walk |
| `Render.HistoryBucketIsExact` | crates/agent-core/src/context.rs:1811-1891 | Under every combination of repeat, prune, results and supersession, the history bucket is the exact count of all messages of live and pruned turns |
| `Render.HistoryMessagesTokens` | crates/agent-core/src/context.rs:1778-1932 | Everything between the system block and the question is the two buckets plus the folds' objectives, which no bucket charges |
| `Render.BucketsAreTheCost` | crates/agent-core/src/context.rs:1936-1953 | The rendered buckets equal the cost the decision was taken on |
| `SharedSpans.OldestCarrierOwns` | crates/agent-core/src/context.rs:1843-1876 | A turn shows a span exactly when it carries it and no older unpruned turn in the window does, so after an eviction the oldest left owns it |
| `SharedSpans.EverySpanOnce` | crates/agent-core/src/context.rs:1843-1876 | Rule A loses nothing: every span carried above the line is shown exactly once |
| `SharedSpans.EverySpanOnceWithTheQuestion` | crates/agent-core/src/context.rs:1914-1932 | The same, with the question's spans among them |
| `SharedSpans.EveryBodyIsNewest` | crates/agent-core/src/context.rs:1861-1870 | When the question reads each path one way, every body sent above the line is the newest read over all turns, evicted ones included |
| `SharedSpans.DivergedMeaning` | crates/agent-core/src/context.rs:2480-2527 | A path is reported, with its tally, exactly when two different bodies of it went out |
| `SharedSpans.DivergesExactlyWhen` | crates/agent-core/src/context.rs:2480-2527 | A render under rule A reports nothing if and only if the question carries no stale span that no turn above the line carries |
| `SharedSpans.TwoBodiesDiverge` | crates/agent-core/src/context.rs:2480-2527 | A question on which a render under rule A does contradict itself, whatever the counter |
| `Reports.RepeatedIsTheDifference` | crates/agent-core/src/context.rs:1843-1860 | What the report says rule A kept out is exactly what the rendered buckets fall short of the items' own costs by |
| `Reports.RepeatedCounts` | crates/agent-core/src/context.rs:1843-1932 | Every span carried above the line is shown or counted as kept out, and nothing is reported if and only if no span is carried twice |
| `Reports.AlwaysKeepsNothingOut` | crates/agent-core/src/context.rs:1972-1977 | Without rule A nothing is kept out |
| `Reports.SupersededMeaning` | crates/agent-core/src/context.rs:2443-2468 | The report is exactly one entry for each path cited, with its turns, how many spans, and the cost of their bytes |
| `Reports.SupersededExactlyWhen` | crates/agent-core/src/context.rs:1861-1870 | A path is reported if and only if some turn above the line carries a span of it that has since been read with other bytes |
| `Reports.NothingCitedAlways` | crates/agent-core/src/context.rs:481-484 | Without rule A no body is ever replaced |
| `SystemBlock.SystemBlockTokens` | crates/agent-core/src/context.rs:1058-1075 | The system message counts as its buckets and its separators; under the native transport the tools are charged and not sent |
| `SharedSpans.NothingDiverges` | crates/agent-core/src/context.rs:2480-2527 | A question that reads each path one way never diverges |
| `Entries.SplitInOrder` | crates/agent-core/src/context.rs:2425-2436 | A turn renders each span where it is first carried, unless it is already shown, and drops all the rest, both in order |
| `Entries.TallyHolds` | crates/agent-core/src/context.rs:2480-2527 | The entry of a path names the turns that sent a body of it, in order, and whether the question did |
| `Entries.DivergedInOrder` | crates/agent-core/src/context.rs:2480-2527 | The paths stand in the order they first went out |
| `Entries.EntryHolds` | crates/agent-core/src/context.rs:2443-2466 | A stale path's entry counts its spans and what their bytes would have cost, and names each turn once |
| `Entries.SupersededInOrder` | crates/agent-core/src/context.rs:2443-2466 | The stale paths are reported each once, in the order first cited |
| `Entries.KeptOutNames` | crates/agent-core/src/context.rs:1843-1861 | The report of what rule A kept out names exactly the turns that left something out, in order |
| `Entries.AskingLeavesOut` | crates/agent-core/src/context.rs:1914-1926 | And says the question did exactly where it carries a span twice or one already shown |
| `Shapes.HowASpanLooks` | crates/agent-core/src/context.rs:2219-2318 | A span in each of its three looks, character by character, and when each is taken |
| `Shapes.HowAResultLooks` | crates/agent-core/src/tools/mod.rs:175-190 | A result: its tool, its error or that there was none, its output, and where that was cut |
| `Shapes.WhenAResultGivesWay` | crates/agent-core/src/context.rs:2194-2216 | A result is replaced exactly where the citation is shorter and the policy cites everything, or cites reads and the tool is one |
| `Shapes.PruningKeepsTheVoices` | crates/agent-core/src/context.rs:1811-1891 | Pruning changes no message's role, no number of messages and no word of the model's |
| `Shapes.HowThePromptStands` | crates/agent-core/src/context.rs:1778-1932 | The system message first and nowhere else, the history, and last the question under the spans nothing before it shows |
| `Shapes.HowTheSystemMessageStands` | crates/agent-core/src/context.rs:1058-1075 | The system message block by block, what is empty or sent apart left out |
| `Selection.DecisionFits` | crates/agent-core/src/context.rs:1637-1772 | Under any counter both ratchets only move forward, the floor lands on an item boundary, and the window left fits |
| `Selection.PruningSavesExactly` | crates/agent-core/src/context.rs:1666-1714 | The saving reported for pruning is the exact difference of two windows and never negative |
| `Selection.PruneLineMeaning` | crates/agent-core/src/context.rs:2090-2121 | The line taken is, if and only if, the shallowest that fits or, where none does, the shallowest minimising the window |
| `Selection.FirstFitIsTaken` | crates/agent-core/src/context.rs:2090-2121 | A line that is the first to fit is the one taken |
| `Selection.SmallestIsTaken` | crates/agent-core/src/context.rs:2090-2121 | Where no line fits, a line that is the shallowest of the smallest is the one taken |
| `Selection.OneFlagApartDecision` | crates/agent-core/src/context.rs:1655-1748 | From the same ratchets, unpruned and with nothing stale, rule A never leaves the floor further forward, for both policies and every budget |
| `Selection.BudgetSafety` | crates/agent-core/src/context.rs:1637-1953 | When the fixed part is within the limit all buckets are; otherwise the history kept costs nothing |
| `Selection.PromptIsExact` | crates/agent-core/src/context.rs:1778-1953 | The whole prompt counts as its system message, the buckets and the folds' objectives |
| `Selection.CodeBucketIsExact` | crates/agent-core/src/context.rs:1914-1953 | The code bucket counts exactly the spans the question sends, and never more than it was budgeted at |
| `Decision.DecidesWhatIsNeeded` | crates/agent-core/src/context.rs:1637-1748 | Under any counter, the two ratchets are where the decision puts them if and only if each stayed where every suffix of the window fits, and otherwise went exactly as far as the target takes: the line to the first that meets it, the floor to where the longest run within it starts |
| `Decision.NothingGoesThatFits` | crates/agent-core/src/context.rs:1637-1748 | Under an additive counter over honest counts, a window that fits what is available loses nothing to either policy; and where it does not fit, a boundary meets the target exactly when the cut is at or before it |
| `Decision.ReportsSayWhatMoved` | crates/agent-core/src/context.rs:1683-1772 | A ratchet is reported exactly when it moved, with the turns it passed and the difference of the two windows |
| `Decision.GaveUpInOrder` | crates/agent-core/src/context.rs:1684-1701 | The turns reported as pruned are exactly those with something to give up, in order |
| `PrefixCache.SameHistory` | crates/agent-core/src/context.rs:1778-1891 | Items whose jobs and spans stand as they stood render to the same messages |
| `PrefixCache.PushedItems` | crates/agent-core/src/context.rs:1472-1493 | A pushed turn adds exactly one live item and moves no other |
| `PrefixCache.LandingDisturbsNothing` | crates/agent-core/src/context.rs:1110-1147 | Wherever a turn lands, the jobs of the turns before it stand as they stood |
| `PrefixCache.NextPromptExtends` | crates/agent-core/src/context.rs:1778-1932 | With the ratchets where they were and nothing on the screen re-read, the next prompt is the last one, then its exchanges, its answer and the new question |
| `PromptReuse.EveryCallIsAPrefixOfTheNextPrompt` | crates/agent-core/src/agent.rs:296-368 | Every conversation the loop sent during a turn, retries included, is a prefix of the next turn's prompt |
| `Counting.PushCounts` | crates/agent-core/src/context.rs:1110-1147 | Stored counts stay counts of what is stored across a push |
| `Counting.LifecycleCounts` | crates/agent-core/src/context.rs:1303-1374 | And across a close, a reopen and an approval |
| `Lifecycle.PushKeeps` | crates/agent-core/src/context.rs:1110-1173 | A push keeps the alternation: ids by position, one open job and it is the last, no empty draft, job ids in order |
| `Lifecycle.CloseKeeps` | crates/agent-core/src/context.rs:1303-1374 | So does a close, and only the last job can be closed |
| `Lifecycle.ReopenKeeps` | crates/agent-core/src/context.rs:1405-1416 | So does a reopen, which makes that job current again |
| `Lifecycle.ApproveKeeps` | crates/agent-core/src/context.rs:1195-1228 | So does an approval, whose job is then the one open |
| `Lifecycle.FoldsIncrease` | crates/agent-core/src/context.rs:1472-1493 | The folds of a window are of strictly increasing jobs |
| `Lifecycle.EveryTurnIsCovered` | crates/agent-core/src/context.rs:1472-1493 | Every turn at or above the floor is an item itself while its job is open and is in its job's fold once closed |
| `Lifecycle.OneFoldPerClosedJob` | crates/agent-core/src/context.rs:1472-1493 | A closed job with a turn at or above the floor is exactly one item, however the floor cut it |
| `Lifecycle.ItemsStandForTurns` | crates/agent-core/src/context.rs:1465-1493 | An item is a turn of an open job, or a closed job from where its run of turns begins or the floor cuts it |
| `Lifecycle.FoldIsRecorded` | crates/agent-core/src/job.rs:668-697 | A close writes the fold at its own price, by whom and what it replaced, and leaves every other job as it was |
| `Lifecycle.ReopenUndoesClose` | crates/agent-core/src/job.rs:668-706 | Reopening a job that was just closed leaves the jobs exactly as they were before the close |
| `OwnTurns.OwnTurnsInOrder` | crates/agent-core/src/context.rs:1274-1342 | The turns a job is closed on are exactly its own, each once, in order |
| `OwnTurns.OnlyOwnTurnsCount` | crates/agent-core/src/context.rs:1274-1374 | Two sessions that agree on a job's turns, wherever those stand and whatever stands between, agree on whether it closes and on what its fold says |
| `OwnTurns.OwnStepsOnly` | crates/agent-core/src/context.rs:1276-1283 | A step counts for a job exactly when a turn of that job ran it |
| `OwnTurns.StepsInOrder` | crates/agent-core/src/context.rs:1309-1315 | The steps a fold is written from are each turn's whole list, one turn after another |
| `OwnTurns.ReplacesItsOwn` | crates/agent-core/src/context.rs:1343-1363 | What a fold replaces is its own turns' ids, in order, and the sum of what each costs where it stands |
| `OwnTurns.OnlyOwnTurnsAreReplaced` | crates/agent-core/src/context.rs:1343-1363 | Two windows that agree on a job's turns, and on which are behind the line, agree on what its fold replaces |
| `ContextManager.Diverge` | crates/agent-core/src/context.rs:2480-2527 | The paths that went out with two different bodies, each with its turns, from one pass over what was sent |
| `ContextManager.Context.FitsFrom` | crates/agent-core/src/context.rs:1989-2032 | The backward loop with its early stop refines the window function the theorems are about |
| `ContextManager.Context.WindowTokens` | crates/agent-core/src/context.rs:2042-2067 | So does the forward loop |
| `ContextManager.Context.PruneTo` | crates/agent-core/src/context.rs:2090-2121 | The search loop finds the line characterised above |
| `ContextManager.Context.RenderHistory` | crates/agent-core/src/context.rs:1811-1891 | One loop renders the messages, both buckets, the screen, the bodies sent, what rule A kept out and what was cited, all as specified |
| `ContextManager.Context.Select` | crates/agent-core/src/context.rs:1589-1987 | Moves the ratchets exactly as far as the budget needs and no other state, and returns the prompt, the buckets and every report, of the ratchets too; priced by an additive counter, the buckets stay within the limit where the fixed part does, and account for every message sent |
| `ContextManager.Context.PushTurn` | crates/agent-core/src/context.rs:1110-1173 | The whole new session after a push, counts included, in the job it lands in |
| `ContextManager.Context.AskAnswerAsk` | crates/agent-core/src/context.rs:1110-1932 | Ask, push, ask again: where neither ratchet moved and nothing on the screen was re-read, the first message list, the exchanges and the answer are a prefix of the second list |
| `ContextManager.Context.CloseJobBy` | crates/agent-core/src/context.rs:1303-1374 | Closes exactly when the job is open; the summary is worded from its own turns, and what it replaced is what they cost in the render in force |
| `ContextManager.Context.CloseIfMet` | crates/agent-core/src/context.rs:1274-1296 | Closes exactly when the current job has a plan whose condition the steps of its own turns meet, with the wording and the price of a close |
| `ContextManager.Context.ApprovePlan` | crates/agent-core/src/context.rs:1195-1228 | Closes the draft that is open, then opens the planned job and answers the round |
| `ContextManager.Context.DeclinePlan` | crates/agent-core/src/context.rs:1237-1249 | Adds a declined round and nothing else |
| `ContextManager.Context.Reopen` | crates/agent-core/src/context.rs:1405-1416 | Reopens exactly the last job, and only when closed |
| `Avoidance.StateAfter` | crates/agent-core/src/grammar.rs:283-344 | State i is the longest prefix of the pattern that what was read ends in, self-overlaps included, and each step of the automaton keeps it so |
| `Avoidance.SpecialsDecide` | crates/agent-core/src/grammar.rs:283-344 | The characters a state singles out through its failure chain decide the next state, and every other character leads to the start |
| `Avoidance.StatesGenerate` | crates/agent-core/src/grammar.rs:283-344 | From any state the rules generate exactly the continuations that avoid the pattern or reach it once and hand over to the tail |
| `Avoidance.AvoidsUntilForced` | crates/agent-core/src/grammar.rs:283-344 | For every nonempty NUL-free pattern the rules generate exactly the NUL-free strings without it, and those ending in its first occurrence followed by a text of the tail |
| `Grammar.Failure` | crates/agent-core/src/grammar.rs:283-300 | The failure table holds the longest proper border of every prefix |
| `Grammar.SpecialsOf` | crates/agent-core/src/grammar.rs:300-330 | The fallback walk lists, longest prefix first, every character that does not lead to the start |
| `Grammar.Compiler.AvoidUntilForced` | crates/agent-core/src/grammar.rs:283-344 | The rules appended are the automaton's, one state per character, and no rule there before changes |
| `Grammar.Compiler.ObjectRule` | crates/agent-core/src/grammar.rs:215-267 | Succeeds exactly on schemas in scope, and appends the head and tail rules of the properties |
| `Grammar.Compile` | crates/agent-core/src/grammar.rs:72-111 | Succeeds exactly when every tool's schema is in scope, and otherwise names the first tool that is not and the first of its properties that is out; on success the rules are the compiled grammar |
| `ObjectText.ObjectRuleGenerates` | crates/agent-core/src/grammar.rs:215-267 | Generates exactly the objects whose keys are an in-order choice of the properties with every required one, commas between members and nowhere else |
| `Json.ObjectIsJson` | crates/agent-core/src/grammar.rs:215-267 | Each of those texts is an object by sections 4 and 7 of RFC 8259, given such values and names needing no escape |
| `Values.OfString` | crates/agent-core/src/grammar.rs:157-165 | The string rule generates exactly the quoted texts of unescaped characters and escapes |
| `Values.StringsAreJson` | crates/agent-core/src/grammar.rs:157-165 | Each of them is a string by section 7 of RFC 8259 |
| `Values.OfInteger` | crates/agent-core/src/grammar.rs:166-169 | The integer rule generates exactly the integers of section 6 of RFC 8259: no leading zero, no fraction, no exponent |
| `Values.OfStringArray` | crates/agent-core/src/grammar.rs:170-180 | The array rule generates exactly the bracketed lists of strings, with spaces wherever they may stand and no comma first or last |
| `Values.StringArraysAreJson` | crates/agent-core/src/grammar.rs:170-180 | Each of them is an array of strings by section 5 of RFC 8259 |
| `ValueTexts.PropertiesTakeTheirType` | crates/agent-core/src/grammar.rs:181-267 | In the compiled grammar each property goes by its own name, is required where the schema says so, and takes exactly the texts of its own type |
| `ValueTexts.HowStrictStringsAre` | crates/agent-core/src/grammar.rs:157-162 | The strings let through are exactly those of RFC 8259 without a bare DEL and without an escaped slash |
| `ValueTexts.HowStrictSpacesAre` | crates/agent-core/src/grammar.rs:143-145 | And the white space is exactly its white space without the carriage return |
| `ValueTexts.EveryListMayBeWritten` | crates/agent-core/src/grammar.rs:170-176 | An array of any number of such strings may be written |
| `Reply.OfCall` | crates/agent-core/src/grammar.rs:72-111 | A call rule generates exactly a name and an arguments object of that tool's schema |
| `Reply.ReplyLanguage` | crates/agent-core/src/grammar.rs:72-111 | The language of the whole compiled grammar: text without the trigger, or text up to its first occurrence followed by exactly one well-formed call and the closing fence |
| `Reply.ArgumentsAreJson` | crates/agent-core/src/grammar.rs:181-267 | Whatever arguments the grammar allows are a JSON object of strings, integers and arrays of strings |
| `Agent.EveryCallReplays` | crates/agent-core/src/agent.rs:354-368 | Every announced call to the model, first attempt or retry, sends the initial messages and then the exchange of each step executed so far |
| `Agent.RetriesFollowAttempts` | crates/agent-core/src/agent.rs:375-430 | A retry follows its own first attempt at once, with the same messages |
| `Agent.CallsAreAnswered` | crates/agent-core/src/agent.rs:529-652 | In a finished run every tool call is answered by the very next event, with its step, its index and itself |
| `Agent.OneEnd` | crates/agent-core/src/agent.rs:354-375 | A finished run has exactly one terminal event and it is the last |
| `Agent.WhatWasSeen` | crates/agent-core/src/agent.rs:296-322 | What the monitor counts is what the announcements say: steps executed, *more* answers, the limit lifted |
| `Agent.BudgetHolds` | crates/agent-core/src/agent.rs:478-527 | Executed calls never exceed the budget times one more than the *more* answers unless the session lifted the limit, at every point of a run |
| `Agent.AgentTurn.RunOne` | crates/agent-core/src/agent.rs:529-652 | One call: announced, run, escalated and answered; the wider sandbox only after a grant or a person's yes, and a no is never a run |
| `Agent.OneMoreExecuted` | crates/agent-core/src/agent.rs:468-473 | What a turn executes is numbered from one in each reply, reply after reply, as the fold of its announcements needs |
| `Agent.AgentTurn.Extend` | crates/agent-core/src/agent.rs:486-527 | *More* raises the budget by the limit, the session answer lifts it, and each is announced as it was; *stop* and a cancel leave it, and nothing is announced |
| `Agent.AgentTurn.Proceed` | crates/agent-core/src/agent.rs:478-527 | Within the budget a call goes on; past it, with somebody to ask, it goes on exactly when they say *more* or *no limit*, stops exactly when they say *stop*, and is cancelled exactly when no answer came |
| `Agent.AgentTurn.RunCalls` | crates/agent-core/src/agent.rs:468-656 | A reply's calls run in order, each settled, each under the budget that the answers so far make; the first left unexecuted is left by a cancel exactly when one came while a person was asked, by a person exactly when they said *stop* there, and otherwise because nobody can extend the budget |
| `Agent.AgentTurn.CallModel` | crates/agent-core/src/agent.rs:318-447 | One first attempt and at most one retry, each announced; a failed or cancelled attempt ends the turn with its own text, reason and error, a refused retry is announced and falls back to the first reply, and every attempt's usage is summed |
| `Agent.AgentTurn.Round` | crates/agent-core/src/agent.rs:317-662 | A reply with no call ends the turn with that reply; otherwise its calls run, and the turn ends cancelled, on the limit or not at all exactly as they were left, with the outcome and the last event of that end |
| `Agent.AgentTurn.Run` | crates/agent-core/src/agent.rs:271-675 | With nobody to extend it the loop ends by itself, by budget minus steps; with somebody it goes on for as many rounds as it is let, unless it ends; and it ends with its one terminal event and the steps it executed |
| `SessionView.Session.ApplyProtocol` | crates/agent-core/src/api.rs:1063-1394 | The in-place fold of one message is the function the simulation is about |
| `SessionView.Session.AnswerRound` | crates/agent-core/src/api.rs:1028-1037 | Answers the last unanswered round and no other |
| `SessionView.Session.MarkEvicted` | crates/agent-core/src/api.rs:1130-1148 | Marks each turn named, in place, by the turn that cut |
| `SessionView.Session.Resume` | crates/agent-core/src/context.rs:876-1048 | Rebuilds jobs, turns with their calls, rounds and floor; the draft for turns without a job is made once, in front, and only if one turns up |
| `Resume.MarkedPointwise` | crates/agent-core/src/api.rs:1130-1148 | Marking a list of turns marks exactly those turns, whatever the order |
| `StepFold.CallIsNew` | crates/agent-core/src/api.rs:1312-1343 | No two calls of a turn share a step and a place, so each is entered once |
| `StepFold.TellingShows` | crates/agent-core/src/api.rs:1312-1394 | Folding what a turn announced of its calls gives it those calls, in order, with their results |
| `StepFold.StepsComeBack` | crates/agent-core/src/context.rs:913-941 | A resume gives back every call as it ran, but for its text |
| `Resume.CutShows` | crates/agent-core/src/context.rs:1756-1771 | A cut announced by the turn that made it moves exactly the floor, is noted beside that turn, and marks each turn it dropped with it |
| `Resume.WhatOpened` | crates/luu/src/serve.rs:5840-5863 | The draft announced after a turn is exactly the one it opened |
| `Resume.NothingOpened` | crates/luu/src/serve.rs:5820-5877 | No turn both opens a draft and meets a closing condition |
| `Resume.StepShows` | crates/agent-core/src/api.rs:1063-1263 | Every step a session can take keeps the folded announcements in step with it |
| `Resume.RunsStaySound` | crates/agent-core/src/context.rs:1110-1416 | Every run keeps the alternation, so any step allowed after it can be taken |
| `Resume.AnnouncementsMirror` | crates/agent-core/src/api.rs:1063-1263 | After any run the fold of everything announced shows the session: turns with their jobs and calls, jobs with plan, state and summary, rounds and what is on the table |
| `Resume.ResumeIsFaithful` | crates/agent-core/src/context.rs:876-1048 | Resuming from a run's announcements gives the same turns, calls, jobs, rounds and floor; only the words around a call and the count of a summary are made again |
| `Provenance.EveryJobIsFromItsRound` | crates/agent-core/src/api.rs:1177-1228 | After any run, the plan and the source beside each job of the fold are those of the round answered with it, as it was put on the table; a draft has neither |
| `Provenance.UnattributedTurnsShareADraft` | crates/agent-core/src/context.rs:876-1010 | Turns that name no job are put in one draft, under an id no other job has, in front of every other |
| `Provenance.SaidTwice` | crates/agent-core/src/api.rs:1063-1343 | A turn, a draft or a call announced again changes nothing |
| `References.EdgesAreEvidence` | crates/agent-core/src/rank.rs:122-181 | An edge stands exactly for a reference that counts as evidence to another file defining the name; weights are positive and no file has an edge to itself |
| `References.Graph` | crates/agent-core/src/rank.rs:122-181 | The nested loops over hash maps, in any order, accumulate exactly the weights the rows below are about |
| `EdgeAmounts.AmountOfOne` | crates/agent-core/src/rank.rs:37-178 | One name used one way is worth, to each other file that defines it, the root of how often, a quarter through a method, a tenth where more than five files define it, a quarter where it is short, divided among those files; a short method nothing |
| `EdgeAmounts.EdgesAddUp` | crates/agent-core/src/rank.rs:143-178 | References that share no name and kind are added up |
| `EdgeAmounts.NothingElseCounts` | crates/agent-core/src/rank.rs:122-178 | An edge is made of one file's references and all files' definitions: neither other references nor any order has a say |
| `EdgeAmounts.MethodsCountAQuarter` | crates/agent-core/src/rank.rs:72-82 | Beside whatever else the file refers to, a long name reached through a method adds a quarter of what it adds when called |
| `EdgeAmounts.SharedOutEqually` | crates/agent-core/src/rank.rs:168-178 | A name is worth the same to every file it may mean |
| `EdgeAmounts.HoweverManyDefine` | crates/agent-core/src/rank.rs:155-178 | To all of them together it is worth the same however many they are, and past five definitions a tenth of that |
| `EdgeAmounts.ShortNamesCountAQuarter` | crates/agent-core/src/rank.rs:156-173 | A short name counts a quarter of a long one that as many files define |
| `PageRank.StepConserves` | crates/agent-core/src/rank.rs:203-231 | An iteration takes a distribution to a distribution |
| `PageRank.StepContracts` | crates/agent-core/src/rank.rs:203-231 | From any two scores an iteration brings them closer by the damping |
| `PageRank.MovesLessAndLess` | crates/agent-core/src/rank.rs:203-231 | Iteration k moves at most twice 0.85 to the k, and at most 0.85 times what the one before moved |
| `PageRank.LaterIteratesStayClose` | crates/agent-core/src/rank.rs:203-231 | Every later iterate stays within twice 0.85 to the k of iterate k |
| `PageRank.Approaches` | crates/agent-core/src/rank.rs:203-231 | A distribution that stands still is within twice 0.85 to the k of iterate k |
| `PageRank.OnlyOneStandsStill` | crates/agent-core/src/rank.rs:203-231 | At most one score stands still |
| `PageRank.StoppingIsClose` | crates/agent-core/src/rank.rs:225-230 | Stopping below epsilon leaves the score within a fixed multiple of epsilon of every score the iteration would still have reached |
| `Stationary.ABalanceExists` | crates/agent-core/src/rank.rs:203-231 | Shares handed on below one in all can be balanced, by eliminating one file at a time |
| `Stationary.TheIterationSettles` | crates/agent-core/src/rank.rs:203-231 | On every graph exactly one score stands still, it is a distribution, and every iterate approaches it geometrically |
| `Stationary.StoppedNear` | crates/agent-core/src/rank.rs:225-230 | The iterate at which the loop stops is within a fixed multiple of epsilon of it |
| `Rank.DanglingIsSpread` | crates/agent-core/src/rank.rs:205-216 | Spreading the dangling share over everyone is each such file handing on its own |
| `Rank.EveryIterateIsADistribution` | crates/agent-core/src/rank.rs:188-231 | On every graph of references the iterates are distributions, dangling mass included, and contract |
| `Rank.EveryRankingSettles` | crates/agent-core/src/rank.rs:188-231 | Every ranking has one score it is on its way to, and is near it where it stops early |
| `Rank.Spread` | crates/agent-core/src/rank.rs:203-224 | One iteration, edge by edge in any order over arrays, is one step of the mathematics |
| `Rank.Scores` | crates/agent-core/src/rank.rs:199-231 | The loop stops at the first iteration that moved less than epsilon, or at the hard stop, with that iterate |
| `Rank.RankFiles` | crates/agent-core/src/rank.rs:188-248 | Every file exactly once, by score and then index, with exactly its referrers by weight and then index; the score is the iterate at the first movement below 1e-9, or the sixty-fourth |
| `Depended.OneIteration` | crates/agent-core/src/rank.rs:203-224 | An iteration, file by file: fifteen parts in a hundred to everyone alike, the rest along the references or among everyone |
| `Depended.DependedOnMoreScoresMore` | crates/agent-core/src/rank.rs:188-224 | On every graph, a file depended on at least as much by every file never scores less, and depended on more by any it scores more |
| `Depended.DependedOnMoreComesFirst` | crates/agent-core/src/rank.rs:188-248 | And so it comes first, wherever the two stand in what the ranking returns |
| `Thinking.Regions` | web/helpers/segments.js:180-204 | The regions put back together are the reply; answers hold no opening tag, thoughts no closing one, only the last may be open, and the cut is the one the other results are about |
| `Thinking.HeadlessMeaning` | web/helpers/segments.js:183-189 | A reply begins inside a thought exactly where its first closing tag has no whole opening tag ahead of it |
| `Braces.ObjectEnd` | web/helpers/segments.js:253-269 | The loop ends at the first brace, outside strings and escapes, that closes the object, and at none exactly when none does |
| `Braces.ObjectEndsAtItsBrace` | web/helpers/segments.js:253-269 | A JSON object, whatever its strings hold, ends at its own last brace and at nothing before it |
| `Searching.OpensCallMeaning` | web/helpers/segments.js:119-121 | A call opens exactly where a brace, a name and a colon stand, with white space wherever it may be |
| `Searching.MayOpenCallMeaning` | web/helpers/segments.js:119-121 | What could still become a call is exactly what starts one, white space ahead of it included |
| `Searching.BareStartIsFirst` | web/helpers/segments.js:214-220 | The scan finds the first brace that is first on its line and opens a name, and nothing only where there is none |
| `Openings.FirstOpeningIsFirst` | web/helpers/segments.js:76-88 | What is read next is a block exactly when it opens there and no fence, tag or bare call opens before it; and nothing exactly when nothing opens |
| `Openings.TaggedIsRead` | web/helpers/segments.js:91-110 | A tagged block read next is a call, tags and all, exactly where the text between its tags has a name, and otherwise text |
| `Openings.FenceIsRead` | web/helpers/segments.js:112-138 | A fenced block read next is a call under our own mark, and under that of JSON exactly where it could be one and has a name |
| `Openings.BareIsRead` | web/helpers/segments.js:140-149 | A bare object read next runs to the brace that closes it, and is a call where it has a name |
| `ReadBack.CompelledCallsEnd` | web/helpers/segments.js:253-269 | Every call the grammar allows, written bare, ends for the page exactly where it ends |
| `ReadBack.CompelledReplyIsDrawn` | web/helpers/segments.js:73-204 | A compelled reply nobody thought in, in whose prose no block opens, is drawn as its prose and its one call if and only if no tag of a thought is in it and the call holds no fence |
| `ReadBack.CompelledAnswerIsDrawn` | web/helpers/segments.js:73-204 | With whatever thoughts came first, it is drawn as those, its prose and its call whole if and only if no thought opens after them and the call holds no fence |
| `CutReplies.AFenceIsCut` | web/helpers/segments.js:112-138 | A reply the grammar of a one-tool session compels, and the page cuts at a fence in its argument |
| `CutReplies.AThinkTagIsCut` | web/helpers/segments.js:180-204 | And one it cuts at the tag of a thought, though the call holds no fence |
| `CutReplies.CompileSample` | crates/agent-core/src/grammar.rs:72-111 | The grammar both are about does compile |
| `Segments.ReadingConserves` | web/helpers/segments.js:73-151 | Read for calls, a stretch of reply loses nothing and gains nothing |
| `Segments.RegionsDrawn` | web/helpers/segments.js:153-158 | So does the whole reply, thoughts in their tags, and calls are taken in order as blocks are read |
| `Segments.WhatABlockTakes` | web/helpers/segments.js:58-69 | A block takes the next call that ran exactly where it can be read for one, and then says what ran; otherwise it says what was written |
| `Segments.OrderKeepsCalls` | web/helpers/segments.js:46-49 | Calls stand by step and then by place, none lost and none twice |
| `Segments.OrderIsStable` | web/helpers/segments.js:46-49 | Calls nothing tells apart keep the order they came in |
| `Segments.CallsAreShown` | web/helpers/segments.js:167-174 | Trimming and dropping what is empty never hides a call |
| `Segments.ShownInOrder` | web/helpers/segments.js:167-174 | What is shown is every part that has something to show, trimmed, in the order drawn |
| `Segments.TrimMeaning` | web/helpers/segments.js:168-171 | Prose loses the line breaks ahead of it and the white space after it, a thought the white space around it, and neither anything else |
| `Segments.Segmenter.Scan` | web/helpers/segments.js:73-151 | The loop, whose position strictly increases, draws exactly the pieces of the stretch |
| `Segments.Segmenter.Segments` | web/helpers/segments.js:45-174 | Before trimming the parts write the reply back exactly, they are its pieces read in order, each call that ran is drawn exactly once, by step and then place, and a block that shows one says what ran |
| `Runs.Grouped` | web/helpers/segments.js:222-251 | What is drawn is every part but the white space between two calls of a row; a box holds two calls or more, and between any two boxes or calls alone there is something that is neither call nor white space |
| `Approval.Canonicalize` | crates/agent-core/src/approval.rs:80-124 | Signs exactly when no value holds a newline, and otherwise names the first field that does |
| `Approval.RenderedOnce` | crates/agent-core/src/approval.rs:110-124 | The bytes determine the lines |
| `Approval.TheBytesSigned` | crates/agent-core/src/approval.rs:80-124 | The bytes themselves: the version, and each field and value on a line of its own, in order, nothing where nothing was asked |
| `Approval.TwoApprovals` | crates/agent-core/src/approval.rs:350-371 | The two forms the repository's own tests fix |
| `Approval.SameBytesSameGrant` | crates/agent-core/src/approval.rs:80-108 | Two approvals have the same bytes if and only if they are equal field by field, up to an absent and an empty egress |
| `Approval.AbsentAndEmptyEgressCollide` | crates/agent-core/src/approval.rs:80-108 | Those two do share their bytes |

## Left out

- The product of the low-water fraction in single precision: any target at most what is available stands for it.
- Integer width: token counts, ids, steps and the extended budget are unbounded, so neither overflow nor the saturation of the budget is modelled.
- The text of a job summary and the test of a plan's closing condition: both are arbitrary functions of what they are given.
- Plans carry the fields the model compares; network, egress and enforcement are modelled where they are signed.
- Rule names are structured values, so a collision of spellings after a tool's name is rewritten (a tool named `tool`, say) is not modelled; `Grammar.Compile` asks that tool names be distinct.
- The written form of the grammar: character classes are sets, and the escaping of literals and of a `-` inside a class is not modelled.
- JSON schemas are reduced to a list of properties with their kinds; anything else is out of scope, as it is for the compiler.
- Agent.AgentTurn.Run: takes a number of rounds, which only matters where a person can extend the budget; with nobody to extend it the loop ends whatever that number is.
- Tokens as they stream, clocks, durations, timeouts and the abandoning of a call that does not answer.
- The sandbox, the parser of calls and the score of a drifted reply are arbitrary functions; each person and each model is asked at most once at a step, so functions of the step are every behaviour.
- Resume.ResumeIsFaithful: is about runs in which every started turn was pushed; a turn that produced nothing is never pushed, stays in the view, and stops the count of evicted turns early.
- Resume.ResumeIsFaithful: says nothing of a turn's answer, which a resume makes of the streamed text, of its spans, which it reads again, or of its own count, which it makes again.
- SessionView.Session.Resume: rebuilds no answer, no spans and no counts of turns, for the same reasons.
- SessionView.Session.ApplyProtocol: folds turns, evictions, calls, jobs and rounds; groundings, streamed text, ends, refusals, held calls, limits and grants set fields the modelled resume does not read.
- Streams from before jobs alternated: the fold handles them as the code does, and no run of the model announces one.
- The tally of a session (`counts`) and the trace messages, which only add totals.
- Floating point: the ranking is over reals, and the square root is any function positive on positive numbers.
- The ranking by in-degree, the selector and the reading of fragments from files.
- A reply that is still growing: placeholders, the held-back tail and the word count of a thought.
- The JSON parser of the page is an arbitrary function.
- Keys, signatures, hexadecimal and who is admitted.
