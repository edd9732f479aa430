# Verified models of wavez

wavez runs coding agents: it drives a model turn by turn, applies its edits, indexes the code it works on, gates what
it wrote, and keeps an event log per thread that a daemon serves to clients. This project models the parts of it whose
correctness is hardest to see by reading one function, and proves what they promise.

- **Event log and subscribers** (`EventLog`, `Subscriber`, `Delivery`). An append-only record with a bounded ring over
  it, fanned out to bounded queues. `Log` and `Inbox` are the objects; `Delivery` interleaves appends, offers,
  notifies, subscription, drains and sends one locked section at a time, any number of appends being in flight.
- **Lane splitting** (`FanoutPaths`, `FanoutGroup`, `FanoutSplit`, `Makespan`). Union-find with path halving over
  overlapping paths, then longest-first packing.
- **Edit engine** (`Text`, `Utf8`, `Weave`, `EditTypes`, `EditBatch`, `EditSpans`, `LineEndings`, `EditReplace`,
  `EditLines`, `EditFuzzy`, `EditAttempt`). Every splice of spans that do not overlap is proved to be one and the same
  thing, `Weave.Woven`: their simultaneous replacement. Spans that overlap are replaced one after the other, as long
  as they do not run out of lines.
- **Code index** (`IndexTables`, `CodeIndex`, `IndexConverge`). Budgeted, hash-gated passes over tables, and what they
  converge to.
- **Change gate** (`GateHistory`, `ChangeGate`). Verdicts kept per answer, equal to statements about the whole
  history.
- **Agent run loop** (`RunTrace`, `AgentRun`). Model, router, tools, verifier, review, slots and clock answer
  anything; every run is finite, keeps all of its bounds at once, and stops for a cause of its own.
- **Thread cache** (`ThreadCache`). An incremental fold of the log, equal to reading each field off the whole log.
- **Prompt queue** (`PromptQueue`). A queue under a lock among the goroutines of turns.
- **Cycle runner and ledger** (`CycleRun`, `CycleLedger`). Phases that advance on an observed condition only, and rows
  that lose nothing.

`Outcomes`, `Strings` and `Events` hold what several of these share. Objects whose methods change fields are classes,
and in-place algorithms work on arrays; each method is proved against a function of the old state, and the promises
are lemmas about those functions. Calls into models, tools, databases, parsers and the file system are parameters, or
arbitrary values a method may receive.

## Where documentation and code differ

The code is followed. Each of these has a lemma with the exact condition, and most an input that shows it.

- `internal/fanout/fanout.go:94-97`: a directory is said to overlap everything beneath it. Every cleaned directory
  does but the root `/`, which overlaps only itself (`FanoutPaths.OverlapsInside`, `RootOverlapsOnlyItself`).
- `internal/fanout/group.go:78-80`: a lane's scope is said to be the shortest list that names its work. It is just
  when no path sorts between a directory and its contents (`ScopeMinimal`); `a`, `a-b`, `a/c` keeps all three
  (`ScopeNotMinimal`).
- `internal/eventlog/subscriber.go:65-68`: the channel is said to close when the log closes. Nothing but its
  subscriber's context ends the goroutine that closes it, so a closed log leaves it open (`Delivery.EndsOnCancel`,
  `ClosedAndOpen`).
- `internal/eventlog/subscriber.go:10-13`: `LastSeq` is said to be the log's head. With one appender at a time it is,
  when the mark is sent, exactly if nothing is queued again and no offer is outstanding (`LagTellsHead`); an event
  appended before the drain and offered after it is enough to make it another (`LagBehind`).
- `internal/eventlog/subscriber.go:65-66`: every event after `from` is said to be delivered, and no other. The live
  stream is filtered by the head at subscription, so a `from` beyond the head is not honoured (`OnlyNewer`).
- `internal/eventlog/eventlog.go:157-161`: offers follow the unlock, so order depends on who appends. From any state
  it is kept exactly when all that is on its way follows on and at most the next event is still to be offered
  (`InOrderExactly`, `OneOutstanding`, `OutOfOrder`).
- `internal/edit/replace.go:120-121`: line endings are said to be preserved. An edit is the same edit of the source's
  own bytes exactly when no stretch outside it holds a newline without its carriage return, or there is no CRLF at all
  (`EndingsPreserved`, `MixedEndingsRewritten`, `MixedEndingsKept`).
- `internal/edit/replace.go:521-524`: each of several near matches is said to be reindented as a single one is. A
  single one takes the indentation of each line it faces, one of several is shifted as a whole; they agree exactly
  when that comes to the same indentation for every line (`EditFuzzy.ReindentedAlike`). One anchor and text come out
  one way where the anchor is found once (`ReindentedAlone`) and another where it is found twice (`ReindentedApart`).
- `internal/edit/replace.go:525-535`: spans are replaced from the last back so that earlier ones still lie where they
  were found. Matches of an anchor that repeats itself overlap, and then an earlier one can lie beyond the lines that
  are left, where the code panics; that happens exactly when the spans do not fit (`EditLines.SpliceEverySpan`,
  `EditFuzzy.SpliceFuzzy`). A source, an anchor and a text that do it are in `EditLines.OverlapsRunOut`,
  `EditFuzzy.OverlapPanics` and `EditAttempt.ReplaceAllPanics`.
- `internal/edit/batch.go:70-103`: a path listed twice keeps only the later plan, both being made from the file as it
  was (`WrittenFiles`).
- `internal/codeintel/index.go:176-186`: whole-file search rows dropped while a tree is large are not restored for
  unchanged files once it is small again (`WholeTextsComplete`, `TextsNotRestored`).
- `internal/codeintel/index.go:204-218`: a file whose time and size, or whose hash, are those of its row is taken as
  unchanged. Passes converge to the tree exactly when every file so left alone is (`Converged`, `FaithfulWhen`,
  `HiddenChange`).
- `internal/agent/loop.go:123-124` and `loop.go:1071-1072`: completion is said to mean no call is pending. Calls are
  left pending exactly when the last reply ended its turn and carried some, and then all of them are
  (`PendingAtCompletion`, `CallLeftPending`).
- `internal/agent/loop.go:141-143`: the deadline is said to be computed once. It stays where it was exactly while
  nothing is credited (`DeadlineMoves`, `DeadlineMoved`).
- `internal/app/changegate.go:78-82`: three identical failures are said to name a stuck gate. A gate that fails
  without naming a failure is never stuck (`UnnamedNeverStuck`); otherwise `StuckExactly` says when.
- `internal/daemon/manager.go:505-507`: an interrupting prompt is said to run next. When the turn in flight ends, it
  is the next to start exactly when nothing waited before it and the turn finished on a thread without a cycle
  (`InterruptRunsNext`). It waits behind an earlier prompt (`InterruptWaits`), after a turn the interrupt itself kept
  from being admitted (`InterruptStranded`), and at a cycle's end (`InterruptOutlasted`).
- `internal/daemon/manager.go:554-561`: after a refused admission with prompts waiting, the next prompt sent overtakes
  them (`OrderlyStep`, `SendKeepsOrder`, `RefusalBreaksOrder`).
- `internal/cycle/ledger.go:112-134`: a sweep is said to be merged into an earlier one of its pattern. Its dismissals
  are, the last word on each site standing (`CycleLedger.NeverLost`); an artifact named anew replaces the name before
  it, and an empty one keeps it (`ArtifactNeverLost`).

## Model

| member | source | states |
|---|---|---|
| `EventLog.AfterInMemory` | internal/eventlog/eventlog.go:187-209 | When the ring's oldest Seq is at most from + 1, nothing newer than from has been evicted |
| `EventLog.Log.constructor` | internal/eventlog/eventlog.go:63-115 | Reopening rebuilds the ring as the newest events of the file and the Seq as its last |
| `EventLog.Log.Push` | internal/eventlog/eventlog.go:166-174 | The ring holds the newest events, oldest first, after any push |
| `EventLog.Log.Append` | internal/eventlog/eventlog.go:119-164 | A successful append puts exactly one stamped event on disk and in the ring; any failure leaves the record as it was. A failed flush alone uses up its Seq, and after it or a failed write nothing is appended until the log is reopened |
| `EventLog.Log.Since` | internal/eventlog/eventlog.go:187-209 | The answer is the disk record filtered to Seq > from, whether ring or disk gave it |
| `EventLog.Log.FromRing` | internal/eventlog/eventlog.go:199-208 | Walking the wrapped ring yields its events newer than from in order |
| `EventLog.Log.ReadSince` | internal/eventlog/eventlog.go:211-232 | Reading the file yields its events newer than from in order |
| `Subscriber.Inbox.Offer` | internal/eventlog/subscriber.go:36-50 | A full queue drops the offer, marks the lag and remembers the last Seq; a queue with room takes it |
| `Subscriber.Inbox.Drain` | internal/eventlog/subscriber.go:52-63 | A drain takes everything, lag included, and leaves the queue empty |
| `Delivery.InvStep` | internal/eventlog/subscriber.go:36-126 | Every step of appenders, offerers, notifiers and the forwarder keeps the protocol's invariant |
| `Delivery.InvRun` | internal/eventlog/subscriber.go:36-126 | The invariant holds in every reachable state of every interleaving |
| `Delivery.NoDuplicates` | internal/eventlog/subscriber.go:69-126 | In every interleaving no event is delivered twice, none at or before from, and each is the event the log holds under its Seq |
| `Delivery.NoneMissed` | internal/eventlog/subscriber.go:69-126 | Until something is dropped, a subscriber at rest with no offer outstanding has been sent every event since from |
| `Delivery.NoLostWakeup` | internal/eventlog/subscriber.go:107-125 | A forwarder asleep on a non-empty queue has a notify token waiting or on its way, and the queue never exceeds its bound |
| `Delivery.SerialRun` | internal/eventlog/eventlog.go:157-161 | With one appender at a time, offers reach the queue in Seq order with every drop accounted for |
| `Delivery.CursorGapless` | internal/eventlog/subscriber.go:95-126 | A stream that advances a cursor by successors and lag marks has no unannounced gap |
| `Delivery.InOrder` | internal/eventlog/subscriber.go:95-126 | With one appender at a time Seqs strictly increase, neighbours are adjacent in the log, and what follows a Lagged mark is its successor |
| `Delivery.OutOfOrder` | internal/eventlog/eventlog.go:157-161 | Two appenders can make a subscriber receive Seq 2 before Seq 1: offers follow the unlock |
| `Delivery.InOrderExactly` | internal/eventlog/eventlog.go:157-161 | From any state of the protocol, every continuation without appends is in order with every gap announced exactly when what is on its way follows on and at most the next event is still to be offered |
| `Delivery.OneOutstanding` | internal/eventlog/eventlog.go:157-161 | Where all that was offered came in order, that is exactly when no two offers are outstanding |
| `Delivery.LagTellsHead` | internal/eventlog/subscriber.go:10-13 | With one appender at a time a lag mark about to be sent tells the log's head exactly when nothing is queued again and no offer is outstanding |
| `Delivery.LagBehind` | internal/eventlog/subscriber.go:10-13 | With one appender, a mark tells 2 when the log is at 3, though nothing was appended since the drain |
| `Delivery.EndsOnCancel` | internal/eventlog/subscriber.go:95-126 | In every run the stream has ended exactly when its subscriber cancelled, no other step of the goroutine returning |
| `Delivery.ClosedAndOpen` | internal/eventlog/eventlog.go:234-252 | A closed log leaves its subscriber asleep and its channel open |
| `Delivery.OnlyNewer` | internal/eventlog/subscriber.go:69-93 | Only events newer than from are ever sent, whatever happens, exactly when from is at most the head at subscription |
| `Delivery.BacklogIsSince` | internal/eventlog/subscriber.go:69-93 | The backlog a subscription begins with is what Since answers |
| `FanoutPaths.RootOverlapsOnlyItself` | internal/fanout/fanout.go:94-105 | The file system root overlaps no cleaned path but itself |
| `FanoutPaths.OverlapsInside` | internal/fanout/fanout.go:94-105 | A directory overlaps what it holds exactly when it is not the root |
| `FanoutPaths.UnionPaths` | internal/fanout/group.go:81-101 | The scope names only paths of its tasks, and every path of its tasks is one of them or beneath one |
| `FanoutPaths.ScopeCovers` | internal/fanout/group.go:78-101 | Nothing a lane works on is outside its scope, and nothing else is in it |
| `FanoutPaths.ScopeMinimal` | internal/fanout/group.go:78-101 | The scope is the shortest exactly when no path interrupts a directory's contents in byte order |
| `FanoutPaths.ScopeNotMinimal` | internal/fanout/group.go:78-101 | a, a-b and a/c are all kept though a covers a/c |
| `FanoutPaths.KeptStrict` | internal/fanout/group.go:91-98 | Kept paths are sorted, distinct, and no two neighbours overlap |
| `FanoutGroup.Find` | internal/fanout/group.go:20-27 | Path halving ends, answers the root every node of the tree answers, and leaves an acyclic forest with the same roots |
| `FanoutGroup.JoinPair` | internal/fanout/group.go:29-35 | Linking two roots merges exactly their two trees and keeps the forest acyclic |
| `FanoutGroup.Join` | internal/fanout/group.go:29-35 | After all pairs, two tasks have one root exactly when a chain of overlaps links them |
| `FanoutGroup.ChainAgrees` | internal/fanout/group.go:29-35 | A labelling that agrees on overlaps agrees along chains of them |
| `FanoutGroup.RootsAreComponents` | internal/fanout/group.go:14-64 | A forest that joined only linked tasks and every overlapping pair has the connected components as its trees |
| `FanoutGroup.Group` | internal/fanout/group.go:14-64 | One unit per connected component, holding exactly its tasks in order, their weight and their scope |
| `FanoutSplit.Normalize` | internal/fanout/fanout.go:110-137 | Every task comes back with cleaned paths and a positive weight, or the first without a path is named |
| `FanoutSplit.HeaviestFirstSorts` | internal/fanout/group.go:108-110 | Units are packed from the heaviest down |
| `FanoutSplit.HeaviestFirstStable` | internal/fanout/group.go:108-110 | Units of one weight keep their order |
| `FanoutSplit.LightestLane` | internal/fanout/group.go:118-124 | The lane chosen is a lightest one, and the first of them |
| `FanoutSplit.Pack` | internal/fanout/group.go:107-134 | Each unit goes whole to a lane that was lightest when it came; no more lanes than units |
| `FanoutSplit.MergedHeld` | internal/fanout/group.go:107-134 | Packing neither drops nor repeats a task and keeps the total weight |
| `FanoutSplit.Check` | internal/fanout/fanout.go:77-92 | Accepts exactly the disjoint lanes; otherwise names the first overlapping pair and the two paths |
| `FanoutSplit.SplitPartitions` | internal/fanout/fanout.go:57-72 | Each task is in exactly one lane and the weights add up |
| `FanoutSplit.UnitsDisjoint` | internal/fanout/group.go:14-64 | No path of one unit overlaps a path of another |
| `FanoutSplit.SplitDisjoint` | internal/fanout/fanout.go:57-92 | The lanes of a split pass the overlap check |
| `FanoutSplit.SplitCovered` | internal/fanout/fanout.go:57-72 | Every task path is one of its own lane's paths or beneath one |
| `FanoutSplit.SplitNearOptimal` | internal/fanout/group.go:104-134 | No valid split of the same tasks to n lanes beats this one by more than Graham's factor |
| `FanoutSplit.Split` | internal/fanout/fanout.go:57-72 | For every n at least 1 and every normalizable list: at most n lanes, each task once, weight conserved, covered, disjoint, near-optimal; else the error |
| `Makespan.LoadsSum` | internal/fanout/group.go:126-131 | The lanes together carry every unit's weight once |
| `Makespan.GreedyFitsLarge` | internal/fanout/group.go:107-134 | Units each over a third of the best capacity are packed optimally |
| `Makespan.GreedyBound` | internal/fanout/group.go:107-134 | 3n times any lane longest-first packing builds is at most (4n-1) times the heaviest lane of any assignment of the same units |
| `Makespan.GreedyBoundTight` | internal/fanout/group.go:107-134 | That bound is reached: weights 3, 3, 2, 2, 2 on two lanes |
| `Makespan.Reassign` | internal/fanout/group.go:108-110 | Sorting the units loses no assignment |
| `Makespan.Regroup` | internal/fanout/group.go:14-64 | Assigning units is assigning the tasks in them |
| `Text.JoinSplit` | internal/edit/replace.go:339-341 | Splitting text into lines and joining them gives it back |
| `Text.SplitJoin` | internal/edit/replace.go:529-534 | Joining lines and splitting again gives the same lines |
| `Weave.SpliceFirst` | internal/edit/batch.go:205-208 | Splicing a leftmost edit last is replacing it together with the others |
| `Weave.OneOrder` | internal/edit/batch.go:184-195 | Edits with distinct starts have one ascending listing |
| `Weave.WovenIsInterleaved` | internal/edit/batch.go:205-208 | Source and result are the same untouched gaps around old and new texts |
| `Weave.BuiltWoven` | internal/edit/replace.go:261-291 | Building the result from the left is replacing all at once |
| `EditBatch.CommonPrefix` | internal/edit/batch.go:244-253 | The length of the longest common front |
| `EditBatch.CommonSuffix` | internal/edit/batch.go:255-264 | The length of the longest common end |
| `EditBatch.DifferenceReproduces` | internal/edit/batch.go:225-242 | A located span applied alone gives back the pair's own replacement result |
| `EditBatch.DifferenceTight` | internal/edit/batch.go:225-242 | No byte can be trimmed from either end of a located span |
| `EditBatch.SortByStart` | internal/edit/batch.go:184-184 | The spans by start, in no promised order among equal starts |
| `EditBatch.AdjacentIsEnough` | internal/edit/batch.go:188-195 | Once no two neighbours overlap, no two spans do |
| `EditBatch.ApplyAll` | internal/edit/batch.go:171-211 | Refuses at the first failing pair or an overlap it names; otherwise the result is the simultaneous replacement, with counts and notes |
| `EditBatch.EditsOfBatch` | internal/edit/batch.go:171-242 | The spans spliced are the pairs' own spans, each found in the text as it was |
| `EditBatch.OrderIrrelevant` | internal/edit/batch.go:157-211 | With distinct starts, pairs in any order give one result |
| `EditBatch.RefusedExactly` | internal/edit/batch.go:188-195 | With distinct starts, a batch is refused for overlap exactly when some two of its spans overlap |
| `EditBatch.PlanFile` | internal/edit/batch.go:125-155 | A plan is the batch's result on the file as it is; a missing file and a symlink are refused, and only those for that reason |
| `EditBatch.ApplyToFiles` | internal/edit/batch.go:70-103 | Nothing is written unless every batch resolved; a failed write leaves exactly the files before it written |
| `EditBatch.WrittenFiles` | internal/edit/batch.go:92-100 | Files not named stay; a file named once holds its plan; one named twice holds the later plan only |
| `EditBatch.ScanLines` | internal/edit/batch.go:309-330 | The scans from both ends stop at differing lines and never cross |
| `EditBatch.Summarize` | internal/edit/batch.go:309-330 | No range exactly when nothing changed; otherwise the lines added, removed and spanned by the difference |
| `EditSpans.AtBoundary` | internal/edit/spans.go:150-170 | A column lands between two runes, for any bytes, with at least that many UTF-16 units before it |
| `EditSpans.AtInverse` | internal/edit/spans.go:150-170 | Counting the units before a boundary and asking for that column gives the boundary back |
| `EditSpans.AtDefined` | internal/edit/spans.go:150-170 | A column is accepted exactly when the line has that many units |
| `EditSpans.AtMonotone` | internal/edit/spans.go:150-170 | A larger column is not an earlier byte |
| `EditSpans.PositionLands` | internal/edit/spans.go:114-136 | A position lies within the source, between two runes of it |
| `EditSpans.PositionMonotone` | internal/edit/spans.go:114-136 | A later line and column is not an earlier offset |
| `EditSpans.ApplySpans` | internal/edit/spans.go:64-108 | Refuses an unaddressable span or an overlap, exactly so with distinct starts; otherwise the result is the simultaneous replacement and the count of lines touched |
| `EditSpans.OneResult` | internal/edit/spans.go:88-93 | With distinct starts the unstable sort cannot show |
| `LineEndings.RoundTrip` | internal/edit/replace.go:190-207 | To newlines and back gives the text exactly when every newline had a carriage return |
| `LineEndings.EndingsPreserved` | internal/edit/replace.go:190-207 | Editing the normalized text and restoring the endings is the same edit of the source's own bytes exactly when no stretch outside the edits holds a newline without its carriage return |
| `LineEndings.UneditedPreserved` | internal/edit/replace.go:190-207 | Edited nowhere, a source comes back exactly when it has no CRLF or nothing else |
| `LineEndings.MixedEndingsRewritten` | internal/edit/replace.go:190-207 | An edit elsewhere gives a lone newline a carriage return |
| `LineEndings.MixedEndingsKept` | internal/edit/replace.go:190-207 | An edit over the lone newline leaves every other byte |
| `LineEndings.UntouchedBytesKept` | internal/edit/replace.go:190-221 | A uniformly CRLF source keeps every byte outside the edits |
| `EditReplace.Index` | internal/edit/replace.go:293-308 | The first occurrence from an offset on, or that there is none |
| `EditReplace.FindAll` | internal/edit/replace.go:293-308 | The leftmost occurrences that do not overlap, all of them |
| `EditReplace.LeftmostUnique` | internal/edit/replace.go:293-308 | There is one such list |
| `EditReplace.SpliceEvery` | internal/edit/replace.go:261-291 | Every occurrence is replaced at once; each range starts on the line of the result where that replacement begins; counts are exact |
| `EditReplace.FrontInResult` | internal/edit/replace.go:261-291 | What precedes a replacement in the result, and the replacement, are the result's own front |
| `EditReplace.SpliceExact` | internal/edit/replace.go:327-337 | The single replacement is the replace-all of one occurrence |
| `EditReplace.PrefixOccurs` | internal/edit/replace.go:661-673 | What occurs for a prefix occurs for every shorter one |
| `EditReplace.LongestPrefix` | internal/edit/replace.go:661-673 | Binary search gives the length such that a prefix occurs exactly when it is no longer |
| `EditLines.SpanOverBlanks` | internal/edit/replace.go:449-471 | The span from a start whose non-blank lines are the anchor's, or that there is none |
| `EditLines.CoversOnce` | internal/edit/replace.go:449-471 | A start has at most one end |
| `EditLines.SpansMayOverlap` | internal/edit/replace.go:411-443 | An anchor that repeats itself matches at overlapping spans |
| `EditLines.SpliceSpan` | internal/edit/replace.go:490-519 | One span of lines gives way to the text moved to the indentation of its first line |
| `EditLines.SpliceEverySpan` | internal/edit/replace.go:525-553 | Last-first splicing stays within the lines exactly when no span ends beyond what the later ones leave; the text is then that of replacing them one after the other from the last. Disjoint spans always fit and are replaced all at once, each range starting where its replacement begins |
| `EditLines.OverlapsRunOut` | internal/edit/replace.go:490-535 | Two equal lines against three, replaced by nothing: the second span leaves one line and the first wants two |
| `EditFuzzy.FuzzyMatches` | internal/edit/replace.go:567-588 | Every line the anchor matches from, spacing apart, first to last |
| `EditFuzzy.SpliceReindented` | internal/edit/replace.go:360-390 | A single match is replaced, each line under the indentation of the line it faces; its range is where it landed |
| `EditFuzzy.SpliceOverBlanks` | internal/edit/replace.go:411-443 | All spans that hold the anchor's lines but for blank ones: none is not found, one is replaced, several only when asked for, else refused by line |
| `EditFuzzy.SpliceFuzzy` | internal/edit/replace.go:339-390 | Line by line first, over blank lines next, with the same cases; running out of lines is told apart |
| `EditFuzzy.ReindentedAlike` | internal/edit/replace.go:371-376 | A match is reindented alone as among several exactly when every line comes out under the same indentation |
| `EditFuzzy.ReindentedAlone` | internal/edit/replace.go:360-390 | Two flush lines for two indented ones, found once: each is put under the line it faces |
| `EditFuzzy.ReindentedApart` | internal/edit/replace.go:521-553 | The same anchor and text found twice and replaced in both places: both lines are put under the first |
| `EditFuzzy.OverlapPanics` | internal/edit/replace.go:339-390 | Two equal lines against three, all to be replaced by nothing: the near matches share a line and the outcome is a panic |
| `EditAttempt.DoReplace` | internal/edit/replace.go:244-257 | None found falls back to near matches, one is replaced, several only when asked for, else refused with the line of each |
| `EditAttempt.ReplaceAllPanics` | internal/edit/replace.go:244-257 | Replacing all of "x", "x" by nothing in " x", " x", " x" finds no exact match, falls back to near ones and panics |
| `EditAttempt.Attempt` | internal/edit/replace.go:181-221 | An empty or unchanged anchor is refused; otherwise the outcome is that of the newline form, restored to the source's endings |
| `IndexTables.ClearedSound` | internal/codeintel/index.go:394-409 | Deleting a file's rows leaves no row of its own and every other file's rows intact |
| `IndexTables.FilledSound` | internal/codeintel/index.go:411-443 | Inserting a file's rows gives exactly its extracted symbols in order and one search row each for symbol, path and kept text |
| `IndexTables.DroppedSound` | internal/codeintel/index.go:176-186 | Dropping whole texts touches no other search row |
| `CodeIndex.Store.NextId` | internal/codeintel/index.go:365-378 | A new row's id is in no other row |
| `CodeIndex.Store.DeleteFileIndexRows` | internal/codeintel/index.go:394-409 | Exactly the rows derived from the file go |
| `CodeIndex.Store.InsertFileIndexRows` | internal/codeintel/index.go:411-443 | One symbol row and one search row per symbol, one per path, one per text when kept |
| `CodeIndex.Store.IndexOneFile` | internal/codeintel/index.go:204-259 | The stat gate, then the hash gate, then the budget, then extraction decide; only an indexed file changes the tables, under the id it had |
| `CodeIndex.Store.RemoveStaleFiles` | internal/codeintel/index.go:261-276 | Files off the tree go with all their rows; the rest stay |
| `CodeIndex.Store.Index` | internal/codeintel/index.go:123-155 | A pass is all or nothing and keeps the tables sound; what it defers is what is still out of date, and it defers only after reading some |
| `CodeIndex.Store.DrainPasses` | internal/codeintel/indexer.go:226-233 | Passes end, and unless one failed nothing is out of date afterwards |
| `CodeIndex.PutOff` | internal/codeintel/index.go:229-233 | After a pass the out-of-date files are exactly the deferred ones |
| `CodeIndex.KeptTwice` | internal/codeintel/indexer.go:226-233 | What one pass guarantees of a file survives the next |
| `IndexConverge.Converged` | internal/codeintel/index.go:117-155 | A store with nothing out of date holds exactly the tree, its symbols and search rows and nothing else, exactly when what the passes left alone was right |
| `IndexConverge.FaithfulWhen` | internal/codeintel/index.go:204-218 | It was right exactly when no change hid behind the time and size of its row and none behind an equal hash |
| `IndexConverge.HiddenChange` | internal/codeintel/index.go:204-210 | One change that kept its file's time and size keeps every store the passes settle on from describing the tree |
| `IndexConverge.SameUpToIds` | internal/codeintel/index.go:117-155 | Two stores of one tree are one another under a renaming of file and symbol ids, search rows included, none dangling |
| `IndexConverge.AsFromScratch` | internal/codeintel/indexer.go:220-233 | Repeated passes over a store that was right of what they left alone give what they give from an empty one |
| `IndexConverge.WholeTextsComplete` | internal/codeintel/index.go:172-186 | Below the size limit whole texts are complete exactly when every file left alone had its text there before |
| `IndexConverge.WholeTextsDropped` | internal/codeintel/index.go:172-186 | Above it none is left |
| `IndexConverge.TextsNotRestored` | internal/codeintel/index.go:172-186 | A tree that grew past the limit and shrank back lacks the text of every file that stayed as it was |
| `GateHistory.EmptySignature` | internal/app/changegate.go:281-289 | Only a gate that named no failure has an empty signature |
| `GateHistory.RepeatsAre` | internal/app/changegate.go:226-258 | The stored count is the number of rises of the change count along the one unbroken run of the current failure |
| `GateHistory.RepeatsNext` | internal/app/changegate.go:237-256 | One more answer carries that count on, adds to it, or starts over |
| `GateHistory.StuckExactly` | internal/app/changegate.go:265-276 | A gate is stuck exactly when the change count rose twice along the unbroken run of the failure it still reports |
| `GateHistory.UnnamedNeverStuck` | internal/app/changegate.go:237-256 | A gate that fails without naming a failure is never stuck |
| `GateHistory.FalseAlarmIs` | internal/app/changegate.go:231-235 | Whether an answer passed right after its gate failed, with no change in between, can be told from the gate's last answer alone |
| `GateHistory.AlarmListed` | internal/app/changegate.go:226-235 | A gate is listed exactly when one of its answers passed right after failing with no change in between |
| `ChangeGate.RunState.NoteFalseAlarms` | internal/app/changegate.go:226-258 | Verdicts and false alarms stay what the whole list of answers says |
| `ChangeGate.RunState.Collect` | internal/app/changegate.go:196-220 | A batch joins the history; its fixers' rewrites join the changes after its answers were dated |
| `ChangeGate.RunState.Stuck` | internal/app/changegate.go:265-276 | Names a stuck gate, or there is none in the history |
| `ChangeGate.SoleWriter` | internal/gate/coordinator.go:145-160 | A batch has a writer exactly when it names one and only one |
| `ChangeGate.AttributedOnlyKeeps` | internal/app/changegate.go:376-386 | Beside other runs a failure is handed over exactly when it names a line in a changed file |
| `ChangeGate.Gates.Begin` | internal/app/changegate.go:160-167 | A new run forgets its writer's history and no other's |
| `ChangeGate.Gates.Enqueue` | internal/app/changegate.go:184-192 | A change joins its writer's history and no other |
| `ChangeGate.Gates.Collect` | internal/app/changegate.go:196-209 | A batch joins the history of its one writer and no other |
| `ChangeGate.Gates.Stuck` | internal/app/changegate.go:265-276 | The answer is about the asking writer's history alone |
| `ChangeGate.Gates.FalseAlarms` | internal/app/changegate.go:293-302 | Each false alarm since the last question is told once |
| `ChangeGate.Gates.Alone` | internal/app/changegate.go:360-370 | True exactly when at most one run has changes |
| `ChangeGate.Gates.TakeFeedback` | internal/app/changegate.go:407-418 | Each result is handed over once: all of them to a run alone, its own and the passes beside others |
| `RunTrace.TurnsBounded` | internal/agent/loop.go:940-963 | A run has at most MaxTurns turns |
| `RunTrace.TurnsBeganWithin` | internal/agent/loop.go:940-1171 | Each turn began before the deadline, below the spend ceiling, the stagnation bound, and the verify and review round bounds, all at once |
| `RunTrace.CallsBounded` | internal/agent/loop.go:1211-1252 | At no point has a turn let through more than MaxToolCallsPerTurn calls, and none past the deadline |
| `RunTrace.DeadlineMoves` | internal/agent/loop.go:1138-1171 | The deadline is start plus budget plus credited waits, only moves out, and is where it was exactly when nothing was credited since |
| `RunTrace.DeadlineMoved` | internal/agent/loop.go:1161-1171 | A wait of five moves a deadline of ten to fifteen |
| `RunTrace.NothingAfter` | internal/agent/loop.go:1080-1131 | A run that completed under a verifier was last verified over exactly its final changes, and no tool ran after |
| `RunTrace.NothingAsked` | internal/agent/review.go:76-96 | A run that completed with no change never reached for an edit tool and was not asked for an edit |
| `RunTrace.PendingAtCompletion` | internal/agent/loop.go:1057-1069 | A complete run leaves calls of its last reply unanswered exactly when that reply ended its turn carrying calls; it leaves them all, and none ran |
| `RunTrace.CallLeftPending` | internal/agent/loop.go:1057-1069 | A first reply that ends its turn and asks for a call completes an unchecked run |
| `RunTrace.SumsAre` | internal/agent/loop.go:778-823 | The run's counters are what counting over its whole trace gives |
| `RunTrace.PriceBetween` | internal/agent/loop.go:740-756 | Every input token is billed once: the price lies between all cached and none cached |
| `AgentRun.Run.Drive` | internal/agent/loop.go:940-963 | Whatever the oracles answer, the run ends, its trace kept every bound, it stopped for the cause its stop names, and if that was a bound its changes carry a verdict |
| `AgentRun.Run.Turn` | internal/agent/loop.go:984-1069 | One turn more, within the bounds if the run goes on |
| `AgentRun.Run.RunCall` | internal/agent/loop.go:1211-1249 | Deadline, flood, malformed and repeated calls are caught before a call runs; a malformed or repeated one runs nothing and changes nothing |
| `AgentRun.Run.CheckStagnation` | internal/agent/loop.go:1493-1518 | The run goes on only below the bound on errors in a row; a refusal neither adds to them nor ends them |
| `AgentRun.Run.FinishOrVerify` | internal/agent/loop.go:1080-1114 | Completes only on a pass over the current changes; goes on after a failure only below the round bound |
| `AgentRun.Run.ReviewOrComplete` | internal/agent/review.go:85-119 | An objection is answered only below its bound; an edit request with no change never completes |
| `AgentRun.Run.StopBound` | internal/agent/loop.go:1832-1878 | A bounded run that changed something has the verdict on exactly those changes |
| `AgentRun.Run.AdmitSlot` | internal/agent/loop.go:1138-1155 | Exactly the time waited for a slot is credited, where there is a deadline and the slot was given |
| `AgentRun.Run.CreditHumanWait` | internal/agent/loop.go:1161-1171 | Exactly the time waited for a person is credited, where there is a deadline |
| `ThreadCache.AfterSeen` | internal/daemon/thread.go:215-229 | What is newer than the last event folded in is what the log gained since |
| `ThreadCache.DigestIs` | internal/daemon/thread.go:232-271 | Folding event by event is reading each field off the whole log |
| `ThreadCache.Cache.Apply` | internal/daemon/thread.go:232-271 | An event already folded in changes nothing; a newer one counts once |
| `ThreadCache.Cache.ApplyEditPoint` | internal/daemon/thread.go:277-309 | The edit points are those of the calls since the last prompt, one to a repository |
| `ThreadCache.Cache.ApplyTiming` | internal/daemon/thread.go:367-378 | Turns are the usage events since the last prompt, timed from it |
| `ThreadCache.Cache.Sync` | internal/daemon/thread.go:215-229 | After a sync the cache is that of the whole log, however much the ring has evicted |
| `ThreadCache.Cache.Reading` | internal/daemon/thread.go:232-378 | State, last 64 samples, usage totals, turns, timing, edits, phase, step, archived flag and compactions as the log alone determines them |
| `PromptQueue.Thread.Send` | internal/daemon/manager.go:492-518 | A running thread queues the prompt and names the turn an interrupt is to cancel; an idle one starts it |
| `PromptQueue.Thread.DrainPending` | internal/daemon/manager.go:643-652 | The oldest waiting prompt starts |
| `PromptQueue.Thread.Finished` | internal/daemon/manager.go:585-602 | A turn's end starts the next prompt, except on a thread that runs a cycle |
| `PromptQueue.Thread.Refused` | internal/daemon/manager.go:554-561 | A refused turn leaves the queue as it is |
| `PromptQueue.InvStep` | internal/daemon/manager.go:492-603 | Every step of every goroutine keeps at most one turn under way, and exactly while the thread runs |
| `PromptQueue.OneAtATime` | internal/daemon/manager.go:492-603 | In every interleaving loop runs never overlap and no accepted prompt is lost |
| `PromptQueue.InterruptsReachBack` | internal/daemon/manager.go:498-514 | An interrupt cancels a turn that had begun when its prompt was accepted, never the prompt's own turn or a later one |
| `PromptQueue.InterruptRunsNext` | internal/daemon/manager.go:498-602 | When the turn in flight ends, in whatever way and whatever was sent in between, the interrupting prompt is what starts exactly when nothing waited before it, the turn was not refused, and the thread runs no cycle |
| `PromptQueue.InterruptStranded` | internal/daemon/manager.go:554-561 | An interrupt before admission makes the admission fail; the prompt is left waiting and a later one starts |
| `PromptQueue.InterruptOutlasted` | internal/daemon/manager.go:659-667 | On a thread that runs a cycle the turn's ordinary end leaves it waiting |
| `PromptQueue.InterruptWaits` | internal/daemon/manager.go:498-514 | A third prompt interrupts the first, and the second runs next |
| `PromptQueue.OrderlyStep` | internal/daemon/manager.go:545-603 | A step breaks first in first out exactly when it ends a turn and leaves prompts waiting |
| `PromptQueue.FirstInFirstOut` | internal/daemon/manager.go:492-603 | Through a whole run, started then pending is accepted in order and an idle thread has nothing waiting, exactly when no turn ended that way |
| `PromptQueue.GrantedInOrder` | internal/daemon/manager.go:492-603 | With no cycle and no refused admission that is always |
| `PromptQueue.SendKeepsOrder` | internal/daemon/manager.go:492-518 | A send keeps the order exactly when the thread runs or nothing waits |
| `PromptQueue.RefusalBreaksOrder` | internal/daemon/manager.go:554-561 | A refused admission lets a later prompt overtake one that waits |
| `CycleLedger.Ledger.RecordHypothesis` | internal/cycle/ledger.go:96-110 | Hypotheses only grow, and a cause and verdict already there is refused |
| `CycleLedger.Ledger.RecordSweep` | internal/cycle/ledger.go:115-141 | One row to a pattern, holding the last word on every site recorded for it and the last artifact named |
| `CycleLedger.MergeDismissals` | internal/cycle/ledger.go:154-183 | Merged dismissals are by site, nothing invented, the last word on each site among them |
| `CycleLedger.NeverLost` | internal/cycle/ledger.go:112-141 | A site once dismissed stays accounted for in its pattern's row |
| `CycleLedger.ArtifactNeverLost` | internal/cycle/ledger.go:112-141 | A sweep that named an artifact, dismissals or not, leaves its pattern's row with the artifact of the last sweep to name one |
| `CycleRun.MergeChanges` | internal/cycle/cycle.go:106-127 | One entry to a path, the last made to it, old paths keeping their place |
| `CycleRun.CompleteExactly` | internal/cycle/run.go:109-151 | A cycle completes exactly when every phase's condition held |
| `CycleRun.HeldLast` | internal/cycle/run.go:157-213 | What held is the phase's last attempt |
| `CycleRun.UnmetExactly` | internal/cycle/run.go:109-213 | Otherwise it stopped at a phase that used all its attempts and held in none, every earlier phase having held and no later one driven |
| `CycleRun.RowsGrow` | internal/cycle/run.go:157-213 | From attempt to attempt hypotheses and recorded sweeps only grow |
| `CycleRun.NoSiteLost` | internal/cycle/run.go:157-213 | A site dismissed by one attempt is accounted for in the state every later attempt is judged on |
| `CycleRun.NoArtifactLost` | internal/cycle/run.go:157-213 | An artifact named by one attempt leaves its pattern with one in the state every later attempt is judged on |
| `CycleRun.RunPhase` | internal/cycle/run.go:157-213 | Attempts in order until one holds or the bound is reached, their turns, calls, spend and changes accounted for |
| `CycleRun.Run` | internal/cycle/run.go:109-151 | The outcome is complete exactly when the last phase held; phases, totals, changes and rows are those of the attempts made |
| `CycleRun.Validate` | internal/cycle/cycle.go:64-76 | Exactly a cycle with phases, each with an exit, is run |

## Left out

- `EventLog.Log.Append`: requires the next Seq to fit in 64 bits. A write or flush that fails leaves nothing in the
  file here; a line it may have written in part, or whole, is not modelled.
- `EventLog.Log.constructor`: the file is the sequence of its events; torn last lines and decoding are not modelled.
- `FanoutSplit.Split`: weights are unbounded here and do not wrap as machine integers do. Path cleaning and name
  trimming are a parameter.
- `EditBatch.ApplyAll`: the search for one pair is a parameter (`Replacer`). Which of several spans with one start
  comes first depends on an unstable sort and is left open.
- `EditAttempt.Attempt`: the second try with repaired character references, and what a report of no match says of the
  closest one, are not modelled. Collapsing a line's spacing is a parameter.
- `EditBatch.ApplyToFiles`: atomic writes, permissions and checks on symlinked parents are not modelled; a file is its
  text.
- `EditLines.SpliceEverySpan`: of spans that overlap and still fit, the text and the counts are stated; that the
  ranges reported for them tell where the text landed is not.
- `GateHistory.EmptySignature`: nothing is stated about two different sets of failures flattening to one text.
- `CodeIndex.Store.Index`: walking directories, the size cap on a file, and the counts of symbols and oversized files
  are not modelled, nor are edges and coverage. The content hash and extraction are parameters.
- `IndexConverge.AsFromScratch`: times and sizes are outside the renaming; a row whose hash matched keeps its old
  ones.
- `IndexConverge.SameUpToIds`: whole-text rows are outside the renaming; they are the subject of `WholeTextsComplete`.
- `ChangeGate.Gates.TakeFeedback`: rendering of results to text, and the answers of Status, Changed and Covers, are
  not modelled; the inbox channel and the runner are outside.
- `AgentRun.Run.Drive`: transcripts, compaction, nudges, finish checks, checkpoints and prompt wording are not
  modelled; prices are reals; which prose reads as a question or an announcement is arbitrary. A failed log write ends
  the run as `Broken`, with nothing further said.
- `ThreadCache.Cache.Apply`: spend is left out, since it depends on whether the process ran the turn; details of
  events are taken as decoded.
- `PromptQueue.Thread.Send`: admission, parking and release are steps that succeed or fail; nothing is claimed about
  how often a release happens.
- `CycleRun.Run`: prompts, logging of phases and rows, and when a sweep counts as changed are not modelled. Conditions
  and drivers answer anything.
- The router, the scheduler, leases, the gate runner, sockets, flags, configuration, SQLite, search ranking,
  tree-sitter and the version control commands are not part of this model.
- Undo and restore, diagnostics, benchmarks and word lists would add only easy members.
