# The research scientist: a verified model

The repository runs a research "scientist": a language model that works in an
episode of tool calls, hands out work to assistant seats, keeps a memory and a
public record, and is watched through a small web observatory. Processes are
killed and restarted at any moment, and everything that matters lives in
append-only files. This project models that machinery in Dafny and proves what
it keeps over every run, kill and restart.

`dafny verify dfyconfig.toml` checks the whole project.

| file | models |
|---|---|
| `Basics`, `Messages` | strings, sorted sets; messages, tool-call/result pairing |
| `NativeTools` | from a model reply to actions and wire messages |
| `Session`, `WireLog` | repair of a replayed log; the append-only wire file, with kills |
| `Context` | compaction and the judgment note, both in place on the live list |
| `Course` | what an episode says, sends and how it ends, told from its turns alone |
| `Simulation`, `Episode` | the live list against the wire; class `Scientist`: episodes, kills, resumes |
| `ListeningDoor` | validation of a conclusion and the three refusals |
| `Engagements`, `AssistantRuntime` | engagement directories as values; class `InWorldAssistant`: every verb, kill and restart |
| `LineReader`, `DeltaStream` | classes `LineCursor`, `DetailIndex` and `Observatory`, and a follower of its stream |
| `JsonRows` | rows taken from the lines of a file, and numbers dealt by counting them |
| `ResearchMemory`, `LocalLedger` | the event log, its fold and its writer; class `Ledger` |
| `ReplyAssembly`, `ReplyLaws` | two decoders of streamed replies and what a reply depends on |
| `TreeSearch`, `GitStatus`, `Uptime` | bounded tree walk, status parser, uptime axis |

What the outside world does is a parameter or an arbitrary input: model
replies, observations, clocks, which seats exit and when, what a reader finds
in a file, how JSON text is taken, where a process is killed. A method with a
loop or a mutable object in the source is a method or a class here, proved
against functions whose own laws are the lemmas.

## Assumptions

- Of a turn with calls (`SoundTurn`): the arguments leave `tool_call_id` alone
  (`NativeTools.TurnPairsIffIdsAgree` says why they must), neither the call
  message nor its results carry the judgment marker, and the call message holds
  no raw line separator. What is said about windows and the note in place
  (`clean`) asks further that no text holds a separator or the marker. A kill may
  cut an append anywhere: before or behind the creation of the file, inside the
  record, behind a raw separator of it, before its newline.
- Verbs of the engagement runtime run one at a time, and a collection is atomic
  except where a kill is written out (`DieCollecting`, `DieWriting`,
  `DieDelivering`, `DieLaunching`).
- Durations are not negative and database stamps are sorted; a directory names
  each entry once, by a name that is not empty and holds no slash.

## Where the code and its documentation disagree

The model follows the code.

- A raw U+0085, U+2028 or U+2029 is left as it is by the JSON writer and splits
  the line on reading. A call message lost this way leaves its results orphaned
  on replay (`WireLog.TurnSurvivesReplay`, exactly when); a memory row lost this
  way is an accepted call with no effect (`ResearchMemory.WriterAgreesWithFold`),
  and its id is dealt again. Record ids and revision numbers are dealt by
  counting rows, and a lost row still counts when a piece of it, such as `{}`
  between two separators, is an object: they are unique exactly while every row
  gives something back (`JsonRows.NumbersUniqueExactly`).
- A kill in the middle of an append costs the next process its first record too;
  the comments speak of one line. Behind a finished line the next record, if it
  is one line, is read back exactly when no byte of the cut one was written or
  the cut fell right behind a raw separator of it; behind a torn line exactly in
  the second case (`WireLog.NextAppendReadBackExactly`). The list a process
  resumes with, before it is compacted, is a window on its wire exactly when the
  last line was finished (`Episode.ResumeWindowExactly`).
- A process that starts afresh puts its framing on the wire only when there is no
  wire file (`Episode.FreshStartWindowExactly`). After a kill right behind the
  creation of the file the opening is never recorded, and when it opens with
  user messages no list that process sends is a window on the wire
  (`Episode.AheadIsNoWindow`, `Episode.Scientist.RunEpisode`). A start with a
  conclusion on file records no opening either
  (`Episode.ConcludedRestartWindowExactly`).
- `_compact_native` promises a window within budget; it never brings one back
  within budget (`Context.CompactionFitsOnlyIfItFitted`).
- A tool result or call message that holds the marker text is dropped as if it
  were a note; pairing then survives exactly when whole turns are marked
  (`Context.UpsertKeepsPairingExactly`).
- The record promises each report exactly once; a kill between the row and the
  digest adds a row. Delivery is called exactly-once; a kill between the marker
  and the reader loses the report. `AssistantRuntime.InWorldAssistant.Run` counts
  both: rows stay within one plus the collections cut short, and each marker
  stands for one report handed out or one lost.
- A kill in the middle of writing `digest.json` leaves a file that hides the
  engagement from every sweep and is never mended: its report is handed out by
  none of the verbs, `wait` in its any mode takes it for an arrival and returns
  at once (`AssistantRuntime.InWorldAssistant.WaitForSeats`), and a torn report of
  a Reviewer still opens the door (`AssistantRuntime.DeliveryAcceptedExactly`).
- Call ids stay fresh across restarts exactly while no number passes 999
  (`Engagements.RecoveredCounter`, `Engagements.NumbersRunOut`).
- A file emptied and rewritten past the read offset between two polls goes
  unnoticed by the line cursor (`LineReader.RewriteGoesUnnoticed`); a poll
  follows the file exactly when it starts again or the file still begins with
  what was read (`LineReader.LineCursor.Poll`).

## Model

| member | source | states |
|---|---|---|
| Session.CompleteDanglingCalls | scientist/scientist_session.py:122-151 | the repair loop computes the recursive repair, whose laws follow |
| Session.MarkersInOrder | scientist/scientist_session.py:154-163 | the i-th synthetic result answers the i-th open id in sorted order, with the interruption text |
| Session.RepairPairs | scientist/scientist_session.py:122-129 | the repaired log is paired if and only if no result of the log was an orphan |
| Session.RepairComplete | scientist/scientist_session.py:122-129 | repair is the identity on a complete log |
| Session.RepairIdempotent | scientist/scientist_session.py:122-151 | repairing twice changes nothing, whatever the log |
| Session.RepairAppend | scientist/scientist_session.py:122-151 | repair(w + v) = repair(w) + repair(v) whenever v starts a turn |
| Session.RepairKeeps | scientist/scientist_session.py:122-151 | the log is a subsequence of its repaired view: repair only inserts |
| Session.RepairAnswersEveryCall | scientist/scientist_session.py:122-163 | for any log, each call id is answered before the next message that is not a result |
| WireLog.LoadWireMessages | scientist/scientist_session.py:97-119 | the loader returns the repaired readable records of the file |
| WireLog.TornTailSwallowsNextRecord | scientist/scientist_session.py:82-119 | a record whose newline was cut off is replayed at first and lost with the next append |
| WireLog.AppendReadBackExactly | scientist/scientist_session.py:82-119 | an append is read back if and only if the file ended in a finished line and the record is one line |
| WireLog.NextAppendReadBackExactly | scientist/scientist_session.py:82-119 | after a kill in an append, wherever it fell, the next record is read back if and only if it is one line and either the last line was finished and no byte of the cut record was written, or the cut fell right behind a raw separator of it |
| WireLog.KillLeavesTailClosedExactly | scientist/scientist_session.py:82-119 | which kills leave a file that ends in a finished line, in the reader's sense |
| WireLog.TurnSurvivesReplay | scientist/scientist_session.py:82-119 | a turn written to the wire is replayed without an orphan if and only if its call message is one line or it has no readable result |
| NativeTools.NativeActions | scientist/native_tools.py:844-860 | one action per call in order, the parsed arguments overriding the two keys |
| NativeTools.TurnPairsIffIdsAgree | scientist/native_tools.py:844-904 | the wire turn of a reply is paired if and only if the ids the actions carry are the ids of the calls |
| Basics.SortedIsOrdered | scientist/scientist_session.py:154-163 | the synthetic results of a repair are inserted in the order of their ids: sorted is ascending |
| Context.CharsIsTheSum | scientist/agent.py:526-534 | the size of a window is the sum of the text lengths of all its messages |
| Context.ShedStops | scientist/agent.py:531-541 | shedding stops at the final turn or one turn short of fitting; whatever was shed, the rest is over budget |
| Context.CompactionFitsOnlyIfItFitted | scientist/agent.py:504-542 | the kept window is within budget exactly when there was nothing to shed |
| Context.CompactionMayExceedBudget | scientist/agent.py:535-541 | a window over budget with a turn left to shed may be kept whole |
| Context.CompactionKeepsPairing | scientist/agent.py:509-515 | compaction keeps call/result pairing |
| Context.CompactionIdempotent | scientist/agent.py:504-542 | compacting twice changes nothing |
| Context.UpsertPlacesNote | scientist/agent.py:485-501 | after an upsert the judgment on file is there once, before the first assistant, and no other note is |
| Context.UpsertKeepsUnmarked | scientist/agent.py:485-501 | an upsert changes nothing but notes |
| Context.CompactionKeepsNote | scientist/agent.py:485-542 | the note survives compaction |
| Context.UpsertKeepsPairingExactly | scientist/agent.py:485-501 | an upsert keeps a paired list with distinct call ids paired if and only if marked messages make up whole turns |
| Episode.WithinBudget | scientist/agent.py:531-541 | the loop over turn boundaries computes the shed suffix |
| Simulation.WindowCompact | scientist/agent.py:504-542 | compaction keeps the live list a window on the replayed wire |
| Simulation.ReplayIsGood | scientist/scientist_session.py:97-151 | any wire an episode or a kill can leave replays to a paired list |
| Simulation.ReplayAppend | scientist/scientist_session.py:82-151 | replaying a log with whole turns appended is the old replay with these turns |
| Course.DeliveredExactly | scientist/agent.py:823-850 | a turn concludes if and only if it brings one call alone, acting as deliver_world or abstain, nothing raises, and the door lets it through |
| Course.AttemptsInOrder | scientist/agent.py:823-834 | the attempts at the door are those of the turns with a lone terminal call, in the order of the turns |
| Episode.AheadIsNoWindow | scientist/agent.py:727-741 | notes aside, a list with more before its first assistant message than the replay, with turns in both or neither, is no window on it; every list of a process that opens with user messages over a file with nothing to replay is such a list |
| Episode.ResumeWindowExactly | scientist/cli.py:294-310 | a resumed list, before compaction, is a window on its wire if and only if the last line of the wire was finished |
| Episode.FreshStartWindowExactly | scientist/agent.py:721-741 | a process with nothing to replay begins with its framing on file, and a window, if and only if there was no wire file |
| Episode.ConcludedRestartWindowExactly | scientist/cli.py:294-315 | a start with a conclusion on file begins, whatever its opening, with a window if and only if there was no wire file or the wire replays to the same preamble and its turns end in those of the opening |
| Episode.Scientist.CompactNative | scientist/agent.py:504-542 | the in-place edit leaves the preamble and the shed suffix |
| Episode.Scientist.UpsertJudgmentMessage | scientist/agent.py:464-501 | the in-place edit leaves the unmarked messages with the current note before the first assistant |
| Episode.Scientist.TakeToolTurn | scientist/agent.py:867-889 | the call message holds each call's id, name and argument text, the i-th result answers the i-th call with its own observation; the turn reaches list and wire whole and keeps the window, or stops where something raises or it is killed, leaving a wire to resume from |
| Episode.Scientist.KnockAtTheDoor | scientist/agent.py:823-865 | the verdict is the door's on the whole history of attempts, and refusals are counted by it |
| Episode.Scientist.RunEpisode | scientist/agent.py:700-909 | whatever the turns bring, whatever raises and wherever it is killed: the wire gains the script of the turns, cut at the append that kills it; every list sent is what the turn before left plus the notices of its own, arrivals last, it is paired, with the note in place, a window if the process began framed and none if it began bare; the attempts are those of the turns that knock, and the episode ends concluded if and only if it is not killed and the last turn went through the door |
| Episode.Scientist.Live | scientist/cli.py:294-357 | one process from any wire a kill can leave, resumed, fresh or with a conclusion on file: it puts the resume note and the script of its episode on the wire, as far as it lives; its lists are good, windows if it found no wire file or resumed a finished line, and never windows if it opened with user messages over a file with nothing to replay |
| Episode.Scientist.Run | scientist/cli.py:294-357 | over any number of processes, kills of every form, exceptions and resumes every list ever sent to the model is paired, and the final wire replays to a paired list |
| ListeningDoor.RefusalsAreCapped | scientist/agent.py:826-865 | refusals of any attempt history are the lesser of three and the deliveries that deserved a hearing and had none |
| ListeningDoor.AcceptedExactly | scientist/agent.py:403-447 | an attempt is accepted if and only if it is well formed and, for a delivery, a reviewer was heard or three refusals already happened |
| AssistantRuntime.InWorldAssistant.ReviewerHeardAfter | scientist/assistant_tools.py:419-447 | true exactly when some Reviewer directory finished after the given moment, by its digest or, torn, by its time stamp |
| AssistantRuntime.InWorldAssistant.ValidateDelivery | scientist/agent.py:403-447 | the verdict on a delivery is the door's, the look-back read off the directories |
| AssistantRuntime.DeliveryAcceptedExactly | scientist/agent.py:403-447 | after any attempts, a delivery is accepted if and only if it is well formed and a Reviewer engagement finished after the last write or three deliveries went unheard |
| AssistantRuntime.InWorldAssistant.Collect | scientist/assistant_tools.py:863-999 | the finalizer writes digest and record once and touches no other engagement; a torn digest is archived again; without a hint the status is done if the transcript parsed and unparsed if not, with one it is the hint if there was work and failed if not |
| AssistantRuntime.InWorldAssistant.DieWriting | scientist/assistant_tools.py:359-405 | a kill while the digest is written leaves the record row and a torn file |
| AssistantRuntime.InWorldAssistant.Launch | scientist/assistant_tools.py:554-831 | a started seat gets a fresh id and a manifest; a refused one leaves every other engagement alone, and a directory of its own exactly when the refusal comes after its birth |
| AssistantRuntime.InWorldAssistant.Sweep | scientist/assistant_tools.py:1014-1051 | exactly the engagements that exited or outlived their box are collected: those still alive as timed out or failed, the others as done or unparsed |
| AssistantRuntime.InWorldAssistant.TakeReports | scientist/assistant_tools.py:1081-1104 | hands out exactly the undelivered reports in the order of their names, marking each |
| AssistantRuntime.InWorldAssistant.Engage | scientist/assistant_tools.py:1113-1130 | returns its own report and no other; the fallback is never taken |
| AssistantRuntime.InWorldAssistant.WaitForSeats | scientist/assistant_tools.py:1137-1171 | waits terminate, unbounded ones by the latest box expiry, and leave no finished report undelivered; one for any arrival returns with one, with nothing running, or at once because a torn report is on disk; a bounded one pauses only while its bound is not over, and returns with seats running only once it is |
| AssistantRuntime.InWorldAssistant.ContinueEngagement | scientist/assistant_tools.py:1173-1225 | no two unfinalized engagements share a session |
| AssistantRuntime.InWorldAssistant.CancelEngagement | scientist/assistant_tools.py:1227-1262 | finalizes exactly the one asked for, as cancelled or, without work, failed, and its report is the result |
| AssistantRuntime.InWorldAssistant.ShutdownPending | scientist/assistant_tools.py:1264-1284 | leaves nothing pending and marks nothing read |
| AssistantRuntime.InWorldAssistant.Reconcile | scientist/assistant_tools.py:1286-1310 | a new process leaves nothing pending and takes its counter off the directories |
| AssistantRuntime.InWorldAssistant.Run | scientist/assistant_tools.py:863-1310 | over all verbs, kills and restarts each engagement only moves forward, each marker stands for one report handed out or one a kill lost, record rows stay within one plus the collections cut short, and a torn report is never handed out |
| Engagements.RecoveredCounter | scientist/assistant_tools.py:1293-1300 | the recovered counter covers every directory if and only if no number passes 999 |
| Engagements.NumbersRunOut | scientist/assistant_tools.py:349-352 | with 999 and 1000 on disk, the next id dealt after a restart exists already |
| LineReader.NothingLost | scientist/ui/reader.py:101-175 | lines and open tail are all of the bytes, in order |
| LineReader.LinesOfChunk | scientist/ui/reader.py:136-175 | reading in chunks finds the lines of the whole |
| LineReader.RecordsAreLines | scientist/ui/reader.py:142-175 | records are exactly the complete lines that decode |
| LineReader.RecordsExactly | scientist/ui/reader.py:142-175 | a record stands for each stretch of bytes from the start of the file or a line to the next newline that decodes, its value what those bytes decode to |
| LineReader.RecordIdsAreUnique | scientist/ui/reader.py:142-175 | record ids are unique and their lines in file order |
| LineReader.RecordReadsBack | scientist/ui/reader.py:187-230 | offset and length of a record read back its raw bytes from any longer file |
| LineReader.RewriteGoesUnnoticed | scientist/ui/reader.py:101-135 | a concrete rewrite between two polls after which the cursor has not started again and holds lines the file does not |
| LineReader.RecordsOf | scientist/ui/reader.py:142-175 | the loop over a chunk's lines yields the records and the offset of the open tail |
| LineReader.LineCursor.Poll | scientist/ui/reader.py:101-175 | a poll yields the records of the bytes it reads and keeps its offsets in step; with the file open, what was consumed is how the file begins if and only if it started again from byte 0 or that was so before |
| LineReader.LineCursor.Follow | scientist/ui/reader.py:101-175 | over every poll schedule on a growing file, some polls finding it missing or unreadable, nothing is reset and the records are those of the bytes read so far |
| LineReader.LineCursor.Drain | scientist/ui/reader.py:101-175 | polling reaches the end of the file, for every read size above zero |
| LineReader.RegisterThenRead | scientist/ui/reader.py:187-230 | a registered record reads back its own bytes, cut only by the limit, however the file has grown |
| DeltaStream.Observatory.PollOnce | scientist/ui/server.py:43-59 | ids go up by one per delta and the window keeps the last 10000 |
| DeltaStream.Observatory.EventsAfter | scientist/ui/server.py:61-82 | the answer to a cursor is what is owed: all later deltas when it is covered, a snapshot demand at the newest id when it is not |
| DeltaStream.OneReply | scientist/ui/server.py:61-82 | one answer continues the cursor without gap or repeat, and demands a snapshot only when it is not covered; a null cursor gets the whole window |
| DeltaStream.Follow | scientist/ui/server.py:213-233 | a follower receives contiguous rising ids between snapshot demands; it is sent one demand for a cursor not covered at first and one for each poll that pushes the whole window out between two looks, and no other |
| ResearchMemory.MergedGrows | scientist/ledger.py:240-248 | evidence gains exactly the references given, keeps its order, gains none twice |
| ResearchMemory.WriterAgreesWithFold | scientist/ledger.py:205-401 | an accepted call changes the projection at its own item only and as requested, and the status answered is the one then on file, if and only if its rows are read back; a rejected call leaves the log alone |
| ResearchMemory.AcceptedNewExactly | scientist/ledger.py:284-330 | a new item is accepted if and only if it has content, references that say something, and no status, active, parked with a reason or closed with a scope |
| ResearchMemory.AcceptedChangeExactly | scientist/ledger.py:284-390 | a change is accepted if and only if the item exists, what is given is well formed, a move has its grounds, and there is something to change |
| ResearchMemory.NewItemOnFile | scientist/ledger.py:205-346 | a new item whose row is read back holds the texts given, stripped, the status named, and its reason or scope |
| ResearchMemory.ChangedItemOnFile | scientist/ledger.py:205-401 | a changed item whose rows are read back holds what was given, keeps the rest, and its last event is the move that was named |
| ResearchMemory.LostCreateIsDealtAgain | scientist/ledger.py:257-263 | a lost new item leaves no trace and its id goes to the next one |
| ResearchMemory.SeparatorLosesTheRow | scientist/ledger.py:52-76 | an accepted call whose row is lost exists |
| ResearchMemory.RefsOnlyGrow | scientist/ledger.py:240-248 | over any later rows, short of a second create, no reference on file is taken back |
| ResearchMemory.NextIdIsNew | scientist/ledger.py:257-263 | a new item never takes over an existing one |
| LocalLedger.EveryReachableLogIsWellKept | scientist/ledger.py:274-401 | every log reachable by calls from the empty one is well kept |
| LocalLedger.CreatedInOrder | scientist/ledger.py:257-263 | in a well-kept log the created ids are R1, R2, ... in file order |
| LocalLedger.EventsFollowTheirCreate | scientist/ledger.py:302-396 | every later event refers to an item created before it |
| LocalLedger.HistoryIsItsEvents | scientist/ledger.py:205-255 | each item's history is its events with the create first, and its status was last set by an event that carries the reason or the scope |
| JsonRows.CountRows | scientist/ledger.py:52-70 | the loop counts the pieces of every line that are objects |
| JsonRows.NumbersUniqueExactly | scientist/ledger.py:684-713 | numbers dealt by counting rows are unique if and only if every row before the last gives back at least one |
| JsonRows.WholeRowsAreCounted | scientist/ledger.py:684-713 | while all rows are one line each they are numbered one, two, three |
| JsonRows.SplitRowYieldsNone | scientist/ledger.py:52-70 | a row cut in two by a separator counts for nothing when neither half is an object |
| JsonRows.ObjectPieceStillCounts | scientist/ledger.py:52-70 | a cut row counts once when a piece `{}` stands between its separators |
| LocalLedger.Ledger.MemoryItems | scientist/ledger.py:205-255 | the loop computes the fold of the readable rows |
| LocalLedger.Ledger.NextMemoryId | scientist/ledger.py:257-263 | one more than the highest number on file |
| LocalLedger.Ledger.Remember | scientist/ledger.py:274-401 | log and answer after a call are those the writer's laws speak of; active, parked and closed answer so, and that status is on file when the rows are read back |
| LocalLedger.Ledger.ReviseResearchState | scientist/ledger.py:468-523 | the view is all or nothing, numbered by the rows the file gives back, and each update lands or fails on its own |
| LocalLedger.Ledger.NoteRecord | scientist/ledger.py:684-713 | appends one row numbered one more than the rows the file gives back |
| ReplyAssembly.SdkReply | scientist/model.py:307-350 | the chunk decoder gives the reply the chunks stand for |
| ReplyAssembly.StdlibReply | scientist/model_stdlib.py:196-264 | the line decoder gives the reply of the chunks its lines stand for, unless the connection dies first |
| ReplyAssembly.TakeRawChunk | scientist/model_stdlib.py:216-250 | the body of its loop, type checks and all, refines what the chunk stands for |
| ReplyAssembly.AssembleStreamReply | scientist/model.py:353-384 | text joined, named calls by index, an empty reply reported with its evidence |
| ReplyLaws.ReplyHolds | scientist/model.py:307-406 | a reply holds the joined text and reasoning and the last usage; its k-th call has the last id, the joined name and the joined argument text of its index's fragments, parsed by the reader or, when blank, no keys; an empty one its evidence |
| ReplyLaws.LastIdIs | scientist/model.py:339-340 | the id of a call is the last that is not empty among its fragments |
| ReplyLaws.CallsByAscendingIndex | scientist/model.py:367-371 | the calls are those of the named indices, each once, in ascending order |
| ReplyLaws.EmptyExactly | scientist/model.py:372-384 | a reply is empty if and only if its text is blank and no fragment ever named a function |
| ReplyLaws.ReplyDependsOn | scientist/model.py:307-384 | a reply depends on joined content and reasoning, last usage and finish, and each index's own fragments |
| ReplyLaws.NeighboursMaySwap | scientist/model.py:331-347 | fragments of different indices may change places |
| ReplyLaws.ArgumentsMaySplit | scientist/model.py:331-347 | argument text may be cut anywhere |
| ReplyLaws.StreamingIsTransparent | scientist/model.py:307-384 | any chunking gives the reply that would have come in one chunk with one fragment per call |
| ReplyLaws.DecodersAgree | scientist/model_stdlib.py:196-264 | the two decoders, each with its own loop, give equal replies for the same chunks |
| ReplyLaws.PrintedStreamReadsBack | scientist/model_stdlib.py:203-216 | a printed stream is read back whole, whatever follows its end mark |
| ReplyLaws.NoiseIsSkipped | scientist/model_stdlib.py:203-218 | lines that carry nothing may stand anywhere |
| TreeSearch.WalkMeetsAll | scientist/world.py:411-437 | the stack walk meets the same files as the recursion over the tree, as often |
| TreeSearch.WalkIsTheTree | scientist/world.py:411-437 | the walk meets a file if and only if a path leads to it, and meets it once |
| TreeSearch.ScanDirectory | scientist/world.py:421-435 | one directory read to its end or to the cap |
| TreeSearch.Search | scientist/world.py:439-471 | matches are a prefix of all hits; a report claims completeness exactly when no deadline was met and the hits stay below the cap, and then it holds all of them |
| TreeSearch.FindFiles | scientist/world.py:439-483 | every match is a file of the tree that fits, none is given twice, and a complete report leaves none out |
| TreeSearch.SlashJoinedIsInjective | scientist/world.py:446-448 | two paths a tree can hold are never shown alike |
| GitStatus.StatusPaths | simpleevo/assistant/git_worktree.py:325-345 | for any text: the paths its fields name, each once, in first-occurrence order |
| GitStatus.FirstsInOrder | simpleevo/assistant/git_worktree.py:325-345 | what each-once, first-occurrence order means, against the position of first occurrences |
| GitStatus.ParsePrinted | simpleevo/assistant/git_worktree.py:325-345 | the parser, given a printed list of entries, returns their paths each once in first-occurrence order |
| GitStatus.PrintedStatusReadsBack | simpleevo/assistant/git_worktree.py:325-345 | from any printed list of entries exactly their paths are read back, rename and copy sources included |
| Uptime.UptimeSegments | ablation/plot.py:195-210 | the backward walk gives spans in order without overlap, each as long as its generation ran, each ending at its death bound |
| Uptime.UptimeAxis | ablation/plot.py:213-238 | the value at a time is the uptime before it, in hours |
| Uptime.AxisIsMonotone | ablation/plot.py:213-238 | the axis starts at zero, never runs back, never passes the total |
| Uptime.AxisIsNoFasterThanTheWall | ablation/plot.py:213-238 | the axis never grows faster than wall time |
| Uptime.AxisRunsWithinASpan | ablation/plot.py:213-238 | within a span it runs at wall speed |
| Uptime.GapsHaveNoWidth | ablation/plot.py:213-238 | gaps between spans have no width |
| Uptime.Stepped | ablation/plot.py:241-249 | for any points and grid: the value at the end of the points reached by the largest grid point so far |
| Uptime.SteppedIsLastValueWithin | ablation/plot.py:241-249 | for rising costs and grid this is the last value whose cost does not exceed the grid point |

## Left out

- Episode.Scientist.RunEpisode: step limits and deadlines are inputs of each turn, usage and the action log are left out; the actions of a batch run one after another, while the source may run them at once; an append that itself fails is not modelled.
- Episode.Scientist.Run: messages of turns with calls are assumed free of the marker text, and call messages free of raw line separators; without this the pairing law is false (see above).
- AssistantRuntime.InWorldAssistant.Run: process handles, exit codes and the size of session logs are not modelled, and the run stops at a restart that finds a number above 999. A kill in the middle of writing `manifest.json` counts as one before it; the code salvages such an engagement at the next start, as of no role.
- AssistantRuntime.InWorldAssistant.WaitForSeats: reports left in the old home of earlier versions are outside the marker verbs, as in the code.
- ListeningDoor.AcceptedExactly: handover word counts and the shape of artifacts are one flag.
- LineReader.LineCursor.Poll: the decoder is a parameter.
- DeltaStream.Follow: the count of demands is stated for a service that has deltas; one without any answers a foreign cursor with a demand at every look. A cursor of an earlier service life that happens to fall in the window is answered as if it were current, and a null cursor gets the retained window only, as in the code.
- LocalLedger.EveryReachableLogIsWellKept: speaks of the rows read back; when no text holds a raw line separator these are all rows. Torn rows and rows of other writers are not modelled.
- ResearchMemory.NextIdIsNew: digits outside ASCII, which the code also accepts, do not occur in ids it deals itself.
- ResearchMemory.WriterAgreesWithFold: a piece of a split row that is an object carries no item id, so the fold passes over it; the shift it causes in the recency order is not modelled.
- TreeSearch.Search: what a directory yields is what the system shows before it ends or fails; following links and text search are left out.
- Uptime.UptimeSegments: reading generations off the log and the stamps off the database is an input.
- ReplyAssembly.TakeRawChunk: names, ids, texts and indices of the wrong JSON type, on which the source raises, are not modelled.
- Completion logic of the run reader, the projector, listing and searching the memory and the experiment archive: sorts and filters that would only add easy members.
- Prompt texts, tool schemas, collaboration briefs, skills, rendering of reports.
- Real processes, signals, git, containers, sockets, databases and plots; scheduling, budgets and leases of the outer evolution loop; configuration.
- Floating point: times and costs are integers or reals.
