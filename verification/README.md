# Yole: a verified model of its core protocols

Yole is a desktop shell around a Python agent. Its Rust core keeps conversations and model settings in
SQLite and starts the agent's processes; a Python bridge turns the agent's output and its callbacks into
events for the desktop. This project models the parts whose correctness is not visible in any one
function, and proves what the rest of the program relies on. `dafny verify dfyconfig.toml` verifies all of
it.

What updates state in Yole's code is a class here, or a method with a loop, proved against a function of
the old state; what a protocol of several threads or tasks does is a step relation, and a run is any
interleaving of its steps. The laws are lemmas about those functions and runs.

| part | files | main results |
|---|---|---|
| strings and row selection | `Text`, `Rows` | used everywhere |
| the stream filter | `FenceFilter` | cutting the stream anywhere changes nothing; the filter shows exactly the text outside the fences |
| the output pipeline | `StreamPump`, `AgentLoop`, `LoopLaws`, `VerboseStream` | what reaches the desktop is the final text outside the fences, whatever the flush threshold; a verbose run shows exactly its visible parts |
| turn events | `TurnEvents` | the exact condition for orderly turn events |
| approvals | `ApprovalProtocol`, `ApprovalSafety`, `ApprovalGate`, `ApprovalSession` | only permitted calls are dispatched and only those that need it ask, over all interleavings; the rules are the fold of the decisions |
| the model table | `ModelCatalog`, `ModelTable`, `ModelRefinement`, `ModelFields`, `ModelStore`, `YoleProvisioning` | the table refines a plain list, through every run, and models show what their last save gave them; its client needs the invariant |
| timestamps | `Calendar`, `Timestamps` | the dates are the Gregorian calendar; a timestamp reads back as its second; the exact range in which text order is time order |
| transcripts and search | `Transcript`, `MessageWrites`, `TranscriptEdits`, `TranscriptReads`, `SearchIndex`, `TranscriptStore`, `LikeSearch` | what every run of writes keeps; what truncation leaves; when skipping the backfill is right; an escaped pattern means "contains" |
| the IM supervisor | `ImSupervisor`, `ImReports`, `ImSupervisorManager` | a slot tells the latest word of the process it shows; a replaced process is invisible for good; exactly when a process is abandoned |
| model numbers | `ModelIndex` | exactly when three programs mean the same model by a number |
| installing the CLI | `PathInstall` | two layers of quoting, undone; the exact paths they work for |

Where a promise fails, the project says exactly when:

- **Turn events.** A turn that finishes while a done-hook is in the list reports the run as complete, and the
  loop goes on; hooks get there during the run, from code a tool runs inside the agent
  (`TurnEvents.OrderlyExactly`, `TurnEvents.AppendedHookCompletesEarly`).
- **Timestamps.** Sorting by text ends with the year 9999 (`Timestamps.OrderedExactly`).
- **Backfill.** `core/src/db.rs` skips the rebuild when there are at least as many search rows as messages
  to index, but a user message of blanks gets a row without being counted, and a deleted session leaves its
  rows. One such row can stand in for a missing one (`SearchIndex.AnyRunSkipsExactly`,
  `SearchIndex.BlankRowHidesMissingOne`, `SearchIndex.OrphanRowHidesMissingOne`).
- **Search rows of user messages** go stale exactly when a message is saved again, its old row cannot be
  deleted, and the row says something else (`TranscriptEdits.UserRowsStaleExactly`).
- **Search rows of answers.** Saving an assistant message again without a final answer leaves its old
  answer in the index (`TranscriptEdits.AnswerShownExactly`,
  `TranscriptEdits.UnansweredSaveLeavesOldAnswer`).
- **Deleting a session** leaves its search rows behind, although migration 004 describes an index that
  follows the messages (`SearchIndex.DeletionKeepsAgreementExactly`).
- **Supervised processes** are left running, neither held nor asked to end, exactly when a start, stop or
  logout replaces a held process that was not asked to end (`ImSupervisor.RunAbandonsExactly`). That takes a
  process that has reported an error but still runs (`ImSupervisor.StartAbandonsExactly`), or two tasks at
  once (`ImSupervisor.TwoStartsAbandon`, `ImSupervisor.StopRacesStart`).
- **Model numbers.** A stored credential that cannot be read any more is counted by the name lookup but not
  by the runner, and so shifts the numbers after it and gives its own model none
  (`ModelIndex.ResolvedIsRequestedExactly`, `ModelIndex.ResolvedClientExactly`).
- **Highlighting** uses full lower-casing, the search only ASCII's; they agree on a query exactly when both
  fold the same texts to it (`LikeSearch.HighlightsAgreeExactly`, `LikeSearch.KelvinIsMarkedButNotFound`).
- **Installing.** The comment in `core/src/path_install.rs` promises one literal argument for any path; a
  double quote is escaped by both layers, and the command breaks (`PathInstall.InstallsExactly`).
- **The default model.** Saving it without the default flag leaves no default, and so does removing the last
  models; nothing else does (`ModelRefinement.DefaultLostExactly`, `ModelRefinement.DefaultSavedPlainly`). So
  the invariant is "at most one default, and it is first", not "exactly one".

## Model

| member | source | states |
|---|---|---|
| FenceFilter.Filter.Feed | runner/yole_bridge.py:289-328 | one feed leaves the fence state, the carry and the output of a single pass over carry plus delta |
| FenceFilter.Filter.FeedMarker | runner/yole_bridge.py:289-328 | the same for any non-empty marker: the loop over markers and the held-back suffix |
| FenceFilter.HoldBack | runner/yole_bridge.py:313-324 | the suffix held back is the longest that could begin a marker |
| FenceFilter.ScanSplit | runner/yole_bridge.py:281-328 | cutting a text in two anywhere, even inside a marker, and carrying the state over changes nothing |
| FenceFilter.ChunkIndependence | runner/yole_bridge.py:281-328 | however a text is cut, the final state and the concatenated output are those of one feed of the whole |
| FenceFilter.FenceUnbordered | runner/yole_bridge.py:281-286 | the five-backtick marker overlaps itself nowhere |
| FenceFilter.FirstMarker | runner/yole_bridge.py:289-312 | after a stretch without a marker, even one that ends in backticks, the next marker is found where it was put |
| FenceFilter.ScanOfStretches | runner/yole_bridge.py:289-328 | marker-free stretches come out alternately shown and hidden; the state is the parity of the markers |
| FenceFilter.StretchesRead | runner/yole_bridge.py:253-286 | every text can be read as marker-free stretches joined by markers |
| FenceFilter.StretchesUnique | runner/yole_bridge.py:253-286 | and in only one way |
| FenceFilter.FilterMeansBatch | runner/yole_bridge.py:281-328 | for every text and every cut, output plus carry is the text outside leftmost, non-overlapping fences |
| StreamPump.Pump | managed-ga/code/agentmain.py:199-229 | the deltas concatenate to the `done` text, and so do the per-turn pieces; a stop ends with what was received; an exception's `done` extends what was sent; each item is sent at the first chunk that announces a turn or leaves more than 30 characters waiting, or at the end, with the turn last marked there and the texts of the last two turns; `done` has all turns' texts |
| StreamPump.TurnTextsSnoc | managed-ga/code/agentmain.py:204-206 | split at the markers, a marker starts a turn with no text, a piece is added to the last turn's |
| StreamPump.TextsOfAll | managed-ga/code/agentmain.py:200-206 | a stream that starts in a turn is all in its turns' texts |
| StreamPump.WaitsOn | managed-ga/code/agentmain.py:207-213 | the worker's test on its two counters is the one on the text of the chunks since the last flush |
| StreamPump.Put | managed-ga/code/agentmain.py:207-213 | a flush sends exactly what had not been sent |
| StreamPump.Drain | runner/yole_bridge.py:684-740 | the progress events concatenate to the filter's one-pass output; none is empty; `done` ends it and drops the carry |
| StreamPump.DrainedIsDeltas | runner/yole_bridge.py:688-729 | skipping empty deltas and stopping at `done` loses no text |
| StreamPump.StreamTask | managed-ga/code/agentmain.py:199-229 | end to end, progress plus final carry is the sent text outside its fences, whatever the flush threshold and wherever a stop falls; what was sent is the `done` text, or after an exception all but the last few characters before the error |
| AgentLoop.DispatchCall | managed-ga/code/agent_loop.py:72-90 | one dispatch yields no fence or two, around the tool's output |
| AgentLoop.DispatchCalls | managed-ga/code/agent_loop.py:68-98 | a turn's calls up to the first that ends it, the turn limit they leave (plan mode sets its own) and the done-hooks they append |
| AgentLoop.RunLoop | managed-ga/code/agent_loop.py:42-107 | the loop's yields and callbacks as a function of the model's turns and the limit, done-hooks being appended and popped on the way |
| LoopLaws.TurnIsCallsMade | managed-ga/code/agent_loop.py:68-98 | a turn does what the calls made do, in order, up to the first that does not go on: it ends as that one, allows plan mode's turns if and only if one of them enters plan mode, and gains the hooks they append |
| LoopLaws.AnnouncedBeforeOutput | managed-ga/code/agent_loop.py:71-90 | a call announces its turn at most once, after its own text and before any of the tool's output |
| LoopLaws.LoopCountsTurns | managed-ga/code/agent_loop.py:50-54 | turns are marked 1, 2, 3 and so on, and what is announced or ended is the turn last marked |
| LoopLaws.BannerIsDue | managed-ga/code/agentmain.py:207-207 | a turn's banner is always sent on at once |
| LoopLaws.EachHookOnce | managed-ga/code/agent_loop.py:98-107 | each done-hook sends the loop on once: the ends that report an exit are at most one more than the hooks there are and the hooks appended |
| VerboseStream.AlternatingIsRender | managed-ga/code/agent_loop.py:81-88 | joining neighbouring shown parts, a run's segments alternate between shown and fenced |
| VerboseStream.LoopSpeaks | managed-ga/code/agent_loop.py:48-90 | the text a run yields is its segments, the hidden ones fenced |
| VerboseStream.LoopStartsInTurn | managed-ga/code/agent_loop.py:48-60 | a run marks a turn before it yields text, so collecting per-turn text cannot fail |
| VerboseStream.VerboseRun | managed-ga/code/agent_loop.py:48-90 | if no stretch contains a fence, progress plus carry is exactly the visible text, and the filter ends outside |
| TurnEvents.Bridge.EmitTurnStart | runner/yole_bridge.py:589-623 | a start is sent unless it repeats the last one sent |
| TurnEvents.Bridge.OnTurnEnd | runner/yole_bridge.py:789-852 | an end, then the run's completion or the next turn's start |
| TurnEvents.Bridge.RunTask | runner/yole_bridge.py:924-931 | a user message's run sends the events of the loop's effects, starting afresh, and counts as in progress if and only if no completion was sent |
| TurnEvents.CallsEmit | runner/handlers.py:307-311 | however many tools a turn calls, it starts at most once |
| TurnEvents.LoopEmits | managed-ga/code/agent_loop.py:48-107 | the whole event sequence of a run whose end is not handed to a done-hook |
| TurnEvents.TurnsWithinLimit | managed-ga/code/agent_loop.py:50-51 | the loop runs no more turns than the limit in force when its last turn begins |
| TurnEvents.LimitKept | managed-ga/code/ga.py:678-679 | only plan mode changes the limit |
| TurnEvents.RunIsOrderly | runner/yole_bridge.py:589-623 | ends 1..k once each in order, starts strictly increasing and each right after the previous end, at most one completion and nothing after it; k within the limit in force, which is the given one unless a call enters plan mode |
| TurnEvents.HookAfterEndCompletesEarly | managed-ga/code/agent_loop.py:98-107 | an end that finds a done-hook reports completion before the run's last event |
| TurnEvents.OrderlyExactly | managed-ga/code/agent_loop.py:98-107 | the events are orderly if and only if the first end leaves the loop for good or finds no done-hook in the list |
| TurnEvents.NoHooksAppended | managed-ga/code/ga.py:372-372 | a run in which no call appends a done-hook has none at its end |
| TurnEvents.AppendedHookCompletesEarly | managed-ga/code/ga.py:397-404 | a run that appends a hook in its first turn and finishes in its second is not orderly |
| ApprovalSafety.StateInvariant | runner/yole_bridge.py:345-373 | through every interleaving, handlers share the session's rule sets, a registered slot is undecided, and a waiting call owns its slot |
| ApprovalSafety.HistoryInvariant | runner/handlers.py:262-318 | where a call is implies what must have happened, and in which order |
| ApprovalSafety.OnlyPermittedDispatch | runner/handlers.py:262-318 | a call that reaches the base dispatch was no disaster, had not timed out and, if its tool needs approval, saw YOLO mode or a rule at the gate or woke to an allow response to its own approval id |
| ApprovalSafety.DispatchEntered | runner/handlers.py:262-283 | no call is anywhere without having entered |
| ApprovalSafety.TimedOutNeverDispatches | runner/yole_bridge.py:878-905 | a response after the timeout never authorises |
| ApprovalSafety.DisasterNeverDispatches | runner/handlers.py:276-283 | a command flagged as a disaster never reaches the base dispatch |
| ApprovalSafety.DecidedOnce | runner/yole_bridge.py:366-373 | each pending slot is taken out, and so decided, at most once |
| ApprovalSafety.RefusedOnlyFor | runner/handlers.py:276-306 | a call is refused only for a disaster, a timeout or a response that does not allow it |
| ApprovalSafety.RulesAreTheFold | runner/yole_bridge.py:978-990 | the rule sets are the fold of the rule commands and always-allow decisions, less what a command in progress still owes |
| ApprovalSafety.SeenHeld | runner/handlers.py:241-260 | a rule or YOLO mode seen at the gate was in the fold of the past |
| ApprovalSafety.EntryKept | runner/handlers.py:262-283 | a call's tool and disaster verdict never change |
| ApprovalGate.AsksOnlyIfNeeded | runner/handlers.py:241-260 | over every run, a call asks the user only if its tool is in the approval set and it found YOLO mode off and no rule in the global and then the project set, in that order |
| ApprovalGate.GateMovesOnly | runner/handlers.py:262-283 | taken undisturbed, the gate changes nothing but its own call's phase |
| ApprovalGate.GateAsksExactly | runner/handlers.py:241-260 | taken undisturbed, the gate asks if and only if the call is no disaster, YOLO mode is off, the tool is in the approval set and no rule has it; it refuses exactly a disaster and lets through all the rest |
| ApprovalGate.AnswerArrives | runner/yole_bridge.py:878-905 | an answer delivered to the call that asked is the decision it wakes with, an empty one being a denial |
| ApprovalGate.ActsExactly | runner/handlers.py:284-306 | each decision does what it says: three allow, two of these add the tool to the global or the project rules, everything else refuses |
| ApprovalGate.TimeOutDenies | runner/yole_bridge.py:878-905 | a time-out is a denial |
| ApprovalGate.RulesAreSet | runner/yole_bridge.py:978-984 | a rule command leaves exactly the rules given in both shared sets |
| ApprovalSession.SessionState.RegisterPending | runner/yole_bridge.py:360-364 | a fresh, undecided slot is pending under its id |
| ApprovalSession.SessionState.ResolvePending | runner/yole_bridge.py:366-373 | a known slot is taken out, decided and signalled; an unknown id changes nothing |
| ApprovalSession.SessionState.SetApprovalRules | runner/yole_bridge.py:978-984 | both shared sets are replaced in place |
| ApprovalSession.RuleSet.Replace | runner/handlers.py:224-239 | a set cleared and refilled in place holds exactly the new rules |
| ApprovalSession.YoleHandler.RebuiltAgrees | runner/yole_bridge.py:546-580 | a rebuilt handler asks exactly when the one it replaces would |
| ApprovalSession.YoleHandler.Settle | runner/handlers.py:284-306 | exactly the three allow answers proceed, and an always-allow answer stops later questions |
| ModelTable.NextOrder | core/src/db.rs:868-879 | the next order is above every order in use, and 0 for an empty table |
| ModelTable.RepresentsSound | core/src/db.rs:817-968 | a table that stands for a list has distinct, non-negative orders, at most one default, which is first, and no model without provider |
| ModelRefinement.ShiftKeepsOrder | core/src/db.rs:883-907 | the bulk shift keeps the order of all other models, even when it is skipped because the row is already the default |
| ModelRefinement.ShiftLeavesRoom | core/src/db.rs:883-907 | and leaves the saved model strictly first |
| ModelRefinement.SaveFirstAscends | core/src/db.rs:883-934 | a model made default moves to the front, the others keep their order |
| ModelRefinement.SavePlainAscends | core/src/db.rs:867-934 | a new model goes last, a saved one stays where it was |
| ModelRefinement.SaveRefines | core/src/db.rs:817-938 | an upsert is push-front, move-to-front, append or no move on the list |
| ModelRefinement.PromoteTakesHead | core/src/db.rs:1449-1461 | promoting the least order makes the list's head the default |
| ModelRefinement.RemoveRefines | core/src/db.rs:940-968 | a delete removes from the list and, if the default went, flags the new head |
| ModelRefinement.ProviderGoneRefines | core/src/db.rs:775-815 | a provider goes only after its models, so none is left without one |
| ModelRefinement.ReorderRefines | core/src/db.rs:1007-1026 | a reorder makes the list the given one, its head the default |
| ModelRefinement.MigrationRepresents | core/migrations/011_managed_model_sort_order.sql:7-20 | numbering an older table, default first, makes it stand for a list |
| ModelRefinement.StepRefines | core/src/db.rs:722-1027 | every operation on the table is its counterpart on the list |
| ModelRefinement.RunRefines | core/src/db.rs:722-1027 | through every run the table stands for the list the operations describe, and is sound |
| ModelRefinement.RunFromEmpty | core/src/db.rs:722-1027 | so does every run from the empty table |
| ModelRefinement.SavedHasDefault | core/src/db.rs:867-934 | after a save there is a default if and only if it was asked for, the table was empty or another model is the default |
| ModelRefinement.RemovedHasDefault | core/src/db.rs:940-968 | after a removal there is one if and only if there was one and a model is left |
| ModelRefinement.ReorderedHasDefault | core/src/db.rs:1007-1026 | after a reorder there always is |
| ModelRefinement.DefaultLostExactly | core/src/db.rs:722-1027 | an operation takes the default away if and only if it saves the default as an ordinary model or removes the last models |
| ModelRefinement.DefaultSavedPlainly | core/src/db.rs:867-928 | a table in which the first happens |
| ModelRefinement.SoundRepresents | core/src/db.rs:817-968 | the invariant in the table's own terms is enough for it to stand for a list |
| ModelRefinement.ListingUnique | core/src/db.rs:618-629 | ordering by `sort_order` leaves no choice |
| ModelRefinement.ListingIsList | core/src/db.rs:1423-1447 | the listing query's join drops no model, and its answer is the list |
| ModelFields.StepKeepsFields | core/src/db.rs:722-1027 | a model there before and after an operation that does not save it keeps its provider, names and options |
| ModelFields.SaveStoresFields | core/src/db.rs:817-938 | a saved model has the fields given, trimmed, each in its own column |
| ModelFields.AcceptedExactly | core/src/db.rs:817-860 | a model is saved unless a name in it is blank or its provider is not there; a provider unless a name is blank or another has its key reference |
| ModelFields.StepMembers | core/src/db.rs:722-1027 | which models each operation leaves |
| ModelFields.StepProviders | core/src/db.rs:722-815 | only the provider an operation names changes |
| ModelFields.RunKeepsFields | core/src/db.rs:722-1027 | through every run that does not save a model it keeps its fields, and it does not come back once gone |
| ModelFields.RunShowsLastSave | core/src/db.rs:722-1027 | so in every run a model shows what its last save gave it |
| ModelStore.Store.UpsertProvider | core/src/db.rs:722-773 | accepted exactly for non-blank fields and a key reference no other provider has; saving a provider changes no model |
| ModelStore.Store.UpsertModel | core/src/db.rs:817-938 | the statements of an upsert do the specified step; accepted exactly for non-blank fields and a known provider |
| ModelStore.Store.DeleteModel | core/src/db.rs:940-968 | the statements of a delete do the specified step; the answer tells blank, absent and gone apart |
| ModelStore.Store.DeleteProvider | core/src/db.rs:775-815 | the same for a provider; the answer is its key reference |
| ModelStore.Store.ReorderModels | core/src/db.rs:970-1027 | accepted if and only if the trimmed ids are a rearrangement of the stored ones |
| ModelStore.RefusedOrder | core/src/db.rs:976-1005 | each of the counting checks refuses only lists that are no rearrangement |
| Rows.SubsetSize | core/src/db.rs:994-1005 | pigeonhole: equal counts and one inclusion make a rearrangement |
| ModelStore.UpsertStatements | core/src/db.rs:883-934 | the upsert's statements one by one add up to the specified table |
| ModelStore.UpsertKeepsOneDefault | core/src/db.rs:883-934 | none of the statements trips over the unique index on the default |
| YoleProvisioning.EnsureExistingCatalogModels | core/src/yole_provisioning.rs:272-315 | the client's two upserts, with flags computed from the listing, do the specified change |
| YoleProvisioning.EnsuredIsTwoSaves | core/src/yole_provisioning.rs:285-312 | both saves are accepted, and the invariant holds after each |
| YoleProvisioning.EnsuredDefault | core/src/yole_provisioning.rs:285-312 | exactly one default is left: the one there was, else Yole's text model |
| YoleProvisioning.EnsuredKeepsOrder | core/src/yole_provisioning.rs:272-315 | models keep their relative order; only a text model promoted for want of a default moves |
| YoleProvisioning.EnsuredTwice | core/src/yole_provisioning.rs:272-315 | a second run changes nothing |
| YoleProvisioning.EnsuredFields | core/src/yole_provisioning.rs:272-315 | the two models have the catalog's ids, names and modalities under Yole's provider, and every other model its fields |
| Calendar.YearFound | core/src/db.rs:2799-2799 | the nested divisions find the year of the era |
| Calendar.MarchDayUnique | core/src/db.rs:2797-2800 | a day of the era is one day of one March-based year, the one computed |
| Calendar.FromMarchNext | core/src/db.rs:2801-2804 | month and day follow the calendar from one day to the next, across February and New Year |
| Calendar.CivilNext | core/src/db.rs:2795-2804 | every computed date is valid, and the next day count gives the next Gregorian day |
| Calendar.CountAndBack | core/src/db.rs:2795-2804 | counting a computed date's days gives the day count back |
| Calendar.CivilMonotone | core/src/db.rs:2795-2804 | later day counts are later dates |
| Timestamps.PadIsFixed | core/src/db.rs:2805-2808 | a number that fits is written with exactly its width |
| Timestamps.FixedOrder | core/src/db.rs:2805-2808 | padded numbers sort as numbers |
| Timestamps.TextOrderIsTimeOrder | core/src/db.rs:2780-2810 | through year 9999, text order is time order and equal text is the same second |
| Timestamps.YearTenThousandSortsFirst | core/src/db.rs:2805-2808 | the first second of the year 10000 sorts before the last of 9999 |
| Timestamps.OrderedExactly | core/src/db.rs:2780-2810 | timestamps up to an instant sort by time if and only if it is before the year 10000 |
| Timestamps.TimestampReadsBack | core/src/db.rs:2780-2810 | cut at the places of RFC 3339, section 5.6, the text has its marks and six numbers: a valid date and a time of day that count back to the second it was made from |
| Timestamps.FixedRead | core/src/db.rs:2805-2808 | a padded number is decimal and reads back as the number |
| LikeSearch.EscapeLike | core/src/db.rs:2822-2834 | the loop escapes each special character and no other |
| LikeSearch.EscapedPrefix | core/src/db.rs:475-497 | an escaped query followed by `%` matches exactly the texts that start with it, up to ASCII case |
| LikeSearch.EscapedMeansContains | core/src/db.rs:475-497 | the search pattern matches exactly the texts that contain the query, up to ASCII case |
| LikeSearch.RawQueryFindsTooMuch | core/src/db.rs:475-475 | without escaping, an underscore finds texts that have none |
| LikeSearch.FoldJoinsCases | core/src/db.rs:475-497 | the fold joins the two cases of the 26 ASCII letters and nothing else |
| LikeSearch.OffsetsAreBytes | core/src/db.rs:2858-2868 | offsets count the bytes of the text in UTF-8 |
| LikeSearch.BoundaryCountsCharacters | core/src/db.rs:2858-2868 | from one character's byte offset the function reaches the offset `n` characters on, or fails when there are fewer |
| LikeSearch.SliceAt | core/src/db.rs:2843-2851 | slicing at such offsets never falls inside a character |
| LikeSearch.HighlightLike | core/src/db.rs:2836-2856 | the leftmost matching window, and no other text, is put between « and », and without one the snippet stays; from a snippet without marks, taking them out gives the snippet back |
| LikeSearch.MarkingAddsOnlyMarks | core/src/db.rs:2847-2852 | taking the marks out of a marked snippet and of the snippet leaves the same text |
| LikeSearch.HighlightsAgreeExactly | core/src/db.rs:509-516 | for any query, marking and matching agree on every snippet if and only if both ways of folding case agree on the texts of the query's length |
| LikeSearch.AsciiMarkedExactlyWhenMatched | core/src/db.rs:509-516 | on ASCII a snippet is marked if and only if the search pattern matches it |
| LikeSearch.KelvinIsMarkedButNotFound | core/src/db.rs:2841-2846 | a query and a snippet on which the two foldings differ |
| Transcript.IdsDistinguish | core/src/db.rs:118-118 | message ids tell session, turn and role apart, whatever characters a session id has |
| Transcript.OrderedUnique | core/src/db.rs:1968-1972 | ordering by turn and sequence leaves no choice |
| Transcript.TailIsLastOfTranscript | core/src/db.rs:1938-1978 | reading a tail of `n` is the last `n` entries of the whole transcript |
| MessageWrites.NextTurn | core/src/db.rs:1765-1771 | the next turn is past every turn of the session, by one |
| MessageWrites.IndexedSound | core/src/db.rs:1062-1092 | indexing leaves one row per message, whichever of its statements fails |
| MessageWrites.UpsertedSources | core/src/db.rs:120-147 | an upsert leaves every search row its message, and the message its own row's |
| MessageWrites.AppendIsFresh | core/src/db.rs:1765-1792 | an appended message's id is never taken |
| MessageWrites.ReplaceFindsRoom | core/src/db.rs:220-247 | after the truncation the replacement's id is free |
| MessageWrites.ReplaceKeepsSources | core/src/db.rs:200-226 | rows that survive the truncation still have their messages |
| MessageWrites.StepSound | core/src/db.rs:111-425 | every write keeps ids distinct, at most one row per message, and no row without its message |
| MessageWrites.RunSound | core/src/db.rs:111-425 | and so does every run of writes |
| MessageWrites.StepKeyed | core/src/db.rs:111-425 | distinct ids and at most one row per message need nothing of the rows others left behind |
| MessageWrites.AnyRunKeyed | core/src/db.rs:111-425 | so they hold through every run of writes and session deletions |
| MessageWrites.PlacesUnique | core/src/db.rs:111-325 | turn and sequence are unique within a session |
| TranscriptEdits.AppendExtendsTranscript | core/src/db.rs:1745-1792 | an append adds one entry at the end of one transcript |
| TranscriptEdits.ReplaceCutsTranscript | core/src/db.rs:150-284 | replacing from turn `t` leaves the entries before `t`, then the one new message; other transcripts stay |
| TranscriptEdits.ReplaceShowsLast | core/src/db.rs:150-284 | the next tail read ends in the replacement |
| TranscriptEdits.ReplaceCutsIndex | core/src/db.rs:200-262 | search rows and tool events from `t` on are gone, and no others |
| TranscriptEdits.ReplaceRestoresSummary | core/src/db.rs:183-198 | the session keeps the newest non-blank summary from before `t`, or none if there is none, and the turns before it |
| TranscriptEdits.UpsertWrites | core/src/db.rs:286-325 | an upsert leaves one message of that id with the new columns, and every other message alone |
| TranscriptEdits.StepShowsUsers | core/src/db.rs:111-425 | while no row's deletion fails, user rows stay current; while all writes work, also complete |
| TranscriptEdits.RunShowsUsers | core/src/db.rs:111-425 | the same through every run |
| TranscriptEdits.UserRowsStaleExactly | core/src/db.rs:1070-1091 | a write leaves a user row stale if and only if it saves a message again, its deletion fails and the old row says something else |
| TranscriptEdits.FailedDeletionLeavesOldWords | core/src/db.rs:1070-1091 | a database and a write for which it does |
| TranscriptEdits.AnswerShownExactly | core/src/db.rs:320-323 | an answer's row is current after a write if and only if there was an answer to index and the deletion worked, or the row already was |
| TranscriptEdits.UnansweredSaveLeavesOldAnswer | core/src/db.rs:320-323 | an answered message saved again without its answer, all writes working, is not |
| TranscriptReads.UserSpeaksFirst | core/src/db.rs:1968-1972 | of two entries of one turn, the user's is read before the assistant's |
| TranscriptReads.TailUserSpeaksFirst | core/src/db.rs:1938-1966 | and so in every tail read |
| TranscriptReads.RunUserSpeaksFirst | core/src/db.rs:111-425 | after every run of writes and session deletions both read so |
| TranscriptReads.UserEntryWritten | core/src/db.rs:111-148 | after saving a user's message its turn has an entry of the user's, with those words |
| TranscriptReads.AssistantEntryWritten | core/src/db.rs:286-325 | after saving the assistant's, one of the assistant's with its content, answer and summary |
| TranscriptReads.SentEntryWritten | core/src/db.rs:1745-1792 | a sent message is the user's and the last of the transcript, past every earlier turn |
| TranscriptReads.ReplacementWritten | core/src/db.rs:150-284 | a replacement is the user's, at its turn, and the last of the transcript |
| TranscriptReads.WritesIndexTheWords | core/src/db.rs:1062-1092 | a user's words are indexed when saved or sent, an assistant's only as an answer with something in it; the row says who, where and what, or is gone or as before when one of the statements fails; other rows, sessions and tool events stay |
| TranscriptReads.RebuiltBodies | core/src/db.rs:396-424 | a rebuilt index shows a user's content, and an assistant's answer or else its content |
| TranscriptReads.RebuiltRowExactly | core/src/db.rs:377-424 | it has a row for a message if and only if that is not all spaces |
| SearchIndex.UsefulRowsCover | core/src/db.rs:377-395 | pigeonhole: the useful rows are as many as the messages to index exactly when they cover them |
| SearchIndex.SkipIsRightExactly | core/src/db.rs:377-395 | nothing is missing if and only if the count still suffices without the rows of blank or deleted messages |
| SearchIndex.AnyRunSkipsExactly | core/src/db.rs:377-395 | the same after every run of writes and session deletions |
| SearchIndex.BackfillCovers | core/src/db.rs:377-425 | without such rows the backfill is skipped exactly when nothing is missing, and afterwards nothing is |
| SearchIndex.RebuildIsExact | core/src/db.rs:396-424 | a rebuild leaves one current row for each message with something to show and restores agreement, whatever rows there were; the next is skipped |
| SearchIndex.StepLeavesNoStrays | core/src/db.rs:111-325 | writing messages with something to show adds no stray row |
| SearchIndex.RunThenBackfillCovers | core/src/db.rs:111-425 | whatever index writes fail, a run of such messages and a backfill leave every message indexed |
| SearchIndex.BlankRowHidesMissingOne | core/src/db.rs:144-147 | a blank message's row can make the backfill miss another message |
| SearchIndex.DeletionCascades | core/src/db.rs:2326-2339 | deleting a session takes its transcript and tool events, and nothing else |
| SearchIndex.DeletionKeepsAgreementExactly | core/src/db.rs:2326-2339 | the index still agrees if and only if the session had no rows |
| SearchIndex.OrphanRowHidesMissingOne | core/src/db.rs:377-395 | a deleted session's row can make the backfill miss another session's message |
| TranscriptStore.Store.IndexMessageFts | core/src/db.rs:1062-1092 | the rows left by the two statements, whichever fails |
| TranscriptStore.Store.PersistGuiUserMessage | core/src/db.rs:111-148 | the statements do the specified step; an unknown session is refused |
| TranscriptStore.Store.PersistGuiAssistantMessage | core/src/db.rs:286-325 | the same, indexing only an answer with something in it |
| TranscriptStore.Store.SendMessage | core/src/db.rs:1745-1832 | missing and archived sessions are refused, and nothing else is |
| TranscriptStore.Store.ReplaceGuiUserMessageFromTurn | core/src/db.rs:150-284 | turn 0 and a missing user message are refused, and nothing else is |
| TranscriptStore.Store.BackfillFtsIfEmpty | core/src/db.rs:377-425 | skips or rebuilds, and answers with the rows written |
| TranscriptStore.Store.DeleteSession | core/src/db.rs:2326-2339 | the cascade of a deletion; a missing session is reported |
| TranscriptStore.Store.SessionMessages | core/src/db.rs:1938-1978 | the whole transcript or exactly its last `n` entries |
| ImSupervisor.RunSound | core/src/im_supervisor.rs:130-538 | through every run a slot shows only a process of its own that has not ended, and holds only that one |
| ImSupervisor.HeldIsShown | core/src/im_supervisor.rs:412-434 | from the start on, a held child is the process whose pid the slot shows |
| ImSupervisor.ReplacingFences | core/src/im_supervisor.rs:417-434 | replacing or clearing a slot fences the process it showed |
| ImSupervisor.FencedIsInvisible | core/src/im_supervisor.rs:435-559 | from then on every slot is as if that process had printed nothing and never ended |
| ImSupervisor.ReplacedIsInvisible | core/src/im_supervisor.rs:417-559 | so a replaced process is out of the slot for good, in every interleaving |
| ImSupervisor.EndKeepsReport | core/src/im_supervisor.rs:511-537 | an exit does not overwrite a report of expired, error or stopped; any other becomes stopped or an error |
| ImSupervisor.EndedReportStands | core/src/im_supervisor.rs:435-559 | after the exit only a replacement changes what the slot tells |
| ImReports.SlotTellsLatest | core/src/im_supervisor.rs:435-559 | in every interleaving, from its start until it ends or is replaced a process's slot tells its latest stage, bot and QR code and the latest word about an error, from its lines and complaints |
| ImReports.SlotKeepsRevision | core/src/im_supervisor.rs:368-392 | until it is replaced a slot keeps its revision, is enabled as the last refresh found, and stale if and only if that found it enabled with another revision in force |
| ImReports.ChildUntilTaken | core/src/im_supervisor.rs:412-415 | the process is held until it is taken out, and asked to end if and only if it was taken out or its slot's child was told to |
| ImReports.ReplacedSlot | core/src/im_supervisor.rs:417-434 | what a new or cleared slot tells and holds |
| ImReports.StepKeepsOthers | core/src/im_supervisor.rs:130-538 | a step leaves every other platform's slot alone |
| ImSupervisor.StepAbandonsExactly | core/src/im_supervisor.rs:417-434 | a step abandons a process if and only if it replaces a held one that was not asked to end |
| ImSupervisor.RunAbandonsExactly | core/src/im_supervisor.rs:130-342 | over every interleaving nothing is ever abandoned if and only if every replacement finds the held process asked to end |
| ImSupervisor.TwoStartsAbandon | core/src/im_supervisor.rs:137-206 | two starts at once abandon one process |
| ImSupervisor.StopRacesStart | core/src/im_supervisor.rs:267-306 | a stop overtaken by a start abandons the new process |
| ImSupervisor.StartAbandonsExactly | core/src/im_supervisor.rs:130-240 | an undisturbed start abandons a process if and only if the slot holds one that reported neither starting, waiting nor running |
| ImSupervisor.ErrorThenStartAbandons | core/src/im_supervisor.rs:137-155 | a run in which it does |
| ImSupervisorManager.Manager.SetSlot | core/src/im_supervisor.rs:417-433 | child and status are replaced together |
| ImSupervisorManager.Manager.TakeChild | core/src/im_supervisor.rs:412-415 | the child is taken, the status stays |
| ImSupervisorManager.Manager.ReadLine | core/src/im_supervisor.rs:435-473 | a line of the shown process updates the status as specified; any other changes nothing |
| ImSupervisorManager.Manager.ReadStderr | core/src/im_supervisor.rs:475-559 | the same for a complaint |
| ImSupervisorManager.Manager.ChildEnded | core/src/im_supervisor.rs:511-537 | the same for an exit |
| ImSupervisorManager.Manager.RefreshStaleness | core/src/im_supervisor.rs:368-392 | only the preference and staleness flags change |
| ImSupervisorManager.Manager.Start | core/src/im_supervisor.rs:130-265 | an undisturbed start is its steps in order; it answers with a live slot and ends what it held |
| ImSupervisorManager.Manager.Stop | core/src/im_supervisor.rs:267-306 | an undisturbed stop is its steps in order, and nothing when there is no slot |
| ModelIndex.ResolveManagedLlmName | core/src/socket_listener.rs:1575-1609 | the first stored model of the name, counted among the stored ones, with its id and the name shown, or none of that name |
| ModelIndex.AnswersTo | core/src/socket_listener.rs:1592-1605 | a model answers to its model name and to a display name that is not blank, in either case, and to nothing else |
| ModelIndex.PrepareRuntimeModels | core/src/runner_commands.rs:214-255 | the usable models in order, each entry with its model's id, protocol, base, name and options and its own secret as key, a Codex model's with the stand-in; the requested one's number, none if it is not usable; an error exactly when no model is |
| ModelIndex.PrepareSpawnIndex | core/src/runner_commands.rs:348-365 | a model id decides the index, and one that dropped out gives none; without an id the stored index stays |
| ModelIndex.ManagedModelConfigFromEnv | runner/managed_runtime.py:39-84 | the complete entries in order, each under a key made of its protocol and place, none overwriting another; an error exactly when there are none |
| ModelIndex.ConfigKeysDiffer | runner/managed_runtime.py:49-54 | generated keys never collide |
| ModelIndex.KeyTellsProtocol | managed-ga/code/llmcore.py:1286-1291 | a key says Claude if and only if the entry's protocol is Anthropic's |
| ModelIndex.EntryCarries | core/src/runner_commands.rs:214-250 | a kept model's entry is where it is counted and carries what the model has |
| ModelIndex.ClientCarries | runner/managed_runtime.py:43-84 | and so does a running model's client |
| ModelIndex.RunsExactly | runner/managed_runtime.py:56-81 | without overriding options a model runs if and only if it has a secret, a base of more than slashes and a name |
| ModelIndex.ClientsAreRunning | runner/managed_runtime.py:43-84 | the clients are the models that pass both programs' conditions, in order |
| ModelIndex.ResolvedIsRequestedExactly | core/src/socket_listener.rs:1586-1605 | the lookup's number is the one the runner gives if and only if the model and every stored model before it have a usable secret |
| ModelIndex.ResolvedClientExactly | core/src/socket_listener.rs:1926-1994 | the client at the lookup's number is the model meant if and only if it and every stored model before it run |
| ModelIndex.RequestedClientExactly | core/src/runner_commands.rs:214-250 | the same for the runner's number and the usable models |
| ModelIndex.UnreadableSecretShiftsNumbers | core/src/socket_listener.rs:1592-1595 | a secret that cannot be read makes the number mean another model |
| ModelIndex.UnreadableModelHasNoNumber | core/src/runner_commands.rs:218-221 | the model itself keeps its number in the lookup and has none in the runner |
| PathInstall.LiteralGivesBack | core/src/path_install.rs:179-187 | AppleScript's string reader undoes the script escaping |
| PathInstall.ShellGivesBack | core/src/path_install.rs:179-184 | the shell's single quotes undo the shell escaping |
| PathInstall.QuotingRoundTrips | core/src/path_install.rs:179-189 | a quoted string, read by both, is one word: the string, whatever it contains |
| PathInstall.ScriptRunsCommand | core/src/path_install.rs:192-199 | without a double quote in it, the script's command is the one built |
| PathInstall.ShellTextSplits | core/src/path_install.rs:228-232 | that command splits into program, flag and the two paths, with spaces, apostrophes and backslashes in them |
| PathInstall.QuoteEndsLiteral | core/src/path_install.rs:192-199 | the first double quote of a path ends the script's string |
| PathInstall.InstallsExactly | core/src/path_install.rs:179-232 | the script runs `ln` on exactly the path if and only if the path has no double quote |

## Left out

- Sockets, pipes, HTTP, OAuth, browser control, windows, menus and command-line output: no deep state.
- Encryption, hashing, random ids and JSON: a secret is what reading it gives, an id is given.
- SQLite itself: a statement is atomic; the full-text match, ranking, snippets and connection pools are not modelled, nor are a busy or full database other than for the index writes.
- `updated_at` as a tie-breaker in the model listing: orders are proved distinct, so it never decides.
- Integer widths: turns, orders, counters and the day count are unbounded; `i64` and `u32` limits are not modelled. The timestamp's clock is an input, from 1970 on.
- NUL characters and SQLite's pattern length limit in `LIKE`, and the full Unicode tables behind `to_lowercase`, which is a parameter.
- The search's archived-session and runtime filters, its limit, and the 200-character snippet cut.
- Session statuses other than archived, projects, pins, unread marks and activity times.
- MessageWrites.RunSound: runs do not include deleting sessions, which breaks agreement; `SearchIndex.DeletionKeepsAgreementExactly` says when, and `MessageWrites.AnyRunKeyed` what still holds.
- Cumulative snapshots (`inc_out` off), the early exit of the drain on shutdown, the `/btw` side channel and system messages.
- TurnEvents.Bridge.OnTurnEnd: the event for a question to the user, between a turn's end and what follows it, is not one of the turn events modelled.
- AgentLoop.DispatchCalls: of what code that a tool runs inside the agent could do to the loop, plan mode and appending done-hooks are modelled.
- Aborting a run from another thread other than as a stop between chunks; several turn-end hooks.
- The disaster patterns are an abstract verdict on a call; the response-cleaning patterns are dropped.
- The bridge's handling of a bad command, its history loading, pet hooks and tool re-injection.
- `llmcore.py` and `ga.py` beyond the callbacks named here: a configured entry is taken to build a client.
- `ImSupervisorManager`: a spawned child's pid is known, as it is until the child has been waited for. Preferences, QR files and tokens on disk are not modelled, and `logout` is a stop followed by one more cleared slot.
- ModelIndex.ManagedModelConfigFromEnv: malformed JSON and unknown protocols, which the Rust side never sends, are not modelled.
- `ModelIndex`: advanced options are reduced to whether they replace a required setting by a true or a false value.
- `PathInstall`: shell words are defined for plain characters, backslashes and apostrophes; a command with any other special character outside quotes has no words. Uninstalling quotes one fixed path and is not modelled.
