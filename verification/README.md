# assistant-agent, modelled in Dafny

This project models the decision logic of a single-user assistant. A router reads lines from
the user, asks a chat model to classify each one as `stock`, `work`, `knowledge`, `schedule`
or `unknown`, and falls back twice when it gets "unknown": once with the recent-exchanges log
as context, once with each agent's remembered missions. It then hands the mission to the
matching agent and logs the exchange. Three agents (schedule, stock, work) run a
function-calling loop against a tool server. The model covers:

- the per-agent history store and the router's exchange log (`Memory`);
- the work ledger's tools: add, update payment, read by month, read all (`WorkLedger`);
- the calendar tools' lesson rules: colours, prices, the earnings report, `list_lessons`,
  the field-wise `update_event`, and the per-id `delete_event` (`ScheduleTools`, `LocalTime`);
- the reconciler that copies past calendar lessons into the ledger (`Reconciler`);
- the JSON-Schema to Gemini-declaration conversion that the three agents share
  (`SchemaAdapter`);
- the tool-calling loop with its retry nudge, its iteration cap and its history handling
  (`ToolLoop`);
- the router: reply parsing, the escalation, the two context strings, dispatch, logging
  and the input loop (`Classifier`, `Contexts`, `Router`).

The chat model, the tool servers, the Calendar API and the agents' `solve` are oracles. An
oracle is a function parameter: the model's reply is a function of the conversation it is
sent, and a tool's result is a function of the round, the call's position and the call.
Files are in-memory values: a stored JSON file is an `Option<Json>` (`None` when missing),
and the ledger CSV is a sequence of rows. `date.today()` is a parameter. A Python exception
is an `Outcomes.Result` value `Raise(kind)`.

Modules and files: `outcomes.dfy`, `seqs.dfy`, `strings.dfy` and `json.dfy` hold the shared
helpers (Python's `str` operations, parsed JSON with ordered keys). `memory.dfy`,
`work_ledger.dfy`, `reconciler.dfy`, `local_time.dfy`, `schedule_tools.dfy`,
`schema_adapter.dfy`, `tool_loop.dfy`, `classifier.dfy`, `contexts.dfy` and `router.dfy`
each follow one source component.

Behaviour worth knowing before reading the model:

- A reply with no `{` or no `}`, or whose brace span the JSON decoder rejects, raises in
  `_parse_classification`. It is not read as "unknown": `main`'s handler catches the
  exception, the turn ends as `Crashed`, and no fallback runs.
- The braces are cut from the first `{` to the last `}`, not at the first balanced object.
- Only the schedule agent caps its tool rounds. The stock and work loops run while the model
  keeps calling tools. A capped run whose last reply holds only calls has no text, so
  `response.text.strip()` raises. It does not return an empty answer.
- A work-agent tool answered in-process can raise: the schedule agent's own crash, or
  `_sync_to_csv` on a `list_lessons` reply that is not a list of dated lessons. The
  exception propagates through `asyncio.gather` and ends the work agent's turn. The model
  never sees it as a tool result.
- The reconciler does not deduplicate lessons within a batch. Two past lessons in the same
  absent slot both count as missing.
- The router log holds `{category, mission, answer}` entries, as `main.py` writes them.

## Model

| member | source | states |
|---|---|---|
| Memory.Trim | agents/memory.py:15-18 | the result is the suffix of the history of length min(len, 20) |
| Memory.TrimIdempotent | agents/memory.py:15-18 | trimming a trimmed history changes nothing |
| Memory.AllWellFormed | agents/memory.py:34-36 | the scan accepts exactly when every entry is a dict with `role` and `text` |
| Memory.LoadHistory | agents/memory.py:21-39 | a loaded history has at most 20 entries, each with `role` and `text` |
| Memory.LoadHistoryShape | agents/memory.py:27-37 | a missing file or a non-list loads as []; one malformed entry makes the whole list load as []; a loaded list is always a suffix of the stored one |
| Memory.LoadValidHistory | agents/memory.py:34-37 | a list of well-formed entries loads as its trim |
| Memory.EntryWellFormed | agents/memory.py:53-54 | the entries `append_exchange` writes pass the load-time check |
| Memory.SaveHistory | agents/memory.py:42-47 | the saved list is the last min(len, 20) entries of the history, in order |
| Memory.SaveThenLoad | agents/memory.py:42-47 | a saved list of well-formed entries loads back unchanged |
| Memory.AppendExchange | agents/memory.py:50-55 | the saved list has 2 to 20 entries and ends with the user entry, then the model entry |
| Memory.AppendExchangeKeepsPrior | agents/memory.py:50-55 | before the new exchange, the saved list holds the most recent entries of the loaded history, in order |
| Memory.AppendThenLoad | agents/memory.py:50-55 | the file `append_exchange` writes loads back as exactly what was written |
| Memory.AppendToValidStore | agents/memory.py:50-55 | on a valid store, appending is one trim of the store plus the two new entries |
| Memory.AppendAllKeepsMostRecent | agents/memory.py:50-55 | appending exchanges one by one, trimming each time, equals one trim of the whole conversation |
| Memory.LoadLastExchanges | agents/memory.py:58-72 | the router log loads as [] when missing or not a list; otherwise it loads as its last min(len, 20) entries |
| Memory.SaveLastExchanges | agents/memory.py:75-81 | the router log is saved as its last min(len, 20) entries |
| Memory.SaveThenLoadLastExchanges | agents/memory.py:58-81 | a saved router log loads back as saved |
| Memory.RouterLogIsNotValidated | agents/memory.py:68-70 | the router log keeps an entry of any shape, which an agent history would reject |
| WorkLedger.RecordMatchesHeaders | mcp_servers/work_mcp.py:65-67 | the positional record `add_lesson` writes reads back under `_HEADERS` as the same row |
| WorkLedger.FirstInSlot | mcp_servers/work_mcp.py:60-64 | the scan finds the first row in the `(date, time)` slot, or none exactly when no row is in it |
| WorkLedger.AddLesson | mcp_servers/work_mcp.py:47-68 | an occupied slot is refused with "already exists" and the ledger unchanged; a free slot appends exactly one row at the end |
| WorkLedger.AddLessonDefaults | mcp_servers/work_mcp.py:52-53 | omitted `paid` and `payment_date` are "yes" and "" |
| WorkLedger.AddLessonRefusesTakenSlot | mcp_servers/work_mcp.py:59-64 | an occupied slot is refused whatever student name is given |
| WorkLedger.AddLessonKeepsSlotsUnique | mcp_servers/work_mcp.py:59-68 | if no two rows share a slot before the call, none do after it |
| WorkLedger.ScanPayment | mcp_servers/work_mcp.py:78-85 | rows in the slot get the new `paid` and `payment_date`; other rows are untouched; the flag says whether any matched |
| WorkLedger.UpdatePayment | mcp_servers/work_mcp.py:72-92 | same length and order; names, slots and prices are kept; matching rows get the new payment fields and the others are unchanged; "No lesson found" exactly when no row matches |
| WorkLedger.UpdatePaymentIgnoresName | mcp_servers/work_mcp.py:72-85 | the student name plays no part in which rows change |
| WorkLedger.UpdatePaymentIdempotent | mcp_servers/work_mcp.py:78-91 | repeating an update changes nothing more |
| WorkLedger.UpdatePaymentKeepsSlotsUnique | mcp_servers/work_mcp.py:78-91 | an update keeps at most one row per slot |
| WorkLedger.CallsNeverRemoveRows | mcp_servers/work_mcp.py:65-91 | no sequence of adds and updates removes a row, changes a row's name, slot or price, or breaks slot uniqueness |
| WorkLedger.RowsInMonth | mcp_servers/work_mcp.py:29-33 | the selected rows are exactly the ledger rows whose date starts with the month text |
| WorkLedger.RowsInMonthAppend | mcp_servers/work_mcp.py:29-33 | the month filter keeps ledger order (it distributes over concatenation) |
| WorkLedger.RenderedRowsStartWithStudent | mcp_servers/work_mcp.py:36-43 | the rendered listing starts with "Student: " |
| WorkLedger.ReadLessons | mcp_servers/work_mcp.py:25-43 | "No lessons found for <month>." exactly when no row is in the month |
| WorkLedger.GetAllLessons | mcp_servers/work_mcp.py:96-113 | "No lessons recorded yet." exactly when the ledger is empty |
| WorkLedger.EmptyMonthSelectsAll | mcp_servers/work_mcp.py:32 | the empty month text selects every row |
| WorkLedger.ReadAllMonthsIsGetAll | mcp_servers/work_mcp.py:25-43 | `read_lessons("")` on a non-empty ledger is `get_all_lessons()` |
| Reconciler.PastLessons | agents/work.py:141 | the kept lessons are exactly the calendar lessons dated before today by string order |
| Reconciler.PastLessonsAppend | agents/work.py:141 | the filter keeps calendar order and duplicates: filtering a concatenation concatenates the filtered parts |
| Reconciler.PastLessonsOne | agents/work.py:141 | one lesson is kept exactly when its date is before today |
| Reconciler.ExistingSlots | agents/work.py:146-150 | a slot is existing exactly when some ledger row occupies it |
| Reconciler.Missing | agents/work.py:153-157 | the missing rows are exactly the past lessons whose slot is not existing, each paid "yes" with no payment date |
| Reconciler.MissingAppend | agents/work.py:153-157 | the missing rows keep calendar order: the rows of a concatenation are the rows of its parts, concatenated |
| Reconciler.MissingOne | agents/work.py:153-157 | one lesson gives its row exactly when its slot is not existing |
| Reconciler.MissingKeepsSameSlot | agents/work.py:153-157 | two past lessons in the same absent slot both become rows, in order; the batch is never compared with itself |
| Reconciler.MissingNoneWhenRecorded | agents/work.py:153-160 | nothing is missing when every past lesson's slot is existing |
| Reconciler.SyncAsWritten | agents/work.py:123-165 | as written, the ledger is never changed; "No past lessons" exactly when none is past; "already up to date" with the number of past lessons when none is missing; otherwise the reply announces the count of missing rows followed by the add call's text |
| Reconciler.AddRows | agents/work.py:162-165 | one `add_lesson` per row keeps the old rows as a prefix, adds only given rows, and leaves every row's slot occupied |
| Reconciler.Sync | agents/work.py:140-165 | the corrected sync keeps the old ledger as a prefix; every added row is a past calendar lesson; "No past lessons" exactly when none is past; when none is missing the ledger is unchanged and the reply says "already up to date" with the number of past lessons; otherwise the missing rows are added one by one and the reply announces their count followed by the add replies |
| Reconciler.SyncRecordsEveryPastLesson | agents/work.py:152-165 | after a sync, every past lesson's slot is in the ledger |
| Reconciler.SyncNeverAddsFutureLessons | agents/work.py:141 | no row dated today or later is ever added |
| Reconciler.SyncIdempotent | agents/work.py:145-160 | a second sync adds nothing and replies "already up to date" with the count of past lessons |
| Reconciler.SyncAsWrittenLosesLessons | agents/work.py:162-165 | one past lesson and an empty ledger: as written, the ledger stays empty while the reply says "Added 1"; the corrected sync records the lesson |
| ScheduleTools.LessonColorSets | mcp_servers/schedule_mcp.py:208-211 | the two colour sets are disjoint, and every lesson colour counts as a lesson |
| ScheduleTools.FirstRule | mcp_servers/schedule_mcp.py:226-228 | the chosen rule is the first key, in table order, that is a substring of the name; none exactly when no key is |
| ScheduleTools.LessonPrice | mcp_servers/schedule_mcp.py:223-231 | the price is 130, 150 or 200; the first matching key decides; without a match, colour "4" gives 200 and anything else 150 |
| ScheduleTools.PricingValues | mcp_servers/schedule_mcp.py:214-220 | every table price is 130, 150 or 200 |
| ScheduleTools.NameOutranksColour | mcp_servers/schedule_mcp.py:223-231 | a Noam lesson coloured Flamingo costs 130; Flamingo alone gives 200; no match and no colour gives 150 |
| ScheduleTools.Bump | mcp_servers/schedule_mcp.py:276-277 | `d[k] = d.get(k, 0) + v`: the sum and k's entry grow by v, other entries are unchanged, and a new key goes last |
| ScheduleTools.BumpKeepsDistinct | mcp_servers/schedule_mcp.py:276-277 | a dict keeps each key once |
| ScheduleTools.TallyEvents | mcp_servers/schedule_mcp.py:258-277 | total = Σ per day = Σ per student; the count is zero exactly when no event is a lesson |
| ScheduleTools.TallyEventsMeaning | mcp_servers/schedule_mcp.py:258-277 | the count is the number of lessons and the total the sum of their prices; each day and each student holds exactly the prices of its own lessons; keys are distinct |
| ScheduleTools.TallyTotals | mcp_servers/schedule_mcp.py:274-275 | count and total equal the independent sums over the events |
| ScheduleTools.TallyDay | mcp_servers/schedule_mcp.py:276 | each day's amount is the sum of the prices of that day's lessons |
| ScheduleTools.TallyStudent | mcp_servers/schedule_mcp.py:277 | each student's amount is the sum of the prices of that student's lessons |
| ScheduleTools.TallyDistinct | mcp_servers/schedule_mcp.py:276-277 | no day or student appears twice |
| ScheduleTools.UntitledLessonCountedZero | mcp_servers/schedule_mcp.py:289 | an untitled lesson is billed under "(No title)" but the per-student count as written gives 0 lessons |
| ScheduleTools.StudentCountMatchesAmount | mcp_servers/schedule_mcp.py:288-290 | with the corrected count, a student has lessons exactly when the report bills them |
| ScheduleTools.SortDays | mcp_servers/schedule_mcp.py:285-286 | per-day lines are a permutation of the entries in ascending date order |
| ScheduleTools.SortByAmountDesc | mcp_servers/schedule_mcp.py:288 | per-student lines are a permutation of the entries in descending amount |
| ScheduleTools.SortByAmountDescStable | mcp_servers/schedule_mcp.py:288 | students with equal amounts keep their first-seen order (Python's sort is stable) |
| ScheduleTools.EarningsReport | mcp_servers/schedule_mcp.py:254-292 | as written: "No events found" exactly for no events; "No lessons found" exactly when there are events but none is a lesson |
| ScheduleTools.EarningsReportCorrected | mcp_servers/schedule_mcp.py:254-292 | the report with each student's lessons counted under the key their amount uses; the same two replies for no events and no lessons |
| ScheduleTools.StudentLineInReport | mcp_servers/schedule_mcp.py:286-291 | whichever way lessons are counted, each student of the report has its line with the amount billed and that count |
| ScheduleTools.ReportCountsAsWritten | mcp_servers/schedule_mcp.py:286-289 | each student of the report gets a line with the amount billed to them and the number of lesson events whose summary equals their name |
| ScheduleTools.ReportCountsCorrected | mcp_servers/schedule_mcp.py:286-289 | in the corrected report, each student's line carries the number of lessons billed under their name |
| ScheduleTools.OneStudentReport | mcp_servers/schedule_mcp.py:281-291 | a report with one student is its earlier lines joined, then that student's line |
| ScheduleTools.UntitledReportsDiffer | mcp_servers/schedule_mcp.py:286-291 | on one untitled lesson, the as-written report and the corrected one are different texts |
| ScheduleTools.ReportLines | mcp_servers/schedule_mcp.py:282-292 | a report with lessons is its lines joined by newlines, the second line being the total line |
| ScheduleTools.EarningsReportTotals | mcp_servers/schedule_mcp.py:283 | the report states the sum of the lessons' prices and their number |
| ScheduleTools.ListedLesson | mcp_servers/schedule_mcp.py:316-332 | an event gives an item exactly when it is a lesson with a non-empty `dateTime`; the item carries its title and price |
| ScheduleTools.ListLessons | mcp_servers/schedule_mcp.py:315-334 | the items are exactly the items of the timed lessons, no more than the events |
| ScheduleTools.ListLessonsAppend | mcp_servers/schedule_mcp.py:315-332 | items keep calendar order |
| ScheduleTools.ListedLessonSlot | mcp_servers/schedule_mcp.py:320-324 | date is `start[0:10]` and time `start[11:16]` |
| ScheduleTools.ListLessonsAgreesWithEarnings | mcp_servers/schedule_mcp.py:315-332 | when every lesson is timed, there are as many items as lessons counted by the earnings, and their prices add up to its total |
| ScheduleTools.TimedAt | mcp_servers/schedule_mcp.py:194 | a new time object exists exactly when the text parses; it holds the RFC 3339 text and the fixed time zone, and no `date` |
| ScheduleTools.MergeText | mcp_servers/schedule_mcp.py:191-200 | an empty argument keeps the field; a non-empty one replaces it |
| ScheduleTools.MergeTime | mcp_servers/schedule_mcp.py:193-196 | an empty time keeps the old object; a non-empty one replaces it, and fails exactly when it does not parse |
| ScheduleTools.Merge | mcp_servers/schedule_mcp.py:191-200 | each of summary, description and colour is overwritten exactly when its argument is non-empty; the id is kept |
| ScheduleTools.UpdateBody | mcp_servers/schedule_mcp.py:191-200 | the body is built exactly when both times parse, and it is the fetched event with the non-empty arguments merged in |
| ScheduleTools.UpdateEvent | mcp_servers/schedule_mcp.py:173-205 | a failed get replies "Failed to get event" and sends nothing; a rejected time or a failed update raises; otherwise the merged body is sent and the reply names the summary and id of the event the update returned |
| ScheduleTools.UpdateBodyEmptyIsIdentity | mcp_servers/schedule_mcp.py:191-200 | an update with every argument empty sends the event back unchanged |
| ScheduleTools.UpdateBodyIdempotent | mcp_servers/schedule_mcp.py:191-200 | applying the same update to its result changes nothing more |
| ScheduleTools.UpdateEventNamesStoredEvent | mcp_servers/schedule_mcp.py:191-205 | when the calendar stores the body as sent, the reply names the new summary, or the old one for an empty argument, and the fetched id |
| ScheduleTools.DeleteLine | mcp_servers/schedule_mcp.py:159-165 | a line starts with the error marker exactly when that deletion failed |
| ScheduleTools.DeleteLines | mcp_servers/schedule_mcp.py:159-169 | one line per id, in input order, for the stripped id; the error marker exactly on failures; "deleted successfully" otherwise |
| ScheduleTools.DeleteEvent | mcp_servers/schedule_mcp.py:155-170 | no ids give ""; one id gives exactly its line; the reply contains the line of every id, deleted or failed |
| ScheduleTools.DeleteFailureIsMarked | mcp_servers/schedule_mcp.py:159-170 | one failed deletion puts the error marker into the reply |
| LocalTime.ParseLocal | mcp_servers/schedule_mcp.py:83 | every accepted text gives a real calendar moment |
| LocalTime.IsoFormat | mcp_servers/schedule_mcp.py:84 | `isoformat()` prints `YYYY-MM-DDTHH:MM:00` |
| LocalTime.ToRfc3339 | mcp_servers/schedule_mcp.py:81-84 | the conversion succeeds exactly when `strptime` accepts the text; the result is 19 characters with a `T` |
| LocalTime.ParseLocalText | mcp_servers/schedule_mcp.py:83 | the canonical text of any printable fields parses back to them, exactly when they form a valid moment |
| LocalTime.ToRfc3339OfLocalText | mcp_servers/schedule_mcp.py:81-84 | every valid moment's canonical text converts to its ISO form |
| LocalTime.ToRfc3339AcceptsShortFields | mcp_servers/schedule_mcp.py:83 | single-digit month, day and hour are accepted and padded |
| LocalTime.ToRfc3339LeapDay | mcp_servers/schedule_mcp.py:83 | 29 February 2024 is accepted |
| LocalTime.ToRfc3339RejectsMissingLeapDay | mcp_servers/schedule_mcp.py:83 | 29 February 2025 is rejected |
| LocalTime.ToRfc3339RejectsMalformed | mcp_servers/schedule_mcp.py:83 | hour 24 and a `T` separator are rejected |
| SchemaAdapter.MapType | agents/work.py:80 | a list or dict type raises `TypeError`; a table type maps to its entry; anything else maps to "STRING" |
| SchemaAdapter.MapTypeOfKind | agents/work.py:68-75 | each JSON type name maps to its Gemini name |
| SchemaAdapter.ConvertSchema | agents/work.py:78-91 | a schema that is not a dict raises `AttributeError` |
| SchemaAdapter.ConvertSchemaShape | agents/work.py:78-91 | the result leads with a Gemini type (STRING when none is given) and copies the description; it has `items` exactly for an array with items, `properties` exactly for an object with properties, and `required` only along with the properties |
| SchemaAdapter.ConvertItems | agents/work.py:83-84 | items are converted exactly for an array schema with items |
| SchemaAdapter.ConvertProperties | agents/work.py:85-90 | properties are converted exactly for an object schema with properties |
| SchemaAdapter.ConvertProps | agents/work.py:86-88 | the converted properties have the same names in the same order |
| SchemaAdapter.ConvertPropsAt | agents/work.py:86-88 | each converted property is the conversion of the property at its position; any failing property makes the whole conversion raise |
| SchemaAdapter.ConvertPropsOk | agents/work.py:86-88 | when every property converts, the dict holds the converted values under the same names |
| SchemaAdapter.ConvertSchemaRoundTrip | agents/work.py:78-91 | converting the JSON Schema text of any typed schema gives exactly its Gemini schema |
| SchemaAdapter.Parameters | agents/work.py:172-177 | no `properties` means no parameters and `required` = []; otherwise `required` is copied, defaulting to [] |
| SchemaAdapter.Declaration | agents/work.py:179-186 | a declaration exists exactly when its parameters convert |
| SchemaAdapter.DeclarationShape | agents/work.py:179-186 | a declaration leads with the name and a description; it has `parameters` exactly when properties are non-empty |
| SchemaAdapter.ToolsToGemini | agents/schedule.py:105-124 | one declaration per tool, in order, then the extras; the first failing tool raises |
| SchemaAdapter.WorkDeclarations | agents/work.py:188-189 | the work agent's list ends with `query_schedule` then `sync_to_csv` |
| ToolLoop.Calls | agents/schedule.py:170-174 | a call is listed exactly when it is one of the reply's function-call parts; none exactly when no part is a call |
| ToolLoop.McpText | agents/schedule.py:183-186 | a result without content reads "No result" |
| ToolLoop.Results | agents/work.py:243 | the round's results exist exactly when no call raises, one per call, result i for call i; otherwise the error is one a call raised |
| ToolLoop.Responses | agents/schedule.py:188-194 | response i names call i and carries result i |
| ToolLoop.AnyError | agents/schedule.py:197 | `has_errors` holds exactly when some result contains the error marker |
| ToolLoop.Round | agents/schedule.py:177-212 | a round raises exactly when one of its calls raises, with that call's error; otherwise it appends exactly the reply, then one user turn of the responses in call order; the nudge is its last part, present exactly when nudging and some result has the error marker |
| ToolLoop.NudgeOnlyOnError | agents/schedule.py:196-212 | without an error result, the schedule agent's round is the stock agent's round, which never nudges |
| ToolLoop.Drive | agents/schedule.py:164-219 | a loop whose calls never raise always ends; a raise is one a call of an executed round raised; the loop only appends, two contents per round; every executed round's reply had calls; a reply without calls ends it at once with nothing added; otherwise it stops at a reply without calls or at the bound |
| ToolLoop.DriveLimitIrrelevant | agents/schedule.py:161-167 | a loop that ends because the model stops calling ends the same under any larger bound |
| ToolLoop.DriveExtendsByRounds | agents/schedule.py:199-212 | an executed round's reply and results are kept at their place in the conversation |
| ToolLoop.Converse | agents/schedule.py:160-219 | the schedule agent runs at most 10 rounds; the stock and work loops end only on a reply without calls; a raising call in the first round fails the loop with its error, and only a raising call fails it; the seed is kept as a prefix; a first reply without calls is the answer with no round run; every executed round's reply had calls |
| ToolLoop.ReplyText | agents/schedule.py:221 | `response.text` is absent exactly when no part is text |
| ToolLoop.ReplyTextHasEveryPart | agents/schedule.py:221 | every text part is in the reply's text |
| ToolLoop.Answer | agents/schedule.py:221 | the answer is the stripped reply text; a reply without text raises `AttributeError` |
| ToolLoop.AnswerOfTextReply | agents/schedule.py:221 | a plain text reply's answer is its stripped text |
| ToolLoop.CappedCallOnlyReplyRaises | agents/schedule.py:161-221 | a run capped on a reply of calls only has no answer |
| ToolLoop.HistoryFromStore | agents/schedule.py:72-76 | a rebuilt history has one message per stored entry; a failure is a `TypeError`, `KeyError` or validation error |
| ToolLoop.HistoryFromStoreShape | agents/schedule.py:72-76 | each rebuilt message carries its entry's role and text |
| ToolLoop.RebuildAccepts | agents/schedule.py:72-76 | entries whose role and text are strings always rebuild |
| ToolLoop.HistoryFromEntries | agents/schedule.py:72-76 | the entries `append_exchange` writes rebuild into one-part text messages |
| ToolLoop.RebuiltEndsWithExchange | agents/schedule.py:72-76 | after a restart, a rebuilt history ends with the last stored mission and answer |
| ToolLoop.Remember | agents/schedule.py:224-230 | the history after a turn ends with the mission and the final reply, holds at most 20 messages, and keeps the most recent older ones in order |
| ToolLoop.Solve | agents/schedule.py:127-233 | the capped agent never runs out; a crash is `AttributeError` or an error a tool call raised, and only `AttributeError` when no call can raise; a call raising in the first round crashes the turn with that error; an answered turn's history ends with the mission and the reply holding that answer, after the most recent older messages, trimmed to 20; its store is what `append_exchange` writes for the mission and that answer |
| ToolLoop.SolveSeesHistoryThenMission | agents/schedule.py:151-152 | the model's first request is the history followed by the mission, untouched |
| ToolLoop.ArgText | agents/work.py:232-237 | a missing argument reads as "" |
| ToolLoop.WorkDispatch | agents/work.py:229-241 | `sync_to_csv` and `query_schedule` are answered in-process, with their exceptions; every other call goes to the work server and never raises |
| ToolLoop.InProcessToolsShadowServer | agents/work.py:229-238 | the server is never consulted for the two in-process tool names |
| ToolLoop.InProcessRaiseEndsWorkTurn | agents/work.py:229-243 | a work turn whose first reply is one in-process call that raises crashes with that error |
| ToolLoop.ScheduleTool | agents/work.py:236-238 | `query_schedule` returns the schedule agent's answer, or raises the error its turn raised |
| ToolLoop.CallingScheduleModelCrashes | agents/schedule.py:161-221 | a schedule model that keeps calling tools hits the cap and the turn crashes with `AttributeError` |
| ToolLoop.ScheduleCrashEndsWorkTurn | agents/work.py:236-243 | a work turn that queries such a schedule agent crashes with its `AttributeError` |
| Classifier.FirstIndex | main.py:142 | `raw.index(c)`: the first position holding `c`; none exactly when `c` does not occur |
| Classifier.LastIndex | main.py:142 | `raw.rindex(c)`: the last position holding `c`; none exactly when `c` does not occur |
| Classifier.ExtractBraces | main.py:142 | `ValueError` exactly when either brace is missing; a non-empty span starts with `{` and ends with `}` |
| Classifier.ExtractBracesOfWrappedObject | main.py:142 | prose around one object, without braces of its own, yields exactly that object |
| Classifier.ParseClassification | main.py:140-143 | a missing brace raises `ValueError`; decoding fails with `JSONDecodeError` exactly when the decoder rejects the span |
| Classifier.Classify | main.py:146-149 | the message joins the session's list; the reply fails exactly when it has no text, no brace span or an undecodable span, and otherwise is the decoded span |
| Classifier.FirstVerdict | main.py:146-149 | the first verdict exists exactly when the reply parses to a dict with category, confidence and reason, and carries that dict |
| Classifier.RetryMessage | main.py:158-163 | the retry message starts with the context and the instruction, names its context source, and ends with the user's line |
| Classifier.ReadFields | main.py:199-201 | reading succeeds exactly for a dict with category, confidence and reason; a non-dict is a `TypeError`, a missing key a `KeyError` |
| Classifier.Accepted | main.py:206 | a fallback result is accepted exactly when it is a non-empty dict whose category is not "unknown"; a truthy non-dict raises |
| Classifier.Fallback | main.py:152-181 | an empty context sends nothing and yields `None`; otherwise exactly one message is sent |
| Classifier.Decide | main.py:197-221 | one to three messages, the line first; a chosen category is never "unknown"; a fallback or a give-up happens only after a first "unknown", and a give-up keeps the first reason |
| Classifier.Escalate | main.py:204-221 | at most two more messages; an empty recent context sends none for that step |
| Classifier.LastResort | main.py:212-221 | an empty summary gives up without a message; otherwise at most one message |
| Classifier.Settle | main.py:206-221 | a retry that raised, or whose acceptance test raised, ends the line with that exception; a declined retry leads to the next step; an accepted one decides with its fields read again |
| Classifier.AcceptRetry | main.py:207-210 | an accepted retry's fields are read again and its category is not "unknown" |
| Classifier.KnownCategoryNeedsOneMessage | main.py:198-204 | a first category other than "unknown" decides after one message |
| Classifier.FallbackUnknown | main.py:152-165 | a retry whose reply parses to an "unknown" verdict, whatever its reason, sends one message and is not accepted |
| Classifier.AllUnknownGivesUp | main.py:197-221 | when the first reply and every retry parse to "unknown" verdicts, each with its own reason, the line sends one message per non-empty context and gives up with the FIRST reason |
| Classifier.Retries | main.py:152-181 | one fallback message per non-empty context, recent exchanges first |
| Classifier.FirstAccepted | main.py:203-221 | a reference scan over the fallback messages: the first reply that raises ends the line, the first object whose category is not "unknown" is chosen, and a give-up sends every message and keeps the given reason |
| Classifier.DecideIsFirstAccepted | main.py:197-221 | for every chat model and decoder, the nested fallbacks end the line exactly as the reference scan does |
| Classifier.EscalateIsScan | main.py:203-221 | the two fallbacks are the scan over the non-empty contexts |
| Classifier.LastResortIsScan | main.py:212-221 | the agent-memory fallback is the scan over its one message, or over none for an empty summary |
| Classifier.SettleIsStep | main.py:206-211 | one fallback settled is one step of the scan |
| Classifier.FirstAcceptedSkipsUnknown | main.py:206 | a reply parsing to an "unknown" verdict passes the scan to the next message |
| Classifier.FirstAcceptedTakesKnown | main.py:206-210 | a reply that is an object with another category ends the scan with that choice |
| Classifier.FirstAcceptedAllUnknown | main.py:203-221 | when all replies are "unknown" verdicts, whatever their reasons, the scan sends every message and gives up |
| Classifier.FirstAcceptedChoosesLast | main.py:203-221 | "unknown" verdicts followed by a known object: the scan sends every message and chooses that object |
| Classifier.DecideAfterUnknown | main.py:197-205 | after a first reply that is an "unknown" verdict, the line is the scan over the non-empty contexts' retries with that verdict's reason |
| Classifier.RetriesAllUnknown | main.py:203-221 | when each retry's reply is an "unknown" verdict, the scan sends every retry and gives up |
| Classifier.RetriesChooseRecent | main.py:203-210 | an accepted recent-exchanges reply ends the scan after one retry |
| Classifier.RetriesChooseMemory | main.py:211-218 | after an "unknown" recent reply, or none for an empty recent context, an accepted agent-memory reply ends the scan after every retry |
| Classifier.RecentRetryDecides | main.py:203-210 | an accepted recent-exchanges retry decides after two messages; the agent memory is never asked |
| Classifier.MemoryRetryDecides | main.py:212-218 | after "unknown" replies (none for an empty recent context), an accepted agent-memory retry decides after one message per non-empty context |
| Contexts.Preview | main.py:121 | the preview is the first 100 characters of the answer, "" when there is none |
| Contexts.ExchangeLine | main.py:120-122 | a line exists only for a dict with category and mission, and starts with `- [<category>] mission: ` |
| Contexts.ExchangeLines | main.py:119-122 | one line per entry, in order; failing exactly when some entry fails |
| Contexts.LastExchangesContext | main.py:113-123 | "" exactly for an empty log; built from the last 5 entries only; it starts with "[Recent exchanges:" |
| Contexts.RestartKeepsContext | main.py:113-118 | the context after a restart, from the saved log, equals the context before it |
| Contexts.UserTextsEmpty | main.py:131 | an agent has no recent mission exactly when its history has no user entry |
| Contexts.UserTextsAppend | main.py:131 | user texts keep history order |
| Contexts.QuotedListShowsLast | main.py:131-133 | the quoted list of the last 3 missions shows the most recent one |
| Contexts.AgentMemorySummary | main.py:126-137 | the summary is "" exactly when no agent's history has a user entry; otherwise it starts with the heading and ends with `]` |
| Contexts.SummaryShowsLastMission | main.py:126-137 | an agent's last stored mission appears in the summary, quoted |
| Contexts.AgentLineShowsLastMission | main.py:130-134 | the agent's own line quotes the mission of its last stored exchange |
| Router.Dispatch | main.py:223-246 | the mission is `result["mission"]` (`KeyError` when missing); exactly the agent named by the category is called, and none for another category |
| Router.HandleLine | main.py:190-195 | a blank line is skipped; "quit" in any ASCII case stops and changes nothing; at most three messages are sent; the log grows by one entry exactly for a non-empty answer, and then the log file is rewritten |
| Router.Turn | main.py:197-255 | the line is sent first; a logged turn appends `{category, mission, answer}` and saves the log; any other turn leaves log and file alone; an answered category is never "unknown" |
| Router.HandlerAppendsAtMostOne | main.py:249-255 | each line adds at most one log entry and keeps the earlier ones |
| Router.Run | main.py:190-255 | over the whole input, the log only grows, by at most one entry per line |
| Router.LoopStopsAtQuit | main.py:194-195 | a line that always quits ends the loop: nothing after it matters |
| Router.QuitStopsTheLoop | main.py:194-195 | a "quit" line and every line after it change nothing |
| Router.BlankLinesAreSkipped | main.py:191-193 | blank lines change nothing |

## Left out

- `web/server.py`: the web transport, its lock and its `{role, text}` router log are not part of this model.
- `mcp_servers/stock_mcp.py` and `agents/knowledge.py`: thin wrappers over a market-data library and a chat session. The knowledge and stock agents' answers are oracles (`Router.Agents`).
- `list_events` and `create_event` text formatting: output only, no decision logic.
- The date windows built with `timedelta(days=1)` in `calculate_earnings` and `list_lessons`: the calendar's answer for a range is the input event list.
- Router.Turn: each agent's history store is read from a fixed `stores` snapshot. The writes the agents make while answering are not threaded back into the router's state.
- ToolLoop.Solve: the schedule agent's nested call from the work agent (`query_schedule`) is an oracle. Its side effect on the schedule agent's history is not modelled.
- ToolLoop.Results: when several calls of a round raise, `asyncio.gather` propagates the one that raises first in time. The model takes the first in call order, and its contract only promises one of the raised errors.
- ToolLoop.Converse: the stock and work loops have no bound. They are modelled with a `fuel` bound, and `NoFuel` when the fuel runs out, so their termination is not claimed.
- ToolLoop.HistoryFromStore: the message type's validation is reduced to "role and text are strings".
- Router.Turn: `main` catches `BaseException`. Every exception of a turn is modelled as `Crashed`, and interrupts are not distinguished.
- Contexts.Preview: a logged answer that is not a string is treated as a `TypeError`. Python would slice a list, for example.
- JsonValues.Show: lists and dicts are rendered by a placeholder, not by Python's `repr`.
- Strings.LowerAscii: lowercasing is ASCII-only. Non-ASCII letters in names, and "quit" written with non-ASCII look-alikes, are compared unchanged.
- LocalTime.ParseLocal: only ASCII digits are accepted. `strptime` also takes other Unicode decimal digits.
- LocalTime.IsoFormat: the moment has whole minutes, so seconds always print as ":00".
- WorkLedger.RecordMatchesHeaders: CSV quoting is not modelled. A field holding a comma, quote or newline is read back as written.
- ScheduleTools.UpdateEvent: an event always has an `id`, so the `KeyError` of `updated['id']` on a returned event without one is not modelled. The Calendar API's answers to the get and the update are parameters.
- Reconciler.Sync: the lessons are the list `list_lessons` returns; its JSON text and `json.loads` are not modelled.
- The chat model's sampling, the Calendar API, the MCP sessions and the order of parallel tool calls: oracles indexed by round and position. Gathering returns results in call order. An MCP server answers a failing tool with a text, so calls through a server never raise; only the work agent's in-process tools do.
- Floating point: the classification's `confidence` is carried along as a JSON value and never compared.

## Findings

| source | as written | input that shows it | evidently intended | confidence | as-written member | corrected member |
|---|---|---|---|---|---|---|
| mcp_servers/schedule_mcp.py:289 | the per-student count matches on `e.get("summary") == name`, while amounts are keyed by `event.get("summary", "(No title)")` | one default-colour lesson with no summary: "(No title)" is billed its price with "0 lessons"; `ScheduleTools.UntitledReportsDiffer` shows the as-written and corrected reports differ there | count the lessons under the same key the amounts use; `ScheduleTools.ReportCountsCorrected` and `ScheduleTools.StudentCountMatchesAmount` state the corrected count | not executed | ScheduleTools.EarningsReport | ScheduleTools.EarningsReportCorrected |
| agents/work.py:163 | all missing rows go in one `add_lesson` call under a `lessons` argument that `add_lesson` (mcp_servers/work_mcp.py:47-54) does not declare, so the call is rejected and nothing is written | one past lesson, an empty ledger: the reply says "Added 1 missing lessons" and the ledger stays empty | one `add_lesson` call per missing row | not executed; assumes the tool server rejects a call that lacks the required arguments | Reconciler.SyncAsWrittenLosesLessons | Reconciler.SyncRecordsEveryPastLesson |
