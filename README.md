# supabase-monitor-bot, modelled in Dafny

The system watches a set of Supabase edge functions and reports their failures
to Discord.

- **Error monitor** (`_shared/error_monitor.ts`). A shared wrapper around every
  monitored function. It resolves the business day a run is about: the
  `X-Business-Day` header, else the `business_day` query parameter, else
  yesterday. When the handler throws, it files one `pending` row in the error
  table and answers a generic 500. It also records successful runs in
  `function_runs`.
- **Batcher** (`monitor-errors`). It reads the pending rows in day order and
  groups them by business day. For each day it posts one Discord report, with
  a bullet per row and two buttons, `retry_all:<day>` and `reject_all:<day>`.
  It then marks that day's rows `notified`.
- **Interaction endpoint** (`discord-interactions`). It checks the request:
  the method must be POST, a public key must be configured, and the Ed25519
  signature over timestamp plus body must hold. Then it dispatches:
  - a ping gets a pong;
  - the `audit` command gets a deferred reply, then a per-table audit of
    yesterday;
  - a button press is split at the first `:` of its custom id.
    `retry_all:<day>` marks the day's rows `retrying` and re-invokes each
    job. It then deletes the rows whose job succeeded, resets the failed ones
    to `pending`, and edits the message with a complete, failed or partial
    summary. `reject_all:<day>` deletes the day's rows.
- **`test-alerta`**. A demo job that throws on `fail=1`.
- **Preview script** (`preview-alerta.ts`). It loads a `.env` file and builds
  a sample report in the batcher's layout.
- **Patcher** (`patch-and-deploy-sync.mjs`). Its lines 14-32 describe a
  rewrite of a function's source so that its catch block reports through
  `notifyError`.

The model has these parts:

- **Store** (`store.dfy`). The error table is a map from id to row inside a
  `Database` class. Its methods are the PostgREST calls the code makes: select
  awaiting, select pending in day order, patch status, delete by ids, delete
  by day, insert. The run table is a sequence.
- **Environment.** The process environment is a `map<string, string>`.
- **Inputs in place of the world.** Anything the code reads from outside is an
  input:
  - the clock is a `CalendarDate`;
  - Ed25519 is a pair of oracle functions;
  - `JSON.parse` of the interaction body is a function to `Option`;
  - the result of each re-invocation is an oracle indexed by the call number;
  - the audit's HEAD requests are a function of table and filter.
- **Methods for imperative code.** The loops of the source are methods:
  - grouping into a `Map`;
  - the notify loop;
  - the retry loop and its reconciliation;
  - the per-function error count;
  - the two audit passes;
  - hex decoding;
  - the `.env` loader.

  Each method is proved against functions that state the result. Those
  functions carry lemmas about partition, order, totals and round trips.

## Model

| member | source | states |
|---|---|---|
| Calendar.NextDay | supabase/functions/discord-interactions/index.ts:148-153 | the result is later than the date and no date lies strictly between them (month, year and leap-day rollover) |
| Calendar.PrevDay | supabase/functions/_shared/error_monitor.ts:19-23 | the result is the date whose next day is the given one, and it comes before it |
| Calendar.PrevOfNext | supabase/functions/discord-interactions/index.ts:148-153 | going one day forward then one day back returns the same date |
| Calendar.Pad2RoundTrip | supabase/functions/_shared/error_monitor.ts:10 | the two-digit zero-padded text of a number below 100 reads back as that number |
| Calendar.ParseFormat | supabase/functions/discord-interactions/index.ts:148-153 | a date with a four-digit year, rendered `YYYY-MM-DD`, parses back to the same date |
| Calendar.FormatParse | supabase/functions/discord-interactions/index.ts:149-152 | a valid `YYYY-MM-DD` text with a year from 1000 on renders back to its own text |
| Calendar.NextDayText | supabase/functions/discord-interactions/index.ts:148-153 | `getNextDay`: the rendered next day of the parsed date, or the invalid-date text when the input does not parse |
| Calendar.YesterdayIsDayBefore | supabase/functions/discord-interactions/index.ts:141-146 | yesterday's text parses to the date whose next day is today |
| Calendar.YesterdayWithinMonth | supabase/functions/_shared/error_monitor.ts:9-23 | yesterday of 2024-03-02 is written `2024-03-01` |
| Calendar.YesterdayAcrossMonthEnd | supabase/functions/_shared/error_monitor.ts:9-23 | yesterday of 2024-03-01 is the leap day `2024-02-29` |
| Calendar.YesterdayAcrossYearEnd | supabase/functions/_shared/error_monitor.ts:9-23 | yesterday of 2025-01-01 is `2024-12-31` |
| Edge.QueryParam | supabase/functions/_shared/error_monitor.ts:34 | the parameter is absent exactly when no pair has the name; otherwise its value comes from a pair with the name |
| Edge.QueryParamFirst | supabase/functions/_shared/error_monitor.ts:34 | `searchParams.get` reads the first pair with the name: later pairs with the same name are ignored |
| JsMap.Set | supabase/functions/monitor-errors/index.ts:151-153 | `Map.set` keeps the visiting order valid; a new key goes last and an existing key keeps its place |
| JsMap.Delete | supabase/functions/discord-interactions/index.ts:360 | `Map.delete` removes the key from the entries and from the visiting order, leaving the others in order |
| Store.Database.SelectAwaiting | supabase/functions/discord-interactions/index.ts:53-63 | the day's pending and notified rows, each once, as stored, and all of them |
| Store.Database.SelectPending | supabase/functions/monitor-errors/index.ts:38-45 | all pending rows, each once, as stored, ordered by business day then occurrence time |
| Store.Database.SetStatus | supabase/functions/monitor-errors/index.ts:48-59 | exactly the listed rows take the new status and every other column, `retried_at` included, is kept; no row appears or disappears |
| Store.Database.SetStatusStamped | supabase/functions/discord-interactions/index.ts:65-76 | exactly the listed rows take the new status and the `retried_at` stamp, every other column is kept; no row appears or disappears |
| Store.Database.DeleteIds | supabase/functions/discord-interactions/index.ts:78-85 | exactly the listed rows disappear; the rest are untouched |
| Store.Database.DeleteAwaiting | supabase/functions/discord-interactions/index.ts:87-95 | exactly the day's pending and notified rows disappear |
| Store.Database.InsertError | supabase/functions/_shared/error_monitor.ts:78-95 | the row is stored under a fresh id, which is returned |
| Store.Database.AppendRun | supabase/functions/_shared/error_monitor.ts:126-135 | the run row is appended; the error table is untouched |
| Store.InsertSortedKeepsOrder | supabase/functions/monitor-errors/index.ts:39 | inserting a row into a list sorted by business day then occurrence time keeps it sorted |
| Store.RowBeforeTransitive | supabase/functions/monitor-errors/index.ts:39 | the `order=business_day.asc,occurred_at.asc` order is transitive |
| ErrorMonitor.GetBusinessDay | supabase/functions/_shared/error_monitor.ts:30-38 | a non-empty header wins, then a non-empty query parameter, then yesterday; the result is never empty |
| ErrorMonitor.BusinessDaySources | supabase/functions/_shared/error_monitor.ts:30-38 | an empty header falls through to the query parameter, and the result is always one of the three sources |
| ErrorMonitor.ErrorToString | supabase/functions/_shared/error_monitor.ts:71 | `String(error)` is empty exactly when name and message are, and starts with the name and ends with the message |
| ErrorMonitor.ErrorMessageText | supabase/functions/_shared/error_monitor.ts:71 | `message \|\| String(error)`: the message when it is non-empty, else the error's `String` form (name and message); empty only when name and message both are |
| ErrorMonitor.ToError | supabase/functions/_shared/error_monitor.ts:176-178 | an `Error` passes through unchanged; any other value becomes an `Error` whose message is its `String` |
| ErrorMonitor.ToErrorNormalises | supabase/functions/_shared/error_monitor.ts:176-178 | normalising twice changes nothing, and a wrapped value never files an empty message |
| ErrorMonitor.ErrorPayload | supabase/functions/_shared/error_monitor.ts:68-76 | the filed row is pending, with the given function, project, business day, message text and stack, and no `retried_at` stamp |
| ErrorMonitor.FiledErrorAwaitsAction | supabase/functions/_shared/error_monitor.ts:68-76 | a filed row awaits a decision on its own business day and on no other |
| ErrorMonitor.SaveError | supabase/functions/_shared/error_monitor.ts:48-96 | without credentials or when the insert is refused, nothing is stored and the result is None; otherwise the payload is stored under a fresh id that is returned |
| ErrorMonitor.SaveRun | supabase/functions/_shared/error_monitor.ts:102-140 | one run row with the record count when configured and accepted; the error table is never touched |
| ErrorMonitor.ResolveBusinessDay | supabase/functions/_shared/error_monitor.ts:152 | only an omitted business day defaults to yesterday; an empty one is kept |
| ErrorMonitor.NotifyError | supabase/functions/_shared/error_monitor.ts:146-154 | files one pending row under `PROJECT_NAME` (or the default project) on the resolved day, or nothing when unconfigured or refused |
| ErrorMonitor.NotifySuccess | supabase/functions/_shared/error_monitor.ts:164-172 | appends one run row with the record count on the resolved day; the error table is never touched |
| ErrorMonitor.InternalError | supabase/functions/_shared/error_monitor.ts:188-191 | status 500 with exactly `error` and `function_name`, and no error message |
| ErrorMonitor.WithErrorMonitoring | supabase/functions/_shared/error_monitor.ts:180-194 | a returned response passes through with nothing filed; a throw answers the generic 500 and, when the store is configured and accepts, files one pending row on the request's business day |
| TestAlerta.FailMessage | supabase/functions/test-alerta/index.ts:16 | the thrown message embeds the business day |
| TestAlerta.Handle | supabase/functions/test-alerta/index.ts:3-26 | unknown path is 404 whatever the query; `fail=1` on a known path throws naming the business day; otherwise 200 with that business day |
| TestAlerta.Serve | supabase/functions/test-alerta/index.ts:3-26 | through the wrapper: 404 and 200 file nothing; `fail=1` answers 500 and, when the store is configured and accepts, adds exactly one row, the wrapper's payload for the thrown error on the request's business day; otherwise nothing is filed |
| TestAlerta.FiledRowContents | supabase/functions/test-alerta/index.ts:12-16 | the row `fail=1` files is pending, named `test-alerta`, of the configured or default project, on the business day, with the thrown message naming that day |
| Signature.HexToBytes | supabase/functions/_shared/discord_verify.ts:31-38 | odd length throws; otherwise `len/2` bytes, byte i parsed in base 16 from characters 2i and 2i+1 |
| Signature.DecodeHex | supabase/functions/_shared/discord_verify.ts:31-38 | the decoded bytes as a value: None exactly for odd length |
| Signature.PairOfHexDigits | supabase/functions/_shared/discord_verify.ts:35 | two hexadecimal digits (other than `0x`) store the byte they spell in base 16 |
| Signature.EncodeCharDecodes | supabase/functions/_shared/discord_verify.ts:15 | a character's UTF-8 bytes announce their own length in the lead byte and spell the character back |
| Signature.DecodeEncodeHex | supabase/functions/_shared/discord_verify.ts:31-38 | decoding the hex text of any byte string gives the bytes back |
| Signature.Utf8Concat | supabase/functions/_shared/discord_verify.ts:15 | encoding a concatenation encodes each part in turn |
| Signature.Utf8Injective | supabase/functions/_shared/discord_verify.ts:15 | different texts have different encodings |
| Signature.SignedMessage | supabase/functions/_shared/discord_verify.ts:15 | the signed bytes are the timestamp's encoding followed by the body's |
| Signature.VerifySignature | supabase/functions/_shared/discord_verify.ts:6-29 | true exactly when both hex texts decode, the key imports and the oracle accepts the signature over timestamp plus body; any failure is false |
| Signature.OddHexNeverVerifies | supabase/functions/_shared/discord_verify.ts:32 | an odd-length key or signature is never accepted, whatever the oracle says |
| Signature.SignedMessageDeterminesBody | supabase/functions/_shared/discord_verify.ts:15 | with one timestamp, a signature covers one body only |
| Batcher.GroupOfMembers | supabase/functions/monitor-errors/index.ts:148-154 | a day's group holds exactly the rows with that day (or `sin-fecha`) |
| Batcher.DayKeysMembers | supabase/functions/monitor-errors/index.ts:148-154 | the key list names every day of the rows once and nothing else |
| Batcher.GroupsPartition | supabase/functions/monitor-errors/index.ts:148-154 | every row is in the group of its own day and in no other; listed groups are non-empty |
| Batcher.GroupSizesCover | supabase/functions/monitor-errors/index.ts:148-154 | the group sizes add up to the number of rows |
| Batcher.GroupByDate | supabase/functions/monitor-errors/index.ts:148-154 | the `Map` visits days in first-appearance order and holds each day's rows in input order |
| Batcher.BuildReport | supabase/functions/monitor-errors/index.ts:78-105 | the report names the day, counts the group, has one bullet per row in order, and carries `retry_all:<day>` and `reject_all:<day>` |
| Batcher.ResultsFor | supabase/functions/monitor-errors/index.ts:156-161 | one result per listed day, with that group's size, totalling the groups' sizes |
| Batcher.ResultsCoverPending | supabase/functions/monitor-errors/index.ts:156-165 | the reported counts add up to the number of pending rows |
| Batcher.FetchPendingErrors | supabase/functions/monitor-errors/index.ts:33-46 | the pending rows in day order, all of them when the store answers, none when it is unset or fails |
| Batcher.MarkAsNotified | supabase/functions/monitor-errors/index.ts:48-60 | the listed rows become notified; an empty list or an unset store changes nothing |
| Batcher.IdsOfGroup | supabase/functions/monitor-errors/index.ts:160 | a group's ids are the fetched ids whose row has that day |
| Batcher.NotifiedAll | supabase/functions/monitor-errors/index.ts:158-162 | after every group is marked, exactly the fetched rows are notified and the rest are unchanged |
| Batcher.Run | supabase/functions/monitor-errors/index.ts:136-168 | an unset or failing store read sends nothing and writes nothing; no pending rows: nothing sent or changed; otherwise one report per day (when the bot is configured), every pending row notified whether or not the send answered ok, nothing else changed, and results whose counts total the pending rows |
| InteractionStore.FetchErrorsByDate | supabase/functions/discord-interactions/index.ts:53-63 | the day's pending and notified rows, each once and as stored; none when the store is unset or fails |
| InteractionStore.UpdateStatusByIds | supabase/functions/discord-interactions/index.ts:65-76 | the listed rows take the status and a `retried_at` stamp of the call's clock reading; no call for an unset store or an empty list |
| InteractionStore.DeleteByIds | supabase/functions/discord-interactions/index.ts:78-85 | the listed rows are deleted; no call for an unset store or an empty list |
| InteractionStore.DeleteByDate | supabase/functions/discord-interactions/index.ts:87-95 | with the store set, exactly the day's pending and notified rows are deleted (retrying rows and other days survive); unset, nothing is |
| Interactions.CustomIdSplitsAtFirstColon | supabase/functions/discord-interactions/index.ts:454-457 | an id is split at its first colon into action and parameter |
| Interactions.CustomIdWithoutColon | supabase/functions/discord-interactions/index.ts:454-457 | without a colon, the action is the id less its last character and the parameter is the whole id |
| Interactions.ReportButtonsRoundTrip | supabase/functions/discord-interactions/index.ts:454-464 | the batcher's `retry_all:<day>` and `reject_all:<day>` read back as a retry and a rejection of that day |
| Interactions.ButtonWithColon | supabase/functions/discord-interactions/index.ts:454-466 | with the first colon at i, the press is malformed exactly when the colon opens or ends the id, and otherwise dispatches on the text before it |
| Interactions.ButtonWithoutColon | supabase/functions/discord-interactions/index.ts:454-466 | without a colon, the press is malformed exactly for ids of at most one character, and otherwise dispatches on the id less its last character with the whole id as the day |
| Interactions.ReplyType | supabase/functions/discord-interactions/index.ts:12-15 | each reply kind has its own response type: pong 1, deferred channel message 5, deferred update 6, message update 7 |
| Interactions.RouteOf | supabase/functions/discord-interactions/index.ts:416-469 | 405 exactly for non-POST, 500 exactly for a missing key, 401 exactly for a failed signature; `audit` exactly for an accepted, parsed command named `audit` |
| Interactions.Gate | supabase/functions/discord-interactions/index.ts:416-440 | the checks in order: the first that fails decides the fixed answer (405, 500, 401, or the parse throwing); a request that passes is routed by its parsed body |
| Interactions.GateIgnoresBody | supabase/functions/discord-interactions/index.ts:416-436 | the gate does not depend on how the body parses, and passing it means POST, a key and an accepted signature |
| Interactions.DispatchAfterGate | supabase/functions/discord-interactions/index.ts:443-469 | after the gate a ping gets a pong, a command other than `audit` gets 400, and an unknown type gets 400 |
| Interactions.FixedAnswer | supabase/functions/discord-interactions/index.ts:417-469 | gated requests are plain 405, 500 or 401; unknown commands and types are plain 400 |
| Interactions.RetryFunction | supabase/functions/discord-interactions/index.ts:159-185 | one POST with the day in `X-Business-Day` exactly when both variables are set; success exactly when that call succeeds |
| Interactions.InvocationsInOrder | supabase/functions/discord-interactions/index.ts:259-266 | call i names row i's function and the pressed day |
| Interactions.OutcomesPartition | supabase/functions/discord-interactions/index.ts:256-266 | successes plus failures equal the fetched rows, and each row's name lands in the list of its outcome |
| Interactions.OutcomesEmpty | supabase/functions/discord-interactions/index.ts:284-298 | no failures exactly when every call succeeded; no successes exactly when every call failed |
| Interactions.IdsNamedMembers | supabase/functions/discord-interactions/index.ts:269-277 | the filtered ids are the fetched ids whose function is in the list |
| Interactions.RetrySummaryMeaning | supabase/functions/discord-interactions/index.ts:284-298 | complete exactly when every job succeeded, failed exactly when none did, always failed when jobs are unconfigured |
| Interactions.RetryLoop | supabase/functions/discord-interactions/index.ts:259-266 | the two lists are the outcome partition and the calls are one per row in order |
| Interactions.HandleRetryAll | supabase/functions/discord-interactions/index.ts:237-307 | an unset or failing store read fetches no rows; no rows: grey notice, no calls, no writes; otherwise a deferred update, all fetched rows marked retrying and stamped with the first clock reading, one call per row, the three-way summary, and the reconciliation: succeeded rows deleted, the other fetched rows pending with the second reading's stamp, the rest untouched |
| Interactions.ReconciledLeavesNothingRetrying | supabase/functions/discord-interactions/index.ts:268-278 | after reconciliation a surviving fetched row is pending again, stamped at the reset |
| Interactions.HandleRejectAll | supabase/functions/discord-interactions/index.ts:309-317 | the day's pending and notified rows are deleted and the reply is a grey notice |
| Interactions.AuditJob | supabase/functions/discord-interactions/index.ts:329-406 | the audit is of yesterday: its summary is built from the configurations, their counts and all of the day's awaiting rows, none when the store is unset or its read fails; "no active configuration" exactly when there are no configurations and no errors |
| Interactions.ServeAudit | supabase/functions/discord-interactions/index.ts:323-410 | `/audit` is answered with a deferred channel message; the day's rows are exactly yesterday's pending and notified rows when the store answers, and none when it is unset or fails; the message is edited with the report of yesterday over the configurations, their counts and those rows exactly when `DISCORD_APPLICATION_ID` is set |
| Interactions.ServeComponent | supabase/functions/discord-interactions/index.ts:453-467 | a malformed or unknown button gets its warning with no call, no edit and no write; a rejection deletes exactly the day's pending and notified rows and answers a grey notice; a retry with no rows, or whose store read is unset or fails, answers the grey notice and does nothing else, otherwise a deferred update, one call per row, the reconciliation and the summary edit; surviving rows are unchanged or back to pending with the reset's `retried_at` stamp |
| Interactions.Serve | supabase/functions/discord-interactions/index.ts:416-470 | on the route of the request: gated, unparsable, ping and unknown routes get their fixed answer with no call, no edit and no write; `/audit`, `retry_all` and `reject_all` do what the three outcomes state; a retry of a day with no pending or notified row, or on an unset or failing store, answers the grey notice with no call, no edit and no write; no row is ever added, and a surviving row is unchanged or back to pending with the reset's stamp |
| Interactions.Dispatch | supabase/functions/discord-interactions/index.ts:442-469 | past the gate: a ping, a command or a button press does what its route's outcome states (an unset or failing store read means no rows, so no retry, no write and an audit over no rows), anything else gets 400 with no write |
| Interactions.QuietDayRetry | supabase/functions/discord-interactions/index.ts:237-247 | a retry of a day with no pending or notified row, or one whose store read is unset or fails, answers the grey notice and makes no call, no edit and no write |
| Audit.CountFilter | supabase/functions/discord-interactions/index.ts:121-127 | a timestamp column gets a half-open range from the day's midnight; any other type gets equality |
| Audit.TimestampRangeIsOneDay | supabase/functions/discord-interactions/index.ts:122-124 | the range ends at the next day's midnight |
| Audit.ContentRangeTotalMatches | supabase/functions/discord-interactions/index.ts:136-138 | a total is read exactly when the header ends in `/` and digits, and it is those digits' value |
| Audit.ContentRangeOfTotal | supabase/functions/discord-interactions/index.ts:136-138 | a header ending in `/n` reads back n |
| Audit.CountRecords | supabase/functions/discord-interactions/index.ts:112-139 | None when the store is unset or the query fails; 0 when the answer has no `Content-Range`; otherwise the total the header ends in, or 0 when it does not end in `/<digits>` |
| Audit.FirstAppearancesMembers | supabase/functions/discord-interactions/index.ts:345-348 | the map's keys are the distinct function names |
| Audit.OccurrencesPositive | supabase/functions/discord-interactions/index.ts:345-348 | a name has a positive count exactly when it has an error |
| Audit.CountByFunction | supabase/functions/discord-interactions/index.ts:345-348 | the map's keys are the names in first-appearance order, each with its number of errors |
| Audit.ConfigLine | supabase/functions/discord-interactions/index.ts:362-375 | a failed count gives the warning line; a count with linked errors the error line with the count and the error count; otherwise the clean line with the count; always under the configuration's display name |
| Audit.UnclaimedMembers | supabase/functions/discord-interactions/index.ts:378-382 | orphan lines name exactly the error names no configuration links |
| Audit.NoLinesIff | supabase/functions/discord-interactions/index.ts:387 | there are no lines exactly when there are no configurations and no errors |
| Audit.OkPlusErr | supabase/functions/discord-interactions/index.ts:350-382 | every line counts once, as OK or as an error |
| Audit.ColorMeaning | supabase/functions/discord-interactions/index.ts:403 | green exactly when every line is OK, red exactly when none is |
| Audit.ReportColor | supabase/functions/discord-interactions/index.ts:403 | green iff no errors, red iff errors and no OK, orange otherwise |
| Audit.ConfigPass | supabase/functions/discord-interactions/index.ts:355-376 | the lines and totals of the configuration loop, with linked names removed from the map |
| Audit.OrphanPass | supabase/functions/discord-interactions/index.ts:379-382 | one failed line per remaining name, in map order, each adding an error |
| Audit.BuildLines | supabase/functions/discord-interactions/index.ts:350-382 | the lines are the configuration lines then the orphans, and the totals count them |
| Audit.Summarize | supabase/functions/discord-interactions/index.ts:384-404 | "no active configuration" exactly when there are no lines; otherwise the lines with the colour of the totals |
| EnvFile.StripQuotes | scripts/preview-alerta.ts:18 | removes at most one character at each end, and leaves a value without edge quotes alone |
| EnvFile.StripQuotesOfQuoted | scripts/preview-alerta.ts:18 | a value loses exactly its two edge quotes, even when they differ |
| EnvFile.SkippedLines | scripts/preview-alerta.ts:13-16 | blank lines, comments, lines without `=` and lines starting with `=` assign nothing |
| EnvFile.ParsedKeyIsTrimmed | scripts/preview-alerta.ts:15-17 | a parsed key is non-empty and has no surrounding white space |
| EnvFile.ParseAssignment | scripts/preview-alerta.ts:13-19 | `key=value` assigns the key and the trimmed value with its edge quotes removed; later `=` signs stay in the value |
| EnvFile.ParseQuotedAssignment | scripts/preview-alerta.ts:13-19 | a quoted value comes back exactly |
| EnvFile.LastAssignmentWins | scripts/preview-alerta.ts:19 | the last line assigning a key decides its value; keys no line assigns keep their value |
| EnvFile.Environment.LoadEnv | scripts/preview-alerta.ts:8-26 | a missing or unreadable file changes nothing; otherwise the lines' assignments go in, in order, up to the first one the runtime refuses, where the loop stops |
| EnvFile.AcceptedPrefix | scripts/preview-alerta.ts:12-25 | the assignments before the first refused one are all accepted, and the next one, if any, is refused |
| EnvFile.RefusedOnlyForNul | scripts/preview-alerta.ts:17-19 | a parsed assignment is refused exactly when its key or value holds NUL |
| EnvFile.ParsedKeyHasNoEquals | scripts/preview-alerta.ts:15-17 | a parsed key holds no `=`, being cut before the first one |
| EnvFile.SampleReportButtons | scripts/preview-alerta.ts:30-78 | the sample counts one row, lists `test-alerta`, and its button ids read back as a retry and a rejection of that day |
| Patcher.WsRunIsTrimStart | scripts/patch-and-deploy-sync.mjs:26 | skipping `\s*` is what trimming the start of the rest does |
| Patcher.ImportPointStartsLine | scripts/patch-and-deploy-sync.mjs:22 | the import goes at the start of a line: just past the first newline after the first `import `, or at 0 when there is none |
| Patcher.InsertImport | scripts/patch-and-deploy-sync.mjs:21-24 | a text mentioning `notifyError` is kept; otherwise the import and a blank line go in at the insertion point with both sides kept |
| Patcher.InsertImportMentionsNotifyError | scripts/patch-and-deploy-sync.mjs:19-24 | after the step the text always mentions `notifyError` |
| Patcher.InsertImportIdempotent | scripts/patch-and-deploy-sync.mjs:21 | inserting twice is inserting once |
| Patcher.RewriteCatch | scripts/patch-and-deploy-sync.mjs:25-28 | a text without a catch head is kept; otherwise the result makes the `notifyError` call naming the slug |
| Patcher.RewriteCatchAt | scripts/patch-and-deploy-sync.mjs:25-28 | only the first catch head and its trailing white space are replaced; everything else, later heads included, is kept |
| Patcher.SeparatorMatch | scripts/patch-and-deploy-sync.mjs:31-32 | a separator, white space and `err)` is a match of exactly that length |
| Patcher.ReplaceAllKeepsUnmatched | scripts/patch-and-deploy-sync.mjs:29-32 | a global replace copies a stretch without matches and resumes after it |
| Patcher.ReplaceAllNoMatch | scripts/patch-and-deploy-sync.mjs:29-32 | a global replace with no match keeps the text |
| Patcher.ReplaceAllFirstMatch | scripts/patch-and-deploy-sync.mjs:29-32 | the text before the first match is kept and that match is replaced |
| Patcher.RewriteOfPatchedSource | scripts/patch-and-deploy-sync.mjs:19-32 | a source that already mentions `notifyError`, has no catch head and nothing to redirect is left exactly as it was |
| Patcher.Patch | scripts/patch-and-deploy-sync.mjs:14-17 | a usage error exactly when the slug or the input is empty; otherwise the patched text |

## Left out

- I/O is left out: every `fetch`, URL and query-string building, headers, and
  JSON encoding and decoding. The store is the `Database` class. A read's
  failure is a `storeResponds` flag. Writes are taken to succeed, as the code
  never checks PATCH and DELETE results.
- Discord delivery is left out. The follow-up PATCH that edits the original
  message is reduced to whether `DISCORD_APPLICATION_ID` is set. A non-ok
  send's status is not modelled, because the code never consults it.
- Batcher.Run, ErrorMonitor.WithErrorMonitoring, Interactions.HandleRetryAll:
  a `fetch` that rejects (a network error, not a non-ok status) is not
  modelled; every send and write is taken to settle. In the source such a
  rejection propagates: in `monitor-errors` (index.ts:112, outside any
  `try`) it ends the loop at :158-162, so that day's rows and all later days
  stay pending and no `reported` response is sent; in the error monitor
  (error_monitor.ts:78) a rejected insert escapes `notifyError` and the
  wrapper's `catch`, so the wrapper rejects instead of answering the 500;
  in the retry task a rejected PATCH or DELETE leaves rows `retrying`.
- Interactions.ParseCustomId, Interactions.ButtonOf, Signature.HexToBytes:
  strings are sequences of Unicode scalar values, while JavaScript's
  `length`, `slice` and `indexOf` count UTF-16 code units. For text outside
  the Basic Multilingual Plane the lengths and indices differ: a custom id
  of one astral character is "malformed" in the model but an unknown action
  in the source, and a hex string's parity is counted in scalar values.
  The rows for `CustomIdWithoutColon` and `ButtonWithoutColon` hold for
  text within that plane.
- The Ed25519 key import and verification are oracle parameters.
- `JSON.parse` of the interaction body is an oracle; a body that does not
  parse throws out of the handler. An interaction whose `type` is missing is
  one more "other type".
- The fire-and-forget tasks and `Promise.all` run as ordinary sequential
  steps after the immediate response. Interleavings with other requests are
  not modelled.
- The clock is an input. A retry reads it twice, for the `retried_at` stamp
  of the mark to retrying and of the reset to pending; the two readings are
  the `RetryClock` parameter, and `retried_at` is an integer instant rather
  than ISO text. All dates are taken in UTC: `toDateString` uses local
  getters, and the model fixes the offset at zero.
- `Date` parsing is strict: a day that does not exist in its month is invalid.
  The runtime's leniency on such input is not modelled. Years outside
  0000-9999 are not parsed.
- Interactions.AuditJob: the texts of the lines and the footer
  (`toLocaleString`, the Spanish wording, the emoji) are not modelled. The
  model produces the lines, totals and colour.
- Interactions.HandleRetryAll: the summary's bullet lists are not spelled out;
  the summary carries the two name lists.
- The audit configurations are taken as the store returns them, already
  ordered by `sort_order` and active.
- Patcher.RewriteCatch: `$` patterns in the slug are inserted literally, while
  `String.prototype.replace` would expand them.
- Patcher.Patch: reading the input file and the exit status are not modelled.
  The model is the transformation lines 14-32 spell out, not a run of the
  script: line 7 calls `require` inside an ES module (`.mjs`), where Node
  does not define it, so the script as written throws before the usage
  check.
- `scripts/register-commands.ts` is not part of this model. It is a single
  PUT of a constant command list.
- The preview script's send to the bot or webhook is not modelled. Its
  business day is today's UTC date, rendered without year padding. This
  matches `toISOString` for years 1000 to 9999.
- Integers are unbounded. Ids, counts and totals never come near JavaScript's
  safe-integer range.
