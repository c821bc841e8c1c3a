# OneDrive client core, modelled in Dafny

`OneDrive_API.py` is a small client for the OneDrive REST API. It has a `OneDrive` class that holds settings, an OAuth session and an error log. Its public calls upload and download many files at once, in batches of worker threads. The HTTP traffic, the threads, the clock and the local file system sit around a handful of exact rules. This project states those rules as pure Dafny functions and proves properties of them.

The rules covered:

- **Settings** (`Settings`): `_SetsAndChecksVariable`, `_SetsAndChecksVariableWithDefaultValue` and `_SetParameters`. This covers the seven required keys and their type checks (a JSON `bool` passes the `int` check, as Python's `isinstance` does), the defaults 3600 and 50, the `"+"`-joined scope, and the `"Could not initialize parameters: "` wrapper.
- **Session** (`Connection`):
  - `_RefreshToken`: its fields are assigned one by one, so a partial reply leaves a half-updated session.
  - `_Connect`.
  - `_CheckLastHeartbeat`: a strict `now - last_updated > refresh_interval` test.
  - `_CheckConnected`'s retry loop: the counter is bumped first, the loop gives up when the counter *equals* `number_retry_connection`, and exceptions of `_Connect` are not caught.
- **Error log** (`ErrorLog`):
  - `_CheckError` classifies a `Response`, a `dict` (one `" (Code: …)"` suffix per key containing `"error"`) or anything else. It records at most one message.
  - `_FetchErrors` joins the log with `". "`, prefixes it, clears it and raises.
- **Paths** (`Paths`): `lstrip("/").rstrip("/")`, Upload's folder normalisation, the upload name `filename.replace("\\", "/").split("/")[-1]`, Download's `specific_file` filter, and the files/folders split of `FetchAllFiles` into insertion-ordered dicts.
- **Batch loop** (`Batching`): the `while index > 0` loop shared by `Upload` and `Download`. It covers the index batches, the drain after each batch, and the fail-fast stop. Each batch's worker completion order is an arbitrary permutation.
- **Public operations** (`Transfers`): the constructor, `FetchAllFiles`, `Upload` and `Download`, with the two worker bodies `UploadIntern` and `DownloadIntern`.

Every input from outside the program is a parameter of the call that consumes it:

- a token reply and a probe status per connect attempt;
- the clock reading;
- the listing reply;
- per file, whether it exists and what the PUT or GET returned;
- per batch, the order in which the workers finished.

A loop that the program would keep running ends in the model as `Pending` or `Stuck`: the connect loop once the supplied attempts run out, or the batch loop when `max_threads <= 0`.

Module layout follows the program's structure. `Common` holds `Option`, `Result` and the fault kinds. `Text` holds Python's `join`, `split`, `lstrip`, `rstrip`, `replace` and `in`, each tied by lemmas to an independent description.

## Model

| member | source | states |
|---|---|---|
| Settings.CheckVariable | OneDrive_API.py:58-63 | succeeds exactly when the key is present with a value of the type (`IsInstance`, where a bool counts as an int) and then yields that value; otherwise raises the "not given" or the "did not match" message |
| Settings.IntOrDefault | OneDrive_API.py:75-78 | the integer under the key when present and int-typed, the default otherwise (any exception is swallowed) |
| Settings.ScopeLoop | OneDrive_API.py:98-102 | the scope loop only fails by raising a message (the TypeError of concatenating a non-string) |
| Settings.ScopeLoopSucceeds | OneDrive_API.py:98-102 | the scope loop succeeds exactly when every remaining permission is a string |
| Settings.ScopeLoopIsJoin | OneDrive_API.py:98-102 | the loop from position i appends the remaining permissions joined by "+" to what it has |
| Settings.ScopeIsJoinedPermissions | OneDrive_API.py:98-102 | the scope after the loop is the permissions joined by "+" (Python's `"+".join(permissions)`) |
| Settings.ScopeSplitsIntoPermissions | OneDrive_API.py:98-102 | when no permission contains "+", splitting the scope on "+" gives the permissions back |
| Settings.ReadParameters | OneDrive_API.py:87-102 | every failure of the unwrapped parameter reading is a raised message |
| Settings.SetParameters | OneDrive_API.py:86-104 | succeeds exactly when the unwrapped reading succeeds, and then with the same configuration; every failure is a raised message, the reading's message after "Could not initialize parameters: " |
| Settings.SetParametersAccepts | OneDrive_API.py:86-104 | construction's parameter step succeeds iff every required key is present with its type and every permission is a string; every rejection carries the "Could not initialize parameters: " prefix |
| Settings.SetParametersContents | OneDrive_API.py:87-102 | an accepted configuration holds the given values, 3600 and 50 for absent or mistyped optional settings, and the "+"-joined scope |
| Settings.MissingRequiredKeyRejected | OneDrive_API.py:58-59 | a missing required key always rejects the settings |
| Settings.MissingMaxThreadsMessage | OneDrive_API.py:87 | the first check decides the message: a missing "max_threads" is reported by name, after the prefix |
| Connection.RefreshToken | OneDrive_API.py:146-150 | success iff the reply has both tokens, and then token, refresh token, clock and headers are all updated together; a missing access token changes nothing; a missing refresh token has already replaced the token |
| Connection.RefreshKeepsHeadersInSync | OneDrive_API.py:147-150 | a successful refresh leaves the headers carrying the current token and `last_updated` at now |
| Connection.MissingRefreshTokenLeavesHeadersStale | OneDrive_API.py:147-148 | a reply without "refresh_token" raises with the new token set but the headers still carrying the old one |
| Connection.Connect | OneDrive_API.py:126-131 | a connect raises nothing iff the refresh succeeds and the probe answers; it then connects iff the status is 200, and leaves the headers in sync with the new token |
| Connection.ConnectLoop | OneDrive_API.py:166-173 | a connected session makes no call; at most `number_retry_connection - 1` calls; giving up happens exactly when the counter reaches the limit; a connect means the last probe was 200 and every earlier attempt failed |
| Connection.ConnectLoopStopsAtFirstSuccess | OneDrive_API.py:166-173 | when attempt k is the first successful one and the counter does not reach the limit first, the loop ends connected after exactly k + 1 calls, with the token of attempt k |
| Connection.ConnectLoopDecides | OneDrive_API.py:166-173 | with a positive limit and enough attempts supplied, the loop connects, gives up or aborts |
| Connection.SingleRetryNeverConnects | OneDrive_API.py:169-171 | a retry count of 1 gives up without calling `_Connect` |
| Connection.NonPositiveRetryNeverGivesUp | OneDrive_API.py:168-171 | with a retry count of 0 or less and failing probes, the loop is still running after any number of attempts |
| Connection.AllFailingGivesUp | OneDrive_API.py:168-172 | when every attempt fails, the loop makes exactly `limit - 1` calls and gives up |
| Connection.CheckLastHeartbeat | OneDrive_API.py:157-159 | a refresh happens iff more than the interval has passed (strict), and then it is `_RefreshToken` at now; otherwise nothing changes |
| Connection.HeartbeatAfterRefreshIsQuiet | OneDrive_API.py:149-159 | right after a successful refresh, a heartbeat at the same instant with a non-negative interval does not refresh again |
| Connection.TwoHeartbeatsRefreshAtMostOnce | OneDrive_API.py:157-159 | two heartbeats in immediate succession ask for at most one token |
| Connection.CheckConnected | OneDrive_API.py:166-174 | at most `number_retry_connection - 1` connect calls, as many as the loop made; the loop giving up raises "Could not connect to OneDrive" without a refresh; a fault of `_Connect` is raised as it is; the check is undecided only when the supplied attempts run out; a check that raises nothing leaves the session connected |
| Connection.AllFailingCheckRaises | OneDrive_API.py:166-172 | a disconnected client whose every attempt fails, with a retry count of at least 1, raises "Could not connect to OneDrive" after exactly `number_retry_connection - 1` connect calls |
| Connection.CheckConnectedAfterSuccess | OneDrive_API.py:166-174 | a disconnected client whose attempt k is the first successful one within the retry count makes k + 1 connect calls; the heartbeat then refreshes iff the interval has passed since that attempt, and without a refresh the check passes |
| Connection.ConnectedAndFreshIsNoOp | OneDrive_API.py:166-174 | a connected session with a fresh token passes with no call and no change |
| Connection.ConnectedOnlyHeartbeats | OneDrive_API.py:166-174 | a connected session never calls `_Connect`; it refreshes iff the token is stale |
| ErrorLog.Classify | OneDrive_API.py:185-194 | a flagged message starts with the error text; a Response is flagged exactly when not ok |
| ErrorLog.CheckError | OneDrive_API.py:185-198 | the flag is true iff the log grew by exactly one message beginning with the error text; a clean reply leaves the log alone; an unreadable code raises before the log is touched |
| ErrorLog.ErrorKeyCountPositive | OneDrive_API.py:189-191 | some key gets counted iff some key contains "error" as a substring |
| ErrorLog.CheckErrorFlagsFailures | OneDrive_API.py:185-198 | the flag is true exactly for a not-ok Response, a dict with a key containing "error", or a reply of neither type; it raises exactly for such a dict whose code cannot be read |
| ErrorLog.SingleErrorKeyMessage | OneDrive_API.py:190-197 | a dict with one error key records the text with " (Code: c)" appended once |
| ErrorLog.RepeatSnoc | OneDrive_API.py:189-192 | n + 1 copies of the suffix are n copies followed by one more |
| ErrorLog.CodeLoopRepeats | OneDrive_API.py:189-192 | the key loop as written (`CodeLoop`, one key per step) leaves the text followed by one " (Code: c)" per key containing "error" |
| ErrorLog.ClassifyFollowsCodeLoop | OneDrive_API.py:188-192 | on a dict with a readable code, the verdict is clean without an error key and otherwise the message the key loop builds |
| ErrorLog.ErrorKeyCountSnoc | OneDrive_API.py:189-190 | one more key adds one to the error-key count iff it contains "error" |
| ErrorLog.ErrorKeyAddsOneSuffix | OneDrive_API.py:189-192 | one more key containing "error" adds exactly one " (Code: c)" to the message |
| ErrorLog.TwoErrorKeys | OneDrive_API.py:189-192 | a dict with "error" and "error_description" records the text with the code suffix twice |
| ErrorLog.FetchErrors | OneDrive_API.py:206-211 | the log ends empty; a message is raised iff the log was non-empty, and it starts with the prefix |
| ErrorLog.DrainTwiceIsNoOp | OneDrive_API.py:207-211 | a second drain with nothing recorded in between raises nothing and changes nothing |
| ErrorLog.DrainKeepsEveryEntry | OneDrive_API.py:208-211 | every recorded entry appears in the raised message |
| ErrorLog.DrainAfterRecord | OneDrive_API.py:208-210 | one more entry adds exactly ". " and that entry to the end of the raised message |
| Text.Join | OneDrive_API.py:98-102 | joining one part gives that part, joining none gives "", and a join of several parts starts with the first part |
| Text.Split | OneDrive_API.py:386 | `str.split` on one character yields at least one part, none containing the separator |
| Text.LStrip | OneDrive_API.py:258 | `lstrip` removes exactly a run of the character from the front |
| Text.RStrip | OneDrive_API.py:258 | `rstrip` removes exactly a run of the character from the back |
| Text.Replace | OneDrive_API.py:385 | `replace` maps each occurrence of the character and keeps the rest, position by position |
| Text.ContainsIffOccurs | OneDrive_API.py:190 | Python's substring test `t in s` (`Text.Contains`) holds iff `t` occurs at some position of `s` |
| Text.JoinContainsEach | OneDrive_API.py:208 | each joined entry occurs in the joined text |
| Text.SplitJoin | OneDrive_API.py:386 | splitting a join on a separator absent from the parts gives the parts back |
| Text.JoinSplit | OneDrive_API.py:386 | joining the parts of a split with the separator gives the string back |
| Text.LastPart | OneDrive_API.py:386 | `split(c)[-1]` contains no `c` |
| Text.LastPartIsSuffix | OneDrive_API.py:386 | `split(c)[-1]` is a separator-free suffix preceded by nothing or by the separator |
| Text.LastPartAfterSeparator | OneDrive_API.py:386 | separator-free text after a separator is the last component of the split |
| Paths.StripSlashes | OneDrive_API.py:241 | `lstrip("/").rstrip("/")` leaves no slash at either end |
| Paths.StripSlashesRemovesOnlyEnds | OneDrive_API.py:241 | the stripped path is a contiguous piece of the path with only slashes before and after it |
| Paths.StripSlashesIdempotent | OneDrive_API.py:423-424 | stripping the already stripped path (Download, then FetchAllFiles) changes nothing |
| Paths.StripSlashesKeepsClean | OneDrive_API.py:241 | a path without end slashes is left as it is |
| Paths.UploadFolder | OneDrive_API.py:371-374 | an empty path fails on `path_onedrive[0]`; otherwise the folder starts and ends with "/" |
| Paths.UploadFolderAddsAtMostOneSlashEachEnd | OneDrive_API.py:371-374 | the folder is the path with at most one slash added at each end, and is the path itself iff it already starts and ends with "/" |
| Paths.UploadFolderIdempotent | OneDrive_API.py:371-374 | normalising a normalised folder changes nothing |
| Paths.UploadName | OneDrive_API.py:385-386 | the name a file is uploaded under contains no "/" |
| Paths.UploadNameIsLastComponent | OneDrive_API.py:385-386 | the upload name contains neither "/" nor "\\" and is what follows the last separator of the path |
| Paths.UploadNamePlain | OneDrive_API.py:385-386 | a name without separators is uploaded under itself |
| Paths.UploadTarget | OneDrive_API.py:371-386 | the target of a PUT fails exactly when the folder is empty |
| Paths.UploadTargetShape | OneDrive_API.py:371-386 | the target starts with "/", begins with the normalised folder, and its last "/"-component is the upload name |
| Paths.Selected | OneDrive_API.py:434 | with no file named every key is selected; with a file named, a key is selected iff it is that file |
| Paths.SelectedMeaning | OneDrive_API.py:434 | the filter selects everything when no file is named, and otherwise exactly the named file |
| Paths.Put | OneDrive_API.py:266-270 | dict assignment: the key maps to the new value, other keys are unchanged, an existing key keeps its place and a new one goes last |
| Paths.SplitListing | OneDrive_API.py:266-270 | both result dicts have distinct keys |
| Paths.SplitListingLastWins | OneDrive_API.py:266-270 | each name maps to `LastId`, the id of the last listed child of that name and kind |
| Paths.SplitListingKeys | OneDrive_API.py:266-270 | the files dict holds exactly the names of children without "folder", and the folders dict exactly those with it |
| Batching.Schedule | OneDrive_API.py:377-384 | the loop from a positive index has at least one batch, and from index 0 none |
| Batching.Threads | OneDrive_API.py:379-381 | `number_threads` never exceeds the remaining index |
| Batching.Round | OneDrive_API.py:379-383 | a round lowers the index by exactly the number of indices it visits |
| Batching.RoundLoop | OneDrive_API.py:379-383 | the inner `for` loop visits `min(max_threads, index)` indices from `index - 1` down and leaves the index lowered by that many |
| Batching.BatchLoop | OneDrive_API.py:377-383 | the nested loop as written produces exactly the batch schedule |
| Batching.NoProgressWithoutThreads | OneDrive_API.py:378-383 | with `max_threads <= 0` a round starts nothing and leaves the index unchanged, so the loop never ends |
| Batching.ScheduleVisitsEachIndexOnce | OneDrive_API.py:377-384 | across all batches, every index is visited exactly once, from the last down to 0 |
| Batching.ScheduleBatchShape | OneDrive_API.py:379-384 | batch k takes `min(max_threads, remaining)` indices, descending from `count - k * max_threads` |
| Batching.ScheduleLength | OneDrive_API.py:377-383 | there are `ceil(count / max_threads)` batches |
| Batching.ScheduleBatchSizes | OneDrive_API.py:379-381 | every batch but the last is full; the last holds the remainder |
| Batching.LaterBatchesBelow | OneDrive_API.py:383 | every index of a later batch is below every index of an earlier one |
| Batching.RunBatches | OneDrive_API.py:378-391 | after at least one batch, the log is empty; only launched indices are started |
| Batching.RecordsPermutation | OneDrive_API.py:390 | two completion orders of the same workers record the same messages, up to order |
| Batching.BatchRecordsEmptyIff | OneDrive_API.py:390-391 | a batch records nothing, whatever the completion order, iff its workers record nothing |
| Batching.RunSucceedsIffAllClean | OneDrive_API.py:378-391 | the loop finishes without raising iff no batch records a message, and then every launched worker was started |
| Batching.RunFailsFastAt | OneDrive_API.py:390-391 | when batch k is the first to record, the call raises prefix plus that batch's messages joined by ". ", only batches 0..k were started, and the log is empty (through `RunStopsAt`, the same on completion orders alone) |
| Batching.LaterIndicesNeverStarted | OneDrive_API.py:390-391 | no index of a batch after the failing one is ever started |
| Batching.ScheduleStartsEverything | OneDrive_API.py:377-389 | with every item launched, the schedule starts every index once, from the last down |
| Batching.CleanRunStartsEverything | OneDrive_API.py:377-391 | when no worker records a message, the loop over its own schedule raises nothing, leaves the log empty and starts every index once, from the last down |
| Transfers.Construct | OneDrive_API.py:20-40 | a constructed client is connected and has an empty log; the check starts from `Connection.Initial`, the field values of lines 20-37 with the configured refresh token |
| Transfers.ConstructChecksSettingsFirst | OneDrive_API.py:39-40 | invalid settings are refused with the initialisation prefix, whatever the network would do |
| Transfers.ConstructWithValidSettings | OneDrive_API.py:39-40 | with valid settings, the client opens exactly when the first connection check passes, and it carries those settings |
| Transfers.Guard | OneDrive_API.py:166-174 | the check touches only the session; a passing check gives Ok with the session connected; a raising check gives Err with that same fault; the call is pending exactly when the check is undecided |
| Transfers.FetchAllFiles | OneDrive_API.py:257-271 | a failing connection check is returned with its own fault and a pending one stays pending; a successful listing is the split of `response["value"]` with an empty log; an empty log stays empty; once connected, an unreachable listing raises with the log untouched |
| Transfers.FetchAllFilesOutcome | OneDrive_API.py:258-271 | once connected, an unreachable listing raises at once; otherwise the call succeeds iff the reply signals no error and has "value"; an error reply raises a message naming the stripped path; a missing "value" raises KeyError |
| Transfers.ReadListing | OneDrive_API.py:260-271 | after the guard: an unreachable listing raises the transport fault with the log untouched; a success is the split of "value" with an empty log |
| Transfers.ReadListingOutcome | OneDrive_API.py:260-271 | after the guard on an empty log: success iff the reply signals no error and has "value"; an error reply raises a message naming the path; a missing "value" raises KeyError |
| Transfers.UploadEntry | OneDrive_API.py:357-368 | a worker whose PUT raises records nothing; a missing file records "Could not upload name: File does not exist"; every recorded message starts with "Could not upload name" |
| Transfers.UploadEntries | OneDrive_API.py:384-387 | one worker outcome per file, each the worker body on the file name with "\\" replaced by "/" |
| Transfers.UploadEntryMeaning | OneDrive_API.py:357-368 | an upload worker records a message iff the file is missing or the reply signals a readable error; the message names the file |
| Transfers.DownloadEntry | OneDrive_API.py:404-418 | a worker whose GET raises, or whose file is fetched and written, records nothing; a failed response records "Could not download name"; a failed write records "Could not write path to drive" |
| Transfers.DownloadEntries | OneDrive_API.py:431-436 | one worker outcome per listed key, each the worker body on that key |
| Transfers.DownloadEntryMeaning | OneDrive_API.py:404-418 | a download worker records "Could not download name" for a failed response, "Could not write path to drive" for a failed write, and nothing otherwise |
| Transfers.Finish | OneDrive_API.py:389-391 | after the loop the client carries the drained log and the started indices, and the call raises exactly when the loop raised |
| Transfers.Spin | OneDrive_API.py:378-391 | with no threads, the loop raises the prefix followed by the log joined with ". " when the log is non-empty, and otherwise runs for ever with the client unchanged |
| Transfers.Upload | OneDrive_API.py:370-391 | for one outcome per file and, per batch, a completion order that is a permutation of its started workers: a failing connection check raises its own fault with nothing started; an empty path starts nothing; every started index is a file index; a call on an empty log leaves the log empty; the call hangs only in the connect loop or with `max_threads <= 0` and files to send |
| Transfers.UploadGivesUpWithoutConnection | OneDrive_API.py:166-172 | with every connect attempt failing, an upload raises "Could not connect to OneDrive" before any worker starts |
| Transfers.UploadNeedsFolder | OneDrive_API.py:370-371 | once connected, an empty remote path raises before any worker starts |
| Transfers.UploadStartsEveryFile | OneDrive_API.py:377-391 | when no worker records a message, the upload raises nothing and starts every file once, from the last to the first |
| Transfers.UploadFailsFast | OneDrive_API.py:377-391 | the first recording batch ends the upload with "Could not upload all files: " and its messages; only earlier batches and that batch were started; no later file is; the log is left empty |
| Transfers.Filter | OneDrive_API.py:434 | one flag per key, true exactly when the `specific_file` test selects that key |
| Transfers.DownloadLoop | OneDrive_API.py:425-440 | for one outcome per key and, per batch, a completion order that is a permutation of its selected workers: only files the filter selects are started; an empty log stays empty; the loop hangs iff `max_threads <= 0`, there are files and the log is empty |
| Transfers.Download | OneDrive_API.py:420-440 | for one outcome per listed file and, per batch, a completion order that is a permutation of its selected workers: a failing connection check raises its own fault with nothing started, and a pending one hangs; every started index is a listed file the filter selects; a call on an empty log leaves it empty |
| Transfers.DownloadFailsFast | OneDrive_API.py:426-440 | the first batch whose selected workers record a message ends the download with "Could not download all files: " and its messages; only the selected workers of that batch and earlier ones were started; no later file is; the log is left empty (through `DownloadLoopRuns`, which unfolds the loop into the batch loop) |
| Transfers.DownloadSpecificOnly | OneDrive_API.py:425-438 | with a specific file named, every started worker downloads that file, and it is started at most at one index |
| Transfers.DownloadStartsEveryFile | OneDrive_API.py:426-440 | with no specific file and no worker message, every listed file is downloaded, from the last key to the first |
| Transfers.DownloadLoopStartsEverything | OneDrive_API.py:425-440 | over any keys, with no filter and no worker message, the loop keeps the log empty, raises nothing and starts every key once, from the last to the first (through `DownloadLoopRuns`, `CleanDownloadRun` and `FilterNothing`, which shows that no filter selects every key) |
| Transfers.DownloadGivesUpWithoutConnection | OneDrive_API.py:166-172 | with every connect attempt failing, a download raises "Could not connect to OneDrive" before listing or starting anything |
| Transfers.DownloadStopsOnFailedListing | OneDrive_API.py:424 | a failed listing raises before any worker starts |
| Transfers.DownloadStopsOnUnreachableListing | OneDrive_API.py:420-424 | an unreachable listing ends the download with the transport fault before any worker starts |
| Transfers.SevenFilesThreeThreads | OneDrive_API.py:377-384 | seven files with three threads run as batches [6,5,4], [3,2,1], [0] |
| Transfers.FiveFilesTwoThreads | OneDrive_API.py:426-433 | five files with two threads run as batches [4,3], [2,1], [0] |
| Transfers.FiveFilesEntries | OneDrive_API.py:404-418 | five listed files of which only index 2 gets a failed response give that one "Could not download name" worker message |
| Transfers.FiveFilesRunStopsAtThird | OneDrive_API.py:426-440 | the batch loop over [4,3], [2,1], [0] with only index 2 recording raises at the second batch after starting 4, 3, 2 and 1, with the log empty (through `FiveFilesRaiseAtSecondBatch`, built on `SecondBatchAloneFails` and `FailsAtSecondBatch`; `FirstTwoBatchesStart`; and `FiveFilesSecondBatchRecords`, built on `OneMessageInAnyOrder`) |
| Transfers.FiveFilesThirdFails | OneDrive_API.py:426-440 | the download loop over five keys with two threads and no filter, where only index 2 gets a failed response, raises "Could not download all files: Could not download name" after starting 4, 3, 2 and 1, never 0 (using `FilterNothing`) |
| Transfers.OneMissingFileRaises | OneDrive_API.py:357-391 | uploading one file that does not exist starts its worker and raises "Could not upload all files: Could not upload name: File does not exist", for any thread count |

## Left out

- HTTP requests, JSON parsing and the remote service are not modelled. Each reply is an input: a token reply, a probe status, a listing reply, or a per-file outcome; each request can also raise instead of replying.
- Request URLs are not modelled (`url_pre + path + name + url_post`, `me/drive/items/<id>/content`, `me/drive/root:/<path>:/children`). For an upload, the path between `url_pre` and `url_post` is `Paths.UploadTarget(path, filenames[i])` for the worker of index `i`.
- Upload: the result holds the started indices and not the PUT targets. The target of each started index is `Paths.UploadTarget` of its file name.
- Threads, the mutex, `_JoinThreads`, `_CheckRequestsCompleted` and `__del__` are not modelled. A batch is its set of started workers plus an arbitrary completion order (`ValidOrders`), and workers of one batch run to completion before the drain. The mutex makes each record atomic, which the sequence model already assumes.
- `time.sleep`, `datetime` and `time.mktime` are replaced by an integer clock reading that is an input per connect attempt and per heartbeat.
- Connection.CheckLastHeartbeat: the source reads the clock twice when it refreshes, once for the staleness test (line 157) and once inside `_RefreshToken` for `last_updated` (line 149). The model uses the first reading for both, so it does not model time passing between the two reads.
- Local file I/O (`os.path.isfile`, `open`, the write and `os.makedirs`) is not modelled. A missing file or a failed write is an outcome of the worker. A failure of `os.makedirs` is not modelled.
- `print` logging is not modelled. The `log` flag has no effect on the model.
- `_SaveRequest` replaces an exception with an empty message by "Unknown exception. Check internet connection". The model keeps the fault kind (`Transport`, `KeyMissing`, …) instead of Python's exception text.
- `MakeDir`, `MoveFile`, `MoveAllFiles` and `_FetchFolderID` are not modelled. Each is one request and one `_CheckError` call; `_FetchFolderID` uses the slash stripping of `Paths.StripSlashes`.
- JSON values other than strings for "access_token" and "refresh_token" are not modelled.
- A worker's exception while reading `response["error"]["code"]` ends only that thread and records nothing; the model records nothing for it.
- A `JsonDict` reply that has an error code but no key exactly "error" describes no real reply. `ErrorLog.WellFormed` names the real ones; no contract depends on it.
- Connection.CheckConnected: the supplied attempts may run out before the loop ends (`Undecided`). The model then stops instead of looping for ever.
- Upload: the oracle inputs must fit the call: one outcome per file, and per batch one completion order that is a permutation of that batch's started workers. The source has no such inputs.
- Download: as for Upload, the inputs must give one outcome per listed file, and per batch a completion order that is a permutation of that batch's selected workers.

Points where the code behaves differently from what its own comments suggest:

- The comment on `number_retry_connection` (line 30) calls it the number of retries executed to connect. The loop at lines 169-172 gives up when the counter equals it, before calling `_Connect`. So at most `number_retry_connection - 1` connect calls are made, and none when it is 1.
- An exception of `_Connect` (a failed token refresh, an unreachable probe) is not caught by the retry loop. It ends the check at once.
- Neither `number_retry_connection` nor `max_threads` is checked to be positive. A value of 0 or less makes the retry loop never give up, and with files to transfer it makes the batch loop never end.
- The key test of `_CheckError` is a substring test, so a key such as "errors" also counts. The code suffix is appended once per such key.
