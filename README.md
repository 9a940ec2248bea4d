# A verified model of the Flick SSH uploader's core

Flick is a desktop file-transfer client for SSH servers. This project models
its deterministic core in Dafny and proves what that core promises:

* **the transfer task registry** (`TransferQueue`), in both versions:
  * the layered one in `src/domain/transfer.rs`, with a start time, `retry`
    and `get_task`;
  * the older one in `src/transfer.rs`.
* **remote file operations** (`src/remote_fs.rs`):
  * single-quote shell escaping and the `mkdir`, `rm` and `mv` command lines;
  * the parser for `ls -la --time-style=long-iso` output;
  * the listing order (directories first, then name ignoring case), sorted in
    place;
  * the choice between the in-process ssh library and the system `ssh`
    (`AuthMode`).
* **connection setup** (`src/infra/ssh/client.rs`, and the older
  `src/ssh_core.rs`):
  * the transport steps, which end the attempt when one fails;
  * password and key authentication: the explicit key, then the agent, then a
    filtered scan of `~/.ssh` that stops at the first key accepted;
  * the probe of the system `ssh` that decides the `AuthMode`;
  * the diagnostic transcript.
* **file transfer** (`src/infra/ssh/transfer.rs`, and the upload in
  `src/ssh_core.rs`):
  * a transfer by `scp` first, with sftp as the fallback;
  * the sftp copy loops with their `transferred` counter and progress
    callbacks;
  * the recursive directory upload and download.
* **small services**:
  * the server list of the settings page;
  * the conversion between the settings form and the configuration record;
  * the remaining-time text;
  * the text of a transfer status;
  * the bookmark duplicate check.

### How state, I/O and outside programs are modelled

* Each network step, library call, run of an outside program and file-system
  call is an **oracle**: a value handed in that says what that step does,
  such as `Network`, `Host`, `ScpScript`, `UploadSftp` and `LocalDir`.
* What the program does in response is the result together with a **log**:
  * `SshAuth.LogLine` for the connection transcript;
  * `FileTransfer.Event` for progress callbacks, commands run, chunks copied
    and directories made or read.
* The two queues and the server list change state in place, so they are
  classes. Their methods are proved against functions of the old state, and
  the lemmas are about those functions.
* The loops of the source are methods with loop invariants, each proved equal
  to a recursive function. These are:
  * the key-directory scan;
  * the copy loop;
  * the directory levels;
  * the listing sort;
  * the default-clearing loop.
* Progress is a `real`. A clock reading is a parameter.
* A shell command is related to its arguments by a reader of the POSIX word
  syntax, `ShellQuote.ReadWords`.

## Model

| member | source | states |
|---|---|---|
| DomainTransfer.TransferQueue.constructor | src/domain/transfer.rs:42-47 | a new queue is empty, its counter is 0, and its id invariant holds |
| DomainTransfer.TransferQueue.Enqueue | src/domain/transfer.rs:49-71 | returns the old counter and increments it; appends exactly one task and leaves the earlier ones unchanged; keeps ids strictly increasing and below the counter |
| DomainTransfer.NewTask | src/domain/transfer.rs:59-69 | the appended task is Pending with progress 0 and no start time, and carries the given direction, paths, name and size |
| DomainTransfer.EnqueueKeepsIdsIncreasing | src/domain/transfer.rs:57-58 | an id above every existing id, appended, keeps the ids strictly increasing and all below the new counter, so no id is handed out twice |
| DomainTransfer.EnqueueStartsAtZero | src/domain/transfer.rs:157-172 | on any empty queue with its counter at 0, as a new one is, two enqueues return 0 and then 1, and both tasks are Pending at progress 0 |
| DomainTransfer.Find | src/domain/transfer.rs:83 | the position found holds the id, and no earlier task has it; otherwise it is the end of the list |
| DomainTransfer.FindIsUnique | src/domain/transfer.rs:83 | with increasing ids, the task found is the only task with that id |
| DomainTransfer.TransferQueue.Locate | src/domain/transfer.rs:83 | the search loop stops at the first task with the id, or at the end of the list |
| DomainTransfer.TransferQueue.NextPending | src/domain/transfer.rs:75-79 | returns what FirstPending returns for the current tasks |
| DomainTransfer.FirstPending | src/domain/transfer.rs:75-79 | the task given is in the list and is Pending; FirstPendingIsEarliest states that it is the first |
| DomainTransfer.FirstPendingIsEarliest | src/domain/transfer.rs:75-79 | gives none iff no task is Pending; otherwise gives the task at the first Pending position, with every task before it not Pending |
| DomainTransfer.TransferQueue.UpdateProgress | src/domain/transfer.rs:82-91 | the new task list is the old one with the progress operation applied to the task with the id; the counter and the invariant are kept |
| DomainTransfer.UpdateProgressEffect | src/domain/transfer.rs:82-91 | on an existing id: progress becomes the given value and status becomes InProgress; the start time is set to now only when it was unset |
| DomainTransfer.ApplyToId | src/domain/transfer.rs:82-108 | the per-task operation on the task with the id; its effects are stated by ApplyToIdFrame, UpdateProgressEffect, MarkFailedKeepsProgress and NoTransitionGuards |
| DomainTransfer.ApplyToIdFrame | src/domain/transfer.rs:82-108 | a per-task operation keeps the length and changes no other task; an unknown id changes nothing |
| DomainTransfer.Apply | src/domain/transfer.rs:85-106 | every operation keeps a task's id, direction, paths, name and size |
| DomainTransfer.NoTransitionGuards | src/domain/transfer.rs:82-100 | progress reopens a Completed or Failed task as InProgress, and completing a Failed task makes it Completed with progress 1: no transition is guarded |
| DomainTransfer.TransferQueue.MarkCompleted | src/domain/transfer.rs:94-100 | the task with the id gets progress 1.0 and status Completed; nothing else changes |
| DomainTransfer.TransferQueue.MarkFailed | src/domain/transfer.rs:103-108 | the task with the id gets status Failed(error); nothing else changes |
| DomainTransfer.MarkFailedKeepsProgress | src/domain/transfer.rs:103-108 | a failed task keeps its progress and start time and records the reason |
| DomainTransfer.TransferQueue.Snapshot | src/domain/transfer.rs:111-113 | returns the task list and changes nothing |
| DomainTransfer.TransferQueue.ClearCompleted | src/domain/transfer.rs:116-119 | the filtering loop leaves exactly what Retain keeps of the old list; the counter and the invariant are kept |
| DomainTransfer.Retain | src/domain/transfer.rs:117-118 | no Completed task is left, and the list does not grow |
| DomainTransfer.RetainKeepsExactlyUnfinished | src/domain/transfer.rs:116-119 | a task is kept iff it was in the list and is not Completed |
| DomainTransfer.RetainAppend | src/domain/transfer.rs:116-119 | filtering distributes over concatenation, so the kept tasks stay in their original order |
| DomainTransfer.RetainKeepsValid | src/domain/transfer.rs:116-119 | removing tasks keeps ids increasing and below the counter |
| DomainTransfer.ClearAfterCompletingFirst | src/domain/transfer.rs:207-216 | of tasks 0 and 1, completing 0 and then clearing leaves just task 1, which is still Pending |
| DomainTransfer.TransferQueue.Retry | src/domain/transfer.rs:122-132 | the new list and the answer are those of RetryResult on the old list |
| DomainTransfer.RetryResult | src/domain/transfer.rs:122-132 | the list after `retry` and its answer; RetryContract states when it is true and what changes |
| DomainTransfer.RetryContract | src/domain/transfer.rs:122-132 | retry answers true iff a task with the id exists and is Failed; that task becomes Pending with progress 0 and no start time; on false the list is unchanged |
| DomainTransfer.TransferQueue.GetTask | src/domain/transfer.rs:135-137 | returns what TaskWithId returns for the current tasks |
| DomainTransfer.TaskWithId | src/domain/transfer.rs:135-137 | the task with the id, if any; TaskWithIdContract states both directions |
| DomainTransfer.TaskWithIdContract | src/domain/transfer.rs:135-137 | some task iff the id exists, and then it is the task with that id |
| LegacyTransfer.TransferQueue.constructor | src/transfer.rs:40-45 | a new queue is empty with counter 0 |
| LegacyTransfer.TransferQueue.Enqueue | src/transfer.rs:47-68 | returns the counter and increments it; appends exactly one task and keeps the id invariant |
| LegacyTransfer.NewTask | src/transfer.rs:55-67 | the appended task is the layered queue's new task without its start time: Pending, progress 0 |
| LegacyTransfer.TransferQueue.Locate | src/transfer.rs:79 | the search loop stops at the first task with the id |
| LegacyTransfer.TransferQueue.NextPending | src/transfer.rs:71-75 | returns the first Pending task of the current list |
| LegacyTransfer.FirstPendingAgrees | src/transfer.rs:71-75 | the older next_pending is the layered one on the same tasks |
| LegacyTransfer.FirstPending | src/transfer.rs:71-75 | the first Pending task; FirstPendingAgrees states it is the layered one |
| LegacyTransfer.TransferQueue.UpdateProgress | src/transfer.rs:78-84 | the task with the id gets the progress and status InProgress; nothing else changes |
| LegacyTransfer.TransferQueue.MarkCompleted | src/transfer.rs:87-93 | the task with the id gets progress 1.0 and status Completed |
| LegacyTransfer.TransferQueue.MarkFailed | src/transfer.rs:96-101 | the task with the id gets status Failed(error) and keeps its progress |
| LegacyTransfer.ApplyToIdAgrees | src/transfer.rs:78-101 | each older per-task operation is the layered one with the start time dropped |
| LegacyTransfer.ApplyToId | src/transfer.rs:78-101 | the per-task operation on the task with the id; ApplyToIdAgrees and ApplyToIdFrame state it |
| LegacyTransfer.ApplyToIdFrame | src/transfer.rs:78-101 | only the task with the matching id changes; an unknown id changes nothing |
| LegacyTransfer.FindAgrees | src/transfer.rs:79 | the older search finds the position the layered one finds |
| LegacyTransfer.Find | src/transfer.rs:79 | the position of the first task with the id, else the end; FindAgrees states it is the layered search |
| LegacyTransfer.TransferQueue.Snapshot | src/transfer.rs:104-106 | returns the task list and changes nothing |
| LegacyTransfer.TransferQueue.ClearCompleted | src/transfer.rs:109-112 | the filtering loop leaves exactly what Retain keeps of the old list |
| LegacyTransfer.RetainAgrees | src/transfer.rs:109-112 | the older clear_completed is the layered one with the start time dropped |
| LegacyTransfer.Retain | src/transfer.rs:109-112 | the tasks that are not Completed, in order; RetainAgrees and RetainKeepsExactlyUnfinished state it |
| LegacyTransfer.RetainKeepsExactlyUnfinished | src/transfer.rs:109-112 | a task is kept iff it was in the list and is not Completed |
| LegacyTransfer.IdsAgree | src/transfer.rs:55-56 | the older ids increase exactly when the layered ones do |
| ShellQuote.EscapeShellArg | src/remote_fs.rs:18-21 | the escaped argument opens and closes with a single quote |
| ShellQuote.EscapeQuoteExample | src/remote_fs.rs:18-21 | `it's` is escaped as `'it'\''s'` |
| ShellQuote.EscapeWithoutQuotes | src/remote_fs.rs:18-21 | an argument without single quotes is only wrapped, so spaces and `;` stay inside the quotes |
| ShellQuote.ReadEscaped | src/remote_fs.rs:18-21 | the shell reads an escaped argument back as exactly that argument, whatever characters it holds, and stops right after it |
| RemoteFs.MkdirCommand | src/remote_fs.rs:166-170 | the command reads back as `mkdir`, `-p` and the path |
| RemoteFs.RemoveCommand | src/remote_fs.rs:173-181 | the command reads back as `rm -rf` and the path for a directory, and as `rm -f` and the path for a file |
| RemoteFs.RenameCommand | src/remote_fs.rs:184-188 | the command reads back as `mv` and the two paths |
| RemoteFs.ListCommand | src/remote_fs.rs:101 | the listing command reads back as `ls -la --time-style=long-iso` and the path |
| RemoteFs.OperationsRunTheirCommand | src/remote_fs.rs:166-188 | mkdir, remove and rename succeed iff running their command succeeds, and each command names exactly its paths |
| RemoteFs.RemoteMkdir | src/remote_fs.rs:166-170 | `mkdir -p` of the escaped path, run on the chosen transport, its output dropped; MkdirCommand and OperationsRunTheirCommand state it |
| RemoteFs.RemoteRemove | src/remote_fs.rs:173-181 | `rm -rf` for a directory and `rm -f` for a file, run on the chosen transport; RemoveCommand and OperationsRunTheirCommand state it |
| RemoteFs.RemoteRename | src/remote_fs.rs:184-188 | `mv` of the two paths, run on the chosen transport; RenameCommand and OperationsRunTheirCommand state it |
| RemoteFs.ParseLsLine | src/remote_fs.rs:194-217 | an entry is never named `.` or `..`; ParseLsLineRoundTrip, ShortAndTotalLinesSkipped and DotLinesSkipped state every case |
| RemoteFs.ParseLsLineRoundTrip | src/remote_fs.rs:195-217 | any line, however its columns are padded, whose fields number at least 8, do not start with `total` and do not name `.` or `..` gives an entry: the name is fields 8 onward joined by single spaces, the directory flag is whether field 1 starts with `d`, and the time is date and time joined by a space; the size is field 5 when that is the decimal form of a number below 2^64, and 0 when field 5 does not parse (not digits after an optional `+`, or out of range) |
| RemoteFs.ShortAndTotalLinesSkipped | src/remote_fs.rs:197-203 | a line with fewer than 8 fields, or whose first field is `total`, gives no entry |
| RemoteFs.DotLinesSkipped | src/remote_fs.rs:208-211 | a line of at least 8 fields whose name fields are just `.` or `..` gives no entry |
| RemoteFs.ParseFields | src/remote_fs.rs:204-211 | no entry is named `.` or `..` |
| RemoteFs.ParseLsOutput | src/remote_fs.rs:191-220 | never more entries than lines, and none named `.` or `..` |
| RemoteFs.ParseLsLinesAppend | src/remote_fs.rs:191-220 | parsing distributes over concatenation of lines, so entries keep their line order |
| RemoteFs.ParseLsLinesFromLines | src/remote_fs.rs:191-220 | every entry is the parse of some line of the input |
| RemoteFs.SplitJoin | src/remote_fs.rs:195-196 | splitting fields joined by single spaces gives the fields back |
| RemoteFs.SplitPadded | src/remote_fs.rs:195-196 | fields joined by any non-empty runs of whitespace split back into exactly those fields |
| RemoteFs.SkipBlanks | src/remote_fs.rs:195-196 | leading whitespace does not change the split |
| RemoteFs.PaddedListingLine | src/remote_fs.rs:262-271 | the listing line of the test, with two blanks before the size or any other padding, parses to `readme.md`, a file of 100 bytes modified `2024-01-15 09:00` |
| RemoteFs.ListingColumnsParse | src/remote_fs.rs:265 | any line whose columns are those of the test line parses to that entry |
| RemoteFs.EntryLeTotal | src/remote_fs.rs:67-71 | the listing order compares any two entries |
| RemoteFs.EntryLe | src/remote_fs.rs:67-71 | the `sort_by` order: directories first, then names compared after lowering ASCII letters; EntryLeTotal and EntryLeTransitive state that it is a total preorder |
| RemoteFs.EntryLeTransitive | src/remote_fs.rs:67-71 | the listing order is transitive |
| RemoteFs.SortEntries | src/remote_fs.rs:67-71 | after the in-place sort the array is sorted by the listing order and is a permutation of the input |
| RemoteFs.Insert | src/remote_fs.rs:67-71 | one insertion step extends the sorted prefix by one and keeps a permutation |
| RemoteFs.SftpEntries | src/remote_fs.rs:41-65 | sftp items become entries, dropping nameless items, `.` and `..`; there are never more entries than items |
| RemoteFs.Unsorted | src/remote_fs.rs:24-39 | a successful listing from either transport holds no `.` or `..` |
| RemoteFs.ListDir | src/remote_fs.rs:24-119 | an error from the chosen transport is returned as is; otherwise the listing is sorted and is a permutation of what the transport listed |
| RemoteFs.ListingHasNoDots | src/remote_fs.rs:41-47 | a permutation of a listing holds no `.` or `..` either |
| RemoteFs.RemoteExec | src/remote_fs.rs:122-163 | over the library, success iff the channel opens, the command starts, its output is read and it exits with 0; over the system ssh, success iff ssh starts and exits successfully |
| RemoteFs.ExitStatusReported | src/remote_fs.rs:132-135 | a nonzero exit status fails with that status and the trimmed output; a missing status counts as -1 |
| RemoteFs.TransportDispatch | src/remote_fs.rs:28-30 | the library path uses only the session's channel and sftp; the system ssh path uses only the ssh program |
| RemoteFs.Discard | src/remote_fs.rs:168-169 | an operation fails iff its command failed, with the command's error |
| SshAuth.Candidates | src/infra/ssh/client.rs:171-180 | every candidate is a file with a name that the skip rule does not exclude |
| SshAuth.SkipKeyFileName | src/infra/ssh/client.rs:175-179 | the skip rule of the key scan (also src/ssh_core.rs:131-134): `.pub` keys, `known_hosts*`, `config` and `authorized_keys`; Candidates and OnlySkippedFilesOfferNothing state it |
| SshAuth.OnlySkippedFilesOfferNothing | src/infra/ssh/client.rs:175-179 | a directory holding only a `.pub` key, `known_hosts` and `config` offers nothing to try |
| SshAuth.ScanKeyDirectory | src/infra/ssh/client.rs:170-195 | the loop that skips and breaks gives the success and transcript that Scan gives |
| SshAuth.Scan | src/infra/ssh/client.rs:170-195 | the key-directory scan: its answer and transcript; ScanTriesCandidatePrefix and ScanSucceedsIffSomeCandidateAccepted state it |
| SshAuth.ScanTriesCandidatePrefix | src/infra/ssh/client.rs:170-195 | the keys tried are a prefix of the candidates in directory order, and all but the last were rejected; the scan succeeds iff the last was accepted, and tries every candidate when none is |
| SshAuth.ScanSucceedsIffSomeCandidateAccepted | src/infra/ssh/client.rs:170-195 | the scan succeeds iff some candidate key is accepted |
| SshAuth.AuthenticateWithKey | src/infra/ssh/client.rs:133-207 | the key flow with its `authenticated` flag gives the success and transcript of KeyAuth |
| SshAuth.KeyAuth | src/infra/ssh/client.rs:133-207 | the key flow: explicit key, agent, then the scan; KeyAttemptOrder and KeyAuthSucceedsIff state it |
| SshAuth.KeyAttemptOrder | src/infra/ssh/client.rs:138-199 | the attempts come in this order: the explicit key, only for a non-empty key path; then the agent, only if that key failed; then the scanned keys, only if the agent failed too |
| SshAuth.KeyAuthSucceedsIff | src/infra/ssh/client.rs:138-207 | key auth succeeds iff one of these is accepted: the explicit key, the agent, or some candidate of the key directory |
| SshClient.TransportFailureIsFinal | src/infra/ssh/client.rs:77-116 | a failed connect, session, clone or handshake ends the connection with that step's error context; no authentication or probe is attempted |
| SshClient.Transport | src/infra/ssh/client.rs:77-116 | the four transport steps; TransportFailureIsFinal states that the first failure ends the connection with its context |
| SshClient.PasswordAuth | src/infra/ssh/auth.rs:6-16 | a missing password is its own error, else the server decides; AuthenticateOutcomes states it |
| SshClient.Authenticate | src/infra/ssh/client.rs:119-209 | authentication by the configured method; AuthenticateOutcomes states each method |
| SshClient.Decide | src/infra/ssh/client.rs:211-244 | the choice of transport after authentication; AuthModeDecision and FallbackOnlyAfterAuthFailure state it |
| SshClient.Connection | src/infra/ssh/client.rs:65-245 | the whole connection and transcript; the lemmas above state its outcomes |
| SshClient.AuthModeDecision | src/infra/ssh/client.rs:211-244 | the library mode iff auth succeeded and the session is authenticated; the system-ssh mode iff auth failed and the probe succeeded; otherwise "not authenticated", or auth's own error when the probe fails |
| SshClient.FallbackOnlyAfterAuthFailure | src/infra/ssh/client.rs:208-227 | the system ssh probe runs exactly when authentication failed, including an unsupported method |
| SshClient.AuthenticateOutcomes | src/infra/ssh/client.rs:119-209 | password auth succeeds iff a password is set and accepted, and a missing password is its own error; key auth fails as a whole; any other method is unsupported |
| SshClient.ConnectWithLog | src/infra/ssh/client.rs:65-245 | the step-by-step connection with its appended transcript is Connection |
| SshClient.Connect | src/infra/ssh/client.rs:248-251 | the result of the connection without its transcript |
| SshClient.SshArgs | src/infra/ssh/client.rs:278-292 | the system ssh arguments open with batch mode, no host-key check and `-p` with the port in decimal; then `-i` and the key exactly when a non-empty key path is set; `user@host` last |
| SshClient.RemoteMkdir | src/infra/ssh/client.rs:269-297 | fails iff the library transport is chosen and its channel cannot open; otherwise the escaped `mkdir -p` command goes to the chosen transport |
| SshClient.RemoteMkdirReadsBack | src/infra/ssh/client.rs:270-274 | the server reads the mkdir command as `mkdir`, `-p` and the path with `\` turned into `/` |
| SshClient.RemotePath | src/infra/ssh/client.rs:270 | a remote path holds no backslash |
| SshCore.AgreesWithLayeredClient | src/ssh_core.rs:31-202 | when the stream can be cloned, the flat connection and the layered one agree: success, error, configuration and transcript, except the flat one's line for a missing password |
| SshCore.MissingPasswordSkipsServer | src/ssh_core.rs:71-88 | with no password the server is never asked, and auth fails with "密码为空" |
| SshCore.Transport | src/ssh_core.rs:43-68 | the transport steps without a checked stream clone; AgreesWithLayeredClient relates them to the layered ones |
| SshCore.Authenticate | src/ssh_core.rs:70-166 | authentication by method; MissingPasswordSkipsServer and AgreesWithLayeredClient state it |
| SshCore.Decide | src/ssh_core.rs:167-202 | the fallback decision; AgreesWithLayeredClient states it agrees with the layered one |
| SshCore.Connection | src/ssh_core.rs:31-202 | the whole flat connection; AgreesWithLayeredClient states it |
| SshCore.ConnectWithLog | src/ssh_core.rs:31-202 | the step-by-step flat connection is its Connection |
| SshCore.Connect | src/ssh_core.rs:204-207 | the result of the connection without its transcript |
| FileTransfer.RemoteTargetSplits | src/infra/ssh/transfer.rs:21-23 | `user@host:path` splits back into user, host and path when the user holds no `@` and the host no `:` |
| FileTransfer.BuildRemoteTarget | src/infra/ssh/transfer.rs:21-23 | `user@host:path`; RemoteTargetSplits states that it splits back |
| FileTransfer.Parent | src/infra/ssh/transfer.rs:84 | `Path::parent` on `/`-separated text; ParentOfJoin states the parent of a joined child |
| FileTransfer.Join | src/infra/ssh/transfer.rs:233 | `Path::join` with a plain name; ParentOfJoin states its parent is the directory |
| FileTransfer.ParentOfJoin | src/infra/ssh/transfer.rs:233-263 | joining a plain name to a directory without a trailing `/` and taking the parent gives the directory back |
| FileTransfer.ScpOptions | src/infra/ssh/transfer.rs:37-48 | the port, no host-key check and batch mode, plus `-i` and the key exactly when a non-empty key path is set |
| FileTransfer.ScpCallbackSequence | src/infra/ssh/transfer.rs:25-71 | the upload and download scp paths report 0.0 first and 0.1 just before the command; they report 1.0, as the last report, exactly when the command succeeded |
| FileTransfer.UploadViaScp | src/infra/ssh/transfer.rs:25-71 | the scp upload: reports and command; ScpCallbackSequence and ScpOptions state it |
| FileTransfer.DownloadViaScp | src/infra/ssh/transfer.rs:163-214 | the scp download: reports and command; ScpCallbackSequence and ScpOptions state it |
| FileTransfer.CopyChunks | src/infra/ssh/transfer.rs:98-113 | the copy loop with its counter gives the result, log and total of CopyFrom |
| FileTransfer.TransferredIsSumOfChunks | src/infra/ssh/transfer.rs:108 | the counter is the sum of the chunks written |
| FileTransfer.CopyUnknownTotal | src/infra/ssh/transfer.rs:109-112 | with a total size of 0 the loop reports no progress |
| FileTransfer.CopyProgress | src/infra/ssh/transfer.rs:101-113 | with a positive total, the reported fractions never decrease and lie between the start and the final transferred/total |
| FileTransfer.LastFractionIsTransferred | src/infra/ssh/transfer.rs:101-113 | the loop reports nothing iff nothing was copied; otherwise its last fraction is transferred/total |
| FileTransfer.LastFractionIsOne | src/infra/ssh/transfer.rs:106-112 | when the chunks add up to the positive total, the last fraction is 1 |
| FileTransfer.UploadFileViaSftp | src/infra/ssh/transfer.rs:73-117 | the sftp upload with its copy loop gives the result and log of UploadViaSftp: open, size, the parent `mkdir` as written, session, create, the copy, and a final 1.0 on success |
| FileTransfer.DownloadFileViaSftp | src/infra/ssh/transfer.rs:119-161 | the sftp download gives DownloadViaSftp: session, open, stat (unknown size is 0), local parent, create, then the copy loop and a final 1.0 on success |
| FileTransfer.UploadViaSftp | src/infra/ssh/transfer.rs:73-117 | the sftp upload as a function of its oracle; UploadViaSftpSteps and UploadViaSftpCopies state every outcome |
| FileTransfer.UploadViaSftpSteps | src/infra/ssh/transfer.rs:79-96 | a failure to open the file, read its size, open the mkdir channel, start the session or create the remote file is the upload's error, with the source's context, and no progress is reported; with a parent the first event is its `mkdir` as written |
| FileTransfer.UploadViaSftpCopies | src/infra/ssh/transfer.rs:98-116 | once every step before the copy succeeded, the upload succeeds iff the copy does, a copy error is the upload's error, and on success the last report is 1.0 after the copy's own fractions |
| FileTransfer.FinishOutcome | src/infra/ssh/transfer.rs:114-115 | the final 1.0 is reported exactly when the copy succeeded, after the copy's fractions |
| FileTransfer.DownloadViaSftp | src/infra/ssh/transfer.rs:119-161 | the sftp download as a function of its oracle; DownloadViaSftpSteps and DownloadViaSftpCopies state every outcome |
| FileTransfer.DownloadTotal | src/infra/ssh/transfer.rs:131 | the size reported by stat, or 0 when it is unknown |
| FileTransfer.DownloadViaSftpSteps | src/infra/ssh/transfer.rs:125-141 | a failure to start the session, open the remote file, stat it, make the local parent or create the local file is the download's error, with the source's context, and no progress is reported; with a parent the first event is making it |
| FileTransfer.DownloadViaSftpCopies | src/infra/ssh/transfer.rs:143-160 | once every step before the copy succeeded, the download succeeds iff the copy does, a copy error is the download's error, and on success the last report is 1.0 after the copy's own fractions |
| FileTransfer.ParentMkdirCommand | src/infra/ssh/transfer.rs:84-90 | the corrected parent mkdir reads back as `mkdir`, `-p` and the parent path with forward slashes |
| FileTransfer.ParentMkdirAsWrittenSplitsPath | src/infra/ssh/transfer.rs:88 | for plain words a and b, the double-quoted command turns the parent `a" "b` into the two directories `a` and `b`; the escaped one names `a" "b` |
| FileTransfer.UploadFile | src/infra/ssh/transfer.rs:284-301 | the upload as written gives Upload |
| FileTransfer.DownloadFile | src/infra/ssh/transfer.rs:303-324 | the download as written gives Download |
| FileTransfer.Upload | src/infra/ssh/transfer.rs:284-301 | scp first, sftp as the fallback; UploadFallback states it |
| FileTransfer.Download | src/infra/ssh/transfer.rs:303-324 | scp first, sftp as the fallback; DownloadFallback states it |
| FileTransfer.UploadFallback | src/infra/ssh/transfer.rs:290-299 | a successful scp is the whole upload; otherwise the result succeeds iff sftp does, the logs are joined, and an sftp error is wrapped with the scp error |
| FileTransfer.DownloadFallback | src/infra/ssh/transfer.rs:309-322 | a successful scp is the whole download; otherwise the result succeeds iff sftp does, the logs are joined, and an sftp error is wrapped with the scp error |
| FileTransfer.ProgressNotMonotoneAcrossFallback | src/infra/ssh/transfer.rs:60 | for any paths, after an scp failure at 0.1 the sftp fallback can report 0.05, so progress is not monotone across the fallback |
| FileTransfer.LevelOk | src/infra/ssh/transfer.rs:229-245 | a directory level succeeds iff every child transfer does |
| FileTransfer.LevelTrace | src/infra/ssh/transfer.rs:241-243 | when every child succeeds, the i-th child's log is followed by the fraction (i+1)/total |
| FileTransfer.LevelAborts | src/infra/ssh/transfer.rs:236-238 | the first failing child ends the level with its error, and later siblings are not processed |
| FileTransfer.UploadDirRecursive | src/infra/ssh/transfer.rs:216-246 | the recursive upload with its loop gives UploadDir |
| FileTransfer.UploadDir | src/infra/ssh/transfer.rs:216-246 | the recursive upload; LevelOk, LevelTrace, LevelAborts and UploadDirMakesRemoteDirFirst state it |
| FileTransfer.UploadDirMakesRemoteDirFirst | src/infra/ssh/transfer.rs:222-227 | the remote mkdir comes before the local listing and any child; when it fails, nothing else is done |
| FileTransfer.DownloadDirRecursive | src/infra/ssh/transfer.rs:248-281 | the recursive download with its loop gives DownloadDir |
| FileTransfer.DownloadDir | src/infra/ssh/transfer.rs:248-281 | the recursive download; LevelOk, LevelTrace, LevelAborts and DownloadDirMakesLocalDirFirst state it |
| FileTransfer.DownloadDirMakesLocalDirFirst | src/infra/ssh/transfer.rs:254-258 | the local directory is created before the remote listing; when that fails, nothing else is done |
| Settings.ServerList.ClearDefaults | src/app/services/settings_service.rs:21-23 | the loop clears every server's default flag and changes nothing else |
| Settings.ServerList.SaveServer | src/app/services/settings_service.rs:9-37 | index -1 appends, a valid index replaces, and any other index changes nothing; the result is the new list, or the store's error |
| Settings.Saved | src/app/services/settings_service.rs:19-33 | the list after saving; SavedShape, SavedDefaultIsUnique and SavedNonDefaultKeepsOthers state it |
| Settings.SavedShape | src/app/services/settings_service.rs:19-33 | appending adds one, replacing keeps the length, and an invalid index leaves the list as it was; the server lands in its slot |
| Settings.SavedDefaultIsUnique | src/app/services/settings_service.rs:20-31 | saving a default server leaves exactly one default: the saved one |
| Settings.SavedNonDefaultKeepsOthers | src/app/services/settings_service.rs:20-27 | saving a non-default server leaves every other server untouched |
| Settings.ServerList.DeleteServer | src/app/services/settings_service.rs:39-54 | a valid index is removed and stored, and only a store failure is an error; any other index changes nothing and stores nothing |
| Settings.Deleted | src/app/services/settings_service.rs:48-49 | the list after deleting; DeletedShape states it |
| Settings.DeletedShape | src/app/services/settings_service.rs:48-49 | deleting removes exactly that server and keeps the rest in order |
| Settings.ServerList.LoadServer | src/app/services/settings_service.rs:56-66 | the server at the index iff the index is valid, else none |
| Convert.PortOf | src/ui_bridge/convert.rs:25-28 | the port is the typed number when it parses as a 16-bit value of at least 1, and 22 otherwise |
| Convert.ToUi | src/ui_bridge/convert.rs:7-18 | the name, host, user, method and target directory are copied; the port text parses back to the port; an absent password or key path becomes empty text |
| Convert.FromUi | src/ui_bridge/convert.rs:21-43 | the name, host, user, method and target directory are copied; the port is PortOf of its text; empty texts become absent and present texts round-trip; the record is not a default server |
| Convert.FromUiToUi | src/ui_bridge/convert.rs:7-43 | showing a record and reading it back restores it (default flag unset) iff its port is not 0 and no password or key path is present but empty |
| Convert.ToUiFromUi | src/ui_bridge/convert.rs:7-43 | a form with a valid decimal port comes back unchanged, and an unparsable port comes back as "22" |
| Convert.DefaultUiConfig | src/ui_bridge/convert.rs:46-57 | the form for a new server; DefaultConfig states what it describes |
| Convert.DefaultConfig | src/ui_bridge/convert.rs:46-57 | a new server is "New Server", a password server on port 22 logging in as root, with no password or key, uploading to `/tmp` |
| Eta.EtaRoundTrip | src/ui_bridge/transfer_manager.rs:448-456 | the text reads back as the seconds, so no two durations are shown alike |
| Eta.FormatEta | src/ui_bridge/transfer_manager.rs:448-456 | `Ns` below a minute, `M:SS` below an hour, `H:MM:SS` above; EtaRoundTrip, EtaFields and EtaBoundaries state it |
| Eta.EtaFields | src/ui_bridge/transfer_manager.rs:451-454 | the minute and second fields are below 60, and h*3600+mm*60+ss and m*60+ss equal the seconds |
| Eta.EtaBoundaries | src/ui_bridge/transfer_manager.rs:449-454 | 59 is "59s", 60 is "1:00" and 3600 is "1:00:00" |
| Text.Pad2 | src/ui_bridge/transfer_manager.rs:452 | the two-digit field is digits with the number's value, and has length 2 for numbers below 100 |
| Services.StatusToText | src/app/services/transfer_service.rs:3-10 | the message is empty unless the status is Failed, and a failure shows "failed" with its error |
| Services.StatusTextInjective | src/app/services/transfer_service.rs:4-9 | two statuses are shown alike iff they are equal |
| Services.LabelDeterminesKind | src/app/services/transfer_service.rs:5-8 | the label alone determines the kind of status |
| Services.DedupBookmark | src/app/services/explorer_service.rs:3-7 | true iff some bookmark has both the path and the side |
| Services.DedupIgnoresNames | src/app/services/explorer_service.rs:4-6 | renaming the bookmarks does not change the answer |
| Services.AppendedIsDuplicate | src/app/services/explorer_service.rs:4-6 | after a bookmark with the path and side is appended the answer is true, and for no bookmarks it is false |
| Services.AddBookmark | src/presentation/slint/explorer/mod.rs:200-214 | the list is returned unchanged iff some bookmark already has the path and side; otherwise exactly `Bookmark(name, path, side)` is appended to it; the place is then held, and distinct places stay distinct |

## Left out

- DomainTransfer.TransferQueue.NextPending: the source returns a mutable
  reference into the queue; the model returns the task by value, so writes
  through that reference are not modelled (no caller in the core makes one).
- LegacyTransfer.TransferQueue.NextPending: likewise returns the task by
  value where src/transfer.rs:71-75 returns a mutable reference.
- Concurrency is not modelled: the queue is shared through a mutex by worker
  threads and a timer. Every queue operation is modelled as one sequential
  step.
- The error for a poisoned configuration lock ("配置锁定失败") is not modelled.
- A `load_server` that cannot take the lock returns none; this is not
  modelled either.
- Progress is a `real`, not a 32-bit float. Rounding in the division
  `transferred / total` is not modelled.
- The `u64` counters (`transferred`, sizes) and the `usize` ids do not
  overflow in the model. Task ids are unbounded `nat`s.
- The remaining-time function takes a `nat` for the `u64` seconds.
- The speed and remaining-time estimate from elapsed time, in
  src/ui_bridge/transfer_manager.rs, is not part of this model. It is
  floating point and a clock, and all of transfer_manager.rs except
  `format_eta` and its inline status mapping is user interface.
- The sftp loops read through an 8192-byte buffer. The model takes each
  read's byte count as given in `Step` and does not bound it by the buffer
  size.
- Bytes are not modelled: the data itself is not, and reads and writes are
  outcomes.
- RemoteFs.EntryLe: names are compared after lowering ASCII letters only;
  Rust's `to_lowercase` also lowers other Unicode letters.
- RemoteFs.SortEntries: the listing is proved sorted and a permutation.
  Stability (`sort_by` is stable) is not stated.
- Modification times in the sftp listing are formatted in local time by a
  date library; the model takes the formatted text as part of each item.
- Paths are modelled as text. `Path::parent` and `Path::join` use `/` only.
  `.`, `..`, repeated separators and Windows paths are not normalised.
- FileTransfer.Parent: a trailing separator is not skipped, so the parent of
  `a/b/` is `a/b`, where `Path::parent` gives `a`.
- Error messages give a path as `"path"`; Rust's escaping inside that
  debug form is not modelled.
- The transcript is a sequence of tagged lines. The exact wording and
  formatting of the program's log text is not modelled.
- The first attempt checks that `scp` and `ssh` exist by running them with
  `-V`; the model takes only the result of that check.
- The probe of the system ssh (`perform_native_ssh_check`) is an outcome in
  `Network`. Its argument list is not modelled.
- src/infra/ssh/auth.rs is the password step inside
  `SshClient.PasswordAuth`. The server's verdict is an oracle.
- A key-directory entry whose type cannot be determined is treated as a
  file.
- Entries of the directory listings that fail to read are dropped before
  the count is taken, and the model takes the entries that remain.
- The recursive download lists each remote directory through RemoteFs.ListDir. In the
  model that listing's result, sorted children included, is part of
  `RemoteDir`.
- SshCore.Transport: the flat module unwraps the stream clone, and a failed
  clone panics. The model does not model the panic and lets the connection
  go on.
- FileTransfer.UploadViaSftp: the exit status of the parent `mkdir` is
  ignored by the source and is not modelled. Only the failure to open its
  channel ends the upload.
- RemoteFs.RemoteExec: the output read from a channel is one outcome. It is
  not a sequence of partial reads.
- Settings: the settings index is an `i32` and is modelled as an unbounded
  integer.
- Settings: the rest of the application configuration (bookmarks, the last
  selection) is not modelled. Only the server list is returned.
- Convert.FromUi: the record literal names no `is_default` field, though the
  configuration record has one (src/config.rs:27). The model sets it to
  false.
- The inline status mapping in src/ui_bridge/transfer_manager.rs:382-387
  uses the same four labels as `status_to_text`; it is not a separate member.
- src/remote_fs.rs imports `AuthMode` and `SshUploader` from the flat
  module, whose uploader has no transport mode. The model dispatches on the
  layered client's `SshClient.SshUploader`, which has one.
- The connection handle exposes its `AuthMode` only through a getter. In the
  model the uploader is an immutable value, so its mode never changes after
  construction.

## Findings

| source | as written | input that shows it | evidently intended | confidence | as-written member | corrected member |
|---|---|---|---|---|---|---|
| src/infra/ssh/transfer.rs:88 (and src/ssh_core.rs:330) | the remote parent directory of an sftp upload is created by `mkdir -p "<parent>"`: the path is put between double quotes without escaping | the remote path `a" "b/f.txt`: the shell reads the command as `mkdir -p a b`, so two wrong directories are made and `a" "b` itself is not; a `$` or a backquote in the path would be expanded | the path escaped in single quotes as every other remote command does (src/remote_fs.rs:18-21, src/infra/ssh/client.rs:274) | high, not executed | FileTransfer.ParentMkdirAsWrittenSplitsPath | FileTransfer.ParentMkdirCommand |
