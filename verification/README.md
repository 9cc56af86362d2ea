# mqConnector: verified models of its hard parts

A Dafny model of seven parts of mqConnector, with proofs of what each part is
for. Every part comes in two layers. Code that changes state step by step is a
class or a method, proved against a specification function or a state machine.
The properties are lemmas about that specification.

- **Audit archival** (`internal/audit/archive.go`). `ArchiveMachine` is a
  state machine over the audit table, the per-day files with a stable prefix
  and a volatile rest, and the S3 bucket. Any call may fail, and the process
  may die or the machine lose power between any two steps. `ArchiveInvariants`
  has what every run keeps: the day layout, the handle, the bound on copies.
  `ArchiveSafety` proves "duplicate, never lose" over every run whose steps are
  careful. `ArchiveLimits` shows by runs why each of its four conditions is
  needed, and `ArchiveLosses`, `ArchiveReopening` and `ArchiveSweep` say exactly
  when a row is lost. `ArchiveReplicas` and `ArchiveReplicaLimits` have several
  replicas over one table and bucket. `Archiver` is the object itself: each of
  its methods is shown to take only steps of the machine.
- **SIEM forwarder** (`internal/audit/syslog.go`). `Forwarder` is the bounded
  queue with its writer and its reconnecting connection, over every
  interleaving, `Receiver` what arrives, and `Syslog` is the object. `Cef` and
  `Frames` have the printers, which `CefReader`, `CefFields` and `Frames` prove
  against readers written from the formats (ArcSight CEF, section 6 of RFC 5424,
  newline framing as in section 3.4.2 of RFC 6587).
- **Call counter** (`internal/ai/metrics.go`). `Metrics` has the counter, the
  decimal printer over its twenty-byte buffer and the sorted renderer, proved
  against a reader of the Prometheus text format 0.0.4.
- **LLM calls** (`internal/ai/openai_compatible.go`). `Provider` has the call
  protocol and its two sinks; `CodeFence` has the clean-up of fenced answers.
- **SigV4 headers** (`internal/audit/s3.go`). `SigV4` has the in-place
  insertion sort and the canonical header block.
- **Backup rotation** (`cmd/mqconnector/backup.go`). `Backup` relates the
  lexical order of file names to time and says which snapshots survive.
- **DLQ retention** (`internal/dlq/retention.go`). `Retention` has the sweep,
  its bound over runs, and replicas pruning from stale choices.

`Sorting`, `Sequences`, `Decimal`, `Clock`, `TextLines` and `Options` are shared.

Each outcome of a call to the outside world (disk, network, database, endpoint)
is an argument of the method that makes it, so a theorem over all arguments
holds whatever the outside world does.

## What the proofs found

- `archive.go:16-19` promises that rows are duplicated but never lost. This
  holds over every run in which four things do not happen: the ignored `Sync`
  of a rotation fails (`archive.go:227`) while the file holds unstable rows of
  the running sweep, a row not yet readable is appended straight after a torn
  line, a row is inserted with a time below the cutoff of the running sweep, or
  a new file is begun for a day whose object still holds a row that has left
  the table or was written by the running sweep. For each of the four there is
  a run in which it alone happens and a row is lost (`RotationSyncMatters`,
  `FreshLinesMatter`, `InsertTimesMatter`, `ReopeningMatters`). Each has its
  exact condition:
  - In every run only deletes and uploads lose rows
    (`OnlyDeletesAndUploadsLose`).
  - Late inserts lose nothing exactly when every delete removes just the rows
    its sweep wrote (`LateInsertsLoseNothingExactlyWhen`).
  - A failed rotation sync loses nothing at the delete exactly when the rows of
    the sweep in each file with an unsynced tail are in its stable part or in its
    object (`FailedRotationsLoseNothingExactlyWhen`).
  - A write straight after a torn line loses nothing at the delete exactly when
    each row of the sweep can be read back from its file as it stands or from its
    object (`TornLinesLoseNothingExactlyWhen`). With local files kept and every
    rotation so far synced, a successful sweep loses nothing exactly when the
    first row it writes after a torn line can be read back already (last clause
    of `Archive`).
  - Beginning a new file for a pruned day can lose a row later exactly when the
    day's object holds a row that has left the table
    (`ReopeningLosesExactlyWhen`).
- `archive.go:54-60` says that replicas archiving at the same time are safe but
  wasteful. With local files kept this is so: any number of replicas, in shared
  or separate directories, lose nothing (`ReplicasNeverLose`). With local files
  pruned it is not, even if every call succeeds and rows arrive and are read in
  the order of their times: two replicas with their own directories lose rows
  when they merely take turns (`SeparateDirectoriesMatter`), and two in one
  directory do when their sweeps overlap (`SharedDirectoryMatters`).
- The CEF header escapes pipes and backslashes but not newlines, so a frame is
  one line only if the version, action and resource are
  (`CefIsOneLineExactlyWhen`). A host or application name with a space changes
  the RFC 5424 fields (`FrameReadsExactlyWhen`).
- `appendInt` prints the least 64-bit integer as a bare `-`, because its
  negation wraps. The exposition reads back exactly when no counter holds that
  value (`Metrics.RoundTrip`), and counters driven by fewer than 2^63 calls
  never do (`CounterIsPrintable`).
- The comment at `openai_compatible.go:386-387` says that a fence is only
  stripped when both ends match. The code leaves a text alone exactly when it
  has no opening fence (`UntouchedExactlyWhen`), so it does as the comment says
  exactly for texts without an opening fence and texts fenced at both ends
  (`CommentHoldsExactlyWhen`).
- An empty schema makes `StructuredOutput` return an error that is neither
  counted nor audited (`openai_compatible.go:114-116`, `OneOutcome`).
- `canonicalize` looks values up under lower-cased names. A header is signed with
  its value exactly when its name is lower-case or the value is blank, and two
  names that differ only in case make the block unreadable
  (`BlockCarriesTheHeadersExactlyWhen`): `Host` would be signed as blank
  (`CapitalsLoseTheValue`). The only caller, `s3.go:117-123`, passes lower-case
  names, and its headers are all carried (`UploadHeadersAreCarried`).
- Rotation counts every name of the form `mqconnector-*.db`
  (`backup.go:146`). A stray file whose name sorts after the snapshots takes one of
  the places to keep (`StraysMatter`); a snapshot survives exactly when the newer
  snapshots and the stray names after it are fewer than `keep`
  (`KeepsTheNewest`).
- `retention.go:60-66` says that ungated replicas may delete too much. A prune
  that chooses and deletes in one indivisible statement never removes one of the
  newest rows (`AtomicPrunesKeepTheNewest`). If other statements can come
  between the choice and the delete of `internal/storage/dlq.go:712-728`, stale
  choices are still harmless as long as nothing else deletes dead letters
  (`StaleChoicesNeverOverDelete`), but not otherwise: an operator's delete or a
  successful retry in between can make the prune empty the table
  (`DiscardsMatter`). `StaleDeletesInEveryRun` has the exact condition: above
  some victim that is still there, fewer than `maxRows` rows are left of those
  the prune meant to keep and those that came later.

## Assumptions of the archive model

- `IterOlderThan` yields each row with a time before the cutoff once, in any
  order, and `DeleteOlderThan` removes exactly the rows of the table with a
  time before the cutoff (`internal/storage/audit.go:114-142`).
- A `Sync` that returns no error has made every byte of that file durable. A
  power loss keeps everything synced, any longer prefix, and perhaps part of
  the line after it. Whether a new file's directory entry is durable is not
  modelled, and removing a file is durable at once.
- The rows come oldest first, as the query orders them, where
  `ReopeningLosesExactlyWhen` says so; every other result holds for any order.
- A row write either completes, or fails after leaving a fragment of its line
  or nothing. A line is an abstract record; it can be read back unless it
  follows a fragment.
- A delete or an upload may have happened although it returned an error. A
  delete is all or nothing.
- The S3 settings do not change during a run. One archiver works on the
  directory at a time, except in `ArchiveReplicas`.

## Model

| member | source | states |
|---|---|---|
| ArchiveInvariants.EachFileHoldsItsOwnDay | internal/audit/archive.go:218-256 | In every run, careful or not, every line of a day's file and of its object is an inserted row of that day |
| ArchiveInvariants.WritesGoToTheirOwnDay | internal/audit/archive.go:223-247 | In every run, whenever a line may be written, the open handle matches `openDate` and is the file of that row's day |
| ArchiveInvariants.EveryRunIsSteady | internal/audit/archive.go:177-290 | Layout, handle and the rows of the sweep under way are invariant over every run, whatever fails |
| ArchiveInvariants.LayoutKept | internal/audit/archive.go:218-256 | Every step keeps each file and object to rows of its own day |
| ArchiveInvariants.BoundedDuplication | internal/audit/archive.go:16-19 | In every run a row occurs in a file, or in an object, at most once plus once for each failed sweep that had written it |
| ArchiveInvariants.FewCopiesKept | internal/audit/archive.go:177-207 | Every step keeps the bound on copies |
| ArchiveInvariants.ObjectsArePrefixes | internal/audit/archive.go:265-289 | With local files kept, in every run whose rotations synced, each object is a prefix of the stable part of its file, so uploading again never shrinks it |
| ArchiveInvariants.PrefixesKept | internal/audit/archive.go:265-289 | Every step but a failed rotation sync keeps the objects prefixes |
| ArchiveSafety.CarefulRunsLoseNothing | internal/audit/archive.go:177-256 | Every run without a careless step keeps the whole invariant: each row that has left the table is on disk in its day's file, or in the object of a day without a file, and what the sweep has written survives until its own sync |
| ArchiveSafety.NeverLose | internal/audit/archive.go:11-19 | From a fresh service, with S3 on or off and local pruning on or off, no row is lost in any careful run, whatever fails and wherever it crashes |
| ArchiveSafety.LocalCopiesSuffice | internal/audit/archive.go:74-84 | With local files kept, in runs that are careful in all but the opening of files, the stable part of the local file alone holds every row that has left the table |
| ArchiveSafety.ExactlyOnceWithoutFailures | internal/audit/archive.go:177-207 | A row that has left the table and that no failed sweep had written is in its day's file exactly once, or in its object exactly once if the file was pruned |
| ArchiveSafety.InvKept | internal/audit/archive.go:196-205 | No careful step breaks the safety invariant, in particular not the delete after the sync |
| ArchiveLimits.RotationSyncMatters | internal/audit/archive.go:227 | A run whose only careless step is a rotation with a failed, ignored sync loses a row at a power loss |
| ArchiveLimits.FreshLinesMatter | internal/audit/archive.go:252-254 | A run whose only careless step is a write after a torn line loses that row |
| ArchiveLimits.InsertTimesMatter | internal/audit/archive.go:203 | A run whose only careless step is an insert below the running cutoff loses that row |
| ArchiveLimits.ReopeningMatters | internal/audit/archive.go:265-289 | With pruning on, a failed delete makes the next sweep reopen a pruned day and overwrite its object, which loses a row deleted earlier |
| ArchiveLosses.OnlyDeletesAndUploadsLose | internal/audit/archive.go:177-290 | In every run a step loses a row exactly if it is a delete of a row its sweep never wrote or cannot read back, or an upload over an object holding a row found neither in the table nor in the new file |
| ArchiveLosses.LateInsertsLoseNothingExactlyWhen | internal/audit/archive.go:196-205 | A run whose only careless steps are late inserts loses nothing exactly when every delete removed just the rows its sweep had written |
| ArchiveLosses.FailedRotationsLoseNothingExactlyWhen | internal/audit/archive.go:227-228 | After a run whose only careless steps are failed rotation syncs and late inserts, the delete loses nothing exactly when no late row is due and each file with an unsynced tail has the sweep's rows in its stable part or its object |
| ArchiveLosses.TornLinesLoseNothingExactlyWhen | internal/audit/archive.go:252-254 | In every configuration, after a run whose only careless steps are writes after torn lines, the delete loses nothing exactly when each row of the sweep can be read back from its file as it stands or from its object |
| ArchiveReplicas.ReplicasNeverLose | internal/audit/archive.go:54-60 | With local files kept, any number of replicas sweeping at the same time, in shared or separate directories, lose nothing, whatever fails and whichever crash |
| ArchiveReplicas.CarefulHistoriesLoseNothing | internal/audit/archive.go:54-60 | Every careful history keeps, for each replica, that its rows survive to its own sync and that what it deletes is on its disk |
| ArchiveReplicaLimits.SeparateDirectoriesMatter | internal/audit/archive.go:265-289 | With pruning, two replicas with their own directories that take turns overwrite each other's object and lose a row, with no failure at all |
| ArchiveReplicaLimits.SharedDirectoryMatters | internal/audit/archive.go:54-60 | With pruning, two replicas sweeping one directory at the same time lose a row, with no failure at all |
| ArchiveReplicaLimits.ReplicasLoseExactlyWhen | internal/audit/archive.go:54-60 | Two replicas, sharing a directory or not, can lose a row with nothing going wrong exactly when local files are pruned |
| ArchiveReopening.ReopeningLosesExactlyWhen | internal/audit/archive.go:241-247 | After a careful run of sweeps in order, beginning a new file for a day can lose a row later, by careful steps alone, exactly when the day's object holds a row that has left the table |
| ArchiveReopening.SweepsStayOrdered | internal/storage/audit.go:114-133 | Sweeps oldest first never leave a day and come back to it |
| ArchiveSweep.CleanSweepLosesNothingExactlyWhen | internal/audit/archive.go:177-207 | With local files kept and every rotation so far synced, S3 on or off, a successful sweep loses nothing exactly when, for each day whose file ended in a torn line, synced or not, the first row written to it was readable there already |
| ArchiveSweep.AppendedRowsAreReadable | internal/audit/archive.go:248-254 | After appending distinct rows to a file, each can be read back except the first one after a torn line |
| Archiver.TrailsAreRuns | internal/audit/archive.go:177-290 | What the object has done is a run of the machine at every prefix, so the theorems over runs hold between any two of its calls |
| Archiver.Archiver.Archive | internal/audit/archive.go:177-207 | Takes only steps of the machine; on success no row before the cutoff is left and nothing else was removed, the last two steps are the sync and then the delete, and unless files are pruned each gained exactly its own rows in order and is all stable if the rotations synced, and a row was lost exactly if a torn line was not covered; on success with S3 on, rows in order and every upload acknowledged, pruned or not, each due day but the last has an object ending with all its rows, each readable there exactly unless its line follows an old torn one; on error the table is unchanged, unless the delete happened without being acknowledged, and the rows written count as duplicated |
| Archiver.Archiver.StreamRows | internal/audit/archive.go:179-188 | Streams rows until the cursor or a row fails, and counts the rows written; with S3 on, rows in order and every upload acknowledged, each day but the last has been uploaded whole when it succeeds |
| Archiver.Archiver.SyncThenDelete | internal/audit/archive.go:193-205 | Rows leave the table only after a sync that returned no error; a failed sync deletes nothing, and the sync changes no file but the open one |
| Archiver.Archiver.AppendRow | internal/audit/archive.go:218-256 | On success, in every configuration, exactly one line is added, to the file of the row's day, which is the open one; no other file changes, but the one rotated out may have become its object; whether the row fails or not, the bucket changes only if another day's file was open, and then that file becomes its object and is pruned exactly as in `RotateOut`; on error the sweep ends and the rows already written stay in the table |
| Archiver.Archiver.SwitchTo | internal/audit/archive.go:223-247 | Does nothing if the date's file is open; otherwise no file loses a line, but the one rotated out becomes its object and is pruned exactly as in `RotateOut`, and is all stable if its sync worked and it was kept; with no open file the bucket is unchanged |
| Archiver.Archiver.RotateOut | internal/audit/archive.go:225-241 | The object of the closed day becomes its file exactly if S3 is on, the file is not empty and the upload was stored; the file goes exactly if besides pruning is on, the upload was acknowledged and the removal worked, and otherwise it is kept, all stable if the sync worked |
| Archiver.Archiver.UploadAndMaybePrune | internal/audit/archive.go:265-290 | The object becomes the whole file unless the file is empty or the upload is refused; the file goes only after an acknowledged upload with pruning on |
| Archiver.Archiver.DeleteOlderThan | internal/storage/audit.go:135-142 | Removes every row before the cutoff, late inserts included, and no other |
| Archiver.Archiver.InsertRow | internal/storage/audit.go:155-222 | A new row reaches the table; a step of the machine like the others |
| Archiver.Archiver.LosePower | internal/audit/archive.go:16-19 | Each file keeps what was synced and perhaps more, and the handle is gone; a step of the machine |
| Archiver.Archiver.ShutDown | internal/audit/archive.go:131-138 | Between sweeps, syncs and closes the open file, leaving everything else alone |
| Forwarder.Conservation | internal/audit/syslog.go:111-173 | Over every interleaving each offered entry is in exactly one of written, write-failed, dropped, queued or in flight; the queue stays within 1024; the written entries are a subsequence of the offered ones |
| Forwarder.RefusedExactlyWhenFull | internal/audit/syslog.go:111-118 | After every run the next entry is refused exactly when the entries admitted less those taken are 1024 |
| Forwarder.NothingDroppedExactlyWhen | internal/audit/syslog.go:111-118 | A run drops nothing exactly when no entry in it finds 1024 waiting |
| Forwarder.ConnectionDiscipline | internal/audit/syslog.go:133-200 | At most one dialled connection is open at any time, none after a failed write and none once the writer has returned |
| Receiver.ReceiverSeesExactlyTheWritten | internal/audit/syslog.go:164-173 | Across reconnects and partial writes, the complete lines that the connections accepted are exactly the frames written whole, in order, if frames are single lines |
| Receiver.PeerSeesOnlyTheWritten | internal/audit/syslog.go:164-173 | However much of what was accepted is lost with its connection, the complete lines that reach the peer are on each connection the first of those sent, and over all a subsequence of the frames written |
| Forwarder.InvAlways | internal/audit/syslog.go:133-173 | The accounting, connection and wire invariants hold in every reachable state |
| Forwarder.OneConnectionKept | internal/audit/syslog.go:175-200 | Every step keeps the held connection the newest and the only open one |
| Syslog.SyslogForwarder.OnInsert | internal/audit/syslog.go:111-118 | Never blocks: with fewer than 1024 entries waiting the entry goes to the end of the queue, otherwise it is dropped and the queue stays as it was |
| Syslog.SyslogForwarder.FormatFrame | internal/audit/syslog.go:206-223 | Builds the one frame that the wire invariant speaks of, for both formats |
| Syslog.SyslogForwarder.EnsureConn | internal/audit/syslog.go:175-191 | Reuses the open connection or dials once; a failed dial leaves none |
| Syslog.SyslogForwarder.DropConn | internal/audit/syslog.go:193-200 | Closes the held connection, so none is open |
| Syslog.SyslogForwarder.Write | internal/audit/syslog.go:164-173 | Takes the steps dial or reuse, then send, and succeeds exactly when all bytes went out on a connection |
| Syslog.SyslogForwarder.HandleOne | internal/audit/syslog.go:147-151 | One entry leaves the queue and leads along machine steps; after any failure the connection is dropped before anything else is sent |
| Syslog.SyslogForwarder.HandleAndWake | internal/audit/syslog.go:147-158 | One entry and, after a failure, the back-off, after which the next entry can be handled |
| Syslog.SyslogForwarder.Serve | internal/audit/syslog.go:141-161 | Any number of arrivals and turns of the loop extend the run of the machine from a fresh forwarder, and entries are conserved; every arrival is offered once, in order, each turn with an entry waiting finishes one, and the rest wait |
| Syslog.SyslogForwarder.StopWriter | internal/audit/syslog.go:129-131 | Stops once; stopping again changes nothing |
| Syslog.SyslogForwarder.CancelWriter | internal/audit/syslog.go:143-144 | Cancelling is a step of the machine at any time |
| Syslog.SyslogForwarder.Finish | internal/audit/syslog.go:133-146 | When the writer returns no connection is open |
| CefReader.RoundTrip | internal/audit/syslog.go:238-329 | For every entry and version an independent reader recovers the seven header fields and exactly the non-blank extension pairs |
| CefFields.MessageSaysWhatTheEntrySays | internal/audit/syslog.go:238-286 | Looked up by its literal key in the message the reader returns, each value is that of the entry field named for it; the outcome is "failure" exactly from status 400; the header has the vendor, product, version, action, resource and the severity 7 from 500, 5 from 400, else 3 |
| CefFields.PrinterIsInjective | internal/audit/syslog.go:238-286 | Entries printed alike agree in action, actor, subject, address, resource, id, request, tenant and status, and in the version |
| Cef.EscapeCEFHeader | internal/audit/syslog.go:299-310 | The loop computes the header escaping that the reader inverts |
| Cef.EscapeCEFValue | internal/audit/syslog.go:314-329 | The loop computes the value escaping that the reader inverts |
| Cef.FormatExtension | internal/audit/syslog.go:273-284 | The loop prints the non-blank pairs, separated by single spaces |
| Cef.FormatCEF | internal/audit/syslog.go:238-296 | The printed message is the text that `RoundTrip` reads back |
| CefReader.FieldsRead | internal/audit/syslog.go:299-310 | Escaped fields, each ended by a pipe, read back whatever they contain and whatever follows |
| CefReader.PairsRead | internal/audit/syslog.go:273-284 | Printed pairs read back even though their values contain spaces, pipes and equals signs |
| Receiver.LinesRead | internal/audit/syslog.go:206-223 | In either format the frame of an entry reads back as facility 16, severity 5, version 1, its time, host name, application name, message id "audit" and a body that is the JSON or the CEF message of that entry |
| Frames.FrameReads | internal/audit/syslog.go:206-223 | An RFC 5424 reader recovers facility 16, severity 5, version, time, names, message id and body |
| Frames.FrameTimeReads | internal/audit/syslog.go:206-223 | The timestamp of the frame reads back as the entry's time |
| Clock.Rfc3339Reads | internal/audit/syslog.go:206-223 | Every valid date-time reads back from its timestamp |
| Frames.FrameReadsExactlyWhen | internal/audit/syslog.go:206-223 | Host and application name come back exactly when neither has a space |
| Frames.CefIsOneLineExactlyWhen | internal/audit/syslog.go:286-329 | A CEF body is one line exactly when version, action and resource are |
| Frames.FrameIsOneLineExactlyWhen | internal/audit/syslog.go:206-223 | A frame is one line exactly when both names and the body are |
| TextLines.StreamSplitsExactlyWhen | internal/audit/syslog.go:206-223 | Newline-ended frames split back into the same list exactly when none contains a newline |
| Metrics.KeyOrder | internal/ai/metrics.go:89-97 | The comparator is a total order and strict on distinct keys, so the output does not depend on map order |
| Metrics.SeriesAreInOrder | internal/ai/metrics.go:84-112 | The printed series come by feature, then model, then outcome |
| Metrics.DigitsBackwards | internal/ai/metrics.go:153-161 | The backward loop stays inside its twenty bytes, terminates, and leaves the canonical digits |
| Metrics.AppendInt | internal/ai/metrics.go:144-162 | Appends the canonical numeral of every 64-bit integer but the least, for which it appends only the sign |
| Decimal.TextReads | internal/ai/metrics.go:144-162 | A numeral reads back as its integer and has no leading zero, with a sign or without |
| Metrics.EscapeLabel | internal/ai/metrics.go:120-139 | The fast path and the loop both give the escaping that the reader inverts |
| Metrics.CallCounter.Inc | internal/ai/metrics.go:35-46 | Adds one to exactly its own key, wrapping as the machine integer does; a nil counter ignores the call |
| Metrics.CallCounter.Prometheus | internal/ai/metrics.go:71-112 | In whatever order the keys are collected, the output is a function of the map alone |
| Metrics.LabelsRead | internal/ai/metrics.go:99-139 | Labels with arbitrary values read back as those labels |
| Metrics.RoundTrip | internal/ai/metrics.go:71-139 | Every series is one line; the exposition reads exactly when no counter is the least integer, and then gives back the counter map |
| Metrics.CounterCounts | internal/ai/metrics.go:35-46 | A series exists for exactly the keys called and holds their number of calls, modulo 2^64 |
| Metrics.CounterIsPrintable | internal/ai/metrics.go:35-46 | Below 2^63 calls every counter is exact and the exposition reads back |
| Provider.Attempts | internal/ai/openai_compatible.go:79-159 | None after a failed preflight or with an empty schema, else one for Complete; a second one for StructuredOutput exactly after status 400 or 422 |
| Provider.OneOutcome | internal/ai/openai_compatible.go:79-182 | Every call records exactly one outcome, except the empty-schema return, which records none |
| Provider.OutcomesMean | internal/ai/openai_compatible.go:286-338 | "ok" exactly when there is no error; "rejected" exactly when preflight failed, and then nothing was sent; "timeout" exactly when the last request got no answer because its deadline passed (a deadline while the body is read is "error"); StructuredOutput returns only text that the JSON check accepts |
| Provider.SentExactlyWhen | internal/ai/openai_compatible.go:164-182 | A call sends a request exactly if the provider is enabled, the feature is listed, the text has a character that is not white space and, for StructuredOutput, there is a schema |
| Provider.RejectionsMean | internal/ai/openai_compatible.go:110-182 | Disabled exactly when not enabled, feature off exactly when enabled and not listed, rejected exactly for blank text or an empty schema |
| Provider.AskedInOrder | internal/ai/openai_compatible.go:120-145 | StructuredOutput asks with the schema first, and then with the schema in the prompt exactly after status 400 or 422; Complete asks once |
| Provider.RepliesMean | internal/ai/openai_compatible.go:286-371 | Each error kind is given by what the last reply was; the text returned is that of the first of the choices, unfenced for StructuredOutput |
| Provider.FencedAnswerIsUnwrapped | internal/ai/openai_compatible.go:146-159 | A fenced answer whose body is valid JSON reaches the caller as the trimmed body |
| Provider.CounterAndAuditAgree | internal/ai/openai_compatible.go:302-324 | Over any sequence of audited calls the histogram of audit rows is the counter map, and the rows number the calls less the empty-schema returns |
| Provider.CallAll | internal/ai/openai_compatible.go:302-324 | After any sequence of calls on one provider with fresh sinks and auditing on, its counter and its audit log agree |
| Provider.AllCallsCounted | internal/ai/openai_compatible.go:302-324 | Recorded outcomes plus empty-schema returns are all the calls |
| Provider.OpenAIProvider.Complete | internal/ai/openai_compatible.go:79-103 | Requests, result and sinks are those of the call's trace |
| Provider.OpenAIProvider.StructuredOutput | internal/ai/openai_compatible.go:110-159 | Requests, result and sinks are those of the call's trace, fallback included |
| Provider.OpenAIProvider.PreflightCheck | internal/ai/openai_compatible.go:164-182 | Passes exactly if the provider is enabled, the feature is listed and the text is not blank; fails in that order, and records each failure as rejected |
| Provider.OpenAIProvider.Emit | internal/ai/openai_compatible.go:302-324 | Records one outcome in each sink that is present and enabled, and changes nothing else |
| CodeFence.FencedText | internal/ai/openai_compatible.go:382-395 | Any text between two fences comes out trimmed and without its tag line |
| CodeFence.TaggedFence | internal/ai/openai_compatible.go:382-395 | Tag line, body, newline and closing fence give the trimmed body |
| CodeFence.OneLineFence | internal/ai/openai_compatible.go:382-395 | A one-line fenced text gives its inner text, trimmed |
| CodeFence.UntouchedExactlyWhen | internal/ai/openai_compatible.go:379-385 | A text comes back unchanged exactly when it does not begin with a fence |
| CodeFence.CommentHoldsExactlyWhen | internal/ai/openai_compatible.go:386-394 | The promise to strip only when both ends match is kept exactly on texts without an opening fence and texts fenced at both ends |
| CodeFence.OpeningBraceIsKept | internal/ai/openai_compatible.go:386-390 | A first line with a brace, bracket, space or tab is not taken for a language tag and is kept |
| CodeFence.UnclosedFence | internal/ai/openai_compatible.go:386-394 | An opening fence that is never closed is dropped all the same |
| CodeFence.TrimSpaceCuts | internal/ai/openai_compatible.go:146-149 | TrimSpace removes only white space, and only at the ends |
| CodeFence.TrimSpaceLeavesNone | internal/ai/openai_compatible.go:146-149 | TrimSpace leaves no white space at either end |
| SigV4.InsertionSort | internal/audit/s3.go:199-203 | The in-place swaps leave a sorted permutation of the keys |
| SigV4.Canonicalize | internal/audit/s3.go:193-212 | The keys are the sorted lower-cased names; the block and the signed list are built from that one list |
| SigV4.CanonicalKeysAreUnique | internal/audit/s3.go:193-203 | Whatever order the map is read in, the keys, and so both outputs, are the same |
| SigV4.SignedNamesRead | internal/audit/s3.go:211 | The signed list splits back into exactly the canonical names in their order |
| SigV4.BlockReadsExactlyWhen | internal/audit/s3.go:193-212 | The block can be read back exactly when no two names differ only in case, and then gives each lower-cased name once |
| SigV4.BlockReads | internal/audit/s3.go:204-210 | The canonical lines parse back to the trimmed values under those names |
| SigV4.ValueIsCarriedExactlyWhen | internal/audit/s3.go:204-210 | A header's trimmed value stands under its lower-cased name exactly when that is its name or the value is blank |
| SigV4.BlockCarriesTheHeadersExactlyWhen | internal/audit/s3.go:193-212 | The block reads back with every header's trimmed value exactly when no two names differ only in case and every name is lower-case or has a blank value |
| SigV4.CapitalsLoseTheValue | internal/audit/s3.go:204-210 | A header named `Host` is signed with a blank value |
| SigV4.UploadHeadersAreCarried | internal/audit/s3.go:117-123 | The four headers of an upload are all signed with their trimmed values, and nothing else is |
| Clock.StampOrder | cmd/mqconnector/backup.go:64 | Stamps of the years 0 to 9999 order as strings exactly as their times do |
| Backup.NameOrder | cmd/mqconnector/backup.go:64-65 | Snapshot names order exactly as their times do and are found by rotation |
| Backup.BackupDir.RotateBackups | cmd/mqconnector/backup.go:135-160 | Removes an initial part of the doomed list, all of it unless a removal fails, and nothing else |
| Backup.SurvivesExactlyWhen | cmd/mqconnector/backup.go:132-160 | Whatever the directory holds, a matching file survives exactly when fewer than `keep` matching names sort after it |
| Backup.OtherNamesStay | cmd/mqconnector/backup.go:141-149 | No directory, and no name without the prefix or the `.db` suffix, is ever removed |
| Backup.KeepsTheNewest | cmd/mqconnector/backup.go:132-160 | A snapshot survives exactly when the newer snapshots and the stray names sorting after it are together fewer than `keep` |
| Backup.StraysMatter | cmd/mqconnector/backup.go:146-148 | With `keep` one, a stray name after every stamp makes rotation remove the only snapshot |
| Backup.NeverRemovesTheNewest | cmd/mqconnector/backup.go:154-158 | However early a removal fails, only matching files are removed, and with no strays never one of the newest `keep` snapshots |
| Backup.KeepsAsManyAsAsked | cmd/mqconnector/backup.go:150-158 | After success exactly `keep` snapshots are left, or all if there were fewer |
| Retention.PrunesCommute | internal/dlq/retention.go:97-113 | The two prunes commute, and together keep the intersection of what each keeps |
| Retention.SweepKeepsExactly | internal/dlq/retention.go:11-17 | A working sweep keeps exactly the rows within the age limit, if there is one and its cutoff is not the zero time, and among the newest `maxRows` of the table |
| Retention.NewestSize | internal/storage/dlq.go:712-728 | The count prune leaves `n` rows, or all if there are fewer |
| Retention.OffsetIsNewest | internal/storage/dlq.go:712-728 | Skipping the first `n` rows of the descending order keeps the rows with fewer than `n` newer ones |
| Retention.Retention.PruneToMaxRows | internal/storage/dlq.go:712-728 | Walking the descending order leaves exactly the rows with fewer than `n` newer ones, and a limit of zero or less deletes nothing |
| Retention.Retention.Sweep | internal/dlq/retention.go:97-113 | Each prune runs if it is enabled, whether or not the other failed |
| Retention.Retention.Run | internal/dlq/retention.go:73-95 | The table after any ticks is the fold of the sweeps the leader gate let through; if no tick gets past the gate it only gains the arrivals, and with both policies off it is untouched |
| Retention.FollowersDeleteNothing | internal/dlq/retention.go:60-95 | Behind the gate, ticks that are not led leave the old rows and all arrivals |
| Retention.GoneRowsWereSwept | internal/dlq/retention.go:73-113 | A row that was there or arrived and is gone was removed in an ungated or led tick, by a working prune: it was too old, or `maxRows` rows were newer |
| Retention.AgePruneApplies | internal/dlq/retention.go:97-113 | After an ungated or led tick whose age prune works no row is too old, even if the count prune fails |
| Retention.TableIsBounded | internal/dlq/retention.go:73-113 | After at least one count prune the table holds at most `maxRows` rows besides those inserted since the last one |
| Retention.AtomicPrunesKeepTheNewest | internal/storage/dlq.go:712-728 | A prune that chooses and deletes at once leaves exactly the newest `n`, whatever was discarded before |
| Retention.StaleChoicesNeverOverDelete | internal/dlq/retention.go:60-69 | As long as nothing is discarded, replicas deleting stale choices in any interleaving keep the `n` newest rows ever inserted |
| Retention.DiscardsMatter | internal/dlq/retention.go:60-66 | A run in which a dead letter deleted between a choice and its delete makes the prune empty the table |
| Retention.StaleDeletesInEveryRun | internal/dlq/retention.go:60-66 | In every run a stale delete removes one of the newest `n` exactly when, above some victim still there, fewer than `n` rows are left of those it meant to keep and those that came later |
| Retention.OverDeletingNeedsADiscard | internal/storage/dlq.go:140-155 | A stale delete removes too much only if a row it meant to keep was deleted since the choice |

## Left out

- Archiver scheduling: `Run`, the ticker, `leaderOK`, `SetLeaderCheck` and `SetS3Uploader`; a run may begin a sweep at any time with any cutoff, which covers every schedule, and the settings are constant.
- Archiver.Archiver.Archive: inserts and crashes happen before and after it, by the object's own methods, and not inside it; the machine takes them at every step. With local files pruned, what a whole sweep does to the last day's file is stated row by row and not in one clause; the other days' objects are.
- ArchiveReplicas.ReplicasNeverLose: a local file removed while another replica has it open, which takes pruning, is not modelled; the theorem is about configurations that remove no file.
- Archive file contents: the JSON of a row is an abstract record, and a marshalling error, which cannot occur for this row type, has no step.
- Syslog.SyslogForwarder.Serve: entries arrive between turns of the loop and not inside them, and goroutine start-up is left out; in the state machine entries, cancel and stop may come at any step.
- `NewSyslogForwarder`: URL parsing and TLS; dial and write deadlines only appear as failures.
- JSON encoding of an audit entry: an opaque string, assumed newline-free where a frame must be one line.
- Text is a sequence of code points; Go's replacement of invalid UTF-8 is outside the model, and `strings.ToLower` is modelled for ASCII letters.
- `sort.Slice` and `sort.Strings` are represented by a sorting function; since only one sorted arrangement exists, any correct sort gives the same result.
- `CallCounter.Snapshot`: joins keys with a separator and is only read by tests; a nil map is not told apart from an empty one.
- Provider request bodies, token counts, latency, error message text, caller and tenant attribution, and logging; `json.Valid` is a parameter.
- `PutObject`: SHA-256, HMAC and the HTTP request; only the canonical headers are modelled.
- Backup creation, `VACUUM INTO` and the integrity check; rotation is modelled for `keep` of zero or more, which its caller guarantees, and calendars beyond the year 9999 are not.
- Retention ties: rows created at the same instant are ordered by `id`, standing for whatever order the database picks, as long as it picks the same one each time.
- Configuration, routing, the web interface, leases, Kafka and IBM MQ connectivity, and key rotation.
