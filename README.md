# A verified model of the magnetde/log logging library

This project models the core of the Go package `log` (magnetde/log) and its
logrus hook package `serverhook`.

- **Logger.** A `Logger` holds a list of transporters. It initialises them, fans every log call out to them in list order, and closes them.
- **Console transporter.** It formats one line per entry: a padded level prefix, an optional date, the message, and the time since the previous message.
- **File transporter.** It appends those lines to a live file. When a byte or line limit is reached, it rotates the live file into `<name>.1.gz`, first shifting the older archives `<name>.N.gz` up by one and deleting the ones past the rotation limit.
- **Server transporters.** They queue entries for a log server and throttle the delivery errors they print to one every ten minutes.
- **Job queue.** An event loop with a concurrency limit and a wait group.
- **logrus hook.** It validates its type and URL, applies options in order, maps logrus levels onto the package's levels, appends the entry's fields in sorted key order, and throttles its own errors.

Two revisions of the console and server transporters exist side by side in the
repository (`transporter.go`, `transport.go`). They declare the same type names
and are modelled in separate modules (`Transporter`, `Transport`). The
transporters of `transporters.go` are a third revision (`Transporters` for the
file transporter, `QueuedServer` for its server transporter).

How each part is modelled:

- **State.** Code that updates objects in place is a class with `modifies` clauses. This covers the logger, the queue, the transporters, the hook and the disk.
- **Pure code.** Level names, `divCeil`/`padStart`, `formatDiff`, the archive-name pattern and the rotation planner are functions with lemmas.
- **The directory.** It is a map from file name to the lines the file holds, and gzip is the identity.
- **The clock.** Each operation takes its clock reading (`now`) as a parameter.
- **Standard output.** It is a `Writer` whose `written` sequence records every chunk.
- **Failures.** The operating-system calls the file transporter makes are methods of a `Disk` class. A fixed set of these operations fails.

## Model

| member | source | states |
|---|---|---|
| Levels.Name | level.go:21-38 | each of the six levels gets its lower-case name, its entry of the name table; every other value gets "" and only those do |
| Levels.NameRoundTrip | level.go:21-38 | names and levels correspond one to one: reading back the name of a level gives the level, and a name that reads as a level is that level's name |
| Levels.NameInjective | level.go:22-34 | `String` is injective on the six levels |
| Levels.ColorOf | level.go:40-53 | `color` is defined only on the seven table indexes 0..6; a level has attributes exactly when it is one of the six, and fatal is error's red plus bold |
| Levels.ColorsDistinct | level.go:40-48 | the six levels get six different colourings |
| Utils.DivCeilIsCeiling | utils.go:5-8 | for x >= 0 and y > 0, `(x + y - 1) / y` with truncating division is the ceiling of x / y |
| Utils.RepeatLength | utils.go:21 | `strings.Repeat(s, n)` has n times the length of s |
| Utils.PadStart | utils.go:13-28 | `s` is returned unchanged when `l <= len(s)` or `fill` is empty; otherwise the result is exactly `l` long. It always ends with `s`, and every byte before `s` is the matching byte of `fill` repeated |
| TimeFormat.FormatDiff | time.go:25-73 | the unit chosen after the chain of truncating divisions: a fraction of 10..999 µs with precision 2 exactly below 100 µs, whole values of at least 1, fewer than 1000 ms and fewer than 60 s or m |
| TimeFormat.FormatDiffRanges | time.go:25-73 | stated with one division of the nanosecond count: below 10 µs "0" (negative values included); up to 1 ms a fraction of a millisecond; then whole ms, s, m or h, each truncated, with no unit above hours |
| TimeFormat.UnitMonotone | time.go:25-73 | a longer pause never gets a smaller unit |
| TimeFormat.Render | time.go:44-72 | "0" for the zero cases, the formatted fraction followed by " ms", and otherwise the decimal value, a space and the unit |
| TimeFormat.RenderRanges | time.go:25-73 | the text per range of the nanosecond count: "0" below 10 µs, the fraction of a millisecond (two digits below 100 µs) and " ms" below 1 ms, then whole milliseconds, seconds, minutes or hours, each the count divided by the unit |
| TimeFormat.RenderReadBack | time.go:49-73 | from one millisecond on, the text reads back as a decimal number and a unit, and the number times the unit is the count truncated to that unit |
| Decimal.ParseShow | transporters.go:227-237 | `strconv.Atoi` reads back what `%d` prints: the index written into an archive name is the one read from it |
| Decimal.ShowInjective | transporters.go:237 | different indexes print differently |
| Strings.TrimSpaceSlice | transporters.go:155 | `strings.TrimSpace` is the slice from the first to the last non-space byte, with only space around it |
| Strings.TrimSpaceIdempotent | transporters.go:222-223 | trimming twice is trimming once |
| Strings.SortedOf | hook.go:248-254 | the keys in `sort.Strings` order: strictly ascending, each key exactly once |
| Strings.SortedUnique | hook.go:254 | two strictly sorted sequences with the same elements are equal, so the sorted key order is fixed |
| Strings.SortedKeys | hook.go:248-254 | collecting the keys of a map and sorting them gives `SortedOf` of its key set |
| Collaborators.SurfacedSpaced | transporter.go:241-252 | however often deliveries fail, the errors shown come from failures and are more than ten minutes apart, each after the previous one |
| JobQueue.DispatchTakesPrefix | queue.go:100-113 | the dispatch loop takes a prefix of the buffer, in order, and changes nothing but buffer, running count and started jobs |
| JobQueue.StepPreservesInv | queue.go:75-113 | every accepted event keeps the invariant: the wait group equals buffered plus running plus 1 while suspended; `count` stays within a non-zero limit; and the loop has returned or can dispatch no further |
| JobQueue.StepKeepsOrder | queue.go:77-113 | FIFO: an event appends its pushed job to the jobs received, and dispatch and exit only move jobs along that sequence |
| JobQueue.NoDispatchWhileBlocked | queue.go:100 | no job starts while the queue is suspended or stopped |
| JobQueue.SuspendAccounting | queue.go:82-91 | a suspend event moves the wait group only when it flips the flag, +1 when set and -1 when cleared; repeating the current value changes nothing |
| JobQueue.ExitOnlyWhenIdle | queue.go:70-98 | `run` returns exactly when it is stopped and no job runs, and then drops every buffered job from the buffer and the wait group |
| JobQueue.WaitReleases | queue.go:60-62 | the wait group is zero exactly when nothing is buffered, running or suspended |
| JobQueue.RunKeepsInvAndOrder | queue.go:69-115 | over any sequence of events, the invariant holds, and the pushed jobs are appended, in push order, to the started, dropped and buffered ones |
| JobQueue.RunFromInit | queue.go:32-115 | from a fresh queue and any events, jobs start in push order, at most `limit` run at once, and the wait group counts exactly the buffered, running and suspended work |
| JobQueue.StopThenDrain | queue.go:54-98 | after a stop, `count` completions end the loop, and the wait group is then zero unless suspended, so `wait` returns |
| JobQueue.Queue.constructor | queue.go:32-45 | `newQueue` starts in the initial state of the loop |
| JobQueue.Queue.AfterEvent | queue.go:96-113 | the tail of a round is `Settle`: return when stopped and idle, else dispatch |
| JobQueue.Queue.PushJob | queue.go:48-79 | the state becomes `Step(old, Push(val))`: the job is appended to the buffer and counted in the wait group |
| JobQueue.Queue.CompleteJob | queue.go:80-81 | the state becomes `Step(old, Complete)` |
| JobQueue.Queue.SetSuspended | queue.go:82-91 | the state becomes `Step(old, Suspend(flag))` |
| JobQueue.Queue.StopQueue | queue.go:54-57 | the state becomes `Step(old, Stop)` |
| JobQueue.Queue.Wait | queue.go:60-62 | after a stop, the running jobs finish, no job starts, the loop returns, the buffered jobs are dropped and the wait group reaches zero |
| JobQueue.Queue.Len | queue.go:65-67 | returns the running count and the buffer length |
| Logging.FirstInitError | log.go:49-56 | `init` fails exactly when some initialisable transporter's `Init` fails |
| Logging.FirstInitErrorIsFirst | log.go:49-56 | when `init` fails, the error is that of an initialisable transporter whose `Init` fails, and no transporter before it fails |
| Logging.InitCallsStop | log.go:49-56 | every `Init` call goes to an initialisable transporter of the list, only the last call can have failed, and it failed exactly when `init` fails |
| Logging.InitCallsOrdered | log.go:49-56 | the `i`-th `Init` call goes to the transporter at a position `idx[i]`; the positions strictly increase; every initialisable transporter with no failure before it is called |
| Logging.Fanout | log.go:81-83 | one `Transport` call per transporter, in list order, each with the same level, message and date |
| Logging.JoinSnoc | log.go:71-77 | adding an argument adds one space and the argument, so the message has no separator at either end |
| Logging.SplitJoin | log.go:69-79 | arguments without spaces can be read back from the message by splitting at spaces, so the join loses nothing |
| Logging.Logger.JoinArgs | log.go:69-79 | the buffer loop produces the arguments joined by single spaces, and "" for no arguments |
| Logging.Logger.Init | log.go:45-60 | makes the `Init` calls; it returns the first error and then leaves the list as it was, and otherwise the list becomes the given one |
| Logging.Logger.Log | log.go:63-84 | the list is unchanged, and the calls made are the fan-out of the joined message |
| Logging.Logger.Close | log.go:88-99 | closes the closable transporters in list order, then leaves the list empty |
| Logging.CreateLogger | log.go:31-42 | no logger and the error when `init` fails; otherwise a new logger whose list is the argument list |
| Logging.Logger.CloseThenLog | log.go:63-99 | a log call after `Close` reaches no transporter: the calls made are exactly the closes, and the list stays empty |
| Transporter.LogToString | transporter.go:30-75 | the line starts with the level prefix and ends with one line break |
| Transporter.PlainPrefixOf | transporter.go:31-33 | without colours the prefix is "[level]" padded with spaces on the left to 7 bytes |
| Transporter.OneLinePerEntry | transporter.go:30-75 | when no printed part holds a line break, the final one is the only one, so one entry is one line |
| Transporter.LineLength | transporter.go:39-71 | the length of the line: the prefix, " [date]" only with dates, " msg" only for a non-empty message, " diff" only once a previous message exists, and the line break |
| Transporter.ConsoleTransporter.Transport | transporter.go:108-119 | entries below `MinLevel` change nothing; others are formatted and written to `Output`, which becomes standard output when unset, and their clock reading becomes the previous-message time |
| Transporter.ErrorLines | transporter.go:243-248 | a fresh colour console transporter prints at most one line for an error, the error-level line of the text |
| Transporter.ShowOnConsole | transporter.go:243-248 | standard output grows by exactly those lines |
| Transport.FormatLine | transport.go:40-79 | the line starts with the prefix and a space, even for an empty message, and ends with one line break |
| Transport.RevisionsAgree | transport.go:48-79 | the two revisions print the same line exactly when the message is not empty; for an empty message this one prints one more space |
| Transport.ConsoleTransporter.Transport | transport.go:35-83 | entries below `MinLevel` print nothing and leave the previous-message time; printed entries go to standard output and record their clock reading |
| Transport.ErrorLines | transport.go:198-203 | a fresh colour console transporter of this revision prints at most one line for an error |
| Transport.ShowOnConsole | transport.go:198-203 | standard output grows by exactly those lines |
| ServerSink.MakeEntry | transporter.go:163-172 | the entry carries type, level, RFC 3339 date and message, and the transporter's secret either way |
| ServerSink.ServerTransporter.Transport | transporter.go:154-175 | entries below `MinLevel` change nothing; others are pushed onto the queue, which is created with a limit of 1 on the first accepted entry |
| ServerSink.ServerTransporter.ShowError | transporter.go:241-252 | prints the error and remembers `now` exactly when the previous one is more than ten minutes old |
| ServerSink.ServerTransporter.Delivered | transporter.go:177-236 | a finished delivery is a completion event of the queue; its error, if any, goes through `showError` |
| ServerSink.ServerTransporter.Close | transporter.go:255-261 | without a queue nothing changes; otherwise the queue is stopped, waited for and forgotten, so a second `Close` does nothing |
| ServerSink.OneDeliveryAtATime | transporter.go:236 | with a concurrency limit of 1, at most one delivery runs at a time |
| QueuedServer.Report | transporters.go:395-403 | one `showError` call prints at most one line, and only for a failed delivery; it updates the last showing only when it prints |
| QueuedServer.ReportsBounded | transporters.go:331-403 | at most one console line per failed delivery |
| QueuedServer.SuppressedReportsNothing | transporters.go:396 | with `SuppressErrors`, failures print nothing and leave the last showing alone |
| QueuedServer.ReportsKeepLast | transporters.go:395-403 | afterwards the last showing is the earlier one or the clock reading of a delivery |
| QueuedServer.ServerTransporter.Init | transporters.go:322-329 | a minimum level outside the level order is dropped, and a new empty queue starts; it never fails |
| QueuedServer.ServerTransporter.Transport | transporters.go:406-423 | entries below `MinLevel` are dropped; others join the back of the queue, with the transporter's secret |
| QueuedServer.ServerTransporter.ShowError | transporters.go:395-403 | prints and remembers `now` exactly when errors are not suppressed and the last one shown is more than ten minutes old |
| QueuedServer.ServerTransporter.Deliver | transporters.go:331-393 | the oldest entry moves from the queue to the sent ones, and standard output and the last showing follow `Report` |
| QueuedServer.ServerTransporter.DeliverAt | transporters.go:331-393 | one round of `Close`: entry `i` is delivered, and the queue, the sent entries and standard output still lead to what `Reports` gives for the whole queue |
| QueuedServer.ServerTransporter.Close | transporters.go:426-428 | every queued entry is delivered in order and the queue stops; standard output and the last showing follow `Reports` |
| Archives.OneDigitIndex | transporters.go:147 | the greedy first group leaves the second group one digit, the digit just before the byte that precedes "gz" |
| Archives.FindMatchCorrect | transporters.go:217 | `FindStringSubmatch` finds the match leftmost-first semantics selects, and finds none only when nothing matches |
| Archives.Groups | transporters.go:217-220 | the two groups of the match, the second a single digit |
| Archives.ArchiveIndex | transporters.go:217-230 | an index is read only from a matching name whose trimmed first group is the prefix, and it is at most 9 |
| Archives.ArchiveIndexOfName | transporters.go:217-237 | the names the rotation writes are read back with their index, for indexes 1 to 9 |
| Archives.ArchiveNameInjective | transporters.go:237 | different indexes give different archive names |
| Archives.LongIndexIgnored | transporters.go:217-225 | from index 10 on, an archive name no longer reads as an archive of its prefix |
| Archives.EmptyPrefixArchiveStays | transporters.go:155-157 | the empty prefix never matches its own ".1.gz" |
| Archives.ArchiveRoom | transporters.go:217-225 | an entry is an archive of a prefix only when it is at least five bytes longer than the prefix |
| Archives.LiveNotArchive | transporters.go:213-225 | the live file is never taken for one of its own archives |
| Archives.ArchiveNameNotLive | transporters.go:155-157 | no archive name is the live file's name |
| Rotation.PlanByIndex | transporters.go:213-241 | an entry is deleted exactly when it is an archive, the limit is set and index + 1 reaches it; it is renamed to index + 1 exactly when it is an archive that is not deleted; nothing else is touched |
| Rotation.UnlimitedKeepsAll | transporters.go:232-235 | with no limit nothing is deleted |
| Rotation.LiveUntouched | transporters.go:213-243 | a pass never deletes, moves or overwrites the live file |
| Rotation.AfterPass | transporters.go:205-243 | a file present after a pass was kept as it was, or received what one of its sources held |
| Rotation.NoIndexZeroAfter | transporters.go:232-243 | no archive with index 0 survives a pass |
| Rotation.FirstArchiveAfter | transporters.go:160-176 | after a pass, ".1.gz" exists only if an archive with index 0 was moved there |
| Rotation.PassShrinks | transporters.go:160-176 | a successful pass started because ".1.gz" exists leaves less work, so the loop of `rotate` ends for a plain prefix |
| Rotation.TenthArchiveOverwritten | transporters.go:232-243 | as written, a pass without a limit renames ".9.gz" onto ".10.gz", leaving only ".10.gz" with the lines of ".9.gz" |
| Rotation.BlankPrefixFirstArchiveStays | transporters.go:155-176 | as written, for a path of blanks, ".1.gz" is still there after every pass, so the loop never ends |
| Rotation.OthersUntouched | transporters.go:213-243 | files that are no archive of the prefix, other than the index-10 name, come out of a pass as they were |
| Rotation.LayoutPass | transporters.go:205-244 | a pass over the live file and at most nine archives shifts the first `Survivors` of them up by one and deletes the rest, whichever way `renameAll` resolves collisions |
| Rotation.LayoutPush | transporters.go:179-199 | creating ".1.gz" with the live lines and truncating the live file renumbers the layout from 1 |
| Rotation.SurvivorsRetain | transporters.go:149-203 | a pass followed by the push is the rotation of the live file into the retained archives |
| Rotation.KeepsRecentHistory | transporters.go:123-203 | the live file and the archives always hold the most recent part of everything written, in order |
| Rotation.NothingLostWithoutLimit | transporters.go:232-240 | the intended behaviour without a limit: no line is ever lost |
| Rotation.RetentionBound | transporters.go:232-235 | with a limit, never more than `Rotations - 1` archives (at least one) exist |
| Rotation.FeedChunk | transporters.go:137-141 | with only a line limit k, k non-empty lines written to an empty live file cause exactly one rotation, which archives them |
| Rotation.RotationScenario | log_test.go:393-454 | a line limit of 4, a rotation limit of 4 and 19 lines leave 17-19 live, 13-16 in ".1.gz", 9-12 in ".2.gz", 5-8 in ".3.gz" |
| Disks.Disk.Exists | transporters.go:161 | whether the file exists, unless the check fails |
| Disks.Disk.ReadDir | transporters.go:206-209 | the sorted names of the directory, unless reading fails |
| Disks.Disk.Remove | transporters.go:233 | the file is gone |
| Disks.Disk.RenameAll | transporters.go:243 | all renames at once, as `RenamedAtOnce` says, unless it fails or a source is missing, in which case nothing changes |
| Disks.Disk.Create | transporters.go:179-183 | the file exists and is empty, unless creating fails |
| Disks.Disk.Copy | transporters.go:188-193 | the target holds the lines of the source, unless copying fails |
| Disks.Disk.Truncate | transporters.go:195-199 | the file is empty, unless truncating fails |
| Disks.Disk.Append | transporters.go:132 | the line is added at the end of the file |
| Disks.Disk.Open | transporters.go:102-105 | an existing file is kept and a missing one is created empty, unless opening fails |
| Disks.Disk.Size | transporters.go:107-112 | the byte length of the file, unless `Stat` fails |
| Disks.Disk.CountLines | transporters.go:114-117 | the number of lines of the file, unless reading fails |
| Transporters.ArchiveLiveOutcome | transporters.go:178-203 | archiving touches only the live file and ".1.gz", and either moves the live lines or leaves the live file as it was |
| Transporters.FileTransporter.Init | transporters.go:96-121 | a minimum level outside the level order is dropped; opening, `Stat` and counting lines succeed exactly when none of them fails. On success the live file exists, the counters are its size and line count, and the queue is empty |
| Transporters.FileTransporter.Transport | transporters.go:271-283 | entries below `MinLevel` are dropped; others join the back of the queue; the counters do not move |
| Transporters.FileTransporter.ShowError | transporters.go:246-252 | prints the rotation error line exactly when errors are not suppressed |
| Transporters.FileTransporter.ClassifyEntry | transporters.go:213-241 | the decision for one entry is its `Classify`: delete, rename to index + 1, or skip |
| Transporters.FileTransporter.Scan | transporters.go:211-241 | the loop removes exactly the `Doomed` entries and collects exactly the `Plan` renames |
| Transporters.FileTransporter.RotateArchives | transporters.go:205-244 | fails only with the listing or the rename; on success the doomed archives are gone and the others renamed as `Plan` says |
| Transporters.FileTransporter.ShiftArchives | transporters.go:159-176 | the loop ends, and files other than the prefix's archives keep their contents; without failures, a layout of at most nine archives ends numbered from 2 with the ones over the limit gone |
| Transporters.FileTransporter.ArchiveLive | transporters.go:178-203 | create, copy, truncate and reset the counters; the first failing step ends it, leaving the files as `StoppedAt` says |
| Transporters.FileTransporter.Rotate | transporters.go:149-203 | nothing for an empty live file; the live lines move to ".1.gz" and the counters become 0 exactly when create, copy and truncate succeed, whatever the shifting did; without failures, on a sink layout of at most nine archives, this is `RotateSink` |
| Transporters.FileTransporter.Write | transporters.go:132-134 | the line is appended; `fsize` grows by its length and `flines` by one |
| Transporters.FileTransporter.RotateIfDue | transporters.go:136-141 | rotates exactly when the byte limit, or else the line limit, is reached, at most once |
| Transporters.FileTransporter.WriteAndRotate | transporters.go:130-141 | the write followed by the check, as `WriteOutcome` says; on a sink layout the result is `WriteLine` of the sink |
| Transporters.FileTransporter.Handle | transporters.go:124-142 | formats the entry against the previous message, remembers `now` and writes the line as `WriteAndRotate` does |
| Transporters.FileTransporter.Work | transporters.go:124-142 | the oldest queued entry is handled: the files follow `WriteOutcome` of its formatted line, and a sink layout becomes `WriteLine` of it |
| Transporters.FileTransporter.Lines | transporters.go:130 | one formatted line per queued entry |
| Transporters.FileTransporter.DrainAt | transporters.go:123-145 | one round of the worker inside `Drain`: entry `i` is written at `times[i]`; the other files, the error lines and the sink still lead to the sink fed with the lines of the whole queue |
| Transporters.FileTransporter.Drain | transporters.go:123-145 | every queued entry is written, in order; without failures, on a sink layout with room, the directory holds the sink fed with their formatted lines |
| Transporters.FileTransporter.Close | transporters.go:286-289 | the queue is drained, as in `Drain`, then the file is closed |
| ServerHooks.NewServerHook | hook.go:44-68 | an empty type is refused first, then an empty URL, with no hook. Otherwise the options are applied in order, and the channel of `BufSize` entries and the worker exist exactly when the hook is not synchronous |
| ServerHooks.Untouched | hook.go:57-59 | a field that no option names keeps its zero value |
| ServerHooks.LastOptionWins | hook.go:57-59 | the last option for a field decides it |
| ServerHooks.ServerHook.ApplySecret | option.go:9-17 | sets the secret and no other field |
| ServerHooks.ServerHook.ApplyKeepColors | option.go:20-28 | sets `keepColors` and no other field |
| ServerHooks.ServerHook.ApplySuppressErrors | option.go:31-39 | sets `suppressErrors` and no other field |
| ServerHooks.ServerHook.ApplySynchronous | option.go:42-50 | sets `synchronous` and no other field |
| ServerHooks.ServerHook.ApplyOption | hook.go:58 | the settings become `Apply` of the option; the channel, the worker and `nextError` are untouched |
| ServerHooks.MapLevel | hook.go:208-224 | Panic and Fatal both map to fatal, and only they do; the seven logrus levels map to known levels, and any other value to none |
| ServerHooks.MapLevelReversesOrder | hook.go:209-224 | the mapping reverses the order and, apart from Panic and Fatal, keeps levels apart |
| ServerHooks.NoDataNoText | hook.go:247-262 | without fields the message is left as it is |
| ServerHooks.WritePairs | hook.go:256-261 | the loop writes each key's " key=value", in the order of the keys |
| ServerHooks.AppendData | hook.go:247-262 | the message is followed by one " key=value" per field, in ascending key order |
| ServerHooks.ServerHook.CreateServerEntry | hook.go:207-244 | the mapped level, the message followed by the sorted fields, colours removed unless kept, and the hook's type, time and secret |
| ServerHooks.ServerHook.ShowError | hook.go:198-204 | prints and sets `nextError` to now + 10 min exactly when errors are not suppressed and `nextError` has passed; otherwise nothing changes |

## Left out

- HTTP delivery and JSON encoding are not modelled. This covers the `runQueue` handlers of the server transporters and `sendEntry`, `Fire`, `Flush`, `Levels` and `worker` of the hook. A finished delivery is an event that carries its error or none.
- Goroutines, channels, mutexes, `sync.WaitGroup` blocking and `runtime.SetFinalizer` are not modelled. The queue's `run` is a sequential event handler with a ghost wait-group counter, and the file and server transporters' queue is a single-worker FIFO whose worker is the caller of `Work`/`Deliver`.
- The package `init` singletons and the global wrappers (`Init`, `Trace` … `Close`) are left out. They only forward to the `Logger` methods.
- Byte counts use string length. Each `char` stands for one byte, so for a non-ASCII message `fsize` and `padStart` count characters where Go counts bytes.
- `TrimSpace` trims ASCII white space only, not Unicode spaces.
- The file transporter's path is a bare name in the one directory the `Disk` holds. `filepath.Dir`, `filepath.Base` and `filepath.Join` are dropped.
- The clock is read once per operation. Go reads `now()` twice in `logToString`, in `showError`'s check and update, and for the date; the model uses one reading `now` for all of them.
- int64 overflow of the counters and of clock arithmetic is not modelled.
- Several collaborators are abstract parameters (`Externals`). This covers the string-typed level's order (`rank`), the colouring, `color.WhiteString`, `strconv.FormatFloat` (the fractional branch of `formatDiff`), `formatDate` and RFC 3339 dates, `removeColors` and `quoteIfNeeded`. `fmt.Sprintf("%+v")` and `fmt.Sprint` are modelled as pre-rendered strings.
- The hook's `logrus.Error` output is modelled as the single chunk "Failed to send log to server: " + error, without logrus's own formatting.
- `Disks.Disk`: which operations fail is fixed when the disk is made, so a step cannot fail once and succeed later.
- Disks.Disk.Append: never fails. Go ignores the `WriteString` error and still adds to `fsize` and `flines` (transporters.go:132-134), so in Go the counters can drift from the file; in the model they cannot.
- Disks.Disk.Remove: never fails. Its error is ignored in Go as well, but a failed removal would leave the file in place.
- Disks.Disk.RenameAll: all-or-nothing. A `renameAll` that fails halfway is not modelled.
- Disks.Disk.RenameAll: when two sources share a target, one of them wins, and which one is left open. `renameAll` is defined outside the files modelled here, so its order is unknown. Two sources share a target when their names trim to the same prefix and index, such as "a.5.gz" and " a.5.gz".
- Disks.Disk.CountLines: counts the entries of a file, not its '\n' bytes. A message with an embedded line break gives a different `flines` after `Init` reopens the file.
- Transporters.FileTransporter.Transport: requires `Init` to have succeeded. Go dereferences the nil queue and panics otherwise.
- QueuedServer.ServerTransporter.Transport: requires `Init` to have run. Go dereferences the nil queue and panics otherwise.
- Transporters.FileTransporter.Rotate: requires that the loop of `rotate` ends, through `ShiftEnds`: a trimmed name that is non-empty and free of line breaks, or no ".1.gz" yet. Otherwise Go loops forever (see Findings). `Handle`, `Work`, `WriteAndRotate` and `RotateIfDue` carry the same requirement when a rotation is due.
- Transporters.FileTransporter.Drain: requires a plain trimmed name whenever a byte or line limit is set, because whether the loop of `rotate` ends cannot be tracked across several rotations otherwise. `Close` has the same requirement.
- Transporters.FileTransporter.Drain: ties the directory to the sink only without failures and while at most nine archives exist (`Room`). From the tenth archive on the program no longer matches the sink (see Findings). `Close`, `Work` and `Rotate` have the same bound.
- Jobs still buffered when a queue.go queue is stopped are dropped, so the server transporters of transporter.go and transport.go lose the entries not yet started at `Close`. The doc comments at queue.go:53, transporter.go:254 and transport.go:209 say they are still sent, but `run` returns once no job runs and then empties its buffer (queue.go:70-73, 92-100). The model follows the code.
- The queue of transporters.go (three-argument `newQueue`, `addJob`, `close()`, capacity 1024) is not part of this model. `close()` is taken to deliver every queued entry before it returns, which is what QueuedServer.ServerTransporter.Close and Transporters.FileTransporter.Drain/Close model.
- Transporters.FileTransporter.Init: on a transporter that is already open, a successful `Init` starts with an empty queue. In Go the old queue's worker goes on writing the entries it still holds, which the model does not capture.
- ServerHooks.BufSize: a constant 8192. In Go it is a package variable (hook.go:21) that callers may set before `NewServerHook`; the model fixes it at its default.
- Rotation.RotationScenario: the repository's test also closes and re-initialises the logger every few entries. Re-initialising recounts the live file, which the model's counters already match, so those steps are not replayed.
- Utils.DivCeil: requires `y != 0`, where Go panics.
- Levels.ColorOf: requires an index 0..6, where Go panics.
- A second `Init` of a transporters.go server transporter starts a new empty queue, and the entries still in the old one are not modelled.
- The string-typed `Level` of the transporters and the integer `Level` of level.go are kept apart, because the methods linking them are not part of this model.

## Findings

| source | as written | input that shows it | evidently intended | confidence | as-written member | corrected member |
|---|---|---|---|---|---|---|
| transporters.go:147 | `(.+).(\d+).gz` captures only the last digit, so "a.10.gz" reads with first group "a." and index 0, not as an archive of "a". With no rotation limit, every pass renames ".9.gz" onto ".10.gz", and the lines already in ".10.gz" are lost | a directory with "a.9.gz" holding x and "a.10.gz" holding y, with `Rotations` 0. After one pass only "a.10.gz" holding x is left. Equivalently: 11 non-empty entries with `RotateLines` 1 and `Rotations` 0 lose the first entry | without a limit, no line is ever lost; with a limit, `Rotations - 1` archives are kept | not executed | Rotation.TenthArchiveOverwritten | Rotation.NothingLostWithoutLimit |
| transporters.go:155-176 | for a path that trims to "" (only blanks) or that contains a line break, "<prefix>.1.gz" never matches the archive pattern of its prefix. `rotateArchives` never moves it, so once it exists the loop of `rotate` runs forever | `Path` "   " with `RotateLines` 1 and two entries: the first rotation creates ".1.gz", and the second never ends | the loop ends after shifting the archives | not executed | Rotation.BlankPrefixFirstArchiveStays | Rotation.PassShrinks |
