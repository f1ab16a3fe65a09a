# A verified model of flow-agent-x

flow-agent-x is the agent of a CI server. It keeps a WebSocket to the server, receives commands, runs each in a shell or
in Docker containers with retries, sends the result and streams the log. This project models the parts of the agent that
are hardest to get right and proves what they guarantee, on all inputs and over all runs. To check it:
`dafny verify dfyconfig.toml`.

Where the source falls short of what its names and comments suggest, the model follows the source: a lemma gives an
input or a run on which the expectation fails, and a theorem states when it holds.

## How the modules map to the source

| Modules | Source | Form |
|---|---|---|
| `Substitution`, `SubstitutionTheorems`, `SubstitutionLimits`, `SubstitutionFailures` | `util/common.go`: `${NAME}` replaced in the string being scanned | the nested loops, proved against the semantics of one pass, and that against left-to-right substitution |
| `Variables` | `domain/variables.go` | a class whose map is updated in place, iterated in any order |
| `Bytes`, `Utf16` | `util/common.go`: trimming and UTF-16 | loops proved against what they keep or decode |
| `EnvRows`, `UnixEnv`, `WinEnv` | `executor/util.go`, `util_unix.go`, `util_win.go` | the reading loops, proved against line-by-line parsers, and those against printers |
| `Base64`, `CacheName`, `Volumes` | `api/util.go`, `domain/docker.go` | codecs and their round trips |
| `ShellResult`, `ShellLoop` | `executor/shell.go`, `shell_bash.go`, `domain/cmd_shell.go` | the retry loop and its context watcher as interleaved steps |
| `DockerExecutor` | `executor/docker.go` | a class; every engine call may fail, any container may exit or vanish at any time |
| `CmdService` | `service/cmd_service.go`, `executor/executor.go`, `config/manager.go` | dispatcher, workers and idle timer as interleaved steps |
| `WsClient` | `api/client.go`, `config/manager.go` | readers, consumers, queue and reconnects as interleaved steps |
| `LogPipeline` | `executor/executor.go`, `executor/docker_util.go`, `service/cmd_service.go` | log writers, channel and consumer as interleaved steps |

`Wrappers` and `Sequences` hold what several of them share.

In the step models `Enabled` says which steps can be taken, `Step` what one does, and `Reaches(s, es, t)` that the steps
`es` lead from `s` to `t`. A theorem about `Reaches` holds for every interleaving and every failure.

Some words recur below. A *name* is defined if it has a non-empty value, and plain if it holds no `$` and no `}`. A *source*
is flat if it has no `$` directly before a `$` and none inside a `${...}`. A *value* covers its token if it is no shorter
than that. It is quiet if it is flat, every `${` in it is closed and names nothing defined, and it does not end in `$`.

## What the source does and its reader may not expect

- In `util/common.go` a value shorter than its `${NAME}` makes the loop jump over text behind it (`SafeEnvironments`,
  `ShortValueLosesToken`). Short values leave tokens behind but never produce wrong text (`UnfinishedNotWrong`). A source
  ending in `$` is indexed out of range, unless a jump over text leads past its end (`AlwaysStops`).
- Values that hold tokens are substituted in turn if these start where the jump lands or later
  (`LoopIsDeepSubstitution`), and otherwise left alone or not, depending on what else is in the source. Where every value
  covers its token, values that hold each other's tokens that late, in a cycle of any length, keep the loop running for
  ever (`LateCycleNeverEnds`); where one does not, the jump over it can pass the token by and the loop ends
  (`LateTokenPassedBy`). With one name defined, and its token alone for source, that is exact (`SelfReferenceExact`).
- A literal `$` before a token can combine with the value into a new token (`LiteralDollarExact`).
- `Resolve` can depend on Go's iteration order (`OrderMatters`, `ChainOrderExact`).
- `TrimLeftString` never checks for a prefix: it cuts after the last position at which the two strings agree (`TrimLeftExact`).
- `pullImageWithName` reports an error for an image pulled on its second or third try (`PullImageWithName`).
- `initConfig` leaves a nil config exactly when an option behind the first one is a runtime option (`InitConfig`).
- A kill seen before `toStartStatus` is overwritten, and the command may still report SUCCESS (`EarlyKillIsOverwritten`);
  `WatcherDecides` says at which points a kill or timeout is reported.
- The context watcher kills `se.command.Process`, which is nil while the command is being started, and stays nil if it
  could not be started. Using it ends the agent (`WatcherCrashesExactly`); closing the executor of a command that could not
  be started therefore does so (`CloseEndsAgent`).
- `release` fires the idle event after clearing the executor, so it can arm the idle timer while the next command runs
  (`ArmedDuringCommandExactly`), and `execKill` can meet a nil executor (`KillMeetsNilExactly`).
- A command that fails before it has an executor leaves the agent BUSY (`BusyExactly`).
- The reader of a lost connection clears `conn` after signalling the reconnect, and may clear the new connection
  (`ClearsNewExactly`); while connections overlap two consumers can swap messages (`InOrderExactly`,
  `OvertakingExactly`).
- `Close` waits for the log writers only if the channel is not empty, and not for ever. A chunk of a writer can be lost
  exactly if the writer has not ended when the channel is closed (`LostAtCloseExactly`, `WaitedCloseLosesNothing`).
- `removeDockerHeader` looks at four bytes only, so plain output that happens to start like a header loses eight bytes
  (`HeaderRemovedExactly`), and it strips one header a read, so the headers of further frames stay in the log
  (`OneFrameExactly`).

## Model

| member | source | states |
|---|---|---|
| Substitution.ParseVariablesFrom | util/common.go:90-127 | the nested loops end exactly as repeated passes over the changing string end: same output, or the same index out of range |
| Substitution.EndsOnce | util/common.go:95-126 | the loop has at most one outcome |
| Substitution.ReplaceAfterSettled | util/common.go:120 | the global replace of a defined token never touches the text already dealt with |
| Substitution.ReplaceIsPartial | util/common.go:120 | replacing one token everywhere keeps what the rest stands for, takes that name out and brings in none but the value's, and keeps whether the last character is a `$` |
| SubstitutionTheorems.RunsDeep | util/common.go:95-126 | from any position whose front is settled the loop substitutes the rest, tokens inside values included, or panics if the rest ends in `$` |
| SubstitutionTheorems.LoopIsDeepSubstitution | util/common.go:90-127 | for a flat source, and flat, closed values whose tokens of defined names start where the jump lands or later, the loop replaces every name by what its value comes to when its tokens are substituted too, at any depth |
| SubstitutionTheorems.RunsToSubst | util/common.go:95-126 | from any position whose front is settled, values quiet and suitable, the loop carries out left-to-right substitution of the rest, or panics if the rest ends in `$` |
| SubstitutionTheorems.LoopIsSubstitution | util/common.go:90-127 | for a flat source, and quiet values that cover their tokens (or one value only), the in-place loop is token-by-token substitution, undefined names left alone; it panics exactly on a last `$` |
| SubstitutionTheorems.TameStops | util/common.go:95-126 | for a flat source and quiet values, of any length, the loop stops, each replacement using up one name |
| SubstitutionTheorems.SameRun | util/common.go:90-127 | for a flat source and quiet values, an environment that agrees on the names the source mentions, and defines no name the first does not, gives the same run |
| SubstitutionTheorems.UnfinishedNotWrong | util/common.go:116-122 | for a flat source and quiet values, of any length, the output still stands for the same text as the source, and is the substituted text exactly when no defined name is left in it |
| SubstitutionTheorems.SafeEnvironments | util/common.go:116-122 | for environments whose values are quiet: the loop is substitution for every flat source that does not end in `$`, if and only if every value covers its token or at most one name is usable |
| SubstitutionTheorems.ShortValueLosesToken | util/common.go:121 | a value shorter than its token, directly before another token, leaves that token unreplaced |
| SubstitutionFailures.LiteralDollarBeforeToken | util/common.go:120 | a family of sources in which a literal `$` and a value become a token, so that the outcome is not substitution |
| SubstitutionFailures.LiteralDollarExact | util/common.go:101-121 | for `$${Y}${X}` with `$`-free values, the outcome is substitution if and only if Y's value covers its token and does not start with `{X}` |
| SubstitutionFailures.LateCycleNeverEnds | util/common.go:120-121 | if the defined names are plain and their values cover their tokens: values that hold each other's tokens in a cycle, where the jumps land or later, keep the loop from ending on every source that mentions one of the names |
| SubstitutionFailures.LateTokenNeverEnds | util/common.go:120-121 | in particular a value that holds its own token that late |
| SubstitutionFailures.LateTokenPassedBy | util/common.go:121 | a family in which another value is shorter than its token: the jump over it passes the token by, and the loop ends |
| SubstitutionFailures.SelfReferenceExact | util/common.go:95-126 | with one name defined, on its token alone, the loop ends if and only if the value does not hold that token where the jump lands or later |
| SubstitutionFailures.SelfReferenceDiverges | util/common.go:120-121 | one such environment: after any number of passes the loop is still running on a longer string |
| SubstitutionLimits.Stops | util/common.go:95-126 | on every source, with `$`-free values, the loop stops, by number of `$` and then distance to the end |
| SubstitutionLimits.AlwaysStops | util/common.go:95-126 | on every source, with `$`-free values: it stops, is out of range only if the source ends in `$` (and then always, if values cover their tokens), and the output is at most the source plus one longest value per `$` |
| Variables.Variables.Resolve | domain/variables.go:85-99 | in whatever order the map is iterated, it ends as each entry resolved against one fixed map, keys unchanged, for maps in which after the first pass no referenced value holds a token of a defined name, or which are layered (next row but one); the first pass needs only that the loop ends |
| Variables.StillTheSame | domain/variables.go:92-98 | an entry resolved late, against a map already half resolved, comes out as against the original map |
| Variables.OutcomeIsDeep | domain/variables.go:92-98 | in a layered map (values' tokens start where the jump over their own token lands or later, no cycle) every entry becomes its value with all names in it, at any depth, replaced |
| Variables.OutcomeIsSubst | domain/variables.go:85-99 | where values suit, resolving every entry is substituting every entry once, all at the same time |
| Variables.OrderMatters | domain/variables.go:92-98 | with a token at the front of a referenced value, the outcome depends on the iteration order |
| Variables.ChainOrderExact | domain/variables.go:92-98 | for a = `${b}`, b = u`${c}`w, c = v, all three `$`-free, the outcome of `a` is the same before and after `b` is resolved if and only if u is at least as long as `${b}` |
| Variables.ParseResolvable | util/common.go:83-87 | one entry, resolved by the in-place loop, has the unique outcome the map theorem speaks of |
| Variables.Variables.constructor | domain/variables.go:40-44 | the default map holds exactly one entry, for the agent's type |
| Variables.Variables.ToStringArray | domain/variables.go:102-111 | a fresh array of `key=value`, every key exactly once, in some order |
| Variables.ConnectVars | domain/variables.go:51-70 | the union, the second map winning |
| Bytes.IsByteStartWith | util/common.go:141-153 | true exactly for a prefix |
| Bytes.BytesTrimRight | util/common.go:155-176 | one copy of the suffix removed if it is there, otherwise nothing |
| Bytes.TrimmedRightExactly | util/common.go:155-176 | a suffix put on is the suffix taken off, and what does not end in it stays as it is |
| Bytes.TrimLeftString | util/common.go:178-196 | what remains is the text after the last index at which the strings agree; nothing if they agree nowhere |
| Bytes.TrimLeftExact | util/common.go:178-196 | exactly when precisely the first characters, as many as `trim` has, are removed, prefix or not |
| Utf16.UTF16BytesToString | util/common.go:198-210 | the array loop decodes the units of the bytes, an odd last byte as U+FFFD |
| Utf16.RoundTrip | util/common.go:198-210 | decoding inverts encoding for every string of scalar values, surrogate pairs included, in both byte orders |
| Utf16.OddByteAddsReplacement | util/common.go:205-207 | an odd trailing byte adds exactly one U+FFFD to the decoding of the even prefix |
| Utf16.LoneSurrogate | util/common.go:198-210 | a surrogate without its partner becomes U+FFFD, and what stands before and after it is decoded as if it were not there |
| EnvRows.MatchEnvFilter | executor/util.go:17-24 | the loop says yes if and only if the key is one of the filters followed by any text |
| EnvRows.PassesExactly | executor/util.go:17-24 | a key passes if and only if it, or one of its beginnings, is a filter |
| EnvRows.LastRowWins | executor/util.go:17-24 | for every key: the collected value is that of the last row with it if the key starts with a filter, and the initial one otherwise |
| EnvRows.ExportedRows | executor/util.go:17-24 | a filter followed by any text, if it is the key of a row, is in the output, with the value of its last row |
| UnixEnv.ReadEnvFromReaderForUnix | executor/util_unix.go:11-28 | the reading loop collects the rows of the pieces between line breaks, trimmed, in order, whose key starts with a filter; text after the last line break is dropped |
| UnixEnv.LinesAreRows | executor/util_unix.go:15-27 | reading line by line is collecting the rows of the complete lines, so the last of equal keys wins on any input |
| UnixEnv.EntryReadBack | executor/util_unix.go:21-41 | a line gives back its entry if and only if the key has no `=` and no leading space and the value no trailing space |
| UnixEnv.OuterSpacesGo | executor/util_unix.go:21-22 | spaces of any kind around an entry are trimmed, and no others |
| UnixEnv.RowExactly | executor/util_unix.go:30-35 | a line is a row if and only if it has a `=` |
| UnixEnv.EntrySplits | domain/variables.go:105-106 | an entry listed by ToStringArray is its key, one `=` and its value, spaces included |
| UnixEnv.WriteThenRead | executor/util_unix.go:11-41 | a map written with ToStringArray in any order, one entry a line, reads back as the default map overlaid with the entries whose key starts with a filter |
| WinEnv.ReadEnvFromReaderForWin | executor/util_win.go:18-50 | the reading loop, with its `process` flag, collects what line-by-line parsing of the bytes gives, for keys that start with a filter |
| WinEnv.ReadLineCuts | executor/util_win.go:19-24 | reading a line loses nothing but the line end: what is read, its `\n` or `\r\n` and the rest are the input, a line has no line break in it, and only a full buffer or the end of the input ends a line without one |
| WinEnv.ShiftedLine | executor/util_win.go:12-16 | a little-endian line seen one byte early is the big-endian line, then a shifted CR and LF and one zero byte for the next line |
| WinEnv.TableIsRead | executor/util_win.go:18-50 | splitting little-endian UTF-16 at byte 0x0A, trimming and decoding as big-endian reads exactly the lines of text, behind any first line |
| WinEnv.RowReadBack | executor/util_win.go:52-63 | a printed row gives back its key and value, whatever blanks stand before and after the value |
| WinEnv.RowExactly | executor/util_win.go:52-57 | a line is a row if and only if it has a blank |
| WinEnv.EnvTableRoundTrip | executor/util_win.go:18-63 | every environment table comes back as exactly its rows whose key starts with a filter, the last of equal keys winning |
| WinEnv.EarlyLineExact | executor/util_win.go:35-41 | a line seen one byte early, once cut out, keeps its units if and only if all are at most U+00FF |
| WinEnv.ReadsBackExactly | executor/util_win.go:23-41 | reading a line one byte early gives back its units and leaves exactly what follows if and only if all are at most U+00FF and none is a line break |
| Base64.RoundTrip | api/util.go:20-28 | decoding inverts encoding for all byte strings (section 4 of RFC 4648) |
| Base64.SymbolPlace | api/util.go:20 | the symbol of a six-bit number is its place in the standard alphabet, written out |
| Base64.EncodesThree | api/util.go:20 | three bytes are four symbols that stand for the same number in base 64 |
| Base64.EncodesTwo | api/util.go:20 | two last bytes are three symbols for the same number with two zero bits behind it, and one `=` |
| Base64.EncodesOne | api/util.go:20 | one last byte is two symbols for the same number with four zero bits behind it, and two `=` |
| Base64.DecodesExactly | api/util.go:23-28 | exactly which names decode: without their line breaks, quanta of four symbols, the last one padded or not |
| CacheName.CacheNameRoundTrip | api/util.go:15-29 | for a path under the workspace the decoded name is the path without the workspace and at most one leading `/`, if and only if the workspace is not empty (or nothing is left anyway) |
| CacheName.CachePathReadBack | api/util.go:15-29 | of workspace, `/` and a rest, the rest comes back, whatever slashes it begins with |
| CacheName.BadNameIsEmpty | api/util.go:23-27 | a name that is no base64 reads as empty |
| CacheName.FrameDecodable | api/util.go:9-13 | a frame cut at its first line break gives back event and body if and only if the event has no line break |
| CacheName.EventFrames | api/const.go:4-8 | every event name has ten bytes, so byte ten is the line break, the body starts at byte eleven, and equal frames have equal event and body |
| CacheName.EventBytes | api/const.go:4-8 | the five event names byte by byte, all different |
| Volumes.NewVolumesFromString | domain/docker.go:41-89 | the loop returns what parsing the tokens one by one gives, or panics exactly when one of them is malformed |
| Volumes.PanicsExactly | domain/docker.go:53-71 | the text is refused if and only if some segment between `;` is neither empty nor five fields, each with exactly one `=` |
| Volumes.KeysAreIgnored | domain/docker.go:73-86 | a volume comes back whatever the five keys are called: only their order counts |
| Volumes.VolumesRoundTrip | domain/docker.go:41-89 | printing and parsing a list gives it back in order if and only if no field holds `,`, `;` or `=` |
| Volumes.EmptySegment | domain/docker.go:63-66 | an empty segment changes nothing, at the front, at the end or between others, whatever these are, malformed or not |
| ShellLoop.RunKeepsInv | executor/shell.go:62-89 | every run keeps the counts of attempts and retry lines, the kind of status at each point, and the watcher's verdict |
| ShellLoop.StartReturnsFinished | executor/shell.go:73-88 | with a non-negative retry count Start returns with Success, Exception, Killed or Timeout after 1 to retry + 1 attempts, with one retry line fewer than attempts, in every interleaving |
| ShellLoop.RetriesExactly | executor/shell.go:73-85 | in every run: after an attempt another is due if and only if it ended with an exception or an error and retries are left, and exactly then the retry line is written; a loop that returns a failure has made all retry + 1 attempts |
| ShellLoop.AttemptsAreBegins | executor/shell.go:73-74 | attempts are counted as they begin |
| ShellLoop.ReportedExactly | executor/executor.go:356-373 | in every run, by the last attempt's events: unless the watcher has acted, a command that ran is reported with its exit code, Success if and only if that is 0 or failure is allowed, else Exception, and one that did not run as Exception; Start returns an error if and only if it did not run or the context had ended |
| ShellLoop.NoAttemptExactly | executor/shell.go:73 | no attempt is made if and only if the retry count is negative, and then the result is as new, unless the watcher has acted |
| ShellLoop.AnyExitCode | executor/shell_bash.go:75-82 | every exit code can be the end of an only attempt |
| ShellLoop.EveryRunCanReturn | executor/shell.go:62-89 | from every reachable state in which the agent has not crashed, Start can still return |
| ShellLoop.FinishedExactlyFor | domain/cmd_shell.go:93-119 | a finish status is guaranteed if and only if the retry count is not negative |
| ShellLoop.WatcherInWindowWins | executor/shell_bash.go:61-82 | a watcher status set between toStartStatus and the finish check makes that attempt the last, and Start returns Killed or Timeout with its code |
| ShellLoop.ReportedUnlessOverwritten | executor/shell.go:190-218 | once the watcher has acted, the result tells of the context's end if and only if no status was set after it |
| ShellLoop.WatcherDecides | executor/shell.go:62-89 | in every run a kill or timeout is what Start reports if and only if the watcher acts after toStartStatus and before the finish check, or when the attempt is over and no other follows, and the command set last has a process |
| ShellLoop.WatcherCrashesExactly | executor/shell.go:190-196 | in every run the watcher uses a nil Process if and only if the command set last is being started or could not be |
| ShellLoop.CloseEndsAgent | executor/shell_bash.go:49-54 | a run in which the command cannot be started, Start returns with Exception, and cancelling the context ends the agent |
| ShellLoop.EarlyKillIsOverwritten | executor/shell_bash.go:51-61 | a run in which a kill is seen before toStartStatus and the command still reports Success |
| DockerExecutor.PullImageWithName | executor/docker.go:442-483 | no error exactly if the image is local or the first try works; otherwise the error of the last try that failed before one worked; pulled exactly if one of the three tries works |
| DockerExecutor.InitConfig | executor/docker.go:291-363 | panics exactly for several options without a runtime; otherwise the first config is made from the last runtime, every other from its own option, and none from a runtime behind the first, whose config stays nil |
| DockerExecutor.DockerExecutor.Resume | executor/docker.go:511-545 | a resumed container is up and within reach of its config; an exited one that is not resumed is gone or its removal failed; no other started container is lost sight of |
| DockerExecutor.DockerExecutor.Replace | executor/docker.go:494-505 | exactly this config gets the new id, once its container is up; on failure no config changes, and no container is lost sight of |
| DockerExecutor.DockerExecutor.StartContainer | executor/docker.go:485-509 | after success every config has a container; wherever the loop stops, every container started for deletion is within reach of a config or its removal failed |
| DockerExecutor.DockerExecutor.CleanupContainer | executor/docker.go:727-751 | afterwards a container started for deletion exists only if its removal failed, and any started to be stopped, held by a config or not, is up only if stopping it failed |
| DockerExecutor.DockerExecutor.WaitForExit | executor/docker.go:753-772 | an exit code is only returned with the status RUNNING; a failing call leaves the result as it was or RUNNING |
| DockerExecutor.DockerExecutor.HandleErrors | executor/docker.go:390-416 | a context error becomes Timeout or Killed with its code and no error; any other becomes Exception and stays an error |
| DockerExecutor.DockerExecutor.DoStart | executor/docker.go:107-144 | every attempt, whichever call fails, ends cleaned up and with Success, Exception, Timeout or Killed; a command that exited is reported with its exit code, Success if and only if that is 0 or failure is allowed; it exits only after the images were there and every container was started in this attempt; an error is returned exactly for an Exception without exit code |
| DockerExecutor.DockerExecutor.Start | executor/docker.go:89-105 | over all retries: 1 to retry + 1 attempts, one retry line fewer, another attempt exactly after an exception while retries are left, never after Timeout or Killed; the last attempt's exit code decides status and code as in DoStart; no leftover container unless its removal or its start failed; with a negative retry count nothing happens |
| CmdService.RunKeepsInv | service/cmd_service.go:88-183 | every run keeps what is known of the executors, their workers and the commands |
| CmdService.ClosedOnce | executor/executor.go:181-191 | at most one executor is unclosed, it is the current one, and none is closed twice |
| CmdService.WorkersSeeTheirOwn | service/cmd_service.go:162-180 | every worker only ever finds its own executor in the shared field |
| CmdService.EveryCommandAnsweredOnce | service/cmd_service.go:100-183 | the ids of the results sent, followed by the command in flight if any, are the accepted commands in order |
| CmdService.OneAtATime | service/cmd_service.go:112-114 | the waiting dispatcher rejects a command, changing nothing, if and only if an earlier one has still to run or be released, and takes it otherwise |
| CmdService.CanServeAgain | service/cmd_service.go:65-183 | from every reachable state of a living agent, unless a kill is about to use a nil executor, all accepted commands can be answered and the next one waited for |
| CmdService.TimerOnlyWhenIdle | config/manager.go:144-172 | in every reachable state an armed idle timer means an idle agent, and no executor unless the command to go busy last did so while another's release was half done; also across reconnects |
| CmdService.TimerIfReleaseIsOneStep | service/cmd_service.go:88-98 | with release as one step, an armed idle timer means an idle agent without an executor in every reachable state |
| CmdService.ArmedExactly | config/manager.go:144-172 | in every run the idle timer is armed if and only if since the last command went busy an idle event, the first one included, has come while the limit was positive |
| CmdService.NoLimitNoExit | config/manager.go:148-150 | an agent whose limit is never positive never exits for being idle |
| CmdService.NilExecutorNeedsRace | service/cmd_service.go:333-338 | a nil executor is used only by a kill whose check was overtaken by a release |
| CmdService.KillMeetsNilExactly | service/cmd_service.go:333-338 | between a kill's check and its call: it uses a nil executor if and only if a worker has cleared it meanwhile |
| CmdService.ArmedDuringCommandExactly | service/cmd_service.go:88-121 | whenever a command goes busy: some continuation, reconnects included, arms the idle timer while it has its executor if and only if another command's release is half done |
| CmdService.BusyExactly | service/cmd_service.go:88-126 | in every reachable state with nothing to do, the agent is BUSY if and only if the last command prepared failed before it had an executor, having gone busy while no release was half done |
| CmdService.BusyAfterFailure | service/cmd_service.go:88-126 | if every command went busy while no release was half done, that is: if and only if the last of the commands prepared failed |
| CmdService.IdleExitDuringCommand | service/cmd_service.go:90-94 | a run in which the idle timer is armed while a command has an executor |
| CmdService.KillCanMeetNil | service/cmd_service.go:333-338 | a run in which a kill uses a nil executor |
| CmdService.StaysBusyAfterEarlyFailure | service/cmd_service.go:118-126 | a run after which nothing runs, the failure was reported, and the agent stays BUSY |
| WsClient.ConsumersMatchReaders | api/client.go:85-126 | in every reachable state, connections overlapping or not: live consumers, with the one about to be started for a new reader, are the readers without a queued sentinel plus the queued sentinels |
| WsClient.NoMessageLost | api/client.go:478-508 | across any number of reconnects every message is, exactly once, queued, in hand or attempted, and the queue keeps its capacity |
| WsClient.QueueHoldsHundred | api/factory.go:19 | the queue can be filled with a hundred entries and never holds more |
| WsClient.CanAttemptAll | api/client.go:478-487 | while a reader reads, everything enqueued can be attempted before the next disconnect |
| WsClient.WriteInOrder | api/client.go:478-487 | a write through a live connection keeps the order of the pipeline if and only if moving its message to the front of those in hand changes nothing |
| WsClient.InOrderUnlessOvertaken | api/client.go:478-508 | across any number of reconnects: attempted frames, then messages in hand, then the queue are what was enqueued, in order, if no consumer writes before one with an older message |
| WsClient.InOrderExactly | api/client.go:478-508 | for distinct messages, over whole runs: if and only if |
| WsClient.OvertakingExactly | api/client.go:408-487 | while a reader reads: some continuation without a disconnect overtakes if and only if another reader has its sentinel still to queue, or two messages are in hand or queued before the last sentinel |
| WsClient.OvertakingNeedsOverlap | api/client.go:85-126 | a consumer can only overtake while two readers or sentinels are around |
| WsClient.SteadyStep | api/client.go:408-487 | with one reader and no sentinel, every step but a disconnect keeps one consumer and the order of the pipeline |
| WsClient.InOrderWhileSteady | api/client.go:478-508 | until the next disconnect, attempted frames, then the message in hand, then the queue are the earlier pipeline followed by what was sent, in order, all on one connection |
| WsClient.InOrderBetweenDisconnects | config/manager.go:237-259 | the same for the steady states of runs from the start, after any number of lost connections |
| WsClient.RedialsExactly | config/manager.go:237-259 | in every run: one try to connect at the start, six after each lost connection; while some are left the next is due, and the last failure, and no earlier one, ends the process |
| WsClient.EndsExactly | api/client.go:408-487 | exactly what ends the process: a read or write through no connection, a read error that is no disconnect, and the failure of the last try |
| WsClient.ConnectionExactly | api/client.go:104-108 | in every run the client holds the connection dialed last, unless a dial has failed or a reader cleared it since |
| WsClient.CanReconnect | config/manager.go:237-259 | from the moment a connection is lost, some run leads to a reader on a new one |
| WsClient.CanGiveUp | config/manager.go:243-257 | and some run leads to the end of the process, with six failed dials or six failed handshakes |
| WsClient.CanQueueSentinel | api/client.go:415-420 | a reader that has cleared its connection can queue its sentinel while the next reader reads, even if the queue is full |
| WsClient.ReaderWithoutConnection | api/client.go:104-122 | at most one reader reads, and it finds no connection if and only if an earlier reader has cleared it since the last dial; the same holds of a handshake |
| WsClient.ClearsNewExactly | api/client.go:415-420 | at a dial: some continuation without another dial leaves a reader without connection if and only if an earlier reader has still to clear |
| WsClient.ConnectionIfClearedFirst | api/client.go:415-420 | if every reader clears before the next dial, a reading reader always has its connection |
| WsClient.FramesDecode | api/util.go:9-13 | every frame sent with one of the agent's events gives back its message |
| WsClient.OldReaderClearsNewConnection | api/client.go:415-420 | a run in which the old reader clears the new connection and the next write ends the process |
| WsClient.OverlapCanReorder | api/client.go:478-487 | a run in which two consumers attempt two messages in the wrong order |
| LogPipeline.HeaderRemovedExactly | executor/docker_util.go:33-47 | exactly which chunks are left alone; all others lose exactly their first eight bytes |
| LogPipeline.OneFrameExactly | executor/docker_util.go:33-47 | a read of whole frames comes out as their payloads if and only if it is one frame at most |
| LogPipeline.StepKeepsChannel | executor/executor.go:287-302 | every step keeps file and channel in line with what was sent |
| LogPipeline.StepKeepsParts | executor/executor.go:276-291 | every step keeps each writer's sent part equal to its header-stripped reads so far |
| LogPipeline.StepKeepsSums | executor/executor.go:269-288 | every step keeps the wait group and the log size equal to their sums over the writers |
| LogPipeline.FileThenQueueIsSent | service/cmd_service.go:386-398 | in every interleaving the file is the first payloads sent, in order, and the channel decodes to the others in order |
| LogPipeline.EventsExactly | executor/executor.go:262-303 | by the events of a run: what each writer has read, the single lines with their line breaks in order, and the wait group's credit |
| LogPipeline.ChannelHoldsThousand | executor/executor.go:20 | the channel can be filled with a thousand entries and never holds more |
| LogPipeline.ReadsFitExactly | executor/executor.go:22 | a writer can read any chunk of at most 8192 bytes and no longer one |
| LogPipeline.CanWriteAll | service/cmd_service.go:386-398 | from every reachable state, closed or not, the consumer can bring all that was sent into the file, decoded |
| LogPipeline.CanEnd | executor/executor.go:262-299 | every writer can end, even with the channel full or closed |
| LogPipeline.CanWaitFor | executor/executor.go:181-186 | any number of writers can be started, waited for, and the channel then closed |
| LogPipeline.WriterPartIsPrefix | executor/executor.go:262-299 | what a writer has sent is its header-stripped reads in order, all but at most the last |
| LogPipeline.SizesAndWaitGroup | executor/executor.go:269-288 | LogSize plus chunks sent but not counted is the raw bytes sent, and the wait group never drops below the live counted writers |
| LogPipeline.LostAtCloseExactly | executor/executor.go:181-186 | a chunk read by a writer can be lost after the channel is closed if and only if that writer has not ended at the close |
| LogPipeline.WaitedCloseLosesNothing | executor/executor.go:182-184 | if the wait group is down to zero at the close, nothing of a counted writer is lost |

## Left out

- ParseVariablesFrom: speaks of runs that end; a run that does not end has no result (LateCycleNeverEnds).
- LoopIsDeepSubstitution: sources that are not flat are not covered; some are substituted right and some are not (LiteralDollarExact). Nor are values that hold `$$`, end in `$` or leave a `${` open, which can combine with what follows, or values whose tokens of defined names start before the jump lands: those tokens may be jumped over, or replaced because they stand elsewhere too.
- LoopIsSubstitution: the same sources and values are not covered; quiet excludes all values with tokens of defined names, which belong to LoopIsDeepSubstitution.
- SafeEnvironments: environments with a usable value that is not quiet are not covered.
- SelfReferenceExact: nothing is said of other sources when the value holds only earlier tokens of its own, nor of environments that define other names as well.
- AlwaysStops: is about `$`-free values; with other values the loop need not stop.
- Resolve: after the first pass, maps of neither kind are not covered. Some depend on the iteration order (OrderMatters), some do not although a value's token meets a short value (ChainOrderExact), some never end.
- WriteThenRead: keys with `=`, leading space or a line break, and values with trailing space or a line break, do not come back (EntryReadBack), as the format has no escapes.
- EnvTableRoundTrip: covers lines that fit the reader's buffer of 8192 bytes and characters up to U+00FF; others do not survive (ReadsBackExactly).
- ReadLineCuts: of a line longer than the buffer only the cut into pieces is modelled, not the reader's handling of input that arrives in parts.
- InOrderExactly: is about distinct messages; of equal ones it cannot be seen which was written first.
- DoStart: a call to start a container is taken not to have started it when it fails; a container whose start failed is never removed, as in the source.
- PullImageWithName: the lookup of a local image and each try to pull are inputs.
- InitConfig: only which options become configs; binds, networks and variables of the runtime config are not modelled.
- Concurrency: `CmdService`, `ShellLoop`, `WsClient` and `LogPipeline` are step models on values, not classes updated in place. A `to...Status` function or a channel operation is one step, a blocked channel operation is a step not enabled, and data races within a step (such as the idle timer's field read by its own goroutine) are not captured.
- One dispatcher is assumed; commands dispatched over HTTP at the same time are not modelled.
- Runs of the client end at `Close`, at a write or read through a nil connection, and after six failed reconnects.
- Timeouts, kills and lost connections are events that may occur at any step; clocks, sleeps and timestamps are left out.
- Strings are sequences of `char`. A `char` may stand for a byte where nothing depends on it, as in substitution and volume lists, and stands for a character where spaces are trimmed or UTF-16 is decoded; invalid UTF-8 is not modelled. Cache names and frames are bytes.
- `result.Containers`, caches, networks, volumes' set-up, plugins, secrets and the kill scripts of a timed-out container.
- TTY sessions, and the PowerShell executor, which repeats the bash structure with another watcher per attempt.
- HTTP, JSON, zip and tar, `dao`, the controllers, the plugin manager, ZooKeeper and generated code: library work or wiring.
