# Verification of the itervox daemon's protocols and scanners

This project models, in Dafny, the parts of the itervox daemon where a mistake
costs most, and proves what each promises:

* **the agent stream** (`JsonText`, `JsonTypeScanner`, `StreamReader`): the
  bounded line reader that keeps, skips or rejects each line of an agent's
  output by its length and by the `type` found in its first 64 KiB, against
  "split the stream at the newlines"; the type scanner against the grammar of
  RFC 8259 (sections 2, 4, 5, 6 and 7);
* **comment commands** (`CommentLedger`, `CommentRuns`, `CommentActions`): the
  durable ledger with its sliding window, and what is acted on, over every run of
  polls, failed checks, failed saves, crashes and restarts;
* **front-matter migration** (`YamlTrees`, `YamlNodes`, `YamlEdits`,
  `BlankLines`): node graphs on the heap, aliases and merge keys expanded
  without touching an anchor, and blank lines put back;
* **the pid claim and `itervox stop`** (`PidRecord`, `PidClaim`, `PidProtocol`,
  `PidRuns`, `PidStops`):
  the text of the record; an advisory lock and an atomic hard link, interleaved one system call at a time, with
  crashes and used-again pids;
* **the outbox** (`OutboxDelivery`, `OutboxRuns`): comments delivered once, with
  lost responses, rate limits, failed lookups, writes for other entries and crashes;
* **the schedulers** (`InputRequiredReplay`, `ReplayRuns`, `AutoAnalyze`,
  `AutoAnalyzeRuns`): replay of input-required rules and automatic dependency
  analysis, over every run of ticks;
* **settings saves** (`SettingsFence`, `SettingsRuns`): write, apply, roll back
  and reload, in every interleaving;
* **the shell** (`ShellWords`, `CommandLines`): quoting against the word rules of
  IEEE Std 1003.1, sections 2.2.1 to 2.2.3, and the replacement of one token of
  a command line;
* **the orphan reaper** (`OrphanReaper`, `ReaperRuns`): whom it can signal, over
  every run of daemons, forks and used-again pids;
* **the listener that outlives reloads** (`PersistentListener`): no accepted
  connection is lost or returned twice.

Code that updates state is a class or a method with loops, proved equal to a
function of the old state; the guarantees are lemmas about those functions, or
about a state machine whose steps they are. `Bytes` holds the byte type, `Text` what the program uses of the strings
package. Clocks,
the tracker, the file system, `ps` and the kernel are parameters or
nondeterministic steps: a file write replaces the file or leaves it as it was, a
hard link is atomic, the kernel drops a dead process's lock, a create request
lands before its error or never.

## Where the code and its description part

* A second `itervox stop` holds the pid lock for a moment while it checks. The
  first takes it for a daemon's and can signal the pid of a stale record
  (`PidRuns.TwoStopsSignalAStalePid`).
* When the probe of the lock fails, the clean-up of `stop` removes the record
  without the lock, even a live daemon's (`PidRuns.FailedProbeRemovesALiveRecord`);
  its comment promises that this happens only under the lock where there is one.
* `GroupExited` runs after the agent has been waited for, so its pid is free
  while its group is still in the ledger. A stranger that takes the pid in
  between and is seen by a refresh is signalled after a crash
  (`ReaperRuns.LateGroupExitedReachesAStranger`).
* Manual mode leaves the scheduler's history as it was, so switching back to
  automatic can fire at once (`AutoAnalyzeRuns.ManualTimeCountsAsQuiet`).
* A detail fetched under one blocked key is reused for another entry of the same
  issue with another key, when no batch answers
  (`ReplayRuns.SecondEntryTakesTheFirstsDetail`), although an earlier fetch is
  said to be reused only under the same key.
* An input-required rule that is removed for one tick is replayed again when it
  comes back (`ReplayRuns.RemovedRuleIsReplayedAgain`).
* The zero time stands for "nothing to retry" in a poll: when the check of a
  comment created at the zero time fails, the poll forgets it and every retry
  noted before it, and those are lost that are more than the overlap before its
  latest time (`CommentRuns.RetriedAtZeroIsLost`, `CommentRuns.ZeroTimeIsLost`).
  No poll that lists no such comment loses any (`CommentRuns.NothingOwedIsLost`).
* A merge value that is an alias of a sequence of mappings merges nothing,
  although the merge-key type of YAML 1.1 merges every mapping of the sequence
  (`YamlTrees.AliasedSequenceIsDropped`; `YamlTrees.EffectiveIsLookup` has the
  exact condition).
* The token scan of a command line takes the bytes 0x85 and 0xA0 for spaces, so
  it cuts UTF-8 text that contains them (`ShellWords.Utf8CanBeCut`); a resolved
  path is put in unquoted, so one with a space becomes two tokens
  (`CommandLines.PathWithSpaceIsCut`).
* A legacy pid record keeps its path only if that does not end in white space,
  and is taken for a lock-marked one if it ends in a tab and `flock`
  (`PidRecord.LegacyRecordIsReadBack`).
* The fingerprint of the changed issues is injective only on non-empty names
  without NUL (`AutoAnalyze.UncleanFingerprintsCollide`).

## Model

| member | source | states |
|---|---|---|
| `JsonTypeScanner.SkipJSONSpace` | internal/agent/claude.go:921-928 | the loop stops at the first byte that is not JSON white space |
| `JsonTypeScanner.ScanJSONString` | internal/agent/claude.go:930-941 | the end of a string, escapes skipped; none when it is not closed |
| `JsonTypeScanner.SkipJSONValue` | internal/agent/claude.go:943-979 | the end of a value by string and depth scanning |
| `JsonTypeScanner.DetectStreamLineType` | internal/agent/claude.go:879-919 | the loop over members finds what the specification of a type span finds |
| `JsonTypeScanner.SkipsExactlyOneValue` | internal/agent/claude.go:943-979 | the skipper consumes exactly one rendered value of the grammar, whatever follows (a number or literal needs its end) |
| `JsonTypeScanner.DetectExtends` | internal/agent/claude.go:873-919 | an answer found on a prefix is unchanged by any extension |
| `JsonTypeScanner.DetectOnPrefix` | internal/agent/claude.go:879-919 | on any cut of a line that starts with a JSON object: the first top-level member with raw key `type`, if its value is a string and the cut contains it; otherwise nothing, so no nested or quoted look-alike |
| `JsonTypeScanner.DetectsFirstTypeMember` | internal/agent/claude.go:879-919 | the same for every line written out as white space, a JSON text and anything after it |
| `JsonTypeScanner.NoTypeIsFound` | internal/agent/claude.go:879-919 | members without a `type` string at the top level give no answer |
| `StreamReader.ChunkReader.ReadSlice` | internal/agent/claude.go:762-767 | the buffered reader's contract: a chunk of at most 64 KiB, cut anywhere unless it ends in the first newline |
| `StreamReader.StreamLineReader.Next` | internal/agent/claude.go:782-837 | for every chunking: the outcome of the next line under the three limits, the rest of the stream after it, a fresh copy, a retained buffer of at most 1 MiB + 1, and no reallocation by append but for a terminal line over the cap |
| `StreamReader.StreamLineReader.Decide` | internal/agent/claude.go:796-817 | the detector sees exactly the first 64 KiB of the line |
| `StreamReader.StreamLineReader.Finish` | internal/agent/claude.go:841-851 | a copy without the trailing carriage return; the buffer is kept only when within the cap |
| `StreamReader.StreamLineReader.DiscardRest` | internal/agent/claude.go:856-877 | a skipped line's full length, whatever its chunks |
| `StreamReader.StreamLineReader.ReadAll` | internal/agent/claude.go:999-1020 | reading to the end gives the specified outcomes, and every line handed out earlier still holds its text |
| `StreamReader.LinesAreReadBack` | internal/agent/claude.go:683-713 | the stream of any lines and any unterminated tail is read as exactly those lines, each judged on its own |
| `StreamReader.EveryStreamIsLines` | internal/agent/claude.go:683-713 | every stream is such lines and such a tail |
| `StreamReader.LineArrivesWhole` | internal/agent/claude.go:778-851 | a line of at most 1 MiB is delivered with its text whole, without its line feed and a carriage return before it, in the middle of a stream or as its unterminated end; a read error delivers nothing |
| `StreamReader.LongLineIsKeptForItsType` | internal/agent/claude.go:683-713 | a longer line that starts with a JSON text is delivered whole, up to 16 MiB, if and only if its first 64 KiB hold a top-level type `result`, `turn.completed` or `turn.failed`; any other is skipped with its length and type |
| `CommentLedger.CommentCommandHandler.constructor` | cmd/itervox/comment_commands.go:147-165 | the ledger read from disk, or one that starts from now |
| `CommentLedger.CommentCommandHandler.SaveLedger` | cmd/itervox/comment_commands.go:167-185 | records before the window are pruned, and the file written or left |
| `CommentLedger.CommentCommandHandler.Handle` | cmd/itervox/comment_commands.go:299-340 | check, durable record, then the action; what each failure leaves |
| `CommentLedger.CommentCommandHandler.Poll` | cmd/itervox/comment_commands.go:201-258 | the whole poll: which comments are looked at, the next cursor, the last save |
| `CommentRuns.PollIsARun` | cmd/itervox/comment_commands.go:201-258 | a poll is a run of the step machine, in which a crash can come between any two steps |
| `CommentRuns.StepKeepsInv` | cmd/itervox/comment_commands.go:167-191 | every step keeps: each acted comment is on record or before the window, on disk and in memory; the save inside `handle` does not prune its own record |
| `CommentRuns.AtMostOnce` | cmd/itervox/comment_commands.go:299-319 | over every run of polls, failed saves, crashes and restarts, from no ledger or any that records comments under their own times, no comment is acted on twice |
| `CommentRuns.WindowNeverMovesBack` | cmd/itervox/comment_commands.go:187-198 | the cursor, on disk and in memory, and so the window never move back |
| `CommentRuns.NothingOwedIsLost` | cmd/itervox/comment_commands.go:246-258 | after any run whose polls list no comment of the zero time, a comment left for later is unrecorded and inside the next window, of this process and of a restarted one |
| `CommentRuns.OwedIsLookedAt` | cmd/itervox/comment_commands.go:218-240 | listed again as a command, it is looked at |
| `CommentRuns.RestartWithoutLedger` | cmd/itervox/comment_commands.go:145-165 | with no ledger file a restart keeps exactly the comments created no earlier than now |
| `CommentRuns.RetriedAtZeroIsLost` | cmd/itervox/comment_commands.go:246-254 | a comment inside a poll's window is outside the next one if and only if the time the poll ends with is more than the overlap after it, and that time is the poll's latest when the retry time is the zero time |
| `CommentRuns.ZeroTimeIsLost` | cmd/itervox/comment_commands.go:246-254 | a whole poll that loses a comment of the zero time and one retried before it, from any window that reaches the zero time |
| `CommentRuns.AtMostTenFailedChecks` | cmd/itervox/comment_commands.go:299-312 | while saves succeed in one process, a comment's check fails at most ten times and the tenth settles it |
| `CommentActions.PollActs` | cmd/itervox/comment_commands.go:201-258 | a poll acts on exactly, and in order, the commands inside the window and not on record whose check allows them and whose record is saved; each judged on its own when none is listed twice |
| `CommentActions.RecordedExactlyWhen` | cmd/itervox/comment_commands.go:299-319 | a comment goes on record, in memory and in the file, if and only if it is such a command, its record is saved, and its check decided or failed for the tenth time |
| `CommentActions.AcceptedAreActedOn` | cmd/itervox/comment_commands.go:312-333 | over every run, the comments acted on are those recorded as allowed, in that order, but for those the process died before acting on |
| `CommentActions.RefusedIsNeverActedOn` | cmd/itervox/comment_commands.go:312-327 | over every run, a comment recorded without being allowed is never acted on |
| `CommentActions.PollMovesOn` | cmd/itervox/comment_commands.go:167-185 | a poll that leaves nothing for later moves the cursor to the latest comment listed, of any kind, and keeps no record from before the window |
| `YamlTrees.RankDoesNotMatter` | cmd/itervox/init_migrate_yaml.go:187-191 | what a node of an acyclic graph holds does not depend on how the graph is ranked |
| `YamlTrees.FollowedIs` | cmd/itervox/init_migrate_yaml.go:193-196 | an alias stands for what its target stands for, anything else for itself |
| `YamlTrees.PlainIs` | cmd/itervox/init_migrate_yaml.go:173-176 | a merge key is a scalar `<<` with the merge tag or none |
| `YamlTrees.OwnEntriesAre` | cmd/itervox/init_migrate_yaml.go:204-211 | own pairs are kept in order, merges left out |
| `YamlTrees.LookupIsFirst` | cmd/itervox/init_migrate_yaml.go:187-231 | the meaning of a key, aliases standing for their targets, is the first of its sources: own key, then merged mappings in order, recursively |
| `YamlTrees.EffectiveIsFirstSeen` | cmd/itervox/init_migrate_yaml.go:187-231 | the effective entries exist exactly for a mapping or an alias of one, hold no merge key, and give for every key the first source that is not behind an alias of a sequence |
| `YamlTrees.EffectiveIsLookup` | cmd/itervox/init_migrate_yaml.go:187-231 | they give for a key what the merge-key type of YAML 1.1 gives if and only if no source behind such an alias comes first with another value |
| `YamlTrees.DirectMergesKeepTheMeaning` | cmd/itervox/init_migrate_yaml.go:212-218 | so for every key, where no merge value is an alias of a sequence |
| `YamlTrees.AliasedSequenceIsDropped` | cmd/itervox/init_migrate_yaml.go:212-218 | a mapping that merges an alias of a sequence and loses a key |
| `YamlTrees.EffectiveKeysAreDistinct` | cmd/itervox/init_migrate_yaml.go:201-229 | expanding merges never repeats a key |
| `YamlTrees.OwnEntriesComeFirst` | cmd/itervox/init_migrate_yaml.go:204-227 | the effective entries begin with the own ones, in their order |
| `YamlNodes.CopyNode` | cmd/itervox/init_migrate_yaml.go:233-249 | a deep copy: the same tree, no anchors, made of new nodes only, aliases still pointing at their anchors |
| `YamlNodes.CopyOwn` | cmd/itervox/init_migrate_yaml.go:201-211 | the own pairs copied in order, the merge values collected in order |
| `YamlNodes.AddNewEntries` | cmd/itervox/init_migrate_yaml.go:222-227 | a merged mapping adds its new keys, in order |
| `YamlNodes.EffectiveMap` | cmd/itervox/init_migrate_yaml.go:187-231 | a new plain mapping whose tree is the expansion of the input's, all of new nodes; null exactly when the input stands for no mapping |
| `YamlEdits.NodeIndex` | cmd/itervox/init_migrate_yaml.go:90-102 | the position of the first pair with the key, or -1 when no pair has it |
| `YamlEdits.NodeGet` | cmd/itervox/init_migrate_yaml.go:104-111 | the value there, or null |
| `YamlEdits.NodeSet` | cmd/itervox/init_migrate_yaml.go:113-126 | the key has the value, in its place or at the end; every other key keeps its value; the old line comment is passed on |
| `YamlEdits.NodeInsertFirst` | cmd/itervox/init_migrate_yaml.go:128-137 | the same, with a new key first |
| `YamlEdits.NodeDelete` | cmd/itervox/init_migrate_yaml.go:139-148 | the first pair with the key is removed; every other key keeps its value |
| `YamlEdits.HasMergeKey` | cmd/itervox/init_migrate_yaml.go:173-185 | true exactly when some key of the mapping is a merge key |
| `YamlEdits.EnsureMap` | cmd/itervox/init_migrate_yaml.go:150-171 | a plain mapping stays; an alias of a mapping or a mapping with merges becomes a new plain mapping with its effective entries; anything else a new empty one; no other key changes, nothing but m is modified, and the graph stays acyclic |
| `YamlEdits.EnsuredIsLookup` | cmd/itervox/init_migrate_yaml.go:150-171 | what is left under the key has no merge and gives for a key what the merge-key type gave, under exactly that condition; for every key where no merge value is an alias of a sequence |
| `YamlEdits.EditEnsured` | cmd/itervox/init_migrate_yaml.go:153-157 | any sequence of sets, insertions and deletes in a mapping that had to be made leaves every node of the old graph but m untouched, and what every node below m holds as it was |
| `BlankLines.KeysPrecededByBlankLine` | cmd/itervox/init_migrate_yaml.go:298-318 | exactly the keys with a blank line above their line or comment block |
| `BlankLines.KeyLineIs` | cmd/itervox/init_migrate_yaml.go:263-265 | a key line is one that starts with a key of letters, digits, `_`, `.` and `-`, and a colon |
| `BlankLines.WantedExactlyWhen` | cmd/itervox/init_migrate_yaml.go:298-318 | a key wants a blank line if and only if a blank line stands above its line and any comment lines there |
| `BlankLines.RestoreTopLevelBlankLines` | cmd/itervox/init_migrate_yaml.go:267-296 | the loop that inserts into its own output computes the pass |
| `BlankLines.OnlyNewlinesAreTrimmed` | cmd/itervox/init_migrate_yaml.go:278 | only newlines at the end are trimmed, and all of them |
| `BlankLines.OnlyBlankLinesAreAdded` | cmd/itervox/init_migrate_yaml.go:267-296 | the encoded lines remain, in order; every other line is empty and right above a wanted key and its comments; every wanted key not at the top has an empty line there |
| `BlankLines.OriginalBlankLinesAreBack` | cmd/itervox/init_migrate_yaml.go:267-272 | each key that followed a blank line in the original follows one again, unless it comes first |
| `BlankLines.RestoreIsIdempotent` | cmd/itervox/init_migrate_yaml.go:273-296 | restoring twice is restoring once |
| `BlankLines.RestoredEndsOnce` | cmd/itervox/init_migrate_yaml.go:273-295 | the restored text ends in one newline; with no key to restore it is the encoded text |
| `Text.JoinIsSplit` | cmd/itervox/init_migrate_yaml.go:278-295 | lines joined and split again are the same lines |
| `PidRecord.ParsePidRecord` | cmd/itervox/pidfile.go:78-98 | the branches compute the parsed record |
| `PidRecord.RecordIsReadBack` | cmd/itervox/pidfile.go:296 | a lock-marked record read back is the record written, for every path |
| `PidRecord.LegacyRecordIsReadBack` | cmd/itervox/pidfile.go:78-80 | an older daemon's record is read as it was written if and only if its path has no white space at the end and does not end in a tab and the marker |
| `PidRecord.AtoiReads` | cmd/itervox/pidfile.go:84-87 | a pid with or without a sign is read when it fits 64 bits |
| `PidRecord.AtoiReadsOnlyNumbers` | cmd/itervox/pidfile.go:84-87 | and nothing else is |
| `PidClaim.ClaimPidFile` | cmd/itervox/pidfile.go:284-357 | the loop and its deferred release do what the claimant's steps do; without errors the claim is refused if and only if the lock is held or an older daemon of another pid is found alive, file and lock then as they were; whatever fails, the file and the lock are its own or it does not hold the lock |
| `PidClaim.ClaimDecides` | cmd/itervox/pidfile.go:158-182 | the same of the specification: whom a claim is refused for, and what it leaves |
| `PidClaim.RemovePidFile` | cmd/itervox/pidfile.go:140-156 | the file goes before the lock, and the lock goes even when the file does not |
| `PidClaim.AloneIsARun` | cmd/itervox/pidfile.go:284-357 | what a claimant does alone is a run of its turns in the protocol |
| `PidProtocol.StepKeepsInv` | cmd/itervox/pidfile.go:284-357 | every system call of a claimant, a stop or a crash keeps the invariant: one lock holder; its own record on disk, or none once a stop removed it without the lock; the writer of a lock-marked record found under the lock gone |
| `PidRuns.OneClaimWithItsRecord` | cmd/itervox/pidfile.go:224-245 | at most one process holds the claim, and its lock-marked record is the one on disk if and only if no stop has removed the file without the lock since the record was linked |
| `PidRuns.LockedRecordIsStale` | cmd/itervox/pidfile.go:158-182 | a lock-marked record met while holding the lock has a dead or finished writer |
| `PidRuns.LockOverReclaimable` | cmd/itervox/pidfile.go:318-352 | taking the lock over an absent, malformed, lock-marked or own-pid record, and only that, starts a claim that cannot be refused |
| `PidRuns.ReclaimSucceeds` | cmd/itervox/pidfile.go:318-357 | such a claim needs at most four of its own system calls, two of them links, whatever others do |
| `PidRuns.ReadDecides` | cmd/itervox/pidfile.go:324-341 | in every interleaving, a claimant goes on to remove the record it reads unless it is that of another pid without the marker, found alive |
| `PidRuns.NoLiveRecordIsRemoved` | cmd/itervox/pidfile.go:158-182 | over every run, an older daemon's record that a claimant removes is its own pid's, or one it found dead or could not read, and it holds the lock |
| `PidRuns.StopIsSafe` | cmd/itervox/stop.go:188-285 | every signal goes to a target, SIGKILL at once if forced, else SIGTERM and SIGKILL after the grace period; without `--legacy`: every signal follows a probe that met another process's lock; a pid from a record read with no claim or other stop under way is that holder's, whatever was removed before; SIGKILL after the grace period follows a second such probe and a file that still named the pid, which is the second holder's when nobody took the lock in between |
| `PidStops.SearchFinds` | cmd/itervox/stop.go:141-252 | the search of a stop: a pid is verified if and only if the lock is another's and names it, by the record or, where none is recorded, by the scan; unverified pids are kept only with `--legacy`; a record goes if and only if it is stale; the lock is given back |
| `PidStops.TargetsAreSignalled` | cmd/itervox/stop.go:254-262 | the first signal goes to every target and nobody else |
| `PidStops.WaitsWhileTimeIsLeft` | cmd/itervox/stop.go:264-271 | while time is left and a target is there, nothing is sent |
| `PidStops.SurvivorsAreKilled` | cmd/itervox/stop.go:264-285 | after the grace period with the lock still another's, SIGKILL goes to the recorded pid if and only if the file still names it, and to the unverified pids that still answer |
| `PidStops.ScannedSurvivorsAreKilled` | cmd/itervox/stop.go:327-345 | where no record names the lock's holder, to all verified pids, and to the unverified ones that still answer |
| `PidStops.GoneIsNotKilled` | cmd/itervox/stop.go:271-274 | when every target is gone, by the lock for verified pids and by their answer for the others, there is no second signal |
| `PidStops.CleanUpRemoves` | cmd/itervox/stop.go:347-356 | the clean-up removes the record if and only if nobody else holds the lock, and gives the lock back |
| `PidRuns.TwoStopsSignalAStalePid` | cmd/itervox/stop.go:119-135 | a second stop that holds the lock makes the first signal a stale record's pid |
| `PidRuns.FailedProbeRemovesALiveRecord` | cmd/itervox/stop.go:342-356 | a failed probe lets the clean-up remove a live daemon's record |
| `PidRuns.RemovalsWithoutTheLock` | cmd/itervox/stop.go:342-356 | every other change of the file is made by the lock holder |
| `OutboxDelivery.DeliverComment` | cmd/itervox/outbox_flusher.go:359-381 | what one attempt posts and returns, with the key looked up unless both counters are zero |
| `OutboxDelivery.AttemptPosts` | cmd/itervox/outbox_flusher.go:325-381 | an attempt posts unseen if and only if both counters are zero, else only when a working lookup does not find the comment; what it reports |
| `OutboxDelivery.Outbox.MarkFailed` | internal/outbox/outbox.go:359-398 | exactly one counter of exactly this entry grows |
| `OutboxDelivery.Outbox.MarkFlushed` | internal/outbox/outbox.go:309-321 | exactly this entry leaves |
| `OutboxDelivery.Outbox.Due` | internal/outbox/outbox.go:283-305 | exactly the entries, in order, whose time has come and that no earlier entry of their issue keeps waiting |
| `OutboxDelivery.DueAreHeads` | internal/outbox/outbox.go:283-305 | the same of the specification |
| `OutboxDelivery.FlushOutboxEntry` | cmd/itervox/outbox_flusher.go:249-318 | one entry delivered and marked; no other entry or comment changes |
| `OutboxDelivery.RunTick` | cmd/itervox/outbox_flusher.go:228-241 | the due entries are attempted in order, each once, none while an earlier one of its issue was pending; nothing else is posted; from the first open rate-limit gate on, none is touched |
| `OutboxRuns.FlushIsARun` | cmd/itervox/outbox_flusher.go:249-318 | what flushing a keyed comment does is a run of an attempt and a mark of that entry, and for every other entry at most a write of the file |
| `OutboxRuns.StepKeepsInv` | cmd/itervox/outbox_flusher.go:325-381 | every step keeps the bound on copies, also for an entry that looks untried |
| `OutboxRuns.CopiesAreBounded` | cmd/itervox/outbox_flusher.go:325-381 | every run, with failed writes and writes for other entries: one comment plus one for each crash that leaves a posted entry untried on disk; never two on a tracker that rejects a repeated key; a flushed entry is on the tracker |
| `OutboxRuns.ExactlyOnceWithoutCrashes` | cmd/itervox/outbox_flusher.go:325-381 | without crashes: at most one, and a flushed entry exactly one |
| `OutboxRuns.BlindCrashesAreDuringFirstAttempts` | cmd/itervox/outbox_flusher.go:340-358 | with successful writes, those crashes are exactly the ones during an attempt with both counters zero |
| `OutboxRuns.OneBlindCrashDuplicates` | cmd/itervox/outbox_flusher.go:340-358 | the bound is reached |
| `InputRequiredReplay.ReplayInputRequiredAutomations` | cmd/itervox/automations_input_required.go:52-198 | the loops over blocked issues compute one tick: next state, dispatches in order, details used |
| `InputRequiredReplay.IssueDetail` | cmd/itervox/automations_input_required.go:284-330 | the detail of an entry and the cache it leaves, promotion included |
| `InputRequiredReplay.IdsToFetch` | cmd/itervox/automations_input_required.go:100-115 | the batch asks for exactly what the cache does not answer |
| `ReplayRuns.ReplayedAtMostOnce` | cmd/itervox/automations_input_required.go:135-192 | over all ticks, a rule that stays active is replayed at most once for one issue and blocked key |
| `ReplayRuns.NewContextIsNotReplayed` | cmd/itervox/automations_input_required.go:146-155 | a rule active when a context is first observed after startup is never replayed for it |
| `ReplayRuns.UnfiredRulesAreReplayed` | cmd/itervox/automations_input_required.go:135-192 | a tick replays a rule for a blocked entry, once, if and only if the rule is active and has not fired for the context, the context is an old one or one found at the first tick, the rule's filter matches the tick's detail of that entry, and the dispatch is accepted; paused, none |
| `ReplayRuns.NextContexts` | cmd/itervox/automations_input_required.go:135-195 | the next tick starts from exactly the contexts blocked now; a rule counts as fired there if and only if it did before and is still active, or was replayed now |
| `ReplayRuns.DetailsAreTheirOwn` | cmd/itervox/automations_input_required.go:100-133 | every detail of a tick is of the issue asked for: fetched now, alone or in a batch of exactly the ids the cache does not answer, or less than 60 s ago for a blocked entry of that issue with the same key |
| `ReplayRuns.SecondEntryTakesTheFirstsDetail` | cmd/itervox/automations_input_required.go:274-283 | with two entries of one issue it may be the other entry's key |
| `ReplayRuns.TickUsesFreshDetails` | cmd/itervox/automations_input_required.go:267-317 | every detail a tick uses was fetched less than 60 s before it, and the cache keeps true fetch times |
| `ReplayRuns.AllDetailsAreFresh` | cmd/itervox/automations_input_required.go:267-317 | so at every tick of every run |
| `ReplayRuns.RemovedRuleIsReplayedAgain` | cmd/itervox/automations_input_required.go:146-147 | "stays active" is needed |
| `AutoAnalyze.SignalIdentifiers` | cmd/itervox/deps_auto_analyze.go:200-260 | exactly the issues that are new, updated since the analysis, or analyzed as active and gone, in ascending order |
| `AutoAnalyze.ChangesAre` | cmd/itervox/deps_auto_analyze.go:160-197 | the three rules for a changed issue, written out |
| `AutoAnalyze.AscendingIsUnique` | cmd/itervox/deps_auto_analyze.go:198-199 | the order a map is walked in does not show |
| `AutoAnalyze.FingerprintIsInjective` | cmd/itervox/deps_auto_analyze.go:49-57 | different lists of non-empty, NUL-free names have different fingerprints |
| `AutoAnalyze.UncleanFingerprintsCollide` | cmd/itervox/deps_auto_analyze.go:112 | both conditions are needed |
| `AutoAnalyze.EvaluateAutoAnalyze` | cmd/itervox/deps_auto_analyze.go:85-148 | the early returns compute the decision and the next state |
| `AutoAnalyze.AutoAnalyzer.RunTick` | cmd/itervox/deps_auto_analyze.go:339-386 | only a successful enqueue sets the time of the last run |
| `AutoAnalyzeRuns.FiresExactlyWhen` | cmd/itervox/deps_auto_analyze.go:96-148 | a tick fires if and only if it is evaluated with no job running, something changed, the evaluated ticks have seen the same changes for at least the debounce in minutes (5 by default), and the last automatic run is at least the floor in minutes (60 by default) ago |
| `AutoAnalyzeRuns.FireMeansStable` | cmd/itervox/deps_auto_analyze.go:37-41 | a fire means the same changes at every evaluated tick since one at least the debounce ago |
| `AutoAnalyzeRuns.RunsAreFloorApart` | cmd/itervox/deps_auto_analyze.go:29-36 | successful automatic runs are at least the floor apart |
| `AutoAnalyzeRuns.FailedEnqueueIsRetried` | cmd/itervox/deps_auto_analyze.go:33-36 | a failed enqueue does not consume the floor: the next tick with the same changes fires |
| `AutoAnalyzeRuns.WarnedExactlyWhen` | cmd/itervox/deps_auto_analyze.go:42-48 | the warning about the profile is given once one automatic tick found none, and never again |
| `AutoAnalyzeRuns.ManualTicksDoNotMatter` | cmd/itervox/deps_auto_analyze.go:98-104 | after any history, a tick fires as if the manual ticks before it had not been |
| `AutoAnalyzeRuns.ManualTimeCountsAsQuiet` | cmd/itervox/deps_auto_analyze.go:98-104 | back in automatic mode after any number of manual ticks, the first tick fires exactly when the changes are older than the debounce, manual time included |
| `SettingsFence.SettingsGate.BeginSettingsSave` | cmd/itervox/settings_lock.go:65-74 | the gate is held exactly when the generation is current |
| `SettingsFence.Adapter.SetWorkers` | cmd/itervox/adapter_settings.go:32-44 | file, memory and outcome of the save, for every answer of the world |
| `SettingsFence.Adapter.BumpWorkers` | cmd/itervox/adapter_settings.go:46-59 | the same, from the current value read under the gate |
| `SettingsFence.Adapter.SetOrRollBack` | cmd/itervox/adapter_settings.go:98-125 | the same for the setters that can be rejected and rolled back |
| `SettingsFence.Adapter.RollbackSettingsWrite` | cmd/itervox/settings_lock.go:116-124 | the old value is back, or the outcome carries both failures |
| `SettingsFence.SaveGrants` | cmd/itervox/adapter_settings.go:191-238 | which answers of the world give which outcome; a saved setting has the value asked for, workers bounded to 1 to 50, in file and memory, and nothing else changes |
| `SettingsRuns.StepKeepsInv` | cmd/itervox/settings_lock.go:38-64 | every step keeps: only the current generation is inside the gate, and how file and memory relate at each point of a save |
| `SettingsRuns.FileAndMemoryAgree` | cmd/itervox/settings_lock.go:38-45 | in every interleaving, whenever the gate is free, file and running config agree on every setting but one whose rollback failed and that was not saved since |
| `SettingsRuns.OnlyFailedRollbacksDiverge` | cmd/itervox/settings_lock.go:111-115 | with no failed rollback, file and running config are equal whenever the gate is free |
| `SettingsRuns.StaleSaveChangesNothing` | cmd/itervox/settings_lock.go:46-54 | a save of a superseded generation can only be refused, and changes neither file nor memory |
| `SettingsRuns.LoadSeesEverySave` | cmd/itervox/settings_lock.go:92-109 | the next load puts in memory what the last running config held |
| `SettingsRuns.NothingIsLostWhileReloading` | cmd/itervox/settings_lock.go:92-109 | between a generation's end and the next successful load, failed loads included, file and memory stay as they were |
| `SettingsRuns.SaveSetsTheValue` | cmd/itervox/settings_lock.go:46-54 | a save that succeeds puts the value asked for in the file and in the running config, and no other setting |
| `SettingsRuns.SavedSettingLasts` | cmd/itervox/settings_lock.go:46-54 | until a setting is saved again, whatever other saves and reloads run, its saved value is in the file and in what every load puts in memory |
| `SettingsRuns.SaveIsARun` | cmd/itervox/adapter_settings.go:191-238 | a setter run from a free gate is a run of these steps |
| `SettingsRuns.RejectedSaveRestores` | cmd/itervox/settings_lock.go:111-124 | what each outcome leaves, and that no other setting changes |
| `ShellWords.ShellQuote` | internal/agent/claude.go:664-681 | the loop writes the quoted form |
| `ShellWords.QuotedIsOneWord` | internal/agent/claude.go:654-663 | the shell reads the quoted form of any bytes as exactly that one word, whatever follows a blank |
| `ShellWords.SpecialBytesAre` | internal/agent/claude.go:654-663 | the blanks, special bytes and quotable bytes of the word rules, as characters |
| `ShellWords.QuotedIsInjective` | internal/agent/claude.go:654-663 | different bytes have different quoted forms |
| `ShellWords.NextShellTokenSpan` | cmd/itervox/main.go:1570-1610 | the span of the next token |
| `ShellWords.SpacesAre` | cmd/itervox/main.go:1574 | the spaces of the scan are the Unicode spaces below 256; which of them the shell does not know |
| `ShellWords.QuotedIsOneToken` | cmd/itervox/main.go:1570-1610 | quoted bytes are one whole token |
| `ShellWords.TokenIsWord` | cmd/itervox/main.go:1570-1610 | the daemon's token is the shell's word if and only if no byte outside quotes is a vertical tab, form feed, carriage return, 0x85 or 0xA0 |
| `ShellWords.Utf8CanBeCut` | cmd/itervox/main.go:1573-1604 | a UTF-8 letter the scan cuts |
| `CommandLines.ResolveCommandTokenSpan` | cmd/itervox/main.go:1547-1568 | the first token that is neither a leading backend marker nor an assignment |
| `CommandLines.ResolveCommandLine` | cmd/itervox/main.go:1530-1545 | only the bytes of that span change, and none when there is no such token |
| `CommandLines.TrimmedIs` | cmd/itervox/main.go:1531 | only Unicode space characters in UTF-8 are cut off, at both ends, and all of them |
| `CommandLines.AssignmentIs` | cmd/itervox/main.go:1612-1629 | a token is an assignment if and only if a name stands before its first equals sign |
| `CommandLines.MarkerIs` | cmd/itervox/main.go:1556 | the marker is the text `@@itervox-backend=` |
| `CommandLines.LeadersAre` | cmd/itervox/main.go:1547-1568 | the tokens passed over are the marker, if it comes first, and the assignments before anything else |
| `CommandLines.OneTokenIsReplaced` | cmd/itervox/main.go:1530-1545 | the chosen token is the first after those; the text around it is kept, and the tokens of the result are the old ones with that one replaced if and only if the new text stands alone there |
| `CommandLines.PlainPathStandsAlone` | cmd/itervox/main.go:1631-1636 | a path without spaces, quotes or backslashes does |
| `CommandLines.PathWithSpaceIsCut` | cmd/itervox/main.go:1544 | a path with a space does not |
| `OrphanReaper.PgidLedger.GroupStarted` | cmd/itervox/agent_pgids.go:126-147 | the leader's identity from the process list, or none |
| `OrphanReaper.LeaderIsRecorded` | cmd/itervox/agent_pgids.go:127-147 | a group is recorded with its leader's start time and command and the leader as a member, or with none of them |
| `OrphanReaper.PgidLedger.GroupExited` | cmd/itervox/agent_pgids.go:149-158 | exactly this group leaves the ledger |
| `OrphanReaper.PgidLedger.Refresh` | cmd/itervox/agent_pgids.go:160-187 | every group with live members has exactly those recorded |
| `OrphanReaper.MembersAreListed` | cmd/itervox/agent_pgids.go:173-182 | the recorded members are exactly the listed processes of the group |
| `OrphanReaper.ReapRecordedMembers` | cmd/itervox/agent_pgids.go:360-375 | signals exactly the recorded members that are the same process in the same group |
| `OrphanReaper.ReapOrphanedAgentGroups` | cmd/itervox/agent_pgids.go:281-338 | signals exactly what the entries' identities allow, and reports for each entry what was done |
| `OrphanReaper.SignalsAre` | cmd/itervox/agent_pgids.go:312-375 | whom an entry is signalled for, written out: never init's group nor its own, the group if the recorded leader is there with its start time and command, else the recorded members that are there with theirs |
| `OrphanReaper.OneActionDescribes` | cmd/itervox/agent_pgids.go:312-329 | exactly one action is reported for an entry, and which |
| `OrphanReaper.NeverSignalsItself` | cmd/itervox/agent_pgids.go:312-321 | never the daemon itself nor its own group |
| `OrphanReaper.OrphanedGroupIsReaped` | cmd/itervox/agent_pgids.go:281-338 | a recorded group whose leader lives on is signalled as a group |
| `OrphanReaper.OrphanedMemberIsReaped` | cmd/itervox/agent_pgids.go:360-375 | a recorded member that lives on in its group without the leader is signalled itself |
| `ReaperRuns.StepKeepsInv` | cmd/itervox/agent_pgids.go:16-33 | every fork, exit, record, failed write and death keeps: a group is ours or not as a whole, a held pid's group is ours, a recorded member still in its group is ours |
| `ReaperRuns.OnlyOursAreSignalled` | cmd/itervox/agent_pgids.go:16-33 | over every run, every process a signal reaches descends from a group a daemon of this workflow started, if `GroupExited` runs before a pid is used again |
| `ReaperRuns.LateGroupExitedReachesAStranger` | cmd/itervox/agent_pgids.go:149-187 | that condition is needed: a run from the start after which the next reap signals a stranger |
| `PersistentListener.StepKeepsInv` | cmd/itervox/persistent_listener.go:51-102 | every step keeps the accounting of connections, calls, generations and pump |
| `PersistentListener.EachConnectionIsAccountedFor` | cmd/itervox/persistent_listener.go:51-102 | each accepted connection was returned by exactly one Accept, or is held by the pump, or was closed by it after Close; never two of these |
| `PersistentListener.OnlyAcceptedAreReturned` | cmd/itervox/persistent_listener.go:51-102 | nothing is returned that was not accepted |
| `PersistentListener.ReturnedInOrder` | cmd/itervox/persistent_listener.go:94-100 | connections are returned in accept order, none left out |
| `PersistentListener.ClosedGenerationReturnsNothing` | cmd/itervox/persistent_listener.go:135-140 | an Accept that starts after its generation closed never returns a connection |
| `PersistentListener.WaitingAcceptMayStillReturn` | cmd/itervox/persistent_listener.go:141-146 | one that was waiting already may |
| `PersistentListener.ReloadsKeepThePump` | cmd/itervox/persistent_listener.go:14-21 | until Close or a fatal error the pump lives, whatever generations come and go, and a held connection waits for the next Accept |
| `PersistentListener.ClosedSocketAcceptsNothing` | cmd/itervox/persistent_listener.go:104-109 | once the socket is closed nothing more is accepted |
| `PersistentListener.CloseEndsThePump` | cmd/itervox/persistent_listener.go:51-109 | Close can be called at any time; then the pump ends by at most two steps of its own, and a waiting Accept fails |
| `PersistentListener.FailureHasAReason` | cmd/itervox/persistent_listener.go:113-120 | a failed Accept means its generation closed or the pump ended; while the generation is open it fails with the socket's own error if there was one, else as closed |
| `PersistentListener.DelaysDouble` | cmd/itervox/persistent_listener.go:66-76 | in every run the delay is 5 ms doubled with each temporary failure since the last accepted connection, at most a second, whatever else happens between them |

## Left out

* Stream: the goroutine, channel and timeouts around the reader, and what events do with a line. `ChunkReader` states what the buffered reader promises; its own refilling is not part of this model.
* JSON: keys and the type value are compared as raw text, as the scanner does; escapes are not decoded.
* Comment commands: parsing a command, who is authorized, replies and reactions; a permission check is an outcome.
* YAML: the text parser and encoder. A graph is one the parser builds: acyclic, aliases without children, mappings of whole pairs. In-place edits of a plain mapping that is itself anchored do reach its other users, and nothing is claimed there.
* YAML: keys are compared by their text, and a delete takes the first of several equal keys, as in the code.
* Pid file: `removePIDFile` called twice, platforms without flock, a missing runtime directory, and daemons that never took the lock (only their records appear, as legacy ones).
* Stop and the listener are modelled as the steps of a state machine on values, not as methods over fields: order and interleaving are there, the shape of the loops is not.
* Stop: which processes a scan finds is a parameter; the printed messages and exit codes are not modelled.
* Outbox: back-off times, `Drop` and `RetryNow`, a file that cannot be read, state updates beyond success or failure. Entry ids are distinct, as `newEntryID` makes them.
* Replay: matching a rule's filter is a parameter; how the blocked key is built from an entry, and how many requests a tick makes, are not modelled.
* Automatic analysis: lower-casing and trimming state names is a parameter; a difference of times saturates after 292 years in the code.
* Settings: the file holds what a load of it would give; the promotion of the first of several reviewer profiles on load, the operator's own edits of the file, and the setters for other fields are not part of this model.
* Shell: an expansion, an operator, a comment sign, a tilde or a pattern byte outside quotes ends what the word reader understands, also where the shell would take it as it is; the Unicode letter and digit tables are a parameter; how a path is resolved is one too.
* Reaper: a process keeps the group it is born into, `ps` is instantaneous and the table is stable during a reap; pids are natural numbers. The grace period between the two signals is not modelled.
* Listener: the runtime's channels and `sync.Once` are atomic steps; a call's fairness and timing are not modelled.
* SettingsFence.Adapter.SetOrRollBack: does not model how a profile or a mode is validated; the answer is a parameter.
* ReaperRuns.OnlyOursAreSignalled: needs `GroupExited` before a pid is used again, because the code calls it after the wait.
