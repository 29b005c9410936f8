# Verified model of nk

`nk` is the command line client of Nokku. It signs a user in, keeps short-lived
SSH certificates fresh, writes an ssh config, races direct dials against a relay,
runs one background signing agent, and sets up servers without a daemon over
plain ssh. This project models those protocols in Dafny and proves what the code
and its comments promise about them, over every input, every schedule and every
run. `dafny verify dfyconfig.toml` checks all of it.

What comes from outside is an arbitrary input everywhere: what `sshd -t` answers,
where a script is cut off, which goroutine `select` takes, which process runs
next, what the backend answers, what the clock says.

| file | what it models |
|---|---|
| `Text.dfy`, `Sorting.dfy`, `GoTime.dfy` | Go's string splitting and trimming, byte order, wrapping and saturating time arithmetic |
| `Shell.dfy` | the POSIX shell subset of nk's host scripts, recording every file system a run passes through, with torn writes |
| `ManualScript.dfy` | the write script of a manual sync: rollback, crash recovery, whole files |
| `ManualOverlap.dfy` | the same script where file names overlap: what every run still does, and for which plans rollback and whole files hold |
| `ManualRecovery.dfy` | crash recovery of the script, whatever the names |
| `ManualPlan.dfy` | the probe, the accounts, the plan and the program it emits |
| `ManualPasswd.dfy` | which passwd lines report an account, and how principals are written |
| `ManualSync.dfy` | what a sync and its removal leave on the host |
| `ManualSshd.dfy` | what the host's sshd reads from it |
| `Quoting.dfy` | quoted words and the field splitting of `$nk_new` |
| `TargetCommands.dfy` | the order of effects of `nk sync` and `nk rm` |
| `DialRace.dfy` | the dial race and the drain of its losers |
| `AgentSocket.dfy` | flock, unlink, bind and close of any number of agent processes |
| `OwnLine.dfy` | one line of the user's ssh config: the tokenizer and every line as it may be written |
| `OwnConfig.dfy`, `OwnReader.dfy` | pattern lists and the recursive reader of the user's ssh config |
| `OwnClaims.dfy` | which names a file claims, and what an Include line stands for |
| `HostNames.dfy`, `SshConfig.dfy` | host aliases and the generated ssh config as ssh reads it |
| `IncludeEdit.dfy` | the Include line at the top of the user's config |
| `Session.dfy` | session and snapshot on disk, shared by any number of processes |
| `Backoff.dfy` | when nk under ssh asks the backend again |
| `Certs.dfy` | certificate windows and keeping a certificate on disk |
| `DeviceLogin.dfy` | the device-flow poll loop |
| `RelayStream.dfy` | relay messages as a byte stream |

## Findings

Where the code keeps less than its comments suggest, the model follows the code
and a lemma gives the exact condition.

- Account names may overlap: `alice.nokku-bak` is a safe account name. Rollback of
  every file and whole files, on every host without stray backups, hold if and only
  if no reported account is named like another one with `.nokku-bak` or `.nokku-tmp`
  appended (`ManualSync.NamesDecide`). With `alice` and `alice.nokku-bak`, a rejected
  sync gives `alice` the principals planned for the other account
  (`ManualSync.RejectedSyncMixesAccounts`). With `alice` and `alice.nokku-tmp`, one
  that had to update `alice` deletes the second account's file
  (`ManualOverlap.RollbackDeletes`).
- For names that do not overlap, rollback is exact if and only if no leftover
  `.nokku-bak` with other content stands beside a file that already has its planned
  content (`ManualSync.SyncRollsBack`), and no file is ever seen torn or foreign, at
  any point of any number of cut-off runs, if and only if no stray backup was there
  before (`ManualSync.SyncStaysWhole`).
- After any cut-off attempts an accepted sync ends where an uninterrupted one ends if
  and only if every staged copy that a sync would leave belongs to a file that no
  attempt ever changes, whatever the names (`ManualSync.SyncRecovers`). On a host
  without staged copies it always does. A file is changed by an attempt if its name,
  or that of a file it is the staged copy of, is another one's backup
  (`ManualRecovery.BackupNotInPlace`), or a rollback finds other content in its backup
  (`ManualRecovery.OverwrittenNotInPlace`).
- A reported account named like another reported account with `.nokku-bak`
  appended always ends without a principals file, because the cleanup of the
  other account removes it (`ManualSync.SyncGivesGrants`). Every other reported
  account gets exactly its principals.
- A host key file whose last line has no newline swallows the marker after it. The
  sync then knows of no principals file and removes none
  (`ManualPlan.UnterminatedKeys`, `ManualSync.UnlistedStays`). A passwd file without
  one makes the probe fail (`ManualPlan.UnterminatedPasswd`).
- Aliases collide if and only if a target whose own name is unshared and claimed by
  the user's config is named like the id of one whose name is shared
  (`HostNames.AliasesAreDistinct`). Any three ids give such targets
  (`HostNames.AliasCollision`).
- Removing the Include line gives the file back if and only if it was there and did
  not begin with an empty line (`IncludeEdit.RemoveUndoesEnsure`).
- A certificate whose end lies beyond 2^63-1-62135596800 seconds, "forever"
  included, is never accepted, because Go's seconds wrap
  (`Certs.BeyondLastSecond`). A fresh certificate has more than half of its life
  left if and only if its lifetime fits a Go duration (`Certs.FreshHasHalfLeft`).
- `nk proxy` renews a certificate that does not cover a newly granted account on
  every connection of an outage: that renewal neither looks at the last failure nor
  records its own, so it pays the timeout each time. `nk proxy` keeps 30 seconds
  from the last failure if and only if the snapshot has the target and, where it
  gets as far as the certificate, that one works and covers every account
  (`Backoff.ProxySpacing`). `nk prepare` does so if and only if it has nothing to
  renew or the certificate still works (`Backoff.PrepareSpacing`). Without cached
  data a failed sync is not recorded at all (`Backoff.FailureIsRemembered`).
- A sign-in takes a token whatever the error field of the answer says: an HTTP success
  with `access_token` "t" and `error` "access_denied" signs in with "t"
  (`DeviceLogin.TokenDespiteError`, and exactly when in `DeviceLogin.TokenIsTaken`).
- A sign-in without an expiry keeps the old expiry, so the new session counts as
  valid only if the old expiry is unset or ahead (`Session.State.EnsureSession`).
- Sessions and targets stay with their server if and only if the stored session
  belongs to the stored server and a snapshot with targets carries its `Server`
  field (`Session.IsolationIsExact`). The targets of a snapshot without it are shown
  to any server but the stored one and their own, after one kill between the two
  writes of a save (`Session.LegacySnapshotLeaks`).

## Model

| member | source | states |
|---|---|---|
| ManualScript.UpdateRun | internal/manual/script.go:101-116 | the states one file's backup, stage and rename pass through |
| ManualOverlap.ScriptEnd | internal/manual/script.go:86-123 | how every run ends, by the answers of the two checks, whatever the names |
| ManualScript.StrayBackupBreaks | internal/manual/script.go:96-98 | for names that do not overlap, each stray backup makes an attempt whose cut-off leaves a file that is neither old nor planned |
| ManualRecovery.CutResumes | internal/manual/script.go:101-116 | after a cut anywhere in the updates, whatever the names, the next run writes what the first would have written |
| ManualRecovery.RecoveryIsExact | internal/manual/script.go:101-123 | every accepted run after any cut-off attempts ends like an uninterrupted one, exactly when every staged copy that a run leaves belongs to a lasting file |
| ManualRecovery.BackupNotInPlace | internal/manual/script.go:120 | after an accepted run a file named like another one's backup is not as planned at its turn |
| ManualRecovery.OverwrittenNotInPlace | internal/manual/script.go:96-98 | nor is one over which a rollback moved another content |
| ManualOverlap.RollbackMixes | internal/manual/script.go:96-119 | a rejected run moves what was planned for the file named like a backup over the other file |
| ManualOverlap.RollbackDeletes | internal/manual/script.go:96-119 | a rejected run deletes the file named like a staged copy |
| ManualPlan.Script | internal/manual/script.go:86-123 | the loops emit the program the theorems are about |
| ManualPlan.NewPlan | internal/manual/script.go:64-81 | the files and stale paths of a plan; what sshd reads from them is ManualSshd's |
| ManualPlan.ParseProbe | internal/manual/manual.go:60-85 | the host read from the probe, refused without a host key |
| ManualPlan.ProbeReadsHost | internal/manual/manual.go:36-85 | what the probe command prints for each section is read back, blank lines aside, sections never mixed |
| ManualPlan.UnterminatedKeys | internal/manual/manual.go:36-81 | a host key file without its last newline hides the whole listing |
| ManualPlan.UnterminatedPasswd | internal/manual/manual.go:36-85 | a passwd file without its last newline makes the probe fail |
| ManualPlan.LocalAccounts | internal/manual/manual.go:89-105 | the loop over passwd, sorted, compacted and capped |
| ManualPlan.AccountsAre | internal/manual/manual.go:87-105 | accounts are safe login accounts in strict order, at most 200, and where one is missing there are 200 before it in the order |
| ManualPasswd.LineReports | internal/manual/manual.go:87-101 | a passwd line reports its first field exactly when that is a safe name, the third is zero or a number from 1000 on, and the seventh a login shell |
| ManualPasswd.NoUidNoReport | internal/manual/manual.go:97-100 | a line whose third field is no number reports nothing |
| ManualPasswd.NegativeReportsNothing | internal/manual/manual.go:97-100 | nor does one with a negative number |
| ManualPasswd.AtoiReadsDecimals | internal/manual/manual.go:97 | a number is read as it is written, with its sign, exactly when 64 bits hold it |
| ManualPasswd.RenderedInOrder | internal/manual/manual.go:122-132 | a principals file is the strictly ordered lines of what is granted, in whatever order and however often that is listed |
| Sorting.SortUniqueCorrect | internal/manual/manual.go:102-103 | sorting and compacting keeps exactly the elements |
| Sorting.StrictlySortedUnique | internal/manual/manual.go:102-103 | no other sequence is sorted, compact and has these elements |
| ManualSync.PlanDisjoint | internal/manual/script.go:64-81 | a plan's names do not overlap exactly when no account is named like another's backup or staged copy |
| ManualSync.RenderedIsGranted | internal/manual/manual.go:122-132 | reading a rendered principals file gives exactly the non-empty granted principals |
| ManualSync.SyncGivesGrants | internal/manual/script.go:61-81 | after an accepted sync a reported account's file lists exactly its grants, or is missing exactly when the name is another one's backup |
| ManualSync.SyncDeniesOthers | internal/manual/script.go:75-79 | a safe name that was not reported has no principals file afterwards |
| ManualSshd.SshdTrustsTheKey | internal/manual/script.go:61-71 | after an accepted sync the drop-in names, as TrustedUserCAKeys, a file that holds exactly the lines of the given key |
| ManualSshd.ProbeToGrants | internal/manual/manual.go:36-132 | from the text of the probe, for every safe name: the file that the drop-in sends sshd to lists exactly the grants of a reported account, and is missing for any other name |
| ManualSync.UnlistedStays | internal/manual/script.go:75-79 | where the probe listed nothing, the file of an account that is gone stays |
| ManualSync.SyncLeaves | internal/manual/script.go:101-123 | what an accepted sync leaves of every file, whatever the names |
| ManualSync.NamesDecide | internal/manual/script.go:83-123 | rollback of every file, and whole files, on all hosts without stray backups: each exactly for names that do not overlap |
| ManualSync.RejectedSyncMixesAccounts | internal/manual/script.go:96-119 | a rejected sync of `a` and `a.nokku-bak` gives `a` the other account's principals and the other one what `a` had |
| ManualSync.SyncRollsBack | internal/manual/script.go:96-119 | a rejected sync fails and touches nothing else; for names that do not overlap it leaves no backup and restores every file exactly under the leftover condition |
| ManualSync.SyncStaysWhole | internal/manual/script.go:113-114 | for names that do not overlap, files stay whole through any cut-off attempts exactly when no stray backup was there |
| ManualSync.SyncRecovers | internal/manual/script.go:83-123 | crash recovery of a sync under its exact condition, whatever the names, and what the condition is on a host without staged copies and for names that do not overlap |
| ManualSync.RejectedRemovalChangesNothing | internal/manual/script.go:24-36 | a rejected removal changes nothing exactly when no backup of the drop-in was there |
| ManualSync.RemovalUndoesSync | internal/manual/script.go:24-45 | on a clean host an accepted removal after an accepted sync gives the original files back |
| Quoting.QuoteRoundTrip | internal/manual/script.go:161-163 | the shell reads a quoted string as the one word it came from |
| Quoting.QuotedListRoundTrip | internal/manual/script.go:92-97 | the quoted list of a for loop splits back into the same paths |
| Quoting.NkNewSplits | internal/manual/script.go:96-112 | unquoted $nk_new splits into the noted paths exactly when none is empty or has a blank |
| Quoting.PlanPathsArePlain | internal/manual/manual.go:111-120 | every path of a plan is a non-empty word of plain characters |
| TargetCommands.Operator.ApplyPlan | internal/cmd/target.go:235-252 | Nokku is told of a sync exactly when the script worked, with every file of the plan as planned or gone with the backups |
| TargetCommands.Operator.Probe | internal/cmd/target.go:145-174 | a sync goes on exactly when the probe worked, the host key is unchanged or accepted, and every grant has its account |
| TargetCommands.Operator.CheckHostKey | internal/cmd/target.go:176-190 | a key that differs from the pinned one stops the sync unless it is accepted |
| TargetCommands.Operator.TargetSync | internal/cmd/target.go:62-143 | exactly when a sync succeeds, what Nokku hears of it and in which order; a dry run and a refused probe change nothing |
| TargetCommands.Operator.TargetDelete | internal/cmd/target.go:290-337 | exactly when a target is deleted: with its host cleaned or kept on purpose |
| TargetCommands.AcceptedIsWritten | internal/cmd/target.go:245-252 | a script that succeeded has written the whole plan, whatever the names |
| TargetCommands.RemovedIsCleaned | internal/cmd/target.go:290-323 | a removal that succeeded left no CA, drop-in or principals |
| TargetCommands.RunCommands | internal/cmd/target.go:235-337 | the order holds over all runs of commands |
| DialRace.Proxy | internal/ssh/proxy.go:35-92 | exactly which targets are refused, and the race of all others |
| DialRace.RunRace | internal/ssh/proxy.go:43-91 | the select loop computes the race for every sequence of events |
| DialRace.EveryEndpointIsDialed | internal/ssh/proxy.go:47-58 | every endpoint is in the race from the start, unless the relay is forced, and nothing else but the relay |
| DialRace.ConnectionWins | internal/ssh/proxy.go:78-89 | the first connection that is received wins and leaves the missing results to the drain |
| DialRace.FailureIsRecorded | internal/ssh/proxy.go:78-91 | a failed dial is reported, and ends the race exactly when it was the last one and no relay is to come |
| DialRace.RelayIsInTime | internal/ssh/proxy.go:59-65 | 300 ms into an open race of a daemon target the relay has started or can |
| DialRace.RelayJoins | internal/ssh/proxy.go:70-77 | a relay that can start does, and is dialed like any other |
| DialRace.LoserIsClosed | internal/ssh/proxy.go:94-101 | a connection that comes after the winner is closed |
| DialRace.CloseLosers | internal/ssh/proxy.go:94-101 | the drain takes the missing results |
| DialRace.PendingIsMissing | internal/ssh/proxy.go:48-81 | pending is dials launched minus results taken, and something can always make progress |
| DialRace.FailureReportsEveryDial | internal/ssh/proxy.go:67-91 | a failed race has one error per dial, exactly one of them the relay's for a daemon target |
| DialRace.NoSenderLeftBehind | internal/ssh/proxy.go:53-101 | whoever offers a result is still awaited by the loop or the drain |
| DialRace.EveryConnectionEnds | internal/ssh/proxy.go:86-101 | every opened connection is piped or closed once the drain is done |
| DialRace.RelayDiscipline | internal/ssh/proxy.go:36-65 | no relay for a manual target, none before the head start unless nothing is outstanding, then at once, and forced relay dials nothing else |
| DialRace.RelayStartsOnce | internal/ssh/proxy.go:69-88 | the relay starts at most once and never after a winner |
| DialRace.LoopIsBounded | internal/ssh/proxy.go:67-90 | the loop takes at most one pass per dial and two for the relay |
| AgentSocket.OneOwner | internal/ssh/agent_unix.go:33-42 | at most one process is between lock and unlock |
| AgentSocket.LiveOwnsPath | internal/ssh/agent_unix.go:43-60 | a live agent's own socket is the one at the path, and there is one live agent |
| AgentSocket.NobodyUnlinksALiveSocket | internal/ssh/agent_unix.go:33-47 | a live agent's socket leaves the path only by its own close |
| AgentSocket.LateCloseIsHarmless | internal/ssh/agent.go:91-93 | closing a listener again, from any source, never touches the path |
| AgentSocket.NextAgentTakesOver | internal/ssh/agent_unix.go:31-61 | after its owner died the lock is free, and the next agent replaces the socket left at the path |
| AgentSocket.SecondAgentGivesUp | internal/ssh/agent_unix.go:33-42 | beside a live agent a second one ends and changes nothing |
| AgentSocket.Kernel.ListenAgent | internal/ssh/agent_unix.go:31-61 | it succeeds exactly when nobody held the lock and its calls worked, whatever runs in between, and leaves nothing behind otherwise |
| AgentSocket.Kernel.Close | internal/ssh/agent_unix.go:25-29 | after a close the process holds no lock and its socket is not at the path, whatever other processes and other closers do meanwhile |
| OwnLine.ConfigLine | internal/ssh/own.go:117-153 | the tokenizer loop |
| OwnLine.LineReads | internal/ssh/own.go:117-153 | every line of a keyword, a blank or equals sign, and words of plain and quoted text is read as exactly those words, whatever blanks, comment or open quote follows |
| OwnLine.SilentLines | internal/ssh/own.go:120-123 | blank lines and comments say nothing |
| OwnConfig.MatchHosts | internal/ssh/own.go:155-173 | the index loop over a Match line |
| OwnConfig.MatchLineHosts | internal/ssh/own.go:155-173 | from a Match line as written exactly the patterns of its host criteria are taken, in lower case |
| OwnConfig.Matches | internal/ssh/own.go:43-60 | no negated pattern matches and some other one names the host |
| OwnConfig.PatternRules | internal/ssh/own.go:43-60 | what one more pattern does to a list: negated, of wildcards only, or naming the host |
| OwnConfig.GlobAppend | internal/ssh/own.go:46-60 | a pattern matches a name in parts, each part its share |
| OwnConfig.GlobChar | internal/ssh/own.go:46-60 | what `*`, `?` and a plain character match |
| OwnConfig.ReadingIsBounded | internal/ssh/own.go:77-115 | on any file graph reading ends, takes at most 256 files and nests at most 16 deep |
| OwnConfig.FlatPassIsBlocksOf | internal/ssh/own.go:91-106 | the left-to-right pass gives the blocks an independent right-to-left reading gives |
| OwnClaims.FileClaims | internal/ssh/own.go:32-106 | a file without includes claims a name exactly when a Host or Match line names it and a line of the same block says where to connect |
| OwnClaims.IncludeSplices | internal/ssh/own.go:77-115 | an Include line stands for the lines of its file, within 256 files and 16 levels and unless that is nk's own |
| OwnClaims.IncludesApart | internal/ssh/own.go:107-115 | several arguments, and several files of one argument, are read one after the other |
| OwnReader.Reader.Read | internal/ssh/own.go:62-115 | what reading does to the shared blocks is one flat pass over the inlined lines, the active block always the last one |
| OwnReader.ReadOwnHosts | internal/ssh/own.go:69-75 | the user's config read from the top, within the budget |
| HostNames.Claimed | internal/ssh/own.go:32-41 | the user's config sends a name somewhere itself |
| HostNames.HostAliases | internal/ssh/config.go:49-77 | the alias map the loops fill |
| HostNames.AliasesAreTotal | internal/ssh/config.go:43-77 | exactly the usable targets have an alias: the bare name when unshared and unclaimed, else the name, or the id where the name is shared, behind `nokku/` |
| HostNames.UsableMeans | internal/ssh/config.go:22-28 | which names and accounts go into the config, character by character |
| HostNames.AliasesAreDistinct | internal/ssh/config.go:49-77 | aliases are distinct, ignoring case, exactly when no target with an unshared name that the user's config claims is named like the id another one falls back to |
| HostNames.AliasCollision | internal/ssh/config.go:68-71 | for any three UUIDs, three targets of which two get the same alias |
| SshConfig.RenderSshConfig | internal/ssh/config.go:79-115 | the blocks written for the targets with an alias |
| SshConfig.AliasResolves | internal/ssh/config.go:79-115 | for an alias ssh finds exactly one Host line and takes every option from that block |
| SshConfig.OthersGetNothing | internal/ssh/config.go:79-115 | a host that is no alias gets nothing |
| SshConfig.GeneratedConfigResolves | internal/ssh/config.go:79-115 | an alias, in any case, gets all twelve options of its target and no other, and runs that target's prepare command alone |
| SshConfig.ValueRoundTrip | internal/ssh/config.go:185-189 | a quoted value is read back as it was |
| IncludeEdit.ConfigFile.EnsureInclude | internal/ssh/config.go:196-212 | the line goes on top once, or the file stays as it is |
| IncludeEdit.ConfigFile.RemoveInclude | internal/ssh/config.go:214-235 | every include line goes, or the file stays as it is |
| IncludeEdit.ConfigFile.Has | internal/ssh/config.go:237-250 | whether some line is the include line |
| IncludeEdit.EnsureIsIdempotent | internal/ssh/config.go:196-212 | ensuring includes the file and twice is as once |
| IncludeEdit.IncludeIsFirst | internal/ssh/config.go:196-212 | the line becomes the first one and names nk's file, and the rest stays |
| IncludeEdit.IncludeForms | internal/ssh/config.go:247-250 | which lines count as the include, with and without quotes |
| IncludeEdit.RemoveUndoesEnsure | internal/ssh/config.go:196-235 | removing after ensuring gives the file back exactly when it exists and does not begin with an empty line, and an empty file where there was none |
| IncludeEdit.RemoveIsComplete | internal/ssh/config.go:214-245 | after removal the file is not included, for every input |
| Session.IsolationHolds | internal/state/state.go:132-153 | over every interleaving of processes, writes, switches, failures and kills, session and targets in memory come from the server in use |
| Session.LoadedStateOk | internal/cmd/cmd.go:104-108 | loading from consistent files gives an isolated state for the server asked for |
| Session.SaveLoadRoundTrip | internal/state/state.go:120-153 | what Save wrote is what the next command for that server loads |
| Session.KilledBetweenWrites | internal/state/state.go:145-153 | a kill between the two writes loses at most a foreign snapshot |
| Session.LegacySnapshotLeaks | internal/state/state.go:93-95 | from any files with a snapshot without its server, a switch killed between its two writes shows the targets to any other server |
| Session.IsolationIsExact | internal/state/state.go:93-153 | no run of any processes breaks isolation, exactly when the stored session and a snapshot with targets carry their server |
| Session.State.Load | internal/cmd/cmd.go:93-108 | loadState from the two files and the flag |
| Session.State.LoadCache | internal/state/state.go:132-143 | a snapshot of another server is never used |
| Session.State.Save | internal/state/state.go:145-153 | config then snapshot, with kills and other processes in between, keeps the files consistent |
| Session.State.MarkSyncFailed | internal/state/state.go:155-163 | the stamp in memory and on disk |
| Session.State.EnsureSession | internal/client/login.go:40-90 | when a sign-in happens and is saved, when it expires and when it counts as valid |
| Session.State.SyncOnce | internal/client/client.go:145-167 | when a request is made, which outcome each answer and each failing write or cleanup gives, and what becomes of the snapshot |
| Session.State.SignInAgain | internal/client/client.go:122-127 | a rejected session is replaced by one sign-in and one more request, and exactly when that succeeds |
| Session.State.Sync | internal/client/client.go:105-128 | exactly when a sync succeeds, when its second and third request are made, and the snapshot of the last one on success |
| Session.ValidSessionSyncs | internal/client/client.go:105-128 | the three routes to a sync with a session that holds, and what makes it fail |
| Session.NoSessionNoSync | internal/client/client.go:145-148 | without a session a sync needs a sign-in that is saved |
| Session.State.SyncOrCache | internal/client/client.go:130-143 | a fresh snapshot exactly when the sync succeeds, else a stamped cached one exactly when it has data, else an error |
| Backoff.Snapshot.Connect | internal/cmd/proxy.go:52-152 | the two commands over any connections, and their spacing when access and certificates are in order |
| Backoff.Snapshot.Prepare | internal/cmd/proxy.go:126-152 | exactly when nk prepare renews, in real time differences, and what it records |
| Backoff.Snapshot.Proxy | internal/cmd/proxy.go:52-91 | exactly when nk proxy syncs and when it renews, and what it records |
| Backoff.ConnectionAsks | internal/cmd/proxy.go:52-152 | what one more connection asks of the backend after any others, each attempt exactly where it is due |
| Backoff.AttemptsAreSpaced | internal/cmd/proxy.go:54-91 | over any connections in order no attempt starts within 30 s of the last recorded failure, and a successful sync clears it |
| Backoff.OutageCostsOneAttempt | internal/cmd/proxy.go:19-26 | during an outage each attempt starts 30 s or more after the one before ended |
| Backoff.PrepareSpacing | internal/cmd/proxy.go:126-152 | nk prepare keeps the spacing exactly when it has nothing to renew or the certificate works |
| Backoff.ProxySpacing | internal/cmd/proxy.go:52-91 | nk proxy keeps it exactly when the target is known and the certificate it gets to works and covers |
| Backoff.FailureIsRemembered | internal/client/client.go:130-143 | a failed sync is recorded exactly when there is cached data |
| Certs.CoversAll | internal/ssh/certs.go:95-106 | the search loop finds a principal for every account |
| Certs.ValidMeansInWindow | internal/ssh/certs.go:38-64 | a certificate passes exactly when the CA signed it and now is in its window |
| Certs.BeyondLastSecond | internal/ssh/certs.go:108-110 | ends beyond the last second Go holds are never accepted |
| Certs.FreshIsValid | internal/ssh/certs.go:66-93 | fresh implies valid with no margin and covering |
| Certs.FreshMeans | internal/ssh/certs.go:66-106 | fresh exactly when every account is covered, the CA signed it, it has started and more than half of its lifetime is left |
| Certs.FreshHasHalfLeft | internal/ssh/certs.go:66-81 | fresh leaves more than half of the lifetime, exactly for lifetimes that fit a duration |
| GoTime.TimestampsExact | internal/ssh/certs.go:108-110 | which timestamps survive the conversion |
| Certs.CertStore.EnsureCert | internal/client/client.go:182-217 | what one call puts on disk and when it succeeds |
| Certs.GoodAnswerIsKept | internal/client/client.go:182-217 | a good answer replaces a certificate that is missing, of another CA, or past half of its lifetime |
| Certs.CertStore.EnsureCerts | internal/client/client.go:182-217 | repeated calls, with any answers, put nothing but checked certificates on disk |
| Certs.OnlyCheckedCertificates | internal/client/client.go:182-217 | over any calls the certificate on disk is the first one or one that was valid when checked |
| DeviceLogin.PollDeviceToken | internal/client/login.go:118-210 | the loop computes the run for every sequence of events |
| DeviceLogin.SignInEnds | internal/client/login.go:134-208 | what each answer does to a sign-in that its answers kept going so far, and one request per answer |
| DeviceLogin.ApprovalSignsIn | internal/client/login.go:134-208 | after any number of "not yet" answers, each waited for, a token signs in |
| DeviceLogin.WaitsGrow | internal/client/login.go:127-192 | each wait is the first one plus 5 s for every slow_down answer before it |
| DeviceLogin.WaitEnds | internal/client/login.go:201-208 | a wait ends with the ticker, the context or the 15 minutes |
| DeviceLogin.RequestsAreBounded | internal/client/login.go:134-208 | after k ticks at most 2(k+1)+1 requests, at most one proof retry |
| DeviceLogin.IntervalGrows | internal/client/login.go:127-192 | the interval is the first one plus 5 s per slow_down |
| DeviceLogin.IntervalFits | internal/client/login.go:127-130 | a positive interval is honoured exactly when it fits a duration |
| DeviceLogin.TokenIsTaken | internal/client/login.go:146-148 | a token is granted exactly when an awaited answer without a transport error and read as JSON has one, for every error code |
| DeviceLogin.RetriesAreNamed | internal/client/login.go:162-187 | between two requests of a run there is a tick, or the first of them was the one nonce retry since the last tick or the one proof retry |
| RelayStream.Stream.Read | internal/client/relay.go:62-87 | what goes into the buffer is what leaves the stream, the end only when nothing is left |
| RelayStream.Stream.Drain | internal/client/relay.go:62-87 | with buffers of any sizes the bytes come out in order, none lost, none twice, and enough buffers reach the end |
| RelayStream.StreamMeans | internal/client/relay.go:62-87 | the bytes of a stream are those of its data messages up to the first other one, and only a close ends it cleanly |

## Left out

- The text of the scripts apart from quoting and field splitting: the emitted program is modelled as commands, with `for` loops over fixed lists unrolled. `mkdir`, `chmod`, the echo lines, the reload and the `sshd -T` marker change no file content and are not modelled.
- Directories, symlinks, permissions and owners on the host: a host is its regular files. `rm -rf` of the principals directory is one step, so only the end of a removal is claimed, not what a crash inside it leaves.
- A crash between the removal's rename and its cleanup leaves the drop-in's backup, and a second removal does not look for it.
- Changes on the host between probe and script by anyone else.
- What sshd does with options or comments inside a principals line.
- The shell's other expansions and the commands' exit codes beyond file operations that fail because a file is missing. Any other failing command stops the script like a crash does, because of `set -e`.
- Network and RPC calls, TLS trust, CA prompts, TPM and Secure Enclave keys: they are arbitrary outcomes. "Signed by this CA" is equality of the signer with the CA's key.
- `pipe` and the copying between ssh and the connection, endpoint address parsing, the Windows named-pipe agent, alias resolution through `ssh -G`.
- EnsureAgent's wait for the agent it starts, the idle timer's reset and the keyring that the agent reloads: a shutdown from any source is an arbitrary event.
- The agent lock file itself being deleted while an agent runs, as a logout that removes the config directory would.
- Bracket classes and backslashes in ssh config patterns. Case folding is ASCII.
- `~` and relative paths of Include arguments: which files an argument names is an arbitrary function. Files that are not regular or are over 1 MiB count as absent.
- Partly decoded JSON: a config or snapshot that cannot be read counts as missing.
- The `Path` of the certificate files and the clean-up of certificates of removed targets, known_hosts, `nk ls`, `nk doctor`, grant lookups, CA selection and target lookup.
- Clocks are arbitrary instants. A sign-in's expiry is added without Go's overflow.
- SshConfig.RenderSshConfig: the file is modelled as its directives, not as text, because how ssh unquotes each value is ssh's own matter.
- DialRace.Proxy: cancelling the context shows only as dials that return errors.
