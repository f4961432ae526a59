# CasaOS: protocols that hold over every run

A model of the parts of the core that promise something over every order of events, with proofs of those promises.
`dafny verify dfyconfig.toml` checks all of it.

- **The upgrade of the operating system.** The file `current` says which run is the latest. `UpgradeFlag` has the flag of an open upgrade and the half-minute look that
  keeps it, alone and beside anything else. `UpgradeStart` has starts and their undoing write by write, with the core
  lost between any two. `UpgradeAbort` has any number of calls to stop, beside the driver of the unit. `UpgradeLaunch`
  has the log in which an attempt's number is taken before its unit is asked for. `RunChecksums` has the sums that say
  whether a run folder is the one that was written, and `PlanJob` the slot of the job that makes the plan.
- **Copying and moving files.** `FileQueue` has the queue, its lock and the goroutines around it; `FileMove` the loop
  that moves the items of one request.
- **Updating Docker.** `DockerMarkers` has the reader that reduces a log to its markers; `DockerHold` the unit, a shell
  script, and the holds of packages.
- **Shares.** `Shares` and `ShareMerge` have the rows and the fold of rows of one folder; `TextLines`, `SambaConfig`,
  `SambaAccess` and `SambaRefresh` the Samba configuration written, what it grants, read back and compared, and what a
  change means for the clients.
- **Automatic updates.** `UpdateWindow` has the nightly window and the search in it; `AutoUpdate` the decision and the
  state file; `AutoUpdateRuns` checks, crashes and the owner's changes over a whole run.
- **Alerts and uploads.** `Alerts` and `Upload`.

What an object of the core changes in place is a class here, and its methods are proved against functions of the state
before; the functions are then the steps of a machine, and the main results are about every run of it. Steps are the
sections under a lock, or single reads and writes where there is none or where the core may be lost in between.

Where the code does not do what it is meant to on every input, the exact condition is proved, and an input that fails is
shown:

- a move that overwrites can lose an item, exactly when an item of the request lies under the target of another, or two
  have one name and so one target (`FileMove.KeptExactly`, `FileMove.OverwriteCanLoseAnItem`);
- a line of 65536 characters or more ends the reading of the shares' configuration (`SambaRefresh.ReadsBackExactly`);
- a look that judges the machine or starts a unit, and so ends the hold of its run, leaves the flag up until the next
  look (`UpgradeFlag.OneLookSettles`);
- the clear after a failed launch takes the flag of a run that holds the machine, exactly when the current file names
  one by then: the run itself, when its log could not be told, or a newer one (`UpgradeStart.ClearIsRightExactly`,
  `UpgradeStart.ClearLowersItsOwn`, `UpgradeStart.ClearLowersAnothers`);
- a caller that decided on a launch before the log grew past what is read of it is given a number that is not new,
  exactly when an attempt is past that part (`UpgradeLaunch.NumberIsNewExactly`, `UpgradeLaunch.LongLogRepeats`); a
  caller that decides afterwards is refused;
- the Docker unit does not put back the hold of a package that was held and never installed, and puts back one that the
  owner lifted during the download (`DockerHold.HoldsSurviveExactly`, `DockerHold.HoldsThatChange`).

And where a comment or a format says less or more than the code:

- the comment on `osUpgradeForgetDeadStart` speaks of a start cut short between the first two lines of its log; the
  current file is written after both, so it never names such a run (`UpgradeStart.CurrentNamesWholeLogs`);
- a call to stop that is refused can have stopped the driver: one of the two sees the other, and when both do is
  `UpgradeAbort.RefusedCallStops`;
- the members column holds no name with white space or a colon (`Shares.MembersRoundTrip`). That is a limit of the
  column: the accounts that members are made of have names of `[a-z_][a-z0-9_-]{0,30}` (service/samba_user.go:38-48).

## Model

| member | source | states |
|---|---|---|
| `UpgradeFlag.Engine.DropStrayFlag` | service/system_os_upgrade_settle.go:269-281 | With no run named the flag is down afterwards; with one named when the current file is read again, nothing changes |
| `UpgradeFlag.Engine.HoldUnread` | service/system_os_upgrade_settle.go:490-505 | Puts up a flag that is down for a run that cannot be read, and never replaces one that is up |
| `UpgradeFlag.Engine.ForgetDeadStart` | service/system_os_upgrade_settle.go:227-255 | Takes current file and flag away only when, read again, the current file names this run and its log is still one first line that is waited for no more |
| `UpgradeFlag.Engine.KeepFlagLocked` | service/system_os_upgrade_settle.go:300-330 | Only for the run that is still named: up when it was read as holding the machine, down when it also does not hold it as read again, else untouched |
| `UpgradeFlag.Engine.Forget` | service/system_os_upgrade_settle.go:508-517 | Current file and flag of a closed run go, only while the current file names it |
| `UpgradeFlag.Engine.SettleOnce` | service/system_os_upgrade_settle.go:156-222 | A look with nothing beside it, section by section, with the boot it notes and the launch or the verdict it makes, does what the look function says |
| `UpgradeFlag.LookSays` | service/system_os_upgrade_settle.go:227-330 | What one look makes of flag and current file, by what the reducer says of a run that can be read: up in its name for one that is busy, or idle and not closed; down for one that is neither; current file and flag gone for one that is closed, and for a start that never began and is waited for no more |
| `UpgradeFlag.KeepingSays` | service/system_os_upgrade_settle.go:300-330 | The same of the part under the lock, for a state read before: lowered only when the second reading says so too |
| `UpgradeFlag.LookDoes` | service/system_os_upgrade_settle.go:195-222 | What it makes of a busy run: a boot that the log has not seen is noted, then the one thing that is next is done, and no other run is touched |
| `UpgradeFlag.NewStartHolds` | pkg/osrun/reduce.go:455-470 | A run with no attempt holds the machine until it is waited for no more, and longer while its files or a unit speak against it |
| `UpgradeFlag.NewStartKeepsFlag` | service/system_os_upgrade_settle.go:283-299 | In every interleaving, from a start until its first attempt no look takes its flag away while it is waited for |
| `UpgradeFlag.OneLookSettles` | service/system_os_upgrade_settle.go:154-222 | From any state of the files, one undisturbed look makes the flag present exactly when the current file names a run that holds the machine or cannot be read: if and only if it does not act on a run that held the machine, by a launch whose lines or a verdict whose file ends that hold |
| `UpgradeFlag.TwoLooksSettle` | service/system_os_upgrade_settle.go:426-461 | When it did end it, the next look makes the flag right, whatever that one does |
| `UpgradeFlag.MoveSpares` | service/system_os_upgrade_settle.go:227-330 | A step of a look that lowers the flag does so with no run named, or one that then and there does not hold the machine, is closed or gone, or is a start that never began |
| `UpgradeFlag.LooksSpareWhatHolds` | service/system_os_upgrade_settle.go:288-330 | In every interleaving with anything else that takes no closing back, no look removes the flag of a run that the current file names and that holds the machine as its folder then reads |
| `UpgradeStart.Starter.OpenRun` | service/system_os_upgrade_begin.go:100-144 | The writes of a start, in order, and what takes them back when one fails |
| `UpgradeStart.Starter.AbandonLocked` | service/system_os_upgrade_begin.go:154-175 | The writes that take a start back, by what the current file names once its folder is gone |
| `UpgradeStart.OpenedRunIsWhole` | service/system_os_upgrade_begin.go:114-143 | A start that goes through is named by the current file with both lines in its log and its flag up, and changes no other run |
| `UpgradeStart.OpenedRunKeepsFlag` | service/system_os_upgrade_begin.go:100-144 | The next look after a start keeps its flag, unless so much time has passed that no attempt is waited for |
| `UpgradeStart.PreparesExactly` | service/system_os_upgrade_begin.go:60-77 | The second locked part takes the number exactly when the launch may be prepared and the current file still names the run, and then closes the run before in its log; else the start is taken back |
| `UpgradeStart.ReturnsExactly` | service/system_os_upgrade_launch.go:238-261 | The log is told of a unit that did not start exactly when it did not and can be told, and only then a clear is to come |
| `UpgradeStart.ClosesExactly` | service/system_os_upgrade_begin.go:177-200 | A close leaves its word in the log, no current file and no flag; letting go of an unreadable run touches nothing of it |
| `UpgradeStart.BrokenStartUndoes` | service/system_os_upgrade_begin.go:122-142 | A start that breaks at any of its writes leaves the current file and every run as found, and the flag down |
| `UpgradeStart.AbandonSparesOthers` | service/system_os_upgrade_begin.go:154-175 | Taking a start back changes no other run, and leaves current file and flag alone when the current file names a run that is neither this one nor the one before |
| `UpgradeStart.SafeWritesKeep` | service/system_os_upgrade_begin.go:129-142 | Any sequence of safe writes, cut anywhere, keeps every run that was ever named with a whole log |
| `UpgradeStart.StepKeepsInv` | service/system_os_upgrade_begin.go:35-98 | Every step of every start, close, look and crash keeps that |
| `UpgradeStart.CurrentNamesWholeLogs` | service/system_os_upgrade_begin.go:22-24 | Through every crash between two writes, the current file never names a run whose log is not whole, so no run that a look would forget as one that never began |
| `UpgradeStart.ClearIsRightExactly` | service/system_os_upgrade_begin.go:86-92 | In every reachable state in which a launch has failed, the clear leaves the flag right if and only if the current file then names nothing or a readable run that does not hold the machine; else it names this run or a run opened since, and the next look or the one after it puts the flag back |
| `UpgradeStart.ClearLowersItsOwn` | service/system_os_upgrade_launch.go:257-260 | A run in which the log could not be told that the unit did not start, and the clear takes the flag of the run itself |
| `UpgradeStart.ClearLowersAnothers` | service/system_os_upgrade_begin.go:86-92 | A run in which another start goes in before the clear, which takes its flag |
| `UpgradeAbort.CallHandlesFlag` | service/system_os_upgrade_abort.go:55-81 | A call makes the flag only when there is none, removes only its own, and keeps it when it decides to stop the unit |
| `UpgradeAbort.FlagStops` | pkg/osrun/driver.go:88-102 | A driver that finds the flag before the point of no return does not go on into the block |
| `UpgradeAbort.StepKeepsInv` | service/system_os_upgrade_abort.go:39-93 | What every step of any call, of the driver and of a crash keeps: one owner of the flag at most, and no owner that saw nothing past while the driver is past |
| `UpgradeAbort.NeverStoppedPast` | service/system_os_upgrade_abort.go:39-44 | The unit is never stopped once the driver passed its look at the flag for the minimal upgrade (or the upgrade of a refresh), and after a decision to stop it never goes there |
| `UpgradeAbort.RefusedLeavesNoFlag` | service/system_os_upgrade_abort.go:76-81 | With no call under way and none that decided, no flag is left, unless the core was lost |
| `UpgradeAbort.OneCallAtATime` | service/system_os_upgrade_abort.go:55-69 | A call makes the flag exactly when none is under way and none decided; another is told that one is |
| `UpgradeAbort.CallIsDecided` | service/system_os_upgrade_abort.go:71-81 | In every run, by what the log and the files said when they were read: a call is refused and takes its flag away exactly when the unit is not running, the run ended, a block began that cannot be called off, or it is past the point of no return; else it goes on to stop the unit, with its flag |
| `UpgradeAbort.CallIsCarriedOut` | service/system_os_upgrade_abort.go:83-93 | A call that goes on ends called off, its flag stays, and after a stop that works there is no driver |
| `UpgradeAbort.DecisionStops` | service/system_os_upgrade_abort.go:85-88 | After a stop that does not work the next look of the driver at the flag is its last |
| `UpgradeAbort.OneIsCalledOff` | service/system_os_upgrade_abort.go:45-93 | A run in which a call stops the unit |
| `UpgradeAbort.FindsItBegun` | service/system_os_upgrade_abort.go:71-81 | In every run, whatever comes between its steps, a call that makes its flag once the driver has passed never stops the unit, and takes the flag away as it ends |
| `UpgradeAbort.FlagExactly` | service/system_os_upgrade_abort.go:55-81 | The flag is there exactly while a call that made it is not over, and from a decision to stop on, unless the core was lost |
| `UpgradeAbort.RefusedCallStops` | service/system_os_upgrade_abort.go:41-44 | In every run, a call that is refused stopped the driver all the same if and only if the driver looked at the flag between its making and its removal, and before the point of no return |
| `UpgradeAbort.BothMaySee` | service/system_os_upgrade_abort.go:41-44 | Such a run |
| `UpgradeLaunch.Engine.LaunchPrepareLocked` | service/system_os_upgrade_launch.go:156-233 | The lines added to the log, the answer and the counter, for every refusal, a log too long to read among them, and every way a write ends |
| `UpgradeLaunch.PreparedExactly` | service/system_os_upgrade_launch.go:156-233 | A launch is prepared exactly when the run can be read, the machine can start units, systemd answered that none runs, no attempt is on its way or the log is too long to say, the run is open, the log takes the phase, the files verify, the list is there and written, and the line appended; a unit that runs is answered as busy; and what the log is told when it is refused |
| `UpgradeLaunch.AdmittedExactly` | service/system_os_upgrade_launch.go:187-198 | A number is admitted exactly while the run is undecided, has numbers left and takes this phase next, and it is one more than counted |
| `UpgradeLaunch.BegunExactly` | service/system_os_upgrade_launch.go:130-155 | In the machine a launch joins those under way exactly then, with its line the last of its log, and never beside a unit that runs |
| `UpgradeLaunch.Engine.LaunchAttempt` | service/system_os_upgrade_launch.go:130-261 | One launch from its lock to its end, with whatever others append meanwhile: the counter is back where it was, systemd-run is called once exactly when the launch was prepared, and with a number it was never called with when the part of the log that is read shows every attempt |
| `UpgradeLaunch.UndecidedIsTheSame` | pkg/osrun/reduce.go:217-318 | A reading of the log that finds the run undecided counts the same attempts whatever the machine and the clock say |
| `UpgradeLaunch.AdmittedIsNew` | service/system_os_upgrade_launch.go:187-198 | A number that is admitted is one more than the log counts, and is counted once its line is there |
| `UpgradeLaunch.StepKeepsInv` | service/system_os_upgrade_launch.go:130-261 | What every step of every launcher, of the units and of a crash keeps |
| `UpgradeLaunch.NumberIsNewExactly` | pkg/osrun/marker.go:363-377 | An admitted number is new to the whole log, and counted in it once its line is there, if and only if the part of the log that is read shows every attempt and no end of the run is past it |
| `UpgradeLaunch.LoggedAndCounted` | service/system_os_upgrade_launch.go:130-155 | In every run, with logs of any length: a number is in the log of its run before systemd-run is called with it, and the counter is the number of prepared launches that have not returned |
| `UpgradeLaunch.AtMostOnce` | service/system_os_upgrade_launch.go:130-155 | In every run in which the parts of the logs that are read show every attempt, systemd-run is called at most once for each number of a run |
| `UpgradeLaunch.LongLogRepeats` | pkg/osrun/marker.go:363-377 | Whatever length is read, a run of the system from its start in which two callers that decided on a log of just that length have the unit of one number started twice |
| `FileQueue.Queue.Enqueue` | route/v1/file.go:775-787 | A new id goes to the end of the queue with its record, and the first of an empty queue asks for a start |
| `FileQueue.Queue.ExecOpFile` | service/file.go:236-251 | Registers and starts the head exactly when nothing is registered and it is there with no outcome |
| `FileQueue.Queue.CancelFileOperate` | service/file.go:207-234 | What is cancelled leaves queue and records, its operation is told to stop, and a new head asks for a start |
| `FileQueue.Queue.FileOperateTasks` | service/notify.go:92-151 | What is told of every entry, finished ones a last time; those leave, and a new head asks for a start |
| `FileQueue.Queue.Finish` | service/file.go:112-131 | The end of an operation, panics included: it is deregistered, its outcome stored only if it is still there, and a start asked for |
| `FileQueue.Queue.StoreProgress` | service/file.go:285-291 | Progress changes sizes and nothing of the outcome, and brings nothing back |
| `FileQueue.StepChangesTask` | service/file.go:207-234 | What each step makes of each task: a cancel takes exactly those it names, a notifier those that have an outcome, progress changes the sizes of its own, and nothing else any |
| `FileQueue.CancelStops` | service/file.go:224-231 | A cancel tells exactly the operations of what it names to stop |
| `FileQueue.EndStoresOutcome` | service/file.go:112-158 | In every run, the end of an operation whose task is still queued stores its items and its own first error, or that it panicked |
| `FileQueue.OutcomeComesFrom` | service/file.go:112-131 | An outcome comes from the end of the own operation, or was there as the task arrived |
| `FileQueue.DroppedAsItEnded` | service/notify.go:126-136 | A task that a notifier drops was told as failed with the error its operation ended with, or as done when that had none |
| `FileQueue.TellsEveryTask` | service/notify.go:107-147 | A notifier tells every task in order, with its size, as not begun, under way, failed or done |
| `FileQueue.StepKeepsInv` | service/file.go:109-295 | Every step of the machine of calls, operations and notifiers keeps the invariant |
| `FileQueue.OneAtATimeAndNoLostWakeUp` | service/file.go:236-251 | In every state of every run one operation at most is registered, one that is still stopping included; an idle queue whose head has no outcome has a start pending, which starts it; and a notifier looks while anything is queued |
| `FileQueue.StartsInOrderAndOutcomesStay` | service/file.go:285-291 | Starts happen in order of arrival, each once; a stored outcome stays until it leaves, and what left never comes back |
| `FileQueue.LeavesCancelledOrReported` | service/notify.go:126-136 | An entry leaves only by a cancel that names it or after a notifier told its outcome |
| `FileMove.Disk.RemoveAllNoCross` | pkg/utils/file/guard.go:73-102 | A removal changes nothing outside its path, and clears it when it says so |
| `FileMove.Disk.MoveItem` | service/file.go:167-191 | One item, however its operations end: skipped, cleared over, renamed, or copied and removed |
| `FileMove.MovingIsFair` | service/file.go:167-191 | However they end, in every state on the way, the middle of an operation included, the item is whole at its source or its target and nothing else is touched; skipped means at its source, no error at its target |
| `FileMove.MovesExactly` | service/file.go:167-191 | When an item is moved, whether it is skipped and which error a mount and a copy give; one that is moved is at its target exactly as it was, and nothing is left at its source |
| `FileMove.TurnTells` | service/file.go:145-205 | A turn tells whether its item was skipped, and the task keeps the first failure that came before it was told to stop |
| `FileMove.Disk.MoveItems` | service/file.go:159-205 | The loop over any items, with its cancel and its first failure, takes the turns that the lemmas are about |
| `FileMove.RunIsSound` | service/file.go:159-205 | After any number of turns: items to come are where they were, the others whole at their source or, with no item to come under it, at their target, in every state so far |
| `FileMove.KeptExactly` | service/file.go:161-175 | For a request, whatever happens in the loop every state keeps every item whole at its source or target, and a task that reports no failure left each where it says: if and only if targets that are there are skipped or, overwriting, no item lies under the target of another and no two have one target |
| `FileMove.OverwriteCanLoseAnItem` | service/file.go:161-175 | A request that passes the check and can lose an item |
| `DockerMarkers.Turn` | service/system_package_docker_run.go:563-585 | One turn of the bounded reader: what is kept of a fragment, and what is left to collect |
| `DockerMarkers.MarkerExactly` | service/system_package_docker_run.go:555-562 | The markers are the lines that begin with the prefix and fit the buffer whole |
| `DockerMarkers.CollectDockerMarkers` | service/system_package_docker_run.go:555-585 | For every content and buffer, the reader gives the first line cut to the buffer and the whole marker lines that fit |
| `DockerMarkers.WindowsArePlain` | service/system_package_docker_run.go:541-553 | The two windows of a long log, one after the other, are a plain pass over its lines: in order, each once |
| `DockerMarkers.ReadDockerMarkers` | service/system_package_docker_run.go:520-553 | The whole reader, over a log that grows while it is read, against the plain pass |
| `TextLines.ScannedWritten` | service/shares_refresh.go:84-95 | Scanning written lines gives them back, up to the first that is too long |
| `TextLines.FindsLine` | service/shares_refresh.go:72-82 | A whole line is found by searching for it between new lines exactly when it is one of the lines |
| `SambaConfig.SambaSection` | service/shares_samba.go:37-98 | The text of a section is its lines, for guest and protected shares |
| `SambaAccess.AccessIsWhole` | service/shares_samba.go:23-98 | What the lines of a section say of guests, of writing, of masks and of the owner: a protected share has no guest access in any of them |
| `SambaAccess.GrantsExactly` | service/shares_samba.go:66-98 | The section of a protected share lets in exactly its members and lets write exactly those with write access, if and only if no name has white space |
| `SambaConfig.SambaShareSections` | service/shares_refresh.go:66-97 | The scanning loop gives the sections of the lines, by lower-cased name, later ones winning |
| `SambaConfig.PrintedParses` | service/shares.go:180-194 | Reading back any list of shares gives their sections in order, whole up to a line that is too long for the scanner |
| `SambaRefresh.ReadsBackExactly` | service/shares_refresh.go:64-97 | With names of their own, every share has its entry, with its name, section and Time Machine flag, and there is no other: if and only if every line fits the scanner |
| `SambaRefresh.ChangedSambaShares` | service/shares_refresh.go:28-41 | The differ, by key over both tables |
| `SambaRefresh.ChangedNamesExactly` | service/shares_refresh.go:28-41 | The names told are exactly those of the shares whose section changed or went, never an added or unchanged one |
| `SambaRefresh.SameAsRendered` | service/shares_refresh.go:84-94 | Sections compare as the same exactly when they are rendered the same, when no value ends in white space |
| `SambaRefresh.TimeMachineSharesChanged` | service/shares_refresh.go:43-58 | True exactly when the sets of Time Machine keys differ |
| `SambaRefresh.TimeMachineKeysExactly` | service/shares_samba.go:40-54 | Those keys are the ones of the shares with the flag |
| `SambaRefresh.Server.Refresh` | service/shares_refresh.go:99-129 | When it works, the server has the new configuration and no session stays on a changed share; sessions on others stay when a reload is enough |
| `Shares.MembersRoundTrip` | service/model/o_shares.go:47-78 | The column gives back the members it was written from, in order, if and only if their names have no white space and no colon, and with no members the row has no account to fall back on |
| `Shares.MemberListIsPlain` | service/model/o_shares.go:47-62 | Members that were read can be written back exactly when the column listed them or the account fallen back on has such a name |
| `Shares.SpacedNameIsLost` | service/model/o_shares.go:52-56 | An account with a space in its name comes back as two others |
| `ShareMerge.MergeDuplicateShares` | service/shares.go:368-414 | The fold over the rows, with its index, is the one that the lemmas are about |
| `ShareMerge.FoldPartitions` | service/shares.go:368-414 | Each row is kept, with its id, when it is the first of its folder, and folded away when it is not, both in order; no folder keeps two |
| `ShareMerge.FoldGivesUnionExactly` | service/shares.go:384-411 | A kept row lets in exactly those whom a row of its folder let in, with write access if one gave it: if and only if its folder has one row or the column can hold the names its rows list |
| `ShareMerge.FoldKeepsRest` | service/shares.go:405-411 | Time Machine if a row of the folder had it, and the first account that owned one, for all rows |
| `ShareMerge.FoldIsGuestExactly` | service/shares.go:405-411 | A row that others were folded into is a guest share exactly when no row of its folder had an account |
| `ShareMerge.FoldIsIdempotent` | service/shares.go:368-414 | Folding again changes nothing and removes nothing |
| `ShareMerge.NewlyProtected` | service/shares.go:416-438 | The two loops give the kept rows that are protected now and were not |
| `ShareMerge.ProtectedByFold` | service/shares.go:416-438 | After a fold these are exactly the folders whose oldest row was a guest share and another row of which has an owner |
| `UpdateWindow.OccurrencesAreApart` | pkg/autoupdate/decide.go:86-117 | An occurrence lasts an hour at least and is over before the next opens |
| `UpdateWindow.InWindowExactly` | pkg/autoupdate/decide.go:86-117 | A time is in an occurrence exactly when its time of the day is in the window, past midnight included |
| `UpdateWindow.EarliestIsEarliest` | pkg/autoupdate/decide.go:119-134 | The search gives the least time from the given one that is in an occurrence with no attempt, over all days |
| `UpdateWindow.FindEarliest` | pkg/autoupdate/decide.go:119-134 | The loop ends within four turns with that time |
| `AutoUpdate.StartsExactly` | pkg/autoupdate/decide.go:41-77 | A start is decided if and only if all the conditions of the design hold |
| `AutoUpdate.AimsExactly` | pkg/autoupdate/decide.go:41-66 | Whether a release may be aimed at at all |
| `AutoUpdate.TargetExactly` | pkg/autoupdate/decide.go:55-60 | The latest, unless it is not a day old and an older one that is is newer than what is installed |
| `AutoUpdate.ShownExactly` | pkg/autoupdate/decide.go:41-77 | Which of the five states is shown |
| `AutoUpdate.ShowsEarliest` | pkg/autoupdate/decide.go:67-76 | The time that is shown is the first at which the release is a day old and the window is free |
| `AutoUpdate.StateFile.Check` | pkg/autoupdate/autoupdate.go:156-172 | The check, with its early ends, starts exactly what the decision on all the facts says |
| `AutoUpdate.StateFile.Settle` | pkg/autoupdate/autoupdate.go:222-248 | A running attempt whose unit is over succeeds exactly when the installed release is the one attempted or newer |
| `AutoUpdate.ConcludedExactly` | pkg/autoupdate/autoupdate.go:222-265 | A running attempt whose unit is over has succeeded exactly when its release is reached, with no failures held; else it failed and is counted |
| `AutoUpdate.StateFile.Update` | pkg/autoupdate/state.go:148-174 | A change is applied, or refused and nothing written |
| `AutoUpdate.UpdatedExactly` | pkg/autoupdate/state.go:148-174 | A change that is accepted sets what it names, a resume clears the failures, and the rest stays |
| `AutoUpdate.StateFile.Fail` | pkg/autoupdate/autoupdate.go:250-265 | A failure is counted against its release, from one for another |
| `AutoUpdate.StateFile.Record` | pkg/autoupdate/autoupdate.go:186-192 | The attempt is saved before anything starts |
| `AutoUpdate.StateFile.TakeBack` | pkg/autoupdate/autoupdate.go:195-207 | An attempt that started nothing is put back |
| `AutoUpdate.TakingBackUndoes` | pkg/autoupdate/autoupdate.go:183-207 | After a busy start the file is what the owner made of it meanwhile, as if nothing was attempted |
| `AutoUpdateRuns.StepKeepsInv` | pkg/autoupdate/autoupdate.go:119-265 | What every step of checks, the owner and crashes keeps |
| `AutoUpdateRuns.BeginsExactly` | pkg/autoupdate/autoupdate.go:174-192 | In the machine an attempt is made exactly then, and is in the file before anything starts |
| `AutoUpdateRuns.ReturnsExactly` | pkg/autoupdate/autoupdate.go:193-220 | A start that worked leaves it, one that found the updater busy puts it back, one that was refused counts as a failure |
| `AutoUpdateRuns.OnlyWhatIsDue` | pkg/autoupdate/autoupdate.go:1-10 | In every run nothing starts that is under 24 hours old or against which two failures are held, and no release fails three times in a row without a resume |
| `AutoUpdateRuns.AtMostOneANight` | pkg/autoupdate/decide.go:119-123 | With a fixed window, at most one attempt that is not taken back is made in each of its occurrences |
| `DockerHold.Unit.RestoreHolds` | service/system_package_docker_script.go:115-136 | Ten tries at most, none once one worked; what it does to the holds and how often it tried |
| `DockerHold.Unit.Fail` | service/system_package_docker_script.go:71-73 | A run that fails puts the holds back, tells them if they were told, and ends with the one failure |
| `DockerHold.Unit.RefuseUnrestorableHolds` | service/system_package_docker_script.go:138-148 | Refuses exactly when a package that may be touched is on hold, installed, and would not be put back |
| `DockerHold.Unit.ReadHeld` | service/system_package_docker_script.go:184-204 | A list of held names is bad exactly when one is of a bad shape, twice there, or neither among the names nor the engine's |
| `DockerHold.Unit.Prepare` | service/system_package_docker_script.go:164-283 | Up to the install: it goes on exactly when what it was given is good, apt would do what was confirmed, the download works, and every hold it may drop is among those it puts back; and what is said otherwise |
| `DockerHold.Unit.Install` | service/system_package_docker_script.go:285-290 | The install and the hold right after it |
| `DockerHold.Unit.Conclude` | service/system_package_docker_script.go:291-341 | What follows: one more round of tries when the first did not work, and every marker that is said, in order |
| `DockerHold.LastMarksEnd` | service/system_package_docker_script.go:285-341 | Failed by the install exactly when that failed, by the daemon exactly when it answered neither time after one that worked, else success or a restart to come; the holds right before, and nothing else that ends |
| `DockerHold.Unit.Run` | service/system_package_docker_script.go:164-341 | One terminal marker, last, and which it is, for every run; the install is reached exactly when it may be; every package on hold and installed as the install began is on hold again when one try works, else twenty tries failed; nothing else is put on hold |
| `DockerHold.HoldsSurviveExactly` | service/system_package_docker_script.go:86-100 | The holds are as they were exactly when nothing was unpacked that was on hold and not installed, and the owner lifted none during the download |
| `DockerHold.HoldsThatChange` | service/system_package_docker_script.go:86-100 | A hold that is lost, and a lifted one that is put back |
| `PlanJob.Slot.Start` | service/system_os_plan.go:211-242 | The loop of a start, for whatever others store in each of its turns: the job is started in the first turn nobody interfered with, a running job found at the beginning of a turn is the answer, the machine is asked in the first turn only, and nothing but the started job is stored |
| `PlanJob.Slot.DropPlan` | service/system_os_upgrade_ack.go:162-167 | A plan that is live is dropped, and nothing else |
| `PlanJob.StepKeepsInv` | service/system_os_plan.go:211-292 | What every load, swap and store keeps |
| `PlanJob.StepsExactly` | service/system_os_plan.go:211-292 | A swap begins a job, or clears the plan, exactly when the slot still holds what was loaded; a job that ends leaves its outcome |
| `PlanJob.OneJobAtATime` | service/system_os_plan.go:206-292 | At most one job is live, the state is running exactly while one is and holds its handles, and a job replaces only what it stored |
| `Alerts.Hub.Raise` | pkg/alerts/alerts.go:208-249 | Sends, counts or ignores, and forgets old resolved records in its loop |
| `Alerts.Hub.Resolve` | pkg/alerts/alerts.go:251-267 | One resolution for an alert that was sent |
| `Alerts.SentExactly` | pkg/alerts/alerts.go:208-249 | Over every run: a raise goes out exactly when a channel is there and no message of its alert was sent in the six hours before, though old records are forgotten |
| `Alerts.ToldExactly` | pkg/alerts/alerts.go:251-267 | A resolution goes out exactly when a message was sent and it was not said to be over since |
| `Alerts.SentOrCounted` | pkg/alerts/alerts.go:190-267 | Over every run: two messages of one key are six hours apart though old records are forgotten, resolutions never exceed messages, and raises equal messages and counted repeats |
| `Upload.AcceptedExactly` | service/file_upload.go:85-88 | Which chunks are taken, in numbers, the one size at which the bound wraps included |
| `Upload.ChunkFits` | service/file_upload.go:85-88 | Every chunk that is taken begins within the file, with no overflow of 64 bits |
| `Upload.CountIsExact` | service/file_upload.go:86 | The bound on the count of chunks wraps for one size only |
| `Upload.ChunksAreApart` | service/file_upload.go:137 | Two chunks of one file do not overlap |
| `Upload.FileInfo.Finish` | service/file_upload.go:155-164 | The counter stays the number of marked chunks, and the upload is complete exactly when all are |
| `Upload.UploadService.Begin` | service/file_upload.go:85-135 | Refusals, and the record that a chunk gets, made for the first one |
| `Upload.UploadService.End` | service/file_upload.go:155-177 | The record goes when the file gets its name |
| `Upload.UploadService.TestChunk` | service/file_upload.go:41-70 | True exactly for a chunk that is recorded |
| `Upload.ArrivesExactly` | service/file_upload.go:85-135 | What becomes of a chunk that arrives, beside any others |
| `Upload.NamedExactly` | service/file_upload.go:155-177 | A file gets its name exactly when the chunk that is recorded is the last that was not marked |
| `Upload.NamedWhenWhole` | service/file_upload.go:155-176 | In every interleaving, chunks sent twice and later uploads of the name included, the counter is the number of marked chunks and a file is named only after the write of each of its chunks returned |
| `RunChecksums.SplitWritten` | service/system_os_upgrade_dir.go:308 | Splitting the sums as they are written gives their lines |
| `RunChecksums.ParsesLine` | service/system_os_upgrade_dir.go:72 | A line of a sum and a name is read as that sum and name |
| `RunChecksums.LineReadsExactly` | service/system_os_upgrade_dir.go:72 | A line is read exactly when it is the one of 64 digits and the path of a file of a run |
| `RunChecksums.CoveredExactly` | service/system_os_upgrade_dir.go:262-289 | The covered files are the driver, the name of the backup folder and the blocks of the kind, read up to the first byte past a mebibyte |
| `RunChecksums.WriteRun` | service/system_os_upgrade_dir.go:181-246 | The folder with its sums last, or nothing |
| `RunChecksums.VerifyRun` | service/system_os_upgrade_dir.go:291-345 | Accepts if and only if the sums name exactly the covered files, once each, with their current hashes, and the blocks folder holds nothing else |
| `RunChecksums.WrittenIsIntact` | service/system_os_upgrade_dir.go:248-269 | A freshly written folder verifies, exactly when it was given no block that its kind does not have |
| `RunChecksums.ChangesAreSeen` | service/system_os_upgrade_dir.go:291-345 | Whatever becomes of the folder, it verifies exactly while every covered file is what was written, as far as it is read, and nothing was put beside the blocks |
| `RunChecksums.FarChangesAreNotSeen` | service/system_os_upgrade_dir.go:285-345 | Two folders that differ only past the part of their files that is read verify together or not at all |

## Left out

- HTTP routes, tokens, the message bus, the database, logging, refusal texts and status shapes: they carry what is modelled and decide nothing of it.
- The real file system, systemd, apt, dpkg, Docker and Samba: their answers are parameters, or steps that may go either way. A write of one file is whole or not at all.
- What the reducer makes of an open run that has had an attempt, beside its attempts and its stop: a parameter of `UpgradeFlag`, `UpgradeLaunch` and `UpgradeAbort`.
- The first look of a call to stop, which can refuse it before it makes its flag: in `UpgradeAbort` it always goes on to the flag, and is refused, if it is, after it has read the run again.
- The inside of `osplan`, `osverify`, `modulecmd` and the driver's blocks and unwinding.
- The put-away of a finished backup (`moveOSUpgradeFolder`) and the pruning rule of old runs: a run that is not named may be removed at any time.
- Time zones and daylight saving: every day has 1440 minutes, and release times and the window are on one clock. A box that never attempted anything has no last attempt here, not one in the year one.
- A state file, a current file or a log that something else damages. Corruption of the current file is in the looks, not in the starts.
- FileMove.Disk.MoveItem: what a copy finds in a folder (links that point outside, entries that are no files) is one of the errors it may end with.
- Links and bind mounts: two paths of `FileMove` name one file only when they are equal.
- SambaRefresh.ChangedSambaShares: gives a set of names where the code sorts them; the order only says whose sessions are closed first.
- Time.Parse of clock texts and publication times, and the comparison of versions.
- `FileOperate` called directly, the copy branch of the loop over items, and the sizes that `CheckFileStatus` measures.
- Alerts that are waited for (`wait`), their sentences and their delivery.
- UpgradeFlag.LooksSpareWhatHolds: whether a run holds the machine is judged with what systemd told the look, as the code does, and not with what it would say at that moment.
- UpgradeLaunch.AtMostOnce: for runs in which the part of each log that is read shows every attempt; without that it is false (`UpgradeLaunch.LongLogRepeats`), and whether one number is new turns on exactly that (`UpgradeLaunch.NumberIsNewExactly`).
- UpgradeStart.StepKeepsInv: the clean-up of a start that breaks, and a close, may be cut short anywhere by a crash but do not have single writes that fail and are only logged.
- DockerHold.Unit.Run: the owner may hold and lift packages until the second look at the holds, not between it and the end; dpkg's answers are taken as right.
- FileMove.KeptExactly: for items that are there as the task begins and none of which is another or lies in it, which the check at the route does not ask for. Of two nested items the inner one has a third place to be, in the outer one's target.
- UpgradeFlag.Engine.SettleOnce: the flag and the current file are written when they are to be; a write of theirs that fails, and the pruning of old runs, are left out.
- SambaConfig.SambaSection: text is characters, so the limit of the scanner counts characters where the code counts bytes.
- RunChecksums.WriteRun: the metadata, the plan and the owner's text of the folder are not among its files here, as no sum covers them.
- Upload.NamedWhenWhole: which file the rename finds, when a late chunk of an older upload ends after a newer one of its name began.
