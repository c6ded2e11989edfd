# SEER PCAP evacuation: a verified model

SEER captures packets with tcpdump into a ring directory. A timer-driven mover takes one oldest closed file per
tick to an attached drive or, without a drive, to a backlog directory. A hot-swap daemon watches for a drive,
drains the backlog onto it with copy, verify, delete, and keeps a manifest, a transfer log and a state file.

This project models that pipeline as one transition system over a small file system and proves what holds in
every run of it. tcpdump, the mover, the daemon and an operator who attaches and detaches volumes act one system
call at a time, in any order. Any call of the two programs may fail; a copy may be partial or corrupt; mtimes may tie;
either program may be killed at any point. Each promise is proved to hold if and only if a stated condition does.

## Layout

| file | content |
|---|---|
| `Files`, `Names`, `Sorting`, `Hashing` | files and volumes, name order, stable sort, chunked hashing |
| `OldestFirst` | the mover's sorted first-closed scan |
| `Pipeline`, `Frames` | the transition system: capture, mover, `transfer_file`, `export_batch`, `main_loop`, volumes; what steps leave alone |
| `Order` | the ring stays in capture order and the mover aims at its old end |
| `Safety`, `Guarantees`, `QuietMoves` | the invariant on contents; no capture lost, active file untouched, first in first out, every tick has work |
| `Deliveries`, `Captures` | what the mover takes, when, and where it arrives; captures hold their packets and carry the time of the last one |
| `Manifests`, `Transfers`, `Batches`, `Logs` | final copies, true manifests, justified deletion, batch accounting, transfer logs |
| `Destinations`, `Histories`, `Draining` | what is at a destination, why a file was moved or skipped, that a finished batch has written; a working batch drains the backlog |
| `RingBound`, `RingGrowth` | arrivals against ticks; when the ring is bounded |
| `Reach`, `Limits`, `Losses` | runs of a fresh sensor; each promise holds if and only if its condition does |
| `Totals`, `MainLoop` | what the loop counts against what happens |
| `Locking`, `Detection`, `DriveRanking` | single instance, drive detectors, console ranking |
| `Schedules`, `Hotswap`, `MoveOldest` | the two programs as imperative code, proved to be paths of the transition system |

`dafny verify dfyconfig.toml` checks everything.

## Assumptions

`Pipeline.Admissible` states what the environment owes in every run. `Pipeline.Config` holds facts about the host, and
`Order.Cautious` and `Safety.Dependable` are the conditions on it that theorems ask for; `Limits` and `Losses` show that
each is needed.

- A new capture file has an unused name, and rotations are at least one clock value apart.
- `Config.ties` says whether a rotation can fall on the clock value of the last write to the old file. Unless it is set,
  the clock has moved since that write.
- `Config.sharedDevice`: ring and backlog are on one device.
- `Config.moverRenames` and `Config.daemonRenames`: a rename within one device by that program does not raise. Whenever a
  rename does raise, `shutil.move` copies and unlinks, and the copy may fail half way (`Pipeline.MoverOwed`,
  `Pipeline.TransferOwed`).
- `Config.moverExact` and `Config.moveExact`: a copy that the mover makes, or that the daemon's `shutil.move` falls back
  to, holds what was read (`Pipeline.MoverCopiesExactly`, `Pipeline.MoveCopiesExactly`). Nobody verifies these copies.
  The copies that the daemon does verify are arbitrary.
- The two files that a transfer compares do not collide under the digest. SHA-256 (section 6.2 of FIPS 180-4) is
  an arbitrary function otherwise.
- The pick of the mover is one step: one listing, one clock value. `OldestFirst.ScanKeepsOrderIff` says exactly how
  much clock drift during the scan is harmless.
- Clock values and mtimes are nanoseconds; a coarse clock moves by many of them at once.

Where documents and code differ, the model follows the code: the manifest is replaced by each batch and not merged
(Automation/SEER/seer_hotswap.py:163); the mover does not fall back to the backlog in the same run
(Automation/SEER/move_oldest.py:101-115); the logged size is read after the move, hence 0 for every success
(Automation/SEER/seer_hotswap.py:221); the backlog is drained only when a drive appears
(Automation/SEER/seer_hotswap.py:288-308).

## Findings

Each has a run of a fresh sensor or an empty host, or an input, that shows it.

- A capture is lost when the mover's move to the backlog comes to a copy, because ring and backlog are on different
  devices or the rename raises, and the copy fails half way: it leaves a fragment, the retry puts the whole file on the
  drive, and the daemon then exports the fragment over it (`Losses.FragmentOverwrites`).
- A capture is lost when a copy by the mover goes wrong (`Losses.BlindMover`), or a copy that the daemon's `shutil.move`
  falls back to, because a drive was attached meanwhile (`Losses.BlindMove`) or the rename raised
  (`Losses.BlindRename`). Automation/systemd/seer-hotswap.service:27 lists `/opt/seer/var` and `/mnt` as separate write
  paths; where these become separate bind mounts the rename raises although the devices compare equal.
- With threshold 2 and a coarse clock the mover can take the file being written (`Limits.TiedFileTaken`), and at any
  threshold a tie lets a capture be overtaken by the next one (`Limits.OvertakesOnTie`).
- With threshold 2 a tick can find no closed file (`Limits.NothingClosed`).
- A timer slower than the rotation lets the ring grow beyond any bound, one of the same period beyond what a faster one
  would keep it at (`RingGrowth.Grows`, `RingGrowth.OneAbove`). The wizard allows rotations from 5 seconds; the timer's period is 10.
- Swapping a volume under a running batch for one already written to that day puts a manifest where the listed files are
  not (`Losses.SwapFalsifies`).
- `total_exported` misses what a batch transferred before an exception escaped it (`Losses.TotalCanFallShort`).
- The lock does not exclude two daemons started at the same time, nor a second one that cannot signal the holder or cannot
  read the lock file (`Locking.RaceBreaks`, `Locking.DenialBreaks`, `Locking.UnreadableBreaks`).
- An instance that has found the lock file of one that is just exiting ends with an exception instead of taking over
  (`Locking.ExitReleases`).
- The console takes an unmounted disk whose file system it does not know for a mounted one
  (`DriveRanking.SeenUnmountedIff`).

## Model

| member | source | states |
|---|---|---|
| Guarantees.NoCaptureLost | Automation/SEER/seer_hotswap.py:122-156 | whatever a capture held when it was closed, at any point of any run, is at the end of the run in the ring, the backlog, a volume or a directory under a mount point, if moves to the backlog are renames and no file is deleted for an inexact copy that nobody verified |
| Captures.NoPacketLost | Automation/bin/seer-capture.sh:37-39 | the packets that arrived while a capture was being written, in order, are what is held of it at the end of every run, from its closing on |
| Captures.ActiveIsOpenFile | Automation/bin/seer-capture.sh:37-39 | over every run the file being written is the one tcpdump opened last, until it stops |
| QuietMoves.NoCaptureLostWhenQuiet | Automation/SEER/seer_hotswap.py:131-135 | the same with arbitrary copies by the daemon, where its renames within a device do not raise, for runs in which no volume is attached between the comparison of devices and the move |
| Losses.NoLossIff | Automation/SEER/seer_hotswap.py:131-150 | at a safe threshold, no capture is lost in any run if and only if ring and backlog share a device, the mover's renames there do not raise, it copies exactly, and the copies of the daemon's move are exact or the directories under the mount points are on another device |
| Losses.NoLossWhenQuietIff | Automation/SEER/seer_hotswap.py:131-135 | in runs with no volume attached between the comparison of devices and the move, the last condition can also be met by the daemon's renames not raising, and exactly then |
| Losses.FragmentOverwrites | Automation/SEER/move_oldest.py:106-115 | if a move to the backlog can come to a copy, because devices differ or the rename raises, a run of a fresh sensor loses a capture: a fragment in the backlog is exported over the good copy |
| Losses.BlindMover | Automation/SEER/move_oldest.py:101-115 | with inexact copies by the mover a run of a fresh sensor loses a capture |
| Losses.BlindMove | Automation/SEER/seer_hotswap.py:131-135 | with inexact copies by the daemon and bare directories on the local device a run of a fresh sensor loses a capture: the drive goes before the directory is made and is back for the move |
| Losses.BlindRename | Automation/SEER/seer_hotswap.py:131-135 | and without any attach if the daemon's rename raises |
| Order.StepKeepsOrder | Automation/SEER/move_oldest.py:66-96 | whatever fails and however files are copied, every step keeps ring mtimes in capture order with ties and gaps between neighbours at most, and the mover aimed at a least mtime that is not the active file |
| Order.RunKeepsOrder | Automation/SEER/move_oldest.py:83-115 | the same in every state of every run |
| Safety.StepKeeps | Automation/SEER/move_oldest.py:83-115 | every system call of every actor keeps the invariant: the order of the ring, the content of every closed capture held, targets and transfers in a justified position |
| Safety.RunKeeps | Automation/SEER/seer_hotswap.py:185-243 | the invariant holds in every state of every run |
| Safety.TransferKeeps | Automation/SEER/seer_hotswap.py:127-156 | each call of transfer_file keeps the invariant and touches no other file |
| Transfers.DeletionIsJustified | Automation/SEER/seer_hotswap.py:127-156 | on return, a failure has left the original in the backlog; success, or failure after the rename, means gone from the sensor and stored; a verified digest is that of the content |
| Transfers.SuccessIsAtDestination | Automation/SEER/seer_hotswap.py:131-156 | on a mount that was not swapped, success, or failure after the rename, means the volume mounted there, or else the directory, holds the original in the dated directory, the digest of a success is its digest, and the copy was verified exactly if a volume is mounted or the directory is on another device |
| Transfers.BadCopyIsRemoved | Automation/SEER/seer_hotswap.py:141-146 | over every run without a swap under the batch, a transfer about to unlink its copy has a copy of another digest at the destination; when the unlink succeeds exactly that file is gone and the source is still there |
| Destinations.DaemonDelivers | Automation/SEER/seer_hotswap.py:131-150 | over every such run a file leaves the backlog only by a call of its own transfer that succeeds, and its content is then in the dated directory at the mount point |
| Destinations.FailureLeavesNothing | Automation/SEER/seer_hotswap.py:141-156 | over every such run in which each call of a transfer comes back, whatever its copies hold, a failed transfer has left nothing at its destination |
| Destinations.DaemonCopyLeaves | Automation/SEER/seer_hotswap.py:131-138 | over every such run a copy by the daemon leaves at the destination what it has written, also if it breaks off, and the source in the backlog; the transfer fails at once exactly if it breaks off |
| Destinations.MoverCopyLeaves | Automation/SEER/move_oldest.py:111-115 | over every run without a swap under the mover, a copy by the mover leaves what it has written, also if it breaks off: in the dated directory of the drive, or in the backlog, there with the mtime of the source if it is complete |
| Destinations.NothingOutsideDirectories | Automation/SEER/seer_hotswap.py:128-128 | over every run no file and no manifest is anywhere but in a dated directory that was made |
| Guarantees.ActiveNeverTouched | Automation/SEER/move_oldest.py:66-96 | at a safe threshold, in every run the file tcpdump writes is not changed, moved or targeted by any call of either program, also when a rotation falls between the two listings or ties with a write |
| Limits.ActiveSafeIff | Automation/SEER/setup_wizard.py:269-274 | the active file stays in the ring in every run if and only if the threshold is at least 2, or 3 when rotations can tie with writes |
| Guarantees.MoverIsFifo | Automation/SEER/move_oldest.py:74-80 | at every point of every run a capture joins the queue at the back and the mover takes the front, or the second if the two tie; what has left is a prefix of the capture order but for one capture a place late; without ties exactly first in, first out and a prefix |
| Limits.AlwaysFifoIff | Automation/SEER/move_oldest.py:74-80 | at a safe threshold, every step of every run is first in, first out if and only if rotations cannot tie with writes |
| Guarantees.OldestLeaves | Automation/SEER/move_oldest.py:87-115 | removing a file of least mtime removes the head of the queue, or the second if the two tie |
| OldestFirst.PickIsOldest | Automation/SEER/move_oldest.py:66-80 | the pick is a file of least mtime that is 3000000000 ns old, earliest listed among equals; none exactly when every file is younger |
| OldestFirst.PickSettledIff | Automation/SEER/move_oldest.py:74-80 | the pick is the same for every listing of the ring if and only if no two closed files tie for the least mtime |
| OldestFirst.PickOldestClosed | Automation/SEER/move_oldest.py:74-80 | raises exactly when a listed file has vanished before the sort; otherwise the loop returns the first file of the sorted list found closed at its own look, a vanished one never |
| OldestFirst.ScanKeepsOrderIff | Automation/SEER/move_oldest.py:66-80 | with the clock read per file, the scan never skips the oldest file for any drift up to d if and only if the two oldest are at least d apart |
| Captures.MtimeIsLastPacket | Automation/SEER/move_oldest.py:101-115 | over every run in which no move to the backlog breaks off, every capture in the ring and, renamed or copied, in the backlog carries the time of its last packet |
| Captures.TakenAfterSilence | Automation/SEER/move_oldest.py:66-80 | over every such run the last packet of a file about to be moved is 3 seconds old, and that of a file under transfer one and a half rotations |
| Deliveries.OnlyQuietFilesLeave | Automation/SEER/move_oldest.py:66-72 | over every run, whatever is copied or fails, the file the mover is about to take has not been written to for 3000000000 ns |
| Deliveries.MovesAsSeen | Automation/SEER/move_oldest.py:98-109 | over every run the mover moves to the drive and date it saw last, or to the backlog if it saw none |
| Deliveries.PlaceIsAttached | Automation/bin/seer_console.py:240-259 | over every run a mount point leads to the volume attached there last, or underneath once that is detached |
| Deliveries.MoverDelivers | Automation/SEER/move_oldest.py:98-115 | over every run without a swap under the mover, a file leaves the ring only by a call that succeeds, and is then in the backlog with content and mtime, or in the dated directory of the volume at that mount point |
| Guarantees.TickAlwaysHasWork | Automation/SEER/move_oldest.py:87-96 | with threshold at least 3 and rotations QUIET_SECS apart, a tick that found the threshold met always has a file to move |
| Limits.AlwaysWorkIff | Automation/SEER/move_oldest.py:22-22 | with rotations QUIET_SECS apart, every tick that found the threshold met has work if and only if the threshold is at least 3 |
| RingBound.RingIsBounded | Automation/SEER/move_oldest.py:87-112 | the load, which is the ring less a file that a tick under way is about to take, is between start plus excess and the larger of that and threshold - 1 plus the worst suffix excess, and equals the latter from threshold - 1 up |
| RingBound.WorstIsLargest | Automation/systemd/seer-move-oldest.timer:5-7 | the running worst excess is the maximum of arrivals less ticks over all suffixes of the run |
| RingBound.StepLoad | Automation/SEER/move_oldest.py:87-112 | under the bound's conditions the load changes by one per capture and per tick that meets the threshold, and not otherwise |
| RingBound.FloorHolds | Automation/SEER/move_oldest.py:87-91 | in every run, whatever fails, a removal leaves at least threshold - 1 files |
| RingBound.OneRotationPerTick | Automation/systemd/seer-move-oldest.timer:5-7 | a tick between any two rotations keeps a load that starts below the threshold at or below it |
| RingBound.PunctualTimerBoundsRing | Automation/SEER/setup_wizard.py:246-251 | a tick less than a rotation interval before every rotation keeps the load at or below the threshold |
| RingBound.TimerBoundsRing | Automation/systemd/seer-move-oldest.timer:5-7 | with a timer faster than the rotation the load stays at or below the threshold, with one of the same period at most one above it |
| RingGrowth.RingBoundedIff | Automation/SEER/setup_wizard.py:246-251 | the load of a fresh sensor never exceeds the threshold, and its ring never the threshold by more than one, if and only if the timer is faster than the rotation; the ring is bounded at all if and only if the timer is no slower |
| RingGrowth.Grows | Automation/systemd/seer-move-oldest.timer:5-7 | with a timer slower than the rotation, for every bound the ring exceeds it in a run of a fresh sensor with a working mover |
| Manifests.EvacuatedCopiesAreFinal | Automation/SEER/seer_hotswap.py:122-156 | once a capture has left ring and backlog it never returns and no copy of it is ever changed or removed |
| Manifests.ManifestsStayTrue | Automation/SEER/seer_hotswap.py:159-171 | without swaps under a running batch every line of every manifest, complete or cut short, names a file in that directory with that digest, in every state of every run |
| Losses.AlwaysTruthfulIff | Automation/SEER/seer_hotswap.py:159-171 | manifests stay true in all runs of a fresh sensor if and only if volumes are not swapped under a running batch |
| Batches.BatchConserves | Automation/SEER/seer_hotswap.py:190-243 | a finished batch splits the backlog as it was listed, sorted, into skipped, succeeded and failed: every file that was there is one of these; log and counters match; succeeded files are gone; a listed file still in the backlog was skipped or failed; OK entries have size 0 |
| Batches.BatchOrigin | Automation/SEER/seer_hotswap.py:190-205 | over every run that starts outside a batch, the batch under way has an event that listed it, and the names in its listing are the names in the backlog at that event |
| Draining.BacklogDrains | Automation/SEER/seer_hotswap.py:205-243 | over every run without swaps in which the calls of the daemon work, a finished batch has no failures and has evacuated every file of the backlog as listed, except those written to within one and a half rotations when it looked at them |
| Batches.ManifestMatchesBatch | Automation/SEER/seer_hotswap.py:205-237 | after a completed write on an unchanged mount the manifest is exactly the transferred files, strictly sorted, each true |
| Batches.OnlySettledFilesMove | Automation/SEER/seer_hotswap.py:112-119 | in every run the source of a transfer was last written to at least one and a half rotations ago: 2 * age >= 3 * rotate_seconds * 1000000000 |
| Histories.MovedWasLookedAt | Automation/SEER/seer_hotswap.py:207-213 | over every run a file is transferred only after a look for that batch that could read its mtime and found it that old |
| Histories.SkippedWereYoung | Automation/SEER/seer_hotswap.py:207-210 | and conversely a file is skipped only because such a look, after the listing, failed or found it younger |
| Histories.BatchHasWritten | Automation/SEER/seer_hotswap.py:235-241 | over every run a finished batch with anything to report has made the call that appends to the log, after which, if it completed, that log and no other has gained exactly its entries; one that transferred anything has written its manifest before |
| Histories.ManifestIsLastBatch | Automation/SEER/seer_hotswap.py:159-171 | over every run a manifest holds the sorted lines, or first lines, of the batch that wrote it last, and one that no batch wrote is as it was |
| Logs.LogIsBatches | Automation/SEER/seer_hotswap.py:174-182 | over every run the log at any place is what it was, followed by the entries, or first entries, of balanced batches that wrote there, in order; every call that appended there has its piece, all entries if it completed |
| Logs.LogsStayTrue | Automation/SEER/seer_hotswap.py:216-225 | without swaps under a running batch every OK line of every log names a capture that has left the sensor, with the first 16 characters of the digest of what it held; every other line has no digest and the size of the capture, or 0 if it has left after all |
| Logs.LogsReportOnce | Automation/SEER/seer_hotswap.py:205-241 | over every run, on all volumes together, no capture is reported as transferred more than once |
| Names.SortNamesStrict | Automation/SEER/seer_hotswap.py:190-190 | sorting a duplicate-free listing gives the same names in strictly ascending order |
| Names.LtIff | Automation/SEER/seer_hotswap.py:190-190 | a name comes before another exactly if they agree up to a position where it ends or has the smaller character |
| Hashing.ComputeSha256 | Automation/SEER/seer_hotswap.py:103-109 | the 8192-byte loop ends and yields the digest of the whole content, from the update law alone |
| Hotswap.Process.TransferFile | Automation/SEER/seer_hotswap.py:122-156 | transfer_file as code is a path of the transition system that ends at a return, with the result that return stands for |
| Hotswap.Process.VerifyAndDelete | Automation/SEER/seer_hotswap.py:141-150 | digests are compared before the source or the bad copy is unlinked, as a path of the transition system |
| Hotswap.Process.ShutilMove | Automation/SEER/seer_hotswap.py:131-135 | rename or, whenever the rename raises, an unverified copy and an unlink, as a path of the transition system |
| Hotswap.Process.AttemptIsJustified | Automation/SEER/seer_hotswap.py:122-156 | the deletion guarantee, for what the code has just returned |
| Hotswap.Process.ExportBatch | Automation/SEER/seer_hotswap.py:185-243 | export_batch as code is a path of the transition system; its counts are the sizes of the batch's books, and on an exception the successes so far are known |
| Hotswap.Process.BatchIsBalanced | Automation/SEER/seer_hotswap.py:200-243 | the batch accounting, for the batch the code has just finished, against the backlog as the code listed it |
| Hotswap.Process.ListBacklog | Automation/SEER/seer_hotswap.py:190-192 | the batch gets every name that the directory yields, once, in strictly ascending order |
| Hotswap.Process.UnlinkTheCopy | Automation/SEER/seer_hotswap.py:144-146 | one call of the transition system; after an unlink that succeeds there is no file at the destination |
| Hotswap.Process.WriteManifestFile | Automation/SEER/seer_hotswap.py:159-171 | replaces the manifest by the sorted lines, or a prefix, on whatever the mount leads to |
| Hotswap.Process.AppendTransferLog | Automation/SEER/seer_hotswap.py:174-182 | appends the entries, or a prefix, on whatever the mount leads to |
| Hotswap.Process.IsFileActive | Automation/SEER/seer_hotswap.py:112-119 | true exactly if the mtime cannot be read or 2 * age < 3 * rotate_seconds * 1000000000 |
| Hotswap.Process.OnePass | Automation/SEER/seer_hotswap.py:281-318 | one pass changes total, last state and state file as the loop books say, and adds to the total what the transition system books |
| Hotswap.Process.MainLoop | Automation/SEER/seer_hotswap.py:262-318 | any number of passes is a path of the transition system and keeps the loop books; total plus the transfers of batches cut short is the number of transfers, equal exactly when none was cut short after a success; finished batches are the arrivals of a drive |
| MoveOldest.Process.Tick | Automation/SEER/move_oldest.py:83-115 | the mover script is a path of the transition system of at most six calls, back to sleep |
| MoveOldest.Process.PickTarget | Automation/SEER/move_oldest.py:74-96 | the second listing, sorted and scanned, gives the pick of the transition system |
| MoveOldest.Process.RenameOrCopy | Automation/SEER/move_oldest.py:101-115 | the move to drive or backlog, with its partial failures, is the transition system's |
| Schedules.PlayIsRun | Automation/SEER/seer_hotswap.py:262-318 | calls of one program with others acting in between are a run of the transition system |
| Schedules.RunIsPlayed | Automation/SEER/seer_hotswap.py:262-318 | conversely, any events of a run in which the daemon is not killed are calls of the daemon with others acting in between |
| Totals.TransfersAreAccounted | Automation/SEER/seer_hotswap.py:185-243 | over every run each successful return of transfer_file has been added to the total, belongs to a batch cut short, or to the batch under way |
| Totals.TotalIsRightIff | Automation/SEER/seer_hotswap.py:278-299 | at the top of the loop total_exported is the number of transfers since the daemon was last started if and only if no call that logs an attempt has raised since in a batch that had transferred something |
| Losses.TotalCanFallShort | Automation/SEER/seer_hotswap.py:216-243 | a schedule for the daemon of a fresh sensor after which its total is below the number of transfers |
| Totals.BatchesAreEdges | Automation/SEER/seer_hotswap.py:278-318 | over every run the batches that finished are the absent-to-present edges among the sightings of passes that ran to the end, whatever raised |
| Totals.CutShortIsRetried | Automation/SEER/seer_hotswap.py:310-318 | over every run, after an event that cut a batch short the next look that finds a drive starts a batch on it |
| MainLoop.TotalIsMonotone | Automation/SEER/seer_hotswap.py:278-299 | total_exported never decreases |
| MainLoop.TotalIsExports | Automation/SEER/seer_hotswap.py:288-308 | over any passes total_exported is what was exported by complete passes that saw a drive where the last complete pass had not, and last_drive_state what the last one saw |
| MainLoop.StateFileAgrees | Automation/SEER/seer_hotswap.py:246-259 | with writes succeeding the state file agrees with the loop from the first drive on and is untouched before |
| MainLoop.StateFileIsLastSaved | Automation/SEER/seer_hotswap.py:246-259 | whatever becomes of the writes, the state file holds what the last write that got through to it saw, and is spoiled if that was cut short |
| MainLoop.TimestampIffExported | Automation/SEER/seer_hotswap.py:288-308 | with writes succeeding last_export_ts is set exactly if the last complete pass saw a drive that was not there before and exported something to it |
| Locking.ExclusiveIff | Automation/SEER/seer_hotswap.py:49-74 | over all runs of starts, exits, crashes and reused ids, at most one instance is in main_loop if and only if starts do not overlap, live instances can be signalled and a lock file that names one can be read |
| Locking.UnreadableBreaks | Automation/SEER/seer_hotswap.py:52-62 | with starts apart and holders signalable, an unreadable lock file still lets a second instance in |
| Locking.RunKeeps | Automation/SEER/seer_hotswap.py:321-329 | under these conditions the instance in main_loop owns the lock and no newcomer gets past signalling it |
| Locking.ExitReleases | Automation/SEER/seer_hotswap.py:69-74 | over every run, under these conditions, an orderly exit leaves no lock file, and any instance that looks for one from then on gets into main_loop; one that had already found the lock file is lost |
| Locking.Host.AcquireLock | Automation/SEER/seer_hotswap.py:49-66 | run alone it succeeds exactly when there is no lock file or one that is unreadable, empty or names a process not live or not signalable, and is a sequence of the modelled calls |
| Detection.DetectExportTarget | Automation/SEER/seer_hotswap.py:77-100 | the first candidate that is mounted, writable and has enough space, with available * fragment free bytes, or none and 0 exactly when there is none |
| Detection.DetectExportDrive | Automation/SEER/move_oldest.py:38-63 | the first such candidate with today's directory, or none exactly when there is none |
| Detection.DetectorsAgree | Automation/SEER/move_oldest.py:38-63 | on one mount table and configuration both detectors find the same drive |
| Detection.PercentTest | Automation/SEER/seer_hotswap.py:89-95 | over exact numbers the percentage test is 100 * (available * fragment) >= minimum * (blocks * fragment), a zero total counting as 0 percent |
| Detection.FullAndEmptyDrives | Automation/SEER/seer_hotswap.py:89-95 | a drive with nothing available never has enough space for a positive minimum, and one with everything available does for any up to 100 |
| DriveRanking.ChooseDrive | Automation/bin/seer_console.py:268-336 | for every table of disks that prints as these lines, the chosen disk is not mounted, not sda, has an empty or one of nine file systems and is an sdb, removable or above 1000000000 bytes; an sdb is preferred, then a removable disk, then one with a file system, then the larger, then the earlier; none exactly when there is no such disk |
| DriveRanking.DigitsRoundTrip | Automation/bin/seer_console.py:278-278 | reading a printed size gives it back |
| DriveRanking.WordsOfRow | Automation/bin/seer_console.py:272-275 | splitting a printed row drops exactly its empty columns |
| DriveRanking.SeenUnmountedIff | Automation/bin/seer_console.py:282-296 | an unmounted row is seen as unmounted if and only if its file system is empty or known |

## Left out

- Curses rendering, key handling, themes and service status of the console: user interface with only easy properties.
- Actually mounting and unmounting (`act_toggle_mount` around the ranking), `act_clear` and the uninstaller: shell calls and deliberate deletion; the operator's volume changes are events of the model.
- Setup wizard, installer, capture, Zeek and link-wait scripts and systemd units: only their ranges, file naming and timer period are used.
- SHA-256 internals, YAML, JSON, logging handlers and timestamps: library behaviour.
- The difference between VERIFY_FAIL and IO_ERROR in the log: it rests on a substring of an exception message; entries are OK or not.
- Power loss and page-cache durability: a read of the destination reflects the volume; `os.sync` is not a step of its own.
- A manifest or log line cut in the middle: a failed write leaves whole lines.
- Python's floating point in the percentage test: exact numbers are used.
- Agent tracker, shipper, status API and JSON export: described in the requirements but not part of this code.
- Eventual draining while a drive stays attached: the code does not promise it; what one batch drains is `Draining.BacklogDrains`.
- Hotswap.Process.MainLoop: runs a given number of passes, because the endless loop itself has no result.
- Packets written to a file after the mover has taken it from the ring: the model drops them; at a safe threshold this does not happen.
- Losses.NoLossIff: asks for a safe threshold, because what a capture holds is recorded when it is closed in the ring.
- Manifests and logs that a volume brought along from another sensor: a fresh sensor starts without lines of its own, and the theorems on manifests and logs start from true ones.
