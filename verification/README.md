# cVisor supervisor: a verified model

cVisor runs untrusted programs as ordinary Linux processes and intercepts their system calls with
seccomp user notifications. A supervisor answers them from state of its own: a virtual file-descriptor
table beside the guest's kernel table, a copy-on-write overlay with whiteouts, captured output, and
exit bookkeeping. A daemon keeps a registry of sandboxes and sessions, snapshots overlays, and caches
directories as archives.

This project models that state and the code that changes it, and proves what the rest of the program
relies on. `dafny verify dfyconfig.toml` checks everything.

## What is here

| module | what it models |
|---|---|
| `FdProtocol` | the virtual fd table and the guest's kernel table, as one state; every handler, and the kernel's own run of a call the handler lets continue |
| `Processes`, `Forks` | the registry of guest tasks with its fork-time snapshots, and runs of many processes whose children are discovered late |
| `Paths`, `Whiteouts`, `Overlay`, `OverlayCalls`, `OverlayRuns` | path strings, the whiteout set, the three-layer file system, the system calls on it, and runs of them against one plain file map |
| `LogBuffers`, `SessionProtocol` | the output buffers, the stream loop, and one transition system of all threads of a session: reader, eight workers, watchdog, reaper, drainer, guest |
| `BlockingReads` | reads and receives that wait in slices and must end when the guest does |
| `Iovec` | gathering and scattering guest buffers through an iovec array that itself lies in guest memory |
| `Snapshot`, `SnapshotCalls` | the recursive tree copy on a flat disk map, and the snapshot calls, against a store of one tree a sandbox and one a snapshot |
| `Archive`, `SampleCodec`, `Cache` | the archive formats with the eStargz layout, a coder that meets what is assumed there, and the keyed disk cache |
| `Cgroups`, `Environment`, `Registry` | limit files, environment merging, and the registry with live reconfiguration |
| `FileData`, `Results` | bytes, what a link leads to, options and errno results |
| `ShellJoin` | joining an argument vector for a shell, against a reader that follows the shell's rules |

Operations that the program performs in place are methods of classes (`FdTable`, `Supervisor`,
`Threads`, `VirtState`, `Tombstones`, `LogBuffer`, `Storage`, `GuestMem`, `Session`, `Registry`, `Cgroup`,
`DiskCache`), each proved to compute a function of the old state; the properties are lemmas about those
functions and about runs of them. Random names, identifiers, times, scheduling, the kernel's choice of
fd numbers and the outcome of outside calls are arguments.

## Results that qualify what the source says

- `close_range`: the supervisor saturates its arguments where the kernel truncates them to 32 bits, so
  the tables stay related exactly when the two readings agree (`CloseRangeExact`); `WideArgumentParts`
  gives calls where they do not.
- Refused numbers: `dup2` and `dup3` ignore a refused `addfd`, so the tables stay related exactly when
  the target is below the limit (`DupOntoExact`); open, dup and pipe2 then track the file under a number
  the guest does not hold (`RefusedOpenExact`; for every call, `StepExact`).
- `fcntl(F_DUPFD)` of a tracked file ignores the minimum asked for; the copy is where Linux would put it
  exactly when the number granted reaches that minimum (`StepIsNative`).
- `ioctl(FIOCLEX)` and `FIONCLEX` run in the kernel only; they keep the tables related exactly when they
  do not change the flag (`StepExact`). For fds 0 to 2 the same holds of `F_SETFD`
  (`StandardStreamsExact`, `StdioIsNotTracked`).
- A child is registered at its first intercepted call and takes its parent's oldest snapshot, whichever
  clone that was for. All processes stay related exactly when each child holds what the snapshot it takes
  tracks (`Forks.RunExact`, `RunExactAtClone`), as when children call in clone order (`RunKeeps`); a second
  child that calls first can track a pipe it does not hold (`SecondChildFirst`, `LostClaimShifts`). An
  unclaimed snapshot, and the table of a process killed by a signal, keep a pipe open past its last close
  (`LastCloseExact`, `StrandedStays`). An adopted orphan gets a copy of the init's live table, where the
  comment in the source says a fresh one; a thread of another process than the init gets the table of that
  process's parent (`ThreadTableExact`).
- The overlay acts and answers like one plain file map exactly under the condition `AsPlain` at each call
  (`OverlayRuns.StepExact`, `RunExact`). Among what fails it: a host symlink becomes a regular file when
  it is renamed or opened for writing (`OpenVisibleExact`, `RenameExact`), a file unlinked and created
  again shows its old host content (`RecreatedFileKeepsOldContent`), clearing a whiteout can bring back
  what lies below (`MakeRefines`), and rmdir takes a directory that is not empty. `faccessat` with a mode
  asks the host alone, so a file made in the sandbox exists and is not accessible (`AccessIsView`,
  `AccessExact`).
- Archives store what a symbolic link leads to, and packing fails at one that leads nowhere
  (`PackExact`, `RoundTripExact`).
- An environment key with an equals sign shadows the variable named before the sign, exactly unless an
  earlier line settles it or the values coincide (`GuestSeesExact`).
- Forking a sandbox onto itself wipes its overlay (`ForkExact`).
- The eStargz footer is always 48 bytes; the comment in the source says 51 (`FooterExact`).
- A live limit update needs the memory, pids and cpu files all writable, even for limits it does not
  set (`UpdateExact`, `UpdateNeedsEveryController`); what is left after a refusal enforces the limits
  exactly under `Binds` (`ConfigureExact`).
- A cache save that fails while packing loses the archive stored under that key before (`SaveExact`);
  keys such as `./a` and `a` share an object (`DotKeysMeet`). The source promises a lookup an archive
  whose key starts with the key asked for; one that ends in a part of the extension can get another, as
  `a.tar` gets `a.tar.gz`, stored under `a`, and no other key can (`OverlapExact`).
- Exit code 137 is published when the watchdog fired, and otherwise only if the guest itself ended
  with it, or exited with a number that is 137 modulo 256 (`PublishedCode`).

## Model

| member | source | states |
|---|---|---|
| `FdProtocol.StepKeeps` | crates/cvisor-core/src/supervisor.rs:480-499 | with numbers granted, targets below the limit and ranges agreeing, every call but an ioctl on the flag keeps each tracked kernel-backed fd from 3 up open in the guest, on the same open file, with the same close-on-exec flag |
| `FdProtocol.StepExact` | crates/cvisor-core/src/supervisor.rs:480-810 | for every call, whatever the kernel grants or refuses, and every lowest number relied on: the tables stay related if and only if the condition known before the call holds |
| `FdProtocol.StandardStreamsExact` | crates/cvisor-core/src/supervisor.rs:2144-2146 | down to fd 0, the same call keeps the relation if and only if it is not an F_SETFD that gives a tracked standard stream another flag |
| `FdProtocol.StepIsNative` | crates/cvisor-core/src/supervisor.rs:691-766 | for kernel-backed or untracked files and granted numbers, handler plus continued call change the guest's table as Linux alone would, if and only if the call is not a tracked F_DUPFD granted a number below its minimum |
| `FdProtocol.CloseRangeExact` | crates/cvisor-core/src/supervisor.rs:513-529 | close_range keeps every related process related if and only if the saturated and the truncated reading of its arguments agree |
| `FdProtocol.DisagreementBreaks` | crates/cvisor-core/src/supervisor.rs:513-529 | otherwise one tracked fd, named from the arguments, ends up on one side only |
| `FdProtocol.CleanArgumentsAgree` | crates/cvisor-core/src/supervisor.rs:516-518 | a first number of 31 bits, a last of 32 and known flags always agree |
| `FdProtocol.WideArgumentParts` | crates/cvisor-core/src/supervisor.rs:516-518 | a wider argument can make the two sides part, and so can a first number past 31 bits with the close-on-exec flag |
| `FdProtocol.DupOntoExact` | crates/cvisor-core/src/supervisor.rs:759-765 | dup2 and dup3 of a tracked file keep the relation if and only if the target is below the descriptor limit |
| `FdProtocol.RefusedOpenExact` | crates/cvisor-core/src/supervisor.rs:486-498 | an open whose addfd is refused breaks the relation unless the fallback number is below 3; socket and eventfd2 fail instead and keep it |
| `FdProtocol.GetFdAnswers` | crates/cvisor-core/src/supervisor.rs:2158-2196 | F_GETFD, answered from the virtual table, gives the flag of the guest's own fd |
| `FdProtocol.OpenAnswers` | crates/cvisor-core/src/supervisor.rs:486-498 | the number openat answers is the one the file is tracked under; granted, it is the kernel's, and the guest holds the file, or a synthetic file's placeholder, there; refused, it is the table's next, and the guest's table is as it was; no other number changes |
| `FdProtocol.DupAnswers` | crates/cvisor-core/src/supervisor.rs:691-714 | the same of dup, for the file duplicated and without close-on-exec; a number not tracked is left to the kernel |
| `FdProtocol.DupOntoAnswers` | crates/cvisor-core/src/supervisor.rs:716-766 | dup2 and dup3 answer the target, tracked there with the flag asked for and held by the guest if it is below the limit; equal numbers change nothing, or are refused by dup3, as its unknown flags are; an untracked source drops the target and continues |
| `FdProtocol.NewFdAnswers` | crates/cvisor-core/src/supervisor.rs:1788-1809 | socket, eventfd2 and the like answer the number granted, under which the file is tracked and held, or fail with EIO and track nothing |
| `FdProtocol.PairAnswers` | crates/cvisor-core/src/supervisor.rs:768-810 | pipe2 stores for the guest the numbers its two ends are tracked under, reader first, and socketpair those granted; a refused second socket leaves the first |
| `FdProtocol.FcntlAnswers` | crates/cvisor-core/src/supervisor.rs:2136-2236 | by command number: a duplicate answers its number and carries the flag its command says; the flag commands read and set the table; the status commands answer for kernel-backed and synthetic files; locks and owners answer 0; all others EINVAL |
| `FdProtocol.ContinuedCalls` | crates/cvisor-core/src/supervisor.rs:508-549 | the calls left to the kernel drop or flag exactly the entries they name, of any kind of file, and change no number |
| `FdProtocol.ForkedHolds` | crates/cvisor-core/src/virt/fs/fd_table.rs:38-56 | a forked table holds every synthetic file and each kernel-backed one that could be duplicated, unchanged |
| `FdProtocol.ExecveDropsTheSame` | crates/cvisor-core/src/supervisor.rs:2479-2486 | a successful execve drops a tracked fd on both sides or on neither, by the guest's flag |
| `FdProtocol.LastCloseReleases` | crates/cvisor-core/src/supervisor.rs:508-512 | once a process holds an open file at no number from 3 up, its own virtual table tracks it at none |
| `FdProtocol.FreeNumbersNeverCollide` | crates/cvisor-core/src/supervisor.rs:1799-1801 | a number the kernel may hand out next is never that of a tracked kernel-backed file |
| `FdProtocol.StdioIsNotTracked` | crates/cvisor-core/src/supervisor.rs:2144-2146 | a pipe duplicated to fd 1 and marked close-on-exec stays tracked after the execve that closes it, so the exact condition for fds 0 to 2 is needed |
| `FdProtocol.FdTable.DeepClone` | crates/cvisor-core/src/virt/fs/fd_table.rs:38-56 | the child's table is the parent's less the kernel-backed entries whose duplication failed, and shares nothing with it |
| `FdProtocol.FdTable.SetCloexecRange` | crates/cvisor-core/src/virt/fs/fd_table.rs:137-144 | exactly the entries in the range gain close-on-exec |
| `FdProtocol.FdTable.Insert` | crates/cvisor-core/src/virt/fs/fd_table.rs:58-64 | the file goes under the next number, which only grows |
| `FdProtocol.FdTable.InsertAt` | crates/cvisor-core/src/virt/fs/fd_table.rs:66-73 | the slot is replaced and the next number passes it |
| `FdProtocol.FdTable.RemoveRange` | crates/cvisor-core/src/virt/fs/fd_table.rs:112-127 | exactly the entries in the range go |
| `FdProtocol.FdTable.RemoveCloexec` | crates/cvisor-core/src/virt/fs/fd_table.rs:129-135 | exactly the close-on-exec entries go |
| `FdProtocol.Supervisor.SysOpenat` | crates/cvisor-core/src/supervisor.rs:486-498 | the handler's updates and its answer amount to the two-table step; what that answers is `OpenAnswers` |
| `FdProtocol.Supervisor.SysClose` | crates/cvisor-core/src/supervisor.rs:531-549 | the entry goes and the kernel continues |
| `FdProtocol.Supervisor.SysDup` | crates/cvisor-core/src/supervisor.rs:691-714 | a tracked file gains a second number; an untracked one is left to the kernel |
| `FdProtocol.Supervisor.RegisterKernelFd` | crates/cvisor-core/src/supervisor.rs:1788-1809 | a new kernel fd is tracked under the number granted, or nothing changes |
| `FdProtocol.Supervisor.SysSocketpair` | crates/cvisor-core/src/supervisor.rs:1850-1853 | both sockets are registered in turn; a refusal of the second keeps the first |
| `FdProtocol.Supervisor.SysDupOnto` | crates/cvisor-core/src/supervisor.rs:731-766 | the handler's in-place updates amount to the two-table step used in the relation |
| `FdProtocol.Supervisor.SysDup2` | crates/cvisor-core/src/supervisor.rs:726-728 | the handler amounts to the step of the call |
| `FdProtocol.Supervisor.SysDup3` | crates/cvisor-core/src/supervisor.rs:716-724 | the same, with flags other than close-on-exec refused |
| `FdProtocol.Supervisor.SysFcntl` | crates/cvisor-core/src/supervisor.rs:2136-2236 | the handler's updates and answer amount to the two-table step, for every command |
| `FdProtocol.Supervisor.SysPipe2` | crates/cvisor-core/src/supervisor.rs:768-810 | both ends are installed and tracked as the step says, granted or refused |
| `FdProtocol.Supervisor.SysCloseRange` | crates/cvisor-core/src/supervisor.rs:513-529 | entries in the clamped range are dropped or flagged, then the kernel continues |
| `FdProtocol.Supervisor.SysExecve` | crates/cvisor-core/src/supervisor.rs:2479-2486 | all close-on-exec entries leave the table and the call continues |
| `Forks.RunExact` | crates/cvisor-core/src/virt/proc/mod.rs:171-246 | over every run of calls, clones, late discoveries, adoptions, exits and kills, in all processes: every registered process stays related at every moment if and only if each call meets its condition and each discovered child holds, under the same numbers and flags, the kernel-backed files of the snapshot it takes |
| `Forks.RunExactAtClone` | crates/cvisor-core/src/virt/proc/mod.rs:207-232 | while no child changes its fds unseen: if and only if each discovery takes a table whose kernel-backed files the parent held, with the same flags, at that child's own clone |
| `Forks.RunKeeps` | crates/cvisor-core/src/virt/proc/mod.rs:171-246 | with numbers granted, targets below the limit and ranges agreeing, and each parent's children, those that share its table included, discovered in clone order, none lost and at most eight outstanding, all processes stay related from 3 up at every moment |
| `Forks.FreshGuestIsRelated` | crates/cvisor-core/src/virt/proc/mod.rs:64-87 | so it is from a fresh guest, whatever fds it starts with; the exact condition holds for whichever numbers are relied on |
| `Forks.OrphanExact` | crates/cvisor-core/src/virt/proc/mod.rs:293-313 | an adopted child is related if and only if it holds every kernel-backed file of the init's table that could be copied; no queue changes |
| `Forks.SecondChildFirst` | crates/cvisor-core/src/virt/proc/mod.rs:207-214 | a parent that closes a pipe between two clones, and whose second child calls first: that child tracks the pipe it does not hold, though every call met its condition |
| `Forks.LostClaimShifts` | crates/cvisor-core/src/virt/proc/mod.rs:171-185 | the same in clone order, once a clone failed, its child shared the table, or it died unseen |
| `Forks.LastCloseExact` | crates/cvisor-core/src/virt/proc/mod.rs:181-184 | once every registered process has closed a file, the supervisor still has it open if and only if an unclaimed snapshot or the table of a process killed by a signal tracks it |
| `Forks.NothingHeldBack` | crates/cvisor-core/src/virt/proc/mod.rs:181-184 | with every child discovered in order and no process killed, the last close releases the file, so its readers see end of file |
| `Forks.StrandedStays` | crates/cvisor-core/src/supervisor.rs:2523-2542 | the table of a process killed by a signal stays as it was in every later run |
| `Forks.ExitReleases` | crates/cvisor-core/src/virt/proc/mod.rs:317-332 | after an exit the supervisor holds a file if and only if something other than the process's table and its unclaimed snapshots does |
| `Forks.KillReleasesNothing` | crates/cvisor-core/src/supervisor.rs:2523-2542 | a kill changes nothing about what the supervisor holds |
| `Forks.KilledUnseen` | crates/cvisor-core/src/virt/proc/mod.rs:207-232 | a child that dies before its first intercepted call is never registered, and its snapshot stays queued |
| `Processes.EightClonesForget` | crates/cvisor-core/src/virt/proc/mod.rs:181-184 | up to eight snapshots none is lost; eight clones after an unclaimed one nothing of it is left in the queue |
| `Processes.ThreadTableExact` | crates/cvisor-core/src/virt/proc/mod.rs:273-313 | a thread gets the table of its own process if and only if that process's parent is unknown to the registry or shares the table |
| `Processes.PlanExact` | crates/cvisor-core/src/virt/proc/mod.rs:265-314 | a found task is refused if and only if its parent is unknown and it may not be adopted; else under which task it goes, when it shares that one's table, when it takes a snapshot, and whose namespaces are checked |
| `Processes.ExitKeepsFamily` | crates/cvisor-core/src/virt/proc/mod.rs:317-332 | an exit leaves every task but the init with a registered parent, and changes nothing else of the others |
| `Processes.Threads.constructor` | crates/cvisor-core/src/virt/proc/mod.rs:64-87 | the first task is registered with an empty table and no snapshot |
| `Processes.Threads.SnapshotFork` | crates/cvisor-core/src/virt/proc/mod.rs:171-185 | the caller's table, duplicated, joins its queue, of which the newest eight are kept |
| `Processes.Threads.RegisterChild` | crates/cvisor-core/src/virt/proc/mod.rs:188-246 | the child shares its parent's table, or has one no other task has: the oldest snapshot, or without one a copy of the live table; every other task keeps its own, and each table counts its users exactly |
| `Processes.Threads.Register` | crates/cvisor-core/src/virt/proc/mod.rs:265-314 | where a task found through /proc goes: under its parent, its group, or the init, whose snapshots an adopted orphan leaves alone |
| `Processes.Threads.HandleThreadExit` | crates/cvisor-core/src/virt/proc/mod.rs:317-332 | the task and its unclaimed snapshots go, its children pass to the init, and its table goes exactly with its last user |
| `Paths.DirnameIsParent` | crates/cvisor-core/src/virt/tombstones.rs:75-83 | dirname of a normalized path string is its parent path, and the root has none |
| `Paths.PrefixIsBelow` | crates/cvisor-core/src/virt/tombstones.rs:33-41 | matching a key on `dir/` as a string is being strictly below dir as a path |
| `Whiteouts.Tombstones.RemoveChildren` | crates/cvisor-core/src/virt/tombstones.rs:33-41 | exactly the whiteouts strictly below the directory go |
| `Whiteouts.Tombstones.IsAncestorTombstoned` | crates/cvisor-core/src/virt/tombstones.rs:48-60 | the upward walk answers whether some proper ancestor is whited out |
| `Whiteouts.Tombstones.Add` | crates/cvisor-core/src/virt/tombstones.rs:22-24 | the path is whited out |
| `Whiteouts.Tombstones.Remove` | crates/cvisor-core/src/virt/tombstones.rs:27-29 | exactly that path no longer is |
| `Whiteouts.Tombstones.IsTombstoned` | crates/cvisor-core/src/virt/tombstones.rs:43-45 | the string lookup answers about the path |
| `Overlay.RenameExact` | crates/cvisor-core/src/supervisor.rs:1483-1546 | a successful rename moves one key of the single-layer view if and only if the copy-up keeps the node, dst's ancestors are visible directories and nothing below either name comes or goes |
| `Overlay.RenameMovesOneKey` | crates/cvisor-core/src/supervisor.rs:1483-1546 | into a visible directory, dst gets src's former content, src is gone unless src = dst, and every path not below either is untouched |
| `Overlay.FailedRenameExact` | crates/cvisor-core/src/supervisor.rs:1497-1537 | a failing rename changes nothing visible, except exactly when a host symlink had already been copied up |
| `Overlay.MakeRefines` | crates/cvisor-core/src/supervisor.rs:1345-1353 | a successful mkdirat or symlinkat is the plain map update if and only if all ancestors are visible directories and nothing below resurfaces |
| `Overlay.FailedMakeExact` | crates/cvisor-core/src/supervisor.rs:1345-1352 | a failing one leaves the view alone if and only if it had not cleared a whiteout something was hidden behind |
| `Overlay.UnlinkRefines` | crates/cvisor-core/src/supervisor.rs:1395-1414 | a successful unlink or rmdir removes exactly the path and everything below it from the view; a failing one nothing |
| `Overlay.OpenVisibleExact` | crates/cvisor-core/src/virt/fs/backend/mod.rs:357-376 | on a visible path, openat shows and answers what open(2) does on the plain map, links followed, if and only if no copy-up is needed, or its parents can be made and the host has a plain file there or a dangling link not to be created through |
| `Overlay.OpenNodeExact` | crates/cvisor-core/src/virt/fs/backend/mod.rs:357-376 | what an open makes of a file, a directory, a link and a dangling link, for every combination of flags: the answer, and what is kept |
| `Overlay.OpenHostAnswers` | crates/cvisor-core/src/virt/fs/backend/mod.rs:357-376 | an open for writing of a host path: EIO and no change without its parents, an empty file in a directory's place, a link replaced by the file it leads to |
| `Overlay.OpenNothingAnswers` | crates/cvisor-core/src/virt/fs/backend/mod.rs:357-376 | an open of a path in neither layer: which error, or an empty file |
| `Overlay.OpenCreatesExact` | crates/cvisor-core/src/supervisor.rs:453-465 | creating an invisible path is creating an empty file if and only if no old content is kept, the ancestors are visible directories and nothing resurfaces |
| `Overlay.RecreatedFileKeepsOldContent` | crates/cvisor-core/src/supervisor.rs:458-460 | a host file unlinked and created again shows its old content |
| `Overlay.RecreatedExact` | crates/cvisor-core/src/supervisor.rs:453-468 | what a creation after an unlink gives is the host's content, or nothing if the host has no such file, never what the sandbox wrote |
| `Overlay.RemadeExact` | crates/cvisor-core/src/supervisor.rs:1345-1416 | a path removed can be made again if and only if the removal left nothing of it in the upper layer |
| `Overlay.MakeAnswers` | crates/cvisor-core/src/supervisor.rs:1345-1353 | why mkdirat and symlinkat fail, each errno exactly |
| `Overlay.RenameAnswers` | crates/cvisor-core/src/supervisor.rs:1511-1537 | why a rename fails once the probes let it pass, and what it leaves then |
| `Overlay.RenameRefusals` | crates/cvisor-core/src/supervisor.rs:1483-1510 | NOENT, EXDEV and EEXIST by the view alone, with nothing changed |
| `Overlay.StatIsView` | crates/cvisor-core/src/supervisor.rs:1127-1140 | the stat of a path is that of the node in view, with the upper layer's copy before the host's, a link's that of what it leads to unless it is not to be followed; else NOENT, or the host's own error |
| `Overlay.AccessIsView` | crates/cvisor-core/src/supervisor.rs:1241-1270 | existence is being in view; any other mode is asked of the host alone, so a file made in the sandbox is reported missing |
| `Overlay.MissingExact` | crates/cvisor-core/src/virt/fs/backend/mod.rs:379-385 | the error of a missing path is ENOTDIR if and only if it lies below a file or a link to one |
| `Overlay.UnhidExactly` | crates/cvisor-core/src/supervisor.rs:1127-1132 | a hidden path comes back in one call exactly when that call clears the one whiteout that hid it |
| `Overlay.HiddenStaysHidden` | crates/cvisor-core/src/supervisor.rs:1396-1401 | over every run, a hidden path stays out of the view, and NOENT for stat, unlink, rename-source and open without O_CREAT, until a creating call names it or an ancestor |
| `Overlay.UnlinkedStaysGone` | crates/cvisor-core/src/supervisor.rs:1410-1413 | so does an unlinked path and everything below it, for all those lookups, though rmdir drops the whiteouts below |
| `Overlay.RunKeepsHost` | crates/cvisor-core/src/virt/overlay_root.rs:31-34 | in every run the host layer is as it was and both layers stay trees |
| `Overlay.WriteRefines` | crates/cvisor-core/src/virt/fs/backend/mod.rs:86-91 | a write through the upper copy changes that path of the view and no other |
| `OverlayRuns.StepExact` | crates/cvisor-core/src/supervisor.rs:1345-1546 | any call shows and answers what the same call does on the plain map of what the guest sees, if and only if its condition on the layers before it holds |
| `OverlayRuns.OpenExact` | crates/cvisor-core/src/virt/fs/backend/mod.rs:357-376 | for openat: as above on visible paths; a creation needs an unhidden, visible directory, no old content kept in a layer and nothing resurfacing, or fails on both sides with one errno |
| `OverlayRuns.MakeExact` | crates/cvisor-core/src/supervisor.rs:1345-1353 | for mkdirat and symlinkat: the path is visible, or no layer keeps it above, its ancestors are visible directories and nothing below resurfaces |
| `OverlayRuns.UnlinkExact` | crates/cvisor-core/src/supervisor.rs:1395-1414 | for unlinkat: no link to a directory, and for a call of the right kind nothing visible below, and no rmdir of the root |
| `OverlayRuns.RenameAsPlainExact` | crates/cvisor-core/src/supervisor.rs:1483-1546 | for renameat against a file system that leaves directories to the caller: neither end leads to a directory, the copy-up has its parents, no hidden upper directory stands at dst, and the move is clean |
| `OverlayRuns.WriteExact` | crates/cvisor-core/src/virt/fs/backend/mod.rs:86-91 | for a write: the upper layer has the file, as it does once it was opened for writing |
| `OverlayRuns.StatExact` | crates/cvisor-core/src/supervisor.rs:1127-1140 | for stat: the path is in view, or both maps call it missing alike |
| `OverlayRuns.AccessExact` | crates/cvisor-core/src/supervisor.rs:1241-1270 | for faccessat: for existence no dangling link; for any other mode the host's path leads somewhere as the one in view does |
| `OverlayRuns.RunExact` | crates/cvisor-core/src/supervisor.rs:1395-1546 | a whole run is indistinguishable from the same run on one plain map, view and answer at every call, if and only if every call meets its condition when its turn comes |
| `OverlayRuns.RunRefines` | crates/cvisor-core/src/supervisor.rs:1395-1546 | so the view after such a run is the plain map after it |
| `OverlayCalls.VirtState.SysRenameat` | crates/cvisor-core/src/supervisor.rs:1483-1546 | probes, copy-up, parents, rename and whiteouts in sequence compute the state and errno of the rename function |
| `OverlayCalls.VirtState.SysOpenat` | crates/cvisor-core/src/supervisor.rs:453-468 | whiteout checks on strings, then the copy-on-write open, compute the open function; a link is followed to what it leads to |
| `OverlayCalls.VirtState.OpenCow` | crates/cvisor-core/src/virt/fs/backend/mod.rs:357-376 | parents, copy-up and open in sequence compute the copy-on-write open |
| `OverlayCalls.VirtState.Materialize` | crates/cvisor-core/src/supervisor.rs:1511-1523 | the source of a rename is brought into the upper layer as the copy-up function says |
| `OverlayCalls.VirtState.SysUnlinkat` | crates/cvisor-core/src/supervisor.rs:1395-1416 | the checks and updates compute the unlink function |
| `OverlayCalls.VirtState.SysMake` | crates/cvisor-core/src/supervisor.rs:1698-1706 | the checks and updates of symlinkat and mkdirat compute the make function |
| `OverlayCalls.VirtState.SysStat` | crates/cvisor-core/src/supervisor.rs:1127-1132 | whiteout checks, then the upper layer, then the host, compute the stat function |
| `OverlayCalls.VirtState.SysFaccessat` | crates/cvisor-core/src/supervisor.rs:1215-1270 | whiteout checks, existence, then the host's path, compute the access function |
| `OverlayCalls.VirtState.RenameProbe` | crates/cvisor-core/src/supervisor.rs:1551-1566 | the probe tells visibility, and whether the node is a directory |
| `LogBuffers.LogBuffer.Read` | crates/cvisor-core/src/log_buffer.rs:27-30 | a read takes everything and leaves nothing |
| `LogBuffers.LogBuffer.Write` | crates/cvisor-core/src/log_buffer.rs:22-25 | a write appends |
| `LogBuffers.RunStream` | crates/cvisor-daemon/src/grpc.rs:170-221 | against any schedule of writes and of the exit, the loop has sent every byte captured, in order, when it stops, and the exit code last |
| `SessionProtocol.PoolGuarantee` | crates/cvisor-core/src/supervisor.rs:170-196 | in every reachable state at most eight notifications are being handled and one held, and none is answered twice |
| `SessionProtocol.RunKeeps` | crates/cvisor-core/src/supervisor.rs:170-196 | every step of every thread keeps the four invariants: notifications conserved, threads ordered, watchdog timed, stream faithful |
| `SessionProtocol.AllAnsweredWhenRunReturns` | crates/cvisor-core/src/supervisor.rs:187-196 | when run returns every received notification has been answered exactly once |
| `SessionProtocol.StreamIsExact` | crates/cvisor-core/src/setup.rs:558-561 | in every interleaving a closed stream holds stdout and stderr exactly as the run's calls wrote them, in order, then the exit code once; before that, prefixes of them |
| `SessionProtocol.NothingAfterExit` | crates/cvisor-core/src/setup.rs:375-402 | no byte is captured once the exit code is published |
| `SessionProtocol.WatchdogGuarantee` | crates/cvisor-core/src/setup.rs:363-381 | the watchdog fires at most once, neither fires nor kills once waitpid has started, and is called off only when every notification is answered and all workers have left |
| `SessionProtocol.PublishedCode` | crates/cvisor-core/src/setup.rs:391-401 | the run settles the published code: 137 if the watchdog fired in it, which has then also killed the guest; else the first exit call's argument modulo 256; else what waitpid said, or -1; and it is published after waitpid |
| `SessionProtocol.ExitRecordsLowByte` | crates/cvisor-core/src/supervisor.rs:2547-2557 | the first exit call leaves the low eight bits of its argument, the argument itself below 256 |
| `SessionProtocol.StatusOfRun` | crates/cvisor-core/src/supervisor.rs:2547-2567 | over any run the recorded status is that of the first exit call in it |
| `SessionProtocol.RunCaptures` | crates/cvisor-core/src/log_buffer.rs:22-30 | over any run what is captured is what its calls wrote, in order, each stream apart |
| `SessionProtocol.FirstStatusStays` | crates/cvisor-core/src/supervisor.rs:2547-2567 | the first recorded exit status never changes |
| `SessionProtocol.NoDeadlock` | crates/cvisor-core/src/supervisor.rs:170-196 | unless it waits for the guest or is done, some thread of the session can move |
| `SessionProtocol.SessionStepsDescend` | crates/cvisor-core/src/setup.rs:375-402 | every move lowers a rank, so without new notifications every schedule ends |
| `SessionProtocol.DrainerCloses` | crates/cvisor-daemon/src/grpc.rs:197-220 | once the exit code is published the drainer closes the stream in a bounded number of its steps |
| `BlockingReads.Source.ReadBlocking` | crates/cvisor-core/src/supervisor.rs:576-589 | reads once, at the first slice with something to read or a hang-up, and then takes a byte if one is there; ends with EINTR exactly at a first slice with nothing and a dead notification; no byte is lost or taken on abort |
| `BlockingReads.Source.RecvBlocking` | crates/cvisor-core/src/supervisor.rs:1951-1976 | the same for receives, of at most the length asked for, which look at the notification before the bytes of the slice |
| `Iovec.GuestMem.GatherIovecs` | crates/cvisor-core/src/supervisor.rs:2093-2109 | fails with FAULT exactly when an entry it reaches, or its part under the cap, is unmapped; else gives the first buffers cut at the cap, and the remaining count never underflows |
| `Iovec.GatheredIsPrefix` | crates/cvisor-core/src/supervisor.rs:604-624 | that is exactly the first min(131072, total) bytes of the buffers concatenated |
| `Iovec.StoredEntry` | crates/cvisor-core/src/supervisor.rs:2096-2098 | sixteen bytes in guest memory, an address and then a length as little-endian 64-bit words, are read as that buffer |
| `Iovec.GuestMem.ScatterIovecs` | crates/cvisor-core/src/supervisor.rs:2112-2132 | the loop computes the scatter function, partial writes before a fault included |
| `Iovec.ScatterExact` | crates/cvisor-core/src/supervisor.rs:2112-2132 | over separate mapped buffers it succeeds, fills them with a prefix of the data in order, and touches nothing else |
| `Iovec.ScatterFaultsExact` | crates/cvisor-core/src/supervisor.rs:2112-2132 | if no buffer covers the array, it fails, with FAULT, if and only if data is left for a buffer that is not mapped as far as needed or whose entry is not; the buffers before the first such one are filled |
| `Iovec.ScatterGather` | crates/cvisor-core/src/supervisor.rs:2093-2132 | gathering after scattering gives back the data if and only if it fills the buffers up to the cap |
| `Snapshot.Storage.CopyTree` | crates/cvisor-core/src/snapshot.rs:130-150 | ends, by the size of the source subtree, with dst's tree equal to src's, links and empty directories included, and nothing else changed but dst's new parents; a missing source is NOENT |
| `Snapshot.CopySize` | crates/cvisor-core/src/snapshot.rs:130-165 | the copy equals its source, the source is unchanged, and both have one size |
| `Snapshot.AddedCounts` | crates/cvisor-core/src/snapshot.rs:152-165 | a file added below a directory adds its length, a link its target's, a directory nothing |
| `Snapshot.CopyFails` | crates/cvisor-core/src/snapshot.rs:130-150 | a copy fails, with NOENT and no change, if and only if there is no source, or a link has no directory to go into |
| `Snapshot.Storage.DirSize` | crates/cvisor-core/src/snapshot.rs:152-165 | the recursive sum is the total of file and link bytes below the directory |
| `Snapshot.SameTreeSameBytes` | crates/cvisor-core/src/snapshot.rs:152-165 | equal trees have equal sizes wherever they lie |
| `Snapshot.GraftElsewhere` | crates/cvisor-core/src/snapshot.rs:138-141 | what is planted at one place does not show in any tree apart from it |
| `SnapshotCalls.SnapDir` | crates/cvisor-core/src/snapshot.rs:39-52 | an id is accepted exactly when it is one plain path segment of at most 128 safe characters |
| `SnapshotCalls.SnapDirExact` | crates/cvisor-core/src/snapshot.rs:39-52 | by character code which ids are accepted, never one or two dots alone; the directory is then one level below the snapshots' root |
| `SnapshotCalls.TakeSnapshot` | crates/cvisor-core/src/snapshot.rs:56-64 | removing, making and copying amount to planting the overlay's tree, or an empty directory, under the id |
| `SnapshotCalls.Rollback` | crates/cvisor-core/src/snapshot.rs:68-76 | the overlay becomes the snapshot's tree; an unknown id is NOENT and changes nothing |
| `SnapshotCalls.Branch` | crates/cvisor-core/src/snapshot.rs:79-87 | the same for a new uid |
| `SnapshotCalls.Delete` | crates/cvisor-core/src/snapshot.rs:119-127 | the snapshot goes if it was there, and the answer says so |
| `SnapshotCalls.Fork` | crates/cvisor-core/src/snapshot.rs:90-98 | the target is cleared first and then gets the source's tree if it still has one |
| `SnapshotCalls.StepRefines` | crates/cvisor-core/src/snapshot.rs:54-127 | every call on the disk is one map update on the store of trees |
| `SnapshotCalls.AnswersAlike` | crates/cvisor-core/src/snapshot.rs:54-127 | and answers as the store does: INVAL for an id that is no plain segment, NOENT for a missing snapshot, and for a deletion whether there was one |
| `SnapshotCalls.FailsUnchanged` | crates/cvisor-core/src/snapshot.rs:54-127 | a call that fails changes nothing on the disk |
| `SnapshotCalls.RunRefines` | crates/cvisor-core/src/snapshot.rs:54-127 | so does every run, trees and answers alike |
| `SnapshotCalls.RollbackRestores` | crates/cvisor-core/src/snapshot.rs:54-87 | after a snapshot and any run that leaves its id alone, rollback or branch gives exactly the overlay of that moment |
| `SnapshotCalls.DeletedIsGone` | crates/cvisor-core/src/snapshot.rs:66-127 | over any run, a deleted snapshot cannot be restored until one is taken again under its id |
| `SnapshotCalls.OthersDoNotMatter` | crates/cvisor-core/src/snapshot.rs:78-98 | no run on other sandboxes and on snapshots changes a sandbox's overlay |
| `SnapshotCalls.ForkExact` | crates/cvisor-core/src/snapshot.rs:90-98 | a fork leaves its source's overlay alone if and only if the target is another sandbox or there was none |
| `SnapshotCalls.ForkIsolates` | crates/cvisor-core/src/snapshot.rs:90-98 | after a fork to another uid, any run on one side leaves the other as it was |
| `Archive.PackEstargz` | crates/cvisor-core/src/archive.rs:148-214 | the loop with its running offset writes the members of the stored entries, the table with each entry's offset, and the footer; it fails exactly at a dangling link |
| `Archive.Writer.WriteMember` | crates/cvisor-core/src/archive.rs:160-168 | one member is appended and its start returned |
| `Archive.Pack` | crates/cvisor-core/src/archive.rs:58-75 | each format is the stated encoding of the entries stored for the walked nodes; a dangling link fails, and zstd is refused in a build without it |
| `Archive.WalkIntoTar` | crates/cvisor-core/src/archive.rs:92-110 | the walk appends the blocks of what each node is stored as, a link as what it leads to, and fails exactly if one leads nowhere |
| `Archive.PackExact` | crates/cvisor-core/src/archive.rs:58-110 | packing succeeds if and only if no link dangles and the build has the format; unpacking then gives the stored entries but any named like the table, in every format the same |
| `Archive.UnpackFails` | crates/cvisor-core/src/archive.rs:77-142 | an archive that cannot be read is EIO, a format the build lacks ENOSYS |
| `Archive.PlainLayout` | crates/cvisor-core/src/archive.rs:58-75 | a plain archive is the tar blocks and 1024 zero bytes; gzip and zstd compress exactly that |
| `Archive.StoredExact` | crates/cvisor-core/src/archive.rs:92-110 | every node survives being stored if and only if none is a link |
| `Archive.LinkComesBackFollowed` | crates/cvisor-core/src/archive.rs:176-186 | a link to a file comes back as that file, one to a directory as an empty directory, in every format |
| `Archive.OffsetLocates` | crates/cvisor-core/src/archive.rs:160-193 | decoding the one member at a recorded offset gives that entry's tar blocks |
| `Archive.OffsetsAdjoin` | crates/cvisor-core/src/archive.rs:160-193 | each member ends where the next, or the table, begins |
| `Archive.TrailerExact` | crates/cvisor-core/src/archive.rs:160-168 | each member ends with the CRC-32 and the length of its content, 32 bits each, low byte first, as section 2.3 of RFC 1952 has it |
| `Archive.TocNames` | crates/cvisor-core/src/archive.rs:160-193 | the table lists the entries in order under their names, every backslash turned |
| `Archive.FooterExact` | crates/cvisor-core/src/archive.rs:219-234 | the footer is 48 bytes and its extra field gives back the offset for every 64-bit number |
| `Archive.FooterSpells` | crates/cvisor-core/src/archive.rs:219-234 | the end of the extra field spells STARGZ |
| `Archive.FooterLocatesToc` | crates/cvisor-core/src/archive.rs:209-213 | the last 48 bytes of the stream lead to the table of contents |
| `Archive.EstargzDecodes` | crates/cvisor-core/src/archive.rs:144-147 | decoding all members gives the plain tar stream less its end mark, then the table's entry |
| `Archive.EstargzFooter` | crates/cvisor-core/src/archive.rs:219-234 | the bytes built up step by step are the footer |
| `Archive.ExtractTar` | crates/cvisor-core/src/archive.rs:128-142 | extraction writes every entry in order but those named like the table |
| `Archive.RoundTripExact` | crates/cvisor-core/src/archive.rs:58-107 | when packing succeeds, unpack(pack(t)) is t in every format if and only if no node is a link and no root entry is named stargz.index.json |
| `SampleCodec.SampleIsFaithful` | crates/cvisor-core/src/archive.rs:58-107 | what is assumed of the coders holds of a concrete one, so the archive results are not empty |
| `Cache.DiskCache.Resolve` | crates/cvisor-core/src/cache.rs:162-191 | the exact object if there is one, else a match in the root that no stored match is newer than, and none only if nothing there matches; an answer starts with the key |
| `Cache.AnswerOfKey` | crates/cvisor-core/src/cache.rs:162-191 | what is found starts with the key and ends in the format's extension, the object of exactly that name first; nothing is found only if no entry of the root qualifies |
| `Cache.OverlapExact` | crates/cvisor-core/src/cache.rs:134-177 | an archive whose own key does not start with the key asked for can match it if and only if that key ends in a part of the extension, dot first |
| `Cache.LatestSaveIsFound` | crates/cvisor-core/src/cache.rs:134-187 | an archive saved later than all that match a shorter key is what a lookup of that key finds |
| `Cache.SafeKeyExact` | crates/cvisor-core/src/cache.rs:82-87 | a key is refused if and only if it is empty, starts with a slash, or has two dots in a row |
| `Cache.NeverClimbs` | crates/cvisor-core/src/cache.rs:82-91 | an accepted key's object lies below the root, with no `..` on the way |
| `Cache.DiskCache.FindNewest` | crates/cvisor-core/src/cache.rs:174-187 | the scan keeps the newest match, the earlier of equals |
| `Cache.DiskCache.Save` | crates/cvisor-core/src/cache.rs:113-125 | the object is created, filled, or removed again when packing fails |
| `Cache.DiskCache.Remove` | crates/cvisor-core/src/cache.rs:232-245 | exactly that object goes, and the answer says whether it was there |
| `Cache.ResolvesOnce` | crates/cvisor-core/src/cache.rs:174-187 | with distinct times among matching files that answer does not depend on the order of the listing |
| `Cache.SavedIsFound` | crates/cvisor-core/src/cache.rs:134-158 | a saved key finds its own archive whatever was saved or removed under other objects later |
| `Cache.SaveThenRestore` | crates/cvisor-core/src/cache.rs:102-158 | so restoring after saving gives the entries stored, and the directory itself if and only if it holds no link and no root entry named like the table |
| `Cache.SaveExact` | crates/cvisor-core/src/cache.rs:113-125 | a save succeeds if and only if the key is accepted, no file or directory is in the way and packing does, and then stores the bytes and the time; each failure has its errno and loses the archive stored there before, unless the key was refused; no other is touched |
| `Cache.RemoveExact` | crates/cvisor-core/src/cache.rs:232-245 | a removal takes that object alone and says whether it was there |
| `Cache.SameObjectExact` | crates/cvisor-core/src/cache.rs:82-91 | canonical names share an object if and only if key and extension are equal |
| `Cache.DotKeysMeet` | crates/cvisor-core/src/cache.rs:82-87 | `./a` and `a` are both accepted and share an object |
| `Cache.DiskCache.Clear` | crates/cvisor-core/src/cache.rs:249-259 | exactly the archives directly in the root go, and are counted |
| `Cache.ArchivesAreObjects` | crates/cvisor-core/src/cache.rs:201-203 | the names it removes are the object names of some key and format |
| `Cgroups.Cgroup.TryApply` | crates/cvisor-core/src/cgroup.rs:73-112 | fails exactly when cgroup v2 is not mounted, the directory cannot be made, or a file a limit asks for cannot be written; else the files enforce the limits |
| `Cgroups.LimitsReadBack` | crates/cvisor-core/src/cgroup.rs:98-110 | bytes, processes and percent of a processor can be read back from the files that enforce them; swap is forbidden exactly with a memory limit, where it can be |
| `Cgroups.CreateExact` | crates/cvisor-core/src/cgroup.rs:73-112 | limit by limit, when a cgroup can be made |
| `Cgroups.Cgroup.Update` | crates/cvisor-core/src/cgroup.rs:116-142 | the files are written in order up to the first refusal |
| `Cgroups.UpdateExact` | crates/cvisor-core/src/cgroup.rs:116-142 | an update succeeds exactly when all three hard files are writable, and then leaves nothing of the earlier limits |
| `Cgroups.UpdateEnforcesExact` | crates/cvisor-core/src/cgroup.rs:116-142 | after an update, completed or not, the files enforce the limits if and only if every knob it did not reach held already what they want |
| `Cgroups.LastUpdateWins` | crates/cvisor-core/src/cgroup.rs:114-142 | any run of successful updates leaves what a fresh cgroup with the last limits holds |
| `Cgroups.UpdateNeedsEveryController` | crates/cvisor-core/src/cgroup.rs:127-140 | without the pids controller a cpu-only update is refused where creation succeeds |
| `Environment.Merge` | crates/cvisor-core/src/setup.rs:162-168 | the in-place merge is map override, last value wins, with no key repeated and old keys in place |
| `Environment.BuildEnvp` | crates/cvisor-core/src/setup.rs:154-173 | one line a key, defaults overridden; refused exactly when a setting in effect holds a NUL |
| `Environment.GuestDefaults` | crates/cvisor-core/src/setup.rs:29-32 | with nothing set the guest has a search path and `/` as its home, and nothing else |
| `Environment.GuestSeesExact` | crates/cvisor-core/src/setup.rs:169-172 | getenv answers every proper name as the merged list does, if and only if for each key with an equals sign an earlier line settles the part before the sign or the values coincide |
| `Environment.GuestSees` | crates/cvisor-core/src/setup.rs:169-172 | with no equals sign in keys, the guest's getenv answers as the merged list |
| `Environment.EqualsInKeyShadows` | crates/cvisor-core/src/setup.rs:169-172 | a key with an equals sign shadows any later key equal to its part before the sign |
| `Registry.PickName` | crates/cvisor-daemon/src/registry.rs:206-223 | the base name if free, else the least free suffix from 2; the loop ends because the candidates are distinct and the names finite |
| `Registry.TriedFits` | crates/cvisor-daemon/src/registry.rs:213-220 | as many suffixes as are taken, so many names there are |
| `Registry.Registry.CreateSandbox` | crates/cvisor-daemon/src/registry.rs:204-241 | a sandbox with the allotted name and the default configuration is added, nothing else changes |
| `Registry.Registry.Resolve` | crates/cvisor-daemon/src/registry.rs:286-295 | an id if it is one, else a sandbox of that name, else nothing |
| `Registry.AllottedUnique` | crates/cvisor-daemon/src/registry.rs:212-223 | the chosen name is determined |
| `Registry.ResolveUnique` | crates/cvisor-daemon/src/registry.rs:286-295 | a reference resolves to one sandbox whatever the map's order |
| `Registry.IdsBeforeNames` | crates/cvisor-daemon/src/registry.rs:286-295 | an id is found by itself even if it is another sandbox's name |
| `Registry.Session.UpdateLimits` | crates/cvisor-core/src/setup.rs:659-675 | a live cgroup is rewritten, a missing one made if any limit is asked for |
| `Registry.Session.SetNetworkPolicy` | crates/cvisor-core/src/setup.rs:650-653 | both policy flags change and nothing else |
| `Registry.Registry.ConfigureSandbox` | crates/cvisor-daemon/src/registry.rs:332-375 | amounts to the configure step for the sandbox the reference names, with the environment merged; what that stores is `ConfigureStores` |
| `Registry.ConfigureStores` | crates/cvisor-daemon/src/registry.rs:332-375 | network, listen and limits become what is asked for, or stay; id, name and uid stay, and so does every other sandbox and every session of another uid; the sandbox's own sessions get its network, listen and limits |
| `Registry.Registry.StartSession` | crates/cvisor-daemon/src/registry.rs:439-475 | starts exactly when the reference resolves, a command or terminal is given and the guest comes up; else nothing changes |
| `Registry.StartGives` | crates/cvisor-daemon/src/registry.rs:439-475 | a session in a sandbox is bound by what is stored there, one alone has the network, no listening and no cgroup; nothing else changes |
| `Registry.StartThenEnd` | crates/cvisor-daemon/src/registry.rs:439-495 | starting a session and ending it restores the registry |
| `Registry.Registry.FreeSandbox` | crates/cvisor-daemon/src/registry.rs:302-330 | removes the sandbox and exactly its sessions |
| `Registry.FreeTakes` | crates/cvisor-daemon/src/registry.rs:302-330 | exactly the sandbox and the sessions under its uid go |
| `Registry.Registry.EndSession` | crates/cvisor-daemon/src/registry.rs:486-495 | exactly that session goes |
| `Registry.Registry.BranchSandbox` | crates/cvisor-daemon/src/registry.rs:546-554 | a failed branch leaves both maps as they were |
| `Registry.Registry.ForkSandbox` | crates/cvisor-daemon/src/registry.rs:557-566 | a failed fork leaves both maps as they were |
| `Registry.CreateThenFree` | crates/cvisor-daemon/src/registry.rs:549-551 | creating and freeing a sandbox restores the registry |
| `Registry.StepKeepsInv` | crates/cvisor-daemon/src/registry.rs:302-495 | every operation keeps names, ids and uids distinct and every lasting session following its sandbox |
| `Registry.LimitedFollows` | crates/cvisor-core/src/setup.rs:659-675 | limits asked of a session on a host that takes them all, whatever it had before, bind it exactly |
| `Registry.ConfigureExact` | crates/cvisor-daemon/src/registry.rs:362-373 | on any host, after a configure call a session follows its sandbox if and only if, without a cgroup so far, no limit is asked for or one can be made, and with a live one, every file the update does not reach held already what the limits want |
| `Registry.RunKeepsInv` | crates/cvisor-daemon/src/registry.rs:302-495 | so does every run |
| `Registry.LastAskedIsStored` | crates/cvisor-daemon/src/registry.rs:204-375 | the sandboxes after a run are those created and not freed since, each storing each setting as last asked for, or the default |
| `Registry.SessionsFollowConfiguration` | crates/cvisor-daemon/src/registry.rs:362-373 | after any run from an empty registry, a session's live network, listen and limit settings are those last asked for its sandbox |
| `ShellJoin.SplitJoin` | crates/cvisor-cli/src/remote.rs:117-122 | the shell reads back exactly the argument vector, every word quoted, for every vector |
| `ShellJoin.JoinInjective` | crates/cvisor-cli/src/remote.rs:117-122 | different vectors give different command lines |

## Left out

- Forks: threads, and children that share a table, as callers; a process owns its table here, though a sharing child's snapshot is pushed and taken as the source does. Nested pid namespaces, and guests that make themselves subreapers.
- Processes: the directory table beside the fd table, and registering unknown ancestors first, which is the same step for each of them, oldest first. A clone made by a thread other than its leader, whose snapshot is queued under a number no child names.
- ExecveDropsTheSame: speaks of a successful execve; after a failed one the guest keeps fds the table forgot, as the source notes.
- Overlay: paths through symlinked directories, what a link resolves to changing over time, and the node at a link's far end; a node records where following it leads, and a write, a truncation or a creation through a link changes that record only.
- Overlay: rmdir of the root removing the upper layer's own directory.
- RenameAsPlainExact: the plain file system it compares with answers EXDEV for directories, as the source does on purpose; moving a subtree is left to the caller on both sides.
- Overlay: readlinkat, chdir, getdents, fchmodat and utimensat, and the single-layer backend of /tmp.
- Access: does not model permissions, owners and modes, which nothing else here has; a host path that leads somewhere is accessible.
- Stat: answers the node, which stands for its metadata.
- WriteExact: a write names a path's copy in the upper layer; a descriptor of the program follows the file after a rename or an unlink, and then writes to another path or to none.
- HiddenStaysHidden: covers the calls named there; readlinkat and chdir do not look at whiteouts in the source.
- StreamIsExact: sessions without a terminal whose client keeps receiving; with a terminal, output may still be in the pump when the exit code is published.
- NoDeadlock: handlers are taken to return; the blocking ones are in `BlockingReads`.
- BlockingReads: errors of the read itself, and sockets in non-blocking mode, which are one call.
- Iovec: a transfer that copies part of one buffer and then stops; a transfer here succeeds or faults as a whole, as the memory interface promises. Addresses near the end of the 64-bit space are unmapped.
- Iovec: `sys_readv`, whose loop is the scatter loop.
- CopyTree: does not model an existing destination, because every caller removes it first; nor I/O errors, owners, modes and times.
- SnapshotCalls: whiteouts live in memory and are not part of a snapshot; directory sizes do not wrap at 64 bits.
- Archive: deflate, CRC-32, zstd, the tar encoding of a stored file or directory, the JSON text and the ignore rules; `Faithful` says what is assumed. Sockets, devices and pipes in a packed directory, owners, modes and times.
- Archive: gzip members with names, comments or header checksums, which this program does not write.
- Cache: the S3 backend, backend parsing, directories as matches beyond their listing, and directory times.
- Registry: the SQLite store, whose writes are not ordered with the map, and preloading from it; random identifiers are assumed new; operations run one at a time; a suffix counter wider than 32 bits.
- Registry: live sessions are values in the registry's map, so handles shared with running streams are not captured; `Registry.Session` models one session as an object.
- Cgroups: enabling the controllers on the root, which is best effort; whether cgroup v2 is mounted and takes directories is fixed for a host.
- Session.UpdateLimits: attaching the guest to a cgroup made late leaves already running descendants outside.
- SplitJoin: double quotes, expansions and operators never occur in the output; the reader refuses them instead of reading them.
- gRPC and GraphQL beyond the stream loop, authentication, the SDKs, option parsing, macOS support and the user interfaces.
