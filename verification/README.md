# xv6 in Dafny

This project models the hard parts of xv6, a small Unix for RISC-V, and proves what they are for.
`dafny verify dfyconfig.toml` checks all of it.

How the models are built:

- **Concurrent protocols are step machines.** The write-ahead log and the scheduler are a `State`, a `Step`,
  an `Enabled` predicate and a `Do` function; a run is any sequence of enabled steps by any number of processes
  and CPUs, and the theorems hold of every state of every run. Crashes of the machine are steps too.
- **Code that updates memory in place is a class** whose methods are the source's functions and whose ghost fields
  say what the memory means: who owns a physical page, which block a file slot maps, which requests are pending.
  In `Log`, `BufferCache`, `LogCache`, `Virtio`, `Pipe` and `Links` a method is what one process does while it holds a
  lock, so that any order of calls is an interleaving; elsewhere a method is a whole call, undisturbed.
- **Pure code is functions and lemmas.**

What each file is about:

| file | subject |
|---|---|
| `LogMachine`, `LogSafety`, `LogCapacity`, `Log` | the write-ahead log: crash safety, group commit, log space; the code as a run of the machine |
| `BlockFormat`, `FsState`, `Inodes`, `Files` | bitmap and indirect blocks byte by byte, block ownership, files as byte sequences, `filewrite` |
| `Links` | link counts against directory entries |
| `BufferList`, `BufferCache` | the buffer cache against a plain block map |
| `LogCache` | the log machine on top of the buffer cache |
| `Virtio` | descriptors and rings of the disk driver |
| `SchedMachine`, `SchedSafety` | fork, exit, wait, sleep, wakeup and the scheduler on several CPUs |
| `PageTable`, `Vm`, `UserMemory`, `TreeFree`, `AddressSpace`, `ProcMemory` | page tables as words in physical memory, the free list, growing, copying and freeing address spaces, fork, with every out-of-memory path |
| `UserCopy` | `copyout`, `copyin` and `copyinstr` through a page table |
| `PageBytes`, `Elf`, `Arguments`, `ExecImage`, `Exec` | exec: the bytes of a program file and the arguments as the memory of a process |
| `Pipe` | the pipe as a queue |
| `FreeList`, `Umalloc` | malloc and free of user programs |
| `Sbrk` | what malloc asks of the kernel and what it gets |
| `Regex`, `Grep` | the pattern matcher and the line loop of grep |
| `ShellGrammar`, `ShellDerivation`, `ShellLexer`, `Shell` | the parser of the shell |
| `Common` | the option type and ring-buffer arithmetic |

Where the code does not do what one would expect, the code is modelled and the difference is stated:

- `log_write` tests for room before it looks whether the block is logged already. So an operation that uses all
  ten of its reserved blocks can panic the kernel (`LogCapacity.TooBigReachable`); with at most nine it cannot, even
  with the log of exactly `LOGSIZE` blocks that mkfs makes (`LogCapacity.NeverTooBig`).
- `writei` whose source faults in the middle of a chunk leaves bytes beyond its return value in the buffer. A call
  keeps its promise if and only if `Inodes.Exact` holds of its arguments, and which faults are harmless whatever the
  bytes are is `Files.HarmlessFault`; `Files.WriteSpillVisible` is a file system and a call where it does not. The
  buffer is given back changed and neither written nor pinned, so the bytes last until the block is evicted
  (`BufferCache.BCache.Brelse`, `BufferCache.Recycled`).
- `growproc` by a negative amount larger than the process does nothing and reports success, because the new size
  wraps around (`ProcMemory.Growproc`). `malloc` of more than 0x7FFFFFE0 bytes does not ask sbrk for what it wants,
  because the size does not fit an `int`, and does not get it (`Sbrk.SbrkGives`, exactly then); `Sbrk.HugeRequest` is a
  call that comes to both.
- `grep` stops without a word at a line that does not fit its buffer (`Grep.LongLineLost`). Nothing is missing
  whatever the pattern if and only if every line fits (`Grep.NothingMissing`), and `Grep.Missing` says which lines are.
  What follows a NUL is not looked at either (`Grep.Run`).
- A page that two segments of a program share keeps the permissions of the first (`ExecImage.DescribedFlags`).
- The buffer that `bget` recycles is the unused one that `brelse` released longest ago; `bunpin` does not count as a
  release.

## Model

| member | source | states |
|---|---|---|
| `LogMachine.HeadRoundTrip` | kernel/log.c:85-114 | reading the header that `write_head` wrote gives the same block list, whatever else the header block holds |
| `LogSafety.InvRun` | kernel/log.c:67-235 | the invariant that ties disk, cache, in-memory header and open operations together holds in every state of every run, crashes at any step included |
| `LogSafety.CrashSafety` | kernel/log.c:67-123 | recovery from a crash in any state of any run yields exactly the committed groups applied in commit order, each operation whole in one group, and no open operation in any |
| `LogSafety.GroupCommit` | kernel/log.c:125-203 | `committing` implies no open operation; outside the commit window the header on disk is empty and the disk is the committed groups; the panics of `end_op` and "log_write outside of trans" are unreachable |
| `LogSafety.CommitPoint` | kernel/log.c:193-203 | what the disk recovers to changes at no step but the header write, and there by the whole current group with no operation open |
| `LogSafety.Durability` | kernel/log.c:116-203 | across any stretch of a run, crashes included, what the disk at its end recovers to is what the disk at its start recovers to with further whole groups applied, and nothing else |
| `LogSafety.CacheReadsLastWrite` | kernel/log.c:205-235 | what the cache holds is the committed groups with the current group's writes on top |
| `LogCapacity.NeverTooBig` | kernel/log.c:125-142 | if every operation leaves one reserved block unused no run panics, even with `log.size == LOGSIZE` |
| `LogCapacity.FullReservation` | kernel/log.c:205-235 | with all ten blocks in use `lh.n` never exceeds what the log takes, and `log_write` panics if and only if the log is full, in the log of exactly LOGSIZE blocks too; then the operation has used its reservation up but for what the log is short of, and in a larger log the block is one it has logged before |
| `LogCapacity.TooBigReachable` | kernel/log.c:214-219 | a run within the reservation that ends in "too big a transaction" |
| `Log.CommitOutcome` | kernel/log.c:193-203 | over all the states of a commit that no crash cuts short: nobody else takes a step, the current group is committed once and as it was at the start, the home blocks on disk are what the cache held, and the header on disk is empty again |
| `Log.Log.constructor` | kernel/log.c:52-65 | the booted log is an initial state of the machine |
| `Log.Log.BeginOp` | kernel/log.c:125-142 | refuses exactly while committing or when the reservation might not fit; otherwise is the machine's step |
| `Log.Log.LogWrite` | kernel/log.c:205-235 | absorbs a logged block, appends a new one, and panics exactly when the machine does |
| `Log.Log.WriteLog` | kernel/log.c:177-191 | the log area on disk holds the cached contents of every logged block in the order of the header, no home block changes, and the states on the way are a run of the machine |
| `Log.Log.WriteHead` | kernel/log.c:99-114 | the header block encodes the in-memory header |
| `Log.Log.InstallTrans` | kernel/log.c:67-83 | every home block in the header holds what the log held for it, no other block changes, and the states on the way are a run of the machine |
| `Log.Log.Commit` | kernel/log.c:193-203 | a run of the machine that commits the current group, leaves the home blocks on disk as the cache had them, and the header empty |
| `Log.Log.EndOp` | kernel/log.c:144-175 | the last operation to end commits the group, any other only leaves |
| `Log.Log.RecoverFromLog` | kernel/log.c:116-123 | leaves the disk that the machine's recovery leaves, with an empty header |
| `BlockFormat.WordOfSetWord` | kernel/fs.c:379-421 | a block address stored in an indirect block reads back, and no other address changes |
| `BlockFormat.BitOfSetBit` | kernel/fs.c:63-105 | setting or clearing one bit of a bitmap block changes that bit and no other |
| `Inodes.FileSystem.Balloc` | kernel/fs.c:63-88 | the first free block, zeroed and marked, that no inode and no metadata uses; 0 exactly when all blocks are in use |
| `Inodes.FileSystem.Bfree` | kernel/fs.c:90-105 | clears the block's bit; "freeing free block" exactly when it was clear |
| `Inodes.FileSystem.Bmap` | kernel/fs.c:379-421 | the block of a file block, allocated if there was none; no byte of any file changes, the bitmap stays exactly the blocks in use, and 0 only when the disk is full |
| `Inodes.FileSystem.Itrunc` | kernel/fs.c:423-453 | frees exactly the blocks the inode held, its indirect block included, and no other file changes |
| `Inodes.FileSystem.Readi` | kernel/fs.c:467-496 | the clamped slice of the file's bytes, or -1 when the copy faults, and nothing changes |
| `Inodes.FileSystem.Writei` | kernel/fs.c:498-539 | the file becomes its old bytes with the stored ones spliced in, also when the disk fills up or the source faults midway; the return value is the last chunk boundary before the fault and the bytes beyond it are exactly the rest of the readable ones, unless the disk is full, which only happens past the end; the return value tells the truth if and only if `Exact` holds of the arguments; other files are untouched; what it logs |
| `Inodes.WriteExact` | kernel/fs.c:498-539 | from contents, offset, source and readable length alone: the bytes stored are exactly those the return value reports if and only if the readable bytes after the last chunk boundary are the ones the file has there already |
| `Inodes.MappedBelowSize` | kernel/fs.c:379-421 | no file block below the size is unmapped |
| `Files.WriteSpillVisible` | kernel/fs.c:515-527 | a file system and a call of `writei` on it that returns 0 and changes the file |
| `Files.HarmlessFault` | kernel/fs.c:515-527 | a copy that faults keeps the promise of `writei` whatever the bytes are if and only if it faults at a chunk boundary or in a chunk that begins past the end of the file |
| `Files.ChunkFitsOperation` | kernel/file.c:147-174 | with a one-block bitmap one chunk of `filewrite` logs at most seven distinct blocks, so the reservation of an operation is never used up |
| `Files.FileWrite` | kernel/file.c:133-180 | writes all the bytes in operations that each log no more than one chunk can, or reports -1, which happens only beyond the end, past the largest size, with an unreadable source or on a full disk; what a faulting copy leaves in a buffer is exactly the rest of the readable bytes |
| `Files.FileWritesNeverTooBig` | kernel/file.c:133-180 | however the chunks of any number of `filewrite` calls interleave with each other, with commits and with crashes, "too big a transaction" is unreachable |
| `Files.WrittenAll` | kernel/file.c:133-180 | after a complete write the file is the splice of all the bytes |
| `Links.NamedHasLink` | kernel/sysfile.c:213-216 | the inode an entry other than "." and ".." names is in use and has a link, so "unlink: nlink < 1" is unreachable |
| `Links.NoLinksNoNames` | kernel/fs.c:337-362 | no such entry names an inode without links |
| `Links.LinkTable.constructor` | mkfs/mkfs.c:117-128 | the file system that mkfs makes, with an empty root directory, satisfies the invariant |
| `Links.LinkTable.DirLookup` | kernel/fs.c:549-575 | the slot of that name, if and only if there is one |
| `Links.LinkTable.DirLink` | kernel/fs.c:577-606 | one entry in the first empty slot or at the end, "." and ".." of a new directory included; succeeds if and only if no entry has the name and there is room; nothing changes on failure |
| `Links.LinkTable.IsDirEmpty` | kernel/sysfile.c:172-186 | whether all slots but the first two are empty |
| `Links.LinkTable.Iput` | kernel/fs.c:337-362 | gives up a reference and frees the inode exactly when it was the last, valid and without links, and then no entry names it; every link count stays at least the number of entries |
| `Links.LinkTable.LinkBegin` | kernel/sysfile.c:138-147 | counts the link before there is an entry for it, unless the inode is a directory |
| `Links.LinkTable.LinkEntry` | kernel/sysfile.c:149-156 | makes the entry for a counted link |
| `Links.LinkTable.DropLink` | kernel/sysfile.c:163-169 | stops counting a link that has no entry; the count was positive |
| `Links.LinkTable.UnlinkEntry` | kernel/sysfile.c:205-229 | removes an entry other than "." and "..", not one that names a directory with entries, and fails for no other reason; the parent of a directory loses the link for "..", and the panic cannot happen |
| `Links.LinkTable.SysLink` | kernel/sysfile.c:122-170 | succeeds if and only if the inode is no directory, the name is not taken and there is room; then exactly one slot more names the inode, with one link more, and no other inode has a name more or less; otherwise no link changes; the reference is given up, which frees an inode without links when it is the last |
| `Links.LinkTable.SysUnlink` | kernel/sysfile.c:188-243 | the entry is gone and no other entry has that name, the inode has a name and a link less, and is free with its last link and reference; a directory's parent loses a link; no other inode changes, and on failure nothing does |
| `Links.RemovedNames` | kernel/sysfile.c:188-243 | after `sys_unlink` exactly that slot is gone from the names of the inode, nothing in the directory has that name, and no other inode has a name more or less |
| `Links.LinkTable.CreateNew` | kernel/sysfile.c:265-302 | a new inode with one link and its entry in the directory, "." and ".." made by `dirlink`, and the parent's link for a directory; on failure nothing in use has changed |
| `Links.LinkTable.Create` | kernel/sysfile.c:245-302 | an existing file or device of that name when a file is asked for, otherwise a new inode, otherwise nothing |
| `BufferList.Inverse` | kernel/bio.c:26-34 | `next` and `prev` are inverse to each other |
| `BufferList.MoveToFront` | kernel/bio.c:128-133 | the pointer surgery leaves a cycle through the head and all buffers, the released one first and the others in their order |
| `BufferCache.BCache.constructor` | kernel/bio.c:36-53 | the list is a cycle through all buffers, and the cache agrees with the disk |
| `BufferCache.BCache.Find` | kernel/bio.c:66-73 | the buffer of that block, if and only if there is one |
| `BufferCache.BCache.FindUnused` | kernel/bio.c:77-87 | the unused buffer nearest the end of the list, if there is any |
| `BufferCache.BCache.Bget` | kernel/bio.c:58-89 | at most one buffer per block; a cached block keeps its buffer and contents; otherwise the recycled buffer is the unused one released longest ago, and nothing stored is lost unless that block was given back changed, neither written nor pinned; "no buffers" only when all are in use |
| `BufferCache.BCache.Fill` | kernel/bio.c:92-103 | the contents that were last stored in the block and not lost by such an eviction, however often it has been evicted |
| `BufferCache.BCache.Store` | kernel/bio.c:92-103 | a change by the lock holder is what the block now holds |
| `BufferCache.BCache.Bwrite` | kernel/bio.c:105-112 | the disk holds the buffer's contents, which can no longer be lost |
| `BufferCache.BCache.Brelse` | kernel/bio.c:114-137 | gives back a buffer; its block may revert later if and only if it is changed, not written and not pinned; the last user moves it to the front |
| `BufferCache.BCache.Bpin` | kernel/bio.c:139-144 | a pinned buffer cannot be recycled |
| `BufferCache.BCache.Bunpin` | kernel/bio.c:146-151 | the count is positive, and afterwards the block may revert only if it is not on disk and nobody holds or pins it |
| `BufferCache.Recycled` | kernel/bio.c:77-87 | evicting an unused buffer: every block still holds what was last stored in it, but for that of the buffer if it was given back changed, neither written nor pinned, which is then what is on disk |
| `LogCache.Settled` | kernel/log.c:67-203 | in every state of the log machine a block that is not pinned is the same in the cache and on disk |
| `LogCache.TurnCopies` | kernel/log.c:67-83 | what a turn of `write_log` and one of `install_trans` read and write |
| `LogCache.LogCache.constructor` | kernel/log.c:52-65 | after boot the buffer cache and the log machine agree |
| `LogCache.LogCache.Bread` | kernel/bio.c:92-103 | the contents that the log machine's cache has for the block, whatever has been evicted, committed or recovered since, and whoever has other buffers locked and changed |
| `LogCache.LogCache.LogWrite` | kernel/log.c:205-235 | with a `bpin` for a block that is new in the header this is the machine's step, and the two still agree |
| `LogCache.LogCache.Release` | kernel/bio.c:114-137 | giving back a buffer that was not changed, or whose change was logged or written, never leaves a block that could revert |
| `LogCache.LogCache.CopyBlock` | kernel/log.c:67-83 | a turn of `install_trans` or `write_log` on buffers is the machine's step, or the panic for want of buffers; an installed block is unpinned |
| `LogCache.LogCache.WriteHead` | kernel/log.c:99-114 | writing the header through its buffer is the machine's step, or that panic |
| `LogCache.LogCache.Crash` | kernel/log.c:116-123 | with all buffers gone the two agree again |
| `Virtio.Pigeons` | kernel/virtio_disk.c:271-277 | different descriptor heads are at most NUM many, so the rings cannot overflow |
| `Virtio.RingPush` | kernel/virtio_disk.c:271-277 | adding an entry overwrites none that the reader still needs, across wraparound of the 16-bit index |
| `Virtio.RingPop` | kernel/virtio_disk.c:312-324 | the two 16-bit indices differ if and only if there is an unread entry, and its slot holds the oldest |
| `Virtio.Disk.constructor` | kernel/virtio_disk.c:144-146 | all descriptors start out free |
| `Virtio.Disk.AllocDesc` | kernel/virtio_disk.c:155-166 | the first free descriptor |
| `Virtio.Disk.FreeDesc` | kernel/virtio_disk.c:168-182 | frees a descriptor that was in use |
| `Virtio.Disk.Alloc3` | kernel/virtio_disk.c:199-213 | three different descriptors, or nothing at all when there are not three |
| `Virtio.Disk.FreeChain` | kernel/virtio_disk.c:184-197 | frees exactly the three descriptors of the chain, never one that is free, and stops |
| `Virtio.Disk.Submit` | kernel/virtio_disk.c:215-281 | free descriptors and the chains of pending requests still partition all of them; the request is queued once and only its buffer becomes busy |
| `Virtio.Disk.DeviceComplete` | kernel/virtio_disk.c:235-265 | following the descriptors moves the data between exactly the buffer and the block the request was for, whatever the order of completions |
| `Virtio.Disk.IntrOne` | kernel/virtio_disk.c:312-324 | one completion tells exactly its own buffer, once, and never panics |
| `Virtio.Disk.Intr` | kernel/virtio_disk.c:294-327 | every completed request is passed on and no other |
| `Virtio.Disk.Finish` | kernel/virtio_disk.c:283-291 | the woken process frees exactly the descriptors of its request, and `info` no longer refers to the buffer |
| `SchedSafety.RunKeepsInv` | kernel/proc.c:277-616 | the scheduling invariant holds in every state of every run on any number of CPUs |
| `SchedSafety.OneStackOneCpu` | kernel/proc.c:437-529 | never two CPUs on one kernel stack; while its lock is free a process is RUNNING if and only if it is some CPU's `c->proc`, and then that CPU is on its stack |
| `SchedSafety.ReapsOffStack` | kernel/proc.c:388-435 | `wait` frees a zombie only when no CPU is on its stack |
| `SchedSafety.NoLostWakeup` | kernel/proc.c:343-435 | while `wait_lock` is free nobody asleep in `wait` has a zombie child |
| `SchedSafety.ParentsAlive` | kernel/proc.c:328-341 | every parent pointer names another process that is neither unused nor a zombie |
| `SchedSafety.SchedChecks` | kernel/proc.c:483-508 | whoever is about to give up its CPU in `yield`, `sleep` or `exit` holds its own lock and no other, so `noff` is 1, and is no longer RUNNING: three of the four panics of `sched` are unreachable |
| `SchedSafety.OnlySchedSwitches` | kernel/proc.c:483-508 | no CPU leaves a kernel stack anywhere else |
| `PageTable.PutLeafEffect` | kernel/vm.c:86-103 | writing one entry changes exactly one translation of one tree |
| `PageTable.UnlinkLow` | kernel/vm.c:276-294 | cutting off an empty table page keeps every translation and every other page's use |
| `Vm.Vm.constructor` | kernel/kalloc.c:26-40 | `kinit`: freeing every page after the kernel one by one gives a free list of exactly those pages, and the invariant |
| `Vm.Vm.Kalloc` | kernel/kalloc.c:65-82 | the first page of the free list, or null exactly when it is empty; the pages are still partitioned |
| `Vm.Vm.Kfree` | kernel/kalloc.c:42-63 | the page is first on the free list, and no translation and no other page changes |
| `Vm.Vm.Walk` | kernel/vm.c:73-103 | finds the table page of an address, adding table pages if asked to; no translation changes, and failure means the free list ran out |
| `Vm.Vm.Walkaddr` | kernel/vm.c:105-126 | the page a user address translates to, or 0 |
| `Vm.Vm.MapPage` | kernel/vm.c:160-170 | one turn of `mappages`: exactly one translation is added, or none |
| `Vm.Vm.Mappages` | kernel/vm.c:138-172 | adds exactly its range of translations, for pages nothing else uses as well as for the trampoline and trapframes, or on failure exactly a prefix of it |
| `Vm.Vm.UnmapPage` | kernel/vm.c:186-198 | one turn of `uvmunmap`: exactly one translation goes, and its page if asked |
| `Vm.Vm.Uvmunmap` | kernel/vm.c:174-199 | removes exactly its range of translations, that of the trampoline and the trapframe included, and frees exactly their pages if asked |
| `Vm.Vm.Uvmclear` | kernel/vm.c:342-353 | one translation loses its user flag and nothing else changes |
| `UserMemory.RegionBound` | kernel/vm.c:230-256 | an address space never reaches the trapframe page, because physical memory is smaller |
| `UserMemory.Uvmdealloc` | kernel/vm.c:258-274 | exactly the pages above the new size go back to the free list |
| `UserMemory.Uvmalloc` | kernel/vm.c:230-256 | adds zeroed pages with the given permissions up to the new size, or fails, which takes a shortage of memory, and then no translation has changed and every data page is free again |
| `TreeFree.Freewalk` | kernel/vm.c:276-294 | exactly the pages of the tree go back to the free list, and "freewalk: leaf" is unreachable |
| `AddressSpace.BuiltAndGone` | kernel/exec.c:133-135 | an address space built from free pages and then freed leaves every page as it was |
| `AddressSpace.Uvmcreate` | kernel/vm.c:201-212 | an empty tree, or nothing |
| `AddressSpace.Uvmfree` | kernel/vm.c:296-304 | exactly the tree and the memory it maps go back to the free list |
| `AddressSpace.ProcPagetable` | kernel/proc.c:174-206 | a tree with just the trampoline and the trapframe, or on failure every page as it was |
| `AddressSpace.ProcFreepagetable` | kernel/proc.c:208-216 | exactly the tree and its memory go back, the trampoline and the trapframe do not |
| `ProcMemory.Uvmcopy` | kernel/vm.c:306-340 | the child has the same flags and contents on fresh pages; on failure no copy is left |
| `ProcMemory.Growproc` | kernel/proc.c:257-275 | grows with zeroed pages or, for want of memory, not at all; shrinks by freeing the pages above; the size that wraps around changes nothing |
| `ProcMemory.AllocProc` | kernel/proc.c:124-150 | a trapframe page and an empty address space, or nothing |
| `ProcMemory.FreeProc` | kernel/proc.c:152-172 | exactly the trapframe page and the address space, as far as there are any, go back to the free list |
| `ProcMemory.GainedAndBuried` | kernel/proc.c:291-296 | a child that is given up leaves every page as it was |
| `ProcMemory.Fork` | kernel/proc.c:277-300 | the child's memory is a copy on pages of its own, its registers are the parent's but for a0, and the parent is unchanged; for want of memory nothing has changed |
| `UserCopy.Copyout` | kernel/vm.c:355-383 | exactly the longest prefix of the bytes that lies on pages the user may write arrives, and no other byte and no translation changes; 0 if and only if that is all |
| `UserCopy.Copyin` | kernel/vm.c:386-408 | the bytes of the longest prefix on pages the user may read; 0 if and only if that is all; nothing changes |
| `UserCopy.Copyinstr` | kernel/vm.c:411-451 | the string before its NUL if that comes within `max` bytes on pages the user may read, otherwise -1 with all the bytes that could be read; nothing changes |
| `UserCopy.Reach` | kernel/vm.c:355-451 | the longest prefix of a range of addresses that are all allowed |
| `UserCopy.SpaceKernelOnly` | kernel/proc.c:174-206 | the trampoline and the trapframe of a process are not for the user |
| `PageBytes.BytesPut` | kernel/vm.c:355-380 | bytes moved into a page of words read back, and no other byte of it changes |
| `Arguments.ArgumentsSeen` | kernel/exec.c:90-110 | if the arguments fit, the program finds the array of pointers at a stack pointer that is a multiple of 16, and through it every string intact, ended by NUL, and a null pointer at the end |
| `Arguments.ArgumentsFit` | kernel/exec.c:90-110 | they fit if and only if there are fewer than MAXARG and the strings and the array, each rounded up to 16 bytes, take at most a page |
| `ExecImage.SegmentBytes` | kernel/exec.c:58-69 | a segment puts the bytes of the file at its address; of the rest nothing changes, and what is new is zero |
| `ExecImage.DescribedBytes` | kernel/exec.c:52-70 | every byte below the guard page is that of the last segment of the file that covers its address, and zero if none does |
| `ExecImage.DescribedFlags` | kernel/exec.c:65 | every page below the guard page has the permissions of the first segment that reaches it, whatever later segments over it ask for |
| `ExecImage.DescribedStack` | kernel/exec.c:78-110 | above that a guard page the user cannot touch, and a stack page the user can write, with the arguments at the initial stack pointer |
| `Exec.FindPage` | kernel/exec.c:153-156 | "loadseg: address should exist" is unreachable |
| `Exec.Loadseg` | kernel/exec.c:143-166 | the pages hold the segment's bytes of the file, read with `readi` piece by piece; it fails if and only if the file is shorter than the segment |
| `Exec.LoadSegment` | kernel/exec.c:58-69 | the address space is extended and filled exactly as the program header and the file's bytes describe, or can be given back |
| `Exec.LoadSegments` | kernel/exec.c:52-70 | the same for all headers, read from the file, in order |
| `Exec.BuildStack` | kernel/exec.c:78-110 | the guard page, the stack page and the arguments on it exactly as described, or it can be given back; fails only if the arguments do not fit or for want of memory |
| `Exec.Run` | kernel/exec.c:22-141 | either the process has exactly the memory that the file and the arguments describe, a1, epc and sp are set and no other register, and its old memory is free; or nothing has changed; it fails only for a file that is no program, arguments that do not fit, or want of memory; the file system does not change |
| `Pipe.Counters` | kernel/pipe.c:88-113 | the difference of the wrapped counters is the number of bytes in the buffer |
| `Pipe.Pipe.Write` | kernel/pipe.c:76-103 | appends its bytes in order; fails exactly at the first byte where nobody can read or the process is killed, sleeps exactly when the buffer is full there |
| `Pipe.Pipe.Read` | kernel/pipe.c:105-130 | the bytes read are the oldest ones in order; only a byte whose copyout fails is lost; sleeps or fails only when the buffer is empty |
| `FreeList.InsertOrdered` | user/umalloc.c:33-42 | after joining, the free list is in address order and no two blocks touch |
| `FreeList.InsertSum` | user/umalloc.c:33-42 | joining loses no unit and gains none |
| `Umalloc.Heap.FindPlace` | user/umalloc.c:30-32 | the circular search ends at the free block just below |
| `Umalloc.Heap.Free` | user/umalloc.c:24-44 | the block leaves the allocations and is in the free list, joined with what it touches |
| `Umalloc.Heap.Search` | user/umalloc.c:74-88 | a free block that is big enough, if and only if there is one, after at most one round |
| `Umalloc.Heap.Take` | user/umalloc.c:75-84 | the whole block or its tail, and the rest stays free |
| `Umalloc.Heap.Morecore` | user/umalloc.c:46-61 | at least the units asked for are obtained and free, in a block that is big enough |
| `Umalloc.Heap.Malloc` | user/umalloc.c:63-90 | at least `nbytes` that overlap no free block and no other allocation, with free and allocated units still adding up to those obtained; null only when sbrk refuses and no free block is big enough |
| `Umalloc.Units` | user/umalloc.c:69 | room for `nbytes` and a header, and less than one unit more |
| `Sbrk.ArgumentExact` | user/umalloc.c:46-61 | the size passed to sbrk survives the conversion to `int` if and only if malloc was asked for at most 0x7FFFFFE0 bytes |
| `Sbrk.SbrkGives` | user/umalloc.c:46-61 | when `growproc` reports success the process has grown by what malloc wanted if and only if malloc was asked for at most 0x7FFFFFE0 bytes |
| `Sbrk.HugeRequest` | kernel/proc.c:257-275 | `malloc(0x80000000)` in any process: `growproc` reports success and the size does not change |
| `Regex.MatchHere` | user/grep.c:84-96 | true if and only if the text from there on can be cut into segments that fit the pattern; terminates |
| `Regex.MatchStar` | user/grep.c:98-106 | the same for a starred character followed by a pattern |
| `Regex.Match` | user/grep.c:72-82 | the same anywhere in the text, or at its beginning after `^` |
| `Grep.Lines` | user/grep.c:21-29 | writes exactly the complete lines of the buffer up to a NUL that match |
| `Grep.Run` | user/grep.c:11-35 | however `read` splits the input the output is the matching lines before the first NUL, up to the first that does not fit the buffer; with lines of at most 1022 characters, all of them |
| `Grep.Missing` | user/grep.c:18-34 | exactly the matching lines from the first that does not fit are missing |
| `Grep.NothingMissing` | user/grep.c:18-34 | nothing is missing, whatever the pattern, if and only if every line fits the buffer |
| `Grep.LongLineLost` | user/grep.c:18-34 | a matching line of 1023 characters that is not shown |
| `ShellGrammar.RoundTrip` | user/sh.c:345-447 | parsing the tokens of a printed command gives the same command, for every command with at most nine arguments per simple command |
| `ShellGrammar.Stable` | user/sh.c:345-447 | every command the parser builds is one of those |
| `ShellDerivation.AcceptsTheLanguage` | user/sh.c:345-447 | the parser builds a command from a line if and only if the grammar derives the line with that meaning |
| `ShellDerivation.Unambiguous` | user/sh.c:345-447 | no line has two meanings |
| `ShellLexer.LexShow` | user/sh.c:266-309 | reading tokens that were written out gives the same tokens |
| `ShellLexer.TextRoundTrip` | user/sh.c:328-447 | the shell reads a written-out command as the same command |
| `Shell.GetToken` | user/sh.c:266-309 | the next token of the line and the exact place of a word; the cursor moves past it |
| `Shell.Peek` | user/sh.c:311-321 | skips to the next token and no further |
| `Shell.ParseRedirs` | user/sh.c:375-398 | agrees with the grammar, fails exactly when a file is missing |
| `Shell.ParseSimple` | user/sh.c:427-446 | agrees with the grammar on a simple command; at most nine arguments |
| `Shell.ParseBlock` | user/sh.c:400-414 | agrees with the grammar on a parenthesised line |
| `Shell.ParseExecAt` | user/sh.c:416-447 | agrees with the grammar |
| `Shell.ParsePipeAt` | user/sh.c:362-373 | agrees with the grammar |
| `Shell.ParseBacks` | user/sh.c:351-354 | agrees with the grammar on any number of `&` |
| `Shell.ParseLineAt` | user/sh.c:345-360 | agrees with the grammar, and terminates on every line |
| `Shell.Nulterminate` | user/sh.c:449-494 | a NUL at the end of every word and no other change |
| `Shell.ParseCmd` | user/sh.c:328-343 | a syntax error exactly when the grammar has none; otherwise the words of the command, read from the buffer up to NUL, are exactly those of the line |

## Left out

- Boot, traps, assembly, the UART, the PLIC and the initialisation of the disk device: register plumbing.
- Memory ordering: steps are sequentially consistent, and taking or releasing a lock is atomic.
- Scheduler fairness and progress of any kind: only safety is proved. Killing a process sets its flag; what it does when it notices is not modelled.
- Path names (`namei`, `skipelem`): the directories and inodes a system call works on are parameters.
- The file descriptor table, `sys_*` argument fetching and the console.
- Packing of inodes into disk blocks: inodes are records; the bitmap and indirect blocks are bytes.
- Concurrent system calls on one inode: `Inodes` and `Files` are what happens while its lock is held.
- LogSafety.CrashSafety: assumes that a block write is atomic and that callers log blocks outside the log area.
- Files.FileWrite: for a one-block bitmap, as `filewrite` itself assumes.
- Inodes.FileSystem.Writei: the cached view of the disk; that a block with bytes of a faulting copy reverts when it is evicted is in `BufferCache`.
- Links.LinkTable.LinkBegin: `nlink` is an integer; wraparound of a `short` after 32767 links is not modelled.
- Links.LinkTable.Create: a name "." or ".." is refused without looking at the inode it names, because the parent of a removed directory may be gone.
- BufferCache.BCache.Brelse: `releasesleep` and the section under `bcache.lock` are one step.
- LogCache.LogCache.WriteBlock: `bwrite` and the `bunpin` after it are one step; waiting for a sleep lock is not modelled.
- BufferCache.BCache.Store: stands for the assignments to `b->data` by whoever holds the buffer.
- Virtio.Disk.DeviceComplete: the device succeeds; a failed request makes the driver panic.
- SchedSafety.RunKeepsInv: a section that takes and releases one `p->lock` is one step; memory and open files of a process are not part of the machine.
- SchedSafety.SchedChecks: interrupts are not part of the machine, so "sched interruptible" is not covered; `push_off` keeps them off while a lock is held.
- Vm.Vm.UnmapPage: the entry is cleared before its page is freed, not after; the two commute.
- Vm.Vm.Mappages: for user page tables; the mappings of kernel and device memory that `kvmmap` makes are not modelled.
- Vm.Vm.Walk: the loop over levels and the recursion of `freewalk` are unrolled, one method per level. Physical memory is at most the 128 Mbyte of the machine.
- Which bytes of a copy succeed is a parameter of `readi`, `writei` and the pipe; which those are is in `UserCopy`.
- Other CPUs allocate and free pages between the turns of a loop in `Vm`, `UserMemory`, `AddressSpace`, `ProcMemory`, `UserCopy` and `Exec`, whose methods are undisturbed calls: that everything is as it was, and how many free pages suffice, is said of those.
- Exec.Run: not for exactly MAXARG arguments, for which `ustack` has no room for the null pointer and which `sys_exec` never passes (kernel/sysfile.c:446-449); finding the file by its path, `p->name` and the log operation around the reads are not modelled.
- ProcMemory.Fork: open files and the current directory of the child.
- Umalloc.Heap.Malloc: sbrk, if it answers, has given what was asked for; for exactly which sizes it does is `Sbrk.SbrkGives`. Addresses count headers.
- Shell.ParseCmd: commands are values, so an argument is not stored into a node that a redirection already points to; running commands is not modelled.
- Other user programs, what `mkfs` does beyond the root directory, and the tests: thin or not part of the kernel's logic.
