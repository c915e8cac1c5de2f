# AESD character device and socket server: a verified model

This project models, in Dafny 4.11, the two stateful parts of the repository and proves
properties of them.

**The AESD character device** (`aesd-char-driver`). The driver keeps the last ten commands
written to it in a ring of heap-owned byte strings, with a cached byte total. A write without
a newline is held in a partial buffer until a write with a newline completes the command.
Readers walk the ring from a byte position; a command seek walks it the other way.

* `Sequences.dfy`, `Memory.dfy`: concatenation and prefix sums; the kernel heap. A free or a
  read of memory that is not allocated raises a fault instead of getting stuck, the allocator
  may pick any free address (so addresses are reused), and a zero-size request gets the shared
  zero-size pointer.
* `Positions.dfy`: the two walks as functions of the entry sizes. The byte search is given with
  the conversions between `size_t` and `int` that the C code makes, and over mathematical integers.
* `CircularBuffer.dfy`: the ring as a class over an array, for every capacity from 1 up (the
  driver's is 10).
* `DeviceSpec.dfy`: the device its users see: all commands completed so far and the unfinished
  tail, both functions of the log of writes.
* `Interleaving.dfy`: the entry points as a state machine over any number of handles. A call is
  cut wherever another handle can run: staging, taking the lock, each action under the lock,
  releasing it, and freeing the displaced entry afterwards. The ring is represented by the
  history of entries added, which is what the class in `CircularBuffer.dfy` is proved to stand for.
* `AtomicCalls.dfy`: a sequential device that keeps a position for each handle and does one call
  at a time; every run of the state machine is a sequence of its calls.
* `WriteAccounting.dfy`, `HeapAccounting.dfy`: the same runs with a note of which handle made
  each commit, and of where every allocated block is.
* `RequestAccounting.dfy`: every read and seek begun is answered, and every call left alone runs to
  its end from any position.
* `AfterUnlock.dfy`: a run that shows what a reader may no longer look at once it has released
  the lock.
* `CharDevice.dfy`, `SoloWrites.dfy`: the entry points as methods of a class over the real ring
  and heap. A write is a run of the state machine in which no other handle moves
  (`SoloWrites.SoloWrite`, `AesdDevice.WriteAsRun`), so every state of the class is one that the
  machine reaches, and the accounting of blocks holds of its heap (`AesdDevice.BlocksAccounted`).
* `PacketService.dfy`: write, rewind and drain, and seek and drain, as the server does them. Each
  says whether a read went past the 1024 bytes of the connection's buffer.

**The tail queue and the connection lifecycle** (`server`).

* `TailQueue.dfy`: the `TAILQ_*` macros over heap nodes. A back link is a `Slot`, the address of
  the pointer that points at the node, and the last and previous nodes are found by reading a
  node's links as if they were a head.
* `Connections.dfy`: creating and reaping connection records on that linked list. A freed record
  may hold anything afterwards.
* `Lifecycle.dfy`: the protocol between the main thread and the workers as a state machine.
  Touching a freed record raises a fault, and addresses of freed records are reused.
* `QueueRefinement.dfy`: creating a connection and the pass over the linked list are runs of that
  protocol.

## Results about the code that differ from its documentation

* The search truncates the offset to an `int` (aesd-circular-buffer.c:58), so it sees it modulo
  2^32. Its comment promises NULL for a position not in the buffer. That is false at offset 2^32
  with one byte stored (`CFindAliasesAt4GiB`), and it holds exactly for offsets below 2^32 or
  whose remainder modulo 2^32 is past the end (`CFindCorrectIff`, `ReadPastEndIff`). A handle's
  position grows with every completed write, so such offsets are reached without seeking. A read
  at any position delivers what is left at its remainder (`ReadStep`), and a command seek followed
  by a search returns the place sought exactly while that place is below 4 GiB (`SeekThenFindIff`).
* `cb_size` is a `uint32_t`, modelled modulo 2^32. It marks the end of the readable data exactly
  while less than 4 GiB is stored (`CachedSizeIsEndIff`). Only then is there a position at which a
  read delivers nothing (`DrainCanEndIff`), so with more stored the server's read loop does not end.
  Three lines of 2^31 - 1 bytes are such a device (`OverfullNeverDrains`).
* `aesd_read` does not look at the size of the caller's buffer. All reads fit a buffer exactly
  when all live entries that start below 4 GiB do (`ReadsFitBufferIff`), and no buffer is large enough for every device:
  a first line of `count + 1` bytes does not fit `count` (`ReadCanOverrun`).
* The server reads into the 1024 bytes of `write_back_pkt`, which the links of the connection's
  record follow (aesdsocket.c:45-46). `Drain`, `ProcessPacket` and `SeekAndRead` report an overrun
  exactly when one of the chunks read is longer. A complete packet leaves no such entry exactly
  when it, with the pending bytes before it, and every entry that stays in the ring have at most
  1024 bytes (`PacketFitsIff`); a first packet of 1025 bytes is one (`LongPacketOverruns`).
* Two kinds of staging buffers are never freed: that of a write that joins pending data
  (main.c:125-129) and that of a partial write interrupted at the lock (main.c:225-227).
  `LostIsAbandoned` proves that these are all; `JoiningWriteIsLost` and `InterruptedPieceIsLost`
  give a run of each kind.
* The debug print at the end of `aesd_read` (main.c:96) looks at the slot and the block found after
  the lock is released. In a ring of one slot a write can by then have overwritten the one and freed
  the other (`EntryGoneBeforeReturn`).
* The command seek accepts an offset equal to the command's size, and on an empty ring it
  succeeds for any command and rewinds the handle.

## Assumptions

* Sizes of entries and of the partial buffer fit a C `int`. Where this matters it is a
  precondition (`FitInt`, `FitsInt`); elsewhere the arithmetic is unbounded.
* Kernel allocations and copies to and from user memory succeed, at every size. The results at
  4 GiB rest on this: `OverfullNeverDrains` needs allocations far above what `kmalloc` grants.
* The results about the queue (`TailQueue.dfy`, `Connections.dfy`, `Lifecycle.dfy`,
  `QueueRefinement.dfy`) are about records whose links nothing but the queue operations writes.
  They need the case in which no read overruns `write_back_pkt`: `PacketFitsIff` says when that is.
  What a drain is said to deliver after an overrun is what was copied and sent; what the overwritten
  memory does to the rest of the program is not modelled.
* `fixed_size_llseek` is not part of the repository; `FixedSizeLlseek` gives its contract: the
  target must lie between 0 and the size, and a relative seek by 0 reports the position.
* Calls to `pthread_mutex_lock` and `pthread_mutex_unlock` succeed in `Lifecycle.dfy`.
  `Connections.CreateClientThread` covers their failure.
* The server's write and rewind may be interrupted in `ProcessPacket`; it ignores the result of the
  rewind (aesdsocket.c:174), and then drains from where the write left the handle. The reads of a
  drain and the seek request of `SeekAndRead` are taken as not interrupted.
* A write by one call and the position it leaves are those of one handle. Two calls that share
  a handle are two handles here, since each call works on its own copy of the position.
* A read or seek whose wait for the lock is interrupted, and a seek with an unknown `whence`, return
  without touching anything and have no event in `Interleaving.dfy`.

## Model

| member | source | states |
|---|---|---|
| `Interleaving.SafeInEveryRun` | aesd-char-driver/main.c:60-295 | Over every interleaving of any number of writers, readers and seekers and every choice of addresses: no double free, no read or free of unallocated memory; every pointer in the ring, the partial buffer or a call in progress is allocated, holds what its holder expects, and is held once; the lock has one holder. The debug prints at lines 96 and 208, which read buffers as strings, the first after the unlock, are excluded. |
| `Interleaving.LockMeansBusy` | aesd-char-driver/main.c:71-295 | In every run, the lock is held by exactly the handle that is neither idle, nor staging, nor past its release. |
| `Memory.KfreeMeaning` | aesd-char-driver/main.c:222-227 | A free removes its block, and is a fault exactly if the block is not allocated. |
| `Memory.TouchMeaning` | aesd-char-driver/main.c:82-84 | A read is a fault exactly if it leaves an allocated block. |
| `HeapAccounting.BadAccessFaults` | aesd-char-driver/main.c:82-227 | The copy of a read, the free after the unlock and the free of an interrupted write raise a fault exactly on memory that is not allocated. |
| `AtomicCalls.RunIsAtomic` | aesd-char-driver/main.c:60-295 | Every run, whatever the interleaving, is the sequence of its calls done one at a time on a sequential device that keeps the position of each handle: the same writes, the same positions and answers of every read and seek, every handle where its calls put it, and the same contents in memory. |
| `AtomicCalls.StepRefines` | aesd-char-driver/main.c:60-295 | Every step of the machine is one such call or invisible: a write takes effect at its commit or append, a read at its copy, a seek at its answer. |
| `RequestAccounting.EveryRequestIsAnswered` | aesd-char-driver/main.c:60-295 | In every run, the reads and seeks that a handle began, with what it asked for, are those served to it, each once and in its order, followed by at most one more, during which it holds the lock. |
| `RequestAccounting.ReadAlone` | aesd-char-driver/main.c:60-98 | From every reachable state and position, a read left alone ends, moves its handle by what the device holds there, is recorded with it, and changes nothing else. |
| `RequestAccounting.SeekAlone` | aesd-char-driver/main.c:273-295 | So does a command seek, to where the live commands put it. |
| `RequestAccounting.LlseekAlone` | aesd-char-driver/main.c:244-271 | So does a seek by bytes, bounded by the length of the file modulo 2^32. |
| `RequestAccounting.WriteAlone` | aesd-char-driver/main.c:157-242 | So does a write: it takes effect, and with a newline it leaves its handle past the pending data and its own. |
| `Interleaving.Linearizable` | aesd-char-driver/main.c:60-295 | In every run, memory holds exactly what the committed writes done one at a time in lock order would leave, and every read, command seek and seek by bytes was answered as by that sequential device at its place in the order and at the position recorded, which `AtomicCalls.RunIsAtomic` ties to the earlier calls of the handle. |
| `WriteAccounting.EveryWriteTakesEffectOnce` | aesd-char-driver/main.c:157-242 | In every run, the uninterrupted writes of each handle are its commits, each once and in the handle's own order, followed by the one still under way. |
| `Interleaving.NothingLost` | aesd-char-driver/main.c:189-236 | In every run, the bytes each entry had in memory when it was added, evicted entries included, followed by the unfinished bytes as they lie in memory, even while a writer has taken them over, are all bytes committed, in lock order; and no live entry has changed since it was added. |
| `HeapAccounting.LostIsAbandoned` | aesd-char-driver/main.c:109-236 | In every run, the allocated blocks that nobody holds are exactly the staging buffers of writes that joined pending data and of partial writes interrupted at the lock: everything else is freed when it is let go, and nothing lost is touched again. |
| `HeapAccounting.JoiningWriteIsLost` | aesd-char-driver/main.c:125-129 | A run of one handle, a letter and then a newline, after which the newline's staging buffer is lost. |
| `HeapAccounting.InterruptedPieceIsLost` | aesd-char-driver/main.c:193-227 | A run in which a letter is interrupted at the lock, after which its staging buffer is lost. |
| `HeapAccounting.StepAccounts` | aesd-char-driver/main.c:176-236 | One step loses exactly the staging buffer it abandons, if any. |
| `HeapAccounting.NewlyLost` | aesd-char-driver/main.c:109-227 | A block a step loses is the buffer staged by a write without a newline that it interrupts, or by a write that it joins to pending data. |
| `HeapAccounting.InterruptedBuffer` | aesd-char-driver/main.c:193-227 | An interrupted write frees its buffer if it holds a newline and loses it if it does not. |
| `Interleaving.WriteMovesHandle` | aesd-char-driver/main.c:213-221 | Whatever other handles do from its commit on, a complete write leaves its handle past the whole command, pending bytes included. |
| `Interleaving.ReadMovesHandle` | aesd-char-driver/main.c:82-91 | A read moves its handle by what the device holds at its position. |
| `Interleaving.SeekMovesHandle` | aesd-char-driver/main.c:244-295 | Whatever other handles do from its answer on, a seek leaves its handle where the sequential device would put it, though the seek by bytes moves it only after the unlock. |
| `Interleaving.LogGrowsUnderLock` | aesd-char-driver/main.c:193-236 | Only the lock holder makes a write take effect, and by exactly what it staged. |
| `Interleaving.InterruptChangesNothing` | aesd-char-driver/main.c:193-227 | A write interrupted at the lock leaves the ring, the partial buffer and their contents as they were. |
| `Interleaving.CopyDelivers` | aesd-char-driver/main.c:74-85 | Between a reader's search and its copy, whatever others do, the entry found stays allocated; the copy delivers the device's bytes at that position and at least one of them. |
| `Interleaving.PartialDataJoins` | aesd-char-driver/main.c:109-130 | Growing the partial buffer joins old and new contents, reads only allocated memory, and frees exactly the old buffer. |
| `Interleaving.StepKeeps` | aesd-char-driver/main.c:60-295 | Every step of every call keeps ownership, contents, lock discipline and the record of reads and seeks. |
| `Interleaving.MemoryHoldsDevice` | aesd-char-driver/main.c:190-236 | The blocks behind the ring entries are the last commands and the partial buffer's block is the unfinished tail. |
| `Interleaving.HolderAdvances` | aesd-char-driver/main.c:71-91 | The lock is never stuck: in every reachable state its holder has a step of its own that brings it strictly closer to release. |
| `Interleaving.OthersCannotDelay` | aesd-char-driver/main.c:193-214 | No step of another handle takes the lock away or sets its holder back. |
| `Interleaving.LiveFreeable` | aesd-char-driver/aesd-circular-buffer.c:148-180 | In every reachable state the live entries can be freed, each once, without touching the partial buffer. |
| `DeviceSpec.Conservation` | aesd-char-driver/main.c:189-236 | For every log of writes, the commands completed followed by the tail are the log's bytes. |
| `DeviceSpec.NewlineDiscipline` | aesd-char-driver/main.c:137-155 | For every log, each command contains a byte 10 and the tail contains none. |
| `DeviceSpec.WriteMeaning` | aesd-char-driver/main.c:137-155 | A byte 10 anywhere in a write completes a command of the pending data and all of the write; without one the write is only remembered. |
| `DeviceSpec.NewlineInTheMiddle` | aesd-char-driver/main.c:143-148 | A write of "a", newline, "b" is one command. |
| `DeviceSpec.LiveNonEmpty` | aesd-char-driver/main.c:190-232 | In every reachable device the live entries are non-empty, so a read that finds data makes progress. |
| `DeviceSpec.CommandCount` | aesd-char-driver/main.c:189-213 | There are as many commands as writes that contain a byte 10. |
| `DeviceSpec.Fragmentation` | aesd-char-driver/main.c:198-235 | Any newline-free writes followed by one with a newline leave the same commands, tail, contents, cached size and handle position as one write of their concatenation. |
| `DeviceSpec.RestStep` | aesd-char-driver/main.c:74-85 | Reading an entry to its end leaves exactly the later entries. |
| `DeviceSpec.ReadStep` | aesd-char-driver/main.c:60-98 | At any position, taken modulo 2^32, a read takes the first piece of what is left and leaves the others, or delivers nothing exactly when nothing is left. |
| `DeviceSpec.ReadTakesFirst` | aesd-char-driver/main.c:74-85 | With less than 4 GiB stored, the position a read leaves behind, from any position on, is where the later pieces begin. |
| `DeviceSpec.DrainCanEndIff` | server/aesdsocket.c:177 | Some read delivers nothing, so that the read loop can end, exactly while less than 4 GiB is stored. |
| `DeviceSpec.OverfullNeverDrains` | aesd-char-driver/main.c:74-80 | With three lines of 2^31 - 1 bytes stored no read delivers nothing, and the byte at the cached size is readable. |
| `DeviceSpec.RestIsSuffix` | aesd-char-driver/main.c:60-98 | What is left at a position is the file from there on, in at most one piece per live entry. |
| `DeviceSpec.ReadPastEndIff` | aesd-char-driver/main.c:74-80 | When exactly a read at or past the end delivers nothing. |
| `DeviceSpec.ReadableIff` | aesd-char-driver/aesd-circular-buffer.c:54-93 | Below 2^32 a position is readable iff it lies in the file. |
| `DeviceSpec.ReadIsFileBytes` | aesd-char-driver/main.c:74-85 | A read inside the file delivers its bytes from the position to the end of the entry that holds it; one at or past the end delivers nothing. |
| `DeviceSpec.CachedSizeIsEndIff` | aesd-char-driver/main.c:258-263 | When exactly the cached size separates readable positions from the others. |
| `DeviceSpec.ReadsFitBufferIff` | aesd-char-driver/main.c:83-85 | When exactly every read fits a buffer of a given size, however much is stored. |
| `DeviceSpec.ReadCanOverrun` | aesd-char-driver/main.c:83-85 | For every buffer size, a device on which a read delivers one byte more. |
| `DeviceSpec.NewestIsWrite` | aesd-char-driver/main.c:198-213 | The newest live entry is the earlier tail followed by the write just completed. |
| `DeviceSpec.FileEndsWithWrite` | aesd-char-driver/main.c:198-213 | After a completed write the file ends in the earlier tail followed by the data. |
| `Positions.CFindIsLocateModulo` | aesd-char-driver/aesd-circular-buffer.c:54-93 | The C search with its integer conversions is the exact search at the offset modulo 2^32. |
| `Positions.CFindCorrectIff` | aesd-char-driver/aesd-circular-buffer.c:44-93 | When exactly the C search is right about an offset. |
| `Positions.CFindAliasesAt4GiB` | aesd-char-driver/aesd-circular-buffer.c:58 | An offset past the end that the C search answers with the first byte. |
| `Positions.CFindInRange` | aesd-char-driver/aesd-circular-buffer.c:73-75 | Whatever the conversions do, a place found lies inside a live entry. |
| `Positions.LocateMeaning` | aesd-char-driver/aesd-circular-buffer.c:54-93 | The search finds the entry that holds the byte and fails exactly at and past the end. |
| `Positions.PlaceUnique` | aesd-char-driver/aesd-circular-buffer.c:44-53 | At most one entry and offset stand for a position. |
| `Positions.LocateIndexesConcat` | aesd-char-driver/aesd-circular-buffer.c:44-53 | The search agrees with indexing the entries laid end to end. |
| `Positions.SeekFromIsSeek` | aesd-char-driver/aesd-circular-buffer.c:201-223 | From any entry on, the counting loop reaches the result that the seek promises. |
| `Positions.SeekMeaning` | aesd-char-driver/aesd-circular-buffer.c:190-226 | The seek succeeds exactly on an empty ring, to 0, or for a live command and an offset up to its size, to the sizes before it and the offset; it fails with -22 and leaves the position. |
| `Positions.LlseekMeaning` | aesd-char-driver/main.c:264 | The target of each kind of seek by bytes; outside the file it fails with -22 and leaves the position. |
| `Positions.SeekThenFindIff` | aesd-char-driver/aesd-circular-buffer.c:183-226 | After a seek to an offset inside a command, the C search returns that command and offset, exactly while the place is below 4 GiB. |
| `Positions.FindThenSeek` | aesd-char-driver/aesd-circular-buffer.c:183-226 | Seeking to the place that the C search found returns to the position searched, modulo 2^32. |
| `Positions.SeekPastThenFindIff` | aesd-char-driver/aesd-circular-buffer.c:203-206 | After a seek to an offset equal to the command's size, the C search returns the next command's first byte, or nothing at the end of data, exactly while the place is below 4 GiB. |
| `CircularBuffers.CircularBuffer.StateAfterAdds` | aesd-char-driver/aesd-circular-buffer.c:102-140 | After n adds: `in_offs` is n modulo the capacity, `full` iff n reaches it, the slots from `out_offs` hold the last entries oldest first, and `cb_size` is their total modulo 2^32. |
| `CircularBuffers.CircularBuffer.constructor` | aesd-char-driver/aesd-circular-buffer.c:137-140 | Initialisation gives the ring of no adds. |
| `CircularBuffers.CircularBuffer.AddEntry` | aesd-char-driver/aesd-circular-buffer.c:102-132 | An add appends to the history and returns the pointer of the entry that left the window, or null. |
| `CircularBuffers.EvictedLeaves` | aesd-char-driver/aesd-circular-buffer.c:108-118 | The pointer returned is that of the oldest entry of a full ring, which is the one that leaves it; otherwise null. |
| `Sequences.WindowMeaning` | aesd-char-driver/aesd-circular-buffer.c:95-101 | The live entries are the last ones, at most as many as there are slots, in order. |
| `CircularBuffers.InOffsIsModulo` | aesd-char-driver/aesd-circular-buffer.c:34-41 | Repeated stepping of the index is reduction modulo the capacity. |
| `CircularBuffers.CachedTotalAdd` | aesd-char-driver/aesd-circular-buffer.c:114-128 | The update of `cb_size` follows the true total modulo 2^32, evicting or not, for sizes of any magnitude. |
| `CircularBuffers.DescribesAdd` | aesd-char-driver/aesd-circular-buffer.c:108-128 | Slots, indices, flag and total again describe the history after one more entry. |
| `CircularBuffers.CircularBuffer.FindEntryOffset` | aesd-char-driver/aesd-circular-buffer.c:54-93 | The wrapping loop ends and finds in the array what the search finds in the live entries, full rings with equal indices included. |
| `CircularBuffers.CircularBuffer.AdjustFileOffset` | aesd-char-driver/aesd-circular-buffer.c:183-226 | Succeeds exactly if the ring is empty, with position 0, or the command is live and the offset at most its size, with the sizes before it plus the offset; every failure is -22 and leaves the position. |
| `CircularBuffers.CircularBuffer.Cleanup` | aesd-char-driver/aesd-circular-buffer.c:148-180 | The wrapping walk frees the live pointers, oldest first. |
| `CircularBuffers.CircularBuffer.SweepFree` | aesd-char-driver/aesd-circular-buffer.h:71-88 | The sweep in slot order frees what the slots hold. |
| `CircularBuffers.CircularBuffer.SweepMeetsLive` | aesd-char-driver/aesd-circular-buffer.h:85-88 | The sweep meets the live pointers as often as the walk does, and null otherwise. |
| `CircularBuffers.CircularBuffer.WalkAndSweepAgree` | aesd-char-driver/aesd-circular-buffer.h:71-88 | Walk and sweep leave the same heap. |
| `AfterUnlock.EntryGoneBeforeReturn` | aesd-char-driver/main.c:91-96 | A run in which, after a reader has released the lock and before it returns, a write has freed the block it found and replaced its entry. |
| `Memory.FreeAllRemoves` | aesd-char-driver/aesd-circular-buffer.c:163-176 | Freeing distinct allocated blocks in any order removes exactly those and raises no fault. |
| `CharDevice.IsDataPartial` | aesd-char-driver/main.c:137-155 | True iff no byte is 10. |
| `CharDevice.AesdDevice.constructor` | aesd-char-driver/main.c:334-340 | The device starts empty. |
| `CharDevice.AesdDevice.Write` | aesd-char-driver/main.c:157-242 | Over the real ring and heap: with a byte 10 the pending data and the write become a command and the handle moves past it; without one the write joins the pending data; interrupted, it has no effect, and frees its buffer if it held a newline. Memory holds the live commands. |
| `CharDevice.AesdDevice.WriteAsRun` | aesd-char-driver/main.c:157-242 | A write extends the run of the state machine that led to the present state by exactly the steps of one undisturbed write. |
| `CharDevice.AesdDevice.BlocksAccounted` | aesd-char-driver/main.c:157-242 | Every block allocated on the device's heap is held by the ring or the partial buffer or was abandoned by an earlier step. |
| `SoloWrites.SoloWrite` | aesd-char-driver/main.c:157-242 | An undisturbed write, interrupted, partial or complete, is a run of the machine to the shared memory and position it leaves. |
| `CharDevice.AesdDevice.Read` | aesd-char-driver/main.c:60-98 | Delivers what the sequential device holds at the position and advances by that much; the copy stays in allocated kernel memory, and goes past the caller's buffer exactly when more is delivered than fits it. |
| `CharDevice.AesdDevice.Llseek` | aesd-char-driver/main.c:244-271 | The target of each kind of seek must lie within the cached size; every failure has its own code and leaves the position. |
| `CharDevice.LlseekLandsInFile` | aesd-char-driver/main.c:244-271 | A seek that moves lands in the data or at its end, and only there does the next read find nothing. |
| `CharDevice.AesdDevice.Ioctl` | aesd-char-driver/main.c:273-295 | The seek request succeeds exactly on an empty device or for a live command and an offset up to its size, and moves the handle to that byte; every failure has its own code and leaves the position. |
| `CharDevice.AesdDevice.Cleanup` | aesd-char-driver/main.c:350-372 | Unloading frees each live entry once and nothing else, without a fault. |
| `CharDevice.AesdDevice.ContentsFollowSpec` | aesd-char-driver/main.c:157-242 | The bytes reachable from the ring and the partial buffer are those of the sequential device. |
| `PacketService.Drain` | server/aesdsocket.c:177-183 | From any position, reading until nothing is left passes on exactly what is left there, in order; a peer that refuses a chunk has got the chunks before it, and the handle stands after the refused one, where the later ones are left; `write_back_pkt` is overrun exactly when a chunk read is longer than 1024 bytes. |
| `PacketService.ProcessPacket` | server/aesdsocket.c:147-193 | Write, rewind and drain send every live entry, and after a complete packet the last of them is the earlier pending bytes followed by the packet; if the rewind is interrupted, what is left where the write put the handle is sent instead; the final position and the overruns of `write_back_pkt` are exactly those of the chunks read. |
| `PacketService.PacketFitsIff` | server/aesdsocket.c:45-177 | Before the write, when exactly a complete packet leaves no live entry longer than the buffer. |
| `PacketService.BufferSufficesIff` | server/aesdsocket.c:177 | No live entry is longer than the buffer exactly when no read at any position is. |
| `PacketService.LongPacketOverruns` | server/aesdsocket.c:45-177 | A first packet of 1025 bytes is one live entry of that length. |
| `PacketService.SeekAndRead` | server/aesdsocket.c:213-223 | A seek to a live command sends the rest of it and every later one, with the same results for a refusal, the position and an overrun; on an empty device nothing is sent; a failing seek sends nothing and leaves the position. |
| `PacketService.RestAfterSeek` | server/aesdsocket.c:213-223 | What is left there is the rest of the command, if any, and every later one. |
| `TailQueues.Init` | server/queue.h:656-660 | The head represents the empty sequence. |
| `TailQueues.InsertHead` | server/queue.h:687-698 | Prepends. |
| `TailQueues.InsertTail` | server/queue.h:700-708 | Appends. |
| `TailQueues.InsertAfter` | server/queue.h:662-675 | Inserts after the given position. |
| `TailQueues.InsertBefore` | server/queue.h:677-685 | Inserts before the given position, without the head. |
| `TailQueues.Remove` | server/queue.h:718-734 | Removes the node at any position and leaves that node's own links alone. |
| `TailQueues.Concat` | server/queue.h:601-610 | Moves the second queue's nodes behind the first's and empties the second. |
| `TailQueues.Swap` | server/queue.h:736-751 | Exchanges the sequences of two queues. |
| `TailQueues.Last` | server/queue.h:710-711 | Reading an entry's links as a head finds the last node, null if there is none. |
| `TailQueues.Prev` | server/queue.h:715-716 | Reading an entry's links as a head finds the predecessor, null for the first node. |
| `TailQueues.Foreach` | server/queue.h:616-619 | The forward loop ends and visits the sequence. |
| `TailQueues.ForeachReverse` | server/queue.h:636-639 | The reverse loop ends and visits exactly the reverse of the forward order. |
| `TailQueues.LinksUnique` | server/queue.h:553-558 | The memory determines the sequence. |
| `TailQueues.LinksDistinct` | server/queue.h:553-558 | The nodes of a well-formed queue are distinct. |
| `Connections.CheckForFinished` | server/aesdsocket.c:105-137 | One pass leaves exactly the unfinished records in order and untouched, and returns their number; each finished one, and no other, has its thread joined, its two descriptors closed and its record freed, in that order, once, after the same for the earlier ones; freed records may hold anything. |
| `Connections.FreedOnce` | server/aesdsocket.c:117-128 | In the actions of a pass each finished record is freed exactly once and no unfinished one at all. |
| `Connections.Visit` | server/aesdsocket.c:117-128 | The loop body with the next node read first keeps the pass on course after unlinking and freeing; it joins, closes and frees a finished record and does nothing to another. |
| `Connections.UnfinishedMembers` | server/aesdsocket.c:117-128 | A record is kept iff its own flag was clear. |
| `Connections.CreateClientThread` | server/aesdsocket.c:58-103 | A record enters the queue, at its tail, exactly when its thread was started and the lock obtained, for every way the calls can fail, the allocation included, and whether or not the thread has finished by then; it keeps the descriptors and the thread id that the reaper closes and joins. |
| `QueueRefinement.CreateAsProtocol` | server/aesdsocket.c:58-103 | Given an address not in use, creating a connection, failing or not, is a run of the protocol to the queue and the flags that the list then stands for. |
| `Lifecycle.EnqueueRuns` | server/aesdsocket.c:82-100 | The protocol's steps put a new record at the tail, flagged exactly if its thread was done by then, and change no other record. |
| `QueueRefinement.CheckAsProtocol` | server/aesdsocket.c:105-137 | Whenever the protocol can make a pass over the queue that the list stands for, it has a run to the queue that the list stands for afterwards, to the count returned, and to the records freed, in order. |
| `Lifecycle.NoUseAfterFree` | server/aesdsocket.c:82-134 | In every run no thread touches a freed record, and a record is freed only after its worker was joined. |
| `Lifecycle.JoinNeverDeadlocks` | server/aesdsocket.c:117-124 | In every run a join made under the lock waits only for a worker that has released the lock and needs it no more, even one that finished before its record was enqueued. |
| `Lifecycle.LostIsForgotten` | server/aesdsocket.c:62-124 | In every run the allocated records that are neither queued nor in the main thread's hands are exactly those whose device could not be opened. |
| `Lifecycle.EnqueuedIsReapedPlusQueued` | server/aesdsocket.c:94-124 | In every run the records enqueued are those reaped plus those queued, each once. |
| `Lifecycle.PassReturnsRemaining` | server/aesdsocket.c:105-137 | A pass leaves the queue it found at the lock without the records whose flag was set then, in order, reaps those in order, and returns the length of what is left; no flag changes while it runs. |
| `Lifecycle.PassRuns` | server/aesdsocket.c:105-137 | From every reachable state in which the lock is free for it, a pass has a run to its end that takes the lock once and leaves the queue so filtered, whatever the workers were doing. |
| `Lifecycle.ExitsOnlyWhenDrained` | server/aesdsocket.c:501-503 | The program ends only with an empty queue, no worker, and every record ever enqueued reaped. |
| `Lifecycle.OnlyShutdownDrains` | server/aesdsocket.c:481-503 | In every run the server drains its connections, or ends, only after it was told to shut down. |
| `Lifecycle.ShutdownIsFinal` | server/aesdsocket.c:481-503 | Told so while accepting, it drains from then on and takes no further connection. |
| `Lifecycle.AfterPass` | server/aesdsocket.c:493-503 | After a pass the accept loop goes round again; when draining, passes are made until none is left, and then the program ends. |
| `Lifecycle.AcceptLoopGoesRound` | server/aesdsocket.c:481-498 | Finding no client, the server can make a pass and is then accepting again, with the finished records gone. |
| `Lifecycle.WorkerEnds` | server/aesdsocket.c:120 | A worker is gone only after it has exited, by the join of its record. |
| `Lifecycle.WorkerMoves` | server/aesdsocket.c:275-288 | A worker serves, waits for the lock, sets its flag under it, releases it and exits, each by its own step. |
| `Lifecycle.FreedAccessFaults` | server/aesdsocket.c:252-283 | A worker's access to its record is a fault exactly if the record is not allocated. |
| `Lifecycle.FreedAccessByMainFaults` | server/aesdsocket.c:82-125 | So is each of the main thread's. |
| `Lifecycle.KeptMembers` | server/aesdsocket.c:117-128 | The records a pass keeps and those it drops are told apart by their flags alone, and are all of them. |
| `Lifecycle.ShutdownEnds` | server/aesdsocket.c:501-503 | Once all workers have exited, exactly one more pass of the shutdown loop ends the program, in three steps for each queued record and three more. |
| `Lifecycle.LockIsReleased` | server/aesdsocket.c:112-134 | Whenever `queue_lock` is held, some thread can take a step without it that brings its release strictly closer. |
| `Lifecycle.ReleaseNeverRecedes` | server/aesdsocket.c:277-287 | No step of any thread pushes the release further away. |

## Left out

- The receive loop of a connection (server/aesdsocket.c:252-273): it scans 1024 bytes whatever arrived and never resets its length, so it has no framing property to state.
- Parsing of the seek command with `strtok` and `atoi` (server/aesdsocket.c:197-212); the ioctl it triggers is modelled.
- Failing kernel allocations and failing user copies (main.c:117-121, 177-187, 86-89); the model takes them to succeed.
- Freeing of the partial buffer at unload: the code does not do it, and `AesdDevice.Cleanup` states that it stays allocated.
- Wrap-around of `part_buf_size` and `total_buf_size` beyond `int`: taken not to happen.
- SafeInEveryRun: does not cover the debug prints that read buffers as strings (main.c:96, after the lock is released, and main.c:208), because what they read depends on bytes past the buffer and, at line 96, on the slot and its block after the unlock, when a writer may have replaced the one and freed the other (`EntryGoneBeforeReturn`); they change no state.
- Registration of the module and device, sockets, signals, fork and logging: not part of the state.
- SLIST, STAILQ and LIST in queue.h: the same shape as TAILQ and unused here.
- The timer and the file variant compiled out by `USE_AESD_CHAR_DEVICE`.
- finder-app, examples and test scaffolding: thin wrappers around system calls.
