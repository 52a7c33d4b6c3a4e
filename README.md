# kacchiOS kernel core in Dafny

This project models the core of kacchiOS, a small 32-bit x86 teaching kernel. It covers:

- **Memory manager** (`memory.c`, module `Memory`). A first-fit heap over one 1 MiB arena.
  - The heap is an address-ordered list of blocks, each with a 20-byte header.
  - A free block is split when the remainder is worth a new header.
  - `kfree` coalesces a freed block with its next neighbour, then with its previous one.
  - `heap_used` counts the bytes handed out.
  - A table of at most 256 process stacks of 8 KiB each is carved out of the heap.
- **Process manager** (`process.c`, module `Process`).
  - A table of 32 process control blocks (PCBs), with the null process in slot 0.
  - The globals `next_pid`, `current_pid` and `process_count`.
  - Process creation, with a stack from the heap, and termination, which frees that stack and purges the process's messages.
  - The state setter and the lookups.
  - The IPC message queue, whose nodes and payloads live in heap blocks.
- **Scheduler** (`scheduler.c`, module `Scheduler`).
  - The ready queue threaded through the PCBs.
  - The Round Robin, Priority and FCFS policies.
  - Aging.
  - The logical context switch, the timer tick, the three configuration setters, and the ready-queue count of `scheduler_stats`.
- **String and memory helpers** of `types.h` (module `CStr`): `strlen`, `strcmp`, `strcpy`, `memcpy` and `memset`, over byte arrays.
- **`itoa`** of `io.c` (module `Itoa`): the digit loop, the sign, the terminator and the in-place reversal.
- **Shared sequence helpers** (module `Seqs`): dropping one entry by position, as the stack table, the message queue and the ready queue all do.

## How the model is built

Each module has two layers:

1. **Value-level functions.** They say what each C function does to the globals: `Memory.Malloc`, `Process.Create`, `Scheduler.Scheduled` and so on.
2. **A class holding the globals.** `Memory.Heap`, `Process.ProcessTable` and `Scheduler.Scheduler` implement the C functions with the same loops (first-fit walk, stack shift, slot search, message walk, priority insertion walk, minimum walk, aging walk, queue count).

Each method is proved equal to its function on the abstract state (`State()` / `Snapshot()`). The properties of the kernel are then proved as lemmas about the functions.

The ready queue and the message queue are modelled as sequences in list order. Intrusive `next` pointers are not modelled. A PCB pointer is its slot index in the table, and -1 stands for NULL. uint32 arithmetic is reduced modulo 2^32 where the source relies on it:

- `heap_used`;
- the tick and switch counters;
- the CPU time;
- the `(size + 7) & ~7` rounding;
- the unsigned comparison in aging.

The model follows the code as written, including these behaviours:

- `context_switch` never changes `current_pid`. kmain's loop therefore keeps seeing the null process as current, and after three rounds processes 1 to 3 are all CURRENT at once (`Scheduler.KernelDemo`).
- `set_process_state(pid, CURRENT)` demotes nobody, so two PCBs can be CURRENT (`Process.TwoCurrent`).
- Aging raises the priority *value* of waiting PCBs and lowers the selected one's. Under Priority scheduling, where a lower value wins, this keeps the same PCB selected (`Scheduler.AgingEntrenches`).
- `terminate_process(-1)` matches a free slot, whose pid is the marker -1, and still decrements `process_count` (`Process.TerminateFreeMarker`).
- Freeing a block that is already free subtracts its size from `heap_used` again (`Memory.DoubleFreeMiscounts`).
- A request within 7 bytes of 2^32 rounds to 0 and is granted (`Memory.HugeRequestRoundsToZero`).

## Model

| member | source | states |
|---|---|---|
| Memory.Wrap | memory.c:8 | reduction to uint32: the result is below 2^32 and equals its argument when that is already in range |
| Memory.RoundUp8 | memory.c:80 | `(size + 7) & ~7`: a multiple of 8 at least size and less than size + 8, or 0 when size + 7 overflows 32 bits |
| Memory.FirstFit | memory.c:82-84 | the first free block, in address order, holding the request; no earlier block holds it; -1 when none does |
| Memory.Alloc | memory.c:82-107 | no fitting block: nothing changes and the address is 0; otherwise the first fit is handed out at its start address |
| Memory.Split | memory.c:86-99 | a split adds exactly one block to the list |
| Memory.AllocShape | memory.c:86-104 | a grant either splits the block into an in-use block of the request's size followed by a free remainder after a header, or hands the block out whole when the remainder is too small |
| Memory.AllocKeepsLayout | memory.c:86-104 | after kmalloc the blocks still tile the arena exactly, headers included, and no two free blocks are adjacent |
| Memory.AllocUsedSum | memory.c:101-102 | a grant adds exactly the size of the block handed out to the bytes in use |
| Memory.IndexOf | memory.c:118-120 | the block whose start is the freed address; no earlier block starts there; -1 when none does |
| Memory.IndexOfStart | memory.c:118-120 | in a contiguous list, each block's start address finds that block |
| Memory.MarkFree | memory.c:121 | the freed block becomes free and the list keeps its length |
| Memory.MergeNext | memory.c:125-131 | coalescing with the next block keeps the freed block at its index and removes at most one block |
| Memory.MergePrev | memory.c:134-140 | coalescing with the previous block removes at most one block |
| Memory.ReleaseShape | memory.c:121-140 | kfree replaces the run from the free predecessor (if any) to the free successor (if any) by one free block, starting where the run starts, that spans the run's bytes and inner headers |
| Memory.ReleaseKeepsLayout | memory.c:121-140 | after kfree the blocks still tile the arena and no two free blocks are adjacent |
| Memory.ReleaseUsedSum | memory.c:121-140 | freeing an in-use block removes exactly its size from the bytes in use |
| Memory.ReleaseFreeBlock | memory.c:121-140 | freeing a block that is already free leaves the block list as it is |
| Memory.Malloc | memory.c:76-111 | kmalloc: NULL with nothing changed for size 0 or when no block fits; otherwise the first fit's start address, and the stack table untouched |
| Memory.Free | memory.c:114-149 | kfree: NULL and addresses that start no block change nothing; the stack table is never touched |
| Memory.StackIndex | memory.c:58-59 | the first stack record of pid; no earlier record has it; -1 when none does |
| Seqs.RemoveAt | memory.c:63-66 | the records before i stay, those after i move down one place, and there is one fewer |
| Memory.StackAlloc | memory.c:33-54 | a full table or a failed kmalloc returns 0 and records nothing; otherwise the kmalloc of STACK_SIZE bytes, recorded for pid at the tail of the table, and its top address base + STACK_SIZE is returned |
| Memory.Recorded | memory.c:47-50 | one record (base, STACK_SIZE, pid) is appended and the heap is untouched |
| Memory.StackFree | memory.c:57-73 | an unknown pid changes nothing; otherwise the base of pid's first record is freed and only that record is dropped |
| Memory.MallocKeepsSound | memory.c:76-111 | kmalloc keeps the layout invariant of the arena and the bound on the stack table |
| Memory.FreeKeepsSound | memory.c:114-149 | kfree keeps the layout invariant whatever address it is given |
| Memory.MallocGrant | memory.c:80-104 | a successful kmalloc hands out the first fitting block; that block is no longer free, its size is the rounded request or all of the block, and heap_used grows by that size |
| Memory.FreeNeighbours | memory.c:125-140 | under the invariant, the neighbours of a free block are in use |
| Memory.AllocAddrIndex | memory.c:104 | the address kmalloc returns starts the block it handed out |
| Memory.AllocReleaseInverse | memory.c:86-140 | coalescing the block just split off or taken gives back the original list |
| Memory.SplitThenRelease | memory.c:86-140 | splitting a free block and freeing the in-use half restores the list |
| Memory.TakeThenRelease | memory.c:101-140 | taking a whole free block and freeing it restores the list |
| Memory.MallocFreeInverse | memory.c:76-149 | kfree of the address kmalloc just returned restores the heap exactly, heap_used included |
| Memory.MallocKeepsAccounted | memory.c:101-102 | while heap_used equals the bytes of the blocks in use, kmalloc keeps it so |
| Memory.FreeKeepsAccounted | memory.c:120-122 | kfree of NULL, of an unknown address or of an in-use block keeps heap_used equal to the bytes in use |
| Memory.DoubleFreeMiscounts | memory.c:120-122 | freeing the start of a free block leaves every block as it was but still subtracts its size from heap_used (mod 2^32) |
| Memory.StackAllocFreeInverse | memory.c:33-73 | free_stack undoes allocate_stack for a pid that had no stack: the heap and the table are as before |
| Memory.RecordedThenFree | memory.c:57-73 | free_stack of the pid recorded last, and nowhere else, frees its block and drops its record |
| Memory.StackAllocKeepsSound | memory.c:33-54 | allocate_stack keeps the invariant and adds at most one record |
| Memory.StackFreeKeepsSound | memory.c:57-73 | free_stack keeps the invariant and adds no record |
| Memory.BlockInArena | memory.c:17-19 | every block lies inside the arena, after its own header |
| Memory.MallocInArena | memory.c:76-111 | kmalloc returns NULL only when nothing changed; any other address lies inside the arena, with the granted bytes inside it too |
| Memory.StackTopInArena | memory.c:33-54 | a returned stack top is the end of a STACK_SIZE block inside the arena; 0 means nothing changed |
| Memory.HugeRequestRoundsToZero | memory.c:80-104 | a request within 7 bytes of 2^32 rounds to 0, so the first free block is granted (cut to 0 bytes when it is big enough to split) |
| Memory.InitSound | memory.c:11-25 | memory_init's single free block tiles the arena; nothing is in use; the free bytes are HEAP_SIZE less one header |
| Memory.Conservation | memory.c:17-19 | the sizes of all blocks plus one header each add up to HEAP_SIZE |
| Memory.UsedPlusFree | memory.c:17-19 | in-use bytes plus free bytes plus headers make up the whole arena |
| Memory.Heap.constructor | memory.c:11-30 | memory_init: one free block spanning the arena after its header; heap_used 0; no stacks |
| Memory.Heap.Kmalloc | memory.c:76-111 | the globals and the returned pointer are those of Malloc on the old globals, and the heap invariant holds again |
| Memory.Heap.FindFit | memory.c:82-107 | the list walk stops at the first fitting free block, or reports none |
| Memory.Heap.TakeBlock | memory.c:86-104 | the found block is split or taken as Alloc says, and heap_used grows by its size |
| Memory.Heap.Kfree | memory.c:114-149 | the globals become Free of the old globals, and the invariant holds again |
| Memory.Heap.FindBlock | memory.c:118-146 | the list walk stops at the block starting at p, or reports none |
| Memory.Heap.ReleaseBlock | memory.c:121-140 | the found block is marked free, heap_used drops by its size, and the block is coalesced with its neighbours |
| Memory.Heap.AllocateStack | memory.c:33-54 | the globals and the returned top are those of StackAlloc, and the invariant holds again |
| Memory.Heap.FreeStack | memory.c:57-73 | the globals become StackFree of the old globals, and the invariant holds again |
| Memory.Heap.FindStack | memory.c:58-59 | the search loop finds pid's first record, or reports none |
| Memory.Heap.DropStack | memory.c:63-66 | the shift loop removes record i, keeps the others in order, and decrements stack_count |
| Memory.Heap.FreeMemory | memory.c:169-171 | HEAP_SIZE - heap_used as a uint32; while heap_used is accounted, the free bytes of all blocks plus their headers |
| Memory.Heap.TotalMemory | memory.c:173-175 | HEAP_SIZE, the bytes the blocks and their headers cover |
| CStr.NulAt | types.h:17-21 | the first NUL of a buffer: no earlier byte is NUL |
| CStr.Text | types.h:17-21 | the text of a C string: the bytes before its terminator, none of them NUL |
| CStr.CommonPrefix | types.h:23-29 | the longest common prefix: equal up to it, different right after it |
| CStr.Compare | types.h:23-29 | strcmp's value is a difference of two unsigned bytes, so it lies between -255 and 255 |
| CStr.CompareZeroIff | types.h:23-29 | strcmp returns 0 exactly when the two texts are equal |
| CStr.CompareSign | types.h:23-29 | strcmp is negative (positive) exactly when, at the first difference, the first string's byte is the smaller (larger), the terminator counting as 0 |
| CStr.Strlen | types.h:17-21 | the index of the first NUL, i.e. the length of the text |
| CStr.Strcmp | types.h:23-29 | the loop returns Compare of the two texts, and 0 exactly when they are equal |
| CStr.Strcpy | types.h:31-35 | dest holds src's text and terminator, the bytes after them are untouched, and dest is returned |
| CStr.Memcpy | types.h:37-44 | the first n bytes of dest become those of src, the rest is untouched, and dest is returned |
| CStr.ToByte | types.h:49 | `(unsigned char)c`: c itself when in range, otherwise congruent to c modulo 256 |
| CStr.Memset | types.h:46-52 | the first n bytes become `(unsigned char)c`, the rest is untouched, and s is returned |
| Itoa.DigitChar | io.c:62 | a digit below 10 is '0'..'9'; above 9 it is 'a'..'f' |
| Itoa.DigitRoundTrip | io.c:62 | reading the digit character back gives the digit |
| Itoa.DigitsValue | io.c:60-64 | the digits read back in their base give the number |
| Itoa.DigitsWellFormed | io.c:60-64 | no leading zero, and every character is a digit of the base |
| Itoa.Render | io.c:45-81 | "0" for zero; the digits for a positive number; '-' and the digits of the magnitude for a negative decimal number |
| Itoa.Reverse | io.c:72-80 | the reversal: element k comes from position length - 1 - k |
| Itoa.ReverseDigits | io.c:60-80 | the least-significant-first digits, reversed, are the digits |
| Itoa.RenderFitsPrintfBuffer | io.c:45-81 | a 32-bit int rendered in base 10 or 16 takes at most 11 characters (10 when non-negative) |
| Itoa.WriteDigits | io.c:60-64 | the digit loop writes the least-significant-first digits at the start of str, leaving the rest untouched |
| Itoa.BackwardsReversed | io.c:55-80 | reversing the digits and sign of the first loop gives the text of num |
| Itoa.WriteBackwards | io.c:55-69 | the digit loop, the sign and the terminator, with nothing after the terminator changed |
| Itoa.ReverseInPlace | io.c:72-80 | the swap loop reverses str[..len] and leaves the rest untouched |
| Itoa.WriteNonZero | io.c:55-80 | for num != 0 the buffer starts with num's text and a terminator, and nothing after them changes |
| Itoa.Itoa | io.c:45-81 | str starts with num's text in base, followed by NUL; nothing after the terminator changes |
| Process.Boot | process.c:24-47 | after init: 32 slots, slot 0 the CURRENT null process, every other slot free (pid -1, TERMINATED), count 1, next_pid 1, current_pid 0, no messages |
| Process.LookupFrom | process.c:184-189 | the first slot at or after i holding pid; none before it; -1 if none |
| Process.Lookup | process.c:183-190 | get_process: the first slot holding pid; no earlier slot holds it; -1 (NULL) if none |
| Process.StateOf | process.c:193-196 | the state of pid's slot, or TERMINATED when there is none |
| Process.FreeSlot | process.c:57-63 | the first slot that is TERMINATED or has pid -1; no earlier slot is reusable |
| Process.NameLength | process.c:89-93 | the name copy stops at the NUL, at the end of the name, or after 31 characters, copying no NUL |
| Process.StoredName | process.c:88-94 | at most 31 characters, no NUL; a short NUL-free name is kept whole |
| Process.CreatePlaced | process.c:50-75 | once the count and slot checks pass, create_process is the stack allocation and PCB set-up in the first free slot |
| Process.Kept | process.c:136-153 | the purge keeps only messages neither from nor to pid, all of them from the old queue, and keeps every such message |
| Process.KeptIsSurvivors | process.c:136-153 | the purge walk's result equals an independent front-to-back filter of the queue, so the survivors keep their order |
| Process.PurgeStep | process.c:138-152 | the purge walk, one message further: a purged message frees its data and then its node |
| Process.Terminate | process.c:124-166 | terminate_process does nothing for the null pid or an unknown pid; on a live pid its slot becomes TERMINATED with pid -1, no other slot changes, the count drops by one, and current_pid and next_pid stay |
| Process.TerminateEffects | process.c:124-166 | on a live pid: the slot is freed and the count drops by one; exactly the messages from or to pid leave the queue, the others in order; the stack recorded for pid is dropped; current_pid and next_pid stay |
| Process.SetState | process.c:169-180 | set_process_state does nothing for an unknown pid; on a found pid only that slot's state changes, current_pid becomes pid exactly when the new state is CURRENT, and next_pid, the count, the messages and the heap stay |
| Process.Send | process.c:240-280 | send_message does nothing for a NULL payload, size 0, or a missing or TERMINATED destination; when both allocations succeed it appends, from current_pid, a message whose data and node are the two blocks kmalloc returned, carrying the first size bytes |
| Process.FirstFor | process.c:287-307 | the first message addressed to pid; no earlier one is; -1 if none |
| Process.BootCoherent | process.c:24-47 | the table after init satisfies the pid invariant |
| Process.CreateFailure | process.c:50-75 | create_process returns -1 exactly when the table is full, no slot is reusable or the stack allocation fails, and then changes nothing |
| Process.CreateSpawns | process.c:50-121 | on success: the pid is the old next_pid; the first reusable slot gets a READY PCB (entry point as PC, priority 1, CPU time 0, stack base at the recorded stack block, SP 44 bytes below the top); every other slot is unchanged; count and next_pid go up by one |
| Process.CreateKeepsCoherent | process.c:50-121 | creation keeps pids unique and below next_pid, keeps the heap invariant, and never lowers next_pid |
| Process.PurgeNothing | process.c:136-153 | a queue that does not mention pid is kept whole, and the heap is untouched |
| Process.PurgeKeepsSound | process.c:136-153 | the frees of the purge keep the heap invariant and the stack table |
| Process.RetiredCoherent | process.c:133-158 | tearing down a slot keeps the pid invariant and the heap invariant |
| Process.TerminateKeepsCoherent | process.c:124-166 | terminate_process keeps both invariants and leaves next_pid alone |
| Process.TerminateFreeMarker | process.c:130-158 | terminate_process(-1) on a free slot leaves the table as it was, yet decrements process_count |
| Process.BootTerminateMarker | process.c:24-47 | right after init, terminate_process(-1) brings process_count to 0 without changing a slot |
| Process.CreateThenTerminate | process.c:50-166 | terminating the process just created restores the heap, the message queue and the count, and frees its slot |
| Process.TerminateSpawned | process.c:71-158 | terminating a freshly placed pid frees exactly the stack allocated for it and leaves the messages alone |
| Process.SetCurrentDemotesNothing | process.c:169-180 | setting pid CURRENT moves current_pid to it and leaves every other slot, a CURRENT one included, as it was |
| Process.SetStateKeepsCoherent | process.c:169-180 | set_process_state keeps the invariant and touches neither the heap nor next_pid |
| Process.SendAllOrNothing | process.c:240-280 | send_message changes the globals exactly when there is a payload, a positive size, a live destination, and both kmallocs succeed; it then appends one message from current_pid with those two blocks and the first size bytes, and only the message queue and the heap change; in every other case, a failed data allocation included, nothing changes |
| Process.SendKeepsCoherent | process.c:240-280 | sending keeps both invariants and next_pid |
| Process.ReceiveKeepsCoherent | process.c:282-309 | receiving keeps both invariants and next_pid |
| Process.ReceiveFirst | process.c:282-309 | a message is delivered exactly when one is addressed to the current process; it is the first such one; the others keep their order; only its node is freed |
| Process.SendThenReceive | process.c:240-309 | a message a process sends to itself and that can be delivered, with nothing else pending for it, is what it receives next, with the process as sender and the first size bytes as payload; the queue is back as before |
| Process.SendKeepsFifo | process.c:270-307 | a later send never overtakes a message already waiting for the receiver |
| Process.TwoCurrent | process.c:169-180 | after init, creating process 1 and setting it CURRENT leaves the null process CURRENT as well |
| Process.ProcessTable.constructor | process.c:24-47 | process_manager_init over the given heap: the snapshot is Boot |
| Process.ProcessTable.GetProcess | process.c:183-190 | the search loop returns Lookup |
| Process.ProcessTable.GetProcessState | process.c:193-196 | returns StateOf |
| Process.ProcessTable.GetCurrentPid | process.c:227-229 | returns current_pid |
| Process.ProcessTable.GetCurrentProcess | process.c:231-233 | returns the slot of current_pid |
| Process.ProcessTable.GetNextPid | process.c:235-237 | returns next_pid |
| Process.ProcessTable.FindFreeSlot | process.c:57-63 | the slot loop returns FreeSlot |
| Process.ProcessTable.CreateProcess | process.c:50-121 | the globals, the heap and the returned pid are those of Create, and the invariants hold again |
| Process.ProcessTable.Place | process.c:70-121 | stack allocation and PCB set-up in the chosen slot, as Placed says |
| Process.ProcessTable.Install | process.c:77-120 | the slot gets the new PCB for the old next_pid; count and next_pid go up by one; nothing else changes |
| Process.ProcessTable.CopyName | process.c:89-93 | the copy loop keeps the first NameLength characters |
| Process.ProcessTable.TerminateProcess | process.c:124-166 | the snapshot becomes Terminate of the old one: nothing for the null or an unknown pid, otherwise the slot is freed, the count drops and the pid's stack and messages go |
| Process.ProcessTable.PurgeMessages | process.c:136-153 | the walk keeps Kept of the queue and frees the data and node of each purged message in queue order |
| Process.ProcessTable.FreeMessage | process.c:146-147 | a purged message's data block is freed, then its node, and the heap invariant holds again |
| Process.ProcessTable.SetProcessState | process.c:169-180 | the snapshot becomes SetState of the old one: only the found slot's state changes, and current_pid follows a CURRENT state |
| Process.ProcessTable.SendMessage | process.c:240-280 | the snapshot becomes Send of the old one: one message appended with the two kmalloc blocks when deliverable, otherwise no change |
| Process.ProcessTable.FindMessage | process.c:287-307 | the walk returns FirstFor |
| Process.ProcessTable.ReceiveMessage | process.c:282-309 | the snapshot and the delivery are those of Receive |
| Scheduler.Init | scheduler.c:14-27 | empty queue, the given policy and quantum, aging off, max priority 10, counters at 0, idle set to the null process's slot |
| Scheduler.RunEnd | scheduler.c:113-119 | the priority insertion walk passes exactly the queued PCBs whose value is at least the new one's |
| Scheduler.PidIndex | scheduler.c:136-150 | the first queued PCB with pid; none before it; -1 if none |
| Scheduler.MinFrom | scheduler.c:169-178 | the position of the first lowest priority value in the queue |
| Scheduler.Selected | scheduler.c:158-179 | NULL exactly for an empty queue; the head under Round Robin and FCFS; the first lowest value under Priority; always a queued slot |
| Scheduler.SamePidsLookup | scheduler.c:44 | tables with the same pids give the same get_process answer |
| Scheduler.Aged | scheduler.c:183-189 | the aging walk keeps the table's length |
| Scheduler.Picked | scheduler.c:158-197 | pick_next_process changes only priorities: same pids, states and everything else |
| Scheduler.EnqueueLinks | scheduler.c:97-132 | NULL and TERMINATED change nothing; otherwise exactly one more slot is linked, slots stay distinct, and only that PCB's state changes, to READY |
| Scheduler.EnqueueAppends | scheduler.c:102-110 | under Round Robin and FCFS, or on an empty queue, the PCB goes to the tail |
| Scheduler.EnqueueKeepsSorted | scheduler.c:112-128 | under Priority the PCB goes after every PCB of value at least its own and before the lower ones; a non-increasing queue stays non-increasing |
| Scheduler.RemoveUnlinks | scheduler.c:135-155 | the queue is unchanged exactly when no queued PCB has pid; otherwise the first one with pid is unlinked and the rest keep their order |
| Scheduler.RemoveUndoesEnqueue | scheduler.c:97-155 | removing by pid undoes add_to_ready_queue when no other queued PCB shares the pid |
| Scheduler.FirstMinUnique | scheduler.c:169-178 | the first lowest value is at one position only |
| Scheduler.AgingEffects | scheduler.c:182-194 | aging off changes nothing; aging on raises each waiting queued PCB whose value, read as unsigned, is below max by 1, lowers the selected one by 1 when above 1, and changes nothing else |
| Scheduler.AgingEntrenches | scheduler.c:169-194 | under Priority with aging, the PCB just selected is selected again on the next pick |
| Scheduler.AgingMonotone | scheduler.c:182-194 | aging never raises the selected PCB's value and never lowers another queued PCB's value |
| Scheduler.FirstMinKept | scheduler.c:169-194 | a first minimum that does not rise while the others do not fall stays the first minimum |
| Scheduler.RemoveSlot | scheduler.c:135-155 | removing by a pid no other slot shares takes exactly that slot off the queue |
| Scheduler.RemoveKeepsOk | scheduler.c:135-155 | removal keeps the queue's slots distinct and in range |
| Scheduler.SwitchFromSteps | scheduler.c:68-90 | a switch is the requeue of the current PCB, then the resumption of next, then the charge of the ticks |
| Scheduler.PreemptedEffects | scheduler.c:68-72 | a CURRENT current PCB becomes READY and joins the queue once; otherwise nothing changes |
| Scheduler.SwitchQueueEffects | scheduler.c:68-76 | after a switch next is off the queue, a CURRENT current PCB is on it, and the slots stay distinct |
| Scheduler.SwitchTableEffects | scheduler.c:68-81 | after a switch next is CURRENT; a CURRENT current PCB is READY and charged current_tick; no pid and no other PCB changes |
| Scheduler.ContextSwitchCounts | scheduler.c:58-94 | switching to the current PCB changes nothing; otherwise current_tick restarts, context_switches counts one more, and the configuration and timer_ticks are kept |
| Scheduler.ContextSwitchKeepsRunningUnqueued | scheduler.c:58-94 | after a switch the current PCB is CURRENT only when it is off the queue |
| Scheduler.PickingSound | scheduler.c:158-197 | picking keeps the scheduler invariant, the processes and their states, and the current slot |
| Scheduler.ScheduleSwitchesOnlyAway | scheduler.c:43-55 | schedule switches only when the pick (or idle, on an empty queue) differs from the current PCB; otherwise only aging moves priorities |
| Scheduler.ScheduleKeepsSound | scheduler.c:43-55 | schedule keeps the invariant and moves no pid |
| Scheduler.ScheduleRuns | scheduler.c:43-94 | after a switch, the chosen PCB is CURRENT and, when its pid is unique, off the queue |
| Scheduler.TimerTickEffects | scheduler.c:200-213 | both counters count the tick; schedule runs exactly when the quantum of a current non-null process has run out under Round Robin; otherwise nothing else changes |
| Scheduler.DemoSwitch | kernel.c:104-110 | a kmain round with a non-null head k: k becomes CURRENT and leaves the queue; the null process is requeued if it was CURRENT; no other PCB changes state |
| Scheduler.DemoQueue | scheduler.c:68-76 | in that round the queue becomes its tail plus the null process when it was CURRENT |
| Scheduler.DemoSettled | kernel.c:104-110 | a round whose head is the null process changes no PCB and no queue |
| Scheduler.DemoPidsUnique | kernel.c:71-73 | the pids kmain creates are unique in the table |
| Scheduler.DemoAdvance | kernel.c:104-110 | each of the first three rounds switches the queue's head in |
| Scheduler.DemoStartQueues | kernel.c:75-91 | kmain's three add_to_ready_queue calls queue processes 1, 2 and 3 in order and change no PCB |
| Scheduler.ReadyEnqueue | scheduler.c:102-131 | under Round Robin, enqueueing a READY unqueued slot appends it and leaves the table alone |
| Scheduler.KernelDemo | kernel.c:60-110 | after three rounds processes 1 to 3 are all CURRENT, the null process alone is queued, and later rounds change nothing |
| Scheduler.DemoRoundLength | kernel.c:104-110 | a round keeps the table's length |
| Scheduler.Scheduler.constructor | scheduler.c:14-40 | scheduler_init: the state is Init with idle the null process's slot |
| Scheduler.Scheduler.FindInsertion | scheduler.c:113-119 | the insertion walk stops at RunEnd |
| Scheduler.Scheduler.AddToReadyQueue | scheduler.c:97-132 | the state becomes Enqueue of the old one |
| Scheduler.Scheduler.FindQueued | scheduler.c:136-150 | the walk finds PidIndex |
| Scheduler.Scheduler.RemoveFromReadyQueue | scheduler.c:135-155 | the queue becomes Remove of the old one |
| Scheduler.MinWalk | scheduler.c:169-178 | the minimum walk over the queued PCBs returns the first position holding the lowest priority value: no earlier one is as low, none is lower |
| Scheduler.Scheduler.AgeWaiting | scheduler.c:182-189 | the aging walk yields Aged of the old table |
| Scheduler.Scheduler.PickNextProcess | scheduler.c:158-197 | returns Selected and leaves the world as Picking says |
| Scheduler.Scheduler.Relieve | scheduler.c:191-193 | the selected PCB's priority value drops by one when above 1; nothing else changes |
| Scheduler.Scheduler.ContextSwitch | scheduler.c:58-94 | the state becomes ContextSwitched of the old one; current_pid never moves |
| Scheduler.Scheduler.Preempt | scheduler.c:68-72 | the requeue step |
| Scheduler.Scheduler.Resume | scheduler.c:75-76 | next becomes CURRENT and leaves the queue |
| Scheduler.Scheduler.SwitchTo | scheduler.c:67-90 | the state becomes SwitchFrom of the old one |
| Scheduler.Scheduler.Charge | scheduler.c:79-90 | CPU time charged, current_tick reset, switch counted |
| Scheduler.Scheduler.Schedule | scheduler.c:43-55 | the state becomes Scheduled of the old one |
| Scheduler.Scheduler.CountTick | scheduler.c:201-202 | both counters go up by one modulo 2^32 |
| Scheduler.Scheduler.TimerTick | scheduler.c:200-213 | the state becomes TimerTicked of the old one |
| Scheduler.Scheduler.SetSchedulingPolicy | scheduler.c:216-219 | only the policy changes |
| Scheduler.Scheduler.SetTimeQuantum | scheduler.c:222-225 | only the quantum changes, to the given uint32 value |
| Scheduler.Scheduler.EnableAging | scheduler.c:228-231 | only the aging flag changes; aging is on exactly when enable is non-zero |
| Scheduler.Scheduler.QueueLength | scheduler.c:240-245 | the counting walk returns the number of queued PCBs |

## Left out

- Serial output: `printf_serial` and `serial_puts`. The printing-only functions `memory_stats`, `list_processes` and all of `scheduler_stats` except its queue count are left out too. They print and change no state.
- The heap's byte contents and raw block headers. The model keeps the block list as records and message payloads as byte sequences. It does not model that a header is stored in the arena, or that a write through a dangling pointer can corrupt one.
- The placement of the arena. The linker symbol `__kernel_end` and the 4 KiB rounding of memory_init are replaced by a `base` parameter.
- Process.ProcessTable.CreateProcess: the eleven words of the initial register frame are not modelled. Only the stack pointer they leave, 44 bytes below the top, is kept.
- Process.StoredName: the name is kept in a separate field of at most 31 characters, and the other PCB fields keep the values the code assigns. In the source the name is copied starting at `page_directory`, at offset 20 of the 36-byte PCB (process.h:22-32). Name bytes 4-7 overwrite `priority`, bytes 8-11 `cpu_time` and bytes 12-15 `next`. A name of 16 or more characters, with its NUL, runs into the next slot's `pid`, `state`, `program_counter` and `stack_pointer`. So "priority 1, CPU time 0" holds only for names of at most 3 characters.
- Process.CreateSpawns: because of that overlap, kmain's "TestProc1" really gets priority 0x636F7250 and CPU time 0x31 (kernel.c:71, process.c:85-94), not the priority 1 and CPU time 0 this lemma states. The model's priorities are the assigned ones, so the Priority-policy and aging lemmas (Scheduler.EnqueueKeepsSorted, Scheduler.AgingEntrenches and those beside them) do not describe kmain's named processes.
- Process.Boot: the null process's name "null_process" likewise overwrites its priority with "_pro" and its CPU time with "cess" as little-endian words (process.c:37-39); the model keeps priority 0 and CPU time 0.
- Process.ProcessTable.CreateProcess: a reused slot whose PCB is still linked in the ready queue has its `next` cleared (process.c:85), which cuts off the rest of the queue; terminate_process never unlinks a PCB. The model keeps the ready queue as a separate sequence and does not capture this truncation.
- Process.Create: `next_pid` is an unbounded integer, so signed overflow after 2^31 creations is not modelled.
- Scheduler.Scheduler.AddToReadyQueue: callers must not enqueue a PCB that is already queued. The source clears the PCB's `next` link, which would cut the list or close it into a cycle.
- Scheduler.Scheduler.AddToReadyQueue: the walk to the tail under Round Robin and FCFS is modelled as a sequence append.
- Scheduler.Scheduler.ContextSwitch: context_switch first sets a CURRENT PCB to READY, and add_to_ready_queue sets it to READY again. The model folds the first write into the second.
- Scheduler.Scheduler.Schedule: callers must ensure there is something to run. When the queue is empty and there is no idle process, the source would call `context_switch(NULL)` and dereference it.
- Itoa.Itoa: the base must be between 2 and 16, and INT_MIN is excluded. In the source, `-INT_MIN` overflows, and negative numbers in other bases are divided with C's truncating `%`. The kernel only calls itoa in bases 10 and 16.
- Enumeration values outside the declared states and policies cannot be expressed.
- Interrupts and concurrency: every operation runs to completion with nothing interleaved.
- kmain's loop beyond the first rounds. `Scheduler.KernelDemo` covers the three rounds that move PCBs, and shows that every later round changes nothing.
