/**
 * The process manager of process.c: a fixed table of MAX_PROCESSES process control blocks,
 * the pid counter, the live-process count, the current_pid register and the IPC message
 * queue. Creating and terminating a process allocate and free its stack through the heap of
 * module Memory; messages are carried in blocks of that heap.
 *
 * A PCB slot is named by its index in the table (a pcb_t* in the source); the message list is
 * a sequence in queue order, each record keeping the addresses of its own node and its data
 * block together with the bytes copied into the data block.
 */
module Process {
  import Memory
  import Seqs
  import CStr

  const MAX_PROCESSES: nat := 32
  const NULL_PID: int := 0
  const INIT_PID: int := 1
  /** Priority given to every created process. */
  const DEFAULT_PRIORITY: int := 1
  /** Longest name kept for a process. */
  const NAME_MAX: nat := 31
  /** The eleven 32-bit words of the initial register frame pushed on a new stack. */
  const FRAME_SIZE: nat := 44
  /** sizeof(message_t) on the 32-bit target: two ints, a size, two pointers. */
  const MESSAGE_SIZE: nat := 20

  datatype PState = Terminated | Ready | Current | Blocked | Suspended

  datatype Pcb = Pcb(pid: int, state: PState, pc: nat, sp: nat, stackBase: nat,
                     priority: int, cpuTime: nat, name: seq<char>)

  datatype Message = Message(from: int, to: int, size: nat, data: nat, node: nat,
                             payload: seq<CStr.byte>)

  datatype Option<T> = None | Some(value: T)

  /** What receive_message hands back: nothing, or the data block, its sender and its bytes. */
  datatype Delivery = NoMessage | Got(data: nat, from: int, payload: seq<CStr.byte>)

  /** The globals of process.c together with the heap they allocate from. */
  datatype Kernel = Kernel(table: seq<Pcb>, nextPid: int, currentPid: int, count: int,
                           messages: seq<Message>, mem: Memory.MemState)

  // ---------------------------------------------------------------- the table after init

  const Unused: Pcb := Pcb(-1, Terminated, 0, 0, 0, 0, 0, [])
  const NullProcess: Pcb := Pcb(NULL_PID, Current, 0, 0, 0, 0, 0, "null_process")

  /** process_manager_init: every slot free except slot 0, the running null process. */
  function Boot(m: Memory.MemState): (k: Kernel)
    ensures |k.table| == MAX_PROCESSES
    ensures k.table[0].pid == NULL_PID && k.table[0].state == Current
    ensures forall i :: 1 <= i < |k.table| ==> k.table[i].pid == -1 && k.table[i].state == Terminated
    ensures k.count == 1 && k.nextPid == INIT_PID && k.currentPid == NULL_PID
    ensures k.messages == [] && k.mem == m
  {
    Kernel(seq(MAX_PROCESSES, i => if i == 0 then NullProcess else Unused), INIT_PID, NULL_PID, 1, [], m)
  }

  // ---------------------------------------------------------------- lookups

  /** get_process: the first slot at or after i holding pid; -1 if none. */
  function LookupFrom(t: seq<Pcb>, pid: int, i: nat): (r: int)
    requires i <= |t|
    ensures r == -1 || i <= r < |t|
    ensures r >= 0 ==> t[r].pid == pid
    ensures forall j :: i <= j < |t| && (r < 0 || j < r) ==> t[j].pid != pid
    decreases |t| - i
  {
    if i == |t| then -1 else if t[i].pid == pid then i else LookupFrom(t, pid, i + 1)
  }

  function Lookup(t: seq<Pcb>, pid: int): (r: int)
    ensures -1 <= r < |t|
    ensures r >= 0 ==> t[r].pid == pid
    ensures forall j :: 0 <= j < |t| && (r < 0 || j < r) ==> t[j].pid != pid
  {
    LookupFrom(t, pid, 0)
  }

  /** get_process_state: the state of pid's slot, TERMINATED when there is none. */
  function StateOf(t: seq<Pcb>, pid: int): (s: PState)
    ensures Lookup(t, pid) < 0 ==> s == Terminated
    ensures Lookup(t, pid) >= 0 ==> s == t[Lookup(t, pid)].state
  {
    var i := Lookup(t, pid);
    if i < 0 then Terminated else t[i].state
  }

  predicate Reusable(p: Pcb)
  {
    p.state == Terminated || p.pid == -1
  }

  /** The slot create_process takes: the first at or after i that is TERMINATED or has pid -1. */
  function FreeSlotFrom(t: seq<Pcb>, i: nat): (r: int)
    requires i <= |t|
    ensures r == -1 || i <= r < |t|
    ensures r >= 0 ==> Reusable(t[r])
    ensures forall j :: i <= j < |t| && (r < 0 || j < r) ==> !Reusable(t[j])
    decreases |t| - i
  {
    if i == |t| then -1 else if Reusable(t[i]) then i else FreeSlotFrom(t, i + 1)
  }

  function FreeSlot(t: seq<Pcb>): (r: int)
    ensures -1 <= r < |t|
    ensures r >= 0 ==> Reusable(t[r])
    ensures forall j :: 0 <= j < |t| && (r < 0 || j < r) ==> !Reusable(t[j])
  {
    FreeSlotFrom(t, 0)
  }

  // ---------------------------------------------------------------- create_process

  /** How many characters of a name are kept: up to its NUL, its end, or NAME_MAX. */
  function NameLength(s: seq<char>, i: nat): (n: nat)
    requires i <= NAME_MAX
    ensures i <= n <= NAME_MAX && (i <= |s| ==> n <= |s|)
    ensures forall j :: i <= j < n ==> j < |s| && s[j] != '\0'
    ensures n < NAME_MAX && n < |s| ==> s[n] == '\0'
    decreases NAME_MAX - i
  {
    if i >= |s| || s[i] == '\0' || i == NAME_MAX then i else NameLength(s, i + 1)
  }

  /** The name stored for a process: "unnamed" for a NULL name, cut at NAME_MAX characters. */
  function StoredName(name: Option<seq<char>>): (r: seq<char>)
    ensures |r| <= NAME_MAX && '\0' !in r
    ensures name.Some? && '\0' !in name.value && |name.value| <= NAME_MAX ==> r == name.value
  {
    var src := if name.Some? then name.value else "unnamed";
    src[..NameLength(src, 0)]
  }

  /** A fresh PCB for pid, with its stack top at top. */
  function NewPcb(pid: int, entry: nat, top: nat, name: Option<seq<char>>): Pcb
  {
    Pcb(pid, Ready, entry, Memory.Wrap(top - FRAME_SIZE), Memory.Wrap(top - Memory.STACK_SIZE),
        DEFAULT_PRIORITY, 0, StoredName(name))
  }

  function WithMem(k: Kernel, m: Memory.MemState): Kernel
  {
    Kernel(k.table, k.nextPid, k.currentPid, k.count, k.messages, m)
  }

  /** The globals after a process is set up in slot with the stack top top. */
  function Spawned(k: Kernel, slot: nat, m: Memory.MemState, top: nat, entry: nat, name: Option<seq<char>>): Kernel
    requires slot < |k.table|
  {
    Kernel(k.table[slot := NewPcb(k.nextPid, entry, top, name)], k.nextPid + 1, k.currentPid,
           k.count + 1, k.messages, m)
  }

  /** create_process: the new globals and the returned pid (-1 on failure). */
  function Create(k: Kernel, entry: nat, name: Option<seq<char>>): (Kernel, int)
  {
    if k.count >= MAX_PROCESSES then (k, -1)
    else if FreeSlot(k.table) < 0 then (k, -1)
    else if Memory.StackAlloc(k.mem, k.nextPid).1 == 0 then (WithMem(k, Memory.StackAlloc(k.mem, k.nextPid).0), -1)
    else
      (Spawned(k, FreeSlot(k.table), Memory.StackAlloc(k.mem, k.nextPid).0,
               Memory.StackAlloc(k.mem, k.nextPid).1, entry, name), k.nextPid)
  }

  /** The rest of create_process once slot is found free: the stack, then the PCB. */
  function Placed(k: Kernel, slot: nat, entry: nat, name: Option<seq<char>>): (Kernel, int)
    requires slot < |k.table|
  {
    if Memory.StackAlloc(k.mem, k.nextPid).1 == 0 then (WithMem(k, Memory.StackAlloc(k.mem, k.nextPid).0), -1)
    else
      (Spawned(k, slot, Memory.StackAlloc(k.mem, k.nextPid).0, Memory.StackAlloc(k.mem, k.nextPid).1, entry, name),
       k.nextPid)
  }

  lemma CreatePlaced(k: Kernel, entry: nat, name: Option<seq<char>>)
    requires k.count < MAX_PROCESSES && FreeSlot(k.table) >= 0
    ensures Create(k, entry, name) == Placed(k, FreeSlot(k.table), entry, name)
  {
  }

  // ---------------------------------------------------------------- terminate_process

  predicate Mentions(msg: Message, pid: int)
  {
    msg.from == pid || msg.to == pid
  }

  /** The messages terminate_process keeps: those not from or to pid, in queue order. */
  function Kept(ms: seq<Message>, pid: int): (r: seq<Message>)
    ensures |r| <= |ms|
    ensures forall j :: 0 <= j < |r| ==> !Mentions(r[j], pid) && r[j] in ms
    ensures forall j :: 0 <= j < |ms| && !Mentions(ms[j], pid) ==> ms[j] in r
  {
    if ms == [] then []
    else
      assert forall j :: 0 <= j < |ms| - 1 ==> ms[j] == ms[..|ms| - 1][j];
      Kept(ms[..|ms| - 1], pid) + if Mentions(ms[|ms| - 1], pid) then [] else [ms[|ms| - 1]]
  }

  /** The heap after terminate_process frees the data and then the node of each purged message. */
  function PurgedMem(ms: seq<Message>, pid: int, m: Memory.MemState): Memory.MemState
  {
    if ms == [] then m
    else
      var before := PurgedMem(ms[..|ms| - 1], pid, m);
      var last := ms[|ms| - 1];
      if Mentions(last, pid) then Memory.Free(Memory.Free(before, last.data), last.node) else before
  }

  /** One more message of the purge walk. */
  lemma PurgeStep(ms: seq<Message>, j: nat, pid: int, m: Memory.MemState)
    requires j < |ms|
    ensures PurgedMem(ms[..j + 1], pid, m) == if Mentions(ms[j], pid)
      then Memory.Free(Memory.Free(PurgedMem(ms[..j], pid, m), ms[j].data), ms[j].node)
      else PurgedMem(ms[..j], pid, m)
    ensures Mentions(ms[j], pid) ==> Kept(ms[..j + 1], pid) == Kept(ms[..j], pid)
    ensures !Mentions(ms[j], pid) ==> Kept(ms[..j + 1], pid) == Kept(ms[..j], pid) + [ms[j]]
  {
    assert ms[..j + 1][..j] == ms[..j];
  }

  /** The messages not from or to pid, in queue order, taken from the head: the filter Kept is held to. */
  function Survivors(ms: seq<Message>, pid: int): seq<Message>
  {
    if ms == [] then []
    else (if Mentions(ms[0], pid) then [] else [ms[0]]) + Survivors(ms[1..], pid)
  }

  lemma {:induction false} SurvivorsSnoc(ms: seq<Message>, x: Message, pid: int)
    ensures Survivors(ms + [x], pid) == Survivors(ms, pid) + if Mentions(x, pid) then [] else [x]
    decreases |ms|
  {
    if ms != [] {
      assert (ms + [x])[1..] == ms[1..] + [x];
      SurvivorsSnoc(ms[1..], x, pid);
    }
  }

  /** The purge walk keeps exactly the messages not from or to pid, in their queue order. */
  lemma {:induction false} KeptIsSurvivors(ms: seq<Message>, pid: int)
    ensures Kept(ms, pid) == Survivors(ms, pid)
    decreases |ms|
  {
    if ms != [] {
      var n := |ms| - 1;
      KeptIsSurvivors(ms[..n], pid);
      assert ms == ms[..n] + [ms[n]];
      SurvivorsSnoc(ms[..n], ms[n], pid);
    }
  }

  /** The heap walk of the purge leaves the stack table alone. */
  lemma {:induction false} PurgedStacks(ms: seq<Message>, pid: int, m: Memory.MemState)
    ensures PurgedMem(ms, pid, m).stacks == m.stacks
    decreases |ms|
  {
    if ms != [] {
      PurgedStacks(ms[..|ms| - 1], pid, m);
    }
  }

  /** A slot given back: TERMINATED, with the free marker -1 as its pid. */
  function Freed(p: Pcb): Pcb
  {
    p.(state := Terminated, pid := -1)
  }

  /** The globals after slot i, holding pid, is torn down. */
  function Retired(k: Kernel, i: nat, pid: int): Kernel
    requires i < |k.table|
  {
    Kernel(k.table[i := Freed(k.table[i])], k.nextPid, k.currentPid, k.count - 1,
           Kept(k.messages, pid), PurgedMem(k.messages, pid, Memory.StackFree(k.mem, pid)))
  }

  /** terminate_process: nothing for the null pid or an unknown pid. */
  function Terminate(k: Kernel, pid: int): (r: Kernel)
    ensures pid == NULL_PID || Lookup(k.table, pid) < 0 ==> r == k
    ensures pid != NULL_PID && Lookup(k.table, pid) >= 0 ==>
      && r.table == k.table[Lookup(k.table, pid) := Freed(k.table[Lookup(k.table, pid)])]
      && r.count == k.count - 1 && r.currentPid == k.currentPid && r.nextPid == k.nextPid
  {
    if pid == NULL_PID then k
    else if Lookup(k.table, pid) < 0 then k
    else Retired(k, Lookup(k.table, pid), pid)
  }

  // ---------------------------------------------------------------- set_process_state

  function Restated(k: Kernel, i: nat, pid: int, st: PState): Kernel
    requires i < |k.table|
  {
    Kernel(k.table[i := k.table[i].(state := st)], k.nextPid, if st == Current then pid else k.currentPid,
           k.count, k.messages, k.mem)
  }

  function SetState(k: Kernel, pid: int, st: PState): (r: Kernel)
    ensures Lookup(k.table, pid) < 0 ==> r == k
    ensures Lookup(k.table, pid) >= 0 ==>
      && r.table == k.table[Lookup(k.table, pid) := k.table[Lookup(k.table, pid)].(state := st)]
      && r.currentPid == (if st == Current then pid else k.currentPid)
      && r.nextPid == k.nextPid && r.count == k.count && r.messages == k.messages && r.mem == k.mem
  {
    if Lookup(k.table, pid) < 0 then k else Restated(k, Lookup(k.table, pid), pid, st)
  }

  // ---------------------------------------------------------------- send_message / receive_message

  function Posted(k: Kernel, to: int, size: nat, payload: seq<CStr.byte>, node: nat, data: nat, m: Memory.MemState): Kernel
  {
    Kernel(k.table, k.nextPid, k.currentPid, k.count,
           k.messages + [Message(k.currentPid, to, size, data, node, payload)], m)
  }

  /** The heap and the node address after send_message allocates the message node. */
  function NodeAlloc(m: Memory.MemState): (Memory.MemState, nat)
  {
    Memory.Malloc(m, MESSAGE_SIZE)
  }

  /**
   * When send_message posts: a payload, a positive size, a destination whose slot is not
   * TERMINATED, and both kmallocs (the node, then the data) succeed.
   */
  predicate Deliverable(k: Kernel, to: int, msg: Option<seq<CStr.byte>>, size: nat)
    requires size < Memory.U32
  {
    && msg.Some? && size > 0 && Lookup(k.table, to) >= 0 && k.table[Lookup(k.table, to)].state != Terminated
    && NodeAlloc(k.mem).1 != 0 && Memory.Malloc(NodeAlloc(k.mem).0, size).1 != 0
  }

  /**
   * send_message: nothing for a NULL payload, size 0, or a missing or TERMINATED destination;
   * when it posts, the message goes to the tail with the two addresses kmalloc returned.
   */
  function Send(k: Kernel, to: int, msg: Option<seq<CStr.byte>>, size: nat): (r: Kernel)
    requires size < Memory.U32 && (msg.Some? ==> size <= |msg.value|)
    ensures msg.None? || size == 0 ==> r == k
    ensures Lookup(k.table, to) < 0 ==> r == k
    ensures Lookup(k.table, to) >= 0 && k.table[Lookup(k.table, to)].state == Terminated ==> r == k
    ensures Deliverable(k, to, msg, size) ==>
      r.messages == k.messages + [Message(k.currentPid, to, size, Memory.Malloc(NodeAlloc(k.mem).0, size).1,
                                          NodeAlloc(k.mem).1, msg.value[..size])]
  {
    if msg.None? || size == 0 then k
    else if Lookup(k.table, to) < 0 || k.table[Lookup(k.table, to)].state == Terminated then k
    else if NodeAlloc(k.mem).1 == 0 then WithMem(k, NodeAlloc(k.mem).0)
    else if Memory.Malloc(NodeAlloc(k.mem).0, size).1 == 0 then
      WithMem(k, Memory.Free(Memory.Malloc(NodeAlloc(k.mem).0, size).0, NodeAlloc(k.mem).1))
    else
      Posted(k, to, size, msg.value[..size], NodeAlloc(k.mem).1, Memory.Malloc(NodeAlloc(k.mem).0, size).1,
             Memory.Malloc(NodeAlloc(k.mem).0, size).0)
  }

  /** Index of the first message at or after i addressed to pid; -1 if none. */
  function FirstForFrom(ms: seq<Message>, pid: int, i: nat): (r: int)
    requires i <= |ms|
    ensures r == -1 || i <= r < |ms|
    ensures r >= 0 ==> ms[r].to == pid
    ensures forall j :: i <= j < |ms| && (r < 0 || j < r) ==> ms[j].to != pid
    decreases |ms| - i
  {
    if i == |ms| then -1 else if ms[i].to == pid then i else FirstForFrom(ms, pid, i + 1)
  }

  function FirstFor(ms: seq<Message>, pid: int): (r: int)
    ensures -1 <= r < |ms|
    ensures r >= 0 ==> ms[r].to == pid
    ensures forall j :: 0 <= j < |ms| && (r < 0 || j < r) ==> ms[j].to != pid
  {
    FirstForFrom(ms, pid, 0)
  }

  function Delivered(k: Kernel, i: nat): Kernel
    requires i < |k.messages|
  {
    Kernel(k.table, k.nextPid, k.currentPid, k.count, Seqs.RemoveAt(k.messages, i),
           Memory.Free(k.mem, k.messages[i].node))
  }

  /** The slot whose pid receive_message reads messages for: get_current_process. */
  function Receiver(k: Kernel): int
  {
    Lookup(k.table, k.currentPid)
  }

  /** receive_message: the first message for the current process, unlinked and its node freed. */
  function Receive(k: Kernel): (Kernel, Delivery)
  {
    if Receiver(k) < 0 then (k, NoMessage)
    else if FirstFor(k.messages, k.table[Receiver(k)].pid) < 0 then (k, NoMessage)
    else
      var i := FirstFor(k.messages, k.table[Receiver(k)].pid);
      (Delivered(k, i), Got(k.messages[i].data, k.messages[i].from, k.messages[i].payload))
  }

  // ---------------------------------------------------------------- invariants

  /**
   * Pids come from next_pid: every slot's pid is below it, and two slots never share a
   * positive pid. The null pid and the free marker -1 are the only pids below INIT_PID.
   */
  ghost predicate PidsFresh(k: Kernel)
  {
    && |k.table| == MAX_PROCESSES && k.nextPid >= INIT_PID
    && (forall i :: 0 <= i < |k.table| ==> k.table[i].pid < k.nextPid)
    && (forall i, j :: 0 <= i < j < |k.table| && k.table[i].pid == k.table[j].pid ==> k.table[i].pid < INIT_PID)
  }

  /** No message, stack record or current_pid names a pid that was never handed out. */
  ghost predicate NothingAhead(k: Kernel)
  {
    && k.currentPid < k.nextPid
    && (forall j :: 0 <= j < |k.messages| ==> k.messages[j].from < k.nextPid && k.messages[j].to < k.nextPid)
    && (forall j :: 0 <= j < |k.mem.stacks| ==> k.mem.stacks[j].pid < k.nextPid)
  }

  ghost predicate Coherent(k: Kernel)
  {
    PidsFresh(k) && NothingAhead(k)
  }


  // ---------------------------------------------------------------- properties

  lemma BootCoherent(m: Memory.MemState)
    requires forall j :: 0 <= j < |m.stacks| ==> m.stacks[j].pid < INIT_PID
    ensures Coherent(Boot(m))
  {
  }

  /** The search loops of get_process and create_process, stopped at k. */
  lemma LookupAt(t: seq<Pcb>, pid: int, k: nat)
    requires k <= |t| && forall j :: 0 <= j < k ==> t[j].pid != pid
    requires k < |t| ==> t[k].pid == pid
    ensures Lookup(t, pid) == if k < |t| then k else -1
  {
  }

  lemma FreeSlotAt(t: seq<Pcb>, k: nat)
    requires k <= |t| && forall j :: 0 <= j < k ==> !Reusable(t[j])
    requires k < |t| ==> Reusable(t[k])
    ensures FreeSlot(t) == if k < |t| then k else -1
  {
  }

  lemma FirstForAt(ms: seq<Message>, pid: int, k: nat)
    requires k <= |ms| && forall j :: 0 <= j < k ==> ms[j].to != pid
    requires k < |ms| ==> ms[k].to == pid
    ensures FirstFor(ms, pid) == if k < |ms| then k else -1
  {
  }

  /** create_process fails exactly in its three error cases, and then changes nothing. */
  lemma CreateFailure(base: nat, k: Kernel, entry: nat, name: Option<seq<char>>)
    requires Memory.Sound(base, k.mem) && k.nextPid >= INIT_PID
    ensures Create(k, entry, name).1 == -1 <==>
      k.count >= MAX_PROCESSES || FreeSlot(k.table) < 0 || Memory.StackAlloc(k.mem, k.nextPid).1 == 0
    ensures Create(k, entry, name).1 == -1 ==> Create(k, entry, name).0 == k
  {
    Memory.StackTopInArena(base, k.mem, k.nextPid);
  }

  /**
   * A successful create_process: the pid is the old next_pid; the first reusable slot gets a
   * READY PCB with the entry point, priority 1, no CPU time, its stack base at the start of
   * the stack block recorded for the pid and its stack pointer 44 bytes below the stack top;
   * every other slot is unchanged, and the count and next_pid go up by one.
   */
  lemma CreateSpawns(base: nat, k: Kernel, entry: nat, name: Option<seq<char>>)
    requires Memory.Sound(base, k.mem) && base + Memory.HEAP_SIZE < Memory.U32
    requires Create(k, entry, name).1 != -1
    ensures Create(k, entry, name).1 == k.nextPid
    ensures FreeSlot(k.table) >= 0 && k.count < MAX_PROCESSES
    ensures Create(k, entry, name).0.table[FreeSlot(k.table)] ==
      Pcb(k.nextPid, Ready, entry,
          Memory.StackAlloc(k.mem, k.nextPid).0.stacks[|k.mem.stacks|].base + Memory.STACK_SIZE - FRAME_SIZE,
          Memory.StackAlloc(k.mem, k.nextPid).0.stacks[|k.mem.stacks|].base,
          DEFAULT_PRIORITY, 0, StoredName(name))
    ensures Memory.StackAlloc(k.mem, k.nextPid).0.stacks == k.mem.stacks +
      [Memory.StackRecord(Memory.StackAlloc(k.mem, k.nextPid).0.stacks[|k.mem.stacks|].base, Memory.STACK_SIZE, k.nextPid)]
    ensures forall j :: 0 <= j < |k.table| && j != FreeSlot(k.table) ==> Create(k, entry, name).0.table[j] == k.table[j]
    ensures Create(k, entry, name).0.count == k.count + 1 && Create(k, entry, name).0.nextPid == k.nextPid + 1
    ensures Create(k, entry, name).0.messages == k.messages && Create(k, entry, name).0.currentPid == k.currentPid
  {
    Memory.StackTopInArena(base, k.mem, k.nextPid);
  }

  lemma CreateKeepsCoherent(base: nat, k: Kernel, entry: nat, name: Option<seq<char>>)
    requires Coherent(k) && Memory.Sound(base, k.mem)
    ensures Coherent(Create(k, entry, name).0) && Memory.Sound(base, Create(k, entry, name).0.mem)
    ensures Create(k, entry, name).0.nextPid >= k.nextPid
  {
    Memory.StackAllocKeepsSound(base, k.mem, k.nextPid);
    Memory.StackTopInArena(base, k.mem, k.nextPid);
    var sa := Memory.StackAlloc(k.mem, k.nextPid);
    if k.count < MAX_PROCESSES && FreeSlot(k.table) >= 0 && sa.1 != 0 {
      assert forall j :: 0 <= j < |sa.0.stacks| ==> sa.0.stacks[j].pid <= k.nextPid;
      SpawnedCoherent(k, FreeSlot(k.table), sa.0, sa.1, entry, name);
    }
  }

  /** Placing the next pid in any slot keeps pids fresh, whatever stacks up to that pid the heap records. */
  lemma SpawnedCoherent(k: Kernel, slot: nat, m: Memory.MemState, top: nat, entry: nat, name: Option<seq<char>>)
    requires Coherent(k) && slot < |k.table|
    requires forall j :: 0 <= j < |m.stacks| ==> m.stacks[j].pid <= k.nextPid
    ensures Coherent(Spawned(k, slot, m, top, entry, name))
  {
  }

  /** The messages no longer mentioning pid are all kept, and the heap is left alone. */
  lemma {:induction false} PurgeNothing(ms: seq<Message>, pid: int, m: Memory.MemState)
    requires forall j :: 0 <= j < |ms| ==> !Mentions(ms[j], pid)
    ensures Kept(ms, pid) == ms && PurgedMem(ms, pid, m) == m
  {
    if ms != [] {
      PurgeNothing(ms[..|ms| - 1], pid, m);
      assert ms[..|ms| - 1] + [ms[|ms| - 1]] == ms;
    }
  }

  lemma {:induction false} PurgeKeepsSound(base: nat, ms: seq<Message>, pid: int, m: Memory.MemState)
    requires Memory.Sound(base, m)
    ensures Memory.Sound(base, PurgedMem(ms, pid, m))
    ensures PurgedMem(ms, pid, m).stacks == m.stacks
  {
    if ms != [] {
      var before := PurgedMem(ms[..|ms| - 1], pid, m);
      PurgeKeepsSound(base, ms[..|ms| - 1], pid, m);
      var last := ms[|ms| - 1];
      Memory.FreeKeepsSound(base, before, last.data);
      Memory.FreeKeepsSound(base, Memory.Free(before, last.data), last.node);
    }
  }

  /** free_stack only drops records. */
  lemma StackFreeDrops(m: Memory.MemState, pid: int)
    ensures forall j :: 0 <= j < |Memory.StackFree(m, pid).stacks| ==> Memory.StackFree(m, pid).stacks[j] in m.stacks
  {
    var i := Memory.StackIndex(m.stacks, pid);
    if i >= 0 {
      var r := Memory.StackFree(m, pid).stacks;
      assert r == m.stacks[..i] + m.stacks[i + 1..];
      assert forall j :: 0 <= j < |r| ==> r[j] == m.stacks[if j < i then j else j + 1];
    }
  }

  lemma RetiredCoherent(base: nat, k: Kernel, i: nat, pid: int)
    requires Coherent(k) && Memory.Sound(base, k.mem) && i < |k.table|
    ensures Coherent(Retired(k, i, pid)) && Memory.Sound(base, Retired(k, i, pid).mem)
  {
    var m1 := Memory.StackFree(k.mem, pid);
    Memory.StackFreeKeepsSound(base, k.mem, pid);
    PurgeKeepsSound(base, k.messages, pid, m1);
    StackFreeDrops(k.mem, pid);
    var r := Retired(k, i, pid);
    assert r.mem.stacks == m1.stacks;
    assert forall j :: 0 <= j < |r.mem.stacks| ==> r.mem.stacks[j].pid < k.nextPid;
    assert forall j :: 0 <= j < |r.messages| ==> r.messages[j] in k.messages;
    assert PidsFresh(r);
  }

  lemma TerminateKeepsCoherent(base: nat, k: Kernel, pid: int)
    requires Coherent(k) && Memory.Sound(base, k.mem)
    ensures Coherent(Terminate(k, pid)) && Memory.Sound(base, Terminate(k, pid).mem)
    ensures Terminate(k, pid).nextPid == k.nextPid
  {
    if pid != NULL_PID && Lookup(k.table, pid) >= 0 {
      RetiredCoherent(base, k, Lookup(k.table, pid), pid);
    }
  }

  /**
   * terminate_process on a live pid other than the null pid: the slot is given back and the
   * count drops by one; the stack recorded for pid is freed; exactly the messages from or to
   * pid leave the queue, the others keep their order, and each one purged has its data and
   * then its node freed; current_pid and next_pid stay.
   */
  lemma TerminateEffects(k: Kernel, pid: int)
    requires pid != NULL_PID && Lookup(k.table, pid) >= 0
    ensures var r := Terminate(k, pid); var i := Lookup(k.table, pid);
      && |r.table| == |k.table| && r.table[i].state == Terminated && r.table[i].pid == -1
      && (forall j :: 0 <= j < |k.table| && j != i ==> r.table[j] == k.table[j])
      && r.count == k.count - 1 && r.currentPid == k.currentPid && r.nextPid == k.nextPid
      && r.messages == Survivors(k.messages, pid)
      && r.mem == PurgedMem(k.messages, pid, Memory.StackFree(k.mem, pid))
      && r.mem.stacks == Memory.StackFree(k.mem, pid).stacks
  {
    KeptIsSurvivors(k.messages, pid);
    PurgedStacks(k.messages, pid, Memory.StackFree(k.mem, pid));
  }

  /**
   * terminate_process(-1) matches a free slot, whose pid is the free marker -1: the table is
   * left as it was, yet the live count still drops by one.
   */
  lemma TerminateFreeMarker(k: Kernel)
    requires Lookup(k.table, -1) >= 0 && k.table[Lookup(k.table, -1)].state == Terminated
    ensures Terminate(k, -1).table == k.table
    ensures Terminate(k, -1).count == k.count - 1
  {
    var i := Lookup(k.table, -1);
    assert Freed(k.table[i]) == k.table[i];
    assert k.table[i := k.table[i]] == k.table;
  }

  /** Right after process_manager_init, terminate_process(-1) brings the count of live processes to 0. */
  lemma BootTerminateMarker(m: Memory.MemState)
    ensures Terminate(Boot(m), -1).table == Boot(m).table
    ensures Terminate(Boot(m), -1).count == 0
  {
    LookupAt(Boot(m).table, -1, 1);
    TerminateFreeMarker(Boot(m));
  }

  /**
   * terminate_process undoes create_process for the pid just created: the heap, the
   * message queue and the count are as before, and the slot is free again.
   */
  lemma CreateThenTerminate(base: nat, k: Kernel, entry: nat, name: Option<seq<char>>)
    requires Coherent(k) && Memory.Sound(base, k.mem)
    requires Create(k, entry, name).1 != -1
    ensures Terminate(Create(k, entry, name).0, Create(k, entry, name).1).mem == k.mem
    ensures Terminate(Create(k, entry, name).0, Create(k, entry, name).1).messages == k.messages
    ensures Terminate(Create(k, entry, name).0, Create(k, entry, name).1).count == k.count
    ensures Terminate(Create(k, entry, name).0, Create(k, entry, name).1).table ==
      k.table[FreeSlot(k.table) := Freed(NewPcb(k.nextPid, entry, Memory.StackAlloc(k.mem, k.nextPid).1, name))]
  {
    var sa := Memory.StackAlloc(k.mem, k.nextPid);
    assert Create(k, entry, name) == (Spawned(k, FreeSlot(k.table), sa.0, sa.1, entry, name), k.nextPid);
    assert Memory.StackIndex(k.mem.stacks, k.nextPid) < 0;
    TerminateSpawned(base, k, FreeSlot(k.table), entry, name);
  }

  lemma TerminateSpawned(base: nat, k: Kernel, slot: nat, entry: nat, name: Option<seq<char>>)
    requires Memory.Sound(base, k.mem) && Memory.StackIndex(k.mem.stacks, k.nextPid) < 0
    requires forall j :: 0 <= j < |k.table| ==> k.table[j].pid < k.nextPid
    requires forall j :: 0 <= j < |k.messages| ==> !Mentions(k.messages[j], k.nextPid)
    requires k.nextPid != NULL_PID && slot < |k.table| && Memory.StackAlloc(k.mem, k.nextPid).1 != 0
    ensures var sa := Memory.StackAlloc(k.mem, k.nextPid);
      Terminate(Spawned(k, slot, sa.0, sa.1, entry, name), k.nextPid) ==
      Kernel(k.table[slot := Freed(NewPcb(k.nextPid, entry, sa.1, name))], k.nextPid + 1, k.currentPid,
             k.count, k.messages, k.mem)
  {
    var pid := k.nextPid;
    var sa := Memory.StackAlloc(k.mem, pid);
    Memory.StackAllocFreeInverse(base, k.mem, pid);
    SpawnedLookup(k, slot, sa.0, sa.1, entry, name);
    PurgeNothing(k.messages, pid, k.mem);
    RetiredSpawned(k, slot, sa.0, sa.1, entry, name);
  }

  /** The pid just handed out is found in the slot it was placed in, and only there. */
  lemma SpawnedLookup(k: Kernel, slot: nat, m: Memory.MemState, top: nat, entry: nat, name: Option<seq<char>>)
    requires slot < |k.table| && forall j :: 0 <= j < |k.table| ==> k.table[j].pid < k.nextPid
    ensures Lookup(Spawned(k, slot, m, top, entry, name).table, k.nextPid) == slot
  {
    LookupAt(Spawned(k, slot, m, top, entry, name).table, k.nextPid, slot);
  }

  /** Tearing down the slot just set up, over a heap whose free_stack gives back k's heap. */
  lemma RetiredSpawned(k: Kernel, slot: nat, m: Memory.MemState, top: nat, entry: nat, name: Option<seq<char>>)
    requires slot < |k.table| && Memory.StackFree(m, k.nextPid) == k.mem
    requires Kept(k.messages, k.nextPid) == k.messages && PurgedMem(k.messages, k.nextPid, k.mem) == k.mem
    ensures Retired(Spawned(k, slot, m, top, entry, name), slot, k.nextPid) ==
      Kernel(k.table[slot := Freed(NewPcb(k.nextPid, entry, top, name))], k.nextPid + 1, k.currentPid,
             k.count, k.messages, k.mem)
  {
    var c := Spawned(k, slot, m, top, entry, name);
    assert c.table[slot := Freed(c.table[slot])] == k.table[slot := Freed(NewPcb(k.nextPid, entry, top, name))];
  }

  /**
   * set_process_state(pid, CURRENT) moves current_pid to pid and leaves every other slot as it
   * was, so a slot that was CURRENT stays CURRENT.
   */
  lemma SetCurrentDemotesNothing(k: Kernel, pid: int)
    requires Lookup(k.table, pid) >= 0
    ensures SetState(k, pid, Current).currentPid == pid
    ensures SetState(k, pid, Current).table[Lookup(k.table, pid)].state == Current
    ensures forall j :: 0 <= j < |k.table| && j != Lookup(k.table, pid) ==> SetState(k, pid, Current).table[j] == k.table[j]
  {
  }

  lemma SetStateKeepsCoherent(k: Kernel, pid: int, st: PState)
    requires Coherent(k)
    ensures Coherent(SetState(k, pid, st)) && SetState(k, pid, st).mem == k.mem
    ensures SetState(k, pid, st).nextPid == k.nextPid
  {
  }

  /**
   * send_message posts exactly when Deliverable holds: then it appends one message from
   * current_pid at the tail, whose node and data are the two blocks kmalloc handed out, and
   * changes nothing else. In every other case, a failed data allocation included (its node
   * is given back), nothing changes.
   */
  lemma SendAllOrNothing(base: nat, k: Kernel, to: int, msg: Option<seq<CStr.byte>>, size: nat)
    requires Memory.Sound(base, k.mem)
    requires size < Memory.U32 && (msg.Some? ==> size <= |msg.value|)
    ensures var r := Send(k, to, msg, size);
      && (!Deliverable(k, to, msg, size) ==> r == k)
      && (Deliverable(k, to, msg, size) ==>
          && r.table == k.table && r.nextPid == k.nextPid && r.currentPid == k.currentPid && r.count == k.count
          && r.messages == k.messages + [Message(k.currentPid, to, size, Memory.Malloc(NodeAlloc(k.mem).0, size).1,
                                                 NodeAlloc(k.mem).1, msg.value[..size])]
          && r.mem == Memory.Malloc(NodeAlloc(k.mem).0, size).0
          && Memory.Sound(base, r.mem))
    ensures Send(k, to, msg, size) != k <==> Deliverable(k, to, msg, size)
  {
    if msg.Some? && size > 0 && Lookup(k.table, to) >= 0 && k.table[Lookup(k.table, to)].state != Terminated {
      var m1 := NodeAlloc(k.mem).0;
      Memory.MallocInArena(base, k.mem, MESSAGE_SIZE);
      if NodeAlloc(k.mem).1 != 0 {
        Memory.MallocKeepsSound(base, k.mem, MESSAGE_SIZE);
        Memory.MallocInArena(base, m1, size);
        Memory.MallocKeepsSound(base, m1, size);
        if Memory.Malloc(m1, size).1 == 0 {
          Memory.MallocFreeInverse(base, k.mem, MESSAGE_SIZE);
        } else {
          assert |Send(k, to, msg, size).messages| == |k.messages| + 1;
        }
      }
    }
  }

  lemma SendKeepsCoherent(base: nat, k: Kernel, to: int, msg: Option<seq<CStr.byte>>, size: nat)
    requires Coherent(k) && Memory.Sound(base, k.mem)
    requires size < Memory.U32 && (msg.Some? ==> size <= |msg.value|)
    ensures Coherent(Send(k, to, msg, size)) && Memory.Sound(base, Send(k, to, msg, size).mem)
    ensures Send(k, to, msg, size).nextPid == k.nextPid
  {
    SendAllOrNothing(base, k, to, msg, size);
    var r := Send(k, to, msg, size);
    if r != k {
      assert r.mem.stacks == k.mem.stacks;
    }
  }

  lemma ReceiveKeepsCoherent(base: nat, k: Kernel)
    requires Coherent(k) && Memory.Sound(base, k.mem)
    ensures Coherent(Receive(k).0) && Memory.Sound(base, Receive(k).0.mem)
    ensures Receive(k).0.nextPid == k.nextPid
  {
    if Receiver(k) >= 0 && FirstFor(k.messages, k.table[Receiver(k)].pid) >= 0 {
      var i := FirstFor(k.messages, k.table[Receiver(k)].pid);
      Memory.FreeKeepsSound(base, k.mem, k.messages[i].node);
    }
  }

  /**
   * receive_message hands back the first message, in queue order, addressed to the current
   * process, keeps the others in order, and frees only the message node.
   */
  lemma ReceiveFirst(k: Kernel)
    requires Receiver(k) >= 0
    ensures Receive(k).1.Got? <==> exists j :: 0 <= j < |k.messages| && k.messages[j].to == k.currentPid
    ensures Receive(k).1.Got? ==>
      var i := FirstFor(k.messages, k.currentPid);
      && Receive(k).1 == Got(k.messages[i].data, k.messages[i].from, k.messages[i].payload)
      && Receive(k).0.messages == k.messages[..i] + k.messages[i + 1..]
      && Receive(k).0.mem == Memory.Free(k.mem, k.messages[i].node)
      && forall j :: 0 <= j < i ==> k.messages[j].to != k.currentPid
    ensures Receive(k).1.NoMessage? ==> Receive(k).0 == k
  {
    var i := FirstFor(k.messages, k.currentPid);
    if i >= 0 {
      assert Seqs.RemoveAt(k.messages, i) == k.messages[..i] + k.messages[i + 1..];
    }
  }

  /**
   * A message a process sends to itself, with nothing else pending for it, is what it
   * receives next: its sender is the process itself and its bytes are the first size bytes
   * of the payload; the queue is back as it was.
   */
  lemma SendThenReceive(base: nat, k: Kernel, msg: seq<CStr.byte>, size: nat)
    requires Memory.Sound(base, k.mem) && Receiver(k) >= 0
    requires size < Memory.U32 && size <= |msg|
    requires forall j :: 0 <= j < |k.messages| ==> k.messages[j].to != k.currentPid
    requires Deliverable(k, k.currentPid, Some(msg), size)
    ensures Receive(Send(k, k.currentPid, Some(msg), size)).1.Got?
    ensures Receive(Send(k, k.currentPid, Some(msg), size)).1.from == k.currentPid
    ensures Receive(Send(k, k.currentPid, Some(msg), size)).1.payload == msg[..size]
    ensures Receive(Send(k, k.currentPid, Some(msg), size)).0.messages == k.messages
  {
    SendAllOrNothing(base, k, k.currentPid, Some(msg), size);
    var s := Send(k, k.currentPid, Some(msg), size);
    assert Receiver(s) == Receiver(k);
    FirstForAt(s.messages, k.currentPid, |k.messages|);
    assert s.messages[..|k.messages|] == k.messages;
  }

  /** A message sent later never overtakes one already waiting for the receiver. */
  lemma SendKeepsFifo(base: nat, k: Kernel, to: int, msg: Option<seq<CStr.byte>>, size: nat)
    requires Memory.Sound(base, k.mem) && Receiver(k) >= 0
    requires size < Memory.U32 && (msg.Some? ==> size <= |msg.value|)
    requires Receive(k).1.Got?
    ensures Receive(Send(k, to, msg, size)).1 == Receive(k).1
  {
    SendAllOrNothing(base, k, to, msg, size);
    var s := Send(k, to, msg, size);
    if s != k {
      assert Receiver(s) == Receiver(k);
      var i := FirstFor(k.messages, k.table[Receiver(k)].pid);
      FirstForAt(s.messages, k.table[Receiver(k)].pid, i);
    }
  }

  /**
   * Two PCBs can be CURRENT at once: after init, creating process 1 and setting it CURRENT
   * leaves the null process CURRENT as well.
   */
  lemma TwoCurrent(base: nat, entry: nat)
    requires base + Memory.HEAP_SIZE < Memory.U32
    ensures var k := Create(Boot(Memory.Init(base)), entry, None);
      && k.1 == INIT_PID
      && SetState(k.0, INIT_PID, Current).table[0].state == Current
      && SetState(k.0, INIT_PID, Current).table[1].state == Current
  {
    var k0 := Boot(Memory.Init(base));
    Memory.InitSound(base);
    FreeSlotAt(k0.table, 1);
    assert Memory.StackAlloc(k0.mem, INIT_PID).1 != 0 by {
      Memory.MallocGrant(base, k0.mem, Memory.STACK_SIZE);
    }
    var k1 := Create(k0, entry, None).0;
    LookupAt(k1.table, INIT_PID, 1);
  }

  // ---------------------------------------------------------------- the process manager

  class ProcessTable {
    const heap: Memory.Heap
    const table: array<Pcb>
    var nextPid: int
    var currentPid: int
    var count: int
    var messages: seq<Message>

    ghost predicate Valid()
      reads this, table, heap, heap.stacks
    {
      table.Length == MAX_PROCESSES && heap.Valid()
    }

    ghost function Snapshot(): Kernel
      reads this, table, heap, heap.stacks
    {
      Kernel(table[..], nextPid, currentPid, count, messages, heap.State())
    }

    /** process_manager_init, over the heap the processes will allocate from. */
    constructor (heap: Memory.Heap)
      requires heap.Valid()
      ensures Valid() && fresh(table) && this.heap == heap
      ensures Snapshot() == Boot(heap.State())
    {
      this.heap := heap;
      var t := new Pcb[MAX_PROCESSES];
      var i := 0;
      while i < MAX_PROCESSES
        invariant i <= MAX_PROCESSES
        invariant forall j :: 0 <= j < i ==> t[j] == Unused
      {
        t[i] := Unused;
        i := i + 1;
      }
      t[0] := NullProcess;
      table := t;
      currentPid := NULL_PID;
      count := 1;
      nextPid := INIT_PID;
      messages := [];
      new;
      assert table[..] == Boot(heap.State()).table;
    }

    /** get_process: the slot of pid, -1 for NULL. */
    method GetProcess(pid: int) returns (slot: int)
      requires table.Length == MAX_PROCESSES
      ensures slot == Lookup(table[..], pid)
    {
      slot := 0;
      while slot < MAX_PROCESSES
        invariant 0 <= slot <= MAX_PROCESSES
        invariant forall j :: 0 <= j < slot ==> table[j].pid != pid
      {
        if table[slot].pid == pid {
          LookupAt(table[..], pid, slot);
          return;
        }
        slot := slot + 1;
      }
      LookupAt(table[..], pid, slot);
      slot := -1;
    }

    /** get_process_state. */
    method GetProcessState(pid: int) returns (st: PState)
      requires table.Length == MAX_PROCESSES
      ensures st == StateOf(table[..], pid)
    {
      var slot := GetProcess(pid);
      st := if slot < 0 then Terminated else table[slot].state;
    }

    /** get_current_pid. */
    function GetCurrentPid(): (pid: int)
      reads this
      ensures pid == currentPid
    {
      currentPid
    }

    /** get_current_process: the slot of current_pid. */
    method GetCurrentProcess() returns (slot: int)
      requires table.Length == MAX_PROCESSES
      ensures slot == Lookup(table[..], currentPid)
    {
      slot := GetProcess(currentPid);
    }

    /** get_next_pid. */
    function GetNextPid(): (pid: int)
      reads this
      ensures pid == nextPid
    {
      nextPid
    }

    /** The slot search of create_process. */
    method FindFreeSlot() returns (slot: int)
      requires Valid()
      ensures slot == FreeSlot(table[..])
    {
      slot := 0;
      while slot < MAX_PROCESSES
        invariant 0 <= slot <= MAX_PROCESSES
        invariant forall j :: 0 <= j < slot ==> !Reusable(table[j])
      {
        if table[slot].state == Terminated || table[slot].pid == -1 {
          FreeSlotAt(table[..], slot);
          return;
        }
        slot := slot + 1;
      }
      FreeSlotAt(table[..], slot);
      slot := -1;
    }

    /** create_process: a READY process in the first reusable slot, with a fresh stack. */
    method CreateProcess(entry: nat, name: Option<seq<char>>) returns (pid: int)
      requires Valid()
      modifies this, table, heap, heap.stacks
      ensures (Snapshot(), pid) == Create(old(Snapshot()), entry, name)
      ensures Valid()
    {
      ghost var k0 := Snapshot();
      if count >= MAX_PROCESSES {
        return -1;
      }
      var slot := FindFreeSlot();
      if slot < 0 {
        return -1;
      }
      CreatePlaced(k0, entry, name);
      pid := Place(slot, entry, name);
    }

    /** The stack allocation and PCB set-up of create_process in the free slot. */
    method Place(slot: nat, entry: nat, name: Option<seq<char>>) returns (pid: int)
      requires Valid() && slot < table.Length
      modifies this, table, heap, heap.stacks
      ensures (Snapshot(), pid) == Placed(old(Snapshot()), slot, entry, name)
      ensures Valid()
    {
      ghost var k0 := Snapshot();
      var top := heap.AllocateStack(nextPid);
      if top == 0 {
        assert Snapshot() == WithMem(k0, Memory.StackAlloc(k0.mem, k0.nextPid).0);
        return -1;
      }
      ghost var m1 := heap.State();
      pid := Install(slot, entry, top, name);
      assert Snapshot() == Spawned(k0, slot, m1, top, entry, name);
    }

    /** The PCB set-up of create_process in slot, for the stack top top. */
    method Install(slot: nat, entry: nat, top: nat, name: Option<seq<char>>) returns (pid: int)
      requires slot < table.Length
      modifies this, table
      ensures table[..] == old(table[..])[slot := NewPcb(old(nextPid), entry, top, name)]
      ensures pid == old(nextPid) && nextPid == old(nextPid) + 1 && count == old(count) + 1
      ensures currentPid == old(currentPid) && messages == old(messages)
    {
      var nm := CopyName(if name.Some? then name.value else "unnamed");
      table[slot] := Pcb(nextPid, Ready, entry, Memory.Wrap(top - FRAME_SIZE), Memory.Wrap(top - Memory.STACK_SIZE),
                         DEFAULT_PRIORITY, 0, nm);
      count := count + 1;
      pid := nextPid;
      nextPid := nextPid + 1;
    }

    /** The name copy of create_process: characters up to the NUL, at most NAME_MAX of them. */
    static method CopyName(src: seq<char>) returns (nm: seq<char>)
      ensures nm == src[..NameLength(src, 0)]
    {
      nm := [];
      var i := 0;
      while i < |src| && src[i] != '\0' && i < NAME_MAX
        invariant i <= |src| && i <= NAME_MAX && nm == src[..i]
        invariant NameLength(src, i) == NameLength(src, 0)
      {
        nm := nm + [src[i]];
        i := i + 1;
      }
    }

    /** terminate_process. */
    method TerminateProcess(pid: int)
      requires Valid()
      modifies this, table, heap, heap.stacks
      ensures Snapshot() == Terminate(old(Snapshot()), pid)
      ensures Valid()
    {
      if pid == NULL_PID {
        return;
      }
      var i := GetProcess(pid);
      if i < 0 {
        return;
      }
      ghost var k0 := Snapshot();
      heap.FreeStack(pid);
      PurgeMessages(pid);
      table[i] := Freed(table[i]);
      count := count - 1;
      assert table[..] == k0.table[i := Freed(k0.table[i])];
      assert Snapshot() == Retired(k0, i, pid);
    }

    /** The clean-up loop of terminate_process: unlink, then free data and node, of every
        message from or to pid. */
    method PurgeMessages(pid: int)
      requires heap.Valid()
      modifies this, heap
      ensures heap.Valid()
      ensures messages == Kept(old(messages), pid)
      ensures heap.State() == PurgedMem(old(messages), pid, old(heap.State()))
      ensures nextPid == old(nextPid) && currentPid == old(currentPid) && count == old(count)
    {
      ghost var m0 := heap.State();
      var ms := messages;
      var kept: seq<Message> := [];
      var j := 0;
      while j < |ms|
        invariant j <= |ms| && heap.Valid()
        invariant kept == Kept(ms[..j], pid)
        invariant heap.State() == PurgedMem(ms[..j], pid, m0)
        invariant nextPid == old(nextPid) && currentPid == old(currentPid) && count == old(count)
      {
        PurgeStep(ms, j, pid, m0);
        if ms[j].from == pid || ms[j].to == pid {
          FreeMessage(ms[j]);
          assert kept == Kept(ms[..j + 1], pid);
        } else {
          kept := kept + [ms[j]];
          assert kept == Kept(ms[..j + 1], pid);
        }
        j := j + 1;
      }
      assert ms[..j] == ms;
      messages := kept;
    }

    /** The two kfree calls for a purged message: its data, then its node. */
    method FreeMessage(msg: Message)
      requires heap.Valid()
      modifies heap
      ensures heap.Valid()
      ensures heap.State() == Memory.Free(Memory.Free(old(heap.State()), msg.data), msg.node)
    {
      heap.Kfree(msg.data);
      heap.Kfree(msg.node);
    }

    /** set_process_state: CURRENT also moves current_pid. */
    method SetProcessState(pid: int, st: PState)
      requires Valid()
      modifies this, table
      ensures Snapshot() == SetState(old(Snapshot()), pid, st)
      ensures Valid()
    {
      var i := GetProcess(pid);
      if i >= 0 {
        ghost var k0 := Snapshot();
        table[i] := table[i].(state := st);
        if st == Current {
          currentPid := pid;
        }
        assert table[..] == k0.table[i := k0.table[i].(state := st)];
      }
    }

    /** send_message: copy size bytes of msg into a new message at the tail of the queue. */
    method SendMessage(to: int, msg: Option<seq<CStr.byte>>, size: nat)
      requires Valid() && size < Memory.U32 && (msg.Some? ==> size <= |msg.value|)
      modifies this, heap
      ensures Snapshot() == Send(old(Snapshot()), to, msg, size)
      ensures Valid()
    {
      if msg.None? || size == 0 {
        return;
      }
      var dest := GetProcess(to);
      if dest < 0 || table[dest].state == Terminated {
        return;
      }
      ghost var k0 := Snapshot();
      var node := heap.Kmalloc(MESSAGE_SIZE);
      if node == 0 {
        return;
      }
      ghost var m1 := heap.State();
      var data := heap.Kmalloc(size);
      if data == 0 {
        heap.Kfree(node);
        return;
      }
      var payload := msg.value[..size];
      messages := messages + [Message(currentPid, to, size, data, node, payload)];
    }

    /** The search loop of receive_message: the first message addressed to pid. */
    method FindMessage(pid: int) returns (i: int)
      ensures i == FirstFor(messages, pid)
    {
      i := 0;
      while i < |messages|
        invariant 0 <= i <= |messages|
        invariant forall j :: 0 <= j < i ==> messages[j].to != pid
      {
        if messages[i].to == pid {
          FirstForAt(messages, pid, i);
          return;
        }
        i := i + 1;
      }
      FirstForAt(messages, pid, i);
      i := -1;
    }

    /** receive_message: unlink the first message for the current process and free its node. */
    method ReceiveMessage() returns (d: Delivery)
      requires Valid()
      modifies this, heap
      ensures (Snapshot(), d) == Receive(old(Snapshot()))
      ensures Valid()
    {
      var cur := GetCurrentProcess();
      if cur < 0 {
        return NoMessage;
      }
      var i := FindMessage(table[cur].pid);
      if i < 0 {
        return NoMessage;
      }
      var msg := messages[i];
      messages := messages[..i] + messages[i + 1..];
      heap.Kfree(msg.node);
      d := Got(msg.data, msg.from, msg.payload);
      assert messages == Seqs.RemoveAt(old(messages), i);
    }
  }
}
