/**
 * The scheduler of scheduler.c: the ready queue threaded through the PCBs, the three
 * policies, aging, the logical context switch and the tick counters.
 *
 * The intrusive list is modelled as the sequence of the slots it links, head first. Every
 * operation reads the process table and may change the state, priority and CPU time of its
 * PCBs; none of them changes current_pid, which only set_process_state moves.
 */
module Scheduler {
  import Memory
  import Seqs
  import Process

  datatype Policy = RoundRobin | Priority | Fcfs

  /** sched_config_t; aging holds the truth value of aging_enabled. */
  datatype Config = Config(policy: Policy, quantum: nat, aging: bool, maxPriority: nat)

  /** The globals of scheduler.c. idle is the slot of the idle process, -1 for NULL. */
  datatype Sched = Sched(queue: seq<nat>, config: Config, timerTicks: nat, currentTick: nat,
                         contextSwitches: nat, idle: int)

  /** The scheduler's globals together with the process table it reads and writes. */
  datatype World = World(s: Sched, table: seq<Process.Pcb>)

  const MAX_PRIORITY: nat := 10

  /** The queue links distinct slots of a table of n PCBs. */
  predicate QueueOk(q: seq<nat>, n: nat)
  {
    && (forall j :: 0 <= j < |q| ==> q[j] < n)
    && (forall i, j :: 0 <= i < j < |q| ==> q[i] != q[j])
  }

  // ---------------------------------------------------------------- scheduler_init

  function Init(policy: Policy, quantum: nat, idle: int): (s: Sched)
    ensures s.queue == [] && !s.config.aging && s.config.maxPriority == MAX_PRIORITY
    ensures s.config.policy == policy && s.config.quantum == quantum
    ensures s.timerTicks == 0 && s.currentTick == 0 && s.contextSwitches == 0 && s.idle == idle
  {
    Sched([], Config(policy, quantum, false, MAX_PRIORITY), 0, 0, 0, idle)
  }

  // ---------------------------------------------------------------- add_to_ready_queue

  /** Where Priority insertion stops: the end of the run, from i on, of priorities >= pr. */
  function RunEnd(q: seq<nat>, t: seq<Process.Pcb>, pr: int, i: nat): (r: nat)
    requires i <= |q| && forall j :: 0 <= j < |q| ==> q[j] < |t|
    ensures i <= r <= |q|
    ensures forall j :: i <= j < r ==> t[q[j]].priority >= pr
    ensures r < |q| ==> t[q[r]].priority < pr
    decreases |q| - i
  {
    if i == |q| || t[q[i]].priority < pr then i else RunEnd(q, t, pr, i + 1)
  }

  /** The queue once slot k is linked in. */
  function Inserted(q: seq<nat>, t: seq<Process.Pcb>, k: nat, policy: Policy): seq<nat>
    requires k < |t| && forall j :: 0 <= j < |q| ==> q[j] < |t|
  {
    if q == [] || policy != Priority then q + [k]
    else q[..RunEnd(q, t, t[k].priority, 0)] + [k] + q[RunEnd(q, t, t[k].priority, 0)..]
  }

  function WithState(t: seq<Process.Pcb>, k: nat, st: Process.PState): (r: seq<Process.Pcb>)
    requires k < |t|
  {
    t[k := t[k].(state := st)]
  }

  function WithQueue(s: Sched, q: seq<nat>): Sched
  {
    Sched(q, s.config, s.timerTicks, s.currentTick, s.contextSwitches, s.idle)
  }

  /**
   * add_to_ready_queue(&table[k]); k < 0 stands for NULL. A TERMINATED PCB is ignored. The
   * function clears the PCB's link first, so linking a PCB that is already queued cuts the
   * list or closes it into a cycle: callers must not do it.
   */
  function Enqueue(w: World, k: int): World
    requires k < |w.table| && forall j :: 0 <= j < |w.s.queue| ==> w.s.queue[j] < |w.table|
    requires 0 <= k && w.table[k].state != Process.Terminated ==> k !in w.s.queue
  {
    if k < 0 || w.table[k].state == Process.Terminated then w
    else World(WithQueue(w.s, Inserted(w.s.queue, w.table, k, w.s.config.policy)), WithState(w.table, k, Process.Ready))
  }

  // ---------------------------------------------------------------- remove_from_ready_queue

  /** The first queue position at or after i whose PCB has pid; -1 if none. */
  function PidIndexFrom(q: seq<nat>, t: seq<Process.Pcb>, pid: int, i: nat): (r: int)
    requires i <= |q| && forall j :: 0 <= j < |q| ==> q[j] < |t|
    ensures r == -1 || i <= r < |q|
    ensures r >= 0 ==> t[q[r]].pid == pid
    ensures forall j :: i <= j < |q| && (r < 0 || j < r) ==> t[q[j]].pid != pid
    decreases |q| - i
  {
    if i == |q| then -1 else if t[q[i]].pid == pid then i else PidIndexFrom(q, t, pid, i + 1)
  }

  function PidIndex(q: seq<nat>, t: seq<Process.Pcb>, pid: int): (r: int)
    requires forall j :: 0 <= j < |q| ==> q[j] < |t|
    ensures -1 <= r < |q|
    ensures r >= 0 ==> t[q[r]].pid == pid
    ensures forall j :: 0 <= j < |q| && (r < 0 || j < r) ==> t[q[j]].pid != pid
  {
    PidIndexFrom(q, t, pid, 0)
  }

  /** remove_from_ready_queue(pid): unlink the first PCB with pid. */
  function Remove(q: seq<nat>, t: seq<Process.Pcb>, pid: int): seq<nat>
    requires forall j :: 0 <= j < |q| ==> q[j] < |t|
  {
    if PidIndex(q, t, pid) < 0 then q else Seqs.RemoveAt(q, PidIndex(q, t, pid))
  }

  // ---------------------------------------------------------------- pick_next_process

  /** The queue position of the first lowest priority value at or after i, given the best so far. */
  function MinFrom(q: seq<nat>, t: seq<Process.Pcb>, best: nat, i: nat): (r: nat)
    requires best < i <= |q| && forall j :: 0 <= j < |q| ==> q[j] < |t|
    requires forall j :: 0 <= j < i ==> t[q[best]].priority <= t[q[j]].priority
    requires forall j :: 0 <= j < best ==> t[q[j]].priority > t[q[best]].priority
    ensures r < |q|
    ensures forall j :: 0 <= j < |q| ==> t[q[r]].priority <= t[q[j]].priority
    ensures forall j :: 0 <= j < r ==> t[q[j]].priority > t[q[r]].priority
    decreases |q| - i
  {
    if i == |q| then best
    else if t[q[i]].priority < t[q[best]].priority then MinFrom(q, t, i, i + 1)
    else MinFrom(q, t, best, i + 1)
  }

  /** One step of the minimum walk: the best so far moves to i only on a strictly lower value. */
  lemma MinStep(q: seq<nat>, t: seq<Process.Pcb>, best: nat, i: nat)
    requires best < i < |q| && forall j :: 0 <= j < |q| ==> q[j] < |t|
    requires forall j :: 0 <= j < i ==> t[q[best]].priority <= t[q[j]].priority
    requires forall j :: 0 <= j < best ==> t[q[j]].priority > t[q[best]].priority
    ensures var b := if t[q[i]].priority < t[q[best]].priority then i else best;
      && (forall j :: 0 <= j < i + 1 ==> t[q[b]].priority <= t[q[j]].priority)
      && (forall j :: 0 <= j < b ==> t[q[j]].priority > t[q[b]].priority)
      && MinFrom(q, t, b, i + 1) == MinFrom(q, t, best, i)
  {
  }

  /** The minimum walk over the PCBs the queue links: the first lowest value's position. */
  method MinWalk(q: seq<nat>, table: array<Process.Pcb>) returns (b: nat)
    requires q != [] && forall j :: 0 <= j < |q| ==> q[j] < table.Length
    ensures b == MinFrom(q, table[..], 0, 1)
  {
    ghost var t := table[..];
    b := 0;
    var i := 1;
    while i < |q|
      invariant b < i <= |q|
      invariant forall j :: 0 <= j < i ==> t[q[b]].priority <= t[q[j]].priority
      invariant forall j :: 0 <= j < b ==> t[q[j]].priority > t[q[b]].priority
      invariant MinFrom(q, t, b, i) == MinFrom(q, t, 0, 1)
    {
      MinStep(q, t, b, i);
      if table[q[i]].priority < table[q[b]].priority {
        b := i;
      }
      i := i + 1;
    }
  }

  /** Position i holds the first lowest priority value of the queue. */
  predicate FirstMinAt(q: seq<nat>, t: seq<Process.Pcb>, i: nat)
    requires i < |q| && forall j :: 0 <= j < |q| ==> q[j] < |t|
  {
    && (forall j :: 0 <= j < |q| ==> t[q[i]].priority <= t[q[j]].priority)
    && (forall j :: 0 <= j < i ==> t[q[j]].priority > t[q[i]].priority)
  }

  /**
   * The slot pick_next_process selects, -1 for NULL: nothing from an empty queue, the head
   * under Round Robin and FCFS, the first lowest priority value under Priority.
   */
  function Selected(q: seq<nat>, t: seq<Process.Pcb>, policy: Policy): (r: int)
    requires forall j :: 0 <= j < |q| ==> q[j] < |t|
    ensures r == -1 <==> q == []
    ensures r != -1 ==> r in q
    ensures q != [] && policy != Priority ==> r == q[0]
    ensures q != [] && policy == Priority ==> exists i :: 0 <= i < |q| && FirstMinAt(q, t, i) && r == q[i]
  {
    if q == [] then -1
    else if policy != Priority then q[0]
    else
      var i := MinFrom(q, t, 0, 1);
      assert FirstMinAt(q, t, i);
      q[i]
  }

  /** Two tables that hold the same pids slot by slot. */
  predicate SamePids(t: seq<Process.Pcb>, u: seq<Process.Pcb>)
  {
    |t| == |u| && forall j :: 0 <= j < |t| ==> t[j].pid == u[j].pid
  }

  /** Two tables that hold the same processes in the same states, whatever their priorities. */
  predicate SameProcs(t: seq<Process.Pcb>, u: seq<Process.Pcb>)
  {
    SamePids(t, u) && forall j :: 0 <= j < |t| ==> t[j].state == u[j].state
  }

  lemma SamePidsLookup(t: seq<Process.Pcb>, u: seq<Process.Pcb>, pid: int)
    requires SamePids(t, u)
    ensures Process.Lookup(t, pid) == Process.Lookup(u, pid)
  {
  }

  /** The uint32 test of aging: the priority, read as unsigned, is below max. */
  predicate CanAge(p: Process.Pcb, max: nat)
  {
    Memory.Wrap(p.priority) < max
  }

  function Raised(p: Process.Pcb): Process.Pcb
  {
    p.(priority := p.priority + 1)
  }

  /** The aging walk: every slot of q other than sel that can age gains 1. */
  function Aged(t: seq<Process.Pcb>, q: seq<nat>, sel: int, max: nat): (r: seq<Process.Pcb>)
    ensures |r| == |t|
  {
    seq(|t|, j requires 0 <= j < |t| => if j in q && j != sel && CanAge(t[j], max) then Raised(t[j]) else t[j])
  }

  /** The reset of the selected PCB: it loses 1 when above 1. */
  function Relieved(t: seq<Process.Pcb>, sel: int): (r: seq<Process.Pcb>)
    ensures |r| == |t|
  {
    if 0 <= sel < |t| && t[sel].priority > 1 then t[sel := t[sel].(priority := t[sel].priority - 1)] else t
  }

  /** The table after pick_next_process. */
  function Picked(s: Sched, t: seq<Process.Pcb>): (r: seq<Process.Pcb>)
    requires forall j :: 0 <= j < |s.queue| ==> s.queue[j] < |t|
    ensures SameProcs(t, r)
  {
    if !s.config.aging then t
    else Relieved(Aged(t, s.queue, Selected(s.queue, t, s.config.policy), s.config.maxPriority),
                  Selected(s.queue, t, s.config.policy))
  }

  // ---------------------------------------------------------------- context_switch

  /** Slot cur holds a PCB in state CURRENT. */
  predicate Running(t: seq<Process.Pcb>, cur: int)
  {
    0 <= cur < |t| && t[cur].state == Process.Current
  }

  /** The current PCB, when it is CURRENT, is not on the ready queue. */
  predicate RunningUnqueued(w: World, currentPid: int)
  {
    Running(w.table, Process.Lookup(w.table, currentPid)) ==> Process.Lookup(w.table, currentPid) !in w.s.queue
  }

  /** The PCB whose CPU time is charged with the ticks of its run. */
  function Charged(t: seq<Process.Pcb>, k: int, ticks: nat): (r: seq<Process.Pcb>)
    ensures |r| == |t|
  {
    if 0 <= k < |t| then t[k := t[k].(cpuTime := Memory.Wrap(t[k].cpuTime + ticks))] else t
  }

  function Switched(s: Sched, q: seq<nat>): Sched
  {
    Sched(q, s.config, s.timerTicks, 0, Memory.Wrap(s.contextSwitches + 1), s.idle)
  }

  /** The world after the current PCB, if CURRENT, goes back to the queue. */
  function Preempted(w: World, cur: int): World
    requires cur < |w.table| && forall j :: 0 <= j < |w.s.queue| ==> w.s.queue[j] < |w.table|
    requires Running(w.table, cur) ==> cur !in w.s.queue
  {
    if Running(w.table, cur) then Enqueue(w, cur) else w
  }

  /** The table once the current PCB is requeued and next is made CURRENT. */
  function Resumed(w: World, cur: int, next: nat): (r: seq<Process.Pcb>)
    requires cur < |w.table| && next < |w.table| && forall j :: 0 <= j < |w.s.queue| ==> w.s.queue[j] < |w.table|
    requires Running(w.table, cur) ==> cur !in w.s.queue
  {
    WithState(Preempted(w, cur).table, next, Process.Current)
  }

  /** The queue once the current PCB is requeued and next is unlinked by its pid. */
  function SwitchQueue(w: World, cur: int, next: nat): seq<nat>
    requires cur < |w.table| && next < |w.table| && forall j :: 0 <= j < |w.s.queue| ==> w.s.queue[j] < |w.table|
    requires Running(w.table, cur) ==> cur !in w.s.queue
  {
    Remove(Preempted(w, cur).s.queue, Resumed(w, cur, next), w.table[next].pid)
  }

  /** context_switch past its no-op test: from slot cur (-1 for NULL) to slot next. */
  function SwitchFrom(w: World, cur: int, next: nat): World
    requires cur < |w.table| && next < |w.table| && forall j :: 0 <= j < |w.s.queue| ==> w.s.queue[j] < |w.table|
    requires Running(w.table, cur) ==> cur !in w.s.queue
  {
    World(Switched(w.s, SwitchQueue(w, cur, next)), Charged(Resumed(w, cur, next), cur, w.s.currentTick))
  }

  /** context_switch(&table[next]), where the current PCB is the slot of currentPid. */
  function ContextSwitched(w: World, currentPid: int, next: nat): World
    requires next < |w.table| && forall j :: 0 <= j < |w.s.queue| ==> w.s.queue[j] < |w.table|
    requires RunningUnqueued(w, currentPid)
  {
    if Process.Lookup(w.table, currentPid) == next then w
    else SwitchFrom(w, Process.Lookup(w.table, currentPid), next)
  }

  /** The world once slot next is CURRENT and unlinked from the ready queue by its pid. */
  function Resumption(w: World, next: nat): World
    requires next < |w.table| && forall j :: 0 <= j < |w.s.queue| ==> w.s.queue[j] < |w.table|
  {
    World(WithQueue(w.s, Remove(w.s.queue, WithState(w.table, next, Process.Current), w.table[next].pid)),
          WithState(w.table, next, Process.Current))
  }

  /** The world once slot cur is charged its ticks and the switch is counted. */
  function Charging(w: World, cur: int): World
  {
    World(Switched(w.s, w.s.queue), Charged(w.table, cur, w.s.currentTick))
  }

  // ---------------------------------------------------------------- schedule and timer_tick

  /** The slot schedule switches to: the picked one, or the idle process. */
  function NextSlot(s: Sched, t: seq<Process.Pcb>): int
    requires forall j :: 0 <= j < |s.queue| ==> s.queue[j] < |t|
  {
    if Selected(s.queue, t, s.config.policy) < 0 then s.idle else Selected(s.queue, t, s.config.policy)
  }

  /** The world once pick_next_process has run. */
  function Picking(w: World): World
    requires forall j :: 0 <= j < |w.s.queue| ==> w.s.queue[j] < |w.table|
  {
    World(w.s, Picked(w.s, w.table))
  }

  /** schedule: pick, then switch when the pick differs from the current process. */
  function Scheduled(w: World, currentPid: int): World
    requires forall j :: 0 <= j < |w.s.queue| ==> w.s.queue[j] < |w.table|
    requires -1 <= w.s.idle < |w.table| && RunningUnqueued(w, currentPid)
    requires NextSlot(w.s, w.table) < 0 ==> Process.Lookup(w.table, currentPid) < 0
  {
    SamePidsLookup(w.table, Picking(w).table, currentPid);
    if Process.Lookup(w.table, currentPid) == NextSlot(w.s, w.table) then Picking(w)
    else ContextSwitched(Picking(w), currentPid, NextSlot(w.s, w.table))
  }

  function Counted(s: Sched): Sched
  {
    Sched(s.queue, s.config, Memory.Wrap(s.timerTicks + 1), Memory.Wrap(s.currentTick + 1), s.contextSwitches, s.idle)
  }

  /** Whether timer_tick calls schedule after counting the tick. */
  predicate QuantumExpired(s: Sched, t: seq<Process.Pcb>, currentPid: int)
  {
    && Process.Lookup(t, currentPid) >= 0 && currentPid != Process.NULL_PID
    && s.config.policy == RoundRobin && s.currentTick >= s.config.quantum
  }

  function TimerTicked(w: World, currentPid: int): World
    requires forall j :: 0 <= j < |w.s.queue| ==> w.s.queue[j] < |w.table|
    requires -1 <= w.s.idle < |w.table| && RunningUnqueued(w, currentPid)
    requires NextSlot(w.s, w.table) < 0 ==> Process.Lookup(w.table, currentPid) < 0
  {
    if QuantumExpired(Counted(w.s), w.table, currentPid) then Scheduled(World(Counted(w.s), w.table), currentPid)
    else World(Counted(w.s), w.table)
  }

  // ---------------------------------------------------------------- queue lemmas

  /** The queue is ordered by non-increasing priority value, as Priority insertion keeps it. */
  ghost predicate Descending(q: seq<nat>, t: seq<Process.Pcb>)
    requires forall j :: 0 <= j < |q| ==> q[j] < |t|
  {
    forall i, j :: 0 <= i < j < |q| ==> t[q[i]].priority >= t[q[j]].priority
  }

  /** The slice-and-link of Inserted, position by position. */
  lemma Spliced(q: seq<nat>, p: nat, k: nat)
    requires p <= |q|
    ensures |q[..p] + [k] + q[p..]| == |q| + 1
    ensures forall j :: 0 <= j < p ==> (q[..p] + [k] + q[p..])[j] == q[j]
    ensures (q[..p] + [k] + q[p..])[p] == k
    ensures forall j :: p < j <= |q| ==> (q[..p] + [k] + q[p..])[j] == q[j - 1]
    ensures multiset(q[..p] + [k] + q[p..]) == multiset(q) + multiset{k}
  {
    assert q == q[..p] + q[p..];
  }

  /** The position at which Inserted links k. */
  function InsertionPoint(q: seq<nat>, t: seq<Process.Pcb>, k: nat, policy: Policy): (p: nat)
    requires k < |t| && forall j :: 0 <= j < |q| ==> q[j] < |t|
    ensures p <= |q|
  {
    if q == [] || policy != Priority then |q| else RunEnd(q, t, t[k].priority, 0)
  }

  lemma InsertedAt(q: seq<nat>, t: seq<Process.Pcb>, k: nat, policy: Policy)
    requires k < |t| && forall j :: 0 <= j < |q| ==> q[j] < |t|
    ensures Inserted(q, t, k, policy) == q[..InsertionPoint(q, t, k, policy)] + [k] + q[InsertionPoint(q, t, k, policy)..]
  {
    if q == [] || policy != Priority {
      assert q[..|q|] == q;
    }
  }

  /**
   * add_to_ready_queue links exactly one more slot, keeps the queue's slots distinct, and
   * changes nothing of the table but the state of that slot, which becomes READY; a NULL or
   * TERMINATED PCB changes nothing.
   */
  lemma EnqueueLinks(w: World, k: int)
    requires QueueOk(w.s.queue, |w.table|) && k < |w.table|
    requires 0 <= k && w.table[k].state != Process.Terminated ==> k !in w.s.queue
    ensures var r := Enqueue(w, k);
      && (k < 0 || w.table[k].state == Process.Terminated ==> r == w)
      && (0 <= k && w.table[k].state != Process.Terminated ==>
            && QueueOk(r.s.queue, |r.table|)
            && multiset(r.s.queue) == multiset(w.s.queue) + multiset{k as nat}
            && r.table == w.table[k := w.table[k].(state := Process.Ready)]
            && r.s == WithQueue(w.s, r.s.queue))
  {
    if 0 <= k && w.table[k].state != Process.Terminated {
      var q := w.s.queue;
      var p := InsertionPoint(q, w.table, k, w.s.config.policy);
      InsertedAt(q, w.table, k, w.s.config.policy);
      Spliced(q, p, k);
      var r := q[..p] + [k] + q[p..];
      forall i, j | 0 <= i < j < |r|
        ensures r[i] != r[j]
      {
        if j == p {
          assert r[i] == q[i];
        } else if i == p {
          assert r[j] == q[j - 1];
        }
      }
    }
  }

  /** Under Round Robin and FCFS, or on an empty queue, the PCB goes to the tail. */
  lemma EnqueueAppends(w: World, k: nat)
    requires k < |w.table| && forall j :: 0 <= j < |w.s.queue| ==> w.s.queue[j] < |w.table|
    requires w.table[k].state != Process.Terminated && k !in w.s.queue
    requires w.s.queue == [] || w.s.config.policy != Priority
    ensures Enqueue(w, k).s.queue == w.s.queue + [k]
  {
  }

  /**
   * Under Priority, the PCB goes after every queued PCB whose priority value is at least its
   * own, and a queue ordered by non-increasing value stays so ordered, with the new PCB
   * after the ones of equal value and before the ones of lower value.
   */
  lemma {:induction false} EnqueueKeepsSorted(w: World, k: nat)
    requires k < |w.table| && forall j :: 0 <= j < |w.s.queue| ==> w.s.queue[j] < |w.table|
    requires w.table[k].state != Process.Terminated && k !in w.s.queue
    requires w.s.config.policy == Priority && Descending(w.s.queue, w.table)
    ensures var r := Enqueue(w, k);
      && Descending(r.s.queue, r.table)
      && exists p :: 0 <= p < |r.s.queue| && r.s.queue[p] == k
           && (forall j :: 0 <= j < p ==> w.table[r.s.queue[j]].priority >= w.table[k].priority)
           && (forall j :: p < j < |r.s.queue| ==> w.table[r.s.queue[j]].priority < w.table[k].priority)
  {
    var q, t, pr := w.s.queue, w.table, w.table[k].priority;
    var p := InsertionPoint(q, t, k, Priority);
    InsertedAt(q, t, k, Priority);
    assert forall j :: p <= j < |q| ==> t[q[j]].priority < pr by {
      if p < |q| {
        assert t[q[p]].priority < pr;
      }
    }
    SplicedOrder(q, t, p, k);
    var r := Enqueue(w, k);
    assert r.s.queue == q[..p] + [k] + q[p..];
    DescendingByPriority(r.s.queue, t, r.table);
    assert 0 <= p < |r.s.queue| && r.s.queue[p] == k;
  }

  /** Splicing k in at p, between the values at least its own and those below, keeps the order. */
  lemma SplicedOrder(q: seq<nat>, t: seq<Process.Pcb>, p: nat, k: nat)
    requires p <= |q| && k < |t| && forall j :: 0 <= j < |q| ==> q[j] < |t|
    requires Descending(q, t)
    requires forall j :: 0 <= j < p ==> t[q[j]].priority >= t[k].priority
    requires forall j :: p <= j < |q| ==> t[q[j]].priority < t[k].priority
    ensures var s := q[..p] + [k] + q[p..];
      && Descending(s, t) && s[p] == k
      && (forall j :: 0 <= j < p ==> t[s[j]].priority >= t[k].priority)
      && (forall j :: p < j < |s| ==> t[s[j]].priority < t[k].priority)
  {
    Spliced(q, p, k);
    SortedSplice(q, t, p, k);
  }

  /** Descending depends on the priority values only. */
  lemma DescendingByPriority(q: seq<nat>, t: seq<Process.Pcb>, u: seq<Process.Pcb>)
    requires |t| == |u| && forall j :: 0 <= j < |q| ==> q[j] < |t|
    requires forall j :: 0 <= j < |t| ==> t[j].priority == u[j].priority
    requires Descending(q, t)
    ensures Descending(q, u)
  {
  }

  lemma SortedSplice(q: seq<nat>, t: seq<Process.Pcb>, p: nat, k: nat)
    requires p <= |q| && k < |t| && forall j :: 0 <= j < |q| ==> q[j] < |t|
    requires Descending(q, t)
    requires forall j :: 0 <= j < p ==> t[q[j]].priority >= t[k].priority
    requires forall j :: p <= j < |q| ==> t[q[j]].priority < t[k].priority
    ensures Descending(q[..p] + [k] + q[p..], t)
  {
    Spliced(q, p, k);
    var r := q[..p] + [k] + q[p..];
    forall i, j | 0 <= i < j < |r|
      ensures t[r[i]].priority >= t[r[j]].priority
    {
      var i' := if i < p then i else i - 1;
      var j' := if j <= p then j else j - 1;
      if i != p && j != p {
        assert r[i] == q[i'] && r[j] == q[j'];
      }
    }
  }

  /** PidIndex is the first queued position whose PCB has pid. */
  lemma PidIndexAt(q: seq<nat>, t: seq<Process.Pcb>, pid: int, p: int)
    requires forall j :: 0 <= j < |q| ==> q[j] < |t|
    requires -1 <= p < |q|
    requires p >= 0 ==> t[q[p]].pid == pid
    requires forall j :: 0 <= j < |q| && (p < 0 || j < p) ==> t[q[j]].pid != pid
    ensures PidIndex(q, t, pid) == p
  {
  }

  /**
   * remove_from_ready_queue unlinks the first queued PCB with pid and keeps the rest in
   * order; when no queued PCB has pid the queue is unchanged.
   */
  lemma RemoveUnlinks(q: seq<nat>, t: seq<Process.Pcb>, pid: int)
    requires QueueOk(q, |t|)
    ensures var r := Remove(q, t, pid);
      && QueueOk(r, |t|)
      && ((forall j :: 0 <= j < |q| ==> t[q[j]].pid != pid) <==> r == q)
      && (r != q ==> exists p :: 0 <= p < |q| && t[q[p]].pid == pid
                       && (forall j :: 0 <= j < p ==> t[q[j]].pid != pid)
                       && r == q[..p] + q[p + 1..]
                       && multiset(r) == multiset(q) - multiset{q[p]})
  {
    var i := PidIndex(q, t, pid);
    if i >= 0 {
      RemoveFound(q, t, pid, i);
      assert !(forall j :: 0 <= j < |q| ==> t[q[j]].pid != pid) by { assert t[q[i]].pid == pid; }
    }
  }

  /** When the first queued PCB with pid is at position i, exactly that entry is unlinked. */
  lemma RemoveFound(q: seq<nat>, t: seq<Process.Pcb>, pid: int, i: nat)
    requires QueueOk(q, |t|) && i < |q| && PidIndex(q, t, pid) == i
    ensures var r := Remove(q, t, pid);
      && QueueOk(r, |t|) && r != q && t[q[i]].pid == pid
      && (forall j :: 0 <= j < i ==> t[q[j]].pid != pid)
      && r == q[..i] + q[i + 1..] && multiset(r) == multiset(q) - multiset{q[i]}
  {
    RemoveAtKeepsOk(q, i, |t|);
    assert |Remove(q, t, pid)| < |q|;
  }

  lemma RemoveAtKeepsOk(q: seq<nat>, i: nat, n: nat)
    requires QueueOk(q, n) && i < |q|
    ensures QueueOk(Seqs.RemoveAt(q, i), n)
    ensures Seqs.RemoveAt(q, i) == q[..i] + q[i + 1..]
    ensures multiset(Seqs.RemoveAt(q, i)) == multiset(q) - multiset{q[i]}
  {
    assert q == q[..i] + [q[i]] + q[i + 1..];
    RemoveAtDistinct(q, i, n);
  }

  lemma RemoveAtDistinct(q: seq<nat>, i: nat, n: nat)
    requires QueueOk(q, n) && i < |q|
    ensures QueueOk(Seqs.RemoveAt(q, i), n)
  {
    var r := Seqs.RemoveAt(q, i);
    forall a, b | 0 <= a < b < |r|
      ensures r[a] != r[b]
    {
      var a' := if a < i then a else a + 1;
      var b' := if b < i then b else b + 1;
      assert r[a] == q[a'] && r[b] == q[b'];
    }
  }

  /**
   * Removing by pid undoes add_to_ready_queue, when no other queued PCB shares the pid of
   * the one added: the queue is back as it was.
   */
  lemma RemoveUndoesEnqueue(w: World, k: nat)
    requires QueueOk(w.s.queue, |w.table|) && k < |w.table|
    requires w.table[k].state != Process.Terminated && k !in w.s.queue
    requires forall j :: 0 <= j < |w.s.queue| ==> w.table[w.s.queue[j]].pid != w.table[k].pid
    ensures var r := Enqueue(w, k); Remove(r.s.queue, r.table, w.table[k].pid) == w.s.queue
  {
    var q, t := w.s.queue, w.table;
    var r := Enqueue(w, k);
    var p := InsertionPoint(q, t, k, w.s.config.policy);
    InsertedAt(q, t, k, w.s.config.policy);
    assert r.s.queue == q[..p] + [k] + q[p..];
    RemoveSpliced(q, r.table, p, k, t[k].pid);
  }

  /** Removing by pid the one spliced-in slot whose PCB has that pid gives back the queue. */
  lemma RemoveSpliced(q: seq<nat>, u: seq<Process.Pcb>, p: nat, k: nat, pid: int)
    requires p <= |q| && k < |u| && forall j :: 0 <= j < |q| ==> q[j] < |u|
    requires u[k].pid == pid && forall j :: 0 <= j < |q| ==> u[q[j]].pid != pid
    ensures Remove(q[..p] + [k] + q[p..], u, pid) == q
  {
    var s := q[..p] + [k] + q[p..];
    Spliced(q, p, k);
    PidIndexAt(s, u, pid, p);
    assert s[..p] == q[..p] && s[p + 1..] == q[p..];
    assert Seqs.RemoveAt(s, p) == q;
  }

  // ---------------------------------------------------------------- selection and aging lemmas

  /** At most one position holds the first lowest value. */
  lemma FirstMinUnique(q: seq<nat>, t: seq<Process.Pcb>, i: nat, j: nat)
    requires i < |q| && j < |q| && forall k :: 0 <= k < |q| ==> q[k] < |t|
    requires FirstMinAt(q, t, i) && FirstMinAt(q, t, j)
    ensures i == j
  {
    assert t[q[i]].priority <= t[q[j]].priority;
    assert t[q[j]].priority <= t[q[i]].priority;
  }

  /**
   * The aging walk, slot by slot: with aging off no priority changes; with it on, a waiting
   * queued PCB whose value, read as unsigned, is below max_priority gains 1, the selected PCB
   * loses 1 when above 1, and nothing else of any PCB changes.
   */
  lemma AgingEffects(s: Sched, t: seq<Process.Pcb>)
    requires QueueOk(s.queue, |t|)
    ensures var r := Picked(s, t); var sel := Selected(s.queue, t, s.config.policy);
      && (!s.config.aging ==> r == t)
      && (s.config.aging ==> forall j :: 0 <= j < |t| ==>
            r[j] == t[j].(priority := r[j].priority)
            && r[j].priority == if j == sel then (if t[j].priority > 1 then t[j].priority - 1 else t[j].priority)
                                else if j in s.queue && CanAge(t[j], s.config.maxPriority) then t[j].priority + 1
                                else t[j].priority)
  {
  }

  /**
   * Under Priority, aging lowers the value of the PCB just selected and raises the others',
   * so the same PCB stays first lowest and is selected again on the next pick: the waiting
   * PCBs are pushed further back rather than forward.
   */
  lemma {:induction false} AgingEntrenches(s: Sched, t: seq<Process.Pcb>)
    requires QueueOk(s.queue, |t|) && s.queue != []
    requires s.config.policy == Priority && s.config.aging
    ensures Selected(s.queue, Picked(s, t), Priority) == Selected(s.queue, t, Priority)
  {
    var q, u := s.queue, Picked(s, t);
    var i := MinFrom(q, t, 0, 1);
    assert FirstMinAt(q, t, i);
    AgingMonotone(s, t, i);
    FirstMinKept(q, t, u, i);
    SelectedFirstMin(q, u, i);
  }

  /** Under Priority the selection is the queue's first lowest value, wherever that is found. */
  lemma SelectedFirstMin(q: seq<nat>, u: seq<Process.Pcb>, i: nat)
    requires i < |q| && forall j :: 0 <= j < |q| ==> q[j] < |u|
    requires FirstMinAt(q, u, i)
    ensures Selected(q, u, Priority) == q[i]
  {
    var i' := MinFrom(q, u, 0, 1);
    assert FirstMinAt(q, u, i');
    FirstMinUnique(q, u, i, i');
  }

  /** Aging never raises the selected PCB's value and never lowers another queued PCB's. */
  lemma AgingMonotone(s: Sched, t: seq<Process.Pcb>, i: nat)
    requires QueueOk(s.queue, |t|) && i < |s.queue| && s.config.aging
    requires s.queue[i] == Selected(s.queue, t, s.config.policy)
    ensures Picked(s, t)[s.queue[i]].priority <= t[s.queue[i]].priority
    ensures forall j :: 0 <= j < |s.queue| && j != i ==> Picked(s, t)[s.queue[j]].priority >= t[s.queue[j]].priority
  {
    var q := s.queue;
    forall j | 0 <= j < |q| && j != i
      ensures Picked(s, t)[q[j]].priority >= t[q[j]].priority
    {
      assert q[j] != q[i];
    }
  }

  lemma FirstMinKept(q: seq<nat>, t: seq<Process.Pcb>, u: seq<Process.Pcb>, i: nat)
    requires |t| == |u| && i < |q| && forall j :: 0 <= j < |q| ==> q[j] < |t|
    requires FirstMinAt(q, t, i) && u[q[i]].priority <= t[q[i]].priority
    requires forall j :: 0 <= j < |q| && j != i ==> u[q[j]].priority >= t[q[j]].priority
    ensures FirstMinAt(q, u, i)
  {
  }

  // ---------------------------------------------------------------- context switch lemmas

  /** No slot of the table other than k carries k's pid. */
  predicate PidUnique(t: seq<Process.Pcb>, k: nat)
    requires k < |t|
  {
    forall j :: 0 <= j < |t| && j != k ==> t[j].pid != t[k].pid
  }

  /** Removing by the pid of a slot no other slot shares takes that slot, and only it, off. */
  lemma RemoveSlot(q: seq<nat>, t: seq<Process.Pcb>, k: nat)
    requires QueueOk(q, |t|) && k < |t| && PidUnique(t, k)
    ensures var r := Remove(q, t, t[k].pid);
      && QueueOk(r, |t|) && k !in r && multiset(r) == multiset(q) - multiset{k}
  {
    if k in q {
      var p :| 0 <= p < |q| && q[p] == k;
      PidIndexAt(q, t, t[k].pid, p);
      RemoveAtKeepsOk(q, p, |t|);
      RemoveAtDrops(q, p, |t|);
    } else {
      PidIndexAt(q, t, t[k].pid, -1);
      assert multiset(q)[k] == 0;
    }
  }

  /** In a queue without repeats, the slot removed at i appears nowhere in what is left. */
  lemma RemoveAtDrops(q: seq<nat>, i: nat, n: nat)
    requires QueueOk(q, n) && i < |q|
    ensures q[i] !in Seqs.RemoveAt(q, i)
  {
    var r := Seqs.RemoveAt(q, i);
    forall a | 0 <= a < |r|
      ensures r[a] != q[i]
    {
      var a' := if a < i then a else a + 1;
      assert r[a] == q[a'];
    }
  }

  /** Removing by pid keeps a queue sound. */
  lemma RemoveKeepsOk(q: seq<nat>, t: seq<Process.Pcb>, pid: int)
    requires QueueOk(q, |t|)
    ensures QueueOk(Remove(q, t, pid), |t|)
  {
    if PidIndex(q, t, pid) >= 0 {
      RemoveAtDistinct(q, PidIndex(q, t, pid), |t|);
    }
  }

  /** A switch is the preemption, then the resumption, then the charge. */
  lemma SwitchFromSteps(w: World, cur: int, next: nat)
    requires QueueOk(w.s.queue, |w.table|) && cur < |w.table| && next < |w.table|
    requires Running(w.table, cur) ==> cur !in w.s.queue
    ensures QueueOk(Preempted(w, cur).s.queue, |w.table|) && |Preempted(w, cur).table| == |w.table|
    ensures SwitchFrom(w, cur, next) == Charging(Resumption(Preempted(w, cur), next), cur)
  {
    PreemptedCounters(w, cur);
    ResumptionParts(w, cur, next);
    SwitchAssembled(w, Resumption(Preempted(w, cur), next), cur, next);
  }

  /** Any world with the switch's table and queue and w's counters is charged into the switch. */
  lemma SwitchAssembled(w: World, r: World, cur: int, next: nat)
    requires QueueOk(w.s.queue, |w.table|) && cur < |w.table| && next < |w.table|
    requires Running(w.table, cur) ==> cur !in w.s.queue
    requires r.table == Resumed(w, cur, next) && r.s == WithQueue(w.s, SwitchQueue(w, cur, next))
    ensures SwitchFrom(w, cur, next) == Charging(r, cur)
  {
  }

  /** The resumption step yields the table and the queue a switch ends with. */
  lemma ResumptionParts(w: World, cur: int, next: nat)
    requires QueueOk(w.s.queue, |w.table|) && cur < |w.table| && next < |w.table|
    requires Running(w.table, cur) ==> cur !in w.s.queue
    requires QueueOk(Preempted(w, cur).s.queue, |w.table|) && |Preempted(w, cur).table| == |w.table|
    requires Preempted(w, cur).s == WithQueue(w.s, Preempted(w, cur).s.queue)
    ensures Resumption(Preempted(w, cur), next).table == Resumed(w, cur, next)
    ensures Resumption(Preempted(w, cur), next).s == WithQueue(w.s, SwitchQueue(w, cur, next))
  {
  }

  /** Requeueing the current PCB keeps the queue sound and changes no counter. */
  lemma PreemptedCounters(w: World, cur: int)
    requires QueueOk(w.s.queue, |w.table|) && cur < |w.table|
    requires Running(w.table, cur) ==> cur !in w.s.queue
    ensures QueueOk(Preempted(w, cur).s.queue, |w.table|) && |Preempted(w, cur).table| == |w.table|
    ensures Preempted(w, cur).s == WithQueue(w.s, Preempted(w, cur).s.queue)
  {
    if Running(w.table, cur) {
      EnqueueLinks(w, cur);
    }
  }

  /** The world after the requeue step of a switch away from cur. */
  lemma PreemptedEffects(w: World, cur: int)
    requires QueueOk(w.s.queue, |w.table|) && cur < |w.table|
    requires Running(w.table, cur) ==> cur !in w.s.queue
    ensures QueueOk(Preempted(w, cur).s.queue, |w.table|)
    ensures Running(w.table, cur) ==> multiset(Preempted(w, cur).s.queue) == multiset(w.s.queue) + multiset{cur as nat}
    ensures Running(w.table, cur) ==> Preempted(w, cur).table == WithState(w.table, cur, Process.Ready)
    ensures !Running(w.table, cur) ==> Preempted(w, cur) == w
  {
    if Running(w.table, cur) {
      EnqueueLinks(w, cur);
    }
  }

  /**
   * The queue after context_switch(next) away from the current PCB cur: a CURRENT cur is
   * queued, next is taken off, and the queue's slots stay distinct.
   */
  lemma {:induction false} SwitchQueueEffects(w: World, cur: int, next: nat)
    requires QueueOk(w.s.queue, |w.table|) && cur < |w.table| && next < |w.table| && cur != next
    requires Running(w.table, cur) ==> cur !in w.s.queue
    requires PidUnique(w.table, next)
    ensures QueueOk(SwitchQueue(w, cur, next), |w.table|) && next !in SwitchQueue(w, cur, next)
    ensures Running(w.table, cur) ==> cur in SwitchQueue(w, cur, next)
    ensures Running(w.table, cur) ==>
      multiset(SwitchQueue(w, cur, next)) == multiset(w.s.queue) + multiset{cur as nat} - multiset{next}
    ensures !Running(w.table, cur) ==> multiset(SwitchQueue(w, cur, next)) == multiset(w.s.queue) - multiset{next}
  {
    PreemptedEffects(w, cur);
    var q1, t2 := Preempted(w, cur).s.queue, Resumed(w, cur, next);
    assert PidUnique(t2, next);
    RemoveSlot(q1, t2, next);
    if Running(w.table, cur) {
      assert cur in multiset(q1);
      assert cur in multiset(SwitchQueue(w, cur, next));
    }
  }

  /**
   * The table after context_switch(next) away from the current PCB cur: next becomes
   * CURRENT, a CURRENT cur becomes READY, cur is charged the ticks of its run; no pid and
   * no other PCB changes.
   */
  lemma {:induction false} SwitchTableEffects(w: World, cur: int, next: nat)
    requires QueueOk(w.s.queue, |w.table|) && cur < |w.table| && next < |w.table| && cur != next
    requires Running(w.table, cur) ==> cur !in w.s.queue
    ensures var r := SwitchFrom(w, cur, next).table;
      && SamePids(w.table, r) && r[next].state == Process.Current
      && (Running(w.table, cur) ==> r[cur].state == Process.Ready)
      && (0 <= cur && !Running(w.table, cur) ==> r[cur].state == w.table[cur].state)
      && (0 <= cur ==> r[cur].cpuTime == Memory.Wrap(w.table[cur].cpuTime + w.s.currentTick))
      && (forall j :: 0 <= j < |w.table| && j != cur && j != next ==> r[j] == w.table[j])
  {
    PreemptedEffects(w, cur);
    var t2 := Resumed(w, cur, next);
    assert SamePids(w.table, t2);
  }

  /**
   * context_switch(next) when next is not the current PCB: the queue and table change as
   * the two lemmas above say, current_tick restarts and context_switches counts one more;
   * when next is the current PCB nothing changes.
   */
  lemma ContextSwitchCounts(w: World, currentPid: int, next: nat)
    requires QueueOk(w.s.queue, |w.table|) && next < |w.table| && RunningUnqueued(w, currentPid)
    ensures var r := ContextSwitched(w, currentPid, next);
      && (Process.Lookup(w.table, currentPid) == next ==> r == w)
      && (Process.Lookup(w.table, currentPid) != next ==>
            && r == SwitchFrom(w, Process.Lookup(w.table, currentPid), next)
            && r.s.currentTick == 0 && r.s.contextSwitches == Memory.Wrap(w.s.contextSwitches + 1)
            && r.s.config == w.s.config && r.s.timerTicks == w.s.timerTicks && r.s.idle == w.s.idle)
  {
  }

  /** After a switch the current PCB, whatever its state, is off the queue or not CURRENT. */
  lemma ContextSwitchKeepsRunningUnqueued(w: World, currentPid: int, next: nat)
    requires QueueOk(w.s.queue, |w.table|) && next < |w.table| && RunningUnqueued(w, currentPid)
    ensures RunningUnqueued(ContextSwitched(w, currentPid, next), currentPid)
  {
    var cur := Process.Lookup(w.table, currentPid);
    if cur != next {
      SwitchTableEffects(w, cur, next);
      var r := ContextSwitched(w, currentPid, next);
      SamePidsLookup(w.table, r.table, currentPid);
    }
  }

  // ---------------------------------------------------------------- schedule and timer_tick lemmas

  /** What every scheduler operation keeps: a distinct queue, an idle slot, no running PCB queued. */
  predicate Sound(w: World, currentPid: int)
  {
    QueueOk(w.s.queue, |w.table|) && -1 <= w.s.idle < |w.table| && RunningUnqueued(w, currentPid)
  }

  /** What schedule needs of its caller: when it has nothing to run, nothing is current. */
  predicate HasNext(w: World, currentPid: int)
    requires forall j :: 0 <= j < |w.s.queue| ==> w.s.queue[j] < |w.table|
  {
    NextSlot(w.s, w.table) < 0 ==> Process.Lookup(w.table, currentPid) < 0
  }

  lemma PickingSound(w: World, currentPid: int)
    requires Sound(w, currentPid)
    ensures Sound(Picking(w), currentPid) && SameProcs(w.table, Picking(w).table)
    ensures Process.Lookup(Picking(w).table, currentPid) == Process.Lookup(w.table, currentPid)
  {
    SamePidsLookup(w.table, Picking(w).table, currentPid);
  }

  /**
   * schedule switches only when the pick, or the idle PCB on an empty queue, is not the
   * current PCB; otherwise only the priorities that aging moves change.
   */
  lemma ScheduleSwitchesOnlyAway(w: World, currentPid: int)
    requires Sound(w, currentPid) && HasNext(w, currentPid)
    ensures Process.Lookup(w.table, currentPid) == NextSlot(w.s, w.table) ==>
      Scheduled(w, currentPid) == Picking(w)
    ensures Process.Lookup(w.table, currentPid) != NextSlot(w.s, w.table) ==>
      0 <= NextSlot(w.s, w.table)
      && Scheduled(w, currentPid) == SwitchFrom(Picking(w), Process.Lookup(w.table, currentPid), NextSlot(w.s, w.table))
  {
    PickingSound(w, currentPid);
  }

  /** schedule keeps Sound and moves no pid. */
  lemma {:induction false} ScheduleKeepsSound(w: World, currentPid: int)
    requires Sound(w, currentPid) && HasNext(w, currentPid)
    ensures Sound(Scheduled(w, currentPid), currentPid) && SamePids(w.table, Scheduled(w, currentPid).table)
  {
    PickingSound(w, currentPid);
    ScheduleSwitchesOnlyAway(w, currentPid);
    var cur, next := Process.Lookup(w.table, currentPid), NextSlot(w.s, w.table);
    if cur != next {
      SwitchTableEffects(Picking(w), cur, next);
      ContextSwitchKeepsRunningUnqueued(Picking(w), currentPid, next);
      PreemptedEffects(Picking(w), cur);
      RemoveUnlinks(Preempted(Picking(w), cur).s.queue, Resumed(Picking(w), cur, next), w.table[next].pid);
    }
  }

  /**
   * After a switch, the PCB schedule switched to is CURRENT and, when no other slot shares
   * its pid, off the queue.
   */
  lemma {:induction false} ScheduleRuns(w: World, currentPid: int)
    requires Sound(w, currentPid) && HasNext(w, currentPid)
    requires Process.Lookup(w.table, currentPid) != NextSlot(w.s, w.table)
    ensures 0 <= NextSlot(w.s, w.table) && Scheduled(w, currentPid).table[NextSlot(w.s, w.table)].state == Process.Current
    ensures PidUnique(w.table, NextSlot(w.s, w.table)) ==> NextSlot(w.s, w.table) !in Scheduled(w, currentPid).s.queue
  {
    PickingSound(w, currentPid);
    ScheduleSwitchesOnlyAway(w, currentPid);
    var cur, next := Process.Lookup(w.table, currentPid), NextSlot(w.s, w.table);
    SwitchTableEffects(Picking(w), cur, next);
    if PidUnique(w.table, next) {
      assert PidUnique(Picking(w).table, next);
      SwitchQueueEffects(Picking(w), cur, next);
    }
  }

  /**
   * timer_tick counts the tick in both counters; it calls schedule exactly when the quantum
   * of a current PCB other than the null process has run out under Round Robin, and
   * otherwise changes nothing else. schedule leaves timer_ticks as timer_tick set it.
   */
  lemma TimerTickEffects(w: World, currentPid: int)
    requires Sound(w, currentPid) && HasNext(w, currentPid)
    ensures var r := TimerTicked(w, currentPid);
      && r.s.timerTicks == Memory.Wrap(w.s.timerTicks + 1)
      && r.s.config == w.s.config && r.s.idle == w.s.idle && Sound(r, currentPid)
      && (QuantumExpired(Counted(w.s), w.table, currentPid) ==> r == Scheduled(World(Counted(w.s), w.table), currentPid))
      && (!QuantumExpired(Counted(w.s), w.table, currentPid) ==> r.table == w.table && r.s == Counted(w.s))
  {
    var w1 := World(Counted(w.s), w.table);
    if QuantumExpired(Counted(w.s), w.table, currentPid) {
      ScheduleKeepsSound(w1, currentPid);
      ScheduleSwitchesOnlyAway(w1, currentPid);
    }
  }

  // ---------------------------------------------------------------- the kmain demonstration

  /**
   * One pass of kmain's loop: timer_tick, then schedule, with current_pid left at NULL_PID.
   * A world schedule cannot run on is left as it is.
   */
  function DemoRound(w: World): World
  {
    if Sound(w, Process.NULL_PID) && HasNext(w, Process.NULL_PID)
    then Scheduled(TimerTicked(w, Process.NULL_PID), Process.NULL_PID)
    else w
  }

  /**
   * A round of the demonstration when the queue's head k is not the null process in slot 0:
   * k is switched in and unlinked, the null process is requeued at the tail if it was CURRENT
   * and in any case stops being CURRENT, and no other PCB changes state.
   */
  lemma {:induction false} DemoSwitch(w: World, k: nat)
    requires Sound(w, Process.NULL_PID) && HasNext(w, Process.NULL_PID)
    requires w.s.queue != [] && w.s.queue[0] == k && k != 0 && w.table[0].pid == Process.NULL_PID
    requires PidUnique(w.table, k) && w.s.config.policy == RoundRobin && !w.s.config.aging
    ensures var r := DemoRound(w);
      && Sound(r, Process.NULL_PID) && SamePids(w.table, r.table) && |r.table| == |w.table|
      && r.s.queue == w.s.queue[1..] + (if Running(w.table, 0) then [0] else [])
      && r.s.config == w.s.config && r.s.idle == w.s.idle
      && r.table[k].state == Process.Current
      && r.table[0].state == (if Running(w.table, 0) then Process.Ready else w.table[0].state)
      && (forall j :: 0 <= j < |w.table| && j != 0 && j != k ==> r.table[j].state == w.table[j].state)
  {
    var w1 := World(Counted(w.s), w.table);
    assert !QuantumExpired(Counted(w.s), w.table, Process.NULL_PID);
    assert TimerTicked(w, Process.NULL_PID) == w1;
    assert Process.Lookup(w.table, Process.NULL_PID) == 0;
    assert Picking(w1) == w1;
    ScheduleSwitchesOnlyAway(w1, Process.NULL_PID);
    ScheduleKeepsSound(w1, Process.NULL_PID);
    SwitchTableEffects(w1, 0, k);
    DemoQueue(w1, k);
  }

  lemma DemoQueue(w1: World, k: nat)
    requires QueueOk(w1.s.queue, |w1.table|) && 0 < |w1.table| && k < |w1.table|
    requires Running(w1.table, 0) ==> 0 !in w1.s.queue
    requires w1.s.queue != [] && w1.s.queue[0] == k && k != 0 && w1.s.config.policy == RoundRobin
    ensures SwitchQueue(w1, 0, k) == w1.s.queue[1..] + (if Running(w1.table, 0) then [0] else [])
  {
    var q1 := Preempted(w1, 0).s.queue;
    assert q1 == w1.s.queue + (if Running(w1.table, 0) then [0] else []);
    PidIndexAt(q1, Resumed(w1, 0, k), w1.table[k].pid, 0);
  }

  /** A round of the demonstration when the queue's head is the null process: nothing moves. */
  lemma DemoSettled(w: World)
    requires Sound(w, Process.NULL_PID) && HasNext(w, Process.NULL_PID)
    requires w.s.queue != [] && w.s.queue[0] == 0 && w.table[0].pid == Process.NULL_PID
    requires w.s.config.policy == RoundRobin && !w.s.config.aging
    ensures DemoRound(w).table == w.table && DemoRound(w).s.queue == w.s.queue
  {
    var w1 := World(Counted(w.s), w.table);
    assert !QuantumExpired(Counted(w.s), w.table, Process.NULL_PID);
    assert TimerTicked(w, Process.NULL_PID) == w1;
    assert Process.Lookup(w.table, Process.NULL_PID) == 0;
    assert Picking(w1) == w1;
  }

  /** The pids kmain's table holds: the null process and processes 1 to 3 in slots 0 to 3, no other. */
  predicate DemoPids(t: seq<Process.Pcb>)
  {
    && |t| >= 4 && (forall i :: 0 <= i < 4 ==> t[i].pid == i)
    && (forall j :: 4 <= j < |t| ==> t[j].pid < 0)
  }

  /** The table kmain builds: the null process CURRENT, processes 1 to 3 READY. */
  predicate DemoTable(t: seq<Process.Pcb>)
  {
    && DemoPids(t) && t[0].state == Process.Current
    && (forall i :: 1 <= i < 4 ==> t[i].state == Process.Ready)
  }

  /** The queue before round n of the demonstration, 1 <= n <= 4. */
  function DemoQueueAt(n: nat): seq<nat>
  {
    if n <= 1 then [1, 2, 3] else if n == 2 then [2, 3, 0] else if n == 3 then [3, 0] else [0]
  }

  /**
   * The world before round n: processes below n are CURRENT, the others READY, and the null
   * process has been READY since the first switch.
   */
  predicate DemoStage(w: World, n: nat)
  {
    && 1 <= n <= 4 && DemoPids(w.table) && Sound(w, Process.NULL_PID)
    && w.s.config == Config(RoundRobin, 100, false, MAX_PRIORITY) && w.s.queue == DemoQueueAt(n)
    && w.table[0].state == (if n == 1 then Process.Current else Process.Ready)
    && (forall i :: 1 <= i < 4 ==> w.table[i].state == if i < n then Process.Current else Process.Ready)
  }

  lemma DemoPidsUnique(t: seq<Process.Pcb>, k: nat)
    requires DemoPids(t) && 1 <= k < 4
    ensures PidUnique(t, k)
  {
  }

  /** Each of the first three rounds switches the queue's head in. */
  lemma {:induction false} DemoAdvance(w: World, n: nat)
    requires 1 <= n < 4 && DemoStage(w, n)
    ensures DemoStage(DemoRound(w), n + 1)
  {
    DemoPidsUnique(w.table, n);
    assert Process.Lookup(w.table, Process.NULL_PID) == 0;
    assert HasNext(w, Process.NULL_PID);
    assert Running(w.table, 0) <==> n == 1;
    DemoSwitch(w, n);
    DemoNext(w, DemoRound(w), n);
  }

  /** The stage after round n, from what DemoSwitch says the round does. */
  lemma DemoNext(w: World, r: World, n: nat)
    requires 1 <= n < 4 && DemoStage(w, n)
    requires Sound(r, Process.NULL_PID) && SamePids(w.table, r.table) && |r.table| == |w.table|
    requires r.s.queue == w.s.queue[1..] + (if Running(w.table, 0) then [0] else [])
    requires r.s.config == w.s.config && r.table[n].state == Process.Current
    requires r.table[0].state == (if Running(w.table, 0) then Process.Ready else w.table[0].state)
    requires forall j :: 0 <= j < |w.table| && j != 0 && j != n ==> r.table[j].state == w.table[j].state
    ensures DemoStage(r, n + 1)
  {
    assert DemoPids(r.table);
  }

  /** kmain's three add_to_ready_queue calls on a fresh Round Robin scheduler. */
  function DemoStart(t: seq<Process.Pcb>): World
    requires DemoTable(t)
  {
    var w0 := World(Init(RoundRobin, 100, 0), t);
    Enqueue(Enqueue(Enqueue(w0, 1), 2), 3)
  }

  /** The three processes go to the tail in creation order; being READY already, none changes. */
  lemma {:induction false} DemoStartQueues(t: seq<Process.Pcb>)
    requires DemoTable(t)
    ensures DemoStart(t).s.queue == [1, 2, 3] && DemoStart(t).table == t
    ensures DemoStage(DemoStart(t), 1)
  {
    var w0 := World(Init(RoundRobin, 100, 0), t);
    ReadyEnqueue(w0, 1);
    var w1 := Enqueue(w0, 1);
    ReadyEnqueue(w1, 2);
    var w2 := Enqueue(w1, 2);
    ReadyEnqueue(w2, 3);
    assert Process.Lookup(t, Process.NULL_PID) == 0;
  }

  /** Under Round Robin, enqueueing an unqueued READY slot appends it and leaves the table as it is. */
  lemma ReadyEnqueue(w: World, k: nat)
    requires k < |w.table| && forall j :: 0 <= j < |w.s.queue| ==> w.s.queue[j] < |w.table|
    requires w.table[k].state == Process.Ready && k !in w.s.queue && w.s.config.policy == RoundRobin
    ensures Enqueue(w, k) == World(WithQueue(w.s, w.s.queue + [k]), w.table)
  {
  }

  /**
   * kmain's demonstration under Round Robin: since context_switch never moves current_pid,
   * every round still sees the null process as current. After three rounds processes 1, 2
   * and 3 are all CURRENT at once, the null process alone is queued, and every later round
   * changes no PCB and no queue.
   */
  lemma {:induction false} KernelDemo(t: seq<Process.Pcb>)
    requires DemoTable(t)
    ensures var w3 := DemoRound(DemoRound(DemoRound(DemoStart(t))));
      && |w3.table| == |t|
      && w3.table[1].state == Process.Current && w3.table[2].state == Process.Current
      && w3.table[3].state == Process.Current && w3.table[0].state == Process.Ready
      && w3.s.queue == [0]
      && DemoRound(w3).table == w3.table && DemoRound(w3).s.queue == w3.s.queue
  {
    DemoStartQueues(t);
    var w := DemoStart(t);
    DemoAdvance(w, 1);
    DemoAdvance(DemoRound(w), 2);
    DemoAdvance(DemoRound(DemoRound(w)), 3);
    var w3 := DemoRound(DemoRound(DemoRound(w)));
    assert DemoStage(w3, 4);
    assert Process.Lookup(w3.table, Process.NULL_PID) == 0;
    DemoSettled(w3);
    DemoRoundLength(DemoRound(DemoRound(w)));
    DemoRoundLength(DemoRound(w));
    DemoRoundLength(w);
  }

  lemma DemoRoundLength(w: World)
    ensures |DemoRound(w).table| == |w.table|
  {
    if Sound(w, Process.NULL_PID) && HasNext(w, Process.NULL_PID) {
      TimerTickEffects(w, Process.NULL_PID);
      ScheduleKeepsSound(TimerTicked(w, Process.NULL_PID), Process.NULL_PID);
    }
  }

  // ---------------------------------------------------------------- setters

  function WithPolicy(s: Sched, policy: Policy): Sched
  {
    s.(config := s.config.(policy := policy))
  }

  function WithQuantum(s: Sched, quantum: nat): Sched
  {
    s.(config := s.config.(quantum := quantum))
  }

  /** enable_aging stores the int; aging is on exactly when it is non-zero. */
  function WithAging(s: Sched, enable: int): Sched
  {
    s.(config := s.config.(aging := enable != 0))
  }

  // ---------------------------------------------------------------- the scheduler's globals

  class Scheduler {
    const procs: Process.ProcessTable
    var queue: seq<nat>
    var config: Config
    var timerTicks: nat
    var currentTick: nat
    var contextSwitches: nat
    var idle: int

    ghost predicate Valid()
      reads this, procs, procs.table
    {
      procs.table.Length == Process.MAX_PROCESSES && QueueOk(queue, procs.table.Length)
      && -1 <= idle < procs.table.Length
    }

    ghost function State(): World
      reads this, procs, procs.table
    {
      World(Sched(queue, config, timerTicks, currentTick, contextSwitches, idle), procs.table[..])
    }

    /** scheduler_init over the process table; the idle process is the null process's slot. */
    constructor (procs: Process.ProcessTable, policy: Policy, quantum: nat)
      requires procs.table.Length == Process.MAX_PROCESSES && quantum < Memory.U32
      ensures Valid() && this.procs == procs
      ensures State() == World(Init(policy, quantum, Process.Lookup(procs.table[..], Process.NULL_PID)), procs.table[..])
    {
      var slot := procs.GetProcess(Process.NULL_PID);
      this.procs := procs;
      config := Config(policy, quantum, false, MAX_PRIORITY);
      queue := [];
      timerTicks := 0;
      currentTick := 0;
      contextSwitches := 0;
      idle := slot;
    }

    /** The insertion walk of Priority scheduling: past every PCB whose value is at least pr. */
    method FindInsertion(pr: int) returns (pos: nat)
      requires Valid()
      ensures pos == RunEnd(queue, procs.table[..], pr, 0)
    {
      pos := 0;
      while pos < |queue| && procs.table[queue[pos]].priority >= pr
        invariant pos <= |queue|
        invariant RunEnd(queue, procs.table[..], pr, pos) == RunEnd(queue, procs.table[..], pr, 0)
      {
        pos := pos + 1;
      }
    }

    /** add_to_ready_queue(&table[k]); k < 0 stands for NULL. */
    method AddToReadyQueue(k: int)
      requires Valid() && k < procs.table.Length
      requires 0 <= k && procs.table[k].state != Process.Terminated ==> k !in queue
      modifies this, procs.table
      ensures State() == Enqueue(old(State()), k)
      ensures Valid()
    {
      if k < 0 || procs.table[k].state == Process.Terminated {
        return;
      }
      ghost var w := State();
      EnqueueLinks(w, k);
      InsertedAt(queue, procs.table[..], k, config.policy);
      var pos: nat;
      if queue == [] || config.policy != Priority {
        pos := |queue|;
      } else {
        pos := FindInsertion(procs.table[k].priority);
      }
      queue := queue[..pos] + [k] + queue[pos..];
      procs.table[k] := procs.table[k].(state := Process.Ready);
      assert State() == Enqueue(w, k);
    }

    /** The walk of remove_from_ready_queue: the first queued PCB with pid, -1 if none. */
    method FindQueued(pid: int) returns (i: int)
      requires Valid()
      ensures i == PidIndex(queue, procs.table[..], pid)
    {
      i := 0;
      while i < |queue| && procs.table[queue[i]].pid != pid
        invariant 0 <= i <= |queue|
        invariant forall j :: 0 <= j < i ==> procs.table[queue[j]].pid != pid
      {
        i := i + 1;
      }
      if i == |queue| {
        i := -1;
      }
      PidIndexAt(queue, procs.table[..], pid, i);
    }

    /** remove_from_ready_queue(pid). */
    method RemoveFromReadyQueue(pid: int)
      requires Valid()
      modifies `queue
      ensures queue == Remove(old(queue), procs.table[..], pid)
      ensures Valid()
    {
      var i := FindQueued(pid);
      ghost var q0, t := queue, procs.table[..];
      if i >= 0 {
        queue := Seqs.RemoveAt(queue, i);
      }
      assert procs.table[..] == t;
      assert queue == Remove(q0, t, pid);
      RemoveKeepsOk(q0, t, pid);
    }

    /** The aging walk of pick_next_process over the queue, sparing sel. */
    method AgeWaiting(sel: int)
      requires Valid()
      modifies procs.table
      ensures procs.table[..] == Aged(old(procs.table[..]), queue, sel, config.maxPriority)
    {
      ghost var t0 := procs.table[..];
      var i := 0;
      while i < |queue|
        invariant i <= |queue|
        invariant procs.table[..] == Aged(t0, queue[..i], sel, config.maxPriority)
      {
        var j := queue[i];
        assert j !in queue[..i];
        assert queue[..i + 1] == queue[..i] + [j];
        if j != sel && Memory.Wrap(procs.table[j].priority) < config.maxPriority {
          procs.table[j] := Raised(procs.table[j]);
        }
        i := i + 1;
      }
      assert queue[..i] == queue;
    }

    /** pick_next_process: the selection, then aging when it is on. */
    method PickNextProcess() returns (sel: int)
      requires Valid()
      modifies procs.table
      ensures sel == Selected(queue, old(procs.table[..]), config.policy)
      ensures State() == Picking(old(State()))
      ensures Valid()
    {
      ghost var t0 := procs.table[..];
      if queue == [] {
        sel := -1;
      } else if config.policy != Priority {
        sel := queue[0];
      } else {
        var b := MinWalk(queue, procs.table);
        sel := queue[b];
      }
      if config.aging {
        AgeWaiting(sel);
        Relieve(sel);
      }
      assert procs.table[..] == Picked(old(State()).s, t0);
    }

    /** The selected PCB's priority value drops by one, down to 1. */
    method Relieve(sel: int)
      requires Valid()
      modifies procs.table
      ensures procs.table[..] == Relieved(old(procs.table[..]), sel)
    {
      if 0 <= sel < procs.table.Length && procs.table[sel].priority > 1 {
        procs.table[sel] := procs.table[sel].(priority := procs.table[sel].priority - 1);
      }
    }
  
    /**
     * context_switch(&table[next]). The source marks a CURRENT cur READY before queueing
     * it; add_to_ready_queue marks it READY again, so the first write is folded into it.
     */
    method ContextSwitch(next: nat)
      requires Valid() && next < procs.table.Length && RunningUnqueued(State(), procs.currentPid)
      modifies this, procs.table
      ensures State() == ContextSwitched(old(State()), procs.currentPid, next)
      ensures Valid()
    {
      var cur := procs.GetCurrentProcess();
      if cur == next {
        return;
      }
      SwitchTo(cur, next);
    }

    /** The first step of a switch: a CURRENT PCB in slot cur goes back to the ready queue. */
    method Preempt(cur: int)
      requires Valid() && cur < procs.table.Length
      requires Running(procs.table[..], cur) ==> cur !in queue
      modifies this, procs.table
      ensures State() == Preempted(old(State()), cur)
      ensures Valid()
    {
      if cur >= 0 && procs.table[cur].state == Process.Current {
        AddToReadyQueue(cur);
      }
    }

    /** The second step of a switch: slot next becomes CURRENT and leaves the ready queue. */
    method Resume(next: nat)
      requires Valid() && next < procs.table.Length
      modifies this, procs.table
      ensures State() == Resumption(old(State()), next)
      ensures Valid()
    {
      procs.table[next] := procs.table[next].(state := Process.Current);
      RemoveFromReadyQueue(procs.table[next].pid);
    }

    /** context_switch past its no-op test, from slot cur (-1 for NULL) to slot next. */
    method SwitchTo(cur: int, next: nat)
      requires Valid() && cur < procs.table.Length && next < procs.table.Length
      requires Running(procs.table[..], cur) ==> cur !in queue
      modifies this, procs.table
      ensures State() == SwitchFrom(old(State()), cur, next)
      ensures Valid()
    {
      SwitchFromSteps(State(), cur, next);
      Preempt(cur);
      Resume(next);
      Charge(cur);
    }

    /** The last step of a switch: slot cur is charged the ticks it ran; the counters move on. */
    method Charge(cur: int)
      requires Valid() && cur < procs.table.Length
      modifies this, procs.table
      ensures State() == Charging(old(State()), cur)
      ensures Valid()
    {
      if cur >= 0 {
        procs.table[cur] := procs.table[cur].(cpuTime := Memory.Wrap(procs.table[cur].cpuTime + currentTick));
      }
      currentTick := 0;
      contextSwitches := Memory.Wrap(contextSwitches + 1);
    }

    /** schedule: the pick, or the idle process, replaces the current PCB when it differs. */
    method Schedule()
      requires Valid() && RunningUnqueued(State(), procs.currentPid) && HasNext(State(), procs.currentPid)
      modifies this, procs.table
      ensures State() == Scheduled(old(State()), procs.currentPid)
      ensures Valid()
    {
      ghost var w := State();
      PickingSound(w, procs.currentPid);
      var cur := procs.GetCurrentProcess();
      var next := PickNextProcess();
      if next < 0 {
        next := idle;
      }
      assert next == NextSlot(w.s, w.table);
      if cur != next {
        ContextSwitch(next);
      }
    }

    /** The counting half of timer_tick. */
    method CountTick()
      requires Valid()
      modifies `timerTicks, `currentTick
      ensures State() == World(Counted(old(State()).s), procs.table[..])
      ensures Valid()
    {
      timerTicks := Memory.Wrap(timerTicks + 1);
      currentTick := Memory.Wrap(currentTick + 1);
    }

    /** timer_tick. */
    method TimerTick()
      requires Valid() && RunningUnqueued(State(), procs.currentPid) && HasNext(State(), procs.currentPid)
      modifies this, procs.table
      ensures State() == TimerTicked(old(State()), procs.currentPid)
      ensures Valid()
    {
      CountTick();
      var cur := procs.GetCurrentProcess();
      if cur >= 0 && procs.table[cur].pid != Process.NULL_PID {
        if config.policy == RoundRobin && currentTick >= config.quantum {
          Schedule();
        }
      }
    }

    /** set_scheduling_policy. */
    method SetSchedulingPolicy(policy: Policy)
      requires Valid()
      modifies `config
      ensures State() == World(WithPolicy(old(State()).s, policy), procs.table[..])
      ensures Valid()
    {
      config := config.(policy := policy);
    }

    /** set_time_quantum. */
    method SetTimeQuantum(quantum: nat)
      requires Valid() && quantum < Memory.U32
      modifies `config
      ensures State() == World(WithQuantum(old(State()).s, quantum), procs.table[..])
      ensures Valid()
    {
      config := config.(quantum := quantum);
    }

    /** enable_aging. */
    method EnableAging(enable: int)
      requires Valid()
      modifies `config
      ensures State() == World(WithAging(old(State()).s, enable), procs.table[..])
      ensures Valid()
    {
      config := config.(aging := enable != 0);
    }

    /** The counting walk of scheduler_stats: how many PCBs the ready queue links. */
    method QueueLength() returns (n: nat)
      ensures n == |queue|
    {
      n := 0;
      var rest := queue;
      while rest != []
        invariant n + |rest| == |queue|
      {
        n := n + 1;
        rest := rest[1..];
      }
    }
  }
}
