/** thread/thread.c and the tick accounting of device/timer.c.

    `Sched` is what these functions read and write: the thread structures' scheduling
    fields, `thread_ready_list`, the running thread and the idle thread.  Each function
    runs with interrupts off, so it is one atomic change of `Sched`; `switch_to` is the
    change of `cur`.  The lists are modelled as sequences, which IntrusiveList justifies. */
module Scheduler {
  import opened Basics

  type Tid = nat

  datatype Status = RUNNING | READY | BLOCKED | WAITING | HANGING | DIED

  datatype Tcb = Tcb(status: Status, priority: nat, ticks: nat, elapsed: nat)

  /** `now` is the global tick counter; it and `elapsed` are uint32_t and wrap. */
  datatype Sched = Sched(tcbs: seq<Tcb>, ready: seq<Tid>, cur: Tid, idle: Tid, now: nat, halt: Halt)

  const WORD: nat := 0x1_0000_0000

  predicate Asleep(st: Status) {
    st == BLOCKED || st == WAITING || st == HANGING
  }

  function SetStatus(d: Sched, t: Tid, st: Status): Sched
    requires t < |d.tcbs|
  {
    d.(tcbs := d.tcbs[t := d.tcbs[t].(status := st)])
  }

  /** thread_unblock: the woken thread goes to the front of the ready list. */
  function Unblock(d: Sched, t: Tid): Sched
    requires t < |d.tcbs|
  {
    if !Asleep(d.tcbs[t].status) then d.(halt := Stopped("thread/thread.c", 74))
    else if t in d.ready then d.(halt := Stopped("thread/thread.c", 77))
    else SetStatus(d, t, READY).(ready := [t] + d.ready)
  }

  /** The first half of schedule: a thread whose slice is used up goes to the tail. */
  function Requeue(d: Sched): Sched
    requires d.cur < |d.tcbs|
  {
    var c := d.tcbs[d.cur];
    if c.status != RUNNING then d
    else if d.cur in d.ready then d.(halt := Stopped("thread/thread.c", 97))
    else d.(ready := d.ready + [d.cur],
            tcbs := d.tcbs[d.cur := c.(ticks := c.priority, status := READY)])
  }

  /** The second half of schedule: wake idle if nobody is ready, then pop and switch. */
  function Dispatch(d: Sched): Sched
    requires d.idle < |d.tcbs|
  {
    var e := if d.ready == [] then Unblock(d, d.idle) else d;
    if e.halt != Live || e.ready == [] || e.ready[0] >= |e.tcbs| then e
    else SetStatus(e, e.ready[0], RUNNING).(ready := e.ready[1..], cur := e.ready[0])
  }

  function Schedule(d: Sched): Sched
    requires d.cur < |d.tcbs| && d.idle < |d.tcbs|
  {
    var e := Requeue(d);
    if e.halt != Live then e else Dispatch(e)
  }

  /** thread_block(TASK_BLOCKED) of the running thread. */
  function Block(d: Sched): Sched
    requires d.cur < |d.tcbs| && d.idle < |d.tcbs|
  {
    Schedule(SetStatus(d, d.cur, BLOCKED))
  }

  function Yield(d: Sched): Sched
    requires d.cur < |d.tcbs| && d.idle < |d.tcbs|
  {
    if d.cur in d.ready then d.(halt := Stopped("thread/thread.c", 41))
    else Schedule(SetStatus(d.(ready := d.ready + [d.cur]), d.cur, READY))
  }

  /** The ready-list part of thread_start for a fresh task structure. */
  function Start(d: Sched, priority: nat): Sched {
    d.(tcbs := d.tcbs + [Tcb(READY, priority % 256, priority % 256, 0)], ready := d.ready + [|d.tcbs|])
  }

  /** intr_timer_handler. */
  function Timer(d: Sched): Sched
    requires d.cur < |d.tcbs| && d.idle < |d.tcbs|
  {
    var c := d.tcbs[d.cur];
    var d1 := d.(tcbs := d.tcbs[d.cur := c.(elapsed := (c.elapsed + 1) % WORD)], now := (d.now + 1) % WORD);
    if c.ticks == 0 then Schedule(d1)
    else d1.(tcbs := d1.tcbs[d.cur := d1.tcbs[d.cur].(ticks := c.ticks - 1)])
  }

  // ---------------------------------------------------------------- invariant

  /** What holds of everything but the running thread's own status. */
  ghost predicate ReadyList(d: Sched) {
    && d.cur < |d.tcbs| && d.idle < |d.tcbs|
    && Distinct(d.ready)
    && (forall t: Tid :: t in d.ready <==> t < |d.tcbs| && d.tcbs[t].status == READY)
    && (forall t :: 0 <= t < |d.tcbs| && t != d.cur ==> d.tcbs[t].status != RUNNING)
    && (forall t :: 0 <= t < |d.tcbs| ==> d.tcbs[t].status != DIED)
  }

  /** Exactly one thread is RUNNING and the ready list holds exactly the READY ones. */
  ghost predicate SchedInv(d: Sched) {
    ReadyList(d) && d.tcbs[d.cur].status == RUNNING && d.halt == Live
  }

  /** Threads other than `a` and `b` keep their status. */
  ghost predicate StatusFrame(d: Sched, e: Sched, a: Tid, b: Tid) {
    && |d.tcbs| == |e.tcbs| && d.idle == e.idle
    && forall t :: 0 <= t < |d.tcbs| && t != a && t != b ==> d.tcbs[t].status == e.tcbs[t].status
  }

  /** thread_unblock of a sleeping thread: no assertion fires and the invariant is kept. */
  lemma UnblockKeeps(d: Sched, t: Tid)
    requires ReadyList(d) && t < |d.tcbs| && Asleep(d.tcbs[t].status)
    ensures ReadyList(Unblock(d, t)) && Unblock(d, t).halt == d.halt
    ensures t != d.cur && SchedInv(d) ==> SchedInv(Unblock(d, t))
  {
  }

  /** schedule never pops an empty list and always finds idle asleep when it wakes it;
      a thread that gave up the processor in any way leaves exactly one RUNNING. */
  lemma ScheduleKeeps(d: Sched)
    requires ReadyList(d) && d.halt == Live
    ensures SchedInv(Schedule(d))
    ensures Schedule(d).cur in d.ready || Schedule(d).cur == d.cur || Schedule(d).cur == d.idle
    ensures StatusFrame(d, Schedule(d), d.cur, Schedule(d).cur)
    ensures Schedule(d).cur != d.cur ==>
              Schedule(d).tcbs[d.cur].status == if d.tcbs[d.cur].status == RUNNING then READY else d.tcbs[d.cur].status
  {
    var e := Requeue(d);
    RequeueKeeps(d);
    if e.ready == [] { IdleSleeps(d); }
    DispatchKeeps(e);
    hide ReadyList, Dispatch;
  }

  lemma RequeueKeeps(d: Sched)
    requires ReadyList(d) && d.halt == Live
    ensures ReadyList(Requeue(d)) && Requeue(d).halt == Live && Requeue(d).tcbs[d.cur].status != RUNNING
  {
  }

  /** With nobody left in the queue, idle itself must be asleep. */
  lemma IdleSleeps(d: Sched)
    requires ReadyList(d) && d.halt == Live && Requeue(d).ready == []
    ensures Asleep(d.tcbs[d.idle].status) && Asleep(Requeue(d).tcbs[d.idle].status)
  {
  }

  lemma DispatchKeeps(e: Sched)
    requires ReadyList(e) && e.halt == Live && e.tcbs[e.cur].status != RUNNING
    requires e.ready == [] ==> Asleep(e.tcbs[e.idle].status)
    ensures SchedInv(Dispatch(e)) && StatusFrame(e, Dispatch(e), Dispatch(e).cur, Dispatch(e).cur)
    ensures Dispatch(e).cur in e.ready || (e.ready == [] && Dispatch(e).cur == e.idle)
  {
    if e.ready == [] { UnblockKeeps(e, e.idle); }
    var f := if e.ready == [] then Unblock(e, e.idle) else e;
    PopKeeps(f);
  }

  /** The head of the ready list starts to run. */
  lemma PopKeeps(f: Sched)
    requires ReadyList(f) && f.halt == Live && f.ready != [] && f.tcbs[f.cur].status != RUNNING
    ensures f.ready[0] < |f.tcbs| && SchedInv(SetStatus(f, f.ready[0], RUNNING).(ready := f.ready[1..], cur := f.ready[0]))
  {
    assert f.ready[0] in f.ready;
    var g := SetStatus(f, f.ready[0], RUNNING).(ready := f.ready[1..], cur := f.ready[0]);
    assert f.ready == [f.ready[0]] + g.ready;
    forall t: Tid ensures t in g.ready <==> t < |g.tcbs| && g.tcbs[t].status == READY {
      assert t in f.ready <==> t == f.ready[0] || t in g.ready;
    }
  }

  /** Nobody but idle falls asleep or wakes up. */
  ghost predicate SameSleepers(d: Sched, e: Sched) {
    && |d.tcbs| == |e.tcbs| && d.idle == e.idle
    && forall t: Tid :: t < |d.tcbs| && t != d.idle ==> (Asleep(d.tcbs[t].status) <==> Asleep(e.tcbs[t].status))
  }

  /** Only tick counters differ. */
  lemma TicksOnly(d: Sched, c: Tcb, now: nat)
    requires SchedInv(d) && c.status == RUNNING
    ensures SchedInv(d.(tcbs := d.tcbs[d.cur := c], now := now))
    ensures SameSleepers(d, d.(tcbs := d.tcbs[d.cur := c], now := now))
  {
  }

  lemma TimerKeeps(d: Sched)
    requires SchedInv(d)
    ensures SchedInv(Timer(d)) && SameSleepers(d, Timer(d))
  {
    hide Schedule;
    var c := d.tcbs[d.cur].(elapsed := (d.tcbs[d.cur].elapsed + 1) % WORD);
    var d1 := d.(tcbs := d.tcbs[d.cur := c], now := (d.now + 1) % WORD);
    TicksOnly(d, c, d1.now);
    if c.ticks == 0 {
      ScheduleKeeps(d1);
    } else {
      TicksOnly(d1, c.(ticks := c.ticks - 1), d1.now);
    }
  }

  lemma YieldKeeps(d: Sched)
    requires SchedInv(d)
    ensures SchedInv(Yield(d)) && SameSleepers(d, Yield(d))
  {
    var d1 := SetStatus(d.(ready := d.ready + [d.cur]), d.cur, READY);
    assert ReadyList(d1);
    ScheduleKeeps(d1);
  }

  /** thread_block: the running thread, and nobody else but idle, changes its sleep state. */
  lemma BlockKeeps(d: Sched)
    requires SchedInv(d)
    ensures SchedInv(Block(d))
    ensures |Block(d).tcbs| == |d.tcbs| && Block(d).idle == d.idle
    ensures d.cur != d.idle ==> Block(d).cur != d.cur && Block(d).tcbs[d.cur].status == BLOCKED
    ensures forall t: Tid :: t < |d.tcbs| && t != d.idle && t != d.cur ==>
              (Asleep(d.tcbs[t].status) <==> Asleep(Block(d).tcbs[t].status))
  {
    var d1 := SetStatus(d, d.cur, BLOCKED);
    assert ReadyList(d1);
    ScheduleKeeps(d1);
  }

  lemma StartKeeps(d: Sched, p: nat)
    requires SchedInv(d)
    ensures SchedInv(Start(d, p))
  {
    var e := Start(d, p);
    assert |d.tcbs| !in d.ready;
    forall t: Tid ensures t in e.ready <==> t < |e.tcbs| && e.tcbs[t].status == READY {
      assert t in e.ready <==> t in d.ready || t == |d.tcbs|;
    }
  }

  // -------------------------------------------------------------------- the order

  /** Who runs now, and who will run after that, in order. */
  function Line(d: Sched): seq<Tid> { [d.cur] + d.ready }

  /** Nothing but statuses differs. */
  ghost predicate SameSlices(d: Sched, e: Sched) {
    && |d.tcbs| == |e.tcbs| && d.now == e.now && d.idle == e.idle
    && forall t :: 0 <= t < |d.tcbs| ==> e.tcbs[t] == d.tcbs[t].(status := e.tcbs[t].status)
  }

  /** A woken thread is the next to run; the others stay in line as they were. */
  lemma WokenNext(d: Sched, t: Tid)
    requires SchedInv(d) && t < |d.tcbs| && Asleep(d.tcbs[t].status)
    ensures Line(Unblock(d, t)) == [d.cur, t] + d.ready && SameSlices(d, Unblock(d, t))
    ensures StatusFrame(d, Unblock(d, t), t, t) && Unblock(d, t).tcbs[t].status == READY
    ensures Block(Unblock(d, t)).cur == t && Block(Unblock(d, t)).ready == d.ready
    ensures Yield(Unblock(d, t)).cur == t && Yield(Unblock(d, t)).ready == d.ready + [d.cur]
  {
    assert Unblock(d, t).ready[0] == t && Unblock(d, t).ready[1..] == d.ready;
    UnblockKeeps(d, t);
  }

  /** A thread that blocks leaves the line; idle runs when nobody else is in it. */
  lemma BlockedLeaves(d: Sched)
    requires SchedInv(d)
    ensures Line(Block(d)) == if d.ready != [] then Line(d)[1..] else [d.idle]
    ensures SameSlices(d, Block(d))
  {
    if d.ready == [] {
      assert ([d.idle] + d.ready)[1..] == [];
    } else {
      assert d.ready[0] in d.ready;
    }
  }

  /** A thread that yields goes to the end of the line and keeps what is left of its slice. */
  lemma YieldRotates(d: Sched)
    requires SchedInv(d)
    ensures Line(Yield(d)) == Line(d)[1..] + [d.cur] && SameSlices(d, Yield(d))
  {
    assert d.cur !in d.ready;
    if d.ready != [] { assert d.ready[0] in d.ready; }
  }

  /** The interrupt that finds the slice used up sends the thread to the end of the line with a new
      slice; any other interrupt takes one tick off the slice and moves nobody. */
  lemma TickRotates(d: Sched)
    requires SchedInv(d)
    ensures var c, e := d.tcbs[d.cur], Timer(d);
            && Line(e) == (if c.ticks == 0 then Line(d)[1..] + [d.cur] else Line(d))
            && |e.tcbs| == |d.tcbs| && e.idle == d.idle && e.now == (d.now + 1) % WORD
            && e.tcbs[d.cur].ticks == (if c.ticks == 0 then c.priority else c.ticks - 1)
            && e.tcbs[d.cur].priority == c.priority && e.tcbs[d.cur].elapsed == (c.elapsed + 1) % WORD
            && forall t: Tid :: t < |d.tcbs| && t != d.cur ==> e.tcbs[t] == d.tcbs[t].(status := e.tcbs[t].status)
  {
    assert d.cur !in d.ready;
    if d.ready != [] { assert d.ready[0] in d.ready; }
  }

  /** A started thread is last in line, with a whole slice. */
  lemma StartedLast(d: Sched, p: nat)
    requires SchedInv(d)
    ensures var e := Start(d, p);
            && Line(e) == Line(d) + [|d.tcbs|] && |e.tcbs| == |d.tcbs| + 1 && e.tcbs[..|d.tcbs|] == d.tcbs
            && e.tcbs[|d.tcbs|].ticks == e.tcbs[|d.tcbs|].priority == p % 256 && e.tcbs[|d.tcbs|].elapsed == 0
  {
  }
}
