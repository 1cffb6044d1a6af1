/** thread/thread.c and intr_timer_handler as they are written: globals updated statement by
    statement.  Each method is proved to compute the transition that Scheduler and Sync reason
    about, and, where the source relies on it, to keep the scheduler invariant. */
module ThreadOps {
  import opened Basics
  import opened Scheduler

  /** Counting a tick leaves the lists exact. */
  lemma Ticked(d: Sched)
    requires SchedInv(d)
    ensures d.cur < |d.tcbs| && d.idle < |d.tcbs|
    ensures var c := d.tcbs[d.cur];
            ReadyList(d.(tcbs := d.tcbs[d.cur := c.(elapsed := (c.elapsed + 1) % WORD)], now := (d.now + 1) % WORD))
  {
  }

  lemma BlockReady(d: Sched)
    requires SchedInv(d)
    ensures d.cur < |d.tcbs| && d.idle < |d.tcbs| && ReadyList(SetStatus(d, d.cur, BLOCKED))
  {
  }

  /** What schedule finds on its way. */
  lemma ScheduleReady(d: Sched)
    requires ReadyList(d) && d.halt == Live
    ensures d.cur < |d.tcbs| && d.idle < |d.tcbs| && (d.tcbs[d.cur].status == RUNNING ==> d.cur !in d.ready)
    ensures var e := Requeue(d);
            && |e.tcbs| == |d.tcbs| && (e.ready == [] ==> Asleep(e.tcbs[d.idle].status)) && (e.ready != [] ==> e.ready[0] < |d.tcbs|)
  {
    RequeueKeeps(d);
    var e := Requeue(d);
    if e.ready == [] { IdleSleeps(d); } else { assert e.ready[0] in e.ready; }
  }

  class Threads {
    var tcbs: seq<Tcb>
    var ready: seq<Tid>   // thread_ready_list
    var cur: Tid          // running_thread()
    var idle: Tid         // idle_thread
    var now: nat          // ticks
    var halt: Halt

    ghost function View(): Sched
      reads this
    {
      Sched(tcbs, ready, cur, idle, now, halt)
    }

    /** thread_init: the main thread runs, idle has been started. */
    constructor ()
      ensures SchedInv(View()) && cur == 0 && idle == 1 && ready == [1] && now == 0
      ensures tcbs == [Tcb(RUNNING, 31, 31, 0), Tcb(READY, 10, 10, 0)]
    {
      tcbs := [Tcb(RUNNING, 31, 31, 0), Tcb(READY, 10, 10, 0)];
      ready, cur, idle, now, halt := [1], 0, 1, 0, Live;
    }

    method SetTask(t: Tid, status: Status)
      requires t < |tcbs|
      modifies this`tcbs
      ensures View() == SetStatus(old(View()), t, status)
    {
      tcbs := tcbs[t := tcbs[t].(status := status)];
    }

    method ThreadUnblock(t: Tid)
      requires t < |tcbs|
      modifies this
      ensures View() == Unblock(old(View()), t)
      ensures old(ReadyList(View())) && Asleep(old(tcbs[t].status)) ==> ReadyList(View()) && halt == old(halt)
      ensures old(SchedInv(View())) && Asleep(old(tcbs[t].status)) ==> Line(View()) == [cur, t] + old(ready)
    {
      if old(ReadyList(View())) && Asleep(tcbs[t].status) { UnblockKeeps(View(), t); }
      if old(SchedInv(View())) && Asleep(tcbs[t].status) { WokenNext(View(), t); }
      if !Asleep(tcbs[t].status) {
        halt := Stopped("thread/thread.c", 74);
        return;
      }
      if t in ready {
        halt := Stopped("thread/thread.c", 77);
        return;
      }
      ready := [t] + ready;
      SetTask(t, READY);
    }

    method ScheduleNext()
      requires halt == Live && ReadyList(View())
      modifies this
      ensures View() == Schedule(old(View()))
      ensures SchedInv(View())
    {
      hide Line, ReadyList;
      ScheduleKeeps(View());
      ScheduleReady(View());
      var me := cur;
      if tcbs[me].status == RUNNING {
        assert me !in ready;  // ASSERT, line 97
        ready := ready + [me];
        tcbs := tcbs[me := tcbs[me].(ticks := tcbs[me].priority)];
        SetTask(me, READY);
      }
      if ready == [] {
        ThreadUnblock(idle);
      }
      var next := ready[0];
      ready := ready[1..];
      SetTask(next, RUNNING);
      cur := next;
    }

    method ThreadBlock()
      requires SchedInv(View())
      modifies this
      ensures View() == Block(old(View())) && SchedInv(View())
      ensures Line(View()) == if old(ready) != [] then old(ready) else [idle]
    {
      hide ReadyList, Schedule;
      BlockReady(View());
      BlockKeeps(View());
      BlockedLeaves(View());
      SetTask(cur, BLOCKED);
      ScheduleNext();
    }

    method ThreadYield()
      requires SchedInv(View())
      modifies this
      ensures View() == Yield(old(View())) && SchedInv(View())
      ensures Line(View()) == old(ready) + [old(cur)]
    {
      YieldKeeps(View());
      YieldRotates(View());
      assert cur !in ready;  // ASSERT, line 41
      ready := ready + [cur];
      SetTask(cur, READY);
      ScheduleNext();
    }

    method TimerHandler()
      requires SchedInv(View())
      modifies this
      ensures View() == Timer(old(View())) && SchedInv(View())
    {
      hide ReadyList, Schedule;
      TimerKeeps(View());
      Ticked(View());
      var me := cur;
      now := (now + 1) % WORD;
      tcbs := tcbs[me := tcbs[me].(elapsed := (tcbs[me].elapsed + 1) % WORD)];
      if tcbs[me].ticks == 0 {
        ScheduleNext();
      } else {
        tcbs := tcbs[me := tcbs[me].(ticks := tcbs[me].ticks - 1)];
      }
    }
  }
}
