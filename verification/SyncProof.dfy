/** Every step of the synchronisation machine keeps its invariant, and what follows from
    that for every run: mutual exclusion, exact lock books, no lost wakeup, the scheduler's
    list discipline, the disk channel protocol, and that no ASSERT ever fires. */
module SyncProof {
  import opened Basics
  import opened Scheduler
  import opened Sync
  import opened Ioqueue

  /** The queue is untouched, and so is who sleeps in ioq_wait. */
  lemma QueueKept(s: State, n: State)
    requires Shape(s) && Shape(n) && QueueOk(s) && n.kbd == s.kbd && |n.ctx| >= |s.ctx|
    requires forall t: Tid :: t < |s.ctx| ==> (KeySleeps(n, t) <==> KeySleeps(s, t))
    requires forall t: Tid :: |s.ctx| <= t < |n.ctx| ==> !KeySleeps(n, t)
    ensures QueueOk(n)
  {
    hide BufferOk;
  }

  /** A pure rescheduling: nobody but idle falls asleep or wakes up. */
  lemma Rescheduled(s: State, d: Sched)
    requires Inv(s) && SchedInv(d) && SameSleepers(s.d, d)
    ensures Inv(s.(d := d))
  {
    hide SchedInv, LocksOk, ChansOk, BufferOk;
    assert Shape(s.(d := d)) by { RescheduledShape(s, d); }
    assert LocksOk(s.(d := d)) && ChansOk(s.(d := d)) by { RescheduledBooks(s, d); }
  }

  lemma RescheduledShape(s: State, d: Sched)
    requires Shape(s) && SchedInv(d) && SameSleepers(s.d, d)
    ensures Shape(s.(d := d))
  {
  }

  lemma RescheduledBooks(s: State, d: Sched)
    requires Shape(s) && Shape(s.(d := d)) && LocksOk(s) && ChansOk(s)
    ensures LocksOk(s.(d := d)) && ChansOk(s.(d := d))
  {
  }

  /** The running thread's context may become `c`, as far as its own books are concerned. */
  ghost predicate CtxMove(was: Ctx, c: Ctx, locks: nat, chans: nat) {
    && PcShape(c.pc, locks, locks + chans) && PcOk(c, locks) && DrvOk(c, locks)
    && (c.drv.Ide? ==> c.drv.c < chans)
    && (IsIdle(c.pc) <==> IsIdle(was.pc))
    && (IsIdle(was.pc) ==> c.drv.User?)
    && !was.pc.Down? && (c.pc.Down? ==> !c.pc.woken)
    && (forall k: nat :: k < locks ==> (Owns(c, k) <==> Owns(was, k)))
  }

  /** The running thread moves to `c` and rewrites lock `l`, touching no semaphore. */
  ghost predicate LocalMove(s: State, c: Ctx, l: nat, lk: Lock)
    requires Shape(s)
  {
    var me, was := s.d.cur, Me(s);
    && l < |s.locks| && lk.owner == s.locks[l].owner
    && CtxMove(was, c, |s.locks|, |s.chans|)
    && (forall k: nat :: k < |s.locks| && k != l && Owns(was, k) ==>
          HolderOf(c, me, k) == HolderOf(was, me, k) && RepeatOf(c, k) == RepeatOf(was, k))
    && (if Owns(was, l) then lk.holder == HolderOf(c, me, l) && lk.repeat == RepeatOf(c, l)
        else lk == s.locks[l])
  }

  /** The set of channels with a command of this thread outstanding stays the same. */
  ghost predicate SameCommands(was: Ctx, c: Ctx, chans: nat) {
    forall i: nat :: i < chans ==> (Awaits(c, i) <==> Awaits(was, i))
  }

  lemma LocalLocks(s: State, c: Ctx, l: nat, lk: Lock)
    requires Inv(s) && LocalMove(s, c, l, lk)
    requires Shape(SetLock(SetMe(s, c), l, lk))
    ensures LocksOk(SetLock(SetMe(s, c), l, lk))
  {
    hide ChansOk, WaitOk, WakeOk, SchedInv, PcOk, DrvOk;
    var n := SetLock(SetMe(s, c), l, lk);
    forall k | 0 <= k < |n.locks| ensures LockOk(n.ctx, n.locks[k], n.semas[k].value, k) {
      assert LockOk(s.ctx, s.locks[k], s.semas[k].value, k);
      assert Owns(Me(s), k) <==> s.locks[k].owner == Some(s.d.cur);
    }
  }

  lemma LocalChans(s: State, c: Ctx, l: nat, lk: Lock)
    requires Inv(s) && LocalMove(s, c, l, lk) && SameCommands(Me(s), c, |s.chans|)
    requires Shape(SetLock(SetMe(s, c), l, lk))
    ensures ChansOk(SetLock(SetMe(s, c), l, lk))
  {
    hide LocksOk, WaitOk, WakeOk, SchedInv, QueueOk, CtxOk, CtxMove, Owns, HolderOf, RepeatOf;
  }

  lemma LocalWaits(s: State, c: Ctx, l: nat, lk: Lock)
    requires Inv(s) && LocalMove(s, c, l, lk)
    requires Shape(SetLock(SetMe(s, c), l, lk))
    ensures WaitOk(SetLock(SetMe(s, c), l, lk)) && WakeOk(SetLock(SetMe(s, c), l, lk))
  {
    hide LocksOk, ChansOk, DrvOk, Owns, QueueOk;
    var n := SetLock(SetMe(s, c), l, lk);
    forall i, t: Tid | 0 <= i < |n.semas|
      ensures t in n.semas[i].waiters <==> t < |n.ctx| && Sleeps(n, t, i)
    {
      assert t in s.semas[i].waiters <==> t < |s.ctx| && Sleeps(s, t, i);
    }
    forall i | 0 <= i < |n.semas| && n.semas[i].value > 0 && n.semas[i].waiters != [] ensures Retester(n, i) {
      assert Retester(s, i);
      var t :| 0 <= t < |s.ctx| && s.ctx[t].pc == Down(i, true);
      assert n.ctx[t].pc == Down(i, true);
    }
  }

  lemma LocalKeeps(s: State, c: Ctx, l: nat, lk: Lock)
    requires Inv(s) && LocalMove(s, c, l, lk) && SameCommands(Me(s), c, |s.chans|)
    ensures Inv(SetLock(SetMe(s, c), l, lk))
  {
    assert Shape(SetLock(SetMe(s, c), l, lk));
    LocalLocks(s, c, l, lk);
    LocalChans(s, c, l, lk);
    LocalWaits(s, c, l, lk);
    AwakeQueue(s, SetLock(SetMe(s, c), l, lk));
  }

  /** Entering or leaving the library, or moving outside it, leaves every lock as it is. */
  ghost predicate Outside(pc: Pc) {
    pc.Free? || pc.AcqTest? || pc.RelCheck? || (pc.Down? && !pc.woken) || pc.IdleBlock? || pc.IdleHalt?
  }

  /** A step that leaves the locks alone. */
  lemma MoveKeeps(s: State, c: Ctx)
    requires Inv(s) && CtxMove(Me(s), c, |s.locks|, |s.chans|) && c.held == Me(s).held
    requires Outside(Me(s).pc) && Outside(c.pc)
    ensures LocalMove(s, c, 0, s.locks[0]) && s.locks[0 := s.locks[0]] == s.locks
    ensures SameCommands(Me(s), c, |s.chans|) ==> Inv(SetMe(s, c))
  {
    hide LocksOk, ChansOk, WaitOk, WakeOk, SchedInv;
    LocalFacts(s, 0);
    if SameCommands(Me(s), c, |s.chans|) {
      LocalKeeps(s, c, 0, s.locks[0]);
    }
  }

  /** What the running thread may rely on about itself and lock l. */
  ghost predicate Local(c: Ctx, me: Tid, lk: Lock, l: nat, locks: nat) {
    && PcOk(c, locks) && DrvOk(c, locks)
    && (Owns(c, l) ==> lk.holder == HolderOf(c, me, l) && lk.repeat == RepeatOf(c, l))
    && (!Owns(c, l) ==> lk.holder != Some(me))
  }

  lemma LocalFacts(s: State, l: nat)
    requires Inv(s) && l < |s.locks|
    ensures Local(Me(s), s.d.cur, s.locks[l], l, |s.locks|)
  {
  }

  /** No statement of the library trips an ASSERT, and each leaves the thread at a proper place. */
  lemma StatementPlace(c: Ctx, me: Tid, lk: Lock, locks: nat)
    requires LockStatement(c.pc) && c.pc.l < locks && Local(c, me, lk, c.pc.l, locks)
    ensures Tripped(c, me, lk) == 0
    ensures var (c1, lk1) := Statement(c, me, lk); PcOk(c1, locks) && DrvOk(c1, locks) && c1.drv == c.drv && lk1.owner == lk.owner
  {
    hide DrvOk, PcOk, Tripped;
    StatementPc(c, me, lk, locks);
    StatementDrv(c, me, lk, locks);
  }

  lemma StatementPc(c: Ctx, me: Tid, lk: Lock, locks: nat)
    requires LockStatement(c.pc) && c.pc.l < locks && Local(c, me, lk, c.pc.l, locks)
    ensures Tripped(c, me, lk) == 0 && PcOk(Statement(c, me, lk).0, locks)
  {
    hide DrvOk;
  }

  lemma StatementDrv(c: Ctx, me: Tid, lk: Lock, locks: nat)
    requires LockStatement(c.pc) && c.pc.l < locks && PcOk(c, locks) && DrvOk(c, locks)
    requires !Owns(c, c.pc.l) ==> lk.holder != Some(me)
    ensures DrvOk(Statement(c, me, lk).0, locks)
  {
  }

  /** Each statement keeps the thread's books. */
  lemma StatementBooks(c: Ctx, me: Tid, lk: Lock, locks: nat)
    requires LockStatement(c.pc) && c.pc.l < locks && Local(c, me, lk, c.pc.l, locks)
    ensures var (c1, lk1), l := Statement(c, me, lk), c.pc.l;
            && (forall k: nat :: Owns(c1, k) <==> Owns(c, k))
            && (forall k: nat :: k != l ==> HolderOf(c1, me, k) == HolderOf(c, me, k) && RepeatOf(c1, k) == RepeatOf(c, k))
            && (if Owns(c, l) then lk1.holder == HolderOf(c1, me, l) && lk1.repeat == RepeatOf(c1, l) else lk1 == lk)
  {
  }

  lemma LockStatementKeeps(s: State)
    requires Inv(s) && LockStatement(Me(s).pc)
    ensures Inv(LibStep(s))
  {
    hide Inv, PcOk, DrvOk, Owns, HolderOf, RepeatOf, Tripped, Statement;
    assert Shape(s) by { ShapeOf(s); }
    var c, me := Me(s), s.d.cur;
    var lk := s.locks[c.pc.l];
    LocalFacts(s, c.pc.l);
    StatementPlace(c, me, lk, |s.locks|);
    StatementBooks(c, me, lk, |s.locks|);
    StatementShape(c, me, lk, |s.locks|, |s.semas|);
    LocalKeeps(s, Statement(c, me, lk).0, c.pc.l, Statement(c, me, lk).1);
  }

  lemma ShapeOf(s: State)
    requires Inv(s)
    ensures Shape(s)
  {
  }

  lemma StatementShape(c: Ctx, me: Tid, lk: Lock, locks: nat, semas: nat)
    requires LockStatement(c.pc) && c.pc.l < locks <= semas
    ensures var c1 := Statement(c, me, lk).0;
            PcShape(c1.pc, locks, semas) && !IsIdle(c1.pc) && !IsIdle(c.pc) && (c1.pc.Down? ==> !c1.pc.woken)
  {
  }

  /** Mutual exclusion, the form the other steps use. */
  lemma OneOwner(s: State, l: nat, t: Tid, u: Tid)
    requires Inv(s) && l < |s.locks| && t < |s.ctx| && u < |s.ctx|
    requires Owns(s.ctx[t], l) && Owns(s.ctx[u], l)
    ensures t == u
  {
    assert LockOk(s.ctx, s.locks[l], s.semas[l].value, l);
  }

  lemma DriverNextOk(c: Ctx, locks: nat, chans: nat)
    requires c.pc.Free? && c.drv.Ide? && c.drv.c < chans < locks && PcOk(c, locks) && DrvOk(c, locks)
    ensures CtxMove(c, DriverNext(c, locks), locks, chans) && DriverNext(c, locks).held == c.held
    ensures Outside(DriverNext(c, locks).pc)
    ensures c.drv.at != Issue ==> SameCommands(c, DriverNext(c, locks), chans)
  {
  }

  lemma CommandChans(s: State, c: Ctx)
    requires Inv(s) && Me(s).drv.Ide? && Me(s).drv.at == Issue && c == Me(s).(drv := Me(s).drv.(at := Sent))
    requires Shape(DriverStep(s))
    requires s.chans[c.drv.c].cmd == None
    ensures ChansOk(DriverStep(s))
  {
    hide LocksOk, WaitOk, WakeOk, SchedInv, PcOk, DrvOk, CtxOk;
    var n := DriverStep(s);
    forall i | 0 <= i < |n.chans| ensures ChanOk(n.ctx, n.chans[i], n.semas[|n.locks| + i].value, i) {
      assert ChanOk(s.ctx, s.chans[i], s.semas[|s.locks| + i].value, i);
    }
  }

  /** Holding the channel lock in the driver, nobody else's command can be outstanding. */
  lemma NobodyElse(s: State)
    requires Inv(s) && Me(s).drv.Ide? && Me(s).drv.at == Issue
    ensures s.chans[Me(s).drv.c].cmd == None
  {
    var i := Me(s).drv.c;
    assert ChanOk(s.ctx, s.chans[i], s.semas[|s.locks| + i].value, i);
    if s.chans[i].cmd.Some? {
      var t := s.chans[i].cmd.value;
      assert DrvOk(s.ctx[t], |s.locks|) && DrvOk(Me(s), |s.locks|);
      OneOwner(s, i, t, s.d.cur);
    }
  }

  lemma CommandKeeps(s: State)
    requires Inv(s) && Me(s).pc.Free? && Me(s).drv.Ide? && Me(s).drv.at == Issue
    requires LocalMove(s, DriverNext(Me(s), |s.locks|), 0, s.locks[0]) && s.locks[0 := s.locks[0]] == s.locks
    ensures Inv(DriverStep(s))
  {
    var c := DriverNext(Me(s), |s.locks|);
    NobodyElse(s);
    CommandShape(s, c);
    LocalLocks(s, c, 0, s.locks[0]);
    LocalWaits(s, c, 0, s.locks[0]);
    CommandChans(s, c);
    AwakeQueue(s, DriverStep(s));
    hide LocksOk, ChansOk, WaitOk, WakeOk, QueueOk, SchedInv, CtxOk, LocalMove;
  }

  lemma CommandShape(s: State, c: Ctx)
    requires Shape(s) && CtxOk(s) && Me(s).drv.Ide? && c == DriverNext(Me(s), |s.locks|) && CtxMove(Me(s), c, |s.locks|, |s.chans|)
    ensures Shape(DriverStep(s)) && CtxOk(DriverStep(s))
  {
  }

  lemma DriverKeeps(s: State)
    requires Inv(s) && Me(s).pc.Free? && Me(s).drv.Ide?
    ensures Inv(DriverStep(s))
  {
    LocalFacts(s, 0);
    DriverNextOk(Me(s), |s.locks|, |s.chans|);
    MoveKeeps(s, DriverNext(Me(s), |s.locks|));
    if Me(s).drv.at == Issue {
      CommandKeeps(s);
    }
  }

  lemma RequestKeeps(s: State, u: Choice)
    requires Inv(s) && MayChoose(s, u) && (u.Acquire? || u.Release? || u.Transfer? || u.Getchar?)
    ensures Inv(RunStep(s, u))
  {
    LocalFacts(s, 0);
    hide Inv;
    assert Shape(s);
    RequestMove(s, u);
    hide MayChoose, PcOk, DrvOk, CtxMove, SameCommands, Local;
    MoveKeeps(s, Me(RunStep(s, u)));
  }

  lemma RequestMove(s: State, u: Choice)
    requires Shape(s) && MayChoose(s, u) && (u.Acquire? || u.Release? || u.Transfer? || u.Getchar?)
    requires PcOk(Me(s), |s.locks|) && DrvOk(Me(s), |s.locks|)
    ensures var c := Me(RunStep(s, u));
            && CtxMove(Me(s), c, |s.locks|, |s.chans|) && c.held == Me(s).held && Outside(Me(s).pc) && Outside(c.pc)
            && SameCommands(Me(s), c, |s.chans|)
  {
  }

  /** Positions at which a thread's view of a lock differs from "holds it" or "does not". */
  predicate MidLock(pc: Pc) {
    pc.AcqHolder? || pc.AcqCheck? || pc.AcqRepeat? || pc.RelRepeat? || pc.RelUp?
  }

  predicate SameLockLook(c: Ctx, c1: Ctx) {
    c.held == c1.held && (c.pc == c1.pc || (!MidLock(c.pc) && !MidLock(c1.pc)))
  }

  lemma LocksKept(s: State, n: State)
    requires Shape(s) && Shape(n) && LocksOk(s) && n.locks == s.locks && |n.ctx| == |s.ctx|
    requires forall l :: 0 <= l < |s.locks| ==> s.semas[l].value == n.semas[l].value
    requires forall t :: 0 <= t < |s.ctx| ==> SameLockLook(s.ctx[t], n.ctx[t])
    ensures LocksOk(n)
  {
  }

  lemma ChansKept(s: State, n: State)
    requires Shape(s) && Shape(n) && ChansOk(s) && n.chans == s.chans && |n.ctx| == |s.ctx| && |n.locks| == |s.locks|
    requires forall i :: |s.locks| <= i < |s.semas| ==> s.semas[i].value == n.semas[i].value
    requires forall t :: 0 <= t < |s.ctx| ==> s.ctx[t].drv == n.ctx[t].drv
    ensures ChansOk(n)
  {
  }

  /** The state after falling asleep on semaphore i, given how the scheduler moved. */
  function Asleep1(s: State, i: nat, d: Sched): State
    requires Shape(s) && i < |s.semas|
  {
    Goto(s, Down(i, false)).(semas := s.semas[i := Sema(0, s.semas[i].waiters + [s.d.cur])], d := d)
  }

  ghost predicate OnlyMeSlept(s: State, d: Sched)
    requires Shape(s)
  {
    && |d.tcbs| == |s.ctx| && d.idle == s.d.idle && s.d.cur != s.d.idle
    && Asleep(d.tcbs[s.d.cur].status) && !Asleep(s.d.tcbs[s.d.cur].status)
    && forall t: Tid :: t < |s.ctx| && t != d.idle && t != s.d.cur ==>
         (Asleep(s.d.tcbs[t].status) <==> Asleep(d.tcbs[t].status))
  }

  lemma SleepWaits(s: State, i: nat, d: Sched)
    requires Shape(s) && WaitOk(s) && CtxOk(s) && OnlyMeSlept(s, d)
    requires Me(s).pc.Down? && Me(s).pc.s == i
    requires Shape(Asleep1(s, i, d))
    ensures WaitOk(Asleep1(s, i, d))
  {
    var n := Asleep1(s, i, d);
    assert s.d.cur !in s.semas[i].waiters;
    forall k, t: Tid | 0 <= k < |n.semas|
      ensures t in n.semas[k].waiters <==> t < |n.ctx| && Sleeps(n, t, k)
    {
      assert t in s.semas[k].waiters <==> t < |s.ctx| && Sleeps(s, t, k);
    }
  }

  /** Every semaphore but i keeps its value, and `n` has the re-testers of `s`. */
  lemma WakesKept(s: State, n: State, i: nat)
    requires Shape(s) && Shape(n) && WakeOk(s) && |n.semas| == |s.semas| && |s.ctx| <= |n.ctx|
    requires forall k :: 0 <= k < |s.semas| && k != i ==> s.semas[k] == n.semas[k]
    requires i < |s.semas| ==> n.semas[i].value == 0
    requires forall t, k: nat :: 0 <= t < |s.ctx| && k != i && s.ctx[t].pc == Down(k, true) ==> n.ctx[t].pc == Down(k, true)
    ensures WakeOk(n)
  {
  }

  lemma SleepShape(s: State, i: nat, d: Sched)
    requires Shape(s) && CtxOk(s) && OnlyMeSlept(s, d) && SchedInv(d)
    requires Me(s).pc.Down? && Me(s).pc.s == i
    ensures Shape(Asleep1(s, i, d)) && CtxOk(Asleep1(s, i, d))
  {
  }

  lemma SleepBooks(s: State, i: nat, d: Sched)
    requires Shape(s) && LocksOk(s) && ChansOk(s) && WakeOk(s)
    requires Me(s).pc.Down? && Me(s).pc.s == i && s.semas[i].value == 0
    requires Shape(Asleep1(s, i, d))
    ensures LocksOk(Asleep1(s, i, d)) && ChansOk(Asleep1(s, i, d)) && WakeOk(Asleep1(s, i, d))
  {
    var n := Asleep1(s, i, d);
    LocksKept(s, n);
    ChansKept(s, n);
    WakesKept(s, n, i);
  }

  /** sema_down finding the semaphore taken: the thread is on no list yet, joins this one and sleeps. */
  lemma SleepKeeps(s: State, i: nat)
    requires Inv(s) && Me(s).pc.Down? && Me(s).pc.s == i && s.semas[i].value == 0
    ensures Inv(DownStep(s, i))
  {
    assert s.d.cur !in s.semas[i].waiters;
    BlockKeeps(s.d);
    SleepShape(s, i, Block(s.d));
    SleepBooks(s, i, Block(s.d));
    SleepWaits(s, i, Block(s.d));
    SleepQueue(s, i, Block(s.d));
  }

  lemma SleepQueue(s: State, i: nat, d: Sched)
    requires Inv(s) && OnlyMeSlept(s, d) && Me(s).pc.Down? && Me(s).pc.s == i && Shape(Asleep1(s, i, d))
    ensures QueueOk(Asleep1(s, i, d))
  {
    hide LocksOk, ChansOk, WaitOk, WakeOk, SchedInv, PcOk;
    assert DrvOk(Me(s), |s.locks|) && DrvOk(s.ctx[s.d.idle], |s.locks|);
    QueueKept(s, Asleep1(s, i, d));
  }

  /** The running thread leaves sema_down on i with the semaphore: nobody's sleep changes. */
  lemma TakeWaits(s: State, n: State, i: nat)
    requires Inv(s) && Shape(n) && i < |s.semas| && Me(s).pc.Down? && Me(s).pc.s == i
    requires n.d == s.d && |n.ctx| == |s.ctx| && !n.ctx[s.d.cur].pc.Down?
    requires forall t: Tid :: t < |s.ctx| && t != s.d.cur ==> n.ctx[t] == s.ctx[t]
    requires n.semas == s.semas[i := s.semas[i].(value := 0)]
    ensures WaitOk(n) && WakeOk(n)
  {
    hide LocksOk, ChansOk, QueueOk, CtxOk, PcShape;
    forall k, t: Tid | 0 <= k < |n.semas| ensures t in n.semas[k].waiters <==> t < |n.ctx| && Sleeps(n, t, k) {
      assert t in s.semas[k].waiters <==> t < |s.ctx| && Sleeps(s, t, k);
    }
    WakesKept(s, n, i);
  }

  lemma TakeLockLocks(s: State, l: nat)
    requires Inv(s) && Me(s).pc.Down? && Me(s).pc.s == l < |s.locks| && s.semas[l].value == 1
    requires Shape(DownStep(s, l))
    ensures LocksOk(DownStep(s, l))
  {
    hide ChansOk, WaitOk, WakeOk, SchedInv, DrvOk;
    var n := DownStep(s, l);
    forall k | 0 <= k < |n.locks| ensures LockOk(n.ctx, n.locks[k], n.semas[k].value, k) {
      assert LockOk(s.ctx, s.locks[k], s.semas[k].value, k);
      assert PcOk(Me(s), |s.locks|);
    }
  }

  lemma TakeLockKeeps(s: State, l: nat)
    requires Inv(s) && Me(s).pc.Down? && Me(s).pc.s == l < |s.locks| && s.semas[l].value > 0
    ensures Inv(DownStep(s, l))
  {
    assert LockOk(s.ctx, s.locks[l], s.semas[l].value, l);
    var n := DownStep(s, l);
    TakeLockShape(s, l);
    hide LocksOk, ChansOk, WaitOk, WakeOk, CtxOk, SchedInv;
    TakeLockLocks(s, l);
    ChansKept(s, n);
    TakeWaits(s, n, l);
    AwakeQueue(s, n);
  }

  lemma TakeLockShape(s: State, l: nat)
    requires Shape(s) && CtxOk(s) && Me(s).pc.Down? && Me(s).pc.s == l < |s.locks| && s.semas[l].value == 1
    ensures Shape(DownStep(s, l)) && CtxOk(DownStep(s, l))
  {
    assert PcOk(Me(s), |s.locks|) && DrvOk(Me(s), |s.locks|);
  }

  lemma TakeDiskChans(s: State, c: nat)
    requires Inv(s) && c < |s.chans| && Me(s).pc.Down? && Me(s).pc.s == |s.locks| + c && s.semas[|s.locks| + c].value == 1
    requires Shape(DownStep(s, |s.locks| + c)) && Awaits(Me(s), c)
    ensures ChansOk(DownStep(s, |s.locks| + c))
  {
    hide LocksOk, WaitOk, WakeOk, SchedInv, QueueOk, PcOk, DrvOk, CtxOk;
  }

  lemma TakeDiskShape(s: State, c: nat)
    requires Shape(s) && CtxOk(s) && c < |s.chans| && Me(s).pc.Down? && Me(s).pc.s == |s.locks| + c && s.semas[|s.locks| + c].value == 1
    ensures Shape(DownStep(s, |s.locks| + c)) && CtxOk(DownStep(s, |s.locks| + c)) && Awaits(Me(s), c)
  {
  }

  lemma TakeDiskKeeps(s: State, c: nat)
    requires Inv(s) && c < |s.chans| && Me(s).pc.Down? && Me(s).pc.s == |s.locks| + c && s.semas[|s.locks| + c].value > 0
    ensures Inv(DownStep(s, |s.locks| + c))
  {
    hide LocksOk, WaitOk, WakeOk, SchedInv;
    assert ChanOk(s.ctx, s.chans[c], s.semas[|s.locks| + c].value, c);
    var n := DownStep(s, |s.locks| + c);
    TakeDiskShape(s, c);
    TakeDiskChans(s, c);
    LocksKept(s, n);
    TakeWaits(s, n, |s.locks| + c);
    AwakeQueue(s, n);
  }

  // ------------------------------------------------------------------ waking up

  /** All of the invariant that speaks of waiting and scheduling, not of locks and channels. */
  ghost predicate WaitSide(s: State) {
    Shape(s) && SchedInv(s.d) && CtxOk(s) && WaitOk(s) && WakeOk(s) && QueueOk(s)
  }

  /** The state after waking `w`, the first waiter of semaphore i. */
  function Popped(s: State, i: nat, w: Tid, d: Sched): State
    requires i < |s.semas| && s.semas[i].waiters != [] && w < |s.ctx|
  {
    s.(semas := s.semas[i := Sema(1, s.semas[i].waiters[1..])], d := d,
       ctx := s.ctx[w := s.ctx[w].(pc := Down(i, true), popped := true)])
  }

  ghost predicate Woke(s: State, i: nat, w: Tid, d: Sched) {
    && Shape(s) && i < |s.semas| && s.semas[i].waiters != [] && w == s.semas[i].waiters[0] < |s.ctx|
    && Sleeps(s, w, i) && SchedInv(d) && d.tcbs == SetStatus(s.d, w, READY).tcbs && d.idle == s.d.idle && d.cur == s.d.cur
  }

  lemma PopShape(s: State, i: nat, w: Tid, d: Sched)
    requires Woke(s, i, w, d) && CtxOk(s)
    ensures Shape(Popped(s, i, w, d)) && CtxOk(Popped(s, i, w, d))
  {
    var q := s.semas[i].waiters;
    assert forall t :: t in q[1..] ==> t in q;
    assert Shape(Popped(s, i, w, d));
  }

  lemma PopWaits(s: State, i: nat, w: Tid, d: Sched)
    requires Woke(s, i, w, d) && WaitOk(s) && CtxOk(s) && Shape(Popped(s, i, w, d))
    ensures WaitOk(Popped(s, i, w, d))
  {
    var n, q := Popped(s, i, w, d), s.semas[i].waiters;
    assert q == [w] + q[1..];
    forall k, t: Tid | 0 <= k < |n.semas|
      ensures t in n.semas[k].waiters <==> t < |n.ctx| && Sleeps(n, t, k)
    {
      assert t in s.semas[k].waiters <==> t < |s.ctx| && Sleeps(s, t, k);
      assert t in q <==> t == w || t in q[1..];
    }
  }

  lemma PopWakes(s: State, i: nat, w: Tid, d: Sched)
    requires Woke(s, i, w, d) && WakeOk(s) && Shape(Popped(s, i, w, d))
    ensures WakeOk(Popped(s, i, w, d))
  {
    var n := Popped(s, i, w, d);
    forall k | 0 <= k < |n.semas| && n.semas[k].value > 0 && n.semas[k].waiters != [] ensures Retester(n, k) {
      if k == i {
        assert n.ctx[w].pc == Down(i, true);
      } else {
        assert Retester(s, k);
        var t :| 0 <= t < |s.ctx| && s.ctx[t].pc == Down(k, true);
        assert n.ctx[t].pc == Down(k, true);
      }
    }
  }

  lemma NobodyWaits(s: State, i: nat)
    requires WaitSide(s) && i < |s.semas| && s.semas[i].waiters == []
    ensures WaitSide(s.(semas := s.semas[i := s.semas[i].(value := 1)]))
  {
  }

  /** sema_up pops the first waiter, which then re-tests the value. */
  lemma UpWaits(s: State, i: nat)
    requires WaitSide(s) && i < |s.semas| && s.semas[i].value == 0
    ensures WaitSide(UpStep(s, i))
  {
    if s.semas[i].waiters == [] {
      NobodyWaits(s, i);
    } else {
      var w := s.semas[i].waiters[0];
      assert w in s.semas[i].waiters && Sleeps(s, w, i);
      UnblockKeeps(s.d, w);
      var d := Unblock(s.d, w);
      assert Woke(s, i, w, d);
      assert UpStep(s, i) == Popped(s, i, w, d);
      hide Woke, Popped, Unblock, UpStep;
      PopShape(s, i, w, d);
      PopWaits(s, i, w, d);
      PopWakes(s, i, w, d);
      PopQueue(s, i, w, d);
    }
  }

  /** The woken thread was in sema_down, not in ioq_wait. */
  lemma PopQueue(s: State, i: nat, w: Tid, d: Sched)
    requires Woke(s, i, w, d) && CtxOk(s) && QueueOk(s) && Shape(Popped(s, i, w, d))
    ensures QueueOk(Popped(s, i, w, d))
  {
    assert DrvOk(s.ctx[w], |s.locks|);
    QueueKept(s, Popped(s, i, w, d));
  }

  /** What sema_up leaves alone, and that the woken thread looks the same to locks and drivers. */
  lemma UpFrame(s: State, i: nat)
    requires WaitSide(s) && i < |s.semas| && s.semas[i].value == 0
    ensures UpStep(s, i).locks == s.locks && UpStep(s, i).chans == s.chans
    ensures |UpStep(s, i).semas| == |s.semas| && UpStep(s, i).semas[i].value == 1
    ensures forall k :: 0 <= k < |s.semas| && k != i ==> UpStep(s, i).semas[k] == s.semas[k]
    ensures |UpStep(s, i).ctx| == |s.ctx|
    ensures forall t :: 0 <= t < |s.ctx| ==> SameLockLook(s.ctx[t], UpStep(s, i).ctx[t]) && s.ctx[t].drv == UpStep(s, i).ctx[t].drv
  {
    if s.semas[i].waiters != [] {
      var w := s.semas[i].waiters[0];
      assert w in s.semas[i].waiters && Sleeps(s, w, i);
    }
  }

  lemma ReleasedLocks(s: State, l: nat, n: State)
    requires Shape(s) && Shape(n) && LocksOk(s) && Me(s).pc == RelUp(l) && Me(s).held[l] == 1
    requires n.locks == s.locks[l := s.locks[l].(owner := None)] && n.semas[l].value == 1 && |n.ctx| == |s.ctx|
    requires forall k :: 0 <= k < |s.locks| && k != l ==> n.semas[k].value == s.semas[k].value
    requires forall t :: 0 <= t < |s.ctx| && t != s.d.cur ==> SameLockLook(s.ctx[t], n.ctx[t])
    requires SameLockLook(Me(s).(pc := Free, held := Me(s).held - multiset{l}), n.ctx[s.d.cur])
    ensures LocksOk(n)
  {
    forall k | 0 <= k < |n.locks| ensures LockOk(n.ctx, n.locks[k], n.semas[k].value, k) {
      assert LockOk(s.ctx, s.locks[k], s.semas[k].value, k);
      assert Owns(Me(s), k) <==> s.locks[k].owner == Some(s.d.cur);
    }
  }

  /** Leaving lock_release: until the up itself, only this thread's own books change. */
  lemma ReleaseSide(s: State, l: nat)
    requires WaitSide(s) && l < |s.locks| && Me(s).pc == RelUp(l)
    ensures WaitSide(SetLock(SetMe(s, Me(s).(pc := Free, held := Me(s).held - multiset{l})), l, s.locks[l].(owner := None)))
  {
    hide CtxOk, WaitOk, WakeOk, QueueOk, SchedInv;
    var n := SetLock(SetMe(s, Me(s).(pc := Free, held := Me(s).held - multiset{l})), l, s.locks[l].(owner := None));
    ReleaseCtx(s, l);
    ReleaseWaits(s, n);
    WakesKept(s, n, |s.semas|);
    assert QueueOk(n) by { AwakeQueue(s, n); }
  }

  lemma ReleaseCtx(s: State, l: nat)
    requires Shape(s) && CtxOk(s) && l < |s.locks| && Me(s).pc == RelUp(l)
    ensures var n := SetLock(SetMe(s, Me(s).(pc := Free, held := Me(s).held - multiset{l})), l, s.locks[l].(owner := None));
            Shape(n) && CtxOk(n)
  {
    hide DrvOk, PcOk;
    ReleasedCtx(Me(s), l, |s.locks|);
  }

  lemma ReleasedCtx(c: Ctx, l: nat, locks: nat)
    requires PcOk(c, locks) && DrvOk(c, locks) && c.pc == RelUp(l)
    ensures var c1 := c.(pc := Free, held := c.held - multiset{l}); PcOk(c1, locks) && DrvOk(c1, locks)
  {
  }

  lemma ReleaseWaits(s: State, n: State)
    requires Shape(s) && Shape(n) && SchedInv(s.d) && WaitOk(s) && n.d == s.d && n.semas == s.semas && |n.ctx| == |s.ctx|
    requires !Me(s).pc.Down? && n.ctx[s.d.cur].pc.Free? && forall t: Tid :: t < |s.ctx| && t != s.d.cur ==> n.ctx[t] == s.ctx[t]
    ensures WaitOk(n)
  {
    forall k, t: Tid | 0 <= k < |n.semas|
      ensures t in n.semas[k].waiters <==> t < |n.ctx| && Sleeps(n, t, k)
    {
      assert t in s.semas[k].waiters <==> t < |s.ctx| && Sleeps(s, t, k);
    }
  }

  lemma AwakeQueue(s: State, n: State)
    requires Shape(s) && Shape(n) && SchedInv(s.d) && QueueOk(s) && n.d == s.d && n.kbd == s.kbd && |n.ctx| == |s.ctx|
    requires forall t: Tid :: t < |s.ctx| && t != s.d.cur ==> n.ctx[t] == s.ctx[t]
    ensures QueueOk(n)
  {
    QueueKept(s, n);
  }

  lemma ReleaseFacts(s: State, l: nat)
    requires Inv(s) && Me(s).pc == RelUp(l)
    ensures l < |s.locks| && s.semas[l].value == 0 && Me(s).held[l] == 1
  {
  }

  /** The final sema_up of lock_release never meets a positive value. */
  lemma ReleaseKeeps(s: State, l: nat)
    requires Inv(s) && Me(s).pc == RelUp(l)
    ensures Inv(LibStep(s))
  {
    hide UpStep, LocksOk, ChansOk, WaitOk, WakeOk, CtxOk, SchedInv;
    ReleaseFacts(s, l);
    var s1 := SetLock(SetMe(s, Me(s).(pc := Free, held := Me(s).held - multiset{l})), l, s.locks[l].(owner := None));
    ReleaseSide(s, l);
    UpWaits(s1, l);
    UpFrame(s1, l);
    var n := UpStep(s1, l);
    ReleasedLocks(s, l, n);
    ChansKept(s, n);
  }

  lemma DiskChans(s: State, c: nat, n: State)
    requires Shape(s) && Shape(n) && ChansOk(s) && c < |s.chans| && s.chans[c].expecting
    requires n.chans == s.chans[c := s.chans[c].(expecting := false)] && |n.locks| == |s.locks| && |n.ctx| == |s.ctx|
    requires n.semas[|s.locks| + c].value == 1
    requires forall k :: |s.locks| <= k < |s.semas| && k != |s.locks| + c ==> n.semas[k].value == s.semas[k].value
    requires forall t :: 0 <= t < |s.ctx| ==> n.ctx[t].drv == s.ctx[t].drv
    ensures ChansOk(n)
  {
  }

  /** intr_hd_handler, expected or surplus: its sema_up never meets a positive value. */
  lemma DiskKeeps(s: State, c: nat)
    requires Inv(s) && c < |s.chans|
    ensures Inv(DiskStep(s, c))
  {
    hide UpStep, LocksOk, WaitOk, WakeOk, SchedInv, QueueOk, CtxOk;
    if s.chans[c].expecting {
      var s1 := s.(chans := s.chans[c := s.chans[c].(expecting := false)]);
      assert ChanOk(s.ctx, s.chans[c], s.semas[|s.locks| + c].value, c);
      assert WaitSide(s1) by { DiskSide(s, c); }
      UpWaits(s1, |s.locks| + c);
      UpFrame(s1, |s.locks| + c);
      LocksKept(s, DiskStep(s, c));
      DiskChans(s, c, DiskStep(s, c));
    }
  }

  lemma DiskSide(s: State, c: nat)
    requires WaitSide(s) && c < |s.chans|
    ensures WaitSide(s.(chans := s.chans[c := s.chans[c].(expecting := false)]))
  {
  }

  lemma IdleMove(s: State, pc: Pc)
    requires Shape(s) && CtxOk(s) && IsIdle(Me(s).pc) && IsIdle(pc)
    ensures CtxMove(Me(s), Me(s).(pc := pc), |s.locks|, |s.chans|) && s.d.cur == s.d.idle
    ensures SameCommands(Me(s), Me(s).(pc := pc), |s.chans|)
  {
  }

  /** idle blocks itself; with nobody ready it is woken at once and runs on. */
  lemma IdleKeeps(s: State)
    requires Inv(s) && IsIdle(Me(s).pc)
    ensures Inv(LibStep(s))
  {
    hide Block, Shape, SchedInv, CtxOk, LocksOk, ChansOk, WaitOk, WakeOk;
    if Me(s).pc.IdleBlock? { IdleBlocks(s); } else { IdleMoves(s, IdleBlock); }
  }

  lemma IdleMoves(s: State, pc: Pc)
    requires Inv(s) && IsIdle(Me(s).pc) && IsIdle(pc)
    ensures Inv(Goto(s, pc)) && s.d.cur == s.d.idle
  {
    hide CtxMove, SchedInv, SameCommands, CtxOk, Shape, LocksOk, ChansOk, WaitOk, WakeOk;
    IdleMove(s, pc);
    MoveKeeps(s, Me(s).(pc := pc));
  }

  lemma IdleBlocks(s: State)
    requires Inv(s) && IsIdle(Me(s).pc)
    ensures Inv(Goto(s, IdleHalt).(d := Block(s.d)))
  {
    hide Block, CtxOk, LocksOk, ChansOk, WaitOk, WakeOk, PcShape;
    IdleMoves(s, IdleHalt);
    BlockKeeps(s.d);
    Rescheduled(Goto(s, IdleHalt), Block(s.d));
  }

  /** thread_start: the new thread is ready, outside the library and holds nothing. */
  lemma SpawnKeeps(s: State, p: nat)
    requires Inv(s)
    ensures Inv(s.(d := Start(s.d, p), ctx := s.ctx + [Ctx(Free, User, multiset{}, false)]))
  {
    hide SchedInv, CtxOk, LocksOk, ChansOk, WaitOk, WakeOk, Start, Shape;
    var n := s.(d := Start(s.d, p), ctx := s.ctx + [Ctx(Free, User, multiset{}, false)]);
    StartKeeps(s.d, p);
    SpawnShape(s, n, p);
    SpawnBooks(s, n);
    SpawnWaits(s, n, p);
    assert QueueOk(n) by { SpawnQueue(s, n, p); }
  }

  lemma SpawnQueue(s: State, n: State, p: nat)
    requires Shape(s) && Shape(n) && QueueOk(s) && n == s.(d := Start(s.d, p), ctx := s.ctx + [Ctx(Free, User, multiset{}, false)])
    ensures QueueOk(n)
  {
    QueueKept(s, n);
  }

  lemma SpawnShape(s: State, n: State, p: nat)
    requires Shape(s) && CtxOk(s) && n == s.(d := Start(s.d, p), ctx := s.ctx + [Ctx(Free, User, multiset{}, false)])
    ensures Shape(n) && CtxOk(n)
  {
  }

  lemma SpawnWaits(s: State, n: State, p: nat)
    requires Shape(s) && Shape(n) && WaitOk(s) && WakeOk(s) && n == s.(d := Start(s.d, p), ctx := s.ctx + [Ctx(Free, User, multiset{}, false)])
    ensures WaitOk(n) && WakeOk(n)
  {
    hide PcShape;
    forall k, t: Tid | 0 <= k < |n.semas|
      ensures t in n.semas[k].waiters <==> t < |n.ctx| && Sleeps(n, t, k)
    {
      assert t in s.semas[k].waiters <==> t < |s.ctx| && Sleeps(s, t, k);
    }
    WakesKept(s, n, |s.semas|);
  }

  lemma SpawnBooks(s: State, n: State)
    requires Shape(s) && Shape(n) && LocksOk(s) && ChansOk(s)
    requires n.ctx == s.ctx + [Ctx(Free, User, multiset{}, false)] && n.locks == s.locks && n.semas == s.semas && n.chans == s.chans
    ensures LocksOk(n) && ChansOk(n)
  {
  }

  // ------------------------------------------------------------- the keyboard queue

  /** Bytes come and go, the consumer stays. */
  lemma BytesOnly(s: State, b: Buffer)
    requires Inv(s) && BufferOk(b)
    ensures Inv(s.(kbd := s.kbd.(b := b)))
  {
    hide SchedInv, LocksOk, ChansOk, BufferOk, PcOk, DrvOk;
    var n := s.(kbd := s.kbd.(b := b));
    assert LocksOk(n) && ChansOk(n) by { BytesBooks(s, n); }
  }

  lemma BytesBooks(s: State, n: State)
    requires Shape(s) && Shape(n) && LocksOk(s) && ChansOk(s) && n.ctx == s.ctx && n.locks == s.locks && n.semas == s.semas && n.chans == s.chans
    ensures LocksOk(n) && ChansOk(n)
  {
  }

  /** Whoever holds the queue's lock and is about to wait finds no consumer registered. */
  lemma NoConsumer(s: State)
    requires Inv(s) && Me(s).pc.Free? && Me(s).drv == Kbd(Entering)
    ensures s.kbd.consumer == None
  {
    hide LocksOk, ChansOk, WaitOk, WakeOk, PcOk, BufferOk;
    if s.kbd.consumer.Some? {
      var t := s.kbd.consumer.value;
      assert KeySleeps(s, t);
      assert DrvOk(s.ctx[t], |s.locks|) && DrvOk(Me(s), |s.locks|);
      OneOwner(s, |s.locks| - 1, t, s.d.cur);
    }
  }

  /** The move to another place in ioq_getchar. */
  lemma KeyMove(s: State, c: Ctx)
    requires Inv(s) && Me(s).pc.Free? && (Me(s).drv.Kbd? || Me(s).drv.User?) && (c.drv.Kbd? || c.drv.User?) && c.held == Me(s).held
    requires (c.pc.Free? || c.pc == AcqTest(|s.locks| - 1) || c.pc == RelCheck(|s.locks| - 1)) && PcOk(c, |s.locks|) && DrvOk(c, |s.locks|)
    ensures Inv(SetMe(s, c))
  {
    hide LocksOk, ChansOk, WaitOk, WakeOk, SchedInv, QueueOk, PcOk, DrvOk;
    MoveKeeps(s, c);
  }

  /** The running thread's place after ioq_wait has registered and blocked it. */
  function InWait(s: State, d: Sched): State
    requires Shape(s)
  {
    s.(kbd := s.kbd.(consumer := Some(s.d.cur)), d := d)
  }

  lemma WaitShape(s: State, d: Sched)
    requires Shape(s) && CtxOk(s) && LocksOk(s) && ChansOk(s) && WakeOk(s) && OnlyMeSlept(s, d) && SchedInv(d)
    ensures Shape(InWait(s, d)) && CtxOk(InWait(s, d)) && LocksOk(InWait(s, d)) && ChansOk(InWait(s, d)) && WakeOk(InWait(s, d))
  {
    hide LocksOk, ChansOk, PcOk, DrvOk;
    assert Shape(InWait(s, d));
    BytesBooks(s, InWait(s, d));
  }

  lemma WaitWaits(s: State, d: Sched)
    requires Inv(s) && OnlyMeSlept(s, d) && Me(s).pc.Free? && Me(s).drv == Kbd(Waiting) && s.kbd.consumer == None && Shape(InWait(s, d))
    ensures WaitOk(InWait(s, d)) && QueueOk(InWait(s, d))
  {
    hide LocksOk, ChansOk, WakeOk, SchedInv, PcOk, BufferOk;
    var n := InWait(s, d);
    assert DrvOk(s.ctx[s.d.idle], |s.locks|);
    forall k, t: Tid | 0 <= k < |n.semas|
      ensures t in n.semas[k].waiters <==> t < |n.ctx| && Sleeps(n, t, k)
    {
      assert t in s.semas[k].waiters <==> t < |s.ctx| && Sleeps(s, t, k);
    }
  }

  /** ioq_wait: the assertion on the waiter cannot fire, and the thread sleeps as the consumer. */
  lemma EnterKeeps(s: State)
    requires Inv(s) && Me(s).pc.Free? && Me(s).drv == Kbd(Entering)
    ensures Inv(KbdStep(s))
  {
    var c := Me(s).(drv := Kbd(Waiting));
    NoConsumer(s);
    assert DrvOk(Me(s), |s.locks|);
    KeyMove(s, c);
    var s1 := SetMe(s, c);
    assert s1.d.cur != s1.d.idle by { NotIdle(s1); }
    BlockKeeps(s1.d);
    assert OnlyMeSlept(s1, Block(s1.d));
    hide Block, SchedInv, CtxOk, LocksOk, ChansOk, WaitOk, WakeOk, QueueOk, OnlyMeSlept;
    WaitShape(s1, Block(s1.d));
    WaitWaits(s1, Block(s1.d));
  }

  lemma NotIdle(s: State)
    requires Inv(s) && !IsIdle(Me(s).pc)
    ensures s.d.cur != s.d.idle
  {
  }

  lemma KbdKeeps(s: State)
    requires Inv(s) && Me(s).pc.Free? && Me(s).drv.Kbd?
    ensures Inv(KbdStep(s))
  {
    hide SchedInv, LocksOk, ChansOk, WaitOk, WakeOk, BufferOk;
    var c, k := Me(s), |s.locks| - 1;
    assert PcOk(c, |s.locks|) && DrvOk(c, |s.locks|);
    match c.drv.key
    case Testing =>
      if s.kbd.b.data == [] {
        KeyMove(s, c.(pc := AcqTest(k), drv := Kbd(Entering), popped := false));
      } else {
        KeyMove(s, c.(drv := User));
        FetchOk(s.kbd.b);
        BytesOnly(SetMe(s, c.(drv := User)), Fetch(s.kbd.b));
      }
    case Entering => EnterKeeps(s);
    case Waiting => KeyMove(s, c.(pc := RelCheck(k), drv := Kbd(Leaving)));
    case Leaving => KeyMove(s, c.(drv := Kbd(Testing)));
  }

  /** The keyboard handler: thread_unblock always finds the consumer asleep. */
  lemma KeyKeeps(s: State, x: char)
    requires Inv(s)
    ensures Inv(KeyStep(s, x))
  {
    hide SchedInv, LocksOk, ChansOk, WaitOk, WakeOk, CtxOk, BufferOk;
    KeptOk(s.kbd.b, x);
    BytesOnly(s, Kept(s.kbd.b, x));
    var n := s.(kbd := s.kbd.(b := Kept(s.kbd.b, x)));
    if |s.kbd.b.data| != 63 && s.kbd.consumer.Some? {
      KeyWakes(n, s.kbd.consumer.value);
    }
  }

  lemma KeyWakes(s: State, t: Tid)
    requires Inv(s) && s.kbd.consumer == Some(t)
    ensures t < |s.d.tcbs| && Inv(s.(kbd := s.kbd.(consumer := None), d := Unblock(s.d, t)))
  {
    hide LocksOk, ChansOk, BufferOk, PcOk;
    assert KeySleeps(s, t) && DrvOk(s.ctx[t], |s.locks|);
    UnblockKeeps(s.d, t);
    var d := Unblock(s.d, t);
    var n := s.(kbd := s.kbd.(consumer := None), d := d);
    hide SchedInv, ReadyList, Unblock;
    assert Shape(n);
    BytesBooks(s, n);
    WokenWaits(s, n, t);
  }

  lemma WokenWaits(s: State, n: State, t: Tid)
    requires Shape(s) && Shape(n) && WaitOk(s) && WakeOk(s) && QueueOk(s) && s.kbd.consumer == Some(t)
    requires n == s.(kbd := s.kbd.(consumer := None), d := n.d) && !s.ctx[t].pc.Down? && n.d.idle == s.d.idle
    requires forall u: Tid :: u < |s.ctx| ==> (Asleep(n.d.tcbs[u].status) <==> Asleep(s.d.tcbs[u].status) && u != t)
    ensures WaitOk(n) && WakeOk(n) && QueueOk(n)
  {
    hide PcShape, BufferOk;
    forall k, u: Tid | 0 <= k < |n.semas|
      ensures u in n.semas[k].waiters <==> u < |n.ctx| && Sleeps(n, u, k)
    {
      assert u in s.semas[k].waiters <==> u < |s.ctx| && Sleeps(s, u, k);
    }
  }

  // ----------------------------------------------------------------- every run

  lemma DownIs(s: State)
    requires Shape(s) && Me(s).pc.Down?
    ensures LibStep(s) == DownStep(s, Me(s).pc.s)
  {
  }

  /** Inside the library. */
  lemma LibKeeps(s: State)
    requires Inv(s) && !Me(s).pc.Free?
    ensures Inv(LibStep(s))
  {
    hide Inv, LibStep, DownStep;
    ShapeOf(s);
    if Me(s).pc.Down? { DownIs(s); }
    match Me(s).pc
    case Down(i, _) =>
      if s.semas[i].value == 0 { SleepKeeps(s, i); }
      else if i < |s.locks| { TakeLockKeeps(s, i); }
      else { TakeDiskKeeps(s, i - |s.locks|); }
    case RelUp(l) => ReleaseKeeps(s, l);
    case IdleBlock => IdleKeeps(s);
    case IdleHalt => IdleKeeps(s);
    case _ => LockStatementKeeps(s);
  }

  lemma StepKeeps(s: State, e: Event)
    requires Inv(s) && Enabled(s, e)
    ensures Inv(Step(s, e))
  {
    assert SchedInv(s.d);
    hide Inv, SchedInv, LibStep, DriverStep, KbdStep, DiskStep, KeyStep, Timer, Yield, Start;
    match e
    case Tick => TimerKeeps(s.d); Rescheduled(s, Timer(s.d));
    case DiskIntr(c) => DiskKeeps(s, c);
    case KeyIntr(x) => KeyKeeps(s, x);
    case Run(u) =>
      match u {
        case Go => if !Me(s).pc.Free? { LibKeeps(s); } else if Me(s).drv.Ide? { DriverKeeps(s); } else if Me(s).drv.Kbd? { KbdKeeps(s); }
        case GiveUp => YieldKeeps(s.d); Rescheduled(s, Yield(s.d));
        case Spawn(p) => SpawnKeeps(s, p);
        case _ => RequestKeeps(s, u);
      }
  }

  /** thread_init and ide_init: main runs, idle is ready, all locks free, no command sent. */
  ghost predicate Boot(s: State) {
    && s.ctx == [Ctx(Free, User, multiset{}, false), Ctx(IdleBlock, User, multiset{}, false)]
    && s.d == Sched([Tcb(RUNNING, 31, 31, 0), Tcb(READY, 10, 10, 0)], [1], 0, 1, 0, Live)
    && |s.chans| < |s.locks| && |s.semas| == |s.locks| + |s.chans| && s.kbd == Queue(Buffer([], [], []), None)
    && (forall l :: 0 <= l < |s.locks| ==> s.locks[l] == Lock(None, 0, None))
    && (forall i :: 0 <= i < |s.semas| ==> s.semas[i] == Sema(if i < |s.locks| then 1 else 0, []))
    && (forall c :: 0 <= c < |s.chans| ==> s.chans[c] == Chan(false, None))
  }

  ghost predicate Run(s: State, es: seq<Event>, n: State)
    decreases |es|
  {
    if es == [] then s == n
    else Enabled(s, es[0]) && Run(Step(s, es[0]), es[1..], n)
  }

  lemma BootOk(s: State)
    requires Boot(s)
    ensures Inv(s)
  {
    hide SchedInv, CtxOk, LocksOk, ChansOk, WaitOk, WakeOk, QueueOk;
    BootSched(s);
    BootCtx(s);
    BootBooks(s);
    BootWaits(s);
  }

  lemma BootSched(s: State)
    requires Boot(s)
    ensures SchedInv(s.d)
  {
  }

  lemma BootBooks(s: State)
    requires Boot(s)
    ensures Shape(s) && LocksOk(s) && ChansOk(s)
  {
  }

  lemma BootCtx(s: State)
    requires Boot(s)
    ensures Shape(s) && CtxOk(s)
  {
  }

  lemma BootWaits(s: State)
    requires Boot(s)
    ensures Shape(s) && WaitOk(s) && WakeOk(s) && QueueOk(s)
  {
  }

  lemma {:induction false} RunKeeps(s: State, es: seq<Event>, n: State)
    requires Inv(s) && Run(s, es, n)
    ensures Inv(n)
    decreases |es|
  {
    hide Inv, Enabled, Step;
    if es != [] {
      StepKeeps(s, es[0]);
      RunKeeps(Step(s, es[0]), es[1..], n);
    }
  }

  lemma Reached(s: State, es: seq<Event>, n: State)
    requires Boot(s) && Run(s, es, n)
    ensures Inv(n)
  {
    BootOk(s);
    RunKeeps(s, es, n);
  }

  // -------------------------------------------------------------- the theorems

  /** No ASSERT of sync.c, thread.c or the interrupt handlers fires in any run. */
  lemma NoAssertFires(s: State, es: seq<Event>, n: State, e: Event)
    requires Boot(s) && Run(s, es, n)
    ensures n.d.halt == Live
    ensures Enabled(n, e) ==> Step(n, e).d.halt == Live
  {
    Reached(s, es, n);
    assert n.d.halt == Live;
    if Enabled(n, e) {
      StepKeeps(n, e);
    }
  }

  /** At most one thread is between its outermost acquire and the matching release. */
  lemma MutualExclusion(s: State, es: seq<Event>, n: State, l: nat, t: Tid, u: Tid)
    requires Boot(s) && Run(s, es, n) && l < |n.locks| && t < |n.ctx| && u < |n.ctx|
    requires Owns(n.ctx[t], l) && Owns(n.ctx[u], l)
    ensures t == u
  {
    Reached(s, es, n);
    OneOwner(n, l, t, u);
  }

  /** The lock's own fields tell the truth: the semaphore is 0 exactly while somebody owns the
      lock, and outside the acquire and release windows holder_repeat_nr counts exactly the
      holder's unmatched acquires. */
  lemma LockBooks(s: State, es: seq<Event>, n: State, l: nat)
    requires Boot(s) && Run(s, es, n) && l < |n.locks|
    ensures |n.semas| >= |n.locks| && n.semas[l].value <= 1
    ensures n.semas[l].value == 0 <==> exists t :: 0 <= t < |n.ctx| && Owns(n.ctx[t], l)
    ensures forall t: Tid :: t < |n.ctx| && n.locks[l].holder == Some(t) ==> Owns(n.ctx[t], l)
    ensures forall t: Tid :: t < |n.ctx| && n.ctx[t].held[l] > 0 && !(Releasing(n.ctx[t].pc) && n.ctx[t].pc.l == l) ==>
              n.locks[l].holder == Some(t) && n.locks[l].repeat == n.ctx[t].held[l]
    ensures n.semas[l].value == 1 ==> n.locks[l].holder == None && n.locks[l].repeat == 0
  {
    Reached(s, es, n);
    assert LockOk(n.ctx, n.locks[l], n.semas[l].value, l);
    if n.locks[l].owner.Some? {
      assert Owns(n.ctx[n.locks[l].owner.value], l);
    }
    forall t: Tid | t < |n.ctx| && n.ctx[t].held[l] > 0
      ensures n.locks[l].owner == Some(t) && PcOk(n.ctx[t], |n.locks|)
    {
      assert Owns(n.ctx[t], l);
    }
  }

  /** No lost wakeup: a positive semaphore with sleepers has an awake thread that was popped
      from that very list and re-tests the value next, on the processor or in the ready list. */
  lemma NoLostWakeup(s: State, es: seq<Event>, n: State, i: nat)
    requires Boot(s) && Run(s, es, n) && i < |n.semas| && n.semas[i].value > 0 && n.semas[i].waiters != []
    ensures exists t: Tid :: t < |n.ctx| && n.ctx[t].pc == Down(i, true) && t !in n.semas[i].waiters
                             && (t == n.d.cur || t in n.d.ready)
  {
    Reached(s, es, n);
    assert Retester(n, i);
    var t :| 0 <= t < |n.ctx| && n.ctx[t].pc == Down(i, true);
    assert !Asleep(n.d.tcbs[t].status) && n.d.tcbs[t].status != DIED;
    assert n.d.tcbs[t].status == RUNNING || t in n.d.ready;
    assert t !in n.semas[i].waiters;
  }

  /** Exactly one thread runs, the ready list is exactly the READY threads, each wait list is
      exactly the threads asleep on that semaphore, and general_tag is on at most one list. */
  lemma ListDiscipline(s: State, es: seq<Event>, n: State, t: Tid)
    requires Boot(s) && Run(s, es, n) && t < |n.ctx|
    ensures |n.d.tcbs| == |n.ctx| && Distinct(n.d.ready)
    ensures n.d.tcbs[t].status == RUNNING <==> t == n.d.cur
    ensures n.d.tcbs[t].status == READY <==> t in n.d.ready
    ensures forall i :: 0 <= i < |n.semas| ==>
              (t in n.semas[i].waiters <==> Asleep(n.d.tcbs[t].status) && n.ctx[t].pc.Down? && n.ctx[t].pc.s == i)
    ensures forall i :: 0 <= i < |n.semas| && t in n.semas[i].waiters ==>
              t != n.d.cur && t !in n.d.ready && forall j :: 0 <= j < |n.semas| && t in n.semas[j].waiters ==> j == i
  {
    Reached(s, es, n);
    forall i | 0 <= i < |n.semas|
      ensures t in n.semas[i].waiters <==> Sleeps(n, t, i)
    {
      assert t in n.semas[i].waiters <==> t < |n.ctx| && Sleeps(n, t, i);
    }
  }

  /** At most one command per channel awaits completion, its issuer holds the channel lock, and
      expecting_intr plus disk_done's value is 1 while it does and 0 otherwise, whatever
      surplus interrupts arrive. */
  lemma ChannelProtocol(s: State, es: seq<Event>, n: State, c: nat, t: Tid, u: Tid)
    requires Boot(s) && Run(s, es, n) && c < |n.chans| && t < |n.ctx| && u < |n.ctx|
    ensures Awaits(n.ctx[t], c) && Awaits(n.ctx[u], c) ==> t == u
    ensures Awaits(n.ctx[t], c) ==> n.ctx[t].held[c] > 0
    ensures |n.semas| == |n.locks| + |n.chans|
    ensures var pending := (if n.chans[c].expecting then 1 else 0) + n.semas[|n.locks| + c].value;
            && pending <= 1
            && (pending == 1 <==> exists v :: 0 <= v < |n.ctx| && Awaits(n.ctx[v], c))
  {
    hide Run, Boot, Inv;
    Reached(s, es, n);
    ChannelFacts(n, c, t, u);
  }

  lemma ChannelFacts(n: State, c: nat, t: Tid, u: Tid)
    requires Inv(n) && c < |n.chans| && t < |n.ctx| && u < |n.ctx|
    ensures Awaits(n.ctx[t], c) && Awaits(n.ctx[u], c) ==> t == u
    ensures Awaits(n.ctx[t], c) ==> n.ctx[t].held[c] > 0
    ensures |n.semas| == |n.locks| + |n.chans|
    ensures var pending := (if n.chans[c].expecting then 1 else 0) + n.semas[|n.locks| + c].value;
            && pending <= 1
            && (pending == 1 <==> exists v :: 0 <= v < |n.ctx| && Awaits(n.ctx[v], c))
  {
  }
}
