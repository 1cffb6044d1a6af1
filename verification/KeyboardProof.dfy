/** What the machine of Sync guarantees about the keyboard queue in every run: for any number of
    readers that no byte is lost, doubled or reordered and that ioq_wait and wakeup never meet a
    wrong thread; and for one reader, that it never sleeps while there is a byte for it. */
module KeyboardProof {
  import opened Basics
  import opened Scheduler
  import opened Ioqueue
  import opened Sync
  import opened SyncProof

  /** In every run, whatever threads read: at most 63 bytes; what has been taken followed by what is
      there is what has been put; ioq->consumer is exactly the thread asleep in ioq_wait, which
      holds the queue's lock and is on no list. */
  lemma KeyboardQueue(s: State, es: seq<Event>, n: State, t: Tid)
    requires Boot(s) && SyncProof.Run(s, es, n) && t < |n.ctx|
    ensures |n.kbd.b.data| <= 63 && n.kbd.b.taken + n.kbd.b.data == n.kbd.b.put
    ensures |n.d.tcbs| == |n.ctx| && (n.kbd.consumer == Some(t) <==> Asleep(n.d.tcbs[t].status) && n.ctx[t].drv == Kbd(Waiting))
    ensures n.kbd.consumer == Some(t) ==> |n.locks| > 0 && n.locks[|n.locks| - 1].owner == Some(t) && t !in n.d.ready && t != n.d.cur
    ensures n.kbd.consumer == Some(t) ==> forall i :: 0 <= i < |n.semas| ==> t !in n.semas[i].waiters
  {
    hide SyncProof.Run, Boot, Inv;
    Reached(s, es, n);
    QueueFacts(n, t);
  }

  lemma QueueFacts(n: State, t: Tid)
    requires Inv(n) && t < |n.ctx|
    ensures |n.kbd.b.data| <= 63 && n.kbd.b.taken + n.kbd.b.data == n.kbd.b.put
    ensures |n.d.tcbs| == |n.ctx| && (n.kbd.consumer == Some(t) <==> Asleep(n.d.tcbs[t].status) && n.ctx[t].drv == Kbd(Waiting))
    ensures n.kbd.consumer == Some(t) ==> |n.locks| > 0 && n.locks[|n.locks| - 1].owner == Some(t) && t !in n.d.ready && t != n.d.cur
    ensures n.kbd.consumer == Some(t) ==> forall i :: 0 <= i < |n.semas| ==> t !in n.semas[i].waiters
  {
    hide ChansOk, WakeOk;
    assert KeySleeps(n, t) <==> n.kbd.consumer == Some(t);
    if n.kbd.consumer == Some(t) {
      assert DrvOk(n.ctx[t], |n.locks|);
      var k := |n.locks| - 1;
      assert LockOk(n.ctx, n.locks[k], n.semas[k].value, k);
      assert Owns(n.ctx[t], k);
      forall i | 0 <= i < |n.semas| ensures t !in n.semas[i].waiters {
        assert t in n.semas[i].waiters <==> t < |n.ctx| && Sleeps(n, t, i);
      }
    }
  }

  // -------------------------------------------------------------------- one reader

  /** Only the given threads call ioq_getchar. */
  ghost predicate ReadersIn(s: State, es: seq<Event>, readers: set<Tid>)
    decreases |es|
  {
    es == [] || (Enabled(s, es[0]) && (es[0] == Event.Run(Getchar) ==> s.d.cur in readers) && ReadersIn(Step(s, es[0]), es[1..], readers))
  }

  lemma {:induction false} ReadersMore(s: State, es: seq<Event>, readers: set<Tid>, more: set<Tid>)
    requires ReadersIn(s, es, readers) && readers <= more
    ensures ReadersIn(s, es, more)
    decreases |es|
  {
    hide Enabled, Step;
    if es != [] { ReadersMore(Step(s, es[0]), es[1..], readers, more); }
  }

  /** The reader is on the processor from the test for emptiness until it sleeps or returns, and it
      sleeps on an empty queue. */
  ghost predicate Single(s: State, r: Tid) {
    && |s.ctx| == |s.d.tcbs| && (forall t: Tid :: t < |s.ctx| && s.ctx[t].drv.Kbd? ==> t == r)
    && (r < |s.ctx| && s.ctx[r].drv.Kbd? ==>
          match s.ctx[r].drv.key
          case Waiting => KeySleeps(s, r) ==> s.kbd.b.data == []
          case Entering => s.d.cur == r && s.kbd.b.data == []
          case _ => s.d.cur == r)
  }

  /** Nobody's place in ioq_getchar changes; nor does the queue. */
  ghost predicate SamePlaces(s: State, n: State) {
    && n.kbd == s.kbd && |n.ctx| >= |s.ctx|
    && (forall t: Tid :: t < |s.ctx| ==> (n.ctx[t].drv.Kbd? <==> s.ctx[t].drv.Kbd?) && (s.ctx[t].drv.Kbd? ==> n.ctx[t].drv == s.ctx[t].drv))
    && (forall t: Tid :: |s.ctx| <= t < |n.ctx| ==> !n.ctx[t].drv.Kbd?)
  }

  /** A thread leaves a wait list only by being popped, and is then marked. */
  ghost predicate PopMarked(s: State, n: State, t: Tid) {
    && |n.semas| == |s.semas| && t < |s.ctx| <= |n.ctx| && (!n.ctx[t].popped ==> !s.ctx[t].popped)
    && (forall i :: 0 <= i < |s.semas| && t in s.semas[i].waiters ==> t in n.semas[i].waiters || n.ctx[t].popped)
  }

  ghost predicate PopsMarked(s: State, n: State) {
    forall t: Tid :: t < |s.ctx| ==> PopMarked(s, n, t)
  }

  ghost predicate Queued(s: State, t: Tid) {
    exists i :: 0 <= i < |s.semas| && t in s.semas[i].waiters
  }

  lemma SingleStays(s: State, n: State, r: Tid)
    requires Inv(s) && Inv(n) && Single(s, r) && SamePlaces(s, n) && (Me(s).drv.Kbd? ==> n.d.cur == s.d.cur)
    ensures Single(n, r)
  {
    hide LocksOk, ChansOk, WaitOk, WakeOk, CtxOk, SchedInv, BufferOk, PcShape;
    if r < |s.ctx| && s.ctx[r].drv.Kbd? {
      assert KeySleeps(n, r) <==> KeySleeps(s, r);
    }
  }

  lemma UpPlaces(s: State, i: nat)
    requires Shape(s) && i < |s.semas|
    ensures SamePlaces(s, UpStep(s, i)) && PopsMarked(s, UpStep(s, i)) && UpStep(s, i).d.cur == s.d.cur
  {
    var q := s.semas[i].waiters;
    if q != [] {
      assert q[0] in q;
      assert q == [q[0]] + q[1..];
    }
  }

  lemma DownPlaces(s: State, i: nat)
    requires Shape(s) && i < |s.semas| && (i >= |s.locks| ==> !Me(s).drv.Kbd?)
    ensures SamePlaces(s, DownStep(s, i)) && PopsMarked(s, DownStep(s, i))
    ensures if s.semas[i].value != 0 then DownStep(s, i).d.cur == s.d.cur else Queued(DownStep(s, i), s.d.cur)
  {
    hide Block, PcShape;
    if s.semas[i].value == 0 { assert s.d.cur in DownStep(s, i).semas[i].waiters; }
  }

  lemma ReleasePlaces(s: State)
    requires Shape(s) && Me(s).pc.RelUp?
    ensures SamePlaces(s, LibStep(s)) && PopsMarked(s, LibStep(s)) && LibStep(s).d.cur == s.d.cur
  {
    hide UpStep;
    var c, l := Me(s), Me(s).pc.l;
    var s1 := SetLock(SetMe(s, c.(pc := Free, held := c.held - multiset{l})), l, s.locks[l].(owner := None));
    UpPlaces(s1, l);
    forall t: Tid | t < |s.ctx| ensures PopMarked(s, LibStep(s), t) { assert PopMarked(s1, UpStep(s1, l), t); }
  }

  lemma LibPlaces(s: State)
    requires Shape(s) && !Me(s).pc.Free? && (Me(s).pc.Down? && Me(s).pc.s >= |s.locks| ==> !Me(s).drv.Kbd?)
    ensures SamePlaces(s, LibStep(s)) && PopsMarked(s, LibStep(s))
    ensures Me(s).pc.Down? && s.semas[Me(s).pc.s].value == 0 ==> Queued(LibStep(s), s.d.cur)
    ensures !IsIdle(Me(s).pc) && (Me(s).pc.Down? ==> s.semas[Me(s).pc.s].value != 0) ==> LibStep(s).d.cur == s.d.cur
  {
    hide Block, UpStep, DownStep, Tripped, Statement;
    var c := Me(s);
    if c.pc.Down? {
      DownPlaces(s, c.pc.s);
    } else if c.pc.RelUp? {
      ReleasePlaces(s);
    } else if LockStatement(c.pc) {
      StatementDrvSame(c, s.d.cur, s.locks[c.pc.l]);
    }
  }

  lemma StatementDrvSame(c: Ctx, me: Tid, lk: Lock)
    requires LockStatement(c.pc)
    ensures Statement(c, me, lk).0.drv == c.drv && Statement(c, me, lk).0.popped == c.popped
  {
  }

  /** The reader never has to wait for the queue's lock. */
  lemma LockFree(s: State, r: Tid)
    requires Inv(s) && Single(s, r) && s.d.cur == r && Me(s).drv.Kbd? && Me(s).pc.Down?
    ensures Me(s).pc.s == |s.locks| - 1 && s.semas[|s.locks| - 1].value == 1
  {
    hide ChansOk, WaitOk, WakeOk, SchedInv, QueueOk, PcOk;
    var k := |s.locks| - 1;
    assert DrvOk(Me(s), |s.locks|);
    assert LockOk(s.ctx, s.locks[k], s.semas[k].value, k);
  }

  lemma SingleLib(s: State, r: Tid)
    requires Inv(s) && Single(s, r) && !Me(s).pc.Free?
    ensures Single(LibStep(s), r)
  {
    LibKeeps(s);
    ReaderNotIdle(s);
    hide LibStep, Inv;
    ShapeOf(s);
    if Me(s).drv.Kbd? && Me(s).pc.Down? {
      ReaderIs(s, r);
      LockFree(s, r);
    }
    LibPlaces(s);
    SingleStays(s, LibStep(s), r);
  }

  lemma ReaderIs(s: State, r: Tid)
    requires Shape(s) && Single(s, r) && Me(s).drv.Kbd?
    ensures s.d.cur == r
  {
  }

  lemma ReaderNotIdle(s: State)
    requires Inv(s)
    ensures Me(s).drv.Kbd? ==> !IsIdle(Me(s).pc) && (Me(s).pc.Down? ==> Me(s).pc.s < |s.locks|)
  {
    hide LocksOk, ChansOk, WaitOk, WakeOk, SchedInv, QueueOk, PcOk;
    assert DrvOk(Me(s), |s.locks|);
  }

  lemma SingleKbd(s: State, r: Tid)
    requires Inv(s) && Single(s, r) && Me(s).pc.Free? && Me(s).drv.Kbd?
    ensures Single(KbdStep(s), r)
  {
    if Me(s).drv == Kbd(Entering) { NoConsumer(s); }
    KbdKeeps(s);
    KbdShape(s, r);
  }

  lemma KbdShape(s: State, r: Tid)
    requires Shape(s) && Single(s, r) && Me(s).pc.Free? && Me(s).drv.Kbd? && |KbdStep(s).d.tcbs| == |s.ctx|
    requires Me(s).drv == Kbd(Entering) ==> s.kbd.consumer == None
    ensures Single(KbdStep(s), r)
  {
    hide Block, PcShape;
  }

  lemma SingleKey(s: State, x: char, r: Tid)
    requires Inv(s) && Single(s, r) && !Me(s).drv.Kbd?
    ensures Single(KeyStep(s, x), r)
  {
    KeyKeeps(s, x);
    hide LocksOk, ChansOk, WaitOk, WakeOk, SchedInv, CtxOk, BufferOk, PcShape;
    var n := KeyStep(s, x);
    if r < |s.ctx| && s.ctx[r].drv.Kbd? {
      assert KeySleeps(s, r) <==> s.kbd.consumer == Some(r);
      assert KeySleeps(n, r) <==> n.kbd.consumer == Some(r);
    }
  }

  lemma RequestPlaces(s: State, u: Choice)
    requires Shape(s) && MayChoose(s, u) && (u.Acquire? || u.Release? || u.Transfer? || u.GiveUp? || u.Spawn?)
    ensures SamePlaces(s, RunStep(s, u)) && PopsMarked(s, RunStep(s, u)) && !Me(s).drv.Kbd?
  {
    hide Yield, Start, PcShape;
  }

  lemma DriverPlaces(s: State)
    requires Shape(s) && Me(s).drv.Ide?
    ensures SamePlaces(s, DriverStep(s)) && PopsMarked(s, DriverStep(s))
  {
  }

  lemma TickPlaces(s: State)
    requires Shape(s)
    ensures SamePlaces(s, s.(d := Timer(s.d))) && PopsMarked(s, s.(d := Timer(s.d)))
  {
    hide Timer;
  }

  lemma DiskPlaces(s: State, c: nat)
    requires Shape(s) && c < |s.chans|
    ensures SamePlaces(s, DiskStep(s, c)) && PopsMarked(s, DiskStep(s, c))
  {
    hide UpStep;
    if s.chans[c].expecting {
      var s1 := s.(chans := s.chans[c := s.chans[c].(expecting := false)]);
      UpPlaces(s1, |s.locks| + c);
      forall t: Tid | t < |s.ctx| ensures PopMarked(s, DiskStep(s, c), t) { assert PopMarked(s1, UpStep(s1, |s.locks| + c), t); }
    }
  }

  lemma SingleGetchar(s: State, r: Tid)
    requires Shape(s) && Single(s, r) && Me(s).drv.User? && s.d.cur == r
    ensures Single(SetMe(s, Me(s).(drv := Kbd(Testing))), r)
  {
  }

  lemma SingleStep(s: State, e: Event, r: Tid)
    requires Inv(s) && Single(s, r) && Enabled(s, e) && (e == Event.Run(Getchar) ==> s.d.cur == r)
    ensures Single(Step(s, e), r)
  {
    hide Inv, Single, SamePlaces, LibStep, DriverStep, KbdStep, DiskStep, KeyStep, Timer, Yield, Start;
    StepKeeps(s, e);
    ShapeOf(s);
    match e
    case Tick =>
      TickPlaces(s);
      SingleStays(s, Step(s, e), r);
    case DiskIntr(c) =>
      DiskPlaces(s, c);
      SingleStays(s, Step(s, e), r);
    case KeyIntr(x) => SingleKey(s, x, r);
    case Run(u) =>
      if u.Getchar? {
        SingleGetchar(s, r);
      } else if u.Go? {
        SingleGo(s, r);
      } else {
        RequestPlaces(s, u);
        SingleStays(s, Step(s, e), r);
      }
  }

  lemma SingleGo(s: State, r: Tid)
    requires Inv(s) && Single(s, r) && MayChoose(s, Go)
    ensures Single(RunStep(s, Go), r)
  {
    hide Inv, Single, LibStep, DriverStep, KbdStep;
    ShapeOf(s);
    if !Me(s).pc.Free? {
      SingleLib(s, r);
    } else if Me(s).drv.Kbd? {
      SingleKbd(s, r);
    } else if Me(s).drv.Ide? {
      DriverKeeps(s);
      DriverPlaces(s);
      SingleStays(s, DriverStep(s), r);
    }
  }

  lemma {:induction false} SingleRun(s: State, es: seq<Event>, n: State, r: Tid)
    requires Inv(s) && Single(s, r) && SyncProof.Run(s, es, n) && ReadersIn(s, es, {r})
    ensures Single(n, r) && Inv(n)
    decreases |es|
  {
    hide Inv, Single, Enabled, Step;
    if es != [] {
      StepKeeps(s, es[0]);
      SingleStep(s, es[0], r);
      SingleRun(Step(s, es[0]), es[1..], n, r);
    }
  }

  /** With one reader no wakeup is lost: in every state of every run, a thread asleep in ioq_wait has
      an empty queue before it. */
  lemma ReaderNeverStarves(s: State, es: seq<Event>, n: State, r: Tid, t: Tid)
    requires Boot(s) && SyncProof.Run(s, es, n) && ReadersIn(s, es, {r})
    requires n.kbd.consumer == Some(t)
    ensures t == r && n.kbd.b.data == []
  {
    hide Inv, SyncProof.Run, ReadersIn;
    BootOk(s);
    BootSingle(s, r);
    SingleRun(s, es, n, r);
    ConsumerFresh(n, r, t);
  }

  lemma ConsumerFresh(n: State, r: Tid, t: Tid)
    requires Inv(n) && Single(n, r) && n.kbd.consumer == Some(t)
    ensures t == r && n.kbd.b.data == []
  {
    hide LocksOk, ChansOk, WaitOk, WakeOk, SchedInv, CtxOk, BufferOk;
    assert KeySleeps(n, t);
  }

  lemma BootSingle(s: State, r: Tid)
    requires Boot(s)
    ensures Single(s, r)
  {
  }

  // ----------------------------------------------------------------- any number of readers

  /** A reader that has not been popped from the lock's wait list since its test still has the
      processor and an empty queue, or is on that list; if it sleeps in ioq_wait the queue is empty. */
  ghost predicate Fresh(s: State) {
    && |s.ctx| == |s.d.tcbs|
    && forall t: Tid :: t < |s.ctx| && s.ctx[t].drv.Kbd? && !s.ctx[t].popped ==>
         match s.ctx[t].drv.key
         case Entering => (t == s.d.cur && s.kbd.b.data == []) || (Asleep(s.d.tcbs[t].status) && s.ctx[t].pc.Down?)
         case Waiting => KeySleeps(s, t) ==> s.kbd.b.data == []
         case _ => true
  }

  /** Whoever is on a wait list sleeps inside sema_down, and the other way round. */
  lemma OnList(s: State, i: nat, t: Tid)
    requires Inv(s) && i < |s.semas| && t < |s.ctx|
    ensures t in s.semas[i].waiters <==> Sleeps(s, t, i)
    ensures s.ctx[t].pc.Down? ==> s.ctx[t].pc.s < |s.semas|
  {
    hide LocksOk, ChansOk, WakeOk, SchedInv, QueueOk, CtxOk;
    assert t in s.semas[i].waiters <==> t < |s.ctx| && Sleeps(s, t, i);
    assert PcShape(s.ctx[t].pc, |s.locks|, |s.semas|);
  }

  lemma IsConsumer(s: State, t: Tid)
    requires Inv(s) && t < |s.ctx|
    ensures KeySleeps(s, t) <==> s.kbd.consumer == Some(t)
    ensures t == s.d.cur ==> !Asleep(s.d.tcbs[t].status)
  {
  }

  lemma FreshThread(s: State, n: State, t: Tid)
    requires Inv(s) && Inv(n) && Fresh(s) && PopMarked(s, n, t) && s.ctx[t].drv == Kbd(Entering) && !n.ctx[t].popped
    requires !(t == s.d.cur && s.kbd.b.data == [])
    ensures Asleep(n.d.tcbs[t].status) && n.ctx[t].pc.Down?
  {
    hide Inv;
    ShapeOf(s);
    ShapeOf(n);
    OnList(s, s.ctx[t].pc.s, t);
    OnList(n, s.ctx[t].pc.s, t);
  }

  lemma FreshStays(s: State, n: State)
    requires Inv(s) && Inv(n) && Fresh(s) && SamePlaces(s, n) && PopsMarked(s, n)
    requires Me(s).drv.Kbd? ==> n.d.cur == s.d.cur || Queued(n, s.d.cur)
    ensures Fresh(n)
  {
    hide Inv, Shape;
    ShapeOf(s);
    ShapeOf(n);
    assert |n.ctx| == |n.d.tcbs| by { Sizes(n); }
    forall t: Tid | t < |n.ctx| && n.ctx[t].drv.Kbd? && !n.ctx[t].popped
      ensures n.ctx[t].drv.key == Entering ==> (t == n.d.cur && n.kbd.b.data == []) || (Asleep(n.d.tcbs[t].status) && n.ctx[t].pc.Down?)
      ensures n.ctx[t].drv.key == Waiting && KeySleeps(n, t) ==> n.kbd.b.data == []
    {
      assert PopMarked(s, n, t);
      IsConsumer(s, t);
      IsConsumer(n, t);
      if n.ctx[t].drv.key == Entering {
        if t == s.d.cur && s.kbd.b.data == [] {
          if n.d.cur != s.d.cur {
            var i: nat :| i < |n.semas| && s.d.cur in n.semas[i].waiters;
            OnList(n, i, t);
          }
        } else {
          FreshThread(s, n, t);
        }
      }
    }
  }

  lemma Sizes(s: State)
    requires Shape(s)
    ensures |s.ctx| == |s.d.tcbs| && s.d.cur < |s.ctx|
  {
  }

  /** A step of ioq_getchar itself. */
  lemma FreshKbd(s: State)
    requires Inv(s) && Fresh(s) && Me(s).pc.Free? && Me(s).drv.Kbd?
    ensures Fresh(KbdStep(s))
  {
    KbdKeeps(s);
    KbdFrame(s);
    if Me(s).drv == Kbd(Entering) { NoConsumer(s); }
    var n, me := KbdStep(s), s.d.cur;
    hide Inv, KbdStep;
    ShapeOf(n);
    forall t: Tid | t < |n.ctx| && n.ctx[t].drv.Kbd? && !n.ctx[t].popped
      ensures n.ctx[t].drv.key == Entering ==> (t == n.d.cur && n.kbd.b.data == []) || (Asleep(n.d.tcbs[t].status) && n.ctx[t].pc.Down?)
      ensures n.ctx[t].drv.key == Waiting && KeySleeps(n, t) ==> n.kbd.b.data == []
    {
      IsConsumer(s, t);
      IsConsumer(n, t);
      if t != me && n.ctx[t].drv.key == Entering { FreshThread(s, n, t); }
    }
  }

  lemma KbdFrame(s: State)
    requires Shape(s) && Me(s).pc.Free? && Me(s).drv.Kbd? && (Me(s).drv == Kbd(Entering) ==> s.kbd.consumer == None)
    ensures var n, me := KbdStep(s), s.d.cur;
            && |n.ctx| == |s.ctx| && (forall t: Tid :: t < |s.ctx| && t != me ==> n.ctx[t] == s.ctx[t] && PopMarked(s, n, t))
            && (n.kbd.b.data == s.kbd.b.data || s.kbd.b.data != [])
            && (n.kbd.consumer == if Me(s).drv == Kbd(Entering) then Some(me) else s.kbd.consumer)
            && (n.ctx[me].drv == Kbd(Entering) ==> n.d.cur == me && n.kbd.b.data == [])
            && (n.ctx[me].drv == Kbd(Waiting) ==> Me(s).drv == Kbd(Entering) && n.kbd.b == s.kbd.b && n.ctx[me].popped == Me(s).popped)
  {
    hide Block;
  }

  lemma FreshKey(s: State, x: char)
    requires Inv(s) && Fresh(s) && !Me(s).drv.Kbd?
    ensures Fresh(KeyStep(s, x))
  {
    KeyKeeps(s, x);
    var n := KeyStep(s, x);
    KeyFrame(s, x);
    hide Inv, KeyStep;
    ShapeOf(n);
    forall t: Tid | t < |n.ctx| && n.ctx[t].drv.Kbd? && !n.ctx[t].popped
      ensures n.ctx[t].drv.key == Entering ==> Asleep(n.d.tcbs[t].status) && n.ctx[t].pc.Down?
      ensures n.ctx[t].drv.key == Waiting ==> !KeySleeps(n, t)
    {
      IsConsumer(s, t);
      IsConsumer(n, t);
      if n.ctx[t].drv.key == Entering { FreshThread(s, n, t); }
    }
  }

  lemma KeyFrame(s: State, x: char)
    requires Shape(s)
    ensures var n := KeyStep(s, x);
            && n.ctx == s.ctx && PopsMarked(s, n)
            && (s.kbd.b.data == [] && s.kbd.consumer.Some? && s.kbd.consumer.value < |s.ctx| ==> n.kbd.consumer == None)
            && (n.kbd.consumer.Some? ==> n.kbd.consumer == s.kbd.consumer)
  {
  }

  lemma FreshGo(s: State)
    requires Inv(s) && Fresh(s) && MayChoose(s, Go)
    ensures Fresh(RunStep(s, Go))
  {
    hide Inv, Fresh, LibStep, DriverStep, KbdStep, SamePlaces, PopsMarked;
    ShapeOf(s);
    if !Me(s).pc.Free? {
      LibKeeps(s);
      ReaderNotIdle(s);
      LibPlaces(s);
      FreshStays(s, LibStep(s));
    } else if Me(s).drv.Kbd? {
      FreshKbd(s);
    } else if Me(s).drv.Ide? {
      DriverKeeps(s);
      DriverPlaces(s);
      FreshStays(s, DriverStep(s));
    }
  }

  lemma FreshStep(s: State, e: Event)
    requires Inv(s) && Fresh(s) && Enabled(s, e)
    ensures Fresh(Step(s, e))
  {
    hide Inv, Fresh, SamePlaces, PopsMarked, LibStep, DriverStep, KbdStep, DiskStep, KeyStep, Timer, Yield, Start;
    StepKeeps(s, e);
    ShapeOf(s);
    match e
    case Tick =>
      TickPlaces(s);
      FreshStays(s, Step(s, e));
    case DiskIntr(c) =>
      DiskPlaces(s, c);
      FreshStays(s, Step(s, e));
    case KeyIntr(x) => FreshKey(s, x);
    case Run(u) =>
      if u.Getchar? {
        FreshGetchar(s);
      } else if u.Go? {
        FreshGo(s);
      } else {
        RequestPlaces(s, u);
        FreshStays(s, Step(s, e));
      }
  }

  lemma FreshGetchar(s: State)
    requires Shape(s) && Fresh(s) && Me(s).drv.User?
    ensures Fresh(SetMe(s, Me(s).(drv := Kbd(Testing))))
  {
  }

  lemma {:induction false} FreshRun(s: State, es: seq<Event>, n: State)
    requires Inv(s) && Fresh(s) && SyncProof.Run(s, es, n)
    ensures Fresh(n) && Inv(n)
    decreases |es|
  {
    hide Inv, Fresh, Enabled, Step;
    if es != [] {
      StepKeeps(s, es[0]);
      FreshStep(s, es[0]);
      FreshRun(Step(s, es[0]), es[1..], n);
    }
  }

  /** For any number of readers: a thread that sleeps in ioq_wait although there are bytes has been
      popped from the wait list of the queue's lock after its test for emptiness.  TwoReaders is
      a run in which that happens. */
  lemma StarvesOnlyIfPopped(s: State, es: seq<Event>, n: State, t: Tid)
    requires Boot(s) && SyncProof.Run(s, es, n) && n.kbd.consumer == Some(t) && n.kbd.b.data != []
    ensures t < |n.ctx| && n.ctx[t].drv == Kbd(Waiting) && n.ctx[t].popped
  {
    hide Inv, SyncProof.Run;
    BootOk(s);
    assert Fresh(s);
    FreshRun(s, es, n);
    PoppedConsumer(n, t);
  }

  lemma PoppedConsumer(n: State, t: Tid)
    requires Inv(n) && Fresh(n) && n.kbd.consumer == Some(t) && n.kbd.b.data != []
    ensures t < |n.ctx| && n.ctx[t].drv == Kbd(Waiting) && n.ctx[t].popped
  {
    hide LocksOk, ChansOk, WaitOk, WakeOk, SchedInv, CtxOk, BufferOk;
    assert KeySleeps(n, t);
  }

  // ---------------------------------------------------------------- which bytes get through

  /** What one step does to the bytes: a key pressed is kept if fewer than 63 wait; a byte is taken exactly
      by a thread that tests the queue in ioq_getchar and finds one, and is the next of those put. */
  ghost predicate Passed(s: State, e: Event, n: State) {
    var b, b1 := s.kbd.b, n.kbd.b;
    if e.KeyIntr? then b1.taken == b.taken && b1.put == b.put + Admitted(b, e)
    else
      var gets := e.Run? && s.d.cur < |s.ctx| && s.ctx[s.d.cur].drv == Kbd(Testing) && |b.taken| < |b.put|;
      b1.put == b.put && b1.taken == b.taken + if gets then [b.put[|b.taken|]] else []
  }

  function Admitted(b: Buffer, e: Event): seq<char> {
    if e.KeyIntr? && |b.put| - |b.taken| < 63 then [e.x] else []
  }

  lemma StepPasses(s: State, e: Event)
    requires Inv(s) && Enabled(s, e)
    ensures Passed(s, e, Step(s, e))
  {
    BytesOk(s);
    hide Inv, UpStep, DownStep, Timer, Yield, Start, Block, Unblock, BufferOk, Kept, Fetch;
    if e.KeyIntr? {
      KeptOk(s.kbd.b, e.x);
    } else if !(e.Run? && Me(s).drv == Kbd(Testing)) {
      BytesStay(s, e);
    } else {
      TestingFree(s);
      if s.kbd.b.data != [] { FetchOk(s.kbd.b); }
    }
  }

  lemma BytesOk(s: State)
    requires Inv(s)
    ensures BufferOk(s.kbd.b) && |s.kbd.b.put| == |s.kbd.b.taken| + |s.kbd.b.data|
  {
  }

  lemma TestingFree(s: State)
    requires Inv(s) && Me(s).drv == Kbd(Testing)
    ensures Me(s).pc.Free?
  {
    assert DrvOk(s.ctx[s.d.cur], |s.locks|);
  }

  /** Nothing but the handler and ioq_getchar touches the bytes. */
  lemma BytesStay(s: State, e: Event)
    requires Enabled(s, e) && !e.KeyIntr? && !(e.Run? && Me(s).drv == Kbd(Testing))
    ensures Step(s, e).kbd.b == s.kbd.b
  {
    hide Timer, Yield, Start, Block, Unblock;
  }

  /** The keys pressed during a run that found room. */
  function Accepted(s: State, es: seq<Event>): seq<char>
    decreases |es|
  {
    if es == [] || !Enabled(s, es[0]) then [] else Admitted(s.kbd.b, es[0]) + Accepted(Step(s, es[0]), es[1..])
  }

  /** Over any run the bytes put grow by exactly the keys that found room, in order, and the bytes
      taken are always the oldest of those put: no key is invented, doubled, reordered or, with room,
      dropped. */
  lemma {:induction false} KeysInOrder(s: State, es: seq<Event>, n: State)
    requires Inv(s) && SyncProof.Run(s, es, n)
    ensures n.kbd.b.put == s.kbd.b.put + Accepted(s, es)
    ensures |n.kbd.b.taken| <= |n.kbd.b.put| && n.kbd.b.taken == n.kbd.b.put[..|n.kbd.b.taken|]
    decreases |es|
  {
    hide Inv, Enabled, Step;
    if es == [] {
      BytesOk(s);
    } else {
      StepPasses(s, es[0]);
      StepKeeps(s, es[0]);
      KeysInOrder(Step(s, es[0]), es[1..], n);
    }
  }
}
