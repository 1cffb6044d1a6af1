/** thread/sync.c, the channel protocol of device/ide.c and the keyboard queue's sleeping and waking
    (device/ioqueue.c) on top of the scheduler.

    A transition system whose atomic steps are the interrupt-off sections and the single
    statements between them.  `Ctx.pc` is where a thread stands inside the synchronisation
    library, `Ctx.drv` where it stands inside ide_read, ide_write or ioq_getchar, `Ctx.held` the
    multiset of its unmatched lock_acquire calls.  `Lock.owner`, `Chan.cmd` and what the keyboard
    queue has put and taken are history variables. */
module Sync {
  import opened Basics
  import opened Scheduler
  import Transfer
  import opened Ioqueue

  const UINT_MAX: nat := 0xffff_ffff

  /** Semaphore `l < |locks|` belongs to lock `l`; semaphore `|locks| + c` is channel c's disk_done.
      The last lock is the keyboard queue's own; nothing else uses it. */
  datatype Sema = Sema(value: nat, waiters: seq<Tid>)
  datatype Lock = Lock(holder: Option<Tid>, repeat: nat, owner: Option<Tid>)
  datatype Chan = Chan(expecting: bool, cmd: Option<Tid>)

  /** kbd_buf: its bytes and ioq->consumer.  The handler never waits, so ioq->producer stays NULL. */
  datatype Queue = Queue(b: Buffer, consumer: Option<Tid>)

  datatype Pc =
    | Free
    | AcqTest(l: nat)    // line 59
    | AcqAgain(l: nat)   // line 60
    | Down(s: nat, woken: bool)  // line 25, `woken` after having been popped by sema_up
    | AcqHolder(l: nat)  // line 64
    | AcqCheck(l: nat)   // line 65
    | AcqRepeat(l: nat)  // line 66
    | RelCheck(l: nat)   // line 72
    | RelTest(l: nat)    // line 74
    | RelAgain(l: nat)   // line 75
    | RelOne(l: nat)     // line 78
    | RelHolder(l: nat)  // line 80
    | RelRepeat(l: nat)  // line 81
    | RelUp(l: nat)      // line 82
    | IdleBlock | IdleHalt

  datatype At = Locking | Loop | Issue | Sent | Wait | Done | Unlocking

  datatype KeyAt =
    | Testing    // line 54
    | Entering   // line 55, up to the call of ioq_wait
    | Waiting    // in thread_block, line 40
    | Leaving    // line 57

  /** Position in ide_read (write = false) or ide_write (write = true) on channel c, or in
      ioq_getchar, which runs with interrupts off. */
  datatype Drv = User | Ide(c: nat, write: bool, cnt: nat, done: nat, at: At) | Kbd(key: KeyAt)

  /** `popped` is a history variable: the thread has been taken off a wait list since it last began
      to wait for the keyboard. */
  datatype Ctx = Ctx(pc: Pc, drv: Drv, held: multiset<nat>, popped: bool)

  datatype State = State(d: Sched, ctx: seq<Ctx>, locks: seq<Lock>, semas: seq<Sema>, chans: seq<Chan>, kbd: Queue)

  datatype Choice = Go | Acquire(l: nat) | Release(l: nat) | GiveUp
                  | Transfer(c: nat, write: bool, cnt: nat) | Getchar | Spawn(priority: nat)

  datatype Event = Run(u: Choice) | Tick | DiskIntr(c: nat) | KeyIntr(x: char)

  // ------------------------------------------------------------------- shape

  predicate PcShape(pc: Pc, locks: nat, semas: nat) {
    match pc
    case Free | IdleBlock | IdleHalt => true
    case Down(s, _) => s < semas
    case _ => pc.l < locks
  }

  predicate Shape(s: State) {
    && |s.ctx| == |s.d.tcbs| && s.d.cur < |s.ctx| && s.d.idle < |s.ctx|
    && |s.chans| < |s.locks| && |s.semas| == |s.locks| + |s.chans|
    && (forall t :: 0 <= t < |s.ctx| ==> PcShape(s.ctx[t].pc, |s.locks|, |s.semas|))
    && (forall t :: 0 <= t < |s.ctx| && s.ctx[t].drv.Ide? ==> s.ctx[t].drv.c < |s.chans|)
    && (forall i, t :: 0 <= i < |s.semas| && t in s.semas[i].waiters ==> t < |s.ctx|)
    && s.d.halt == Live
  }

  function Me(s: State): Ctx
    requires Shape(s)
  {
    s.ctx[s.d.cur]
  }

  function SetMe(s: State, c: Ctx): State
    requires Shape(s)
  {
    s.(ctx := s.ctx[s.d.cur := c])
  }

  function Goto(s: State, pc: Pc): State
    requires Shape(s)
  {
    SetMe(s, Me(s).(pc := pc))
  }

  function Fail(s: State, line: nat): State {
    s.(d := s.d.(halt := Stopped("thread/sync.c", line)))
  }

  // ------------------------------------------------------- semaphores and locks

  /** One pass through the loop of sema_down: sleep, or take the semaphore. */
  function DownStep(s: State, i: nat): State
    requires Shape(s) && i < |s.semas|
  {
    var sem, me := s.semas[i], s.d.cur;
    if sem.value == 0 then
      if me in sem.waiters then Fail(s, 26)
      else Goto(s, Down(i, false)).(semas := s.semas[i := Sema(0, sem.waiters + [me])], d := Block(s.d))
    else
      var s1 := s.(semas := s.semas[i := sem.(value := sem.value - 1)]);
      if sem.value - 1 != 0 then Fail(s1, 35)
      else if i < |s.locks| then
        Goto(s1, AcqHolder(i)).(locks := s.locks[i := s.locks[i].(owner := Some(me))])
      else
        var c := i - |s.locks|;
        var drv := if Me(s).drv.Ide? then Me(s).drv.(at := Done) else Me(s).drv;
        SetMe(s1, Me(s).(pc := Free, drv := drv)).(chans := s.chans[c := s.chans[c].(cmd := None)])
  }

  /** sema_up: wakes the first waiter but does not hand the semaphore over to it. */
  function UpStep(s: State, i: nat): State
    requires Shape(s) && i < |s.semas|
  {
    var sem := s.semas[i];
    if sem.value != 0 then Fail(s, 43)
    else if sem.waiters == [] then s.(semas := s.semas[i := sem.(value := 1)])
    else
      var t := sem.waiters[0];
      assert t in sem.waiters;
      s.(semas := s.semas[i := Sema(1, sem.waiters[1..])], d := Unblock(s.d, t),
         ctx := s.ctx[t := s.ctx[t].(pc := Down(i, true), popped := true)])
  }

  function SetLock(s: State, l: nat, lk: Lock): State
    requires l < |s.locks|
  {
    s.(locks := s.locks[l := lk])
  }

  /** The ASSERT a statement of lock_acquire or lock_release would trip over, 0 if none. */
  function Tripped(c: Ctx, me: Tid, lk: Lock): nat {
    match c.pc
    case AcqCheck(_) => if lk.repeat != 0 then 65 else 0
    case RelCheck(_) => if lk.holder != Some(me) then 72 else 0
    case RelOne(_) => if lk.repeat != 1 then 78 else 0
    case _ => 0
  }

  predicate LockStatement(pc: Pc) {
    !pc.Free? && !pc.Down? && !pc.RelUp? && !pc.IdleBlock? && !pc.IdleHalt?
  }

  /** One statement of lock_acquire or lock_release that touches only the lock's own fields. */
  function Statement(c: Ctx, me: Tid, lk: Lock): (Ctx, Lock)
    requires LockStatement(c.pc)
  {
    var l := c.pc.l;
    match c.pc
    case AcqTest(_) => (c.(pc := if lk.holder == Some(me) then AcqAgain(l) else Down(l, false)), lk)
    case AcqAgain(_) => (c.(pc := Free, held := c.held[l := c.held[l] + 1]), lk.(repeat := lk.repeat + 1))
    case AcqHolder(_) => (c.(pc := AcqCheck(l)), lk.(holder := Some(me)))
    case AcqCheck(_) => (c.(pc := AcqRepeat(l)), lk)
    case AcqRepeat(_) => (c.(pc := Free, held := c.held[l := c.held[l] + 1]), lk.(repeat := 1))
    case RelCheck(_) => (c.(pc := RelTest(l)), lk)
    case RelTest(_) => (c.(pc := if lk.repeat > 1 then RelAgain(l) else RelOne(l)), lk)
    case RelAgain(_) => (c.(pc := Free, held := c.held - multiset{l}), lk.(repeat := Decrement(lk.repeat)))
    case RelOne(_) => (c.(pc := RelHolder(l)), lk)
    case RelHolder(_) => (c.(pc := RelRepeat(l)), lk.(holder := None))
    case RelRepeat(_) => (c.(pc := RelUp(l)), lk.(repeat := 0))
  }

  /** `--` on a uint32_t. */
  function Decrement(n: nat): nat {
    if n == 0 then UINT_MAX else n - 1
  }

  /** The running thread advances inside the library. */
  function LibStep(s: State): State
    requires Shape(s)
  {
    var me, c := s.d.cur, Me(s);
    match c.pc
    case Free => s
    case Down(i, _) => DownStep(s, i)
    case RelUp(l) => UpStep(SetLock(SetMe(s, c.(pc := Free, held := c.held - multiset{l})), l,
                                    s.locks[l].(owner := None)), l)
    case IdleBlock => Goto(s, IdleHalt).(d := Block(s.d))
    case IdleHalt => Goto(s, IdleBlock)
    case _ =>
      var lk := s.locks[c.pc.l];
      if Tripped(c, me, lk) != 0 then Fail(s, Tripped(c, me, lk))
      else SetLock(SetMe(s, Statement(c, me, lk).0), c.pc.l, Statement(c, me, lk).1)
  }

  // ------------------------------------------------------------------ the driver

  /** Where a thread in ide_read or ide_write goes next when it is outside the library. */
  function DriverNext(c: Ctx, locks: nat): Ctx
    requires c.drv.Ide?
  {
    var v := c.drv;
    match v.at
    case Locking => c.(drv := v.(at := Loop))
    case Loop => if v.done < v.cnt then c.(drv := v.(at := Issue))
                 else c.(pc := RelCheck(v.c), drv := v.(at := Unlocking))
    case Issue => c.(drv := v.(at := Sent))
    case Sent => c.(pc := Down(locks + v.c, false), drv := v.(at := Wait))
    case Wait => c
    case Done => c.(drv := v.(at := Loop, done := v.done + Transfer.ChunkSize(v.done, v.cnt)))
    case Unlocking => c.(drv := User)
  }

  /** The running thread advances in the driver; cmd_out sets expecting_intr. */
  function DriverStep(s: State): State
    requires Shape(s) && Me(s).drv.Ide?
  {
    var n := SetMe(s, DriverNext(Me(s), |s.locks|));
    if Me(s).drv.at == Issue then n.(chans := s.chans[Me(s).drv.c := Chan(true, Some(s.d.cur))]) else n
  }

  // ---------------------------------------------------------------- the keyboard queue

  /** The running thread advances in ioq_getchar. */
  function KbdStep(s: State): State
    requires Shape(s) && Me(s).drv.Kbd?
  {
    var me, c, k := s.d.cur, Me(s), |s.locks| - 1;
    match c.drv.key
    case Testing =>
      if s.kbd.b.data == [] then SetMe(s, c.(pc := AcqTest(k), drv := Kbd(Entering), popped := false))
      else SetMe(s, c.(drv := User)).(kbd := s.kbd.(b := Fetch(s.kbd.b)))
    case Entering =>
      if s.kbd.consumer.Some? then s.(d := s.d.(halt := Stopped("device/ioqueue.c", 38)))
      else SetMe(s, c.(drv := Kbd(Waiting))).(kbd := s.kbd.(consumer := Some(me)), d := Block(s.d))
    case Waiting => SetMe(s, c.(pc := RelCheck(k), drv := Kbd(Leaving)))
    case Leaving => SetMe(s, c.(drv := Kbd(Testing)))
  }

  /** The keyboard handler: ioq_putchar unless the queue is full, which wakes the consumer. */
  function KeyStep(s: State, x: char): State
    requires Shape(s)
  {
    var n := s.(kbd := s.kbd.(b := Kept(s.kbd.b, x)));
    if |s.kbd.b.data| == 63 || s.kbd.consumer.None? || s.kbd.consumer.value >= |s.d.tcbs| then n
    else n.(kbd := n.kbd.(consumer := None), d := Unblock(s.d, s.kbd.consumer.value))
  }

  /** What the thread's own program asks for; correctly paired users release what they hold. */
  predicate MayChoose(s: State, u: Choice)
    requires Shape(s)
  {
    var c := Me(s);
    if c.pc.Free? && c.drv.User? then
      match u
      case Acquire(l) => l < |s.locks| - 1 && c.held[l] < UINT_MAX
      case Release(l) => l < |s.locks| - 1 && c.held[l] > 0
      case Transfer(i, _, cnt) => i < |s.chans| && cnt > 0 && c.held[i] < UINT_MAX
      case _ => true
    else if c.pc.Free? then u == Go || (u == GiveUp && c.drv.Ide? && c.drv.at == if c.drv.write then Sent else Done)
    else u == Go
  }

  function RunStep(s: State, u: Choice): State
    requires Shape(s) && MayChoose(s, u)
  {
    var c := Me(s);
    match u
    case Go => if !c.pc.Free? then LibStep(s) else if c.drv.Ide? then DriverStep(s) else if c.drv.Kbd? then KbdStep(s) else s
    case Acquire(l) => Goto(s, AcqTest(l))
    case Release(l) => Goto(s, RelCheck(l))
    case GiveUp => s.(d := Yield(s.d))
    case Transfer(i, w, cnt) => SetMe(s, c.(pc := AcqTest(i), drv := Ide(i, w, cnt, 0, Locking)))
    case Getchar => SetMe(s, c.(drv := Kbd(Testing)))
    case Spawn(p) => s.(d := Start(s.d, p), ctx := s.ctx + [Ctx(Free, User, multiset{}, false)])
  }

  /** intr_hd_handler: an interrupt nobody expects is ignored. */
  function DiskStep(s: State, c: nat): State
    requires Shape(s) && c < |s.chans|
  {
    if s.chans[c].expecting
    then UpStep(s.(chans := s.chans[c := s.chans[c].(expecting := false)]), |s.locks| + c)
    else s
  }

  /** A thread woken inside sema_down re-tests the value before interrupts come back on; in
      ioq_getchar they are off throughout. */
  predicate InterruptsOn(c: Ctx) {
    !(c.pc.Down? && c.pc.woken) && !c.drv.Kbd?
  }

  predicate Enabled(s: State, e: Event) {
    && Shape(s)
    && match e
       case Run(u) => MayChoose(s, u)
       case Tick => InterruptsOn(Me(s))
       case DiskIntr(c) => c < |s.chans| && InterruptsOn(Me(s))
       case KeyIntr(_) => InterruptsOn(Me(s))
  }

  function Step(s: State, e: Event): State
    requires Enabled(s, e)
  {
    match e
    case Run(u) => RunStep(s, u)
    case Tick => s.(d := Timer(s.d))
    case DiskIntr(c) => DiskStep(s, c)
    case KeyIntr(x) => KeyStep(s, x)
  }

  // --------------------------------------------------------------- the invariant

  predicate IsIdle(pc: Pc) {
    pc.IdleBlock? || pc.IdleHalt?
  }

  predicate Acquiring(pc: Pc) {
    pc.AcqTest? || pc.AcqAgain? || pc.AcqHolder? || pc.AcqCheck? || pc.AcqRepeat?
  }

  predicate Releasing(pc: Pc) {
    pc.RelCheck? || pc.RelTest? || pc.RelAgain? || pc.RelOne? || pc.RelHolder? || pc.RelRepeat? || pc.RelUp?
  }

  /** Between the outermost lock_acquire's sema_down and the matching sema_up. */
  predicate Owns(c: Ctx, l: nat) {
    c.held[l] > 0 || ((c.pc.AcqHolder? || c.pc.AcqCheck? || c.pc.AcqRepeat?) && c.pc.l == l)
  }

  function HolderOf(c: Ctx, t: Tid, l: nat): Option<Tid> {
    if (c.pc.AcqHolder? || c.pc.RelRepeat? || c.pc.RelUp?) && c.pc.l == l then None else Some(t)
  }

  function RepeatOf(c: Ctx, l: nat): nat {
    if c.pc == RelUp(l) then 0 else c.held[l]
  }

  ghost predicate LockOk(ctx: seq<Ctx>, lk: Lock, value: nat, l: nat) {
    && value == (if lk.owner.None? then 1 else 0)
    && (forall t: Tid :: t < |ctx| ==> (Owns(ctx[t], l) <==> lk.owner == Some(t)))
    && match lk.owner
       case None => lk.holder == None && lk.repeat == 0
       case Some(t) => t < |ctx| && lk.holder == HolderOf(ctx[t], t, l) && lk.repeat == RepeatOf(ctx[t], l)
  }

  /** What the position of a thread says about its own unmatched acquires. */
  predicate PcOk(c: Ctx, locks: nat) {
    match c.pc
    case AcqTest(l) => c.held[l] < UINT_MAX
    case AcqAgain(l) => 0 < c.held[l] < UINT_MAX
    case Down(i, _) => if i < locks then c.held[i] == 0 else c.drv.Ide? && c.drv.at == Wait && i == locks + c.drv.c
    case AcqHolder(l) => c.held[l] == 0
    case AcqCheck(l) => c.held[l] == 0
    case AcqRepeat(l) => c.held[l] == 0
    case RelCheck(l) => c.held[l] > 0
    case RelTest(l) => c.held[l] > 0
    case RelAgain(l) => c.held[l] > 1
    case RelOne(l) => c.held[l] == 1
    case RelHolder(l) => c.held[l] == 1
    case RelRepeat(l) => c.held[l] == 1
    case RelUp(l) => c.held[l] == 1
    case _ => true
  }

  /** Inside lock_acquire or lock_release of lock l. */
  predicate AtLock(pc: Pc, l: nat) {
    ((Acquiring(pc) || Releasing(pc)) && pc.l == l) || (pc.Down? && pc.s == l)
  }

  predicate DrvOk(c: Ctx, locks: nat) {
    match c.drv
    case User => KeyFree(c, locks)
    case Ide(_, _, _, _, _) => KeyFree(c, locks) && IdeOk(c, locks)
    case Kbd(_) => KeyOk(c, locks)
  }

  /** The thread has nothing to do with the keyboard queue's lock. */
  predicate KeyFree(c: Ctx, locks: nat) {
    locks > 0 && c.held[locks - 1] == 0 && !AtLock(c.pc, locks - 1)
  }

  predicate KeyOk(c: Ctx, locks: nat)
    requires c.drv.Kbd?
  {
    locks > 0 &&
    var held := c.held[locks - 1];
    match c.drv.key
    case Testing => c.pc.Free? && held == 0
    case Entering => if c.pc.Free? then held == 1 else held == 0 && AtLock(c.pc, locks - 1) && !Releasing(c.pc)
    case Waiting => c.pc.Free? && held == 1
    case Leaving => if c.pc.Free? then held == 0 else held == 1 && Releasing(c.pc) && c.pc.l == locks - 1
  }

  predicate IdeOk(c: Ctx, locks: nat)
    requires c.drv.Ide?
  {
    match c.drv.at
    case Locking => (Acquiring(c.pc) && c.pc.l == c.drv.c) || (c.pc.Down? && c.pc.s == c.drv.c)
                    || (c.pc.Free? && c.held[c.drv.c] > 0)
    case Wait => c.pc.Down? && c.pc.s == locks + c.drv.c && c.held[c.drv.c] > 0
    case Unlocking => c.pc.Free? || (Releasing(c.pc) && c.pc.l == c.drv.c)
    case _ => c.pc.Free? && c.held[c.drv.c] > 0
  }

  ghost predicate CtxOk(s: State)
    requires Shape(s)
  {
    && (forall t :: 0 <= t < |s.ctx| ==> PcOk(s.ctx[t], |s.locks|) && DrvOk(s.ctx[t], |s.locks|))
    && (forall t: Tid :: t < |s.ctx| ==> (IsIdle(s.ctx[t].pc) <==> t == s.d.idle))
    && s.ctx[s.d.idle].drv.User?
  }

  ghost predicate LocksOk(s: State)
    requires Shape(s)
  {
    forall l :: 0 <= l < |s.locks| ==> LockOk(s.ctx, s.locks[l], s.semas[l].value, l)
  }

  /** From cmd_out to the return of sema_down(&disk_done). */
  predicate Awaits(c: Ctx, i: nat) {
    c.drv.Ide? && c.drv.c == i && (c.drv.at == Sent || c.drv.at == Wait)
  }

  ghost predicate ChanOk(ctx: seq<Ctx>, ch: Chan, value: nat, i: nat) {
    && (if ch.expecting then 1 else 0) + value == (if ch.cmd.Some? then 1 else 0)
    && (forall t: Tid :: t < |ctx| ==> (Awaits(ctx[t], i) <==> ch.cmd == Some(t)))
    && (ch.cmd.Some? ==> ch.cmd.value < |ctx|)
  }

  ghost predicate ChansOk(s: State)
    requires Shape(s)
  {
    forall i :: 0 <= i < |s.chans| ==> ChanOk(s.ctx, s.chans[i], s.semas[|s.locks| + i].value, i)
  }

  predicate Sleeps(s: State, t: Tid, i: nat)
    requires t < |s.ctx| && |s.ctx| == |s.d.tcbs|
  {
    Asleep(s.d.tcbs[t].status) && s.ctx[t].pc.Down? && s.ctx[t].pc.s == i
  }

  /** A wait list holds exactly the threads asleep inside sema_down on that semaphore. */
  ghost predicate WaitOk(s: State)
    requires Shape(s)
  {
    && (forall i :: 0 <= i < |s.semas| ==> Distinct(s.semas[i].waiters))
    && (forall i, t: Tid :: 0 <= i < |s.semas| ==>
          (t in s.semas[i].waiters <==> t < |s.ctx| && Sleeps(s, t, i)))
    && (forall t: Tid :: t < |s.ctx| && t != s.d.idle && Asleep(s.d.tcbs[t].status) ==> s.ctx[t].pc.Down? || s.ctx[t].drv == Kbd(Waiting))
    && (forall t: Tid :: t < |s.ctx| && s.ctx[t].pc.Down? && s.ctx[t].pc.woken ==> !Asleep(s.d.tcbs[t].status))
  }

  /** No lost wakeup. */
  ghost predicate WakeOk(s: State)
    requires Shape(s)
  {
    forall i :: 0 <= i < |s.semas| && s.semas[i].value > 0 && s.semas[i].waiters != [] ==> Retester(s, i)
  }

  ghost predicate Retester(s: State, i: nat) {
    exists t :: 0 <= t < |s.ctx| && s.ctx[t].pc == Down(i, true)
  }

  predicate KeySleeps(s: State, t: Tid)
    requires t < |s.ctx| && |s.ctx| == |s.d.tcbs|
  {
    Asleep(s.d.tcbs[t].status) && s.ctx[t].drv == Kbd(Waiting)
  }

  /** ioq->consumer is exactly the thread asleep in ioq_wait. */
  ghost predicate QueueOk(s: State)
    requires Shape(s)
  {
    && BufferOk(s.kbd.b) && (s.kbd.consumer.Some? ==> s.kbd.consumer.value < |s.ctx|)
    && (forall t: Tid :: t < |s.ctx| ==> (KeySleeps(s, t) <==> s.kbd.consumer == Some(t)))
  }

  ghost predicate Inv(s: State) {
    Shape(s) && SchedInv(s.d) && CtxOk(s) && LocksOk(s) && ChansOk(s) && WaitOk(s) && WakeOk(s) && QueueOk(s)
  }
}
