/** The wait lists of thread/sync.c are queues: over every run, whoever has waited longest is woken
    first. */
module WaitOrder {
  import opened Basics
  import opened Scheduler
  import opened Sync
  import SyncProof

  /** What one step does to a wait list: nothing, or the running thread, which finds the value 0 and
      falls asleep, joins at the end, or the first thread leaves and is the next to run. */
  ghost predicate Queued(s: State, n: State, i: nat)
    requires i < |s.semas| && i < |n.semas|
  {
    var w, w1 := s.semas[i].waiters, n.semas[i].waiters;
    || w1 == w
    || (w1 == w + [s.d.cur] && s.semas[i].value == 0 && s.d.cur < |n.d.tcbs| && Asleep(n.d.tcbs[s.d.cur].status))
    || (w != [] && w1 == w[1..] && Line(n.d) == [s.d.cur, w[0]] + s.d.ready)
  }

  lemma NotIdle(s: State)
    requires Inv(s) && Me(s).pc.Down?
    ensures s.d.cur != s.d.idle && SchedInv(s.d)
  {
  }

  lemma DownQueues(s: State, k: nat, i: nat)
    requires Inv(s) && k < |s.semas| && i < |s.semas| && Me(s).pc.Down?
    ensures |DownStep(s, k).semas| == |s.semas| && Queued(s, DownStep(s, k), i)
  {
    NotIdle(s);
    hide Block, SchedInv, CtxOk, LocksOk, ChansOk, WaitOk, WakeOk, QueueOk;
    BlockKeeps(s.d);
  }

  /** sema_up; s1 is s but for the locks, the channels and the caller's own position. */
  lemma UpQueues(s: State, s1: State, k: nat, i: nat)
    requires Inv(s) && Shape(s1) && s1.semas == s.semas && s1.d == s.d && k < |s.semas| && i < |s.semas|
    ensures |UpStep(s1, k).semas| == |s.semas| && Queued(s, UpStep(s1, k), i)
  {
    FirstSleeps(s, k);
    hide Block, CtxOk, LocksOk, ChansOk, WaitOk, WakeOk, QueueOk;
    var w := s.semas[k].waiters;
    if s.semas[k].value == 0 && w != [] { WokenNext(s.d, w[0]); }
  }

  lemma FirstSleeps(s: State, k: nat)
    requires Inv(s) && k < |s.semas|
    ensures var w := s.semas[k].waiters; w != [] ==> w[0] < |s.d.tcbs| && Asleep(s.d.tcbs[w[0]].status)
  {
    var w := s.semas[k].waiters;
    if w != [] { assert w[0] in w && Sleeps(s, w[0], k); }
  }

  lemma LibQueues(s: State, i: nat)
    requires Inv(s) && i < |s.semas|
    ensures |LibStep(s).semas| == |s.semas| && Queued(s, LibStep(s), i)
  {
    hide CtxOk, LocksOk, ChansOk, WaitOk, WakeOk, QueueOk, Block, DownStep, UpStep, SchedInv, Queued;
    var c := Me(s);
    match c.pc
    case Down(k, _) => DownQueues(s, k, i);
    case RelUp(l) =>
      var s1 := SetLock(SetMe(s, c.(pc := Free, held := c.held - multiset{l})), l, s.locks[l].(owner := None));
      UpQueues(s, s1, l, i);
    case _ => SameQueue(s, LibStep(s), i);
  }

  lemma SameQueue(s: State, n: State, i: nat)
    requires i < |s.semas| && n.semas == s.semas
    ensures Queued(s, n, i)
  {
  }

  lemma DiskQueues(s: State, c: nat, i: nat)
    requires Inv(s) && i < |s.semas| && c < |s.chans|
    ensures |DiskStep(s, c).semas| == |s.semas| && Queued(s, DiskStep(s, c), i)
  {
    hide CtxOk, LocksOk, ChansOk, WaitOk, WakeOk, QueueOk, UpStep, SchedInv, Queued;
    var s1 := s.(chans := s.chans[c := s.chans[c].(expecting := false)]);
    if s.chans[c].expecting { UpQueues(s, s1, |s.locks| + c, i); } else { SameQueue(s, s, i); }
  }

  /** Every step treats every wait list as a queue. */
  lemma StepQueues(s: State, e: Event, i: nat)
    requires Inv(s) && Enabled(s, e) && i < |s.semas|
    ensures |Step(s, e).semas| == |s.semas| && Queued(s, Step(s, e), i)
  {
    hide Inv, LibStep, DiskStep, Queued, Timer, Yield, Start, Block, Unblock;
    match e
    case DiskIntr(c) => DiskQueues(s, c, i);
    case Run(u) =>
      if u.Go? && !Me(s).pc.Free? { LibQueues(s, i); } else { SameQueue(s, Step(s, e), i); }
    case _ => SameQueue(s, Step(s, e), i);
  }

  function Waiting(s: State, i: nat): seq<Tid> {
    if i < |s.semas| then s.semas[i].waiters else []
  }

  /** The threads that begin to wait for semaphore i during a run, in the order in which they do. */
  function Came(s: State, es: seq<Event>, i: nat): seq<Tid>
    decreases |es|
  {
    if es == [] || !Enabled(s, es[0]) then []
    else
      var n := Step(s, es[0]);
      (if |Waiting(n, i)| > |Waiting(s, i)| then [s.d.cur] else []) + Came(n, es[1..], i)
  }

  /** The threads woken from semaphore i during a run: each is put first in line behind the running one. */
  function Woken(s: State, es: seq<Event>, i: nat): seq<Tid>
    decreases |es|
  {
    if es == [] || !Enabled(s, es[0]) then []
    else
      var n := Step(s, es[0]);
      (if |Waiting(n, i)| < |Waiting(s, i)| && n.d.ready != [] then [n.d.ready[0]] else []) + Woken(n, es[1..], i)
  }

  lemma Cons(x: Tid, a: seq<Tid>, b: seq<Tid>, c: seq<Tid>, d: seq<Tid>)
    requires a + b == c + d
    ensures ([x] + a) + b == ([x] + c) + d
  {
    assert ([x] + a) + b == [x] + (a + b);
    assert ([x] + c) + d == [x] + (c + d);
  }

  /** First come, first served: over any run, whoever was woken, followed by whoever still waits, are
      whoever waited at the start, followed by whoever came, in the same order. */
  lemma {:induction false} FirstComeFirstServed(s: State, es: seq<Event>, n: State, i: nat)
    requires Inv(s) && SyncProof.Run(s, es, n) && i < |s.semas|
    ensures Woken(s, es, i) + Waiting(n, i) == Waiting(s, i) + Came(s, es, i)
    decreases |es|
  {
    hide Inv, Enabled, Step;
    if es != [] {
      var m := Step(s, es[0]);
      StepQueues(s, es[0], i);
      SyncProof.StepKeeps(s, es[0]);
      FirstComeFirstServed(m, es[1..], n, i);
      var w, w1 := Waiting(s, i), Waiting(m, i);
      if |w1| < |w| {
        assert Line(m.d)[1] == m.d.ready[0] == w[0];
        assert w == [w[0]] + w1;
        assert Woken(s, es, i) == [w[0]] + Woken(m, es[1..], i) && Came(s, es, i) == Came(m, es[1..], i);
        Cons(w[0], Woken(m, es[1..], i), Waiting(n, i), w1, Came(m, es[1..], i));
      } else if |w1| > |w| {
        assert w + ([s.d.cur] + Came(m, es[1..], i)) == w1 + Came(m, es[1..], i);
      } else {
        assert Woken(s, es, i) == Woken(m, es[1..], i) && Came(s, es, i) == Came(m, es[1..], i);
      }
    }
  }
}
