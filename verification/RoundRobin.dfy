/** Time slices: how long a ready thread waits when only timer interrupts happen, and the
    conservation of ticks over every run of the machine. */
module RoundRobin {
  import opened Basics
  import opened Scheduler
  import Sync
  import SyncProof

  /** `n` timer interrupts in a row. */
  function Ticked(d: Sched, n: nat): Sched
    requires d.cur < |d.tcbs| && d.idle < |d.tcbs|
    ensures Ticked(d, n).cur < |Ticked(d, n).tcbs| && Ticked(d, n).idle < |Ticked(d, n).tcbs|
    decreases n
  {
    if n == 0 then d else TimerInRange(d); Ticked(Timer(d), n - 1)
  }

  lemma TimerInRange(d: Sched)
    requires d.cur < |d.tcbs| && d.idle < |d.tcbs|
    ensures Timer(d).cur < |Timer(d).tcbs| && Timer(d).idle < |Timer(d).tcbs|
  {
  }

  lemma {:induction false} TickedPlus(d: Sched, m: nat, n: nat)
    requires d.cur < |d.tcbs| && d.idle < |d.tcbs|
    ensures Ticked(Ticked(d, m), n) == Ticked(d, m + n)
    decreases m
  {
    hide Timer;
    if m > 0 {
      TimerInRange(d);
      TickedPlus(Timer(d), m - 1, n);
    }
  }

  /** Interrupts until the thread at position k of the ready list is dispatched. */
  ghost function Latency(d: Sched, k: nat): nat
    requires SchedInv(d) && k < |d.ready|
    decreases k
  {
    if k == 0 then d.tcbs[d.cur].ticks + 1
    else
      assert d.ready[k - 1] in d.ready;
      Latency(d, k - 1) + d.tcbs[d.ready[k - 1]].ticks + 1
  }

  /** What is left of the machine for latency purposes when the running thread's slice ends. */
  ghost predicate Rotated(d: Sched, e: Sched) {
    && SchedInv(d) && SchedInv(e) && Line(e) == Line(d)[1..] + [d.cur] && |e.tcbs| == |d.tcbs|
    && e.tcbs[d.cur].ticks == d.tcbs[d.cur].priority
    && forall t: Tid :: t < |d.tcbs| ==> e.tcbs[t].priority == d.tcbs[t].priority && (t != d.cur ==> e.tcbs[t].ticks == d.tcbs[t].ticks)
  }

  /** During its slice the running thread keeps the processor; the interrupt after its last
      tick rotates the ready list. */
  lemma {:induction false} Slice(d: Sched, m: nat)
    requires SchedInv(d) && m <= d.tcbs[d.cur].ticks + 1
    ensures m <= d.tcbs[d.cur].ticks ==> Ticked(d, m).cur == d.cur
    ensures m == d.tcbs[d.cur].ticks + 1 ==> Rotated(d, Ticked(d, m))
    decreases d.tcbs[d.cur].ticks
  {
    if m > 0 {
      TimerKeeps(d);
      var e := Timer(d);
      TickRotates(d);
      assert e.cur == Line(e)[0];
      if d.tcbs[d.cur].ticks == 0 {
        assert Rotated(d, e);
        assert Ticked(d, 1) == Ticked(e, 0) == e;
      } else {
        assert e.cur == Line(d)[0];
        Slice(e, m - 1);
      }
    }
  }

  lemma RotatedReady(d: Sched, e: Sched)
    requires Rotated(d, e) && d.ready != []
    ensures SchedInv(e) && e.cur == d.ready[0] && e.ready == d.ready[1..] + [d.cur]
  {
    assert Line(e)[0] == Line(d)[1..][0] && Line(e)[1..] == e.ready && Line(d)[1..] == d.ready;
    assert e.ready == (d.ready + [d.cur])[1..];
  }

  lemma {:induction false} LatencyRotated(d: Sched, e: Sched, k: nat)
    requires Rotated(d, e) && 0 < k < |d.ready|
    ensures Latency(d, k) == d.tcbs[d.cur].ticks + 1 + Latency(e, k - 1)
    decreases k
  {
    RotatedReady(d, e);
    assert d.ready[0] in d.ready && d.ready[k - 1] in d.ready;
    assert Latency(d, k) == Latency(d, k - 1) + d.tcbs[d.ready[k - 1]].ticks + 1;
    if k > 1 {
      LatencyRotated(d, e, k - 1);
      assert e.ready[k - 2] == d.ready[k - 1];
      assert d.ready[k - 1] != d.cur;
      assert Latency(e, k - 1) == Latency(e, k - 2) + e.tcbs[e.ready[k - 2]].ticks + 1;
    }
  }

  /** Exact round robin: the thread at position k gets the processor after exactly the sum of
      (ticks + 1) over the running thread and the k threads ahead of it, and not before. */
  lemma {:induction false} RoundRobinLatency(d: Sched, k: nat, m: nat)
    requires SchedInv(d) && k < |d.ready| && m <= Latency(d, k)
    ensures Ticked(d, m).cur == d.ready[k] <==> m == Latency(d, k)
    decreases k
  {
    hide Timer, Rotated, Line;
    var c := d.tcbs[d.cur].ticks + 1;
    InLine(d, k);
    Slice(d, c);
    var e := Ticked(d, c);
    RotatedReady(d, e);
    if m < c {
      Slice(d, m);
      LatencyAtLeast(d, k);
    } else if k > 0 {
      LatencyRotated(d, e, k);
      TickedPlus(d, c, m - c);
      assert e.ready[k - 1] == d.ready[k];
      RoundRobinLatency(e, k - 1, m - c);
    }
  }

  /** A woken thread runs when the running thread's slice is over, and every other ready thread waits
      for its slice in addition, no more. */
  lemma WokenLatency(d: Sched, t: Tid)
    requires SchedInv(d) && t < |d.tcbs| && Asleep(d.tcbs[t].status)
    ensures var e := Unblock(d, t);
            && SchedInv(e) && e.ready == [t] + d.ready && Latency(e, 0) == d.tcbs[d.cur].ticks + 1
            && Ticked(e, d.tcbs[d.cur].ticks + 1).cur == t
            && forall k :: 0 <= k < |d.ready| ==> Latency(e, k + 1) == Latency(d, k) + d.tcbs[t].ticks + 1
  {
    UnblockKeeps(d, t);
    WokenNext(d, t);
    var e := Unblock(d, t);
    RoundRobinLatency(e, 0, Latency(e, 0));
    forall k | 0 <= k < |d.ready| ensures Latency(e, k + 1) == Latency(d, k) + d.tcbs[t].ticks + 1 {
      WokenDelays(d, t, e, k);
    }
  }

  lemma {:induction false} WokenDelays(d: Sched, t: Tid, e: Sched, k: nat)
    requires SchedInv(d) && SchedInv(e) && k < |d.ready| && t < |d.tcbs| && e.cur == d.cur && e.ready == [t] + d.ready && SameSlices(d, e)
    ensures Latency(e, k + 1) == Latency(d, k) + d.tcbs[t].ticks + 1
    decreases k
  {
    hide ReadyList;
    InLine(d, k);
    InLine(e, k + 1);
    InLine(e, 0);
    assert Latency(e, 0) == d.tcbs[d.cur].ticks + 1;
    if k > 0 {
      WokenDelays(d, t, e, k - 1);
      InLine(d, k - 1);
      InLine(e, k);
      assert e.ready[k] == d.ready[k - 1];
    }
  }

  lemma InLine(d: Sched, k: nat)
    requires SchedInv(d) && k < |d.ready|
    ensures d.ready[k] < |d.tcbs| && d.cur < |d.tcbs| && d.ready[k] != d.cur
  {
    assert d.ready[k] in d.ready;
  }

  /** What timer interrupts alone have made of the line when its first k threads have had their turn. */
  ghost predicate Turned(d: Sched, e: Sched, k: nat) {
    && SchedInv(d) && SchedInv(e) && k <= |Line(d)| && Line(e) == Line(d)[k..] + Line(d)[..k] && |e.tcbs| == |d.tcbs|
    && (forall t: Tid :: t < |d.tcbs| ==> e.tcbs[t].priority == d.tcbs[t].priority)
    && (forall t: Tid :: t < |d.tcbs| ==> e.tcbs[t].ticks == if t in Line(d)[..k] then d.tcbs[t].priority else d.tcbs[t].ticks)
  }

  /** Interrupts until the first k threads in line have used up their slices. */
  ghost function Due(d: Sched, k: nat): nat
    requires SchedInv(d) && k <= |Line(d)|
  {
    if k == 0 then 0 else LineInside(d, k - 1); Due(d, k - 1) + d.tcbs[Line(d)[k - 1]].ticks + 1
  }

  lemma LineInside(d: Sched, k: nat)
    requires SchedInv(d) && k < |Line(d)|
    ensures Line(d)[k] < |d.tcbs| && Line(d)[k] !in Line(d)[..k] && d.cur < |d.tcbs| && d.idle < |d.tcbs|
  {
    if k > 0 { assert Line(d)[k] == d.ready[k - 1] && d.ready[k - 1] in d.ready; }
    forall i | 0 <= i < k ensures Line(d)[i] != Line(d)[k] {
      if i > 0 { assert Line(d)[i] == d.ready[i - 1]; }
    }
  }

  lemma RotatedOn(d: Sched, e: Sched, f: Sched, k: nat)
    requires Turned(d, e, k) && k < |Line(d)| && Rotated(e, f)
    ensures Turned(d, f, k + 1)
  {
    hide SchedInv;
    var l := Line(d);
    assert e.cur == Line(e)[0] == l[k];
    assert Line(f) == l[k + 1..] + l[..k + 1];
    assert l[..k + 1] == l[..k] + [l[k]];
  }

  /** A whole round: when the first k threads in line have had their turn they stand behind the
      others in the same order, each with a new slice.  With k the length of the line everybody
      has run once, the line is as it was, and each slice is the thread's priority. */
  lemma {:induction false} Round(d: Sched, k: nat)
    requires SchedInv(d) && k <= |Line(d)|
    ensures d.cur < |d.tcbs| && d.idle < |d.tcbs| && Turned(d, Ticked(d, Due(d, k)), k)
  {
    hide ReadyList, Timer;
    LineInside(d, 0);
    if k == 0 {
      assert Line(d)[0..] + Line(d)[..0] == Line(d);
    } else {
      Round(d, k - 1);
      LineInside(d, k - 1);
      var e := Ticked(d, Due(d, k - 1));
      assert e.cur == Line(e)[0] == Line(d)[k - 1];
      Slice(e, e.tcbs[e.cur].ticks + 1);
      TickedPlus(d, Due(d, k - 1), e.tcbs[e.cur].ticks + 1);
      RotatedOn(d, e, Ticked(e, e.tcbs[e.cur].ticks + 1), k - 1);
    }
  }

  lemma {:induction false} LatencyAtLeast(d: Sched, k: nat)
    requires SchedInv(d) && k < |d.ready|
    ensures Latency(d, k) >= d.tcbs[d.cur].ticks + 1
    decreases k
  {
    if k > 0 {
      assert d.ready[k - 1] in d.ready;
      LatencyAtLeast(d, k - 1);
    }
  }

  // ------------------------------------------------------- conservation of ticks

  ghost function TotalElapsed(tcbs: seq<Tcb>): nat {
    if tcbs == [] then 0 else TotalElapsed(tcbs[..|tcbs| - 1]) + tcbs[|tcbs| - 1].elapsed
  }

  /** All time spent by threads is all time that passed, modulo the 32-bit counters. */
  ghost predicate ClockOk(d: Sched) {
    TotalElapsed(d.tcbs) % WORD == d.now % WORD
  }

  lemma {:induction false} SameTotal(a: seq<Tcb>, b: seq<Tcb>)
    requires |a| == |b| && forall t :: 0 <= t < |a| ==> a[t].elapsed == b[t].elapsed
    ensures TotalElapsed(a) == TotalElapsed(b)
    decreases |a|
  {
    if a != [] {
      SameTotal(a[..|a| - 1], b[..|b| - 1]);
    }
  }

  lemma {:induction false} OneMore(a: seq<Tcb>, t: nat, c: Tcb)
    requires t < |a| && c.elapsed == (a[t].elapsed + 1) % WORD
    ensures TotalElapsed(a[t := c]) % WORD == (TotalElapsed(a) + 1) % WORD
    decreases |a|
  {
    var n := |a| - 1;
    if t == n {
      assert a[t := c][..n] == a[..n];
      var x, y := TotalElapsed(a[..n]), a[t].elapsed + 1;
      assert (x + y % WORD) % WORD == (x + y) % WORD by { ModAdd(x, y); }
    } else {
      assert a[t := c][..n] == a[..n][t := c];
      OneMore(a[..n], t, c);
      var p, q, y := TotalElapsed(a[..n][t := c]), TotalElapsed(a[..n]) + 1, a[n].elapsed;
      ModAdd(y, p);
      ModAdd(y, q);
    }
  }

  lemma ModAdd(x: nat, y: nat)
    ensures (x + y % WORD) % WORD == (x + y) % WORD
  {
  }

  ghost predicate SameTime(d: Sched, e: Sched) {
    && |d.tcbs| == |e.tcbs| && d.now == e.now
    && forall t :: 0 <= t < |d.tcbs| ==> d.tcbs[t].elapsed == e.tcbs[t].elapsed
  }

  lemma SwitchTime(d: Sched)
    requires d.cur < |d.tcbs| && d.idle < |d.tcbs|
    ensures SameTime(d, Block(d)) && SameTime(d, Yield(d))
  {
  }

  lemma TickClock(d: Sched)
    requires SchedInv(d) && ClockOk(d)
    ensures ClockOk(Timer(d))
  {
    var c := d.tcbs[d.cur].(elapsed := (d.tcbs[d.cur].elapsed + 1) % WORD);
    var d1 := d.(tcbs := d.tcbs[d.cur := c], now := (d.now + 1) % WORD);
    OneMore(d.tcbs, d.cur, c);
    ModAdd(1, TotalElapsed(d.tcbs));
    ModAdd(1, d.now);
    assert ClockOk(d1);
    TickTime(d, d1);
    hide Timer;
    SameTotal(d1.tcbs, Timer(d).tcbs);
  }

  lemma TickTime(d: Sched, d1: Sched)
    requires SchedInv(d)
    requires d1 == d.(tcbs := d.tcbs[d.cur := d.tcbs[d.cur].(elapsed := (d.tcbs[d.cur].elapsed + 1) % WORD)], now := (d.now + 1) % WORD)
    ensures SameTime(d1, Timer(d))
  {
  }

  lemma StartClock(d: Sched, p: nat)
    requires ClockOk(d)
    ensures ClockOk(Start(d, p))
  {
  }

  lemma UpTime(s: Sync.State, i: nat)
    requires Sync.Shape(s) && i < |s.semas|
    ensures SameTime(s.d, Sync.UpStep(s, i).d)
  {
    if s.semas[i].value == 0 && s.semas[i].waiters != [] {
      assert s.semas[i].waiters[0] in s.semas[i].waiters;
    }
  }

  lemma LibTime(s: Sync.State)
    requires Sync.Shape(s)
    ensures SameTime(s.d, Sync.LibStep(s).d)
  {
    SwitchTime(s.d);
    hide Block, Sync.UpStep;
    if Sync.Me(s).pc.RelUp? {
      var l, c := Sync.Me(s).pc.l, Sync.Me(s);
      var s1 := Sync.SetLock(Sync.SetMe(s, c.(pc := Sync.Free, held := c.held - multiset{l})), l,
                             s.locks[l].(owner := None));
      UpTime(s1, l);
    }
  }

  lemma RunTime(s: Sync.State, u: Sync.Choice)
    requires Sync.Shape(s) && Sync.MayChoose(s, u) && !u.Spawn?
    ensures SameTime(s.d, Sync.RunStep(s, u).d)
  {
    hide Sync.LibStep, Yield, Sync.DriverNext, Sync.MayChoose;
    LibTime(s);
    SwitchTime(s.d);
  }

  lemma StepClock(s: Sync.State, e: Sync.Event)
    requires Sync.Inv(s) && Sync.Enabled(s, e) && ClockOk(s.d)
    ensures ClockOk(Sync.Step(s, e).d)
  {
    assert SchedInv(s.d) && Sync.Shape(s);
    hide Sync.Inv, SchedInv, Sync.RunStep, Sync.DiskStep, Sync.KeyStep, ClockOk, Timer;
    match e
    case Tick => TickClock(s.d);
    case DiskIntr(c) => DiskClock(s, c);
    case KeyIntr(x) => KeyClock(s, x);
    case Run(u) => RunClock(s, u);
  }

  lemma DiskClock(s: Sync.State, c: nat)
    requires Sync.Shape(s) && c < |s.chans| && ClockOk(s.d)
    ensures ClockOk(Sync.DiskStep(s, c).d)
  {
    hide Sync.UpStep;
    if s.chans[c].expecting {
      var s1 := s.(chans := s.chans[c := s.chans[c].(expecting := false)]);
      UpTime(s1, |s.locks| + c);
      SameTotal(s.d.tcbs, Sync.UpStep(s1, |s.locks| + c).d.tcbs);
    }
  }

  lemma KeyClock(s: Sync.State, x: char)
    requires Sync.Shape(s) && ClockOk(s.d)
    ensures ClockOk(Sync.KeyStep(s, x).d)
  {
    if s.kbd.consumer.Some? && s.kbd.consumer.value < |s.d.tcbs| {
      SameTotal(s.d.tcbs, Unblock(s.d, s.kbd.consumer.value).tcbs);
    }
  }

  lemma RunClock(s: Sync.State, u: Sync.Choice)
    requires Sync.Shape(s) && Sync.MayChoose(s, u) && ClockOk(s.d)
    ensures ClockOk(Sync.RunStep(s, u).d)
  {
    hide Sync.LibStep, Sync.DriverStep, Sync.KbdStep, Yield, Start;
    if u.Spawn? {
      StartClock(s.d, u.priority);
    } else {
      RunTime(s, u);
      SameTotal(s.d.tcbs, Sync.RunStep(s, u).d.tcbs);
    }
  }

  lemma {:induction false} ClockKeeps(s: Sync.State, es: seq<Sync.Event>, n: Sync.State)
    requires Sync.Inv(s) && SyncProof.Run(s, es, n) && ClockOk(s.d)
    ensures ClockOk(n.d)
    decreases |es|
  {
    hide Sync.Inv, Sync.Enabled, Sync.Step, ClockOk;
    if es != [] {
      StepClock(s, es[0]);
      SyncProof.StepKeeps(s, es[0]);
      ClockKeeps(Sync.Step(s, es[0]), es[1..], n);
    }
  }

  /** In every run the elapsed_ticks of all threads add up to the global ticks, mod 2^32. */
  lemma TicksConserved(s: Sync.State, es: seq<Sync.Event>, n: Sync.State)
    requires SyncProof.Boot(s) && SyncProof.Run(s, es, n)
    ensures TotalElapsed(n.d.tcbs) % WORD == n.d.now % WORD
  {
    SyncProof.BootOk(s);
    assert s.d.tcbs[..1] == [Tcb(RUNNING, 31, 31, 0)] && s.d.tcbs[..1][..0] == [];
    assert TotalElapsed(s.d.tcbs) == TotalElapsed(s.d.tcbs[..1]) == 0;
    ClockKeeps(s, es, n);
  }
}
