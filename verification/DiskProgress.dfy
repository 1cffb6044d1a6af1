/** ide_read and ide_write as they advance in the transition system: in every run a request is served
    in whole chunks, and its channel is released only when all its sectors have been moved. */
module DiskProgress {
  import opened Basics
  import opened Scheduler
  import opened Sync
  import SyncProof

  /** Full chunks of 256 sectors so far, or all of the request; a command is under way only while
      sectors are left, and the lock is being released only when none are. */
  predicate OnCourse(v: Drv) {
    v.Ide? ==>
      && 0 < v.cnt && v.done <= v.cnt && (v.done % 256 == 0 || v.done == v.cnt)
      && (v.at == Locking ==> v.done == 0)
      && (v.at == Issue || v.at == Sent || v.at == Wait || v.at == Done ==> v.done < v.cnt)
      && (v.at == Unlocking ==> v.done == v.cnt)
  }

  predicate AllOnCourse(s: State) {
    forall t :: 0 <= t < |s.ctx| ==> OnCourse(s.ctx[t].drv)
  }

  lemma NextOnCourse(c: Ctx, locks: nat)
    requires c.drv.Ide? && OnCourse(c.drv)
    ensures OnCourse(DriverNext(c, locks).drv)
  {
  }

  lemma DownOnCourse(s: State, i: nat)
    requires Inv(s) && AllOnCourse(s) && Me(s).pc.Down? && i == Me(s).pc.s
    ensures AllOnCourse(DownStep(s, i))
  {
    assert PcOk(s.ctx[s.d.cur], |s.locks|);
    hide Block, Inv;
  }

  lemma UpOnCourse(s: State, i: nat)
    requires Shape(s) && i < |s.semas| && AllOnCourse(s)
    ensures AllOnCourse(UpStep(s, i))
  {
    hide Unblock, OnCourse;
    if s.semas[i].value == 0 && s.semas[i].waiters != [] {
      assert s.semas[i].waiters[0] in s.semas[i].waiters;
    }
  }

  lemma LibOnCourse(s: State)
    requires Inv(s) && Shape(s) && AllOnCourse(s)
    ensures AllOnCourse(LibStep(s))
  {
    hide Inv, DownStep, UpStep, Block;
    var c := Me(s);
    match c.pc
    case Down(i, _) => DownOnCourse(s, i);
    case RelUp(l) =>
      var s1 := SetLock(SetMe(s, c.(pc := Free, held := c.held - multiset{l})), l, s.locks[l].(owner := None));
      UpOnCourse(s1, l);
    case _ =>
  }

  lemma StepOnCourse(s: State, e: Event)
    requires Inv(s) && Enabled(s, e) && AllOnCourse(s)
    ensures AllOnCourse(Step(s, e))
  {
    hide Inv, LibStep, UpStep, Timer, Yield, Start, Block, Unblock, DriverNext;
    match e
    case DiskIntr(c) =>
      if s.chans[c].expecting { UpOnCourse(s.(chans := s.chans[c := s.chans[c].(expecting := false)]), |s.locks| + c); }
    case Run(u) =>
      if u.Go? && !Me(s).pc.Free? {
        LibOnCourse(s);
      } else if u.Go? && Me(s).drv.Ide? {
        NextOnCourse(Me(s), |s.locks|);
      }
    case _ =>
  }

  /** In every state of every run every thread in ide_read or ide_write is on course. */
  lemma {:induction false} RunOnCourse(s: State, es: seq<Event>, n: State)
    requires Inv(s) && AllOnCourse(s) && SyncProof.Run(s, es, n)
    ensures AllOnCourse(n)
    decreases |es|
  {
    hide Inv, Enabled, Step, AllOnCourse;
    if es != [] {
      StepOnCourse(s, es[0]);
      SyncProof.StepKeeps(s, es[0]);
      RunOnCourse(Step(s, es[0]), es[1..], n);
    }
  }

  lemma RequestsServedWhole(s: State, es: seq<Event>, n: State, t: Tid)
    requires SyncProof.Boot(s) && SyncProof.Run(s, es, n) && t < |n.ctx|
    ensures OnCourse(n.ctx[t].drv)
  {
    SyncProof.BootOk(s);
    RunOnCourse(s, es, n);
  }
}
