/** With two readers a wakeup can be lost: a run from boot at whose end thread 2 sleeps in ioq_wait
    before a byte.  Thread 0 waits for a key and thread 2 for the queue's lock; two keys arrive;
    thread 0 releases the lock and takes the first; thread 2 gets the lock and sleeps without testing
    again.  Thread 1 is idle; there is one lock and no channel. */
module TwoReaders {
  import opened Basics
  import opened Scheduler
  import opened Ioqueue
  import opened Sync
  import SyncProof
  import opened KeyboardProof

  /** Status of the three threads, ready list, running thread, and where each thread stands. */
  function S(a: Status, i: Status, b: Status, ready: seq<Tid>, cur: Tid, main: Ctx, idle: Pc, other: Ctx, lk: Lock, sem: Sema, q: Queue): State {
    State(Sched([Tcb(a, 31, 31, 0), Tcb(i, 10, 10, 0), Tcb(b, 10, 10, 0)], ready, cur, 1, 0, Live),
          [main, Ctx(idle, User, multiset{}, false), other], [lk], [sem], [], q)
  }

  function Out(): Ctx { Ctx(Free, User, multiset{}, false) }
  function In(pc: Pc, at: KeyAt, popped: bool): Ctx { Ctx(pc, Kbd(at), multiset{}, popped) }
  function Held(pc: Pc, at: KeyAt, popped: bool): Ctx { Ctx(pc, Kbd(at), multiset{0}, popped) }

  function S0(): State {
    State(Sched([Tcb(RUNNING, 31, 31, 0), Tcb(READY, 10, 10, 0)], [1], 0, 1, 0, Live), [Out(), Ctx(IdleBlock, User, multiset{}, false)],
          [Lock(None, 0, None)], [Sema(1, [])], [], Queue(Buffer("", "", ""), None))
  }
  function S1(): State { S(RUNNING, READY, READY, [1, 2], 0, Out(), IdleBlock, Out(), Lock(None, 0, None), Sema(1, []), Queue(Buffer("", "", ""), None)) }
  function S2(): State { S(RUNNING, READY, READY, [1, 2], 0, In(Free, Testing, false), IdleBlock, Out(), Lock(None, 0, None), Sema(1, []), Queue(Buffer("", "", ""), None)) }
  function S3(): State { S(RUNNING, READY, READY, [1, 2], 0, In(AcqTest(0), Entering, false), IdleBlock, Out(), Lock(None, 0, None), Sema(1, []), Queue(Buffer("", "", ""), None)) }
  function S4(): State { S(RUNNING, READY, READY, [1, 2], 0, In(Down(0, false), Entering, false), IdleBlock, Out(), Lock(None, 0, None), Sema(1, []), Queue(Buffer("", "", ""), None)) }
  function S5(): State { S(RUNNING, READY, READY, [1, 2], 0, In(AcqHolder(0), Entering, false), IdleBlock, Out(), Lock(None, 0, Some(0)), Sema(0, []), Queue(Buffer("", "", ""), None)) }
  function S6(): State { S(RUNNING, READY, READY, [1, 2], 0, In(AcqCheck(0), Entering, false), IdleBlock, Out(), Lock(Some(0), 0, Some(0)), Sema(0, []), Queue(Buffer("", "", ""), None)) }
  function S7(): State { S(RUNNING, READY, READY, [1, 2], 0, In(AcqRepeat(0), Entering, false), IdleBlock, Out(), Lock(Some(0), 0, Some(0)), Sema(0, []), Queue(Buffer("", "", ""), None)) }
  function S8(): State { S(RUNNING, READY, READY, [1, 2], 0, Held(Free, Entering, false), IdleBlock, Out(), Lock(Some(0), 1, Some(0)), Sema(0, []), Queue(Buffer("", "", ""), None)) }
  function S9(): State { S(BLOCKED, RUNNING, READY, [2], 1, Held(Free, Waiting, false), IdleBlock, Out(), Lock(Some(0), 1, Some(0)), Sema(0, []), Queue(Buffer("", "", ""), Some(0))) }
  function S10(): State { S(BLOCKED, BLOCKED, RUNNING, [], 2, Held(Free, Waiting, false), IdleHalt, Out(), Lock(Some(0), 1, Some(0)), Sema(0, []), Queue(Buffer("", "", ""), Some(0))) }
  function S11(): State { S(BLOCKED, BLOCKED, RUNNING, [], 2, Held(Free, Waiting, false), IdleHalt, In(Free, Testing, false), Lock(Some(0), 1, Some(0)), Sema(0, []), Queue(Buffer("", "", ""), Some(0))) }
  function S12(): State { S(BLOCKED, BLOCKED, RUNNING, [], 2, Held(Free, Waiting, false), IdleHalt, In(AcqTest(0), Entering, false), Lock(Some(0), 1, Some(0)), Sema(0, []), Queue(Buffer("", "", ""), Some(0))) }
  function S13(): State { S(BLOCKED, BLOCKED, RUNNING, [], 2, Held(Free, Waiting, false), IdleHalt, In(Down(0, false), Entering, false), Lock(Some(0), 1, Some(0)), Sema(0, []), Queue(Buffer("", "", ""), Some(0))) }
  function S14(): State { S(BLOCKED, RUNNING, BLOCKED, [], 1, Held(Free, Waiting, false), IdleHalt, In(Down(0, false), Entering, false), Lock(Some(0), 1, Some(0)), Sema(0, [2]), Queue(Buffer("", "", ""), Some(0))) }
  function S15(): State { S(READY, RUNNING, BLOCKED, [0], 1, Held(Free, Waiting, false), IdleHalt, In(Down(0, false), Entering, false), Lock(Some(0), 1, Some(0)), Sema(0, [2]), Queue(Buffer("x", "x", ""), None)) }
  function S16(): State { S(READY, RUNNING, BLOCKED, [0], 1, Held(Free, Waiting, false), IdleHalt, In(Down(0, false), Entering, false), Lock(Some(0), 1, Some(0)), Sema(0, [2]), Queue(Buffer("xy", "xy", ""), None)) }
  function S17(): State { S(READY, RUNNING, BLOCKED, [0], 1, Held(Free, Waiting, false), IdleBlock, In(Down(0, false), Entering, false), Lock(Some(0), 1, Some(0)), Sema(0, [2]), Queue(Buffer("xy", "xy", ""), None)) }
  function S18(): State { S(RUNNING, BLOCKED, BLOCKED, [], 0, Held(Free, Waiting, false), IdleHalt, In(Down(0, false), Entering, false), Lock(Some(0), 1, Some(0)), Sema(0, [2]), Queue(Buffer("xy", "xy", ""), None)) }
  function S19(): State { S(RUNNING, BLOCKED, BLOCKED, [], 0, Held(RelCheck(0), Leaving, false), IdleHalt, In(Down(0, false), Entering, false), Lock(Some(0), 1, Some(0)), Sema(0, [2]), Queue(Buffer("xy", "xy", ""), None)) }
  function S20(): State { S(RUNNING, BLOCKED, BLOCKED, [], 0, Held(RelTest(0), Leaving, false), IdleHalt, In(Down(0, false), Entering, false), Lock(Some(0), 1, Some(0)), Sema(0, [2]), Queue(Buffer("xy", "xy", ""), None)) }
  function S21(): State { S(RUNNING, BLOCKED, BLOCKED, [], 0, Held(RelOne(0), Leaving, false), IdleHalt, In(Down(0, false), Entering, false), Lock(Some(0), 1, Some(0)), Sema(0, [2]), Queue(Buffer("xy", "xy", ""), None)) }
  function S22(): State { S(RUNNING, BLOCKED, BLOCKED, [], 0, Held(RelHolder(0), Leaving, false), IdleHalt, In(Down(0, false), Entering, false), Lock(Some(0), 1, Some(0)), Sema(0, [2]), Queue(Buffer("xy", "xy", ""), None)) }
  function S23(): State { S(RUNNING, BLOCKED, BLOCKED, [], 0, Held(RelRepeat(0), Leaving, false), IdleHalt, In(Down(0, false), Entering, false), Lock(None, 1, Some(0)), Sema(0, [2]), Queue(Buffer("xy", "xy", ""), None)) }
  function S24(): State { S(RUNNING, BLOCKED, BLOCKED, [], 0, Held(RelUp(0), Leaving, false), IdleHalt, In(Down(0, false), Entering, false), Lock(None, 0, Some(0)), Sema(0, [2]), Queue(Buffer("xy", "xy", ""), None)) }
  function S25(): State { S(RUNNING, BLOCKED, READY, [2], 0, In(Free, Leaving, false), IdleHalt, In(Down(0, true), Entering, true), Lock(None, 0, None), Sema(1, []), Queue(Buffer("xy", "xy", ""), None)) }
  function S26(): State { S(RUNNING, BLOCKED, READY, [2], 0, In(Free, Testing, false), IdleHalt, In(Down(0, true), Entering, true), Lock(None, 0, None), Sema(1, []), Queue(Buffer("xy", "xy", ""), None)) }
  function S27(): State { S(RUNNING, BLOCKED, READY, [2], 0, Out(), IdleHalt, In(Down(0, true), Entering, true), Lock(None, 0, None), Sema(1, []), Queue(Buffer("y", "xy", "x"), None)) }
  function S28(): State { S(READY, BLOCKED, RUNNING, [0], 2, Out(), IdleHalt, In(Down(0, true), Entering, true), Lock(None, 0, None), Sema(1, []), Queue(Buffer("y", "xy", "x"), None)) }
  function S29(): State { S(READY, BLOCKED, RUNNING, [0], 2, Out(), IdleHalt, In(AcqHolder(0), Entering, true), Lock(None, 0, Some(2)), Sema(0, []), Queue(Buffer("y", "xy", "x"), None)) }
  function S30(): State { S(READY, BLOCKED, RUNNING, [0], 2, Out(), IdleHalt, In(AcqCheck(0), Entering, true), Lock(Some(2), 0, Some(2)), Sema(0, []), Queue(Buffer("y", "xy", "x"), None)) }
  function S31(): State { S(READY, BLOCKED, RUNNING, [0], 2, Out(), IdleHalt, In(AcqRepeat(0), Entering, true), Lock(Some(2), 0, Some(2)), Sema(0, []), Queue(Buffer("y", "xy", "x"), None)) }
  function S32(): State { S(READY, BLOCKED, RUNNING, [0], 2, Out(), IdleHalt, Held(Free, Entering, true), Lock(Some(2), 1, Some(2)), Sema(0, []), Queue(Buffer("y", "xy", "x"), None)) }
  function S33(): State { S(RUNNING, BLOCKED, BLOCKED, [], 0, Out(), IdleHalt, Held(Free, Waiting, true), Lock(Some(2), 1, Some(2)), Sema(0, []), Queue(Buffer("y", "xy", "x"), Some(2))) }

  /** One event more at the end of a run. */
  lemma {:induction false} RunMore(s: State, es: seq<Event>, n: State, e: Event)
    requires SyncProof.Run(s, es, n) && ReadersIn(s, es, {0, 2}) && Enabled(n, e) && (e == Event.Run(Getchar) ==> n.d.cur in {0, 2})
    ensures SyncProof.Run(s, es + [e], Step(n, e)) && ReadersIn(s, es + [e], {0, 2})
    decreases |es|
  {
    hide Enabled, Step;
    if es == [] {
      assert [e][1..] == [] && [] + [e] == [e];
      assert SyncProof.Run(Step(n, e), [], Step(n, e)) && ReadersIn(Step(n, e), [], {0, 2});
    } else {
      RunMore(Step(s, es[0]), es[1..], n, e);
      assert (es + [e])[1..] == es[1..] + [e];
    }
  }

  ghost predicate Reaches(es: seq<Event>, s: State) {
    SyncProof.Run(S0(), es, s) && ReadersIn(S0(), es, {0, 2})
  }

  lemma Then(es: seq<Event>, s: State, e: Event, n: State) returns (more: seq<Event>)
    requires Reaches(es, s) && Enabled(s, e) && Step(s, e) == n && (e == Event.Run(Getchar) ==> s.d.cur in {0, 2})
    ensures Reaches(more, n)
  {
    hide Enabled, Step, S0;
    RunMore(S0(), es, s, e);
    more := es + [e];
  }

  /** The empty multiset with one lock, and without it again. */
  lemma OneHeld()
    ensures multiset{}[0 := 1] == multiset{0} && multiset{0} - multiset{0} == multiset{}
  {
  }

  lemma Nothing()
    ensures Reaches([], S0())
  {
  }

  lemma At1() returns (es: seq<Event>)
    ensures Reaches(es, S1())
  {
    hide Reaches;
    Nothing();
    es := [];
    es := Then(es, S0(), Event.Run(Spawn(10)), S1());
  }

  lemma At3() returns (es: seq<Event>)
    ensures Reaches(es, S3())
  {
    hide Reaches;
    es := At1();
    es := Then(es, S1(), Event.Run(Getchar), S2());
    es := Then(es, S2(), Event.Run(Go), S3());
  }

  lemma At5() returns (es: seq<Event>)
    ensures Reaches(es, S5())
  {
    hide Reaches;
    es := At3();
    es := Then(es, S3(), Event.Run(Go), S4());
    es := Then(es, S4(), Event.Run(Go), S5());
  }

  lemma At7() returns (es: seq<Event>)
    ensures Reaches(es, S7())
  {
    hide Reaches;
    es := At5();
    es := Then(es, S5(), Event.Run(Go), S6());
    es := Then(es, S6(), Event.Run(Go), S7());
  }

  lemma At8() returns (es: seq<Event>)
    ensures Reaches(es, S8())
  {
    hide Reaches;
    OneHeld();
    es := At7();
    es := Then(es, S7(), Event.Run(Go), S8());
  }

  lemma At9() returns (es: seq<Event>)
    ensures Reaches(es, S9())
  {
    hide Reaches;
    es := At8();
    es := Then(es, S8(), Event.Run(Go), S9());
  }

  lemma At10() returns (es: seq<Event>)
    ensures Reaches(es, S10())
  {
    hide Reaches;
    es := At9();
    es := Then(es, S9(), Event.Run(Go), S10());
  }

  lemma At11() returns (es: seq<Event>)
    ensures Reaches(es, S11())
  {
    hide Reaches;
    es := At10();
    es := Then(es, S10(), Event.Run(Getchar), S11());
  }

  lemma At13() returns (es: seq<Event>)
    ensures Reaches(es, S13())
  {
    hide Reaches;
    es := At11();
    es := Then(es, S11(), Event.Run(Go), S12());
    es := Then(es, S12(), Event.Run(Go), S13());
  }

  lemma At14() returns (es: seq<Event>)
    ensures Reaches(es, S14())
  {
    hide Reaches;
    assert [] + [2] == [2];
    es := At13();
    es := Then(es, S13(), Event.Run(Go), S14());
  }

  lemma At16() returns (es: seq<Event>)
    ensures Reaches(es, S16())
  {
    hide Reaches;
    es := At14();
    es := Then(es, S14(), KeyIntr('x'), S15());
    es := Then(es, S15(), KeyIntr('y'), S16());
  }

  lemma At17() returns (es: seq<Event>)
    ensures Reaches(es, S17())
  {
    hide Reaches;
    es := At16();
    es := Then(es, S16(), Event.Run(Go), S17());
  }

  lemma At18() returns (es: seq<Event>)
    ensures Reaches(es, S18())
  {
    hide Reaches;
    es := At17();
    es := Then(es, S17(), Event.Run(Go), S18());
  }

  lemma At20() returns (es: seq<Event>)
    ensures Reaches(es, S20())
  {
    hide Reaches;
    es := At18();
    es := Then(es, S18(), Event.Run(Go), S19());
    es := Then(es, S19(), Event.Run(Go), S20());
  }

  lemma At22() returns (es: seq<Event>)
    ensures Reaches(es, S22())
  {
    hide Reaches;
    es := At20();
    es := Then(es, S20(), Event.Run(Go), S21());
    es := Then(es, S21(), Event.Run(Go), S22());
  }

  lemma At23() returns (es: seq<Event>)
    ensures Reaches(es, S23())
  {
    hide Reaches;
    es := At22();
    es := Then(es, S22(), Event.Run(Go), S23());
  }

  lemma At24() returns (es: seq<Event>)
    ensures Reaches(es, S24())
  {
    hide Reaches;
    es := At23();
    es := Then(es, S23(), Event.Run(Go), S24());
  }

  lemma At25() returns (es: seq<Event>)
    ensures Reaches(es, S25())
  {
    hide Reaches;
    OneHeld();
    assert [2][1..] == [] && [2] + [] == [2];
    es := At24();
    es := Then(es, S24(), Event.Run(Go), S25());
  }

  lemma At27() returns (es: seq<Event>)
    ensures Reaches(es, S27())
  {
    hide Reaches;
    es := At25();
    es := Then(es, S25(), Event.Run(Go), S26());
    es := Then(es, S26(), Event.Run(Go), S27());
  }

  lemma At29() returns (es: seq<Event>)
    ensures Reaches(es, S29())
  {
    hide Reaches;
    es := At27();
    es := Then(es, S27(), Event.Run(GiveUp), S28());
    es := Then(es, S28(), Event.Run(Go), S29());
  }

  lemma At31() returns (es: seq<Event>)
    ensures Reaches(es, S31())
  {
    hide Reaches;
    es := At29();
    es := Then(es, S29(), Event.Run(Go), S30());
    es := Then(es, S30(), Event.Run(Go), S31());
  }

  lemma At32() returns (es: seq<Event>)
    ensures Reaches(es, S32())
  {
    hide Reaches;
    OneHeld();
    es := At31();
    es := Then(es, S31(), Event.Run(Go), S32());
  }

  lemma At33() returns (es: seq<Event>)
    ensures Reaches(es, S33())
  {
    hide Reaches;
    es := At32();
    es := Then(es, S32(), Event.Run(Go), S33());
  }

  ghost predicate Starved(s: State) {
    s.kbd.consumer.Some? && s.kbd.b.data != []
  }

  /** A run from boot with at most k readers at whose end one of them sleeps before a byte. */
  ghost predicate Starves(k: nat, s: State, es: seq<Event>, n: State, readers: set<Tid>) {
    |readers| <= k && SyncProof.Boot(s) && SyncProof.Run(s, es, n) && ReadersIn(s, es, readers) && Starved(n)
  }

  /** Two readers, and one of them sleeps although there is a byte. */
  lemma WakeupLost() returns (s: State, es: seq<Event>, n: State)
    ensures Starves(2, s, es, n, {0, 2})
    ensures n.kbd.consumer == Some(2) && n.kbd.b.data == "y" && |n.ctx| == 3 && n.ctx[2].popped
  {
    es := At33();
    s, n := S0(), S33();
  }

  /** A wakeup can be lost if and only if at least two threads read. */
  lemma LosesIff(k: nat)
    ensures (exists s, es, n, readers :: Starves(k, s, es, n, readers)) <==> k >= 2
  {
    if k >= 2 {
      var s, es, n := WakeupLost();
      assert Starves(k, s, es, n, {0, 2});
    } else {
      forall s, es, n, readers | Starves(k, s, es, n, readers) ensures false { FewReaders(k, s, es, n, readers); }
    }
  }

  lemma FewReaders(k: nat, s: State, es: seq<Event>, n: State, readers: set<Tid>)
    requires k < 2
    ensures !Starves(k, s, es, n, readers)
  {
    hide SyncProof.Run, ReadersIn, SyncProof.Boot;
    if Starves(k, s, es, n, readers) {
      var r: Tid := if readers == {} then 0 else var r :| r in readers; r;
      assert readers <= {r} by { AtMostOne(readers, r); }
      ReadersMore(s, es, readers, {r});
      ReaderNeverStarves(s, es, n, r, n.kbd.consumer.value);
    }
  }

  lemma AtMostOne(readers: set<Tid>, r: Tid)
    requires |readers| <= 1 && (readers == {} || r in readers)
    ensures readers <= {r}
  {
    if x :| x in readers && x != r { assert |{x, r}| == 2 && {x, r} <= readers; Smaller({x, r}, readers); }
  }

  lemma Smaller(a: set<Tid>, b: set<Tid>)
    requires a <= b
    ensures |a| <= |b|
  {
    assert b == a + (b - a);
  }
}
