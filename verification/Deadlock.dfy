// The verdict of schedule when no process can run.
module Deadlock {
  import opened Base
  import opened Semaphore
  import opened ProcTree
  import opened Spec
  import opened Invariant
  import opened Theorems

  // No process runs, and none waits for a device or for the clock.
  ghost predicate Stuck(s: State)
    requires |s.sem| > CLOCK
  {
    s.run == [] && forall a | 0 <= a <= CLOCK :: s.sem[a].q == []
  }

  // A process that waits for a device or for the clock waits for nothing else.
  ghost predicate Sole(s: State) {
    forall a, p | 0 <= a <= CLOCK && a < |s.sem| && p in s.sem[a].q :: WaitsFor(s, p) == {a}
  }

  // The nucleus reports normal termination exactly when every process entry is free.
  lemma NormalIffAllFree(s: State)
    requires Inv(s) && s.run == []
    ensures Schedule(s) == Normal <==> forall p | IsPid(p) :: p in s.free
  {
    forall p | IsPid(p) ensures Placed(s, p) && (p in s.free <==> WaitsFor(s, p) == {}) {
      assert Placed(s, p);
    }
    forall a | 0 <= a < |s.sem|
      ensures s.sem[a].q != [] ==> IsPid(s.sem[a].q[0]) && a in WaitsFor(s, s.sem[a].q[0])
    {
      assert s.sem[a].q != [] ==> s.sem[a].q[0] in s.sem[a].q;
    }
  }

  lemma StuckStep(s: State, e: Event)
    requires Inv(s) && Stuck(s) && Enabled(s, e)
    ensures Stuck(Next(s, e)) && Next(s, e).free == s.free
    ensures forall a | 0 <= a < |s.sem| :: Next(s, e).sem[a].q == s.sem[a].q
  {
    match e
    case ETick => assert Balanced(s.sem[CLOCK]);
    case EDevInt(dev, r) => assert Balanced(s.sem[dev]);
    case _ =>
  }

  lemma {:induction false} StuckForever(s: State, es: seq<Event>)
    requires Inv(s) && Stuck(s) && Legal(s, es)
    ensures Stuck(Reached(s, es)) && Reached(s, es).free == s.free
    ensures |Reached(s, es).sem| == |s.sem|
    ensures forall a | 0 <= a < |s.sem| :: Reached(s, es).sem[a].q == s.sem[a].q
    decreases |es|
  {
    if es != [] {
      StuckStep(s, es[0]);
      StepInv(s, es[0]);
      StuckForever(Next(s, es[0]), es[1..]);
    }
  }

  // After a verdict of deadlock some process is live, and whatever interrupts follow, no
  // process ever runs again and the verdict stays.
  lemma DeadlockSound(s: State, es: seq<Event>)
    requires Inv(s) && Schedule(s) == Verdict.Deadlock && Legal(s, es)
    ensures exists p :: IsPid(p) && p !in Reached(s, es).free
    ensures Reached(s, es).run == [] && Schedule(Reached(s, es)) == Verdict.Deadlock
  {
    StuckForever(s, es);
    var r := Reached(s, es);
    var a :| 0 <= a < |s.sem| && s.sem[a].q != [];
    assert r.sem[a].q != [];
    NormalIffAllFree(r);
  }

  // ---------- sleeping is right exactly when an interrupt can help ----------

  lemma {:induction false} OpsQueues(s: State, p: int, ops: seq<Vpop>, a: int, x: int)
    requires Addressed(s, ops) && 0 <= a < |s.sem| && x in Ops(s, p, ops).sem[a].q
    ensures x in s.sem[a].q || x == p
  {
    if ops != [] {
      var n := |ops| - 1;
      if x !in s.sem[a].q && x != p {
        assert x !in Ops(s, p, ops[..n]).sem[a].q by {
          if x in Ops(s, p, ops[..n]).sem[a].q { OpsQueues(s, p, ops[..n], a, x); }
        }
      }
    }
  }

  // Only the caller joins queues, and only those of user semaphores or of one device or clock.
  lemma StepSole(s: State, e: Event)
    requires Inv(s) && Sole(s) && Enabled(s, e)
    ensures Sole(Next(s, e))
  {
    var r := Next(s, e);
    forall a, p | 0 <= a <= CLOCK && a < |r.sem| && p in r.sem[a].q ensures WaitsFor(r, p) == {a} {
      hide Inv, Sole;
      match e
      case ESemOp(ops) => SemOpSole(s, ops, a, p);
      case EWaitClock => WaitClockSole(s, a, p);
      case EWaitIo(dev) => WaitIoSole(s, dev, a, p);
      case ETerminate => TerminateSole(s, a, p);
      case _ => OtherSole(s, e, a, p);
    }
  }

  lemma WaitClockSole(s: State, a: int, p: int)
    requires Inv(s) && Sole(s) && s.run != [] && 0 <= a <= CLOCK && p in WaitClock(s).sem[a].q
    ensures WaitsFor(WaitClock(s), p) == {a}
  {
    WaitSole(s, CLOCK, a, p);
  }

  lemma WaitIoSole(s: State, dev: int, a: int, p: int)
    requires Inv(s) && Sole(s) && Enabled(s, EWaitIo(dev)) && 0 <= a <= CLOCK
    requires a < |Next(s, EWaitIo(dev)).sem| && p in Next(s, EWaitIo(dev)).sem[a].q
    ensures WaitsFor(Next(s, EWaitIo(dev)), p) == {a}
  {
    if s.sem[dev].val == 1 {
      assert WaitsFor(Next(s, EWaitIo(dev)), p) == WaitsFor(s, p);
    } else {
      WaitSole(s, dev, a, p);
    }
  }

  lemma TerminateSole(s: State, a: int, p: int)
    requires Inv(s) && Sole(s) && s.run != [] && 0 <= a <= CLOCK && p in Terminate(s).sem[a].q
    ensures WaitsFor(Terminate(s), p) == {a}
  {
    assert s.run[0] in s.run;
    var vs := Victims(s.tree, s.run[0]);
    WithoutMembers(s.sem[a].q, Elements(vs));
    GoneWaits(s, Elements(vs), vs, p);
    assert WaitsFor(Terminate(s), p) == WaitsFor(Gone(s, Elements(vs), vs), p);
  }

  // Create and the interrupts let nobody wait.
  lemma OtherSole(s: State, e: Event, a: int, p: int)
    requires Inv(s) && Sole(s) && Enabled(s, e) && (e.ECreate? || e.ETick? || e.EDevInt?)
    requires 0 <= a <= CLOCK && a < |Next(s, e).sem| && p in Next(s, e).sem[a].q
    ensures WaitsFor(Next(s, e), p) == {a}
  {
    hide Inv, Sole, WaitsFor;
    OtherQueues(s, e);
    FewerWaits(s, Next(s, e), p);
    SoleAt(s, a, p);
    assert a in WaitsFor(Next(s, e), p);
  }

  lemma OtherQueues(s: State, e: Event)
    requires Inv(s) && Enabled(s, e) && (e.ECreate? || e.ETick? || e.EDevInt?)
    ensures |Next(s, e).sem| == |s.sem| && |s.sem| > CLOCK
    ensures forall b, x | 0 <= b < |s.sem| && x in Next(s, e).sem[b].q :: x in s.sem[b].q
  {
    if e.EDevInt? { assert Balanced(s.sem[e.dev]); }
    hide Queues, Devices, Forest, Placed, WaitsFor;
  }

  lemma FewerWaits(s: State, r: State, p: int)
    requires |r.sem| == |s.sem| && forall b, x | 0 <= b < |s.sem| && x in r.sem[b].q :: x in s.sem[b].q
    ensures WaitsFor(r, p) <= WaitsFor(s, p)
  {
  }

  lemma SoleAt(s: State, a: int, p: int)
    requires Sole(s) && 0 <= a <= CLOCK && a < |s.sem| && p in s.sem[a].q
    ensures WaitsFor(s, p) == {a}
  {
  }

  lemma SemOpSole(s: State, ops: seq<Vpop>, a: int, p: int)
    requires Inv(s) && Sole(s) && Enabled(s, ESemOp(ops))
    requires 0 <= a <= CLOCK && p in SemOp(s, ops).sem[a].q
    ensures WaitsFor(SemOp(s, ops), p) == {a}
  {
    var cur, r := s.run[0], SemOp(s, ops);
    OpsSem(s, cur, ops);
    assert cur in s.run && Placed(s, cur);
    assert p in s.sem[a].q && a in WaitsFor(s, p) && WaitsFor(s, p) == {a};
    forall b | b in WaitsFor(r, p) ensures b in WaitsFor(s, p) {
      OpsQueues(s, cur, ops, b, p);
    }
  }

  lemma WaitSole(s: State, c: int, a: int, p: int)
    requires Inv(s) && Sole(s) && s.run != [] && 0 <= c <= CLOCK && s.sem[c].val <= 0
    requires 0 <= a <= CLOCK && p in Wait(s, c).sem[a].q
    ensures WaitsFor(Wait(s, c), p) == {a}
  {
    var cur, r := s.run[0], Wait(s, c);
    assert cur in s.run && Placed(s, cur);
    WaitsForUpdate(s, c, P(s.sem[c], cur), p);
    assert WaitsFor(r, p) == WaitsFor(s.(sem := s.sem[c := P(s.sem[c], cur)]), p);
  }

  // A device interrupt releases the process that waits for the device, to the end of the
  // running queue.
  lemma DeviceWakes(s: State, dev: int, r: Regs)
    requires Inv(s) && Sole(s) && 0 <= dev < NDEV && s.sem[dev].q != []
    ensures Enabled(s, EDevInt(dev, r)) && Next(s, EDevInt(dev, r)).run == s.run + [s.sem[dev].q[0]]
  {
    assert Balanced(s.sem[dev]);
    var p := s.sem[dev].q[0];
    assert p in s.sem[dev].q && IsPid(p);
    var s1 := s.(regs := s.regs[p := r]);
    SameQueues(s, s1);
    assert WaitsFor(s1, p) == WaitsFor(s, p);
    assert !IsPid(ENULL);
    UnlockRun(s1, dev, ENULL);
  }

  ghost predicate OnlyTicks(es: seq<Event>) {
    forall e | e in es :: e == ETick
  }

  // Enough clock interrupts release a process that waits for the clock.
  lemma {:induction false} ClockWakes(s: State) returns (es: seq<Event>)
    requires Inv(s) && Sole(s) && s.run == [] && s.sem[CLOCK].q != []
    ensures OnlyTicks(es) && Legal(s, es) && Reached(s, es).run != []
    decreases CLOCK_PERIOD - s.clock_count
  {
    var s1 := Tick(s);
    StepInv(s, ETick);
    assert Balanced(s.sem[CLOCK]);
    if s.clock_count + QUANTUM >= CLOCK_PERIOD {
      var p := s.sem[CLOCK].q[0];
      assert p in s.sem[CLOCK].q;
      var s0 := s.(run := [], clock_count := 0);
      SameQueues(s, s0);
      assert WaitsFor(s0, p) == WaitsFor(s, p);
      assert !IsPid(ENULL);
      UnlockRun(s0, CLOCK, ENULL);
      es := [ETick];
      assert Legal(s1, es[1..]) && Reached(s1, es[1..]) == s1;
    } else {
      StepSole(s, ETick);
      var fs := ClockWakes(s1);
      es := [ETick] + fs;
      assert es[1..] == fs;
    }
  }

  // One interrupt of a device that is waited for is such a run.
  lemma DeviceRun(s: State, d: int) returns (es: seq<Event>)
    requires Inv(s) && Sole(s) && 0 <= d < NDEV && s.sem[d].q != []
    ensures Legal(s, es) && Reached(s, es).run != []
  {
    var r := Regs(0, 0);
    DeviceWakes(s, d, r);
    es := [EDevInt(d, r)];
    StepInv(s, es[0]);
    hide Inv, Next, Sole;
    assert es[1..] == [];
    assert Legal(Next(s, es[0]), es[1..]) && Reached(Next(s, es[0]), es[1..]) == Next(s, es[0]);
  }

  // The nucleus sleeps exactly when some run of interrupts makes a process runnable again.
  lemma SleepIffWakeable(s: State)
    requires Inv(s) && Sole(s) && s.run == []
    ensures Schedule(s) in {SleepTimed, SleepDevice} <==> exists es :: Legal(s, es) && Reached(s, es).run != []
  {
    hide Next, Sole, Queues, Placed, Forest, Devices, Closed;
    if s.sem[CLOCK].q != [] {
      var es := ClockWakes(s);
    } else if d :| 0 <= d < NDEV && s.sem[d].q != [] {
      var es := DeviceRun(s, d);
    } else {
      forall es | Legal(s, es) ensures Reached(s, es).run == [] { StuckForever(s, es); }
    }
  }

  // While nobody runs or waits for the clock, clock interrupts make nobody run.
  lemma {:induction false} TicksIdle(s: State, es: seq<Event>)
    requires Inv(s) && s.run == [] && s.sem[CLOCK].q == [] && OnlyTicks(es) && Legal(s, es)
    ensures Reached(s, es).run == []
    decreases |es|
  {
    if es != [] {
      assert es[0] in es && forall e | e in es[1..] :: e in es;
      StepInv(s, es[0]);
      TicksIdle(Next(s, es[0]), es[1..]);
    }
  }

  // The timer runs while the nucleus sleeps exactly when clock interrupts alone can make a
  // process runnable.
  lemma TimedIff(s: State)
    requires Inv(s) && Sole(s) && s.run == []
    ensures Schedule(s) == SleepTimed <==> exists es :: OnlyTicks(es) && Legal(s, es) && Reached(s, es).run != []
  {
    hide Next, Sole, Queues, Placed, Forest, Devices, Closed;
    if s.sem[CLOCK].q != [] {
      var es := ClockWakes(s);
    } else {
      forall es | OnlyTicks(es) && Legal(s, es) ensures Reached(s, es).run == [] { TicksIdle(s, es); }
    }
  }

  lemma {:induction false} RunSole(s: State, es: seq<Event>)
    requires Inv(s) && Sole(s) && Legal(s, es)
    ensures Sole(Reached(s, es)) && Inv(Reached(s, es))
    decreases |es|
  {
    hide Sole, Inv, Next;
    if es != [] {
      StepSole(s, es[0]);
      StepInv(s, es[0]);
      RunSole(Next(s, es[0]), es[1..]);
    }
  }

  // At the start nobody waits.
  lemma StartSole(words: seq<int>, save: seq<Regs>, init: Regs)
    requires GoodWords(words) && |save| == NDEV
    ensures Sole(Start(words, save, init))
  {
  }

  // In every run from the start, whenever no process can run, the nucleus sleeps exactly when
  // some run of interrupts makes a process runnable again, with the timer on exactly when clock
  // interrupts alone can do so, and otherwise it halts for good.
  lemma RunSleeps(words: seq<int>, save: seq<Regs>, init: Regs, es: seq<Event>)
    requires GoodWords(words) && |save| == NDEV && Legal(Start(words, save, init), es)
    requires Reached(Start(words, save, init), es).run == []
    ensures var s := Reached(Start(words, save, init), es);
            && (Schedule(s) in {SleepTimed, SleepDevice} <==> exists fs :: Legal(s, fs) && Reached(s, fs).run != [])
            && (Schedule(s) == SleepTimed <==>
                exists fs :: OnlyTicks(fs) && Legal(s, fs) && Reached(s, fs).run != [])
  {
    hide Sole, Start, Reached, Legal, Schedule, OnlyTicks;
    StartSole(words, save, init);
    RunSole(Start(words, save, init), es);
    SleepIffWakeable(Reached(Start(words, save, init), es));
    TimedIff(Reached(Start(words, save, init), es));
  }
}
