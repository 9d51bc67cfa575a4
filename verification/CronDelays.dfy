// A call of Delay from its start to its end, and what the daemon does between and after.
module CronDelays {
  import opened Base
  import opened Semaphore
  import opened Cron

  // e is a step of terminal i.
  predicate By(e: Event, i: int) {
    match e
    case SetTime(j, _) => i == j
    case SetStart(j) => i == j
    case Sleep(j) => i == j
    case Lower(j) => i == j
    case End(j) => i == j
    case _ => false
  }

  ghost predicate NoneBy(es: seq<Event>, i: int) {
    forall e | e in es :: !By(e, i)
  }

  lemma {:induction false} Concat(s: System, es: seq<Event>, fs: seq<Event>)
    requires Legal(s, es + fs)
    ensures Legal(s, es) && Legal(Reached(s, es), fs) && Reached(s, es + fs) == Reached(Reached(s, es), fs)
    decreases |es|
  {
    hide Next, Enabled;
    if es == [] {
      assert es + fs == fs;
    } else {
      assert (es + fs)[1..] == es[1..] + fs;
      Concat(Next(s, es[0]), es[1..], fs);
    }
  }

  lemma {:induction false} ClockConcat(now: int, es: seq<Event>, fs: seq<Event>)
    ensures Clock(now, es + fs) == Clock(Clock(now, es), fs) >= Clock(now, es)
    decreases |fs|
  {
    if fs == [] {
      assert es + fs == es;
    } else {
      var n := |fs| - 1;
      assert (es + fs)[..|es| + n] == es + fs[..n];
      ClockConcat(now, es, fs[..n]);
    }
  }

  // What others do changes nothing of what i has asked for.
  lemma {:induction false} OthersAsk(now: int, es: seq<Event>, fs: seq<Event>, i: int)
    requires NoneBy(fs, i)
    ensures Asked(es + fs, i) == Asked(es, i) && Began(now, es + fs, i) == Began(now, es, i)
    decreases |fs|
  {
    if fs == [] {
      assert es + fs == es;
    } else {
      var n := |fs| - 1;
      assert fs[n] in fs && forall e | e in fs[..n] :: e in fs;
      assert (es + fs)[..|es| + n] == es + fs[..n];
      OthersAsk(now, es, fs[..n], i);
    }
  }

  // The call Delay(d) of terminal i, after es, with whatever the others do in between.
  function Call(es: seq<Event>, i: int, d: int, fs: seq<Event>, gs: seq<Event>): seq<Event> {
    es + [SetTime(i, d)] + fs + [SetStart(i)] + gs + [Sleep(i)]
  }

  // The time at which that call reads the clock.
  function Start(now: int, es: seq<Event>, i: int, d: int, fs: seq<Event>): int {
    Clock(now, es + [SetTime(i, d)] + fs)
  }

  lemma CallAsks(now: int, es: seq<Event>, i: int, d: int, fs: seq<Event>, gs: seq<Event>)
    requires NoneBy(fs, i) && NoneBy(gs, i)
    ensures Asked(Call(es, i, d, fs, gs), i) == d && Began(now, Call(es, i, d, fs, gs), i) == Start(now, es, i, d, fs)
  {
    var e1, e2 := es + [SetTime(i, d)], es + [SetTime(i, d)] + fs + [SetStart(i)];
    assert e1[..|e1| - 1] == es;
    OthersAsk(now, e1, fs, i);
    assert e2[..|e2| - 1] == e1 + fs;
    OthersAsk(now, e2, gs, i);
    assert Call(es, i, d, fs, gs)[..|e2 + gs|] == e2 + gs;
  }

  // While no more time has passed than i asked for, it stays delayed and takes no step.
  lemma {:induction false} StaysDelayed(s: System, es: seq<Event>, i: int)
    requires Inv(s) && Delayed(s, i) && Legal(s, es)
    requires Clock(s.now, es) - s.d[i].start_time <= s.d[i].d_time
    ensures Delayed(Reached(s, es), i) && NoneBy(es, i)
    decreases |es|
  {
    if es != [] {
      var s1 := Next(s, es[0]);
      assert [es[0]][..0] == [] && [es[0]] + es[1..] == es;
      ClockConcat(s.now, [es[0]], es[1..]);
      ClockConcat(Clock(s.now, [es[0]]), [], es[1..]);
      StepInv(s, es[0]);
      StepRecords(s, es[0], i);
      OneDelayed(s, es[0], i);
      hide Inv, Next;
      StaysDelayed(s1, es[1..], i);
    }
  }

  lemma OneDelayed(s: System, e: Event, i: int)
    requires Inv(s) && Delayed(s, i) && Enabled(s, e) && s.now - s.d[i].start_time <= s.d[i].d_time
    ensures Delayed(Next(s, e), i) && !By(e, i)
    ensures Next(s, e).d[i].start_time == s.d[i].start_time && Next(s, e).d[i].d_time == s.d[i].d_time
  {
  }

  lemma CallDelays(now: int, es: seq<Event>, i: int, d: int, fs: seq<Event>, gs: seq<Event>)
    requires NoneBy(fs, i) && NoneBy(gs, i) && Legal(Initial(now), Call(es, i, d, fs, gs))
    ensures var s := Reached(Initial(now), Call(es, i, d, fs, gs));
            && Inv(s) && Delayed(s, i) && s.now == Clock(now, Call(es, i, d, fs, gs))
            && s.d[i].d_time == d && s.d[i].start_time == Start(now, es, i, d, fs)
  {
    var call := Call(es, i, d, fs, gs);
    InitialInv(now);
    RunInv(Initial(now), call);
    LastStep(Initial(now), call);
    var n := |call| - 1;
    RunInv(Initial(now), call[..n]);
    SleepDelays(Reached(Initial(now), call[..n]), i);
    RunRecords(now, call, i);
    CallAsks(now, es, i, d, fs, gs);
  }

  lemma SleepDelays(s: System, i: int)
    requires Inv(s) && Enabled(s, Sleep(i))
    ensures 0 <= i < TER && Delayed(Next(s, Sleep(i)), i)
  {
  }

  // A terminal that calls Delay(d) and reads the clock at time t stays delayed, and takes no
  // step at all, in every run that goes on from there and ends at time t + d or before.
  lemma DelayHolds(now: int, es: seq<Event>, i: int, d: int, fs: seq<Event>, gs: seq<Event>, hs: seq<Event>)
    requires NoneBy(fs, i) && NoneBy(gs, i) && Legal(Initial(now), Call(es, i, d, fs, gs) + hs)
    requires Clock(now, Call(es, i, d, fs, gs) + hs) <= Start(now, es, i, d, fs) + d
    ensures Delayed(Reached(Initial(now), Call(es, i, d, fs, gs) + hs), i) && NoneBy(hs, i)
  {
    hide Inv, Next, Delayed, Call, Start;
    var call := Call(es, i, d, fs, gs);
    Concat(Initial(now), call, hs);
    CallDelays(now, es, i, d, fs, gs);
    ClockConcat(now, call, hs);
    StaysDelayed(Reached(Initial(now), call), hs, i);
  }

  // ---------- the first loop ----------

  predicate InFirstLoop(p: Phase) {
    p.Scan? || p.Compare? || p.Release?
  }

  // Terminal i is let go in the run es from s.
  ghost predicate LetGo(s: System, es: seq<Event>, i: int)
    requires Legal(s, es)
    decreases |es|
  {
    es != [] && ((Delayed(s, i) && !Delayed(Next(s, es[0]), i)) || LetGo(Next(s, es[0]), es[1..], i))
  }

  lemma {:induction false} ScanLetsGo(s: System, es: seq<Event>, i: int)
    requires Inv(s) && i in s.due && Legal(s, es) && !InFirstLoop(Reached(s, es).phase)
    ensures LetGo(s, es, i)
    decreases |es|
  {
    DueLoop(s, i);
    if es != [] {
      StepInv(s, es[0]);
      DueStays(s, es[0], i);
      hide Inv, Next, Delayed;
      if i in Next(s, es[0]).due { ScanLetsGo(Next(s, es[0]), es[1..], i); }
    }
  }

  lemma DueLoop(s: System, i: int)
    requires Inv(s) && i in s.due
    ensures InFirstLoop(s.phase)
  {
  }

  lemma DueStays(s: System, e: Event, i: int)
    requires Inv(s) && i in s.due && Enabled(s, e)
    ensures Delayed(s, i) && (i in Next(s, e).due || !Delayed(Next(s, e), i))
  {
  }

  // A terminal delayed by such a call is let go by every scan that begins after time t + d,
  // before cron leaves its first loop; such a step is never earlier, by NeverEarly.
  lemma DelayEnds(now: int, es: seq<Event>, i: int, d: int, fs: seq<Event>, gs: seq<Event>, hs: seq<Event>,
                  ks: seq<Event>)
    requires NoneBy(fs, i) && NoneBy(gs, i) && NoneBy(hs, i)
    requires Legal(Initial(now), Call(es, i, d, fs, gs) + hs)
    requires var s := Reached(Initial(now), Call(es, i, d, fs, gs) + hs);
             && Delayed(s, i) && s.phase == Top
             && Legal(s, [Step] + ks) && !InFirstLoop(Reached(s, [Step] + ks).phase)
    requires Clock(now, Call(es, i, d, fs, gs) + hs) > Start(now, es, i, d, fs) + d
    ensures LetGo(Reached(Initial(now), Call(es, i, d, fs, gs) + hs), [Step] + ks, i)
  {
    hide Next, Call, Start, LetGo;
    var call := Call(es, i, d, fs, gs);
    var s := Reached(Initial(now), call + hs);
    InitialInv(now);
    RunInv(Initial(now), call + hs);
    CallAsks(now, es, i, d, fs, gs);
    OthersAsk(now, call, hs, i);
    RunRecords(now, call + hs, i);
    ScanBegins(s, ks, i);
  }

  lemma ScanBegins(s: System, es: seq<Event>, i: int)
    requires Inv(s) && i in Overdue(s.d, s.now) && s.phase == Top
    requires Legal(s, [Step] + es) && !InFirstLoop(Reached(s, [Step] + es).phase)
    ensures LetGo(s, [Step] + es, i)
  {
    assert ([Step] + es)[1..] == es;
    StepInv(s, Step);
    assert i in Living(s.life);
    assert |Living(s.life)| > 0;
    ScanLetsGo(Next(s, Step), es, i);
  }

  // ---------- what cron does when it is left alone ----------

  ghost predicate OnlySteps(es: seq<Event>) {
    forall e | e in es :: e == Step
  }

  lemma Cons(s: System, es: seq<Event>)
    requires Enabled(s, Step) && Legal(Next(s, Step), es) && OnlySteps(es)
    ensures Legal(s, [Step] + es) && Reached(s, [Step] + es) == Reached(Next(s, Step), es) && OnlySteps([Step] + es)
    ensures forall i :: LetGo(Next(s, Step), es, i) ==> LetGo(s, [Step] + es, i)
    ensures forall i :: Delayed(s, i) && !Delayed(Next(s, Step), i) ==> LetGo(s, [Step] + es, i)
  {
    assert ([Step] + es)[1..] == es;
  }

  function Left(n: nat, i: nat): nat {
    if i <= n then n - i else 0
  }

  // At most so many steps of cron are left until it has been at the entry of terminal i, one
  // of n: it is before that entry in its scan, at the top, in what follows the scan, or past
  // the entry.
  function Distance(p: Phase, n: nat, i: nat): nat {
    match p
    case Scan(j) => 3 * Left(n, j) + 2 + if j <= i then 0 else 5 * n + 5
    case Compare(j) => 3 * Left(n, j) + 1 + if j <= i then 0 else 5 * n + 5
    case Release(j) => 3 * Left(n, j) + if j <= i then 0 else 5 * n + 5
    case Top => 3 * n + 3
    case Check(j, _) => 3 * n + 5 + Left(n, j)
    case _ => 3 * n + 4
  }

  // A step of cron takes it closer to the entry of an overdue terminal, or releases it.
  lemma Closer(s: System, i: int)
    requires Inv(s) && i in Overdue(s.d, s.now) && s.phase != Exit
    ensures Enabled(s, Step) && Inv(Next(s, Step)) && Next(s, Step).phase != Exit
    ensures var r := Next(s, Step);
            && |r.d| == |s.d|
            && (if i in Overdue(r.d, r.now) then Distance(r.phase, |s.d|, i) < Distance(s.phase, |s.d|, i)
                else Delayed(s, i) && !Delayed(r, i))
  {
    StepInv(s, Step);
    assert i in Living(s.life);
    assert |Living(s.life)| > 0;
    hide Signalled, Living;
    if s.phase == Locking { LockStep(s, i); }
  }

  // With a terminal delayed cron finds a unit of cron_sem.
  lemma LockStep(s: System, i: int)
    requires Inv(s) && s.phase == Locking && Delayed(s, i)
    ensures Next(s, Step).phase == Top
  {
  }

  // Left alone, cron lets go every terminal that is overdue, in a bounded number of steps.
  lemma {:induction false} LetsGo(s: System, i: int) returns (es: seq<Event>)
    requires Inv(s) && i in Overdue(s.d, s.now) && s.phase != Exit
    ensures OnlySteps(es) && Legal(s, es) && LetGo(s, es, i) && |es| <= Distance(s.phase, |s.d|, i) + 1
    decreases Distance(s.phase, |s.d|, i)
  {
    hide Inv, Next, Delayed, Distance;
    Closer(s, i);
    var r := Next(s, Step);
    var fs: seq<Event> := [];
    if i in Overdue(r.d, r.now) {
      fs := LetsGo(r, i);
    }
    Cons(s, fs);
    es := [Step] + fs;
  }

  // Cron terminates only when no terminal is alive.
  ghost predicate ExitOk(s: System) {
    s.phase == Exit ==> s.p_alive <= 0
  }

  lemma {:induction false} RunExit(s: System, es: seq<Event>)
    requires Inv(s) && ExitOk(s) && Legal(s, es)
    ensures Inv(Reached(s, es)) && ExitOk(Reached(s, es))
    decreases |es|
  {
    if es != [] {
      StepInv(s, es[0]);
      StepExit(s, es[0]);
      hide Inv, Next, ExitOk;
      RunExit(Next(s, es[0]), es[1..]);
    }
  }

  lemma StepExit(s: System, e: Event)
    requires Inv(s) && ExitOk(s) && Enabled(s, e)
    ensures ExitOk(Next(s, e))
  {
  }

  // In every run, when more time has passed than a delayed terminal asked for, steps of cron
  // alone let it go, at most eight for each terminal and eight.
  lemma DelayServed(now: int, es: seq<Event>, i: int) returns (fs: seq<Event>)
    requires Legal(Initial(now), es) && Delayed(Reached(Initial(now), es), i)
    requires Clock(now, es) - Began(now, es, i) > Asked(es, i)
    ensures OnlySteps(fs) && Legal(Reached(Initial(now), es), fs) && LetGo(Reached(Initial(now), es), fs, i)
    ensures |fs| <= 8 * TER + 8
  {
    var s := Reached(Initial(now), es);
    InitialInv(now);
    RunExit(Initial(now), es);
    RunRecords(now, es, i);
    assert i in Living(s.life);
    assert |Living(s.life)| > 0;
    fs := LetsGo(s, i);
  }

  // A scan begins only while some terminal is alive.
  lemma ScansAlive(now: int, es: seq<Event>)
    requires Legal(Initial(now), es)
    ensures var s := Reached(Initial(now), es);
            Enabled(s, Step) && !InFirstLoop(s.phase) && InFirstLoop(Next(s, Step).phase) ==>
              exists i :: 0 <= i < |s.life| && s.life[i] == Alive
  {
    InitialInv(now);
    RunInv(Initial(now), es);
    var s := Reached(Initial(now), es);
    if s.phase == Top && s.p_alive > 0 {
      assert |Living(s.life)| > 0;
      var i :| i in Living(s.life);
    }
  }

  // ---------- the second loop ----------

  // In the run es from s the second loop comes to the entry of a delayed terminal.
  ghost predicate Finds(s: System, es: seq<Event>)
    requires Legal(s, es)
    decreases |es|
  {
    es != [] && ((es[0] == Step && s.phase.Check? && Delayed(s, s.phase.i)) || Finds(Next(s, es[0]), es[1..]))
  }

  // The run es from s stays in the second loop up to its last step.
  ghost predicate InSecondLoop(s: System, es: seq<Event>)
    requires Legal(s, es)
    decreases |es|
  {
    es != [] ==> s.phase.Check? && InSecondLoop(Next(s, es[0]), es[1..])
  }

  lemma {:induction false} LoopFinds(s: System, es: seq<Event>)
    requires Inv(s) && Legal(s, es) && s.phase.Check? && InSecondLoop(s, es) && !Reached(s, es).phase.Check?
    ensures Reached(s, es).phase == if s.phase.clock || Finds(s, es) then WaitClock else Locking
    decreases |es|
  {
    StepInv(s, es[0]);
    if Next(s, es[0]).phase.Check? {
      LoopFinds(Next(s, es[0]), es[1..]);
    } else {
      assert es[1..] == [];
    }
  }

  // After its second loop cron waits for the clock if it came to a delayed terminal, and
  // otherwise goes on to LOCK cron_sem.
  lemma SecondLoop(s: System, es: seq<Event>)
    requires Inv(s) && Legal(s, es) && s.phase == Check(0, false) && InSecondLoop(s, es) && !Reached(s, es).phase.Check?
    ensures Reached(s, es).phase == WaitClock <==> Finds(s, es)
    ensures Reached(s, es).phase == Locking <==> !Finds(s, es)
  {
    LoopFinds(s, es);
  }

  // With nobody delayed, and so nobody to be released, cron comes to rest.
  ghost predicate Restful(s: System) {
    Inv(s) && s.p_alive > 0 && NoneDelayed(s.d, |s.d|) && s.phase != Exit
  }

  function ToLock(p: Phase, n: nat): nat {
    match p
    case Locking => 0
    case Check(j, clock) => 1 + Left(n, j) + if clock then 2 * n + 6 else 0
    case Scan(j) => n + 2 + Left(n, j)
    case Top => 2 * n + 3
    case WaitClock => 2 * n + 4
    case _ => 0
  }

  lemma RestStep(s: System)
    requires Restful(s) && s.phase != Blocked
    ensures Enabled(s, Step) && Restful(Next(s, Step))
    ensures var r := Next(s, Step);
            && |r.d| == |s.d|
            && (if s.phase == Locking then r.phase == Blocked || 0 <= r.cron_sem.val < s.cron_sem.val
                else r.cron_sem == s.cron_sem && ToLock(r.phase, |s.d|) < ToLock(s.phase, |s.d|))
  {
    StepInv(s, Step);
  }

  // While nobody is delayed, cron left alone uses up the units of cron_sem and is blocked.
  lemma {:induction false} Rests(s: System) returns (es: seq<Event>)
    requires Restful(s)
    ensures OnlySteps(es) && Legal(s, es) && Reached(s, es).phase == Blocked
    decreases if s.phase == Blocked then 0 else 1, if s.cron_sem.val > 0 then s.cron_sem.val else 0,
              ToLock(s.phase, |s.d|)
  {
    if s.phase == Blocked {
      es := [];
      assert Legal(s, []);
    } else {
      RestStep(s);
      hide Inv, Restful, Next, ToLock;
      var fs := Rests(Next(s, Step));
      Cons(s, fs);
      es := [Step] + fs;
    }
  }

  // Once every terminal has terminated, cron left alone terminates.
  lemma {:induction false} Ends(s: System) returns (es: seq<Event>)
    requires Inv(s) && AllGone(s.life)
    ensures OnlySteps(es) && Legal(s, es) && Reached(s, es).phase == Exit
    decreases ToExit(s.phase, |s.d|)
  {
    if s.phase == Exit {
      es := [];
      assert Legal(s, []);
    } else {
      EndStep(s);
      hide Inv, Next, ToExit;
      var fs := Ends(Next(s, Step));
      Cons(s, fs);
      es := [Step] + fs;
    }
  }

  function ToExit(p: Phase, n: nat): nat {
    match p
    case Exit => 0
    case Top => 1
    case Check(j, _) => 3 + Left(n, j)
    case Scan(j) => n + 4 + Left(n, j)
    case _ => 2
  }

  lemma EndStep(s: System)
    requires Inv(s) && AllGone(s.life) && s.phase != Exit
    ensures Enabled(s, Step) && Inv(Next(s, Step)) && AllGone(Next(s, Step).life)
    ensures |Next(s, Step).d| == |s.d| && ToExit(Next(s, Step).phase, |s.d|) < ToExit(s.phase, |s.d|)
  {
    StepInv(s, Step);
    assert Living(s.life) == {};
  }

  // In every run cron terminates only when no terminal is alive; left alone it comes to rest
  // at cron_sem while some are alive and none is delayed, and terminates when all have ended.
  lemma CronComesTo(now: int, es: seq<Event>) returns (fs: seq<Event>)
    requires Legal(Initial(now), es)
    ensures var s := Reached(Initial(now), es);
            && (s.phase == Exit ==> forall i | 0 <= i < |s.life| :: s.life[i] != Alive)
            && OnlySteps(fs) && Legal(s, fs)
            && ((exists i :: 0 <= i < |s.life| && s.life[i] == Alive) && (forall i :: !Delayed(s, i)) ==>
                  Reached(s, fs).phase == Blocked)
            && (AllGone(s.life) ==> Reached(s, fs).phase == Exit)
  {
    var s := Reached(Initial(now), es);
    InitialInv(now);
    RunExit(Initial(now), es);
    fs := [];
    if i :| 0 <= i < |s.life| && s.life[i] == Alive {
      assert i in Living(s.life);
      assert |Living(s.life)| > 0;
      if forall j :: !Delayed(s, j) {
        forall j | 0 <= j < |s.d| ensures s.d[j].sem.val >= 0 { assert !Delayed(s, j); }
        fs := Rests(s);
      }
    } else {
      if AllGone(s.life) { fs := Ends(s); }
    }
  }

  // ---------- the units of cron_sem ----------

  // The calls of Delay in the run es from s, and the ends of terminals when none is alive.
  ghost function Signals(s: System, es: seq<Event>): int
    requires Legal(s, es)
    decreases |es|
  {
    if es == [] then 0 else
      Signals(Next(s, es[0]), es[1..])
      + if es[0].Sleep? || (es[0].End? && Living(s.life) == {}) then 1 else 0
  }

  // How often cron has LOCKed cron_sem.
  ghost function LocksOf(s: System, es: seq<Event>): int
    requires Legal(s, es)
    decreases |es|
  {
    if es == [] then 0 else
      LocksOf(Next(s, es[0]), es[1..]) + if es[0] == Step && s.phase == Locking then 1 else 0
  }

  lemma StepUnits(s: System, e: Event)
    requires Inv(s) && Enabled(s, e)
    ensures Next(s, e).cron_sem.val ==
            s.cron_sem.val + (if e.Sleep? || (e.End? && Living(s.life) == {}) then 1 else 0)
            - (if e == Step && s.phase == Locking then 1 else 0)
  {
    assert s.p_alive == 0 <==> Living(s.life) == {};
    hide Living;
  }

  lemma {:induction false} RunUnits(s: System, es: seq<Event>)
    requires Inv(s) && Legal(s, es)
    ensures Reached(s, es).cron_sem.val == s.cron_sem.val + Signals(s, es) - LocksOf(s, es)
    decreases |es|
  {
    hide Inv, Next, Enabled;
    if es != [] {
      StepInv(s, es[0]);
      StepUnits(s, es[0]);
      RunUnits(Next(s, es[0]), es[1..]);
    }
  }

  // In every run cron is signalled once for each delay and once for each terminal that ends
  // with none alive, and not otherwise.
  lemma UnitsExact(now: int, es: seq<Event>)
    requires Legal(Initial(now), es)
    ensures Reached(Initial(now), es).cron_sem.val == Signals(Initial(now), es) - LocksOf(Initial(now), es)
  {
    InitialInv(now);
    RunUnits(Initial(now), es);
  }
}
