// The delay daemon and the calls that concern it, interleaved with the terminals.
module Cron {
  import opened Base
  import opened Semaphore

  const CRON: int := -1

  // An entry of d_sem; its terminal is delayed while the semaphore is below zero.
  datatype Delay = Delay(sem: Sem, d_time: int, start_time: int)

  // Where cron is: at the test of p_alive; at entry i of the scan; comparing the time for
  // entry i; at its UNLOCK; at entry i of the second loop; about to LOCK cron_sem; blocked
  // there; waiting for the clock; terminated.
  datatype Phase =
    | Top
    | Scan(i: nat)
    | Compare(i: nat)
    | Release(i: nat)
    | Check(i: nat, clock: bool)
    | Locking
    | Blocked
    | WaitClock
    | Exit

  // A terminal runs, is in its last call after p_alive has been lowered, or has terminated.
  datatype Life = Alive | Ending | Gone

  // due records the terminals whose time had passed when the scan in progress, or the last
  // one, began and that have not been released since.
  datatype System = System(
    d: seq<Delay>, cron_sem: Sem, phase: Phase, p_alive: int, life: seq<Life>, now: int, due: set<int>)

  datatype Event =
    | Pass(dt: nat)
    | SetTime(i: int, d_time: int)
    | SetStart(i: int)
    | Sleep(i: int)
    | Lower(i: int)
    | End(i: int)
    | Step

  ghost predicate Delayed(s: System, i: int) {
    0 <= i < |s.d| && s.d[i].sem.val < 0
  }

  // The terminals that have been delayed for longer than they asked.
  ghost function Overdue(d: seq<Delay>, now: int): (r: set<int>)
    ensures forall i :: i in r <==> 0 <= i < |d| && d[i].sem.val < 0 && now - d[i].start_time > d[i].d_time
  {
    set i | 0 <= i < |d| && d[i].sem.val < 0 && now - d[i].start_time > d[i].d_time
  }

  // A terminal makes calls only while it is alive and not delayed; the clock interrupt lets
  // cron go on at any time, so waiting for it is a step like any other.
  ghost predicate Enabled(s: System, e: Event) {
    match e
    case Pass(_) => true
    case SetTime(i, _) => 0 <= i < |s.d| == |s.life| && s.life[i] == Alive && !Delayed(s, i)
    case SetStart(i) => 0 <= i < |s.d| == |s.life| && s.life[i] == Alive && !Delayed(s, i)
    case Sleep(i) => 0 <= i < |s.d| == |s.life| && s.life[i] == Alive && !Delayed(s, i)
    case Lower(i) => 0 <= i < |s.d| == |s.life| && s.life[i] == Alive && !Delayed(s, i)
    case End(i) => 0 <= i < |s.life| && s.life[i] == Ending
    case Step => s.phase != Blocked && s.phase != Exit
  }

  // UNLOCK of cron_sem: cron goes back to the top if it was blocked there.
  ghost function Signal(s: System): System {
    s.(cron_sem := V(s.cron_sem), phase := if s.cron_sem.val < 0 && s.cron_sem.q != [] then Top else s.phase)
  }

  ghost function StepNext(s: System): System {
    match s.phase
    case Top => if s.p_alive > 0 then s.(phase := Scan(0), due := Overdue(s.d, s.now)) else s.(phase := Exit)
    case Scan(i) =>
      if i >= |s.d| then s.(phase := Check(0, false))
      else if s.d[i].sem.val < 0 then s.(phase := Compare(i)) else s.(phase := Scan(i + 1))
    case Compare(i) =>
      if i < |s.d| && s.now - s.d[i].start_time > s.d[i].d_time then s.(phase := Release(i))
      else s.(phase := Scan(i + 1))
    case Release(i) =>
      if i < |s.d| then s.(d := s.d[i := s.d[i].(sem := V(s.d[i].sem))], phase := Scan(i + 1), due := s.due - {i})
      else s
    case Check(i, clock) =>
      if i < |s.d| then s.(phase := Check(i + 1, clock || s.d[i].sem.val < 0))
      else s.(phase := if clock then WaitClock else Locking)
    case Locking =>
      s.(cron_sem := P(s.cron_sem, CRON), phase := if s.cron_sem.val - 1 < 0 then Blocked else Top)
    case WaitClock => s.(phase := Top)
    case _ => s
  }

  ghost function Next(s: System, e: Event): System
    requires Enabled(s, e)
  {
    match e
    case Pass(dt) => s.(now := s.now + dt)
    case SetTime(i, d_time) => s.(d := s.d[i := s.d[i].(d_time := d_time)])
    case SetStart(i) => s.(d := s.d[i := s.d[i].(start_time := s.now)])
    case Sleep(i) => Signal(s.(d := s.d[i := s.d[i].(sem := P(s.d[i].sem, i))]))
    case Lower(i) => s.(p_alive := s.p_alive - 1, life := s.life[i := Ending])
    case End(i) =>
      var s1 := s.(life := s.life[i := Gone]);
      if s.p_alive == 0 then Signal(s1) else s1
    case Step => StepNext(s)
  }

  ghost predicate Entries(s: System) {
    && |s.d| == TER && |s.life| == TER
    && (forall i | 0 <= i < |s.d| :: s.d[i].sem == Sem(0, []) || s.d[i].sem == Sem(-1, [i]))
    && forall i | 0 <= i < |s.d| && s.d[i].sem.val < 0 :: s.life[i] == Alive
  }

  ghost function Living(life: seq<Life>): (r: set<int>)
    ensures forall i :: i in r <==> 0 <= i < |life| && life[i] == Alive
  {
    set i | 0 <= i < |life| && life[i] == Alive
  }

  ghost predicate AllGone(life: seq<Life>) {
    forall i | 0 <= i < |life| :: life[i] == Gone
  }

  // None of the first n terminals is delayed.
  ghost predicate NoneDelayed(d: seq<Delay>, n: int) {
    forall i | 0 <= i < n && i < |d| :: d[i].sem.val >= 0
  }

  // While cron is not blocked, cron_sem has a unit for every delay that the second loop has
  // missed, and for the end of the last terminal.
  ghost predicate Signalled(s: System) {
    && (if s.phase == Blocked then s.cron_sem == Sem(-1, [CRON]) else s.cron_sem.val >= 0 && s.cron_sem.q == [])
    && (s.phase == Blocked ==> !AllGone(s.life) && NoneDelayed(s.d, |s.d|))
    && (s.phase.Check? && !s.phase.clock ==> NoneDelayed(s.d, s.phase.i) || s.cron_sem.val > 0)
    && (s.phase == Locking ==> NoneDelayed(s.d, |s.d|) || s.cron_sem.val > 0)
    && (AllGone(s.life) ==> s.phase == Top || s.phase == Exit || s.cron_sem.val > 0)
  }

  // cron is about to release only a terminal whose time has passed.
  ghost predicate Timely(s: System) {
    && (s.phase.Compare? ==> Delayed(s, s.phase.i))
    && (s.phase.Release? ==> Delayed(s, s.phase.i) && s.now - s.d[s.phase.i].start_time > s.d[s.phase.i].d_time)
  }

  // The scan still has those before it that were overdue when it began; after it there are none.
  ghost predicate Served(s: System) {
    && s.due <= Overdue(s.d, s.now)
    && match s.phase
       case Scan(i) => forall j | j in s.due :: i <= j
       case Compare(i) => forall j | j in s.due :: i <= j
       case Release(i) => forall j | j in s.due :: i <= j
       case _ => s.due == {}
  }

  ghost predicate Inv(s: System) {
    Entries(s) && s.p_alive == |Living(s.life)| && Signalled(s) && Timely(s) && Served(s)
  }

  ghost function Initial(now: int): System {
    System(seq(TER, _ => Delay(Sem(0, []), 0, 0)), Sem(0, []), Top, TER, seq(TER, _ => Alive), now, {})
  }

  lemma InitialInv(now: int)
    ensures Inv(Initial(now))
  {
    assert Living(Initial(now).life) == Range(TER);
  }

  lemma SleepInv(s: System, i: int)
    requires Inv(s) && Enabled(s, Sleep(i))
    ensures Inv(Next(s, Sleep(i)))
  {
    assert P(Sem(0, []), i) == Sem(-1, [i]);
    var r := Next(s, Sleep(i));
    assert r.cron_sem == if s.phase == Blocked then Sem(0, []) else Sem(s.cron_sem.val + 1, []);
    assert r.life[i] == Alive;
  }

  lemma LowerInv(s: System, i: int)
    requires Inv(s) && Enabled(s, Lower(i))
    ensures Inv(Next(s, Lower(i)))
  {
    var r := Next(s, Lower(i));
    assert Living(r.life) == Living(s.life) - {i};
    assert r.life[i] == Ending;
  }

  // The last terminal to end finds p_alive at zero and signals cron.
  lemma EndInv(s: System, i: int)
    requires Inv(s) && Enabled(s, End(i))
    ensures Inv(Next(s, End(i)))
  {
    var r := Next(s, End(i));
    assert Living(r.life) == Living(s.life);
    assert s.life[i] == Ending;
    if AllGone(r.life) {
      assert Living(s.life) == {};
    }
    if s.p_alive == 0 {
      assert Living(s.life) == {};
    }
  }

  lemma StepInv(s: System, e: Event)
    requires Inv(s) && Enabled(s, e)
    ensures Inv(Next(s, e))
  {
    match e
    case Sleep(i) => SleepInv(s, i);
    case Lower(i) => LowerInv(s, i);
    case End(i) => EndInv(s, i);
    case Step => CronInv(s);
    case _ =>
  }

  lemma CronInv(s: System)
    requires Inv(s) && Enabled(s, Step)
    ensures Inv(StepNext(s))
  {
    if s.phase.Check? || s.phase.Locking? {
      CheckInv(s);
    } else {
      ScanInv(s);
    }
  }

  // A unit of cron_sem makes up for whatever the second loop has missed.
  lemma CheckInv(s: System)
    requires Inv(s) && (s.phase.Check? || s.phase.Locking?)
    ensures Inv(StepNext(s))
  {
    hide Living;
  }

  lemma ScanInv(s: System)
    requires Inv(s) && Enabled(s, Step) && !s.phase.Check? && !s.phase.Locking?
    ensures Inv(StepNext(s))
  {
    if s.phase.Top? { TopInv(s); } else { EntryInv(s); }
  }

  // While some terminal is counted, cron goes round again.
  lemma TopInv(s: System)
    requires Inv(s) && Enabled(s, Step) && s.phase.Top?
    ensures Inv(StepNext(s))
  {
    if s.p_alive > 0 {
      assert |Living(s.life)| > 0;
      var i :| i in Living(s.life);
    }
  }

  lemma EntryInv(s: System)
    requires Inv(s) && Enabled(s, Step) && !s.phase.Check? && !s.phase.Locking? && !s.phase.Top?
    ensures Inv(StepNext(s))
  {
    hide Living;
  }

  ghost predicate Legal(s: System, es: seq<Event>)
    decreases |es|
  {
    es == [] || (Enabled(s, es[0]) && Legal(Next(s, es[0]), es[1..]))
  }

  ghost function Reached(s: System, es: seq<Event>): System
    requires Legal(s, es)
    decreases |es|
  {
    if es == [] then s else Reached(Next(s, es[0]), es[1..])
  }

  lemma {:induction false} RunInv(s: System, es: seq<Event>)
    requires Inv(s) && Legal(s, es)
    ensures Inv(Reached(s, es))
    decreases |es|
  {
    if es != [] {
      StepInv(s, es[0]);
      RunInv(Next(s, es[0]), es[1..]);
    }
  }

  // No wakeup is lost: in every interleaving, while cron is blocked on cron_sem no terminal
  // is delayed, and some terminal has still to end and will then wake cron.
  lemma NoLostWakeup(now: int, es: seq<Event>)
    requires Legal(Initial(now), es)
    ensures var s := Reached(Initial(now), es);
            s.phase == Blocked ==> (forall i :: !Delayed(s, i)) && !AllGone(s.life)
  {
    InitialInv(now);
    RunInv(Initial(now), es);
  }

  // ---------- what the calls of a run ask for ----------

  // The time of day after es, if it was now before.
  function Clock(now: int, es: seq<Event>): int {
    if es == [] then now else
      var n := |es| - 1;
      Clock(now, es[..n]) + if es[n].Pass? then es[n].dt else 0
  }

  // The delay that terminal i has asked for last.
  function Asked(es: seq<Event>, i: int): int {
    if es == [] then 0 else
      var n := |es| - 1;
      if es[n].SetTime? && es[n].i == i then es[n].d_time else Asked(es[..n], i)
  }

  // The time at which terminal i has last read the clock for a delay.
  function Began(now: int, es: seq<Event>, i: int): int {
    if es == [] then 0 else
      var n := |es| - 1;
      if es[n] == SetStart(i) then Clock(now, es[..n]) else Began(now, es[..n], i)
  }

  lemma {:induction false} LastStep(s: System, es: seq<Event>)
    requires Legal(s, es) && es != []
    ensures var n := |es| - 1;
            && Legal(s, es[..n]) && Enabled(Reached(s, es[..n]), es[n])
            && Reached(s, es) == Next(Reached(s, es[..n]), es[n])
    decreases |es|
  {
    hide Next, Enabled;
    var n := |es| - 1;
    if n > 0 {
      assert es[1..][..n - 1] == es[..n][1..];
      LastStep(Next(s, es[0]), es[1..]);
    }
  }

  lemma {:induction false} RunRecords(now: int, es: seq<Event>, i: int)
    requires Legal(Initial(now), es) && 0 <= i < TER
    ensures var s := Reached(Initial(now), es);
            && |s.d| == TER && s.now == Clock(now, es)
            && s.d[i].d_time == Asked(es, i) && s.d[i].start_time == Began(now, es, i)
    decreases |es|
  {
    if es != [] {
      LastStep(Initial(now), es);
      RunRecords(now, es[..|es| - 1], i);
      StepRecords(Reached(Initial(now), es[..|es| - 1]), es[|es| - 1], i);
    }
  }

  lemma StepRecords(s: System, e: Event, i: int)
    requires Enabled(s, e) && 0 <= i < |s.d|
    ensures var r := Next(s, e);
            && |r.d| == |s.d| && r.now == s.now + (if e.Pass? then e.dt else 0)
            && r.d[i].d_time == (if e.SetTime? && e.i == i then e.d_time else s.d[i].d_time)
            && r.d[i].start_time == if e == SetStart(i) then s.now else s.d[i].start_time
  {
  }

  // A delayed terminal goes on only in a step of cron, and only when more time has passed
  // since it last read the clock than it last asked for.
  lemma NeverEarly(now: int, es: seq<Event>, e: Event, i: int)
    requires Legal(Initial(now), es) && Enabled(Reached(Initial(now), es), e)
    requires Delayed(Reached(Initial(now), es), i) && !Delayed(Next(Reached(Initial(now), es), e), i)
    ensures e == Step && Clock(now, es) - Began(now, es, i) > Asked(es, i)
    ensures var s := Reached(Initial(now), es);
            s.phase == Release(i) && s.now - s.d[i].start_time > s.d[i].d_time
  {
    InitialInv(now);
    RunInv(Initial(now), es);
    RunRecords(now, es, i);
  }

  // Nobody is kept for longer than one scan: a terminal that was overdue when a scan began has
  // been released when cron leaves its first loop.
  lemma ReleasedInOneScan(now: int, es: seq<Event>)
    requires Legal(Initial(now), es)
    ensures var s := Reached(Initial(now), es);
            !(s.phase.Scan? && s.phase.i < |s.d|) && !s.phase.Compare? && !s.phase.Release? ==> s.due == {}
  {
    InitialInv(now);
    RunInv(Initial(now), es);
  }
}
