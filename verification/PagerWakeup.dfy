// The page daemon is never asleep when frames run short and nobody will wake it.
module PagerWakeup {
  import opened Base
  import opened Semaphore
  import opened Locks
  import opened Paging
  import opened FrameCredit

  // Past its P(sem_pf) and before its test whether to signal the daemon.
  ghost predicate Between(pc: Pc) {
    match pc
    case Ready(w) => w.Pick?
    case Queued(w) => w.Pick?
    case In(w) => w.Pick? || w.Warn?
    case _ => false
  }

  ghost predicate SomeBetween(pc: seq<Pc>) {
    exists p :: 0 <= p < |pc| && Between(pc[p])
  }

  // While the daemon sleeps or is about to, and frames are short, a signal is there or to come.
  ghost predicate Alert(s: System) {
    && Sized(s)
    && ((s.pc[DAEMON] == DTop || s.pc[DAEMON] == DPage) && s.sem_pf.val <= LOW ==>
        SomeBetween(s.pc) || s.sem_page.val > 0)
  }

  // A step of another process leaves u where it is, or lets it through a semaphore.
  lemma Untouched(s: System, p: int, u: int)
    requires Sized(s) && 0 <= p <= TER && 0 <= u <= TER && u != p
    ensures Sized(StepNext(s, p)) && (StepNext(s, p).pc[u] == s.pc[u] || StepNext(s, p).pc[u] == Admit(s.pc[u]))
  {
    hide Body, Transfer, Admit;
    if s.pc[p].In? { WorkUntouched(s, p, s.pc[p].w, u); }
    if s.pc[p].OnFloppy? { TransferUntouched(s, s.pc[p].io); }
  }

  lemma TransferUntouched(s: System, io: Io)
    requires Sized(s)
    ensures Sized(Transfer(s, io)) && Transfer(s, io).pc == s.pc
  {
  }

  lemma WorkUntouched(s: System, p: int, w: Work, u: int)
    requires Sized(s) && 0 <= p <= TER && 0 <= u <= TER && u != p
    ensures Sized(Body(s, p, w)) && (Body(s, p, w).pc[u] == s.pc[u] || Body(s, p, w).pc[u] == Admit(s.pc[u]))
  {
    hide Choose, Admit;
  }

  // One that is between stays so by its own steps too, up to its test.
  lemma OwnStep(s: System, u: int)
    requires Inv(s) && Enabled(s, Step(u)) && Between(s.pc[u]) && !(s.pc[u].In? && s.pc[u].w.Warn?)
    ensures Sized(StepNext(s, u)) && Between(StepNext(s, u).pc[u])
  {
    hide Inv;
    Fact(s, u);
    if s.pc[u].In? { PickFinds(s, u, s.pc[u].w.x); }
  }

  lemma PickFinds(s: System, u: int, x: int)
    requires AtWork(s, u, Pick(x))
    ensures Sized(s) && exists i :: Body(s, u, Pick(x)).pc[u] == In(Warn(x, i))
  {
    FreeLeft(s, u, x);
    hide Inv;
    Fact(s, u);
    var r := Body(s, u, Pick(x));
    assert r.pc[u] == In(Warn(x, r.pc[u].w.pf));
  }

  lemma StaysBetween(s: System, e: Event, u: int)
    requires Inv(s) && Enabled(s, e) && 0 <= u < |s.pc| && Between(s.pc[u])
    requires !(e == Step(u) && s.pc[u].In? && s.pc[u].w.Warn?)
    ensures Sized(Next(s, e)) && Between(Next(s, e).pc[u])
  {
    hide Inv, StepNext;
    match e
    case Step(p) => if p == u { OwnStep(s, u); } else { Untouched(s, p, u); }
    case _ =>
  }

  lemma FaultAlert(s: System, t: int, x: int)
    requires Inv(s) && Alert(s) && Enabled(s, Fault(t, x))
    ensures Alert(Next(s, Fault(t, x)))
  {
    var r := Next(s, Fault(t, x));
    if s.sem_pf.val > 0 {
      assert Between(r.pc[t]);
    } else if u :| 0 <= u < |s.pc| && Between(s.pc[u]) {
      StaysBetween(s, Fault(t, x), u);
    }
  }

  // The test: with frames short the daemon is woken, or finds the signal when it asks for it.
  lemma WarnAlert(s: System, p: int)
    requires Inv(s) && Alert(s) && Enabled(s, Step(p)) && s.pc[p].In? && s.pc[p].w.Warn?
    ensures Alert(Next(s, Step(p)))
  {
    var w := s.pc[p].w;
    var r := Next(s, Step(p));
    Fact(s, p);
    Fact(s, DAEMON);
    if s.sem_pf.val <= LOW {
      PageValue(s);
    }
  }

  // The daemon is the only one that waits for sem_page.
  lemma PageValue(s: System)
    requires Inv(s)
    ensures Sized(s)
    ensures s.pc[DAEMON] == DPage ==> s.sem_page.val < 0 && s.sem_page.q != [] && s.sem_page.q[0] == DAEMON
    ensures s.pc[DAEMON] != DPage ==> s.sem_page.val >= 0
  {
    var u := s.sem_page;
    assert forall p | 0 <= p < |s.pc| && s.pc[p] == DPage :: Belongs(p, s.pc[p]) && p == DAEMON;
    assert DAEMON in Those(s.pc, WaitsPage) <==> s.pc[DAEMON] == DPage;
    if u.q != [] {
      assert u.q[0] in u.q && u.q[0] in Those(s.pc, WaitsPage) && s.pc[u.q[0]] == DPage;
    }
    assert s.pc[DAEMON] == DPage ==> DAEMON in u.q;
  }

  // How the daemon gets to its P(sem_page), and what its steps do to the two semaphores.
  lemma DaemonGoes(s: System)
    requires Sized(s) && Belongs(DAEMON, s.pc[DAEMON]) && s.pc[DAEMON] != DPage
    ensures var r := StepNext(s, DAEMON);
            && Sized(r) && r.sem_pf.val >= s.sem_pf.val
            && (r.pc[DAEMON] == DTop ==> s.pc[DAEMON] == DLoop && s.sem_pf.val >= HIGH)
            && (r.pc[DAEMON] == DPage ==> s.pc[DAEMON] == DTop && s.sem_page.val <= 0)
  {
    hide Choose, Wake, Transfer, Body;
    if s.pc[DAEMON].In? { WorkGoes(s, s.pc[DAEMON].w); }
    if s.pc[DAEMON].OnFloppy? { TransferSems(s, s.pc[DAEMON].io); }
    LeavingGoes(s);
  }

  lemma LeavingGoes(s: System)
    requires Sized(s) && Belongs(DAEMON, s.pc[DAEMON])
    ensures var r := StepNext(s, DAEMON);
            s.pc[DAEMON].Leaving? || s.pc[DAEMON].Swapping? || s.pc[DAEMON].Done? ==>
              r.pc[DAEMON] != DTop && r.pc[DAEMON] != DPage
  {
  }

  lemma WorkGoes(s: System, w: Work)
    requires Sized(s) && DaemonWork(w)
    ensures var r := Body(s, DAEMON, w);
            && Sized(r) && r.sem_pf.val >= s.sem_pf.val && r.sem_page == s.sem_page
            && r.pc[DAEMON] != DTop && r.pc[DAEMON] != DPage
  {
    hide Choose;
  }

  lemma DaemonAlert(s: System)
    requires Inv(s) && Alert(s) && Enabled(s, Step(DAEMON))
    ensures Alert(Next(s, Step(DAEMON)))
  {
    hide Inv, StepNext;
    Fact(s, DAEMON);
    DaemonGoes(s);
    if u :| 0 <= u < |s.pc| && Between(s.pc[u]) {
      StaysBetween(s, Step(DAEMON), u);
    }
  }

  lemma OtherAlert(s: System, e: Event)
    requires Inv(s) && Alert(s) && Enabled(s, e) && !e.Fault? && e != Step(DAEMON)
    requires !(e.Step? && s.pc[e.p].In? && s.pc[e.p].w.Warn?)
    ensures Alert(Next(s, e))
  {
    hide Inv, StepNext;
    if u :| 0 <= u < |s.pc| && Between(s.pc[u]) {
      StaysBetween(s, e, u);
    }
    if e.Step? {
      Fact(s, e.p);
      Untouched(s, e.p, DAEMON);
      TerminalGoes(s, e.p);
    }
  }

  lemma TerminalGoes(s: System, p: int)
    requires Sized(s) && 0 <= p < TER && TerminalPc(p, s.pc[p]) && !(s.pc[p].In? && s.pc[p].w.Warn?)
    ensures var r := StepNext(s, p); Sized(r) && r.sem_pf.val >= s.sem_pf.val && r.sem_page == s.sem_page
  {
    hide Choose, Wake, Transfer;
    if s.pc[p].OnFloppy? { TransferSems(s, s.pc[p].io); }
  }

  lemma TransferSems(s: System, io: Io)
    requires Sized(s)
    ensures var r := Transfer(s, io); Sized(r) && r.sem_pf == s.sem_pf && r.sem_page == s.sem_page
  {
  }

  lemma StepAlert(s: System, e: Event)
    requires Inv(s) && Alert(s) && Enabled(s, e)
    ensures Alert(Next(s, e))
  {
    hide Inv, Next, Alert;
    if e.Fault? {
      FaultAlert(s, e.t, e.x);
    } else if e.Step? && s.pc[e.p].In? && s.pc[e.p].w.Warn? {
      WarnAlert(s, e.p);
    } else if e == Step(DAEMON) {
      DaemonAlert(s);
    } else {
      OtherAlert(s, e);
    }
  }

  lemma {:induction false} RunAlert(s: System, es: seq<Event>)
    requires Inv(s) && Alert(s) && Legal(s, es) && Single(s, es)
    ensures Inv(Reached(s, es)) && Alert(Reached(s, es))
    decreases |es|
  {
    hide Inv, Next, Alert;
    if es != [] {
      StepInv(s, es[0]);
      StepAlert(s, es[0]);
      RunAlert(Next(s, es[0]), es[1..]);
    }
  }

  // No wakeup of the page daemon is lost: in every interleaving, while it sleeps and frames
  // are short, or processes even wait for one, some process is on its way from its P(sem_pf)
  // to the test that wakes the daemon. p1 has signalled if frames were short from the start,
  // and no process gives back a frame that is being written out.
  lemma PagerWoken(mem: seq<int>, store: seq<int>, warned: nat, es: seq<Event>)
    requires |mem| == MAXFRAMES && |store| == SLOTS && (MAXFRAMES - TER <= 2 ==> warned > 0)
    requires Legal(Initial(mem, store, warned), es) && Single(Initial(mem, store, warned), es)
    ensures var s := Reached(Initial(mem, store, warned), es);
            Sized(s) && (s.pc[DAEMON] == DPage && s.sem_pf.val <= 2 ==> SomeBetween(s.pc))
  {
    InitialInv(mem, store, warned);
    RunAlert(Initial(mem, store, warned), es);
    PageValue(Reached(Initial(mem, store, warned), es));
  }
}
