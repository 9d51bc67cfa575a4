// Who gets which frame, when frames come back, and when the page daemon stays out of it.
module FrameUse {
  import opened Base
  import opened Semaphore
  import opened Locks
  import opened Paging
  import opened FrameCredit
  import PagerWakeup

  // ---------- the choice of a frame ----------

  // Frame f is in use for a shared page.
  ghost predicate UsedFor(f: Frame, page: int) {
    f.pid != -1 && f.seg == 2 && f.page == page
  }

  // A shared page that is in a frame keeps it; any other request takes the first free frame
  // and nothing else, and fails if there is none.
  lemma ChooseExact(pfs: seq<Frame>, term: int, page: int, seg: int)
    ensures var (i, r) := Choose(pfs, term, page, seg);
            && |r| == |pfs|
            && (if seg == 2 && exists j :: 0 <= j < |pfs| && UsedFor(pfs[j], page) then
                  && 0 <= i < |pfs| && UsedFor(pfs[i], page) && r == pfs
                  && forall j | 0 <= j < i :: !UsedFor(pfs[j], page)
                else if exists j :: 0 <= j < |pfs| && pfs[j].pid == -1 then
                  && 0 <= i < |pfs| && pfs[i].pid == -1 && (forall j | 0 <= j < i :: pfs[j].pid != -1)
                  && r[i] == Frame(term, seg, page, -1, -1) && forall j | 0 <= j < |pfs| && j != i :: r[j] == pfs[j]
                else i == -1 && r == pfs)
  {
  }

  // No two frames are in use for the same shared page.
  ghost predicate Unique(pfs: seq<Frame>) {
    forall i, j | 0 <= i < |pfs| && 0 <= j < |pfs| && UsedFor(pfs[i], pfs[i].page) && UsedFor(pfs[j], pfs[i].page) ::
      i == j
  }

  // f became g: the same user, or free.
  ghost predicate Shrinks(f: Frame, g: Frame) {
    g.pid == -1 || (g.pid == f.pid && g.seg == f.seg && g.page == f.page)
  }

  ghost predicate AllShrink(pfs: seq<Frame>, pfs': seq<Frame>) {
    |pfs'| == |pfs| && forall i | 0 <= i < |pfs| :: Shrinks(pfs[i], pfs'[i])
  }

  // Frames change hands only where a process under sem_mm picks one.
  lemma FramesShrink(s: System, e: Event)
    requires Enabled(s, e)
    ensures Sized(Next(s, e))
    ensures if e.Step? && s.pc[e.p].In? && s.pc[e.p].w.Pick? then
              var x := s.pc[e.p].w.x;
              Next(s, e).pfs == Choose(s.pfs, e.p, x % PAGES, if Shared(x) then 2 else 1).1
            else AllShrink(s.pfs, Next(s, e).pfs)
  {
    hide Choose, Wake, Admit;
    if e.Step? {
      if s.pc[e.p].In? { WorkShrinks(s, e.p, s.pc[e.p].w); }
      if s.pc[e.p].OnFloppy? { TransferFrames(s, s.pc[e.p].io); }
    }
  }

  lemma WorkShrinks(s: System, p: int, w: Work)
    requires Sized(s) && 0 <= p <= TER
    ensures Sized(Body(s, p, w))
    ensures if w.Pick? then Body(s, p, w).pfs == Choose(s.pfs, p, w.x % PAGES, if Shared(w.x) then 2 else 1).1
            else AllShrink(s.pfs, Body(s, p, w).pfs)
  {
    hide Wake, Admit;
    if w.Pick? { ChooseExact(s.pfs, p, w.x % PAGES, if Shared(w.x) then 2 else 1); }
    hide Choose;
  }

  lemma ChooseUnique(pfs: seq<Frame>, term: int, page: int, seg: int)
    requires Unique(pfs)
    ensures Unique(Choose(pfs, term, page, seg).1)
  {
    ChooseExact(pfs, term, page, seg);
    hide Choose;
  }

  lemma StepUnique(s: System, e: Event)
    requires Enabled(s, e) && Unique(s.pfs)
    ensures Unique(Next(s, e).pfs)
  {
    hide Next, Choose;
    FramesShrink(s, e);
    if e.Step? && s.pc[e.p].In? && s.pc[e.p].w.Pick? {
      var x := s.pc[e.p].w.x;
      ChooseUnique(s.pfs, e.p, x % PAGES, if Shared(x) then 2 else 1);
    }
  }

  lemma {:induction false} RunUnique(s: System, es: seq<Event>)
    requires Legal(s, es) && Unique(s.pfs)
    ensures Unique(Reached(s, es).pfs)
    decreases |es|
  {
    hide Next, Unique, Enabled;
    if es != [] {
      StepUnique(s, es[0]);
      RunUnique(Next(s, es[0]), es[1..]);
    }
  }

  // In every run at most one frame is in use for each shared page, and a fault on a shared page
  // that is in a frame gets that frame and takes no other.
  lemma SharedOnce(mem: seq<int>, store: seq<int>, warned: nat, es: seq<Event>, p: int)
    requires Legal(Initial(mem, store, warned), es)
    ensures var s := Reached(Initial(mem, store, warned), es);
            && Unique(s.pfs)
            && (Enabled(s, Step(p)) && s.pc[p].In? && s.pc[p].w.Pick? && Shared(s.pc[p].w.x) ==>
                  forall i | 0 <= i < |s.pfs| && UsedFor(s.pfs[i], s.pc[p].w.x % PAGES) ::
                    Next(s, Step(p)).pc[p] == In(Warn(s.pc[p].w.x, i)) && Next(s, Step(p)).pfs == s.pfs)
  {
    RunUnique(Initial(mem, store, warned), es);
    var s := Reached(Initial(mem, store, warned), es);
    hide Reached, Legal, Initial, Unique;
    if Enabled(s, Step(p)) && s.pc[p].In? && s.pc[p].w.Pick? && Shared(s.pc[p].w.x) {
      forall i | 0 <= i < |s.pfs| && UsedFor(s.pfs[i], s.pc[p].w.x % PAGES)
        ensures Next(s, Step(p)).pc[p] == In(Warn(s.pc[p].w.x, i)) && Next(s, Step(p)).pfs == s.pfs
      {
        PickShared(s, p, i);
      }
    }
  }

  lemma PickShared(s: System, p: int, i: int)
    requires Enabled(s, Step(p)) && s.pc[p].In? && s.pc[p].w.Pick? && Shared(s.pc[p].w.x) && Unique(s.pfs)
    requires 0 <= i < |s.pfs| && UsedFor(s.pfs[i], s.pc[p].w.x % PAGES)
    ensures Next(s, Step(p)).pc[p] == In(Warn(s.pc[p].w.x, i)) && Next(s, Step(p)).pfs == s.pfs
  {
    ChooseExact(s.pfs, p, s.pc[p].w.x % PAGES, 2);
    hide Choose;
  }

  // ---------- a terminal that has ended keeps no frame ----------

  // So many entries of the table has a terminating process been through.
  ghost function Through(pc: Pc): int {
    match pc
    case Ready(w) => WorkThrough(w)
    case Queued(w) => WorkThrough(w)
    case In(w) => WorkThrough(w)
    case Leaving(next) => if next == Gone then MAXFRAMES else 0
    case Gone => MAXFRAMES
    case _ => 0
  }

  ghost function WorkThrough(w: Work): int {
    if w.Release? then w.i else if w.Refund? then w.i + 1 else 0
  }

  // None of the entries that terminal t has been through is a private frame of it.
  ghost predicate Cleared(pfs: seq<Frame>, t: int, pc: Pc) {
    0 <= Through(pc) && forall i | 0 <= i < |pfs| && i < Through(pc) :: !Releases(pfs[i], t)
  }

  lemma OthersCleared(s: System, e: Event, t: int)
    requires Enabled(s, e) && 0 <= t < TER && Cleared(s.pfs, t, s.pc[t]) && e != Step(t) && e != Quit(t)
    requires e.Fault? ==> e.t != t
    ensures Sized(Next(s, e)) && Cleared(Next(s, e).pfs, t, Next(s, e).pc[t])
  {
    hide Next, Choose, Through, Unique, Admit;
    FramesShrink(s, e);
    if e.Step? {
      PagerWakeup.Untouched(s, e.p, t);
      AdmitThrough(s.pc[t]);
      if s.pc[e.p].In? && s.pc[e.p].w.Pick? {
        ChooseExact(s.pfs, e.p, s.pc[e.p].w.x % PAGES, if Shared(s.pc[e.p].w.x) then 2 else 1);
      }
    }
    OwnPc(s, e, t);
  }

  lemma AdmitThrough(pc: Pc)
    requires 0 <= Through(pc)
    ensures Through(Admit(pc)) == Through(pc)
  {
  }

  lemma OwnPc(s: System, e: Event, t: int)
    requires Enabled(s, e) && 0 <= t < TER && (e.Fault? || e.Quit? ==> e.t != t)
    ensures e.Step? ==> Next(s, e) == StepNext(s, e.p)
    ensures !e.Step? ==> |Next(s, e).pc| == |s.pc| && Next(s, e).pc[t] == s.pc[t]
  {
    hide StepNext;
  }

  lemma OwnCleared(s: System, t: int)
    requires Enabled(s, Step(t)) && 0 <= t < TER && TerminalPc(t, s.pc[t]) && Cleared(s.pfs, t, s.pc[t])
    ensures Sized(Next(s, Step(t))) && Cleared(Next(s, Step(t)).pfs, t, Next(s, Step(t)).pc[t])
  {
    hide Choose, Transfer, Body, Releases;
    if s.pc[t].In? {
      WorkCleared(s, t, s.pc[t].w);
      assert Next(s, Step(t)) == Body(s, t, s.pc[t].w);
    } else if s.pc[t].OnFloppy? {
      TransferFrames(s, s.pc[t].io);
      PagerWakeup.TransferUntouched(s, s.pc[t].io);
    }
  }

  lemma WorkCleared(s: System, t: int, w: Work)
    requires Sized(s) && 0 <= t < TER && s.pc[t] == In(w) && TerminalWork(t, w) && Cleared(s.pfs, t, In(w))
    ensures Sized(Body(s, t, w)) && Cleared(Body(s, t, w).pfs, t, Body(s, t, w).pc[t])
  {
    hide Body, Releases;
    if w.Pick? || w.Release? {
      TableCleared(s, t, w);
    } else if w.Refund? || w.Warn? {
      SignalPc(s, t, w);
    } else {
      PagePc(s, t, w);
    }
  }

  lemma TableCleared(s: System, t: int, w: Work)
    requires Sized(s) && 0 <= t < TER && s.pc[t] == In(w) && Cleared(s.pfs, t, In(w)) && (w.Pick? || w.Release?)
    ensures Sized(Body(s, t, w)) && Cleared(Body(s, t, w).pfs, t, Body(s, t, w).pc[t])
  {
    if w.Pick? { ChooseExact(s.pfs, t, w.x % PAGES, if Shared(w.x) then 2 else 1); }
    hide Choose;
  }

  // The work on page tables leaves the users of all frames, and is not part of the end.
  lemma PagePc(s: System, t: int, w: Work)
    requires Sized(s) && 0 <= t < TER && (w.PageIn? || w.Loaded? || w.Map?)
    ensures var r := Body(s, t, w); Sized(r) && AllShrink(s.pfs, r.pfs) && Through(r.pc[t]) == 0
  {
  }

  // A signal changes no table, and wakes nobody who holds sem_mm.
  lemma SignalPc(s: System, t: int, w: Work)
    requires Sized(s) && 0 <= t < TER && (w.Refund? || w.Warn?)
    ensures var r := Body(s, t, w);
            && Sized(r) && r.pfs == s.pfs
            && r.pc[t] == if w.Refund? then In(Release(w.i + 1)) else Leaving(Testing(w.x, w.pf))
  {
  }

  lemma StepCleared(s: System, e: Event, t: int)
    requires Firm(s) && Enabled(s, e) && 0 <= t < TER && Cleared(s.pfs, t, s.pc[t])
    ensures Sized(Next(s, e)) && Cleared(Next(s, e).pfs, t, Next(s, e).pc[t])
  {
    FirmFact(s, t);
    hide Firm, Cleared, StepNext;
    if e == Step(t) {
      OwnCleared(s, t);
    } else if (e.Fault? || e.Quit?) && e.t == t {
      StartCleared(s, e, t);
    } else {
      OthersCleared(s, e, t);
    }
  }

  lemma StartCleared(s: System, e: Event, t: int)
    requires Enabled(s, e) && (e.Fault? || e.Quit?) && e.t == t
    ensures Sized(Next(s, e)) && Cleared(Next(s, e).pfs, t, Next(s, e).pc[t])
  {
  }

  lemma {:induction false} RunCleared(s: System, es: seq<Event>, t: int)
    requires Firm(s) && Legal(s, es) && 0 <= t < TER && t < |s.pc| && Cleared(s.pfs, t, s.pc[t])
    ensures t < |Reached(s, es).pc| && Cleared(Reached(s, es).pfs, t, Reached(s, es).pc[t])
    decreases |es|
  {
    hide Firm, Next, Cleared;
    if es != [] {
      StepCleared(s, es[0], t);
      StepFirm(s, es[0]);
      RunCleared(Next(s, es[0]), es[1..], t);
    }
  }

  lemma StepFirm(s: System, e: Event)
    requires Firm(s) && Enabled(s, e)
    ensures Firm(Next(s, e))
  {
    hide Next;
    StepKept(s, e);
  }

  // In every run a terminal that has ended holds no private frame.
  lemma EndedKeepsNone(mem: seq<int>, store: seq<int>, warned: nat, es: seq<Event>, t: int)
    requires |mem| == MAXFRAMES && |store| == SLOTS && Legal(Initial(mem, store, warned), es) && 0 <= t < TER
    ensures var s := Reached(Initial(mem, store, warned), es);
            t < |s.pc| && (s.pc[t] == Gone ==> forall i | 0 <= i < |s.pfs| && i < MAXFRAMES :: !Releases(s.pfs[i], t))
  {
    hide Firm, Reached, Legal;
    InitialInv(mem, store, warned);
    RunCleared(Initial(mem, store, warned), es, t);
  }

  // ---------- when the page daemon stays out of it ----------

  // A page becomes absent only when the daemon clears it.
  lemma AbsentBy(s: System, e: Event, x: int)
    requires Firm(s) && Enabled(s, e) && 0 <= x < |s.pt| && s.pt[x].p
    requires e == Step(DAEMON) ==> !s.pc[DAEMON].In?
    ensures x < |Next(s, e).pt| && Next(s, e).pt[x].p
  {
    if e.Step? { FirmFact(s, e.p); }
    hide Firm, Choose, Wake, Admit;
  }

  // Awake at its test, or asleep.
  ghost predicate Rests(pc: Pc) {
    pc == DTop || pc == DPage || pc == DLoop
  }

  // With enough frames it stays so.
  lemma StepRests(s: System, e: Event)
    requires Firm(s) && Enabled(s, e) && Rests(s.pc[DAEMON]) && s.sem_pf.val >= HIGH
    ensures DAEMON < |Next(s, e).pc| && Rests(Next(s, e).pc[DAEMON])
  {
    FirmFact(s, DAEMON);
    hide Firm, Choose, Wake, Body, Transfer;
    if e.Step? && e.p != DAEMON { PagerWakeup.Untouched(s, e.p, DAEMON); }
    hide StepNext;
  }

  // Only the test of a process that finds frames short signals sem_page.
  lemma StepAsleep(s: System, e: Event)
    requires Firm(s) && Enabled(s, e) && s.pc[DAEMON] == DPage && s.sem_pf.val > LOW
    ensures Firm(Next(s, e)) && DAEMON < |Next(s, e).pc| && Next(s, e).pc[DAEMON] == DPage
  {
    StepFirm(s, e);
    FirmFact(s, DAEMON);
    if e.Step? { FirmFact(s, e.p); }
    SamePage(s, e);
    StillAsleep(s, Next(s, e));
  }

  lemma SamePage(s: System, e: Event)
    requires Enabled(s, e) && s.pc[DAEMON] == DPage && s.sem_pf.val > LOW
    requires e.Step? ==> Belongs(e.p, s.pc[e.p])
    ensures Next(s, e).sem_page == s.sem_page && |Next(s, e).pc| == |s.pc|
  {
    hide Choose, Wake, Admit, Transfer;
    if e.Step? && s.pc[e.p].OnFloppy? { PagerWakeup.TransferSems(s, s.pc[e.p].io); }
  }

  // Who is in the queue of sem_page sleeps there.
  lemma StillAsleep(s: System, r: System)
    requires LocksOk(s) && LocksOk(r) && r.sem_page == s.sem_page && |r.pc| == |s.pc|
    requires 0 <= DAEMON < |s.pc| && s.pc[DAEMON] == DPage
    ensures r.pc[DAEMON] == DPage
  {
    assert DAEMON in Those(s.pc, WaitsPage);
    assert DAEMON in r.sem_page.q && DAEMON in Those(r.pc, WaitsPage);
  }

  // In every state of the run es from s, sem_pf is above the value low.
  ghost predicate Above(s: System, es: seq<Event>, low: int)
    requires Legal(s, es)
    decreases |es|
  {
    es != [] ==> s.sem_pf.val > low && Above(Next(s, es[0]), es[1..], low)
  }

  // Page x, if it is present, stays so from s to r.
  ghost predicate StaysPresent(s: System, r: System, x: int) {
    0 <= x < |s.pt| && s.pt[x].p ==> x < |r.pt| && r.pt[x].p
  }

  lemma {:induction false} RunRests(s: System, es: seq<Event>, x: int)
    requires Firm(s) && Legal(s, es) && DAEMON < |s.pc| && Rests(s.pc[DAEMON]) && Above(s, es, HIGH - 1)
    ensures DAEMON < |Reached(s, es).pc| && Rests(Reached(s, es).pc[DAEMON]) && StaysPresent(s, Reached(s, es), x)
    decreases |es|
  {
    hide Firm, Next, Enabled;
    if es != [] {
      StepRests(s, es[0]);
      if 0 <= x < |s.pt| && s.pt[x].p { AbsentBy(s, es[0], x); }
      StepFirm(s, es[0]);
      RunRests(Next(s, es[0]), es[1..], x);
    }
  }

  lemma {:induction false} RunAsleep(s: System, es: seq<Event>, x: int)
    requires Firm(s) && Legal(s, es) && DAEMON < |s.pc| && s.pc[DAEMON] == DPage && Above(s, es, LOW)
    ensures DAEMON < |Reached(s, es).pc| && Reached(s, es).pc[DAEMON] == DPage && StaysPresent(s, Reached(s, es), x)
    decreases |es|
  {
    hide Firm, Next, Enabled;
    if es != [] {
      StepAsleep(s, es[0]);
      if 0 <= x < |s.pt| && s.pt[x].p { AbsentBy(s, es[0], x); }
      RunAsleep(Next(s, es[0]), es[1..], x);
    }
  }

  // No page is evicted without need. While sem_pf stays at four or above, a daemon that rests
  // goes on resting, and while it stays above two, a daemon that sleeps goes on sleeping; in
  // both cases every page that is present stays so.
  lemma NoNeedlessEviction(mem: seq<int>, store: seq<int>, warned: nat, es: seq<Event>, fs: seq<Event>, x: int)
    requires |mem| == MAXFRAMES && |store| == SLOTS && Legal(Initial(mem, store, warned), es)
    requires Legal(Reached(Initial(mem, store, warned), es), fs)
    ensures var s := Reached(Initial(mem, store, warned), es);
            var r := Reached(s, fs);
            && DAEMON < |s.pc| == |r.pc|
            && (Rests(s.pc[DAEMON]) && Above(s, fs, 3) ==> Rests(r.pc[DAEMON]) && StaysPresent(s, r, x))
            && (s.pc[DAEMON] == DPage && Above(s, fs, 2) ==> r.pc[DAEMON] == DPage && StaysPresent(s, r, x))
  {
    hide Firm, Reached, Legal, Above, Rests, Initial, StaysPresent;
    var s0 := Initial(mem, store, warned);
    InitialInv(mem, store, warned);
    RunKept(s0, es);
    var s := Reached(s0, es);
    RunKept(s, fs);
    FirmFact(s, 0);
    FirmFact(Reached(s, fs), 0);
    if Rests(s.pc[DAEMON]) && Above(s, fs, 3) { RunRests(s, fs, x); }
    if s.pc[DAEMON] == DPage && Above(s, fs, 2) { RunAsleep(s, fs, x); }
  }

  // ---------- a scan goes over every frame ----------

  // The frame that the daemon looks at next, or the size of the table outside a scan; a search
  // that fails never gets there.
  ghost function NextLook(pc: Pc): int {
    match pc
    case Ready(w) => WorkLook(w)
    case Queued(w) => WorkLook(w)
    case In(w) => WorkLook(w)
    case Leaving(next) => if next.Ready? then WorkLook(next.w) else MAXFRAMES
    case Swapping(io) => io.pf + 1
    case FloppyQueued(io) => io.pf + 1
    case OnFloppy(io) => io.pf + 1
    case Done(io) => io.pf + 1
    case NoSlot => 0
    case _ => MAXFRAMES
  }

  ghost function WorkLook(w: Work): int {
    match w
    case Scan(i) => i
    case Clear(i) => i + 1
    case Written(i) => i + 1
    case Give(i) => i + 1
    case _ => 0
  }

  // e is the daemon's look at frame i.
  ghost predicate IsLook(s: System, e: Event, i: int) {
    e == Step(DAEMON) && DAEMON < |s.pc| && s.pc[DAEMON] == In(Scan(i))
  }

  ghost predicate Looks(s: System, es: seq<Event>, i: int)
    requires Legal(s, es)
    decreases |es|
  {
    es != [] && (IsLook(s, es[0], i) || Looks(Next(s, es[0]), es[1..], i))
  }

  // So many frames after frame i are looked at when the daemon goes from pc to pc'.
  ghost predicate Onward(pc: Pc, pc': Pc) {
    pc' == NoSlot || NextLook(pc') == NextLook(pc) + if pc.In? && pc.w.Scan? then 1 else 0
  }

  lemma WorkLooks(s: System, w: Work)
    requires Sized(s) && s.pc[DAEMON] == In(w) && DaemonWork(w) && |s.pfs| == MAXFRAMES
    ensures DAEMON < |Body(s, DAEMON, w).pc| && Onward(In(w), Body(s, DAEMON, w).pc[DAEMON])
  {
    if w.Give? {
      GivePc(s, w.i);
    } else if w.Clear? {
      ClearPc(s, w.i);
    } else {
      hide Wake, ClearFrame;
    }
  }

  lemma GivePc(s: System, i: int)
    requires Sized(s)
    ensures var r := Body(s, DAEMON, Give(i)); Sized(r) && r.pc[DAEMON] == Leaving(NextScan(i))
  {
  }

  lemma ClearPc(s: System, i: int)
    requires Sized(s)
    ensures var r := Body(s, DAEMON, Clear(i));
            Sized(r) && (r.pc[DAEMON] == NoSlot || exists slot :: r.pc[DAEMON] == Swapping(Write(i, slot)))
  {
  }

  lemma OwnLook(s: System)
    requires Enabled(s, Step(DAEMON)) && DaemonPc(s.pc[DAEMON]) && !Rests(s.pc[DAEMON])
    ensures var r := Next(s, Step(DAEMON)); DAEMON < |r.pc| && Onward(s.pc[DAEMON], r.pc[DAEMON])
  {
    hide Choose, Transfer, Body, Wake, Admit;
    if s.pc[DAEMON].In? { WorkLooks(s, s.pc[DAEMON].w); }
    if s.pc[DAEMON].OnFloppy? { PagerWakeup.TransferUntouched(s, s.pc[DAEMON].io); }
    match s.pc[DAEMON]
    case Leaving(next) => OwnWake(s.pc, next, s.sem_mm);
    case Swapping(io) => OwnWake(s.pc, if s.sem_floppy.val <= 0 then FloppyQueued(io) else OnFloppy(io), s.sem_mm);
    case Done(io) => OwnWake(s.pc, if s.sem_mm.val <= 0 then Queued(Then(io)) else In(Then(io)), s.sem_floppy);
    case _ =>
  }

  // A signal of the daemon leaves it where it goes on in the scan.
  lemma OwnWake(pc: seq<Pc>, x: Pc, u: Sem)
    requires DAEMON < |pc| && DaemonPc(x) && x != DPage
    ensures DAEMON < |Wake(pc[DAEMON := x], u)| && NextLook(Wake(pc[DAEMON := x], u)[DAEMON]) == NextLook(x)
  {
  }

  lemma StepLook(s: System, e: Event)
    requires Firm(s) && Enabled(s, e) && !Rests(s.pc[DAEMON])
    ensures DAEMON < |Next(s, e).pc|
    ensures if e == Step(DAEMON) then Onward(s.pc[DAEMON], Next(s, e).pc[DAEMON])
            else NextLook(Next(s, e).pc[DAEMON]) == NextLook(s.pc[DAEMON])
  {
    FirmFact(s, DAEMON);
    hide Firm;
    if e == Step(DAEMON) {
      OwnLook(s);
    } else {
      if e.Step? { PagerWakeup.Untouched(s, e.p, DAEMON); }
      AdmitLook(s.pc[DAEMON]);
      hide StepNext, Admit;
    }
  }

  lemma AdmitLook(pc: Pc)
    requires DaemonPc(pc) && !Rests(pc)
    ensures NextLook(Admit(pc)) == NextLook(pc)
  {
  }

  // The run es from s comes to the daemon's test of sem_pf at its end and not before.
  ghost predicate UpToTest(s: System, es: seq<Event>)
    requires Legal(s, es)
    decreases |es|
  {
    DAEMON < |s.pc|
    && if es == [] then s.pc[DAEMON] == DLoop
       else !Rests(s.pc[DAEMON]) && UpToTest(Next(s, es[0]), es[1..])
  }

  lemma {:induction false} RunLooks(s: System, es: seq<Event>, i: nat)
    requires Firm(s) && Legal(s, es) && UpToTest(s, es) && NextLook(s.pc[DAEMON]) <= i < MAXFRAMES
    ensures Looks(s, es, i)
    decreases |es|
  {
    hide Firm, Next, Enabled, NextLook;
    LookAt(s.pc[DAEMON]);
    if es != [] {
      StepLook(s, es[0]);
      StepFirm(s, es[0]);
      LookAt(Next(s, es[0]).pc[DAEMON]);
      if !IsLook(s, es[0], i) { RunLooks(Next(s, es[0]), es[1..], i); }
    }
  }

  lemma LookAt(pc: Pc)
    ensures pc == DLoop ==> NextLook(pc) == MAXFRAMES
    ensures pc.In? && pc.w.Scan? ==> NextLook(pc) == pc.w.i && pc == In(Scan(pc.w.i))
    ensures pc == NoSlot || pc == Ready(Scan(0)) ==> NextLook(pc) == 0
  {
  }

  // A daemon that finds fewer than four units at its test scans the whole table: in every run it looks
  // at every frame before its next test.
  lemma ScanCovers(mem: seq<int>, store: seq<int>, warned: nat, es: seq<Event>, fs: seq<Event>, i: nat)
    requires |mem| == MAXFRAMES && |store| == SLOTS && Legal(Initial(mem, store, warned), es)
    requires var s := Reached(Initial(mem, store, warned), es);
             && DAEMON < |s.pc| && s.pc[DAEMON] == DLoop && s.sem_pf.val < 4 && Enabled(s, Step(DAEMON))
             && Legal(Next(s, Step(DAEMON)), fs) && UpToTest(Next(s, Step(DAEMON)), fs)
    requires i < MAXFRAMES
    ensures Looks(Next(Reached(Initial(mem, store, warned), es), Step(DAEMON)), fs, i)
  {
    hide Firm, Reached, Legal, Initial, UpToTest, Looks;
    InitialInv(mem, store, warned);
    RunKept(Initial(mem, store, warned), es);
    var s := Reached(Initial(mem, store, warned), es);
    StepFirm(s, Step(DAEMON));
    LookAt(Next(s, Step(DAEMON)).pc[DAEMON]);
    RunLooks(Next(s, Step(DAEMON)), fs, i);
  }

  // What the daemon's look at a frame does to the page in it, private or shared: a page that was
  // referred to since the last look stays, with its bit cleared; another becomes absent at once,
  // with the disk position that the frame is then written to, unless none is left.
  lemma SecondChance(s: System, i: nat, x: int)
    requires Enabled(s, Step(DAEMON)) && s.pc[DAEMON] == In(Scan(i)) && i < MAXFRAMES && s.pfs[i].pid != -1
    requires x == 32 * (if s.pfs[i].seg == 1 then s.pfs[i].pid else TER) + s.pfs[i].page
    requires 0 <= x < |s.pt| && s.pt[x].p
    ensures var r := Next(s, Step(DAEMON));
            if s.pt[x].r then
              && r.pt == s.pt[x := Entry(true, false, s.pt[x].frame)] && r.pfs == s.pfs
              && r.pc[DAEMON] == Leaving(NextScan(i))
            else
              && r == s.(pc := r.pc) && Enabled(r, Step(DAEMON))
              && var u := Next(r, Step(DAEMON));
                 u.pc[DAEMON] == NoSlot || (!u.pt[x].p && u.pc[DAEMON] == Swapping(Write(i, u.pt[x].frame)))
  {
    hide Choose, FirstSlot;
  }
}
