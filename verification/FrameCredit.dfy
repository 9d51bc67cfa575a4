// The semaphores of the paging system, and the frames that its units of sem_pf stand for.
module FrameCredit {
  import opened Base
  import opened Semaphore
  import opened Locks
  import opened Paging

  // What a process is to the semaphores.
  datatype Kind = HoldsMm | WaitsMm | HoldsFloppy | WaitsFloppy | WaitsPf | WaitsPage | Credit

  // A credit is a frame that the process may still take, or has freed and not yet signalled.
  ghost predicate HasCredit(pc: Pc) {
    match pc
    case Ready(w) => w.Pick? || w.Refund? || w.Give?
    case Queued(w) => w.Pick? || w.Refund? || w.Give?
    case In(w) => w.Pick? || w.Refund? || w.Give?
    case _ => false
  }

  ghost predicate Is(pc: Pc, k: Kind) {
    match k
    case HoldsMm => pc.In? || pc.Leaving? || pc.Swapping? || pc.NoFrame? || pc.NoSlot?
    case WaitsMm => pc.Queued?
    case HoldsFloppy => pc.OnFloppy? || pc.Done?
    case WaitsFloppy => pc.FloppyQueued?
    case WaitsPf => pc.PfQueued?
    case WaitsPage => pc.DPage?
    case Credit => HasCredit(pc)
  }

  ghost function Those(pc: seq<Pc>, k: Kind): (r: set<int>)
    ensures forall p :: p in r <==> 0 <= p < |pc| && Is(pc[p], k)
  {
    set p | 0 <= p < |pc| && Is(pc[p], k)
  }

  // The processes of kind k when p moves to x.
  lemma Joins(pc: seq<Pc>, p: int, x: Pc, k: Kind)
    requires 0 <= p < |pc| && Is(x, k)
    ensures Those(pc[p := x], k) == Those(pc, k) + {p}
  {
    hide Is;
  }

  lemma Leaves(pc: seq<Pc>, p: int, x: Pc, k: Kind)
    requires 0 <= p < |pc| && !Is(x, k)
    ensures Those(pc[p := x], k) == Those(pc, k) - {p}
  {
    hide Is;
  }

  lemma Stays(pc: seq<Pc>, p: int, x: Pc, k: Kind)
    requires 0 <= p < |pc| && Is(x, k) == Is(pc[p], k)
    ensures Those(pc[p := x], k) == Those(pc, k)
  {
    hide Is;
  }

  lemma Counted(pc: seq<Pc>, p: int, x: Pc, k: Kind)
    requires 0 <= p < |pc|
    ensures |Those(pc[p := x], k)| == |Those(pc, k)| - (if Is(pc[p], k) then 1 else 0) + (if Is(x, k) then 1 else 0)
  {
    hide Is;
    var a, b := Those(pc, k), Those(pc[p := x], k);
    assert b == if Is(x, k) then (a - {p}) + {p} else a - {p};
  }

  ghost predicate MmOk(u: Sem, pc: seq<Pc>) {
    Mutex(u, Those(pc, HoldsMm), Those(pc, WaitsMm))
  }

  ghost predicate FloppyOk(u: Sem, pc: seq<Pc>) {
    Mutex(u, Those(pc, HoldsFloppy), Those(pc, WaitsFloppy))
  }

  ghost predicate PfOk(u: Sem, pc: seq<Pc>) {
    Queue(u, Those(pc, WaitsPf))
  }

  ghost predicate SemPageOk(u: Sem, pc: seq<Pc>) {
    Queue(u, Those(pc, WaitsPage))
  }

  ghost predicate LocksOk(s: System) {
    MmOk(s.sem_mm, s.pc) && FloppyOk(s.sem_floppy, s.pc) && PfOk(s.sem_pf, s.pc) && SemPageOk(s.sem_page, s.pc)
  }

  // A process that moves without changing its part in a semaphore leaves that one alone.
  lemma MmStays(u: Sem, pc: seq<Pc>, p: int, x: Pc)
    requires MmOk(u, pc) && 0 <= p < |pc|
    requires Is(x, HoldsMm) == Is(pc[p], HoldsMm) && Is(x, WaitsMm) == Is(pc[p], WaitsMm)
    ensures MmOk(u, pc[p := x])
  {
    Stays(pc, p, x, HoldsMm);
    Stays(pc, p, x, WaitsMm);
  }

  lemma FloppyStays(u: Sem, pc: seq<Pc>, p: int, x: Pc)
    requires FloppyOk(u, pc) && 0 <= p < |pc|
    requires Is(x, HoldsFloppy) == Is(pc[p], HoldsFloppy) && Is(x, WaitsFloppy) == Is(pc[p], WaitsFloppy)
    ensures FloppyOk(u, pc[p := x])
  {
    Stays(pc, p, x, HoldsFloppy);
    Stays(pc, p, x, WaitsFloppy);
  }

  lemma PfStays(u: Sem, pc: seq<Pc>, p: int, x: Pc)
    requires PfOk(u, pc) && 0 <= p < |pc|
    requires Is(x, WaitsPf) == Is(pc[p], WaitsPf)
    ensures PfOk(u, pc[p := x])
  {
    Stays(pc, p, x, WaitsPf);
  }

  lemma PageStays(u: Sem, pc: seq<Pc>, p: int, x: Pc)
    requires SemPageOk(u, pc) && 0 <= p < |pc|
    requires Is(x, WaitsPage) == Is(pc[p], WaitsPage)
    ensures SemPageOk(u, pc[p := x])
  {
    Stays(pc, p, x, WaitsPage);
  }

  // x is to the locks and queues what y is.
  ghost predicate Alike(x: Pc, y: Pc) {
    forall k: Kind | k != Credit :: Is(x, k) == Is(y, k)
  }

  lemma AlikeOk(s: System, p: int, x: Pc)
    requires LocksOk(s) && 0 <= p < |s.pc| && Alike(x, s.pc[p])
    ensures LocksOk(SetPc(s, p, x))
  {
    hide Is, Mutex, Queue, MmOk, FloppyOk, PfOk, SemPageOk;
    MmStays(s.sem_mm, s.pc, p, x);
    FloppyStays(s.sem_floppy, s.pc, p, x);
    PfStays(s.sem_pf, s.pc, p, x);
    PageStays(s.sem_page, s.pc, p, x);
  }

  // x neither holds nor waits for anything.
  ghost predicate Plain(x: Pc) {
    forall k: Kind | k != Credit :: !Is(x, k)
  }

  lemma TakeMm(s: System, p: int, w: Work)
    requires LocksOk(s) && 0 <= p < |s.pc| && Plain(s.pc[p])
    ensures LocksOk(SetPc(s.(sem_mm := P(s.sem_mm, p)), p, if s.sem_mm.val <= 0 then Queued(w) else In(w)))
  {
    hide Mutex, Queue, FloppyOk, PfOk, SemPageOk;
    var x := if s.sem_mm.val <= 0 then Queued(w) else In(w);
    Acquire(s.sem_mm, Those(s.pc, HoldsMm), Those(s.pc, WaitsMm), p);
    FloppyStays(s.sem_floppy, s.pc, p, x);
    PfStays(s.sem_pf, s.pc, p, x);
    PageStays(s.sem_page, s.pc, p, x);
    if s.sem_mm.val <= 0 {
      Stays(s.pc, p, x, HoldsMm);
      Joins(s.pc, p, x, WaitsMm);
    } else {
      Joins(s.pc, p, x, HoldsMm);
      Stays(s.pc, p, x, WaitsMm);
      assert {} + {p} == {p};
    }
  }

  lemma TakeFloppy(s: System, p: int, io: Io)
    requires LocksOk(s) && 0 <= p < |s.pc| && Plain(s.pc[p])
    ensures LocksOk(SetPc(s.(sem_floppy := P(s.sem_floppy, p)), p,
                          if s.sem_floppy.val <= 0 then FloppyQueued(io) else OnFloppy(io)))
  {
    hide Mutex, Queue, MmOk, PfOk, SemPageOk;
    var x := if s.sem_floppy.val <= 0 then FloppyQueued(io) else OnFloppy(io);
    Acquire(s.sem_floppy, Those(s.pc, HoldsFloppy), Those(s.pc, WaitsFloppy), p);
    MmStays(s.sem_mm, s.pc, p, x);
    PfStays(s.sem_pf, s.pc, p, x);
    PageStays(s.sem_page, s.pc, p, x);
    if s.sem_floppy.val <= 0 {
      Stays(s.pc, p, x, HoldsFloppy);
      Joins(s.pc, p, x, WaitsFloppy);
    } else {
      Joins(s.pc, p, x, HoldsFloppy);
      Stays(s.pc, p, x, WaitsFloppy);
      assert {} + {p} == {p};
    }
  }

  lemma JoinPf(s: System, p: int, x: int)
    requires LocksOk(s) && 0 <= p < |s.pc| && Plain(s.pc[p])
    ensures LocksOk(SetPc(s.(sem_pf := P(s.sem_pf, p)), p, if s.sem_pf.val <= 0 then PfQueued(x) else Ready(Pick(x))))
  {
    hide Mutex, Queue, MmOk, FloppyOk, SemPageOk;
    var pc := if s.sem_pf.val <= 0 then PfQueued(x) else Ready(Pick(x));
    Join(s.sem_pf, Those(s.pc, WaitsPf), p);
    MmStays(s.sem_mm, s.pc, p, pc);
    FloppyStays(s.sem_floppy, s.pc, p, pc);
    PageStays(s.sem_page, s.pc, p, pc);
    if s.sem_pf.val <= 0 { Joins(s.pc, p, pc, WaitsPf); } else { Stays(s.pc, p, pc, WaitsPf); }
  }

  lemma JoinPage(s: System, p: int)
    requires LocksOk(s) && 0 <= p < |s.pc| && Plain(s.pc[p])
    ensures LocksOk(SetPc(s.(sem_page := P(s.sem_page, p)), p, if s.sem_page.val <= 0 then DPage else DLoop))
  {
    hide Mutex, Queue, MmOk, FloppyOk, PfOk;
    var pc := if s.sem_page.val <= 0 then DPage else DLoop;
    Join(s.sem_page, Those(s.pc, WaitsPage), p);
    MmStays(s.sem_mm, s.pc, p, pc);
    FloppyStays(s.sem_floppy, s.pc, p, pc);
    PfStays(s.sem_pf, s.pc, p, pc);
    if s.sem_page.val <= 0 { Joins(s.pc, p, pc, WaitsPage); } else { Stays(s.pc, p, pc, WaitsPage); }
  }

  // sem_pf is signalled, and its first waiter may go on.
  lemma PopPf(s: System)
    requires LocksOk(s)
    ensures LocksOk(s.(sem_pf := V(s.sem_pf), pc := Wake(s.pc, s.sem_pf)))
    ensures WakesOne(s.pc, s.sem_pf, WaitsPf)
  {
    hide Mutex, Queue, MmOk, FloppyOk, SemPageOk;
    Pop(s.sem_pf, Those(s.pc, WaitsPf));
    if s.sem_pf.val < 0 {
      var w := s.sem_pf.q[0];
      var x := Admit(s.pc[w]);
      MmStays(s.sem_mm, s.pc, w, x);
      FloppyStays(s.sem_floppy, s.pc, w, x);
      PageStays(s.sem_page, s.pc, w, x);
      Leaves(s.pc, w, x, WaitsPf);
    }
  }

  lemma PopPage(s: System)
    requires LocksOk(s)
    ensures LocksOk(s.(sem_page := V(s.sem_page), pc := Wake(s.pc, s.sem_page)))
    ensures WakesOne(s.pc, s.sem_page, WaitsPage)
  {
    hide Mutex, Queue, MmOk, FloppyOk, PfOk;
    Pop(s.sem_page, Those(s.pc, WaitsPage));
    if s.sem_page.val < 0 {
      var w := s.sem_page.q[0];
      var x := Admit(s.pc[w]);
      MmStays(s.sem_mm, s.pc, w, x);
      FloppyStays(s.sem_floppy, s.pc, w, x);
      PfStays(s.sem_pf, s.pc, w, x);
      Leaves(s.pc, w, x, WaitsPage);
    }
  }

  // A signal wakes the first waiter, of kind k, exactly when the value is below zero.
  ghost predicate WakesOne(pc: seq<Pc>, u: Sem, k: Kind) {
    if u.val < 0
    then u.q != [] && 0 <= u.q[0] < |pc| && Is(pc[u.q[0]], k) && Wake(pc, u) == pc[u.q[0] := Admit(pc[u.q[0]])]
    else Wake(pc, u) == pc
  }

  // p gives sem_mm up, to the first waiter if there is one.
  lemma DropMm(s: System, p: int, next: Pc)
    requires LocksOk(s) && 0 <= p < |s.pc| && Is(s.pc[p], HoldsMm) && Plain(next)
    ensures LocksOk(s.(sem_mm := V(s.sem_mm), pc := Wake(s.pc[p := next], s.sem_mm)))
    ensures WakesOne(s.pc[p := next], s.sem_mm, WaitsMm) && (s.sem_mm.val < 0 ==> s.sem_mm.q[0] != p)
  {
    hide Mutex, Queue, FloppyOk, PfOk, SemPageOk;
    var pc1 := s.pc[p := next];
    Hand(s.sem_mm, Those(s.pc, HoldsMm), Those(s.pc, WaitsMm), p);
    Leaves(s.pc, p, next, HoldsMm);
    Stays(s.pc, p, next, WaitsMm);
    assert Those(pc1, HoldsMm) == {};
    FloppyStays(s.sem_floppy, s.pc, p, next);
    PfStays(s.sem_pf, s.pc, p, next);
    PageStays(s.sem_page, s.pc, p, next);
    if s.sem_mm.val < 0 {
      var w := s.sem_mm.q[0];
      var x := Admit(pc1[w]);
      Joins(pc1, w, x, HoldsMm);
      Leaves(pc1, w, x, WaitsMm);
      assert {} + {w} == {w};
      FloppyStays(s.sem_floppy, pc1, w, x);
      PfStays(s.sem_pf, pc1, w, x);
      PageStays(s.sem_page, pc1, w, x);
    }
  }

  lemma DropFloppy(s: System, p: int, next: Pc)
    requires LocksOk(s) && 0 <= p < |s.pc| && Is(s.pc[p], HoldsFloppy) && Plain(next)
    ensures LocksOk(s.(sem_floppy := V(s.sem_floppy), pc := Wake(s.pc[p := next], s.sem_floppy)))
    ensures WakesOne(s.pc[p := next], s.sem_floppy, WaitsFloppy) && (s.sem_floppy.val < 0 ==> s.sem_floppy.q[0] != p)
  {
    hide Mutex, Queue, MmOk, PfOk, SemPageOk;
    var pc1 := s.pc[p := next];
    Hand(s.sem_floppy, Those(s.pc, HoldsFloppy), Those(s.pc, WaitsFloppy), p);
    Leaves(s.pc, p, next, HoldsFloppy);
    Stays(s.pc, p, next, WaitsFloppy);
    assert Those(pc1, HoldsFloppy) == {};
    MmStays(s.sem_mm, s.pc, p, next);
    PfStays(s.sem_pf, s.pc, p, next);
    PageStays(s.sem_page, s.pc, p, next);
    if s.sem_floppy.val < 0 {
      var w := s.sem_floppy.q[0];
      var x := Admit(pc1[w]);
      Joins(pc1, w, x, HoldsFloppy);
      Leaves(pc1, w, x, WaitsFloppy);
      assert {} + {w} == {w};
      MmStays(s.sem_mm, pc1, w, x);
      PfStays(s.sem_pf, pc1, w, x);
      PageStays(s.sem_page, pc1, w, x);
    }
  }

  // ---------- the invariant of every run ----------

  ghost function Free(pfs: seq<Frame>): (r: set<int>)
    ensures forall i :: i in r <==> 0 <= i < |pfs| && pfs[i].pid == -1
  {
    set i | 0 <= i < |pfs| && pfs[i].pid == -1
  }

  lemma FreeUpdate(pfs: seq<Frame>, i: int, f: Frame)
    requires 0 <= i < |pfs|
    ensures |Free(pfs[i := f])| == |Free(pfs)| - (if pfs[i].pid == -1 then 1 else 0) + (if f.pid == -1 then 1 else 0)
  {
    var a, b := Free(pfs), Free(pfs[i := f]);
    assert b == if f.pid == -1 then (a - {i}) + {i} else a - {i};
  }

  // The free frames that neither a unit of sem_pf nor a credit stands for.
  ghost function Spare(s: System): int {
    |Free(s.pfs)| - (if s.sem_pf.val > 0 then s.sem_pf.val else 0) - |Those(s.pc, Credit)|
  }

  // The free frames cover the units of sem_pf and the credits that processes have.
  ghost predicate CreditOk(s: System) {
    Spare(s) >= 0
  }

  ghost predicate TerminalWork(t: int, w: Work) {
    match w
    case Pick(x) => CanSee(t, x)
    case Warn(x, pf) => CanSee(t, x) && IsFrame(pf)
    case PageIn(x, pf) => CanSee(t, x) && IsFrame(pf)
    case Loaded(x, pf, _) => CanSee(t, x) && IsFrame(pf)
    case Map(x, pf) => CanSee(t, x) && IsFrame(pf)
    case Release(i) => 0 <= i
    case Refund(i) => IsFrame(i)
    case _ => false
  }

  ghost predicate DaemonWork(w: Work) {
    (w.Scan? || w.Clear? || w.Written? || w.Give?) && IsFrame(w.i)
  }

  // Work that a process locks sem_mm for, rather than goes on to while it holds it.
  ghost predicate First(w: Work) {
    w.Pick? || w.PageIn? || w.Map? || w.Release? || w.Scan?
  }

  ghost predicate TerminalPc(t: int, pc: Pc) {
    match pc
    case Run => true
    case Gone => true
    case NoFrame => true
    case PfQueued(x) => CanSee(t, x)
    case Ready(w) => First(w) && TerminalWork(t, w)
    case Queued(w) => (First(w) || w.Loaded?) && TerminalWork(t, w)
    case In(w) => TerminalWork(t, w)
    case Leaving(next) => TerminalNext(t, next)
    case Swapping(io) => TerminalIo(t, io)
    case FloppyQueued(io) => TerminalIo(t, io)
    case OnFloppy(io) => TerminalIo(t, io)
    case Done(io) => TerminalIo(t, io)
    case Testing(x, pf) => CanSee(t, x) && IsFrame(pf)
    case _ => false
  }

  ghost predicate TerminalIo(t: int, io: Io) {
    io.Read? && CanSee(t, io.x) && IsFrame(io.pf)
  }

  ghost predicate TerminalNext(t: int, next: Pc) {
    match next
    case Run => true
    case Gone => true
    case Testing(x, pf) => CanSee(t, x) && IsFrame(pf)
    case Ready(w) => w.Map? && TerminalWork(t, w)
    case _ => false
  }

  ghost predicate DaemonPc(pc: Pc) {
    match pc
    case DTop => true
    case DPage => true
    case DLoop => true
    case NoSlot => true
    case Ready(w) => w.Scan? && DaemonWork(w)
    case Queued(w) => (w.Scan? || w.Written?) && DaemonWork(w)
    case In(w) => DaemonWork(w)
    case Leaving(next) => next == DLoop || (next.Ready? && next.w.Scan? && IsFrame(next.w.i))
    case Swapping(io) => io.Write? && IsFrame(io.pf)
    case FloppyQueued(io) => io.Write? && IsFrame(io.pf)
    case OnFloppy(io) => io.Write? && IsFrame(io.pf)
    case Done(io) => io.Write? && IsFrame(io.pf)
    case _ => false
  }

  ghost predicate Belongs(p: int, pc: Pc) {
    if p == DAEMON then DaemonPc(pc) else TerminalPc(p, pc)
  }

  ghost predicate Roles(pc: seq<Pc>) {
    forall p | 0 <= p < |pc| :: Belongs(p, pc[p])
  }

  // The frame being evicted is in use.
  ghost predicate EvictOk(s: System) {
    var e := if 0 <= DAEMON < |s.pc| then Evicting(s.pc[DAEMON]) else -1;
    e != -1 ==> 0 <= e < |s.pfs| && s.pfs[e].pid != -1
  }

  // The semaphores are in order, and every process is at a place of its own code.
  ghost predicate Firm(s: System) {
    Sized(s) && LocksOk(s) && Roles(s.pc)
  }

  ghost predicate Inv(s: System) {
    Firm(s) && CreditOk(s) && EvictOk(s)
  }

  // What the invariant says of process p.
  lemma Fact(s: System, p: int)
    requires Inv(s) && 0 <= p <= TER
    ensures Sized(s) && Belongs(p, s.pc[p]) && EvictOk(s)
  {
  }

  lemma FirmFact(s: System, p: int)
    requires Firm(s) && 0 <= p <= TER
    ensures Sized(s) && Belongs(p, s.pc[p])
  {
  }

  lemma Parts(s: System)
    requires Inv(s)
    ensures Firm(s) && Sized(s) && LocksOk(s) && CreditOk(s) && Roles(s.pc) && EvictOk(s)
  {
  }

  lemma FirmParts(s: System)
    requires Firm(s)
    ensures Sized(s) && LocksOk(s) && Roles(s.pc)
  {
  }

  lemma Whole(s: System)
    requires Sized(s) && LocksOk(s) && Roles(s.pc)
    ensures Firm(s)
  {
  }

  lemma RolesMove(pc: seq<Pc>, p: int, x: Pc)
    requires Roles(pc) && 0 <= p < |pc| && Belongs(p, x)
    ensures Roles(pc[p := x])
  {
    hide Belongs;
  }

  // ---------- where frames go ----------

  // A process with a unit takes no free frame for it: its shared page is in one, or none is free.
  ghost predicate TakesNone(s: System, e: Event) {
    && e.Step? && 0 <= e.p < |s.pc| && s.pc[e.p].In? && s.pc[e.p].w.Pick?
    && var x := s.pc[e.p].w.x;
       (Shared(x) && FirstShared(s.pfs, x % PAGES) < |s.pfs|) || FirstFree(s.pfs) == |s.pfs|
  }

  // The daemon frees a frame that its owner has given back meanwhile.
  ghost predicate FreesTwice(s: System, e: Event) {
    && e.Step? && 0 <= e.p < |s.pc| && s.pc[e.p].In? && s.pc[e.p].w.Written?
    && 0 <= s.pc[e.p].w.i < |s.pfs| && s.pfs[s.pc[e.p].w.i].pid == -1
  }

  // A terminating process gives back a frame that is being written out.
  ghost predicate Doubles(s: System, e: Event) {
    && e.Step? && 0 <= e.p < |s.pc| && s.pc[e.p].In? && s.pc[e.p].w.Release? && DAEMON < |s.pc|
    && 0 <= s.pc[e.p].w.i < |s.pfs| && Releases(s.pfs[s.pc[e.p].w.i], e.p) && Evicting(s.pc[DAEMON]) == s.pc[e.p].w.i
  }

  ghost function Gain(s: System, e: Event): int {
    (if TakesNone(s, e) then 1 else 0) - (if FreesTwice(s, e) then 1 else 0)
  }

  ghost function Unit(pc: Pc): int {
    if HasCredit(pc) then 1 else 0
  }

  // A wakeup changes the credits only when it passes a unit of sem_pf on.
  lemma WakeRest(pc: seq<Pc>, u: Sem, k: Kind)
    requires Roles(pc) && |pc| == TER + 1 && WakesOne(pc, u, k)
    requires k == WaitsMm || k == WaitsFloppy || k == WaitsPf || k == WaitsPage
    ensures Roles(Wake(pc, u))
    ensures |Those(Wake(pc, u), Credit)| == |Those(pc, Credit)| + (if u.val < 0 && k == WaitsPf then 1 else 0)
  {
    if u.val < 0 {
      assert Belongs(u.q[0], pc[u.q[0]]);
      Counted(pc, u.q[0], Admit(pc[u.q[0]]), Credit);
    }
  }

  // A step of p that leaves the semaphores alone.
  lemma Quiet(s: System, r: System, p: int)
    requires Firm(s) && Sized(r) && 0 <= p <= TER && r.pc == s.pc[p := r.pc[p]]
    requires r.sem_mm == s.sem_mm && r.sem_floppy == s.sem_floppy && r.sem_pf == s.sem_pf && r.sem_page == s.sem_page
    requires Alike(r.pc[p], s.pc[p]) && Belongs(p, r.pc[p])
    ensures Firm(r)
    ensures Spare(r) == Spare(s) + |Free(r.pfs)| - |Free(s.pfs)| + Unit(s.pc[p]) - Unit(r.pc[p])
  {
    AlikeOk(s, p, r.pc[p]);
    hide LocksOk, Those, Free;
    assert LocksOk(r) by { AlikeSame(s, r, p); }
    Counted(s.pc, p, r.pc[p], Credit);
  }

  lemma AlikeSame(s: System, r: System, p: int)
    requires 0 <= p < |s.pc| == |r.pc| && r.pc == s.pc[p := r.pc[p]] && LocksOk(SetPc(s, p, r.pc[p]))
    requires r.sem_mm == s.sem_mm && r.sem_floppy == s.sem_floppy && r.sem_pf == s.sem_pf && r.sem_page == s.sem_page
    ensures LocksOk(r)
  {
  }

  ghost predicate Working(s: System, p: int, w: Work) {
    Firm(s) && 0 <= p <= TER && s.pc[p] == In(w)
  }

  ghost predicate AtWork(s: System, p: int, w: Work) {
    Inv(s) && 0 <= p <= TER && s.pc[p] == In(w)
  }

  // What the step s to r of event e does to the frames.
  ghost predicate Accounted(s: System, e: Event, r: System) {
    Firm(r) && Spare(r) == Spare(s) + Gain(s, e)
  }

  lemma PickKept(s: System, p: int, x: int)
    requires Working(s, p, Pick(x))
    ensures Accounted(s, Step(p), Body(s, p, Pick(x)))
  {
    hide Firm, Roles, LocksOk, Spare;
    FirmFact(s, p);
    if FirstFree(s.pfs) < |s.pfs| {
      FreeUpdate(s.pfs, FirstFree(s.pfs), Frame(p, if Shared(x) then 2 else 1, x % PAGES, -1, -1));
    }
    Quiet(s, Body(s, p, Pick(x)), p);
  }

  // The credit of a process that is about to choose is a free frame.
  lemma FreeLeft(s: System, p: int, x: int)
    requires AtWork(s, p, Pick(x))
    ensures FirstFree(s.pfs) < |s.pfs|
  {
    assert p in Those(s.pc, Credit) && |Those(s.pc, Credit)| > 0;
    assert |Free(s.pfs)| > 0;
    var f :| f in Free(s.pfs);
  }

  lemma WarnKept(s: System, p: int, x: int, pf: int)
    requires Working(s, p, Warn(x, pf))
    ensures Accounted(s, Step(p), Body(s, p, Warn(x, pf)))
  {
    hide Firm, LocksOk, Those, Free, Roles;
    FirmFact(s, p);
    var s1 := SetPc(s, p, Leaving(Testing(x, pf)));
    Quiet(s, s1, p);
    FirmParts(s1);
    if s.sem_pf.val <= LOW {
      PopPage(s1);
      WakeRest(s1.pc, s1.sem_page, WaitsPage);
      Whole(Body(s, p, Warn(x, pf)));
    }
  }

  // Loaded, PageIn, Map: the frames stay as they are.
  lemma PageWorkKept(s: System, p: int, w: Work)
    requires Working(s, p, w) && (w.PageIn? || w.Loaded? || w.Map?)
    ensures Accounted(s, Step(p), Body(s, p, w))
  {
    hide Firm, Roles, LocksOk, Spare;
    FirmFact(s, p);
    var r := Body(s, p, w);
    if w.Loaded? { FreeUpdate(s.pfs, w.pf, r.pfs[w.pf]); }
    Quiet(s, r, p);
  }

  lemma ReleaseKept(s: System, p: int, i: int)
    requires Working(s, p, Release(i))
    ensures Accounted(s, Step(p), Body(s, p, Release(i)))
  {
    hide Firm, Roles, LocksOk, Spare;
    FirmFact(s, p);
    var r := Body(s, p, Release(i));
    if IsFrame(i) { FreeUpdate(s.pfs, i, r.pfs[i]); }
    Quiet(s, r, p);
  }

  lemma SignalKept(s: System, p: int, w: Work, next: Pc)
    requires Working(s, p, w) && (w.Refund? || w.Give?)
    requires Belongs(p, next) && next == (if w.Refund? then In(Release(w.i + 1)) else Leaving(NextScan(w.i)))
    ensures Accounted(s, Step(p), s.(sem_pf := V(s.sem_pf), pc := Wake(s.pc[p := next], s.sem_pf)))
  {
    hide Firm, LocksOk, Those, Free, Roles;
    FirmParts(s);
    FirmFact(s, p);
    var s1 := SetPc(s, p, next);
    AlikeOk(s, p, next);
    Counted(s.pc, p, next, Credit);
    RolesMove(s.pc, p, next);
    PopPf(s1);
    WakeRest(s1.pc, s1.sem_pf, WaitsPf);
    Whole(s1.(sem_pf := V(s.sem_pf), pc := Wake(s1.pc, s.sem_pf)));
  }

  lemma ScanKept(s: System, p: int, w: Work)
    requires Working(s, p, w) && (w.Scan? || w.Clear?)
    ensures Accounted(s, Step(p), Body(s, p, w))
  {
    hide Firm, Roles, LocksOk, Spare;
    FirmFact(s, p);
    Quiet(s, Body(s, p, w), p);
  }

  lemma WrittenKept(s: System, p: int, i: int)
    requires Working(s, p, Written(i))
    ensures Accounted(s, Step(p), Body(s, p, Written(i)))
  {
    hide Firm, Roles, LocksOk, Spare;
    FirmFact(s, p);
    var r := Body(s, p, Written(i));
    FreeUpdate(s.pfs, i, r.pfs[i]);
    Quiet(s, r, p);
  }

  lemma BodyKept(s: System, p: int, w: Work)
    requires Working(s, p, w)
    ensures Accounted(s, Step(p), Body(s, p, w))
  {
    WorkIn(s, p, w);
    hide Firm, Accounted;
    match w
    case Pick(x) => PickKept(s, p, x);
    case Warn(x, pf) => WarnKept(s, p, x, pf);
    case PageIn(_, _) => PageWorkKept(s, p, w);
    case Loaded(_, _, _) => PageWorkKept(s, p, w);
    case Map(_, _) => PageWorkKept(s, p, w);
    case Release(i) => ReleaseKept(s, p, i);
    case Refund(i) => SignalKept(s, p, w, In(Release(i + 1)));
    case Scan(_) => ScanKept(s, p, w);
    case Clear(_) => ScanKept(s, p, w);
    case Written(i) => WrittenKept(s, p, i);
    case Give(i) => SignalKept(s, p, w, Leaving(NextScan(i)));
  }

  lemma WorkIn(s: System, p: int, w: Work)
    requires Working(s, p, w)
    ensures if p == DAEMON then DaemonWork(w) else TerminalWork(p, w)
  {
    assert Belongs(p, s.pc[p]);
  }

  lemma ReadyKept(s: System, p: int, w: Work)
    requires Firm(s) && 0 <= p <= TER && s.pc[p] == Ready(w)
    ensures Accounted(s, Step(p), StepNext(s, p))
  {
    hide Firm, LocksOk, Those, Free, Roles;
    FirmParts(s);
    FirmFact(s, p);
    var r := StepNext(s, p);
    TakeMm(s, p, w);
    Counted(s.pc, p, r.pc[p], Credit);
    RolesMove(s.pc, p, r.pc[p]);
    Whole(r);
  }

  lemma LeavingKept(s: System, p: int)
    requires Firm(s) && 0 <= p <= TER && s.pc[p].Leaving?
    ensures Accounted(s, Step(p), StepNext(s, p))
  {
    hide Firm, LocksOk, Those, Free, Roles;
    FirmParts(s);
    FirmFact(s, p);
    var next := s.pc[p].next;
    DropMm(s, p, next);
    Counted(s.pc, p, next, Credit);
    RolesMove(s.pc, p, next);
    WakeRest(s.pc[p := next], s.sem_mm, WaitsMm);
    Whole(StepNext(s, p));
  }

  // A wakeup of another process and the move of p do not interfere.
  lemma WakeApart(pc: seq<Pc>, u: Sem, k: Kind, p: int, x: Pc, y: Pc)
    requires 0 <= p < |pc| && WakesOne(pc[p := x], u, k) && (u.val < 0 ==> u.q[0] != p)
    ensures WakesOne(pc[p := y], u, k) && Wake(pc[p := y], u) == Wake(pc[p := x], u)[p := y]
  {
    hide Is, Admit;
  }

  lemma SwapLocks(s: System, p: int, io: Io)
    requires LocksOk(s) && Sized(s) && 0 <= p <= TER && s.pc[p] == Swapping(io)
    ensures LocksOk(StepNext(s, p)) && WakesOne(s.pc[p := StepNext(s, p).pc[p]], s.sem_mm, WaitsMm)
    ensures StepNext(s, p).pc == Wake(s.pc[p := StepNext(s, p).pc[p]], s.sem_mm)
    ensures StepNext(s, p).pc[p] == if s.sem_floppy.val <= 0 then FloppyQueued(io) else OnFloppy(io)
  {
    hide LocksOk;
    var x := if s.sem_floppy.val <= 0 then FloppyQueued(io) else OnFloppy(io);
    DropMm(s, p, Run);
    TakeFloppy(s.(sem_mm := V(s.sem_mm), pc := Wake(s.pc[p := Run], s.sem_mm)), p, io);
    WakeApart(s.pc, s.sem_mm, WaitsMm, p, Run, x);
  }

  lemma SwapKept(s: System, p: int, io: Io)
    requires Firm(s) && 0 <= p <= TER && s.pc[p] == Swapping(io)
    ensures Accounted(s, Step(p), StepNext(s, p))
  {
    hide Firm, LocksOk, Those, Free, Roles;
    FirmParts(s);
    FirmFact(s, p);
    SwapLocks(s, p, io);
    var x := StepNext(s, p).pc[p];
    Counted(s.pc, p, x, Credit);
    RolesMove(s.pc, p, x);
    WakeRest(s.pc[p := x], s.sem_mm, WaitsMm);
    Whole(StepNext(s, p));
  }

  lemma DoneLocks(s: System, p: int, io: Io)
    requires LocksOk(s) && Sized(s) && 0 <= p <= TER && s.pc[p] == Done(io)
    ensures LocksOk(StepNext(s, p)) && WakesOne(s.pc[p := StepNext(s, p).pc[p]], s.sem_floppy, WaitsFloppy)
    ensures StepNext(s, p).pc == Wake(s.pc[p := StepNext(s, p).pc[p]], s.sem_floppy)
    ensures StepNext(s, p).pc[p] == if s.sem_mm.val <= 0 then Queued(Then(io)) else In(Then(io))
  {
    hide LocksOk;
    var x := if s.sem_mm.val <= 0 then Queued(Then(io)) else In(Then(io));
    DropFloppy(s, p, Run);
    TakeMm(s.(sem_floppy := V(s.sem_floppy), pc := Wake(s.pc[p := Run], s.sem_floppy)), p, Then(io));
    WakeApart(s.pc, s.sem_floppy, WaitsFloppy, p, Run, x);
  }

  lemma DoneKept(s: System, p: int, io: Io)
    requires Firm(s) && 0 <= p <= TER && s.pc[p] == Done(io)
    ensures Accounted(s, Step(p), StepNext(s, p))
  {
    hide Firm, LocksOk, Those, Free, Roles;
    FirmParts(s);
    FirmFact(s, p);
    DoneLocks(s, p, io);
    var x := StepNext(s, p).pc[p];
    Counted(s.pc, p, x, Credit);
    RolesMove(s.pc, p, x);
    WakeRest(s.pc[p := x], s.sem_floppy, WaitsFloppy);
    Whole(StepNext(s, p));
  }

  lemma FaultKept(s: System, t: int, x: int)
    requires Firm(s) && Enabled(s, Fault(t, x))
    ensures Accounted(s, Fault(t, x), Next(s, Fault(t, x)))
  {
    hide Firm, LocksOk, Those, Free, Roles;
    FirmParts(s);
    var r := Next(s, Fault(t, x));
    JoinPf(s, t, x);
    Counted(s.pc, t, r.pc[t], Credit);
    RolesMove(s.pc, t, r.pc[t]);
    Whole(r);
  }

  lemma TopKept(s: System)
    requires Firm(s) && Sized(s) && s.pc[DAEMON] == DTop
    ensures Accounted(s, Step(DAEMON), StepNext(s, DAEMON))
  {
    hide Firm, LocksOk, Those, Free, Roles;
    FirmParts(s);
    var r := StepNext(s, DAEMON);
    JoinPage(s, DAEMON);
    Counted(s.pc, DAEMON, r.pc[DAEMON], Credit);
    RolesMove(s.pc, DAEMON, r.pc[DAEMON]);
    Whole(r);
  }

  lemma TransferKept(s: System, p: int)
    requires Firm(s) && 0 <= p <= TER && Sized(s) && s.pc[p].OnFloppy?
    ensures Accounted(s, Step(p), StepNext(s, p))
  {
    hide Firm, LocksOk, Those, Free, Roles;
    FirmFact(s, p);
    Quiet(s, StepNext(s, p), p);
  }

  lemma TestingKept(s: System, p: int)
    requires Firm(s) && 0 <= p <= TER && Sized(s) && (s.pc[p].Testing? || s.pc[p] == DLoop)
    ensures Accounted(s, Step(p), StepNext(s, p))
  {
    hide Firm, LocksOk, Those, Free, Roles;
    FirmFact(s, p);
    Quiet(s, StepNext(s, p), p);
  }

  lemma QuitKept(s: System, t: int)
    requires Firm(s) && Enabled(s, Quit(t))
    ensures Accounted(s, Quit(t), Next(s, Quit(t)))
  {
    hide Firm, LocksOk, Those, Free, Roles;
    FirmFact(s, t);
    Quiet(s, Next(s, Quit(t)), t);
  }

  lemma AccessKept(s: System, e: Event, r: System)
    requires Firm(s) && (e.Touch? || e.Store?) && Sized(r) && r == s.(pt := r.pt, mem := r.mem, flat := r.flat)
    ensures Accounted(s, e, r)
  {
  }

  lemma ProcessKept(s: System, p: int)
    requires Firm(s) && Enabled(s, Step(p))
    ensures Accounted(s, Step(p), StepNext(s, p))
  {
    hide Firm, Accounted, Body;
    FirmFact(s, p);
    match s.pc[p]
    case Ready(w) => ReadyKept(s, p, w);
    case In(w) => BodyKept(s, p, w);
    case Leaving(_) => LeavingKept(s, p);
    case Swapping(io) => SwapKept(s, p, io);
    case Done(io) => DoneKept(s, p, io);
    case OnFloppy(_) => TransferKept(s, p);
    case DTop => TopKept(s);
    case Testing(_, _) => TestingKept(s, p);
    case DLoop => TestingKept(s, p);
  }

  // In every step the frames to spare change only as Gain says.
  lemma StepKept(s: System, e: Event)
    requires Firm(s) && Enabled(s, e)
    ensures Accounted(s, e, Next(s, e))
  {
    hide Firm, Accounted, StepNext;
    match e
    case Touch(_, _) => AccessKept(s, e, Next(s, e));
    case Store(_, _, _) => AccessKept(s, e, Next(s, e));
    case Fault(t, x) => FaultKept(s, t, x);
    case Quit(t) => QuitKept(s, t);
    case Step(p) => ProcessKept(s, p);
  }

  // ---------- the frame being evicted ----------

  lemma WakeEvicting(pc: seq<Pc>, u: Sem)
    requires DAEMON < |pc| && DaemonPc(pc[DAEMON])
    ensures Evicting(Wake(pc, u)[DAEMON]) == Evicting(pc[DAEMON])
  {
  }

  lemma BodyEvicts(s: System, p: int, w: Work)
    requires Working(s, p, w) && EvictOk(s) && !Doubles(s, Step(p))
    ensures EvictOk(Body(s, p, w))
  {
    hide Firm, Wake;
    FirmFact(s, p);
    FirmFact(s, DAEMON);
    match w
    case Warn(x, pf) => WakeEvicting(s.pc[p := Leaving(Testing(x, pf))], s.sem_page);
    case Refund(i) => WakeEvicting(s.pc[p := In(Release(i + 1))], s.sem_pf);
    case Give(i) => WakeEvicting(s.pc[p := Leaving(NextScan(i))], s.sem_pf);
    case _ =>
  }

  lemma StepEvicts(s: System, e: Event)
    requires Firm(s) && EvictOk(s) && Enabled(s, e) && !Doubles(s, e)
    ensures EvictOk(Next(s, e))
  {
    hide Firm, Body, Wake, Transfer;
    FirmFact(s, DAEMON);
    if e.Step? {
      FirmFact(s, e.p);
      match s.pc[e.p]
      case In(w) => BodyEvicts(s, e.p, w);
      case Leaving(next) => WakeEvicting(s.pc[e.p := next], s.sem_mm);
      case Swapping(io) =>
        WakeEvicting(s.pc[e.p := if s.sem_floppy.val <= 0 then FloppyQueued(io) else OnFloppy(io)], s.sem_mm);
      case Done(io) =>
        WakeEvicting(s.pc[e.p := if s.sem_mm.val <= 0 then Queued(Then(io)) else In(Then(io))], s.sem_floppy);
      case OnFloppy(io) => TransferFrames(s, io);
      case _ =>
    }
  }

  lemma TransferFrames(s: System, io: Io)
    requires Sized(s)
    ensures Transfer(s, io).pfs == s.pfs && Transfer(s, io).pc == s.pc
  {
  }

  // The daemon frees no frame twice unless one that it writes out was given back.
  lemma NotTwice(s: System, e: Event)
    requires Inv(s) && Enabled(s, e)
    ensures !FreesTwice(s, e)
  {
    hide Firm, CreditOk;
    if e.Step? { FirmFact(s, e.p); }
  }

  lemma StepInv(s: System, e: Event)
    requires Inv(s) && Enabled(s, e) && !Doubles(s, e)
    ensures Inv(Next(s, e))
  {
    NotTwice(s, e);
    StepKept(s, e);
    StepEvicts(s, e);
    hide Firm, Spare, EvictOk, Doubles, FreesTwice, TakesNone;
  }

  lemma InitialInv(mem: seq<int>, store: seq<int>, warned: nat)
    requires |mem| == MAXFRAMES && |store| == SLOTS
    ensures Inv(Initial(mem, store, warned)) && Spare(Initial(mem, store, warned)) == 0
  {
    var s := Initial(mem, store, warned);
    forall k: Kind ensures Those(s.pc, k) == {} {}
    FreeAbove(s.pfs, MAXFRAMES);
  }

  lemma {:induction false} FreeAbove(pfs: seq<Frame>, n: nat)
    requires TER <= n <= |pfs| && forall i | 0 <= i < |pfs| :: pfs[i].pid == -1 <==> i >= TER
    ensures |set i | 0 <= i < n && pfs[i].pid == -1| == n - TER
  {
    var a := set i | 0 <= i < n && pfs[i].pid == -1;
    if n == TER {
      assert a == {};
    } else {
      var b := set i | 0 <= i < n - 1 && pfs[i].pid == -1;
      FreeAbove(pfs, n - 1);
      assert a == b + {n - 1};
    }
  }

  // ---------- runs ----------

  // No terminating process gives back a frame that is being written out.
  ghost predicate Single(s: System, es: seq<Event>)
    requires Legal(s, es)
    decreases |es|
  {
    es == [] || (!Doubles(s, es[0]) && Single(Next(s, es[0]), es[1..]))
  }

  lemma {:induction false} RunInv(s: System, es: seq<Event>)
    requires Inv(s) && Legal(s, es) && Single(s, es)
    ensures Inv(Reached(s, es))
    decreases |es|
  {
    hide Inv, Next, Enabled, Doubles;
    if es != [] {
      StepInv(s, es[0]);
      RunInv(Next(s, es[0]), es[1..]);
    }
  }

  ghost function Gains(s: System, es: seq<Event>): int
    requires Legal(s, es)
    decreases |es|
  {
    if es == [] then 0 else Gain(s, es[0]) + Gains(Next(s, es[0]), es[1..])
  }

  lemma {:induction false} RunKept(s: System, es: seq<Event>)
    requires Firm(s) && Legal(s, es)
    ensures Firm(Reached(s, es)) && Spare(Reached(s, es)) == Spare(s) + Gains(s, es)
    decreases |es|
  {
    hide Firm, Next, Enabled, Spare, Gain;
    if es != [] {
      StepKept(s, es[0]);
      RunKept(Next(s, es[0]), es[1..]);
    }
  }

  // Frames are conserved: in every interleaving, of faults on private and shared pages, of
  // evictions and of terminations, the free frames are the units of sem_pf and the credits,
  // and one more for each fault that took no free frame, and one less for each frame that the
  // daemon freed although its owner had given it back.
  lemma FramesConserved(mem: seq<int>, store: seq<int>, warned: nat, es: seq<Event>)
    requires |mem| == MAXFRAMES && |store| == SLOTS && Legal(Initial(mem, store, warned), es)
    ensures var s0, s := Initial(mem, store, warned), Reached(Initial(mem, store, warned), es);
            |Free(s.pfs)| == (if s.sem_pf.val > 0 then s.sem_pf.val else 0) + |Those(s.pc, Credit)| + Gains(s0, es)
  {
    hide Initial, Firm, Reached, Legal, Gains;
    InitialInv(mem, store, warned);
    RunKept(Initial(mem, store, warned), es);
  }

  // So a process that has its unit finds no frame if and only if its page is not a shared one
  // that is in a frame, and units, credits and gains add up to zero: as it has a credit itself,
  // the daemon must have freed frames twice, more often than faults took no free frame.
  lemma FailsIff(mem: seq<int>, store: seq<int>, warned: nat, es: seq<Event>, p: int, x: int)
    requires |mem| == MAXFRAMES && |store| == SLOTS && Legal(Initial(mem, store, warned), es)
    requires var s := Reached(Initial(mem, store, warned), es); 0 <= p < |s.pc| && s.pc[p] == In(Pick(x))
    ensures var s0, s := Initial(mem, store, warned), Reached(Initial(mem, store, warned), es);
            var stands := (if s.sem_pf.val > 0 then s.sem_pf.val else 0) + |Those(s.pc, Credit)|;
            && Sized(s) && p <= TER && stands > 0
            && (Body(s, p, Pick(x)).pc[p] == NoFrame <==>
                !(Shared(x) && FirstShared(s.pfs, x % PAGES) < |s.pfs|) && stands + Gains(s0, es) == 0)
  {
    hide Initial, Gains, Legal, Reached, Firm;
    FramesConserved(mem, store, warned, es);
    InitialInv(mem, store, warned);
    RunKept(Initial(mem, store, warned), es);
    var s := Reached(Initial(mem, store, warned), es);
    FirmFact(s, 0);
    assert p in Those(s.pc, Credit) && |Those(s.pc, Credit)| > 0;
    NoneFree(s.pfs);
  }

  lemma NoneFree(pfs: seq<Frame>)
    ensures FirstFree(pfs) == |pfs| <==> |Free(pfs)| == 0
  {
    if |Free(pfs)| > 0 {
      var f :| f in Free(pfs);
    } else {
      assert Free(pfs) == {};
    }
  }

  // In every interleaving in which no process gives back a frame that is being written out
  // the search of getfreeframe never fails.
  lemma FrameCredit(mem: seq<int>, store: seq<int>, warned: nat, es: seq<Event>)
    requires |mem| == MAXFRAMES && |store| == SLOTS && Legal(Initial(mem, store, warned), es)
    requires Single(Initial(mem, store, warned), es)
    ensures var s := Reached(Initial(mem, store, warned), es);
            && |Free(s.pfs)| >= (if s.sem_pf.val > 0 then s.sem_pf.val else 0) + |Those(s.pc, Credit)|
            && (forall p | 0 <= p < |s.pc| && s.pc[p].In? && s.pc[p].w.Pick? :: FirstFree(s.pfs) < |s.pfs|)
  {
    InitialInv(mem, store, warned);
    RunInv(Initial(mem, store, warned), es);
    var s := Reached(Initial(mem, store, warned), es);
    forall p | 0 <= p < |s.pc| && s.pc[p].In? && s.pc[p].w.Pick? ensures FirstFree(s.pfs) < |s.pfs| {
      FreeLeft(s, p, s.pc[p].w.x);
    }
  }
}
