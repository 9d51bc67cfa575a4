// Which pages have a disk position, which positions are taken, and when the search for a free
// one fails, in every run on private pages.
module DiskPositions {
  import opened Base
  import opened Semaphore
  import opened Paging
  import opened FrameCredit
  import opened PageState
  import opened FlatMemory
  import opened RealMemory

  ghost function Taken(disk: seq<int>): (r: set<int>)
    ensures forall j :: j in r <==> 0 <= j < |disk| && disk[j] != -1
  {
    set j | 0 <= j < |disk| && disk[j] != -1
  }

  // The pages that have a position.
  ghost function Owned(slot: seq<int>): (r: set<int>)
    ensures forall x :: x in r <==> 0 <= x < |slot| && slot[x] != -1
  {
    set x | 0 <= x < |slot| && slot[x] != -1
  }

  lemma TakenUpdate(disk: seq<int>, j: int)
    requires 0 <= j < |disk| && disk[j] == -1
    ensures |Taken(disk[j := 1])| == |Taken(disk)| + 1
  {
    assert Taken(disk[j := 1]) == Taken(disk) + {j};
  }

  lemma OwnedUpdate(slot: seq<int>, x: int, j: int)
    requires 0 <= x < |slot|
    ensures |Owned(slot[x := j])| == |Owned(slot)| - (if slot[x] != -1 then 1 else 0) + (if j != -1 then 1 else 0)
  {
    assert Owned(slot[x := j]) == if j != -1 then (Owned(slot) - {x}) + {x} else Owned(slot) - {x};
  }

  // The taken positions that are no page's.
  ghost function Strays(k: System): int {
    |Taken(k.disk)| - |Owned(k.slot)|
  }

  // ---------- one step ----------

  ghost predicate AtClear(k: System) {
    DAEMON < |k.pc| && k.pc[DAEMON].In? && k.pc[DAEMON].w.Clear?
  }

  lemma TerminalSlots(s: System, p: int)
    requires Sized(s) && 0 <= p < TER && TerminalPc(p, s.pc[p])
    ensures var r := StepNext(s, p);
            Sized(r) && r.slot == s.slot && r.disk == s.disk && (r.pc[DAEMON] == NoSlot ==> s.pc[DAEMON] == NoSlot)
  {
    hide Transfer, Body, Wake, TerminalNext, TerminalIo;
    match s.pc[p]
    case In(w) => TerminalWorkSlots(s, p, w);
    case Leaving(next) => WakeStops(s.pc[p := next], s.sem_mm);
    case Swapping(_) => WakeStops(s.pc[p := Onward(s, p)], s.sem_mm);
    case Done(_) => WakeStops(s.pc[p := Onward(s, p)], s.sem_floppy);
    case OnFloppy(io) => TransferFlat(s, io);
    case _ =>
  }

  // Where process p goes when it moves to a floppy request or from one.
  ghost function Onward(s: System, p: int): Pc
    requires Sized(s) && 0 <= p <= TER && (s.pc[p].Swapping? || s.pc[p].Done?)
  {
    var io := s.pc[p].io;
    if s.pc[p].Swapping? then (if s.sem_floppy.val <= 0 then FloppyQueued(io) else OnFloppy(io))
    else if s.sem_mm.val <= 0 then Queued(Then(io)) else In(Then(io))
  }

  // Nobody stops because of a signal.
  lemma WakeStops(pc: seq<Pc>, u: Sem)
    requires DAEMON < |pc|
    ensures Wake(pc, u)[DAEMON] == NoSlot ==> pc[DAEMON] == NoSlot
  {
  }

  lemma TerminalWorkSlots(s: System, p: int, w: Work)
    requires Sized(s) && 0 <= p < TER && !w.Clear?
    ensures var r := Body(s, p, w);
            Sized(r) && r.slot == s.slot && r.disk == s.disk && (r.pc[DAEMON] == NoSlot ==> s.pc[DAEMON] == NoSlot)
  {
    hide Wake, Choose, PageOf, SlotOf;
    if w.Warn? { WakeStops(s.pc[p := Leaving(Testing(w.x, w.pf))], s.sem_page); }
    if w.Refund? { WakeStops(s.pc[p := In(Release(w.i + 1))], s.sem_pf); }
    if w.Give? { WakeStops(s.pc[p := Leaving(NextScan(w.i))], s.sem_pf); }
  }

  lemma DaemonSlots(s: System)
    requires Sized(s) && DaemonPc(s.pc[DAEMON])
    requires !(s.pc[DAEMON].In? && s.pc[DAEMON].w.Clear?) && s.pc[DAEMON] != NoSlot
    ensures var r := StepNext(s, DAEMON); Sized(r) && r.slot == s.slot && r.disk == s.disk && r.pc[DAEMON] != NoSlot
  {
    hide Choose;
  }

  // Only the daemon's clearing of a present bit touches positions, or stops the daemon.
  lemma OtherwiseSame(k: System, e: Event)
    requires Fine(k) && Own(k, e) && !(e == Step(DAEMON) && AtClear(k))
    ensures var r := Really(k, e);
            && Sized(r) && r.slot == k.slot && r.disk == k.disk && (r.pc[DAEMON] == NoSlot ==> k.pc[DAEMON] == NoSlot)
            && forall x :: !Races(k, e, x)
  {
    hide Inv, Sound, StepNext;
    HistoryInv(Settled(k), k);
    if e.Step? {
      Fact(k, e.p);
      if e.p != DAEMON { TerminalSlots(k, e.p); } else if k.pc[DAEMON] != NoSlot { DaemonSlots(k); }
    }
  }

  // What the clearing does to them.
  ghost predicate Clears(k: System, r: System, x: int)
    requires IsPage(x) && Sized(k)
  {
    var f := FirstSlot(k.disk);
    if k.slot[x] != -1 then
      r.disk == k.disk && r.slot == if k.pt[x].r then k.slot[x := -1] else k.slot
    else
      f < SLOTS && r.disk == k.disk[f := 1] && r.slot == if k.pt[x].r then k.slot else k.slot[x := f]
  }

  lemma ClearDoes(k: System)
    requires Fine(k) && Own(k, Step(DAEMON)) && AtClear(k)
    ensures var r, x := Really(k, Step(DAEMON)), Victim(k);
            && Sized(r) && IsPage(x) && (k.slot[x] == -1 || 0 <= k.slot[x] < SLOTS)
            && (MakesAbsent(k, x) <==> k.slot[x] != -1 || FirstSlot(k.disk) < SLOTS)
            && (if MakesAbsent(k, x) then Clears(k, r, x) && r.pc[DAEMON].Swapping?
                else r.disk == k.disk && r.slot == k.slot && r.pc[DAEMON] == NoSlot)
            && (Races(k, Step(DAEMON), x) <==> MakesAbsent(k, x) && k.pt[x].r)
  {
    hide Fine;
    VictimFacts(k);
    assert k.slot[Victim(k) := -1] == k.slot || k.slot[Victim(k)] != -1;
  }

  ghost function Loss(k: System, e: Event): nat
    requires Enabled(k, e)
  {
    if Races(k, e, Victim(k)) then 1 else 0
  }

  lemma StepStrays(k: System, e: Event)
    requires Fine(k) && Own(k, e)
    ensures Strays(Really(k, e)) == Strays(k) + Loss(k, e)
  {
    hide Fine, Really, Races, Enabled;
    if e == Step(DAEMON) && AtClear(k) {
      FineSized(k);
      ClearDoes(k);
      var x, f := Victim(k), FirstSlot(k.disk);
      OwnedUpdate(k.slot, x, f);
      OwnedUpdate(k.slot, x, -1);
      if f < SLOTS { TakenUpdate(k.disk, f); }
    } else {
      OtherwiseSame(k, e);
    }
  }

  // ---------- runs ----------

  // How many pages lose their position.
  ghost function Lost(k: System, es: seq<Event>): nat
    requires RealRun(k, es)
    decreases |es|
  {
    if es == [] then 0 else Loss(k, es[0]) + Lost(Really(k, es[0]), es[1..])
  }

  // Positions are conserved: in every run the taken positions are those of the pages that
  // have one, and one more for each race.
  lemma {:induction false} PositionsConserved(k: System, es: seq<Event>)
    requires Fine(k) && RealRun(k, es)
    ensures |Taken(Truth(k, es).disk)| - |Owned(Truth(k, es).slot)| == |Taken(k.disk)| - |Owned(k.slot)| + Lost(k, es)
    decreases |es|
  {
    hide Fine, Enabled, Really, Loss;
    if es != [] {
      StepStrays(k, es[0]);
      FineStep(k, es[0]);
      PositionsConserved(Really(k, es[0]), es[1..]);
    }
  }

  lemma StartPositions(mem: seq<int>, store: seq<int>, warned: nat)
    requires |mem| == MAXFRAMES && |store| == SLOTS
    ensures var k := Initial(mem, store, warned);
            Fine(k) && Taken(k.disk) == {} && Owned(k.slot) == {} && k.pc[DAEMON] != NoSlot
  {
    InitialOk(mem, store, warned);
    OkFine(Initial(mem, store, warned));
  }

  lemma FullIff(disk: seq<int>)
    ensures |Taken(disk)| <= |disk| && (FirstSlot(disk) == |disk| <==> |Taken(disk)| == |disk|)
  {
    assert Taken(disk) <= Range(|disk|);
    SubsetSize(Taken(disk), Range(|disk|));
    if FirstSlot(disk) == |disk| { assert Taken(disk) == Range(|disk|); }
    if |Taken(disk)| == |disk| {
      assert FirstSlot(disk) in Range(|disk|) <==> FirstSlot(disk) in Taken(disk);
    }
  }

  // Only private pages ever have a position.
  lemma OwnedPrivate(k: System, x: int)
    requires Fine(k)
    ensures |Owned(k.slot)| <= TER * PAGES
    ensures 0 <= x < TER * PAGES && x < |k.slot| && k.slot[x] == -1 ==> |Owned(k.slot)| < TER * PAGES
  {
    var o, r := Owned(k.slot), Range(TER * PAGES);
    forall y | y in o ensures y in r { PrivateOnly(k, y); }
    SubsetSize(o, r);
    if 0 <= x < TER * PAGES && x < |k.slot| && k.slot[x] == -1 { assert x in r && x !in o; }
  }

  lemma PrivateOnly(k: System, y: int)
    requires Fine(k) && y in Owned(k.slot)
    ensures 0 <= y < TER * PAGES
  {
    hide Inv, Chains, Frames, DaemonOk, SlotsOk;
    assert PageOk(ViewOf(Settled(k)), y);
  }

  // In every run: when the daemon is about to clear the present bit of a page, it finds no
  // position for it, and stops, if and only if the page has none, and the pages that have one
  // and the races so far make up the whole table.
  lemma SearchFailsIff(mem: seq<int>, store: seq<int>, warned: nat, es: seq<Event>)
    requires |mem| == MAXFRAMES && |store| == SLOTS && RealRun(Initial(mem, store, warned), es)
    requires var s := Truth(Initial(mem, store, warned), es); Own(s, Step(DAEMON)) && AtClear(s)
    ensures var k, s := Initial(mem, store, warned), Truth(Initial(mem, store, warned), es);
            && IsPage(Victim(s))
            && (Next(s, Step(DAEMON)) == SetPc(s, DAEMON, NoSlot) <==>
                s.slot[Victim(s)] == -1 && |Owned(s.slot)| + Lost(k, es) == SLOTS)
  {
    hide Initial, Fine, Next, Really, RealRun, Truth, Lost, Enabled;
    var k := Initial(mem, store, warned);
    StartPositions(mem, store, warned);
    RunFine(k, es);
    PositionsConserved(k, es);
    var s := Truth(k, es);
    FineSized(s);
    ClearDoes(s);
    FullIff(s.disk);
  }

  // A step does not stop the daemon while a position is left for every private page.
  lemma StepFinds(k: System, e: Event)
    requires Fine(k) && Own(k, e) && k.pc[DAEMON] != NoSlot && Strays(k) <= SLOTS - TER * PAGES
    ensures Sized(Really(k, e)) && Really(k, e).pc[DAEMON] != NoSlot
  {
    hide Fine, Really, Races, Enabled;
    if e == Step(DAEMON) && AtClear(k) {
      FineSized(k);
      ClearDoes(k);
      VictimFacts(k);
      OwnedPrivate(k, Victim(k));
      FullIff(k.disk);
    } else {
      OtherwiseSame(k, e);
    }
  }

  lemma {:induction false} RunFinds(k: System, es: seq<Event>)
    requires Fine(k) && RealRun(k, es) && k.pc[DAEMON] != NoSlot && Strays(k) + Lost(k, es) <= SLOTS - TER * PAGES
    ensures Sized(Truth(k, es)) && Truth(k, es).pc[DAEMON] != NoSlot
    decreases |es|
  {
    hide Fine, Enabled, Really, Loss, Strays;
    FineSized(k);
    if es != [] {
      StepFinds(k, es[0]);
      StepStrays(k, es[0]);
      FineStep(k, es[0]);
      RunFinds(Really(k, es[0]), es[1..]);
    }
  }

  // In every run at most one position is taken for each private page and each race, and the
  // search for one never fails while there are as many.
  lemma PositionsSuffice(mem: seq<int>, store: seq<int>, warned: nat, es: seq<Event>)
    requires |mem| == MAXFRAMES && |store| == SLOTS && RealRun(Initial(mem, store, warned), es)
    ensures var k, s := Initial(mem, store, warned), Truth(Initial(mem, store, warned), es);
            && |Taken(s.disk)| == |Owned(s.slot)| + Lost(k, es) <= TER * PAGES + Lost(k, es)
            && Sized(s) && (Lost(k, es) <= SLOTS - TER * PAGES ==> s.pc[DAEMON] != NoSlot)
  {
    hide Initial, Fine, Next, Really, RealRun, Truth, Lost, Enabled;
    var k := Initial(mem, store, warned);
    StartPositions(mem, store, warned);
    RunFine(k, es);
    PositionsConserved(k, es);
    OwnedPrivate(Truth(k, es), -1);
    FineSized(Truth(k, es));
    if Lost(k, es) <= SLOTS - TER * PAGES { RunFinds(k, es); }
  }

  // ---------- what becomes of one page's position ----------

  lemma StepDisk(s: System, e: Event, k: int)
    requires Enabled(s, e) && 0 <= k < SLOTS && s.disk[k] != -1
    ensures Sized(Next(s, e)) && Next(s, e).disk[k] != -1
  {
    hide Body, Wake, Transfer;
    if e.Step? {
      if s.pc[e.p].In? { BodyDisk(s, e.p, s.pc[e.p].w, k); }
      if s.pc[e.p].OnFloppy? { TransferFlat(s, s.pc[e.p].io); }
    }
  }

  lemma BodyDisk(s: System, p: int, w: Work, k: int)
    requires Sized(s) && 0 <= p <= TER && 0 <= k < SLOTS && s.disk[k] != -1
    ensures Sized(Body(s, p, w)) && Body(s, p, w).disk[k] != -1
  {
    hide Wake, Choose;
  }

  // No position is ever given back, in any run.
  lemma {:induction false} DiskKept(s: System, es: seq<Event>, k: int)
    requires Legal(s, es) && Sized(s) && 0 <= k < SLOTS && s.disk[k] != -1
    ensures Sized(Reached(s, es)) && Reached(s, es).disk[k] != -1
    decreases |es|
  {
    if es != [] {
      StepDisk(s, es[0], k);
      DiskKept(Next(s, es[0]), es[1..], k);
    }
  }

  lemma TakenOnce(k: System, e: Event, j: int)
    requires Enabled(k, e) && 0 <= j < SLOTS && k.disk[j] != -1
    ensures Sized(Really(k, e)) && Really(k, e).disk[j] != -1
  {
    StepDisk(k, e, j);
    hide Next;
  }

  // The position that a page has is taken.
  lemma PositionTaken(k: System, x: int)
    requires Fine(k) && IsPage(x) && k.slot[x] != -1
    ensures 0 <= k.slot[x] < SLOTS && k.disk[k.slot[x]] != -1
  {
    hide Inv, Pages, Chains, Frames, DaemonOk;
    assert SlotsOk(ViewOf(Settled(k)).slot, ViewOf(Settled(k)).disk);
  }

  // A taken position that is not the page's never becomes it.
  lemma StepNever(k: System, e: Event, x: int, j: int)
    requires Fine(k) && Own(k, e) && IsPage(x) && 0 <= j < SLOTS && k.disk[j] != -1 && k.slot[x] != j
    ensures var r := Really(k, e); Sized(r) && r.disk[j] != -1 && r.slot[x] != j
  {
    hide Fine, Really, Races, Enabled;
    FineSized(k);
    if e == Step(DAEMON) && AtClear(k) { ClearDoes(k); } else { OtherwiseSame(k, e); }
  }

  lemma {:induction false} NeverAgain(k: System, es: seq<Event>, x: int, j: int)
    requires Fine(k) && RealRun(k, es) && IsPage(x) && 0 <= j < SLOTS && k.disk[j] != -1 && k.slot[x] != j
    ensures var r := Truth(k, es); Sized(r) && r.disk[j] != -1 && r.slot[x] != j
    decreases |es|
  {
    hide Fine, Enabled, Really;
    FineSized(k);
    if es != [] {
      StepNever(k, es[0], x, j);
      FineStep(k, es[0]);
      NeverAgain(Really(k, es[0]), es[1..], x, j);
    }
  }

  lemma StepKeepsIff(k: System, e: Event, x: int)
    requires Fine(k) && Own(k, e) && IsPage(x) && k.slot[x] != -1
    ensures Sized(Really(k, e)) && (Really(k, e).slot[x] == k.slot[x] <==> !Races(k, e, x))
    ensures 0 <= k.slot[x] < SLOTS && k.disk[k.slot[x]] != -1 && Really(k, e).disk[k.slot[x]] != -1
  {
    PositionTaken(k, x);
    TakenOnce(k, e, k.slot[x]);
    hide Fine, Really, Enabled;
    if e == Step(DAEMON) && AtClear(k) { ClearDoes(k); } else { OtherwiseSame(k, e); }
  }

  // In every run a page that has a position has the same one at the end if and only if it was
  // not raced.
  lemma {:induction false} PositionKeptIff(k: System, es: seq<Event>, x: int)
    requires Fine(k) && RealRun(k, es) && IsPage(x) && k.slot[x] != -1
    ensures Sized(Truth(k, es)) && (Truth(k, es).slot[x] == k.slot[x] <==> Unraced(k, es, x))
    decreases |es|
  {
    hide Fine, Enabled, Really, Races;
    FineSized(k);
    if es != [] {
      StepKeepsIff(k, es[0], x);
      FineStep(k, es[0]);
      if Races(k, es[0], x) {
        NeverAgain(Really(k, es[0]), es[1..], x, k.slot[x]);
      } else {
        PositionKeptIff(Really(k, es[0]), es[1..], x);
      }
    }
  }

  // An eviction takes the position that the page has, or a free one, which is taken then.
  lemma EvictionTakes(k: System, x: int)
    requires Fine(k) && MakesAbsent(k, x)
    ensures var r := Really(k, Step(DAEMON));
            && Sized(r) && 0 <= r.pt[x].frame < SLOTS && r.disk[r.pt[x].frame] != -1
            && (if k.slot[x] == -1 then k.disk[r.pt[x].frame] == -1 else r.pt[x].frame == k.slot[x])
  {
    hide Fine;
    VictimFacts(k);
    if k.slot[x] != -1 { PositionTaken(k, x); }
  }

  // Page x is not made absent.
  ghost predicate Unevicted(k: System, es: seq<Event>, x: int)
    requires RealRun(k, es)
    decreases |es|
  {
    es == [] || (!(es[0] == Step(DAEMON) && MakesAbsent(k, x)) && Unevicted(Really(k, es[0]), es[1..], x))
  }

  lemma StepLost(k: System, e: Event, x: int)
    requires Fine(k) && Own(k, e) && IsPage(x) && !(e == Step(DAEMON) && MakesAbsent(k, x)) && k.slot[x] == -1
    ensures Sized(Really(k, e)) && Really(k, e).slot[x] == -1
  {
    hide Fine, Really, Races, Enabled;
    FineSized(k);
    if e == Step(DAEMON) && AtClear(k) { ClearDoes(k); } else { OtherwiseSame(k, e); }
  }

  lemma {:induction false} SlotLost(k: System, es: seq<Event>, x: int)
    requires Fine(k) && RealRun(k, es) && IsPage(x) && Unevicted(k, es, x) && k.slot[x] == -1
    ensures Sized(Truth(k, es)) && Truth(k, es).slot[x] == -1
    decreases |es|
  {
    hide Enabled, Really, Fine, MakesAbsent;
    FineSized(k);
    if es != [] {
      StepLost(k, es[0], x);
      FineStep(k, es[0]);
      SlotLost(Really(k, es[0]), es[1..], x);
    }
  }

  // A page that was made absent by a race has lost its position for good: the next eviction
  // of the page takes another one, and the first stays taken.
  lemma SecondPosition(s: System, es: seq<Event>, x: int)
    requires Fine(s) && MakesAbsent(s, x) && s.pt[x].r
    requires RealRun(Really(s, Step(DAEMON)), es) && Unevicted(Really(s, Step(DAEMON)), es, x)
    requires MakesAbsent(Truth(Really(s, Step(DAEMON)), es), x)
    ensures var k := Really(s, Step(DAEMON));
            var r := Really(Truth(k, es), Step(DAEMON));
            && Sized(k) && Sized(r)
            && 0 <= k.pt[x].frame < SLOTS && 0 <= r.pt[x].frame < SLOTS && k.pt[x].frame != r.pt[x].frame
            && r.disk[k.pt[x].frame] != -1 && r.disk[r.pt[x].frame] != -1
  {
    hide Fine, Next, RealRun, Truth, Unevicted, Really;
    var k := Really(s, Step(DAEMON));
    EvictionTakes(s, x);
    RaceLoses(s, x);
    FineStep(s, Step(DAEMON));
    RunFine(k, es);
    var j, z := k.pt[x].frame, Truth(k, es);
    SlotLost(k, es, x);
    NeverAgain(k, es, x, j);
    EvictionTakes(z, x);
    TakenOnce(z, Step(DAEMON), j);
  }

  // ---------- calm runs ----------

  // The daemon writes page x of its frame to the position of x.
  ghost predicate WritesHome(s: System)
    requires Sized(s)
  {
    s.pc[DAEMON].Swapping? && s.pc[DAEMON].io.Write? ==>
      var io := s.pc[DAEMON].io;
      && IsFrame(io.pf) && IsPage(PageOf(s.pfs[io.pf])) && 0 <= io.slot < SLOTS
      && io.slot == s.slot[PageOf(s.pfs[io.pf])]
  }

  // No taken position is no page's.
  ghost predicate Tight(slot: seq<int>, disk: seq<int>) {
    forall j | 0 <= j < |disk| && disk[j] != -1 :: j in slot
  }

  lemma AllOwned(slot: seq<int>, disk: seq<int>)
    requires SlotsOk(slot, disk) && |Taken(disk)| == |Owned(slot)|
    ensures Tight(slot, disk)
  {
    var o := Owned(slot);
    var f: map<int, int> := map x | x in o :: slot[x];
    var home := set x | x in o :: slot[x];
    IntoSize(o, f, home);
    assert home <= Taken(disk);
    SubsetSize(home, Taken(disk));
    forall j | 0 <= j < |disk| && disk[j] != -1 ensures j in slot {
      assert j in Taken(disk) && j in home;
      var x :| x in o && slot[x] == j;
    }
  }

  lemma CalmSame(s: System, k: System, e: Event)
    requires Same(s, k) && Calm(s, e)
    ensures Calm(k, e)
  {
  }

  lemma CalmStep(s: System, k: System, e: Event)
    requires Same(s, k) && s.slot == k.slot && Ok(k) && Calm(s, e)
    ensures Own(k, e) && Same(Next(s, e), Really(k, e)) && Ok(Really(k, e))
    ensures Next(s, e).slot == Really(k, e).slot && forall x :: !Races(k, e, x)
  {
    SameStep(s, k, e);
    OkFine(k);
    CalmSame(s, k, e);
    QuietStep(k, e);
    SlotSame(s, k, e);
  }

  lemma SlotSame(s: System, k: System, e: Event)
    requires Same(s, k) && s.slot == k.slot && Ok(k) && Own(s, e) && Own(k, e) && Same(Next(s, e), Really(k, e))
    requires forall x :: !Races(k, e, x)
    ensures Next(s, e).slot == Really(k, e).slot
  {
    hide Inv, Sound, Body, Wake, Transfer;
    if e.Step? {
      if s.pc[e.p].In? { SlotBody(s, k, e.p, s.pc[e.p].w); }
      if s.pc[e.p].OnFloppy? {
        TransferFlat(s, s.pc[e.p].io);
        TransferFlat(k, s.pc[e.p].io);
      }
    }
  }

  lemma SlotBody(s: System, k: System, p: int, w: Work)
    requires Same(s, k) && s.slot == k.slot && 0 <= p <= TER
    ensures Body(s, p, w).slot == Body(k, p, w).slot
  {
    hide Choose, Wake;
  }

  // A calm run is one without a race, and takes the same positions.
  lemma {:induction false} CalmTrue(s: System, k: System, es: seq<Event>, x: int)
    requires Same(s, k) && s.slot == k.slot && Ok(k) && Legal(s, es) && CalmRun(s, es)
    ensures RealRun(k, es) && Lost(k, es) == 0 && Unraced(k, es, x)
    ensures Same(Reached(s, es), Truth(k, es)) && Truth(k, es).slot == Reached(s, es).slot && Ok(Truth(k, es))
    decreases |es|
  {
    hide Same, Ok, Calm, Enabled, Next, Really, Races;
    if es != [] {
      CalmStep(s, k, es[0]);
      CalmTrue(Next(s, es[0]), Really(k, es[0]), es[1..], x);
    }
  }

  // In a calm run a page keeps the position it has.
  lemma SlotKept(s: System, es: seq<Event>, x: int)
    requires Ok(s) && Legal(s, es) && CalmRun(s, es) && IsPage(x) && Sized(s) && s.slot[x] != -1
    ensures Sized(Reached(s, es)) && Reached(s, es).slot[x] == s.slot[x]
  {
    hide Ok, Legal, Reached, CalmRun, RealRun, Truth, Unraced;
    CalmTrue(s, s, es, x);
    OkFine(s);
    PositionKeptIff(s, es, x);
  }

  lemma HomeWritten(s: System)
    requires Ok(s) && Sized(s) && Tight(s.slot, s.disk)
    ensures WritesHome(s)
    ensures forall x, y | 0 <= x < |s.slot| && 0 <= y < |s.slot| && s.slot[x] == s.slot[y] != -1 :: x == y
  {
    DaemonStage(s);
    hide Inv;
    assert DaemonOk(ViewOf(s));
  }

  lemma OkSlots(s: System)
    requires Ok(s)
    ensures SlotsOk(s.slot, s.disk)
  {
  }

  // In every calm run no two pages have the same disk position, only positions of pages are
  // taken, at most one for each private page, the search for one never fails, and an eviction
  // goes to the page's own.
  lemma SlotsDistinct(mem: seq<int>, store: seq<int>, warned: nat, es: seq<Event>)
    requires |mem| == MAXFRAMES && |store| == SLOTS && TER * PAGES <= SLOTS
    requires Legal(Initial(mem, store, warned), es) && CalmRun(Initial(mem, store, warned), es)
    ensures var s := Reached(Initial(mem, store, warned), es);
            && (forall x, y | 0 <= x < |s.slot| && 0 <= y < |s.slot| && s.slot[x] == s.slot[y] != -1 :: x == y)
            && Tight(s.slot, s.disk) && |Taken(s.disk)| <= TER * PAGES
            && Sized(s) && s.pc[DAEMON] != NoSlot && WritesHome(s)
  {
    hide Initial, Ok, Legal, Reached, CalmRun, RealRun, Truth, Lost, Sized;
    var s0 := Initial(mem, store, warned);
    InitialOk(mem, store, warned);
    OkFine(s0);
    CalmTrue(s0, s0, es, 0);
    PositionsSuffice(mem, store, warned, es);
    var s := Truth(s0, es);
    OkSlots(s);
    AllOwned(s.slot, s.disk);
    RunOk(s0, es);
    HomeWritten(Reached(s0, es));
  }
}
