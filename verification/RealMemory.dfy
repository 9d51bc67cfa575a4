// What the pages of the terminals hold in every run on private pages, with no restriction on
// when a page is referred to: exactly when a value written to a page is found there again.
module RealMemory {
  import opened Base
  import opened Semaphore
  import opened Locks
  import opened Paging
  import opened FrameCredit
  import opened PageState
  import opened FlatMemory

  // The terminals use their private segment only, and none gives back a frame that is being
  // written out.
  ghost predicate Own(s: System, e: Event) {
    && Enabled(s, e) && !Doubles(s, e)
    && match e
       case Touch(t, x) => Mine(t, x)
       case Store(t, x, _) => Mine(t, x)
       case Fault(t, x) => Mine(t, x)
       case _ => true
  }

  // The page whose present bit the daemon has decided to clear, or -1.
  ghost function Victim(s: System): (x: int)
    requires Sized(s)
    ensures x == -1 || IsPage(x)
  {
    if s.pc[DAEMON].In? && s.pc[DAEMON].w.Clear? && IsFrame(s.pc[DAEMON].w.i) && IsPage(PageOf(s.pfs[s.pc[DAEMON].w.i]))
    then PageOf(s.pfs[s.pc[DAEMON].w.i]) else -1
  }

  // The daemon clears the present bit of page x although its reference bit is set again.
  ghost predicate Races(s: System, e: Event, x: int)
    requires Enabled(s, e)
  {
    e == Step(DAEMON) && IsPage(x) && Victim(s) == x && s.pt[x].r && Next(s, e) != SetPc(s, DAEMON, NoSlot)
  }

  // The handler finds the reference bit of the absent page set, and will not read it in.
  ghost predicate Skips(s: System, e: Event)
    requires Sized(s)
  {
    && e.Step? && 0 <= e.p <= TER && s.pc[e.p].Testing?
    && IsPage(s.pc[e.p].x) && IsFrame(s.pc[e.p].pf) && s.pt[s.pc[e.p].x].r
  }

  // The step, with flat as the record of what is really there: a race loses the value and the
  // disk position of the page, and a page that is not read in holds what its frame held.
  ghost function Really(s: System, e: Event): System
    requires Enabled(s, e)
  {
    var r, x := Next(s, e), Victim(s);
    if Skips(s, e) then r.(flat := s.flat[s.pc[e.p].x := Some(s.mem[s.pc[e.p].pf])])
    else if Races(s, e, x) then r.(flat := s.flat[x := None], slot := s.slot[x := -1])
    else r
  }

  // The page that is about to be cleared counts as unreferenced until then.
  ghost function Settled(s: System): System
    requires Sized(s)
  {
    var x := Victim(s);
    if x == -1 then s else s.(pt := s.pt[x := s.pt[x].(r := false)])
  }

  // Every value is where it can be found, but for the reference bit of that page.
  ghost predicate Fine(s: System) {
    Sized(s) && Ok(Settled(s))
  }

  lemma FineSized(s: System)
    requires Fine(s)
    ensures Sized(s)
  {
  }

  lemma OkFine(s: System)
    requires Ok(s)
    ensures Sized(s) && Settled(s) == s && Fine(s) && (Victim(s) != -1 ==> !s.pt[Victim(s)].r)
  {
    Parts(s);
    hide Inv, Sound;
    if Victim(s) != -1 {
      ClearFacts(s, s.pc[DAEMON].w.i);
      var x := Victim(s);
      assert s.pt[x := s.pt[x].(r := false)] == s.pt;
    }
  }

  lemma VictimFacts(s: System)
    requires Fine(s) && s.pc[DAEMON].In? && s.pc[DAEMON].w.Clear?
    ensures var i, x := s.pc[DAEMON].w.i, Victim(s);
            && x != -1 && IsFrame(i) && Mine(s.pfs[i].pid, x) && 0 <= s.pfs[i].pid < TER && s.pt[x].p
            && s.pt[x].frame == i
            && s.slot[x] == SlotOf(s.pfs[i]) && (s.slot[x] == -1 || 0 <= s.slot[x] < SLOTS)
  {
    hide Inv, Sound;
    ClearFacts(Settled(s), s.pc[DAEMON].w.i);
  }

  // Only history and contents change.
  lemma HistoryInv(s: System, r: System)
    requires Inv(s) && Sized(r) && r == s.(pt := r.pt, mem := r.mem, flat := r.flat, slot := r.slot)
    ensures Inv(r)
  {
  }

  // ---------- one step ----------

  // A terminal that is about to test the reference bit of its page.
  lemma ChosenFacts(s: System, t: int)
    requires Ok(s) && Sized(s) && 0 <= t < TER && s.pc[t].Testing?
    ensures var x := s.pc[t].x;
            && IsPage(x) && IsFrame(s.pc[t].pf) && !s.pt[x].p
            && (s.pt[x].r ==> s.flat[x] == None) && (s.slot[x] == -1 ==> s.pt[x].r)
  {
    hide Inv, Frames, DaemonOk, SlotsOk, Saved, Has;
    assert ChainOk(ViewOf(s), t);
    assert PageOk(ViewOf(s), s.pc[t].x);
  }

  lemma TerminalTests(s: System, p: int)
    requires Inv(s) && Sized(s) && 0 <= p <= TER && s.pc[p].Testing?
    ensures p < TER
  {
    hide Inv;
    Fact(s, p);
  }

  // Nothing is about to be cleared that was referred to.
  lemma QuietStep(s: System, e: Event)
    requires Ok(s) && Calm(s, e)
    ensures Ok(Really(s, e))
  {
    hide Inv, Sound, Next;
    OkStep(s, e);
    OkFine(s);
    if Skips(s, e) { AnchorStep(s, e.p); }
  }

  lemma AnchorStep(s: System, t: int)
    requires Ok(s) && Enabled(s, Step(t)) && Skips(s, Step(t)) && Ok(Next(s, Step(t)))
    ensures Ok(Really(s, Step(t)))
  {
    hide Inv, Sound, Body;
    TerminalTests(s, t);
    var r := Next(s, Step(t));
    assert r.pc[t] == Ready(Map(s.pc[t].x, s.pc[t].pf));
    AnchorSound(ViewOf(r), t);
    HistoryInv(r, Really(s, Step(t)));
  }

  // The owner refers to the page.
  lemma ReferStep(s: System, e: Event)
    requires Fine(s) && Own(s, e) && (e.Touch? || e.Store?) && Victim(s) == e.x
    ensures Fine(Really(s, e))
  {
    hide Inv, Sound;
    var u := Settled(s);
    VictimFacts(s);
    assert Settled(Really(s, e)).pt == u.pt;
    if e.Store? {
      StoreSound(ViewOf(u), e.t, e.x, e.v);
      HistoryInv(u, Settled(Really(s, e)));
    } else {
      assert Settled(Really(s, e)) == u;
    }
  }

  // Somebody else goes on, or another page is referred to.
  lemma OtherStep(s: System, e: Event)
    requires Fine(s) && Own(s, e) && Victim(s) != -1 && e != Step(DAEMON)
    requires !((e.Touch? || e.Store?) && Victim(s) == e.x)
    ensures Calm(Settled(s), e) && Sized(Really(s, e)) && Settled(Really(s, e)) == Really(Settled(s), e)
  {
    hide Inv, Sound;
    VictimFacts(s);
    if e.Step? {
      OtherProcess(s, e.p);
    } else if e.Touch? || e.Store? {
      assert s.pt[Victim(s) := s.pt[Victim(s)].(r := false)][e.x := s.pt[e.x].(r := true)]
          == s.pt[e.x := s.pt[e.x].(r := true)][Victim(s) := s.pt[Victim(s)].(r := false)];
    }
  }

  // While the daemon holds sem_mm the others are elsewhere.
  lemma OthersAway(s: System, p: int)
    requires Inv(s) && 0 <= p < TER && s.pc[DAEMON].In?
    ensures !s.pc[p].In? && !s.pc[p].Leaving? && !s.pc[p].Swapping?
  {
    hide Inv;
    Fact(s, p);
    if Is(s.pc[p], HoldsMm) { OneHolder(s, p, DAEMON, HoldsMm); }
  }

  lemma OtherProcess(s: System, p: int)
    requires Fine(s) && Own(s, Step(p)) && Victim(s) != -1 && p != DAEMON
    ensures Calm(Settled(s), Step(p)) && Sized(Really(s, Step(p)))
    ensures Settled(Really(s, Step(p))) == Really(Settled(s), Step(p))
  {
    hide Inv, Sound, Body;
    var u := Settled(s);
    VictimFacts(s);
    Fact(u, p);
    OthersAway(u, p);
    match s.pc[p]
    case Testing(_, _) => ChosenFacts(u, p);
    case Ready(_) =>
    case OnFloppy(io) => TransferFlat(s, io);
    case Done(_) =>
  }

  // The daemon clears the present bit of the page that was referred to again.
  lemma RaceStep(s: System)
    requires Fine(s) && Own(s, Step(DAEMON)) && Victim(s) != -1 && s.pt[Victim(s)].r
    ensures Ok(Really(s, Step(DAEMON)))
  {
    hide Inv, Sound, Body;
    var u, e := Settled(s), Step(DAEMON);
    StepInv(u, e);
    RaceInv(s);
    if Next(s, e) == SetPc(s, DAEMON, NoSlot) {
      OkStep(u, e);
      StopStep(s);
    } else {
      LoseStep(s);
    }
  }

  lemma RaceInv(s: System)
    requires Fine(s) && Own(s, Step(DAEMON)) && Victim(s) != -1
    requires s.pt[Victim(s)].r && Inv(Next(Settled(s), Step(DAEMON)))
    ensures Inv(Really(s, Step(DAEMON)))
  {
    hide Inv, Sound;
    HistoryInv(Next(Settled(s), Step(DAEMON)), Really(s, Step(DAEMON)));
  }

  // It finds no position for it.
  lemma StopStep(s: System)
    requires Fine(s) && Own(s, Step(DAEMON)) && Victim(s) != -1 && s.pt[Victim(s)].r
    requires Next(s, Step(DAEMON)) == SetPc(s, DAEMON, NoSlot) && Sound(ViewOf(Next(Settled(s), Step(DAEMON))))
    ensures Sound(ViewOf(Really(s, Step(DAEMON))))
  {
    hide Inv, Sound;
    VictimFacts(s);
    var r, x := Next(Settled(s), Step(DAEMON)), Victim(s);
    assert r == SetPc(Settled(s), DAEMON, NoSlot);
    TouchSound(ViewOf(r), s.pfs[s.pc[DAEMON].w.i].pid, x);
    assert ViewOf(Really(s, Step(DAEMON))) == Touched(ViewOf(r), x);
  }

  // It clears the bit.
  lemma LoseStep(s: System)
    requires Fine(s) && Own(s, Step(DAEMON)) && Victim(s) != -1 && s.pt[Victim(s)].r
    requires Next(s, Step(DAEMON)) != SetPc(s, DAEMON, NoSlot)
    ensures Sound(ViewOf(Really(s, Step(DAEMON))))
  {
    hide Inv, Sound, StageOf;
    VictimFacts(s);
    var i, x, v, k := s.pc[DAEMON].w.i, Victim(s), ViewOf(Settled(s)), Really(s, Step(DAEMON));
    var slot := if s.slot[x] == -1 then FirstSlot(s.disk) else s.slot[x];
    StagesSet(s.pc, DAEMON, k.pc[DAEMON]);
    assert k.pc[DAEMON] == Swapping(Write(i, slot));
    StageFacts(i, slot);
    RaceSound(v, s.mem[i], slot, k.disk);
    assert s.mem[i := s.mem[i]] == s.mem;
    assert ViewOf(k).pt == v.pt[x := Entry(false, true, slot)];
  }

  lemma StageFacts(i: int, slot: int)
    ensures StageOf(In(Clear(i))) == Clearing(i) && StageOf(Swapping(Write(i, slot))) == Evict0(i, slot)
  {
  }

  lemma FineStep(s: System, e: Event)
    requires Fine(s) && Own(s, e)
    ensures Fine(Really(s, e))
  {
    hide Inv, Sound;
    var x := Victim(s);
    if x == -1 {
      QuietStep(s, e);
      OkFine(Really(s, e));
    } else if (e.Touch? || e.Store?) && e.x == x {
      ReferStep(s, e);
    } else if e != Step(DAEMON) {
      OtherStep(s, e);
      QuietStep(Settled(s), e);
    } else if s.pt[x].r {
      RaceStep(s);
      OkFine(Really(s, e));
    } else {
      assert Settled(s).pt == s.pt;
      QuietStep(s, e);
      OkFine(Really(s, e));
    }
  }

  // ---------- the record is only a record ----------

  // The same system with another history.
  ghost predicate Same(s: System, k: System) {
    Sized(s) && Sized(k) && k == s.(flat := k.flat, slot := k.slot)
  }

  lemma SameBody(s: System, k: System, p: int, w: Work)
    requires Same(s, k) && 0 <= p <= TER
    ensures Same(Body(s, p, w), Body(k, p, w))
  {
    hide Choose, Wake;
  }

  lemma SameStep(s: System, k: System, e: Event)
    requires Same(s, k) && Own(s, e)
    ensures Own(k, e) && Same(Next(s, e), Really(k, e))
  {
    hide Body, Wake;
    if e.Step? {
      if s.pc[e.p].In? { SameBody(s, k, e.p, s.pc[e.p].w); }
      if s.pc[e.p].OnFloppy? {
        TransferFlat(s, s.pc[e.p].io);
        TransferFlat(k, s.pc[e.p].io);
      }
    }
  }

  // ---------- runs ----------

  ghost predicate OwnRun(s: System, es: seq<Event>)
    requires Legal(s, es)
    decreases |es|
  {
    es == [] || (Own(s, es[0]) && OwnRun(Next(s, es[0]), es[1..]))
  }

  ghost predicate RealRun(k: System, es: seq<Event>)
    decreases |es|
  {
    es == [] || (Own(k, es[0]) && RealRun(Really(k, es[0]), es[1..]))
  }

  ghost function Truth(k: System, es: seq<Event>): System
    requires RealRun(k, es)
    decreases |es|
  {
    if es == [] then k else Truth(Really(k, es[0]), es[1..])
  }

  // Every run of the system is one with the true record, and goes through the same states.
  lemma {:induction false} RunSame(s: System, k: System, es: seq<Event>)
    requires Same(s, k) && Legal(s, es) && OwnRun(s, es)
    ensures RealRun(k, es) && Same(Reached(s, es), Truth(k, es))
    decreases |es|
  {
    hide Same, Enabled, Next, Really;
    if es != [] {
      SameStep(s, k, es[0]);
      RunSame(Next(s, es[0]), Really(k, es[0]), es[1..]);
    }
  }

  lemma {:induction false} RunFine(k: System, es: seq<Event>)
    requires Fine(k) && RealRun(k, es)
    ensures Fine(Truth(k, es))
    decreases |es|
  {
    hide Fine, Enabled, Really;
    if es != [] {
      FineStep(k, es[0]);
      RunFine(Really(k, es[0]), es[1..]);
    }
  }

  // A present page of a process that runs holds what the record says.
  lemma FineContents(k: System, t: int, x: int)
    requires Fine(k) && Own(k, Touch(t, x))
    ensures IsFrame(k.pt[x].frame) && (k.flat[x].Some? ==> Contents(k, x) == k.flat[x].v)
  {
    hide Inv;
    assert PageOk(ViewOf(Settled(k)), x) && Owner(x) == t;
  }

  // In every run on private pages a process that reads a page finds what the record says.
  lemma TruthRead(mem: seq<int>, store: seq<int>, warned: nat, es: seq<Event>, t: int, x: int)
    requires |mem| == MAXFRAMES && |store| == SLOTS
    requires Legal(Initial(mem, store, warned), es) && OwnRun(Initial(mem, store, warned), es)
    requires Own(Reached(Initial(mem, store, warned), es), Touch(t, x))
    ensures RealRun(Initial(mem, store, warned), es)
    ensures var s, k := Reached(Initial(mem, store, warned), es), Truth(Initial(mem, store, warned), es);
            && Same(s, k) && IsFrame(s.pt[x].frame) && (k.flat[x].Some? ==> Contents(s, x) == k.flat[x].v)
  {
    var s0 := Initial(mem, store, warned);
    InitialOk(mem, store, warned);
    OkFine(s0);
    RunSame(s0, s0, es);
    RunFine(s0, es);
    FineContents(Truth(s0, es), t, x);
  }

  // ---------- what becomes of one page ----------

  ghost predicate Unraced(k: System, es: seq<Event>, x: int)
    requires RealRun(k, es)
    decreases |es|
  {
    es == [] || (!Races(k, es[0], x) && Unraced(Really(k, es[0]), es[1..], x))
  }

  // A page that is wanted is not the one about to be cleared.
  lemma WantedApart(k: System, t: int)
    requires Fine(k) && 0 <= t <= TER && k.pc[t].Testing?
    ensures t < TER && Ok(Settled(k)) && Settled(k).pc[t] == k.pc[t] && Victim(k) != k.pc[t].x
  {
    hide Inv, Sound;
    TerminalTests(Settled(k), t);
    ChosenFacts(Settled(k), t);
    if Victim(k) != -1 { VictimFacts(k); }
  }

  // A page whose value is known is read in when it comes back.
  lemma KnownRead(k: System, e: Event, x: int)
    requires Fine(k) && Own(k, e) && IsPage(x) && k.flat[x].Some? && Skips(k, e)
    ensures k.pc[e.p].x != x
  {
    hide Inv, Sound;
    WantedApart(k, e.p);
    ChosenFacts(Settled(k), e.p);
  }

  lemma KeptStep(k: System, e: Event, x: int)
    requires Fine(k) && Own(k, e) && IsPage(x) && k.flat[x].Some? && !(e.Store? && e.x == x) && !Races(k, e, x)
    ensures Sized(Really(k, e)) && Really(k, e).flat[x] == k.flat[x]
  {
    hide Fine, StepNext;
    StepFlat(k, e, x);
    if Skips(k, e) { KnownRead(k, e, x); }
  }

  // The record of a page changes only by a write or a race.
  lemma {:induction false} TruthKept(k: System, es: seq<Event>, x: int)
    requires Fine(k) && RealRun(k, es) && IsPage(x) && k.flat[x].Some? && Unwritten(es, x) && Unraced(k, es, x)
    ensures Sized(Truth(k, es)) && Truth(k, es).flat[x] == k.flat[x]
    decreases |es|
  {
    hide Enabled, Really, Fine, Races;
    FineSized(k);
    if es != [] {
      KeptStep(k, es[0], x);
      FineStep(k, es[0]);
      TruthKept(Really(k, es[0]), es[1..], x);
    }
  }

  // Page x is absent all along.
  ghost predicate StaysOut(k: System, es: seq<Event>, x: int)
    requires RealRun(k, es) && IsPage(x)
    decreases |es|
  {
    Sized(k) && !k.pt[x].p && (es == [] || StaysOut(Really(k, es[0]), es[1..], x))
  }

  // An absent page that has no position gets none while it is absent.
  lemma OutStep(k: System, e: Event, x: int)
    requires Fine(k) && Own(k, e) && IsPage(x) && !k.pt[x].p && k.slot[x] == -1
    ensures Sized(Really(k, e)) && Really(k, e).slot[x] == -1
  {
    hide Fine, Body, Wake;
    ClearApart(k, x);
    if e.Step? {
      if k.pc[e.p].In? {
        WorkOf(k, e.p, k.pc[e.p].w);
        BodyOut(k, e.p, k.pc[e.p].w, x);
      }
      if k.pc[e.p].OnFloppy? { TransferFlat(k, k.pc[e.p].io); }
    }
  }

  // The daemon is not about to clear an absent page.
  lemma ClearApart(k: System, x: int)
    requires Fine(k) && IsPage(x) && !k.pt[x].p
    ensures k.pc[DAEMON].In? && k.pc[DAEMON].w.Clear? ==>
              IsFrame(k.pc[DAEMON].w.i) && PageOf(k.pfs[k.pc[DAEMON].w.i]) != x && Victim(k) != x
  {
    hide Inv, Sound;
    if k.pc[DAEMON].In? && k.pc[DAEMON].w.Clear? { VictimFacts(k); }
  }

  // Only the daemon evicts.
  lemma WorkOf(k: System, p: int, w: Work)
    requires Fine(k) && 0 <= p <= TER && k.pc[p] == In(w)
    ensures w.Clear? ==> p == DAEMON
  {
    hide Inv, Sound;
    Fact(Settled(k), p);
  }

  lemma BodyOut(k: System, p: int, w: Work, x: int)
    requires Sized(k) && 0 <= p <= TER && IsPage(x) && k.slot[x] == -1
    requires w.Clear? ==> IsFrame(w.i) && PageOf(k.pfs[w.i]) != x
    ensures Sized(Body(k, p, w)) && Body(k, p, w).slot[x] == -1
  {
    BodyFlat(k, p, w);
    hide Choose, Wake;
  }

  lemma {:induction false} OutKept(k: System, es: seq<Event>, x: int)
    requires Fine(k) && RealRun(k, es) && IsPage(x) && StaysOut(k, es, x) && k.slot[x] == -1
    ensures Sized(Truth(k, es)) && Truth(k, es).slot[x] == -1
    decreases |es|
  {
    hide Enabled, Really, Fine;
    FineSized(k);
    if es != [] {
      OutStep(k, es[0], x);
      FineStep(k, es[0]);
      OutKept(Really(k, es[0]), es[1..], x);
    }
  }

  // The handler does not read in a page that has no position, and the frame counts.
  lemma TestTakes(k: System, t: int, x: int, pf: int)
    requires Fine(k) && 0 <= t < TER && k.pc[t] == Testing(x, pf) && IsPage(x) && k.slot[x] == -1
    ensures Own(k, Step(t)) && IsFrame(pf) && Sized(Really(k, Step(t))) && Really(k, Step(t)).flat[x] == Some(k.mem[pf])
  {
    hide Inv, Sound;
    WantedApart(k, t);
    ChosenFacts(Settled(k), t);
  }

  // An absent page is not written, and not cleared again.
  lemma {:induction false} OutUnraced(k: System, es: seq<Event>, x: int)
    requires Fine(k) && RealRun(k, es) && IsPage(x) && StaysOut(k, es, x)
    ensures Unwritten(es, x) && Unraced(k, es, x)
    decreases |es|
  {
    hide Really, Fine;
    if es != [] {
      ClearApart(k, x);
      FineStep(k, es[0]);
      OutUnraced(Really(k, es[0]), es[1..], x);
      assert forall i | 0 < i < |es| :: es[i] == es[1..][i - 1];
    }
  }

  // ---------- exactly when a value survives an eviction ----------

  // The daemon clears the present bit of page x.
  ghost predicate MakesAbsent(s: System, x: int) {
    Enabled(s, Step(DAEMON)) && IsPage(x) && Victim(s) == x && Next(s, Step(DAEMON)) != SetPc(s, DAEMON, NoSlot)
  }

  // After es, with x absent all along, the handler of a fault of t on x has frame pf for it,
  // and is about to test its reference bit.
  ghost predicate Faulted(k: System, es: seq<Event>, t: int, x: int, pf: int) {
    && RealRun(k, es) && IsPage(x) && StaysOut(k, es, x) && 0 <= t < TER
    && Enabled(Truth(k, es), Step(t)) && Truth(k, es).pc[t] == Testing(x, pf)
  }

  // After es, in which x is not written and not evicted by a race, t can read x.
  ghost predicate Readable(k: System, es: seq<Event>, t: int, x: int) {
    RealRun(k, es) && IsPage(x) && Unwritten(es, x) && Unraced(k, es, x) && Own(Truth(k, es), Touch(t, x))
  }

  // In a state s where the value of x is known the daemon clears the present bit of x; some
  // time later its owner faults on it, and gets frame pf; some time later it reads x. It
  // finds the value if the reference bit of x was clear in s, and what the chosen frame held
  // when the handler tested the bit if it was set.
  lemma Outcome(s: System, fs: seq<Event>, t: int, x: int, pf: int, gs: seq<Event>)
    requires Fine(s) && MakesAbsent(s, x) && s.flat[x].Some?
    requires Faulted(Really(s, Step(DAEMON)), fs, t, x, pf)
    requires Readable(Really(Truth(Really(s, Step(DAEMON)), fs), Step(t)), gs, t, x)
    ensures var k := Truth(Really(s, Step(DAEMON)), fs);
            && IsFrame(pf) && Sized(k)
            && Contents(Truth(Really(k, Step(t)), gs), x) == if s.pt[x].r then k.mem[pf] else s.flat[x].v
  {
    hide Fine, Really, Next;
    var k0 := Really(s, Step(DAEMON));
    var k1 := Truth(k0, fs);
    var k2 := Really(k1, Step(t));
    FineStep(s, Step(DAEMON));
    RunFine(k0, fs);
    FineStep(k1, Step(t));
    RunFine(k2, gs);
    AfterTest(s, fs, t, x, pf);
    TruthKept(k2, gs, x);
    FineContents(Truth(k2, gs), t, x);
  }

  lemma AfterTest(s: System, fs: seq<Event>, t: int, x: int, pf: int)
    requires Fine(s) && MakesAbsent(s, x) && s.flat[x].Some? && Faulted(Really(s, Step(DAEMON)), fs, t, x, pf)
    ensures var k := Truth(Really(s, Step(DAEMON)), fs);
            && IsFrame(pf) && Sized(k) && Sized(Really(k, Step(t)))
            && Really(k, Step(t)).flat[x] == Some(if s.pt[x].r then k.mem[pf] else s.flat[x].v)
  {
    hide Fine, Really, Next;
    var k0 := Really(s, Step(DAEMON));
    FineStep(s, Step(DAEMON));
    RunFine(k0, fs);
    var k1 := Truth(k0, fs);
    TestOf(k1, t, x, pf);
    FineStep(k1, Step(t));
    FineSized(Really(k1, Step(t)));
    if s.pt[x].r {
      RaceLoses(s, x);
      OutKept(k0, fs, x);
      TestTakes(k1, t, x, pf);
    } else {
      KeptStep(s, Step(DAEMON), x);
      OutUnraced(k0, fs, x);
      TruthKept(k0, fs, x);
      KeptStep(k1, Step(t), x);
    }
  }

  lemma TestOf(k: System, t: int, x: int, pf: int)
    requires Fine(k) && 0 <= t < TER && k.pc[t] == Testing(x, pf)
    ensures IsFrame(pf)
  {
    hide Inv, Sound;
    Fact(Settled(k), t);
  }

  lemma RaceLoses(s: System, x: int)
    requires Sized(s) && MakesAbsent(s, x) && s.pt[x].r
    ensures var k := Really(s, Step(DAEMON)); Sized(k) && k.flat[x] == None && k.slot[x] == -1
  {
  }

  // The same from the start: a value v written to x, with no write to x and no race on it
  // since, is found again after an eviction if and only if the reference bit of x was clear
  // when the daemon cleared its present bit, or the frame chosen for x happened to hold v.
  lemma FoundIff(mem: seq<int>, store: seq<int>, warned: nat, hs: seq<Event>, t: int, x: int, v: int,
                 es: seq<Event>, fs: seq<Event>, pf: int, gs: seq<Event>)
    requires |mem| == MAXFRAMES && |store| == SLOTS && RealRun(Initial(mem, store, warned), hs)
    requires Own(Truth(Initial(mem, store, warned), hs), Store(t, x, v))
    requires var k := Really(Truth(Initial(mem, store, warned), hs), Store(t, x, v));
             && RealRun(k, es) && IsPage(x) && Unwritten(es, x) && Unraced(k, es, x) && MakesAbsent(Truth(k, es), x)
             && var s := Truth(k, es);
                && Faulted(Really(s, Step(DAEMON)), fs, t, x, pf)
                && Readable(Really(Truth(Really(s, Step(DAEMON)), fs), Step(t)), gs, t, x)
    ensures var s := Truth(Really(Truth(Initial(mem, store, warned), hs), Store(t, x, v)), es);
            var k := Truth(Really(s, Step(DAEMON)), fs);
            && IsFrame(pf) && Sized(s) && Sized(k)
            && (Contents(Truth(Really(k, Step(t)), gs), x) == v <==> !s.pt[x].r || k.mem[pf] == v)
  {
    hide Fine, MakesAbsent, Faulted, Readable, Really, RealRun, Truth, Contents, Unraced;
    var s0 := Initial(mem, store, warned);
    InitialOk(mem, store, warned);
    OkFine(s0);
    RunFine(s0, hs);
    var k := Really(Truth(s0, hs), Store(t, x, v));
    WriteKnown(Truth(s0, hs), t, x, v, es);
    Outcome(Truth(k, es), fs, t, x, pf, gs);
  }

  lemma WriteKnown(k: System, t: int, x: int, v: int, es: seq<Event>)
    requires Fine(k) && Own(k, Store(t, x, v)) && IsPage(x) && RealRun(Really(k, Store(t, x, v)), es)
    requires Unwritten(es, x) && Unraced(Really(k, Store(t, x, v)), es, x)
    ensures var s := Truth(Really(k, Store(t, x, v)), es); Fine(s) && Sized(s) && s.flat[x] == Some(v)
  {
    hide Fine, RealRun, Truth, Unraced;
    FineStep(k, Store(t, x, v));
    TruthKept(Really(k, Store(t, x, v)), es, x);
    RunFine(Really(k, Store(t, x, v)), es);
  }

  // In every run on private pages a value is found where it was last written if the page has
  // not since been made absent with its reference bit set.
  lemma FoundUnraced(mem: seq<int>, store: seq<int>, warned: nat, hs: seq<Event>, t: int, x: int, v: int,
      es: seq<Event>)
    requires |mem| == MAXFRAMES && |store| == SLOTS && RealRun(Initial(mem, store, warned), hs)
    requires Own(Truth(Initial(mem, store, warned), hs), Store(t, x, v))
    requires Readable(Really(Truth(Initial(mem, store, warned), hs), Store(t, x, v)), es, t, x)
    ensures var s := Truth(Really(Truth(Initial(mem, store, warned), hs), Store(t, x, v)), es);
            Sized(s) && IsPage(x) && Contents(s, x) == v
  {
    hide Fine, Really, RealRun, Truth, Contents, Unraced;
    InitialOk(mem, store, warned);
    OkFine(Initial(mem, store, warned));
    RunFine(Initial(mem, store, warned), hs);
    var k := Truth(Initial(mem, store, warned), hs);
    WriteKnown(k, t, x, v, es);
    FineContents(Truth(Really(k, Store(t, x, v)), es), t, x);
  }
}
