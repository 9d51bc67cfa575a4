// Demand paging of private pages behaves like flat memory.
module FlatMemory {
  import opened Base
  import opened Semaphore
  import opened Locks
  import opened Paging
  import opened FrameCredit
  import opened PageState

  function WorkStage(w: Work): Stage {
    match w
    case Pick(x) => Wanting(x)
    case Warn(x, pf) => Chosen(x, pf)
    case PageIn(x, pf) => Tested(x, pf)
    case Loaded(x, pf, slot) => Filled(x, pf, slot)
    case Map(x, pf) => Mapping(x, pf)
    case Release(_) => Dying
    case Refund(_) => Dying
    case Clear(i) => Clearing(i)
    case Written(i) => Evicted(i)
    case _ => Idle
  }

  function StageOf(pc: Pc): Stage {
    match pc
    case Gone => Dying
    case NoFrame => Dying
    case NoSlot => Stopped
    case PfQueued(x) => Wanting(x)
    case Ready(w) => WorkStage(w)
    case Queued(w) => WorkStage(w)
    case In(w) => WorkStage(w)
    case Leaving(next) => StageOf(next)
    case Swapping(io) => if io.Read? then Reading(io.x, io.pf, io.slot) else Evict0(io.pf, io.slot)
    case FloppyQueued(io) => if io.Read? then Reading(io.x, io.pf, io.slot) else EvictQ(io.pf, io.slot)
    case OnFloppy(io) => if io.Read? then Active(io.x, io.pf, io.slot) else EvictA(io.pf, io.slot)
    case Done(io) => if io.Read? then Filled(io.x, io.pf, io.slot) else Evicted(io.pf)
    case Testing(x, pf) => Chosen(x, pf)
    case _ => Idle
  }

  ghost function Stages(pc: seq<Pc>): (r: seq<Stage>)
    ensures |r| == |pc| && forall p | 0 <= p < |pc| :: r[p] == StageOf(pc[p])
  {
    seq(|pc|, p requires 0 <= p < |pc| => StageOf(pc[p]))
  }

  ghost function ViewOf(s: System): View {
    View(Stages(s.pc), s.sem_floppy.q, s.pfs, s.pt, s.disk, s.mem, s.store, s.flat, s.slot)
  }

  // Every value is where it can be found.
  ghost predicate Ok(s: System) {
    FrameCredit.Inv(s) && Sound(ViewOf(s))
  }

  // The terminals use their private segment only, none refers to a page between the daemon's
  // test of its reference bit and the clearing of its present bit, and none gives back a frame
  // that is being written out.
  ghost predicate Calm(s: System, e: Event) {
    && Enabled(s, e) && !Doubles(s, e)
    && match e
       case Touch(t, x) => Mine(t, x) && !AboutToClear(s, x)
       case Store(t, x, _) => Mine(t, x) && !AboutToClear(s, x)
       case Fault(t, x) => Mine(t, x)
       case _ => true
  }

  // The daemon has found page x present and unreferenced, and will now clear its present bit.
  ghost predicate AboutToClear(s: System, x: int)
    requires Sized(s)
  {
    s.pc[DAEMON].In? && s.pc[DAEMON].w.Clear? && IsFrame(s.pc[DAEMON].w.i) && PageOf(s.pfs[s.pc[DAEMON].w.i]) == x
  }

  lemma StagesSet(pc: seq<Pc>, p: int, x: Pc)
    requires 0 <= p < |pc|
    ensures Stages(pc[p := x]) == Stages(pc)[p := StageOf(x)]
  {
    hide StageOf;
  }

  lemma StagesSame(pc: seq<Pc>, p: int, x: Pc)
    requires 0 <= p < |pc| && StageOf(x) == StageOf(pc[p])
    ensures Stages(pc[p := x]) == Stages(pc)
  {
    hide StageOf;
  }

  lemma WakeStages(pc: seq<Pc>, u: Sem, k: Kind)
    requires WakesOne(pc, u, k)
    requires k == WaitsMm || k == WaitsPf || k == WaitsPage
    ensures Stages(Wake(pc, u)) == Stages(pc)
  {
    if u.val < 0 { StagesSame(pc, u.q[0], Admit(pc[u.q[0]])); }
  }

  // Only one process holds sem_mm, and only one the floppy.
  lemma OneHolder(s: System, p: int, q: int, k: Kind)
    requires Inv(s) && (k == HoldsMm || k == HoldsFloppy)
    requires 0 <= p < |s.pc| && 0 <= q < |s.pc| && Is(s.pc[p], k) && Is(s.pc[q], k)
    ensures p == q
  {
    hide Is;
    assert p in Those(s.pc, k) && q in Those(s.pc, k);
  }

  lemma FloppyFacts(s: System)
    requires Inv(s)
    ensures forall p :: p in s.sem_floppy.q <==> 0 <= p < |s.pc| && s.pc[p].FloppyQueued?
    ensures s.sem_floppy.val > 0 ==> s.sem_floppy.q == [] && forall p | 0 <= p < |s.pc| :: !Is(s.pc[p], HoldsFloppy)
    ensures NoDup(s.sem_floppy.q)
  {
    assert s.sem_floppy.val > 0 ==> s.sem_floppy.val == 1;
    forall p | 0 <= p < |s.pc| ensures s.sem_floppy.val > 0 ==> !Is(s.pc[p], HoldsFloppy) {
      assert p !in {};
    }
  }

  // Where the daemon is at each of its stages.
  lemma DaemonStage(s: System)
    requires Inv(s)
    ensures Sized(s)
    ensures var pc := s.pc[DAEMON];
            match StageOf(pc)
            case Clearing(i) => pc == In(Clear(i)) && IsFrame(i)
            case Evict0(f, slot) => pc == Swapping(Write(f, slot))
            case EvictQ(f, slot) => pc == FloppyQueued(Write(f, slot))
            case EvictA(f, slot) => pc == OnFloppy(Write(f, slot))
            case Evicted(f) => Evicting(pc) == f
            case z => z == Idle || z == Stopped
  {
    hide Inv;
    Fact(s, DAEMON);
    if s.pc[DAEMON].Leaving? { assert StageOf(s.pc[DAEMON].next) == Idle; }
  }

  // ---------- the steps, on what matters ----------

  lemma AccessOk(s: System, e: Event)
    requires Ok(s) && Calm(s, e) && (e.Touch? || e.Store?)
    ensures Sound(ViewOf(Next(s, e)))
  {
    hide Inv, Sound;
    var v := ViewOf(s);
    DaemonStage(s);
    TouchSound(v, e.t, e.x);
    if e.Store? {
      StoreSound(Touched(v, e.x), e.t, e.x, e.v);
    }
  }

  lemma BeginOk(s: System, e: Event)
    requires Ok(s) && Calm(s, e) && (e.Fault? || e.Quit?)
    ensures Sound(ViewOf(Next(s, e)))
  {
    hide Inv, Sound;
    var r := Next(s, e);
    StartSound(ViewOf(s), e.t, StageOf(r.pc[e.t]));
    StagesSet(s.pc, e.t, r.pc[e.t]);
  }

  lemma SameView(s: System, p: int, x: Pc)
    requires 0 <= p < |s.pc| && StageOf(x) == StageOf(s.pc[p])
    ensures ViewOf(SetPc(s, p, x)) == ViewOf(s)
  {
    hide StageOf;
    StagesSame(s.pc, p, x);
  }

  lemma LeavingOk(s: System, p: int)
    requires Ok(s) && 0 <= p <= TER && s.pc[p].Leaving?
    ensures Sound(ViewOf(StepNext(s, p)))
  {
    hide Inv, Sound, LocksOk;
    Parts(s);
    Fact(s, p);
    DropMm(s, p, s.pc[p].next);
    WakeStages(s.pc[p := s.pc[p].next], s.sem_mm, WaitsMm);
    StagesSame(s.pc, p, s.pc[p].next);
  }

  // Work that only signals, and moves on to next.
  lemma SignalOk(s: System, p: int, next: Pc, u: Sem, k: Kind)
    requires Ok(s) && 0 <= p <= TER && Sized(s) && StageOf(next) == StageOf(s.pc[p])
    requires Alike(next, s.pc[p])
    requires (k == WaitsPf && u == s.sem_pf) || (k == WaitsPage && u == s.sem_page)
    ensures Stages(Wake(s.pc[p := next], u)) == Stages(s.pc)
  {
    hide Inv, Sound, LocksOk, StageOf, Is;
    Parts(s);
    AlikeOk(s, p, next);
    if k == WaitsPf { PopPf(SetPc(s, p, next)); } else { PopPage(SetPc(s, p, next)); }
    WakeStages(s.pc[p := next], u, k);
    StagesSame(s.pc, p, next);
  }

  // A terminal joins the queue of the floppy behind the daemon.
  lemma JoinBehind(q: seq<int>, p: int)
    requires p !in q
    ensures p != DAEMON ==> forall t | Behind(q, t) :: Behind(q + [p], t)
  {
  }

  lemma PopBehind(q: seq<int>)
    requires q != [] && NoDup(q)
    ensures forall t | Behind(q, t) :: Behind(q[1..], t)
    ensures DAEMON in q && q[0] != DAEMON ==> !Behind(q, q[0])
  {
    forall t | Behind(q, t) ensures Behind(q[1..], t) {
      forall j, k | 0 <= j < |q[1..]| && 0 <= k < |q[1..]| && q[1..][j] == t && q[1..][k] == DAEMON ensures k < j {
        assert q[j + 1] == t && q[k + 1] == DAEMON;
      }
    }
  }

  lemma SwapOk(s: System, p: int, io: Io)
    requires Ok(s) && 0 <= p <= TER && s.pc[p] == Swapping(io)
    ensures Sound(ViewOf(StepNext(s, p)))
  {
    hide Inv, Sound, LocksOk;
    Parts(s);
    Fact(s, p);
    SwapLocks(s, p, io);
    var x := StepNext(s, p).pc[p];
    WakeStages(s.pc[p := x], s.sem_mm, WaitsMm);
    StagesSet(s.pc, p, x);
    FloppyFacts(s);
    JoinFloppy(s, p, io, x);
  }

  lemma JoinFloppy(s: System, p: int, io: Io, x: Pc)
    requires Ok(s) && 0 <= p <= TER && Sized(s) && s.pc[p] == Swapping(io)
    requires Belongs(p, s.pc[p]) && p !in s.sem_floppy.q
    requires x == if s.sem_floppy.val <= 0 then FloppyQueued(io) else OnFloppy(io)
    ensures Sound(Set(ViewOf(s), p, StageOf(x)).(q := P(s.sem_floppy, p).q))
  {
    hide Inv, Sound;
    var v := ViewOf(s);
    if p == DAEMON {
      AdvanceSound(v, StageOf(x), P(s.sem_floppy, p).q);
    } else if s.sem_floppy.val <= 0 {
      assert v.st[p := v.st[p]] == v.st;
      JoinBehind(v.q, p);
      QueueSound(v, v.q + [p]);
    } else {
      FloppyFacts(s);
      assert !Is(s.pc[DAEMON], HoldsFloppy) && DAEMON !in s.sem_floppy.q;
      DaemonStage(s);
      MoveSound(v, p, StageOf(x));
    }
  }

  lemma DoneStage(io: Io)
    ensures StageOf(Queued(Then(io))) == StageOf(Done(io)) == StageOf(In(Then(io)))
  {
  }

  lemma DoneOk(s: System, p: int, io: Io)
    requires Ok(s) && 0 <= p <= TER && s.pc[p] == Done(io)
    ensures Sound(ViewOf(StepNext(s, p)))
  {
    hide Inv, Sound, LocksOk, StageOf;
    Parts(s);
    Fact(s, p);
    DoneLocks(s, p, io);
    DoneStage(io);
    var x := StepNext(s, p).pc[p];
    StagesSame(s.pc, p, x);
    var pc1 := s.pc[p := x];
    if s.sem_floppy.val < 0 {
      var w := s.sem_floppy.q[0];
      StagesSet(pc1, w, Admit(pc1[w]));
      AdmitFloppy(s, p, w);
    }
  }

  lemma AdmitFloppy(s: System, p: int, w: int)
    requires Ok(s) && 0 <= p <= TER && Sized(s) && s.pc[p].Done? && s.sem_floppy.val < 0 && s.sem_floppy.q != []
    requires w == s.sem_floppy.q[0] && 0 <= w < |s.pc| && w != p
    ensures Sound(Set(ViewOf(s), w, StageOf(Admit(s.pc[w]))).(q := s.sem_floppy.q[1..]))
  {
    hide Inv, Sound;
    var v := ViewOf(s);
    FloppyFacts(s);
    assert w in s.sem_floppy.q;
    Fact(s, w);
    DaemonStage(s);
    PopBehind(v.q);
    if w == DAEMON {
      AdvanceSound(v, StageOf(Admit(s.pc[w])), v.q[1..]);
    } else {
      if s.pc[DAEMON].OnFloppy? { OneHolder(s, p, DAEMON, HoldsFloppy); }
      if s.pc[DAEMON].FloppyQueued? { assert DAEMON in v.q; }
      MoveSound(v, w, StageOf(Admit(s.pc[w])));
      QueueSound(Set(v, w, StageOf(Admit(s.pc[w]))), v.q[1..]);
    }
  }

  lemma TransferOk(s: System, p: int)
    requires Ok(s) && 0 <= p <= TER && s.pc[p].OnFloppy?
    ensures Sound(ViewOf(StepNext(s, p)))
  {
    hide Inv, Sound;
    Fact(s, p);
    StagesSet(s.pc, p, StepNext(s, p).pc[p]);
    if p == DAEMON { WriteSound(ViewOf(s)); } else { ReadSound(ViewOf(s), p); }
  }

  lemma TestingOk(s: System, p: int)
    requires Ok(s) && 0 <= p <= TER && s.pc[p].Testing?
    ensures Sound(ViewOf(StepNext(s, p)))
  {
    hide Inv, Sound;
    Fact(s, p);
    StagesSet(s.pc, p, StepNext(s, p).pc[p]);
    MoveSound(ViewOf(s), p, StageOf(StepNext(s, p).pc[p]));
  }

  // ---------- the work under sem_mm ----------

  // While a terminal works under sem_mm the daemon is not between its choice of a frame and
  // its place for the floppy.
  lemma DaemonAway(s: System, p: int)
    requires Inv(s) && 0 <= p < TER && s.pc[p].In?
    ensures var z := ViewOf(s).st[DAEMON]; !z.Clearing? && !z.Evict0?
    ensures Behind(s.sem_floppy.q, p)
  {
    hide Inv;
    Fact(s, p);
    DaemonStage(s);
    FloppyFacts(s);
    if Is(s.pc[DAEMON], HoldsMm) { OneHolder(s, p, DAEMON, HoldsMm); }
  }

  lemma PickOk(s: System, p: int, x: int)
    requires Ok(s) && AtWork(s, p, Pick(x)) && Mine(p, x)
    ensures Sound(ViewOf(Body(s, p, Pick(x))))
  {
    hide Inv, Sound;
    Fact(s, p);
    DaemonAway(s, p);
    FreeLeft(s, p, x);
    var f := FirstFree(s.pfs);
    StagesSet(s.pc, p, In(Warn(x, f)));
    PickSound(ViewOf(s), p, f, Frame(p, 1, x % PAGES, -1, -1));
  }

  lemma WarnOk(s: System, p: int, x: int, pf: int)
    requires Ok(s) && AtWork(s, p, Warn(x, pf))
    ensures Sound(ViewOf(Body(s, p, Warn(x, pf))))
  {
    hide Inv, Sound;
    Fact(s, p);
    SignalOk(s, p, Leaving(Testing(x, pf)), s.sem_page, WaitsPage);
    StagesSame(s.pc, p, Leaving(Testing(x, pf)));
  }

  lemma PageInOk(s: System, p: int, x: int, pf: int)
    requires Ok(s) && AtWork(s, p, PageIn(x, pf))
    ensures Sound(ViewOf(Body(s, p, PageIn(x, pf))))
  {
    hide Inv, Sound;
    Fact(s, p);
    var r := Body(s, p, PageIn(x, pf));
    StagesSet(s.pc, p, r.pc[p]);
    MoveSound(ViewOf(s), p, StageOf(r.pc[p]));
  }

  lemma LoadedOk(s: System, p: int, w: Work)
    requires Ok(s) && AtWork(s, p, w) && (w.Loaded? || w.Map?)
    ensures Sound(ViewOf(Body(s, p, w)))
  {
    hide Inv, Sound;
    Fact(s, p);
    StagesSet(s.pc, p, Body(s, p, w).pc[p]);
    if w.Loaded? { LoadSound(ViewOf(s), p); } else { MapSound(ViewOf(s), p); }
  }

  lemma ReleaseOk(s: System, p: int, i: int)
    requires Ok(s) && AtWork(s, p, Release(i)) && !Doubles(s, Step(p))
    ensures Sound(ViewOf(Body(s, p, Release(i))))
  {
    hide Inv, Sound;
    Fact(s, p);
    StagesSame(s.pc, p, Body(s, p, Release(i)).pc[p]);
    if IsFrame(i) && Releases(s.pfs[i], p) {
      DaemonAway(s, p);
      DaemonStage(s);
      ReleaseSound(ViewOf(s), p, i);
    }
  }

  lemma SignalWorkOk(s: System, p: int, w: Work)
    requires Ok(s) && AtWork(s, p, w) && (w.Refund? || w.Give?)
    ensures Sound(ViewOf(Body(s, p, w)))
  {
    hide Inv, Sound;
    Fact(s, p);
    SignalOk(s, p, if w.Refund? then In(Release(w.i + 1)) else Leaving(NextScan(w.i)), s.sem_pf, WaitsPf);
  }

  lemma ScanOk(s: System, p: int, i: int)
    requires Ok(s) && AtWork(s, p, Scan(i))
    ensures Sound(ViewOf(Body(s, p, Scan(i))))
  {
    hide Inv, Sound;
    Fact(s, p);
    var r := Body(s, p, Scan(i));
    StagesSet(s.pc, p, r.pc[p]);
    assert Stages(s.pc)[p := Idle] == Stages(s.pc);
    if s.pfs[i].pid != -1 { ScanSound(ViewOf(s), i); }
  }

  // What the daemon knows of the frame it is about to evict.
  lemma ClearFacts(s: System, i: int)
    requires Ok(s) && Sized(s) && s.pc[DAEMON] == In(Clear(i))
    ensures IsFrame(i) && IsPage(PageOf(s.pfs[i])) && Mine(s.pfs[i].pid, PageOf(s.pfs[i])) && 0 <= s.pfs[i].pid < TER
    ensures var x := PageOf(s.pfs[i]);
            && s.pt[x].p && !s.pt[x].r && s.pt[x].frame == i && s.slot[x] == SlotOf(s.pfs[i])
            && (s.slot[x] == -1 || 0 <= s.slot[x] < SLOTS)
  {
    hide Inv, PageOk, ChainOk, Saved;
    var v := ViewOf(s);
    DaemonStage(s);
    assert FrameOk(v, i) && DaemonOk(v);
  }

  lemma ClearOk(s: System, p: int, i: int)
    requires Ok(s) && AtWork(s, p, Clear(i))
    ensures Sound(ViewOf(Body(s, p, Clear(i))))
  {
    hide Inv, Sound;
    Fact(s, p);
    ClearFacts(s, i);
    var v, x, r := ViewOf(s), PageOf(s.pfs[i]), Body(s, p, Clear(i));
    StagesSet(s.pc, p, r.pc[p]);
    if r.pc[p] == NoSlot {
      StopSound(v);
    } else {
      ClearSound(v, if v.slot[x] == -1 then FirstSlot(s.disk) else v.slot[x], r.slot, r.disk);
    }
  }

  lemma WrittenOk(s: System, p: int, i: int)
    requires Ok(s) && AtWork(s, p, Written(i))
    ensures Sound(ViewOf(Body(s, p, Written(i))))
  {
    hide Inv, Sound;
    Fact(s, p);
    StagesSet(s.pc, p, In(Give(i)));
    FreeSound(ViewOf(s));
  }

  // The terminal asks for a page of its own.
  ghost predicate Private(s: System) {
    forall t, x | 0 <= t < TER && t < |s.pc| && StageOf(s.pc[t]) == Wanting(x) :: Mine(t, x)
  }

  lemma SoundPrivate(s: System)
    requires Ok(s)
    ensures Private(s)
  {
    forall t, x | 0 <= t < TER && t < |s.pc| && StageOf(s.pc[t]) == Wanting(x) ensures Mine(t, x) {
      assert ChainOk(ViewOf(s), t);
    }
  }

  lemma WorkOk(s: System, p: int, w: Work)
    requires Ok(s) && AtWork(s, p, w) && !Doubles(s, Step(p))
    ensures Sound(ViewOf(Body(s, p, w)))
  {
    SoundPrivate(s);
    hide Inv, Sound, Doubles, Body;
    Fact(s, p);
    match w
    case Pick(x) => PickOk(s, p, x);
    case Warn(x, pf) => WarnOk(s, p, x, pf);
    case PageIn(x, pf) => PageInOk(s, p, x, pf);
    case Loaded(_, _, _) => LoadedOk(s, p, w);
    case Map(_, _) => LoadedOk(s, p, w);
    case Release(i) => ReleaseOk(s, p, i);
    case Refund(_) => SignalWorkOk(s, p, w);
    case Scan(i) => ScanOk(s, p, i);
    case Clear(i) => ClearOk(s, p, i);
    case Written(i) => WrittenOk(s, p, i);
    case Give(_) => SignalWorkOk(s, p, w);
  }

  lemma ProcessOk(s: System, p: int)
    requires Ok(s) && Enabled(s, Step(p)) && !Doubles(s, Step(p))
    ensures Sound(ViewOf(StepNext(s, p)))
  {
    hide Inv, Sound, Body;
    Fact(s, p);
    match s.pc[p]
    case Ready(w) => SameView(s, p, StepNext(s, p).pc[p]);
    case In(w) => WorkOk(s, p, w);
    case Leaving(_) => LeavingOk(s, p);
    case Swapping(io) => SwapOk(s, p, io);
    case Done(io) => DoneOk(s, p, io);
    case OnFloppy(_) => TransferOk(s, p);
    case Testing(_, _) => TestingOk(s, p);
    case DTop => SameView(s, p, StepNext(s, p).pc[p]);
    case DLoop => SameView(s, p, StepNext(s, p).pc[p]);
  }

  // Every calm step keeps every value where it can be found.
  lemma OkStep(s: System, e: Event)
    requires Ok(s) && Calm(s, e)
    ensures Ok(Next(s, e))
  {
    hide Inv, Sound;
    StepInv(s, e);
    match e
    case Touch(_, _) => AccessOk(s, e);
    case Store(_, _, _) => AccessOk(s, e);
    case Fault(_, _) => BeginOk(s, e);
    case Quit(_) => BeginOk(s, e);
    case Step(p) => ProcessOk(s, p);
  }

  // ---------- calm runs ----------

  ghost predicate CalmRun(s: System, es: seq<Event>)
    requires Legal(s, es)
    decreases |es|
  {
    es == [] || (Calm(s, es[0]) && CalmRun(Next(s, es[0]), es[1..]))
  }

  lemma {:induction false} RunOk(s: System, es: seq<Event>)
    requires Ok(s) && Legal(s, es) && CalmRun(s, es)
    ensures Ok(Reached(s, es))
    decreases |es|
  {
    hide Ok, Calm, Next, Enabled;
    if es != [] {
      OkStep(s, es[0]);
      RunOk(Next(s, es[0]), es[1..]);
    }
  }

  lemma InitialOk(mem: seq<int>, store: seq<int>, warned: nat)
    requires |mem| == MAXFRAMES && |store| == SLOTS
    ensures Ok(Initial(mem, store, warned))
  {
    InitialInv(mem, store, warned);
    var s := Initial(mem, store, warned);
    var v := ViewOf(s);
    forall x | 0 <= x < |v.pt| ensures PageOk(v, x) { assert v.slot[x] == -1 && v.flat[x] == None; }
    forall t | 0 <= t < TER ensures ChainOk(v, t) {}
    forall f | 0 <= f < |v.pfs| ensures FrameOk(v, f) {
      assert f < TER ==> PageOf(v.pfs[f]) == f * PAGES + PAGES - 1;
    }
  }

  // In a state where every value can be found, a present page holds the value last written.
  lemma OkContents(s: System, t: int, x: int)
    requires Ok(s) && Sized(s) && Calm(s, Touch(t, x))
    ensures IsFrame(s.pt[x].frame) && (s.flat[x].Some? ==> Contents(s, x) == s.flat[x].v)
  {
    hide Inv;
    assert PageOk(ViewOf(s), x) && Owner(x) == t;
  }

  // In every calm run a process that reads a present page of its own finds the value that it
  // last wrote there, whatever was evicted, read in and written between.
  lemma ReadsLastWrite(mem: seq<int>, store: seq<int>, warned: nat, es: seq<Event>, t: int, x: int)
    requires |mem| == MAXFRAMES && |store| == SLOTS
    requires Legal(Initial(mem, store, warned), es) && CalmRun(Initial(mem, store, warned), es)
    requires var s := Reached(Initial(mem, store, warned), es); Sized(s) && Calm(s, Touch(t, x))
    ensures var s := Reached(Initial(mem, store, warned), es);
            && IsFrame(s.pt[x].frame) && (s.flat[x].Some? ==> Contents(s, x) == s.flat[x].v)
  {
    InitialOk(mem, store, warned);
    RunOk(Initial(mem, store, warned), es);
    OkContents(Reached(Initial(mem, store, warned), es), t, x);
  }

  // No event of es writes page x.
  ghost predicate Unwritten(es: seq<Event>, x: int) {
    forall i | 0 <= i < |es| :: !(es[i].Store? && es[i].x == x)
  }

  // flat records the last write: a write sets it and nothing else changes it, in any run.
  lemma {:induction false} LastWrite(s: System, es: seq<Event>, x: int)
    requires Legal(s, es) && Sized(s) && 0 <= x < |s.flat| && Unwritten(es, x)
    ensures |Reached(s, es).flat| == |s.flat| && Reached(s, es).flat[x] == s.flat[x]
    decreases |es|
  {
    if es != [] {
      StepFlat(s, es[0], x);
      LastWrite(Next(s, es[0]), es[1..], x);
    }
  }

  lemma StepFlat(s: System, e: Event, x: int)
    requires Enabled(s, e) && 0 <= x < |s.flat| && !(e.Store? && e.x == x)
    ensures Sized(Next(s, e)) && Next(s, e).flat[x] == s.flat[x]
  {
    hide Body, Wake, Transfer;
    if e.Step? {
      if s.pc[e.p].In? { BodyFlat(s, e.p, s.pc[e.p].w); }
      if s.pc[e.p].OnFloppy? { TransferFlat(s, s.pc[e.p].io); }
    }
  }

  lemma TransferFlat(s: System, io: Io)
    requires Sized(s)
    ensures var r := Transfer(s, io);
            Sized(r) && r.flat == s.flat && r.slot == s.slot && r.disk == s.disk && r.pc == s.pc
  {
  }

  lemma BodyFlat(s: System, p: int, w: Work)
    requires Sized(s) && 0 <= p <= TER
    ensures Sized(Body(s, p, w)) && Body(s, p, w).flat == s.flat
    ensures !w.Clear? ==> Body(s, p, w).slot == s.slot && Body(s, p, w).disk == s.disk
  {
    hide Wake, Choose;
  }
}
