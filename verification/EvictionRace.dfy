// A run in which a process refers to a page between the daemon's test of its reference bit and
// the clearing of its present bit, and then finds something else there than it wrote.
module EvictionRace {
  import opened Base
  import opened Semaphore
  import opened Locks
  import opened Paging
  import opened FrameCredit
  import opened PageState
  import opened FlatMemory
  import opened RealMemory

  ghost predicate Leads(s: System, es: seq<Event>, r: System) {
    Legal(s, es) && Reached(s, es) == r
  }

  lemma LeadsOne(s: System, e: Event)
    requires Enabled(s, e)
    ensures Leads(s, [e], Next(s, e))
  {
    hide Next, Enabled;
    assert [e][1..] == [];
    assert Legal(Next(s, e), []) && Reached(Next(s, e), []) == Next(s, e);
  }

  lemma {:induction false} Joined(s: System, es: seq<Event>, m: System, fs: seq<Event>, r: System)
    requires Leads(s, es, m) && Leads(m, fs, r)
    ensures Leads(s, es + fs, r)
    decreases |es|
  {
    hide Next, Enabled;
    if es == [] {
      assert [] + fs == fs;
    } else {
      Joined(Next(s, es[0]), es[1..], m, fs, r);
      assert (es + fs)[1..] == es[1..] + fs;
    }
  }

  // One more event.
  lemma Then1(s: System, es: seq<Event>, m: System, e: Event) returns (fs: seq<Event>)
    requires Leads(s, es, m) && Enabled(m, e)
    ensures Leads(s, fs, Next(m, e))
  {
    hide Leads, Next, Enabled;
    LeadsOne(m, e);
    fs := es + [e];
    Joined(s, es, m, [e], Next(m, e));
  }

  const HELD: Sem := Sem(0, [])
  const FREE: Sem := Sem(1, [])

  // ---------- a fault on a page whose reference bit is set ----------

  // Terminal t has a unit of sem_pf for its page x, which is absent with its reference bit
  // set; a frame is free, and so is sem_mm.
  ghost predicate Wants(s: System, t: int, x: int) {
    && Sized(s) && 0 <= t < TER && Mine(t, x) && 0 <= x < TER * PAGES && s.pc[t] == Ready(Pick(x))
    && s.sem_mm == FREE && s.sem_page.val >= 0
    && s.pt[x].r && !s.pt[x].p && FirstFree(s.pfs) < MAXFRAMES
  }

  ghost function Framed(s: System, t: int, x: int): System
    requires Wants(s, t, x)
  {
    s.(pfs := s.pfs[FirstFree(s.pfs) := Frame(t, 1, x % PAGES, -1, -1)],
       sem_page := if s.sem_pf.val <= LOW then V(s.sem_page) else s.sem_page)
  }

  // The handler chooses the first free frame, and warns the daemon.
  lemma Chooses(s: System, t: int, x: int) returns (es: seq<Event>)
    requires Wants(s, t, x)
    ensures Leads(s, es, SetPc(Framed(s, t, x), t, Testing(x, FirstFree(s.pfs))))
  {
    hide Leads, FirstFree;
    var f, e := FirstFree(s.pfs), Step(t);
    var m1 := SetPc(s.(sem_mm := HELD), t, In(Pick(x)));
    var m2 := SetPc(m1.(pfs := Framed(s, t, x).pfs), t, In(Warn(x, f)));
    var m3 := SetPc(Framed(s, t, x).(sem_mm := HELD), t, Leaving(Testing(x, f)));
    var r := SetPc(Framed(s, t, x), t, Testing(x, f));
    assert Next(s, e) == m1;
    assert Next(m1, e) == m2 by { PicksFirst(m1, t, x); }
    assert Next(m2, e) == m3;
    assert Next(m3, e) == r;
    hide Next;
    LeadsOne(s, e);
    es := Then1(s, [e], m1, e);
    es := Then1(s, es, m2, e);
    es := Then1(s, es, m3, e);
  }

  lemma PicksFirst(s: System, t: int, x: int)
    requires Sized(s) && 0 <= t < TER && 0 <= x < TER * PAGES && s.pc[t] == In(Pick(x)) && FirstFree(s.pfs) < MAXFRAMES
    ensures var f := FirstFree(s.pfs);
            StepNext(s, t) == SetPc(s.(pfs := s.pfs[f := Frame(t, 1, x % PAGES, -1, -1)]), t, In(Warn(x, f)))
  {
  }

  ghost function Mapped(s: System, t: int, x: int): System
    requires Wants(s, t, x)
  {
    SetPc(Framed(s, t, x).(pt := s.pt[x := Entry(true, true, FirstFree(s.pfs))]), t, Run)
  }

  // The handler finds the bit set, and maps the frame as it is.
  lemma MapsIn(s: System, t: int, x: int) returns (es: seq<Event>)
    requires Wants(s, t, x)
    ensures Leads(s, es, Mapped(s, t, x))
  {
    hide Leads, FirstFree;
    es := Chooses(s, t, x);
    var f, e, q := FirstFree(s.pfs), Step(t), Framed(s, t, x);
    var m0 := SetPc(q, t, Testing(x, f));
    var m1 := SetPc(q, t, Ready(Map(x, f)));
    var m2 := SetPc(q.(sem_mm := HELD), t, In(Map(x, f)));
    var m3 := SetPc(q.(sem_mm := HELD, pt := s.pt[x := Entry(true, true, f)]), t, Leaving(Run));
    assert Next(m0, e) == m1;
    assert Next(m1, e) == m2;
    assert Next(m2, e) == m3;
    assert Next(m3, e) == Mapped(s, t, x);
    hide Next;
    es := Then1(s, es, m0, e);
    es := Then1(s, es, m1, e);
    es := Then1(s, es, m2, e);
    es := Then1(s, es, m3, e);
  }

  // ---------- the race ----------

  // The daemon is about to clear the present bit of page x, which is in frame i, and finds a
  // disk position for it; its owner t runs, nobody else wants sem_mm, and a frame is free.
  ghost predicate Open(s: System, t: int, x: int, i: int) {
    && Sized(s) && 0 <= t < TER && Mine(t, x) && 0 <= x < TER * PAGES && s.pc[t] == Run
    && s.pc[DAEMON] == In(Clear(i)) && IsFrame(i) && PageOf(s.pfs[i]) == x && s.pfs[i].pid != -1
    && s.pt[x].p && s.pt[x].frame == i && s.sem_mm == HELD && s.sem_page.val >= 0
    && s.sem_pf.val > 0 && FirstFree(s.pfs) < MAXFRAMES
    && (SlotOf(s.pfs[i]) != -1 || FirstSlot(s.disk) < SLOTS)
  }

  // Where the page in frame i is written out to.
  ghost function Target(s: System, i: int): int
    requires Sized(s) && IsFrame(i)
  {
    if SlotOf(s.pfs[i]) != -1 then SlotOf(s.pfs[i]) else FirstSlot(s.disk)
  }

  // The owner writes v to the page now, the daemon goes on to clear its present bit and to
  // give sem_mm up, and the owner faults.
  lemma Crosses(s: System, t: int, x: int, i: int, v: int) returns (es: seq<Event>, r: System)
    requires Open(s, t, x, i)
    ensures Leads(s, es, r) && Wants(r, t, x)
    ensures r.flat == s.flat[x := Some(v)] && r.mem == s.mem[i := v] && r.pfs == s.pfs && r.store == s.store
    ensures r.pt == s.pt[x := Entry(false, true, Target(s, i))]
    ensures SlotOf(s.pfs[i]) == -1 ==> r.disk == s.disk[Target(s, i) := 1] && r.slot == s.slot[x := Target(s, i)]
    ensures r.sem_page == s.sem_page && r.sem_pf == P(s.sem_pf, t) && r.sem_floppy == P(s.sem_floppy, DAEMON)
    ensures var io := Write(i, Target(s, i));
            var onward := if s.sem_floppy.val <= 0 then FloppyQueued(io) else OnFloppy(io);
            r.pc == s.pc[DAEMON := onward][t := Ready(Pick(x))]
  {
    hide Leads, FirstFree, FirstSlot;
    var slot := Target(s, i);
    var m1 := Next(s, Store(t, x, v));
    assert m1 == s.(pt := s.pt[x := Entry(true, true, i)], flat := s.flat[x := Some(v)], mem := s.mem[i := v]);
    var m2 := Next(m1, Step(DAEMON));
    assert m2.pc == s.pc[DAEMON := Swapping(Write(i, slot))] && m2.pt == s.pt[x := Entry(false, true, slot)];
    assert m2 == m1.(pc := m2.pc, pt := m2.pt, disk := m2.disk, slot := m2.slot);
    var m3 := Next(m2, Step(DAEMON));
    assert m3.sem_mm == FREE && m3.pc[t] == Run;
    r := Next(m3, Fault(t, x));
    hide Next;
    LeadsOne(s, Store(t, x, v));
    es := Then1(s, [Store(t, x, v)], m1, Step(DAEMON));
    es := Then1(s, es, m2, Step(DAEMON));
    es := Then1(s, es, m3, Fault(t, x));
  }

  lemma Loses(s: System, t: int, x: int, i: int, v: int) returns (es: seq<Event>)
    requires Open(s, t, x, i)
    ensures Legal(s, es)
    ensures var r, f := Reached(s, es), FirstFree(s.pfs);
            && Enabled(r, Touch(t, x)) && r.flat[x] == Some(v) && f != i && Contents(r, x) == s.mem[f]
  {
    var m;
    es, m := Crosses(s, t, x, i, v);
    var fs := MapsIn(m, t, x);
    Joined(s, es, m, fs, Mapped(m, t, x));
    es := es + fs;
  }

  // ---------- such a run exists from every state of the window ----------

  lemma OpenFacts(s: System, i: int)
    requires Fine(s) && s.pc[DAEMON] == In(Clear(i)) && s.sem_mm.q == [] && s.sem_pf.val > 0
    ensures s.sem_mm == HELD && s.sem_page.val >= 0 && FirstFree(s.pfs) < MAXFRAMES
  {
    hide Inv, Sound, LocksOk, CreditOk, Roles, Is, FirstFree;
    var u := Settled(s);
    Parts(u);
    DaemonHolds(u);
    NobodyWarned(u);
    FrameFree(u);
  }

  lemma DaemonHolds(s: System)
    requires Sized(s) && LocksOk(s) && s.pc[DAEMON].In? && s.sem_mm.q == []
    ensures s.sem_mm == HELD
  {
    hide FloppyOk, PfOk, SemPageOk;
    assert DAEMON in Those(s.pc, HoldsMm);
  }

  lemma NobodyWarned(s: System)
    requires Sized(s) && LocksOk(s) && Roles(s.pc) && s.pc[DAEMON].In?
    ensures s.sem_page.val >= 0
  {
    hide MmOk, FloppyOk, PfOk;
    forall p | 0 <= p < |s.pc| ensures !Is(s.pc[p], WaitsPage) { assert Belongs(p, s.pc[p]); }
    assert Those(s.pc, WaitsPage) == {};
    assert forall p | p in s.sem_page.q :: p in Those(s.pc, WaitsPage);
    var p := SomeMember(s.sem_page.q);
    assert p !in Those(s.pc, WaitsPage);
  }

  lemma SomeMember(q: seq<int>) returns (p: int)
    ensures q == [] || p in q
  {
    p := if q == [] then 0 else q[0];
  }

  lemma FrameFree(s: System)
    requires Sized(s) && CreditOk(s) && s.sem_pf.val > 0
    ensures FirstFree(s.pfs) < MAXFRAMES
  {
    assert |Free(s.pfs)| > 0;
    var f :| f in Free(s.pfs);
  }

  // From every state in which the daemon is about to clear the present bit of a page whose
  // owner runs, with a frame to be had and nobody waiting for sem_mm, some run loses a write:
  // the owner writes v, and with nothing written between finds what another frame held.
  lemma LostWrite(s: System, i: int, v: int) returns (es: seq<Event>)
    requires Fine(s) && s.pc[DAEMON] == In(Clear(i)) && IsFrame(i)
    requires 0 <= s.pfs[i].pid < TER && s.pc[s.pfs[i].pid] == Run
    requires s.sem_mm.q == [] && s.sem_pf.val > 0 && FirstFree(s.pfs) < MAXFRAMES && s.mem[FirstFree(s.pfs)] != v
    requires SlotOf(s.pfs[i]) != -1 || FirstSlot(s.disk) < SLOTS
    ensures Legal(s, es)
    ensures var r, x := Reached(s, es), PageOf(s.pfs[i]);
            && IsPage(x) && Enabled(r, Touch(s.pfs[i].pid, x)) && r.flat[x] == Some(v)
            && Contents(r, x) == s.mem[FirstFree(s.pfs)] != v
  {
    hide Fine, Legal, Reached, FirstFree, FirstSlot;
    FineSized(s);
    VictimFacts(s);
    OpenFacts(s, i);
    es := Loses(s, s.pfs[i].pid, PageOf(s.pfs[i]), i, v);
  }

  // ---------- and such a state is reached ----------

  const X: int := PAGES - 1

  // Frame j is in use for a private page that is present in it.
  ghost predicate Tidy(s: System, j: int)
    requires Sized(s) && IsFrame(j)
  {
    && 0 <= s.pfs[j].pid < TER && Mine(s.pfs[j].pid, PageOf(s.pfs[j]))
    && s.pt[PageOf(s.pfs[j])].p && s.pt[PageOf(s.pfs[j])].frame == j
  }

  ghost predicate Referenced(s: System, j: int)
    requires Sized(s) && IsFrame(j)
  {
    Tidy(s, j) && s.pt[PageOf(s.pfs[j])].r
  }

  // Terminal 1 has not referred to its first pages.
  ghost predicate Unseen(s: System) {
    forall y | PAGES <= y < PAGES + X && y < |s.pt| :: s.pt[y] == Entry(false, true, 0)
  }

  // All terminals run, the units of sem_pf are the free frames, page X of terminal 0 is in frame
  // a and was not read in, every other frame is free or in use for a present page, and only
  // page X has ever had a position.
  ghost predicate Swept(s: System, a: int) {
    && Sized(s) && s.sem_mm == FREE && s.sem_floppy == FREE && s.sem_page.val >= 0
    && 0 < s.sem_pf.val < HIGH && s.sem_pf.q == []
    && (forall p | 0 <= p < TER :: s.pc[p] == Run)
    && (forall j | 0 <= j < MAXFRAMES :: s.pfs[j].pid == -1 || Tidy(s, j))
    && IsFrame(a) && s.pfs[a] == Frame(0, 1, X, -1, -1) && FirstFree(s.pfs) < MAXFRAMES
    && (forall y | 0 <= y < |s.slot| && y != X :: s.slot[y] == -1)
    && |Free(s.pfs)| == s.sem_pf.val && Unseen(s)
  }

  // Exactly the first k positions are taken.
  ghost predicate Upto(disk: seq<int>, k: int) {
    && 0 <= k <= |disk| && (forall j | 0 <= j < k :: disk[j] != -1) && (forall j | k <= j < |disk| :: disk[j] == -1)
  }

  // The pages of frames lo to hi - 1, but for that of frame skip, have been referred to.
  ghost predicate AllReferenced(s: System, lo: int, hi: int, skip: int)
    requires Sized(s)
  {
    forall j | 0 <= j < MAXFRAMES && lo <= j < hi && j != skip :: s.pfs[j].pid == -1 || Referenced(s, j)
  }

  // The entry of the page in frame k is as it was.
  ghost predicate Kept(s: System, r: System, k: int)
    requires Sized(s) && Sized(r) && IsFrame(k)
  {
    s.pfs[k].pid != -1 ==> IsPage(PageOf(s.pfs[k])) && r.pt[PageOf(s.pfs[k])] == s.pt[PageOf(s.pfs[k])]
  }

  // Only the page table differs, and where the daemon is.
  ghost predicate Alone(s: System, r: System, pc: Pc)
    requires DAEMON < |s.pc|
  {
    |r.pt| == |s.pt| && r == SetPc(s.(pt := r.pt), DAEMON, pc)
  }

  // The reference bit of the page in frame j becomes bit.
  ghost predicate Marked(s: System, r: System, j: int, bit: bool)
    requires Sized(s) && IsFrame(j)
  {
    if s.pfs[j].pid == -1 then r.pt == s.pt
    else IsPage(PageOf(s.pfs[j])) && r.pt == s.pt[PageOf(s.pfs[j]) := Entry(true, bit, j)]
  }

  lemma SweptStill(s: System, a: int, r: System, pc: Pc, j: int, bit: bool)
    requires Swept(s, a) && IsFrame(j) && Alone(s, r, pc) && Marked(s, r, j, bit)
    ensures Swept(r, a)
    ensures forall k | 0 <= k < MAXFRAMES && k != j :: Kept(s, r, k)
  {
    assert s.pfs[j].pid == -1 || Tidy(s, j);
    forall k | 0 <= k < MAXFRAMES ensures r.pfs[k].pid == -1 || Tidy(r, k) { assert s.pfs[k].pid == -1 || Tidy(s, k); }
    forall k | 0 <= k < MAXFRAMES && k != j ensures Kept(s, r, k) { assert s.pfs[k].pid == -1 || Tidy(s, k); }
  }

  // The owner refers to the page in frame j.
  lemma Touches(s: System, a: int, j: int) returns (es: seq<Event>, r: System)
    requires Swept(s, a) && IsFrame(j) && s.pc[DAEMON] == DLoop
    ensures Leads(s, es, r) && Alone(s, r, DLoop) && Marked(s, r, j, true)
  {
    if s.pfs[j].pid == -1 {
      es, r := [], s;
      assert s.pc[DAEMON := DLoop] == s.pc;
    } else {
      assert Tidy(s, j);
      var e := Touch(s.pfs[j].pid, PageOf(s.pfs[j]));
      r := Next(s, e);
      assert s.pc[DAEMON := DLoop] == s.pc;
      hide Next, Leads;
      LeadsOne(s, e);
      es := [e];
    }
  }

  lemma NoEvent(s: System, a: int)
    requires Swept(s, a)
    ensures Leads(s, [], s) && Alone(s, s, s.pc[DAEMON]) && forall k | 0 <= k < MAXFRAMES :: Kept(s, s, k)
  {
    assert s.pc[DAEMON := s.pc[DAEMON]] == s.pc;
    forall k | 0 <= k < MAXFRAMES ensures Kept(s, s, k) { assert s.pfs[k].pid == -1 || Tidy(s, k); }
  }

  lemma SweptFacts(s: System, a: int)
    requires Swept(s, a)
    ensures Sized(s) && s.sem_mm == FREE
  {
  }

  // Every page from frame lo on is referred to, but for that of frame skip.
  lemma {:induction false} TouchesFrom(s: System, a: int, lo: int, skip: int) returns (es: seq<Event>, r: System)
    requires Swept(s, a) && 0 <= lo <= MAXFRAMES && s.pc[DAEMON] == DLoop
    ensures Leads(s, es, r) && Swept(r, a) && Alone(s, r, DLoop) && AllReferenced(r, lo, MAXFRAMES, skip)
    ensures forall k | 0 <= k < MAXFRAMES && (k < lo || k == skip) :: Kept(s, r, k)
    decreases MAXFRAMES - lo
  {
    hide Leads, Swept;
    SweptFacts(s, a);
    NoEvent(s, a);
    es, r := [], s;
    if lo < MAXFRAMES {
      if lo != skip {
        es, r := Touches(s, a, lo);
        SweptStill(s, a, r, DLoop, lo, true);
      }
      var m, fs := r, es;
      es, r := TouchesFrom(m, a, lo + 1, skip);
      Joined(s, fs, m, es, r);
      es := fs + es;
      if lo != skip { TouchedNow(s, m, r, a, lo); }
      forall k | 0 <= k < MAXFRAMES && (k < lo || k == skip) ensures Kept(s, r, k) {
        assert Kept(s, m, k) && Kept(m, r, k);
      }
    }
  }

  lemma TouchedNow(s: System, m: System, r: System, a: int, j: int)
    requires Swept(s, a) && Swept(r, a) && IsFrame(j) && Alone(s, m, DLoop) && Alone(m, r, DLoop)
    requires Marked(s, m, j, true) && Kept(m, r, j)
    ensures r.pfs[j].pid == -1 || Referenced(r, j)
  {
    assert s.pfs[j].pid == -1 || (Tidy(s, j) && Tidy(r, j));
  }

  // The daemon gives the page in frame j, if any, its second chance.
  lemma GivesChance(s: System, j: int) returns (es: seq<Event>, r: System)
    requires Sized(s) && IsFrame(j) && s.pc[DAEMON] == Ready(Scan(j))
    requires (s.pfs[j].pid == -1 || Referenced(s, j)) && s.sem_mm == FREE
    ensures Leads(s, es, r) && Alone(s, r, NextScan(j)) && Marked(s, r, j, false)
  {
    hide Leads, Enabled, Next;
    var e := Step(DAEMON);
    var m := SetPc(s.(sem_mm := HELD), DAEMON, In(Scan(j)));
    ScanLocks(s, j);
    Unmarks(m, j);
    LeadsOne(s, e);
    es := Then1(s, [e], m, e);
    es := Then1(s, es, Next(m, e), e);
    r := Next(Next(m, e), e);
  }

  lemma ScanLocks(s: System, j: int)
    requires Sized(s) && IsFrame(j) && s.pc[DAEMON] == Ready(Scan(j)) && s.sem_mm == FREE
    ensures Enabled(s, Step(DAEMON)) && Next(s, Step(DAEMON)) == SetPc(s.(sem_mm := HELD), DAEMON, In(Scan(j)))
  {
  }

  lemma Unmarks(m: System, j: int)
    requires Sized(m) && IsFrame(j) && m.pc[DAEMON] == In(Scan(j))
    requires (m.pfs[j].pid == -1 || Referenced(m, j)) && m.sem_mm == HELD
    ensures Enabled(m, Step(DAEMON))
    ensures var m1 := Next(m, Step(DAEMON));
            && Enabled(m1, Step(DAEMON)) && Alone(m, m1, Leaving(NextScan(j))) && Marked(m, m1, j, false)
            && Next(m1, Step(DAEMON)) == SetPc(m1.(sem_mm := FREE), DAEMON, NextScan(j))
  {
    hide NextScan;
  }

  // The scan goes from entry lo up to entry hi, over pages that have been referred to.
  lemma {:induction false} ScansTo(s: System, a: int, lo: int, hi: int) returns (es: seq<Event>, r: System)
    requires Swept(s, a) && 0 <= lo < hi <= MAXFRAMES && s.pc[DAEMON] == Ready(Scan(lo)) && AllReferenced(s, lo, hi, -1)
    ensures Leads(s, es, r) && Swept(r, a) && Alone(s, r, NextScan(hi - 1))
    ensures forall k | 0 <= k < MAXFRAMES && !(lo <= k < hi) :: Kept(s, r, k)
    ensures lo <= a < hi ==> r.pt[X] == Entry(true, false, a)
    decreases hi - lo
  {
    hide Leads, Swept;
    SweptFacts(s, a);
    es, r := GivesChance(s, lo);
    SweptStill(s, a, r, NextScan(lo), lo, false);
    PageX(s, a);
    if lo + 1 < hi {
      var m, fs := r, es;
      forall j | 0 <= j < MAXFRAMES && lo + 1 <= j < hi && j != -1 ensures m.pfs[j].pid == -1 || Referenced(m, j) {
        assert Kept(s, m, j) && (s.pfs[j].pid == -1 || Referenced(s, j));
      }
      es, r := ScansTo(m, a, lo + 1, hi);
      Joined(s, fs, m, es, r);
      es := fs + es;
      forall k | 0 <= k < MAXFRAMES && !(lo <= k < hi) ensures Kept(s, r, k) {
        assert Kept(s, m, k) && Kept(m, r, k);
      }
      assert Kept(m, r, lo);
    }
  }

  lemma PageX(s: System, a: int)
    requires Swept(s, a)
    ensures IsFrame(a) && s.pfs[a].pid != -1 && PageOf(s.pfs[a]) == X && IsPage(X) && Tidy(s, a)
  {
  }

  // The daemon, in its loop, starts a round.
  lemma StartsRound(s: System, a: int)
    requires Swept(s, a) && s.pc[DAEMON] == DLoop
    ensures Enabled(s, Step(DAEMON)) && Next(s, Step(DAEMON)) == SetPc(s, DAEMON, Ready(Scan(0)))
    ensures Swept(SetPc(s, DAEMON, Ready(Scan(0))), a)
    ensures forall k | 0 <= k < MAXFRAMES :: Kept(s, SetPc(s, DAEMON, Ready(Scan(0))), k)
  {
    NoEvent(s, a);
    var r := SetPc(s, DAEMON, Ready(Scan(0)));
    forall k | 0 <= k < MAXFRAMES ensures r.pfs[k].pid == -1 || Tidy(r, k) { assert s.pfs[k].pid == -1 || Tidy(s, k); }
    forall k | 0 <= k < MAXFRAMES ensures Kept(s, r, k) { assert Kept(s, s, k); }
  }

  lemma SomeScan(s: System, a: int, lo: int, hi: int) returns (es: seq<Event>, r: System)
    requires Swept(s, a) && 0 <= lo <= hi <= MAXFRAMES
    requires s.pc[DAEMON] == (if lo < MAXFRAMES then Ready(Scan(lo)) else DLoop)
    requires AllReferenced(s, lo, hi, -1)
    ensures Leads(s, es, r) && Swept(r, a) && Alone(s, r, if hi < MAXFRAMES then Ready(Scan(hi)) else DLoop)
    ensures forall k | 0 <= k < MAXFRAMES && !(lo <= k < hi) :: Kept(s, r, k)
    ensures lo <= a < hi ==> r.pt[X] == Entry(true, false, a)
  {
    hide Leads, Swept;
    if lo < hi {
      es, r := ScansTo(s, a, lo, hi);
    } else {
      NoEvent(s, a);
      es, r := [], s;
    }
  }

  // From its loop the daemon comes to the state in which it is about to clear page X.
  lemma ToWindow(s: System, a: int) returns (es: seq<Event>, q: System)
    requires Swept(s, a) && s.pc[DAEMON] == DLoop
    ensures Swept(q, a) && Alone(s, q, Ready(Scan(a)))
    ensures q.pt[X] == Entry(true, false, a) && AllReferenced(q, a + 1, MAXFRAMES, -1)
    ensures Leads(s, es, SetPc(q.(sem_mm := HELD), DAEMON, In(Clear(a))))
  {
    hide Leads, Swept;
    var m1, m2, m3, fs;
    SweptFacts(s, a);
    es, m1 := TouchesFrom(s, a, 0, -1);
    SweptFacts(m1, a);
    PageX(m1, a);
    fs, m2 := Round(m1, a, MAXFRAMES);
    SweptFacts(m2, a);
    PageX(m2, a);
    Joined(s, es, m1, fs, m2);
    es := es + fs;
    fs, m3 := TouchesFrom(m2, a, 0, a);
    Joined(s, es, m2, fs, m3);
    es := es + fs;
    assert Kept(m2, m3, a);
    SweptFacts(m3, a);
    fs, q := Round(m3, a, a);
    SweptFacts(q, a);
    Joined(s, es, m3, fs, q);
    es := es + fs;
    PageX(m3, a);
    assert Kept(m3, q, a);
    forall j | 0 <= j < MAXFRAMES && a + 1 <= j < MAXFRAMES && j != -1 ensures q.pfs[j].pid == -1 || Referenced(q, j) {
      assert Kept(m3, q, j) && (m3.pfs[j].pid == -1 || Referenced(m3, j));
    }
    fs := Finds(q, a);
    Joined(s, es, q, fs, SetPc(q.(sem_mm := HELD), DAEMON, In(Clear(a))));
    es := es + fs;
  }

  // A round from its start up to entry hi.
  lemma Round(s: System, a: int, hi: int) returns (es: seq<Event>, r: System)
    requires Swept(s, a) && s.pc[DAEMON] == DLoop && 0 <= hi <= MAXFRAMES && AllReferenced(s, 0, hi, -1)
    ensures Leads(s, es, r) && Swept(r, a) && Alone(s, r, if hi < MAXFRAMES then Ready(Scan(hi)) else DLoop)
    ensures forall k | hi <= k < MAXFRAMES :: Kept(s, r, k)
    ensures a < hi ==> r.pt[X] == Entry(true, false, a)
  {
    hide Leads, Swept, Next, Enabled;
    StartsRound(s, a);
    SweptFacts(s, a);
    PageX(s, a);
    var m := SetPc(s, DAEMON, Ready(Scan(0)));
    LeadsOne(s, Step(DAEMON));
    forall j | 0 <= j < MAXFRAMES && 0 <= j < hi && j != -1 ensures m.pfs[j].pid == -1 || Referenced(m, j) {
      assert s.pfs[j].pid == -1 || Referenced(s, j);
    }
    es, r := SomeScan(m, a, 0, hi);
    Joined(s, [Step(DAEMON)], m, es, r);
    es := [Step(DAEMON)] + es;
    forall k | hi <= k < MAXFRAMES ensures Kept(s, r, k) { assert Kept(s, m, k) && Kept(m, r, k); }
  }

  // It finds the page of frame a unreferenced.
  lemma Finds(s: System, a: int) returns (es: seq<Event>)
    requires Swept(s, a) && s.pc[DAEMON] == Ready(Scan(a)) && s.pt[X] == Entry(true, false, a)
    ensures Leads(s, es, SetPc(s.(sem_mm := HELD), DAEMON, In(Clear(a))))
  {
    hide Leads;
    var e := Step(DAEMON);
    PageX(s, a);
    hide Swept;
    var m := SetPc(s.(sem_mm := HELD), DAEMON, In(Scan(a)));
    SweptFacts(s, a);
    ScanLocks(s, a);
    assert Next(m, e) == SetPc(s.(sem_mm := HELD), DAEMON, In(Clear(a)));
    hide Next;
    LeadsOne(s, e);
    es := Then1(s, [e], m, e);
  }

  // ---------- from the start ----------

  // The daemon has not begun; terminal 0 has page X in frame 0, and its pages below n in the
  // frames that follow those of the other terminals.
  ghost predicate Stocked(s: System, n: int) {
    && Sized(s) && 0 <= n <= X && TER + n <= MAXFRAMES
    && (forall p | 0 <= p < TER :: s.pc[p] == Run) && s.pc[DAEMON] == DTop
    && s.sem_mm == FREE && s.sem_floppy == FREE && s.sem_page.val >= 0 && s.sem_pf == Sem(MAXFRAMES - TER - n, [])
    && (forall j | 0 <= j < TER + n :: Tidy(s, j))
    && (forall j | TER + n <= j < MAXFRAMES :: s.pfs[j].pid == -1)
    && (forall k | n <= k < X :: s.pt[k] == Entry(false, true, 0))
    && s.pfs[0] == Frame(0, 1, X, -1, -1) && Upto(s.disk, 0) && (forall y | 0 <= y < |s.slot| :: s.slot[y] == -1)
    && |Free(s.pfs)| == MAXFRAMES - TER - n && Unseen(s)
  }

  lemma StartStocked(mem: seq<int>, store: seq<int>, warned: nat)
    requires |mem| == MAXFRAMES && |store| == SLOTS
    ensures Stocked(Initial(mem, store, warned), 0) && Initial(mem, store, warned).mem == mem
  {
    var s := Initial(mem, store, warned);
    forall j | 0 <= j < TER ensures Tidy(s, j) { assert PageOf(s.pfs[j]) == j * PAGES + X; }
    FreeAbove(s.pfs, MAXFRAMES);
  }

  lemma StockedFree(s: System, n: int)
    requires Stocked(s, n)
    ensures FirstFree(s.pfs) == TER + n
  {
    forall j | 0 <= j < TER + n ensures s.pfs[j].pid != -1 { assert Tidy(s, j); }
    FirstFreeIs(s.pfs, TER + n);
  }

  // Terminal 0 faults on page n.
  lemma FillsOne(s: System, n: int) returns (es: seq<Event>, r: System)
    requires Stocked(s, n) && n < X && TER + n < MAXFRAMES
    ensures Leads(s, es, r) && Stocked(r, n + 1) && r.mem == s.mem
    ensures r.sem_pf.val <= LOW ==> r.sem_page.val > 0
  {
    hide Leads;
    var e := Fault(0, n);
    var m := Next(s, e);
    StockedFree(s, n);
    assert m == SetPc(s.(sem_pf := Sem(MAXFRAMES - TER - n - 1, [])), 0, Ready(Pick(n)));
    LeadsOne(s, e);
    FilledOne(s, n, m);
    es := MapsIn(m, 0, n);
    r := Mapped(m, 0, n);
    Joined(s, [e], m, es, r);
    es := [e] + es;
  }

  lemma FilledOne(s: System, n: int, m: System)
    requires Stocked(s, n) && n < X && TER + n < MAXFRAMES && FirstFree(s.pfs) == TER + n
    requires m == SetPc(s.(sem_pf := Sem(MAXFRAMES - TER - n - 1, [])), 0, Ready(Pick(n)))
    ensures Wants(m, 0, n) && Stocked(Mapped(m, 0, n), n + 1)
  {
    var r := Mapped(m, 0, n);
    assert r.pfs == s.pfs[TER + n := Frame(0, 1, n, -1, -1)];
    FreeUpdate(s.pfs, TER + n, Frame(0, 1, n, -1, -1));
    forall j | 0 <= j < TER + n + 1 ensures Tidy(r, j) {
      if j < TER + n { assert Tidy(s, j) && PageOf(s.pfs[j]) != n; }
    }
  }

  lemma {:induction false} Fills(s: System, n: int, k: int) returns (es: seq<Event>, r: System)
    requires Stocked(s, n) && n < k <= X && TER + k <= MAXFRAMES
    ensures Leads(s, es, r) && Stocked(r, k) && r.mem == s.mem
    ensures r.sem_pf.val <= LOW ==> r.sem_page.val > 0
    decreases k - n
  {
    hide Leads, Stocked;
    es, r := FillsOne(s, n);
    if n + 1 < k {
      var fs, m := es, r;
      es, r := Fills(m, n + 1, k);
      Joined(s, fs, m, es, r);
      es := fs + es;
    }
  }

  // The daemon has been warned, and comes to its loop.
  lemma Begins(s: System, n: int) returns (r: System)
    requires Stocked(s, n) && 0 < MAXFRAMES - TER - n < HIGH && s.sem_page.val > 0
    ensures Leads(s, [Step(DAEMON)], r) && Swept(r, 0) && r.pc[DAEMON] == DLoop && Upto(r.disk, 0) && r.mem == s.mem
  {
    r := SetPc(s.(sem_page := P(s.sem_page, DAEMON)), DAEMON, DLoop);
    StockedFree(s, n);
    forall j | 0 <= j < MAXFRAMES ensures r.pfs[j].pid == -1 || Tidy(r, j) { assert j < TER + n ==> Tidy(s, j); }
    assert Next(s, Step(DAEMON)) == r;
    hide Next, Leads;
    LeadsOne(s, Step(DAEMON));
  }

  // With two to thirty-three frames more than terminals the daemon comes to its loop with
  // page X in frame 0 and a frame to be had.
  lemma ToLoop(mem: seq<int>, store: seq<int>, warned: nat) returns (es: seq<Event>, r: System)
    requires |mem| == MAXFRAMES && |store| == SLOTS && TER + 2 <= MAXFRAMES <= TER + 2 + X
    ensures Leads(Initial(mem, store, warned), es, r)
    ensures Swept(r, 0) && r.pc[DAEMON] == DLoop && Upto(r.disk, 0) && r.mem == mem
  {
    hide Leads, Initial, Swept, Tidy;
    var s0 := Initial(mem, store, warned);
    StartStocked(mem, store, warned);
    var n := if MAXFRAMES - TER == 2 then 1 else MAXFRAMES - TER - 2;
    var m;
    es, m := Fills(s0, 0, n);
    r := Begins(m, n);
    Joined(s0, es, m, [Step(DAEMON)], r);
    es := es + [Step(DAEMON)];
  }

  lemma WindowOpen(q: System, a: int)
    requires Swept(q, a) && q.pt[X] == Entry(true, false, a)
    ensures var s := SetPc(q.(sem_mm := HELD), DAEMON, In(Clear(a)));
            && Sized(s) && SlotOf(s.pfs[a]) == -1 && FirstFree(s.pfs) < MAXFRAMES
            && (FirstSlot(s.disk) < SLOTS ==> Open(s, 0, X, a))
  {
    PageX(q, a);
    hide FirstFree, FirstSlot;
  }

  // So there is a run from the start in which a terminal writes v and then, with nothing
  // written between, does not find it.
  lemma LostFromStart(mem: seq<int>, store: seq<int>, warned: nat, v: int) returns (es: seq<Event>)
    requires |mem| == MAXFRAMES && |store| == SLOTS && TER + 2 <= MAXFRAMES <= TER + 2 + X && v !in mem
    ensures Legal(Initial(mem, store, warned), es)
    ensures var s := Reached(Initial(mem, store, warned), es);
            Enabled(s, Touch(0, X)) && s.flat[X] == Some(v) && Contents(s, X) != v
  {
    hide Initial, Swept, FirstFree, Open, Reached, Legal, AllReferenced;
    var s0 := Initial(mem, store, warned);
    var m, q, fs;
    es, m := ToLoop(mem, store, warned);
    fs, q := ToWindow(m, 0);
    SweptFacts(m, 0);
    SweptFacts(q, 0);
    var s := SetPc(q.(sem_mm := HELD), DAEMON, In(Clear(0)));
    Joined(s0, es, m, fs, s);
    es := es + fs;
    WindowOpen(q, 0);
    fs := Loses(s, 0, X, 0, v);
    assert mem[FirstFree(s.pfs)] in mem;
    assert Leads(s, fs, Reached(s, fs));
    Joined(s0, es, s, fs, Reached(s, fs));
    es := es + fs;
  }

  // ---------- positions that are never given back ----------

  // The daemon writes frame a out, frees it, and goes on with the next entry.
  lemma Writes(s: System, a: int, slot: int) returns (es: seq<Event>, r: System)
    requires Sized(s) && IsFrame(a) && 0 <= slot < SLOTS && s.pc[DAEMON] == OnFloppy(Write(a, slot))
    requires s.sem_mm == FREE && s.sem_floppy == HELD && s.sem_pf.val >= 0
    ensures Leads(s, es, r)
    ensures r == SetPc(s.(store := r.store, sem_floppy := FREE, sem_pf := Sem(s.sem_pf.val + 1, s.sem_pf.q),
                          pfs := s.pfs[a := s.pfs[a].(pid := -1)]), DAEMON, NextScan(a)) && |r.store| == SLOTS
  {
    hide Leads, Enabled, Next, NextScan;
    var e := Step(DAEMON);
    var m := SetPc(s.(store := s.store[slot := s.mem[a]], sem_mm := HELD, sem_floppy := FREE), DAEMON, In(Written(a)));
    WritesOut(s, a, slot);
    LeadsOne(s, e);
    es := Then1(s, [e], Next(s, e), e);
    var fs;
    fs, r := FreesFrame(m, a);
    Joined(s, es, m, fs, r);
    es := es + fs;
  }

  lemma FreesFrame(s: System, a: int) returns (es: seq<Event>, r: System)
    requires Sized(s) && IsFrame(a) && s.pc[DAEMON] == In(Written(a)) && s.sem_mm == HELD && s.sem_pf.val >= 0
    ensures Leads(s, es, r)
    ensures r == SetPc(s.(sem_mm := FREE, sem_pf := Sem(s.sem_pf.val + 1, s.sem_pf.q),
                          pfs := s.pfs[a := s.pfs[a].(pid := -1)]), DAEMON, NextScan(a))
  {
    hide Leads, Enabled, Next, NextScan;
    var e := Step(DAEMON);
    var q := s.(pfs := s.pfs[a := s.pfs[a].(pid := -1)]);
    Frees(s, a);
    Gives(q, a);
    LeadsOne(s, e);
    es := Then1(s, [e], Next(s, e), e);
    es := Then1(s, es, Next(Next(s, e), e), e);
    r := Next(Next(Next(s, e), e), e);
  }

  lemma WritesOut(s: System, a: int, slot: int)
    requires Sized(s) && IsFrame(a) && 0 <= slot < SLOTS && s.pc[DAEMON] == OnFloppy(Write(a, slot))
    requires s.sem_mm == FREE && s.sem_floppy == HELD
    ensures var m := s.(store := s.store[slot := s.mem[a]]);
            var m1 := SetPc(m, DAEMON, Done(Write(a, slot)));
            && Enabled(s, Step(DAEMON)) && Next(s, Step(DAEMON)) == m1
            && Enabled(m1, Step(DAEMON))
            && Next(m1, Step(DAEMON)) == SetPc(m.(sem_mm := HELD, sem_floppy := FREE), DAEMON, In(Written(a)))
  {
  }

  lemma Frees(s: System, a: int)
    requires Sized(s) && IsFrame(a) && s.pc[DAEMON] == In(Written(a))
    ensures Enabled(s, Step(DAEMON))
    ensures Next(s, Step(DAEMON)) == SetPc(s.(pfs := s.pfs[a := s.pfs[a].(pid := -1)]), DAEMON, In(Give(a)))
  {
  }

  lemma Gives(q: System, a: int)
    requires Sized(q) && IsFrame(a) && q.sem_mm == HELD && q.sem_pf.val >= 0
    ensures var s := SetPc(q, DAEMON, In(Give(a)));
            var q1 := q.(sem_pf := Sem(q.sem_pf.val + 1, q.sem_pf.q));
            var m := SetPc(q1, DAEMON, Leaving(NextScan(a)));
            && Enabled(s, Step(DAEMON)) && Next(s, Step(DAEMON)) == m
            && Enabled(m, Step(DAEMON)) && Next(m, Step(DAEMON)) == SetPc(q1.(sem_mm := FREE), DAEMON, NextScan(a))
  {
    hide NextScan;
  }

  lemma Wasted(q: System, a: int, k: int, r: System, b: int)
    requires Swept(q, a) && q.pt[X] == Entry(true, false, a) && Upto(q.disk, k) && k < SLOTS && b == FirstFree(q.pfs)
    requires AllReferenced(q, a + 1, MAXFRAMES, -1)
    requires Sized(r) && r.sem_mm == FREE && r.sem_floppy == FREE && r.sem_page.val >= 0 && r.sem_pf == q.sem_pf
    requires r.pc == q.pc[DAEMON := NextScan(a)] && r.disk == q.disk[k := 1] && r.slot == q.slot[X := k]
    requires r.pfs == q.pfs[b := Frame(0, 1, X, -1, -1)][a := q.pfs[a].(pid := -1)]
    requires r.pt == q.pt[X := Entry(true, true, b)]
    ensures Swept(r, b) && Upto(r.disk, k + 1) && AllReferenced(r, a + 1, MAXFRAMES, -1)
  {
    assert r.pfs[a].pid == -1;
    FreeUpdate(q.pfs, b, Frame(0, 1, X, -1, -1));
    FreeUpdate(q.pfs[b := Frame(0, 1, X, -1, -1)], a, q.pfs[a].(pid := -1));
    forall j | 0 <= j < MAXFRAMES ensures r.pfs[j].pid == -1 || Tidy(r, j) {
      assert q.pfs[j].pid == -1 || Tidy(q, j);
    }
    forall j | 0 <= j < MAXFRAMES && a + 1 <= j < MAXFRAMES && j != -1 ensures r.pfs[j].pid == -1 || Referenced(r, j) {
      assert q.pfs[j].pid == -1 || Referenced(q, j);
    }
  }

  // The owner refers to page X in the window, maps it elsewhere, and the daemon writes the
  // old frame out: one more position is taken, and none given back.
  lemma Wastes(q: System, a: int, k: int) returns (es: seq<Event>, r: System, b: int)
    requires Swept(q, a) && q.pc[DAEMON] == Ready(Scan(a))
    requires q.pt[X] == Entry(true, false, a) && Upto(q.disk, k) && k < SLOTS
    requires AllReferenced(q, a + 1, MAXFRAMES, -1)
    ensures Sized(q) && Leads(SetPc(q.(sem_mm := HELD), DAEMON, In(Clear(a))), es, r)
    ensures Swept(r, b) && r.pc == q.pc[DAEMON := NextScan(a)] && Upto(r.disk, k + 1)
    ensures AllReferenced(r, a + 1, MAXFRAMES, -1)
  {
    hide Leads, FirstFree, FirstSlot, SlotOf, AllReferenced;
    SweptFacts(q, a);
    var s := SetPc(q.(sem_mm := HELD), DAEMON, In(Clear(a)));
    FirstSlotIs(q.disk, k);
    WindowOpen(q, a);
    var m, fs;
    es, m := Crosses(s, 0, X, a, 0);
    fs := MapsIn(m, 0, X);
    var n := Mapped(m, 0, X);
    Joined(s, es, m, fs, n);
    es := es + fs;
    b := FirstFree(s.pfs);
    fs, r := Writes(n, a, k);
    Joined(s, es, n, fs, r);
    es := es + fs;
    assert r.pc == q.pc[DAEMON := NextScan(a)];
    assert r.pt == q.pt[X := Entry(true, true, b)];
    Wasted(q, a, k, r, b);
  }

  // A round in which one more position is taken for page X.
  lemma Cycle(s: System, a: int, k: int) returns (es: seq<Event>, r: System, b: int)
    requires Swept(s, a) && s.pc[DAEMON] == DLoop && Upto(s.disk, k) && k < SLOTS
    ensures Leads(s, es, r) && Swept(r, b) && r.pc[DAEMON] == DLoop && Upto(r.disk, k + 1)
  {
    hide Leads, Swept, Upto, AllReferenced;
    SweptFacts(s, a);
    var q, m, fs;
    es, q := ToWindow(s, a);
    SweptFacts(q, a);
    PageX(q, a);
    fs, m, b := Wastes(q, a, k);
    Joined(s, es, SetPc(q.(sem_mm := HELD), DAEMON, In(Clear(a))), fs, m);
    es := es + fs;
    SweptFacts(m, b);
    fs, r := SomeScan(m, b, a + 1, MAXFRAMES);
    Joined(s, es, m, fs, r);
    es := es + fs;
  }

  lemma {:induction false} Cycles(s: System, a: int, k: int) returns (es: seq<Event>, r: System, b: int)
    requires Swept(s, a) && s.pc[DAEMON] == DLoop && Upto(s.disk, k)
    ensures Leads(s, es, r) && Swept(r, b) && r.pc[DAEMON] == DLoop && Upto(r.disk, SLOTS)
    decreases SLOTS - k
  {
    hide Leads, Swept;
    SweptFacts(s, a);
    if k == SLOTS {
      NoEvent(s, a);
      es, r, b := [], s, a;
    } else {
      es, r, b := Cycle(s, a, k);
      var m, fs := r, es;
      SweptFacts(m, b);
      es, r, b := Cycles(m, b, k + 1);
      Joined(s, fs, m, es, r);
      es := fs + es;
    }
  }

  // With every position taken the daemon stops for good at the next eviction.
  lemma Halts(q: System, a: int)
    requires Swept(q, a) && q.pt[X] == Entry(true, false, a) && Upto(q.disk, SLOTS)
    ensures Sized(q)
    ensures var s := SetPc(q.(sem_mm := HELD), DAEMON, In(Clear(a)));
            Enabled(s, Step(DAEMON)) && Next(s, Step(DAEMON)) == SetPc(s, DAEMON, NoSlot)
  {
    hide FirstSlot, FirstFree;
    FirstSlotIs(q.disk, SLOTS);
    PageX(q, a);
  }

  // There is a run from the start in which the search for a disk position runs off the table,
  // although only one page has ever been written out.
  lemma RunsOff(mem: seq<int>, store: seq<int>, warned: nat) returns (es: seq<Event>)
    requires |mem| == MAXFRAMES && |store| == SLOTS && TER + 2 <= MAXFRAMES <= TER + 2 + X
    ensures Legal(Initial(mem, store, warned), es)
    ensures var s := Reached(Initial(mem, store, warned), es);
            Sized(s) && s.pc[DAEMON] == NoSlot && forall y | IsPage(y) && y != X :: s.slot[y] == -1
  {
    hide Initial, Swept, Reached, Legal, AllReferenced, Upto, Next, Enabled;
    var s0 := Initial(mem, store, warned);
    var m1, m2, b, q, fs;
    es, m1 := ToLoop(mem, store, warned);
    fs, m2, b := Cycles(m1, 0, 0);
    Joined(s0, es, m1, fs, m2);
    es := es + fs;
    fs, q := ToWindow(m2, b);
    SweptFacts(m2, b);
    var s := SetPc(q.(sem_mm := HELD), DAEMON, In(Clear(b)));
    Joined(s0, es, m2, fs, s);
    es := es + fs;
    Halts(q, b);
    es := Then1(s0, es, s, Step(DAEMON));
    SlotsOfX(q, b);
  }

  lemma SlotsOfX(q: System, a: int)
    requires Swept(q, a)
    ensures Sized(q) && forall y | IsPage(y) && y != X :: q.slot[y] == -1
  {
  }
}
