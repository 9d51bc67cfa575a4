// A run in which a terminating process gives back a frame that is being written out, after
// which the search of getfreeframe fails.
module DoubleRelease {
  import opened Base
  import opened Semaphore
  import opened Paging
  import opened FrameCredit
  import opened EvictionRace

  // The daemon clears the present bit of the page and waits for the floppy; its owner ends.
  lemma GivesUp(s: System, a: int) returns (es: seq<Event>, r: System)
    requires Open(s, 0, X, a) && s.sem_floppy == FREE && SlotOf(s.pfs[a]) == -1
    ensures Leads(s, es, r) && Sized(r) && 0 <= Target(s, a) < SLOTS && r.pt == s.pt[X := r.pt[X]]
    ensures r == SetPc(SetPc(s.(sem_mm := FREE, sem_floppy := HELD, pt := r.pt, disk := r.disk, slot := r.slot),
                             DAEMON, OnFloppy(Write(a, Target(s, a)))), 0, Ready(Release(0)))
  {
    hide Leads, FirstFree, FirstSlot;
    TargetInTable(s, a);
    var k, e := Target(s, a), Step(DAEMON);
    var m1 := Next(s, e);
    assert m1.pc == s.pc[DAEMON := Swapping(Write(a, k))] && m1.pt == s.pt[X := s.pt[X].(p := false, frame := k)];
    assert m1 == s.(pc := m1.pc, pt := m1.pt, disk := m1.disk, slot := m1.slot);
    var m2 := Next(m1, e);
    assert m2.sem_mm == FREE && m2.pc == s.pc[DAEMON := OnFloppy(Write(a, k))];
    r := Next(m2, Quit(0));
    hide Next;
    LeadsOne(s, e);
    es := Then1(s, [e], m1, e);
    es := Then1(s, es, m2, Quit(0));
  }

  lemma TargetInTable(s: System, a: int)
    requires Open(s, 0, X, a) && SlotOf(s.pfs[a]) == -1
    ensures 0 <= Target(s, a) < SLOTS
  {
  }

  // The units of sem_pf are the free frames and nobody waits for one.
  ghost predicate Even(s: System) {
    Sized(s) && s.sem_pf.q == [] && |Free(s.pfs)| == s.sem_pf.val
  }

  // putframe at entry i: the frame is freed and signalled if it is the terminal's.
  lemma ReleasesOne(s: System, i: int) returns (es: seq<Event>, r: System)
    requires Even(s) && IsFrame(i) && s.pc[0] == In(Release(i))
    ensures Leads(s, es, r) && Even(r) && r == SetPc(s.(pfs := r.pfs, sem_pf := r.sem_pf), 0, In(Release(i + 1)))
    ensures r.pfs == if Releases(s.pfs[i], 0) then s.pfs[i := s.pfs[i].(pid := -1)] else s.pfs
  {
    hide Leads;
    var e := Step(0);
    LeadsOne(s, e);
    es := [e];
    r := Next(s, e);
    if Releases(s.pfs[i], 0) {
      var m := SetPc(s.(pfs := s.pfs[i := s.pfs[i].(pid := -1)]), 0, In(Refund(i)));
      FreeUpdate(s.pfs, i, s.pfs[i].(pid := -1));
      assert r == m;
      r := Next(m, e);
      assert r == SetPc(m.(sem_pf := Sem(s.sem_pf.val + 1, [])), 0, In(Release(i + 1)));
      es := Then1(s, es, m, e);
    }
  }

  // The terminal gives back all its frames and is gone.
  lemma {:induction false} ReleasesFrom(s: System, i: int) returns (es: seq<Event>, r: System)
    requires Even(s) && 0 <= i <= MAXFRAMES && s.pc[0] == In(Release(i)) && s.sem_mm == HELD
    ensures Leads(s, es, r) && Even(r) && r == SetPc(s.(pfs := r.pfs, sem_pf := r.sem_pf, sem_mm := FREE), 0, Gone)
    ensures forall j | 0 <= j < MAXFRAMES ::
              if i <= j && Releases(s.pfs[j], 0) then r.pfs[j].pid == -1 else r.pfs[j] == s.pfs[j]
    decreases MAXFRAMES - i
  {
    hide Leads;
    if i == MAXFRAMES {
      es, r := Ends(s);
    } else {
      var m, fs;
      fs, m := ReleasesOne(s, i);
      es, r := ReleasesFrom(m, i + 1);
      Joined(s, fs, m, es, r);
      es := fs + es;
    }
  }

  lemma Ends(s: System) returns (es: seq<Event>, r: System)
    requires Sized(s) && s.pc[0] == In(Release(MAXFRAMES)) && s.sem_mm == HELD
    ensures Leads(s, es, r) && r == SetPc(s.(sem_mm := FREE), 0, Gone)
  {
    hide Leads;
    var e := Step(0);
    var m := SetPc(s, 0, Leaving(Gone));
    r := SetPc(s.(sem_mm := FREE), 0, Gone);
    assert Next(s, e) == m;
    assert Next(m, e) == r;
    hide Next;
    LeadsOne(s, e);
    es := Then1(s, [e], m, e);
  }

  // There is one unit of sem_pf more than there are free frames, and terminal 1 has not
  // referred to its pages from j on.
  ghost predicate Short(s: System, j: int) {
    && TER >= 2 && Sized(s) && s.pc[1] == Run && s.sem_mm == FREE && s.sem_page.val >= 0
    && s.sem_pf == Sem(|Free(s.pfs)| + 1, []) && 0 <= j && |Free(s.pfs)| + j < X
    && (forall y | PAGES + j <= y < PAGES + X :: y < |s.pt| && s.pt[y] == Entry(false, true, 0))
  }

  // Terminal 1 faults, and takes a frame.
  lemma TakesOne(s: System, j: int) returns (es: seq<Event>, r: System)
    requires Short(s, j) && |Free(s.pfs)| > 0
    ensures Leads(s, es, r) && Short(r, j + 1) && |Free(r.pfs)| == |Free(s.pfs)| - 1
  {
    hide Leads;
    var e, x := Fault(1, PAGES + j), PAGES + j;
    NoneFree(s.pfs);
    var m := Next(s, e);
    assert m == SetPc(s.(sem_pf := Sem(|Free(s.pfs)|, [])), 1, Ready(Pick(x)));
    LeadsOne(s, e);
    es := MapsIn(m, 1, x);
    r := Mapped(m, 1, x);
    Joined(s, [e], m, es, r);
    es := [e] + es;
    FreeUpdate(s.pfs, FirstFree(s.pfs), Frame(1, 1, x % PAGES, -1, -1));
  }

  // With no frame left the next fault gets past sem_pf, and finds none.
  lemma FindsNone(s: System, j: int) returns (es: seq<Event>, r: System)
    requires Short(s, j) && |Free(s.pfs)| == 0
    ensures Leads(s, es, r) && TER >= 2 && Sized(r) && r.pc[1] == NoFrame
  {
    hide Leads, FirstFree;
    var e, x := Fault(1, PAGES + j), PAGES + j;
    NoneFree(s.pfs);
    var m1 := SetPc(s.(sem_pf := Sem(0, [])), 1, Ready(Pick(x)));
    var m2 := SetPc(m1.(sem_mm := HELD), 1, In(Pick(x)));
    r := SetPc(m2, 1, NoFrame);
    assert Next(s, e) == m1;
    assert Next(m1, Step(1)) == m2;
    assert Next(m2, Step(1)) == r;
    hide Next;
    LeadsOne(s, e);
    es := Then1(s, [e], m1, Step(1));
    es := Then1(s, es, m2, Step(1));
  }

  lemma {:induction false} Exhausts(s: System, j: int) returns (es: seq<Event>, r: System)
    requires Short(s, j)
    ensures Leads(s, es, r) && TER >= 2 && Sized(r) && r.pc[1] == NoFrame
    decreases |Free(s.pfs)|
  {
    hide Leads, Short;
    if |Free(s.pfs)| == 0 {
      es, r := FindsNone(s, j);
    } else {
      var m, fs;
      fs, m := TakesOne(s, j);
      es, r := Exhausts(m, j + 1);
      Joined(s, fs, m, es, r);
      es := fs + es;
    }
  }

  // From the state in which the daemon is about to clear the present bit of page X: its owner
  // ends while the page is written out, and then the daemon frees the frame once more.
  lemma Unbalances(q: System, a: int) returns (es: seq<Event>, r: System)
    requires TER >= 2 && Swept(q, a) && q.pc[DAEMON] == Ready(Scan(a)) && q.pt[X] == Entry(true, false, a)
    requires FirstSlot(q.disk) < SLOTS && MAXFRAMES < X
    ensures Sized(q) && Leads(SetPc(q.(sem_mm := HELD), DAEMON, In(Clear(a))), es, r) && Short(r, 0)
  {
    hide Leads, FirstSlot, FirstFree, SlotOf;
    SweptFacts(q, a);
    PageX(q, a);
    WindowOpen(q, a);
    var s := SetPc(q.(sem_mm := HELD), DAEMON, In(Clear(a)));
    var m, n, fs;
    es, m := GivesUp(s, a);
    var p := SetPc(m.(sem_mm := HELD), 0, In(Release(0)));
    assert Next(m, Step(0)) == p;
    es := Then1(s, es, m, Step(0));
    fs, n := ReleasesFrom(p, 0);
    Joined(s, es, p, fs, n);
    es := es + fs;
    fs, r := Writes(n, a, Target(s, a));
    Joined(s, es, n, fs, r);
    es := es + fs;
    assert r.pfs == n.pfs;
    FreeBound(r.pfs);
  }

  lemma FreeBound(pfs: seq<Frame>)
    ensures |Free(pfs)| <= |pfs|
  {
    assert Free(pfs) <= Range(|pfs|);
    SubsetSize(Free(pfs), Range(|pfs|));
  }

  // With two terminals or more and up to thirty frames there is a run from the start in which
  // a process past sem_pf finds no free frame.
  lemma SearchFails(mem: seq<int>, store: seq<int>, warned: nat) returns (es: seq<Event>)
    requires |mem| == MAXFRAMES && |store| == SLOTS && 2 <= TER && TER + 2 <= MAXFRAMES < X
    ensures Legal(Initial(mem, store, warned), es)
    ensures var s := Reached(Initial(mem, store, warned), es); Sized(s) && s.pc[1] == NoFrame
  {
    hide Initial, Swept, FirstFree, FirstSlot, Reached, Legal, AllReferenced, Short;
    var s0 := Initial(mem, store, warned);
    var m, q, r, fs;
    es, m := ToLoop(mem, store, warned);
    fs, q := ToWindow(m, 0);
    SweptFacts(m, 0);
    SweptFacts(q, 0);
    FirstSlotIs(q.disk, 0);
    var s := SetPc(q.(sem_mm := HELD), DAEMON, In(Clear(0)));
    Joined(s0, es, m, fs, s);
    es := es + fs;
    fs, m := Unbalances(q, 0);
    Joined(s0, es, s, fs, m);
    es := es + fs;
    fs, r := Exhausts(m, 0);
    Joined(s0, es, m, fs, r);
    es := es + fs;
  }
}
