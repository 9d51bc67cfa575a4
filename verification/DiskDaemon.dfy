// Terminals and the disk daemon, interleaved: each step is one piece of code that another
// process can only see done or not done.
module DiskDaemon {
  import opened Base
  import opened Semaphore
  import opened Elevator

  const DAEMON: int := -1

  // Where the daemon is: before its LOCK, waiting there, at entry i of the scan in its first
  // or second direction, serving a request, or using entry -1 because the scan found none.
  datatype Phase =
    | Top
    | Waiting
    | Scan(second: bool, i: nat, min: int, rv: int)
    | Serve(num: int)
    | Lost

  // begun records which requests were pending when the daemon last began to choose, and seen
  // which were when its present scan began.
  datatype Disk = Disk(
    ds: seq<Request>,
    sem_disk: Sem,
    phase: Phase,
    track: int,
    sector: int,
    dir: int,
    begun: set<int>,
    seen: set<int>)

  // A terminal fills in its entry in several steps, and then waits and signals in one batch.
  datatype Event =
    | Fill(i: int, op: int, track: int, sector: int)
    | Submit(i: int)
    | Lock
    | Look
    | Finish

  function Here(s: Disk): int {
    Position(s.track, s.sector)
  }

  ghost predicate Enabled(s: Disk, e: Event) {
    match e
    case Fill(i, _, _, _) => 0 <= i < |s.ds| && s.ds[i].sem.val == 0
    case Submit(i) => 0 <= i < |s.ds| && s.ds[i].sem.val == 0
    case Lock => s.phase == Top
    case Look => s.phase.Scan?
    case Finish => s.phase.Serve? && 0 <= s.phase.num < |s.ds|
  }

  ghost function StartScan(s: Disk, second: bool): Disk {
    var now := PendingSet(s.ds);
    s.(phase := Scan(second, 0, MIN_START, -1), begun := if second then s.begun else now, seen := now)
  }

  // One iteration of the scan, or what follows it.
  ghost function LookNext(s: Disk): Disk
    requires s.phase.Scan?
  {
    var i, min, rv := s.phase.i, s.phase.min, s.phase.rv;
    if i < |s.ds| then
      var value := Ahead(s.ds[i], Here(s), s.dir);
      if Pending(s.ds[i]) && value >= 0 && value < min
      then s.(phase := s.phase.(i := i + 1, min := value, rv := i))
      else s.(phase := s.phase.(i := i + 1))
    else if rv == -1 && !s.phase.second then StartScan(s.(dir := 1 - s.dir), true)
    else if 0 <= rv < |s.ds| then s.(phase := Serve(rv), track := s.ds[rv].track, sector := s.ds[rv].sector)
    else s.(phase := Lost)
  }

  ghost function Next(s: Disk, e: Event): Disk
    requires Enabled(s, e)
  {
    match e
    case Fill(i, op, track, sector) =>
      s.(ds := s.ds[i := s.ds[i].(op := op, track := track, sector := sector)])
    case Submit(i) =>
      var s1 := s.(ds := Submitted(s.ds, i), sem_disk := V(s.sem_disk));
      if s.sem_disk.val < 0 && s.sem_disk.q != [] then StartScan(s1, false) else s1
    case Lock =>
      var s1 := s.(sem_disk := P(s.sem_disk, DAEMON));
      if s1.sem_disk.val < 0 then s1.(phase := Waiting) else StartScan(s1, false)
    case Look => LookNext(s)
    case Finish => s.(ds := s.ds[s.phase.num := Done(s.ds[s.phase.num])], phase := Top)
  }

  ghost function Submitted(ds: seq<Request>, i: int): seq<Request>
    requires 0 <= i < |ds|
  {
    ds[i := ds[i].(sem := P(ds[i].sem, i))]
  }

  // ---------- the invariant of every run ----------

  // Each entry is free or holds its own terminal.
  ghost predicate Entries(s: Disk) {
    && (forall i | 0 <= i < |s.ds| :: s.ds[i].sem == Sem(0, []) || s.ds[i].sem == Sem(-1, [i]))
    && (s.dir == 0 || s.dir == 1)
  }

  // Past its LOCK and not yet done, the daemon holds one unit of sem_disk.
  ghost function Holds(s: Disk): nat {
    if s.phase.Scan? || s.phase.Serve? || s.phase.Lost? then 1 else 0
  }

  // The units of sem_disk and the one in service count the pending requests.
  ghost predicate Credit(s: Disk) {
    && (if s.phase == Waiting then s.sem_disk == Sem(-1, [DAEMON]) else s.sem_disk.val >= 0 && s.sem_disk.q == [])
    && |PendingSet(s.ds)| == (if s.sem_disk.val > 0 then s.sem_disk.val else 0) + Holds(s)
  }

  // Out of reach of a scan in either direction.
  predicate Far(r: Request, position: int) {
    Ahead(r, position, 0) <= -MIN_START || Ahead(r, position, 0) >= MIN_START
  }

  // The scan has the nearest request among the seen ones it has passed, or one nearer still;
  // in a second scan those of the beginning are not ahead in the direction given up.
  ghost predicate Found(s: Disk) {
    match s.phase
    case Scan(second, i, min, rv) =>
      && i <= |s.ds| && s.seen <= PendingSet(s.ds) && {} != s.begun <= s.seen
      && (if rv == -1 then min == MIN_START
          else 0 <= rv < i && Eligible(s.ds[rv], Here(s), s.dir) && min == Ahead(s.ds[rv], Here(s), s.dir))
      && (forall j | j in s.seen && j < i && Eligible(s.ds[j], Here(s), s.dir) :: min <= Ahead(s.ds[j], Here(s), s.dir))
      && (second ==> forall j | j in s.begun :: !Eligible(s.ds[j], Here(s), 1 - s.dir))
    case Serve(num) => 0 <= num < |s.ds| && Pending(s.ds[num])
    case Lost => {} != s.begun <= PendingSet(s.ds) && forall j | j in s.begun :: Far(s.ds[j], Here(s))
    case _ => true
  }

  ghost predicate Inv(s: Disk) {
    Entries(s) && Credit(s) && Found(s)
  }

  ghost function Initial(): Disk {
    Disk(seq(MAXPROC, _ => Request(Sem(0, []), -1, -1, -1)), Sem(0, []), Top, 0, 0, 0, {}, {})
  }

  lemma InitialInv()
    ensures Inv(Initial())
  {
    assert PendingSet(Initial().ds) == {};
  }

  lemma SubmitInv(s: Disk, i: int)
    requires Inv(s) && Enabled(s, Submit(i))
    ensures Inv(Next(s, Submit(i)))
  {
    hide Inv, Found, Entries, Credit, PendingSet, P, V;
    SubmitEntries(s, i);
    SubmittedInv(s, Submitted(s.ds, i), i);
  }

  lemma SubmitEntries(s: Disk, i: int)
    requires Inv(s) && Enabled(s, Submit(i))
    ensures var ds := Submitted(s.ds, i);
            && Entries(s.(ds := ds)) && Found(s.(ds := ds))
            && i in PendingSet(ds) && |PendingSet(ds)| == |PendingSet(s.ds)| + 1
  {
    hide Found, Credit, Eligible;
    SubmitCount(s.ds, i);
    StillFound(s, Submitted(s.ds, i), i);
  }

  lemma SubmitCount(ds: seq<Request>, i: int)
    requires 0 <= i < |ds| && ds[i].sem == Sem(0, [])
    ensures var r := Submitted(ds, i);
            && r[i].sem == Sem(-1, [i]) && PendingSet(r) == PendingSet(ds) + {i} && i !in PendingSet(ds)
            && i in PendingSet(r) && |PendingSet(r)| == |PendingSet(ds)| + 1
  {
    assert P(Sem(0, []), i) == Sem(-1, [i]);
    assert PendingSet(Submitted(ds, i)) == PendingSet(ds) + {i} && i !in PendingSet(ds);
  }

  // One more request and one more unit of sem_disk, or the daemon woken with it.
  lemma SubmittedInv(s: Disk, ds: seq<Request>, i: int)
    requires Inv(s) && Entries(s.(ds := ds)) && Found(s.(ds := ds))
    requires i in PendingSet(ds) && |PendingSet(ds)| == |PendingSet(s.ds)| + 1
    ensures var s1 := s.(ds := ds, sem_disk := V(s.sem_disk));
            Inv(if s.sem_disk.val < 0 && s.sem_disk.q != [] then StartScan(s1, false) else s1)
  {
    hide PendingSet, Eligible, Pending;
    assert s.phase == Waiting ==> V(s.sem_disk) == Sem(0, []);
  }

  // A scan keeps what it has found when entry i, which was not pending, becomes so or changes.
  lemma StillFound(s: Disk, ds: seq<Request>, i: int)
    requires Inv(s) && 0 <= i < |s.ds| == |ds| && !Pending(s.ds[i])
    requires ds == s.ds[i := ds[i]] && PendingSet(s.ds) <= PendingSet(ds)
    ensures Found(s.(ds := ds))
  {
    assert i !in PendingSet(s.ds);
  }

  lemma LockInv(s: Disk)
    requires Inv(s) && Enabled(s, Lock)
    ensures Inv(Next(s, Lock))
  {
    assert PendingSet(s.ds) == {} ==> |PendingSet(s.ds)| == 0;
  }

  // A scan of all entries that found nothing: the daemon turns with everything of the
  // beginning on the other side or out of reach, or it is lost with all of it out of reach.
  lemma EndInv(s: Disk)
    requires Inv(s) && s.phase.Scan? && s.phase.i == |s.ds| && s.phase.rv == -1
    ensures Inv(Next(s, Look)) && Next(s, Look).phase == if s.phase.second then Lost else Scan(true, 0, MIN_START, -1)
  {
    forall j | j in s.begun
      ensures !Eligible(s.ds[j], Here(s), s.dir) && (s.phase.second ==> Far(s.ds[j], Here(s)))
    {
      assert j in s.seen && j in PendingSet(s.ds);
      if s.phase.second { assert !Eligible(s.ds[j], Here(s), 1 - s.dir); }
    }
  }

  lemma LookInv(s: Disk)
    requires Inv(s) && Enabled(s, Look)
    ensures Inv(Next(s, Look))
  {
    if s.phase.i < |s.ds| {
      EntryInv(s);
    } else if s.phase.rv == -1 {
      EndInv(s);
    } else {
      assert Eligible(s.ds[s.phase.rv], Here(s), s.dir);
    }
  }

  lemma EntryInv(s: Disk)
    requires Inv(s) && s.phase.Scan? && s.phase.i < |s.ds|
    ensures Inv(Next(s, Look))
  {
    hide PendingSet;
    assert Entries(LookNext(s)) && Credit(LookNext(s));
  }

  lemma FinishInv(s: Disk)
    requires Inv(s) && Enabled(s, Finish)
    ensures Inv(Next(s, Finish))
  {
    assert PendingSet(Next(s, Finish).ds) == PendingSet(s.ds) - {s.phase.num};
  }

  lemma FillInv(s: Disk, e: Event)
    requires Inv(s) && Enabled(s, e) && e.Fill?
    ensures Inv(Next(s, e))
  {
    var r := Next(s, e);
    assert PendingSet(r.ds) == PendingSet(s.ds);
    StillFound(s, r.ds, e.i);
  }

  lemma StepInv(s: Disk, e: Event)
    requires Inv(s) && Enabled(s, e)
    ensures Inv(Next(s, e))
  {
    match e
    case Fill(_, _, _, _) => FillInv(s, e);
    case Submit(i) => SubmitInv(s, i);
    case Lock => LockInv(s);
    case Look => LookInv(s);
    case Finish => FinishInv(s);
  }

  ghost predicate Legal(s: Disk, es: seq<Event>)
    decreases |es|
  {
    es == [] || (Enabled(s, es[0]) && Legal(Next(s, es[0]), es[1..]))
  }

  ghost function Reached(s: Disk, es: seq<Event>): Disk
    requires Legal(s, es)
    decreases |es|
  {
    if es == [] then s else Reached(Next(s, es[0]), es[1..])
  }

  lemma {:induction false} RunInv(s: Disk, es: seq<Event>)
    requires Inv(s) && Legal(s, es)
    ensures Inv(Reached(s, es))
    decreases |es|
  {
    if es != [] {
      StepInv(s, es[0]);
      RunInv(Next(s, es[0]), es[1..]);
    }
  }

  // In every interleaving the units of sem_disk plus the request in service are the pending
  // requests, and the daemon sleeps only when nothing is pending; if it uses entry -1, all the
  // requests pending when it began to choose are out of reach.
  lemma DaemonCounts(es: seq<Event>)
    requires Legal(Initial(), es)
    ensures var s := Reached(Initial(), es);
            && |PendingSet(s.ds)| == (if s.sem_disk.val > 0 then s.sem_disk.val else 0) + Holds(s)
            && (s.phase == Waiting ==> forall i | 0 <= i < |s.ds| :: !Pending(s.ds[i]))
            && (s.phase.Serve? ==> 0 <= s.phase.num < |s.ds| && Pending(s.ds[s.phase.num]))
            && (s.phase == Lost ==> s.begun != {} && s.begun <= PendingSet(s.ds)
                                    && forall j | j in s.begun :: Far(s.ds[j], Here(s)))
  {
    InitialInv();
    RunInv(Initial(), es);
    var s := Reached(Initial(), es);
    if s.phase == Waiting {
      assert PendingSet(s.ds) == {};
      forall i | 0 <= i < |s.ds| ensures !Pending(s.ds[i]) { assert i !in PendingSet(s.ds); }
    }
  }

  // The request chosen is at least as near as any that was pending, in the daemon's
  // direction, when the scan began: later arrivals can only be nearer still.
  lemma ChoiceNearest(s: Disk, j: int)
    requires Inv(s) && Enabled(s, Look) && Next(s, Look).phase.Serve?
    requires j in s.seen && Eligible(s.ds[j], Here(s), s.dir)
    ensures var num := Next(s, Look).phase.num;
            Eligible(s.ds[num], Here(s), s.dir) && Ahead(s.ds[num], Here(s), s.dir) <= Ahead(s.ds[j], Here(s), s.dir)
  {
    assert j in PendingSet(s.ds);
  }

  // ---------- requests in a window ----------

  // Some window of positions, around the first, that is closer than the reach of the scan.
  type Lowest = x: int | -MIN_START < x <= 0 witness 0

  const LO: Lowest
  const HI: int := LO + MIN_START - 1

  ghost predicate InWindow(s: Disk) {
    LO <= Here(s) <= HI && forall i | 0 <= i < |s.ds| && Pending(s.ds[i]) :: LO <= Place(s.ds[i]) <= HI
  }

  // Every request made lies in the window.
  ghost predicate WindowRun(s: Disk, es: seq<Event>)
    requires Legal(s, es)
    decreases |es|
  {
    es == [] || ((es[0].Submit? ==> LO <= Place(s.ds[es[0].i]) <= HI) && WindowRun(Next(s, es[0]), es[1..]))
  }

  lemma StepWindow(s: Disk, e: Event)
    requires Inv(s) && InWindow(s) && Enabled(s, e) && (e.Submit? ==> LO <= Place(s.ds[e.i]) <= HI)
    ensures InWindow(Next(s, e))
  {
    hide Credit;
    if e.Look? && s.phase.i >= |s.ds| && s.phase.rv != -1 { assert Eligible(s.ds[s.phase.rv], Here(s), s.dir); }
  }

  lemma {:induction false} RunWindow(s: Disk, es: seq<Event>)
    requires Inv(s) && InWindow(s) && Legal(s, es) && WindowRun(s, es)
    ensures Inv(Reached(s, es)) && InWindow(Reached(s, es))
    decreases |es|
  {
    hide Inv, InWindow, Next;
    if es != [] {
      StepInv(s, es[0]);
      StepWindow(s, es[0]);
      RunWindow(Next(s, es[0]), es[1..]);
    }
  }

  // With requests in the window the daemon never uses entry -1.
  lemma DaemonSafe(es: seq<Event>)
    requires Legal(Initial(), es) && WindowRun(Initial(), es)
    ensures Reached(Initial(), es).phase != Lost
  {
    InitialInv();
    RunWindow(Initial(), es);
    var s := Reached(Initial(), es);
    assert forall j | j in PendingSet(s.ds) :: !Far(s.ds[j], Here(s));
    assert s.begun != {} ==> exists j :: j in s.begun;
  }

  // ---------- requests out of reach ----------

  // When a choice ends with nothing having arrived since it began, the daemon goes on with
  // entry -1 if and only if every request is out of reach.
  lemma LostIff(s: Disk)
    requires Inv(s) && s.phase.Scan? && s.phase.second && s.phase.i == |s.ds| && PendingSet(s.ds) == s.begun
    ensures Next(s, Look).phase == Lost <==> forall j | j in PendingSet(s.ds) :: Far(s.ds[j], Here(s))
  {
    if s.phase.rv == -1 {
      EndInv(s);
    } else {
      assert s.phase.rv in PendingSet(s.ds) && !Far(s.ds[s.phase.rv], Here(s));
    }
  }

  ghost predicate OnlyLooks(es: seq<Event>) {
    forall e | e in es :: e == Look
  }

  lemma Cons(s: Disk, e: Event, es: seq<Event>)
    requires Enabled(s, e) && Legal(Next(s, e), es)
    ensures Legal(s, [e] + es) && Reached(s, [e] + es) == Reached(Next(s, e), es)
  {
    assert ([e] + es)[1..] == es;
  }

  // A choice that has found nothing yet, has nothing before it in its direction, and will
  // have nothing in the other, runs to entry -1.
  lemma {:induction false} RunsOut(s: Disk) returns (es: seq<Event>)
    requires s.phase.Scan? && s.phase.rv == -1 && s.phase.min == MIN_START && (s.dir == 0 || s.dir == 1)
    requires s.phase.i <= |s.ds|
    requires forall j | s.phase.i <= j < |s.ds| :: !Eligible(s.ds[j], Here(s), s.dir)
    requires !s.phase.second ==> forall j | 0 <= j < |s.ds| :: !Eligible(s.ds[j], Here(s), 1 - s.dir)
    ensures OnlyLooks(es) && Legal(s, es)
    ensures Reached(s, es).phase == Lost && Reached(s, es).ds == s.ds && Here(Reached(s, es)) == Here(s)
    decreases !s.phase.second, |s.ds| - s.phase.i
  {
    var s1 := Next(s, Look);
    if s.phase.i < |s.ds| {
      assert !Eligible(s.ds[s.phase.i], Here(s), s.dir);
    }
    if s.phase.second && s.phase.i == |s.ds| {
      assert Legal(s1, []);
      Cons(s, Look, []);
      es := [Look] + [];
    } else {
      var fs := RunsOut(s1);
      Cons(s, Look, fs);
      es := [Look] + fs;
    }
  }

  // A request of terminal 0 on track 1250 is pending, alone, and the daemon is at entry i of
  // its first scan.
  ghost predicate FarAlone(s: Disk, i: nat) {
    && |s.ds| == MAXPROC && s.sem_disk == Sem(0, []) && s.dir == 0 && Here(s) == 0
    && s.phase == Scan(false, i, MIN_START, -1)
    && Pending(s.ds[0]) && Place(s.ds[0]) == MIN_START && forall j | 1 <= j < |s.ds| :: s.ds[j].sem == Sem(0, [])
  }

  lemma FarFirst() returns (es: seq<Event>, s: Disk)
    ensures Legal(Initial(), es) && s == Reached(Initial(), es) && FarAlone(s, 0)
  {
    hide Next, FarAlone, Initial, Legal, Reached, Enabled;
    var s0 := Initial();
    var s1, s2;
    s1, s2, s := FarSteps();
    Nothing(s);
    Cons(s2, Lock, []);
    Cons(s1, Submit(0), [Lock] + []);
    es := [Fill(0, 0, 1250, 0)] + ([Submit(0)] + ([Lock] + []));
    Cons(s0, Fill(0, 0, 1250, 0), [Submit(0)] + ([Lock] + []));
  }

  lemma Nothing(s: Disk)
    ensures Legal(s, []) && Reached(s, []) == s
  {
  }

  lemma FarSteps() returns (s1: Disk, s2: Disk, s: Disk)
    ensures Enabled(Initial(), Fill(0, 0, 1250, 0)) && Next(Initial(), Fill(0, 0, 1250, 0)) == s1
    ensures Enabled(s1, Submit(0)) && Next(s1, Submit(0)) == s2 && Enabled(s2, Lock) && Next(s2, Lock) == s
    ensures FarAlone(s, 0)
  {
    hide PendingSet, StartScan, LookNext, FarAlone, Submitted;
    s1 := FarFill();
    s2, s := FarSubmit(s1);
  }

  lemma FarFill() returns (s1: Disk)
    ensures Enabled(Initial(), Fill(0, 0, 1250, 0)) && Next(Initial(), Fill(0, 0, 1250, 0)) == s1
    ensures |s1.ds| == MAXPROC && s1.ds[0] == Request(Sem(0, []), 0, 1250, 0) && s1.sem_disk == Sem(0, [])
    ensures (forall j | 1 <= j < |s1.ds| :: s1.ds[j].sem == Sem(0, []))
    ensures s1.phase == Top && Here(s1) == 0 && s1.dir == 0
  {
    hide PendingSet, StartScan, LookNext;
    s1 := Next(Initial(), Fill(0, 0, 1250, 0));
  }

  lemma FarSubmit(s1: Disk) returns (s2: Disk, s: Disk)
    requires |s1.ds| == MAXPROC && s1.ds[0] == Request(Sem(0, []), 0, 1250, 0) && s1.sem_disk == Sem(0, [])
    requires (forall j | 1 <= j < |s1.ds| :: s1.ds[j].sem == Sem(0, []))
    requires s1.phase == Top && Here(s1) == 0 && s1.dir == 0
    ensures Enabled(s1, Submit(0)) && Next(s1, Submit(0)) == s2 && Enabled(s2, Lock) && Next(s2, Lock) == s
    ensures FarAlone(s, 0)
  {
    hide PendingSet;
    s2 := Next(s1, Submit(0));
    assert s2.ds[0] == Request(Sem(-1, [0]), 0, 1250, 0) && s2.sem_disk == Sem(1, []);
    s := Next(s2, Lock);
  }

  lemma {:induction false} Chain(s: Disk, es: seq<Event>, m: Disk, fs: seq<Event>)
    requires Legal(s, es) && Reached(s, es) == m && Legal(m, fs)
    ensures Legal(s, es + fs) && Reached(s, es + fs) == Reached(m, fs)
    decreases |es|
  {
    hide Next, Enabled;
    if es == [] {
      assert [] + fs == fs;
    } else {
      Chain(Next(s, es[0]), es[1..], m, fs);
      assert (es + fs)[1..] == es[1..] + fs;
    }
  }

  // A run in which the daemon uses entry -1: the only request is on track 1250.
  lemma FarRequest() returns (es: seq<Event>)
    ensures Legal(Initial(), es) && Reached(Initial(), es).phase == Lost
  {
    var e1, s := FarFirst();
    var fs := RunsOut(s);
    Chain(Initial(), e1, s, fs);
    es := e1 + fs;
  }

  // With an arrival during the choice the daemon can use entry -1 even though a request is
  // near: that of terminal 1 comes after the first scan has passed its entry, and lies behind
  // the daemon in the second.
  lemma NearButLost() returns (es: seq<Event>)
    ensures Legal(Initial(), es)
    ensures var s := Reached(Initial(), es);
            s.phase == Lost && |s.ds| > 1 && Pending(s.ds[1]) && Place(s.ds[1]) - Here(s) == 5
  {
    var e1, s := FarFirst();
    var e2, m := NearArrives(s);
    var fs := RunsOut(m);
    Chain(s, e2, m, fs);
    Chain(Initial(), e1, s, e2 + fs);
    es := e1 + (e2 + fs);
  }

  // The scan passes the first two entries, and then terminal 1 asks for sector 5.
  lemma NearArrives(s: Disk) returns (es: seq<Event>, r: Disk)
    requires FarAlone(s, 0)
    ensures Legal(s, es) && r == Reached(s, es) && |r.ds| == MAXPROC && r.dir == 0 && Here(r) == 0
    ensures r.phase == Scan(false, 2, MIN_START, -1) && Pending(r.ds[1]) && Place(r.ds[1]) == 5
    ensures Place(r.ds[0]) == MIN_START && forall j | 2 <= j < |r.ds| :: !Pending(r.ds[j])
  {
    var s1 := Next(s, Look);
    assert FarAlone(s1, 1);
    var s2 := Next(s1, Look);
    assert FarAlone(s2, 2);
    var s3 := Next(s2, Fill(1, 0, 0, 5));
    assert s3 == s2.(ds := s2.ds[1 := Request(Sem(0, []), 0, 0, 5)]);
    r := Next(s3, Submit(1));
    assert Legal(r, []);
    hide FarAlone;
    Cons(s3, Submit(1), []);
    Cons(s2, Fill(1, 0, 0, 5), [Submit(1)] + []);
    Cons(s1, Look, [Fill(1, 0, 0, 5)] + ([Submit(1)] + []));
    es := [Look] + ([Look] + ([Fill(1, 0, 0, 5)] + ([Submit(1)] + [])));
    Cons(s, Look, [Look] + ([Fill(1, 0, 0, 5)] + ([Submit(1)] + [])));
  }
}
