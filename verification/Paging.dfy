// Demand paging: the fault handler of the terminals and the page daemon, interleaved, over
// frames, page tables and the floppy that backs them.
module Paging {
  import opened Base
  import opened Semaphore

  const HIGH: int := 4
  const LOW: int := 2
  const PAGES: int := 32
  const SLOTS: int := 800       // 100 tracks of 8 sectors
  const DAEMON: int := TER      // processes 0 to TER - 1 are the terminals

  type FrameCount = n: nat | TER <= n witness TER

  const MAXFRAMES: FrameCount

  // ---------- tables ----------

  // A page descriptor; frame is the frame of a present page, or the disk position of an
  // absent one.
  datatype Entry = Entry(p: bool, r: bool, frame: int)

  // An entry of pfs_arr; pid -1 marks a free frame.
  datatype Frame = Frame(pid: int, seg: int, page: int, track: int, sector: int)

  // The page tables in one sequence: those of the terminals and then the shared one.
  function Index(t: int, seg: int, page: int): int {
    (if seg == 1 then t else TER) * PAGES + page
  }

  function PageOf(f: Frame): int {
    Index(f.pid, f.seg, f.page)
  }

  predicate Mine(t: int, x: int) {
    t * PAGES <= x < (t + 1) * PAGES
  }

  predicate Shared(x: int) {
    TER * PAGES <= x
  }

  // The disk position that frame f was read from, or -1.
  function SlotOf(f: Frame): int {
    if f.track != -1 && f.sector != -1 then Position(f.track, f.sector) else -1
  }

  // Shifting and masking take a position apart.
  lemma PositionBits(track: bv32, sector: bv32)
    requires track < 100 && sector < 8
    ensures (track << 3) | sector == track * 8 + sector
    ensures ((track << 3) | sector) >> 3 == track
    ensures ((track << 3) | sector) & 7 == sector
  {
  }

  lemma PositionDecodes(slot: int)
    requires 0 <= slot < SLOTS
    ensures 0 <= slot / SECTORS < 100 && 0 <= slot % SECTORS < SECTORS
    ensures Position(slot / SECTORS, slot % SECTORS) == slot
  {
  }

  // The first free frame, or the length of the table.
  function FirstFree(pfs: seq<Frame>): (i: nat)
    ensures i <= |pfs| && (i < |pfs| ==> pfs[i].pid == -1) && forall j | 0 <= j < i :: pfs[j].pid != -1
  {
    if pfs == [] || pfs[0].pid == -1 then 0 else 1 + FirstFree(pfs[1..])
  }

  // The first frame in use for a shared page, or the length of the table.
  function FirstShared(pfs: seq<Frame>, page: int): (i: nat)
    ensures i <= |pfs| && (i < |pfs| ==> pfs[i].pid != -1 && pfs[i].seg == 2 && pfs[i].page == page)
    ensures forall j | 0 <= j < i :: !(pfs[j].pid != -1 && pfs[j].seg == 2 && pfs[j].page == page)
  {
    if pfs == [] || (pfs[0].pid != -1 && pfs[0].seg == 2 && pfs[0].page == page) then 0
    else 1 + FirstShared(pfs[1..], page)
  }

  // The choice of getfreeframe: the frame, or -1, and the table after it.
  function Choose(pfs: seq<Frame>, term: int, page: int, seg: int): (r: (int, seq<Frame>))
    ensures |r.1| == |pfs| && -1 <= r.0 < |pfs|
  {
    var h: int, i: int := FirstShared(pfs, page), FirstFree(pfs);
    if seg == 2 && h < |pfs| then (h, pfs)
    else if i < |pfs| then (i, pfs[i := Frame(term, seg, page, -1, -1)])
    else (-1, pfs)
  }

  // The first free disk position, or the length of the table.
  function FirstSlot(disk: seq<int>): (i: nat)
    ensures i <= |disk| && (i < |disk| ==> disk[i] == -1) && forall j | 0 <= j < i :: disk[j] != -1
  {
    if disk == [] || disk[0] == -1 then 0 else 1 + FirstSlot(disk[1..])
  }

  lemma {:induction false} FirstFreeIs(pfs: seq<Frame>, i: nat)
    requires i <= |pfs| && (i < |pfs| ==> pfs[i].pid == -1) && forall j | 0 <= j < i :: pfs[j].pid != -1
    ensures FirstFree(pfs) == i
  {
  }

  lemma {:induction false} FirstSharedIs(pfs: seq<Frame>, page: int, i: nat)
    requires i <= |pfs| && (i < |pfs| ==> pfs[i].pid != -1 && pfs[i].seg == 2 && pfs[i].page == page)
    requires forall j | 0 <= j < i :: !(pfs[j].pid != -1 && pfs[j].seg == 2 && pfs[j].page == page)
    ensures FirstShared(pfs, page) == i
  {
  }

  lemma {:induction false} FirstSlotIs(disk: seq<int>, i: nat)
    requires i <= |disk| && (i < |disk| ==> disk[i] == -1) && forall j | 0 <= j < i :: disk[j] != -1
    ensures FirstSlot(disk) == i
  {
  }

  // The frames of a terminal that putframe gives back.
  predicate Releases(f: Frame, term: int) {
    f.pid == term && f.seg != 2
  }

  // pfs_arr and disk[][], and the loops over them.
  class Tables {
    const pfs_arr: array<Frame>
    const disk: array2<int>

    ghost predicate Valid() {
      pfs_arr.Length == MAXFRAMES && disk.Length0 == 100 && disk.Length1 == SECTORS
    }

    // disk[][] row by row.
    ghost function Disk(): (r: seq<int>)
      requires Valid()
      reads disk
      ensures |r| == SLOTS
    {
      seq(SLOTS, k requires 0 <= k < SLOTS reads disk => disk[k / SECTORS, k % SECTORS])
    }

    constructor ()
      ensures Valid() && fresh(pfs_arr) && fresh(disk)
      ensures pfs_arr[..] == seq(MAXFRAMES, _ => Frame(-1, -1, -1, -1, -1))
      ensures Disk() == seq(SLOTS, _ => -1)
    {
      pfs_arr := new Frame[MAXFRAMES](_ => Frame(-1, -1, -1, -1, -1));
      disk := new int[100, SECTORS]((_, _) => -1);
    }

    // The result is the position taken, or SLOTS if the search runs off the table.
    method GetDiskPos() returns (pos: int)
      requires Valid()
      modifies disk
      ensures pos == FirstSlot(old(Disk()))
      ensures Disk() == if pos < SLOTS then old(Disk())[pos := 1] else old(Disk())
    {
      var i := 0;
      while i < 100
        invariant 0 <= i <= 100 && unchanged(disk)
        invariant forall k | 0 <= k < Position(i, 0) :: Disk()[k] != -1
      {
        var j := 0;
        while j < SECTORS
          invariant 0 <= j <= SECTORS && unchanged(disk)
          invariant forall k | 0 <= k < Position(i, j) :: Disk()[k] != -1
        {
          assert Disk()[Position(i, j)] == disk[i, j];
          if disk[i, j] == -1 {
            pos := Position(i, j);
            FirstSlotIs(Disk(), pos);
            disk[i, j] := 1;
            return;
          }
          j := j + 1;
        }
        i := i + 1;
      }
      pos := SLOTS;
      FirstSlotIs(Disk(), pos);
    }

    // getfreeframe between P(&sem_mm) and V(&sem_mm); the result is less pf_start.
    method GetFreeFrame(term: int, page: int, seg: int) returns (rv: int)
      requires Valid()
      modifies pfs_arr
      ensures (rv, pfs_arr[..]) == Choose(old(pfs_arr[..]), term, page, seg)
    {
      var shared := false;
      rv := -1;
      if seg == 2 {
        var i := 0;
        while i < MAXFRAMES
          invariant 0 <= i <= MAXFRAMES && !shared && rv == -1
          invariant forall j | 0 <= j < i :: !(pfs_arr[j].pid != -1 && pfs_arr[j].seg == 2 && pfs_arr[j].page == page)
        {
          if pfs_arr[i].pid != -1 && pfs_arr[i].page == page && pfs_arr[i].seg == seg {
            shared := true;
            rv := i;
            break;
          }
          i := i + 1;
        }
        FirstSharedIs(pfs_arr[..], page, i);
      }
      if !shared {
        var i := 0;
        while i < MAXFRAMES
          invariant 0 <= i <= MAXFRAMES && rv == -1
          invariant unchanged(pfs_arr)
          invariant forall j | 0 <= j < i :: pfs_arr[j].pid != -1
        {
          if pfs_arr[i].pid == -1 {
            FirstFreeIs(pfs_arr[..], i);
            pfs_arr[i] := Frame(term, seg, page, -1, -1);
            rv := i;
            return;
          }
          i := i + 1;
        }
        FirstFreeIs(pfs_arr[..], i);
      }
    }

    // The first loop of putframe; given is the number of times it signals sem_pf.
    method PutFrame(term: int) returns (given: nat)
      requires Valid() && term != -1
      modifies pfs_arr
      ensures forall i | 0 <= i < MAXFRAMES ::
                pfs_arr[i] == if Releases(old(pfs_arr[i]), term) then old(pfs_arr[i]).(pid := -1) else old(pfs_arr[i])
      ensures given == |set i | 0 <= i < MAXFRAMES && Releases(old(pfs_arr[i]), term)|
    {
      var i := 0;
      given := 0;
      ghost var done: set<int> := {};
      while i < MAXFRAMES
        invariant 0 <= i <= MAXFRAMES && given == |done|
        invariant done == set j | 0 <= j < i && Releases(old(pfs_arr[j]), term)
        invariant forall j | 0 <= j < i ::
                    pfs_arr[j] ==
                    if Releases(old(pfs_arr[j]), term) then old(pfs_arr[j]).(pid := -1) else old(pfs_arr[j])
        invariant forall j | i <= j < MAXFRAMES :: pfs_arr[j] == old(pfs_arr[j])
      {
        if pfs_arr[i].pid == term && pfs_arr[i].seg != 2 {
          pfs_arr[i] := pfs_arr[i].(pid := -1);
          given := given + 1;
          done := done + {i};
        }
        i := i + 1;
      }
    }
  }

  // ---------- the interleaved system ----------

  // The pieces of code that run under sem_mm: getfreeframe's search and its warning to the
  // daemon, pagein before and after the transfer, the mapping, putframe at entry i and its
  // signal; and for the daemon entry i of its scan, the eviction of frame i, and after the
  // write the freeing of frame i and its signal.
  datatype Work =
    | Pick(x: int)
    | Warn(x: int, pf: int)
    | PageIn(x: int, pf: int)
    | Loaded(x: int, pf: int, slot: int)
    | Map(x: int, pf: int)
    | Release(i: int)
    | Refund(i: int)
    | Scan(i: int)
    | Clear(i: int)
    | Written(i: int)
    | Give(i: int)

  // A transfer between a frame and a disk position.
  datatype Io =
    | Read(x: int, pf: int, slot: int)
    | Write(pf: int, slot: int)

  function Then(io: Io): Work {
    match io
    case Read(x, pf, slot) => Loaded(x, pf, slot)
    case Write(pf, _) => Written(pf)
  }

  // Where a process is. Ready(w) is about to lock sem_mm for w; Leaving is about to unlock
  // it; Swapping is about to release sem_mm for sem_floppy in one batch, and Done to do the
  // opposite. NoFrame and NoSlot are the searches that fail.
  datatype Pc =
    | Run
    | Gone
    | PfQueued(x: int)
    | Ready(w: Work)
    | Queued(w: Work)
    | In(w: Work)
    | Leaving(next: Pc)
    | Swapping(io: Io)
    | FloppyQueued(io: Io)
    | OnFloppy(io: Io)
    | Done(io: Io)
    | Testing(x: int, pf: int)
    | DTop
    | DPage
    | DLoop
    | NoFrame
    | NoSlot

  datatype Value = None | Some(v: int)

  // flat is the memory that the terminals believe in, and slot the disk position that was
  // found for each page: both only record history.
  datatype System = System(
    sem_pf: Sem, sem_mm: Sem, sem_page: Sem, sem_floppy: Sem,
    pfs: seq<Frame>, pt: seq<Entry>, disk: seq<int>,
    mem: seq<int>, store: seq<int>,
    pc: seq<Pc>,
    flat: seq<Value>, slot: seq<int>)

  // The terminal reads or writes a present page, faults on an absent one, or terminates; any
  // process takes its next step.
  datatype Event =
    | Touch(t: int, x: int)
    | Store(t: int, x: int, v: int)
    | Fault(t: int, x: int)
    | Quit(t: int)
    | Step(p: int)

  // What a process that waits for a semaphore goes on to when it is let through.
  function Admit(pc: Pc): Pc {
    match pc
    case PfQueued(x) => Ready(Pick(x))
    case Queued(w) => In(w)
    case FloppyQueued(io) => OnFloppy(io)
    case DPage => DLoop
    case _ => pc
  }

  ghost function Wake(pc: seq<Pc>, u: Sem): (r: seq<Pc>)
    ensures |r| == |pc|
  {
    if u.val < 0 && u.q != [] && 0 <= u.q[0] < |pc| then pc[u.q[0] := Admit(pc[u.q[0]])] else pc
  }

  ghost predicate Waits(pc: Pc) {
    pc.PfQueued? || pc.Queued? || pc.FloppyQueued? || pc.DPage?
  }

  // The frame that the daemon is evicting, until it is free, or -1.
  ghost function Evicting(pc: Pc): int {
    match pc
    case Swapping(io) => if io.Write? then io.pf else -1
    case FloppyQueued(io) => if io.Write? then io.pf else -1
    case OnFloppy(io) => if io.Write? then io.pf else -1
    case Done(io) => if io.Write? then io.pf else -1
    case Queued(w) => if w.Written? then w.i else -1
    case In(w) => if w.Written? || w.Clear? then w.i else -1
    case _ => -1
  }

  ghost predicate Sized(s: System) {
    && |s.pfs| == MAXFRAMES && |s.mem| == MAXFRAMES && |s.pc| == TER + 1
    && |s.pt| == (TER + 1) * PAGES && |s.flat| == |s.pt| && |s.slot| == |s.pt|
    && |s.disk| == SLOTS && |s.store| == SLOTS
  }

  ghost predicate CanSee(t: int, x: int) {
    0 <= t < TER && (Mine(t, x) || Mine(TER, x))
  }

  ghost predicate Enabled(s: System, e: Event) {
    Sized(s) &&
    match e
    case Touch(t, x) => CanSee(t, x) && s.pc[t] == Run && s.pt[x].p
    case Store(t, x, _) => CanSee(t, x) && s.pc[t] == Run && s.pt[x].p
    case Fault(t, x) => CanSee(t, x) && s.pc[t] == Run && !s.pt[x].p
    case Quit(t) => 0 <= t < TER && s.pc[t] == Run
    case Step(p) =>
      && 0 <= p <= TER && s.pc[p] != Run && s.pc[p] != Gone && !Waits(s.pc[p])
      && s.pc[p] != NoFrame && s.pc[p] != NoSlot
  }

  // The daemon goes on with the next entry, or back to its test of sem_pf.
  function NextScan(i: int): Pc {
    if i + 1 < MAXFRAMES then Ready(Scan(i + 1)) else DLoop
  }

  function IsFrame(i: int): bool {
    0 <= i < MAXFRAMES
  }

  function IsPage(x: int): bool {
    0 <= x < (TER + 1) * PAGES
  }

  ghost function SetPc(s: System, p: int, pc: Pc): System
    requires 0 <= p < |s.pc|
  {
    s.(pc := s.pc[p := pc])
  }

  // The work of p under sem_mm.
  ghost function Body(s: System, p: int, w: Work): System
    requires Sized(s) && 0 <= p <= TER
  {
    match w
    case Pick(x) =>
      var (i, pfs) := Choose(s.pfs, p, x % PAGES, if Shared(x) then 2 else 1);
      if i == -1 then SetPc(s, p, NoFrame) else SetPc(s.(pfs := pfs), p, In(Warn(x, i)))
    case Warn(x, pf) =>
      var s1 := SetPc(s, p, Leaving(Testing(x, pf)));
      if s.sem_pf.val <= LOW then s1.(sem_page := V(s.sem_page), pc := Wake(s1.pc, s.sem_page)) else s1
    case PageIn(x, pf) => SetPc(s, p, Swapping(Read(x, pf, if IsPage(x) then s.pt[x].frame else -1)))
    case Loaded(x, pf, slot) =>
      var pfs :=
        if IsFrame(pf) then s.pfs[pf := s.pfs[pf].(track := slot / SECTORS, sector := slot % SECTORS)] else s.pfs;
      var pt := if IsPage(x) then s.pt[x := s.pt[x].(r := true)] else s.pt;
      SetPc(s.(pfs := pfs, pt := pt), p, Leaving(Ready(Map(x, pf))))
    case Map(x, pf) =>
      var pt := if IsPage(x) then s.pt[x := s.pt[x].(frame := pf, p := true)] else s.pt;
      SetPc(s.(pt := pt), p, Leaving(Run))
    case Release(i) =>
      if !IsFrame(i) then SetPc(s, p, Leaving(Gone))
      else if Releases(s.pfs[i], p) then SetPc(s.(pfs := s.pfs[i := s.pfs[i].(pid := -1)]), p, In(Refund(i)))
      else SetPc(s, p, In(Release(i + 1)))
    case Refund(i) =>
      var s1 := SetPc(s, p, In(Release(i + 1)));
      s1.(sem_pf := V(s.sem_pf), pc := Wake(s1.pc, s.sem_pf))
    case Scan(i) =>
      if IsFrame(i) && s.pfs[i].pid != -1 && IsPage(PageOf(s.pfs[i])) && s.pt[PageOf(s.pfs[i])].p then
        var x := PageOf(s.pfs[i]);
        if s.pt[x].r then SetPc(s.(pt := s.pt[x := s.pt[x].(r := false)]), p, Leaving(NextScan(i)))
        else SetPc(s, p, In(Clear(i)))
      else SetPc(s, p, Leaving(NextScan(i)))
    case Clear(i) => ClearFrame(s, p, i)
    case Written(i) =>
      SetPc(if IsFrame(i) then s.(pfs := s.pfs[i := s.pfs[i].(pid := -1)]) else s, p, In(Give(i)))
    case Give(i) =>
      var s1 := SetPc(s, p, Leaving(NextScan(i)));
      s1.(sem_pf := V(s.sem_pf), pc := Wake(s1.pc, s.sem_pf))
  }

  // The page in frame i becomes absent; it keeps its disk position, or takes the first free one.
  ghost function ClearFrame(s: System, p: int, i: int): System
    requires Sized(s) && 0 <= p <= TER
  {
    if !IsFrame(i) || !IsPage(PageOf(s.pfs[i])) then SetPc(s, p, NoSlot) else
      var x := PageOf(s.pfs[i]);
      var was := SlotOf(s.pfs[i]);
      var slot := if was != -1 then was else FirstSlot(s.disk);
      if was == -1 && slot == |s.disk| then SetPc(s, p, NoSlot) else
        var s1 := s.(pt := s.pt[x := s.pt[x].(p := false, frame := slot)]);
        var s2 := if was != -1 then s1 else s1.(disk := s.disk[slot := 1], slot := s.slot[x := slot]);
        SetPc(s2, p, Swapping(Write(i, slot)))
  }

  ghost function Transfer(s: System, io: Io): System
    requires Sized(s)
  {
    if !IsFrame(io.pf) || !(0 <= io.slot < SLOTS) then s
    else if io.Read? then s.(mem := s.mem[io.pf := s.store[io.slot]])
    else s.(store := s.store[io.slot := s.mem[io.pf]])
  }

  ghost function StepNext(s: System, p: int): System
    requires Sized(s) && 0 <= p <= TER
  {
    match s.pc[p]
    case Ready(w) => SetPc(s.(sem_mm := P(s.sem_mm, p)), p, if s.sem_mm.val <= 0 then Queued(w) else In(w))
    case In(w) => Body(s, p, w)
    case Leaving(next) => s.(sem_mm := V(s.sem_mm), pc := Wake(s.pc[p := next], s.sem_mm))
    case Swapping(io) =>
      s.(sem_mm := V(s.sem_mm), sem_floppy := P(s.sem_floppy, p),
         pc := Wake(s.pc[p := if s.sem_floppy.val <= 0 then FloppyQueued(io) else OnFloppy(io)], s.sem_mm))
    case OnFloppy(io) => SetPc(Transfer(s, io), p, Done(io))
    case Done(io) =>
      s.(sem_mm := P(s.sem_mm, p), sem_floppy := V(s.sem_floppy),
         pc := Wake(s.pc[p := if s.sem_mm.val <= 0 then Queued(Then(io)) else In(Then(io))], s.sem_floppy))
    case Testing(x, pf) =>
      SetPc(s, p, if IsPage(x) && !s.pt[x].r then Ready(PageIn(x, pf)) else Ready(Map(x, pf)))
    case DTop => SetPc(s.(sem_page := P(s.sem_page, p)), p, if s.sem_page.val <= 0 then DPage else DLoop)
    case DLoop => SetPc(s, p, if s.sem_pf.val < HIGH then Ready(Scan(0)) else DTop)
    case _ => s
  }

  ghost function Next(s: System, e: Event): System
    requires Enabled(s, e)
  {
    match e
    case Touch(_, x) => s.(pt := s.pt[x := s.pt[x].(r := true)])
    case Store(_, x, v) =>
      s.(pt := s.pt[x := s.pt[x].(r := true)], flat := s.flat[x := Some(v)],
         mem := if IsFrame(s.pt[x].frame) then s.mem[s.pt[x].frame := v] else s.mem)
    case Fault(t, x) =>
      SetPc(s.(sem_pf := P(s.sem_pf, t)), t, if s.sem_pf.val <= 0 then PfQueued(x) else Ready(Pick(x)))
    case Quit(t) => SetPc(s, t, Ready(Release(0)))
    case Step(p) => StepNext(s, p)
  }

  // What a process finds in a present page.
  ghost function Contents(s: System, x: int): int
    requires Sized(s) && 0 <= x < |s.pt|
  {
    if IsFrame(s.pt[x].frame) then s.mem[s.pt[x].frame] else 0
  }

  // The state p1 leaves: page 31 of each terminal is in a frame, and nothing else is present.
  ghost function Initial(mem: seq<int>, store: seq<int>, warned: nat): System {
    System(
      Sem(MAXFRAMES - TER, []), Sem(1, []), Sem(warned, []), Sem(1, []),
      seq(MAXFRAMES, i => if i < TER then Frame(i, 1, PAGES - 1, -1, -1) else Frame(-1, -1, -1, -1, -1)),
      seq((TER + 1) * PAGES, x =>
            if x % PAGES == PAGES - 1 && x / PAGES < TER then Entry(true, true, x / PAGES) else Entry(false, true, 0)),
      seq(SLOTS, _ => -1),
      mem, store,
      seq(TER + 1, p => if p < TER then Run else DTop),
      seq((TER + 1) * PAGES, _ => None), seq((TER + 1) * PAGES, _ => -1))
  }

  ghost predicate Legal(s: System, es: seq<Event>)
    decreases |es|
  {
    es == [] || (Enabled(s, es[0]) && Legal(Next(s, es[0]), es[1..]))
  }

  ghost function Reached(s: System, es: seq<Event>): System
    requires Legal(s, es)
    decreases |es|
  {
    if es == [] then s else Reached(Next(s, es[0]), es[1..])
  }
}
