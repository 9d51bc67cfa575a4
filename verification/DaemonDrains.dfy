// The disk daemon's runs: where the head is, and the order in which requests are served.
module DaemonDrains {
  import opened Base
  import opened Semaphore
  import opened Elevator
  import opened DiskDaemon

  // ---------- the place that is served ----------

  // What terminal i has asked for last: operation, track and sector.
  datatype Ask = Ask(op: int, track: int, sector: int)

  function Asked(es: seq<Event>, i: int): Ask {
    if es == [] then Ask(-1, -1, -1) else
      var n := |es| - 1;
      if es[n].Fill? && es[n].i == i then Ask(es[n].op, es[n].track, es[n].sector) else Asked(es[..n], i)
  }

  // Each entry holds what its terminal has asked for, and the head is at the request in service.
  ghost predicate Placed(s: Disk) {
    s.phase.Serve? && 0 <= s.phase.num < |s.ds| ==>
      s.track == s.ds[s.phase.num].track && s.sector == s.ds[s.phase.num].sector
  }

  ghost function Entry(s: Disk, i: int): Ask {
    if 0 <= i < |s.ds| then Ask(s.ds[i].op, s.ds[i].track, s.ds[i].sector) else Ask(-1, -1, -1)
  }

  lemma StepPlaced(s: Disk, e: Event, i: int)
    requires Inv(s) && Placed(s) && Enabled(s, e)
    ensures Placed(Next(s, e))
    ensures Entry(Next(s, e), i) == if e.Fill? && e.i == i then Ask(e.op, e.track, e.sector) else Entry(s, i)
  {
    hide PendingSet, Credit;
  }

  lemma {:induction false} LastStep(s: Disk, es: seq<Event>)
    requires Legal(s, es) && es != []
    ensures var n := |es| - 1;
            && Legal(s, es[..n]) && Enabled(Reached(s, es[..n]), es[n])
            && Reached(s, es) == Next(Reached(s, es[..n]), es[n])
    decreases |es|
  {
    hide Next, Enabled;
    var n := |es| - 1;
    if n > 0 {
      assert es[1..][..n - 1] == es[..n][1..];
      LastStep(Next(s, es[0]), es[1..]);
    }
  }

  lemma {:induction false} RunPlaced(es: seq<Event>, i: int)
    requires Legal(Initial(), es)
    ensures var s := Reached(Initial(), es); Inv(s) && Placed(s) && Entry(s, i) == Asked(es, i)
    decreases |es|
  {
    hide Inv, Placed, Next, Enabled;
    if es == [] {
      InitialInv();
      NothingPlaced();
    } else {
      var n := |es| - 1;
      LastStep(Initial(), es);
      RunPlaced(es[..n], i);
      StepInv(Reached(Initial(), es[..n]), es[n]);
      StepPlaced(Reached(Initial(), es[..n]), es[n], i);
    }
  }

  lemma NothingPlaced()
    ensures Placed(Initial())
  {
  }

  // In every run the daemon serves a terminal that waits, with the head at the track and sector
  // that this terminal has given last, and with the operation that it has given.
  lemma ServesAsked(es: seq<Event>)
    requires Legal(Initial(), es) && Reached(Initial(), es).phase.Serve?
    ensures var s := Reached(Initial(), es);
            var num := s.phase.num;
            && 0 <= num < |s.ds| && s.ds[num].sem == Sem(-1, [num])
            && Ask(s.ds[num].op, s.track, s.sector) == Asked(es, num)
            && Here(s) == Place(s.ds[num])
  {
    RunPlaced(es, Reached(Initial(), es).phase.num);
  }

  // ---------- runs without arrivals ----------

  ghost predicate Quiet(es: seq<Event>) {
    forall e | e in es :: e == Lock || e == Look || e == Finish
  }

  // The requests that the daemon finishes in the run es from s.
  ghost function Finished(s: Disk, es: seq<Event>): seq<int>
    requires Legal(s, es)
    decreases |es|
  {
    if es == [] then []
    else if es[0] == Finish then [s.phase.num] + Finished(Next(s, es[0]), es[1..])
    else Finished(Next(s, es[0]), es[1..])
  }

  // The choice under way began with the head at the position and the direction dir.
  ghost predicate Choosing(s: Disk, position: int, dir: int) {
    match s.phase
    case Scan(second, i, min, rv) =>
      && Here(s) == position && i <= |s.ds| && -1 <= rv < i && Best(s.ds[..i], position, s.dir, rv, min)
      && (if second then s.dir == 1 - dir && Nearest(s.ds, position, dir, -1) else s.dir == dir)
    case Serve(num) => 0 <= num < |s.ds| && Picks(s.ds, position, dir, num, s.dir) && Here(s) == Place(s.ds[num])
    case Lost => true
    case _ => Here(s) == position && s.dir == dir
  }

  lemma LookChoosing(s: Disk, position: int, dir: int)
    requires Inv(s) && Choosing(s, position, dir) && s.phase.Scan?
    ensures Choosing(Next(s, Look), position, dir) && Next(s, Look).ds == s.ds
  {
    hide PendingSet, Credit, Eligible;
    var i := s.phase.i;
    if i < |s.ds| {
      BestNext(s.ds, i, position, s.dir, s.phase.rv, s.phase.min);
    } else {
      assert s.ds[..i] == s.ds;
      assert s.ds[..0] == [];
    }
  }

  // Whatever is served in a run without arrivals is served in the order of the elevator.
  lemma {:induction false} QuietDrains(s: Disk, es: seq<Event>, position: int, dir: int)
    requires Inv(s) && Choosing(s, position, dir) && Quiet(es) && Legal(s, es) && AllServed(Reached(s, es).ds)
    ensures Drains(s.ds, position, dir, Finished(s, es))
    decreases |es|
  {
    if es != [] {
      assert es[0] in es && forall e | e in es[1..] :: e in es;
      StepInv(s, es[0]);
      QuietStep(s, es[0], position, dir);
      hide Inv, Next, Choosing, Here;
      var r := Next(s, es[0]);
      if es[0] == Finish {
        var num := s.phase.num;
        QuietDrains(r, es[1..], Place(s.ds[num]), s.dir);
        var nums := Finished(s, es);
        assert nums[1..] == Finished(r, es[1..]);
        assert DrainsVia(s.ds, position, dir, nums, s.dir);
      } else {
        QuietDrains(r, es[1..], position, dir);
      }
    }
  }

  lemma QuietStep(s: Disk, e: Event, position: int, dir: int)
    requires Inv(s) && Choosing(s, position, dir) && Enabled(s, e) && (e == Lock || e == Look || e == Finish)
    ensures if e == Finish then
              && s.phase.Serve? && 0 <= s.phase.num < |s.ds| && Picks(s.ds, position, dir, s.phase.num, s.dir)
              && Next(s, e).ds == s.ds[s.phase.num := Done(s.ds[s.phase.num])]
              && Choosing(Next(s, e), Place(s.ds[s.phase.num]), s.dir)
            else Next(s, e).ds == s.ds && Choosing(Next(s, e), position, dir)
  {
    if e == Look {
      LookChoosing(s, position, dir);
    } else {
      hide PendingSet, Credit, Eligible;
      assert s.ds[..0] == [];
    }
  }

  // The daemon is about to choose: before its LOCK, or at the start of a scan.
  ghost predicate Fresh(s: Disk) {
    s.phase == Top || s.phase == Scan(false, 0, MIN_START, -1)
  }

  // In a run without arrivals from where the daemon is about to choose, to where everything is
  // served, it serves the requests as the elevator does: each pending one exactly once.
  lemma DaemonDrains(es: seq<Event>, fs: seq<Event>)
    requires Legal(Initial(), es) && Fresh(Reached(Initial(), es))
    requires Quiet(fs) && Legal(Reached(Initial(), es), fs) && AllServed(Reached(Reached(Initial(), es), fs).ds)
    ensures var s, nums := Reached(Initial(), es), Finished(Reached(Initial(), es), fs);
            && Drains(s.ds, Here(s), s.dir, nums)
            && NoDup(nums) && forall i | 0 <= i < |s.ds| :: i in nums <==> Pending(s.ds[i])
  {
    var s := Reached(Initial(), es);
    InitialInv();
    RunInv(Initial(), es);
    assert s.ds[..0] == [];
    hide Inv, Legal, Drains;
    QuietDrains(s, fs, Here(s), s.dir);
    ServedOnce(s.ds, Here(s), s.dir, Finished(s, fs));
  }

  lemma RunDirection(es: seq<Event>)
    requires Legal(Initial(), es)
    ensures Reached(Initial(), es).dir == 0 || Reached(Initial(), es).dir == 1
  {
    InitialInv();
    RunInv(Initial(), es);
  }

  // It does so in one sweep in its direction and at most one back, over at most twice the
  // distance between the outermost positions.
  lemma DaemonSweeps(es: seq<Event>, fs: seq<Event>, lo: int, hi: int) returns (k: nat)
    requires Legal(Initial(), es) && Fresh(Reached(Initial(), es))
    requires Quiet(fs) && Legal(Reached(Initial(), es), fs) && AllServed(Reached(Reached(Initial(), es), fs).ds)
    requires Within(Reached(Initial(), es).ds, Here(Reached(Initial(), es)), lo, hi)
    ensures var s, nums := Reached(Initial(), es), Finished(Reached(Initial(), es), fs);
            && Indices(s.ds, nums) && k <= |nums| && Indices(s.ds, nums[..k]) && Indices(s.ds, nums[k..])
            && Monotone(s.ds, Here(s), s.dir, nums[..k])
            && Monotone(s.ds, if k == 0 then Here(s) else Place(s.ds[nums[k - 1]]), 1 - s.dir, nums[k..])
            && Travel(s.ds, Here(s), nums) <= 2 * (hi - lo)
  {
    hide Inv, Legal, Drains, Reached, Within, Monotone, Travel, Indices, Finished, Quiet, AllServed, Fresh, Initial;
    var s := Reached(Initial(), es);
    RunDirection(es);
    DaemonDrains(es, fs);
    k := TwoSweeps(s.ds, Here(s), s.dir, Finished(s, fs), lo, hi);
  }

  // ---------- the daemon gets through ----------

  function Rank(p: Phase): nat {
    match p
    case Top => 4
    case Scan(second, _, _, _) => if second then 2 else 3
    case Serve(_) => 1
    case _ => 0
  }

  function ToScan(p: Phase, n: nat): nat {
    if p.Scan? && p.i <= n then n - p.i else 0
  }

  // The step that the daemon takes next.
  function Turn(p: Phase): Event {
    if p.Scan? then Look else if p.Serve? then Finish else Lock
  }

  // Fewer requests are pending, or the daemon is closer to serving one.
  ghost predicate Nearer(s: Disk, r: Disk) {
    |PendingSet(r.ds)| < |PendingSet(s.ds)|
    || (r.ds == s.ds && Rank(r.phase) < Rank(s.phase))
    || (r.ds == s.ds && Rank(r.phase) == Rank(s.phase) && ToScan(r.phase, |s.ds|) < ToScan(s.phase, |s.ds|))
  }

  lemma Onward(s: Disk)
    requires Inv(s) && InWindow(s) && !AllServed(s.ds)
    ensures Enabled(s, Turn(s.phase)) && Inv(Next(s, Turn(s.phase))) && InWindow(Next(s, Turn(s.phase)))
    ensures |Next(s, Turn(s.phase)).ds| == |s.ds| && Nearer(s, Next(s, Turn(s.phase)))
  {
    Busy(s);
    hide Inv, InWindow, AllServed, Nearer;
    StepInv(s, Turn(s.phase));
    StepWindow(s, Turn(s.phase));
    NotLost(Next(s, Turn(s.phase)));
    NextNearer(s);
  }

  lemma NextNearer(s: Disk)
    requires s.phase != Waiting && s.phase != Lost && Enabled(s, Turn(s.phase))
    requires s.phase == Top ==> s.sem_disk.val > 0
    requires s.phase.Serve? ==> s.ds[s.phase.num].sem.val == -1
    requires Next(s, Turn(s.phase)).phase != Lost
    ensures |Next(s, Turn(s.phase)).ds| == |s.ds| && Nearer(s, Next(s, Turn(s.phase)))
  {
    if s.phase.Serve? {
      var num := s.phase.num;
      assert PendingSet(Next(s, Finish).ds) == PendingSet(s.ds) - {num} && num in PendingSet(s.ds);
    }
    hide PendingSet;
  }

  lemma NotLost(s: Disk)
    requires Inv(s) && InWindow(s)
    ensures s.phase != Lost
  {
    if j :| j in s.begun {
      assert s.phase == Lost ==> j in PendingSet(s.ds);
    }
  }

  // With a request pending the daemon does not wait, and has a unit if it is before its LOCK.
  lemma Busy(s: Disk)
    requires Inv(s) && InWindow(s) && !AllServed(s.ds)
    ensures Enabled(s, Turn(s.phase)) && s.phase != Waiting && s.phase != Lost
    ensures (s.phase == Top ==> s.sem_disk.val > 0) && (s.phase.Serve? ==> s.ds[s.phase.num].sem.val == -1)
  {
    NotLost(s);
    var i :| 0 <= i < |s.ds| && Pending(s.ds[i]);
    assert i in PendingSet(s.ds);
    assert |PendingSet(s.ds)| > 0;
  }

  lemma {:induction false} GetsThrough(s: Disk) returns (es: seq<Event>)
    requires Inv(s) && InWindow(s)
    ensures Quiet(es) && Legal(s, es) && AllServed(Reached(s, es).ds)
    decreases |PendingSet(s.ds)|, Rank(s.phase), ToScan(s.phase, |s.ds|)
  {
    if AllServed(s.ds) {
      es := [];
      assert Legal(s, []);
    } else {
      Onward(s);
      hide Inv, InWindow, Next, Enabled, PendingSet, ToScan, Rank, AllServed;
      var fs := GetsThrough(Next(s, Turn(s.phase)));
      Cons(s, Turn(s.phase), fs);
      es := [Turn(s.phase)] + fs;
    }
  }

  // With requests in the window only, whatever is pending the daemon left alone serves it all.
  lemma DaemonGetsThrough(es: seq<Event>) returns (fs: seq<Event>)
    requires Legal(Initial(), es) && WindowRun(Initial(), es)
    ensures Quiet(fs) && Legal(Reached(Initial(), es), fs) && AllServed(Reached(Reached(Initial(), es), fs).ds)
  {
    InitialInv();
    RunWindow(Initial(), es);
    fs := GetsThrough(Reached(Initial(), es));
  }
}
