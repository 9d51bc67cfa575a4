// Where the value of each private page is, at every stage of a fault and of an eviction.
module PageState {
  import opened Base
  import opened Paging

  // How far a process is. A terminal wants a page, has chosen a frame for it, has found that
  // it must be read in, waits for the floppy or uses it, has filled the frame, and maps it.
  // The daemon is about to evict a frame, waits for the floppy or uses it, or has written.
  datatype Stage =
    | Idle
    | Dying
    | Wanting(x: int)
    | Chosen(x: int, pf: int)
    | Tested(x: int, pf: int)
    | Reading(x: int, pf: int, slot: int)
    | Active(x: int, pf: int, slot: int)
    | Filled(x: int, pf: int, slot: int)
    | Mapping(x: int, pf: int)
    | Clearing(pf: int)
    | Evict0(pf: int, slot: int)
    | EvictQ(pf: int, slot: int)
    | EvictA(pf: int, slot: int)
    | Evicted(pf: int)
    | Stopped

  // What matters of the system here; q is the queue of sem_floppy.
  datatype View = View(
    st: seq<Stage>, q: seq<int>,
    pfs: seq<Frame>, pt: seq<Entry>, disk: seq<int>,
    mem: seq<int>, store: seq<int>,
    flat: seq<Value>, slot: seq<int>)

  function Owner(x: int): int {
    x / PAGES
  }

  // The stage has a frame for a page.
  ghost predicate Carrying(z: Stage) {
    z.Chosen? || z.Tested? || z.Reading? || z.Active? || z.Filled? || z.Mapping?
  }

  ghost predicate Carries(z: Stage, x: int) {
    Carrying(z) && z.x == x
  }

  // The stage has started to use the floppy for x, or to map it.
  ghost predicate Past(z: Stage, x: int) {
    (z.Active? || z.Filled? || z.Mapping?) && z.x == x
  }

  ghost predicate Terminal(z: Stage) {
    z.Idle? || z.Dying? || z.Wanting? || z.Chosen? || z.Tested? || z.Reading? || z.Active? || z.Filled? || z.Mapping?
  }

  ghost predicate Pending(z: Stage) {
    z.Evict0? || z.EvictQ? || z.EvictA?
  }

  ghost predicate Evicts(z: Stage) {
    Pending(z) || z.Evicted?
  }

  // The frame that is being evicted is f.
  ghost predicate EvictsFrame(z: Stage, f: int) {
    Evicts(z) && z.pf == f
  }

  ghost predicate Shape(v: View) {
    && |v.pfs| == MAXFRAMES && |v.mem| == MAXFRAMES && |v.st| == TER + 1
    && |v.pt| == (TER + 1) * PAGES && |v.flat| == |v.pt| && |v.slot| == |v.pt|
    && |v.disk| == SLOTS && |v.store| == SLOTS
    && (forall t | 0 <= t < TER :: Terminal(v.st[t]))
    && (v.st[DAEMON] == Idle || !Terminal(v.st[DAEMON]))
  }

  // Frame f is in use for page x.
  ghost predicate Holds(v: View, f: int, x: int) {
    0 <= f < |v.pfs| && v.pfs[f].pid != -1 && PageOf(v.pfs[f]) == x
  }

  ghost predicate Has(v: View, f: int, x: int)
    requires Shape(v) && 0 <= x < |v.pt|
  {
    v.flat[x].Some? ==> 0 <= f < |v.mem| && v.mem[f] == v.flat[x].v
  }

  // The value of an absent page is in the frame being written out, if its own is, else on disk.
  ghost predicate Saved(v: View, x: int)
    requires Shape(v) && 0 <= x < |v.pt|
  {
    var d := v.st[DAEMON];
    if Pending(d) && d.slot == v.pt[x].frame then Has(v, d.pf, x)
    else v.flat[x].Some? ==> 0 <= v.pt[x].frame < |v.store| && v.store[v.pt[x].frame] == v.flat[x].v
  }

  // A present page is in its frame. An absent one is on its way into one, or has never been
  // anywhere, or has a disk position.
  ghost predicate PageOk(v: View, x: int)
    requires Shape(v) && 0 <= x < |v.pt|
  {
    if Owner(x) >= TER then !v.pt[x].p && v.slot[x] == -1 else
      var z, e := v.st[Owner(x)], v.pt[x];
      z == Dying
      || (if e.p then Holds(v, e.frame, x) && Has(v, e.frame, x)
          else if e.r then (z.Mapping? && z.x == x) || (v.slot[x] == -1 && v.flat[x] == None)
          else e.frame == v.slot[x] != -1 && !(z.Mapping? && z.x == x) && Saved(v, x))
  }

  // What a terminal at its stage can rely on.
  ghost predicate ChainOk(v: View, t: int)
    requires Shape(v) && 0 <= t < TER
  {
    var z := v.st[t];
    (z.Idle? || z.Dying?)
    || (&& Mine(t, z.x) && 0 <= z.x < |v.pt| && !v.pt[z.x].p
        && (z.Wanting?
            || (&& Holds(v, z.pf, z.x) && !EvictsFrame(v.st[DAEMON], z.pf)
                && match z
                   case Chosen(x, pf) => SlotOf(v.pfs[pf]) == -1
                   case Tested(x, pf) => !v.pt[x].r
                   case Reading(x, pf, slot) => !v.pt[x].r && slot == v.pt[x].frame
                   case Active(x, pf, slot) => !v.pt[x].r && slot == v.pt[x].frame
                   case Filled(x, pf, slot) => !v.pt[x].r && slot == v.pt[x].frame && Has(v, pf, x)
                   case Mapping(x, pf) => v.pt[x].r && SlotOf(v.pfs[pf]) == v.slot[x] && Has(v, pf, x)
                   case _ => true)))
  }

  // A frame in use is for a private page, and unless it is being evicted that page is in it
  // or on its way there.
  ghost predicate FrameOk(v: View, f: int)
    requires Shape(v) && 0 <= f < |v.pfs|
  {
    var g := v.pfs[f];
    g.pid == -1
    || (&& 0 <= g.pid < TER && g.seg == 1 && 0 <= g.page < PAGES
        && (EvictsFrame(v.st[DAEMON], f)
            || (var x := PageOf(g);
                if v.pt[x].p then v.pt[x].frame == f && SlotOf(g) == v.slot[x]
                else Carries(v.st[g.pid], x) && v.st[g.pid].pf == f)))
  }

  // Process t, if it is in the queue with the daemon, is behind it.
  ghost predicate Behind(q: seq<int>, t: int) {
    forall j, k | 0 <= j < |q| && 0 <= k < |q| && q[j] == t && q[k] == DAEMON :: k < j
  }

  ghost predicate DaemonOk(v: View)
    requires Shape(v)
  {
    var d := v.st[DAEMON];
    match d
    case Clearing(pf) =>
      0 <= pf < |v.pfs| && v.pfs[pf].pid != -1 && FrameOk(v, pf)
      && var x := PageOf(v.pfs[pf]); v.pt[x].p && !v.pt[x].r
    case Evict0(pf, slot) =>
      Stray(v, pf, slot) || (Doomed(v, pf, slot) && !Carries(v.st[v.pfs[pf].pid], PageOf(v.pfs[pf])))
    case EvictQ(pf, slot) =>
      Stray(v, pf, slot)
      || (Doomed(v, pf, slot) && (Carries(v.st[v.pfs[pf].pid], PageOf(v.pfs[pf])) ==> Behind(v.q, v.pfs[pf].pid)))
    case EvictA(pf, slot) => Stray(v, pf, slot) || Doomed(v, pf, slot)
    case Evicted(pf) =>
      0 <= pf < |v.pfs| && v.pfs[pf].pid != -1 && FrameOk(v, pf)
      && var x := PageOf(v.pfs[pf]); v.pt[x].p ==> v.pt[x].frame != pf
    case _ => true
  }

  // Frame f has still to be written to the slot of its page, which is absent, and whose owner
  // has not passed the floppy.
  ghost predicate Doomed(v: View, f: int, slot: int)
    requires Shape(v)
  {
    && 0 <= f < |v.pfs| && v.pfs[f].pid != -1 && FrameOk(v, f)
    && var x := PageOf(v.pfs[f]);
       && v.slot[x] == slot && 0 <= slot < SLOTS
       && (v.pt[x].p ==> v.pt[x].frame != f)
       && (v.st[v.pfs[f].pid] == Dying
           || (!v.pt[x].p && !v.pt[x].r && v.pt[x].frame == slot && !Past(v.st[v.pfs[f].pid], x)))
  }

  // Frame f has still to be written to a position that is no page's and that none will get.
  ghost predicate Stray(v: View, f: int, slot: int)
    requires Shape(v)
  {
    && 0 <= f < |v.pfs| && v.pfs[f].pid != -1 && FrameOk(v, f)
    && 0 <= slot < SLOTS && slot !in v.slot && v.disk[slot] != -1
    && var x := PageOf(v.pfs[f]); v.pt[x].p ==> v.pt[x].frame != f
  }

  // Every page has its own disk position, if it has one, and that is taken.
  ghost predicate SlotsOk(slot: seq<int>, disk: seq<int>) {
    && (forall x | 0 <= x < |slot| :: slot[x] == -1 || (0 <= slot[x] < |disk| && disk[slot[x]] != -1))
    && forall x, y | 0 <= x < |slot| && 0 <= y < |slot| && slot[x] == slot[y] != -1 :: x == y
  }

  ghost predicate Pages(v: View)
    requires Shape(v)
  {
    forall x | 0 <= x < |v.pt| :: PageOk(v, x)
  }

  ghost predicate Chains(v: View)
    requires Shape(v)
  {
    forall t | 0 <= t < TER :: ChainOk(v, t)
  }

  ghost predicate Frames(v: View)
    requires Shape(v)
  {
    forall f | 0 <= f < |v.pfs| :: FrameOk(v, f)
  }

  ghost predicate Sound(v: View) {
    Shape(v) && Pages(v) && Chains(v) && Frames(v) && DaemonOk(v) && SlotsOk(v.slot, v.disk)
  }

  // ---------- steps of a terminal ----------

  // A page that its terminal may see.
  ghost predicate Sees(v: View, t: int, x: int)
    requires Shape(v)
  {
    0 <= t < TER && Mine(t, x) && 0 <= x < |v.pt|
  }

  ghost function Touched(v: View, x: int): View
    requires 0 <= x < |v.pt|
  {
    v.(pt := v.pt[x := v.pt[x].(r := true)])
  }

  lemma TouchSound(v: View, t: int, x: int)
    requires Sound(v) && Sees(v, t, x) && v.pt[x].p
    requires !(v.st[DAEMON].Clearing? && PageOf(v.pfs[v.st[DAEMON].pf]) == x)
    ensures Sound(Touched(v, x))
  {
    var r := Touched(v, x);
    forall y | 0 <= y < |r.pt| ensures PageOk(r, y) { assert PageOk(v, y); }
    forall u | 0 <= u < TER ensures ChainOk(r, u) { assert ChainOk(v, u); }
    forall f | 0 <= f < |r.pfs| ensures FrameOk(r, f) { assert FrameOk(v, f); }
  }

  lemma StoreSound(v: View, t: int, x: int, val: int)
    requires Sound(v) && Sees(v, t, x) && v.pt[x].p && v.st[t] == Idle
    ensures 0 <= v.pt[x].frame < |v.mem|
    ensures Sound(v.(flat := v.flat[x := Some(val)], mem := v.mem[v.pt[x].frame := val]))
  {
    assert PageOk(v, x);
    var r := v.(flat := v.flat[x := Some(val)], mem := v.mem[v.pt[x].frame := val]);
    forall y | 0 <= y < |r.pt| ensures PageOk(r, y) { assert PageOk(v, y); }
    forall u | 0 <= u < TER ensures ChainOk(r, u) { assert ChainOk(v, u); }
    forall f | 0 <= f < |r.pfs| ensures FrameOk(r, f) { assert FrameOk(v, f); }
  }

  ghost function Set(v: View, p: int, z: Stage): View
    requires 0 <= p < |v.st|
  {
    v.(st := v.st[p := z])
  }

  // The terminal faults, or terminates.
  lemma StartSound(v: View, t: int, z: Stage)
    requires Sound(v) && 0 <= t < TER && v.st[t] == Idle
    requires z == Dying || (z.Wanting? && Sees(v, t, z.x) && !v.pt[z.x].p)
    ensures Sound(Set(v, t, z))
  {
    var r := Set(v, t, z);
    forall y | 0 <= y < |r.pt| ensures PageOk(r, y) { assert PageOk(v, y); }
    forall u | 0 <= u < TER ensures ChainOk(r, u) { assert ChainOk(v, u); }
    forall f | 0 <= f < |r.pfs| ensures FrameOk(r, f) { assert FrameOk(v, f); }
  }

  lemma PickSound(v: View, t: int, f: int, g: Frame)
    requires Sound(v) && 0 <= t < TER && v.st[t].Wanting? && 0 <= f < |v.pfs| && v.pfs[f].pid == -1
    requires !v.st[DAEMON].Clearing? && !v.st[DAEMON].Evict0? && Behind(v.q, t)
    requires g == Frame(t, 1, v.st[t].x % PAGES, -1, -1)
    ensures Sound(Set(v, t, Chosen(v.st[t].x, f)).(pfs := v.pfs[f := g]))
  {
    hide SlotsOk;
    var x := v.st[t].x;
    var r := Set(v, t, Chosen(x, f)).(pfs := v.pfs[f := g]);
    assert ChainOk(v, t) && PageOf(g) == x;
    forall y | 0 <= y < |r.pt| ensures PageOk(r, y) { assert PageOk(v, y); }
    forall u | 0 <= u < TER ensures ChainOk(r, u) { assert ChainOk(v, u); }
    forall h | 0 <= h < |r.pfs| ensures FrameOk(r, h) { assert FrameOk(v, h); }
  }

  // The terminal moves on with its frame: it finds that the page must be read in, or was
  // never written out, or takes its place for the floppy.
  lemma MoveSound(v: View, t: int, z: Stage)
    requires Sound(v) && 0 <= t < TER && Carrying(v.st[t]) && Carries(z, v.st[t].x) && z.pf == v.st[t].pf
    requires match z
             case Tested(x, _) => v.st[t].Chosen? && 0 <= x < |v.pt| && !v.pt[x].r
             case Mapping(x, _) => v.st[t].Chosen? && 0 <= x < |v.pt| && v.pt[x].r
             case Reading(x, _, slot) => v.st[t].Tested? && 0 <= x < |v.pt| && slot == v.pt[x].frame
             case Active(x, _, slot) => v.st[t].Reading? && slot == v.st[t].slot && !v.st[DAEMON].EvictA?
                                        && (v.st[DAEMON].EvictQ? ==> !Behind(v.q, t))
             case _ => false
    ensures Sound(Set(v, t, z))
  {
    hide SlotsOk;
    var r := Set(v, t, z);
    assert ChainOk(v, t);
    assert PageOk(v, z.x);
    forall y | 0 <= y < |r.pt| ensures PageOk(r, y) { assert PageOk(v, y); }
    forall u | 0 <= u < TER ensures ChainOk(r, u) { assert ChainOk(v, u); }
    forall f | 0 <= f < |r.pfs| ensures FrameOk(r, f) { assert FrameOk(v, f); }
  }

  // A page that is read in has its position, and the daemon does not still have to write it.
  lemma SlotFact(v: View, t: int)
    requires Sound(v) && 0 <= t < TER && (v.st[t].Reading? || v.st[t].Active? || v.st[t].Filled?)
    ensures var z := v.st[t];
            && 0 <= z.x < |v.pt| && 0 <= z.pf < |v.mem| && z.slot == v.pt[z.x].frame == v.slot[z.x]
            && 0 <= z.slot < SLOTS
            && (Past(z, z.x) ==> !(Pending(v.st[DAEMON]) && v.st[DAEMON].slot == z.slot))
  {
    assert ChainOk(v, t) && PageOk(v, v.st[t].x);
  }

  // No other page has the position of page x.
  lemma SlotApart(v: View, x: int, y: int)
    requires SlotsOk(v.slot, v.disk) && 0 <= x < |v.slot| && 0 <= y < |v.slot| && x != y && v.slot[x] != -1
    ensures v.slot[y] != v.slot[x]
  {
  }

  // The transfer from disk into the frame.
  lemma ReadSound(v: View, t: int)
    requires Sound(v) && 0 <= t < TER && v.st[t].Active?
    ensures var z := v.st[t];
            && 0 <= z.pf < |v.mem| && 0 <= z.slot < |v.store|
            && Sound(Set(v, t, Filled(z.x, z.pf, z.slot)).(mem := v.mem[z.pf := v.store[z.slot]]))
  {
    hide SlotsOk;
    SlotFact(v, t);
    var z := v.st[t];
    assert ChainOk(v, t) && PageOk(v, z.x);
    var r := Set(v, t, Filled(z.x, z.pf, z.slot)).(mem := v.mem[z.pf := v.store[z.slot]]);
    forall y | 0 <= y < |r.pt| ensures PageOk(r, y) { assert PageOk(v, y); }
    forall u | 0 <= u < TER ensures ChainOk(r, u) { assert ChainOk(v, u); }
    forall f | 0 <= f < |r.pfs| ensures FrameOk(r, f) { assert FrameOk(v, f); }
  }

  // pagein records where the page came from, and marks it as read in.
  lemma LoadSound(v: View, t: int)
    requires Sound(v) && 0 <= t < TER && v.st[t].Filled?
    ensures var z := v.st[t];
            && 0 <= z.pf < |v.pfs| && 0 <= z.x < |v.pt|
            && Sound(Set(v, t, Mapping(z.x, z.pf)).(
                       pfs := v.pfs[z.pf := v.pfs[z.pf].(track := z.slot / SECTORS, sector := z.slot % SECTORS)],
                       pt := v.pt[z.x := v.pt[z.x].(r := true)]))
  {
    hide SlotsOk;
    SlotFact(v, t);
    var z := v.st[t];
    assert ChainOk(v, t) && PageOk(v, z.x);
    PositionDecodes(z.slot);
    var r := Set(v, t, Mapping(z.x, z.pf)).(
      pfs := v.pfs[z.pf := v.pfs[z.pf].(track := z.slot / SECTORS, sector := z.slot % SECTORS)],
      pt := v.pt[z.x := v.pt[z.x].(r := true)]);
    forall y | 0 <= y < |r.pt| ensures PageOk(r, y) { assert PageOk(v, y); }
    forall u | 0 <= u < TER ensures ChainOk(r, u) { assert ChainOk(v, u); }
    forall f | 0 <= f < |r.pfs| ensures FrameOk(r, f) { assert FrameOk(v, f); }
  }

  lemma MapSound(v: View, t: int)
    requires Sound(v) && 0 <= t < TER && v.st[t].Mapping?
    ensures var z := v.st[t];
            && 0 <= z.x < |v.pt|
            && Sound(Set(v, t, Idle).(pt := v.pt[z.x := v.pt[z.x].(frame := z.pf, p := true)]))
  {
    hide SlotsOk, Behind;
    var z := v.st[t];
    assert ChainOk(v, t) && PageOk(v, z.x);
    var r := Set(v, t, Idle).(pt := v.pt[z.x := v.pt[z.x].(frame := z.pf, p := true)]);
    forall y | 0 <= y < |r.pt| ensures PageOk(r, y) { assert PageOk(v, y); }
    forall u | 0 <= u < TER ensures ChainOk(r, u) { assert ChainOk(v, u); }
    forall f | 0 <= f < |r.pfs| ensures FrameOk(r, f) { assert FrameOk(v, f); }
  }

  lemma ReleaseSound(v: View, t: int, f: int)
    requires Sound(v) && 0 <= t < TER && v.st[t] == Dying && 0 <= f < |v.pfs| && v.pfs[f].pid == t
    requires !v.st[DAEMON].Clearing? && !EvictsFrame(v.st[DAEMON], f)
    ensures Sound(v.(pfs := v.pfs[f := v.pfs[f].(pid := -1)]))
  {
    var r := v.(pfs := v.pfs[f := v.pfs[f].(pid := -1)]);
    assert FrameOk(v, f);
    forall y | 0 <= y < |r.pt| ensures PageOk(r, y) { assert PageOk(v, y); }
    forall u | 0 <= u < TER ensures ChainOk(r, u) { assert ChainOk(v, u); }
    forall g | 0 <= g < |r.pfs| ensures FrameOk(r, g) { assert FrameOk(v, g); }
  }

  // ---------- steps of the daemon ----------

  // The daemon finds frame f in use and its page present: a second chance, or an eviction.
  lemma ScanSound(v: View, f: int)
    requires Sound(v) && v.st[DAEMON] == Idle && 0 <= f < |v.pfs| && v.pfs[f].pid != -1
    ensures 0 <= PageOf(v.pfs[f]) < |v.pt|
    ensures var x := PageOf(v.pfs[f]); v.pt[x].p ==>
              if v.pt[x].r then Sound(v.(pt := v.pt[x := v.pt[x].(r := false)])) else Sound(Set(v, DAEMON, Clearing(f)))
  {
    assert FrameOk(v, f);
    var x := PageOf(v.pfs[f]);
    if v.pt[x].p {
      var r := if v.pt[x].r then v.(pt := v.pt[x := v.pt[x].(r := false)]) else Set(v, DAEMON, Clearing(f));
      forall y | 0 <= y < |r.pt| ensures PageOk(r, y) { assert PageOk(v, y); }
      forall u | 0 <= u < TER ensures ChainOk(r, u) { assert ChainOk(v, u); }
      forall g | 0 <= g < |r.pfs| ensures FrameOk(r, g) { assert FrameOk(v, g); }
    }
  }

  // The eviction to the page's own position, or to a free one if it has none.
  lemma ClearSound(v: View, slot: int, slots: seq<int>, disk: seq<int>)
    requires Sound(v) && v.st[DAEMON].Clearing?
    requires 0 <= PageOf(v.pfs[v.st[DAEMON].pf]) < |v.pt| && 0 <= slot < SLOTS
    requires var x := PageOf(v.pfs[v.st[DAEMON].pf]);
             if v.slot[x] != -1 then slot == v.slot[x] && slots == v.slot && disk == v.disk
             else v.disk[slot] == -1 && slots == v.slot[x := slot] && disk == v.disk[slot := 1]
    ensures var f := v.st[DAEMON].pf; var x := PageOf(v.pfs[f]);
            Sound(Set(v, DAEMON, Evict0(f, slot)).(
                    pt := v.pt[x := v.pt[x].(p := false, frame := slot)], slot := slots, disk := disk))
  {
    hide SlotsOk;
    var f := v.st[DAEMON].pf;
    var x := PageOf(v.pfs[f]);
    var r := Set(v, DAEMON, Evict0(f, slot)).(
      pt := v.pt[x := v.pt[x].(p := false, frame := slot)], slot := slots, disk := disk);
    TakeSlot(v.slot, v.disk, x, slot);
    assert PageOk(v, x) && FrameOk(v, f) && ChainOk(v, v.pfs[f].pid);
    forall y | 0 <= y < |r.pt| ensures PageOk(r, y) {
      assert PageOk(v, y);
      if y != x { SlotApart(r, x, y); }
    }
    forall u | 0 <= u < TER ensures ChainOk(r, u) { assert ChainOk(v, u); }
    forall g | 0 <= g < |r.pfs| ensures FrameOk(r, g) { assert FrameOk(v, g); }
  }

  lemma TakeSlot(slots: seq<int>, disk: seq<int>, x: int, k: int)
    requires SlotsOk(slots, disk) && 0 <= x < |slots| && 0 <= k < |disk|
    ensures slots[x] == -1 && disk[k] == -1 ==> SlotsOk(slots[x := k], disk[k := 1])
  {
  }

  // The daemon takes its place for the floppy, or gets it.
  lemma AdvanceSound(v: View, z: Stage, q: seq<int>)
    requires Sound(v) && Pending(v.st[DAEMON]) && Pending(z) && z.pf == v.st[DAEMON].pf && z.slot == v.st[DAEMON].slot
    requires (v.st[DAEMON].Evict0? && (z.EvictQ? || z.EvictA?)) || (v.st[DAEMON].EvictQ? && z.EvictA?)
    ensures Sound(Set(v, DAEMON, z).(q := q))
  {
    var r := Set(v, DAEMON, z).(q := q);
    forall y | 0 <= y < |r.pt| ensures PageOk(r, y) { assert PageOk(v, y); }
    forall u | 0 <= u < TER ensures ChainOk(r, u) { assert ChainOk(v, u); }
    forall g | 0 <= g < |r.pfs| ensures FrameOk(r, g) { assert FrameOk(v, g); }
  }

  // Another process joins or leaves the queue of the floppy.
  lemma QueueSound(v: View, q: seq<int>)
    requires Sound(v) && forall t | 0 <= t < TER && Behind(v.q, t) :: Behind(q, t)
    ensures Sound(v.(q := q))
  {
    var r := v.(q := q);
    forall y | 0 <= y < |r.pt| ensures PageOk(r, y) { assert PageOk(v, y); }
    forall u | 0 <= u < TER ensures ChainOk(r, u) { assert ChainOk(v, u); }
    forall g | 0 <= g < |r.pfs| ensures FrameOk(r, g) { assert FrameOk(v, g); }
  }

  // The transfer from the frame to disk.
  lemma WriteSound(v: View)
    requires Sound(v) && v.st[DAEMON].EvictA?
    ensures var d := v.st[DAEMON];
            && 0 <= d.pf < |v.mem| && 0 <= d.slot < |v.store|
            && Sound(Set(v, DAEMON, Evicted(d.pf)).(store := v.store[d.slot := v.mem[d.pf]]))
  {
    hide SlotsOk;
    var d := v.st[DAEMON];
    var x := PageOf(v.pfs[d.pf]);
    var r := Set(v, DAEMON, Evicted(d.pf)).(store := v.store[d.slot := v.mem[d.pf]]);
    assert PageOk(v, x);
    forall y | 0 <= y < |r.pt| ensures PageOk(r, y) {
      assert PageOk(v, y);
      assert v.slot[y] in v.slot;
      if y != x && v.slot[x] == d.slot { SlotApart(v, x, y); }
    }
    forall u | 0 <= u < TER ensures ChainOk(r, u) { assert ChainOk(v, u); }
    forall g | 0 <= g < |r.pfs| ensures FrameOk(r, g) { assert FrameOk(v, g); }
  }

  // The frame is free again.
  lemma FreeSound(v: View)
    requires Sound(v) && v.st[DAEMON].Evicted?
    ensures var f := v.st[DAEMON].pf;
            && 0 <= f < |v.pfs|
            && Sound(Set(v, DAEMON, Idle).(pfs := v.pfs[f := v.pfs[f].(pid := -1)]))
  {
    var f := v.st[DAEMON].pf;
    var r := Set(v, DAEMON, Idle).(pfs := v.pfs[f := v.pfs[f].(pid := -1)]);
    forall y | 0 <= y < |r.pt| ensures PageOk(r, y) { assert PageOk(v, y); }
    forall u | 0 <= u < TER ensures ChainOk(r, u) { assert ChainOk(v, u); }
    forall g | 0 <= g < |r.pfs| ensures FrameOk(r, g) { assert FrameOk(v, g); }
  }

  // The daemon finds no free position.
  lemma StopSound(v: View)
    requires Sound(v) && v.st[DAEMON].Clearing?
    ensures Sound(Set(v, DAEMON, Stopped))
  {
    hide SlotsOk;
    var r := Set(v, DAEMON, Stopped);
    forall y | 0 <= y < |r.pt| ensures PageOk(r, y) { assert PageOk(v, y); }
    forall u | 0 <= u < TER ensures ChainOk(r, u) { assert ChainOk(v, u); }
    forall g | 0 <= g < |r.pfs| ensures FrameOk(r, g) { assert FrameOk(v, g); }
  }

  // ---------- pages with a lost history ----------

  // Page x is referenced, its frame perhaps written, after the daemon has chosen it, and then
  // made absent. Had it never been anywhere, nothing would be wrong: what it lacks is its
  // value and its position.
  lemma RaceSound(v: View, val: int, slot: int, disk: seq<int>)
    requires Sound(v) && v.st[DAEMON].Clearing?
    requires 0 <= PageOf(v.pfs[v.st[DAEMON].pf]) < |v.pt| && 0 <= slot < SLOTS
    requires var x := PageOf(v.pfs[v.st[DAEMON].pf]);
             if v.slot[x] != -1 then slot == v.slot[x] && disk == v.disk
             else v.disk[slot] == -1 && disk == v.disk[slot := 1]
    ensures var f := v.st[DAEMON].pf; var x := PageOf(v.pfs[f]);
            && 0 <= f < |v.mem|
            && Sound(Set(v, DAEMON, Evict0(f, slot)).(
                       pt := v.pt[x := Entry(false, true, slot)], mem := v.mem[f := val], disk := disk,
                       flat := v.flat[x := None], slot := v.slot[x := -1]))
  {
    var f := v.st[DAEMON].pf;
    var x := PageOf(v.pfs[f]);
    var r := Set(v, DAEMON, Evict0(f, slot)).(
      pt := v.pt[x := Entry(false, true, slot)], mem := v.mem[f := val], disk := disk,
      flat := v.flat[x := None], slot := v.slot[x := -1]);
    assert PageOk(v, x) && FrameOk(v, f) && ChainOk(v, v.pfs[f].pid);
    LoseSlot(v.slot, v.disk, disk, x, slot);
    hide SlotsOk;
    forall y | 0 <= y < |r.pt| ensures PageOk(r, y) { assert PageOk(v, y); }
    forall u | 0 <= u < TER ensures ChainOk(r, u) { assert ChainOk(v, u); }
    forall g | 0 <= g < |r.pfs| ensures FrameOk(r, g) { assert FrameOk(v, g); }
  }

  lemma LoseSlot(slots: seq<int>, disk: seq<int>, disk': seq<int>, x: int, k: int)
    requires SlotsOk(slots, disk) && 0 <= x < |slots| && 0 <= k < |disk|
    requires if slots[x] != -1 then k == slots[x] && disk' == disk else disk[k] == -1 && disk' == disk[k := 1]
    ensures SlotsOk(slots[x := -1], disk') && k !in slots[x := -1] && disk'[k] != -1
  {
  }

  // A page on its way into a frame without being read in can be taken to hold what is there.
  lemma AnchorSound(v: View, t: int)
    requires Sound(v) && 0 <= t < TER && v.st[t].Mapping?
    ensures var z := v.st[t];
            && 0 <= z.x < |v.pt| && 0 <= z.pf < |v.mem| && Sound(v.(flat := v.flat[z.x := Some(v.mem[z.pf])]))
  {
    hide SlotsOk;
    assert ChainOk(v, t);
    var z := v.st[t];
    var r := v.(flat := v.flat[z.x := Some(v.mem[z.pf])]);
    forall y | 0 <= y < |r.pt| ensures PageOk(r, y) { assert PageOk(v, y); }
    forall u | 0 <= u < TER ensures ChainOk(r, u) { assert ChainOk(v, u); }
    forall g | 0 <= g < |r.pfs| ensures FrameOk(r, g) { assert FrameOk(v, g); }
  }
}
