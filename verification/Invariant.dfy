// The run invariant of the nucleus and its preservation by every step.
module Invariant {
  import opened Base
  import opened Semaphore
  import opened ProcTree
  import opened Spec

  // No queue holds a process twice, and every value matches its queue.
  ghost predicate Queues(s: State) {
    && NoDup(s.free) && NoDup(s.run)
    && forall a | 0 <= a < |s.sem| :: Balanced(s.sem[a])
  }

  ghost predicate Blocked(s: State, p: int) {
    WaitsFor(s, p) != {}
  }

  // p is in exactly one of the three places.
  ghost predicate Placed(s: State, p: int) {
    && (p in s.free || p in s.run || Blocked(s, p))
    && (p in s.free ==> p !in s.run && !Blocked(s, p))
    && (p in s.run ==> !Blocked(s, p))
  }

  // At most one waiter and one unclaimed interrupt per device; the clock is only waited for.
  ghost predicate Devices(s: State)
    requires |s.sem| > CLOCK
  {
    (forall d | 0 <= d < NDEV :: -1 <= s.sem[d].val <= 1) && s.sem[CLOCK].val <= 0
  }

  // An ordered rooted forest over the live processes.
  ghost predicate Forest(s: State) {
    && Closed(s.tree)
    && forall p | p in s.free && IsPid(p) :: s.tree.kids[p] == [] && s.tree.par[p] == ENULL
  }

  ghost predicate Inv(s: State) {
    && Sized(s) && Queues(s) && Devices(s) && Forest(s)
    && forall p | IsPid(p) :: Placed(s, p)
  }

  // What the source relies on without checking it.
  ghost predicate Distinct(ops: seq<Vpop>) {
    forall i, j | 0 <= i < j < |ops| :: ops[i].sem != ops[j].sem
  }

  // User semaphores are not device semaphores.
  ghost predicate UserOps(s: State, ops: seq<Vpop>) {
    forall i | 0 <= i < |ops| :: CLOCK < ops[i].sem < |s.sem|
  }

  datatype Event =
    | ECreate(init: Regs)
    | ETerminate
    | ESemOp(ops: seq<Vpop>)
    | EWaitClock
    | EWaitIo(dev: int)
    | ETick
    | EDevInt(dev: int, r: Regs)

  // System calls come from the running process; a device has one waiter and one operation.
  ghost predicate Enabled(s: State, e: Event)
    requires Sized(s)
  {
    match e
    case ECreate(_) => s.run != []
    case ETerminate => s.run != []
    case ESemOp(ops) => s.run != [] && Distinct(ops) && UserOps(s, ops)
    case EWaitClock => s.run != []
    case EWaitIo(dev) => s.run != [] && 0 <= dev < NDEV && s.sem[dev].val != -1
    case ETick => true
    case EDevInt(dev, _) => 0 <= dev < NDEV && s.sem[dev].val != 1
  }

  ghost function Next(s: State, e: Event): State
    requires Inv(s) && Enabled(s, e)
  {
    match e
    case ECreate(init) => Create(s, init)
    case ETerminate => Terminate(s)
    case ESemOp(ops) => SemOp(s, ops)
    case EWaitClock => WaitClock(s)
    case EWaitIo(dev) => assert s.run[0] in s.run; WaitIo(s, dev)
    case ETick => Tick(s)
    case EDevInt(dev, r) => assert Balanced(s.sem[dev]); DevInt(s, dev, r)
  }

  // ---------- operations on one semaphore ----------

  // Inv, except that process p, if there is one, may run and wait at the same time.
  ghost predicate InvBut(s: State, p: int) {
    && Sized(s) && Queues(s) && Devices(s) && Forest(s)
    && (forall x | IsPid(x) && x != p :: Placed(s, x))
    && (p != ENULL ==> IsPid(p) && p !in s.free && p in s.run)
  }

  // Only the running queue and the semaphores differ.
  ghost predicate SameRest(s: State, r: State) {
    r == s.(run := r.run, sem := r.sem)
  }

  lemma WaitsForUpdate(s: State, a: int, u: Sem, p: int)
    requires 0 <= a < |s.sem|
    ensures WaitsFor(s.(sem := s.sem[a := u]), p) == if p in u.q then WaitsFor(s, p) + {a} else WaitsFor(s, p) - {a}
  {
  }

  lemma LockBut(s: State, a: int, p: int)
    requires InvBut(s, p) && p in s.run && CLOCK < a < |s.sem| && p !in s.sem[a].q
    ensures InvBut(Lock(s, a, p), p)
  {
    var r := Lock(s, a, p);
    assert Balanced(s.sem[a]);
    forall x | IsPid(x) && x != p ensures Placed(r, x) {
      WaitsForUpdate(s, a, P(s.sem[a], p), x);
      assert Placed(s, x);
      assert WaitsFor(r, x) == WaitsFor(s, x);
    }
    forall b, x | 0 <= b < |r.sem| && x in r.sem[b].q ensures IsPid(x) {
      assert x == p || x in s.sem[b].q;
    }
  }

  // The first waiter enters the running queue if this was the last semaphore it waited for.
  lemma UnlockRun(s: State, a: int, p: int)
    requires InvBut(s, p) && 0 <= a < |s.sem| && p !in s.sem[a].q
    ensures var q := s.sem[a].q;
            Unlock(s, a).run == if s.sem[a].val < 0 && WaitsFor(s, q[0]) == {a} then s.run + [q[0]] else s.run
  {
    assert Balanced(s.sem[a]);
    if s.sem[a].val < 0 {
      var y := s.sem[a].q[0];
      assert y in s.sem[a].q && IsPid(y) && a in WaitsFor(s, y);
      assert Placed(s, y);
      WaitsForUpdate(s, a, V(s.sem[a]), y);
      assert y !in V(s.sem[a]).q;
    }
  }

  lemma UnlockPlaced(s: State, a: int, x: int)
    requires 0 <= a < |s.sem| && Balanced(s.sem[a]) && Placed(s, x)
    requires var q := s.sem[a].q;
             Unlock(s, a).run == if s.sem[a].val < 0 && WaitsFor(s, q[0]) == {a} then s.run + [q[0]] else s.run
    ensures Placed(Unlock(s, a), x)
  {
    var r, q := Unlock(s, a), s.sem[a].q;
    WaitsForUpdate(s, a, V(s.sem[a]), x);
    assert WaitsFor(r, x) == WaitsFor(s.(sem := s.sem[a := V(s.sem[a])]), x);
    assert s.sem[a].val < 0 ==> q == [q[0]] + q[1..];
  }

  lemma UnlockBut(s: State, a: int, p: int)
    requires InvBut(s, p) && 0 <= a < |s.sem| && p !in s.sem[a].q
    requires a <= CLOCK ==> s.sem[a].val < 0
    ensures InvBut(Unlock(s, a), p)
  {
    hide Closed, Placed;
    var r, q := Unlock(s, a), s.sem[a].q;
    UnlockRun(s, a, p);
    UnlockQueues(s, a, p);
    forall x | IsPid(x) && x != p ensures Placed(r, x) { UnlockPlaced(s, a, x); }
  }

  lemma VBalanced(u: Sem)
    requires Balanced(u)
    ensures Balanced(V(u)) && forall x | x in V(u).q :: x in u.q
  {
    assert u.val < 0 ==> u.q == [u.q[0]] + u.q[1..];
  }

  // The first waiter does not run.
  lemma WaiterFacts(s: State, a: int, p: int)
    requires InvBut(s, p) && 0 <= a < |s.sem| && p !in s.sem[a].q && s.sem[a].val < 0
    ensures s.sem[a].q != [] && IsPid(s.sem[a].q[0]) && s.sem[a].q[0] !in s.run
  {
    hide Closed;
    assert Balanced(s.sem[a]);
    var y := s.sem[a].q[0];
    assert y in s.sem[a].q && a in WaitsFor(s, y) && Placed(s, y);
  }

  lemma UnlockQueues(s: State, a: int, p: int)
    requires InvBut(s, p) && 0 <= a < |s.sem| && p !in s.sem[a].q
    requires a <= CLOCK ==> s.sem[a].val < 0
    ensures Sized(Unlock(s, a)) && Queues(Unlock(s, a)) && Devices(Unlock(s, a)) && Balanced(s.sem[a])
  {
    hide Closed, Forest, Placed, WaitsFor, Balanced, WfTree;
    VBalanced(s.sem[a]);
    if s.sem[a].val < 0 { WaiterFacts(s, a, p); }
    var r := Unlock(s, a);
    forall b, x | 0 <= b < |r.sem| && x in r.sem[b].q ensures IsPid(x) {
      assert x in s.sem[b].q;
    }
  }

  // ---------- Sem_OP ----------

  ghost function Apply(u: Sem, op: int, p: int): Sem {
    if op == LOCK then P(u, p) else V(u)
  }

  lemma OpsLast(s: State, p: int, ops: seq<Vpop>)
    requires Addressed(s, ops) && ops != []
    ensures var n := |ops| - 1;
            var u := Ops(s, p, ops[..n]).sem;
            Ops(s, p, ops).sem == u[ops[n].sem := Apply(u[ops[n].sem], ops[n].op, p)]
  {
    hide P, V;
  }

  // A batch on distinct semaphores applies each operation to its own semaphore.
  lemma {:induction false} OpsSem(s: State, p: int, ops: seq<Vpop>)
    requires Addressed(s, ops) && Distinct(ops)
    ensures forall i | 0 <= i < |ops| :: Ops(s, p, ops).sem[ops[i].sem] == Apply(s.sem[ops[i].sem], ops[i].op, p)
    ensures forall a | 0 <= a < |s.sem| && (forall i | 0 <= i < |ops| :: ops[i].sem != a) ::
              Ops(s, p, ops).sem[a] == s.sem[a]
  {
    hide Apply, Lock, Unlock;
    if ops != [] {
      var n := |ops| - 1;
      OpsSem(s, p, ops[..n]);
      OpsLast(s, p, ops);
      forall i | 0 <= i < n
        ensures Ops(s, p, ops).sem[ops[i].sem] == Apply(s.sem[ops[i].sem], ops[i].op, p)
      {
        assert ops[..n][i] == ops[i];
      }
    }
  }

  lemma {:induction false} OpsBut(s: State, p: int, ops: seq<Vpop>)
    requires Inv(s) && s.run != [] && p == s.run[0] && Distinct(ops) && UserOps(s, ops)
    ensures InvBut(Ops(s, p, ops), p) && SameRest(s, Ops(s, p, ops)) && s.run <= Ops(s, p, ops).run
  {
    assert p in s.run && Placed(s, p);
    if ops != [] {
      var n := |ops| - 1;
      var s1, a := Ops(s, p, ops[..n]), ops[n].sem;
      OpsBut(s, p, ops[..n]);
      OpsSem(s, p, ops[..n]);
      assert s1.sem[a] == s.sem[a];
      assert a !in WaitsFor(s, p);
      if ops[n].op == LOCK {
        LockBut(s1, a, p);
      } else {
        UnlockBut(s1, a, p);
        UnlockRun(s1, a, p);
      }
    }
  }

  // The flag of the loop says whether some LOCK found no unit left.
  lemma BlocksMeans(s: State, p: int, ops: seq<Vpop>)
    requires Addressed(s, ops) && Distinct(ops)
    ensures Blocks(s, p, ops, |ops|) <==> exists i :: 0 <= i < |ops| && ops[i].op == LOCK && s.sem[ops[i].sem].val <= 0
  {
    forall i | 0 <= i < |ops|
      ensures BlocksAt(s, p, ops, i) <==> ops[i].op == LOCK && s.sem[ops[i].sem].val <= 0
    {
      OpsSem(s, p, ops[..i]);
      forall j | 0 <= j < i ensures ops[..i][j].sem != ops[i].sem {}
    }
  }

  // ---------- every step keeps the invariant ----------

  lemma SemOpInv(s: State, ops: seq<Vpop>)
    requires Inv(s) && s.run != [] && Distinct(ops) && UserOps(s, ops)
    ensures Inv(SemOp(s, ops))
  {
    hide Closed, Balanced, Ops, Blocks, Placed;
    var p := s.run[0];
    var s1, r := Ops(s, p, ops), SemOp(s, ops);
    OpsBut(s, p, ops);
    assert s1.run[0] == p && s1.run == [p] + s1.run[1..];
    forall x | IsPid(x) ensures Placed(r, x) { SemOpPlaced(s, ops, x); }
  }

  // The caller stays in the running queue unless it waits; everyone else is where the batch
  // put it.
  lemma SemOpPlaced(s: State, ops: seq<Vpop>, x: int)
    requires Inv(s) && s.run != [] && Distinct(ops) && UserOps(s, ops) && IsPid(x)
    ensures Placed(SemOp(s, ops), x)
  {
    hide Closed, Balanced, Ops, Blocks, Devices, Forest, Distinct;
    var p := s.run[0];
    var s1, r := Ops(s, p, ops), SemOp(s, ops);
    OpsBut(s, p, ops);
    OpsWaits(s, ops);
    BlocksMeans(s, p, ops);
    assert s1.run[0] == p && s1.run == [p] + s1.run[1..];
    assert x != p ==> Placed(s1, x);
    assert WaitsFor(r, x) == WaitsFor(s1, x);
  }

  // The caller waits for exactly the LOCKed semaphores that had no unit left.
  lemma OpsWaits(s: State, ops: seq<Vpop>)
    requires Inv(s) && s.run != [] && Distinct(ops) && UserOps(s, ops)
    ensures forall a | 0 <= a < |s.sem| ::
              a in WaitsFor(Ops(s, s.run[0], ops), s.run[0]) <==>
              exists i :: 0 <= i < |ops| && ops[i] == Vpop(LOCK, a) && s.sem[a].val <= 0
  {
    var p := s.run[0];
    OpsSem(s, p, ops);
    assert p in s.run && Placed(s, p);
    forall a | 0 <= a < |s.sem|
      ensures a in WaitsFor(Ops(s, p, ops), p) <==>
              exists i :: 0 <= i < |ops| && ops[i] == Vpop(LOCK, a) && s.sem[a].val <= 0
    {
      assert a !in WaitsFor(s, p) && Balanced(s.sem[a]);
      if i :| 0 <= i < |ops| && ops[i].sem == a {
        assert Ops(s, p, ops).sem[a] == Apply(s.sem[a], ops[i].op, p);
        assert ops[i] == Vpop(ops[i].op, a);
      }
    }
  }

  lemma WaitInv(s: State, a: int)
    requires Inv(s) && s.run != [] && 0 <= a <= CLOCK && (a < NDEV ==> s.sem[a].val == 0)
    ensures Inv(Wait(s, a))
  {
    var p, r := s.run[0], Wait(s, a);
    assert p in s.run && Balanced(s.sem[a]);
    forall x | IsPid(x) ensures Placed(r, x) { WaitPlaced(s, a, x); }
    WaitPlaced(s, a, p);
    PBalanced(s.sem[a], p);
    WaitSized(s, a);
  }

  lemma WaitSized(s: State, a: int)
    requires Sized(s) && NoDup(s.run) && s.run != [] && 0 <= a < |s.sem|
    ensures Sized(Wait(s, a)) && NoDup(Wait(s, a).run)
  {
    var r := Wait(s, a);
    assert s.run[0] in s.run && s.run == [s.run[0]] + s.run[1..];
    forall b, x | 0 <= b < |r.sem| && x in r.sem[b].q ensures IsPid(x) {
      assert x == s.run[0] || x in s.sem[b].q;
    }
  }

  lemma WaitPlaced(s: State, a: int, x: int)
    requires Inv(s) && s.run != [] && 0 <= a < |s.sem| && s.sem[a].val <= 0 && IsPid(x)
    ensures Placed(Wait(s, a), x) && s.run[0] !in s.sem[a].q
  {
    var p, r := s.run[0], Wait(s, a);
    assert p in s.run && Placed(s, p) && Placed(s, x);
    assert a !in WaitsFor(s, p);
    assert s.run == [p] + s.run[1..];
    WaitsForUpdate(s, a, P(s.sem[a], p), x);
    assert WaitsFor(r, x) == WaitsFor(s.(sem := s.sem[a := P(s.sem[a], p)]), x);
  }

  lemma SameQueues(s: State, r: State)
    requires Inv(s) && r == s.(sem := r.sem, regs := r.regs, save := r.save, run := r.run, clock_count := r.clock_count)
    requires |r.sem| == |s.sem| && |r.regs| == |s.regs| && |r.save| == |s.save|
    requires forall a | 0 <= a < |s.sem| :: r.sem[a].q == s.sem[a].q && Balanced(r.sem[a])
    requires NoDup(r.run) && (forall x :: x in r.run <==> x in s.run)
    requires Devices(r)
    ensures Inv(r)
  {
    forall x | IsPid(x) ensures Placed(r, x) {
      assert Placed(s, x);
      assert WaitsFor(r, x) == WaitsFor(s, x);
    }
  }

  lemma WaitIoInv(s: State, dev: int)
    requires Inv(s) && Enabled(s, EWaitIo(dev))
    ensures Inv(Next(s, EWaitIo(dev)))
  {
    assert s.run[0] in s.run && Balanced(s.sem[dev]);
    if s.sem[dev].val == 1 {
      SameQueues(s, WaitIo(s, dev));
    } else {
      WaitInv(s, dev);
    }
  }

  lemma DevIntInv(s: State, dev: int, r: Regs)
    requires Inv(s) && Enabled(s, EDevInt(dev, r))
    ensures Inv(Next(s, EDevInt(dev, r)))
  {
    assert Balanced(s.sem[dev]);
    if s.sem[dev].val == -1 {
      var y := s.sem[dev].q[0];
      assert y in s.sem[dev].q && IsPid(y);
      var s1 := s.(regs := s.regs[y := r]);
      SameQueues(s, s1);
      UnlockBut(s1, dev, ENULL);
    } else {
      SameQueues(s, DevInt(s, dev, r));
    }
  }

  lemma RotateInv(s: State, count: int)
    requires Inv(s) && s.run != []
    ensures Inv(s.(run := s.run[1..] + [s.run[0]], clock_count := count))
  {
    var r := s.(run := s.run[1..] + [s.run[0]], clock_count := count);
    assert s.run == [s.run[0]] + s.run[1..];
    NoDupAppend(s.run[1..], [s.run[0]]);
    SameQueues(s, r);
  }

  lemma TickInv(s: State)
    requires Inv(s)
    ensures Inv(Tick(s))
  {
    hide Closed, Placed;
    var count := if s.clock_count + QUANTUM >= CLOCK_PERIOD then 0 else s.clock_count + QUANTUM;
    var s1 := s.(run := if s.run == [] then [] else s.run[1..] + [s.run[0]], clock_count := count);
    if s.run != [] {
      RotateInv(s, count);
    } else {
      SameQueues(s, s1);
    }
    assert Balanced(s.sem[CLOCK]);
    assert !IsPid(ENULL);
    if s.sem[CLOCK].q != [] {
      UnlockBut(s1, CLOCK, ENULL);
    }
  }

  lemma CreateInv(s: State, init: Regs)
    requires Inv(s) && s.run != []
    ensures Inv(Create(s, init))
  {
    hide Closed, Balanced, Placed;
    assert s.run[0] in s.run;
    if s.free == [] {
      SameQueues(s, Create(s, init));
    } else {
      CreateLists(s, init);
      forall x | IsPid(x) ensures Placed(Create(s, init), x) { CreatePlaced(s, init, x); }
    }
  }

  lemma CreateLists(s: State, init: Regs)
    requires Inv(s) && s.run != [] && s.free != []
    ensures Sized(Create(s, init)) && Queues(Create(s, init)) && Devices(Create(s, init)) && Forest(Create(s, init))
  {
    hide Closed, Balanced;
    var cur, n := s.run[0], s.free[0];
    assert cur in s.run && Placed(s, cur) && n in s.free && Placed(s, n);
    assert s.free == [n] + s.free[1..];
    GrowClosed(s.tree, cur, n);
    NoDupAppend(s.run, [n]);
  }

  lemma CreatePlaced(s: State, init: Regs, x: int)
    requires Inv(s) && s.run != [] && s.free != [] && IsPid(x)
    ensures Placed(Create(s, init), x)
  {
    hide Closed, Balanced;
    var n := s.free[0];
    assert Placed(s, x) && n in s.free && s.free == [n] + s.free[1..];
    assert WaitsFor(Create(s, init), x) == WaitsFor(s, x);
  }

  lemma GoneWaits(s: State, d: set<int>, vs: seq<int>, x: int)
    ensures WaitsFor(Gone(s, d, vs), x) == if x in d then {} else WaitsFor(s, x)
  {
    forall a | 0 <= a < |s.sem| ensures x in Drop(s.sem[a], d).q <==> x in s.sem[a].q && x !in d {
      WithoutMembers(s.sem[a].q, d);
    }
  }

  lemma GoneTwice(s: State, d: set<int>, vs: seq<int>, e: set<int>, us: seq<int>)
    ensures Gone(Gone(s, d, vs), e, us) == Gone(s, d + e, vs + us)
  {
    WithoutTwice(s.run, d, e);
    forall a | 0 <= a < |s.sem| ensures Drop(Drop(s.sem[a], d), e) == Drop(s.sem[a], d + e) {
      DropTwice(s.sem[a], d, e);
    }
    assert Dropped(Dropped(s.sem, d), e) == Dropped(s.sem, d + e);
    assert s.free + vs + us == s.free + (vs + us);
  }

  // Runs or waits, but not both, and is not free.
  ghost predicate Live(s: State, p: int) {
    p !in s.free && Placed(s, p)
  }

  lemma GoneLive(s: State, d: set<int>, vs: seq<int>, x: int)
    requires Live(s, x) && x !in d && x !in vs
    ensures Live(Gone(s, d, vs), x)
  {
    WithoutMembers(s.run, d);
    GoneWaits(s, d, vs, x);
  }

  // Taking a live process out of the semaphore queues or else out of the running queue.
  lemma OutIsGone(s: State, c: int)
    requires Live(s, c)
    ensures s.(sem := Dropped(s.sem, {c}), run := if WaitsFor(s, c) == {} then Without(s.run, {c}) else s.run)
            == Gone(s, {c}, [])
    ensures Idle(Gone(s, {c}, []), c) && c !in Gone(s, {c}, []).free
  {
    if WaitsFor(s, c) != {} { WithoutNone(s.run, {c}); }
    WithoutMembers(s.run, {c});
    GoneWaits(s, {c}, [], c);
    assert s.free + [] == s.free;
  }

  // The states passed when c and then its descendants ws are killed.
  lemma KillOrder(s: State, c: int, ws: seq<int>)
    requires Live(s, c) && c !in ws
    ensures var r := Gone(Gone(s, {c}, []), Elements(ws), ws);
            && Idle(r, c) && c !in r.free
            && r.(free := r.free + [c]) == Gone(s, Elements(ws + [c]), ws + [c])
  {
    GoneTwice(s, {c}, [], Elements(ws), ws);
    GoneTwice(s, {c} + Elements(ws), ws, {}, [c]);
    GoneWaits(s, {c} + Elements(ws), ws, c);
    WithoutMembers(s.run, {c} + Elements(ws));
    assert [] + ws == ws;
    assert {c} + Elements(ws) == Elements(ws + [c]);
    assert s.free + ws + [c] == s.free + (ws + [c]);
  }

  // Every process of vs is live and none is in x.
  ghost predicate Killable(s: State, vs: seq<int>, x: set<int>) {
    NoDup(vs) && forall v | v in vs :: IsPid(v) && Live(s, v) && v !in x
  }

  // Killing the processes ds first leaves the others killable.
  lemma StillKillable(s: State, ds: seq<int>, d: set<int>, vs: seq<int>, x: set<int>, t: Tree)
    requires Killable(s, vs, x) && forall v | v in vs :: v !in d && v !in ds
    ensures Killable(Gone(s, d, ds).(tree := t), vs, x)
  {
    forall v | v in vs ensures Live(Gone(s, d, ds).(tree := t), v) {
      GoneLive(s, d, ds, v);
      LiveAnyTree(Gone(s, d, ds), t, v);
    }
  }

  lemma GoneNone(s: State)
    ensures Gone(s, {}, []) == s
  {
    WithoutNone(s.run, {});
    forall a | 0 <= a < |s.sem| ensures Drop(s.sem[a], {}) == s.sem[a] { WithoutNone(s.sem[a].q, {}); }
    assert Dropped(s.sem, {}) == s.sem;
    assert s.free + [] == s.free;
  }

  // Before and after the descendants ws of c are killed.
  lemma KillStart(s: State, t: Tree, c: int, x: set<int>)
    requires WfTree(t) && IsPid(c) && Killable(s, Victims(t, c), x)
    ensures Live(s, c) && c !in x && c !in Below(t, c)
    ensures Killable(Gone(s, {c}, []), Below(t, c), x)
  {
    var ws := Below(t, c);
    assert Victims(t, c) == ws + [c] && Victims(t, c)[|ws|] == c;
    NoDupPrefix(ws, [c]);
    NoDupDisjoint(ws, [c], c);
    forall v | v in ws ensures v in Victims(t, c) {}
    StillKillable(s, [], {c}, ws, x, s.tree);
    assert Gone(s, {c}, []).(tree := s.tree) == Gone(s, {c}, []);
  }

  lemma KillEnd(s: State, t: Tree, c: int, u: Tree)
    requires WfTree(t) && IsPid(c) && Live(s, c) && c !in Below(t, c)
    ensures var ws := Below(t, c);
            var r := Gone(Gone(s, {c}, []), Elements(ws), ws).(tree := u);
            && Idle(r, c) && c !in r.free
            && r.(free := r.free + [c]) == Gone(s, Elements(Victims(t, c)), Victims(t, c)).(tree := u)
            && (t.kids[c] == [] ==> Gone(Gone(s, {c}, []), Elements(ws), ws) == Gone(s, {c}, []))
    ensures Clear(t, Elements(Below(t, c)) + {c}) == Clear(t, Elements(Victims(t, c)))
    ensures t.kids[c] == [] ==> Clear(t, Elements(Victims(t, c))) == t
  {
    var ws := Below(t, c);
    var r := Gone(Gone(s, {c}, []), Elements(ws), ws);
    KillOrder(s, c, ws);
    assert WaitsFor(r.(tree := u), c) == WaitsFor(r, c);
    assert Elements(ws) + {c} == Elements(Victims(t, c));
    if t.kids[c] == [] {
      assert Elements([]) == {};
      GoneNone(Gone(s, {c}, []));
      assert Clear(t, Elements(Victims(t, c))).kids == t.kids;
    }
  }

  // The victims of child k of cur are killable once those of the earlier children are gone.
  lemma ChildKillable(s: State, t: Tree, cur: int, k: nat, x: set<int>, u: Tree)
    requires WfTree(t) && IsPid(cur) && k < |t.kids[cur]| && Killable(s, Below(t, cur), x)
    ensures IsPid(t.kids[cur][k])
    ensures var vk, vc := Earlier(t, cur, k), Victims(t, t.kids[cur][k]);
            && Killable(Gone(s, Elements(vk), vk).(tree := u), vc, x + {cur})
            && Earlier(t, cur, k + 1) == vk + vc
            && Gone(Gone(s, Elements(vk), vk).(tree := u), Elements(vc), vc).(tree := u)
               == Gone(s, Elements(vk + vc), vk + vc).(tree := u)
  {
    StageFacts(t, cur, k);
    EarlierNext(t, cur, k);
    var vk, vc := Earlier(t, cur, k), Victims(t, t.kids[cur][k]);
    StillKillable(s, vk, Elements(vk), vc, x + {cur}, u);
    GoneTwice(s, Elements(vk), vk, Elements(vc), vc);
    assert Elements(vk) + Elements(vc) == Elements(vk + vc);
  }

  // Taking a running process out of the running queue, which is last to become free.
  lemma RunnerOut(s: State, cur: int, u: Tree)
    requires Live(s, cur) && cur in s.run
    ensures var r := s.(tree := u, run := Without(s.run, {cur}));
            && Idle(r, cur) && cur !in r.free
            && r.(free := r.free + [cur]) == Gone(s, {cur}, [cur]).(tree := u)
  {
    forall a | 0 <= a < |s.sem| ensures Drop(s.sem[a], {cur}) == s.sem[a] {
      assert a !in WaitsFor(s, cur);
      WithoutNone(s.sem[a].q, {cur});
    }
    assert Dropped(s.sem, {cur}) == s.sem;
    WithoutMembers(s.run, {cur});
    var r := s.(tree := u, run := Without(s.run, {cur}));
    assert WaitsFor(r, cur) == WaitsFor(s, cur);
  }

  // The running process leaves the running queue after its descendants ws are gone.
  lemma TerminateOut(s: State, t: Tree, cur: int, u: Tree)
    requires WfTree(t) && IsPid(cur) && Live(s, cur) && cur in s.run && cur !in Below(t, cur)
    ensures var ws := Below(t, cur);
            var r := Gone(s, Elements(ws), ws).(tree := u);
            var r' := r.(run := Without(r.run, {cur}));
            && Idle(r', cur) && cur !in r'.free
            && r'.(free := r'.free + [cur]) == Gone(s, Elements(Victims(t, cur)), Victims(t, cur)).(tree := u)
  {
    hide Live, Idle, Dropped, Post;
    var ws := Below(t, cur);
    GoneLive(s, Elements(ws), ws, cur);
    WithoutMembers(s.run, Elements(ws));
    RunnerOut(Gone(s, Elements(ws), ws), cur, u);
    GoneTwice(s, Elements(ws), ws, {cur}, [cur]);
    assert Elements(ws) + {cur} == Elements(Victims(t, cur));
  }

  // All victims of the running process are live.
  lemma VictimsKillable(s: State)
    requires Inv(s) && s.run != []
    ensures var cur := s.run[0];
            && IsPid(cur) && cur in s.run && Live(s, cur) && cur !in Below(s.tree, cur)
            && Killable(s, Below(s.tree, cur), {})
  {
    var cur := s.run[0];
    assert cur in s.run && Placed(s, cur);
    VictimsFacts(s.tree, cur);
    var ws := Below(s.tree, cur);
    NoDupPrefix(ws, [cur]);
    NoDupDisjoint(ws, [cur], cur);
    forall v | v in ws ensures IsPid(v) && Live(s, v) {
      assert v in Victims(s.tree, cur) && v != cur;
      assert Placed(s, v);
    }
  }

  lemma GoneTree(s: State, d: set<int>, vs: seq<int>, u: Tree, w: Tree)
    ensures Gone(s.(tree := u), d, vs).(tree := w) == Gone(s, d, vs).(tree := w)
  {
  }

  lemma DetachedKillable(s: State, u: Tree, cur: int)
    requires Inv(s) && s.run != [] && cur == s.run[0] && WfTree(u) && IsPid(cur)
    requires Below(u, cur) == Below(s.tree, cur)
    ensures Killable(s.(tree := u), Below(u, cur), {})
  {
    VictimsKillable(s);
    forall v | v in Below(u, cur) ensures Live(s.(tree := u), v) { LiveAnyTree(s, u, v); }
  }

  lemma NothingBelow(s: State, t: Tree, cur: int)
    requires WfTree(t) && IsPid(cur) && t.kids[cur] == []
    ensures Below(t, cur) == [] && Gone(s, Elements([]), []) == s
    ensures Clear(t, Elements([]) + {cur}) == t
  {
    GoneNone(s);
    assert Elements([]) == {};
    assert Clear(t, Elements([]) + {cur}).kids == t.kids;
  }

  lemma LiveAnyTree(s: State, t: Tree, x: int)
    requires Live(s, x)
    ensures Live(s.(tree := t), x)
  {
    assert WaitsFor(s.(tree := t), x) == WaitsFor(s, x);
  }

  lemma GoneInv(s: State, vs: seq<int>)
    requires Inv(s) && NoDup(vs) && forall x | x in vs :: IsPid(x) && x !in s.free
    ensures var r := Gone(s, Elements(vs), vs);
            Queues(r) && Sized(r) && Devices(r) && forall x | IsPid(x) :: Placed(r, x)
  {
    var d := Elements(vs);
    var r := Gone(s, d, vs);
    NoDupAppend(s.free, vs);
    WithoutNoDup(s.run, d);
    WithoutMembers(s.run, d);
    forall a | 0 <= a < |s.sem| ensures Balanced(r.sem[a]) && s.sem[a].val <= r.sem[a].val
      ensures r.sem[a].val <= 0 || r.sem[a].val == s.sem[a].val
    {
      assert Balanced(s.sem[a]);
      DropBalanced(s.sem[a], d);
    }
    forall x | IsPid(x) ensures Placed(r, x) {
      assert Placed(s, x);
      GoneWaits(s, d, vs, x);
    }
    forall a, x | 0 <= a < |r.sem| && x in r.sem[a].q ensures IsPid(x) {
      WithoutMembers(s.sem[a].q, d);
      assert x in s.sem[a].q;
    }
  }

  lemma TerminateInv(s: State)
    requires Inv(s) && s.run != []
    ensures Inv(Terminate(s))
  {
    var cur := s.run[0];
    assert cur in s.run && Placed(s, cur);
    var vs := Victims(s.tree, cur);
    var d := Elements(vs);
    VictimsFacts(s.tree, cur);
    GoneInv(s, vs);
    PruneClosed(s.tree, d);
    var r1 := Gone(s, d, vs);
    forall x | IsPid(x) ensures Placed(Terminate(s), x) {
      assert Placed(r1, x);
      assert WaitsFor(Terminate(s), x) == WaitsFor(r1, x);
    }
  }

  // Every step keeps the invariant.
  lemma StepInv(s: State, e: Event)
    requires Inv(s) && Enabled(s, e)
    ensures Inv(Next(s, e))
  {
    match e
    case ECreate(init) => CreateInv(s, init);
    case ETerminate => TerminateInv(s);
    case ESemOp(ops) => SemOpInv(s, ops);
    case EWaitClock => WaitInv(s, CLOCK);
    case EWaitIo(dev) => WaitIoInv(s, dev);
    case ETick => TickInv(s);
    case EDevInt(dev, r) => DevIntInv(s, dev, r);
  }
}
