// What the nucleus promises over whole runs.
module Theorems {
  import opened Base
  import opened Semaphore
  import opened ProcTree
  import opened Spec
  import opened Invariant

  // ---------- runs ----------

  // Every event of es is possible in the state in which it occurs.
  ghost predicate Legal(s: State, es: seq<Event>)
    requires Inv(s)
    decreases |es|
  {
    es == [] || (Enabled(s, es[0]) && (StepInv(s, es[0]); Legal(Next(s, es[0]), es[1..])))
  }

  ghost function Reached(s: State, es: seq<Event>): (r: State)
    requires Inv(s) && Legal(s, es)
    ensures Inv(r)
    decreases |es|
  {
    if es == [] then s else
      StepInv(s, es[0]);
      Reached(Next(s, es[0]), es[1..])
  }

  // main leaves a state in which the invariant holds when no semaphore starts below zero and
  // the device and clock semaphores start at zero: entry 0 alone runs, with the given registers,
  // nobody waits, nobody has a parent or children, and the other entries are free in order.
  lemma InitialInv(words: seq<int>, save: seq<Regs>, init: Regs)
    requires GoodWords(words) && |save| == NDEV
    ensures Inv(Initial(words, save, init))
    ensures var s := Initial(words, save, init);
            && s.run == [0] && s.regs[0] == init && s.save == save && s.clock_count == 0
            && |s.free| == MAXPROC - 1 && (forall k | 0 <= k < |s.free| :: s.free[k] == k + 1)
            && |s.sem| == |words| && (forall a | 0 <= a < |words| :: s.sem[a] == Sem(words[a], []))
            && forall p | IsPid(p) :: s.tree.par[p] == ENULL && s.tree.kids[p] == []
  {
    var s := Initial(words, save, init);
    forall p | IsPid(p) ensures Placed(s, p) {
      assert WaitsFor(s, p) == {};
      assert Blank(words, save).free[p] == p;
      if p > 0 { assert s.free[p - 1] == p; }
    }
    forall a | 0 <= a < |s.sem| ensures Balanced(s.sem[a]) { assert words[a] >= 0; }
  }

  // The initial words: nothing below zero, and nothing pending for devices and clock.
  ghost predicate GoodWords(words: seq<int>) {
    && |words| > CLOCK && (forall a | 0 <= a < |words| :: words[a] >= 0)
    && forall a | 0 <= a <= CLOCK :: words[a] == 0
  }

  ghost function Start(words: seq<int>, save: seq<Regs>, init: Regs): (r: State)
    requires GoodWords(words) && |save| == NDEV
    ensures Inv(r) && r == Initial(words, save, init)
  {
    InitialInv(words, save, init);
    Initial(words, save, init)
  }

  // Of the free list, the running queue and the semaphore queues, how many p is in.
  ghost function Places(s: State, p: int): int {
    (if p in s.free then 1 else 0) + (if p in s.run then 1 else 0) + (if WaitsFor(s, p) != {} then 1 else 0)
  }

  // In every state of every run each process is in exactly one place, each semaphore of value
  // v has exactly max(0, -v) different processes waiting, and device semaphores stay in -1..1.
  lemma RunInvariant(words: seq<int>, save: seq<Regs>, init: Regs, es: seq<Event>)
    requires GoodWords(words) && |save| == NDEV && Legal(Start(words, save, init), es)
    ensures var r := Reached(Start(words, save, init), es);
            && (forall p | IsPid(p) :: Places(r, p) == 1)
            && (forall a | 0 <= a < |r.sem| ::
                  NoDup(r.sem[a].q) && |r.sem[a].q| == if r.sem[a].val < 0 then -r.sem[a].val else 0)
            && (forall d | 0 <= d < NDEV && d < |r.sem| :: -1 <= r.sem[d].val <= 1)
  {
    var r := Reached(Start(words, save, init), es);
    forall p | IsPid(p) ensures Places(r, p) == 1 { assert Placed(r, p); }
    forall a | 0 <= a < |r.sem|
      ensures NoDup(r.sem[a].q) && |r.sem[a].q| == if r.sem[a].val < 0 then -r.sem[a].val else 0
    {
      assert Balanced(r.sem[a]);
    }
  }

  // ---------- Sem_OP ----------

  // A batch changes each semaphore it names by exactly its operation.
  lemma BatchValues(s: State, ops: seq<Vpop>)
    requires Inv(s) && s.run != [] && Distinct(ops) && UserOps(s, ops)
    ensures forall i | 0 <= i < |ops| ::
              SemOp(s, ops).sem[ops[i].sem].val == s.sem[ops[i].sem].val + if ops[i].op == LOCK then -1 else 1
    ensures forall a | 0 <= a < |s.sem| && (forall i | 0 <= i < |ops| :: ops[i].sem != a) ::
              SemOp(s, ops).sem[a] == s.sem[a]
  {
    OpsSem(s, s.run[0], ops);
  }

  // AND-wait: the caller waits for exactly the LOCKed semaphores that went below zero, and
  // keeps running iff there are none; the queue behind it keeps its order.
  lemma BatchCaller(s: State, ops: seq<Vpop>)
    requires Inv(s) && s.run != [] && Distinct(ops) && UserOps(s, ops)
    ensures var p, r := s.run[0], SemOp(s, ops);
            && (forall a :: a in WaitsFor(r, p) <==>
                  exists i :: 0 <= i < |ops| && ops[i] == Vpop(LOCK, a) && r.sem[a].val < 0)
            && (p in r.run <==> WaitsFor(r, p) == {})
            && (if WaitsFor(r, p) == {} then s.run <= r.run else s.run[1..] <= r.run)
  {
    var p, r := s.run[0], SemOp(s, ops);
    BatchSame(s, ops);
    BatchValues(s, ops);
    OpsWaits(s, ops);
    assert WaitsFor(r, p) == WaitsFor(Ops(s, p, ops), p);
    forall a ensures a in WaitsFor(r, p) <==>
                       exists i :: 0 <= i < |ops| && ops[i] == Vpop(LOCK, a) && r.sem[a].val < 0
    {
      assert forall i | 0 <= i < |ops| && ops[i] == Vpop(LOCK, a) :: r.sem[a].val == s.sem[ops[i].sem].val - 1;
    }
  }

  lemma BatchSame(s: State, ops: seq<Vpop>)
    requires Inv(s) && s.run != [] && Distinct(ops) && UserOps(s, ops)
    ensures var p, r := s.run[0], SemOp(s, ops);
            && IsPid(p) && r.sem == Ops(s, p, ops).sem && r.free == s.free
            && (p in r.run <==> WaitsFor(r, p) == {})
            && (if WaitsFor(r, p) == {} then s.run <= r.run else s.run[1..] <= r.run)
  {
    var p, r := s.run[0], SemOp(s, ops);
    BatchRun(s, ops);
    BatchFlag(s, ops);
    SemOpInv(s, ops);
    assert p in s.run && Placed(s, p) && Placed(r, p);
    assert WaitsFor(r, p) == WaitsFor(Ops(s, p, ops), p);
  }

  lemma BatchRun(s: State, ops: seq<Vpop>)
    requires Inv(s) && s.run != [] && Distinct(ops) && UserOps(s, ops)
    ensures var p, r := s.run[0], SemOp(s, ops);
            && r.sem == Ops(s, p, ops).sem && r.free == s.free
            && (if Blocks(s, p, ops, |ops|) then s.run[1..] <= r.run else s.run <= r.run)
  {
    hide Inv, InvBut, Ops, Blocks;
    OpsBut(s, s.run[0], ops);
    var s1 := Ops(s, s.run[0], ops);
    assert s1.run == s.run + s1.run[|s.run|..];
    assert s1.run[1..] == s.run[1..] + s1.run[|s.run|..];
  }

  lemma BatchFlag(s: State, ops: seq<Vpop>)
    requires Inv(s) && s.run != [] && Distinct(ops) && UserOps(s, ops)
    ensures Blocks(s, s.run[0], ops, |ops|) <==> WaitsFor(Ops(s, s.run[0], ops), s.run[0]) != {}
  {
    var p := s.run[0];
    BlocksMeans(s, p, ops);
    OpsWaits(s, ops);
    if i :| 0 <= i < |ops| && ops[i].op == LOCK && s.sem[ops[i].sem].val <= 0 {
      assert ops[i] == Vpop(LOCK, ops[i].sem);
      assert ops[i].sem in WaitsFor(Ops(s, p, ops), p);
    }
  }

  // A waiting process is back in the running queue exactly when the last semaphore it waited
  // for has been released, whatever prefix of the batch has been carried out.
  lemma BatchWakes(s: State, ops: seq<Vpop>, x: int)
    requires Inv(s) && s.run != [] && Distinct(ops) && UserOps(s, ops)
    requires IsPid(x) && WaitsFor(s, x) != {}
    ensures x in SemOp(s, ops).run <==> WaitsFor(SemOp(s, ops), x) == {}
    ensures forall n | 0 <= n <= |ops| ::
              x in Ops(s, s.run[0], ops[..n]).run <==> WaitsFor(Ops(s, s.run[0], ops[..n]), x) == {}
  {
    assert Placed(s, x) && s.run[0] in s.run && Placed(s, s.run[0]);
    SemOpInv(s, ops);
    BatchSame(s, ops);
    assert Placed(SemOp(s, ops), x);
    forall n | 0 <= n <= |ops|
      ensures x in Ops(s, s.run[0], ops[..n]).run <==> WaitsFor(Ops(s, s.run[0], ops[..n]), x) == {}
    {
      PrefixWakes(s, ops[..n], x);
    }
  }

  lemma PrefixWakes(s: State, ops: seq<Vpop>, x: int)
    requires Inv(s) && s.run != [] && Distinct(ops) && UserOps(s, ops)
    requires IsPid(x) && x != s.run[0] && x !in s.free
    ensures x in Ops(s, s.run[0], ops).run <==> WaitsFor(Ops(s, s.run[0], ops), x) == {}
  {
    OpsBut(s, s.run[0], ops);
    assert Placed(Ops(s, s.run[0], ops), x);
  }

  // Each semaphore of a batch wakes its waiters in the order in which they came.
  lemma BatchFifo(s: State, ops: seq<Vpop>, i: nat)
    requires Inv(s) && s.run != [] && Distinct(ops) && UserOps(s, ops) && i < |ops|
    ensures var a := ops[i].sem;
            var q, q' := s.sem[a].q, SemOp(s, ops).sem[a].q;
            if ops[i].op == LOCK then q' == if s.sem[a].val <= 0 then q + [s.run[0]] else q
            else if q == [] then q' == [] else q == [q[0]] + q'
  {
    assert Balanced(s.sem[ops[i].sem]);
    hide Inv;
    OpsSem(s, s.run[0], ops);
  }

  // ---------- Terminate_Process ----------

  // The waiters of u in d.
  ghost function Killed(u: Sem, d: set<int>): set<int> {
    set x | x in u.q && x in d
  }

  lemma {:induction false} KilledCount(q: seq<int>, d: set<int>)
    requires NoDup(q)
    ensures |q| - |Without(q, d)| == |set x | x in q && x in d|
  {
    if q != [] {
      NoDupTail(q);
      KilledCount(q[1..], d);
      var a, b := set x | x in q && x in d, set x | x in q[1..] && x in d;
      assert a == if q[0] in d then b + {q[0]} else b by {
        forall x ensures x in q <==> x == q[0] || x in q[1..] {}
      }
    }
  }

  // A victim is free afterwards, so it is nowhere else.
  lemma VictimGone(s: State, x: int)
    requires Inv(s) && s.run != [] && s.run[0] in s.run && IsPid(s.run[0]) && WfTree(s.tree)
    requires IsPid(x) && x in Victims(s.tree, s.run[0])
    ensures x !in Terminate(s).run && WaitsFor(Terminate(s), x) == {}
  {
    TerminateInv(s);
    assert x in Terminate(s).free && Placed(Terminate(s), x);
  }

  // Terminate frees exactly the caller and its descendants; they leave every queue, each
  // semaphore rises by one per killed waiter, and the order of the survivors is unchanged.
  lemma TerminateExact(s: State)
    requires Inv(s) && s.run != []
    ensures var r, cur := Terminate(s), s.run[0];
            && (forall x | IsPid(x) :: x in r.free <==> x in s.free || IsDesc(s.tree, x, cur))
            && (forall x | IsPid(x) && IsDesc(s.tree, x, cur) :: x !in r.run && WaitsFor(r, x) == {})
            && r.free[..|s.free|] == s.free
    ensures var r, d := Terminate(s), Elements(Victims(s.tree, s.run[0]));
            && r.run == Without(s.run, d)
            && forall a | 0 <= a < |s.sem| ::
                 && r.sem[a].q == Without(s.sem[a].q, d)
                 && r.sem[a].val == s.sem[a].val + |Killed(s.sem[a], d)|
  {
    hide Closed, Devices, WaitsFor, IsDesc, Placed, Victims;
    var r, cur := Terminate(s), s.run[0];
    assert cur in s.run;
    var vs := Victims(s.tree, cur);
    var d := Elements(vs);
    forall x | IsPid(x) ensures x in vs <==> IsDesc(s.tree, x, cur) { VictimsAreDescendants(s.tree, cur, x); }
    forall x | IsPid(x) && x in vs ensures x !in r.run && WaitsFor(r, x) == {} { VictimGone(s, x); }
    forall a | 0 <= a < |s.sem| ensures r.sem[a].val == s.sem[a].val + |Killed(s.sem[a], d)| {
      assert Balanced(s.sem[a]);
      KilledCount(s.sem[a].q, d);
    }
  }

  // The freed entries have no tree links, and every survivor keeps its surviving children in order.
  lemma TerminateTree(s: State, x: int)
    requires Inv(s) && s.run != [] && IsPid(x)
    ensures var r, cur := Terminate(s), s.run[0];
            if IsDesc(s.tree, x, cur) then r.tree.kids[x] == [] && r.tree.par[x] == ENULL
            else r.tree.par[x] == s.tree.par[x] && r.tree.kids[x] == Without(s.tree.kids[x], {cur})
  {
    var cur := s.run[0];
    assert cur in s.run;
    VictimsAreDescendants(s.tree, cur, x);
    CutClearIsPrune(s.tree, cur);
    if !IsDesc(s.tree, x, cur) {
      assert Clear(Cut(s.tree, cur), Elements(Victims(s.tree, cur))).kids[x] == Cut(s.tree, cur).kids[x];
    }
  }

  // Entries are freed in a fixed order, after those that were free before: each process after
  // its descendants, and before those at or below a younger brother.
  lemma TerminateOrder(s: State)
    requires Inv(s) && s.run != []
    ensures var cur := s.run[0];
            var vs := Terminate(s).free[|s.free|..];
            && IsPid(cur) && Terminate(s).free == s.free + vs
            && (forall x, y | IsPid(x) && IsPid(y) && y != x && IsDesc(s.tree, x, cur) && IsDesc(s.tree, y, x) ::
                  Before(vs, y, x))
            && (forall x, j, k, z | IsPid(x) && IsDesc(s.tree, x, cur) && 0 <= j < k < |s.tree.kids[x]| && IsPid(z)
                                    && IsDesc(s.tree, z, s.tree.kids[x][k]) ::
                  Before(vs, s.tree.kids[x][j], z))
  {
    hide Closed, Before, IsDesc, Queues, Devices, Placed;
    var cur := s.run[0];
    assert cur in s.run;
    assert Terminate(s).free[|s.free|..] == Victims(s.tree, cur);
    VictimsOrder(s.tree, cur);
    forall x | IsPid(x) && IsDesc(s.tree, x, cur) ensures x in Victims(s.tree, cur) {
      VictimsAreDescendants(s.tree, cur, x);
    }
  }

  // ---------- Create_Process ----------

  // The caller gets -1 if and only if no entry is free, and then nothing else differs.
  // Otherwise it gets 0, and the first free entry, with the given registers and no children,
  // is the last in the running queue and the last child of the caller; all other registers,
  // all semaphores and all other tree links are as before.
  lemma CreateExact(s: State, init: Regs)
    requires Inv(s) && s.run != []
    ensures var r, p := Create(s, init), s.run[0];
            && IsPid(p) && |r.regs| == |s.regs| == MAXPROC
            && (r.regs[p].r2 == -1 <==> s.free == []) && (r.regs[p].r2 == 0 <==> s.free != [])
            && r.regs[p].r3 == s.regs[p].r3
            && (s.free == [] ==> r == s.(regs := r.regs))
            && forall x | IsPid(x) && x != p && x != First(s.free) :: r.regs[x] == s.regs[x]
    ensures s.free != [] ==>
              var r, p, n := Create(s, init), s.run[0], s.free[0];
              && IsPid(p) && IsPid(n) && n != p && n !in s.run
              && |r.regs| == |s.regs| == MAXPROC && r.regs[n] == init
              && s.free == [n] + r.free && r.run == s.run + [n]
              && r.sem == s.sem && r.save == s.save && r.clock_count == s.clock_count
              && |r.tree.par| == |r.tree.kids| == |s.tree.par| == |s.tree.kids| == MAXPROC
              && r.tree.par[n] == p && r.tree.kids[n] == [] && r.tree.kids[p] == s.tree.kids[p] + [n]
              && forall x | IsPid(x) && x != n :: r.tree.par[x] == s.tree.par[x]
                                                  && (x != p ==> r.tree.kids[x] == s.tree.kids[x])
  {
    hide Closed, Queues, Devices;
    assert s.run[0] in s.run && Placed(s, s.run[0]);
    if s.free != [] { assert s.free[0] in s.free && s.free == [s.free[0]] + s.free[1..]; }
  }

  // ---------- waiting for the clock or for a device ----------

  // A LOCK by the running process on any semaphore: it waits, last in the queue, exactly when
  // the word goes below zero, and otherwise goes on with one unit less.
  lemma LockExact(s: State, a: int)
    requires Inv(s) && s.run != [] && 0 <= a < |s.sem|
    ensures var r, p := Wait(s, a), s.run[0];
            && |r.sem| == |s.sem| && r.sem[a].val == s.sem[a].val - 1
            && (r.sem[a].val < 0 <==> p !in r.run) && (r.sem[a].val < 0 <==> p in r.sem[a].q)
            && (if r.sem[a].val < 0 then s.run == [p] + r.run && r.sem[a].q == s.sem[a].q + [p]
                else r.run == s.run && r.sem[a].q == s.sem[a].q)
            && r == s.(run := r.run, sem := s.sem[a := r.sem[a]])
  {
    var p := s.run[0];
    assert p in s.run && Placed(s, p) && a !in WaitsFor(s, p);
    assert s.run == [p] + s.run[1..];
  }

  // The caller leaves the head of the running queue and joins the end of the queue that it
  // waits in; nothing else changes. It always waits for the clock.
  lemma WaitExact(s: State, e: Event)
    requires Inv(s) && Enabled(s, e) && (e.EWaitClock? || e.EWaitIo?)
    ensures var r, p, a := Next(s, e), s.run[0], if e.EWaitIo? then e.dev else CLOCK;
            && (a == CLOCK || s.sem[a].val != 1 ==>
                  && s.run == [p] + r.run && WaitsFor(r, p) == {a}
                  && r.sem == s.sem[a := Sem(s.sem[a].val - 1, s.sem[a].q + [p])]
                  && r == s.(run := r.run, sem := r.sem))
  {
    var p, a := s.run[0], if e.EWaitIo? then e.dev else CLOCK;
    assert p in s.run && Placed(s, p) && Balanced(s.sem[a]);
    if a == CLOCK || s.sem[a].val != 1 {
      WaitsForUpdate(s, a, P(s.sem[a], p), p);
      assert WaitsFor(Next(s, e), p) == WaitsFor(s.(sem := s.sem[a := P(s.sem[a], p)]), p);
    }
  }

  // ---------- what a step leaves alone ----------

  // The operation of e acts on semaphore a.
  ghost predicate ActsOn(e: Event, a: int) {
    match e
    case ESemOp(ops) => exists i :: 0 <= i < |ops| && ops[i].sem == a
    case EWaitClock => a == CLOCK
    case EWaitIo(dev) => a == dev
    case EDevInt(dev, _) => a == dev
    case ETick => a == CLOCK
    case ETerminate => true
    case ECreate(_) => false
  }

  // Registers change only for the caller and the child of a creation, for a caller that finds
  // its device done, and for the waiter of a device interrupt; saved results only by such an
  // interrupt; the clock count only by a clock interrupt; free list and tree only by creation
  // and termination; and a semaphore only by an operation on it.
  lemma StepFrame(s: State, e: Event, p: int, a: int)
    requires Inv(s) && Enabled(s, e) && IsPid(p) && 0 <= a < |s.sem|
    ensures var r := Next(s, e);
            && |r.regs| == |s.regs| && |r.sem| == |s.sem|
            && (r.regs[p] != s.regs[p] ==>
                  || (e.ECreate? && (p == s.run[0] || p == First(s.free)))
                  || (e.EWaitIo? && p == s.run[0] && s.sem[e.dev].val == 1)
                  || (e.EDevInt? && p == First(s.sem[e.dev].q)))
            && (r.save != s.save ==> e.EDevInt? && s.sem[e.dev].q == [] && r.save == s.save[e.dev := e.r])
            && (r.clock_count != s.clock_count ==> e.ETick?)
            && (r.free != s.free || r.tree != s.tree ==> e.ECreate? || e.ETerminate?)
            && (r.sem[a] != s.sem[a] ==> ActsOn(e, a))
  {
    hide Queues, Devices, Forest, Placed, WaitsFor, Ops, Blocks, Victims, Prune, Grow;
    assert s.run != [] ==> s.run[0] in s.run && IsPid(s.run[0]);
    match e
    case ESemOp(ops) => BatchFrame(s, ops, a);
    case EDevInt(dev, r) => DeviceFrame(s, dev, r, a);
    case ECreate(init) => CreateExact(s, init);
    case _ =>
  }

  lemma BatchFrame(s: State, ops: seq<Vpop>, a: int)
    requires Inv(s) && Enabled(s, ESemOp(ops)) && 0 <= a < |s.sem|
    ensures var r := SemOp(s, ops);
            && SameRest(s, r) && |r.sem| == |s.sem|
            && (r.sem[a] != s.sem[a] ==> exists i :: 0 <= i < |ops| && ops[i].sem == a)
  {
    hide Inv, InvBut, Ops, Blocks;
    OpsBut(s, s.run[0], ops);
    BatchValues(s, ops);
  }

  lemma DeviceFrame(s: State, dev: int, r: Regs, a: int)
    requires Inv(s) && Enabled(s, EDevInt(dev, r)) && 0 <= a < |s.sem|
    ensures var s1, q := Next(s, EDevInt(dev, r)), s.sem[dev].q;
            && |s1.sem| == |s.sem| && (s1.sem[a] != s.sem[a] ==> a == dev)
            && (q != [] ==> IsPid(q[0]) && s1 == s.(run := s1.run, sem := s1.sem, regs := s.regs[q[0] := r]))
            && (q == [] ==> s1 == s.(sem := s1.sem, save := s.save[dev := r]))
  {
    assert Balanced(s.sem[dev]);
    assert s.sem[dev].q != [] ==> s.sem[dev].q[0] in s.sem[dev].q;
  }

  // The processes that a batch makes runnable join the running queue in the order of the
  // operations: what the first n of them have added stays ahead of what the others add.
  lemma BatchOrder(s: State, ops: seq<Vpop>, n: nat)
    requires Inv(s) && s.run != [] && Distinct(ops) && UserOps(s, ops) && n <= |ops|
    ensures var p, r := s.run[0], SemOp(s, ops);
            var early := Ops(s, p, ops[..n]).run;
            && s.run <= early
            && if WaitsFor(r, p) == {} then early <= r.run else early[1..] <= r.run
  {
    hide Inv, InvBut, Ops, Blocks, WaitsFor;
    var p := s.run[0];
    assert Distinct(ops[..n]) && UserOps(s, ops[..n]);
    OpsBut(s, p, ops[..n]);
    RunGrows(s, p, ops, n);
    BatchFlag(s, ops);
    BatchSame(s, ops);
    SameWaits(SemOp(s, ops), Ops(s, p, ops), p);
    var early, late := Ops(s, p, ops[..n]).run, Ops(s, p, ops).run;
    assert late == early + late[|early|..] && late[1..] == early[1..] + late[|early|..];
  }

  lemma SameWaits(s: State, r: State, p: int)
    requires s.sem == r.sem
    ensures WaitsFor(s, p) == WaitsFor(r, p)
  {
  }

  lemma {:induction false} RunGrows(s: State, p: int, ops: seq<Vpop>, n: nat)
    requires Addressed(s, ops) && n <= |ops|
    ensures Ops(s, p, ops[..n]).run <= Ops(s, p, ops).run
    decreases |ops| - n
  {
    if n == |ops| {
      assert ops[..n] == ops;
    } else {
      assert ops[..n + 1][..n] == ops[..n];
      RunGrows(s, p, ops, n + 1);
    }
  }
}
