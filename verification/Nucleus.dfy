// nucleus/: the kernel state in the process and descriptor tables, and the entries into the
// nucleus, each proved to do to that state what the state machine Spec does.
module Nucleus {
  import opened Base
  import opened ProcQ
  import opened Asl
  import opened Semaphore
  import opened ProcTree
  import opened TreeLinks
  import Spec
  import Invariant
  import Theorems
  import SingleWaits

  ghost function SemsOf(c: seq<int>, Q: seq<seq<Link>>): (r: seq<Sem>)
    requires |Q| == 1 + |c|
    ensures |r| == |c| && forall a | 0 <= a < |c| :: r[a] == Sem(c[a], Procs(OfSem(Q, a)))
  {
    seq(|c|, a requires 0 <= a < |c| => Sem(c[a], Procs(OfSem(Q, a))))
  }

  // The state the tables stand for.
  ghost function StateOf(t: seq<Proc>, free: seq<int>, Q: seq<seq<Link>>, c: seq<int>, tree: Tree,
                         save: seq<Regs>, clock_count: int): Spec.State
    requires |Q| == 1 + |c|
  {
    Spec.State(free, Procs(Q[RUN]), SemsOf(c, Q), tree, RegsOf(t), save, clock_count)
  }

  ghost predicate Ready(s: Spec.State, e: Invariant.Event) {
    Invariant.Inv(s) && Invariant.Enabled(s, e)
  }

  ghost function Following(s: Spec.State, e: Invariant.Event): Spec.State
    requires Ready(s, e)
  {
    Invariant.Next(s, e)
  }

  // A process that has to wait at address a finds a descriptor.
  ghost predicate Room(s: Spec.State, a: int) {
    0 <= a < |s.sem| && (s.sem[a].val == 0 ==> Spec.CanWait(s, a))
  }

  // What waitforio and inthandler have to do.
  lemma WaitIoFacts(s: Spec.State, dev: int)
    requires Ready(s, Invariant.EWaitIo(dev)) && Room(s, dev)
    ensures s.run != [] && IsPid(s.run[0]) && 0 <= dev < Spec.NDEV
    ensures dev < |s.sem| && |s.regs| == MAXPROC && |s.save| == Spec.NDEV
    ensures Following(s, Invariant.EWaitIo(dev)) ==
            if s.sem[dev].val == 1
            then s.(sem := s.sem[dev := s.sem[dev].(val := 0)], regs := s.regs[s.run[0] := s.save[dev]])
            else Spec.Wait(s, dev)
    ensures Invariant.Inv(s) && (s.sem[dev].val <= 0 ==> Spec.CanWait(s, dev))
  {
    assert s.run[0] in s.run;
  }

  lemma DevIntFacts(s: Spec.State, dev: int, r: Regs)
    requires Ready(s, Invariant.EDevInt(dev, r))
    ensures 0 <= dev < Spec.NDEV && dev < |s.sem| && |s.regs| == MAXPROC && |s.save| == Spec.NDEV
    ensures s.sem[dev].val == -1 ==> s.sem[dev].q != [] && IsPid(s.sem[dev].q[0])
    ensures Following(s, Invariant.EDevInt(dev, r)) ==
            if s.sem[dev].val == -1 then Spec.Unlock(s.(regs := s.regs[s.sem[dev].q[0] := r]), dev)
            else s.(sem := s.sem[dev := s.sem[dev].(val := s.sem[dev].val + 1)], save := s.save[dev := r])
  {
    assert Balanced(s.sem[dev]);
    assert s.sem[dev].val == -1 ==> s.sem[dev].q[0] in s.sem[dev].q;
  }

  lemma SemsUpdate(c: seq<int>, Q: seq<seq<Link>>, a: nat, v: int, q: seq<Link>)
    requires |Q| == 1 + |c| && a < |c|
    ensures SemsOf(c[a := v], Q[1 + a := q]) == SemsOf(c, Q)[a := Sem(v, Procs(q))]
  {
    forall b: nat | b < |c| ensures OfSem(Q[1 + a := q], b) == if b == a then q else OfSem(Q, b) {}
  }

  lemma SemsRun(c: seq<int>, Q: seq<seq<Link>>, q: seq<Link>)
    requires |Q| == 1 + |c|
    ensures SemsOf(c, Q[RUN := q]) == SemsOf(c, Q)
  {
    forall b: nat | b < |c| ensures OfSem(Q[RUN := q], b) == OfSem(Q, b) {}
  }

  lemma ProcsAppend(q: seq<Link>, l: Link)
    ensures Procs(q + [l]) == Procs(q) + [l.next]
  {
  }

  lemma BlankTree(t: seq<Proc>, tree: Tree)
    requires |t| == MAXPROC && forall i | 0 <= i < MAXPROC :: t[i] == BlankEntry().(p_link := t[i].p_link)
    requires tree == Tree.Tree(seq(MAXPROC, _ => []), seq(MAXPROC, _ => ENULL), seq(MAXPROC, _ => 0))
    ensures TreeRep(t, tree, {})
  {
  }

  class Kernel {
    const asl: SemList
    const save_arr: array<Regs>
    var running_queue: Link
    var clock_count: int
    ghost var tree: Tree
    ghost var stale: set<int>     // processes whose child link is being taken apart

    // init and main: the first process is allocated and enters the running queue.
    constructor (words: seq<int>, save: seq<Regs>, init: Regs)
      requires |words| > Spec.CLOCK && |save| == Spec.NDEV
      ensures Valid() && fresh(Frame()) && stale == {}
      ensures Abs() == Spec.Initial(words, save, init)
    {
      hide Rings, FreeList, Entries, Lists, Contents, AllAwait;
      asl := new SemList(words);
      save_arr := new Regs[|save|](i requires 0 <= i < |save| => save[i]);
      clock_count := 0;
      running_queue := NIL;
      tree := Tree.Tree(seq(MAXPROC, _ => []), seq(MAXPROC, _ => ENULL), seq(MAXPROC, _ => 0));
      stale := {};
      new;
      BlankTree(asl.table.proc_table[..], tree);
      assert Abs() == Spec.Blank(words, save);
      Start(words, save, init);
    }

    ghost function Frame(): set<object> {
      {this, asl, asl.table, asl.table.proc_table, asl.semd_table, asl.cell, save_arr}
    }

    ghost predicate Queued()
      reads this`running_queue, asl, asl.table, asl.table.proc_table, asl.semd_table, asl.cell, save_arr
    {
      && asl.Valid() && asl.cell.Length > Spec.CLOCK && save_arr.Length == Spec.NDEV
      && running_queue == Tail(asl.table.Q[RUN])
    }

    ghost predicate Valid()
      reads Frame()
    {
      Queued() && TreeRep(asl.table.proc_table[..], tree, stale)
    }

    ghost function Abs(): Spec.State
      requires Valid()
      reads Frame()
    {
      StateOf(asl.table.proc_table[..], asl.table.free, asl.table.Q, asl.cell[..], tree, save_arr[..], clock_count)
    }

    // Processes and queues of the abstract state are those of the tables.
    lemma AbsFacts()
      requires Valid()
      ensures |Abs().sem| == asl.cell.Length && |Abs().regs| == MAXPROC
      ensures forall p | IsPid(p) ::
                && Spec.WaitsFor(Abs(), p) == Waits(asl.table.Q, p)
                && |Holding(asl.table.Q, p)| == |Spec.WaitsFor(Abs(), p)| + if p in Abs().run then 1 else 0
    {
      forall p | IsPid(p)
        ensures Spec.WaitsFor(Abs(), p) == Waits(asl.table.Q, p)
        ensures |Holding(asl.table.Q, p)| == |Spec.WaitsFor(Abs(), p)| + if p in Abs().run then 1 else 0
      {
        HoldingSplit(asl.table.Q, p);
        assert Spec.WaitsFor(Abs(), p) == Waits(asl.table.Q, p);
      }
    }

    // In the tables: qcount counts the queues that hold a process, its vector lists exactly the
    // semaphores that it waits for, each once, and a free entry has neither.
    lemma EntryCounts(p: int)
      requires Valid() && IsPid(p)
      ensures WellSized(asl.table.proc_table[..])
      ensures var e, w := asl.table.proc_table[p], Spec.WaitsFor(Abs(), p);
              && e.qcount == |w| + (if p in Abs().run then 1 else 0)
              && (forall a | a != ENULL :: a in e.semvec <==> a in w)
              && (forall i, j | 0 <= i < j < SEMMAX && e.semvec[i] != ENULL :: e.semvec[i] != e.semvec[j])
              && (p in Abs().free ==> w == {} && p !in Abs().run)
    {
      hide Rings, FreeList, Lists, Contents, TreeRep;
      AbsFacts();
      assert Entry(asl.table.proc_table[..], asl.table.Q, asl.table.free, p);
      assert Awaits(asl.table.proc_table[..][p].semvec, Waits(asl.table.Q, p));
      if p in Abs().free {
        assert Holding(asl.table.Q, p) == {};
        assert |Spec.WaitsFor(Abs(), p)| == 0;
      }
    }

    method HeadRun() returns (p: int)
      requires Valid()
      ensures p == First(Abs().run)
    {
      p := asl.table.HeadQueue(running_queue, RUN);
    }

    // insertProc(&running_queue, p)
    method EnterRun(p: int)
      requires Valid() && IsPid(p) && p !in Abs().free && Spec.Idle(Abs(), p)
      modifies Frame()
      ensures Valid() && Abs() == old(Abs()).(run := old(Abs()).run + [p]) && unchanged(`stale, `tree)
    {
      hide Rings, FreeList, Entries, Lists, Contents, AllAwait, TreeRep;
      ghost var t, Q := asl.table.proc_table[..], asl.table.Q;
      AbsFacts();
      running_queue := asl.InsertRun(running_queue, p);
      ProcsAppend(Q[RUN], running_queue);
      SemsRun(asl.cell[..], Q, Q[RUN] + [running_queue]);
      TreeFrame(t, asl.table.proc_table[..], tree, stale);
    }

    // removeProc(&running_queue)
    method LeaveRun() returns (p: int)
      requires Valid() && Abs().run != []
      modifies Frame()
      ensures Valid() && Abs() == old(Abs()).(run := old(Abs()).run[1..]) && unchanged(`stale, `tree)
      ensures p == old(Abs()).run[0]
    {
      hide Rings, FreeList, Entries, Lists, Contents, AllAwait, TreeRep;
      ghost var t, Q := asl.table.proc_table[..], asl.table.Q;
      p, running_queue := asl.RemoveRun(running_queue);
      assert Procs(Q[RUN][1..]) == Procs(Q[RUN])[1..];
      SemsRun(asl.cell[..], Q, Q[RUN][1..]);
      TreeFrame(t, asl.table.proc_table[..], tree, stale);
    }

    method Alloc() returns (p: int)
      requires Valid()
      modifies Frame()
      ensures Valid() && unchanged(`stale, `tree) && p == First(old(Abs()).free)
      ensures Abs() == old(Abs()).(free := if old(Abs()).free == [] then [] else old(Abs()).free[1..])
    {
      hide Rings, FreeList, Entries, Lists, Contents, AllAwait, TreeRep;
      ghost var t := asl.table.proc_table[..];
      p := asl.Alloc();
      TreeFrame(t, asl.table.proc_table[..], tree, stale);
    }

    method SetRegs(p: int, r: Regs)
      requires Valid() && IsPid(p)
      modifies Frame()
      ensures Valid() && unchanged(`stale, `tree) && Abs() == old(Abs()).(regs := old(Abs()).regs[p := r])
    {
      hide Rings, FreeList, Entries, Lists, Contents, AllAwait, TreeRep;
      ghost var t := asl.table.proc_table[..];
      asl.WriteEntry(p, asl.table.proc_table[p].(regs := r));
      RegsFrame(t, p, r, tree, stale);
    }

    // freeProc
    method Free(p: int)
      requires Valid() && IsPid(p) && p !in Abs().free && Spec.Idle(Abs(), p)
      modifies Frame()
      ensures Valid() && unchanged(`stale, `tree) && Abs() == old(Abs()).(free := old(Abs()).free + [p])
    {
      hide Rings, FreeList, Entries, Lists, Contents, AllAwait, TreeRep;
      ghost var t := asl.table.proc_table[..];
      AbsFacts();
      asl.Free(p);
      TreeFrame(t, asl.table.proc_table[..], tree, stale);
    }

    method Start(ghost words: seq<int>, ghost save: seq<Regs>, init: Regs)
      requires Valid() && Abs() == Spec.Blank(words, save)
      modifies Frame()
      ensures Valid() && unchanged(`stale, `tree) && Abs() == Spec.Initial(words, save, init)
    {
      hide Valid, Queued;
      var p := Alloc();
      SetRegs(p, init);
      EnterRun(p);
    }

    lemma BusyCount()
      requires Valid()
      ensures |asl.act| == |Spec.Busy(Abs())| && |asl.act| + |asl.fre| == MAXPROC
    {
      asl.ActiveCount();
      assert (set a: nat | a < asl.cell.Length && asl.Waiting(a) != []) == Spec.Busy(Abs());
    }

    // A process that waits or runs is not free.
    lemma HeldNotFree(p: int)
      requires Valid() && IsPid(p) && (p in Abs().run || Spec.WaitsFor(Abs(), p) != {})
      ensures p !in Abs().free
    {
      AbsFacts();
      assert Entry(asl.table.proc_table[..], asl.table.Q, asl.table.free, p);
    }

    // --*sem
    method Lower(a: int) returns (negative: bool)
      requires Valid() && 0 <= a < |Abs().sem|
      modifies Frame()
      ensures Valid() && unchanged(`stale, `tree)
      ensures Abs() == old(Abs()).(sem := old(Abs()).sem[a := old(Abs()).sem[a].(val := old(Abs()).sem[a].val - 1)])
      ensures negative <==> old(Abs()).sem[a].val <= 0
    {
      hide Rings, FreeList, Entries, Lists, Contents, AllAwait, TreeRep;
      ghost var Q, c := asl.table.Q, asl.cell[..];
      asl.cell[a] := asl.cell[a] - 1;
      negative := asl.cell[a] < 0;
      assert Q[1 + a := OfSem(Q, a)] == Q;
      SemsUpdate(c, Q, a, c[a] - 1, OfSem(Q, a));
    }

    // insertBlocked(sem, p)
    method Join(a: int, p: int)
      requires Valid() && 0 <= a < |Abs().sem| && IsPid(p) && p !in Abs().free && p !in Abs().sem[a].q
      requires Spec.CanJoin(Abs(), a, p)
      modifies Frame()
      ensures Valid() && unchanged(`stale, `tree)
      ensures Abs() == old(Abs()).(sem := old(Abs()).sem[a := old(Abs()).sem[a].(q := old(Abs()).sem[a].q + [p])])
    {
      hide Rings, FreeList, Entries, Lists, Contents, AllAwait, TreeRep;
      ghost var t, Q, c := asl.table.proc_table[..], asl.table.Q, asl.cell[..];
      AbsFacts();
      BusyCount();
      var full := asl.InsertBlocked(a, p);
      ghost var l: Link :| l.next == p && asl.table.Q == Q[1 + a := OfSem(Q, a) + [l]];
      ProcsAppend(OfSem(Q, a), l);
      assert c[a := c[a]] == c;
      SemsUpdate(c, Q, a, c[a], OfSem(Q, a) + [l]);
      TreeFrame(t, asl.table.proc_table[..], tree, stale);
    }

    // LOCK on the semaphore at address a by p.
    method LockSem(a: int, p: int) returns (blocked: bool)
      requires Valid() && 0 <= a < |Abs().sem| && IsPid(p) && p !in Abs().free && p !in Abs().sem[a].q
      requires Abs().sem[a].val <= 0 ==> Spec.CanJoin(Abs(), a, p)
      modifies Frame()
      ensures Valid() && unchanged(`stale, `tree) && Abs() == Spec.Lock(old(Abs()), a, p)
      ensures blocked <==> old(Abs()).sem[a].val <= 0
    {
      hide Valid, Queued, Abs;
      ghost var s := Abs();
      blocked := Lower(a);
      if blocked {
        assert Spec.Busy(Abs()) == Spec.Busy(s) && Spec.WaitsFor(Abs(), p) == Spec.WaitsFor(s, p);
        Join(a, p);
      }
    }

    // The part of UNLOCK that changes the semaphore; removed is the first waiter, if any.
    method Raise(a: int) returns (removed: int)
      requires Valid() && 0 <= a < |Abs().sem|
      modifies Frame()
      ensures Valid() && unchanged(`stale, `tree)
      ensures Abs() == old(Abs()).(sem := old(Abs()).sem[a := V(old(Abs()).sem[a])])
      ensures removed == if old(Abs()).sem[a].val < 0 then First(old(Abs()).sem[a].q) else ENULL
    {
      hide Rings, FreeList, Entries, Lists, Contents, AllAwait, TreeRep;
      ghost var t, Q, c := asl.table.proc_table[..], asl.table.Q, asl.cell[..];
      ghost var q := OfSem(Q, a);
      asl.cell[a] := asl.cell[a] + 1;
      removed := ENULL;
      if asl.cell[a] <= 0 {
        removed := asl.RemoveBlocked(a);
        TreeFrame(t, asl.table.proc_table[..], tree, stale);
      }
      ghost var q' := if c[a] < 0 && q != [] then q[1..] else q;
      assert Procs(q') == if c[a] < 0 && q != [] then Procs(q)[1..] else Procs(q);
      assert Q[1 + a := q] == Q;
      SemsUpdate(c, Q, a, c[a] + 1, q');
    }

    // UNLOCK on the semaphore at address a.
    method UnlockSem(a: int)
      requires Valid() && 0 <= a < |Abs().sem| && (Abs().sem[a].q != [] ==> IsPid(Abs().sem[a].q[0]))
      modifies Frame()
      ensures Valid() && unchanged(`stale, `tree) && Abs() == Spec.Unlock(old(Abs()), a)
    {
      hide Rings, FreeList, Entries, Lists, Contents, AllAwait, TreeRep;
      ghost var s := Abs();
      if s.sem[a].q != [] {
        assert a in Spec.WaitsFor(s, s.sem[a].q[0]);
        HeldNotFree(s.sem[a].q[0]);
      }
      var removed := Raise(a);
      if removed != ENULL {
        var idle := IsIdle(removed);
        if idle {
          EnterRun(removed);
        }
      }
    }

    // The test qcount == 0.
    method IsIdle(p: int) returns (idle: bool)
      requires Valid() && IsPid(p) && p !in Abs().free
      ensures idle <==> Spec.Idle(Abs(), p)
    {
      AbsFacts();
      assert Entry(asl.table.proc_table[..], asl.table.Q, asl.table.free, p);
      idle := asl.table.proc_table[p].qcount == 0;
      assert |Spec.WaitsFor(Abs(), p)| == 0 <==> Spec.WaitsFor(Abs(), p) == {};
    }

    lemma Prefix(ops: seq<Spec.Vpop>, i: nat)
      requires i < |ops|
      ensures ops[..i + 1][..i] == ops[..i] && ops[..i + 1][i] == ops[i]
    {
    }

    // Every LOCK of the batch that blocks finds a link slot and a descriptor.
    ghost predicate Fits(s: Spec.State, p: int, ops: seq<Spec.Vpop>)
      requires Spec.Addressed(s, ops)
    {
      forall i | 0 <= i < |ops| && Spec.BlocksAt(s, p, ops, i) ::
        Spec.CanJoin(Spec.Ops(s, p, ops[..i]), ops[i].sem, p)
    }

    // Operation i of the batch ops that cur issued in state s.
    method SemOpStep(cur: int, ops: seq<Spec.Vpop>, i: nat, ghost s: Spec.State) returns (blocked: bool)
      requires Invariant.Inv(s) && s.run != [] && cur == s.run[0] && i < |ops|
      requires Invariant.Distinct(ops) && Invariant.UserOps(s, ops) && Fits(s, cur, ops)
      requires Valid() && Abs() == Spec.Ops(s, cur, ops[..i])
      modifies Frame()
      ensures Valid() && unchanged(`stale, `tree) && Abs() == Spec.Ops(s, cur, ops[..i + 1])
      ensures blocked <==> Spec.BlocksAt(s, cur, ops, i)
    {
      hide Valid, Abs, Invariant.Inv, Spec.Unlock, Spec.CanJoin;
      BatchStep(s, cur, ops, i);
      Prefix(ops, i);
      blocked := false;
      if ops[i].op == LOCK {
        blocked := LockSem(ops[i].sem, cur);
      } else {
        UnlockSem(ops[i].sem);
      }
    }

    // Sem_OP
    method SemOp(ops: seq<Spec.Vpop>)
      requires Valid() && Invariant.Inv(Abs()) && Abs().run != []
      requires Invariant.Distinct(ops) && Invariant.UserOps(Abs(), ops) && Fits(Abs(), Abs().run[0], ops)
      modifies Frame()
      ensures Valid() && unchanged(`stale, `tree) && Abs() == Spec.SemOp(old(Abs()), ops)
    {
      hide Valid, Abs, Invariant.Inv, Spec.Ops, Fits, Spec.BlocksAt;
      ghost var s := Abs();
      var cur := HeadRun();
      var flag := false;
      var i := 0;
      NoOps(s, cur, ops);
      while i < |ops|
        invariant 0 <= i <= |ops| && Valid() && unchanged(`stale, `tree)
        invariant Abs() == Spec.Ops(s, cur, ops[..i])
        invariant flag <==> Spec.Blocks(s, cur, ops, i)
      {
        var blocked := SemOpStep(cur, ops, i, s);
        flag := flag || blocked;
        i := i + 1;
      }
      assert ops[..|ops|] == ops;
      Invariant.OpsBut(s, cur, ops);
      if flag {
        var _ := LeaveRun();
      }
    }

    lemma NoOps(s: Spec.State, p: int, ops: seq<Spec.Vpop>)
      ensures Spec.Ops(s, p, ops[..0]) == s
    {
    }

    // What LockSem and UnlockSem need of the state before operation i of a batch.
    lemma BatchStep(s: Spec.State, p: int, ops: seq<Spec.Vpop>, i: nat)
      requires Invariant.Inv(s) && s.run != [] && p == s.run[0] && i < |ops|
      requires Invariant.Distinct(ops) && Invariant.UserOps(s, ops)
      ensures var s1, a := Spec.Ops(s, p, ops[..i]), ops[i].sem;
              && IsPid(p) && p !in s1.free && p !in s1.sem[a].q
              && (s1.sem[a].q != [] ==> IsPid(s1.sem[a].q[0]))
    {
      Invariant.OpsBut(s, p, ops[..i]);
      Invariant.OpsSem(s, p, ops[..i]);
      var a := ops[i].sem;
      assert Spec.Ops(s, p, ops[..i]).sem[a] == s.sem[a];
      assert p in s.run && Invariant.Placed(s, p);
      assert a !in Spec.WaitsFor(s, p);
      assert s.sem[a].q != [] ==> s.sem[a].q[0] in s.sem[a].q;
    }

    // intsemop(sem, LOCK)
    method IntLock(a: int)
      requires Valid() && Abs().run != [] && 0 <= a < |Abs().sem|
      requires Invariant.Inv(Abs()) && (Abs().sem[a].val <= 0 ==> Spec.CanWait(Abs(), a))
      modifies Frame()
      ensures Valid() && unchanged(`stale, `tree) && Abs() == Spec.Wait(old(Abs()), a)
    {
      hide Valid, Abs, Invariant.Inv, Spec.CanWait, Spec.CanJoin;
      ghost var s := Abs();
      WaiterFacts(s, a);
      var negative := Lower(a);
      if negative {
        var removed := LeaveRun();
        Join(a, removed);
      }
    }

    // The head of the running queue can join the queue of address a once it has left.
    lemma WaiterFacts(s: Spec.State, a: int)
      requires Invariant.Inv(s) && s.run != [] && 0 <= a < |s.sem|
      requires s.sem[a].val <= 0 ==> Spec.CanWait(s, a)
      ensures var p := s.run[0]; IsPid(p) && p !in s.free && p !in s.sem[a].q
      ensures var s1 := s.(sem := s.sem[a := s.sem[a].(val := s.sem[a].val - 1)], run := s.run[1..]);
              s.sem[a].val <= 0 ==> Spec.CanJoin(s1, a, s.run[0])
    {
      var p := s.run[0];
      var s1 := s.(sem := s.sem[a := s.sem[a].(val := s.sem[a].val - 1)], run := s.run[1..]);
      assert p in s.run && s.run == [p] + s.run[1..] && Invariant.Placed(s, p);
      assert Spec.Busy(s1) == Spec.Busy(s) && Spec.WaitsFor(s1, p) == Spec.WaitsFor(s, p);
      assert a !in Spec.WaitsFor(s, p);
    }

    method WaitForPclock()
      requires Valid() && Invariant.Inv(Abs()) && Abs().run != []
      requires Spec.CanWait(Abs(), Spec.CLOCK)
      modifies Frame()
      ensures Valid() && unchanged(`stale, `tree) && Abs() == Spec.WaitClock(old(Abs()))
    {
      IntLock(Spec.CLOCK);
    }

    // The word of a semaphore.
    method Value(a: int) returns (v: int)
      requires Valid() && 0 <= a < |Abs().sem|
      ensures v == Abs().sem[a].val
    {
      v := asl.cell[a];
    }

    method SetValue(a: int, v: int)
      requires Valid() && 0 <= a < |Abs().sem|
      modifies Frame()
      ensures Valid() && unchanged(`stale, `tree)
      ensures Abs() == old(Abs()).(sem := old(Abs()).sem[a := old(Abs()).sem[a].(val := v)])
    {
      hide Rings, FreeList, Entries, Lists, Contents, AllAwait, TreeRep;
      ghost var Q, c := asl.table.Q, asl.cell[..];
      asl.cell[a] := v;
      assert Q[1 + a := OfSem(Q, a)] == Q;
      SemsUpdate(c, Q, a, v, OfSem(Q, a));
    }

    method GetSaved(dev: int) returns (r: Regs)
      requires Valid() && 0 <= dev < Spec.NDEV
      ensures r == Abs().save[dev]
    {
      r := save_arr[dev];
    }

    method SetSaved(dev: int, r: Regs)
      requires Valid() && 0 <= dev < Spec.NDEV
      modifies Frame()
      ensures Valid() && unchanged(`stale, `tree) && Abs() == old(Abs()).(save := old(Abs()).save[dev := r])
    {
      hide Rings, FreeList, Entries, Lists, Contents, AllAwait, TreeRep;
      save_arr[dev] := r;
    }

    method WaitForIo(dev: int)
      requires Valid() && Ready(Abs(), Invariant.EWaitIo(dev)) && Room(Abs(), dev)
      modifies Frame()
      ensures Valid() && unchanged(`stale, `tree)
      ensures Abs() == Following(old(Abs()), Invariant.EWaitIo(dev))
    {
      hide Valid, Abs, Ready, Room, Following, Invariant.Inv, Spec.CanWait, Spec.Wait;
      WaitIoFacts(Abs(), dev);
      var v := Value(dev);
      if v == 1 {
        SetValue(dev, 0);
        var r := GetSaved(dev);
        var head := HeadRun();
        SetRegs(head, r);
      } else {
        IntLock(dev);
      }
    }

    // The first process waiting at address a.
    method HeadBlocked(a: int) returns (p: int)
      requires Valid() && 0 <= a < |Abs().sem|
      ensures p == First(Abs().sem[a].q)
    {
      p := asl.HeadBlocked(a, ENULL);
    }

    // inthandler, for the device at position dev with amount and status r
    method IntHandler(dev: int, r: Regs)
      requires Valid() && Ready(Abs(), Invariant.EDevInt(dev, r))
      modifies Frame()
      ensures Valid() && unchanged(`stale, `tree)
      ensures Abs() == Following(old(Abs()), Invariant.EDevInt(dev, r))
    {
      hide Valid, Abs, Ready, Following, Spec.Unlock;
      DevIntFacts(Abs(), dev, r);
      var v := Value(dev);
      if v == -1 {
        var block_dev := HeadBlocked(dev);
        SetRegs(block_dev, r);
        UnlockSem(dev);
      } else {
        SetValue(dev, v + 1);
        SetSaved(dev, r);
      }
    }

    method SetClockCount(v: int)
      requires Valid()
      modifies Frame()
      ensures Valid() && unchanged(`stale, `tree) && Abs() == old(Abs()).(clock_count := v)
    {
      hide Rings, FreeList, Entries, Lists, Contents, AllAwait, TreeRep;
      clock_count := v;
    }

    method GetClockCount() returns (v: int)
      requires Valid()
      ensures v == Abs().clock_count
    {
      v := clock_count;
    }

    // The head of the running queue goes to its end.
    method Rotate()
      requires Valid()
      requires Abs().run != [] ==>
                 var p := Abs().run[0];
                 IsPid(p) && p !in Abs().run[1..] && p !in Abs().free && Spec.WaitsFor(Abs(), p) == {}
      modifies Frame()
      ensures Valid() && unchanged(`stale, `tree)
      ensures var run := old(Abs()).run;
              Abs() == old(Abs()).(run := if run == [] then [] else run[1..] + [run[0]])
    {
      hide Valid, Abs;
      ghost var s := Abs();
      var head := HeadRun();
      if head != ENULL {
        var removed := LeaveRun();
        assert Spec.WaitsFor(Abs(), removed) == Spec.WaitsFor(s, removed);
        EnterRun(removed);
      }
    }

    // intclockhandler
    method ClockHandler()
      requires Valid() && Invariant.Inv(Abs())
      modifies Frame()
      ensures Valid() && unchanged(`stale, `tree) && Abs() == Spec.Tick(old(Abs()))
    {
      hide Valid, Abs;
      ghost var s := Abs();
      RotationFacts(s);
      hide Invariant.Inv, Spec.Unlock;
      var count := GetClockCount();
      SetClockCount(count + Spec.QUANTUM);
      Rotate();
      count := GetClockCount();
      if count >= Spec.CLOCK_PERIOD {
        SetClockCount(0);
        var waiter := HeadBlocked(Spec.CLOCK);
        if waiter != ENULL {
          UnlockSem(Spec.CLOCK);
        }
      }
    }

    lemma RotationFacts(s: Spec.State)
      requires Invariant.Inv(s)
      ensures |s.sem| > Spec.CLOCK
      ensures s.sem[Spec.CLOCK].q != [] ==> IsPid(s.sem[Spec.CLOCK].q[0])
      ensures s.run != [] ==> IsPid(s.run[0]) && s.run[0] !in s.run[1..] && s.run[0] !in s.free
      ensures forall c :: s.run != [] ==> Spec.WaitsFor(s.(clock_count := c), s.run[0]) == {}
    {
      if s.run != [] {
        assert s.run[0] in s.run && Invariant.Placed(s, s.run[0]);
        forall c ensures Spec.WaitsFor(s.(clock_count := c), s.run[0]) == {} {
          assert Spec.WaitsFor(s.(clock_count := c), s.run[0]) == Spec.WaitsFor(s, s.run[0]);
        }
      }
      var q := s.sem[Spec.CLOCK].q;
      assert q != [] ==> q[0] in q;
    }

    // schedule and intdeadlock
    method Schedule() returns (v: Spec.Verdict)
      requires Valid() && Spec.Sized(Abs())
      ensures v == Spec.Schedule(Abs())
    {
      hide Rings, FreeList, Entries, Lists, Contents, AllAwait, TreeRep;
      ghost var s := Abs();
      assert s.run != [] ==> s.run[0] in s.run;
      var cur := HeadRun();
      if cur != ENULL {
        return Spec.Dispatch(cur);
      }
      var dev_block := false;
      var i := 0;
      while i < Spec.NDEV
        invariant 0 <= i <= Spec.NDEV && Valid() && Abs() == s
        invariant dev_block <==> exists d :: 0 <= d < i && s.sem[d].q != []
      {
        var p := HeadBlocked(i);
        assert s.sem[i].q != [] ==> s.sem[i].q[0] in s.sem[i].q && IsPid(s.sem[i].q[0]);
        dev_block := dev_block || p != ENULL;
        i := i + 1;
      }
      var waiter := HeadBlocked(Spec.CLOCK);
      assert s.sem[Spec.CLOCK].q != [] ==>
               s.sem[Spec.CLOCK].q[0] in s.sem[Spec.CLOCK].q && IsPid(s.sem[Spec.CLOCK].q[0]);
      var some := HeadAsl();
      return if waiter != ENULL then Spec.SleepTimed
             else if dev_block then Spec.SleepDevice
             else if !some then Spec.Normal
             else Spec.Deadlock;
    }

    method HeadAsl() returns (some: bool)
      requires Valid()
      ensures some <==> exists a :: 0 <= a < |Abs().sem| && Abs().sem[a].q != []
    {
      some := asl.HeadASL();
      if some {
        ghost var a: nat :| a < asl.cell.Length && asl.Waiting(a) != [];
        assert Abs().sem[a].q != [];
      } else {
        forall a | 0 <= a < |Abs().sem| ensures Abs().sem[a].q == [] { assert asl.Waiting(a) == []; }
      }
    }

    // Tree fields of an entry; nothing else changes.
    method SetLinks(p: int, child: int, brother: int, parent: int)
      requires Queued() && IsPid(p)
      modifies asl.table.proc_table
      ensures Queued()
      ensures var e := old(asl.table.proc_table[p]).(child := child, brother := brother, parent := parent);
              asl.table.proc_table[..] == old(asl.table.proc_table[..])[p := e]
    {
      hide Rings, FreeList, Entries, Lists, Contents, AllAwait;
      asl.WriteEntry(p, asl.table.proc_table[p].(child := child, brother := brother, parent := parent));
    }

    // The links of n as the last child of cur.
    method Hang(cur: int, n: int, ghost t: seq<Proc>)
      requires Queued() && t == asl.table.proc_table[..] && TreeRep(t, tree, {}) && IsPid(cur) && IsPid(n) && cur != n
      requires IsPid(Final(tree, cur))
      modifies asl.table.proc_table
      ensures Queued() && asl.table.proc_table[..] == Hung(t, cur, n, Final(tree, cur))
    {
      hide Queued;
      FinalFacts(t, tree, cur);
      var e := asl.table.proc_table[cur];
      if e.child == ENULL {
        SetLinks(cur, n, e.brother, e.parent);
      } else {
        HangLast(e.child, cur, n, t);
      }
      ghost var t1 := asl.table.proc_table[..];
      assert t1 == HungFirst(t, cur, n, Final(tree, cur));
      hide HungFirst, TreeRep;
      var f := asl.table.proc_table[n];
      SetLinks(n, f.child, f.brother, cur);
    }

    // The last child of cur, reached from the first child c, gets the brother n.
    method HangLast(c: int, cur: int, n: int, ghost t: seq<Proc>)
      requires Queued() && t == asl.table.proc_table[..] && TreeRep(t, tree, {}) && IsPid(cur)
      requires tree.kids[cur] != [] && c == tree.kids[cur][0]
      modifies asl.table.proc_table
      ensures Queued() && IsPid(Final(tree, cur))
      ensures asl.table.proc_table[..] ==
              t[Final(tree, cur) := t[Final(tree, cur)].(brother := n, parent := ENULL)]
    {
      hide Queued;
      FinalFacts(t, tree, cur);
      var last := LastSibling(c, cur, 0, {});
      var l := asl.table.proc_table[last];
      SetLinks(last, l.child, n, ENULL);
    }

    // The tree part of Create_Process: n becomes the last child of cur.
    method AppendChild(cur: int, n: int)
      requires Valid() && stale == {} && IsPid(cur) && IsPid(n) && cur != n
      requires tree.kids[n] == [] && !IsKid(tree, n)
      modifies this`tree, asl.table.proc_table
      ensures Valid() && tree == Grow(old(tree), cur, n)
      ensures Abs() == old(Abs()).(tree := tree)
    {
      hide Queued, TreeRep, Hung, Grow, IsKid, Rings, FreeList, Entries, Lists, Contents, AllAwait;
      ghost var t := asl.table.proc_table[..];
      HungRep(t, tree, cur, n);
      Hang(cur, n, t);
      tree := Grow(tree, cur, n);
    }

    // From the k-th child c of p to the last one, the only one that points to its parent.
    method LastSibling(c: int, ghost p: int, ghost k: nat, ghost x: set<int>) returns (last: int)
      requires asl.table.proc_table.Length == MAXPROC && TreeRep(asl.table.proc_table[..], tree, x)
      requires IsPid(p) && k < |tree.kids[p]| && c == tree.kids[p][k]
      ensures last == tree.kids[p][|tree.kids[p]| - 1] && IsPid(last) && asl.table.proc_table[last].parent == p
    {
      last := c;
      ghost var j := k;
      assert KidAt(asl.table.proc_table[..], tree, p, j);
      while asl.table.proc_table[last].parent == ENULL
        invariant 0 <= j < |tree.kids[p]| && last == tree.kids[p][j] && KidAt(asl.table.proc_table[..], tree, p, j)
        decreases |tree.kids[p]| - j
      {
        assert KidAt(asl.table.proc_table[..], tree, p, j + 1);
        last, j := asl.table.proc_table[last].brother, j + 1;
      }
    }

    method GetRegs(p: int) returns (r: Regs)
      requires Valid() && IsPid(p)
      ensures r == Abs().regs[p]
    {
      r := asl.table.proc_table[p].regs;
    }

    // Create_Process
    method CreateProcess(init: Regs)
      requires Valid() && stale == {} && Invariant.Inv(Abs()) && Abs().run != []
      modifies Frame()
      ensures Valid() && stale == {} && Abs() == Spec.Create(old(Abs()), init)
    {
      hide Valid, Abs, Invariant.Inv, Grow, IsKid;
      ghost var s := Abs();
      CreateFacts();
      var fork := Alloc();
      var cur := HeadRun();
      var r := GetRegs(cur);
      if fork == ENULL {
        SetRegs(cur, r.(r2 := -1));
      } else {
        SetRegs(fork, init);
        r := GetRegs(cur);
        AppendChild(cur, fork);
        assert Spec.WaitsFor(Abs(), fork) == Spec.WaitsFor(s, fork);
        EnterRun(fork);
        SetRegs(cur, r.(r2 := 0));
      }
    }

    lemma CreateFacts()
      requires Valid() && Invariant.Inv(Abs()) && Abs().run != []
      ensures var s := Abs();
              && WfTree(s.tree) && s.tree == tree && IsPid(s.run[0])
              && (s.free != [] ==>
                    var n := s.free[0];
                    && IsPid(n) && n != s.run[0] && n !in s.free[1..] && Spec.Idle(s, n)
                    && s.tree.kids[n] == [] && !IsKid(s.tree, n))
    {
      var s := Abs();
      assert s.run[0] in s.run && Invariant.Placed(s, s.run[0]);
      if s.free != [] {
        assert s.free[0] in s.free && Invariant.Placed(s, s.free[0]);
        assert tree.par[s.free[0]] == ENULL;
      }
    }

    // outProc(&running_queue, p)
    method OutRun(p: int)
      requires Valid() && IsPid(p)
      modifies Frame()
      ensures Valid() && unchanged(`stale, `tree)
      ensures Abs() == old(Abs()).(run := Without(old(Abs()).run, {p}))
    {
      hide Rings, FreeList, Entries, Lists, Contents, AllAwait, TreeRep;
      ghost var t, Q := asl.table.proc_table[..], asl.table.Q;
      running_queue := asl.OutRun(running_queue, p);
      SemsRun(asl.cell[..], Q, asl.table.Q[RUN]);
      TreeFrame(t, asl.table.proc_table[..], tree, stale);
    }

    // outBlocked(p)
    method OutBlocked(p: int) returns (rv: int)
      requires Valid() && IsPid(p)
      modifies Frame()
      ensures Valid() && unchanged(`stale, `tree)
      ensures Abs() == old(Abs()).(sem := Spec.Dropped(old(Abs()).sem, {p}))
      ensures rv == if Spec.WaitsFor(old(Abs()), p) == {} then ENULL else p
    {
      hide Rings, FreeList, Entries, Lists, Contents, AllAwait, TreeRep;
      ghost var t, Q, s := asl.table.proc_table[..], asl.table.Q, Abs();
      AbsFacts();
      QueuesNoDup();
      rv := asl.OutBlocked(p);
      TreeFrame(t, asl.table.proc_table[..], tree, stale);
      forall a | 0 <= a < |s.sem| ensures Abs().sem[a] == Drop(s.sem[a], {p}) {
        DropOne(s.sem[a], p);
      }
      assert Abs().sem == Spec.Dropped(s.sem, {p});
    }

    lemma QueuesNoDup()
      requires Valid()
      ensures forall a | 0 <= a < |Abs().sem| :: NoDup(Abs().sem[a].q)
    {
      forall a | 0 <= a < |Abs().sem| ensures NoDup(Abs().sem[a].q) {
        RingNoDup(asl.table.proc_table[..], asl.table.Q[1 + a]);
      }
    }

    // From the first child of p to the one whose brother is c, the child at position k.
    method Predecessor(first: int, c: int, ghost p: int, ghost k: nat, ghost x: set<int>) returns (prev: int)
      requires asl.table.proc_table.Length == MAXPROC && TreeRep(asl.table.proc_table[..], tree, x)
      requires IsPid(p) && 0 < k < |tree.kids[p]| && first == tree.kids[p][0] && c == tree.kids[p][k]
      ensures prev == tree.kids[p][k - 1] && IsPid(prev)
    {
      prev := first;
      ghost var j := 0;
      assert KidAt(asl.table.proc_table[..], tree, p, 0);
      while asl.table.proc_table[prev].brother != c
        invariant 0 <= j < k && prev == tree.kids[p][j] && KidAt(asl.table.proc_table[..], tree, p, j)
        decreases k - j
      {
        assert KidAt(asl.table.proc_table[..], tree, p, j + 1);
        prev, j := asl.table.proc_table[prev].brother, j + 1;
      }
      assert KidAt(asl.table.proc_table[..], tree, p, k);
      NextUnique(tree.kids[p], j, k);
    }

    lemma NextUnique(s: seq<int>, j: nat, k: nat)
      requires NoDup(s) && j < |s| && 0 < k < |s| && After(s, j) == s[k] && s[k] >= 0
      ensures j == k - 1
    {
    }

    // The links of the parent p, or of the brother before, when the child cur at position k goes.
    method Bypass(cur: int, p: int, ghost k: nat, ghost t: seq<Proc>)
      requires Queued() && t == asl.table.proc_table[..] && TreeRep(t, tree, {}) && KidPos(tree, p, k, cur)
      requires IsPid(Prev(tree.kids[p], k)) == (k > 0)
      modifies asl.table.proc_table
      ensures Queued() && asl.table.proc_table[..] == CutFirst(t, tree, p, k)
    {
      hide Queued;
      CutTable(t, tree, p, k, cur);
      var e, f := asl.table.proc_table[cur], asl.table.proc_table[p];
      if f.child == cur {
        assert k == 0 by { KidUnique(tree, p, 0, p, k); }
        SetLinks(p, e.brother, f.brother, f.parent);
      } else {
        var prev := Predecessor(f.child, cur, p, k, {});
        var g := asl.table.proc_table[prev];
        SetLinks(prev, g.child, e.brother, if e.brother == ENULL then e.parent else g.parent);
      }
    }

    // The parent of cur, found at the last of its brothers.
    method ParentOf(cur: int) returns (p: int)
      requires asl.table.proc_table.Length == MAXPROC
      requires TreeRep(asl.table.proc_table[..], tree, {}) && Closed(tree) && IsPid(cur)
      ensures p == tree.par[cur]
    {
      ParentFacts(asl.table.proc_table[..], cur);
      var e := asl.table.proc_table[cur];
      p := e.parent;
      if e.brother != ENULL {
        ghost var q := tree.par[cur];
        ghost var k :| 0 <= k < |tree.kids[q]| && tree.kids[q][k] == cur;
        assert KidAt(asl.table.proc_table[..], tree, q, k);
        var last := LastSibling(e.brother, q, k + 1, {});
        p := asl.table.proc_table[last].parent;
      }
    }

    lemma ParentFacts(t: seq<Proc>, cur: int)
      requires TreeRep(t, tree, {}) && Closed(tree) && IsPid(cur)
      ensures tree.par[cur] == ENULL ==> t[cur].parent == ENULL && t[cur].brother == ENULL
      ensures tree.par[cur] != ENULL ==>
                && IsPid(tree.par[cur]) && cur in tree.kids[tree.par[cur]]
                && (t[cur].brother == ENULL ==> t[cur].parent == tree.par[cur])
    {
      if tree.par[cur] == ENULL {
        assert !IsKid(tree, cur);
        assert RootLinks(t[cur]);
      } else {
        var p := tree.par[cur];
        var k :| 0 <= k < |tree.kids[p]| && tree.kids[p][k] == cur;
        assert KidAt(t, tree, p, k) && (k + 1 < |tree.kids[p]| ==> KidAt(t, tree, p, k + 1));
      }
    }

    // The tree part of Terminate_Process: cur is taken out of its parent's children.
    method Detach(cur: int)
      requires Valid() && stale == {} && IsPid(cur) && Closed(tree)
      modifies this`tree, asl.table.proc_table
      ensures Valid() && tree == Cut(old(tree), cur)
      ensures Abs() == old(Abs()).(tree := tree)
    {
      hide Queued, TreeRep, Closed, Cut, CutFirst, Rings, FreeList, Entries, Lists, Contents, AllAwait;
      ghost var t := asl.table.proc_table[..];
      TableSize();
      ParentFacts(t, cur);
      var p := ParentOf(cur);
      if p == ENULL {
        RootUncut(cur);
      } else {
        ghost var k :| 0 <= k < |tree.kids[p]| && tree.kids[p][k] == cur;
        CutTable(t, tree, p, k, cur);
        Bypass(cur, p, k, t);
        var e := asl.table.proc_table[cur];
        SetLinks(cur, e.child, ENULL, ENULL);
      }
      tree := Cut(tree, cur);
    }

    lemma TableSize()
      requires Valid()
      ensures asl.table.proc_table.Length == MAXPROC && WfTree(tree)
    {
    }

    lemma RootUncut(cur: int)
      requires Closed(tree) && IsPid(cur) && tree.par[cur] == ENULL
      ensures Cut(tree, cur) == tree
    {
      forall q | IsPid(q) ensures Without(tree.kids[q], {cur}) == tree.kids[q] {
        assert cur !in tree.kids[q];
        WithoutNone(tree.kids[q], {cur});
      }
      assert Cut(tree, cur).kids == tree.kids;
    }

    // outBlocked, or else outProc on the running queue.
    method Out(c: int)
      requires Valid() && IsPid(c) && Invariant.Live(Abs(), c)
      modifies Frame()
      ensures Valid() && unchanged(`stale, `tree) && Abs() == Spec.Gone(old(Abs()), {c}, [])
    {
      hide Valid, Abs, Invariant.Live, Spec.Gone, Spec.Dropped;
      Invariant.OutIsGone(Abs(), c);
      var removed := OutBlocked(c);
      if removed == ENULL {
        OutRun(c);
      }
    }

    // The child link of a process that is not being taken apart.
    method ChildOf(c: int) returns (ch: int)
      requires Valid() && IsPid(c) && c !in stale
      ensures ch == First(tree.kids[c]) && (ch == ENULL <==> tree.kids[c] == [])
    {
      ch := asl.table.proc_table[c].child;
      if tree.kids[c] != [] { assert KidAt(asl.table.proc_table[..], tree, c, 0); }
    }

    // One round of check_sibling: c and its descendants are freed.
    method KillOne(c: int)
      requires Valid() && IsPid(c) && Invariant.Killable(Abs(), Victims(tree, c), stale)
      modifies Frame()
      ensures Valid() && stale == old(stale)
      ensures tree == Clear(old(tree), Elements(Victims(old(tree), c)))
      ensures Abs() == Spec.Gone(old(Abs()), Elements(Victims(old(tree), c)), Victims(old(tree), c)).(tree := tree)
      decreases Top(tree.depth) + 1 - tree.depth[c], 1
    {
      hide Valid, Abs, Invariant.Live, Spec.Gone, Elements, Clear, Invariant.Killable, Post;
      ghost var s, t := Abs(), tree;
      TableSize();
      TreeOfAbs();
      Invariant.KillStart(s, t, c, stale);
      Out(c);
      TreeOfAbs();
      var ch := ChildOf(c);
      if ch != ENULL {
        CheckSibling(c);
      }
      Invariant.KillEnd(s, t, c, tree);
      Free(c);
    }

    lemma TreeOfAbs()
      requires Valid()
      ensures Abs().tree == tree
    {
    }

    // check_sibling in progress: the first k children of cur and their descendants are gone.
    ghost predicate Killing(s: Spec.State, t: Tree, cur: int, k: nat, x: set<int>)
      reads Frame()
    {
      && Valid() && WfTree(t) && IsPid(cur) && k < |t.kids[cur]|
      && Invariant.Killable(s, Below(t, cur), x) && stale == x + {cur} && tree == Stage(t, cur, k)
      && Abs() == Spec.Gone(s, Elements(Earlier(t, cur, k)), Earlier(t, cur, k)).(tree := tree)
    }

    // check_sibling: all proper descendants of cur are freed.
    method CheckSibling(cur: int)
      requires Valid() && IsPid(cur) && cur !in stale && tree.kids[cur] != []
      requires Invariant.Killable(Abs(), Below(tree, cur), stale)
      modifies Frame()
      ensures Valid() && stale == old(stale)
      ensures tree == Clear(old(tree), Elements(Below(old(tree), cur)) + {cur})
      ensures Abs() == Spec.Gone(old(Abs()), Elements(Below(old(tree), cur)), Below(old(tree), cur)).(tree := tree)
      decreases Top(tree.depth) + 1 - tree.depth[cur], 0
    {
      hide Valid, Abs, Invariant.Live, Spec.Gone, Elements, Clear, Invariant.Killable, Post, Stage, Killing;
      TableSize();
      ghost var s, t, x := Abs(), tree, stale;
      ghost var ks := t.kids[cur];
      var first_child := ChildOf(cur);
      BeginKilling(cur);
      ghost var k := 0;
      var tmp := NextBrother(cur, first_child, s, t, k, x);
      while tmp != ENULL
        invariant 0 <= k < |ks| && first_child == ks[k] && Killing(s, t, cur, k, x) && tmp == After(ks, k)
        decreases |ks| - k
      {
        StageAt(t, cur, k);
        NextChild(cur, first_child, s, t, k, x);
        first_child, k := tmp, k + 1;
        tmp := NextBrother(cur, first_child, s, t, k, x);
      }
      StageAt(t, cur, k);
      LastChild(cur, first_child, s, t, k, x);
    }

    ghost method BeginKilling(cur: int)
      requires Valid() && IsPid(cur) && WfTree(tree) && tree.kids[cur] != []
      requires Invariant.Killable(Abs(), Below(tree, cur), stale)
      modifies this`stale
      ensures Killing(old(Abs()), tree, cur, 0, old(stale))
    {
      hide Valid, Abs, Invariant.Live, Spec.Gone, Elements, Clear, Invariant.Killable, Post, Stage;
      StageStart(tree, cur);
      Invariant.GoneNone(Abs());
      TreeOfAbs();
      assert Elements([]) == {} by { ElementsNone(); }
      MarkStale(cur);
    }

    // The brother of the child that is now the first one.
    method NextBrother(cur: int, c: int, ghost s: Spec.State, ghost t: Tree, ghost k: nat, ghost x: set<int>)
        returns (b: int)
      requires Killing(s, t, cur, k, x) && IsPid(cur) && WfTree(t) && k < |t.kids[cur]| && c == t.kids[cur][k]
      ensures b == After(t.kids[cur], k)
    {
      StageAt(t, cur, k);
      hide Valid, Abs, Spec.Gone, Elements, Invariant.Killable, Stage;
      b := BrotherOf(cur, c);
    }

    lemma ElementsNone()
      ensures Elements([]) == {}
    {
    }

    ghost method MarkStale(cur: int)
      requires Valid()
      modifies this`stale
      ensures Valid() && stale == old(stale) + {cur} && Abs() == old(Abs())
    {
      stale := stale + {cur};
    }

    method BrotherOf(cur: int, c: int) returns (b: int)
      requires Valid() && IsPid(cur) && tree.kids[cur] != [] && c == tree.kids[cur][0]
      ensures b == After(tree.kids[cur], 0)
    {
      assert KidAt(asl.table.proc_table[..], tree, cur, 0);
      b := asl.table.proc_table[c].brother;
    }

    // cur forgets its first child c, which loses its link to the next one.
    method PopBrother(cur: int, c: int)
      requires Valid() && IsPid(cur) && cur in stale && |tree.kids[cur]| > 1 && c == tree.kids[cur][0]
      modifies this`tree, asl.table.proc_table
      ensures Valid() && tree == old(tree).(kids := old(tree).kids[cur := old(tree).kids[cur][1..]])
      ensures Abs() == old(Abs()).(tree := tree)
    {
      hide Queued, TreeRep, Rings, FreeList, Entries, Lists, Contents, AllAwait;
      ghost var t := asl.table.proc_table[..];
      TableSize();
      PopRep(t, tree, stale, cur);
      var e := asl.table.proc_table[c];
      SetLinks(c, e.child, ENULL, e.parent);
      tree := tree.(kids := tree.kids[cur := tree.kids[cur][1..]]);
    }

    // The last child c of cur loses its parent, and cur its child link.
    method DropLast(cur: int, c: int, ghost x: set<int>)
      requires Valid() && IsPid(cur) && stale == x + {cur}
      requires |tree.kids[cur]| == 1 && c == tree.kids[cur][0] && c != cur
      modifies this`tree, this`stale, asl.table.proc_table
      ensures Valid() && tree == old(tree).(kids := old(tree).kids[cur := []]) && stale == x
      ensures Abs() == old(Abs()).(tree := tree)
    {
      hide Queued, TreeRep, Rings, FreeList, Entries, Lists, Contents, AllAwait;
      ghost var t := asl.table.proc_table[..];
      TableSize();
      LastRep(t, tree, x, cur);
      var e := asl.table.proc_table[c];
      SetLinks(c, e.child, e.brother, ENULL);
      var f := asl.table.proc_table[cur];
      SetLinks(cur, ENULL, f.brother, f.parent);
      tree := tree.(kids := tree.kids[cur := []]);
      stale := x;
    }

    // Child k of cur, named c, and its descendants are freed; those before it are gone.
    method KillChild(c: int, ghost s: Spec.State, ghost t: Tree, ghost cur: int, ghost k: nat, ghost x: set<int>)
      requires WfTree(t) && IsPid(cur) && k < |t.kids[cur]| && c == t.kids[cur][k] && IsPid(c)
      requires Invariant.Killable(s, Below(t, cur), x)
      requires Valid() && stale == x + {cur}
      requires tree == Stage(t, cur, k).(kids := tree.kids) && tree.depth == t.depth
      requires tree.kids == Stage(t, cur, k).kids[cur := tree.kids[cur]]
      requires Abs() == Spec.Gone(s, Elements(Earlier(t, cur, k)), Earlier(t, cur, k)).(tree := tree)
      modifies Frame()
      ensures Valid() && stale == old(stale) && WfTree(tree) && tree.depth == t.depth
      ensures tree.kids[cur] == old(tree).kids[cur]
      ensures tree.(kids := tree.kids[cur := t.kids[cur][k + 1..]]) == Stage(t, cur, k + 1)
      ensures Abs() == Spec.Gone(s, Elements(Earlier(t, cur, k + 1)), Earlier(t, cur, k + 1)).(tree := tree)
      decreases Top(t.depth) + 1 - t.depth[c], 2
    {
      hide Valid, Abs, Invariant.Live, Spec.Gone, Elements, Clear, Invariant.Killable, Post, Stage;
      TableSize();
      StageStep(t, cur, k, tree);
      ghost var u := tree;
      Invariant.ChildKillable(s, t, cur, k, x, u);
      KillOne(c);
      TableSize();
      StageShrunk(t, cur, k + 1);
    }

    // A child with a brother is popped and killed; cur then has the rest of its children.
    method NextChild(cur: int, c: int, ghost s: Spec.State, ghost t: Tree, ghost k: nat, ghost x: set<int>)
      requires Killing(s, t, cur, k, x) && IsPid(cur) && WfTree(t)
      requires k + 1 < |t.kids[cur]| && c == t.kids[cur][k] && IsPid(c)
      modifies Frame()
      ensures Killing(s, t, cur, k + 1, x)
      decreases Top(t.depth) + 1 - t.depth[c], 3
    {
      hide Valid, Abs, Invariant.Live, Spec.Gone, Elements, Clear, Invariant.Killable, Post, Stage;
      StageAt(t, cur, k);
      PopBrother(cur, c);
      KillChild(c, s, t, cur, k, x);
      StageAt(t, cur, k + 1);
      assert tree.kids[cur := tree.kids[cur]] == tree.kids;
    }

    // The last child is killed, and cur loses its link to it.
    method LastChild(cur: int, c: int, ghost s: Spec.State, ghost t: Tree, ghost k: nat, ghost x: set<int>)
      requires Killing(s, t, cur, k, x) && IsPid(cur) && WfTree(t)
      requires k + 1 == |t.kids[cur]| && c == t.kids[cur][k] && IsPid(c)
      modifies Frame()
      ensures Valid() && stale == x && tree == Clear(t, Elements(Below(t, cur)) + {cur})
      ensures Abs() == Spec.Gone(s, Elements(Below(t, cur)), Below(t, cur)).(tree := tree)
      decreases Top(t.depth) + 1 - t.depth[c], 3
    {
      hide Valid, Abs, Invariant.Live, Spec.Gone, Elements, Clear, Invariant.Killable, Post, Stage;
      StageAt(t, cur, k);
      KillChild(c, s, t, cur, k, x);
      DropLast(cur, c, x);
      StageEnd(t, cur);
      assert t.kids[cur][k + 1..] == [];
    }

    // Terminate_Process
    method TerminateProcess()
      requires Valid() && stale == {} && Invariant.Inv(Abs()) && Abs().run != []
      modifies Frame()
      ensures Valid() && stale == {} && Abs() == Spec.Terminate(old(Abs()))
    {
      hide Valid, Abs, Invariant.Live, Spec.Gone, Elements, Clear, Invariant.Killable, Post, Cut, Prune, Closed;
      ghost var s, t := Abs(), tree;
      var cur := HeadRun();
      TreeOfAbs();
      Invariant.VictimsKillable(s);
      CutClearIsPrune(t, cur);
      Detach(cur);
      ghost var u := tree;
      TreeOfAbs();
      Invariant.DetachedKillable(s, u, cur);
      var ch := ChildOf(cur);
      if ch != ENULL {
        CheckSibling(cur);
      } else {
        Invariant.NothingBelow(Abs(), u, cur);
      }
      Invariant.GoneTree(s, Elements(Below(t, cur)), Below(t, cur), u, tree);
      Invariant.TerminateOut(s, t, cur, tree);
      OutRun(cur);
      Free(cur);
      PruneTree(t, cur);
    }

    // A process that e makes wait finds a link slot and a descriptor.
    ghost predicate Roomy(s: Spec.State, e: Invariant.Event)
      requires Ready(s, e)
    {
      match e
      case ESemOp(ops) => Fits(s, s.run[0], ops)
      case EWaitClock => Spec.CanWait(s, Spec.CLOCK)
      case EWaitIo(dev) => Room(s, dev)
      case _ => true
    }

    // trapsyshandler and the interrupt handlers: every entry into the nucleus does to the tables
    // what the state machine does, and leaves a state in which the next one is possible.
    method Handle(e: Invariant.Event)
      requires Valid() && stale == {} && Ready(Abs(), e) && Roomy(Abs(), e)
      modifies Frame()
      ensures Valid() && stale == {} && Abs() == Following(old(Abs()), e) && Invariant.Inv(Abs())
    {
      hide Valid, Abs, Fits, Spec.CanWait, Spec.CanJoin;
      Invariant.StepInv(Abs(), e);
      hide Invariant.Inv;
      match e
      case ECreate(init) => CreateProcess(init);
      case ETerminate => TerminateProcess();
      case ESemOp(ops) => SemOp(ops);
      case EWaitClock => WaitForPclock();
      case EWaitIo(dev) => WaitForIo(dev);
      case ETick => ClockHandler();
      case EDevInt(dev, r) => IntHandler(dev, r);
    }

    // At every event of the run a process that has to wait finds a link slot and a descriptor.
    ghost predicate RoomyRun(s: Spec.State, es: seq<Invariant.Event>)
      requires Invariant.Inv(s) && Theorems.Legal(s, es)
      decreases |es|
    {
      es == [] || (Roomy(s, es[0]) && (Invariant.StepInv(s, es[0]); RoomyRun(Following(s, es[0]), es[1..])))
    }

    // A run of events takes the tables to the state that the state machine reaches, so what
    // is proved of its runs holds of the tables.
    method HandleAll(es: seq<Invariant.Event>)
      requires Valid() && stale == {} && Invariant.Inv(Abs()) && Theorems.Legal(Abs(), es) && RoomyRun(Abs(), es)
      modifies Frame()
      ensures Valid() && stale == {} && Abs() == Theorems.Reached(old(Abs()), es) && Invariant.Inv(Abs())
    {
      hide Valid, Abs, Invariant.Inv, Invariant.Next, Invariant.Enabled, Roomy;
      ghost var s0 := Abs();
      var i := 0;
      while i < |es|
        invariant 0 <= i <= |es| && Valid() && stale == {} && Invariant.Inv(Abs())
        invariant Theorems.Legal(Abs(), es[i..]) && RoomyRun(Abs(), es[i..])
        invariant Theorems.Reached(s0, es) == Theorems.Reached(Abs(), es[i..])
      {
        assert es[i..][0] == es[i] && es[i..][1..] == es[i + 1..];
        Handle(es[i]);
        i := i + 1;
      }
    }

    // A batch with one LOCK, or another call, finds a link slot and a descriptor.
    lemma FindsRoom(s: Spec.State, e: Invariant.Event)
      requires Ready(s, e) && SingleWaits.Narrow(s) && SingleWaits.LocksOne(e) && SEMMAX >= 2
      ensures Roomy(s, e)
    {
      hide SingleWaits.Narrow, Invariant.Queues, Invariant.Devices, Invariant.Forest, Invariant.Placed;
      match e
      case ESemOp(ops) =>
        forall i | 0 <= i < |ops| && Spec.BlocksAt(s, s.run[0], ops, i)
          ensures Spec.CanJoin(Spec.Ops(s, s.run[0], ops[..i]), ops[i].sem, s.run[0])
        {
          SingleWaits.RoomToJoin(s, ops, i);
        }
      case EWaitClock => SingleWaits.RoomToWait(s);
      case EWaitIo(_) => SingleWaits.RoomToWait(s);
      case _ =>
    }

    lemma {:induction false} RunFindsRoom(s: Spec.State, es: seq<Invariant.Event>)
      requires Invariant.Inv(s) && Theorems.Legal(s, es) && SEMMAX >= 2
      requires SingleWaits.Narrow(s) && forall e | e in es :: SingleWaits.LocksOne(e)
      ensures RoomyRun(s, es)
      decreases |es|
    {
      hide Invariant.Inv, Invariant.Next, Invariant.Enabled, Roomy, SingleWaits.Narrow, SingleWaits.LocksOne;
      if es != [] {
        FindsRoom(s, es[0]);
        Invariant.StepInv(s, es[0]);
        SingleWaits.StepNarrow(s, es[0]);
        assert forall e | e in es[1..] :: e in es;
        RunFindsRoom(Following(s, es[0]), es[1..]);
      }
    }

    // With two link slots for each process nothing need be assumed of a run whose batches LOCK
    // at most one semaphore each.
    method HandleSingles(es: seq<Invariant.Event>)
      requires Valid() && stale == {} && Invariant.Inv(Abs()) && Theorems.Legal(Abs(), es) && SEMMAX >= 2
      requires SingleWaits.Narrow(Abs()) && forall e | e in es :: SingleWaits.LocksOne(e)
      modifies Frame()
      ensures Valid() && stale == {} && Abs() == Theorems.Reached(old(Abs()), es) && Invariant.Inv(Abs())
    {
      RunFindsRoom(Abs(), es);
      HandleAll(es);
    }

    // The ghost tree forgets the parents of the freed processes.
    ghost method PruneTree(t: Tree, cur: int)
      requires Valid() && stale == {} && Closed(t) && IsPid(cur)
      requires tree.kids == Prune(t, Elements(Victims(t, cur))).kids
      modifies this`tree
      ensures Valid() && tree == Prune(t, Elements(Victims(t, cur))) && Abs() == old(Abs()).(tree := tree)
    {
      hide Queued, TreeRep, Rings, FreeList, Entries, Lists, Contents, AllAwait, Victims, Prune, Elements;
      PrunedRep(asl.table.proc_table[..], tree, t, cur);
      tree := Prune(t, Elements(Victims(t, cur)));
    }
  }

  // main, and then a run of such events.
  method Boot(words: seq<int>, save: seq<Regs>, init: Regs, es: seq<Invariant.Event>) returns (k: Kernel)
    requires Theorems.GoodWords(words) && |save| == Spec.NDEV && SEMMAX >= 2
    requires Theorems.Legal(Theorems.Start(words, save, init), es) && forall e | e in es :: SingleWaits.LocksOne(e)
    ensures fresh(k) && k.Valid() && k.Abs() == Theorems.Reached(Theorems.Start(words, save, init), es)
  {
    k := new Kernel(words, save, init);
    SingleWaits.StartNarrow(words, save, init);
    k.HandleSingles(es);
  }

  lemma PrunedRep(e: seq<Proc>, tree: Tree, t: Tree, cur: int)
    requires TreeRep(e, tree, {}) && Closed(t) && IsPid(cur)
    requires tree.kids == Prune(t, Elements(Victims(t, cur))).kids
    ensures TreeRep(e, Prune(t, Elements(Victims(t, cur))), {})
  {
    VictimsFacts(t, cur);
    PruneClosed(t, Elements(Victims(t, cur)));
    SameKids(e, tree, Prune(t, Elements(Victims(t, cur))));
  }
}
