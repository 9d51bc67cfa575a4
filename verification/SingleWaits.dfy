// Runs whose batches LOCK at most one semaphore: every process waits for one at a time, so a
// process that has to wait always finds a link slot and a descriptor.
module SingleWaits {
  import opened Base
  import opened Semaphore
  import opened ProcTree
  import opened Spec
  import opened Invariant
  import opened Deadlock
  import opened Theorems

  // Every process waits for at most one semaphore.
  ghost predicate Narrow(s: State) {
    forall p | IsPid(p) :: |WaitsFor(s, p)| <= 1
  }

  ghost predicate OneLock(ops: seq<Vpop>) {
    forall i, j | 0 <= i < j < |ops| :: ops[i].op != LOCK || ops[j].op != LOCK
  }

  ghost predicate LocksOne(e: Event) {
    e.ESemOp? ==> OneLock(e.ops)
  }

  // ---------- a descriptor is left ----------

  // While p waits for nothing the others keep fewer descriptors busy than there are.
  lemma FewBusy(s: State, p: int)
    requires IsPid(p) && WaitsFor(s, p) == {} && forall x | IsPid(x) :: |WaitsFor(s, x)| <= 1
    requires forall a, x | 0 <= a < |s.sem| && x in s.sem[a].q :: IsPid(x)
    ensures |Busy(s)| < MAXPROC
  {
    var b := Busy(s);
    var f: map<int, int> := map a | a in b :: First(s.sem[a].q);
    var others := Range(MAXPROC) - {p};
    forall a | a in b ensures f[a] in others && a in WaitsFor(s, f[a]) {
      assert f[a] in s.sem[a].q && IsPid(f[a]);
      assert a in WaitsFor(s, f[a]);
      assert f[a] in Range(MAXPROC);
    }
    forall a, c | a in b && c in b && f[a] == f[c] ensures a == c {
      OneMember(WaitsFor(s, f[a]), a, c);
    }
    IntoSize(b, f, others);
    assert p in Range(MAXPROC) && |others| == MAXPROC - 1;
  }

  lemma OneMember(w: set<int>, a: int, c: int)
    requires |w| <= 1 && a in w && c in w
    ensures a == c
  {
    SubsetSize({a, c}, w);
    assert a != c ==> |{a, c}| == 2;
  }

  lemma RoomToWait(s: State)
    requires Inv(s) && Narrow(s) && s.run != []
    ensures |Busy(s)| < MAXPROC
  {
    assert s.run[0] in s.run && Placed(s, s.run[0]);
    FewBusy(s, s.run[0]);
  }

  // Without a LOCK nobody joins a queue.
  lemma {:induction false} UnlocksOnly(s: State, p: int, ops: seq<Vpop>, a: int, x: int)
    requires Addressed(s, ops) && (forall i | 0 <= i < |ops| :: ops[i].op != LOCK)
    requires 0 <= a < |s.sem| && x in Ops(s, p, ops).sem[a].q
    ensures x in s.sem[a].q
  {
    if ops != [] {
      var n := |ops| - 1;
      assert x in Ops(s, p, ops[..n]).sem[a].q;
      UnlocksOnly(s, p, ops[..n], a, x);
    }
  }

  lemma RoomToJoin(s: State, ops: seq<Vpop>, i: nat)
    requires Inv(s) && Narrow(s) && s.run != [] && SEMMAX >= 2 && i < |ops| && ops[i].op == LOCK && OneLock(ops)
    requires UserOps(s, ops)
    ensures Addressed(s, ops[..i]) && 0 <= ops[i].sem < |s.sem|
    ensures CanJoin(Ops(s, s.run[0], ops[..i]), ops[i].sem, s.run[0])
  {
    var cur := s.run[0];
    assert cur in s.run && Placed(s, cur);
    var r := Ops(s, cur, ops[..i]);
    forall a, x | 0 <= a < |r.sem| && x in r.sem[a].q ensures x in s.sem[a].q {
      UnlocksOnly(s, cur, ops[..i], a, x);
    }
    forall x | IsPid(x) ensures |WaitsFor(r, x)| <= 1 {
      FewerWaits(s, r, x);
      SubsetSize(WaitsFor(r, x), WaitsFor(s, x));
    }
    FewerWaits(s, r, cur);
    FewBusy(r, cur);
  }

  // ---------- every step keeps it ----------

  lemma NarrowFewer(s: State, r: State, p: int)
    requires Narrow(s) && IsPid(p) && |r.sem| == |s.sem|
    requires forall a | 0 <= a < |s.sem| && p in r.sem[a].q :: p in s.sem[a].q
    ensures |WaitsFor(r, p)| <= 1
  {
    assert WaitsFor(r, p) <= WaitsFor(s, p);
    SubsetSize(WaitsFor(r, p), WaitsFor(s, p));
  }

  lemma BatchNarrow(s: State, ops: seq<Vpop>, p: int)
    requires Inv(s) && Narrow(s) && s.run != [] && Distinct(ops) && UserOps(s, ops) && OneLock(ops) && IsPid(p)
    ensures |WaitsFor(SemOp(s, ops), p)| <= 1
  {
    var cur := s.run[0];
    var r := Ops(s, cur, ops);
    assert WaitsFor(SemOp(s, ops), p) == WaitsFor(r, p);
    if p != cur {
      forall a | 0 <= a < |s.sem| && p in r.sem[a].q ensures p in s.sem[a].q { OpsQueues(s, cur, ops, a, p); }
      NarrowFewer(s, r, p);
    } else {
      OpsWaits(s, ops);
      if a :| a in WaitsFor(r, cur) {
        forall c | c in WaitsFor(r, cur) ensures c == a {}
        SubsetSize(WaitsFor(r, cur), {a});
      }
    }
  }

  lemma WaitNarrow(s: State, c: int, p: int)
    requires Inv(s) && Narrow(s) && s.run != [] && 0 <= c < |s.sem| && IsPid(p)
    ensures |WaitsFor(Wait(s, c), p)| <= 1
  {
    hide Forest, Devices, Balanced, WfTree;
    var cur, r := s.run[0], Wait(s, c);
    assert cur in s.run && Placed(s, cur);
    WaitsForUpdate(s, c, P(s.sem[c], cur), p);
    assert WaitsFor(r, p) == WaitsFor(s.(sem := s.sem[c := P(s.sem[c], cur)]), p);
    if p == cur {
      assert {} + {c} == {c};
    } else {
      NarrowFewer(s, r, p);
    }
  }

  lemma StepNarrow(s: State, e: Event)
    requires Inv(s) && Narrow(s) && Enabled(s, e) && LocksOne(e)
    ensures Narrow(Next(s, e))
  {
    var r := Next(s, e);
    hide Narrow;
    forall p | IsPid(p) ensures |WaitsFor(r, p)| <= 1 { StepNarrowAt(s, e, p); }
  }

  lemma StepNarrowAt(s: State, e: Event, p: int)
    requires Inv(s) && Narrow(s) && Enabled(s, e) && LocksOne(e) && IsPid(p)
    ensures |WaitsFor(Next(s, e), p)| <= 1
  {
    hide Inv, Narrow, WaitsFor;
    match e
    case ESemOp(ops) => BatchNarrow(s, ops, p);
    case EWaitClock => ClockNarrow(s, p);
    case EWaitIo(dev) => IoNarrow(s, dev, p);
    case ETerminate => TerminateNarrow(s, p);
    case _ =>
      OtherQueues(s, e);
      NarrowFewer(s, Next(s, e), p);
  }

  lemma ClockNarrow(s: State, p: int)
    requires Inv(s) && Narrow(s) && s.run != [] && IsPid(p)
    ensures |WaitsFor(Next(s, EWaitClock), p)| <= 1
  {
    assert s.sem[CLOCK].val <= 0;
    WaitNarrow(s, CLOCK, p);
  }

  lemma IoNarrow(s: State, dev: int, p: int)
    requires Inv(s) && Narrow(s) && Enabled(s, EWaitIo(dev)) && IsPid(p)
    ensures |WaitsFor(Next(s, EWaitIo(dev)), p)| <= 1
  {
    if s.sem[dev].val == 1 { NarrowFewer(s, Next(s, EWaitIo(dev)), p); } else { WaitNarrow(s, dev, p); }
  }

  lemma TerminateNarrow(s: State, p: int)
    requires Inv(s) && Narrow(s) && s.run != [] && IsPid(p)
    ensures |WaitsFor(Terminate(s), p)| <= 1
  {
    assert s.run[0] in s.run;
    var vs := Victims(s.tree, s.run[0]);
    GoneWaits(s, Elements(vs), vs, p);
    assert WaitsFor(Terminate(s), p) == WaitsFor(Gone(s, Elements(vs), vs), p);
  }

  // At the start nobody waits.
  lemma StartNarrow(words: seq<int>, save: seq<Regs>, init: Regs)
    requires GoodWords(words) && |save| == NDEV
    ensures Narrow(Start(words, save, init))
  {
    var s := Start(words, save, init);
    forall p | IsPid(p) ensures WaitsFor(s, p) == {} {}
  }
}
