// Waiting for a device and its interrupt meet in either order.
module Rendezvous {
  import opened Base
  import opened Semaphore
  import opened ProcTree
  import opened Spec
  import opened Invariant
  import opened Theorems

  ghost predicate Names(e: Event, dev: int) {
    (e.EWaitIo? && e.dev == dev) || (e.EDevInt? && e.dev == dev)
  }

  ghost predicate Silent(es: seq<Event>, dev: int) {
    forall i | 0 <= i < |es| :: !Names(es[i], dev)
  }

  // What an interrupt of dev left for the next wait.
  ghost function Saved(s: State, dev: int): Regs {
    if 0 <= dev < |s.save| then s.save[dev] else Regs(0, 0)
  }

  ghost function DevSem(s: State, dev: int): Sem {
    if 0 <= dev < |s.sem| then s.sem[dev] else Sem(0, [])
  }

  // The semaphore is the same unless its waiter is gone.
  ghost predicate Kept(u: Sem, v: Sem) {
    (forall p | p in v.q :: p in u.q) && (u.q == [] || v.q != [] ==> v == u)
  }

  lemma StepSilent(s: State, e: Event, dev: int)
    requires Inv(s) && Enabled(s, e) && 0 <= dev < NDEV && !Names(e, dev)
    ensures Saved(Next(s, e), dev) == Saved(s, dev)
    ensures Kept(DevSem(s, dev), DevSem(Next(s, e), dev))
  {
    assert Balanced(s.sem[dev]);
    match e
    case ESemOp(ops) => BatchApart(s, ops, dev);
    case ETerminate => TerminateApart(s, dev);
    case _ =>
  }

  lemma BatchApart(s: State, ops: seq<Vpop>, dev: int)
    requires Inv(s) && Enabled(s, ESemOp(ops)) && 0 <= dev < NDEV
    ensures Saved(SemOp(s, ops), dev) == Saved(s, dev) && DevSem(SemOp(s, ops), dev) == DevSem(s, dev)
  {
    OpsBut(s, s.run[0], ops);
    OpsSem(s, s.run[0], ops);
  }

  lemma TerminateApart(s: State, dev: int)
    requires Inv(s) && s.run != [] && 0 <= dev < NDEV
    ensures Saved(Terminate(s), dev) == Saved(s, dev)
    ensures Kept(DevSem(s, dev), DevSem(Terminate(s), dev))
  {
    assert s.run[0] in s.run && Balanced(s.sem[dev]);
    KilledAll(s.sem[dev], Elements(Victims(s.tree, s.run[0])));
  }

  lemma KilledAll(u: Sem, d: set<int>)
    requires Balanced(u) && u.val >= -1
    ensures Kept(u, Drop(u, d))
  {
    WithoutMembers(u.q, d);
    if u.q != [] && u.q[0] !in d { WithoutNone(u.q, d); }
  }

  lemma {:induction false} RunSilent(s: State, es: seq<Event>, dev: int)
    requires Inv(s) && Legal(s, es) && 0 <= dev < NDEV && Silent(es, dev)
    ensures Saved(Reached(s, es), dev) == Saved(s, dev)
    ensures Kept(DevSem(s, dev), DevSem(Reached(s, es), dev))
    decreases |es|
  {
    hide Inv, Next, Enabled;
    if es != [] {
      StepSilent(s, es[0], dev);
      StepInv(s, es[0]);
      RunSilent(Next(s, es[0]), es[1..], dev);
    }
  }

  // The state after event e and then the events es.
  ghost predicate LegalAfter(s: State, e: Event, es: seq<Event>)
    requires Inv(s)
  {
    Enabled(s, e) && (StepInv(s, e); Legal(Next(s, e), es))
  }

  ghost function ReachedAfter(s: State, e: Event, es: seq<Event>): (r: State)
    requires Inv(s) && LegalAfter(s, e, es)
    ensures Inv(r)
  {
    StepInv(s, e);
    Reached(Next(s, e), es)
  }

  // The wait comes first: the caller blocks, and when the interrupt comes, after any events
  // that leave the caller waiting, it hands over the result and the device is idle again.
  lemma WaitThenInterrupt(s: State, dev: int, es: seq<Event>, r: Regs)
    requires Inv(s) && 0 <= dev < NDEV && s.run != [] && DevSem(s, dev).val == 0
    requires LegalAfter(s, EWaitIo(dev), es) && Silent(es, dev)
    requires s.run[0] in DevSem(ReachedAfter(s, EWaitIo(dev), es), dev).q
    ensures var s1 := ReachedAfter(s, EWaitIo(dev), es);
            && s.run[0] !in s1.run && Enabled(s1, EDevInt(dev, r))
            && Finished(Next(s1, EDevInt(dev, r)), dev, s.run[0], r)
  {
    hide Legal, Reached;
    var p := s.run[0];
    assert p in s.run && Balanced(s.sem[dev]);
    StepInv(s, EWaitIo(dev));
    RunSilent(Next(s, EWaitIo(dev)), es, dev);
    WaitedFor(ReachedAfter(s, EWaitIo(dev), es), dev, p, r);
  }

  // p has the result r, and nothing is waited for or pending.
  ghost predicate Finished(s: State, dev: int, p: int, r: Regs) {
    0 <= p < |s.regs| && s.regs[p] == r && DevSem(s, dev) == Sem(0, [])
  }

  lemma WaitedFor(s: State, dev: int, p: int, r: Regs)
    requires Inv(s) && 0 <= dev < NDEV && DevSem(s, dev) == Sem(-1, [p])
    ensures p !in s.run && Enabled(s, EDevInt(dev, r)) && Finished(Next(s, EDevInt(dev, r)), dev, p, r)
  {
    assert p in s.sem[dev].q && IsPid(p) && dev in WaitsFor(s, p);
    assert Placed(s, p);
  }

  // The interrupt comes first: after any other events the wait returns at once with the same
  // result, and the device is idle again.
  lemma InterruptThenWait(s: State, dev: int, es: seq<Event>, r: Regs)
    requires Inv(s) && 0 <= dev < NDEV && DevSem(s, dev).val == 0
    requires LegalAfter(s, EDevInt(dev, r), es) && Silent(es, dev)
    requires ReachedAfter(s, EDevInt(dev, r), es).run != []
    ensures var s1 := ReachedAfter(s, EDevInt(dev, r), es);
            && Enabled(s1, EWaitIo(dev)) && Next(s1, EWaitIo(dev)).run == s1.run
            && Finished(Next(s1, EWaitIo(dev)), dev, s1.run[0], r)
  {
    hide Legal, Reached;
    assert Balanced(s.sem[dev]);
    StepInv(s, EDevInt(dev, r));
    RunSilent(Next(s, EDevInt(dev, r)), es, dev);
    Pending(ReachedAfter(s, EDevInt(dev, r), es), dev, r);
  }

  lemma Pending(s: State, dev: int, r: Regs)
    requires Inv(s) && 0 <= dev < NDEV && DevSem(s, dev) == Sem(1, []) && Saved(s, dev) == r && s.run != []
    ensures Enabled(s, EWaitIo(dev)) && Next(s, EWaitIo(dev)).run == s.run
    ensures Finished(Next(s, EWaitIo(dev)), dev, s.run[0], r)
  {
    assert s.run[0] in s.run;
  }
}
