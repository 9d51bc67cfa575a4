// The nucleus as a state machine: what each entry into the nucleus does to the free list,
// the running queue, the semaphores, the process tree and the saved registers.
module Spec {
  import opened Base
  import opened Semaphore
  import opened ProcTree

  const NDEV: nat := 15        // dev_sem[i] is the semaphore at address i
  const CLOCK: nat := 15       // the address of clock_lock
  const QUANTUM: int := 5000
  const CLOCK_PERIOD: int := 100000

  datatype Vpop = Vpop(op: int, sem: int)

  datatype State = State(
    free: seq<int>,
    run: seq<int>,
    sem: seq<Sem>,
    tree: Tree,
    regs: seq<Regs>,
    save: seq<Regs>,
    clock_count: int)

  // Structural well-formedness, enough for every operation to be defined.
  ghost predicate Sized(s: State) {
    && |s.sem| > CLOCK && |s.regs| == MAXPROC && |s.save| == NDEV && WfTree(s.tree)
    && (forall p | p in s.free :: IsPid(p)) && (forall p | p in s.run :: IsPid(p))
    && forall a, p | 0 <= a < |s.sem| && p in s.sem[a].q :: IsPid(p)
  }

  // The semaphores that p waits for.
  ghost function WaitsFor(s: State, p: int): (r: set<int>)
    ensures forall a :: a in r <==> 0 <= a < |s.sem| && p in s.sem[a].q
  {
    set a | 0 <= a < |s.sem| && p in s.sem[a].q
  }

  // Held by no queue: qcount is zero.
  ghost predicate Idle(s: State, p: int) {
    p !in s.run && WaitsFor(s, p) == {}
  }

  // The semaphores with waiters; each takes a descriptor.
  ghost function Busy(s: State): (r: set<int>)
    ensures forall a :: a in r <==> 0 <= a < |s.sem| && s.sem[a].q != []
  {
    set a | 0 <= a < |s.sem| && s.sem[a].q != []
  }

  // p can join the queue of address a: a descriptor and a link slot are left.
  ghost predicate CanJoin(s: State, a: int, p: int)
    requires 0 <= a < |s.sem|
  {
    && (s.sem[a].q != [] || |Busy(s)| < MAXPROC)
    && |WaitsFor(s, p)| + (if p in s.run then 1 else 0) < SEMMAX
  }

  // A process that waits for nothing can join the queue of address a.
  ghost predicate CanWait(s: State, a: int)
    requires 0 <= a < |s.sem|
  {
    s.sem[a].q != [] || |Busy(s)| < MAXPROC
  }

  ghost function Lock(s: State, a: int, p: int): State
    requires 0 <= a < |s.sem|
  {
    s.(sem := s.sem[a := P(s.sem[a], p)])
  }

  ghost function Unlock(s: State, a: int): State
    requires 0 <= a < |s.sem|
  {
    var s1 := s.(sem := s.sem[a := V(s.sem[a])]);
    if s.sem[a].val < 0 && s.sem[a].q != [] && Idle(s1, s.sem[a].q[0])
    then s1.(run := s1.run + [s.sem[a].q[0]])
    else s1
  }

  ghost predicate Addressed(s: State, ops: seq<Vpop>) {
    forall i | 0 <= i < |ops| :: 0 <= ops[i].sem < |s.sem|
  }

  // The loop of Sem_OP over the batch ops of process p.
  ghost function Ops(s: State, p: int, ops: seq<Vpop>): (r: State)
    requires Addressed(s, ops)
    ensures |r.sem| == |s.sem|
  {
    if ops == [] then s else
      var n := |ops| - 1;
      var s1 := Ops(s, p, ops[..n]);
      if ops[n].op == LOCK then Lock(s1, ops[n].sem, p) else Unlock(s1, ops[n].sem)
  }

  // The flag of Sem_OP: one of the first n operations drove its semaphore below zero.
  ghost predicate Blocks(s: State, p: int, ops: seq<Vpop>, n: nat)
    requires Addressed(s, ops) && n <= |ops|
  {
    exists i :: 0 <= i < n && BlocksAt(s, p, ops, i)
  }

  ghost predicate BlocksAt(s: State, p: int, ops: seq<Vpop>, i: nat)
    requires Addressed(s, ops) && i < |ops|
  {
    ops[i].op == LOCK && Ops(s, p, ops[..i]).sem[ops[i].sem].val <= 0
  }

  ghost function SemOp(s: State, ops: seq<Vpop>): State
    requires s.run != [] && Addressed(s, ops)
  {
    var s1 := Ops(s, s.run[0], ops);
    if Blocks(s, s.run[0], ops, |ops|) && s1.run != [] then s1.(run := s1.run[1..]) else s1
  }

  // intsemop with LOCK: the running process waits if the value goes negative.
  ghost function Wait(s: State, a: int): State
    requires s.run != [] && 0 <= a < |s.sem|
  {
    var s1 := Lock(s, a, s.run[0]);
    if s.sem[a].val <= 0 then s1.(run := s.run[1..]) else s1
  }

  ghost function WaitClock(s: State): State
    requires s.run != [] && CLOCK < |s.sem|
  {
    Wait(s, CLOCK)
  }

  ghost function WaitIo(s: State, dev: int): State
    requires s.run != [] && IsPid(s.run[0]) && 0 <= dev < NDEV
    requires |s.sem| > CLOCK && |s.regs| == MAXPROC && |s.save| == NDEV
  {
    if s.sem[dev].val == 1
    then s.(sem := s.sem[dev := s.sem[dev].(val := 0)], regs := s.regs[s.run[0] := s.save[dev]])
    else Wait(s, dev)
  }

  // A device interrupt that delivers the amount and status r.
  ghost function DevInt(s: State, dev: int, r: Regs): State
    requires 0 <= dev < NDEV && Sized(s)
    requires s.sem[dev].val == -1 ==> s.sem[dev].q != []
  {
    if s.sem[dev].val == -1 then
      var p := s.sem[dev].q[0];
      assert p in s.sem[dev].q && IsPid(p);
      Unlock(s.(regs := s.regs[p := r]), dev)
    else s.(sem := s.sem[dev := s.sem[dev].(val := s.sem[dev].val + 1)], save := s.save[dev := r])
  }

  // A clock interrupt: the head of the running queue goes to its end, and every
  // CLOCK_PERIOD one process waiting for the clock is released.
  ghost function Tick(s: State): State
    requires CLOCK < |s.sem|
  {
    var count := s.clock_count + QUANTUM;
    var s1 := s.(run := if s.run == [] then [] else s.run[1..] + [s.run[0]],
                 clock_count := if count >= CLOCK_PERIOD then 0 else count);
    if count >= CLOCK_PERIOD && s.sem[CLOCK].q != [] then Unlock(s1, CLOCK) else s1
  }

  ghost function Create(s: State, init: Regs): State
    requires Sized(s) && s.run != []
  {
    var cur := s.run[0];
    assert cur in s.run;
    if s.free == [] then s.(regs := s.regs[cur := s.regs[cur].(r2 := -1)]) else
      var n := s.free[0];
      assert n in s.free;
      s.(free := s.free[1..], run := s.run + [n], tree := Grow(s.tree, cur, n),
         regs := s.regs[n := init][cur := s.regs[n := init][cur].(r2 := 0)])
  }

  // The processes in d leave every semaphore queue.
  ghost function Dropped(u: seq<Sem>, d: set<int>): (r: seq<Sem>)
    ensures |r| == |u| && forall a | 0 <= a < |u| :: r[a] == Drop(u[a], d)
  {
    seq(|u|, a requires 0 <= a < |u| => Drop(u[a], d))
  }

  // The processes in d leave every queue; vs joins the free list.
  ghost function Gone(s: State, d: set<int>, vs: seq<int>): State {
    s.(free := s.free + vs, run := Without(s.run, d), sem := Dropped(s.sem, d))
  }

  ghost function Terminate(s: State): State
    requires Sized(s) && s.run != []
  {
    var cur := s.run[0];
    assert cur in s.run;
    var vs := Victims(s.tree, cur);
    Gone(s, Elements(vs), vs).(tree := Prune(s.tree, Elements(vs)))
  }

  // What schedule does with the state: run the head, sleep until an interrupt, or halt.
  datatype Verdict = Dispatch(p: int) | SleepTimed | SleepDevice | Normal | Deadlock

  ghost function Schedule(s: State): Verdict
    requires CLOCK < |s.sem|
  {
    if s.run != [] then Dispatch(s.run[0])
    else if s.sem[CLOCK].q != [] then SleepTimed
    else if exists d :: 0 <= d < NDEV && s.sem[d].q != [] then SleepDevice
    else if forall a | 0 <= a < |s.sem| :: s.sem[a].q == [] then Normal
    else Deadlock
  }

  // The state after init: every entry is free and the given words are semaphores.
  ghost function Blank(words: seq<int>, save: seq<Regs>): State {
    State(seq(MAXPROC, i => i), [], seq(|words|, a requires 0 <= a < |words| => Sem(words[a], [])),
          Tree(seq(MAXPROC, _ => []), seq(MAXPROC, _ => ENULL), seq(MAXPROC, _ => 0)),
          seq(MAXPROC, _ => Regs(0, 0)), save, 0)
  }

  // The state main leaves: the first process, a root, runs.
  ghost function Initial(words: seq<int>, save: seq<Regs>, init: Regs): State {
    var s := Blank(words, save);
    s.(free := s.free[1..], run := [0], regs := s.regs[0 := init])
  }
}
