// Which clock interrupts release a process that waits for the clock, and what they do to the
// running queue.
module ClockPeriods {
  import opened Base
  import opened Semaphore
  import opened ProcTree
  import opened Spec
  import opened Invariant
  import opened Theorems
  import opened Deadlock
  import RoundRobin

  // The clock is released once in so many interrupts.
  const INTERRUPTS: int := 20

  // n interrupts have come since the system was started, or some other multiple of INTERRUPTS ago.
  ghost predicate Ticked(s: State, n: int) {
    s.clock_count == (n % INTERRUPTS) * QUANTUM
  }

  lemma StepTicked(s: State, e: Event, n: int)
    requires Inv(s) && Enabled(s, e) && Ticked(s, n)
    ensures Ticked(Next(s, e), if e.ETick? then n + 1 else n)
  {
    hide Queues, Devices, Forest, Placed, WaitsFor, Ops, Blocks, Victims, Prune, Grow;
    match e
    case ESemOp(ops) => BatchCount(s, ops);
    case _ =>
  }

  lemma BatchCount(s: State, ops: seq<Vpop>)
    requires Inv(s) && Enabled(s, ESemOp(ops))
    ensures SemOp(s, ops).clock_count == s.clock_count
  {
    hide Inv, InvBut, Ops, Blocks;
    OpsBut(s, s.run[0], ops);
  }

  lemma {:induction false} RunTicked(s: State, es: seq<Event>, n: int)
    requires Inv(s) && Legal(s, es) && Ticked(s, n)
    ensures Ticked(Reached(s, es), n + RoundRobin.Ticks(es))
    decreases |es|
  {
    hide Inv, Next, Ticked;
    if es != [] {
      StepInv(s, es[0]);
      StepTicked(s, es[0], n);
      RunTicked(Next(s, es[0]), es[1..], if es[0].ETick? then n + 1 else n);
    }
  }

  // The head goes to the end.
  function Rotated(run: seq<int>): seq<int> {
    if run == [] then [] else run[1..] + [run[0]]
  }

  // The n-th interrupt lets the first waiter go if it completes a period.
  ghost function Released(q: seq<int>, n: int): seq<int> {
    if n % INTERRUPTS == 0 && q != [] then [q[0]] else []
  }

  ghost predicate SameButClock(s: State, r: State, q: seq<int>)
    requires |s.sem| > CLOCK
  {
    && r.free == s.free && r.tree == s.tree && r.regs == s.regs && r.save == s.save
    && r.sem == s.sem[CLOCK := Sem(s.sem[CLOCK].val + |s.sem[CLOCK].q| - |q|, q)]
  }

  // The n-th interrupt in a state.
  lemma TickExact(s: State, n: int)
    requires Inv(s) && Sole(s) && Ticked(s, n - 1)
    ensures var r, p := Next(s, ETick), Released(s.sem[CLOCK].q, n);
            && r.run == Rotated(s.run) + p
            && SameButClock(s, r, s.sem[CLOCK].q[|p|..])
  {
    assert Balanced(s.sem[CLOCK]);
    var s0 := s.(run := Rotated(s.run), clock_count := 0);
    if n % INTERRUPTS == 0 && s.sem[CLOCK].q != [] {
      var y := s.sem[CLOCK].q[0];
      assert y in s.sem[CLOCK].q && WaitsFor(s, y) == {CLOCK} && Placed(s, y);
      NoDupTail(s.sem[CLOCK].q);
      WaitsForUpdate(s0, CLOCK, V(s.sem[CLOCK]), y);
      assert WaitsFor(s0, y) == WaitsFor(s, y);
      forall x | x in s0.run ensures x in s.run {}
      assert Idle(s0.(sem := s.sem[CLOCK := V(s.sem[CLOCK])]), y);
    }
  }

  // In every run from the start, the next clock interrupt rotates the running queue; if it is
  // a twentieth one it lets the first process that waits for the clock go, to the end of the
  // rotated queue; otherwise it leaves every semaphore as it is. Nothing else changes.
  lemma EveryTwentieth(words: seq<int>, save: seq<Regs>, init: Regs, es: seq<Event>)
    requires GoodWords(words) && |save| == NDEV && Legal(Start(words, save, init), es)
    ensures var s := Reached(Start(words, save, init), es);
            var r, n := Next(s, ETick), RoundRobin.Ticks(es) + 1;
            && s.clock_count == ((n - 1) % 20) * 5000
            && (n % 20 != 0 || s.sem[CLOCK].q == [] ==> r.sem == s.sem && r.run == Rotated(s.run))
            && (n % 20 == 0 && s.sem[CLOCK].q != [] ==>
                  && s.sem[CLOCK].q == [s.sem[CLOCK].q[0]] + r.sem[CLOCK].q
                  && r.sem == s.sem[CLOCK := Sem(s.sem[CLOCK].val + 1, r.sem[CLOCK].q)]
                  && r.run == Rotated(s.run) + [s.sem[CLOCK].q[0]])
            && r.free == s.free && r.tree == s.tree && r.regs == s.regs && r.save == s.save
  {
    hide Inv, Sole, Next, Reached, Legal;
    var s0 := Start(words, save, init);
    var s := Reached(s0, es);
    StartSole(words, save, init);
    RunSole(s0, es);
    RunTicked(s0, es, 0);
    TickMeans(s, RoundRobin.Ticks(es) + 1);
  }

  lemma TickMeans(s: State, n: int)
    requires Inv(s) && Sole(s) && Ticked(s, n - 1)
    ensures var r, u := Next(s, ETick), s.sem[CLOCK];
            && (n % 20 != 0 || u.q == [] ==> r.sem == s.sem && r.run == Rotated(s.run))
            && (n % 20 == 0 && u.q != [] ==>
                  && u.q == [u.q[0]] + r.sem[CLOCK].q
                  && r.sem == s.sem[CLOCK := Sem(u.val + 1, r.sem[CLOCK].q)]
                  && r.run == Rotated(s.run) + [u.q[0]])
            && r.free == s.free && r.tree == s.tree && r.regs == s.regs && r.save == s.save
  {
    TickExact(s, n);
    hide Inv, Sole, Next;
    var q := s.sem[CLOCK].q;
    assert Released(q, n) == [] ==> q[|Released(q, n)|..] == q && Rotated(s.run) + [] == Rotated(s.run);
  }

  // The periods that are completed by the interrupts after the n-th, up to the m-th.
  function Periods(n: int, m: int): int {
    m / INTERRUPTS - n / INTERRUPTS
  }

  function Min(x: int, y: int): int {
    if x < y then x else y
  }

  lemma RotatedHas(run: seq<int>)
    ensures forall p :: p in run <==> p in Rotated(run)
  {
    assert run != [] ==> run == [run[0]] + run[1..];
  }

  lemma PeriodsNext(n: int, k: nat, len: nat)
    ensures var p := if (n + 1) % INTERRUPTS == 0 && len > 0 then 1 else 0;
            && 0 <= Min(Periods(n, n + k), len) <= len && (k == 0 ==> Min(Periods(n, n + k), len) == 0)
            && (k > 0 ==> Min(Periods(n, n + k), len) == Min(Periods(n + 1, n + k), len - p) + p)
  {
  }

  lemma SameItself(s: State)
    requires Inv(s)
    ensures |s.sem| > CLOCK && SameButClock(s, s, s.sem[CLOCK].q[0..])
  {
  }

  lemma SameTwice(s: State, s1: State, r: State, i: nat, j: nat)
    requires |s.sem| > CLOCK && i <= |s.sem[CLOCK].q| && SameButClock(s, s1, s.sem[CLOCK].q[i..])
    requires j <= |s1.sem[CLOCK].q| && SameButClock(s1, r, s1.sem[CLOCK].q[j..])
    ensures i + j <= |s.sem[CLOCK].q| && SameButClock(s, r, s.sem[CLOCK].q[i + j..])
  {
    assert s.sem[CLOCK].q[i..][j..] == s.sem[CLOCK].q[i + j..];
  }

  // Of the processes that wait for the clock, a number of interrupts lets exactly as many go
  // as it completes periods, in the order of their queue, while there are any.
  lemma {:induction false} TicksRelease(s: State, es: seq<Event>, n: int)
    requires Inv(s) && Sole(s) && Ticked(s, n) && OnlyTicks(es) && Legal(s, es)
    ensures var r, q := Reached(s, es), s.sem[CLOCK].q;
            var m := Min(Periods(n, n + |es|), |q|);
            && 0 <= m <= |q| && SameButClock(s, r, q[m..])
            && (forall i | 0 <= i < m :: q[i] in r.run)
            && (forall p | p in s.run :: p in r.run)
    decreases |es|
  {
    hide Inv, Sole, Next, Ticked, Rotated, Min, Periods, SameButClock;
    SameItself(s);
    var q := s.sem[CLOCK].q;
    PeriodsNext(n, |es|, |q|);
    if es != [] {
      var s1, rest := Next(s, ETick), es[1..];
      assert es[0] in es && forall e | e in rest :: e in es;
      StepInv(s, ETick);
      StepSole(s, ETick);
      StepTicked(s, ETick, n);
      TickExact(s, n + 1);
      TicksRelease(s1, rest, n + 1);
      var p := Released(q, n + 1);
      RotatedHas(s.run);
      var r, m1 := Reached(s, es), Min(Periods(n + 1, n + |es|), |q| - |p|);
      SameTwice(s, s1, r, |p|, m1);
      forall i | 0 <= i < |p| + m1 ensures q[i] in r.run {
        if i < |p| { assert s1.run[|Rotated(s.run)|] == q[i]; } else { assert q[i] == q[|p|..][i - |p|]; }
      }
    }
  }
}
