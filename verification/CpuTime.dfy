// The CPU time charged to processes: start_time and cpu_time at every entry into the nucleus.
module CpuTime {
  import opened Base
  import opened Semaphore
  import opened ProcTree
  import opened Spec
  import opened Invariant

  // What enters the nucleus. A handled trap changes no queue: it is passed up to the handler
  // of the process, or it is one of the calls that only read or write the process entry.
  datatype Entry = Step(e: Event) | Handled

  // t1 is the time at which the entry is charged, t2 the time at which it is left.
  datatype Timed = Timed(entry: Entry, t1: int, t2: int)

  datatype Clocked = Clocked(s: State, cpu: seq<int>, start: seq<int>, now: int)

  // The fields of the process table that hold times, and the two functions that set them.
  class Times {
    const cpu_time: array<int>
    const start_time: array<int>

    ghost predicate Valid() {
      cpu_time != start_time && cpu_time.Length == MAXPROC && start_time.Length == MAXPROC
    }

    constructor ()
      ensures Valid() && fresh(cpu_time) && fresh(start_time)
      ensures cpu_time[..] == seq(MAXPROC, _ => 0) && start_time[..] == seq(MAXPROC, _ => 0)
    {
      cpu_time := new int[MAXPROC](_ => 0);
      start_time := new int[MAXPROC](_ => 0);
    }

    // stck is the time of day that the handler reads.
    method StartTime(p: int, stck: int)
      requires Valid() && IsPid(p)
      modifies start_time
      ensures start_time[..] == old(start_time[..])[p := stck]
    {
      start_time[p] := stck;
    }

    method GetInterval(p: int, stck: int)
      requires Valid() && IsPid(p)
      modifies cpu_time
      ensures cpu_time[..] == Charge(old(cpu_time[..]), start_time[..], p, stck)
    {
      var cur_time := stck;
      cpu_time[p] := cpu_time[p] + (cur_time - start_time[p]);
    }

    // One entry into the nucleus: cur is the process that runs before it, and next the one
    // that runs after it, or the null pointer. What it charges, what stays open and what is
    // charged to nobody is exactly the time that passes.
    method Handle(ghost a: Clocked, x: Timed, cur: int, next: int)
      requires Valid() && Good(a) && Possible(a, x) && a.cpu == cpu_time[..] && a.start == start_time[..]
      requires cur == First(a.s.run) && next == First(Entered(a.s, x.entry).run)
      modifies cpu_time, start_time
      ensures Enter(a, x) == Clocked(Entered(a.s, x.entry), cpu_time[..], start_time[..], x.t2)
      ensures Sum(cpu_time[..]) - old(Sum(cpu_time[..])) == (x.t2 - a.now) + Open(a) - Open(Enter(a, x)) - Unused(a, x)
      ensures forall p | IsPid(p) && p != cur :: cpu_time[p] == old(cpu_time[p])
    {
      HeadPid(a.s);
      HeadPid(Entered(a.s, x.entry));
      var charged := cur != ENULL && !(x.entry.Step? && x.entry.e.EDevInt?);
      if charged {
        GetInterval(cur, x.t1);
      }
      if next != ENULL && (charged || cur == ENULL) {
        StartTime(next, x.t2);
      }
      EnterSum(a, x);
    }
  }

  // Process p is charged for the time since it was started.
  function Charge(cpu: seq<int>, start: seq<int>, p: int, t: int): seq<int>
    requires 0 <= p < |cpu| && p < |start|
  {
    cpu[p := cpu[p] + (t - start[p])]
  }

  // A system call, a trap, and a clock interrupt that finds a process running are charged; a
  // device interrupt returns to the interrupted process with its interval still open.
  ghost predicate Charged(s: State, x: Entry) {
    s.run != [] && !(x.Step? && x.e.EDevInt?)
  }

  ghost predicate Possible(a: Clocked, x: Timed)
    requires Inv(a.s)
  {
    && a.now <= x.t1 <= x.t2
    && (if x.entry.Step? then Enabled(a.s, x.entry.e) else a.s.run != [])
  }

  ghost function Entered(s: State, x: Entry): (r: State)
    requires Inv(s) && (x.Step? ==> Enabled(s, x.e))
    ensures Inv(r)
  {
    if x.Step? then StepInv(s, x.e); Next(s, x.e) else s
  }

  ghost predicate Good(a: Clocked) {
    Inv(a.s) && |a.cpu| == MAXPROC && |a.start| == MAXPROC && forall p | IsPid(p) :: a.start[p] <= a.now
  }

  lemma HeadPid(s: State)
    requires Inv(s)
    ensures s.run != [] ==> IsPid(s.run[0])
  {
    assert s.run != [] ==> s.run[0] in s.run;
  }

  ghost function Enter(a: Clocked, x: Timed): (r: Clocked)
    requires Good(a) && Possible(a, x)
    ensures Good(r)
  {
    var s := Entered(a.s, x.entry);
    HeadPid(a.s);
    HeadPid(s);
    var cpu := if Charged(a.s, x.entry) then Charge(a.cpu, a.start, a.s.run[0], x.t1) else a.cpu;
    var start := if s.run != [] && (Charged(a.s, x.entry) || a.s.run == []) then a.start[s.run[0] := x.t2] else a.start;
    Clocked(s, cpu, start, x.t2)
  }

  ghost predicate Legal(a: Clocked, xs: seq<Timed>)
    requires Good(a)
    decreases |xs|
  {
    xs == [] || (Possible(a, xs[0]) && Legal(Enter(a, xs[0]), xs[1..]))
  }

  ghost function Reached(a: Clocked, xs: seq<Timed>): (r: Clocked)
    requires Good(a) && Legal(a, xs)
    ensures Good(r)
    decreases |xs|
  {
    if xs == [] then a else Reached(Enter(a, xs[0]), xs[1..])
  }

  function Sum(s: seq<int>): int {
    if s == [] then 0 else Sum(s[..|s| - 1]) + s[|s| - 1]
  }

  lemma {:induction false} SumUpdate(s: seq<int>, i: nat, v: int)
    requires i < |s|
    ensures Sum(s[i := v]) == Sum(s) - s[i] + v
  {
    var n := |s| - 1;
    if i == n {
      assert s[i := v][..n] == s[..n];
    } else {
      assert s[i := v][..n] == s[..n][i := v];
      SumUpdate(s[..n], i, v);
    }
  }

  // The time since the running process was started.
  ghost function Open(a: Clocked): (r: int)
    requires Good(a)
    ensures r >= 0
  {
    if a.s.run == [] then 0 else
      HeadPid(a.s);
      a.now - a.start[a.s.run[0]]
  }

  // Time charged to nobody: asleep before the entry, or in the nucleus after it was charged.
  ghost function Unused(a: Clocked, x: Timed): (r: int)
    requires Good(a) && Possible(a, x)
    ensures r >= 0
  {
    if a.s.run == [] then x.t2 - a.now
    else if Charged(a.s, x.entry) then x.t2 - x.t1 else 0
  }

  ghost function AllUnused(a: Clocked, xs: seq<Timed>): (r: int)
    requires Good(a) && Legal(a, xs)
    ensures r >= 0
    decreases |xs|
  {
    if xs == [] then 0 else Unused(a, xs[0]) + AllUnused(Enter(a, xs[0]), xs[1..])
  }

  lemma EnterSum(a: Clocked, x: Timed)
    requires Good(a) && Possible(a, x)
    ensures var r := Enter(a, x);
            Sum(r.cpu) + Open(r) + Unused(a, x) == Sum(a.cpu) + Open(a) + (r.now - a.now)
  {
    hide Inv, Next;
    var r := Enter(a, x);
    HeadPid(a.s);
    HeadPid(r.s);
    if Charged(a.s, x.entry) {
      SumUpdate(a.cpu, a.s.run[0], r.cpu[a.s.run[0]]);
    } else if a.s.run != [] {
      DeviceKeepsHead(a.s, x.entry.e);
    }
  }

  lemma DeviceKeepsHead(s: State, e: Event)
    requires Inv(s) && Enabled(s, e) && e.EDevInt? && s.run != []
    ensures s.run <= Next(s, e).run
  {
    assert Balanced(s.sem[e.dev]);
  }

  // Every unit of time is charged to one process, still open for the running one, or unused:
  // no time is charged twice and none is lost.
  lemma {:induction false} TimeConserved(a: Clocked, xs: seq<Timed>)
    requires Good(a) && Legal(a, xs)
    ensures var r := Reached(a, xs);
            Sum(r.cpu) + Open(r) + AllUnused(a, xs) == Sum(a.cpu) + Open(a) + (r.now - a.now)
    decreases |xs|
  {
    hide Inv, Next, Good, Possible, Enter, Open, Unused;
    if xs != [] {
      EnterSum(a, xs[0]);
      TimeConserved(Enter(a, xs[0]), xs[1..]);
    }
  }

  // The time since p was started, if it is the running process.
  ghost function OpenOf(a: Clocked, p: int): int
    requires Good(a)
  {
    if a.s.run != [] && a.s.run[0] == p then Open(a) else 0
  }

  // How long p was the running process in the run xs from a, up to each entry that is charged
  // and on through each device interrupt.
  ghost function RunTime(a: Clocked, xs: seq<Timed>, p: int): int
    requires Good(a) && Legal(a, xs)
    decreases |xs|
  {
    if xs == [] then 0 else
      RunTime(Enter(a, xs[0]), xs[1..], p) + if First(a.s.run) == p then (xs[0].t2 - a.now) - Unused(a, xs[0]) else 0
  }

  lemma EnterOne(a: Clocked, x: Timed, p: int)
    requires Good(a) && Possible(a, x) && IsPid(p)
    ensures var r := Enter(a, x);
            r.cpu[p] + OpenOf(r, p) ==
            a.cpu[p] + OpenOf(a, p) + if First(a.s.run) == p then (x.t2 - a.now) - Unused(a, x) else 0
  {
    hide Inv, Next;
    HeadPid(a.s);
    HeadPid(Enter(a, x).s);
    if !Charged(a.s, x.entry) && a.s.run != [] { DeviceKeepsHead(a.s, x.entry.e); }
  }

  // Each process is charged for exactly the time for which it was the running one.
  lemma {:induction false} ChargedExactly(a: Clocked, xs: seq<Timed>, p: int)
    requires Good(a) && Legal(a, xs) && IsPid(p)
    ensures Reached(a, xs).cpu[p] + OpenOf(Reached(a, xs), p) == a.cpu[p] + OpenOf(a, p) + RunTime(a, xs, p)
    decreases |xs|
  {
    hide Inv, Next, Possible, Enter, OpenOf, Unused;
    if xs != [] {
      EnterOne(a, xs[0], p);
      ChargedExactly(Enter(a, xs[0]), xs[1..], p);
    }
  }

  // From the start of the system the charged time and the open interval together never
  // exceed the time that has passed.
  lemma NeverDoubleCharged(a: Clocked, xs: seq<Timed>)
    requires Good(a) && Legal(a, xs) && a.cpu == seq(MAXPROC, _ => 0)
    requires a.s.run != [] && 0 <= a.s.run[0] < |a.start| && a.start[a.s.run[0]] == a.now
    ensures Sum(Reached(a, xs).cpu) + Open(Reached(a, xs)) <= Reached(a, xs).now - a.now
  {
    TimeConserved(a, xs);
    SumZero(MAXPROC);
  }

  lemma {:induction false} SumZero(n: nat)
    ensures Sum(seq(n, _ => 0)) == 0
  {
    if n > 0 {
      assert seq(n, _ => 0)[..n - 1] == seq(n - 1, _ => 0);
      SumZero(n - 1);
    }
  }

  // Only the process that was running is charged, and no total ever falls: not even when the
  // entry is freed and used again, since neither freeProc nor allocProc clears cpu_time.
  lemma {:induction false} TotalsGrow(a: Clocked, xs: seq<Timed>, p: int)
    requires Good(a) && Legal(a, xs) && IsPid(p)
    ensures Reached(a, xs).cpu[p] >= a.cpu[p]
    ensures Reached(a, xs).cpu[p] > a.cpu[p] ==> HasRun(a, xs, p)
    decreases |xs|
  {
    hide Inv, Next, Entered;
    if xs != [] {
      TotalsGrow(Enter(a, xs[0]), xs[1..], p);
    }
  }

  // p was the running process at some entry of the run.
  ghost predicate HasRun(a: Clocked, xs: seq<Timed>, p: int)
    requires Good(a) && Legal(a, xs)
    decreases |xs|
  {
    xs != [] && ((a.s.run != [] && a.s.run[0] == p) || HasRun(Enter(a, xs[0]), xs[1..], p))
  }
}
