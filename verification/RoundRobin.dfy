// The running queue is served in turn.
module RoundRobin {
  import opened Base
  import opened Semaphore
  import opened ProcTree
  import opened Spec
  import opened Invariant
  import opened Theorems

  // p is in the running queue, but the nucleus dispatches another process, in every state of
  // the run es from s.
  ghost predicate Queued(s: State, es: seq<Event>, p: int)
    requires Inv(s) && Legal(s, es)
    decreases |es|
  {
    && p in s.run && Schedule(s) != Dispatch(p)
    && (es == [] || (StepInv(s, es[0]); Queued(Next(s, es[0]), es[1..], p)))
  }

  ghost function Ticks(es: seq<Event>): nat {
    if es == [] then 0 else (if es[0].ETick? then 1 else 0) + Ticks(es[1..])
  }

  // The position of p in s.
  ghost predicate At(s: State, p: int, k: nat) {
    k < |s.run| && s.run[k] == p
  }

  lemma {:induction false} WithoutIndex(s: seq<int>, d: set<int>, k: nat) returns (j: nat)
    requires k < |s| && s[k] !in d
    ensures j <= k && j < |Without(s, d)| && Without(s, d)[j] == s[k]
  {
    if k == 0 {
      j := 0;
    } else {
      j := WithoutIndex(s[1..], d, k - 1);
      if s[0] !in d { j := j + 1; }
    }
  }

  // One step never moves a queued process back; a clock interrupt moves it forward.
  lemma StepForward(s: State, e: Event, p: int, k: nat) returns (j: nat)
    requires Inv(s) && Enabled(s, e) && At(s, p, k) && k > 0 && p in Next(s, e).run
    ensures j <= k && At(Next(s, e), p, j) && (e.ETick? ==> j < k)
  {
    var r := Next(s, e);
    match e
    case ESemOp(ops) =>
      BatchRun(s, ops);
      assert s.run <= r.run || s.run[1..] <= r.run;
      assert s.run[1..][k - 1] == p;
      j := if At(r, p, k) then k else k - 1;
    case ETerminate =>
      var d := Elements(Victims(s.tree, s.run[0]));
      WithoutMembers(s.run, d);
      j := WithoutIndex(s.run, d, k);
    case EWaitClock => j := if At(r, p, k) then k else k - 1;
    case EWaitIo(dev) => j := if At(r, p, k) then k else k - 1;
    case ETick => j := k - 1;
    case ECreate(_) => j := k;
    case EDevInt(_, _) => j := k;
  }

  // A process at position k of the running queue that stays in it is dispatched before the
  // k-th clock interrupt is over: a run in which it never is has fewer than k.
  lemma {:induction false} BoundedWait(s: State, es: seq<Event>, p: int, k: nat)
    requires Inv(s) && Legal(s, es) && At(s, p, k) && Queued(s, es, p)
    ensures Ticks(es) < k
    decreases |es|
  {
    if es != [] {
      StepInv(s, es[0]);
      var j := StepForward(s, es[0], p, k);
      BoundedWait(Next(s, es[0]), es[1..], p, j);
    }
  }
}
