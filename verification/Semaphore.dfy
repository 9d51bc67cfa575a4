// A semaphore word and its queue of waiting processes, as LOCK and UNLOCK change them.
module Semaphore {
  import opened Base

  const LOCK: int := -1
  const UNLOCK: int := 1

  datatype Sem = Sem(val: int, q: seq<int>)

  // LOCK by p: p joins the queue when the value goes negative.
  function P(s: Sem, p: int): Sem {
    Sem(s.val - 1, if s.val - 1 < 0 then s.q + [p] else s.q)
  }

  // UNLOCK: the first waiter leaves when the value was negative.
  function V(s: Sem): Sem {
    Sem(s.val + 1, if s.val < 0 && s.q != [] then s.q[1..] else s.q)
  }

  // The processes in d leave the queue, and the value rises by one for each.
  function Drop(s: Sem, d: set<int>): Sem {
    var q := Without(s.q, d);
    Sem(s.val + |s.q| - |q|, q)
  }

  // A value v has exactly max(0, -v) processes queued, none of them twice.
  ghost predicate Balanced(s: Sem) {
    |s.q| == (if s.val < 0 then -s.val else 0) && NoDup(s.q)
  }

  lemma PBalanced(s: Sem, p: int)
    requires Balanced(s) && p !in s.q
    ensures Balanced(P(s, p)) && (p in P(s, p).q <==> s.val <= 0)
  {
  }

  lemma DropOne(s: Sem, p: int)
    requires NoDup(s.q)
    ensures Drop(s, {p}) == Sem(s.val + if p in s.q then 1 else 0, Without(s.q, {p}))
  {
    if p in s.q {
      var k :| 0 <= k < |s.q| && s.q[k] == p;
      WithoutOne(s.q, k);
    } else {
      WithoutNone(s.q, {p});
    }
  }

  lemma DropTwice(s: Sem, d: set<int>, e: set<int>)
    ensures Drop(Drop(s, d), e) == Drop(s, d + e)
  {
    WithoutTwice(s.q, d, e);
  }

  lemma DropBalanced(s: Sem, d: set<int>)
    requires Balanced(s)
    ensures Balanced(Drop(s, d))
  {
    WithoutNoDup(s.q, d);
  }
}
