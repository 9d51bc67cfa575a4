// A semaphore as a queue of waiting processes and as a lock, in terms of the set h of
// processes that hold it and the set w of those that wait.
module Locks {
  import opened Base
  import opened Semaphore

  ghost predicate Queue(u: Sem, w: set<int>) {
    Balanced(u) && forall p :: p in u.q <==> p in w
  }

  lemma Join(u: Sem, w: set<int>, p: int)
    requires Queue(u, w) && p !in w
    ensures Queue(P(u, p), if u.val <= 0 then w + {p} else w)
  {
  }

  lemma Pop(u: Sem, w: set<int>)
    requires Queue(u, w)
    ensures u.val < 0 ==> u.q != [] && u.q[0] in w
    ensures Queue(V(u), if u.val < 0 then w - {u.q[0]} else w)
  {
    if u.val < 0 {
      NoDupTail(u.q);
      assert u.q[0] in u.q && u.q == [u.q[0]] + u.q[1..];
      assert forall p :: p in u.q <==> p == u.q[0] || p in u.q[1..];
      assert V(u).q == u.q[1..];
    }
  }

  // At most one process holds the lock, and it is free exactly when none does.
  ghost predicate Mutex(u: Sem, h: set<int>, w: set<int>) {
    && Queue(u, w) && u.val <= 1 && (u.val == 1 <==> h == {})
    && forall p, q | p in h && q in h :: p == q
  }

  lemma Acquire(u: Sem, h: set<int>, w: set<int>, p: int)
    requires Mutex(u, h, w) && p !in w
    ensures if u.val <= 0 then Mutex(P(u, p), h, w + {p}) else h == {} && Mutex(P(u, p), {p}, w)
  {
    Join(u, w, p);
  }

  lemma Hand(u: Sem, h: set<int>, w: set<int>, p: int)
    requires Mutex(u, h, w) && p in h
    ensures h == {p}
    ensures if u.val < 0 then u.q != [] && u.q[0] in w && Mutex(V(u), {u.q[0]}, w - {u.q[0]})
            else u.val == 0 && Mutex(V(u), {}, w)
  {
    Pop(u, w);
    assert forall q | q in h :: p in h && q == p;
    assert h == {p};
  }
}
