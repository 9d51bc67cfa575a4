// queues/asl.c: the list of active semaphores, the list of free descriptors, and the
// semaphore vectors of the process table.
module Asl {
  import opened Base
  import opened ProcQ

  // Queue 0 is the running queue; queue 1 + a is the queue of the semaphore at address a.
  const RUN: nat := 0

  ghost function OfSem(Q: seq<seq<Link>>, a: nat): seq<Link>
    requires a < |Q| - 1
  {
    Q[1 + a]
  }

  function Last(s: seq<int>): int {
    if s == [] then ENULL else s[|s| - 1]
  }

  function Prev(s: seq<int>, k: int): int {
    if 0 < k <= |s| then s[k - 1] else ENULL
  }

  // Node k of the list s is linked to its neighbours both ways.
  ghost predicate Node(d: seq<Semd>, s: seq<int>, k: int)
    requires 0 <= k < |s|
  {
    0 <= s[k] < |d| && d[s[k]].s_next == After(s, k) && d[s[k]].s_prev == Prev(s, k)
  }

  // A doubly linked list of descriptors.
  ghost predicate Chain(d: seq<Semd>, head: int, s: seq<int>) {
    NoDup(s) && head == First(s) && forall k | 0 <= k < |s| :: Node(d, s, k)
  }

  // The two lists share out the descriptor table.
  ghost predicate Lists(d: seq<Semd>, cur: int, head: int, act: seq<int>, fre: seq<int>) {
    && |d| == MAXPROC
    && Chain(d, cur, act) && Chain(d, head, fre)
    && |act| + |fre| == MAXPROC && forall x | x in act :: x !in fre
  }

  // An active descriptor carries the address and the tail of the queue it stands for. Only
  // the queue of address hole may be empty.
  ghost predicate Active(e: Semd, Q: seq<seq<Link>>, hole: int) {
    && 0 <= e.s_semAdd < |Q| - 1
    && e.s_link == Tail(OfSem(Q, e.s_semAdd))
    && (e.s_semAdd != hole ==> OfSem(Q, e.s_semAdd) != [])
  }

  ghost predicate Idle(e: Semd) {
    e.s_semAdd == ENULL && e.s_link == NIL
  }

  ghost predicate InTable(d: seq<Semd>, s: seq<int>) {
    forall x | x in s :: 0 <= x < |d|
  }

  ghost predicate Listed(d: seq<Semd>, act: seq<int>, a: int)
    requires InTable(d, act)
  {
    exists x | x in act :: d[x].s_semAdd == a
  }

  // The active list is a map from addresses to queues.
  ghost predicate Contents(d: seq<Semd>, Q: seq<seq<Link>>, act: seq<int>, fre: seq<int>, hole: int) {
    && InTable(d, act) && InTable(d, fre)
    && (forall x | x in act :: Active(d[x], Q, hole))
    && (forall x, y | x in act && y in act && x != y :: d[x].s_semAdd != d[y].s_semAdd)
    && (forall a | 0 <= a < |Q| - 1 && OfSem(Q, a) != [] :: Listed(d, act, a))
    && (forall x | x in fre :: Idle(d[x]))
  }

  // The semaphores that process p waits for.
  ghost function Waits(Q: seq<seq<Link>>, p: int): (r: set<int>)
    ensures forall a :: a in r <==> 0 <= a < |Q| - 1 && p in Procs(OfSem(Q, a))
  {
    set a | 0 <= a < |Q| - 1 && p in Procs(OfSem(Q, a))
  }

  lemma WaitsUpdate(Q: seq<seq<Link>>, a: nat, q: seq<Link>, p: int)
    requires a < |Q| - 1
    ensures Waits(Q[1 + a := q], p) == if p in Procs(q) then Waits(Q, p) + {a} else Waits(Q, p) - {a}
  {
    forall b: nat | b < |Q| - 1 ensures OfSem(Q[1 + a := q], b) == if b == a then q else OfSem(Q, b) {}
  }

  // A process is held by the queues of the semaphores it waits for and, if running, queue 0.
  lemma {:induction false} HoldingSplit(Q: seq<seq<Link>>, p: int)
    requires Q != []
    ensures |Holding(Q, p)| == |Waits(Q, p)| + if p in Procs(Q[RUN]) then 1 else 0
  {
    var n := |Q| - 1;
    if n == 0 {
      assert Waits(Q, p) == {};
      assert Holding(Q, p) == if p in Procs(Q[RUN]) then {RUN} else {};
    } else {
      HoldingSplit(Q[..n], p);
      LastHolds(Q, p);
    }
  }

  lemma LastHolds(Q: seq<seq<Link>>, p: int)
    requires |Q| > 1
    ensures var n := |Q| - 1;
            var here := p in Procs(Q[n]);
            && |Waits(Q, p)| == |Waits(Q[..n], p)| + (if here then 1 else 0)
            && |Holding(Q, p)| == |Holding(Q[..n], p)| + if here then 1 else 0
  {
    var n := |Q| - 1;
    forall a: nat | a < n - 1 ensures OfSem(Q, a) == OfSem(Q[..n], a) {}
    assert OfSem(Q, n - 1) == Q[n];
    assert Waits(Q, p) - {n - 1} == Waits(Q[..n], p);
    assert Holding(Q, p) - {n} == Holding(Q[..n], p);
    assert n - 1 in Waits(Q, p) <==> p in Procs(Q[n]);
  }

  // A semaphore vector lists the awaited semaphores once each.
  ghost predicate Awaits(v: seq<int>, w: set<int>) {
    && (forall j | 0 <= j < |v| :: v[j] == ENULL || v[j] in w)
    && (forall i, j | 0 <= i < j < |v| :: v[i] == v[j] ==> v[i] == ENULL)
    && (forall a | a in w :: a != ENULL && a in v)
    && Count(v, ENULL) == |w|
  }

  ghost predicate AllAwait(t: seq<Proc>, Q: seq<seq<Link>>) {
    forall p | 0 <= p < |t| :: Awaits(t[p].semvec, Waits(Q, p))
  }

  lemma ListsFrame(d: seq<Semd>, d': seq<Semd>, cur: int, head: int, act: seq<int>, fre: seq<int>)
    requires Lists(d, cur, head, act, fre) && |d'| == |d|
    requires forall y | 0 <= y < |d| :: d'[y].s_next == d[y].s_next && d'[y].s_prev == d[y].s_prev
    ensures Lists(d', cur, head, act, fre)
  {
    forall k | 0 <= k < |act| ensures Node(d', act, k) { assert Node(d, act, k); }
    forall k | 0 <= k < |fre| ensures Node(d', fre, k) { assert Node(d, fre, k); }
  }

  // Linking a queue with tail l to the descriptor x of address a, active or new.
  lemma ContentsUpdate(d: seq<Semd>, Q: seq<seq<Link>>, act: seq<int>, fre: seq<int>,
                       d': seq<Semd>, act': seq<int>, fre': seq<int>, x: int, a: nat, q: seq<Link>)
    requires Contents(d, Q, act, fre, ENULL) && a < |Q| - 1
    requires |d'| == |d| && 0 <= x < |d| && d'[x].s_semAdd == a && d'[x].s_link == Tail(q)
    requires forall y | 0 <= y < |d| && y != x :: d'[y].s_semAdd == d[y].s_semAdd && d'[y].s_link == d[y].s_link
    requires x in act' && (forall y | y != x :: y in act' <==> y in act)
    requires forall y :: y in fre' <==> y in fre && y != x
    requires if x in act then d[x].s_semAdd == a else OfSem(Q, a) == []
    ensures Contents(d', Q[1 + a := q], act', fre', if q == [] then a else ENULL)
  {
    hide Procs;
    var Q' := Q[1 + a := q];
    forall y | y in act' && y != x ensures d[y].s_semAdd != a && Active(d'[y], Q', if q == [] then a else ENULL) {
      assert Active(d[y], Q, ENULL);
    }
    forall b | 0 <= b < |Q'| - 1 && OfSem(Q', b) != [] ensures Listed(d', act', b) {
      assert b != a ==> OfSem(Q', b) == OfSem(Q, b);
      if b != a {
        assert Listed(d, act, b);
        var y :| y in act && d[y].s_semAdd == b;
        assert y in act' && d'[y].s_semAdd == b;
      }
    }
  }

  // Retiring the descriptor x of an empty queue.
  lemma ContentsDrop(d: seq<Semd>, Q: seq<seq<Link>>, act: seq<int>, fre: seq<int>,
                     d': seq<Semd>, act': seq<int>, fre': seq<int>, x: int)
    requires x in act && 0 <= x < |d| && Contents(d, Q, act, fre, d[x].s_semAdd)
    requires 0 <= d[x].s_semAdd < |Q| - 1 && OfSem(Q, d[x].s_semAdd) == []
    requires |d'| == |d| && Idle(d'[x])
    requires forall y | 0 <= y < |d| && y != x :: d'[y].s_semAdd == d[y].s_semAdd && d'[y].s_link == d[y].s_link
    requires forall y :: y in act' <==> y in act && y != x
    requires forall y :: y in fre' <==> y in fre || y == x
    ensures Contents(d', Q, act', fre', ENULL)
  {
    forall y | y in act' ensures Active(d'[y], Q, ENULL) {
      assert Active(d[y], Q, d[x].s_semAdd);
    }
    forall b | 0 <= b < |Q| - 1 && OfSem(Q, b) != [] ensures Listed(d', act', b) {
      assert Listed(d, act, b);
      var y :| y in act && d[y].s_semAdd == b;
      assert y in act' && d'[y].s_semAdd == b;
    }
  }

  // Entry y after moving the first free descriptor to the end of the active list for address a.
  ghost function AddImage(d: seq<Semd>, act: seq<int>, fre: seq<int>, a: int, l: Link, y: int): Semd
    requires fre != [] && 0 <= y < |d|
  {
    if y == fre[0] then Semd(ENULL, Last(act), a, l)
    else if act != [] && y == Last(act) then d[y].(s_next := fre[0])
    else if |fre| > 1 && y == fre[1] then d[y].(s_prev := ENULL)
    else d[y]
  }

  lemma AddLists(d: seq<Semd>, cur: int, head: int, act: seq<int>, fre: seq<int>, d': seq<Semd>, a: int, l: Link)
    requires Lists(d, cur, head, act, fre) && fre != []
    requires |d'| == |d| && forall y | 0 <= y < |d| :: d'[y] == AddImage(d, act, fre, a, l, y)
    ensures Lists(d', First(act + [fre[0]]), After(fre, 0), act + [fre[0]], fre[1..])
  {
    assert Node(d, fre, 0);
    AddActive(d, act, fre, d', a, l);
    AddFree(d, act, fre, d', a, l);
    assert fre[0] in fre;
    forall y | y in act + [fre[0]] ensures y !in fre[1..] {
      assert y in act || y == fre[0];
    }
  }

  lemma AddActive(d: seq<Semd>, act: seq<int>, fre: seq<int>, d': seq<Semd>, a: int, l: Link)
    requires NoDup(act) && (forall j | 0 <= j < |act| :: Node(d, act, j))
    requires fre != [] && 0 <= fre[0] < |d| && (forall x | x in act :: x !in fre)
    requires |d'| == |d| && forall y | 0 <= y < |d| :: d'[y] == AddImage(d, act, fre, a, l, y)
    ensures NoDup(act + [fre[0]]) && forall j | 0 <= j <= |act| :: Node(d', act + [fre[0]], j)
  {
    assert fre[0] in fre && (|fre| > 1 ==> fre[1] in fre);
    forall j | 0 <= j < |act| ensures act[j] !in fre && Node(d', act + [fre[0]], j) {
      assert act[j] in act && Node(d, act, j);
    }
    assert Node(d', act + [fre[0]], |act|);
  }

  lemma AddFree(d: seq<Semd>, act: seq<int>, fre: seq<int>, d': seq<Semd>, a: int, l: Link)
    requires NoDup(fre) && (forall j | 0 <= j < |fre| :: Node(d, fre, j))
    requires fre != [] && (forall x | x in act :: x !in fre)
    requires |d'| == |d| && forall y | 0 <= y < |d| :: d'[y] == AddImage(d, act, fre, a, l, y)
    ensures NoDup(fre[1..]) && forall j | 0 <= j < |fre| - 1 :: Node(d', fre[1..], j)
  {
    assert act != [] ==> Last(act) in act;
    forall j | 0 <= j < |fre| - 1 ensures Node(d', fre[1..], j) {
      assert fre[j + 1] in fre && Node(d, fre, j + 1);
    }
  }

  // Entry y after bypassing position k of the active list.
  ghost function UnchainImage(d: seq<Semd>, act: seq<int>, k: nat, y: int): Semd
    requires k < |act| && 0 <= y < |d|
  {
    if k > 0 && y == act[k - 1] then d[y].(s_next := After(act, k))
    else if k + 1 < |act| && y == act[k + 1] then d[y].(s_prev := Prev(act, k))
    else d[y]
  }

  // Entry y after chaining the unlisted descriptor x behind the free list.
  ghost function RechainImage(d: seq<Semd>, fre: seq<int>, x: int, y: int): Semd
    requires 0 <= y < |d|
  {
    if y == x then Semd(ENULL, Last(fre), ENULL, d[y].s_link)
    else if fre != [] && y == Last(fre) then d[y].(s_next := x)
    else d[y]
  }

  // Entry y after moving the active descriptor at position k to the end of the free list.
  ghost function DropImage(d: seq<Semd>, act: seq<int>, fre: seq<int>, k: nat, y: int): Semd
    requires k < |act| && 0 <= y < |d|
  {
    if y == act[k] then Semd(ENULL, Last(fre), ENULL, d[y].s_link)
    else if fre != [] && y == Last(fre) then d[y].(s_next := act[k])
    else UnchainImage(d, act, k, y)
  }

  lemma DropCompose(d: seq<Semd>, d1: seq<Semd>, d2: seq<Semd>, act: seq<int>, fre: seq<int>, k: nat)
    requires k < |act| && |d2| == |d1| == |d| && NoDup(act) && forall x | x in act :: x !in fre
    requires forall y | 0 <= y < |d| :: d1[y] == UnchainImage(d, act, k, y)
    requires forall y | 0 <= y < |d| :: d2[y] == RechainImage(d1, fre, act[k], y)
    ensures forall y | 0 <= y < |d| :: d2[y] == DropImage(d, act, fre, k, y)
  {
    assert fre != [] ==> Last(fre) in fre;
    assert k > 0 ==> act[k - 1] in act;
    assert k + 1 < |act| ==> act[k + 1] in act;
    forall y | 0 <= y < |d| ensures d2[y] == DropImage(d, act, fre, k, y) {
      assert d1[y] == UnchainImage(d, act, k, y);
    }
  }

  lemma DropLists(d: seq<Semd>, cur: int, head: int, act: seq<int>, fre: seq<int>, d': seq<Semd>, k: nat)
    requires Lists(d, cur, head, act, fre) && k < |act|
    requires |d'| == |d| && forall y | 0 <= y < |d| :: d'[y] == DropImage(d, act, fre, k, y)
    ensures Lists(d', First(CutAt(act, k)), First(fre + [act[k]]), CutAt(act, k), fre + [act[k]])
    ensures forall y :: y in CutAt(act, k) <==> y in act && y != act[k]
  {
    var x, act', fre' := act[k], CutAt(act, k), fre + [act[k]];
    assert x in act && Node(d, act, k);
    DropActive(d, act, fre, d', k);
    DropFree(d, act, fre, d', k);
    forall y | y in act && y != x ensures y in act' {
      var i :| 0 <= i < |act| && act[i] == y;
      assert act'[if i < k then i else i - 1] == y;
    }
  }

  lemma DropDesc(d: seq<Semd>, cur: int, head: int, Q: seq<seq<Link>>, act: seq<int>, fre: seq<int>,
                 d': seq<Semd>, k: nat)
    requires Lists(d, cur, head, act, fre) && k < |act| && 0 <= act[k] < |d|
    requires Contents(d, Q, act, fre, d[act[k]].s_semAdd)
    requires 0 <= d[act[k]].s_semAdd < |Q| - 1 && OfSem(Q, d[act[k]].s_semAdd) == []
    requires |d'| == |d| && forall y | 0 <= y < |d| :: d'[y] == DropImage(d, act, fre, k, y)
    ensures Lists(d', First(CutAt(act, k)), First(fre + [act[k]]), CutAt(act, k), fre + [act[k]])
    ensures Contents(d', Q, CutAt(act, k), fre + [act[k]], ENULL)
  {
    DropLists(d, cur, head, act, fre, d', k);
    assert act[k] in act && Active(d[act[k]], Q, d[act[k]].s_semAdd);
    ContentsDrop(d, Q, act, fre, d', CutAt(act, k), fre + [act[k]], act[k]);
  }

  lemma DropActive(d: seq<Semd>, act: seq<int>, fre: seq<int>, d': seq<Semd>, k: nat)
    requires NoDup(act) && (forall j | 0 <= j < |act| :: Node(d, act, j))
    requires k < |act| && (forall x | x in act :: x !in fre)
    requires |d'| == |d| && forall y | 0 <= y < |d| :: d'[y] == DropImage(d, act, fre, k, y)
    ensures forall j | 0 <= j < |CutAt(act, k)| :: Node(d', CutAt(act, k), j)
  {
    var act' := CutAt(act, k);
    forall j | 0 <= j < |act'| ensures Node(d', act', j) {
      var i := if j < k then j else j + 1;
      assert act[i] in act && (fre != [] ==> Last(fre) in fre);
      assert Node(d, act, i);
    }
  }

  lemma DropFree(d: seq<Semd>, act: seq<int>, fre: seq<int>, d': seq<Semd>, k: nat)
    requires NoDup(fre) && (forall j | 0 <= j < |fre| :: Node(d, fre, j))
    requires k < |act| && 0 <= act[k] < |d| && (forall x | x in act :: x !in fre)
    requires |d'| == |d| && forall y | 0 <= y < |d| :: d'[y] == DropImage(d, act, fre, k, y)
    ensures NoDup(fre + [act[k]]) && forall j | 0 <= j <= |fre| :: Node(d', fre + [act[k]], j)
  {
    var fre' := fre + [act[k]];
    assert act[k] in act;
    assert k > 0 ==> act[k - 1] in act;
    assert k + 1 < |act| ==> act[k + 1] in act;
    forall j | 0 <= j < |fre| ensures fre[j] !in act && Node(d', fre', j) {
      assert fre[j] in fre && Node(d, fre, j);
    }
    assert Node(d', fre', |fre|);
  }

  // Recording a new semaphore in an empty position of the vector, and clearing one.
  lemma AwaitsAdd(v: seq<int>, w: set<int>, i: nat, a: int)
    requires Awaits(v, w) && i < |v| && v[i] == ENULL && a !in w && a != ENULL
    ensures Awaits(v[i := a], w + {a})
  {
    var v' := v[i := a];
    CountUpdate(v, ENULL, i, a);
    forall b | b in w ensures b in v' {
      var j :| 0 <= j < |v| && v[j] == b;
      assert v'[j] == b;
    }
    assert v'[i] == a;
  }

  lemma AwaitsDrop(v: seq<int>, w: set<int>, i: nat)
    requires Awaits(v, w) && i < |v| && v[i] != ENULL
    ensures Awaits(v[i := ENULL], w - {v[i]})
  {
    var v' := v[i := ENULL];
    CountUpdate(v, ENULL, i, ENULL);
    forall b | b in w && b != v[i] ensures b in v' {
      var j :| 0 <= j < |v| && v[j] == b;
      assert v'[j] == b;
    }
  }

  // Q' is Q with p appended to the queue of address a, through some slot of its entry.
  ghost predicate Joined(Q: seq<seq<Link>>, Q': seq<seq<Link>>, a: nat, p: int)
    requires a < |Q| - 1
  {
    exists l: Link :: l.next == p && Q' == Q[1 + a := OfSem(Q, a) + [l]]
  }

  // The first position of x in v, or the length of v.
  ghost function IndexOf(v: seq<int>, x: int): (i: nat)
    ensures i <= |v| && x !in v[..i] && (i < |v| ==> v[i] == x)
  {
    if v == [] || v[0] == x then 0 else
      var i := IndexOf(v[1..], x);
      assert v[..i + 1] == [v[0]] + v[1..][..i];
      i + 1
  }

  // The table after the first x of p's vector became y.
  ghost function Revectored(t: seq<Proc>, p: int, x: int, y: int): (r: seq<Proc>)
    requires 0 <= p < |t|
    ensures |r| == |t|
  {
    var v := t[p].semvec;
    if x in v then
      assert v[..|v|] == v;
      t[p := t[p].(semvec := v[IndexOf(v, x) := y])]
    else t
  }

  // A change of the running queue alone does not concern the semaphores.
  lemma RunChanged(d: seq<Semd>, Q: seq<seq<Link>>, q: seq<Link>, act: seq<int>, fre: seq<int>,
                   t: seq<Proc>, t': seq<Proc>)
    requires Q != [] && Contents(d, Q, act, fre, ENULL) && AllAwait(t, Q) && SameRest(t, t')
    ensures Contents(d, Q[RUN := q], act, fre, ENULL) && AllAwait(t', Q[RUN := q])
  {
    var Q' := Q[RUN := q];
    forall a: nat | a < |Q| - 1 ensures OfSem(Q', a) == OfSem(Q, a) {}
    forall x | x in act ensures Active(d[x], Q', ENULL) { assert Active(d[x], Q, ENULL); }
    forall p | 0 <= p < |t'| ensures Awaits(t'[p].semvec, Waits(Q', p)) {
      assert Awaits(t[p].semvec, Waits(Q, p));
      assert Waits(Q', p) == Waits(Q, p);
    }
  }

  // The vectors match the queues again once p's vector records the queue p was appended to.
  lemma AwaitAppended(t: seq<Proc>, Q: seq<seq<Link>>, t': seq<Proc>, Q': seq<seq<Link>>, a: nat, l: Link)
    requires AllAwait(t, Q) && a < |Q| - 1 && 0 <= l.next < |t| == |t'|
    requires |t[l.next].semvec| == SEMMAX && |Waits(Q, l.next)| < SEMMAX && l.next !in Procs(OfSem(Q, a))
    requires Q' == Q[1 + a := OfSem(Q, a) + [l]]
    requires forall x | 0 <= x < |t| && x != l.next :: t'[x].semvec == t[x].semvec
    requires var v := t[l.next].semvec; t'[l.next].semvec == if ENULL in v then v[IndexOf(v, ENULL) := a] else v
    ensures AllAwait(t', Q')
  {
    var p := l.next;
    var q := OfSem(Q, a) + [l];
    assert Procs(q) == Procs(OfSem(Q, a)) + [p];
    var v := t[p].semvec;
    assert Awaits(v, Waits(Q, p));
    var i := CountFree(v, ENULL);
    assert v[i] in v;
    forall x | 0 <= x < |t| ensures Awaits(t'[x].semvec, Waits(Q', x)) {
      WaitsUpdate(Q, a, q, x);
      assert Awaits(t[x].semvec, Waits(Q, x));
      if x == p {
        AwaitsAdd(v, Waits(Q, p), IndexOf(v, ENULL), a);
      } else {
        assert Waits(Q', x) == Waits(Q, x);
      }
    }
  }

  // The vectors match the queues again once p's vector drops the queue p was taken from.
  lemma AwaitTaken(t: seq<Proc>, Q: seq<seq<Link>>, t': seq<Proc>, a: nat, q: seq<Link>, p: int, i: nat)
    requires AllAwait(t, Q) && a < |Q| - 1 && 0 <= p < |t| == |t'|
    requires i < |t[p].semvec| && t[p].semvec[i] == a
    requires forall x :: x in Procs(q) <==> x in Procs(OfSem(Q, a)) && x != p
    requires forall x | 0 <= x < |t| && x != p :: t'[x].semvec == t[x].semvec
    requires t'[p].semvec == t[p].semvec[i := ENULL]
    ensures AllAwait(t', Q[1 + a := q])
  {
    forall x | 0 <= x < |t| ensures Awaits(t'[x].semvec, Waits(Q[1 + a := q], x)) {
      WaitsUpdate(Q, a, q, x);
      assert Awaits(t[x].semvec, Waits(Q, x));
      if x == p {
        AwaitsDrop(t[p].semvec, Waits(Q, p), i);
      } else {
        assert Waits(Q[1 + a := q], x) == Waits(Q, x);
      }
    }
  }

  // The lists and vectors as initSemd and initProc leave them.
  lemma InitLists(d: seq<Semd>, fre: seq<int>)
    requires |d| == |fre| == MAXPROC && forall k | 0 <= k < MAXPROC ::
               && fre[k] == k
               && d[k] == Semd(if k + 1 < MAXPROC then k + 1 else ENULL, if k > 0 then k - 1 else ENULL, ENULL, NIL)
    ensures Lists(d, ENULL, 0, [], fre)
    ensures forall x | x in fre :: 0 <= x < |d| && Idle(d[x])
  {
    forall k | 0 <= k < MAXPROC ensures Node(d, fre, k) {}
  }

  lemma InitAwait(t: seq<Proc>, Q: seq<seq<Link>>)
    requires forall p | 0 <= p < |t| :: t[p].semvec == BlankEntry().semvec
    requires forall a | 0 <= a < |Q| :: Q[a] == []
    ensures AllAwait(t, Q)
  {
    CountZero(BlankEntry().semvec, ENULL);
    forall p | 0 <= p < |t| ensures Awaits(t[p].semvec, Waits(Q, p)) {
      assert Waits(Q, p) == {};
    }
  }

  lemma NewMembers(act: seq<int>, fre: seq<int>)
    requires fre != [] && NoDup(fre)
    ensures forall y :: y in act + [fre[0]] <==> y in act || y == fre[0]
    ensures forall y :: y in fre[1..] <==> y in fre && y != fre[0]
  {
    assert fre == [fre[0]] + fre[1..];
  }

  lemma UnchainFrame(d: seq<Semd>, d': seq<Semd>, head: int, act: seq<int>, fre: seq<int>, k: nat)
    requires Chain(d, head, fre) && k < |act| && |d'| == |d| && (forall x | x in act :: x !in fre)
    requires forall y | 0 <= y < |d| && y !in act :: d'[y] == d[y]
    ensures Chain(d', head, fre)
  {
    forall j | 0 <= j < |fre| ensures Node(d', fre, j) {
      assert fre[j] in fre && Node(d, fre, j);
    }
  }

  lemma HeadInTable(t: seq<Proc>, q: seq<Link>)
    requires WellSized(t) && Ring(t, q)
    ensures q != [] ==> 0 <= First(Procs(q)) < MAXPROC
  {
    assert q != [] ==> IsNode(q[0]);
  }

  lemma WaiterNotFree(t: seq<Proc>, head: int, Q: seq<seq<Link>>, free: seq<int>, a: nat, p: int)
    requires ProcRep(t, head, Q, free) && a < |Q| - 1 && p in Procs(OfSem(Q, a)) && 0 <= p < MAXPROC
    ensures p !in free
  {
    assert 1 + a in Holding(Q, p);
    assert Entry(t, Q, free, p);
  }

  // Process p has left the queues of the semaphores in done, whose words rose by one; the
  // other queues and words are as they were.
  ghost predicate LeftAll(Q: seq<seq<Link>>, Q': seq<seq<Link>>, c: seq<int>, c': seq<int>, p: int, done: seq<int>) {
    && |Q'| == |Q| == 1 + |c| == 1 + |c'| && Q'[RUN] == Q[RUN]
    && forall a: nat | a < |c| ::
         if a in done then Procs(OfSem(Q', a)) == Without(Procs(OfSem(Q, a)), {p}) && c'[a] == c[a] + 1
         else OfSem(Q', a) == OfSem(Q, a) && c'[a] == c[a]
  }

  lemma LeftOne(Q: seq<seq<Link>>, Q1: seq<seq<Link>>, Q2: seq<seq<Link>>,
                c: seq<int>, c1: seq<int>, c2: seq<int>, p: int, done: seq<int>, a: nat)
    requires LeftAll(Q, Q1, c, c1, p, done) && a !in done && a < |c|
    requires |Q2| == |Q1| && Q2 == Q1[1 + a := OfSem(Q2, a)] && c2 == c1[a := c1[a] + 1]
    requires Procs(OfSem(Q2, a)) == Without(Procs(OfSem(Q1, a)), {p})
    ensures LeftAll(Q, Q2, c, c2, p, done + [a])
  {
    forall b: nat | b < |c| && b != a ensures OfSem(Q2, b) == OfSem(Q1, b) {}
  }

  // Leaving every awaited queue is leaving every queue.
  lemma LeftEverything(Q: seq<seq<Link>>, Q': seq<seq<Link>>, c: seq<int>, c': seq<int>, p: int, v: seq<int>)
    requires LeftAll(Q, Q', c, c', p, v) && Awaits(v, Waits(Q, p))
    ensures |Q'| == |Q| && Q'[RUN] == Q[RUN]
    ensures forall a: nat | a < |c| ::
              && Procs(OfSem(Q', a)) == Without(Procs(OfSem(Q, a)), {p})
              && c'[a] == c[a] + if p in Procs(OfSem(Q, a)) then 1 else 0
  {
    forall a: nat | a < |c| ensures a in v <==> p in Procs(OfSem(Q, a)) {
      assert a in v ==> a in Waits(Q, p);
    }
    forall a: nat | a < |c| && a !in v ensures Procs(OfSem(Q, a)) == Without(Procs(OfSem(Q, a)), {p}) {
      WithoutNone(Procs(OfSem(Q, a)), {p});
    }
  }

  ghost predicate Nulls(v: seq<int>, i: int)
    requires i <= |v|
  {
    forall j | 0 <= j < i :: v[j] == ENULL
  }

  lemma LeftMeans(Q: seq<seq<Link>>, p: int, v: seq<int>)
    requires Awaits(v, Waits(Q, p))
    ensures Waits(Q, p) == {} <==> forall j | 0 <= j < |v| :: v[j] == ENULL
  {
    if a :| a in Waits(Q, p) {
      var j :| 0 <= j < |v| && v[j] == a;
      assert v[j] != ENULL;
    }
  }

  lemma Unrepeated(v: seq<int>, w: set<int>, i: nat)
    requires Awaits(v, w) && i < |v| && v[i] != ENULL
    ensures v[i] !in v[..i]
  {
  }

  lemma PrefixGrows(v: seq<int>, i: nat)
    requires i < |v|
    ensures v[..i + 1] == v[..i] + [v[i]]
  {
  }

  lemma LeftNull(Q: seq<seq<Link>>, Q': seq<seq<Link>>, c: seq<int>, c': seq<int>, p: int, done: seq<int>)
    requires LeftAll(Q, Q', c, c', p, done)
    ensures LeftAll(Q, Q', c, c', p, done + [ENULL])
  {
  }

  lemma {:induction false} ActiveAddresses(d: seq<Semd>, Q: seq<seq<Link>>, act: seq<int>, fre: seq<int>)
    requires NoDup(act) && InTable(d, act)
    requires forall x, y | x in act && y in act && x != y :: d[x].s_semAdd != d[y].s_semAdd
    ensures |set x | x in act :: d[x].s_semAdd| == |act|
  {
    if act != [] {
      var n := |act| - 1;
      assert act[n] in act;
      forall x | x in act[..n] ensures 0 <= x < |d| { assert x in act; }
      ActiveAddresses(d, Q, act[..n], fre);
      var v, w := set x | x in act :: d[x].s_semAdd, set x | x in act[..n] :: d[x].s_semAdd;
      forall x | x in act ensures x in act[..n] || x == act[n] {}
      assert v == w + {d[act[n]].s_semAdd};
    }
  }

  // Fields that neither queue module ever writes.
  ghost predicate SameTree(t: seq<Proc>, t': seq<Proc>) {
    && |t'| == |t|
    && forall p | 0 <= p < |t| ::
         t'[p] == t[p].(p_link := t'[p].p_link, qcount := t'[p].qcount, semvec := t'[p].semvec)
  }

  class SemList {
    const table: ProcTable
    const semd_table: array<Semd>
    const cell: array<int>            // the semaphore words
    var cur_sem: int
    var free_head_s: int
    ghost var act: seq<int>           // the active list
    ghost var fre: seq<int>           // the free list

    // initSemd, with the given words as semaphores
    constructor (words: seq<int>)
      ensures Valid() && fresh(table) && fresh(table.proc_table) && fresh(semd_table) && fresh(cell)
      ensures cell[..] == words && act == []
      ensures table.Q == seq(1 + |words|, _ => [])
      ensures |table.free| == MAXPROC && forall i | 0 <= i < MAXPROC :: table.free[i] == i
      ensures forall i | 0 <= i < MAXPROC ::
                table.proc_table[i] == BlankEntry().(p_link := table.proc_table[i].p_link)
    {
      table := new ProcTable(1 + |words|);
      semd_table := new Semd[MAXPROC](_ => Semd(ENULL, ENULL, ENULL, NIL));
      cell := new int[|words|](i requires 0 <= i < |words| => words[i]);
      cur_sem := ENULL;
      free_head_s := 0;
      act := [];
      fre := seq(MAXPROC, i => i);
      new;
      ChainAll();
      InitLists(semd_table[..], fre);
      InitAwait(table.proc_table[..], table.Q);
    }

    method ChainAll()
      requires semd_table.Length == MAXPROC
      requires forall k | 0 <= k < MAXPROC :: semd_table[k] == Semd(ENULL, ENULL, ENULL, NIL)
      modifies semd_table
      ensures forall k | 0 <= k < MAXPROC ::
                semd_table[k] ==
                Semd(if k + 1 < MAXPROC then k + 1 else ENULL, if k > 0 then k - 1 else ENULL, ENULL, NIL)
    {
      var i := 1;
      while i < MAXPROC - 1
        invariant 1 <= i <= MAXPROC - 1
        invariant forall k | 0 <= k < MAXPROC ::
                    semd_table[k] ==
                    if 1 <= k < i then Semd(k + 1, k - 1, ENULL, NIL) else Semd(ENULL, ENULL, ENULL, NIL)
      {
        semd_table[i] := semd_table[i].(s_next := i + 1, s_prev := i - 1);
        i := i + 1;
      }
      semd_table[0] := semd_table[0].(s_next := 1);
      semd_table[MAXPROC - 1] := semd_table[MAXPROC - 1].(s_prev := MAXPROC - 2);
    }

    // Well-formed, except that the queue of address hole may be empty and listed.
    ghost predicate ListsValid(hole: int)
      reads this, semd_table, cell, table, table.proc_table
    {
      && table.Valid() && |table.Q| == 1 + cell.Length
      && Lists(semd_table[..], cur_sem, free_head_s, act, fre)
      && Contents(semd_table[..], table.Q, act, fre, hole)
    }

    ghost predicate Valid()
      reads this, semd_table, cell, table, table.proc_table
    {
      ListsValid(ENULL) && AllAwait(table.proc_table[..], table.Q)
    }

    // The waiting processes of the semaphore at address a, first to last.
    ghost function Waiting(a: nat): seq<int>
      requires a + 1 < |table.Q|
      reads table
    {
      Procs(OfSem(table.Q, a))
    }

    // Walks the active list to the descriptor of address a.
    method Find(a: int, ghost hole: int) returns (prev: int, walker: int, ghost k: nat)
      requires ListsValid(hole)
      ensures k <= |act| && walker == (if k < |act| then act[k] else ENULL) && prev == Prev(act, k)
      ensures k < |act| ==> Node(semd_table[..], act, k) && semd_table[walker].s_semAdd == a
      ensures k == |act| ==> InTable(semd_table[..], act) && forall x | x in act :: semd_table[x].s_semAdd != a
    {
      assert act != [] ==> Node(semd_table[..], act, 0);
      prev, walker, k := ENULL, cur_sem, 0;
      while walker != ENULL && semd_table[walker].s_semAdd != a
        invariant 0 <= k <= |act| && walker == (if k < |act| then act[k] else ENULL) && prev == Prev(act, k)
        invariant k < |act| ==> Node(semd_table[..], act, k)
        invariant forall j | 0 <= j < k :: 0 <= act[j] < MAXPROC && semd_table[act[j]].s_semAdd != a
        decreases |act| - k
      {
        assert k + 1 < |act| ==> Node(semd_table[..], act, k + 1);
        prev, walker, k := walker, semd_table[walker].s_next, k + 1;
      }
    }

    // A queue is empty exactly when its address is not listed.
    lemma UnlistedEmpty(a: nat)
      requires ListsValid(ENULL) && a < cell.Length
      ensures Waiting(a) == [] <==> forall x | x in act :: semd_table[x].s_semAdd != a
    {
      if OfSem(table.Q, a) != [] {
        assert Listed(semd_table[..], act, a);
      } else {
        forall x | x in act ensures semd_table[x].s_semAdd != a {
          assert Active(semd_table[..][x], table.Q, ENULL);
        }
      }
    }

    method HeadBlocked(a: nat, ghost hole: int) returns (p: int)
      requires ListsValid(hole) && a < cell.Length
      ensures p == First(Waiting(a))
    {
      assert OfSem(table.Q, a) != [] ==> Listed(semd_table[..], act, a);
      assert act != [] ==> Node(semd_table[..], act, 0);
      if cur_sem == ENULL {
        return ENULL;
      }
      var _, walker, k := Find(a, hole);
      if walker != ENULL {
        assert act[k] in act && Active(semd_table[..][act[k]], table.Q, hole);
        p := table.HeadQueue(semd_table[walker].s_link, 1 + a);
      } else {
        p := ENULL;
      }
    }

    // One descriptor is active for each semaphore with waiters.
    lemma ActiveCount()
      requires ListsValid(ENULL)
      ensures |act| == |set a: nat | a < cell.Length && Waiting(a) != []|
      ensures |act| + |fre| == MAXPROC
    {
      ActiveAddresses(semd_table[..], table.Q, act, fre);
      var w := set a: nat | a < cell.Length && Waiting(a) != [];
      var v := set x | x in act :: semd_table[..][x].s_semAdd;
      forall a ensures a in w <==> a in v {
        if a in w { assert Listed(semd_table[..], act, a); }
        if a in v {
          var x :| x in act && semd_table[..][x].s_semAdd == a;
          assert Active(semd_table[..][x], table.Q, ENULL);
        }
      }
      assert w == v;
    }

    // Active and free descriptors partition the pool; the active ones are a map from addresses
    // to the tails of their non-empty queues, and the free ones hold nothing.
    lemma PoolFacts()
      requires Valid()
      ensures semd_table.Length == MAXPROC && forall x | 0 <= x < MAXPROC :: x in act <==> x !in fre
      ensures forall x | x in act :: 0 <= x < MAXPROC && 0 <= semd_table[x].s_semAdd < cell.Length
                                     && Waiting(semd_table[x].s_semAdd) != []
                                     && semd_table[x].s_link == Tail(OfSem(table.Q, semd_table[x].s_semAdd))
      ensures forall x, y | x in act && y in act && 0 <= x < MAXPROC && 0 <= y < MAXPROC
                            && semd_table[x].s_semAdd == semd_table[y].s_semAdd :: x == y
      ensures forall x | x in fre :: 0 <= x < MAXPROC && semd_table[x].s_semAdd == ENULL && semd_table[x].s_link == NIL
    {
      NoDupAppend(act, fre);
      NoDupBound(act + fre, MAXPROC);
      forall x | 0 <= x < MAXPROC ensures x in act <==> x !in fre { assert x in act + fre; }
    }

    // headASL
    method HeadASL() returns (some: bool)
      requires Valid()
      ensures some <==> exists a :: 0 <= a < cell.Length && Waiting(a) != []
    {
      some := cur_sem != ENULL;
      assert act != [] ==> Node(semd_table[..], act, 0);
      if some {
        assert act[0] in act && Active(semd_table[..][act[0]], table.Q, ENULL);
        assert Waiting(semd_table[act[0]].s_semAdd) != [];
      } else {
        forall a | 0 <= a < cell.Length ensures Waiting(a) == [] {
          assert OfSem(table.Q, a) != [] ==> Listed(semd_table[..], act, a);
        }
      }
    }

    // setSem (x is ENULL) and setSem2 (y is ENULL): the first x of p's vector becomes y.
    method ReplaceSem(p: int, x: int, y: int)
      requires WellSized(table.proc_table[..]) && 0 <= p < MAXPROC
      modifies table.proc_table
      ensures table.proc_table[..] == Revectored(old(table.proc_table[..]), p, x, y)
    {
      ghost var v := table.proc_table[p].semvec;
      var i := 0;
      while i < SEMMAX && table.proc_table[p].semvec[i] != x
        modifies {}
        invariant 0 <= i <= SEMMAX && x !in v[..i]
      {
        assert v[..i + 1] == v[..i] + [v[i]];
        i := i + 1;
      }
      if i < SEMMAX {
        assert IndexOf(v, x) == i;
        var e := table.proc_table[p];
        table.proc_table[p] := e.(semvec := e.semvec[i := y]);
      } else {
        assert v[..SEMMAX] == v;
      }
    }

    // The vector of p records the semaphore at address a, whose queue p has just joined.
    method RecordWait(a: nat, p: int, ghost t: seq<Proc>, ghost Q: seq<seq<Link>>)
      requires table.Valid() && AllAwait(t, Q) && SameRest(t, table.proc_table[..]) && a < |Q| - 1
      requires 0 <= p < MAXPROC && p !in table.free && p !in Procs(OfSem(Q, a)) && |Holding(Q, p)| < SEMMAX
      requires Joined(Q, table.Q, a, p)
      modifies table.proc_table
      ensures table.Valid() && AllAwait(table.proc_table[..], table.Q) && SameTree(t, table.proc_table[..])
    {
      ghost var t1 := table.proc_table[..];
      ReplaceSem(p, ENULL, a);
      ghost var l: Link :| l.next == p && table.Q == Q[1 + a := OfSem(Q, a) + [l]];
      HoldingSplit(Q, p);
      AwaitAppended(t, Q, table.proc_table[..], table.Q, a, l);
      ProcFrame(t1, table.proc_table[..], table.free_head, table.Q, table.free);
    }

    // Appends p to the queue of address a, whose tail is the link of descriptor x.
    method Enqueue(x: int, a: nat, p: int)
      requires table.Valid() && AllAwait(table.proc_table[..], table.Q)
      requires semd_table.Length == MAXPROC && 0 <= x < MAXPROC && a < |table.Q| - 1
      requires semd_table[x].s_link == Tail(OfSem(table.Q, a))
      requires 0 <= p < MAXPROC && p !in table.free && p !in Procs(OfSem(table.Q, a))
      requires |Holding(table.Q, p)| < SEMMAX
      modifies table`Q, table.proc_table, semd_table
      ensures table.Valid() && AllAwait(table.proc_table[..], table.Q)
      ensures Joined(old(table.Q), table.Q, a, p)
      ensures semd_table[..] == old(semd_table[..])[x := old(semd_table[x]).(s_link := Tail(OfSem(table.Q, a)))]
      ensures SameTree(old(table.proc_table[..]), table.proc_table[..])
    {
      ghost var t, Q := table.proc_table[..], table.Q;
      var l := table.InsertProc(semd_table[x].s_link, p, 1 + a);
      semd_table[x] := semd_table[x].(s_link := l);
      RecordWait(a, p, t, Q);
    }

    // Takes the first free descriptor for address a to the end of the active list, after prev.
    method Activate(prev: int, a: nat)
      requires Lists(semd_table[..], cur_sem, free_head_s, act, fre) && fre != [] && prev == Last(act)
      requires forall x | x in fre :: 0 <= x < semd_table.Length && Idle(semd_table[x])
      modifies this, semd_table
      ensures Lists(semd_table[..], cur_sem, free_head_s, act, fre)
      ensures act == old(act) + [old(fre)[0]] && fre == old(fre)[1..]
      ensures forall y | 0 <= y < MAXPROC ::
                semd_table[y] == AddImage(old(semd_table[..]), old(act), old(fre), a, NIL, y)
    {
      ghost var d := semd_table[..];
      assert Node(d, fre, 0);
      assert |fre| > 1 ==> Node(d, fre, 1);
      assert act != [] ==> Node(d, act, 0) && Node(d, act, |act| - 1) && Last(act) in act;
      assert fre[0] in fre && (|fre| > 1 ==> fre[1] in fre);
      if cur_sem == ENULL {
        // all descriptors are free, so there is a second one
        cur_sem := free_head_s;
        free_head_s := semd_table[free_head_s].s_next;
        semd_table[cur_sem] := semd_table[cur_sem].(s_next := ENULL);
        semd_table[free_head_s] := semd_table[free_head_s].(s_prev := ENULL);
        semd_table[cur_sem] := semd_table[cur_sem].(s_semAdd := a);
      } else {
        var new_sem := free_head_s;
        free_head_s := semd_table[free_head_s].s_next;
        semd_table[new_sem] := semd_table[new_sem].(s_next := ENULL, s_semAdd := a);
        semd_table[prev] := semd_table[prev].(s_next := new_sem);
        semd_table[new_sem] := semd_table[new_sem].(s_prev := prev);
        if free_head_s != ENULL {
          semd_table[free_head_s] := semd_table[free_head_s].(s_prev := ENULL);
        }
      }
      AddLists(d, old(cur_sem), old(free_head_s), act, fre, semd_table[..], a, NIL);
      act, fre := act + [fre[0]], fre[1..];
    }

    // Joins the queue of the listed descriptor at position k.
    method JoinListed(a: nat, p: int, x: int, ghost k: nat)
      requires Valid() && a < cell.Length && k < |act| && act[k] == x && 0 <= x < MAXPROC && semd_table[x].s_semAdd == a
      requires 0 <= p < MAXPROC && p !in table.free && p !in Waiting(a) && |Holding(table.Q, p)| < SEMMAX
      modifies semd_table, table`Q, table.proc_table
      ensures Valid() && Joined(old(table.Q), table.Q, a, p)
      ensures SameTree(old(table.proc_table[..]), table.proc_table[..])
    {
      ghost var d, Q := semd_table[..], table.Q;
      assert x in act && Active(d[x], Q, ENULL);
      Enqueue(x, a, p);
      ghost var q := OfSem(table.Q, a);
      assert table.Q == Q[1 + a := q];
      ListsFrame(d, semd_table[..], cur_sem, free_head_s, act, fre);
      ContentsUpdate(d, Q, act, fre, semd_table[..], act, fre, x, a, q);
    }

    // Joins the queue of a descriptor activated for address a.
    method JoinNew(prev: int, a: nat, p: int)
      requires Valid() && a < cell.Length && fre != [] && prev == Last(act) && Waiting(a) == []
      requires 0 <= p < MAXPROC && p !in table.free && |Holding(table.Q, p)| < SEMMAX
      modifies this, semd_table, table`Q, table.proc_table
      ensures Valid() && Joined(old(table.Q), table.Q, a, p)
      ensures SameTree(old(table.proc_table[..]), table.proc_table[..])
    {
      ghost var d, Q, act0, fre0 := semd_table[..], table.Q, act, fre;
      var x := free_head_s;
      assert x == fre[0] && fre[0] in fre && Idle(d[x]) && Node(d, fre, 0);
      Activate(prev, a);
      ghost var d1 := semd_table[..];
      assert d1[x] == AddImage(d, act0, fre0, a, NIL, x);
      Enqueue(x, a, p);
      ghost var q := OfSem(table.Q, a);
      assert table.Q == Q[1 + a := q];
      ListsFrame(d1, semd_table[..], cur_sem, free_head_s, act, fre);
      NewMembers(act0, fre0);
      ContentsUpdate(d, Q, act0, fre0, semd_table[..], act, fre, x, a, q);
    }

    method InsertBlocked(a: nat, p: int) returns (full: bool)
      requires Valid() && a < cell.Length
      requires 0 <= p < MAXPROC && p !in table.free && p !in Waiting(a) && |Holding(table.Q, p)| < SEMMAX
      modifies this, semd_table, table`Q, table.proc_table
      ensures Valid()
      ensures full <==> old(Waiting(a)) == [] && old(fre) == []
      ensures full ==> table.Q == old(table.Q) && act == old(act) && fre == old(fre)
      ensures !full ==> Joined(old(table.Q), table.Q, a, p)
      ensures SameTree(old(table.proc_table[..]), table.proc_table[..])
    {
      UnlistedEmpty(a);
      assert fre != [] ==> Node(semd_table[..], fre, 0);
      var prev, walker, k := Find(a, ENULL);
      if walker == ENULL && free_head_s == ENULL {
        return true;
      }
      if walker == ENULL {
        JoinNew(prev, a, p);
      } else {
        assert act[k] in act;
        JoinListed(a, p, walker, k);
      }
      return false;
    }

    // The last descriptor of the free list.
    method LastFree() returns (walker2: int)
      requires Chain(semd_table[..], free_head_s, fre) && fre != []
      ensures walker2 == Last(fre)
    {
      walker2 := free_head_s;
      ghost var k := 0;
      forall j | 0 <= j < |fre| ensures 0 <= fre[j] { assert Node(semd_table[..], fre, j); }
      assert Node(semd_table[..], fre, 0);
      while semd_table[walker2].s_next != ENULL
        invariant 0 <= k < |fre| && walker2 == fre[k] && Node(semd_table[..], fre, k)
        invariant forall j | 0 <= j < |fre| :: 0 <= fre[j]
        decreases |fre| - k
      {
        assert Node(semd_table[..], fre, k + 1);
        walker2, k := semd_table[walker2].s_next, k + 1;
      }
    }

    method Unchain(walker: int, ghost k: nat)
      requires Chain(semd_table[..], cur_sem, act) && k < |act| && act[k] == walker
      modifies this`cur_sem, semd_table
      ensures cur_sem == First(CutAt(act, k))
      ensures forall y | 0 <= y < semd_table.Length :: semd_table[y] == UnchainImage(old(semd_table[..]), act, k, y)
    {
      ghost var d := semd_table[..];
      assert Node(d, act, k);
      assert k > 0 ==> Node(d, act, k - 1);
      assert k + 1 < |act| ==> Node(d, act, k + 1);
      assert Node(d, act, 0);
      var prev, next := semd_table[walker].s_prev, semd_table[walker].s_next;
      if prev != ENULL && next != ENULL {
        semd_table[prev] := semd_table[prev].(s_next := next);
        semd_table[next] := semd_table[next].(s_prev := prev);
      } else if prev != ENULL && next == ENULL {
        semd_table[prev] := semd_table[prev].(s_next := ENULL);
      } else if prev == ENULL && next != ENULL {
        semd_table[next] := semd_table[next].(s_prev := ENULL);
        cur_sem := next;
      } else {
        cur_sem := ENULL;
      }
    }

    // Chains the unlisted descriptor walker behind the free list.
    method Rechain(walker: int)
      requires Chain(semd_table[..], free_head_s, fre) && walker !in fre && 0 <= walker < semd_table.Length
      modifies this`free_head_s, semd_table
      ensures free_head_s == First(fre + [walker])
      ensures forall y | 0 <= y < semd_table.Length ::
                semd_table[y] == RechainImage(old(semd_table[..]), fre, walker, y)
    {
      assert fre != [] ==> Last(fre) in fre && Node(semd_table[..], fre, 0) && Node(semd_table[..], fre, |fre| - 1);
      if free_head_s == ENULL {
        semd_table[walker] := semd_table[walker].(s_prev := ENULL, s_next := ENULL, s_semAdd := ENULL);
        free_head_s := walker;
      } else {
        var walker2 := LastFree();
        semd_table[walker2] := semd_table[walker2].(s_next := walker);
        semd_table[walker] := semd_table[walker].(s_prev := walker2, s_next := ENULL, s_semAdd := ENULL);
      }
    }

    // Moves the descriptor of an empty queue from the active to the free list.
    method RemoveBlockHelper(walker: int, ghost k: nat)
      requires k < |act| && act[k] == walker && 0 <= walker < semd_table.Length
      requires ListsValid(semd_table[walker].s_semAdd)
      requires 0 <= semd_table[walker].s_semAdd < cell.Length && Waiting(semd_table[walker].s_semAdd) == []
      modifies this, semd_table
      ensures ListsValid(ENULL) && act == CutAt(old(act), k) && fre == old(fre) + [walker]
    {
      ghost var d, a := semd_table[..], semd_table[walker].s_semAdd;
      assert walker in act && Active(d[walker], table.Q, a);
      Unchain(walker, k);
      UnchainFrame(d, semd_table[..], free_head_s, act, fre, k);
      ghost var d1 := semd_table[..];
      Rechain(walker);
      DropCompose(d, d1, semd_table[..], act, fre, k);
      DropDesc(d, old(cur_sem), old(free_head_s), table.Q, act, fre, semd_table[..], k);
      act, fre := CutAt(act, k), fre + [walker];
    }

    // Retires the descriptor of address a if its queue has become empty.
    method Retire(a: nat, walker: int, ghost k: nat, ghost hole: int)
      requires ListsValid(hole) && a < cell.Length && hole == if Waiting(a) == [] then a else ENULL
      requires k < |act| && act[k] == walker && 0 <= walker < semd_table.Length && semd_table[walker].s_semAdd == a
      modifies this, semd_table
      ensures ListsValid(ENULL)
    {
      var head := HeadBlocked(a, hole);
      HeadInTable(table.proc_table[..], table.Q[1 + a]);
      if head == ENULL {
        RemoveBlockHelper(walker, k);
      }
    }

    // Stores the new tail of the queue of address a.
    method Relink(walker: int, a: nat, l: Link, ghost k: nat, ghost Q: seq<seq<Link>>) returns (ghost hole: int)
      requires table.Valid() && |table.Q| == 1 + cell.Length && a < cell.Length
      requires Lists(semd_table[..], cur_sem, free_head_s, act, fre) && Contents(semd_table[..], Q, act, fre, ENULL)
      requires k < |act| && act[k] == walker && 0 <= walker < semd_table.Length && semd_table[walker].s_semAdd == a
      requires |Q| == |table.Q| && table.Q == Q[1 + a := OfSem(table.Q, a)] && l == Tail(OfSem(table.Q, a))
      modifies semd_table
      ensures ListsValid(hole) && hole == if Waiting(a) == [] then a else ENULL
      ensures semd_table[walker].s_semAdd == a
    {
      ghost var d := semd_table[..];
      assert walker in act;
      semd_table[walker] := semd_table[walker].(s_link := l);
      ListsFrame(d, semd_table[..], cur_sem, free_head_s, act, fre);
      assert walker !in fre;
      ContentsUpdate(d, Q, act, fre, semd_table[..], act, fre, walker, a, OfSem(table.Q, a));
      hole := if OfSem(table.Q, a) == [] then a else ENULL;
    }

    // The descriptor of the nonempty queue of address a.
    method Lookup(a: nat) returns (walker: int, ghost k: nat)
      requires Valid() && a < cell.Length
      ensures walker == ENULL <==> Waiting(a) == []
      ensures walker != ENULL ==>
                && k < |act| && act[k] == walker && 0 <= walker < semd_table.Length
                && semd_table[walker].s_semAdd == a && semd_table[walker].s_link == Tail(OfSem(table.Q, a))
    {
      UnlistedEmpty(a);
      var _, w, j := Find(a, ENULL);
      walker, k := w, j;
      if walker != ENULL {
        assert walker in act && Active(semd_table[..][walker], table.Q, ENULL);
      }
    }

    // Stores the new tail l of the queue of address a, and retires the descriptor of an empty queue.
    method Settle(walker: int, a: nat, l: Link, ghost k: nat, ghost Q: seq<seq<Link>>)
      requires table.Valid() && |table.Q| == 1 + cell.Length && a < cell.Length
      requires Lists(semd_table[..], cur_sem, free_head_s, act, fre) && Contents(semd_table[..], Q, act, fre, ENULL)
      requires k < |act| && act[k] == walker && 0 <= walker < semd_table.Length && semd_table[walker].s_semAdd == a
      requires |Q| == |table.Q| && table.Q == Q[1 + a := OfSem(table.Q, a)] && l == Tail(OfSem(table.Q, a))
      modifies this, semd_table
      ensures ListsValid(ENULL)
    {
      ghost var hole := Relink(walker, a, l, k, Q);
      Retire(a, walker, k, hole);
    }

    // The vector of p forgets the semaphore at address a, whose queue p has just left.
    method ForgetWait(a: nat, p: int, ghost t: seq<Proc>, ghost Q: seq<seq<Link>>)
      requires table.Valid() && SameRest(t, table.proc_table[..]) && a < |Q| - 1 && |Q| == |table.Q|
      requires ProcRep(t, table.free_head, Q, table.free) && AllAwait(t, Q)
      requires 0 <= p < MAXPROC && p in Procs(OfSem(Q, a))
      requires table.Q == Q[1 + a := OfSem(table.Q, a)]
      requires forall x :: x in Procs(OfSem(table.Q, a)) <==> x in Procs(OfSem(Q, a)) && x != p
      modifies table.proc_table
      ensures table.Valid() && AllAwait(table.proc_table[..], table.Q)
      ensures SameTree(t, table.proc_table[..])
    {
      ghost var t1 := table.proc_table[..];
      ReplaceSem(p, a, ENULL);
      assert Awaits(t[p].semvec, Waits(Q, p)) && a in Waits(Q, p);
      AwaitTaken(t, Q, table.proc_table[..], a, OfSem(table.Q, a), p, IndexOf(t[p].semvec, a));
      WaiterNotFree(t, table.free_head, Q, table.free, a, p);
      ProcFrame(t1, table.proc_table[..], table.free_head, table.Q, table.free);
    }

    // Takes the first process out of the nonempty queue of address a.
    method TakeFirst(a: nat, l: Link) returns (rv: int, tail: Link)
      requires table.Valid() && AllAwait(table.proc_table[..], table.Q) && a < |table.Q| - 1
      requires OfSem(table.Q, a) != [] && l == Tail(OfSem(table.Q, a))
      modifies table`Q, table.proc_table
      ensures table.Valid() && AllAwait(table.proc_table[..], table.Q)
      ensures rv == First(Procs(OfSem(old(table.Q), a)))
      ensures table.Q == old(table.Q)[1 + a := OfSem(old(table.Q), a)[1..]] && tail == Tail(OfSem(table.Q, a))
      ensures SameTree(old(table.proc_table[..]), table.proc_table[..])
    {
      ghost var t, Q := table.proc_table[..], table.Q;
      ghost var q := OfSem(Q, a);
      rv, tail := table.RemoveProc(l, 1 + a);
      CutProcs(q, 0);
      assert CutAt(q, 0) == q[1..];
      ProcsAt(q, 0);
      HeadInTable(t, q);
      ForgetWait(a, rv, t, Q);
    }

    method RemoveBlocked(a: nat) returns (rv: int)
      requires Valid() && a < cell.Length
      modifies this, semd_table, table`Q, table.proc_table
      ensures Valid()
      ensures rv == First(old(Waiting(a)))
      ensures table.Q == if old(Waiting(a)) == [] then old(table.Q)
                         else old(table.Q)[1 + a := OfSem(old(table.Q), a)[1..]]
      ensures SameTree(old(table.proc_table[..]), table.proc_table[..])
    {
      ghost var Q := table.Q;
      var walker, k := Lookup(a);
      if walker == ENULL {
        return ENULL;
      }
      var tail: Link;
      rv, tail := TakeFirst(a, semd_table[walker].s_link);
      Settle(walker, a, tail, k, Q);
    }

    lemma Awaited(p: int, i: nat)
      requires Valid() && 0 <= p < MAXPROC && i < SEMMAX && table.proc_table[p].semvec[i] != ENULL
      ensures 0 <= table.proc_table[p].semvec[i] < cell.Length && p in Waiting(table.proc_table[p].semvec[i])
    {
      assert Awaits(table.proc_table[..][p].semvec, Waits(table.Q, p));
    }

    // Clears position i of p's vector, which holds address a, and takes p out of that queue.
    method Quit(p: int, i: nat, a: nat, l: Link) returns (rv: int, tail: Link)
      requires table.Valid() && AllAwait(table.proc_table[..], table.Q) && a < |table.Q| - 1
      requires 0 <= p < MAXPROC && i < SEMMAX && table.proc_table[p].semvec[i] == a
      requires p in Procs(OfSem(table.Q, a)) && l == Tail(OfSem(table.Q, a))
      modifies table`Q, table.proc_table
      ensures table.Valid() && AllAwait(table.proc_table[..], table.Q)
      ensures rv == p && |table.Q| == old(|table.Q|) && tail == Tail(OfSem(table.Q, a))
      ensures table.Q == old(table.Q)[1 + a := OfSem(table.Q, a)]
      ensures Procs(OfSem(table.Q, a)) == Without(Procs(OfSem(old(table.Q), a)), {p})
      ensures table.proc_table[p].semvec == old(table.proc_table[p]).semvec[i := ENULL]
      ensures SameTree(old(table.proc_table[..]), table.proc_table[..])
    {
      ghost var t, Q := table.proc_table[..], table.Q;
      var e := table.proc_table[p];
      table.proc_table[p] := e.(semvec := e.semvec[i := ENULL]);
      WaiterNotFree(t, table.free_head, Q, table.free, a, p);
      ProcFrame(t, table.proc_table[..], table.free_head, Q, table.free);
      rv, tail := table.OutProc(l, p, 1 + a);
      WithoutMembers(Procs(OfSem(Q, a)), {p});
      AwaitTaken(t, Q, table.proc_table[..], a, OfSem(table.Q, a), p, i);
    }

    // One round of outBlocked: p leaves the queue of the semaphore at position i of its vector.
    method OutOne(p: int, i: nat) returns (rv: int)
      requires Valid() && 0 <= p < MAXPROC && i < SEMMAX && table.proc_table[p].semvec[i] != ENULL
      modifies this, semd_table, table`Q, table.proc_table, cell
      ensures Valid() && rv == p
      ensures |table.Q| == old(|table.Q|)
      ensures var a := old(table.proc_table[p]).semvec[i];
              && 0 <= a < cell.Length && p in Procs(OfSem(old(table.Q), a))
              && table.Q == old(table.Q)[1 + a := OfSem(table.Q, a)]
              && Procs(OfSem(table.Q, a)) == Without(Procs(OfSem(old(table.Q), a)), {p})
              && cell[..] == old(cell[..])[a := old(cell[a]) + 1]
              && table.proc_table[p].semvec == old(table.proc_table[p]).semvec[i := ENULL]
      ensures SameTree(old(table.proc_table[..]), table.proc_table[..])
    {
      hide Rings, FreeList, Entries, Lists, Contents, AllAwait;
      ghost var Q := table.Q;
      var a := table.proc_table[p].semvec[i];
      Awaited(p, i);
      var walker, k := Lookup(a);
      cell[a] := cell[a] + 1;
      var tail: Link;
      rv, tail := Quit(p, i, a, semd_table[walker].s_link);
      Settle(walker, a, tail, k, Q);
    }

    // outBlocked in progress: p has left the semaphores at the first i positions of its vector v.
    ghost predicate Leaving(p: int, i: int, v: seq<int>, t0: seq<Proc>, Q0: seq<seq<Link>>, c0: seq<int>)
      reads this, semd_table, cell, table, table.proc_table
    {
      && Valid() && 0 <= p < MAXPROC && 0 <= i <= SEMMAX == |v| && Awaits(v, Waits(Q0, p))
      && (forall j | i <= j < SEMMAX :: table.proc_table[p].semvec[j] == v[j])
      && SameTree(t0, table.proc_table[..])
      && LeftAll(Q0, table.Q, c0, cell[..], p, v[..i])
    }

    // One position of p's vector v.
    method OutRound(p: int, i: nat, ghost v: seq<int>, ghost t0: seq<Proc>, ghost Q0: seq<seq<Link>>,
                    ghost c0: seq<int>) returns (out: bool)
      requires i < SEMMAX && Leaving(p, i, v, t0, Q0, c0)
      modifies this, semd_table, table`Q, table.proc_table, cell
      ensures Leaving(p, i + 1, v, t0, Q0, c0) && (Nulls(v, i + 1) <==> Nulls(v, i) && !out)
    {
      hide Rings, FreeList, Entries, Lists, Contents, AllAwait;
      PrefixGrows(v, i);
      out := table.proc_table[p].semvec[i] != ENULL;
      if out {
        ghost var Q1, c1 := table.Q, cell[..];
        var _ := OutOne(p, i);
        Unrepeated(v, Waits(Q0, p), i);
        ghost var Q2, c2, a := table.Q, cell[..], v[i];
        assert c2 == c1[a := c1[a] + 1];
        assert |Q2| == |Q1| && Q2 == Q1[1 + a := OfSem(Q2, a)];
        LeftOne(Q0, Q1, Q2, c0, c1, c2, p, v[..i], a);
      } else {
        LeftNull(Q0, table.Q, c0, cell[..], p, v[..i]);
      }
    }

    lemma LeavingStart(p: int)
      requires Valid() && 0 <= p < MAXPROC
      ensures Leaving(p, 0, table.proc_table[p].semvec, table.proc_table[..], table.Q, cell[..])
      ensures Nulls(table.proc_table[p].semvec, 0)
    {
      assert table.proc_table[p].semvec[..0] == [];
    }

    lemma LeavingDone(p: int, v: seq<int>, t0: seq<Proc>, Q0: seq<seq<Link>>, c0: seq<int>)
      requires Leaving(p, SEMMAX, v, t0, Q0, c0)
      ensures Valid() && |Q0| == |table.Q| == 1 + |c0| && |c0| == cell.Length && table.Q[RUN] == Q0[RUN]
      ensures forall a: nat | a < cell.Length ::
                && Waiting(a) == Without(Procs(OfSem(Q0, a)), {p})
                && cell[a] == c0[a] + if p in Procs(OfSem(Q0, a)) then 1 else 0
      ensures SameTree(t0, table.proc_table[..])
      ensures Waits(Q0, p) == {} <==> Nulls(v, SEMMAX)
    {
      assert v[..SEMMAX] == v;
      LeftEverything(Q0, table.Q, c0, cell[..], p, v);
      LeftMeans(Q0, p, v);
    }

    // Takes p out of every semaphore queue; each semaphore p waited for rises by one.
    method OutBlocked(p: int) returns (rv: int)
      requires Valid() && 0 <= p < MAXPROC
      modifies this, semd_table, table`Q, table.proc_table, cell
      ensures Valid()
      ensures rv == if Waits(old(table.Q), p) == {} then ENULL else p
      ensures |table.Q| == old(|table.Q|) && table.Q[RUN] == old(table.Q)[RUN]
      ensures forall a: nat | a < cell.Length ::
                && Waiting(a) == Without(old(Waiting(a)), {p})
                && cell[a] == old(cell[a]) + if p in old(Waiting(a)) then 1 else 0
      ensures SameTree(old(table.proc_table[..]), table.proc_table[..])
    {
      hide Rings, FreeList, Entries, Lists, Contents, AllAwait, Leaving, Waits, Nulls;
      ghost var v, t0, Q0, c0 := table.proc_table[p].semvec, table.proc_table[..], table.Q, cell[..];
      LeavingStart(p);
      assert |v| == SEMMAX && |Q0| == 1 + |c0|;
      hide Valid;
      rv := ENULL;
      var i := 0;
      while i < SEMMAX
        invariant 0 <= i <= SEMMAX == |v| && Leaving(p, i, v, t0, Q0, c0)
        invariant rv == if Nulls(v, i) then ENULL else p
      {
        var out := OutRound(p, i, v, t0, Q0, c0);
        if out {
          rv := p;
        }
        i := i + 1;
      }
      LeavingDone(p, v, t0, Q0, c0);
    }

    // insertProc and removeProc on the running queue
    method InsertRun(tp: Link, p: int) returns (tp': Link)
      requires Valid() && tp == Tail(table.Q[RUN]) && 0 <= p < MAXPROC && p !in table.free
      requires Holding(table.Q, p) == {}
      modifies table`Q, table.proc_table
      ensures Valid() && tp' == Tail(table.Q[RUN]) && tp'.next == p
      ensures table.Q == old(table.Q)[RUN := old(table.Q)[RUN] + [tp']]
      ensures SameTree(old(table.proc_table[..]), table.proc_table[..])
    {
      hide Rings, FreeList, Entries, Lists, Contents, AllAwait;
      ghost var t, Q := table.proc_table[..], table.Q;
      tp' := table.InsertProc(tp, p, RUN);
      RunChanged(semd_table[..], Q, Q[RUN] + [tp'], act, fre, t, table.proc_table[..]);
    }

    method RemoveRun(tp: Link) returns (p: int, tp': Link)
      requires Valid() && tp == Tail(table.Q[RUN]) && table.Q[RUN] != []
      modifies table`Q, table.proc_table
      ensures Valid() && p == Procs(old(table.Q)[RUN])[0]
      ensures table.Q == old(table.Q)[RUN := old(table.Q)[RUN][1..]] && tp' == Tail(table.Q[RUN])
      ensures SameTree(old(table.proc_table[..]), table.proc_table[..])
    {
      hide Rings, FreeList, Entries, Lists, Contents, AllAwait;
      ghost var t, Q := table.proc_table[..], table.Q;
      p, tp' := table.RemoveProc(tp, RUN);
      RunChanged(semd_table[..], Q, Q[RUN][1..], act, fre, t, table.proc_table[..]);
    }

    // Writes the fields of an entry that the queue modules do not use.
    method WriteEntry(p: int, e: Proc)
      requires Valid() && 0 <= p < MAXPROC
      requires var f := table.proc_table[p];
               e == f.(parent := e.parent, child := e.child, brother := e.brother, regs := e.regs)
      modifies table.proc_table
      ensures Valid() && table.proc_table[..] == old(table.proc_table[..])[p := e]
    {
      hide Rings, FreeList, Entries, Lists, Contents, Awaits;
      ghost var t := table.proc_table[..];
      table.proc_table[p] := e;
      ProcFrame(t, table.proc_table[..], table.free_head, table.Q, table.free);
    }

    method Alloc() returns (p: int)
      requires Valid()
      modifies table`free_head, table`free, table.proc_table
      ensures Valid() && p == First(old(table.free))
      ensures table.free == if old(table.free) == [] then [] else old(table.free)[1..]
      ensures SameTree(old(table.proc_table[..]), table.proc_table[..])
    {
      hide Rings, FreeList, Entries, Lists, Contents, Awaits;
      p := table.AllocProc();
    }

    method Free(p: int)
      requires Valid() && 0 <= p < MAXPROC && p !in table.free && Holding(table.Q, p) == {}
      modifies table`free_head, table`free, table.proc_table
      ensures Valid() && table.free == old(table.free) + [p]
      ensures SameTree(old(table.proc_table[..]), table.proc_table[..])
    {
      hide Rings, FreeList, Entries, Lists, Contents;
      HoldingSplit(table.Q, p);
      assert Waits(table.Q, p) == {};
      assert Awaits(table.proc_table[..][p].semvec, {});
      table.FreeProc(p);
      CountZero(seq(SEMMAX, _ => ENULL), ENULL);
    }

    method OutRun(tp: Link, p: int) returns (tp': Link)
      requires Valid() && tp == Tail(table.Q[RUN]) && 0 <= p < MAXPROC
      modifies table`Q, table.proc_table
      ensures Valid() && |table.Q| == old(|table.Q|) && tp' == Tail(table.Q[RUN])
      ensures table.Q == old(table.Q)[RUN := table.Q[RUN]]
      ensures Procs(table.Q[RUN]) == Without(Procs(old(table.Q)[RUN]), {p})
      ensures SameTree(old(table.proc_table[..]), table.proc_table[..])
    {
      hide Rings, FreeList, Entries, Lists, Contents, AllAwait;
      ghost var t, Q := table.proc_table[..], table.Q;
      var rv, tail := table.OutProc(tp, p, RUN);
      tp' := tail;
      assert table.Q == Q[RUN := table.Q[RUN]];
      RunChanged(semd_table[..], Q, table.Q[RUN], act, fre, t, table.proc_table[..]);
    }
  }
}
