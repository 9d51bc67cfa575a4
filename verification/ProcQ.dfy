// queues/procq.c: process queues as rings threaded through the link slots of the process
// table, and the free list threaded through link slot 0.
module ProcQ {
  import opened Base

  ghost predicate WellSized(t: seq<Proc>) {
    && |t| == MAXPROC
    && forall p | 0 <= p < MAXPROC :: |t[p].p_link| == SEMMAX && |t[p].semvec| == SEMMAX
  }

  predicate IsNode(l: Link) {
    0 <= l.next < MAXPROC && 0 <= l.index < SEMMAX
  }

  ghost function At(t: seq<Proc>, l: Link): Link
    requires WellSized(t) && IsNode(l)
  {
    t[l.next].p_link[l.index]
  }

  ghost function Store(t: seq<Proc>, l: Link, v: Link): (r: seq<Proc>)
    requires WellSized(t) && IsNode(l)
    ensures WellSized(r)
    ensures forall m {:trigger At(r, m)} | IsNode(m) :: At(r, m) == if m == l then v else At(t, m)
  {
    t[l.next := t[l.next].(p_link := t[l.next].p_link[l.index := v])]
  }

  // The ring of a queue: every node points to the next one and the last to the first; no
  // process occurs twice.
  ghost predicate Ring(t: seq<Proc>, q: seq<Link>)
    requires WellSized(t)
  {
    && (forall k | 0 <= k < |q| :: IsNode(q[k]))
    && (forall k {:trigger At(t, q[k])} | 0 <= k < |q| ::
          At(t, q[k]) == q[if k + 1 < |q| then k + 1 else 0])
    && (forall j, k | 0 <= j < k < |q| :: q[j].next != q[k].next)
  }

  // A queue is held by a pointer to its last node.
  function Tail(q: seq<Link>): Link {
    if q == [] then NIL else q[|q| - 1]
  }

  // The processes of a queue, first to last.
  ghost function Procs(q: seq<Link>): (r: seq<int>)
    ensures |r| == |q|
    ensures forall k | 0 <= k < |q| :: r[k] == q[k].next
  {
    seq(|q|, k requires 0 <= k < |q| => q[k].next)
  }

  lemma ProcsAt(q: seq<Link>, k: nat)
    requires k < |q|
    ensures q[k].next in Procs(q)
  {
    assert Procs(q)[k] == q[k].next;
  }

  lemma RingNoDup(t: seq<Proc>, q: seq<Link>)
    requires WellSized(t) && Ring(t, q)
    ensures NoDup(Procs(q))
  {
  }

  // The queues that hold process p.
  ghost function Holding(Q: seq<seq<Link>>, p: int): (r: set<int>)
    ensures forall a :: a in r <==> 0 <= a < |Q| && p in Procs(Q[a])
  {
    set a | 0 <= a < |Q| && p in Procs(Q[a])
  }

  ghost predicate Apart(q: seq<Link>, r: seq<Link>) {
    forall l | l in q :: l !in r
  }

  // The free list runs through link slot 0.
  ghost predicate FreeList(t: seq<Proc>, head: int, free: seq<int>)
    requires WellSized(t)
  {
    && (forall k | 0 <= k < |free| :: 0 <= free[k] < MAXPROC)
    && NoDup(free)
    && head == First(free)
    && forall k {:trigger t[free[k]]} | 0 <= k < |free| :: t[free[k]].p_link[0].next == After(free, k)
  }

  ghost predicate FreeEntry(e: Proc)
    requires |e.p_link| == SEMMAX
  {
    && e.qcount == 0
    && (forall j | 1 <= j < SEMMAX :: e.p_link[j] == NIL)
    && forall j | 0 <= j < |e.semvec| :: e.semvec[j] == ENULL
  }

  // The used link slots of a live process are nodes, and qcount counts both the used slots
  // and the queues that hold the process.
  ghost predicate LiveEntry(e: Proc, held: set<int>)
    requires |e.p_link| == SEMMAX
  {
    && (forall j | 0 <= j < SEMMAX :: e.p_link[j] == NIL || IsNode(e.p_link[j]))
    && e.qcount == Count(e.p_link, NIL) == |held|
  }

  ghost predicate Entry(t: seq<Proc>, Q: seq<seq<Link>>, free: seq<int>, p: int)
    requires WellSized(t) && 0 <= p < MAXPROC
  {
    if p in free then FreeEntry(t[p]) && Holding(Q, p) == {} else LiveEntry(t[p], Holding(Q, p))
  }

  // All queues are rings and no slot belongs to two of them.
  ghost predicate Rings(t: seq<Proc>, Q: seq<seq<Link>>)
    requires WellSized(t)
  {
    && (forall a | 0 <= a < |Q| :: Ring(t, Q[a]))
    && (forall a, b | 0 <= a < |Q| && 0 <= b < |Q| && a != b :: Apart(Q[a], Q[b]))
  }

  ghost predicate Entries(t: seq<Proc>, Q: seq<seq<Link>>, free: seq<int>)
    requires WellSized(t)
  {
    forall p | 0 <= p < MAXPROC :: Entry(t, Q, free, p)
  }

  ghost predicate ProcRep(t: seq<Proc>, head: int, Q: seq<seq<Link>>, free: seq<int>) {
    WellSized(t) && Rings(t, Q) && FreeList(t, head, free) && Entries(t, Q, free)
  }

  // What a queue operation may change of the entry of another process.
  ghost predicate SameCounts(e: Proc, f: Proc) {
    && f.qcount == e.qcount
    && Count(f.p_link, NIL) == Count(e.p_link, NIL)
    && f.semvec == e.semvec
  }

  lemma HoldingUpdate(Q: seq<seq<Link>>, a: nat, q: seq<Link>, p: int)
    requires a < |Q|
    ensures Holding(Q[a := q], p) == if p in Procs(q) then Holding(Q, p) + {a} else Holding(Q, p) - {a}
  {
  }

  // Rings through other slots of the same entries keep their exact sequence.
  lemma RingFrame(t: seq<Proc>, t': seq<Proc>, q: seq<Link>)
    requires WellSized(t) && WellSized(t') && Ring(t, q)
    requires forall l | l in q :: IsNode(l) && At(t', l) == At(t, l)
    ensures Ring(t', q)
  {
    forall k | 0 <= k < |q|
      ensures At(t', q[k]) == q[if k + 1 < |q| then k + 1 else 0]
    {
      assert q[k] in q;
      assert At(t, q[k]) == q[if k + 1 < |q| then k + 1 else 0];
    }
  }

  lemma RingNodes(t: seq<Proc>, q: seq<Link>, l: Link)
    requires WellSized(t) && Ring(t, q) && l in q
    ensures IsNode(l) && IsNode(At(t, l)) && At(t, l) in q && l.next in Procs(q)
  {
    var k :| 0 <= k < |q| && q[k] == l;
    assert At(t, q[k]) == q[if k + 1 < |q| then k + 1 else 0];
    ProcsAt(q, k);
  }

  // Replacing the ring of queue a by q, made of nodes of the old ring and of free slots,
  // leaves every other ring alone.
  lemma ReplaceRings(t: seq<Proc>, Q: seq<seq<Link>>, t': seq<Proc>, a: nat, q: seq<Link>)
    requires WellSized(t) && Rings(t, Q) && a < |Q|
    requires WellSized(t') && Ring(t', q)
    requires forall l | l in q :: l in Q[a] || (IsNode(l) && At(t, l) == NIL)
    requires forall l | IsNode(l) && l !in Q[a] && l !in q :: At(t', l) == At(t, l)
    ensures Rings(t', Q[a := q])
  {
    forall b | 0 <= b < |Q| && b != a
      ensures Ring(t', Q[b]) && Apart(q, Q[b]) && Apart(Q[b], q)
    {
      forall l | l in Q[b]
        ensures l !in q && IsNode(l) && At(t', l) == At(t, l)
      {
        RingNodes(t, Q[b], l);
        assert Apart(Q[b], Q[a]);
      }
      RingFrame(t, t', Q[b]);
    }
  }

  // What the entry of x may not change when the ring of queue a becomes q.
  ghost predicate Undisturbed(t: seq<Proc>, t': seq<Proc>, x: int)
    requires WellSized(t) && WellSized(t') && 0 <= x < MAXPROC
  {
    && SameCounts(t[x], t'[x])
    && forall j | 0 <= j < SEMMAX ::
         t'[x].p_link[j] == t[x].p_link[j] || (IsNode(t[x].p_link[j]) && IsNode(t'[x].p_link[j]))
  }

  lemma EntryFrame(t: seq<Proc>, Q: seq<seq<Link>>, free: seq<int>, t': seq<Proc>, a: nat, q: seq<Link>, x: int)
    requires WellSized(t) && WellSized(t') && a < |Q| && 0 <= x < MAXPROC
    requires Entry(t, Q, free, x) && Undisturbed(t, t', x)
    requires x in Procs(q) <==> x in Procs(Q[a])
    ensures Entry(t', Q[a := q], free, x)
  {
    HoldingUpdate(Q, a, q, x);
    assert Holding(Q[a := q], x) == Holding(Q, x);
  }

  lemma FreeListFrame(t: seq<Proc>, t': seq<Proc>, head: int, free: seq<int>)
    requires WellSized(t) && WellSized(t') && FreeList(t, head, free)
    requires forall x | x in free :: t'[x].p_link == t[x].p_link
    ensures FreeList(t', head, free)
  {
    forall k | 0 <= k < |free|
      ensures t'[free[k]].p_link[0].next == After(free, k)
    {
      assert free[k] in free;
      assert t[free[k]].p_link[0].next == After(free, k);
    }
  }

  // Slots off the changed ring keep their contents, so free entries are not touched at all.
  lemma FreeUntouched(t: seq<Proc>, Q: seq<seq<Link>>, free: seq<int>, t': seq<Proc>, a: nat, q: seq<Link>, x: int)
    requires WellSized(t) && WellSized(t') && a < |Q| && 0 <= x < MAXPROC && x in free
    requires Entry(t, Q, free, x) && x !in Procs(q)
    requires forall l | IsNode(l) && l !in Q[a] && l !in q :: At(t', l) == At(t, l)
    ensures t'[x].p_link == t[x].p_link
  {
    assert a !in Holding(Q, x);
    forall j | 0 <= j < SEMMAX ensures t'[x].p_link[j] == t[x].p_link[j] {
      var l := Link(x, j);
      assert At(t', l) == At(t, l);
    }
  }

  // A change of queue a that touches no entry but that of p keeps the representation.
  lemma ReplaceRep(t: seq<Proc>, head: int, Q: seq<seq<Link>>, free: seq<int>,
                   t': seq<Proc>, a: nat, q: seq<Link>, p: int)
    requires ProcRep(t, head, Q, free) && a < |Q| && 0 <= p < MAXPROC && p !in free
    requires WellSized(t') && Rings(t', Q[a := q])
    requires forall l | IsNode(l) && l !in Q[a] && l !in q :: At(t', l) == At(t, l)
    requires forall x | 0 <= x < MAXPROC && x != p ::
               Undisturbed(t, t', x) && (x in Procs(q) <==> x in Procs(Q[a]))
    requires LiveEntry(t'[p], Holding(Q[a := q], p))
    ensures ProcRep(t', head, Q[a := q], free)
  {
    var Q' := Q[a := q];
    forall x | 0 <= x < MAXPROC ensures Entry(t', Q', free, x) {
      assert Entry(t, Q, free, x);
      if x != p { EntryFrame(t, Q, free, t', a, q, x); }
    }
    forall x | x in free ensures t'[x].p_link == t[x].p_link {
      assert Entry(t, Q, free, x);
      assert a !in Holding(Q, x);
      FreeUntouched(t, Q, free, t', a, q, x);
    }
    FreeListFrame(t, t', head, free);
  }

  ghost function Bump(t: seq<Proc>, p: int, d: int): (r: seq<Proc>)
    requires WellSized(t) && 0 <= p < MAXPROC
    ensures WellSized(r)
    ensures forall m {:trigger At(r, m)} | IsNode(m) :: At(r, m) == At(t, m)
  {
    t[p := t[p].(qcount := t[p].qcount + d)]
  }

  // Writing one slot changes the number of used slots of one entry by that slot.
  lemma StoreCount(t: seq<Proc>, l: Link, v: Link)
    requires WellSized(t) && IsNode(l)
    ensures Count(Store(t, l, v)[l.next].p_link, NIL) ==
            Count(t[l.next].p_link, NIL) - (if At(t, l) == NIL then 0 else 1) + (if v == NIL then 0 else 1)
  {
    CountUpdate(t[l.next].p_link, NIL, l.index, v);
  }

  // The table after linking the free slot l behind the last node of ring q.
  ghost function Linked(t: seq<Proc>, q: seq<Link>, l: Link): (r: seq<Proc>)
    requires WellSized(t) && Ring(t, q) && IsNode(l)
    ensures WellSized(r)
  {
    if q == [] then Store(t, l, l) else Store(Store(t, l, q[0]), q[|q| - 1], l)
  }

  lemma LinkedRing(t: seq<Proc>, q: seq<Link>, l: Link)
    requires WellSized(t) && Ring(t, q) && IsNode(l) && l.next !in Procs(q)
    ensures Ring(Linked(t, q, l), q + [l])
  {
    var t', q' := Linked(t, q, l), q + [l];
    forall k | 0 <= k < |q| ensures q[k].next != l.next { ProcsAt(q, k); }
    forall k | 0 <= k < |q'|
      ensures At(t', q'[k]) == q'[if k + 1 < |q'| then k + 1 else 0]
    {
      if k < |q| - 1 { assert At(t, q[k]) == q[k + 1]; }
    }
  }

  function CutAt<T>(s: seq<T>, k: nat): (r: seq<T>)
    requires k < |s|
    ensures |r| == |s| - 1
    ensures forall i | 0 <= i < |s| - 1 :: r[i] == if i < k then s[i] else s[i + 1]
  {
    s[..k] + s[k + 1..]
  }

  // The node before node k of ring q.
  ghost function Before(q: seq<Link>, k: nat): Link
    requires k < |q|
  {
    if k == 0 then q[|q| - 1] else q[k - 1]
  }

  // The table after bypassing node k of ring q and clearing its slot.
  ghost function Unlinked(t: seq<Proc>, q: seq<Link>, k: nat): (r: seq<Proc>)
    requires WellSized(t) && Ring(t, q) && k < |q|
    ensures WellSized(r)
  {
    if |q| == 1 then Store(t, q[0], NIL)
    else Store(Store(t, Before(q, k), At(t, q[k])), q[k], NIL)
  }

  lemma UnlinkedRing(t: seq<Proc>, q: seq<Link>, k: nat)
    requires WellSized(t) && Ring(t, q) && k < |q|
    ensures Ring(Unlinked(t, q, k), CutAt(q, k))
  {
    var t', q' := Unlinked(t, q, k), CutAt(q, k);
    CutDistinct(q, k);
    forall i | 0 <= i < |q'|
      ensures At(t', q'[i]) == q'[if i + 1 < |q'| then i + 1 else 0]
    {
      UnlinkedNext(t, q, k, i);
    }
  }

  lemma CutDistinct(q: seq<Link>, k: nat)
    requires k < |q|
    requires forall i, j | 0 <= i < j < |q| :: q[i].next != q[j].next
    requires forall i | 0 <= i < |q| :: IsNode(q[i])
    ensures forall i, j | 0 <= i < j < |CutAt(q, k)| :: CutAt(q, k)[i].next != CutAt(q, k)[j].next
    ensures forall i | 0 <= i < |CutAt(q, k)| :: IsNode(CutAt(q, k)[i])
  {
  }

  lemma UnlinkedNext(t: seq<Proc>, q: seq<Link>, k: nat, i: nat)
    requires WellSized(t) && Ring(t, q) && k < |q| && i < |q| - 1
    ensures At(Unlinked(t, q, k), CutAt(q, k)[i]) == CutAt(q, k)[if i + 1 < |q| - 1 then i + 1 else 0]
  {
    var j := if i < k then i else i + 1;
    var b := if k == 0 then |q| - 1 else k - 1;
    assert CutAt(q, k)[i] == q[j];
    assert q[j] != q[k];
    assert At(t, q[j]) == q[if j + 1 < |q| then j + 1 else 0];
    assert At(t, q[k]) == q[if k + 1 < |q| then k + 1 else 0];
    if j == b {
      assert At(Unlinked(t, q, k), q[j]) == At(t, q[k]);
    } else {
      assert q[j] != q[b];
      assert At(Unlinked(t, q, k), q[j]) == At(t, q[j]);
    }
  }

  lemma CutProcs(q: seq<Link>, k: nat)
    requires k < |q|
    requires forall i, j | 0 <= i < j < |q| :: q[i].next != q[j].next
    ensures Procs(CutAt(q, k)) == CutAt(Procs(q), k) == Without(Procs(q), {q[k].next})
    ensures forall x :: x in Procs(CutAt(q, k)) <==> x in Procs(q) && x != q[k].next
    ensures forall l :: l in CutAt(q, k) <==> l in q && l != q[k]
  {
    WithoutOne(Procs(q), k);
    WithoutMembers(Procs(q), {q[k].next});
    forall l | l in q && l != q[k] ensures l in CutAt(q, k) {
      var i :| 0 <= i < |q| && q[i] == l;
      assert CutAt(q, k)[if i < k then i else i - 1] == l;
    }
  }

  // Linking l changes only slots of the ring and l, and l's entry gains the one slot.
  lemma LinkedFrame(t: seq<Proc>, q: seq<Link>, l: Link)
    requires WellSized(t) && Ring(t, q) && IsNode(l) && l.next !in Procs(q) && At(t, l) == NIL
    ensures forall m | IsNode(m) && m !in q && m != l :: At(Linked(t, q, l), m) == At(t, m)
    ensures forall x | 0 <= x < MAXPROC && x != l.next :: Undisturbed(t, Linked(t, q, l), x)
    ensures forall j | 0 <= j < SEMMAX ::
              Linked(t, q, l)[l.next].p_link[j] ==
              if j != l.index then t[l.next].p_link[j] else if q == [] then l else q[0]
    ensures SameRest(t, Linked(t, q, l)) && Linked(t, q, l)[l.next].qcount == t[l.next].qcount
    ensures Count(Linked(t, q, l)[l.next].p_link, NIL) == Count(t[l.next].p_link, NIL) + 1
  {
    hide Count, Procs;
    StoreCount(t, l, if q == [] then l else q[0]);
    if q != [] {
      var z := q[|q| - 1];
      assert At(t, z) == q[0];
      ProcsAt(q, |q| - 1);
      StoreCount(Store(t, l, q[0]), z, l);
    }
  }

  // Unlinking node k changes only slots of the ring, and its entry loses the one slot.
  lemma UnlinkedFrame(t: seq<Proc>, q: seq<Link>, k: nat)
    requires WellSized(t) && Ring(t, q) && k < |q|
    ensures forall m | IsNode(m) && m !in q :: At(Unlinked(t, q, k), m) == At(t, m)
    ensures forall x | 0 <= x < MAXPROC && x != q[k].next :: Undisturbed(t, Unlinked(t, q, k), x)
    ensures Unlinked(t, q, k)[q[k].next]
            == t[q[k].next].(p_link := t[q[k].next].p_link[q[k].index := NIL])
    ensures SameRest(t, Unlinked(t, q, k))
    ensures Count(Unlinked(t, q, k)[q[k].next].p_link, NIL) == Count(t[q[k].next].p_link, NIL) - 1
  {
    hide Count, Procs;
    var l := q[k];
    assert At(t, l) == q[if k + 1 < |q| then k + 1 else 0];
    StoreCount(t, l, NIL);
    if |q| > 1 {
      var j := if k == 0 then |q| - 1 else k - 1;
      var z := Before(q, k);
      assert z == q[j] && z.next != l.next;
      assert At(t, z) == q[if j + 1 < |q| then j + 1 else 0];
      UnlinkedPair(t, z, l);
    }
  }

  lemma UnlinkedPair(t: seq<Proc>, z: Link, l: Link)
    requires WellSized(t) && IsNode(z) && IsNode(l) && z.next != l.next
    requires IsNode(At(t, z)) && IsNode(At(t, l))
    ensures var t' := Store(Store(t, z, At(t, l)), l, NIL);
            && Undisturbed(t, t', z.next)
            && (forall x | 0 <= x < MAXPROC && x != z.next && x != l.next :: t'[x] == t[x])
            && t'[l.next] == t[l.next].(p_link := t[l.next].p_link[l.index := NIL])
  {
    StoreCount(t, z, At(t, l));
  }

  lemma InsertRings(t: seq<Proc>, Q: seq<seq<Link>>, a: nat, l: Link)
    requires WellSized(t) && Rings(t, Q) && a < |Q|
    requires IsNode(l) && l.next !in Procs(Q[a]) && At(t, l) == NIL
    ensures Rings(Bump(Linked(t, Q[a], l), l.next, 1), Q[a := Q[a] + [l]])
  {
    var q := Q[a];
    var t1 := Linked(t, q, l);
    var t' := Bump(t1, l.next, 1);
    LinkedRing(t, q, l);
    LinkedFrame(t, q, l);
    RingFrame(t1, t', q + [l]);
    ReplaceRings(t, Q, t', a, q + [l]);
  }

  lemma InsertRep(t: seq<Proc>, head: int, Q: seq<seq<Link>>, free: seq<int>, a: nat, l: Link)
    requires ProcRep(t, head, Q, free) && a < |Q|
    requires IsNode(l) && l.next !in free && l.next !in Procs(Q[a]) && At(t, l) == NIL
    ensures ProcRep(Bump(Linked(t, Q[a], l), l.next, 1), head, Q[a := Q[a] + [l]], free)
  {
    var q, p := Q[a], l.next;
    var t1 := Linked(t, q, l);
    var t' := Bump(t1, p, 1);
    var q' := q + [l];
    InsertRings(t, Q, a, l);
    assert Procs(q') == Procs(q) + [p];
    HoldingUpdate(Q, a, q', p);
    assert a !in Holding(Q, p);
    assert Entry(t, Q, free, p);
    LinkedLive(t, q, l, Holding(Q, p), Holding(Q[a := q'], p));
    LinkedFrame(t, q, l);
    forall x | 0 <= x < MAXPROC && x != p ensures Undisturbed(t, t', x) {
      assert Undisturbed(t, t1, x);
    }
    ReplaceRep(t, head, Q, free, t', a, q', p);
  }

  lemma LinkedLive(t: seq<Proc>, q: seq<Link>, l: Link, held: set<int>, held': set<int>)
    requires WellSized(t) && Ring(t, q) && IsNode(l) && l.next !in Procs(q) && At(t, l) == NIL
    requires LiveEntry(t[l.next], held) && |held'| == |held| + 1
    ensures LiveEntry(Bump(Linked(t, q, l), l.next, 1)[l.next], held')
  {
    LinkedFrame(t, q, l);
  }

  lemma RemoveRep(t: seq<Proc>, head: int, Q: seq<seq<Link>>, free: seq<int>, a: nat, k: nat)
    requires ProcRep(t, head, Q, free) && a < |Q| && k < |Q[a]|
    ensures ProcRep(Bump(Unlinked(t, Q[a], k), Q[a][k].next, -1), head, Q[a := CutAt(Q[a], k)], free)
  {
    var q := Q[a];
    var q' := CutAt(q, k);
    var p := q[k].next;
    var t1 := Unlinked(t, q, k);
    var t' := Bump(t1, p, -1);
    UnlinkedRing(t, q, k);
    UnlinkedFrame(t, q, k);
    RingFrame(t1, t', q');
    CutProcs(q, k);
    HoldingUpdate(Q, a, q', p);
    ProcsAt(q, k);
    assert a in Holding(Q, p);
    assert Entry(t, Q, free, p);
    ReplaceRings(t, Q, t', a, q');
    forall x | 0 <= x < MAXPROC && x != p ensures Undisturbed(t, t', x) {
      assert Undisturbed(t, t1, x);
    }
    ReplaceRep(t, head, Q, free, t', a, q', p);
  }

  // Only links and counts differ.
  ghost predicate SameRest(t: seq<Proc>, t': seq<Proc>) {
    && |t'| == |t|
    && forall p | 0 <= p < |t| :: t'[p] == t[p].(p_link := t'[p].p_link, qcount := t'[p].qcount)
  }

  // An entry as initProc leaves it, before it is chained.
  function BlankEntry(): Proc {
    Proc(seq(SEMMAX, _ => NIL), 0, seq(SEMMAX, _ => ENULL), ENULL, ENULL, ENULL, Regs(0, 0))
  }

  // The rings do not go through an entry that no queue holds.
  lemma AllocRings(t: seq<Proc>, Q: seq<seq<Link>>, p: int)
    requires WellSized(t) && 0 <= p < MAXPROC && Holding(Q, p) == {} && forall a | 0 <= a < |Q| :: Ring(t, Q[a])
    ensures forall a | 0 <= a < |Q| :: Ring(Store(t, Link(p, 0), NIL), Q[a])
  {
    var t' := Store(t, Link(p, 0), NIL);
    forall a | 0 <= a < |Q| ensures Ring(t', Q[a]) {
      forall m | m in Q[a] ensures IsNode(m) && At(t', m) == At(t, m) {
        RingNodes(t, Q[a], m);
        assert m.next == p ==> a in Holding(Q, p);
      }
      RingFrame(t, t', Q[a]);
    }
  }

  lemma AllocRep(t: seq<Proc>, head: int, Q: seq<seq<Link>>, free: seq<int>)
    requires ProcRep(t, head, Q, free) && free != []
    ensures ProcRep(Store(t, Link(free[0], 0), NIL), After([ENULL] + free, 1), Q, free[1..])
    ensures t[free[0]].p_link[0].next == After([ENULL] + free, 1)
  {
    hide Ring;
    var p, free' := free[0], free[1..];
    var t' := Store(t, Link(p, 0), NIL);
    assert p in free && Entry(t, Q, free, p);
    AllocRings(t, Q, p);
    CountZero(t'[p].p_link, NIL);
    forall x | 0 <= x < MAXPROC ensures Entry(t', Q, free', x) {
      assert Entry(t, Q, free, x);
      assert x != p ==> (x in free' <==> x in free);
      assert p !in free';
    }
    assert t[free[0]].p_link[0].next == After(free, 0);
    forall k | 0 <= k < |free'| ensures t'[free'[k]].p_link[0].next == After(free', k) {
      assert t[free[k + 1]].p_link[0].next == After(free, k + 1);
    }
  }

  // The table after clearing the entry of p and chaining it behind the free list.
  ghost function Freed(t: seq<Proc>, free: seq<int>, p: int): (r: seq<Proc>)
    requires WellSized(t) && 0 <= p < MAXPROC && forall x | x in free :: 0 <= x < MAXPROC
    ensures WellSized(r)
  {
    var e := t[p].(p_link := seq(SEMMAX, _ => NIL), semvec := seq(SEMMAX, _ => ENULL), qcount := 0);
    var t1 := t[p := e];
    if free == [] then t1
    else
      var w := free[|free| - 1];
      assert w in free;
      t1[w := t1[w].(p_link := t1[w].p_link[0 := Link(p, t1[w].p_link[0].index)])]
  }

  lemma FreeRep(t: seq<Proc>, head: int, Q: seq<seq<Link>>, free: seq<int>, p: int)
    requires ProcRep(t, head, Q, free) && 0 <= p < MAXPROC && p !in free && Holding(Q, p) == {}
    ensures ProcRep(Freed(t, free, p), if free == [] then p else head, Q, free + [p])
  {
    var t', free' := Freed(t, free, p), free + [p];
    forall a | 0 <= a < |Q| ensures Ring(t', Q[a]) {
      forall m | m in Q[a] ensures IsNode(m) && At(t', m) == At(t, m) {
        RingNodes(t, Q[a], m);
        assert a in Holding(Q, m.next);
        if free != [] {
          var w := free[|free| - 1];
          assert w in free && Entry(t, Q, free, w);
        }
      }
      RingFrame(t, t', Q[a]);
    }
    forall x | 0 <= x < MAXPROC ensures Entry(t', Q, free', x) {
      assert Entry(t, Q, free, x);
      assert x in free' <==> x in free || x == p;
      if free != [] { assert free[|free| - 1] in free; }
    }
    forall k | 0 <= k < |free'| ensures t'[free'[k]].p_link[0].next == After(free', k) {
      if k < |free| {
        assert free[k] in free;
        assert t[free[k]].p_link[0].next == After(free, k);
      }
    }
  }

  // The representation reads links and counts, and the semaphore vectors of free entries only.
  lemma ProcFrame(t: seq<Proc>, t': seq<Proc>, head: int, Q: seq<seq<Link>>, free: seq<int>)
    requires ProcRep(t, head, Q, free) && |t'| == |t|
    requires forall x | 0 <= x < MAXPROC ::
               t'[x].p_link == t[x].p_link && t'[x].qcount == t[x].qcount && |t'[x].semvec| == SEMMAX
    requires forall x | 0 <= x < MAXPROC && x in free :: t'[x].semvec == t[x].semvec
    ensures ProcRep(t', head, Q, free)
  {
    assert WellSized(t');
    forall a | 0 <= a < |Q| ensures Ring(t', Q[a]) {
      forall l | l in Q[a] ensures IsNode(l) && At(t', l) == At(t, l) { RingNodes(t, Q[a], l); }
      RingFrame(t, t', Q[a]);
    }
    forall x | 0 <= x < MAXPROC ensures Entry(t', Q, free, x) {
      assert Entry(t, Q, free, x);
    }
    FreeListFrame(t, t', head, free);
  }

  class ProcTable {
    const proc_table: array<Proc>
    var free_head: int
    ghost var free: seq<int>        // the free list, first to last
    ghost var Q: seq<seq<Link>>     // every queue threaded through the table

    ghost predicate Valid()
      reads this, proc_table
    {
      ProcRep(proc_table[..], free_head, Q, free)
    }

    // initProc, for a kernel with n queues
    constructor (n: nat)
      ensures Valid() && fresh(proc_table)
      ensures Q == seq(n, _ => [])
      ensures |free| == MAXPROC && forall i | 0 <= i < MAXPROC :: free[i] == i
      ensures forall i | 0 <= i < MAXPROC :: proc_table[i] == BlankEntry().(p_link := proc_table[i].p_link)
    {
      proc_table := new Proc[MAXPROC](_ => BlankEntry());
      free_head := 0;
      Q := seq(n, _ => []);
      free := seq(MAXPROC, i => i);
      new;
      var i := 0;
      while i < MAXPROC - 1
        invariant 0 <= i <= MAXPROC - 1
        modifies proc_table
        invariant forall k | 0 <= k < MAXPROC ::
                    proc_table[k] == if k < i then BlankEntry().(p_link := BlankEntry().p_link[0 := Link(k + 1, 0)])
                                     else BlankEntry()
      {
        proc_table[i] := proc_table[i].(p_link := proc_table[i].p_link[0 := Link(i + 1, 0)]);
        i := i + 1;
      }
      forall p | 0 <= p < MAXPROC ensures Entry(proc_table[..], Q, free, p) {
        assert free[p] == p;
        assert forall a | 0 <= a < n :: Procs(Q[a]) == [];
      }
    }

    method SetLink(l: Link, v: Link)
      requires WellSized(proc_table[..]) && IsNode(l)
      modifies proc_table
      ensures proc_table[..] == Store(old(proc_table[..]), l, v)
    {
      var e := proc_table[l.next];
      proc_table[l.next] := e.(p_link := e.p_link[l.index := v]);
    }

    method AddCount(p: int, d: int)
      requires WellSized(proc_table[..]) && 0 <= p < MAXPROC
      modifies proc_table
      ensures proc_table[..] == Bump(old(proc_table[..]), p, d)
    {
      proc_table[p] := proc_table[p].(qcount := proc_table[p].qcount + d);
    }

    method GetLink(l: Link) returns (v: Link)
      requires WellSized(proc_table[..]) && IsNode(l)
      ensures v == At(proc_table[..], l)
    {
      v := proc_table[l.next].p_link[l.index];
    }

    method HeadQueue(tp: Link, ghost a: nat) returns (p: int)
      requires Valid() && a < |Q| && tp == Tail(Q[a])
      ensures p == First(Procs(Q[a]))
    {
      if tp.next == ENULL {
        return ENULL;
      }
      var v := GetLink(tp);
      p := v.next;
    }

    method AllocProc() returns (p: int)
      requires Valid()
      modifies this`free_head, this`free, proc_table
      ensures Valid() && p == First(old(free))
      ensures free == if old(free) == [] then [] else old(free)[1..]
      ensures SameRest(old(proc_table[..]), proc_table[..])
    {
      if free_head == ENULL {
        return ENULL;
      }
      p := free_head;
      AllocRep(proc_table[..], free_head, Q, free);
      var l := GetLink(Link(p, 0));
      free_head := l.next;
      SetLink(Link(p, 0), NIL);
      free := free[1..];
    }

    method ResetEntry(p: int)
      requires WellSized(proc_table[..]) && 0 <= p < MAXPROC
      modifies proc_table
      ensures proc_table[..] == Freed(old(proc_table[..]), [], p)
    {
      ghost var t := proc_table[..];
      var i := 0;
      while i < SEMMAX
        invariant 0 <= i <= SEMMAX
        invariant |proc_table[p].p_link| == |proc_table[p].semvec| == SEMMAX
        invariant proc_table[p] == t[p].(p_link := proc_table[p].p_link, semvec := proc_table[p].semvec)
        invariant forall j | 0 <= j < i :: proc_table[p].p_link[j] == NIL && proc_table[p].semvec[j] == ENULL
        invariant forall x | 0 <= x < MAXPROC && x != p :: proc_table[x] == t[x]
      {
        var e := proc_table[p];
        proc_table[p] := e.(p_link := e.p_link[i := NIL], semvec := e.semvec[i := ENULL]);
        i := i + 1;
      }
      proc_table[p] := proc_table[p].(qcount := 0);
      assert proc_table[p].p_link == seq(SEMMAX, _ => NIL);
      assert proc_table[p].semvec == seq(SEMMAX, _ => ENULL);
    }

    // The last entry of the free list.
    method LastFree(ghost t: seq<Proc>) returns (walker: int)
      requires WellSized(proc_table[..]) && WellSized(t) && FreeList(t, free_head, free) && free != []
      requires forall x | x in free :: proc_table[x].p_link == t[x].p_link
      ensures walker == free[|free| - 1]
    {
      walker := free_head;
      ghost var k := 0;
      assert free[0] in free && t[free[0]].p_link[0].next == After(free, 0);
      while proc_table[walker].p_link[0].next != ENULL
        invariant 0 <= k < |free| && walker == free[k]
        invariant proc_table[walker].p_link[0].next == After(free, k)
        decreases |free| - k
      {
        walker, k := proc_table[walker].p_link[0].next, k + 1;
        assert free[k] in free && t[free[k]].p_link[0].next == After(free, k);
      }
    }

    method FreeProc(p: int)
      requires Valid() && 0 <= p < MAXPROC && p !in free && Holding(Q, p) == {}
      modifies this`free_head, this`free, proc_table
      ensures Valid() && free == old(free) + [p]
      ensures forall x | 0 <= x < MAXPROC && x != p ::
                proc_table[x] == old(proc_table[x]).(p_link := proc_table[x].p_link)
      ensures proc_table[p] == old(proc_table[p]).(p_link := proc_table[p].p_link, qcount := 0,
                                                   semvec := seq(SEMMAX, _ => ENULL))
    {
      ghost var t := proc_table[..];
      FreeRep(t, free_head, Q, free, p);
      ResetEntry(p);
      if free_head == ENULL {
        free_head := p;
      } else {
        var walker := LastFree(t);
        var e := proc_table[walker];
        proc_table[walker] := e.(p_link := e.p_link[0 := e.p_link[0].(next := p)]);
      }
      assert proc_table[..] == Freed(t, free, p);
      free := free + [p];
    }

    method InsertProc(tp: Link, p: int, ghost a: nat) returns (tp': Link)
      requires Valid() && a < |Q| && tp == Tail(Q[a])
      requires 0 <= p < MAXPROC && p !in free && p !in Procs(Q[a])
      requires |Holding(Q, p)| < SEMMAX
      modifies this`Q, proc_table
      ensures Valid()
      ensures Q == old(Q)[a := old(Q)[a] + [tp']] && tp'.next == p
      ensures 0 <= tp'.index < SEMMAX && old(proc_table[p]).p_link[tp'.index].index == ENULL
      ensures forall j | 0 <= j < tp'.index :: old(proc_table[p]).p_link[j].index != ENULL
      ensures SameRest(old(proc_table[..]), proc_table[..])
    {
      ghost var t, q := proc_table[..], Q[a];
      assert Entry(t, Q, free, p);
      ghost var j := CountFree(proc_table[p].p_link, NIL);
      var i := 0;
      while proc_table[p].p_link[i].index != ENULL
        invariant 0 <= i <= j
        invariant forall j | 0 <= j < i :: proc_table[p].p_link[j].index != ENULL
        decreases j - i
      {
        i := i + 1;
      }
      var l := Link(p, i);
      assert At(t, l) == NIL;
      if tp.next == ENULL {
        SetLink(l, l);
      } else {
        var head := GetLink(tp);
        assert At(t, tp) == q[0];
        SetLink(l, head);
        SetLink(tp, l);
      }
      assert proc_table[..] == Linked(t, q, l);
      AddCount(p, 1);
      InsertRep(t, free_head, Q, free, a, l);
      Q := Q[a := q + [l]];
      tp' := l;
    }

    // Bypasses node k of queue a, which has at least two nodes.
    method Bypass(prev: Link, node: Link, ghost a: nat, ghost k: nat)
      requires Valid() && a < |Q| && k < |Q[a]| && |Q[a]| > 1
      requires prev == Before(Q[a], k) && node == Q[a][k]
      modifies this`Q, proc_table
      ensures Valid() && Q == old(Q)[a := CutAt(old(Q)[a], k)]
      ensures SameRest(old(proc_table[..]), proc_table[..])
    {
      ghost var t, q := proc_table[..], Q[a];
      var after := GetLink(node);
      SetLink(prev, after);
      SetLink(node, NIL);
      assert proc_table[..] == Unlinked(t, q, k);
      AddCount(node.next, -1);
      RemoveRep(t, free_head, Q, free, a, k);
      Q := Q[a := CutAt(q, k)];
    }

    // Clears the only node of queue a.
    method Clear(node: Link, ghost a: nat)
      requires Valid() && a < |Q| && Q[a] == [node]
      modifies this`Q, proc_table
      ensures Valid() && Q == old(Q)[a := []]
      ensures SameRest(old(proc_table[..]), proc_table[..])
    {
      ghost var t := proc_table[..];
      assert Ring(t, Q[a]) && Q[a][0] == node;
      SetLink(node, NIL);
      assert proc_table[..] == Unlinked(t, Q[a], 0);
      AddCount(node.next, -1);
      RemoveRep(t, free_head, Q, free, a, 0);
      assert CutAt(Q[a], 0) == [];
      Q := Q[a := []];
    }

    method RemoveProc(tp: Link, ghost a: nat) returns (p: int, tp': Link)
      requires Valid() && a < |Q| && tp == Tail(Q[a])
      modifies this`Q, proc_table
      ensures Valid()
      ensures Q == if old(Q)[a] == [] then old(Q) else old(Q)[a := old(Q)[a][1..]]
      ensures p == First(Procs(old(Q)[a])) && tp' == Tail(Q[a])
      ensures SameRest(old(proc_table[..]), proc_table[..])
    {
      if tp.next == ENULL {
        return ENULL, tp;
      }
      ghost var q := Q[a];
      assert At(proc_table[..], q[|q| - 1]) == q[0];
      var head := HeadQueue(tp, a);
      if tp.next == head {
        assert q == [tp] && q[1..] == [];
        Clear(tp, a);
        return head, NIL;
      }
      var node := GetLink(tp);
      Bypass(tp, node, a, 0);
      assert CutAt(q, 0) == q[1..];
      return head, tp;
    }

    // Walks from the head of queue a to the node of p, or to the tail.
    method Walk(tp: Link, p: int, ghost a: nat) returns (prev: Link, node: Link, ghost k: nat)
      requires Valid() && a < |Q| && Q[a] != [] && tp == Tail(Q[a])
      ensures k < |Q[a]| && node == Q[a][k] && prev == Before(Q[a], k)
      ensures forall i | 0 <= i < k :: Q[a][i].next != p
      ensures node.next != p ==> k == |Q[a]| - 1
    {
      ghost var t, q := proc_table[..], Q[a];
      assert At(t, q[|q| - 1]) == q[0];
      prev, k := tp, 0;
      node := GetLink(tp);
      while node.next != tp.next && node.next != p
        invariant 0 <= k < |q| && node == q[k] && prev == Before(q, k)
        invariant forall i | 0 <= i < k :: q[i].next != p
        decreases |q| - k
      {
        var after := GetLink(node);
        assert At(t, q[k]) == q[k + 1];
        prev, node, k := node, after, k + 1;
      }
    }

    method OutProc(tp: Link, p: int, ghost a: nat) returns (rv: int, tp': Link)
      requires Valid() && a < |Q| && tp == Tail(Q[a]) && 0 <= p < MAXPROC
      modifies this`Q, proc_table
      ensures Valid()
      ensures rv == if p in Procs(old(Q)[a]) then p else ENULL
      ensures p !in Procs(old(Q)[a]) ==> Q == old(Q)
      ensures p in Procs(old(Q)[a]) ==>
                exists k :: 0 <= k < |old(Q)[a]| && old(Q)[a][k].next == p && Q == old(Q)[a := CutAt(old(Q)[a], k)]
      ensures |Q| == |old(Q)| && tp' == Tail(Q[a]) && Procs(Q[a]) == Without(Procs(old(Q)[a]), {p})
      ensures SameRest(old(proc_table[..]), proc_table[..])
    {
      ghost var q := Q[a];
      if tp.next == ENULL {
        return ENULL, tp;
      }
      var head := HeadQueue(tp, a);
      if tp.next == head && tp.next == p {
        assert q == [tp];
        CutProcs(q, 0);
        ProcsAt(q, 0);
        Clear(tp, a);
        return p, NIL;
      }
      if tp.next == head && tp.next != p {
        assert q == [tp];
        WithoutNone(Procs(q), {p});
        return ENULL, tp;
      }
      var prev, node, k := Walk(tp, p, a);
      if node.next != p {
        WithoutNone(Procs(q), {p});
        return ENULL, tp;
      }
      CutProcs(q, k);
      ProcsAt(q, k);
      Bypass(prev, node, a, k);
      rv := p;
      tp' := if node.next == tp.next then prev else tp;
    }
  }
}
