// What P and V do to the counters over whole runs, and whom they let into a critical section.
module VirtualCount {
  import opened Base
  import opened Semaphore
  import opened VirtualSem
  import opened VirtualWakeup

  // e is a call of P, or else of V, on address a.
  predicate Asks(e: Event, lock: bool, a: int) {
    e.Call? && (e.op == LOCK) == lock && e.a == a
  }

  function Calls(es: seq<Event>, lock: bool, a: int): nat {
    if es == [] then 0 else (if Asks(es[0], lock, a) then 1 else 0) + Calls(es[1..], lock, a)
  }

  // A call of P, or else of V, on a that has not got at the counter yet.
  predicate Pends(p: Pc, lock: bool, a: int) {
    (p.Queued? || p.Inside?) && (p.op == LOCK) == lock && p.a == a
  }

  ghost function Entering(pc: seq<Pc>, lock: bool, a: int): (r: set<int>)
    ensures forall t :: t in r <==> 0 <= t < |pc| && Pends(pc[t], lock, a)
  {
    set t | 0 <= t < |pc| && Pends(pc[t], lock, a)
  }

  lemma EnteringUpdate(pc: seq<Pc>, t: int, p: Pc, lock: bool, a: int)
    requires 0 <= t < |pc|
    ensures |Entering(pc[t := p], lock, a)| ==
            |Entering(pc, lock, a)| - (if Pends(pc[t], lock, a) then 1 else 0) + (if Pends(p, lock, a) then 1 else 0)
  {
    hide Pends;
    var x, y := Entering(pc, lock, a), Entering(pc[t := p], lock, a);
    assert y == if Pends(p, lock, a) then (x - {t}) + {t} else x - {t};
  }

  // The counter of a as it will be when the calls under way have got at it.
  ghost function Level(s: System, a: int): int
    requires a in s.mem
  {
    s.mem[a] - |Entering(s.pc, true, a)| + |Entering(s.pc, false, a)|
  }

  // What an event adds to the level of a.
  function Gain(e: Event, a: int): int {
    (if Asks(e, false, a) then 1 else 0) - (if Asks(e, true, a) then 1 else 0)
  }

  lemma LevelMoves(s: System, r: System, t: int, a: int)
    requires a in s.mem && a in r.mem && 0 <= t < |s.pc| == |r.pc| && r.pc == s.pc[t := r.pc[t]]
    ensures Level(r, a) == Level(s, a) + (r.mem[a] - s.mem[a])
                           - (if Pends(r.pc[t], true, a) then 1 else 0) + (if Pends(s.pc[t], true, a) then 1 else 0)
                           + (if Pends(r.pc[t], false, a) then 1 else 0) - (if Pends(s.pc[t], false, a) then 1 else 0)
  {
    EnteringUpdate(s.pc, t, r.pc[t], true, a);
    EnteringUpdate(s.pc, t, r.pc[t], false, a);
  }

  lemma WorkLevel(s: System, t: int, a: int)
    requires Inv(s) && Enabled(s, Work(t)) && a >= SEG2 && a in s.mem
    ensures var r := Next(s, Work(t)); r.mem.Keys == s.mem.Keys && Level(r, a) == Level(s, a)
  {
    var r := Next(s, Work(t));
    StepInv(s, Work(t));
    assert Known(r.mem, |r.vs|, r.pc[t]);
    hide Inv, FirstWith;
    LevelMoves(s, r, t, a);
  }

  lemma LeaveLevel(s: System, t: int, a: int)
    requires Inv(s) && Enabled(s, Leave(t)) && a in s.mem
    ensures Level(Next(s, Leave(t)), a) == Level(s, a)
  {
    var r := Next(s, Leave(t));
    assert Known(s.mem, |s.vs|, s.pc[t]);
    var s1 := s.(pc := s.pc[t := s.pc[t].next]);
    LevelMoves(s, s1, t, a);
    if s.prot.q != [] {
      var w := s.prot.q[0];
      assert w in s.prot.q;
      MutexPass(s.prot, s.pc, t, s.pc[t].next, w, Admitted(s));
      hide Inv, Level;
      LevelMoves(s1, s1.(pc := r.pc), w, a);
    }
  }

  lemma ActLevel(s: System, t: int, a: int)
    requires Inv(s) && Enabled(s, Act(t)) && a in s.mem
    ensures Level(Next(s, Act(t)), a) == Level(s, a)
  {
    var r := Next(s, Act(t));
    if s.pc[t].Locking? {
      LevelMoves(s, r, t, a);
    } else {
      var u := s.vs[s.pc[t].slot].sem;
      LedgersRouse(s.vs, s.pc, t, s.pc[t].slot);
      hide Inv, Level, Ledgers;
      var s1 := s.(pc := s.pc[t := Idle]);
      LevelMoves(s, s1, t, a);
      if u.val < 0 { LevelMoves(s1, s1.(pc := r.pc), u.q[0], a); }
    }
  }

  // What follows a step is known, and the one that it lets in or wakes up waits for that.
  lemma StepOthers(s: System, e: Event)
    requires Inv(s) && Enabled(s, e)
    ensures Known(s.mem, |s.vs|, s.pc[e.t])
    ensures e.Leave? && s.prot.q != [] ==>
              var w := s.prot.q[0]; 0 <= w < |s.pc| && w != e.t && s.pc[w].Queued?
    ensures e.Act? && s.pc[e.t].Unlocking? && s.vs[s.pc[e.t].slot].sem.val < 0 ==>
              var u := s.vs[s.pc[e.t].slot].sem; u.q != [] && 0 <= u.q[0] < |s.pc| && s.pc[u.q[0]].Asleep?
  {
    hide Ledgers, Counts;
    assert Known(s.mem, |s.vs|, s.pc[e.t]);
    if e.Act? && s.pc[e.t].Unlocking? { LedgersRouse(s.vs, s.pc, e.t, s.pc[e.t].slot); }
    if e.Leave? && s.prot.q != [] {
      assert s.prot.q[0] in s.prot.q;
      MutexPass(s.prot, s.pc, e.t, s.pc[e.t].next, s.prot.q[0], Admitted(s));
    }
  }

  // A step moves the level of a by the call that it is, if any.
  lemma StepLevel(s: System, e: Event, a: int)
    requires Inv(s) && Enabled(s, e) && a >= SEG2 && a in s.mem
    ensures var r := Next(s, e); r.mem.Keys == s.mem.Keys && Level(r, a) == Level(s, a) + Gain(e, a)
  {
    match e
    case Call(t, op, b) => LevelMoves(s, Next(s, e), t, a);
    case Work(t) => WorkLevel(s, t, a);
    case Leave(t) => LeaveLevel(s, t, a);
    case Act(t) => ActLevel(s, t, a);
  }

  lemma {:induction false} RunLevel(s: System, es: seq<Event>, a: int)
    requires Inv(s) && Legal(s, es) && a >= SEG2 && a in s.mem
    ensures var r := Reached(s, es);
            r.mem.Keys == s.mem.Keys && Level(r, a) == Level(s, a) - Calls(es, true, a) + Calls(es, false, a)
    decreases |es|
  {
    hide Inv, Next, Level;
    if es != [] {
      StepInv(s, es[0]);
      StepLevel(s, es[0], a);
      RunLevel(Next(s, es[0]), es[1..], a);
    }
  }

  // In every run each counter is its initial value, less one for every P on its address and
  // plus one for every V on it, apart from the calls still on their way to the counter.
  lemma CountersExact(mem: map<int, int>, es: seq<Event>, a: int)
    requires GoodMem(mem) && Legal(Initial(mem), es) && a in mem
    ensures var s := Reached(Initial(mem), es);
            && s.mem.Keys == mem.Keys
            && s.mem[a] == mem[a] - (Calls(es, true, a) - |Entering(s.pc, true, a)|)
                                  + (Calls(es, false, a) - |Entering(s.pc, false, a)|)
  {
    InitialInv(mem);
    assert Entering(Initial(mem).pc, true, a) == {} && Entering(Initial(mem).pc, false, a) == {};
    RunLevel(Initial(mem), es, a);
  }

  // ---------- critical sections ----------

  // The terminals whose last call on a was a P, if those of h are such before e.
  function LastP(h: set<int>, e: Event, a: int): set<int> {
    if Asks(e, true, a) then h + {e.t} else if Asks(e, false, a) then h - {e.t} else h
  }

  function LastPs(h: set<int>, es: seq<Event>, a: int): set<int>
    decreases |es|
  {
    if es == [] then h else LastPs(LastP(h, es[0], a), es[1..], a)
  }

  // Every terminal calls P and V on a in turn, P first.
  ghost predicate InTurn(h: set<int>, es: seq<Event>, a: int)
    decreases |es|
  {
    es == [] || ((Asks(es[0], true, a) ==> es[0].t !in h) && (Asks(es[0], false, a) ==> es[0].t in h)
                 && InTurn(LastP(h, es[0], a), es[1..], a))
  }

  // The terminals in the section that a guards: past a P on it, and without a V since.
  ghost function Section(h: set<int>, pc: seq<Pc>, a: int): set<int> {
    h - Entering(pc, true, a) - Kept(pc, a)
  }

  // Those on their way through a P, or kept by it, are among h.
  ghost predicate Recorded(s: System, h: set<int>, a: int) {
    Entering(s.pc, true, a) <= h && Kept(s.pc, a) <= h
  }

  lemma StepRecorded(s: System, h: set<int>, e: Event, a: int)
    requires Inv(s) && Recorded(s, h, a) && Enabled(s, e) && a >= SEG2
    ensures Recorded(Next(s, e), LastP(h, e, a), a)
  {
    var r := Next(s, e);
    hide Inv, FirstWith;
    StepOthers(s, e);
    forall t | 0 <= t < |s.pc| && (t in Entering(r.pc, true, a) || t in Kept(r.pc, a))
      ensures t in LastP(h, e, a)
    {
      if t == e.t && !e.Call? {
        assert t in Entering(s.pc, true, a) || t in Kept(s.pc, a);
      } else if t != e.t {
        assert t in Entering(s.pc, true, a) || t in Kept(s.pc, a);
      }
    }
  }

  lemma {:induction false} RunSection(s: System, h: set<int>, es: seq<Event>, a: int)
    requires Inv(s) && Recorded(s, h, a) && Legal(s, es) && InTurn(h, es, a) && a >= SEG2 && a in s.mem
    ensures var r, h' := Reached(s, es), LastPs(h, es, a);
            Recorded(r, h', a) && a in r.mem && Level(r, a) + |h'| == Level(s, a) + |h|
    decreases |es|
  {
    hide Inv, Next, Level, Recorded;
    if es != [] {
      StepInv(s, es[0]);
      StepLevel(s, es[0], a);
      StepRecorded(s, h, es[0], a);
      RunSection(Next(s, es[0]), LastP(h, es[0], a), es[1..], a);
    }
  }

  // Mutual exclusion: in a run whose takes are guarded and in which the terminals call P and V
  // on a in turn, never more are in its section than the counter had units at the start, so at
  // most one if it had one. Once all is settled nobody is kept out while there is room.
  lemma MutualExclusion(mem: map<int, int>, es: seq<Event>, a: int)
    requires GoodMem(mem) && a in mem && GuardedRun(Initial(mem), es) && InTurn({}, es, a)
    ensures Legal(Initial(mem), es)
    ensures var s, h := Reached(Initial(mem), es), LastPs({}, es, a);
            && |Section(h, s.pc, a)| <= mem[a]
            && (mem[a] == 1 ==> forall t, u | t in Section(h, s.pc, a) && u in Section(h, s.pc, a) :: t == u)
            && (Settled(s.pc) && Kept(s.pc, a) != {} ==>
                  |Section(h, s.pc, a)| + |Entering(s.pc, false, a)| == mem[a])
  {
    hide Inv, Reached, Legal, Right, Settled, Recorded, Section;
    WakeupsRight(mem, es);
    InitialInv(mem);
    var s0 := Initial(mem);
    NobodyYet(mem, a);
    RunSection(s0, {}, es, a);
    SectionFits(Reached(s0, es), LastPs({}, es, a), a, mem[a]);
  }

  lemma NobodyYet(mem: map<int, int>, a: int)
    requires a in mem
    ensures Recorded(Initial(mem), {}, a) && Level(Initial(mem), a) == mem[a]
  {
    var pc := Initial(mem).pc;
    assert Entering(pc, true, a) == {} && Entering(pc, false, a) == {} && Kept(pc, a) == {};
  }

  lemma SectionFits(s: System, h: set<int>, a: int, n: int)
    requires Recorded(s, h, a) && a in s.mem && Level(s, a) + |h| == n && Right(s)
    ensures |Section(h, s.pc, a)| <= n
    ensures n == 1 ==> forall t, u | t in Section(h, s.pc, a) && u in Section(h, s.pc, a) :: t == u
    ensures Settled(s.pc) && Kept(s.pc, a) != {} ==> |Section(h, s.pc, a)| + |Entering(s.pc, false, a)| == n
  {
    SectionSize(h, s.pc, a);
    if n == 1 {
      forall t, u | t in Section(h, s.pc, a) && u in Section(h, s.pc, a) ensures t == u {
        SubsetSize({t, u}, Section(h, s.pc, a));
      }
    }
    if Kept(s.pc, a) != {} { assert |Kept(s.pc, a)| > 0; }
  }

  lemma SectionSize(h: set<int>, pc: seq<Pc>, a: int)
    requires Entering(pc, true, a) <= h && Kept(pc, a) <= h
    ensures |Section(h, pc, a)| == |h| - |Entering(pc, true, a)| - |Kept(pc, a)|
  {
    var x, y := Entering(pc, true, a), Kept(pc, a);
    assert x !! y;
    assert h == Section(h, pc, a) + x + y;
  }

  // ---------- addresses outside the shared segment ----------

  // On its way to the end.
  predicate Doomed(p: Pc) {
    ((p.Queued? || p.Inside?) && p.a < SEG2) || p == Leaving(Gone) || p == Gone
  }

  // Terminal t has called P or V on an address below the segment.
  ghost predicate CallsBelow(es: seq<Event>, t: int) {
    exists e :: e in es && e.Call? && e.t == t && e.a < SEG2
  }

  lemma StepDoomed(s: System, e: Event, t: int)
    requires Inv(s) && Enabled(s, e) && 0 <= t < |s.pc|
    ensures |Next(s, e).pc| == |s.pc|
    ensures Doomed(Next(s, e).pc[t]) <==> Doomed(s.pc[t]) || (e.Call? && e.t == t && e.a < SEG2)
  {
    hide Inv, FirstWith;
    StepOthers(s, e);
  }

  lemma {:induction false} RunDoomed(s: System, es: seq<Event>, t: int)
    requires Inv(s) && Legal(s, es) && 0 <= t < |s.pc|
    ensures |Reached(s, es).pc| == |s.pc|
    ensures Doomed(Reached(s, es).pc[t]) <==> Doomed(s.pc[t]) || CallsBelow(es, t)
    decreases |es|
  {
    hide Inv, Next, Doomed;
    if es != [] {
      StepInv(s, es[0]);
      StepDoomed(s, es[0], t);
      RunDoomed(Next(s, es[0]), es[1..], t);
      assert es == [es[0]] + es[1..];
      assert CallsBelow(es, t) <==> (es[0].Call? && es[0].t == t && es[0].a < SEG2) || CallsBelow(es[1..], t);
    }
  }

  // A terminal is terminated if and only if it calls P or V on an address below the segment,
  // and it never returns from that call.
  lemma TerminatedIff(mem: map<int, int>, es: seq<Event>, t: int)
    requires GoodMem(mem) && Legal(Initial(mem), es) && 0 <= t < TER
    ensures var p := Reached(Initial(mem), es).pc;
            && |p| == TER
            && (CallsBelow(es, t) <==> Doomed(p[t]))
            && (p[t] == Gone ==> CallsBelow(es, t))
            && (CallsBelow(es, t) ==> p[t] != Idle)
  {
    InitialInv(mem);
    RunDoomed(Initial(mem), es, t);
  }
}
