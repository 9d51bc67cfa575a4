// Whose waiter a V on a virtual semaphore releases.
module VirtualWakeup {
  import opened Base
  import opened Semaphore
  import opened VirtualSem

  // The address of the call that a terminal has under way in a slot.
  function AddressOf(pc: Pc): int {
    match pc
    case Leaving(next) => if next.Locking? || next.Unlocking? then next.a else 0
    case Locking(_, a) => a
    case Unlocking(_, a) => a
    case Asleep(_, a) => a
    case _ => 0
  }

  // ---------- when the counters are right ----------

  // Everyone about to LOCK slot i is there for address a.
  ghost predicate LockersFor(pc: seq<Pc>, i: int, a: int) {
    forall t | 0 <= t < |pc| && RoleOf(pc[t]).Locks? && RoleOf(pc[t]).slot == i :: AddressOf(pc[t]) == a
  }

  // A P that finds no unit takes the first free slot; the guard is that nobody is about to
  // LOCK that slot for another address.
  ghost predicate Takes(s: System, t: int) {
    && 0 <= t < |s.pc| && s.pc[t].Inside? && s.pc[t].op == LOCK && s.pc[t].a >= SEG2
    && s.pc[t].a in s.mem && s.mem[s.pc[t].a] <= 0 && FirstWith(s.vs, 0) < |s.vs|
  }

  ghost predicate Guarded(s: System, e: Event) {
    e.Work? && Takes(s, e.t) ==> LockersFor(s.pc, FirstWith(s.vs, 0), s.pc[e.t].a)
  }

  // The line of slot i, those in its queue and then those about to LOCK it, ends with someone
  // who waits for the address that the slot records.
  ghost predicate Lined(vs: seq<Slot>, pc: seq<Pc>, i: int)
    requires 0 <= i < |vs|
  {
    var q := vs[i].sem.q;
    vs[i].addr != 0 ==>
      && LockersFor(pc, i, vs[i].addr)
      && (Those(pc, Locks(i)) != {}
          || (q != [] && 0 <= q[|q| - 1] < |pc| && AddressOf(pc[q[|q| - 1]]) == vs[i].addr))
  }

  ghost predicate AllLined(s: System) {
    forall i | 0 <= i < |s.vs| :: Lined(s.vs, s.pc, i)
  }

  // Whether p is in the line of slot i, and for which address.
  ghost predicate SamePlace(p: Pc, p': Pc) {
    RoleOf(p) == RoleOf(p') && AddressOf(p) == AddressOf(p')
  }

  lemma LinedSame(vs: seq<Slot>, pc: seq<Pc>, vs': seq<Slot>, pc': seq<Pc>, i: int)
    requires 0 <= i < |vs| == |vs'| && |pc| == |pc'| && Lined(vs, pc, i) && vs'[i] == vs[i]
    requires forall t | 0 <= t < |pc| :: SamePlace(pc[t], pc'[t]) || (NotAbout(pc[t], i) && NotAbout(pc'[t], i))
    requires forall t :: t in vs[i].sem.q <==> 0 <= t < |pc| && RoleOf(pc[t]) == Sleeps(i)
    ensures Lined(vs', pc', i)
  {
    var q := vs[i].sem.q;
    if vs[i].addr != 0 {
      if Those(pc, Locks(i)) != {} {
        var t :| t in Those(pc, Locks(i));
        assert t in Those(pc', Locks(i));
      } else {
        assert q[|q| - 1] in q;
      }
    }
  }

  ghost predicate NotAbout(p: Pc, i: int) {
    RoleOf(p) == Outside || RoleOf(p).slot != i
  }

  lemma CallLined(s: System, e: Event, i: int)
    requires Inv(s) && Enabled(s, e) && e.Call? && 0 <= i < |s.vs| && Lined(s.vs, s.pc, i)
    ensures Lined(Next(s, e).vs, Next(s, e).pc, i)
  {
    var r := Next(s, e);
    assert Ledger(s.vs, s.pc, i);
    LinedSame(s.vs, s.pc, r.vs, r.pc, i);
  }

  lemma LeaveLined(s: System, t: int, i: int)
    requires Inv(s) && Enabled(s, Leave(t)) && 0 <= i < |s.vs| && Lined(s.vs, s.pc, i)
    ensures Lined(Next(s, Leave(t)).vs, Next(s, Leave(t)).pc, i)
  {
    var r := Next(s, Leave(t));
    assert Known(s.mem, |s.vs|, s.pc[t]);
    assert Ledger(s.vs, s.pc, i);
    LinedSame(s.vs, s.pc, r.vs, r.pc, i);
  }

  lemma WorkLined(s: System, t: int, i: int)
    requires Inv(s) && Enabled(s, Work(t)) && 0 <= i < |s.vs| && Lined(s.vs, s.pc, i)
    requires Guarded(s, Work(t)) || i != FirstWith(s.vs, 0)
    ensures i < |Next(s, Work(t)).vs| && Lined(Next(s, Work(t)).vs, Next(s, Work(t)).pc, i)
  {
    var r := Next(s, Work(t));
    StepInv(s, Work(t));
    assert Known(r.mem, |r.vs|, r.pc[t]);
    assert Ledger(s.vs, s.pc, i);
    if r.vs[i] == s.vs[i] {
      LinedSame(s.vs, s.pc, r.vs, r.pc, i);
    } else if r.vs[i].addr != 0 {
      assert t in Those(r.pc, Locks(i));
    }
  }

  lemma SleepLined(s: System, t: int, i: int)
    requires Inv(s) && Enabled(s, Act(t)) && s.pc[t].Locking? && 0 <= i < |s.vs| && Lined(s.vs, s.pc, i)
    ensures Lined(Next(s, Act(t)).vs, Next(s, Act(t)).pc, i)
  {
    var r, n := Next(s, Act(t)), s.pc[t].slot;
    assert Ledger(s.vs, s.pc, i);
    if i != n {
      LinedSame(s.vs, s.pc, r.vs, r.pc, i);
    } else if s.vs[n].addr != 0 && s.vs[n].sem.val > 0 {
      ThoseUpdate(s.pc, t, r.pc[t], Locks(n));
      assert |Those(r.pc, Locks(n))| > 0;
    }
  }

  lemma RouseLined(s: System, t: int, i: int)
    requires Inv(s) && Enabled(s, Act(t)) && s.pc[t].Unlocking? && 0 <= i < |s.vs| && Lined(s.vs, s.pc, i)
    ensures Lined(Next(s, Act(t)).vs, Next(s, Act(t)).pc, i)
  {
    var r, n := Next(s, Act(t)), s.pc[t].slot;
    assert Ledger(s.vs, s.pc, n) && Ledger(s.vs, s.pc, i);
    if i != n {
      if s.vs[n].sem.val < 0 { assert s.vs[n].sem.q[0] in s.vs[n].sem.q; }
      LinedSame(s.vs, s.pc, r.vs, r.pc, i);
    } else {
      RouseOwn(s, t);
    }
  }

  // The first of the line leaves it, and the last is another one.
  lemma RouseOwn(s: System, t: int)
    requires Inv(s) && Enabled(s, Act(t)) && s.pc[t].Unlocking? && Lined(s.vs, s.pc, s.pc[t].slot)
    ensures Lined(Next(s, Act(t)).vs, Next(s, Act(t)).pc, s.pc[t].slot)
  {
    var r, n := Next(s, Act(t)), s.pc[t].slot;
    var q := s.vs[n].sem.q;
    assert Ledger(s.vs, s.pc, n);
    hide Inv;
    if s.vs[n].addr != 0 {
      if s.vs[n].sem.val < 0 { assert q[0] in q; }
      if u :| u in Those(s.pc, Locks(n)) {
        assert u in Those(r.pc, Locks(n));
      } else {
        assert Those(s.pc, Locks(n)) == {} && t in Those(s.pc, Unlocks(n));
        assert |Those(s.pc, Unlocks(n))| > 0;
        assert |q| >= 2 && q[|q| - 1] in q;
      }
    }
  }

  // A guarded step keeps every line in order, and any step the lines of all slots but the one
  // that is taken.
  lemma LineKept(s: System, e: Event, i: int)
    requires Inv(s) && Enabled(s, e) && 0 <= i < |s.vs| && Lined(s.vs, s.pc, i)
    requires Guarded(s, e) || i != FirstWith(s.vs, 0)
    ensures i < |Next(s, e).vs| && Lined(Next(s, e).vs, Next(s, e).pc, i)
  {
    hide Inv, Lined, Guarded;
    match e
    case Call(_, _, _) => CallLined(s, e, i);
    case Work(t) => WorkLined(s, t, i);
    case Leave(t) => LeaveLined(s, t, i);
    case Act(t) => if s.pc[t].Locking? { SleepLined(s, t, i); } else { RouseLined(s, t, i); }
  }

  lemma StepLined(s: System, e: Event)
    requires Inv(s) && AllLined(s) && Enabled(s, e) && Guarded(s, e)
    ensures AllLined(Next(s, e))
  {
    StepInv(s, e);
    SameSlots(s);
    SameSlots(Next(s, e));
    hide Inv, Lined, Guarded;
    forall i | 0 <= i < |s.vs| ensures Lined(Next(s, e).vs, Next(s, e).pc, i) { LineKept(s, e, i); }
  }

  lemma SameSlots(s: System)
    requires Inv(s)
    ensures |s.vs| == MAXPROC
  {
  }

  ghost predicate GuardedRun(s: System, es: seq<Event>)
    decreases |es|
  {
    es == [] || (Enabled(s, es[0]) && Guarded(s, es[0]) && GuardedRun(Next(s, es[0]), es[1..]))
  }

  lemma {:induction false} GuardedLined(s: System, es: seq<Event>)
    requires Inv(s) && AllLined(s) && GuardedRun(s, es)
    ensures Legal(s, es) && Inv(Reached(s, es)) && AllLined(Reached(s, es))
    decreases |es|
  {
    hide Inv, AllLined, Next;
    if es != [] {
      StepInv(s, es[0]);
      StepLined(s, es[0]);
      GuardedLined(Next(s, es[0]), es[1..]);
    }
  }

  // The terminals that a P on address a keeps waiting.
  ghost function Kept(pc: seq<Pc>, a: int): (r: set<int>)
    ensures forall t ::
              t in r <==> 0 <= t < |pc| && (RoleOf(pc[t]).Locks? || RoleOf(pc[t]).Sleeps?) && AddressOf(pc[t]) == a
  {
    set t | 0 <= t < |pc| && (RoleOf(pc[t]).Locks? || RoleOf(pc[t]).Sleeps?) && AddressOf(pc[t]) == a
  }

  // No call is about to LOCK or UNLOCK a slot.
  ghost predicate Settled(pc: seq<Pc>) {
    forall t | 0 <= t < |pc| :: !RoleOf(pc[t]).Locks? && !RoleOf(pc[t]).Unlocks?
  }

  // Someone waits in slot i for the address it records.
  lemma SomeoneKept(s: System, i: int) returns (t: int)
    requires Inv(s) && AllLined(s) && 0 <= i < |s.vs| && s.vs[i].addr != 0
    ensures t in Kept(s.pc, s.vs[i].addr) && RoleOf(s.pc[t]).slot == i
  {
    assert Ledger(s.vs, s.pc, i) && Lined(s.vs, s.pc, i);
    var q := s.vs[i].sem.q;
    if u :| u in Those(s.pc, Locks(i)) {
      t := u;
    } else {
      t := q[|q| - 1];
      assert t in q;
    }
  }

  // As many are kept for a as slots record it, at least; and no more once all is settled.
  lemma KeptSlots(s: System, a: int)
    requires Inv(s) && AllLined(s) && a in s.mem
    ensures |Kept(s.pc, a)| >= |Slots(s.vs, a)|
    ensures Settled(s.pc) ==> |Kept(s.pc, a)| == |Slots(s.vs, a)|
  {
    var k := Kept(s.pc, a);
    var f: map<int, int> := map t | t in k :: RoleOf(s.pc[t]).slot;
    forall i | i in Slots(s.vs, a) ensures exists t :: t in k && f[t] == i {
      var t := SomeoneKept(s, i);
      assert f[t] == i;
    }
    OntoSize(k, f, Slots(s.vs, a));
    if Settled(s.pc) {
      forall t | t in k ensures f[t] in Slots(s.vs, a) && s.vs[f[t]].sem.q == [t] { SettledSlot(s, t); }
      forall t, u | t in k && u in k && f[t] == f[u] ensures t == u { assert [t][0] == [u][0]; }
      IntoSize(k, f, Slots(s.vs, a));
    }
  }

  // Once all is settled, one that sleeps in a line in order is alone there, and the slot
  // records its address.
  lemma SettledSlot(s: System, t: int)
    requires Inv(s) && Settled(s.pc) && 0 <= t < |s.pc| && RoleOf(s.pc[t]).Sleeps?
    requires RoleOf(s.pc[t]).slot < |s.vs| ==> Lined(s.vs, s.pc, RoleOf(s.pc[t]).slot)
    ensures var i := RoleOf(s.pc[t]).slot;
            i < |s.vs| && s.vs[i].sem.q == [t] && s.vs[i].addr == AddressOf(s.pc[t]) != 0
  {
    assert Known(s.mem, |s.vs|, s.pc[t]);
    var i := RoleOf(s.pc[t]).slot;
    assert Ledger(s.vs, s.pc, i);
    assert Those(s.pc, Locks(i)) == {} && Those(s.pc, Unlocks(i)) == {};
    assert t in s.vs[i].sem.q;
  }

  // At least as many wait for each address as its counter says, and no more once all is settled.
  ghost predicate Right(s: System) {
    forall a | a in s.mem ::
      && |Kept(s.pc, a)| >= -s.mem[a]
      && (Settled(s.pc) ==> |Kept(s.pc, a)| == if s.mem[a] < 0 then -s.mem[a] else 0)
  }

  lemma LinedRight(s: System)
    requires Inv(s) && AllLined(s)
    ensures Right(s)
  {
    forall a | a in s.mem
      ensures |Kept(s.pc, a)| >= -s.mem[a]
      ensures Settled(s.pc) ==> |Kept(s.pc, a)| == if s.mem[a] < 0 then -s.mem[a] else 0
    {
      KeptSlots(s, a);
    }
  }

  // In every run whose takes are guarded, no P on an address goes on without a V on it: a
  // counter v keeps at least -v callers waiting, and exactly max(0, -v) once all is settled.
  lemma WakeupsRight(mem: map<int, int>, es: seq<Event>)
    requires GoodMem(mem) && GuardedRun(Initial(mem), es)
    ensures Legal(Initial(mem), es) && Right(Reached(Initial(mem), es))
  {
    InitialInv(mem);
    GuardedLined(Initial(mem), es);
    LinedRight(Reached(Initial(mem), es));
  }

  // ---------- the guard is needed ----------

  // Nobody is about to act on slot i while still holding the lock.
  ghost predicate Ready(pc: seq<Pc>, i: int) {
    forall t | 0 <= t < |pc| && pc[t].Leaving? :: NotAbout(pc[t], i)
  }

  // Slot i records b, while u has a call on c in it; the steps that finish the calls in the
  // slot keep this.
  ghost predicate Finishing(s: System, i: int, u: int, b: int, c: int) {
    && Inv(s) && 0 <= i < |s.vs| && 0 <= u < |s.pc| && Ready(s.pc, i)
    && s.vs[i].addr == b != 0 && AddressOf(s.pc[u]) == c
  }

  ghost predicate OnlyActs(es: seq<Event>) {
    forall e | e in es :: e.Act?
  }

  // All the others in slot i LOCK it before u.
  lemma {:induction false} OthersLock(s: System, i: int, u: int, b: int, c: int) returns (es: seq<Event>, r: System)
    requires Finishing(s, i, u, b, c) && s.pc[u] == Locking(i, c)
    ensures OnlyActs(es) && Legal(s, es) && r == Reached(s, es) && Finishing(r, i, u, b, c)
    ensures r.pc[u] == s.pc[u] && Those(r.pc, Locks(i)) == {u} && r.mem == s.mem
    decreases |Those(s.pc, Locks(i))|
  {
    if t :| t in Those(s.pc, Locks(i)) && t != u {
      var s1 := Next(s, Act(t));
      StepInv(s, Act(t));
      ThoseUpdate(s.pc, t, s1.pc[t], Locks(i));
      hide Inv;
      var fs;
      fs, r := OthersLock(s1, i, u, b, c);
      Cons(s, Act(t), fs);
      es := [Act(t)] + fs;
    } else {
      assert Those(s.pc, Locks(i)) == {u};
      es, r := [], s;
      assert Legal(s, []);
    }
  }

  // Everyone who is to UNLOCK slot i does, and u, last in its queue, stays behind.
  lemma {:induction false} AllUnlock(s: System, i: int, u: int, b: int, c: int) returns (es: seq<Event>, r: System)
    requires Finishing(s, i, u, b, c) && s.pc[u] == Asleep(i, c) && Those(s.pc, Locks(i)) == {}
    requires s.vs[i].sem.q != [] && s.vs[i].sem.q[|s.vs[i].sem.q| - 1] == u
    ensures OnlyActs(es) && Legal(s, es) && r == Reached(s, es) && Finishing(r, i, u, b, c)
    ensures r.pc[u] == s.pc[u] && Those(r.pc, Locks(i)) == {} && Those(r.pc, Unlocks(i)) == {}
    ensures r.vs[i].sem.q == [u] && r.mem == s.mem
    decreases |Those(s.pc, Unlocks(i))|
  {
    assert Ledger(s.vs, s.pc, i);
    if t :| t in Those(s.pc, Unlocks(i)) {
      var s1 := UnlockOne(s, i, u, b, c, t);
      hide Inv;
      var fs;
      fs, r := AllUnlock(s1, i, u, b, c);
      Cons(s, Act(t), fs);
      es := [Act(t)] + fs;
    } else {
      assert Those(s.pc, Unlocks(i)) == {};
      es, r := [], s;
      assert Legal(s, []);
    }
  }

  lemma UnlockOne(s: System, i: int, u: int, b: int, c: int, t: int) returns (r: System)
    requires Finishing(s, i, u, b, c) && s.pc[u] == Asleep(i, c) && Those(s.pc, Locks(i)) == {}
    requires s.vs[i].sem.q != [] && s.vs[i].sem.q[|s.vs[i].sem.q| - 1] == u && t in Those(s.pc, Unlocks(i))
    ensures Enabled(s, Act(t)) && r == Next(s, Act(t)) && Finishing(r, i, u, b, c) && r.pc[u] == s.pc[u]
    ensures Those(r.pc, Locks(i)) == {} && r.mem == s.mem && |Those(r.pc, Unlocks(i))| < |Those(s.pc, Unlocks(i))|
    ensures r.vs[i].sem.q != [] && r.vs[i].sem.q[|r.vs[i].sem.q| - 1] == u
  {
    r := Next(s, Act(t));
    StepInv(s, Act(t));
    UnlockFacts(s, i, u, b, c, t);
    hide Inv;
    assert Those(r.pc, Unlocks(i)) == Those(s.pc, Unlocks(i)) - {t};
    assert Those(r.pc, Locks(i)) == {};
  }

  // There are at least two in the queue, so that u is not the one let go.
  lemma UnlockFacts(s: System, i: int, u: int, b: int, c: int, t: int)
    requires Finishing(s, i, u, b, c) && Those(s.pc, Locks(i)) == {} && t in Those(s.pc, Unlocks(i))
    requires s.vs[i].sem.q != [] && s.vs[i].sem.q[|s.vs[i].sem.q| - 1] == u
    ensures var q := s.vs[i].sem.q; s.vs[i].sem.val < 0 && |q| >= 2 && q[0] != u && q[0] != t && 0 <= q[0] < |s.pc|
    ensures RoleOf(s.pc[s.vs[i].sem.q[0]]) == Sleeps(i)
  {
    assert Ledger(s.vs, s.pc, i);
    assert |Those(s.pc, Unlocks(i))| > 0;
    assert s.vs[i].sem.q[0] in s.vs[i].sem.q;
  }

  // Only u is left in slot i, for another address than it records.
  ghost predicate Wrong(s: System, i: int, u: int, b: int, c: int) {
    && Finishing(s, i, u, b, c) && b != c && s.pc[u] == Asleep(i, c) && s.vs[i].sem.q == [u]
    && forall w | 0 <= w < |s.pc| && w != u :: NotAbout(s.pc[w], i)
  }

  lemma GoesWrong(s: System, i: int, u: int, b: int, c: int) returns (es: seq<Event>, r: System)
    requires Finishing(s, i, u, b, c) && s.pc[u] == Locking(i, c) && b != c
    ensures OnlyActs(es) && Legal(s, es) && r == Reached(s, es) && Wrong(r, i, u, b, c) && r.mem == s.mem
  {
    hide Inv, Legal, Reached, Next, Enabled, Those, NotAbout;
    var e1, s1 := OthersLock(s, i, u, b, c);
    var s2 := LockLast(s1, i, u, b, c);
    var e3, s3 := AllUnlock(s2, i, u, b, c);
    NobodyElse(s3, i, u);
    Chain(s1, [Act(u)], s2, e3);
    Chain(s, e1, s1, [Act(u)] + e3);
    es, r := e1 + ([Act(u)] + e3), s3;
  }

  // A take that breaks the guard goes wrong in some continuation with no further call: slot i
  // then records b and nothing is pending in it, but the only one who waits in it waits for
  // another address; so the P on b has gone on without a V.
  lemma UnguardedGoesWrong(s: System, t: int, u: int) returns (es: seq<Event>)
    requires Inv(s) && Takes(s, t) && 0 <= u < |s.pc|
    requires RoleOf(s.pc[u]) == Locks(FirstWith(s.vs, 0)) && AddressOf(s.pc[u]) != s.pc[t].a
    ensures Legal(s, es) && (forall e | e in es :: !e.Call?)
    ensures Wrong(Reached(s, es), FirstWith(s.vs, 0), u, s.pc[t].a, AddressOf(s.pc[u]))
  {
    hide Inv, Legal, Reached, Next, Enabled, Those, Wrong;
    var s1, s2 := TakeSteps(s, t, u);
    var fs, r := GoesWrong(s2, FirstWith(s.vs, 0), u, s.pc[t].a, AddressOf(s.pc[u]));
    Cons(s1, Leave(t), fs);
    es := [Work(t)] + ([Leave(t)] + fs);
    Cons(s, Work(t), [Leave(t)] + fs);
  }

  lemma {:induction false} Chain(s: System, es: seq<Event>, m: System, fs: seq<Event>)
    requires Legal(s, es) && Reached(s, es) == m && Legal(m, fs)
    ensures Legal(s, es + fs) && Reached(s, es + fs) == Reached(m, fs)
    decreases |es|
  {
    hide Next, Enabled;
    if es == [] {
      assert [] + fs == fs;
    } else {
      Chain(Next(s, es[0]), es[1..], m, fs);
      assert (es + fs)[1..] == es[1..] + fs;
    }
  }

  // The take, and the release of the lock.
  lemma TakeSteps(s: System, t: int, u: int) returns (s1: System, s2: System)
    requires Inv(s) && Takes(s, t) && 0 <= u < |s.pc| && RoleOf(s.pc[u]) == Locks(FirstWith(s.vs, 0))
    ensures Enabled(s, Work(t)) && s1 == Next(s, Work(t)) && Enabled(s1, Leave(t)) && s2 == Next(s1, Leave(t))
    ensures Finishing(s2, FirstWith(s.vs, 0), u, s.pc[t].a, AddressOf(s.pc[u]))
    ensures s2.pc[u] == Locking(FirstWith(s.vs, 0), AddressOf(s.pc[u])) && Inv(s1)
  {
    s1 := Next(s, Work(t));
    StepInv(s, Work(t));
    s2 := Next(s1, Leave(t));
    StepInv(s1, Leave(t));
    assert t in Holders(s.pc) && t != u;
    assert forall w | w in Holders(s.pc) :: w == t;
    assert u !in Holders(s.pc);
    if s1.prot.q != [] { assert s1.prot.q[0] in s1.prot.q; }
  }

  // Then nobody is about to release the lock.
  lemma TakerLeaves(s: System, t: int)
    requires Inv(s) && Enabled(s, Work(t)) && Enabled(Next(s, Work(t)), Leave(t))
    ensures NoneLeaving(Next(Next(s, Work(t)), Leave(t)).pc)
  {
    var s1 := Next(s, Work(t));
    StepInv(s, Work(t));
    assert t in Holders(s1.pc) && Known(s1.mem, |s1.vs|, s1.pc[t]);
    hide Counts, Ledgers;
    forall w | 0 <= w < |s1.pc| && s1.pc[w].Leaving? ensures w == t { assert w in Holders(s1.pc); }
  }

  lemma LockLast(s: System, i: int, u: int, b: int, c: int) returns (r: System)
    requires Finishing(s, i, u, b, c) && s.pc[u] == Locking(i, c) && Those(s.pc, Locks(i)) == {u}
    ensures Legal(s, [Act(u)]) && r == Reached(s, [Act(u)]) && Finishing(r, i, u, b, c)
    ensures r.pc[u] == Asleep(i, c) && Those(r.pc, Locks(i)) == {}
    ensures r.vs[i].sem.q != [] && r.vs[i].sem.q[|r.vs[i].sem.q| - 1] == u && r.mem == s.mem
  {
    assert Ledger(s.vs, s.pc, i);
    StepInv(s, Act(u));
    r := Next(s, Act(u));
    assert Those(r.pc, Locks(i)) == Those(s.pc, Locks(i)) - {u} == {};
    assert Legal(r, []) && [Act(u)][1..] == [];
  }

  lemma NobodyElse(s: System, i: int, u: int)
    requires Inv(s) && 0 <= i < |s.vs| && s.vs[i].sem.q == [u]
    requires Those(s.pc, Locks(i)) == {} && Those(s.pc, Unlocks(i)) == {}
    ensures forall w | 0 <= w < |s.pc| && w != u :: NotAbout(s.pc[w], i)
  {
    assert Ledger(s.vs, s.pc, i);
    forall w | 0 <= w < |s.pc| && w != u ensures NotAbout(s.pc[w], i) {
      assert w !in s.vs[i].sem.q && w !in Those(s.pc, Locks(i)) && w !in Those(s.pc, Unlocks(i));
    }
  }

  // ---------- and then a counter is wrong for good ----------

  // The lines of all slots but i are in order.
  ghost predicate LinedBut(s: System, i: int) {
    forall j | 0 <= j < |s.vs| && j != i :: Lined(s.vs, s.pc, j)
  }

  lemma StepLinedBut(s: System, e: Event, i: int)
    requires Inv(s) && LinedBut(s, i) && Enabled(s, e) && (e.Act? || e.Leave? || i == FirstWith(s.vs, 0))
    ensures LinedBut(Next(s, e), i)
  {
    StepInv(s, e);
    SameSlots(s);
    SameSlots(Next(s, e));
    hide Inv, Lined;
    forall j | 0 <= j < |s.vs| && j != i ensures Lined(Next(s, e).vs, Next(s, e).pc, j) { LineKept(s, e, j); }
  }

  lemma {:induction false} ActsLinedBut(s: System, es: seq<Event>, i: int)
    requires Inv(s) && LinedBut(s, i) && OnlyActs(es) && Legal(s, es)
    ensures LinedBut(Reached(s, es), i)
    decreases |es|
  {
    hide Inv, LinedBut, Next, Enabled;
    if es != [] {
      assert es[0] in es && forall e | e in es[1..] :: e in es;
      StepLinedBut(s, es[0], i);
      StepInv(s, es[0]);
      ActsLinedBut(Next(s, es[0]), es[1..], i);
    }
  }

  // Those about to LOCK or UNLOCK a slot, the lock released.
  ghost function Pending(pc: seq<Pc>): (r: set<int>)
    ensures forall t :: t in r <==> 0 <= t < |pc| && (pc[t].Locking? || pc[t].Unlocking?)
  {
    set t | 0 <= t < |pc| && (pc[t].Locking? || pc[t].Unlocking?)
  }

  ghost predicate NoneLeaving(pc: seq<Pc>) {
    forall t | 0 <= t < |pc| :: !pc[t].Leaving?
  }

  // What an Act in another slot than i does: t goes on or to sleep there, and perhaps one that
  // sleeps there goes on.
  ghost predicate ActsIn(s: System, r: System, t: int, n: int) {
    && 0 <= t < |s.pc| && 0 <= n < |s.vs| && |r.vs| == |s.vs| && r.mem == s.mem
    && (forall j | 0 <= j < |s.vs| && j != n :: r.vs[j] == s.vs[j])
    && |r.pc| == |s.pc| && (r.pc[t] == Idle || (r.pc[t].Asleep? && r.pc[t].slot == n))
    && forall w | 0 <= w < |s.pc| && w != t :: r.pc[w] == s.pc[w] || (RoleOf(s.pc[w]) == Sleeps(n) && r.pc[w] == Idle)
  }

  lemma ActFacts(s: System, t: int)
    requires Inv(s) && t in Pending(s.pc)
    ensures Enabled(s, Act(t)) && ActsIn(s, Next(s, Act(t)), t, s.pc[t].slot) && Inv(Next(s, Act(t)))
  {
    StepInv(s, Act(t));
    assert Known(s.mem, |s.vs|, s.pc[t]);
    var n := s.pc[t].slot;
    assert Ledger(s.vs, s.pc, n);
    assert s.vs[n].sem.val < 0 ==> s.vs[n].sem.q[0] in s.vs[n].sem.q;
  }

  // One more call ends; slot i stays wrong.
  lemma ActKeepsWrong(s: System, i: int, u: int, b: int, c: int, t: int)
    requires Wrong(s, i, u, b, c) && NoneLeaving(s.pc) && t in Pending(s.pc)
    ensures Enabled(s, Act(t)) && Wrong(Next(s, Act(t)), i, u, b, c) && NoneLeaving(Next(s, Act(t)).pc)
    ensures Next(s, Act(t)).mem == s.mem && |Pending(Next(s, Act(t)).pc)| < |Pending(s.pc)|
  {
    hide Inv, Enabled, Next;
    ActFacts(s, t);
    assert NotAbout(s.pc[t], i);
    var r := Next(s, Act(t));
    assert Pending(r.pc) == Pending(s.pc) - {t};
  }

  lemma {:induction false} AllSettle(s: System, i: int, u: int, b: int, c: int) returns (es: seq<Event>, r: System)
    requires Wrong(s, i, u, b, c) && NoneLeaving(s.pc)
    ensures OnlyActs(es) && Legal(s, es) && r == Reached(s, es) && Wrong(r, i, u, b, c) && Settled(r.pc)
    ensures r.mem == s.mem
    decreases |Pending(s.pc)|
  {
    hide Inv, Next, Wrong, Enabled;
    if t :| t in Pending(s.pc) {
      ActKeepsWrong(s, i, u, b, c, t);
      var fs;
      fs, r := AllSettle(Next(s, Act(t)), i, u, b, c);
      Cons(s, Act(t), fs);
      es := [Act(t)] + fs;
    } else {
      es, r := [], s;
      assert forall t | 0 <= t < |s.pc| :: t !in Pending(s.pc);
      assert Legal(s, []);
    }
  }

  // Slot i stands for a P on b that nobody waits for.
  lemma KeptShort(s: System, i: int, u: int, b: int, c: int)
    requires Wrong(s, i, u, b, c) && LinedBut(s, i) && Settled(s.pc)
    ensures b in s.mem && |Kept(s.pc, b)| < -s.mem[b]
  {
    var k, q := Kept(s.pc, b), Slots(s.vs, b) - {i};
    var f: map<int, int> := map t | t in k :: RoleOf(s.pc[t]).slot;
    forall t | t in k ensures f[t] in q && s.vs[f[t]].sem.q == [t] {
      assert RoleOf(s.pc[t]).Sleeps? && t != u && !NotAbout(s.pc[t], f[t]);
      SettledSlot(s, t);
    }
    forall t, w | t in k && w in k && f[t] == f[w] ensures t == w { assert [t][0] == [w][0]; }
    IntoSize(k, f, q);
    assert i in Slots(s.vs, b) && |q| == |Slots(s.vs, b)| - 1;
  }

  // From a state in which every line is in order, a take that breaks the guard leads, with no
  // further call, to a settled state in which fewer wait for b than its counter says.
  lemma UnguardedFallsShort(s: System, t: int, u: int) returns (fs: seq<Event>)
    requires Inv(s) && AllLined(s) && Takes(s, t) && 0 <= u < |s.pc|
    requires RoleOf(s.pc[u]) == Locks(FirstWith(s.vs, 0)) && AddressOf(s.pc[u]) != s.pc[t].a
    ensures Enabled(s, Work(t)) && Legal(Next(s, Work(t)), fs) && forall e | e in fs :: e.Leave? || e.Act?
    ensures var r, b := Reached(Next(s, Work(t)), fs), s.pc[t].a;
            Settled(r.pc) && b in r.mem && |Kept(r.pc, b)| < -r.mem[b]
  {
    hide Inv, Legal, Reached, Next, Enabled, Those, Wrong, Lined, Settled;
    var i, b, c := FirstWith(s.vs, 0), s.pc[t].a, AddressOf(s.pc[u]);
    var s1, s2 := TakeSteps(s, t, u);
    StepLinedBut(s, Work(t), i);
    StepLinedBut(s1, Leave(t), i);
    FinishingInv(s2, i, u, b, c);
    TakerLeaves(s, t);
    var e3, s3 := GoesWrong(s2, i, u, b, c);
    ActsLinedBut(s2, e3, i);
    NobodyLeaves(s2, e3);
    var e4, s4 := AllSettle(s3, i, u, b, c);
    WrongInv(s3, i, u, b, c);
    ActsLinedBut(s3, e4, i);
    KeptShort(s4, i, u, b, c);
    Chain(s2, e3, s3, e4);
    Cons(s1, Leave(t), e3 + e4);
    fs := [Leave(t)] + (e3 + e4);
  }

  // A run without a take is guarded.
  lemma {:induction false} NoTakeGuarded(s: System, fs: seq<Event>)
    requires Legal(s, fs) && forall e | e in fs :: !e.Work?
    ensures GuardedRun(s, fs)
    decreases |fs|
  {
    if fs != [] {
      assert fs[0] in fs && forall e | e in fs[1..] :: e in fs;
      NoTakeGuarded(Next(s, fs[0]), fs[1..]);
    }
  }

  // The guard is exact: with every line in order, a step keeps it if and only if whatever
  // guarded run follows, the counters stay right.
  lemma GuardIff(s: System, e: Event)
    requires Inv(s) && AllLined(s) && Enabled(s, e)
    ensures Guarded(s, e) <==>
            forall fs | Legal(Next(s, e), fs) && GuardedRun(Next(s, e), fs) :: Right(Reached(Next(s, e), fs))
  {
    hide Inv, AllLined, Next, Legal, Reached, GuardedRun, Right;
    if Guarded(s, e) {
      StepInv(s, e);
      StepLined(s, e);
      forall fs | Legal(Next(s, e), fs) && GuardedRun(Next(s, e), fs) ensures Right(Reached(Next(s, e), fs)) {
        GuardedLined(Next(s, e), fs);
        LinedRight(Reached(Next(s, e), fs));
      }
    } else {
      var i := FirstWith(s.vs, 0);
      var u :| 0 <= u < |s.pc| && RoleOf(s.pc[u]).Locks? && RoleOf(s.pc[u]).slot == i
               && AddressOf(s.pc[u]) != s.pc[e.t].a;
      var fs := UnguardedFallsShort(s, e.t, u);
      NoTakeGuarded(Next(s, e), fs);
      NotRight(Reached(Next(s, e), fs), s.pc[e.t].a);
    }
  }

  lemma NotRight(s: System, b: int)
    requires b in s.mem && |Kept(s.pc, b)| < -s.mem[b]
    ensures !Right(s)
  {
  }

  // An Act leaves nobody with the lock.
  lemma {:induction false} NobodyLeaves(s: System, es: seq<Event>)
    requires OnlyActs(es) && Legal(s, es) && NoneLeaving(s.pc)
    ensures NoneLeaving(Reached(s, es).pc)
    decreases |es|
  {
    if es != [] {
      assert es[0] in es && forall e | e in es[1..] :: e in es;
      NobodyLeaves(Next(s, es[0]), es[1..]);
    }
  }

  lemma FinishingInv(s: System, i: int, u: int, b: int, c: int)
    requires Finishing(s, i, u, b, c)
    ensures Inv(s)
  {
  }

  lemma WrongInv(s: System, i: int, u: int, b: int, c: int)
    requires Wrong(s, i, u, b, c)
    ensures Inv(s)
  {
  }

  // It is not enough that no UNLOCK of the slot is pending: here terminal 1 has completed V(a)
  // before terminal 0, which called P(a), does its LOCK; terminal 2 calls P(b), takes the slot,
  // and uses up the unit.
  lemma NoSignalPending(a: int, b: int) returns (es: seq<Event>, r: System, fs: seq<Event>)
    requires TER >= 3 && SEG2 <= a && SEG2 <= b && a != b
    ensures Legal(Initial(map[a := 0, b := 0]), es) && r == Reached(Initial(map[a := 0, b := 0]), es)
    ensures forall t | 0 <= t < |r.pc| :: !RoleOf(r.pc[t]).Unlocks?
    ensures Legal(r, fs) && (forall e | e in fs :: e.Call? ==> e == Call(2, LOCK, b))
    ensures var s := Reached(r, fs); s.mem == map[a := 0, b := -1] && s.pc == seq(TER, _ => Idle)[0 := Asleep(0, a)]
  {
    hide Legal, Reached, Next, RoleOf;
    var s0 := Initial(map[a := 0, b := 0]);
    var s1 := Through(s0, 0, LOCK, a);
    var s2 := Through(s1, 1, UNLOCK, a);
    var s4;
    r, s4 := LateLock(s2, b);
    var f2 := [Act(2)] + ([Act(0)] + []);
    fs := [Call(2, LOCK, b)] + ([Work(2)] + ([Leave(2)] + f2));
    var e1 := [Call(1, UNLOCK, a)] + ([Work(1)] + ([Leave(1)] + [Act(1)]));
    assert Legal(s1, e1);
    es := [Call(0, LOCK, a)] + ([Work(0)] + ([Leave(0)] + e1));
    assert r.pc == seq(TER, _ => Idle)[0 := Locking(0, a)];
    OneLocking(r.pc, a);
  }

  lemma OneLocking(pc: seq<Pc>, a: int)
    requires |pc| >= 1 && pc == seq(|pc|, _ => Idle)[0 := Locking(0, a)]
    ensures forall t | 0 <= t < |pc| :: !RoleOf(pc[t]).Unlocks?
  {
  }

  // The end of such a run, from the UNLOCK on.
  lemma LateLock(s: System, b: int) returns (r: System, r2: System)
    requires |s.pc| >= 3 && s.vs != [] && s.vs[0] == Slot(0, Sem(0, [])) && s.prot == Sem(1, [])
    requires s.pc[0].Locking? && s.pc[0].slot == 0 && s.pc[1].Unlocking? && s.pc[1].slot == 0 && s.pc[2] == Idle
    requires b in s.mem && b >= SEG2 && s.mem[b] <= 0
    ensures Legal(s, [Act(1)]) && r == Reached(s, [Act(1)]) && r.pc == s.pc[1 := Idle] && r.mem == s.mem
    ensures Legal(r, [Call(2, LOCK, b)] + ([Work(2)] + ([Leave(2)] + ([Act(2)] + ([Act(0)] + [])))))
    ensures r2 == Reached(r, [Call(2, LOCK, b)] + ([Work(2)] + ([Leave(2)] + ([Act(2)] + ([Act(0)] + [])))))
    ensures r2.mem == s.mem[b := s.mem[b] - 1] && r2.pc == s.pc[1 := Idle][0 := Asleep(0, s.pc[0].a)]
  {
    r := Next(s, Act(1));
    assert Legal(r, []) && [Act(1)][1..] == [];
    var s3 := Through(r, 2, LOCK, b);
    var s4 := Next(s3, Act(2));
    assert s4.vs[0].sem == Sem(0, []) && s4.pc == s.pc[1 := Idle];
    r2 := Next(s4, Act(0));
    assert Legal(r2, []) && Reached(r2, []) == r2;
    Cons(s4, Act(0), []);
    Cons(s3, Act(2), [Act(0)] + []);
  }

  // ---------- whom one signal releases ----------

  // The UNLOCK of a slot lets the first in its queue go on and nobody else; so it releases a P
  // on the V's own address exactly when that one waits for it. With nobody in the queue the
  // unit lets the next one that LOCKs the slot through instead, whatever its address.
  lemma SignalGoesTo(s: System, t: int, w: int)
    requires Inv(s) && Enabled(s, Act(t)) && s.pc[t].Unlocking? && 0 <= w < |s.pc| && w != t
    ensures var u, r := s.vs[s.pc[t].slot].sem, Next(s, Act(t));
            && (r.pc[w] != s.pc[w] <==> u.val < 0 && w == First(u.q))
            && (r.pc[w] != s.pc[w] ==> s.pc[w].Asleep? && s.pc[w].slot == s.pc[t].slot && r.pc[w] == Idle)
            && (r.pc[w] != s.pc[w] && s.pc[w].a == s.pc[t].a <==>
                u.val < 0 && w == First(u.q) && AddressOf(s.pc[w]) == s.pc[t].a)
            && (s.pc[w].Locking? && s.pc[w].slot == s.pc[t].slot ==>
                Enabled(r, Act(w)) && (Next(r, Act(w)).pc[w] == Idle <==> u.val >= 0))
  {
    var u := s.vs[s.pc[t].slot].sem;
    assert Ledger(s.vs, s.pc, s.pc[t].slot);
    if u.val < 0 { assert u.q[0] in u.q; }
  }

  // A P takes a slot only when every call in it is done.
  ghost predicate Fresh(s: System, e: Event) {
    e.Work? && Takes(s, e.t) ==> forall u | 0 <= u < |s.pc| :: NotAbout(s.pc[u], FirstWith(s.vs, 0))
  }

  // All calls in slot i are on one address, the one it records if it records any.
  ghost predicate Alone(vs: seq<Slot>, pc: seq<Pc>, i: int)
    requires 0 <= i < |vs|
  {
    && (forall t, u | 0 <= t < |pc| && 0 <= u < |pc| && !NotAbout(pc[t], i) && !NotAbout(pc[u], i) ::
          AddressOf(pc[t]) == AddressOf(pc[u]))
    && forall t | 0 <= t < |pc| && !NotAbout(pc[t], i) && vs[i].addr != 0 :: AddressOf(pc[t]) == vs[i].addr
  }

  ghost predicate AllAlone(s: System) {
    forall i | 0 <= i < |s.vs| :: Alone(s.vs, s.pc, i)
  }

  lemma StepAlone(s: System, e: Event)
    requires Inv(s) && AllAlone(s) && Enabled(s, e) && Fresh(s, e)
    ensures AllAlone(Next(s, e))
  {
    var r := Next(s, e);
    StepInv(s, e);
    assert Known(s.mem, |s.vs|, s.pc[e.t]) && Known(r.mem, |r.vs|, r.pc[e.t]);
    if e.Act? && s.pc[e.t].Unlocking? { assert Ledger(s.vs, s.pc, s.pc[e.t].slot); }
    hide Inv;
    forall i | 0 <= i < |r.vs| ensures Alone(r.vs, r.pc, i) {
      assert Alone(s.vs, s.pc, i);
      if e.Work? { WorkAlone(s, e.t, i); } else { OtherAlone(s, e, i); }
    }
  }

  lemma WorkAlone(s: System, t: int, i: int)
    requires Enabled(s, Work(t)) && Fresh(s, Work(t)) && 0 <= i < |s.vs| && Alone(s.vs, s.pc, i)
    ensures |Next(s, Work(t)).vs| == |s.vs| && Alone(Next(s, Work(t)).vs, Next(s, Work(t)).pc, i)
  {
    hide FirstWith;
  }

  lemma OtherAlone(s: System, e: Event, i: int)
    requires Enabled(s, e) && !e.Work? && Known(s.mem, |s.vs|, s.pc[e.t])
    requires 0 <= i < |s.vs| && Alone(s.vs, s.pc, i)
    ensures |Next(s, e).vs| == |s.vs| && Alone(Next(s, e).vs, Next(s, e).pc, i)
  {
    var r := Next(s, e);
    assert r.vs[i].addr == s.vs[i].addr;
    forall t | 0 <= t < |s.pc| && !NotAbout(r.pc[t], i)
      ensures !NotAbout(s.pc[t], i) && AddressOf(r.pc[t]) == AddressOf(s.pc[t])
    {
    }
  }

  ghost predicate FreshRun(s: System, es: seq<Event>)
    decreases |es|
  {
    es == [] || (Enabled(s, es[0]) && Fresh(s, es[0]) && FreshRun(Next(s, es[0]), es[1..]))
  }

  lemma {:induction false} FreshAlone(s: System, es: seq<Event>)
    requires Inv(s) && AllAlone(s) && FreshRun(s, es)
    ensures Legal(s, es) && Inv(Reached(s, es)) && AllAlone(Reached(s, es))
    decreases |es|
  {
    hide Inv, AllAlone, Next;
    if es != [] {
      StepInv(s, es[0]);
      StepAlone(s, es[0]);
      FreshAlone(Next(s, es[0]), es[1..]);
    }
  }

  // If slots are only taken again when every call in them is done, each V releases a P on its
  // own address: the one it wakes, or else the one that is next to LOCK.
  lemma SignalsOwn(mem: map<int, int>, es: seq<Event>, t: int)
    requires GoodMem(mem) && FreshRun(Initial(mem), es)
    ensures Legal(Initial(mem), es)
    ensures var s := Reached(Initial(mem), es);
            Enabled(s, Act(t)) && s.pc[t].Unlocking? ==>
              var u := s.vs[s.pc[t].slot].sem;
              && (u.val < 0 ==> u.q != [] && 0 <= u.q[0] < |s.pc| && s.pc[u.q[0]] == Asleep(s.pc[t].slot, s.pc[t].a))
              && LockersFor(s.pc, s.pc[t].slot, s.pc[t].a)
  {
    InitialInv(mem);
    FreshAlone(Initial(mem), es);
    var s := Reached(Initial(mem), es);
    if Enabled(s, Act(t)) && s.pc[t].Unlocking? {
      var i := s.pc[t].slot;
      assert Alone(s.vs, s.pc, i) && Ledger(s.vs, s.pc, i);
      if s.vs[i].sem.val < 0 { assert s.vs[i].sem.q[0] in s.vs[i].sem.q; }
    }
  }
}
