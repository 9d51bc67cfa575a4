// Virtual semaphores: counters in the shared segment, with a table of slots for the
// terminals that wait, and a lock around both.
module VirtualSem {
  import opened Base
  import opened Semaphore
  import Locks

  type Address = x: int | x > 0 witness 1

  const SEG2: Address     // the first address of the shared segment

  // An entry of vs_arr; address 0 marks a free slot.
  datatype Slot = Slot(addr: int, sem: Sem)

  // The first slot that records address a, or the length of the table.
  function FirstWith(vs: seq<Slot>, a: int): (r: nat)
    ensures r <= |vs| && (r < |vs| ==> vs[r].addr == a) && forall i | 0 <= i < r :: vs[i].addr != a
  {
    if vs == [] || vs[0].addr == a then 0 else 1 + FirstWith(vs[1..], a)
  }

  // Where a terminal is: outside; waiting for protected_sem or holding it, with its request
  // op on address a; holding it still with next to follow; about to LOCK or UNLOCK a slot or
  // asleep in it, for a call on address a; terminated; or stuck because its search found
  // nothing.
  datatype Pc =
    | Idle
    | Queued(op: int, a: int)
    | Inside(op: int, a: int)
    | Leaving(next: Pc)
    | Locking(slot: nat, a: int)
    | Unlocking(slot: nat, a: int)
    | Asleep(slot: nat, a: int)
    | Gone
    | Stuck

  // What the code between P(&protected_sem) and V(&protected_sem) does to the counters and
  // the table, and what follows.
  datatype Body = Body(mem: map<int, int>, vs: seq<Slot>, next: Pc)

  function Critical(mem: map<int, int>, vs: seq<Slot>, op: int, a: int): Body
    requires a >= SEG2 ==> a in mem
  {
    if a < SEG2 then Body(mem, vs, Gone)
    else if op == LOCK then
      var i := FirstWith(vs, 0);
      if mem[a] > 0 then Body(mem[a := mem[a] - 1], vs, Idle)
      else if i < |vs| then Body(mem[a := mem[a] - 1], vs[i := vs[i].(addr := a)], Locking(i, a))
      else Body(mem, vs, Stuck)
    else
      var i := FirstWith(vs, a);
      if mem[a] >= 0 then Body(mem[a := mem[a] + 1], vs, Idle)
      else if i < |vs| then Body(mem[a := mem[a] + 1], vs[i := vs[i].(addr := 0)], Unlocking(i, a))
      else Body(mem, vs, Stuck)
  }

  class Shared {
    var mem: map<int, int>
    const vs_arr: array<Slot>

    constructor (mem: map<int, int>)
      ensures this.mem == mem && fresh(vs_arr) && vs_arr[..] == seq(MAXPROC, _ => Slot(0, Sem(0, [])))
    {
      this.mem := mem;
      vs_arr := new Slot[MAXPROC](_ => Slot(0, Sem(0, [])));
    }

    // The search of both calls, from the start of the table.
    method Search(a: int) returns (i: nat)
      ensures i == FirstWith(vs_arr[..], a)
    {
      i := 0;
      while i < vs_arr.Length && vs_arr[i].addr != a
        invariant i <= vs_arr.Length && FirstWith(vs_arr[..], a) == i + FirstWith(vs_arr[i..], a)
      {
        i := i + 1;
      }
    }

    method PBody(vpop_addr: int) returns (next: Pc)
      requires vpop_addr >= SEG2 ==> vpop_addr in mem
      modifies this`mem, vs_arr
      ensures Body(mem, vs_arr[..], next) == Critical(old(mem), old(vs_arr[..]), LOCK, vpop_addr)
      ensures next == Gone <==> vpop_addr < SEG2
      ensures next == Gone || next == Stuck ==> mem == old(mem) && vs_arr[..] == old(vs_arr[..])
      ensures next != Gone && next != Stuck ==> mem == old(mem)[vpop_addr := old(mem)[vpop_addr] - 1]
    {
      if vpop_addr >= SEG2 {
        if mem[vpop_addr] > 0 {
          mem := mem[vpop_addr := mem[vpop_addr] - 1];
          next := Idle;
        } else {
          var i := Search(0);
          if i < vs_arr.Length {
            vs_arr[i] := vs_arr[i].(addr := vpop_addr);
            mem := mem[vpop_addr := mem[vpop_addr] - 1];
            next := Locking(i, vpop_addr);
          } else {
            next := Stuck;
          }
        }
      } else {
        next := Gone;
      }
    }

    method VBody(vpop_addr: int) returns (next: Pc)
      requires vpop_addr >= SEG2 ==> vpop_addr in mem
      modifies this`mem, vs_arr
      ensures Body(mem, vs_arr[..], next) == Critical(old(mem), old(vs_arr[..]), UNLOCK, vpop_addr)
      ensures next == Gone <==> vpop_addr < SEG2
      ensures next == Gone || next == Stuck ==> mem == old(mem) && vs_arr[..] == old(vs_arr[..])
      ensures next != Gone && next != Stuck ==> mem == old(mem)[vpop_addr := old(mem)[vpop_addr] + 1]
    {
      if vpop_addr >= SEG2 {
        if mem[vpop_addr] >= 0 {
          mem := mem[vpop_addr := mem[vpop_addr] + 1];
          next := Idle;
        } else {
          var i := Search(vpop_addr);
          if i < vs_arr.Length {
            vs_arr[i] := vs_arr[i].(addr := 0);
            mem := mem[vpop_addr := mem[vpop_addr] + 1];
            next := Unlocking(i, vpop_addr);
          } else {
            next := Stuck;
          }
        }
      } else {
        next := Gone;
      }
    }
  }

  // ---------- the interleaved system ----------

  datatype System = System(mem: map<int, int>, vs: seq<Slot>, prot: Sem, pc: seq<Pc>)

  datatype Event =
    | Call(t: int, op: int, a: int)   // up to and including P(&protected_sem)
    | Work(t: int)                    // the code under protected_sem
    | Leave(t: int)                   // V(&protected_sem)
    | Act(t: int)                     // the LOCK or UNLOCK of the slot

  ghost predicate Enabled(s: System, e: Event) {
    && 0 <= e.t < |s.pc|
    && match e
       case Call(t, _, a) => s.pc[t] == Idle && (a >= SEG2 ==> a in s.mem)
       case Work(t) => s.pc[t].Inside? && (s.pc[t].a >= SEG2 ==> s.pc[t].a in s.mem)
       case Leave(t) => s.pc[t].Leaving?
       case Act(t) => (s.pc[t].Locking? || s.pc[t].Unlocking?) && s.pc[t].slot < |s.vs|
  }

  // The first waiter of u, if there is one and it is a terminal, goes on at pc.
  ghost function Wake(pc: seq<Pc>, u: Sem, next: Pc): seq<Pc> {
    if u.val < 0 && u.q != [] && 0 <= u.q[0] < |pc| then pc[u.q[0] := next] else pc
  }

  // The one that V(&protected_sem) lets in.
  ghost function Admitted(s: System): Pc {
    if s.prot.q != [] && 0 <= s.prot.q[0] < |s.pc| && s.pc[s.prot.q[0]].Queued?
    then Inside(s.pc[s.prot.q[0]].op, s.pc[s.prot.q[0]].a) else Idle
  }

  ghost function Next(s: System, e: Event): System
    requires Enabled(s, e)
  {
    match e
    case Call(t, op, a) =>
      s.(prot := P(s.prot, t), pc := s.pc[t := if s.prot.val <= 0 then Queued(op, a) else Inside(op, a)])
    case Work(t) =>
      var b := Critical(s.mem, s.vs, s.pc[t].op, s.pc[t].a);
      s.(mem := b.mem, vs := b.vs, pc := s.pc[t := if b.next == Stuck then Stuck else Leaving(b.next)])
    case Leave(t) =>
      s.(prot := V(s.prot), pc := Wake(s.pc[t := s.pc[t].next], s.prot, Admitted(s)))
    case Act(t) =>
      var i := s.pc[t].slot;
      var u := s.vs[i].sem;
      if s.pc[t].Locking? then
        s.(vs := s.vs[i := s.vs[i].(sem := P(u, t))],
           pc := s.pc[t := if u.val <= 0 then Asleep(i, s.pc[t].a) else Idle])
      else
        s.(vs := s.vs[i := s.vs[i].(sem := V(u))], pc := Wake(s.pc[t := Idle], u, Idle))
  }

  // The slots that record address a.
  ghost function Slots(vs: seq<Slot>, a: int): (r: set<int>)
    ensures forall i :: i in r <==> 0 <= i < |vs| && vs[i].addr == a
  {
    set i | 0 <= i < |vs| && vs[i].addr == a
  }

  // An address of value v is recorded in exactly max(0, -v) slots.
  ghost predicate Counts(mem: map<int, int>, vs: seq<Slot>) {
    && (forall a | a in mem :: a >= SEG2)
    && (forall i | 0 <= i < |vs| :: vs[i].addr == 0 || vs[i].addr in mem)
    && forall a | a in mem :: |Slots(vs, a)| == if mem[a] < 0 then -mem[a] else 0
  }

  ghost predicate Holds(pc: Pc) {
    pc.Inside? || pc.Leaving?
  }

  ghost function Holders(pc: seq<Pc>): (r: set<int>)
    ensures forall t :: t in r <==> 0 <= t < |pc| && Holds(pc[t])
  {
    set t | 0 <= t < |pc| && Holds(pc[t])
  }

  ghost function Waiters(pc: seq<Pc>): (r: set<int>)
    ensures forall t :: t in r <==> 0 <= t < |pc| && pc[t].Queued?
  {
    set t | 0 <= t < |pc| && pc[t].Queued?
  }

  // protected_sem is free, or one terminal holds it and the others wait for it in its queue.
  ghost predicate Mutex(prot: Sem, pc: seq<Pc>) {
    Locks.Mutex(prot, Holders(pc), Waiters(pc))
  }

  // A request that is queued or inside is on a known address, and what follows it is in range.
  ghost predicate Known(mem: map<int, int>, n: nat, pc: Pc) {
    match pc
    case Queued(_, a) => a >= SEG2 ==> a in mem
    case Inside(_, a) => a >= SEG2 ==> a in mem
    case Leaving(next) => next == Idle || next == Gone || ((next.Locking? || next.Unlocking?) && next.slot < n)
    case Locking(i, _) => i < n
    case Unlocking(i, _) => i < n
    case Asleep(i, _) => i < n
    case Stuck => false
    case _ => true
  }

  ghost predicate AllKnown(s: System) {
    forall t | 0 <= t < |s.pc| :: Known(s.mem, |s.vs|, s.pc[t])
  }

  // What a terminal is to a slot: about to LOCK it, about to UNLOCK it, or asleep in it.
  datatype Role = Outside | Locks(slot: nat) | Unlocks(slot: nat) | Sleeps(slot: nat)

  function RoleOf(pc: Pc): Role {
    match pc
    case Leaving(next) =>
      if next.Locking? then Locks(next.slot) else if next.Unlocking? then Unlocks(next.slot) else Outside
    case Locking(i, _) => Locks(i)
    case Unlocking(i, _) => Unlocks(i)
    case Asleep(i, _) => Sleeps(i)
    case _ => Outside
  }

  ghost function Those(pc: seq<Pc>, role: Role): (r: set<int>)
    ensures forall t :: t in r <==> 0 <= t < |pc| && RoleOf(pc[t]) == role
  {
    set t | 0 <= t < |pc| && RoleOf(pc[t]) == role
  }

  lemma ThoseUpdate(pc: seq<Pc>, t: int, p: Pc, role: Role)
    requires 0 <= t < |pc|
    ensures |Those(pc[t := p], role)| ==
            |Those(pc, role)| - (if RoleOf(pc[t]) == role then 1 else 0) + (if RoleOf(p) == role then 1 else 0)
  {
    hide RoleOf;
    var a, b := Those(pc, role), Those(pc[t := p], role);
    assert b == if RoleOf(p) == role then (a - {t}) + {t} else a - {t};
  }

  // Slot i: the terminals about to LOCK it, less those about to UNLOCK it, are its value and
  // one for the address it records; its queue holds those asleep in it.
  ghost predicate Ledger(vs: seq<Slot>, pc: seq<Pc>, i: int)
    requires 0 <= i < |vs|
  {
    && |Those(pc, Locks(i))| == |Those(pc, Unlocks(i))| + vs[i].sem.val + (if vs[i].addr != 0 then 1 else 0)
    && Balanced(vs[i].sem)
    && forall t :: t in vs[i].sem.q <==> 0 <= t < |pc| && RoleOf(pc[t]) == Sleeps(i)
  }

  ghost predicate Ledgers(vs: seq<Slot>, pc: seq<Pc>) {
    forall i | 0 <= i < |vs| :: Ledger(vs, pc, i)
  }

  ghost predicate Inv(s: System) {
    && Counts(s.mem, s.vs) && Mutex(s.prot, s.pc) && AllKnown(s) && Ledgers(s.vs, s.pc)
    && |s.vs| == MAXPROC && |s.pc| == TER
  }

  // ---------- the searches succeed ----------

  lemma VFinds(mem: map<int, int>, vs: seq<Slot>, a: int)
    requires Counts(mem, vs) && a in mem && mem[a] < 0
    ensures FirstWith(vs, a) < |vs|
  {
    assert |Slots(vs, a)| > 0;
    var i :| i in Slots(vs, a);
  }

  // The slot that a terminal waits or is about to wait in, if any.
  ghost function SlotOf(pc: Pc): int {
    match RoleOf(pc)
    case Locks(i) => i
    case Sleeps(i) => i
    case _ => -1
  }

  ghost function SlotsOf(pc: seq<Pc>): (r: set<int>)
    ensures forall t | 0 <= t < |pc| && SlotOf(pc[t]) >= 0 :: SlotOf(pc[t]) in r
    ensures |r| <= |pc| && ((exists t :: 0 <= t < |pc| && SlotOf(pc[t]) < 0) ==> |r| < |pc|)
  {
    if pc == [] then {} else
      var n := |pc| - 1;
      var r := SlotsOf(pc[..n]);
      assert forall t | 0 <= t < n :: pc[..n][t] == pc[t];
      if SlotOf(pc[n]) >= 0 then r + {SlotOf(pc[n])} else r
  }

  // While a terminal is inside there are not enough others to take all the slots.
  lemma PFinds(s: System, t: int)
    requires Inv(s) && 0 <= t < |s.pc| && s.pc[t].Inside?
    ensures FirstWith(s.vs, 0) < |s.vs|
  {
    forall i | 0 <= i < |s.vs| && s.vs[i].addr != 0 ensures i in SlotsOf(s.pc) { Taken(s.vs, s.pc, i); }
    assert SlotOf(s.pc[t]) < 0;
    if Range(|s.vs|) <= SlotsOf(s.pc) { SubsetSize(Range(|s.vs|), SlotsOf(s.pc)); }
  }

  lemma Taken(vs: seq<Slot>, pc: seq<Pc>, i: int)
    requires 0 <= i < |vs| && Ledger(vs, pc, i) && vs[i].addr != 0
    ensures i in SlotsOf(pc)
  {
    if vs[i].sem.val < 0 {
      var u := vs[i].sem.q[0];
      assert u in vs[i].sem.q && SlotOf(pc[u]) == i;
    } else {
      assert |Those(pc, Locks(i))| > 0;
      var u :| u in Those(pc, Locks(i));
      assert SlotOf(pc[u]) == i;
    }
  }

  // ---------- every step keeps the invariant ----------

  lemma SlotsUpdate(vs: seq<Slot>, i: int, b: int, a: int)
    requires 0 <= i < |vs|
    ensures |Slots(vs[i := vs[i].(addr := b)], a)| ==
            |Slots(vs, a)| - (if vs[i].addr == a then 1 else 0) + (if b == a then 1 else 0)
  {
    var x, y := Slots(vs, a), Slots(vs[i := vs[i].(addr := b)], a);
    assert y == if b == a then (x - {i}) + {i} else x - {i};
  }

  lemma CriticalCounts(mem: map<int, int>, vs: seq<Slot>, op: int, a: int)
    requires Counts(mem, vs) && (a >= SEG2 ==> a in mem)
    ensures var b := Critical(mem, vs, op, a); Counts(b.mem, b.vs) && b.mem.Keys == mem.Keys
  {
    var b := Critical(mem, vs, op, a);
    if b.next.Locking? || b.next.Unlocking? {
      hide FirstWith;
      var i := b.next.slot;
      forall c | c in mem ensures |Slots(b.vs, c)| == if b.mem[c] < 0 then -b.mem[c] else 0 {
        SlotsUpdate(vs, i, b.vs[i].addr, c);
      }
    }
  }

  // Terminals that stay holders or waiters of the lock leave it as it is.
  lemma MutexSame(prot: Sem, pc: seq<Pc>, t: int, p: Pc)
    requires Mutex(prot, pc) && 0 <= t < |pc| && Holds(p) == Holds(pc[t]) && p.Queued? == pc[t].Queued?
    ensures Mutex(prot, pc[t := p])
  {
    assert Holders(pc[t := p]) == Holders(pc) && Waiters(pc[t := p]) == Waiters(pc);
  }

  lemma MutexCall(prot: Sem, pc: seq<Pc>, t: int, op: int, a: int)
    requires Mutex(prot, pc) && 0 <= t < |pc| && pc[t] == Idle
    ensures Mutex(P(prot, t), pc[t := if prot.val <= 0 then Queued(op, a) else Inside(op, a)])
  {
    hide Locks.Mutex;
    var pc' := pc[t := if prot.val <= 0 then Queued(op, a) else Inside(op, a)];
    Locks.Acquire(prot, Holders(pc), Waiters(pc), t);
    assert Waiters(pc') == if prot.val <= 0 then Waiters(pc) + {t} else Waiters(pc);
    assert Holders(pc') == if prot.val <= 0 then Holders(pc) else Holders(pc) + {t};
    assert {} + {t} == {t};
  }

  lemma MutexFree(prot: Sem, pc: seq<Pc>, t: int, p: Pc)
    requires Mutex(prot, pc) && 0 <= t < |pc| && Holds(pc[t]) && !Holds(p) && !p.Queued? && prot.q == []
    ensures Mutex(V(prot), pc[t := p])
  {
    Locks.Hand(prot, Holders(pc), Waiters(pc), t);
    assert Holders(pc[t := p]) == Holders(pc) - {t} == {};
    assert Waiters(pc[t := p]) == Waiters(pc);
  }

  lemma MutexPass(prot: Sem, pc: seq<Pc>, t: int, p: Pc, w: int, p': Pc)
    requires Mutex(prot, pc) && 0 <= t < |pc| && Holds(pc[t]) && !Holds(p) && !p.Queued?
    requires prot.q != [] && w == prot.q[0] && p'.Inside?
    ensures 0 <= w < |pc| && w != t && pc[w].Queued? && Mutex(V(prot), pc[t := p][w := p'])
  {
    Locks.Hand(prot, Holders(pc), Waiters(pc), t);
    assert w in Waiters(pc);
    var pc' := pc[t := p][w := p'];
    assert Holders(pc') == Holders(pc) - {t} + {w} == {w};
    assert Waiters(pc') == Waiters(pc) - {w};
  }

  ghost predicate About(role: Role, n: int) {
    role == Outside || role.slot == n
  }

  // A step that concerns slot n alone keeps the ledgers of the others.
  lemma LedgersAt(vs: seq<Slot>, pc: seq<Pc>, vs': seq<Slot>, pc': seq<Pc>, n: int)
    requires Ledgers(vs, pc) && |vs'| == |vs| && |pc'| == |pc| && 0 <= n < |vs|
    requires forall i | 0 <= i < |vs| && i != n :: vs'[i] == vs[i]
    requires forall u | 0 <= u < |pc| ::
               RoleOf(pc'[u]) == RoleOf(pc[u]) || (About(RoleOf(pc[u]), n) && About(RoleOf(pc'[u]), n))
    requires Ledger(vs', pc', n)
    ensures Ledgers(vs', pc')
  {
    forall i | 0 <= i < |vs| && i != n ensures Ledger(vs', pc', i) {
      assert Ledger(vs, pc, i);
      assert Those(pc', Locks(i)) == Those(pc, Locks(i));
      assert Those(pc', Unlocks(i)) == Those(pc, Unlocks(i));
    }
  }

  lemma LedgersSame(vs: seq<Slot>, pc: seq<Pc>, t: int, p: Pc)
    requires Ledgers(vs, pc) && 0 <= t < |pc| && RoleOf(p) == RoleOf(pc[t])
    ensures Ledgers(vs, pc[t := p])
  {
    var pc' := pc[t := p];
    forall i | 0 <= i < |vs| ensures Ledger(vs, pc', i) {
      assert Ledger(vs, pc, i);
      ThoseUpdate(pc, t, p, Locks(i));
      ThoseUpdate(pc, t, p, Unlocks(i));
    }
  }

  lemma CallInv(s: System, e: Event)
    requires Inv(s) && Enabled(s, e) && e.Call?
    ensures Inv(Next(s, e))
  {
    hide Mutex, Ledgers, Counts;
    MutexCall(s.prot, s.pc, e.t, e.op, e.a);
    LedgersSame(s.vs, s.pc, e.t, Next(s, e).pc[e.t]);
  }

  // The terminal takes or clears slot n and will LOCK or UNLOCK it.
  lemma LedgersWork(vs: seq<Slot>, pc: seq<Pc>, t: int, n: nat, addr: int, next: Pc)
    requires Ledgers(vs, pc) && 0 <= t < |pc| && pc[t].Inside? && n < |vs|
    requires (RoleOf(next) == Locks(n) && next.Locking? && vs[n].addr == 0 != addr)
             || (RoleOf(next) == Unlocks(n) && next.Unlocking? && vs[n].addr != 0 == addr)
    ensures Ledgers(vs[n := vs[n].(addr := addr)], pc[t := Leaving(next)])
  {
    assert Ledger(vs, pc, n);
    ThoseUpdate(pc, t, Leaving(next), Locks(n));
    ThoseUpdate(pc, t, Leaving(next), Unlocks(n));
    LedgersAt(vs, pc, vs[n := vs[n].(addr := addr)], pc[t := Leaving(next)], n);
  }

  lemma WorkInv(s: System, t: int)
    requires Inv(s) && Enabled(s, Work(t))
    ensures Inv(Next(s, Work(t)))
  {
    hide Mutex, Ledgers, Counts, FirstWith;
    var op, a := s.pc[t].op, s.pc[t].a;
    PFinds(s, t);
    if a >= SEG2 && s.mem[a] < 0 { VFinds(s.mem, s.vs, a); }
    CriticalCounts(s.mem, s.vs, op, a);
    var b := Critical(s.mem, s.vs, op, a);
    MutexSame(s.prot, s.pc, t, Leaving(b.next));
    if b.vs == s.vs {
      LedgersSame(s.vs, s.pc, t, Leaving(b.next));
    } else {
      LedgersWork(s.vs, s.pc, t, b.next.slot, b.vs[b.next.slot].addr, b.next);
    }
  }

  lemma LeaveInv(s: System, t: int)
    requires Inv(s) && Enabled(s, Leave(t))
    ensures Inv(Next(s, Leave(t)))
  {
    hide Ledgers, Counts;
    var p := s.pc[t].next;
    assert Known(s.mem, |s.vs|, s.pc[t]);
    LedgersSame(s.vs, s.pc, t, p);
    if s.prot.q == [] {
      MutexFree(s.prot, s.pc, t, p);
    } else {
      var w := s.prot.q[0];
      assert w in s.prot.q;
      MutexPass(s.prot, s.pc, t, p, w, Admitted(s));
      LedgersSame(s.vs, s.pc[t := p], w, Admitted(s));
    }
  }

  lemma CountsSem(mem: map<int, int>, vs: seq<Slot>, i: int, u: Sem)
    requires Counts(mem, vs) && 0 <= i < |vs|
    ensures Counts(mem, vs[i := vs[i].(sem := u)])
  {
    forall a | a in mem ensures Slots(vs[i := vs[i].(sem := u)], a) == Slots(vs, a) {}
  }

  lemma LedgersSleep(vs: seq<Slot>, pc: seq<Pc>, t: int, n: nat, p: Pc)
    requires Ledgers(vs, pc) && 0 <= t < |pc| && RoleOf(pc[t]) == Locks(n) && n < |vs|
    requires RoleOf(p) == if vs[n].sem.val <= 0 then Sleeps(n) else Outside
    ensures Ledgers(vs[n := vs[n].(sem := P(vs[n].sem, t))], pc[t := p])
  {
    assert Ledger(vs, pc, n);
    ThoseUpdate(pc, t, p, Locks(n));
    ThoseUpdate(pc, t, p, Unlocks(n));
    PBalanced(vs[n].sem, t);
    LedgersAt(vs, pc, vs[n := vs[n].(sem := P(vs[n].sem, t))], pc[t := p], n);
  }

  lemma SleepInv(s: System, t: int)
    requires Inv(s) && Enabled(s, Act(t)) && s.pc[t].Locking?
    ensures Inv(Next(s, Act(t)))
  {
    hide Mutex, Ledgers, Counts;
    var r, n := Next(s, Act(t)), s.pc[t].slot;
    LedgersSleep(s.vs, s.pc, t, n, r.pc[t]);
    CountsSem(s.mem, s.vs, n, r.vs[n].sem);
    MutexSame(s.prot, s.pc, t, r.pc[t]);
  }

  lemma LedgersRouse(vs: seq<Slot>, pc: seq<Pc>, t: int, n: nat)
    requires Ledgers(vs, pc) && 0 <= t < |pc| && RoleOf(pc[t]) == Unlocks(n) && n < |vs|
    ensures Ledgers(vs[n := vs[n].(sem := V(vs[n].sem))], Wake(pc[t := Idle], vs[n].sem, Idle))
    ensures vs[n].sem.val < 0 ==>
              vs[n].sem.q != [] && 0 <= vs[n].sem.q[0] < |pc| && RoleOf(pc[vs[n].sem.q[0]]) == Sleeps(n)
  {
    var u, pc1 := vs[n].sem, pc[t := Idle];
    assert Ledger(vs, pc, n);
    RouseLedger(vs, pc, t, n);
    if u.val < 0 { assert u.q[0] in u.q; }
    LedgersAt(vs, pc, vs[n := vs[n].(sem := V(u))], Wake(pc1, u, Idle), n);
  }

  lemma RouseLedger(vs: seq<Slot>, pc: seq<Pc>, t: int, n: nat)
    requires n < |vs| && Ledger(vs, pc, n) && 0 <= t < |pc| && RoleOf(pc[t]) == Unlocks(n)
    ensures Ledger(vs[n := vs[n].(sem := V(vs[n].sem))], Wake(pc[t := Idle], vs[n].sem, Idle), n)
  {
    var u, pc1 := vs[n].sem, pc[t := Idle];
    ThoseUpdate(pc, t, Idle, Locks(n));
    ThoseUpdate(pc, t, Idle, Unlocks(n));
    if u.val < 0 {
      NoDupTail(u.q);
      assert u.q == [u.q[0]] + u.q[1..];
      assert forall x :: x in u.q <==> x == u.q[0] || x in u.q[1..];
      ThoseUpdate(pc1, u.q[0], Idle, Locks(n));
      ThoseUpdate(pc1, u.q[0], Idle, Unlocks(n));
    }
  }

  lemma RouseInv(s: System, t: int)
    requires Inv(s) && Enabled(s, Act(t)) && s.pc[t].Unlocking?
    ensures Inv(Next(s, Act(t)))
  {
    hide Mutex, Ledgers, Counts;
    var n := s.pc[t].slot;
    LedgersRouse(s.vs, s.pc, t, n);
    CountsSem(s.mem, s.vs, n, V(s.vs[n].sem));
    MutexSame(s.prot, s.pc, t, Idle);
    if s.vs[n].sem.val < 0 {
      MutexSame(s.prot, s.pc[t := Idle], s.vs[n].sem.q[0], Idle);
    }
  }

  lemma StepInv(s: System, e: Event)
    requires Inv(s) && Enabled(s, e)
    ensures Inv(Next(s, e))
  {
    match e
    case Call(_, _, _) => CallInv(s, e);
    case Work(t) => WorkInv(s, t);
    case Leave(t) => LeaveInv(s, t);
    case Act(t) => if s.pc[t].Locking? { SleepInv(s, t); } else { RouseInv(s, t); }
  }

  // ---------- runs ----------

  ghost predicate Legal(s: System, es: seq<Event>)
    decreases |es|
  {
    es == [] || (Enabled(s, es[0]) && Legal(Next(s, es[0]), es[1..]))
  }

  ghost function Reached(s: System, es: seq<Event>): System
    requires Legal(s, es)
    decreases |es|
  {
    if es == [] then s else Reached(Next(s, es[0]), es[1..])
  }

  // The counters of the shared segment start at zero or above.
  ghost predicate GoodMem(mem: map<int, int>) {
    forall a | a in mem :: a >= SEG2 && mem[a] >= 0
  }

  ghost function Initial(mem: map<int, int>): System {
    System(mem, seq(MAXPROC, _ => Slot(0, Sem(0, []))), Sem(1, []), seq(TER, _ => Idle))
  }

  lemma InitialInv(mem: map<int, int>)
    requires GoodMem(mem)
    ensures Inv(Initial(mem))
  {
    var s := Initial(mem);
    forall i | 0 <= i < |s.vs| ensures Ledger(s.vs, s.pc, i) {
      assert Those(s.pc, Locks(i)) == {} && Those(s.pc, Unlocks(i)) == {};
    }
    forall a | a in mem ensures |Slots(s.vs, a)| == 0 { assert Slots(s.vs, a) == {}; }
    forall t | 0 <= t < |s.pc| ensures s.pc[t] == Idle {}
  }

  lemma {:induction false} RunInv(s: System, es: seq<Event>)
    requires Inv(s) && Legal(s, es)
    ensures Inv(Reached(s, es))
    decreases |es|
  {
    if es != [] {
      StepInv(s, es[0]);
      RunInv(Next(s, es[0]), es[1..]);
    }
  }

  // In every interleaving: a counter of value v is recorded in exactly max(0, -v) slots, at
  // most one terminal holds protected_sem, and it always goes on to release it.
  lemma VirtualSafe(mem: map<int, int>, es: seq<Event>)
    requires GoodMem(mem) && Legal(Initial(mem), es)
    ensures var s := Reached(Initial(mem), es);
            && (forall a | a in s.mem :: |Slots(s.vs, a)| == if s.mem[a] < 0 then -s.mem[a] else 0)
            && (forall t, u | 0 <= t < |s.pc| && 0 <= u < |s.pc| && Holds(s.pc[t]) && Holds(s.pc[u]) :: t == u)
            && (forall t | 0 <= t < |s.pc| :: s.pc[t] != Stuck)
            && (forall t | 0 <= t < |s.pc| && s.pc[t].Inside? :: Enabled(s, Work(t)) && Next(s, Work(t)).pc[t].Leaving?)
            && (forall t | 0 <= t < |s.pc| && s.pc[t].Leaving? :: !Holds(Next(s, Leave(t)).pc[t]))
  {
    InitialInv(mem);
    RunInv(Initial(mem), es);
    var s := Reached(Initial(mem), es);
    forall t | 0 <= t < |s.pc| ensures Known(s.mem, |s.vs|, s.pc[t]) {}
    forall t | 0 <= t < |s.pc| && s.pc[t].Inside? ensures Enabled(s, Work(t)) && Next(s, Work(t)).pc[t].Leaving? {
      StepInv(s, Work(t));
      assert Known(s.mem, |s.vs|, Next(s, Work(t)).pc[t]);
    }
    forall t | 0 <= t < |s.pc| && s.pc[t].Leaving? ensures !Holds(Next(s, Leave(t)).pc[t]) {
      assert t !in s.prot.q;
    }
  }

  // With any number of terminals: a call never releases protected_sem exactly when a P finds
  // no unit and every slot taken, or a V finds a waiter recorded nowhere.
  lemma StuckWhen(mem: map<int, int>, vs: seq<Slot>, op: int, a: int)
    requires a >= SEG2 ==> a in mem
    ensures Critical(mem, vs, op, a).next == Stuck <==>
            a >= SEG2 && (if op == LOCK then mem[a] <= 0 && forall i | 0 <= i < |vs| :: vs[i].addr != 0
                          else mem[a] < 0 && Slots(vs, a) == {})
  {
    if FirstWith(vs, a) < |vs| { assert FirstWith(vs, a) in Slots(vs, a); }
  }

  // ---------- a wakeup can go to the wrong counter ----------

  lemma Cons(s: System, e: Event, es: seq<Event>)
    requires Enabled(s, e) && Legal(Next(s, e), es)
    ensures Legal(s, [e] + es) && Reached(s, [e] + es) == Reached(Next(s, e), es)
  {
    assert ([e] + es)[1..] == es;
  }

  // One call, with protected_sem free, up to its LOCK or UNLOCK of slot 0.
  lemma Through(s: System, t: int, op: int, a: int) returns (r: System)
    requires 0 <= t < |s.pc| && s.pc[t] == Idle && s.prot == Sem(1, []) && a in s.mem && a >= SEG2 && s.vs != []
    requires if op == LOCK then s.mem[a] <= 0 && s.vs[0].addr == 0
             else op == UNLOCK && s.mem[a] < 0 && s.vs[0].addr == a
    ensures r == System(s.mem[a := s.mem[a] + op], s.vs[0 := s.vs[0].(addr := if op == LOCK then a else 0)], s.prot,
                        s.pc[t := if op == LOCK then Locking(0, a) else Unlocking(0, a)])
    ensures forall es | Legal(r, es) ::
              && Legal(s, [Call(t, op, a)] + ([Work(t)] + ([Leave(t)] + es)))
              && Reached(s, [Call(t, op, a)] + ([Work(t)] + ([Leave(t)] + es))) == Reached(r, es)
  {
    var s1 := Next(s, Call(t, op, a));
    var s2 := Next(s1, Work(t));
    r := Next(s2, Leave(t));
    forall es | Legal(r, es)
      ensures Legal(s, [Call(t, op, a)] + ([Work(t)] + ([Leave(t)] + es)))
      ensures Reached(s, [Call(t, op, a)] + ([Work(t)] + ([Leave(t)] + es))) == Reached(r, es)
    {
      Cons(s2, Leave(t), es);
      Cons(s1, Work(t), [Leave(t)] + es);
      Cons(s, Call(t, op, a), [Work(t)] + ([Leave(t)] + es));
    }
  }

  // The end of such a run: 0 and 2 are about to LOCK slot 0 and 1 to UNLOCK it.
  lemma LastSteps(s: System, a: int, b: int) returns (es: seq<Event>)
    requires |s.pc| >= 3 && s.vs != [] && s.vs[0].sem == Sem(0, [])
    requires s.pc[0] == Locking(0, a) && s.pc[1] == Unlocking(0, a) && s.pc[2] == Locking(0, b)
    ensures es == [Act(2)] + ([Act(1)] + ([Act(0)] + [])) && Legal(s, es)
    ensures Reached(s, es).mem == s.mem && Reached(s, es).pc == s.pc[0 := Asleep(0, a)][1 := Idle][2 := Idle]
  {
    var s1 := Next(s, Act(2));
    assert s1.vs[0].sem == Sem(-1, [2]);
    var s2 := Next(s1, Act(1));
    assert s2.vs[0].sem == Sem(0, []) && s2.pc == s.pc[1 := Idle][2 := Idle];
    var s3 := Next(s2, Act(0));
    Cons(s2, Act(0), []);
    Cons(s1, Act(1), [Act(0)] + []);
    es := [Act(2)] + ([Act(1)] + ([Act(0)] + []));
    Cons(s, Act(2), [Act(1)] + ([Act(0)] + []));
  }

  // A slot can be taken again between the V that clears it and its UNLOCK. Here terminal 0
  // calls P(a), terminal 1 V(a) and terminal 2 P(b); at the end b still records its waiter,
  // who goes on without any V(b), while the waiter for a sleeps although a has been released.
  lemma WrongWakeup(a: int, b: int) returns (es: seq<Event>)
    requires TER >= 3 && SEG2 <= a && SEG2 <= b && a != b
    ensures GoodMem(map[a := 0, b := 0]) && Legal(Initial(map[a := 0, b := 0]), es)
    ensures forall e | e in es && e.Call? && e.op == UNLOCK :: e.a == a
    ensures var s := Reached(Initial(map[a := 0, b := 0]), es);
            && s.mem == map[a := 0, b := -1]
            && s.pc == seq(TER, _ => Idle)[0 := Asleep(0, a)]
  {
    hide Legal, Reached, Next;
    var s0 := Initial(map[a := 0, b := 0]);
    var s1 := Through(s0, 0, LOCK, a);
    var s2 := Through(s1, 1, UNLOCK, a);
    var s3 := Through(s2, 2, LOCK, b);
    var e3 := LastSteps(s3, a, b);
    var e2 := [Call(2, LOCK, b)] + ([Work(2)] + ([Leave(2)] + e3));
    var e1 := [Call(1, UNLOCK, a)] + ([Work(1)] + ([Leave(1)] + e2));
    assert Legal(s2, e2) && Legal(s1, e1);
    es := [Call(0, LOCK, a)] + ([Work(0)] + ([Leave(0)] + e1));
  }
}
