// Table sizes, the entries of the two kernel tables, and the facts about sequences that
// every other module uses.
module Base {
  // Disks and floppies have eight sectors to a track; a position counts them.
  const SECTORS: int := 8

  function Position(track: int, sector: int): int {
    track * SECTORS + sector
  }

  // A pointer into a table is the index of the entry; ENULL is the null pointer.
  const ENULL: int := -1

  type TableSize = n: nat | 2 <= n witness 2
  type SlotCount = n: nat | 1 <= n witness 1

  const MAXPROC: TableSize
  const SEMMAX: SlotCount

  // The number of terminals, each served by a process of its own.
  type Terminals = n: nat | 1 <= n <= MAXPROC witness 1

  const TER: Terminals

  // A link names an entry of the process table and one of its link slots.
  datatype Link = Link(next: int, index: int)

  const NIL: Link := Link(ENULL, ENULL)

  // Registers r2 and r3 of a saved state: the results of a system call.
  datatype Regs = Regs(r2: int, r3: int)

  datatype Proc = Proc(
    p_link: seq<Link>,
    qcount: int,
    semvec: seq<int>,
    parent: int,
    child: int,
    brother: int,
    regs: Regs)

  datatype Semd = Semd(s_next: int, s_prev: int, s_semAdd: int, s_link: Link)

  ghost predicate NoDup(s: seq<int>) {
    forall j, k | 0 <= j < k < |s| :: s[j] != s[k]
  }

  // The number of entries of s other than nil.
  function Count<T(==)>(s: seq<T>, nil: T): nat {
    if s == [] then 0 else Count(s[..|s| - 1], nil) + (if s[|s| - 1] == nil then 0 else 1)
  }

  lemma {:induction false} CountUpdate<T>(s: seq<T>, nil: T, i: nat, v: T)
    requires i < |s|
    ensures Count(s[i := v], nil) ==
            Count(s, nil) - (if s[i] == nil then 0 else 1) + (if v == nil then 0 else 1)
  {
    var n := |s| - 1;
    if i == n {
      assert s[i := v][..n] == s[..n];
    } else {
      assert s[i := v][..n] == s[..n][i := v];
      CountUpdate(s[..n], nil, i, v);
    }
  }

  // A count below the length leaves a free entry.
  lemma {:induction false} CountFree<T>(s: seq<T>, nil: T) returns (i: nat)
    requires Count(s, nil) < |s|
    ensures i < |s| && s[i] == nil
  {
    var n := |s| - 1;
    if s[n] == nil {
      i := n;
    } else {
      i := CountFree(s[..n], nil);
    }
  }

  lemma {:induction false} CountZero<T>(s: seq<T>, nil: T)
    ensures Count(s, nil) == 0 <==> forall i | 0 <= i < |s| :: s[i] == nil
  {
    if s != [] {
      var n := |s| - 1;
      CountZero(s[..n], nil);
      if Count(s, nil) == 0 {
        forall i | 0 <= i < |s| ensures s[i] == nil {
          if i < n { assert s[..n][i] == s[i]; }
        }
      } else if s[n] == nil {
        var i :| 0 <= i < n && s[..n][i] != nil;
        assert s[i] != nil;
      }
    }
  }

  // s without the members of d, in the order of s.
  function Without(s: seq<int>, d: set<int>): (r: seq<int>)
    ensures |r| <= |s|
  {
    if s == [] then []
    else if s[0] in d then Without(s[1..], d)
    else [s[0]] + Without(s[1..], d)
  }

  lemma {:induction false} WithoutMembers(s: seq<int>, d: set<int>)
    ensures forall x :: x in Without(s, d) <==> x in s && x !in d
  {
    if s != [] {
      WithoutMembers(s[1..], d);
      assert s == [s[0]] + s[1..];
    }
  }

  lemma {:induction false} WithoutNoDup(s: seq<int>, d: set<int>)
    requires NoDup(s)
    ensures NoDup(Without(s, d))
  {
    if s != [] {
      WithoutNoDup(s[1..], d);
      WithoutMembers(s[1..], d);
    }
  }

  lemma {:induction false} WithoutNone(s: seq<int>, d: set<int>)
    requires forall k | 0 <= k < |s| :: s[k] !in d
    ensures Without(s, d) == s
  {
    if s != [] {
      WithoutNone(s[1..], d);
    }
  }

  lemma {:induction false} WithoutAgree(s: seq<int>, d: set<int>, e: set<int>)
    requires forall k | 0 <= k < |s| :: s[k] in d <==> s[k] in e
    ensures Without(s, d) == Without(s, e)
  {
    if s != [] {
      WithoutAgree(s[1..], d, e);
    }
  }

  lemma {:induction false} WithoutAppend(s: seq<int>, u: seq<int>, d: set<int>)
    ensures Without(s + u, d) == Without(s, d) + Without(u, d)
  {
    if s == [] {
      assert s + u == u;
    } else {
      assert (s + u)[1..] == s[1..] + u;
      WithoutAppend(s[1..], u, d);
    }
  }

  lemma {:induction false} WithoutTwice(s: seq<int>, d: set<int>, e: set<int>)
    ensures Without(Without(s, d), e) == Without(s, d + e)
  {
    if s != [] {
      WithoutTwice(s[1..], d, e);
    }
  }

  // Removing one member of a sequence without repetitions cuts it out.
  lemma {:induction false} WithoutOne(s: seq<int>, k: nat)
    requires k < |s| && NoDup(s)
    ensures Without(s, {s[k]}) == s[..k] + s[k + 1..]
  {
    var d := {s[k]};
    assert s == s[..k] + ([s[k]] + s[k + 1..]);
    WithoutAppend(s[..k], [s[k]] + s[k + 1..], d);
    WithoutNone(s[..k], d);
    WithoutNone(s[k + 1..], d);
    assert ([s[k]] + s[k + 1..])[1..] == s[k + 1..];
  }

  lemma NoDupTail(s: seq<int>)
    requires NoDup(s) && s != []
    ensures NoDup(s[1..]) && s[0] !in s[1..]
  {
  }

  lemma NoDupPrefix(a: seq<int>, b: seq<int>)
    requires NoDup(a + b)
    ensures NoDup(a)
  {
    forall j, k | 0 <= j < k < |a| ensures a[j] != a[k] { assert (a + b)[j] != (a + b)[k]; }
  }

  lemma NoDupSuffix(a: seq<int>, b: seq<int>)
    requires NoDup(a + b)
    ensures NoDup(b)
  {
    forall j, k | 0 <= j < k < |b| ensures b[j] != b[k] { assert (a + b)[|a| + j] != (a + b)[|a| + k]; }
  }

  lemma NoDupDisjoint(a: seq<int>, b: seq<int>, x: int)
    requires NoDup(a + b) && x in b
    ensures x !in a
  {
    var k :| 0 <= k < |b| && b[k] == x;
    assert (a + b)[|a| + k] == x;
    forall j | 0 <= j < |a| ensures a[j] != x { assert (a + b)[j] != (a + b)[|a| + k]; }
  }

  lemma NoDupAppend(a: seq<int>, b: seq<int>)
    requires NoDup(a) && NoDup(b) && forall x | x in a :: x !in b
    ensures NoDup(a + b)
  {
    forall j, k | 0 <= j < k < |a + b| ensures (a + b)[j] != (a + b)[k] {
      if j < |a| <= k { assert a[j] in a && b[k - |a|] in b; }
    }
  }

  function First(s: seq<int>): int {
    if s == [] then ENULL else s[0]
  }

  // The entry after position k, or the null pointer at the end.
  function After(s: seq<int>, k: int): int {
    if 0 <= k && k + 1 < |s| then s[k + 1] else ENULL
  }

  ghost function Elements(s: seq<int>): set<int> {
    set x | x in s
  }

  lemma {:induction false} NoDupSize(s: seq<int>)
    requires NoDup(s)
    ensures |Elements(s)| == |s|
  {
    if s != [] {
      var n := |s| - 1;
      NoDupSize(s[..n]);
      assert Elements(s) == Elements(s[..n]) + {s[n]};
    }
  }

  // The table indices below n.
  ghost function Range(n: nat): (r: set<int>)
    ensures |r| == n
    ensures forall x :: x in r <==> 0 <= x < n
  {
    if n == 0 then {} else Range(n - 1) + {n - 1}
  }

  // A sequence of table indices without repetitions is no longer than the table.
  lemma {:induction false} NoDupBound(s: seq<int>, n: nat)
    requires NoDup(s) && forall x | x in s :: 0 <= x < n
    ensures |s| <= n
    ensures |s| == n ==> forall x | 0 <= x < n :: x in s
  {
    NoDupSize(s);
    assert Elements(s) <= Range(n);
    SubsetSize(Elements(s), Range(n));
    if |s| == n {
      forall x | 0 <= x < n ensures x in s { assert x in Range(n); }
    }
  }

  lemma {:induction false} SubsetSize<T>(a: set<T>, b: set<T>)
    requires a <= b
    ensures |a| <= |b|
    ensures |a| == |b| ==> a == b
  {
    assert b == a + (b - a);
    assert |b| == |a| + |b - a|;
  }

  // A set that f maps onto b is no smaller than b.
  lemma {:induction false} OntoSize<T, U>(s: set<T>, f: map<T, U>, b: set<U>)
    requires s <= f.Keys && forall v | v in b :: exists k :: k in s && f[k] == v
    ensures |s| >= |b|
    decreases |s|
  {
    if |b| > 0 {
      var v :| v in b;
      var k :| k in s && f[k] == v;
      forall u | u in b - {v} ensures exists j :: j in s - {k} && f[j] == u {
        var j :| j in s && f[j] == u;
        assert j in s - {k};
      }
      OntoSize(s - {k}, f, b - {v});
      assert |b| == |b - {v}| + 1 && |s| == |s - {k}| + 1;
    }
  }

  // A set that f maps into b, no two members to the same one, is no larger than b.
  lemma {:induction false} IntoSize<T, U>(s: set<T>, f: map<T, U>, b: set<U>)
    requires s <= f.Keys && forall k | k in s :: f[k] in b
    requires forall j, k | j in s && k in s && f[j] == f[k] :: j == k
    ensures |s| <= |b|
    decreases |s|
  {
    if |s| > 0 {
      var k :| k in s;
      IntoSize(s - {k}, f, b - {f[k]});
      assert |b| == |b - {f[k]}| + 1;
    }
  }
}
