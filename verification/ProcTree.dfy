// The process tree: ordered children, parents, and the order in which a subtree is killed.
module ProcTree {
  import opened Base

  // The tree of live processes; depth is the distance from the root at creation.
  datatype Tree = Tree(kids: seq<seq<int>>, par: seq<int>, depth: seq<nat>)

  predicate IsPid(p: int) {
    0 <= p < MAXPROC
  }

  // Children know their parent, and a process is no child of two parents.
  ghost predicate WfTree(t: Tree) {
    && |t.kids| == |t.par| == |t.depth| == MAXPROC
    && (forall p | IsPid(p) :: NoDup(t.kids[p]))
    && forall p, c {:trigger c in t.kids[p]} | IsPid(p) && c in t.kids[p] ::
         IsPid(c) && t.par[c] == p && t.depth[c] == t.depth[p] + 1
  }

  // Every process with a parent is one of its children.
  ghost predicate Closed(t: Tree) {
    && WfTree(t)
    && forall x | IsPid(x) && t.par[x] != ENULL :: IsPid(t.par[x]) && x in t.kids[t.par[x]]
  }

  ghost function Top(depth: seq<nat>): (r: nat)
    ensures forall k | 0 <= k < |depth| :: depth[k] <= r
  {
    if depth == [] then 0 else
      var n := |depth| - 1;
      var m := Top(depth[..n]);
      assert forall k | 0 <= k < n :: depth[..n][k] == depth[k];
      if depth[n] > m then depth[n] else m
  }

  // x is p or a descendant of p: following parents from x leads to p.
  ghost predicate IsDesc(t: Tree, x: int, p: int)
    requires Closed(t) && IsPid(x)
    decreases t.depth[x]
  {
    x == p || (t.par[x] != ENULL && IsDesc(t, t.par[x], p))
  }

  ghost predicate Siblings(t: Tree, cs: seq<int>, d: nat) {
    && |t.depth| == MAXPROC && d <= Top(t.depth) + 1
    && forall c | c in cs :: IsPid(c) && t.depth[c] == d
  }

  // The siblings cs at depth d and all their descendants, each after its own descendants.
  ghost function Post(t: Tree, cs: seq<int>, d: nat): (r: seq<int>)
    requires WfTree(t) && Siblings(t, cs, d)
    ensures forall x | x in r :: IsPid(x)
    decreases Top(t.depth) + 1 - d, |cs|
  {
    if cs == [] then [] else
      assert cs[0] in cs;
      Post(t, t.kids[cs[0]], d + 1) + [cs[0]] + Post(t, cs[1..], d)
  }

  lemma {:induction false} PostConcat(t: Tree, cs: seq<int>, ds: seq<int>, d: nat)
    requires WfTree(t) && Siblings(t, cs, d) && Siblings(t, ds, d)
    ensures Siblings(t, cs + ds, d)
    ensures Post(t, cs + ds, d) == Post(t, cs, d) + Post(t, ds, d)
    decreases |cs|
  {
    hide NoDup;
    if cs == [] {
      assert cs + ds == ds;
    } else {
      assert cs[0] in cs;
      assert (cs + ds)[1..] == cs[1..] + ds;
      PostConcat(t, cs[1..], ds, d);
    }
  }

  // Members of a subtree list are its roots or children of members.
  lemma {:induction false} PostParent(t: Tree, cs: seq<int>, d: nat, x: int)
    requires WfTree(t) && Siblings(t, cs, d) && x in Post(t, cs, d)
    ensures x in cs || (IsPid(t.par[x]) && x in t.kids[t.par[x]] && t.par[x] in Post(t, cs, d))
    ensures t.depth[x] >= d && (t.depth[x] == d <==> x in cs)
    decreases Top(t.depth) + 1 - d, |cs|
  {
    hide NoDup;
    var c := cs[0];
    assert c in cs;
    if x in Post(t, t.kids[c], d + 1) {
      PostParent(t, t.kids[c], d + 1, x);
    } else if x in Post(t, cs[1..], d) {
      PostParent(t, cs[1..], d, x);
    }
  }

  // Every sibling, and with each member its children, is listed.
  lemma {:induction false} PostClosed(t: Tree, cs: seq<int>, d: nat)
    requires WfTree(t) && Siblings(t, cs, d)
    ensures forall c | c in cs :: c in Post(t, cs, d)
    ensures forall x, y | x in Post(t, cs, d) && y in t.kids[x] :: y in Post(t, cs, d)
    decreases Top(t.depth) + 1 - d, |cs|
  {
    hide NoDup;
    if cs != [] {
      assert cs[0] in cs;
      PostClosed(t, t.kids[cs[0]], d + 1);
      PostClosed(t, cs[1..], d);
    }
  }

  // Subtrees of different siblings have no process in common.
  lemma {:induction false} PostDisjoint(t: Tree, cs: seq<int>, ds: seq<int>, d: nat, x: int)
    requires WfTree(t) && Siblings(t, cs, d) && Siblings(t, ds, d)
    requires forall c | c in cs :: c !in ds
    requires x in Post(t, cs, d) && x in Post(t, ds, d)
    ensures false
    decreases t.depth[x]
  {
    PostParent(t, cs, d, x);
    PostParent(t, ds, d, x);
    if x !in cs {
      PostDisjoint(t, cs, ds, d, t.par[x]);
    }
  }

  lemma {:induction false} PostNoDup(t: Tree, cs: seq<int>, d: nat)
    requires WfTree(t) && Siblings(t, cs, d) && NoDup(cs)
    ensures NoDup(Post(t, cs, d))
    decreases Top(t.depth) + 1 - d, |cs|
  {
    if cs != [] {
      NoDupTail(cs);
      hide NoDup;
      var c, rest := cs[0], cs[1..];
      assert c in cs;
      PostNoDup(t, t.kids[c], d + 1);
      PostNoDup(t, rest, d);
      assert cs == [c] + rest;
      PostSplit(t, c, rest, d, Post(t, t.kids[c], d + 1), Post(t, rest, d));
    }
  }

  lemma PostSplit(t: Tree, c: int, rest: seq<int>, d: nat, a: seq<int>, b: seq<int>)
    requires WfTree(t) && Siblings(t, [c] + rest, d) && c !in rest
    requires IsPid(c) && Siblings(t, t.kids[c], d + 1) && Siblings(t, rest, d)
    requires a == Post(t, t.kids[c], d + 1) && b == Post(t, rest, d)
    requires NoDup(a) && NoDup(b)
    ensures NoDup(a + [c] + b)
  {
    assert Siblings(t, [c], d);
    if c in a { PostParent(t, t.kids[c], d + 1, c); }
    NoDupAppend(a, [c]);
    assert Post(t, [c], d) == a + [c] + Post(t, [c][1..], d) == a + [c];
    forall x | x in a + [c] ensures x !in b {
      if x in b {
        PostDisjoint(t, [c], rest, d, x);
      }
    }
    NoDupAppend(a + [c], b);
  }

  // The list depends only on the children of its members.
  lemma {:induction false} PostFrame(t: Tree, u: Tree, cs: seq<int>, d: nat)
    requires WfTree(t) && WfTree(u) && Siblings(t, cs, d) && u.depth == t.depth
    requires forall x | x in Post(t, cs, d) :: u.kids[x] == t.kids[x]
    ensures Siblings(u, cs, d) && Post(u, cs, d) == Post(t, cs, d)
    decreases Top(t.depth) + 1 - d, |cs|
  {
    hide NoDup;
    if cs != [] {
      assert cs[0] in cs;
      PostFrame(t, u, t.kids[cs[0]], d + 1);
      PostFrame(t, u, cs[1..], d);
    }
  }

  // The list of the children of p holds exactly the proper descendants of p.
  lemma {:induction false} PostIsDesc(t: Tree, p: int, x: int)
    requires Closed(t) && IsPid(p) && IsPid(x)
    ensures Siblings(t, t.kids[p], t.depth[p] + 1)
    ensures x in Post(t, t.kids[p], t.depth[p] + 1) <==> x != p && IsDesc(t, x, p)
    decreases t.depth[x]
  {
    var d := t.depth[p] + 1;
    PostClosed(t, t.kids[p], d);
    if t.par[x] != ENULL {
      PostIsDesc(t, p, t.par[x]);
    }
    if x in Post(t, t.kids[p], d) {
      PostParent(t, t.kids[p], d, x);
    }
  }

  // The processes freed when cur terminates, in the order in which they are freed.
  ghost function Victims(t: Tree, cur: int): seq<int>
    requires WfTree(t) && IsPid(cur)
  {
    Post(t, t.kids[cur], t.depth[cur] + 1) + [cur]
  }

  lemma VictimsFacts(t: Tree, cur: int)
    requires Closed(t) && IsPid(cur)
    ensures NoDup(Victims(t, cur))
    ensures forall x | x in Victims(t, cur) :: IsPid(x) && (x != cur ==> t.par[x] != ENULL)
    ensures forall x, y | x in Victims(t, cur) && y in t.kids[x] :: y in Victims(t, cur)
  {
    hide IsDesc;
    var d := t.depth[cur] + 1;
    var vs := Post(t, t.kids[cur], d);
    PostNoDup(t, t.kids[cur], d);
    PostClosed(t, t.kids[cur], d);
    forall x | x in vs ensures x != cur && t.par[x] != ENULL {
      PostParent(t, t.kids[cur], d, x);
    }
    NoDupAppend(vs, [cur]);
  }

  // Terminating cur frees exactly cur and its descendants.
  lemma VictimsAreDescendants(t: Tree, cur: int, x: int)
    requires Closed(t) && IsPid(cur) && IsPid(x)
    ensures x in Victims(t, cur) <==> IsDesc(t, x, cur)
  {
    PostIsDesc(t, cur, x);
  }

  lemma PostOne(t: Tree, c: int)
    requires WfTree(t) && IsPid(c)
    ensures Siblings(t, [c], t.depth[c]) && Post(t, [c], t.depth[c]) == Victims(t, c)
  {
    assert [c][1..] == [];
  }

  // ---------- the order in which processes are freed ----------

  ghost predicate Before(s: seq<int>, x: int, y: int) {
    exists i, j :: 0 <= i < j < |s| && s[i] == x && s[j] == y
  }

  lemma BeforeWithin(a: seq<int>, b: seq<int>, c: seq<int>, x: int, y: int)
    requires Before(b, x, y)
    ensures Before(a + b + c, x, y)
  {
    var i, j :| 0 <= i < j < |b| && b[i] == x && b[j] == y;
    var s := a + b + c;
    assert s[|a| + i] == x && s[|a| + j] == y;
  }

  lemma BeforeAcross(a: seq<int>, b: seq<int>, x: int, y: int)
    requires x in a && y in b
    ensures Before(a + b, x, y)
  {
    var i :| 0 <= i < |a| && a[i] == x;
    var j :| 0 <= j < |b| && b[j] == y;
    assert (a + b)[i] == x && (a + b)[|a| + j] == y;
  }

  // A process comes after those below it.
  lemma {:induction false} PostAfter(t: Tree, cs: seq<int>, d: nat, x: int, y: int)
    requires WfTree(t) && Siblings(t, cs, d) && x in Post(t, cs, d) && y in Victims(t, x) && y != x
    ensures Before(Post(t, cs, d), y, x)
    decreases Top(t.depth) + 1 - d, |cs|
  {
    hide NoDup, Before;
    var c := cs[0];
    assert c in cs;
    var a, b := Post(t, t.kids[c], d + 1), Post(t, cs[1..], d);
    assert a + [c] + b == [] + a + ([c] + b) == (a + [c]) + b + [] == [] + (a + [c]) + b;
    if x in a {
      PostAfter(t, t.kids[c], d + 1, x, y);
      BeforeWithin([], a, [c] + b, y, x);
    } else if x in b {
      PostAfter(t, cs[1..], d, x, y);
      BeforeWithin(a + [c], b, [], y, x);
    } else {
      BeforeAcross(a, [c], y, x);
      BeforeWithin([], a + [c], b, y, x);
    }
  }

  lemma {:induction false} PostHas(t: Tree, cs: seq<int>, d: nat, k: nat, z: int)
    requires WfTree(t) && Siblings(t, cs, d) && k < |cs| && IsPid(cs[k]) && z in Victims(t, cs[k])
    ensures z in Post(t, cs, d)
    decreases |cs|
  {
    hide NoDup;
    assert cs[0] in cs;
    if k > 0 { PostHas(t, cs[1..], d, k - 1, z); }
  }

  // A process comes before those at or below a younger brother.
  lemma {:induction false} PostElder(t: Tree, cs: seq<int>, d: nat, j: nat, k: nat, z: int)
    requires WfTree(t) && Siblings(t, cs, d) && j < k < |cs| && IsPid(cs[k]) && z in Victims(t, cs[k])
    ensures Before(Post(t, cs, d), cs[j], z)
    decreases |cs|
  {
    hide NoDup, Before;
    var c := cs[0];
    assert c in cs;
    var a, b := Post(t, t.kids[c], d + 1), Post(t, cs[1..], d);
    if j == 0 {
      PostHas(t, cs[1..], d, k - 1, z);
      BeforeAcross(a + [c], b, c, z);
    } else {
      PostElder(t, cs[1..], d, j - 1, k - 1, z);
      BeforeWithin(a + [c], b, [], cs[j], z);
      assert (a + [c]) + b + [] == a + [c] + b;
    }
  }

  lemma {:induction false} PostBrothers(t: Tree, cs: seq<int>, d: nat, x: int, j: nat, k: nat, z: int)
    requires WfTree(t) && Siblings(t, cs, d) && x in Post(t, cs, d)
    requires j < k < |t.kids[x]| && IsPid(t.kids[x][k]) && z in Victims(t, t.kids[x][k])
    ensures Before(Post(t, cs, d), t.kids[x][j], z)
    decreases Top(t.depth) + 1 - d, |cs|
  {
    hide NoDup, Before;
    var c := cs[0];
    assert c in cs;
    var a, b := Post(t, t.kids[c], d + 1), Post(t, cs[1..], d);
    assert a + [c] + b == [] + a + ([c] + b) == (a + [c]) + b + [];
    if x in b {
      PostBrothers(t, cs[1..], d, x, j, k, z);
      BeforeWithin(a + [c], b, [], t.kids[x][j], z);
    } else {
      if x in a { PostBrothers(t, t.kids[c], d + 1, x, j, k, z); } else { PostElder(t, t.kids[c], d + 1, j, k, z); }
      BeforeWithin([], a, [c] + b, t.kids[x][j], z);
    }
  }

  // Each process is freed after its descendants, and before those at or below a younger brother.
  lemma VictimsOrder(t: Tree, cur: int)
    requires Closed(t) && IsPid(cur)
    ensures forall x, y | x in Victims(t, cur) && IsPid(y) && y != x && IsDesc(t, y, x) :: Before(Victims(t, cur), y, x)
    ensures forall x, j, k, z | x in Victims(t, cur) && 0 <= j < k < |t.kids[x]| && IsPid(z)
                                && IsDesc(t, z, t.kids[x][k]) ::
              Before(Victims(t, cur), t.kids[x][j], z)
  {
    hide NoDup, Before, IsDesc;
    var d, vs := t.depth[cur], Victims(t, cur);
    PostOne(t, cur);
    forall x, y | x in vs && IsPid(y) && y != x && IsDesc(t, y, x) ensures Before(vs, y, x) {
      VictimsAreDescendants(t, x, y);
      PostAfter(t, [cur], d, x, y);
    }
    forall x, j, k, z | x in vs && 0 <= j < k < |t.kids[x]| && IsPid(z) && IsDesc(t, z, t.kids[x][k])
      ensures Before(vs, t.kids[x][j], z)
    {
      assert t.kids[x][k] in t.kids[x];
      VictimsAreDescendants(t, t.kids[x][k], z);
      PostBrothers(t, [cur], d, x, j, k, z);
    }
  }

  // ---------- killing the children of cur one after the other ----------

  lemma SomeSiblings(t: Tree, cur: int, cs: seq<int>)
    requires WfTree(t) && IsPid(cur) && forall c | c in cs :: c in t.kids[cur]
    ensures Siblings(t, cs, t.depth[cur] + 1)
  {
  }

  // The first k children of cur and their descendants.
  ghost function Earlier(t: Tree, cur: int, k: nat): (r: seq<int>)
    requires WfTree(t) && IsPid(cur) && k <= |t.kids[cur]|
    ensures forall x | x in r :: IsPid(x)
  {
    SomeSiblings(t, cur, t.kids[cur][..k]);
    Post(t, t.kids[cur][..k], t.depth[cur] + 1)
  }

  // All proper descendants of cur.
  ghost function Below(t: Tree, cur: int): seq<int>
    requires WfTree(t) && IsPid(cur)
  {
    Post(t, t.kids[cur], t.depth[cur] + 1)
  }

  // The first k children of cur are gone, and cur has lost its links to them.
  ghost function Stage(t: Tree, cur: int, k: nat): (r: Tree)
    requires WfTree(t) && IsPid(cur) && k <= |t.kids[cur]|
  {
    var u := Clear(t, Elements(Earlier(t, cur, k)));
    u.(kids := u.kids[cur := t.kids[cur][k..]])
  }

  lemma EarlierNext(t: Tree, cur: int, k: nat)
    requires WfTree(t) && IsPid(cur) && k < |t.kids[cur]|
    ensures IsPid(t.kids[cur][k])
    ensures Earlier(t, cur, k + 1) == Earlier(t, cur, k) + Victims(t, t.kids[cur][k])
    ensures Earlier(t, cur, k + 1) <= Below(t, cur)
  {
    hide NoDup, Siblings;
    var ks, d := t.kids[cur], t.depth[cur] + 1;
    assert ks[k] in ks;
    assert ks[..k + 1] == ks[..k] + [ks[k]] && ks == ks[..k + 1] + ks[k + 1..];
    PostOne(t, ks[k]);
    SomeSiblings(t, cur, ks[..k]);
    SomeSiblings(t, cur, ks[..k + 1]);
    SomeSiblings(t, cur, ks[k + 1..]);
    PostConcat(t, ks[..k], [ks[k]], d);
    PostConcat(t, ks[..k + 1], ks[k + 1..], d);
  }

  // The subtrees of different children of cur are disjoint and do not contain cur.
  lemma StageFacts(t: Tree, cur: int, k: nat)
    requires WfTree(t) && IsPid(cur) && k < |t.kids[cur]|
    ensures IsPid(t.kids[cur][k]) && t.kids[cur][k] != cur
    ensures NoDup(Victims(t, t.kids[cur][k]))
    ensures forall x | x in Victims(t, t.kids[cur][k]) ::
              x != cur && x !in Earlier(t, cur, k) && x in Below(t, cur)
    ensures forall x :: x in Earlier(t, cur, k + 1) <==> x in Earlier(t, cur, k) || x in Victims(t, t.kids[cur][k])
  {
    hide NoDup;
    var ks, d := t.kids[cur], t.depth[cur] + 1;
    var c := ks[k];
    assert c in ks;
    EarlierNext(t, cur, k);
    PostNoDup(t, ks, d);
    var all, vk, vc := Below(t, cur), Earlier(t, cur, k), Victims(t, c);
    assert all == (vk + vc) + all[|vk + vc|..];
    NoDupPrefix(vk + vc, all[|vk + vc|..]);
    NoDupSuffix(vk, vc);
    forall x | x in vc ensures x != cur && x !in vk && x in all {
      NoDupDisjoint(vk, vc, x);
      assert x in vk + vc;
      PostParent(t, ks, d, x);
    }
  }

  // Child k of cur heads the same subtree in t and in every tree u that lacks only the
  // children lists of earlier victims and of cur.
  lemma StageVictims(t: Tree, u: Tree, cur: int, k: nat)
    requires WfTree(t) && WfTree(u) && IsPid(cur) && k < |t.kids[cur]| && u.depth == t.depth
    requires forall x | IsPid(x) && x != cur && x !in Earlier(t, cur, k) :: u.kids[x] == t.kids[x]
    ensures IsPid(t.kids[cur][k]) && Victims(u, t.kids[cur][k]) == Victims(t, t.kids[cur][k])
  {
    hide NoDup;
    StageFacts(t, cur, k);
    var c := t.kids[cur][k];
    forall x | x in Post(t, t.kids[c], t.depth[c] + 1) ensures u.kids[x] == t.kids[x] {
      assert x in Victims(t, c);
    }
    PostFrame(t, u, t.kids[c], t.depth[c] + 1);
  }

  lemma StageShrunk(t: Tree, cur: int, k: nat)
    requires WfTree(t) && IsPid(cur) && k <= |t.kids[cur]|
    ensures Shrunk(t, Stage(t, cur, k)) && WfTree(Stage(t, cur, k))
  {
    var u, ks := Stage(t, cur, k), t.kids[cur];
    forall p | IsPid(p) ensures NoDup(u.kids[p]) && forall c | c in u.kids[p] :: c in t.kids[p] {
      assert ks == ks[..k] + ks[k..];
      NoDupSuffix(ks[..k], ks[k..]);
    }
    ShrunkWf(t, u);
  }

  // Killing child k, with or without cur's link to it cut first.
  lemma StageStep(t: Tree, cur: int, k: nat, u1: Tree)
    requires WfTree(t) && IsPid(cur) && k < |t.kids[cur]|
    requires WfTree(u1) && u1 == Stage(t, cur, k).(kids := u1.kids)
    requires u1.kids == Stage(t, cur, k).kids[cur := u1.kids[cur]]
    ensures IsPid(t.kids[cur][k]) && Victims(u1, t.kids[cur][k]) == Victims(t, t.kids[cur][k])
    ensures Clear(u1, Elements(Victims(t, t.kids[cur][k]))).(kids :=
              Clear(u1, Elements(Victims(t, t.kids[cur][k]))).kids[cur := t.kids[cur][k + 1..]]) == Stage(t, cur, k + 1)
    ensures Clear(u1, Elements(Victims(t, t.kids[cur][k]))).kids[cur] == u1.kids[cur]
  {
    hide NoDup, Post;
    StageFacts(t, cur, k);
    StageVictims(t, u1, cur, k);
    var vc := Victims(t, t.kids[cur][k]);
    var w := Clear(u1, Elements(vc));
    assert cur !in vc;
    forall p | IsPid(p) ensures w.kids[cur := t.kids[cur][k + 1..]][p] == Stage(t, cur, k + 1).kids[p] {
      assert p in Earlier(t, cur, k + 1) <==> p in Earlier(t, cur, k) || p in vc;
    }
    assert w.kids[cur := t.kids[cur][k + 1..]] == Stage(t, cur, k + 1).kids;
  }

  lemma StageStart(t: Tree, cur: int)
    requires WfTree(t) && IsPid(cur)
    ensures Stage(t, cur, 0) == t && Earlier(t, cur, 0) == []
  {
    assert t.kids[cur][..0] == [];
    assert Stage(t, cur, 0).kids == t.kids;
  }

  lemma StageEnd(t: Tree, cur: int)
    requires WfTree(t) && IsPid(cur)
    ensures Earlier(t, cur, |t.kids[cur]|) == Below(t, cur)
    ensures Stage(t, cur, |t.kids[cur]|) == Clear(t, Elements(Below(t, cur)) + {cur})
  {
    var ks := t.kids[cur];
    assert ks[..|ks|] == ks;
    forall p | IsPid(p) ensures Stage(t, cur, |ks|).kids[p] == Clear(t, Elements(Below(t, cur)) + {cur}).kids[p] {
      assert p in Elements(Below(t, cur)) + {cur} <==> p in Elements(Below(t, cur)) || p == cur;
    }
    assert Stage(t, cur, |ks|).kids == Clear(t, Elements(Below(t, cur)) + {cur}).kids;
  }

  // The children that cur still points to.
  lemma StageAt(t: Tree, cur: int, k: nat)
    requires WfTree(t) && IsPid(cur) && k < |t.kids[cur]|
    ensures var u, ks := Stage(t, cur, k), t.kids[cur];
            && WfTree(u) && u.depth == t.depth && u.kids[cur] == ks[k..] && ks[k..][1..] == ks[k + 1..]
            && After(ks[k..], 0) == After(ks, k) && (After(ks, k) == ENULL <==> k + 1 == |ks|)
            && IsPid(ks[k]) && t.depth[ks[k]] == t.depth[cur] + 1
  {
    StageShrunk(t, cur, k);
    assert t.kids[cur][k] in t.kids[cur];
    if k + 1 < |t.kids[cur]| { assert t.kids[cur][k + 1] in t.kids[cur]; }
  }

  // A childless root n becomes the last child of cur.
  ghost function Grow(t: Tree, cur: int, n: int): Tree
    requires WfTree(t) && IsPid(cur) && IsPid(n)
  {
    Tree(t.kids[cur := t.kids[cur] + [n]], t.par[n := cur], t.depth[n := t.depth[cur] + 1])
  }

  lemma GrowClosed(t: Tree, cur: int, n: int)
    requires Closed(t) && IsPid(cur) && IsPid(n) && n != cur && t.kids[n] == [] && t.par[n] == ENULL
    ensures Closed(Grow(t, cur, n))
  {
    var u := Grow(t, cur, n);
    forall p, c | IsPid(p) && c in u.kids[p] ensures IsPid(c) && u.par[c] == p && u.depth[c] == u.depth[p] + 1 {
      assert c in t.kids[p] || (p == cur && c == n);
      assert c in t.kids[p] ==> t.par[c] == p;
    }
    assert n !in t.kids[cur];
    forall x | IsPid(x) && u.par[x] != ENULL ensures IsPid(u.par[x]) && x in u.kids[u.par[x]] {
      if x != n { assert x in t.kids[t.par[x]]; }
    }
  }

  // The tree without the processes in d.
  ghost function Prune(t: Tree, d: set<int>): (r: Tree)
    requires |t.kids| == |t.par| == MAXPROC
  {
    Tree(seq(MAXPROC, p requires 0 <= p < MAXPROC => if p in d then [] else Without(t.kids[p], d)),
         seq(MAXPROC, p requires 0 <= p < MAXPROC => if p in d then ENULL else t.par[p]),
         t.depth)
  }

  // Cutting cur out and forgetting the children of all victims prunes the tree.
  lemma CutClearIsPrune(t: Tree, cur: int)
    requires Closed(t) && IsPid(cur)
    ensures WfTree(Cut(t, cur)) && Below(Cut(t, cur), cur) == Below(t, cur)
    ensures Elements(Below(t, cur)) + {cur} == Elements(Victims(t, cur))
    ensures Clear(Cut(t, cur), Elements(Victims(t, cur))).kids == Prune(t, Elements(Victims(t, cur))).kids
  {
    hide NoDup, Without;
    CutWf(t, cur);
    BelowCut(t, cur);
    var d := Elements(Victims(t, cur));
    forall p | IsPid(p) && p !in d ensures Without(t.kids[p], {cur}) == Without(t.kids[p], d) {
      SurvivorKids(t, cur, p);
    }
    assert Clear(Cut(t, cur), d).kids == Prune(t, d).kids;
  }

  // A survivor loses no child but cur.
  lemma SurvivorKids(t: Tree, cur: int, p: int)
    requires Closed(t) && IsPid(cur) && IsPid(p) && p !in Victims(t, cur)
    ensures Without(t.kids[p], {cur}) == Without(t.kids[p], Elements(Victims(t, cur)))
  {
    var d := Elements(Victims(t, cur));
    forall k | 0 <= k < |t.kids[p]| ensures t.kids[p][k] in {cur} <==> t.kids[p][k] in d {
      var c := t.kids[p][k];
      assert c in t.kids[p];
      if c in Below(t, cur) { PostParent(t, t.kids[cur], t.depth[cur] + 1, c); }
    }
    WithoutAgree(t.kids[p], {cur}, d);
  }

  lemma BelowCut(t: Tree, cur: int)
    requires WfTree(t) && WfTree(Cut(t, cur)) && IsPid(cur)
    ensures Below(Cut(t, cur), cur) == Below(t, cur)
  {
    hide NoDup;
    var u, ks, d := Cut(t, cur), t.kids[cur], t.depth[cur] + 1;
    forall x | x == cur || x in Below(t, cur) ensures u.kids[x] == t.kids[x] {
      if x != cur { PostParent(t, ks, d, x); }
      assert cur !in t.kids[x];
      WithoutNone(t.kids[x], {cur});
    }
    PostFrame(t, u, ks, d);
  }

  lemma PruneKids(t: Tree, d: set<int>, p: int)
    requires WfTree(t) && IsPid(p)
    ensures NoDup(Prune(t, d).kids[p])
    ensures forall c :: c in Prune(t, d).kids[p] <==> p !in d && c in t.kids[p] && c !in d
  {
    WithoutNoDup(t.kids[p], d);
    WithoutMembers(t.kids[p], d);
  }

  lemma PruneClosed(t: Tree, d: set<int>)
    requires Closed(t) && forall x, y | x in d && IsPid(x) && y in t.kids[x] :: y in d
    ensures Closed(Prune(t, d))
  {
    hide NoDup, Without;
    var u := Prune(t, d);
    forall p | IsPid(p) ensures NoDup(u.kids[p]) { PruneKids(t, d, p); }
    forall p, c | IsPid(p) && c in u.kids[p] ensures IsPid(c) && u.par[c] == p && u.depth[c] == u.depth[p] + 1 {
      PruneKids(t, d, p);
      assert c in t.kids[p];
    }
    forall x | IsPid(x) && u.par[x] != ENULL ensures IsPid(u.par[x]) && x in u.kids[u.par[x]] {
      assert x in t.kids[t.par[x]];
      PruneKids(t, d, t.par[x]);
    }
  }

  lemma GrowWf(t: Tree, cur: int, n: int)
    requires WfTree(t) && IsPid(cur) && IsPid(n) && n != cur && t.kids[n] == []
    requires forall p | IsPid(p) :: n !in t.kids[p]
    ensures WfTree(Grow(t, cur, n))
  {
    var u := Grow(t, cur, n);
    forall p, c | IsPid(p) && c in u.kids[p] ensures IsPid(c) && u.par[c] == p && u.depth[c] == u.depth[p] + 1 {
      assert c in t.kids[p] || (p == cur && c == n);
      assert c in t.kids[p] ==> t.par[c] == p;
    }
  }

  // The same tree with other children lists.
  ghost predicate Shrunk(t: Tree, u: Tree) {
    && WfTree(t) && u == t.(kids := u.kids) && |u.kids| == MAXPROC
    && forall p | IsPid(p) :: NoDup(u.kids[p]) && forall c | c in u.kids[p] :: c in t.kids[p]
  }

  lemma ShrunkWf(t: Tree, u: Tree)
    requires Shrunk(t, u)
    ensures WfTree(u)
  {
  }

  // The tree with the children of the processes in d forgotten.
  ghost function Clear(t: Tree, d: set<int>): (r: Tree)
    requires WfTree(t)
    ensures WfTree(r)
  {
    t.(kids := seq(MAXPROC, p requires 0 <= p < MAXPROC => if p in d then [] else t.kids[p]))
  }

  // The tree with cur taken out of its parent's children.
  ghost function Cut(t: Tree, cur: int): (r: Tree)
    requires WfTree(t)
  {
    t.(kids := seq(MAXPROC, p requires 0 <= p < MAXPROC => Without(t.kids[p], {cur})))
  }

  lemma CutWf(t: Tree, cur: int)
    requires WfTree(t)
    ensures Shrunk(t, Cut(t, cur)) && WfTree(Cut(t, cur))
    ensures forall p, c | IsPid(p) :: c in Cut(t, cur).kids[p] <==> c in t.kids[p] && c != cur
  {
    forall p | IsPid(p)
      ensures NoDup(Cut(t, cur).kids[p])
      ensures forall c :: c in Cut(t, cur).kids[p] <==> c in t.kids[p] && c != cur
    {
      WithoutNoDup(t.kids[p], {cur});
      WithoutMembers(t.kids[p], {cur});
    }
  }
}
