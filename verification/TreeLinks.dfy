// The encoding of the process tree in the table: first child, chain of brothers, and the
// parent kept by the last brother only.
module TreeLinks {
  import opened Base
  import opened Asl
  import opened ProcTree

  ghost predicate IsKid(t: Tree, x: int)
    requires |t.kids| == MAXPROC
  {
    exists p :: IsPid(p) && x in t.kids[p]
  }

  // The k-th child of p points to the next one; only the last one points to its parent.
  ghost predicate KidAt(t: seq<Proc>, tree: Tree, p: int, k: int)
    requires |t| == MAXPROC && WfTree(tree) && IsPid(p) && 0 <= k < |tree.kids[p]|
  {
    var c := tree.kids[p][k];
    && IsPid(c)
    && t[c].brother == After(tree.kids[p], k)
    && t[c].parent == if k + 1 < |tree.kids[p]| then ENULL else p
  }

  ghost predicate RootLinks(e: Proc) {
    e.brother == ENULL && e.parent == ENULL
  }

  // The links of the table encode the tree; the child links of the processes in x may be stale.
  ghost predicate TreeRep(t: seq<Proc>, tree: Tree, x: set<int>) {
    && |t| == MAXPROC && WfTree(tree)
    && (forall p | IsPid(p) && p !in x :: t[p].child == First(tree.kids[p]))
    && (forall p, k | IsPid(p) && 0 <= k < |tree.kids[p]| :: KidAt(t, tree, p, k))
    && (forall c | IsPid(c) && !IsKid(tree, c) :: RootLinks(t[c]))
  }

  ghost function RegsOf(t: seq<Proc>): (r: seq<Regs>)
    ensures |r| == |t| && forall p | 0 <= p < |t| :: r[p] == t[p].regs
  {
    seq(|t|, p requires 0 <= p < |t| => t[p].regs)
  }

  lemma TreeFrame(t: seq<Proc>, t': seq<Proc>, tree: Tree, x: set<int>)
    requires TreeRep(t, tree, x) && SameTree(t, t')
    ensures TreeRep(t', tree, x) && RegsOf(t') == RegsOf(t)
  {
    forall p, k | IsPid(p) && 0 <= k < |tree.kids[p]| ensures KidAt(t', tree, p, k) {
      assert KidAt(t, tree, p, k);
    }
  }

  lemma RegsFrame(t: seq<Proc>, p: int, r: Regs, tree: Tree, x: set<int>)
    requires TreeRep(t, tree, x) && IsPid(p)
    ensures TreeRep(t[p := t[p].(regs := r)], tree, x)
    ensures RegsOf(t[p := t[p].(regs := r)]) == RegsOf(t)[p := r]
  {
    var t' := t[p := t[p].(regs := r)];
    forall q, k | IsPid(q) && 0 <= k < |tree.kids[q]| ensures KidAt(t', tree, q, k) {
      assert KidAt(t, tree, q, k);
    }
  }

  // The links encode the children lists only.
  lemma SameKids(t: seq<Proc>, tree: Tree, u: Tree)
    requires TreeRep(t, tree, {}) && WfTree(u) && u.kids == tree.kids
    ensures TreeRep(t, u, {})
  {
    forall p, k | IsPid(p) && 0 <= k < |u.kids[p]| ensures KidAt(t, u, p, k) {
      assert KidAt(t, tree, p, k);
    }
  }

  // Different positions in the tree hold different processes.
  lemma KidUnique(tree: Tree, p: int, k: int, q: int, j: int)
    requires WfTree(tree) && IsPid(p) && IsPid(q) && 0 <= k < |tree.kids[p]| && 0 <= j < |tree.kids[q]|
    requires tree.kids[p][k] == tree.kids[q][j]
    ensures p == q && k == j
  {
    assert tree.kids[p][k] in tree.kids[p] && tree.kids[q][j] in tree.kids[q];
  }

  // ---------- a new last child ----------

  ghost function GrowImage(t: seq<Proc>, tree: Tree, cur: int, n: int, y: int): Proc
    requires |t| == MAXPROC && WfTree(tree) && IsPid(cur) && IsPid(y)
  {
    var ks := tree.kids[cur];
    if y == n then t[y].(parent := cur)
    else if ks == [] && y == cur then t[y].(child := n)
    else if ks != [] && y == ks[|ks| - 1] then t[y].(parent := ENULL, brother := n)
    else t[y]
  }

  // The last child of cur, or cur itself when it has none.
  ghost function Final(tree: Tree, cur: int): int
    requires |tree.kids| == MAXPROC && IsPid(cur)
  {
    var ks := tree.kids[cur];
    if ks == [] then cur else ks[|ks| - 1]
  }

  // The table after linking n behind z, the last child of cur or cur itself.
  ghost function HungFirst(t: seq<Proc>, cur: int, n: int, z: int): (r: seq<Proc>)
    requires |t| == MAXPROC && IsPid(cur) && IsPid(z)
    ensures |r| == |t|
  {
    if t[cur].child == ENULL then t[cur := t[cur].(child := n)] else t[z := t[z].(brother := n, parent := ENULL)]
  }

  ghost function Hung(t: seq<Proc>, cur: int, n: int, z: int): seq<Proc>
    requires |t| == MAXPROC && IsPid(cur) && IsPid(n) && IsPid(z)
  {
    var t1 := HungFirst(t, cur, n, z);
    t1[n := t1[n].(parent := cur)]
  }

  lemma FinalFacts(t: seq<Proc>, tree: Tree, cur: int)
    requires TreeRep(t, tree, {}) && IsPid(cur)
    ensures IsPid(Final(tree, cur)) && t[cur].child == First(tree.kids[cur])
    ensures t[cur].child == ENULL <==> tree.kids[cur] == []
  {
    var ks := tree.kids[cur];
    if ks != [] {
      assert KidAt(t, tree, cur, |ks| - 1) && KidAt(t, tree, cur, 0);
    }
  }

  lemma GrowImages(t: seq<Proc>, t': seq<Proc>, tree: Tree, cur: int, n: int)
    requires TreeRep(t, tree, {}) && |t'| == |t| && IsPid(cur) && IsPid(n) && cur != n && !IsKid(tree, n)
    requires IsPid(Final(tree, cur)) && t' == Hung(t, cur, n, Final(tree, cur))
    ensures forall y | IsPid(y) :: t'[y] == GrowImage(t, tree, cur, n, y)
  {
    var ks := tree.kids[cur];
    FinalFacts(t, tree, cur);
    if ks != [] { assert ks[|ks| - 1] in ks; }
  }

  lemma GrowKidAt(t: seq<Proc>, t': seq<Proc>, tree: Tree, cur: int, n: int, p: int, k: int)
    requires TreeRep(t, tree, {}) && IsPid(cur) && IsPid(n) && cur != n && !IsKid(tree, n)
    requires |t'| == |t| && forall y | IsPid(y) :: t'[y] == GrowImage(t, tree, cur, n, y)
    requires WfTree(Grow(tree, cur, n)) && IsPid(p) && 0 <= k < |Grow(tree, cur, n).kids[p]|
    ensures KidAt(t', Grow(tree, cur, n), p, k)
  {
    var ks := tree.kids[cur];
    if ks != [] { assert KidAt(t, tree, cur, |ks| - 1) && ks[|ks| - 1] in ks; }
    if p == cur && k == |ks| {
      assert RootLinks(t[n]);
    } else {
      assert KidAt(t, tree, p, k) && tree.kids[p][k] in tree.kids[p];
      if ks != [] && tree.kids[p][k] == ks[|ks| - 1] { KidUnique(tree, p, k, cur, |ks| - 1); }
    }
  }

  lemma GrowRep(t: seq<Proc>, t': seq<Proc>, tree: Tree, cur: int, n: int)
    requires TreeRep(t, tree, {}) && IsPid(cur) && IsPid(n) && cur != n && tree.kids[n] == [] && !IsKid(tree, n)
    requires |t'| == |t| && forall y | IsPid(y) :: t'[y] == GrowImage(t, tree, cur, n, y)
    ensures TreeRep(t', Grow(tree, cur, n), {}) && RegsOf(t') == RegsOf(t)
  {
    var u, ks := Grow(tree, cur, n), tree.kids[cur];
    GrowWf(tree, cur, n);
    forall p, k | IsPid(p) && 0 <= k < |u.kids[p]| ensures KidAt(t', u, p, k) {
      GrowKidAt(t, t', tree, cur, n, p, k);
    }
    forall c | IsPid(c) && !IsKid(u, c) ensures RootLinks(t'[c]) {
      assert forall p | IsPid(p) && c in tree.kids[p] :: c in u.kids[p];
      assert n in u.kids[cur];
      if ks != [] { assert ks[|ks| - 1] in u.kids[cur]; }
    }
    forall p | IsPid(p) ensures t'[p].child == First(u.kids[p]) {
      assert t[p].child == First(tree.kids[p]);
    }
  }

  lemma HungRep(t: seq<Proc>, tree: Tree, cur: int, n: int)
    requires TreeRep(t, tree, {}) && IsPid(cur) && IsPid(n) && cur != n && tree.kids[n] == [] && !IsKid(tree, n)
    ensures WfTree(tree) && IsPid(Final(tree, cur))
    ensures var t' := Hung(t, cur, n, Final(tree, cur));
            TreeRep(t', Grow(tree, cur, n), {}) && RegsOf(t') == RegsOf(t)
  {
    FinalFacts(t, tree, cur);
    var t' := Hung(t, cur, n, Final(tree, cur));
    GrowImages(t, t', tree, cur, n);
    GrowRep(t, t', tree, cur, n);
  }

  // ---------- taking out the child at position k of p ----------

  ghost function CutImage(t: seq<Proc>, tree: Tree, p: int, k: int, y: int): Proc
    requires |t| == MAXPROC && WfTree(tree) && IsPid(p) && 0 <= k < |tree.kids[p]| && IsPid(y)
  {
    var ks := tree.kids[p];
    if y == ks[k] then t[y].(parent := ENULL, brother := ENULL)
    else if k == 0 && y == p then t[y].(child := After(ks, 0))
    else if k > 0 && y == ks[k - 1] then
      t[y].(brother := After(ks, k), parent := if k + 1 < |ks| then t[y].parent else p)
    else t[y]
  }

  lemma CutKids(tree: Tree, p: int, k: int)
    requires WfTree(tree) && IsPid(p) && 0 <= k < |tree.kids[p]|
    ensures var u, c := Cut(tree, tree.kids[p][k]), tree.kids[p][k];
            && u.kids[p] == tree.kids[p][..k] + tree.kids[p][k + 1..]
            && forall q | IsPid(q) && q != p :: u.kids[q] == tree.kids[q]
  {
    var c := tree.kids[p][k];
    assert c in tree.kids[p];
    WithoutOne(tree.kids[p], k);
    forall q | IsPid(q) && q != p ensures Without(tree.kids[q], {c}) == tree.kids[q] {
      assert c !in tree.kids[q];
      WithoutNone(tree.kids[q], {c});
    }
  }

  lemma CutRep(t: seq<Proc>, t': seq<Proc>, tree: Tree, p: int, k: int)
    requires TreeRep(t, tree, {}) && IsPid(p) && 0 <= k < |tree.kids[p]| && tree.kids[p][k] != p
    requires |t'| == |t| && forall y | IsPid(y) :: t'[y] == CutImage(t, tree, p, k, y)
    ensures TreeRep(t', Cut(tree, tree.kids[p][k]), {}) && RegsOf(t') == RegsOf(t)
  {
    var c := tree.kids[p][k];
    var u := Cut(tree, c);
    CutWf(tree, c);
    CutKids(tree, p, k);
    forall q, j | IsPid(q) && 0 <= j < |u.kids[q]| ensures KidAt(t', u, q, j) {
      CutKidAt(t, t', tree, p, k, q, j);
    }
    forall x | IsPid(x) && !IsKid(u, x) ensures RootLinks(t'[x]) {
      CutRoot(t, t', tree, p, k, x);
    }
    forall q | IsPid(q) ensures t'[q].child == First(u.kids[q]) {
      assert t[q].child == First(tree.kids[q]);
    }
  }

  lemma CutKidAt(t: seq<Proc>, t': seq<Proc>, tree: Tree, p: int, k: int, q: int, j: int)
    requires TreeRep(t, tree, {}) && IsPid(p) && 0 <= k < |tree.kids[p]|
    requires |t'| == |t| && forall y | IsPid(y) :: t'[y] == CutImage(t, tree, p, k, y)
    requires WfTree(Cut(tree, tree.kids[p][k]))
    requires IsPid(q) && 0 <= j < |Cut(tree, tree.kids[p][k]).kids[q]|
    ensures KidAt(t', Cut(tree, tree.kids[p][k]), q, j)
  {
    hide Without, NoDup, IsKid;
    CutKids(tree, p, k);
    var i := if q == p && j >= k then j + 1 else j;
    assert Cut(tree, tree.kids[p][k]).kids[q][j] == tree.kids[q][i];
    assert KidAt(t, tree, q, i) && KidAt(t, tree, p, k);
    if tree.kids[q][i] == tree.kids[p][k] { KidUnique(tree, q, i, p, k); }
    if k > 0 {
      if tree.kids[q][i] == tree.kids[p][k - 1] { KidUnique(tree, q, i, p, k - 1); }
    }
  }

  lemma CutRoot(t: seq<Proc>, t': seq<Proc>, tree: Tree, p: int, k: int, x: int)
    requires TreeRep(t, tree, {}) && IsPid(p) && 0 <= k < |tree.kids[p]|
    requires |t'| == |t| && forall y | IsPid(y) :: t'[y] == CutImage(t, tree, p, k, y)
    requires WfTree(Cut(tree, tree.kids[p][k]))
    requires IsPid(x) && !IsKid(Cut(tree, tree.kids[p][k]), x)
    ensures RootLinks(t'[x])
  {
    var c := tree.kids[p][k];
    CutWf(tree, c);
    if x != c {
      forall q | IsPid(q) ensures x !in tree.kids[q] {
        assert x !in Cut(tree, c).kids[q];
      }
      assert !IsKid(tree, x);
      assert k > 0 ==> tree.kids[p][k - 1] in tree.kids[p];
    }
  }

  // The table after cutting out the child at position k of p.
  ghost function CutFirst(t: seq<Proc>, tree: Tree, p: int, k: int): (r: seq<Proc>)
    requires |t| == MAXPROC && WfTree(tree) && IsPid(p)
    requires 0 <= k < |tree.kids[p]| && IsPid(Prev(tree.kids[p], k)) == (k > 0)
    ensures |r| == |t|
  {
    var ks := tree.kids[p];
    if k == 0 then t[p := t[p].(child := After(ks, 0))]
    else
      var z := ks[k - 1];
      t[z := t[z].(brother := After(ks, k), parent := if k + 1 < |ks| then t[z].parent else p)]
  }

  ghost predicate KidPos(tree: Tree, p: int, k: int, c: int) {
    WfTree(tree) && IsPid(p) && IsPid(c) && 0 <= k < |tree.kids[p]| && tree.kids[p][k] == c
  }

  lemma CutTable(t: seq<Proc>, tree: Tree, p: int, k: int, c: int)
    requires TreeRep(t, tree, {}) && KidPos(tree, p, k, c)
    ensures c != p && (IsPid(Prev(tree.kids[p], k)) <==> k > 0) && WfTree(Cut(tree, c))
    ensures var t1 := CutFirst(t, tree, p, k);
            var t' := t1[c := t1[c].(parent := ENULL, brother := ENULL)];
            TreeRep(t', Cut(tree, c), {}) && RegsOf(t') == RegsOf(t)
    ensures KidAt(t, tree, p, k) && t[p].child == tree.kids[p][0] && IsPid(tree.kids[p][0])
    ensures k > 0 ==> KidAt(t, tree, p, k - 1) && CutFirst(t, tree, p, k)[c] == t[c]
    ensures k == 0 ==> CutFirst(t, tree, p, k)[c] == t[c]
  {
    var ks := tree.kids[p];
    assert c in ks && ks[0] in ks;
    assert KidAt(t, tree, p, k) && t[p].child == First(ks);
    CutWf(tree, c);
    if k > 0 { assert KidAt(t, tree, p, k - 1) && ks[k - 1] in ks; }
    var t1 := CutFirst(t, tree, p, k);
    var t' := t1[c := t1[c].(parent := ENULL, brother := ENULL)];
    forall y | IsPid(y) ensures t'[y] == CutImage(t, tree, p, k, y) {}
    CutRep(t, t', tree, p, k);
  }

  // ---------- taking a subtree apart from the front ----------

  // The first of several children of cur loses its link to the next one.
  lemma PopRep(t: seq<Proc>, tree: Tree, x: set<int>, cur: int)
    requires TreeRep(t, tree, x) && IsPid(cur) && cur in x && |tree.kids[cur]| > 1
    ensures var c, u := tree.kids[cur][0], tree.(kids := tree.kids[cur := tree.kids[cur][1..]]);
            && IsPid(c) && Shrunk(tree, u)
            && TreeRep(t[c := t[c].(brother := ENULL)], u, x)
            && RegsOf(t[c := t[c].(brother := ENULL)]) == RegsOf(t)
  {
    var c, u := tree.kids[cur][0], tree.(kids := tree.kids[cur := tree.kids[cur][1..]]);
    assert KidAt(t, tree, cur, 0) && c in tree.kids[cur];
    NoDupTail(tree.kids[cur]);
    ShrunkWf(tree, u);
    var t' := t[c := t[c].(brother := ENULL)];
    forall q, j | IsPid(q) && 0 <= j < |u.kids[q]| ensures KidAt(t', u, q, j) {
      var i := if q == cur then j + 1 else j;
      assert KidAt(t, tree, q, i);
      if tree.kids[q][i] == c { KidUnique(tree, q, i, cur, 0); }
    }
    forall y | IsPid(y) && !IsKid(u, y) ensures RootLinks(t'[y]) {
      assert tree.kids[cur] == [c] + u.kids[cur];
      assert y != c ==> !IsKid(tree, y);
    }
  }

  // The only child of cur loses its parent, and cur its child link.
  lemma LastRep(t: seq<Proc>, tree: Tree, x: set<int>, cur: int)
    requires TreeRep(t, tree, x + {cur}) && IsPid(cur) && |tree.kids[cur]| == 1 && tree.kids[cur][0] != cur
    ensures var c, u := tree.kids[cur][0], tree.(kids := tree.kids[cur := []]);
            && IsPid(c) && Shrunk(tree, u)
            && TreeRep(t[c := t[c].(parent := ENULL)][cur := t[cur].(child := ENULL)], u, x)
            && RegsOf(t[c := t[c].(parent := ENULL)][cur := t[cur].(child := ENULL)]) == RegsOf(t)
  {
    var c, u := tree.kids[cur][0], tree.(kids := tree.kids[cur := []]);
    assert KidAt(t, tree, cur, 0) && c in tree.kids[cur];
    ShrunkWf(tree, u);
    var t' := t[c := t[c].(parent := ENULL)][cur := t[cur].(child := ENULL)];
    forall q, j | IsPid(q) && 0 <= j < |u.kids[q]| ensures KidAt(t', u, q, j) {
      assert KidAt(t, tree, q, j);
      if tree.kids[q][j] == c { KidUnique(tree, q, j, cur, 0); }
    }
    forall y | IsPid(y) && !IsKid(u, y) ensures RootLinks(t'[y]) {
      assert y != c ==> !IsKid(tree, y);
    }
  }
}
