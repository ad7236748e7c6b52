/** Sizzle's fallback comparator and uniqueSort on the nodes of one document
    (src/main/webapp/javascript/jquery-1.10.2.js). */
module DocumentOrder {
  import opened Basics

  datatype Tree = Tree(children: seq<Tree>)

  /** A node, named by the child indexes that lead to it from the document node []. */
  type Path = seq<nat>

  predicate IsNode(t: Tree, p: Path)
    decreases |p|
  {
    p == [] || (p[0] < |t.children| && IsNode(t.children[p[0]], p[1..]))
  }

  function Subtree(t: Tree, p: Path): Tree
    requires IsNode(t, p)
    decreases |p|
  {
    if p == [] then t else Subtree(t.children[p[0]], p[1..])
  }

  function ParentNode(p: Path): Option<Path> {
    if p == [] then None else Some(p[..|p| - 1])
  }

  function NextSibling(t: Tree, p: Path): Option<Path> {
    if p != [] && IsNode(t, Following(p)) then Some(Following(p)) else None
  }

  function Following(p: Path): Path requires p != [] { p[..|p| - 1] + [p[|p| - 1] + 1] }

  // ----- document order -----

  /** Length of the longest common prefix. */
  function Common(p: Path, q: Path): (n: nat)
    ensures n <= |p| && n <= |q| && p[..n] == q[..n]
    ensures n < |p| && n < |q| ==> p[n] != q[n]
    decreases |p|
  {
    if p != [] && q != [] && p[0] == q[0] then
      var n := Common(p[1..], q[1..]);
      assert p[..n + 1] == [p[0]] + p[1..][..n] && q[..n + 1] == [q[0]] + q[1..][..n];
      n + 1
    else 0
  }

  /** p comes before q: it is an ancestor of q, or it lies in an earlier branch. */
  predicate Before(p: Path, q: Path) {
    var n := Common(p, q);
    n < |q| && (n == |p| || p[n] < q[n])
  }

  lemma CommonIsLongest(p: Path, q: Path, n: nat)
    requires n <= |p| && n <= |q| && p[..n] == q[..n]
    requires n < |p| && n < |q| ==> p[n] != q[n]
    ensures Common(p, q) == n
  {
    var m := Common(p, q);
    assert forall i :: 0 <= i < n ==> p[..n][i] == q[..n][i];
    assert forall i :: 0 <= i < m ==> p[..m][i] == q[..m][i];
  }

  /** Exactly one of: p before q, p equals q, q before p. */
  lemma Trichotomy(p: Path, q: Path)
    ensures p == q <==> !Before(p, q) && !Before(q, p)
    ensures !(Before(p, q) && Before(q, p))
  {
    var n := Common(p, q);
    CommonIsLongest(q, p, n);
    assert p[..|p|] == p && q[..|q|] == q;
  }

  lemma BeforeTransitive(p: Path, q: Path, r: Path)
    requires Before(p, q) && Before(q, r)
    ensures Before(p, r)
  {
    var m, n := Common(p, q), Common(q, r);
    var k := if m < n then m else n;
    assert p[..k] == p[..m][..k] == q[..m][..k] == q[..k];
    assert q[..k] == q[..n][..k] == r[..n][..k] == r[..k];
    if m < n {
      assert q[..n][m] == r[..n][m];
      CommonIsLongest(p, r, m);
    } else if n < m {
      assert p[..m][n] == q[..m][n];
      CommonIsLongest(p, r, n);
    } else {
      CommonIsLongest(p, r, m);
    }
  }

  /** All nodes of the tree at p, each before its children, children from first to last. */
  function Preorder(t: Tree, p: Path): seq<Path>
    decreases t, 1, 0
  {
    [p] + PreorderFrom(t, p, 0)
  }

  function PreorderFrom(t: Tree, p: Path, k: nat): seq<Path>
    requires k <= |t.children|
    decreases t, 0, |t.children| - k
  {
    if k == |t.children| then []
    else Preorder(t.children[k], p + [k]) + PreorderFrom(t, p, k + 1)
  }

  /** q is p followed by a node of t. */
  ghost predicate Under(t: Tree, p: Path, q: Path) {
    |p| <= |q| && q[..|p|] == p && IsNode(t, q[|p|..])
  }

  lemma {:induction false} PreorderIsAll(t: Tree, p: Path)
    ensures forall q :: q in Preorder(t, p) <==> Under(t, p, q)
    decreases t, 1, 0
  {
    PreorderFromIsAll(t, p, 0);
    forall q ensures q in Preorder(t, p) <==> Under(t, p, q) {
      if Under(t, p, q) && |q| == |p| { assert q[..|p|] == q; }
    }
  }

  lemma {:induction false} PreorderFromIsAll(t: Tree, p: Path, k: nat)
    requires k <= |t.children|
    ensures forall q :: q in PreorderFrom(t, p, k) <==> Under(t, p, q) && |q| > |p| && q[|p|] >= k
    decreases t, 0, |t.children| - k
  {
    if k < |t.children| {
      PreorderIsAll(t.children[k], p + [k]);
      PreorderFromIsAll(t, p, k + 1);
      forall q ensures Under(t.children[k], p + [k], q) <==> Under(t, p, q) && |q| > |p| && q[|p|] == k {
        UnderChild(t, p, k, q);
      }
    } else {
      forall q | Under(t, p, q) && |q| > |p| ensures q[|p|] < k {
        assert q[|p|..][0] == q[|p|];
      }
    }
  }

  lemma UnderChild(t: Tree, p: Path, k: nat, q: Path)
    requires k < |t.children|
    ensures Under(t.children[k], p + [k], q) <==> Under(t, p, q) && |q| > |p| && q[|p|] == k
  {
    if |q| > |p| {
      assert q[..|p| + 1] == q[..|p|] + [q[|p|]];
      assert q[|p|..][1..] == q[|p| + 1..] && q[|p|..][0] == q[|p|];
      if q[..|p| + 1] == p + [k] {
        assert q[..|p|] == (p + [k])[..|p|] && q[|p|] == (p + [k])[|p|];
      }
    }
  }

  ghost predicate Ascending(s: seq<Path>) {
    forall i, j :: 0 <= i < j < |s| ==> Before(s[i], s[j])
  }

  /** The preorder listing is strictly ascending, so document order is preorder. */
  lemma {:induction false} PreorderAscends(t: Tree, p: Path)
    ensures Ascending(Preorder(t, p))
    decreases t, 1, 0
  {
    PreorderFromAscends(t, p, 0);
    PreorderFromIsAll(t, p, 0);
    var rest := PreorderFrom(t, p, 0);
    forall j | 0 <= j < |rest| ensures Before(p, rest[j]) {
      assert rest[j] in rest;
      assert p[..|p|] == p;
      CommonIsLongest(p, rest[j], |p|);
    }
  }

  lemma {:induction false} PreorderFromAscends(t: Tree, p: Path, k: nat)
    requires k <= |t.children|
    ensures Ascending(PreorderFrom(t, p, k))
    decreases t, 0, |t.children| - k
  {
    if k < |t.children| {
      PreorderAscends(t.children[k], p + [k]);
      PreorderFromAscends(t, p, k + 1);
      PreorderIsAll(t.children[k], p + [k]);
      PreorderFromIsAll(t, p, k + 1);
      var xs, ys := Preorder(t.children[k], p + [k]), PreorderFrom(t, p, k + 1);
      forall i, j | 0 <= i < |xs| && 0 <= j < |ys| ensures Before(xs[i], ys[j]) {
        assert xs[i] in xs && ys[j] in ys;
        UnderChild(t, p, k, xs[i]);
        CommonIsLongest(xs[i], ys[j], |p|);
      }
    }
  }

  /** Of two nodes of the document, one is before the other just when preorder lists it first. */
  lemma OrderIsPreorder(t: Tree, i: nat, j: nat)
    requires i < |Preorder(t, [])| && j < |Preorder(t, [])|
    ensures Before(Preorder(t, [])[i], Preorder(t, [])[j]) <==> i < j
  {
    PreorderAscends(t, []);
    Trichotomy(Preorder(t, [])[i], Preorder(t, [])[j]);
  }

  // ----- the comparator -----

  lemma {:induction false} ChildIsNode(t: Tree, p: Path, j: nat)
    requires IsNode(t, p)
    ensures IsNode(t, p + [j]) <==> j < |Subtree(t, p).children|
    decreases |p|
  {
    if p != [] {
      ChildIsNode(t.children[p[0]], p[1..], j);
      assert (p + [j])[1..] == p[1..] + [j];
    }
  }

  lemma FollowingIs(p: Path, k: nat)
    ensures Following(p + [k]) == p + [k + 1]
  {
    assert (p + [k])[..|p|] == p;
  }

  lemma NextOf(t: Tree, p: Path, k: nat)
    requires IsNode(t, p)
    ensures NextSibling(t, p + [k]) == if k + 1 < |Subtree(t, p).children| then Some(p + [k + 1]) else None
  {
    FollowingIs(p, k);
    ChildIsNode(t, p, k + 1);
  }

  lemma SameChild(p: Path, i: nat, j: nat)
    ensures p + [i] == p + [j] <==> i == j
  {
    assert (p + [i])[|p|] == i && (p + [j])[|p|] == j;
  }

  /** siblingCheck without sourceIndex; None is undefined. */
  method SiblingCheck(t: Tree, a: Option<Path>, b: Option<Path>, ghost parent: Path, ghost i: nat, ghost j: nat)
    returns (r: int)
    requires a.Some? || b.Some?
    requires IsNode(t, parent)
    requires a.Some? ==> a.value == parent + [i] && IsNode(t, a.value)
    requires b.Some? ==> b.value == parent + [j] && IsNode(t, b.value)
    requires a.Some? && b.Some? ==> i != j
    ensures r == if a.None? || (b.Some? && i < j) then -1 else 1
  {
    if a.Some? && b.Some? {
      ghost var count := |Subtree(t, parent).children|;
      ChildIsNode(t, parent, i);
      ChildIsNode(t, parent, j);
      ghost var k := i + 1;
      NextOf(t, parent, i);
      var cur := NextSibling(t, a.value);
      while cur.Some?
        invariant i < k <= count && cur == if k < count then Some(parent + [k]) else None
        invariant i < j ==> k <= j
        decreases count - k
      {
        SameChild(parent, k, j);
        if cur == b {
          return -1;
        }
        NextOf(t, parent, k);
        cur := NextSibling(t, cur.value);
        k := k + 1;
      }
    }
    r := if a.Some? then 1 else -1;
  }

  /** ap or bp: the node's ancestors, the document first, and the node. */
  method Ancestors(a: Path) returns (ap: seq<Path>)
    ensures |ap| == |a| + 1 && forall i :: 0 <= i <= |a| ==> ap[i] == a[..i]
  {
    ap := [a];
    var cur := ParentNode(a);
    ghost var n: nat := |a|;
    assert a[..|a|] == a;
    while cur.Some?
      invariant n <= |a| && |ap| == |a| + 1 - n
      invariant cur == ParentNode(a[..n])
      invariant forall i :: 0 <= i < |ap| ==> ap[i] == a[..n + i]
      decreases n
    {
      n := n - 1;
      assert a[..n + 1][..n] == a[..n];
      ap := [cur.value] + ap;
      cur := ParentNode(cur.value);
    }
  }

  function At(ap: seq<Path>, i: nat): Option<Path> { if i < |ap| then Some(ap[i]) else None }

  /** sortOrder where compareDocumentPosition is missing, on nodes of one document: its sign is
      document order, and it notes duplicates. */
  method SortOrder(t: Tree, a: Path, b: Path) returns (r: int, hasDuplicate: bool)
    requires IsNode(t, a) && IsNode(t, b)
    ensures r == if a == b then 0 else if Before(a, b) then -1 else 1
    ensures hasDuplicate == (a == b)
  {
    var aup, bup := ParentNode(a), ParentNode(b);
    hasDuplicate := a == b;
    if a == b {
      r := 0;
    } else if aup.None? || bup.None? {
      Trichotomy(a, b);
      RootFirst(a, b);
      r := if a == [] then -1 else if b == [] then 1 else 0;
    } else if aup == bup {
      NodePrefix(t, a, |a| - 1);
      Siblings(a, b);
      r := SiblingCheck(t, Some(a), Some(b), aup.value, a[|a| - 1], b[|b| - 1]);
    } else {
      r := ComparePaths(t, a, b);
    }
  }

  lemma RootFirst(a: Path, b: Path)
    requires a != b
    ensures a == [] ==> Before(a, b)
    ensures b == [] ==> !Before(a, b)
  {
  }

  lemma Siblings(a: Path, b: Path)
    requires a != b && a != [] && b != [] && a[..|a| - 1] == b[..|b| - 1]
    ensures a == a[..|a| - 1] + [a[|a| - 1]] && b == a[..|a| - 1] + [b[|b| - 1]]
    ensures a[|a| - 1] != b[|b| - 1] && (Before(a, b) <==> a[|a| - 1] < b[|b| - 1])
  {
    assert a == a[..|a| - 1] + [a[|a| - 1]] && b == b[..|b| - 1] + [b[|b| - 1]];
    CommonIsLongest(a, b, |a| - 1);
  }

  /** The walk down the two lists of ancestors to the first discrepancy. */
  method ComparePaths(t: Tree, a: Path, b: Path) returns (r: int)
    requires IsNode(t, a) && IsNode(t, b) && a != b
    ensures r == if Before(a, b) then -1 else 1
  {
    ghost var n := Common(a, b);
    var ap := Ancestors(a);
    var bp := Ancestors(b);
    var i := 0;
    while At(ap, i) == At(bp, i)
      invariant 0 <= i <= n + 1
      decreases n + 1 - i
    {
      SamePrefix(a, b, i, n);
      i := i + 1;
    }
    assert i == n + 1 by { SamePrefix(a, b, i, n); }
    NodePrefix(t, a, n);
    Branch(t, a, n);
    Branch(t, b, n);
    assert a != b ==> n < |a| || n < |b| by { SamePrefix(a, b, n + 1, n); }
    r := SiblingCheck(t, At(ap, i), At(bp, i), a[..n], if n < |a| then a[n] else 0, if n < |b| then b[n] else 0);
  }

  lemma Branch(t: Tree, p: Path, n: nat)
    requires IsNode(t, p) && n <= |p|
    ensures n < |p| ==> p[..n + 1] == p[..n] + [p[n]] && IsNode(t, p[..n + 1])
  {
    if n < |p| { NodePrefix(t, p, n + 1); }
  }

  lemma {:induction false} NodePrefix(t: Tree, p: Path, n: nat)
    requires IsNode(t, p) && n <= |p|
    ensures IsNode(t, p[..n])
    decreases n
  {
    if n > 0 {
      NodePrefix(t.children[p[0]], p[1..], n - 1);
      assert p[..n][1..] == p[1..][..n - 1];
    }
  }

  lemma SamePrefix(a: Path, b: Path, i: nat, n: nat)
    requires n == Common(a, b) && a != b && i <= n + 1
    ensures i <= n ==> i <= |a| && i <= |b| && a[..i] == b[..i]
    ensures i == n + 1 && i <= |a| && i <= |b| ==> a[..i] != b[..i]
    ensures i == n + 1 ==> i <= |a| || i <= |b|
  {
    assert a[..|a|] == a && b[..|b|] == b;
    if i <= n {
      assert a[..i] == a[..n][..i] && b[..i] == b[..n][..i];
    } else if i <= |a| && i <= |b| {
      assert a[..i][n] != b[..i][n];
    }
  }

  // ----- uniqueSort -----

  /** Sorted by the comparator, equal nodes side by side. */
  ghost predicate WeaklyAscending(s: seq<Path>) {
    forall i, j :: 0 <= i < j < |s| ==> s[i] == s[j] || Before(s[i], s[j])
  }

  /** s from lo on, without the entries equal to their predecessor. */
  function Kept(s: seq<Path>, lo: nat): seq<Path>
    requires lo <= |s|
    decreases |s| - lo
  {
    if lo == |s| then []
    else if Repeats(s, lo) then Kept(s, lo + 1)
    else [s[lo]] + Kept(s, lo + 1)
  }

  predicate Repeats(s: seq<Path>, k: nat) { 0 < k < |s| && s[k] == s[k - 1] }

  lemma {:induction false} KeptRun(s: seq<Path>, lo: nat, hi: nat)
    requires lo <= hi <= |s| && forall k: nat :: lo <= k < hi ==> !Repeats(s, k)
    ensures Kept(s, lo) == s[lo..hi] + Kept(s, hi)
    decreases hi - lo
  {
    if lo < hi {
      KeptRun(s, lo + 1, hi);
      Regroup([s[lo]], s[lo + 1..hi], Kept(s, hi));
      assert !Repeats(s, lo) && s[lo..hi] == [s[lo]] + s[lo + 1..hi];
    }
  }

  /** What is kept is the same nodes. */
  lemma {:induction false} KeptMembers(s: seq<Path>, lo: nat)
    requires lo <= |s|
    ensures forall q :: q in Kept(s, lo) ==> q in s[lo..]
    ensures forall q :: q in s[lo..] ==> q in Kept(s, lo) || (lo > 0 && q == s[lo - 1])
    decreases |s| - lo
  {
    if lo < |s| {
      KeptMembers(s, lo + 1);
      assert s[lo..] == [s[lo]] + s[lo + 1..];
    }
  }

  /** What is kept lies beyond the entry before it, */
  lemma {:induction false} KeptBeyond(s: seq<Path>, lo: nat)
    requires 0 < lo <= |s| && WeaklyAscending(s)
    ensures forall q :: q in Kept(s, lo) ==> Before(s[lo - 1], q)
    decreases |s| - lo
  {
    if lo < |s| {
      KeptBeyond(s, lo + 1);
      var rest := Kept(s, lo + 1);
      forall q | q in rest ensures Before(s[lo - 1], q) {
        if s[lo - 1] != s[lo] { BeforeTransitive(s[lo - 1], s[lo], q); }
      }
    }
  }

  /** and so it is strictly ascending. */
  lemma {:induction false} KeptAscends(s: seq<Path>, lo: nat)
    requires lo <= |s| && WeaklyAscending(s)
    ensures Ascending(Kept(s, lo))
    decreases |s| - lo
  {
    if lo < |s| {
      KeptAscends(s, lo + 1);
      KeptBeyond(s, lo + 1);
      Prepended(s[lo], Kept(s, lo + 1));
    }
  }

  lemma Prepended(p: Path, rest: seq<Path>)
    requires Ascending(rest) && forall q :: q in rest ==> Before(p, q)
    ensures Ascending([p] + rest)
  {
    forall k | 0 <= k < |rest| ensures Before(p, rest[k]) { assert rest[k] in rest; }
  }

  /** The entries of duplicates below m are the repeats of s before m, ascending. */
  ghost predicate Lists(s: seq<Path>, duplicates: seq<nat>, m: nat) {
    && (forall x, y :: 0 <= x < y < |duplicates| ==> duplicates[x] < duplicates[y])
    && (forall x :: 0 <= x < |duplicates| ==> duplicates[x] < m && Repeats(s, duplicates[x]))
    && (forall k: nat :: k < m && Repeats(s, k) ==> k in duplicates)
  }

  /** Taking out the last listed repeat. */
  lemma SpliceLast(s: seq<Path>, duplicates: seq<nat>, m: nat)
    requires duplicates != [] && m <= |s| && Lists(s, duplicates, m)
    ensures var d := duplicates[|duplicates| - 1];
      && Lists(s, duplicates[..|duplicates| - 1], d)
      && s[..d] + (s[d + 1..m] + Kept(s, m)) == s[..d] + Kept(s, d)
  {
    var d := duplicates[|duplicates| - 1];
    assert forall x :: 0 <= x < |duplicates| ==> duplicates[x] <= d;
    assert forall k: nat :: d < k < m ==> k !in duplicates;
    KeptRun(s, d + 1, m);
    assert Kept(s, d) == Kept(s, d + 1);
    ListsInit(s, duplicates, m);
  }

  lemma ListsInit(s: seq<Path>, duplicates: seq<nat>, m: nat)
    requires duplicates != [] && m <= |s| && Lists(s, duplicates, m)
    ensures Lists(s, duplicates[..|duplicates| - 1], duplicates[|duplicates| - 1])
  {
    var d, rest := duplicates[|duplicates| - 1], duplicates[..|duplicates| - 1];
    forall k: nat | k < d && Repeats(s, k) ensures k in rest {
      var x :| 0 <= x < |duplicates| && duplicates[x] == k;
      assert rest[x] == k;
    }
  }

  /** uniqueSort after its call of sort, which is taken to have put the nodes in the order of the
      comparator, comparing every two that end up side by side: then the flag is set whenever
      there are duplicates.  What is left is strictly ascending, with the same nodes. */
  method UniqueSort(results: seq<Path>, hasDuplicate: bool) returns (unique: seq<Path>)
    requires WeaklyAscending(results)
    requires !hasDuplicate ==> forall k: nat :: !Repeats(results, k)
    ensures Ascending(unique) && forall q :: q in unique <==> q in results
  {
    KeptAscends(results, 0);
    KeptMembers(results, 0);
    assert results[0..] == results;
    if hasDuplicate {
      unique := RemoveDuplicates(results);
    } else {
      unique := results;
      KeptRun(results, 0, |results|);
      assert Kept(results, 0) == results[0..|results|] == results;
    }
  }

  method RemoveDuplicates(results: seq<Path>) returns (unique: seq<Path>)
    ensures unique == Kept(results, 0)
  {
    var duplicates := FindDuplicates(results);
    unique := results;
    var j := |duplicates|;
    ghost var m: nat, left := |results|, duplicates;
    assert results[..m] == results;
    while j > 0
      invariant 0 <= j <= |duplicates| && m <= |results| && left == duplicates[..j]
      invariant Lists(results, left, m)
      invariant unique == results[..m] + Kept(results, m)
    {
      SpliceLast(results, left, m);
      j := j - 1;
      assert left[..j] == duplicates[..j] && left[j] == duplicates[j];
      unique := Splice(results, unique, m, duplicates[j]);
      m, left := duplicates[j], left[..j];
    }
    KeptRun(results, 0, m);
    assert results[0..m] == results[..m];
  }

  /** results.splice( d, 1 ), where the first m entries are still those of s. */
  method Splice(ghost s: seq<Path>, results: seq<Path>, ghost m: nat, d: nat) returns (spliced: seq<Path>)
    requires d < m <= |s| && results == s[..m] + Kept(s, m)
    ensures spliced == s[..d] + (s[d + 1..m] + Kept(s, m))
  {
    spliced := results[..d] + results[d + 1..];
  }

  method FindDuplicates(results: seq<Path>) returns (duplicates: seq<nat>)
    ensures Lists(results, duplicates, |results|)
  {
    duplicates := [];
    var i: nat := 0;
    while i < |results|
      invariant 0 <= i <= |results|
      invariant Lists(results, duplicates, i + 1)
    {
      var elem := results[i];
      i := i + 1;
      if i < |results| && elem == results[i] {
        duplicates := duplicates + [i];
        assert duplicates[|duplicates| - 1] == i;
      }
    }
  }
}
