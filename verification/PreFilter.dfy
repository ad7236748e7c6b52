/** What becomes of a compiled matcher when it is used as a filter: condense calls it on one
    element after the other and cachedruns stays as it is
    (src/main/webapp/javascript/jquery-1.10.2.js).

    The matcher of the tokens before a positional one is such a filter.  A miss that an earlier,
    successful walk left behind then ends later walks too soon. */
module PreFilters {
  import opened Basics
  import opened Combinators
  import Sets = SetMatchers

  // ----- pages as there are -----

  /** A document tree: siblings have one parent, and each node at most one first child and one
      next sibling. */
  ghost predicate IsTree(doc: Doc) {
    && doc.Valid()
    && (forall n :: doc.Has(n) && doc.previous[n] >= 0 ==> doc.parent[doc.previous[n]] == doc.parent[n])
    && (forall m, n :: doc.Has(m) && doc.Has(n) && m != n && doc.parent[m] == doc.parent[n] ==> doc.previous[m] != doc.previous[n])
    && (forall n :: doc.Has(n) && n > 0 ==> doc.parent[n] >= 0)
  }

  function RootTest(root: Root): nat {
    match root
    case Exempt(t) => t
    case FromNode(t) => t
    case FromAny(t) => t
  }

  ghost predicate Real(p: Page, root: Root) { IsTree(p.doc) && RootIsReal(p, root) }

  /** The root's own test: exempt passes always, and one context node is one node. */
  ghost predicate RootIsReal(p: Page, root: Root) {
    && (root.Exempt? ==> forall n :: p.doc.Has(n) ==> p.pass(root.always, n))
    && (root.FromNode? ==> exists c :: PassesAt(p, root.same, c))
  }

  ghost predicate PassesAt(p: Page, t: nat, c: int) {
    p.doc.Has(c) && forall n :: p.doc.Has(n) ==> (p.pass(t, n) <==> n == c)
  }

  // ----- which tokens keep answers -----

  /** The root's test is not that of a token. */
  predicate OwnRootTest(tokens: seq<Token>, root: Root) {
    forall i :: 0 <= i < |tokens| && tokens[i].Test? ==> tokens[i].test != RootTest(root)
  }

  /** Token i makes a combinator that keeps answers. */
  predicate Keeps(tokens: seq<Token>, i: nat) {
    0 < i < |tokens| && tokens[i].Relative? && !tokens[i].first
  }

  /** None of them stands right behind another combinator; by the grammar of section 4 of W3C
      Selectors Level 3 no combinator does. */
  predicate Separated(tokens: seq<Token>) { forall i :: 0 < i < |tokens| && Keeps(tokens, i) ==> tokens[i - 1].Test? }

  /** So does the root, unless it is exempt. */
  predicate RootKeeps(tokens: seq<Token>, root: Root) { !root.Exempt? && !Implicit(tokens).first }

  ghost predicate KeepsNone(tokens: seq<Token>, root: Root) {
    !RootKeeps(tokens, root) && forall i: nat :: !Keeps(tokens, i)
  }

  // ----- agreement -----

  ghost predicate AgreesOn(p: Page, m: Matcher, elems: seq<int>, run: nat, at: nat)
    requires p.doc.Valid()
  {
    (forall i :: 0 <= i < |elems| ==> p.doc.Has(elems[i])) ==>
      var accepted := Answers(p, Context(false, run, at), m, elems, map[]).0;
      forall i :: 0 <= i < |elems| ==> accepted[i] == Plain(p, m, elems[i])
  }

  /** On every real page and every seed, the answers are the plain ones. */
  ghost predicate Agrees(m: Matcher, root: Root) {
    forall p: Page, elems: seq<int>, run: nat, at: nat :: Real(p, root) ==> AgreesOn(p, m, elems, run, at)
  }

  lemma {:induction false} AnswersAllFirst(p: Page, v: Context, m: Matcher, elems: seq<int>, s: Slots)
    requires p.doc.Valid() && (forall i :: 0 <= i < |elems| ==> p.doc.Has(elems[i])) && AllFirst(m)
    ensures var (accepted, t) := Answers(p, v, m, elems, s);
      t == s && forall i :: 0 <= i < |elems| ==> accepted[i] == Plain(p, m, elems[i])
  {
    if elems != [] {
      AnswersAllFirst(p, v, m, elems[..|elems| - 1], s);
      AnswerAllFirst(p, v, m, elems[|elems| - 1], s);
    }
  }

  lemma {:induction false} AllFirstSameShape(a: Matcher, b: Matcher)
    requires SameShape(a, b) && AllFirst(b)
    ensures AllFirst(a)
  {
    match a
    case Leaf(_) =>
    case All(parts) =>
      forall i | 0 <= i < |parts| ensures AllFirst(parts[i]) { AllFirstSameShape(parts[i], b.parts[i]); }
    case Combinator(_, _, _, _, inner) => AllFirstSameShape(inner, b.inner);
  }

  lemma {:induction false} CompoundAllFirst(tokens: seq<Token>, root: Root, k: nat)
    requires k <= |tokens| && KeepsNone(tokens, root)
    ensures AllFirst(Compound(tokens, root, k))
  {
    if k == 0 || (k == 1 && tokens[0].Relative?) {
      assert AllFirst(RootPart(tokens, root));
    } else {
      assert !Keeps(tokens, k - 1);
      CompoundAllFirst(tokens, root, k - 1);
    }
  }

  // ----- the input on which they differ -----

  /** Where the compound of the first k tokens is met on a line of nodes, each a step from the one
      before: the steps from the context on.  The combinator of token `wide`, or for -1 that of
      the root, takes two. */
  function Steps(tokens: seq<Token>, root: Root, wide: int, k: nat): seq<Dir>
    requires k <= |tokens|
  {
    if k == 0 || (k == 1 && tokens[0].Relative?) then
      var d := Implicit(tokens).dir;
      if root.Exempt? then [] else if wide == -1 then [d, d] else [d]
    else match tokens[k - 1]
      case Test(_) => Steps(tokens, root, wide, k - 1)
      case Relative(d, _) => Steps(tokens, root, wide, k - 1) + if wide == k - 1 then [d, d] else [d]
  }

  /** Node 0 is the document, node 1 its first child, and node i + 2 a step ds[i] from node i + 1. */
  function Parents(ds: seq<Dir>): (r: seq<int>)
    ensures |r| == |ds| + 2
  {
    if ds == [] then [-1, 0]
    else
      var before, n := Parents(ds[..|ds| - 1]), |ds|;
      before + [if ds[n - 1].ParentNode? then n else before[n]]
  }

  function Line(ds: seq<Dir>): Doc {
    Doc(Parents(ds),
        seq(|ds| + 2, n requires 0 <= n < |ds| + 2 => if n > 1 && ds[n - 2].PreviousSibling? then n - 1 else -1),
        seq(|ds| + 2, n requires 0 <= n < |ds| + 2 => n != 0))
  }

  /** Test tokens pass everywhere but on node bad; only the first node passes as context. */
  function LinePage(ds: seq<Dir>, root: Root, bad: int): Page {
    Page(Line(ds), (t, n) => if t == RootTest(root) then root.Exempt? || n == 1 else n != bad)
  }

  lemma {:induction false} ParentsAt(ds: seq<Dir>, n: nat)
    requires n < |ds| + 2
    ensures Parents(ds)[n] == if n == 0 then -1 else if n == 1 then 0
                              else if ds[n - 2].ParentNode? then n - 1 else Parents(ds)[n - 1]
    ensures n > 0 ==> 0 <= Parents(ds)[n] < n
    decreases |ds|, n
  {
    if ds != [] {
      if n < |ds| + 1 {
        ParentsAt(ds[..|ds| - 1], n);
      } else {
        ParentsAt(ds, n - 1);
      }
    }
  }

  lemma LineIsTree(ds: seq<Dir>)
    ensures IsTree(Line(ds))
  {
    forall n: nat | n < |ds| + 2 ensures -1 <= Parents(ds)[n] < n && (n > 0 ==> Parents(ds)[n] >= 0) { ParentsAt(ds, n); }
    var doc := Line(ds);
    forall n | doc.Has(n) && doc.previous[n] >= 0 ensures doc.parent[doc.previous[n]] == doc.parent[n] { ParentsAt(ds, n); }
    forall m, n | doc.Has(m) && doc.Has(n) && m < n && doc.parent[m] == doc.parent[n]
      ensures doc.previous[m] != doc.previous[n]
    {
      ParentsAt(ds, m);
      ParentsAt(ds, n);
    }
  }

  lemma LineNext(ds: seq<Dir>, n: nat)
    requires 2 <= n < |ds| + 2
    ensures Line(ds).Valid() && Line(ds).Next(ds[n - 2], n) == n - 1
  {
    LineIsTree(ds);
    ParentsAt(ds, n);
  }

  lemma LineIsReal(ds: seq<Dir>, root: Root, bad: int)
    ensures Real(LinePage(ds, root, bad), root)
  {
    LineIsTree(ds);
    LineRoot(ds, root, bad);
  }

  lemma LineRoot(ds: seq<Dir>, root: Root, bad: int)
    ensures RootIsReal(LinePage(ds, root, bad), root)
  {
    var p := LinePage(ds, root, bad);
    assert |p.doc.element| == |ds| + 2;
    if root.FromNode? { assert PassesAt(p, root.same, 1); }
  }

  lemma {:induction false} StepsGrow(tokens: seq<Token>, root: Root, wide: int, k: nat, j: nat)
    requires k <= j <= |tokens|
    ensures Steps(tokens, root, wide, k) <= Steps(tokens, root, wide, j)
    decreases j
  {
    if k < j && !(j == 1 && tokens[0].Relative?) { StepsGrow(tokens, root, wide, k, j - 1); }
  }

  /** The extra node of the wide step. */
  function Bad(tokens: seq<Token>, root: Root, wide: int): int
    requires -1 <= wide < |tokens|
  {
    if wide == -1 then 2 else |Steps(tokens, root, wide, wide)| + 2
  }

  /** The node where the compound of the first k tokens is met. */
  function Spot(tokens: seq<Token>, root: Root, wide: int, k: nat): int
    requires k <= |tokens|
  {
    |Steps(tokens, root, wide, k)| + 1
  }

  /** The combinator that keeps answers and has none to its right. */
  predicate LastToKeep(tokens: seq<Token>, root: Root, wide: int) {
    && -1 <= wide < |tokens|
    && (if wide == -1 then RootKeeps(tokens, root) else Keeps(tokens, wide))
    && forall i: nat :: wide < i < |tokens| ==> !Keeps(tokens, i)
  }

  lemma NotBad(tokens: seq<Token>, root: Root, wide: int, k: nat)
    requires LastToKeep(tokens, root, wide) && k <= |tokens|
    ensures Spot(tokens, root, wide, k) != Bad(tokens, root, wide)
    ensures k > wide ==> Spot(tokens, root, wide, k) > Bad(tokens, root, wide)
  {
    if wide == -1 {
      StepsGrow(tokens, root, wide, 0, k);
    } else if k <= wide {
      StepsGrow(tokens, root, wide, k, wide);
    } else {
      StepsGrow(tokens, root, wide, wide + 1, k);
    }
  }

  /** On its line the compound holds at every spot. */
  lemma {:induction false} PlainOnLine(tokens: seq<Token>, root: Root, wide: int, ds: seq<Dir>, k: nat)
    requires LastToKeep(tokens, root, wide) && OwnRootTest(tokens, root) && k <= |tokens|
    requires Steps(tokens, root, wide, k) <= ds
    ensures Line(ds).Valid()
    ensures Plain(LinePage(ds, root, Bad(tokens, root, wide)), Compound(tokens, root, k), Spot(tokens, root, wide, k))
    decreases k
  {
    LineIsTree(ds);
    var p, n := LinePage(ds, root, Bad(tokens, root, wide)), Spot(tokens, root, wide, k);
    if k == 0 || (k == 1 && tokens[0].Relative?) {
      PlainAtRoot(tokens, root, wide, ds, k);
    } else {
      StepsGrow(tokens, root, wide, k - 1, k);
      PlainOnLine(tokens, root, wide, ds, k - 1);
      if tokens[k - 1].Test? {
        NotBad(tokens, root, wide, k);
        var before := Compound(tokens, root, k - 1).parts;
        assert Compound(tokens, root, k).parts == before + [Leaf(tokens[k - 1].test)];
      } else {
        StepIsPlain(tokens, root, wide, ds, k);
      }
    }
  }

  lemma PlainAtRoot(tokens: seq<Token>, root: Root, wide: int, ds: seq<Dir>, k: nat)
    requires LastToKeep(tokens, root, wide) && k <= |tokens| && (k == 0 || (k == 1 && tokens[0].Relative?))
    requires Steps(tokens, root, wide, k) <= ds && Line(ds).Valid()
    ensures Plain(LinePage(ds, root, Bad(tokens, root, wide)), Compound(tokens, root, k), Spot(tokens, root, wide, k))
  {
    var p, n := LinePage(ds, root, Bad(tokens, root, wide)), Spot(tokens, root, wide, k);
    var c := RootPart(tokens, root);
    if !root.Exempt? {
      LineNext(ds, n);
      if wide == -1 {
        LineNext(ds, n - 1);
        assert Somewhere(p, c, n - 1);
      }
      assert Plain(p, c, n);
    }
  }

  lemma StepIsPlain(tokens: seq<Token>, root: Root, wide: int, ds: seq<Dir>, k: nat)
    requires LastToKeep(tokens, root, wide) && 0 < k <= |tokens| && tokens[k - 1].Relative? && k > 1
    requires Steps(tokens, root, wide, k) <= ds && Line(ds).Valid()
    requires Plain(LinePage(ds, root, Bad(tokens, root, wide)), Compound(tokens, root, k - 1), Spot(tokens, root, wide, k - 1))
    ensures Plain(LinePage(ds, root, Bad(tokens, root, wide)), Compound(tokens, root, k), Spot(tokens, root, wide, k))
  {
    var p, n := LinePage(ds, root, Bad(tokens, root, wide)), Spot(tokens, root, wide, k);
    var c := Compound(tokens, root, k).parts[0];
    LineNext(ds, n);
    if wide == k - 1 {
      LineNext(ds, n - 1);
      assert Somewhere(p, c, n - 1);
    }
    assert Plain(p, c, n);
  }

  // ----- the first call leaves a miss, the second one stops at it -----

  /** The first i parts of m are shaped like the compound of the first k tokens. */
  ghost predicate Shaped(m: Matcher, i: nat, tokens: seq<Token>, root: Root, k: nat)
    requires k <= |tokens|
  {
    var parts := Compound(tokens, root, k).parts;
    m.All? && i == |parts| && i <= |m.parts| && forall j :: 0 <= j < i ==> SameShape(m.parts[j], parts[j])
  }

  lemma ShapedStep(m: Matcher, i: nat, tokens: seq<Token>, root: Root, k: nat)
    requires 0 < k <= |tokens| && !(k == 1 && tokens[0].Relative?) && Shaped(m, i, tokens, root, k)
    ensures tokens[k - 1].Test? ==> i > 0 && m.parts[i - 1] == Leaf(tokens[k - 1].test) && Shaped(m, i - 1, tokens, root, k - 1)
    ensures tokens[k - 1].Relative? ==>
      && i == 1 && m.parts[0].Combinator? && m.parts[0].dir == tokens[k - 1].dir && m.parts[0].first == tokens[k - 1].first
      && m.parts[0].inner.All? && Shaped(m.parts[0].inner, |m.parts[0].inner.parts|, tokens, root, k - 1)
  {
    var parts := Compound(tokens, root, k).parts;
    assert SameShape(m.parts[i - 1], parts[i - 1]);
    if tokens[k - 1].Test? {
      var before := Compound(tokens, root, k - 1).parts;
      assert parts == before + [Leaf(tokens[k - 1].test)];
      assert forall j :: 0 <= j < i - 1 ==> parts[j] == before[j];
    }
  }

  /** The name of the combinator in m that LastToKeep speaks of, and where it keeps what it
      answers on the bad node. */
  ghost function KeeperId(m: Matcher, i: nat, tokens: seq<Token>, root: Root, wide: int, k: nat): nat
    requires LastToKeep(tokens, root, wide) && wide < k <= |tokens| && Shaped(m, i, tokens, root, k)
    decreases k
  {
    if k == 0 || (k == 1 && tokens[0].Relative?) then
      assert SameShape(m.parts[0], RootPart(tokens, root));
      m.parts[0].id
    else
      ShapedStep(m, i, tokens, root, k);
      if tokens[k - 1].Test? then KeeperId(m, i - 1, tokens, root, wide, k - 1)
      else if wide == k - 1 then m.parts[0].id
      else KeeperId(m.parts[0].inner, |m.parts[0].inner.parts|, tokens, root, wide, k - 1)
  }

  function KeeperKey(tokens: seq<Token>, root: Root, wide: int): (int, Dir)
    requires LastToKeep(tokens, root, wide)
  {
    (Bad(tokens, root, wide), if wide == -1 then Implicit(tokens).dir else tokens[wide].dir)
  }

  /** The slot as a failed probe leaves it. */
  ghost predicate Missed(v: Context, id: nat, key: (int, Dir), s: Slots) {
    key in s && s[key] == Slot(v.run, id, Miss(v.at))
  }

  /** The walk of a combinator that keeps answers, from a node where its inner matcher fails on. */
  lemma WalkMisses(p: Page, v: Context, c: Matcher, bad: int, s: Slots)
    requires p.doc.Valid() && p.doc.Has(bad) && c.Combinator? && p.Counts(c, bad) && !v.xml
    requires forall s1 :: Answer(p, v, c.inner, bad, s1) == (false, s1)
    ensures (bad, c.dir) !in s ==> Missed(v, c.id, (bad, c.dir), WalkFrom(p, v, c, bad, s).1)
    ensures Missed(v, c.id, (bad, c.dir), s) ==> WalkFrom(p, v, c, bad, s) == (false, s)
  {
    if (bad, c.dir) !in s {
      var taken := s[(bad, c.dir) := Slot(v.run, c.id, Pending)];
      assert Answer(p, v, c.inner, bad, taken) == (false, taken);
      var t := Probed(p, v, c, bad, s).1;
      assert Missed(v, c.id, (bad, c.dir), t);
      WalkTouches(p, v, c, p.doc.Next(c.dir, bad), t, TopId(c));
    }
  }

  /** A matcher that ends in a failing test fails and stores nothing. */
  lemma LastFails(p: Page, v: Context, m: Matcher, n: int, s: Slots)
    requires p.doc.Valid() && p.doc.Has(n)
    requires m.Leaf? || (m.All? && m.parts != [] && m.parts[|m.parts| - 1].Leaf?)
    requires var leaf := if m.Leaf? then m else m.parts[|m.parts| - 1]; !p.pass(leaf.test, n)
    ensures Answer(p, v, m, n, s) == (false, s)
  {
    if m.All? { assert Answer(p, v, m.parts[|m.parts| - 1], n, s) == (false, s); }
  }

  /** On the bad node the keeper's inner matcher fails at once. */
  lemma KeeperFails(tokens: seq<Token>, root: Root, wide: int, ds: seq<Dir>, m: Matcher, i: nat, k: nat, v: Context, s: Slots)
    requires LastToKeep(tokens, root, wide) && Separated(tokens) && OwnRootTest(tokens, root) && k <= |tokens|
    requires Line(ds).Valid() && Bad(tokens, root, wide) < |ds| + 2 && Shaped(m, i, tokens, root, k)
    requires if wide == -1 then k == 0 || (k == 1 && tokens[0].Relative?) else k == wide + 1
    ensures i == 1 && m.parts[0].Combinator? && !m.parts[0].first && m.parts[0].id == KeeperId(m, i, tokens, root, wide, k)
    ensures m.parts[0].dir == KeeperKey(tokens, root, wide).1
    ensures var bad := Bad(tokens, root, wide); Answer(LinePage(ds, root, bad), v, m.parts[0].inner, bad, s) == (false, s)
  {
    var bad := Bad(tokens, root, wide);
    if wide == -1 {
      assert SameShape(m.parts[0], RootPart(tokens, root));
    } else {
      ShapedStep(m, i, tokens, root, k);
      var inner := m.parts[0].inner;
      ShapedStep(inner, |inner.parts|, tokens, root, wide);
      assert inner.parts[|inner.parts| - 1] == Leaf(tokens[wide - 1].test);
    }
    LastFails(LinePage(ds, root, bad), v, m.parts[0].inner, bad, s);
  }

  /** A call on node n leaves that miss, and stops at it when it is there. */
  ghost predicate Behaves(p: Page, v: Context, id: nat, key: (int, Dir), m: Matcher, i: nat, n: int, s: Slots)
    requires p.doc.Valid() && p.doc.Has(n) && m.All? && i <= |m.parts|
  {
    && (key !in s ==> Missed(v, id, key, AnswerAll(p, v, m, i, n, s).1))
    && (Missed(v, id, key, s) ==> AnswerAll(p, v, m, i, n, s) == (false, s))
  }

  lemma TestBehaves(p: Page, v: Context, id: nat, key: (int, Dir), m: Matcher, i: nat, n: int, s: Slots)
    requires p.doc.Valid() && p.doc.Has(n) && m.All? && 0 < i <= |m.parts|
    requires m.parts[i - 1].Leaf? && p.pass(m.parts[i - 1].test, n) && Behaves(p, v, id, key, m, i - 1, n, s)
    ensures Behaves(p, v, id, key, m, i, n, s)
  {
    assert Answer(p, v, m.parts[i - 1], n, s) == (true, s);
  }

  /** The walk of a `first` combinator along one step of the line. */
  lemma StepBehaves(p: Page, v: Context, id: nat, key: (int, Dir), m: Matcher, n: nat, s: Slots, ds: seq<Dir>)
    requires p.doc == Line(ds) && p.doc.Valid() && 2 <= n < |ds| + 2
    requires m.All? && |m.parts| >= 1 && m.parts[0].Combinator? && m.parts[0].first && m.parts[0].dir == ds[n - 2]
    requires m.parts[0].inner.All? && Behaves(p, v, id, key, m.parts[0].inner, |m.parts[0].inner.parts|, n - 1, s)
    ensures Behaves(p, v, id, key, m, 1, n, s)
  {
    LineNext(ds, n);
    OnePart(p, v, m, n, s);
    assert AnswerAll(p, v, m, 1, n, s) == Answer(p, v, m.parts[0].inner, n - 1, s);
  }

  /** So it is on the line, for the first i parts of m and the first k tokens. */
  ghost predicate Caught(tokens: seq<Token>, root: Root, wide: int, ds: seq<Dir>, m: Matcher, i: nat, k: nat, v: Context, s: Slots)
    requires LastToKeep(tokens, root, wide) && wide < k <= |tokens| && Shaped(m, i, tokens, root, k)
    requires Steps(tokens, root, wide, k) <= ds && Line(ds).Valid()
  {
    Behaves(LinePage(ds, root, Bad(tokens, root, wide)), v, KeeperId(m, i, tokens, root, wide, k), KeeperKey(tokens, root, wide),
            m, i, Spot(tokens, root, wide, k), s)
  }

  /** Up to the keeper both calls go the same way: the tests pass, the walks are those of `first`
      combinators. */
  lemma {:induction false} Calls(tokens: seq<Token>, root: Root, wide: int, ds: seq<Dir>, m: Matcher, i: nat, k: nat, v: Context, s: Slots)
    requires LastToKeep(tokens, root, wide) && Separated(tokens) && OwnRootTest(tokens, root) && !v.xml
    requires wide < k <= |tokens| && Shaped(m, i, tokens, root, k)
    requires Steps(tokens, root, wide, k) <= ds && Line(ds).Valid()
    ensures Caught(tokens, root, wide, ds, m, i, k, v, s)
    decreases k
  {
    if k == 0 || (k == 1 && tokens[0].Relative?) || k == wide + 1 {
      CallsKeeper(tokens, root, wide, ds, m, i, k, v, s);
    } else {
      ShapedStep(m, i, tokens, root, k);
      StepsGrow(tokens, root, wide, k - 1, k);
      if tokens[k - 1].Test? {
        Calls(tokens, root, wide, ds, m, i - 1, k - 1, v, s);
        CallsTest(tokens, root, wide, ds, m, i, k, v, s);
      } else {
        Calls(tokens, root, wide, ds, m.parts[0].inner, |m.parts[0].inner.parts|, k - 1, v, s);
        CallsStep(tokens, root, wide, ds, m, i, k, v, s);
      }
    }
  }

  lemma CallsTest(tokens: seq<Token>, root: Root, wide: int, ds: seq<Dir>, m: Matcher, i: nat, k: nat, v: Context, s: Slots)
    requires LastToKeep(tokens, root, wide) && OwnRootTest(tokens, root) && wide + 1 < k <= |tokens| && tokens[k - 1].Test?
    requires i > 0 && Shaped(m, i, tokens, root, k) && Shaped(m, i - 1, tokens, root, k - 1)
    requires Steps(tokens, root, wide, k) <= ds && Line(ds).Valid()
    requires Caught(tokens, root, wide, ds, m, i - 1, k - 1, v, s)
    ensures Caught(tokens, root, wide, ds, m, i, k, v, s)
  {
    NotBad(tokens, root, wide, k);
    ShapedStep(m, i, tokens, root, k);
    TestBehaves(LinePage(ds, root, Bad(tokens, root, wide)), v, KeeperId(m, i - 1, tokens, root, wide, k - 1),
                KeeperKey(tokens, root, wide), m, i, Spot(tokens, root, wide, k), s);
  }

  lemma CallsStep(tokens: seq<Token>, root: Root, wide: int, ds: seq<Dir>, m: Matcher, i: nat, k: nat, v: Context, s: Slots)
    requires LastToKeep(tokens, root, wide) && wide + 1 < k <= |tokens| && k > 1 && tokens[k - 1].Relative?
    requires Shaped(m, i, tokens, root, k) && m.parts != [] && m.parts[0].Combinator? && m.parts[0].inner.All?
    requires Shaped(m.parts[0].inner, |m.parts[0].inner.parts|, tokens, root, k - 1)
    requires Steps(tokens, root, wide, k) <= ds && Steps(tokens, root, wide, k - 1) <= ds && Line(ds).Valid()
    requires Caught(tokens, root, wide, ds, m.parts[0].inner, |m.parts[0].inner.parts|, k - 1, v, s)
    ensures Caught(tokens, root, wide, ds, m, i, k, v, s)
  {
    var inner := m.parts[0].inner;
    ShapedStep(m, i, tokens, root, k);
    assert !Keeps(tokens, k - 1);
    StepBehaves(LinePage(ds, root, Bad(tokens, root, wide)), v, KeeperId(inner, |inner.parts|, tokens, root, wide, k - 1),
                KeeperKey(tokens, root, wide), m, Spot(tokens, root, wide, k), s, ds);
  }

  lemma OnePart(p: Page, v: Context, m: Matcher, n: int, s: Slots)
    requires p.doc.Valid() && p.doc.Has(n) && m.All? && |m.parts| >= 1
    ensures AnswerAll(p, v, m, 1, n, s) == Answer(p, v, m.parts[0], n, s)
  {
    var t := Answer(p, v, m.parts[0], n, s).1;
    assert AnswerAll(p, v, m, 0, n, t) == (true, t);
  }

  lemma CallsKeeper(tokens: seq<Token>, root: Root, wide: int, ds: seq<Dir>, m: Matcher, i: nat, k: nat, v: Context, s: Slots)
    requires LastToKeep(tokens, root, wide) && Separated(tokens) && OwnRootTest(tokens, root) && !v.xml
    requires wide < k <= |tokens| && Shaped(m, i, tokens, root, k)
    requires Steps(tokens, root, wide, k) <= ds && Line(ds).Valid()
    requires k == 0 || (k == 1 && tokens[0].Relative?) || k == wide + 1
    ensures Caught(tokens, root, wide, ds, m, i, k, v, s)
  {
    var bad := Bad(tokens, root, wide);
    var p, n := LinePage(ds, root, bad), Spot(tokens, root, wide, k);
    forall s1 ensures Answer(p, v, m.parts[0].inner, bad, s1) == (false, s1) {
      KeeperFails(tokens, root, wide, ds, m, i, k, v, s1);
    }
    KeeperFails(tokens, root, wide, ds, m, i, k, v, s);
    LineNext(ds, n);
    WalkMisses(p, v, m.parts[0], bad, s);
    OnePart(p, v, m, n, s);
  }

  // ----- the exact condition -----

  /** A seed that names the node at the end of the line twice: the second answer is no, though the
      node matches. */
  lemma SecondCallFails(tokens: seq<Token>, root: Root, wide: int, m: Matcher, run: nat, at: nat)
    requires LastToKeep(tokens, root, wide) && Separated(tokens) && OwnRootTest(tokens, root)
    requires SameShape(m, Compound(tokens, root, |tokens|))
    ensures var ds := Steps(tokens, root, wide, |tokens|);
      var p, n := LinePage(ds, root, Bad(tokens, root, wide)), |ds| + 1;
      && Real(p, root) && Plain(p, m, n)
      && Answers(p, Context(false, run, at), m, [n, n], map[]).0[1] == false
  {
    var k, v := |tokens|, Context(false, run, at);
    var ds, bad := Steps(tokens, root, wide, k), Bad(tokens, root, wide);
    var p, n := LinePage(ds, root, bad), Spot(tokens, root, wide, k);
    LineIsReal(ds, root, bad);
    PlainOnLine(tokens, root, wide, ds, k);
    SameShapeSameMeaning(p, m, Compound(tokens, root, k), n);
    var t := Answer(p, v, m, n, map[]).1;
    Calls(tokens, root, wide, ds, m, |m.parts|, k, v, map[]);
    Calls(tokens, root, wide, ds, m, |m.parts|, k, v, t);
    TwoAnswers(p, v, m, n, n, map[]);
  }

  lemma TwoAnswers(p: Page, v: Context, m: Matcher, a: int, b: int, s: Slots)
    requires p.doc.Valid() && p.doc.Has(a) && p.doc.Has(b)
    ensures var (x, t) := Answer(p, v, m, a, s); Answers(p, v, m, [a, b], s).0 == [x, Answer(p, v, m, b, t).0]
  {
    assert [a, b][..1] == [a] && [a][..0] == [];
    assert Answers(p, v, m, [], s) == ([], s);
    var (x, t) := Answer(p, v, m, a, s);
    assert Answers(p, v, m, [a], s) == ([] + [x], t);
  }

  lemma {:induction false} FindLast(tokens: seq<Token>, root: Root, k: nat) returns (wide: int)
    requires k <= |tokens| && (RootKeeps(tokens, root) || exists i: nat :: i < k && Keeps(tokens, i))
    requires forall i: nat :: k <= i < |tokens| ==> !Keeps(tokens, i)
    ensures LastToKeep(tokens, root, wide)
  {
    if k == 0 {
      wide := -1;
    } else if Keeps(tokens, k - 1) {
      wide := k - 1;
    } else {
      wide := FindLast(tokens, root, k - 1);
    }
  }

  /** Without a combinator that keeps answers the filter answers plainly, on any seed. */
  lemma AgreesIfNoneKeeps(tokens: seq<Token>, root: Root, m: Matcher)
    requires SameShape(m, Compound(tokens, root, |tokens|)) && KeepsNone(tokens, root)
    ensures Agrees(m, root)
  {
    CompoundAllFirst(tokens, root, |tokens|);
    AllFirstSameShape(m, Compound(tokens, root, |tokens|));
    forall p: Page, elems: seq<int>, run: nat, at: nat | Real(p, root) ensures AgreesOn(p, m, elems, run, at) {
      if forall i :: 0 <= i < |elems| ==> p.doc.Has(elems[i]) {
        AnswersAllFirst(p, Context(false, run, at), m, elems, map[]);
      }
    }
  }

  /** A compiled filter answers plainly on every page and seed, if and only if none of its
      combinators, and not the root's, keeps answers. */
  lemma FilterAgreesIff(tokens: seq<Token>, root: Root, m: Matcher)
    requires SameShape(m, Compound(tokens, root, |tokens|)) && Separated(tokens) && OwnRootTest(tokens, root)
    ensures Agrees(m, root) <==> KeepsNone(tokens, root)
  {
    if KeepsNone(tokens, root) {
      AgreesIfNoneKeeps(tokens, root, m);
    } else {
      var wide := FindLast(tokens, root, |tokens|);
      SecondCallFails(tokens, root, wide, m, 0, 0);
      var ds := Steps(tokens, root, wide, |tokens|);
      var p, n := LinePage(ds, root, Bad(tokens, root, wide)), |ds| + 1;
      assert !AgreesOn(p, m, [n, n], 0, 0);
    }
  }

  /** In an XML document any filter answers plainly. */
  lemma {:induction false} XmlAgrees(p: Page, run: nat, at: nat, m: Matcher, elems: seq<int>, s: Slots)
    requires p.doc.Valid() && forall i :: 0 <= i < |elems| ==> p.doc.Has(elems[i])
    ensures var accepted := Answers(p, Context(true, run, at), m, elems, s);
      accepted.1 == s && forall i :: 0 <= i < |elems| ==> accepted.0[i] == Plain(p, m, elems[i])
  {
    if elems != [] {
      XmlAgrees(p, run, at, m, elems[..|elems| - 1], s);
      AnswerXml(p, Context(true, run, at), m, elems[|elems| - 1], s);
    }
  }

  // ----- two elements in one wrapper -----

  /** The document, an element of class a, in it a wrapper, in that two elements of class b. */
  const SHARED := Doc([-1, 0, 1, 2, 2], [-1, -1, -1, -1, 3], [false, true, true, true, true])

  /** Test 0 passes everywhere, 1 is class a, 2 is class b. */
  function SharedPage(): Page {
    Page(SHARED, (t, n) => t == 0 || (t == 1 && n == 1) || (t == 2 && n >= 3))
  }

  /** The compiled tokens of ".a .b" without a context element. */
  function DescendantOfA(): Matcher {
    All([Combinator(ParentNode, false, false, 2, All([Leaf(0), Leaf(1)])), Leaf(2)])
  }

  /** Both match; the filter accepts the first only, as the second walk meets in the wrapper the
      miss of the first. */
  lemma SharedWrapper(run: nat, at: nat)
    ensures Real(SharedPage(), Exempt(0))
    ensures SameShape(DescendantOfA(), Compound([Test(1), Relative(ParentNode, false), Test(2)], Exempt(0), 3))
    ensures var p, m := SharedPage(), DescendantOfA();
      Plain(p, m, 3) && Plain(p, m, 4) && Answers(p, Context(false, run, at), m, [3, 4], map[]).0 == [true, false]
  {
    SharedIsReal();
    SharedShape();
    SharedMatch();
    SharedAnswers(Context(false, run, at));
  }

  lemma SharedAnswers(v: Context)
    requires !v.xml
    ensures SharedPage().doc.Valid()
    ensures Answers(SharedPage(), v, DescendantOfA(), [3], map[]).0 == [true]
    ensures Answers(SharedPage(), v, DescendantOfA(), [3, 4], map[]).0 == [true, false]
  {
    FirstOfShared(v);
    SecondOfShared(v);
    OneAnswer(SharedPage(), v, DescendantOfA(), 3, map[]);
    TwoAnswers(SharedPage(), v, DescendantOfA(), 3, 4, map[]);
  }

  lemma SharedMatch()
    ensures SharedPage().doc.Valid()
    ensures Plain(SharedPage(), DescendantOfA(), 3) && Plain(SharedPage(), DescendantOfA(), 4)
  {
    var p, m := SharedPage(), DescendantOfA();
    var c := m.parts[0];
    assert Plain(p, c.inner, 1);
    assert Somewhere(p, c, 2);
    assert Somewhere(p, c, 3) && Somewhere(p, c, 4);
    assert Plain(p, c, 3) && Plain(p, c, 4);
  }

  lemma SharedIsReal()
    ensures Real(SharedPage(), Exempt(0))
  {
    var ds := [ParentNode, ParentNode, PreviousSibling];
    LineIsTree(ds);
    forall n: nat | n < 5 ensures Parents(ds)[n] == SHARED.parent[n] {
      ParentsAt(ds, n);
      ParentsAt(ds, 2);
      ParentsAt(ds, 3);
    }
    assert Line(ds).parent == SHARED.parent && Line(ds).previous == SHARED.previous && Line(ds).element == SHARED.element;
  }

  lemma SharedShape()
    ensures SameShape(DescendantOfA(), Compound([Test(1), Relative(ParentNode, false), Test(2)], Exempt(0), 3))
  {
    var tokens := [Test(1), Relative(ParentNode, false), Test(2)];
    assert Compound(tokens, Exempt(0), 0) == All([Leaf(0)]);
    assert Compound(tokens, Exempt(0), 1) == All([Leaf(0), Leaf(1)]);
    assert Compound(tokens, Exempt(0), 2) == All([Combinator(ParentNode, false, false, 0, All([Leaf(0), Leaf(1)]))]);
    assert Compound(tokens, Exempt(0), 3) == All([Combinator(ParentNode, false, false, 0, All([Leaf(0), Leaf(1)])), Leaf(2)]);
  }

  /** The slots after the first answer. */
  function SharedSlots(v: Context): Slots {
    map[(2, ParentNode) := Slot(v.run, 2, Miss(v.at)), (1, ParentNode) := Slot(v.run, 2, Hit)]
  }

  lemma FirstOfShared(v: Context)
    requires !v.xml
    ensures SharedPage().doc.Valid() && Answer(SharedPage(), v, DescendantOfA(), 3, map[]) == (true, SharedSlots(v))
  {
    var p, m := SharedPage(), DescendantOfA();
    var c := m.parts[0];
    var none: Slots, s: Slots := map[], map[(2, ParentNode) := Slot(v.run, 2, Miss(v.at))];
    var first := none[(2, ParentNode) := Slot(v.run, 2, Pending)];
    LastFails(p, v, c.inner, 2, first);
    assert first[(2, ParentNode) := Slot(v.run, 2, Miss(v.at))] == s;
    assert Probed(p, v, c, 2, none) == (false, s);
    var taken := s[(1, ParentNode) := Slot(v.run, 2, Pending)];
    assert taken[(1, ParentNode) := Slot(v.run, 2, Hit)] == SharedSlots(v);
    assert Answer(p, v, Leaf(1), 1, taken) == (true, taken) && Answer(p, v, Leaf(0), 1, taken) == (true, taken);
    assert AnswerAll(p, v, c.inner, 1, 1, taken) == (true, taken) by { OnePart(p, v, c.inner, 1, taken); }
    assert Answer(p, v, c.inner, 1, taken) == (true, taken);
    assert Probed(p, v, c, 1, s) == (true, SharedSlots(v));
    assert WalkFrom(p, v, c, 1, s) == (true, SharedSlots(v));
    assert WalkFrom(p, v, c, 2, none) == (true, SharedSlots(v));
    TestThenWalk(p, v, m, 3, none);
  }

  lemma SecondOfShared(v: Context)
    requires !v.xml
    ensures SharedPage().doc.Valid() && Answer(SharedPage(), v, DescendantOfA(), 4, SharedSlots(v)) == (false, SharedSlots(v))
  {
    var p, m := SharedPage(), DescendantOfA();
    assert WalkFrom(p, v, m.parts[0], 2, SharedSlots(v)) == (false, SharedSlots(v));
    TestThenWalk(p, v, m, 4, SharedSlots(v));
  }

  lemma TestThenWalk(p: Page, v: Context, m: Matcher, n: int, s: Slots)
    requires p.doc.Valid() && p.doc.Has(n) && m.All? && |m.parts| == 2
    requires m.parts[0].Combinator? && !m.parts[0].first && m.parts[1].Leaf? && p.pass(m.parts[1].test, n)
    ensures Answer(p, v, m, n, s) == WalkFrom(p, v, m.parts[0], p.doc.Next(m.parts[0].dir, n), s)
  {
    assert Answer(p, v, m.parts[1], n, s) == (true, s);
    OnePart(p, v, m, n, s);
  }

  // ----- the filters of set matchers -----

  /** The nodes in the first n entries. */
  function Nodes(xs: seq<Sets.Cell>, n: nat): seq<int>
    requires n <= |xs|
  {
    if n == 0 then [] else Nodes(xs, n - 1) + if xs[n - 1].Node? then [xs[n - 1].id] else []
  }

  ghost predicate OnPage(p: Page, xs: seq<Sets.Cell>) {
    forall i :: 0 <= i < |xs| && xs[i].Node? ==> p.doc.Has(xs[i].id)
  }

  lemma {:induction false} NodesOnPage(p: Page, xs: seq<Sets.Cell>, n: nat)
    requires OnPage(p, xs) && n <= |xs|
    ensures forall j :: 0 <= j < |Nodes(xs, n)| ==> p.doc.Has(Nodes(xs, n)[j])
  {
    if n > 0 { NodesOnPage(p, xs, n - 1); }
  }

  /** What filter m answers for entry i, having been called on the nodes before it. */
  ghost predicate Accepts(p: Page, v: Context, m: Matcher, s: Slots, xs: seq<Sets.Cell>, i: nat)
    requires p.doc.Valid() && OnPage(p, xs) && i < |xs| && xs[i].Node?
  {
    NodesOnPage(p, xs, i + 1);
    var nodes := Nodes(xs, i + 1);
    Answers(p, v, m, nodes, s).0[|nodes| - 1]
  }

  /** Filter f of the set matchers is the compiled m, first called when the slots are s. */
  ghost predicate IsFilter(env: Sets.Env, f: nat, p: Page, v: Context, m: Matcher, s: Slots) {
    p.doc.Valid() && forall xs: seq<Sets.Cell>, i: nat :: i < |xs| && xs[i].Node? && OnPage(p, xs) ==>
      (env.accepts(f, xs, i) <==> Accepts(p, v, m, s, xs, i))
  }

  /** A set matcher picks only what its compiled pre-filter accepts plainly. */
  lemma PickedIsPlain(env: Sets.Env, sm: Sets.SetMatcher, p: Page, table: map<nat, Matcher>, v: Context, m: Matcher, s: Slots,
                      seed: seq<Sets.Cell>, i: nat)
    requires sm.pre.Some? && IsFilter(env, sm.pre.value, p, v, m, s) && OnPage(p, seed) && i < |seed|
    requires Compiled(table, m) && HitsSound(p, table, v, s)
    requires Sets.Picked(env, sm, seed, i)
    ensures seed[i].Node? && Plain(p, m, seed[i].id)
  {
    NodesOnPage(p, seed, i + 1);
    AnswersArePlain(p, table, v, m, Nodes(seed, i + 1), s);
    assert Accepts(p, v, m, s, seed, i);
  }

  /** If none of its combinators keeps answers, it passes exactly what it accepts plainly. */
  lemma PassesIffPlain(env: Sets.Env, f: nat, p: Page, v: Context, m: Matcher, s: Slots, tokens: seq<Token>, root: Root,
                       xs: seq<Sets.Cell>, i: nat)
    requires IsFilter(env, f, p, v, m, s) && OnPage(p, xs) && i < |xs| && xs[i].Node?
    requires SameShape(m, Compound(tokens, root, |tokens|)) && KeepsNone(tokens, root)
    ensures Sets.Passes(env, Some(f), xs, i) <==> Plain(p, Compound(tokens, root, |tokens|), xs[i].id)
  {
    NodesOnPage(p, xs, i + 1);
    CompoundAllFirst(tokens, root, |tokens|);
    AllFirstSameShape(m, Compound(tokens, root, |tokens|));
    AnswersAllFirst(p, v, m, Nodes(xs, i + 1), s);
    SameShapeSameMeaning(p, m, Compound(tokens, root, |tokens|), xs[i].id);
    assert Accepts(p, v, m, s, xs, i) == Plain(p, m, xs[i].id);
  }

  /** :last */
  function LastIndex(pos: nat, length: nat): seq<int> { [length - 1] }

  /** ".a .b:last" on the two elements of the shared wrapper: the first one is matched. */
  lemma LastOfShared(env: Sets.Env, f: nat, run: nat, at: nat)
    requires IsFilter(env, f, SharedPage(), Context(false, run, at), DescendantOfA(), map[]) && env.indexes == LastIndex
    ensures Sets.Outcome(env, Sets.SetMatcher(Some(f), Some(0), None), [Sets.Node(3), Sets.Node(4)], Sets.Blank(2))
         == ([Sets.Gone, Sets.Node(4)], [Sets.Node(3), Sets.Gone])
  {
    var v := Context(false, run, at);
    SharedAnswers(v);
    FirstPasses(env, f, SharedPage(), v, DescendantOfA(), 3, 4, map[]);
    LastOfTwo(env, f, [Sets.Node(3), Sets.Node(4)]);
  }

  lemma FirstPasses(env: Sets.Env, f: nat, p: Page, v: Context, m: Matcher, a: nat, b: nat, s: Slots)
    requires IsFilter(env, f, p, v, m, s) && p.doc.Has(a) && p.doc.Has(b)
    requires Answers(p, v, m, [a], s).0 == [true] && Answers(p, v, m, [a, b], s).0 == [true, false]
    ensures var seed := [Sets.Node(a), Sets.Node(b)];
      Sets.Passes(env, Some(f), seed, 0) && !Sets.Passes(env, Some(f), seed, 1)
  {
    var seed := [Sets.Node(a), Sets.Node(b)];
    assert Nodes(seed, 0) == [] && Nodes(seed, 1) == [a] && Nodes(seed, 2) == [a, b];
    assert Accepts(p, v, m, s, seed, 0) && !Accepts(p, v, m, s, seed, 1);
  }

  /** Of two entries of which the first alone passes, :last moves the first. */
  lemma LastOfTwo(env: Sets.Env, f: nat, seed: seq<Sets.Cell>)
    requires |seed| == 2 && Sets.Passes(env, Some(f), seed, 0) && !Sets.Passes(env, Some(f), seed, 1)
    requires env.indexes == LastIndex
    ensures Sets.Outcome(env, Sets.SetMatcher(Some(f), Some(0), None), seed, Sets.Blank(2))
         == ([Sets.Gone, seed[1]], [seed[0], Sets.Gone])
  {
    var sm := Sets.SetMatcher(Some(f), Some(0), None);
    Sets.CleanOutcome(env, sm, seed, Sets.Blank(2));
    assert Sets.Rank(env, seed, Some(f), 0) == 0 && Sets.Rank(env, seed, Some(f), 1) == 1;
    assert Sets.Rank(env, seed, Some(f), 2) == 1;
    assert 0 in env.indexes(0, 1);
    assert Sets.Picked(env, sm, seed, 0) && !Sets.Picked(env, sm, seed, 1);
    assert Sets.PickedSet(env, sm, seed) == {0};
    assert Sets.Leave(seed, {0}) == [Sets.Gone, seed[1]];
    assert Sets.Arrive(seed, Sets.Blank(2), {0}) == [seed[0], Sets.Gone];
  }

  lemma OneAnswer(p: Page, v: Context, m: Matcher, a: int, s: Slots)
    requires p.doc.Valid() && p.doc.Has(a)
    ensures Answers(p, v, m, [a], s).0 == [Answer(p, v, m, a, s).0]
  {
    assert [a][..0] == [];
    assert Answers(p, v, m, [], s) == ([], s);
  }
}
