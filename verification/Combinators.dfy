/** Sizzle's compiled combinators with the per-node answer cache
    (src/main/webapp/javascript/jquery-1.10.2.js).

    A compiled selector is a nest of closures.  Each non-first combinator remembers, on the
    nodes it walks over, whether its inner matcher held there; one cache slot per node and
    direction is shared by every combinator of that direction.  The module proves that the
    cached walk answers exactly what the uncached walk answers, as long as cachedruns moves on
    after each element; PreFilter.dfy is about the calls for which it does not. */
module Combinators {

  datatype Dir = ParentNode | PreviousSibling

  /** Nodes are numbered so that parents and previous siblings come first; -1 is null. */
  datatype Doc = Doc(parent: seq<int>, previous: seq<int>, element: seq<bool>) {
    ghost predicate Valid() {
      && |parent| == |previous| == |element|
      && (forall n :: 0 <= n < |parent| ==> -1 <= parent[n] < n)
      && (forall n :: 0 <= n < |previous| ==> -1 <= previous[n] < n)
    }

    predicate Has(n: int) { 0 <= n < |element| }

    function Next(d: Dir, n: int): (m: int)
      requires Valid() && Has(n)
      ensures -1 <= m < n
    {
      if d.ParentNode? then parent[n] else previous[n]
    }
  }

  datatype Matcher =
    | Leaf(test: nat)
    | All(parts: seq<Matcher>)
    | Combinator(dir: Dir, first: bool, base: bool, id: nat, inner: Matcher)

  /** A document together with the truthiness of every leaf test on every node. */
  datatype Page = Page(doc: Doc, pass: (nat, int) -> bool) {
    /** nodeType === 1 || checkNonElements */
    predicate Counts(c: Matcher, n: int)
      requires c.Combinator? && doc.Has(n)
    {
      doc.element[n] || (c.base && c.dir.ParentNode?)
    }
  }

  // ----- meaning without caches -----

  /** What a matcher means on a node: no cache, no evaluation order. */
  ghost predicate Plain(p: Page, m: Matcher, n: int)
    requires p.doc.Valid() && p.doc.Has(n)
    decreases m, 1, 0
  {
    match m
    case Leaf(t) => p.pass(t, n)
    case All(parts) => forall i :: 0 <= i < |parts| ==> Plain(p, parts[i], n)
    case Combinator(_, first, _, _, _) => if first then Nearest(p, m, n) else Somewhere(p, m, n)
  }

  /** The closest counted node in the direction of c satisfies c's inner matcher. */
  ghost predicate Nearest(p: Page, c: Matcher, n: int)
    requires p.doc.Valid() && p.doc.Has(n) && c.Combinator?
    decreases c, 0, n
  {
    var e := p.doc.Next(c.dir, n);
    e >= 0 && if p.Counts(c, e) then Plain(p, c.inner, e) else Nearest(p, c, e)
  }

  /** Some counted node in the direction of c satisfies c's inner matcher. */
  ghost predicate Somewhere(p: Page, c: Matcher, n: int)
    requires p.doc.Valid() && p.doc.Has(n) && c.Combinator?
    decreases c, 0, n
  {
    var e := p.doc.Next(c.dir, n);
    e >= 0 && ((p.Counts(c, e) && Plain(p, c.inner, e)) || Somewhere(p, c, e))
  }

  /** m is reached from n in zero or more steps. */
  ghost predicate Reaches(doc: Doc, d: Dir, n: int, m: int)
    requires doc.Valid() && doc.Has(n)
    decreases n
  {
    n == m || (doc.Next(d, n) >= 0 && Reaches(doc, d, doc.Next(d, n), m))
  }

  /** e is where the relation from n leads: a counted node strictly further out, and for a
      `first` relation the closest such node. */
  ghost predicate Related(p: Page, d: Dir, first: bool, base: bool, n: int, e: int)
    requires p.doc.Valid() && p.doc.Has(n)
  {
    && p.doc.Has(e) && e < n && Reaches(p.doc, d, n, e) && Visible(p, d, base, e)
    && (first ==> forall x :: e < x < n && Reaches(p.doc, d, n, x) ==> !Visible(p, d, base, x))
  }

  ghost predicate Visible(p: Page, d: Dir, base: bool, e: int) {
    p.doc.Has(e) && (p.doc.element[e] || (base && d.ParentNode?))
  }

  /** The two walks are existentials over the related nodes. */
  lemma {:induction false} WalkMeansRelated(p: Page, c: Matcher, n: int)
    requires p.doc.Valid() && p.doc.Has(n) && c.Combinator?
    ensures Nearest(p, c, n) <==> exists e :: Related(p, c.dir, true, c.base, n, e) && Plain(p, c.inner, e)
    ensures Somewhere(p, c, n) <==> exists e :: Related(p, c.dir, false, c.base, n, e) && Plain(p, c.inner, e)
    decreases n
  {
    var e := p.doc.Next(c.dir, n);
    if e >= 0 {
      WalkMeansRelated(p, c, e);
      RelatedStep(p, c.dir, c.base, n);
      assert Visible(p, c.dir, c.base, e) == p.Counts(c, e);
      if Nearest(p, c, n) {
        var g := if p.Counts(c, e) then e else var f :| Related(p, c.dir, true, c.base, e, f) && Plain(p, c.inner, f); f;
        assert Related(p, c.dir, true, c.base, n, g);
      }
    }
  }

  lemma RelatedStep(p: Page, d: Dir, base: bool, n: int)
    requires p.doc.Valid() && p.doc.Has(n) && p.doc.Next(d, n) >= 0
    ensures var e := p.doc.Next(d, n);
      forall f :: Related(p, d, false, base, n, f) <==>
        (f == e && Visible(p, d, base, e)) || Related(p, d, false, base, e, f)
    ensures var e := p.doc.Next(d, n);
      forall f :: Related(p, d, true, base, n, f) <==>
        if Visible(p, d, base, e) then f == e else Related(p, d, true, base, e, f)
  {
    var e := p.doc.Next(d, n);
    ReachesDown(p.doc, d, e);
    assert forall x :: x < n ==> (Reaches(p.doc, d, n, x) <==> x == e || Reaches(p.doc, d, e, x));
    assert Reaches(p.doc, d, n, e) && Reaches(p.doc, d, e, e);
  }

  lemma {:induction false} ReachesDown(doc: Doc, d: Dir, n: int)
    requires doc.Valid() && doc.Has(n)
    ensures forall m :: Reaches(doc, d, n, m) ==> 0 <= m <= n
    decreases n
  {
    if doc.Next(d, n) >= 0 {
      ReachesDown(doc, d, doc.Next(d, n));
    }
  }

  // ----- how compiled matchers are put together -----

  ghost predicate IdsBelow(m: Matcher, lim: nat) {
    match m
    case Leaf(_) => true
    case All(parts) => forall i :: 0 <= i < |parts| ==> IdsBelow(parts[i], lim)
    case Combinator(_, _, _, id, inner) => id < lim && IdsBelow(inner, lim)
  }

  /** Every combinator has its own id, larger than those nested in it, and a compound tests
      its combinator at index 0, hence last. */
  ghost predicate Compiled(table: map<nat, Matcher>, m: Matcher) {
    match m
    case Leaf(_) => true
    case All(parts) =>
      && |parts| >= 1 && !parts[0].All?
      && (forall i :: 1 <= i < |parts| ==> parts[i].Leaf?)
      && Compiled(table, parts[0])
    case Combinator(_, _, _, id, inner) =>
      id in table && table[id] == m && IdsBelow(inner, id) && Compiled(table, inner)
  }

  lemma {:induction false} IdsBelowMonotone(m: Matcher, lo: nat, hi: nat)
    requires IdsBelow(m, lo) && lo <= hi
    ensures IdsBelow(m, hi)
  {
    match m
    case Leaf(_) =>
    case All(parts) =>
      forall i | 0 <= i < |parts| ensures IdsBelow(parts[i], hi) { IdsBelowMonotone(parts[i], lo, hi); }
    case Combinator(_, _, _, _, inner) => IdsBelowMonotone(inner, lo, hi);
  }

  lemma {:induction false} CompiledMonotone(small: map<nat, Matcher>, big: map<nat, Matcher>, m: Matcher)
    requires Compiled(small, m)
    requires forall k :: k in small ==> k in big && big[k] == small[k]
    ensures Compiled(big, m)
  {
    match m
    case Leaf(_) =>
    case All(parts) => CompiledMonotone(small, big, parts[0]);
    case Combinator(_, _, _, _, inner) => CompiledMonotone(small, big, inner);
  }

  datatype Token = Relative(dir: Dir, first: bool) | Test(test: nat)

  /** The root of a selector: reached from the context, or exempt from that test. */
  datatype Root = Exempt(always: nat) | FromNode(same: nat) | FromAny(among: nat)

  function Implicit(tokens: seq<Token>): Token {
    if |tokens| > 0 && tokens[0].Relative? then tokens[0] else Relative(ParentNode, false)
  }

  /** What the first k tokens select, on the tokens themselves: n passes the tests at the end,
      and the relation before them leads to a node that the tokens further left select. */
  ghost predicate Selects(p: Page, tokens: seq<Token>, root: Root, k: nat, n: int)
    requires p.doc.Valid() && p.doc.Has(n) && k <= |tokens|
    decreases k
  {
    if k == 0 || (k == 1 && tokens[0].Relative?) then
      var r := Implicit(tokens);
      match root
      case Exempt(t) => p.pass(t, n)
      case FromNode(t) => exists e :: Related(p, r.dir, r.first, true, n, e) && p.pass(t, e)
      case FromAny(t) => exists e :: Related(p, r.dir, r.first, true, n, e) && p.pass(t, e)
    else
      match tokens[k - 1]
      case Test(t) => p.pass(t, n) && Selects(p, tokens, root, k - 1, n)
      case Relative(d, first) => exists e :: Related(p, d, first, false, n, e) && Selects(p, tokens, root, k - 1, e)
  }

  lemma {:induction false} CompoundSelects(p: Page, tokens: seq<Token>, root: Root, k: nat, n: int)
    requires p.doc.Valid() && p.doc.Has(n) && k <= |tokens|
    ensures Plain(p, Compound(tokens, root, k), n) == Selects(p, tokens, root, k, n)
    decreases k
  {
    var m := Compound(tokens, root, k);
    if k == 0 || (k == 1 && tokens[0].Relative?) {
      assert m.parts[0] == RootPart(tokens, root);
      if !root.Exempt? { WalkMeansRelated(p, m.parts[0], n); }
    } else if tokens[k - 1].Relative? {
      var c := m.parts[0];
      forall e | p.doc.Has(e) ensures Plain(p, c.inner, e) == Selects(p, tokens, root, k - 1, e) {
        CompoundSelects(p, tokens, root, k - 1, e);
      }
      WalkMeansRelated(p, c, n);
      assert Plain(p, m, n) == Plain(p, c, n);
    } else {
      CompoundSelects(p, tokens, root, k - 1, n);
      var before := Compound(tokens, root, k - 1).parts;
      assert forall i :: 0 <= i < |before| ==> m.parts[i] == before[i];
      assert m.parts[|before|] == Leaf(tokens[k - 1].test);
    }
  }

  // ----- what the relations mean, in terms of the document -----

  /** e is a proper ancestor of n. */
  ghost predicate Ancestor(doc: Doc, n: int, e: int)
    requires doc.Valid() && doc.Has(n)
    decreases n
  {
    doc.parent[n] >= 0 && (e == doc.parent[n] || Ancestor(doc, doc.parent[n], e))
  }

  /** e is a sibling of n that comes earlier. */
  ghost predicate EarlierSibling(doc: Doc, n: int, e: int)
    requires doc.Valid() && doc.Has(n)
    decreases n
  {
    doc.previous[n] >= 0 && (e == doc.previous[n] || EarlierSibling(doc, doc.previous[n], e))
  }

  lemma {:induction false} ReachesMeans(doc: Doc, n: int, e: int)
    requires doc.Valid() && doc.Has(n) && e < n
    ensures Reaches(doc, ParentNode, n, e) <==> Ancestor(doc, n, e)
    ensures Reaches(doc, PreviousSibling, n, e) <==> EarlierSibling(doc, n, e)
    decreases n
  {
    var m, k := doc.parent[n], doc.previous[n];
    ReachesDown(doc, ParentNode, n);
    ReachesDown(doc, PreviousSibling, n);
    if m >= 0 {
      if e < m { ReachesMeans(doc, m, e); } else { AncestorsBefore(doc, m, e); ReachesDown(doc, ParentNode, m); }
    }
    if k >= 0 {
      if e < k { ReachesMeans(doc, k, e); } else { AncestorsBefore(doc, k, e); ReachesDown(doc, PreviousSibling, k); }
    }
  }

  lemma {:induction false} AncestorsBefore(doc: Doc, n: int, e: int)
    requires doc.Valid() && doc.Has(n)
    ensures Ancestor(doc, n, e) || EarlierSibling(doc, n, e) ==> 0 <= e < n
    decreases n
  {
    if doc.parent[n] >= 0 { AncestorsBefore(doc, doc.parent[n], e); }
    if doc.previous[n] >= 0 { AncestorsBefore(doc, doc.previous[n], e); }
  }

  /** Descendant and general sibling combinators lead to every ancestor and every earlier sibling
      that is an element, those of the root to the document too. */
  lemma RelatedMeans(p: Page, base: bool, n: int, e: int)
    requires p.doc.Valid() && p.doc.Has(n)
    ensures Related(p, ParentNode, false, base, n, e) <==>
            p.doc.Has(e) && Ancestor(p.doc, n, e) && (p.doc.element[e] || base)
    ensures Related(p, PreviousSibling, false, base, n, e) <==>
            p.doc.Has(e) && EarlierSibling(p.doc, n, e) && p.doc.element[e]
  {
    AncestorsBefore(p.doc, n, e);
    if e < n { ReachesMeans(p.doc, n, e); }
  }

  /** Child and adjacent sibling combinators lead to the parent and the previous sibling, if these
      are elements. */
  lemma FirstMeans(p: Page, base: bool, n: int, e: int)
    requires p.doc.Valid() && p.doc.Has(n)
    ensures var m := p.doc.parent[n];
      m >= 0 && (p.doc.element[m] || base) ==> (Related(p, ParentNode, true, base, n, e) <==> e == m)
    ensures var m := p.doc.previous[n];
      m >= 0 && p.doc.element[m] ==> (Related(p, PreviousSibling, true, base, n, e) <==> e == m)
  {
    if p.doc.parent[n] >= 0 { RelatedStep(p, ParentNode, base, n); }
    if p.doc.previous[n] >= 0 { RelatedStep(p, PreviousSibling, base, n); }
  }

  /** A group without a leading combinator is taken to begin with the descendant combinator. */
  lemma {:induction false} DescendantByDefault(p: Page, tokens: seq<Token>, root: Root, k: nat, n: int)
    requires p.doc.Valid() && p.doc.Has(n) && k <= |tokens| && !root.Exempt?
    requires tokens != [] && tokens[0].Test?
    ensures Selects(p, tokens, root, k, n) <==> Selects(p, [Relative(ParentNode, false)] + tokens, root, k + 1, n)
    decreases k
  {
    var longer := [Relative(ParentNode, false)] + tokens;
    if k > 0 {
      assert longer[k] == tokens[k - 1];
      forall e | p.doc.Has(e)
        ensures Selects(p, tokens, root, k - 1, e) <==> Selects(p, longer, root, k, e)
      {
        DescendantByDefault(p, tokens, root, k - 1, e);
      }
      if tokens[k - 1].Relative? {
        forall e ensures Related(p, tokens[k - 1].dir, tokens[k - 1].first, false, n, e) ==> p.doc.Has(e) {}
      }
    }
  }

  /** One test in one context node: the test passes and the context node is a proper ancestor. */
  lemma OneTestSelects(p: Page, t: nat, same: nat, n: int)
    requires p.doc.Valid() && p.doc.Has(n)
    ensures Selects(p, [Test(t)], FromNode(same), 1, n) <==>
            p.pass(t, n) && exists e :: p.doc.Has(e) && Ancestor(p.doc, n, e) && p.pass(same, e)
  {
    var tokens := [Test(t)];
    assert Selects(p, tokens, FromNode(same), 1, n) <==> p.pass(t, n) && Selects(p, tokens, FromNode(same), 0, n);
    forall e ensures Related(p, ParentNode, false, true, n, e) <==> p.doc.Has(e) && Ancestor(p.doc, n, e) {
      AncestorsBefore(p.doc, n, e);
      RelatedMeans(p, true, n, e);
    }
  }

  /** A leading combinator relates the first compound to the context. */
  lemma LeadingSelects(p: Page, d: Dir, first: bool, tokens: seq<Token>, root: Root, n: int)
    requires p.doc.Valid() && p.doc.Has(n) && !root.Exempt?
    ensures var t := if root.FromNode? then root.same else root.among;
      Selects(p, [Relative(d, first)] + tokens, root, 1, n) <==> exists e :: Related(p, d, first, true, n, e) && p.pass(t, e)
  {
  }

  /** The matcher that the first k tokens stand for, ids aside. */
  ghost function Compound(tokens: seq<Token>, root: Root, k: nat): (m: Matcher)
    requires k <= |tokens|
    ensures m.All?
  {
    if k == 0 || (k == 1 && tokens[0].Relative?) then All([RootPart(tokens, root)])
    else if tokens[k - 1].Relative? then
      All([Combinator(tokens[k - 1].dir, tokens[k - 1].first, false, 0, Compound(tokens, root, k - 1))])
    else All(Compound(tokens, root, k - 1).parts + [Leaf(tokens[k - 1].test)])
  }

  ghost function RootPart(tokens: seq<Token>, root: Root): Matcher {
    var implicit := Implicit(tokens);
    match root
    case Exempt(t) => Leaf(t)
    case FromNode(t) => Combinator(implicit.dir, implicit.first, true, 0, Leaf(t))
    case FromAny(t) => Combinator(implicit.dir, implicit.first, true, 0, Leaf(t))
  }

  /** The same matcher up to the ids of its combinators. */
  ghost predicate SameShape(a: Matcher, b: Matcher) {
    match (a, b)
    case (Leaf(t), Leaf(u)) => t == u
    case (All(xs), All(ys)) => |xs| == |ys| && forall i :: 0 <= i < |xs| ==> SameShape(xs[i], ys[i])
    case (Combinator(d, f, s, _, x), Combinator(e, g, t, _, y)) => d == e && f == g && s == t && SameShape(x, y)
    case _ => false
  }

  lemma {:induction false} SameShapeSameMeaning(p: Page, a: Matcher, b: Matcher, n: int)
    requires p.doc.Valid() && p.doc.Has(n) && SameShape(a, b)
    ensures Plain(p, a, n) == Plain(p, b, n)
    decreases a, 1, 0
  {
    match a
    case Leaf(_) =>
    case All(xs) =>
      forall i | 0 <= i < |xs| ensures Plain(p, xs[i], n) == Plain(p, b.parts[i], n) {
        SameShapeSameMeaning(p, xs[i], b.parts[i], n);
      }
    case Combinator(_, _, _, _, _) => SameShapeSameWalk(p, a, b, n);
  }

  lemma {:induction false} SameShapeSameWalk(p: Page, a: Matcher, b: Matcher, n: int)
    requires p.doc.Valid() && p.doc.Has(n) && SameShape(a, b) && a.Combinator?
    ensures Nearest(p, a, n) == Nearest(p, b, n)
    ensures Somewhere(p, a, n) == Somewhere(p, b, n)
    decreases a, 0, n
  {
    var e := p.doc.Next(a.dir, n);
    if e >= 0 {
      SameShapeSameMeaning(p, a.inner, b.inner, e);
      SameShapeSameWalk(p, a, b, e);
    }
  }

  /** matchers, with combinators named in names, are compiled from the first i tokens. */
  ghost predicate Building(tokens: seq<Token>, root: Root, i: nat, matchers: seq<Matcher>, next: nat,
                           table: map<nat, Matcher>, names: map<nat, Matcher>)
    requires i <= |tokens|
  {
    && (forall k :: k in names ==> k < next)
    && (forall k :: k in table ==> k in names && names[k] == table[k])
    && Compiled(names, All(matchers)) && IdsBelow(All(matchers), next)
    && SameShape(All(matchers), Compound(tokens, root, i))
  }

  /** Compiles one group without positional tokens; `done` is the running name counter. */
  method MatcherFromTokens(tokens: seq<Token>, root: Root, done: nat, ghost table: map<nat, Matcher>)
    returns (m: Matcher, next: nat, ghost names: map<nat, Matcher>)
    requires |tokens| > 0
    requires forall k :: k in table ==> k < done
    ensures done <= next && (forall k :: k in names ==> k < next)
    ensures forall k :: k in table ==> k in names && names[k] == table[k]
    ensures Compiled(names, m) && IdsBelow(m, next)
    ensures SameShape(m, Compound(tokens, root, |tokens|))
  {
    var i := if tokens[0].Relative? then 1 else 0;
    var matchers;
    matchers, names := Foundation(tokens, root, done, table);
    next := done + 2;
    while i < |tokens|
      invariant (if tokens[0].Relative? then 1 else 0) <= i <= |tokens| && done + 2 <= next
      invariant Building(tokens, root, i, matchers, next, table, names)
    {
      match tokens[i] {
        case Relative(dir, first) =>
          var c := Combinator(dir, first, false, next, All(matchers));
          CombinatorAdded(tokens, root, i, matchers, next, table, names, c);
          names := names[next := c];
          matchers, next := [c], next + 1;
        case Test(t) =>
          TestAdded(tokens, root, i, matchers, next, table, names, t);
          matchers := matchers + [Leaf(t)];
      }
      i := i + 1;
    }
    m := All(matchers);
  }

  /** The foundational matcher, behind an addCombinator for each kind of context. */
  method Foundation(tokens: seq<Token>, root: Root, done: nat, ghost table: map<nat, Matcher>)
    returns (matchers: seq<Matcher>, ghost names: map<nat, Matcher>)
    requires |tokens| > 0
    requires forall k :: k in table ==> k < done
    ensures Building(tokens, root, if tokens[0].Relative? then 1 else 0, matchers, done + 2, table, names)
  {
    var implicit := if tokens[0].Relative? then tokens[0] else Relative(ParentNode, false);
    names := table;
    match root {
      case Exempt(t) => matchers := [Leaf(t)];
      case FromNode(t) =>
        var c := Combinator(implicit.dir, implicit.first, true, done, Leaf(t));
        matchers, names := [c], names[done := c];
      case FromAny(t) =>
        var c := Combinator(implicit.dir, implicit.first, true, done + 1, Leaf(t));
        matchers, names := [c], names[done + 1 := c];
    }
  }

  lemma CombinatorAdded(tokens: seq<Token>, root: Root, i: nat, matchers: seq<Matcher>, next: nat,
                        table: map<nat, Matcher>, names: map<nat, Matcher>, c: Matcher)
    requires i < |tokens| && tokens[i].Relative? && (i > 0 || !tokens[0].Relative?)
    requires Building(tokens, root, i, matchers, next, table, names)
    requires c == Combinator(tokens[i].dir, tokens[i].first, false, next, All(matchers))
    ensures Building(tokens, root, i + 1, [c], next + 1, table, names[next := c])
  {
    CompiledMonotone(names, names[next := c], All(matchers));
    IdsBelowMonotone(All(matchers), next, next + 1);
    assert Compiled(names[next := c], c) && IdsBelow(c, next + 1);
    assert SameShape(c, Compound(tokens, root, i + 1).parts[0]);
  }

  lemma TestAdded(tokens: seq<Token>, root: Root, i: nat, matchers: seq<Matcher>, next: nat,
                  table: map<nat, Matcher>, names: map<nat, Matcher>, t: nat)
    requires i < |tokens| && tokens[i] == Test(t)
    requires Building(tokens, root, i, matchers, next, table, names)
    ensures Building(tokens, root, i + 1, matchers + [Leaf(t)], next, table, names)
  {
  }

  // ----- the cache -----

  /** cache[1] of a slot: not yet assigned, true, or the number of the element being matched. */
  datatype Data = Pending | Hit | Miss(at: nat)

  /** One outerCache[dir] entry; cache[0] is the pair of run number and combinator name. */
  datatype Slot = Slot(run: nat, id: nat, data: Data)

  type Slots = map<(int, Dir), Slot>

  /** What stays the same while one element is matched: the kind of document, dirruns and
      cachedruns. */
  datatype Context = Context(xml: bool, run: nat, at: nat)

  // ----- what a compiled matcher answers, and the slots it leaves -----

  function Answer(p: Page, v: Context, m: Matcher, n: int, s: Slots): (r: (bool, Slots))
    requires p.doc.Valid() && p.doc.Has(n)
    decreases m, 1, 0
  {
    match m
    case Leaf(t) => (p.pass(t, n), s)
    case All(parts) => AnswerAll(p, v, m, |parts|, n, s)
    case Combinator(dir, first, _, _, _) =>
      if first then NearestFrom(p, v, m, p.doc.Next(dir, n), s) else WalkFrom(p, v, m, p.doc.Next(dir, n), s)
  }

  /** The first i parts, the last of them first. */
  function AnswerAll(p: Page, v: Context, m: Matcher, i: nat, n: int, s: Slots): (r: (bool, Slots))
    requires p.doc.Valid() && p.doc.Has(n) && m.All? && i <= |m.parts|
    decreases m, 0, i
  {
    if i == 0 then (true, s)
    else
      var (b, t) := Answer(p, v, m.parts[i - 1], n, s);
      if b then AnswerAll(p, v, m, i - 1, n, t) else (false, t)
  }

  /** The walk of a `first` combinator that has come to e. */
  function NearestFrom(p: Page, v: Context, c: Matcher, e: int, s: Slots): (r: (bool, Slots))
    requires p.doc.Valid() && -1 <= e < |p.doc.element| && c.Combinator?
    decreases c, 0, e + 1
  {
    if e < 0 then (false, s)
    else if p.Counts(c, e) then Answer(p, v, c.inner, e, s)
    else NearestFrom(p, v, c, p.doc.Next(c.dir, e), s)
  }

  /** The walk of any other combinator that has come to e. */
  function WalkFrom(p: Page, v: Context, c: Matcher, e: int, s: Slots): (r: (bool, Slots))
    requires p.doc.Valid() && -1 <= e < |p.doc.element| && c.Combinator?
    decreases c, 0, e + 1
  {
    if e < 0 then (false, s)
    else if !p.Counts(c, e) then WalkFrom(p, v, c, p.doc.Next(c.dir, e), s)
    else if !v.xml && Known(v, c, e, s) then
      var data := s[(e, c.dir)].data;
      if data.Hit? || data == Miss(v.at) then (data.Hit?, s) else WalkFrom(p, v, c, p.doc.Next(c.dir, e), s)
    else
      var (b, t) := if v.xml then Answer(p, v, c.inner, e, s) else Probed(p, v, c, e, s);
      if b then (true, t) else WalkFrom(p, v, c, p.doc.Next(c.dir, e), t)
  }

  /** The slot of e is one that c has taken in this run. */
  predicate Known(v: Context, c: Matcher, e: int, s: Slots)
    requires c.Combinator?
  {
    (e, c.dir) in s && s[(e, c.dir)].run == v.run && s[(e, c.dir)].id == c.id
  }

  /** c takes the slot of e, asks the inner matcher and stores its answer. */
  function Probed(p: Page, v: Context, c: Matcher, e: int, s: Slots): (r: (bool, Slots))
    requires p.doc.Valid() && p.doc.Has(e) && c.Combinator?
    decreases c.inner, 2, 0
  {
    var (b, t) := Answer(p, v, c.inner, e, s[(e, c.dir) := Slot(v.run, c.id, Pending)]);
    (b, t[(e, c.dir) := Slot(v.run, c.id, if b then Hit else Miss(v.at))])
  }

  /** Only slots of nodes up to n changed, and only in favour of ids below lim. */
  ghost predicate Touched(v: Context, n: int, lim: nat, s: Slots, t: Slots) {
    && (forall k :: k in s ==> k in t)
    && (forall k :: k in t ==> (k in s && t[k] == s[k]) || (k.0 <= n && t[k].run == v.run && t[k].id < lim))
  }

  /** Matching on n touches slots of nodes before n only. */
  lemma {:induction false} AnswerTouches(p: Page, v: Context, m: Matcher, n: int, s: Slots, lim: nat)
    requires p.doc.Valid() && p.doc.Has(n) && IdsBelow(m, lim)
    ensures Touched(v, n - 1, lim, s, Answer(p, v, m, n, s).1)
    decreases m, 1, 0
  {
    match m
    case Leaf(_) =>
    case All(parts) => AllTouches(p, v, m, |parts|, n, s, lim);
    case Combinator(dir, first, _, _, _) => WalkTouches(p, v, m, p.doc.Next(dir, n), s, lim);
  }

  lemma {:induction false} AllTouches(p: Page, v: Context, m: Matcher, i: nat, n: int, s: Slots, lim: nat)
    requires p.doc.Valid() && p.doc.Has(n) && m.All? && i <= |m.parts| && IdsBelow(m, lim)
    ensures Touched(v, n - 1, lim, s, AnswerAll(p, v, m, i, n, s).1)
    decreases m, 0, i
  {
    if i > 0 {
      AnswerTouches(p, v, m.parts[i - 1], n, s, lim);
      AllTouches(p, v, m, i - 1, n, Answer(p, v, m.parts[i - 1], n, s).1, lim);
    }
  }

  lemma {:induction false} WalkTouches(p: Page, v: Context, c: Matcher, e: int, s: Slots, lim: nat)
    requires p.doc.Valid() && -1 <= e < |p.doc.element| && c.Combinator? && IdsBelow(c, lim)
    ensures Touched(v, e, lim, s, NearestFrom(p, v, c, e, s).1)
    ensures Touched(v, e, lim, s, WalkFrom(p, v, c, e, s).1)
    decreases c, 0, e + 1
  {
    if e >= 0 {
      var next := p.doc.Next(c.dir, e);
      AnswerTouches(p, v, c.inner, e, s, lim);
      WalkTouches(p, v, c, next, s, lim);
      if p.Counts(c, e) && (v.xml || !Known(v, c, e, s)) {
        if !v.xml { ProbeTouches(p, v, c, e, s, lim); }
        var t := (if v.xml then Answer(p, v, c.inner, e, s) else Probed(p, v, c, e, s)).1;
        WalkTouches(p, v, c, next, t, lim);
      }
    }
  }

  lemma {:induction false} ProbeTouches(p: Page, v: Context, c: Matcher, e: int, s: Slots, lim: nat)
    requires p.doc.Valid() && p.doc.Has(e) && c.Combinator? && IdsBelow(c, lim)
    ensures Touched(v, e, lim, s, Probed(p, v, c, e, s).1)
    decreases c.inner, 2, 0
  {
    AnswerTouches(p, v, c.inner, e, s[(e, c.dir) := Slot(v.run, c.id, Pending)], lim);
  }

  // ----- documents without slots -----

  /** In an XML document the answer is the plain one and nothing is stored. */
  lemma {:induction false} AnswerXml(p: Page, v: Context, m: Matcher, n: int, s: Slots)
    requires p.doc.Valid() && p.doc.Has(n) && v.xml
    ensures Answer(p, v, m, n, s) == (Plain(p, m, n), s)
    decreases m, 1, 0
  {
    match m
    case Leaf(_) =>
    case All(parts) => AllXml(p, v, m, |parts|, n, s);
    case Combinator(dir, first, _, _, _) => WalkXml(p, v, m, p.doc.Next(dir, n), s);
  }

  lemma {:induction false} AllXml(p: Page, v: Context, m: Matcher, i: nat, n: int, s: Slots)
    requires p.doc.Valid() && p.doc.Has(n) && v.xml && m.All? && i <= |m.parts|
    ensures AnswerAll(p, v, m, i, n, s) == (forall j :: 0 <= j < i ==> Plain(p, m.parts[j], n), s)
    decreases m, 0, i
  {
    if i > 0 {
      AnswerXml(p, v, m.parts[i - 1], n, s);
      AllXml(p, v, m, i - 1, n, s);
    }
  }

  /** Some counted node at or beyond e satisfies c's inner matcher; the closest one does. */
  ghost predicate FromHere(p: Page, c: Matcher, e: int)
    requires p.doc.Valid() && -1 <= e < |p.doc.element| && c.Combinator?
  {
    e >= 0 && ((p.Counts(c, e) && Plain(p, c.inner, e)) || Somewhere(p, c, e))
  }

  ghost predicate NearestHere(p: Page, c: Matcher, e: int)
    requires p.doc.Valid() && -1 <= e < |p.doc.element| && c.Combinator?
  {
    e >= 0 && if p.Counts(c, e) then Plain(p, c.inner, e) else Nearest(p, c, e)
  }

  lemma {:induction false} WalkXml(p: Page, v: Context, c: Matcher, e: int, s: Slots)
    requires p.doc.Valid() && -1 <= e < |p.doc.element| && v.xml && c.Combinator?
    ensures NearestFrom(p, v, c, e, s) == (NearestHere(p, c, e), s)
    ensures WalkFrom(p, v, c, e, s) == (FromHere(p, c, e), s)
    decreases c, 0, e + 1
  {
    if e >= 0 {
      AnswerXml(p, v, c.inner, e, s);
      WalkXml(p, v, c, p.doc.Next(c.dir, e), s);
    }
  }

  // ----- when cachedruns moves on after each element -----

  /** A slot of the current run tells the truth about its own node. */
  ghost predicate Truthful(p: Page, table: map<nat, Matcher>, v: Context, key: (int, Dir), slot: Slot)
    requires p.doc.Valid()
  {
    slot.run == v.run ==>
      && slot.id in table && table[slot.id].Combinator? && !table[slot.id].first && table[slot.id].dir == key.1
      && p.doc.Has(key.0)
      && (slot.data.Hit? ==> Plain(p, table[slot.id].inner, key.0))
      && (slot.data.Miss? ==> slot.data.at <= v.at && !Plain(p, table[slot.id].inner, key.0))
  }

  ghost predicate Sound(p: Page, table: map<nat, Matcher>, v: Context, s: Slots)
    requires p.doc.Valid()
  {
    forall k :: k in s ==> Truthful(p, table, v, k, s[k])
  }

  /** No slot taken by a combinator below lim still lacks its answer. */
  ghost predicate Answered(v: Context, lim: nat, s: Slots) {
    forall k :: k in s && s[k].run == v.run && s[k].id < lim ==> !s[k].data.Pending?
  }

  /** Combinators below lim have no walk in progress: a miss recorded for the current
      element means that nothing further out matches either. */
  ghost predicate Settled(p: Page, table: map<nat, Matcher>, v: Context, lim: nat, s: Slots)
    requires p.doc.Valid() && Sound(p, table, v, s)
  {
    Answered(v, lim, s) &&
    forall k :: k in s && s[k].run == v.run && s[k].id < lim && s[k].data == Miss(v.at) ==>
      !Somewhere(p, table[s[k].id], k.0)
  }

  /** While c walks at e, only c's own misses on nodes it has passed, those from `seen` on, may
      still be followed by a match; and then only by one that the walk has yet to meet. */
  ghost predicate Walking(p: Page, table: map<nat, Matcher>, v: Context, c: Matcher, e: int, seen: int, lim: nat, s: Slots)
    requires p.doc.Valid() && Sound(p, table, v, s) && -1 <= e < |p.doc.element| && c.Combinator?
  {
    Answered(v, lim, s) &&
    forall k :: k in s && s[k].run == v.run && s[k].id < lim && s[k].data == Miss(v.at) && Somewhere(p, table[s[k].id], k.0)
      ==> s[k].id == c.id && k.0 >= seen && FromHere(p, c, e)
  }

  /** The cached matcher agrees with the plain meaning whatever the settled slots hold, and a
      failing call leaves every combinator settled again. */
  lemma {:induction false} AnswerIsPlain(p: Page, table: map<nat, Matcher>, v: Context, m: Matcher, n: int, s: Slots, lim: nat)
    requires p.doc.Valid() && p.doc.Has(n) && !v.xml && Compiled(table, m) && IdsBelow(m, lim)
    requires Sound(p, table, v, s) && Settled(p, table, v, lim, s)
    ensures var (r, t) := Answer(p, v, m, n, s);
      && r == Plain(p, m, n)
      && Sound(p, table, v, t) && Answered(v, lim, t) && (!r ==> Settled(p, table, v, lim, t))
    decreases m, 1, 0
  {
    match m
    case Leaf(_) =>
    case All(parts) => AllIsPlain(p, table, v, m, |parts|, n, s, lim);
    case Combinator(dir, first, _, _, _) =>
      if first {
        NearestIsPlain(p, table, v, m, p.doc.Next(dir, n), s, lim);
      } else {
        WalkIsPlain(p, table, v, m, p.doc.Next(dir, n), s, lim);
      }
  }

  lemma {:induction false} AllIsPlain(p: Page, table: map<nat, Matcher>, v: Context, m: Matcher, i: nat, n: int, s: Slots, lim: nat)
    requires p.doc.Valid() && p.doc.Has(n) && !v.xml && Compiled(table, m) && IdsBelow(m, lim)
    requires m.All? && 0 < i <= |m.parts|
    requires Sound(p, table, v, s) && Settled(p, table, v, lim, s)
    ensures var (r, t) := AnswerAll(p, v, m, i, n, s);
      && r == (forall j :: 0 <= j < i ==> Plain(p, m.parts[j], n))
      && Sound(p, table, v, t) && Answered(v, lim, t) && (!r ==> Settled(p, table, v, lim, t))
    decreases m, 0, i
  {
    AnswerIsPlain(p, table, v, m.parts[i - 1], n, s, lim);
    var t := Answer(p, v, m.parts[i - 1], n, s).1;
    if i > 1 {
      assert t == s;
      AllIsPlain(p, table, v, m, i - 1, n, s, lim);
    } else {
      assert AnswerAll(p, v, m, 0, n, t) == (true, t);
    }
  }

  lemma {:induction false} NearestIsPlain(p: Page, table: map<nat, Matcher>, v: Context, c: Matcher, e: int, s: Slots, lim: nat)
    requires p.doc.Valid() && -1 <= e < |p.doc.element| && c.Combinator? && !v.xml && Compiled(table, c) && IdsBelow(c, lim)
    requires Sound(p, table, v, s) && Settled(p, table, v, lim, s)
    ensures var (r, t) := NearestFrom(p, v, c, e, s);
      && r == NearestHere(p, c, e)
      && Sound(p, table, v, t) && Answered(v, lim, t) && (!r ==> Settled(p, table, v, lim, t))
    decreases c, 0, e + 1
  {
    if e >= 0 {
      if p.Counts(c, e) {
        AnswerIsPlain(p, table, v, c.inner, e, s, lim);
      } else {
        NearestIsPlain(p, table, v, c, p.doc.Next(c.dir, e), s, lim);
      }
    }
  }

  lemma {:induction false} WalkIsPlain(p: Page, table: map<nat, Matcher>, v: Context, c: Matcher, e: int, s: Slots, lim: nat)
    requires p.doc.Valid() && -1 <= e < |p.doc.element| && c.Combinator? && !c.first && !v.xml
    requires Compiled(table, c) && IdsBelow(c, lim)
    requires Sound(p, table, v, s) && Walking(p, table, v, c, e, e + 1, lim, s)
    ensures var (r, t) := WalkFrom(p, v, c, e, s);
      && r == FromHere(p, c, e)
      && Sound(p, table, v, t) && Answered(v, lim, t) && (!r ==> Settled(p, table, v, lim, t))
    decreases c, 0, e + 1
  {
    if e >= 0 {
      var next := p.doc.Next(c.dir, e);
      if !p.Counts(c, e) {
        WalkIsPlain(p, table, v, c, next, s, lim);
      } else if Known(v, c, e, s) {
        assert Truthful(p, table, v, (e, c.dir), s[(e, c.dir)]);
        if s[(e, c.dir)].data.Miss? && s[(e, c.dir)].data != Miss(v.at) { WalkIsPlain(p, table, v, c, next, s, lim); }
      } else {
        ProbeIsPlain(p, table, v, c, e, s, lim);
        var (b, t) := Probed(p, v, c, e, s);
        if !b {
          assert FromHere(p, c, e) == FromHere(p, c, next);
          WalkIsPlain(p, table, v, c, next, t, lim);
        }
      }
    }
  }

  lemma {:induction false} ProbeIsPlain(p: Page, table: map<nat, Matcher>, v: Context, c: Matcher, e: int, s: Slots, lim: nat)
    requires p.doc.Valid() && p.doc.Has(e) && c.Combinator? && !c.first && !v.xml && p.Counts(c, e)
    requires Compiled(table, c) && IdsBelow(c, lim)
    requires Sound(p, table, v, s) && Walking(p, table, v, c, e, e + 1, lim, s)
    ensures var (b, t) := Probed(p, v, c, e, s);
      && b == Plain(p, c.inner, e)
      && Sound(p, table, v, t) && Answered(v, lim, t) && (!b ==> Walking(p, table, v, c, e, e, lim, t))
    decreases c.inner, 2, 0
  {
    var taken := s[(e, c.dir) := Slot(v.run, c.id, Pending)];
    assert Sound(p, table, v, taken) && Settled(p, table, v, c.id, taken);
    AnswerIsPlain(p, table, v, c.inner, e, taken, c.id);
    AnswerTouches(p, v, c.inner, e, taken, c.id);
  }

  // ----- when it does not: a filter -----

  /** A hit of the current run tells the truth; nothing is asked of a miss. */
  ghost predicate HitsSound(p: Page, table: map<nat, Matcher>, v: Context, s: Slots)
    requires p.doc.Valid()
  {
    forall k :: k in s && s[k].run == v.run && s[k].data.Hit? ==>
      && s[k].id in table && table[s[k].id].Combinator? && table[s[k].id].dir == k.1
      && p.doc.Has(k.0) && Plain(p, table[s[k].id].inner, k.0)
  }

  /** Whatever misses the slots hold, what the cached matcher accepts the plain one accepts. */
  lemma {:induction false} AcceptedIsPlain(p: Page, table: map<nat, Matcher>, v: Context, m: Matcher, n: int, s: Slots)
    requires p.doc.Valid() && p.doc.Has(n) && Compiled(table, m) && HitsSound(p, table, v, s)
    ensures var (r, t) := Answer(p, v, m, n, s); (r ==> Plain(p, m, n)) && HitsSound(p, table, v, t)
    decreases m, 1, 0
  {
    match m
    case Leaf(_) =>
    case All(parts) => AcceptedByAll(p, table, v, m, |parts|, n, s);
    case Combinator(dir, first, _, _, _) => AcceptedByWalk(p, table, v, m, p.doc.Next(dir, n), s);
  }

  lemma {:induction false} AcceptedByAll(p: Page, table: map<nat, Matcher>, v: Context, m: Matcher, i: nat, n: int, s: Slots)
    requires p.doc.Valid() && p.doc.Has(n) && Compiled(table, m) && m.All? && i <= |m.parts| && HitsSound(p, table, v, s)
    ensures var (r, t) := AnswerAll(p, v, m, i, n, s);
      (r ==> forall j :: 0 <= j < i ==> Plain(p, m.parts[j], n)) && HitsSound(p, table, v, t)
    decreases m, 0, i
  {
    if i > 0 {
      AcceptedIsPlain(p, table, v, m.parts[i - 1], n, s);
      AcceptedByAll(p, table, v, m, i - 1, n, Answer(p, v, m.parts[i - 1], n, s).1);
    }
  }

  lemma {:induction false} AcceptedByWalk(p: Page, table: map<nat, Matcher>, v: Context, c: Matcher, e: int, s: Slots)
    requires p.doc.Valid() && -1 <= e < |p.doc.element| && c.Combinator? && Compiled(table, c) && HitsSound(p, table, v, s)
    ensures var (r, t) := NearestFrom(p, v, c, e, s); (r ==> NearestHere(p, c, e)) && HitsSound(p, table, v, t)
    ensures var (r, t) := WalkFrom(p, v, c, e, s); (r ==> FromHere(p, c, e)) && HitsSound(p, table, v, t)
    decreases c, 0, e + 1
  {
    if e >= 0 {
      var next := p.doc.Next(c.dir, e);
      AcceptedIsPlain(p, table, v, c.inner, e, s);
      AcceptedByWalk(p, table, v, c, next, s);
      if p.Counts(c, e) && (v.xml || !Known(v, c, e, s)) {
        if !v.xml { AcceptedByProbe(p, table, v, c, e, s); }
        var t := (if v.xml then Answer(p, v, c.inner, e, s) else Probed(p, v, c, e, s)).1;
        AcceptedByWalk(p, table, v, c, next, t);
      }
    }
  }

  lemma {:induction false} AcceptedByProbe(p: Page, table: map<nat, Matcher>, v: Context, c: Matcher, e: int, s: Slots)
    requires p.doc.Valid() && p.doc.Has(e) && c.Combinator? && Compiled(table, c) && HitsSound(p, table, v, s)
    ensures var (b, t) := Probed(p, v, c, e, s); (b ==> Plain(p, c.inner, e)) && HitsSound(p, table, v, t)
    decreases c.inner, 2, 0
  {
    AcceptedIsPlain(p, table, v, c.inner, e, s[(e, c.dir) := Slot(v.run, c.id, Pending)]);
  }

  /** No combinator in m keeps answers. */
  ghost predicate AllFirst(m: Matcher) {
    match m
    case Leaf(_) => true
    case All(parts) => forall i :: 0 <= i < |parts| ==> AllFirst(parts[i])
    case Combinator(_, first, _, _, inner) => first && AllFirst(inner)
  }

  /** Then it answers plainly and stores nothing, whatever the slots hold. */
  lemma {:induction false} AnswerAllFirst(p: Page, v: Context, m: Matcher, n: int, s: Slots)
    requires p.doc.Valid() && p.doc.Has(n) && AllFirst(m)
    ensures Answer(p, v, m, n, s) == (Plain(p, m, n), s)
    decreases m, 1, 0
  {
    match m
    case Leaf(_) =>
    case All(parts) => AllAllFirst(p, v, m, |parts|, n, s);
    case Combinator(dir, _, _, _, _) => NearestAllFirst(p, v, m, p.doc.Next(dir, n), s);
  }

  lemma {:induction false} AllAllFirst(p: Page, v: Context, m: Matcher, i: nat, n: int, s: Slots)
    requires p.doc.Valid() && p.doc.Has(n) && AllFirst(m) && m.All? && i <= |m.parts|
    ensures AnswerAll(p, v, m, i, n, s) == (forall j :: 0 <= j < i ==> Plain(p, m.parts[j], n), s)
    decreases m, 0, i
  {
    if i > 0 {
      AnswerAllFirst(p, v, m.parts[i - 1], n, s);
      AllAllFirst(p, v, m, i - 1, n, s);
    }
  }

  lemma {:induction false} NearestAllFirst(p: Page, v: Context, c: Matcher, e: int, s: Slots)
    requires p.doc.Valid() && -1 <= e < |p.doc.element| && c.Combinator? && AllFirst(c)
    ensures NearestFrom(p, v, c, e, s) == (NearestHere(p, c, e), s)
    decreases c, 0, e + 1
  {
    if e >= 0 {
      if p.Counts(c, e) {
        AnswerAllFirst(p, v, c.inner, e, s);
      } else {
        NearestAllFirst(p, v, c, p.doc.Next(c.dir, e), s);
      }
    }
  }

  /** The answers of one matcher on elems in turn, cachedruns staying as it is. */
  function Answers(p: Page, v: Context, m: Matcher, elems: seq<int>, s: Slots): (r: (seq<bool>, Slots))
    requires p.doc.Valid() && forall i :: 0 <= i < |elems| ==> p.doc.Has(elems[i])
    ensures |r.0| == |elems|
  {
    if elems == [] then ([], s)
    else
      var (bs, t) := Answers(p, v, m, elems[..|elems| - 1], s);
      var (b, u) := Answer(p, v, m, elems[|elems| - 1], t);
      (bs + [b], u)
  }

  /** Every answer of a filter is yes only for elements that the plain matcher accepts. */
  lemma {:induction false} AnswersArePlain(p: Page, table: map<nat, Matcher>, v: Context, m: Matcher, elems: seq<int>, s: Slots)
    requires p.doc.Valid() && forall i :: 0 <= i < |elems| ==> p.doc.Has(elems[i])
    requires Compiled(table, m) && HitsSound(p, table, v, s)
    ensures var (bs, t) := Answers(p, v, m, elems, s);
      HitsSound(p, table, v, t) && forall i :: 0 <= i < |elems| && bs[i] ==> Plain(p, m, elems[i])
  {
    if elems != [] {
      AnswersArePlain(p, table, v, m, elems[..|elems| - 1], s);
      AcceptedIsPlain(p, table, v, m, elems[|elems| - 1], Answers(p, v, m, elems[..|elems| - 1], s).1);
    }
  }

  /** Slots of a run that has not begun say nothing. */
  lemma QuietIsSettled(p: Page, table: map<nat, Matcher>, v: Context, lim: nat, s: Slots)
    requires p.doc.Valid() && forall k :: k in s ==> s[k].run < v.run
    ensures Sound(p, table, v, s) && Settled(p, table, v, lim, s)
  {
  }

  /** When cachedruns moves on, no miss is one of the current element. */
  lemma NextElement(p: Page, table: map<nat, Matcher>, v: Context, lim: nat, s: Slots)
    requires p.doc.Valid() && Sound(p, table, v, s) && Answered(v, lim, s)
    ensures var w := v.(at := v.at + 1); Sound(p, table, w, s) && Settled(p, table, w, lim, s)
  {
    var w := v.(at := v.at + 1);
    forall k | k in s ensures Truthful(p, table, w, k, s[k]) { assert Truthful(p, table, v, k, s[k]); }
  }

  class Engine {
    var slots: Slots
    var dirruns: nat
    var cachedruns: nat

    constructor ()
      ensures slots == map[] && dirruns == 0
      ensures Quiet()
    {
      slots, dirruns, cachedruns := map[], 0, 0;
    }

    /** Run numbers only grow, so a slot cannot carry the number of a run to come. */
    ghost predicate Quiet()
      reads this
    {
      forall k :: k in slots ==> slots[k].run <= dirruns
    }

    /** The context of the calls to come. */
    function Now(xml: bool): Context
      reads this
    {
      Context(xml, dirruns, cachedruns)
    }

    /** Calls matcher m on node n. */
    method Match(page: Page, m: Matcher, n: int, xml: bool) returns (r: bool)
      requires page.doc.Valid() && page.doc.Has(n)
      modifies this`slots
      ensures (r, slots) == Answer(page, Now(xml), m, n, old(slots))
      decreases m, 1
    {
      match m
      case Leaf(t) => r := page.pass(t, n);
      case All(parts) =>
        var i := |parts|;
        while i > 0
          invariant 0 <= i <= |parts|
          invariant AnswerAll(page, Now(xml), m, |parts|, n, old(slots)) == AnswerAll(page, Now(xml), m, i, n, slots)
        {
          i := i - 1;
          var b := Match(page, parts[i], n, xml);
          if !b { return false; }
        }
        r := true;
      case Combinator(_, first, _, _, _) =>
        if first {
          r := MatchNearest(page, m, n, xml);
        } else if xml {
          r := WalkPlain(page, m, n);
        } else {
          r := WalkCached(page, m, n);
        }
    }

    method MatchNearest(page: Page, c: Matcher, n: int, xml: bool) returns (r: bool)
      requires page.doc.Valid() && page.doc.Has(n) && c.Combinator?
      modifies this`slots
      ensures (r, slots) == NearestFrom(page, Now(xml), c, page.doc.Next(c.dir, n), old(slots))
      decreases c, 0
    {
      var e := page.doc.Next(c.dir, n);
      while e >= 0
        invariant -1 <= e < n && slots == old(slots)
        invariant NearestFrom(page, Now(xml), c, page.doc.Next(c.dir, n), slots) == NearestFrom(page, Now(xml), c, e, slots)
      {
        if page.Counts(c, e) {
          r := Match(page, c.inner, e, xml);
          return;
        }
        e := page.doc.Next(c.dir, e);
      }
      r := false;
    }

    /** The branch for XML documents: nothing is stored. */
    method WalkPlain(page: Page, c: Matcher, n: int) returns (r: bool)
      requires page.doc.Valid() && page.doc.Has(n) && c.Combinator?
      modifies this`slots
      ensures (r, slots) == WalkFrom(page, Now(true), c, page.doc.Next(c.dir, n), old(slots))
      decreases c, 0
    {
      var e := page.doc.Next(c.dir, n);
      while e >= 0
        invariant -1 <= e < n
        invariant WalkFrom(page, Now(true), c, page.doc.Next(c.dir, n), old(slots)) == WalkFrom(page, Now(true), c, e, slots)
      {
        if page.Counts(c, e) {
          var b := Match(page, c.inner, e, true);
          if b { return true; }
        }
        e := page.doc.Next(c.dir, e);
      }
      r := false;
    }

    /** The caching branch. */
    method WalkCached(page: Page, c: Matcher, n: int) returns (r: bool)
      requires page.doc.Valid() && page.doc.Has(n) && c.Combinator?
      modifies this`slots
      ensures (r, slots) == WalkFrom(page, Now(false), c, page.doc.Next(c.dir, n), old(slots))
      decreases c, 0
    {
      var e := page.doc.Next(c.dir, n);
      while e >= 0
        invariant -1 <= e < n
        invariant WalkFrom(page, Now(false), c, page.doc.Next(c.dir, n), old(slots)) == WalkFrom(page, Now(false), c, e, slots)
      {
        if page.Counts(c, e) {
          var key := (e, c.dir);
          if key in slots && slots[key].run == dirruns && slots[key].id == c.id {
            var data := slots[key].data;
            if data.Hit? || data == Miss(cachedruns) {
              return data.Hit?;
            }
          } else {
            var b := Probe(page, c, e);
            if b { return true; }
          }
        }
        e := page.doc.Next(c.dir, e);
      }
      r := false;
    }

    /** Claims the slot of e for c, asks the inner matcher and stores its answer. */
    method Probe(page: Page, c: Matcher, e: int) returns (b: bool)
      requires page.doc.Valid() && page.doc.Has(e) && c.Combinator?
      modifies this`slots
      ensures (b, slots) == Probed(page, Now(false), c, e, old(slots))
      decreases c.inner, 2
    {
      var key := (e, c.dir);
      slots := slots[key := Slot(dirruns, c.id, Pending)];
      b := Match(page, c.inner, e, false);
      slots := slots[key := Slot(dirruns, c.id, if b then Hit else Miss(cachedruns))];
    }

    /** The calls that condense makes of a compiled filter: one per element, and cachedruns stays.
        What it accepts the plain matcher accepts, if the hits that it finds are true. */
    method Filter(page: Page, ghost table: map<nat, Matcher>, m: Matcher, elems: seq<int>, xml: bool) returns (accepted: seq<bool>)
      requires page.doc.Valid() && forall i :: 0 <= i < |elems| ==> page.doc.Has(elems[i])
      requires Compiled(table, m) && HitsSound(page, table, Now(xml), slots)
      modifies this`slots
      ensures (accepted, slots) == Answers(page, Now(xml), m, elems, old(slots))
      ensures HitsSound(page, table, Now(xml), slots)
      ensures forall i :: 0 <= i < |elems| && accepted[i] ==> Plain(page, m, elems[i])
    {
      AnswersArePlain(page, table, Now(xml), m, elems, slots);
      accepted := [];
      for i := 0 to |elems|
        invariant (accepted, slots) == Answers(page, Now(xml), m, elems[..i], old(slots))
      {
        var b := Match(page, m, elems[i], xml);
        accepted := accepted + [b];
        assert elems[..i + 1][..i] == elems[..i];
      }
      assert elems[..|elems|] == elems;
    }

    /** The element loop of one outermost run: each element is tried on the element matchers in
        turn, the first that accepts it puts it in the results.  The page may differ from that
        of earlier runs, whose slots are left in place. */
    method MatchElements(page: Page, ghost table: map<nat, Matcher>, elems: seq<int>, matchers: seq<Matcher>,
                         xml: bool, results: seq<int>, start: nat)
      returns (found: seq<int>, runs: nat)
      requires Quiet() && page.doc.Valid()
      requires forall i :: 0 <= i < |elems| ==> page.doc.Has(elems[i])
      requires forall i :: 0 <= i < |matchers| ==> Compiled(table, matchers[i])
      modifies this
      ensures Quiet() && runs == start + |elems| && HitsSound(page, table, Now(xml), slots)
      ensures found == results + Selected(page, elems, matchers)
      ensures xml ==> slots == old(slots)
    {
      dirruns, cachedruns := dirruns + 1, start;
      found := results;
      ghost var lim := TopId(All(matchers));
      QuietIsSettled(page, table, Now(xml), lim, slots);
      for i := 0 to |elems|
        invariant Sound(page, table, Now(xml), slots) && Settled(page, table, Now(xml), lim, slots)
        invariant Quiet() && cachedruns == start + i && (xml ==> slots == old(slots))
        invariant found == results + Selected(page, elems[..i], matchers)
      {
        var hit := MatchOne(page, table, elems[i], matchers, xml, lim);
        if hit { found := found + [elems[i]]; }
        NextElement(page, table, Now(xml), lim, slots);
        cachedruns := cachedruns + 1;
        assert elems[..i + 1][..i] == elems[..i];
      }
      runs := cachedruns;
      assert elems[..|elems|] == elems;
    }

    /** The loop over the element matchers. */
    method MatchOne(page: Page, ghost table: map<nat, Matcher>, elem: int, matchers: seq<Matcher>, xml: bool, ghost lim: nat)
      returns (hit: bool)
      requires Quiet() && page.doc.Valid() && page.doc.Has(elem)
      requires forall i :: 0 <= i < |matchers| ==> Compiled(table, matchers[i]) && IdsBelow(matchers[i], lim)
      requires Sound(page, table, Now(xml), slots) && Settled(page, table, Now(xml), lim, slots)
      modifies this`slots
      ensures Quiet() && hit == Accepted(page, matchers, elem)
      ensures Sound(page, table, Now(xml), slots) && Answered(Now(xml), lim, slots) && (xml ==> slots == old(slots))
    {
      var j := 0;
      while j < |matchers|
        invariant 0 <= j <= |matchers| && Quiet() && (xml ==> slots == old(slots))
        invariant Sound(page, table, Now(xml), slots) && Settled(page, table, Now(xml), lim, slots)
        invariant forall k :: 0 <= k < j ==> !Plain(page, matchers[k], elem)
      {
        MatchIsPlain(page, table, matchers[j], elem, xml, lim);
        hit := Match(page, matchers[j], elem, xml);
        if hit { return; }
        j := j + 1;
      }
      hit := false;
    }

    /** What a call of Match will answer and leave. */
    lemma MatchIsPlain(page: Page, table: map<nat, Matcher>, m: Matcher, n: int, xml: bool, lim: nat)
      requires Quiet() && page.doc.Valid() && page.doc.Has(n) && Compiled(table, m) && IdsBelow(m, lim)
      requires Sound(page, table, Now(xml), slots) && Settled(page, table, Now(xml), lim, slots)
      ensures var (r, t) := Answer(page, Now(xml), m, n, slots);
        && r == Plain(page, m, n) && (xml ==> t == slots) && (forall k :: k in t ==> t[k].run <= dirruns)
        && Sound(page, table, Now(xml), t) && Answered(Now(xml), lim, t) && (!r ==> Settled(page, table, Now(xml), lim, t))
    {
      if xml {
        AnswerXml(page, Now(xml), m, n, slots);
      } else {
        AnswerIsPlain(page, table, Now(xml), m, n, slots, lim);
        AnswerTouches(page, Now(xml), m, n, slots, lim);
      }
    }

    /** One outermost search without positional tokens: the groups are compiled from the last
        to the first, then the seed is filtered.  Whatever earlier searches left in the slots,
        exactly the seed elements that some group selects are appended, in seed order. */
    method Search(page: Page, groups: seq<seq<Token>>, roots: seq<Root>, seed: seq<int>, xml: bool,
                  results: seq<int>, start: nat)
      returns (found: seq<int>)
      requires Quiet() && page.doc.Valid()
      requires |roots| == |groups| && forall g :: 0 <= g < |groups| ==> |groups[g]| > 0
      requires forall i :: 0 <= i < |seed| ==> page.doc.Has(seed[i])
      modifies this
      ensures Quiet()
      ensures found == results + Chosen(page, seed, groups, roots)
      ensures xml ==> slots == old(slots)
    {
      var matchers: seq<Matcher>, done := [], 0;
      ghost var names: map<nat, Matcher> := map[];
      var i := |groups|;
      while i > 0
        modifies {}
        invariant 0 <= i <= |groups| && |matchers| == |groups| - i
        invariant forall k :: k in names ==> k < done
        invariant forall j :: 0 <= j < |matchers| ==> Compiled(names, matchers[j])
        invariant forall j :: 0 <= j < |matchers| ==>
          var g := |groups| - 1 - j;
          SameShape(matchers[j], Compound(groups[g], roots[g], |groups[g]|))
      {
        i := i - 1;
        ghost var before := names;
        var m;
        m, done, names := MatcherFromTokens(groups[i], roots[i], done, names);
        forall j | 0 <= j < |matchers| ensures Compiled(names, matchers[j]) {
          CompiledMonotone(before, names, matchers[j]);
        }
        matchers := matchers + [m];
      }
      var runs;
      found, runs := MatchElements(page, names, seed, matchers, xml, results, start);
      SelectedIsChosen(page, seed, matchers, groups, roots);
    }
  }

  ghost predicate Accepted(p: Page, matchers: seq<Matcher>, n: int)
    requires p.doc.Valid() && p.doc.Has(n)
  {
    exists k :: 0 <= k < |matchers| && Plain(p, matchers[k], n)
  }

  /** The elements some matcher accepts, in order, computed without any cache. */
  ghost function Selected(p: Page, elems: seq<int>, matchers: seq<Matcher>): seq<int>
    requires p.doc.Valid()
    requires forall i :: 0 <= i < |elems| ==> p.doc.Has(elems[i])
  {
    if elems == [] then []
    else
      var last := elems[|elems| - 1];
      Selected(p, elems[..|elems| - 1], matchers) + if Accepted(p, matchers, last) then [last] else []
  }

  ghost predicate SomeGroup(p: Page, groups: seq<seq<Token>>, roots: seq<Root>, n: int)
    requires p.doc.Valid() && p.doc.Has(n) && |roots| == |groups|
  {
    exists g :: 0 <= g < |groups| && Selects(p, groups[g], roots[g], |groups[g]|, n)
  }

  /** The elements that some group of tokens selects, in order. */
  ghost function Chosen(p: Page, elems: seq<int>, groups: seq<seq<Token>>, roots: seq<Root>): seq<int>
    requires p.doc.Valid() && |roots| == |groups|
    requires forall i :: 0 <= i < |elems| ==> p.doc.Has(elems[i])
  {
    if elems == [] then []
    else
      var last := elems[|elems| - 1];
      Chosen(p, elems[..|elems| - 1], groups, roots) + if SomeGroup(p, groups, roots, last) then [last] else []
  }

  lemma {:induction false} SelectedIsChosen(p: Page, elems: seq<int>, matchers: seq<Matcher>, groups: seq<seq<Token>>, roots: seq<Root>)
    requires p.doc.Valid() && |roots| == |groups| == |matchers|
    requires forall i :: 0 <= i < |elems| ==> p.doc.Has(elems[i])
    requires forall j :: 0 <= j < |matchers| ==>
      var g := |groups| - 1 - j;
      SameShape(matchers[j], Compound(groups[g], roots[g], |groups[g]|))
    ensures Selected(p, elems, matchers) == Chosen(p, elems, groups, roots)
  {
    if elems != [] {
      var n := elems[|elems| - 1];
      SelectedIsChosen(p, elems[..|elems| - 1], matchers, groups, roots);
      forall j | 0 <= j < |matchers|
        ensures var g := |groups| - 1 - j; Plain(p, matchers[j], n) == Selects(p, groups[g], roots[g], |groups[g]|, n)
      {
        var g := |groups| - 1 - j;
        SameShapeSameMeaning(p, matchers[j], Compound(groups[g], roots[g], |groups[g]|), n);
        CompoundSelects(p, groups[g], roots[g], |groups[g]|, n);
      }
      if SomeGroup(p, groups, roots, n) {
        var g :| 0 <= g < |groups| && Selects(p, groups[g], roots[g], |groups[g]|, n);
        assert Plain(p, matchers[|groups| - 1 - g], n);
      }
    }
  }

  ghost function TopId(m: Matcher): (lim: nat)
    ensures IdsBelow(m, lim)
  {
    match m
    case Leaf(_) => 0
    case All(parts) => TopIds(m, parts)
    case Combinator(_, _, _, id, inner) =>
      var t := TopId(inner);
      var lim := if id + 1 > t then id + 1 else t;
      IdsBelowMonotone(inner, t, lim);
      lim
  }

  ghost function TopIds(m: Matcher, parts: seq<Matcher>): (lim: nat)
    requires forall i :: 0 <= i < |parts| ==> parts[i] < m
    ensures forall i :: 0 <= i < |parts| ==> IdsBelow(parts[i], lim)
    decreases m, 0, |parts|
  {
    if parts == [] then 0
    else
      var t, u := TopId(parts[0]), TopIds(m, parts[1..]);
      var lim := if t > u then t else u;
      IdsBelowMonotone(parts[0], t, lim);
      assert forall i :: 0 <= i < |parts| ==> IdsBelow(parts[i], lim) by {
        forall i | 0 < i < |parts| ensures IdsBelow(parts[i], lim) {
          assert parts[i] == parts[1..][i - 1];
          IdsBelowMonotone(parts[i], u, lim);
        }
      }
      lim
  }
}
