/** The nth-child family of Expr.filter.CHILD with its position caches
    (src/main/webapp/javascript/jquery-1.10.2.js); section 6.6.5.2 of W3C Selectors Level 3. */
module NthChild {

  /** kids lists the child nodes of each parent; every node is a child in one place only. */
  datatype Doc = Doc(kids: map<nat, seq<nat>>, element: set<nat>, sameName: set<(nat, nat)>) {
    ghost predicate Valid() {
      forall p, q, i, j :: p in kids && q in kids && 0 <= i < |kids[p]| && 0 <= j < |kids[q]| && kids[p][i] == kids[q][j]
        ==> p == q && i == j
    }

    ghost predicate Child(p: nat, k: int, elem: nat) {
      p in kids && 0 <= k < |kids[p]| && kids[p][k] == elem && elem in element && (elem, elem) in sameName
    }
  }

  /** ofType ? node.nodeName === name : node.nodeType === 1 */
  predicate Counts(doc: Doc, elem: nat, ofType: bool, node: nat) {
    if ofType then (elem, node) in doc.sameName else node in doc.element
  }

  /** How many of the first n nodes count. */
  function Counted(doc: Doc, elem: nat, ofType: bool, nodes: seq<nat>, n: nat): nat
    requires n <= |nodes|
  {
    if n == 0 then 0
    else Counted(doc, elem, ofType, nodes, n - 1) + if Counts(doc, elem, ofType, nodes[n - 1]) then 1 else 0
  }

  function Reverse(nodes: seq<nat>): seq<nat> {
    seq(|nodes|, i requires 0 <= i < |nodes| => nodes[|nodes| - 1 - i])
  }

  /** The siblings of a parent in the direction of the search. */
  function Line(doc: Doc, p: nat, forward: bool): seq<nat>
    requires p in doc.kids
  {
    if forward then doc.kids[p] else Reverse(doc.kids[p])
  }

  /** The 1-based position of the k-th child among the siblings that count, from the first or
      from the last. */
  function Position(doc: Doc, p: nat, k: nat, ofType: bool, forward: bool): nat
    requires p in doc.kids && k < |doc.kids[p]|
  {
    var nodes := doc.kids[p];
    if forward then Counted(doc, nodes[k], ofType, nodes, k + 1)
    else Counted(doc, nodes[k], ofType, Reverse(nodes), |nodes| - k)
  }

  /** The places from lo to hi, hi excluded, of the siblings that count: with of-type those of the name
      of elem, otherwise the elements. */
  ghost function Places(doc: Doc, elem: nat, ofType: bool, nodes: seq<nat>, lo: nat, hi: nat): set<nat>
    requires hi <= |nodes|
  {
    set i: nat | lo <= i < hi && if ofType then (elem, nodes[i]) in doc.sameName else nodes[i] in doc.element
  }

  lemma LastPlace(doc: Doc, elem: nat, ofType: bool, nodes: seq<nat>, lo: nat, hi: nat)
    requires lo < hi <= |nodes|
    ensures |Places(doc, elem, ofType, nodes, lo, hi)|
         == |Places(doc, elem, ofType, nodes, lo, hi - 1)| + if Counts(doc, elem, ofType, nodes[hi - 1]) then 1 else 0
  {
    var all, front := Places(doc, elem, ofType, nodes, lo, hi), Places(doc, elem, ofType, nodes, lo, hi - 1);
    if Counts(doc, elem, ofType, nodes[hi - 1]) {
      assert all == front + {hi - 1};
    } else {
      assert all == front;
    }
  }

  lemma FirstPlace(doc: Doc, elem: nat, ofType: bool, nodes: seq<nat>, lo: nat, hi: nat)
    requires lo < hi <= |nodes|
    ensures |Places(doc, elem, ofType, nodes, lo, hi)|
         == |Places(doc, elem, ofType, nodes, lo + 1, hi)| + if Counts(doc, elem, ofType, nodes[lo]) then 1 else 0
  {
    var all, back := Places(doc, elem, ofType, nodes, lo, hi), Places(doc, elem, ofType, nodes, lo + 1, hi);
    if Counts(doc, elem, ofType, nodes[lo]) {
      assert all == back + {lo};
    } else {
      assert all == back;
    }
  }

  lemma {:induction false} CountedPlaces(doc: Doc, elem: nat, ofType: bool, nodes: seq<nat>, n: nat)
    requires n <= |nodes|
    ensures Counted(doc, elem, ofType, nodes, n) == |Places(doc, elem, ofType, nodes, 0, n)|
  {
    if n > 0 {
      CountedPlaces(doc, elem, ofType, nodes, n - 1);
      LastPlace(doc, elem, ofType, nodes, 0, n);
    }
  }

  lemma {:induction false} CountedBack(doc: Doc, elem: nat, ofType: bool, nodes: seq<nat>, n: nat)
    requires n <= |nodes|
    ensures Counted(doc, elem, ofType, Reverse(nodes), n) == |Places(doc, elem, ofType, nodes, |nodes| - n, |nodes|)|
  {
    if n > 0 {
      CountedBack(doc, elem, ofType, nodes, n - 1);
      FirstPlace(doc, elem, ofType, nodes, |nodes| - n, |nodes|);
    }
  }

  /** The position of a child is the number of siblings that count up to it, itself included, from the
      first or from the last. */
  lemma PositionMeans(doc: Doc, p: nat, k: nat, ofType: bool, forward: bool)
    requires p in doc.kids && k < |doc.kids[p]|
    ensures var nodes := doc.kids[p];
      Position(doc, p, k, ofType, forward)
      == |Places(doc, nodes[k], ofType, nodes, if forward then 0 else k, if forward then k + 1 else |nodes|)|
  {
    var nodes := doc.kids[p];
    CountedPlaces(doc, nodes[k], ofType, nodes, k + 1);
    CountedBack(doc, nodes[k], ofType, nodes, |nodes| - k);
  }

  /** an + b for some n >= 0, as the standard has it. */
  ghost predicate InCycle(position: int, a: int, b: int) {
    exists n: nat :: position == a * n + b
  }

  /** What the JavaScript operators on integers say: % is the remainder of the truncating
      division, and both % and / by zero give NaN, which compares false. */
  predicate RemainderIsZero(x: int, a: int) {
    a != 0 && (if x < 0 then -x else x) % (if a < 0 then -a else a) == 0
  }

  predicate QuotientNotNegative(x: int, a: int) {
    a != 0 && x as real / a as real >= 0.0
  }

  /** The last line of the filter. */
  predicate FinalTest(position: int, first: int, last: int) {
    var diff := position - last;
    diff == first || (RemainderIsZero(diff, first) && QuotientNotNegative(diff, first))
  }

  lemma QuotientSign(x: int, a: int)
    requires a != 0
    ensures QuotientNotNegative(x, a) <==> x == 0 || (x > 0 <==> a > 0)
  {
    var q := x as real / a as real;
    assert q * a as real == x as real;
    if q >= 0.0 && a > 0 { assert x as real >= 0.0; }
    if q >= 0.0 && a < 0 { assert x as real <= 0.0; }
    if q < 0.0 && a > 0 { assert x as real < 0.0; }
    if q < 0.0 && a < 0 { assert x as real > 0.0; }
  }

  lemma MultipleHasNoRemainder(n: int, m: int)
    requires m > 0
    ensures (m * n) % m == 0
  {
    var q, r := (m * n) / m, (m * n) % m;
    var d := n - q;
    assert m * d == r;
    assert d >= 1 ==> m * d >= m;
    assert d <= -1 ==> m * d <= -m;
  }

  /** The final test is membership in the cycle, for zero and negative first too. */
  lemma FinalTestIsCycle(position: int, first: int, last: int)
    ensures FinalTest(position, first, last) <==> InCycle(position, first, last)
  {
    var diff := position - last;
    if first == 0 {
      if InCycle(position, 0, last) {
        var n: nat :| position == 0 * n + last;
      }
      assert diff == 0 ==> position == 0 * 0 + last;
    } else {
      QuotientSign(diff, first);
      var x, a := if diff < 0 then -diff else diff, if first < 0 then -first else first;
      if InCycle(position, first, last) {
        var n: nat :| position == first * n + last;
        MultipleHasNoRemainder(n, a);
        SignedMultiple(first, n);
        assert x == a * n;
      }
      if diff == first {
        assert position == first * 1 + last;
      } else if FinalTest(position, first, last) {
        var n := x / a;
        assert x == a * n;
        SignedMultiple(first, n);
        assert position == first * n + last;
      }
    }
  }

  lemma SignedMultiple(first: int, n: nat)
    ensures first >= 0 ==> first * n >= 0
    ensures first < 0 ==> first * n <= 0 && first * n == -((-first) * n)
  {
  }

  // ----- the search -----

  /** [ dirruns, nodeIndex, diff ] on a parent. */
  datatype ParentSlot = ParentSlot(run: nat, nodeIndex: nat, diff: nat)

  /** [ dirruns, diff ] on a child. */
  datatype ChildSlot = ChildSlot(run: nat, diff: nat)

  /** nodes[k] is counted as number diff. */
  ghost predicate CountedAs(doc: Doc, elem: nat, ofType: bool, nodes: seq<nat>, k: nat, diff: nat) {
    k < |nodes| && diff == Counted(doc, elem, ofType, nodes, k + 1)
  }

  /** Without of-type the element asked about does not matter. */
  lemma {:induction false} CountedAlike(doc: Doc, e: nat, f: nat, nodes: seq<nat>, n: nat)
    requires n <= |nodes|
    ensures Counted(doc, e, false, nodes, n) == Counted(doc, f, false, nodes, n)
  {
    if n > 0 { CountedAlike(doc, e, f, nodes, n - 1); }
  }

  /** What the backward search stores on a node is its position from the last. */
  lemma SlotIsTrue(doc: Doc, p: nat, elem: nat, at: nat, diff: nat)
    requires doc.Valid() && p in doc.kids && CountedAs(doc, elem, false, Reverse(doc.kids[p]), at, diff)
    ensures forall q, k :: q in doc.kids && 0 <= k < |doc.kids[q]| && doc.kids[q][k] == Reverse(doc.kids[p])[at] ==>
      diff == Position(doc, q, k, false, false)
  {
    var nodes := doc.kids[p];
    var c := Reverse(nodes)[at];
    forall q, k | q in doc.kids && 0 <= k < |doc.kids[q]| && doc.kids[q][k] == c
      ensures diff == Position(doc, q, k, false, false)
    {
      assert nodes[|nodes| - 1 - at] == c;
      assert q == p && k == |nodes| - 1 - at;
      CountedAlike(doc, elem, c, Reverse(nodes), at + 1);
    }
  }

  class PositionCache {
    /** parent[ expando ][ "nth" ] and elem[ expando ][ "nth-last" ] */
    var parents: map<nat, ParentSlot>
    var children: map<nat, ChildSlot>
    var dirruns: nat

    constructor ()
      ensures forall doc: Doc :: Valid(doc)
    {
      parents, children, dirruns := map[], map[], 0;
      new;
    }

    /** Slots of the current run are true of the document; run numbers only grow. */
    ghost predicate Valid(doc: Doc)
      reads this
    {
      && (forall p :: p in parents ==> parents[p].run <= dirruns)
      && (forall c :: c in children ==> children[c].run <= dirruns)
      && (forall p :: p in parents && parents[p].run == dirruns && p in doc.kids ==>
            CountedAs(doc, 0, false, doc.kids[p], parents[p].nodeIndex, parents[p].diff))
      && (forall c :: c in children && children[c].run == dirruns ==>
            forall p, k :: p in doc.kids && 0 <= k < |doc.kids[p]| && doc.kids[p][k] == c && c in doc.element ==>
              children[c].diff == Position(doc, p, k, false, false))
    }

    /** The start of a run: the document may have changed since the last one. */
    method NewRun(doc: Doc)
      requires Quiet()
      modifies this`dirruns
      ensures Valid(doc) && dirruns == old(dirruns) + 1
    {
      dirruns := dirruns + 1;
    }

    ghost predicate Quiet()
      reads this
    {
      && (forall p :: p in parents ==> parents[p].run <= dirruns)
      && (forall c :: c in children ==> children[c].run <= dirruns)
    }

    /** The while loop from the position (node, nodeIndex, diff) on, or, with node < 0, from the
        start; it falls back to the start once.  Positions are indexes into the line of siblings
        in the direction of the search. */
    method Seek(doc: Doc, p: nat, ghost k: nat, elem: nat, ofType: bool, forward: bool, remember: bool,
                node0: int, nodeIndex0: nat, diff0: nat)
      returns (nodeIndex: nat, diff: nat)
      requires Valid(doc) && doc.Valid() && p in doc.kids && (remember ==> !forward && !ofType)
      requires doc.Child(p, if forward then k else |doc.kids[p]| - 1 - k, elem)
      requires node0 >= 0 ==> node0 == nodeIndex0 && CountedAs(doc, elem, ofType, Line(doc, p, forward), node0, diff0)
      requires -1 <= node0 < |Line(doc, p, forward)|
      modifies this`children
      ensures Valid(doc) && (!remember ==> children == old(children))
      ensures nodeIndex == k && diff == Counted(doc, elem, ofType, Line(doc, p, forward), k + 1)
    {
      var line := Line(doc, p, forward);
      var node, start := node0, true;
      nodeIndex, diff := nodeIndex0, diff0;
      assert line[k] == elem;
      while true
        invariant -1 <= node < |line|
        invariant node >= 0 ==> node == nodeIndex && CountedAs(doc, elem, ofType, line, node, diff)
        invariant !start ==> 0 <= node < k
        invariant Valid(doc) && (!remember ==> children == old(children))
        decreases start, |line| - node
      {
        nodeIndex := nodeIndex + 1;
        if node >= 0 && node + 1 < |line| {
          node := node + 1;
        } else {
          diff, nodeIndex := 0, 0;
          if !start { break; }
          start := false;
          node := 0;
        }
        if Counts(doc, elem, ofType, line[node]) {
          diff := diff + 1;
          if remember {
            SlotIsTrue(doc, p, elem, node, diff);
            children := children[line[node] := ChildSlot(dirruns, diff)];
          }
          if line[node] == elem {
            return;
          }
        }
      }
    }

    /** :nth-child, :nth-last-child, :nth-of-type and :nth-last-of-type on the k-th child of p.
        Whatever was asked before in this run, the answer is whether the true position lies in
        the cycle. */
    method Nth(doc: Doc, p: nat, ghost k: nat, elem: nat, ofType: bool, forward: bool, xml: bool, first: int, last: int)
      returns (r: bool)
      requires Valid(doc) && doc.Valid() && doc.Child(p, k, elem)
      modifies this`parents, this`children
      ensures Valid(doc)
      ensures r <==> InCycle(Position(doc, p, k, ofType, forward), first, last)
      ensures xml ==> parents == old(parents) && children == old(children)
    {
      if first == 1 && last == 0 {
        assert Position(doc, p, k, ofType, forward) == 1 * Position(doc, p, k, ofType, forward) + 0;
        return true;
      }
      var useCache := !xml && !ofType;
      var diff, nodeIndex;
      if forward && useCache {
        diff := SeekFromParentCache(doc, p, k, elem);
      } else if useCache && elem in children && children[elem].run == dirruns {
        diff := children[elem].diff;
      } else {
        ghost var at := if forward then k else |doc.kids[p]| - 1 - k;
        nodeIndex, diff := Seek(doc, p, at, elem, ofType, forward, useCache, -1, 0, 0);
      }
      FinalTestIsCycle(diff, first, last);
      r := FinalTest(diff, first, last);
    }

    /** The branch that resumes at the index cached on the parent and caches the new one there. */
    method SeekFromParentCache(doc: Doc, p: nat, ghost k: nat, elem: nat) returns (diff: nat)
      requires Valid(doc) && doc.Valid() && doc.Child(p, k, elem)
      modifies this`parents, this`children
      ensures Valid(doc) && children == old(children)
      ensures diff == Position(doc, p, k, false, true)
    {
      var nodeIndex: nat, node: int := 0, -1;
      diff := 0;
      if p in parents && parents[p].run == dirruns {
        nodeIndex, diff := parents[p].nodeIndex, parents[p].diff;
        if nodeIndex != 0 { node := nodeIndex; }
        CountedAlike(doc, 0, elem, doc.kids[p], nodeIndex + 1);
      }
      nodeIndex, diff := Seek(doc, p, k, elem, false, true, false, node, nodeIndex, diff);
      CountedAlike(doc, 0, elem, doc.kids[p], k + 1);
      parents := parents[p := ParentSlot(dirruns, nodeIndex, diff)];
    }
  }
}
