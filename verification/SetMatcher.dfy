/** Sizzle's set matchers and the matching of a whole seed by element and set matchers
    (src/main/webapp/javascript/jquery-1.10.2.js).

    A set matcher moves entries between two parallel arrays.  Array positions that hold false or
    undefined, and positions past the end of a shorter array, are all Gone. */
module SetMatchers {
  import opened Basics

  datatype Cell = Gone | Node(id: nat)

  /** By name: the answers of element matchers, one call per element and cachedruns moving on; what
      a filter answers for entry i when condense calls it on the nodes of a list in turn, which may
      depend on the calls before (PreFilters); and the index lists of positional pseudos. */
  datatype Env = Env(pass: (nat, nat) -> bool, accepts: (nat, seq<Cell>, nat) -> bool, indexes: (nat, nat) -> seq<int>)

  /** Filter f answers for the element alone. */
  ghost predicate Stateless(env: Env, f: nat) {
    forall xs: seq<Cell>, i: nat :: i < |xs| && xs[i].Node? ==> env.accepts(f, xs, i) == env.pass(f, xs[i].id)
  }

  /** setMatcher( pre, _, pos, post ): at least one of pre and pos; post only with pos. */
  datatype SetMatcher = SetMatcher(pre: Option<nat>, pos: Option<nat>, post: Option<SetMatcher>)
  {
    predicate Made() {
      (pre.Some? || pos.Some?) && (post.Some? ==> pos.Some? && post.value.Made())
    }
  }

  /** setMatcher( postFilter ) around an element matcher. */
  function Wrapped(test: nat): SetMatcher { SetMatcher(Some(test), None, None) }

  // ----- pure counterparts -----

  function Blank(n: nat): seq<Cell> { seq(n, _ => Gone) }

  predicate Passes(env: Env, test: Option<nat>, xs: seq<Cell>, i: nat)
    requires i < |xs|
  {
    xs[i].Node? && (test.Some? ==> env.accepts(test.value, xs, i))
  }

  /** The positions below n of entries that pass, ascending: the map that condense builds. */
  function Live(env: Env, xs: seq<Cell>, test: Option<nat>, n: nat): (idx: seq<nat>)
    requires n <= |xs|
    ensures forall k :: 0 <= k < |idx| ==> idx[k] < n
  {
    if n == 0 then []
    else if Passes(env, test, xs, n - 1) then Live(env, xs, test, n - 1) + [n - 1]
    else Live(env, xs, test, n - 1)
  }

  function Gather(xs: seq<Cell>, idx: seq<nat>): seq<Cell>
    requires forall k :: 0 <= k < |idx| ==> idx[k] < |xs|
  {
    seq(|idx|, k requires 0 <= k < |idx| => xs[idx[k]])
  }

  /** from without the positions in moved, and onto with them taken over from from. */
  function Leave(from: seq<Cell>, moved: set<nat>): seq<Cell> {
    seq(|from|, i requires 0 <= i < |from| => if i in moved then Gone else from[i])
  }

  function Arrive(from: seq<Cell>, onto: seq<Cell>, moved: set<nat>): seq<Cell>
    requires |from| == |onto|
  {
    seq(|from|, i requires 0 <= i < |from| => if i in moved then from[i] else onto[i])
  }

  /** Where a positional pseudo matches. */
  function Hits(env: Env, pos: nat, xs: seq<Cell>): set<nat> {
    set j | j in env.indexes(pos, |xs|) && 0 <= j < |xs| && xs[j].Node?
  }

  /** The positions of out that a post-filter does not let through. */
  function Failing(env: Env, post: Option<SetMatcher>, out: seq<Cell>): set<nat>
    requires post.Some? ==> post.value.Made()
    decreases post, 1
  {
    match post
    case None => {}
    case Some(sm) =>
      var preMap := Live(env, out, None, |out|);
      var temp := Gather(out, preMap);
      var left := Outcome(env, sm, temp, Blank(|temp|)).0;
      set k | 0 <= k < |temp| && left[k].Node? :: preMap[k]
  }

  /** The seed and results that a set matcher leaves. */
  function Outcome(env: Env, sm: SetMatcher, seed: seq<Cell>, results: seq<Cell>): (r: (seq<Cell>, seq<Cell>))
    requires sm.Made() && |results| == |seed|
    ensures |r.0| == |r.1| == |seed|
    decreases sm, 0
  {
    if sm.pre.Some? then
      var preMap := Live(env, seed, sm.pre, |seed|);
      var input := Gather(seed, preMap);
      var output := if sm.pos.Some? then Arrive(input, Blank(|input|), Hits(env, sm.pos.value, input)) else input;
      var kept := Leave(output, Failing(env, sm.post, output));
      var moved := set k | 0 <= k < |kept| && kept[k].Node? :: preMap[k];
      (Leave(seed, moved), Arrive(seed, results, moved))
    else
      var hits := Hits(env, sm.pos.value, seed);
      var input, output := Leave(seed, hits), Arrive(seed, results, hits);
      var back := Failing(env, sm.post, output);
      (Arrive(output, input, back), Leave(output, back))
  }

  // ----- the methods -----

  class Cells {
    var a: seq<Cell>

    constructor (a: seq<Cell>)
      ensures this.a == a
    {
      this.a := a;
    }
  }

  method Condense(env: Env, unmatched: Cells, filter: Option<nat>) returns (condensed: Cells, preMap: seq<nat>)
    ensures fresh(condensed)
    ensures preMap == Live(env, unmatched.a, filter, |unmatched.a|)
    ensures condensed.a == Gather(unmatched.a, preMap)
  {
    var newUnmatched: seq<Cell> := [];
    preMap := [];
    var i := 0;
    while i < |unmatched.a|
      invariant 0 <= i <= |unmatched.a|
      invariant preMap == Live(env, unmatched.a, filter, i) && newUnmatched == Gather(unmatched.a, preMap)
    {
      var elem := unmatched.a[i];
      if elem.Node? && (filter.None? || env.accepts(filter.value, unmatched.a, i)) {
        newUnmatched := newUnmatched + [elem];
        preMap := preMap + [i];
      }
      i := i + 1;
    }
    condensed := new Cells(newUnmatched);
  }

  /** createPositionalPseudo: seed and matches may not be one array. */
  method Positional(env: Env, pos: nat, seed: Cells, matches: Cells)
    requires seed != matches && |seed.a| == |matches.a|
    modifies seed, matches
    ensures var hits := Hits(env, pos, old(seed.a));
      seed.a == Leave(old(seed.a), hits) && matches.a == Arrive(old(seed.a), old(matches.a), hits)
  {
    var matchIndexes := env.indexes(pos, |seed.a|);
    var i := |matchIndexes|;
    ghost var was := seed.a;
    ghost var done: set<nat> := {};
    while i > 0
      invariant 0 <= i <= |matchIndexes|
      invariant done == set j | j in matchIndexes[i..] && 0 <= j < |was| && was[j].Node?
      invariant seed.a == Leave(was, done) && matches.a == Arrive(was, old(matches.a), done)
    {
      i := i - 1;
      var j := matchIndexes[i];
      assert matchIndexes[i..] == [j] + matchIndexes[i + 1..];
      if 0 <= j < |seed.a| && seed.a[j].Node? {
        matches.a := matches.a[j := seed.a[j]];
        seed.a := seed.a[j := Gone];
        done := done + {j};
      }
    }
    assert matchIndexes[0..] == matchIndexes;
  }

  /** The function that setMatcher returns, called with a seed.  Without a pre-filter the
      matcher works on seed and results themselves. */
  method Apply(env: Env, sm: SetMatcher, seed: Cells, results: Cells)
    requires sm.Made() && seed != results && |seed.a| == |results.a|
    modifies seed, results
    ensures (seed.a, results.a) == Outcome(env, sm, old(seed.a), old(results.a))
    decreases sm, 0
  {
    var matcherIn, matcherOut, preMap := seed, seed, [];
    if sm.pre.Some? {
      matcherIn, preMap := Condense(env, seed, sm.pre);
      if sm.pos.Some? {
        matcherOut := new Cells(Blank(|matcherIn.a|));
      } else {
        matcherOut := matcherIn;
      }
    } else {
      matcherOut := results;
    }
    if sm.pos.Some? {
      Positional(env, sm.pos.value, matcherIn, matcherOut);
    }
    if sm.post.Some? {
      PostFilter(env, sm.post.value, matcherIn, matcherOut);
    } else {
      assert Leave(matcherOut.a, {}) == matcherOut.a;
      assert |matcherIn.a| == |matcherOut.a| && Arrive(matcherOut.a, matcherIn.a, {}) == matcherIn.a;
    }
    if sm.pre.Some? {
      MoveMatched(matcherOut, preMap, seed, results);
    }
  }

  /** The block that applies postFilter and puts failing elements back. */
  method PostFilter(env: Env, post: SetMatcher, matcherIn: Cells, matcherOut: Cells)
    requires post.Made() && matcherIn != matcherOut && |matcherIn.a| == |matcherOut.a|
    modifies matcherIn, matcherOut
    ensures var out := old(matcherOut.a);
      var back := Failing(env, Some(post), out);
      matcherIn.a == Arrive(out, old(matcherIn.a), back) && matcherOut.a == Leave(out, back)
    decreases post, 1
  {
    var temp, postMap := Condense(env, matcherOut, None);
    var matches := new Cells(Blank(|temp.a|));
    LeftIsOld(env, post, temp.a);
    Apply(env, post, temp, matches);
    MoveMatched(temp, postMap, matcherOut, matcherIn);
  }

  /** The loop that moves the entries of matcherOut from seed to results through preMap; the one
      that un-matches failing elements through postMap is the same with other arrays. */
  method MoveMatched(matcherOut: Cells, preMap: seq<nat>, seed: Cells, results: Cells)
    requires seed != results && matcherOut != seed && matcherOut != results
    requires |seed.a| == |results.a| && |preMap| == |matcherOut.a|
    requires forall k :: 0 <= k < |preMap| ==> preMap[k] < |seed.a|
    requires forall k :: 0 <= k < |preMap| && matcherOut.a[k].Node? ==> matcherOut.a[k] == seed.a[preMap[k]]
    modifies seed, results
    ensures var moved := set k | 0 <= k < |preMap| && matcherOut.a[k].Node? :: preMap[k];
      seed.a == Leave(old(seed.a), moved) && results.a == Arrive(old(seed.a), old(results.a), moved)
  {
    ghost var was, onto := seed.a, results.a;
    ghost var moved: set<nat> := {};
    var i := |matcherOut.a|;
    while i > 0
      modifies seed, results
      invariant 0 <= i <= |matcherOut.a|
      invariant moved == set k | i <= k < |preMap| && matcherOut.a[k].Node? :: preMap[k]
      invariant seed.a == Leave(was, moved) && results.a == Arrive(was, onto, moved)
    {
      i := i - 1;
      var elem := matcherOut.a[i];
      if elem.Node? {
        var temp := preMap[i];
        results.a := results.a[temp := elem];
        seed.a := seed.a[temp := Gone];
        moved := moved + {temp};
      }
    }
  }

  /** What is left in the seed was there before. */
  lemma LeftIsOld(env: Env, sm: SetMatcher, seed: seq<Cell>)
    requires sm.Made()
    ensures var left := Outcome(env, sm, seed, Blank(|seed|)).0;
      forall i :: 0 <= i < |seed| ==> left[i] == Gone || left[i] == seed[i]
  {
  }

  // ----- which entries a set matcher means to pick -----

  /** How many entries before i pass the test: i's index in the condensed list. */
  function Rank(env: Env, xs: seq<Cell>, test: Option<nat>, i: nat): nat
    requires i <= |xs|
  {
    |Live(env, xs, test, i)|
  }

  /** Entry i passes the pre-filter and stands, among those that do, where pos says. */
  predicate Placed(env: Env, sm: SetMatcher, seed: seq<Cell>, i: nat)
    requires i < |seed|
  {
    && Passes(env, sm.pre, seed, i)
    && (sm.pos.Some? ==>
          if sm.pre.Some? then Rank(env, seed, sm.pre, i) in env.indexes(sm.pos.value, Rank(env, seed, sm.pre, |seed|))
          else i in env.indexes(sm.pos.value, |seed|))
  }

  function Stage(env: Env, sm: SetMatcher, seed: seq<Cell>): seq<Cell> {
    seq(|seed|, i requires 0 <= i < |seed| => if Placed(env, sm, seed, i) then seed[i] else Gone)
  }

  function Compact(env: Env, xs: seq<Cell>): seq<Cell> { Gather(xs, Live(env, xs, None, |xs|)) }

  /** Entry i is picked: it is placed and, in the list of the placed ones, the post-filter picks
      it. */
  predicate Picked(env: Env, sm: SetMatcher, seed: seq<Cell>, i: nat)
    requires i < |seed|
    decreases sm
  {
    Placed(env, sm, seed, i) &&
    match sm.post
    case None => true
    case Some(post) =>
      var stage := Stage(env, sm, seed);
      LiveRank(env, stage, None, i);
      Picked(env, post, Compact(env, stage), Rank(env, stage, None, i))
  }

  function PickedSet(env: Env, sm: SetMatcher, seed: seq<Cell>): set<nat> {
    set i | 0 <= i < |seed| && Picked(env, sm, seed, i)
  }

  /** A passing entry is found in the condensed list at its rank. */
  lemma {:induction false} LiveRank(env: Env, xs: seq<Cell>, test: Option<nat>, i: nat)
    requires i < |xs| && Passes(env, test, xs, i)
    ensures Rank(env, xs, test, i) < Rank(env, xs, test, |xs|)
    ensures Live(env, xs, test, |xs|)[Rank(env, xs, test, i)] == i
  {
    LiveRankUpTo(env, xs, test, i, |xs|);
  }

  lemma {:induction false} LiveRankUpTo(env: Env, xs: seq<Cell>, test: Option<nat>, i: nat, n: nat)
    requires i < n <= |xs| && Passes(env, test, xs, i)
    ensures Rank(env, xs, test, i) < Rank(env, xs, test, n)
    ensures Live(env, xs, test, n)[Rank(env, xs, test, i)] == i
    decreases n
  {
    if i < n - 1 { LiveRankUpTo(env, xs, test, i, n - 1); }
  }

  /** Every entry of the condensed list passes, and its index is its rank. */
  lemma {:induction false} RankLive(env: Env, xs: seq<Cell>, test: Option<nat>, n: nat, k: nat)
    requires n <= |xs| && k < Rank(env, xs, test, n)
    ensures var i := Live(env, xs, test, n)[k]; Passes(env, test, xs, i) && Rank(env, xs, test, i) == k
  {
    if k < Rank(env, xs, test, n - 1) { RankLive(env, xs, test, n - 1, k); }
  }

  lemma GatherStep(env: Env, xs: seq<Cell>, n: nat)
    requires 0 < n <= |xs|
    ensures Gather(xs, Live(env, xs, None, n))
         == Gather(xs, Live(env, xs, None, n - 1)) + if xs[n - 1].Node? then [xs[n - 1]] else []
  {
  }

  /** Condensing after filtering gives the same list and ranks as filtering the condensed list:
      out is seen through the map of test, wide is it laid out over xs. */
  lemma {:induction false} CondenseThrough(env: Env, xs: seq<Cell>, test: Option<nat>, out: seq<Cell>, wide: seq<Cell>, n: nat)
    requires n <= |xs| == |wide| && |out| == Rank(env, xs, test, |xs|)
    requires forall i :: 0 <= i < |xs| && !Passes(env, test, xs, i) ==> wide[i] == Gone
    requires forall i :: 0 <= i < |xs| && Passes(env, test, xs, i) ==>
      Rank(env, xs, test, i) < |out| && wide[i] == out[Rank(env, xs, test, i)]
    ensures Rank(env, xs, test, n) <= |out|
    ensures Rank(env, wide, None, n) == Rank(env, out, None, Rank(env, xs, test, n))
    ensures Gather(wide, Live(env, wide, None, n)) == Gather(out, Live(env, out, None, Rank(env, xs, test, n)))
  {
    if n > 0 {
      CondenseThrough(env, xs, test, out, wide, n - 1);
      var r := Rank(env, xs, test, n - 1);
      if Passes(env, test, xs, n - 1) {
        assert wide[n - 1] == out[r];
        GatherStep(env, wide, n);
        GatherStep(env, out, r + 1);
      }
    }
  }

  /** The outcome when a set matcher does what it is for: the picked entries move. */
  ghost predicate Ideal(env: Env, sm: SetMatcher, seed: seq<Cell>, results: seq<Cell>)
    requires sm.Made() && |results| == |seed|
  {
    var picked := PickedSet(env, sm, seed);
    Outcome(env, sm, seed, results) == (Leave(seed, picked), Arrive(seed, results, picked))
  }

  /** Outcome with a pre-filter, in the condensed list: entry k moves if it is hit and not failed. */
  lemma {:induction false} PickedThroughPre(env: Env, sm: SetMatcher, seed: seq<Cell>, i: nat)
    requires sm.Made() && sm.pre.Some? && i < |seed| && Passes(env, sm.pre, seed, i)
    ensures var preMap := Live(env, seed, sm.pre, |seed|);
      var input := Gather(seed, preMap);
      var output := if sm.pos.Some? then Arrive(input, Blank(|input|), Hits(env, sm.pos.value, input)) else input;
      var k := Rank(env, seed, sm.pre, i);
      k < |input| && (Picked(env, sm, seed, i) <==> output[k].Node? && k !in Failing(env, sm.post, output))
    decreases sm, 0
  {
    var preMap := Live(env, seed, sm.pre, |seed|);
    var input := Gather(seed, preMap);
    var output := if sm.pos.Some? then Arrive(input, Blank(|input|), Hits(env, sm.pos.value, input)) else input;
    var k := Rank(env, seed, sm.pre, i);
    LiveRank(env, seed, sm.pre, i);
    if sm.post.Some? {
      var stage := Stage(env, sm, seed);
      forall j | 0 <= j < |seed| && Passes(env, sm.pre, seed, j)
        ensures Rank(env, seed, sm.pre, j) < |output| && stage[j] == output[Rank(env, seed, sm.pre, j)]
      {
        LiveRank(env, seed, sm.pre, j);
      }
      CondenseThrough(env, seed, sm.pre, output, stage, |seed|);
      CondenseThrough(env, seed, sm.pre, output, stage, i);
      if output[k].Node? {
        LiveRank(env, stage, None, i);
        FailingIsUnpicked(env, sm.post.value, output, k);
      }
    }
  }

  /** The post-filter fails exactly the entries that, as a set matcher on the condensed list, it
      does not pick. */
  lemma {:induction false} FailingIsUnpicked(env: Env, post: SetMatcher, out: seq<Cell>, k: nat)
    requires post.Made() && k < |out| && out[k].Node?
    ensures Rank(env, out, None, k) < |Compact(env, out)|
    ensures k in Failing(env, Some(post), out) <==> !Picked(env, post, Compact(env, out), Rank(env, out, None, k))
    decreases post, 3
  {
    var preMap := Live(env, out, None, |out|);
    var temp := Gather(out, preMap);
    LiveRank(env, out, None, k);
    forall j | 0 <= j < |preMap| ensures Rank(env, out, None, preMap[j]) == j && out[preMap[j]].Node? {
      RankLive(env, out, None, |out|, j);
    }
    CleanOutcome(env, post, temp, Blank(|temp|));
    var r := Rank(env, out, None, k);
    var left := Outcome(env, post, temp, Blank(|temp|)).0;
    assert left[r].Node? <==> !Picked(env, post, temp, r);
    assert preMap[r] == k;
  }

  lemma FailingLive(env: Env, post: SetMatcher, out: seq<Cell>)
    requires post.Made()
    ensures forall k :: k in Failing(env, Some(post), out) ==> k < |out| && out[k].Node?
  {
    var preMap := Live(env, out, None, |out|);
    forall k | 0 <= k < |preMap| ensures out[preMap[k]].Node? { RankLive(env, out, None, |out|, k); }
  }

  /** A set matcher with a pre-filter, or without a post-filter, or given results that are still
      empty, moves exactly the entries it picks, each to its own index, and nothing else. */
  lemma {:induction false} CleanOutcome(env: Env, sm: SetMatcher, seed: seq<Cell>, results: seq<Cell>)
    requires sm.Made() && |results| == |seed|
    requires sm.pre.Some? || sm.post.None? || results == Blank(|seed|)
    ensures Ideal(env, sm, seed, results)
    decreases sm, 2
  {
    if sm.pre.Some? {
      CleanWithPre(env, sm, seed, results);
    } else {
      CleanWithoutPre(env, sm, seed, results);
    }
  }

  lemma {:induction false} CleanWithPre(env: Env, sm: SetMatcher, seed: seq<Cell>, results: seq<Cell>)
    requires sm.Made() && |results| == |seed| && sm.pre.Some?
    ensures Ideal(env, sm, seed, results)
    decreases sm, 1, 1
  {
    var preMap := Live(env, seed, sm.pre, |seed|);
    var input := Gather(seed, preMap);
    var output := if sm.pos.Some? then Arrive(input, Blank(|input|), Hits(env, sm.pos.value, input)) else input;
    var kept := Leave(output, Failing(env, sm.post, output));
    var moved := set k | 0 <= k < |kept| && kept[k].Node? :: preMap[k];
    forall k | 0 <= k < |kept| ensures Passes(env, sm.pre, seed, preMap[k]) && Rank(env, seed, sm.pre, preMap[k]) == k {
      RankLive(env, seed, sm.pre, |seed|, k);
    }
    forall i | 0 <= i < |seed| ensures i in moved <==> Picked(env, sm, seed, i) {
      if Passes(env, sm.pre, seed, i) {
        LiveRank(env, seed, sm.pre, i);
        PickedThroughPre(env, sm, seed, i);
        var k := Rank(env, seed, sm.pre, i);
        assert preMap[k] == i;
      }
    }
    assert moved == PickedSet(env, sm, seed);
  }

  lemma {:induction false} CleanWithoutPre(env: Env, sm: SetMatcher, seed: seq<Cell>, results: seq<Cell>)
    requires sm.Made() && |results| == |seed| && sm.pre.None?
    requires sm.post.None? || results == Blank(|seed|)
    ensures Ideal(env, sm, seed, results)
    decreases sm, 1, 1
  {
    var hits := Hits(env, sm.pos.value, seed);
    var output := Arrive(seed, results, hits);
    var stage := Stage(env, sm, seed);
    var back := Failing(env, sm.post, output);
    if sm.post.Some? {
      assert output == stage;
      FailingLive(env, sm.post.value, output);
    }
    forall i | 0 <= i < |seed| ensures i in hits && i !in back <==> Picked(env, sm, seed, i) {
      if sm.post.Some? && i in hits {
        LiveRank(env, stage, None, i);
        FailingIsUnpicked(env, sm.post.value, stage, i);
      }
    }
    var picked := PickedSet(env, sm, seed);
    assert Arrive(output, Leave(seed, hits), back) == Leave(seed, picked);
    assert Leave(output, back) == Arrive(seed, results, picked);
  }

  // ----- the case in between: results that already hold matches -----

  /** At each index at most one of the two arrays holds an entry. */
  ghost predicate Apart(seed: seq<Cell>, results: seq<Cell>) {
    |seed| == |results| && forall i :: 0 <= i < |seed| ==> seed[i] == Gone || results[i] == Gone
  }

  function Both(seed: seq<Cell>, results: seq<Cell>, i: nat): Cell
    requires i < |seed| == |results|
  {
    if seed[i].Node? then seed[i] else results[i]
  }

  /** Whatever is moved where, nothing is lost, nothing appears, and no entry changes its index. */
  lemma NothingLost(env: Env, sm: SetMatcher, seed: seq<Cell>, results: seq<Cell>)
    requires sm.Made() && Apart(seed, results)
    ensures var (s, r) := Outcome(env, sm, seed, results);
      Apart(s, r) && forall i :: 0 <= i < |seed| ==> Both(s, r, i) == Both(seed, results, i)
  {
    var (s, r) := Outcome(env, sm, seed, results);
    if sm.pre.None? {
      var output := Arrive(seed, results, Hits(env, sm.pos.value, seed));
      if sm.post.Some? { FailingLive(env, sm.post.value, output); }
    } else {
      var preMap := Live(env, seed, sm.pre, |seed|);
      forall k | 0 <= k < |preMap| ensures seed[preMap[k]].Node? { RankLive(env, seed, sm.pre, |seed|, k); }
    }
    forall i | 0 <= i < |seed| ensures (s[i] == Gone || r[i] == Gone) && Both(s, r, i) == Both(seed, results, i) {
    }
  }

  /** Entry i of out is let through by the post-filter when it is given all of out. */
  predicate LetThrough(env: Env, post: SetMatcher, out: seq<Cell>, i: nat)
    requires i < |out| && out[i].Node?
  {
    LiveRank(env, out, None, i);
    Picked(env, post, Compact(env, out), Rank(env, out, None, i))
  }

  /** Without a pre-filter, a post-filter is given the new hits and the earlier matches in one
      list.  It does right by both when each earlier match is let through in that list, and each
      hit is exactly if it would be among the hits alone. */
  predicate SparesEarlier(env: Env, sm: SetMatcher, seed: seq<Cell>, results: seq<Cell>)
    requires sm.Made() && |results| == |seed|
  {
    sm.pre.None? && sm.post.Some? ==>
      var hits := Hits(env, sm.pos.value, seed);
      var out := Arrive(seed, results, hits);
      forall i :: 0 <= i < |out| && out[i].Node? ==>
        (LetThrough(env, sm.post.value, out, i) <==> (i in hits ==> Picked(env, sm, seed, i)))
  }

  /** For every set matcher and any earlier matches: the picked entries move and nothing else
      happens if and only if the post-filter spares the earlier matches. */
  lemma EarlierMatchesIff(env: Env, sm: SetMatcher, seed: seq<Cell>, results: seq<Cell>)
    requires sm.Made() && Apart(seed, results)
    ensures Ideal(env, sm, seed, results) <==> SparesEarlier(env, sm, seed, results)
  {
    if sm.pre.Some? || sm.post.None? {
      CleanOutcome(env, sm, seed, results);
    } else {
      PooledIff(env, sm, seed, results);
    }
  }

  lemma PooledIff(env: Env, sm: SetMatcher, seed: seq<Cell>, results: seq<Cell>)
    requires sm.Made() && Apart(seed, results) && sm.pre.None? && sm.post.Some?
    ensures Ideal(env, sm, seed, results) <==> SparesEarlier(env, sm, seed, results)
  {
    var hits, picked := Hits(env, sm.pos.value, seed), PickedSet(env, sm, seed);
    var out := Arrive(seed, results, hits);
    var back := Failing(env, sm.post, out);
    var (s, r) := Outcome(env, sm, seed, results);
    FailingLive(env, sm.post.value, out);
    forall i | 0 <= i < |seed| && out[i].Node? ensures i in back <==> !LetThrough(env, sm.post.value, out, i) {
      FailingIsUnpicked(env, sm.post.value, out, i);
    }
    forall i | 0 <= i < |seed|
      ensures s[i] == Leave(seed, picked)[i] && r[i] == Arrive(seed, results, picked)[i] <==>
              (out[i].Node? ==> (i !in back <==> (i in hits ==> i in picked)))
    {
      assert i in picked ==> i in hits;
    }
    if SparesEarlier(env, sm, seed, results) {
      assert s == Leave(seed, picked) && r == Arrive(seed, results, picked);
    }
  }

  /** An element test as post-filter spares exactly the earlier matches that pass it. */
  lemma ElementTestSpares(env: Env, pos: nat, test: nat, seed: seq<Cell>, results: seq<Cell>)
    requires Apart(seed, results) && Stateless(env, test)
    ensures SparesEarlier(env, SetMatcher(None, Some(pos), Some(Wrapped(test))), seed, results) <==>
            forall i :: 0 <= i < |results| && results[i].Node? ==> env.pass(test, results[i].id)
  {
    var hits := Hits(env, pos, seed);
    var out := Arrive(seed, results, hits);
    forall i | 0 <= i < |seed| && out[i].Node?
      ensures LetThrough(env, Wrapped(test), out, i) <==> env.pass(test, out[i].id)
    {
      LiveRank(env, out, None, i);
    }
    forall i | 0 <= i < |seed| && i in hits
      ensures Picked(env, SetMatcher(None, Some(pos), Some(Wrapped(test))), seed, i) <==> env.pass(test, seed[i].id)
    {
      WrappedPicks(env, pos, test, seed, i);
    }
    assert forall i :: 0 <= i < |results| && results[i].Node? ==> out[i] == results[i] && i !in hits;
  }

  lemma WrappedPicks(env: Env, pos: nat, test: nat, seed: seq<Cell>, i: nat)
    requires i < |seed| && i in Hits(env, pos, seed) && Stateless(env, test)
    ensures Picked(env, SetMatcher(None, Some(pos), Some(Wrapped(test))), seed, i) <==> env.pass(test, seed[i].id)
  {
    var stage := Stage(env, SetMatcher(None, Some(pos), Some(Wrapped(test))), seed);
    LiveRank(env, stage, None, i);
  }

  /** The index list of :first is [0] and that of :eq(1) is [1]. */
  function FirstAndEq1(pos: nat, length: nat): seq<int> { if pos == 0 then [0] else [1] }

  /** Tests that b, which is node 20, passes and no other. */
  function OnlyB(): Env {
    Env((test, e) => e == 20, (test: nat, xs: seq<Cell>, i: nat) => i < |xs| && xs[i] == Node(20), FirstAndEq1)
  }

  /** [a, b] filtered by ":first" alone. */
  lemma FirstMatched(env: Env)
    requires env.indexes == FirstAndEq1
    ensures Outcome(env, SetMatcher(None, Some(0), None), [Node(10), Node(20)], Blank(2))
         == ([Gone, Node(20)], [Node(10), Gone])
  {
    var seed := [Node(10), Node(20)];
    var hits := Hits(env, 0, seed);
    assert 0 in env.indexes(0, 2);
    assert hits == {0};
    assert Arrive(Arrive(seed, Blank(2), hits), Leave(seed, hits), {}) == [Gone, Node(20)];
    assert Leave(Arrive(seed, Blank(2), hits), {}) == [Node(10), Gone];
  }

  /** [a, b] filtered by ":eq(1).c, :first", where only b has class c: the later matcher puts a,
      which :first had matched, back. */
  lemma EarlierMatchLost()
    ensures var env := OnlyB();
      var after := Outcome(env, SetMatcher(None, Some(0), None), [Node(10), Node(20)], Blank(2));
      && after == ([Gone, Node(20)], [Node(10), Gone])
      && !Ideal(env, SetMatcher(None, Some(1), Some(Wrapped(5))), after.0, after.1)
  {
    var env := OnlyB();
    var s, r := [Gone, Node(20)], [Node(10), Gone];
    FirstMatched(env);
    EarlierMatchesIff(env, SetMatcher(None, Some(1), Some(Wrapped(5))), s, r);
    ElementTestSpares(env, 1, 5, s, r);
    assert r[0].Node? && !env.pass(5, r[0].id);
  }

  /** [a, b] filtered by ":eq(1):first, :first": to the later matcher's :first, b, its only hit, is
      not the first of the pooled a and b, so b, which it picks, is not matched. */
  lemma HitLost()
    ensures var env := Env((test, e) => true, (test, xs, i) => true, FirstAndEq1);
      var sm := SetMatcher(None, Some(1), Some(SetMatcher(None, Some(0), None)));
      var after := Outcome(env, SetMatcher(None, Some(0), None), [Node(10), Node(20)], Blank(2));
      && after == ([Gone, Node(20)], [Node(10), Gone])
      && Picked(env, sm, after.0, 1) && Outcome(env, sm, after.0, after.1) == after
  {
    var env := Env((test, e) => true, (test, xs, i) => true, FirstAndEq1);
    var first := SetMatcher(None, Some(0), None);
    var s, r := [Gone, Node(20)], [Node(10), Gone];
    FirstMatched(env);
    var hits := Hits(env, 1, s);
    assert 1 in env.indexes(1, 2) && hits == {1};
    var out := Arrive(s, r, hits);
    assert out == [Node(10), Node(20)];
    FailingIsUnpicked(env, first, out, 0);
    FailingIsUnpicked(env, first, out, 1);
    LiveRank(env, out, None, 1);
    FailingLive(env, first, out);
    assert Failing(env, Some(first), out) == {1};
    assert Arrive(out, Leave(s, hits), {1}) == s && Leave(out, {1}) == r;
  }
}
