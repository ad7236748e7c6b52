/** superMatcher with a seed: the elements that element matchers accept are pushed at once, set
    matchers get the rest, and the early pushes are then popped back into place
    (src/main/webapp/javascript/jquery-1.10.2.js). */
module SuperMatchers {
  import opened Basics
  import opened SetMatchers

  /** The answer of an element matcher, for each of which cachedruns moves on: it depends on the
      node only (Combinators.Engine.MatchElements). */
  predicate Accepts(env: Env, elementMatchers: seq<nat>, e: nat) {
    exists j :: 0 <= j < |elementMatchers| && env.pass(elementMatchers[j], e)
  }

  /** No matcher accepts nothing, one matcher what it passes, and two lists of matchers what either
      does. */
  lemma AcceptsEither(env: Env, m: nat, ems: seq<nat>, more: seq<nat>, e: nat)
    ensures !Accepts(env, [], e)
    ensures Accepts(env, [m], e) <==> env.pass(m, e)
    ensures Accepts(env, ems + more, e) <==> Accepts(env, ems, e) || Accepts(env, more, e)
  {
    if env.pass(m, e) { assert env.pass([m][0], e); }
    if Accepts(env, ems, e) {
      var j :| 0 <= j < |ems| && env.pass(ems[j], e);
      assert (ems + more)[j] == ems[j];
    }
    if Accepts(env, more, e) {
      var j :| 0 <= j < |more| && env.pass(more[j], e);
      assert (ems + more)[|ems| + j] == more[j];
    }
  }

  /** The elements that some element matcher accepts, in seed order. */
  function Accepted(env: Env, ems: seq<nat>, seed: seq<nat>): seq<nat> {
    if seed == [] then []
    else
      var last := seed[|seed| - 1];
      Accepted(env, ems, seed[..|seed| - 1]) + if Accepts(env, ems, last) then [last] else []
  }

  /** The seed as the set matchers get it. */
  function Rest(env: Env, ems: seq<nat>, seed: seq<nat>): seq<Cell> {
    seq(|seed|, i requires 0 <= i < |seed| => if Accepts(env, ems, seed[i]) then Gone else Node(seed[i]))
  }

  /** What the set matchers, run one after the other, leave in seed and results. */
  function InTurn(env: Env, sms: seq<SetMatcher>, seed: seq<Cell>): (r: (seq<Cell>, seq<Cell>))
    requires forall k :: 0 <= k < |sms| ==> sms[k].Made()
    ensures |r.0| == |r.1| == |seed|
  {
    if sms == [] then (seed, Blank(|seed|))
    else
      var before := InTurn(env, sms[..|sms| - 1], seed);
      Outcome(env, sms[|sms| - 1], before.0, before.1)
  }

  /** Element i of the seed is matched: by an element matcher, or it ends up in the results of the
      set matchers. */
  predicate Matched(env: Env, ems: seq<nat>, sms: seq<SetMatcher>, seed: seq<nat>, i: nat)
    requires i < |seed| && forall k :: 0 <= k < |sms| ==> sms[k].Made()
  {
    Accepts(env, ems, seed[i]) || InTurn(env, sms, Rest(env, ems, seed)).1[i].Node?
  }

  /** The matched elements among the first n, in seed order. */
  function Matches(env: Env, ems: seq<nat>, sms: seq<SetMatcher>, seed: seq<nat>, n: nat): seq<nat>
    requires n <= |seed| && forall k :: 0 <= k < |sms| ==> sms[k].Made()
  {
    if n == 0 then []
    else Matches(env, ems, sms, seed, n - 1) + if Matched(env, ems, sms, seed, n - 1) then [seed[n - 1]] else []
  }

  lemma {:induction false} InTurnKeeps(env: Env, sms: seq<SetMatcher>, seed: seq<Cell>)
    requires forall k :: 0 <= k < |sms| ==> sms[k].Made()
    ensures var r := InTurn(env, sms, seed);
      Apart(r.0, r.1) && forall i :: 0 <= i < |seed| ==> Both(r.0, r.1, i) == seed[i]
  {
    if sms != [] {
      var before := InTurn(env, sms[..|sms| - 1], seed);
      InTurnKeeps(env, sms[..|sms| - 1], seed);
      NothingLost(env, sms[|sms| - 1], before.0, before.1);
    }
  }

  /** The ids of the entries of xs, in order: condense without a filter. */
  function Ids(xs: seq<Cell>): seq<nat> {
    if xs == [] then []
    else Ids(xs[..|xs| - 1]) + match xs[|xs| - 1] case Gone => [] case Node(e) => [e]
  }

  /** Condensed and unpacked. */
  method CondensedIds(env: Env, xs: Cells) returns (ids: seq<nat>)
    ensures ids == Ids(xs.a)
  {
    ids := [];
    for i := 0 to |xs.a|
      invariant ids == Ids(xs.a[..i])
    {
      assert xs.a[..i + 1][..i] == xs.a[..i];
      if xs.a[i].Node? { ids := ids + [xs.a[i].id]; }
    }
    assert xs.a[..|xs.a|] == xs.a;
  }

  /** The first loop: early results and the array for the set matchers. */
  method TryElementMatchers(env: Env, seed: seq<nat>, ems: seq<nat>, results: seq<nat>)
    returns (found: seq<nat>, unmatched: seq<Cell>, matchedCount: int)
    ensures found == results + Accepted(env, ems, seed)
    ensures unmatched == Rest(env, ems, seed)
    ensures matchedCount == |Accepted(env, ems, seed)|
  {
    found, unmatched, matchedCount := results, [], 0;
    var i := 0;
    while i < |seed|
      invariant 0 <= i <= |seed|
      invariant found == results + Accepted(env, ems, seed[..i])
      invariant unmatched == Rest(env, ems, seed[..i])
      invariant matchedCount == |Accepted(env, ems, seed[..i])| - i
    {
      var j, matcher := 0, false;
      while j < |ems| && !matcher
        invariant 0 <= j <= |ems|
        invariant matcher ==> Accepts(env, ems, seed[i])
        invariant !matcher ==> forall k :: 0 <= k < j ==> !env.pass(ems[k], seed[i])
      {
        matcher := env.pass(ems[j], seed[i]);
        j := j + 1;
      }
      assert seed[..i + 1][..i] == seed[..i];
      if matcher {
        found := found + [seed[i]];
        unmatched := unmatched + [Gone];
      } else {
        matchedCount := matchedCount - 1;
        unmatched := unmatched + [Node(seed[i])];
      }
      i := i + 1;
    }
    assert seed[..|seed|] == seed;
    matchedCount := matchedCount + i;
  }

  /** After the set matchers exactly the early pushes are held by neither array. */
  lemma WhoHolds(env: Env, ems: seq<nat>, sms: seq<SetMatcher>, seed: seq<nat>)
    requires forall k :: 0 <= k < |sms| ==> sms[k].Made()
    ensures var (s, r) := InTurn(env, sms, Rest(env, ems, seed));
      && (forall i :: 0 <= i < |seed| ==> (Accepts(env, ems, seed[i]) <==> s[i] == Gone && r[i] == Gone))
      && (forall i :: 0 <= i < |seed| ==> r[i] == Gone || r[i] == Node(seed[i]))
  {
    var rest := Rest(env, ems, seed);
    var (s, r) := InTurn(env, sms, rest);
    InTurnKeeps(env, sms, rest);
    forall i | 0 <= i < |seed|
      ensures Accepts(env, ems, seed[i]) <==> s[i] == Gone && r[i] == Gone
      ensures r[i] == Gone || r[i] == Node(seed[i])
    {
      assert Both(s, r, i) == rest[i];
    }
  }

  /** Entries that neither array holds are the ones pushed early: they are popped back. */
  method Reintegrate(env: Env, seed: seq<nat>, ems: seq<nat>, unmatched: Cells, setMatched: Cells,
                     early: seq<nat>, ghost results: seq<nat>)
    returns (found: seq<nat>)
    requires unmatched != setMatched && |unmatched.a| == |setMatched.a| == |seed|
    requires early == results + Accepted(env, ems, seed)
    requires forall i :: 0 <= i < |seed| ==>
      (Accepts(env, ems, seed[i]) <==> unmatched.a[i] == Gone && setMatched.a[i] == Gone)
    modifies setMatched
    ensures found == results && |setMatched.a| == |seed|
    ensures forall i :: 0 <= i < |seed| ==>
      setMatched.a[i] == if Accepts(env, ems, seed[i]) then Node(seed[i]) else old(setMatched.a[i])
  {
    found := early;
    var i := |seed|;
    assert seed[..i] == seed;
    while i > 0
      invariant 0 <= i <= |seed| == |setMatched.a|
      invariant found == results + Accepted(env, ems, seed[..i])
      invariant forall k :: 0 <= k < i ==> setMatched.a[k] == old(setMatched.a[k])
      invariant forall k :: i <= k < |seed| ==>
        setMatched.a[k] == if Accepts(env, ems, seed[k]) then Node(seed[k]) else old(setMatched.a[k])
    {
      i := i - 1;
      assert seed[..i + 1][..i] == seed[..i];
      if !(unmatched.a[i].Node? || setMatched.a[i].Node?) {
        setMatched.a := setMatched.a[i := Node(found[|found| - 1])];
        found := found[..|found| - 1];
      }
    }
  }

  lemma {:induction false} AcceptedCount(env: Env, ems: seq<nat>, seed: seq<nat>)
    ensures |Accepted(env, ems, seed)| <= |seed|
    ensures |Accepted(env, ems, seed)| == 0 ==> forall i :: 0 <= i < |seed| ==> !Accepts(env, ems, seed[i])
    ensures |Accepted(env, ems, seed)| == |seed| ==> forall i :: 0 <= i < |seed| ==> Accepts(env, ems, seed[i])
  {
    if seed != [] { AcceptedCount(env, ems, seed[..|seed| - 1]); }
  }

  lemma {:induction false} EarlyMatches(env: Env, ems: seq<nat>, sms: seq<SetMatcher>, seed: seq<nat>, n: nat)
    requires n <= |seed| && forall k :: 0 <= k < |sms| ==> sms[k].Made()
    requires sms == [] || forall i :: 0 <= i < |seed| ==> Accepts(env, ems, seed[i])
    ensures Matches(env, ems, sms, seed, n) == Accepted(env, ems, seed[..n])
  {
    if n > 0 {
      EarlyMatches(env, ems, sms, seed, n - 1);
      assert seed[..n][..n - 1] == seed[..n - 1];
    }
  }

  lemma {:induction false} AllMatches(env: Env, ems: seq<nat>, sms: seq<SetMatcher>, seed: seq<nat>, xs: seq<Cell>, n: nat)
    requires n <= |seed| == |xs| && forall k :: 0 <= k < |sms| ==> sms[k].Made()
    requires forall i :: 0 <= i < |seed| ==> xs[i] == if Matched(env, ems, sms, seed, i) then Node(seed[i]) else Gone
    ensures Ids(xs[..n]) == Matches(env, ems, sms, seed, n)
  {
    if n > 0 {
      AllMatches(env, ems, sms, seed, xs, n - 1);
      assert xs[..n][..n - 1] == xs[..n - 1];
    }
  }

  /** The loop over the set matchers. */
  method ApplySetMatchers(env: Env, sms: seq<SetMatcher>, unmatched: Cells, setMatched: Cells)
    requires forall k :: 0 <= k < |sms| ==> sms[k].Made()
    requires unmatched != setMatched && setMatched.a == Blank(|unmatched.a|)
    modifies unmatched, setMatched
    ensures (unmatched.a, setMatched.a) == InTurn(env, sms, old(unmatched.a))
  {
    var j := 0;
    while j < |sms|
      invariant 0 <= j <= |sms|
      invariant (unmatched.a, setMatched.a) == InTurn(env, sms[..j], old(unmatched.a))
    {
      Apply(env, sms[j], unmatched, setMatched);
      assert sms[..j + 1][..j] == sms[..j];
      j := j + 1;
    }
    assert sms[..j] == sms;
  }

  /** The whole of superMatcher on a seed of elements: the results are the old ones followed by
      exactly the matched elements, in seed order. */
  method SuperMatch(env: Env, seed: seq<nat>, ems: seq<nat>, sms: seq<SetMatcher>, results: seq<nat>)
    returns (found: seq<nat>)
    requires forall k :: 0 <= k < |sms| ==> sms[k].Made()
    ensures found == results + Matches(env, ems, sms, seed, |seed|)
  {
    var rest, matchedCount;
    found, rest, matchedCount := TryElementMatchers(env, seed, ems, results);
    if |sms| > 0 && (|seed| == 0 || matchedCount != |seed|) {
      var unmatched := new Cells(rest);
      var setMatched := new Cells(Blank(|rest|));
      ApplySetMatchers(env, sms, unmatched, setMatched);
      WhoHolds(env, ems, sms, seed);
      if matchedCount > 0 {
        found := Reintegrate(env, seed, ems, unmatched, setMatched, found, results);
      } else {
        AcceptedCount(env, ems, seed);
      }
      var ids := CondensedIds(env, setMatched);
      AllMatches(env, ems, sms, seed, setMatched.a, |seed|);
      assert setMatched.a[..|seed|] == setMatched.a;
      found := found + ids;
    } else {
      AcceptedCount(env, ems, seed);
      EarlyMatches(env, ems, sms, seed, |seed|);
      assert seed[..|seed|] == seed;
    }
  }

  /** With one set matcher, the elements matched besides the accepted ones are those it picks from
      the rest of the seed. */
  lemma OneSetMatcher(env: Env, ems: seq<nat>, sm: SetMatcher, seed: seq<nat>, i: nat)
    requires sm.Made() && i < |seed|
    ensures Matched(env, ems, [sm], seed, i) <==>
            Accepts(env, ems, seed[i]) || Picked(env, sm, Rest(env, ems, seed), i)
  {
    var rest := Rest(env, ems, seed);
    assert [sm][..0] == [];
    assert InTurn(env, [sm], rest) == Outcome(env, sm, rest, Blank(|rest|));
    CleanOutcome(env, sm, rest, Blank(|rest|));
    var picked := PickedSet(env, sm, rest);
    assert Arrive(rest, Blank(|rest|), picked)[i].Node? <==> i in picked && rest[i].Node?;
  }

  /** The k-th set matcher picks entry i from what the ones before it have left of the seed. */
  predicate PickedInTurn(env: Env, sms: seq<SetMatcher>, seed: seq<Cell>, i: nat, k: nat)
    requires i < |seed| && k < |sms| && forall j :: 0 <= j < |sms| ==> sms[j].Made()
  {
    Picked(env, sms[k], InTurn(env, sms[..k], seed).0, i)
  }

  ghost predicate SomePicks(env: Env, sms: seq<SetMatcher>, seed: seq<Cell>, i: nat)
    requires i < |seed| && forall j :: 0 <= j < |sms| ==> sms[j].Made()
  {
    exists k :: 0 <= k < |sms| && PickedInTurn(env, sms, seed, i, k)
  }

  /** What the set matchers hold in the end is what some of them has picked in its turn. */
  ghost predicate HoldsPicked(env: Env, sms: seq<SetMatcher>, seed: seq<Cell>)
    requires forall j :: 0 <= j < |sms| ==> sms[j].Made()
  {
    forall i :: 0 <= i < |seed| ==> (InTurn(env, sms, seed).1[i].Node? <==> SomePicks(env, sms, seed, i))
  }

  /** So it is after every turn. */
  ghost predicate AlwaysHoldsPicked(env: Env, sms: seq<SetMatcher>, seed: seq<Cell>)
    requires forall j :: 0 <= j < |sms| ==> sms[j].Made()
  {
    HoldsPicked(env, sms, seed) && (sms == [] || AlwaysHoldsPicked(env, sms[..|sms| - 1], seed))
  }

  /** Every matcher spares, in its turn, what the ones before it have matched. */
  predicate AllSpare(env: Env, sms: seq<SetMatcher>, seed: seq<Cell>)
    requires forall j :: 0 <= j < |sms| ==> sms[j].Made()
  {
    sms == [] ||
    (var front := sms[..|sms| - 1];
     var before := InTurn(env, front, seed);
     AllSpare(env, front, seed) && SparesEarlier(env, sms[|sms| - 1], before.0, before.1))
  }

  /** With any number of set matchers of any kind: the results hold, after every turn, exactly what
      some matcher has picked so far, if and only if every matcher spares the earlier matches. */
  lemma {:induction false} SomeMatcherPicks(env: Env, sms: seq<SetMatcher>, seed: seq<Cell>)
    requires forall k :: 0 <= k < |sms| ==> sms[k].Made()
    ensures AlwaysHoldsPicked(env, sms, seed) <==> AllSpare(env, sms, seed)
  {
    if sms != [] {
      var front := sms[..|sms| - 1];
      SomeMatcherPicks(env, front, seed);
      if HoldsPicked(env, front, seed) { LastTurn(env, sms, seed); }
    }
  }

  lemma LastTurn(env: Env, sms: seq<SetMatcher>, seed: seq<Cell>)
    requires sms != [] && forall k :: 0 <= k < |sms| ==> sms[k].Made()
    requires HoldsPicked(env, sms[..|sms| - 1], seed)
    ensures var before := InTurn(env, sms[..|sms| - 1], seed);
      HoldsPicked(env, sms, seed) <==> SparesEarlier(env, sms[|sms| - 1], before.0, before.1)
  {
    var last, before := |sms| - 1, InTurn(env, sms[..|sms| - 1], seed);
    InTurnKeeps(env, sms[..last], seed);
    EarlierMatchesIff(env, sms[last], before.0, before.1);
    IdealByResults(env, sms[last], before.0, before.1);
    forall i | 0 <= i < |seed|
      ensures SomePicks(env, sms, seed, i) <==> before.1[i].Node? || Picked(env, sms[last], before.0, i)
    {
      SomePicksLast(env, sms, seed, i);
    }
  }

  /** The results tell whether the outcome is ideal, as every entry is on one of the two sides. */
  lemma IdealByResults(env: Env, sm: SetMatcher, seed: seq<Cell>, results: seq<Cell>)
    requires sm.Made() && Apart(seed, results)
    ensures Ideal(env, sm, seed, results) <==>
            forall i :: 0 <= i < |seed| ==>
              (Outcome(env, sm, seed, results).1[i].Node? <==> results[i].Node? || Picked(env, sm, seed, i))
  {
    var picked := PickedSet(env, sm, seed);
    var (s, r) := Outcome(env, sm, seed, results);
    NothingLost(env, sm, seed, results);
    if forall i :: 0 <= i < |seed| ==> (r[i].Node? <==> results[i].Node? || Picked(env, sm, seed, i)) {
      forall i | 0 <= i < |seed| ensures s[i] == Leave(seed, picked)[i] && r[i] == Arrive(seed, results, picked)[i] {
        assert i in picked <==> Picked(env, sm, seed, i);
        assert Picked(env, sm, seed, i) ==> seed[i].Node?;
        assert Both(s, r, i) == Both(seed, results, i);
      }
      assert s == Leave(seed, picked) && r == Arrive(seed, results, picked);
    }
  }

  lemma PickedEarly(env: Env, sms: seq<SetMatcher>, seed: seq<Cell>, i: nat, k: nat)
    requires i < |seed| && k < |sms| - 1 && forall j :: 0 <= j < |sms| ==> sms[j].Made()
    ensures PickedInTurn(env, sms[..|sms| - 1], seed, i, k) == PickedInTurn(env, sms, seed, i, k)
  {
    assert sms[..|sms| - 1][..k] == sms[..k];
  }

  lemma SomePicksLast(env: Env, sms: seq<SetMatcher>, seed: seq<Cell>, i: nat)
    requires i < |seed| && sms != [] && forall k :: 0 <= k < |sms| ==> sms[k].Made()
    ensures SomePicks(env, sms, seed, i) <==>
            SomePicks(env, sms[..|sms| - 1], seed, i) || PickedInTurn(env, sms, seed, i, |sms| - 1)
  {
    var front := sms[..|sms| - 1];
    if SomePicks(env, front, seed, i) {
      var k :| 0 <= k < |front| && PickedInTurn(env, front, seed, i, k);
      PickedEarly(env, sms, seed, i, k);
    }
    if SomePicks(env, sms, seed, i) {
      var k :| 0 <= k < |sms| && PickedInTurn(env, sms, seed, i, k);
      if k < |front| { PickedEarly(env, sms, seed, i, k); }
    }
  }
}
