/** The handler list of one event type on one element, delegated handlers in front, and the
    dispatch of an event through it (src/main/webapp/javascript/jquery-1.10.2.js). */
module EventHandlers {
  import opened Basics

  datatype HandleObj = HandleObj(guid: nat, selector: Option<string>, origType: string, namespace: string)
  {
    /** A handler without a selector, or with an empty one, is bound directly. */
    predicate Delegates() { selector.Some? && selector.value != "" }
  }

  /** Arguments of remove; a namespace is given by the number of the regular expression. */
  datatype Removal = Removal(mappedTypes: bool, origType: string, guid: Option<nat>, namespace: Option<nat>, selector: Option<string>)

  /** What lies outside: namespace tests and selector matches, the latter fixed during one call. */
  datatype World = World(inNamespace: (nat, string) -> bool, matches: (string, nat) -> bool)

  predicate Hit(w: World, r: Removal, h: HandleObj) {
    && (r.mappedTypes || r.origType == h.origType)
    && (r.guid.None? || r.guid.value == h.guid)
    && (r.namespace.None? || w.inNamespace(r.namespace.value, h.namespace))
    && (r.selector.None? || r.selector.value == "" || r.selector == h.selector || (r.selector.value == "**" && h.Delegates()))
  }

  function Delegated(xs: seq<HandleObj>): seq<HandleObj> {
    if xs == [] then []
    else
      var rest, h := Delegated(xs[..|xs| - 1]), xs[|xs| - 1];
      if h.Delegates() then rest + [h] else rest
  }

  function Direct(xs: seq<HandleObj>): seq<HandleObj> {
    if xs == [] then []
    else
      var rest, h := Direct(xs[..|xs| - 1]), xs[|xs| - 1];
      if !h.Delegates() then rest + [h] else rest
  }

  /** The handlers that a removal leaves. */
  function Left(w: World, r: Removal, xs: seq<HandleObj>): seq<HandleObj> {
    if xs == [] then []
    else
      var rest, h := Left(w, r, xs[..|xs| - 1]), xs[|xs| - 1];
      if Hit(w, r, h) then rest else rest + [h]
  }

  lemma {:induction false} LeftConcat(w: World, r: Removal, xs: seq<HandleObj>, ys: seq<HandleObj>)
    ensures Left(w, r, xs + ys) == Left(w, r, xs) + Left(w, r, ys)
  {
    if ys == [] {
      assert xs + ys == xs;
    } else {
      LeftConcat(w, r, xs, ys[..|ys| - 1]);
      assert (xs + ys)[..|xs + ys| - 1] == xs + ys[..|ys| - 1];
    }
  }

  /** Removal and partition commute. */
  lemma {:induction false} LeftPartition(w: World, r: Removal, xs: seq<HandleObj>)
    ensures Left(w, r, Delegated(xs)) == Delegated(Left(w, r, xs))
    ensures Left(w, r, Direct(xs)) == Direct(Left(w, r, xs))
  {
    if xs != [] {
      var init, h := xs[..|xs| - 1], xs[|xs| - 1];
      LeftPartition(w, r, init);
      LeftConcat(w, r, Delegated(init), [h]);
      LeftConcat(w, r, Direct(init), [h]);
      LeftOne(w, r, h);
      var left := Left(w, r, init);
      assert (left + [h])[..|left|] == left;
    }
  }

  lemma LeftOne(w: World, r: Removal, h: HandleObj)
    ensures Left(w, r, [h]) == if Hit(w, r, h) then [] else [h]
  {
    assert [h][..0] == [];
  }

  lemma LeftFrom(w: World, r: Removal, xs: seq<HandleObj>, j: nat)
    requires j < |xs|
    ensures Left(w, r, xs[j..]) == (if Hit(w, r, xs[j]) then [] else [xs[j]]) + Left(w, r, xs[j + 1..])
  {
    assert xs[j..] == [xs[j]] + xs[j + 1..];
    LeftConcat(w, r, [xs[j]], xs[j + 1..]);
    LeftOne(w, r, xs[j]);
  }

  lemma {:induction false} PartitionKinds(xs: seq<HandleObj>)
    ensures forall i :: 0 <= i < |Delegated(xs)| ==> Delegated(xs)[i].Delegates()
    ensures forall i :: 0 <= i < |Direct(xs)| ==> !Direct(xs)[i].Delegates()
  {
    if xs != [] { PartitionKinds(xs[..|xs| - 1]); }
  }

  /** h is bound as often as before. */
  ghost predicate Stays(was: seq<HandleObj>, left: seq<HandleObj>, h: HandleObj) {
    multiset(left)[h] == multiset(was)[h]
  }

  lemma {:induction false} LeftCounts(w: World, r: Removal, xs: seq<HandleObj>, h: HandleObj)
    ensures multiset(Left(w, r, xs))[h] == if Hit(w, r, h) then 0 else multiset(xs)[h]
  {
    if xs != [] {
      LeftCounts(w, r, xs[..|xs| - 1], h);
      assert xs == xs[..|xs| - 1] + [xs[|xs| - 1]];
    }
  }

  lemma {:induction false} LeftOrder(w: World, r: Removal, xs: seq<HandleObj>)
    ensures Subsequence(Left(w, r, xs), xs)
  {
    if xs != [] {
      var init, h := xs[..|xs| - 1], xs[|xs| - 1];
      LeftOrder(w, r, init);
      SubsequenceGrows(Left(w, r, init), init, h);
      assert xs == init + [h];
    }
  }

  /** From was to left, a removal took off what it should: it leaves, in the order they were in, the
      handlers of another guid, of another type, of another namespace, of another selector, and, for
      "**", the direct ones; and no others. */
  ghost predicate TakenOff(w: World, r: Removal, was: seq<HandleObj>, left: seq<HandleObj>) {
    && Subsequence(left, was)
    && (r.guid.Some? ==> forall h: HandleObj :: h.guid != r.guid.value ==> Stays(was, left, h))
    && (!r.mappedTypes ==> forall h: HandleObj :: h.origType != r.origType ==> Stays(was, left, h))
    && (r.namespace.Some? ==> forall h: HandleObj :: !w.inNamespace(r.namespace.value, h.namespace) ==> Stays(was, left, h))
    && (r.selector.Some? && r.selector.value != "" && r.selector.value != "**" ==>
          forall h: HandleObj :: h.selector != r.selector ==> Stays(was, left, h))
    && (r.selector == Some("**") ==> forall h: HandleObj :: !h.Delegates() ==> Stays(was, left, h))
    && (forall h :: h in left ==>
          || (r.guid.Some? && h.guid != r.guid.value) || (!r.mappedTypes && h.origType != r.origType)
          || (r.namespace.Some? && !w.inNamespace(r.namespace.value, h.namespace))
          || (r.selector.Some? && r.selector.value != "" && r.selector.value != "**" && h.selector != r.selector)
          || (r.selector == Some("**") && !h.Delegates()))
  }

  lemma LeftMeans(w: World, r: Removal, xs: seq<HandleObj>)
    ensures TakenOff(w, r, xs, Left(w, r, xs))
  {
    LeftOrder(w, r, xs);
    forall h: HandleObj ensures Stays(xs, Left(w, r, xs), h) <== !Hit(w, r, h)
      ensures h in Left(w, r, xs) ==> !Hit(w, r, h)
    {
      LeftCounts(w, r, xs, h);
    }
  }

  /** The two parts of a list: every handler is in one of them, as often as in the list and in its order:
      in the second those without a selector or with an empty one. */
  lemma PartitionMeans(xs: seq<HandleObj>, h: HandleObj)
    ensures Subsequence(Delegated(xs), xs) && Subsequence(Direct(xs), xs)
    ensures var directly := h.selector.None? || h.selector.value == "";
      && multiset(Delegated(xs))[h] == (if directly then 0 else multiset(xs)[h])
      && multiset(Direct(xs))[h] == if directly then multiset(xs)[h] else 0
  {
    PartitionOrder(xs);
    PartitionCounts(xs, h);
  }

  lemma {:induction false} PartitionOrder(xs: seq<HandleObj>)
    ensures Subsequence(Delegated(xs), xs) && Subsequence(Direct(xs), xs)
  {
    if xs != [] {
      var init, h := xs[..|xs| - 1], xs[|xs| - 1];
      PartitionOrder(init);
      SubsequenceGrows(Delegated(init), init, h);
      SubsequenceGrows(Direct(init), init, h);
      assert xs == init + [h];
    }
  }

  lemma {:induction false} PartitionCounts(xs: seq<HandleObj>, h: HandleObj)
    ensures multiset(Delegated(xs))[h] == if h.Delegates() then multiset(xs)[h] else 0
    ensures multiset(Direct(xs))[h] == if h.Delegates() then 0 else multiset(xs)[h]
  {
    if xs != [] {
      PartitionCounts(xs[..|xs| - 1], h);
      assert xs == xs[..|xs| - 1] + [xs[|xs| - 1]];
    }
  }

  class HandlerList {
    var handlers: seq<HandleObj>
    var delegateCount: nat
    /** The handlers now bound, in the order of registration. */
    ghost var registered: seq<HandleObj>

    /** First the delegated handlers, then the direct ones, each in the order of registration. */
    ghost predicate Valid()
      reads this
    {
      && handlers == Delegated(registered) + Direct(registered)
      && delegateCount == |Delegated(registered)|
    }

    constructor ()
      ensures Valid() && registered == []
    {
      handlers, delegateCount, registered := [], 0, [];
    }

    /** The end of add. */
    method Add(h: HandleObj)
      requires Valid()
      modifies this
      ensures Valid() && registered == old(registered) + [h]
    {
      if h.Delegates() {
        handlers := handlers[..delegateCount] + [h] + handlers[delegateCount..];
        delegateCount := delegateCount + 1;
      } else {
        handlers := handlers + [h];
      }
      registered := registered + [h];
      assert registered[..|registered| - 1] == old(registered);
    }

    /** remove, for one event type. */
    method Remove(w: World, r: Removal)
      requires Valid()
      modifies this
      ensures Valid() && registered == Left(w, r, old(registered))
      ensures TakenOff(w, r, old(registered), registered)
    {
      LeftMeans(w, r, registered);
      PartitionKinds(registered);
      RemoveHits(w, r, Delegated(registered), Direct(registered));
      LeftPartition(w, r, registered);
      registered := Left(w, r, registered);
    }

    /** Its loop, which takes the matching handlers out from the last to the first. */
    method RemoveHits(w: World, r: Removal, ghost front: seq<HandleObj>, ghost back: seq<HandleObj>)
      requires handlers == front + back && delegateCount == |front|
      requires forall i :: 0 <= i < |front| ==> front[i].Delegates()
      requires forall i :: 0 <= i < |back| ==> !back[i].Delegates()
      modifies this`handlers, this`delegateCount
      ensures handlers == Left(w, r, front) + Left(w, r, back)
      ensures delegateCount == |Left(w, r, front)|
    {
      ghost var was := handlers;
      var j := |handlers|;
      ghost var tail: seq<HandleObj> := [];
      assert was[..j] == was && was[j..] == [];
      while j > 0
        invariant 0 <= j <= |was|
        invariant tail == Left(w, r, was[j..]) && handlers == was[..j] + tail
        invariant delegateCount == if j <= |front| then j + |Left(w, r, front[j..])| else |front|
      {
        j := j - 1;
        LeftFrom(w, r, was, j);
        if j < |front| { LeftFrom(w, r, front, j); }
        assert was[..j + 1] == was[..j] + [was[j]];
        tail := RemoveOne(w, r, j, was, tail);
      }
      assert was[0..] == was && front[0..] == front;
      LeftConcat(w, r, front, back);
    }

    /** The body of the loop. */
    method RemoveOne(w: World, r: Removal, j: nat, ghost was: seq<HandleObj>, ghost tail: seq<HandleObj>)
      returns (ghost longer: seq<HandleObj>)
      requires j < |was| && handlers == was[..j] + [was[j]] + tail
      requires was[j].Delegates() ==> delegateCount > 0
      modifies this`handlers, this`delegateCount
      ensures longer == (if Hit(w, r, was[j]) then [] else [was[j]]) + tail && handlers == was[..j] + longer
      ensures delegateCount == old(delegateCount) - if Hit(w, r, was[j]) && was[j].Delegates() then 1 else 0
    {
      var handleObj := handlers[j];
      longer := (if Hit(w, r, was[j]) then [] else [was[j]]) + tail;
      if Hit(w, r, handleObj) {
        handlers := handlers[..j] + handlers[j + 1..];
        if handleObj.Delegates() {
          delegateCount := delegateCount - 1;
        }
      }
    }
  }

  // ----- which handlers an event finds -----

  /** parent is -1 where there is none; parents have smaller numbers. */
  datatype Page = Page(parent: seq<int>, isNode: seq<bool>, element: seq<bool>, disabled: seq<bool>) {
    ghost predicate Valid() {
      && |parent| == |isNode| == |element| == |disabled|
      && forall n :: 0 <= n < |parent| ==> -1 <= parent[n] < n
    }
  }

  datatype Event = Event(target: nat, button: bool, click: bool)

  datatype Entry = Entry(elem: nat, handlers: seq<HandleObj>)

  /** From cur up to but without the element whose handlers run. */
  function PathTo(p: Page, cur: int, owner: nat): seq<nat>
    requires p.Valid() && -1 <= cur < |p.parent|
    decreases cur
  {
    if cur == -1 || cur == owner then [] else [cur as nat] + PathTo(p, p.parent[cur], owner)
  }

  /** The k-th node above n, n itself for k = 0; -1 above the topmost. */
  function Up(p: Page, n: int, k: nat): (m: int)
    requires p.Valid() && -1 <= n < |p.parent|
    ensures -1 <= m < |p.parent|
  {
    if k == 0 then n else if n == -1 then -1 else Up(p, p.parent[n], k - 1)
  }

  /** The path holds the target and the nodes above it, from one to the next, up to the first that is
      the owner, or else to the topmost. */
  lemma {:induction false} PathSteps(p: Page, cur: int, owner: nat)
    requires p.Valid() && -1 <= cur < |p.parent|
    ensures var path := PathTo(p, cur, owner);
      && (forall i :: 0 <= i < |path| ==> path[i] == Up(p, cur, i) && path[i] != owner)
      && Up(p, cur, |path|) in [-1, owner as int]
    decreases cur
  {
    if cur != -1 && cur != owner {
      var path, rest := PathTo(p, cur, owner), PathTo(p, p.parent[cur], owner);
      PathSteps(p, p.parent[cur], owner);
      forall i | 0 <= i < |path| ensures path[i] == Up(p, cur, i) && path[i] != owner {
        if i > 0 { assert path[i] == rest[i - 1]; }
      }
    }
  }

  predicate Eligible(p: Page, ev: Event, e: nat) {
    e < |p.element| && e < |p.disabled| && p.element[e] && (!p.disabled[e] || !ev.click)
  }

  /** The delegated handlers whose selector matches e. */
  function Matching(w: World, delegates: seq<HandleObj>, e: nat): seq<HandleObj> {
    if delegates == [] then []
    else
      var rest, h := Matching(w, delegates[..|delegates| - 1], e), delegates[|delegates| - 1];
      if h.Delegates() && w.matches(h.selector.value, e) then rest + [h] else rest
  }

  /** The queue for the nodes of a path, in their order. */
  function Entries(w: World, p: Page, ev: Event, delegates: seq<HandleObj>, path: seq<nat>): seq<Entry> {
    if path == [] then []
    else
      var rest, e := Entries(w, p, ev, delegates, path[..|path| - 1]), path[|path| - 1];
      var hs := Matching(w, delegates, e);
      if Eligible(p, ev, e) && hs != [] then rest + [Entry(e, hs)] else rest
  }

  lemma {:induction false} MatchingMembers(w: World, delegates: seq<HandleObj>, e: nat)
    ensures forall h :: h in Matching(w, delegates, e) <==>
                        h in delegates && h.Delegates() && w.matches(h.selector.value, e)
  {
    if delegates != [] {
      MatchingMembers(w, delegates[..|delegates| - 1], e);
      assert delegates == delegates[..|delegates| - 1] + [delegates[|delegates| - 1]];
    }
  }

  lemma {:induction false} MatchingOrder(w: World, delegates: seq<HandleObj>, e: nat)
    ensures Subsequence(Matching(w, delegates, e), delegates)
  {
    if delegates != [] {
      var init, h := delegates[..|delegates| - 1], delegates[|delegates| - 1];
      MatchingOrder(w, init, e);
      SubsequenceGrows(Matching(w, init, e), init, h);
      assert delegates == init + [h];
    }
  }

  lemma {:induction false} EntriesMembers(w: World, p: Page, ev: Event, delegates: seq<HandleObj>, path: seq<nat>)
    ensures forall x :: x in Entries(w, p, ev, delegates, path) <==>
      x.elem in path && Eligible(p, ev, x.elem) && x.handlers == Matching(w, delegates, x.elem) && x.handlers != []
  {
    if path != [] {
      EntriesMembers(w, p, ev, delegates, path[..|path| - 1]);
      assert path == path[..|path| - 1] + [path[|path| - 1]];
    }
  }

  ghost predicate Descending(path: seq<nat>) { forall i, j :: 0 <= i < j < |path| ==> path[j] < path[i] }

  ghost predicate InnerFirst(q: seq<Entry>) { forall i, j :: 0 <= i < j < |q| ==> q[j].elem < q[i].elem }

  /** Inner elements come first: parents have smaller numbers. */
  lemma {:induction false} PathDescends(p: Page, cur: int, owner: nat)
    requires p.Valid() && -1 <= cur < |p.parent|
    ensures Descending(PathTo(p, cur, owner))
    ensures forall i :: 0 <= i < |PathTo(p, cur, owner)| ==> PathTo(p, cur, owner)[i] <= cur
    decreases cur
  {
    if cur != -1 && cur != owner {
      var rest, path := PathTo(p, p.parent[cur], owner), PathTo(p, cur, owner);
      PathDescends(p, p.parent[cur], owner);
      assert forall i :: 0 < i < |path| ==> path[i] == rest[i - 1];
    }
  }

  /** Each element has one entry at most, and they come in the order of the path. */
  lemma {:induction false} EntriesDescend(w: World, p: Page, ev: Event, delegates: seq<HandleObj>, path: seq<nat>)
    requires Descending(path)
    ensures InnerFirst(Entries(w, p, ev, delegates, path))
  {
    if path != [] {
      var init, e := path[..|path| - 1], path[|path| - 1];
      var q, whole := Entries(w, p, ev, delegates, init), Entries(w, p, ev, delegates, path);
      EntriesDescend(w, p, ev, delegates, init);
      EntriesMembers(w, p, ev, delegates, init);
      forall i | 0 <= i < |q| ensures e < q[i].elem {
        assert q[i] in q;
        var k :| 0 <= k < |init| && init[k] == q[i].elem;
      }
      forall i, j | 0 <= i < j < |whole| ensures whole[j].elem < whole[i].elem {
        assert whole[i] == q[i];
      }
    }
  }

  /** jQuery.event.handlers. */
  method Handlers(w: World, p: Page, ev: Event, owner: nat, list: HandlerList) returns (queue: seq<Entry>)
    requires list.Valid() && p.Valid() && ev.target < |p.parent|
    ensures var delegates, direct := Delegated(list.registered), Direct(list.registered);
      var bubbling := p.isNode[ev.target] && (!ev.button || !ev.click);
      queue == (if bubbling then Entries(w, p, ev, delegates, PathTo(p, ev.target, owner)) else [])
               + (if direct != [] then [Entry(owner, direct)] else [])
  {
    queue := [];
    if list.delegateCount > 0 && p.isNode[ev.target] && (!ev.button || !ev.click) {
      queue := DelegatedEntries(w, p, ev, owner, list);
    } else if list.delegateCount == 0 {
      NoEntries(w, p, ev, PathTo(p, ev.target, owner));
    }
    if list.delegateCount < |list.handlers| {
      queue := queue + [Entry(owner, list.handlers[list.delegateCount..])];
    }
  }

  /** The loop over cur. */
  method DelegatedEntries(w: World, p: Page, ev: Event, owner: nat, list: HandlerList) returns (queue: seq<Entry>)
    requires list.Valid() && p.Valid() && ev.target < |p.parent|
    ensures queue == Entries(w, p, ev, Delegated(list.registered), PathTo(p, ev.target, owner))
  {
    queue := [];
    ghost var delegates := Delegated(list.registered);
    ghost var whole := PathTo(p, ev.target, owner);
    var cur: int := ev.target;
    ghost var walked: seq<nat> := [];
    while cur != -1 && cur != owner
      invariant -1 <= cur < |p.parent|
      invariant whole == walked + PathTo(p, cur, owner)
      invariant queue == Entries(w, p, ev, delegates, walked)
      decreases cur
    {
      assert (walked + [cur])[..|walked|] == walked;
      var more := ElementEntry(w, p, ev, list, cur);
      queue := queue + more;
      assert walked + [cur] + PathTo(p, p.parent[cur], owner) == whole;
      walked := walked + [cur];
      cur := p.parent[cur];
    }
    assert whole == walked;
  }

  /** The entry of one element, if it is eligible and some handler matches. */
  method ElementEntry(w: World, p: Page, ev: Event, list: HandlerList, cur: nat) returns (more: seq<Entry>)
    requires list.Valid() && p.Valid() && cur < |p.parent|
    ensures var matches := Matching(w, Delegated(list.registered), cur);
      more == if Eligible(p, ev, cur) && matches != [] then [Entry(cur, matches)] else []
  {
    more := [];
    PartitionKinds(list.registered);
    assert list.handlers[..list.delegateCount] == Delegated(list.registered);
    if p.element[cur] && (!p.disabled[cur] || !ev.click) {
      var matches := MatchesOf(w, list.handlers, list.delegateCount, cur);
      if |matches| > 0 {
        more := [Entry(cur, matches)];
      }
    }
  }

  lemma {:induction false} NoEntries(w: World, p: Page, ev: Event, path: seq<nat>)
    ensures Entries(w, p, ev, [], path) == []
  {
    if path != [] { NoEntries(w, p, ev, path[..|path| - 1]); }
  }

  /** The inner loop: a selector is tried once per element. */
  method MatchesOf(w: World, handlers: seq<HandleObj>, delegateCount: nat, cur: nat) returns (matches: seq<HandleObj>)
    requires delegateCount <= |handlers|
    requires forall i :: 0 <= i < delegateCount ==> handlers[i].Delegates()
    ensures matches == Matching(w, handlers[..delegateCount], cur)
  {
    matches := [];
    var tried: map<string, bool> := map[];
    for i := 0 to delegateCount
      invariant forall sel :: sel in tried ==> tried[sel] == w.matches(sel, cur)
      invariant matches == Matching(w, handlers[..i], cur)
    {
      var sel := handlers[i].selector.value;
      if sel !in tried {
        tried := tried[sel := w.matches(sel, cur)];
      }
      assert handlers[..i + 1][..i] == handlers[..i];
      if tried[sel] {
        matches := matches + [handlers[i]];
      }
    }
  }

  /** The queue of a bubbling event names, for each element of the path, exactly the delegated
      handlers that match there, as often as they are bound; inner elements before outer ones. */
  lemma EachPairOnce(w: World, p: Page, ev: Event, owner: nat, delegates: seq<HandleObj>)
    requires p.Valid() && ev.target < |p.parent|
    ensures var path := PathTo(p, ev.target, owner);
      var q := Entries(w, p, ev, delegates, path);
      && InnerFirst(q)
      && (forall e, h :: (exists x :: x in q && x.elem == e && h in x.handlers) <==>
            && e in path && e < |p.parent| && p.element[e] && !(ev.click && p.disabled[e])
            && h in delegates && h.Delegates() && w.matches(h.selector.value, e))
      && (forall x, h :: x in q && h in x.handlers ==> multiset(x.handlers)[h] == multiset(delegates)[h])
  {
    var path := PathTo(p, ev.target, owner);
    var q := Entries(w, p, ev, delegates, path);
    PathDescends(p, ev.target, owner);
    EntriesDescend(w, p, ev, delegates, path);
    EntriesMembers(w, p, ev, delegates, path);
    forall e, h
      ensures (exists x :: x in q && x.elem == e && h in x.handlers) <==>
        e in path && Eligible(p, ev, e) && h in delegates && h.Delegates() && w.matches(h.selector.value, e)
    {
      MatchingMembers(w, delegates, e);
      var x := Entry(e, Matching(w, delegates, e));
      if h in x.handlers { assert x in q <==> e in path && Eligible(p, ev, e); }
    }
    forall x, h | x in q && h in x.handlers ensures multiset(x.handlers)[h] == multiset(delegates)[h] {
      MatchingMembers(w, delegates, x.elem);
      MatchingCounts(w, delegates, x.elem, h);
    }
  }

  /** A matching handler stands in the entry as often as in the list. */
  lemma {:induction false} MatchingCounts(w: World, delegates: seq<HandleObj>, e: nat, h: HandleObj)
    requires h.Delegates() && w.matches(h.selector.value, e)
    ensures multiset(Matching(w, delegates, e))[h] == multiset(delegates)[h]
  {
    if delegates != [] {
      var last := |delegates| - 1;
      MatchingCounts(w, delegates[..last], e, h);
      assert delegates == delegates[..last] + [delegates[last]];
    }
  }

  // ----- dispatch -----

  /** What a call of a handler does to the event; returning false is StopPropagation. */
  datatype Effect = Continue | StopPropagation | StopImmediate

  datatype Call = Call(group: nat, elem: nat, handler: HandleObj)

  /** The calls an entry stands for when the event's own namespace is looked at. */
  function CallsOf(w: World, ns: Option<nat>, group: nat, elem: nat, hs: seq<HandleObj>): seq<Call> {
    if hs == [] then []
    else
      var rest, h := CallsOf(w, ns, group, elem, hs[..|hs| - 1]), hs[|hs| - 1];
      if ns.None? || w.inNamespace(ns.value, h.namespace) then rest + [Call(group, elem, h)] else rest
  }

  function HandlersOf(calls: seq<Call>): seq<HandleObj> { seq(|calls|, i requires 0 <= i < |calls| => calls[i].handler) }

  /** The calls of an entry: its handlers in their order, on its element, each as often as it is there;
      for an event with a namespace only those in it. */
  lemma CallsOfMeans(w: World, ns: Option<nat>, group: nat, elem: nat, hs: seq<HandleObj>)
    ensures var calls := CallsOf(w, ns, group, elem, hs);
      && Subsequence(HandlersOf(calls), hs)
      && (forall i :: 0 <= i < |calls| ==> calls[i].group == group && calls[i].elem == elem)
      && (forall h :: multiset(HandlersOf(calls))[h]
                      == if ns.None? || w.inNamespace(ns.value, h.namespace) then multiset(hs)[h] else 0)
  {
    CallsOfOrder(w, ns, group, elem, hs);
    forall h { CallsOfCounts(w, ns, group, elem, hs, h); }
  }

  lemma {:induction false} CallsOfOrder(w: World, ns: Option<nat>, group: nat, elem: nat, hs: seq<HandleObj>)
    ensures var calls := CallsOf(w, ns, group, elem, hs);
      && Subsequence(HandlersOf(calls), hs)
      && (forall i :: 0 <= i < |calls| ==> calls[i].group == group && calls[i].elem == elem)
  {
    if hs != [] {
      var init, h := hs[..|hs| - 1], hs[|hs| - 1];
      var rest := CallsOf(w, ns, group, elem, init);
      CallsOfOrder(w, ns, group, elem, init);
      SubsequenceGrows(HandlersOf(rest), init, h);
      assert hs == init + [h];
      if ns.None? || w.inNamespace(ns.value, h.namespace) {
        assert HandlersOf(CallsOf(w, ns, group, elem, hs)) == HandlersOf(rest) + [h];
      } else {
        assert CallsOf(w, ns, group, elem, hs) == rest;
      }
    }
  }

  lemma {:induction false} CallsOfCounts(w: World, ns: Option<nat>, group: nat, elem: nat, hs: seq<HandleObj>, h: HandleObj)
    ensures multiset(HandlersOf(CallsOf(w, ns, group, elem, hs)))[h]
         == if ns.None? || w.inNamespace(ns.value, h.namespace) then multiset(hs)[h] else 0
  {
    if hs != [] {
      var init, g := hs[..|hs| - 1], hs[|hs| - 1];
      var rest := CallsOf(w, ns, group, elem, init);
      CallsOfCounts(w, ns, group, elem, init, h);
      assert hs == init + [g] && HandlersOf(rest + [Call(group, elem, g)]) == HandlersOf(rest) + [g];
    }
  }

  /** All calls the queue stands for, in order. */
  function AllCalls(w: World, ns: Option<nat>, queue: seq<Entry>): seq<Call> {
    if queue == [] then []
    else
      var g := |queue| - 1;
      AllCalls(w, ns, queue[..g]) + CallsOf(w, ns, g, queue[g].elem, queue[g].handlers)
  }

  /** Call i is due unless an earlier call stopped the event at once, or stopped it for elements
      further out. */
  ghost predicate Due(all: seq<Call>, effect: nat -> Effect, i: nat)
    requires i < |all|
  {
    forall j: nat :: j < i ==> !effect(j).StopImmediate? && (effect(j).Continue? || all[j].group == all[i].group)
  }

  /** The calls made are the first ones, all of them due, and the next one, if any, is not. */
  ghost predicate DueCalls(all: seq<Call>, effect: nat -> Effect, n: nat) {
    && n <= |all|
    && (forall i: nat :: i < n ==> Due(all, effect, i))
    && (n < |all| ==> !Due(all, effect, n))
  }

  /** No call of group g or an earlier one is missing from the first part. */
  lemma {:induction false} AllCallsSplit(w: World, ns: Option<nat>, queue: seq<Entry>, g: nat)
    requires g <= |queue|
    ensures AllCalls(w, ns, queue[..g]) <= AllCalls(w, ns, queue)
    ensures forall i :: |AllCalls(w, ns, queue[..g])| <= i < |AllCalls(w, ns, queue)| ==> AllCalls(w, ns, queue)[i].group >= g
  {
    if g == |queue| {
      assert queue[..g] == queue;
    } else {
      var last := |queue| - 1;
      AllCallsSplit(w, ns, queue[..last], g);
      assert queue[..last][..g] == queue[..g];
      OneGroup(w, ns, last, queue[last].elem, queue[last].handlers);
    }
  }

  lemma {:induction false} OneGroup(w: World, ns: Option<nat>, group: nat, elem: nat, hs: seq<HandleObj>)
    ensures forall i :: 0 <= i < |CallsOf(w, ns, group, elem, hs)| ==> CallsOf(w, ns, group, elem, hs)[i].group == group
  {
    if hs != [] { OneGroup(w, ns, group, elem, hs[..|hs| - 1]); }
  }

  lemma {:induction false} CallsOfPrefix(w: World, ns: Option<nat>, group: nat, elem: nat, hs: seq<HandleObj>, j: nat)
    requires j <= |hs|
    ensures CallsOf(w, ns, group, elem, hs[..j]) <= CallsOf(w, ns, group, elem, hs)
  {
    if j == |hs| {
      assert hs[..j] == hs;
    } else {
      CallsOfPrefix(w, ns, group, elem, hs[..|hs| - 1], j);
      assert hs[..|hs| - 1][..j] == hs[..j];
    }
  }

  /** The calls of one entry, made after `before`. */
  ghost predicate Made(effect: nat -> Effect, before: seq<Call>, group: seq<Call>, calls: seq<Call>, stopped: bool, atOnce: bool) {
    && before <= calls <= before + group
    && (!atOnce ==> forall k: nat :: |before| <= k < |calls| ==> !effect(k).StopImmediate?)
    && (atOnce ==> |calls| > |before| && effect(|calls| - 1).StopImmediate?
                   && forall k: nat :: |before| <= k < |calls| - 1 ==> !effect(k).StopImmediate?)
    && (stopped <==> exists k: nat :: |before| <= k < |calls| && !effect(k).Continue?)
  }

  /** The inner loop of dispatch. */
  method RunEntry(w: World, ns: Option<nat>, g: nat, elem: nat, hs: seq<HandleObj>, effect: nat -> Effect, before: seq<Call>)
    returns (calls: seq<Call>, stopped: bool, atOnce: bool)
    ensures Made(effect, before, CallsOf(w, ns, g, elem, hs), calls, stopped, atOnce)
    ensures !atOnce ==> calls == before + CallsOf(w, ns, g, elem, hs)
  {
    calls, stopped, atOnce := before, false, false;
    var j := 0;
    while j < |hs| && !atOnce
      invariant 0 <= j <= |hs|
      invariant calls == before + CallsOf(w, ns, g, elem, hs[..j])
      invariant Made(effect, before, CallsOf(w, ns, g, elem, hs[..j]), calls, stopped, atOnce)
    {
      var handleObj := hs[j];
      assert hs[..j + 1][..j] == hs[..j];
      if ns.None? || w.inNamespace(ns.value, handleObj.namespace) {
        var ret := effect(|calls|);
        calls := calls + [Call(g, elem, handleObj)];
        if ret != Continue { stopped := true; }
        if ret == StopImmediate { atOnce := true; }
        assert !effect(|calls| - 1).Continue? <==> ret != Continue;
      }
      j := j + 1;
    }
    CallsOfPrefix(w, ns, g, elem, hs, j);
    assert hs[..|hs|] == hs;
  }

  /** jQuery.event.dispatch: effect(k) is what the k-th call does to the event.  The handlers
      called are those of the queue, in order, up to the first that is not due; none, if the
      event comes with its propagation stopped. */
  method Dispatch(w: World, ns: Option<nat>, queue: seq<Entry>, effect: nat -> Effect, stoppedBefore: bool)
    returns (calls: seq<Call>)
    ensures calls <= AllCalls(w, ns, queue)
    ensures if stoppedBefore then calls == [] else DueCalls(AllCalls(w, ns, queue), effect, |calls|)
  {
    calls := [];
    if stoppedBefore { return; }
    var i, stopped := 0, false;
    while i < |queue| && !stopped
      invariant 0 <= i <= |queue|
      invariant !stopped ==> calls == AllCalls(w, ns, queue[..i]) && forall k: nat :: k < |calls| ==> effect(k).Continue?
      invariant stopped ==> calls <= AllCalls(w, ns, queue) && DueCalls(AllCalls(w, ns, queue), effect, |calls|)
    {
      var matched := queue[i];
      ghost var before := calls;
      var atOnce;
      calls, stopped, atOnce := RunEntry(w, ns, i, matched.elem, matched.handlers, effect, calls);
      assert queue[..i + 1][..i] == queue[..i];
      assert AllCalls(w, ns, queue[..i + 1]) == before + CallsOf(w, ns, i, matched.elem, matched.handlers);
      if stopped {
        StoppedIn(w, ns, queue, i, effect, before, calls, atOnce);
      }
      i := i + 1;
    }
    if !stopped {
      assert queue[..i] == queue;
    }
  }

  /** Stopping during entry g leaves exactly the due calls made. */
  lemma StoppedIn(w: World, ns: Option<nat>, queue: seq<Entry>, g: nat, effect: nat -> Effect, before: seq<Call>, calls: seq<Call>, atOnce: bool)
    requires g < |queue| && before == AllCalls(w, ns, queue[..g]) && forall k: nat :: k < |before| ==> effect(k).Continue?
    requires Made(effect, before, CallsOf(w, ns, g, queue[g].elem, queue[g].handlers), calls, true, atOnce)
    requires !atOnce ==> calls == before + CallsOf(w, ns, g, queue[g].elem, queue[g].handlers)
    ensures calls <= AllCalls(w, ns, queue) && DueCalls(AllCalls(w, ns, queue), effect, |calls|)
  {
    var rest := Layout(w, ns, queue, g);
    StoppedBetween(AllCalls(w, ns, queue), before, CallsOf(w, ns, g, queue[g].elem, queue[g].handlers), rest, g,
                   effect, calls, atOnce);
  }

  /** All calls: those before entry g, those of entry g, those of later entries. */
  lemma Layout(w: World, ns: Option<nat>, queue: seq<Entry>, g: nat) returns (rest: seq<Call>)
    requires g < |queue|
    ensures AllCalls(w, ns, queue) == AllCalls(w, ns, queue[..g]) + CallsOf(w, ns, g, queue[g].elem, queue[g].handlers) + rest
    ensures forall i :: 0 <= i < |CallsOf(w, ns, g, queue[g].elem, queue[g].handlers)| ==>
      CallsOf(w, ns, g, queue[g].elem, queue[g].handlers)[i].group == g
    ensures forall i :: 0 <= i < |rest| ==> rest[i].group > g
  {
    assert queue[..g + 1][..g] == queue[..g];
    var all, front := AllCalls(w, ns, queue), AllCalls(w, ns, queue[..g + 1]);
    AllCallsSplit(w, ns, queue, g + 1);
    OneGroup(w, ns, g, queue[g].elem, queue[g].handlers);
    rest := all[|front|..];
    assert all[..|front|] == front;
    forall i | 0 <= i < |rest| ensures rest[i].group > g { assert rest[i] == all[|front| + i]; }
  }

  lemma StoppedBetween(all: seq<Call>, before: seq<Call>, group: seq<Call>, rest: seq<Call>, g: nat, effect: nat -> Effect,
                       calls: seq<Call>, atOnce: bool)
    requires all == before + group + rest
    requires forall i :: 0 <= i < |group| ==> group[i].group == g
    requires forall i :: 0 <= i < |rest| ==> rest[i].group > g
    requires forall k: nat :: k < |before| ==> effect(k).Continue?
    requires Made(effect, before, group, calls, true, atOnce) && (!atOnce ==> calls == before + group)
    ensures calls <= all && DueCalls(all, effect, |calls|)
  {
    assert forall k :: |before| <= k < |before + group| ==> all[k].group == g;
    forall i: nat | i < |calls| ensures Due(all, effect, i) {
    }
    if |calls| < |all| {
      if atOnce {
        assert effect(|calls| - 1).StopImmediate?;
      } else {
        var k: nat :| |before| <= k < |calls| && !effect(k).Continue?;
        assert all[|calls|] == rest[0];
        assert !(effect(k).Continue? || all[k].group == all[|calls|].group);
      }
    }
  }
}
