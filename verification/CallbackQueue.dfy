/** What a jQuery callback list promises, as a queue: a firing works through a queue of
    occurrences, adding appends to it, removing filters it.  Callbacks.dfy shows that the
    index arithmetic of src/main/webapp/javascript/jquery-1.10.2.js does the same. */
module CallbackQueue {
  import opened Basics

  datatype Flags = Flags(once: bool, memory: bool, unique: bool, stopOnFalse: bool)

  /** A callback: a user's, or one of the three that a Deferred puts on its own lists. */
  datatype Fn = User(id: nat) | SetState | DisableOther | LockProgress

  /** Stands for the context and arguments of one fireWith. */
  type Data = nat

  /** One occurrence of a callback in the list; no two occurrences share a tag. */
  datatype Occ = Occ(fn: Fn, tag: nat)

  /** The books of one firing: every occurrence in the list at its start or appended since,
      those called, those taken out before their turn, those passed over. */
  datatype Firing =
    Firing(data: Data, offered: seq<Occ>, ran: seq<Occ>, struck: set<nat>, missed: set<nat>)

  datatype State = State(
    flags: Flags, alive: bool, stacked: bool, list: seq<Occ>, memory: Option<Data>, fired: bool,
    waiting: seq<Data>, now: Option<Firing>, todo: seq<Occ>, lag: nat,
    done: seq<Firing>, asked: seq<Data>, next: nat)

  function Fresh(flags: Flags): State {
    State(flags, true, !flags.once, [], None, false, [], None, [], 0, [], [], 0)
  }

  // ----- occurrence lists -----

  function Init(xs: seq<Occ>): seq<Occ> requires xs != [] { xs[..|xs| - 1] }

  function Last(xs: seq<Occ>): Occ requires xs != [] { xs[|xs| - 1] }

  function Fns(xs: seq<Occ>): seq<Fn> { seq(|xs|, i requires 0 <= i < |xs| => xs[i].fn) }

  lemma FnsConcat(xs: seq<Occ>, ys: seq<Occ>)
    ensures Fns(xs + ys) == Fns(xs) + Fns(ys)
  {
  }

  function Tags(xs: seq<Occ>): set<nat> { TagsTo(xs, |xs|) }

  function TagsTo(xs: seq<Occ>, n: nat): set<nat>
    requires n <= |xs|
  {
    if n == 0 then {} else TagsTo(xs, n - 1) + {xs[n - 1].tag}
  }

  lemma {:induction false} TagsMembers(xs: seq<Occ>)
    ensures forall t :: t in Tags(xs) <==> exists i :: 0 <= i < |xs| && xs[i].tag == t
  {
    TagsToMembers(xs, |xs|);
  }

  lemma {:induction false} TagsToMembers(xs: seq<Occ>, n: nat)
    requires n <= |xs|
    ensures forall t :: t in TagsTo(xs, n) <==> exists i :: 0 <= i < n && xs[i].tag == t
  {
    if n > 0 { TagsToMembers(xs, n - 1); }
  }

  /** xs without the occurrences whose tag is in drop. */
  function Keep(xs: seq<Occ>, drop: set<nat>): seq<Occ> {
    if xs == [] then []
    else if Last(xs).tag in drop then Keep(Init(xs), drop)
    else Keep(Init(xs), drop) + [Last(xs)]
  }

  /** xs without the occurrences of fn. */
  function Without(xs: seq<Occ>, fn: Fn): seq<Occ> {
    if xs == [] then []
    else if Last(xs).fn == fn then Without(Init(xs), fn)
    else Without(Init(xs), fn) + [Last(xs)]
  }

  predicate Contains(xs: seq<Occ>, fn: Fn) {
    exists i :: 0 <= i < |xs| && xs[i].fn == fn
  }

  predicate Ascending(xs: seq<Occ>) {
    forall i, j :: 0 <= i < j < |xs| ==> xs[i].tag < xs[j].tag
  }

  predicate Below(xs: seq<Occ>, n: nat) {
    forall i :: 0 <= i < |xs| ==> xs[i].tag < n
  }

  predicate Numbered(xs: seq<Occ>, n: nat) {
    forall i :: 0 <= i < |xs| ==> xs[i].tag == n + i
  }

  /** The occurrences that adding fs creates, given the list so far. */
  function Joining(unique: bool, list: seq<Occ>, fs: seq<Fn>, next: nat): (r: seq<Occ>)
    decreases |fs|
  {
    if fs == [] then []
    else if unique && Contains(list, fs[0]) then Joining(unique, list, fs[1..], next)
    else [Occ(fs[0], next)] + Joining(unique, list + [Occ(fs[0], next)], fs[1..], next + 1)
  }

  // ----- steps -----

  /** Takes up firing with data d from position start: fire() up to its first call. */
  function Begin(s: State, d: Data, start: nat): State
    requires start <= |s.list|
    decreases |s.waiting|, 2
  {
    Resume(s.(memory := if s.flags.memory then Some(d) else None, fired := true, lag := 0,
              now := Some(Firing(d, s.list[start..], [], {}, {})), todo := s.list[start..]))
  }

  /** Calls the next occurrence, or ends the firing. */
  function Resume(s: State): State
    requires s.now.Some?
    decreases |s.waiting|, 1
  {
    if s.todo == [] then Finish(s)
    else s.(todo := s.todo[1..], now := Some(s.now.value.(ran := s.now.value.ran + [s.todo[0]])))
  }

  function Finish(s: State): State
    requires s.now.Some?
    decreases |s.waiting|, 0
  {
    var t := s.(done := s.done + [s.now.value], now := None, todo := [], lag := 0);
    if !s.alive then t
    else if s.stacked then (if s.waiting == [] then t else Begin(t.(waiting := s.waiting[1..]), s.waiting[0], 0))
    else if s.memory.Some? then t.(list := [])
    else Disable(t)
  }

  /** Takes the rest of the current firing away.  From now on the firing is deaf to as many
      appended occurrences as there are entries behind its cursor. */
  function CutShort(s: State, byRemoval: bool): State {
    if s.now.None? then s
    else
      var f := s.now.value;
      var lost := Tags(s.todo);
      s.(todo := [],
         lag := s.lag + if |s.todo| <= |s.list| then |s.list| - |s.todo| else 0,
         now := Some(if byRemoval then f.(struck := f.struck + lost) else f.(missed := f.missed + lost)))
  }

  function Disable(s: State): State {
    CutShort(s, false).(alive := false, stacked := false, list := [], memory := None, waiting := [])
  }

  function Lock(s: State): State {
    var t := s.(stacked := false, waiting := []);
    if s.memory.None? then Disable(t) else t
  }

  function Empty(s: State): State {
    CutShort(s, true).(alive := true, list := [])
  }

  function Add(s: State, fs: seq<Fn>): State {
    if !s.alive then s
    else
      var more := Joining(s.flags.unique, s.list, fs, s.next);
      var t := s.(list := s.list + more, next := s.next + |more|);
      if s.now.Some? then
        var f := s.now.value;
        var k := if s.lag < |more| then s.lag else |more|;
        t.(todo := s.todo + more[k..], lag := s.lag - k,
           now := Some(f.(offered := f.offered + more, missed := f.missed + Tags(more[..k]))))
      else if s.memory.Some? then
        Begin(t.(asked := s.asked + [s.memory.value]), s.memory.value, |s.list|)
      else t
  }

  function Remove(s: State, fn: Fn): State {
    if !s.alive then s
    else
      var t := s.(list := Without(s.list, fn), todo := Without(s.todo, fn));
      if s.now.None? then t
      else
        var f := s.now.value;
        t.(now := Some(f.(struck := f.struck + (Tags(s.todo) - Tags(Without(s.todo, fn))))))
  }

  function Fire(s: State, d: Data): State {
    if !s.alive || (s.fired && !s.stacked) then s
    else
      var t := s.(asked := s.asked + [d]);
      if s.now.Some? then t.(waiting := s.waiting + [d]) else Begin(t, d, 0)
  }

  /** The callback in progress returns; ok is false when it returned false. */
  function Return(s: State, ok: bool): State {
    if s.now.None? then s
    else if !ok && s.flags.stopOnFalse then Finish(CutShort(s, false).(memory := None))
    else Resume(s)
  }

  datatype Op =
    | OpAdd(fs: seq<Fn>) | OpRemove(fn: Fn) | OpFire(d: Data) | OpReturn(ok: bool)
    | OpEmpty | OpDisable | OpLock

  function Step(s: State, op: Op): State {
    match op
    case OpAdd(fs) => Add(s, fs)
    case OpRemove(fn) => Remove(s, fn)
    case OpFire(d) => Fire(s, d)
    case OpReturn(ok) => Return(s, ok)
    case OpEmpty => Empty(s)
    case OpDisable => Disable(s)
    case OpLock => Lock(s)
  }

  function Run(s: State, ops: seq<Op>): State {
    if ops == [] then s else Step(Run(s, ops[..|ops| - 1]), ops[|ops| - 1])
  }

  // ----- the books always balance -----

  /** Called and still to be called, in order, are the offered occurrences less those taken out
      or passed over; and no occurrence was offered twice. */
  ghost predicate Balanced(f: Firing, todo: seq<Occ>) {
    Ascending(f.offered) && f.ran + todo == Keep(f.offered, f.struck + f.missed)
  }

  ghost predicate ListInv(s: State) {
    && Ascending(s.list) && Below(s.list, s.next)
    && (!s.alive ==> s.list == [] && !s.stacked && s.memory.None?)
    && (!s.stacked ==> s.waiting == [])
    && (forall i :: 0 <= i < |s.done| ==> Balanced(s.done[i], []))
  }

  ghost predicate FiringInv(f: Firing, list: seq<Occ>, todo: seq<Occ>, next: nat) {
    && |todo| <= |list| && todo == list[|list| - |todo|..]
    && Below(f.offered, next)
    && (forall t :: t in f.struck + f.missed ==> t < next)
    && Balanced(f, todo)
  }

  ghost predicate Inv(s: State) {
    && ListInv(s)
    && (s.now.None? ==> s.todo == [] && s.lag == 0 && s.waiting == [])
    && (s.lag > 0 ==> s.todo == [])
    && (s.now.Some? ==> s.fired && FiringInv(s.now.value, s.list, s.todo, s.next))
  }

  lemma {:induction false} KeepConcat(xs: seq<Occ>, ys: seq<Occ>, drop: set<nat>)
    ensures Keep(xs + ys, drop) == Keep(xs, drop) + Keep(ys, drop)
  {
    if ys == [] {
      assert xs + ys == xs;
    } else {
      KeepConcat(xs, Init(ys), drop);
      assert Init(xs + ys) == xs + Init(ys);
    }
  }

  lemma {:induction false} WithoutConcat(xs: seq<Occ>, ys: seq<Occ>, fn: Fn)
    ensures Without(xs + ys, fn) == Without(xs, fn) + Without(ys, fn)
  {
    if ys == [] {
      assert xs + ys == xs;
    } else {
      WithoutConcat(xs, Init(ys), fn);
      assert Init(xs + ys) == xs + Init(ys);
    }
  }

  lemma {:induction false} KeepTwice(xs: seq<Occ>, a: set<nat>, b: set<nat>)
    ensures Keep(Keep(xs, a), b) == Keep(xs, a + b)
  {
    if xs != [] {
      KeepTwice(Init(xs), a, b);
      if Last(xs).tag !in a {
        var ys := Keep(Init(xs), a) + [Last(xs)];
        assert Init(ys) == Keep(Init(xs), a) && Last(ys) == Last(xs);
      }
    }
  }

  lemma {:induction false} KeepClear(xs: seq<Occ>, drop: set<nat>)
    requires forall i :: 0 <= i < |xs| ==> xs[i].tag !in drop
    ensures Keep(xs, drop) == xs
  {
    if xs != [] { KeepClear(Init(xs), drop); }
  }

  lemma {:induction false} KeepNone(xs: seq<Occ>, drop: set<nat>)
    requires Tags(xs) <= drop
    ensures Keep(xs, drop) == []
  {
    if xs != [] {
      TagsMembers(xs);
      TagsMembers(Init(xs));
      KeepNone(Init(xs), drop);
    }
  }

  lemma {:induction false} KeepAscending(xs: seq<Occ>, drop: set<nat>)
    requires Ascending(xs)
    ensures Ascending(Keep(xs, drop))
    ensures forall i :: 0 <= i < |Keep(xs, drop)| ==> Keep(xs, drop)[i] in xs && Keep(xs, drop)[i].tag !in drop
  {
    if xs != [] { KeepAscending(Init(xs), drop); }
  }

  lemma {:induction false} WithoutMembers(xs: seq<Occ>, fn: Fn)
    ensures forall o :: o in Without(xs, fn) <==> o in xs && o.fn != fn
  {
    if xs != [] {
      WithoutMembers(Init(xs), fn);
      assert xs == Init(xs) + [Last(xs)];
    }
  }

  /** Removing a callback is dropping the tags of its occurrences. */
  lemma {:induction false} WithoutIsKeep(xs: seq<Occ>, fn: Fn, drop: set<nat>)
    requires forall i :: 0 <= i < |xs| ==> (xs[i].tag in drop <==> xs[i].fn == fn)
    ensures Without(xs, fn) == Keep(xs, drop)
  {
    if xs != [] { WithoutIsKeep(Init(xs), fn, drop); }
  }

  /** The tags that removing fn from an ascending queue takes out. */
  lemma GoneTags(xs: seq<Occ>, fn: Fn)
    requires Ascending(xs)
    ensures var gone := Tags(xs) - Tags(Without(xs, fn));
      forall i :: 0 <= i < |xs| ==> (xs[i].tag in gone <==> xs[i].fn == fn)
  {
    var rest := Without(xs, fn);
    TagsMembers(xs);
    TagsMembers(rest);
    WithoutMembers(xs, fn);
    forall i | 0 <= i < |xs| ensures xs[i].tag in Tags(rest) <==> xs[i].fn != fn {
      if xs[i].tag in Tags(rest) {
        var j :| 0 <= j < |rest| && rest[j].tag == xs[i].tag;
        assert rest[j] in rest;
      }
      if xs[i].fn != fn {
        assert xs[i] in rest;
      }
    }
  }

  lemma WithoutAscending(xs: seq<Occ>, fn: Fn, next: nat)
    requires Ascending(xs) && Below(xs, next)
    ensures Ascending(Without(xs, fn)) && Below(Without(xs, fn), next)
  {
    var gone := Tags(xs) - Tags(Without(xs, fn));
    GoneTags(xs, fn);
    WithoutIsKeep(xs, fn, gone);
    KeepAscending(xs, gone);
    forall i | 0 <= i < |Without(xs, fn)| ensures Without(xs, fn)[i].tag < next {
      assert Keep(xs, gone)[i] in xs;
    }
  }

  lemma {:induction false} JoiningTags(unique: bool, list: seq<Occ>, fs: seq<Fn>, next: nat)
    ensures Numbered(Joining(unique, list, fs, next), next)
    decreases |fs|
  {
    if fs != [] {
      var r := Joining(unique, list, fs, next);
      if unique && Contains(list, fs[0]) {
        JoiningTags(unique, list, fs[1..], next);
        assert r == Joining(unique, list, fs[1..], next);
      } else {
        var o := Occ(fs[0], next);
        JoiningTags(unique, list + [o], fs[1..], next + 1);
        assert r == [o] + Joining(unique, list + [o], fs[1..], next + 1);
      }
    }
  }

  lemma NewFiring(d: Data, list: seq<Occ>, start: nat, next: nat)
    requires Ascending(list) && Below(list, next) && start <= |list|
    ensures FiringInv(Firing(d, list[start..], [], {}, {}), list, list[start..], next)
  {
    NewBalanced(d, list[start..]);
  }

  lemma NewBalanced(d: Data, todo: seq<Occ>)
    requires Ascending(todo)
    ensures Balanced(Firing(d, todo, [], {}, {}), todo)
  {
    var none: set<nat> := {};
    KeepClear(todo, none);
    assert none + none == none && [] + todo == todo;
  }

  lemma {:induction false} BeginInv(s: State, d: Data, start: nat)
    requires ListInv(s) && s.alive && start <= |s.list|
    ensures Inv(Begin(s, d, start))
    decreases |s.waiting|, 2
  {
    NewFiring(d, s.list, start, s.next);
    var t := s.(memory := if s.flags.memory then Some(d) else None, fired := true, lag := 0,
                now := Some(Firing(d, s.list[start..], [], {}, {})), todo := s.list[start..]);
    assert ListInv(t);
    ResumeInv(t);
  }

  lemma {:induction false} ResumeInv(s: State)
    requires Inv(s) && s.now.Some?
    ensures Inv(Resume(s))
    decreases |s.waiting|, 1
  {
    if s.todo == [] {
      FinishInv(s);
    } else {
      var f := s.now.value;
      var g := f.(ran := f.ran + [s.todo[0]]);
      assert f.ran + s.todo == g.ran + s.todo[1..];
      assert FiringInv(g, s.list, s.todo[1..], s.next);
    }
  }

  /** The state with the current firing closed. */
  function Closed(s: State): State
    requires s.now.Some?
  {
    s.(done := s.done + [s.now.value], now := None, todo := [], lag := 0)
  }

  lemma ClosedInv(s: State)
    requires Inv(s) && s.now.Some?
    ensures s.todo == [] ==> ListInv(Closed(s))
  {
    var f := s.now.value;
    assert s.todo == [] ==> Balanced(f, []);
    assert forall i :: 0 <= i < |Closed(s).done| ==> Closed(s).done[i] == if i < |s.done| then s.done[i] else f;
  }

  lemma {:induction false} FinishInv(s: State)
    requires Inv(s) && s.now.Some?
    ensures s.todo == [] ==> Inv(Finish(s))
    decreases |s.waiting|, 0
  {
    var t := Closed(s);
    ClosedInv(s);
    if s.todo != [] {
    } else if !s.alive {
      assert Finish(s) == t;
    } else if s.stacked {
      if s.waiting != [] {
        var u := t.(waiting := s.waiting[1..]);
        assert ListInv(u);
        BeginInv(u, s.waiting[0], 0);
        assert Finish(s) == Begin(u, s.waiting[0], 0);
      }
    } else if s.memory.Some? {
      assert Finish(s) == t.(list := []);
    } else {
      assert CutShort(t, false) == t;
      assert Finish(s) == t.(alive := false, stacked := false, list := [], memory := None, waiting := []);
    }
  }

  /** Dropping tags that were neither called nor taken out before filters the queue. */
  lemma DropMore(f: Firing, todo: seq<Occ>, gone: set<nat>)
    requires Balanced(f, todo) && gone <= Tags(todo)
    ensures Keep(f.offered, f.struck + f.missed + gone) == f.ran + Keep(todo, gone)
    ensures Ascending(todo)
  {
    KeepTwice(f.offered, f.struck + f.missed, gone);
    KeepAscending(f.offered, f.struck + f.missed);
    RanApart(f.ran, todo);
    KeepConcat(f.ran, todo, gone);
    TagsMembers(f.ran);
    KeepClear(f.ran, gone);
  }

  lemma CutShortInv(s: State, byRemoval: bool)
    requires Inv(s)
    ensures Inv(CutShort(s, byRemoval)) && CutShort(s, byRemoval).todo == []
  {
    if s.now.Some? {
      var f := s.now.value;
      var g := CutShort(s, byRemoval).now.value;
      var gone := Tags(s.todo);
      DropMore(f, s.todo, gone);
      KeepNone(s.todo, gone);
      assert g.struck + g.missed == f.struck + f.missed + gone;
      TodoBelow(s.list, s.todo, s.next);
      assert f.ran + [] == f.ran;
      assert FiringInv(g, s.list, [], s.next);
    }
  }

  lemma TodoBelow(list: seq<Occ>, todo: seq<Occ>, next: nat)
    requires Below(list, next) && |todo| <= |list| && todo == list[|list| - |todo|..]
    ensures forall t :: t in Tags(todo) ==> t < next
  {
    TagsMembers(todo);
  }

  lemma RanApart(ran: seq<Occ>, todo: seq<Occ>)
    requires Ascending(ran + todo)
    ensures Tags(ran) !! Tags(todo) && Ascending(todo)
  {
    TagsMembers(ran);
    TagsMembers(todo);
    forall i, j | 0 <= i < |ran| && 0 <= j < |todo| ensures ran[i].tag < todo[j].tag {
      assert (ran + todo)[i].tag < (ran + todo)[|ran| + j].tag;
    }
    forall i, j | 0 <= i < j < |todo| ensures todo[i].tag < todo[j].tag {
      assert (ran + todo)[|ran| + i].tag < (ran + todo)[|ran| + j].tag;
    }
  }

  lemma {:induction false} KeepSame(xs: seq<Occ>, a: set<nat>, b: set<nat>)
    requires forall i :: 0 <= i < |xs| ==> (xs[i].tag in a <==> xs[i].tag in b)
    ensures Keep(xs, a) == Keep(xs, b)
  {
    if xs != [] { KeepSame(Init(xs), a, b); }
  }

  lemma KeepTail(more: seq<Occ>, k: nat, next: nat, dropped: set<nat>)
    requires k <= |more| && Numbered(more, next) && forall t :: t in dropped ==> t < next
    ensures Keep(more, dropped + Tags(more[..k])) == more[k..]
  {
    var drop := dropped + Tags(more[..k]);
    TagsBelow(more, k, next);
    assert forall i :: 0 <= i < |more| - k ==> more[k..][i].tag >= next + k;
    KeepBehind(more[..k], more[k..], drop);
    assert more[..k] + more[k..] == more;
  }

  lemma KeepBehind(xs: seq<Occ>, ys: seq<Occ>, drop: set<nat>)
    requires Tags(xs) <= drop && forall i :: 0 <= i < |ys| ==> ys[i].tag !in drop
    ensures Keep(xs + ys, drop) == ys
  {
    KeepNone(xs, drop);
    KeepClear(ys, drop);
    KeepConcat(xs, ys, drop);
  }

  lemma TagsBelow(more: seq<Occ>, k: nat, next: nat)
    requires k <= |more| && Numbered(more, next)
    ensures forall t :: t in Tags(more[..k]) ==> t < next + k
  {
    TagsMembers(more[..k]);
  }

  /** New tags are dropped only as far as the firing is deaf. */
  lemma KeepOffered(offered: seq<Occ>, dropped: set<nat>, more: seq<Occ>, k: nat, next: nat)
    requires Below(offered, next) && k <= |more| && Numbered(more, next)
    requires forall t :: t in dropped ==> t < next
    ensures Keep(offered + more, dropped + Tags(more[..k])) == Keep(offered, dropped) + more[k..]
  {
    KeepConcat(offered, more, dropped + Tags(more[..k]));
    TagsMembers(more[..k]);
    KeepSame(offered, dropped, dropped + Tags(more[..k]));
    KeepTail(more, k, next, dropped);
  }

  lemma OfferMore(f: Firing, todo: seq<Occ>, more: seq<Occ>, k: nat, next: nat)
    requires Balanced(f, todo) && Below(f.offered, next) && k <= |more| && Numbered(more, next)
    requires forall t :: t in f.struck + f.missed ==> t < next
    ensures Balanced(f.(offered := f.offered + more, missed := f.missed + Tags(more[..k])), todo + more[k..])
  {
    KeepOffered(f.offered, f.struck + f.missed, more, k, next);
    assert f.struck + (f.missed + Tags(more[..k])) == (f.struck + f.missed) + Tags(more[..k]);
    assert f.ran + (todo + more[k..]) == (f.ran + todo) + more[k..];
  }

  lemma AddedList(s: State, more: seq<Occ>)
    requires ListInv(s) && s.alive && Numbered(more, s.next)
    ensures ListInv(s.(list := s.list + more, next := s.next + |more|))
  {
  }

  lemma AddedFiring(s: State, more: seq<Occ>, k: nat)
    requires Inv(s) && s.now.Some? && Numbered(more, s.next) && k <= |more| && k <= s.lag
    ensures var f := s.now.value;
      FiringInv(f.(offered := f.offered + more, missed := f.missed + Tags(more[..k])),
                s.list + more, s.todo + more[k..], s.next + |more|)
  {
    OfferMore(s.now.value, s.todo, more, k, s.next);
    TagsMembers(more[..k]);
  }

  lemma AddInv(s: State, fs: seq<Fn>)
    requires Inv(s)
    ensures Inv(Add(s, fs))
  {
    if s.alive {
      var more := Joining(s.flags.unique, s.list, fs, s.next);
      JoiningTags(s.flags.unique, s.list, fs, s.next);
      AddedList(s, more);
      if s.now.Some? {
        AddedFiring(s, more, if s.lag < |more| then s.lag else |more|);
      } else if s.memory.Some? {
        var t := s.(list := s.list + more, next := s.next + |more|, asked := s.asked + [s.memory.value]);
        assert ListInv(t);
        BeginInv(t, s.memory.value, |s.list|);
      }
    }
  }

  lemma RemovedFiring(f: Firing, list: seq<Occ>, todo: seq<Occ>, fn: Fn, next: nat)
    requires FiringInv(f, list, todo, next) && Ascending(list) && Below(list, next)
    ensures FiringInv(f.(struck := f.struck + (Tags(todo) - Tags(Without(todo, fn)))),
                      Without(list, fn), Without(todo, fn), next)
  {
    var rest, n := Without(todo, fn), |list| - |todo|;
    var gone := Tags(todo) - Tags(rest);
    DropMore(f, todo, gone);
    GoneTags(todo, fn);
    WithoutIsKeep(todo, fn, gone);
    assert f.struck + gone + f.missed == f.struck + f.missed + gone;
    TodoBelow(list, todo, next);
    assert list == list[..n] + todo;
    WithoutConcat(list[..n], todo, fn);
  }

  lemma RemoveInv(s: State, fn: Fn)
    requires Inv(s)
    ensures Inv(Remove(s, fn))
  {
    if s.alive {
      WithoutAscending(s.list, fn, s.next);
      if s.now.Some? { RemovedFiring(s.now.value, s.list, s.todo, fn, s.next); }
    }
  }

  lemma ReturnInv(s: State, ok: bool)
    requires Inv(s)
    ensures Inv(Return(s, ok))
  {
    if s.now.Some? {
      if !ok && s.flags.stopOnFalse {
        CutShortInv(s, false);
        FinishInv(CutShort(s, false).(memory := None));
      } else {
        ResumeInv(s);
      }
    }
  }

  lemma FireInv(s: State, d: Data)
    requires Inv(s)
    ensures Inv(Fire(s, d))
  {
    if s.alive && (!s.fired || s.stacked) {
      var t := s.(asked := s.asked + [d]);
      if s.now.None? {
        assert ListInv(t);
        BeginInv(t, d, 0);
      } else {
        assert FiringInv(s.now.value, s.list, s.todo, s.next);
      }
    }
  }

  lemma LockInv(s: State)
    requires Inv(s)
    ensures Inv(Lock(s))
  {
    var t := s.(stacked := false, waiting := []);
    assert Inv(t);
    CutShortInv(t, false);
  }

  lemma EmptyInv(s: State)
    requires Inv(s)
    ensures Inv(Empty(s))
  {
    CutShortInv(s, true);
  }

  lemma DisableInv(s: State)
    requires Inv(s)
    ensures Inv(Disable(s))
  {
    CutShortInv(s, false);
  }

  lemma StepInv(s: State, op: Op)
    requires Inv(s)
    ensures Inv(Step(s, op))
  {
    match op
    case OpAdd(fs) => AddInv(s, fs);
    case OpRemove(fn) => RemoveInv(s, fn);
    case OpFire(d) => FireInv(s, d);
    case OpReturn(ok) => ReturnInv(s, ok);
    case OpEmpty => EmptyInv(s);
    case OpDisable => DisableInv(s);
    case OpLock => LockInv(s);
  }

  /** The books balance in every reachable state, whatever the callbacks do to the list. */
  lemma {:induction false} RunInv(flags: Flags, ops: seq<Op>)
    ensures Inv(Run(Fresh(flags), ops))
  {
    if ops != [] {
      RunInv(flags, ops[..|ops| - 1]);
      StepInv(Run(Fresh(flags), ops[..|ops| - 1]), ops[|ops| - 1]);
    }
  }

  // ----- what a firing does, in terms of its books -----

  lemma {:induction false} KeepMembers(xs: seq<Occ>, drop: set<nat>)
    ensures forall o :: o in Keep(xs, drop) <==> o in xs && o.tag !in drop
  {
    if xs != [] {
      KeepMembers(Init(xs), drop);
      assert xs == Init(xs) + [Last(xs)];
    }
  }

  /** The books of all firings, the one in progress last. */
  function Books(s: State): seq<Firing> { s.done + if s.now.Some? then [s.now.value] else [] }

  /** From a to b firings went on; the books of those in a got no new entries. */
  ghost predicate Continued(a: seq<Firing>, b: seq<Firing>) {
    && |a| <= |b|
    && (forall i :: 0 <= i < |a| ==> SameBooks(a[i], b[i]))
    && (forall i :: |a| <= i < |b| ==> b[i].struck == {} && b[i].missed == {})
  }

  predicate SameBooks(f: Firing, g: Firing) { g.offered == f.offered && g.struck == f.struck && g.missed == f.missed }

  lemma {:induction false} BeginContinues(s: State, d: Data, start: nat)
    requires s.now.None? && start <= |s.list|
    ensures Continued(Books(s), Books(Begin(s, d, start)))
    decreases |s.waiting|, 2
  {
    var t := s.(memory := if s.flags.memory then Some(d) else None, fired := true, lag := 0,
                now := Some(Firing(d, s.list[start..], [], {}, {})), todo := s.list[start..]);
    ResumeContinues(t);
    assert Begin(s, d, start) == Resume(t);
  }

  lemma {:induction false} ResumeContinues(s: State)
    requires s.now.Some?
    ensures Continued(Books(s), Books(Resume(s)))
    decreases |s.waiting|, 1
  {
    if s.todo == [] { FinishContinues(s); }
  }

  lemma {:induction false} FinishContinues(s: State)
    requires s.now.Some?
    ensures Continued(Books(s), Books(Finish(s)))
    decreases |s.waiting|, 0
  {
    var t := s.(done := s.done + [s.now.value], now := None, todo := [], lag := 0);
    assert Books(t) == Books(s);
    if s.alive && s.stacked && s.waiting != [] {
      var u := t.(waiting := s.waiting[1..]);
      assert Books(u) == Books(s);
      BeginContinues(u, s.waiting[0], 0);
      assert Finish(s) == Begin(u, s.waiting[0], 0);
    }
  }

  predicate TakesOut(op: Op, o: Occ) { op == OpEmpty || op == OpRemove(o.fn) }

  /** What an operation does to the firing in progress, before firings go on. */
  function Entered(s: State, op: Op): State {
    match op
    case OpAdd(fs) => if s.alive && s.now.Some? then Add(s, fs) else s
    case OpRemove(fn) => Remove(s, fn)
    case OpFire(_) => s
    case OpReturn(ok) => if !ok && s.flags.stopOnFalse then CutShort(s, false) else s
    case OpEmpty => Empty(s)
    case OpDisable => CutShort(s, false)
    case OpLock => if s.memory.None? then CutShort(s, false) else s
  }

  lemma StepContinues(s: State, op: Op)
    requires Inv(s)
    ensures Continued(Books(Entered(s, op)), Books(Step(s, op)))
  {
    match op
    case OpAdd(fs) => AddContinues(s, fs);
    case OpRemove(fn) =>
    case OpFire(d) => FireContinues(s, d);
    case OpReturn(ok) => ReturnContinues(s, ok);
    case OpEmpty =>
    case OpDisable => DisableContinues(s);
    case OpLock => LockContinues(s);
  }

  lemma AddContinues(s: State, fs: seq<Fn>)
    requires Inv(s)
    ensures Continued(Books(Entered(s, OpAdd(fs))), Books(Add(s, fs)))
  {
    if s.alive && s.now.None? && s.memory.Some? {
      var more := Joining(s.flags.unique, s.list, fs, s.next);
      var t := s.(list := s.list + more, next := s.next + |more|, asked := s.asked + [s.memory.value]);
      BeginContinues(t, s.memory.value, |s.list|);
    }
  }

  lemma FireContinues(s: State, d: Data)
    requires Inv(s)
    ensures Continued(Books(s), Books(Fire(s, d)))
  {
    if s.alive && (!s.fired || s.stacked) && s.now.None? {
      BeginContinues(s.(asked := s.asked + [d]), d, 0);
    }
  }

  lemma ReturnContinues(s: State, ok: bool)
    requires Inv(s)
    ensures Continued(Books(Entered(s, OpReturn(ok))), Books(Return(s, ok)))
  {
    if s.now.Some? {
      if !ok && s.flags.stopOnFalse {
        FinishContinues(CutShort(s, false).(memory := None));
      } else {
        ResumeContinues(s);
      }
    }
  }

  lemma DisableContinues(s: State)
    ensures Continued(Books(CutShort(s, false)), Books(Disable(s)))
  {
  }

  lemma LockContinues(s: State)
    ensures Continued(Books(Entered(s, OpLock)), Books(Lock(s)))
  {
  }

  /** o waits for its turn in firing number i. */
  ghost predicate Due(s: State, i: nat, o: Occ) { s.now.Some? && |s.done| == i && o in s.todo }

  /** From f to g, what op takes from the queue is struck out. */
  ghost predicate Strikes(f: Firing, g: Firing, todo: seq<Occ>, op: Op) {
    && g.offered == f.offered
    && forall o :: o in f.offered ==> (o.tag in g.struck <==> o.tag in f.struck || (o in todo && TakesOut(op, o)))
  }

  lemma DueOffered(s: State)
    requires Inv(s) && s.now.Some?
    ensures forall o :: o in s.todo ==> o in s.now.value.offered
  {
    var f := s.now.value;
    KeepMembers(f.offered, f.struck + f.missed);
    forall o | o in s.todo ensures o in f.offered { assert o in f.ran + s.todo; }
  }

  lemma EmptyStrikes(s: State)
    requires Inv(s) && s.now.Some?
    ensures Empty(s).now.Some? && Strikes(s.now.value, Empty(s).now.value, s.todo, OpEmpty)
  {
    DueOffered(s);
    TodoAscends(s);
    forall o | o in s.now.value.offered ensures o.tag in Tags(s.todo) <==> o in s.todo {
      StruckTags(s.now.value, s.todo, OpEmpty, o);
    }
  }

  lemma RemoveStrikes(s: State, fn: Fn)
    requires Inv(s) && s.now.Some?
    ensures Remove(s, fn).now.Some? && Strikes(s.now.value, Remove(s, fn).now.value, s.todo, OpRemove(fn))
  {
    DueOffered(s);
    TodoAscends(s);
    if s.alive {
      forall o | o in s.now.value.offered
        ensures o.tag in Tags(s.todo) - Tags(Without(s.todo, fn)) <==> o in s.todo && TakesOut(OpRemove(fn), o)
      {
        StruckTags(s.now.value, s.todo, OpRemove(fn), o);
      }
    }
  }

  lemma TodoAscends(s: State)
    requires Inv(s) && s.now.Some?
    ensures Ascending(s.todo)
  {
  }

  lemma StruckTags(f: Firing, todo: seq<Occ>, op: Op, o: Occ)
    requires Ascending(f.offered) && o in f.offered && (op.OpEmpty? || op.OpRemove?)
    requires Ascending(todo) && forall x :: x in todo ==> x in f.offered
    ensures var gone := if op.OpEmpty? then Tags(todo) else Tags(todo) - Tags(Without(todo, op.fn));
      o.tag in gone <==> o in todo && TakesOut(op, o)
  {
    TagsMembers(todo);
    if op.OpRemove? { GoneTags(todo, op.fn); }
    forall x | x in todo && x.tag == o.tag ensures x == o { SameTag(f.offered, x, o); }
  }

  lemma SameTag(xs: seq<Occ>, x: Occ, y: Occ)
    requires Ascending(xs) && x in xs && y in xs && x.tag == y.tag
    ensures x == y
  {
    var i :| 0 <= i < |xs| && xs[i] == x;
    var j :| 0 <= j < |xs| && xs[j] == y;
    assert i == j;
  }

  /** Operation k of the run is a removal that found o waiting for its turn in firing i. */
  ghost predicate TakenAt(flags: Flags, ops: seq<Op>, k: nat, i: nat, o: Occ) {
    k < |ops| && TakesOut(ops[k], o) && Due(Run(Fresh(flags), ops[..k]), i, o)
  }

  ghost predicate TakenOut(flags: Flags, ops: seq<Op>, i: nat, o: Occ) {
    exists k: nat :: TakenAt(flags, ops, k, i, o)
  }

  lemma TakenAtEarly(flags: Flags, ops: seq<Op>, k: nat, i: nat, o: Occ)
    requires k < |ops| - 1
    ensures TakenAt(flags, ops[..|ops| - 1], k, i, o) <==> TakenAt(flags, ops, k, i, o)
  {
    assert ops[..|ops| - 1][..k] == ops[..k];
  }

  lemma TakenOutStep(flags: Flags, ops: seq<Op>, i: nat, o: Occ)
    requires ops != []
    ensures TakenOut(flags, ops, i, o) <==>
            TakenOut(flags, ops[..|ops| - 1], i, o) || TakenAt(flags, ops, |ops| - 1, i, o)
  {
    if TakenOut(flags, ops[..|ops| - 1], i, o) {
      var k: nat :| TakenAt(flags, ops[..|ops| - 1], k, i, o);
      TakenAtEarly(flags, ops, k, i, o);
    }
    if TakenOut(flags, ops, i, o) {
      var k: nat :| TakenAt(flags, ops, k, i, o);
      if k < |ops| - 1 { TakenAtEarly(flags, ops, k, i, o); }
    }
  }

  ghost predicate Struck(s: State, i: nat, o: Occ) {
    i < |Books(s)| && o in Books(s)[i].offered && o.tag in Books(s)[i].struck
  }

  /** What the books of a firing strike out is what removals took out while it waited. */
  lemma {:induction false} StruckIff(flags: Flags, ops: seq<Op>, i: nat, o: Occ)
    ensures Struck(Run(Fresh(flags), ops), i, o) <==> TakenOut(flags, ops, i, o)
  {
    if ops != [] {
      var before, op := ops[..|ops| - 1], ops[|ops| - 1];
      StruckIff(flags, before, i, o);
      TakenOutStep(flags, ops, i, o);
      RunInv(flags, before);
      StruckStep(Run(Fresh(flags), before), op, i, o);
    }
  }

  lemma StruckStep(s: State, op: Op, i: nat, o: Occ)
    requires Inv(s)
    ensures Struck(Step(s, op), i, o) <==> Struck(s, i, o) || (Due(s, i, o) && TakesOut(op, o))
  {
    StepContinues(s, op);
    StruckEntered(s, op, i, o);
    var a, b := Books(Entered(s, op)), Books(Step(s, op));
    if i < |a| { assert SameBooks(a[i], b[i]); }
  }

  lemma StruckEntered(s: State, op: Op, i: nat, o: Occ)
    requires Inv(s)
    ensures Struck(Entered(s, op), i, o) <==> Struck(s, i, o) || (Due(s, i, o) && TakesOut(op, o))
  {
    if s.now.Some? {
      match op
      case OpAdd(fs) => StruckByAdd(s, fs, i, o);
      case OpRemove(fn) => StruckByRemove(s, fn, i, o);
      case OpEmpty => StruckByEmpty(s, i, o);
      case _ =>
    }
  }

  lemma StruckByAdd(s: State, fs: seq<Fn>, i: nat, o: Occ)
    requires Inv(s) && s.now.Some?
    ensures Struck(Entered(s, OpAdd(fs)), i, o) <==> Struck(s, i, o)
  {
    AddOffers(s, fs);
  }

  lemma StruckByRemove(s: State, fn: Fn, i: nat, o: Occ)
    requires Inv(s) && s.now.Some?
    ensures Struck(Remove(s, fn), i, o) <==> Struck(s, i, o) || (Due(s, i, o) && TakesOut(OpRemove(fn), o))
  {
    DueOffered(s);
    RemoveStrikes(s, fn);
  }

  lemma StruckByEmpty(s: State, i: nat, o: Occ)
    requires Inv(s) && s.now.Some?
    ensures Struck(Empty(s), i, o) <==> Struck(s, i, o) || Due(s, i, o)
  {
    DueOffered(s);
    EmptyStrikes(s);
  }

  /** What is added is offered; the entries that the firing is deaf to are passed over. */
  lemma AddOffers(s: State, fs: seq<Fn>)
    requires Inv(s) && s.now.Some?
    ensures var f, more := s.now.value, Joining(s.flags.unique, s.list, fs, s.next);
      var t := Entered(s, OpAdd(fs));
      && t.done == s.done && t.now.Some? && t.now.value.struck == f.struck
      && t.now.value.offered == (if s.alive then f.offered + more else f.offered)
      && t.now.value.missed == (if s.alive then f.missed + Tags(more[..if s.lag < |more| then s.lag else |more|]) else f.missed)
      && (forall o :: o in more ==> o.tag >= s.next)
      && (forall o :: o in f.offered ==> o.tag < s.next) && (forall t :: t in f.struck + f.missed ==> t < s.next)
  {
    JoiningTags(s.flags.unique, s.list, fs, s.next);
  }

  // ----- what is passed over -----

  /** An operation that ends the firing in progress without taking its callbacks away. */
  predicate CutsOff(s: State, op: Op) {
    op.OpDisable? || (op.OpLock? && s.memory.None?) || (op.OpReturn? && !op.ok && s.flags.stopOnFalse)
  }

  /** o is added while the firing in progress is deaf to it. */
  predicate Unheard(s: State, op: Op, o: Occ) {
    s.alive && op.OpAdd? &&
    var more := Joining(s.flags.unique, s.list, op.fs, s.next);
    o in more[..if s.lag < |more| then s.lag else |more|]
  }

  /** Operation k of the run passes o over in firing i: it finds o due and ends the firing, or adds
      o unheard. */
  ghost predicate PassedAt(flags: Flags, ops: seq<Op>, k: nat, i: nat, o: Occ) {
    k < |ops| && PassesOver(Run(Fresh(flags), ops[..k]), ops[k], i, o)
  }

  ghost predicate PassesOver(s: State, op: Op, i: nat, o: Occ) {
    s.now.Some? && |s.done| == i && ((o in s.todo && CutsOff(s, op)) || Unheard(s, op, o))
  }

  ghost predicate PassedOver(flags: Flags, ops: seq<Op>, i: nat, o: Occ) {
    exists k: nat :: PassedAt(flags, ops, k, i, o)
  }

  ghost predicate MissedBy(s: State, i: nat, o: Occ) {
    i < |Books(s)| && o in Books(s)[i].offered && o.tag in Books(s)[i].missed
  }

  lemma MissedStep(s: State, op: Op, i: nat, o: Occ)
    requires Inv(s)
    ensures MissedBy(Step(s, op), i, o) <==> MissedBy(s, i, o) || PassesOver(s, op, i, o)
  {
    StepContinues(s, op);
    MissedEntered(s, op, i, o);
    var a, b := Books(Entered(s, op)), Books(Step(s, op));
    if i < |a| { assert SameBooks(a[i], b[i]); }
  }

  lemma MissedEntered(s: State, op: Op, i: nat, o: Occ)
    requires Inv(s)
    ensures MissedBy(Entered(s, op), i, o) <==> MissedBy(s, i, o) || PassesOver(s, op, i, o)
  {
    if s.now.Some? {
      if op.OpAdd? {
        MissedByAdd(s, op.fs, i, o);
      } else if CutsOff(s, op) {
        CutMisses(s, i, o);
      } else {
        MissedByNone(s, op, i, o);
      }
    }
  }

  lemma MissedByNone(s: State, op: Op, i: nat, o: Occ)
    requires Inv(s) && s.now.Some? && !op.OpAdd? && !CutsOff(s, op)
    ensures MissedBy(Entered(s, op), i, o) <==> MissedBy(s, i, o)
  {
    match op
    case OpRemove(fn) => MissedSame(s, Remove(s, fn), i, o);
    case OpEmpty => MissedSame(s, Empty(s), i, o);
    case _ =>
  }

  lemma MissedSame(s: State, t: State, i: nat, o: Occ)
    requires s.now.Some? && t.now.Some? && t.done == s.done
    requires t.now.value.offered == s.now.value.offered && t.now.value.missed == s.now.value.missed
    ensures MissedBy(t, i, o) <==> MissedBy(s, i, o)
  {
  }

  lemma MissedByAdd(s: State, fs: seq<Fn>, i: nat, o: Occ)
    requires Inv(s) && s.now.Some?
    ensures MissedBy(Entered(s, OpAdd(fs)), i, o) <==>
            MissedBy(s, i, o) || (|s.done| == i && Unheard(s, OpAdd(fs), o))
  {
    AddOffers(s, fs);
    if s.alive {
      var more := Joining(s.flags.unique, s.list, fs, s.next);
      JoiningTags(s.flags.unique, s.list, fs, s.next);
      HeadTags(more, if s.lag < |more| then s.lag else |more|, s.next, o);
    }
  }

  /** Numbered from next on, the first k are known by their tags. */
  lemma HeadTags(more: seq<Occ>, k: nat, next: nat, o: Occ)
    requires Numbered(more, next) && k <= |more|
    ensures o in more[..k] ==> o in more
    ensures o in more ==> (o.tag in Tags(more[..k]) <==> o in more[..k])
    ensures o.tag < next ==> o.tag !in Tags(more[..k]) && o !in more[..k]
  {
    TagsMembers(more[..k]);
    if o in more && o.tag in Tags(more[..k]) {
      var j :| 0 <= j < k && more[..k][j].tag == o.tag;
      assert more[j].tag == o.tag;
    }
  }

  lemma CutMisses(s: State, i: nat, o: Occ)
    requires Inv(s) && s.now.Some?
    ensures MissedBy(CutShort(s, false), i, o) <==> MissedBy(s, i, o) || (|s.done| == i && o in s.todo)
  {
    DueOffered(s);
    TodoAscends(s);
    if o in s.now.value.offered { StruckTags(s.now.value, s.todo, OpEmpty, o); }
  }

  lemma PassedEarly(flags: Flags, ops: seq<Op>, k: nat, i: nat, o: Occ)
    requires k < |ops| - 1
    ensures PassedAt(flags, ops[..|ops| - 1], k, i, o) <==> PassedAt(flags, ops, k, i, o)
  {
    assert ops[..|ops| - 1][..k] == ops[..k];
  }

  /** What the books of a firing pass over is what it was cut off from, or deaf to. */
  lemma {:induction false} MissedIff(flags: Flags, ops: seq<Op>, i: nat, o: Occ)
    ensures MissedBy(Run(Fresh(flags), ops), i, o) <==> PassedOver(flags, ops, i, o)
  {
    if ops != [] {
      var before := ops[..|ops| - 1];
      MissedIff(flags, before, i, o);
      PassedStep(flags, ops, i, o);
      RunInv(flags, before);
      MissedStep(Run(Fresh(flags), before), ops[|ops| - 1], i, o);
    }
  }

  lemma PassedStep(flags: Flags, ops: seq<Op>, i: nat, o: Occ)
    requires ops != []
    ensures PassedOver(flags, ops, i, o) <==>
            PassedOver(flags, ops[..|ops| - 1], i, o) || PassedAt(flags, ops, |ops| - 1, i, o)
  {
    if PassedOver(flags, ops[..|ops| - 1], i, o) {
      var k: nat :| PassedAt(flags, ops[..|ops| - 1], k, i, o);
      PassedEarly(flags, ops, k, i, o);
    }
    if PassedOver(flags, ops, i, o) {
      var k: nat :| PassedAt(flags, ops, k, i, o);
      if k < |ops| - 1 { PassedEarly(flags, ops, k, i, o); }
    }
  }

  /** In every run, every finished firing has called exactly the occurrences it was offered, each
      once and in the order of the list, but for those that a removal took out before their turn
      and those that it was cut off from or deaf to. */
  lemma CalledExactlyOnce(flags: Flags, ops: seq<Op>, i: nat)
    requires i < |Run(Fresh(flags), ops).done|
    ensures var f := Run(Fresh(flags), ops).done[i];
      && (forall o :: o in f.ran <==> o in f.offered && !TakenOut(flags, ops, i, o) && !PassedOver(flags, ops, i, o))
      && Ascending(f.ran) && Ascending(f.offered)
  {
    RunInv(flags, ops);
    var f := Run(Fresh(flags), ops).done[i];
    assert f.ran + [] == f.ran;
    KeepMembers(f.offered, f.struck + f.missed);
    KeepAscending(f.offered, f.struck + f.missed);
    forall o ensures o in f.offered && o.tag in f.struck <==> TakenOut(flags, ops, i, o) { StruckIff(flags, ops, i, o); }
    forall o ensures o in f.offered && o.tag in f.missed <==> PassedOver(flags, ops, i, o) { MissedIff(flags, ops, i, o); }
  }

  /** empty, disable and lock are called between firings only, and no callback stops the loop. */
  predicate CalmOp(s: State, op: Op) {
    && (op.OpEmpty? || op.OpDisable? || op.OpLock? ==> s.now.None?)
    && (op.OpReturn? ==> op.ok || !s.flags.stopOnFalse)
  }

  predicate CalmRun(flags: Flags, ops: seq<Op>) {
    ops == [] ||
    (CalmRun(flags, ops[..|ops| - 1]) && CalmOp(Run(Fresh(flags), ops[..|ops| - 1]), ops[|ops| - 1]))
  }

  function Datas(fs: seq<Firing>): seq<Data> {
    seq(|fs|, i requires 0 <= i < |fs| => fs[i].data)
  }

  /** Nothing was passed over, and the firings started are the fires asked for, in order, up to
      those still waiting. */
  ghost predicate Calm(s: State) {
    && s.lag == 0
    && (forall i :: 0 <= i < |s.done| ==> s.done[i].missed == {})
    && (s.now.Some? ==> s.now.value.missed == {})
    && Datas(s.done) + (if s.now.Some? then [s.now.value.data] else []) + s.waiting == s.asked
  }

  predicate Queued(s: State) {
    (!s.alive ==> !s.stacked) && (!s.stacked ==> s.waiting == [])
  }

  /** The fires still to be started are d and then those waiting. */
  lemma {:induction false} BeginCalm(s: State, d: Data, start: nat)
    requires s.now.None? && start <= |s.list| && Queued(s)
    requires forall i :: 0 <= i < |s.done| ==> s.done[i].missed == {}
    requires Datas(s.done) + [d] + s.waiting == s.asked
    ensures Calm(Begin(s, d, start))
    decreases |s.waiting|, 2
  {
    ResumeCalm(s.(memory := if s.flags.memory then Some(d) else None, fired := true, lag := 0,
                  now := Some(Firing(d, s.list[start..], [], {}, {})), todo := s.list[start..]));
  }

  lemma {:induction false} ResumeCalm(s: State)
    requires s.now.Some? && Calm(s) && Queued(s)
    ensures Calm(Resume(s))
    decreases |s.waiting|, 1
  {
    if s.todo == [] { FinishCalm(s); }
  }

  lemma {:induction false} FinishCalm(s: State)
    requires s.now.Some? && Calm(s) && Queued(s)
    ensures Calm(Finish(s))
    decreases |s.waiting|, 0
  {
    var t := s.(done := s.done + [s.now.value], now := None, todo := [], lag := 0);
    assert Datas(t.done) == Datas(s.done) + [s.now.value.data];
    if s.waiting != [] {
      assert s.waiting == [s.waiting[0]] + s.waiting[1..];
      if s.alive && s.stacked {
        assert Datas(t.done) + [s.waiting[0]] + s.waiting[1..] == s.asked;
        BeginCalm(t.(waiting := s.waiting[1..]), s.waiting[0], 0);
      }
    }
  }

  lemma StepCalm(s: State, op: Op)
    requires Inv(s) && Calm(s) && CalmOp(s, op)
    ensures Calm(Step(s, op))
  {
    match op
    case OpAdd(fs) =>
      if s.alive && s.now.None? && s.memory.Some? {
        var more := Joining(s.flags.unique, s.list, fs, s.next);
        var t := s.(list := s.list + more, next := s.next + |more|, asked := s.asked + [s.memory.value]);
        BeginCalm(t, s.memory.value, |s.list|);
      }
    case OpRemove(fn) =>
    case OpFire(d) =>
      if s.alive && (!s.fired || s.stacked) {
        if s.now.None? {
          BeginCalm(s.(asked := s.asked + [d]), d, 0);
        } else {
          assert Datas(s.done) + [s.now.value.data] + (s.waiting + [d]) == s.asked + [d];
        }
      }
    case OpReturn(ok) => if s.now.Some? { ResumeCalm(s); }
    case OpEmpty =>
    case OpDisable =>
    case OpLock =>
  }

  /** With callbacks that only add, remove and fire, nothing offered is ever passed over, and
      firings start in the order of the fires asked for. */
  lemma {:induction false} RunCalm(flags: Flags, ops: seq<Op>)
    requires CalmRun(flags, ops)
    ensures Calm(Run(Fresh(flags), ops))
  {
    if ops != [] {
      var before := ops[..|ops| - 1];
      RunCalm(flags, before);
      RunInv(flags, before);
      StepCalm(Run(Fresh(flags), before), ops[|ops| - 1]);
    }
  }

  /** A callback that empties the list and then adds another: the other is not called. */
  lemma EmptyThenAddIsNotHeard()
    ensures var flags := Flags(false, false, false, false);
      var s := Step(Step(Step(Step(Step(Fresh(flags),
        OpAdd([User(0)])), OpFire(7)), OpEmpty), OpAdd([User(1)])), OpReturn(true));
      s.now.None? && |s.done| == 1 && |s.done[0].offered| == 2 && s.done[0].ran == [Occ(User(0), 0)] && s.list == [Occ(User(1), 1)]
  {
    var flags := Flags(false, false, false, false);
    var s0 := Fresh(flags);
    assert Joining(false, [], [User(0)], 0) == [Occ(User(0), 0)];
    var s1 := Step(s0, OpAdd([User(0)]));
    assert s1.list == [Occ(User(0), 0)];
    assert s1.list[0..] == s1.list;
    var s2 := Step(s1, OpFire(7));
    var f := Firing(7, s1.list, [], {}, {});
    assert s2 == Resume(s1.(asked := s1.asked + [7], memory := None, fired := true, lag := 0, now := Some(f), todo := s1.list));
    assert s2.now.Some? && s2.now.value.ran == [Occ(User(0), 0)] && s2.todo == [];
    var s3 := Step(s2, OpEmpty);
    assert s3.lag == 1;
    assert Joining(false, [], [User(1)], 1) == [Occ(User(1), 1)];
    var s4 := Step(s3, OpAdd([User(1)]));
    assert s4.list == [Occ(User(1), 1)] && s4.todo == [];
  }
}
