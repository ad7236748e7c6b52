/** What runs of a jQuery callback list do, in terms of the operations alone: which fires are
    carried out, with what data, and on which callbacks. */
module CallbackRuns {
  import opened Basics
  import opened CallbackQueue

  // ----- which fires, and with what -----

  /** Neither disabled nor locked on the way. */
  predicate Open(ops: seq<Op>) {
    forall i :: 0 <= i < |ops| ==> !ops[i].OpDisable? && !ops[i].OpLock?
  }

  /** Between firings. */
  predicate Quiet(flags: Flags, ops: seq<Op>) { Run(Fresh(flags), ops).now.None? }

  /** The last firing was stopped by a callback that returned false. */
  predicate Stopped(flags: Flags, ops: seq<Op>) {
    ops != [] &&
    var before := ops[..|ops| - 1];
    match ops[|ops| - 1]
    case OpFire(_) => flags.once && Stopped(flags, before)
    case OpReturn(false) =>
      if flags.stopOnFalse && !Quiet(flags, before) then Run(Fresh(flags), before).waiting == [] else Stopped(flags, before)
    case _ => Stopped(flags, before)
  }

  /** The data that the list is to be called with, one after the other: that of every fire, or of the
      first fire only; and, where it is remembered, the last again for what is added between
      firings. */
  function Wanted(flags: Flags, ops: seq<Op>): seq<Data> {
    if ops == [] then []
    else
      var before := ops[..|ops| - 1];
      var w := Wanted(flags, before);
      match ops[|ops| - 1]
      case OpFire(d) => if flags.once && w != [] then w else w + [d]
      case OpAdd(_) =>
        if flags.memory && w != [] && Quiet(flags, before) && !Stopped(flags, before) then w + [w[|w| - 1]] else w
      case _ => w
  }

  /** The data of the firings begun, then that of those waiting. */
  function Started(s: State): seq<Data> { Datas(Books(s)) + s.waiting }

  /** The list has fired, or is to fire, with w. */
  ghost predicate AsWanted(s: State, flags: Flags, w: seq<Data>, stopped: bool) {
    && s.flags == flags && s.stacked == !flags.once && (s.waiting != [] ==> s.stacked)
    && Started(s) == w && (s.fired <==> w != []) && (stopped ==> w != [] && s.now.None?)
    && (s.now.Some? || w == [] || !flags.once ==> s.alive)
    && (if s.now.Some? then s.memory == Recalled(flags, s.now.value.data)
        else s.waiting == [] &&
             if flags.memory && w != [] && !stopped then s.alive && s.memory == Some(w[|w| - 1]) else s.memory == None)
  }

  function Recalled(flags: Flags, d: Data): Option<Data> { if flags.memory then Some(d) else None }

  lemma {:induction false} BeginWanted(s: State, d: Data, start: nat, w: seq<Data>)
    requires s.now.None? && start <= |s.list| && s.alive && s.stacked == !s.flags.once && (s.waiting != [] ==> s.stacked)
    requires Datas(Books(s)) + [d] + s.waiting == w
    ensures AsWanted(Begin(s, d, start), s.flags, w, false)
    decreases |s.waiting|, 2
  {
    var t := s.(memory := Recalled(s.flags, d), fired := true, lag := 0,
                now := Some(Firing(d, s.list[start..], [], {}, {})), todo := s.list[start..]);
    assert Datas(Books(t)) == Datas(Books(s)) + [d];
    ResumeWanted(t, w);
  }

  lemma {:induction false} ResumeWanted(s: State, w: seq<Data>)
    requires s.now.Some? && w != [] && AsWanted(s, s.flags, w, false)
    ensures AsWanted(Resume(s), s.flags, w, false)
    decreases |s.waiting|, 1
  {
    if s.todo == [] {
      FinishWanted(s, w, false);
    } else {
      assert Datas(Books(Resume(s))) == Datas(Books(s));
    }
  }

  lemma {:induction false} FinishWanted(s: State, w: seq<Data>, stop: bool)
    requires s.now.Some? && w != []
    requires AsWanted(s.(memory := Recalled(s.flags, s.now.value.data)), s.flags, w, false)
    requires s.memory == if stop then None else Recalled(s.flags, s.now.value.data)
    ensures AsWanted(Finish(s), s.flags, w, stop && s.waiting == [])
    decreases |s.waiting|, 0
  {
    var t := Closed(s);
    assert Books(t) == Books(s);
    if s.waiting != [] {
      assert [s.waiting[0]] + s.waiting[1..] == s.waiting;
      assert Datas(Books(t)) + [s.waiting[0]] + s.waiting[1..] == w;
      BeginWanted(t.(waiting := s.waiting[1..]), s.waiting[0], 0, w);
    } else {
      assert Datas(s.done + [s.now.value])[|s.done|] == s.now.value.data;
      assert CutShort(t, false) == t;
    }
  }

  lemma SameStarted(s: State, t: State)
    requires t.done == s.done && t.waiting == s.waiting && t.now.Some? == s.now.Some?
    requires s.now.Some? ==> t.now.value.data == s.now.value.data
    ensures Started(t) == Started(s)
  {
    assert Datas(Books(t)) == Datas(Books(s));
  }

  lemma AddWanted(s: State, w: seq<Data>, stopped: bool, fs: seq<Fn>)
    requires AsWanted(s, s.flags, w, stopped)
    ensures AsWanted(Add(s, fs), s.flags,
      if s.flags.memory && w != [] && s.now.None? && !stopped then w + [w[|w| - 1]] else w, stopped)
  {
    if s.alive && s.now.None? && s.memory.Some? {
      var more := Joining(s.flags.unique, s.list, fs, s.next);
      var t := s.(list := s.list + more, next := s.next + |more|, asked := s.asked + [s.memory.value]);
      BeginWanted(t, s.memory.value, |s.list|, w + [s.memory.value]);
    } else {
      SameStarted(s, Add(s, fs));
    }
  }

  lemma FireWanted(s: State, w: seq<Data>, stopped: bool, d: Data)
    requires AsWanted(s, s.flags, w, stopped)
    ensures AsWanted(Fire(s, d), s.flags, if s.flags.once && w != [] then w else w + [d], s.flags.once && stopped)
  {
    if !s.flags.once || w == [] {
      if s.now.Some? {
        assert Books(Fire(s, d)) == Books(s);
        assert Started(Fire(s, d)) == Started(s) + [d];
      } else {
        assert w == Datas(Books(s));
        BeginWanted(s.(asked := s.asked + [d]), d, 0, w + [d]);
      }
    }
  }

  lemma ReturnWanted(s: State, w: seq<Data>, stopped: bool, ok: bool)
    requires AsWanted(s, s.flags, w, stopped)
    ensures AsWanted(Return(s, ok), s.flags, w,
      if !ok && s.flags.stopOnFalse && s.now.Some? then s.waiting == [] else stopped)
  {
    if s.now.Some? {
      assert Datas(Books(s))[|s.done|] == s.now.value.data;
      if !ok && s.flags.stopOnFalse {
        var t := CutShort(s, false).(memory := None);
        SameStarted(s, t.(memory := s.memory));
        FinishWanted(t, w, true);
      } else {
        ResumeWanted(s, w);
      }
    }
  }

  lemma StepWanted(s: State, w: seq<Data>, stopped: bool, op: Op)
    requires AsWanted(s, s.flags, w, stopped) && !op.OpDisable? && !op.OpLock?
    ensures AsWanted(Step(s, op), s.flags,
      match op
      case OpFire(d) => if s.flags.once && w != [] then w else w + [d]
      case OpAdd(_) => if s.flags.memory && w != [] && s.now.None? && !stopped then w + [w[|w| - 1]] else w
      case _ => w,
      match op
      case OpFire(_) => s.flags.once && stopped
      case OpReturn(false) => if s.flags.stopOnFalse && s.now.Some? then s.waiting == [] else stopped
      case _ => stopped)
  {
    match op
    case OpAdd(fs) => AddWanted(s, w, stopped, fs);
    case OpRemove(fn) => SameStarted(s, Remove(s, fn));
    case OpFire(d) => FireWanted(s, w, stopped, d);
    case OpReturn(ok) => ReturnWanted(s, w, stopped, ok);
    case OpEmpty => SameStarted(s, Empty(s));
  }

  lemma {:induction false} RunWanted(flags: Flags, ops: seq<Op>)
    requires Open(ops)
    ensures AsWanted(Run(Fresh(flags), ops), flags, Wanted(flags, ops), Stopped(flags, ops))
  {
    if ops != [] {
      var before := ops[..|ops| - 1];
      RunWanted(flags, before);
      StepWanted(Run(Fresh(flags), before), Wanted(flags, before), Stopped(flags, before), ops[|ops| - 1]);
    }
  }

  /** In every run without disable and lock, the data of the firings begun, in order, then that of
      those waiting, is what the operations ask for: no fire is lost, repeated or put before
      another. */
  lemma FiresInOrder(flags: Flags, ops: seq<Op>)
    requires Open(ops)
    ensures var s := Run(Fresh(flags), ops);
      && Datas(s.done) + (if s.now.Some? then [s.now.value.data] else []) + s.waiting == Wanted(flags, ops)
      && (s.now.None? ==> s.waiting == [])
  {
    RunWanted(flags, ops);
    var s := Run(Fresh(flags), ops);
    assert Datas(Books(s)) == Datas(s.done) + if s.now.Some? then [s.now.value.data] else [];
  }

  /** The data of the fires among ops. */
  function FireData(ops: seq<Op>): seq<Data> {
    if ops == [] then []
    else FireData(ops[..|ops| - 1]) + match ops[|ops| - 1] case OpFire(d) => [d] case _ => []
  }

  /** Without memory, what is wanted is every fire, or the first. */
  lemma {:induction false} WantedPlain(flags: Flags, ops: seq<Op>)
    requires !flags.memory
    ensures var all := FireData(ops);
      Wanted(flags, ops) == if flags.once && all != [] then [all[0]] else all
  {
    if ops != [] { WantedPlain(flags, ops[..|ops| - 1]); }
  }

  /** Without memory, every fire is carried out once, in turn, with its own data; of a once list the
      first alone. */
  lemma EveryFireOnce(flags: Flags, ops: seq<Op>)
    requires Open(ops) && !flags.memory
    ensures var s, all := Run(Fresh(flags), ops), FireData(ops);
      Datas(s.done) + (if s.now.Some? then [s.now.value.data] else []) + s.waiting
      == if flags.once && all != [] then [all[0]] else all
  {
    FiresInOrder(flags, ops);
    WantedPlain(flags, ops);
  }

  // ----- which callbacks -----

  /** The list l after adding fs. */
  function Appended(unique: bool, l: seq<Fn>, fs: seq<Fn>): seq<Fn> {
    if fs == [] then l
    else
      var a := Appended(unique, l, fs[..|fs| - 1]);
      if unique && fs[|fs| - 1] in a then a else a + [fs[|fs| - 1]]
  }

  lemma {:induction false} AppendedFront(unique: bool, l: seq<Fn>, fs: seq<Fn>)
    requires fs != []
    ensures Appended(unique, l, fs) == Appended(unique, if unique && fs[0] in l then l else l + [fs[0]], fs[1..])
  {
    if |fs| > 1 {
      AppendedFront(unique, l, fs[..|fs| - 1]);
      assert fs[..|fs| - 1][1..] == fs[1..][..|fs| - 2];
    } else {
      assert fs[1..] == [] && fs[..0] == [];
    }
  }

  /** The occurrences that join are those of the callbacks appended. */
  lemma {:induction false} JoiningAppends(unique: bool, list: seq<Occ>, fs: seq<Fn>, next: nat)
    ensures Fns(list + Joining(unique, list, fs, next)) == Appended(unique, Fns(list), fs)
    decreases |fs|
  {
    if fs == [] {
      assert list + [] == list;
    } else {
      AppendedFront(unique, Fns(list), fs);
      InFns(list, fs[0]);
      if unique && Contains(list, fs[0]) {
        JoiningAppends(unique, list, fs[1..], next);
      } else {
        var o := Occ(fs[0], next);
        JoiningAppends(unique, list + [o], fs[1..], next + 1);
        FnsConcat(list, [o]);
        assert Fns([o]) == [fs[0]];
        assert Joining(unique, list, fs, next) == [o] + Joining(unique, list + [o], fs[1..], next + 1);
        assert list + ([o] + Joining(unique, list + [o], fs[1..], next + 1))
            == list + [o] + Joining(unique, list + [o], fs[1..], next + 1);
      }
    }
  }

  lemma InFns(list: seq<Occ>, fn: Fn)
    ensures fn in Fns(list) <==> Contains(list, fn)
  {
    if Contains(list, fn) {
      var i :| 0 <= i < |list| && list[i].fn == fn;
      assert Fns(list)[i] == fn;
    }
  }

  predicate Distinct(l: seq<Fn>) { forall i, j :: 0 <= i < j < |l| ==> l[i] != l[j] }

  /** Some p comes before the first place of g in l and holds f. */
  predicate ComesBefore(l: seq<Fn>, f: Fn, g: Fn) {
    exists p :: 0 <= p < |l| && l[p] == f && g !in l[..p + 1]
  }

  /** Adding appends everything; to a unique list only what it does not hold yet, in the order of the
      first places, so that it comes to hold everything once. */
  lemma AppendedMeans(unique: bool, l: seq<Fn>, fs: seq<Fn>)
    ensures var r := Appended(unique, l, fs);
      && (!unique ==> r == l + fs)
      && (unique && Distinct(l) ==> Distinct(r) && forall i, j :: 0 <= i < j < |r| ==> ComesBefore(l + fs, r[i], r[j]))
      && (forall f :: f in r <==> f in l + fs)
  {
    AppendedAll(unique, l, fs);
    if unique && Distinct(l) { AppendedOrder(l, fs); }
  }

  lemma {:induction false} AppendedAll(unique: bool, l: seq<Fn>, fs: seq<Fn>)
    ensures var r := Appended(unique, l, fs); (!unique ==> r == l + fs) && forall f :: f in r <==> f in l + fs
  {
    if fs == [] {
      assert l + fs == l;
    } else {
      AppendedAll(unique, l, fs[..|fs| - 1]);
      assert l + fs == l + fs[..|fs| - 1] + [fs[|fs| - 1]];
    }
  }

  lemma {:induction false} AppendedOrder(l: seq<Fn>, fs: seq<Fn>)
    requires Distinct(l)
    ensures var r := Appended(true, l, fs);
      Distinct(r) && forall i, j :: 0 <= i < j < |r| ==> ComesBefore(l + fs, r[i], r[j])
  {
    var r := Appended(true, l, fs);
    if fs == [] {
      assert l + fs == l;
      forall i, j | 0 <= i < j < |l| ensures ComesBefore(l, l[i], l[j]) { assert l[j] !in l[..i + 1]; }
    } else {
      var before := fs[..|fs| - 1];
      AppendedOrder(l, before);
      AppendedAll(true, l, before);
      assert l + fs == l + before + [fs[|fs| - 1]];
      forall i, j | 0 <= i < j < |r| ensures ComesBefore(l + fs, r[i], r[j]) {
        if j < |Appended(true, l, before)| {
          EarlierStill(l + before, fs[|fs| - 1], r[i], r[j]);
        } else {
          Newest(l + before, r[i], r[j]);
        }
      }
    }
  }

  lemma EarlierStill(l: seq<Fn>, last: Fn, f: Fn, g: Fn)
    requires ComesBefore(l, f, g)
    ensures ComesBefore(l + [last], f, g)
  {
    var p :| 0 <= p < |l| && l[p] == f && g !in l[..p + 1];
    assert (l + [last])[..p + 1] == l[..p + 1];
  }

  lemma Newest(l: seq<Fn>, f: Fn, g: Fn)
    requires f in l && g !in l
    ensures ComesBefore(l + [g], f, g)
  {
    var p :| 0 <= p < |l| && l[p] == f;
    assert (l + [g])[..p + 1] == l[..p + 1];
  }

  function Dropped(l: seq<Fn>, fn: Fn): seq<Fn> {
    if l == [] then []
    else Dropped(l[..|l| - 1], fn) + if l[|l| - 1] == fn then [] else [l[|l| - 1]]
  }

  lemma {:induction false} WithoutDrops(xs: seq<Occ>, fn: Fn)
    ensures Fns(Without(xs, fn)) == Dropped(Fns(xs), fn)
  {
    if xs != [] {
      WithoutDrops(Init(xs), fn);
      assert Fns(xs)[..|xs| - 1] == Fns(Init(xs));
      FnsConcat(Without(Init(xs), fn), [Last(xs)]);
    }
  }

  /** Removing fn takes out every occurrence of fn and nothing else, and keeps the order. */
  lemma DroppedMeans(l: seq<Fn>, fn: Fn)
    ensures multiset(Dropped(l, fn)) == multiset(l)[fn := 0] && Subsequence(Dropped(l, fn), l)
  {
    DroppedCounts(l, fn);
    DroppedOrder(l, fn);
  }

  lemma {:induction false} DroppedCounts(l: seq<Fn>, fn: Fn)
    ensures multiset(Dropped(l, fn)) == multiset(l)[fn := 0]
  {
    if l != [] {
      DroppedCounts(l[..|l| - 1], fn);
      assert l == l[..|l| - 1] + [l[|l| - 1]];
    }
  }

  lemma {:induction false} DroppedOrder(l: seq<Fn>, fn: Fn)
    ensures Subsequence(Dropped(l, fn), l)
  {
    if l != [] {
      var before, f := l[..|l| - 1], l[|l| - 1];
      DroppedOrder(before, fn);
      SubsequenceGrows(Dropped(before, fn), before, f);
      assert l == before + [f];
      assert Dropped(l, fn) == if f == fn then Dropped(before, fn) else Dropped(before, fn) + [f];
    }
  }

  /** What a list that is not once holds, from the operations. */
  function Held(unique: bool, ops: seq<Op>): seq<Fn> {
    if ops == [] then []
    else
      var l := Held(unique, ops[..|ops| - 1]);
      match ops[|ops| - 1]
      case OpAdd(fs) => Appended(unique, l, fs)
      case OpRemove(fn) => Dropped(l, fn)
      case OpEmpty => []
      case _ => l
  }

  /** Firings leave the list as it is. */
  lemma {:induction false} ListHeld(flags: Flags, ops: seq<Op>)
    requires Open(ops) && !flags.once
    ensures Fns(Run(Fresh(flags), ops).list) == Held(flags.unique, ops)
  {
    if ops != [] {
      var before := ops[..|ops| - 1];
      ListHeld(flags, before);
      RunWanted(flags, before);
      ListStep(Run(Fresh(flags), before), ops[|ops| - 1]);
    }
  }

  lemma ListStep(s: State, op: Op)
    requires s.alive && s.stacked && !op.OpDisable? && !op.OpLock?
    ensures Fns(Step(s, op).list) == match op
      case OpAdd(fs) => Appended(s.flags.unique, Fns(s.list), fs)
      case OpRemove(fn) => Dropped(Fns(s.list), fn)
      case OpEmpty => []
      case _ => Fns(s.list)
  {
    match op
    case OpAdd(fs) =>
      var more := Joining(s.flags.unique, s.list, fs, s.next);
      JoiningAppends(s.flags.unique, s.list, fs, s.next);
      if s.now.None? && s.memory.Some? {
        BeginList(s.(list := s.list + more, next := s.next + |more|, asked := s.asked + [s.memory.value]), s.memory.value, |s.list|);
      }
    case OpRemove(fn) => WithoutDrops(s.list, fn);
    case OpFire(d) => if s.now.None? { BeginList(s.(asked := s.asked + [d]), d, 0); }
    case OpReturn(ok) =>
      if s.now.Some? {
        if !ok && s.flags.stopOnFalse { FinishList(CutShort(s, false).(memory := None)); } else { ResumeList(s); }
      }
    case OpEmpty =>
  }

  lemma {:induction false} BeginList(s: State, d: Data, start: nat)
    requires s.alive && s.stacked && start <= |s.list|
    ensures Begin(s, d, start).list == s.list
    decreases |s.waiting|, 2
  {
    ResumeList(s.(memory := Recalled(s.flags, d), fired := true, lag := 0,
                  now := Some(Firing(d, s.list[start..], [], {}, {})), todo := s.list[start..]));
  }

  lemma {:induction false} ResumeList(s: State)
    requires s.alive && s.stacked && s.now.Some?
    ensures Resume(s).list == s.list
    decreases |s.waiting|, 1
  {
    if s.todo == [] { FinishList(s); }
  }

  lemma {:induction false} FinishList(s: State)
    requires s.alive && s.stacked && s.now.Some?
    ensures Finish(s).list == s.list
    decreases |s.waiting|, 0
  {
    if s.waiting != [] { BeginList(Closed(s).(waiting := s.waiting[1..]), s.waiting[0], 0); }
  }

  // ----- what a firing is offered -----

  /** From a to b the firings in a kept what they were offered, and new ones were offered all. */
  ghost predicate Offers(a: seq<Firing>, b: seq<Firing>, all: seq<Occ>) {
    && |a| <= |b|
    && (forall i :: 0 <= i < |a| ==> b[i].data == a[i].data && b[i].offered == a[i].offered)
    && (forall i :: |a| <= i < |b| ==> b[i].offered == all)
  }

  lemma {:induction false} BeginOffers(s: State, d: Data, start: nat)
    requires s.now.None? && start <= |s.list| && (s.waiting != [] ==> s.alive && s.stacked && start == 0)
    ensures Offers(Books(s), Books(Begin(s, d, start)), s.list[start..])
    decreases |s.waiting|, 2
  {
    var t := s.(memory := Recalled(s.flags, d), fired := true, lag := 0,
                now := Some(Firing(d, s.list[start..], [], {}, {})), todo := s.list[start..]);
    ResumeOffers(t);
    assert s.list[0..] == s.list;
  }

  lemma {:induction false} ResumeOffers(s: State)
    requires s.now.Some? && (s.waiting != [] ==> s.alive && s.stacked)
    ensures Offers(Books(s), Books(Resume(s)), s.list)
    ensures s.waiting == [] ==> |Books(Resume(s))| == |Books(s)|
    decreases |s.waiting|, 1
  {
    if s.todo == [] { FinishOffers(s); }
  }

  lemma {:induction false} FinishOffers(s: State)
    requires s.now.Some? && (s.waiting != [] ==> s.alive && s.stacked)
    ensures Offers(Books(s), Books(Finish(s)), s.list)
    ensures s.waiting == [] ==> |Books(Finish(s))| == |Books(s)|
    decreases |s.waiting|, 0
  {
    var t := Closed(s);
    assert Books(t) == Books(s);
    if s.waiting != [] {
      BeginOffers(t.(waiting := s.waiting[1..]), s.waiting[0], 0);
      assert s.list[0..] == s.list;
    } else {
      assert Books(Finish(s)) == Books(t);
    }
  }

  lemma FireOffers(s: State, d: Data)
    requires Inv(s)
    ensures Offers(Books(s), Books(Fire(s, d)), s.list)
  {
    if s.now.None? && s.alive && (!s.fired || s.stacked) {
      BeginOffers(s.(asked := s.asked + [d]), d, 0);
      assert s.list[0..] == s.list;
    } else {
      assert Books(Fire(s, d)) == Books(s);
    }
  }

  lemma ReturnOffers(s: State, ok: bool)
    requires Inv(s)
    ensures Offers(Books(s), Books(Return(s, ok)), s.list)
  {
    if s.now.Some? {
      if !ok && s.flags.stopOnFalse { FinishOffers(CutShort(s, false).(memory := None)); } else { ResumeOffers(s); }
    }
  }

  /** Whatever is done, save adding: the firings there were are offered no more, and a new one, begun
      by a fire or when another ends, is offered the list as it stands. */
  lemma StepOffers(s: State, op: Op)
    requires Inv(s) && !op.OpAdd?
    ensures var a, b := Books(s), Books(Step(s, op));
      Offers(a, b, s.list) && (|a| < |b| ==> op.OpFire? || op.OpReturn?)
  {
    match op
    case OpFire(d) => FireOffers(s, d);
    case OpReturn(ok) => ReturnOffers(s, ok);
    case OpRemove(fn) => SameOffers(s, Remove(s, fn));
    case OpEmpty => SameOffers(s, Empty(s));
    case OpDisable => SameOffers(s, Disable(s));
    case OpLock => SameOffers(s, Lock(s));
  }

  lemma SameOffers(s: State, t: State)
    requires t.done == s.done && t.now.Some? == s.now.Some?
    requires s.now.Some? ==> t.now.value.offered == s.now.value.offered && t.now.value.data == s.now.value.data
    ensures Offers(Books(s), Books(t), s.list) && |Books(t)| == |Books(s)|
  {
  }

  /** Adding offers what is added: to the firing in progress, or, with something remembered, to a
      firing of its own. */
  lemma AddingOffers(s: State, fs: seq<Fn>)
    requires Inv(s) && s.alive
    ensures var more := Joining(s.flags.unique, s.list, fs, s.next);
      var a, b := Books(s), Books(Add(s, fs));
      && (s.now.None? ==> Offers(a, b, more) && |b| == |a| + if s.memory.Some? then 1 else 0)
      && (s.now.Some? ==> |b| == |a| && Offers(s.done, b, a[|a| - 1].offered + more) && b[|a| - 1].data == a[|a| - 1].data)
  {
    var more := Joining(s.flags.unique, s.list, fs, s.next);
    if s.now.None? && s.memory.Some? {
      var t := s.(list := s.list + more, next := s.next + |more|, asked := s.asked + [s.memory.value]);
      BeginOffers(t, s.memory.value, |s.list|);
      assert t.list[|s.list|..] == more;
      BeginOne(t, s.memory.value, |s.list|);
    }
  }

  lemma BeginOne(s: State, d: Data, start: nat)
    requires s.now.None? && start <= |s.list| && s.waiting == []
    ensures |Books(Begin(s, d, start))| == |Books(s)| + 1
  {
    var t := s.(memory := Recalled(s.flags, d), fired := true, lag := 0,
                now := Some(Firing(d, s.list[start..], [], {}, {})), todo := s.list[start..]);
    assert Begin(s, d, start) == Resume(t);
    ResumeOffers(t);
  }

  // ----- one call at a time -----

  function CallCount(fs: seq<Firing>): nat {
    if fs == [] then 0 else CallCount(fs[..|fs| - 1]) + |fs[|fs| - 1].ran|
  }

  /** How many calls have been made. */
  function Total(s: State): nat { CallCount(s.done) + if s.now.Some? then |s.now.value.ran| else 0 }

  /** t has made one call more than n, which is still in progress, or no firing is. */
  ghost predicate OneMore(t: State, n: nat) {
    Total(t) == n + (if t.now.Some? then 1 else 0) && (t.now.Some? ==> t.now.value.ran != [])
  }

  lemma {:induction false} BeginCalls(s: State, d: Data, start: nat)
    requires s.now.None? && start <= |s.list|
    ensures OneMore(Begin(s, d, start), Total(s))
    decreases |s.waiting|, 2
  {
    ResumeCalls(s.(memory := Recalled(s.flags, d), fired := true, lag := 0,
                   now := Some(Firing(d, s.list[start..], [], {}, {})), todo := s.list[start..]));
  }

  lemma {:induction false} ResumeCalls(s: State)
    requires s.now.Some?
    ensures OneMore(Resume(s), Total(s))
    decreases |s.waiting|, 1
  {
    if s.todo == [] { FinishCalls(s); }
  }

  lemma {:induction false} FinishCalls(s: State)
    requires s.now.Some?
    ensures OneMore(Finish(s), Total(s))
    decreases |s.waiting|, 0
  {
    var t := Closed(s);
    assert (s.done + [s.now.value])[..|s.done|] == s.done;
    assert Total(t) == Total(s);
    if s.alive && s.stacked && s.waiting != [] { BeginCalls(t.(waiting := s.waiting[1..]), s.waiting[0], 0); }
  }

  /** The next callback is called when the one before has returned: a step makes at most one call,
      and none while a call is in progress that it does not end. */
  lemma StepCalls(s: State, op: Op)
    requires s.now.Some? ==> s.now.value.ran != []
    ensures var t := Step(s, op);
      && (t.now.Some? ==> t.now.value.ran != [])
      && Total(t) == Total(s) + if t.now.Some? && (s.now.None? || op.OpReturn?) then 1 else 0
  {
    match op
    case OpAdd(fs) => if s.alive && s.now.None? && s.memory.Some? { AddCalls(s, fs); }
    case OpFire(d) => if s.now.None? { BeginCalls(s.(asked := s.asked + [d]), d, 0); }
    case OpReturn(ok) => if s.now.Some? { ReturnCalls(s, ok); }
    case _ =>
  }

  lemma AddCalls(s: State, fs: seq<Fn>)
    requires s.alive && s.now.None? && s.memory.Some?
    ensures OneMore(Add(s, fs), Total(s))
  {
    var more := Joining(s.flags.unique, s.list, fs, s.next);
    var t := s.(list := s.list + more, next := s.next + |more|, asked := s.asked + [s.memory.value]);
    BeginCalls(t, s.memory.value, |s.list|);
  }

  lemma ReturnCalls(s: State, ok: bool)
    requires s.now.Some?
    ensures OneMore(Return(s, ok), Total(s))
  {
    if !ok && s.flags.stopOnFalse { FinishCalls(CutShort(s, false).(memory := None)); } else { ResumeCalls(s); }
  }

  function Returns(n: nat): seq<Op> { seq(n, _ => OpReturn(true)) }

  /** Left alone, a firing calls its whole queue, one call for each return, and ends. */
  lemma {:induction false} CallsItsQueue(s: State)
    requires s.now.Some? && s.waiting == []
    ensures var t := Run(s, Returns(|s.todo| + 1));
      t.now.None? && t.done == s.done + [s.now.value.(ran := s.now.value.ran + s.todo)]
    decreases |s.todo|
  {
    var n := |s.todo| + 1;
    RunFront(s, Returns(n));
    assert Returns(n)[1..] == Returns(n - 1);
    var f := s.now.value;
    if s.todo == [] {
      assert f.ran + [] == f.ran;
      assert Finish(s).done == s.done + [f];
    } else {
      assert f.ran + s.todo == f.ran + [s.todo[0]] + s.todo[1..];
      CallsItsQueue(Resume(s));
    }
  }

  lemma {:induction false} RunFront(s: State, ops: seq<Op>)
    requires ops != []
    ensures Run(s, ops) == Run(Step(s, ops[0]), ops[1..])
  {
    if |ops| > 1 {
      RunFront(s, ops[..|ops| - 1]);
      assert ops[..|ops| - 1][1..] == ops[1..][..|ops| - 2];
    } else {
      assert ops[..0] == [] && ops[1..] == [];
    }
  }

  // ----- what is remembered -----

  /** What is remembered is the data of the last firing begun. */
  ghost predicate Remembers(s: State, flags: Flags) {
    s.flags == flags && (s.memory.Some? ==> Books(s) != [] && s.memory.value == Books(s)[|Books(s)| - 1].data)
  }

  lemma {:induction false} BeginRemembers(s: State, d: Data, start: nat)
    requires s.now.None? && start <= |s.list|
    ensures Remembers(Begin(s, d, start), s.flags)
    decreases |s.waiting|, 2
  {
    ResumeRemembers(s.(memory := Recalled(s.flags, d), fired := true, lag := 0,
                       now := Some(Firing(d, s.list[start..], [], {}, {})), todo := s.list[start..]));
  }

  lemma {:induction false} ResumeRemembers(s: State)
    requires s.now.Some? && Remembers(s, s.flags)
    ensures Remembers(Resume(s), s.flags)
    decreases |s.waiting|, 1
  {
    if s.todo == [] { FinishRemembers(s); }
  }

  lemma {:induction false} FinishRemembers(s: State)
    requires s.now.Some? && Remembers(s, s.flags)
    ensures Remembers(Finish(s), s.flags)
    decreases |s.waiting|, 0
  {
    if s.alive && s.stacked && s.waiting != [] { BeginRemembers(Closed(s).(waiting := s.waiting[1..]), s.waiting[0], 0); }
  }

  lemma StepRemembers(s: State, op: Op)
    requires Remembers(s, s.flags)
    ensures Remembers(Step(s, op), s.flags)
  {
    match op
    case OpAdd(fs) =>
      if s.alive && s.now.None? && s.memory.Some? {
        var more := Joining(s.flags.unique, s.list, fs, s.next);
        BeginRemembers(s.(list := s.list + more, next := s.next + |more|, asked := s.asked + [s.memory.value]),
                       s.memory.value, |s.list|);
      }
    case OpFire(d) => if s.now.None? { BeginRemembers(s.(asked := s.asked + [d]), d, 0); }
    case OpReturn(ok) =>
      if s.now.Some? {
        if !ok && s.flags.stopOnFalse { FinishRemembers(CutShort(s, false).(memory := None)); } else { ResumeRemembers(s); }
      }
    case _ =>
  }

  lemma {:induction false} MemoryIsLast(flags: Flags, ops: seq<Op>)
    ensures Remembers(Run(Fresh(flags), ops), flags)
  {
    if ops != [] {
      MemoryIsLast(flags, ops[..|ops| - 1]);
      StepRemembers(Run(Fresh(flags), ops[..|ops| - 1]), ops[|ops| - 1]);
    }
  }

  // ----- disable and lock -----

  /** The same calls with the same data. */
  ghost predicate SameCalls(a: seq<Firing>, b: seq<Firing>) {
    |a| == |b| && forall i :: 0 <= i < |a| ==> b[i].data == a[i].data && b[i].ran == a[i].ran
  }

  lemma DisabledStep(s: State, op: Op)
    requires Inv(s) && !s.alive && !op.OpEmpty?
    ensures !Step(s, op).alive && SameCalls(Books(s), Books(Step(s, op)))
  {
    assert s.todo == [];
    if op.OpReturn? && s.now.Some? {
      var t := if !op.ok && s.flags.stopOnFalse then CutShort(s, false).(memory := None) else s;
      DisabledFinish(t);
      assert Step(s, op) == Finish(t);
    }
  }

  lemma DisabledFinish(s: State)
    requires s.now.Some? && !s.alive
    ensures !Finish(s).alive && Books(Finish(s)) == Books(s)
  {
  }

  lemma Disables(s: State, op: Op)
    requires op.OpDisable? || (op.OpLock? && s.memory.None?)
    ensures !Step(s, op).alive && SameCalls(Books(s), Books(Step(s, op)))
  {
  }

  /** Operation k disables the list, or locks it when it has nothing to remember. */
  ghost predicate DisablesAt(flags: Flags, ops: seq<Op>, k: nat) {
    k < |ops| && (ops[k].OpDisable? || (ops[k].OpLock? && Run(Fresh(flags), ops[..k]).memory.None?))
  }

  /** Whatever follows, a disabled list calls nothing: only empty brings it back. */
  lemma {:induction false} DisabledForGood(flags: Flags, ops: seq<Op>, k: nat)
    requires DisablesAt(flags, ops, k)
    requires forall i :: k < i < |ops| ==> !ops[i].OpEmpty?
    ensures !Run(Fresh(flags), ops).alive
    ensures SameCalls(Books(Run(Fresh(flags), ops[..k])), Books(Run(Fresh(flags), ops)))
  {
    var before, op := ops[..|ops| - 1], ops[|ops| - 1];
    if k < |before| {
      assert before[..k] == ops[..k];
      DisabledForGood(flags, before, k);
      RunInv(flags, before);
      DisabledStep(Run(Fresh(flags), before), op);
    } else {
      Disables(Run(Fresh(flags), before), op);
    }
  }

  /** Emptied between firings with nothing to remember, even a disabled list starts anew: it holds what
      is added to it then, and nothing from before. */
  lemma EmptiedHolds(s: State, fs: seq<Fn>)
    requires s.now.None? && s.memory.None?
    ensures var t := Step(Step(s, OpEmpty), OpAdd(fs));
      t.now.None? && t.done == s.done && Fns(t.list) == Appended(s.flags.unique, [], fs)
  {
    JoiningAppends(s.flags.unique, [], fs, s.next);
    var more := Joining(s.flags.unique, [], fs, s.next);
    assert [] + more == more && Fns([]) == [];
  }

  /** Emptied during a firing, the list does not hear as many additions as the firing has gone past
      entries, those that it was already deaf to included: of what is added next only the rest is
      called. */
  lemma EmptiedIsDeaf(s: State, fs: seq<Fn>)
    requires s.now.Some? && |s.todo| <= |s.list|
    ensures var past, more := |s.list| - |s.todo| + s.lag, Joining(s.flags.unique, [], fs, s.next);
      var t := Step(Step(s, OpEmpty), OpAdd(fs));
      t.list == more && t.todo == (if past < |more| then more[past..] else []) && t.alive
  {
    var more := Joining(s.flags.unique, [], fs, s.next);
    assert [] + more == more;
  }

  /** Locked, and with nothing to remember but m. */
  ghost predicate Locked(s: State, m: Option<Data>) {
    !s.stacked && s.fired && s.waiting == [] && (s.memory == m || s.memory == None)
  }

  /** From a to b, new firings had the data m. */
  ghost predicate OnlyWith(a: seq<Firing>, b: seq<Firing>, m: Option<Data>) {
    && |a| <= |b|
    && (forall i :: 0 <= i < |a| ==> b[i].data == a[i].data)
    && (forall i :: |a| <= i < |b| ==> Some(b[i].data) == m)
  }

  lemma LockedBegin(s: State, d: Data, start: nat, m: Option<Data>)
    requires s.now.None? && start <= |s.list| && !s.stacked && s.waiting == [] && m == Some(d)
    ensures Locked(Begin(s, d, start), m) && OnlyWith(Books(s), Books(Begin(s, d, start)), m)
  {
    var t := s.(memory := Recalled(s.flags, d), fired := true, lag := 0,
                now := Some(Firing(d, s.list[start..], [], {}, {})), todo := s.list[start..]);
    assert Begin(s, d, start) == Resume(t);
    LockedResume(t, m);
  }

  lemma LockedResume(s: State, m: Option<Data>)
    requires s.now.Some? && Locked(s, m)
    ensures Locked(Resume(s), m) && OnlyWith(Books(s), Books(Resume(s)), m)
  {
    if s.todo == [] { LockedFinish(s, m); }
  }

  lemma LockedFinish(s: State, m: Option<Data>)
    requires s.now.Some? && Locked(s, m)
    ensures Locked(Finish(s), m) && OnlyWith(Books(s), Books(Finish(s)), m)
  {
    assert Books(Finish(s)) == Books(s);
  }

  lemma LockedStep(s: State, m: Option<Data>, op: Op)
    requires Locked(s, m)
    ensures Locked(Step(s, op), m) && OnlyWith(Books(s), Books(Step(s, op)), m)
  {
    match op
    case OpAdd(fs) =>
      if s.alive && s.now.None? && s.memory.Some? {
        var more := Joining(s.flags.unique, s.list, fs, s.next);
        LockedBegin(s.(list := s.list + more, next := s.next + |more|, asked := s.asked + [s.memory.value]),
                    s.memory.value, |s.list|, m);
      }
    case OpReturn(ok) =>
      if s.now.Some? {
        if !ok && s.flags.stopOnFalse { LockedFinish(CutShort(s, false).(memory := None), m); } else { LockedResume(s, m); }
      }
    case _ =>
  }

  /** A list locked after it fired is never fired again: whatever follows, a new firing is one for
      callbacks added, with the data remembered when it was locked. */
  lemma {:induction false} LockedForGood(flags: Flags, ops: seq<Op>, k: nat)
    requires k < |ops| && ops[k].OpLock? && Run(Fresh(flags), ops[..k]).fired
    ensures var s := Run(Fresh(flags), ops[..k]);
      Locked(Run(Fresh(flags), ops), s.memory) && OnlyWith(Books(s), Books(Run(Fresh(flags), ops)), s.memory)
  {
    var before := ops[..|ops| - 1];
    if k < |before| {
      assert before[..k] == ops[..k];
      LockedForGood(flags, before, k);
      LockedStep(Run(Fresh(flags), before), Run(Fresh(flags), ops[..k]).memory, ops[|ops| - 1]);
    }
  }

  /** A list of its own accord does nothing more once its only firing has ended, when it is to be
      fired once and nothing is remembered. */
  lemma {:induction false} OnceCloses(flags: Flags, ops: seq<Op>)
    requires Open(ops) && flags.once && !flags.memory
    requires forall i :: 0 <= i < |ops| ==> !ops[i].OpEmpty?
    ensures var s := Run(Fresh(flags), ops); s.fired && s.now.None? ==> !s.alive
  {
    if ops != [] {
      var before := ops[..|ops| - 1];
      OnceCloses(flags, before);
      RunWanted(flags, before);
      RunInv(flags, before);
      OnceStep(Run(Fresh(flags), before), ops[|ops| - 1]);
    }
  }

  lemma OnceStep(s: State, op: Op)
    requires !s.stacked && s.waiting == [] && !s.flags.memory && s.memory == None
    requires (s.fired && s.now.None? ==> !s.alive) && (s.now.Some? ==> s.fired) && !op.OpEmpty?
    ensures var t := Step(s, op); t.fired && t.now.None? ==> !t.alive
  {
    if op.OpFire? && s.alive && !s.fired && s.now.None? {
      var t := s.(asked := s.asked + [op.d], memory := None, fired := true, lag := 0,
                  now := Some(Firing(op.d, s.list[0..], [], {}, {})), todo := s.list[0..]);
      OnceResumes(t);
      assert Step(s, op) == Resume(t);
    } else if op.OpReturn? && s.now.Some? {
      if !op.ok && s.flags.stopOnFalse { OnceResumes(CutShort(s, false)); }
      OnceResumes(s);
    }
  }

  lemma OnceResumes(s: State)
    requires s.now.Some? && !s.stacked && s.memory == None
    ensures Resume(s).now.None? ==> !Resume(s).alive
    ensures !Finish(s).alive
  {
    assert CutShort(Closed(s), false) == Closed(s);
  }
}
