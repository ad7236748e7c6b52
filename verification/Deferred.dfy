/** jQuery.Deferred: three callback lists, two of which settle it
    (src/main/webapp/javascript/jquery-1.10.2.js). */
module Deferreds {
  import opened Basics
  import opened CallbackQueue
  import Queue = CallbackQueue
  import opened Callbacks

  datatype Status = Pending | Resolved | Rejected

  /** added and refused: the user callbacks ever given to done and to fail, in order. */
  datatype Promise = Promise(done: State, fail: State, progress: State, status: Status,
                             added: seq<nat>, refused: seq<nat>)

  const ONCE_MEMORY := Flags(true, true, false, false)
  const MEMORY := Flags(false, true, false, false)
  const INNER: seq<Fn> := [SetState, DisableOther, LockProgress]

  function Users(ids: seq<nat>): seq<Fn> { seq(|ids|, i requires 0 <= i < |ids| => User(ids[i])) }

  function Start(): Promise {
    Promise(Queue.Add(Fresh(ONCE_MEMORY), INNER), Queue.Add(Fresh(ONCE_MEMORY), INNER), Fresh(MEMORY), Pending, [], [])
  }

  /** The callback whose call is in progress. */
  function Calling(s: State): Option<Fn> {
    if s.now.Some? && s.now.value.ran != [] then Some(Last(s.now.value.ran).fn) else None
  }

  /** Runs the Deferred's own callbacks at the head of done, up to the first user callback. */
  function RunDone(p: Promise): Promise
    decreases |p.done.todo|
  {
    match Calling(p.done)
    case None => p
    case Some(User(_)) => p
    case Some(_) => NextDone(DoneEffect(p))
  }

  /** What the callback in progress on done does, if it is one of the Deferred's own. */
  function DoneEffect(p: Promise): (q: Promise)
    ensures q.done == p.done
  {
    match Calling(p.done)
    case Some(SetState) => p.(status := Resolved)
    case Some(DisableOther) => p.(fail := Queue.Disable(p.fail))
    case Some(LockProgress) => p.(progress := Queue.Lock(p.progress))
    case _ => p
  }

  function NextDone(p: Promise): Promise
    decreases |p.done.todo|, 0
  {
    var q := p.(done := Queue.Return(p.done, true));
    if |q.done.todo| < |p.done.todo| then RunDone(q) else q
  }

  function RunFail(p: Promise): Promise
    decreases |p.fail.todo|
  {
    match Calling(p.fail)
    case None => p
    case Some(User(_)) => p
    case Some(_) => NextFail(FailEffect(p))
  }

  /** What the callback in progress on fail does, if it is one of the Deferred's own. */
  function FailEffect(p: Promise): (q: Promise)
    ensures q.fail == p.fail
  {
    match Calling(p.fail)
    case Some(SetState) => p.(status := Rejected)
    case Some(DisableOther) => p.(done := Queue.Disable(p.done))
    case Some(LockProgress) => p.(progress := Queue.Lock(p.progress))
    case _ => p
  }

  function NextFail(p: Promise): Promise
    decreases |p.fail.todo|, 0
  {
    var q := p.(fail := Queue.Return(p.fail, true));
    if |q.fail.todo| < |p.fail.todo| then RunFail(q) else q
  }

  datatype Side = OnDone | OnFail | OnProgress

  /** What the outside world, user callbacks included, can do to a Deferred. */
  datatype Act =
    | Resolve(d: Data) | Reject(d: Data) | Notify(d: Data)
    | Register(side: Side, ids: seq<nat>)
    | CallbackReturns(from: Side)

  function Do(p: Promise, a: Act): Promise {
    match a
    case Resolve(d) => RunDone(p.(done := Queue.Fire(p.done, d)))
    case Reject(d) => RunFail(p.(fail := Queue.Fire(p.fail, d)))
    case Notify(d) => p.(progress := Queue.Fire(p.progress, d))
    case Register(OnDone, ids) => p.(done := Queue.Add(p.done, Users(ids)), added := p.added + ids)
    case Register(OnFail, ids) => p.(fail := Queue.Add(p.fail, Users(ids)), refused := p.refused + ids)
    case Register(OnProgress, ids) => p.(progress := Queue.Add(p.progress, Users(ids)))
    case CallbackReturns(OnDone) => p.(done := Queue.Return(p.done, true))
    case CallbackReturns(OnFail) => p.(fail := Queue.Return(p.fail, true))
    case CallbackReturns(OnProgress) => p.(progress := Queue.Return(p.progress, true))
  }

  function RunActs(acts: seq<Act>): Promise {
    if acts == [] then Start() else Do(RunActs(acts[..|acts| - 1]), acts[|acts| - 1])
  }

  // ----- what a list has called and has yet to call -----

  /** The callbacks called by the finished firings, in order. */
  function Called(fs: seq<Firing>): seq<Fn> {
    if fs == [] then [] else Called(fs[..|fs| - 1]) + Fns(fs[|fs| - 1].ran)
  }

  /** All calls so far. */
  function Calls(s: State): seq<Fn> {
    Called(s.done) + if s.now.Some? then Fns(s.now.value.ran) else []
  }

  /** Calls made and calls due. */
  function Ledger(s: State): seq<Fn> { Calls(s) + Fns(s.todo) }

  lemma {:induction false} JoiningFns(list: seq<Occ>, fs: seq<Fn>, next: nat)
    ensures Fns(Joining(false, list, fs, next)) == fs
    decreases |fs|
  {
    if fs != [] {
      var o := Occ(fs[0], next);
      JoiningFns(list + [o], fs[1..], next + 1);
      FnsConcat([o], Joining(false, list + [o], fs[1..], next + 1));
    }
  }

  /** A list of a Deferred that has fired with v: it can fire no more, but what is added to it is
      called with v; between firings it is empty. */
  ghost predicate Spent(s: State, v: Data) {
    && s.flags == ONCE_MEMORY && s.alive && s.fired && !s.stacked && s.waiting == []
    && s.memory == Some(v) && s.lag == 0
    && (forall i :: 0 <= i < |s.done| ==> s.done[i].data == v)
    && (s.now.Some? ==> s.now.value.data == v)
    && (s.now.None? ==> s.list == [] && s.todo == [])
  }

  /** A list of a Deferred that has not fired: it holds fs. */
  ghost predicate Idle(s: State, fs: seq<Fn>) {
    && s.flags == ONCE_MEMORY && s.alive && !s.fired && !s.stacked && s.waiting == []
    && s.memory == None && s.lag == 0 && s.done == [] && s.now == None && s.todo == []
    && Fns(s.list) == fs
  }

  /** A list of a Deferred that was disabled before it ever fired. */
  ghost predicate Dead(s: State) {
    !s.alive && !s.stacked && s.done == [] && s.now == None && s.todo == []
  }

  lemma ResumeSpent(s: State, v: Data)
    requires Spent(s, v) && s.now.Some?
    ensures Spent(Resume(s), v) && Ledger(Resume(s)) == Ledger(s)
    ensures s.todo != [] ==> Resume(s).todo == s.todo[1..] && Calling(Resume(s)) == Some(s.todo[0].fn)
    ensures s.todo == [] ==> Resume(s).now.None? && Calls(Resume(s)) == Calls(s)
    ensures s.todo != [] ==> Calls(Resume(s)) == Calls(s) + [s.todo[0].fn]
  {
    if s.todo == [] { SpentEnds(s, v); } else { SpentCalls(s, v); }
  }

  lemma SpentEnds(s: State, v: Data)
    requires Spent(s, v) && s.now.Some? && s.todo == []
    ensures var t := Resume(s); Spent(t, v) && t.now.None? && Calls(t) == Calls(s) && Ledger(t) == Ledger(s)
  {
    var f := s.now.value;
    assert Resume(s) == Finish(s);
    assert (s.done + [f])[..|s.done|] == s.done;
  }

  lemma SpentCalls(s: State, v: Data)
    requires Spent(s, v) && s.now.Some? && s.todo != []
    ensures var t := Resume(s);
      && Spent(t, v) && t.todo == s.todo[1..] && Calling(t) == Some(s.todo[0].fn)
      && Calls(t) == Calls(s) + [s.todo[0].fn] && Ledger(t) == Ledger(s)
  {
    FnsConcat(s.now.value.ran, [s.todo[0]]);
    assert Fns(s.todo) == [s.todo[0].fn] + Fns(s.todo[1..]);
  }

  /** Fires a Deferred's list for the first time, or refires a spent one for what was added. */
  lemma BeginSpent(s: State, v: Data)
    requires s.flags == ONCE_MEMORY && s.alive && !s.stacked && s.waiting == [] && s.now == None && s.todo == []
    requires forall i :: 0 <= i < |s.done| ==> s.done[i].data == v
    ensures var t := Begin(s, v, 0);
      && Spent(t, v) && Ledger(t) == Calls(s) + Fns(s.list)
      && (s.list == [] ==> t.now.None? && Calls(t) == Calls(s))
      && (s.list != [] ==> t.todo == s.list[1..] && Calling(t) == Some(s.list[0].fn) && Calls(t) == Calls(s) + [s.list[0].fn])
  {
    assert s.list[0..] == s.list;
    var t := s.(memory := Some(v), fired := true, lag := 0, now := Some(Firing(v, s.list, [], {}, {})), todo := s.list);
    assert Begin(s, v, 0) == Resume(t);
    ResumeSpent(t, v);
  }

  lemma AddSpent(s: State, v: Data, fs: seq<Fn>)
    requires Spent(s, v) && (s.now.Some? ==> Calling(s).Some?)
    ensures var t := Queue.Add(s, fs);
      && Spent(t, v) && Ledger(t) == Ledger(s) + fs && Calls(s) <= Calls(t)
      && (t.now.Some? ==> Calling(t).Some? && (s.now.Some? || |Calls(t)| > |Calls(s)|))
  {
    if s.now.Some? { AddSpentFiring(s, v, fs); } else { AddSpentIdle(s, v, fs); }
  }

  lemma AddSpentFiring(s: State, v: Data, fs: seq<Fn>)
    requires Spent(s, v) && s.now.Some? && Calling(s).Some?
    ensures var t := Queue.Add(s, fs);
      Spent(t, v) && Ledger(t) == Ledger(s) + fs && Calls(s) == Calls(t) && t.now.Some? && Calling(t).Some?
  {
    var more := Joining(false, s.list, fs, s.next);
    JoiningFns(s.list, fs, s.next);
    FnsConcat(s.todo, more);
    assert more[0..] == more;
    assert Queue.Add(s, fs).todo == s.todo + more;
  }

  lemma AddSpentIdle(s: State, v: Data, fs: seq<Fn>)
    requires Spent(s, v) && s.now.None?
    ensures var t := Queue.Add(s, fs);
      && Spent(t, v) && Ledger(t) == Ledger(s) + fs && Calls(s) <= Calls(t)
      && (t.now.Some? ==> Calling(t).Some? && |Calls(t)| > |Calls(s)|)
  {
    var u := Refilled(s, v, fs);
    AddRefills(s, v, fs);
    BeginSpent(u, v);
    assert Fns(s.todo) == [];
  }

  /** A spent list between firings with fs in it. */
  function Refilled(s: State, v: Data, fs: seq<Fn>): State {
    var more := Joining(false, s.list, fs, s.next);
    s.(list := more, next := s.next + |more|, asked := s.asked + [v])
  }

  lemma AddRefills(s: State, v: Data, fs: seq<Fn>)
    requires Spent(s, v) && s.now.None?
    ensures Queue.Add(s, fs) == Begin(Refilled(s, v, fs), v, 0) && Fns(Refilled(s, v, fs).list) == fs
  {
    JoiningFns(s.list, fs, s.next);
    assert s.list + Joining(false, s.list, fs, s.next) == Joining(false, s.list, fs, s.next);
  }

  lemma AddIdle(s: State, fs: seq<Fn>, more: seq<Fn>)
    requires Idle(s, fs)
    ensures Idle(Queue.Add(s, more), fs + more)
  {
    JoiningFns(s.list, more, s.next);
    FnsConcat(s.list, Joining(false, s.list, more, s.next));
  }

  // ----- every reachable Deferred -----

  /** The list of the settled side: its own three callbacks are done with, and the calls made,
      then the calls due, are those callbacks and every user callback registered, in order. */
  ghost predicate Serving(s: State, v: Data, ids: seq<nat>) {
    && Spent(s, v)
    && Ledger(s) == INNER + Users(ids)
    && |Calls(s)| >= 3
    && (s.now.Some? ==> |Calls(s)| >= 4 && Calling(s).Some?)
  }

  /** The act that settles the Deferred, if one before did not. */
  function Settling(before: Option<Act>, a: Act): Option<Act> {
    if before.None? && (a.Resolve? || a.Reject?) then Some(a) else before
  }

  /** The first resolve or reject of a run. */
  function FirstSettling(acts: seq<Act>): Option<Act> {
    if acts == [] then None else Settling(FirstSettling(acts[..|acts| - 1]), acts[|acts| - 1])
  }

  /** Not settled, or settled by this act, with its value. */
  ghost predicate Sound(p: Promise, settling: Option<Act>) {
    match settling
    case None => p.status.Pending? && Idle(p.done, INNER + Users(p.added)) && Idle(p.fail, INNER + Users(p.refused))
    case Some(Resolve(v)) => p.status.Resolved? && Serving(p.done, v, p.added) && Dead(p.fail)
    case Some(Reject(v)) => p.status.Rejected? && Serving(p.fail, v, p.refused) && Dead(p.done)
    case Some(_) => false
  }

  lemma CallingUser(s: State, v: Data, ids: seq<nat>)
    requires Serving(s, v, ids)
    ensures Calling(s).Some? ==> Calling(s).value.User?
  {
    if Calling(s).Some? {
      var c := Calls(s);
      assert c[|c| - 1] == Calling(s).value;
      assert Ledger(s)[|c| - 1] == c[|c| - 1];
      assert (INNER + Users(ids))[|c| - 1] == Users(ids)[|c| - 4];
    }
  }

  lemma UsersConcat(xs: seq<nat>, ys: seq<nat>)
    ensures Users(xs + ys) == Users(xs) + Users(ys)
  {
  }

  lemma ServingAdd(s: State, v: Data, ids: seq<nat>, more: seq<nat>)
    requires Serving(s, v, ids)
    ensures Serving(Queue.Add(s, Users(more)), v, ids + more)
  {
    AddSpent(s, v, Users(more));
    UsersConcat(ids, more);
    assert INNER + Users(ids) + Users(more) == INNER + (Users(ids) + Users(more));
  }

  lemma ServingReturn(s: State, v: Data, ids: seq<nat>)
    requires Serving(s, v, ids)
    ensures Serving(Queue.Return(s, true), v, ids)
  {
    if s.now.Some? { ResumeSpent(s, v); }
  }

  /** Firing an idle list of a Deferred makes the first of its own three calls. */
  lemma FirstFire(s: State, d: Data, ids: seq<nat>)
    requires Idle(s, INNER + Users(ids))
    ensures var t := Queue.Fire(s, d);
      && Spent(t, d) && Ledger(t) == INNER + Users(ids) && Calling(t) == Some(SetState) && |Calls(t)| == 1
      && |t.todo| == 2 + |ids| && t.todo[0].fn == DisableOther && t.todo[1].fn == LockProgress
  {
    BeginSpent(s.(asked := s.asked + [d]), d);
    assert Fns(s.list)[0] == SetState && Fns(s.list)[1] == DisableOther && Fns(s.list)[2] == LockProgress;
    assert |Fns(s.list)| == 3 + |ids|;
  }

  /** After three returns the Deferred's own callbacks are done with. */
  lemma ThreeReturns(t: State, d: Data, ids: seq<nat>)
    requires Spent(t, d) && Ledger(t) == INNER + Users(ids) && Calling(t) == Some(SetState) && |Calls(t)| == 1
    requires |t.todo| == 2 + |ids| && t.todo[0].fn == DisableOther && t.todo[1].fn == LockProgress
    ensures var u := Queue.Return(t, true);
      var w := Queue.Return(u, true);
      var x := Queue.Return(w, true);
      && Calling(u) == Some(DisableOther) && |u.todo| == |t.todo| - 1
      && Calling(w) == Some(LockProgress) && |w.todo| == |t.todo| - 2
      && Serving(x, d, ids) && (w.todo == [] ==> x.todo == []) && (w.todo != [] ==> |x.todo| < |w.todo|)
  {
    ResumeSpent(t, d);
    var u := Queue.Return(t, true);
    ResumeSpent(u, d);
    var w := Queue.Return(u, true);
    ResumeSpent(w, d);
  }

  /** A done list that fires first goes through the Deferred's own callbacks. */
  lemma FirstDone(p: Promise, d: Data, ids: seq<nat>)
    requires var t := p.done;
      && Spent(t, d) && Ledger(t) == INNER + Users(ids) && Calling(t) == Some(SetState) && |Calls(t)| == 1
      && |t.todo| == 2 + |ids| && t.todo[0].fn == DisableOther && t.todo[1].fn == LockProgress
    ensures var q := RunDone(p);
      && q.status == Resolved && q.fail == Queue.Disable(p.fail) && q.added == p.added && q.refused == p.refused
      && q.progress == Queue.Lock(p.progress)
      && Serving(q.done, d, ids)
  {
    ThreeReturns(p.done, d, ids);
    var u := Queue.Return(p.done, true);
    var w := Queue.Return(u, true);
    var x := Queue.Return(w, true);
    CallingUser(x, d, ids);
    var p2 := p.(done := u, status := Resolved);
    var p3 := p2.(done := w, fail := Queue.Disable(p.fail));
    var p4 := p3.(done := x, progress := Queue.Lock(p.progress));
    assert NextDone(p3.(progress := Queue.Lock(p.progress))) == p4 by { assert RunDone(p4) == p4; }
    assert RunDone(p3) == p4;
    assert RunDone(p2) == p4;
  }

  /** A fail list that fires first goes through the Deferred's own callbacks. */
  lemma FirstFail(p: Promise, d: Data, ids: seq<nat>)
    requires var t := p.fail;
      && Spent(t, d) && Ledger(t) == INNER + Users(ids) && Calling(t) == Some(SetState) && |Calls(t)| == 1
      && |t.todo| == 2 + |ids| && t.todo[0].fn == DisableOther && t.todo[1].fn == LockProgress
    ensures var q := RunFail(p);
      && q.status == Rejected && q.done == Queue.Disable(p.done) && q.added == p.added && q.refused == p.refused
      && q.progress == Queue.Lock(p.progress)
      && Serving(q.fail, d, ids)
  {
    ThreeReturns(p.fail, d, ids);
    var u := Queue.Return(p.fail, true);
    var w := Queue.Return(u, true);
    var x := Queue.Return(w, true);
    CallingUser(x, d, ids);
    var p2 := p.(fail := u, status := Rejected);
    var p3 := p2.(fail := w, done := Queue.Disable(p.done));
    var p4 := p3.(fail := x, progress := Queue.Lock(p.progress));
    assert NextFail(p3.(progress := Queue.Lock(p.progress))) == p4 by { assert RunFail(p4) == p4; }
    assert RunFail(p3) == p4;
    assert RunFail(p2) == p4;
  }

  lemma ResolvePending(p: Promise, d: Data)
    requires Sound(p, None)
    ensures Sound(Do(p, Resolve(d)), Some(Resolve(d))) && Do(p, Resolve(d)).added == p.added
    ensures Do(p, Resolve(d)).progress == Queue.Lock(p.progress)
  {
    FirstFire(p.done, d, p.added);
    FirstDone(p.(done := Queue.Fire(p.done, d)), d, p.added);
  }

  lemma RejectPending(p: Promise, d: Data)
    requires Sound(p, None)
    ensures Sound(Do(p, Reject(d)), Some(Reject(d))) && Do(p, Reject(d)).refused == p.refused
    ensures Do(p, Reject(d)).progress == Queue.Lock(p.progress)
  {
    FirstFire(p.fail, d, p.refused);
    FirstFail(p.(fail := Queue.Fire(p.fail, d)), d, p.refused);
  }

  /** One act keeps the Deferred sound; a settled one keeps its status and its value. */
  lemma DoSound(p: Promise, settling: Option<Act>, a: Act)
    requires Sound(p, settling)
    ensures Sound(Do(p, a), Settling(settling, a))
  {
    match settling
    case None => DoPending(p, a);
    case Some(Resolve(v)) => ServedDone(p, a, v);
    case Some(Reject(v)) => ServedFail(p, a, v);
  }

  lemma DoPending(p: Promise, a: Act)
    requires Sound(p, None)
    ensures Sound(Do(p, a), Settling(None, a))
  {
    if a.Resolve? { ResolvePending(p, a.d); }
    else if a.Reject? { RejectPending(p, a.d); }
    else if a.Register? && a.side.OnDone? {
      AddIdle(p.done, INNER + Users(p.added), Users(a.ids));
      UsersConcat(p.added, a.ids);
      Regroup(INNER, Users(p.added), Users(a.ids));
    } else if a.Register? && a.side.OnFail? {
      AddIdle(p.fail, INNER + Users(p.refused), Users(a.ids));
      UsersConcat(p.refused, a.ids);
      Regroup(INNER, Users(p.refused), Users(a.ids));
    }
  }

  lemma ServedDone(p: Promise, a: Act, v: Data)
    requires p.status.Resolved? && Dead(p.fail) && Serving(p.done, v, p.added)
    ensures var q := Do(p, a); q.status.Resolved? && Dead(q.fail) && Serving(q.done, v, q.added)
  {
    CallingUser(p.done, v, p.added);
    assert Calling(p.fail) == None;
    if a.Register? && a.side.OnDone? { ServingAdd(p.done, v, p.added, a.ids); }
    if a.CallbackReturns? && a.from.OnDone? { ServingReturn(p.done, v, p.added); }
  }

  lemma ServedFail(p: Promise, a: Act, v: Data)
    requires p.status.Rejected? && Dead(p.done) && Serving(p.fail, v, p.refused)
    ensures var q := Do(p, a); q.status.Rejected? && Dead(q.done) && Serving(q.fail, v, q.refused)
  {
    CallingUser(p.fail, v, p.refused);
    assert Calling(p.done) == None;
    if a.Register? && a.side.OnFail? { ServingAdd(p.fail, v, p.refused, a.ids); }
    if a.CallbackReturns? && a.from.OnFail? { ServingReturn(p.fail, v, p.refused); }
  }

  lemma StartSound()
    ensures Sound(Start(), None)
  {
    JoiningFns([], INNER, 0);
    assert INNER + Users([]) == INNER;
    assert [] + Joining(false, [], INNER, 0) == Joining(false, [], INNER, 0);
  }

  lemma {:induction false} RunSound(acts: seq<Act>)
    ensures Sound(RunActs(acts), FirstSettling(acts))
  {
    if acts == [] {
      StartSound();
    } else {
      RunSound(acts[..|acts| - 1]);
      DoSound(RunActs(acts[..|acts| - 1]), FirstSettling(acts[..|acts| - 1]), acts[|acts| - 1]);
    }
  }

  /** The user callbacks among the calls made, as ids. */
  function UserCalls(s: State): seq<Fn> {
    if |Calls(s)| < 3 then [] else Calls(s)[3..]
  }

  /** In every run: callbacks of at most one side are called; those called are the first ones
      registered there, in order and without repetition; once no call is in progress all of them
      have been called; and every call is made with what the first resolve or reject passed. */
  lemma CallbacksOnceInOrder(acts: seq<Act>)
    ensures var p := RunActs(acts);
      match FirstSettling(acts)
      case None => p.status.Pending? && Calls(p.done) == [] && Calls(p.fail) == []
      case Some(a) =>
        && (a.Resolve? || a.Reject?) && AllWith(p.done, a.d) && AllWith(p.fail, a.d)
        && (a.Resolve? ==> p.status.Resolved? && Calls(p.fail) == [] && UserCalls(p.done) <= Users(p.added)
                           && (p.done.now.None? ==> UserCalls(p.done) == Users(p.added)))
        && (a.Reject? ==> p.status.Rejected? && Calls(p.done) == [] && UserCalls(p.fail) <= Users(p.refused)
                          && (p.fail.now.None? ==> UserCalls(p.fail) == Users(p.refused)))
  {
    RunSound(acts);
    var p := RunActs(acts);
    match FirstSettling(acts)
    case None =>
    case Some(Resolve(v)) => ServedPrefix(p.done, v, p.added);
    case Some(Reject(v)) => ServedPrefix(p.fail, v, p.refused);
  }

  /** It is the first: none before it settles. */
  lemma {:induction false} FirstSettlingIs(acts: seq<Act>)
    ensures FirstSettling(acts).None? <==> forall i :: 0 <= i < |acts| ==> !acts[i].Resolve? && !acts[i].Reject?
    ensures FirstSettling(acts).Some? ==>
      exists k :: 0 <= k < |acts| && Some(acts[k]) == FirstSettling(acts) && (acts[k].Resolve? || acts[k].Reject?) &&
        forall i :: 0 <= i < k ==> !acts[i].Resolve? && !acts[i].Reject?
    ensures forall k :: 0 <= k <= |acts| && FirstSettling(acts[..k]).Some? ==> FirstSettling(acts) == FirstSettling(acts[..k])
  {
    if acts != [] {
      var last, before := |acts| - 1, acts[..|acts| - 1];
      FirstSettlingIs(before);
      assert forall i :: 0 <= i < last ==> before[i] == acts[i];
      forall k | 0 <= k <= |acts| && FirstSettling(acts[..k]).Some? ensures FirstSettling(acts) == FirstSettling(acts[..k]) {
        if k < |acts| { assert acts[..k] == before[..k]; } else { assert acts[..k] == acts; }
      }
      if FirstSettling(before).Some? {
        var k :| 0 <= k < last && Some(before[k]) == FirstSettling(before) && (before[k].Resolve? || before[k].Reject?) &&
          forall i :: 0 <= i < k ==> !before[i].Resolve? && !before[i].Reject?;
        assert acts[k] == before[k];
      }
    }
  }

  ghost predicate AllWith(s: State, v: Data) {
    (forall i :: 0 <= i < |s.done| ==> s.done[i].data == v) && (s.now.Some? ==> s.now.value.data == v)
  }

  lemma ServedPrefix(s: State, v: Data, ids: seq<nat>)
    requires Serving(s, v, ids)
    ensures UserCalls(s) <= Users(ids) && (s.now.None? ==> UserCalls(s) == Users(ids))
  {
    assert Ledger(s)[3..] == Users(ids);
    assert Ledger(s)[3..] == UserCalls(s) + Fns(s.todo);
  }

  /** A Deferred leaves pending at most once: what follows the first resolve or reject of a run
      cannot change its status, and that call decides it. */
  lemma SettledForGood(acts: seq<Act>, k: nat)
    requires k <= |acts|
    ensures var early, late := RunActs(acts[..k]).status, RunActs(acts).status;
      && (early != Pending ==> late == early)
      && (late == Pending <==> forall i :: 0 <= i < |acts| ==> !acts[i].Resolve? && !acts[i].Reject?)
  {
    RunSound(acts);
    RunSound(acts[..k]);
    FirstSettlingIs(acts);
  }

  // ----- the object itself -----

  class Deferred {
    const done: CallbackList
    const fail: CallbackList
    const progress: CallbackList
    var state: Status
    ghost var added: seq<nat>
    ghost var refused: seq<nat>

    ghost function View(): Promise
      reads this, done, fail, progress
    {
      Promise(done.view, fail.view, progress.view, state, added, refused)
    }

    ghost predicate Parts()
      reads this, done, fail, progress
    {
      && done != fail && done != progress && fail != progress
      && forall c :: c in {done, fail, progress} ==> c.Valid()
    }

    ghost predicate Valid()
      reads this, done, fail, progress
    {
      Parts() && !done.view.stacked && !fail.view.stacked
    }

    constructor ()
      ensures Valid() && View() == Start()
      ensures fresh(done) && fresh(fail) && fresh(progress)
    {
      var resolving := NewList(ONCE_MEMORY, INNER);
      var rejecting := NewList(ONCE_MEMORY, INNER);
      done, fail := resolving, rejecting;
      progress := new CallbackList(MEMORY);
      state, added, refused := Pending, [], [];
    }

    method OwnDoneCall()
      requires Valid() && done.calling.Some?
      modifies this`state, fail, progress
      ensures Valid() && View() == DoneEffect(old(View()))
    {
      assert done.Valid();
      match done.calling.value.0 {
        case SetState => state := Resolved;
        case DisableOther => fail.Disable();
        case LockProgress => progress.Lock();
        case User(_) =>
      }
    }

    method OneDoneCall()
      requires Valid() && done.calling.Some? && !done.calling.value.0.User?
      modifies this`state, done, fail, progress
      ensures Valid() && RunDone(View()) == RunDone(old(View()))
      ensures |done.view.todo| < |old(done.view.todo)| || (|done.view.todo| == |old(done.view.todo)| && done.calling.None?)
    {
      ghost var was := View();
      assert done.Valid();
      OwnDoneCall();
      assert RunDone(was) == NextDone(View());
      ReturnUnstacked(done.view);
      done.Return(true);
    }

    /** Carries out the Deferred's own callbacks as done comes to call them. */
    method RunDoneCalls()
      requires Valid()
      modifies this, done, fail, progress
      ensures Valid() && View() == RunDone(old(View()))
    {
      while done.calling.Some? && !done.calling.value.0.User?
        invariant Valid()
        invariant RunDone(View()) == RunDone(old(View()))
        decreases |done.view.todo|, done.calling.Some?
      {
        OneDoneCall();
      }
      assert done.Valid();
    }

    method OwnFailCall()
      requires Valid() && fail.calling.Some?
      modifies this`state, done, progress
      ensures Valid() && View() == FailEffect(old(View()))
    {
      assert fail.Valid();
      match fail.calling.value.0 {
        case SetState => state := Rejected;
        case DisableOther => done.Disable();
        case LockProgress => progress.Lock();
        case User(_) =>
      }
    }

    method OneFailCall()
      requires Valid() && fail.calling.Some? && !fail.calling.value.0.User?
      modifies this`state, done, fail, progress
      ensures Valid() && RunFail(View()) == RunFail(old(View()))
      ensures |fail.view.todo| < |old(fail.view.todo)| || (|fail.view.todo| == |old(fail.view.todo)| && fail.calling.None?)
    {
      ghost var was := View();
      assert fail.Valid();
      OwnFailCall();
      assert RunFail(was) == NextFail(View());
      ReturnUnstacked(fail.view);
      fail.Return(true);
    }

    method RunFailCalls()
      requires Valid()
      modifies this, done, fail, progress
      ensures Valid() && View() == RunFail(old(View()))
    {
      while fail.calling.Some? && !fail.calling.value.0.User?
        invariant Valid()
        invariant RunFail(View()) == RunFail(old(View()))
        decreases |fail.view.todo|, fail.calling.Some?
      {
        OneFailCall();
      }
      assert fail.Valid();
    }

    method Resolve(d: Data)
      requires Valid()
      modifies this, done, fail, progress
      ensures Valid() && View() == Do(old(View()), Act.Resolve(d))
    {
      FireUnstacked(done.view, d);
      done.FireWith(d);
      RunDoneCalls();
    }

    method Reject(d: Data)
      requires Valid()
      modifies this, done, fail, progress
      ensures Valid() && View() == Do(old(View()), Act.Reject(d))
    {
      FireUnstacked(fail.view, d);
      fail.FireWith(d);
      RunFailCalls();
    }

    method Notify(d: Data)
      requires Valid()
      modifies progress
      ensures Valid() && View() == Do(old(View()), Act.Notify(d))
    {
      progress.FireWith(d);
    }

    method Done(ids: seq<nat>)
      requires Valid()
      modifies this`added, done
      ensures Valid() && View() == Do(old(View()), Act.Register(OnDone, ids))
    {
      added := added + ids;
      AddDone(Users(ids));
    }

    method Fail(ids: seq<nat>)
      requires Valid()
      modifies this`refused, fail
      ensures Valid() && View() == Do(old(View()), Act.Register(OnFail, ids))
    {
      refused := refused + ids;
      AddFail(Users(ids));
    }

    method AddDone(fns: seq<Fn>)
      requires Valid()
      modifies done
      ensures Valid() && done.view == Queue.Add(old(done.view), fns)
    {
      AddUnstacked(done.view, fns);
      done.Add(fns);
    }

    method AddFail(fns: seq<Fn>)
      requires Valid()
      modifies fail
      ensures Valid() && fail.view == Queue.Add(old(fail.view), fns)
    {
      AddUnstacked(fail.view, fns);
      fail.Add(fns);
    }

    method Progress(ids: seq<nat>)
      requires Valid()
      modifies progress
      ensures Valid() && View() == Do(old(View()), Act.Register(OnProgress, ids))
    {
      progress.Add(Users(ids));
    }

    // A user callback that the Deferred called returns.

    method DoneReturns()
      requires Valid() && done.firing
      modifies done
      ensures Valid() && View() == Do(old(View()), Act.CallbackReturns(OnDone))
    {
      ReturnUnstacked(done.view);
      done.Return(true);
    }

    method FailReturns()
      requires Valid() && fail.firing
      modifies fail
      ensures Valid() && View() == Do(old(View()), Act.CallbackReturns(OnFail))
    {
      ReturnUnstacked(fail.view);
      fail.Return(true);
    }

    method ProgressReturns()
      requires Valid() && progress.firing
      modifies progress
      ensures Valid() && View() == Do(old(View()), Act.CallbackReturns(OnProgress))
    {
      progress.Return(true);
    }
  }

  /** jQuery.Callbacks( flags ) and list.add( fns ) */
  method NewList(flags: Flags, fns: seq<Fn>) returns (callbacks: CallbackList)
    ensures fresh(callbacks) && callbacks.Valid() && callbacks.view == Queue.Add(Fresh(flags), fns)
  {
    callbacks := new CallbackList(flags);
    callbacks.Add(fns);
  }

  lemma ReturnUnstacked(s: State)
    requires !s.stacked
    ensures var t := Queue.Return(s, true);
      && !t.stacked
      && (s.now.Some? && s.todo != [] ==> |t.todo| < |s.todo|)
      && (s.now.Some? && s.todo == [] ==> t.now.None? && t.todo == [])
  {
    if s.now.Some? {
      assert Queue.Return(s, true) == Resume(s);
      if s.todo == [] {
        assert Resume(s) == Finish(s);
      }
    }
  }

  lemma BeginUnstacked(s: State, d: Data, start: nat)
    requires !s.stacked && start <= |s.list|
    ensures !Begin(s, d, start).stacked
  {
    var u := s.(memory := if s.flags.memory then Some(d) else None, fired := true, lag := 0,
                now := Some(Firing(d, s.list[start..], [], {}, {})), todo := s.list[start..]);
    assert Begin(s, d, start) == Resume(u);
    ReturnUnstacked(u);
    assert Queue.Return(u, true) == Resume(u);
  }

  lemma FireUnstacked(s: State, d: Data)
    requires !s.stacked
    ensures !Queue.Fire(s, d).stacked
  {
    BeginUnstacked(s.(asked := s.asked + [d]), d, 0);
  }

  lemma AddUnstacked(s: State, fs: seq<Fn>)
    requires !s.stacked
    ensures !Queue.Add(s, fs).stacked
  {
    if s.alive && s.now.None? && s.memory.Some? {
      var more := Joining(s.flags.unique, s.list, fs, s.next);
      var t := s.(list := s.list + more, next := s.next + |more|, asked := s.asked + [s.memory.value]);
      BeginUnstacked(t, s.memory.value, |s.list|);
    }
  }
}
