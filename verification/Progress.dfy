/** The progress list of a Deferred, over whole runs (src/main/webapp/javascript/jquery-1.10.2.js). */
module Progress {
  import opened Basics
  import opened CallbackQueue
  import opened CallbackRuns
  import Queue = CallbackQueue
  import opened Deferreds

  /** What one act does to the progress list: the one that settles the Deferred locks it. */
  function ProgressOp(settled: bool, a: Act): Option<Op> {
    match a
    case Notify(d) => Some(OpFire(d))
    case Register(OnProgress, ids) => Some(OpAdd(Users(ids)))
    case CallbackReturns(OnProgress) => Some(OpReturn(true))
    case Resolve(_) => if settled then None else Some(OpLock)
    case Reject(_) => if settled then None else Some(OpLock)
    case _ => None
  }

  function ProgressOps(acts: seq<Act>): seq<Op> {
    if acts == [] then []
    else
      var before := acts[..|acts| - 1];
      match ProgressOp(FirstSettling(before).Some?, acts[|acts| - 1])
      case Some(op) => ProgressOps(before) + [op]
      case None => ProgressOps(before)
  }

  lemma ProgressStep(p: Promise, settling: Option<Act>, a: Act)
    requires Sound(p, settling)
    ensures match ProgressOp(settling.Some?, a)
      case Some(op) => Do(p, a).progress == Step(p.progress, op)
      case None => Do(p, a).progress == p.progress
  {
    if a.Resolve? || a.Reject? {
      match settling
      case None => if a.Resolve? { ResolvePending(p, a.d); } else { RejectPending(p, a.d); }
      case Some(Resolve(v)) => CallingUser(p.done, v, p.added);
      case Some(Reject(v)) => CallingUser(p.fail, v, p.refused);
    }
  }

  /** The progress list is a callback list with memory that these operations are done to. */
  lemma {:induction false} ProgressRun(acts: seq<Act>)
    ensures RunActs(acts).progress == Run(Fresh(MEMORY), ProgressOps(acts))
  {
    if acts != [] {
      var before, a := acts[..|acts| - 1], acts[|acts| - 1];
      ProgressRun(before);
      LastAct(acts);
      var ops := ProgressOps(before);
      match ProgressOp(FirstSettling(before).Some?, a)
      case None =>
      case Some(op) => assert (ops + [op])[..|ops|] == ops;
    }
  }

  /** Nothing disables, empties or removes from it, and until the Deferred is settled, nothing locks
      it. */
  lemma {:induction false} ProgressPlain(acts: seq<Act>)
    ensures Plain(ProgressOps(acts)) && (FirstSettling(acts).None? ==> Open(ProgressOps(acts)))
  {
    if acts != [] {
      var before := acts[..|acts| - 1];
      ProgressPlain(before);
      match ProgressOp(FirstSettling(before).Some?, acts[|acts| - 1])
      case None =>
      case Some(op) =>
        assert ProgressOps(acts) == ProgressOps(before) + [op];
        PlainMore(ProgressOps(before), op);
    }
  }

  predicate PlainOp(op: Op) { op.OpFire? || op.OpAdd? || op == OpReturn(true) || op.OpLock? }

  predicate Plain(ops: seq<Op>) { forall i :: 0 <= i < |ops| ==> PlainOp(ops[i]) }

  lemma PlainMore(ops: seq<Op>, op: Op)
    ensures Plain(ops) && PlainOp(op) ==> Plain(ops + [op])
    ensures Open(ops) && !op.OpDisable? && !op.OpLock? ==> Open(ops + [op])
  {
  }

  // ----- settled -----

  /** Locked after it was notified, or disabled because it never was. */
  ghost predicate Muted(s: State) {
    !s.stacked && s.waiting == [] && (s.fired || (!s.alive && s.now.None?))
  }

  lemma LockMutes(ops: seq<Op>)
    requires Open(ops)
    ensures Muted(Lock(Run(Fresh(MEMORY), ops)))
  {
    RunWanted(MEMORY, ops);
    RunInv(MEMORY, ops);
  }

  lemma {:induction false} SettledIsMuted(acts: seq<Act>)
    requires FirstSettling(acts).Some?
    ensures Muted(RunActs(acts).progress)
  {
    var before, a := acts[..|acts| - 1], acts[|acts| - 1];
    LastAct(acts);
    if FirstSettling(before).None? {
      ProgressRun(before);
      ProgressPlain(before);
      LockMutes(ProgressOps(before));
    } else {
      SettledIsMuted(before);
      MutedStep(RunActs(before).progress, ProgressOp(true, a));
    }
  }

  /** What the last act does to the progress list. */
  lemma LastAct(acts: seq<Act>)
    requires acts != []
    ensures var before, a := acts[..|acts| - 1], acts[|acts| - 1];
      match ProgressOp(FirstSettling(before).Some?, a)
      case Some(op) => RunActs(acts).progress == Step(RunActs(before).progress, op)
      case None => RunActs(acts).progress == RunActs(before).progress
  {
    RunSound(acts[..|acts| - 1]);
    ProgressStep(RunActs(acts[..|acts| - 1]), FirstSettling(acts[..|acts| - 1]), acts[|acts| - 1]);
  }

  lemma MutedStep(s: State, op: Option<Op>)
    requires Muted(s) && (op.Some? ==> op.value.OpFire? || op.value.OpAdd? || op.value == OpReturn(true))
    ensures op.Some? ==> Muted(Step(s, op.value))
  {
    if s.fired && op.Some? { LockedStep(s, s.memory, op.value); }
  }

  /** Once the Deferred is settled, by resolve or by reject, notify does nothing. */
  lemma SettledIgnoresNotify(acts: seq<Act>, e: Data)
    requires FirstSettling(acts).Some?
    ensures Do(RunActs(acts), Notify(e)) == RunActs(acts) && !RunActs(acts).progress.stacked
  {
    SettledIsMuted(acts);
  }

  /** Settled before it was ever notified, a Deferred calls no progress callback at all. */
  lemma {:induction false} NeverNotified(acts: seq<Act>, k: nat)
    requires k < |acts| && (acts[k].Resolve? || acts[k].Reject?)
    requires forall i :: 0 <= i < k ==> !acts[i].Resolve? && !acts[i].Reject? && !acts[i].Notify?
    ensures var s := RunActs(acts).progress; !s.alive && Books(s) == []
  {
    var before := acts[..|acts| - 1];
    LastAct(acts);
    FirstSettlingIs(before);
    if k < |before| {
      assert before[k] == acts[k];
      NeverNotified(before, k);
    } else {
      NotYetNotified(before);
    }
  }

  lemma {:induction false} NotYetNotified(acts: seq<Act>)
    requires forall i :: 0 <= i < |acts| ==> !acts[i].Resolve? && !acts[i].Reject? && !acts[i].Notify?
    ensures var s := RunActs(acts).progress; s.memory == None && Books(s) == []
  {
    if acts != [] { NotYetNotified(acts[..|acts| - 1]); }
  }

  /** What was notified last before the Deferred was settled is passed to the progress callbacks that
      come later, at once. */
  lemma SettledRepeats(acts: seq<Act>, ids: seq<nat>)
    requires FirstSettling(acts).Some?
    ensures var s, t := RunActs(acts).progress, RunActs(acts + [Register(OnProgress, ids)]).progress;
      s.alive && s.now.None? && s.memory.Some? ==> Repeats(Books(s), Books(t), Users(ids))
  {
    SettledState(acts);
    RegisterAdds(acts, ids);
    var s := RunActs(acts).progress;
    if s.alive && s.now.None? && s.memory.Some? { LockedRepeats(s, Users(ids)); }
  }

  lemma RegisterAdds(acts: seq<Act>, ids: seq<nat>)
    ensures RunActs(acts + [Register(OnProgress, ids)]).progress == Queue.Add(RunActs(acts).progress, Users(ids))
  {
    LastAct(acts + [Register(OnProgress, ids)]);
    assert (acts + [Register(OnProgress, ids)])[..|acts|] == acts;
  }

  lemma SettledState(acts: seq<Act>)
    requires FirstSettling(acts).Some?
    ensures var s := RunActs(acts).progress; Inv(s) && Muted(s) && Remembers(s, MEMORY)
  {
    ProgressRun(acts);
    SettledIsMuted(acts);
    RunInv(MEMORY, ProgressOps(acts));
    MemoryIsLast(MEMORY, ProgressOps(acts));
  }

  /** From a to b, fs were called with the data of the last firing. */
  ghost predicate Repeats(a: seq<Firing>, b: seq<Firing>, fs: seq<Fn>) {
    |b| == |a| + 1 && a != [] && b[|a|].data == a[|a| - 1].data && Fns(b[|a|].offered) == fs
  }

  lemma LockedRepeats(s: State, fs: seq<Fn>)
    requires Inv(s) && Muted(s) && Remembers(s, MEMORY) && s.alive && s.now.None? && s.memory.Some?
    ensures Repeats(Books(s), Books(Queue.Add(s, fs)), fs)
  {
    AddingOffers(s, fs);
    LockedStep(s, s.memory, OpAdd(fs));
    JoiningFns(s.list, fs, s.next);
  }

  // ----- pending -----

  /** The progress callbacks registered. */
  function Registered(acts: seq<Act>): seq<nat> {
    if acts == [] then []
    else
      Registered(acts[..|acts| - 1]) +
      match acts[|acts| - 1] case Register(OnProgress, ids) => ids case _ => []
  }

  /** Until it is settled, the Deferred keeps every progress callback, in order; and the data they
      have been called with, or are to be, is that of every notify, and for each that is registered
      between firings the last again. */
  lemma PendingProgress(acts: seq<Act>)
    requires FirstSettling(acts).None?
    ensures var s := RunActs(acts).progress;
      && Fns(s.list) == Users(Registered(acts))
      && Datas(s.done) + (if s.now.Some? then [s.now.value.data] else []) + s.waiting == Wanted(MEMORY, ProgressOps(acts))
  {
    ProgressRun(acts);
    ProgressPlain(acts);
    FiresInOrder(MEMORY, ProgressOps(acts));
    ListHeld(MEMORY, ProgressOps(acts));
    HeldRegistered(acts);
  }

  lemma {:induction false} HeldRegistered(acts: seq<Act>)
    requires FirstSettling(acts).None?
    ensures Held(false, ProgressOps(acts)) == Users(Registered(acts))
  {
    if acts != [] {
      var before, a := acts[..|acts| - 1], acts[|acts| - 1];
      HeldRegistered(before);
      var ops := ProgressOps(before);
      match ProgressOp(false, a)
      case None =>
      case Some(op) =>
        assert ProgressOps(acts) == ops + [op] && (ops + [op])[..|ops|] == ops;
        if op.OpAdd? {
          AppendedAll(false, Users(Registered(before)), op.fs);
          UsersConcat(Registered(before), a.ids);
        }
    }
  }

  function Returning(n: nat): seq<Act> { seq(n, _ => CallbackReturns(OnProgress)) }

  lemma {:induction false} ReturningRun(acts: seq<Act>, n: nat)
    ensures RunActs(acts + Returning(n)).progress == Run(RunActs(acts).progress, Returns(n))
  {
    if n == 0 {
      assert acts + Returning(0) == acts;
    } else {
      var all := acts + Returning(n);
      ReturningRun(acts, n - 1);
      LastAct(all);
      assert all[..|all| - 1] == acts + Returning(n - 1) && all[|all| - 1] == CallbackReturns(OnProgress);
      assert Returns(n)[..n - 1] == Returns(n - 1);
    }
  }

  /** Fired between firings and left alone, a list calls all it holds with d. */
  lemma FireCallsAll(s: State, d: Data)
    requires s.now.None? && s.alive && s.stacked && s.waiting == []
    ensures var t := Run(Queue.Fire(s, d), Returns(|s.list|));
      t.now.None? && t.done == s.done + [Firing(d, s.list, s.list, {}, {})]
  {
    var u := s.(asked := s.asked + [d], memory := Recalled(s.flags, d), fired := true, lag := 0,
                now := Some(Firing(d, s.list[0..], [], {}, {})), todo := s.list[0..]);
    assert Queue.Fire(s, d) == Step(u, OpReturn(true));
    CallsItsQueue(u);
    RunFront(u, Returns(|s.list| + 1));
    assert Returns(|s.list| + 1)[1..] == Returns(|s.list|);
    assert s.list[0..] == s.list && [] + s.list == s.list;
  }

  /** A pending Deferred between firings, notified with e: each progress callback registered is called
      once, in the order they were registered, with e. */
  lemma NotifyCallsAll(acts: seq<Act>, e: Data)
    requires FirstSettling(acts).None? && RunActs(acts).progress.now.None?
    ensures var s := RunActs(acts).progress;
      var t := RunActs(acts + [Notify(e)] + Returning(|Registered(acts)|)).progress;
      && t.now.None? && |t.done| == |s.done| + 1 && t.done[..|s.done|] == s.done
      && t.done[|s.done|].data == e && Fns(t.done[|s.done|].ran) == Users(Registered(acts))
  {
    var s := RunActs(acts).progress;
    PendingProgress(acts);
    PendingReady(acts);
    assert (acts + [Notify(e)])[..|acts|] == acts;
    ReturningRun(acts + [Notify(e)], |Registered(acts)|);
    assert |s.list| == |Fns(s.list)|;
    FireCallsAll(s, e);
  }

  lemma PendingReady(acts: seq<Act>)
    requires FirstSettling(acts).None?
    ensures var s := RunActs(acts).progress; s.alive && s.stacked && (s.now.None? ==> s.waiting == [])
  {
    ProgressRun(acts);
    ProgressPlain(acts);
    RunWanted(MEMORY, ProgressOps(acts));
  }

  // ----- every firing -----

  /** No firing has lost a callback that it was offered, nor can it: it has something to remember. */
  ghost predicate Whole(s: State) {
    s.flags == MEMORY && s.lag == 0 && (s.now.Some? ==> s.memory.Some?) && Clear(Books(s))
  }

  ghost predicate Clear(fs: seq<Firing>) {
    forall i :: 0 <= i < |fs| ==> fs[i].struck == {} && fs[i].missed == {}
  }

  lemma {:induction false} BeginWhole(s: State, d: Data, start: nat)
    requires s.now.None? && start <= |s.list| && Whole(s)
    ensures Whole(Begin(s, d, start))
    decreases |s.waiting|, 2
  {
    var t := s.(memory := Some(d), fired := true, lag := 0,
                now := Some(Firing(d, s.list[start..], [], {}, {})), todo := s.list[start..]);
    assert Books(t) == Books(s) + [t.now.value];
    ResumeWhole(t);
  }

  lemma {:induction false} ResumeWhole(s: State)
    requires s.now.Some? && Whole(s)
    ensures Whole(Resume(s))
    decreases |s.waiting|, 1
  {
    if s.todo == [] {
      FinishWhole(s);
    } else {
      var a, b := Books(s), Books(Resume(s));
      assert forall i :: 0 <= i < |b| ==> b[i].struck == a[i].struck && b[i].missed == a[i].missed;
    }
  }

  lemma {:induction false} FinishWhole(s: State)
    requires s.now.Some? && Whole(s)
    ensures Whole(Finish(s))
    decreases |s.waiting|, 0
  {
    assert Books(Closed(s)) == Books(s);
    if s.alive && s.stacked && s.waiting != [] { BeginWhole(Closed(s).(waiting := s.waiting[1..]), s.waiting[0], 0); }
  }

  lemma WholeStep(s: State, op: Op)
    requires Whole(s) && PlainOp(op)
    ensures Whole(Step(s, op))
  {
    match op
    case OpAdd(fs) => if s.alive { WholeAdd(s, fs); }
    case OpFire(d) =>
      if s.now.None? {
        assert Books(s.(asked := s.asked + [d])) == Books(s);
        BeginWhole(s.(asked := s.asked + [d]), d, 0);
      } else {
        assert Books(Fire(s, d)) == Books(s);
      }
    case OpReturn(ok) => if s.now.Some? { ResumeWhole(s); }
    case OpLock => assert Books(Lock(s)) == Books(s);
  }

  lemma WholeAdd(s: State, fs: seq<Fn>)
    requires Whole(s) && s.alive
    ensures Whole(Add(s, fs))
  {
    var more := Joining(s.flags.unique, s.list, fs, s.next);
    if s.now.Some? {
      var a, b := Books(s), Books(Add(s, fs));
      assert more[..0] == [];
      assert forall i :: 0 <= i < |b| ==> b[i].struck == a[i].struck && b[i].missed == a[i].missed;
    } else if s.memory.Some? {
      var t := s.(list := s.list + more, next := s.next + |more|, asked := s.asked + [s.memory.value]);
      assert Books(t) == Books(s);
      BeginWhole(t, s.memory.value, |s.list|);
    }
  }

  lemma {:induction false} RunWhole(ops: seq<Op>)
    requires Plain(ops)
    ensures Whole(Run(Fresh(MEMORY), ops))
  {
    if ops != [] {
      RunWhole(ops[..|ops| - 1]);
      WholeStep(Run(Fresh(MEMORY), ops[..|ops| - 1]), ops[|ops| - 1]);
    }
  }

  /** Every progress firing that has ended, settled or not, has called all it was offered, each once
      and in order: what was registered when it began and what was added during it. */
  lemma ProgressCallsAll(acts: seq<Act>, i: nat)
    requires i < |RunActs(acts).progress.done|
    ensures var f := RunActs(acts).progress.done[i]; f.ran == f.offered && Ascending(f.ran)
  {
    var ops := ProgressOps(acts);
    ProgressRun(acts);
    ProgressPlain(acts);
    RunInv(MEMORY, ops);
    RunWhole(ops);
    var s := Run(Fresh(MEMORY), ops);
    assert Books(s)[i] == s.done[i];
    KeepClear(s.done[i].offered, s.done[i].struck + s.done[i].missed);
    assert s.done[i].ran + [] == s.done[i].ran;
  }
}
