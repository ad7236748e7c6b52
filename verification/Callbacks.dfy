/** jQuery.Callbacks with its closure variables (src/main/webapp/javascript/jquery-1.10.2.js).

    A firing is suspended while one of its callbacks runs, so between two calls of the methods
    below either no firing is in progress or `calling` is the call in progress.  Each method
    does to `view`, the queue of CallbackQueue.dfy, exactly what that module says. */
module Callbacks {
  import opened Basics
  import opened CallbackQueue
  import Queue = CallbackQueue

  /** list holds the callbacks of the occurrences xs. */
  ghost predicate Shows(list: seq<Fn>, xs: seq<Occ>) {
    |list| == |xs| && forall i :: 0 <= i < |xs| ==> list[i] == xs[i].fn
  }

  /** Removing each of fns in turn. */
  ghost function RemoveEach(s: State, fns: seq<Fn>): State {
    if fns == [] then s else Queue.Remove(RemoveEach(s, fns[..|fns| - 1]), fns[|fns| - 1])
  }

  /** jQuery.inArray( fn, list, from ) */
  method InArray(fn: Fn, list: seq<Fn>, from: nat) returns (index: int)
    requires from <= |list|
    ensures index == -1 || (from <= index < |list| && list[index] == fn)
    ensures index == -1 ==> fn !in list[from..]
    ensures index != -1 ==> fn !in list[from..index]
  {
    index := from;
    while index < |list|
      invariant from <= index <= |list| && fn !in list[from..index]
    {
      if list[index] == fn { return; }
      index := index + 1;
    }
    index := -1;
  }

  lemma ShowsContains(list: seq<Fn>, xs: seq<Occ>, fn: Fn)
    requires Shows(list, xs)
    ensures fn in list <==> Contains(xs, fn)
  {
  }

  lemma {:induction false} WithoutNone(xs: seq<Occ>, fn: Fn)
    requires forall i :: 0 <= i < |xs| ==> xs[i].fn != fn
    ensures Without(xs, fn) == xs
  {
    if xs != [] { WithoutNone(Init(xs), fn); }
  }

  /** The entries between two finds stay. */
  lemma PassTo(xs: seq<Occ>, done: nat, q: nat, fn: Fn)
    requires done <= q <= |xs|
    requires forall i :: done <= i < q ==> xs[i].fn != fn
    ensures Without(xs[..q], fn) == Without(xs[..done], fn) + xs[done..q]
  {
    assert xs[..q] == xs[..done] + xs[done..q];
    WithoutConcat(xs[..done], xs[done..q], fn);
    WithoutNone(xs[done..q], fn);
  }

  lemma Splice(xs: seq<Occ>, q: nat, fn: Fn)
    requires q < |xs| && xs[q].fn == fn
    ensures Without(xs[..q + 1], fn) == Without(xs[..q], fn)
  {
    assert Init(xs[..q + 1]) == xs[..q];
  }

  /** What list[index..] contains, read through the occurrences it shows. */
  lemma Unpassed(list: seq<Fn>, front: seq<Occ>, xs: seq<Occ>, done: nat, upto: nat, fn: Fn)
    requires done <= |xs| && Shows(list, front + xs[done..])
    requires |front| <= upto <= |list| && fn !in list[|front|..upto]
    ensures forall i :: done <= i < done + (upto - |front|) ==> xs[i].fn != fn
  {
    forall i | done <= i < done + (upto - |front|) ensures xs[i].fn != fn {
      var k := |front| + (i - done);
      assert (front + xs[done..])[k] == xs[i];
      assert list[|front|..upto][k - |front|] == list[k];
    }
  }

  /** With xs[..done] gone through, how many entries come before that of xs[n]. */
  ghost function Before(xs: seq<Occ>, done: nat, n: nat, fn: Fn): nat
    requires done <= |xs| && n <= |xs|
  {
    if done <= n then |Without(xs[..done], fn)| + (n - done) else |Without(xs[..n], fn)|
  }

  lemma {:induction false} WithoutShorter(xs: seq<Occ>, i: nat, j: nat, fn: Fn)
    requires i <= j <= |xs|
    ensures |Without(xs[..i], fn)| <= |Without(xs[..j], fn)|
  {
    assert xs[..j] == xs[..i] + xs[i..j];
    WithoutConcat(xs[..i], xs[i..j], fn);
  }

  /** With xs[..done] gone through, the search from there has come to index. */
  ghost predicate Searched(list: seq<Fn>, xs: seq<Occ>, done: nat, index: int, fn: Fn)
    requires done <= |xs|
  {
    var from := |Without(xs[..done], fn)|;
    && Shows(list, Without(xs[..done], fn) + xs[done..])
    && (if index < 0 then fn !in list[from..]
        else from <= index < |list| && list[index] == fn && fn !in list[from..index])
  }

  /** One splice: the entry found stands for xs[q]. */
  lemma SpliceStep(list: seq<Fn>, xs: seq<Occ>, done: nat, found: nat, fn: Fn) returns (q: nat)
    requires done <= |xs| && Searched(list, xs, done, found, fn)
    ensures q == done + (found - |Without(xs[..done], fn)|) && q < |xs|
    ensures |Without(xs[..q + 1], fn)| == found
    ensures Shows(list[..found] + list[found + 1..], Without(xs[..q + 1], fn) + xs[q + 1..])
    ensures forall n :: done <= n <= q ==> |Without(xs[..n], fn)| == |Without(xs[..done], fn)| + (n - done)
  {
    var front := Without(xs[..done], fn);
    q := done + (found - |front|);
    Unpassed(list, front, xs, done, found, fn);
    PassTo(xs, done, q, fn);
    assert (front + xs[done..])[found] == xs[q];
    Splice(xs, q, fn);
    forall n | done <= n <= q ensures |Without(xs[..n], fn)| == |front| + (n - done) { PassTo(xs, done, n, fn); }
    var ys := Without(xs[..q + 1], fn) + xs[q + 1..];
    forall i | 0 <= i < |ys| ensures (list[..found] + list[found + 1..])[i] == ys[i].fn {
      if i < |front| {
        assert (front + xs[done..])[i] == front[i];
      } else if i < found {
        assert (front + xs[done..])[i] == xs[done..q][i - |front|];
      } else {
        assert (front + xs[done..])[i + 1] == xs[q + 1..][i - found];
      }
    }
  }

  lemma BeforeStep(xs: seq<Occ>, done: nat, q: nat, n: nat, fn: Fn)
    requires done <= q < |xs| && n <= |xs|
    requires |Without(xs[..q + 1], fn)| == |Without(xs[..done], fn)| + (q - done)
    requires forall m :: done <= m <= q ==> |Without(xs[..m], fn)| == |Without(xs[..done], fn)| + (m - done)
    ensures Before(xs, q + 1, n, fn) == Before(xs, done, n, fn) - if q < n then 1 else 0
    ensures |Without(xs[..q + 1], fn)| < Before(xs, done, n, fn) <==> q < n
  {
    if n < done { WithoutShorter(xs, n, done, fn); }
  }

  /** Nothing is left to splice. */
  lemma SpliceEnd(list: seq<Fn>, xs: seq<Occ>, done: nat, n: nat, fn: Fn)
    requires done <= |xs| && n <= |xs| && Searched(list, xs, done, -1, fn)
    ensures Shows(list, Without(xs, fn))
    ensures Before(xs, done, n, fn) == |Without(xs[..n], fn)|
    ensures |Without(xs, fn)| == |Without(xs[..n], fn)| + |Without(xs[n..], fn)|
    ensures Without(xs, fn)[|Without(xs[..n], fn)|..] == Without(xs[n..], fn)
  {
    assert list[|Without(xs[..done], fn)|..] == list[|Without(xs[..done], fn)|..|list|];
    Unpassed(list, Without(xs[..done], fn), xs, done, |list|, fn);
    PassTo(xs, done, |xs|, fn);
    if done <= n { PassTo(xs, done, n, fn); }
    assert xs[..|xs|] == xs && xs[..n] + xs[n..] == xs;
    WithoutConcat(xs[..n], xs[n..], fn);
  }

  lemma {:induction false} RemoveFromDead(s: State, fns: seq<Fn>)
    requires !s.alive
    ensures RemoveEach(s, fns) == s
  {
    if fns != [] { RemoveFromDead(s, fns[..|fns| - 1]); }
  }

  /** list ends with todo. */
  ghost predicate Ends(list: seq<Occ>, todo: seq<Occ>) {
    |todo| <= |list| && forall i :: 0 <= i < |todo| ==> todo[i] == list[|list| - |todo| + i]
  }

  /** A queue at the end of the list stays there when both grow. */
  lemma SuffixGrows(list: seq<Occ>, todo: seq<Occ>, more: seq<Occ>, k: nat)
    requires k <= |more| && |todo| <= |list| && todo == list[|list| - |todo|..] && (k > 0 ==> todo == [])
    ensures todo + more[k..] == (list + more)[|list + more| - |todo + more[k..]|..]
  {
  }

  /** Joining takes up one callback after the other. */
  lemma JoiningStep(unique: bool, list: seq<Occ>, fs: seq<Fn>, i: nat, next: nat)
    requires i < |fs|
    ensures var os := if unique && Contains(list, fs[i]) then [] else [Occ(fs[i], next)];
      Joining(unique, list, fs[i..], next) == os + Joining(unique, list + os, fs[i + 1..], next + |os|)
  {
    assert fs[i..][0] == fs[i] && fs[i..][1..] == fs[i + 1..];
    assert list + [] == list;
  }

  class CallbackList {
    const flags: Flags
    var firing: bool
    var memory: Option<Data>
    var fired: bool
    var firingLength: nat
    var firingIndex: int
    var firingStart: nat
    /** `list`, with alive standing for its not being undefined. */
    var list: seq<Fn>
    var alive: bool
    /** `stack`, with stacked standing for its being an array. */
    var stack: seq<Data>
    var stacked: bool
    /** The call in progress: list[firingIndex] on data. */
    var calling: Option<(Fn, Data)>
    ghost var view: State

    /** The simple fields hold what the view says. */
    ghost predicate Scalars()
      reads this
    {
      && (flags, alive, memory, fired, stacked, firing, firingStart)
         == (view.flags, view.alive, view.memory, view.fired, view.stacked, view.now.Some?, 0)
      && stack == view.waiting
      && (!alive ==> !stacked) && (!stacked ==> stack == []) && (firing ==> fired)
    }

    /** So does the list, of which a firing knows the length. */
    ghost predicate Listed()
      reads this
    {
      Shows(list, view.list) && (!alive ==> list == []) && (firing && alive ==> firingLength == |list|)
    }

    ghost predicate Mirrors()
      reads this
    {
      Scalars() && Listed()
    }

    /** cursor is the index of the first entry of the queue. */
    ghost predicate Aligned(cursor: int)
      reads this
    {
      && (view.now.Some? ==>
            && |view.todo| <= |view.list| && Ends(view.list, view.todo)
            && cursor == |view.list| - |view.todo| + view.lag
            && (view.lag > 0 ==> view.todo == []))
      && (view.now.None? ==> view.todo == [] && view.lag == 0)
    }

    ghost predicate InCall()
      reads this
    {
      && firing == calling.Some?
      && (firing ==> view.now.Some? && view.now.value.ran != [] &&
                     calling == Some((Last(view.now.value.ran).fn, view.now.value.data)))
    }

    ghost predicate Valid()
      reads this
    {
      Mirrors() && Aligned(firingIndex + 1) && InCall() && (!firing ==> stack == [])
    }

    constructor (flags: Flags)
      ensures Valid() && view == Fresh(flags) && this.flags == flags
    {
      this.flags := flags;
      firing, memory, fired, calling := false, None, false, None;
      firingLength, firingIndex, firingStart := 0, 0, 0;
      list, alive, stack, stacked := [], true, [], !flags.once;
      view := Fresh(flags);
    }

    // ----- the private fire -----

    method FireNow(d: Data, start: nat)
      requires Mirrors() && Aligned(0) && !firing && alive && start <= |list|
      modifies this
      ensures Valid() && view == Begin(old(view), d, start)
      decreases |stack|, 2
    {
      firingStart := start;
      memory := if flags.memory then Some(d) else None;
      fired := true;
      firingIndex := firingStart;
      view := view.(memory := memory, fired := true, lag := 0,
                    now := Some(Firing(d, view.list[firingStart..], [], {}, {})), todo := view.list[firingStart..]);
      firingStart := 0;
      firingLength := |list|;
      firing := true;
      Loop(d);
    }

    /** The test of the for loop and, if it succeeds, the call. */
    method Loop(d: Data)
      requires Mirrors() && Aligned(firingIndex) && firing && d == view.now.value.data
      modifies this
      ensures Valid() && view == Resume(old(view))
      decreases |stack|, 1
    {
      if alive && firingIndex < firingLength {
        calling := Some((list[firingIndex], d));
        view := Resume(view);
      } else {
        AfterLoop();
      }
    }

    method AfterLoop()
      requires Mirrors() && firing && view.todo == []
      modifies this
      ensures Valid() && view == Finish(old(view))
      decreases |stack|, 0
    {
      firing, calling := false, None;
      view := view.(done := view.done + [view.now.value], now := None, todo := [], lag := 0);
      if alive {
        if stacked {
          if |stack| > 0 {
            var d := stack[0];
            stack := stack[1..];
            view := view.(waiting := stack);
            FireNow(d, 0);
          }
        } else if memory.Some? {
          list := [];
          view := view.(list := []);
        } else {
          Disable();
        }
      }
    }

    // ----- the methods of self -----

    method Add(fns: seq<Fn>)
      requires Valid()
      modifies this
      ensures Valid() && view == Queue.Add(old(view), fns)
    {
      if alive {
        var start := |list|;
        ghost var more := Push(fns);
        if firing {
          JoinFiring(fns, more);
        } else {
          FireAdded(fns, start, more);
        }
      }
    }

    /** More callbacks between firings: with memory, they are called right away. */
    method FireAdded(fns: seq<Fn>, start: nat, ghost more: seq<Occ>)
      requires Scalars() && Aligned(firingIndex + 1) && InCall() && !firing && alive && stack == []
      requires more == Joining(view.flags.unique, view.list, fns, view.next) && Shows(list, view.list + more)
      requires start == |view.list|
      modifies this
      ensures Valid() && view == Queue.Add(old(view), fns)
    {
      view := view.(list := view.list + more, next := view.next + |more|);
      if memory.Some? {
        view := view.(asked := view.asked + [memory.value]);
        FireNow(memory.value, start);
      }
    }

    /** More callbacks for the firing in progress. */
    method JoinFiring(fns: seq<Fn>, ghost more: seq<Occ>)
      requires Scalars() && Aligned(firingIndex + 1) && InCall() && firing && alive
      requires more == Joining(view.flags.unique, view.list, fns, view.next) && Shows(list, view.list + more)
      modifies this`firingLength, this`view
      ensures Valid() && view == Queue.Add(old(view), fns)
    {
      firingLength := |list|;
      ghost var s, k := Queue.Add(view, fns), if view.lag < |more| then view.lag else |more|;
      SuffixGrows(view.list, view.todo, more, k);
      assert s.list == view.list + more && s.todo == view.todo + more[k..] && s.lag == view.lag - k;
      view := s;
    }

    /** The inner function of add, on the flattened arguments. */
    method Push(fns: seq<Fn>) returns (ghost more: seq<Occ>)
      requires Shows(list, view.list)
      modifies this`list
      ensures more == Joining(flags.unique, view.list, fns, view.next)
      ensures Shows(list, view.list + more)
    {
      more := [];
      ghost var all, xs := Joining(flags.unique, view.list, fns, view.next), view.list;
      var i := 0;
      assert fns[0..] == fns;
      while i < |fns|
        modifies this`list
        invariant 0 <= i <= |fns| && xs == view.list + more && Shows(list, xs)
        invariant all == more + Joining(flags.unique, xs, fns[i..], view.next + |more|)
      {
        JoiningStep(flags.unique, xs, fns, i, view.next + |more|);
        ghost var os := PushOne(fns[i], xs, view.next + |more|);
        Regroup(more, os, Joining(flags.unique, xs + os, fns[i + 1..], view.next + |more| + |os|));
        Regroup(view.list, more, os);
        xs, more := xs + os, more + os;
        i := i + 1;
      }
      assert fns[i..] == [];
    }

    method PushOne(fn: Fn, ghost xs: seq<Occ>, ghost tag: nat) returns (ghost os: seq<Occ>)
      requires Shows(list, xs)
      modifies this`list
      ensures os == if flags.unique && Contains(xs, fn) then [] else [Occ(fn, tag)]
      ensures Shows(list, xs + os)
    {
      os := [];
      var has := false;
      if flags.unique {
        has := Has(fn);
        ShowsContains(list, xs, fn);
      }
      if !has {
        list := list + [fn];
        os := [Occ(fn, tag)];
      }
    }

    method Has(fn: Fn) returns (r: bool)
      ensures r == (fn in list)
    {
      var index := InArray(fn, list, 0);
      r := index > -1;
    }

    method Remove(fns: seq<Fn>)
      requires Valid()
      modifies this
      ensures Valid() && view == RemoveEach(old(view), fns)
    {
      var i := 0;
      if alive {
        while i < |fns|
          invariant 0 <= i <= |fns| && Valid() && alive
          invariant view == RemoveEach(old(view), fns[..i])
        {
          RemoveAll(fns[i]);
          assert fns[..i + 1][..i] == fns[..i];
          i := i + 1;
        }
        assert fns[..i] == fns;
      } else {
        RemoveFromDead(view, fns);
      }
    }

    method RemoveAll(fn: Fn)
      requires Valid() && alive
      modifies this
      ensures Valid() && alive && view == Queue.Remove(old(view), fn)
    {
      ghost var n := |view.list| - |view.todo|;
      SpliceOut(fn, n);
      Struck(fn, n);
    }

    /** The view follows the list. */
    ghost method Struck(fn: Fn, n: nat)
      requires Scalars() && InCall() && alive && (!firing ==> stack == [])
      requires n == |view.list| - |view.todo| && (firing ==> view.todo == view.list[n..])
      requires firing && view.lag > 0 ==> view.todo == []
      requires !firing ==> view.todo == [] && view.lag == 0
      requires Shows(list, Without(view.list, fn))
      requires |list| == |Without(view.list[..n], fn)| + |Without(view.list[n..], fn)|
      requires Without(view.list, fn)[|Without(view.list[..n], fn)|..] == Without(view.list[n..], fn)
      requires firing ==> firingLength == |list| && firingIndex + 1 == |Without(view.list[..n], fn)| + view.lag
      modifies this`view
      ensures Valid() && view == Queue.Remove(old(view), fn)
    {
      ghost var s := Queue.Remove(view, fn);
      assert s.list == Without(view.list, fn) && s.todo == Without(view.todo, fn);
      view := s;
      assert Mirrors();
      assert Aligned(firingIndex + 1);
    }

    /** Splices out the entry found, corrects the firing indexes and searches on. */
    method SpliceAt(ghost xs: seq<Occ>, ghost done: nat, found: nat, ghost n: nat, fn: Fn)
      returns (ghost gone: nat, index: int)
      requires done < |xs| && n <= |xs| && Searched(list, xs, done, found, fn)
      requires firing ==> firingLength == |list| && firingIndex + 1 >= Before(xs, done, n, fn)
      requires firing && firingIndex + 1 > Before(xs, done, n, fn) ==> n == |xs|
      modifies this`list, this`firingLength, this`firingIndex
      ensures done < gone <= |xs| && -1 <= index && Searched(list, xs, gone, index, fn)
      ensures firing ==> firingLength == |list|
      ensures firing ==>
        firingIndex - Before(xs, gone, n, fn) == old(firingIndex) - Before(xs, done, n, fn)
    {
      ghost var q := SpliceStep(list, xs, done, found, fn);
      BeforeStep(xs, done, q, n, fn);
      gone := q + 1;
      list := list[..found] + list[found + 1..];
      if firing {
        if found <= firingLength { firingLength := firingLength - 1; }
        if found <= firingIndex { firingIndex := firingIndex - 1; }
      }
      index := InArray(fn, list, found);
    }

    /** The inner loop of remove: every occurrence of fn is spliced out, and each splice moves
        the end and, if at or before it, the index of the firing in progress.  n entries come
        before the queue. */
    method SpliceOut(fn: Fn, ghost n: nat)
      requires Shows(list, view.list) && n <= |list|
      requires firing ==> firingLength == |list| && n + view.lag == firingIndex + 1
      requires firing && view.lag > 0 ==> n == |list|
      modifies this`list, this`firingLength, this`firingIndex
      ensures Shows(list, Without(view.list, fn))
      ensures |list| == |Without(view.list[..n], fn)| + |Without(view.list[n..], fn)|
      ensures Without(view.list, fn)[|Without(view.list[..n], fn)|..] == Without(view.list[n..], fn)
      ensures firing ==> firingLength == |list|
      ensures firing ==> firingIndex + 1 == |Without(view.list[..n], fn)| + view.lag
    {
      ghost var done := SpliceEach(fn, view.list, n, view.lag);
      SpliceEnd(list, view.list, done, n, fn);
    }

    method SpliceEach(fn: Fn, ghost xs: seq<Occ>, ghost n: nat, ghost lag: nat) returns (ghost done: nat)
      requires Shows(list, xs) && n <= |xs|
      requires firing ==> firingLength == |list| && n + lag == firingIndex + 1
      requires firing && lag > 0 ==> n == |xs|
      modifies this`list, this`firingLength, this`firingIndex
      ensures done <= |xs| && Searched(list, xs, done, -1, fn)
      ensures firing ==> firingLength == |list| && firingIndex + 1 == Before(xs, done, n, fn) + lag
    {
      done := 0;
      assert xs[..0] == [] && Without(xs[..0], fn) + xs[0..] == xs;
      var index := InArray(fn, list, 0);
      while index > -1
        modifies this`list, this`firingLength, this`firingIndex
        invariant 0 <= done <= |xs| && -1 <= index && (index > -1 ==> done < |xs|)
        invariant Searched(list, xs, done, index, fn)
        invariant firing ==> firingLength == |list|
        invariant firing ==> firingIndex + 1 == Before(xs, done, n, fn) + lag
        decreases |xs| - done
      {
        done, index := SpliceAt(xs, done, index, n, fn);
      }
    }

    method Empty()
      requires Valid()
      modifies this`list, this`alive, this`firingLength, this`view
      ensures Valid() && view == Queue.Empty(old(view))
    {
      ghost var s := CutShort(view, true);
      assert s.todo == [] && s.now.Some? == view.now.Some?;
      assert s.lag == view.lag + if view.now.Some? then |view.list| - |view.todo| else 0;
      list, alive := [], true;
      firingLength := 0;
      view := s.(alive := true, list := []);
    }

    method Disable()
      requires Valid()
      modifies this`list, this`alive, this`stack, this`stacked, this`memory, this`view
      ensures Valid() && view == Queue.Disable(old(view))
    {
      ghost var s := CutShort(view, false);
      assert s.todo == [] && s.now.Some? == view.now.Some?;
      assert s.lag == view.lag + if view.now.Some? then |view.list| - |view.todo| else 0;
      list, alive := [], false;
      stack, stacked := [], false;
      memory := None;
      view := s.(alive := false, stacked := false, list := [], memory := None, waiting := []);
    }

    method Lock()
      requires Valid()
      modifies this
      ensures Valid() && view == Queue.Lock(old(view))
    {
      stack, stacked := [], false;
      view := view.(stacked := false, waiting := []);
      if memory.None? {
        Disable();
      }
    }

    method FireWith(d: Data)
      requires Valid()
      modifies this
      ensures Valid() && view == Queue.Fire(old(view), d)
    {
      if alive && (!fired || stacked) {
        view := view.(asked := view.asked + [d]);
        if firing {
          stack := stack + [d];
          view := view.(waiting := stack);
        } else {
          FireNow(d, 0);
        }
      }
    }

    /** The call in progress comes back with a result; the for loop goes on. */
    method Return(ok: bool)
      requires Valid() && firing
      modifies this
      ensures Valid() && view == Queue.Return(old(view), ok)
    {
      if !ok && flags.stopOnFalse {
        Break();
      } else {
        firingIndex := firingIndex + 1;
        Loop(calling.value.1);
      }
    }

    method Break()
      requires Valid() && firing
      modifies this
      ensures Valid() && view == Finish(CutShort(old(view), false).(memory := None))
    {
      memory := None;
      ghost var s := CutShort(view, false);
      assert s.todo == [] && s.list == view.list && s.now.Some?;
      view := s.(memory := None);
      AfterLoop();
    }
  }

  /** A firing calls everything added to the list during it if and only if its cursor is within the
      list, beyond which empty() may have left it.  If not, it passes over the first of what is
      added, up to and with the cursor's position. */
  lemma HeardUnlessDeaf(c: CallbackList, fns: seq<Fn>)
    requires c.Valid() && c.alive && c.firing
    ensures var more := Joining(c.flags.unique, c.view.list, fns, c.view.next);
      var beyond := c.firingIndex + 1 - |c.list|;
      && (Queue.Add(c.view, fns).todo == c.view.todo + more <==> c.firingIndex < |c.list| || more == [])
      && (beyond > 0 ==> Queue.Add(c.view, fns).todo == if beyond < |more| then more[beyond..] else [])
  {
    var more := Joining(c.flags.unique, c.view.list, fns, c.view.next);
    var k := if c.view.lag < |more| then c.view.lag else |more|;
    assert |c.list| == |c.view.list|;
    if k > 0 {
      assert |c.view.todo + more[k..]| < |c.view.todo + more|;
    }
  }
}
