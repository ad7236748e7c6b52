/** jQuery.when over any number of arguments
    (src/main/webapp/javascript/jquery-1.10.2.js). */
module Whens {

  type Val = nat

  /** An argument: a plain value, or something with a promise method. */
  datatype Arg = Plain(value: Val) | Subordinate

  /** What a subordinate has told the callbacks that when gave it; see Deferreds for why this
      happens at most once and never as both. */
  datatype Fate = Open | Fulfilled(context: Val, value: Val) | Refused(reason: Val)

  /** The master Deferred as its own callbacks see it. */
  datatype Master = Pending | Resolved(contexts: seq<Val>, values: seq<Val>) | Rejected(reason: Val)

  /** How many subordinates among the first k arguments have not resolved. */
  function Unresolved(args: seq<Arg>, fates: seq<Fate>, k: nat): nat
    requires k <= |args| == |fates|
  {
    if k == 0 then 0
    else Unresolved(args, fates, k - 1) + if args[k - 1].Subordinate? && !fates[k - 1].Fulfilled? then 1 else 0
  }

  lemma {:induction false} UnresolvedZero(args: seq<Arg>, fates: seq<Fate>, k: nat)
    requires k <= |args| == |fates|
    ensures Unresolved(args, fates, k) == 0 <==> forall i :: 0 <= i < k && args[i].Subordinate? ==> fates[i].Fulfilled?
  {
    if k > 0 { UnresolvedZero(args, fates, k - 1); }
  }

  /** Settling subordinate j lowers the count by one if it resolves, not at all if it does not. */
  lemma {:induction false} UnresolvedStep(args: seq<Arg>, fates: seq<Fate>, j: nat, fate: Fate, k: nat)
    requires j < |args| == |fates| && k <= |args| && args[j].Subordinate? && fates[j].Open?
    ensures Unresolved(args, fates[j := fate], k) ==
            Unresolved(args, fates, k) - if j < k && fate.Fulfilled? then 1 else 0
    ensures j < k ==> Unresolved(args, fates, k) >= 1
    decreases k
  {
    if k > 0 { UnresolvedStep(args, fates, j, fate, k - 1); }
  }

  class When {
    const args: seq<Arg>
    var remaining: int
    var values: seq<Val>
    var contexts: seq<Val>
    var master: Master
    /** Arguments whose callbacks are attached, what each has reported, the first refusal. */
    ghost var attached: nat
    ghost var fates: seq<Fate>
    ghost var refusal: Master

    /** remaining counts the subordinates yet to resolve and the arguments yet to be looked at. */
    ghost predicate Counting()
      reads this
    {
      && |args| == |values| == |contexts| == |fates| && attached <= |args|
      && (forall i :: 0 <= i < |args| ==> (i >= attached || args[i].Plain? ==> fates[i].Open?))
      && remaining == Unresolved(args, fates, attached) + (|args| - attached)
      && (forall i :: 0 <= i < |args| && args[i].Plain? ==> values[i] == args[i].value)
      && (forall i :: 0 <= i < |args| && fates[i].Fulfilled? ==>
            values[i] == fates[i].value && contexts[i] == fates[i].context)
      && (refusal.Rejected? <==> exists i :: 0 <= i < |args| && fates[i].Refused?)
      && !refusal.Resolved?
      && (refusal.Rejected? ==> master == refusal)
      && (refusal.Pending? ==> !master.Rejected?)
    }

    /** What the caller of when may rely on once when has returned. */
    ghost predicate Valid()
      reads this
    {
      if Sole() then PassedThrough()
      else
        && Counting() && attached == |args|
        && (master.Resolved? <==> AllResolved())
        && (master.Resolved? ==> master == Resolved(contexts, values))
    }

    /** A single argument with a promise is the master itself. */
    predicate Sole()
    {
      |args| == 1 && args[0].Subordinate?
    }

    ghost predicate PassedThrough()
      reads this
    {
      && |args| == |fates| == 1 && remaining == 1
      && master == match fates[0]
                   case Open => Pending
                   case Fulfilled(context, value) => Resolved([context], [value])
                   case Refused(reason) => Rejected(reason)
    }

    /** Every subordinate has resolved. */
    ghost predicate AllResolved()
      reads this
    {
      |fates| == |args| && forall i :: 0 <= i < |args| && args[i].Subordinate? ==> fates[i].Fulfilled?
    }

    /** early[i] is what argument i has reported by the time when returns. */
    constructor (args: seq<Arg>, early: seq<Fate>)
      requires |early| == |args|
      requires forall i :: 0 <= i < |args| && args[i].Plain? ==> early[i].Open?
      ensures Valid() && this.args == args && fates == early
    {
      this.args := args;
      remaining := if |args| != 1 || args[0].Subordinate? then |args| else 0;
      values := seq(|args|, i requires 0 <= i < |args| => if args[i].Plain? then args[i].value else 0);
      contexts := seq(|args|, _ => 0);
      master, refusal := Pending, Pending;
      attached, fates := 0, seq(|args|, _ => Open);
      new;
      if Sole() {
        PassThrough(early);
      } else {
        if |args| > 1 {
          Attach(early);
        } else {
          attached := |args|;
          assert early == fates;
        }
        UnresolvedZero(args, fates, |args|);
        if remaining == 0 {
          ResolveMaster();
        }
      }
    }

    /** The master is the one argument, whatever has become of it. */
    method PassThrough(early: seq<Fate>)
      requires Sole() && |early| == 1 && remaining == 1
      modifies this`master, this`fates
      ensures PassedThrough() && fates == early
    {
      fates := early;
      match early[0] {
        case Open => master := Pending;
        case Fulfilled(context, value) => master := Resolved([context], [value]);
        case Refused(reason) => master := Rejected(reason);
      }
    }

    /** The loop over the arguments. */
    method Attach(early: seq<Fate>)
      requires Counting() && attached == 0 && master.Pending? && refusal.Pending?
      requires |early| == |args| && forall i :: 0 <= i < |args| && args[i].Plain? ==> early[i].Open?
      modifies this
      ensures Counting() && attached == |args| && fates == early
      ensures master.Resolved? ==> remaining == 0 && master == Resolved(contexts, values)
    {
      var i := 0;
      while i < |args|
        invariant 0 <= i <= |args| && attached == i && Counting()
        invariant fates[..i] == early[..i]
        invariant master.Resolved? ==> remaining == 0 && i == |args| && master == Resolved(contexts, values)
      {
        AttachOne(i, early[i]);
        i := i + 1;
      }
    }

    /** The body of that loop. */
    method AttachOne(i: nat, early: Fate)
      requires Counting() && i == attached < |args| && !master.Resolved? && (args[i].Plain? ==> early.Open?)
      modifies this
      ensures Counting() && attached == i + 1 && fates == old(fates)[i := early]
      ensures master.Resolved? ==> remaining == 0 && attached == |args| && master == Resolved(contexts, values)
    {
      attached := attached + 1;
      if args[i].Plain? {
        remaining := remaining - 1;
        assert fates[i := early] == fates;
      } else {
        match early {
          case Open => assert fates[i := early] == fates;
          case Fulfilled(c, v) => Update(i, c, v);
          case Refused(r) => Refuse(i, r);
        }
      }
    }

    /** deferred.resolveWith( resolveContexts, resolveValues ) */
    method ResolveMaster()
      modifies this`master
      ensures master == if old(master).Pending? then Resolved(contexts, values) else old(master)
    {
      if master.Pending? { master := Resolved(contexts, values); }
    }

    /** updateFunc( i, resolveContexts, resolveValues ) as a done callback. */
    method Update(i: nat, context: Val, value: Val)
      requires Counting() && i < attached && args[i].Subordinate? && fates[i].Open?
      requires !master.Resolved?
      modifies this`contexts, this`values, this`remaining, this`master, this`fates
      ensures Counting() && attached == old(attached) && refusal == old(refusal)
      ensures fates == old(fates)[i := Fulfilled(context, value)]
      ensures remaining == old(remaining) - 1
      ensures master.Resolved? <==> remaining == 0
      ensures master.Resolved? ==> master == Resolved(contexts, values)
    {
      UnresolvedStep(args, fates, i, Fulfilled(context, value), attached);
      contexts := contexts[i := context];
      values := values[i := value];
      remaining := remaining - 1;
      fates := fates[i := Fulfilled(context, value)];
      UnresolvedZero(args, fates, attached);
      if remaining == 0 {
        ResolveMaster();
      }
    }

    /** deferred.reject as a fail callback. */
    method Refuse(i: nat, reason: Val)
      requires Counting() && i < attached && args[i].Subordinate? && fates[i].Open?
      requires !master.Resolved?
      modifies this`master, this`fates, this`refusal
      ensures Counting() && attached == old(attached)
      ensures fates == old(fates)[i := Refused(reason)]
      ensures master == if old(master).Pending? then Rejected(reason) else old(master)
    {
      UnresolvedStep(args, fates, i, Refused(reason), attached);
      if master.Pending? {
        master := Rejected(reason);
        refusal := master;
      }
      fates := fates[i := Refused(reason)];
      assert fates[i].Refused?;
    }

    /** Subordinate i resolves after when has returned. */
    method SubordinateResolves(i: nat, context: Val, value: Val)
      requires Valid() && i < |args| && args[i].Subordinate? && fates[i].Open?
      modifies this
      ensures Valid() && fates == old(fates)[i := Fulfilled(context, value)]
      ensures master.Resolved? ==> old(master).Pending? && |master.values| == |master.contexts| == |args|
      ensures master.Resolved? ==> forall k :: 0 <= k < |args| ==>
        if args[k].Plain? then master.values[k] == args[k].value
        else fates[k] == Fulfilled(master.contexts[k], master.values[k])
      ensures !master.Resolved? ==> master == old(master)
    {
      if Sole() {
        PassThrough([Fulfilled(context, value)]);
      } else {
        Update(i, context, value);
        UnresolvedZero(args, fates, |args|);
      }
    }

    /** Subordinate i is rejected after when has returned: the first to be so decides. */
    method SubordinateRejects(i: nat, reason: Val)
      requires Valid() && i < |args| && args[i].Subordinate? && fates[i].Open?
      modifies this
      ensures Valid() && fates == old(fates)[i := Refused(reason)]
      ensures master == if exists k :: 0 <= k < |args| && old(fates)[k].Refused? then old(master) else Rejected(reason)
    {
      if Sole() {
        PassThrough([Refused(reason)]);
      } else {
        Refuse(i, reason);
        assert fates[i].Refused?;
      }
    }
  }
}
