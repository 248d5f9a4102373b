/**
 The ordered list of interceptor actions and the fold that runs them over an
 outbound request before it is signed.

 An action is a handle `A` compared with `==` (the list removes by equality)
 together with `run`, which says what each handle does to the request it is
 handed. The request handed on may be null (`None`): a null produced by one
 action really is passed to the next one.
 */
module Interceptors {
  import opened Optional
  import opened Requests

  /** What running an action does to the (possibly null) request it receives. */
  type Runner<!A> = (A, Option<Request>) -> Option<Request>

  /** `addInterceptorAction`: the action goes to the end of the list. */
  function Register<A>(actions: seq<A>, a: A): (r: seq<A>)
    ensures |r| == |actions| + 1
    ensures r[..|actions|] == actions
    ensures r[|actions|] == a
  {
    actions + [a]
  }

  /** Position of the first element of `s` equal to `a`. */
  function FirstIndex<A(==)>(s: seq<A>, a: A): (i: nat)
    requires a in s
    ensures i < |s| && s[i] == a
    ensures a !in s[..i]
  {
    if s[0] == a then 0
    else
      assert s == [s[0]] + s[1..];
      1 + FirstIndex(s[1..], a)
  }

  /** `removeInterceptorAction`: walks the list and drops the first element equal to `a`. */
  function Unregister<A(==)>(actions: seq<A>, a: A): seq<A>
  {
    if |actions| == 0 then []
    else if actions[0] == a then actions[1..]
    else [actions[0]] + Unregister(actions[1..], a)
  }

  /**
   `Unregister` deletes the first element equal to `a`, if there is one, and
   keeps every other element in its original relative order.
   */
  lemma {:induction false} UnregisterRemovesFirst<A>(actions: seq<A>, a: A)
    ensures a !in actions ==> Unregister(actions, a) == actions
    ensures a in actions ==>
      Unregister(actions, a) == actions[..FirstIndex(actions, a)] + actions[FirstIndex(actions, a) + 1..]
    decreases |actions|
  {
    if |actions| > 0 {
      assert actions == [actions[0]] + actions[1..];
      if actions[0] != a {
        var rest := Unregister(actions[1..], a);
        UnregisterRemovesFirst(actions[1..], a);
        if a in actions {
          UnregisterKeepsHeadOrder(actions, a, rest);
        }
      }
    }
  }

  /** `Unregister` takes away exactly one copy of `a` when there is one, and nothing else. */
  lemma {:induction false} UnregisterRemovesOne<A>(actions: seq<A>, a: A)
    ensures multiset(Unregister(actions, a)) == multiset(actions) - multiset{a}
    decreases |actions|
  {
    if |actions| > 0 {
      assert actions == [actions[0]] + actions[1..];
      if actions[0] != a {
        UnregisterRemovesOne(actions[1..], a);
        UnregisterKeepsHeadCount(actions, a, Unregister(actions[1..], a));
      }
    }
  }

  /** The inductive step of `Unregister` when the head is kept: the multiset of what is left. */
  lemma UnregisterKeepsHeadCount<A>(actions: seq<A>, a: A, rest: seq<A>)
    requires |actions| > 0 && actions[0] != a
    requires multiset(rest) == multiset(actions[1..]) - multiset{a}
    ensures multiset([actions[0]] + rest) == multiset(actions) - multiset{a}
  {
    var x, t := actions[0], actions[1..];
    assert actions == [x] + t;
    assert multiset(actions) == multiset{x} + multiset(t);
    assert multiset([x] + rest) == multiset{x} + multiset(rest);
  }

  /** The inductive step of `Unregister` when the head is kept: the order of what is left. */
  lemma UnregisterKeepsHeadOrder<A>(actions: seq<A>, a: A, rest: seq<A>)
    requires |actions| > 0 && actions[0] != a && a in actions
    requires rest == actions[1..][..FirstIndex(actions[1..], a)] + actions[1..][FirstIndex(actions[1..], a) + 1..]
    ensures [actions[0]] + rest == actions[..FirstIndex(actions, a)] + actions[FirstIndex(actions, a) + 1..]
  {
    var x, t := actions[0], actions[1..];
    assert actions == [x] + t;
    assert a in t;
    var k := FirstIndex(t, a);
    assert FirstIndex(actions, a) == k + 1;
    calc {
      [x] + rest;
      [x] + (t[..k] + t[k + 1..]);
      ([x] + t[..k]) + t[k + 1..];
      { assert [x] + t[..k] == actions[..k + 1]; assert t[k + 1..] == actions[k + 2..]; }
      actions[..k + 1] + actions[k + 2..];
    }
  }

  /**
   The loop of `intercept` as a fold: each action receives exactly what the
   previous one returned, starting from `input`, in registration order.
   */
  function RunActions<A>(actions: seq<A>, run: Runner<A>, input: Option<Request>): Option<Request>
    decreases |actions|
  {
    if |actions| == 0 then input
    else RunActions(actions[1..], run, run(actions[0], input))
  }

  /**
   The loop of `intercept` as written: walks the list once and returns the
   final result together with every intermediate value.
   */
  method ApplyActions<A>(actions: seq<A>, run: Runner<A>, request: Request)
    returns (result: Option<Request>, steps: seq<Option<Request>>)
    ensures |steps| == |actions| + 1
    ensures steps[0] == Some(request)
    ensures forall i :: 0 <= i < |actions| ==> steps[i + 1] == run(actions[i], steps[i])
    ensures result == steps[|actions|]
    ensures result == RunActions(actions, run, Some(request))
  {
    result := Some(request);
    steps := [result];
    var i := 0;
    while i < |actions|
      invariant 0 <= i <= |actions|
      invariant |steps| == i + 1 && steps[0] == Some(request) && result == steps[i]
      invariant forall k :: 0 <= k < i ==> steps[k + 1] == run(actions[k], steps[k])
      invariant RunActions(actions[i..], run, result) == RunActions(actions, run, Some(request))
    {
      assert actions[i..][1..] == actions[i + 1..];
      result := run(actions[i], result);
      steps := steps + [result];
      i := i + 1;
    }
    assert actions[i..] == [];
  }

  /** Running `a + b` is running `a`, then handing its result to `b`. */
  lemma {:induction false} RunActionsAppend<A>(a: seq<A>, b: seq<A>, run: Runner<A>, input: Option<Request>)
    ensures RunActions(a + b, run, input) == RunActions(b, run, RunActions(a, run, input))
    decreases |a|
  {
    if |a| == 0 {
      assert a + b == b;
    } else {
      assert (a + b)[1..] == a[1..] + b;
      RunActionsAppend(a[1..], b, run, run(a[0], input));
    }
  }

  /** A newly registered action runs last, on what the earlier actions produced. */
  lemma RegisteredActionRunsLast<A>(actions: seq<A>, a: A, run: Runner<A>, input: Option<Request>)
    ensures RunActions(Register(actions, a), run, input) == run(a, RunActions(actions, run, input))
  {
    RunActionsAppend(actions, [a], run, input);
  }

  /** Registering an action that was not yet present and removing it again restores the list. */
  lemma UnregisterUndoesRegister<A>(actions: seq<A>, a: A)
    requires a !in actions
    ensures Unregister(Register(actions, a), a) == actions
  {
    var r := Register(actions, a);
    assert r[|actions|] == a;
    assert FirstIndex(r, a) == |actions|;
    UnregisterRemovesFirst(r, a);
    assert r[..|actions|] == actions;
  }

  /** Removing an earlier registration is not disturbed by a later one. */
  lemma {:induction false} UnregisterBeforeLater<A>(actions: seq<A>, a: A, b: A)
    requires a in actions
    ensures Unregister(Register(actions, b), a) == Register(Unregister(actions, a), b)
    decreases |actions|
  {
    assert Register(actions, b) == [actions[0]] + (actions[1..] + [b]);
    if actions[0] != a {
      UnregisterBeforeLater(actions[1..], a, b);
    }
  }
}
