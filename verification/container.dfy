/** The component container: start in dependency order, stop in reverse. */
module Containers {
  import opened Wrappers
  import opened TopoSort

  datatype Component = Component(deps: seq<Name>, lifecycleAware: bool, configurable: bool)

  /** The calls a container makes on its components. */
  datatype Call = OnStart(name: Name) | Validate(name: Name) | Start(name: Name) | OnStop(name: Name) | Stop(name: Name)

  datatype StartResult = Started | SortFailed(why: SortResult) | CallFailed(call: Call)
  datatype RegisterResult = Registered | AlreadyStarted | AlreadyRegistered

  function Deps(cs: map<Name, Component>): (g: Graph)
    ensures g.Keys == cs.Keys && forall n :: n in cs ==> g[n] == cs[n].deps
  {
    map n | n in cs :: cs[n].deps
  }

  // ----- the calls of one start and one stop

  datatype Phase = StartHooks | Checks | Starts | StopHooks | Stops

  function CallIn(phase: Phase, n: Name): Call {
    match phase
    case StartHooks => OnStart(n)
    case Checks => Validate(n)
    case Starts => Start(n)
    case StopHooks => OnStop(n)
    case Stops => Stop(n)
  }

  predicate Concerns(cs: map<Name, Component>, phase: Phase, n: Name)
    requires n in cs
  {
    match phase
    case StartHooks => cs[n].lifecycleAware
    case Checks => cs[n].configurable
    case Starts => true
    case StopHooks => cs[n].lifecycleAware
    case Stops => true
  }

  /** One pass over the components in the given order. */
  function Pass(cs: map<Name, Component>, phase: Phase, order: seq<Name>): seq<Call>
    requires forall i :: 0 <= i < |order| ==> order[i] in cs
  {
    if order == [] then [] else
      var n := order[|order| - 1];
      Pass(cs, phase, order[..|order| - 1]) + (if Concerns(cs, phase, n) then [CallIn(phase, n)] else [])
  }

  function StartCalls(cs: map<Name, Component>, order: seq<Name>): seq<Call>
    requires forall i :: 0 <= i < |order| ==> order[i] in cs
  {
    Pass(cs, StartHooks, order) + Pass(cs, Checks, order) + Pass(cs, Starts, order)
  }

  function Reversed(s: seq<Name>): (r: seq<Name>)
    ensures |r| == |s| && forall i :: 0 <= i < |s| ==> r[i] == s[|s| - 1 - i]
  {
    seq(|s|, i requires 0 <= i < |s| => s[|s| - 1 - i])
  }

  function StopCalls(cs: map<Name, Component>, order: seq<Name>): seq<Call>
    requires forall i :: 0 <= i < |order| ==> order[i] in cs
  {
    Pass(cs, StopHooks, Reversed(order)) + Pass(cs, Stops, Reversed(order))
  }

  /** Where x comes before y in the calls. */
  ghost predicate Before(calls: seq<Call>, x: Call, y: Call) {
    exists i, j :: 0 <= i < j < |calls| && calls[i] == x && calls[j] == y
  }

  lemma {:induction false} FullPass(cs: map<Name, Component>, phase: Phase, order: seq<Name>)
    requires forall i :: 0 <= i < |order| ==> order[i] in cs
    requires phase == Starts || phase == Stops
    ensures |Pass(cs, phase, order)| == |order|
    ensures forall i :: 0 <= i < |order| ==> Pass(cs, phase, order)[i] == CallIn(phase, order[i])
  {
    if order != [] { FullPass(cs, phase, order[..|order| - 1]); }
  }

  lemma BeforeInSuffix(a: seq<Call>, b: seq<Call>, i: nat, j: nat)
    requires i < j < |b|
    ensures Before(a + b, b[i], b[j])
  {
    assert (a + b)[|a| + i] == b[i] && (a + b)[|a| + j] == b[j];
  }

  lemma DepComesFirst(cs: map<Name, Component>, order: seq<Name>, n: Name, d: Name) returns (i: nat, j: nat)
    requires IsOrder(Deps(cs), order) && n in cs && d in cs[n].deps
    ensures i < j < |order| && order[i] == d && order[j] == n
  {
    j :| 0 <= j < |order| && order[j] == n;
    assert d in Deps(cs)[order[j]];
    i :| 0 <= i < j && order[i] == d;
  }

  /** A complete start starts every dependency before its dependents, and a
      stop stops every dependent before its dependencies. */
  lemma LifecycleOrder(cs: map<Name, Component>, order: seq<Name>, n: Name, d: Name)
    requires IsOrder(Deps(cs), order) && n in cs && d in cs[n].deps
    ensures forall i :: 0 <= i < |order| ==> order[i] in cs
    ensures Before(StartCalls(cs, order), Start(d), Start(n))
    ensures Before(StopCalls(cs, order), Stop(n), Stop(d))
  {
    hide Pass, Before, NoRepeats;
    var i, j := DepComesFirst(cs, order, n, d);
    FullPass(cs, Starts, order);
    BeforeInSuffix(Pass(cs, StartHooks, order) + Pass(cs, Checks, order), Pass(cs, Starts, order), i, j);
    var last := |order| - 1;
    FullPass(cs, Stops, Reversed(order));
    BeforeInSuffix(Pass(cs, StopHooks, Reversed(order)), Pass(cs, Stops, Reversed(order)), last - j, last - i);
  }

  /** Every registered component is started by a complete start and stopped by a stop. */
  lemma EveryoneTakesPart(cs: map<Name, Component>, order: seq<Name>, n: Name)
    requires IsOrder(Deps(cs), order) && n in cs
    ensures forall i :: 0 <= i < |order| ==> order[i] in cs
    ensures Start(n) in StartCalls(cs, order) && Stop(n) in StopCalls(cs, order)
  {
    var j :| 0 <= j < |order| && order[j] == n;
    FullPass(cs, Starts, order);
    FullPass(cs, Stops, Reversed(order));
    assert Pass(cs, Starts, order)[j] == Start(n);
    assert Pass(cs, Stops, Reversed(order))[|order| - 1 - j] == Stop(n);
  }

  /** What a pass calls: exactly the components of the order it concerns. */
  lemma {:induction false} PassMembers(cs: map<Name, Component>, phase: Phase, order: seq<Name>, c: Call)
    requires forall i :: 0 <= i < |order| ==> order[i] in cs
    ensures c in Pass(cs, phase, order) <==> exists n :: n in order && Concerns(cs, phase, n) && c == CallIn(phase, n)
  {
    if order != [] {
      var init, last := order[..|order| - 1], order[|order| - 1];
      PassMembers(cs, phase, init, c);
      assert order == init + [last];
    }
  }

  /** A pass keeps the order, and repeats nothing. */
  lemma {:induction false} PassInOrder(cs: map<Name, Component>, phase: Phase, order: seq<Name>, i: nat, j: nat)
    requires forall k :: 0 <= k < |order| ==> order[k] in cs
    requires i < j < |order| && Concerns(cs, phase, order[i]) && Concerns(cs, phase, order[j])
    ensures Before(Pass(cs, phase, order), CallIn(phase, order[i]), CallIn(phase, order[j]))
  {
    var last := |order| - 1;
    var init := Pass(cs, phase, order[..last]);
    if j < last {
      PassInOrder(cs, phase, order[..last], i, j);
      BeforeInPrefix(init, Pass(cs, phase, order)[|init|..], CallIn(phase, order[i]), CallIn(phase, order[j]));
      assert Pass(cs, phase, order) == init + Pass(cs, phase, order)[|init|..];
    } else {
      PassMembers(cs, phase, order[..last], CallIn(phase, order[i]));
      assert order[..last][i] == order[i];
      BeforeAcross(init, [CallIn(phase, order[j])], CallIn(phase, order[i]), CallIn(phase, order[j]));
    }
  }

  lemma BeforeInPrefix(a: seq<Call>, b: seq<Call>, x: Call, y: Call)
    requires Before(a, x, y)
    ensures Before(a + b, x, y)
  {
    var i, j :| 0 <= i < j < |a| && a[i] == x && a[j] == y;
    assert (a + b)[i] == x && (a + b)[j] == y;
  }

  lemma BeforeAcross(a: seq<Call>, b: seq<Call>, x: Call, y: Call)
    requires x in a && y in b
    ensures Before(a + b, x, y)
  {
    var i :| 0 <= i < |a| && a[i] == x;
    var j :| 0 <= j < |b| && b[j] == y;
    assert (a + b)[i] == x && (a + b)[|a| + j] == y;
  }

  lemma InOrder(cs: map<Name, Component>, order: seq<Name>)
    requires IsOrder(Deps(cs), order)
    ensures forall n :: n in order <==> n in cs
    ensures forall i :: 0 <= i < |order| ==> order[i] in cs
  {
  }

  lemma ReversedMembers(order: seq<Name>)
    ensures forall n :: n in Reversed(order) <==> n in order
  {
    forall n | n in order ensures n in Reversed(order) {
      var i :| 0 <= i < |order| && order[i] == n;
      assert Reversed(order)[|order| - 1 - i] == n;
    }
  }

  lemma CalledInPass(cs: map<Name, Component>, phase: Phase, order: seq<Name>, q: Phase, n: Name)
    requires forall i :: 0 <= i < |order| ==> order[i] in cs
    ensures CallIn(q, n) in Pass(cs, phase, order) <==> q == phase && n in order && Concerns(cs, q, n)
  {
    hide Pass, Concerns;
    PassMembers(cs, phase, order, CallIn(q, n));
  }

  /** Whether the call of a phase on component n is made by a start and by a stop. */
  lemma CalledIn(cs: map<Name, Component>, order: seq<Name>, q: Phase, n: Name)
    requires IsOrder(Deps(cs), order) && forall i :: 0 <= i < |order| ==> order[i] in cs
    ensures CallIn(q, n) in StartCalls(cs, order) <==> (q.StartHooks? || q.Checks? || q.Starts?) && n in cs && Concerns(cs, q, n)
    ensures CallIn(q, n) in StopCalls(cs, order) <==> (q.StopHooks? || q.Stops?) && n in cs && Concerns(cs, q, n)
  {
    hide Pass, IsOrder, Concerns, CallIn;
    InOrder(cs, order);
    ReversedMembers(order);
    CalledInPass(cs, StartHooks, order, q, n);
    CalledInPass(cs, Checks, order, q, n);
    CalledInPass(cs, Starts, order, q, n);
    CalledInPass(cs, StopHooks, Reversed(order), q, n);
    CalledInPass(cs, Stops, Reversed(order), q, n);
  }

  /** Hooks and checks go exactly to the components that have them, starts and
      stops to all components, and nothing else is called. */
  lemma CalledExactly(cs: map<Name, Component>, order: seq<Name>, n: Name)
    requires IsOrder(Deps(cs), order)
    ensures forall i :: 0 <= i < |order| ==> order[i] in cs
    ensures OnStart(n) in StartCalls(cs, order) <==> n in cs && cs[n].lifecycleAware
    ensures Validate(n) in StartCalls(cs, order) <==> n in cs && cs[n].configurable
    ensures Start(n) in StartCalls(cs, order) <==> n in cs
    ensures OnStop(n) !in StartCalls(cs, order) && Stop(n) !in StartCalls(cs, order)
    ensures OnStop(n) in StopCalls(cs, order) <==> n in cs && cs[n].lifecycleAware
    ensures Stop(n) in StopCalls(cs, order) <==> n in cs
    ensures OnStart(n) !in StopCalls(cs, order) && Validate(n) !in StopCalls(cs, order) && Start(n) !in StopCalls(cs, order)
  {
    hide StartCalls, StopCalls, IsOrder;
    InOrder(cs, order);
    CalledIn(cs, order, StartHooks, n);
    CalledIn(cs, order, Checks, n);
    CalledIn(cs, order, Starts, n);
    CalledIn(cs, order, StopHooks, n);
    CalledIn(cs, order, Stops, n);
  }

  /** All start hooks come before all checks, all checks before all starts, and
      all stop hooks before all stops. */
  lemma PhasesInOrder(cs: map<Name, Component>, order: seq<Name>, n: Name, m: Name)
    requires IsOrder(Deps(cs), order) && n in cs && m in cs
    ensures forall i :: 0 <= i < |order| ==> order[i] in cs
    ensures cs[n].lifecycleAware && cs[m].configurable ==> Before(StartCalls(cs, order), OnStart(n), Validate(m))
    ensures cs[n].lifecycleAware ==> Before(StartCalls(cs, order), OnStart(n), Start(m))
    ensures cs[n].configurable ==> Before(StartCalls(cs, order), Validate(n), Start(m))
    ensures cs[n].lifecycleAware ==> Before(StopCalls(cs, order), OnStop(n), Stop(m))
  {
    hide Pass, IsOrder, Before;
    InOrder(cs, order);
    ReversedMembers(order);
    var hooks, checks, starts := Pass(cs, StartHooks, order), Pass(cs, Checks, order), Pass(cs, Starts, order);
    CalledInPass(cs, StartHooks, order, StartHooks, n);
    CalledInPass(cs, Checks, order, Checks, n);
    CalledInPass(cs, Checks, order, Checks, m);
    CalledInPass(cs, Starts, order, Starts, m);
    CalledInPass(cs, StopHooks, Reversed(order), StopHooks, n);
    CalledInPass(cs, Stops, Reversed(order), Stops, m);
    if cs[n].lifecycleAware {
      BeforeAcross(hooks + checks, starts, OnStart(n), Start(m));
      BeforeAcross(Pass(cs, StopHooks, Reversed(order)), Pass(cs, Stops, Reversed(order)), OnStop(n), Stop(m));
      if cs[m].configurable {
        BeforeAcross(hooks, checks, OnStart(n), Validate(m));
        BeforeInPrefix(hooks + checks, starts, OnStart(n), Validate(m));
      }
    }
    if cs[n].configurable { BeforeAcross(hooks + checks, starts, Validate(n), Start(m)); }
  }

  /** Hooks follow the dependencies too: start hooks forwards, stop hooks backwards. */
  lemma HooksInOrder(cs: map<Name, Component>, order: seq<Name>, n: Name, d: Name)
    requires IsOrder(Deps(cs), order) && n in cs && d in cs[n].deps && d in cs && cs[n].lifecycleAware && cs[d].lifecycleAware
    ensures forall i :: 0 <= i < |order| ==> order[i] in cs
    ensures Before(StartCalls(cs, order), OnStart(d), OnStart(n))
    ensures Before(StopCalls(cs, order), OnStop(n), OnStop(d))
  {
    hide Pass, Before, NoRepeats;
    var i, j := DepComesFirst(cs, order, n, d);
    InOrder(cs, order);
    PassInOrder(cs, StartHooks, order, i, j);
    var hooks := Pass(cs, StartHooks, order);
    BeforeInPrefix(hooks, Pass(cs, Checks, order), OnStart(d), OnStart(n));
    BeforeInPrefix(hooks + Pass(cs, Checks, order), Pass(cs, Starts, order), OnStart(d), OnStart(n));
    var last := |order| - 1;
    PassInOrder(cs, StopHooks, Reversed(order), last - j, last - i);
    BeforeInPrefix(Pass(cs, StopHooks, Reversed(order)), Pass(cs, Stops, Reversed(order)), OnStop(n), OnStop(d));
  }

  // ----- failures

  ghost predicate AllSucceed(calls: seq<Call>, ok: Call -> bool) {
    forall i :: 0 <= i < |calls| ==> ok(calls[i])
  }

  /** made is calls, cut after the first call that fails. */
  ghost predicate CutAtFailure(calls: seq<Call>, made: seq<Call>, ok: Call -> bool) {
    && made <= calls
    && (forall i :: 0 <= i < |made| - 1 ==> ok(made[i]))
    && (|made| < |calls| ==> made != [] && !ok(made[|made| - 1]))
  }

  lemma CutThenCut(a: seq<Call>, b: seq<Call>, x: seq<Call>, y: seq<Call>, ok: Call -> bool)
    requires CutAtFailure(a, x, ok) && AllSucceed(x, ok) && CutAtFailure(b, y, ok)
    ensures CutAtFailure(a + b, x + y, ok) && (AllSucceed(y, ok) <==> AllSucceed(x + y, ok))
  {
    assert x == a;
    if y != [] { assert (x + y)[|x + y| - 1] == y[|y| - 1]; }
    assert forall i :: 0 <= i < |y| ==> y[i] == (x + y)[|x| + i];
  }

  lemma CutShort(a: seq<Call>, b: seq<Call>, x: seq<Call>, ok: Call -> bool)
    requires CutAtFailure(a, x, ok) && !AllSucceed(x, ok)
    ensures CutAtFailure(a + b, x, ok)
  {
  }

  lemma CutFails(a: seq<Call>, x: seq<Call>, ok: Call -> bool)
    requires CutAtFailure(a, x, ok)
    ensures AllSucceed(a, ok) <==> AllSucceed(x, ok)
  {
  }

  /** The first failing call, if any. */
  ghost predicate IsFirstFailure(calls: seq<Call>, ok: Call -> bool, f: Option<Call>) {
    match f
    case None => AllSucceed(calls, ok)
    case Some(c) => exists i :: 0 <= i < |calls| && calls[i] == c && !ok(c) && AllSucceed(calls[..i], ok)
  }

  // ----- the object

  class Container {
    var components: map<Name, Component>
    var order: seq<Name>
    var started: bool
    var calls: seq<Call>

    /** A started container runs in an order for exactly its components. */
    ghost predicate Valid()
      reads this
    {
      started ==> IsOrder(Deps(components), order)
    }

    constructor ()
      ensures Valid() && components == map[] && !started && calls == []
    {
      components, order, started, calls := map[], [], false, [];
    }

    method Register(name: Name, component: Component) returns (r: RegisterResult)
      requires Valid()
      modifies this`components
      ensures Valid()
      ensures r == AlreadyStarted <==> started
      ensures r == AlreadyRegistered <==> !started && name in old(components)
      ensures components == if r == Registered then old(components)[name := component] else old(components)
    {
      if started { return AlreadyStarted; }
      if name in components { return AlreadyRegistered; }
      components := components[name := component];
      return Registered;
    }

    /** Starts everything in an order of the dependency graph, or stops at the
        first call that fails; a started container is left alone. */
    method StartAll(ok: Call -> bool) returns (r: StartResult)
      requires Valid()
      modifies this`order, this`started, this`calls
      ensures Valid() && (started <==> r == Started)
      ensures old(started) ==> r == Started && calls == old(calls) && order == old(order)
      ensures !old(started) && r.SortFailed? ==> calls == old(calls) && !r.why.Order?
      ensures !old(started) && r.SortFailed? ==>
        (r.why.DependencyNotFound? <==> !TopoSort.Registered(Deps(components)))
      ensures !old(started) ==>
        (r.SortFailed? <==> !(TopoSort.Registered(Deps(components)) && Acyclic(Deps(components))))
      ensures !old(started) && !r.SortFailed? ==>
        && IsOrder(Deps(components), order)
        && (forall i :: 0 <= i < |order| ==> order[i] in components)
        && calls == old(calls) + LastRun(old(calls))
        && CutAtFailure(StartCalls(components, order), LastRun(old(calls)), ok)
        && (r == Started <==> AllSucceed(StartCalls(components, order), ok))
        && (r.CallFailed? ==> calls != [] && r.call == calls[|calls| - 1] && !ok(r.call))
    {
      hide CutAtFailure, IsOrder, Pass, AllSucceed, Acyclic, TopoSort.Registered;
      if started { return Started; }
      var sorted := TopologicalSort(Deps(components));
      if !sorted.Order? { return SortFailed(sorted); }
      order := sorted.order;
      OrderKnown(components, order);
      var made, failed := StartPasses(components, order, ok);
      calls := calls + made;
      if failed.Some? {
        LastCall(old(calls), made);
        return CallFailed(failed.value);
      }
      started := true;
      return Started;
    }

    ghost function LastRun(before: seq<Call>): seq<Call>
      reads this
    {
      if |before| <= |calls| then calls[|before|..] else []
    }

    /** Stops everything in reverse order, whatever fails, and reports the first failure. */
    method StopAll(ok: Call -> bool) returns (r: Option<Call>)
      requires Valid()
      modifies this`started, this`calls
      ensures Valid() && !started
      ensures !old(started) ==> r == None && calls == old(calls)
      ensures old(started) ==>
        && (forall i :: 0 <= i < |order| ==> order[i] in components)
        && calls == old(calls) + StopCalls(components, order)
        && IsFirstFailure(StopCalls(components, order), ok, r)
    {
      hide IsOrder, Pass, IsFirstFailure;
      if !started { return None; }
      OrderKnown(components, order);
      var hooks, f := StopPass(components, StopHooks, Reversed(order), ok);
      var stops, g := StopPass(components, Stops, Reversed(order), ok);
      FirstOfTwo(hooks, stops, ok, f, g);
      calls := calls + (hooks + stops);
      started := false;
      r := if f.Some? then f else g;
    }
  }

  lemma OrderKnown(cs: map<Name, Component>, order: seq<Name>)
    requires IsOrder(Deps(cs), order)
    ensures forall i :: 0 <= i < |order| ==> order[i] in cs
  {
  }

  lemma LastCall(before: seq<Call>, made: seq<Call>)
    requires made != []
    ensures (before + made)[|before + made| - 1] == made[|made| - 1]
  {
  }

  /** One pass of StartAll: returns at the first failure. */
  method StartPass(cs: map<Name, Component>, phase: Phase, order: seq<Name>, ok: Call -> bool)
    returns (made: seq<Call>, failed: Option<Call>)
    requires forall i :: 0 <= i < |order| ==> order[i] in cs
    ensures CutAtFailure(Pass(cs, phase, order), made, ok)
    ensures failed.None? <==> AllSucceed(made, ok)
    ensures failed.Some? ==> made != [] && failed.value == made[|made| - 1] && !ok(failed.value)
  {
    made := [];
    for i := 0 to |order|
      invariant made == Pass(cs, phase, order[..i]) && AllSucceed(made, ok)
    {
      assert order[..i + 1][..i] == order[..i];
      if Concerns(cs, phase, order[i]) {
        var call := CallIn(phase, order[i]);
        made := made + [call];
        if !ok(call) {
          PassPrefix(cs, phase, order, i + 1);
          assert made[|made| - 1] == call;
          return made, Some(call);
        }
      }
    }
    assert order[..|order|] == order;
    failed := None;
  }

  method StartPasses(cs: map<Name, Component>, order: seq<Name>, ok: Call -> bool)
    returns (made: seq<Call>, failed: Option<Call>)
    requires forall i :: 0 <= i < |order| ==> order[i] in cs
    ensures CutAtFailure(StartCalls(cs, order), made, ok)
    ensures failed.None? <==> AllSucceed(StartCalls(cs, order), ok)
    ensures failed.Some? ==> made != [] && failed.value == made[|made| - 1] && !ok(failed.value)
  {
    hide Pass, CutAtFailure;
    var a, b, c := Pass(cs, StartHooks, order), Pass(cs, Checks, order), Pass(cs, Starts, order);
    made, failed := StartPass(cs, StartHooks, order, ok);
    if failed.Some? {
      CutShort(a, b + c, made, ok);
      assert StartCalls(cs, order) == a + (b + c);
      CutFails(StartCalls(cs, order), made, ok);
      return;
    }
    var more;
    more, failed := StartPass(cs, Checks, order, ok);
    CutThenCut(a, b, made, more, ok);
    made := made + more;
    if failed.Some? {
      CutShort(a + b, c, made, ok);
      CutFails(StartCalls(cs, order), made, ok);
      return;
    }
    more, failed := StartPass(cs, Starts, order, ok);
    CutThenCut(a + b, c, made, more, ok);
    made := made + more;
    CutFails(StartCalls(cs, order), made, ok);
  }

  /** One pass of StopAll: makes every call and remembers the first failure. */
  method StopPass(cs: map<Name, Component>, phase: Phase, order: seq<Name>, ok: Call -> bool)
    returns (made: seq<Call>, failed: Option<Call>)
    requires forall i :: 0 <= i < |order| ==> order[i] in cs
    ensures made == Pass(cs, phase, order) && IsFirstFailure(made, ok, failed)
  {
    made, failed := [], None;
    for i := 0 to |order|
      invariant made == Pass(cs, phase, order[..i]) && IsFirstFailure(made, ok, failed)
    {
      assert order[..i + 1][..i] == order[..i];
      if Concerns(cs, phase, order[i]) {
        var call := CallIn(phase, order[i]);
        OneMoreCall(made, ok, failed, call);
        made := made + [call];
        if !ok(call) && failed.None? { failed := Some(call); }
      }
    }
    assert order[..|order|] == order;
  }

  lemma OneMoreCall(calls: seq<Call>, ok: Call -> bool, f: Option<Call>, c: Call)
    requires IsFirstFailure(calls, ok, f)
    ensures IsFirstFailure(calls + [c], ok, if f.None? && !ok(c) then Some(c) else f)
  {
    var more := calls + [c];
    if f.Some? {
      var i :| 0 <= i < |calls| && calls[i] == f.value && !ok(f.value) && AllSucceed(calls[..i], ok);
      assert more[i] == f.value && more[..i] == calls[..i];
    } else {
      assert more[..|calls|] == calls && more[|calls|] == c;
    }
  }

  lemma FirstOfTwo(a: seq<Call>, b: seq<Call>, ok: Call -> bool, f: Option<Call>, g: Option<Call>)
    requires IsFirstFailure(a, ok, f) && IsFirstFailure(b, ok, g)
    ensures IsFirstFailure(a + b, ok, if f.Some? then f else g)
  {
    if f.Some? {
      var i :| 0 <= i < |a| && a[i] == f.value && !ok(f.value) && AllSucceed(a[..i], ok);
      assert (a + b)[i] == f.value && (a + b)[..i] == a[..i];
    } else if g.Some? {
      var i :| 0 <= i < |b| && b[i] == g.value && !ok(g.value) && AllSucceed(b[..i], ok);
      assert (a + b)[|a| + i] == g.value && (a + b)[..|a| + i] == a + b[..i];
    }
  }

  lemma {:induction false} PassPrefix(cs: map<Name, Component>, phase: Phase, order: seq<Name>, k: nat)
    requires k <= |order| && forall i :: 0 <= i < |order| ==> order[i] in cs
    ensures Pass(cs, phase, order[..k]) <= Pass(cs, phase, order)
    decreases |order| - k
  {
    if k < |order| {
      assert order[..k + 1][..k] == order[..k];
      PassPrefix(cs, phase, order, k + 1);
    } else {
      assert order[..k] == order;
    }
  }
}
