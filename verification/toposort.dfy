/** Dependency graphs: orders, cycles and Kahn's algorithm. */
module TopoSort {
  type Name = string

  /** Component name to the names it depends on, repetitions allowed. */
  type Graph = map<Name, seq<Name>>

  ghost predicate KnownDeps(g: Graph, n: Name)
    requires n in g
  {
    forall d :: d in g[n] ==> d in g
  }

  ghost predicate Registered(g: Graph) {
    forall n :: n in g ==> KnownDeps(g, n)
  }

  ghost predicate NoRepeats(s: seq<Name>) {
    forall i, j :: 0 <= i < j < |s| ==> s[i] != s[j]
  }

  /** Whatever a listed component depends on is listed before it. */
  ghost predicate DepsFirst(g: Graph, order: seq<Name>) {
    && (forall i :: 0 <= i < |order| ==> order[i] in g)
    && forall i, d :: 0 <= i < |order| && d in g[order[i]] ==> d in order[..i]
  }

  /** A permutation of the components with every dependency before its dependents. */
  ghost predicate IsOrder(g: Graph, order: seq<Name>) {
    NoRepeats(order) && DepsFirst(g, order) && forall n :: n in g ==> n in order
  }

  /** p walks from component to dependency and ends where it began. */
  ghost predicate IsWalk(g: Graph, p: seq<Name>) {
    && (forall i :: 0 <= i < |p| ==> p[i] in g)
    && forall i :: 0 <= i < |p| - 1 ==> p[i + 1] in g[p[i]]
  }

  ghost predicate IsCycle(g: Graph, p: seq<Name>) {
    |p| >= 2 && p[0] == p[|p| - 1] && IsWalk(g, p)
  }

  ghost predicate Acyclic(g: Graph) {
    forall p :: !IsCycle(g, p)
  }

  // ----- an order excludes cycles

  lemma {:induction false} WalkDescends(g: Graph, order: seq<Name>, p: seq<Name>, k: nat, a: nat)
    requires IsOrder(g, order) && IsWalk(g, p) && k < |p| && a < |order| && order[a] == p[0]
    ensures exists b :: 0 <= b <= a - k && order[b] == p[k]
  {
    if k > 0 {
      WalkDescends(g, order, p, k - 1, a);
      var b :| 0 <= b <= a - (k - 1) && order[b] == p[k - 1];
      assert p[k - 1 + 1] in g[p[k - 1]];
      assert p[k] in order[..b];
    }
  }

  lemma OrderedIsAcyclic(g: Graph, order: seq<Name>)
    requires IsOrder(g, order)
    ensures Acyclic(g)
  {
    forall p ensures !IsCycle(g, p) {
      if IsCycle(g, p) {
        var a :| 0 <= a < |order| && order[a] == p[0];
        WalkDescends(g, order, p, |p| - 1, a);
      }
    }
  }

  // ----- a set without a free component contains a cycle

  ghost function Members(s: seq<Name>): set<Name> {
    set n | n in s
  }

  ghost predicate DependsWithin(g: Graph, r: set<Name>, n: Name)
    requires n in g
  {
    exists d :: d in g[n] && d in r
  }

  lemma PickDep(g: Graph, r: set<Name>, n: Name) returns (d: Name)
    requires n in g && DependsWithin(g, r, n)
    ensures d in g[n] && d in r
  {
    d :| d in g[n] && d in r;
  }

  lemma WalkSuffix(g: Graph, w: seq<Name>, i: nat)
    requires IsWalk(g, w) && i <= |w|
    ensures IsWalk(g, w[i..]) && Members(w[i..]) <= Members(w)
  {
    forall k | 0 <= k < |w[i..]| - 1 ensures w[i..][k + 1] in g[w[i..][k]] {
      assert w[i + k + 1] in g[w[i + k]];
    }
  }

  lemma WalkExtend(g: Graph, w: seq<Name>, d: Name)
    requires w != [] && IsWalk(g, w) && d in g && d in g[w[|w| - 1]]
    ensures IsWalk(g, w + [d]) && Members(w + [d]) == Members(w) + {d}
  {
  }

  /** Following dependencies inside a finite set in which everybody has one
      must come back to a component already met. */
  lemma {:induction false} FindCycle(g: Graph, r: set<Name>, w: seq<Name>) returns (p: seq<Name>)
    requires w != [] && IsWalk(g, w) && Members(w) <= r <= g.Keys
    requires forall n :: n in r ==> DependsWithin(g, r, n)
    ensures IsCycle(g, p) && Members(p) <= r
    decreases |r - Members(w)|
  {
    hide IsWalk, DependsWithin;
    var v := w[|w| - 1];
    assert v in Members(w);
    var d := PickDep(g, r, v);
    WalkExtend(g, w, d);
    if d in w {
      var i :| 0 <= i < |w| && w[i] == d;
      WalkSuffix(g, w + [d], i);
      p := (w + [d])[i..];
    } else {
      SmallerSet(r - Members(w + [d]), r - Members(w));
      p := FindCycle(g, r, w + [d]);
    }
  }

  lemma SmallerSet(a: set<Name>, b: set<Name>)
    requires a <= b && a != b
    ensures |a| < |b|
  {
    assert b == a + (b - a);
    assert |b| == |a| + |b - a|;
  }

  // ----- Kahn's algorithm

  datatype SortResult = Order(order: seq<Name>) | DependencyNotFound(name: Name, dep: Name)
                      | CircularDependency(involving: seq<Name>)

  /** How many entries of deps are not done yet. */
  function Pending(deps: seq<Name>, done: set<Name>): nat {
    if deps == [] then 0
    else Pending(deps[..|deps| - 1], done) + (if deps[|deps| - 1] in done then 0 else 1)
  }

  function Occurrences(s: seq<Name>, x: Name): nat {
    if s == [] then 0 else Occurrences(s[..|s| - 1], x) + (if s[|s| - 1] == x then 1 else 0)
  }

  lemma OccurrencesAppend(s: seq<Name>, y: Name, x: Name)
    ensures Occurrences(s + [y], x) == Occurrences(s, x) + (if y == x then 1 else 0)
  {
    assert (s + [y])[..|s|] == s;
  }

  lemma {:induction false} PendingNone(deps: seq<Name>)
    ensures Pending(deps, {}) == |deps|
  {
    if deps != [] { PendingNone(deps[..|deps| - 1]); }
  }

  lemma {:induction false} PendingAdd(deps: seq<Name>, done: set<Name>, x: Name)
    requires x !in done
    ensures Pending(deps, done + {x}) == Pending(deps, done) - Occurrences(deps, x)
  {
    if deps != [] { PendingAdd(deps[..|deps| - 1], done, x); }
  }

  lemma {:induction false} PendingZero(deps: seq<Name>, done: set<Name>)
    ensures Pending(deps, done) == 0 <==> forall d :: d in deps ==> d in done
  {
    if deps != [] {
      PendingZero(deps[..|deps| - 1], done);
      assert forall d :: d in deps <==> d in deps[..|deps| - 1] || d == deps[|deps| - 1];
    }
  }

  /** dependents[d] lists n as often as g[n] lists d. */
  ghost predicate Mirrors(g: Graph, dependents: Graph) {
    && dependents.Keys == g.Keys
    && (forall d :: d in g ==> forall n :: n in dependents[d] ==> n in g)
    && forall d, n :: d in g && n in g ==> Occurrences(dependents[d], n) == Occurrences(g[n], d)
  }

  ghost predicate Degrees(g: Graph, inDegree: map<Name, int>, done: set<Name>) {
    inDegree.Keys == g.Keys && forall n :: n in g ==> inDegree[n] == Pending(g[n], done)
  }

  /** The queue holds exactly the components that are free and not yet placed. */
  ghost predicate Queued(g: Graph, inDegree: map<Name, int>, queue: seq<Name>, order: seq<Name>)
    requires inDegree.Keys == g.Keys
  {
    && NoRepeats(queue)
    && forall n :: n in queue <==> n in g && inDegree[n] == 0 && n !in order
  }

  /** The edges of `built` are entered in both maps. */
  ghost predicate Entered(built: Graph, inDegree: map<Name, int>, dependents: Graph) {
    && Mirrors(built, dependents)
    && inDegree.Keys == built.Keys && forall n :: n in built ==> inDegree[n] == |built[n]|
  }

  lemma NothingEntered(g: Graph)
    ensures Entered(map n | n in g :: [], map n | n in g :: 0, map n | n in g :: [])
  {
  }

  lemma EdgeEntered(built: Graph, inDegree: map<Name, int>, dependents: Graph, n: Name, d: Name)
    requires Entered(built, inDegree, dependents) && n in built && d in built
    ensures n in inDegree && d in dependents
    ensures Entered(built[n := built[n] + [d]], inDegree[n := inDegree[n] + 1], dependents[d := dependents[d] + [n]])
  {
    hide Occurrences;
    var built', dependents' := built[n := built[n] + [d]], dependents[d := dependents[d] + [n]];
    forall e, m | e in built && m in built ensures Occurrences(dependents'[e], m) == Occurrences(built'[m], e) {
      OccurrencesAppend(dependents[d], n, m);
      OccurrencesAppend(built[n], d, e);
    }
  }

  lemma AllEntered(g: Graph, inDegree: map<Name, int>, dependents: Graph)
    requires Entered(g, inDegree, dependents)
    ensures Mirrors(g, dependents) && Degrees(g, inDegree, {})
  {
    forall n | n in g ensures inDegree[n] == Pending(g[n], {}) { PendingNone(g[n]); }
  }

  lemma UnknownDep(g: Graph, n: Name, d: Name)
    requires n in g && d in g[n] && d !in g
    ensures !KnownDeps(g, n)
  {
  }

  /** Enters the dependencies of one component, up to the first unknown one. */
  method EnterDeps(g: Graph, name: Name, inDegree: map<Name, int>, dependents: Graph, ghost built: Graph)
    returns (unknown: seq<Name>, inDegree': map<Name, int>, dependents': Graph)
    requires name in g && built.Keys == g.Keys && built[name] == [] && Entered(built, inDegree, dependents)
    ensures unknown == [] ==> Entered(built[name := g[name]], inDegree', dependents') && KnownDeps(g, name)
    ensures unknown != [] ==> unknown[0] in g[name] && unknown[0] !in g
  {
    hide Entered;
    inDegree', dependents' := inDegree, dependents;
    ghost var now := built;
    assert built[name := []] == built;
    for i := 0 to |g[name]|
      invariant now == built[name := g[name][..i]] && Entered(now, inDegree', dependents')
      invariant forall d :: d in g[name][..i] ==> d in g
    {
      var dep := g[name][i];
      if dep !in g { return [dep], inDegree', dependents'; }
      EdgeEntered(now, inDegree', dependents', name, dep);
      dependents' := dependents'[dep := dependents'[dep] + [name]];
      inDegree' := inDegree'[name := inDegree'[name] + 1];
      assert g[name][..i + 1] == g[name][..i] + [dep];
      now := now[name := now[name] + [dep]];
    }
    assert g[name][..|g[name]|] == g[name];
    unknown := [];
  }

  /** Counts in-degrees and turns the dependency lists around. */
  method BuildGraph(g: Graph) returns (missing: seq<(Name, Name)>, inDegree: map<Name, int>, dependents: Graph)
    ensures missing == [] <==> Registered(g)
    ensures missing != [] ==> var (n, d) := missing[0]; n in g && d in g[n] && d !in g
    ensures missing == [] ==> Mirrors(g, dependents) && Degrees(g, inDegree, {})
  {
    hide Entered, KnownDeps, Mirrors, Degrees;
    inDegree := map n | n in g :: 0;
    dependents := map n | n in g :: [];
    var todo := g.Keys;
    ghost var built: Graph := map n | n in g :: [];
    NothingEntered(g);
    while todo != {}
      invariant todo <= g.Keys && built.Keys == g.Keys
      invariant forall n :: n in g ==> built[n] == if n in todo then [] else g[n]
      invariant Entered(built, inDegree, dependents)
      invariant forall n :: n in g && n !in todo ==> KnownDeps(g, n)
      decreases |todo|
    {
      var name :| name in todo;
      var unknown;
      unknown, inDegree, dependents := EnterDeps(g, name, inDegree, dependents, built);
      if unknown != [] {
        UnknownDep(g, name, unknown[0]);
        return [(name, unknown[0])], inDegree, dependents;
      }
      built := built[name := g[name]];
      todo := todo - {name};
    }
    assert built == g;
    AllEntered(g, inDegree, dependents);
    missing := [];
  }

  // ----- placing the free components

  /** Order placed so far, with the in-degrees and the queue that go with it. */
  ghost predicate Placing(g: Graph, order: seq<Name>, inDegree: map<Name, int>, queue: seq<Name>) {
    && NoRepeats(order) && DepsFirst(g, order)
    && Degrees(g, inDegree, Members(order))
    && Queued(g, inDegree, queue, order)
  }

  /** What is placed waits for nothing. */
  lemma PlacedAreFree(g: Graph, order: seq<Name>, n: Name)
    requires DepsFirst(g, order) && n in order
    ensures n in g && Pending(g[n], Members(order)) == 0
  {
    var i :| 0 <= i < |order| && order[i] == n;
    assert forall d :: d in g[n] ==> d in order[..i];
    PendingZero(g[n], Members(order));
  }

  lemma PlaceNext(g: Graph, order: seq<Name>, current: Name)
    requires NoRepeats(order) && DepsFirst(g, order) && current in g && current !in order
    requires Pending(g[current], Members(order)) == 0
    ensures NoRepeats(order + [current]) && DepsFirst(g, order + [current])
    ensures Members(order + [current]) == Members(order) + {current}
  {
    PendingZero(g[current], Members(order));
    var longer := order + [current];
    forall i, d | 0 <= i < |longer| && d in g[longer[i]] ensures d in longer[..i] {
      if i < |order| {
        assert longer[..i] == order[..i];
      } else {
        assert longer[..i] == order;
      }
    }
  }

  lemma {:induction false} OccurrencesPrefix(s: seq<Name>, k: nat, x: Name)
    requires k <= |s|
    ensures Occurrences(s[..k], x) <= Occurrences(s, x)
    decreases |s| - k
  {
    if k < |s| {
      assert s[..k + 1][..k] == s[..k];
      OccurrencesPrefix(s, k + 1, x);
    } else {
      assert s[..k] == s;
    }
  }

  lemma {:induction false} OccursOnce(s: seq<Name>, k: nat)
    requires k < |s|
    ensures Occurrences(s[..k + 1], s[k]) == Occurrences(s[..k], s[k]) + 1
  {
    assert s[..k + 1][..k] == s[..k];
  }

  /** While the dependents of `current` are visited: the first k of them
      have been counted down. */
  ghost predicate Relaxing(g: Graph, order: seq<Name>, dependents: seq<Name>, k: nat,
                           start: map<Name, int>, inDegree: map<Name, int>, queue: seq<Name>)
    requires k <= |dependents|
  {
    && start.Keys == inDegree.Keys == g.Keys
    && (forall n :: n in g ==> inDegree[n] == start[n] - Occurrences(dependents[..k], n))
    && Queued(g, inDegree, queue, order)
  }

  /** What makes the visits work: nothing placed is counted down, and nobody
      is counted down more often than it waits. */
  ghost predicate CountsDown(g: Graph, order: seq<Name>, dependents: seq<Name>, start: map<Name, int>) {
    && start.Keys == g.Keys
    && (forall n :: n in dependents ==> n in g)
    && (forall n :: n in g ==> Occurrences(dependents, n) <= start[n])
    && (forall n :: n in order ==> n in g && Occurrences(dependents, n) == 0)
  }

  lemma RelaxOne(g: Graph, order: seq<Name>, dependents: seq<Name>, k: nat,
                 start: map<Name, int>, inDegree: map<Name, int>, queue: seq<Name>)
    requires k < |dependents| && CountsDown(g, order, dependents, start)
    requires Relaxing(g, order, dependents, k, start, inDegree, queue)
    ensures dependents[k] in inDegree
    ensures var m := dependents[k]; var down := inDegree[m := inDegree[m] - 1];
      Relaxing(g, order, dependents, k + 1, start, down, if down[m] == 0 then queue + [m] else queue)
  {
    hide Occurrences;
    var m := dependents[k];
    var down := inDegree[m := inDegree[m] - 1];
    assert dependents[..k + 1] == dependents[..k] + [m];
    forall n | n in g ensures down[n] == start[n] - Occurrences(dependents[..k + 1], n) {
      OccurrencesAppend(dependents[..k], m, n);
    }
    OccursOnce(dependents, k);
    OccurrencesPrefix(dependents, k + 1, m);
    assert inDegree[m] > 0 && m !in queue && m !in order;
  }

  method Relax(g: Graph, dependents: seq<Name>, inDegree: map<Name, int>, queue: seq<Name>, ghost order: seq<Name>)
    returns (inDegree': map<Name, int>, queue': seq<Name>)
    requires CountsDown(g, order, dependents, inDegree) && Queued(g, inDegree, queue, order)
    ensures Relaxing(g, order, dependents, |dependents|, inDegree, inDegree', queue')
  {
    hide Relaxing, CountsDown, Queued;
    inDegree', queue' := inDegree, queue;
    RelaxStart(g, order, dependents, inDegree, queue);
    for k := 0 to |dependents|
      invariant Relaxing(g, order, dependents, k, inDegree, inDegree', queue')
    {
      var dependent := dependents[k];
      RelaxOne(g, order, dependents, k, inDegree, inDegree', queue');
      inDegree' := inDegree'[dependent := inDegree'[dependent] - 1];
      if inDegree'[dependent] == 0 { queue' := queue' + [dependent]; }
    }
  }

  lemma RelaxStart(g: Graph, order: seq<Name>, dependents: seq<Name>, start: map<Name, int>, queue: seq<Name>)
    requires CountsDown(g, order, dependents, start) && Queued(g, start, queue, order)
    ensures Relaxing(g, order, dependents, 0, start, start, queue)
  {
  }

  lemma PopFront(g: Graph, order: seq<Name>, inDegree: map<Name, int>, queue: seq<Name>)
    requires Placing(g, order, inDegree, queue) && queue != []
    ensures var current := queue[0];
      && current in g && current !in order && inDegree[current] == 0
      && NoRepeats(order + [current]) && DepsFirst(g, order + [current])
      && Queued(g, inDegree, queue[1..], order + [current])
  {
    hide Pending;
    var current := queue[0];
    assert current in queue;
    PlaceNext(g, order, current);
    assert queue == [current] + queue[1..];
  }

  lemma ReadyToRelax(g: Graph, order: seq<Name>, inDegree: map<Name, int>, dependents: Graph, current: Name)
    requires DepsFirst(g, order) && Degrees(g, inDegree, Members(order)) && Mirrors(g, dependents)
    requires current in g && current !in order && inDegree[current] == 0
    ensures CountsDown(g, order + [current], dependents[current], inDegree)
  {
    hide Pending, Occurrences;
    forall n | n in g
      ensures Occurrences(dependents[current], n) <= inDegree[n]
      ensures n in order + [current] ==> Occurrences(dependents[current], n) == 0
    {
      PendingAdd(g[n], Members(order), current);
      if n in order { PlacedAreFree(g, order, n); }
    }
  }

  lemma RelaxedIsPlacing(g: Graph, order: seq<Name>, inDegree: map<Name, int>, dependents: Graph, current: Name,
                         inDegree': map<Name, int>, queue': seq<Name>)
    requires NoRepeats(order + [current]) && DepsFirst(g, order + [current])
    requires Degrees(g, inDegree, Members(order)) && Mirrors(g, dependents) && current in g && current !in order
    requires Relaxing(g, order + [current], dependents[current], |dependents[current]|, inDegree, inDegree', queue')
    ensures Placing(g, order + [current], inDegree', queue')
  {
    hide Pending, Occurrences;
    assert Members(order + [current]) == Members(order) + {current};
    assert dependents[current][..|dependents[current]|] == dependents[current];
    forall n | n in g ensures inDegree'[n] == Pending(g[n], Members(order + [current])) {
      PendingAdd(g[n], Members(order), current);
    }
  }

  // ----- the outcome

  lemma {:induction false} CountMembers(s: seq<Name>)
    requires NoRepeats(s)
    ensures |Members(s)| == |s|
  {
    if s != [] {
      var init, last := s[..|s| - 1], s[|s| - 1];
      CountMembers(init);
      assert s == init + [last];
      assert Members(s) == Members(init) + {last};
    }
  }

  ghost function Unplaced(g: Graph, order: seq<Name>): set<Name> {
    g.Keys - Members(order)
  }

  lemma OnePlaced(g: Graph, order: seq<Name>, current: Name)
    requires current in g && current !in order
    ensures |Unplaced(g, order + [current])| < |Unplaced(g, order)|
  {
    assert Members(order + [current]) == Members(order) + {current};
    SmallerSet(Unplaced(g, order + [current]), Unplaced(g, order));
  }

  /** All are placed exactly when the counts agree. */
  lemma AllPlaced(g: Graph, order: seq<Name>)
    requires NoRepeats(order) && DepsFirst(g, order)
    ensures |order| == |g| <==> Unplaced(g, order) == {}
    ensures Unplaced(g, order) == {} ==> IsOrder(g, order)
  {
    CountMembers(order);
    assert Members(order) <= g.Keys;
    assert |g.Keys| == |Members(order)| + |Unplaced(g, order)| by {
      assert g.Keys == Members(order) + Unplaced(g, order);
    }
    if Unplaced(g, order) == {} {
      forall n | n in g ensures n in order { assert n !in Unplaced(g, order); }
    }
  }

  /** When the queue runs dry, whoever is left waits for somebody who is left. */
  lemma LeftoversWait(g: Graph, order: seq<Name>, inDegree: map<Name, int>, n: Name)
    requires Registered(g) && Placing(g, order, inDegree, []) && n in g
    ensures inDegree[n] > 0 <==> n in Unplaced(g, order)
    ensures n in Unplaced(g, order) ==> DependsWithin(g, Unplaced(g, order), n)
  {
    hide Pending;
    PendingZero(g[n], Members(order));
    if n in order {
      PlacedAreFree(g, order, n);
    } else {
      assert n !in [];
      assert KnownDeps(g, n);
      var d :| d in g[n] && d !in Members(order);
      assert d in Unplaced(g, order);
    }
  }

  /** Hence the leftovers contain a cycle. */
  lemma LeftoversCycle(g: Graph, order: seq<Name>, inDegree: map<Name, int>) returns (p: seq<Name>)
    requires Registered(g) && Placing(g, order, inDegree, []) && Unplaced(g, order) != {}
    ensures IsCycle(g, p) && Members(p) <= Unplaced(g, order)
  {
    hide Placing, DependsWithin, Registered;
    var n :| n in Unplaced(g, order);
    forall m | m in Unplaced(g, order) ensures DependsWithin(g, Unplaced(g, order), m) {
      LeftoversWait(g, order, inDegree, m);
    }
    assert Members([n]) == {n};
    p := FindCycle(g, Unplaced(g, order), [n]);
  }

  method FreeComponents(inDegree: map<Name, int>) returns (queue: seq<Name>)
    ensures NoRepeats(queue) && forall n :: n in queue <==> n in inDegree && inDegree[n] == 0
  {
    queue := Select(inDegree, true);
  }

  /** The names with in-degree zero, or those with a positive one. */
  method Select(inDegree: map<Name, int>, free: bool) returns (names: seq<Name>)
    ensures NoRepeats(names)
    ensures forall n :: n in names <==> n in inDegree && (if free then inDegree[n] == 0 else inDegree[n] > 0)
  {
    names := [];
    var todo := inDegree.Keys;
    while todo != {}
      invariant todo <= inDegree.Keys && NoRepeats(names)
      invariant forall n :: n in names <==> n in inDegree && n !in todo && (if free then inDegree[n] == 0 else inDegree[n] > 0)
      decreases |todo|
    {
      var n :| n in todo;
      todo := todo - {n};
      if (if free then inDegree[n] == 0 else inDegree[n] > 0) { names := names + [n]; }
    }
  }

  /** Kahn's loop: places free components until none is left. */
  method PlaceAll(g: Graph, dependents: Graph, start: map<Name, int>)
    returns (order: seq<Name>, inDegree: map<Name, int>)
    requires Registered(g) && Mirrors(g, dependents) && Degrees(g, start, {})
    ensures Placing(g, order, inDegree, [])
  {
    hide Placing, Mirrors, Registered, CountsDown, Relaxing, NoRepeats, DepsFirst, Unplaced, Queued;
    inDegree, order := start, [];
    var queue := FreeComponents(inDegree);
    StartPlacing(g, inDegree, queue);
    while queue != []
      invariant Placing(g, order, inDegree, queue)
      decreases |Unplaced(g, order)|
    {
      var current := queue[0];
      ghost var placed, degrees := order, inDegree;
      PlacingParts(g, order, inDegree, queue);
      PopFront(g, order, inDegree, queue);
      ReadyToRelax(g, order, inDegree, dependents, current);
      OnePlaced(g, order, current);
      queue := queue[1..];
      order := order + [current];
      MirrorKeys(g, dependents);
      inDegree, queue := Relax(g, dependents[current], inDegree, queue, order);
      RelaxedIsPlacing(g, placed, degrees, dependents, current, inDegree, queue);
    }
  }

  lemma MirrorKeys(g: Graph, dependents: Graph)
    requires Mirrors(g, dependents)
    ensures dependents.Keys == g.Keys
  {
  }

  lemma PlacingParts(g: Graph, order: seq<Name>, inDegree: map<Name, int>, queue: seq<Name>)
    requires Placing(g, order, inDegree, queue)
    ensures NoRepeats(order) && DepsFirst(g, order) && Degrees(g, inDegree, Members(order))
  {
  }

  lemma StartPlacing(g: Graph, inDegree: map<Name, int>, queue: seq<Name>)
    requires Degrees(g, inDegree, {}) && NoRepeats(queue)
    requires forall n :: n in queue <==> n in inDegree && inDegree[n] == 0
    ensures Placing(g, [], inDegree, queue)
  {
    assert Members([]) == {};
  }

  /** Sound and complete: an order exactly for a closed and acyclic graph; an
      unknown dependency is named; otherwise the components listed contain a
      cycle, and each of them waits for another one of them. */
  method TopologicalSort(g: Graph) returns (r: SortResult)
    ensures r.DependencyNotFound? <==> !Registered(g)
    ensures r.DependencyNotFound? ==> r.name in g && r.dep in g[r.name] && r.dep !in g
    ensures r.Order? <==> Registered(g) && Acyclic(g)
    ensures r.Order? ==> IsOrder(g, r.order)
    ensures r.CircularDependency? ==> exists p :: IsCycle(g, p) && Members(p) <= Members(r.involving)
    ensures r.CircularDependency? ==>
      forall n :: n in r.involving ==> n in g && DependsWithin(g, Members(r.involving), n)
  {
    hide Registered, Mirrors, Placing, IsOrder, IsCycle, DependsWithin;
    var missing, inDegree, dependents := BuildGraph(g);
    if missing != [] { return DependencyNotFound(missing[0].0, missing[0].1); }
    var order;
    order, inDegree := PlaceAll(g, dependents, inDegree);
    PlacingParts(g, order, inDegree, []);
    AllPlaced(g, order);
    if |order| != |g| {
      var cyclic := Select(inDegree, false);
      forall n | n in g
        ensures inDegree[n] > 0 <==> n in Unplaced(g, order)
        ensures n in Unplaced(g, order) ==> DependsWithin(g, Unplaced(g, order), n)
      {
        LeftoversWait(g, order, inDegree, n);
      }
      assert Members(cyclic) == Unplaced(g, order);
      ghost var p := LeftoversCycle(g, order, inDegree);
      return CircularDependency(cyclic);
    }
    OrderedIsAcyclic(g, order);
    return Order(order);
  }
}
