/**
 Plugin dependencies (registry.ts): the depth-first search that orders plugins for
 activation and reports cycles, and the search that answers whether one depends on another.
 */
module PluginRegistry {

  /** Registered plugins with the dependencies each declares. */
  type Plugins = map<string, seq<string>>

  datatype Problem = MissingDependency(id: string, dep: string) | Circular(path: seq<string>)

  /** A declared dependency between two registered plugins. */
  predicate Edge(g: Plugins, a: string, b: string) {
    a in g && b in g && b in g[a]
  }

  predicate IsWalk(g: Plugins, p: seq<string>) {
    forall k | 0 <= k < |p| - 1 :: Edge(g, p[k], p[k + 1])
  }

  ghost predicate HasCycle(g: Plugins) {
    exists p :: |p| >= 2 && IsWalk(g, p) && p[0] == p[|p| - 1]
  }

  predicate Distinct(s: seq<string>) {
    forall i, j | 0 <= i < j < |s| :: s[i] != s[j]
  }

  /** A path that runs into a plugin it has already passed. */
  predicate ShowsCycle(g: Plugins, path: seq<string>) {
    |path| >= 2 && IsWalk(g, path) && path[|path| - 1] in path[..|path| - 1]
  }

  lemma WalkFrom(g: Plugins, p: seq<string>, k: nat)
    requires IsWalk(g, p) && k <= |p|
    ensures IsWalk(g, p[k..])
  {
    hide Edge;
    var q := p[k..];
    forall i | 0 <= i < |q| - 1 ensures Edge(g, q[i], q[i + 1]) {
      assert Edge(g, p[k + i], p[k + i + 1]);
    }
  }

  lemma ShownCycleExists(g: Plugins, path: seq<string>)
    requires ShowsCycle(g, path)
    ensures HasCycle(g)
  {
    hide IsWalk;
    var n := |path| - 1;
    var k :| 0 <= k < n && path[k] == path[n];
    WalkFrom(g, path, k);
    assert |path[k..]| >= 2 && path[k..][0] == path[k..][|path[k..]| - 1];
  }

  /** Each listed plugin comes after the registered plugins it depends on. */
  predicate InOrder(g: Plugins, order: seq<string>) {
    forall i, d | 0 <= i < |order| && order[i] in g && d in g[order[i]] && d in g :: d in order[..i]
  }

  lemma TailWalks(g: Plugins, p: seq<string>)
    requires p != [] && IsWalk(g, p)
    ensures IsWalk(g, p[1..])
  {
    forall k | 0 <= k < |p[1..]| - 1 ensures Edge(g, p[1..][k], p[1..][k + 1]) {
      assert Edge(g, p[k + 1], p[k + 1 + 1]);
    }
  }

  lemma {:induction false} WalkDescends(g: Plugins, order: seq<string>, p: seq<string>, i: nat) returns (j: nat)
    requires Distinct(order) && InOrder(g, order)
    requires p != [] && IsWalk(g, p) && i < |order| && order[i] == p[0]
    ensures j < |order| && order[j] == p[|p| - 1] && (|p| > 1 ==> j < i)
    decreases |p|
  {
    if |p| == 1 {
      j := i;
    } else {
      assert Edge(g, p[0], p[1]);
      assert p[1] in order[..i];
      var k :| 0 <= k < i && order[..i][k] == p[1];
      TailWalks(g, p);
      j := WalkDescends(g, order, p[1..], k);
    }
  }

  /** A list in which dependencies come first exists only for graphs without a cycle. */
  lemma OrderExcludesCycle(g: Plugins, order: seq<string>)
    requires Distinct(order) && InOrder(g, order) && forall id | id in g :: id in order
    ensures !HasCycle(g)
  {
    if HasCycle(g) {
      var p :| |p| >= 2 && IsWalk(g, p) && p[0] == p[|p| - 1];
      assert Edge(g, p[0], p[1]);
      var i :| 0 <= i < |order| && order[i] == p[0];
      var j := WalkDescends(g, order, p, i);
      assert false;
    }
  }

  predicate NoCircular(errors: seq<Problem>) {
    forall e | e in errors :: !e.Circular?
  }

  /** The missing-dependency errors, in registration order. */
  function MissingOf(g: Plugins, id: string, deps: seq<string>): seq<Problem> {
    if deps == [] then []
    else
      MissingOf(g, id, deps[..|deps| - 1])
      + if deps[|deps| - 1] in g then [] else [MissingDependency(id, deps[|deps| - 1])]
  }

  function MissingAll(g: Plugins, ids: seq<string>): seq<Problem>
    requires forall id | id in ids :: id in g
  {
    if ids == [] then []
    else MissingAll(g, ids[..|ids| - 1]) + MissingOf(g, ids[|ids| - 1], g[ids[|ids| - 1]])
  }

  /** What holds at every point of the search. */
  ghost predicate SearchOk(
      g: Plugins, visited: set<string>, stack: seq<string>, order: seq<string>, errors: seq<Problem>) {
    && Distinct(order) && (forall id :: id in visited <==> id in order) && visited <= g.Keys
    && Distinct(stack) && (forall id | id in stack :: id in g && id !in visited)
    && IsWalk(g, stack)
    && (forall e | e in errors && e.Circular? :: ShowsCycle(g, e.path))
    && (NoCircular(errors) ==> InOrder(g, order))
  }

  lemma ReportKeeps(
      g: Plugins, visited: set<string>, stack: seq<string>, order: seq<string>, errors: seq<Problem>, id: string)
    requires SearchOk(g, visited, stack, order, errors)
    requires id in stack && Edge(g, stack[|stack| - 1], id)
    ensures SearchOk(g, visited, stack, order, errors + [Circular(stack + [id])])
    ensures !NoCircular(errors + [Circular(stack + [id])])
  {
    var path := stack + [id];
    var after := errors + [Circular(path)];
    assert path[..|path| - 1] == stack;
    assert after[|errors|] == Circular(path);
    assert forall e | e in after :: e in errors || e == Circular(path);
  }

  lemma PushKeeps(
      g: Plugins, visited: set<string>, stack: seq<string>, order: seq<string>, errors: seq<Problem>, id: string)
    requires SearchOk(g, visited, stack, order, errors)
    requires id in g && id !in stack && id !in visited
    requires stack != [] ==> Edge(g, stack[|stack| - 1], id)
    ensures SearchOk(g, visited, stack + [id], order, errors)
  {
    hide InOrder, ShowsCycle;
  }

  predicate DepsVisited(g: Plugins, deps: seq<string>, visited: set<string>) {
    forall d | d in deps && d in g :: d in visited
  }

  lemma PopKeeps(
      g: Plugins, visited: set<string>, stack: seq<string>, order: seq<string>, errors: seq<Problem>, id: string)
    requires SearchOk(g, visited, stack + [id], order, errors)
    requires id in g && (NoCircular(errors) ==> DepsVisited(g, g[id], visited))
    ensures SearchOk(g, visited + {id}, stack, order + [id], errors)
  {
    hide ShowsCycle;
    var s, t := stack + [id], order + [id];
    assert id == s[|stack|] && forall k | 0 <= k < |stack| :: stack[k] == s[k];
    assert t[|order|] == id && t[..|order|] == order;
    assert IsWalk(g, stack) by {
      assert forall k | 0 <= k < |stack| - 1 :: Edge(g, s[k], s[k + 1]) ==> Edge(g, stack[k], stack[k + 1]);
    }
    if NoCircular(errors) {
      forall i, d | 0 <= i < |t| && t[i] in g && d in g[t[i]] && d in g ensures d in t[..i] {
        if i < |order| {
          assert t[..i] == order[..i];
        }
      }
    }
  }

  // ----- What the search takes in, and when

  ghost predicate Reaches(g: Plugins, a: string, b: string) {
    exists p :: p != [] && IsWalk(g, p) && p[0] == a && p[|p| - 1] == b
  }

  /** Registered, and a dependency of one of the given plugins, however indirectly, or one of them. */
  ghost predicate ReachedFrom(g: Plugins, roots: seq<string>, id: string) {
    id in g && exists r | r in roots :: Reaches(g, r, id)
  }

  /** Dependencies of the given plugins are among them or waiting on the stack. */
  predicate ClosedUpTo(g: Plugins, visited: set<string>, stack: seq<string>) {
    forall v, d | v in visited && v in g && d in g[v] && d in g :: d in visited || d in stack
  }

  /** Every registered name in the list is visited or on the stack. */
  predicate DepsSeen(g: Plugins, deps: seq<string>, visited: set<string>, stack: seq<string>) {
    forall d | d in deps && d in g :: d in visited || d in stack
  }

  /** A search from id has only added, and only what id reaches. */
  ghost predicate TookIn(
      g: Plugins, id: string, was: set<string>, before: seq<string>, visited: set<string>, order: seq<string>) {
    was <= visited && before <= order && forall v | v in visited - was :: Reaches(g, id, v)
  }

  lemma TookInMore(
      g: Plugins, id: string, dep: string, was: set<string>, before: seq<string>, mid: set<string>,
      midOrder: seq<string>, visited: set<string>, order: seq<string>)
    requires Edge(g, id, dep) && TookIn(g, id, was, before, mid, midOrder)
    requires TookIn(g, dep, mid, midOrder, visited, order)
    ensures TookIn(g, id, was, before, visited, order)
  {
    hide Reaches;
    forall v | v in visited - was ensures Reaches(g, id, v) {
      if v !in mid { ReachesThrough(g, id, dep, v); }
    }
  }

  lemma TookInSelf(
      g: Plugins, id: string, was: set<string>, before: seq<string>, visited: set<string>, order: seq<string>)
    requires TookIn(g, id, was, before, visited, order)
    ensures TookIn(g, id, was, before, visited + {id}, order + [id])
  {
    ReachesSelf(g, id);
    hide Reaches;
    assert order <= order + [id];
  }

  lemma TookInGrows(
      g: Plugins, id: string, was: set<string>, before: seq<string>, visited: set<string>, order: seq<string>)
    requires TookIn(g, id, was, before, visited, order) || was == visited
    ensures was <= visited
  {
  }

  lemma PopClosed(g: Plugins, visited: set<string>, stack: seq<string>, id: string)
    requires ClosedUpTo(g, visited, stack + [id]) && id in g && DepsSeen(g, g[id], visited, stack + [id])
    ensures ClosedUpTo(g, visited + {id}, stack)
  {
  }

  lemma PushClosed(g: Plugins, visited: set<string>, stack: seq<string>, id: string)
    requires ClosedUpTo(g, visited, stack)
    ensures ClosedUpTo(g, visited, stack + [id])
  {
  }

  lemma SeenMore(
      g: Plugins, deps: seq<string>, i: nat, was: set<string>, visited: set<string>, stack: seq<string>)
    requires i < |deps| && DepsSeen(g, deps[..i], was, stack) && was <= visited
    requires deps[i] in g ==> deps[i] in visited || deps[i] in stack
    ensures DepsSeen(g, deps[..i + 1], visited, stack)
  {
    assert deps[..i + 1] == deps[..i] + [deps[i]];
  }

  lemma VisitedMore(g: Plugins, deps: seq<string>, i: nat, was: set<string>, visited: set<string>)
    requires i < |deps| && DepsVisited(g, deps[..i], was) && was <= visited
    requires deps[i] in g ==> deps[i] in visited
    ensures DepsVisited(g, deps[..i + 1], visited)
  {
    assert deps[..i + 1] == deps[..i] + [deps[i]];
  }

  lemma VisitedOne(g: Plugins, deps: seq<string>, i: nat, visited: set<string>)
    requires i < |deps| && DepsVisited(g, deps, visited) && deps[i] in g
    ensures deps[i] in visited
  {
  }

  /** The order begins with exactly what the roots need. */
  ghost predicate BeginsWith(g: Plugins, order: seq<string>, roots: seq<string>) {
    exists m | 0 <= m <= |order| :: forall id :: id in order[..m] <==> ReachedFrom(g, roots, id)
  }

  lemma ReachesSelf(g: Plugins, id: string)
    ensures Reaches(g, id, id)
  {
    assert IsWalk(g, [id]);
  }

  lemma ReachesThrough(g: Plugins, a: string, b: string, c: string)
    requires Edge(g, a, b) && Reaches(g, b, c)
    ensures Reaches(g, a, c)
  {
    var p :| p != [] && IsWalk(g, p) && p[0] == b && p[|p| - 1] == c;
    var q := [a] + p;
    forall k | 0 <= k < |q| - 1 ensures Edge(g, q[k], q[k + 1]) {
      if k > 0 { assert Edge(g, p[k - 1], p[k - 1 + 1]); }
    }
    assert IsWalk(g, q) && q[0] == a && q[|q| - 1] == c;
  }

  lemma {:induction false} ClosedHoldsWalk(g: Plugins, visited: set<string>, p: seq<string>)
    requires ClosedUpTo(g, visited, []) && p != [] && IsWalk(g, p) && p[0] in visited
    ensures p[|p| - 1] in visited
    decreases |p|
  {
    if |p| > 1 {
      assert Edge(g, p[0], p[0 + 1]);
      TailWalks(g, p);
      ClosedHoldsWalk(g, visited, p[1..]);
    }
  }

  lemma ReachedExactly(g: Plugins, visited: set<string>, order: seq<string>, roots: seq<string>)
    requires ClosedUpTo(g, visited, []) && visited <= g.Keys && (forall id :: id in visited <==> id in order)
    requires forall r | r in roots :: r in visited
    requires forall id | id in visited :: ReachedFrom(g, roots, id)
    ensures BeginsWith(g, order, roots)
  {
    hide IsWalk;
    assert order[..|order|] == order;
    forall id ensures id in order[..|order|] <==> ReachedFrom(g, roots, id) {
      if ReachedFrom(g, roots, id) {
        var r :| r in roots && Reaches(g, r, id);
        var p :| p != [] && IsWalk(g, p) && p[0] == r && p[|p| - 1] == id;
        ClosedHoldsWalk(g, visited, p);
      }
    }
  }

  lemma BeginsWithStays(g: Plugins, order: seq<string>, longer: seq<string>, roots: seq<string>)
    requires BeginsWith(g, order, roots) && order <= longer
    ensures BeginsWith(g, longer, roots)
  {
    var m :| 0 <= m <= |order| && forall id :: id in order[..m] <==> ReachedFrom(g, roots, id);
    assert longer[..m] == order[..m];
  }

  lemma MoreRoots(g: Plugins, roots: seq<string>, r: string, id: string)
    requires ReachedFrom(g, roots, id) || (id in g && Reaches(g, r, id))
    ensures ReachedFrom(g, roots + [r], id)
  {
    if ReachedFrom(g, roots, id) {
      var q :| q in roots && Reaches(g, q, id);
      assert q in roots + [r];
    } else {
      assert r in roots + [r];
    }
  }

  /** Entries from position n on are reports of cycles. */
  predicate CircularFrom(errors: seq<Problem>, n: nat) {
    forall k | n <= k < |errors| :: errors[k].Circular?
  }

  lemma StillNoCircular(was: seq<Problem>, errors: seq<Problem>)
    requires was <= errors
    ensures NoCircular(errors) ==> NoCircular(was)
  {
    assert forall e | e in was :: e in errors;
  }

  lemma DepsEarlier(g: Plugins, ids: seq<string>, i: nat, visited: set<string>)
    requires Distinct(ids) && InOrder(g, ids) && i < |ids| && ids[i] in g
    requires forall id :: id in visited <==> id in ids[..i]
    ensures ids[i] !in visited && DepsVisited(g, g[ids[i]], visited)
  {
  }

  lemma Nothing(g: Plugins, visited: set<string>, order: seq<string>, ids: seq<string>)
    requires order == [] && forall id :: id in visited <==> id in order
    ensures ClosedUpTo(g, visited, []) && visited == {}
    ensures BeginsWith(g, order, ids[..0])
  {
    ReachedExactly(g, {}, [], []);
    assert ids[..0] == [];
  }

  /** After the search from the next root, the order begins with exactly what the roots so far need. */
  lemma RootDone(
      g: Plugins, ids: seq<string>, i: nat, was: set<string>, earlier: seq<string>, visited: set<string>,
      order: seq<string>)
    requires i < |ids| && TookIn(g, ids[i], was, earlier, visited, order)
    requires ClosedUpTo(g, visited, []) && visited <= g.Keys && forall id :: id in visited <==> id in order
    requires forall k | 0 <= k <= i :: ids[k] in visited
    requires forall v | v in was :: ReachedFrom(g, ids[..i], v)
    requires forall n | 0 <= n <= i :: BeginsWith(g, earlier, ids[..n])
    ensures forall v | v in visited :: ReachedFrom(g, ids[..i + 1], v)
    ensures forall n | 0 <= n <= i + 1 :: BeginsWith(g, order, ids[..n])
  {
    hide ReachedFrom, Reaches, BeginsWith, ClosedUpTo;
    assert ids[..i + 1] == ids[..i] + [ids[i]];
    forall v | v in visited ensures ReachedFrom(g, ids[..i + 1], v) {
      MoreRoots(g, ids[..i], ids[i], v);
    }
    forall r | r in ids[..i + 1] ensures r in visited {
      var k :| 0 <= k < |ids[..i + 1]| && ids[..i + 1][k] == r;
      assert ids[k] == r;
    }
    ReachedExactly(g, visited, order, ids[..i + 1]);
    forall n | 0 <= n <= i ensures BeginsWith(g, order, ids[..n]) {
      BeginsWithStays(g, earlier, order, ids[..n]);
    }
  }

  /** The state of one run of validateAndTopologicalSort. */
  class Sorter {
    const plugins: Plugins
    var visited: set<string>
    var stack: seq<string>
    var order: seq<string>
    var errors: seq<Problem>

    ghost predicate Valid()
      reads this
    {
      SearchOk(plugins, visited, stack, order, errors)
    }

    constructor (plugins: Plugins, errors: seq<Problem>)
      requires NoCircular(errors)
      ensures Valid() && this.plugins == plugins && stack == [] && order == [] && this.errors == errors
    {
      this.plugins := plugins;
      this.errors := errors;
      visited, stack, order := {}, [], [];
    }

    method Dfs(id: string)
      requires Valid() && id in plugins
      requires stack != [] ==> Edge(plugins, stack[|stack| - 1], id)
      requires ClosedUpTo(plugins, visited, stack)
      modifies this
      ensures Valid() && stack == old(stack)
      ensures ClosedUpTo(plugins, visited, stack) && TookIn(plugins, id, old(visited), old(order), visited, order)
      ensures old(errors) <= errors
      ensures NoCircular(errors) ==> id in visited
      ensures id in visited || id in stack
      ensures CircularFrom(errors, |old(errors)|)
      ensures id in old(visited) ==> order == old(order) && errors == old(errors) && visited == old(visited)
      ensures id !in old(visited) && id !in stack && DepsVisited(plugins, plugins[id], old(visited)) ==>
                order == old(order) + [id] && errors == old(errors)
      decreases plugins.Keys - (set x | x in stack), 0
    {
      hide InOrder, ShowsCycle, IsWalk, Reaches, ClosedUpTo, DepsVisited, DepsSeen;
      if id in stack {
        ReportKeeps(plugins, visited, stack, order, errors, id);
        errors := errors + [Circular(stack + [id])];
        return;
      }
      if id in visited {
        return;
      }
      PushKeeps(plugins, visited, stack, order, errors, id);
      PushClosed(plugins, visited, stack, id);
      ghost var before := stack;
      assert id in plugins.Keys - (set x | x in before);
      stack := stack + [id];
      var deps := plugins[id];
      hide SearchOk;
      DfsDeps(id, deps);
      PopKeeps(plugins, visited, before, order, errors, id);
      PopClosed(plugins, visited, before, id);
      TookInSelf(plugins, id, old(visited), old(order), visited, order);
      hide TookIn;
      stack := stack[..|stack| - 1];
      visited := visited + {id};
      order := order + [id];
      assert stack == before;
    }

    /** The loop over the dependencies of the plugin on top of the stack. */
    method DfsDeps(id: string, deps: seq<string>)
      requires Valid() && id in plugins && deps == plugins[id] && stack != [] && stack[|stack| - 1] == id
      requires ClosedUpTo(plugins, visited, stack)
      modifies this
      ensures Valid() && stack == old(stack)
      ensures ClosedUpTo(plugins, visited, stack) && TookIn(plugins, id, old(visited), old(order), visited, order)
      ensures old(errors) <= errors && CircularFrom(errors, |old(errors)|)
      ensures NoCircular(errors) ==> DepsVisited(plugins, deps, visited)
      ensures DepsSeen(plugins, deps, visited, stack)
      ensures DepsVisited(plugins, deps, old(visited)) ==>
                order == old(order) && errors == old(errors) && visited == old(visited)
      decreases plugins.Keys - (set x | x in stack), 1
    {
      hide SearchOk, InOrder, ShowsCycle, IsWalk, Reaches, ClosedUpTo;
      ghost var simple := DepsVisited(plugins, deps, visited);
      for i := 0 to |deps|
        invariant Valid() && stack == old(stack)
        invariant ClosedUpTo(plugins, visited, stack) && TookIn(plugins, id, old(visited), old(order), visited, order)
        invariant old(errors) <= errors && CircularFrom(errors, |old(errors)|)
        invariant NoCircular(errors) ==> DepsVisited(plugins, deps[..i], visited)
        invariant DepsSeen(plugins, deps[..i], visited, stack)
        invariant simple ==> order == old(order) && errors == old(errors) && visited == old(visited)
      {
        hide DepsVisited, DepsSeen, TookIn;
        ghost var was, seen, mid := errors, visited, order;
        if deps[i] in plugins {
          if simple { VisitedOne(plugins, deps, i, visited); }
          Dfs(deps[i]);
          TookInMore(plugins, id, deps[i], old(visited), old(order), seen, mid, visited, order);
          StillNoCircular(was, errors);
        }
        assert seen <= visited by { TookInGrows(plugins, deps[i], seen, mid, visited, order); }
        SeenMore(plugins, deps, i, seen, visited, stack);
        if NoCircular(errors) { VisitedMore(plugins, deps, i, seen, visited); }
      }
      assert deps[..|deps|] == deps;
    }

    /** The search from every registered plugin in turn. */
    method DfsAll(ids: seq<string>)
      requires Valid() && stack == [] && order == [] && Distinct(ids) && forall id | id in ids :: id in plugins
      modifies this
      ensures Valid() && stack == [] && old(errors) <= errors && CircularFrom(errors, |old(errors)|)
      ensures forall k | 0 <= k < |ids| :: ids[k] in visited
      ensures InOrder(plugins, ids) ==> order == ids
      ensures forall n | 0 <= n <= |ids| :: BeginsWith(plugins, order, ids[..n])
    {
      hide InOrder, ShowsCycle, IsWalk, Reaches, ReachedFrom, BeginsWith, ClosedUpTo;
      ghost var inOrder := InOrder(plugins, ids);
      Nothing(plugins, visited, order, ids);
      for i := 0 to |ids|
        invariant Valid() && stack == [] && old(errors) <= errors && CircularFrom(errors, |old(errors)|)
        invariant ClosedUpTo(plugins, visited, [])
        invariant forall k | 0 <= k < i :: ids[k] in visited
        invariant forall v | v in visited :: ReachedFrom(plugins, ids[..i], v)
        invariant forall n | 0 <= n <= i :: BeginsWith(plugins, order, ids[..n])
        invariant inOrder ==> order == ids[..i]
      {
        ghost var was, earlier := visited, order;
        if inOrder { DepsEarlier(plugins, ids, i, visited); }
        hide DepsVisited, TookIn;
        Dfs(ids[i]);
        assert was <= visited by { TookInGrows(plugins, ids[i], was, earlier, visited, order); }
        RootDone(plugins, ids, i, was, earlier, visited, order);
      }
      assert ids[..|ids|] == ids;
    }
  }

  method CheckMissing(plugins: Plugins, ids: seq<string>) returns (errors: seq<Problem>)
    requires forall id | id in ids :: id in plugins
    ensures errors == MissingAll(plugins, ids) && NoCircular(errors)
  {
    errors := [];
    for i := 0 to |ids|
      invariant errors == MissingAll(plugins, ids[..i]) && NoCircular(errors)
    {
      var deps := plugins[ids[i]];
      ghost var before := errors;
      for j := 0 to |deps|
        invariant errors == before + MissingOf(plugins, ids[i], deps[..j]) && NoCircular(errors)
      {
        if deps[j] !in plugins {
          errors := errors + [MissingDependency(ids[i], deps[j])];
        }
        assert deps[..j + 1][..j] == deps[..j];
      }
      assert deps[..|deps|] == deps;
      assert ids[..i + 1][..i] == ids[..i];
    }
    assert ids[..|ids|] == ids;
  }

  /** validateAndTopologicalSort; ids lists the registered plugins in registration order. */
  method ValidateAndTopologicalSort(plugins: Plugins, ids: seq<string>)
    returns (order: seq<string>, errors: seq<Problem>)
    requires Distinct(ids) && forall id :: id in ids <==> id in plugins
    ensures Distinct(order) && forall id :: id in order <==> id in plugins
    ensures MissingAll(plugins, ids) <= errors
    ensures CircularFrom(errors, |MissingAll(plugins, ids)|)
    ensures forall e | e in errors && e.Circular? :: ShowsCycle(plugins, e.path)
    ensures NoCircular(errors) <==> !HasCycle(plugins)
    ensures NoCircular(errors) ==> InOrder(plugins, order)
    ensures InOrder(plugins, ids) ==> order == ids
    ensures forall n | 0 <= n <= |ids| :: BeginsWith(plugins, order, ids[..n])
    ensures errors == [] ==> forall i, d | 0 <= i < |order| && d in plugins[order[i]] :: d in order[..i]
  {
    hide InOrder, ShowsCycle, IsWalk, MissingAll, BeginsWith, MissingOf;
    var missing := CheckMissing(plugins, ids);
    var sorter := new Sorter(plugins, missing);
    sorter.DfsAll(ids);
    order, errors := sorter.order, sorter.errors;
    forall id | id in plugins ensures id in order {
      var k :| 0 <= k < |ids| && ids[k] == id;
    }
    assert NoCircular(errors) <==> !HasCycle(plugins) by {
      CyclesReported(plugins, sorter.visited, order, errors);
    }
    if errors == [] {
      NothingMissing(plugins, ids);
      assert InOrder(plugins, order);
      FollowsDeps(plugins, order);
    }
  }

  lemma CyclesReported(g: Plugins, visited: set<string>, order: seq<string>, errors: seq<Problem>)
    requires SearchOk(g, visited, [], order, errors) && forall id | id in g :: id in order
    ensures NoCircular(errors) <==> !HasCycle(g)
  {
    if NoCircular(errors) {
      OrderExcludesCycle(g, order);
    } else {
      var e :| e in errors && e.Circular?;
      ShownCycleExists(g, e.path);
    }
  }

  lemma FollowsDeps(g: Plugins, order: seq<string>)
    requires InOrder(g, order) && forall id | id in order :: id in g
    requires forall id, d | id in g && d in g[id] :: d in g
    ensures forall i, d | 0 <= i < |order| && d in g[order[i]] :: d in order[..i]
  {
    forall i, d | 0 <= i < |order| && d in g[order[i]] ensures d in order[..i] {
      assert order[i] in order;
    }
  }

  lemma {:induction false} NothingMissingOf(g: Plugins, id: string, deps: seq<string>)
    requires MissingOf(g, id, deps) == []
    ensures forall d | d in deps :: d in g
  {
    if deps != [] {
      NothingMissingOf(g, id, deps[..|deps| - 1]);
      assert deps == deps[..|deps| - 1] + [deps[|deps| - 1]];
    }
  }

  lemma {:induction false} NothingMissing(g: Plugins, ids: seq<string>)
    requires forall id | id in ids :: id in g
    requires MissingAll(g, ids) == []
    ensures forall id, d | id in ids && d in g[id] :: d in g
  {
    if ids != [] {
      var n := |ids| - 1;
      NothingMissing(g, ids[..n]);
      NothingMissingOf(g, ids[n], g[ids[n]]);
      assert ids == ids[..n] + [ids[n]];
    }
  }

  lemma {:induction false} MissingOfExactly(g: Plugins, id: string, deps: seq<string>, e: Problem)
    ensures e in MissingOf(g, id, deps) <==> exists d | d in deps :: d !in g && e == MissingDependency(id, d)
  {
    if deps != [] {
      var n := |deps| - 1;
      MissingOfExactly(g, id, deps[..n], e);
      assert deps == deps[..n] + [deps[n]];
    }
  }

  /** The missing-dependency errors are exactly the declared names nobody registered, with who declares them. */
  lemma {:induction false} MissingExactly(g: Plugins, ids: seq<string>, e: Problem)
    requires forall id | id in ids :: id in g
    ensures e in MissingAll(g, ids)
       <==> e.MissingDependency? && e.id in ids && e.dep in g[e.id] && e.dep !in g
  {
    hide MissingOf;
    if ids != [] {
      var n := |ids| - 1;
      MissingExactly(g, ids[..n], e);
      MissingOfExactly(g, ids[n], g[ids[n]], e);
      assert ids == ids[..n] + [ids[n]];
    }
  }

  // ----- Does one plugin depend on another?

  function Declared(g: Plugins, id: string): seq<string> {
    if id in g then g[id] else []
  }

  /** A chain of declared dependencies; the last name need not be registered. */
  predicate IsChain(g: Plugins, p: seq<string>) {
    forall k | 0 <= k < |p| - 1 :: p[k + 1] in Declared(g, p[k])
  }

  ghost predicate DependsOn(g: Plugins, id: string, target: string) {
    exists p :: |p| >= 2 && IsChain(g, p) && p[0] == id && p[|p| - 1] == target
  }

  lemma DependsDirectly(g: Plugins, id: string, target: string)
    requires target in Declared(g, id)
    ensures DependsOn(g, id, target)
  {
    assert IsChain(g, [id, target]);
  }

  lemma DependsThrough(g: Plugins, id: string, dep: string, target: string)
    requires dep in Declared(g, id) && DependsOn(g, dep, target)
    ensures DependsOn(g, id, target)
  {
    var p :| |p| >= 2 && IsChain(g, p) && p[0] == dep && p[|p| - 1] == target;
    assert IsChain(g, [id] + p);
  }

  ghost function Names(g: Plugins): set<string> {
    g.Keys + set id, d | id in g && d in g[id] :: d
  }

  /** Names searched in vain: none declares the target, and everything they declare was searched too. */
  predicate SearchedInVain(g: Plugins, ids: set<string>, seen: set<string>, target: string) {
    forall v, d | v in ids && d in Declared(g, v) :: d != target && d in seen
  }

  lemma VainAt(g: Plugins, ids: set<string>, seen: set<string>, target: string, v: string, d: string)
    requires SearchedInVain(g, ids, seen, target) && v in ids && d in Declared(g, v)
    ensures d != target && d in seen
  {
  }

  lemma VainUnion(g: Plugins, a: set<string>, b: set<string>, seenA: set<string>, seenB: set<string>, target: string)
    requires SearchedInVain(g, a, seenA, target) && SearchedInVain(g, b, seenB, target) && seenA <= seenB
    ensures SearchedInVain(g, a + b, seenB, target)
  {
    forall v, d | v in a + b && d in Declared(g, v) ensures d != target && d in seenB {
      if v in a {
        VainAt(g, a, seenA, target, v, d);
      } else {
        VainAt(g, b, seenB, target, v, d);
      }
    }
  }

  lemma {:induction false} VainMeansNo(g: Plugins, seen: set<string>, target: string, p: seq<string>)
    requires SearchedInVain(g, seen, seen, target) && |p| >= 2 && IsChain(g, p) && p[0] in seen
    ensures p[|p| - 1] != target
    decreases |p|
  {
    assert p[0 + 1] in Declared(g, p[0]);
    assert p[1] != target && p[1] in seen;
    if |p| > 2 {
      var q := p[1..];
      forall k | 0 <= k < |q| - 1 ensures q[k + 1] in Declared(g, q[k]) {
        assert p[k + 1 + 1] in Declared(g, p[k + 1]);
      }
      VainMeansNo(g, seen, target, q);
      assert q[|q| - 1] == p[|p| - 1];
    }
  }

  method SearchDependency(g: Plugins, id: string, target: string, seen: set<string>, ghost names: set<string>)
    returns (found: bool, all: set<string>)
    requires Names(g) <= names && id in names && seen <= names
    ensures seen <= all <= names
    ensures found ==> DependsOn(g, id, target)
    ensures !found ==> id in all && SearchedInVain(g, all - seen, all, target)
    decreases names - seen
  {
    if id in seen {
      return false, seen;
    }
    all := seen + {id};
    var deps := Declared(g, id);
    for i := 0 to |deps|
      invariant seen + {id} <= all <= names
      invariant SearchedInVain(g, all - seen - {id}, all, target)
      invariant forall k | 0 <= k < i :: deps[k] != target && deps[k] in all
    {
      if deps[i] == target {
        DependsDirectly(g, id, target);
        return true, all;
      }
      assert deps[i] in g[id];
      assert id in names - seen && id !in names - all;
      ghost var before := all;
      found, all := SearchDependency(g, deps[i], target, all, names);
      if found {
        DependsThrough(g, id, deps[i], target);
        return;
      }
      VainUnion(g, before - seen - {id}, all - before, before, all, target);
      assert all - seen - {id} == (before - seen - {id}) + (all - before);
    }
    found := false;
  }

  /** pluginDependsOn: whether a chain of declared dependencies leads from one plugin to another. */
  method PluginDependsOn(g: Plugins, id: string, target: string) returns (found: bool)
    ensures found <==> DependsOn(g, id, target)
  {
    var all;
    found, all := SearchDependency(g, id, target, {}, Names(g) + {id});
    if !found && DependsOn(g, id, target) {
      var p :| |p| >= 2 && IsChain(g, p) && p[0] == id && p[|p| - 1] == target;
      assert all - {} == all;
      VainMeansNo(g, all, target, p);
      assert false;
    }
  }

  /** Where the order has no circular error, a plugin comes after every registered plugin it depends on, however
      indirectly. */
  lemma OrderRespectsDependsOn(g: Plugins, order: seq<string>, i: nat, j: nat)
    requires Distinct(order) && InOrder(g, order) && (forall id | id in order :: id in g)
    requires i < |order| && j < |order| && DependsOn(g, order[i], order[j])
    ensures j < i
  {
    var p :| |p| >= 2 && IsChain(g, p) && p[0] == order[i] && p[|p| - 1] == order[j];
    forall k | 0 <= k < |p| - 1 ensures Edge(g, p[k], p[k + 1]) {
      assert p[k + 1] in Declared(g, p[k]);
      if k + 1 < |p| - 1 { assert p[k + 2] in Declared(g, p[k + 1]); }
    }
    var m := WalkDescends(g, order, p, i);
    assert order[m] == order[j];
  }
}
