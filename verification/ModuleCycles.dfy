/**
 Why the sort of modules fails: with distinct names and no repeated dependency, either a module
 names one that does not exist, or modules depend on one another in a circle.
 */
module ModuleCycles {
  import opened ModuleSort

  predicate Mentions(m: Module, d: string) {
    exists k :: 0 <= k < |m.deps| && m.deps[k] == d
  }

  predicate AllNamed(modules: seq<Module>) {
    forall i, k | 0 <= i < |modules| && 0 <= k < |modules[i].deps| :: Named(modules, modules[i].deps[k])
  }

  /** A module of the one name depends on the other name. */
  predicate DependsOn(modules: seq<Module>, a: string, b: string) {
    exists i :: 0 <= i < |modules| && modules[i].name == a && Mentions(modules[i], b)
  }

  predicate Walk(modules: seq<Module>, p: seq<string>) {
    forall t | 0 <= t < |p| - 1 :: DependsOn(modules, p[t], p[t + 1])
  }

  /** Names each of which depends on the next, and the last is the first again */
  predicate Cycle(modules: seq<Module>, p: seq<string>) {
    |p| >= 2 && p[0] == p[|p| - 1] && Walk(modules, p)
  }

  ghost predicate Cyclic(modules: seq<Module>) {
    exists p :: Cycle(modules, p)
  }

  // ----- An order leaves no cause ---------------------------------------------------------

  lemma {:induction false} SamePlace(modules: seq<Module>, i: nat, j: nat)
    requires DistinctNames(modules) && i < |modules| && j < |modules| && modules[i].name == modules[j].name
    ensures i == j
  {
    if i < j {
      TwoOfAName(modules, i, j);
    } else if j < i {
      TwoOfAName(modules, j, i);
    }
  }

  lemma {:induction false} TwoOfAName(modules: seq<Module>, i: nat, j: nat)
    requires i < j < |modules| && modules[i].name == modules[j].name
    ensures Names(modules)[modules[i].name] >= 2
  {
    NamesPrefix(modules, j + 1);
    assert modules[..j + 1] == modules[..j] + [modules[j]];
    NamesAppend(modules[..j], modules[j]);
    assert modules[..j][i].name == modules[i].name;
    NamedCount(modules[..j], modules[i].name);
  }

  /** In an order that puts dependencies first, a walk leads towards the front. */
  lemma {:induction false} WalkDescends(order: seq<Module>, p: seq<string>, t: nat, from: nat) returns (j: nat)
    requires DistinctNames(order) && AfterDeps(order) && Walk(order, p) && t < |p|
    requires from < |order| && order[from].name == p[0]
    ensures j < |order| && order[j].name == p[t] && j + t <= from
  {
    if t == 0 {
      j := from;
    } else {
      var i := WalkDescends(order, p, t - 1, from);
      assert DependsOn(order, p[t - 1], p[t - 1 + 1]);
      var x :| 0 <= x < |order| && order[x].name == p[t - 1] && Mentions(order[x], p[t]);
      SamePlace(order, i, x);
      var k :| 0 <= k < |order[x].deps| && order[x].deps[k] == p[t];
      assert Named(order[..x], order[x].deps[k]);
      j :| 0 <= j < |order[..x]| && order[..x][j].name == p[t];
    }
  }

  lemma {:induction false} OrderHasNoCycle(order: seq<Module>, p: seq<string>)
    requires DistinctNames(order) && AfterDeps(order)
    ensures !Cycle(order, p)
  {
    if Cycle(order, p) {
      assert DependsOn(order, p[0], p[0 + 1]);
      var from :| 0 <= from < |order| && order[from].name == p[0] && Mentions(order[from], p[1]);
      var j := WalkDescends(order, p, |p| - 1, from);
      SamePlace(order, from, j);
    }
  }

  lemma {:induction false} OrderNamesAll(order: seq<Module>)
    requires AfterDeps(order)
    ensures AllNamed(order)
  {
    forall i, k | 0 <= i < |order| && 0 <= k < |order[i].deps| ensures Named(order, order[i].deps[k]) {
      assert Named(order[..i], order[i].deps[k]);
      var j :| 0 <= j < |order[..i]| && order[..i][j].name == order[i].deps[k];
      assert order[j].name == order[i].deps[k];
    }
  }

  /** Neither the existence of a name nor a dependency has to do with the order of the list. */
  lemma {:induction false} SameCauses(a: seq<Module>, b: seq<Module>)
    requires Permuted(a, b)
    ensures AllNamed(a) ==> AllNamed(b)
    ensures forall p :: Cycle(b, p) ==> Cycle(a, p)
  {
    forall i | 0 <= i < |b| ensures b[i] in a {
      assert b[i] in multiset(a);
    }
    if AllNamed(a) {
      forall i, k | 0 <= i < |b| && 0 <= k < |b[i].deps| ensures Named(b, b[i].deps[k]) {
        var x :| 0 <= x < |a| && a[x] == b[i];
        assert Named(a, a[x].deps[k]);
        SameNamed(a, b, b[i].deps[k]);
      }
    }
    forall p | Cycle(b, p) ensures Cycle(a, p) {
      forall t | 0 <= t < |p| - 1 ensures DependsOn(a, p[t], p[t + 1]) {
        assert DependsOn(b, p[t], p[t + 1]);
        var i :| 0 <= i < |b| && b[i].name == p[t] && Mentions(b[i], p[t + 1]);
        var x :| 0 <= x < |a| && a[x] == b[i];
        assert a[x].name == p[t] && Mentions(a[x], p[t + 1]);
      }
    }
  }

  lemma {:induction false} SameNamed(a: seq<Module>, b: seq<Module>, d: string)
    requires Permuted(a, b) && Named(a, d)
    ensures Named(b, d)
  {
    var j :| 0 <= j < |a| && a[j].name == d;
    assert a[j] in multiset(b);
    var x :| 0 <= x < |b| && b[x] == a[j];
    assert b[x].name == d;
  }

  // ----- Being stuck has a cause ----------------------------------------------------------

  /** The first pass over the modules */
  lemma {:induction false} Begin(modules: seq<Module>) returns (start: seq<Module>, dep: seq<Waiting>)
    ensures Progress(modules, [], start, dep)
  {
    if modules == [] {
      start, dep := [], [];
    } else {
      var last := |modules| - 1;
      var m := modules[last];
      start, dep := Begin(modules[..last]);
      assert modules == modules[..last] + [m];
      if m.deps == [] {
        SplitStart(modules[..last], start, dep, m);
        start := start + [m];
      } else {
        SplitDep(modules[..last], start, dep, m);
        dep := dep + [Waiting(m, m.deps)];
      }
    }
  }

  /** The rounds come to an end. */
  lemma {:induction false} Finish(modules: seq<Module>, sorted: seq<Module>, start: seq<Module>, dep: seq<Waiting>)
    returns (sorted': seq<Module>, dep': seq<Waiting>)
    requires Progress(modules, sorted, start, dep)
    ensures Progress(modules, sorted', [], dep')
    decreases |start| + |dep|
  {
    hide Progress;
    if start == [] {
      sorted', dep' := sorted, dep;
    } else {
      var r := Resolved(dep, start[0].name);
      RoundKeeps(modules, sorted, start, dep);
      RoundShrinks(dep, start[0].name);
      hide Resolved, Kept, Freed, Modules;
      sorted', dep' := Finish(modules, sorted + [start[0]], start[1..] + Modules(Freed(r)), Kept(r));
    }
  }

  /** A module that is left waiting is one of the modules. */
  lemma {:induction false} WaitingIsModule(modules: seq<Module>, sorted: seq<Module>, dep: seq<Waiting>, i: nat)
    returns (x: nat)
    requires Progress(modules, sorted, [], dep) && i < |dep|
    ensures x < |modules| && modules[x] == dep[i].module_
  {
    ModulesAre(dep);
    SortedOrWaiting(modules, sorted, dep, dep[i].module_);
    hide Progress, Modules;
    assert Modules(dep)[i] in multiset(Modules(dep));
    assert dep[i].module_ in multiset(modules);
    x :| 0 <= x < |modules| && modules[x] == dep[i].module_;
  }

  /** A module that no sorted one shares its name with is left waiting. */
  lemma {:induction false} UnsortedIsWaiting(modules: seq<Module>, sorted: seq<Module>, dep: seq<Waiting>, y: nat)
    returns (j: nat)
    requires Progress(modules, sorted, [], dep) && y < |modules| && Names(sorted)[modules[y].name] == 0
    ensures j < |dep| && dep[j].module_ == modules[y]
  {
    ModulesAre(dep);
    NamedCount(sorted, modules[y].name);
    SortedOrWaiting(modules, sorted, dep, modules[y]);
    hide Progress, Modules, Names;
    assert modules[y] in multiset(modules);
    assert forall z | 0 <= z < |sorted| :: sorted[z].name != modules[y].name;
    assert modules[y] !in multiset(sorted);
    assert modules[y] in multiset(Modules(dep));
    j :| 0 <= j < |Modules(dep)| && Modules(dep)[j] == modules[y];
  }

  /** What a waiting module names and no sorted one provides */
  lemma {:induction false} Lacking(modules: seq<Module>, sorted: seq<Module>, dep: seq<Waiting>, i: nat)
    returns (d: string)
    requires Progress(modules, sorted, [], dep) && i < |dep| && NoneRepeats(modules)
    ensures Mentions(dep[i].module_, d) && Names(sorted)[d] == 0
  {
    assert LeftOver(dep[i], Names(sorted));
    var x := WaitingIsModule(modules, sorted, dep, i);
    hide Progress, Names;
    var m := dep[i].module_;
    d := dep[i].left[0];
    assert d in multiset(dep[i].left);
    assert (multiset(m.deps) - Names(sorted))[d] > 0;
    assert d in multiset(m.deps);
    var k :| 0 <= k < |m.deps| && m.deps[k] == d;
    OnceEach(modules[x].deps, d);
  }

  /** A module that is left waiting names another that is left waiting, if it names only modules that exist. */
  lemma {:induction false} NextStuck(modules: seq<Module>, sorted: seq<Module>, dep: seq<Waiting>, i: nat)
    returns (j: nat)
    requires Progress(modules, sorted, [], dep) && i < |dep|
    requires NoneRepeats(modules) && AllNamed(modules)
    ensures j < |dep| && Mentions(dep[i].module_, dep[j].module_.name)
  {
    hide Progress, NoneRepeats, Names;
    var m := dep[i].module_;
    var d := Lacking(modules, sorted, dep, i);
    var x := WaitingIsModule(modules, sorted, dep, i);
    var k :| 0 <= k < |m.deps| && m.deps[k] == d;
    assert Named(modules, modules[x].deps[k]);
    var y :| 0 <= y < |modules| && modules[y].name == d;
    j := UnsortedIsWaiting(modules, sorted, dep, y);
  }

  predicate Chained(dep: seq<Waiting>, q: seq<nat>) {
    && (forall t | 0 <= t < |q| :: q[t] < |dep|)
    && forall t | 0 <= t < |q| - 1 :: Mentions(dep[q[t]].module_, dep[q[t + 1]].module_.name)
  }

  /** From one waiting module to the next, as far as one likes */
  lemma {:induction false} LongWalk(modules: seq<Module>, sorted: seq<Module>, dep: seq<Waiting>, n: nat)
    returns (q: seq<nat>)
    requires Progress(modules, sorted, [], dep) && dep != []
    requires NoneRepeats(modules) && AllNamed(modules)
    ensures |q| == n + 1 && Chained(dep, q)
  {
    hide Progress, AllNamed, NoneRepeats;
    if n == 0 {
      q := [0];
    } else {
      var p := LongWalk(modules, sorted, dep, n - 1);
      var j := NextStuck(modules, sorted, dep, p[n - 1]);
      q := p + [j];
    }
  }

  /** More numbers than there are values below the bound are not all different. */
  lemma {:induction false} Pigeonhole(q: seq<nat>, n: nat) returns (a: nat, b: nat)
    requires |q| > n && forall t | 0 <= t < |q| :: q[t] < n
    ensures a < b < |q| && q[a] == q[b]
    decreases n
  {
    assert q[0] < n;
    if x :| 0 <= x < |q| && q[x] == n - 1 {
      if y :| 0 <= y < |q| && y != x && q[y] == n - 1 {
        a, b := if x < y then x else y, if x < y then y else x;
      } else {
        var rest := q[..x] + q[x + 1..];
        forall t | 0 <= t < |rest| ensures rest[t] < n - 1 {
          var u := if t < x then t else t + 1;
          assert rest[t] == q[u];
        }
        a, b := Pigeonhole(rest, n - 1);
        a, b := if a < x then a else a + 1, if b < x then b else b + 1;
      }
    } else {
      forall t | 0 <= t < |q| ensures q[t] < n - 1 {
      }
      a, b := Pigeonhole(q, n - 1);
    }
  }

  lemma {:induction false} ChainDepends(modules: seq<Module>, sorted: seq<Module>, dep: seq<Waiting>, i: nat, j: nat)
    requires Progress(modules, sorted, [], dep) && i < |dep| && j < |dep|
    requires Mentions(dep[i].module_, dep[j].module_.name)
    ensures DependsOn(modules, dep[i].module_.name, dep[j].module_.name)
  {
    hide Progress;
    var x := WaitingIsModule(modules, sorted, dep, i);
    assert modules[x].name == dep[i].module_.name && Mentions(modules[x], dep[j].module_.name);
  }

  function NamesAlong(dep: seq<Waiting>, q: seq<nat>): (p: seq<string>)
    requires forall t | 0 <= t < |q| :: q[t] < |dep|
    ensures |p| == |q| && forall t | 0 <= t < |q| :: p[t] == dep[q[t]].module_.name
  {
    seq(|q|, t requires 0 <= t < |q| => dep[q[t]].module_.name)
  }

  lemma {:induction false} StuckInACircle(modules: seq<Module>, sorted: seq<Module>, dep: seq<Waiting>)
    returns (p: seq<string>)
    requires Progress(modules, sorted, [], dep) && dep != []
    requires NoneRepeats(modules) && AllNamed(modules)
    ensures Cycle(modules, p)
  {
    hide AllNamed, NoneRepeats, Progress, Mentions, DependsOn;
    var q := LongWalk(modules, sorted, dep, |dep|);
    var a, b := Pigeonhole(q, |dep|);
    var circle := q[a..b + 1];
    assert forall t | 0 <= t < |circle| :: circle[t] == q[a + t];
    p := NamesAlong(dep, circle);
    forall t | 0 <= t < |p| - 1 ensures DependsOn(modules, p[t], p[t + 1]) {
      var u := a + t;
      assert Mentions(dep[q[u]].module_, dep[q[u + 1]].module_.name);
      ChainDepends(modules, sorted, dep, q[u], q[u + 1]);
    }
  }

  // ----- Together -------------------------------------------------------------------------

  lemma {:induction false} OrderMeansNoCause(modules: seq<Module>, order: seq<Module>)
    requires DistinctNames(modules) && Sortable(modules, order)
    ensures AllNamed(modules) && !Cyclic(modules)
  {
    NamesMonotonic(order, modules);
    OrderIsRight(order);
    OrderNamesAll(order);
    assert Permuted(order, modules);
    SameCauses(order, modules);
    forall p ensures !Cycle(modules, p) {
      OrderHasNoCycle(order, p);
    }
  }

  /**
   With distinct names and no repeated dependency, the sort fails exactly when some module names
   one that does not exist or modules depend on one another in a circle.
   */
  lemma {:induction false} FailureHasACause(modules: seq<Module>)
    requires DistinctNames(modules) && NoneRepeats(modules)
    ensures (exists order :: Sortable(modules, order)) <==> AllNamed(modules) && !Cyclic(modules)
  {
    if order :| Sortable(modules, order) {
      OrderMeansNoCause(modules, order);
    } else if AllNamed(modules) {
      var start, dep := Begin(modules);
      var sorted, stuck := Finish(modules, [], start, dep);
      if stuck == [] {
        NothingWaiting(modules, sorted);
      } else {
        var p := StuckInACircle(modules, sorted, stuck);
      }
    }
  }
}
