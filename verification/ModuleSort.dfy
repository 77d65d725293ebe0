/**
 The order in which modules are processed (scripts/zephyr_module.py): a topological sort over
 three lists. A module's `deps` name other modules, possibly more than once.
 */
module ModuleSort {

  datatype Module = Module(project: string, name: string, deps: seq<string>)

  /** A module of `dep_modules` with what is left of its `depends` list. */
  datatype Waiting = Waiting(module_: Module, left: seq<string>)

  function Names(modules: seq<Module>): multiset<string> {
    if modules == [] then multiset{} else multiset{modules[0].name} + Names(modules[1..])
  }

  /** Each module comes after as many modules of each name as it names that name. */
  predicate ValidOrder(order: seq<Module>) {
    forall i | 0 <= i < |order| :: multiset(order[i].deps) <= Names(order[..i])
  }

  predicate Sortable(modules: seq<Module>, order: seq<Module>) {
    multiset(order) == multiset(modules) && ValidOrder(order)
  }

  // ----- list.remove ----------------------------------------------------------------------

  /** The first occurrence goes; a list without one stays as it is. */
  function WithoutFirst<T(==)>(s: seq<T>, x: T): seq<T> {
    if s == [] then [] else if s[0] == x then s[1..] else [s[0]] + WithoutFirst(s[1..], x)
  }

  lemma {:induction false} WithoutFirstBag<T>(s: seq<T>, x: T)
    ensures multiset(WithoutFirst(s, x)) == multiset(s) - multiset{x}
    ensures x !in s ==> WithoutFirst(s, x) == s
  {
    if s != [] {
      assert s == [s[0]] + s[1..];
      if s[0] != x {
        WithoutFirstBag(s[1..], x);
      }
    }
  }

  method RemoveFirst<T(==)>(s: seq<T>, x: T) returns (r: seq<T>)
    ensures r == WithoutFirst(s, x)
  {
    var i := 0;
    while i < |s| && s[i] != x
      invariant 0 <= i <= |s|
      invariant s[..i] + WithoutFirst(s[i..], x) == WithoutFirst(s, x)
    {
      assert s[i..][1..] == s[i + 1..];
      assert s[..i] + [s[i]] == s[..i + 1];
      i := i + 1;
    }
    if i < |s| {
      assert s[i..][1..] == s[i + 1..];
      r := s[..i] + s[i + 1..];
    } else {
      r := s;
    }
  }

  // ----- One round ------------------------------------------------------------------------

  /** Every module that names `name` loses one occurrence of it. */
  function Resolved(dep: seq<Waiting>, name: string): (r: seq<Waiting>)
    ensures |r| == |dep|
    ensures forall i | 0 <= i < |dep| :: r[i] == Waiting(dep[i].module_, WithoutFirst(dep[i].left, name))
  {
    seq(|dep|, i requires 0 <= i < |dep| => Waiting(dep[i].module_, WithoutFirst(dep[i].left, name)))
  }

  function Kept(dep: seq<Waiting>): seq<Waiting> {
    if dep == [] then [] else (if dep[0].left == [] then [] else [dep[0]]) + Kept(dep[1..])
  }

  function Freed(dep: seq<Waiting>): seq<Waiting> {
    if dep == [] then [] else (if dep[0].left == [] then [dep[0]] else []) + Freed(dep[1..])
  }

  function Modules(dep: seq<Waiting>): seq<Module> {
    if dep == [] then [] else [dep[0].module_] + Modules(dep[1..])
  }

  /** Removing the freed modules one by one leaves the others as they were. */
  lemma {:induction false} RemoveFreed(dep: seq<Waiting>)
    requires Freed(dep) != []
    ensures Freed(WithoutFirst(dep, Freed(dep)[0])) == Freed(dep)[1..]
    ensures Kept(WithoutFirst(dep, Freed(dep)[0])) == Kept(dep)
  {
    if dep[0].left != [] {
      var x, tail := Freed(dep)[0], dep[1..];
      RemoveFreed(tail);
      FreedAre(dep, 0);
      assert Freed(dep) == Freed(tail);
      assert WithoutFirst(dep, x) == [dep[0]] + WithoutFirst(tail, x);
      assert WithoutFirst(dep, x)[1..] == WithoutFirst(tail, x);
      hide WithoutFirst;
    }
  }

  lemma {:induction false} NoneFreed(dep: seq<Waiting>)
    requires Freed(dep) == []
    ensures Kept(dep) == dep
  {
    if dep != [] {
      NoneFreed(dep[1..]);
    }
  }

  /** Every module is kept or freed. */
  lemma {:induction false} KeptAndFreed(dep: seq<Waiting>)
    ensures multiset(Modules(Kept(dep))) + multiset(Modules(Freed(dep))) == multiset(Modules(dep))
  {
    if dep != [] {
      var w, tail := dep[0], dep[1..];
      assert dep == [w] + tail;
      assert Kept(dep) == (if w.left == [] then [] else [w]) + Kept(tail);
      assert Freed(dep) == (if w.left == [] then [w] else []) + Freed(tail);
      hide Modules, Kept, Freed;
      KeptAndFreed(tail);
      ModulesCons(w, tail);
      var k, f := multiset(Modules(Kept(tail))), multiset(Modules(Freed(tail)));
      OneToEither(multiset{w.module_}, k, f);
      if w.left == [] {
        assert Kept(dep) == Kept(tail);
        ModulesCons(w, Freed(tail));
      } else {
        assert Freed(dep) == Freed(tail);
        ModulesCons(w, Kept(tail));
      }
    }
  }

  lemma {:induction false} OneToEither(w: multiset<Module>, k: multiset<Module>, f: multiset<Module>)
    ensures k + (w + f) == w + (k + f) && (w + k) + f == w + (k + f)
  {
  }

  lemma {:induction false} ModulesCons(w: Waiting, dep: seq<Waiting>)
    ensures multiset(Modules([w] + dep)) == multiset{w.module_} + multiset(Modules(dep))
  {
  }

  lemma {:induction false} ModulesAppend(a: seq<Waiting>, w: Waiting)
    ensures Modules(a + [w]) == Modules(a) + [w.module_]
  {
    if a == [] {
      assert a + [w] == [w] + [];
    } else {
      ModulesAppend(a[1..], w);
      assert a + [w] == [a[0]] + (a[1..] + [w]);
      assert (a + [w])[1..] == a[1..] + [w];
    }
  }

  lemma {:induction false} KeptAre(dep: seq<Waiting>, i: nat)
    requires i < |Kept(dep)|
    ensures Kept(dep)[i].left != [] && Kept(dep)[i] in dep
  {
    if dep[0].left == [] {
      KeptAre(dep[1..], i);
    } else if i > 0 {
      KeptAre(dep[1..], i - 1);
    }
  }

  lemma {:induction false} FreedAre(dep: seq<Waiting>, i: nat)
    requires i < |Freed(dep)|
    ensures Freed(dep)[i].left == [] && Freed(dep)[i] in dep
  {
    if dep[0].left != [] {
      FreedAre(dep[1..], i);
    } else if i > 0 {
      FreedAre(dep[1..], i - 1);
    }
  }

  // ----- What the lists say ---------------------------------------------------------------

  lemma {:induction false} NamesAppend(a: seq<Module>, m: Module)
    ensures Names(a + [m]) == Names(a) + multiset{m.name}
  {
    if a == [] {
      assert a + [m] == [m];
      assert Names([m]) == multiset{m.name} + Names([]);
    } else {
      NamesAppend(a[1..], m);
      assert (a + [m])[1..] == a[1..] + [m];
      assert (a + [m])[0] == a[0];
    }
  }

  /** What is left of a module's list is what the sorted modules do not provide. */
  predicate LeftOver(w: Waiting, names: multiset<string>) {
    w.left != [] && multiset(w.left) == multiset(w.module_.deps) - names
  }

  predicate AllLeftOver(dep: seq<Waiting>, names: multiset<string>) {
    forall i | 0 <= i < |dep| :: LeftOver(dep[i], names)
  }

  predicate AllMet(start: seq<Module>, names: multiset<string>) {
    forall i | 0 <= i < |start| :: multiset(start[i].deps) <= names
  }

  lemma {:induction false} ResolvedLeft(w: Waiting, names: multiset<string>, name: string)
    requires multiset(w.left) == multiset(w.module_.deps) - names
    ensures multiset(WithoutFirst(w.left, name)) == multiset(w.module_.deps) - (names + multiset{name})
  {
    WithoutFirstBag(w.left, name);
  }

  lemma {:induction false} EmptyLeft(w: Waiting, names: multiset<string>)
    requires w.left == [] && multiset(w.left) == multiset(w.module_.deps) - names
    ensures multiset(w.module_.deps) <= names
  {
    forall x ensures multiset(w.module_.deps)[x] <= names[x] {
      assert multiset(w.left)[x] == 0;
      assert (multiset(w.module_.deps) - names)[x] == 0;
    }
  }

  /** After a round, those kept still lack something and those freed lack nothing. */
  lemma {:induction false} RoundLeft(dep: seq<Waiting>, names: multiset<string>, name: string)
    requires AllLeftOver(dep, names)
    ensures AllLeftOver(Kept(Resolved(dep, name)), names + multiset{name})
    ensures AllMet(Modules(Freed(Resolved(dep, name))), names + multiset{name})
  {
    var r := Resolved(dep, name);
    var more := names + multiset{name};
    forall i | 0 <= i < |dep| ensures multiset(r[i].left) == multiset(r[i].module_.deps) - more {
      ResolvedLeft(dep[i], names, name);
    }
    forall i | 0 <= i < |Kept(r)| ensures LeftOver(Kept(r)[i], more) {
      KeptAre(r, i);
    }
    forall i | 0 <= i < |Freed(r)| ensures multiset(Freed(r)[i].module_.deps) <= more {
      FreedAre(r, i);
      EmptyLeft(Freed(r)[i], more);
    }
    ModulesAre(Freed(r));
  }

  lemma {:induction false} ModulesAre(dep: seq<Waiting>)
    ensures |Modules(dep)| == |dep| && forall i | 0 <= i < |dep| :: Modules(dep)[i] == dep[i].module_
  {
    if dep != [] {
      ModulesAre(dep[1..]);
    }
  }

  lemma {:induction false} MetMore(start: seq<Module>, names: multiset<string>, more: multiset<string>)
    requires AllMet(start, names) && names <= more
    ensures AllMet(start, more)
  {
  }

  // ----- The sort -------------------------------------------------------------------------

  predicate Progress(modules: seq<Module>, sorted: seq<Module>, start: seq<Module>, dep: seq<Waiting>) {
    && ValidOrder(sorted)
    && AllMet(start, Names(sorted))
    && AllLeftOver(dep, Names(sorted))
    && multiset(sorted) + multiset(start) + multiset(Modules(dep)) == multiset(modules)
  }

  lemma {:induction false} ResolvedModules(dep: seq<Waiting>, name: string)
    ensures Modules(Resolved(dep, name)) == Modules(dep)
  {
    ModulesAre(dep);
    ModulesAre(Resolved(dep, name));
  }

  lemma {:induction false} ValidAppend(sorted: seq<Module>, node: Module)
    requires ValidOrder(sorted) && multiset(node.deps) <= Names(sorted)
    ensures ValidOrder(sorted + [node])
  {
    var r := sorted + [node];
    forall i | 0 <= i < |r| ensures multiset(r[i].deps) <= Names(r[..i]) {
      if i < |sorted| {
        assert r[i] == sorted[i] && r[..i] == sorted[..i];
      } else {
        assert r[i] == node && r[..i] == sorted;
      }
    }
    hide Names;
  }

  lemma {:induction false} RoundKeepsAll(modules: seq<Module>, sorted: seq<Module>, start: seq<Module>,
                                         dep: seq<Waiting>)
    requires Progress(modules, sorted, start, dep) && start != []
    ensures var r := Resolved(dep, start[0].name);
            multiset(sorted + [start[0]]) + multiset(start[1..] + Modules(Freed(r))) + multiset(Modules(Kept(r)))
            == multiset(modules)
  {
    var r := Resolved(dep, start[0].name);
    KeptAndFreed(r);
    ResolvedModules(dep, start[0].name);
    assert start == [start[0]] + start[1..];
    hide Kept, Freed, Modules, Resolved;
  }

  lemma {:induction false} RoundKeeps(modules: seq<Module>, sorted: seq<Module>, start: seq<Module>, dep: seq<Waiting>)
    requires Progress(modules, sorted, start, dep) && start != []
    ensures var r := Resolved(dep, start[0].name);
            Progress(modules, sorted + [start[0]], start[1..] + Modules(Freed(r)), Kept(r))
  {
    hide Kept, Freed, Modules, Resolved, ValidOrder, AllLeftOver, Names;
    var node := start[0];
    var r := Resolved(dep, node.name);
    RoundKeepsAll(modules, sorted, start, dep);
    ValidAppend(sorted, node);
    NamesAppend(sorted, node);
    RoundLeft(dep, Names(sorted), node.name);
    MetMore(start[1..], Names(sorted), Names(sorted + [node]));
  }

  // ----- Failure means that there is no order ---------------------------------------------

  lemma {:induction false} NamesWithout(b: seq<Module>, x: Module)
    requires x in b
    ensures Names(b) == Names(WithoutFirst(b, x)) + multiset{x.name}
  {
    if b[0] != x {
      assert b == [b[0]] + b[1..];
      NamesWithout(b[1..], x);
      assert WithoutFirst(b, x)[1..] == WithoutFirst(b[1..], x);
    }
  }

  lemma {:induction false} NamesMonotonic(a: seq<Module>, b: seq<Module>)
    requires multiset(a) <= multiset(b)
    ensures Names(a) <= Names(b)
    decreases |a|
  {
    if a != [] {
      assert a == [a[0]] + a[1..];
      assert a[0] in multiset(b);
      NamesWithout(b, a[0]);
      WithoutFirstBag(b, a[0]);
      NamesMonotonic(a[1..], WithoutFirst(b, a[0]));
    }
  }

  /** A module left waiting cannot have everything it names among the sorted ones. */
  lemma {:induction false} StillLacks(dep: seq<Waiting>, names: multiset<string>, m: Module)
    requires AllLeftOver(dep, names) && m in Modules(dep)
    ensures !(multiset(m.deps) <= names)
  {
    ModulesAre(dep);
    var i :| 0 <= i < |dep| && dep[i].module_ == m;
    assert LeftOver(dep[i], names);
    assert dep[i].left[0] in multiset(dep[i].left);
    assert (multiset(m.deps) - names)[dep[i].left[0]] > 0;
  }

  /** The next module of a valid order is not among those left waiting. */
  lemma {:induction false} NextNotWaiting(sorted: seq<Module>, dep: seq<Waiting>, order: seq<Module>, i: nat)
    requires AllLeftOver(dep, Names(sorted)) && ValidOrder(order) && i < |order|
    requires multiset(order[..i]) <= multiset(sorted)
    ensures order[i] !in Modules(dep)
  {
    NamesMonotonic(order[..i], sorted);
    if order[i] in Modules(dep) {
      StillLacks(dep, Names(sorted), order[i]);
    }
  }

  lemma {:induction false} CountPrefix(order: seq<Module>, i: nat, m: Module)
    requires i < |order| && order[i] == m
    ensures multiset(order[..i])[m] + 1 <= multiset(order)[m]
    ensures multiset(order[..i + 1]) == multiset(order[..i]) + multiset{m}
  {
    assert order[..i + 1] == order[..i] + [m];
    assert order == order[..i + 1] + order[i + 1..];
  }

  lemma {:induction false} OneMore(a: multiset<Module>, s: multiset<Module>, m: Module)
    requires a <= s && a[m] + 1 <= s[m]
    ensures a + multiset{m} <= s
  {
  }

  lemma {:induction false} SortedOrWaiting(modules: seq<Module>, sorted: seq<Module>, dep: seq<Waiting>, m: Module)
    requires Progress(modules, sorted, [], dep)
    ensures multiset(sorted)[m] + multiset(Modules(dep))[m] == multiset(modules)[m]
  {
  }

  /** Any valid order starts with sorted modules, however far one follows it. */
  lemma {:induction false} PrefixIsSorted(modules: seq<Module>, sorted: seq<Module>, dep: seq<Waiting>,
                                          order: seq<Module>, i: nat)
    requires Progress(modules, sorted, [], dep) && Sortable(modules, order) && i <= |order|
    ensures multiset(order[..i]) <= multiset(sorted)
  {
    hide ValidOrder, AllLeftOver, AllMet, Modules, Names;
    if i > 0 {
      var m := order[i - 1];
      PrefixIsSorted(modules, sorted, dep, order, i - 1);
      NextNotWaiting(sorted, dep, order, i - 1);
      CountPrefix(order, i - 1, m);
      SortedOrWaiting(modules, sorted, dep, m);
      OneMore(multiset(order[..i - 1]), multiset(sorted), m);
    }
  }

  lemma {:induction false} StuckMeansUnsortable(modules: seq<Module>, sorted: seq<Module>, dep: seq<Waiting>,
                                                order: seq<Module>)
    requires Progress(modules, sorted, [], dep) && dep != []
    ensures !Sortable(modules, order)
  {
    ModulesAre(dep);
    hide ValidOrder, AllLeftOver, AllMet, Modules, Names, Progress;
    var m := Modules(dep)[0];
    SortedOrWaiting(modules, sorted, dep, m);
    if Sortable(modules, order) {
      assert order[..|order|] == order;
      PrefixIsSorted(modules, sorted, dep, order, |order|);
    }
  }

  method Sort(modules: seq<Module>) returns (ok: bool, sorted: seq<Module>, stuck: seq<Waiting>)
    ensures ok <==> exists order :: Sortable(modules, order)
    ensures ok ==> Sortable(modules, sorted)
    ensures !ok ==> stuck != [] && AllLeftOver(stuck, Names(sorted))
  {
    hide Resolved, Kept, Freed, Modules;
    var start, dep := Split(modules);
    sorted := [];
    while start != []
      invariant Progress(modules, sorted, start, dep)
      decreases |start| + |dep|
    {
      RoundKeeps(modules, sorted, start, dep);
      RoundShrinks(dep, start[0].name);
      var node := start[0];
      start := start[1..];
      sorted := sorted + [node];
      start, dep := Round(start, dep, node.name);
    }
    ok, stuck := dep == [], dep;
    if dep == [] {
      NothingWaiting(modules, sorted);
    } else {
      forall order ensures !Sortable(modules, order) {
        StuckMeansUnsortable(modules, sorted, dep, order);
      }
    }
  }

  lemma {:induction false} NothingWaiting(modules: seq<Module>, sorted: seq<Module>)
    requires Progress(modules, sorted, [], [])
    ensures Sortable(modules, sorted)
  {
  }

  lemma {:induction false} RoundShrinks(dep: seq<Waiting>, name: string)
    ensures |Modules(Freed(Resolved(dep, name)))| + |Kept(Resolved(dep, name))| == |dep|
  {
    ModulesAre(Freed(Resolved(dep, name)));
    Sizes(Resolved(dep, name));
  }

  lemma {:induction false} Sizes(dep: seq<Waiting>)
    ensures |Freed(dep)| + |Kept(dep)| == |dep|
  {
    if dep != [] {
      Sizes(dep[1..]);
    }
  }

  /** The modules without dependencies, and the others. */
  method Split(modules: seq<Module>) returns (start: seq<Module>, dep: seq<Waiting>)
    ensures Progress(modules, [], start, dep)
  {
    start, dep := [], [];
    NothingRead(modules);
    hide Progress;
    var i := 0;
    while i < |modules|
      invariant 0 <= i <= |modules|
      invariant Progress(modules[..i], [], start, dep)
    {
      assert modules[..i + 1] == modules[..i] + [modules[i]];
      if modules[i].deps == [] {
        SplitStart(modules[..i], start, dep, modules[i]);
        start := start + [modules[i]];
      } else {
        SplitDep(modules[..i], start, dep, modules[i]);
        dep := dep + [Waiting(modules[i], modules[i].deps)];
      }
      i := i + 1;
    }
    assert modules[..|modules|] == modules;
  }

  lemma {:induction false} NothingRead(modules: seq<Module>)
    ensures Progress(modules[..0], [], [], [])
  {
    assert modules[..0] == [];
  }

  lemma {:induction false} SplitStart(done: seq<Module>, start: seq<Module>, dep: seq<Waiting>, m: Module)
    requires Progress(done, [], start, dep) && m.deps == []
    ensures Progress(done + [m], [], start + [m], dep)
  {
  }

  lemma {:induction false} SplitDep(done: seq<Module>, start: seq<Module>, dep: seq<Waiting>, m: Module)
    requires Progress(done, [], start, dep) && m.deps != []
    ensures Progress(done + [m], [], start, dep + [Waiting(m, m.deps)])
  {
    var w := Waiting(m, m.deps);
    assert LeftOver(w, Names([])) by {
      assert multiset(m.deps) - Names([]) == multiset(m.deps);
    }
    hide LeftOver, AllLeftOver, AllMet, Modules, Names, ValidOrder;
    LeftOverAppend(dep, w, Names([]));
    ModulesAppend(dep, w);
    BagWithDep(start, Modules(dep), done, m);
  }

  lemma {:induction false} LeftOverAppend(dep: seq<Waiting>, w: Waiting, names: multiset<string>)
    requires AllLeftOver(dep, names) && LeftOver(w, names)
    ensures AllLeftOver(dep + [w], names)
  {
  }

  lemma {:induction false} BagWithDep(start: seq<Module>, dep: seq<Module>, done: seq<Module>, m: Module)
    requires multiset([]) + multiset(start) + multiset(dep) == multiset(done)
    ensures multiset([]) + multiset(start) + multiset(dep + [m]) == multiset(done + [m])
  {
  }

  /** A module's list loses one occurrence of the name, if it has one. */
  method CrossOne(w: Waiting, name: string) returns (w': Waiting)
    ensures w' == Waiting(w.module_, WithoutFirst(w.left, name))
  {
    WithoutFirstBag(w.left, name);
    w' := w;
    if name in w.left {
      var left := RemoveFirst(w.left, name);
      w' := Waiting(w.module_, left);
    }
  }

  /** The loop that crosses a sorted module off every list */
  method CrossOff(start: seq<Module>, dep: seq<Waiting>, name: string)
    returns (start': seq<Module>, dep': seq<Waiting>, toRemove: seq<Waiting>)
    requires forall i | 0 <= i < |dep| :: dep[i].left != []
    ensures dep' == Resolved(dep, name)
    ensures toRemove == Freed(dep') && start' == start + Modules(toRemove)
  {
    hide Freed, Modules;
    start', dep', toRemove := start, dep, [];
    NothingYet(dep, name);
    var i := 0;
    while i < |dep|
      invariant 0 <= i <= |dep|
      invariant dep' == Resolved(dep[..i], name) + dep[i..]
      invariant toRemove == Freed(Resolved(dep[..i], name))
      invariant start' == start + Modules(toRemove)
    {
      RoundNext(dep, i, name);
      hide Resolved, WithoutFirst;
      var w := CrossOne(dep'[i], name);
      dep' := dep'[i := w];
      if w.left == [] {
        ModulesAppend(toRemove, w);
        start' := start' + [w.module_];
        toRemove := toRemove + [w];
      }
      i := i + 1;
    }
    assert dep[..i] == dep && dep[i..] == [];
  }

  lemma {:induction false} NothingYet(dep: seq<Waiting>, name: string)
    ensures dep == Resolved(dep[..0], name) + dep[0..] && Freed(Resolved(dep[..0], name)) == [] && Modules([]) == []
  {
  }

  /** The body of the sort's loop after a module has been sorted */
  method Round(start: seq<Module>, dep: seq<Waiting>, name: string) returns (start': seq<Module>, dep': seq<Waiting>)
    requires forall i | 0 <= i < |dep| :: dep[i].left != []
    ensures start' == start + Modules(Freed(Resolved(dep, name)))
    ensures dep' == Kept(Resolved(dep, name))
  {
    hide Kept, Freed, Modules;
    var toRemove;
    start', dep', toRemove := CrossOff(start, dep, name);
    var j := 0;
    while j < |toRemove|
      invariant 0 <= j <= |toRemove|
      invariant Freed(dep') == toRemove[j..] && Kept(dep') == Kept(Resolved(dep, name))
    {
      RemoveFreed(dep');
      dep' := RemoveFirst(dep', toRemove[j]);
      j := j + 1;
    }
    NoneFreed(dep');
  }

  lemma {:induction false} RoundNext(dep: seq<Waiting>, i: nat, name: string)
    requires i < |dep|
    ensures var w := Waiting(dep[i].module_, WithoutFirst(dep[i].left, name));
            && Resolved(dep[..i + 1], name) == Resolved(dep[..i], name) + [w]
            && Freed(Resolved(dep[..i + 1], name)) ==
               Freed(Resolved(dep[..i], name)) + (if w.left == [] then [w] else [])
            && (Resolved(dep[..i], name) + dep[i..])[i] == dep[i]
            && (Resolved(dep[..i], name) + dep[i..])[i := w] == Resolved(dep[..i + 1], name) + dep[i + 1..]
  {
    var w := Waiting(dep[i].module_, WithoutFirst(dep[i].left, name));
    assert Resolved(dep[..i + 1], name) == Resolved(dep[..i], name) + [w];
    FreedAppend(Resolved(dep[..i], name), w);
  }

  lemma {:induction false} FreedAppend(dep: seq<Waiting>, w: Waiting)
    ensures Freed(dep + [w]) == Freed(dep) + if w.left == [] then [w] else []
  {
    if dep == [] {
      assert dep + [w] == [w] + [];
    } else {
      FreedAppend(dep[1..], w);
      assert (dep + [w])[1..] == dep[1..] + [w];
    }
  }

  // ----- Distinct names -------------------------------------------------------------------

  ghost predicate DistinctNames(modules: seq<Module>) {
    forall d :: Names(modules)[d] <= 1
  }

  predicate NoRepeats(deps: seq<string>) {
    forall i, j | 0 <= i < j < |deps| :: deps[i] != deps[j]
  }

  predicate Named(modules: seq<Module>, d: string) {
    exists j :: 0 <= j < |modules| && modules[j].name == d
  }

  /** Each module comes after every module it names. */
  predicate AfterDeps(order: seq<Module>) {
    forall i, k | 0 <= i < |order| && 0 <= k < |order[i].deps| :: Named(order[..i], order[i].deps[k])
  }

  predicate NoneRepeats(modules: seq<Module>) {
    forall i | 0 <= i < |modules| :: NoRepeats(modules[i].deps)
  }

  lemma {:induction false} NamedCount(modules: seq<Module>, d: string)
    ensures Names(modules)[d] > 0 <==> Named(modules, d)
  {
    if modules != [] {
      var tail := modules[1..];
      NamedCount(tail, d);
      if modules[0].name != d && Named(modules, d) {
        var j :| 0 <= j < |modules| && modules[j].name == d;
        assert tail[j - 1].name == d;
      }
      if Named(tail, d) {
        var j :| 0 <= j < |tail| && tail[j].name == d;
        assert modules[j + 1].name == d;
      }
    }
  }

  lemma {:induction false} NamesPrefix(modules: seq<Module>, i: nat)
    requires i <= |modules|
    ensures Names(modules[..i]) <= Names(modules)
  {
    assert modules == modules[..i] + modules[i..];
    NamesMonotonic(modules[..i], modules);
  }

  lemma {:induction false} RepeatsCount(deps: seq<string>)
    ensures NoRepeats(deps) <==> forall d :: multiset(deps)[d] <= 1
  {
    if NoRepeats(deps) {
      forall d ensures multiset(deps)[d] <= 1 {
        OnceEach(deps, d);
      }
    } else {
      var i, j :| 0 <= i < j < |deps| && deps[i] == deps[j];
      assert deps == deps[..j] + [deps[j]] + deps[j + 1..];
      assert deps[..j][i] == deps[i];
      assert deps[i] in multiset(deps[..j]);
      assert multiset(deps)[deps[i]] >= 2;
    }
  }

  lemma {:induction false} OnceEach(deps: seq<string>, d: string)
    requires NoRepeats(deps)
    ensures multiset(deps)[d] <= 1
  {
    if deps != [] {
      var tail := deps[1..];
      assert deps == [deps[0]] + tail;
      assert forall i | 0 <= i < |tail| :: tail[i] == deps[i + 1];
      OnceEach(tail, d);
      if deps[0] == d {
        assert d !in tail;
      }
    }
  }

  /** With distinct names, one module's place is right when it names nothing twice and all of it before. */
  lemma {:induction false} PlaceIsRight(before: seq<Module>, deps: seq<string>)
    requires DistinctNames(before)
    ensures multiset(deps) <= Names(before) <==>
            NoRepeats(deps) && forall k | 0 <= k < |deps| :: Named(before, deps[k])
  {
    RepeatsCount(deps);
    if multiset(deps) <= Names(before) {
      assert forall d :: multiset(deps)[d] <= Names(before)[d];
      forall k | 0 <= k < |deps| ensures Named(before, deps[k]) {
        assert deps[k] in multiset(deps);
        NamedCount(before, deps[k]);
      }
    }
    if NoRepeats(deps) && forall k | 0 <= k < |deps| :: Named(before, deps[k]) {
      forall d ensures multiset(deps)[d] <= Names(before)[d] {
        if d in multiset(deps) {
          var k :| 0 <= k < |deps| && deps[k] == d;
          NamedCount(before, d);
        }
      }
    }
  }

  lemma {:induction false} OrderIsRight(order: seq<Module>)
    requires DistinctNames(order)
    ensures ValidOrder(order) <==> NoneRepeats(order) && AfterDeps(order)
  {
    forall i | 0 <= i < |order|
      ensures multiset(order[i].deps) <= Names(order[..i]) <==>
              NoRepeats(order[i].deps) && forall k | 0 <= k < |order[i].deps| :: Named(order[..i], order[i].deps[k])
    {
      NamesPrefix(order, i);
      PlaceIsRight(order[..i], order[i].deps);
    }
  }

  predicate Permuted(a: seq<Module>, b: seq<Module>) {
    multiset(a) == multiset(b)
  }

  predicate InDependencyOrder(modules: seq<Module>, order: seq<Module>) {
    Permuted(order, modules) && AfterDeps(order)
  }

  /**
   With distinct names, the sort succeeds exactly when no module names another twice and there
   is an order in which every module comes after those it names.
   */
  lemma {:induction false} SortableIff(modules: seq<Module>)
    requires DistinctNames(modules)
    ensures (exists order :: Sortable(modules, order)) <==>
            NoneRepeats(modules) && exists order :: InDependencyOrder(modules, order)
  {
    forall order | Permuted(order, modules)
      ensures Sortable(modules, order) <==> NoneRepeats(modules) && InDependencyOrder(modules, order)
    {
      NamesMonotonic(order, modules);
      OrderIsRight(order);
      SameRepeats(order, modules);
    }
  }

  lemma {:induction false} SameRepeats(a: seq<Module>, b: seq<Module>)
    requires Permuted(a, b)
    ensures NoneRepeats(a) <==> NoneRepeats(b)
  {
    assert forall i | 0 <= i < |a| :: a[i] in multiset(b);
    assert forall i | 0 <= i < |b| :: b[i] in multiset(a);
  }

  /** A module that names another twice fails the sort although a fitting order exists. */
  lemma {:induction false} RepeatedDependencyFails(a: string, b: string)
    requires a != b
    ensures var modules := [Module(a, a, []), Module(b, b, [a, a])];
            InDependencyOrder(modules, modules) && forall order :: !Sortable(modules, order)
  {
    var ma, mb := Module(a, a, []), Module(b, b, [a, a]);
    var modules := [ma, mb];
    assert modules[1..] == [mb] && [mb][1..] == [];
    assert Names([mb]) == multiset{b} + Names([]);
    assert Names(modules) == multiset{a} + Names([mb]);
    assert modules[..1][0].name == a;
    assert InDependencyOrder(modules, modules);
    SortableIff(modules);
    assert mb.deps[0] == mb.deps[1];
    assert modules[1] == mb;
    assert !NoneRepeats(modules);
  }
}
