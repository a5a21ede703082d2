/** The inheritance resolver: a module names its own items and its parents, and the resolver
    flattens every module into its own items followed by those of its parents. */
module RoleGraph {
  import opened Wrappers

  datatype ResolveError = CircularDependency

  function Modules<M, D>(mods: map<M, seq<D>>, deps: map<M, seq<M>>): set<M> {
    mods.Keys + deps.Keys
  }

  function Parents<M>(deps: map<M, seq<M>>, m: M): seq<M> {
    if m in deps then deps[m] else []
  }

  function OwnItems<M, D>(mods: map<M, seq<D>>, m: M): seq<D> {
    if m in mods then mods[m] else []
  }

  /** Some module lists a parent that is a key of neither input. */
  ghost predicate NamesUndefinedParent<M(!new), D>(mods: map<M, seq<D>>, deps: map<M, seq<M>>) {
    exists m, p :: m in deps && p in deps[m] && p !in Modules(mods, deps)
  }

  ghost predicate IsEdge<M>(deps: map<M, seq<M>>, m: M, p: M) {
    m in deps && p in deps[m]
  }

  /** Each element after the first is a listed parent of the one before it. */
  ghost predicate IsPath<M>(deps: map<M, seq<M>>, path: seq<M>) {
    && |path| > 0
    && forall i :: 0 < i < |path| ==> IsEdge(deps, path[i - 1], path[i])
  }

  ghost predicate HasCycle<M(!new)>(deps: map<M, seq<M>>) {
    exists path :: IsPath(deps, path) && |path| > 1 && path[0] == path[|path| - 1]
  }

  /** The items of the listed modules, in listed order and with multiplicity. */
  function Gather<M, D>(resolved: map<M, seq<D>>, listed: seq<M>): seq<D>
    requires forall p :: p in listed ==> p in resolved
  {
    if listed == [] then []
    else
      var last := |listed| - 1;
      Gather(resolved, listed[..last]) + resolved[listed[last]]
  }

  ghost predicate FlattensAt<M, D>(mods: map<M, seq<D>>, deps: map<M, seq<M>>, resolved: map<M, seq<D>>, m: M)
    requires m in resolved
  {
    && (forall p :: p in Parents(deps, m) ==> p in resolved)
    && resolved[m] == OwnItems(mods, m) + Gather(resolved, Parents(deps, m))
  }

  /** What a flattening is, with no word about the order in which it was computed. */
  ghost predicate IsFlattening<M, D>(mods: map<M, seq<D>>, deps: map<M, seq<M>>, resolved: map<M, seq<D>>) {
    && resolved.Keys == Modules(mods, deps)
    && forall m {:trigger FlattensAt(mods, deps, resolved, m)} :: m in resolved ==> FlattensAt(mods, deps, resolved, m)
  }

  /** Every parent of a module comes earlier in the sequence than the module. */
  ghost predicate ParentsFirst<M>(deps: map<M, seq<M>>, order: seq<M>) {
    forall i, p :: 0 <= i < |order| && p in Parents(deps, order[i]) ==> p in order[..i]
  }

  // ---------------------------------------------------------------------------------------
  // Sets in which every module has a parent: the only way to be stuck is to sit on a cycle.

  ghost predicate HasParentIn<M(!new)>(deps: map<M, seq<M>>, m: M, inside: set<M>) {
    exists p :: p in Parents(deps, m) && p in inside
  }

  /** Stated over `HasParentIn` so that one fact does not unfold into the next for ever. */
  ghost predicate Stuck<M(!new)>(deps: map<M, seq<M>>, stuck: set<M>) {
    && stuck != {}
    && forall m {:trigger HasParentIn(deps, m, stuck)} :: m in stuck ==> HasParentIn(deps, m, stuck)
  }

  lemma {:induction false} Pigeonhole<M>(path: seq<M>, holes: set<M>)
    requires forall i :: 0 <= i < |path| ==> path[i] in holes
    requires |path| > |holes|
    ensures exists i, j :: 0 <= i < j < |path| && path[i] == path[j]
    decreases |path|
  {
    var last := |path| - 1;
    if j :| 0 <= j < last && path[j] == path[last] {
    } else {
      var rest := holes - {path[last]};
      assert |rest| == |holes| - 1;
      Pigeonhole(path[..last], rest);
      var i, j :| 0 <= i < j < last && path[..last][i] == path[..last][j];
      assert path[i] == path[j];
    }
  }

  lemma {:induction false} WalkInside<M(!new)>(deps: map<M, seq<M>>, stuck: set<M>, start: M, steps: nat)
    returns (path: seq<M>)
    requires Stuck(deps, stuck) && start in stuck
    ensures IsPath(deps, path) && |path| == steps + 1
    ensures forall i :: 0 <= i < |path| ==> path[i] in stuck
  {
    if steps == 0 {
      path := [start];
    } else {
      var shorter := WalkInside(deps, stuck, start, steps - 1);
      assert HasParentIn(deps, shorter[steps - 1], stuck);
      var p :| p in Parents(deps, shorter[steps - 1]) && p in stuck;
      path := shorter + [p];
    }
  }

  lemma StuckMeansCycle<M(!new)>(deps: map<M, seq<M>>, stuck: set<M>)
    requires Stuck(deps, stuck)
    ensures HasCycle(deps)
  {
    var start :| start in stuck;
    var path := WalkInside(deps, stuck, start, |stuck|);
    Pigeonhole(path, stuck);
    var i, j :| 0 <= i < j < |path| && path[i] == path[j];
    var loop := path[i..j + 1];
    forall k | 0 < k < |loop| ensures IsEdge(deps, loop[k - 1], loop[k]) {
      assert IsEdge(deps, path[i + k - 1], path[i + k]);
    }
    assert IsPath(deps, loop) && |loop| > 1 && loop[0] == loop[|loop| - 1];
  }

  /** Along a path the position in a parents-first order only goes down. */
  lemma {:induction false} PathGoesDown<M>(deps: map<M, seq<M>>, order: seq<M>, path: seq<M>, at: nat)
    requires ParentsFirst(deps, order)
    requires IsPath(deps, path)
    requires at < |order| && path[0] == order[at]
    ensures |path| > 1 ==> path[|path| - 1] in order[..at]
    decreases |path|
  {
    if |path| > 1 {
      assert IsEdge(deps, path[0], path[1]) && path[1] in Parents(deps, path[0]);
      var lower :| 0 <= lower < at && order[lower] == path[1];
      var tail := path[1..];
      forall k | 0 < k < |tail| ensures IsEdge(deps, tail[k - 1], tail[k]) {
        assert IsEdge(deps, path[k], path[k + 1]);
      }
      PathGoesDown(deps, order, tail, lower);
      if |tail| > 1 {
        assert tail[|tail| - 1] in order[..lower] && order[..lower] <= order[..at];
      }
    }
  }

  lemma OrderedMeansNoCycle<M(!new), D>(mods: map<M, seq<D>>, deps: map<M, seq<M>>, order: seq<M>)
    requires ParentsFirst(deps, order)
    requires forall i, j :: 0 <= i < j < |order| ==> order[i] != order[j]
    requires forall m :: m in order <==> m in Modules(mods, deps)
    ensures !HasCycle(deps) && !NamesUndefinedParent(mods, deps)
  {
    if HasCycle(deps) {
      var path :| IsPath(deps, path) && |path| > 1 && path[0] == path[|path| - 1];
      assert IsEdge(deps, path[0], path[1]) && path[1] in Parents(deps, path[0]);
      assert path[0] in Modules(mods, deps);
      var at :| 0 <= at < |order| && order[at] == path[0];
      PathGoesDown(deps, order, path, at);
      assert false;
    }
    forall m, p | m in deps && p in deps[m] ensures p in Modules(mods, deps) {
      assert m in order;
      var at :| 0 <= at < |order| && order[at] == m;
      assert p in Parents(deps, order[at]);
      assert p in order[..at] && order[..at] <= order;
    }
  }

  // ---------------------------------------------------------------------------------------
  // The resolver.

  /** Seeds the graph: each module with the set of the parents it lists. */
  method Seed<M(!new), D>(mods: map<M, seq<D>>, deps: map<M, seq<M>>) returns (graph: map<M, set<M>>)
    ensures graph.Keys == Modules(mods, deps)
    ensures forall m :: m in graph ==> graph[m] == set p | p in Parents(deps, m)
  {
    graph := map m | m in mods :: {};
    var unvisited := deps.Keys;
    while unvisited != {}
      invariant unvisited <= deps.Keys
      invariant graph.Keys == mods.Keys + (deps.Keys - unvisited)
      invariant forall m :: m in graph ==>
                  graph[m] == if m in unvisited then {} else set p | p in Parents(deps, m)
      decreases unvisited
    {
      var mod :| mod in unvisited;
      unvisited := unvisited - {mod};
      if mod !in graph {
        graph := graph[mod := {}];
      }
      graph := AddParents(graph, mod, deps[mod]);
    }
  }

  method AddParents<M(!new)>(graph: map<M, set<M>>, mod: M, listed: seq<M>) returns (extended: map<M, set<M>>)
    requires mod in graph && graph[mod] == {}
    ensures extended == graph[mod := set p | p in listed]
  {
    extended := graph;
    for i := 0 to |listed|
      invariant extended.Keys == graph.Keys && extended[mod] == set p | p in listed[..i]
      invariant forall m :: m in graph && m != mod ==> extended[m] == graph[m]
    {
      assert listed[..i + 1] == listed[..i] + [listed[i]];
      extended := extended[mod := extended[mod] + {listed[i]}];
    }
    assert listed[..|listed|] == listed;
  }

  /** The inner deletion loop: removes `mod` from every remaining parent set. */
  method StrikeOut<M(!new)>(graph: map<M, set<M>>, mod: M) returns (struck: map<M, set<M>>)
    ensures struck.Keys == graph.Keys
    ensures forall m :: m in graph ==> struck[m] == graph[m] - {mod}
  {
    struck := graph;
    var unvisited := graph.Keys;
    while unvisited != {}
      invariant unvisited <= graph.Keys == struck.Keys
      invariant forall m :: m in graph ==> struck[m] == if m in unvisited then graph[m] else graph[m] - {mod}
      decreases unvisited
    {
      var dependant :| dependant in unvisited;
      unvisited := unvisited - {dependant};
      struck := struck[dependant := struck[dependant] - {mod}];
    }
  }

  /** What the leaf-stripping rounds keep: the remaining graph lists exactly the unresolved
      parents, and what is resolved is in parents-first order. */
  ghost predicate Stripped<M(!new), D>(
    mods: map<M, seq<D>>, deps: map<M, seq<M>>, graph: map<M, set<M>>, done: seq<M>)
  {
    && (forall m :: m in Modules(mods, deps) <==> m in graph || m in done)
    && (forall m :: m in graph ==> m !in done)
    && (forall m :: m in graph ==> graph[m] == set p | p in Parents(deps, m) && p !in done)
    && (forall i, j :: 0 <= i < j < |done| ==> done[i] != done[j])
    && ParentsFirst(deps, done)
  }

  lemma StripOne<M(!new), D>(mods: map<M, seq<D>>, deps: map<M, seq<M>>,
                             graph: map<M, set<M>>, done: seq<M>, mod: M, graph': map<M, set<M>>)
    requires Stripped(mods, deps, graph, done)
    requires mod in graph && graph[mod] == {}
    requires graph'.Keys == graph.Keys - {mod}
    requires forall m :: m in graph' ==> graph'[m] == graph[m] - {mod}
    ensures Stripped(mods, deps, graph', done + [mod])
  {
    var done' := done + [mod];
    forall m | m in graph' ensures graph'[m] == set p | p in Parents(deps, m) && p !in done' {
      assert graph[m] == set p | p in Parents(deps, m) && p !in done;
    }
    forall i, p | 0 <= i < |done'| && p in Parents(deps, done'[i]) ensures p in done'[..i] {
      if i < |done| {
        assert done'[i] == done[i] && done'[..i] == done[..i];
      } else {
        assert done'[..i] == done;
        assert done'[i] == mod && graph[mod] == set q | q in Parents(deps, mod) && q !in done;
        assert p in graph[mod] <==> p !in done;
      }
    }
  }

  /** No module left in the graph is a leaf: there is a cycle or an undefined parent. */
  lemma NothingToStrip<M(!new), D>(mods: map<M, seq<D>>, deps: map<M, seq<M>>, graph: map<M, set<M>>, done: seq<M>)
    requires Stripped(mods, deps, graph, done)
    requires graph.Keys != {} && forall m :: m in graph ==> graph[m] != {}
    ensures HasCycle(deps) || NamesUndefinedParent(mods, deps)
  {
    if !NamesUndefinedParent(mods, deps) {
      forall m | m in graph.Keys ensures HasParentIn(deps, m, graph.Keys) {
        var p :| p in graph[m];
        assert p in Parents(deps, m) && p !in done;
        assert m in deps && p in deps[m];
        assert p in Modules(mods, deps);
      }
      StuckMeansCycle(deps, graph.Keys);
    }
  }

  lemma {:induction false} GatherFrame<M, D>(resolved: map<M, seq<D>>, resolved': map<M, seq<D>>, listed: seq<M>)
    requires forall p :: p in listed ==> p in resolved && p in resolved' && resolved[p] == resolved'[p]
    ensures Gather(resolved, listed) == Gather(resolved', listed)
  {
    if listed != [] {
      GatherFrame(resolved, resolved', listed[..|listed| - 1]);
    }
  }

  /** The inner loop of the second pass: appends the entries of the listed parents to `mod`'s. */
  method AppendParents<M(!new), D>(before: map<M, seq<D>>, mod: M, own: seq<D>, listed: seq<M>)
    returns (resolved: map<M, seq<D>>)
    requires mod !in before && forall p :: p in listed ==> p in before
    ensures resolved == before[mod := own + Gather(before, listed)]
  {
    resolved := before[mod := own];
    assert own + Gather(before, listed[..0]) == own;
    for j := 0 to |listed|
      invariant forall p :: p in listed[..j] ==> p in before
      invariant resolved == before[mod := own + Gather(before, listed[..j])]
    {
      assert listed[j] in listed;
      assert listed[..j + 1][..j] == listed[..j];
      var inherited := before[listed[j]];
      assert own + (Gather(before, listed[..j]) + inherited) == own + Gather(before, listed[..j]) + inherited;
      resolved := resolved[mod := resolved[mod] + resolved[listed[j]]];
    }
    assert listed[..|listed|] == listed;
  }

  lemma FlattensAtGrows<M(!new), D>(
    mods: map<M, seq<D>>, deps: map<M, seq<M>>, before: map<M, seq<D>>, mod: M, resolved: map<M, seq<D>>)
    requires forall m {:trigger FlattensAt(mods, deps, before, m)} :: m in before ==> FlattensAt(mods, deps, before, m)
    requires mod !in before && forall p :: p in Parents(deps, mod) ==> p in before
    requires resolved == before[mod := OwnItems(mods, mod) + Gather(before, Parents(deps, mod))]
    ensures forall m {:trigger FlattensAt(mods, deps, resolved, m)} ::
              m in resolved ==> FlattensAt(mods, deps, resolved, m)
  {
    forall m | m in resolved ensures FlattensAt(mods, deps, resolved, m) {
      if m != mod {
        assert FlattensAt(mods, deps, before, m);
      }
      GatherFrame(before, resolved, Parents(deps, m));
    }
  }

  /** The second pass: flattens the modules in a parents-first order. */
  method Flatten<M(!new), D>(mods: map<M, seq<D>>, deps: map<M, seq<M>>, order: seq<M>)
    returns (resolved: map<M, seq<D>>)
    requires ParentsFirst(deps, order)
    requires forall i, j :: 0 <= i < j < |order| ==> order[i] != order[j]
    requires forall m :: m in order <==> m in Modules(mods, deps)
    ensures IsFlattening(mods, deps, resolved)
  {
    resolved := map[];
    for i := 0 to |order|
      invariant forall m :: m in resolved <==> m in order[..i]
      invariant forall m {:trigger FlattensAt(mods, deps, resolved, m)} ::
                  m in resolved ==> FlattensAt(mods, deps, resolved, m)
    {
      var mod := order[i];
      ghost var before := resolved;
      assert mod !in order[..i];
      assert order[..i + 1] == order[..i] + [mod];
      resolved := AppendParents(resolved, mod, OwnItems(mods, mod), Parents(deps, mod));
      FlattensAtGrows(mods, deps, before, mod, resolved);
    }
    assert order[..|order|] == order;
  }

  /** One round over the graph. Go ranges over a map in an arbitrary order while deleting the key
      it stands on, so the round picks any key it has not visited yet; a key may have become a
      leaf earlier in the same round. */
  method StripRound<M(!new), D>(
    ghost mods: map<M, seq<D>>, ghost deps: map<M, seq<M>>, start: map<M, set<M>>, resolvedMods: seq<M>)
    returns (hasResolved: bool, graph: map<M, set<M>>, done: seq<M>)
    requires Stripped(mods, deps, start, resolvedMods)
    ensures Stripped(mods, deps, graph, done)
    ensures hasResolved ==> |graph| < |start|
    ensures !hasResolved ==> graph == start && done == resolvedMods && forall m :: m in graph ==> graph[m] != {}
  {
    hasResolved, graph, done := false, start, resolvedMods;
    var unvisited := graph.Keys;
    while unvisited != {}
      invariant unvisited <= graph.Keys
      invariant Stripped(mods, deps, graph, done)
      invariant !hasResolved ==> graph == start && done == resolvedMods
      invariant !hasResolved ==> forall m :: m in graph && m !in unvisited ==> graph[m] != {}
      invariant if hasResolved then |graph| < |start| else |graph| == |start|
      decreases unvisited
    {
      var mod :| mod in unvisited;
      unvisited := unvisited - {mod};
      if graph[mod] != {} {
        continue;
      }
      hasResolved := true;
      var smaller := StrikeOut(graph - {mod}, mod);
      assert |graph.Keys - {mod}| == |graph.Keys| - 1;
      StripOne(mods, deps, graph, done, mod, smaller);
      graph, done := smaller, done + [mod];
    }
  }

  method ResolveDependants<M(!new), D(!new)>(mods: map<M, seq<D>>, deps: map<M, seq<M>>)
    returns (result: Result<map<M, seq<D>>, ResolveError>)
    ensures result.Ok? <==> !HasCycle(deps) && !NamesUndefinedParent(mods, deps)
    ensures result.Ok? ==> IsFlattening(mods, deps, result.value) && Promised(mods, deps, result.value)
  {
    var graph := Seed(mods, deps);
    var done: seq<M> := [];
    while |graph| > 0
      invariant Stripped(mods, deps, graph, done)
      decreases |graph|
    {
      var hasResolved;
      hasResolved, graph, done := StripRound(mods, deps, graph, done);
      if !hasResolved {
        NothingToStrip(mods, deps, graph, done);
        return Err(CircularDependency);
      }
    }
    assert graph.Keys == {};
    OrderedMeansNoCycle(mods, deps, done);
    var resolved := Flatten(mods, deps, done);
    FlatteningIsPromised(mods, deps, resolved);
    return Ok(resolved);
  }

  // ---------------------------------------------------------------------------------------
  // What the result is.

  /** The pick order does not matter: at most one map is a flattening. */
  lemma Confluence<M(!new), D>(
    mods: map<M, seq<D>>, deps: map<M, seq<M>>, first: map<M, seq<D>>, second: map<M, seq<D>>)
    requires !HasCycle(deps)
    requires IsFlattening(mods, deps, first) && IsFlattening(mods, deps, second)
    ensures first == second
  {
    var differ := set m | m in first && first[m] != second[m];
    if differ != {} {
      forall m | m in differ ensures HasParentIn(deps, m, differ) {
        assert FlattensAt(mods, deps, first, m) && FlattensAt(mods, deps, second, m);
        if forall p :: p in Parents(deps, m) ==> p !in differ {
          GatherFrame(first, second, Parents(deps, m));
        }
      }
      StuckMeansCycle(deps, differ);
    }
    forall m | m in first ensures m in second && first[m] == second[m] {
      assert m !in differ;
    }
  }

  /** The module reaches, through zero or more parent edges, a module that lists the item. */
  ghost predicate Reaches<M(!new), D>(mods: map<M, seq<D>>, deps: map<M, seq<M>>, m: M, item: D) {
    exists path :: Leads(mods, deps, path, m, item)
  }

  /** The path leads from the module to one that lists the item. */
  ghost predicate Leads<M, D>(mods: map<M, seq<D>>, deps: map<M, seq<M>>, path: seq<M>, m: M, item: D) {
    && IsPath(deps, path) && path[0] == m
    && path[|path| - 1] in mods && item in mods[path[|path| - 1]]
  }

  lemma {:induction false} GatherMembers<M, D>(resolved: map<M, seq<D>>, listed: seq<M>, item: D)
    requires forall p :: p in listed ==> p in resolved
    ensures item in Gather(resolved, listed) <==> exists p :: p in listed && item in resolved[p]
  {
    if listed != [] {
      var last := |listed| - 1;
      assert listed == listed[..last] + [listed[last]];
      GatherMembers(resolved, listed[..last], item);
    }
  }

  lemma ReachesOwn<M(!new), D>(mods: map<M, seq<D>>, deps: map<M, seq<M>>, m: M, item: D)
    requires m in mods && item in mods[m]
    ensures Reaches(mods, deps, m, item)
  {
    assert Leads(mods, deps, [m], m, item);
  }

  lemma ReachesThroughParent<M(!new), D>(mods: map<M, seq<D>>, deps: map<M, seq<M>>, m: M, p: M, item: D)
    requires p in Parents(deps, m) && Reaches(mods, deps, p, item)
    ensures Reaches(mods, deps, m, item)
  {
    var path :| Leads(mods, deps, path, p, item);
    var longer := [m] + path;
    forall k | 0 < k < |longer| ensures IsEdge(deps, longer[k - 1], longer[k]) {
      assert k > 1 ==> IsEdge(deps, path[k - 2], path[k - 1]);
    }
    assert Leads(mods, deps, longer, m, item);
  }

  lemma {:induction false} PathCarriesItems<M(!new), D>(
    mods: map<M, seq<D>>, deps: map<M, seq<M>>, resolved: map<M, seq<D>>, path: seq<M>, item: D)
    requires IsFlattening(mods, deps, resolved)
    requires path != [] && path[0] in resolved && Leads(mods, deps, path, path[0], item)
    ensures item in resolved[path[0]]
    decreases |path|
  {
    assert FlattensAt(mods, deps, resolved, path[0]);
    if |path| > 1 {
      assert IsEdge(deps, path[0], path[1]) && path[1] in Parents(deps, path[0]);
      var tail := path[1..];
      forall k | 0 < k < |tail| ensures IsEdge(deps, tail[k - 1], tail[k]) {
        assert IsEdge(deps, path[k], path[k + 1]);
      }
      PathCarriesItems(mods, deps, resolved, tail, item);
      GatherMembers(resolved, Parents(deps, path[0]), item);
    }
  }

  /** The entry is the given items followed by the entries of the listed modules, one after the
      other: `at` says where each of them starts and where the last one ends. */
  ghost predicate LaidOut<M, D>(resolved: map<M, seq<D>>, own: seq<D>, listed: seq<M>, entry: seq<D>, at: seq<nat>) {
    && |at| == |listed| + 1
    && at[0] == |own| && at[|listed|] == |entry| && own <= entry
    && forall i :: 0 <= i < |listed| ==>
         listed[i] in resolved && IsSlice(entry, at[i], at[i + 1], resolved[listed[i]])
  }

  ghost predicate IsSlice<D>(whole: seq<D>, from: nat, to: nat, part: seq<D>) {
    from <= to <= |whole| && whole[from..to] == part
  }

  ghost predicate IsLaidOut<M, D>(resolved: map<M, seq<D>>, own: seq<D>, listed: seq<M>, entry: seq<D>) {
    exists at :: LaidOut(resolved, own, listed, entry, at)
  }

  lemma {:induction false} GatherIsLaidOut<M, D>(resolved: map<M, seq<D>>, own: seq<D>, listed: seq<M>)
    returns (at: seq<nat>)
    requires forall p :: p in listed ==> p in resolved
    ensures LaidOut(resolved, own, listed, own + Gather(resolved, listed), at)
  {
    if listed == [] {
      at := [|own|];
    } else {
      var last := |listed| - 1;
      var before := GatherIsLaidOut(resolved, own, listed[..last]);
      var shorter, entry := own + Gather(resolved, listed[..last]), own + Gather(resolved, listed);
      at := before + [|entry|];
      assert entry == shorter + resolved[listed[last]];
      forall i | 0 <= i < last ensures IsSlice(entry, at[i], at[i + 1], resolved[listed[i]]) {
        assert listed[..last][i] == listed[i];
        assert IsSlice(shorter, before[i], before[i + 1], resolved[listed[i]]);
      }
      assert IsSlice(entry, at[last], at[last + 1], resolved[listed[last]]);
    }
  }

  /** The promise of the resolver, with no word of how it is computed: the keys of both inputs, each
      entry laid out from the module's own items and its listed parents' entries in listed order, and
      an item in an entry exactly if a path of parents leads to a module that lists it. */
  ghost predicate Promised<M(!new), D(!new)>(mods: map<M, seq<D>>, deps: map<M, seq<M>>, resolved: map<M, seq<D>>) {
    && resolved.Keys == mods.Keys + deps.Keys
    && (forall m :: m in resolved ==>
          IsLaidOut(resolved, if m in mods then mods[m] else [], if m in deps then deps[m] else [], resolved[m]))
    && (forall m :: m in mods ==> mods[m] <= resolved[m])
    && (forall m, item {:trigger Reaches(mods, deps, m, item)} ::
          m in resolved ==> (item in resolved[m] <==> Reaches(mods, deps, m, item)))
  }

  lemma FlatteningIsPromised<M(!new), D(!new)>(mods: map<M, seq<D>>, deps: map<M, seq<M>>, resolved: map<M, seq<D>>)
    requires !HasCycle(deps) && IsFlattening(mods, deps, resolved)
    ensures Promised(mods, deps, resolved)
  {
    forall m | m in resolved
      ensures IsLaidOut(resolved, if m in mods then mods[m] else [], if m in deps then deps[m] else [], resolved[m])
    {
      assert FlattensAt(mods, deps, resolved, m);
      var at := GatherIsLaidOut(resolved, OwnItems(mods, m), Parents(deps, m));
      assert LaidOut(resolved, if m in mods then mods[m] else [], if m in deps then deps[m] else [], resolved[m], at);
    }
    forall m | m in mods ensures mods[m] <= resolved[m] {
      assert FlattensAt(mods, deps, resolved, m);
    }
    forall m, item | m in resolved ensures item in resolved[m] <==> Reaches(mods, deps, m, item) {
      FlatteningIsReachability(mods, deps, resolved, m, item);
    }
  }

  /** Membership in the flattened entry is reachability in the inheritance graph. */
  lemma FlatteningIsReachability<M(!new), D(!new)>(
    mods: map<M, seq<D>>, deps: map<M, seq<M>>, resolved: map<M, seq<D>>, m: M, item: D)
    requires !HasCycle(deps) && IsFlattening(mods, deps, resolved)
    requires m in resolved
    ensures item in resolved[m] <==> Reaches(mods, deps, m, item)
  {
    if Reaches(mods, deps, m, item) {
      var path :| Leads(mods, deps, path, m, item);
      PathCarriesItems(mods, deps, resolved, path, item);
    }
    var unexplained := set n | n in resolved && item in resolved[n] && !Reaches(mods, deps, n, item);
    if unexplained != {} {
      forall n | n in unexplained ensures HasParentIn(deps, n, unexplained) {
        assert FlattensAt(mods, deps, resolved, n);
        if n in mods && item in mods[n] { ReachesOwn(mods, deps, n, item); }
        GatherMembers(resolved, Parents(deps, n), item);
        var p :| p in Parents(deps, n) && item in resolved[p];
        if Reaches(mods, deps, p, item) { ReachesThroughParent(mods, deps, n, p, item); }
      }
      StuckMeansCycle(deps, unexplained);
    }
    assert m !in unexplained;
  }
}
