/** The bounded walk over a package's dependency closure
    (platform/backend/app/sandbox/package_size.py).

    `asyncio.gather` runs the children of a node concurrently, all sharing one
    set of visited names. A task here is one call frame of the walk; a schedule
    says which frame moves next, and everything is proved for every schedule.
    Between two moves of a frame lies an `await`. */
module PackageClosure {
  import opened Wrappers
  import opened SetSums

  const CLOSURE_MAX_NODES := 60
  const CLOSURE_MAX_DEPTH := 4
  const NPM_UNPACKED_SIZE_LIMIT_BYTES := 60 * 1024 * 1024
  const PYPI_DEPENDENCY_LIMIT := 40

  /** A dependency as requested: its name and the cleaned version spec. */
  datatype Package = Package(name: string, spec: string)

  /** What the registry answers: absent metadata gives no size and no edges.
      For npm the weight is the unpacked size in bytes; for PyPI every visited
      name weighs one, with or without metadata. */
  datatype Registry = Registry(weight: Package -> nat, dependencies: Package -> seq<Package>)

  datatype Task =
    | Start(package: Package, depth: nat)
    | Fetching(package: Package, depth: nat)
    | Waiting(added: nat, children: seq<Task>)
    | Done(added: nat)

  /** The accumulator all frames share; `visited` lists the packages behind
      `nodes` in the order they were entered. */
  datatype Stats = Stats(nodes: set<string>, totalWeight: nat, visited: seq<Package>)

  const EMPTY_STATS := Stats({}, 0, [])

  // ---- one move -----------------------------------------------------------

  /** From entry to the first await. */
  function Enter(t: Task, stats: Stats): (Task, Stats)
    requires t.Start?
  {
    if t.depth > CLOSURE_MAX_DEPTH || |stats.nodes| >= CLOSURE_MAX_NODES then (Done(0), stats)
    else if t.package.name in stats.nodes then (Done(0), stats)
    else (Fetching(t.package, t.depth),
          stats.(nodes := stats.nodes + {t.package.name}, visited := stats.visited + [t.package]))
  }

  function Truncated(s: seq<Package>, n: int): (r: seq<Package>)
    ensures |r| <= |s| && (n >= 0 ==> |r| <= n)
    ensures r == s[..|r|]
  {
    if n <= 0 then [] else if |s| <= n then s else s[..n]
  }

  /** From the arrival of the metadata to the gather: the weight is counted,
      and as many children start as there is room for by then. */
  function Arrive(reg: Registry, t: Task, stats: Stats): (Task, Stats)
    requires t.Fetching?
  {
    var weight := reg.weight(t.package);
    var names := Truncated(reg.dependencies(t.package), CLOSURE_MAX_NODES - |stats.nodes|);
    (Waiting(weight, seq(|names|, i requires 0 <= i < |names| => Start(names[i], t.depth + 1))),
     stats.(totalWeight := stats.totalWeight + weight))
  }

  function Results(children: seq<Task>): nat {
    if children == [] then 0 else Value(children[0]) + Results(children[1..])
  }

  /** What a frame has added so far, its children included. */
  function Value(t: Task): nat {
    match t
    case Start(_, _) => 0
    case Fetching(_, _) => 0
    case Waiting(added, children) => added + Results(children)
    case Done(added) => added
  }

  predicate AllDone(children: seq<Task>) {
    forall i :: 0 <= i < |children| ==> children[i].Done?
  }

  /** Some frame of the tree moves: the one at the end of the path. A path that
      leads nowhere, or to a finished frame, changes nothing. */
  function Move(reg: Registry, t: Task, path: seq<nat>, stats: Stats): (Task, Stats)
    decreases t
  {
    match t
    case Start(_, _) => Enter(t, stats)
    case Fetching(_, _) => Arrive(reg, t, stats)
    case Done(_) => (t, stats)
    case Waiting(added, children) =>
      if AllDone(children) then (Done(added + Results(children)), stats)
      else if path == [] || path[0] >= |children| then (t, stats)
      else
        var (child, after) := Move(reg, children[path[0]], path[1..], stats);
        (Waiting(added, children[path[0] := child]), after)
  }

  function Walk(reg: Registry, root: Package, schedule: seq<seq<nat>>): (Task, Stats) {
    if schedule == [] then (Start(root, 0), EMPTY_STATS)
    else
      var n := |schedule| - 1;
      var (t, stats) := Walk(reg, root, schedule[..n]);
      Move(reg, t, schedule[n], stats)
  }

  // ---- invariants of every schedule ---------------------------------------

  /** Reachable from the root over at most this many dependency edges. */
  ghost predicate Within(reg: Registry, root: Package, p: Package, depth: nat)
    decreases depth
  {
    if depth == 0 then p == root
    else exists q :: Within(reg, root, q, depth - 1) && p in reg.dependencies(q)
  }

  /** Every unfinished frame stands for a package at its depth. */
  ghost predicate Rooted(reg: Registry, root: Package, t: Task)
    decreases t
  {
    match t
    case Start(p, depth) => depth <= CLOSURE_MAX_DEPTH + 1 && Within(reg, root, p, depth)
    case Fetching(p, depth) => depth <= CLOSURE_MAX_DEPTH && Within(reg, root, p, depth)
    case Done(_) => true
    case Waiting(_, children) => forall i :: 0 <= i < |children| ==> Rooted(reg, root, children[i])
  }

  /** The weight of the packages whose metadata some frame is fetching. */
  function InFlight(reg: Registry, t: Task): nat
    decreases t, 0
  {
    match t
    case Fetching(p, _) => reg.weight(p)
    case Waiting(_, children) => InFlightAll(reg, children)
    case _ => 0
  }

  function InFlightAll(reg: Registry, children: seq<Task>): nat
    decreases children, 1
  {
    if children == [] then 0 else InFlight(reg, children[0]) + InFlightAll(reg, children[1..])
  }

  function Names(ps: seq<Package>): set<string> {
    set p | p in ps :: p.name
  }

  predicate DistinctNames(ps: seq<Package>) {
    forall i, j :: 0 <= i < j < |ps| ==> ps[i].name != ps[j].name
  }

  function SumWeights(reg: Registry, ps: seq<Package>): nat {
    if ps == [] then 0 else SumWeights(reg, ps[..|ps| - 1]) + reg.weight(ps[|ps| - 1])
  }

  ghost predicate Shallow(reg: Registry, root: Package, p: Package) {
    exists d: nat :: d <= 4 && Within(reg, root, p, d)
  }

  /** The shared part: at most sixty names, each visited once and within four
      edges of the root. */
  ghost predicate StatsOk(reg: Registry, root: Package, stats: Stats) {
    && |stats.nodes| <= 60
    && stats.nodes == Names(stats.visited)
    && DistinctNames(stats.visited)
    && forall p :: p in stats.visited ==> Shallow(reg, root, p)
  }

  lemma ResultsUpdate(children: seq<Task>, i: nat, child: Task)
    requires i < |children|
    ensures Results(children[i := child]) + Value(children[i]) == Results(children) + Value(child)
  {
    if i == 0 {
      assert children[i := child][1..] == children[1..];
    } else {
      ResultsUpdate(children[1..], i - 1, child);
      assert children[i := child][1..] == children[1..][i - 1 := child];
    }
  }

  lemma InFlightUpdate(reg: Registry, children: seq<Task>, i: nat, child: Task)
    requires i < |children|
    ensures InFlightAll(reg, children[i := child]) + InFlight(reg, children[i])
            == InFlightAll(reg, children) + InFlight(reg, child)
  {
    if i == 0 {
      assert children[i := child][1..] == children[1..];
    } else {
      InFlightUpdate(reg, children[1..], i - 1, child);
      assert children[i := child][1..] == children[1..][i - 1 := child];
    }
  }

  lemma ResultsOfStarts(reg: Registry, children: seq<Task>)
    requires forall i :: 0 <= i < |children| ==> children[i].Start?
    ensures Results(children) == 0 && InFlightAll(reg, children) == 0
  {
    if children != [] {
      ResultsOfStarts(reg, children[1..]);
    }
  }

  lemma InFlightOfDone(reg: Registry, children: seq<Task>)
    requires AllDone(children)
    ensures InFlightAll(reg, children) == 0
  {
    if children != [] {
      InFlightOfDone(reg, children[1..]);
    }
  }

  lemma SumWeightsAppend(reg: Registry, ps: seq<Package>, p: Package)
    ensures SumWeights(reg, ps + [p]) == SumWeights(reg, ps) + reg.weight(p)
  {
    assert (ps + [p])[..|ps|] == ps;
  }

  lemma NamesAppend(ps: seq<Package>, p: Package)
    ensures Names(ps + [p]) == Names(ps) + {p.name}
  {
    assert forall q :: q in ps + [p] <==> q in ps || q == p;
  }

  /** What a move adds to a frame it adds to the shared total; and what it
      enters as visited is either in flight afterwards or in the total. */
  lemma {:induction false} MoveConserves(reg: Registry, t: Task, path: seq<nat>, stats: Stats)
    ensures var (after, stats') := Move(reg, t, path, stats);
            && Value(after) + stats.totalWeight == Value(t) + stats'.totalWeight
            && InFlight(reg, after) + stats'.totalWeight + SumWeights(reg, stats.visited)
               == InFlight(reg, t) + stats.totalWeight + SumWeights(reg, stats'.visited)
    decreases t
  {
    match t
    case Start(p, _) => SumWeightsAppend(reg, stats.visited, p);
    case Fetching(p, depth) =>
      var (after, stats') := Arrive(reg, t, stats);
      ResultsOfStarts(reg, after.children);
    case Done(_) =>
    case Waiting(added, children) =>
      if AllDone(children) {
        InFlightOfDone(reg, children);
      } else if path != [] && path[0] < |children| {
        var (child, _) := Move(reg, children[path[0]], path[1..], stats);
        MoveConserves(reg, children[path[0]], path[1..], stats);
        ResultsUpdate(children, path[0], child);
        InFlightUpdate(reg, children, path[0], child);
      }
  }

  lemma DistinctAppend(ps: seq<Package>, p: Package)
    requires DistinctNames(ps) && p.name !in Names(ps)
    ensures DistinctNames(ps + [p])
  {
    assert forall i :: 0 <= i < |ps| ==> ps[i].name in Names(ps);
  }

  lemma EnterKeeps(reg: Registry, root: Package, t: Task, stats: Stats)
    requires t.Start? && Rooted(reg, root, t) && StatsOk(reg, root, stats)
    ensures Rooted(reg, root, Enter(t, stats).0) && StatsOk(reg, root, Enter(t, stats).1)
  {
    hide Within, Names, DistinctNames;
    var stats' := Enter(t, stats).1;
    if stats' != stats {
      NamesAppend(stats.visited, t.package);
      DistinctAppend(stats.visited, t.package);
      assert t.depth <= CLOSURE_MAX_DEPTH && Within(reg, root, t.package, t.depth);
      assert Shallow(reg, root, t.package);
    }
  }

  lemma OneEdgeFurther(reg: Registry, root: Package, p: Package, q: Package, depth: nat)
    requires Within(reg, root, p, depth) && q in reg.dependencies(p)
    ensures Within(reg, root, q, depth + 1)
  {
  }

  lemma ArriveKeeps(reg: Registry, root: Package, t: Task, stats: Stats)
    requires t.Fetching? && Rooted(reg, root, t) && StatsOk(reg, root, stats)
    ensures Rooted(reg, root, Arrive(reg, t, stats).0) && StatsOk(reg, root, Arrive(reg, t, stats).1)
  {
    hide Within, Names, DistinctNames, Shallow;
    var names := Truncated(reg.dependencies(t.package), CLOSURE_MAX_NODES - |stats.nodes|);
    forall i | 0 <= i < |names| ensures Within(reg, root, names[i], t.depth + 1) {
      assert names[i] == reg.dependencies(t.package)[i];
      OneEdgeFurther(reg, root, t.package, names[i], t.depth);
    }
  }

  lemma {:induction false} MoveKeeps(reg: Registry, root: Package, t: Task, path: seq<nat>, stats: Stats)
    requires Rooted(reg, root, t) && StatsOk(reg, root, stats)
    ensures Rooted(reg, root, Move(reg, t, path, stats).0) && StatsOk(reg, root, Move(reg, t, path, stats).1)
    decreases t
  {
    match t
    case Start(_, _) => EnterKeeps(reg, root, t, stats);
    case Fetching(_, _) => ArriveKeeps(reg, root, t, stats);
    case Done(_) =>
    case Waiting(added, children) =>
      if !AllDone(children) && path != [] && path[0] < |children| {
        MoveKeeps(reg, root, children[path[0]], path[1..], stats);
      }
  }

  /** Under every schedule: the invariant of the shared state, the running
      result equal to the shared total, and every visited package either in
      that total or still in flight. */
  lemma {:induction false} WalkInvariant(reg: Registry, root: Package, schedule: seq<seq<nat>>)
    ensures var (t, stats) := Walk(reg, root, schedule);
            && Rooted(reg, root, t) && StatsOk(reg, root, stats)
            && Value(t) == stats.totalWeight
            && SumWeights(reg, stats.visited) == stats.totalWeight + InFlight(reg, t)
    decreases |schedule|
  {
    if schedule != [] {
      var n := |schedule| - 1;
      WalkInvariant(reg, root, schedule[..n]);
      var (t, stats) := Walk(reg, root, schedule[..n]);
      MoveKeeps(reg, root, t, schedule[n], stats);
      MoveConserves(reg, t, schedule[n], stats);
    }
  }

  // ---- the result ---------------------------------------------------------

  /** When the walk returns, its result is the sum over the visited packages,
      each name counted once, at most sixty of them, all within four edges of
      the root: whatever the interleaving, with cycles and diamonds. */
  lemma FinishedWalk(reg: Registry, root: Package, schedule: seq<seq<nat>>)
    requires Walk(reg, root, schedule).0.Done?
    ensures var (t, stats) := Walk(reg, root, schedule);
            && t.added == SumWeights(reg, stats.visited)
            && DistinctNames(stats.visited) && |stats.visited| <= 60
            && |stats.nodes| == |stats.visited| && stats.nodes == Names(stats.visited)
            && (forall p :: p in stats.visited ==> Shallow(reg, root, p))
  {
    WalkInvariant(reg, root, schedule);
    var (t, stats) := Walk(reg, root, schedule);
    NamesSize(stats.visited);
  }

  lemma NamesSize(ps: seq<Package>)
    requires DistinctNames(ps)
    ensures |Names(ps)| == |ps|
  {
    if ps != [] {
      var n := |ps| - 1;
      NamesSize(ps[..n]);
      assert ps == ps[..n] + [ps[n]];
      NamesAppend(ps[..n], ps[n]);
    }
  }

  /** A set of packages that holds the root and all that its members require. */
  predicate ClosedFrom(reg: Registry, root: Package, closure: set<Package>) {
    root in closure && forall p :: p in closure ==> forall q :: q in reg.dependencies(p) ==> q in closure
  }

  lemma {:induction false} ClosureHolds(reg: Registry, root: Package, closure: set<Package>, p: Package, depth: nat)
    requires ClosedFrom(reg, root, closure) && Within(reg, root, p, depth)
    ensures p in closure
    decreases depth
  {
    if depth > 0 {
      var q :| Within(reg, root, q, depth - 1) && p in reg.dependencies(q);
      ClosureHolds(reg, root, closure, q, depth - 1);
    }
  }

  lemma SumWeightsIsSetSum(reg: Registry, ps: seq<Package>)
    requires DistinctNames(ps)
    ensures SumWeights(reg, ps) == SumOver((set p | p in ps), reg.weight)
  {
    if ps != [] {
      var n := |ps| - 1;
      SumWeightsIsSetSum(reg, ps[..n]);
      assert ps == ps[..n] + [ps[n]];
      assert ps[n] !in ps[..n];
      var all := set p | p in ps;
      hide SumOver, DistinctNames;
      SumTake(all, reg.weight, ps[n]);
      assert all - {ps[n]} == (set p | p in ps[..n]);
    } else {
      assert (set p | p in ps) == {};
    }
  }

  /** The caps only ever undercount: whatever the interleaving, the result is
      at most the weight of any closed set of packages around the root, so of
      the true closure. */
  lemma NeverOvercounts(reg: Registry, root: Package, schedule: seq<seq<nat>>, closure: set<Package>)
    requires Walk(reg, root, schedule).0.Done?
    requires ClosedFrom(reg, root, closure)
    ensures Walk(reg, root, schedule).0.added <= SumOver(closure, reg.weight)
  {
    FinishedWalk(reg, root, schedule);
    VisitedInClosure(reg, root, closure, schedule);
    var visited := Walk(reg, root, schedule).1.visited;
    SumWeightsIsSetSum(reg, visited);
    SumSubset((set p | p in visited), closure, reg.weight);
  }

  // ---- exactness below the caps -------------------------------------------

  /** A chain of dependencies from the root that meets no package twice. */
  ghost predicate SimplePath(reg: Registry, root: Package, path: seq<Package>) {
    && path != [] && path[0] == root
    && (forall i :: 0 < i < |path| ==> path[i] in reg.dependencies(path[i - 1]))
    && forall i, j :: 0 <= i < j < |path| ==> path[i] != path[j]
  }

  /** Below every cap: a closed set with room to spare, one version spec per
      name, and no simple path of five dependency edges. Cycles are allowed. */
  ghost predicate BelowCaps(reg: Registry, root: Package, closure: set<Package>) {
    && ClosedFrom(reg, root, closure)
    && |closure| < 60
    && (forall p :: p in closure ==> |reg.dependencies(p)| + |closure| <= 60)
    && (forall p, q :: p in closure && q in closure && p.name == q.name ==> p == q)
    && forall path :: SimplePath(reg, root, path) ==> |path| <= 5
  }

  /** Some frame of the tree is yet to enter this package. */
  predicate Pending(t: Task, p: Package)
    decreases t
  {
    match t
    case Start(q, _) => p == q
    case Waiting(_, children) => exists i :: 0 <= i < |children| && Pending(children[i], p)
    case _ => false
  }

  /** Some frame of the tree is fetching this package. */
  predicate Flying(t: Task, p: Package)
    decreases t
  {
    match t
    case Fetching(q, _) => p == q
    case Waiting(_, children) => exists i :: 0 <= i < |children| && Flying(children[i], p)
    case _ => false
  }

  /** A package being visited is being fetched, or each of its dependencies is
      visited or about to be. */
  ghost predicate Covered(reg: Registry, t: Task, stats: Stats, p: Package) {
    Flying(t, p) || forall q :: q in reg.dependencies(p) ==> q in stats.visited || Pending(t, q)
  }

  ghost predicate InClosure(closure: set<Package>, stats: Stats) {
    && stats.nodes == Names(stats.visited) && |stats.nodes| <= |closure|
    && forall p :: p in stats.visited ==> p in closure
  }

  predicate AllIn(path: seq<Package>, visited: seq<Package>) {
    forall i :: 0 <= i < |path| ==> path[i] in visited
  }

  /** A frame for `p` at this depth was reached over visited packages, none of
      them twice. */
  ghost predicate Reached(reg: Registry, root: Package, p: Package, depth: nat, visited: seq<Package>) {
    if depth == 0 then p == root
    else exists trail :: && SimplePath(reg, root, trail) && |trail| == depth && AllIn(trail, visited)
                         && p in reg.dependencies(trail[depth - 1])
  }

  ghost predicate Entered(reg: Registry, root: Package, p: Package, depth: nat, visited: seq<Package>) {
    exists trail :: && SimplePath(reg, root, trail) && |trail| == depth + 1 && AllIn(trail, visited)
                    && trail[depth] == p
  }

  ghost predicate Threaded(reg: Registry, root: Package, t: Task, visited: seq<Package>)
    decreases t
  {
    match t
    case Start(p, depth) => Reached(reg, root, p, depth, visited)
    case Fetching(p, depth) => Entered(reg, root, p, depth, visited)
    case Done(_) => true
    case Waiting(_, children) => forall i :: 0 <= i < |children| ==> Threaded(reg, root, children[i], visited)
  }

  lemma {:induction false} ThreadedGrows(reg: Registry, root: Package, t: Task, a: seq<Package>, b: seq<Package>)
    requires Threaded(reg, root, t, a) && forall p :: p in a ==> p in b
    ensures Threaded(reg, root, t, b)
    decreases t
  {
    match t
    case Start(p, depth) =>
      if depth > 0 {
        var trail :| && SimplePath(reg, root, trail) && |trail| == depth && AllIn(trail, a)
                     && p in reg.dependencies(trail[depth - 1]);
        assert AllIn(trail, b);
      }
    case Fetching(p, depth) =>
      var trail :| SimplePath(reg, root, trail) && |trail| == depth + 1 && AllIn(trail, a) && trail[depth] == p;
      assert AllIn(trail, b);
    case Done(_) =>
    case Waiting(_, children) =>
      forall i | 0 <= i < |children| ensures Threaded(reg, root, children[i], b) {
        ThreadedGrows(reg, root, children[i], a, b);
      }
  }

  lemma ExtendPath(reg: Registry, root: Package, path: seq<Package>, p: Package)
    requires SimplePath(reg, root, path) && p !in path && p in reg.dependencies(path[|path| - 1])
    ensures SimplePath(reg, root, path + [p])
  {
  }

  lemma EnterThreads(reg: Registry, root: Package, t: Task, stats: Stats)
    requires t.Start? && Threaded(reg, root, t, stats.visited) && stats.nodes == Names(stats.visited)
    ensures Threaded(reg, root, Enter(t, stats).0, Enter(t, stats).1.visited)
  {
    var p, after := t.package, Enter(t, stats).1.visited;
    if after != stats.visited {
      if t.depth == 0 {
        var trail := [p];
        assert SimplePath(reg, root, trail) && AllIn(trail, after) && trail[0] == p;
      } else {
        var trail :| && SimplePath(reg, root, trail) && |trail| == t.depth && AllIn(trail, stats.visited)
                     && p in reg.dependencies(trail[t.depth - 1]);
        assert p !in stats.visited;
        ExtendPath(reg, root, trail, p);
        assert AllIn(trail + [p], after) && (trail + [p])[t.depth] == p;
      }
    }
  }

  lemma ArriveThreads(reg: Registry, root: Package, t: Task, stats: Stats)
    requires t.Fetching? && Threaded(reg, root, t, stats.visited)
    ensures Threaded(reg, root, Arrive(reg, t, stats).0, Arrive(reg, t, stats).1.visited)
  {
    var trail :| && SimplePath(reg, root, trail) && |trail| == t.depth + 1 && AllIn(trail, stats.visited)
                 && trail[t.depth] == t.package;
    hide SimplePath, AllIn;
    var children := Arrive(reg, t, stats).0.children;
    forall i | 0 <= i < |children| ensures Threaded(reg, root, children[i], stats.visited) {
      assert children[i].package == reg.dependencies(t.package)[i];
      assert SimplePath(reg, root, trail) && |trail| == children[i].depth;
    }
  }

  lemma {:induction false} MoveThreads(reg: Registry, root: Package, t: Task, path: seq<nat>, stats: Stats)
    requires Threaded(reg, root, t, stats.visited) && stats.nodes == Names(stats.visited)
    ensures Threaded(reg, root, Move(reg, t, path, stats).0, Move(reg, t, path, stats).1.visited)
    decreases t
  {
    hide Reached, Entered, Names;
    match t
    case Start(_, _) => EnterThreads(reg, root, t, stats);
    case Fetching(_, _) => ArriveThreads(reg, root, t, stats);
    case Done(_) =>
    case Waiting(added, children) =>
      if !AllDone(children) && path != [] && path[0] < |children| {
        var (child, after) := Move(reg, children[path[0]], path[1..], stats);
        MoveThreads(reg, root, children[path[0]], path[1..], stats);
        MoveVisits(reg, children[path[0]], path[1..], stats);
        var updated := children[path[0] := child];
        forall i | 0 <= i < |updated| ensures Threaded(reg, root, updated[i], after.visited) {
          if i != path[0] {
            ThreadedGrows(reg, root, children[i], stats.visited, after.visited);
          }
        }
      }
  }

  lemma MoveVisits(reg: Registry, t: Task, path: seq<nat>, stats: Stats)
    ensures forall p :: p in stats.visited ==> p in Move(reg, t, path, stats).1.visited
  {
    forall p | p in stats.visited ensures p in Move(reg, t, path, stats).1.visited {
      EnteredFlies(reg, t, path, stats, p);
    }
  }

  lemma {:induction false} WalkThreaded(reg: Registry, root: Package, schedule: seq<seq<nat>>)
    ensures var (t, stats) := Walk(reg, root, schedule); Threaded(reg, root, t, stats.visited)
    decreases |schedule|
  {
    if schedule != [] {
      var n := |schedule| - 1;
      WalkThreaded(reg, root, schedule[..n]);
      WalkInvariant(reg, root, schedule[..n]);
      var (t, stats) := Walk(reg, root, schedule[..n]);
      hide Threaded;
      MoveThreads(reg, root, t, schedule[n], stats);
    }
  }

  /** A frame beyond the depth cap stands for a package visited already. */
  lemma TooDeepIsVisited(reg: Registry, root: Package, closure: set<Package>, p: Package, visited: seq<Package>)
    requires BelowCaps(reg, root, closure) && Reached(reg, root, p, CLOSURE_MAX_DEPTH + 1, visited)
    ensures p in visited
  {
    var trail :| && SimplePath(reg, root, trail) && |trail| == CLOSURE_MAX_DEPTH + 1 && AllIn(trail, visited)
                 && p in reg.dependencies(trail[CLOSURE_MAX_DEPTH]);
    if p !in trail {
      ExtendPath(reg, root, trail, p);
    }
  }

  lemma {:induction false} PendingMoves(reg: Registry, root: Package, closure: set<Package>, t: Task,
                                        path: seq<nat>, stats: Stats, q: Package)
    requires BelowCaps(reg, root, closure) && Rooted(reg, root, t) && InClosure(closure, stats)
    requires Threaded(reg, root, t, stats.visited)
    requires Pending(t, q)
    ensures var (after, stats') := Move(reg, t, path, stats); Pending(after, q) || q in stats'.visited
    decreases t
  {
    match t
    case Start(p, depth) =>
      ClosureHolds(reg, root, closure, p, depth);
      if depth > CLOSURE_MAX_DEPTH {
        TooDeepIsVisited(reg, root, closure, p, stats.visited);
      }
      if p.name in stats.nodes {
        var r :| r in stats.visited && r.name == p.name;
      }
    case Waiting(added, children) =>
      var i :| 0 <= i < |children| && Pending(children[i], q);
      if !AllDone(children) && path != [] && path[0] < |children| {
        var child := Move(reg, children[path[0]], path[1..], stats).0;
        if i == path[0] {
          PendingMoves(reg, root, closure, children[i], path[1..], stats, q);
          assert children[i := child][i] == child;
        } else {
          assert children[path[0] := child][i] == children[i];
        }
      }
  }

  lemma {:induction false} FlyingMoves(reg: Registry, root: Package, closure: set<Package>, t: Task,
                                       path: seq<nat>, stats: Stats, p: Package)
    requires BelowCaps(reg, root, closure) && Rooted(reg, root, t) && InClosure(closure, stats)
    requires Flying(t, p)
    ensures var (after, stats') := Move(reg, t, path, stats);
            Flying(after, p) || forall q :: q in reg.dependencies(p) ==> Pending(after, q)
    decreases t
  {
    match t
    case Fetching(_, depth) =>
      ClosureHolds(reg, root, closure, p, depth);
      var after := Arrive(reg, t, stats).0;
      forall q | q in reg.dependencies(p) ensures Pending(after, q) {
        var i :| 0 <= i < |reg.dependencies(p)| && reg.dependencies(p)[i] == q;
        assert Pending(after.children[i], q);
      }
    case Waiting(added, children) =>
      var i :| 0 <= i < |children| && Flying(children[i], p);
      if !AllDone(children) && path != [] && path[0] < |children| {
        var child := Move(reg, children[path[0]], path[1..], stats).0;
        if i == path[0] {
          FlyingMoves(reg, root, closure, children[i], path[1..], stats, p);
          assert children[i := child][i] == child;
        } else {
          assert children[path[0] := child][i] == children[i];
        }
      }
  }

  lemma {:induction false} EnteredFlies(reg: Registry, t: Task, path: seq<nat>, stats: Stats, p: Package)
    ensures var (after, stats') := Move(reg, t, path, stats);
            && (p in stats.visited ==> p in stats'.visited)
            && (p in stats'.visited ==> p in stats.visited || Flying(after, p))
    decreases t
  {
    match t
    case Waiting(added, children) =>
      if !AllDone(children) && path != [] && path[0] < |children| {
        var child := Move(reg, children[path[0]], path[1..], stats).0;
        EnteredFlies(reg, children[path[0]], path[1..], stats, p);
        assert children[path[0] := child][path[0]] == child;
      }
    case _ =>
  }

  lemma MoveCovers(reg: Registry, root: Package, closure: set<Package>, t: Task, path: seq<nat>, stats: Stats,
                   p: Package)
    requires BelowCaps(reg, root, closure) && Rooted(reg, root, t) && InClosure(closure, stats)
    requires Threaded(reg, root, t, stats.visited)
    requires p in stats.visited ==> Covered(reg, t, stats, p)
    requires p in Move(reg, t, path, stats).1.visited
    ensures var (after, stats') := Move(reg, t, path, stats); Covered(reg, after, stats', p)
  {
    EnteredFlies(reg, t, path, stats, p);
    if p in stats.visited {
      if Flying(t, p) {
        FlyingMoves(reg, root, closure, t, path, stats, p);
      } else {
        forall q | q in reg.dependencies(p)
          ensures q in Move(reg, t, path, stats).1.visited || Pending(Move(reg, t, path, stats).0, q)
        {
          EnteredFlies(reg, t, path, stats, q);
          if Pending(t, q) {
            PendingMoves(reg, root, closure, t, path, stats, q);
          }
        }
      }
    }
  }

  lemma VisitedInClosure(reg: Registry, root: Package, closure: set<Package>, schedule: seq<seq<nat>>)
    requires ClosedFrom(reg, root, closure)
    ensures InClosure(closure, Walk(reg, root, schedule).1)
  {
    WalkInvariant(reg, root, schedule);
    var stats := Walk(reg, root, schedule).1;
    forall p | p in stats.visited ensures p in closure {
      var d: nat :| d <= CLOSURE_MAX_DEPTH && Within(reg, root, p, d);
      ClosureHolds(reg, root, closure, p, d);
    }
    NamesSize(stats.visited);
    DistinctSetSize(stats.visited);
    SubsetSize((set p | p in stats.visited), closure);
  }

  lemma SubsetSize<T>(a: set<T>, b: set<T>)
    requires a <= b
    ensures |a| <= |b|
  {
    assert b == a + (b - a);
  }

  lemma DistinctSetSize(ps: seq<Package>)
    requires DistinctNames(ps)
    ensures |set p | p in ps| == |ps|
  {
    if ps != [] {
      var n := |ps| - 1;
      DistinctSetSize(ps[..n]);
      assert ps == ps[..n] + [ps[n]];
      assert (set p | p in ps) == (set p | p in ps[..n]) + {ps[n]};
    } else {
      assert (set p | p in ps) == {};
    }
  }

  /** Below the caps nothing on the frontier is ever dropped. */
  lemma {:induction false} WalkCovers(reg: Registry, root: Package, closure: set<Package>, schedule: seq<seq<nat>>)
    requires BelowCaps(reg, root, closure)
    ensures var (t, stats) := Walk(reg, root, schedule);
            && (root in stats.visited || Pending(t, root))
            && forall p :: p in stats.visited ==> Covered(reg, t, stats, p)
    decreases |schedule|
  {
    hide BelowCaps, Covered, Threaded;
    if schedule != [] {
      var n := |schedule| - 1;
      WalkCovers(reg, root, closure, schedule[..n]);
      WalkInvariant(reg, root, schedule[..n]);
      WalkThreaded(reg, root, schedule[..n]);
      assert ClosedFrom(reg, root, closure) by {
        BelowCapsIsClosed(reg, root, closure);
      }
      VisitedInClosure(reg, root, closure, schedule[..n]);
      var (t, stats) := Walk(reg, root, schedule[..n]);
      forall p | p in Walk(reg, root, schedule).1.visited
        ensures Covered(reg, Walk(reg, root, schedule).0, Walk(reg, root, schedule).1, p)
      {
        MoveCovers(reg, root, closure, t, schedule[n], stats, p);
      }
      if Pending(t, root) {
        PendingMoves(reg, root, closure, t, schedule[n], stats, root);
      }
      EnteredFlies(reg, t, schedule[n], stats, root);
    }
  }

  lemma BelowCapsIsClosed(reg: Registry, root: Package, closure: set<Package>)
    requires BelowCaps(reg, root, closure)
    ensures ClosedFrom(reg, root, closure)
  {
  }

  lemma FinishedCovers(reg: Registry, root: Package, t: Task, stats: Stats)
    requires t.Done? && (root in stats.visited || Pending(t, root))
    requires forall p :: p in stats.visited ==> Covered(reg, t, stats, p)
    ensures ClosedFrom(reg, root, set p | p in stats.visited)
  {
    forall p | p in stats.visited ensures forall q :: q in reg.dependencies(p) ==> q in stats.visited {
      assert Covered(reg, t, stats, p);
    }
  }

  /** Below the caps the walk is exact under every interleaving: it visits the
      least closed set around the root, and its result is that set's weight. */
  lemma ExactBelowCaps(reg: Registry, root: Package, closure: set<Package>, schedule: seq<seq<nat>>)
    requires BelowCaps(reg, root, closure)
    requires Walk(reg, root, schedule).0.Done?
    ensures var visited := set p | p in Walk(reg, root, schedule).1.visited;
            && ClosedFrom(reg, root, visited) && visited <= closure
            && Walk(reg, root, schedule).0.added == SumOver(visited, reg.weight)
  {
    var (t, stats) := Walk(reg, root, schedule);
    WalkCovers(reg, root, closure, schedule);
    BelowCapsIsClosed(reg, root, closure);
    VisitedInClosure(reg, root, closure, schedule);
    FinishedWalk(reg, root, schedule);
    SumWeightsIsSetSum(reg, stats.visited);
    hide BelowCaps, Covered, Pending, ClosedFrom, SumWeights, Shallow, Walk, Names, DistinctNames;
    FinishedCovers(reg, root, t, stats);
  }

  // ---- the estimate -------------------------------------------------------

  datatype Estimate = Estimate(bytesEstimate: Option<nat>, dependencyCount: Option<nat>)
  {
    predicate OverLimit() {
      if bytesEstimate.Some? then bytesEstimate.value > NPM_UNPACKED_SIZE_LIMIT_BYTES
      else dependencyCount.Some? && dependencyCount.value > PYPI_DEPENDENCY_LIMIT
    }
  }

  const UNKNOWN := Estimate(None, None)

  /** `estimate_npm` once its walk has returned; without metadata for the root
      itself the size is unknown, never zero. */
  function EstimateNpm(total: nat, rootFound: bool): Estimate {
    if rootFound then Estimate(Some(total), None) else UNKNOWN
  }

  /** `estimate_pypi` once its walk has returned. */
  function EstimatePypi(width: nat, rootFound: bool): Estimate {
    if rootFound && width > 0 then Estimate(None, Some(width)) else UNKNOWN
  }

  /** An npm package is called too big only if every closure of it really
      exceeds the limit. */
  lemma NpmVerdictSound(reg: Registry, root: Package, schedule: seq<seq<nat>>, rootFound: bool,
                        closure: set<Package>)
    requires Walk(reg, root, schedule).0.Done? && ClosedFrom(reg, root, closure)
    ensures EstimateNpm(Walk(reg, root, schedule).0.added, rootFound).OverLimit() ==>
              rootFound && SumOver(closure, reg.weight) > 62914560
  {
    NeverOvercounts(reg, root, schedule, closure);
  }

  lemma UnitWeights(reg: Registry, ps: seq<Package>)
    requires forall p :: reg.weight(p) == 1
    ensures SumWeights(reg, ps) == |ps|
  {
    if ps != [] {
      UnitWeights(reg, ps[..|ps| - 1]);
    }
  }

  /** For PyPI the result is the number of visited names, and a verdict of too
      big means more than forty packages in every closure. */
  lemma PypiVerdictSound(reg: Registry, root: Package, schedule: seq<seq<nat>>, rootFound: bool,
                         closure: set<Package>)
    requires forall p :: reg.weight(p) == 1
    requires Walk(reg, root, schedule).0.Done? && ClosedFrom(reg, root, closure)
    ensures Walk(reg, root, schedule).0.added == |Walk(reg, root, schedule).1.nodes| <= 60
    ensures EstimatePypi(Walk(reg, root, schedule).0.added, rootFound).OverLimit() ==>
              rootFound && |closure| > 40
  {
    NeverOvercounts(reg, root, schedule, closure);
    FinishedWalk(reg, root, schedule);
    UnitWeights(reg, Walk(reg, root, schedule).1.visited);
    SumConstant(closure, reg.weight, 1);
  }

  function Visited(reg: Registry, root: Package, schedule: seq<seq<nat>>): set<Package> {
    set p | p in Walk(reg, root, schedule).1.visited
  }

  /** The root is entered by the first move that moves anything. */
  lemma {:induction false} RootEntered(reg: Registry, root: Package, schedule: seq<seq<nat>>)
    ensures var (t, stats) := Walk(reg, root, schedule);
            (t == Start(root, 0) && stats == EMPTY_STATS) || root in stats.visited
    decreases |schedule|
  {
    if schedule != [] {
      var n := |schedule| - 1;
      RootEntered(reg, root, schedule[..n]);
      var (t, stats) := Walk(reg, root, schedule[..n]);
      EnteredFlies(reg, t, schedule[n], stats, root);
    }
  }

  /** The verdicts of a finished walk, both ways: over the limit exactly when the
      visited packages weigh more than sixty MiB, or are more than forty. The
      estimate is unknown only without metadata for the root. */
  lemma FinishedVerdictsIff(reg: Registry, root: Package, schedule: seq<seq<nat>>)
    requires Walk(reg, root, schedule).0.Done?
    ensures var added, visited := Walk(reg, root, schedule).0.added, Visited(reg, root, schedule);
            && EstimateNpm(added, false) == EstimatePypi(added, false) == Estimate(None, None)
            && !Estimate(None, None).OverLimit()
            && EstimateNpm(added, true) == Estimate(Some(SumOver(visited, reg.weight)), None)
            && ((forall p :: reg.weight(p) == 1) ==> EstimatePypi(added, true) == Estimate(None, Some(|visited|)))
            && (EstimateNpm(added, true).OverLimit() <==> SumOver(visited, reg.weight) > 62914560)
            && ((forall p :: reg.weight(p) == 1) ==> (EstimatePypi(added, true).OverLimit() <==> |visited| > 40))
  {
    FinishedWalk(reg, root, schedule);
    RootEntered(reg, root, schedule);
    SumWeightsIsSetSum(reg, Walk(reg, root, schedule).1.visited);
    assert root in Visited(reg, root, schedule);
    if forall p :: reg.weight(p) == 1 {
      SumConstant(Visited(reg, root, schedule), reg.weight, 1);
    }
  }

  /** The least set of packages around the root that is closed under
      dependencies. */
  ghost predicate LeastClosed(reg: Registry, root: Package, least: set<Package>) {
    ClosedFrom(reg, root, least) && forall c :: ClosedFrom(reg, root, c) ==> least <= c
  }

  /** Below the caps the verdict is about the true closure, under every
      interleaving: a package is over the limit if and only if its least closed
      set weighs more than sixty MiB, or has more than forty members. */
  lemma VerdictsExactBelowCaps(reg: Registry, root: Package, least: set<Package>, schedule: seq<seq<nat>>)
    requires BelowCaps(reg, root, least) && LeastClosed(reg, root, least)
    requires Walk(reg, root, schedule).0.Done?
    ensures var added := Walk(reg, root, schedule).0.added;
            && (EstimateNpm(added, true).OverLimit() <==> SumOver(least, reg.weight) > 62914560)
            && ((forall p :: reg.weight(p) == 1) ==> (EstimatePypi(added, true).OverLimit() <==> |least| > 40))
  {
    ExactBelowCaps(reg, root, least, schedule);
    FinishedVerdictsIff(reg, root, schedule);
    assert Visited(reg, root, schedule) == least;
  }

  /** There is such a set below the caps: what any finished walk visits. */
  lemma LeastClosedExists(reg: Registry, root: Package, closure: set<Package>, schedule: seq<seq<nat>>)
    requires BelowCaps(reg, root, closure) && Walk(reg, root, schedule).0.Done?
    ensures LeastClosed(reg, root, Visited(reg, root, schedule))
    ensures BelowCaps(reg, root, Visited(reg, root, schedule))
  {
    ExactBelowCaps(reg, root, closure, schedule);
    SubsetSize(Visited(reg, root, schedule), closure);
    forall c | ClosedFrom(reg, root, c) ensures Visited(reg, root, schedule) <= c {
      VisitedInClosure(reg, root, c, schedule);
    }
  }

  // ---- termination --------------------------------------------------------

  /** Moves a frame may still make, its children included. */
  function Fuel(depth: nat): nat
    decreases CLOSURE_MAX_DEPTH + 1 - depth
  {
    if depth > CLOSURE_MAX_DEPTH then 1 else 3 + CLOSURE_MAX_NODES * Fuel(depth + 1)
  }

  function Potential(t: Task): nat
    decreases t, 0
  {
    match t
    case Start(_, depth) => Fuel(depth)
    case Fetching(_, depth) => if Fuel(depth) == 0 then 0 else Fuel(depth) - 1
    case Waiting(_, children) => 1 + PotentialAll(children)
    case Done(_) => 0
  }

  function PotentialAll(children: seq<Task>): nat
    decreases children, 1
  {
    if children == [] then 0 else Potential(children[0]) + PotentialAll(children[1..])
  }

  lemma PotentialUpdate(children: seq<Task>, i: nat, child: Task)
    requires i < |children|
    ensures PotentialAll(children[i := child]) + Potential(children[i]) == PotentialAll(children) + Potential(child)
  {
    if i == 0 {
      assert children[i := child][1..] == children[1..];
    } else {
      PotentialUpdate(children[1..], i - 1, child);
      assert children[i := child][1..] == children[1..][i - 1 := child];
    }
  }

  lemma PotentialOfStarts(children: seq<Task>, depth: nat)
    requires forall i :: 0 <= i < |children| ==> children[i].Start? && children[i].depth == depth
    ensures PotentialAll(children) == |children| * Fuel(depth)
  {
    hide Fuel;
    if children != [] {
      PotentialOfStarts(children[1..], depth);
      assert |children| * Fuel(depth) == Fuel(depth) + (|children| - 1) * Fuel(depth);
    }
  }

  lemma FuelPositive(depth: nat)
    ensures Fuel(depth) > 0
  {
  }

  lemma ArriveShrinks(reg: Registry, p: Package, depth: nat, stats: Stats)
    requires depth <= CLOSURE_MAX_DEPTH
    ensures Potential(Arrive(reg, Fetching(p, depth), stats).0) < Potential(Fetching(p, depth))
  {
    var children := Arrive(reg, Fetching(p, depth), stats).0.children;
    PotentialOfStarts(children, depth + 1);
    NoMoreThan(|children|, CLOSURE_MAX_NODES, Fuel(depth + 1));
  }

  lemma NoMoreThan(a: nat, b: nat, c: nat)
    requires a <= b
    ensures a * c <= b * c
  {
    assert (b - a) * c >= 0;
  }

  /** Every move that moves anything lowers the potential. */
  lemma {:induction false} MoveProgress(reg: Registry, root: Package, t: Task, path: seq<nat>, stats: Stats)
    requires Rooted(reg, root, t)
    ensures var after := Move(reg, t, path, stats).0;
            after == t || Potential(after) < Potential(t)
    decreases t
  {
    match t
    case Start(_, depth) => FuelPositive(depth);
    case Fetching(p, depth) =>
      ArriveShrinks(reg, p, depth, stats);
    case Done(_) =>
    case Waiting(added, children) =>
      if !AllDone(children) && path != [] && path[0] < |children| {
        var i := path[0];
        var child := Move(reg, children[i], path[1..], stats).0;
        MoveProgress(reg, root, children[i], path[1..], stats);
        PotentialUpdate(children, i, child);
        if child == children[i] {
          assert children[i := child] == children;
        }
      }
  }

  predicate Moves(reg: Registry, root: Package, schedule: seq<seq<nat>>) {
    forall n :: 0 <= n < |schedule| ==>
      Walk(reg, root, schedule[..n + 1]).0 != Walk(reg, root, schedule[..n]).0
  }

  /** The walk ends: no schedule keeps it moving beyond a fixed number of
      moves, cycles or not. */
  lemma {:induction false} WalkTerminates(reg: Registry, root: Package, schedule: seq<seq<nat>>)
    requires Moves(reg, root, schedule)
    ensures |schedule| + Potential(Walk(reg, root, schedule).0) <= Fuel(0)
    decreases |schedule|
  {
    if schedule != [] {
      var n := |schedule| - 1;
      forall k | 0 <= k < n
        ensures Walk(reg, root, schedule[..n][..k + 1]).0 != Walk(reg, root, schedule[..n][..k]).0
      {
        assert schedule[..n][..k + 1] == schedule[..k + 1] && schedule[..n][..k] == schedule[..k];
      }
      WalkTerminates(reg, root, schedule[..n]);
      WalkInvariant(reg, root, schedule[..n]);
      var (t, stats) := Walk(reg, root, schedule[..n]);
      MoveProgress(reg, root, t, schedule[n], stats);
      assert schedule[..n + 1] == schedule;
    }
  }

  /** An unfinished tree always has a frame that can move. */
  lemma {:induction false} CanMove(reg: Registry, t: Task, stats: Stats) returns (path: seq<nat>)
    requires !t.Done?
    ensures Move(reg, t, path, stats).0 != t
    decreases t
  {
    path := [];
    if t.Waiting? && !AllDone(t.children) {
      var i :| 0 <= i < |t.children| && !t.children[i].Done?;
      var inner := CanMove(reg, t.children[i], stats);
      path := [i] + inner;
      assert path[1..] == inner;
      var child := Move(reg, t.children[i], inner, stats).0;
      assert t.children[i := child][i] != t.children[i];
    }
  }

  /** So every walk can be brought to its end, from wherever it stands: over
      every registry and root, each schedule extends to one that finishes. */
  lemma {:induction false} WalkFinishes(reg: Registry, root: Package, schedule: seq<seq<nat>>)
    returns (full: seq<seq<nat>>)
    ensures schedule <= full && Walk(reg, root, full).0.Done?
    decreases Potential(Walk(reg, root, schedule).0)
  {
    var (t, stats) := Walk(reg, root, schedule);
    if t.Done? {
      full := schedule;
    } else {
      var path := CanMove(reg, t, stats);
      WalkInvariant(reg, root, schedule);
      MoveProgress(reg, root, t, path, stats);
      assert (schedule + [path])[..|schedule|] == schedule;
      full := WalkFinishes(reg, root, schedule + [path]);
      assert full[..|schedule|] == schedule;
    }
  }
}
