/** The addon dependency check: unknown dependencies, and cycles by three-colour depth-first search. */
module DependencyGraph {
  import opened Paths

  type Graph = map<string, seq<string>>

  datatype Failure =
    | UnknownDependency(addon: string, dep: string)
    | DependencyCycle(addon: string, trail: seq<string>)

  /** A dependency inside the repository. */
  predicate Edge(g: Graph, a: string, b: string) {
    a in g && b in g[a] && b in g
  }

  function DependsOn(g: Graph): (string, string) -> bool {
    (a, b) => Edge(g, a, b)
  }

  ghost predicate Path(g: Graph, p: seq<string>) {
    IsPath(DependsOn(g), p)
  }

  ghost predicate Cycle(g: Graph, p: seq<string>) {
    |p| >= 2 && Path(g, p) && p[0] == p[|p| - 1]
  }

  ghost predicate HasCycle(g: Graph) {
    exists p :: Cycle(g, p)
  }

  /** The graph has a cycle exactly when some addon depends on one it is reached from. */
  lemma CycleIsReturn(g: Graph)
    ensures HasCycle(g) <==> exists a, b :: Edge(g, a, b) && Reaches(DependsOn(g), b, a)
  {
    if p :| Cycle(g, p) {
      var q := p[1..];
      forall i, j | 0 <= i && j == i + 1 && j < |q| ensures Edge(g, q[i], q[j]) {
        var i', j' := i + 1, j + 1;
        assert q[i] == p[i'] && q[j] == p[j'] && DependsOn(g)(p[i'], p[j']);
      }
      assert DependsOn(g)(p[0], p[1]);
      assert Joins(DependsOn(g), q, p[1], p[0]);
    }
    if a, b :| Edge(g, a, b) && Reaches(DependsOn(g), b, a) {
      var q :| Joins(DependsOn(g), q, b, a);
      var p := [a] + q;
      forall i, j | 0 <= i && j == i + 1 && j < |p| ensures Edge(g, p[i], p[j]) {
        if i > 0 {
          var i', j' := i - 1, j - 1;
          assert p[i] == q[i'] && p[j] == q[j'] && DependsOn(g)(q[i'], q[j']);
        }
      }
      assert Cycle(g, p);
    }
  }

  /** A reported trail: a real path whose last addon occurs on it before. */
  ghost predicate ClosedTrail(g: Graph, t: seq<string>) {
    |t| >= 2 && Path(g, t) && t[|t| - 1] in t[..|t| - 1]
  }

  lemma ClosedTrailIsCyclic(g: Graph, t: seq<string>)
    requires ClosedTrail(g, t)
    ensures HasCycle(g)
  {
    var k :| 0 <= k < |t| - 1 && t[k] == t[|t| - 1];
    var c := t[k..];
    forall i, j | 0 <= i && j == i + 1 && j < |c| ensures Edge(g, c[i], c[j]) {
      var i', j' := k + i, k + j;
      assert c[i] == t[i'] && c[j] == t[j'];
    }
    assert Cycle(g, c);
  }

  /** An order in which every dependency of an addon comes before it. */
  ghost predicate Ordered(g: Graph, order: seq<string>) {
    forall i, b | 0 <= i < |order| && Edge(g, order[i], b) :: b in order[..i]
  }

  ghost predicate Distinct(order: seq<string>) {
    forall i, j | 0 <= i < j < |order| :: order[i] != order[j]
  }

  /** Walking a path through such an order only goes down. */
  lemma {:induction false} PathDescends(g: Graph, order: seq<string>, p: seq<string>, k: nat) returns (i: nat)
    requires Ordered(g, order) && Path(g, p) && k < |p| && p[0] in order
    ensures i < |order| && order[i] == p[k]
    ensures k > 0 ==> p[k] in order[..i + 1] && exists m :: i < m < |order| && order[m] == p[0]
    decreases k
  {
    if k == 0 {
      i :| 0 <= i < |order| && order[i] == p[0];
    } else {
      var before := k - 1;
      var h := PathDescends(g, order, p, before);
      assert Edge(g, p[before], p[k]) && Edge(g, order[h], p[k]);
      i :| 0 <= i < h && order[i] == p[k];
      if before == 0 {
        assert order[h] == p[0];
      }
    }
  }

  lemma OrderedIsAcyclic(g: Graph, order: seq<string>)
    requires Ordered(g, order) && Distinct(order) && forall a | a in g :: a in order
    ensures !HasCycle(g)
  {
    if HasCycle(g) {
      var p :| Cycle(g, p);
      assert Edge(g, p[0], p[1]);
      var i := PathDescends(g, order, p, |p| - 1);
    }
  }

  predicate NoCycleReported(failures: seq<Failure>) {
    forall f | f in failures :: !f.DependencyCycle?
  }

  ghost predicate TrailsReal(g: Graph, failures: seq<Failure>) {
    forall f | f in failures && f.DependencyCycle? :: ClosedTrail(g, f.trail) && f.addon == f.trail[|f.trail| - 1]
  }

  /** Colours, trail and finishing order agree: 1 while an addon is on the trail, 2 once it is finished. */
  ghost predicate Consistent(g: Graph, state: map<string, int>, finished: seq<string>, failures: seq<Failure>,
                             trail: seq<string>) {
    && (forall a | a in state :: a in g && (state[a] == 1 || state[a] == 2))
    && (forall a :: a in trail <==> a in state && state[a] == 1)
    && (forall a :: a in finished <==> a in state && state[a] == 2)
    && Distinct(finished)
    && (NoCycleReported(failures) ==> Ordered(g, finished))
    && Path(g, trail)
    && TrailsReal(g, failures)
  }

  predicate Continues(g: Graph, trail: seq<string>, addon: string) {
    trail != [] ==> Edge(g, trail[|trail| - 1], addon)
  }

  lemma Extend(g: Graph, trail: seq<string>, addon: string)
    requires Path(g, trail) && Continues(g, trail, addon)
    ensures Path(g, trail + [addon])
  {
  }

  lemma Enter(g: Graph, state: map<string, int>, finished: seq<string>, failures: seq<Failure>, trail: seq<string>,
              addon: string)
    requires Consistent(g, state, finished, failures, trail) && Continues(g, trail, addon)
    requires addon in g && addon !in state
    ensures Consistent(g, state[addon := 1], finished, failures, trail + [addon])
  {
    hide Ordered, Path, TrailsReal;
    Extend(g, trail, addon);
  }

  lemma Report(g: Graph, state: map<string, int>, finished: seq<string>, failures: seq<Failure>, trail: seq<string>,
               addon: string)
    requires Consistent(g, state, finished, failures, trail) && Continues(g, trail, addon)
    requires addon in state && state[addon] == 1
    ensures Consistent(g, state, finished, failures + [DependencyCycle(addon, trail + [addon])], trail)
    ensures !NoCycleReported(failures + [DependencyCycle(addon, trail + [addon])])
  {
    var f, t := DependencyCycle(addon, trail + [addon]), trail + [addon];
    hide Ordered, Path;
    Extend(g, trail, addon);
    assert t[..|t| - 1] == trail;
    assert f in failures + [f];
  }

  lemma Leave(g: Graph, state: map<string, int>, finished: seq<string>, failures: seq<Failure>, trail: seq<string>,
              addon: string)
    requires Consistent(g, state, finished, failures, trail + [addon]) && addon !in trail
    requires NoCycleReported(failures) ==> forall b | Edge(g, addon, b) :: b in state && state[b] == 2
    ensures Consistent(g, state[addon := 2], finished + [addon], failures, trail)
  {
    var inner, order := trail + [addon], finished + [addon];
    assert addon in inner && addon !in finished;
    assert forall a :: a in inner <==> a in trail || a == addon;
    assert Path(g, trail) by {
      forall i, j | 0 <= i && j == i + 1 && j < |trail| ensures Edge(g, trail[i], trail[j]) {
        assert trail[i] == inner[i] && trail[j] == inner[j];
      }
    }
    if NoCycleReported(failures) {
      forall i, b | 0 <= i < |order| && Edge(g, order[i], b) ensures b in order[..i] {
        if i < |finished| {
          assert order[..i] == finished[..i] && order[i] == finished[i];
        } else {
          assert order[..i] == finished;
        }
      }
    }
  }

  /** Visiting only adds: colours stay or darken, reports are appended and are cycles. */
  ghost predicate Progress(state: map<string, int>, failures: seq<Failure>, state': map<string, int>,
                           failures': seq<Failure>) {
    && state.Keys <= state'.Keys && failures <= failures'
    && (forall a | a in state && state[a] == 2 :: state'[a] == 2)
    && (forall i | |failures| <= i < |failures'| :: failures'[i].DependencyCycle?)
  }

  /** The first `n` dependencies inside the repository are finished, unless a cycle was reported. */
  ghost predicate DepsFinished(g: Graph, deps: seq<string>, n: nat, state: map<string, int>, failures: seq<Failure>) {
    n <= |deps| && (NoCycleReported(failures) ==>
        forall k | 0 <= k < n && deps[k] in g :: deps[k] in state && state[deps[k]] == 2)
  }

  lemma NextDep(g: Graph, deps: seq<string>, n: nat, state: map<string, int>, failures: seq<Failure>,
                state': map<string, int>, failures': seq<Failure>)
    requires n < |deps| && DepsFinished(g, deps, n, state, failures) && Progress(state, failures, state', failures')
    requires NoCycleReported(failures') && deps[n] in g ==> deps[n] in state' && state'[deps[n]] == 2
    ensures DepsFinished(g, deps, n + 1, state', failures')
  {
    if NoCycleReported(failures') {
      forall f | f in failures ensures !f.DependencyCycle? {
        assert f in failures';
      }
    }
  }

  lemma ProgressTransitive(s0: map<string, int>, f0: seq<Failure>, s1: map<string, int>, f1: seq<Failure>,
                           s2: map<string, int>, f2: seq<Failure>)
    requires Progress(s0, f0, s1, f1) && Progress(s1, f1, s2, f2)
    ensures Progress(s0, f0, s2, f2)
  {
  }

  lemma AllDepsFinished(g: Graph, addon: string, state: map<string, int>, failures: seq<Failure>)
    requires addon in g && DepsFinished(g, g[addon], |g[addon]|, state, failures)
    ensures NoCycleReported(failures) ==> forall b | Edge(g, addon, b) :: b in state && state[b] == 2
  {
  }

  lemma FewerUncoloured(g: Graph, before: map<string, int>, now: map<string, int>, addon: string)
    requires addon in g && addon !in before && addon in now && before.Keys <= now.Keys
    ensures |g.Keys - now.Keys| < |g.Keys - before.Keys|
  {
    var a, b := g.Keys - now.Keys, g.Keys - before.Keys;
    assert addon in b && addon !in a && b == a + (b - a);
  }

  class Checker {
    const g: Graph
    const knownExternal: set<string>
    var state: map<string, int>
    var failures: seq<Failure>
    /** Finished addons, in the order they were finished. */
    ghost var finished: seq<string>

    constructor (g: Graph, knownExternal: set<string>)
      ensures this.g == g && this.knownExternal == knownExternal && state == map[] && failures == [] && finished == []
    {
      this.g := g;
      this.knownExternal := knownExternal;
      state, failures, finished := map[], [], [];
    }

    ghost predicate Valid(trail: seq<string>)
      reads this
    {
      Consistent(g, state, finished, failures, trail)
    }

    method Visit(addon: string, trail: seq<string>)
      requires addon in g && Valid(trail) && Continues(g, trail, addon)
      modifies this
      decreases |g.Keys - state.Keys|
      ensures Valid(trail) && Progress(old(state), old(failures), state, failures) && addon in state
      ensures NoCycleReported(failures) ==> state[addon] == 2
    {
      hide Ordered, Distinct, TrailsReal, Path, Progress, DepsFinished, Consistent, Continues;
      ProgressReflexive(state, failures);
      if addon in state && state[addon] == 2 {
        return;
      }
      if addon in state && state[addon] == 1 {
        Report(g, state, finished, failures, trail, addon);
        ReportIsProgress(state, failures, addon, trail + [addon]);
        failures := failures + [DependencyCycle(addon, trail + [addon])];
        return;
      }
      Uncoloured(g, state, finished, failures, trail, addon);
      Enter(g, state, finished, failures, trail, addon);
      EnterIsProgress(state, failures, addon);
      state := state[addon := 1];
      var inner := trail + [addon];
      var deps := g[addon];
      NoDepYet(g, deps, state, failures);
      for i := 0 to |deps|
        invariant Valid(inner) && Progress(old(state), old(failures), state, failures)
        invariant addon in state && DepsFinished(g, deps, i, state, failures)
      {
        ghost var state0, failures0 := state, failures;
        ProgressReflexive(state, failures);
        if deps[i] in g {
          KeysGrow(old(state), old(failures), state, failures);
          FewerUncoloured(g, old(state), state, addon);
          InnerContinues(g, trail, addon, deps[i]);
          Visit(deps[i], inner);
          KeysGrow(state0, failures0, state, failures);
        }
        NextDep(g, deps, i, state0, failures0, state, failures);
        ProgressTransitive(old(state), old(failures), state0, failures0, state, failures);
      }
      AllDepsFinished(g, addon, state, failures);
      Leave(g, state, finished, failures, trail, addon);
      LeaveIsProgress(old(state), old(failures), state, failures, addon);
      state := state[addon := 2];
      finished := finished + [addon];
    }

    /** Reports every unknown dependency, then every cycle the search closes. */
    method CheckGraph(addons: seq<string>)
      requires state == map[] && failures == [] && finished == []
      requires forall a :: a in addons <==> a in g
      modifies this
      ensures NoCycleReported(failures) <==> !HasCycle(g)
      ensures TrailsReal(g, failures)
      ensures forall a, d ::
        UnknownDependency(a, d) in failures <==> a in g && d in g[a] && d !in g && d !in knownExternal
    {
      hide Ordered, Path, Progress, HasCycle;
      ReportUnknown(addons);
      StartConsistent(g, failures);
      ghost var unknown := failures;
      ProgressReflexive(state, failures);
      for i := 0 to |addons|
        invariant Valid([]) && Progress(map[], unknown, state, failures)
        invariant NoCycleReported(failures) ==> forall a | a in addons[..i] :: a in state && state[a] == 2
      {
        ghost var state0, failures0 := state, failures;
        assert addons[..i + 1] == addons[..i] + [addons[i]];
        assert addons[i] in addons;
        Visit(addons[i], []);
        StillFinished(state0, failures0, state, failures);
        ProgressTransitive(map[], unknown, state0, failures0, state, failures);
      }
      assert addons[..|addons|] == addons;
      SameUnknown(unknown, state, failures);
      if NoCycleReported(failures) {
        OrderedIsAcyclic(g, finished);
      } else {
        var f :| f in failures && f.DependencyCycle?;
        ClosedTrailIsCyclic(g, f.trail);
      }
    }

    method ReportUnknown(addons: seq<string>)
      requires failures == [] && forall a :: a in addons <==> a in g
      modifies this`failures
      ensures NoCycleReported(failures)
      ensures forall a, d ::
        UnknownDependency(a, d) in failures <==> a in g && d in g[a] && d !in g && d !in knownExternal
    {
      for i := 0 to |addons|
        invariant NoCycleReported(failures)
        invariant forall a, d :: (UnknownDependency(a, d) in failures
          <==> a in addons[..i] && a in g && d in g[a] && d !in g && d !in knownExternal)
      {
        assert addons[..i + 1] == addons[..i] + [addons[i]];
        assert addons[i] in addons;
        var deps := g[addons[i]];
        ghost var before := failures;
        for k := 0 to |deps|
          invariant NoCycleReported(failures)
          invariant forall a, d :: (UnknownDependency(a, d) in failures
            <==> (UnknownDependency(a, d) in before
                  || (a == addons[i] && d in deps[..k] && d !in g && d !in knownExternal)))
        {
          assert deps[..k + 1] == deps[..k] + [deps[k]];
          if deps[k] !in g && deps[k] !in knownExternal {
            failures := failures + [UnknownDependency(addons[i], deps[k])];
          }
        }
        assert deps[..|deps|] == deps;
      }
      assert addons[..|addons|] == addons;
    }
  }

  lemma Uncoloured(g: Graph, state: map<string, int>, finished: seq<string>, failures: seq<Failure>,
                   trail: seq<string>, addon: string)
    requires Consistent(g, state, finished, failures, trail)
    requires addon in state ==> state[addon] != 1 && state[addon] != 2
    ensures addon !in state && addon !in trail
  {
  }

  lemma InnerContinues(g: Graph, trail: seq<string>, addon: string, dep: string)
    requires Edge(g, addon, dep)
    ensures Continues(g, trail + [addon], dep)
  {
  }

  lemma ProgressReflexive(state: map<string, int>, failures: seq<Failure>)
    ensures Progress(state, failures, state, failures)
  {
  }

  lemma ReportIsProgress(state: map<string, int>, failures: seq<Failure>, addon: string, trail: seq<string>)
    ensures Progress(state, failures, state, failures + [DependencyCycle(addon, trail)])
  {
  }

  lemma EnterIsProgress(state: map<string, int>, failures: seq<Failure>, addon: string)
    requires addon !in state
    ensures Progress(state, failures, state[addon := 1], failures)
  {
  }

  lemma LeaveIsProgress(state0: map<string, int>, failures0: seq<Failure>, state: map<string, int>,
                        failures: seq<Failure>, addon: string)
    requires Progress(state0, failures0, state, failures)
    ensures Progress(state0, failures0, state[addon := 2], failures)
  {
  }

  lemma NoDepYet(g: Graph, deps: seq<string>, state: map<string, int>, failures: seq<Failure>)
    ensures DepsFinished(g, deps, 0, state, failures)
  {
  }

  lemma KeysGrow(state: map<string, int>, failures: seq<Failure>, state': map<string, int>, failures': seq<Failure>)
    requires Progress(state, failures, state', failures')
    ensures state.Keys <= state'.Keys
  {
  }

  lemma StillFinished(state: map<string, int>, failures: seq<Failure>, state': map<string, int>,
                      failures': seq<Failure>)
    requires Progress(state, failures, state', failures')
    ensures forall a | a in state && state[a] == 2 :: a in state' && state'[a] == 2
    ensures NoCycleReported(failures') ==> NoCycleReported(failures)
  {
    assert forall f | f in failures :: f in failures';
  }

  lemma SameUnknown(unknown: seq<Failure>, state: map<string, int>, failures: seq<Failure>)
    requires Progress(map[], unknown, state, failures)
    ensures forall a, d :: UnknownDependency(a, d) in failures <==> UnknownDependency(a, d) in unknown
  {
    forall a, d ensures UnknownDependency(a, d) in failures <==> UnknownDependency(a, d) in unknown {
      if UnknownDependency(a, d) in failures {
        var i :| 0 <= i < |failures| && failures[i] == UnknownDependency(a, d);
      }
    }
  }

  lemma StartConsistent(g: Graph, failures: seq<Failure>)
    requires NoCycleReported(failures)
    ensures Consistent(g, map[], [], failures, [])
  {
  }
}
